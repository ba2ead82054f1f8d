/** Reading a movie header, an image size or a sound length out of the bytes of a media file. */
module MediaBoxes {
  import opened Collections
  import opened Outline

  type Byte = x: int | 0 <= x < 0x100

  // ----- Numbers in bytes -----

  function U16(b: seq<Byte>, o: nat): (n: nat)
    requires o + 2 <= |b|
    ensures n < 0x1_0000
  {
    (b[o] as int) * 0x100 + b[o + 1]
  }

  function U32(b: seq<Byte>, o: nat): (n: nat)
    requires o + 4 <= |b|
    ensures n < 0x1_0000_0000
  {
    U16(b, o) * 0x1_0000 + U16(b, o + 2)
  }

  function U64(b: seq<Byte>, o: nat): (n: nat)
    requires o + 8 <= |b|
    ensures n < 0x1_0000_0000_0000_0000
  {
    U32(b, o) * 0x1_0000_0000 + U32(b, o + 4)
  }

  function Bytes16(n: nat): (b: seq<Byte>)
    requires n < 0x1_0000
    ensures |b| == 2 && U16(b, 0) == n
  {
    [n / 0x100, n % 0x100]
  }

  function Bytes32(n: nat): (b: seq<Byte>)
    requires n < 0x1_0000_0000
    ensures |b| == 4 && U32(b, 0) == n
  {
    var r := Bytes16(n / 0x1_0000) + Bytes16(n % 0x1_0000);
    assert r[..2] == Bytes16(n / 0x1_0000) && r[2..] == Bytes16(n % 0x1_0000);
    assert U16(r, 0) == n / 0x1_0000 && U16(r, 2) == n % 0x1_0000;
    r
  }

  function Bytes64(n: nat): (b: seq<Byte>)
    requires n < 0x1_0000_0000_0000_0000
    ensures |b| == 8 && U64(b, 0) == n
  {
    var r := Bytes32(n / 0x1_0000_0000) + Bytes32(n % 0x1_0000_0000);
    assert r[..4] == Bytes32(n / 0x1_0000_0000) && r[4..] == Bytes32(n % 0x1_0000_0000);
    assert U32(r, 0) == U32(Bytes32(n / 0x1_0000_0000), 0) && U32(r, 4) == U32(Bytes32(n % 0x1_0000_0000), 0);
    r
  }

  /** Boxes and pictures have the high byte first. */
  lemma HighByteFirst()
    ensures Bytes16(0x102) == [1, 2] && Bytes32(0x1020304) == [1, 2, 3, 4]
    ensures Bytes64(0x102030405060708) == [1, 2, 3, 4, 5, 6, 7, 8]
  {
  }

  // ----- Finding the movie header -----

  const MVHD: seq<Byte> := [0x6d, 0x76, 0x68, 0x64]
  const MOOV: seq<Byte> := [0x6d, 0x6f, 0x6f, 0x76]
  const MAX_SAFE: nat := 0x20_0000_0000_0000 - 1

  datatype Span = Span(offset: nat, size: nat)

  function HeaderSize(b: seq<Byte>, o: nat): nat
    requires o + 8 <= |b|
  {
    if U32(b, o) == 1 then 16 else 8
  }

  function BoxSize(b: seq<Byte>, o: nat): nat
    requires o + 8 <= |b|
  {
    if U32(b, o) == 1 && o + 16 <= |b| then U64(b, o + 8) else U32(b, o)
  }

  predicate Broken(b: seq<Byte>, o: nat)
    requires o + 8 <= |b|
  {
    BoxSize(b, o) > MAX_SAFE || BoxSize(b, o) < HeaderSize(b, o)
  }

  function BoxEnd(b: seq<Byte>, o: nat): (e: nat)
    requires o + 8 <= |b| && !Broken(b, o)
    ensures o + HeaderSize(b, o) <= e <= |b|
  {
    if o + BoxSize(b, o) < |b| then o + BoxSize(b, o) else |b|
  }

  /** The search as a recursion over the boxes from `o` on. */
  function Find(b: seq<Byte>, o: nat, end: nat): (found: Option<Span>)
    ensures found.Some? ==> found.value.offset + found.value.size <= |b|
    decreases |b| - o
  {
    if o + 8 > end || o + 8 > |b| || Broken(b, o) then None
    else
      var header, boxEnd, kind := HeaderSize(b, o), BoxEnd(b, o), b[o + 4..o + 8];
      if kind == MVHD then Some(Span(o + header, boxEnd - o - header))
      else
        var nested := if kind == MOOV then Find(b, o + header, boxEnd) else None;
        if nested.Some? then nested else Find(b, boxEnd, end)
  }

  lemma FindStep(b: seq<Byte>, o: nat, end: nat)
    ensures o + 8 > end || o + 8 > |b| ==> Find(b, o, end) == None
    ensures o + 8 <= end && o + 8 <= |b| && Broken(b, o) ==> Find(b, o, end) == None
    ensures o + 8 <= end && o + 8 <= |b| && !Broken(b, o) ==>
      var header, boxEnd, kind := HeaderSize(b, o), BoxEnd(b, o), b[o + 4..o + 8];
      var nested := if kind == MOOV then Find(b, o + header, boxEnd) else None;
      Find(b, o, end) ==
        if kind == MVHD then Some(Span(o + header, boxEnd - o - header))
        else if nested.Some? then nested
        else Find(b, boxEnd, end)
  {
  }

  /** `findMvhd`: a loop over the boxes, and a call for the boxes inside a movie box. */
  method FindMvhd(b: seq<Byte>, start: nat, end: nat) returns (found: Option<Span>)
    ensures found == Find(b, start, end)
    decreases |b| - start
  {
    hide U16, U32, U64, Find;
    var offset := start;
    while offset + 8 <= end && offset + 8 <= |b|
      invariant start <= offset && Find(b, offset, end) == Find(b, start, end)
      decreases |b| - offset
    {
      FindStep(b, offset, end);
      var size32 := U32(b, offset);
      var kind := b[offset + 4..offset + 8];
      var headerSize := if size32 == 1 then 16 else 8;
      var size := if size32 == 1 && offset + 16 <= |b| then U64(b, offset + 8) else size32;
      if size > MAX_SAFE || size < headerSize { return None; }
      var boxEnd := if offset + size < |b| then offset + size else |b|;
      if kind == MVHD { return Some(Span(offset + headerSize, boxEnd - offset - headerSize)); }
      if kind == MOOV {
        var nested := FindMvhd(b, offset + headerSize, boxEnd);
        if nested.Some? { return nested; }
      }
      offset := boxEnd;
    }
    FindStep(b, offset, end);
    found := None;
  }

  // ----- Writing boxes -----

  /** A box with a 32-bit or a 64-bit size: a movie box with boxes inside, or a box with data. */
  datatype Box =
    | Movie(wide: bool, children: seq<Box>)
    | Data(wide: bool, kind: seq<Byte>, payload: seq<Byte>)

  function Kind(box: Box): seq<Byte> {
    match box
    case Movie(_, _) => MOOV
    case Data(_, kind, _) => kind
  }

  function Payload(box: Box): seq<Byte>
    requires Fits(box)
    decreases box, 0
  {
    match box
    case Movie(_, children) => WriteAll(children)
    case Data(_, _, payload) => payload
  }

  /** Sizes that the size fields can hold, and kinds of four bytes. */
  predicate Fits(box: Box)
    decreases box, 1
  {
    && |Kind(box)| == 4
    && (box.Data? ==> box.kind != MOOV)
    && (box.Movie? ==> AllFit(box.children))
    && var length := if box.Movie? then Length(box.children) else |box.payload|;
       if box.wide then 16 + length <= MAX_SAFE else 8 + length < 0x1_0000_0000
  }

  predicate AllFit(boxes: seq<Box>)
    decreases boxes, 2
  {
    forall i :: 0 <= i < |boxes| ==> Fits(boxes[i])
  }

  function BoxLength(box: Box): nat
    decreases box, 0
  {
    (if box.wide then 16 else 8) + if box.Movie? then Length(box.children) else |box.payload|
  }

  function Length(boxes: seq<Box>): nat
    decreases boxes, 1
  {
    if boxes == [] then 0 else BoxLength(boxes[0]) + Length(boxes[1..])
  }

  function Write(box: Box): (b: seq<Byte>)
    requires Fits(box)
    ensures |b| == BoxLength(box)
    decreases box, 1
  {
    var payload := Payload(box);
    if box.wide then Bytes32(1) + Kind(box) + Bytes64(16 + |payload|) + payload
    else Bytes32(8 + |payload|) + Kind(box) + payload
  }

  function WriteAll(boxes: seq<Box>): (b: seq<Byte>)
    requires AllFit(boxes)
    ensures |b| == Length(boxes)
    decreases boxes, 2
  {
    if boxes == [] then [] else Write(boxes[0]) + WriteAll(boxes[1..])
  }

  // ----- Reading back what was written -----

  /** Where a piece of the bytes is two parts, each part is found at its place. */
  lemma Cut(b: seq<Byte>, o: nat, x: seq<Byte>, y: seq<Byte>)
    requires o + |x| + |y| <= |b| && b[o..o + |x| + |y|] == x + y
    ensures b[o..o + |x|] == x && b[o + |x|..o + |x| + |y|] == y
  {
    var whole := b[o..o + |x| + |y|];
    assert whole[..|x|] == x && whole[|x|..] == y;
    assert b[o..o + |x|] == whole[..|x|];
    assert b[o + |x|..o + |x| + |y|] == whole[|x|..];
  }

  lemma NarrowHeader(b: seq<Byte>, o: nat, size: seq<Byte>, kind: seq<Byte>, payload: seq<Byte>)
    requires |size| == 4 && |kind| == 4 && o + 8 + |payload| <= |b|
    requires b[o..o + 8 + |payload|] == size + kind + payload
    ensures U32(b, o) == U32(size, 0) && b[o + 4..o + 8] == kind && b[o + 8..o + 8 + |payload|] == payload
  {
    Cut(b, o, size + kind, payload);
    Cut(b, o, size, kind);
    Reads32(b, o, size);
  }

  lemma WideHeader(b: seq<Byte>, o: nat, size: seq<Byte>, kind: seq<Byte>, wide: seq<Byte>, payload: seq<Byte>)
    requires |size| == 4 && |kind| == 4 && |wide| == 8 && o + 16 + |payload| <= |b|
    requires b[o..o + 16 + |payload|] == size + kind + wide + payload
    ensures U32(b, o) == U32(size, 0) && b[o + 4..o + 8] == kind && U64(b, o + 8) == U64(wide, 0)
    ensures b[o + 16..o + 16 + |payload|] == payload
  {
    Cut(b, o, size + kind + wide, payload);
    Cut(b, o, size + kind, wide);
    Cut(b, o, size, kind);
    Reads32(b, o, size);
    Reads64(b, o + 8, wide);
  }

  lemma Reads32(b: seq<Byte>, o: nat, number: seq<Byte>)
    requires |number| == 4 && o + 4 <= |b| && b[o..o + 4] == number
    ensures U32(b, o) == U32(number, 0)
  {
    assert number[0] == b[o] && number[1] == b[o + 1] && number[2] == b[o + 2] && number[3] == b[o + 3];
  }

  lemma Reads64(b: seq<Byte>, o: nat, number: seq<Byte>)
    requires |number| == 8 && o + 8 <= |b| && b[o..o + 8] == number
    ensures U64(b, o) == U64(number, 0)
  {
    var high, low := number[..4], number[4..];
    assert b[o..o + 4] == high && b[o + 4..o + 8] == low;
    Reads32(b, o, high);
    Reads32(b, o + 4, low);
    assert number[0..4] == high && number[4..8] == low;
    Reads32(number, 0, high);
    Reads32(number, 4, low);
  }

  /** A written box announces its own length, kind and payload. */
  lemma ReadsBox(b: seq<Byte>, o: nat, box: Box)
    requires Fits(box) && o + BoxLength(box) <= |b| && b[o..o + BoxLength(box)] == Write(box)
    ensures o + 8 <= |b| && !Broken(b, o) && b[o + 4..o + 8] == Kind(box)
    ensures var header := if box.wide then 16 else 8;
      HeaderSize(b, o) == header && BoxEnd(b, o) == o + BoxLength(box) && b[o + header..o + BoxLength(box)] == Payload(box)
  {
    hide *;
    WriteStep(box);
    var payload := Payload(box);
    if box.wide {
      WideHeader(b, o, Bytes32(1), Kind(box), Bytes64(16 + |payload|), payload);
    } else {
      NarrowHeader(b, o, Bytes32(8 + |payload|), Kind(box), payload);
    }
    ReadsSizes(b, o, box.wide, BoxLength(box));
  }

  lemma ReadsSizes(b: seq<Byte>, o: nat, wide: bool, n: nat)
    requires o + n <= |b| && (if wide then 16 <= n <= MAX_SAFE else 8 <= n < 0x1_0000_0000)
    requires U32(b, o) == if wide then 1 else n
    requires wide ==> U64(b, o + 8) == n
    ensures !Broken(b, o) && HeaderSize(b, o) == (if wide then 16 else 8) && BoxEnd(b, o) == o + n
  {
    hide U32, U64;
  }

  lemma WriteStep(box: Box)
    requires Fits(box)
    ensures |Kind(box)| == 4 && BoxLength(box) == (if box.wide then 16 else 8) + |Payload(box)|
    ensures if box.wide then 16 + |Payload(box)| <= MAX_SAFE else 8 + |Payload(box)| < 0x1_0000_0000
    ensures Write(box) ==
      if box.wide then Bytes32(1) + Kind(box) + Bytes64(16 + |Payload(box)|) + Payload(box)
      else Bytes32(8 + |Payload(box)|) + Kind(box) + Payload(box)
  {
  }

  /** The payload of the first movie header in document order, at the top or inside movie boxes. */
  function FirstHeader(boxes: seq<Box>): Option<seq<Byte>>
    decreases boxes
  {
    if boxes == [] then None
    else
      var inside := match boxes[0]
        case Data(_, kind, payload) => if kind == MVHD then Some(payload) else None
        case Movie(_, children) => FirstHeader(children);
      if inside.Some? then inside else FirstHeader(boxes[1..])
  }

  /** What was found is the wanted payload. */
  predicate Finds(b: seq<Byte>, found: Option<Span>, wanted: Option<seq<Byte>>) {
    match found
    case None => wanted == None
    case Some(span) => span.offset + span.size <= |b| && wanted == Some(b[span.offset..span.offset + span.size])
  }

  /** The search through the boxes finds their first header, or goes on behind them. */
  predicate Continues(b: seq<Byte>, o: nat, boxes: seq<Box>, end: nat) {
    if FirstHeader(boxes).Some? then Finds(b, Find(b, o, end), FirstHeader(boxes))
    else Find(b, o, end) == Find(b, o + Length(boxes), end)
  }

  /** Searching a written forest finds exactly the first movie header, wherever in a file the forest stands. */
  lemma FindsFirstHeader(b: seq<Byte>, o: nat, boxes: seq<Box>)
    requires AllFit(boxes) && o + Length(boxes) <= |b| && b[o..o + Length(boxes)] == WriteAll(boxes)
    ensures Finds(b, Find(b, o, o + Length(boxes)), FirstHeader(boxes))
    decreases boxes, 1
  {
    hide *;
    FindsOrGoesOn(b, o, boxes, o + Length(boxes));
    NoRoom(b, o + Length(boxes));
    ContinuesToNothing(b, o, boxes, o + Length(boxes));
  }

  lemma {:induction false} FindsOrGoesOn(b: seq<Byte>, o: nat, boxes: seq<Box>, end: nat)
    requires AllFit(boxes) && o + Length(boxes) <= |b| && b[o..o + Length(boxes)] == WriteAll(boxes) && o + Length(boxes) <= end
    ensures Continues(b, o, boxes, end)
    decreases boxes, 0
  {
    hide *;
    if boxes == [] {
      NoBoxes(b, o, end);
    } else {
      var box, rest := boxes[0], boxes[1..];
      WrittenParts(b, o, boxes);
      FindsOrGoesOn(b, o + BoxLength(box), rest, end);
      match box
      case Data(_, _, _) =>
        FindsPastData(b, o, boxes, end);
      case Movie(wide, children) =>
        MovieParts(b, o, box);
        FindsFirstHeader(b, o + if wide then 16 else 8, children);
        FindsPastMovie(b, o, boxes, end);
    }
  }

  lemma NoRoom(b: seq<Byte>, o: nat)
    ensures Find(b, o, o) == None
  {
  }

  lemma ContinuesToNothing(b: seq<Byte>, o: nat, boxes: seq<Box>, end: nat)
    requires Continues(b, o, boxes, end) && Find(b, o + Length(boxes), end) == None
    ensures Finds(b, Find(b, o, end), FirstHeader(boxes))
  {
    hide Find, FirstHeader, Length;
  }

  lemma NoBoxes(b: seq<Byte>, o: nat, end: nat)
    ensures Length([]) == 0 && Continues(b, o, [], end)
  {
  }

  lemma MovieParts(b: seq<Byte>, o: nat, box: Box)
    requires box.Movie? && Fits(box) && o + BoxLength(box) <= |b| && b[o..o + BoxLength(box)] == Write(box)
    ensures var header := if box.wide then 16 else 8;
      && BoxLength(box) == header + Length(box.children) && AllFit(box.children)
      && b[o + header..o + BoxLength(box)] == WriteAll(box.children)
  {
    MovieStep(box);
    hide *;
    ReadsBox(b, o, box);
  }

  lemma MovieStep(box: Box)
    requires box.Movie? && Fits(box)
    ensures AllFit(box.children) && Payload(box) == WriteAll(box.children) && Kind(box) == MOOV && MOOV != MVHD
    ensures BoxLength(box) == (if box.wide then 16 else 8) + Length(box.children)
  {
    assert MOOV[1] != MVHD[1];
    hide WriteAll, AllFit;
  }

  lemma FirstHeaderStep(boxes: seq<Box>)
    requires boxes != []
    ensures FirstHeader(boxes) ==
      var inside := match boxes[0]
        case Data(_, kind, payload) => if kind == MVHD then Some(payload) else None
        case Movie(_, children) => FirstHeader(children);
      if inside.Some? then inside else FirstHeader(boxes[1..])
  {
  }

  lemma DataStep(box: Box)
    requires box.Data? && Fits(box)
    ensures Kind(box) == box.kind && Payload(box) == box.payload && box.kind != MOOV
  {
  }

  lemma FoundHere(b: seq<Byte>, o: nat, size: nat, payload: seq<Byte>)
    requires o + size <= |b| && b[o..o + size] == payload
    ensures Finds(b, Some(Span(o, size)), Some(payload))
  {
  }

  lemma NotFoundIs(b: seq<Byte>, found: Option<Span>, wanted: Option<seq<Byte>>)
    requires Finds(b, found, wanted)
    ensures found.Some? <==> wanted.Some?
  {
  }

  lemma FindsPastData(b: seq<Byte>, o: nat, boxes: seq<Box>, end: nat)
    requires AllFit(boxes) && boxes != [] && boxes[0].Data? && o + Length(boxes) <= |b| && b[o..o + Length(boxes)] == WriteAll(boxes)
    requires o + Length(boxes) <= end && Continues(b, o + BoxLength(boxes[0]), boxes[1..], end)
    ensures Continues(b, o, boxes, end)
  {
    hide *;
    var box := boxes[0];
    WrittenParts(b, o, boxes);
    ReadsBox(b, o, box);
    FindStep(b, o, end);
    DataStep(box);
    FirstHeaderStep(boxes);
    var header := if box.wide then 16 else 8;
    if box.kind == MVHD { FoundHere(b, o + header, BoxLength(box) - header, box.payload); }
    ContinuesStep(b, o, boxes, end);
  }

  /** How the search through a list continues, from how it continues through the rest. */
  lemma ContinuesStep(b: seq<Byte>, o: nat, boxes: seq<Box>, end: nat)
    requires boxes != [] && Length(boxes) == BoxLength(boxes[0]) + Length(boxes[1..])
    requires Continues(b, o + BoxLength(boxes[0]), boxes[1..], end)
    requires (FirstHeader(boxes) == FirstHeader(boxes[1..]) && Find(b, o, end) == Find(b, o + BoxLength(boxes[0]), end))
      || (FirstHeader(boxes).Some? && Finds(b, Find(b, o, end), FirstHeader(boxes)))
    ensures Continues(b, o, boxes, end)
  {
    hide Find, FirstHeader, Length, BoxLength, Finds;
  }

  lemma FindsPastMovie(b: seq<Byte>, o: nat, boxes: seq<Box>, end: nat)
    requires AllFit(boxes) && boxes != [] && boxes[0].Movie? && o + Length(boxes) <= |b| && b[o..o + Length(boxes)] == WriteAll(boxes)
    requires o + Length(boxes) <= end && Continues(b, o + BoxLength(boxes[0]), boxes[1..], end)
    requires Finds(b, Find(b, o + if boxes[0].wide then 16 else 8, o + BoxLength(boxes[0])), FirstHeader(boxes[0].children))
    ensures Continues(b, o, boxes, end)
  {
    hide *;
    var box := boxes[0];
    var header := if box.wide then 16 else 8;
    WrittenParts(b, o, boxes);
    ReadsBox(b, o, box);
    FindStep(b, o, end);
    MovieStep(box);
    FirstHeaderStep(boxes);
    NotFoundIs(b, Find(b, o + header, o + BoxLength(box)), FirstHeader(box.children));
    ContinuesStep(b, o, boxes, end);
  }

  lemma WriteAllStep(boxes: seq<Box>)
    requires AllFit(boxes) && boxes != []
    ensures Fits(boxes[0]) && AllFit(boxes[1..]) && BoxLength(boxes[0]) >= 8
    ensures Length(boxes) == BoxLength(boxes[0]) + Length(boxes[1..])
    ensures WriteAll(boxes) == Write(boxes[0]) + WriteAll(boxes[1..])
  {
    hide Fits;
  }

  lemma WrittenParts(b: seq<Byte>, o: nat, boxes: seq<Box>)
    requires AllFit(boxes) && boxes != [] && o + Length(boxes) <= |b| && b[o..o + Length(boxes)] == WriteAll(boxes)
    ensures Fits(boxes[0]) && AllFit(boxes[1..])
    ensures var n := BoxLength(boxes[0]);
      && n >= 8 && Length(boxes) == n + Length(boxes[1..])
      && b[o..o + n] == Write(boxes[0]) && b[o + n..o + Length(boxes)] == WriteAll(boxes[1..])
  {
    hide *;
    WriteAllStep(boxes);
    Cut(b, o, Write(boxes[0]), WriteAll(boxes[1..]));
  }

  // ----- A last box that reaches to the end of the file -----

  /** A box of size 0, which stands last in its file and reaches to the end. */
  datatype Open = OpenMovie(children: seq<Box>) | OpenData(kind: seq<Byte>, payload: seq<Byte>)

  datatype File = File(boxes: seq<Box>, open: Option<Open>)

  predicate OpenFits(open: Open) {
    match open
    case OpenMovie(children) => AllFit(children)
    case OpenData(kind, _) => |kind| == 4 && kind != MOOV
  }

  predicate FileFits(file: File) {
    AllFit(file.boxes) && (file.open.Some? ==> OpenFits(file.open.value))
  }

  function WriteOpen(open: Open): (b: seq<Byte>)
    requires OpenFits(open)
    ensures |b| >= 8 && U32(b, 0) == 0
  {
    match open
    case OpenMovie(children) => Bytes32(0) + MOOV + WriteAll(children)
    case OpenData(kind, payload) => Bytes32(0) + kind + payload
  }

  function WriteFile(file: File): seq<Byte>
    requires FileFits(file)
  {
    WriteAll(file.boxes) + if file.open.Some? then WriteOpen(file.open.value) else []
  }

  function OpenHeader(open: Option<Open>): Option<seq<Byte>> {
    match open
    case None => None
    case Some(OpenMovie(children)) => FirstHeader(children)
    case Some(OpenData(kind, payload)) => if kind == MVHD then Some(payload) else None
  }

  /** The first movie header of the file, as the standard has it. */
  function FileHeader(file: File): Option<seq<Byte>> {
    if FirstHeader(file.boxes).Some? then FirstHeader(file.boxes) else OpenHeader(file.open)
  }

  /** The search ends at an open box, whatever it holds. */
  lemma StopsAtOpenBox(b: seq<Byte>, o: nat, end: nat)
    requires o + 8 <= |b| && U32(b, o) == 0
    ensures Find(b, o, end) == None
  {
    hide U32, U64;
  }

  /** Of a file with an open last box only the boxes before it are searched. */
  lemma FindsBeforeOpenBox(file: File)
    requires FileFits(file)
    ensures var b := WriteFile(file);
      Finds(b, Find(b, 0, |b|), FirstHeader(file.boxes))
  {
    hide *;
    FileParts(file);
    var b, n := WriteFile(file), Length(file.boxes);
    if file.open.Some? {
      StopsAtOpenBox(b, n, |b|);
    } else {
      NoRoom(b, n);
    }
    FindsOrGoesOn(b, 0, file.boxes, |b|);
    ContinuesToNothing(b, 0, file.boxes, |b|);
  }

  lemma FileParts(file: File)
    requires FileFits(file)
    ensures var b, n := WriteFile(file), Length(file.boxes);
      && AllFit(file.boxes) && n <= |b| && b[0..n] == WriteAll(file.boxes)
      && (file.open.None? ==> |b| == n) && (file.open.Some? ==> n + 8 <= |b| && U32(b, n) == 0)
  {
    hide U32, AllFit, OpenFits;
    var b, n := WriteFile(file), Length(file.boxes);
    if file.open.Some? {
      var open := WriteOpen(file.open.value);
      hide WriteOpen, WriteAll, Length;
      assert b == WriteAll(file.boxes) + open;
      SameNumber(b, n, open);
    }
  }

  lemma SameNumber(b: seq<Byte>, o: nat, s: seq<Byte>)
    requires o + 4 <= |b| && 4 <= |s| && b[o..] == s
    ensures U32(b, o) == U32(s, 0)
  {
    assert forall k :: 0 <= k < 4 ==> b[o..][k] == b[o + k];
  }

  /** The file's first header is found if and only if it is not the one in the open box. */
  lemma FoundUnlessInOpenBox(file: File)
    requires FileFits(file)
    ensures var b := WriteFile(file);
      Finds(b, Find(b, 0, |b|), FileHeader(file)) <==> FirstHeader(file.boxes).Some? || OpenHeader(file.open).None?
  {
    FindsBeforeOpenBox(file);
    hide Find, FirstHeader, OpenHeader, WriteFile;
  }

  /** An open box that is the movie header, and an open movie box with a header inside: both are missed. */
  lemma OpenHeaderIsMissed(payload: seq<Byte>)
    requires |payload| < 1000
    ensures var file := File([], Some(OpenData(MVHD, payload)));
      FileFits(file) && FileHeader(file) == Some(payload) && Find(WriteFile(file), 0, |WriteFile(file)|) == None
    ensures var file := File([], Some(OpenMovie([Data(false, MVHD, payload)])));
      FileFits(file) && FileHeader(file) == Some(payload) && Find(WriteFile(file), 0, |WriteFile(file)|) == None
  {
    assert MOOV[1] != MVHD[1];
    var box := Data(false, MVHD, payload);
    assert Fits(box);
    FirstHeaderStep([box]);
    var one, two := File([], Some(OpenData(MVHD, payload))), File([], Some(OpenMovie([box])));
    assert FirstHeader([]) == None;
    assert FileFits(one) && FileFits(two);
    FindsBeforeOpenBox(one);
    FindsBeforeOpenBox(two);
    hide Find, WriteFile;
  }

  // ----- The duration in the movie header -----

  /** `Math.round` of milliseconds, on exact fractions. */
  function Milliseconds(duration: nat, timescale: nat): Option<nat> {
    if timescale == 0 then None else Some((2000 * duration + timescale) / (2 * timescale))
  }

  function HeaderDuration(header: seq<Byte>): Option<nat> {
    if |header| < 20 then None
    else if header[0] == 1 then
      if |header| < 32 then None else Milliseconds(U64(header, 24), U32(header, 20))
    else Milliseconds(U32(header, 16), U32(header, 12))
  }

  /** The milliseconds are the nearest whole number, halves up. */
  lemma NearestMillisecond(duration: nat, timescale: nat)
    requires timescale > 0
    ensures var ms := Milliseconds(duration, timescale).value;
      2 * timescale * ms <= 2000 * duration + timescale < 2 * timescale * (ms + 1)
  {
    var n, d := 2000 * duration + timescale, 2 * timescale;
    assert n == d * (n / d) + n % d && 0 <= n % d < d;
  }

  /** A movie header as it is laid out: version and flags, two times, the timescale and the duration. */
  function WriteHeader(version: Byte, before: seq<Byte>, timescale: nat, duration: nat, rest: seq<Byte>): seq<Byte>
    requires timescale < 0x1_0000_0000 && duration < (if version == 1 then 0x1_0000_0000_0000_0000 else 0x1_0000_0000)
  {
    if version == 1 then [version] + before + Bytes32(timescale) + Bytes64(duration) + rest
    else [version] + before + Bytes32(timescale) + Bytes32(duration) + rest
  }

  /** Of either version, a header is read for the duration it states. */
  lemma HeaderSaysDuration(version: Byte, before: seq<Byte>, timescale: nat, duration: nat, rest: seq<Byte>)
    requires timescale < 0x1_0000_0000 && duration < (if version == 1 then 0x1_0000_0000_0000_0000 else 0x1_0000_0000)
    requires |before| == if version == 1 then 19 else 11
    ensures HeaderDuration(WriteHeader(version, before, timescale, duration, rest)) == Milliseconds(duration, timescale)
  {
    var header := WriteHeader(version, before, timescale, duration, rest);
    var at := if version == 1 then 20 else 12;
    assert header[at..at + 4] == Bytes32(timescale);
    Reads32(header, at, Bytes32(timescale));
    if version == 1 {
      assert header[24..32] == Bytes64(duration);
      Reads64(header, 24, Bytes64(duration));
    } else {
      assert header[16..20] == Bytes32(duration);
      Reads32(header, 16, Bytes32(duration));
    }
    hide U32, U64, Bytes32, Bytes64, Milliseconds;
  }

  lemma SliceNumbers(b: seq<Byte>, o: nat, size: nat, k: nat)
    requires o + size <= |b| && k + 4 <= size
    ensures U32(b[o..o + size], k) == U32(b, o + k)
    ensures k + 8 <= size ==> U64(b[o..o + size], k) == U64(b, o + k)
  {
    var s := b[o..o + size];
    assert s[k] == b[o + k] && s[k + 1] == b[o + k + 1] && s[k + 2] == b[o + k + 2] && s[k + 3] == b[o + k + 3];
    if k + 8 <= size {
      assert s[k + 4] == b[o + k + 4] && s[k + 5] == b[o + k + 5] && s[k + 6] == b[o + k + 6] && s[k + 7] == b[o + k + 7];
    }
  }

  /** `mp4DurationMs`: for every file all reads are inside; for every written forest the first header decides. */
  method Mp4DurationMs(b: seq<Byte>) returns (ms: Option<nat>)
    ensures ms == match Find(b, 0, |b|)
      case None => None
      case Some(span) => HeaderDuration(b[span.offset..span.offset + span.size])
    ensures forall boxes :: AllFit(boxes) && b == WriteAll(boxes) ==>
      ms == match FirstHeader(boxes) case None => None case Some(header) => HeaderDuration(header)
    ensures forall file :: FileFits(file) && b == WriteFile(file) ==>
      ms == match FirstHeader(file.boxes) case None => None case Some(header) => HeaderDuration(header)
  {
    hide U32, U64, Find, WriteAll, AllFit, FirstHeader, Milliseconds, FileFits, WriteFile;
    forall file | FileFits(file) && b == WriteFile(file) ensures Finds(b, Find(b, 0, |b|), FirstHeader(file.boxes)) {
      FindsBeforeOpenBox(file);
    }
    var mvhd := FindMvhd(b, 0, |b|);
    forall boxes | AllFit(boxes) && b == WriteAll(boxes) ensures Finds(b, Find(b, 0, |b|), FirstHeader(boxes)) {
      assert b[0..0 + Length(boxes)] == b;
      FindsFirstHeader(b, 0, boxes);
    }
    if mvhd.None? || mvhd.value.size < 20 { return None; }
    var o, size := mvhd.value.offset, mvhd.value.size;
    SliceNumbers(b, o, size, 12);
    SliceNumbers(b, o, size, 16);
    var version := b[o];
    if version == 1 {
      if size < 32 { return None; }
      SliceNumbers(b, o, size, 20);
      SliceNumbers(b, o, size, 24);
      return Milliseconds(U64(b, o + 24), U32(b, o + 20));
    }
    ms := Milliseconds(U32(b, o + 16), U32(b, o + 12));
  }

  // ----- The size of an image -----

  predicate StartsFrame(marker: Byte) {
    0xc0 <= marker <= 0xcf && marker != 0xc4 && marker != 0xc8 && marker != 0xcc
  }

  datatype Size = Size(width: nat, height: nat)

  function ScanJpeg(b: seq<Byte>, o: nat): Option<Size>
    decreases |b| - o
  {
    if o + 9 >= |b| then None
    else if b[o] != 0xff then ScanJpeg(b, o + 1)
    else if StartsFrame(b[o + 1]) then Some(Size(U16(b, o + 7), U16(b, o + 5)))
    else ScanJpeg(b, o + 2 + U16(b, o + 2))
  }

  /** `jpegDimensions`. */
  method JpegDimensions(b: seq<Byte>) returns (size: Option<Size>)
    ensures size == ScanJpeg(b, 2)
  {
    var offset := 2;
    while offset + 9 < |b|
      invariant ScanJpeg(b, offset) == ScanJpeg(b, 2)
      decreases |b| - offset
    {
      if b[offset] != 0xff {
        offset := offset + 1;
        continue;
      }
      var marker := b[offset + 1];
      if StartsFrame(marker) { return Some(Size(U16(b, offset + 7), U16(b, offset + 5))); }
      offset := offset + 2 + U16(b, offset + 2);
    }
    size := None;
  }

  const FRAMES: set<Byte> := {0xc0, 0xc1, 0xc2, 0xc3, 0xc5, 0xc6, 0xc7, 0xc9, 0xca, 0xcb, 0xcd, 0xce, 0xcf}

  lemma FramesStart(marker: Byte)
    ensures StartsFrame(marker) <==> marker in FRAMES
  {
  }

  datatype Segment = Segment(marker: Byte, payload: seq<Byte>)

  predicate IsSegment(segment: Segment) {
    segment.marker !in FRAMES && |segment.payload| + 2 < 0x1_0000
  }

  function WriteSegment(segment: Segment): seq<Byte>
    requires IsSegment(segment)
  {
    [0xff, segment.marker] + Bytes16(|segment.payload| + 2) + segment.payload
  }

  function WriteSegments(segments: seq<Segment>): seq<Byte>
    requires forall s :: s in segments ==> IsSegment(s)
  {
    if segments == [] then [] else WriteSegment(segments[0]) + WriteSegments(segments[1..])
  }

  /** A frame header: marker, length, precision, height, width, and what follows. */
  function WriteFrame(marker: Byte, length: nat, precision: Byte, size: Size, rest: seq<Byte>): seq<Byte>
    requires length < 0x1_0000 && size.height < 0x1_0000 && size.width < 0x1_0000
  {
    [0xff, marker] + Bytes16(length) + [precision] + Bytes16(size.height) + Bytes16(size.width) + rest
  }

  lemma Reads16(b: seq<Byte>, o: nat, number: seq<Byte>)
    requires |number| == 2 && o + 2 <= |b| && b[o..o + 2] == number
    ensures U16(b, o) == U16(number, 0)
  {
    assert number[0] == b[o] && number[1] == b[o + 1];
  }

  lemma ReadsFrame(b: seq<Byte>, o: nat, marker: Byte, length: nat, precision: Byte, size: Size, rest: seq<Byte>)
    requires length < 0x1_0000 && size.height < 0x1_0000 && size.width < 0x1_0000 && rest != []
    requires o <= |b| && b[o..] == WriteFrame(marker, length, precision, size, rest)
    ensures o + 9 < |b| && b[o] == 0xff && b[o + 1] == marker && U16(b, o + 5) == size.height && U16(b, o + 7) == size.width
  {
    var f := b[o..];
    hide Bytes16, U16;
    assert f[5..7] == Bytes16(size.height) && f[7..9] == Bytes16(size.width);
    assert b[o + 5..o + 7] == f[5..7] && b[o + 7..o + 9] == f[7..9];
    Reads16(b, o + 5, Bytes16(size.height));
    Reads16(b, o + 7, Bytes16(size.width));
  }

  lemma ReadsSegment(b: seq<Byte>, o: nat, segment: Segment, tail: seq<Byte>)
    requires IsSegment(segment) && o <= |b| && b[o..] == WriteSegment(segment) + tail && |tail| >= 10
    ensures o + 9 < |b| && b[o] == 0xff && b[o + 1] == segment.marker && !StartsFrame(segment.marker)
    ensures var next := o + 2 + U16(b, o + 2); next <= |b| && b[next..] == tail
  {
    var f, w := b[o..], WriteSegment(segment);
    FramesStart(segment.marker);
    hide Bytes16, U16;
    assert |w| == 4 + |segment.payload|;
    assert f[0] == w[0] && f[1] == w[1] && f[2..4] == w[2..4] == Bytes16(|segment.payload| + 2);
    assert b[o + 2..o + 4] == f[2..4];
    Reads16(b, o + 2, Bytes16(|segment.payload| + 2));
    assert f[|w|..] == tail && b[o + |w|..] == f[|w|..];
  }

  /** Behind any segments, the frame header's size is what the scan returns. */
  lemma {:induction false} ScansToFrame(b: seq<Byte>, o: nat, segments: seq<Segment>, marker: Byte, length: nat, precision: Byte, size: Size, rest: seq<Byte>)
    requires forall s :: s in segments ==> IsSegment(s)
    requires StartsFrame(marker) && length < 0x1_0000 && size.height < 0x1_0000 && size.width < 0x1_0000 && rest != []
    requires o <= |b| && b[o..] == WriteSegments(segments) + WriteFrame(marker, length, precision, size, rest)
    ensures ScanJpeg(b, o) == Some(size)
    decreases |segments|
  {
    var frame := WriteFrame(marker, length, precision, size, rest);
    if segments == [] {
      assert WriteSegments(segments) + frame == frame;
      ReadsFrame(b, o, marker, length, precision, size, rest);
    } else {
      var tail := WriteSegments(segments[1..]) + frame;
      assert segments[0] in segments;
      assert b[o..] == WriteSegment(segments[0]) + tail;
      ReadsSegment(b, o, segments[0], tail);
      ScansToFrame(b, o + 2 + U16(b, o + 2), segments[1..], marker, length, precision, size, rest);
    }
  }

  /** A picture as it is laid out: two bytes, segments that start no frame, and the frame header with height and width. */
  lemma JpegSaysSize(b: seq<Byte>, start: seq<Byte>, segments: seq<Segment>, marker: Byte, length: nat, precision: Byte, size: Size, rest: seq<Byte>)
    requires |start| == 2
    requires marker in FRAMES && length < 0x1_0000 && size.height < 0x1_0000 && size.width < 0x1_0000 && rest != []
    requires (forall s :: s in segments ==> IsSegment(s)) && b == start + WriteSegments(segments) + WriteFrame(marker, length, precision, size, rest)
    ensures ScanJpeg(b, 2) == Some(size)
  {
    FramesStart(marker);
    assert b[2..] == WriteSegments(segments) + WriteFrame(marker, length, precision, size, rest);
    ScansToFrame(b, 2, segments, marker, length, precision, size, rest);
  }

  // ----- The length of a sound -----

  const FMT: seq<Byte> := [0x66, 0x6d, 0x74, 0x20]
  const DATA: seq<Byte> := [0x64, 0x61, 0x74, 0x61]

  /** Low byte first. */
  function Little16(b: seq<Byte>, o: nat): (n: nat)
    requires o + 2 <= |b|
    ensures n < 0x1_0000
  {
    b[o] + (b[o + 1] as int) * 0x100
  }

  function Little32(b: seq<Byte>, o: nat): (n: nat)
    requires o + 4 <= |b|
    ensures n < 0x1_0000_0000
  {
    Little16(b, o) + Little16(b, o + 2) * 0x1_0000
  }

  function LittleBytes16(n: nat): (b: seq<Byte>)
    requires n < 0x1_0000
    ensures |b| == 2 && Little16(b, 0) == n
  {
    [n % 0x100, n / 0x100]
  }

  function LittleBytes32(n: nat): (b: seq<Byte>)
    requires n < 0x1_0000_0000
    ensures |b| == 4 && Little32(b, 0) == n
  {
    var low, high := LittleBytes16(n % 0x1_0000), LittleBytes16(n / 0x1_0000);
    var r := low + high;
    assert Little16(r, 0) == Little16(low, 0) && Little16(r, 2) == Little16(high, 0);
    r
  }

  /** Sounds have the low byte first. */
  lemma LowByteFirst()
    ensures LittleBytes16(0x102) == [2, 1] && LittleBytes32(0x1020304) == [4, 3, 2, 1]
  {
  }

  /** What is known so far; a rate of zero counts as unknown. */
  datatype Sound = Sound(byteRate: nat, dataSize: Option<nat>)

  predicate Known(sound: Sound) {
    sound.byteRate != 0 && sound.dataSize.Some?
  }

  function Heard(b: seq<Byte>, o: nat, sound: Sound): Sound
    requires o + 8 <= |b|
  {
    var chunk := b[o..o + 4];
    Sound(
      if chunk == FMT && o + 20 <= |b| then Little32(b, o + 16) else sound.byteRate,
      if chunk == DATA then Some(Little32(b, o + 4)) else sound.dataSize)
  }

  function ScanWav(b: seq<Byte>, o: nat, sound: Sound): Sound
    decreases |b| - o
  {
    if o + 8 > |b| then sound
    else
      var size, heard := Little32(b, o + 4), Heard(b, o, sound);
      if Known(heard) then heard else ScanWav(b, o + 8 + size + size % 2, heard)
  }

  function SoundDuration(sound: Sound): Option<nat> {
    if Known(sound) then Some((2000 * sound.dataSize.value + sound.byteRate) / (2 * sound.byteRate)) else None
  }

  /** The nearest whole number of milliseconds to a quotient in seconds, halves up. */
  predicate IsNearestMs(dividend: nat, divisor: nat, ms: nat) {
    2 * divisor * ms <= 2000 * dividend + divisor < 2 * divisor * (ms + 1)
  }

  /** The duration is data size over byte rate; it is unknown when either of them is, or when the rate is zero. */
  lemma SoundIsNearest(sound: Sound)
    ensures SoundDuration(sound).None? <==> sound.byteRate == 0 || sound.dataSize.None?
    ensures SoundDuration(sound).Some? ==> IsNearestMs(sound.dataSize.value, sound.byteRate, SoundDuration(sound).value)
  {
    if Known(sound) { NearestMillisecond(sound.dataSize.value, sound.byteRate); }
  }

  /** `wavDurationMs`. */
  method WavDurationMs(b: seq<Byte>) returns (ms: Option<nat>)
    ensures ms == if |b| < 44 then None else SoundDuration(ScanWav(b, 12, Sound(0, None)))
    ensures var sound := ScanWav(b, 12, Sound(0, None));
      && (ms.None? <==> |b| < 44 || sound.byteRate == 0 || sound.dataSize.None?)
      && (ms.Some? ==> IsNearestMs(sound.dataSize.value, sound.byteRate, ms.value))
  {
    hide Little32;
    SoundIsNearest(ScanWav(b, 12, Sound(0, None)));
    if |b| < 44 { return None; }
    var offset, byteRate, dataSize := 12, 0, None;
    while offset + 8 <= |b|
      invariant ScanWav(b, offset, Sound(byteRate, dataSize)) == ScanWav(b, 12, Sound(0, None))
      invariant !Known(Sound(byteRate, dataSize))
      decreases |b| - offset
    {
      ghost var heard := Heard(b, offset, Sound(byteRate, dataSize));
      var chunk := b[offset..offset + 4];
      var size := Little32(b, offset + 4);
      var dataOffset := offset + 8;
      if chunk == FMT && dataOffset + 12 <= |b| { byteRate := Little32(b, dataOffset + 8); }
      if chunk == DATA { dataSize := Some(size); }
      assert Sound(byteRate, dataSize) == heard;
      if byteRate != 0 && dataSize.Some? { break; }
      offset := dataOffset + size + size % 2;
    }
    ms := SoundDuration(Sound(byteRate, dataSize));
  }

  datatype Chunk = Chunk(id: seq<Byte>, payload: seq<Byte>)

  predicate IsChunk(chunk: Chunk) {
    |chunk.id| == 4 && |chunk.payload| < 0x1_0000_0000 && (chunk.id == FMT ==> |chunk.payload| >= 12)
  }

  /** A chunk of odd size is followed by a padding byte. */
  function WriteChunk(chunk: Chunk): seq<Byte>
    requires IsChunk(chunk)
  {
    chunk.id + LittleBytes32(|chunk.payload|) + (chunk.payload + if |chunk.payload| % 2 == 1 then [0] else [])
  }

  function WriteChunks(chunks: seq<Chunk>): seq<Byte>
    requires forall c :: c in chunks ==> IsChunk(c)
  {
    if chunks == [] then [] else WriteChunk(chunks[0]) + WriteChunks(chunks[1..])
  }

  /** What the chunks say, up to the first point where rate and size are both known. */
  function Said(chunks: seq<Chunk>, sound: Sound): Sound
    requires forall c :: c in chunks ==> IsChunk(c)
  {
    if chunks == [] then sound
    else
      var c := chunks[0];
      assert c in chunks && IsChunk(c);
      var next := Sound(
        if c.id == FMT then Little32(c.payload, 8) else sound.byteRate,
        if c.id == DATA then Some(|c.payload|) else sound.dataSize);
      if Known(next) then next else Said(chunks[1..], next)
  }

  lemma ReadsLittle(b: seq<Byte>, o: nat, number: seq<Byte>, k: nat)
    requires k + 4 <= |number| && o + |number| <= |b| && b[o..o + |number|] == number
    ensures Little32(b, o + k) == Little32(number, k)
  {
    var s := b[o..o + |number|];
    assert s[k] == b[o + k] && s[k + 1] == b[o + k + 1] && s[k + 2] == b[o + k + 2] && s[k + 3] == b[o + k + 3];
  }

  lemma ReadsChunk(b: seq<Byte>, o: nat, chunk: Chunk, tail: seq<Byte>)
    requires IsChunk(chunk) && o <= |b| && b[o..] == WriteChunk(chunk) + tail
    ensures o + 8 <= |b| && b[o..o + 4] == chunk.id && Little32(b, o + 4) == |chunk.payload|
    ensures chunk.id == FMT ==> o + 20 <= |b| && Little32(b, o + 16) == Little32(chunk.payload, 8)
    ensures var next := o + 8 + |chunk.payload| + |chunk.payload| % 2; next <= |b| && b[next..] == tail
  {
    hide Little32, LittleBytes32;
    var n := |chunk.payload|;
    var padded := chunk.payload + if n % 2 == 1 then [0] else [];
    var size := LittleBytes32(n);
    Ends(b, o, chunk.id + size + padded, tail);
    Cut(b, o, chunk.id + size, padded);
    Cut(b, o, chunk.id, size);
    ReadsLittle(b, o + 4, size, 0);
    if chunk.id == FMT {
      ReadsLittle(b, o + 8, padded, 8);
      assert padded[..n] == chunk.payload;
      assert chunk.payload[0..0 + n] == chunk.payload;
      ReadsLittle(padded, 0, chunk.payload, 8);
    }
  }

  lemma Ends(b: seq<Byte>, o: nat, x: seq<Byte>, tail: seq<Byte>)
    requires o <= |b| && b[o..] == x + tail
    ensures o + |x| <= |b| && b[o..o + |x|] == x && b[o + |x|..] == tail
  {
    var f := b[o..];
    assert f[..|x|] == x && f[|x|..] == tail;
    assert b[o..o + |x|] == f[..|x|] && b[o + |x|..] == f[|x|..];
  }

  /** Scanning written chunks hears what they say. */
  lemma {:induction false} HearsWhatIsSaid(b: seq<Byte>, o: nat, chunks: seq<Chunk>, sound: Sound)
    requires forall c :: c in chunks ==> IsChunk(c)
    requires o <= |b| && b[o..] == WriteChunks(chunks) && !Known(sound)
    ensures ScanWav(b, o, sound) == Said(chunks, sound)
    decreases |chunks|
  {
    hide IsChunk, WriteChunk, Little32, FMT, DATA, Known;
    if chunks == [] {
      assert |b| == o;
    } else {
      var c, rest := chunks[0], chunks[1..];
      assert c in chunks && forall x :: x in rest ==> x in chunks;
      WriteChunksStep(chunks);
      SaidStep(chunks, sound);
      hide WriteChunks, Said;
      ReadsChunk(b, o, c, WriteChunks(rest));
      var heard := Heard(b, o, sound);
      if !Known(heard) { HearsWhatIsSaid(b, o + 8 + |c.payload| + |c.payload| % 2, rest, heard); }
    }
  }

  lemma WriteChunksStep(chunks: seq<Chunk>)
    requires (forall c :: c in chunks ==> IsChunk(c)) && chunks != []
    ensures chunks[0] in chunks && (forall c :: c in chunks[1..] ==> c in chunks)
    ensures WriteChunks(chunks) == WriteChunk(chunks[0]) + WriteChunks(chunks[1..])
  {
  }

  lemma SaidStep(chunks: seq<Chunk>, sound: Sound)
    requires (forall c :: c in chunks ==> IsChunk(c)) && chunks != []
    ensures chunks[0] in chunks && (chunks[0].id == FMT ==> |chunks[0].payload| >= 12)
    ensures var next := Sound(
        if chunks[0].id == FMT then Little32(chunks[0].payload, 8) else sound.byteRate,
        if chunks[0].id == DATA then Some(|chunks[0].payload|) else sound.dataSize);
      Said(chunks, sound) == if Known(next) then next else Said(chunks[1..], next)
  {
  }

  /**
   * A file as it is laid out: twelve bytes, a format chunk with the byte rate behind eight bytes, and the data. It lasts as
   * long as the data take at that rate.
   */
  lemma WavSaysDuration(b: seq<Byte>, start: seq<Byte>, format: seq<Byte>, byteRate: nat, more: seq<Byte>, data: seq<Byte>)
    requires |start| == 12 && |format| == 8 && 0 < byteRate < 0x1_0000_0000
    requires |more| < 0x1_0000 && |data| < 0x1_0000_0000
    requires b == start + WriteChunks([Chunk(FMT, format + LittleBytes32(byteRate) + more), Chunk(DATA, data)])
    ensures ScanWav(b, 12, Sound(0, None)) == Sound(byteRate, Some(|data|))
  {
    var first, second := Chunk(FMT, format + LittleBytes32(byteRate) + more), Chunk(DATA, data);
    assert b[12..] == WriteChunks([first, second]);
    HearsWhatIsSaid(b, 12, [first, second], Sound(0, None));
    assert first.payload[8..8 + 4] == LittleBytes32(byteRate);
    ReadsLittle(first.payload, 8, LittleBytes32(byteRate), 0);
    SaidStep([first, second], Sound(0, None));
    assert [first, second][1..] == [second];
    SaidStep([second], Sound(byteRate, None));
  }
}
