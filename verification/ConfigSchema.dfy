/** The closed set of configuration keys, what kind of value each takes, and how scalars are written as text. */
module ConfigSchema {
  import opened Collections

  datatype Id = Id(name: string)

  datatype Key =
    | Color | Extends | ChildSupertag | ShowCheckbox | DoneStateEnabled | DoneMapChecked | DoneMapUnchecked
    | FieldType | SourceSupertag | AutocollectOptions | AutoInitialize | Nullable | HideField | MinValue | MaxValue

  datatype Domain = NumberText | BoolText | ColorText | Ref | RefList | Choice(subtree: string, values: seq<string>) | ChoiceList(subtree: string, values: seq<string>)

  const FIELD_TYPES: seq<string> := ["plain", "options", "options_from_supertag", "date", "number", "uri", "email", "checkbox"]
  const HIDE_MODES: seq<string> := ["never", "empty", "not_empty", "value_is_default", "always"]
  const AUTO_INIT: seq<string> := ["current_date", "ancestor_day_node", "ancestor_field_value", "ancestor_supertag_ref"]

  function DomainOf(key: Key): Domain {
    match key
    case Color => ColorText
    case Extends => Ref
    case ChildSupertag => Ref
    case ShowCheckbox => BoolText
    case DoneStateEnabled => BoolText
    case DoneMapChecked => RefList
    case DoneMapUnchecked => RefList
    case FieldType => Choice("schema:field-types", FIELD_TYPES)
    case SourceSupertag => Ref
    case AutocollectOptions => BoolText
    case AutoInitialize => ChoiceList("schema:auto-init", AUTO_INIT)
    case Nullable => BoolText
    case HideField => Choice("schema:hide-modes", HIDE_MODES)
    case MinValue => NumberText
    case MaxValue => NumberText
  }

  predicate ForTags(key: Key) {
    key.Color? || key.Extends? || key.ChildSupertag? || key.ShowCheckbox? || key.DoneStateEnabled? || key.DoneMapChecked? || key.DoneMapUnchecked?
  }

  function KeyName(key: Key): string {
    match key
    case Color => "color"
    case Extends => "extends"
    case ChildSupertag => "childSupertag"
    case ShowCheckbox => "showCheckbox"
    case DoneStateEnabled => "doneStateEnabled"
    case DoneMapChecked => "doneMapChecked"
    case DoneMapUnchecked => "doneMapUnchecked"
    case FieldType => "fieldType"
    case SourceSupertag => "sourceSupertag"
    case AutocollectOptions => "autocollectOptions"
    case AutoInitialize => "autoInitialize"
    case Nullable => "nullable"
    case HideField => "hideField"
    case MinValue => "minValue"
    case MaxValue => "maxValue"
  }

  /** `defConfigNodeId` and `systemOptionNodeId`. */
  function RowId(def: Id, key: Key): Id {
    Id(def.name + "::cfg:" + KeyName(key))
  }

  /** A definition and a key can be told from the id of their row: no two of them share one. */
  lemma RowIdsDiffer(d: Id, k: Key, e: Id, l: Key)
    ensures RowId(d, k) == RowId(e, l) <==> d == e && k == l
    ensures RowId(d, k) != d
  {
    if RowId(d, k) == RowId(e, l) {
      var a, b := KeyName(k), KeyName(l);
      NoColon(k);
      NoColon(l);
      InFront(d, k);
      InFront(e, l);
      hide RowId, KeyName;
      SameTail(d.name + "::cfg", a, e.name + "::cfg", b);
      KeyNamesDiffer(k, l);
      assert d.name == (d.name + "::cfg")[..|d.name|] && e.name == (e.name + "::cfg")[..|e.name|];
    }
  }

  lemma InFront(d: Id, k: Key)
    ensures RowId(d, k).name == d.name + "::cfg" + ":" + KeyName(k)
  {
    assert "::cfg:" == "::cfg" + ":";
    assert d.name + "::cfg:" == d.name + "::cfg" + ":";
  }

  lemma NoColon(k: Key)
    ensures ':' !in KeyName(k)
  {
  }

  /** The last colon ends the front. */
  lemma SameTail(front: string, a: string, other: string, b: string)
    requires front + ":" + a == other + ":" + b && ':' !in a && ':' !in b
    ensures front == other && a == b
  {
    var s := front + ":" + a;
    LastColon(front, a);
    LastColon(other, b);
    assert front == s[..|front|] && other == s[..|other|] && a == s[|front| + 1..] && b == s[|other| + 1..];
  }

  lemma LastColon(front: string, a: string)
    requires ':' !in a
    ensures var s := front + ":" + a;
      |s| > |front| && s[|front|] == ':' && forall i :: |front| < i < |s| ==> s[i] != ':'
  {
    var s := front + ":" + a;
    assert forall i :: |front| < i < |s| ==> s[i] == a[i - |front| - 1];
  }

  /** Read back from its name. */
  function KeyNamed(name: string): Option<Key> {
    if name == "color" then Some(Color)
    else if name == "extends" then Some(Extends)
    else if name == "childSupertag" then Some(ChildSupertag)
    else if name == "showCheckbox" then Some(ShowCheckbox)
    else if name == "doneStateEnabled" then Some(DoneStateEnabled)
    else if name == "doneMapChecked" then Some(DoneMapChecked)
    else if name == "doneMapUnchecked" then Some(DoneMapUnchecked)
    else if name == "fieldType" then Some(FieldType)
    else if name == "sourceSupertag" then Some(SourceSupertag)
    else if name == "autocollectOptions" then Some(AutocollectOptions)
    else if name == "autoInitialize" then Some(AutoInitialize)
    else if name == "nullable" then Some(Nullable)
    else if name == "hideField" then Some(HideField)
    else if name == "minValue" then Some(MinValue)
    else if name == "maxValue" then Some(MaxValue)
    else None
  }

  lemma KeyReadsBack(k: Key)
    ensures KeyNamed(KeyName(k)) == Some(k)
  {
  }

  lemma KeyNamesDiffer(k: Key, l: Key)
    ensures KeyName(k) == KeyName(l) ==> k == l
  {
    KeyReadsBack(k);
    KeyReadsBack(l);
  }

  function OptionId(subtree: string, value: string): Id {
    Id(subtree + "/" + value)
  }

  // ----- Scalar codecs -----

  predicate IsSpace(c: char) {
    var n := c as int;
    9 <= n <= 13 || n == 0x20 || n == 0xa0 || n == 0x1680 || 0x2000 <= n <= 0x200a || n == 0x2028 || n == 0x2029
    || n == 0x202f || n == 0x205f || n == 0x3000 || n == 0xfeff
  }

  function TrimStart(s: string): string {
    if s != [] && IsSpace(s[0]) then TrimStart(s[1..]) else s
  }

  function TrimEnd(s: string): string {
    if s != [] && IsSpace(s[|s| - 1]) then TrimEnd(s[..|s| - 1]) else s
  }

  function Trim(s: string): string {
    TrimEnd(TrimStart(s))
  }

  function Lower(s: string): (t: string)
    ensures |t| == |s|
  {
    if s == [] then [] else [if 'A' <= s[0] <= 'Z' then s[0] - 'A' + 'a' else s[0]] + Lower(s[1..])
  }

  function DecodeBool(text: string): Option<bool> {
    var t := Lower(Trim(text));
    if t == "true" then Some(true) else if t == "false" then Some(false) else None
  }

  function EncodeBool(value: bool): string {
    if value then "true" else "false"
  }

  const COLORS: seq<string> := ["red", "orange", "amber", "green", "blue", "purple", "pink", "gray"]

  function DecodeColor(text: string): Option<string> {
    var t := Trim(text);
    if t in COLORS then Some(t) else None
  }

  /** Number texts are read and written by the host's arithmetic; all that is asked of it is that a number it has read it
      can write and read again. */
  datatype Numbers = Numbers(decode: string -> Option<real>, encode: real -> string)

  ghost predicate ReadsBack(numbers: Numbers) {
    forall text: string :: numbers.decode(text).Some? ==>
      numbers.decode(numbers.encode(numbers.decode(text).value)) == numbers.decode(text)
  }

  datatype Scalar = Number(number: real) | Bool(truth: bool) | Token(token: string)

  /** What a scalar text means in a domain. */
  function Decode(numbers: Numbers, domain: Domain, text: string): Option<Scalar> {
    match domain
    case NumberText => if numbers.decode(text).Some? then Some(Number(numbers.decode(text).value)) else None
    case BoolText => if DecodeBool(text).Some? then Some(Bool(DecodeBool(text).value)) else None
    case ColorText => if DecodeColor(text).Some? then Some(Token(DecodeColor(text).value)) else None
    case _ => None
  }

  function Encode(numbers: Numbers, value: Scalar): string {
    match value
    case Number(x) => numbers.encode(x)
    case Bool(b) => EncodeBool(b)
    case Token(t) => t
  }

  /** `canonicalizeScalar`. */
  function Canonical(numbers: Numbers, domain: Domain, text: string): Option<string> {
    var decoded := Decode(numbers, domain, text);
    if decoded.Some? then Some(Encode(numbers, decoded.value)) else None
  }

  lemma NothingToTrim(s: string)
    requires s != "" && !IsSpace(s[0]) && !IsSpace(s[|s| - 1])
    ensures Trim(s) == s
  {
  }

  lemma {:induction false} NothingToLower(s: string)
    requires forall i :: 0 <= i < |s| ==> !('A' <= s[i] <= 'Z')
    ensures Lower(s) == s
  {
    if s != "" {
      assert forall i :: 0 <= i < |s| - 1 ==> s[1..][i] == s[i + 1];
      NothingToLower(s[1..]);
    }
  }

  predicate PlainEnds(s: string) {
    s != "" && !IsSpace(s[0]) && !IsSpace(s[|s| - 1])
  }

  lemma PlainWords()
    ensures Lower(Trim("true")) == "true" && Lower(Trim("false")) == "false"
    ensures forall t :: t in COLORS ==> Trim(t) == t
  {
    assert PlainEnds("true") && PlainEnds("false");
    assert forall i :: 0 <= i < |COLORS| ==> PlainEnds(COLORS[i]);
    hide Trim, Lower, IsSpace;
    NothingToTrim("true");
    NothingToTrim("false");
    NothingToLower("true");
    NothingToLower("false");
    forall t | t in COLORS ensures Trim(t) == t {
      var i :| 0 <= i < |COLORS| && COLORS[i] == t;
      NothingToTrim(t);
    }
  }

  /** The canonical text means what the given text means, and it is its own canonical text. */
  lemma CanonicalMeansTheSame(numbers: Numbers, domain: Domain, text: string)
    requires ReadsBack(numbers) && Canonical(numbers, domain, text).Some?
    ensures var canonical := Canonical(numbers, domain, text).value;
      && Decode(numbers, domain, canonical) == Decode(numbers, domain, text)
      && Canonical(numbers, domain, canonical) == Some(canonical)
  {
    PlainWords();
    hide Trim, Lower, COLORS;
  }
}
