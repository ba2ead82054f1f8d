/** Admitting a search query, given as objects that may be shared or even contain themselves. */
module QueryAdmission {
  import opened Collections
  import opened Outline

  const MAX_DEPTH: nat := 1024
  const MAX_NODES: nat := 10000
  const MAX_OPERANDS: nat := 256
  const MAX_CHILDREN: nat := 1024

  type ObjectId = nat

  /** A place in the query holds an object, or something that is none. */
  datatype Value = Object(id: ObjectId) | Scalar

  /** An operand list or child list may be missing: then there are no operands, but no group either. */
  datatype Query =
    | Rule(supported: bool, operands: Option<nat>)
    | Group(supported: bool, children: Option<seq<Value>>)
    | Unknown

  type Heap = map<ObjectId, Query>

  predicate RuleAdmitted(q: Query)
    requires q.Rule?
  {
    q.supported && (q.operands.Some? ==> q.operands.value <= MAX_OPERANDS)
  }

  predicate GroupAdmitted(q: Query)
    requires q.Group?
  {
    q.supported && q.children.Some? && |q.children.value| <= MAX_CHILDREN
  }

  // ----- The recursive definition -----

  /** The number of nodes of the unfolded query, if every node is in order and none lies too deep. */
  function Size(heap: Heap, v: Value, depth: nat): (size: Option<nat>)
    ensures size.Some? ==> size.value > 0
    decreases MAX_DEPTH + 1 - depth, 0, 0
  {
    if v.Scalar? || v.id !in heap || depth > MAX_DEPTH then None
    else
      match heap[v.id]
      case Unknown => None
      case Rule(_, _) => if RuleAdmitted(heap[v.id]) then Some(1) else None
      case Group(_, children) =>
        if !GroupAdmitted(heap[v.id]) then None
        else
          var below := SizeAll(heap, children.value, depth + 1);
          if below.None? then None else Some(below.value + 1)
  }

  function SizeAll(heap: Heap, vs: seq<Value>, depth: nat): Option<nat>
    decreases MAX_DEPTH + 1 - depth, 1, |vs|
  {
    if vs == [] then Some(0)
    else Plus(Size(heap, vs[0], depth), SizeAll(heap, vs[1..], depth))
  }

  function Plus(a: Option<nat>, b: Option<nat>): Option<nat> {
    if a.Some? && b.Some? then Some(a.value + b.value) else None
  }

  /** A query is admitted if it has a size, and that is not too large. */
  predicate Admitted(heap: Heap, root: Value) {
    var size := Size(heap, root, 1);
    size.Some? && size.value <= MAX_NODES
  }

  // ----- Paths and cycles -----

  /** `v` comes next on the path: the root at first, then a child of the group reached last. */
  predicate Follows(heap: Heap, root: Value, path: seq<ObjectId>, v: Value) {
    if path == [] then v == root
    else
      var last := path[|path| - 1];
      last in heap && heap[last].Group? && heap[last].children.Some? && v in heap[last].children.value
  }

  predicate IsPath(heap: Heap, root: Value, path: seq<ObjectId>) {
    forall i :: 0 <= i < |path| ==> Follows(heap, root, path[..i], Object(path[i]))
  }

  /** Some group lies inside itself. */
  ghost predicate HasCycle(heap: Heap, root: Value) {
    exists path: seq<ObjectId>, id: ObjectId :: IsPath(heap, root, path) && Follows(heap, root, path, Object(id)) && id in path
  }

  lemma {:induction false} PartIsSmaller(heap: Heap, vs: seq<Value>, depth: nat, v: Value)
    requires SizeAll(heap, vs, depth).Some? && v in vs
    ensures Size(heap, v, depth).Some? && Size(heap, v, depth).value <= SizeAll(heap, vs, depth).value
    decreases |vs|
  {
    if v != vs[0] { PartIsSmaller(heap, vs[1..], depth, v); }
  }

  /** The size of a node does not depend on how deep it lies. */
  lemma {:induction false} SizeIsFixed(heap: Heap, v: Value, d: nat, e: nat)
    requires Size(heap, v, d).Some? && Size(heap, v, e).Some?
    ensures Size(heap, v, d) == Size(heap, v, e)
    decreases MAX_DEPTH + 1 - d, 0, 0
  {
    if heap[v.id].Group? { SizesAreFixed(heap, heap[v.id].children.value, d + 1, e + 1); }
  }

  lemma {:induction false} SizesAreFixed(heap: Heap, vs: seq<Value>, d: nat, e: nat)
    requires SizeAll(heap, vs, d).Some? && SizeAll(heap, vs, e).Some?
    ensures SizeAll(heap, vs, d) == SizeAll(heap, vs, e)
    decreases MAX_DEPTH + 1 - d, 1, |vs|
  {
    if vs != [] {
      SizeIsFixed(heap, vs[0], d, e);
      SizesAreFixed(heap, vs[1..], d, e);
    }
  }

  /** Below a root that has a size, everything has one. */
  lemma {:induction false} SizeExists(heap: Heap, root: Value, path: seq<ObjectId>, v: Value)
    requires IsPath(heap, root, path) && Follows(heap, root, path, v) && Size(heap, root, 1).Some?
    ensures Size(heap, v, |path| + 1).Some?
    decreases |path|
  {
    hide Size, IsPath;
    if path != [] {
      var k := |path| - 1;
      PathPrefix(heap, root, path);
      SizeExists(heap, root, path[..k], Object(path[k]));
      ChildIsSmaller(heap, path[k], |path|, v);
    }
  }

  /** Along a path the sizes fall. */
  lemma {:induction false} SizeFalls(heap: Heap, root: Value, path: seq<ObjectId>, v: Value, i: nat)
    requires IsPath(heap, root, path) && Follows(heap, root, path, v) && Size(heap, root, 1).Some? && i < |path|
    ensures Size(heap, v, |path| + 1).Some? && Size(heap, Object(path[i]), i + 1).Some?
    ensures Size(heap, v, |path| + 1).value < Size(heap, Object(path[i]), i + 1).value
    decreases |path|
  {
    hide Size, IsPath;
    var k := |path| - 1;
    PathPrefix(heap, root, path);
    SizeExists(heap, root, path[..k], Object(path[k]));
    ChildIsSmaller(heap, path[k], |path|, v);
    if i < k { SizeFalls(heap, root, path[..k], Object(path[k]), i); }
  }

  lemma ChildIsSmaller(heap: Heap, id: ObjectId, depth: nat, v: Value)
    requires id in heap && heap[id].Group? && heap[id].children.Some? && v in heap[id].children.value
    requires Size(heap, Object(id), depth).Some?
    ensures Size(heap, v, depth + 1).Some? && Size(heap, v, depth + 1).value < Size(heap, Object(id), depth).value
  {
    PartIsSmaller(heap, heap[id].children.value, depth + 1, v);
  }

  lemma PathPrefix(heap: Heap, root: Value, path: seq<ObjectId>)
    requires IsPath(heap, root, path) && path != []
    ensures var k := |path| - 1;
      IsPath(heap, root, path[..k]) && Follows(heap, root, path[..k], Object(path[k]))
  {
    var k := |path| - 1;
    hide Follows;
    forall i | 0 <= i < k ensures Follows(heap, root, path[..k][..i], Object(path[..k][i])) {
      assert path[..k][..i] == path[..i];
    }
  }

  /** An admitted query contains no cycle. */
  lemma AdmittedHasNoCycle(heap: Heap, root: Value)
    requires Admitted(heap, root)
    ensures !HasCycle(heap, root)
  {
    forall path: seq<ObjectId>, id: ObjectId | IsPath(heap, root, path) && Follows(heap, root, path, Object(id)) ensures id !in path {
      forall i | 0 <= i < |path| ensures path[i] != id {
        SizeFalls(heap, root, path, Object(id), i);
        if path[i] == id { SizeIsFixed(heap, Object(id), i + 1, |path| + 1); }
      }
    }
  }

  // ----- Where the limits lie -----

  /** `count` copies of an object, counted each time. */
  lemma {:induction false} SizeOfCopies(heap: Heap, v: Value, depth: nat, count: nat)
    requires Size(heap, v, depth).Some?
    ensures SizeAll(heap, seq(count, i => v), depth) == Some(count * Size(heap, v, depth).value)
  {
    var copies := seq(count, i => v);
    if count > 0 {
      assert copies[0] == v && copies[1..] == seq(count - 1, i => v);
      SizeOfCopies(heap, v, depth, count - 1);
    }
  }

  /** A group of `m` times the same group of `n` times the same rule is admitted up to 10000 nodes, unfolded. */
  lemma WideLimit(heap: Heap, m: nat, n: nat)
    requires heap == map[0 := Group(true, Some(seq(m, i => Object(1)))), 1 := Group(true, Some(seq(n, i => Object(2)))), 2 := Rule(true, None)]
    requires m > 0
    ensures Admitted(heap, Object(0)) <==> m <= 1024 && n <= 1024 && 1 + m * (n + 1) <= 10000
  {
    assert Size(heap, Object(2), 3) == Some(1);
    SizeOfCopies(heap, Object(2), 3, n);
    if m <= 1024 {
      if n <= 1024 {
        assert Size(heap, Object(1), 2) == Some(n + 1);
        SizeOfCopies(heap, Object(1), 2, m);
        assert Size(heap, Object(0), 1) == Some(1 + m * (n + 1));
      } else {
        assert Size(heap, Object(1), 2) == None;
        assert seq(m, i => Object(1))[0] == Object(1);
        assert SizeAll(heap, seq(m, i => Object(1)), 2) == None;
      }
    }
  }

  ghost predicate IsChain(heap: Heap, length: nat) {
    && length in heap && heap[length] == Rule(true, None)
    && forall i :: 0 <= i < length ==> i in heap && heap[i] == Group(true, Some([Object(i + 1)]))
  }

  lemma {:induction false} SizeOfChain(heap: Heap, length: nat, i: nat)
    requires IsChain(heap, length) && i <= length
    ensures Size(heap, Object(i), i + 1) == if length < 1024 then Some(length - i + 1) else None
    decreases length - i
  {
    if i < length && i < 1024 {
      SizeOfChain(heap, length, i + 1);
      assert [Object(i + 1)][0] == Object(i + 1) && [Object(i + 1)][1..] == [];
      assert SizeAll(heap, [], i + 2) == Some(0);
    }
  }

  /** Groups within groups around one rule are admitted up to a depth of 1024. */
  lemma DeepLimit(heap: Heap, length: nat)
    requires IsChain(heap, length)
    ensures Admitted(heap, Object(0)) <==> length + 1 <= 1024
  {
    SizeOfChain(heap, length, 0);
  }

  /** A rule takes up to 256 operands. */
  lemma OperandLimit(heap: Heap, operands: Option<nat>)
    requires heap == map[0 := Rule(true, operands)]
    ensures Admitted(heap, Object(0)) <==> operands.None? || operands.value <= 256
  {
  }

  // ----- The explicit stack -----

  datatype Frame = Enter(query: Value, depth: nat) | Exit(group: ObjectId)

  function FrameSize(heap: Heap, frame: Frame): Option<nat> {
    match frame
    case Enter(query, depth) => Size(heap, query, depth)
    case Exit(_) => Some(0)
  }

  /** What is still to be counted. */
  function StackSize(heap: Heap, stack: seq<Frame>): Option<nat> {
    if stack == [] then Some(0) else Plus(StackSize(heap, stack[..|stack| - 1]), FrameSize(heap, stack[|stack| - 1]))
  }

  /** The groups that are being visited, outermost first. */
  function Open(stack: seq<Frame>): seq<ObjectId> {
    if stack == [] then []
    else
      var top := stack[|stack| - 1];
      Open(stack[..|stack| - 1]) + if top.Exit? then [top.group] else []
  }

  /** Every frame belongs where it lies: it is the root or a child of the innermost group open below it. */
  predicate Placed(heap: Heap, root: Value, stack: seq<Frame>) {
    stack == [] ||
    (Placed(heap, root, stack[..|stack| - 1]) && FitsAbove(heap, root, Open(stack[..|stack| - 1]), stack[|stack| - 1]))
  }

  predicate FitsAbove(heap: Heap, root: Value, path: seq<ObjectId>, frame: Frame) {
    if frame.Enter? then frame.depth == |path| + 1 && Follows(heap, root, path, frame.query)
    else Follows(heap, root, path, Object(frame.group)) && frame.group !in path
  }

  lemma {:induction false} OpenIsPath(heap: Heap, root: Value, stack: seq<Frame>)
    requires Placed(heap, root, stack)
    ensures IsPath(heap, root, Open(stack)) && Distinct(Open(stack))
  {
    if stack != [] {
      var below, path := stack[..|stack| - 1], Open(stack);
      OpenIsPath(heap, root, below);
      forall i | 0 <= i < |path| ensures Follows(heap, root, path[..i], Object(path[i])) {
        if i < |Open(below)| {
          assert path[..i] == Open(below)[..i] && path[i] == Open(below)[i];
        } else {
          assert path[..i] == Open(below);
        }
      }
    }
  }

  lemma Pushed(heap: Heap, root: Value, stack: seq<Frame>, top: Frame)
    ensures StackSize(heap, stack + [top]) == Plus(StackSize(heap, stack), FrameSize(heap, top))
    ensures Open(stack + [top]) == Open(stack) + if top.Exit? then [top.group] else []
    ensures Placed(heap, root, stack + [top]) <==> Placed(heap, root, stack) && FitsAbove(heap, root, Open(stack), top)
  {
    assert (stack + [top])[..|stack|] == stack;
  }

  /** Pushes the children of the innermost open group, the first one last. */
  method PushChildren(heap: Heap, ghost root: Value, stack: seq<Frame>, children: seq<Value>, depth: nat) returns (pushed: seq<Frame>)
    requires Placed(heap, root, stack) && depth == |Open(stack)| + 1
    requires forall v :: v in children ==> Follows(heap, root, Open(stack), v)
    ensures Placed(heap, root, pushed) && Open(pushed) == Open(stack)
    ensures StackSize(heap, pushed) == Plus(StackSize(heap, stack), SizeAll(heap, children, depth))
  {
    hide Follows, Placed, Size, Open, StackSize;
    pushed := stack;
    var index := |children|;
    assert children[index..] == [];
    while index > 0
      invariant 0 <= index <= |children| && Placed(heap, root, pushed) && Open(pushed) == Open(stack)
      invariant StackSize(heap, pushed) == Plus(StackSize(heap, stack), SizeAll(heap, children[index..], depth))
    {
      index := index - 1;
      assert children[index..][0] == children[index] && children[index..][1..] == children[index + 1..];
      assert children[index] in children;
      Pushed(heap, root, pushed, Enter(children[index], depth));
      pushed := pushed + [Enter(children[index], depth)];
    }
    assert children[0..] == children;
  }

  datatype Issue =
    | NotAnObject | TooDeep | TooLarge | UnsupportedRule | TooManyOperands
    | UnknownKind | UnsupportedLogic | ChildrenMissing | TooManyChildren | Cyclic

  /** What is wrong with the node that stands at the end of a path. */
  predicate HasFault(heap: Heap, path: seq<ObjectId>, v: Value, issue: Issue) {
    if v.Scalar? || v.id !in heap then issue.NotAnObject?
    else match issue
      case NotAnObject => false
      case TooDeep => |path| >= 1024
      case TooLarge => true
      case UnsupportedRule => heap[v.id].Rule? && !heap[v.id].supported
      case TooManyOperands => heap[v.id].Rule? && heap[v.id].operands.Some? && heap[v.id].operands.value > 256
      case UnknownKind => heap[v.id].Unknown?
      case UnsupportedLogic => heap[v.id].Group? && !heap[v.id].supported
      case ChildrenMissing => heap[v.id].Group? && heap[v.id].children.None?
      case TooManyChildren => heap[v.id].Group? && heap[v.id].children.Some? && |heap[v.id].children.value| > 1024
      case Cyclic => heap[v.id].Group? && v.id in path
  }

  /** The issue is there, at the end of some path from the root. */
  ghost predicate IsFound(heap: Heap, root: Value, issue: Issue) {
    exists path: seq<ObjectId>, v: Value :: IsPath(heap, root, path) && Follows(heap, root, path, v) && HasFault(heap, path, v, issue)
  }

  lemma Found(heap: Heap, root: Value, path: seq<ObjectId>, v: Value, issue: Issue)
    requires IsPath(heap, root, path) && Follows(heap, root, path, v) && HasFault(heap, path, v, issue)
    ensures IsFound(heap, root, issue)
  {
  }

  /** Each branch of the walk that gives up, read off the node at hand. */
  lemma FaultIsFound(heap: Heap, root: Value, path: seq<ObjectId>, v: Value)
    requires IsPath(heap, root, path) && Follows(heap, root, path, v)
    ensures forall issue :: HasFault(heap, path, v, issue) ==> IsFound(heap, root, issue)
    ensures v.Scalar? || v.id !in heap ==> IsFound(heap, root, NotAnObject)
    ensures v.Object? && v.id in heap ==>
      && IsFound(heap, root, TooLarge)
      && (|path| >= 1024 ==> IsFound(heap, root, TooDeep))
      && (heap[v.id].Unknown? ==> IsFound(heap, root, UnknownKind))
      && (heap[v.id].Rule? && !heap[v.id].supported ==> IsFound(heap, root, UnsupportedRule))
      && (heap[v.id].Rule? && heap[v.id].operands.Some? && heap[v.id].operands.value > 256 ==> IsFound(heap, root, TooManyOperands))
      && (heap[v.id].Group? && !heap[v.id].supported ==> IsFound(heap, root, UnsupportedLogic))
      && (heap[v.id].Group? && heap[v.id].children.None? ==> IsFound(heap, root, ChildrenMissing))
      && (heap[v.id].Group? && heap[v.id].children.Some? && |heap[v.id].children.value| > 1024 ==> IsFound(heap, root, TooManyChildren))
      && (heap[v.id].Group? && v.id in path ==> IsFound(heap, root, Cyclic))
  {
    hide IsFound, IsPath, Follows;
    forall issue | HasFault(heap, path, v, issue) ensures IsFound(heap, root, issue) { Found(heap, root, path, v, issue); }
    if v.Object? && v.id in heap {
      assert HasFault(heap, path, v, TooLarge);
      assert |path| >= 1024 ==> HasFault(heap, path, v, TooDeep);
      assert heap[v.id].Unknown? ==> HasFault(heap, path, v, UnknownKind);
      assert heap[v.id].Rule? && !heap[v.id].supported ==> HasFault(heap, path, v, UnsupportedRule);
      assert heap[v.id].Group? && !heap[v.id].supported ==> HasFault(heap, path, v, UnsupportedLogic);
      assert heap[v.id].Group? && heap[v.id].children.None? ==> HasFault(heap, path, v, ChildrenMissing);
      assert heap[v.id].Group? && v.id in path ==> HasFault(heap, path, v, Cyclic);
      if heap[v.id].Rule? && heap[v.id].operands.Some? && heap[v.id].operands.value > 256 {
        assert HasFault(heap, path, v, TooManyOperands);
      }
      if heap[v.id].Group? && heap[v.id].children.Some? && |heap[v.id].children.value| > 1024 {
        assert HasFault(heap, path, v, TooManyChildren);
      }
    } else {
      assert HasFault(heap, path, v, NotAnObject);
    }
  }

  ghost predicate Counted(heap: Heap, stack: seq<Frame>, count: nat) {
    StackSize(heap, stack).Some? && count + StackSize(heap, stack).value <= MAX_NODES
  }

  lemma RestFits(heap: Heap, rest: seq<Frame>, top: Frame, count: nat)
    requires StackSize(heap, rest + [top]) == Plus(StackSize(heap, rest), FrameSize(heap, top))
    ensures FrameSize(heap, top).None? ==> !Counted(heap, rest + [top], count)
    ensures FrameSize(heap, top).Some? && count + FrameSize(heap, top).value > MAX_NODES ==> !Counted(heap, rest + [top], count)
    ensures FrameSize(heap, top).Some? ==>
      (Counted(heap, rest + [top], count) <==> Counted(heap, rest, count + FrameSize(heap, top).value))
  {
    hide StackSize;
  }

  lemma StartsAdmitted(heap: Heap, root: Value)
    ensures var stack := [Enter(root, 1)];
      && Placed(heap, root, stack) && Open(stack) == []
      && (Admitted(heap, root) <==> Counted(heap, stack, 0))
  {
    var none: seq<Frame> := [];
    assert none + [Enter(root, 1)] == [Enter(root, 1)];
    Pushed(heap, root, none, Enter(root, 1));
  }

  lemma EndsAdmitted(heap: Heap, count: nat)
    ensures Counted(heap, [], count) <==> count <= MAX_NODES
  {
  }

  function NodeSize(heap: Heap, node: Query, depth: nat): Option<nat> {
    match node
    case Unknown => None
    case Rule(_, _) => if RuleAdmitted(node) then Some(1) else None
    case Group(_, children) => if GroupAdmitted(node) then Plus(SizeAll(heap, children.value, depth + 1), Some(1)) else None
  }

  lemma SizeStep(heap: Heap, v: Value, depth: nat)
    ensures v.Scalar? || v.id !in heap || depth > MAX_DEPTH ==> Size(heap, v, depth) == None
    ensures v.Object? && v.id in heap && depth <= MAX_DEPTH ==> Size(heap, v, depth) == NodeSize(heap, heap[v.id], depth)
    ensures Size(heap, v, depth).Some? ==> Size(heap, v, depth).value > 0
  {
  }

  lemma ClosesCycle(heap: Heap, root: Value, rest: seq<Frame>, id: ObjectId)
    requires Placed(heap, root, rest) && Follows(heap, root, Open(rest), Object(id)) && id in Open(rest)
    ensures HasCycle(heap, root)
  {
    OpenIsPath(heap, root, rest);
  }

  lemma ChildrenFollow(heap: Heap, root: Value, path: seq<ObjectId>, id: ObjectId)
    requires id in heap && heap[id].Group? && heap[id].children.Some?
    ensures forall v :: v in heap[id].children.value ==> Follows(heap, root, path + [id], v)
  {
  }

  lemma GroupFits(heap: Heap, rest: seq<Frame>, pushed: seq<Frame>, below: Option<nat>, count: nat)
    requires StackSize(heap, pushed) == Plus(StackSize(heap, rest), below)
    ensures below.None? ==> !Counted(heap, pushed, count)
    ensures below.Some? ==> (Counted(heap, pushed, count) <==> Counted(heap, rest, count + below.value))
  {
    hide StackSize;
  }

  /**
   * `searchConfigQueryAdmissionIssue`: the walk with an explicit stack accepts exactly the admitted queries. It ends on
   * every heap, for each step counts a node or shortens the stack, and its active set is always the open path.
   */
  method AdmissionIssue(heap: Heap, root: Value) returns (issue: Option<Issue>)
    ensures issue.None? <==> Admitted(heap, root)
    ensures issue == Some(Cyclic) ==> HasCycle(heap, root)
    ensures issue.None? ==> !HasCycle(heap, root)
    ensures issue.Some? ==> IsFound(heap, root, issue.value)
  {
    hide Follows, Placed, Size, SizeAll, Open, StackSize, HasCycle, Counted, IsFound, IsPath, HasFault;
    var active: set<ObjectId> := {};
    var stack := [Enter(root, 1)];
    var nodeCount := 0;
    StartsAdmitted(heap, root);
    while stack != []
      invariant Placed(heap, root, stack) && forall id :: id in active <==> id in Open(stack)
      invariant nodeCount <= MAX_NODES
      invariant Admitted(heap, root) <==> Counted(heap, stack, nodeCount)
      decreases MAX_NODES - nodeCount, |stack|
    {
      var frame, rest := stack[|stack| - 1], stack[..|stack| - 1];
      assert stack == rest + [frame];
      Pushed(heap, root, rest, frame);
      RestFits(heap, rest, frame, nodeCount);
      stack := rest;
      if frame.Exit? {
        active := active - {frame.group};
        continue;
      }
      var current := frame.query;
      OpenIsPath(heap, root, rest);
      FaultIsFound(heap, root, Open(rest), current);
      SizeStep(heap, current, frame.depth);
      if current.Scalar? || current.id !in heap { return Some(NotAnObject); }
      if frame.depth > MAX_DEPTH { return Some(TooDeep); }
      if nodeCount >= MAX_NODES { return Some(TooLarge); }
      nodeCount := nodeCount + 1;
      var node := heap[current.id];
      if node.Rule? {
        if !node.supported { return Some(UnsupportedRule); }
        var operands := if node.operands.Some? then node.operands.value else 0;
        if operands > MAX_OPERANDS { return Some(TooManyOperands); }
        continue;
      }
      if !node.Group? { return Some(UnknownKind); }
      if !node.supported { return Some(UnsupportedLogic); }
      if node.children.None? { return Some(ChildrenMissing); }
      if |node.children.value| > MAX_CHILDREN { return Some(TooManyChildren); }
      if current.id in active {
        ClosesCycle(heap, root, rest, current.id);
        if Admitted(heap, root) { AdmittedHasNoCycle(heap, root); }
        return Some(Cyclic);
      }
      active := active + {current.id};
      Pushed(heap, root, rest, Exit(current.id));
      stack := rest + [Exit(current.id)];
      ChildrenFollow(heap, root, Open(rest), current.id);
      stack := PushChildren(heap, root, stack, node.children.value, frame.depth + 1);
      GroupFits(heap, rest, stack, SizeAll(heap, node.children.value, frame.depth + 1), nodeCount);
    }
    EndsAdmitted(heap, nodeCount);
    AdmittedHasNoCycle(heap, root);
    issue := None;
  }
}