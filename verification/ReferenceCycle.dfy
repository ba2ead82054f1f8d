/** The search that keeps references from closing a cycle in what the outline displays. */
module ReferenceCycle {
  import opened Collections
  import opened Outline

  /** Where the display goes from a node: through its children, and through references to their targets. */
  function Step(doc: Doc, child: NodeId): seq<NodeId> {
    if child !in doc then []
    else if doc[child].kind.Reference? && doc[child].target.Some? then [doc[child].target.value]
    else [child]
  }

  function Steps(doc: Doc, children: seq<NodeId>): seq<NodeId> {
    if children == [] then [] else Step(doc, children[0]) + Steps(doc, children[1..])
  }

  function Shown(doc: Doc, n: NodeId): seq<NodeId> {
    if n in doc then Steps(doc, doc[n].children) else []
  }

  // ----- Paths -----

  type Edges = NodeId -> seq<NodeId>

  ghost predicate Path(next: Edges, p: seq<NodeId>) {
    forall i :: 0 <= i < |p| - 1 ==> p[i + 1] in next(p[i])
  }

  ghost predicate Connects(next: Edges, p: seq<NodeId>, a: NodeId, b: NodeId) {
    Path(next, p) && |p| > 0 && p[0] == a && p[|p| - 1] == b
  }

  ghost predicate Reaches(next: Edges, a: NodeId, b: NodeId) {
    exists p :: Connects(next, p, a, b)
  }

  /** No node is displayed inside itself. */
  ghost predicate Acyclic(next: Edges) {
    forall p :: Path(next, p) && |p| > 1 ==> p[0] != p[|p| - 1]
  }

  lemma ReachesItself(next: Edges, a: NodeId)
    ensures Reaches(next, a, a)
  {
    assert Connects(next, [a], a, a);
  }

  lemma ReachesOnward(next: Edges, a: NodeId, b: NodeId, c: NodeId)
    requires Reaches(next, a, b) && c in next(b)
    ensures Reaches(next, a, c)
  {
    var p :| Connects(next, p, a, b);
    assert Connects(next, p + [c], a, c);
  }

  lemma Slice(next: Edges, p: seq<NodeId>, i: nat, j: nat)
    requires Path(next, p) && i <= j <= |p|
    ensures Path(next, p[i..j])
  {
    forall k | 0 <= k < |p[i..j]| - 1 ensures p[i..j][k + 1] in next(p[i..j][k]) {
      assert p[i + k + 1] in next(p[i + k]);
    }
  }

  lemma Joined(next: Edges, p: seq<NodeId>, q: seq<NodeId>)
    requires Path(next, p) && Path(next, q) && |p| > 0 && |q| > 0 && q[0] in next(p[|p| - 1])
    ensures Path(next, p + q)
  {
    forall k | 0 <= k < |p + q| - 1 ensures (p + q)[k + 1] in next((p + q)[k]) {
      if k < |p| - 1 {
        assert p[k + 1] in next(p[k]);
      } else if k >= |p| {
        assert q[k - |p| + 1] in next(q[k - |p|]);
      }
    }
  }

  /** A set closed under the edges holds everything a path from one of its members meets. */
  lemma {:induction false} ClosedSetsHoldPaths(next: Edges, s: set<NodeId>, p: seq<NodeId>, i: nat)
    requires Path(next, p) && i < |p| && p[0] in s
    requires forall n, m :: n in s && m in next(n) ==> m in s
    ensures p[i] in s
  {
    if i > 0 {
      ClosedSetsHoldPaths(next, s, p, i - 1);
      assert p[i - 1 + 1] in next(p[i - 1]);
    }
  }

  // ----- The search -----

  /** Every id the search can meet. */
  function Targets(doc: Doc): set<NodeId> {
    set n | n in doc && doc[n].target.Some? :: doc[n].target.value
  }

  lemma {:induction false} StepsStayInside(doc: Doc, children: seq<NodeId>, m: NodeId)
    requires m in Steps(doc, children)
    ensures m in doc.Keys + Targets(doc)
  {
    if m in Step(doc, children[0]) {
    } else {
      StepsStayInside(doc, children[1..], m);
    }
  }

  lemma {:induction false} StepsAppend(doc: Doc, xs: seq<NodeId>, x: NodeId)
    ensures Steps(doc, xs + [x]) == Steps(doc, xs) + Step(doc, x)
  {
    if xs == [] {
      assert [x][1..] == [];
    } else {
      assert (xs + [x])[1..] == xs[1..] + [x];
      StepsAppend(doc, xs[1..], x);
    }
  }

  ghost function ShownIn(doc: Doc): Edges {
    n => Shown(doc, n)
  }

  /** A child, or the target of a reference among the children. */
  predicate IsShownBy(doc: Doc, c: NodeId, m: NodeId) {
    c in doc && m == if doc[c].kind.Reference? && doc[c].target.Some? then doc[c].target.value else c
  }

  /** What a node shows: its children, and in place of a reference with a target that target. */
  lemma ShowsNext(doc: Doc, n: NodeId, m: NodeId)
    ensures m in ShownIn(doc)(n) <==> n in doc && exists c :: c in doc[n].children && IsShownBy(doc, c, m)
  {
    if n in doc {
      InSteps(doc, doc[n].children, m);
      forall c | c in doc[n].children ensures m in Step(doc, c) <==> IsShownBy(doc, c, m) {}
    }
  }

  /** What the search knows: everything met is reachable, and nothing met has been forgotten. */
  ghost predicate Searching(next: Edges, target: NodeId, stack: seq<NodeId>, visited: set<NodeId>) {
    && (forall x :: x in stack ==> Reaches(next, target, x))
    && (forall n, m :: n in visited && m in next(n) ==> m in visited || m in stack)
    && (target in visited || target in stack)
  }

  lemma Starts(next: Edges, target: NodeId)
    ensures Searching(next, target, [target], {})
  {
    ReachesItself(next, target);
  }

  lemma Met(next: Edges, target: NodeId, stack: seq<NodeId>, visited: set<NodeId>, id: NodeId)
    requires Searching(next, target, stack, visited) && id in stack
    ensures Reaches(next, target, id)
  {
  }

  lemma Descends(next: Edges, target: NodeId, stack: seq<NodeId>, visited: set<NodeId>, id: NodeId)
    requires Searching(next, target, stack + [id], visited)
    ensures Searching(next, target, stack + next(id), visited + {id})
  {
    assert (stack + [id])[|stack|] == id;
    forall x | x in stack + next(id) ensures Reaches(next, target, x) {
      if x in next(id) { ReachesOnward(next, target, id, x); } else { assert x in stack + [id]; }
    }
    forall n, m | n in visited + {id} && m in next(n) ensures m in visited + {id} || m in stack + next(id) {
      if n != id { assert m in visited || m in stack + [id]; }
    }
  }

  lemma Skips(next: Edges, target: NodeId, stack: seq<NodeId>, visited: set<NodeId>, id: NodeId)
    requires Searching(next, target, stack + [id], visited) && id in visited
    ensures Searching(next, target, stack, visited)
  {
    hide Reaches;
    forall x | x in stack ensures Reaches(next, target, x) { assert x in stack + [id]; }
    forall n, m | n in visited && m in next(n) ensures m in visited || m in stack {
      assert m in visited || m in stack + [id];
    }
  }

  lemma Exhausted(next: Edges, target: NodeId, visited: set<NodeId>, goal: NodeId)
    requires Searching(next, target, [], visited) && goal !in visited
    ensures !Reaches(next, target, goal)
  {
    if Reaches(next, target, goal) {
      var p :| Connects(next, p, target, goal);
      ClosedSetsHoldPaths(next, visited, p, |p| - 1);
    }
  }

  method PushShown(doc: Doc, id: NodeId, stack: seq<NodeId>) returns (pushed: seq<NodeId>)
    ensures pushed == stack + Shown(doc, id)
  {
    var children := if id in doc then doc[id].children else [];
    var index := 0;
    pushed := stack;
    while index < |children|
      invariant 0 <= index <= |children|
      invariant pushed == stack + Steps(doc, children[..index])
    {
      StepsAppend(doc, children[..index], children[index]);
      assert children[..index + 1] == children[..index] + [children[index]];
      if children[index] in doc {
        var child := doc[children[index]];
        pushed := pushed + [if child.kind.Reference? && child.target.Some? then child.target.value else children[index]];
      }
      index := index + 1;
    }
    assert children[..index] == children;
  }

  lemma PushedInside(doc: Doc, universe: set<NodeId>, stack: seq<NodeId>, id: NodeId)
    requires doc.Keys + Targets(doc) <= universe && forall x :: x in stack ==> x in universe
    ensures forall x :: x in stack + Shown(doc, id) ==> x in universe
  {
    forall x | x in stack + Shown(doc, id) ensures x in universe {
      if x !in stack { StepsStayInside(doc, doc[id].children, x); }
    }
  }

  /** `wouldCreateReferenceCycle`: whether the parent is displayed somewhere below the target. */
  method WouldCreateReferenceCycle(doc: Doc, parentId: NodeId, targetId: NodeId) returns (found: bool)
    ensures found <==> Reaches(ShownIn(doc), targetId, parentId)
  {
    hide Reaches, Searching, Shown, Targets;
    ghost var next := ShownIn(doc);
    ReachesItself(next, targetId);
    if parentId == targetId { return true; }
    ghost var universe := doc.Keys + Targets(doc) + {targetId};
    var stack := [targetId];
    var visited: set<NodeId> := {};
    Starts(next, targetId);
    while stack != []
      invariant visited <= universe && forall x :: x in stack ==> x in universe
      invariant Searching(next, targetId, stack, visited)
      invariant parentId !in visited
      decreases universe - visited, |stack|
    {
      var id, rest := stack[|stack| - 1], stack[..|stack| - 1];
      assert stack == rest + [id];
      stack := rest;
      if id in visited {
        Skips(next, targetId, stack, visited, id);
        continue;
      }
      Descends(next, targetId, stack, visited, id);
      Met(next, targetId, rest + [id], visited, id);
      assert id in universe && id !in visited;
      visited := visited + {id};
      if id == parentId { return true; }
      PushedInside(doc, universe, stack, id);
      stack := PushShown(doc, id, stack);
    }
    Exhausted(next, targetId, visited, parentId);
    found := false;
  }

  // ----- Why the search is the right question -----

  /** `after` is `before` with an edge from `p` to `t` added, where other edges of `p` may have gone. */
  ghost predicate AddsEdge(before: Edges, after: Edges, p: NodeId, t: NodeId) {
    && (forall n, m :: m in after(n) ==> m in before(n) || (n == p && m == t))
    && (forall n, m :: n != p && m in before(n) ==> m in after(n))
    && t in after(p)
  }

  lemma {:induction false} FromTheTarget(before: Edges, after: Edges, p: NodeId, t: NodeId, path: seq<NodeId>)
    requires AddsEdge(before, after, p, t) && Path(after, path) && |path| > 0 && path[0] == t
    ensures Reaches(before, t, path[|path| - 1])
  {
    if |path| == 1 {
      ReachesItself(before, t);
    } else {
      var start := path[..|path| - 1];
      Slice(after, path, 0, |path| - 1);
      FromTheTarget(before, after, p, t, start);
      assert path[|path| - 2 + 1] in after(path[|path| - 2]);
      if path[|path| - 1] in before(path[|path| - 2]) {
        ReachesOnward(before, t, path[|path| - 2], path[|path| - 1]);
      } else {
        ReachesItself(before, t);
      }
    }
  }

  /** A path that meets `p` only at its end does not use the edges `p` had. */
  lemma {:induction false} UpToParent(before: Edges, after: Edges, p: NodeId, t: NodeId, path: seq<NodeId>)
    returns (short: seq<NodeId>)
    requires AddsEdge(before, after, p, t) && Connects(before, path, t, p)
    ensures Connects(after, short, t, p)
    decreases |path|
  {
    if i :| 0 <= i < |path| - 1 && path[i] == p {
      var start := path[..i + 1];
      Slice(before, path, 0, i + 1);
      short := UpToParent(before, after, p, t, start);
    } else {
      short := path;
    }
  }

  lemma {:induction false} FindsNewEdge(before: Edges, after: Edges, p: NodeId, t: NodeId, path: seq<NodeId>)
    returns (i: nat)
    requires AddsEdge(before, after, p, t) && Path(after, path) && !Path(before, path)
    ensures i + 1 < |path| && path[i] == p && path[i + 1] == t
  {
    i :| i < |path| - 1 && path[i + 1] !in before(path[i]);
    assert path[i + 1] in after(path[i]);
  }

  lemma CycleNeedsTheEdge(before: Edges, after: Edges, p: NodeId, t: NodeId, path: seq<NodeId>)
    requires AddsEdge(before, after, p, t)
    requires Path(after, path) && !Path(before, path) && path[0] == path[|path| - 1]
    ensures Reaches(before, t, p)
  {
    var i := FindsNewEdge(before, after, p, t, path);
    var tail, head := path[i + 1..], path[1..i + 1];
    Slice(after, path, i + 1, |path|);
    assert path[i + 1..|path|] == tail;
    Slice(after, path, 1, i + 1);
    if i > 0 {
      assert path[0 + 1] in after(path[0]);
      Joined(after, tail, head);
    }
    FromTheTarget(before, after, p, t, tail + head);
  }

  /** The display graph stays free of cycles exactly when the parent was not below the target. */
  lemma CheckIsExact(before: Edges, after: Edges, p: NodeId, t: NodeId)
    requires Acyclic(before) && AddsEdge(before, after, p, t)
    ensures Acyclic(after) <==> !Reaches(before, t, p)
  {
    if Reaches(before, t, p) {
      var path :| Connects(before, path, t, p);
      var short := UpToParent(before, after, p, t, path);
      assert Path(after, [t]);
      Joined(after, short, [t]);
      assert (short + [t])[0] == t;
    }
    forall path | Path(after, path) && |path| > 1 && path[0] == path[|path| - 1] ensures Reaches(before, t, p) {
      CycleNeedsTheEdge(before, after, p, t, path);
    }
  }

  // ----- Changing all the edges of one node -----

  ghost predicate SameElsewhere(before: Edges, after: Edges, p: NodeId) {
    forall n :: n != p ==> after(n) == before(n)
  }

  /** Whether `p` is reached does not depend on where `p` leads. */
  lemma {:induction false} ReachedAlike(before: Edges, after: Edges, p: NodeId, t: NodeId, path: seq<NodeId>)
    requires SameElsewhere(before, after, p) && Connects(before, path, t, p)
    ensures Reaches(after, t, p)
    decreases |path|
  {
    if i :| 0 <= i < |path| - 1 && path[i] == p {
      Slice(before, path, 0, i + 1);
      ReachedAlike(before, after, p, t, path[0..i + 1]);
    } else {
      assert Connects(after, path, t, p);
    }
  }

  lemma CycleThrough(before: Edges, after: Edges, p: NodeId, path: seq<NodeId>)
    requires SameElsewhere(before, after, p) && Path(after, path) && !Path(before, path) && path[0] == path[|path| - 1]
    ensures exists m :: m in after(p) && Reaches(before, m, p)
  {
    var i: nat :| i < |path| - 1 && path[i + 1] !in before(path[i]);
    assert path[i + 1] in after(path[i]);
    var tail, head := path[i + 1..|path|], path[1..i + 1];
    Slice(after, path, i + 1, |path|);
    Slice(after, path, 1, i + 1);
    if i > 0 {
      assert path[0 + 1] in after(path[0]);
      Joined(after, tail, head);
    }
    assert Connects(after, tail + head, path[i + 1], p);
    ReachedAlike(after, before, p, path[i + 1], tail + head);
  }

  /** If no new edge of `p` leads back to it, checking them one by one was enough. */
  lemma StaysAcyclic(before: Edges, after: Edges, p: NodeId)
    requires Acyclic(before) && SameElsewhere(before, after, p)
    requires forall m :: m in after(p) ==> !Reaches(before, m, p)
    ensures Acyclic(after)
  {
    forall path | Path(after, path) && |path| > 1 ensures path[0] != path[|path| - 1] {
      if path[0] == path[|path| - 1] {
        CycleThrough(before, after, p, path);
        assert false;
      }
    }
  }

  lemma RoundTrip(next: Edges, p: NodeId, m: NodeId, path: seq<NodeId>)
    requires m in next(p) && Connects(next, path, m, p)
    ensures !Acyclic(next)
  {
    Joined(next, [p], path);
    assert ([p] + path)[0] == p;
  }

  lemma NoWayBack(next: Edges, p: NodeId, m: NodeId)
    requires Acyclic(next) && m in next(p)
    ensures !Reaches(next, m, p)
  {
    if Reaches(next, m, p) {
      var path :| Connects(next, path, m, p);
      RoundTrip(next, p, m, path);
      assert false;
    }
  }

  /** Two relations that agree on a set the first cannot leave reach the same from within it. */
  lemma ReachesInside(one: Edges, two: Edges, s: set<NodeId>, a: NodeId, b: NodeId)
    requires a in s && (forall n :: n in s ==> one(n) == two(n)) && forall n, m :: n in s && m in one(n) ==> m in s
    requires Reaches(one, a, b)
    ensures Reaches(two, a, b)
  {
    var path :| Connects(one, path, a, b);
    forall i | 0 <= i < |path| - 1 ensures path[i + 1] in two(path[i]) {
      ClosedSetsHoldPaths(one, s, path, i);
      assert path[i + 1] in one(path[i]);
    }
    assert Connects(two, path, a, b);
  }

  // ----- Following references -----

  function Link(doc: Doc, n: NodeId): seq<NodeId> {
    if n in doc && doc[n].kind.Reference? && doc[n].target.Some? then [doc[n].target.value] else []
  }

  ghost function Links(doc: Doc): Edges {
    n => Link(doc, n)
  }

  /** `resolveReferenceTargetId`: the end of the chain of references, or why there is none. */
  method ResolveReferenceTarget(doc: Doc, targetId: NodeId) returns (r: Result<NodeId>)
    ensures r.Ok? ==> Reaches(Links(doc), targetId, r.value) && r.value in doc && !doc[r.value].kind.Reference?
    ensures r == Err(ReferenceLoop) ==> forall n :: Reaches(Links(doc), targetId, n) ==> Link(doc, n) != []
    ensures r == Err(InvalidOperation) ==>
      exists n :: n in doc && Reaches(Links(doc), targetId, n) && doc[n].kind.Reference? && doc[n].target.None?
    ensures r.Err? && r.error.NotFound? ==> Reaches(Links(doc), targetId, r.error.id) && r.error.id !in doc
    ensures r.Err? && !r.error.NotFound? ==> r.error == ReferenceLoop || r.error == InvalidOperation
  {
    ghost var next := Links(doc);
    var current := targetId;
    var visited: set<NodeId> := {};
    ReachesItself(next, targetId);
    while true
      invariant Reaches(next, targetId, current)
      invariant visited <= doc.Keys
      invariant forall n :: n in visited ==> Link(doc, n) != [] && (Link(doc, n)[0] in visited || Link(doc, n)[0] == current)
      invariant targetId in visited || current == targetId
      decreases doc.Keys - visited
    {
      if current in visited {
        forall n | Reaches(next, targetId, n) ensures Link(doc, n) != [] {
          var p :| Connects(next, p, targetId, n);
          ClosedSetsHoldPaths(next, visited, p, |p| - 1);
        }
        return Err(ReferenceLoop);
      }
      if current !in doc { return Err(NotFound(current)); }
      visited := visited + {current};
      var node := doc[current];
      if !node.kind.Reference? { return Ok(current); }
      if node.target.None? { return Err(InvalidOperation); }
      ReachesOnward(next, targetId, current, node.target.value);
      current := node.target.value;
    }
  }

  /** `t` is the node that a reference to `a` stands for. */
  ghost predicate Resolves(doc: Doc, a: NodeId, t: NodeId) {
    Reaches(Links(doc), a, t) && t in doc && !doc[t].kind.Reference?
  }

  lemma {:induction false} SamePath(doc: Doc, p: seq<NodeId>, q: seq<NodeId>, i: nat)
    requires Path(Links(doc), p) && Path(Links(doc), q) && i < |p| && i < |q| && p[0] == q[0]
    ensures p[i] == q[i]
  {
    if i > 0 {
      SamePath(doc, p, q, i - 1);
      assert p[i - 1 + 1] in Link(doc, p[i - 1]);
      assert q[i - 1 + 1] in Link(doc, q[i - 1]);
    }
  }

  /** A path that ends where no link leads on is the longest from its start. */
  lemma LongestPath(doc: Doc, p: seq<NodeId>, q: seq<NodeId>)
    requires Path(Links(doc), p) && Path(Links(doc), q) && |p| > 0 && |q| > 0 && p[0] == q[0]
    requires Link(doc, p[|p| - 1]) == []
    ensures |q| <= |p|
  {
    if |q| > |p| {
      assert q[|p| - 1 + 1] in Link(doc, q[|p| - 1]);
      SamePath(doc, p, q, |p| - 1);
      assert false;
    }
  }

  lemma OneEnd(doc: Doc, a: NodeId, t: NodeId, u: NodeId)
    requires Resolves(doc, a, t) && Resolves(doc, a, u)
    ensures t == u
  {
    var p :| Connects(Links(doc), p, a, t);
    var q :| Connects(Links(doc), q, a, u);
    LongestPath(doc, p, q);
    LongestPath(doc, q, p);
    SamePath(doc, p, q, |p| - 1);
  }

  lemma OnTheWay(doc: Doc, a: NodeId, t: NodeId, n: NodeId)
    requires Resolves(doc, a, t) && Reaches(Links(doc), a, n)
    ensures n == t || Link(doc, n) != []
  {
    var p :| Connects(Links(doc), p, a, t);
    var q :| Connects(Links(doc), q, a, n);
    LongestPath(doc, p, q);
    SamePath(doc, p, q, |q| - 1);
    if |q| < |p| { assert p[|q| - 1 + 1] in Link(doc, p[|q| - 1]); }
  }

  /** What resolves is never reported as a loop, a missing node or a reference to nothing. */
  lemma EndsDiffer(doc: Doc, a: NodeId, t: NodeId)
    requires Resolves(doc, a, t)
    ensures !(forall n :: Reaches(Links(doc), a, n) ==> Link(doc, n) != [])
    ensures !exists n :: n in doc && Reaches(Links(doc), a, n) && doc[n].kind.Reference? && doc[n].target.None?
    ensures forall n :: Reaches(Links(doc), a, n) ==> n in doc
  {
    hide Reaches;
    assert Link(doc, t) == [];
    forall n | Reaches(Links(doc), a, n) ensures n == t || Link(doc, n) != [] { OnTheWay(doc, a, t, n); }
  }

  // ----- Instances among the children -----

  /** The child `c` shows the node `t`: it is `t`, or a reference that stands for `t`. */
  ghost predicate Shows(doc: Doc, c: NodeId, t: NodeId) {
    c in doc && doc[c].parent != Some(TRASH_ID) &&
    if doc[c].kind.Reference? && doc[c].target.Some? then Resolves(doc, doc[c].target.value, t) else c == t
  }

  /** The child is a reference that stands for nothing: its chain loops, ends nowhere or at a bare reference. */
  ghost predicate Broken(doc: Doc, c: NodeId) {
    && c in doc && doc[c].parent != Some(TRASH_ID) && doc[c].kind.Reference? && doc[c].target.Some?
    && forall t :: !Resolves(doc, doc[c].target.value, t)
  }

  /** How a chain of references ends badly. */
  predicate IsChainError(error: Error) {
    error.NotFound? || error.ReferenceLoop? || error.InvalidOperation?
  }

  /** The parent can take one more child that shows `t`. */
  ghost predicate Takes(doc: Doc, parentId: NodeId, t: NodeId, exclude: Option<NodeId>)
    requires parentId in doc
  {
    forall c :: c in doc[parentId].children && Some(c) != exclude ==> !Shows(doc, c, t) && !Broken(doc, c)
  }

  /** Under the trash nothing is ever too many. */
  lemma TrashTakesAll(doc: Doc, t: NodeId, exclude: Option<NodeId>)
    requires Linked(doc) && TRASH_ID in doc
    ensures Takes(doc, TRASH_ID, t, exclude)
  {
  }

  /** Elsewhere a plain child, or a reference to a plain node, keeps its node from being shown once more. */
  lemma ShownAlready(doc: Doc, parentId: NodeId, c: NodeId, t: NodeId, exclude: Option<NodeId>)
    requires Linked(doc) && parentId in doc && parentId != TRASH_ID && c in doc[parentId].children && Some(c) != exclude
    requires t in doc && !doc[t].kind.Reference?
    requires c == t || (doc[c].kind.Reference? && doc[c].target == Some(t))
    ensures !Takes(doc, parentId, t, exclude)
  {
    ReachesItself(Links(doc), t);
    assert Shows(doc, c, t);
  }

  /** `ensureParentCanContainChildInstance`. */
  method CanContain(doc: Doc, parentId: NodeId, t: NodeId, exclude: Option<NodeId>) returns (r: Result<NodeId>)
    requires parentId in doc
    ensures r.Ok? <==> Takes(doc, parentId, t, exclude)
    ensures r == Err(DuplicateChild) ==> exists c :: c in doc[parentId].children && Some(c) != exclude && Shows(doc, c, t)
    ensures r.Err? && r.error != DuplicateChild ==> IsChainError(r.error)
    ensures r.Err? && r.error != DuplicateChild ==> exists c :: c in doc[parentId].children && Some(c) != exclude && Broken(doc, c)
  {
    var children, index := doc[parentId].children, 0;
    while index < |children|
      invariant 0 <= index <= |children|
      invariant forall c :: c in children[..index] && Some(c) != exclude ==> !Shows(doc, c, t) && !Broken(doc, c)
    {
      var c := children[index];
      assert children[..index + 1] == children[..index] + [c];
      if Some(c) != exclude && c in doc && doc[c].parent != Some(TRASH_ID) {
        var shown := Ok(c);
        if doc[c].kind.Reference? && doc[c].target.Some? {
          shown := ResolveReferenceTarget(doc, doc[c].target.value);
          if shown.Err? {
            forall u ensures !Resolves(doc, doc[c].target.value, u) {
              if Resolves(doc, doc[c].target.value, u) { EndsDiffer(doc, doc[c].target.value, u); }
            }
            assert Broken(doc, c);
            return shown;
          }
          assert Resolves(doc, doc[c].target.value, shown.value);
          if Resolves(doc, doc[c].target.value, t) { OneEnd(doc, doc[c].target.value, t, shown.value); }
        }
        if shown.value == t { return Err(DuplicateChild); }
      }
      index := index + 1;
    }
    assert children[..index] == children;
    r := Ok(parentId);
  }

  // ----- The two commands -----

  lemma {:induction false} InSteps(doc: Doc, children: seq<NodeId>, m: NodeId)
    ensures m in Steps(doc, children) <==> exists c :: c in children && m in Step(doc, c)
  {
    if children != [] {
      InSteps(doc, children[1..], m);
      assert forall c :: c in children <==> c == children[0] || c in children[1..];
    }
  }

  lemma AddedReference(doc: Doc, id: NodeId, index: Option<int>, p: NodeId, t: NodeId)
    requires Linked(doc) && id !in doc && p in doc
    ensures AddsEdge(ShownIn(doc), ShownIn(WithReference(doc, id, index, p, t)), p, t)
  {
    hide Created, Linked;
    var after := WithReference(doc, id, index, p, t);
    AddedShown(doc, id, index, p, t);
    forall n: NodeId, m: NodeId ensures m in Shown(after, n) <==> m in Shown(doc, n) || (n == p && m == t) {
      if n in after {
        InSteps(after, after[n].children, m);
        if n in doc {
          InSteps(doc, doc[n].children, m);
          SameSteps(doc, after, id, n, p, t, m);
        }
      }
    }
  }

  lemma AddedShown(doc: Doc, id: NodeId, index: Option<int>, p: NodeId, t: NodeId)
    requires Linked(doc) && id !in doc && p in doc
    ensures var after := WithReference(doc, id, index, p, t);
      && after.Keys == doc.Keys + {id} && after[id].children == [] && Step(after, id) == [t]
      && (forall n, c :: n in doc && c in doc[n].children ==> Step(after, c) == Step(doc, c))
      && (forall n :: n in doc && n != p ==> after[n].children == doc[n].children)
      && (forall c :: c in after[p].children <==> c in doc[p].children || c == id)
  {
    InsertedDistinct(doc[p].children, InsertionIndex(index, |doc[p].children|), id);
    hide Inserted;
  }

  lemma SameSteps(doc: Doc, after: Doc, id: NodeId, n: NodeId, p: NodeId, t: NodeId, m: NodeId)
    requires n in doc && n in after && Step(after, id) == [t]
    requires forall c :: c in doc[n].children ==> Step(after, c) == Step(doc, c)
    requires forall c :: c in after[n].children <==> c in doc[n].children || (n == p && c == id)
    ensures (exists c :: c in after[n].children && m in Step(after, c)) <==>
      (exists c :: c in doc[n].children && m in Step(doc, c)) || (n == p && m == t)
  {
    if n == p && m == t { assert id in after[n].children; }
  }

  function WithReference(doc: Doc, id: NodeId, index: Option<int>, p: NodeId, t: NodeId): Doc
    requires p in doc
  {
    Created(doc, id, index, BlankNode(Reference, p).(target := Some(t)))
  }

  function Retargeted(doc: Doc, id: NodeId, t: NodeId): Doc
    requires id in doc
  {
    doc[id := doc[id].(target := Some(t))]
  }

  lemma RetargetedReference(doc: Doc, id: NodeId, t: NodeId)
    requires Linked(doc) && id in doc && doc[id].kind.Reference? && doc[id].parent.Some?
    ensures AddsEdge(ShownIn(doc), ShownIn(Retargeted(doc, id, t)), doc[id].parent.value, t)
  {
    var p, after := doc[id].parent.value, Retargeted(doc, id, t);
    assert ListedByParent(doc, id);
    forall n: NodeId, m: NodeId
      ensures m in Shown(after, n) ==> m in Shown(doc, n) || (n == p && m == t)
      ensures n != p && m in Shown(doc, n) ==> m in Shown(after, n)
    {
      if n in doc {
        InSteps(doc, doc[n].children, m);
        InSteps(after, after[n].children, m);
        RetargetedSteps(doc, id, t, n, m);
      }
    }
    InSteps(after, after[p].children, t);
    assert t in Step(after, id);
  }

  lemma RetargetedSteps(doc: Doc, id: NodeId, t: NodeId, n: NodeId, m: NodeId)
    requires Linked(doc) && id in doc && doc[id].kind.Reference? && n in doc
    ensures var after := Retargeted(doc, id, t);
      && ((exists c :: c in doc[n].children && m in Step(after, c)) ==>
        (exists c :: c in doc[n].children && m in Step(doc, c)) || (Some(n) == doc[id].parent && m == t))
      && (Some(n) != doc[id].parent && (exists c :: c in doc[n].children && m in Step(doc, c)) ==>
        (exists c :: c in doc[n].children && m in Step(after, c)))
  {
    var after := Retargeted(doc, id, t);
    assert forall c :: c != id ==> Step(after, c) == Step(doc, c);
    assert Step(after, id) == [t];
  }

  lemma RetargetedLinked(doc: Doc, id: NodeId, t: NodeId)
    requires Linked(doc) && id in doc
    ensures Linked(Retargeted(doc, id, t))
  {
    forall n | n in doc ensures ListedByParent(Retargeted(doc, id, t), n) { assert ListedByParent(doc, n); }
  }

  predicate Retargetable(doc: Doc, id: NodeId) {
    && id in doc && doc[id].kind.Reference? && !doc[id].locked && !IsSystemId(id)
    && doc[id].parent.Some? && doc[id].parent.value in doc && !IsInternal(doc[doc[id].parent.value])
  }

  /** What `addReference` asks before it writes. */
  ghost predicate MayAdd(doc: Doc, parentId: NodeId, targetId: NodeId, id: NodeId) {
    && parentId in doc && !IsInternal(doc[parentId]) && id !in doc
    && exists t :: Resolves(doc, targetId, t) && !Reaches(ShownIn(doc), t, parentId) && Takes(doc, parentId, t, None)
  }

  /** What `setReferenceTarget` asks before it writes. */
  ghost predicate MayRetarget(doc: Doc, id: NodeId, targetId: NodeId) {
    && Retargetable(doc, id)
    && exists t :: Resolves(doc, targetId, t) && !Reaches(ShownIn(doc), t, doc[id].parent.value) && Takes(doc, doc[id].parent.value, t, Some(id))
  }

  /** No other child of the parent shows the node. */
  ghost predicate ShownByNone(doc: Doc, parentId: NodeId, id: NodeId, t: NodeId) {
    parentId in doc && forall c :: c in doc[parentId].children && c != id ==> !Shows(doc, c, t)
  }

  class Core {
    var doc: Doc

    constructor (initial: Doc)
      ensures doc == initial
    {
      doc := initial;
    }

    /** `addReference`. Of the requests that pass the other checks it refuses just those that would show the parent inside itself. */
    method AddReference(parentId: NodeId, targetId: NodeId, index: Option<int>, id: NodeId) returns (r: Result<NodeId>)
      requires Linked(doc)
      modifies this
      ensures r.Ok? <==> MayAdd(old(doc), parentId, targetId, id)
      ensures r.Err? ==> doc == old(doc)
      ensures r.Ok? ==> r.value == id && id !in old(doc) && parentId in old(doc) && exists t ::
        Resolves(old(doc), targetId, t) && doc == WithReference(old(doc), id, index, parentId, t)
      ensures Acyclic(ShownIn(old(doc))) ==> Acyclic(ShownIn(doc))
      ensures Linked(doc)
      ensures forall t :: (parentId in old(doc) && !IsInternal(old(doc)[parentId]) && id !in old(doc)
        && Acyclic(ShownIn(old(doc))) && Resolves(old(doc), targetId, t)
        && !Acyclic(ShownIn(WithReference(old(doc), id, index, parentId, t)))) ==> r == Err(ReferenceLoop)
      ensures r.Ok? ==> !old(doc)[parentId].kind.DefConfig? && !old(doc)[parentId].kind.SystemOption?
      ensures r.Ok? ==> id in doc && doc[id].target.Some? && ShownByNone(old(doc), parentId, id, doc[id].target.value)
    {
      if parentId !in doc { return Err(NotFound(parentId)); }
      if IsInternal(doc[parentId]) { return Err(InvalidOperation); }
      var resolved := ResolveReferenceTarget(doc, targetId);
      if resolved.Err? {
        forall t | Resolves(doc, targetId, t) ensures false { EndsDiffer(doc, targetId, t); }
        return resolved;
      }
      var t := resolved.value;
      forall u | Resolves(doc, targetId, u) ensures u == t { OneEnd(doc, targetId, t, u); }
      var loops := WouldCreateReferenceCycle(doc, parentId, t);
      if loops { return Err(ReferenceLoop); }
      if id !in doc {
        AddedReference(doc, id, index, parentId, t);
        if Acyclic(ShownIn(doc)) { CheckIsExact(ShownIn(doc), ShownIn(WithReference(doc, id, index, parentId, t)), parentId, t); }
      }
      var contains := CanContain(doc, parentId, t, None);
      if contains.Err? { return contains; }
      if id in doc { return Err(InvalidOperation); }
      CreatedLinked(doc, id, index, BlankNode(Reference, parentId).(target := Some(t)));
      doc := WithReference(doc, id, index, parentId, t);
      r := Ok(id);
    }

    /** `setReferenceTarget`. */
    method SetReferenceTarget(id: NodeId, targetId: NodeId) returns (r: Result<NodeId>)
      requires Linked(doc)
      modifies this
      ensures r.Ok? <==> MayRetarget(old(doc), id, targetId)
      ensures r.Err? ==> doc == old(doc)
      ensures r.Ok? ==> id in old(doc) && old(doc)[id].kind.Reference? && exists t ::
        Resolves(old(doc), targetId, t) && doc == Retargeted(old(doc), id, t)
      ensures Acyclic(ShownIn(old(doc))) ==> Acyclic(ShownIn(doc))
      ensures Linked(doc)
      ensures forall t :: (Retargetable(old(doc), id) && Acyclic(ShownIn(old(doc))) && Resolves(old(doc), targetId, t)
        && !Acyclic(ShownIn(Retargeted(old(doc), id, t)))) ==> r == Err(ReferenceLoop)
      ensures IsPinned(old(doc), id) ==> r == Err(Locked(id))
      ensures r.Ok? ==> old(doc)[id].parent.Some? && id in doc && doc[id].target.Some?
      ensures r.Ok? ==> ShownByNone(old(doc), old(doc)[id].parent.value, id, doc[id].target.value)
    {
      if id !in doc { return Err(NotFound(id)); }
      if doc[id].locked || IsSystemId(id) || IsInternal(doc[id]) { return Err(Locked(id)); }
      if !doc[id].kind.Reference? { return Err(InvalidOperation); }
      var resolved := ResolveReferenceTarget(doc, targetId);
      if resolved.Err? {
        forall t | Resolves(doc, targetId, t) ensures false { EndsDiffer(doc, targetId, t); }
        return resolved;
      }
      var t := resolved.value;
      forall u | Resolves(doc, targetId, u) ensures u == t { OneEnd(doc, targetId, t, u); }
      if doc[id].parent.None? { return Err(InvalidOperation); }
      var parentId := doc[id].parent.value;
      assert ListedByParent(doc, id);
      if IsInternal(doc[parentId]) { return Err(InvalidOperation); }
      RetargetedReference(doc, id, t);
      RetargetedLinked(doc, id, t);
      if Acyclic(ShownIn(doc)) { CheckIsExact(ShownIn(doc), ShownIn(Retargeted(doc, id, t)), parentId, t); }
      hide Resolves, Reaches, Linked, Acyclic, Shows, Takes;
      var loops := WouldCreateReferenceCycle(doc, parentId, t);
      if loops { return Err(ReferenceLoop); }
      var contains := CanContain(doc, parentId, t, Some(id));
      if contains.Err? { return contains; }
      doc := Retargeted(doc, id, t);
      r := Ok(id);
    }
  }
}