/** The order of the nodes in the document: a node before its children, and children one subtree after the other. */
module DocumentOrder {
  import opened Collections
  import opened Outline
  import opened CoreState

  /** `x` is `a` or lies under it. */
  ghost predicate Under(doc: Doc, rank: map<NodeId, nat>, a: NodeId, x: NodeId)
    requires Linked(doc) && Ranked(doc, rank)
  {
    x in doc && (x == a || Above(doc, rank, a, x))
  }

  lemma {:induction false} UnderIsLower(doc: Doc, rank: map<NodeId, nat>, a: NodeId, x: NodeId)
    requires Linked(doc) && Ranked(doc, rank) && Under(doc, rank, a, x) && a in doc
    ensures x == a || rank[a] < rank[x]
    decreases rank[x]
  {
    if x != a {
      assert ListedByParent(doc, x) && BelowParent(doc, rank, x);
      UnderIsLower(doc, rank, a, doc[x].parent.value);
    }
  }

  /** What lies under a node lies under one of its children. */
  lemma {:induction false} UnderAChild(doc: Doc, rank: map<NodeId, nat>, a: NodeId, x: NodeId) returns (i: nat)
    requires Linked(doc) && Ranked(doc, rank) && Under(doc, rank, a, x) && a in doc && x != a
    ensures i < |doc[a].children| && Under(doc, rank, doc[a].children[i], x)
    decreases rank[x]
  {
    assert ListedByParent(doc, x) && BelowParent(doc, rank, x);
    var q := doc[x].parent.value;
    if q == a {
      i :| 0 <= i < |doc[a].children| && doc[a].children[i] == x;
    } else {
      i := UnderAChild(doc, rank, a, q);
    }
  }

  lemma {:induction false} ChildIsUnder(doc: Doc, rank: map<NodeId, nat>, a: NodeId, c: NodeId, x: NodeId)
    requires Linked(doc) && Ranked(doc, rank) && a in doc && c in doc[a].children && Under(doc, rank, c, x)
    ensures Under(doc, rank, a, x) && x != a
    decreases rank[x]
  {
    assert doc[c].parent == Some(a) && BelowParent(doc, rank, c);
    if x == c {
      assert Above(doc, rank, a, x);
    } else {
      assert ListedByParent(doc, x) && BelowParent(doc, rank, x);
      ChildIsUnder(doc, rank, a, c, doc[x].parent.value);
      UnderIsLower(doc, rank, c, x);
    }
  }

  /** Two children share nothing below them. */
  lemma {:induction false} ApartBelow(doc: Doc, rank: map<NodeId, nat>, c: NodeId, d: NodeId, x: NodeId)
    requires Linked(doc) && Ranked(doc, rank) && c in doc && d in doc && doc[c].parent == doc[d].parent
    requires Under(doc, rank, c, x) && Under(doc, rank, d, x)
    ensures c == d
    decreases rank[x]
  {
    if c != d {
      if x == c || x == d {
        assert ListedByParent(doc, x) && BelowParent(doc, rank, x) && BelowParent(doc, rank, c) && BelowParent(doc, rank, d);
        UnderIsLower(doc, rank, if x == c then d else c, doc[x].parent.value);
      } else {
        assert ListedByParent(doc, x) && BelowParent(doc, rank, x);
        ApartBelow(doc, rank, c, d, doc[x].parent.value);
      }
    }
  }

  lemma {:induction false} UnderARoot(doc: Doc, rank: map<NodeId, nat>, x: NodeId) returns (r: NodeId)
    requires Linked(doc) && Ranked(doc, rank) && x in doc
    ensures r in doc && doc[r].parent.None? && Under(doc, rank, r, x)
    decreases rank[x]
  {
    if doc[x].parent.None? {
      r := x;
    } else {
      assert ListedByParent(doc, x) && BelowParent(doc, rank, x);
      r := UnderARoot(doc, rank, doc[x].parent.value);
    }
  }

  // ----- Ranks -----

  type Order = map<NodeId, nat>

  ghost predicate Extends(order: Order, wider: Order) {
    forall x :: x in order ==> x in wider && wider[x] == order[x]
  }

  /** Everything under `c` comes before everything under `d`. */
  ghost predicate Apart(doc: Doc, rank: map<NodeId, nat>, order: Order, c: NodeId, d: NodeId)
    requires Linked(doc) && Ranked(doc, rank)
  {
    forall x, y :: Under(doc, rank, c, x) && Under(doc, rank, d, y) ==> x in order && y in order && order[x] < order[y]
  }

  /** Everything under `a` has its place from `lo` on. */
  ghost predicate AllFrom(doc: Doc, rank: map<NodeId, nat>, order: Order, a: NodeId, lo: nat)
    requires Linked(doc) && Ranked(doc, rank)
  {
    forall x :: Under(doc, rank, a, x) ==> x in order && lo <= order[x]
  }

  ghost predicate ChildrenApart(doc: Doc, rank: map<NodeId, nat>, order: Order, p: NodeId, n: nat)
    requires Linked(doc) && Ranked(doc, rank) && p in doc && n <= |doc[p].children|
  {
    forall i, j :: 0 <= i < j < n ==> Apart(doc, rank, order, doc[p].children[i], doc[p].children[j])
  }

  /** A node comes before what is under it, and its children with all they hold one after the other. */
  ghost predicate OrderedAt(doc: Doc, rank: map<NodeId, nat>, order: Order, p: NodeId)
    requires Linked(doc) && Ranked(doc, rank)
  {
    p in doc && p in order && AllFrom(doc, rank, order, p, order[p]) && ChildrenApart(doc, rank, order, p, |doc[p].children|)
  }

  ghost predicate OrderedUnder(doc: Doc, rank: map<NodeId, nat>, order: Order, a: NodeId)
    requires Linked(doc) && Ranked(doc, rank)
  {
    forall p :: Under(doc, rank, a, p) ==> OrderedAt(doc, rank, order, p)
  }

  ghost predicate Below(doc: Doc, order: Order, next: nat) {
    && (forall x :: x in order ==> x in doc && order[x] < next)
    && (forall x, y :: x in order && y in order && x != y ==> order[x] != order[y])
  }

  ghost predicate Fresh(doc: Doc, rank: map<NodeId, nat>, order: Order, a: NodeId)
    requires Linked(doc) && Ranked(doc, rank)
  {
    forall x :: Under(doc, rank, a, x) ==> x !in order
  }

  /** A visit adds what is under the node, and nothing else. */
  ghost predicate Visited(doc: Doc, rank: map<NodeId, nat>, n: NodeId, start: Order, first: nat, order: Order, next: nat)
    requires Linked(doc) && Ranked(doc, rank)
  {
    && Extends(start, order) && first <= next && Below(doc, order, next)
    && (forall x :: x in order <==> x in start || Under(doc, rank, n, x))
    && AllFrom(doc, rank, order, n, first) && OrderedUnder(doc, rank, order, n)
  }

  ghost predicate UnderSome(doc: Doc, rank: map<NodeId, nat>, children: seq<NodeId>, x: NodeId)
    requires Linked(doc) && Ranked(doc, rank)
  {
    exists j :: 0 <= j < |children| && Under(doc, rank, children[j], x)
  }

  ghost predicate Visiting(doc: Doc, rank: map<NodeId, nat>, n: NodeId, start: Order, first: nat, order: Order, next: nat, i: nat)
    requires Linked(doc) && Ranked(doc, rank) && n in doc && i <= |doc[n].children|
  {
    var children := doc[n].children;
    && Extends(start, order) && first < next && Below(doc, order, next) && n in order && order[n] == first
    && (forall x :: x in order <==> x in start || x == n || UnderSome(doc, rank, children[..i], x))
    && (forall j :: 0 <= j < i ==> AllFrom(doc, rank, order, children[j], first) && OrderedUnder(doc, rank, order, children[j]))
    && ChildrenApart(doc, rank, order, n, i)
  }

  lemma VisitStarts(doc: Doc, rank: map<NodeId, nat>, n: NodeId, start: Order, first: nat)
    requires Linked(doc) && Ranked(doc, rank) && n in doc && n !in start && Below(doc, start, first)
    ensures Visiting(doc, rank, n, start, first, start[n := first], first + 1, 0)
  {
    hide Under;
  }

  lemma StaysFrom(doc: Doc, rank: map<NodeId, nat>, order: Order, wider: Order, a: NodeId, lo: nat)
    requires Linked(doc) && Ranked(doc, rank) && AllFrom(doc, rank, order, a, lo) && Extends(order, wider)
    ensures AllFrom(doc, rank, wider, a, lo)
  {
    hide Under;
  }

  lemma StaysApart(doc: Doc, rank: map<NodeId, nat>, order: Order, wider: Order, c: NodeId, d: NodeId)
    requires Linked(doc) && Ranked(doc, rank) && Apart(doc, rank, order, c, d) && Extends(order, wider)
    ensures Apart(doc, rank, wider, c, d)
  {
    hide Under;
  }

  /** What is placed after everything placed so far is apart from it. */
  lemma NewIsApart(doc: Doc, rank: map<NodeId, nat>, order: Order, next: nat, wider: Order, c: NodeId, d: NodeId)
    requires Linked(doc) && Ranked(doc, rank) && AllFrom(doc, rank, order, c, 0) && Below(doc, order, next) && Extends(order, wider)
    requires AllFrom(doc, rank, wider, d, next)
    ensures Apart(doc, rank, wider, c, d)
  {
    hide Under;
  }

  /** A wider order keeps what an order says. */
  lemma StaysOrdered(doc: Doc, rank: map<NodeId, nat>, order: Order, wider: Order, p: NodeId)
    requires Linked(doc) && Ranked(doc, rank) && Extends(order, wider) && OrderedAt(doc, rank, order, p)
    ensures OrderedAt(doc, rank, wider, p)
  {
    StaysFrom(doc, rank, order, wider, p, order[p]);
    hide Under, Linked, Ranked, AllFrom, Apart;
    forall i, j | 0 <= i < j < |doc[p].children| ensures Apart(doc, rank, wider, doc[p].children[i], doc[p].children[j]) {
      StaysApart(doc, rank, order, wider, doc[p].children[i], doc[p].children[j]);
    }
  }

  lemma StaysOrderedUnder(doc: Doc, rank: map<NodeId, nat>, order: Order, wider: Order, a: NodeId)
    requires Linked(doc) && Ranked(doc, rank) && Extends(order, wider) && OrderedUnder(doc, rank, order, a)
    ensures OrderedUnder(doc, rank, wider, a)
  {
    forall p | Under(doc, rank, a, p) ensures OrderedAt(doc, rank, wider, p) { StaysOrdered(doc, rank, order, wider, p); }
  }

  lemma NextIsFresh(doc: Doc, rank: map<NodeId, nat>, n: NodeId, start: Order, first: nat, order: Order, next: nat, i: nat)
    requires Linked(doc) && Ranked(doc, rank) && n in doc && i < |doc[n].children| && Fresh(doc, rank, start, n)
    requires Visiting(doc, rank, n, start, first, order, next, i)
    ensures Fresh(doc, rank, order, doc[n].children[i]) && doc[n].children[i] in doc
  {
    var children := doc[n].children;
    var c := children[i];
    assert Distinct(children) && c in children;
    forall x | Under(doc, rank, c, x) ensures x !in order {
      ChildIsUnder(doc, rank, n, c, x);
      forall j | 0 <= j < i ensures !Under(doc, rank, children[..i][j], x) {
        if Under(doc, rank, children[j], x) {
          assert children[j] in children;
          ApartBelow(doc, rank, c, children[j], x);
        }
      }
    }
  }

  lemma VisitGoesOn(doc: Doc, rank: map<NodeId, nat>, n: NodeId, start: Order, first: nat, order: Order, next: nat, i: nat, wider: Order, last: nat)
    requires Linked(doc) && Ranked(doc, rank) && n in doc && i < |doc[n].children|
    requires Visiting(doc, rank, n, start, first, order, next, i) && Visited(doc, rank, doc[n].children[i], order, next, wider, last)
    ensures Visiting(doc, rank, n, start, first, wider, last, i + 1)
  {
    hide Under, Linked, Ranked, Below, AllFrom, ChildrenApart, OrderedUnder, UnderSome;
    var children := doc[n].children;
    forall x ensures x in wider <==> x in start || x == n || UnderSome(doc, rank, children[..i + 1], x) {
      MoreUnder(doc, rank, children, i, x);
    }
    forall j | 0 <= j < i
      ensures AllFrom(doc, rank, wider, children[j], first) && OrderedUnder(doc, rank, wider, children[j]) && AllFrom(doc, rank, order, children[j], 0)
    {
      StaysOrderedUnder(doc, rank, order, wider, children[j]);
      StaysFrom(doc, rank, order, wider, children[j], first);
      FromEarlier(doc, rank, order, children[j], 0, first);
    }
    FromEarlier(doc, rank, wider, children[i], first, next);
    OneMoreApart(doc, rank, n, order, next, i, wider, last);
  }

  lemma FromEarlier(doc: Doc, rank: map<NodeId, nat>, order: Order, a: NodeId, lo: nat, hi: nat)
    requires Linked(doc) && Ranked(doc, rank) && AllFrom(doc, rank, order, a, hi) && lo <= hi
    ensures AllFrom(doc, rank, order, a, lo)
  {
    hide Under;
  }

  lemma MoreUnder(doc: Doc, rank: map<NodeId, nat>, children: seq<NodeId>, i: nat, x: NodeId)
    requires Linked(doc) && Ranked(doc, rank) && i < |children|
    ensures UnderSome(doc, rank, children[..i + 1], x) <==> UnderSome(doc, rank, children[..i], x) || Under(doc, rank, children[i], x)
  {
    hide Under, Linked, Ranked;
    if UnderSome(doc, rank, children[..i], x) {
      var j :| 0 <= j < i && Under(doc, rank, children[..i][j], x);
      assert Under(doc, rank, children[..i + 1][j], x);
    }
    if Under(doc, rank, children[i], x) { assert Under(doc, rank, children[..i + 1][i], x); }
    if UnderSome(doc, rank, children[..i + 1], x) {
      var j :| 0 <= j < i + 1 && Under(doc, rank, children[..i + 1][j], x);
      if j < i { assert Under(doc, rank, children[..i][j], x); }
    }
  }

  lemma OneMoreApart(doc: Doc, rank: map<NodeId, nat>, n: NodeId, order: Order, next: nat, i: nat, wider: Order, last: nat)
    requires Linked(doc) && Ranked(doc, rank) && n in doc && i < |doc[n].children| && Below(doc, order, next)
    requires forall j :: 0 <= j < i ==> AllFrom(doc, rank, order, doc[n].children[j], 0)
    requires ChildrenApart(doc, rank, order, n, i) && Extends(order, wider) && AllFrom(doc, rank, wider, doc[n].children[i], next)
    ensures ChildrenApart(doc, rank, wider, n, i + 1)
  {
    hide Under, Linked, Ranked, Below, AllFrom, Apart;
    var children := doc[n].children;
    forall j, k | 0 <= j < k < i + 1 ensures Apart(doc, rank, wider, children[j], children[k]) {
      if k < i {
        StaysApart(doc, rank, order, wider, children[j], children[k]);
      } else {
        NewIsApart(doc, rank, order, next, wider, children[j], children[k]);
      }
    }
  }

  lemma VisitEnds(doc: Doc, rank: map<NodeId, nat>, n: NodeId, start: Order, first: nat, order: Order, next: nat)
    requires Linked(doc) && Ranked(doc, rank) && n in doc && Visiting(doc, rank, n, start, first, order, next, |doc[n].children|)
    ensures Visited(doc, rank, n, start, first, order, next)
  {
    var children := doc[n].children;
    assert children[..|children|] == children;
    assert Under(doc, rank, n, n);
    forall x ensures Under(doc, rank, n, x) <==> x == n || UnderSome(doc, rank, children, x) {
      if Under(doc, rank, n, x) && x != n { var i := UnderAChild(doc, rank, n, x); }
      if UnderSome(doc, rank, children, x) {
        var j :| 0 <= j < |children| && Under(doc, rank, children[j], x);
        ChildIsUnder(doc, rank, n, children[j], x);
      }
    }
    hide Under, Linked, Ranked, Below;
    forall x | UnderSome(doc, rank, children, x) ensures x in order && first <= order[x] && OrderedAt(doc, rank, order, x) {
      var j :| 0 <= j < |children| && Under(doc, rank, children[j], x);
      assert AllFrom(doc, rank, order, children[j], first) && OrderedUnder(doc, rank, order, children[j]);
    }
    hide UnderSome, ChildrenApart;
  }

  /** The inner `visit`: a node is given the next place, and then its children are visited. */
  method Visit(doc: Doc, ghost rank: map<NodeId, nat>, n: NodeId, start: Order, first: nat) returns (order: Order, next: nat)
    requires Linked(doc) && Ranked(doc, rank) && Below(doc, start, first)
    requires n in doc && n !in start ==> Fresh(doc, rank, start, n)
    ensures n !in doc || n in start ==> order == start && next == first
    ensures n in doc && n !in start ==> Visited(doc, rank, n, start, first, order, next)
    decreases doc.Keys - start.Keys
  {
    if n in start || n !in doc { return start, first; }
    VisitStarts(doc, rank, n, start, first);
    order, next := start[n := first], first + 1;
    var i := 0;
    hide Under, Linked, Ranked;
    while i < |doc[n].children|
      invariant 0 <= i <= |doc[n].children| && Visiting(doc, rank, n, start, first, order, next, i)
    {
      NextIsFresh(doc, rank, n, start, first, order, next, i);
      SelfUnder(doc, rank, doc[n].children[i]);
      ghost var before, place := order, next;
      order, next := Visit(doc, rank, doc[n].children[i], order, next);
      VisitGoesOn(doc, rank, n, start, first, before, place, i, order, next);
      i := i + 1;
    }
    VisitEnds(doc, rank, n, start, first, order, next);
  }

  lemma SelfUnder(doc: Doc, rank: map<NodeId, nat>, c: NodeId)
    requires Linked(doc) && Ranked(doc, rank) && c in doc
    ensures Under(doc, rank, c, c)
  {
  }

  // ----- The whole document -----

  predicate IsRoot(doc: Doc, r: NodeId) {
    r in doc && doc[r].parent.None?
  }

  /** Every node has its own place: before what is under it, children one after the other, and roots by their ids. */
  ghost predicate IsDocumentOrder(doc: Doc, rank: map<NodeId, nat>, order: Order)
    requires Linked(doc) && Ranked(doc, rank)
  {
    && order.Keys == doc.Keys && (forall x, y :: x in order && y in order && x != y ==> order[x] != order[y])
    && (forall p :: p in doc ==> OrderedAt(doc, rank, order, p))
    && (forall r, q :: IsRoot(doc, r) && IsRoot(doc, q) && r < q ==> Apart(doc, rank, order, r, q))
  }

  ghost predicate RootsVisited(doc: Doc, rank: map<NodeId, nat>, roots: seq<NodeId>, order: Order, next: nat)
    requires Linked(doc) && Ranked(doc, rank)
  {
    && Below(doc, order, next)
    && (forall x :: x in order <==> UnderSome(doc, rank, roots, x))
    && (forall i :: 0 <= i < |roots| ==> AllFrom(doc, rank, order, roots[i], 0) && OrderedUnder(doc, rank, order, roots[i]))
    && RootsApart(doc, rank, order, roots)
  }

  ghost predicate RootsApart(doc: Doc, rank: map<NodeId, nat>, order: Order, roots: seq<NodeId>)
    requires Linked(doc) && Ranked(doc, rank)
  {
    forall i, j :: 0 <= i < j < |roots| ==> Apart(doc, rank, order, roots[i], roots[j])
  }

  lemma NextRootIsFresh(doc: Doc, rank: map<NodeId, nat>, roots: seq<NodeId>, i: nat, order: Order, next: nat)
    requires Linked(doc) && Ranked(doc, rank) && i < |roots| && Distinct(roots) && forall r :: r in roots ==> IsRoot(doc, r)
    requires RootsVisited(doc, rank, roots[..i], order, next)
    ensures roots[i] in doc && Fresh(doc, rank, order, roots[i]) && roots[i] !in order
  {
    assert roots[i] in roots;
    SelfUnder(doc, rank, roots[i]);
    forall x | Under(doc, rank, roots[i], x) ensures x !in order {
      forall j | 0 <= j < i ensures !Under(doc, rank, roots[..i][j], x) {
        assert roots[j] in roots;
        if Under(doc, rank, roots[j], x) { ApartBelow(doc, rank, roots[i], roots[j], x); }
      }
    }
  }

  lemma RootsGoOn(doc: Doc, rank: map<NodeId, nat>, roots: seq<NodeId>, i: nat, order: Order, next: nat, wider: Order, last: nat)
    requires Linked(doc) && Ranked(doc, rank) && i < |roots| && RootsVisited(doc, rank, roots[..i], order, next)
    requires Visited(doc, rank, roots[i], order, next, wider, last)
    ensures RootsVisited(doc, rank, roots[..i + 1], wider, last)
  {
    hide Under, Linked, Ranked, Below, AllFrom, RootsApart;
    var before, after := roots[..i], roots[..i + 1];
    assert after == before + [roots[i]];
    forall x ensures x in wider <==> UnderSome(doc, rank, after, x) { MoreUnder(doc, rank, roots, i, x); }
    forall j | 0 <= j < i ensures AllFrom(doc, rank, wider, before[j], 0) && OrderedUnder(doc, rank, wider, before[j]) {
      StaysOrderedUnder(doc, rank, order, wider, before[j]);
      StaysFrom(doc, rank, order, wider, before[j], 0);
    }
    hide OrderedUnder, UnderSome;
    FromEarlier(doc, rank, wider, roots[i], 0, next);
    MoreRootsApart(doc, rank, before, roots[i], order, next, wider);
  }

  lemma MoreRootsApart(doc: Doc, rank: map<NodeId, nat>, roots: seq<NodeId>, r: NodeId, order: Order, next: nat, wider: Order)
    requires Linked(doc) && Ranked(doc, rank) && RootsApart(doc, rank, order, roots) && Below(doc, order, next) && Extends(order, wider)
    requires (forall i :: 0 <= i < |roots| ==> AllFrom(doc, rank, order, roots[i], 0)) && AllFrom(doc, rank, wider, r, next)
    ensures RootsApart(doc, rank, wider, roots + [r])
  {
    hide Under, Linked, Ranked, Below, AllFrom, Apart;
    var after := roots + [r];
    forall j, k | 0 <= j < k < |after| ensures Apart(doc, rank, wider, after[j], after[k]) {
      assert after[j] == roots[j];
      if k < |roots| {
        assert after[k] == roots[k];
        StaysApart(doc, rank, order, wider, roots[j], roots[k]);
      } else {
        NewIsApart(doc, rank, order, next, wider, roots[j], r);
      }
    }
  }

  lemma RootsAreAll(doc: Doc, rank: map<NodeId, nat>, roots: seq<NodeId>, order: Order, next: nat)
    requires Linked(doc) && Ranked(doc, rank) && RootsVisited(doc, rank, roots, order, next)
    requires IsSortedList(roots, set r | r in doc && IsRoot(doc, r))
    ensures IsDocumentOrder(doc, rank, order)
  {
    hide Under, Linked, Ranked, OrderedAt, Apart, AllFrom;
    forall x | x in doc ensures x in order && OrderedAt(doc, rank, order, x) {
      var r := UnderARoot(doc, rank, x);
      var i := RootAt(doc, roots, r);
      assert UnderSome(doc, rank, roots, x) && OrderedUnder(doc, rank, order, roots[i]);
    }
    hide UnderSome, OrderedUnder;
    forall r, q | IsRoot(doc, r) && IsRoot(doc, q) && r < q ensures Apart(doc, rank, order, r, q) {
      var i := RootAt(doc, roots, r);
      var j := RootAt(doc, roots, q);
      assert i < j;
    }
    assert order.Keys == doc.Keys;
  }

  lemma RootAt(doc: Doc, roots: seq<NodeId>, r: NodeId) returns (i: nat)
    requires IsSortedList(roots, set q | q in doc && IsRoot(doc, q)) && IsRoot(doc, r)
    ensures i < |roots| && roots[i] == r
    ensures forall j :: 0 <= j < |roots| && roots[j] < r ==> j < i
    ensures forall j :: 0 <= j < |roots| && r < roots[j] ==> i < j
  {
    assert r in roots;
    i :| 0 <= i < |roots| && roots[i] == r;
  }

  /** The places that `orderNodeIdsByDocumentPosition` gives to the nodes. */
  method Places(doc: Doc) returns (order: Order, ghost rank: map<NodeId, nat>)
    requires Forest(doc)
    ensures Linked(doc) && Ranked(doc, rank) && IsDocumentOrder(doc, rank, order)
  {
    rank :| Ranked(doc, rank);
    var roots := Sort(set r | r in doc && IsRoot(doc, r));
    var next, i := 0, 0;
    order := map[];
    assert Distinct(roots);
    hide Under, Linked, Ranked;
    while i < |roots|
      invariant 0 <= i <= |roots| && RootsVisited(doc, rank, roots[..i], order, next)
    {
      NextRootIsFresh(doc, rank, roots, i, order, next);
      ghost var before, place := order, next;
      order, next := Visit(doc, rank, roots[i], order, next);
      RootsGoOn(doc, rank, roots, i, before, place, order, next);
      i := i + 1;
    }
    assert roots[..i] == roots;
    RootsAreAll(doc, rank, roots, order, next);
  }

  /** Earlier siblings come earlier. */
  lemma SiblingsInOrder(doc: Doc, rank: map<NodeId, nat>, order: Order, p: NodeId, i: nat, j: nat)
    requires Linked(doc) && Ranked(doc, rank) && IsDocumentOrder(doc, rank, order) && p in doc && i < j < |doc[p].children|
    ensures Later(order, doc[p].children[i], doc[p].children[j]) && doc[p].children[i] in order && doc[p].children[j] in order
  {
    var c, d := doc[p].children[i], doc[p].children[j];
    assert c in doc[p].children && d in doc[p].children;
    SelfUnder(doc, rank, c);
    SelfUnder(doc, rank, d);
    hide Under, Linked, Ranked;
    assert OrderedAt(doc, rank, order, p);
    assert Apart(doc, rank, order, c, d);
  }

  // ----- Sorting by place -----

  /** `y` has its place after `x`; ids without a place come last. */
  predicate Later(order: Order, x: NodeId, y: NodeId) {
    x in order && (y !in order || order[x] < order[y])
  }

  function InsertedByPlace(order: Order, s: seq<NodeId>, x: NodeId): seq<NodeId> {
    if s == [] || !Later(order, x, s[|s| - 1]) then s + [x]
    else InsertedByPlace(order, s[..|s| - 1], x) + [s[|s| - 1]]
  }

  /** The stable sort by place. */
  function SortedByPlace(order: Order, ids: seq<NodeId>): seq<NodeId> {
    if ids == [] then [] else InsertedByPlace(order, SortedByPlace(order, ids[..|ids| - 1]), ids[|ids| - 1])
  }

  ghost predicate IsSortedByPlace(order: Order, s: seq<NodeId>) {
    forall i, j :: 0 <= i < j < |s| ==> !Later(order, s[j], s[i])
  }

  lemma {:induction false} InsertedKeeps(order: Order, s: seq<NodeId>, x: NodeId)
    ensures forall y :: y in InsertedByPlace(order, s, x) <==> y == x || y in s
    ensures Distinct(s) && x !in s ==> Distinct(InsertedByPlace(order, s, x))
    ensures IsSortedByPlace(order, s) ==> IsSortedByPlace(order, InsertedByPlace(order, s, x))
    decreases |s|
  {
    if s != [] && Later(order, x, s[|s| - 1]) {
      var front, last := s[..|s| - 1], s[|s| - 1];
      assert s == front + [last];
      InsertedKeeps(order, front, x);
      var done := InsertedByPlace(order, front, x);
      assert InsertedByPlace(order, s, x) == done + [last];
      hide InsertedByPlace;
      if Distinct(s) && x !in s {
        assert Distinct(front) && last !in front && last in s;
        assert Distinct(done) && last !in done;
      }
      forall i | 0 <= i < |done| && IsSortedByPlace(order, s) ensures !Later(order, last, done[i]) {
        assert done[i] in done;
        if done[i] != x {
          var j :| 0 <= j < |front| && front[j] == done[i];
          assert s[j] == front[j] && s[|s| - 1] == last;
        }
      }
      if IsSortedByPlace(order, s) {
        forall i, j | 0 <= i < j < |front| ensures !Later(order, front[j], front[i]) { assert front[i] == s[i] && front[j] == s[j]; }
      }
    } else {
      assert InsertedByPlace(order, s, x) == s + [x];
      assert Distinct(s) && x !in s ==> Distinct(s + [x]);
      if IsSortedByPlace(order, s) {
        forall i | 0 <= i < |s| ensures !Later(order, x, s[i]) {
          assert i < |s| - 1 ==> !Later(order, s[|s| - 1], s[i]);
        }
      }
    }
  }

  lemma {:induction false} SortedKeeps(order: Order, ids: seq<NodeId>)
    ensures forall y :: y in SortedByPlace(order, ids) <==> y in ids
    ensures Distinct(ids) ==> Distinct(SortedByPlace(order, ids))
    ensures IsSortedByPlace(order, SortedByPlace(order, ids))
    decreases |ids|
  {
    if ids != [] {
      var front, last := ids[..|ids| - 1], ids[|ids| - 1];
      assert ids == front + [last];
      SortedKeeps(order, front);
      InsertedKeeps(order, SortedByPlace(order, front), last);
    }
  }

  /** What is sorted stays as it is. */
  lemma {:induction false} SortedIsKept(order: Order, ids: seq<NodeId>)
    requires IsSortedByPlace(order, ids)
    ensures SortedByPlace(order, ids) == ids
    decreases |ids|
  {
    if ids != [] {
      var front, last := ids[..|ids| - 1], ids[|ids| - 1];
      assert ids == front + [last];
      forall i, j | 0 <= i < j < |front| ensures !Later(order, front[j], front[i]) { assert front[i] == ids[i] && front[j] == ids[j]; }
      SortedIsKept(order, front);
      if front != [] { assert front[|front| - 1] == ids[|ids| - 2]; }
    }
  }

  lemma SortedAndPlaced(doc: Doc, rank: map<NodeId, nat>, order: Order, s: seq<NodeId>, i: nat, j: nat)
    requires Linked(doc) && Ranked(doc, rank) && IsDocumentOrder(doc, rank, order)
    requires IsSortedByPlace(order, s) && Distinct(s) && i < j < |s| && s[i] in doc && s[j] in doc
    ensures Later(order, s[i], s[j])
  {
    hide OrderedAt, Apart, Linked, Ranked;
  }

  /** Two lists of the same placed nodes, each in order of place, are the same list. */
  lemma {:induction false} OneOrder(order: Order, s: seq<NodeId>, t: seq<NodeId>)
    requires (forall i, j :: 0 <= i < j < |s| ==> Later(order, s[i], s[j])) && (forall i, j :: 0 <= i < j < |t| ==> Later(order, t[i], t[j]))
    requires (forall x :: x in s <==> x in t) && forall x :: x in s ==> x in order
    ensures s == t
    decreases |s|
  {
    if s == [] {
      if t != [] {
        HasMember(t);
        assert false;
      }
    } else {
      assert s[0] in s && s[0] in t;
      assert t != [] && t[0] in t && t[0] in s;
      assert s[0] == t[0];
      forall x ensures x in s[1..] <==> x in t[1..] {
        if x in s[1..] { RestOf(order, s, x); }
        if x in t[1..] { RestOf(order, t, x); }
        assert x in s <==> x == s[0] || x in s[1..];
        assert x in t <==> x == t[0] || x in t[1..];
      }
      assert forall i :: 0 <= i < |s| - 1 ==> s[1..][i] == s[i + 1];
      assert forall i :: 0 <= i < |t| - 1 ==> t[1..][i] == t[i + 1];
      OneOrder(order, s[1..], t[1..]);
    }
  }

  lemma RestOf(order: Order, s: seq<NodeId>, x: NodeId)
    requires s != [] && x in s[1..] && (forall i, j :: 0 <= i < j < |s| ==> Later(order, s[i], s[j])) && forall y :: y in s ==> y in order
    ensures x != s[0]
  {
    var i :| 0 <= i < |s| - 1 && s[1..][i] == x;
    assert s[i + 1] in s && s[0] in s && Later(order, s[0], s[i + 1]);
  }
}
