/** Indenting selected nodes under their nearest unselected sibling, and outdenting them again. */
module IndentOutdent {
  import opened Collections
  import opened Outline
  import opened LoroDocument
  import opened Siblings
  import DocumentOrder
  import ReferenceCycle

  // ----- Where a node is indented to -----

  /** The nearest of the children before place `i` that is not selected. */
  function NearestBefore(s: seq<NodeId>, i: nat, batch: set<NodeId>): Option<NodeId>
    requires i <= |s|
  {
    if i == 0 then None
    else if s[i - 1] !in batch then Some(s[i - 1])
    else NearestBefore(s, i - 1, batch)
  }

  ghost function Place(s: seq<NodeId>, x: NodeId): (i: nat)
    requires x in s
    ensures i < |s| && s[i] == x
  {
    var i: nat :| i < |s| && s[i] == x;
    i
  }

  ghost function TargetOf(doc: Doc, n: NodeId, batch: set<NodeId>): Option<NodeId>
    requires Linked(doc)
  {
    if n in doc && doc[n].parent.Some? then
      assert ListedByParent(doc, n);
      NearestBefore(doc[doc[n].parent.value].children, Place(doc[doc[n].parent.value].children, n), batch)
    else None
  }

  /** `batchIndentTargetParentId`: climbs along the previous siblings. */
  method IndentTarget(doc: Doc, nodeId: NodeId, batch: set<NodeId>) returns (target: Option<NodeId>)
    requires Linked(doc)
    ensures target == TargetOf(doc, nodeId, batch)
  {
    if nodeId !in doc || doc[nodeId].parent.None? { return None; }
    assert ListedByParent(doc, nodeId);
    ghost var children := doc[doc[nodeId].parent.value].children;
    ghost var start := Place(children, nodeId);
    ghost var place: nat := start;
    assert Distinct(children);
    var current := nodeId;
    while true
      invariant current in doc && doc[current].parent == doc[nodeId].parent
      invariant place < |children| && children[place] == current
      invariant NearestBefore(children, place, batch) == NearestBefore(children, start, batch)
      decreases place
    {
      var siblings := doc[doc[current].parent.value].children;
      var index := IndexOf(siblings, current);
      assert index == place;
      if index <= 0 { return None; }
      var previous := siblings[index - 1];
      assert previous in siblings;
      if previous !in batch { return Some(previous); }
      current, place := previous, place - 1;
    }
  }

  // ----- Moves one after the other -----

  type Move = (NodeId, NodeId)

  predicate CanApply(doc: Doc, move: Move) {
    move.0 in doc && move.1 in doc && move.0 != move.1
  }

  /** Each node goes to the end of its target's children. */
  function Indented(doc: Doc, moves: seq<Move>): Doc {
    if moves == [] then doc
    else
      var before, move := Indented(doc, moves[..|moves| - 1]), moves[|moves| - 1];
      if CanApply(before, move) then Moved(before, move.0, move.1, None) else before
  }

  /** The nodes that were moved under `n`, in the order of the moves. */
  function MovedUnder(moves: seq<Move>, n: NodeId): seq<NodeId> {
    if moves == [] then []
    else MovedUnder(moves[..|moves| - 1], n) + if moves[|moves| - 1].1 == n then [moves[|moves| - 1].0] else []
  }

  function MovedIds(moves: seq<Move>): set<NodeId> {
    set m | m in moves :: m.0
  }

  /** What a batch asks for: each node once, from its place to an earlier sibling that stays. */
  ghost predicate IsBatch(doc: Doc, moves: seq<Move>) {
    && (forall i, j :: 0 <= i < j < |moves| ==> moves[i].0 != moves[j].0)
    && (forall m :: m in moves ==> m.0 in doc && doc[m.0].parent.Some? && m.1 in doc && doc[m.1].parent == doc[m.0].parent)
    && (forall m :: m in moves ==> m.1 !in MovedIds(moves))
  }

  /** The whole effect at once: the moved nodes leave their lists and follow, in order, behind the children of their targets. */
  ghost predicate HasIndented(doc: Doc, after: Doc, moves: seq<Move>) {
    && after.Keys == doc.Keys
    && (forall n :: n in doc ==> after[n].children == Without(doc[n].children, MovedIds(moves)) + MovedUnder(moves, n))
    && (forall n :: n in doc && n !in MovedIds(moves) ==> after[n].(children := doc[n].children) == doc[n])
    && (forall m :: m in moves ==> m.0 in doc && after[m.0].(children := doc[m.0].children) == doc[m.0].(parent := Some(m.1)))
  }

  lemma {:induction false} InMovedUnder(moves: seq<Move>, n: NodeId)
    ensures forall x :: x in MovedUnder(moves, n) ==> x in MovedIds(moves) && exists m :: m in moves && m == (x, n)
  {
    if moves != [] {
      var last := moves[|moves| - 1];
      InMovedUnder(moves[..|moves| - 1], n);
      assert moves == moves[..|moves| - 1] + [last];
      forall x | x in MovedUnder(moves, n) ensures (x, n) in moves {
        if x !in MovedUnder(moves[..|moves| - 1], n) { assert x == last.0; }
      }
      forall x | (x, n) in moves ensures x in MovedIds(moves) { assert (x, n).0 == x; }
    }
  }

  lemma IdsOfAppend(first: seq<Move>, last: Move)
    ensures MovedIds(first + [last]) == MovedIds(first) + {last.0}
  {
    forall x ensures x in MovedIds(first + [last]) <==> x in MovedIds(first) + {last.0} {
      assert forall m :: m in first + [last] <==> m in first || m == last;
    }
  }

  lemma LastMove(doc: Doc, moves: seq<Move>)
    requires IsBatch(doc, moves) && moves != []
    ensures var first, last := moves[..|moves| - 1], moves[|moves| - 1];
      && IsBatch(doc, first) && MovedIds(moves) == MovedIds(first) + {last.0} && last.0 !in MovedIds(first)
      && last.0 in doc && last.1 in doc && last.0 != last.1 && last.1 !in MovedIds(moves)
      && (forall m :: m in moves <==> m in first || m == last)
  {
    var first, last := moves[..|moves| - 1], moves[|moves| - 1];
    assert moves == first + [last];
    IdsOfAppend(first, last);
    forall m | m in first ensures m.0 != last.0 {
      var i :| 0 <= i < |first| && first[i] == m;
      assert moves[i] == m;
    }
    hide MovedIds;
    assert last in moves && forall m :: m in moves <==> m in first || m == last;
    FirstIsBatch(doc, first, last);
    NotMovedTwice(first, last);
  }

  lemma NotMovedTwice(first: seq<Move>, last: Move)
    requires forall m :: m in first ==> m.0 != last.0
    ensures last.0 !in MovedIds(first)
  {
  }

  lemma FirstIsBatch(doc: Doc, first: seq<Move>, last: Move)
    requires IsBatch(doc, first + [last])
    ensures IsBatch(doc, first)
  {
    var moves := first + [last];
    IdsOfAppend(first, last);
    hide MovedIds;
    assert forall i :: 0 <= i < |first| ==> moves[i] == first[i];
    forall m | m in first ensures m in moves {}
  }

  /** One move to the end of the target's children. */
  lemma MovedToEnd(doc: Doc, id: NodeId, t: NodeId)
    requires id in doc && t in doc && id != t
    ensures var after := Moved(doc, id, t, None);
      && after.Keys == doc.Keys && after[id] == doc[id].(parent := Some(t))
      && after[t] == doc[t].(children := Without(doc[t].children, {id}) + [id])
      && forall n :: n in doc && n != id && n != t ==> after[n] == doc[n].(children := Without(doc[n].children, {id}))
  {
    var list := Without(doc[t].children, {id});
    ShortList(doc[t].children, {id});
    assert list[..|list|] == list && list[|list|..] == [];
  }

  lemma {:induction false} ShortList(s: seq<NodeId>, gone: set<NodeId>)
    ensures |Without(s, gone)| <= |s|
  {
    if s != [] { ShortList(s[1..], gone); }
  }

  lemma {:induction false} IndentsAll(doc: Doc, moves: seq<Move>)
    requires Forest(doc) && IsBatch(doc, moves)
    ensures HasIndented(doc, Indented(doc, moves), moves)
  {
    if moves == [] {
      forall n | n in doc ensures Without(doc[n].children, MovedIds(moves)) + MovedUnder(moves, n) == doc[n].children {
        assert MovedIds(moves) == {};
        WithoutNone(doc[n].children, {});
      }
    } else {
      var first, last := moves[..|moves| - 1], moves[|moves| - 1];
      LastMove(doc, moves);
      IndentsAll(doc, first);
      OneMoreIndented(doc, Indented(doc, first), moves);
    }
  }

  /** What a further move makes of a list that already lost and gained some nodes. */
  lemma ListAfter(s: seq<NodeId>, first: seq<Move>, last: Move, n: NodeId)
    requires last.0 !in MovedIds(first)
    ensures Without(Without(s, MovedIds(first)) + MovedUnder(first, n), {last.0})
      == Without(s, MovedIds(first) + {last.0}) + MovedUnder(first, n)
  {
    WithoutAppend(Without(s, MovedIds(first)), MovedUnder(first, n), {last.0});
    WithoutTwice(s, MovedIds(first), {last.0});
    InMovedUnder(first, n);
    WithoutNone(MovedUnder(first, n), {last.0});
  }

  lemma OwnListAfter(doc: Doc, first: seq<Move>, last: Move)
    requires Forest(doc) && last.0 in doc
    ensures Without(doc[last.0].children, MovedIds(first) + {last.0}) == Without(doc[last.0].children, MovedIds(first))
  {
    forall c | c in doc[last.0].children ensures c != last.0 { NotUnderItself(doc, c, last.0); }
    WithoutSame(doc[last.0].children, MovedIds(first) + {last.0}, MovedIds(first));
  }

  lemma UnderAfter(first: seq<Move>, last: Move, n: NodeId)
    ensures MovedUnder(first + [last], n) == MovedUnder(first, n) + if last.1 == n then [last.0] else []
  {
    assert (first + [last])[..|first|] == first;
  }

  lemma OneListIndented(doc: Doc, before: Doc, first: seq<Move>, last: Move, n: NodeId)
    requires Forest(doc) && HasIndented(doc, before, first) && n in doc && last.0 in doc && last.1 in doc && last.0 != last.1
    requires last.0 !in MovedIds(first)
    ensures Moved(before, last.0, last.1, None)[n].children
      == Without(doc[n].children, MovedIds(first) + {last.0}) + MovedUnder(first + [last], n)
  {
    assert before[n].children == Without(doc[n].children, MovedIds(first)) + MovedUnder(first, n);
    MovedToEnd(before, last.0, last.1);
    ListAfter(doc[n].children, first, last, n);
    UnderAfter(first, last, n);
    Regroup(Without(doc[n].children, MovedIds(first) + {last.0}), MovedUnder(first, n), last.0);
    if n == last.0 {
      OwnListAfter(doc, first, last);
      assert MovedUnder(first, n) + [] == MovedUnder(first, n);
    }
    hide *;
  }

  lemma OneMoreIndented(doc: Doc, before: Doc, moves: seq<Move>)
    requires Forest(doc) && IsBatch(doc, moves) && moves != [] && HasIndented(doc, before, moves[..|moves| - 1])
    ensures CanApply(before, moves[|moves| - 1])
    ensures HasIndented(doc, Moved(before, moves[|moves| - 1].0, moves[|moves| - 1].1, None), moves)
  {
    hide *;
    var first, last := moves[..|moves| - 1], moves[|moves| - 1];
    LastMove(doc, moves);
    assert moves == first + [last];
    SameKeys(doc, before, first);
    Applies(before, last);
    MovedToEnd(before, last.0, last.1);
    var after := Moved(before, last.0, last.1, None);
    forall n | n in doc ensures after[n].children == Without(doc[n].children, MovedIds(moves)) + MovedUnder(moves, n) {
      OneListIndented(doc, before, first, last, n);
    }
    SameData(doc, before, after, moves, first, last);
  }

  lemma SameKeys(doc: Doc, after: Doc, moves: seq<Move>)
    requires HasIndented(doc, after, moves)
    ensures after.Keys == doc.Keys
  {
  }

  lemma Applies(doc: Doc, move: Move)
    ensures CanApply(doc, move) <==> move.0 in doc && move.1 in doc && move.0 != move.1
  {
  }

  lemma Regroup(a: seq<NodeId>, b: seq<NodeId>, x: NodeId)
    ensures a + b + [x] == a + (b + [x]) && a + (b + []) == a + b
  {
    assert b + [] == b;
  }

  lemma SameData(doc: Doc, before: Doc, after: Doc, moves: seq<Move>, first: seq<Move>, last: Move)
    requires HasIndented(doc, before, first) && after.Keys == doc.Keys && last.0 in doc && last.0 !in MovedIds(first)
    requires MovedIds(moves) == MovedIds(first) + {last.0} && forall m :: m in moves <==> m in first || m == last
    requires after[last.0] == before[last.0].(parent := Some(last.1))
    requires forall n :: n in doc && n != last.0 ==> after[n] == before[n].(children := after[n].children)
    requires forall n :: n in doc ==> after[n].children == Without(doc[n].children, MovedIds(moves)) + MovedUnder(moves, n)
    ensures HasIndented(doc, after, moves)
  {
    forall m | m in first ensures m.0 in MovedIds(first) {}
    hide MovedUnder, Without, MovedIds;
  }

  // ----- The forest stays a forest -----

  lemma SiblingsAreNotAbove(doc: Doc, rank: map<NodeId, nat>, x: NodeId, t: NodeId)
    requires Linked(doc) && Ranked(doc, rank) && x in doc && t in doc && x != t
    requires doc[x].parent.Some? && doc[t].parent == doc[x].parent
    ensures !Above(doc, rank, x, t)
  {
    assert BelowParent(doc, rank, x) && BelowParent(doc, rank, t) && ListedByParent(doc, x) && ListedByParent(doc, t);
    if Above(doc, rank, x, doc[t].parent.value) { AboveIsHigher(doc, rank, x, doc[t].parent.value); }
  }

  lemma ParentsKept(doc: Doc, after: Doc, first: seq<Move>, moves: seq<Move>, last: Move)
    requires HasIndented(doc, after, first) && IsBatch(doc, moves) && moves == first + [last]
    ensures last.0 in after && last.1 in after && last.0 != last.1
    ensures after[last.0].parent == doc[last.0].parent && after[last.1].parent == doc[last.1].parent
    ensures doc[last.0].parent.Some? && doc[last.1].parent == doc[last.0].parent
  {
    assert moves[..|moves| - 1] == first;
    LastMove(doc, moves);
    hide MovedUnder, Without, MovedIds;
    assert last in moves;
  }

  lemma MoveToSibling(doc: Doc, x: NodeId, t: NodeId)
    requires Forest(doc) && x in doc && t in doc && x != t && doc[x].parent.Some? && doc[t].parent == doc[x].parent
    ensures Forest(Moved(doc, x, t, None))
  {
    var rank :| Ranked(doc, rank);
    SiblingsAreNotAbove(doc, rank, x, t);
    hide Ranked, Linked, Above;
    MoveKeeps(doc, x, t, None, rank);
  }

  lemma IndentedStep(doc: Doc, first: seq<Move>, last: Move)
    ensures Indented(doc, first + [last]) ==
      if CanApply(Indented(doc, first), last) then Moved(Indented(doc, first), last.0, last.1, None) else Indented(doc, first)
  {
    assert (first + [last])[..|first|] == first;
  }

  /** No move is refused: a sibling never lies under the node that goes to it. */
  lemma {:induction false} IndentKeepsForest(doc: Doc, moves: seq<Move>)
    requires Forest(doc) && IsBatch(doc, moves)
    ensures Forest(Indented(doc, moves))
  {
    if moves == [] {
      assert Indented(doc, moves) == doc;
    } else {
      hide *;
      var first, last := moves[..|moves| - 1], moves[|moves| - 1];
      assert moves == first + [last];
      FirstIsBatch(doc, first, last);
      IndentKeepsForest(doc, first);
      IndentsAll(doc, first);
      IndentedStep(doc, first, last);
      NextKeepsForest(doc, Indented(doc, first), first, last);
    }
  }

  lemma NextKeepsForest(doc: Doc, before: Doc, first: seq<Move>, last: Move)
    requires Forest(before) && HasIndented(doc, before, first) && IsBatch(doc, first + [last])
    ensures CanApply(before, last) && Forest(Moved(before, last.0, last.1, None))
  {
    hide *;
    ParentsKept(doc, before, first, first + [last], last);
    Applies(before, last);
    MoveToSibling(before, last.0, last.1);
  }

  // ----- Outdenting -----

  function FirstPlace(s: seq<NodeId>, x: NodeId): nat {
    if s == [] || s[0] == x then 0 else 1 + FirstPlace(s[1..], x)
  }

  predicate CanOutdent(doc: Doc, x: NodeId) {
    && x in doc && doc[x].parent.Some? && doc[x].parent.value in doc
    && doc[doc[x].parent.value].parent.Some? && doc[doc[x].parent.value].parent.value in doc
    && x != doc[doc[x].parent.value].parent.value
  }

  /** The node goes to its grandparent, right behind its parent. */
  function OutdentedOne(doc: Doc, x: NodeId): Doc {
    if CanOutdent(doc, x) then
      var parent := doc[x].parent.value;
      var grandparent := doc[parent].parent.value;
      Moved(doc, x, grandparent, Some(FirstPlace(doc[grandparent].children, parent) + 1))
    else doc
  }

  /** From the last node to the first. */
  function Outdented(doc: Doc, ids: seq<NodeId>): Doc {
    if ids == [] then doc else Outdented(OutdentedOne(doc, ids[|ids| - 1]), ids[..|ids| - 1])
  }

  lemma {:induction false} PlaceAfter(a: seq<NodeId>, t: NodeId, b: seq<NodeId>)
    requires t !in a
    ensures FirstPlace(a + [t] + b, t) == |a|
  {
    if a == [] {
      assert (a + [t] + b)[0] == t;
    } else {
      PlaceAfter(a[1..], t, b);
      assert (a + [t] + b)[0] == a[0] && a[0] in a && (a + [t] + b)[1..] == a[1..] + [t] + b;
    }
  }

  /** Indenting a node under the sibling right before it, and outdenting it, puts it back. */
  lemma OneThereAndBack(doc: Doc, p: NodeId, a: seq<NodeId>, t: NodeId, x: NodeId, b: seq<NodeId>)
    requires Forest(doc) && p in doc && doc[p].children == a + [t] + [x] + b
    ensures CanApply(doc, (x, t)) && OutdentedOne(Moved(doc, x, t, None), x) == doc
  {
    ThereAndBackFacts(doc, p, a, t, x, b);
    var there := Moved(doc, x, t, None);
    MovedToEnd(doc, x, t);
    TakenOut(a + [t], x, b);
    PlaceAfter(a, t, b);
    WithoutNone(doc[t].children, {x});
    hide Forest;
    assert there[p].children == a + [t] + b && there[t].children == doc[t].children + [x];
    BackAgain(doc, there, p, a, t, x, b);
  }

  lemma ThereAndBackFacts(doc: Doc, p: NodeId, a: seq<NodeId>, t: NodeId, x: NodeId, b: seq<NodeId>)
    requires Forest(doc) && p in doc && doc[p].children == a + [t] + [x] + b
    ensures x in doc && t in doc && x != t && x != p && t != p && doc[x].parent == Some(p) && doc[t].parent == Some(p)
    ensures x !in a && x !in b && t !in a
    ensures forall n :: n in doc && n != p ==> x !in doc[n].children
  {
    var s := doc[p].children;
    assert s[|a|] == t && s[|a| + 1] == x && t in s && x in s;
    NotUnderItself(doc, x, p);
    NotUnderItself(doc, t, p);
    assert Distinct(s);
    assert forall i :: 0 <= i < |a| ==> s[i] == a[i];
    assert forall i :: 0 <= i < |b| ==> s[|a| + 2 + i] == b[i];
  }

  lemma BackAgain(doc: Doc, there: Doc, p: NodeId, a: seq<NodeId>, t: NodeId, x: NodeId, b: seq<NodeId>)
    requires p in doc && x in doc && t in doc && x != t && x != p && t != p && there.Keys == doc.Keys
    requires doc[x].parent == Some(p) && doc[t].parent == Some(p) && doc[p].children == a + [t] + [x] + b
    requires there[x] == doc[x].(parent := Some(t)) && there[t] == doc[t].(children := doc[t].children + [x])
    requires there[p] == doc[p].(children := a + [t] + b) && FirstPlace(a + [t] + b, t) == |a|
    requires forall n :: n in doc && n != x && n != t && n != p ==> there[n] == doc[n].(children := Without(doc[n].children, {x}))
    requires forall n :: n in doc && n != p ==> x !in doc[n].children
    requires x !in a && x !in b
    ensures OutdentedOne(there, x) == doc
  {
    hide *;
    ListsBack(a, t, x, b, doc[t].children);
    forall n | n in doc && n != p ensures Without(doc[n].children, {x}) == doc[n].children { WithoutNone(doc[n].children, {x}); }
    BackInPlace(doc, there, p, t, x, |a| + 1);
  }

  lemma ListsBack(a: seq<NodeId>, t: NodeId, x: NodeId, b: seq<NodeId>, under: seq<NodeId>)
    requires x != t && x !in a && x !in b && x !in under
    ensures var list := a + [t] + b;
      && Without(list, {x}) == list && |a| + 1 <= |list| && Inserted(list, |a| + 1, x) == a + [t] + [x] + b
    ensures Without(under + [x], {x}) == under
  {
    var list := a + [t] + b;
    WithoutNone(list, {x});
    TakenOut(under, x, []);
    hide Without;
    assert list[..|a| + 1] == a + [t] && list[|a| + 1..] == b;
    assert under + [x] + [] == under + [x] && under + [] == under;
  }

  lemma BackInPlace(doc: Doc, there: Doc, p: NodeId, t: NodeId, x: NodeId, at: nat)
    requires p in doc && x in doc && t in doc && x != t && x != p && t != p && there.Keys == doc.Keys
    requires there[x] == doc[x].(parent := Some(t)) && doc[x].parent == Some(p) && there[t].parent == Some(p)
    requires there[t] == doc[t].(children := there[t].children) && Without(there[t].children, {x}) == doc[t].children
    requires there[p] == doc[p].(children := there[p].children) && FirstPlace(there[p].children, t) + 1 == at
    requires at <= |there[p].children| && Without(there[p].children, {x}) == there[p].children
    requires Inserted(there[p].children, at, x) == doc[p].children
    requires forall n :: n in doc && n != x && n != t && n != p ==> there[n] == doc[n] && Without(doc[n].children, {x}) == doc[n].children
    ensures OutdentedOne(there, x) == doc
  {
    hide Without, Inserted, FirstPlace;
    var back := Moved(there, x, p, Some(at));
    assert OutdentedOne(there, x) == back;
    hide OutdentedOne;
    assert back[p].children == doc[p].children;
    assert back[t].children == doc[t].children;
    assert back[x] == doc[x];
    forall n | n in doc && n != x && n != t && n != p ensures back[n] == doc[n] {}
  }

  // ----- There and back for a whole selection -----

  /** The selected children of `p`, in their order; the first child is not selected. */
  ghost predicate IsSelection(doc: Doc, p: NodeId, ids: seq<NodeId>) {
    && p in doc && (forall x :: x in ids ==> x in doc[p].children)
    && (doc[p].children == [] || doc[p].children[0] !in ids)
    && forall i, j {:trigger ids[i], ids[j]} :: 0 <= i < j < |ids| ==> Before(doc[p].children, ids[i], ids[j])
  }

  ghost predicate Before(s: seq<NodeId>, x: NodeId, y: NodeId) {
    exists i, j :: 0 <= i < j < |s| && s[i] == x && s[j] == y
  }

  /** What the batch indent plans for such a selection. */
  ghost predicate IsPlan(doc: Doc, ids: seq<NodeId>, moves: seq<Move>, batch: set<NodeId>)
    requires Linked(doc)
  {
    |moves| == |ids| && forall i :: 0 <= i < |ids| ==> moves[i].0 == ids[i] && TargetOf(doc, ids[i], batch) == Some(moves[i].1)
  }

  /** The nearest unselected child before a place, and only selected ones in between. */
  lemma {:induction false} NearestIs(s: seq<NodeId>, i: nat, batch: set<NodeId>) returns (j: nat)
    requires i <= |s| && NearestBefore(s, i, batch).Some?
    ensures j < i && s[j] !in batch && NearestBefore(s, i, batch) == Some(s[j])
    ensures forall k :: j < k < i ==> s[k] in batch
  {
    if s[i - 1] !in batch {
      j := i - 1;
    } else {
      j := NearestIs(s, i - 1, batch);
    }
  }

  lemma {:induction false} NearestExists(s: seq<NodeId>, i: nat, batch: set<NodeId>)
    requires 0 < i <= |s| && s[0] !in batch
    ensures NearestBefore(s, i, batch).Some?
  {
    if i > 1 { NearestExists(s, i - 1, batch); }
  }

  /** Once the selected children before `x` are gone, its target stands right before it. */
  lemma TargetRightBefore(s: seq<NodeId>, i: nat, batch: set<NodeId>, gone: set<NodeId>)
    returns (a: seq<NodeId>, b: seq<NodeId>)
    requires Distinct(s) && i < |s| && s[i] !in gone && gone <= batch && NearestBefore(s, i, batch).Some?
    requires forall k :: 0 <= k < i && s[k] in batch ==> s[k] in gone
    ensures Without(s, gone) == a + [NearestBefore(s, i, batch).value] + [s[i]] + b
  {
    var j := NearestIs(s, i, batch);
    var t := s[j];
    a, b := Without(s[..j], gone), Without(s[i + 1..], gone);
    assert s == s[..j] + [t] + s[j + 1..i] + ([s[i]] + s[i + 1..]);
    WithoutAppend(s[..j] + [t] + s[j + 1..i], [s[i]] + s[i + 1..], gone);
    WithoutAppend(s[..j] + [t], s[j + 1..i], gone);
    WithoutAppend(s[..j], [t], gone);
    WithoutAppend([s[i]], s[i + 1..], gone);
    forall x | x in s[j + 1..i] ensures x in gone {
      var k :| 0 <= k < i - j - 1 && s[j + 1..i][k] == x;
      assert s[j + 1 + k] in batch;
    }
    AllGone(s[j + 1..i], gone);
    WithoutNone([t], gone);
    WithoutNone([s[i]], gone);
    hide Without, NearestBefore;
    Glue(a, [t], [s[i]], b);
  }

  lemma Glue(a: seq<NodeId>, t: seq<NodeId>, x: seq<NodeId>, b: seq<NodeId>)
    ensures a + t + [] + (x + b) == a + t + x + b
  {
    assert a + t + [] == a + t;
  }

  lemma {:induction false} AllGone(s: seq<NodeId>, gone: set<NodeId>)
    requires forall x :: x in s ==> x in gone
    ensures Without(s, gone) == []
  {
    if s != [] {
      assert s[0] in s && forall x :: x in s[1..] ==> x in s;
      AllGone(s[1..], gone);
    }
  }

  /** The target of a selected child: an unselected child of the same parent, before it. */
  lemma SelectedTarget(doc: Doc, p: NodeId, ids: seq<NodeId>, moves: seq<Move>, i: nat)
    requires Linked(doc) && IsSelection(doc, p, ids) && IsPlan(doc, ids, moves, Members(ids)) && i < |ids|
    ensures var s, x := doc[p].children, ids[i];
      && x in s && doc[x].parent == Some(p) && moves[i].0 == x
      && NearestBefore(s, Place(s, x), Members(ids)) == Some(moves[i].1)
      && moves[i].1 in s && moves[i].1 !in ids && moves[i].1 in doc && doc[moves[i].1].parent == Some(p)
  {
    var s, x := doc[p].children, ids[i];
    assert x in ids;
    assert TargetOf(doc, x, Members(ids)) == Some(moves[i].1);
    var j := NearestIs(s, Place(s, x), Members(ids));
    assert s[j] in s;
  }

  lemma SelectionIsBatch(doc: Doc, p: NodeId, ids: seq<NodeId>, moves: seq<Move>)
    requires Linked(doc) && IsSelection(doc, p, ids) && IsPlan(doc, ids, moves, Members(ids))
    ensures IsBatch(doc, moves) && MovedIds(moves) == Members(ids)
  {
    forall i, j | 0 <= i < j < |moves| ensures moves[i].0 != moves[j].0 { assert Before(doc[p].children, ids[i], ids[j]); }
    forall x | x in Members(ids) ensures x in MovedIds(moves) {
      var i :| 0 <= i < |ids| && ids[i] == x;
      assert moves[i] in moves;
    }
    forall m | m in moves
      ensures m.0 in ids && m.0 in doc && doc[m.0].parent.Some? && m.1 in doc && doc[m.1].parent == doc[m.0].parent && m.1 !in ids
    {
      var i :| 0 <= i < |moves| && moves[i] == m;
      SelectedTarget(doc, p, ids, moves, i);
    }
  }

  lemma {:induction false} NoneUnder(moves: seq<Move>, n: NodeId)
    requires forall m :: m in moves ==> m.1 != n
    ensures MovedUnder(moves, n) == []
  {
    if moves != [] {
      var first, last := moves[..|moves| - 1], moves[|moves| - 1];
      assert last in moves && forall m :: m in first ==> m in moves;
      NoneUnder(first, n);
    }
  }

  lemma PlanPrefix(doc: Doc, p: NodeId, ids: seq<NodeId>, moves: seq<Move>, k: nat)
    requires Forest(doc) && IsSelection(doc, p, ids) && IsPlan(doc, ids, moves, Members(ids)) && k <= |ids|
    ensures IsSelection(doc, p, ids[..k]) && IsBatch(doc, moves[..k])
    ensures forall x :: x in MovedIds(moves[..k]) <==> x in ids[..k]
  {
    SelectionIsBatch(doc, p, ids, moves);
    BatchPrefix(doc, moves, k);
    forall x | x in ids[..k] ensures x in MovedIds(moves[..k]) {
      var i :| 0 <= i < k && ids[i] == x;
      assert moves[..k][i] in moves[..k];
    }
    forall x | x in MovedIds(moves[..k]) ensures x in ids[..k] {
      var m :| m in moves[..k] && m.0 == x;
      var i :| 0 <= i < k && moves[i] == m;
      assert ids[..k][i] == x;
    }
    forall i, j {:trigger ids[..k][i], ids[..k][j]} | 0 <= i < j < k ensures Before(doc[p].children, ids[..k][i], ids[..k][j]) {
      assert Before(doc[p].children, ids[i], ids[j]);
    }
  }

  lemma {:induction false} BatchPrefix(doc: Doc, moves: seq<Move>, k: nat)
    requires IsBatch(doc, moves) && k <= |moves|
    ensures IsBatch(doc, moves[..k])
    decreases |moves| - k
  {
    if k < |moves| {
      BatchPrefix(doc, moves, k + 1);
      assert moves[..k + 1] == moves[..k] + [moves[k]];
      FirstIsBatch(doc, moves[..k], moves[k]);
    } else {
      assert moves[..k] == moves;
    }
  }

  /** When the first `k` are indented, the next one still stands in the list of `p`, right behind its target. */
  lemma NextInList(doc: Doc, p: NodeId, ids: seq<NodeId>, moves: seq<Move>, k: nat) returns (a: seq<NodeId>, b: seq<NodeId>)
    requires Forest(doc) && IsSelection(doc, p, ids) && IsPlan(doc, ids, moves, Members(ids)) && k < |ids|
    ensures var now := Indented(doc, moves[..k]);
      p in now && now[p].children == a + [moves[k].1] + [ids[k]] + b
  {
    var s, x, gone := doc[p].children, ids[k], MovedIds(moves[..k]);
    PlanPrefix(doc, p, ids, moves, k);
    IndentsAll(doc, moves[..k]);
    SelectedTarget(doc, p, ids, moves, k);
    var i := Place(s, x);
    EarlierAreGone(doc, p, ids, k, i);
    hide Indented, MovedIds;
    a, b := TargetRightBefore(s, i, Members(ids), gone);
    TargetsAreNotParent(doc, p, ids, moves, k);
    NoneUnder(moves[..k], p);
    assert a + [moves[k].1] + [x] + b + [] == a + [moves[k].1] + [x] + b;
  }

  lemma TargetsAreNotParent(doc: Doc, p: NodeId, ids: seq<NodeId>, moves: seq<Move>, k: nat)
    requires Forest(doc) && IsSelection(doc, p, ids) && IsPlan(doc, ids, moves, Members(ids)) && k <= |ids|
    ensures forall m :: m in moves[..k] ==> m.1 != p
  {
    forall m | m in moves[..k] ensures m.1 != p {
      var i :| 0 <= i < k && moves[i] == m;
      SelectedTarget(doc, p, ids, moves, i);
      NotUnderItself(doc, m.1, p);
    }
  }

  lemma EarlierAreGone(doc: Doc, p: NodeId, ids: seq<NodeId>, k: nat, i: nat)
    requires Linked(doc) && IsSelection(doc, p, ids) && k < |ids| && i < |doc[p].children| && doc[p].children[i] == ids[k]
    ensures ids[k] !in ids[..k]
    ensures forall l :: 0 <= l < i && doc[p].children[l] in ids ==> doc[p].children[l] in ids[..k]
  {
    var s := doc[p].children;
    assert Distinct(s);
    forall j | 0 <= j < k ensures ids[j] != ids[k] { assert Before(s, ids[j], ids[k]); }
    forall l | 0 <= l < i && s[l] in ids ensures s[l] in ids[..k] {
      var j :| 0 <= j < |ids| && ids[j] == s[l];
      assert j > k ==> Before(s, ids[k], ids[j]);
      assert j < k;
      assert ids[..k][j] == s[l];
    }
  }

  lemma OneStepBack(doc: Doc, p: NodeId, ids: seq<NodeId>, moves: seq<Move>, k: nat)
    requires Forest(doc) && IsSelection(doc, p, ids) && IsPlan(doc, ids, moves, Members(ids)) && k < |ids|
    ensures k < |moves| && OutdentedOne(Indented(doc, moves[..k + 1]), ids[k]) == Indented(doc, moves[..k])
  {
    hide *;
    PlanHas(doc, ids, moves, k);
    var a, b := NextInList(doc, p, ids, moves, k);
    PlanPrefix(doc, p, ids, moves, k);
    IndentKeepsForest(doc, moves[..k]);
    assert moves[..k + 1] == moves[..k] + [moves[k]];
    IndentedStep(doc, moves[..k], moves[k]);
    OneThereAndBack(Indented(doc, moves[..k]), p, a, moves[k].1, ids[k], b);
  }

  lemma OutdentedStep(doc: Doc, ids: seq<NodeId>, x: NodeId)
    ensures Outdented(doc, ids + [x]) == Outdented(OutdentedOne(doc, x), ids)
  {
    assert (ids + [x])[..|ids|] == ids;
  }

  /** Outdenting an indented selection of siblings gives back the document exactly. */
  lemma {:induction false} IndentThenOutdent(doc: Doc, p: NodeId, ids: seq<NodeId>, moves: seq<Move>, k: nat)
    requires Forest(doc) && IsSelection(doc, p, ids) && IsPlan(doc, ids, moves, Members(ids)) && k <= |ids|
    ensures k <= |moves| && Outdented(Indented(doc, moves[..k]), ids[..k]) == doc
  {
    hide *;
    if k == 0 {
      NothingMoved(doc);
      assert ids[..0] == [];
      if ids != [] { PlanHas(doc, ids, moves, 0); }
    } else {
      OneStepBack(doc, p, ids, moves, k - 1);
      IndentThenOutdent(doc, p, ids, moves, k - 1);
      assert ids[..k] == ids[..k - 1] + [ids[k - 1]];
      OutdentedStep(Indented(doc, moves[..k]), ids[..k - 1], ids[k - 1]);
    }
  }

  lemma NothingMoved(doc: Doc)
    ensures Indented(doc, []) == doc && Outdented(doc, []) == doc
  {
  }

  lemma PlanHas(doc: Doc, ids: seq<NodeId>, moves: seq<Move>, i: nat)
    requires Forest(doc) && IsPlan(doc, ids, moves, Members(ids)) && i < |ids|
    ensures |moves| == |ids| && moves[i] == (ids[i], moves[i].1)
  {
  }

  // ----- The commands -----

  /** The moves a batch plans from the document as it is at the start. */
  ghost function PlannedMoves(doc: Doc, ids: seq<NodeId>, batch: set<NodeId>): seq<Move>
    requires Linked(doc)
  {
    if ids == [] then []
    else
      var id := ids[|ids| - 1];
      PlannedMoves(doc, ids[..|ids| - 1], batch) + match TargetOf(doc, id, batch) case Some(t) => [(id, t)] case None => []
  }

  lemma PlannedStep(doc: Doc, ids: seq<NodeId>, id: NodeId, batch: set<NodeId>)
    requires Linked(doc)
    ensures PlannedMoves(doc, ids + [id], batch) ==
      PlannedMoves(doc, ids, batch) + match TargetOf(doc, id, batch) case Some(t) => [(id, t)] case None => []
  {
    assert (ids + [id])[..|ids|] == ids;
  }

  lemma {:induction false} PlannedHolds(doc: Doc, ids: seq<NodeId>, batch: set<NodeId>)
    requires Linked(doc)
    ensures forall m :: m in PlannedMoves(doc, ids, batch) ==> m.0 in ids && TargetOf(doc, m.0, batch) == Some(m.1)
    ensures Distinct(ids) ==> var moves := PlannedMoves(doc, ids, batch);
      forall i, j :: 0 <= i < j < |moves| ==> moves[i].0 != moves[j].0
  {
    if ids != [] {
      var first, id := ids[..|ids| - 1], ids[|ids| - 1];
      assert ids == first + [id];
      PlannedHolds(doc, first, batch);
      PlannedStep(doc, first, id, batch);
      hide TargetOf, Linked;
      var moves := PlannedMoves(doc, first, batch);
      forall i | 0 <= i < |moves| ensures moves[i].0 in first { assert moves[i] in moves; }
      assert Distinct(ids) ==> Distinct(first) && id !in first;
    }
  }

  lemma TargetIsSibling(doc: Doc, n: NodeId, batch: set<NodeId>)
    requires Linked(doc) && TargetOf(doc, n, batch).Some?
    ensures n in doc && doc[n].parent.Some?
    ensures var t := TargetOf(doc, n, batch).value;
      t in doc && doc[t].parent == doc[n].parent && t !in batch
  {
    assert ListedByParent(doc, n);
    var s := doc[doc[n].parent.value].children;
    var j := NearestIs(s, Place(s, n), batch);
    assert s[j] in s;
  }

  lemma PlannedIsBatch(doc: Doc, ids: seq<NodeId>)
    requires Linked(doc) && Distinct(ids)
    ensures IsBatch(doc, PlannedMoves(doc, ids, Members(ids)))
  {
    var moves := PlannedMoves(doc, ids, Members(ids));
    PlannedHolds(doc, ids, Members(ids));
    hide PlannedMoves, TargetOf;
    forall m | m in moves ensures m.0 in doc && doc[m.0].parent.Some? && m.1 in doc && doc[m.1].parent == doc[m.0].parent && m.1 !in ids {
      TargetIsSibling(doc, m.0, Members(ids));
    }
    forall x | x in MovedIds(moves) ensures x in ids {
      var m :| m in moves && m.0 == x;
    }
  }

  /** For a selection of siblings without the first child the plan moves every selected node. */
  lemma {:induction false} PlannedIsPlan(doc: Doc, p: NodeId, ids: seq<NodeId>, k: nat)
    requires Forest(doc) && IsSelection(doc, p, ids) && k <= |ids|
    ensures IsPlan(doc, ids[..k], PlannedMoves(doc, ids[..k], Members(ids)), Members(ids))
  {
    hide IsSelection, IsPlan, PlannedMoves, TargetOf, Linked, Ranked;
    if k == 0 {
      NothingPlanned(doc, Members(ids));
      assert ids[..0] == [];
    } else {
      PlannedIsPlan(doc, p, ids, k - 1);
      assert ids[..k] == ids[..k - 1] + [ids[k - 1]];
      PlannedStep(doc, ids[..k - 1], ids[k - 1], Members(ids));
      SelectedHasTarget(doc, p, ids, k - 1);
      OneMorePlanned(doc, ids[..k - 1], PlannedMoves(doc, ids[..k - 1], Members(ids)), ids[k - 1], Members(ids));
    }
  }

  lemma NothingPlanned(doc: Doc, batch: set<NodeId>)
    requires Forest(doc)
    ensures IsPlan(doc, [], PlannedMoves(doc, [], batch), batch)
  {
  }

  lemma SelectedHasTarget(doc: Doc, p: NodeId, ids: seq<NodeId>, k: nat)
    requires Forest(doc) && IsSelection(doc, p, ids) && k < |ids|
    ensures TargetOf(doc, ids[k], Members(ids)).Some?
  {
    var s, x := doc[p].children, ids[k];
    assert x in ids && x in s && doc[x].parent == Some(p);
    NearestExists(s, Place(s, x), Members(ids));
  }

  lemma OneMorePlanned(doc: Doc, ids: seq<NodeId>, moves: seq<Move>, x: NodeId, batch: set<NodeId>)
    requires Forest(doc) && IsPlan(doc, ids, moves, batch) && TargetOf(doc, x, batch).Some?
    ensures IsPlan(doc, ids + [x], moves + [(x, TargetOf(doc, x, batch).value)], batch)
  {
    hide TargetOf, Ranked;
  }

  /** The ids in document order. */
  ghost predicate IsOrdered(doc: Doc, nodeIds: seq<NodeId>, ids: seq<NodeId>) {
    exists rank, order {:trigger DocumentOrder.IsDocumentOrder(doc, rank, order)} ::
      Linked(doc) && Ranked(doc, rank) && DocumentOrder.IsDocumentOrder(doc, rank, order) && ids == DocumentOrder.SortedByPlace(order, nodeIds)
  }

  lemma SelectionIsOrdered(doc: Doc, p: NodeId, ids: seq<NodeId>, sorted: seq<NodeId>)
    requires Forest(doc) && IsSelection(doc, p, ids) && IsOrdered(doc, ids, sorted)
    ensures sorted == ids
  {
    var rank, order :| Ranked(doc, rank) && DocumentOrder.IsDocumentOrder(doc, rank, order) && sorted == DocumentOrder.SortedByPlace(order, ids);
    var s := doc[p].children;
    hide DocumentOrder.SortedByPlace, DocumentOrder.IsDocumentOrder;
    forall i, j | 0 <= i < j < |ids| ensures !DocumentOrder.Later(order, ids[j], ids[i]) {
      assert Before(s, ids[i], ids[j]);
      var k, l :| 0 <= k < l < |s| && s[k] == ids[i] && s[l] == ids[j];
      DocumentOrder.SiblingsInOrder(doc, rank, order, p, k, l);
    }
    DocumentOrder.SortedIsKept(order, ids);
  }

  /** Batch indent, then batch outdent of the same selection of siblings: nothing has changed. */
  lemma BatchThereAndBack(doc: Doc, p: NodeId, ids: seq<NodeId>, sorted: seq<NodeId>)
    requires Forest(doc) && IsSelection(doc, p, ids) && IsOrdered(doc, ids, sorted)
    ensures Outdented(Indented(doc, PlannedMoves(doc, sorted, Members(ids))), ids) == doc
  {
    SelectionIsOrdered(doc, p, ids, sorted);
    hide Indented, Outdented, IsSelection, PlannedMoves, IsPlan, Ranked, IsOrdered;
    var moves := PlannedMoves(doc, ids, Members(ids));
    PlannedIsPlan(doc, p, ids, |ids|);
    assert ids[..|ids|] == ids;
    IndentThenOutdent(doc, p, ids, moves, |ids|);
    SameLength(doc, ids, moves);
    assert moves[..|ids|] == moves;
  }

  lemma SameLength(doc: Doc, ids: seq<NodeId>, moves: seq<Move>)
    requires Forest(doc) && IsPlan(doc, ids, moves, Members(ids))
    ensures |moves| == |ids|
  {
  }

  // ----- The result without the order of the ids -----

  /** The selected children from place `i` on, up to the first that is not selected. */
  function RunFrom(s: seq<NodeId>, i: nat, sel: set<NodeId>): seq<NodeId>
    requires i <= |s|
    decreases |s| - i
  {
    if i == |s| || s[i] !in sel then [] else [s[i]] + RunFrom(s, i + 1, sel)
  }

  /** The run of selected siblings right behind a node that is not selected. */
  ghost function RunBehind(doc: Doc, t: NodeId, sel: set<NodeId>): seq<NodeId>
    requires Linked(doc) && t in doc
  {
    if t in sel || doc[t].parent.None? then []
    else
      assert ListedByParent(doc, t);
      var s := doc[doc[t].parent.value].children;
      RunFrom(s, Place(s, t) + 1, sel)
  }

  /** The selected nodes that have somewhere to go. */
  ghost function Leaving(doc: Doc, sel: set<NodeId>): set<NodeId>
    requires Linked(doc)
  {
    set n | n in sel && TargetOf(doc, n, sel).Some?
  }

  /** Each run of selected siblings has gone, in its order, behind the children of the sibling before it. */
  ghost predicate InRuns(doc: Doc, after: Doc, sel: set<NodeId>)
    requires Linked(doc)
  {
    && after.Keys == doc.Keys
    && (forall n :: n in doc ==> after[n].children == Without(doc[n].children, Leaving(doc, sel)) + RunBehind(doc, n, sel))
    && (forall n :: n in doc && n in Leaving(doc, sel) ==> after[n].(children := doc[n].children) == doc[n].(parent := TargetOf(doc, n, sel)))
    && (forall n :: n in doc && n !in Leaving(doc, sel) ==> after[n].(children := doc[n].children) == doc[n])
  }

  lemma {:induction false} RunIsSlice(s: seq<NodeId>, i: nat, sel: set<NodeId>) returns (m: nat)
    requires i <= |s|
    ensures i <= m <= |s| && RunFrom(s, i, sel) == s[i..m] && (m == |s| || s[m] !in sel)
    ensures forall k :: i <= k < m ==> s[k] in sel
    decreases |s| - i
  {
    m := i;
    if i < |s| && s[i] in sel {
      m := RunIsSlice(s, i + 1, sel);
      assert s[i..m] == [s[i]] + s[i + 1..m];
    }
  }

  lemma {:induction false} NearestAcross(s: seq<NodeId>, j: nat, i: nat, sel: set<NodeId>)
    requires j < i <= |s| && s[j] !in sel && forall k :: j < k < i ==> s[k] in sel
    ensures NearestBefore(s, i, sel) == Some(s[j])
  {
    if i - 1 > j { NearestAcross(s, j, i - 1, sel); }
  }

  lemma NearestIsRun(s: seq<NodeId>, j: nat, i: nat, sel: set<NodeId>)
    requires Distinct(s) && j < |s| && i < |s| && s[j] !in sel && s[i] in sel
    ensures NearestBefore(s, i, sel) == Some(s[j]) <==> s[i] in RunFrom(s, j + 1, sel)
  {
    var m := RunIsSlice(s, j + 1, sel);
    hide RunFrom;
    if NearestBefore(s, i, sel) == Some(s[j]) {
      var k := NearestIs(s, i, sel);
      assert k == j && i < m && s[j + 1..m][i - j - 1] == s[i];
    }
    if s[i] in s[j + 1..m] {
      var k :| 0 <= k < m - j - 1 && s[j + 1..m][k] == s[i];
      assert i == j + 1 + k;
      NearestAcross(s, j, i, sel);
    }
  }

  lemma RunIsInList(s: seq<NodeId>, i: nat, sel: set<NodeId>, x: NodeId)
    requires i <= |s| && x in RunFrom(s, i, sel)
    ensures x in s
  {
    var m := RunIsSlice(s, i, sel);
  }

  /** A selected node goes to `t` exactly when it stands in the run behind `t`. */
  lemma GoesToRun(doc: Doc, x: NodeId, t: NodeId, sel: set<NodeId>)
    requires Linked(doc) && t in doc && x in sel
    ensures TargetOf(doc, x, sel) == Some(t) <==> x in RunBehind(doc, t, sel)
  {
    if TargetOf(doc, x, sel) == Some(t) { TargetIsSibling(doc, x, sel); }
    if t !in sel && doc[t].parent.Some? {
      assert ListedByParent(doc, t);
      var s := doc[doc[t].parent.value].children;
      if x in RunBehind(doc, t, sel) { RunIsInList(s, Place(s, t) + 1, sel, x); }
      if x in s {
        assert x in doc && doc[x].parent == doc[t].parent;
        hide NearestBefore, RunFrom;
        NearestIsRun(s, Place(s, t), Place(s, x), sel);
      }
    }
  }

  /** The nodes that are moved under `t` are those whose target it is, in the order of the ids. */
  lemma {:induction false} MovedUnderHolds(doc: Doc, rank: map<NodeId, nat>, order: DocumentOrder.Order, ids: seq<NodeId>, sel: set<NodeId>, t: NodeId)
    requires Linked(doc) && Ranked(doc, rank) && DocumentOrder.IsDocumentOrder(doc, rank, order)
    requires Distinct(ids) && DocumentOrder.IsSortedByPlace(order, ids)
    ensures var under := MovedUnder(PlannedMoves(doc, ids, sel), t);
      && (forall x :: x in under <==> x in ids && TargetOf(doc, x, sel) == Some(t))
      && forall i, j :: 0 <= i < j < |under| ==> DocumentOrder.Later(order, under[i], under[j])
  {
    if ids != [] {
      var first, id := ids[..|ids| - 1], ids[|ids| - 1];
      assert ids == first + [id] && id !in first;
      forall i, j | 0 <= i < j < |first| ensures !DocumentOrder.Later(order, first[j], first[i]) {
        assert first[i] == ids[i] && first[j] == ids[j];
      }
      hide TargetOf, Linked, Ranked, DocumentOrder.IsDocumentOrder, DocumentOrder.Later, PlannedMoves, MovedUnder;
      MovedUnderHolds(doc, rank, order, first, sel, t);
      PlannedStep(doc, first, id, sel);
      var moves, under := PlannedMoves(doc, first, sel), MovedUnder(PlannedMoves(doc, first, sel), t);
      forall x | x in under && TargetOf(doc, id, sel) == Some(t) ensures DocumentOrder.Later(order, x, id) {
        var i :| 0 <= i < |first| && first[i] == x;
        SelectedLater(doc, rank, order, ids, sel, i, |ids| - 1);
      }
      match TargetOf(doc, id, sel)
      case Some(u) =>
        UnderAfter(moves, (id, u), t);
      case None =>
        assert moves + [] == moves;
    }
  }

  lemma SelectedLater(doc: Doc, rank: map<NodeId, nat>, order: DocumentOrder.Order, ids: seq<NodeId>, sel: set<NodeId>, i: nat, j: nat)
    requires Linked(doc) && Ranked(doc, rank) && DocumentOrder.IsDocumentOrder(doc, rank, order)
    requires Distinct(ids) && DocumentOrder.IsSortedByPlace(order, ids) && i < j < |ids|
    requires TargetOf(doc, ids[i], sel).Some? && TargetOf(doc, ids[j], sel).Some?
    ensures DocumentOrder.Later(order, ids[i], ids[j])
  {
    TargetIsSibling(doc, ids[i], sel);
    TargetIsSibling(doc, ids[j], sel);
    hide TargetOf, Linked;
    DocumentOrder.SortedAndPlaced(doc, rank, order, ids, i, j);
  }

  lemma RunIsPart(doc: Doc, t: NodeId, sel: set<NodeId>) returns (p: NodeId, k: nat, m: nat)
    requires Linked(doc) && t in doc && t !in sel && doc[t].parent.Some?
    ensures p in doc && k <= m <= |doc[p].children| && RunBehind(doc, t, sel) == doc[p].children[k..m]
    ensures forall i :: k <= i < m ==> doc[p].children[i] in doc && doc[p].children[i] in sel
  {
    assert ListedByParent(doc, t);
    p := doc[t].parent.value;
    k := Place(doc[p].children, t) + 1;
    m := RunIsSlice(doc[p].children, k, sel);
    forall i | k <= i < m ensures doc[p].children[i] in doc { assert doc[p].children[i] in doc[p].children; }
  }

  /** The children of a run stand in document order. */
  lemma RunIsOrdered(doc: Doc, rank: map<NodeId, nat>, order: DocumentOrder.Order, t: NodeId, sel: set<NodeId>)
    requires Linked(doc) && Ranked(doc, rank) && DocumentOrder.IsDocumentOrder(doc, rank, order) && t in doc
    ensures var run := RunBehind(doc, t, sel);
      && (forall x :: x in run ==> x in doc && x in sel)
      && forall i, j :: 0 <= i < j < |run| ==> DocumentOrder.Later(order, run[i], run[j])
  {
    if t !in sel && doc[t].parent.Some? {
      var p, k, m := RunIsPart(doc, t, sel);
      hide RunBehind, Linked, Ranked, DocumentOrder.IsDocumentOrder, DocumentOrder.Later;
      PartInOrder(doc, rank, order, p, k, m);
    }
  }

  lemma PartInOrder(doc: Doc, rank: map<NodeId, nat>, order: DocumentOrder.Order, p: NodeId, k: nat, m: nat)
    requires Linked(doc) && Ranked(doc, rank) && DocumentOrder.IsDocumentOrder(doc, rank, order)
    requires p in doc && k <= m <= |doc[p].children|
    ensures var run := doc[p].children[k..m];
      forall i, j :: 0 <= i < j < |run| ==> DocumentOrder.Later(order, run[i], run[j])
  {
    hide *;
    var run := doc[p].children[k..m];
    forall i, j | 0 <= i < j < |run| ensures DocumentOrder.Later(order, run[i], run[j]) {
      DocumentOrder.SiblingsInOrder(doc, rank, order, p, k + i, k + j);
    }
  }

  lemma RunIsMoved(doc: Doc, rank: map<NodeId, nat>, order: DocumentOrder.Order, ids: seq<NodeId>, t: NodeId)
    requires Linked(doc) && Ranked(doc, rank) && DocumentOrder.IsDocumentOrder(doc, rank, order) && t in doc
    requires Distinct(ids) && DocumentOrder.IsSortedByPlace(order, ids)
    ensures MovedUnder(PlannedMoves(doc, ids, Members(ids)), t) == RunBehind(doc, t, Members(ids))
  {
    var sel := Members(ids);
    MovedUnderHolds(doc, rank, order, ids, sel, t);
    RunIsOrdered(doc, rank, order, t, sel);
    var under, run := MovedUnder(PlannedMoves(doc, ids, sel), t), RunBehind(doc, t, sel);
    forall x ensures x in under <==> x in run {
      if x in sel { GoesToRun(doc, x, t, sel); }
    }
    assert order.Keys == doc.Keys;
    hide TargetOf, Linked, Ranked, DocumentOrder.IsDocumentOrder, DocumentOrder.Later, PlannedMoves, RunBehind, MovedUnder;
    DocumentOrder.OneOrder(order, under, run);
  }

  lemma LeavingAreMoved(doc: Doc, ids: seq<NodeId>)
    requires Linked(doc)
    ensures var moves := PlannedMoves(doc, ids, Members(ids));
      && (forall x :: x in MovedIds(moves) <==> x in Leaving(doc, Members(ids)))
      && forall m :: m in moves ==> TargetOf(doc, m.0, Members(ids)) == Some(m.1)
  {
    var sel := Members(ids);
    PlannedHolds(doc, ids, sel);
    var moves := PlannedMoves(doc, ids, sel);
    forall x | x in Leaving(doc, sel) ensures x in MovedIds(moves) { IsPlanned(doc, ids, sel, x); }
    forall x | x in MovedIds(moves) ensures x in Leaving(doc, sel) {
      var m :| m in moves && m.0 == x;
    }
  }

  lemma {:induction false} IsPlanned(doc: Doc, ids: seq<NodeId>, sel: set<NodeId>, x: NodeId)
    requires Linked(doc) && x in ids && TargetOf(doc, x, sel).Some?
    ensures x in MovedIds(PlannedMoves(doc, ids, sel))
  {
    var first, id := ids[..|ids| - 1], ids[|ids| - 1];
    assert ids == first + [id];
    PlannedStep(doc, first, id, sel);
    var moves := PlannedMoves(doc, ids, sel);
    if x == id {
      assert (id, TargetOf(doc, id, sel).value) in moves;
    } else {
      IsPlanned(doc, first, sel, x);
      var m :| m in PlannedMoves(doc, first, sel) && m.0 == x;
      assert m in moves;
    }
  }

  /** In whatever order the ids were given, the batch moves the runs. */
  lemma IndentedInRuns(doc: Doc, rank: map<NodeId, nat>, order: DocumentOrder.Order, nodeIds: seq<NodeId>, after: Doc)
    requires Linked(doc) && Ranked(doc, rank) && DocumentOrder.IsDocumentOrder(doc, rank, order) && Distinct(nodeIds)
    requires var ids := DocumentOrder.SortedByPlace(order, nodeIds);
      HasIndented(doc, after, PlannedMoves(doc, ids, Members(ids)))
    ensures InRuns(doc, after, Members(nodeIds))
  {
    var ids := DocumentOrder.SortedByPlace(order, nodeIds);
    DocumentOrder.SortedKeeps(order, nodeIds);
    assert Members(ids) == Members(nodeIds);
    var sel, moves := Members(ids), PlannedMoves(doc, ids, Members(ids));
    LeavingAreMoved(doc, ids);
    hide DocumentOrder.SortedByPlace, DocumentOrder.IsDocumentOrder, DocumentOrder.IsSortedByPlace, Linked, Ranked, PlannedMoves, TargetOf, RunBehind, MovedUnder, Leaving;
    forall n | n in doc ensures MovedUnder(moves, n) == RunBehind(doc, n, sel) { RunIsMoved(doc, rank, order, ids, n); }
    RunsFromMoves(doc, after, moves, sel);
  }

  lemma RunsFromMoves(doc: Doc, after: Doc, moves: seq<Move>, sel: set<NodeId>)
    requires Linked(doc) && HasIndented(doc, after, moves)
    requires forall x :: x in MovedIds(moves) <==> x in Leaving(doc, sel)
    requires forall m :: m in moves ==> TargetOf(doc, m.0, sel) == Some(m.1)
    requires forall n :: n in doc ==> MovedUnder(moves, n) == RunBehind(doc, n, sel)
    ensures InRuns(doc, after, sel)
  {
    hide Linked, TargetOf, RunBehind, MovedUnder, Leaving, Without;
    forall n | n in doc && n in Leaving(doc, sel)
      ensures after[n].(children := doc[n].children) == doc[n].(parent := TargetOf(doc, n, sel))
    {
      var m :| m in moves && m.0 == n;
    }
    assert MovedIds(moves) == Leaving(doc, sel);
  }

  function Movable(doc: Doc, n: NodeId): Result<bool> {
    if n !in doc then Err(NotFound(n))
    else if doc[n].locked || IsSystemId(n) || IsInternal(doc[n]) then Err(Locked(n))
    else Ok(true)
  }

  function Mutable(doc: Doc, p: NodeId): Result<bool> {
    if p !in doc then Err(NotFound(p)) else if IsInternal(doc[p]) then Err(InvalidOperation) else Ok(true)
  }

  /** The node that a child stands for. */
  ghost predicate StandsFor(doc: Doc, n: NodeId, t: NodeId)
    requires n in doc
  {
    if doc[n].kind.Reference? && doc[n].target.Some? then ReferenceCycle.Resolves(doc, doc[n].target.value, t) else n == t
  }

  /** What is asked before a node goes under a new parent. */
  ghost predicate MayGo(doc: Doc, n: NodeId, p: NodeId) {
    && Movable(doc, n).Ok? && Mutable(doc, p).Ok?
    && exists t :: StandsFor(doc, n, t) && ReferenceCycle.Takes(doc, p, t, Some(n))
  }

  // ----- What is refused, and why -----

  /** A reference whose chain of targets ends nowhere. */
  ghost predicate StandsForNothing(doc: Doc, n: NodeId) {
    n in doc && forall t :: !StandsFor(doc, n, t)
  }

  ghost predicate ShownTwice(doc: Doc, n: NodeId, p: NodeId) {
    n in doc && p in doc && exists t, c :: StandsFor(doc, n, t) && c in doc[p].children && c != n && ReferenceCycle.Shows(doc, c, t)
  }

  ghost predicate HasBrokenChild(doc: Doc, p: NodeId, n: NodeId) {
    p in doc && exists c :: c in doc[p].children && c != n && ReferenceCycle.Broken(doc, c)
  }

  /** The cause that an error of a move under `p` names, in the order in which causes are looked for. */
  ghost predicate HasCause(doc: Doc, n: NodeId, p: NodeId, error: Error) {
    if n !in doc then error == NotFound(n)
    else if IsPinned(doc, n) then error == Locked(n)
    else if p !in doc then error == NotFound(p)
    else if doc[p].kind.DefConfig? || doc[p].kind.SystemOption? then error == InvalidOperation
    else if StandsForNothing(doc, n) then ReferenceCycle.IsChainError(error)
    else
      || (error == DuplicateChild && ShownTwice(doc, n, p))
      || (ReferenceCycle.IsChainError(error) && HasBrokenChild(doc, p, n))
      || (error == InvalidOperation && !StaysATree(doc, n, p))
  }

  /** Only parents and lists of children differ; nothing pinned has moved, and nothing has moved under an internal node. */
  ghost predicate KeepsPlaces(before: Doc, after: Doc) {
    && after.Keys == before.Keys
    && forall n :: n in before ==> KeepsPlace(before, after, n)
  }

  ghost predicate KeepsPlace(before: Doc, after: Doc, n: NodeId) {
    && n in before && n in after && after[n] == before[n].(parent := after[n].parent, children := after[n].children)
    && (after[n].parent != before[n].parent ==>
          !IsPinned(before, n) && after[n].parent.Some? && after[n].parent.value in before && !IsInternalKind(before[after[n].parent.value].kind))
  }

  predicate IsInternalKind(kind: Kind) {
    kind.DefConfig? || kind.SystemOption?
  }

  lemma KeepsPlacesOn(a: Doc, b: Doc, c: Doc)
    requires KeepsPlaces(a, b) && KeepsPlaces(b, c)
    ensures KeepsPlaces(a, c)
  {
    forall n | n in a ensures KeepsPlace(a, c, n) {
      assert KeepsPlace(a, b, n) && KeepsPlace(b, c, n);
      if c[n].parent != b[n].parent { assert KeepsPlace(a, b, c[n].parent.value); }
    }
  }

  lemma KeepsAllPlaces(doc: Doc)
    ensures KeepsPlaces(doc, doc)
  {
  }

  lemma SameNodes(a: Doc, b: Doc)
    requires KeepsPlaces(a, b)
    ensures a.Keys == b.Keys
  {
  }

  lemma PinnedAlike(a: Doc, b: Doc, n: NodeId)
    requires KeepsPlaces(a, b)
    ensures IsPinned(a, n) <==> IsPinned(b, n)
  {
    assert n in a ==> KeepsPlace(a, b, n);
  }

  /** No pinned node has been moved, and one whose turn it is ends the batch. */
  ghost predicate StopsAtPinned(doc: Doc, moves: seq<Move>, done: nat, r: Result<bool>) {
    && done <= |moves| && (forall k :: 0 <= k < done ==> !IsPinned(doc, moves[k].0))
    && (done < |moves| && IsPinned(doc, moves[done].0) ==> r == Err(Locked(moves[done].0)))
  }

  lemma PlannedTargetsStand(doc: Doc, ids: seq<NodeId>, batch: set<NodeId>)
    requires Linked(doc)
    ensures var moves := PlannedMoves(doc, ids, batch); forall k :: 0 <= k < |moves| ==> moves[k].0 in doc && moves[k].1 in doc
  {
    PlannedHolds(doc, ids, batch);
    hide PlannedMoves, TargetOf, Linked;
    var moves := PlannedMoves(doc, ids, batch);
    forall k | 0 <= k < |moves| ensures moves[k].0 in doc && moves[k].1 in doc {
      assert moves[k] in moves;
      TargetIsSibling(doc, moves[k].0, batch);
    }
  }

  /** A move that is not refused takes nothing pinned away. */
  lemma MayGoKeepsPlaces(doc: Doc, n: NodeId, p: NodeId, index: Option<int>)
    requires n in doc && p in doc && n != p && MayGo(doc, n, p)
    ensures KeepsPlaces(doc, Moved(doc, n, p, index))
  {
    forall x | x in doc ensures KeepsPlace(doc, Moved(doc, n, p, index), x) {}
  }

  method CheckMove(doc: Doc, n: NodeId, p: NodeId) returns (r: Result<NodeId>)
    requires n in doc
    ensures r.Ok? <==> MayGo(doc, n, p)
    ensures r.Err? ==> HasCause(doc, n, p, r.error)
    ensures IsPinned(doc, n) ==> r == Err(Locked(n))
  {
    if Movable(doc, n).Err? { return Err(Movable(doc, n).error); }
    if Mutable(doc, p).Err? { return Err(Mutable(doc, p).error); }
    var shown := Ok(n);
    if doc[n].kind.Reference? && doc[n].target.Some? {
      shown := ReferenceCycle.ResolveReferenceTarget(doc, doc[n].target.value);
      if shown.Err? {
        forall t ensures !StandsFor(doc, n, t) {
          if StandsFor(doc, n, t) { ReferenceCycle.EndsDiffer(doc, doc[n].target.value, t); }
        }
        return shown;
      }
      forall t | StandsFor(doc, n, t) ensures t == shown.value {
        ReferenceCycle.OneEnd(doc, doc[n].target.value, t, shown.value);
      }
    }
    assert StandsFor(doc, n, shown.value);
    r := ReferenceCycle.CanContain(doc, p, shown.value, Some(n));
  }

  lemma GoingHasNoCause(doc: Doc, n: NodeId, p: NodeId)
    requires n in doc && p in doc && MayGo(doc, n, p)
    ensures !StaysATree(doc, n, p) ==> HasCause(doc, n, p, InvalidOperation)
  {
  }

  /** Nothing comes to lie under itself. */
  ghost predicate StaysATree(doc: Doc, n: NodeId, p: NodeId)
    requires n in doc && p in doc
  {
    n != p && forall rank :: Linked(doc) && Ranked(doc, rank) ==> !Above(doc, rank, n, p)
  }

  /** The move is skipped or may go ahead. */
  ghost predicate Proceeds(doc: Doc, move: Move) {
    move.0 in doc && move.1 in doc ==> MayGo(doc, move.0, move.1) && StaysATree(doc, move.0, move.1)
  }

  ghost predicate GoesOut(doc: Doc, n: NodeId) {
    n in doc ==>
      && Movable(doc, n).Ok?
      && (doc[n].parent.Some? && doc[n].parent.value in doc && doc[doc[n].parent.value].parent.Some? ==>
        var grandparent := doc[doc[n].parent.value].parent.value;
        MayGo(doc, n, grandparent) && (grandparent in doc ==> StaysATree(doc, n, grandparent)))
  }

  /** A move of a forest is refused exactly when something would come to lie under itself. */
  lemma RefusedMove(doc: Doc, n: NodeId, p: NodeId, ok: bool)
    requires Forest(doc) && n in doc && p in doc
    requires forall rank :: Ranked(doc, rank) ==> (ok <==> n != p && !Above(doc, rank, n, p))
    ensures ok <==> StaysATree(doc, n, p)
  {
    hide Ranked, Linked, Above;
    var rank :| Ranked(doc, rank);
  }

  /** The loop body of `batchIndentNodes`. */
  method IndentOne(loro: LoroDocument, id: NodeId, target: NodeId) returns (r: Result<bool>)
    requires loro.Valid() && Forest(loro.tree)
    modifies loro
    ensures loro.Valid() && Forest(loro.tree) && (r.Ok? <==> Proceeds(old(loro.tree), (id, target)))
    ensures KeepsPlaces(old(loro.tree), loro.tree)
    ensures r.Err? ==> id in old(loro.tree) && target in old(loro.tree) && HasCause(old(loro.tree), id, target, r.error)
    ensures target in old(loro.tree) && IsPinned(old(loro.tree), id) ==> r == Err(Locked(id))
    ensures loro.tree ==
      if r.Ok? && CanApply(old(loro.tree), (id, target)) then Moved(old(loro.tree), id, target, None) else old(loro.tree)
    ensures old(loro.touched) <= loro.touched && Covers(loro.touched, old(loro.tree), loro.tree)
  {
    hide Ranked, Linked, Above, MayGo, StaysATree, KeepsPlaces, StandsFor, ShownTwice, HasBrokenChild, StandsForNothing;
    ghost var doc := loro.tree;
    KeepsAllPlaces(doc);
    loro.Reconcile();
    r := Ok(true);
    if id in loro.cache && target in loro.cache {
      var checked := CheckMove(loro.cache, id, target);
      if checked.Err? { return Err(checked.error); }
      var moved := loro.MoveNode(id, target, None);
      RefusedMove(doc, id, target, moved.Ok?);
      GoingHasNoCause(doc, id, target);
      if moved.Err? { return Err(moved.error); }
      MayGoKeepsPlaces(doc, id, target, None);
    }
  }

  /** The loop of `batchIndentNodes` that moves: up to the first move that is refused. */
  method IndentInTurn(loro: LoroDocument, moves: seq<Move>) returns (r: Result<bool>, ghost done: nat)
    requires loro.Valid() && Forest(loro.tree)
    requires forall k :: 0 <= k < |moves| ==> moves[k].0 in loro.tree && moves[k].1 in loro.tree
    modifies loro
    ensures loro.Valid() && Forest(loro.tree) && done <= |moves|
    ensures loro.tree == Indented(old(loro.tree), moves[..done]) && (r.Ok? <==> done == |moves|)
    ensures forall k :: 0 <= k < done ==> Proceeds(Indented(old(loro.tree), moves[..k]), moves[k])
    ensures r.Err? ==> !Proceeds(Indented(old(loro.tree), moves[..done]), moves[done])
    ensures KeepsPlaces(old(loro.tree), loro.tree) && StopsAtPinned(old(loro.tree), moves, done, r)
    ensures r.Err? ==> moves[done].0 in loro.tree && moves[done].1 in loro.tree
    ensures r.Err? ==> HasCause(loro.tree, moves[done].0, moves[done].1, r.error)
    ensures old(loro.touched) <= loro.touched && Covers(loro.touched, old(loro.tree), loro.tree)
  {
    hide Ranked, Linked, Covers, Above, Proceeds, Indented, KeepsPlaces, HasCause, IsPinned;
    ghost var doc := loro.tree;
    KeepsAllPlaces(doc);
    StartsUnchanged(doc, moves, loro.touched);
    done := 0;
    var i := 0;
    while i < |moves|
      invariant 0 <= i <= |moves| && done == i && loro.Valid() && Forest(loro.tree)
      invariant loro.tree == Indented(doc, moves[..i])
      invariant forall k :: 0 <= k < i ==> Proceeds(Indented(doc, moves[..k]), moves[k])
      invariant KeepsPlaces(doc, loro.tree) && forall k :: 0 <= k < i ==> !IsPinned(doc, moves[k].0)
      invariant old(loro.touched) <= loro.touched && Covers(loro.touched, doc, loro.tree)
    {
      ghost var before, touched := loro.tree, loro.touched;
      assert moves[..i + 1] == moves[..i] + [moves[i]];
      IndentedStep(doc, moves[..i], moves[i]);
      PinnedAlike(doc, before, moves[i].0);
      SameNodes(doc, before);
      var moved := IndentOne(loro, moves[i].0, moves[i].1);
      KeepsPlacesOn(doc, before, loro.tree);
      CoversMore(touched, loro.touched, doc, before);
      CoversBoth(loro.touched, doc, before, loro.tree);
      if moved.Err? { r := Err(moved.error); return; }
      i, done := i + 1, done + 1;
    }
    r := Ok(true);
    assert moves[..i] == moves;
  }

  /**
   * `batchIndentNodes`: in document order every selected node that has an unselected sibling before it goes to the end
   * of the nearest one. It ends at the first move that is refused, and leaves the moves made so far.
   */
  method BatchIndentNodes(loro: LoroDocument, nodeIds: seq<NodeId>)
    returns (r: Result<bool>, ghost operationIds: seq<NodeId>, ghost moves: seq<Move>, ghost done: nat)
    requires loro.Valid() && Forest(loro.tree)
    modifies loro
    ensures loro.Valid() && Forest(loro.tree) && IsOrdered(old(loro.tree), nodeIds, operationIds)
    ensures moves == PlannedMoves(old(loro.tree), operationIds, Members(nodeIds)) && done <= |moves|
    ensures loro.tree == Indented(old(loro.tree), moves[..done]) && (r.Ok? <==> done == |moves|)
    ensures forall k :: 0 <= k < done ==> Proceeds(Indented(old(loro.tree), moves[..k]), moves[k])
    ensures r.Err? ==> !Proceeds(Indented(old(loro.tree), moves[..done]), moves[done])
    ensures KeepsPlaces(old(loro.tree), loro.tree) && StopsAtPinned(old(loro.tree), moves, done, r)
    ensures r.Err? ==> moves[done].0 in loro.tree && moves[done].1 in loro.tree
    ensures r.Err? ==> HasCause(loro.tree, moves[done].0, moves[done].1, r.error)
    ensures r.Ok? && Distinct(nodeIds) ==> InRuns(old(loro.tree), loro.tree, Members(nodeIds))
    ensures old(loro.touched) <= loro.touched && Covers(loro.touched, old(loro.tree), loro.tree)
  {
    hide Ranked, Linked, PlannedMoves, Covers, Above, Proceeds, Indented, IsBatch, HasIndented, InRuns, KeepsPlaces, HasCause, IsPinned;
    ghost var doc := loro.tree;
    loro.Reconcile();
    var batch := Members(nodeIds);
    var order, rank := DocumentOrder.Places(loro.cache);
    var ids := DocumentOrder.SortedByPlace(order, nodeIds);
    operationIds := ids;
    var planned := PlanMoves(loro.cache, ids, batch);
    moves := planned;
    PlannedTargetsStand(doc, ids, batch);
    r, done := IndentInTurn(loro, planned);
    assert moves[..|moves|] == moves;
    if Distinct(nodeIds) { AllIndented(doc, rank, order, nodeIds); }
  }

  lemma AllIndented(doc: Doc, rank: map<NodeId, nat>, order: DocumentOrder.Order, nodeIds: seq<NodeId>)
    requires Forest(doc) && Ranked(doc, rank) && DocumentOrder.IsDocumentOrder(doc, rank, order) && Distinct(nodeIds)
    ensures var moves := PlannedMoves(doc, DocumentOrder.SortedByPlace(order, nodeIds), Members(nodeIds));
      InRuns(doc, Indented(doc, moves), Members(nodeIds))
  {
    var ids := DocumentOrder.SortedByPlace(order, nodeIds);
    DocumentOrder.SortedKeeps(order, nodeIds);
    assert Members(ids) == Members(nodeIds);
    hide DocumentOrder.SortedByPlace, DocumentOrder.IsDocumentOrder, Ranked, PlannedMoves, Indented, IsBatch, HasIndented, InRuns;
    PlannedIsBatch(doc, ids);
    IndentsAll(doc, PlannedMoves(doc, ids, Members(ids)));
    IndentedInRuns(doc, rank, order, nodeIds, Indented(doc, PlannedMoves(doc, ids, Members(ids))));
  }

  lemma StartsUnchanged(doc: Doc, moves: seq<Move>, touched: set<NodeId>)
    ensures Indented(doc, moves[..0]) == doc && Covers(touched, doc, doc)
  {
  }

  method PlanMoves(doc: Doc, ids: seq<NodeId>, batch: set<NodeId>) returns (moves: seq<Move>)
    requires Linked(doc)
    ensures moves == PlannedMoves(doc, ids, batch)
  {
    hide TargetOf, Linked;
    moves := [];
    var i := 0;
    while i < |ids|
      invariant 0 <= i <= |ids| && moves == PlannedMoves(doc, ids[..i], batch)
    {
      assert ids[..i + 1] == ids[..i] + [ids[i]];
      PlannedStep(doc, ids[..i], ids[i], batch);
      var target := IndentTarget(doc, ids[i], batch);
      if target.Some? { moves := moves + [(ids[i], target.value)]; }
      i := i + 1;
    }
    assert ids[..i] == ids;
  }

  lemma {:induction false} OutdentedFront(doc: Doc, x: NodeId, ids: seq<NodeId>)
    ensures Outdented(doc, [x] + ids) == OutdentedOne(Outdented(doc, ids), x)
    decreases |ids|
  {
    hide OutdentedOne;
    if ids == [] {
      assert [x] + ids == [x] && [x][..0] == [];
    } else {
      var first, last := ids[..|ids| - 1], ids[|ids| - 1];
      assert ids == first + [last] && [x] + ids == ([x] + first) + [last];
      OutdentedStep(doc, [x] + first, last);
      OutdentedStep(doc, first, last);
      OutdentedFront(OutdentedOne(doc, last), x, first);
    }
  }

  /** The node is pinned, or the move to its grandparent has a cause to be refused. */
  ghost predicate CannotGoOut(doc: Doc, n: NodeId, error: Error) {
    && n in doc
    && if IsPinned(doc, n) then error == Locked(n)
       else
         && doc[n].parent.Some? && doc[n].parent.value in doc && doc[doc[n].parent.value].parent.Some?
         && HasCause(doc, n, doc[doc[n].parent.value].parent.value, error)
  }

  /** The loop body of `batchOutdentNodes`. */
  method OutdentOne(loro: LoroDocument, id: NodeId) returns (r: Result<bool>)
    requires loro.Valid() && Forest(loro.tree)
    modifies loro
    ensures loro.Valid() && Forest(loro.tree) && (r.Ok? <==> GoesOut(old(loro.tree), id))
    ensures KeepsPlaces(old(loro.tree), loro.tree) && (IsPinned(old(loro.tree), id) ==> r == Err(Locked(id)))
    ensures r.Err? ==> CannotGoOut(old(loro.tree), id, r.error)
    ensures loro.tree == if r.Ok? then OutdentedOne(old(loro.tree), id) else old(loro.tree)
    ensures old(loro.touched) <= loro.touched && Covers(loro.touched, old(loro.tree), loro.tree)
  {
    hide Ranked, Linked, Above, MayGo, StaysATree, KeepsPlaces, StandsFor, ShownTwice, HasBrokenChild, StandsForNothing, HasCause, StandsAt, Without;
    ghost var doc := loro.tree;
    ParentsInside(doc, id);
    KeepsAllPlaces(doc);
    loro.Reconcile();
    var state := loro.cache;
    r := Ok(true);
    if id in state {
      if Movable(state, id).Err? { return Err(Movable(state, id).error); }
      if state[id].parent.Some? && state[state[id].parent.value].parent.Some? {
        var parent := state[id].parent.value;
        var grandparent := state[parent].parent.value;
        var checked := CheckMove(state, id, grandparent);
        if checked.Err? { return Err(checked.error); }
        var moved := loro.MoveNode(id, grandparent, Some(FirstPlace(state[grandparent].children, parent) + 1));
        RefusedMove(doc, id, grandparent, moved.Ok?);
        GoingHasNoCause(doc, id, grandparent);
        if moved.Err? { return Err(moved.error); }
        MayGoKeepsPlaces(doc, id, grandparent, Some(FirstPlace(state[grandparent].children, parent) + 1));
      }
    }
  }

  /**
   * `batchOutdentNodes`: from the last node to the first, each goes right behind its parent, up to the first that is
   * refused.
   */
  method BatchOutdentNodes(loro: LoroDocument, nodeIds: seq<NodeId>) returns (r: Result<bool>, ghost left: nat)
    requires loro.Valid() && Forest(loro.tree)
    modifies loro
    ensures loro.Valid() && Forest(loro.tree)
    ensures left <= |nodeIds| && loro.tree == Outdented(old(loro.tree), nodeIds[left..]) && (r.Ok? ==> left == 0)
    ensures forall k :: left <= k < |nodeIds| ==> GoesOut(Outdented(old(loro.tree), nodeIds[k + 1..]), nodeIds[k])
    ensures r.Err? ==> left > 0 && !GoesOut(Outdented(old(loro.tree), nodeIds[left..]), nodeIds[left - 1])
    ensures r.Err? ==> CannotGoOut(loro.tree, nodeIds[left - 1], r.error)
    ensures KeepsPlaces(old(loro.tree), loro.tree)
    ensures forall k :: left <= k < |nodeIds| ==> !IsPinned(old(loro.tree), nodeIds[k])
    ensures left > 0 && IsPinned(old(loro.tree), nodeIds[left - 1]) ==> r == Err(Locked(nodeIds[left - 1]))
    ensures old(loro.touched) <= loro.touched && Covers(loro.touched, old(loro.tree), loro.tree)
  {
    hide Ranked, Linked, Covers, Above, Outdented, OutdentedOne, GoesOut, KeepsPlaces, CannotGoOut, IsPinned;
    ghost var doc := loro.tree;
    KeepsAllPlaces(doc);
    left := |nodeIds|;
    var i := |nodeIds|;
    NoneOutdented(doc, loro.touched);
    assert nodeIds[i..] == [];
    while i > 0
      invariant 0 <= i <= |nodeIds| && left == i && loro.Valid() && Forest(loro.tree)
      invariant loro.tree == Outdented(doc, nodeIds[i..])
      invariant forall k :: i <= k < |nodeIds| ==> GoesOut(Outdented(doc, nodeIds[k + 1..]), nodeIds[k])
      invariant KeepsPlaces(doc, loro.tree) && forall k :: i <= k < |nodeIds| ==> !IsPinned(doc, nodeIds[k])
      invariant old(loro.touched) <= loro.touched && Covers(loro.touched, doc, loro.tree)
    {
      ghost var before, touched := loro.tree, loro.touched;
      var id := nodeIds[i - 1];
      assert nodeIds[i - 1..] == [id] + nodeIds[i..];
      OutdentedFront(doc, id, nodeIds[i..]);
      PinnedAlike(doc, before, id);
      var moved := OutdentOne(loro, id);
      KeepsPlacesOn(doc, before, loro.tree);
      CoversMore(touched, loro.touched, doc, before);
      CoversBoth(loro.touched, doc, before, loro.tree);
      if moved.Err? { r := Err(moved.error); return; }
      i, left := i - 1, left - 1;
    }
    r := Ok(true);
  }

  lemma NoneOutdented(doc: Doc, touched: set<NodeId>)
    ensures Outdented(doc, []) == doc && Covers(touched, doc, doc)
  {
  }

  lemma ParentsInside(doc: Doc, id: NodeId)
    requires Forest(doc)
    ensures id in doc && doc[id].parent.Some? ==> doc[id].parent.value in doc
    ensures id in doc && doc[id].parent.Some? && doc[doc[id].parent.value].parent.Some? ==>
      doc[doc[id].parent.value].parent.value in doc
  {
    if id in doc && doc[id].parent.Some? {
      assert ListedByParent(doc, id);
      assert ListedByParent(doc, doc[id].parent.value);
    }
  }
}