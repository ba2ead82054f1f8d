/** Batch indent followed by batch outdent of the same selection of siblings: when both go through, and what is left then. */
module ThereAndBack {
  import opened Collections
  import opened Outline
  import opened LoroDocument
  import opened Siblings
  import opened IndentOutdent
  import ReferenceCycle

  // ----- What a move asks of the document, read off the document before all moves -----

  /** Moves change places only. */
  ghost predicate SameFacts(doc: Doc, now: Doc) {
    now.Keys == doc.Keys && forall n {:trigger doc[n]} {:trigger now[n]} :: n in doc ==>
      now[n].kind == doc[n].kind && now[n].target == doc[n].target && now[n].locked == doc[n].locked
  }

  lemma SameEnd(doc: Doc, now: Doc, a: NodeId, t: NodeId)
    requires SameFacts(doc, now) && ReferenceCycle.Resolves(doc, a, t)
    ensures ReferenceCycle.Resolves(now, a, t)
  {
    var path :| ReferenceCycle.Connects(ReferenceCycle.Links(doc), path, a, t);
    forall n ensures ReferenceCycle.Link(now, n) == ReferenceCycle.Link(doc, n) {}
    assert ReferenceCycle.Connects(ReferenceCycle.Links(now), path, a, t);
  }

  lemma SameStand(doc: Doc, now: Doc, n: NodeId, t: NodeId)
    requires SameFacts(doc, now) && n in doc
    ensures StandsFor(now, n, t) <==> StandsFor(doc, n, t)
  {
    hide ReferenceCycle.Resolves;
    if doc[n].kind.Reference? && doc[n].target.Some? {
      if StandsFor(doc, n, t) { SameEnd(doc, now, doc[n].target.value, t); }
      if StandsFor(now, n, t) { SameEnd(now, doc, doc[n].target.value, t); }
    }
  }

  /** The child stands for nothing, or for what the node stands for. */
  ghost predicate Clash(doc: Doc, x: NodeId, c: NodeId)
    requires x in doc && c in doc
  {
    (forall u :: !StandsFor(doc, c, u)) || exists u :: StandsFor(doc, x, u) && StandsFor(doc, c, u)
  }

  /** The node may go under `q` beside these children. In the trash nothing clashes. */
  ghost predicate Joins(doc: Doc, x: NodeId, q: NodeId, others: set<NodeId>)
    requires x in doc
  {
    && Movable(doc, x).Ok? && Mutable(doc, q).Ok? && (exists u :: StandsFor(doc, x, u))
    && (q == TRASH_ID || forall c :: c in others && c in doc && c != x ==> !Clash(doc, x, c))
  }

  lemma ChildShows(doc: Doc, q: NodeId, c: NodeId, t: NodeId)
    requires Linked(doc) && q in doc && c in doc[q].children && q != TRASH_ID
    ensures c in doc
    ensures ReferenceCycle.Shows(doc, c, t) <==> StandsFor(doc, c, t)
    ensures ReferenceCycle.Broken(doc, c) <==> forall u :: !StandsFor(doc, c, u)
  {
    hide ReferenceCycle.Resolves;
    assert doc[c].parent == Some(q);
    hide Linked;
    if !(doc[c].kind.Reference? && doc[c].target.Some?) { assert StandsFor(doc, c, c); }
    if ReferenceCycle.Broken(doc, c) {
      forall u ensures !StandsFor(doc, c, u) {}
    }
    if forall u :: !StandsFor(doc, c, u) {
      forall u ensures !ReferenceCycle.Resolves(doc, doc[c].target.value, u) { assert !StandsFor(doc, c, u); }
    }
  }

  lemma TrashTakes(doc: Doc, t: NodeId, x: NodeId)
    requires Linked(doc) && TRASH_ID in doc
    ensures ReferenceCycle.Takes(doc, TRASH_ID, t, Some(x))
  {
  }

  lemma TakesBeside(doc: Doc, x: NodeId, q: NodeId, t: NodeId)
    requires Linked(doc) && x in doc && q in doc && q != TRASH_ID && StandsFor(doc, x, t)
    ensures ReferenceCycle.Takes(doc, q, t, Some(x)) <==>
      forall c :: c in doc[q].children && c in doc && c != x ==> !Clash(doc, x, c)
  {
    forall c | c in doc[q].children ensures c in doc && (!ReferenceCycle.Shows(doc, c, t) && !ReferenceCycle.Broken(doc, c) <==> !Clash(doc, x, c)) {
      ChildShows(doc, q, c, t);
      forall u | StandsFor(doc, x, u) ensures u == t { OneStand(doc, x, u, t); }
    }
    hide Clash, Linked, ReferenceCycle.Shows, ReferenceCycle.Broken;
  }

  lemma OneStand(doc: Doc, x: NodeId, t: NodeId, u: NodeId)
    requires x in doc && StandsFor(doc, x, t) && StandsFor(doc, x, u)
    ensures t == u
  {
    if doc[x].kind.Reference? && doc[x].target.Some? { ReferenceCycle.OneEnd(doc, doc[x].target.value, t, u); }
  }

  lemma JoinsNow(doc: Doc, x: NodeId, q: NodeId)
    requires Linked(doc) && x in doc
    ensures MayGo(doc, x, q) <==> Joins(doc, x, q, if q in doc then Members(doc[q].children) else {})
  {
    if q in doc {
      forall t | StandsFor(doc, x, t)
        ensures ReferenceCycle.Takes(doc, q, t, Some(x)) <==>
          (q == TRASH_ID || forall c :: c in doc[q].children && c in doc && c != x ==> !Clash(doc, x, c))
      {
        if q == TRASH_ID { TrashTakes(doc, t, x); } else { TakesBeside(doc, x, q, t); }
      }
    }
    hide Linked, StandsFor, Clash, ReferenceCycle.Takes;
  }

  lemma JoinsBefore(doc: Doc, now: Doc, x: NodeId, q: NodeId, others: set<NodeId>)
    requires SameFacts(doc, now) && x in doc
    ensures Joins(now, x, q, others) <==> Joins(doc, x, q, others)
  {
    forall n, t | n in doc ensures StandsFor(now, n, t) <==> StandsFor(doc, n, t) { SameStand(doc, now, n, t); }
    hide StandsFor;
    forall c | c in doc ensures Clash(now, x, c) <==> Clash(doc, x, c) {}
  }

  // ----- When the two commands go through -----

  /** The nodes before it went to the same target, and it finds itself beside them and the target's own children. */
  ghost predicate GoesIn(doc: Doc, ids: seq<NodeId>, moves: seq<Move>, k: nat)
    requires k < |ids| && k < |moves| && ids[k] in doc && moves[k].1 in doc
  {
    var t := moves[k].1;
    Joins(doc, ids[k], t, Members(doc[t].children) + Members(MovedUnder(moves[..k], t)))
  }

  /** It comes back when the selected nodes before it are still away. */
  ghost predicate ComesBack(doc: Doc, p: NodeId, ids: seq<NodeId>, k: nat)
    requires k < |ids| && ids[k] in doc && p in doc
  {
    Joins(doc, ids[k], p, Members(doc[p].children) - Members(ids[..k]))
  }

  lemma FactsStay(doc: Doc, now: Doc, moves: seq<Move>)
    requires HasIndented(doc, now, moves)
    ensures SameFacts(doc, now)
  {
    forall n | n in doc ensures now[n].kind == doc[n].kind && now[n].target == doc[n].target && now[n].locked == doc[n].locked {
      if n in MovedIds(moves) {
        var m :| m in moves && m.0 == n;
        assert now[n].(children := doc[n].children) == doc[n].(parent := Some(m.1));
      } else {
        assert now[n].(children := doc[n].children) == doc[n];
      }
    }
  }

  /** Whose children are there while the indents go on. */
  lemma ChildrenThen(doc: Doc, p: NodeId, ids: seq<NodeId>, moves: seq<Move>, k: nat, n: NodeId)
    requires Forest(doc) && IsSelection(doc, p, ids) && IsPlan(doc, ids, moves, Members(ids)) && k <= |ids| && n in doc
    ensures Forest(Indented(doc, moves[..k])) && HasIndented(doc, Indented(doc, moves[..k]), moves[..k])
    ensures Members(Indented(doc, moves[..k])[n].children) ==
      if n == p then Members(doc[p].children) - Members(ids[..k])
      else Members(doc[n].children) + Members(MovedUnder(moves[..k], n))
  {
    hide *;
    MovedFirst(doc, p, ids, moves, k);
    IndentKeepsForest(doc, moves[..k]);
    IndentsAll(doc, moves[..k]);
    if n == p {
      NoneToParent(doc, p, ids, moves, k);
      OwnListThen(doc, Indented(doc, moves[..k]), p, moves[..k], Members(ids[..k]));
    } else {
      SelectedElsewhere(doc, p, ids, k, n);
      OtherListThen(doc, Indented(doc, moves[..k]), n, moves[..k], Members(ids[..k]));
    }
  }

  lemma MovedFirst(doc: Doc, p: NodeId, ids: seq<NodeId>, moves: seq<Move>, k: nat)
    requires Forest(doc) && IsSelection(doc, p, ids) && IsPlan(doc, ids, moves, Members(ids)) && k <= |ids|
    ensures k <= |moves| && IsBatch(doc, moves[..k]) && MovedIds(moves[..k]) == Members(ids[..k]) && p in doc
  {
    PlanPrefix(doc, p, ids, moves, k);
  }

  lemma NoneToParent(doc: Doc, p: NodeId, ids: seq<NodeId>, moves: seq<Move>, k: nat)
    requires Forest(doc) && IsSelection(doc, p, ids) && IsPlan(doc, ids, moves, Members(ids)) && k <= |ids|
    ensures MovedUnder(moves[..k], p) == []
  {
    TargetsAreNotParent(doc, p, ids, moves, k);
    NoneUnder(moves[..k], p);
  }

  lemma OwnListThen(doc: Doc, now: Doc, p: NodeId, first: seq<Move>, gone: set<NodeId>)
    requires HasIndented(doc, now, first) && p in doc && MovedUnder(first, p) == [] && MovedIds(first) == gone
    ensures p in now && Members(now[p].children) == Members(doc[p].children) - gone
  {
    InWithout(doc[p].children, gone);
  }

  lemma SelectedElsewhere(doc: Doc, p: NodeId, ids: seq<NodeId>, k: nat, n: NodeId)
    requires Forest(doc) && IsSelection(doc, p, ids) && k <= |ids| && n in doc && n != p
    ensures Members(doc[n].children) !! Members(ids[..k])
  {
    forall c | c in doc[n].children ensures c !in ids[..k] {
      assert doc[c].parent == Some(n) && (c in ids[..k] ==> c in ids);
    }
  }

  lemma OtherListThen(doc: Doc, now: Doc, n: NodeId, first: seq<Move>, gone: set<NodeId>)
    requires HasIndented(doc, now, first) && n in doc && Members(doc[n].children) !! gone && MovedIds(first) == gone
    ensures n in now && Members(now[n].children) == Members(doc[n].children) + Members(MovedUnder(first, n))
  {
    forall x | x in doc[n].children ensures x !in gone { assert x in Members(doc[n].children); }
    WithoutNone(doc[n].children, gone);
  }

  lemma NextMove(doc: Doc, p: NodeId, ids: seq<NodeId>, moves: seq<Move>, k: nat)
    requires Forest(doc) && IsSelection(doc, p, ids) && IsPlan(doc, ids, moves, Members(ids)) && k < |ids|
    ensures k < |moves| && moves[k] == (ids[k], moves[k].1) && ids[k] in doc && moves[k].1 in doc && moves[k].1 != p && p in doc
    ensures doc[moves[k].1].parent == Some(p) && moves[k].1 !in Members(ids)
  {
    SelectedTarget(doc, p, ids, moves, k);
    NotUnderItself(doc, moves[k].1, p);
  }

  /** The next indent goes ahead exactly if the node finds nothing it clashes with. */
  lemma ProceedsExactly(doc: Doc, p: NodeId, ids: seq<NodeId>, moves: seq<Move>, k: nat)
    requires Forest(doc) && IsSelection(doc, p, ids) && IsPlan(doc, ids, moves, Members(ids)) && k < |ids|
    ensures k < |moves| && ids[k] in doc && moves[k].1 in doc
    ensures Proceeds(Indented(doc, moves[..k]), moves[k]) <==> GoesIn(doc, ids, moves, k)
  {
    NextMove(doc, p, ids, moves, k);
    var x, t, now := ids[k], moves[k].1, Indented(doc, moves[..k]);
    ChildrenThen(doc, p, ids, moves, k, t);
    FactsStay(doc, now, moves[..k]);
    JoinsNow(now, x, t);
    JoinsBefore(doc, now, x, t, Members(now[t].children));
    var a, b := NextInList(doc, p, ids, moves, k);
    ThereAndBackFacts(now, p, a, t, x, b);
    SiblingStaysATree(now, x, t);
    hide Forest, IsSelection, IsPlan, Indented, HasIndented, Joins, MayGo, StaysATree, MovedUnder, SameFacts;
  }

  lemma SiblingStaysATree(doc: Doc, x: NodeId, t: NodeId)
    requires Forest(doc) && x in doc && t in doc && x != t && doc[x].parent.Some? && doc[t].parent == doc[x].parent
    ensures StaysATree(doc, x, t)
  {
    forall rank | Linked(doc) && Ranked(doc, rank) ensures !Above(doc, rank, x, t) { SiblingsAreNotAbove(doc, rank, x, t); }
  }

  lemma GrandparentStaysATree(doc: Doc, x: NodeId, t: NodeId, p: NodeId)
    requires Forest(doc) && x in doc && t in doc && p in doc && doc[x].parent == Some(t) && doc[t].parent == Some(p)
    ensures StaysATree(doc, x, p)
  {
    forall rank | Linked(doc) && Ranked(doc, rank) ensures x != p && !Above(doc, rank, x, p) {
      assert BelowParent(doc, rank, x) && BelowParent(doc, rank, t);
      if Above(doc, rank, x, p) { AboveIsHigher(doc, rank, x, p); }
    }
    var rank :| Ranked(doc, rank);
  }

  /** Coming back: the same of the children of `p` that are there at the time. */
  lemma GoesOutExactly(doc: Doc, p: NodeId, ids: seq<NodeId>, moves: seq<Move>, k: nat)
    requires Forest(doc) && IsSelection(doc, p, ids) && IsPlan(doc, ids, moves, Members(ids)) && k < |ids|
    ensures ids[k] in doc && p in doc
    ensures k < |moves| && (GoesOut(Indented(doc, moves[..k + 1]), ids[k]) <==> ComesBack(doc, p, ids, k))
  {
    hide *;
    NextMove(doc, p, ids, moves, k);
    var x, t, now := ids[k], moves[k].1, Indented(doc, moves[..k + 1]);
    ChildrenThen(doc, p, ids, moves, k + 1, p);
    MovedFirst(doc, p, ids, moves, k + 1);
    FactsStay(doc, now, moves[..k + 1]);
    ParentsThen(doc, now, ids, moves, k);
    ComesBackIs(doc, p, ids, k);
    JoinsThere(doc, now, x, p, Members(doc[p].children) - Members(ids[..k + 1]), Members(doc[p].children) - Members(ids[..k]));
    GrandparentStaysATree(now, x, t, p);
    GoesOutIs(now, x, t, p);
  }

  lemma JoinsThere(doc: Doc, now: Doc, x: NodeId, p: NodeId, there: set<NodeId>, others: set<NodeId>)
    requires Forest(now) && SameFacts(doc, now) && x in doc && p in now && Members(now[p].children) == there
    requires there - {x} == others - {x}
    ensures MayGo(now, x, p) <==> Joins(doc, x, p, others)
  {
    JoinsNow(now, x, p);
    JoinsBefore(doc, now, x, p, there);
    hide MayGo, Forest, SameFacts, Clash, StandsFor;
    forall c | c != x ensures c in there <==> c in others { assert c in there - {x} <==> c in others - {x}; }
  }

  lemma ComesBackIs(doc: Doc, p: NodeId, ids: seq<NodeId>, k: nat)
    requires k < |ids| && ids[k] in doc && p in doc
    ensures ComesBack(doc, p, ids, k) <==> Joins(doc, ids[k], p, Members(doc[p].children) - Members(ids[..k]))
    ensures (Members(doc[p].children) - Members(ids[..k + 1])) - {ids[k]} == (Members(doc[p].children) - Members(ids[..k])) - {ids[k]}
  {
    assert ids[..k + 1] == ids[..k] + [ids[k]];
  }

  lemma GoesOutIs(doc: Doc, x: NodeId, t: NodeId, p: NodeId)
    requires x in doc && t in doc && p in doc && doc[x].parent == Some(t) && doc[t].parent == Some(p) && StaysATree(doc, x, p)
    ensures GoesOut(doc, x) <==> MayGo(doc, x, p)
  {
    if MayGo(doc, x, p) { MayGoIsMovable(doc, x, p); }
    hide MayGo, StaysATree;
  }

  lemma MayGoIsMovable(doc: Doc, x: NodeId, p: NodeId)
    requires MayGo(doc, x, p)
    ensures Movable(doc, x).Ok?
  {
  }

  lemma ParentsThen(doc: Doc, now: Doc, ids: seq<NodeId>, moves: seq<Move>, k: nat)
    requires k < |moves| && k < |ids| && HasIndented(doc, now, moves[..k + 1]) && moves[k].0 == ids[k] && moves[k].1 in doc
    requires MovedIds(moves[..k + 1]) == Members(ids[..k + 1]) && moves[k].1 !in Members(ids)
    ensures ids[k] in now && moves[k].1 in now
    ensures now[ids[k]].parent == Some(moves[k].1) && now[moves[k].1].parent == doc[moves[k].1].parent
  {
    var m, t := moves[k], moves[k].1;
    assert moves[..k + 1][k] == m && m in moves[..k + 1];
    assert now[m.0].(children := doc[m.0].children) == doc[m.0].(parent := Some(t));
    assert t in ids[..k + 1] ==> t in ids;
    assert now[t].(children := doc[t].children) == doc[t];
  }

  /** The outdents undo the indents one by one. */
  lemma {:induction false} BackTo(doc: Doc, p: NodeId, ids: seq<NodeId>, moves: seq<Move>, k: nat)
    requires Forest(doc) && IsSelection(doc, p, ids) && IsPlan(doc, ids, moves, Members(ids)) && k <= |ids|
    ensures |moves| == |ids| && Outdented(Indented(doc, moves), ids[k..]) == Indented(doc, moves[..k])
    decreases |ids| - k
  {
    SameLength(doc, ids, moves);
    hide *;
    if k == |ids| {
      assert ids[k..] == [] && moves[..k] == moves;
      NothingMoved(Indented(doc, moves));
    } else {
      BackTo(doc, p, ids, moves, k + 1);
      OneStepBack(doc, p, ids, moves, k);
      OneMoreOutdented(Indented(doc, moves), ids, k);
    }
  }

  lemma OneMoreOutdented(doc: Doc, ids: seq<NodeId>, k: nat)
    requires k < |ids|
    ensures Outdented(doc, ids[k..]) == OutdentedOne(Outdented(doc, ids[k + 1..]), ids[k])
  {
    hide *;
    assert ids[k..] == [ids[k]] + ids[k + 1..];
    OutdentedFront(doc, ids[k], ids[k + 1..]);
  }

  // ----- The two commands -----

  /**
   * Batch indent of selected siblings and batch outdent of the same selection. The first goes through exactly if every
   * node may join its target, the second exactly if every node may come back; then the document is as it was.
   */
  method IndentAndOutdent(loro: LoroDocument, p: NodeId, ids: seq<NodeId>)
    returns (indented: Result<bool>, outdented: Result<bool>, ghost moves: seq<Move>)
    requires loro.Valid() && Forest(loro.tree) && IsSelection(loro.tree, p, ids)
    modifies loro
    ensures loro.Valid() && Forest(loro.tree)
    ensures moves == PlannedMoves(old(loro.tree), ids, Members(ids)) && PlanFits(old(loro.tree), p, ids, moves)
    ensures indented.Ok? <==> forall k :: 0 <= k < |ids| ==> GoesIn(old(loro.tree), ids, moves, k)
    ensures indented.Ok? ==> (outdented.Ok? <==> forall k :: 0 <= k < |ids| ==> ComesBack(old(loro.tree), p, ids, k))
    ensures indented.Ok? && outdented.Ok? ==> loro.tree == old(loro.tree)
    ensures indented.Err? ==> outdented.Err?
  {
    hide *;
    ghost var doc := loro.tree;
    ghost var order, done, left;
    indented, order, moves, done := BatchIndentNodes(loro, ids);
    SelectionIsPlanned(doc, p, ids, order);
    PlanIsFit(doc, p, ids, moves);
    FitsAlong(doc, p, ids, moves);
    forall k | 0 <= k < |ids| ensures Proceeds(Indented(doc, moves[..k]), moves[k]) <==> GoesIn(doc, ids, moves, k) {
      ProceedsExactly(doc, p, ids, moves, k);
    }
    if indented.Err? {
      outdented := Err(indented.error);
      return;
    }
    assert moves[..done] == moves;
    outdented, left := BatchOutdentNodes(loro, ids);
    forall k | 0 <= k < |ids|
      ensures GoesOut(Outdented(Indented(doc, moves), ids[k + 1..]), ids[k]) <==> ComesBack(doc, p, ids, k)
    {
      BackTo(doc, p, ids, moves, k + 1);
      GoesOutExactly(doc, p, ids, moves, k);
    }
    if outdented.Ok? {
      BatchThereAndBack(doc, p, ids, order);
      assert ids[0..] == ids;
    }
  }

  lemma SelectionIsPlanned(doc: Doc, p: NodeId, ids: seq<NodeId>, sorted: seq<NodeId>)
    requires Forest(doc) && IsSelection(doc, p, ids) && IsOrdered(doc, ids, sorted)
    ensures sorted == ids && IsPlan(doc, ids, PlannedMoves(doc, ids, Members(ids)), Members(ids))
  {
    SelectionIsOrdered(doc, p, ids, sorted);
    PlannedIsPlan(doc, p, ids, |ids|);
    assert ids[..|ids|] == ids;
  }

  lemma FitsAlong(doc: Doc, p: NodeId, ids: seq<NodeId>, moves: seq<Move>)
    requires PlanFits(doc, p, ids, moves)
    ensures |moves| == |ids| && p in doc && forall k :: 0 <= k < |ids| ==> ids[k] in doc && moves[k].1 in doc
  {
  }

  ghost predicate PlanFits(doc: Doc, p: NodeId, ids: seq<NodeId>, moves: seq<Move>) {
    && |moves| == |ids| && p in doc && forall k :: 0 <= k < |ids| ==> moves[k].0 == ids[k] && ids[k] in doc && moves[k].1 in doc
  }

  lemma PlanIsFit(doc: Doc, p: NodeId, ids: seq<NodeId>, moves: seq<Move>)
    requires Forest(doc) && IsSelection(doc, p, ids) && IsPlan(doc, ids, moves, Members(ids))
    ensures PlanFits(doc, p, ids, moves)
  {
    forall k | 0 <= k < |ids| ensures moves[k].0 == ids[k] && ids[k] in doc && moves[k].1 in doc { NextMove(doc, p, ids, moves, k); }
  }

  // ----- Where the way back is barred -----

  /** Node 20 has the children 21, 22 and a reference to 22. */
  function Twins(): Doc {
    map[20 := Node(Plain, None, [21, 22, 23], "", [], None, None, None, [], 0, false),
        21 := BlankNode(Plain, 20), 22 := BlankNode(Plain, 20), 23 := BlankNode(Reference, 20).(target := Some(22))]
  }

  lemma TwinsAreLinked()
    ensures Linked(Twins())
  {
  }

  lemma TwinsAreForest()
    ensures Forest(Twins()) && IsSelection(Twins(), 20, [22])
  {
    TwinsAreLinked();
    hide Linked, Distinct;
    assert Ranked(Twins(), map[20 := 0, 21 := 1, 22 := 1, 23 := 1]);
    hide Ranked;
    assert Twins()[20].children == [21, 22, 23];
  }

  lemma TwinStands()
    ensures StandsFor(Twins(), 22, 22) && StandsFor(Twins(), 23, 22)
  {
    assert ReferenceCycle.Connects(ReferenceCycle.Links(Twins()), [22], 22, 22);
  }

  lemma TwinIsPlanned()
    ensures Linked(Twins()) && TargetOf(Twins(), 22, {22}) == Some(21)
  {
    TwinsAreForest();
    var s := Twins()[20].children;
    assert Place(s, 22) == 1;
    assert NearestBefore(s, 1, {22}) == Some(21);
  }

  /** Node 22 may go under 21 but not back: meanwhile 20 shows it by the reference. */
  lemma TwinStaysAway()
    ensures Forest(Twins()) && IsSelection(Twins(), 20, [22]) && PlannedMoves(Twins(), [22], {22}) == [(22, 21)]
    ensures GoesIn(Twins(), [22], [(22, 21)], 0) && !ComesBack(Twins(), 20, [22], 0)
  {
    TwinsAreForest();
    TwinIsPlanned();
    TwinStands();
    PlannedStep(Twins(), [], 22, {22});
    assert [] + [22] == [22];
    hide StandsFor, Forest, IsSelection, TargetOf, Linked, Distinct;
    var doc, move := Twins(), (22, 21);
    assert Members(doc[21].children) == {} && MovedUnder([move][..0], 21) == [];
    assert Clash(doc, 22, 23);
    assert 23 in Members(doc[20].children) - Members([22][..0]);
  }
}
