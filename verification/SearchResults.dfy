/** A search node lists its results as references: one per hit, in hit order, between its conditions and its other children. */
module SearchResults {
  import opened Collections
  import opened Outline
  import opened LoroDocument
  import opened Siblings
  import Removal
  import ReferenceCycle

  // ----- Reordering children one move at a time -----

  /** `reorderDirectChildren`: the moves, made against a mirror of the list, end in exactly the desired order. */
  method ReorderDirectChildren(loro: LoroDocument, p: NodeId, desired: seq<NodeId>)
    requires loro.Valid() && Forest(loro.tree) && p in loro.tree && Permuted(loro.tree[p].children, desired)
    modifies loro
    ensures loro.Valid() && Forest(loro.tree)
    ensures loro.tree == old(loro.tree)[p := old(loro.tree)[p].(children := desired)]
    ensures old(loro.touched) <= loro.touched && Covers(loro.touched, old(loro.tree), loro.tree)
    ensures desired == old(loro.tree)[p].children ==> loro.touched == old(loro.touched)
  {
    hide Linked, Ranked, Above, Without, Permuted, Moved;
    ghost var doc := loro.tree;
    var current, index := loro.tree[p].children, 0;
    SameList(doc, p, desired);
    while index < |desired|
      invariant 0 <= index <= |desired| && Permuted(current, desired) && index <= |current| && current[..index] == desired[..index]
      invariant loro.Valid() && Forest(loro.tree) && loro.tree == doc[p := doc[p].(children := current)]
      invariant old(loro.touched) <= loro.touched && Covers(loro.touched, doc, loro.tree)
      invariant desired == doc[p].children ==> current == desired && loro.touched == old(loro.touched)
    {
      var childId := desired[index];
      if index < |current| && current[index] == childId {
        index := index + 1;
        continue;
      }
      var at := IndexOf(current, childId);
      NextChild(current, desired, index, at);
      ghost var before := loro.tree;
      ghost var rank :| Ranked(before, rank);
      MoveOf(before, p, current, at, index);
      var moved := loro.MoveNode(childId, p, Some(index));
      CoversBoth(loro.touched, doc, before, loro.tree);
      current := current[..at] + current[at + 1..];
      current := Inserted(current, Least(index, |current|), childId);
      index := index + 1;
    }
    AllPlaced(current, desired);
  }

  lemma SameList(doc: Doc, p: NodeId, desired: seq<NodeId>)
    requires p in doc
    ensures doc == doc[p := doc[p].(children := doc[p].children)]
    ensures Covers({}, doc, doc)
  {
  }

  lemma NextChild(current: seq<NodeId>, desired: seq<NodeId>, index: nat, at: int)
    requires Permuted(current, desired) && index < |desired| && index <= |current| && current[..index] == desired[..index]
    requires at < 0 ==> desired[index] !in current
    requires at >= 0 ==> at < |current| && current[at] == desired[index]
    ensures index <= at < |current|
    ensures var next := Inserted(current[..at] + current[at + 1..], index, current[at]);
      |next| == |current| && next[..index + 1] == desired[..index + 1] && Permuted(next, desired)
  {
    assert desired[index] in desired;
    assert forall k :: 0 <= k < index ==> current[k] == current[..index][k] == desired[..index][k];
    StepsForward(current, at, index);
  }

  // ----- The parts of a search node -----

  datatype Part = Condition | Result | Rest

  predicate IsResult(doc: Doc, c: NodeId) {
    c in doc && doc[c].kind.Reference? && doc[c].target.Some?
  }

  function PartOf(doc: Doc, c: NodeId): Part {
    if IsResult(doc, c) then Result
    else if c in doc && doc[c].kind.QueryCondition? then Condition
    else Rest
  }

  function Select(doc: Doc, s: seq<NodeId>, part: Part): seq<NodeId> {
    if s == [] then [] else One(doc, s[0], part) + Select(doc, s[1..], part)
  }

  function One(doc: Doc, c: NodeId, part: Part): seq<NodeId> {
    if PartOf(doc, c) == part then [c] else []
  }

  predicate RefersTo(doc: Doc, c: NodeId, t: NodeId) {
    IsResult(doc, c) && doc[c].target == Some(t)
  }

  /** The first of the children that refers to `t`. */
  function FirstRef(doc: Doc, s: seq<NodeId>, t: NodeId): Option<NodeId> {
    if s == [] then None else if RefersTo(doc, s[0], t) then Some(s[0]) else FirstRef(doc, s[1..], t)
  }

  lemma {:induction false} FirstRefAppend(doc: Doc, s: seq<NodeId>, x: NodeId, t: NodeId)
    ensures FirstRef(doc, s + [x], t) ==
      if FirstRef(doc, s, t).Some? then FirstRef(doc, s, t) else if RefersTo(doc, x, t) then Some(x) else None
  {
    if s == [] {
      assert [x][1..] == [];
    } else {
      assert (s + [x])[1..] == s[1..] + [x];
      FirstRefAppend(doc, s[1..], x, t);
    }
  }

  lemma {:induction false} FirstRefFinds(doc: Doc, s: seq<NodeId>, t: NodeId)
    ensures FirstRef(doc, s, t).Some? ==> FirstRef(doc, s, t).value in s && RefersTo(doc, FirstRef(doc, s, t).value, t)
    ensures FirstRef(doc, s, t).None? ==> forall c :: c in s ==> !RefersTo(doc, c, t)
  {
    if s != [] {
      FirstRefFinds(doc, s[1..], t);
      assert forall c :: c in s ==> c == s[0] || c in s[1..];
    }
  }

  // ----- Dropping result references -----

  predicate NamesNot(node: Node, c: NodeId) {
    c !in node.tags && node.target != Some(c) && node.queryTarget != Some(c) && node.template != Some(c) && Some(c) !in node.inlineRefs
  }

  /** A leaf that nothing names. */
  ghost predicate Quiet(doc: Doc, c: NodeId) {
    && c in doc && doc[c].children == [] && !IsSystemId(c)
    && forall n {:trigger NamesNot(doc[n], c)} :: n in doc ==> NamesNot(doc[n], c)
  }

  function Dropped(doc: Doc, p: NodeId, c: NodeId): Doc
    requires p in doc
  {
    doc[p := doc[p].(children := Without(doc[p].children, {c}))] - {c}
  }

  lemma QuietCascade(doc: Doc, c: NodeId)
    requires Quiet(doc, c)
    ensures Removal.IsCascade(doc, c, {c})
  {
    forall n | n in doc ensures !Removal.PointsInto(doc, n, {c}) { assert NamesNot(doc[n], c); }
  }

  lemma QuietScrub(doc: Doc, c: NodeId, n: NodeId)
    requires Quiet(doc, c) && n in doc
    ensures Removal.Scrubbed(doc[n], {c}, None) == doc[n]
  {
    assert NamesNot(doc[n], c);
    WithoutNone(doc[n].tags, {c});
    Removal.RefsWithoutNone(doc[n].inlineRefs, {c});
  }

  lemma QuietRemoval(doc: Doc, p: NodeId, c: NodeId)
    requires Linked(doc) && Quiet(doc, c) && p in doc && c in doc[p].children && p != c
    ensures Removal.Remaining(doc, {c}, None) == Dropped(doc, p, c)
  {
    hide Removal.Scrubbed;
    forall n | n in doc && n != c ensures Removal.Remaining(doc, {c}, None)[n] == Dropped(doc, p, c)[n] {
      QuietScrub(doc, c, n);
      Removal.ScrubKeepsPlace(Pruned(doc, {c})[n], doc[n], {c}, None);
      if n != p {
        assert doc[c].parent == Some(p) && c !in doc[n].children;
        WithoutNone(doc[n].children, {c});
      }
    }
  }

  method DropReference(loro: LoroDocument, p: NodeId, c: NodeId)
    requires loro.Valid() && Forest(loro.tree) && Quiet(loro.tree, c) && p in loro.tree && c in loro.tree[p].children
    modifies loro
    ensures loro.Valid() && Forest(loro.tree) && loro.tree == Dropped(old(loro.tree), p, c)
    ensures old(loro.touched) <= loro.touched && Covers(loro.touched, old(loro.tree), loro.tree)
  {
    ghost var doc := loro.tree;
    NotUnderItself(doc, c, p);
    QuietCascade(doc, c);
    QuietRemoval(doc, p, c);
    hide Removal.IsCascade, Linked, Removal.Remaining, Dropped, Quiet, Removal.Scrubbed;
    var r, removed, last := Removal.RemoveSubtree(loro, c, None);
    Removal.CascadeIsUnique(doc, c, removed, {c});
    KeptCache(doc, c, last);
    Removal.NothingDangles(doc, c, removed, None);
  }

  lemma KeptCache(doc: Doc, c: NodeId, last: NodeId)
    requires Quiet(doc, c)
    ensures Removal.CacheKept(doc, {c}, None, last)
  {
    forall n | n in Parents(doc, last) && n in doc ensures Removal.Scrubbed(doc[n], {c}, None) == doc[n] {
      QuietScrub(doc, c, n);
    }
  }

  /** The document with some children of `p` dropped, some references made, and a new list of children. */
  function Rebuilt(doc: Doc, p: NodeId, dropped: set<NodeId>, made: map<NodeId, NodeId>, list: seq<NodeId>): Doc
    requires p in doc
  {
    map n | n in doc.Keys + made.Keys && n !in dropped ::
      if n == p then doc[p].(children := list)
      else if n in doc then doc[n]
      else BlankNode(Reference, p).(target := Some(made[n]))
  }

  function Left(doc: Doc, p: NodeId, dropped: set<NodeId>): Doc
    requires p in doc
  {
    Rebuilt(doc, p, dropped, map[], Without(doc[p].children, dropped))
  }

  /** What the command relies on: the result references of the node are leaves that nothing names. */
  ghost predicate ResultsAreQuiet(doc: Doc, p: NodeId) {
    p in doc && doc[p].kind.Search? && forall c :: c in doc[p].children && IsResult(doc, c) ==> Quiet(doc, c)
  }

  lemma NothingLeft(doc: Doc, p: NodeId)
    requires p in doc
    ensures Left(doc, p, {}) == doc
  {
    WithoutNone(doc[p].children, {});
  }

  lemma LeftOneFewer(doc: Doc, p: NodeId, dropped: set<NodeId>, c: NodeId)
    requires p in doc && c in doc[p].children && c !in dropped && Quiet(doc, c) && c != p && p !in dropped
    ensures var tree := Left(doc, p, dropped);
      && p in tree && c in tree[p].children && Quiet(tree, c) && Dropped(tree, p, c) == Left(doc, p, dropped + {c})
  {
    var tree := Left(doc, p, dropped);
    InWithout(doc[p].children, dropped);
    forall n | n in tree ensures NamesNot(tree[n], c) { assert NamesNot(doc[n], c); }
    assert tree[c] == doc[c];
    DropsOneMore(doc, p, dropped, c);
  }

  lemma DropsOneMore(doc: Doc, p: NodeId, dropped: set<NodeId>, c: NodeId)
    requires p in doc && c != p && p !in dropped
    ensures Dropped(Left(doc, p, dropped), p, c) == Left(doc, p, dropped + {c})
  {
    WithoutTwice(doc[p].children, dropped, {c});
    var one, other := Dropped(Left(doc, p, dropped), p, c), Left(doc, p, dropped + {c});
    hide Without;
    assert one.Keys == other.Keys;
    forall n | n in one ensures one[n] == other[n] {}
  }

  /** The result references that are not the first for their target. */
  function Repeats(doc: Doc, s: seq<NodeId>): set<NodeId> {
    set c | c in s && IsResult(doc, c) && FirstRef(doc, s, doc[c].target.value) != Some(c)
  }

  lemma RepeatsAppend(doc: Doc, s: seq<NodeId>, x: NodeId)
    requires x !in s
    ensures IsResult(doc, x) && FirstRef(doc, s, doc[x].target.value).Some? ==> Repeats(doc, s + [x]) == Repeats(doc, s) + {x}
    ensures !(IsResult(doc, x) && FirstRef(doc, s, doc[x].target.value).Some?) ==> Repeats(doc, s + [x]) == Repeats(doc, s)
  {
    forall c | c in s && IsResult(doc, c)
      ensures FirstRef(doc, s + [x], doc[c].target.value) == FirstRef(doc, s, doc[c].target.value)
    {
      FirstRefAppend(doc, s, x, doc[c].target.value);
      FirstRefFinds(doc, s, doc[c].target.value);
    }
    if IsResult(doc, x) {
      FirstRefAppend(doc, s, x, doc[x].target.value);
      FirstRefFinds(doc, s, doc[x].target.value);
    }
  }

  ghost predicate Indexes(doc: Doc, s: seq<NodeId>, existing: map<NodeId, NodeId>) {
    forall t :: (t in existing <==> FirstRef(doc, s, t).Some?) && (t in existing ==> FirstRef(doc, s, t) == Some(existing[t]))
  }

  lemma IndexesAppend(doc: Doc, s: seq<NodeId>, x: NodeId, existing: map<NodeId, NodeId>)
    requires Indexes(doc, s, existing)
    ensures if IsResult(doc, x) && doc[x].target.value !in existing then Indexes(doc, s + [x], existing[doc[x].target.value := x])
      else Indexes(doc, s + [x], existing)
  {
    forall t ensures FirstRef(doc, s + [x], t) ==
      if FirstRef(doc, s, t).Some? then FirstRef(doc, s, t) else if RefersTo(doc, x, t) then Some(x) else None
    {
      FirstRefAppend(doc, s, x, t);
    }
  }

  /** Of several references to one target, the first stays. */
  method DropDuplicates(loro: LoroDocument, p: NodeId) returns (existing: map<NodeId, NodeId>)
    requires loro.Valid() && Forest(loro.tree) && ResultsAreQuiet(loro.tree, p)
    modifies loro
    ensures loro.Valid() && Forest(loro.tree)
    ensures Indexes(old(loro.tree), old(loro.tree)[p].children, existing)
    ensures loro.tree == Left(old(loro.tree), p, Repeats(old(loro.tree), old(loro.tree)[p].children))
    ensures old(loro.touched) <= loro.touched && Covers(loro.touched, old(loro.tree), loro.tree)
    ensures Repeats(old(loro.tree), old(loro.tree)[p].children) == {} ==> loro.touched == old(loro.touched)
  {
    hide Linked, Ranked, FirstRef, Indexes, Repeats, Left, Quiet;
    var state, children := loro.tree, loro.tree[p].children;
    var i := 0;
    existing := map[];
    NoChildren(state, p);
    while i < |children|
      invariant 0 <= i <= |children| && loro.Valid() && Forest(loro.tree) && p in loro.tree
      invariant Indexes(state, children[..i], existing)
      invariant loro.tree == Left(state, p, Repeats(state, children[..i]))
      invariant old(loro.touched) <= loro.touched && Covers(loro.touched, state, loro.tree)
      invariant Repeats(state, children[..i]) == {} ==> loro.touched == old(loro.touched)
    {
      var c := children[i];
      ghost var seen := children[..i];
      assert children[..i + 1] == seen + [c];
      NewChild(state, p, i);
      RepeatsAppend(state, seen, c);
      IndexesAppend(state, seen, c, existing);
      LookedUp(state, seen, existing, c);
      if IsResult(state, c) {
        if state[c].target.value in existing {
          ghost var before := loro.tree;
          LeftOneFewer(state, p, Repeats(state, seen), c);
          DropReference(loro, p, c);
          CoversBoth(loro.touched, state, before, loro.tree);
        } else {
          existing := existing[state[c].target.value := c];
        }
      }
      i := i + 1;
    }
    assert children[..i] == children;
  }

  lemma NoChildren(doc: Doc, p: NodeId)
    requires p in doc
    ensures Indexes(doc, [], map[]) && Repeats(doc, []) == {} && Left(doc, p, {}) == doc && Covers({}, doc, doc)
  {
    NothingLeft(doc, p);
  }

  lemma NewChild(doc: Doc, p: NodeId, i: nat)
    requires Forest(doc) && p in doc && i < |doc[p].children|
    ensures var c, seen := doc[p].children[i], doc[p].children[..i];
      c in doc[p].children && c !in seen && c != p && c !in Repeats(doc, seen) && p !in Repeats(doc, seen)
  {
    NotUnderItself(doc, doc[p].children[i], p);
    forall c | c in doc[p].children[..i] ensures c != p { NotUnderItself(doc, c, p); }
  }

  lemma LookedUp(doc: Doc, s: seq<NodeId>, existing: map<NodeId, NodeId>, c: NodeId)
    requires Indexes(doc, s, existing)
    ensures IsResult(doc, c) ==> (doc[c].target.value in existing <==> FirstRef(doc, s, doc[c].target.value).Some?)
  {
  }

  // ----- Matching the references to the hits -----

  function Unmatched(existing: map<NodeId, NodeId>, matched: set<NodeId>, pending: set<NodeId>): set<NodeId> {
    set t | t in existing && t !in matched && t !in pending :: existing[t]
  }

  lemma UnmatchedNext(existing: map<NodeId, NodeId>, matched: set<NodeId>, pending: set<NodeId>, t: NodeId)
    requires t in pending && t in existing
    ensures Unmatched(existing, matched, pending - {t}) ==
      Unmatched(existing, matched, pending) + if t in matched then {} else {existing[t]}
  {
    var next := Unmatched(existing, matched, pending - {t});
    forall x | x in next ensures x in Unmatched(existing, matched, pending) + if t in matched then {} else {existing[t]} {
      var u :| u in existing && u !in matched && u !in pending - {t} && existing[u] == x;
    }
  }

  lemma ExistingRef(doc: Doc, p: NodeId, existing: map<NodeId, NodeId>, matched: set<NodeId>, pending: set<NodeId>, t: NodeId)
    requires Forest(doc) && ResultsAreQuiet(doc, p) && Indexes(doc, doc[p].children, existing) && t in existing && t in pending
    ensures var c := existing[t];
      && c in doc[p].children && RefersTo(doc, c, t) && Quiet(doc, c) && c != p
      && c !in Repeats(doc, doc[p].children) && c !in Unmatched(existing, matched, pending)
    ensures p !in Repeats(doc, doc[p].children) && p !in Unmatched(existing, matched, pending)
  {
    var children := doc[p].children;
    FirstRefFinds(doc, children, t);
    NotUnderItself(doc, existing[t], p);
    forall u | u in existing ensures existing[u] in children && RefersTo(doc, existing[u], u) { FirstRefFinds(doc, children, u); }
  }

  /** References to what is no longer a hit are dropped. */
  method DropUnmatched(loro: LoroDocument, ghost doc: Doc, p: NodeId, existing: map<NodeId, NodeId>, matched: set<NodeId>)
    requires loro.Valid() && Forest(loro.tree) && Forest(doc) && ResultsAreQuiet(doc, p)
    requires p in doc && Indexes(doc, doc[p].children, existing) && loro.tree == Left(doc, p, Repeats(doc, doc[p].children))
    modifies loro
    ensures loro.Valid() && Forest(loro.tree)
    ensures loro.tree == Left(doc, p, Repeats(doc, doc[p].children) + Unmatched(existing, matched, {}))
    ensures old(loro.touched) <= loro.touched && Covers(loro.touched, old(loro.tree), loro.tree)
    ensures Unmatched(existing, matched, {}) == {} ==> loro.touched == old(loro.touched)
  {
    hide Linked, Ranked, FirstRef, Indexes, Repeats, Left, Quiet, Unmatched, ResultsAreQuiet;
    ghost var repeats, start := Repeats(doc, doc[p].children), loro.tree;
    var pending := existing.Keys;
    AllPending(existing, matched, loro.tree);
    assert repeats + Unmatched(existing, matched, pending) == repeats;
    while pending != {}
      invariant pending <= existing.Keys && loro.Valid() && Forest(loro.tree)
      invariant loro.tree == Left(doc, p, repeats + Unmatched(existing, matched, pending))
      invariant old(loro.touched) <= loro.touched && Covers(loro.touched, start, loro.tree)
      invariant Unmatched(existing, matched, pending) == {} ==> loro.touched == old(loro.touched)
      decreases pending
    {
      var t :| t in pending;
      ExistingRef(doc, p, existing, matched, pending, t);
      UnmatchedNext(existing, matched, pending, t);
      ghost var dropped := repeats + Unmatched(existing, matched, pending);
      pending := pending - {t};
      if t in matched {
        assert dropped == repeats + Unmatched(existing, matched, pending);
      } else {
        ghost var before := loro.tree;
        LeftOneFewer(doc, p, dropped, existing[t]);
        DropReference(loro, p, existing[t]);
        CoversBoth(loro.touched, start, before, loro.tree);
        assert dropped + {existing[t]} == repeats + Unmatched(existing, matched, pending);
      }
    }
  }

  lemma AllPending(existing: map<NodeId, NodeId>, matched: set<NodeId>, tree: Doc)
    ensures Unmatched(existing, matched, existing.Keys) == {} && Covers({}, tree, tree)
  {
  }

  // ----- References for the new hits -----

  /** Which reference stands for which hit: an old one if there was one, else a new one. */
  ghost predicate Assigned(doc: Doc, p: NodeId, existing: map<NodeId, NodeId>, made: map<NodeId, NodeId>,
                           refOf: map<NodeId, NodeId>, hits: seq<NodeId>)
  {
    && made.Keys !! doc.Keys
    && (forall t :: t in existing ==> t in refOf && refOf[t] == existing[t])
    && (forall c :: c in made ==> made[c] in hits && made[c] !in existing && made[c] in refOf && refOf[made[c]] == c)
    && (forall t :: t in refOf && t !in existing ==> refOf[t] in made && made[refOf[t]] == t)
    && (forall t :: t in hits ==> t in refOf)
  }

  lemma MadeOne(doc: Doc, p: NodeId, dropped: set<NodeId>, made: map<NodeId, NodeId>, list: seq<NodeId>, id: NodeId, t: NodeId)
    requires p in doc && p !in dropped && p !in made && id !in doc && id !in made && id !in dropped
    ensures var tree := Rebuilt(doc, p, dropped, made, list);
      && p in tree && id !in tree
      && Created(tree, id, None, BlankNode(Reference, p).(target := Some(t))) == Rebuilt(doc, p, dropped, made[id := t], list + [id])
  {
    assert Inserted(list, |list|, id) == list + [id];
  }

  /** Hits without a reference get one, at the end of the list. */
  method CreateMissing(loro: LoroDocument, ghost doc: Doc, p: NodeId, hits: seq<NodeId>, existing: map<NodeId, NodeId>,
                       ghost dropped: set<NodeId>, firstId: NodeId)
    returns (ghost made: map<NodeId, NodeId>, ghost refOf: map<NodeId, NodeId>, ghost created: seq<NodeId>)
    requires loro.Valid() && Forest(loro.tree) && p in doc && p !in dropped && loro.tree == Left(doc, p, dropped)
    requires Distinct(hits) && dropped <= doc.Keys && forall t :: t in hits ==> t in doc && t !in dropped
    requires forall n :: n in doc ==> n < firstId
    modifies loro
    ensures loro.Valid() && Forest(loro.tree) && Assigned(doc, p, existing, made, refOf, hits)
    ensures loro.tree == Rebuilt(doc, p, dropped, made, Without(doc[p].children, dropped) + created)
    ensures Distinct(created) && forall c :: c in created <==> c in made
    ensures old(loro.touched) <= loro.touched && Covers(loro.touched, old(loro.tree), loro.tree)
    ensures (forall t :: t in hits ==> t in existing) ==> loro.touched == old(loro.touched)
    ensures forall c :: c in made ==> c >= firstId
  {
    hide Linked, Ranked, Rebuilt, Without;
    ghost var base, start := Without(doc[p].children, dropped), loro.tree;
    var i, next := 0, firstId;
    made, refOf, created := map[], existing, [];
    assert base + [] == base;
    AllPending(existing, {}, start);
    InRebuilt(doc, p, dropped, map[], base, p);
    while i < |hits|
      invariant 0 <= i <= |hits| && loro.Valid() && Forest(loro.tree)
      invariant Assigned(doc, p, existing, made, refOf, hits[..i])
      invariant loro.tree == Rebuilt(doc, p, dropped, made, base + created)
      invariant Distinct(created) && forall c :: c in created <==> c in made
      invariant firstId <= next && forall c :: c in made ==> firstId <= c < next
      invariant old(loro.touched) <= loro.touched && Covers(loro.touched, start, loro.tree)
      invariant (forall t :: t in hits ==> t in existing) ==> loro.touched == old(loro.touched)
    {
      var t := hits[i];
      assert hits[..i + 1] == hits[..i] + [t];
      InRebuilt(doc, p, dropped, made, base + created, t);
      if t !in existing && t in loro.tree {
        ghost var before := loro.tree;
        MadeOne(doc, p, dropped, made, base + created, next, t);
        loro.CreateNode(next, None, BlankNode(Reference, p).(target := Some(t)));
        NewLeaf(before, next, p, t);
        CoversBoth(loro.touched, start, before, loro.tree);
        NewlyAssigned(doc, p, existing, made, refOf, hits[..i], next, t);
        assert base + created + [next] == base + (created + [next]);
        made, refOf, created := made[next := t], refOf[t := next], created + [next];
        next := next + 1;
      }
      i := i + 1;
    }
    assert hits[..i] == hits;
  }

  lemma InRebuilt(doc: Doc, p: NodeId, dropped: set<NodeId>, made: map<NodeId, NodeId>, list: seq<NodeId>, t: NodeId)
    requires p in doc
    ensures t in Rebuilt(doc, p, dropped, made, list) <==> (t in doc || t in made) && t !in dropped
  {
  }

  lemma NewLeaf(doc: Doc, id: NodeId, p: NodeId, t: NodeId)
    requires Forest(doc) && id !in doc && p in doc
    ensures Forest(Created(doc, id, None, BlankNode(Reference, p).(target := Some(t))))
  {
    CreatedForest(doc, id, None, BlankNode(Reference, p).(target := Some(t)));
  }

  lemma NewlyAssigned(doc: Doc, p: NodeId, existing: map<NodeId, NodeId>, made: map<NodeId, NodeId>,
                      refOf: map<NodeId, NodeId>, hits: seq<NodeId>, id: NodeId, t: NodeId)
    requires Assigned(doc, p, existing, made, refOf, hits) && t !in hits && t !in existing && id !in made && id !in doc
    ensures Assigned(doc, p, existing, made[id := t], refOf[t := id], hits + [t])
  {
    assert t in hits + [t] && forall u :: u in hits ==> u in hits + [t];
  }

  // ----- The final order -----

  lemma {:induction false} InSelect(doc: Doc, s: seq<NodeId>, part: Part)
    ensures forall x :: x in Select(doc, s, part) <==> x in s && PartOf(doc, x) == part
    ensures Distinct(s) ==> Distinct(Select(doc, s, part))
  {
    if s != [] {
      InSelect(doc, s[1..], part);
      assert forall x :: x in s <==> x == s[0] || x in s[1..];
    }
  }

  lemma {:induction false} SelectAppend(doc: Doc, s: seq<NodeId>, t: seq<NodeId>, part: Part)
    ensures Select(doc, s + t, part) == Select(doc, s, part) + Select(doc, t, part)
  {
    if s == [] {
      assert s + t == t;
    } else {
      SelectAppend(doc, s[1..], t, part);
      hide One;
      assert (s + t)[0] == s[0] && (s + t)[1..] == s[1..] + t;
    }
  }

  lemma {:induction false} SelectNone(doc: Doc, s: seq<NodeId>, part: Part)
    requires forall x :: x in s ==> PartOf(doc, x) != part
    ensures Select(doc, s, part) == []
  {
    if s != [] {
      assert s[0] in s && forall x :: x in s[1..] ==> x in s;
      SelectNone(doc, s[1..], part);
    }
  }

  /** Dropping members of other parts does not change a part. */
  lemma {:induction false} SelectWithout(doc: Doc, after: Doc, s: seq<NodeId>, gone: set<NodeId>, part: Part)
    requires forall x :: x in s && x in gone ==> PartOf(doc, x) != part
    requires forall x :: x in s && x !in gone ==> PartOf(after, x) == PartOf(doc, x)
    ensures Select(after, Without(s, gone), part) == Select(doc, s, part)
  {
    if s != [] {
      assert s[0] in s && forall x :: x in s[1..] ==> x in s;
      SelectWithout(doc, after, s[1..], gone, part);
      SelectAppend(after, Kept(s[0], gone), Without(s[1..], gone), part);
    }
  }

  lemma {:induction false} RestIsSelected(doc: Doc, s: seq<NodeId>, generated: set<NodeId>)
    requires forall x :: x in s ==> (x !in generated <==> PartOf(doc, x) == Rest)
    ensures Without(s, generated) == Select(doc, s, Rest)
  {
    if s != [] {
      assert s[0] in s && forall x :: x in s[1..] ==> x in s;
      RestIsSelected(doc, s[1..], generated);
    }
  }

  function FoundRefs(doc: Doc, list: seq<NodeId>, hits: seq<NodeId>): seq<NodeId> {
    if hits == [] then []
    else (match FirstRef(doc, list, hits[0]) case None => [] case Some(c) => [c]) + FoundRefs(doc, list, hits[1..])
  }

  /** The references that stand for the hits, in hit order. */
  ghost predicate InHitOrder(refs: seq<NodeId>, refOf: map<NodeId, NodeId>, hits: seq<NodeId>) {
    |refs| == |hits| && forall i :: 0 <= i < |hits| ==> hits[i] in refOf && refs[i] == refOf[hits[i]]
  }

  lemma {:induction false} FoundInHitOrder(doc: Doc, list: seq<NodeId>, hits: seq<NodeId>, refOf: map<NodeId, NodeId>)
    requires forall t :: t in hits ==> t in refOf && FirstRef(doc, list, t) == Some(refOf[t])
    ensures InHitOrder(FoundRefs(doc, list, hits), refOf, hits)
  {
    if hits != [] {
      assert hits[0] in hits && forall t :: t in hits[1..] ==> t in hits;
      FoundInHitOrder(doc, list, hits[1..], refOf);
    }
  }

  lemma {:induction false} OnlyRefIsFirst(doc: Doc, s: seq<NodeId>, t: NodeId, c: NodeId)
    requires c in s && RefersTo(doc, c, t) && forall x :: x in s && RefersTo(doc, x, t) ==> x == c
    ensures FirstRef(doc, s, t) == Some(c)
  {
    FirstRefFinds(doc, s, t);
  }

  /** The setting in which the children are put in order. */
  ghost predicate Matched(doc: Doc, p: NodeId, existing: map<NodeId, NodeId>, made: map<NodeId, NodeId>,
                          refOf: map<NodeId, NodeId>, hits: seq<NodeId>, created: seq<NodeId>)
  {
    && p in doc && Indexes(doc, doc[p].children, existing) && Assigned(doc, p, existing, made, refOf, hits)
    && Distinct(doc[p].children) && Distinct(created) && (forall c :: c in created <==> c in made)
    && p !in doc[p].children && (forall c :: c in doc[p].children ==> c in doc) && Distinct(hits)
  }

  function Gone(doc: Doc, p: NodeId, existing: map<NodeId, NodeId>, hits: seq<NodeId>): set<NodeId>
    requires p in doc
  {
    Repeats(doc, doc[p].children) + Unmatched(existing, Members(hits), {})
  }

  /** A child that stays and refers somewhere is the one assigned to a hit. */
  lemma StayingRef(doc: Doc, p: NodeId, existing: map<NodeId, NodeId>, hits: seq<NodeId>, c: NodeId)
    requires p in doc && Indexes(doc, doc[p].children, existing) && c in doc[p].children && IsResult(doc, c)
    ensures c !in Gone(doc, p, existing, hits) <==>
      doc[c].target.value in hits && doc[c].target.value in existing && existing[doc[c].target.value] == c
  {
    var t := doc[c].target.value;
    FirstRefFinds(doc, doc[p].children, t);
    if FirstRef(doc, doc[p].children, t) == Some(c) {
      assert t in existing && existing[t] == c;
      forall u | u in existing && existing[u] == c ensures u == t { FirstRefFinds(doc, doc[p].children, u); }
    }
  }

  function Latest(doc: Doc, p: NodeId, existing: map<NodeId, NodeId>, made: map<NodeId, NodeId>, hits: seq<NodeId>, created: seq<NodeId>): Doc
    requires p in doc
  {
    Rebuilt(doc, p, Gone(doc, p, existing, hits), made, LatestList(doc, p, existing, hits, created))
  }

  function LatestList(doc: Doc, p: NodeId, existing: map<NodeId, NodeId>, hits: seq<NodeId>, created: seq<NodeId>): seq<NodeId>
    requires p in doc
  {
    Without(doc[p].children, Gone(doc, p, existing, hits)) + created
  }

  lemma GoneAreResults(doc: Doc, p: NodeId, existing: map<NodeId, NodeId>, hits: seq<NodeId>)
    requires p in doc && Indexes(doc, doc[p].children, existing)
    ensures forall c :: c in Gone(doc, p, existing, hits) ==> c in doc[p].children && IsResult(doc, c)
  {
    forall t | t in existing ensures existing[t] in doc[p].children && IsResult(doc, existing[t]) {
      FirstRefFinds(doc, doc[p].children, t);
    }
  }

  lemma LatestParts(doc: Doc, p: NodeId, existing: map<NodeId, NodeId>, made: map<NodeId, NodeId>,
                    refOf: map<NodeId, NodeId>, hits: seq<NodeId>, created: seq<NodeId>)
    requires Matched(doc, p, existing, made, refOf, hits, created)
    ensures var latest := Latest(doc, p, existing, made, hits, created);
      && (forall c :: c in doc[p].children && c !in Gone(doc, p, existing, hits) ==> c in latest && latest[c] == doc[c])
      && (forall c :: c in made ==> c in latest && RefersTo(latest, c, made[c]))
  {
    GoneAreResults(doc, p, existing, hits);
    hide Gone;
  }

  lemma OneRef(doc: Doc, p: NodeId, existing: map<NodeId, NodeId>, made: map<NodeId, NodeId>,
               refOf: map<NodeId, NodeId>, hits: seq<NodeId>, created: seq<NodeId>, t: NodeId)
    requires Matched(doc, p, existing, made, refOf, hits, created) && t in hits
    ensures var latest, list := Latest(doc, p, existing, made, hits, created), LatestList(doc, p, existing, hits, created);
      t in refOf && refOf[t] in list && FirstRef(latest, list, t) == Some(refOf[t])
  {
    var latest, list := Latest(doc, p, existing, made, hits, created), LatestList(doc, p, existing, hits, created);
    var gone := Gone(doc, p, existing, hits);
    LatestParts(doc, p, existing, made, refOf, hits, created);
    InWithout(doc[p].children, gone);
    hide Gone, Latest;
    if t in existing {
      FirstRefFinds(doc, doc[p].children, t);
      StayingRef(doc, p, existing, hits, refOf[t]);
    }
    forall x | x in list && RefersTo(latest, x, t) ensures x == refOf[t] {
      if x !in created { StayingRef(doc, p, existing, hits, x); }
    }
    OnlyRefIsFirst(latest, list, t, refOf[t]);
  }

  /** Every targeted reference in the latest list stands for a hit. */
  lemma ResultIsRef(doc: Doc, p: NodeId, existing: map<NodeId, NodeId>, made: map<NodeId, NodeId>,
                    refOf: map<NodeId, NodeId>, hits: seq<NodeId>, created: seq<NodeId>, c: NodeId)
    requires Matched(doc, p, existing, made, refOf, hits, created) && c in LatestList(doc, p, existing, hits, created)
    requires IsResult(Latest(doc, p, existing, made, hits, created), c)
    ensures exists i :: 0 <= i < |hits| && hits[i] in refOf && refOf[hits[i]] == c
  {
    LatestParts(doc, p, existing, made, refOf, hits, created);
    InWithout(doc[p].children, Gone(doc, p, existing, hits));
    hide Gone;
    if c in made {
      var i :| 0 <= i < |hits| && hits[i] == made[c];
    } else {
      StayingRef(doc, p, existing, hits, c);
      var i :| 0 <= i < |hits| && hits[i] == doc[c].target.value;
    }
  }

  function Layout(doc: Doc, children: seq<NodeId>, refs: seq<NodeId>): seq<NodeId> {
    Select(doc, children, Condition) + refs + Select(doc, children, Rest)
  }

  lemma RefsAreResults(doc: Doc, p: NodeId, existing: map<NodeId, NodeId>, made: map<NodeId, NodeId>,
                       refOf: map<NodeId, NodeId>, hits: seq<NodeId>, created: seq<NodeId>)
    requires Matched(doc, p, existing, made, refOf, hits, created)
    ensures var latest, list := Latest(doc, p, existing, made, hits, created), LatestList(doc, p, existing, hits, created);
      var refs := FoundRefs(latest, list, hits);
      && InHitOrder(refs, refOf, hits) && Distinct(refs)
      && forall c :: c in refs <==> c in list && IsResult(latest, c)
  {
    var latest, list := Latest(doc, p, existing, made, hits, created), LatestList(doc, p, existing, hits, created);
    var refs := FoundRefs(latest, list, hits);
    forall t | t in hits ensures t in refOf && FirstRef(latest, list, t) == Some(refOf[t]) && refOf[t] in list && RefersTo(latest, refOf[t], t) {
      OneRef(doc, p, existing, made, refOf, hits, created, t);
      FirstRefFinds(latest, list, t);
    }
    FoundInHitOrder(latest, list, hits, refOf);
    hide Latest, LatestList, Assigned, Indexes;
    forall i, j | 0 <= i < j < |refs| ensures refs[i] != refs[j] { assert hits[i] in hits && hits[j] in hits; }
    forall c | c in refs ensures c in list && IsResult(latest, c) {
      var i :| 0 <= i < |refs| && refs[i] == c;
      assert hits[i] in hits;
    }
    forall c | c in list && IsResult(latest, c) ensures c in refs {
      ResultIsRef(doc, p, existing, made, refOf, hits, created, c);
      var i :| 0 <= i < |hits| && hits[i] in refOf && refOf[hits[i]] == c;
      assert refs[i] == c;
    }
  }

  /** The lists the code computes from the latest state are the layout of the old children around the references. */
  lemma FinalOrder(doc: Doc, p: NodeId, existing: map<NodeId, NodeId>, made: map<NodeId, NodeId>,
                   refOf: map<NodeId, NodeId>, hits: seq<NodeId>, created: seq<NodeId>)
    requires Matched(doc, p, existing, made, refOf, hits, created)
    ensures var latest, list := Latest(doc, p, existing, made, hits, created), LatestList(doc, p, existing, hits, created);
      var refs := FoundRefs(latest, list, hits);
      var conditions := Select(latest, list, Condition);
      var others := Without(list, Members(conditions + refs));
      && InHitOrder(refs, refOf, hits)
      && conditions + refs + others == Layout(doc, doc[p].children, refs)
      && Permuted(list, conditions + refs + others)
  {
    var latest, list := Latest(doc, p, existing, made, hits, created), LatestList(doc, p, existing, hits, created);
    var refs, conditions := FoundRefs(latest, list, hits), Select(latest, list, Condition);
    RefsAreResults(doc, p, existing, made, refOf, hits, created);
    InSelect(latest, list, Condition);
    RestIsSelected(latest, list, Members(conditions + refs));
    InSelect(latest, list, Rest);
    SelectsOld(doc, p, existing, made, refOf, hits, created, Condition);
    SelectsOld(doc, p, existing, made, refOf, hits, created, Rest);
    ListDistinct(doc, p, existing, made, refOf, hits, created);
    hide Latest, LatestList, Select, FoundRefs, Without, Matched, InHitOrder;
    ThreeParts(conditions, refs, Select(latest, list, Rest));
  }

  lemma ThreeParts(a: seq<NodeId>, b: seq<NodeId>, c: seq<NodeId>)
    requires Distinct(a) && Distinct(b) && Distinct(c)
    requires (forall x :: x in a ==> x !in b && x !in c) && (forall x :: x in b ==> x !in c)
    ensures Distinct(a + b + c)
  {
    TwoParts(a, b);
    TwoParts(a + b, c);
  }

  lemma SelectsOld(doc: Doc, p: NodeId, existing: map<NodeId, NodeId>, made: map<NodeId, NodeId>,
                   refOf: map<NodeId, NodeId>, hits: seq<NodeId>, created: seq<NodeId>, part: Part)
    requires Matched(doc, p, existing, made, refOf, hits, created) && part != Result
    ensures Select(Latest(doc, p, existing, made, hits, created), LatestList(doc, p, existing, hits, created), part)
      == Select(doc, doc[p].children, part)
  {
    var latest, gone := Latest(doc, p, existing, made, hits, created), Gone(doc, p, existing, hits);
    LatestParts(doc, p, existing, made, refOf, hits, created);
    GoneAreResults(doc, p, existing, hits);
    hide Gone, Latest;
    SelectWithout(doc, latest, doc[p].children, gone, part);
    SelectNone(latest, created, part);
    SelectAppend(latest, Without(doc[p].children, gone), created, part);
  }

  lemma ListDistinct(doc: Doc, p: NodeId, existing: map<NodeId, NodeId>, made: map<NodeId, NodeId>,
                     refOf: map<NodeId, NodeId>, hits: seq<NodeId>, created: seq<NodeId>)
    requires Matched(doc, p, existing, made, refOf, hits, created)
    ensures Distinct(LatestList(doc, p, existing, hits, created))
  {
    var gone := Gone(doc, p, existing, hits);
    InWithout(doc[p].children, gone);
    WithoutDistinct(doc[p].children, gone);
    hide Gone, Without, Indexes;
    TwoParts(Without(doc[p].children, gone), created);
  }

  // ----- Being arranged -----

  /** The children are the conditions, one reference per hit in hit order, and the rest. */
  ghost predicate IsArranged(doc: Doc, p: NodeId, hits: seq<NodeId>) {
    && p in doc
    && var refs := Select(doc, doc[p].children, Result);
      && |refs| == |hits| && (forall i :: 0 <= i < |refs| ==> RefersTo(doc, refs[i], hits[i]))
      && doc[p].children == Layout(doc, doc[p].children, refs)
  }

  lemma ArrangedFirst(doc: Doc, p: NodeId, hits: seq<NodeId>, i: nat)
    requires IsArranged(doc, p, hits) && Distinct(hits) && i < |hits|
    ensures FirstRef(doc, doc[p].children, hits[i]) == Some(Select(doc, doc[p].children, Result)[i])
  {
    var children, refs := doc[p].children, Select(doc, doc[p].children, Result);
    InSelect(doc, children, Result);
    assert refs[i] in refs;
    forall x | x in children && RefersTo(doc, x, hits[i]) ensures x == refs[i] {
      assert x in refs;
      var j :| 0 <= j < |refs| && refs[j] == x;
    }
    OnlyRefIsFirst(doc, children, hits[i], refs[i]);
  }

  lemma ArrangedNeedsNothing(doc: Doc, p: NodeId, hits: seq<NodeId>, existing: map<NodeId, NodeId>)
    requires IsArranged(doc, p, hits) && Distinct(hits) && Indexes(doc, doc[p].children, existing)
    ensures Gone(doc, p, existing, hits) == {} && Repeats(doc, doc[p].children) == {}
    ensures Unmatched(existing, Members(hits), {}) == {} && forall t :: t in hits ==> t in existing
    ensures forall i :: 0 <= i < |hits| ==> existing[hits[i]] == Select(doc, doc[p].children, Result)[i]
  {
    var children, refs := doc[p].children, Select(doc, doc[p].children, Result);
    forall i | 0 <= i < |hits| ensures hits[i] in existing && existing[hits[i]] == refs[i] { ArrangedFirst(doc, p, hits, i); }
    InSelect(doc, children, Result);
    forall c | c in children && IsResult(doc, c) ensures FirstRef(doc, children, doc[c].target.value) == Some(c) && doc[c].target.value in hits {
      assert c in refs;
      var i :| 0 <= i < |refs| && refs[i] == c;
      ArrangedFirst(doc, p, hits, i);
    }
    forall t | t in existing ensures t in hits { FirstRefFinds(doc, children, t); }
  }

  lemma {:induction false} SelectAll(doc: Doc, s: seq<NodeId>, part: Part)
    requires forall x :: x in s ==> PartOf(doc, x) == part
    ensures Select(doc, s, part) == s
  {
    if s != [] {
      assert s[0] in s && forall x :: x in s[1..] ==> x in s;
      SelectAll(doc, s[1..], part);
    }
  }

  lemma SelectsParts(doc: Doc, a: seq<NodeId>, b: seq<NodeId>, c: seq<NodeId>)
    requires forall x :: x in a ==> PartOf(doc, x) == Condition
    requires forall x :: x in b ==> PartOf(doc, x) == Result
    requires forall x :: x in c ==> PartOf(doc, x) == Rest
    ensures Select(doc, a + b + c, Condition) == a
    ensures Select(doc, a + b + c, Result) == b
    ensures Select(doc, a + b + c, Rest) == c
  {
    forall part ensures Select(doc, a + b + c, part) == Select(doc, a, part) + Select(doc, b, part) + Select(doc, c, part) {
      SelectAppend(doc, a + b, c, part);
      SelectAppend(doc, a, b, part);
    }
    SelectAll(doc, a, Condition);
    SelectAll(doc, b, Result);
    SelectAll(doc, c, Rest);
    forall part | part != Condition { SelectNone(doc, a, part); }
    forall part | part != Result { SelectNone(doc, b, part); }
    forall part | part != Rest { SelectNone(doc, c, part); }
  }

  // ----- The whole arrangement -----

  ghost predicate HitsAreNodes(doc: Doc, hits: seq<NodeId>) {
    forall t :: t in hits ==> t in doc && !doc[t].kind.Reference?
  }

  /** The targeted references that are not among the results. */
  function Surplus(doc: Doc, children: seq<NodeId>, refs: seq<NodeId>): set<NodeId> {
    set c | c in children && IsResult(doc, c) && c !in refs
  }

  /** What the arrangement does to a document: which references stay, which are made, which go. */
  ghost predicate Rearranged(doc: Doc, after: Doc, p: NodeId, hits: seq<NodeId>, refs: seq<NodeId>, made: map<NodeId, NodeId>) {
    && p in doc && made.Keys !! doc.Keys && |refs| == |hits| && Distinct(refs)
    && (forall i :: 0 <= i < |hits| ==>
      match FirstRef(doc, doc[p].children, hits[i])
      case Some(c) => refs[i] == c
      case None => refs[i] in made && made[refs[i]] == hits[i])
    && (forall c :: c in made ==> c in refs)
    && after == Rebuilt(doc, p, Surplus(doc, doc[p].children, refs), made, Layout(doc, doc[p].children, refs))
  }

  lemma GoneIsSurplus(doc: Doc, p: NodeId, existing: map<NodeId, NodeId>, made: map<NodeId, NodeId>,
                      refOf: map<NodeId, NodeId>, hits: seq<NodeId>, created: seq<NodeId>)
    requires Matched(doc, p, existing, made, refOf, hits, created)
    ensures var refs := FoundRefs(Latest(doc, p, existing, made, hits, created), LatestList(doc, p, existing, hits, created), hits);
      Gone(doc, p, existing, hits) == Surplus(doc, doc[p].children, refs) && forall c :: c in made ==> c in refs
  {
    var latest, list := Latest(doc, p, existing, made, hits, created), LatestList(doc, p, existing, hits, created);
    var refs, gone := FoundRefs(latest, list, hits), Gone(doc, p, existing, hits);
    RefsAreResults(doc, p, existing, made, refOf, hits, created);
    GoneAreResults(doc, p, existing, hits);
    LatestParts(doc, p, existing, made, refOf, hits, created);
    InWithout(doc[p].children, gone);
    hide Gone, FoundRefs, Without, Indexes, Assigned, Latest;
    forall c ensures c in gone <==> c in Surplus(doc, doc[p].children, refs) {
      assert c in list ==> c !in gone || c in created;
    }
    forall c | c in made ensures c in refs { assert c in list; }
  }

  lemma RefOfHit(doc: Doc, p: NodeId, existing: map<NodeId, NodeId>, made: map<NodeId, NodeId>,
                 refOf: map<NodeId, NodeId>, hits: seq<NodeId>, t: NodeId)
    requires p in doc && Indexes(doc, doc[p].children, existing) && Assigned(doc, p, existing, made, refOf, hits) && t in hits
    ensures t in refOf && match FirstRef(doc, doc[p].children, t)
      case Some(c) => refOf[t] == c
      case None => refOf[t] in made && made[refOf[t]] == t
  {
  }

  lemma Arranges(doc: Doc, p: NodeId, existing: map<NodeId, NodeId>, made: map<NodeId, NodeId>,
                 refOf: map<NodeId, NodeId>, hits: seq<NodeId>, created: seq<NodeId>)
    requires Matched(doc, p, existing, made, refOf, hits, created)
    ensures var latest, list := Latest(doc, p, existing, made, hits, created), LatestList(doc, p, existing, hits, created);
      var refs := FoundRefs(latest, list, hits);
      p in latest && latest[p].children == list &&
      Rearranged(doc, latest[p := latest[p].(children := Layout(doc, doc[p].children, refs))], p, hits, refs, made)
  {
    var latest, list := Latest(doc, p, existing, made, hits, created), LatestList(doc, p, existing, hits, created);
    var refs := FoundRefs(latest, list, hits);
    RefsAreResults(doc, p, existing, made, refOf, hits, created);
    GoneIsSurplus(doc, p, existing, made, refOf, hits, created);
    forall i | 0 <= i < |hits| ensures
      match FirstRef(doc, doc[p].children, hits[i])
      case Some(c) => refs[i] == c
      case None => refs[i] in made && made[refs[i]] == hits[i]
    {
      RefOfHit(doc, p, existing, made, refOf, hits, hits[i]);
    }
    GoneAreResults(doc, p, existing, hits);
    RebuiltList(doc, p, Gone(doc, p, existing, hits), made, list, Layout(doc, doc[p].children, refs));
    hide Gone, FoundRefs, Without, Layout, FirstRef, Assigned, Indexes, LatestList, Rebuilt, Surplus, IsResult, InHitOrder;
  }

  lemma RebuiltList(doc: Doc, p: NodeId, dropped: set<NodeId>, made: map<NodeId, NodeId>, list: seq<NodeId>, other: seq<NodeId>)
    requires p in doc && p !in dropped
    ensures var tree := Rebuilt(doc, p, dropped, made, list);
      p in tree && tree[p].children == list && tree[p := tree[p].(children := other)] == Rebuilt(doc, p, dropped, made, other)
  {
  }

  lemma PlacedRef(doc: Doc, after: Doc, p: NodeId, hits: seq<NodeId>, refs: seq<NodeId>, made: map<NodeId, NodeId>, i: nat)
    requires Rearranged(doc, after, p, hits, refs, made) && i < |refs|
    requires p !in doc[p].children && forall c :: c in doc[p].children ==> c in doc
    ensures refs[i] in after && refs[i] != p && RefersTo(after, refs[i], hits[i])
    ensures refs[i] in doc ==> after[refs[i]] == doc[refs[i]] && refs[i] in doc[p].children
  {
    FirstRefFinds(doc, doc[p].children, hits[i]);
  }

  /** The arrangement is arranged, whatever the children were before. */
  lemma RearrangedIsArranged(doc: Doc, after: Doc, p: NodeId, hits: seq<NodeId>, refs: seq<NodeId>, made: map<NodeId, NodeId>)
    requires Rearranged(doc, after, p, hits, refs, made)
    requires p !in doc[p].children && forall c :: c in doc[p].children ==> c in doc
    ensures IsArranged(after, p, hits)
  {
    var children := doc[p].children;
    var conditions, rest := Select(doc, children, Condition), Select(doc, children, Rest);
    InSelect(doc, children, Condition);
    InSelect(doc, children, Rest);
    forall x | x in refs ensures PartOf(after, x) == Result {
      var i :| 0 <= i < |refs| && refs[i] == x;
      PlacedRef(doc, after, p, hits, refs, made, i);
    }
    forall i | 0 <= i < |refs| ensures RefersTo(after, refs[i], hits[i]) { PlacedRef(doc, after, p, hits, refs, made, i); }
    forall x | x in conditions || x in rest ensures x in doc && x in after && after[x] == doc[x] {}
    assert after[p].children == conditions + refs + rest;
    hide Rearranged;
    SelectsParts(after, conditions, refs, rest);
  }

  /** A second arrangement for the same hits finds the same references and the same list. */
  lemma NothingToRearrange(doc: Doc, after: Doc, p: NodeId, hits: seq<NodeId>, refs: seq<NodeId>, made: map<NodeId, NodeId>)
    requires Rearranged(doc, after, p, hits, refs, made) && IsArranged(doc, p, hits) && Distinct(hits)
    ensures Layout(doc, doc[p].children, refs) == doc[p].children && after == doc
  {
    var present := Select(doc, doc[p].children, Result);
    forall i | 0 <= i < |hits| ensures refs[i] == present[i] { ArrangedFirst(doc, p, hits, i); }
    assert refs == present;
    InSelect(doc, doc[p].children, Result);
    assert Surplus(doc, doc[p].children, refs) == {};
    forall c ensures c !in made { assert c in made ==> c in refs && c in doc; }
  }

  /** Reads the latest children back and moves them into their final order. */
  method PutInOrder(loro: LoroDocument, ghost doc: Doc, p: NodeId, ghost existing: map<NodeId, NodeId>, ghost made: map<NodeId, NodeId>,
                    ghost refOf: map<NodeId, NodeId>, hits: seq<NodeId>, ghost created: seq<NodeId>)
    returns (ghost refs: seq<NodeId>)
    requires loro.Valid() && Forest(loro.tree) && Matched(doc, p, existing, made, refOf, hits, created)
    requires loro.tree == Latest(doc, p, existing, made, hits, created)
    modifies loro
    ensures loro.Valid() && Forest(loro.tree) && Rearranged(doc, loro.tree, p, hits, refs, made)
    ensures old(loro.touched) <= loro.touched && Covers(loro.touched, old(loro.tree), loro.tree)
    ensures loro.tree == old(loro.tree) ==> loro.touched == old(loro.touched)
  {
    FinalOrder(doc, p, existing, made, refOf, hits, created);
    Arranges(doc, p, existing, made, refOf, hits, created);
    hide Linked, Ranked, Rearranged, Latest, LatestList, Without, Layout, Select, FoundRefs, Matched, Permuted, InHitOrder, Covers;
    loro.Reconcile();
    var latest, list := loro.cache, loro.cache[p].children;
    var found, conditions := FoundRefs(latest, list, hits), Select(latest, list, Condition);
    refs := found;
    ReorderDirectChildren(loro, p, conditions + found + Without(list, Members(conditions + found)));
  }

  /** One reference per hit: repeats and strangers go, missing ones come. */
  method MatchReferences(loro: LoroDocument, p: NodeId, hits: seq<NodeId>, firstId: NodeId)
    returns (ghost existing: map<NodeId, NodeId>, ghost made: map<NodeId, NodeId>, ghost refOf: map<NodeId, NodeId>, ghost created: seq<NodeId>)
    requires loro.Valid() && Forest(loro.tree) && ResultsAreQuiet(loro.tree, p)
    requires Distinct(hits) && HitsAreNodes(loro.tree, hits) && forall n :: n in loro.tree ==> n < firstId
    modifies loro
    ensures loro.Valid() && Forest(loro.tree) && Matched(old(loro.tree), p, existing, made, refOf, hits, created)
    ensures loro.tree == Latest(old(loro.tree), p, existing, made, hits, created)
    ensures old(loro.touched) <= loro.touched && Covers(loro.touched, old(loro.tree), loro.tree)
    ensures IsArranged(old(loro.tree), p, hits) ==> loro.touched == old(loro.touched)
    ensures forall c :: c in made ==> c >= firstId
  {
    ghost var doc := loro.tree;
    OwnChildren(doc, p);
    var index := DropDuplicates(loro, p);
    existing := index;
    HitsStay(doc, p, existing, hits);
    if IsArranged(doc, p, hits) { ArrangedNeedsNothing(doc, p, hits, existing); }
    hide Linked, Ranked, IsArranged, Repeats, Unmatched, Left, Rebuilt, Without, Indexes, Assigned, ResultsAreQuiet, HitsAreNodes, Quiet, Covers;
    ghost var first := loro.tree;
    DropUnmatched(loro, doc, p, index, Members(hits));
    CoversBoth(loro.touched, doc, first, loro.tree);
    ghost var second := loro.tree;
    made, refOf, created := CreateMissing(loro, doc, p, hits, index, Gone(doc, p, existing, hits), firstId);
    CoversBoth(loro.touched, doc, second, loro.tree);
    IsMatched(doc, p, existing, made, refOf, hits, created);
  }

  /** The references of a search node, brought in line with the hits. */
  method ArrangeResults(loro: LoroDocument, p: NodeId, hits: seq<NodeId>, firstId: NodeId)
    returns (ghost refs: seq<NodeId>, ghost made: map<NodeId, NodeId>)
    requires loro.Valid() && Forest(loro.tree) && ResultsAreQuiet(loro.tree, p)
    requires Distinct(hits) && HitsAreNodes(loro.tree, hits) && forall n :: n in loro.tree ==> n < firstId
    modifies loro
    ensures loro.Valid() && Forest(loro.tree)
    ensures Rearranged(old(loro.tree), loro.tree, p, hits, refs, made) && IsArranged(loro.tree, p, hits)
    ensures old(loro.touched) <= loro.touched && Covers(loro.touched, old(loro.tree), loro.tree)
    ensures IsArranged(old(loro.tree), p, hits) ==> loro.tree == old(loro.tree) && loro.touched == old(loro.touched)
    ensures forall c :: c in made ==> c >= firstId
  {
    ghost var doc := loro.tree;
    OwnChildren(doc, p);
    hide Linked, Ranked, Rearranged, IsArranged, Latest, ResultsAreQuiet, HitsAreNodes, Matched, Distinct;
    ghost var existing, refOf, created;
    existing, made, refOf, created := MatchReferences(loro, p, hits, firstId);
    ghost var matched := loro.tree;
    refs := PutInOrder(loro, doc, p, existing, made, refOf, hits, created);
    CoversBoth(loro.touched, doc, matched, loro.tree);
    RearrangedIsArranged(doc, loro.tree, p, hits, refs, made);
    if IsArranged(doc, p, hits) {
      NothingToRearrange(doc, loro.tree, p, hits, refs, made);
      NothingMatched(doc, p, existing, made, refOf, hits, created);
    }
  }

  /** For an arranged node the drops and creations change nothing either. */
  lemma NothingMatched(doc: Doc, p: NodeId, existing: map<NodeId, NodeId>, made: map<NodeId, NodeId>,
                       refOf: map<NodeId, NodeId>, hits: seq<NodeId>, created: seq<NodeId>)
    requires Matched(doc, p, existing, made, refOf, hits, created) && IsArranged(doc, p, hits)
    ensures Latest(doc, p, existing, made, hits, created) == doc
  {
    ArrangedNeedsNothing(doc, p, hits, existing);
    hide IsArranged, Indexes;
    assert forall c :: c !in made;
    if created != [] {
      HasMember(created);
      assert false;
    }
    WithoutNone(doc[p].children, {});
    hide Gone;
    var latest := Latest(doc, p, existing, made, hits, created);
    assert LatestList(doc, p, existing, hits, created) == doc[p].children;
    assert forall n :: n in latest <==> n in doc;
    forall n | n in doc ensures latest[n] == doc[n] {}
  }

  lemma OwnChildren(doc: Doc, p: NodeId)
    requires Forest(doc) && ResultsAreQuiet(doc, p)
    ensures p in doc && p !in doc[p].children && Distinct(doc[p].children) && forall c :: c in doc[p].children ==> c in doc
  {
    forall c | c in doc[p].children ensures c != p { NotUnderItself(doc, c, p); }
  }

  lemma HitsStay(doc: Doc, p: NodeId, existing: map<NodeId, NodeId>, hits: seq<NodeId>)
    requires p in doc && p !in doc[p].children && Indexes(doc, doc[p].children, existing) && HitsAreNodes(doc, hits)
    requires forall c :: c in doc[p].children ==> c in doc
    ensures var gone := Gone(doc, p, existing, hits);
      p !in gone && gone <= doc.Keys && forall t :: t in hits ==> t in doc && t !in gone
    ensures Repeats(doc, doc[p].children) + Unmatched(existing, Members(hits), {}) == Gone(doc, p, existing, hits)
  {
    GoneAreResults(doc, p, existing, hits);
  }

  lemma IsMatched(doc: Doc, p: NodeId, existing: map<NodeId, NodeId>, made: map<NodeId, NodeId>,
                  refOf: map<NodeId, NodeId>, hits: seq<NodeId>, created: seq<NodeId>)
    requires p in doc && Indexes(doc, doc[p].children, existing) && Assigned(doc, p, existing, made, refOf, hits)
    requires Distinct(doc[p].children) && Distinct(created) && (forall c :: c in created <==> c in made)
    requires p !in doc[p].children && (forall c :: c in doc[p].children ==> c in doc) && Distinct(hits)
    ensures Matched(doc, p, existing, made, refOf, hits, created)
  {
  }

  // ----- Which hits are admitted -----

  /** `uniqueNodeIds`: the first occurrences, in order. */
  function Unique(s: seq<NodeId>): seq<NodeId> {
    if s == [] then []
    else
      var before := Unique(s[..|s| - 1]);
      if s[|s| - 1] in before then before else before + [s[|s| - 1]]
  }

  lemma {:induction false} UniqueHolds(s: seq<NodeId>)
    ensures Distinct(Unique(s)) && forall x :: x in Unique(s) <==> x in s
  {
    if s != [] {
      UniqueHolds(s[..|s| - 1]);
      assert s == s[..|s| - 1] + [s[|s| - 1]];
    }
  }

  /** `x` occurs before the first `y`. */
  ghost predicate Before(s: seq<NodeId>, x: NodeId, y: NodeId) {
    exists k :: 0 <= k <= |s| && x in s[..k] && y !in s[..k]
  }

  lemma BeforeAppend(s: seq<NodeId>, z: NodeId, x: NodeId, y: NodeId)
    requires Before(s, x, y) || (x in s && y !in s)
    ensures Before(s + [z], x, y)
  {
    if Before(s, x, y) {
      var k :| 0 <= k <= |s| && x in s[..k] && y !in s[..k];
      assert (s + [z])[..k] == s[..k];
    } else {
      assert (s + [z])[..|s|] == s;
    }
  }

  /** First occurrences keep their order. */
  lemma {:induction false} UniqueInOrder(s: seq<NodeId>, i: nat, j: nat)
    requires i < j < |Unique(s)|
    ensures Before(s, Unique(s)[i], Unique(s)[j])
  {
    var first, z := s[..|s| - 1], s[|s| - 1];
    assert s == first + [z];
    UniqueHolds(first);
    if j < |Unique(first)| { UniqueInOrder(first, i, j); }
    BeforeAppend(first, z, Unique(s)[i], Unique(s)[j]);
  }

  method UniqueNodeIds(nodeIds: seq<NodeId>) returns (result: seq<NodeId>)
    ensures result == Unique(nodeIds)
  {
    var seen: set<NodeId> := {};
    result := [];
    var i := 0;
    while i < |nodeIds|
      invariant 0 <= i <= |nodeIds| && result == Unique(nodeIds[..i])
      invariant forall x :: x in seen <==> x in result
    {
      var prefix := nodeIds[..i + 1];
      assert prefix[..i] == nodeIds[..i] && prefix[i] == nodeIds[i];
      if nodeIds[i] !in seen {
        seen, result := seen + {nodeIds[i]}, result + [nodeIds[i]];
      }
      i := i + 1;
    }
    assert nodeIds[..i] == nodeIds;
  }

  function Parent(doc: Doc, n: NodeId): seq<NodeId> {
    if n in doc && doc[n].parent.Some? then [doc[n].parent.value] else []
  }

  ghost function ParentIn(doc: Doc): ReferenceCycle.Edges {
    n => Parent(doc, n)
  }

  ghost predicate InTrash(doc: Doc, n: NodeId) {
    ReferenceCycle.Reaches(ParentIn(doc), n, TRASH_ID)
  }

  ghost predicate Admissible(doc: Doc, p: NodeId, t: NodeId) {
    t in doc && !InTrash(doc, t) && !ReferenceCycle.Reaches(ReferenceCycle.ShownIn(doc), t, p)
  }

  ghost function Admitted(doc: Doc, p: NodeId, s: seq<NodeId>): seq<NodeId> {
    if s == [] then []
    else Admitted(doc, p, s[..|s| - 1]) + if Admissible(doc, p, s[|s| - 1]) then [s[|s| - 1]] else []
  }

  lemma {:induction false} AdmittedHolds(doc: Doc, p: NodeId, s: seq<NodeId>)
    ensures forall x :: x in Admitted(doc, p, s) <==> x in s && Admissible(doc, p, x)
    ensures Distinct(s) ==> Distinct(Admitted(doc, p, s))
  {
    hide Admissible;
    if s != [] {
      AdmittedHolds(doc, p, s[..|s| - 1]);
      assert s == s[..|s| - 1] + [s[|s| - 1]];
    }
  }

  lemma {:induction false} AdmittedInOrder(doc: Doc, p: NodeId, s: seq<NodeId>, i: nat, j: nat)
    requires Distinct(s) && i < j < |Admitted(doc, p, s)|
    ensures Before(s, Admitted(doc, p, s)[i], Admitted(doc, p, s)[j])
  {
    hide Admissible;
    var first, z := s[..|s| - 1], s[|s| - 1];
    assert s == first + [z];
    AdmittedHolds(doc, p, first);
    if j < |Admitted(doc, p, first)| { AdmittedInOrder(doc, p, first, i, j); }
    BeforeAppend(first, z, Admitted(doc, p, s)[i], Admitted(doc, p, s)[j]);
  }

  method IsInTrash(doc: Doc, n: NodeId) returns (r: bool)
    requires Forest(doc)
    ensures r <==> InTrash(doc, n)
  {
    ghost var rank :| Ranked(doc, rank);
    ghost var next := ParentIn(doc);
    var current := n;
    ReferenceCycle.ReachesItself(next, n);
    while current in doc && doc[current].parent.Some? && current != TRASH_ID
      invariant ReferenceCycle.Reaches(next, n, current)
      invariant ReferenceCycle.Reaches(next, n, TRASH_ID) ==> ReferenceCycle.Reaches(next, current, TRASH_ID)
      decreases if current in doc then rank[current] else 0
    {
      assert ListedByParent(doc, current) && BelowParent(doc, rank, current);
      ReferenceCycle.ReachesOnward(next, n, current, doc[current].parent.value);
      OnlyStep(doc, current, TRASH_ID);
      hide ReferenceCycle.Reaches;
      current := doc[current].parent.value;
    }
    r := current == TRASH_ID;
    if !r { OnlyStep(doc, current, TRASH_ID); }
  }

  lemma OnlyStep(doc: Doc, n: NodeId, a: NodeId)
    requires n != a
    ensures ReferenceCycle.Reaches(ParentIn(doc), n, a) ==>
      Parent(doc, n) != [] && ReferenceCycle.Reaches(ParentIn(doc), Parent(doc, n)[0], a)
  {
    if ReferenceCycle.Reaches(ParentIn(doc), n, a) {
      var path :| ReferenceCycle.Connects(ParentIn(doc), path, n, a);
      assert path[0 + 1] in Parent(doc, path[0]);
      ReferenceCycle.Slice(ParentIn(doc), path, 1, |path|);
      assert ReferenceCycle.Connects(ParentIn(doc), path[1..|path|], path[1], a);
    }
  }

  // ----- The arrangement seen from outside -----

  lemma {:induction false} SameStepList(doc: Doc, after: Doc, children: seq<NodeId>)
    requires forall c :: c in children ==> ReferenceCycle.Step(after, c) == ReferenceCycle.Step(doc, c)
    ensures ReferenceCycle.Steps(after, children) == ReferenceCycle.Steps(doc, children)
  {
    if children != [] {
      assert children[0] in children && forall c :: c in children[1..] ==> c in children;
      SameStepList(doc, after, children[1..]);
    }
  }

  ghost predicate Setting(doc: Doc, after: Doc, p: NodeId, hits: seq<NodeId>, refs: seq<NodeId>, made: map<NodeId, NodeId>) {
    Forest(doc) && ResultsAreQuiet(doc, p) && Rearranged(doc, after, p, hits, refs, made) && HitsAreNodes(doc, hits)
  }

  lemma StayersStay(doc: Doc, after: Doc, p: NodeId, hits: seq<NodeId>, refs: seq<NodeId>, made: map<NodeId, NodeId>, n: NodeId)
    requires Setting(doc, after, p, hits, refs, made) && n in doc
    ensures var gone := Surplus(doc, doc[p].children, refs);
      if n in gone then n !in after && doc[n].children == [] && doc[n].parent == Some(p)
      else n in after && after[n].(children := doc[n].children) == doc[n] && (n != p ==> after[n] == doc[n])
  {
  }

  /** Only the search node itself shows something else than before. */
  lemma ShownElsewhere(doc: Doc, after: Doc, p: NodeId, hits: seq<NodeId>, refs: seq<NodeId>, made: map<NodeId, NodeId>)
    requires Setting(doc, after, p, hits, refs, made)
    ensures ReferenceCycle.SameElsewhere(ReferenceCycle.ShownIn(doc), ReferenceCycle.ShownIn(after), p)
  {
    forall n | n != p ensures ReferenceCycle.Shown(after, n) == ReferenceCycle.Shown(doc, n) {
      if n in doc {
        StayersStay(doc, after, p, hits, refs, made, n);
        if n in after {
          forall c | c in doc[n].children ensures ReferenceCycle.Step(after, c) == ReferenceCycle.Step(doc, c) {
            StayersStay(doc, after, p, hits, refs, made, c);
          }
          SameStepList(doc, after, doc[n].children);
        }
      }
    }
  }

  lemma ShownBySearch(doc: Doc, after: Doc, p: NodeId, hits: seq<NodeId>, refs: seq<NodeId>, made: map<NodeId, NodeId>, m: NodeId)
    requires Setting(doc, after, p, hits, refs, made) && m in ReferenceCycle.Shown(after, p)
    ensures m in hits || m in ReferenceCycle.Shown(doc, p)
  {
    OwnChildren(doc, p);
    ReferenceCycle.InSteps(after, after[p].children, m);
    ReferenceCycle.InSteps(doc, doc[p].children, m);
    var c :| c in after[p].children && m in ReferenceCycle.Step(after, c);
    if i :| 0 <= i < |refs| && refs[i] == c {
      PlacedRef(doc, after, p, hits, refs, made, i);
    } else {
      InSelect(doc, doc[p].children, Condition);
      InSelect(doc, doc[p].children, Rest);
      assert c in doc[p].children;
      StayersStay(doc, after, p, hits, refs, made, c);
    }
  }

  /** Checking every hit against the document as it was before the change keeps the whole display free of cycles. */
  lemma ArrangingKeepsAcyclic(doc: Doc, after: Doc, p: NodeId, hits: seq<NodeId>, refs: seq<NodeId>, made: map<NodeId, NodeId>)
    requires Setting(doc, after, p, hits, refs, made)
    requires forall t :: t in hits ==> Admissible(doc, p, t)
    requires ReferenceCycle.Acyclic(ReferenceCycle.ShownIn(doc))
    ensures ReferenceCycle.Acyclic(ReferenceCycle.ShownIn(after))
  {
    hide Setting, ReferenceCycle.Acyclic, ReferenceCycle.Reaches, ReferenceCycle.Shown, InTrash;
    var before, next := ReferenceCycle.ShownIn(doc), ReferenceCycle.ShownIn(after);
    ShownElsewhere(doc, after, p, hits, refs, made);
    forall m | m in next(p) ensures !ReferenceCycle.Reaches(before, m, p) {
      ShownBySearch(doc, after, p, hits, refs, made, m);
      if m !in hits { ReferenceCycle.NoWayBack(before, p, m); }
    }
    ReferenceCycle.StaysAcyclic(before, next, p);
  }

  /** What stays has the same chain of parents. */
  lemma SameParents(doc: Doc, after: Doc, p: NodeId, hits: seq<NodeId>, refs: seq<NodeId>, made: map<NodeId, NodeId>)
    requires Setting(doc, after, p, hits, refs, made)
    ensures var stay := doc.Keys - Surplus(doc, doc[p].children, refs);
      && (forall n :: n in stay ==> Parent(after, n) == Parent(doc, n))
      && (forall n, m :: n in stay && m in Parent(doc, n) ==> m in stay)
  {
    var stay := doc.Keys - Surplus(doc, doc[p].children, refs);
    forall n | n in stay ensures Parent(after, n) == Parent(doc, n) && forall m :: m in Parent(doc, n) ==> m in stay {
      StayersStay(doc, after, p, hits, refs, made, n);
      assert ListedByParent(doc, n);
      if doc[n].parent.Some? { StayersStay(doc, after, p, hits, refs, made, doc[n].parent.value); }
    }
  }

  /** The same evaluation admits the same hits again. */
  lemma AdmitsAlike(doc: Doc, after: Doc, p: NodeId, hits: seq<NodeId>, refs: seq<NodeId>, made: map<NodeId, NodeId>, t: NodeId)
    requires Setting(doc, after, p, hits, refs, made) && t !in made && (t in doc ==> !doc[t].kind.Reference?)
    ensures Admissible(after, p, t) <==> Admissible(doc, p, t)
  {
    if t in doc {
      StayersStay(doc, after, p, hits, refs, made, t);
      ShownElsewhere(doc, after, p, hits, refs, made);
      SameParents(doc, after, p, hits, refs, made);
      var stay := doc.Keys - Surplus(doc, doc[p].children, refs);
      assert t in stay;
      hide Setting, ReferenceCycle.Shown, Parent;
      AlikeBothWays(doc, after, p, t, stay);
    }
  }

  lemma AlikeBothWays(doc: Doc, after: Doc, p: NodeId, t: NodeId, stay: set<NodeId>)
    requires ReferenceCycle.SameElsewhere(ReferenceCycle.ShownIn(doc), ReferenceCycle.ShownIn(after), p)
    requires t in stay && forall n :: n in stay ==> Parent(after, n) == Parent(doc, n)
    requires forall n, m :: n in stay && m in Parent(doc, n) ==> m in stay
    ensures InTrash(after, t) <==> InTrash(doc, t)
    ensures ReferenceCycle.Reaches(ReferenceCycle.ShownIn(after), t, p) <==> ReferenceCycle.Reaches(ReferenceCycle.ShownIn(doc), t, p)
  {
    var before, next := ReferenceCycle.ShownIn(doc), ReferenceCycle.ShownIn(after);
    if InTrash(doc, t) { ReferenceCycle.ReachesInside(ParentIn(doc), ParentIn(after), stay, t, TRASH_ID); }
    if InTrash(after, t) { ReferenceCycle.ReachesInside(ParentIn(after), ParentIn(doc), stay, t, TRASH_ID); }
    if ReferenceCycle.Reaches(before, t, p) {
      var path :| ReferenceCycle.Connects(before, path, t, p);
      ReferenceCycle.ReachedAlike(before, next, p, t, path);
    }
    if ReferenceCycle.Reaches(next, t, p) {
      var path :| ReferenceCycle.Connects(next, path, t, p);
      ReferenceCycle.ReachedAlike(next, before, p, t, path);
    }
  }

  lemma {:induction false} AdmittedAlike(doc: Doc, after: Doc, p: NodeId, s: seq<NodeId>)
    requires forall t :: t in s ==> (Admissible(after, p, t) <==> Admissible(doc, p, t))
    ensures Admitted(after, p, s) == Admitted(doc, p, s)
  {
    hide Admissible;
    if s != [] { AdmittedAlike(doc, after, p, s[..|s| - 1]); }
  }

  // ----- The command -----

  method AdmitHits(doc: Doc, p: NodeId, ids: seq<NodeId>) returns (hits: seq<NodeId>)
    requires Forest(doc)
    ensures hits == Admitted(doc, p, ids)
  {
    hide Forest, InTrash, ReferenceCycle.Reaches;
    hits := [];
    var i := 0;
    while i < |ids|
      invariant 0 <= i <= |ids| && hits == Admitted(doc, p, ids[..i])
    {
      var prefix := ids[..i + 1];
      assert prefix[..i] == ids[..i] && prefix[i] == ids[i];
      var trashed := IsInTrash(doc, ids[i]);
      var loops := ReferenceCycle.WouldCreateReferenceCycle(doc, p, ids[i]);
      if ids[i] in doc && !trashed && !loops { hits := hits + [ids[i]]; }
      i := i + 1;
    }
    assert ids[..i] == ids;
  }

  /** The evaluation finds nodes of the document, and no references; ids up to `firstId` may be in use. */
  ghost predicate Evaluated(doc: Doc, ids: seq<NodeId>, firstId: NodeId) {
    && (forall n :: n in doc ==> n < firstId)
    && forall t :: t in ids ==> t < firstId && (t in doc ==> !doc[t].kind.Reference?)
  }

  /** The hits of an evaluation that a search node lists. */
  ghost function Hits(doc: Doc, p: NodeId, ids: seq<NodeId>): seq<NodeId> {
    Admitted(doc, p, Unique(ids))
  }

  lemma HitsFit(doc: Doc, p: NodeId, ids: seq<NodeId>, firstId: NodeId)
    requires Evaluated(doc, ids, firstId)
    ensures Distinct(Hits(doc, p, ids)) && HitsAreNodes(doc, Hits(doc, p, ids))
    ensures forall t :: t in Hits(doc, p, ids) ==> Admissible(doc, p, t)
  {
    UniqueHolds(ids);
    AdmittedHolds(doc, p, Unique(ids));
    hide Unique, Admitted, InTrash;
  }

  /** The hits come in the order in which the evaluation names them first. */
  lemma HitsInOrder(doc: Doc, p: NodeId, ids: seq<NodeId>, i: nat, j: nat)
    requires i < j < |Hits(doc, p, ids)|
    ensures Before(ids, Hits(doc, p, ids)[i], Hits(doc, p, ids)[j])
  {
    var unique, x, y := Unique(ids), Hits(doc, p, ids)[i], Hits(doc, p, ids)[j];
    UniqueHolds(ids);
    AdmittedHolds(doc, p, unique);
    AdmittedInOrder(doc, p, unique, i, j);
    assert y in Admitted(doc, p, unique);
    hide Unique, Admitted, Admissible;
    var k :| 0 <= k <= |unique| && x in unique[..k] && y !in unique[..k];
    var a :| 0 <= a < k && unique[..k][a] == x;
    forall b | 0 <= b < k ensures unique[b] in unique[..k] { assert unique[..k][b] == unique[b]; }
    var b :| 0 <= b < |unique| && unique[b] == y;
    UniqueInOrder(ids, a, b);
  }

  /** What is listed: a node that the evaluation names, that is there and not in the trash, and that does not show the search. */
  ghost predicate BelongsThere(doc: Doc, p: NodeId, ids: seq<NodeId>, t: NodeId) {
    && t in ids && t in doc && !ReferenceCycle.Reaches(ParentIn(doc), t, TRASH_ID)
    && !ReferenceCycle.Reaches(ReferenceCycle.ShownIn(doc), t, p)
  }

  /** Conditions come first, then references with a target, then everything else. */
  function RankOf(doc: Doc, c: NodeId): nat {
    if c in doc && doc[c].kind.QueryCondition? then 0
    else if c in doc && doc[c].kind.Reference? && doc[c].target.Some? then 1
    else 2
  }

  ghost predicate InThreeParts(doc: Doc, children: seq<NodeId>) {
    forall i, j :: 0 <= i < j < |children| ==> RankOf(doc, children[i]) <= RankOf(doc, children[j])
  }

  lemma LaidOutInParts(doc: Doc, children: seq<NodeId>)
    requires children == Layout(doc, children, Select(doc, children, Result))
    ensures InThreeParts(doc, children)
  {
    var one, two, three := Select(doc, children, Condition), Select(doc, children, Result), Select(doc, children, Rest);
    RankOfPart(doc, children, Condition, 0);
    RankOfPart(doc, children, Result, 1);
    RankOfPart(doc, children, Rest, 2);
    assert children == one + two + three;
    hide Select, Layout, RankOf, PartOf;
    forall i, j | 0 <= i < j < |children| ensures RankOf(doc, children[i]) <= RankOf(doc, children[j]) {
      InOneOfThree(one, two, three, i);
      InOneOfThree(one, two, three, j);
    }
  }

  lemma RankOfPart(doc: Doc, children: seq<NodeId>, part: Part, rank: nat)
    requires rank == if part.Condition? then 0 else if part.Result? then 1 else 2
    ensures forall c :: c in Select(doc, children, part) ==> RankOf(doc, c) == rank
  {
    InSelect(doc, children, part);
  }

  lemma InOneOfThree(one: seq<NodeId>, two: seq<NodeId>, three: seq<NodeId>, i: nat)
    requires i < |one + two + three|
    ensures var x := (one + two + three)[i];
      if i < |one| then x in one else if i < |one| + |two| then x in two else x in three
  {
  }

  /** In an arranged node just those are listed, in the order in which the evaluation names them first. */
  ghost predicate ListsExactly(doc: Doc, p: NodeId, ids: seq<NodeId>) {
    && p in doc && InThreeParts(doc, doc[p].children)
    && (forall t :: BelongsThere(doc, p, ids, t) <==> exists c :: c in doc[p].children && RefersTo(doc, c, t))
    && var refs := Select(doc, doc[p].children, Result);
       forall i, j :: 0 <= i < j < |refs| ==>
         IsResult(doc, refs[i]) && IsResult(doc, refs[j]) && Before(ids, doc[refs[i]].target.value, doc[refs[j]].target.value)
  }

  lemma ArrangedListsExactly(doc: Doc, p: NodeId, ids: seq<NodeId>)
    requires IsArranged(doc, p, Hits(doc, p, ids))
    ensures ListsExactly(doc, p, ids)
  {
    var children, hits := doc[p].children, Hits(doc, p, ids);
    var refs := Select(doc, children, Result);
    InSelect(doc, children, Result);
    LaidOutInParts(doc, children);
    UniqueHolds(ids);
    AdmittedHolds(doc, p, Unique(ids));
    forall t ensures BelongsThere(doc, p, ids, t) <==> t in hits {}
    hide Hits, Unique, Admitted, Admissible, BelongsThere, Select, ReferenceCycle.Reaches, InTrash, Layout;
    forall t ensures BelongsThere(doc, p, ids, t) <==> exists c :: c in children && RefersTo(doc, c, t) {
      if c :| c in children && RefersTo(doc, c, t) {
        assert c in refs;
        var i :| 0 <= i < |refs| && refs[i] == c;
        assert hits[i] == t;
      }
      if t in hits {
        var i :| 0 <= i < |hits| && hits[i] == t;
        assert refs[i] in refs && RefersTo(doc, refs[i], t);
      }
    }
    forall i, j | 0 <= i < j < |refs|
      ensures IsResult(doc, refs[i]) && IsResult(doc, refs[j]) && Before(ids, doc[refs[i]].target.value, doc[refs[j]].target.value)
    {
      HitsInOrder(doc, p, ids, i, j);
    }
  }

  lemma HitsAgain(doc: Doc, after: Doc, p: NodeId, ids: seq<NodeId>, firstId: NodeId, refs: seq<NodeId>, made: map<NodeId, NodeId>)
    requires Setting(doc, after, p, Hits(doc, p, ids), refs, made) && Evaluated(doc, ids, firstId)
    requires forall c :: c in made ==> c >= firstId
    ensures Hits(after, p, ids) == Hits(doc, p, ids)
  {
    UniqueHolds(ids);
    hide Setting, Unique, Admissible, Admitted;
    forall t | t in Unique(ids) ensures Admissible(after, p, t) <==> Admissible(doc, p, t) {
      AdmitsAlike(doc, after, p, Hits(doc, p, ids), refs, made, t);
    }
    AdmittedAlike(doc, after, p, Unique(ids));
  }

  /**
   * `materializeSearchNodeResultsDirect`: the node ends up arranged for the hits admitted then and now, and a node
   * already arranged for them is not written at all.
   */
  method MaterializeSearchResults(loro: LoroDocument, p: NodeId, evaluation: Option<seq<NodeId>>, skipFailure: bool, firstId: NodeId)
    returns (r: Result<bool>, ghost refs: seq<NodeId>, ghost made: map<NodeId, NodeId>)
    requires loro.Valid() && Forest(loro.tree)
    requires p in loro.tree && loro.tree[p].kind.Search? ==> ResultsAreQuiet(loro.tree, p)
    requires evaluation.Some? ==> Evaluated(loro.tree, evaluation.value, firstId)
    modifies loro
    ensures loro.Valid() && Forest(loro.tree)
    ensures r == Ok(true) <==> p in old(loro.tree) && old(loro.tree)[p].kind.Search? && evaluation.Some?
    ensures r == Ok(false) <==> p in old(loro.tree) && old(loro.tree)[p].kind.Search? && evaluation.None? && skipFailure
    ensures r != Ok(true) ==> loro.tree == old(loro.tree) && loro.touched == old(loro.touched)
    ensures old(loro.touched) <= loro.touched && Covers(loro.touched, old(loro.tree), loro.tree)
    ensures r == Ok(true) ==> Rearranged(old(loro.tree), loro.tree, p, Hits(old(loro.tree), p, evaluation.value), refs, made)
    ensures r == Ok(true) ==> IsArranged(loro.tree, p, Hits(loro.tree, p, evaluation.value))
    ensures r == Ok(true) ==> ListsExactly(loro.tree, p, evaluation.value)
    ensures r == Ok(true) && IsArranged(old(loro.tree), p, Hits(old(loro.tree), p, evaluation.value)) ==>
      loro.tree == old(loro.tree) && loro.touched == old(loro.touched)
    ensures ReferenceCycle.Acyclic(ReferenceCycle.ShownIn(old(loro.tree))) ==>
      ReferenceCycle.Acyclic(ReferenceCycle.ShownIn(loro.tree))
  {
    hide Ranked, Linked, Rearranged, IsArranged, ReferenceCycle.Acyclic, ReferenceCycle.ShownIn, Unique, Admitted, HitsAreNodes, Quiet;
    refs, made := [], map[];
    ghost var doc := loro.tree;
    AllPending(map[], {}, doc);
    loro.Reconcile();
    if p !in loro.cache { r := Err(NotFound(p)); return; }
    if !loro.cache[p].kind.Search? { r := Err(InvalidOperation); return; }
    if evaluation.None? {
      if skipFailure { r := Ok(false); return; }
      r := Err(InvalidOperation);
      return;
    }
    HitsFit(doc, p, evaluation.value, firstId);
    var ids := UniqueNodeIds(evaluation.value);
    var hits := AdmitHits(loro.cache, p, ids);
    refs, made := ArrangeResults(loro, p, hits, firstId);
    HitsAgain(doc, loro.tree, p, evaluation.value, firstId, refs, made);
    assert IsArranged(loro.tree, p, Hits(loro.tree, p, evaluation.value));
    ArrangedListsExactly(loro.tree, p, evaluation.value);
    hide ListsExactly;
    if ReferenceCycle.Acyclic(ReferenceCycle.ShownIn(doc)) {
      ArrangingKeepsAcyclic(doc, loro.tree, p, hits, refs, made);
    }
    r := Ok(true);
  }
}
