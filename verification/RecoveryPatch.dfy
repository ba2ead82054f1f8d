/** Going back over a recorded patch: the listed nodes get the values they had before. */
module RecoveryPatch {
  import opened Collections
  import opened Outline
  import opened LoroDocument
  import opened Siblings
  import opened CoreState
  import ReferenceCycle

  // ----- What going back should give -----

  function Befores(patch: Patch): map<NodeId, Option<Node>> {
    map n | n in patch :: patch[n].before
  }

  /** The document with every listed node as it was before. */
  function Restored(doc: Doc, patch: Patch): Doc {
    Overlaid(doc, Befores(patch))
  }

  predicate Agrees(doc: Doc, patch: Patch) {
    forall n :: n in patch ==> Lookup(doc, n) == patch[n].after
  }

  /** After a transaction, its own patch leads back to the start. */
  lemma PatchLeadsBack(start: Doc, now: Doc)
    ensures Agrees(now, NetPatch(start, now)) && Restored(now, NetPatch(start, now)) == start
  {
    var patch := NetPatch(start, now);
    var back := Restored(now, patch);
    forall n ensures Lookup(back, n) == Lookup(start, n) {
      assert n in patch <==> Differs(start, now, n);
    }
    forall n ensures !Differs(back, start, n) { assert Lookup(back, n) == Lookup(start, n); }
    NoDifference(back, start);
  }

  /** The nodes that are there now and were not before. */
  function Removed(patch: Patch): set<NodeId> {
    set n | n in patch && patch[n].before.None? && patch[n].after.Some?
  }

  /** `gone` is what lies at or under the removed nodes. */
  ghost predicate IsUnder(doc: Doc, removed: set<NodeId>, gone: set<NodeId>) {
    && removed <= gone && gone <= doc.Keys && HoldsAllChildren(doc, gone)
    && forall n {:trigger HangsIn(doc, gone, n)} :: n in gone ==> n in removed || HangsIn(doc, gone, n)
  }

  lemma {:induction false} UnderIsUnique(doc: Doc, rank: map<NodeId, nat>, removed: set<NodeId>, one: set<NodeId>, two: set<NodeId>, n: NodeId)
    requires Linked(doc) && Ranked(doc, rank) && IsUnder(doc, removed, one) && IsUnder(doc, removed, two) && n in one
    ensures n in two
    decreases if n in rank then rank[n] else 0
  {
    if n !in removed {
      assert HangsIn(doc, one, n) && BelowParent(doc, rank, n) && ListedByParent(doc, n);
      UnderIsUnique(doc, rank, removed, one, two, doc[n].parent.value);
    }
  }

  /** No move leads back to the top: a root must not have been put under another node that stays. */
  predicate RootsStay(doc: Doc, patch: Patch, gone: set<NodeId>) {
    forall n :: n in patch && patch[n].before.Some? && patch[n].before.value.parent.None? && n in doc && n !in gone ==>
      doc[n].parent.None?
  }

  /** When going back succeeds completely: nothing unlisted lies under a removed node, and roots were left alone. */
  predicate Restorable(doc: Doc, patch: Patch, gone: set<NodeId>) {
    gone <= patch.Keys && RootsStay(doc, patch, gone)
  }

  // ----- Deleting what the transaction created -----

  method DeleteCreated(doc: Doc, patch: Patch) returns (left: Doc, ghost gone: set<NodeId>)
    requires Forest(doc) && Removed(patch) <= doc.Keys
    ensures IsUnder(doc, Removed(patch), gone) && left == Pruned(doc, gone) && Forest(left)
  {
    hide Linked, Ranked, Pruned, IsSubtree;
    var deleted := Removed(patch);
    ghost var rank :| Ranked(doc, rank);
    var pending := set n | n in deleted && (doc[n].parent.None? || doc[n].parent.value !in deleted);
    ghost var roots := pending;
    left, gone := doc, {};
    PrunedNothing(doc);
    while pending != {}
      invariant pending <= roots && roots - pending <= gone && gone <= doc.Keys && HoldsAllChildren(doc, gone)
      invariant forall n {:trigger HangsIn(doc, gone, n)} :: n in gone ==> n in deleted || HangsIn(doc, gone, n)
      invariant left == Pruned(doc, gone) && Linked(left)
      decreases pending
    {
      var r :| r in pending;
      pending := pending - {r};
      StillThere(doc, gone, r);
      if r in left {
        var s := SubtreeIds(left, r);
        DeletedIsPruned(left, r, s);
        PrunedTwice(doc, gone, s);
        SubtreeGone(doc, deleted, gone, r, s);
        left := Deleted(left, r, s);
        gone := gone + s;
        PrunedForest(doc, gone);
      }
    }
    forall n | n in deleted ensures n in gone { AllRootsGone(doc, rank, deleted, gone, n); }
    PrunedForest(doc, gone);
  }

  lemma StillThere(doc: Doc, gone: set<NodeId>, r: NodeId)
    requires r in doc
    ensures r in Pruned(doc, gone) <==> r !in gone
  {
  }

  lemma SubtreeGone(doc: Doc, deleted: set<NodeId>, gone: set<NodeId>, r: NodeId, s: set<NodeId>)
    requires r in deleted && IsSubtree(Pruned(doc, gone), r, s) && HoldsAllChildren(doc, gone) && gone <= doc.Keys
    requires forall n {:trigger HangsIn(doc, gone, n)} :: n in gone ==> n in deleted || HangsIn(doc, gone, n)
    ensures gone + s <= doc.Keys && HoldsAllChildren(doc, gone + s)
    ensures forall n {:trigger HangsIn(doc, gone + s, n)} :: n in gone + s ==> n in deleted || HangsIn(doc, gone + s, n)
  {
    var left := Pruned(doc, gone);
    forall n, c | n in gone + s && n in doc && c in doc[n].children ensures c in gone + s {
      if n !in gone && c !in gone {
        InWithout(doc[n].children, gone);
        assert c in left[n].children;
      }
    }
    forall n | n in gone + s ensures n in deleted || HangsIn(doc, gone + s, n) {
      if n in gone {
        assert n in deleted || HangsIn(doc, gone, n);
      } else {
        assert n == r || HangsIn(left, s, n);
      }
    }
  }

  lemma {:induction false} AllRootsGone(doc: Doc, rank: map<NodeId, nat>, deleted: set<NodeId>, gone: set<NodeId>, n: NodeId)
    requires Linked(doc) && Ranked(doc, rank) && n in deleted && deleted <= doc.Keys && HoldsAllChildren(doc, gone)
    requires forall m :: m in deleted && (doc[m].parent.None? || doc[m].parent.value !in deleted) ==> m in gone
    ensures n in gone
    decreases rank[n]
  {
    if doc[n].parent.Some? && doc[n].parent.value in deleted {
      assert BelowParent(doc, rank, n) && ListedByParent(doc, n);
      AllRootsGone(doc, rank, deleted, gone, doc[n].parent.value);
    }
  }

  // ----- Creating what the transaction removed -----

  /** Every node to be created belongs to the top, to a node that stayed, or to a listed one. */
  ghost predicate Creatable(doc: Doc, patch: Patch, gone: set<NodeId>) {
    forall n :: n in patch && patch[n].before.Some? && (n !in doc || n in gone) ==> FindsParent(patch, gone, patch[n].before.value)
  }

  predicate FindsParent(patch: Patch, gone: set<NodeId>, node: Node) {
    node.parent.Some? ==> node.parent.value !in gone || node.parent.value in patch
  }

  /** A node without its place. */
  function Blank(node: Node): Node {
    node.(parent := None, children := [])
  }

  /** The nodes left over from `doc`, and the made ones with the data and parents they should have. */
  ghost predicate Midway(doc: Doc, goal: Doc, gone: set<NodeId>, made: set<NodeId>, now: Doc) {
    && now.Keys == (doc.Keys - gone) + made && made !! (doc.Keys - gone) && made <= goal.Keys && Forest(now)
    && (forall n :: n in now && n !in made ==> n in doc && Blank(now[n]) == Blank(doc[n]) && now[n].parent == doc[n].parent)
    && (forall n :: n in made ==> Blank(now[n]) == Blank(goal[n]) && now[n].parent == goal[n].parent)
  }

  /** Unlisted nodes already are as they should be, with their children. */
  ghost predicate OthersRight(goal: Doc, patch: Patch, now: Doc) {
    forall n :: n in now && n !in patch ==> n in goal && now[n] == goal[n]
  }

  lemma StartsMidway(doc: Doc, goal: Doc, gone: set<NodeId>)
    requires Forest(Pruned(doc, gone))
    ensures Midway(doc, goal, gone, {}, Pruned(doc, gone))
  {
    hide Forest;
  }

  lemma UnlistedSame(doc: Doc, patch: Patch, n: NodeId)
    requires n !in patch
    ensures n in Restored(doc, patch) <==> n in doc
    ensures n in doc ==> Restored(doc, patch)[n] == doc[n]
  {
  }

  lemma ListedRestored(doc: Doc, patch: Patch, n: NodeId)
    requires n in patch
    ensures n in Restored(doc, patch) <==> patch[n].before.Some?
    ensures patch[n].before.Some? ==> Restored(doc, patch)[n] == patch[n].before.value
  {
  }

  /** The children of an unlisted node that stays are all still there. */
  lemma UnlistedKeepsChildren(doc: Doc, patch: Patch, gone: set<NodeId>, n: NodeId)
    requires Forest(doc) && Forest(Restored(doc, patch)) && IsUnder(doc, Removed(patch), gone)
    requires n in doc && n !in patch && n !in gone
    ensures forall c :: c in doc[n].children ==> c !in gone
  {
    UnlistedSame(doc, patch, n);
    forall c | c in doc[n].children ensures c !in gone {
      assert doc[c].parent == Some(n);
      if c in Removed(patch) { ListedRestored(doc, patch, c); }
      assert c in Restored(doc, patch)[n].children;
      assert c in gone ==> HangsIn(doc, gone, c);
    }
  }

  lemma OthersRightAfterDeleting(doc: Doc, patch: Patch, gone: set<NodeId>)
    requires Forest(doc) && Forest(Restored(doc, patch)) && IsUnder(doc, Removed(patch), gone)
    ensures OthersRight(Restored(doc, patch), patch, Pruned(doc, gone))
  {
    hide IsUnder, Forest;
    forall n | n in Pruned(doc, gone) && n !in patch
      ensures n in Restored(doc, patch) && Pruned(doc, gone)[n] == Restored(doc, patch)[n]
    {
      UnlistedSame(doc, patch, n);
      UnlistedKeepsChildren(doc, patch, gone, n);
      WithoutNone(doc[n].children, gone);
    }
  }

  /** A new node at the top or at the end of its parent's children. */
  function Put(doc: Doc, id: NodeId, node: Node): Doc
    requires node.parent.Some? ==> node.parent.value in doc
  {
    if node.parent.Some? then Created(doc, id, None, node.(children := [])) else doc[id := node.(children := [])]
  }

  lemma PutForest(doc: Doc, id: NodeId, node: Node)
    requires Forest(doc) && id !in doc && (node.parent.Some? ==> node.parent.value in doc)
    ensures Forest(Put(doc, id, node))
  {
    if node.parent.Some? {
      CreatedForest(doc, id, None, node.(children := []));
    } else {
      var after := Put(doc, id, node);
      forall n | n in after ensures ListedByParent(after, n) { assert n == id || ListedByParent(doc, n); }
      var rank :| Ranked(doc, rank);
      var wider := rank[id := 0];
      forall n | n in after ensures BelowParent(after, wider, n) {
        if n != id { assert BelowParent(doc, rank, n) && ListedByParent(doc, n); }
      }
      assert Ranked(after, wider);
    }
  }

  lemma PutMidway(doc: Doc, goal: Doc, gone: set<NodeId>, made: set<NodeId>, now: Doc, id: NodeId)
    requires Midway(doc, goal, gone, made, now) && id in goal && id !in now
    requires goal[id].parent.Some? ==> goal[id].parent.value in now
    ensures Midway(doc, goal, gone, made + {id}, Put(now, id, goal[id]))
  {
    hide Forest, Put, Blank;
    ForestOf(doc, goal, gone, made, now);
    PutForest(now, id, goal[id]);
    PutShape(now, id, goal[id]);
    MidwayBy(doc, goal, gone, made, now, Put(now, id, goal[id]), id);
  }

  lemma ForestOf(doc: Doc, goal: Doc, gone: set<NodeId>, made: set<NodeId>, now: Doc)
    requires Midway(doc, goal, gone, made, now)
    ensures Forest(now)
  {
  }

  lemma MidwayBy(doc: Doc, goal: Doc, gone: set<NodeId>, made: set<NodeId>, now: Doc, after: Doc, id: NodeId)
    requires Midway(doc, goal, gone, made, now) && id in goal && id !in now && Forest(after)
    requires after.Keys == now.Keys + {id} && Blank(after[id]) == Blank(goal[id]) && after[id].parent == goal[id].parent
    requires forall n :: n in now ==> Blank(after[n]) == Blank(now[n]) && after[n].parent == now[n].parent
    ensures Midway(doc, goal, gone, made + {id}, after)
  {
    hide Forest, Blank;
    assert id !in doc.Keys - gone && id !in made;
  }

  lemma PutShape(doc: Doc, id: NodeId, node: Node)
    requires id !in doc && (node.parent.Some? ==> node.parent.value in doc)
    ensures var after := Put(doc, id, node);
      && after.Keys == doc.Keys + {id} && Blank(after[id]) == Blank(node) && after[id].parent == node.parent
      && forall n :: n in doc ==> Blank(after[n]) == Blank(doc[n]) && after[n].parent == doc[n].parent
  {
    hide Inserted, InsertionIndex;
  }

  /** A node is never put under an unlisted one: that still has all its children. */
  lemma PutKeepsOthers(goal: Doc, patch: Patch, now: Doc, id: NodeId)
    requires OthersRight(goal, patch, now) && Linked(goal) && Linked(now) && id in goal && id !in now && id in patch
    requires goal[id].parent.Some? ==> goal[id].parent.value in now
    ensures OthersRight(goal, patch, Put(now, id, goal[id]))
  {
    if goal[id].parent.Some? {
      var p := goal[id].parent.value;
      assert ListedByParent(goal, id) && id in goal[p].children && id !in now[p].children;
      assert p in patch;
    }
  }

  /** Among nodes that wait, one waits for no other. */
  lemma {:induction false} FirstToCreate(goal: Doc, rank: map<NodeId, nat>, pending: set<NodeId>, n: NodeId) returns (m: NodeId)
    requires Linked(goal) && Ranked(goal, rank) && n in pending && pending <= goal.Keys
    ensures m in pending && (goal[m].parent.None? || goal[m].parent.value !in pending)
    decreases rank[n]
  {
    m := n;
    if goal[n].parent.Some? && goal[n].parent.value in pending {
      assert BelowParent(goal, rank, n);
      m := FirstToCreate(goal, rank, pending, goal[n].parent.value);
    }
  }

  method CreateMissing(doc: Doc, goal: Doc, patch: Patch, ghost gone: set<NodeId>, start: Doc)
    returns (r: Result<Doc>, ghost made: set<NodeId>)
    requires goal == Restored(doc, patch) && Forest(goal) && Midway(doc, goal, gone, {}, start) && OthersRight(goal, patch, start)
    ensures r.Ok? ==> Midway(doc, goal, gone, made, r.value) && OthersRight(goal, patch, r.value)
    ensures r.Ok? ==> forall n :: n in patch && patch[n].before.Some? ==> n in r.value
    ensures made <= patch.Keys
    ensures r.Ok? <==> Creatable(doc, patch, gone)
  {
    hide Linked, Ranked, Midway, OthersRight, Put, Restored, Creatable;
    ghost var rank :| Ranked(goal, rank);
    var now := start;
    made := {};
    var pending := set n | n in patch && patch[n].before.Some? && n !in now;
    ListedInGoal(doc, patch);
    while pending != {}
      invariant pending <= goal.Keys * patch.Keys && pending !! now.Keys && made <= patch.Keys
      invariant Midway(doc, goal, gone, made, now) && OthersRight(goal, patch, now)
      invariant forall n :: n in patch && patch[n].before.Some? ==> n in now || n in pending
      decreases pending
    {
      var todo, created := pending, false;
      ghost var waiting := pending;
      while todo != {}
        invariant todo <= pending <= waiting && pending <= goal.Keys * patch.Keys && pending !! now.Keys && made <= patch.Keys
        invariant Midway(doc, goal, gone, made, now) && OthersRight(goal, patch, now)
        invariant forall n :: n in patch && patch[n].before.Some? ==> n in now || n in pending
        invariant created ==> pending < waiting
        invariant !created ==> pending == waiting
        invariant !created ==> forall n :: n in pending - todo ==> goal[n].parent.Some? && goal[n].parent.value !in now
        decreases todo
      {
        var n :| n in todo;
        todo := todo - {n};
        var node := goal[n];
        if node.parent.None? || node.parent.value in now {
          PutMidway(doc, goal, gone, made, now, n);
          ForestsLinked(goal, doc, gone, made, now);
          PutKeepsOthers(goal, patch, now, n);
          PutShape(now, n, node);
          now := Put(now, n, node);
          made, pending, created := made + {n}, pending - {n}, true;
        }
      }
      if !created {
        ghost var one :| one in pending;
        ghost var first := FirstToCreate(goal, rank, pending, one);
        ForestsLinked(goal, doc, gone, made, now);
        ParentMissing(doc, goal, patch, gone, made, now, pending, first);
        return Err(InvalidOperation), made;
      }
    }
    ForestsLinked(goal, doc, gone, made, now);
    AllCreated(doc, goal, patch, gone, made, now);
    r := Ok(now);
  }

  lemma ForestsLinked(goal: Doc, doc: Doc, gone: set<NodeId>, made: set<NodeId>, now: Doc)
    requires Forest(goal) && Midway(doc, goal, gone, made, now)
    ensures Linked(goal) && Linked(now)
  {
  }

  lemma ListedInGoal(doc: Doc, patch: Patch)
    ensures forall n :: n in patch && patch[n].before.Some? ==> n in Restored(doc, patch)
  {
  }

  /** A parent that is neither there nor waiting has gone and will not come back. */
  lemma ParentMissing(doc: Doc, goal: Doc, patch: Patch, gone: set<NodeId>, made: set<NodeId>, now: Doc, pending: set<NodeId>, n: NodeId)
    requires goal == Restored(doc, patch) && Linked(goal) && Midway(doc, goal, gone, made, now)
    requires forall m :: m in patch && patch[m].before.Some? ==> m in now || m in pending
    requires n in patch && patch[n].before.Some? && n !in now
    requires n in goal && goal[n].parent.Some? && goal[n].parent.value !in pending && goal[n].parent.value !in now
    ensures !Creatable(doc, patch, gone)
  {
    assert ListedByParent(goal, n);
    var p := goal[n].parent.value;
    ListedRestored(doc, patch, n);
    if p in patch { ListedRestored(doc, patch, p); } else { UnlistedSame(doc, patch, p); }
    hide Forest, Linked, Restored;
    assert n !in doc || n in gone;
    assert !FindsParent(patch, gone, patch[n].before.value);
  }

  lemma AllCreated(doc: Doc, goal: Doc, patch: Patch, gone: set<NodeId>, made: set<NodeId>, now: Doc)
    requires goal == Restored(doc, patch) && Linked(now) && Midway(doc, goal, gone, made, now) && made <= patch.Keys
    requires forall n :: n in patch && patch[n].before.Some? ==> n in now
    ensures Creatable(doc, patch, gone)
  {
    forall n | n in patch && patch[n].before.Some? && (n !in doc || n in gone) ensures FindsParent(patch, gone, patch[n].before.value) {
      ListedRestored(doc, patch, n);
      assert n in made && ListedByParent(now, n);
    }
  }

  // ----- Writing the data -----

  /** Every node present has the data it should have; only places may still be wrong. */
  ghost predicate DataRight(goal: Doc, now: Doc) {
    forall n :: n in now ==> n in goal && Blank(now[n]) == Blank(goal[n])
  }

  function Rewritten(goal: Doc, patch: Patch, now: Doc): Doc {
    map n | n in now ::
      if n in patch && n in goal then goal[n].(parent := now[n].parent, children := now[n].children) else now[n]
  }

  method WriteListed(goal: Doc, patch: Patch, start: Doc) returns (now: Doc)
    ensures now == Rewritten(goal, patch, start)
  {
    now := start;
    var pending := patch.Keys;
    while pending != {}
      invariant pending <= patch.Keys && now.Keys == start.Keys
      invariant forall n :: n in start && n in pending ==> now[n] == start[n]
      invariant forall n :: n in start && n !in pending ==> now[n] == Rewritten(goal, patch, start)[n]
      decreases pending
    {
      var n :| n in pending;
      pending := pending - {n};
      if n in goal && n in now {
        now := now[n := goal[n].(parent := now[n].parent, children := now[n].children)];
      }
    }
  }

  lemma RewrittenForest(goal: Doc, patch: Patch, now: Doc)
    requires Forest(now)
    ensures Forest(Rewritten(goal, patch, now))
  {
    hide Forest;
    SamePlacesForest(now, Rewritten(goal, patch, now));
  }

  /** The state before the moves, as far as they need it. */
  ghost predicate Ready(doc: Doc, goal: Doc, patch: Patch, gone: set<NodeId>, now: Doc) {
    && Forest(now) && DataRight(goal, now) && OthersRight(goal, patch, now)
    && (forall n :: n in now ==> now[n].parent == (if n in doc && n !in gone then doc[n].parent else goal[n].parent))
    && (forall n :: n in now <==> (n in doc && n !in gone) || (n in patch && patch[n].before.Some?))
  }

  ghost predicate NodeIsReady(doc: Doc, goal: Doc, patch: Patch, gone: set<NodeId>, now: Doc, n: NodeId) {
    && n in goal && n in now && Blank(now[n]) == Blank(goal[n]) && (n !in patch ==> now[n] == goal[n])
    && now[n].parent == (if n in doc && n !in gone then doc[n].parent else goal[n].parent)
    && ((n in doc && n !in gone) || (n in patch && patch[n].before.Some?))
  }

  /** One node when the data has been written. */
  lemma NodeReady(doc: Doc, goal: Doc, patch: Patch, gone: set<NodeId>, made: set<NodeId>, now: Doc, n: NodeId)
    requires goal == Restored(doc, patch) && Midway(doc, goal, gone, made, now) && OthersRight(goal, patch, now)
    requires Removed(patch) <= gone && n in now && made <= patch.Keys && Agrees(doc, patch)
    ensures NodeIsReady(doc, goal, patch, gone, Rewritten(goal, patch, now), n)
  {
    hide Forest, Restored;
    if n in patch { ListedRestored(doc, patch, n); } else { UnlistedSame(doc, patch, n); }
    assert n in patch && n in doc && patch[n].before.None? ==> n in Removed(patch);
  }

  lemma ReadyAfterWriting(doc: Doc, goal: Doc, patch: Patch, gone: set<NodeId>, made: set<NodeId>, now: Doc)
    requires goal == Restored(doc, patch) && Midway(doc, goal, gone, made, now) && OthersRight(goal, patch, now)
    requires IsUnder(doc, Removed(patch), gone) && made <= patch.Keys && Agrees(doc, patch)
    requires forall n :: n in patch && patch[n].before.Some? ==> n in now
    ensures Ready(doc, goal, patch, gone, Rewritten(goal, patch, now))
  {
    hide *;
    ForestOf(doc, goal, gone, made, now);
    RewrittenForest(goal, patch, now);
    MidwayKeys(doc, goal, gone, made, now);
    RewrittenKeys(goal, patch, now);
    UnderHolds(doc, Removed(patch), gone);
    var after := Rewritten(goal, patch, now);
    forall n | n in after ensures NodeIsReady(doc, goal, patch, gone, after, n) {
      NodeReady(doc, goal, patch, gone, made, now, n);
    }
    ReadyBy(doc, goal, patch, gone, after);
  }

  lemma RewrittenKeys(goal: Doc, patch: Patch, now: Doc)
    ensures Rewritten(goal, patch, now).Keys == now.Keys
  {
  }

  lemma UnderHolds(doc: Doc, removed: set<NodeId>, gone: set<NodeId>)
    requires IsUnder(doc, removed, gone)
    ensures removed <= gone
  {
  }

  lemma ReadyBy(doc: Doc, goal: Doc, patch: Patch, gone: set<NodeId>, after: Doc)
    requires Forest(after) && forall n :: n in after ==> NodeIsReady(doc, goal, patch, gone, after, n)
    requires forall n :: n in doc && n !in gone ==> n in after
    requires forall n :: n in patch && patch[n].before.Some? ==> n in after
    ensures Ready(doc, goal, patch, gone, after)
  {
    hide Forest, Blank;
    assert forall n :: n in after ==> NodeIsReady(doc, goal, patch, gone, after, n);
  }

  lemma MidwayKeys(doc: Doc, goal: Doc, gone: set<NodeId>, made: set<NodeId>, now: Doc)
    requires Midway(doc, goal, gone, made, now)
    ensures forall n :: n in doc && n !in gone ==> n in now
  {
  }

  // ----- Moving the children into place -----

  /** Where the moves have come: the children of the finished parents are all theirs and lead their lists. */
  ghost predicate Arranging(goal: Doc, patch: Patch, base: Doc, now: Doc, finished: set<NodeId>) {
    && now.Keys == base.Keys && Forest(now) && DataRight(goal, now) && OthersRight(goal, patch, now)
    && (forall c :: c in now ==> now[c].parent == Owner(goal, base, finished, c))
    && AllLead(goal, now, finished)
  }

  function Owner(goal: Doc, base: Doc, finished: set<NodeId>, c: NodeId): Option<NodeId>
    requires c in base
  {
    if c in goal && goal[c].parent.Some? && goal[c].parent.value in finished then goal[c].parent else base[c].parent
  }

  predicate Leads(goal: Doc, now: Doc, p: NodeId) {
    p in goal && p in now && goal[p].children <= now[p].children
  }

  lemma {:induction false} PrefixWithout(list: seq<NodeId>, i: nat, c: NodeId)
    requires i <= |list| && c !in list[..i]
    ensures i <= |Without(list, {c})| && Without(list, {c})[..i] == list[..i]
  {
    if i > 0 {
      assert list[..i][0] == list[0] && list[1..][..i - 1] == list[..i][1..];
      PrefixWithout(list[1..], i - 1, c);
      assert Without(list, {c}) == [list[0]] + Without(list[1..], {c});
    }
  }

  /** The parent takes a child in at place `i`: what came before stays, and no other finished list is disturbed. */
  lemma TakesIn(list: seq<NodeId>, i: nat, c: NodeId)
    requires i <= |list| && c !in list[..i]
    ensures var next := Inserted(Without(list, {c}), Least(InsertionIndex(Some(i), |list|), |Without(list, {c})|), c);
      i < |next| && next[..i + 1] == list[..i] + [c]
  {
    PrefixWithout(list, i, c);
  }

  lemma {:induction false} PrefixKept(prefix: seq<NodeId>, list: seq<NodeId>, c: NodeId)
    requires prefix <= list && c !in prefix
    ensures prefix <= Without(list, {c})
  {
    PrefixWithout(list, |prefix|, c);
  }

  lemma MovedData(goal: Doc, now: Doc, c: NodeId, p: NodeId, i: nat)
    requires c in now && p in now && c != p && DataRight(goal, now)
    ensures DataRight(goal, Moved(now, c, p, Some(i)))
    ensures var after := Moved(now, c, p, Some(i));
      after.Keys == now.Keys && forall n :: n in now ==> after[n].parent == if n == c then Some(p) else now[n].parent
  {
    hide Inserted, Without, InsertionIndex;
  }

  lemma MovedOthers(goal: Doc, patch: Patch, now: Doc, c: NodeId, p: NodeId, i: nat)
    requires Linked(goal) && OthersRight(goal, patch, now) && c in now && p in now && c != p && p in patch
    requires c in goal && goal[c].parent == Some(p)
    ensures OthersRight(goal, patch, Moved(now, c, p, Some(i)))
  {
    var after := Moved(now, c, p, Some(i));
    forall n | n in after && n !in patch ensures n in goal && after[n] == goal[n] {
      if n != c {
        assert c !in goal[n].children;
        WithoutNone(now[n].children, {c});
      }
    }
  }

  lemma MovedLeads(goal: Doc, now: Doc, c: NodeId, p: NodeId, i: nat, q: NodeId)
    requires Linked(goal) && c in now && p in now && c != p && c in goal && goal[c].parent == Some(p)
    requires q != p && Leads(goal, now, q)
    ensures Leads(goal, Moved(now, c, p, Some(i)), q)
  {
    assert c !in goal[q].children;
    PrefixKept(goal[q].children, now[q].children, c);
  }

  /** In the middle of one parent's children. */
  ghost predicate Filling(goal: Doc, now: Doc, p: NodeId, i: nat) {
    p in goal && p in now && i <= |goal[p].children| && (now.Keys == goal.Keys ==> goal[p].children[..i] <= now[p].children)
  }

  lemma FillsOne(goal: Doc, now: Doc, p: NodeId, i: nat)
    requires Linked(goal) && Filling(goal, now, p, i) && i < |goal[p].children|
    requires goal[p].children[i] in now && goal[p].children[i] != p
    ensures Filling(goal, Moved(now, goal[p].children[i], p, Some(i)), p, i + 1)
  {
    var want, list := goal[p].children, now[p].children;
    var c := want[i];
    assert Distinct(want);
    assert c !in want[..i];
    if now.Keys == goal.Keys {
      assert list[..i] == want[..i];
      TakesIn(list, i, c);
      assert want[..i + 1] == want[..i] + [c];
    }
  }

  function OwnerWithin(goal: Doc, base: Doc, finished: set<NodeId>, p: NodeId, i: nat, c: NodeId): Option<NodeId>
    requires c in base && p in goal && i <= |goal[p].children|
  {
    if c in goal[p].children[..i] then Some(p) else Owner(goal, base, finished, c)
  }

  ghost predicate PartWay(goal: Doc, patch: Patch, base: Doc, now: Doc, finished: set<NodeId>, p: NodeId, i: nat) {
    && now.Keys == base.Keys && Forest(now) && DataRight(goal, now) && OthersRight(goal, patch, now)
    && Filling(goal, now, p, i) && Owned(goal, base, now, finished, p, i) && AllLead(goal, now, finished)
  }

  ghost predicate Owned(goal: Doc, base: Doc, now: Doc, finished: set<NodeId>, p: NodeId, i: nat)
    requires p in goal && i <= |goal[p].children|
  {
    forall c :: c in now && c in base ==> now[c].parent == OwnerWithin(goal, base, finished, p, i, c)
  }

  /** With all nodes present, every finished list starts as it should. */
  ghost predicate AllLead(goal: Doc, now: Doc, finished: set<NodeId>) {
    now.Keys == goal.Keys ==> forall q :: q in finished ==> Leads(goal, now, q)
  }

  lemma PartWayStarts(goal: Doc, patch: Patch, base: Doc, now: Doc, finished: set<NodeId>, p: NodeId)
    requires Arranging(goal, patch, base, now, finished) && p in goal && p in now
    ensures PartWay(goal, patch, base, now, finished, p, 0)
  {
    hide Forest, DataRight, OthersRight, Owner, AllLead;
  }

  lemma PartWaySkips(goal: Doc, patch: Patch, base: Doc, now: Doc, finished: set<NodeId>, p: NodeId, i: nat)
    requires PartWay(goal, patch, base, now, finished, p, i) && i < |goal[p].children| && goal[p].children[i] !in now
    requires Linked(goal)
    ensures PartWay(goal, patch, base, now, finished, p, i + 1)
  {
    ChildThere(goal, p, i);
    OwnedSkips(goal, base, now, finished, p, i);
    hide Forest, DataRight, OthersRight, Owned, AllLead, Linked;
  }

  lemma ChildThere(goal: Doc, p: NodeId, i: nat)
    requires Linked(goal) && p in goal && i < |goal[p].children|
    ensures var c := goal[p].children[i];
      c in goal && goal[c].parent == Some(p)
  {
    assert goal[p].children[i] in goal[p].children;
  }

  lemma OwnedSkips(goal: Doc, base: Doc, now: Doc, finished: set<NodeId>, p: NodeId, i: nat)
    requires p in goal && i < |goal[p].children| && Owned(goal, base, now, finished, p, i) && goal[p].children[i] !in now
    ensures Owned(goal, base, now, finished, p, i + 1)
  {
    var want := goal[p].children;
    assert want[..i + 1] == want[..i] + [want[i]];
    hide Owner;
  }

  lemma OwnedMoves(goal: Doc, base: Doc, now: Doc, after: Doc, finished: set<NodeId>, p: NodeId, i: nat)
    requires p in goal && i < |goal[p].children| && Owned(goal, base, now, finished, p, i) && now.Keys == base.Keys == after.Keys
    requires forall n :: n in now ==> after[n].parent == if n == goal[p].children[i] then Some(p) else now[n].parent
    ensures Owned(goal, base, after, finished, p, i + 1)
  {
    var want := goal[p].children;
    assert want[..i + 1] == want[..i] + [want[i]];
    hide Owner;
  }

  lemma LeadsStay(goal: Doc, now: Doc, c: NodeId, p: NodeId, i: nat, finished: set<NodeId>)
    requires Linked(goal) && c in now && p in now && c != p && c in goal && goal[c].parent == Some(p)
    requires p !in finished && AllLead(goal, now, finished)
    ensures AllLead(goal, Moved(now, c, p, Some(i)), finished)
  {
    hide Linked, Moved, Leads;
    MovedKeys(now, c, p, i);
    if now.Keys == goal.Keys {
      forall q | q in finished ensures Leads(goal, Moved(now, c, p, Some(i)), q) { MovedLeads(goal, now, c, p, i, q); }
    }
  }

  lemma PartWayMoves(goal: Doc, patch: Patch, base: Doc, now: Doc, finished: set<NodeId>, p: NodeId, i: nat)
    requires Linked(goal) && PartWay(goal, patch, base, now, finished, p, i) && i < |goal[p].children|
    requires p in patch && p !in finished
    requires var c := goal[p].children[i];
      c in now && c != p && Forest(Moved(now, c, p, Some(i)))
    ensures PartWay(goal, patch, base, Moved(now, goal[p].children[i], p, Some(i)), finished, p, i + 1)
  {
    hide Forest, DataRight, OthersRight, Owned, AllLead, Linked, Moved, Filling;
    FillingParts(goal, now, p, i);
    var c := goal[p].children[i];
    ChildThere(goal, p, i);
    MovedData(goal, now, c, p, i);
    MovedOthers(goal, patch, now, c, p, i);
    FillsOne(goal, now, p, i);
    LeadsStay(goal, now, c, p, i, finished);
    OwnedMoves(goal, base, now, Moved(now, c, p, Some(i)), finished, p, i);
  }

  lemma FillingParts(goal: Doc, now: Doc, p: NodeId, i: nat)
    requires Filling(goal, now, p, i)
    ensures p in goal && p in now && i <= |goal[p].children|
  {
  }

  lemma PartWayEnds(goal: Doc, patch: Patch, base: Doc, now: Doc, finished: set<NodeId>, p: NodeId)
    requires Linked(goal) && p in goal && PartWay(goal, patch, base, now, finished, p, |goal[p].children|)
    ensures Arranging(goal, patch, base, now, finished + {p})
  {
    var want := goal[p].children;
    assert want[..|want|] == want;
    forall c | c in now ensures now[c].parent == Owner(goal, base, finished + {p}, c) {
      if c in goal && goal[c].parent == Some(p) { assert ListedByParent(goal, c); }
    }
    hide Forest, DataRight, OthersRight, Owner, Owned, Linked;
  }

  // ----- Which moves are refused -----

  /** From a node to its parent, when the parents in `earlier` and the first `i` children of `p` are done. */
  ghost function Climb(goal: Doc, base: Doc, earlier: set<NodeId>, p: NodeId, i: nat): ReferenceCycle.Edges
    requires p in goal && i <= |goal[p].children|
  {
    n => if n in base then Listed(OwnerWithin(goal, base, earlier, p, i, n)) else []
  }

  function Listed(n: Option<NodeId>): seq<NodeId> {
    match n case Some(x) => [x] case None => []
  }

  /** Child `i` of `p` is not moved under itself. */
  ghost predicate Passes(goal: Doc, base: Doc, earlier: set<NodeId>, p: NodeId, i: nat)
    requires p in goal && i < |goal[p].children|
  {
    goal[p].children[i] in base ==> !ReferenceCycle.Reaches(Climb(goal, base, earlier, p, i), p, goal[p].children[i])
  }

  ghost predicate AllPass(goal: Doc, base: Doc, earlier: set<NodeId>, p: NodeId)
    requires p in goal
  {
    forall i :: 0 <= i < |goal[p].children| ==> Passes(goal, base, earlier, p, i)
  }

  lemma FirstStep(next: ReferenceCycle.Edges, n: NodeId, q: NodeId, a: NodeId)
    requires n != a && next(n) == [q]
    ensures ReferenceCycle.Reaches(next, n, a) <==> ReferenceCycle.Reaches(next, q, a)
  {
    if ReferenceCycle.Reaches(next, n, a) {
      var path :| ReferenceCycle.Connects(next, path, n, a);
      assert path[0 + 1] in next(path[0]);
      ReferenceCycle.Slice(next, path, 1, |path|);
      assert ReferenceCycle.Connects(next, path[1..|path|], q, a);
    }
    if ReferenceCycle.Reaches(next, q, a) {
      var path :| ReferenceCycle.Connects(next, path, q, a);
      assert ReferenceCycle.Connects(next, [n] + path, n, a);
    }
  }

  lemma NoStep(next: ReferenceCycle.Edges, n: NodeId, a: NodeId)
    requires n != a && next(n) == []
    ensures !ReferenceCycle.Reaches(next, n, a)
  {
    forall path ensures !ReferenceCycle.Connects(next, path, n, a) {
      assert ReferenceCycle.Path(next, path) ==> |path| <= 1 || path[0 + 1] in next(path[0]);
    }
  }

  /** Being under a node is reaching it by way of parents. */
  lemma {:induction false} AboveIsReached(doc: Doc, rank: map<NodeId, nat>, next: ReferenceCycle.Edges, n: NodeId, a: NodeId)
    requires Linked(doc) && Ranked(doc, rank) && n in doc && forall m :: m in doc ==> next(m) == Listed(doc[m].parent)
    ensures ReferenceCycle.Reaches(next, n, a) <==> n == a || Above(doc, rank, a, n)
    decreases rank[n]
  {
    if n == a {
      ReferenceCycle.ReachesItself(next, n);
    } else if doc[n].parent.Some? {
      assert ListedByParent(doc, n) && BelowParent(doc, rank, n);
      FirstStep(next, n, doc[n].parent.value, a);
      AboveIsReached(doc, rank, next, doc[n].parent.value, a);
    } else {
      NoStep(next, n, a);
    }
  }

  lemma RefusedIfReached(goal: Doc, patch: Patch, base: Doc, now: Doc, finished: set<NodeId>, p: NodeId, i: nat, rank: map<NodeId, nat>)
    requires PartWay(goal, patch, base, now, finished, p, i) && i < |goal[p].children| && goal[p].children[i] in now
    requires Linked(now) && Ranked(now, rank)
    ensures var c := goal[p].children[i];
      Passes(goal, base, finished, p, i) <==> c != p && !Above(now, rank, c, p)
  {
    AboveIsReached(now, rank, Climb(goal, base, finished, p, i), p, goal[p].children[i]);
  }

  /** With all wanted nodes there no move names a place beyond the end of the list; with some missing it may. */
  lemma IndexInside(goal: Doc, patch: Patch, base: Doc, now: Doc, finished: set<NodeId>, p: NodeId, i: nat)
    requires Linked(goal) && PartWay(goal, patch, base, now, finished, p, i) && i < |goal[p].children| && now.Keys == goal.Keys
    ensures i <= |Without(now[p].children, {goal[p].children[i]})|
  {
    hide Forest, DataRight, OthersRight, Owned, AllLead, Without;
    var c, list := goal[p].children[i], now[p].children;
    assert Distinct(goal[p].children) && list[..i] == goal[p].children[..i] && c !in list[..i];
    hide Linked, PartWay, Filling, Distinct;
    assert list == list[..i] + list[i..];
    WithoutAppend(list[..i], list[i..], {c});
    WithoutNone(list[..i], {c});
  }

  method FillParent(goal: Doc, ghost patch: Patch, ghost base: Doc, ghost finished: set<NodeId>, start: Doc, p: NodeId) returns (r: Result<Doc>)
    requires Linked(goal) && Arranging(goal, patch, base, start, finished) && p in patch && p in goal && p in start && p !in finished
    ensures r.Ok? ==> Arranging(goal, patch, base, r.value, finished + {p})
    ensures r.Ok? <==> AllPass(goal, base, finished, p)
  {
    hide Linked, Arranging, PartWay, Moved, Above, Passes;
    ArrangingKeys(goal, patch, base, start, finished);
    PartWayStarts(goal, patch, base, start, finished, p);
    var now, index := start, 0;
    while index < |goal[p].children|
      invariant 0 <= index <= |goal[p].children| && now.Keys == base.Keys && PartWay(goal, patch, base, now, finished, p, index)
      invariant forall i :: 0 <= i < index ==> Passes(goal, base, finished, p, i)
    {
      var c := goal[p].children[index];
      PartWayForest(goal, patch, base, now, finished, p, index);
      if c in now {
        ghost var rank :| Ranked(now, rank);
        RefusedIfReached(goal, patch, base, now, finished, p, index, rank);
        var below := IsDescendant(now, p, c);
        if c == p || below { return Err(InvalidOperation); }
        if now.Keys == goal.Keys { IndexInside(goal, patch, base, now, finished, p, index); }
        MoveKeeps(now, c, p, Some(index), rank);
        PartWayMoves(goal, patch, base, now, finished, p, index);
        MovedKeys(now, c, p, index);
        now := Moved(now, c, p, Some(index));
      } else {
        PassesAbsent(goal, base, finished, p, index);
        PartWaySkips(goal, patch, base, now, finished, p, index);
      }
      index := index + 1;
    }
    PartWayEnds(goal, patch, base, now, finished, p);
    r := Ok(now);
  }

  lemma PassesAbsent(goal: Doc, base: Doc, finished: set<NodeId>, p: NodeId, i: nat)
    requires p in goal && i < |goal[p].children| && goal[p].children[i] !in base
    ensures Passes(goal, base, finished, p, i)
  {
  }

  lemma PartWayForest(goal: Doc, patch: Patch, base: Doc, now: Doc, finished: set<NodeId>, p: NodeId, i: nat)
    requires PartWay(goal, patch, base, now, finished, p, i)
    ensures Forest(now)
  {
  }

  lemma MovedKeys(now: Doc, c: NodeId, p: NodeId, i: nat)
    requires c in now && p in now && c != p
    ensures Moved(now, c, p, Some(i)).Keys == now.Keys
  {
  }

  method MoveChildren(goal: Doc, ghost patch: Patch, base: Doc, order: seq<NodeId>) returns (r: Result<Doc>)
    requires Linked(goal) && Arranging(goal, patch, base, base, {}) && Distinct(order)
    requires forall n :: n in order ==> n in patch && n in goal && n in base
    ensures r.Ok? ==> Arranging(goal, patch, base, r.value, Members(order))
    ensures r.Ok? <==> forall k :: 0 <= k < |order| ==> AllPass(goal, base, Members(order[..k]), order[k])
  {
    hide Linked, Arranging, AllPass;
    var now, i := base, 0;
    assert Members(order[..0]) == {};
    while i < |order|
      invariant 0 <= i <= |order| && Arranging(goal, patch, base, now, Members(order[..i]))
      invariant forall k :: 0 <= k < i ==> AllPass(goal, base, Members(order[..k]), order[k])
    {
      NextInOrder(order, i);
      ArrangingKeys(goal, patch, base, now, Members(order[..i]));
      var filled := FillParent(goal, patch, base, Members(order[..i]), now, order[i]);
      if filled.Err? { return filled; }
      now := filled.value;
      i := i + 1;
    }
    assert order[..i] == order;
    r := Ok(now);
  }

  lemma NextInOrder(order: seq<NodeId>, i: nat)
    requires i < |order| && Distinct(order)
    ensures order[i] in order && order[i] !in Members(order[..i])
    ensures Members(order[..i + 1]) == Members(order[..i]) + {order[i]}
  {
    assert order[..i + 1] == order[..i] + [order[i]];
  }

  lemma ArrangingKeys(goal: Doc, patch: Patch, base: Doc, now: Doc, finished: set<NodeId>)
    requires Arranging(goal, patch, base, now, finished)
    ensures now.Keys == base.Keys
  {
  }

  lemma ReadyToArrange(doc: Doc, goal: Doc, patch: Patch, gone: set<NodeId>, base: Doc)
    requires Ready(doc, goal, patch, gone, base)
    ensures Arranging(goal, patch, base, base, {})
  {
    hide Forest, DataRight, OthersRight;
  }

  // ----- The result -----

  function Relisted(patch: Patch): set<NodeId> {
    set n | n in patch && patch[n].before.Some?
  }

  /** When all is arranged, a node's parent is the wanted one, unless a root was moved down. */
  lemma ParentsAtLast(doc: Doc, goal: Doc, patch: Patch, gone: set<NodeId>, base: Doc, now: Doc, c: NodeId)
    requires Forest(doc) && Linked(goal) && goal == Restored(doc, patch) && Ready(doc, goal, patch, gone, base)
    requires Arranging(goal, patch, base, now, Relisted(patch)) && RootsStay(doc, patch, gone) && c in now
    ensures c in goal && now[c].parent == goal[c].parent
  {
    assert now[c].parent == Owner(goal, base, Relisted(patch), c);
    if c in patch { ListedRestored(doc, patch, c); } else { UnlistedSame(doc, patch, c); }
    if goal[c].parent.Some? {
      var p := goal[c].parent.value;
      assert ListedByParent(goal, c);
      if p in patch { ListedRestored(doc, patch, p); } else { UnlistedSame(doc, patch, p); }
      assert p !in patch ==> c in doc[p].children && doc[c].parent == Some(p);
    }
  }

  lemma ChildrenAtLast(goal: Doc, now: Doc, p: NodeId)
    requires Linked(goal) && Linked(now) && Leads(goal, now, p)
    requires forall c :: c in now ==> c in goal && now[c].parent == goal[c].parent
    ensures now[p].children == goal[p].children
  {
    var want, have := goal[p].children, now[p].children;
    forall c | c in have ensures c in want {
      assert now[c].parent == Some(p) && ListedByParent(goal, c);
    }
    forall c | c in want ensures c in have {
      var i :| 0 <= i < |want| && want[i] == c;
      assert have[i] == c;
    }
    AllPlaced(have, want);
  }

  /** Everything listed under a removed node and roots left alone: the goal is reached exactly. */
  lemma GoalReached(doc: Doc, goal: Doc, patch: Patch, gone: set<NodeId>, base: Doc, now: Doc)
    requires Forest(doc) && Linked(goal) && goal == Restored(doc, patch) && Ready(doc, goal, patch, gone, base)
    requires Arranging(goal, patch, base, now, Relisted(patch)) && Restorable(doc, patch, gone)
    ensures now == goal
  {
    hide *;
    KeysReached(doc, goal, patch, gone, base, now);
    ParentsReached(doc, goal, patch, gone, base, now);
    RelistedAll(doc, goal, patch);
    forall p | p in goal ensures now[p] == goal[p] { NodeReached(goal, patch, base, now, p); }
  }

  lemma KeysReached(doc: Doc, goal: Doc, patch: Patch, gone: set<NodeId>, base: Doc, now: Doc)
    requires goal == Restored(doc, patch) && Ready(doc, goal, patch, gone, base)
    requires Arranging(goal, patch, base, now, Relisted(patch)) && Restorable(doc, patch, gone)
    ensures now.Keys == goal.Keys
  {
    GoalKeys(doc, goal, patch, gone, base);
  }

  lemma ParentsReached(doc: Doc, goal: Doc, patch: Patch, gone: set<NodeId>, base: Doc, now: Doc)
    requires Forest(doc) && Linked(goal) && goal == Restored(doc, patch) && Ready(doc, goal, patch, gone, base)
    requires Arranging(goal, patch, base, now, Relisted(patch)) && Restorable(doc, patch, gone)
    ensures forall c :: c in now ==> c in goal && now[c].parent == goal[c].parent
  {
    forall c | c in now ensures c in goal && now[c].parent == goal[c].parent {
      ParentsAtLast(doc, goal, patch, gone, base, now, c);
    }
  }

  lemma RelistedAll(doc: Doc, goal: Doc, patch: Patch)
    requires goal == Restored(doc, patch)
    ensures forall p :: p in goal && p in patch ==> p in Relisted(patch)
  {
    forall p | p in goal && p in patch ensures p in Relisted(patch) { ListedRestored(doc, patch, p); }
  }

  lemma NodeReached(goal: Doc, patch: Patch, base: Doc, now: Doc, p: NodeId)
    requires Linked(goal) && Arranging(goal, patch, base, now, Relisted(patch)) && now.Keys == goal.Keys && p in goal
    requires forall c :: c in now ==> now[c].parent == goal[c].parent
    requires p in patch ==> p in Relisted(patch)
    ensures now[p] == goal[p]
  {
    if p in patch {
      assert Leads(goal, now, p) && Linked(now) && Blank(now[p]) == Blank(goal[p]);
      hide Arranging, Linked, Leads, Blank;
      ChildrenAtLast(goal, now, p);
      SameNode(now[p], goal[p]);
    }
  }

  lemma SameNode(a: Node, b: Node)
    requires Blank(a) == Blank(b) && a.parent == b.parent && a.children == b.children
    ensures a == b
  {
  }

  lemma GoalKeys(doc: Doc, goal: Doc, patch: Patch, gone: set<NodeId>, base: Doc)
    requires goal == Restored(doc, patch) && Ready(doc, goal, patch, gone, base)
    ensures base.Keys == goal.Keys <==> gone <= patch.Keys || forall n :: n in gone && n !in patch ==> n !in doc
  {
    forall n | n in goal && n !in base ensures n in gone && n !in patch && n in doc {
      if n in patch { ListedRestored(doc, patch, n); } else { UnlistedSame(doc, patch, n); }
    }
    forall n | n in gone && n !in patch && n in doc ensures n in goal && n !in base { UnlistedSame(doc, patch, n); }
  }

  /** Otherwise it is missed: an unlisted node is lost, or a root stays below. */
  lemma GoalMissed(doc: Doc, goal: Doc, patch: Patch, gone: set<NodeId>, base: Doc, now: Doc)
    requires Linked(goal) && goal == Restored(doc, patch) && Ready(doc, goal, patch, gone, base) && gone <= doc.Keys
    requires Arranging(goal, patch, base, now, Relisted(patch)) && !Restorable(doc, patch, gone)
    ensures now != goal
  {
    if gone <= patch.Keys {
      var n :| n in patch && patch[n].before.Some? && patch[n].before.value.parent.None? && n in doc && n !in gone && doc[n].parent.Some?;
      ListedRestored(doc, patch, n);
      assert now[n].parent == Owner(goal, base, Relisted(patch), n) == doc[n].parent;
    } else {
      var n :| n in gone && n !in patch;
      GoalKeys(doc, goal, patch, gone, base);
      assert base.Keys != goal.Keys;
    }
  }

  /** The listed nodes with a value from before, in order of their ids. */
  method SortedParents(patch: Patch) returns (order: seq<NodeId>)
    ensures Distinct(order) && Members(order) == Relisted(patch)
    ensures forall i, j :: 0 <= i < j < |order| ==> order[i] < order[j]
  {
    order := Sort(Relisted(patch));
  }

  /** Every listed parent comes after the listed parents with smaller ids. */
  function Earlier(patch: Patch, p: NodeId): set<NodeId> {
    set n | n in Relisted(patch) && n < p
  }

  /** The nodes before the moves: kept nodes where they were, new ones in place, and unlisted ones that went are missing. */
  function Places(doc: Doc, goal: Doc, patch: Patch, gone: set<NodeId>): Doc {
    map n | n in goal && n !in gone - patch.Keys :: goal[n].(parent := if n in doc && n !in gone then doc[n].parent else goal[n].parent)
  }

  /** No move puts a node under itself: of the parents with smaller ids the new places count, of the others the old ones. */
  ghost predicate Passable(doc: Doc, goal: Doc, patch: Patch, gone: set<NodeId>) {
    forall p :: p in Relisted(patch) && p in goal ==> AllPass(goal, Places(doc, goal, patch, gone), Earlier(patch, p), p)
  }

  lemma SameClimb(goal: Doc, one: Doc, two: Doc, earlier: set<NodeId>, p: NodeId, i: nat)
    requires one.Keys == two.Keys && (forall n :: n in one ==> one[n].parent == two[n].parent) && p in goal && i < |goal[p].children|
    requires Passes(goal, one, earlier, p, i)
    ensures Passes(goal, two, earlier, p, i)
  {
    var c := goal[p].children[i];
    if c in two && ReferenceCycle.Reaches(Climb(goal, two, earlier, p, i), p, c) {
      var path :| ReferenceCycle.Connects(Climb(goal, two, earlier, p, i), path, p, c);
      forall n ensures Climb(goal, two, earlier, p, i)(n) == Climb(goal, one, earlier, p, i)(n) {}
      assert ReferenceCycle.Connects(Climb(goal, one, earlier, p, i), path, p, c);
    }
  }

  lemma AllPassAlike(goal: Doc, one: Doc, two: Doc, earlier: set<NodeId>, p: NodeId)
    requires one.Keys == two.Keys && (forall n :: n in one ==> one[n].parent == two[n].parent) && p in goal
    ensures AllPass(goal, one, earlier, p) <==> AllPass(goal, two, earlier, p)
  {
    hide Passes;
    forall i | 0 <= i < |goal[p].children| ensures Passes(goal, one, earlier, p, i) <==> Passes(goal, two, earlier, p, i) {
      if Passes(goal, one, earlier, p, i) { SameClimb(goal, one, two, earlier, p, i); }
      if Passes(goal, two, earlier, p, i) { SameClimb(goal, two, one, earlier, p, i); }
    }
  }

  lemma PlacesAreReady(doc: Doc, goal: Doc, patch: Patch, gone: set<NodeId>, base: Doc)
    requires goal == Restored(doc, patch) && Ready(doc, goal, patch, gone, base)
    ensures Places(doc, goal, patch, gone).Keys == base.Keys
    ensures forall n :: n in base ==> base[n].parent == Places(doc, goal, patch, gone)[n].parent
  {
    forall n ensures n in base <==> n in goal && n !in gone - patch.Keys {
      if n in patch { ListedRestored(doc, patch, n); } else { UnlistedSame(doc, patch, n); }
    }
  }

  lemma InOrder(patch: Patch, order: seq<NodeId>, k: nat)
    requires k < |order| && Members(order) == Relisted(patch) && forall i, j :: 0 <= i < j < |order| ==> order[i] < order[j]
    ensures Members(order[..k]) == Earlier(patch, order[k])
  {
    forall n ensures n in Members(order[..k]) <==> n in Earlier(patch, order[k]) {
      if n in Earlier(patch, order[k]) {
        assert n in Members(order);
        var j :| 0 <= j < |order| && order[j] == n;
        assert order[..k][j] == n;
      }
      if n in Members(order[..k]) { assert n in order && n in Members(order); }
    }
  }

  lemma PassableInOrder(doc: Doc, goal: Doc, patch: Patch, gone: set<NodeId>, base: Doc, order: seq<NodeId>)
    requires goal == Restored(doc, patch) && Ready(doc, goal, patch, gone, base)
    requires Members(order) == Relisted(patch) && forall i, j :: 0 <= i < j < |order| ==> order[i] < order[j]
    requires forall n :: n in order ==> n in goal
    ensures Passable(doc, goal, patch, gone) <==>
      forall k :: 0 <= k < |order| ==> AllPass(goal, base, Members(order[..k]), order[k])
  {
    PlacesAreReady(doc, goal, patch, gone, base);
    hide Restored, Ready, AllPass, Places, Relisted;
    var places := Places(doc, goal, patch, gone);
    forall k | 0 <= k < |order|
      ensures AllPass(goal, base, Members(order[..k]), order[k]) <==> AllPass(goal, places, Earlier(patch, order[k]), order[k])
    {
      InOrder(patch, order, k);
      AllPassAlike(goal, base, places, Members(order[..k]), order[k]);
    }
    forall p | p in Relisted(patch) ensures exists k :: 0 <= k < |order| && order[k] == p { assert p in Members(order); }
    forall k | 0 <= k < |order| ensures order[k] in Relisted(patch) { assert order[k] in Members(order); }
  }

  /** One ranking for the old and the new parents: then no move is refused, in whatever order the ids stand. */
  lemma OneRankingPasses(doc: Doc, goal: Doc, patch: Patch, gone: set<NodeId>, rank: map<NodeId, nat>)
    requires Linked(goal) && rank.Keys == goal.Keys
    requires forall n :: n in goal ==> BelowParent(goal, rank, n)
    requires var places := Places(doc, goal, patch, gone); forall n :: n in places ==> BelowParent(places, rank, n)
    ensures Passable(doc, goal, patch, gone)
  {
    var places := Places(doc, goal, patch, gone);
    forall p, i | p in Relisted(patch) && p in goal && 0 <= i < |goal[p].children|
      ensures Passes(goal, places, Earlier(patch, p), p, i)
    {
      var c := goal[p].children[i];
      assert c in goal[p].children && BelowParent(goal, rank, c);
      if ReferenceCycle.Reaches(Climb(goal, places, Earlier(patch, p), p, i), p, c) {
        var path :| ReferenceCycle.Connects(Climb(goal, places, Earlier(patch, p), p, i), path, p, c);
        RankFalls(goal, places, Earlier(patch, p), p, i, rank, path);
      }
    }
  }

  lemma StepFalls(goal: Doc, places: Doc, earlier: set<NodeId>, p: NodeId, i: nat, rank: map<NodeId, nat>, n: NodeId)
    requires p in goal && i <= |goal[p].children| && rank.Keys == goal.Keys && places.Keys <= goal.Keys && Linked(goal)
    requires forall m :: m in goal ==> BelowParent(goal, rank, m)
    requires forall m :: m in places ==> BelowParent(places, rank, m)
    ensures forall q :: q in Climb(goal, places, earlier, p, i)(n) && q in goal ==> n in goal && rank[q] < rank[n]
  {
    if n in places {
      assert BelowParent(goal, rank, n) && BelowParent(places, rank, n);
      assert n in goal[p].children[..i] ==> n in goal[p].children && goal[n].parent == Some(p);
    }
  }

  lemma {:induction false} RankFalls(goal: Doc, places: Doc, earlier: set<NodeId>, p: NodeId, i: nat, rank: map<NodeId, nat>, path: seq<NodeId>)
    requires p in goal && i <= |goal[p].children| && rank.Keys == goal.Keys && places.Keys <= goal.Keys && Linked(goal)
    requires forall m :: m in goal ==> BelowParent(goal, rank, m)
    requires forall m :: m in places ==> BelowParent(places, rank, m)
    requires ReferenceCycle.Path(Climb(goal, places, earlier, p, i), path) && path != [] && path[0] in goal && path[|path| - 1] in goal
    ensures rank[path[|path| - 1]] <= rank[path[0]]
    decreases |path|
  {
    if |path| > 1 {
      var climb, n := Climb(goal, places, earlier, p, i), |path| - 1;
      assert path[n - 1 + 1] in climb(path[n - 1]);
      StepFalls(goal, places, earlier, p, i, rank, path[n - 1]);
      ReferenceCycle.Slice(climb, path, 0, n);
      hide Climb, Linked;
      RankFalls(goal, places, earlier, p, i, rank, path[0..n]);
    }
  }

  /**
   * `applyRecoveryPatch`. It goes through exactly when the document agrees with the patch, every node to be created finds
   * its parent, and no move puts a node under itself on the way. What is then missing are the unlisted nodes at or under
   * a removed one. The result is the restored document exactly when there are none and no root was moved down.
   */
  method ApplyRecoveryPatch(doc: Doc, patch: Patch) returns (r: Result<Doc>, ghost gone: set<NodeId>)
    requires Forest(doc) && (Agrees(doc, patch) ==> Forest(Restored(doc, patch)))
    ensures !Agrees(doc, patch) ==> r.Err?
    ensures r.Ok? ==> forall n :: n in patch ==> Lookup(doc, n) == patch[n].after
    ensures Agrees(doc, patch) ==> IsUnder(doc, Removed(patch), gone)
    ensures r.Ok? <==> Agrees(doc, patch) && Creatable(doc, patch, gone) && Passable(doc, Restored(doc, patch), patch, gone)
    ensures r.Ok? ==> r.value.Keys == Restored(doc, patch).Keys - (gone - patch.Keys)
    ensures r == Ok(Restored(doc, patch)) <==>
      Agrees(doc, patch) && Restorable(doc, patch, gone) && Passable(doc, Restored(doc, patch), patch, gone)
    ensures Agrees(doc, patch) && Restorable(doc, patch, gone) ==> r.Err? || r.value == Restored(doc, patch)
  {
    hide Linked, Ranked, Ready, Arranging, Restored, OthersRight, Midway, IsUnder, Restorable, Rewritten, Members, Pruned, Passable, AllPass, Creatable, Places;
    gone := {};
    if !Agrees(doc, patch) { return Err(InvalidOperation), gone; }
    RemovedThere(doc, patch);
    var goal := Restored(doc, patch);
    var left;
    left, gone := DeleteCreated(doc, patch);
    UnderInside(doc, Removed(patch), gone);
    StartsMidway(doc, goal, gone);
    OthersRightAfterDeleting(doc, patch, gone);
    ghost var made;
    var created;
    created, made := CreateMissing(doc, goal, patch, gone, left);
    AllListed(doc, patch, gone);
    if created.Err? { return Err(created.error), gone; }
    var written := WriteListed(goal, patch, created.value);
    ReadyAfterWriting(doc, goal, patch, gone, made, created.value);
    ReadyToArrange(doc, goal, patch, gone, written);
    var order := SortedParents(patch);
    OrderInGoal(doc, goal, patch, gone, written, order);
    PassableInOrder(doc, goal, patch, gone, written, order);
    PlacesAreReady(doc, goal, patch, gone, written);
    KeysOfPlaces(doc, goal, patch, gone);
    r := MoveChildren(goal, patch, written, order);
    if r.Ok? {
      ArrangingKeys(goal, patch, written, r.value, Relisted(patch));
      if Restorable(doc, patch, gone) {
        GoalReached(doc, goal, patch, gone, written, r.value);
      } else {
        GoalMissed(doc, goal, patch, gone, written, r.value);
      }
    }
  }

  lemma RemovedThere(doc: Doc, patch: Patch)
    requires Agrees(doc, patch)
    ensures Removed(patch) <= doc.Keys
  {
    forall n | n in Removed(patch) ensures n in doc { assert Lookup(doc, n) == patch[n].after; }
  }

  /** Where everything that went is listed, every node to be created finds its parent. */
  lemma AllListed(doc: Doc, patch: Patch, gone: set<NodeId>)
    ensures Restorable(doc, patch, gone) ==> Creatable(doc, patch, gone)
  {
  }

  lemma KeysOfPlaces(doc: Doc, goal: Doc, patch: Patch, gone: set<NodeId>)
    ensures Places(doc, goal, patch, gone).Keys == goal.Keys - (gone - patch.Keys)
  {
  }

  lemma UnderInside(doc: Doc, removed: set<NodeId>, gone: set<NodeId>)
    requires IsUnder(doc, removed, gone)
    ensures gone <= doc.Keys
  {
  }

  lemma OrderInGoal(doc: Doc, goal: Doc, patch: Patch, gone: set<NodeId>, base: Doc, order: seq<NodeId>)
    requires goal == Restored(doc, patch) && Ready(doc, goal, patch, gone, base) && Members(order) == Relisted(patch)
    ensures forall n :: n in order ==> n in patch && n in goal && n in base
  {
    forall n | n in order ensures n in patch && n in goal && n in base {
      assert n in Members(order);
      ListedRestored(doc, patch, n);
    }
  }

  // ----- Where going back fails -----

  function At(parent: Option<NodeId>, children: seq<NodeId>): Node {
    Node(Plain, parent, children, "", [], None, None, None, [], 0, false)
  }

  /** A node with a child, and then a new node between it and its parent. */
  function Chain(): Doc {
    map[30 := At(None, [20]), 20 := At(Some(30), [21]), 21 := At(Some(20), [])]
  }

  function Wrapped(): Doc {
    map[30 := At(None, [31]), 31 := At(Some(30), [20]), 20 := At(Some(31), [21]), 21 := At(Some(20), [])]
  }

  function Swapped(): Doc {
    map[30 := At(None, [21]), 21 := At(Some(30), [20]), 20 := At(Some(21), [])]
  }

  lemma ChainIsForest()
    ensures Forest(Chain())
  {
    assert Ranked(Chain(), map[30 := 0, 20 := 1, 21 := 2]);
  }

  lemma WrappedIsLinked()
    ensures Linked(Wrapped())
  {
  }

  lemma WrappedIsForest()
    ensures Forest(Wrapped())
  {
    WrappedIsLinked();
    hide Linked;
    assert Ranked(Wrapped(), map[30 := 0, 31 := 1, 20 := 2, 21 := 3]);
  }

  lemma SwappedIsForest()
    ensures Forest(Swapped())
  {
    assert Ranked(Swapped(), map[30 := 0, 21 := 1, 20 := 2]);
  }

  lemma WrappedRemoves()
    ensures var patch := NetPatch(Chain(), Wrapped());
      Removed(patch) == {31} && 21 !in patch
  {
    var start, now := Chain(), Wrapped();
    assert !Differs(start, now, 21);
    var patch := NetPatch(start, now);
    forall n ensures n in Removed(patch) <==> n == 31 {
      assert n in start || n == 31 || n !in now;
    }
  }

  lemma UnderWrapper()
    ensures IsUnder(Wrapped(), {31}, {31, 20, 21})
  {
    var now := Wrapped();
    assert HangsIn(now, {31, 20, 21}, 20) && HangsIn(now, {31, 20, 21}, 21);
  }

  lemma WrappedLists()
    ensures var patch := NetPatch(Chain(), Wrapped());
      Relisted(patch) == {20, 30} && patch.Keys == {20, 30, 31} && patch[20].before == Some(Chain()[20]) && patch[30].before == Some(Chain()[30])
  {
    var start, now := Chain(), Wrapped();
    var patch := NetPatch(start, now);
    assert Differs(start, now, 20) && Differs(start, now, 30) && Differs(start, now, 31) && !Differs(start, now, 21);
    forall n ensures n in patch <==> n in {20, 30, 31} {}
    forall n ensures n in Relisted(patch) <==> n in {20, 30} {}
  }

  lemma WrappedCreates()
    ensures Creatable(Wrapped(), NetPatch(Chain(), Wrapped()), {31, 20, 21})
  {
    WrappedLists();
    var patch, gone: set<NodeId> := NetPatch(Chain(), Wrapped()), {31, 20, 21};
    assert Chain()[20].parent == Some(30) && 30 in Wrapped();
    hide NetPatch, Chain, Wrapped;
    forall n | n in patch && patch[n].before.Some? && (n !in Wrapped() || n in gone) ensures FindsParent(patch, gone, patch[n].before.value) {
      assert n in Relisted(patch);
    }
  }

  /** Child 21 is not there to be moved, and node 20 does not hang above node 30. */
  lemma WrappedPasses()
    ensures Passable(Wrapped(), Chain(), NetPatch(Chain(), Wrapped()), {31, 20, 21})
  {
    WrappedLists();
    var goal, patch, gone := Chain(), NetPatch(Chain(), Wrapped()), {31, 20, 21};
    hide NetPatch, Relisted;
    var places := Places(Wrapped(), goal, patch, gone);
    assert goal[20].children == [21] && goal[30].children == [20] && 21 !in places && 30 in places && places[30].parent == None;
    assert Passes(goal, places, Earlier(patch, 20), 20, 0);
    var climb := Climb(goal, places, Earlier(patch, 30), 30, 0);
    assert climb(30) == [];
    NoStep(climb, 30, 20);
    assert Passes(goal, places, Earlier(patch, 30), 30, 0);
  }

  /** Taking the wrapper away takes the child of the wrapped node with it: the child did not change, so it is not listed. */
  method WrappedChildIsLost() returns (r: Result<Doc>)
    ensures Agrees(Wrapped(), NetPatch(Chain(), Wrapped())) && Restored(Wrapped(), NetPatch(Chain(), Wrapped())) == Chain()
    ensures 21 in Chain() && 21 in Wrapped() && r.Ok? && r.value.Keys == {20, 30}
  {
    ChainIsForest();
    WrappedIsForest();
    PatchLeadsBack(Chain(), Wrapped());
    WrappedRemoves();
    UnderWrapper();
    WrappedLists();
    WrappedCreates();
    WrappedPasses();
    var patch := NetPatch(Chain(), Wrapped());
    hide NetPatch, Restored, Agrees, Creatable, Passable, Restorable, Removed, IsUnder, Forest;
    ghost var gone;
    r, gone := ApplyRecoveryPatch(Wrapped(), patch);
    SameUnder(Wrapped(), {31}, gone, {31, 20, 21});
    assert Chain().Keys == {30, 20, 21};
  }

  lemma SameUnder(doc: Doc, removed: set<NodeId>, one: set<NodeId>, two: set<NodeId>)
    requires Forest(doc) && IsUnder(doc, removed, one) && IsUnder(doc, removed, two)
    ensures one == two
  {
    var rank :| Ranked(doc, rank);
    hide Linked, Ranked, IsUnder;
    forall n ensures n in one <==> n in two {
      if n in one { UnderIsUnique(doc, rank, removed, one, two, n); }
      if n in two { UnderIsUnique(doc, rank, removed, two, one, n); }
    }
  }

  lemma SwappedLists()
    ensures Relisted(NetPatch(Chain(), Swapped())) == {20, 21, 30}
  {
    var patch := NetPatch(Chain(), Swapped());
    assert Differs(Chain(), Swapped(), 20) && Differs(Chain(), Swapped(), 21) && Differs(Chain(), Swapped(), 30);
    forall n ensures n in Relisted(patch) <==> n in {20, 21, 30} {}
  }

  /** After a swap the first move would put a node under its own child: the parent with the smaller id comes first. */
  lemma SwapIsRefused()
    ensures Forest(Chain()) && Forest(Swapped())
    ensures !Passable(Swapped(), Chain(), NetPatch(Chain(), Swapped()), {})
  {
    ChainIsForest();
    SwappedIsForest();
    SwappedLists();
    var goal, patch := Chain(), NetPatch(Chain(), Swapped());
    hide NetPatch, Relisted, Forest;
    var places := Places(Swapped(), goal, patch, {});
    assert 20 in Relisted(patch) && 20 in goal && goal[20].children == [21] && 21 in places && 20 in places;
    var climb := Climb(goal, places, Earlier(patch, 20), 20, 0);
    assert 20 !in Earlier(patch, 20) && goal[20].parent == Some(30) && 30 !in Earlier(patch, 20);
    assert places[20].parent == Some(21);
    assert climb(20) == [21];
    assert ReferenceCycle.Connects(climb, [20, 21], 20, 21);
    assert !Passes(goal, places, Earlier(patch, 20), 20, 0);
  }

  lemma SwapRemovesNothing()
    ensures Removed(NetPatch(Chain(), Swapped())) == {} && IsUnder(Swapped(), {}, {})
  {
    forall n ensures n !in Removed(NetPatch(Chain(), Swapped())) { assert n in Swapped() ==> n in Chain(); }
  }

  /** So a document with every listed node in it, and none to take away, does not get back to its start. */
  method SwapStays() returns (r: Result<Doc>)
    ensures Agrees(Swapped(), NetPatch(Chain(), Swapped())) && r.Err?
  {
    SwapIsRefused();
    PatchLeadsBack(Chain(), Swapped());
    SwapRemovesNothing();
    var patch := NetPatch(Chain(), Swapped());
    hide NetPatch, Restored, Agrees, Creatable, Passable, Restorable, Removed, IsUnder, Forest, Chain, Swapped;
    ghost var gone;
    r, gone := ApplyRecoveryPatch(Swapped(), patch);
    SameUnder(Swapped(), {}, gone, {});
  }
}
