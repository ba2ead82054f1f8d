/** The state a core keeps beside the document: its own copy of the nodes, the projection cache, revisions and history. */
module CoreState {
  import opened Collections
  import opened Outline
  import opened LoroDocument
  import opened OperationHistory
  import Metadata = PersistenceLog

  // ----- Differences between documents -----

  /** A document with some nodes written and some removed. */
  function Overlaid(doc: Doc, writes: map<NodeId, Option<Node>>): Doc {
    map n | n in doc.Keys + writes.Keys && (n in writes ==> writes[n].Some?) ::
      if n in writes then writes[n].value else doc[n]
  }

  datatype Change = Change(before: Option<Node>, after: Option<Node>)

  type Patch = map<NodeId, Change>

  /** Exactly the ids whose node differs, with both values. */
  function NetPatch(a: Doc, b: Doc): Patch {
    map n | n in a.Keys + b.Keys && Differs(a, b, n) :: Change(Lookup(a, n), Lookup(b, n))
  }

  lemma NoDifference(a: Doc, b: Doc)
    requires forall n :: !Differs(a, b, n)
    ensures a == b
  {
    SameMaps(a, b);
  }

  lemma InPatch(a: Doc, b: Doc, n: NodeId)
    requires Differs(a, b, n)
    ensures n in NetPatch(a, b)
  {
  }

  lemma EmptyPatch(a: Doc, b: Doc)
    ensures NetPatch(a, b) == map[] <==> a == b
  {
    if NetPatch(a, b) == map[] {
      forall n ensures !Differs(a, b, n) {
        if Differs(a, b, n) {
          InPatch(a, b, n);
          assert false;
        }
      }
      NoDifference(a, b);
    }
  }

  // ----- The projection -----

  datatype View = View(
    kind: Kind,
    parent: Option<NodeId>,
    children: seq<NodeId>,
    text: string,
    tags: seq<NodeId>,
    targets: (Option<NodeId>, Option<NodeId>, Option<NodeId>),
    inlineRefs: seq<Option<NodeId>>,
    configKey: nat,
    locked: bool)

  /** `projectNode`: what of a node is shown, in a copy of its own. */
  function Project(node: Node): View {
    View(node.kind, node.parent, node.children, node.text, node.tags, (node.target, node.queryTarget, node.template),
         node.inlineRefs, node.configKey, node.locked)
  }

  function ProjectAll(doc: Doc): map<NodeId, View> {
    map n | n in doc :: Project(doc[n])
  }

  /** The projection of a document says of every node what the node says of itself. */
  lemma ProjectionSays(doc: Doc, n: NodeId)
    ensures n in ProjectAll(doc) <==> n in doc
    ensures n in doc ==> var view := ProjectAll(doc)[n];
      && view.kind == doc[n].kind && view.parent == doc[n].parent && view.children == doc[n].children
      && view.text == doc[n].text && view.tags == doc[n].tags
      && view.targets == (doc[n].target, doc[n].queryTarget, doc[n].template)
      && view.inlineRefs == doc[n].inlineRefs && view.configKey == doc[n].configKey && view.locked == doc[n].locked
  {
  }

  ghost predicate ShowsNode(views: map<NodeId, View>, doc: Doc, n: NodeId) {
    (n in views <==> n in doc) && (n in doc ==> views[n] == Project(doc[n]))
  }

  /** Some nodes are shown as they are after a change, the others still as they were before. */
  ghost predicate Folded(views: map<NodeId, View>, before: Doc, after: Doc, done: set<NodeId>) {
    forall n {:trigger n in views} {:trigger n in done} :: ShowsNode(views, if n in done then after else before, n)
  }

  lemma FoldsOne(views: map<NodeId, View>, before: Doc, after: Doc, done: set<NodeId>, id: NodeId)
    requires Folded(views, before, after, done)
    ensures Folded(WithView(views, id, Lookup(after, id)), before, after, done + {id})
  {
  }

  function WithView(views: map<NodeId, View>, id: NodeId, node: Option<Node>): map<NodeId, View> {
    match node
    case Some(value) => views[id := Project(value)]
    case None => views - {id}
  }

  lemma FoldStarts(before: Doc, after: Doc)
    ensures Folded(ProjectAll(before), before, after, {})
  {
  }

  lemma FoldEnds(views: map<NodeId, View>, before: Doc, writes: map<NodeId, Option<Node>>)
    requires Folded(views, before, Overlaid(before, writes), writes.Keys)
    ensures views == ProjectAll(Overlaid(before, writes))
  {
    var after := Overlaid(before, writes);
    forall n ensures ShowsNode(views, after, n) { assert n in writes.Keys || ShowsNode(views, before, n); }
    forall n ensures n in views <==> n in after { assert ShowsNode(views, after, n); }
    forall n | n in after ensures views[n] == Project(after[n]) { assert ShowsNode(views, after, n); }
  }

  ghost predicate IsSortedList(s: seq<NodeId>, keys: set<NodeId>) {
    (forall i, j :: 0 <= i < j < |s| ==> s[i] < s[j]) && forall n :: n in s <==> n in keys
  }

  /** A set of ids has one sorted list only, so a sorted list kept up to date is the rebuilt one. */
  lemma {:induction false} SortedOnce(s: seq<NodeId>, t: seq<NodeId>, keys: set<NodeId>)
    requires IsSortedList(s, keys) && IsSortedList(t, keys)
    ensures s == t
    decreases |s|
  {
    if s == [] {
      if t != [] {
        HasMember(t);
        assert false;
      }
    } else {
      assert s[0] in s;
      assert t != [] by { assert s[0] in t; }
      assert t[0] in t;
      assert s[0] == t[0];
      TailSorted(s, keys);
      TailSorted(t, keys);
      SortedOnce(s[1..], t[1..], keys - {s[0]});
    }
  }

  lemma TailSorted(s: seq<NodeId>, keys: set<NodeId>)
    requires s != [] && IsSortedList(s, keys)
    ensures IsSortedList(s[1..], keys - {s[0]})
  {
    forall n ensures n in s[1..] <==> n in keys - {s[0]} {
      assert n in s <==> n == s[0] || n in s[1..];
      if n in s[1..] {
        var i :| 0 <= i < |s| - 1 && s[1..][i] == n;
        assert s[0] < s[i + 1];
      }
    }
  }

  method SmallestOf(keys: set<NodeId>) returns (least: NodeId)
    requires keys != {}
    ensures least in keys && forall n :: n in keys ==> least <= n
  {
    least :| least in keys;
    var pending := keys;
    while pending != {}
      invariant pending <= keys && least in keys
      invariant forall n :: n in keys && n !in pending ==> least <= n
      decreases pending
    {
      var n :| n in pending;
      pending := pending - {n};
      if n < least { least := n; }
    }
  }

  method Sort(keys: set<NodeId>) returns (sorted: seq<NodeId>)
    ensures IsSortedList(sorted, keys)
  {
    sorted := [];
    var pending := keys;
    while pending != {}
      invariant pending <= keys && IsSortedList(sorted, keys - pending)
      invariant forall n, m :: n in sorted && m in pending ==> n < m
      decreases pending
    {
      var n := SmallestOf(pending);
      assert forall i :: 0 <= i < |sorted| ==> sorted[i] in sorted;
      sorted := sorted + [n];
      pending := pending - {n};
    }
  }

  // ----- What is kept beside the document -----

  datatype Delta = Delta(revision: nat, changed: set<NodeId>, full: bool)

  /** The values an aborted transaction goes back to. */
  datatype Saved = Saved(
    tree: Doc,
    revision: nat,
    persistenceRevision: nat,
    metadataSequence: nat,
    metadataChanges: seq<Metadata.Change>,
    history: History,
    delta: Delta)

  datatype Transaction = Transaction(
    operation: Option<Operation>,
    affected: set<NodeId>,
    originalNodes: map<NodeId, Option<Node>>,
    initialNodes: map<NodeId, Option<Node>>,
    changed: bool,
    saved: Saved)

  /** What a transaction was begun with. */
  predicate SameStart(t: Transaction, u: Transaction) {
    u.saved == t.saved && u.operation == t.operation
  }

  /** The first value of every node seen so far is remembered, for whatever differs from the start. */
  ghost predicate Remembers(initial: map<NodeId, Option<Node>>, start: Doc, now: Doc) {
    && (forall n :: n in initial ==> initial[n] == Lookup(start, n))
    && forall n {:trigger Differs(start, now, n)} :: Differs(start, now, n) ==> n in initial
  }

  lemma RemembersMore(initial: map<NodeId, Option<Node>>, start: Doc, now: Doc, later: Doc, touched: set<NodeId>)
    requires Remembers(initial, start, now) && Covers(touched, now, later)
    ensures Remembers(initial + map n | n in touched && n !in initial :: Lookup(now, n), start, later)
  {
    forall n | n in touched && n !in initial ensures Lookup(now, n) == Lookup(start, n) {
      assert !Differs(start, now, n);
    }
    forall n | Differs(start, later, n) ensures n in initial || n in touched {
      assert Differs(start, now, n) || Differs(now, later, n);
    }
  }

  /** `coreTransactionNodePatch`. */
  function TransactionPatch(initial: map<NodeId, Option<Node>>, now: Doc): Patch {
    map n | n in initial && initial[n] != Lookup(now, n) :: Change(initial[n], Lookup(now, n))
  }

  /** What is read off the remembered values is the exact net patch. */
  lemma PatchIsExact(initial: map<NodeId, Option<Node>>, start: Doc, now: Doc)
    requires Remembers(initial, start, now)
    ensures TransactionPatch(initial, now) == NetPatch(start, now)
  {
    var one, two := TransactionPatch(initial, now), NetPatch(start, now);
    forall n ensures n in one <==> n in two {
      assert Differs(start, now, n) <==> Lookup(start, n) != Lookup(now, n);
    }
  }

  // ----- What a command does to the document -----

  /** A command writes nodes and touches them, with the record it knows or without; it reads, and may commit a chunk. */
  datatype Step =
    | Touch(id: NodeId, node: Option<Node>)
    | Snapshot(id: NodeId, node: Option<Node>, record: Option<Node>)
    | Read
    | Chunk

  /** The document after a command. */
  function TreeAfter(doc: Doc, body: seq<Step>): Doc {
    if body == [] then doc
    else
      var before, last := TreeAfter(doc, body[..|body| - 1]), body[|body| - 1];
      if last.Touch? || last.Snapshot? then Assigned(before, last.id, last.node) else before
  }

  /** What reads show after a command. */
  function SeenAfter(seen: Doc, body: seq<Step>): Doc {
    if body == [] then seen
    else
      var before, last := SeenAfter(seen, body[..|body| - 1]), body[|body| - 1];
      if last.Touch? then Assigned(before, last.id, last.node)
      else if last.Snapshot? then Assigned(before, last.id, last.record)
      else before
  }

  /** The ids a command touches. */
  function TouchedBy(body: seq<Step>): set<NodeId> {
    if body == [] then {}
    else
      var before, last := TouchedBy(body[..|body| - 1]), body[|body| - 1];
      if last.Touch? || last.Snapshot? then before + {last.id} else before
  }

  /** The ids whose last write was touched with a record other than the node written. */
  function Behind(behind: set<NodeId>, body: seq<Step>): set<NodeId> {
    if body == [] then behind
    else
      var before, last := Behind(behind, body[..|body| - 1]), body[|body| - 1];
      if last.Touch? || (last.Snapshot? && last.record == last.node) then before - {last.id}
      else if last.Snapshot? then before + {last.id}
      else before
  }

  /** Reads differ from the document at exactly those ids. */
  lemma {:induction false} BehindExactly(doc: Doc, seen: Doc, behind: set<NodeId>, body: seq<Step>)
    requires forall n :: Differs(doc, seen, n) <==> n in behind
    ensures forall n :: Differs(TreeAfter(doc, body), SeenAfter(seen, body), n) <==> n in Behind(behind, body)
  {
    if body != [] { BehindExactly(doc, seen, behind, body[..|body| - 1]); }
  }

  /** A command leaves the reads right if and only if every record it gave last was the node it wrote. */
  lemma NothingBehind(doc: Doc, body: seq<Step>)
    ensures TreeAfter(doc, body) == SeenAfter(doc, body) <==> Behind({}, body) == {}
  {
    BehindExactly(doc, doc, {}, body);
    var tree, seen := TreeAfter(doc, body), SeenAfter(doc, body);
    if tree == seen {
      forall n ensures n !in Behind({}, body) { assert !Differs(tree, seen, n); }
    } else {
      NotEverywhereSame(tree, seen);
    }
  }

  lemma NotEverywhereSame(a: Doc, b: Doc)
    requires a != b
    ensures exists n :: Differs(a, b, n)
  {
    if forall n :: !Differs(a, b, n) { NoDifference(a, b); }
  }

  /** A patch tells where it leads. */
  lemma SamePatch(a: Doc, b: Doc, c: Doc)
    ensures NetPatch(a, b) == NetPatch(a, c) <==> b == c
  {
    if NetPatch(a, b) == NetPatch(a, c) {
      forall n ensures !Differs(b, c, n) {
        PatchTells(a, b, n);
        PatchTells(a, c, n);
      }
      NoDifference(b, c);
    }
  }

  lemma PatchTells(a: Doc, b: Doc, n: NodeId)
    ensures Lookup(b, n) == if n in NetPatch(a, b) then NetPatch(a, b)[n].after else Lookup(a, n)
  {
  }

  function Previous(start: Doc, replays: seq<Doc>, i: nat): Doc
    requires i <= |replays|
  {
    if i == 0 then start else replays[i - 1]
  }

  predicate Changes(start: Doc, replays: seq<Doc>, i: nat)
    requires i < |replays|
  {
    replays[i] != Previous(start, replays, i)
  }

  /** Each of the first replays changed something, and the next one, if there is one, did not. */
  ghost predicate HasReplayed(start: Doc, replays: seq<Doc>, count: nat) {
    && (forall i {:trigger Changes(start, replays, i)} :: 0 <= i < count <= |replays| ==> Changes(start, replays, i))
    && (count < |replays| ==> !Changes(start, replays, count))
  }

  class Core {
    const loro: LoroDocument
    var state: Doc
    var projectionReady: bool
    var projectionNodes: map<NodeId, View>
    var projectionOrder: seq<NodeId>
    var revision: nat
    var persistenceRevision: nat
    var metadataSequence: nat
    var metadataChanges: seq<Metadata.Change>
    var history: History
    var delta: Delta
    var transaction: Option<Transaction>
    /** What reads showed when the transaction began. */
    ghost var started: Doc

    /** The cache, once built, is what a full rebuild from the core's nodes gives. */
    ghost predicate CacheOk()
      reads this
    {
      projectionReady ==> projectionNodes == ProjectAll(state) && IsSortedList(projectionOrder, state.Keys)
    }

    /** Whatever a read shows other than the core's own nodes has been touched. */
    ghost predicate Tracked()
      reads this, loro
    {
      Covers(loro.touched, state, loro.Seen())
    }

    ghost predicate Remembering()
      reads this
    {
      transaction.Some? ==>
        Remembers(transaction.value.initialNodes, started, state) && WellKept(transaction.value.saved.history)
    }

    /** In the middle of a command. */
    ghost predicate Working()
      reads this, loro
    {
      Tracked() && CacheOk() && WellKept(history) && Remembering()
    }

    /** Between commands the core's own nodes are what reads show. */
    ghost predicate Settled()
      reads this, loro
    {
      transaction.None? && state == loro.Seen() && CacheOk() && WellKept(history)
    }

    /** Outside a transaction, whether or not everything that was written has been read again. */
    ghost predicate Idle()
      reads this
    {
      transaction.None? && CacheOk() && WellKept(history)
    }

    ghost predicate Running()
      reads this, loro
    {
      transaction.Some? && Working()
    }

    /** The core's own nodes are the document if and only if the record cache is right. */
    lemma AgreesExactly()
      requires Settled()
      ensures state == loro.tree <==> loro.Valid()
    {
      loro.SeenIsTree();
    }

    constructor (initial: Doc)
      ensures Settled() && loro.tree == state == initial && revision == 0 && fresh(loro) && loro.Valid()
    {
      loro := new LoroDocument(initial);
      state := initial;
      projectionReady, projectionNodes, projectionOrder := false, map[], [];
      revision, persistenceRevision, metadataSequence, metadataChanges, history := 0, 0, 0, [], [];
      delta, transaction, started := Delta(0, {}, true), None, initial;
      new;
      loro.SeenIsTree();
    }

    /** `ensureProjectionCache`. */
    method EnsureProjection()
      requires state == loro.Seen() && CacheOk()
      modifies this`projectionReady, this`projectionNodes, this`projectionOrder, loro`cache, loro`statePatch
      ensures projectionReady && CacheOk() && loro.Seen() == old(loro.Seen())
    {
      if projectionReady { return; }
      loro.Reconcile();
      projectionNodes := ProjectAll(loro.cache);
      projectionOrder := Sort(projectionNodes.Keys);
      projectionReady := true;
    }

    /** `verifyCaches`: the projection is compared with a fresh one, but both come from the record cache. */
    method VerifyCaches() returns (same: bool)
      requires Settled()
      modifies this`projectionReady, this`projectionNodes, this`projectionOrder, loro`cache, loro`statePatch
      ensures Settled() && projectionReady && same
    {
      hide ProjectAll;
      EnsureProjection();
      loro.Reconcile();
      var order := Sort(loro.cache.Keys);
      SortedOnce(projectionOrder, order, state.Keys);
      same := projectionNodes == ProjectAll(loro.cache) && projectionOrder == order;
    }

    /** `patchStateValue`. */
    method PatchState(afterNodes: map<NodeId, Option<Node>>)
      modifies this`state
      ensures state == Overlaid(old(state), afterNodes)
    {
      state := (map n | n in state && n !in afterNodes :: state[n]) +
        (map n | n in afterNodes && afterNodes[n].Some? :: afterNodes[n].value);
    }

    /** `patchProjectionCache`: folds some nodes in, and sorts again only if ids came or went. */
    method PatchProjection(afterNodes: map<NodeId, Option<Node>>, ghost before: Doc)
      requires projectionReady ==> projectionNodes == ProjectAll(before) && IsSortedList(projectionOrder, before.Keys)
      requires state == Overlaid(before, afterNodes)
      modifies this`projectionNodes, this`projectionOrder
      ensures CacheOk()
      ensures !projectionReady ==> projectionNodes == old(projectionNodes) && projectionOrder == old(projectionOrder)
    {
      hide Project, ProjectAll, Folded, Overlaid, IsSortedList, WithView;
      if !projectionReady { return; }
      var membershipChanged := FoldAll(afterNodes, before);
      KeysShown(before);
      KeysShown(state);
      if membershipChanged { projectionOrder := Sort(projectionNodes.Keys); }
    }

    method FoldAll(afterNodes: map<NodeId, Option<Node>>, ghost before: Doc) returns (membershipChanged: bool)
      requires projectionNodes == ProjectAll(before) && state == Overlaid(before, afterNodes)
      modifies this`projectionNodes
      ensures projectionNodes == ProjectAll(state)
      ensures !membershipChanged ==> projectionNodes.Keys == old(projectionNodes).Keys
    {
      hide Project, ProjectAll, Folded, Overlaid, WithView;
      FoldStarts(before, state);
      membershipChanged := false;
      var pending := afterNodes.Keys;
      ghost var done := {};
      while pending != {}
        invariant done + pending == afterNodes.Keys && Folded(projectionNodes, before, state, done)
        invariant !membershipChanged ==> projectionNodes.Keys == old(projectionNodes).Keys
        decreases pending
      {
        var n :| n in pending;
        FoldsOne(projectionNodes, before, state, done, n);
        LookupOverlaid(before, afterNodes, n);
        var changed := ProjectOne(n, afterNodes[n]);
        pending, done := pending - {n}, done + {n};
        membershipChanged := membershipChanged || changed;
      }
      FoldEnds(projectionNodes, before, afterNodes);
    }

    /** One node of `patchProjectionCache`; whether the id came or went. */
    method ProjectOne(n: NodeId, node: Option<Node>) returns (membershipChanged: bool)
      modifies this`projectionNodes
      ensures projectionNodes == WithView(old(projectionNodes), n, node)
      ensures !membershipChanged ==> projectionNodes.Keys == old(projectionNodes).Keys
    {
      membershipChanged := (n in projectionNodes) != node.Some?;
      if node.Some? {
        projectionNodes := projectionNodes[n := Project(node.value)];
      } else if n in projectionNodes {
        projectionNodes := projectionNodes - {n};
      } else {
        assert projectionNodes - {n} == projectionNodes;
      }
    }

    /** `drainTouchedMutationPatch`: the touched nodes are read again, and nothing else needs to be. */
    method Drain() returns (affected: set<NodeId>, changed: bool)
      requires CacheOk()
      modifies this`state, this`projectionNodes, this`projectionOrder, loro`cache, loro`statePatch, loro`touched
      ensures loro.touched == {} && loro.Seen() == old(loro.Seen()) && affected == old(loro.touched)
      ensures CacheOk() && state == Shown(loro.Seen(), old(state), affected)
      ensures old(Tracked()) ==> state == loro.Seen()
      ensures changed <==> old(state) != state
    {
      hide Covers, ProjectAll, IsSortedList, Overlaid, Shown;
      affected := loro.touched;
      loro.ClearTouched();
      ghost var before, seen := state, loro.Seen();
      ShownDrained(before, seen, affected);
      if affected == {} { return affected, false; }
      var afterNodes := loro.MaterializeNodes(affected);
      OverlaidShown(before, seen, afterNodes);
      changed := ChangedNodes(state, afterNodes) != {};
      ChangedAlike(before, seen, afterNodes);
      PatchState(afterNodes);
      if changed { PatchProjection(afterNodes, before); }
    }

    /** One step of the body of a command. */
    method Do(step: Step)
      requires Working()
      modifies this`state, this`projectionNodes, this`projectionOrder, this`transaction, loro
      ensures Working() && loro.tree == TreeAfter(old(loro.tree), [step]) && loro.Seen() == SeenAfter(old(loro.Seen()), [step])
      ensures old(transaction).None? ==> transaction.None? && state == old(state)
      ensures old(transaction).Some? ==> transaction.Some? && SameStart(old(transaction).value, transaction.value)
    {
      hide Remembers, IsSortedList, ProjectAll;
      if step.Chunk? {
        CommitChunk();
      } else {
        CoversStep(loro.touched, state, loro.Seen(), step);
        Put(step);
      }
      assert [step][..0] == [];
    }

    /** One step on the document. */
    method Put(step: Step)
      requires !step.Chunk?
      modifies loro
      ensures loro.tree == TreeAfter(old(loro.tree), [step]) && loro.Seen() == SeenAfter(old(loro.Seen()), [step])
      ensures loro.touched == old(loro.touched) + TouchedBy([step])
    {
      assert [step][..0] == [];
      match step {
        case Touch(id, node) => loro.Touch(id, node);
        case Snapshot(id, node, record) => loro.TouchWithSnapshot(id, node, record);
        case Read => loro.Reconcile();
      }
    }

    /** The body of a command outside a transaction, where chunk commits do nothing. */
    method RunAlone(body: seq<Step>)
      requires transaction.None?
      modifies loro
      ensures loro.tree == TreeAfter(old(loro.tree), body) && loro.Seen() == SeenAfter(old(loro.Seen()), body)
      ensures loro.touched == old(loro.touched) + TouchedBy(body)
    {
      hide *;
      NothingDone(loro.tree, loro.Seen());
      NothingTouchedBy(loro.touched);
      assert body[..0] == [];
      var i := 0;
      while i < |body|
        invariant 0 <= i <= |body| && loro.touched == old(loro.touched) + TouchedBy(body[..i])
        invariant loro.tree == TreeAfter(old(loro.tree), body[..i]) && loro.Seen() == SeenAfter(old(loro.Seen()), body[..i])
      {
        OneMore(old(loro.tree), old(loro.Seen()), body, i);
        OneMoreTouched(body, i);
        if body[i].Chunk? { ChunkIsNothing(loro.tree, loro.Seen()); } else { Put(body[i]); }
        i := i + 1;
      }
      assert body[..|body|] == body;
    }

    method Run(body: seq<Step>)
      requires Working()
      modifies this`state, this`projectionNodes, this`projectionOrder, this`transaction, loro
      ensures Working() && loro.tree == TreeAfter(old(loro.tree), body) && loro.Seen() == SeenAfter(old(loro.Seen()), body)
      ensures old(transaction).None? ==> transaction.None? && state == old(state)
      ensures old(transaction).Some? ==> transaction.Some? && SameStart(old(transaction).value, transaction.value)
    {
      hide Working, Tracked, CacheOk, Remembering, TreeAfter, SeenAfter, TouchedBy, WellKept, loro.Seen;
      NothingDone(loro.tree, loro.Seen());
      assert body[..0] == [];
      var i := 0;
      while i < |body|
        invariant 0 <= i <= |body| && Working()
        invariant loro.tree == TreeAfter(old(loro.tree), body[..i]) && loro.Seen() == SeenAfter(old(loro.Seen()), body[..i])
        invariant old(transaction).None? ==> transaction.None? && state == old(state)
        invariant old(transaction).Some? ==> transaction.Some? && SameStart(old(transaction).value, transaction.value)
      {
        OneMore(old(loro.tree), old(loro.Seen()), body, i);
        Do(body[i]);
        i := i + 1;
      }
      assert body[..|body|] == body;
    }

    method BumpRevision(changed: set<NodeId>, full: bool)
      modifies this`revision, this`delta
      ensures revision == old(revision) + 1 && delta == Delta(revision, changed, full)
    {
      revision := revision + 1;
      delta := Delta(revision, changed, full);
    }

    /** `recordPersistenceMetadataChange`. */
    method RecordMetadata(deletes: seq<Metadata.OperationId>, upsert: Option<(Metadata.OperationId, Metadata.Entry)>,
                          waiting: Option<seq<string>>)
      modifies this`metadataSequence, this`metadataChanges
      ensures metadataSequence == old(metadataSequence) + 1
      ensures metadataChanges == old(metadataChanges) + [Metadata.Change(metadataSequence, deletes, upsert, waiting)]
    {
      metadataSequence := metadataSequence + 1;
      metadataChanges := metadataChanges + [Metadata.Change(metadataSequence, deletes, upsert, waiting)];
    }

    /** `commitCurrentTransaction`: what goes into the history goes into the log as well. */
    method Commit(operation: Option<Operation>, affected: set<NodeId>)
      requires WellKept(history)
      modifies this`persistenceRevision, this`history, this`metadataSequence, this`metadataChanges
      ensures persistenceRevision == old(persistenceRevision) + 1 && WellKept(history)
      ensures Journals(old(history), history, operation, affected)
      ensures Tells(old(history), history, old(metadataChanges), metadataChanges, old(metadataSequence), metadataSequence)
      ensures |metadataChanges| == |old(metadataChanges)| + if operation.None? then 0 else 1
    {
      hide WellKept, Records, Tells, Evicted, Recorded, Ids, IndexOfEntry;
      persistenceRevision := persistenceRevision + 1;
      if operation.Some? {
        var id, entry := operation.value.id, Metadata.Entry(operation.value.summary, affected);
        RecordedIs(history, id, entry);
        TellsRecording(history, metadataChanges, id, entry, metadataSequence);
        var evicted := Ids(Evicted(history, id, entry));
        history := Recorded(history, id, entry);
        var i := IndexOfEntry(history, id);
        RecordMetadata(evicted, Some(if i < |history| then history[i] else (id, entry)), None);
      } else {
        TellsNothing(history, metadataChanges, metadataSequence);
      }
    }

    /** `finalizeTouchedMutation`. */
    method FinalizeTouchedMutation(operation: Option<Operation>) returns (changed: bool)
      requires Idle()
      modifies this, loro`cache, loro`statePatch, loro`touched
      ensures Idle() && loro.touched == {} && loro.Seen() == old(loro.Seen())
      ensures state == Shown(loro.Seen(), old(state), old(loro.touched))
      ensures old(Tracked()) ==> Settled() && state == loro.Seen() && (state == loro.tree <==> loro.Valid())
      ensures changed <==> state != old(state)
      ensures revision == old(revision) + if changed then 1 else 0
      ensures persistenceRevision == old(persistenceRevision) + if changed then 1 else 0
      ensures changed ==> delta == Delta(revision, old(loro.touched), false)
      ensures !changed ==> delta == old(delta) && history == old(history) && metadataChanges == old(metadataChanges)
      ensures changed ==> Journals(old(history), history, operation, old(loro.touched))
      ensures Tells(old(history), history, old(metadataChanges), metadataChanges, old(metadataSequence), metadataSequence)
    {
      hide Overlaid, ProjectAll, IsSortedList, Covers, Remembers, Shown, Agreeing, WellKept, Records, Tells;
      TellsNothing(history, metadataChanges, metadataSequence);
      var affected;
      affected, changed := Drain();
      if changed {
        Commit(operation, affected);
        BumpRevision(affected, false);
      }
      loro.SeenIsTree();
    }

    /**
     * `mutate`: in a transaction the writes wait for the drain; alone they are finalized at once. The core's nodes follow
     * what reads show, which is the document if and only if the record cache is right.
     */
    method Mutate(body: seq<Step>, operation: Option<Operation>)
      requires Idle() || Running()
      modifies this, loro
      ensures loro.tree == TreeAfter(old(loro.tree), body) && loro.Seen() == SeenAfter(old(loro.Seen()), body)
      ensures old(Idle()) ==> Idle() && loro.touched == {} && state == Shown(loro.Seen(), old(state), TouchedBy(body))
      ensures old(Running()) ==> Running() && SameStart(old(transaction).value, transaction.value) && started == old(started)
      ensures old(Running()) ==> revision == old(revision) && delta == old(delta) && persistenceRevision == old(persistenceRevision)
      ensures old(Running()) ==>
        history == old(history) && metadataSequence == old(metadataSequence) && metadataChanges == old(metadataChanges)
      ensures old(Settled()) ==> Settled() && (state == loro.tree <==> loro.Valid())
      ensures old(Idle()) ==> revision == old(revision) + if state == old(state) then 0 else 1
      ensures old(Idle()) ==> persistenceRevision == old(persistenceRevision) + if state == old(state) then 0 else 1
      ensures old(Idle()) && state == old(state) ==> history == old(history) && metadataChanges == old(metadataChanges)
      ensures old(Idle()) && state != old(state) ==> Journals(old(history), history, operation, TouchedBy(body))
      ensures Tells(old(history), history, old(metadataChanges), metadataChanges, old(metadataSequence), metadataSequence)
    {
      hide Covers, IsSortedList, ProjectAll, Remembers, TreeAfter, SeenAfter, TouchedBy, Shown, Agreeing, WellKept, Records, Tells;
      TellsNothing(history, metadataChanges, metadataSequence);
      if transaction.Some? {
        Run(body);
        return;
      }
      BodyCovered(loro.Seen(), body);
      loro.ClearTouched();
      RunAlone(body);
      assert {} + TouchedBy(body) == TouchedBy(body);
      var changed := FinalizeTouchedMutation(operation);
    }

    /** The start of a transaction: everything an abort needs is put aside. */
    method Begin(operation: Option<Operation>)
      requires Settled()
      modifies this`transaction, this`started, loro`touched
      ensures Running() && started == state
      ensures transaction.value.operation == operation && transaction.value.saved ==
        Saved(loro.tree, revision, persistenceRevision, metadataSequence, metadataChanges, history, delta)
    {
      loro.ClearTouched();
      started := state;
      transaction := Some(Transaction(operation, {}, map[], map[], false,
        Saved(loro.tree, revision, persistenceRevision, metadataSequence, metadataChanges, Newest(history), delta)));
    }

    /** `patchActiveTransactionTouchedNodes` and `captureActiveTransactionNetChanges`. */
    method DrainTransaction()
      requires Running()
      modifies this`state, this`projectionNodes, this`projectionOrder, this`transaction, loro`cache, loro`statePatch, loro`touched
      ensures Running() && loro.touched == {} && loro.Seen() == old(loro.Seen()) && state == loro.Seen()
      ensures SameStart(old(transaction).value, transaction.value)
    {
      hide ProjectAll, IsSortedList, Shown;
      var t := transaction.value;
      RemembersMore(t.initialNodes, started, state, loro.Seen(), loro.touched);
      var initial := t.initialNodes + map n | n in loro.touched && n !in t.initialNodes :: Lookup(state, n);
      var original := t.originalNodes + map n | n in loro.touched && n !in t.originalNodes :: Lookup(state, n);
      hide Covers, Remembers;
      var affected, changed := Drain();
      var net := set n | n in original && original[n] != Lookup(state, n);
      transaction := Some(t.(
        initialNodes := initial, originalNodes := map[],
        affected := t.affected + net, changed := t.changed || net != {}));
      CoversSame({}, state);
    }

    /** `commitActiveTransactionChunk`: the document is committed, the transaction goes on. */
    method CommitChunk()
      requires Working()
      modifies this`state, this`projectionNodes, this`projectionOrder, this`transaction, loro`cache, loro`statePatch, loro`touched
      ensures Working() && loro.Seen() == old(loro.Seen())
      ensures old(transaction).None? ==> transaction.None? && state == old(state)
      ensures old(transaction).Some? ==> transaction.Some? && SameStart(old(transaction).value, transaction.value)
      ensures old(transaction).Some? ==> state == loro.Seen()
    {
      hide Covers, ProjectAll, IsSortedList, Remembers;
      if transaction.None? { return; }
      DrainTransaction();
    }

    /**
     * `finalizeActiveTransaction`: however many chunks there were, the patch is the exact difference between what reads
     * showed at the start and show now, and without a difference no revision moves. It is the difference between the
     * documents if and only if the record cache, right at the start, is right at the end.
     */
    method Finish() returns (patch: Patch)
      requires Running()
      modifies this, loro`cache, loro`statePatch, loro`touched
      ensures Settled() && state == old(loro.Seen()) && (state == loro.tree <==> loro.Valid())
      ensures patch == NetPatch(old(started), state)
      ensures patch == NetPatch(old(started), loro.tree) <==> loro.Valid()
      ensures patch == map[] <==> state == old(started)
      ensures revision == old(revision) + if patch == map[] then 0 else 1
      ensures persistenceRevision == old(persistenceRevision) + if patch == map[] then 0 else 1
      ensures patch != map[] ==> delta == Delta(revision, patch.Keys, false)
      ensures patch == map[] ==> delta == old(delta) && history == old(history) && metadataChanges == old(metadataChanges)
      ensures patch != map[] ==> Journals(old(history), history, old(transaction).value.operation, patch.Keys)
      ensures Tells(old(history), history, old(metadataChanges), metadataChanges, old(metadataSequence), metadataSequence)
    {
      hide Overlaid, ProjectAll, IsSortedList, Covers, Remembers, TransactionPatch, NetPatch, Shown, Agreeing, WellKept, Records, Tells;
      TellsNothing(history, metadataChanges, metadataSequence);
      DrainTransaction();
      var t := transaction.value;
      patch := TransactionPatch(t.initialNodes, state);
      PatchIsExact(t.initialNodes, started, state);
      EmptyPatch(started, state);
      SamePatch(started, state, loro.tree);
      transaction := None;
      if patch != map[] {
        Commit(t.operation, patch.Keys);
        BumpRevision(patch.Keys, false);
      }
      AgreesExactly();
    }

    /** The transaction failed: the document and everything beside it are as they were, and all caches are built again. */
    method Abort()
      requires Running()
      modifies this, loro
      ensures Settled() && loro.Valid()
      ensures var saved := old(transaction).value.saved;
        && loro.tree == saved.tree && state == saved.tree && revision == saved.revision
        && persistenceRevision == saved.persistenceRevision && metadataSequence == saved.metadataSequence
        && metadataChanges == saved.metadataChanges && history == saved.history && delta == saved.delta
    {
      var saved := transaction.value.saved;
      loro.Rewrite(saved.tree);
      loro.ClearTouched();
      transaction := None;
      revision, persistenceRevision := saved.revision, saved.persistenceRevision;
      metadataSequence, metadataChanges := saved.metadataSequence, saved.metadataChanges;
      history := saved.history;
      delta := saved.delta;
      InvalidateProjection();
      RefreshState();
    }

    /**
     * `transactionWithResolvedOriginAndPatch` around any body, which may fail after any of its steps: either the exact
     * patch of the whole body, or everything as before.
     */
    method Transact(operation: Option<Operation>, body: seq<Step>, failsAfter: Option<nat>) returns (patch: Option<Patch>)
      requires Settled()
      modifies this, loro
      ensures Settled() && (state == loro.tree <==> loro.Valid())
      ensures patch.Some? <==> failsAfter.None? || failsAfter.value > |body|
      ensures patch.Some? ==> loro.tree == TreeAfter(old(loro.tree), body) && state == SeenAfter(old(state), body)
      ensures patch.Some? ==> patch.value == NetPatch(old(state), state)
      ensures patch.Some? && old(loro.Valid()) ==> (patch.value == NetPatch(old(loro.tree), loro.tree) <==> Behind({}, body) == {})
      ensures patch.Some? && old(loro.Valid()) ==> (state == loro.tree <==> Behind({}, body) == {})
      ensures patch.Some? ==> revision == old(revision) + if state == old(state) then 0 else 1
      ensures patch.None? ==> loro.tree == old(loro.tree) && loro.Valid() && (state == old(state) <==> old(loro.Valid()))
      ensures patch.None? ==> revision == old(revision) && delta == old(delta)
      ensures patch.None? ==> persistenceRevision == old(persistenceRevision) && history == old(history)
      ensures patch.None? ==> metadataSequence == old(metadataSequence) && metadataChanges == old(metadataChanges)
      ensures patch.Some? && state == old(state) ==> history == old(history) && metadataChanges == old(metadataChanges)
      ensures patch.Some? && state != old(state) ==> Journals(old(history), history, operation, patch.value.Keys)
      ensures Tells(old(history), history, old(metadataChanges), metadataChanges, old(metadataSequence), metadataSequence)
    {
      hide CacheOk, Tracked, Remembers, TreeAfter, SeenAfter, Behind, NetPatch, WellKept, Records, Tells;
      TellsNothing(history, metadataChanges, metadataSequence);
      AgreesExactly();
      NothingBehind(loro.tree, body);
      Begin(operation);
      var fails := failsAfter.Some? && failsAfter.value <= |body|;
      Run(if fails then body[..failsAfter.value] else body);
      if fails {
        Abort();
        AgreesExactly();
        return None;
      }
      var exact := Finish();
      patch := Some(exact);
    }

    method InvalidateProjection()
      modifies this`projectionReady, this`projectionNodes, this`projectionOrder
      ensures !projectionReady
    {
      projectionReady, projectionNodes, projectionOrder := false, map[], [];
    }

    /** `refreshStateFromLoro`. */
    method RefreshState()
      modifies this`state, loro`cache, loro`statePatch
      ensures state == loro.Seen() == old(loro.Seen()) && (old(loro.Valid()) ==> loro.Valid())
    {
      loro.Reconcile();
      state := loro.cache;
    }

    /**
     * `applyReplicationUpdates`: imported changes are folded in, or everything is compared when the import cannot say
     * what it affected. Only the second puts a wrong record cache right.
     */
    method Import(imported: Doc, affected: set<NodeId>, full: bool, waiting: Option<seq<string>>) returns (accepted: bool)
      requires Settled() || Running()
      requires full || Covers(affected, loro.tree, imported)
      modifies this, loro
      ensures accepted <==> old(transaction).None?
      ensures !accepted ==> loro.tree == old(loro.tree) && transaction == old(transaction) && state == old(state)
      ensures accepted ==> Settled() && loro.tree == imported && (state == imported <==> loro.Valid())
      ensures accepted && (full || old(loro.Valid())) ==> loro.Valid()
      ensures accepted && !full ==>
        forall n :: Lookup(state, n) == if n in affected then Lookup(imported, n) else Lookup(old(state), n)
      ensures accepted ==> revision == old(revision) + if state == old(state) then 0 else 1
      ensures accepted ==> persistenceRevision == old(persistenceRevision) + if waiting.None? then 0 else 1
      ensures accepted && waiting.Some? ==>
        metadataChanges == old(metadataChanges) + [Metadata.Change(old(metadataSequence) + 1, [], None, waiting)]
      ensures history == old(history) && (!accepted || waiting.None? ==> metadataChanges == old(metadataChanges))
    {
      if transaction.Some? { return false; }
      accepted := true;
      ghost var before := state;
      if full {
        loro.Rewrite(imported);
      } else {
        loro.Imported(imported, affected);
        CoversAffected(before, loro.Seen(), affected);
      }
      if waiting.Some? {
        persistenceRevision := persistenceRevision + 1;
        RecordMetadata([], None, waiting);
      }
      if full { CompareAll(); } else { CompareSome(affected); }
      AgreesExactly();
    }

    /** The first end of an import: all nodes are compared. */
    method CompareAll()
      requires CacheOk() && transaction.None? && WellKept(history)
      modifies this`state, this`projectionReady, this`projectionNodes, this`projectionOrder, this`revision, this`delta, loro`cache, loro`statePatch, loro`touched
      ensures Settled() && loro.Seen() == old(loro.Seen())
      ensures revision == old(revision) + if state == old(state) then 0 else 1
      ensures old(loro.Valid()) ==> loro.Valid()
    {
      hide Shown, Agreeing, ProjectAll, IsSortedList;
      loro.Reconcile();
      ComparedAll(state, loro.cache);
      var changed := ChangedIn(state.Keys + loro.cache.Keys, state, loro.cache);
      loro.ClearTouched();
      if changed != {} {
        InvalidateProjection();
        state := loro.cache;
        BumpRevision(changed, true);
      }
    }

    /** The second: some nodes are compared and folded in. */
    method CompareSome(affected: set<NodeId>)
      requires CacheOk() && transaction.None? && WellKept(history) && Covers(affected, state, loro.Seen())
      modifies this`state, this`projectionNodes, this`projectionOrder, this`revision, this`delta, loro`cache, loro`statePatch, loro`touched
      ensures Settled() && loro.Seen() == old(loro.Seen())
      ensures revision == old(revision) + if state == old(state) then 0 else 1
      ensures old(loro.Valid()) ==> loro.Valid()
    {
      hide ProjectAll, IsSortedList, Overlaid, Shown, Agreeing;
      ghost var before, seen := state, loro.Seen();
      ComparedSome(before, seen, affected, ChangedIn(affected, before, seen));
      loro.SeenIsTree();
      var afterNodes := loro.MaterializeNodes(affected);
      loro.SeenIsTree();
      ChangedAlike(before, seen, afterNodes);
      OverlaidSeen(before, seen, afterNodes);
      var changed := ChangedNodes(state, afterNodes);
      loro.ClearTouched();
      if changed != {} {
        PatchState(afterNodes);
        PatchProjection(afterNodes, before);
        BumpRevision(changed, true);
      }
    }

    /**
     * `applyOperationHistory`: the undo manager gives one document after the other, up to one that changes nothing or until
     * it has no more. They come without touched ids, so everything is read again, and the record cache is right afterwards.
     */
    method ReplayHistory(replays: seq<Doc>, exhausted: bool) returns (count: nat)
      requires Settled()
      modifies this, loro
      ensures Settled() && count <= |replays| && (replays != [] || exhausted || old(loro.Valid()) ==> loro.Valid())
      ensures loro.tree == if replays == [] then old(loro.tree) else replays[Least(count, |replays| - 1)]
      ensures HasReplayed(old(state), replays, count)
      ensures revision == old(revision) + if count > 0 then 1 else 0
      ensures persistenceRevision == old(persistenceRevision) + if count > 0 then 1 else 0
      ensures history == old(history) && metadataChanges == old(metadataChanges) && metadataSequence == old(metadataSequence)
    {
      hide ProjectAll, IsSortedList, Shown, Agreeing;
      count := Replay(replays);
      if count == |replays| && exhausted { loro.Rewrite(loro.tree); }
      if count > 0 {
        persistenceRevision := persistenceRevision + 1;
        BumpRevision({}, true);
      }
      InvalidateProjection();
      RefreshState();
    }

    method Replay(replays: seq<Doc>) returns (count: nat)
      modifies loro
      ensures count <= |replays| && HasReplayed(old(loro.Seen()), replays, count)
      ensures loro.tree == if replays == [] then old(loro.tree) else replays[Least(count, |replays| - 1)]
      ensures replays != [] || old(loro.Valid()) ==> loro.Valid()
    {
      hide Shown, Agreeing;
      count := 0;
      while count < |replays|
        invariant count <= |replays| && loro.tree == Previous(old(loro.tree), replays, count)
        invariant loro.Seen() == Previous(old(loro.Seen()), replays, count)
        invariant count > 0 || old(loro.Valid()) ==> loro.Valid()
        invariant forall i {:trigger Changes(old(loro.Seen()), replays, i)} :: 0 <= i < count ==>
          Changes(old(loro.Seen()), replays, i)
      {
        ghost var seen := old(loro.Seen());
        var changed := ReplayOne(replays[count]);
        assert Changes(seen, replays, count) <==> changed;
        hide Changes;
        if !changed { return; }
        count := count + 1;
      }
    }

    method ReplayOne(next: Doc) returns (changed: bool)
      modifies loro
      ensures loro.tree == loro.Seen() == next && loro.Valid() && (changed <==> next != old(loro.Seen()))
    {
      loro.Reconcile();
      var before := loro.cache;
      loro.Rewrite(next);
      loro.Reconcile();
      changed := before != loro.cache;
    }

    /**
     * A synchronous command outside a transaction that fails after writing is not undone: what it wrote stays in the
     * document, and the core's own nodes are behind unless reads show no difference.
     */
    method MutateAndFail(body: seq<Step>)
      requires Settled()
      modifies this`state, this`projectionNodes, this`projectionOrder, this`transaction, loro
      ensures loro.tree == TreeAfter(old(loro.tree), body) && Working() && state == old(state)
      ensures Settled() <==> SeenAfter(old(state), body) == old(state)
    {
      hide Covers, IsSortedList, ProjectAll, Remembers, TreeAfter, SeenAfter;
      loro.ClearTouched();
      CoversSame({}, state);
      Run(body);
    }

    /** `mutateAsyncFocus` whose body fails: the document is put back, and all caches are built again. */
    method MutateAsyncAndFail(body: seq<Step>)
      requires Settled()
      modifies this, loro
      ensures Settled() && loro.Valid() && loro.tree == state == old(loro.tree) && revision == old(revision)
      ensures state == old(state) <==> old(loro.Valid())
      ensures history == old(history) && metadataChanges == old(metadataChanges) && metadataSequence == old(metadataSequence)
    {
      hide Covers, IsSortedList, ProjectAll, Remembers, TreeAfter, SeenAfter;
      AgreesExactly();
      loro.ClearTouched();
      CoversSame({}, state);
      var rollback := loro.tree;
      Run(body);
      loro.Rewrite(rollback);
      loro.ClearTouched();
      InvalidateProjection();
      RefreshState();
    }
  }

  // ----- Steps of the proofs above -----

  lemma KeysShown(doc: Doc)
    ensures ProjectAll(doc).Keys == doc.Keys
  {
  }

  lemma LookupOverlaid(doc: Doc, writes: map<NodeId, Option<Node>>, n: NodeId)
    requires n in writes
    ensures Lookup(Overlaid(doc, writes), n) == writes[n]
  {
  }

  lemma CoversAssigned(touched: set<NodeId>, a: Doc, b: Doc, id: NodeId, node: Option<Node>)
    requires Covers(touched, a, b)
    ensures Covers(touched + {id}, a, Assigned(b, id, node))
  {
    forall n | Differs(a, Assigned(b, id, node), n) ensures n in touched + {id} {
      if n != id { assert Differs(a, b, n); }
    }
  }

  lemma CoversAffected(a: Doc, b: Doc, affected: set<NodeId>)
    requires forall n :: n !in affected ==> Lookup(a, n) == Lookup(b, n)
    ensures Covers(affected, a, b)
  {
    forall n | Differs(a, b, n) ensures n in affected {}
  }

  lemma NothingDone(doc: Doc, seen: Doc)
    ensures TreeAfter(doc, []) == doc && SeenAfter(seen, []) == seen
  {
  }

  lemma OneMore(doc: Doc, seen: Doc, body: seq<Step>, i: nat)
    requires i < |body|
    ensures TreeAfter(doc, body[..i + 1]) == TreeAfter(TreeAfter(doc, body[..i]), [body[i]])
    ensures SeenAfter(seen, body[..i + 1]) == SeenAfter(SeenAfter(seen, body[..i]), [body[i]])
  {
    assert body[..i + 1][..i] == body[..i] && [body[i]][..0] == [];
  }

  /** `changedTouchedNodeIds`. */
  function ChangedNodes(before: Doc, afterNodes: map<NodeId, Option<Node>>): set<NodeId> {
    set n | n in afterNodes && Lookup(before, n) != afterNodes[n]
  }

  /** `changedNodeIdsBetweenStates`. */
  function ChangedIn(ids: set<NodeId>, a: Doc, b: Doc): set<NodeId> {
    set n | n in ids && Lookup(a, n) != Lookup(b, n)
  }

  lemma ChangedAlike(before: Doc, seen: Doc, afterNodes: map<NodeId, Option<Node>>)
    requires forall n :: n in afterNodes ==> afterNodes[n] == Lookup(seen, n)
    ensures ChangedNodes(before, afterNodes) == ChangedIn(afterNodes.Keys, before, seen)
  {
  }

  lemma OverlaidShown(before: Doc, seen: Doc, afterNodes: map<NodeId, Option<Node>>)
    requires forall n :: n in afterNodes ==> afterNodes[n] == Lookup(seen, n)
    ensures Overlaid(before, afterNodes) == Shown(seen, before, afterNodes.Keys)
    ensures ChangedNodes(before, afterNodes) == {} <==> Overlaid(before, afterNodes) == before
  {
    var after, shown := Overlaid(before, afterNodes), Shown(seen, before, afterNodes.Keys);
    forall n ensures !Differs(after, shown, n) { ShownAt(seen, before, afterNodes.Keys, n); }
    NoDifference(after, shown);
    if ChangedNodes(before, afterNodes) == {} {
      forall n ensures !Differs(after, before, n) { assert n in afterNodes ==> n !in ChangedNodes(before, afterNodes); }
      NoDifference(after, before);
    } else {
      var n :| n in ChangedNodes(before, afterNodes);
      assert Lookup(after, n) != Lookup(before, n);
    }
  }

  /** A drain gives what reads show if whatever they show otherwise has been touched. */
  lemma ShownDrained(before: Doc, seen: Doc, affected: set<NodeId>)
    ensures Covers(affected, before, seen) <==> Shown(seen, before, affected) == seen
    ensures affected == {} ==> Shown(seen, before, affected) == before
  {
    ShownIsTree(seen, before, affected);
    forall n ensures Differs(before, seen, n) <==> Differs(seen, before, n) {}
    if affected == {} { NothingMarked(seen, before); }
  }

  lemma NothingMarked(seen: Doc, before: Doc)
    ensures Shown(seen, before, {}) == before
  {
  }

  lemma CoversStep(touched: set<NodeId>, a: Doc, b: Doc, step: Step)
    requires Covers(touched, a, b)
    ensures Covers(touched + TouchedBy([step]), a, SeenAfter(b, [step]))
  {
    assert [step][..0] == [];
    if step.Touch? { CoversAssigned(touched, a, b, step.id, step.node); }
    if step.Snapshot? { CoversAssigned(touched, a, b, step.id, step.record); }
    assert touched + {} == touched;
  }

  lemma BodyCovered(seen: Doc, body: seq<Step>)
    ensures Covers(TouchedBy(body), seen, SeenAfter(seen, body))
    decreases |body|
  {
    if body == [] {
      CoversSame({}, seen);
    } else {
      var first, last := body[..|body| - 1], body[|body| - 1];
      BodyCovered(seen, first);
      hide TouchedBy, SeenAfter;
      assert body[..|body|] == body && |body| - 1 + 1 == |body|;
      OneMoreTouched(body, |body| - 1);
      OneMore(seen, seen, body, |body| - 1);
      CoversStep(TouchedBy(first), seen, SeenAfter(seen, first), last);
    }
  }

  lemma NothingTouchedBy(touched: set<NodeId>)
    ensures touched + TouchedBy([]) == touched
  {
  }

  lemma OneMoreTouched(body: seq<Step>, i: nat)
    requires i < |body|
    ensures TouchedBy(body[..i + 1]) == TouchedBy(body[..i]) + TouchedBy([body[i]])
    ensures body[i].Chunk? ==> TouchedBy([body[i]]) == {}
  {
    assert body[..i + 1][..i] == body[..i] && [body[i]][..0] == [];
  }

  lemma ChunkIsNothing(doc: Doc, seen: Doc)
    ensures TreeAfter(doc, [Chunk]) == doc && SeenAfter(seen, [Chunk]) == seen
  {
    assert [Chunk][..0] == [];
  }

  lemma OverlaidSeen(before: Doc, seen: Doc, afterNodes: map<NodeId, Option<Node>>)
    requires Covers(afterNodes.Keys, before, seen) && forall n :: n in afterNodes ==> afterNodes[n] == Lookup(seen, n)
    ensures Overlaid(before, afterNodes) == seen
  {
    var after := Overlaid(before, afterNodes);
    forall n ensures !Differs(after, seen, n) {
      if n !in afterNodes { assert !Differs(before, seen, n); }
    }
    NoDifference(after, seen);
  }

  lemma ComparedSome(a: Doc, b: Doc, affected: set<NodeId>, changed: set<NodeId>)
    requires Covers(affected, a, b) && changed == ChangedIn(affected, a, b)
    ensures changed == {} <==> a == b
  {
    if changed == {} {
      forall n ensures !Differs(a, b, n) {
        assert Differs(a, b, n) ==> n in changed;
      }
      NoDifference(a, b);
    }
  }

  lemma ComparedAll(a: Doc, b: Doc)
    ensures ChangedIn(a.Keys + b.Keys, a, b) == {} <==> a == b
  {
    ComparedSome(a, b, a.Keys + b.Keys, ChangedIn(a.Keys + b.Keys, a, b));
  }
}