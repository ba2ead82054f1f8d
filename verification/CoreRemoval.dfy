/** Cascading removal as a command: what the core's own nodes, the projection and the recorded patch make of it. */
module CoreRemoval {
  import opened Collections
  import opened Outline
  import opened LoroDocument
  import opened Removal
  import opened OperationHistory
  import opened CoreState

  /** What a removal of a cascade leaves the core with, whether it stands alone or in a transaction. */
  ghost predicate Follows(before: Doc, state: Doc, tree: Doc, removed: set<NodeId>, usable: Option<NodeId>, last: NodeId) {
    && tree == Remaining(before, removed, usable)
    && (state == tree <==> CacheKept(before, removed, usable, last))
    && (state != tree ==> ParentsShow(before, tree, state, last) && last !in tree)
    && (forall n :: n !in Parents(before, last) ==> Lookup(state, n) == Lookup(tree, n))
  }

  /**
   * `removeSubtree` outside a transaction. The core's nodes are the document if and only if the parent of the root deleted
   * last is not rewritten by the scrub. Otherwise that parent keeps the removed child, and nothing else is wrong.
   */
  method Remove(core: Core, nodeId: NodeId, replacement: Option<NodeId>, operation: Option<Operation>)
    returns (r: Result<NodeId>, ghost removed: set<NodeId>, ghost last: NodeId)
    requires core.Settled() && core.loro.Valid() && Forest(core.loro.tree)
    modifies core, core.loro
    ensures core.Settled()
    ensures r.Ok? <==> !IsSystemId(nodeId) && nodeId in old(core.loro.tree)
    ensures r.Err? ==> core.loro.tree == old(core.loro.tree) && core.state == old(core.state) && core.loro.Valid()
    ensures r.Ok? ==> IsCascade(old(core.loro.tree), nodeId, removed) && last in Roots(old(core.loro.tree), removed)
    ensures r.Ok? ==> Follows(old(core.loro.tree), core.state, core.loro.tree, removed,
                              Usable(old(core.loro.tree), removed, replacement), last)
    ensures core.revision == old(core.revision) + if core.state == old(core.state) then 0 else 1
    ensures Tells(old(core.history), core.history, old(core.metadataChanges), core.metadataChanges, old(core.metadataSequence), core.metadataSequence)
  {
    hide Covers, Shown, Agreeing, Forest, IsCascade, CacheKept, Remaining, Usable, Roots, ProjectAll, IsSortedList, Tells, Records, WellKept;
    TellsNothing(core.history, core.metadataChanges, core.metadataSequence);
    core.AgreesExactly();
    core.loro.ClearTouched();
    CoversSame({}, core.state);
    r, removed, last := RemoveSubtree(core.loro, nodeId, replacement);
    core.loro.SeenIsTree();
    if r.Err? { return; }
    var changed := core.FinalizeTouchedMutation(operation);
  }

  /** The same as the body of a transaction: the patch is exact under the same condition. */
  method RemoveInTransaction(core: Core, nodeId: NodeId, replacement: Option<NodeId>, operation: Option<Operation>)
    returns (r: Result<Patch>, ghost removed: set<NodeId>, ghost last: NodeId)
    requires core.Settled() && core.loro.Valid() && Forest(core.loro.tree)
    modifies core, core.loro
    ensures core.Settled()
    ensures r.Ok? <==> !IsSystemId(nodeId) && nodeId in old(core.loro.tree)
    ensures r.Err? ==> core.loro.tree == core.state == old(core.loro.tree) && core.loro.Valid()
    ensures r.Ok? ==> IsCascade(old(core.loro.tree), nodeId, removed) && last in Roots(old(core.loro.tree), removed)
    ensures r.Ok? ==> Follows(old(core.loro.tree), core.state, core.loro.tree, removed,
                              Usable(old(core.loro.tree), removed, replacement), last)
    ensures r.Ok? ==> r.value == NetPatch(old(core.loro.tree), core.state)
    ensures r.Ok? ==> (r.value == NetPatch(old(core.loro.tree), core.loro.tree) <==>
                       CacheKept(old(core.loro.tree), removed, Usable(old(core.loro.tree), removed, replacement), last))
    ensures r.Ok? && r.value != map[] ==> Journals(old(core.history), core.history, operation, r.value.Keys)
    ensures Tells(old(core.history), core.history, old(core.metadataChanges), core.metadataChanges, old(core.metadataSequence), core.metadataSequence)
  {
    hide Covers, Shown, Agreeing, Forest, IsCascade, CacheKept, Remaining, Usable, Roots, ProjectAll, IsSortedList, NetPatch, Tells, Records, WellKept;
    TellsNothing(core.history, core.metadataChanges, core.metadataSequence);
    core.AgreesExactly();
    core.Begin(operation);
    var outcome;
    outcome, removed, last := RemoveSubtree(core.loro, nodeId, replacement);
    core.loro.SeenIsTree();
    if outcome.Err? {
      core.Abort();
      return Err(outcome.error), removed, last;
    }
    var patch := core.Finish();
    r := Ok(patch);
  }

  const MENTIONING: Doc :=
    map[20 := Node(Plain, None, [21], "", [], None, None, None, [Some(21)], 0, false), 21 := BlankNode(Plain, 20)]

  lemma MentioningRemoved(state: Doc, tree: Doc, removed: set<NodeId>, last: NodeId)
    requires IsCascade(MENTIONING, 21, removed) && last in Roots(MENTIONING, removed)
    requires Follows(MENTIONING, state, tree, removed, Usable(MENTIONING, removed, None), last)
    ensures 21 !in tree && 21 !in state && 20 in state && 21 in state[20].children && state != tree
    ensures state[20] != MENTIONING[20]
    ensures !CacheKept(MENTIONING, removed, Usable(MENTIONING, removed, None), last)
  {
    StaleCacheExample();
    CascadeIsUnique(MENTIONING, 21, removed, {21});
    assert 20 in Parents(MENTIONING, 21);
    assert Lookup(state, 21) == Lookup(tree, 21);
    NothingDangles(MENTIONING, 21, removed, None);
    assert NamesNothingGone(tree[20], removed);
  }

  /**
   * Node 20 has the child 21 and mentions it; then 21 is removed. The document has it no longer. The core's nodes and the
   * projection keep it among the children of 20, and the comparison of caches finds nothing.
   */
  method RemoveMentioned() returns (core: Core)
    ensures core.Settled() && 21 !in core.loro.tree && 21 !in core.state && 20 in core.state && 21 in core.state[20].children
    ensures core.projectionReady && 20 in core.projectionNodes && 21 in core.projectionNodes[20].children
  {
    hide Covers, Shown, Agreeing, Forest, IsCascade, CacheKept, Remaining, Usable, Roots, Follows, IsSortedList;
    core := new Core(MENTIONING);
    StaleCacheExample();
    core.EnsureProjection();
    core.loro.SeenIsTree();
    var r, removed, last := Remove(core, 21, None, None);
    MentioningRemoved(core.state, core.loro.tree, removed, last);
    var same := core.VerifyCaches();
    assert same;
  }

  /** In a transaction the recorded patch says so too. */
  method RecordMentioned() returns (core: Core, patch: Patch)
    ensures core.Settled() && 21 !in core.loro.tree
    ensures patch != NetPatch(MENTIONING, core.loro.tree)
    ensures 20 in patch && patch[20].after.Some? && 21 in patch[20].after.value.children
  {
    hide Covers, Shown, Agreeing, Forest, IsCascade, CacheKept, Remaining, Usable, Roots, Follows, IsSortedList, ProjectAll;
    core := new Core(MENTIONING);
    StaleCacheExample();
    var r, removed, last := RemoveInTransaction(core, 21, None, None);
    MentioningRemoved(core.state, core.loro.tree, removed, last);
    patch := r.value;
    PatchTells(MENTIONING, core.state, 20);
    PatchTells(MENTIONING, core.loro.tree, 20);
  }
}
