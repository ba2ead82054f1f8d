/** Asynchronous mutations: other commands may run whenever the mutation waits. */
module CorePauses {
  import opened Collections
  import opened Outline
  import opened LoroDocument
  import opened OperationHistory
  import opened CoreState

  /** What happens in turn: a stretch of the mutation itself, or a command in one of its pauses. */
  datatype Part =
    | Stretch(body: seq<Step>)
    | Command(body: seq<Step>, operation: Option<Operation>)

  /** The document, what reads show, the core's nodes, what is touched and not drained, and what was forgotten. */
  datatype Progress = Progress(tree: Doc, seen: Doc, state: Doc, touched: set<NodeId>, forgotten: set<NodeId>, revision: nat)

  /** A command in a pause clears the touched ids of the mutation first, and drains its own. */
  function Advanced(p: Progress, part: Part): Progress {
    var tree, seen, own := TreeAfter(p.tree, part.body), SeenAfter(p.seen, part.body), TouchedBy(part.body);
    match part
    case Stretch(_) => Progress(tree, seen, p.state, p.touched + own, p.forgotten, p.revision)
    case Command(_, _) => Drained(Progress(tree, seen, p.state, own, p.forgotten + p.touched, p.revision))
  }

  /** `finalizeTouchedMutation`. */
  function Drained(p: Progress): Progress {
    var state := Shown(p.seen, p.state, p.touched);
    Progress(p.tree, p.seen, state, {}, p.forgotten - p.touched, p.revision + if state == p.state then 0 else 1)
  }

  function AdvancedAll(p: Progress, parts: seq<Part>): Progress {
    if parts == [] then p else Advanced(AdvancedAll(p, parts[..|parts| - 1]), parts[|parts| - 1])
  }

  /** The ids that were touched, forgotten in a pause, and not drained later. */
  function Forgotten(touched: set<NodeId>, forgotten: set<NodeId>, parts: seq<Part>): (set<NodeId>, set<NodeId>) {
    if parts == [] then (touched, forgotten)
    else
      var before, last := Forgotten(touched, forgotten, parts[..|parts| - 1]), parts[|parts| - 1];
      if last.Stretch? then (before.0 + TouchedBy(last.body), before.1)
      else ({}, before.1 + before.0 - TouchedBy(last.body))
  }

  /** What a mutation leaves behind is settled by the ids its parts touch. */
  function LeftBehind(parts: seq<Part>): set<NodeId> {
    var end := Forgotten({}, {}, parts);
    end.1 - end.0
  }

  lemma {:induction false} ForgottenExactly(p: Progress, parts: seq<Part>)
    ensures var q := AdvancedAll(p, parts); Forgotten(p.touched, p.forgotten, parts) == (q.touched, q.forgotten)
  {
    if parts != [] {
      ForgottenExactly(p, parts[..|parts| - 1]);
      hide TreeAfter, SeenAfter, TouchedBy, Shown;
    }
  }

  /** Whatever reads show other than the core's nodes is touched or forgotten. */
  ghost predicate Accounted(p: Progress) {
    Covers(p.touched + p.forgotten, p.state, p.seen)
  }

  lemma DrainAccounts(p: Progress)
    requires Accounted(p)
    ensures Accounted(Drained(p))
  {
    var q := Drained(p);
    forall n | Differs(q.state, q.seen, n) ensures n in q.touched + q.forgotten {
      ShownAt(p.seen, p.state, p.touched, n);
      if n !in p.touched { assert Differs(p.state, p.seen, n); }
    }
  }

  lemma {:induction false} AllAccounted(p: Progress, parts: seq<Part>)
    requires Accounted(p)
    ensures Accounted(AdvancedAll(p, parts))
  {
    if parts != [] {
      var before, part := AdvancedAll(p, parts[..|parts| - 1]), parts[|parts| - 1];
      AllAccounted(p, parts[..|parts| - 1]);
      BodyCovered(before.seen, part.body);
      hide TreeAfter, SeenAfter, TouchedBy, Shown, Covers;
      var seen, own := SeenAfter(before.seen, part.body), TouchedBy(part.body);
      CoversMore(before.touched + before.forgotten, before.touched + before.forgotten + own, before.state, before.seen);
      CoversMore(own, before.touched + before.forgotten + own, before.seen, seen);
      CoversBoth(before.touched + before.forgotten + own, before.state, before.seen, seen);
      assert before.touched + own + before.forgotten == before.touched + before.forgotten + own;
      assert own + (before.forgotten + before.touched) == before.touched + before.forgotten + own;
      if part.Command? {
        DrainAccounts(Progress(TreeAfter(before.tree, part.body), seen, before.state, own, before.forgotten + before.touched, before.revision));
      }
    }
  }

  /** Reads show nothing else than the core has at these ids. */
  ghost predicate Caught(ids: set<NodeId>, state: Doc, seen: Doc) {
    forall n {:trigger Differs(state, seen, n)} :: n in ids ==> !Differs(state, seen, n)
  }

  /** After a mutation with its pauses the core's nodes are what reads show outside the ids left behind. */
  lemma OnlyLeftBehind(p: Progress, parts: seq<Part>)
    requires p.touched == {} && p.forgotten == {} && p.state == p.seen
    ensures var q := Drained(AdvancedAll(p, parts));
      && q.forgotten == LeftBehind(parts) && Covers(LeftBehind(parts), q.state, q.seen)
      && (q.state == q.seen <==> Caught(LeftBehind(parts), q.state, q.seen))
  {
    CoversSame({}, p.seen);
    assert p.touched + p.forgotten == {};
    AllAccounted(p, parts);
    ForgottenExactly(p, parts);
    var q := Drained(AdvancedAll(p, parts));
    DrainAccounts(AdvancedAll(p, parts));
    assert q.touched + q.forgotten == LeftBehind(parts);
    if Caught(LeftBehind(parts), q.state, q.seen) {
      hide AdvancedAll, Drained, Shown, Forgotten, LeftBehind;
      forall n ensures !Differs(q.state, q.seen, n) {}
      NoDifference(q.state, q.seen);
    }
  }

  // ----- The mutation -----

  ghost predicate Reached(core: Core, p: Progress)
    reads core, core.loro
  {
    && core.Idle() && core.loro.tree == p.tree && core.loro.Seen() == p.seen && core.state == p.state
    && core.loro.touched == p.touched && core.revision == p.revision
  }

  method Advance(core: Core, part: Part, ghost p: Progress)
    requires Reached(core, p)
    modifies core, core.loro
    ensures Reached(core, Advanced(p, part))
    ensures Tells(old(core.history), core.history, old(core.metadataChanges), core.metadataChanges, old(core.metadataSequence), core.metadataSequence)
  {
    hide TreeAfter, SeenAfter, TouchedBy, Shown, ProjectAll, IsSortedList, WellKept, Records, Tells;
    TellsNothing(core.history, core.metadataChanges, core.metadataSequence);
    match part
    case Stretch(body) => core.RunAlone(body);
    case Command(body, operation) => core.Mutate(body, operation);
  }

  /**
   * `mutateAsyncFocus`, with commands in its pauses. A command clears what the mutation has touched and not yet drained.
   * At the end the core's nodes are what reads show everywhere outside the ids left behind so. A mutation that throws
   * puts the document back to its own beginning, and with it what the commands wrote; their revisions stay.
   */
  method MutateAsync(core: Core, parts: seq<Part>, operation: Option<Operation>, throws: bool)
    requires core.Settled()
    modifies core, core.loro
    ensures var q := AdvancedAll(Progress(old(core.loro.tree), old(core.state), old(core.state), {}, {}, old(core.revision)), parts);
      && core.Idle() && core.revision == (if throws then q else Drained(q)).revision
      && (throws ==> core.Settled() && core.loro.Valid() && core.loro.tree == core.state == old(core.loro.tree))
      && (!throws ==> core.loro.tree == q.tree && core.loro.Seen() == q.seen && core.state == Drained(q).state)
      && (!throws ==> Covers(LeftBehind(parts), core.state, core.loro.Seen()))
      && (!throws ==> (core.Settled() <==> Caught(LeftBehind(parts), core.state, core.loro.Seen())))
    ensures Tells(old(core.history), core.history, old(core.metadataChanges), core.metadataChanges, old(core.metadataSequence), core.metadataSequence)
  {
    hide TreeAfter, SeenAfter, Shown, Agreeing, Covers, ProjectAll, IsSortedList, Advanced, LeftBehind, Caught, WellKept, Records, Tells;
    TellsNothing(core.history, core.metadataChanges, core.metadataSequence);
    var rollback := core.loro.tree;
    ghost var p := Progress(core.loro.tree, core.state, core.state, {}, {}, core.revision);
    OnlyLeftBehind(p, parts);
    core.loro.ClearTouched();
    assert parts[..0] == [];
    var i := 0;
    while i < |parts|
      invariant 0 <= i <= |parts| && Reached(core, AdvancedAll(p, parts[..i]))
      invariant Tells(old(core.history), core.history, old(core.metadataChanges), core.metadataChanges, old(core.metadataSequence), core.metadataSequence)
    {
      ghost var history, changes, last := core.history, core.metadataChanges, core.metadataSequence;
      assert parts[..i + 1][..i] == parts[..i];
      Advance(core, parts[i], AdvancedAll(p, parts[..i]));
      TellsOn(old(core.history), history, core.history, old(core.metadataChanges), changes, core.metadataChanges,
              old(core.metadataSequence), last, core.metadataSequence);
      i := i + 1;
    }
    assert parts[..i] == parts;
    if throws {
      core.loro.Rewrite(rollback);
      core.loro.ClearTouched();
      core.InvalidateProjection();
      core.RefreshState();
    } else {
      ghost var history, changes, last := core.history, core.metadataChanges, core.metadataSequence;
      var changed := core.FinalizeTouchedMutation(operation);
      TellsOn(old(core.history), history, core.history, old(core.metadataChanges), changes, core.metadataChanges,
              old(core.metadataSequence), last, core.metadataSequence);
    }
  }

  // ----- What a pause can do -----

  const BEFORE: Doc := map[20 := Node(Plain, None, [], "before", [], None, None, None, [], 0, false)]
  const AFTER: Node := BEFORE[20].(text := "after")

  lemma Writing(doc: Doc, node: Node)
    ensures TreeAfter(doc, [Touch(20, Some(node))]) == doc[20 := node] && SeenAfter(doc, [Touch(20, Some(node))]) == doc[20 := node]
    ensures TouchedBy([Touch(20, Some(node))]) == {20}
    ensures TreeAfter(doc, []) == doc && SeenAfter(doc, []) == doc && TouchedBy([]) == {}
  {
    assert [Touch(20, Some(node))][..0] == [];
  }

  lemma ForgetsOne()
    ensures var start := Progress(BEFORE, BEFORE, BEFORE, {}, {}, 0);
      Drained(AdvancedAll(start, [Stretch([Touch(20, Some(AFTER))]), Command([], None)])) ==
        Progress(BEFORE[20 := AFTER], BEFORE[20 := AFTER], BEFORE, {}, {20}, 0)
  {
    var start, one, two := Progress(BEFORE, BEFORE, BEFORE, {}, {}, 0), Stretch([Touch(20, Some(AFTER))]), Command([], None);
    var after := BEFORE[20 := AFTER];
    Writing(BEFORE, AFTER);
    Writing(after, AFTER);
    NothingMarked(after, BEFORE);
    hide TreeAfter, SeenAfter, TouchedBy, Shown;
    assert [one, two][..1] == [one] && [one][..0] == [];
    assert AdvancedAll(start, [one]) == Progress(after, after, BEFORE, {20}, {}, 0);
    assert AdvancedAll(start, [one, two]) == Progress(after, after, BEFORE, {}, {20}, 0);
  }

  /** The mutation writes, and a command that does nothing runs in a pause: the core keeps the old node, and no revision tells. */
  method WriteIsForgotten() returns (core: Core)
    ensures core.loro.Valid() && core.loro.tree == BEFORE[20 := AFTER] && core.state == BEFORE && core.revision == 0
  {
    core := new Core(BEFORE);
    ForgetsOne();
    core.loro.SeenIsTree();
    hide AdvancedAll, Drained, Shown, Agreeing, LeftBehind, Covers;
    MutateAsync(core, [Stretch([Touch(20, Some(AFTER))]), Command([], None)], None, false);
    core.loro.SeenIsTree();
  }

  /** A command writes in a pause, and then the mutation throws: the write is gone, and its revision stays. */
  method WriteIsTakenBack() returns (core: Core)
    ensures core.loro.tree == core.state == BEFORE && core.revision == 1
  {
    core := new Core(BEFORE);
    Writing(BEFORE, AFTER);
    var parts := [Command([Touch(20, Some(AFTER))], None)];
    core.loro.SeenIsTree();
    MutateAsync(core, parts, None, true);
  }
}
