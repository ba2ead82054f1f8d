/** Concrete schedules: what goes wrong without one of the hypotheses.

    The runs start alike: a digest is published under a short lease. In three of them the lease expires, and the collector
    takes row and blob away while somebody else still acts on what it read before; then the digest is admitted again. In
    the fourth a check cannot read the file. */
module ContentRaces {
  import opened Collections
  import opened ContentDatabase
  import opened ContentProtocol
  import opened ContentSafety
  import opened ContentNaming

  const UNIT := Content(7, 1)

  const FIRST: TaskId := 2
  const VERIFIER: TaskId := 18

  function Size(d: Digest): nat { 1 }

  function Go(task: TaskId): Action {
    Run(task, Input(true, UNIT, 100, 1, 7))
  }

  /** The same step throws. */
  function Fail(task: TaskId): Action {
    Run(task, Input(false, UNIT, 100, 1, 7))
  }

  function Last(run: Trace): State {
    if run.states == [] then Start else run.states[|run.states| - 1]
  }

  // ----- Which hypotheses a run obeys -----

  /** `exclusive`: one finisher for a deletion. `atomic`: a failed check and its quarantine are one step. `reading`: nothing
      throws. */
  datatype Rules = Rules(exclusive: bool, atomic: bool, reading: bool)

  ghost predicate Proper(run: Trace, stale: Time, rules: Rules) {
    && IsRun(run, stale)
    && (rules.exclusive ==> forall n :: 0 <= n < |run.states| ==> ExclusiveFinishers(run.states[n]))
    && (rules.atomic ==> forall n :: 0 <= n < |run.actions| && n < |run.states| ==> QuarantineIsAtomic(run.states[n], run.actions[n]))
    && (forall n :: 0 <= n < |run.actions| && n < |run.states| ==>
          Honest(Size, run.actions[n]) && Untouched(run.actions[n]) && RepairersKept(run.states[n], run.actions[n]))
    && (rules.reading ==> forall n :: 0 <= n < |run.actions| ==> Reads(run.actions[n]))
  }

  predicate Reads(a: Action) {
    a.Run? ==> a.input.ok
  }

  /** The program counters a task of these schedules may have. */
  predicate Cast(t: TaskId, pc: PC, collector: TaskId, rules: Rules) {
    && (rules.exclusive && pc.Collecting? ==> t == collector)
    && (InQuarantine(pc) ==> t == VERIFIER)
    && !pc.Repairing?
  }

  predicate Plain(s: State, collector: TaskId, rules: Rules) {
    forall t :: t in s.tasks ==> Cast(t, s.tasks[t].pc, collector, rules)
  }

  predicate VerifierIsCalm(s: State) {
    VERIFIER in s.tasks ==> !InQuarantine(s.tasks[VERIFIER].pc)
  }

  /** A run of one of the schedules so far. */
  ghost predicate Good(run: Trace, stale: Time, collector: TaskId, rules: Rules) {
    Proper(run, stale, rules) && Plain(Last(run), collector, rules)
  }

  lemma Extended(run: Trace, stale: Time, collector: TaskId, rules: Rules, a: Action) returns (more: Trace)
    requires Good(run, stale, collector, rules) && Enabled(Last(run), a) && Plain(Apply(Last(run), stale, a), collector, rules)
    requires Honest(Size, a) && Untouched(a) && (rules.reading ==> Reads(a))
    requires rules.atomic && a.Run? && a.task != VERIFIER ==> VerifierIsCalm(Last(run))
    ensures Good(more, stale, collector, rules) && Last(more) == Apply(Last(run), stale, a)
  {
    var s, s' := Last(run), Apply(Last(run), stale, a);
    more := Trace(run.states + [s'], run.actions + [a]);
    assert rules.atomic ==> QuarantineIsAtomic(s, a);
    assert RepairersKept(s, a);
    assert rules.exclusive ==> ExclusiveFinishers(s');
    hide Apply, Enabled, Plain, QuarantineIsAtomic, RepairersKept, ExclusiveFinishers, Untouched, Honest, Reads;
  }

  lemma Started(stale: Time, collector: TaskId, rules: Rules) returns (run: Trace)
    ensures Good(run, stale, collector, rules) && Last(run) == Start
  {
    run := Trace([Start], []);
    assert Start.tasks == map[];
  }

  // ----- Single steps -----

  predicate At(s: State, t: TaskId, pc: PC) {
    t in s.tasks && s.tasks[t] == Task(1, pc)
  }

  /** Task `t` of process 1 is at `pc` now, the world is `w`, and no other task moved. */
  ghost predicate Moved(s: State, s': State, t: TaskId, w: World, pc: PC) {
    && s'.world == w && At(s', t, pc) && s'.now == s.now && s'.alive == s.alive && s'.next == s.next + 2
    && forall u :: u != t ==> (u in s'.tasks <==> u in s.tasks) && (u in s.tasks ==> s'.tasks[u] == s.tasks[u])
  }

  lemma Stepped(run: Trace, stale: Time, collector: TaskId, rules: Rules, t: TaskId, pc: PC, w: World, pc': PC) returns (more: Trace)
    requires Good(run, stale, collector, rules) && At(Last(run), t, pc) && !IsDone(pc) && Cast(t, pc', collector, rules)
    requires MoveOf(Last(run), stale, t, Go(t).input) == Move(w, pc')
    requires rules.atomic && t != VERIFIER ==> VerifierIsCalm(Last(run))
    ensures Good(more, stale, collector, rules) && Moved(Last(run), Last(more), t, w, pc')
  {
    hide *;
    GoesOn(t);
    more := SteppedBy(run, stale, collector, rules, t, Go(t).input, pc, w, pc');
  }

  lemma GoesOn(t: TaskId)
    ensures Go(t) == Run(t, Go(t).input) && Reads(Go(t)) && Honest(Size, Go(t))
  {
  }

  lemma SteppedBy(run: Trace, stale: Time, collector: TaskId, rules: Rules, t: TaskId, i: Input, pc: PC, w: World, pc': PC)
    returns (more: Trace)
    requires Good(run, stale, collector, rules) && At(Last(run), t, pc) && !IsDone(pc) && Cast(t, pc', collector, rules)
    requires MoveOf(Last(run), stale, t, i) == Move(w, pc') && Honest(Size, Run(t, i)) && (rules.reading ==> Reads(Run(t, i)))
    requires rules.atomic && t != VERIFIER ==> VerifierIsCalm(Last(run))
    ensures Good(more, stale, collector, rules) && Moved(Last(run), Last(more), t, w, pc')
  {
    var a := Run(t, i);
    var s, s' := Last(run), Apply(Last(run), stale, a);
    assert Enabled(s, a) && Untouched(a);
    assert Moved(s, s', t, w, pc') && Plain(s', collector, rules) by { hide MoveOf, Cast, Proper; }
    hide MoveOf, InQuarantine, Proper, Apply, Plain;
    more := Extended(run, stale, collector, rules, a);
  }

  lemma Spawned(run: Trace, stale: Time, collector: TaskId, rules: Rules, pc: PC) returns (more: Trace)
    requires Good(run, stale, collector, rules) && 1 in Last(run).alive && MaySpawn(Last(run), pc)
    requires Cast(Last(run).next, pc, collector, rules)
    ensures Good(more, stale, collector, rules) && Moved(Last(run), Last(more), Last(run).next, Last(run).world, pc)
  {
    var s, s' := Last(run), Apply(Last(run), stale, Spawn(1, pc));
    assert Enabled(s, Spawn(1, pc)) && Honest(Size, Spawn(1, pc)) && Untouched(Spawn(1, pc));
    assert Moved(s, s', s.next, s.world, pc) && Plain(s', collector, rules) by { hide MaySpawn, Cast, Proper; }
    hide MaySpawn, InQuarantine, Proper, Apply, Plain;
    more := Extended(run, stale, collector, rules, Spawn(1, pc));
  }

  lemma Ticked(run: Trace, stale: Time, collector: TaskId, rules: Rules) returns (more: Trace)
    requires Good(run, stale, collector, rules) && Last(run).now == 0
    ensures Good(more, stale, collector, rules) && Last(more) == Last(run).(now := 5, next := Last(run).next + 2)
  {
    assert Plain(Apply(Last(run), stale, Tick(5)), collector, rules);
    hide Proper;
    more := Extended(run, stale, collector, rules, Tick(5));
  }

  // ----- An admission up to its claim -----

  ghost predicate SameRows(db: Db, db': Db) {
    && db'.revisions == db.revisions && db'.publications == db.publications && db'.leases == db.leases
    && db'.anchors == db.anchors && db'.deletions == db.deletions
  }

  /** What holds before an admission begins. */
  ghost predicate Free(run: Trace, stale: Time, collector: TaskId, rules: Rules, t: TaskId) {
    && Good(run, stale, collector, rules) && 1 in Last(run).alive && Last(run).next == t && t !in Last(run).world.db.staging
    && t != collector && t != VERIFIER && (rules.atomic ==> VerifierIsCalm(Last(run)))
  }

  lemma Admitted(run: Trace, stale: Time, collector: TaskId, rules: Rules, t: TaskId) returns (more: Trace)
    requires Free(run, stale, collector, rules, t)
    ensures Good(more, stale, collector, rules)
    ensures var s := Last(run);
      Moved(s, Last(more), t,
        s.world.(db := s.world.db.(staging := s.world.db.staging[t := Stage(1, t + 1, s.now, s.now)])), Admitting(t + 1, Opening))
  {
    assert Plain(Apply(Last(run), stale, Admit(1)), collector, rules);
    hide Proper, InQuarantine, Plain;
    more := Extended(run, stale, collector, rules, Admit(1));
  }

  lemma TouchMove(s: State, stale: Time, t: TaskId)
    requires At(s, t, Admitting(t + 1, Touching(UNIT))) && t in s.world.db.staging
    requires s.world.db.staging[t].pid == 1 && s.world.db.staging[t].token == t + 1
    ensures var staging := s.world.db.staging[t := s.world.db.staging[t].(updatedAt := s.now)];
      MoveOf(s, stale, t, Go(t).input) ==
        Move(s.world.(db := s.world.db.(staging := staging)), Admitting(t + 1, Claiming(UNIT, Grant(100, s.now + 1))))
  {
  }

  lemma OpenAndWriteMoves(s: State, stale: Time, t: TaskId)
    requires At(s, t, Admitting(t + 1, Opening)) || At(s, t, Admitting(t + 1, Writing))
    ensures MoveOf(s, stale, t, Go(t).input) ==
      Move(s.world.(staged := s.world.staged[t := UNIT]),
           Admitting(t + 1, if s.tasks[t].pc.admit.Opening? then Writing else Touching(UNIT)))
  {
  }

  ghost predicate SameTasksBut(s: State, s': State, t: TaskId) {
    && s'.now == s.now && s'.alive == s.alive
    && forall u :: u != t ==> (u in s'.tasks <==> u in s.tasks) && (u in s.tasks ==> s'.tasks[u] == s.tasks[u])
  }

  ghost predicate IsStaged(s: State, s': State, t: TaskId) {
    && SameTasksBut(s, s', t) && At(s', t, Admitting(t + 1, Claiming(UNIT, Grant(100, s.now + 1)))) && s'.next == t + 8
    && t in s'.world.staged && t in s'.world.db.staging && s'.world.db.staging[t].token == t + 1
    && SameRows(s.world.db, s'.world.db) && s'.world.blobs == s.world.blobs
    && s'.world.staged[t] == UNIT && forall k :: k in s'.world.db.staging ==> k == t || k in s.world.db.staging
  }

  ghost predicate IsWritten(s: State, s': State, t: TaskId) {
    && SameTasksBut(s, s', t) && At(s', t, Admitting(t + 1, Touching(UNIT))) && s'.next == t + 6
    && t in s'.world.staged && s'.world.staged[t] == UNIT && s'.world.blobs == s.world.blobs
    && s'.world.db == s.world.db.(staging := s.world.db.staging[t := Stage(1, t + 1, s.now, s.now)])
  }

  lemma WrittenOnce(run: Trace, stale: Time, collector: TaskId, rules: Rules, t: TaskId) returns (more: Trace)
    requires Free(run, stale, collector, rules, t)
    ensures Good(more, stale, collector, rules) && IsWritten(Last(run), Last(more), t)
  {
    more := Admitted(run, stale, collector, rules, t);
    hide Good, InQuarantine, MoveOf;
    OpenAndWriteMoves(Last(more), stale, t);
    var begun := MoveOf(Last(more), stale, t, Go(t).input);
    more := Stepped(more, stale, collector, rules, t, Admitting(t + 1, Opening), begun.world, begun.pc);
    OpenAndWriteMoves(Last(more), stale, t);
    var written := MoveOf(Last(more), stale, t, Go(t).input);
    more := Stepped(more, stale, collector, rules, t, begun.pc, written.world, written.pc);
  }

  /** Begin, open, write and touch: a staged file with its row, the digest not yet claimed. */
  lemma Staged(run: Trace, stale: Time, collector: TaskId, rules: Rules, t: TaskId) returns (more: Trace)
    requires Free(run, stale, collector, rules, t)
    ensures Good(more, stale, collector, rules) && IsStaged(Last(run), Last(more), t)
  {
    more := WrittenOnce(run, stale, collector, rules, t);
    hide Good, InQuarantine, MoveOf;
    TouchMove(Last(more), stale, t);
    var touched := MoveOf(Last(more), stale, t, Go(t).input);
    more := Stepped(more, stale, collector, rules, t, Admitting(t + 1, Touching(UNIT)), touched.world, touched.pc);
  }

  lemma ClaimMove(s: State, stale: Time, t: TaskId, grant: Grant)
    requires At(s, t, Admitting(t + 1, Claiming(UNIT, grant))) && s.next == t + 8
    requires t in s.world.db.staging && s.world.db.staging[t].token == t + 1
    requires 7 !in s.world.db.revisions && 7 !in s.world.db.publications
    ensures var db := s.world.db;
      MoveOf(s, stale, t, Go(t).input) ==
        Move(s.world.(db := db.(
               revisions := db.revisions[7 := Revision(1, Publishing, Some(Owner(1, t + 8)), s.now)],
               publications := db.publications[7 := Publication(1, Owner(1, t + 8), t, s.now)],
               staging := db.staging - {t})),
             Holding(Stat, Held(t + 1, UNIT, t + 8, grant)))
  {
  }

  function HeldBy(t: TaskId, now: Time): Held {
    Held(t + 1, UNIT, t + 8, Grant(100, now + 1))
  }

  ghost predicate IsClaimed(s: State, s': State, t: TaskId) {
    && SameTasksBut(s, s', t) && At(s', t, Holding(Stat, HeldBy(t, s.now))) && s'.next == t + 10
    && t in s'.world.staged && t !in s'.world.db.staging && s'.world.staged[t] == UNIT
    && (forall k :: k in s'.world.db.staging ==> k in s.world.db.staging)
    && s'.world.blobs == s.world.blobs && s'.world.db.leases == s.world.db.leases && s'.world.db.anchors == s.world.db.anchors
    && s'.world.db.revisions == s.world.db.revisions[7 := Revision(1, Publishing, Some(Owner(1, t + 8)), s.now)]
    && s'.world.db.publications == s.world.db.publications[7 := Publication(1, Owner(1, t + 8), t, s.now)]
  }

  lemma Claimed(run: Trace, stale: Time, collector: TaskId, rules: Rules, t: TaskId) returns (more: Trace)
    requires Free(run, stale, collector, rules, t) && 7 !in Last(run).world.db.revisions && 7 !in Last(run).world.db.publications
    ensures Good(more, stale, collector, rules) && IsClaimed(Last(run), Last(more), t)
  {
    more := Staged(run, stale, collector, rules, t);
    hide Good, InQuarantine, MoveOf;
    ClaimMove(Last(more), stale, t, Grant(100, Last(run).now + 1));
    var claimed := MoveOf(Last(more), stale, t, Go(t).input);
    more := Stepped(more, stale, collector, rules, t, Admitting(t + 1, Claiming(UNIT, Grant(100, Last(run).now + 1))), claimed.world, claimed.pc);
  }

  // ----- From the claim to the lease -----

  lemma StatMove(s: State, stale: Time, t: TaskId, h: Held)
    requires At(s, t, Holding(Stat, h)) && h.content == UNIT && 7 !in s.world.blobs
    ensures MoveOf(s, stale, t, Go(t).input) == Move(s.world, Holding(Rename, h))
  {
  }

  lemma RenameMove(s: State, stale: Time, t: TaskId, h: Held)
    requires At(s, t, Holding(Rename, h)) && h.content == UNIT && t in s.world.staged && s.world.staged[t] == UNIT
    ensures MoveOf(s, stale, t, Go(t).input) ==
      Move(s.world.(blobs := s.world.blobs[7 := UNIT], staged := s.world.staged - {t}), Holding(Settle, h))
  {
  }

  lemma SettleMove(s: State, stale: Time, t: TaskId, h: Held)
    requires At(s, t, Holding(Settle, h)) && h.content == UNIT && h.grant.lease == 100 && 100 !in s.world.db.leases
    requires PublishingUnder(s.world.db, 7, h.token) && s.world.db.revisions[7].byteLength == 1
    ensures var move := MoveOf(s, stale, t, Go(t).input);
      && move.pc == Returned(Granted(UNIT, h.grant)) && move.world.blobs == s.world.blobs
      && move.world.db.revisions == s.world.db.revisions[7 := Revision(1, Published, None, s.now)]
      && move.world.db.leases == s.world.db.leases[100 := Lease(7, 1, h.grant.expiresAt, s.now)]
      && move.world.db.publications == s.world.db.publications - {7}
      && move.world.db.anchors == s.world.db.anchors && move.world.db.staging == s.world.db.staging
  {
  }

  /** The digest is published with its bytes, under a lease of one millisecond. */
  ghost predicate IsAdmitted(s: State, s': State, t: TaskId) {
    && SameTasksBut(s, s', t) && s'.next == t + 16
    && (forall k :: k in s'.world.db.staging ==> k in s.world.db.staging)
    && Lookup(s'.world.blobs, 7) == Some(UNIT) && s'.world.db.anchors == s.world.db.anchors
    && Lookup(s'.world.db.revisions, 7) == Some(Revision(1, Published, None, s.now))
    && s'.world.db.leases == s.world.db.leases[100 := Lease(7, 1, s.now + 1, s.now)]
    && (forall d :: d in s'.world.db.publications ==> d in s.world.db.publications)
    && 7 !in s'.world.db.publications
  }

  ghost predicate IsRenamed(s: State, s': State, t: TaskId) {
    && SameTasksBut(s, s', t) && At(s', t, Holding(Settle, HeldBy(t, s.now))) && s'.next == t + 14
    && (forall k :: k in s'.world.db.staging ==> k in s.world.db.staging)
    && s'.world.blobs == s.world.blobs[7 := UNIT] && s'.world.db.leases == s.world.db.leases && s'.world.db.anchors == s.world.db.anchors
    && s'.world.db.revisions == s.world.db.revisions[7 := Revision(1, Publishing, Some(Owner(1, t + 8)), s.now)]
    && s'.world.db.publications == s.world.db.publications[7 := Publication(1, Owner(1, t + 8), t, s.now)]
  }

  lemma Renamed(run: Trace, stale: Time, collector: TaskId, rules: Rules, t: TaskId) returns (more: Trace)
    requires Free(run, stale, collector, rules, t) && 7 !in Last(run).world.db.revisions && 7 !in Last(run).world.db.publications
    requires 7 !in Last(run).world.blobs
    ensures Good(more, stale, collector, rules) && IsRenamed(Last(run), Last(more), t)
  {
    more := Claimed(run, stale, collector, rules, t);
    hide Good, MoveOf, InQuarantine;
    var h := HeldBy(t, Last(run).now);
    NotInQuarantine(h);
    StatMove(Last(more), stale, t, h);
    more := Stepped(more, stale, collector, rules, t, Holding(Stat, h), Last(more).world, Holding(Rename, h));
    RenameMove(Last(more), stale, t, h);
    var renamed := MoveOf(Last(more), stale, t, Go(t).input);
    more := Stepped(more, stale, collector, rules, t, Holding(Rename, h), renamed.world, renamed.pc);
  }

  lemma NotInQuarantine(h: Held)
    ensures !InQuarantine(Holding(Rename, h)) && !InQuarantine(Holding(Settle, h))
  {
  }

  lemma AdmittedFully(run: Trace, stale: Time, collector: TaskId, rules: Rules, t: TaskId) returns (more: Trace)
    requires Free(run, stale, collector, rules, t) && 7 !in Last(run).world.db.revisions && 7 !in Last(run).world.db.publications
    requires 7 !in Last(run).world.blobs && 100 !in Last(run).world.db.leases
    ensures Good(more, stale, collector, rules) && IsAdmitted(Last(run), Last(more), t)
  {
    more := Renamed(run, stale, collector, rules, t);
    hide Good, MoveOf;
    var h := HeldBy(t, Last(run).now);
    SettleMove(Last(more), stale, t, h);
    var settled := MoveOf(Last(more), stale, t, Go(t).input);
    more := Stepped(more, stale, collector, rules, t, Holding(Settle, h), settled.world, settled.pc);
  }

  // ----- The common beginning -----

  /** The digest is published under one lease, nothing is anchored, and no other stage or journal row is there. */
  ghost predicate IsStocked(s: State) {
    && 1 in s.alive && s.now == 0 && Lookup(s.world.blobs, 7) == Some(UNIT)
    && Lookup(s.world.db.revisions, 7) == Some(Revision(1, Published, None, 0))
    && s.world.db.leases == map[100 := Lease(7, 1, 1, 0)]
    && (forall d :: d !in s.world.db.publications) && (forall a :: a !in s.world.db.anchors) && (forall k :: k !in s.world.db.staging)
  }

  lemma Booted(stale: Time, collector: TaskId, rules: Rules) returns (run: Trace)
    ensures Good(run, stale, collector, rules) && Last(run) == Start.(alive := {1}, next := 2)
  {
    run := Started(stale, collector, rules);
    hide Proper;
    run := Extended(run, stale, collector, rules, Boot(1));
  }

  lemma FirstPublished(stale: Time, collector: TaskId, rules: Rules) returns (run: Trace)
    requires collector != FIRST
    ensures Good(run, stale, collector, rules) && Last(run).next == VERIFIER && IsStocked(Last(run))
    ensures forall t :: t in Last(run).tasks ==> t == FIRST
  {
    run := Booted(stale, collector, rules);
    hide Good;
    run := AdmittedFully(run, stale, collector, rules, FIRST);
  }

  // ----- The collector -----

  /** The row is marked and pending. */
  ghost predicate IsMarked(s: State, collector: TaskId, pending: set<Digest>) {
    && 1 in s.alive && At(s, collector, Collecting(Finishing(pending))) && 7 in pending
    && 7 in s.world.db.revisions && s.world.db.revisions[7].state.Deleting? && 7 in s.world.db.deletions && 100 !in s.world.db.leases
    && (forall d :: d !in s.world.db.publications) && (forall a :: a !in s.world.db.anchors) && (forall k :: k !in s.world.db.staging)
  }

  lemma MarkMove(s: State, stale: Time, collector: TaskId)
    requires At(s, collector, Collecting(Marking(5))) && IsStocked(s.(now := 0))
    ensures var move := MoveOf(s, stale, collector, Go(collector).input);
      && move.pc == Collecting(Finishing(move.pc.collect.pending)) && 7 in move.pc.collect.pending
      && move.world.blobs == s.world.blobs && move.world.db.publications == s.world.db.publications
      && move.world.db.anchors == s.world.db.anchors && move.world.db.staging == s.world.db.staging
      && 7 in move.world.db.revisions && move.world.db.revisions[7].state.Deleting?
      && 7 in move.world.db.deletions && 100 !in move.world.db.leases
  {
    assert 7 in Collectable(PurgeLeases(s.world.db, 5), 5);
  }

  lemma Marked(start: Trace, stale: Time, collector: TaskId, rules: Rules) returns (run: Trace, pending: set<Digest>)
    requires Good(start, stale, collector, rules) && IsStocked(Last(start)) && Last(start).next + 2 == collector != VERIFIER
    requires VerifierIsCalm(Last(start))
    ensures Good(run, stale, collector, rules) && Last(run).next == collector + 4 && IsMarked(Last(run), collector, pending)
    ensures SameTasksBut(Last(start).(now := 5), Last(run), collector)
  {
    run := Ticked(start, stale, collector, rules);
    hide Good;
    run := Spawned(run, stale, collector, rules, Collecting(Marking(5)));
    MarkMove(Last(run), stale, collector);
    hide MoveOf;
    var marked := MoveOf(Last(run), stale, collector, Go(collector).input);
    run := Stepped(run, stale, collector, rules, collector, Collecting(Marking(5)), marked.world, marked.pc);
    pending := marked.pc.collect.pending;
  }

  lemma UnlinkMove(s: State, stale: Time, t: TaskId, pending: set<Digest>)
    requires At(s, t, Collecting(Finishing(pending))) && 7 in pending
    ensures MoveOf(s, stale, t, Go(t).input) ==
      Move(s.world.(blobs := s.world.blobs - {7}), Collecting(FinishingRow(7, pending)))
  {
  }

  lemma DeleteMove(s: State, stale: Time, t: TaskId, pending: set<Digest>)
    requires At(s, t, Collecting(FinishingRow(7, pending))) && (forall a :: a !in s.world.db.anchors)
    requires 7 in s.world.db.revisions && s.world.db.revisions[7].state.Deleting?
    ensures var move := MoveOf(s, stale, t, Go(t).input);
      && move.pc == Collecting(Finishing(pending - {7})) && move.world.blobs == s.world.blobs
      && move.world.db.revisions == s.world.db.revisions - {7} && move.world.db.publications == s.world.db.publications - {7}
      && move.world.db.anchors == s.world.db.anchors && move.world.db.staging == s.world.db.staging
      && forall l :: l in move.world.db.leases ==> l in s.world.db.leases
  {
    assert !Anchored(s.world.db, 7);
  }

  /** Row and blob are gone. */
  ghost predicate IsEmptied(s: State) {
    && 1 in s.alive && 7 !in s.world.db.revisions && 7 !in s.world.blobs && 100 !in s.world.db.leases
    && (forall d :: d !in s.world.db.publications) && (forall a :: a !in s.world.db.anchors) && (forall k :: k !in s.world.db.staging)
  }

  lemma Collected(start: Trace, stale: Time, collector: TaskId, rules: Rules, pending: set<Digest>) returns (run: Trace)
    requires Good(start, stale, collector, rules) && IsMarked(Last(start), collector, pending) && collector != VERIFIER
    requires VerifierIsCalm(Last(start))
    ensures Good(run, stale, collector, rules) && Last(run).next == Last(start).next + 4 && IsEmptied(Last(run))
    ensures SameTasksBut(Last(start), Last(run), collector)
  {
    hide Good, MoveOf;
    UnlinkMove(Last(start), stale, collector, pending);
    var unlinked := MoveOf(Last(start), stale, collector, Go(collector).input);
    run := Stepped(start, stale, collector, rules, collector, Collecting(Finishing(pending)), unlinked.world, unlinked.pc);
    DeleteMove(Last(run), stale, collector, pending);
    var deleted := MoveOf(Last(run), stale, collector, Go(collector).input);
    run := Stepped(run, stale, collector, rules, collector, unlinked.pc, deleted.world, deleted.pc);
  }

  // ----- The verification -----

  const CHECKING := Verifying(Check, UNIT, Alone)

  /** The check has read its row and not yet looked at the blob. */
  lemma CheckBegun(stale: Time, rules: Rules) returns (run: Trace)
    ensures Good(run, stale, 24, rules) && Last(run).next == 22 && At(Last(run), VERIFIER, CHECKING) && IsStocked(Last(run))
  {
    run := FirstPublished(stale, 24, rules);
    var s := Last(run);
    assert 100 in s.world.db.leases && UNIT == Content(s.world.db.leases[100].digest, s.world.db.leases[100].byteLength);
    hide Good;
    run := Spawned(run, stale, 24, rules, Verifying(ReadRow, UNIT, Alone));
    assert Available(s.world.db, UNIT);
    run := Stepped(run, stale, 24, rules, VERIFIER, Verifying(ReadRow, UNIT, Alone), s.world, CHECKING);
  }

  lemma CheckedTooLate(stale: Time, rules: Rules) returns (run: Trace)
    ensures Good(run, stale, 24, rules) && Last(run).next == 32 && At(Last(run), VERIFIER, CHECKING) && IsEmptied(Last(run))
  {
    run := CheckBegun(stale, rules);
    hide Good;
    var pending;
    run, pending := Marked(run, stale, 24, rules);
    run := Collected(run, stale, 24, rules, pending);
  }

  lemma CheckMoves(s: State, stale: Time)
    requires At(s, VERIFIER, CHECKING) && 7 !in s.world.blobs
    ensures MoveOf(s, stale, VERIFIER, Go(VERIFIER).input) == Move(s.world, Verifying(QuarantineRow, UNIT, Alone))
  {
  }

  lemma QuarantineMoves(s: State, stale: Time)
    requires At(s, VERIFIER, Verifying(QuarantineRow, UNIT, Alone))
    ensures MoveOf(s, stale, VERIFIER, Go(VERIFIER).input) ==
      Move(s.world.(db := Quarantine(s.world.db, 7, s.now)), Verifying(MoveAside, UNIT, Alone))
  {
  }

  // ----- The schedules -----

  /** The hypotheses of pin safety do not keep every staged file named: this run obeys them, ends with a file in staging
      that no row names, and its digest is quarantined although its bytes were never damaged. */
  lemma FourHypothesesDoNotSuffice(stale: Time) returns (run: Trace)
    ensures IsRun(run, stale) && Disciplined(run, Size)
    ensures forall n :: 0 <= n < |run.actions| ==> Reads(run.actions[n])
    ensures forall n :: 0 <= n < |run.actions| ==> RepairersKept(run.states[n], run.actions[n])
    ensures var w := Last(run).world;
      && Lookup(w.staged, 32) == Some(UNIT) && 32 !in w.db.staging && !Journalled(w.db, 32)
      && 7 in w.db.revisions && w.db.revisions[7].state.Quarantined?
  {
    var rules := Rules(true, true, true);
    run := CheckedTooLate(stale, rules);
    hide Good;
    run := Claimed(run, stale, 24, rules, 32);
    CheckMoves(Last(run), stale);
    hide MoveOf;
    run := Stepped(run, stale, 24, rules, VERIFIER, CHECKING, Last(run).world, Verifying(QuarantineRow, UNIT, Alone));
    QuarantineMoves(Last(run), stale);
    var done := MoveOf(Last(run), stale, VERIFIER, Go(VERIFIER).input);
    run := Stepped(run, stale, 24, rules, VERIFIER, Verifying(QuarantineRow, UNIT, Alone), done.world, done.pc);
    IsProper(run, stale, 24, rules);
  }

  /** If a check and its quarantine are two steps, an intact and leased revision can be quarantined. */
  lemma PinsNeedAtomicQuarantine(stale: Time) returns (run: Trace)
    ensures IsRun(run, stale) && forall n :: 0 <= n < |run.states| ==> ExclusiveFinishers(run.states[n])
    ensures forall n :: 0 <= n < |run.actions| && n < |run.states| ==>
      Honest(Size, run.actions[n]) && Untouched(run.actions[n]) && Reads(run.actions[n])
    ensures var w := Last(run).world;
      && Pinned(w.db, 7) && 7 in w.db.revisions && w.db.revisions[7].state.Quarantined? && Lookup(w.blobs, 7) == Some(UNIT)
  {
    var rules := Rules(true, false, true);
    run := CheckedTooLate(stale, rules);
    hide Good;
    CheckMoves(Last(run), stale);
    hide MoveOf;
    run := Stepped(run, stale, 24, rules, VERIFIER, CHECKING, Last(run).world, Verifying(QuarantineRow, UNIT, Alone));
    run := AdmittedFully(run, stale, 24, rules, 34);
    QuarantineMoves(Last(run), stale);
    assert 100 in Last(run).world.db.leases && Last(run).world.db.leases[100].digest == 7;
    var done := MoveOf(Last(run), stale, VERIFIER, Go(VERIFIER).input);
    run := Stepped(run, stale, 24, rules, VERIFIER, Verifying(QuarantineRow, UNIT, Alone), done.world, done.pc);
    IsProper(run, stale, 24, rules);
    assert 100 in Last(run).world.db.leases && Last(run).world.db.leases[100].digest == 7;
  }

  /** If two finish the same deletion, the later one can take the bytes of a published and leased revision. */
  lemma PinsNeedExclusiveFinishers(stale: Time) returns (run: Trace)
    ensures IsRun(run, stale)
    ensures forall n :: 0 <= n < |run.actions| && n < |run.states| ==>
      && Honest(Size, run.actions[n]) && Untouched(run.actions[n]) && Reads(run.actions[n])
      && QuarantineIsAtomic(run.states[n], run.actions[n])
    ensures var w := Last(run).world;
      Pinned(w.db, 7) && IsPublished(w.db, 7) && 7 !in w.blobs
  {
    var rules := Rules(false, true, true);
    run := FirstPublished(stale, 20, rules);
    hide Good;
    var pending;
    run, pending := Marked(run, stale, 20, rules);
    var entries := Last(run).world.db.deletions.Keys;
    run := Spawned(run, stale, 20, rules, Collecting(Finishing(entries)));
    run := Collected(run, stale, 20, rules, pending);
    run := AdmittedFully(run, stale, 20, rules, 30);
    UnlinkMove(Last(run), stale, 24, entries);
    hide MoveOf;
    var unlinked := MoveOf(Last(run), stale, 24, Go(24).input);
    assert 100 in Last(run).world.db.leases && Last(run).world.db.leases[100].digest == 7;
    run := Stepped(run, stale, 20, rules, 24, Collecting(Finishing(entries)), unlinked.world, unlinked.pc);
    IsProper(run, stale, 20, rules);
    assert 100 in Last(run).world.db.leases && Last(run).world.db.leases[100].digest == 7;
  }

  lemma FailsToCheck(s: State, stale: Time)
    requires At(s, VERIFIER, CHECKING)
    ensures MoveOf(s, stale, VERIFIER, Fail(VERIFIER).input) == Move(s.world, Verifying(QuarantineRow, UNIT, Alone))
    ensures Fail(VERIFIER) == Run(VERIFIER, Fail(VERIFIER).input) && Honest(Size, Fail(VERIFIER))
  {
  }

  /** A digest check that cannot read its file quarantines a leased revision whose bytes are right. */
  lemma PinsNeedReadableBlobs(stale: Time) returns (run: Trace)
    ensures IsRun(run, stale) && Scheduled(run, Size)
    ensures var w := Last(run).world;
      && Pinned(w.db, 7) && 7 in w.db.revisions && w.db.revisions[7].state.Quarantined? && Lookup(w.blobs, 7) == Some(UNIT)
  {
    var rules := Rules(true, true, false);
    run := CheckBegun(stale, rules);
    hide Good;
    FailsToCheck(Last(run), stale);
    hide MoveOf, Fail;
    run := SteppedBy(run, stale, 24, rules, VERIFIER, Fail(VERIFIER).input, CHECKING, Last(run).world, Verifying(QuarantineRow, UNIT, Alone));
    QuarantineMoves(Last(run), stale);
    var done := MoveOf(Last(run), stale, VERIFIER, Go(VERIFIER).input);
    run := Stepped(run, stale, 24, rules, VERIFIER, Verifying(QuarantineRow, UNIT, Alone), done.world, done.pc);
    IsProper(run, stale, 24, rules);
    assert 100 in Last(run).world.db.leases && Last(run).world.db.leases[100].digest == 7;
  }

  lemma IsProper(run: Trace, stale: Time, collector: TaskId, rules: Rules)
    requires Good(run, stale, collector, rules)
    ensures IsRun(run, stale) && (rules.exclusive && rules.atomic ==> Scheduled(run, Size))
    ensures rules == Rules(true, true, true) ==> Disciplined(run, Size)
    ensures rules.reading ==> forall n :: 0 <= n < |run.actions| ==> Reads(run.actions[n])
    ensures rules.exclusive ==> forall n :: 0 <= n < |run.states| ==> ExclusiveFinishers(run.states[n])
    ensures rules.atomic ==> forall n :: 0 <= n < |run.actions| && n < |run.states| ==> QuarantineIsAtomic(run.states[n], run.actions[n])
    ensures forall n :: 0 <= n < |run.actions| ==>
      n < |run.states| && Honest(Size, run.actions[n]) && Untouched(run.actions[n]) && RepairersKept(run.states[n], run.actions[n])
  {
    hide ExclusiveFinishers, QuarantineIsAtomic, RepairersKept, Honest, Untouched, Enabled, Apply;
  }
}
