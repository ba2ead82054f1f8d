/** Publication ownership over whole runs: a claim is settled once, by whoever holds its token, and an
    overtaken owner can do nothing more to the row. No hypothesis on the schedule. */
module ContentOwnership {
  import opened Collections
  import opened ContentDatabase
  import opened ContentRows
  import opened ContentProtocol
  import opened ContentInvariant
  import opened ContentHistory
  import opened ContentNaming

  // ----- One step -----

  /** What an action moves, and where it stands. */
  function Mover(s: State, a: Action): Option<(TaskId, PC)> {
    if a.Run? && a.task in s.tasks then Some((a.task, s.tasks[a.task].pc)) else None
  }

  /** How a row may leave its token: quarantined, or by a step of the call that holds the token, or by
      a takeover that named the token it replaces. */
  predicate LeavesByItsHolder(db: Db, db': Db, mover: Option<(TaskId, PC)>, unused: Token, d: Digest, k: Token) {
    PublishingUnder(db, d, k) ==>
      || PublishingUnder(db', d, k)
      || (d in db'.revisions && db'.revisions[d].state.Quarantined?)
      || (mover.Some? && IsOwner(mover.value.1) && Mine(mover.value.0, mover.value.1, d, k))
      || (mover.Some? && mover.value.1.Repairing? && mover.value.1.repair.Adopt?
          && Mine(mover.value.0, mover.value.1, d, k) && PublishingUnder(db', d, unused))
  }

  ghost predicate BodyLeaves(db: Db, body: Body, d: Digest, k: Token) {
    PublishingUnder(db, d, k) ==>
      || PublishingUnder(Execute(db, body), d, k)
      || body.QuarantineBody?
      || (body.SettleOwnedBody? && body.content.digest == d && body.token == k)
      || (body.SettleRepairedBody? && body.digest == d && body.token == k)
      || (body.DropPublicationBody? && body.digest == d && body.token == k)
      || (body.AdoptBody? && body.digest == d && body.expected == k && PublishingUnder(Execute(db, body), d, body.token))
  }

  lemma RowBodiesLeave(db: Db, body: Body, d: Digest, k: Token)
    requires body.ClaimBody? || body.SettleOwnedBody? || body.AdoptBody? || body.SettleRepairedBody? || body.DropPublicationBody?
    ensures BodyLeaves(db, body, d, k)
  {
    hide Anchored;
  }

  lemma BodiesLeave(db: Db, body: Body, d: Digest, k: Token)
    ensures BodyLeaves(db, body, d, k)
  {
    hide Anchored, LeasedAfter, CoordinateTaken, Available;
    if body.ClaimBody? || body.SettleOwnedBody? || body.AdoptBody? || body.SettleRepairedBody? || body.DropPublicationBody? {
      RowBodiesLeave(db, body, d, k);
    } else if body.MarkGarbageBody? {
      assert PublishingUnder(db, d, k) ==> d !in Collectable(PurgeLeases(db, body.now), body.now);
    }
  }

  lemma QuarantineLeaves(db: Db, body: Body, d: Digest, k: Token)
    requires body.QuarantineBody?
    ensures PublishingUnder(db, d, k) ==>
      PublishingUnder(Execute(db, body), d, k)
      || (d in Execute(db, body).revisions && Execute(db, body).revisions[d].state.Quarantined?)
  {
  }

  /** The body of a step names the row and token of the call that makes it. */
  lemma MoverLeaves(s: State, a: Action, body: Body, d: Digest, k: Token)
    requires BodyOf(s, a) == Some(body) && BodyLeaves(s.world.db, body, d, k)
    ensures LeavesByItsHolder(s.world.db, Execute(s.world.db, body), Mover(s, a), s.next, d, k)
  {
    if body.QuarantineBody? { QuarantineLeaves(s.world.db, body, d, k); }
    hide Execute, PublishingUnder;
  }

  lemma StepLeaves(s: State, stale: Time, a: Action, d: Digest, k: Token)
    requires Base(s) && Enabled(s, a)
    ensures LeavesByItsHolder(s.world.db, Apply(s, stale, a).world.db, Mover(s, a), s.next, d, k)
  {
    ActionExecutes(s, stale, a);
    hide Base, Apply, Enabled, BodyLeaves, Execute, BodyOf, Mover;
    if BodyOf(s, a).Some? {
      BodiesLeave(s.world.db, BodyOf(s, a).value, d, k);
      MoverLeaves(s, a, BodyOf(s, a).value, d, k);
    }
  }

  // ----- Whole runs -----

  lemma TokenStep(s: State, stale: Time, a: Action, d: Digest, k: Token)
    requires Base(s) && Enabled(s, a) && k < s.next && !PublishingUnder(s.world.db, d, k)
    ensures k < Apply(s, stale, a).next && !PublishingUnder(Apply(s, stale, a).world.db, d, k)
  {
    ActionWorld(s, stale, a);
    hide Base, Effect, Step, IdsUsed, PublishingUnder;
  }

  /** A token that does not own a row never owns it again. */
  lemma {:induction false} TokensNeverReturn(run: Trace, stale: Time, i: nat, j: nat, d: Digest, k: Token)
    requires IsRun(run, stale) && i <= j < |run.states|
    requires k < run.states[i].next && !PublishingUnder(run.states[i].world.db, d, k)
    ensures k < run.states[j].next && !PublishingUnder(run.states[j].world.db, d, k)
    decreases j
  {
    hide *;
    if i < j {
      TokensNeverReturn(run, stale, i, j - 1, d, k);
      NextStep(run, stale, j - 1);
      RunInvariant(run, stale, j - 1);
      TokenStep(run.states[j - 1], stale, run.actions[j - 1], d, k);
    }
  }

  /** Step `n` ends the claim that token `k` stands for, one way or the other. */
  ghost predicate Ends(run: Trace, n: nat, d: Digest, k: Token)
    requires n + 1 < |run.states|
  {
    PublishingUnder(run.states[n].world.db, d, k) && !PublishingUnder(run.states[n + 1].world.db, d, k)
  }

  /** Takeovers are compare-and-swap: a publishing row leaves its token only by quarantine, by a step of
      the one task that holds the token, or by an adoption that names the token and draws a new one. */
  lemma OnlyTheHolderSettles(run: Trace, stale: Time, n: nat, d: Digest, k: Token)
    requires IsRun(run, stale) && n < |run.actions| && n + 1 < |run.states|
    ensures LeavesByItsHolder(run.states[n].world.db, run.states[n + 1].world.db,
                              Mover(run.states[n], run.actions[n]), run.states[n].next, d, k)
  {
    RunInvariant(run, stale, n);
    StepLeaves(run.states[n], stale, run.actions[n], d, k);
  }

  /** Each claim is settled at most once. */
  lemma SettledAtMostOnce(run: Trace, stale: Time, n: nat, m: nat, d: Digest, k: Token)
    requires IsRun(run, stale) && n + 1 < |run.states| && m + 1 < |run.states|
    requires Ends(run, n, d, k) && Ends(run, m, d, k)
    ensures n == m
  {
    RunInvariant(run, stale, n);
    RunInvariant(run, stale, m);
    assert WorldOk(run.states[n].world, run.states[n].next) && WorldOk(run.states[m].world, run.states[m].next);
    assert k < run.states[n].next && k < run.states[m].next;
    hide Base, WorldOk;
    if n < m {
      TokensNeverReturn(run, stale, n + 1, m, d, k);
    } else if m < n {
      TokensNeverReturn(run, stale, m + 1, n, d, k);
    }
  }

  /** An owner whose row carries another token publishes nothing, grants nothing and deletes nothing. */
  lemma OvertakenStep(s: State, stale: Time, t: TaskId, i: Input)
    requires Base(s) && t in s.tasks && IsOwner(s.tasks[t].pc)
    requires var f := Ticket(t, s.tasks[t].pc).value; !PublishingUnder(s.world.db, f.content.digest, f.token)
    ensures var db, db' := s.world.db, MoveOf(s, stale, t, i).world.db;
            db'.revisions == db.revisions && db'.leases == db.leases
  {
    hide Base, PublishingUnder;
  }

  /** Once overtaken, an owner stays powerless for as long as it goes on with its ticket. */
  lemma OvertakenForEver(run: Trace, stale: Time, i: nat, j: nat, t: TaskId, input: Input)
    requires IsRun(run, stale) && i <= j < |run.actions| && j + 1 < |run.states|
    requires t in run.states[i].tasks && IsOwner(run.states[i].tasks[t].pc)
    requires t in run.states[j].tasks && IsOwner(run.states[j].tasks[t].pc)
    requires Ticket(t, run.states[j].tasks[t].pc) == Ticket(t, run.states[i].tasks[t].pc)
    requires var f := Ticket(t, run.states[i].tasks[t].pc).value;
             !PublishingUnder(run.states[i].world.db, f.content.digest, f.token)
    requires run.actions[j] == Run(t, input)
    ensures run.states[j + 1].world.db.revisions == run.states[j].world.db.revisions
    ensures run.states[j + 1].world.db.leases == run.states[j].world.db.leases
  {
    var f := Ticket(t, run.states[i].tasks[t].pc).value;
    RunInvariant(run, stale, i);
    RunInvariant(run, stale, j);
    assert TicketsOk(run.states[i].world.db, run.states[i].next, t, run.states[i].tasks[t].pc);
    hide Base;
    TokensNeverReturn(run, stale, i, j, f.content.digest, f.token);
    OvertakenStep(run.states[j], stale, t, input);
    hide MoveOf;
  }

  // ----- What admit returns -----

  /** The grant a task has been given, from the inserting transaction to its return. */
  function GrantOf(pc: PC): Option<Granted> {
    match pc
    case Returned(g) => Some(g)
    case Admitting(_, at) => (match at
      case CleaningFile(r) => r
      case CleaningRow(r) => r
      case _ => None)
    case Verifying(at, c, caller) =>
      if (at.ReadRow? || at.Check?) && caller.Admission? then Some(Granted(c, caller.grant)) else None
    case _ => None
  }

  /** The step inserts the lease of the grant, for a row published with that length at that instant. */
  ghost predicate Inserts(db: Db, db': Db, g: Granted) {
    && g.grant.lease !in db.leases
    && g.grant.lease in db'.leases
    && db'.leases[g.grant.lease].digest == g.content.digest
    && db'.leases[g.grant.lease].byteLength == g.content.byteLength
    && db'.leases[g.grant.lease].expiresAt == g.grant.expiresAt
    && Available(db', g.content)
  }

  lemma GrantsAreInserted(s: State, stale: Time, t: TaskId, i: Input)
    requires Base(s) && t in s.tasks
    ensures var move := MoveOf(s, stale, t, i);
            GrantOf(move.pc).Some? ==>
              GrantOf(s.tasks[t].pc) == GrantOf(move.pc) || Inserts(s.world.db, move.world.db, GrantOf(move.pc).value)
  {
    assert TicketsOk(s.world.db, s.next, t, s.tasks[t].pc);
    hide Base, TouchStage, ClaimPublication, ForgetStage, Quarantine, SettleRepaired, DropPublication, ForgetStageOf,
         FinishDeletion, MarkGarbage, AdoptRepair;
    var pc := s.tasks[t].pc;
    if pc.Admitting? && pc.admit.Leasing? {
    } else if pc.Holding? && pc.step.Settle? {
    } else {
      hide InsertLease, SettleOwned, Available;
    }
  }

  lemma SpawnGrantsNothing(s: State, pc: PC)
    requires MaySpawn(s, pc)
    ensures GrantOf(pc) == None
  {
  }

  lemma GrantStep(s: State, stale: Time, a: Action, t: TaskId)
    requires Base(s) && Enabled(s, a)
    requires t in Apply(s, stale, a).tasks && GrantOf(Apply(s, stale, a).tasks[t].pc).Some?
    ensures var g := GrantOf(Apply(s, stale, a).tasks[t].pc);
            || (t in s.tasks && GrantOf(s.tasks[t].pc) == g)
            || (a.Run? && a.task == t && Inserts(s.world.db, Apply(s, stale, a).world.db, g.value))
  {
    if a.Run? && a.task == t { GrantsAreInserted(s, stale, t, a.input); }
    if a.Spawn? { SpawnGrantsNothing(s, a.pc); }
    hide Base, MoveOf, MaySpawn, Inserts;
  }

  /** Step `m` of the run inserts the lease of the grant, and it is a step of `t`. */
  ghost predicate InsertedAt(run: Trace, m: nat, t: TaskId, g: Granted)
    requires m < |run.actions| && m + 1 < |run.states|
  {
    run.actions[m].Run? && run.actions[m].task == t && Inserts(run.states[m].world.db, run.states[m + 1].world.db, g)
  }

  predicate HasGrant(s: State, t: TaskId, g: Granted) {
    t in s.tasks && GrantOf(s.tasks[t].pc) == Some(g)
  }

  lemma GrantRunStep(run: Trace, stale: Time, n: nat, t: TaskId, g: Granted)
    requires IsRun(run, stale) && n < |run.actions| && n + 1 < |run.states| && HasGrant(run.states[n + 1], t, g)
    ensures HasGrant(run.states[n], t, g) || InsertedAt(run, n, t, g)
  {
    RunInvariant(run, stale, n);
    GrantStep(run.states[n], stale, run.actions[n], t);
    hide Base, Apply, Inserts, GrantOf;
  }

  lemma NoGrantAtStart(t: TaskId, g: Granted)
    ensures !HasGrant(Start, t, g)
  {
    assert Start.tasks == map[];
  }

  lemma Beginning(run: Trace, stale: Time)
    requires IsRun(run, stale)
    ensures |run.states| == |run.actions| + 1 && run.states[0] == Start
  {
  }

  /** `admit` returns only after a step of the same call inserted its lease against a row published with exactly the
      length it reports. */
  lemma {:induction false} AdmitReturnsLeased(run: Trace, stale: Time, n: nat, t: TaskId, g: Granted)
    requires IsRun(run, stale) && n < |run.states| && HasGrant(run.states[n], t, g)
    ensures |run.states| == |run.actions| + 1
    ensures exists m: nat {:trigger InsertedAt(run, m, t, g)} :: m < n && InsertedAt(run, m, t, g)
  {
    hide *;
    Beginning(run, stale);
    if n == 0 {
      NoGrantAtStart(t, g);
    } else {
      GrantRunStep(run, stale, n - 1, t, g);
      if HasGrant(run.states[n - 1], t, g) { AdmitReturnsLeased(run, stale, n - 1, t, g); }
    }
  }
}
