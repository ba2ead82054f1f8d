/** The row state machine over whole runs: statements that hold in every run of the protocol, under
    every schedule, every crash and every corruption of blobs. */
module ContentHistory {
  import opened Collections
  import opened ContentDatabase
  import opened ContentRows
  import opened ContentProtocol
  import opened ContentInvariant

  // ----- Every step is at most one transaction body -----

  function BodyOf(s: State, a: Action): Option<Body> {
    match a
    case Admit(pid) => Some(BeginStageBody(s.next, pid, s.next + 1, s.now))
    case Anchoring(l, x, ns, key, at) => Some(CreateAnchorBody(l, x, ns, key, at))
    case Cloning(x, y, ns, key, at) => Some(CloneAnchorBody(x, y, ns, key, at))
    case ReleasingAnchor(x) => Some(ReleaseAnchorBody(x, s.now))
    case ReleasingLease(l) => Some(ReleaseLeaseBody(l))
    case Run(t, i) => if t in s.tasks then TaskBody(s, t, s.tasks[t].pid, s.tasks[t].pc, i) else None
    case _ => None
  }

  function TaskBody(s: State, t: TaskId, pid: Pid, pc: PC, i: Input): Option<Body> {
    if Throws(pc, i) then None else StepBody(s, t, pid, pc)
  }

  function StepBody(s: State, t: TaskId, pid: Pid, pc: PC): Option<Body> {
    match pc
    case Admitting(k, at) => (match at
      case Touching(_) => Some(TouchStageBody(t, pid, k, s.now))
      case Claiming(c, _) => Some(ClaimBody(c, t, k, pid, s.next, s.now))
      case Leasing(c, g) => Some(InsertLeaseBody(g.lease, c, g.expiresAt, s.now))
      case CleaningRow(_) => Some(ForgetStageBody(t, k))
      case Forgetting => Some(ForgetStageBody(t, k))
      case _ => None)
    case Holding(at, h) =>
      if at.Settle? then Some(SettleOwnedBody(h.content, h.token, h.grant.lease, h.grant.expiresAt, s.now)) else None
    case Verifying(at, c, _) => if at.QuarantineRow? then Some(QuarantineBody(c.digest, s.now)) else None
    case Repairing(at, f) => (match at
      case Adopt => Some(AdoptBody(f.content.digest, f.token, pid, s.next, s.now))
      case SettleRow => Some(SettleRepairedBody(f.content.digest, f.token, s.now))
      case DropRow => Some(DropPublicationBody(f.content.digest, f.token))
      case _ => None)
    case Sweeping(at, stage, owner, k) => if at.SweepRow? then Some(ForgetStageOfBody(stage, owner, k)) else None
    case Collecting(at) => (match at
      case Marking(when) => Some(MarkGarbageBody(when))
      case FinishingRow(d, _) => Some(FinishDeletionBody(d))
      case Finishing(_) => None)
    case _ => None
  }

  function Executed(db: Db, body: Option<Body>): Db {
    if body.Some? then Execute(db, body.value) else db
  }

  lemma TaskExecutes(s: State, stale: Time, t: TaskId, i: Input)
    requires t in s.tasks
    ensures MoveOf(s, stale, t, i).world.db == Executed(s.world.db, TaskBody(s, t, s.tasks[t].pid, s.tasks[t].pc, i))
  {
    hide TouchStage, ClaimPublication, InsertLease, ForgetStage, SettleOwned, Quarantine, SettleRepaired,
         DropPublication, ForgetStageOf, FinishDeletion, Available;
    if Throws(s.tasks[t].pc, i) { return; }
    match s.tasks[t].pc
    case Admitting(k, at) => AdmitExecutes(s, t, s.tasks[t].pid, k, at, i);
    case Repairing(at, f) => RepairExecutes(s, t, s.tasks[t].pid, at, f);
    case _ =>
  }

  lemma AdmitExecutes(s: State, t: TaskId, pid: Pid, k: Token, at: AdmitPC, i: Input)
    ensures AdmitMove(s.world, s.now, s.next, t, pid, k, at, i).world.db
         == Executed(s.world.db, StepBody(s, t, pid, Admitting(k, at)))
  {
    hide TouchStage, InsertLease, ForgetStage;
  }

  lemma RepairExecutes(s: State, t: TaskId, pid: Pid, at: RepairStep, f: Found)
    ensures RepairMove(s.world, s.now, s.next, pid, at, f).world.db
         == Executed(s.world.db, StepBody(s, t, pid, Repairing(at, f)))
  {
    hide SettleRepaired, DropPublication;
  }

  lemma ActionExecutes(s: State, stale: Time, a: Action)
    requires Enabled(s, a)
    ensures Apply(s, stale, a).world.db == Executed(s.world.db, BodyOf(s, a))
  {
    hide MoveOf, TaskBody, MaySpawn, BeginStage, CreateAnchor, CloneAnchor, ReleaseAnchor, ReleaseLease;
    if a.Run? {
      TaskExecutes(s, stale, a.task, a.input);
    }
  }

  // ----- The base invariant along a run -----

  ghost predicate ClockOk(s: State) {
    forall t :: t in s.tasks && s.tasks[t].pc.Collecting? && s.tasks[t].pc.collect.Marking? ==>
      s.tasks[t].pc.collect.markedAt <= s.now
  }

  lemma ClockStep(s: State, stale: Time, a: Action)
    requires ClockOk(s) && Enabled(s, a)
    ensures ClockOk(Apply(s, stale, a))
  {
    if a.Run? {
      hide AdmitMove, HoldMove, VerifyMove, RepairMove, SweepMove;
      NoNewMark(s, stale, a.task, a.input);
    }
  }

  lemma NoNewMark(s: State, stale: Time, t: TaskId, i: Input)
    requires t in s.tasks
    ensures var pc := MoveOf(s, stale, t, i).pc; pc.Collecting? ==> !pc.collect.Marking?
  {
    hide TouchStage, ClaimPublication, InsertLease, ForgetStage, SettleOwned, Quarantine, SettleRepaired,
         DropPublication, ForgetStageOf, FinishDeletion, Available, AdoptRepair, MarkGarbage;
  }

  lemma NextStep(run: Trace, stale: Time, n: nat)
    requires IsRun(run, stale) && n + 1 < |run.states|
    ensures n < |run.actions| && Enabled(run.states[n], run.actions[n])
    ensures run.states[n + 1] == Apply(run.states[n], stale, run.actions[n])
  {
  }

  lemma RunInvariant(run: Trace, stale: Time, n: nat)
    requires IsRun(run, stale) && n < |run.states|
    ensures Base(run.states[n]) && ClockOk(run.states[n])
  {
    hide Base, ClockOk, Apply;
    if n == 0 {
      StartInvariant();
    } else {
      RunInvariant(run, stale, n - 1);
      BaseStep(run.states[n - 1], stale, run.actions[n - 1]);
      ClockStep(run.states[n - 1], stale, run.actions[n - 1]);
    }
  }

  lemma StartInvariant()
    ensures Base(Start) && ClockOk(Start)
  {
  }

  lemma RunLength(run: Trace, stale: Time)
    requires IsRun(run, stale)
    ensures |run.states| == |run.actions| + 1
  {
  }

  lemma RunStep(run: Trace, stale: Time, n: nat)
    requires IsRun(run, stale) && n < |run.actions|
    ensures Step(run.states[n].world.db, run.states[n + 1].world.db)
  {
    RunInvariant(run, stale, n);
    ActionWorld(run.states[n], stale, run.actions[n]);
  }

  // ----- Theorems -----

  /** In every state of every run each pin names a published or quarantined row of its own length, and
      the rows that a transaction may delete carry no pin: the restrict key never fires and no
      cascade drops a lease. */
  lemma PinsNameKeptRows(run: Trace, stale: Time, n: nat, digest: Digest)
    requires IsRun(run, stale) && n < |run.states|
    ensures PinsOk(run.states[n].world.db)
    ensures var db := run.states[n].world.db;
            digest in db.revisions && (db.revisions[digest].state.Deleting? || db.revisions[digest].state.Publishing?) ==>
              !Anchored(db, digest) && !Leased(db, digest) && DeleteRevision(db, digest).Commit?
  {
    RunInvariant(run, stale, n);
    var db := run.states[n].world.db;
    assert RowsOk(db);
    assert forall a :: a in db.anchors ==> Pinnable(db, db.anchors[a].digest, db.anchors[a].byteLength);
    assert forall l :: l in db.leases ==> Pinnable(db, db.leases[l].digest, db.leases[l].byteLength);
  }

  lemma QuarantineStep(db: Db, db': Db, digest: Digest)
    requires Step(db, db') && digest in db.revisions && db.revisions[digest].state.Quarantined?
    ensures digest in db'.revisions && db'.revisions[digest].state.Quarantined?
    ensures db'.revisions[digest].byteLength == db.revisions[digest].byteLength
  {
  }

  lemma AnchorStep(db: Db, db': Db, anchor: AnchorId)
    requires Step(db, db')
    ensures anchor in db.retired ==> anchor in db'.retired
    ensures anchor in db.anchors ==>
              anchor in db'.retired || (anchor in db'.anchors && db'.anchors[anchor] == db.anchors[anchor])
  {
    hide RowsOk, RowMoves;
  }

  /** Quarantined is absorbing: once quarantined a row stays, quarantined and of the same length. */
  lemma {:induction false} QuarantineIsAbsorbing(run: Trace, stale: Time, i: nat, j: nat, digest: Digest)
    requires IsRun(run, stale) && i <= j < |run.states|
    requires digest in run.states[i].world.db.revisions
    requires run.states[i].world.db.revisions[digest].state.Quarantined?
    ensures digest in run.states[j].world.db.revisions
    ensures run.states[j].world.db.revisions[digest].state.Quarantined?
    ensures run.states[j].world.db.revisions[digest].byteLength == run.states[i].world.db.revisions[digest].byteLength
    decreases j
  {
    hide *;
    RunLength(run, stale);
    if i < j {
      QuarantineIsAbsorbing(run, stale, i, j - 1, digest);
      RunStep(run, stale, j - 1);
      QuarantineStep(run.states[j - 1].world.db, run.states[j].world.db, digest);
    }
  }

  lemma RowsInRun(run: Trace, stale: Time, n: nat)
    requires IsRun(run, stale) && n < |run.states|
    ensures RowsOk(run.states[n].world.db)
  {
    RunInvariant(run, stale, n);
    hide IsRun, RowsOk, IdsUsed;
  }

  lemma RetiredIsInactive(db: Db, anchor: AnchorId)
    requires RowsOk(db) && anchor in db.retired
    ensures anchor !in db.anchors
  {
    hide PinsOk, JournalsOk;
  }

  lemma {:induction false} RetiredStaysRetired(run: Trace, stale: Time, i: nat, j: nat, anchor: AnchorId)
    requires IsRun(run, stale) && i <= j < |run.states|
    requires anchor in run.states[i].world.db.retired
    ensures anchor in run.states[j].world.db.retired && anchor !in run.states[j].world.db.anchors
    decreases j
  {
    hide *;
    RunLength(run, stale);
    RowsInRun(run, stale, j);
    if i < j {
      RetiredStaysRetired(run, stale, i, j - 1, anchor);
      RunStep(run, stale, j - 1);
      AnchorStep(run.states[j - 1].world.db, run.states[j].world.db, anchor);
    }
    RetiredIsInactive(run.states[j].world.db, anchor);
  }

  /** Between two instants an anchor either lived all along, unchanged, or was retired on the way. */
  lemma {:induction false} AnchorLivesOrRetires(run: Trace, stale: Time, i: nat, j: nat, anchor: AnchorId)
    requires IsRun(run, stale) && i <= j < |run.states|
    requires anchor in run.states[i].world.db.anchors
    ensures || anchor in run.states[j].world.db.retired
            || (anchor in run.states[j].world.db.anchors
                && run.states[j].world.db.anchors[anchor] == run.states[i].world.db.anchors[anchor])
    decreases j
  {
    hide *;
    RunLength(run, stale);
    if i < j {
      AnchorLivesOrRetires(run, stale, i, j - 1, anchor);
      RunStep(run, stale, j - 1);
      AnchorStep(run.states[j - 1].world.db, run.states[j].world.db, anchor);
    }
  }

  /** An anchor id denotes one namespace, key, digest and length for the whole run. */
  lemma AnchorIdentity(run: Trace, stale: Time, i: nat, j: nat, anchor: AnchorId)
    requires IsRun(run, stale) && i <= j < |run.states|
    requires anchor in run.states[i].world.db.anchors && anchor in run.states[j].world.db.anchors
    ensures run.states[i].world.db.anchors[anchor] == run.states[j].world.db.anchors[anchor]
  {
    hide IsRun, RowsOk, IdsUsed;
    AnchorLivesOrRetires(run, stale, i, j, anchor);
    RunInvariant(run, stale, j);
    if anchor in run.states[j].world.db.retired {
      RetiredIsInactive(run.states[j].world.db, anchor);
    }
  }

  /** Once released, an anchor id is never active again. */
  lemma ReleasedForEver(run: Trace, stale: Time, i: nat, k: nat, j: nat, anchor: AnchorId)
    requires IsRun(run, stale) && i <= k <= j < |run.states|
    requires anchor in run.states[i].world.db.anchors && anchor !in run.states[k].world.db.anchors
    ensures anchor !in run.states[j].world.db.anchors
  {
    AnchorLivesOrRetires(run, stale, i, k, anchor);
    RetiredStaysRetired(run, stale, k, j, anchor);
  }

  /** The lease-to-anchor handoff leaves no unpinned instant: an unexpired lease row leaves the table
      only when released by id, or when the very same step inserts an anchor for its digest. */
  lemma UnexpiredLeaseStays(run: Trace, stale: Time, n: nat, lease: LeaseId)
    requires IsRun(run, stale) && n < |run.actions|
    requires lease in run.states[n].world.db.leases
    requires run.states[n].world.db.leases[lease].expiresAt > run.states[n].now
    ensures var db, db' := run.states[n].world.db, run.states[n + 1].world.db;
            || (lease in db'.leases && db'.leases[lease] == db.leases[lease])
            || run.actions[n] == ReleasingLease(lease)
            || (run.actions[n].Anchoring? && run.actions[n].lease == lease
                && run.actions[n].anchor in db'.anchors
                && db'.anchors[run.actions[n].anchor].digest == db.leases[lease].digest
                && db'.anchors[run.actions[n].anchor].byteLength == db.leases[lease].byteLength)
  {
    var s, a := run.states[n], run.actions[n];
    RunInvariant(run, stale, n);
    assert RowsOk(s.world.db);
    hide Base, RowsOk, Apply;
    ActionExecutes(s, stale, a);
    if BodyOf(s, a).Some? {
      LeasesAreHandedOver(s.world.db, BodyOf(s, a).value, lease);
      assert LeaseMove(s.world.db, BodyOf(s, a).value, lease);
      hide Execute;
    }
  }
}
