/** The content store as a state machine over its atomic steps.

    A task is one call in flight inside one process. Each transaction body is one step, and so is
    each file operation: opening and writing a stage, renaming, unlinking, and every digest check.
    Any number of tasks of any number of processes interleave; a crash of a process ends its tasks
    wherever they stand and leaves tables and files as they are. */
module ContentProtocol {
  import opened Collections
  import opened ContentDatabase

  type TaskId = int

  /** Tables and files. A blob lies under its digest, a staged file under its stage id. */
  datatype World = World(db: Db, blobs: map<Digest, Content>, staged: map<StageId, Content>)

  /** The lease an admission will insert. */
  datatype Grant = Grant(lease: LeaseId, expiresAt: Time)

  /** What an admission returns. */
  datatype Granted = Granted(content: Content, grant: Grant)

  /** An admission that claimed its digest. Its stage id is its task id. */
  datatype Held = Held(stageToken: Token, content: Content, token: Token, grant: Grant)

  /** A publication row as a repairer read it, and later the same row under the repairer's token. */
  datatype Found = Found(content: Content, token: Token, temp: StageId)

  /** What a digest check returns to: nothing, or the admission that must still clean its stage. */
  datatype Caller = Alone | Admission(stageToken: Token, grant: Grant) | Publisher(stageToken: Token)

  /** `admit` outside its claim. */
  datatype AdmitPC =
    | Opening
    | Writing
    | Touching(written: Content)
    | Claiming(written: Content, grant: Grant)
    | Leasing(written: Content, grant: Grant)
    | CleaningFile(result: Option<Granted>)
    | CleaningRow(result: Option<Granted>)
    | Forgetting
    | Abandoning

  /** `publishOwned`, between the claim and the transaction that settles it. */
  datatype HeldStep = Stat | Digest | Rename | Unlink | Settle | Discard

  /** `verifyReference` and the `quarantine` it may trigger. */
  datatype CheckStep = ReadRow | Check | QuarantineRow | MoveAside

  /** `repairPublication` after it judged the owner dead or stale. */
  datatype RepairStep = Adopt | CheckFinal | CheckStaged | UnlinkStaged | RenameStaged | SettleRow | DropStaged | DropRow

  /** `repairAdmissionStage`. */
  datatype SweepStep = JudgeOwner | SweepFile | SweepRow

  /** `collectGarbage` and `finishDeletion`. */
  datatype CollectPC =
    | Marking(markedAt: Time)
    | Finishing(pending: set<Digest>)
    | FinishingRow(digest: Digest, pending: set<Digest>)

  datatype PC =
    | Admitting(stageToken: Token, admit: AdmitPC)
    | Holding(step: HeldStep, held: Held)
    | Verifying(check: CheckStep, content: Content, caller: Caller)
    | Judging(found: Found, ownerPid: Pid, updatedAt: Time)
    | Repairing(repair: RepairStep, found: Found)
    | Sweeping(sweep: SweepStep, stage: StageId, ownerPid: Pid, sweptToken: Token)
    | Collecting(collect: CollectPC)
    | Returned(granted: Granted)
    | Failed
    | Ended

  datatype Task = Task(pid: Pid, pc: PC)

  datatype State = State(world: World, tasks: map<TaskId, Task>, alive: set<Pid>, now: Time, next: int)

  const Start := State(World(EmptyDb, map[], map[]), map[], {}, 0, 0)

  /** The choices a step leaves to its surroundings: whether it throws, what the source yields, which
      lease is asked for, which pending row is finished next. */
  datatype Input = Input(ok: bool, content: Content, lease: LeaseId, leaseMs: int, digest: Digest)

  datatype Move = Move(world: World, pc: PC)

  function CleanUp(stageToken: Token): PC {
    Admitting(stageToken, CleaningFile(None))
  }

  function Failure(caller: Caller): PC {
    match caller
    case Alone => Failed
    case Admission(k, _) => CleanUp(k)
    case Publisher(k) => CleanUp(k)
  }

  // ----- The steps of an admission -----

  function AdmitMove(w: World, now: Time, unused: Token, t: TaskId, pid: Pid, k: Token, at: AdmitPC, i: Input): Move {
    match at
    case Opening =>
      if i.ok then Move(w.(staged := w.staged[t := i.content]), Admitting(k, Writing))
      else Move(w, Admitting(k, Forgetting))
    case Writing =>
      Move(w.(staged := w.staged[t := i.content]), Admitting(k, if i.ok then Touching(i.content) else Abandoning))
    case Touching(c) =>
      var txn := TouchStage(w.db, t, pid, k, now);
      if txn.Rollback? then Move(w, CleanUp(k))
      else
        var grant := Grant(i.lease, now + if i.leaseMs < 1 then 1 else i.leaseMs);
        Move(w.(db := txn.db), Admitting(k, Claiming(c, grant)))
    case Claiming(c, g) =>
      var txn := ClaimPublication(w.db, c, t, k, pid, unused, now);
      if txn.Rollback? then Move(w, CleanUp(k))
      else (match txn.value
        case Owned => Move(w.(db := txn.db), Holding(Stat, Held(k, c, unused, g)))
        case AlreadyPublished => Move(w, Admitting(k, Leasing(c, g)))
        case Waiting => Move(w, Admitting(k, at)))
    case Leasing(c, g) =>
      var txn := InsertLease(w.db, g.lease, c, g.expiresAt, now);
      if txn.Commit? then Move(w.(db := txn.db), Verifying(ReadRow, c, Admission(k, g)))
      else Move(w, CleanUp(k))
    case CleaningFile(r) => Move(w.(staged := w.staged - {t}), Admitting(k, CleaningRow(r)))
    case CleaningRow(r) => Move(w.(db := ForgetStage(w.db, t, k)), if r.Some? then Returned(r.value) else Failed)
    case Forgetting => Move(w.(db := ForgetStage(w.db, t, k)), Failed)
    case Abandoning => Move(w.(staged := w.staged - {t}), Admitting(k, Forgetting))
  }

  function HoldMove(w: World, now: Time, t: TaskId, at: HeldStep, h: Held): Move {
    match at
    case Stat => Move(w, Holding(if h.content.digest in w.blobs then Digest else Rename, h))
    case Digest => Move(w, Holding(if Lookup(w.blobs, h.content.digest) == Some(h.content) then Unlink else Discard, h))
    case Rename =>
      if t in w.staged then
        Move(w.(blobs := w.blobs[h.content.digest := w.staged[t]], staged := w.staged - {t}), Holding(Settle, h))
      else Move(w, CleanUp(h.stageToken))
    case Unlink => Move(w.(staged := w.staged - {t}), Holding(Settle, h))
    case Settle =>
      var txn := SettleOwned(w.db, h.content, h.token, h.grant.lease, h.grant.expiresAt, now);
      if txn.Commit? then Move(w.(db := txn.db), Returned(Granted(h.content, h.grant)))
      else Move(w, CleanUp(h.stageToken))
    case Discard => Move(w.(staged := w.staged - {t}), Verifying(QuarantineRow, h.content, Publisher(h.stageToken)))
  }

  // ----- The steps of a verification -----

  function VerifyMove(w: World, now: Time, at: CheckStep, c: Content, caller: Caller): Move {
    match at
    case ReadRow => Move(w, if Available(w.db, c) then Verifying(Check, c, caller) else Failure(caller))
    case Check =>
      Move(w,
        if Lookup(w.blobs, c.digest) != Some(c) then Verifying(QuarantineRow, c, caller)
        else if caller.Admission? then
          Admitting(caller.stageToken, CleaningFile(Some(Granted(c, caller.grant))))
        else Ended)
    case QuarantineRow => Move(w.(db := Quarantine(w.db, c.digest, now)), Verifying(MoveAside, c, caller))
    case MoveAside => Move(w.(blobs := w.blobs - {c.digest}), Failure(caller))
  }

  // ----- The steps of a repair -----

  function RepairMove(w: World, now: Time, unused: Token, pid: Pid, at: RepairStep, f: Found): Move {
    var d := f.content.digest;
    match at
    case Adopt =>
      var txn := AdoptRepair(w.db, d, f.token, pid, unused, now);
      if txn.Commit? && txn.value then Move(w.(db := txn.db), Repairing(CheckFinal, f.(token := unused)))
      else Move(w, Ended)
    case CheckFinal => Move(w, Repairing(if Lookup(w.blobs, d) == Some(f.content) then UnlinkStaged else CheckStaged, f))
    case CheckStaged =>
      Move(w, Repairing(if Lookup(w.staged, f.temp) == Some(f.content) then RenameStaged else DropStaged, f))
    case UnlinkStaged => Move(w.(staged := w.staged - {f.temp}), Repairing(SettleRow, f))
    case RenameStaged =>
      if f.temp in w.staged then
        Move(w.(blobs := w.blobs[d := w.staged[f.temp]], staged := w.staged - {f.temp}), Repairing(SettleRow, f))
      else Move(w, Failed)
    case SettleRow => Move(w.(db := SettleRepaired(w.db, d, f.token, now)), Ended)
    case DropStaged => Move(w.(staged := w.staged - {f.temp}), Repairing(DropRow, f))
    case DropRow => Move(w.(db := After(DropPublication(w.db, d, f.token), w.db)), Ended)
  }

  function SweepMove(w: World, alive: set<Pid>, at: SweepStep, stage: StageId, owner: Pid, k: Token): Move {
    match at
    case JudgeOwner => Move(w, if owner in alive then Ended else Sweeping(SweepFile, stage, owner, k))
    case SweepFile => Move(w.(staged := w.staged - {stage}), Sweeping(SweepRow, stage, owner, k))
    case SweepRow => Move(w.(db := ForgetStageOf(w.db, stage, owner, k)), Ended)
  }

  // ----- The steps of a collection -----

  function CollectMove(w: World, at: CollectPC, i: Input): Move {
    match at
    case Marking(when) =>
      Move(w.(db := MarkGarbage(w.db, when).db), Collecting(Finishing(MarkGarbage(w.db, when).value)))
    case Finishing(pending) =>
      if i.digest in pending then Move(w.(blobs := w.blobs - {i.digest}), Collecting(FinishingRow(i.digest, pending)))
      else Move(w, if pending == {} then Ended else Collecting(at))
    case FinishingRow(d, pending) =>
      Move(w.(db := After(FinishDeletion(w.db, d), w.db)), Collecting(Finishing(pending - {d})))
  }

  predicate IsDone(pc: PC) {
    pc.Returned? || pc.Failed? || pc.Ended?
  }

  // ----- Steps that throw -----

  /** Where a call goes on when a file operation or a transaction throws before it has changed anything. A look at a file
      that throws counts as a look that found nothing right, and a failure of the cleaning itself is swallowed. */
  function Thrown(pc: PC): PC {
    match pc
    case Admitting(k, at) => (match at
      case CleaningFile(r) => (if r.Some? then Returned(r.value) else Failed)
      case CleaningRow(r) => (if r.Some? then Returned(r.value) else Failed)
      case Forgetting => Failed
      case Abandoning => Failed
      case _ => CleanUp(k))
    case Holding(at, h) => (match at
      case Stat => Holding(Rename, h)
      case Digest => Holding(Discard, h)
      case _ => CleanUp(h.stageToken))
    case Verifying(at, c, caller) => if at.Check? then Verifying(QuarantineRow, c, caller) else Failure(caller)
    case Repairing(at, f) => (match at
      case CheckFinal => Repairing(CheckStaged, f)
      case CheckStaged => Repairing(DropStaged, f)
      case _ => Failed)
    case _ => Failed
  }

  /** Opening and writing a stage say themselves what a failure leaves. */
  predicate Throws(pc: PC, i: Input) {
    !i.ok && !(pc.Admitting? && (pc.admit.Opening? || pc.admit.Writing?)) && !IsDone(pc)
  }

  function MoveOf(s: State, stale: Time, t: TaskId, i: Input): Move
    requires t in s.tasks
  {
    if Throws(s.tasks[t].pc, i) then Move(s.world, Thrown(s.tasks[t].pc)) else StepOf(s, stale, t, i)
  }

  function StepOf(s: State, stale: Time, t: TaskId, i: Input): Move
    requires t in s.tasks
  {
    var w, pid, pc := s.world, s.tasks[t].pid, s.tasks[t].pc;
    match pc
    case Admitting(k, at) => AdmitMove(w, s.now, s.next, t, pid, k, at, i)
    case Holding(at, h) => HoldMove(w, s.now, t, at, h)
    case Verifying(at, c, caller) => VerifyMove(w, s.now, at, c, caller)
    case Judging(f, owner, updated) =>
      Move(w, if owner in s.alive && s.now - updated < stale then Ended else Repairing(Adopt, f))
    case Repairing(at, f) => RepairMove(w, s.now, s.next, pid, at, f)
    case Sweeping(at, stage, owner, k) => SweepMove(w, s.alive, at, stage, owner, k)
    case Collecting(at) => CollectMove(w, at, i)
    case Returned(_) => Move(w, pc)
    case Failed => Move(w, pc)
    case Ended => Move(w, pc)
  }

  // ----- Actions -----

  datatype Action =
    | Boot(pid: Pid)
    | Crash(pid: Pid)
    | Tick(now: Time)
    | Admit(pid: Pid)
    | Spawn(pid: Pid, pc: PC)
    | Run(task: TaskId, input: Input)
    | Anchoring(lease: LeaseId, anchor: AnchorId, namespace: string, recordKey: string, at: Time)
    | Cloning(source: AnchorId, anchor: AnchorId, namespace: string, recordKey: string, at: Time)
    | ReleasingAnchor(anchor: AnchorId)
    | ReleasingLease(lease: LeaseId)
    | Corrupt(digest: Digest, found: Option<Content>)

  /** The calls that start with something read from the tables, the clock or the caller. */
  predicate MaySpawn(s: State, pc: PC) {
    match pc
    case Verifying(at, c, caller) =>
      at.ReadRow? && caller.Alone?
      && ((exists a :: a in s.world.db.anchors
             && c == Content(s.world.db.anchors[a].digest, s.world.db.anchors[a].byteLength))
          || (exists l :: l in s.world.db.leases && s.world.db.leases[l].expiresAt > s.now
                && c == Content(s.world.db.leases[l].digest, s.world.db.leases[l].byteLength)))
    case Judging(f, owner, updated) =>
      var d := f.content.digest;
      && PublishingUnder(s.world.db, d, f.token)
      && d in s.world.db.publications
      && f == Found(Content(d, s.world.db.revisions[d].byteLength), f.token, s.world.db.publications[d].temp)
      && owner == s.world.db.revisions[d].owner.value.pid
      && updated == s.world.db.revisions[d].updatedAt
    case Sweeping(at, stage, owner, k) =>
      && at.JudgeOwner?
      && stage in s.world.db.staging
      && owner == s.world.db.staging[stage].pid
      && k == s.world.db.staging[stage].token
    case Collecting(at) =>
      || at == Marking(s.now)
      || at == Finishing(s.world.db.deletions.Keys)
    case _ => false
  }

  predicate Enabled(s: State, a: Action) {
    match a
    case Boot(pid) => pid !in s.alive
    case Crash(pid) => pid in s.alive
    case Tick(now) => now > s.now
    case Admit(pid) => pid in s.alive
    case Spawn(pid, pc) => pid in s.alive && MaySpawn(s, pc)
    case Run(t, _) => t in s.tasks && !IsDone(s.tasks[t].pc)
    case Anchoring(_, _, _, _, at) => at <= s.now
    case Cloning(_, _, _, _, at) => at <= s.now
    case ReleasingAnchor(_) => true
    case ReleasingLease(_) => true
    case Corrupt(_, _) => true
  }

  function WithDb(s: State, db: Db): State { s.(world := s.world.(db := db)) }

  function Effect(s: State, stale: Time, a: Action): State
    requires Enabled(s, a)
  {
    match a
    case Boot(pid) => s.(alive := s.alive + {pid})
    case Crash(pid) =>
      s.(alive := s.alive - {pid}, tasks := map t | t in s.tasks && s.tasks[t].pid != pid :: s.tasks[t])
    case Tick(now) => s.(now := now)
    case Admit(pid) =>
      WithDb(s, After(BeginStage(s.world.db, s.next, pid, s.next + 1, s.now), s.world.db))
        .(tasks := s.tasks[s.next := Task(pid, Admitting(s.next + 1, Opening))])
    case Spawn(pid, pc) => s.(tasks := s.tasks[s.next := Task(pid, pc)])
    case Run(t, i) =>
      var move := MoveOf(s, stale, t, i);
      s.(world := move.world, tasks := s.tasks[t := s.tasks[t].(pc := move.pc)])
    case Anchoring(l, x, ns, key, at) => WithDb(s, After(CreateAnchor(s.world.db, l, x, ns, key, at), s.world.db))
    case Cloning(x, y, ns, key, at) => WithDb(s, After(CloneAnchor(s.world.db, x, y, ns, key, at), s.world.db))
    case ReleasingAnchor(x) => WithDb(s, After(ReleaseAnchor(s.world.db, x, s.now), s.world.db))
    case ReleasingLease(l) => WithDb(s, After(ReleaseLease(s.world.db, l), s.world.db))
    case Corrupt(d, found) =>
      s.(world := s.world.(blobs := if found.Some? then s.world.blobs[d := found.value] else s.world.blobs - {d}))
  }

  /** Ids are drawn from a counter that every action advances, so a drawn id was never seen before. */
  function Apply(s: State, stale: Time, a: Action): State
    requires Enabled(s, a)
  {
    Effect(s, stale, a).(next := s.next + 2)
  }

  // ----- Runs -----

  /** A finite run: `states[n + 1]` follows from `states[n]` by `actions[n]`. */
  datatype Trace = Trace(states: seq<State>, actions: seq<Action>)

  ghost predicate IsRun(run: Trace, stale: Time) {
    && |run.states| == |run.actions| + 1
    && run.states[0] == Start
    && forall n :: 0 <= n < |run.actions| ==>
         Enabled(run.states[n], run.actions[n])
         && run.states[n + 1] == Apply(run.states[n], stale, run.actions[n])
  }
}
