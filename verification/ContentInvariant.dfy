/** What every reachable state of the protocol satisfies, with no hypothesis on the schedule:
    the row invariant, fresh identities, and the link between a token and what it was drawn for. */
module ContentInvariant {
  import opened Collections
  import opened ContentDatabase
  import opened ContentRows
  import opened ContentProtocol

  /** The claim or repair a task is carrying out: which content, under which token, from which stage. */
  function Ticket(t: TaskId, pc: PC): Option<Found> {
    match pc
    case Holding(_, h) => Some(Found(h.content, h.token, t))
    case Judging(f, _, _) => Some(f)
    case Repairing(_, f) => Some(f)
    case _ => None
  }

  /** While the row still carries the ticket's token, it is the row the ticket was drawn for. */
  predicate TicketOk(db: Db, next: int, f: Found) {
    var d := f.content.digest;
    && f.token < next
    && f.temp < next
    && (PublishingUnder(db, d, f.token) ==>
          && db.revisions[d].byteLength == f.content.byteLength
          && (d in db.publications ==> db.publications[d].temp == f.temp))
  }

  predicate TicketsOk(db: Db, next: int, t: TaskId, pc: PC) {
    Ticket(t, pc).Some? ==> TicketOk(db, next, Ticket(t, pc).value)
  }

  ghost predicate IdsUsed(w: World, next: int) {
    && (forall d :: d in w.db.revisions && w.db.revisions[d].owner.Some? ==> w.db.revisions[d].owner.value.token < next)
    && (forall d :: d in w.db.publications ==> w.db.publications[d].temp < next)
    && (forall k :: k in w.db.staging ==> k < next)
    && (forall k :: k in w.staged ==> k < next)
  }

  ghost predicate WorldOk(w: World, next: int) {
    RowsOk(w.db) && IdsUsed(w, next)
  }

  ghost predicate Base(s: State) {
    && WorldOk(s.world, s.next)
    && (forall t :: t in s.tasks ==> t < s.next && TicketsOk(s.world.db, s.next, t, s.tasks[t].pc))
  }

  // ----- No old token gains a row -----

  /** Rows under a token below `next` are the same rows, with the same journal entry, as before. */
  ghost predicate TokensFade(db: Db, db': Db, next: int) {
    forall d, k :: k < next && PublishingUnder(db', d, k) ==>
      && PublishingUnder(db, d, k)
      && db'.revisions[d].byteLength == db.revisions[d].byteLength
      && (d in db'.publications ==> d in db.publications && db'.publications[d].temp == db.publications[d].temp)
  }

  /** What a change of tables and files owes to the tasks that do not move. */
  ghost predicate WorldStep(w: World, w': World, next: int) {
    && Step(w.db, w'.db)
    && TokensFade(w.db, w'.db, next)
    && IdsUsed(w', next + 2)
  }

  lemma TicketsSurvive(w: World, w': World, next: int, t: TaskId, pc: PC)
    requires TokensFade(w.db, w'.db, next) && TicketsOk(w.db, next, t, pc)
    ensures TicketsOk(w'.db, next + 2, t, pc)
  {
  }

  /** Steps on files: only `extra` may be a new stage. */
  lemma FilesWorld(w: World, w': World, next: int, extra: StageId)
    requires WorldOk(w, next) && w'.db == w.db
    requires w'.staged.Keys <= w.staged.Keys + {extra} && extra < next
    ensures WorldStep(w, w', next)
  {
  }

  // ----- One lemma per transaction -----

  lemma FadingDb(w: World, db': Db, next: int)
    requires WorldOk(w, next) && Step(w.db, db')
    requires forall d :: d in db'.revisions && db'.revisions[d].state.Publishing? ==>
               d in w.db.revisions && db'.revisions[d] == w.db.revisions[d]
    requires forall d :: d in db'.publications ==> d in w.db.publications && db'.publications[d] == w.db.publications[d]
    requires forall k :: k in db'.staging ==> k < next + 2
    ensures WorldStep(w, w.(db := db'), next)
  {
    forall d | d in db'.revisions && db'.revisions[d].owner.Some?
      ensures db'.revisions[d].owner.value.token < next + 2
    {
      assert db'.revisions[d].state.Publishing?;
    }
  }

  lemma ClaimWorld(w: World, next: int, content: Content, stage: StageId, stageToken: Token, pid: Pid, now: Time)
    requires WorldOk(w, next)
    ensures var db' := After(ClaimPublication(w.db, content, stage, stageToken, pid, next, now), w.db);
            WorldStep(w, w.(db := db'), next)
  {
    ClaimSteps(w.db, content, stage, stageToken, pid, next, now);
    hide RowsOk, Step;
    var txn := ClaimPublication(w.db, content, stage, stageToken, pid, next, now);
    if txn.Commit? && txn.value.Owned? {
      assert stage < next;
      assert IdsUsed(w.(db := txn.db), next + 2);
    } else {
      assert After(txn, w.db) == w.db;
    }
  }

  lemma AdoptWorld(w: World, next: int, digest: Digest, expected: Token, pid: Pid, now: Time)
    requires WorldOk(w, next)
    ensures var db' := After(AdoptRepair(w.db, digest, expected, pid, next, now), w.db);
            WorldStep(w, w.(db := db'), next)
  {
    AdoptSteps(w.db, digest, expected, pid, next, now);
    hide RowsOk, Step;
  }

  lemma SettleOwnedWorld(w: World, next: int, content: Content, token: Token, lease: LeaseId, expiresAt: Time, now: Time)
    requires WorldOk(w, next)
    requires PublishingUnder(w.db, content.digest, token) ==> w.db.revisions[content.digest].byteLength == content.byteLength
    ensures WorldStep(w, w.(db := After(SettleOwned(w.db, content, token, lease, expiresAt, now), w.db)), next)
  {
    SettleOwnedSteps(w.db, content, token, lease, expiresAt, now);
    FadingDb(w, After(SettleOwned(w.db, content, token, lease, expiresAt, now), w.db), next);
  }

  lemma SettleRepairedWorld(w: World, next: int, digest: Digest, token: Token, now: Time)
    requires WorldOk(w, next)
    ensures WorldStep(w, w.(db := SettleRepaired(w.db, digest, token, now)), next)
  {
    SettleRepairedSteps(w.db, digest, token, now);
    FadingDb(w, SettleRepaired(w.db, digest, token, now), next);
  }

  lemma DeletionWorlds(w: World, next: int, digest: Digest, token: Token)
    requires WorldOk(w, next)
    ensures WorldStep(w, w.(db := After(FinishDeletion(w.db, digest), w.db)), next)
    ensures WorldStep(w, w.(db := After(DropPublication(w.db, digest, token), w.db)), next)
  {
    FinishDeletionSteps(w.db, digest);
    DropSteps(w.db, digest, token);
    hide RowsOk, Step;
    FadingDb(w, FinishDeletion(w.db, digest).db, next);
    FadingDb(w, DropPublication(w.db, digest, token).db, next);
  }

  lemma QuarantineWorld(w: World, next: int, digest: Digest, now: Time)
    requires WorldOk(w, next)
    ensures WorldStep(w, w.(db := Quarantine(w.db, digest, now)), next)
  {
    QuarantineSteps(w.db, digest, now);
    FadingDb(w, Quarantine(w.db, digest, now), next);
  }

  lemma MarkWorld(w: World, next: int, now: Time)
    requires WorldOk(w, next)
    ensures WorldStep(w, w.(db := MarkGarbage(w.db, now).db), next)
  {
    MarkSteps(w.db, now);
    hide RowsOk, Step;
    FadingDb(w, MarkGarbage(w.db, now).db, next);
  }

  /** Bodies that leave revisions and publications as they are. */
  lemma OtherTablesWorld(w: World, next: int, db': Db)
    requires WorldOk(w, next) && Step(w.db, db')
    requires db'.revisions == w.db.revisions && db'.publications == w.db.publications && db'.staging == w.db.staging
    ensures WorldStep(w, w.(db := db'), next)
  {
    hide RowsOk, Step;
    FadingDb(w, db', next);
  }

  lemma StagingWorld(w: World, next: int, db': Db)
    requires WorldOk(w, next)
    requires db' == w.db.(staging := db'.staging) && db'.staging.Keys <= w.db.staging.Keys + {next}
    ensures WorldStep(w, w.(db := db'), next)
  {
    StageSteps(w.db, db'.staging);
    hide RowsOk, Step;
    FadingDb(w, db', next);
  }

  // ----- One lemma per phase -----

  ghost predicate MoveBase(w: World, next: int, t: TaskId, move: Move) {
    && WorldStep(w, move.world, next)
    && TicketsOk(move.world.db, next + 2, t, move.pc)
  }

  lemma ClaimBase(w: World, now: Time, next: int, t: TaskId, pid: Pid, k: Token, at: AdmitPC, i: Input)
    requires WorldOk(w, next) && t < next && at.Claiming?
    ensures MoveBase(w, next, t, AdmitMove(w, now, next, t, pid, k, at, i))
  {
    hide WorldOk, WorldStep;
    FilesWorld(w, w, next, t);
    ClaimWorld(w, next, at.written, t, k, pid, now);
  }

  lemma StagingBase(w: World, now: Time, next: int, t: TaskId, pid: Pid, k: Token)
    requires WorldOk(w, next) && t < next
    ensures WorldStep(w, w.(db := After(TouchStage(w.db, t, pid, k, now), w.db)), next)
    ensures WorldStep(w, w.(db := ForgetStage(w.db, t, k)), next)
  {
    StagingWorld(w, next, After(TouchStage(w.db, t, pid, k, now), w.db));
    StagingWorld(w, next, ForgetStage(w.db, t, k));
  }

  lemma FileBase(w: World, next: int, t: TaskId, content: Content)
    requires WorldOk(w, next) && t < next
    ensures WorldStep(w, w, next)
    ensures WorldStep(w, w.(staged := w.staged[t := content]), next)
    ensures WorldStep(w, w.(staged := w.staged - {t}), next)
  {
    FilesWorld(w, w, next, t);
    FilesWorld(w, w.(staged := w.staged[t := content]), next, t);
    FilesWorld(w, w.(staged := w.staged - {t}), next, t);
  }

  lemma LeaseBase(w: World, now: Time, next: int, lease: LeaseId, c: Content, expiresAt: Time)
    requires WorldOk(w, next)
    ensures WorldStep(w, w.(db := After(InsertLease(w.db, lease, c, expiresAt, now), w.db)), next)
  {
    InsertLeaseSteps(w.db, lease, c, expiresAt, now);
    OtherTablesWorld(w, next, After(InsertLease(w.db, lease, c, expiresAt, now), w.db));
  }

  lemma AdmitBase(w: World, now: Time, next: int, t: TaskId, pid: Pid, k: Token, at: AdmitPC, i: Input)
    requires WorldOk(w, next) && t < next && !at.Claiming?
    ensures MoveBase(w, next, t, AdmitMove(w, now, next, t, pid, k, at, i))
  {
    hide WorldOk, WorldStep, ForgetStage;
    FileBase(w, next, t, i.content);
    StagingBase(w, now, next, t, pid, k);
    if at.Leasing? {
      LeaseBase(w, now, next, at.grant.lease, at.written, at.grant.expiresAt);
    }
  }

  lemma HoldBase(w: World, now: Time, next: int, t: TaskId, at: HeldStep, h: Held)
    requires WorldOk(w, next) && t < next && TicketOk(w.db, next, Found(h.content, h.token, t))
    ensures MoveBase(w, next, t, HoldMove(w, now, t, at, h))
  {
    hide WorldOk, WorldStep;
    FilesWorld(w, w, next, t);
    if at.Settle? {
      SettleOwnedWorld(w, next, h.content, h.token, h.grant.lease, h.grant.expiresAt, now);
    } else {
      FilesWorld(w, HoldMove(w, now, t, at, h).world, next, t);
    }
  }

  lemma VerifyBase(w: World, now: Time, next: int, t: TaskId, at: CheckStep, c: Content, caller: Caller)
    requires WorldOk(w, next) && t < next
    ensures MoveBase(w, next, t, VerifyMove(w, now, at, c, caller))
  {
    hide WorldOk, WorldStep;
    if at.QuarantineRow? {
      QuarantineWorld(w, next, c.digest, now);
    } else {
      FilesWorld(w, VerifyMove(w, now, at, c, caller).world, next, t);
    }
  }

  lemma AdoptBase(w: World, now: Time, next: int, t: TaskId, pid: Pid, f: Found)
    requires WorldOk(w, next) && t < next && TicketOk(w.db, next, f)
    ensures MoveBase(w, next, t, RepairMove(w, now, next, pid, Adopt, f))
  {
    hide WorldOk, WorldStep;
    AdoptWorld(w, next, f.content.digest, f.token, pid, now);
    FilesWorld(w, w, next, t);
  }

  lemma RepairBase(w: World, now: Time, next: int, t: TaskId, pid: Pid, at: RepairStep, f: Found)
    requires WorldOk(w, next) && t < next && TicketOk(w.db, next, f) && !at.Adopt?
    ensures MoveBase(w, next, t, RepairMove(w, now, next, pid, at, f))
  {
    hide WorldOk, WorldStep;
    if at.SettleRow? {
      SettleRepairedWorld(w, next, f.content.digest, f.token, now);
    } else if at.DropRow? {
      DeletionWorlds(w, next, f.content.digest, f.token);
    } else {
      FilesWorld(w, RepairMove(w, now, next, pid, at, f).world, next, t);
    }
  }

  lemma SweepBase(w: World, alive: set<Pid>, next: int, t: TaskId, at: SweepStep, stage: StageId, owner: Pid, k: Token)
    requires WorldOk(w, next) && t < next
    ensures MoveBase(w, next, t, SweepMove(w, alive, at, stage, owner, k))
  {
    hide WorldOk, WorldStep;
    if at.SweepRow? {
      StagingWorld(w, next, ForgetStageOf(w.db, stage, owner, k));
    } else {
      FilesWorld(w, SweepMove(w, alive, at, stage, owner, k).world, next, t);
    }
  }

  lemma CollectBase(w: World, next: int, t: TaskId, at: CollectPC, i: Input)
    requires WorldOk(w, next) && t < next
    ensures MoveBase(w, next, t, CollectMove(w, at, i))
  {
    hide WorldOk, WorldStep;
    match at {
      case Marking(when) => MarkWorld(w, next, when);
      case Finishing(pending) => FilesWorld(w, CollectMove(w, at, i).world, next, t);
      case FinishingRow(d, pending) => DeletionWorlds(w, next, d, 0);
    }
  }

  lemma RunBase(s: State, stale: Time, t: TaskId, i: Input)
    requires Base(s) && t in s.tasks
    ensures MoveBase(s.world, s.next, t, MoveOf(s, stale, t, i))
  {
    var w, pid, pc := s.world, s.tasks[t].pid, s.tasks[t].pc;
    assert t < s.next && TicketsOk(w.db, s.next, t, pc) && WorldOk(w, s.next);
    hide Base, RowsOk, IdsUsed, WorldOk, MoveBase, AdmitMove, HoldMove, VerifyMove, RepairMove, SweepMove, CollectMove;
    if Throws(pc, i) {
      ThrownKeepsTicket(w.db, s.next, t, pc);
      IdleBase(w, s.next, t, Move(w, Thrown(pc)));
      return;
    }
    match pc
    case Admitting(k, at) =>
      if at.Claiming? { ClaimBase(w, s.now, s.next, t, pid, k, at, i); } else { AdmitBase(w, s.now, s.next, t, pid, k, at, i); }
    case Holding(at, h) => HoldBase(w, s.now, s.next, t, at, h);
    case Verifying(at, c, caller) => VerifyBase(w, s.now, s.next, t, at, c, caller);
    case Repairing(at, f) =>
      if at.Adopt? { AdoptBase(w, s.now, s.next, t, pid, f); } else { RepairBase(w, s.now, s.next, t, pid, at, f); }
    case Sweeping(at, stage, owner, k) => SweepBase(w, s.alive, s.next, t, at, stage, owner, k);
    case Collecting(at) => CollectBase(w, s.next, t, at, i);
    case _ => IdleBase(w, s.next, t, MoveOf(s, stale, t, i));
  }

  lemma ThrownKeepsTicket(db: Db, next: int, t: TaskId, pc: PC)
    requires TicketsOk(db, next, t, pc) && !IsDone(pc)
    ensures TicketsOk(db, next, t, Thrown(pc))
  {
  }

  lemma IdleBase(w: World, next: int, t: TaskId, move: Move)
    requires WorldOk(w, next) && t < next && move.world == w && TicketsOk(w.db, next, t, move.pc)
    ensures MoveBase(w, next, t, move)
  {
    FilesWorld(w, w, next, t);
  }

  lemma PinActionWorld(s: State, stale: Time, a: Action)
    requires WorldOk(s.world, s.next) && Enabled(s, a)
    requires a.Anchoring? || a.Cloning? || a.ReleasingAnchor? || a.ReleasingLease?
    ensures WorldStep(s.world, Apply(s, stale, a).world, s.next)
  {
    var w := s.world;
    PinTables(w.db, s.now, a);
    PinWorld(s, stale, a);
    hide RowsOk, WorldStep, Step, Apply, AfterPin, IdsUsed;
    OtherTablesWorld(w, s.next, AfterPin(w.db, s.now, a));
  }

  lemma PinWorld(s: State, stale: Time, a: Action)
    requires Enabled(s, a) && (a.Anchoring? || a.Cloning? || a.ReleasingAnchor? || a.ReleasingLease?)
    ensures Apply(s, stale, a).world == s.world.(db := AfterPin(s.world.db, s.now, a))
  {
    hide CreateAnchor, CloneAnchor, ReleaseAnchor, ReleaseLease, MoveOf;
  }

  function AfterPin(db: Db, now: Time, a: Action): Db {
    match a
    case Anchoring(l, x, ns, key, at) => After(CreateAnchor(db, l, x, ns, key, at), db)
    case Cloning(x, y, ns, key, at) => After(CloneAnchor(db, x, y, ns, key, at), db)
    case ReleasingAnchor(x) => After(ReleaseAnchor(db, x, now), db)
    case ReleasingLease(l) => After(ReleaseLease(db, l), db)
    case _ => db
  }

  lemma PinTables(db: Db, now: Time, a: Action)
    requires RowsOk(db) && (a.Anchoring? || a.Cloning? || a.ReleasingAnchor? || a.ReleasingLease?)
    ensures Step(db, AfterPin(db, now, a))
    ensures var db' := AfterPin(db, now, a);
      db'.revisions == db.revisions && db'.publications == db.publications && db'.staging == db.staging
  {
    hide RowsOk, Step, CoordinateTaken, Available;
    match a
    case Anchoring(l, x, ns, key, at) => CreateAnchorSteps(db, l, x, ns, key, at);
    case Cloning(x, y, ns, key, at) => CloneAnchorSteps(db, x, y, ns, key, at);
    case ReleasingAnchor(x) => ReleaseAnchorSteps(db, x, now);
    case ReleasingLease(l) => ReleaseLeaseSteps(db, l);
  }

  lemma BeginBase(w: World, now: Time, next: int, pid: Pid)
    requires WorldOk(w, next)
    ensures WorldStep(w, w.(db := After(BeginStage(w.db, next, pid, next + 1, now), w.db)), next)
  {
    StagingWorld(w, next, After(BeginStage(w.db, next, pid, next + 1, now), w.db));
  }

  lemma AdmitActionWorld(s: State, stale: Time, a: Action)
    requires WorldOk(s.world, s.next) && Enabled(s, a) && a.Admit?
    ensures WorldStep(s.world, Apply(s, stale, a).world, s.next)
  {
    hide WorldOk, WorldStep, MoveOf, BeginStage;
    BeginBase(s.world, s.now, s.next, a.pid);
  }

  lemma FileActionWorld(s: State, stale: Time, a: Action)
    requires WorldOk(s.world, s.next) && Enabled(s, a)
    requires a.Boot? || a.Crash? || a.Tick? || a.Spawn? || a.Corrupt?
    ensures WorldStep(s.world, Apply(s, stale, a).world, s.next)
  {
    hide MoveOf, MaySpawn;
    FilesWorld(s.world, Apply(s, stale, a).world, s.next, s.next - 1);
  }

  /** The world before and after any action. */
  lemma ActionWorld(s: State, stale: Time, a: Action)
    requires Base(s) && Enabled(s, a)
    ensures WorldStep(s.world, Apply(s, stale, a).world, s.next)
  {
    hide WorldOk, WorldStep, MoveOf;
    if a.Run? { RunBase(s, stale, a.task, a.input); }
    if a.Anchoring? || a.Cloning? || a.ReleasingAnchor? || a.ReleasingLease? {
      PinActionWorld(s, stale, a);
    } else if a.Admit? {
      AdmitActionWorld(s, stale, a);
    } else if !a.Run? {
      FileActionWorld(s, stale, a);
    }
  }

  lemma TasksSurvive(s: State, s': State, moved: TaskId)
    requires Base(s) && TokensFade(s.world.db, s'.world.db, s.next)
    requires s'.next == s.next + 2
    requires forall t :: t in s'.tasks && t != moved ==> t in s.tasks && s'.tasks[t] == s.tasks[t]
    ensures forall t :: t in s'.tasks && t != moved ==> t < s'.next && TicketsOk(s'.world.db, s'.next, t, s'.tasks[t].pc)
  {
    hide RowsOk, IdsUsed;
    forall t | t in s'.tasks && t != moved
      ensures t < s'.next && TicketsOk(s'.world.db, s'.next, t, s'.tasks[t].pc)
    {
      TicketsSurvive(s.world, s'.world, s.next, t, s.tasks[t].pc);
    }
  }

  /** The base invariant survives every action, whatever the schedule. */
  lemma BaseStep(s: State, stale: Time, a: Action)
    requires Base(s) && Enabled(s, a)
    ensures Base(Apply(s, stale, a))
  {
    ActionWorld(s, stale, a);
    var s' := Apply(s, stale, a);
    hide RowsOk;
    if a.Run? {
      RunBase(s, stale, a.task, a.input);
      TasksSurvive(s, s', a.task);
    } else {
      TasksSurvive(s, s', s.next);
    }
  }
}
