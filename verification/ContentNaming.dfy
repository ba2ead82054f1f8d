/** The staging directory and its two journals: every staged file is named by exactly one row, so a
    crash at any step leaves nothing that reopening cannot find. */
module ContentNaming {
  import opened Collections
  import opened ContentDatabase
  import opened ContentRows
  import opened ContentProtocol
  import opened ContentInvariant
  import opened ContentSafety

  // ----- Hypotheses -----

  /** A repairer that has adopted the row it repairs. */
  predicate IsRepairer(pc: PC) {
    pc.Repairing? && !pc.repair.Adopt?
  }

  /** H4: a live repairer is not itself overtaken. */
  ghost predicate RepairersKept(s: State, a: Action) {
    a.Run? && a.task in s.tasks && s.tasks[a.task].pc.Repairing? && s.tasks[a.task].pc.repair.Adopt? ==>
      var f := s.tasks[a.task].pc.found;
      forall u :: u in s.tasks && IsRepairer(s.tasks[u].pc) ==>
        s.tasks[u].pc.found.content.digest != f.content.digest || s.tasks[u].pc.found.token != f.token
  }

  predicate QuarantineOrphans(w: World, d: Digest) {
    d in w.db.publications && w.db.publications[d].temp in w.staged
  }

  /** H5: no quarantine lands on a publication whose staged file is still in place. */
  predicate NoOrphans(s: State, a: Action) {
    a.Run? && a.task in s.tasks && s.tasks[a.task].pc.Verifying? && s.tasks[a.task].pc.check.QuarantineRow? ==>
      !QuarantineOrphans(s.world, s.tasks[a.task].pc.content.digest)
  }

  // ----- The invariant -----

  ghost predicate Journalled(db: Db, k: StageId) {
    exists d :: d in db.publications && db.publications[d].temp == k
  }

  /** Every staged file has its row. */
  ghost predicate StagesNamed(w: World) {
    forall k :: k in w.staged ==> k in w.db.staging || Journalled(w.db, k)
  }

  /** No stage has two rows. */
  ghost predicate NamedOnce(db: Db) {
    && (forall d :: d in db.publications ==> db.publications[d].temp !in db.staging)
    && (forall d, e :: d in db.publications && e in db.publications && d != e ==>
          db.publications[d].temp != db.publications[e].temp)
  }

  /** Every publishing row has its journal row. */
  ghost predicate JournalsKept(db: Db) {
    forall d :: d in db.revisions && db.revisions[d].state.Publishing? ==> d in db.publications
  }

  ghost predicate Tidy(w: World) {
    StagesNamed(w) && NamedOnce(w.db) && JournalsKept(w.db)
  }

  /** A task that holds a token nobody else draws: a claimant, or a repairer after adoption. */
  predicate IsOwner(pc: PC) {
    pc.Holding? || IsRepairer(pc)
  }

  predicate Kept(db: Db, d: Digest, k: Token) {
    PublishingUnder(db, d, k) || (d in db.revisions && db.revisions[d].state.Quarantined?)
  }

  /** The stage a task knows to be gone from disk. */
  function Gone(t: TaskId, pc: PC): set<StageId> {
    match pc
    case Admitting(_, at) => if at.Opening? || at.CleaningRow? || at.Forgetting? then {t} else {}
    case Holding(at, _) => if at.Settle? then {t} else {}
    case Repairing(at, f) => if at.SettleRow? || at.DropRow? then {f.temp} else {}
    case Sweeping(at, stage, _, _) => if at.SweepRow? then {stage} else {}
    case _ => {}
  }

  predicate TaskNamed(w: World, t: TaskId, pc: PC) {
    && (IsWriter(pc) ==> t in w.db.staging)
    && Gone(t, pc) !! w.staged.Keys
    && (IsRepairer(pc) ==> Kept(w.db, pc.found.content.digest, pc.found.token))
  }

  /** Who may still write a stage, and who may sweep it. */
  ghost predicate SweepersApart(s: State) {
    && (forall t :: t in s.tasks ==> s.tasks[t].pid in s.alive)
    && (forall t :: t in s.tasks && t in s.world.db.staging ==> s.world.db.staging[t].pid == s.tasks[t].pid)
    && (forall u :: u in s.tasks && s.tasks[u].pc.Sweeping? ==>
          var pc := s.tasks[u].pc;
          && pc.stage < s.next
          && (pc.stage in s.tasks ==> pc.sweep.JudgeOwner? && s.tasks[pc.stage].pid == pc.ownerPid))
  }

  ghost predicate OwnersApart(s: State) {
    forall t, u :: t in s.tasks && u in s.tasks && t != u && IsOwner(s.tasks[t].pc) && IsOwner(s.tasks[u].pc) ==>
      Ticket(t, s.tasks[t].pc).value.token != Ticket(u, s.tasks[u].pc).value.token
  }

  ghost predicate Named(s: State) {
    && Base(s) && WritersAlone(s) && SweepersApart(s) && OwnersApart(s) && Tidy(s.world)
    && (forall t :: t in s.tasks ==> TaskNamed(s.world, t, s.tasks[t].pc))
  }

  // ----- Identities: no hypothesis needed -----

  lemma OwnersStep(s: State, stale: Time, a: Action)
    requires Base(s) && OwnersApart(s) && Enabled(s, a)
    ensures OwnersApart(Apply(s, stale, a))
  {
    var s' := Apply(s, stale, a);
    forall u | u in s.tasks ensures TicketsOk(s.world.db, s.next, u, s.tasks[u].pc) {}
    hide Base, MaySpawn;
    if a.Run? {
      RunOwners(s, stale, a.task, a.input);
      hide MoveOf;
      assert forall u :: u in s'.tasks && u != a.task ==> s'.tasks[u] == s.tasks[u];
    } else if a.Spawn? {
      SpawnOwners(s, a.pc);
      hide MoveOf;
    } else {
      hide MoveOf;
    }
  }

  lemma SpawnOwners(s: State, pc: PC)
    requires MaySpawn(s, pc)
    ensures !IsOwner(pc) && !IsWriter(pc)
  {
  }

  /** A step draws the unused token, keeps its own, or lets go. */
  lemma RunOwners(s: State, stale: Time, t: TaskId, i: Input)
    requires t in s.tasks
    ensures var pc, pc' := s.tasks[t].pc, MoveOf(s, stale, t, i).pc;
            IsOwner(pc') ==>
              Ticket(t, pc').value.token == s.next
              || (IsOwner(pc) && Ticket(t, pc').value.token == Ticket(t, pc).value.token)
  {
    hide TouchStage, ClaimPublication, InsertLease, ForgetStage, SettleOwned, Quarantine, SettleRepaired,
         DropPublication, ForgetStageOf, FinishDeletion, Available, MarkGarbage, AdoptRepair;
  }

  /** No step but the beginning of an admission adds a staging row or changes whose it is. */
  ghost predicate StagingShrinks(db: Db, db': Db) {
    forall k :: k in db'.staging ==> k in db.staging && db'.staging[k].pid == db.staging[k].pid
  }

  lemma RunSweeps(s: State, stale: Time, t: TaskId, i: Input)
    requires t in s.tasks
    ensures StagingShrinks(s.world.db, MoveOf(s, stale, t, i).world.db)
    ensures var pc, pc' := s.tasks[t].pc, MoveOf(s, stale, t, i).pc;
            pc'.Sweeping? ==>
              && pc.Sweeping? && pc'.stage == pc.stage && pc'.ownerPid == pc.ownerPid
              && !pc'.sweep.JudgeOwner?
              && (pc.sweep.JudgeOwner? ==> pc.ownerPid !in s.alive)
  {
    var w, pid, pc := s.world, s.tasks[t].pid, s.tasks[t].pc;
    hide AdmitMove, HoldMove, VerifyMove, RepairMove, CollectMove;
    if Throws(pc, i) { return; }
    match pc
    case Admitting(k, at) => AdmitSweeps(w, s.now, s.next, t, pid, k, at, i);
    case Holding(at, h) => HoldSweeps(w, s.now, t, at, h);
    case Verifying(at, c, caller) => VerifySweeps(w, s.now, at, c, caller);
    case Repairing(at, f) => RepairSweeps(w, s.now, s.next, pid, at, f);
    case Collecting(at) => CollectSweeps(w, at, i);
    case _ =>
  }

  lemma AdmitSweeps(w: World, now: Time, next: int, t: TaskId, pid: Pid, k: Token, at: AdmitPC, i: Input)
    ensures StagingShrinks(w.db, AdmitMove(w, now, next, t, pid, k, at, i).world.db)
    ensures !AdmitMove(w, now, next, t, pid, k, at, i).pc.Sweeping?
  {
    hide Available;
  }

  lemma HoldSweeps(w: World, now: Time, t: TaskId, at: HeldStep, h: Held)
    ensures StagingShrinks(w.db, HoldMove(w, now, t, at, h).world.db)
    ensures !HoldMove(w, now, t, at, h).pc.Sweeping?
  {
    hide PublishingUnder;
  }

  lemma VerifySweeps(w: World, now: Time, at: CheckStep, c: Content, caller: Caller)
    ensures StagingShrinks(w.db, VerifyMove(w, now, at, c, caller).world.db)
    ensures !VerifyMove(w, now, at, c, caller).pc.Sweeping?
  {
    hide Available;
  }

  lemma CollectSweeps(w: World, at: CollectPC, i: Input)
    ensures StagingShrinks(w.db, CollectMove(w, at, i).world.db)
    ensures !CollectMove(w, at, i).pc.Sweeping?
  {
    hide Collectable, Anchored;
  }

  lemma RepairSweeps(w: World, now: Time, next: int, pid: Pid, at: RepairStep, f: Found)
    ensures StagingShrinks(w.db, RepairMove(w, now, next, pid, at, f).world.db)
    ensures !RepairMove(w, now, next, pid, at, f).pc.Sweeping?
  {
    hide PublishingUnder, Anchored;
  }

  lemma RunSweepers(s: State, stale: Time, t: TaskId, i: Input)
    requires Base(s) && SweepersApart(s) && Enabled(s, Run(t, i))
    ensures SweepersApart(Apply(s, stale, Run(t, i)))
  {
    RunSweeps(s, stale, t, i);
    hide Base, MoveOf, MaySpawn;
  }

  lemma OtherSweepers(s: State, stale: Time, a: Action)
    requires Base(s) && SweepersApart(s) && Enabled(s, a) && !a.Run? && !a.Spawn?
    ensures SweepersApart(Apply(s, stale, a))
  {
    assert IdsUsed(s.world, s.next);
    forall u | u in s.tasks ensures u < s.next {}
    hide Base, MoveOf, MaySpawn, CreateAnchor, CloneAnchor, ReleaseAnchor, ReleaseLease;
    if !a.Admit? { SameStaging(s, stale, a); }
  }

  lemma SameStaging(s: State, stale: Time, a: Action)
    requires Enabled(s, a) && !a.Run? && !a.Admit?
    ensures Apply(s, stale, a).world.db.staging == s.world.db.staging
  {
    hide MoveOf, MaySpawn, CoordinateTaken, Available;
  }

  lemma SpawnSweepers(s: State, stale: Time, a: Action)
    requires Base(s) && SweepersApart(s) && Enabled(s, a) && a.Spawn?
    ensures SweepersApart(Apply(s, stale, a))
  {
    assert IdsUsed(s.world, s.next);
    forall u | u in s.tasks ensures u < s.next {}
    hide Base, MoveOf;
  }

  lemma SweepersStep(s: State, stale: Time, a: Action)
    requires Base(s) && SweepersApart(s) && Enabled(s, a)
    ensures SweepersApart(Apply(s, stale, a))
  {
    hide Base, SweepersApart, Apply;
    if a.Run? { RunSweepers(s, stale, a.task, a.input); }
    else if a.Spawn? { SpawnSweepers(s, stale, a); }
    else { OtherSweepers(s, stale, a); }
  }

  // ----- One step on tables and files -----

  /** Which row, under which token, a step may take away: the row its own ticket names. */
  predicate Mine(t: TaskId, pc: PC, d: Digest, k: Token) {
    Ticket(t, pc).Some? && Ticket(t, pc).value.content.digest == d && Ticket(t, pc).value.token == k
  }

  ghost predicate RowsKept(db: Db, db': Db, f: Option<Found>) {
    forall d, k :: Kept(db, d, k) && !(f.Some? && f.value.content.digest == d && f.value.token == k) ==> Kept(db', d, k)
  }

  ghost predicate Untangled(w: World, w': World, t: TaskId, pc: PC) {
    && Tidy(w')
    && (forall k :: k in w'.staged ==> k in w.staged || (k == t && IsWriter(pc)))
    && (forall k :: k in w.db.staging && k !in w'.db.staging ==> k == t || (pc.Sweeping? && pc.sweep.SweepRow? && k == pc.stage))
    && RowsKept(w.db, w'.db, Ticket(t, pc))
  }

  ghost predicate Sorted(w: World, next: int) {
    WorldOk(w, next) && Tidy(w)
  }

  lemma FilesTidy(w: World, w': World, next: int, t: TaskId, pc: PC)
    requires Sorted(w, next) && w'.db == w.db
    requires forall k :: k in w'.staged ==> k in w.staged || (k == t && IsWriter(pc) && t in w.db.staging)
    ensures Untangled(w, w', t, pc)
  {
    hide WorldOk;
    forall k | k in w'.staged ensures k in w'.db.staging || Journalled(w'.db, k) {
      assert Journalled(w.db, k) ==> Journalled(w'.db, k);
    }
  }

  /** Rows and journal untouched; a staging row may go once its file is gone. */
  lemma QuietTidy(w: World, db': Db, next: int, t: TaskId, pc: PC)
    requires Sorted(w, next)
    requires db'.revisions == w.db.revisions && db'.publications == w.db.publications
    requires forall k :: k in w.db.staging && k !in db'.staging ==>
               k !in w.staged && (k == t || (pc.Sweeping? && pc.sweep.SweepRow? && k == pc.stage))
    requires db'.staging.Keys <= w.db.staging.Keys
    ensures Untangled(w, w.(db := db'), t, pc)
  {
    hide WorldOk;
    forall k | k in w.staged ensures k in db'.staging || Journalled(db', k) {
      assert Journalled(w.db, k) ==> Journalled(db', k);
    }
    assert forall d, k :: Kept(w.db, d, k) ==> Kept(db', d, k);
  }

  lemma ClaimTidy(w: World, next: int, t: TaskId, pc: PC, c: Content, stageToken: Token, pid: Pid, now: Time)
    requires Sorted(w, next)
    ensures Untangled(w, w.(db := After(ClaimPublication(w.db, c, t, stageToken, pid, next, now), w.db)), t, pc)
  {
    hide WorldOk;
    var txn := ClaimPublication(w.db, c, t, stageToken, pid, next, now);
    var db' := After(txn, w.db);
    if txn.Commit? && txn.value.Owned? {
      forall k | k in w.staged ensures k in db'.staging || Journalled(db', k) {
        if Journalled(w.db, k) {
          var d :| d in w.db.publications && w.db.publications[d].temp == k;
          assert d in db'.publications && db'.publications[d].temp == k;
        } else if k == t && k !in db'.staging {
          assert c.digest in db'.publications && db'.publications[c.digest].temp == k;
        }
      }
      assert RowsKept(w.db, db', None);
    } else {
      FilesTidy(w, w, next, t, pc);
    }
  }

  lemma AdoptTidy(w: World, next: int, t: TaskId, pid: Pid, now: Time, f: Found)
    requires Sorted(w, next)
    ensures var db' := After(AdoptRepair(w.db, f.content.digest, f.token, pid, next, now), w.db);
            Untangled(w, w.(db := db'), t, Repairing(Adopt, f))
    ensures var txn := AdoptRepair(w.db, f.content.digest, f.token, pid, next, now);
            txn.Commit? && txn.value ==> Kept(txn.db, f.content.digest, next)
  {
    hide WorldOk;
    var db' := After(AdoptRepair(w.db, f.content.digest, f.token, pid, next, now), w.db);
    forall k | k in w.staged ensures k in db'.staging || Journalled(db', k) {
      if Journalled(w.db, k) {
        var d :| d in w.db.publications && w.db.publications[d].temp == k;
        assert d in db'.publications && db'.publications[d].temp == k;
      }
    }
  }

  /** Rows that stop publishing lose a journal row whose stage is already gone. */
  lemma JournalLeaves(w: World, db': Db, digest: Digest)
    requires Tidy(w)
    requires db'.publications == w.db.publications - {digest} && db'.staging == w.db.staging
    requires forall d :: d in db'.revisions && db'.revisions[d].state.Publishing? ==>
               d != digest && d in w.db.revisions && w.db.revisions[d].state.Publishing?
    requires !QuarantineOrphans(w, digest)
    ensures Tidy(w.(db := db'))
  {
    forall k | k in w.staged ensures k in db'.staging || Journalled(db', k) {
      if Journalled(w.db, k) {
        var d :| d in w.db.publications && w.db.publications[d].temp == k;
        assert d in db'.publications && db'.publications[d].temp == k;
      }
    }
  }

  lemma SettleOwnedTidy(w: World, next: int, t: TaskId, now: Time, h: Held)
    requires Sorted(w, next) && TicketOk(w.db, next, Found(h.content, h.token, t)) && t !in w.staged
    ensures var db' := After(SettleOwned(w.db, h.content, h.token, h.grant.lease, h.grant.expiresAt, now), w.db);
            Untangled(w, w.(db := db'), t, Holding(Settle, h))
  {
    var db' := After(SettleOwned(w.db, h.content, h.token, h.grant.lease, h.grant.expiresAt, now), w.db);
    hide WorldOk, Tidy;
    if SettleOwned(w.db, h.content, h.token, h.grant.lease, h.grant.expiresAt, now).Commit? {
      JournalLeaves(w, db', h.content.digest);
    }
    assert RowsKept(w.db, db', Some(Found(h.content, h.token, t)));
  }

  lemma SettleRepairedTidy(w: World, next: int, t: TaskId, now: Time, f: Found)
    requires Sorted(w, next) && TicketOk(w.db, next, f) && f.temp !in w.staged && Kept(w.db, f.content.digest, f.token)
    ensures Untangled(w, w.(db := SettleRepaired(w.db, f.content.digest, f.token, now)), t, Repairing(SettleRow, f))
  {
    var db' := SettleRepaired(w.db, f.content.digest, f.token, now);
    assert JournalsOk(w.db);
    hide WorldOk, Tidy;
    JournalLeaves(w, db', f.content.digest);
    assert RowsKept(w.db, db', Some(f));
  }

  lemma DropTidy(w: World, next: int, t: TaskId, f: Found)
    requires Sorted(w, next) && TicketOk(w.db, next, f) && f.temp !in w.staged
    ensures Untangled(w, w.(db := After(DropPublication(w.db, f.content.digest, f.token), w.db)), t, Repairing(DropRow, f))
  {
    var db' := After(DropPublication(w.db, f.content.digest, f.token), w.db);
    assert RowsOk(w.db);
    hide WorldOk, RowsOk, Tidy;
    if PublishingUnder(w.db, f.content.digest, f.token) {
      DeleteSteps(w.db, f.content.digest);
      JournalLeaves(w, db', f.content.digest);
    }
    assert RowsKept(w.db, db', Some(f));
  }

  lemma DeletionTidy(w: World, next: int, d: Digest)
    requires Sorted(w, next) && d in w.db.revisions && w.db.revisions[d].state.Deleting?
    ensures DeleteRevision(w.db, d).Commit?
    ensures Tidy(w.(db := DeleteRevision(w.db, d).db)) && RowsKept(w.db, DeleteRevision(w.db, d).db, None)
  {
    assert RowsOk(w.db) && d !in w.db.publications;
    hide WorldOk, RowsOk, Tidy, Anchored;
    DeleteSteps(w.db, d);
    JournalLeaves(w, DeleteRevision(w.db, d).db, d);
  }

  lemma FinishTidy(w: World, next: int, t: TaskId, pc: PC, d: Digest)
    requires Sorted(w, next)
    ensures Untangled(w, w.(db := After(FinishDeletion(w.db, d), w.db)), t, pc)
  {
    var db' := After(FinishDeletion(w.db, d), w.db);
    if d in w.db.revisions && w.db.revisions[d].state.Deleting? {
      DeletionTidy(w, next, d);
      hide WorldOk, Tidy, Kept, Sorted;
    } else {
      hide WorldOk, Untangled, Sorted;
      QuietTidy(w, db', next, t, pc);
    }
  }

  lemma QuarantineTidy(w: World, next: int, t: TaskId, pc: PC, d: Digest, now: Time)
    requires Sorted(w, next) && !QuarantineOrphans(w, d)
    ensures Untangled(w, w.(db := Quarantine(w.db, d, now)), t, pc)
  {
    var db' := Quarantine(w.db, d, now);
    assert JournalsOk(w.db);
    hide WorldOk, Tidy;
    JournalLeaves(w, db', d);
    assert RowsKept(w.db, db', None);
  }

  lemma MarkTidy(w: World, next: int, t: TaskId, pc: PC, now: Time)
    requires Sorted(w, next)
    ensures Untangled(w, w.(db := MarkGarbage(w.db, now).db), t, pc)
  {
    var db' := MarkGarbage(w.db, now).db;
    hide WorldOk, LeasedAfter, Anchored;
    forall k | k in w.staged ensures k in db'.staging || Journalled(db', k) {
      assert Journalled(w.db, k) ==> Journalled(db', k);
    }
    assert RowsKept(w.db, db', None);
  }

  /** Exactly when a quarantine leaves every staged file with its row. */
  lemma QuarantineNamesExactly(w: World, next: int, d: Digest, now: Time)
    requires Sorted(w, next)
    ensures StagesNamed(w.(db := Quarantine(w.db, d, now))) <==> !QuarantineOrphans(w, d)
  {
    var w' := w.(db := Quarantine(w.db, d, now));
    if QuarantineOrphans(w, d) {
      var k := w.db.publications[d].temp;
      assert k in w'.staged && k !in w'.db.staging && !Journalled(w'.db, k);
    } else {
      QuarantineTidy(w, next, 0, Ended, d, now);
    }
  }

  // ----- The steps of one task -----

  ghost predicate MoveNamed(w: World, t: TaskId, pc: PC, move: Move) {
    Untangled(w, move.world, t, pc) && TaskNamed(move.world, t, move.pc)
  }

  lemma AdmitNamed(w: World, now: Time, next: int, t: TaskId, pid: Pid, k: Token, at: AdmitPC, i: Input)
    requires Sorted(w, next) && TaskNamed(w, t, Admitting(k, at))
    ensures MoveNamed(w, t, Admitting(k, at), AdmitMove(w, now, next, t, pid, k, at, i))
  {
    hide WorldOk, Untangled, Sorted;
    var pc := Admitting(k, at);
    FilesTidy(w, w, next, t, pc);
    match at
    case Opening => FilesTidy(w, w.(staged := w.staged[t := i.content]), next, t, pc);
    case Writing => FilesTidy(w, w.(staged := w.staged[t := i.content]), next, t, pc);
    case Touching(c) => QuietTidy(w, After(TouchStage(w.db, t, pid, k, now), w.db), next, t, pc);
    case Claiming(c, g) => ClaimTidy(w, next, t, pc, c, k, pid, now);
    case Leasing(c, g) => QuietTidy(w, After(InsertLease(w.db, g.lease, c, g.expiresAt, now), w.db), next, t, pc);
    case CleaningFile(r) => FilesTidy(w, w.(staged := w.staged - {t}), next, t, pc);
    case CleaningRow(r) => QuietTidy(w, ForgetStage(w.db, t, k), next, t, pc);
    case Forgetting => QuietTidy(w, ForgetStage(w.db, t, k), next, t, pc);
    case Abandoning => FilesTidy(w, w.(staged := w.staged - {t}), next, t, pc);
  }

  lemma HoldNamed(w: World, now: Time, next: int, t: TaskId, at: HeldStep, h: Held)
    requires Sorted(w, next) && TaskNamed(w, t, Holding(at, h)) && TicketOk(w.db, next, Found(h.content, h.token, t))
    ensures MoveNamed(w, t, Holding(at, h), HoldMove(w, now, t, at, h))
  {
    hide WorldOk, Untangled, Sorted;
    FilesTidy(w, w, next, t, Holding(at, h));
    if at.Settle? {
      SettleOwnedTidy(w, next, t, now, h);
      hide SettleOwned;
    } else {
      FilesTidy(w, HoldMove(w, now, t, at, h).world, next, t, Holding(at, h));
    }
  }

  lemma VerifyNamed(w: World, now: Time, next: int, t: TaskId, at: CheckStep, c: Content, caller: Caller)
    requires Sorted(w, next) && (at.QuarantineRow? ==> !QuarantineOrphans(w, c.digest))
    ensures MoveNamed(w, t, Verifying(at, c, caller), VerifyMove(w, now, at, c, caller))
  {
    hide WorldOk, Untangled, Sorted;
    if at.QuarantineRow? {
      QuarantineTidy(w, next, t, Verifying(at, c, caller), c.digest, now);
    } else {
      FilesTidy(w, VerifyMove(w, now, at, c, caller).world, next, t, Verifying(at, c, caller));
    }
  }

  lemma RepairNamed(w: World, now: Time, next: int, t: TaskId, pid: Pid, at: RepairStep, f: Found)
    requires Sorted(w, next) && TaskNamed(w, t, Repairing(at, f)) && TicketOk(w.db, next, f)
    ensures MoveNamed(w, t, Repairing(at, f), RepairMove(w, now, next, pid, at, f))
  {
    hide WorldOk, Untangled, Sorted, AdoptRepair, SettleRepaired, DropPublication;
    FilesTidy(w, w, next, t, Repairing(at, f));
    if at.Adopt? {
      AdoptTidy(w, next, t, pid, now, f);
    } else if at.SettleRow? {
      SettleRepairedTidy(w, next, t, now, f);
    } else if at.DropRow? {
      DropTidy(w, next, t, f);
    } else {
      FilesTidy(w, RepairMove(w, now, next, pid, at, f).world, next, t, Repairing(at, f));
    }
  }

  lemma SweepNamed(w: World, alive: set<Pid>, next: int, t: TaskId, at: SweepStep, stage: StageId, owner: Pid, k: Token)
    requires Sorted(w, next) && TaskNamed(w, t, Sweeping(at, stage, owner, k))
    ensures MoveNamed(w, t, Sweeping(at, stage, owner, k), SweepMove(w, alive, at, stage, owner, k))
  {
    hide WorldOk, Untangled, Sorted;
    if at.SweepRow? {
      QuietTidy(w, ForgetStageOf(w.db, stage, owner, k), next, t, Sweeping(at, stage, owner, k));
    } else {
      FilesTidy(w, SweepMove(w, alive, at, stage, owner, k).world, next, t, Sweeping(at, stage, owner, k));
    }
  }

  lemma CollectNamed(w: World, next: int, t: TaskId, at: CollectPC, i: Input)
    requires Sorted(w, next)
    ensures MoveNamed(w, t, Collecting(at), CollectMove(w, at, i))
  {
    hide WorldOk, Untangled, Sorted;
    match at
    case Marking(when) => MarkTidy(w, next, t, Collecting(at), when); hide MarkGarbage;
    case Finishing(pending) => FilesTidy(w, CollectMove(w, at, i).world, next, t, Collecting(at));
    case FinishingRow(d, pending) => FinishTidy(w, next, t, Collecting(at), d); hide FinishDeletion;
  }

  lemma RunNamed(s: State, stale: Time, t: TaskId, i: Input)
    requires Named(s) && t in s.tasks && NoOrphans(s, Run(t, i))
    ensures MoveNamed(s.world, t, s.tasks[t].pc, MoveOf(s, stale, t, i))
  {
    var w, pid, pc := s.world, s.tasks[t].pid, s.tasks[t].pc;
    assert TicketsOk(w.db, s.next, t, pc) && TaskNamed(w, t, pc) && Sorted(w, s.next);
    hide Base, WorldOk, Sorted, Named, MoveNamed, TaskNamed;
    hide AdmitMove, HoldMove, VerifyMove, RepairMove, SweepMove, CollectMove;
    if Throws(pc, i) {
      ThrownNamed(w, s.next, t, pc);
      return;
    }
    match pc
    case Admitting(k, at) => AdmitNamed(w, s.now, s.next, t, pid, k, at, i);
    case Holding(at, h) => HoldNamed(w, s.now, s.next, t, at, h);
    case Verifying(at, c, caller) => VerifyNamed(w, s.now, s.next, t, at, c, caller);
    case Repairing(at, f) => RepairNamed(w, s.now, s.next, t, pid, at, f);
    case Sweeping(at, stage, owner, k) => SweepNamed(w, s.alive, s.next, t, at, stage, owner, k);
    case Collecting(at) => CollectNamed(w, s.next, t, at, i);
    case _ => IdleNamed(w, s.next, t, pc, MoveOf(s, stale, t, i));
  }

  lemma ThrownNamed(w: World, next: int, t: TaskId, pc: PC)
    requires Sorted(w, next) && TaskNamed(w, t, pc)
    ensures MoveNamed(w, t, pc, Move(w, Thrown(pc)))
  {
    hide WorldOk, Untangled, Sorted;
    FilesTidy(w, w, next, t, pc);
  }

  lemma IdleNamed(w: World, next: int, t: TaskId, pc: PC, move: Move)
    requires Sorted(w, next) && move.world == w
    requires (pc.Judging? && (move.pc == Ended || move.pc == Repairing(Adopt, pc.found))) || (IsDone(pc) && move.pc == pc)
    ensures MoveNamed(w, t, pc, move)
  {
    hide WorldOk, Untangled, Sorted;
    FilesTidy(w, w, next, t, pc);
  }

  // ----- One action -----

  ghost predicate ActionUntangled(s: State, stale: Time, a: Action)
    requires Enabled(s, a)
  {
    var t, pc := if a.Run? then a.task else s.next, if a.Run? then s.tasks[a.task].pc else Ended;
    Untangled(s.world, Apply(s, stale, a).world, t, pc)
  }

  lemma BeginTidy(w: World, now: Time, next: int, pid: Pid)
    requires Sorted(w, next)
    ensures Untangled(w, w.(db := After(BeginStage(w.db, next, pid, next + 1, now), w.db)), next, Ended)
  {
    var db' := After(BeginStage(w.db, next, pid, next + 1, now), w.db);
    forall k | k in w.staged ensures k in db'.staging || Journalled(db', k) {
      assert Journalled(w.db, k) ==> Journalled(db', k);
    }
    assert RowsKept(w.db, db', None);
  }

  lemma PinTidy(s: State, stale: Time, a: Action)
    requires Sorted(s.world, s.next) && Enabled(s, a)
    requires a.Anchoring? || a.Cloning? || a.ReleasingAnchor? || a.ReleasingLease?
    ensures Untangled(s.world, Apply(s, stale, a).world, s.next, Ended)
  {
    hide WorldOk, Sorted, Untangled, MoveOf, MaySpawn, CoordinateTaken;
    QuietTidy(s.world, Apply(s, stale, a).world.db, s.next, s.next, Ended);
  }

  /** Corruption is allowed here: it touches blobs only. */
  lemma ActionTidy(s: State, stale: Time, a: Action)
    requires Named(s) && Enabled(s, a) && NoOrphans(s, a)
    ensures ActionUntangled(s, stale, a)
  {
    assert Sorted(s.world, s.next);
    if a.Run? {
      RunNamed(s, stale, a.task, a.input);
    }
    hide Named, Sorted, WorldOk, Untangled, MoveOf, MaySpawn, BeginStage, TaskNamed, NoOrphans;
    if a.Anchoring? || a.Cloning? || a.ReleasingAnchor? || a.ReleasingLease? {
      PinTidy(s, stale, a);
    } else if a.Admit? {
      BeginTidy(s.world, s.now, s.next, a.pid);
    } else if !a.Run? {
      FilesTidy(s.world, Apply(s, stale, a).world, s.next, s.next, Ended);
    }
  }

  /** What a task knows about stages and rows survives the step of another. */
  lemma TaskStaysNamed(s: State, w': World, moved: TaskId, pc: PC, u: TaskId)
    requires Named(s) && u in s.tasks && u != moved && Untangled(s.world, w', moved, pc)
    requires moved in s.tasks ==> s.tasks[moved].pc == pc
    requires moved !in s.tasks ==> pc == Ended && moved == s.next
    requires pc.Repairing? && pc.repair.Adopt? && IsRepairer(s.tasks[u].pc) ==>
               s.tasks[u].pc.found.content.digest != pc.found.content.digest || s.tasks[u].pc.found.token != pc.found.token
    requires pc.Judging? ==> w' == s.world
    ensures TaskNamed(w', u, s.tasks[u].pc)
  {
    var qc := s.tasks[u].pc;
    assert TaskNamed(s.world, u, qc);
    assert u < s.next && TicketsOk(s.world.db, s.next, u, qc);
    assert WritersAlone(s) && SweepersApart(s) && OwnersApart(s);
    hide Base, Tidy, Named;
    if IsRepairer(qc) && !pc.Judging? {
      assert !Mine(moved, pc, qc.found.content.digest, qc.found.token);
    }
    assert moved in s.tasks && IsWriter(pc) && Source(u, qc).Some? ==> Source(u, qc).value.0 != moved;
    forall k | k in Gone(u, qc) ensures k !in w'.staged {}
  }

  lemma JudgingIsIdle(s: State, stale: Time, a: Action)
    requires Enabled(s, a)
    ensures a.Run? && s.tasks[a.task].pc.Judging? ==> Apply(s, stale, a).world == s.world
  {
    hide MaySpawn, CreateAnchor, CloneAnchor, ReleaseAnchor, ReleaseLease, BeginStage;
  }

  lemma OthersUnmoved(s: State, stale: Time, a: Action)
    requires Enabled(s, a)
    ensures var s', moved := Apply(s, stale, a), if a.Run? then a.task else s.next;
      forall u :: u in s'.tasks && u != moved ==> u in s.tasks && s'.tasks[u] == s.tasks[u]
    ensures a.Run? ==> a.task in s.tasks
  {
    hide MoveOf, MaySpawn, CreateAnchor, CloneAnchor, ReleaseAnchor, ReleaseLease, BeginStage;
  }

  lemma OthersStayNamed(s: State, stale: Time, a: Action)
    requires Named(s) && Enabled(s, a) && RepairersKept(s, a) && NoOrphans(s, a)
    ensures var s', moved := Apply(s, stale, a), if a.Run? then a.task else s.next;
            forall u :: u in s'.tasks && u != moved ==> TaskNamed(s'.world, u, s'.tasks[u].pc)
  {
    var s', moved := Apply(s, stale, a), if a.Run? then a.task else s.next;
    var pc := if a.Run? then s.tasks[a.task].pc else Ended;
    ActionTidy(s, stale, a);
    assert forall t :: t in s.tasks ==> t < s.next;
    hide Named, Untangled, TaskNamed, NoOrphans;
    JudgingIsIdle(s, stale, a);
    OthersUnmoved(s, stale, a);
    hide Apply, Enabled;
    forall u | u in s'.tasks && u != moved ensures TaskNamed(s'.world, u, s'.tasks[u].pc) {
      TaskStaysNamed(s, s'.world, moved, pc, u);
    }
  }

  lemma MoverStaysNamed(s: State, stale: Time, a: Action)
    requires Named(s) && Enabled(s, a) && NoOrphans(s, a)
    ensures var s', moved := Apply(s, stale, a), if a.Run? then a.task else s.next;
            moved in s'.tasks ==> TaskNamed(s'.world, moved, s'.tasks[moved].pc)
  {
    assert IdsUsed(s.world, s.next) && forall t :: t in s.tasks ==> t < s.next;
    if a.Run? {
      RunNamed(s, stale, a.task, a.input);
    }
    hide Named, MoveOf, NoOrphans;
    if !a.Spawn? {
      hide MaySpawn;
    }
  }

  lemma NamedStep(s: State, stale: Time, a: Action)
    requires Named(s) && Enabled(s, a) && RepairersKept(s, a) && NoOrphans(s, a)
    ensures Named(Apply(s, stale, a))
  {
    BaseStep(s, stale, a);
    WritersStep(s, stale, a);
    SweepersStep(s, stale, a);
    OwnersStep(s, stale, a);
    ActionTidy(s, stale, a);
    OthersStayNamed(s, stale, a);
    MoverStaysNamed(s, stale, a);
    hide Apply, Base, WritersAlone, SweepersApart, OwnersApart, TaskNamed, Tidy, RowsKept;
  }

  /** The schedules the recovery property is about: H4 and H5 at every step. */
  ghost predicate Orderly(run: Trace) {
    forall n :: 0 <= n < |run.actions| && n < |run.states| ==>
      RepairersKept(run.states[n], run.actions[n]) && NoOrphans(run.states[n], run.actions[n])
  }

  lemma {:induction false} OrderlyRunsAreNamed(run: Trace, stale: Time, n: nat)
    requires IsRun(run, stale) && Orderly(run) && n < |run.states|
    ensures Named(run.states[n])
  {
    if n == 0 {
      assert Start.tasks == map[];
    } else {
      OrderlyRunsAreNamed(run, stale, n - 1);
      NamedStep(run.states[n - 1], stale, run.actions[n - 1]);
    }
  }

  /** At every instant of every orderly run each file in staging is named by exactly one row: either its
      own staging row or the journal row of exactly one publication. */
  lemma StagedFilesAreNamedOnce(run: Trace, stale: Time, n: nat, k: StageId)
    requires IsRun(run, stale) && Orderly(run) && n < |run.states| && k in run.states[n].world.staged
    ensures var db := run.states[n].world.db;
            || (k in db.staging && forall d :: d in db.publications ==> db.publications[d].temp != k)
            || (k !in db.staging
                && exists d :: d in db.publications && db.publications[d].temp == k
                     && forall e :: e in db.publications && e != d ==> db.publications[e].temp != k)
  {
    OrderlyRunsAreNamed(run, stale, n);
    var db := run.states[n].world.db;
    assert StagesNamed(run.states[n].world) && NamedOnce(db);
    hide Named, IsRun, Orderly;
    if k !in db.staging {
      var d :| d in db.publications && db.publications[d].temp == k;
      assert forall e :: e in db.publications && e != d ==> db.publications[e].temp != k;
    }
  }
}
