/** Pin safety over whole runs: a published revision always has its bytes on disk, and a revision with
    a lease or an anchor stays published. */
module ContentSafety {
  import opened Collections
  import opened ContentDatabase
  import opened ContentRows
  import opened ContentProtocol
  import opened ContentInvariant
  import opened ContentHistory

  // ----- Hypotheses -----

  /** H0: the digest is injective, so it determines the length of every admitted content. */
  predicate Honest(size: Digest -> nat, a: Action) {
    a.Run? ==> a.input.content.byteLength == size(a.input.content.digest)
  }

  function Pending(pc: PC): set<Digest> {
    if pc.Collecting? && !pc.collect.Marking? then pc.collect.pending else {}
  }

  /** H1: at most one task finishes a given deletion-journal entry at a time. */
  ghost predicate ExclusiveFinishers(s: State) {
    forall t, u :: t in s.tasks && u in s.tasks && t != u ==> Pending(s.tasks[t].pc) !! Pending(s.tasks[u].pc)
  }

  predicate InQuarantine(pc: PC) {
    || (pc.Holding? && pc.step.Discard?)
    || (pc.Verifying? && (pc.check.QuarantineRow? || pc.check.MoveAside?))
  }

  /** H2: a failed digest check and the quarantine it triggers are one step of the schedule. */
  ghost predicate QuarantineIsAtomic(s: State, a: Action) {
    forall t :: t in s.tasks && InQuarantine(s.tasks[t].pc) && a.Run? ==> a.task == t
  }

  /** H3: nobody outside the store edits blobs. */
  predicate Untouched(a: Action) {
    !a.Corrupt?
  }

  /** The digest that the next step of a call computes from the blob. */
  function Checked(pc: PC): Option<Digest> {
    match pc
    case Holding(at, h) => if at.Digest? then Some(h.content.digest) else None
    case Verifying(at, c, _) => if at.Check? then Some(c.digest) else None
    case _ => None
  }

  /** A revision that a lease or an anchor names. */
  ghost predicate Pinned(db: Db, d: Digest) {
    Anchored(db, d) || Leased(db, d)
  }

  /** H6: no digest check throws while a pin names its digest. */
  ghost predicate PinnedChecksRead(s: State, a: Action) {
    a.Run? && a.task in s.tasks && !a.input.ok && Checked(s.tasks[a.task].pc).Some? ==>
      !Pinned(s.world.db, Checked(s.tasks[a.task].pc).value)
  }

  /** H0 to H3. */
  ghost predicate Scheduled(run: Trace, size: Digest -> nat) {
    && (forall n :: 0 <= n < |run.states| ==> ExclusiveFinishers(run.states[n]))
    && (forall n :: 0 <= n < |run.actions| && n < |run.states| ==>
          Honest(size, run.actions[n]) && QuarantineIsAtomic(run.states[n], run.actions[n]) && Untouched(run.actions[n]))
  }

  /** H0 to H3 and H6. */
  ghost predicate Disciplined(run: Trace, size: Digest -> nat) {
    && Scheduled(run, size)
    && (forall n :: 0 <= n < |run.actions| && n < |run.states| ==> PinnedChecksRead(run.states[n], run.actions[n]))
  }

  /** The step does not quarantine what a pin names. */
  ghost predicate SparesPins(s: State, a: Action) {
    a.Run? && a.task in s.tasks && a.input.ok && s.tasks[a.task].pc.Verifying? && s.tasks[a.task].pc.check.QuarantineRow? ==>
      !Pinned(s.world.db, s.tasks[a.task].pc.content.digest)
  }

  // ----- The invariant on tables and files -----

  /** The blob under a digest is there and is the content the digest was computed from. */
  predicate Good(w: World, size: Digest -> nat, d: Digest) {
    Lookup(w.blobs, d) == Some(Content(d, size(d)))
  }

  predicate IsPublished(db: Db, d: Digest) {
    d in db.revisions && db.revisions[d].state.Published?
  }

  ghost predicate PinsPublished(db: Db) {
    && (forall a :: a in db.anchors ==> IsPublished(db, db.anchors[a].digest))
    && (forall l :: l in db.leases ==> IsPublished(db, db.leases[l].digest))
  }

  ghost predicate Stocked(w: World, size: Digest -> nat) {
    && (forall d :: d in w.db.revisions ==> w.db.revisions[d].byteLength == size(d))
    && (forall d :: IsPublished(w.db, d) ==> Good(w, size, d))
    && (forall d :: d in w.db.publications ==> Holds(w, w.db.publications[d].temp, Content(d, size(d))))
    && PinsPublished(w.db)
  }

  /** A stage, as long as it exists, holds the content. */
  predicate Holds(w: World, stage: StageId, content: Content) {
    stage in w.staged ==> w.staged[stage] == content
  }

  // ----- The invariant on tasks -----

  /** The stage a task works from and the content it knows to be in it. */
  function Source(t: TaskId, pc: PC): Option<(StageId, Content)> {
    if Ticket(t, pc).Some? then Some((Ticket(t, pc).value.temp, Ticket(t, pc).value.content))
    else match pc
      case Admitting(_, at) => (match at
        case Touching(c) => Some((t, c))
        case Claiming(c, _) => Some((t, c))
        case Leasing(c, _) => Some((t, c))
        case _ => None)
      case _ => None
  }

  predicate IsWriter(pc: PC) {
    pc.Admitting? && (pc.admit.Opening? || pc.admit.Writing?)
  }

  /** A task that has seen or put the right bytes under the digest and is about to publish its row. */
  predicate Secured(pc: PC) {
    || (pc.Holding? && (pc.step.Unlink? || pc.step.Settle?))
    || (pc.Repairing? && (pc.repair.UnlinkStaged? || pc.repair.SettleRow?))
  }

  /** The digest whose journal entry the next transaction of a call removes. */
  function Spent(pc: PC): set<Digest> {
    if pc.Collecting? && pc.collect.FinishingRow? then {pc.collect.digest} else {}
  }

  predicate Condemned(db: Db, d: Digest) {
    d in db.revisions && (db.revisions[d].state.Deleting? || db.revisions[d].state.Quarantined?)
  }

  ghost predicate TaskSafe(w: World, size: Digest -> nat, t: TaskId, pc: PC) {
    && (Source(t, pc).Some? ==>
          var (stage, content) := Source(t, pc).value;
          Holds(w, stage, content) && content.byteLength == size(content.digest))
    && (pc.Verifying? ==> pc.content.byteLength == size(pc.content.digest))
    && (Secured(pc) ==>
          var f := Ticket(t, pc).value;
          PublishingUnder(w.db, f.content.digest, f.token) ==> Good(w, size, f.content.digest))
    && (forall d :: d in Pending(pc) ==> Condemned(w.db, d))
    && Spent(pc) <= Pending(pc)
    && (pc.Verifying? && pc.check.MoveAside? ==> Withdrawn(w.db, pc.content.digest))
  }

  /** No row, or a quarantined one. */
  predicate Withdrawn(db: Db, d: Digest) {
    d in db.revisions ==> db.revisions[d].state.Quarantined?
  }

  /** Nothing but the writing task itself knows the stage it is writing. */
  ghost predicate WritersAlone(s: State) {
    forall t :: t in s.tasks && IsWriter(s.tasks[t].pc) ==>
      && (forall d :: d in s.world.db.publications ==> s.world.db.publications[d].temp != t)
      && (forall u :: u in s.tasks && Source(u, s.tasks[u].pc).Some? ==> Source(u, s.tasks[u].pc).value.0 != t)
  }

  ghost predicate Safe(s: State, size: Digest -> nat) {
    && Base(s)
    && Stocked(s.world, size)
    && WritersAlone(s)
    && (forall t :: t in s.tasks ==> TaskSafe(s.world, size, t, s.tasks[t].pc))
  }

  // ----- What a step owes to the tasks that do not move -----

  ghost predicate Calm(w: World, w': World, size: Digest -> nat, next: int, writing: set<StageId>, spent: set<Digest>) {
    && TokensFade(w.db, w'.db, next)
    && (forall d, k :: k < next && PublishingUnder(w'.db, d, k) && Good(w, size, d) ==> Good(w', size, d))
    && (forall k :: k in w'.staged && k !in writing ==> k in w.staged && w'.staged[k] == w.staged[k])
    && (forall d :: Condemned(w.db, d) && d !in spent ==> Condemned(w'.db, d))
  }

  ghost predicate Ready(w: World, size: Digest -> nat, next: int) {
    WorldOk(w, next) && Stocked(w, size)
  }

  ghost predicate Done(w: World, w': World, size: Digest -> nat, next: int, writing: set<StageId>, spent: set<Digest>) {
    Stocked(w', size) && Calm(w, w', size, next, writing, spent)
  }

  // ----- Steps on files -----

  lemma StageDone(w: World, size: Digest -> nat, next: int, t: TaskId, content: Content)
    requires Ready(w, size, next) && t < next
    requires forall d :: d in w.db.publications ==> w.db.publications[d].temp != t
    ensures Done(w, w.(staged := w.staged[t := content]), size, next, {t}, {})
  {
  }

  lemma IdleDone(w: World, size: Digest -> nat, next: int, writing: set<StageId>)
    requires Ready(w, size, next)
    ensures forall spent :: Done(w, w, size, next, writing, spent)
  {
  }

  lemma UnstageDone(w: World, size: Digest -> nat, next: int, stage: StageId)
    requires Ready(w, size, next)
    ensures Done(w, w, size, next, {}, {})
    ensures Done(w, w.(staged := w.staged - {stage}), size, next, {}, {})
  {
  }

  /** A rename puts the right bytes under the digest. */
  lemma RenameDone(w: World, size: Digest -> nat, next: int, stage: StageId, c: Content)
    requires Ready(w, size, next)
    requires stage in w.staged && w.staged[stage] == c && c.byteLength == size(c.digest)
    ensures var w' := w.(blobs := w.blobs[c.digest := w.staged[stage]], staged := w.staged - {stage});
            Done(w, w', size, next, {}, {}) && Good(w', size, c.digest)
  {
    var w' := w.(blobs := w.blobs[c.digest := w.staged[stage]], staged := w.staged - {stage});
    assert Good(w', size, c.digest);
    assert forall d :: Good(w, size, d) ==> Good(w', size, d);
  }

  /** A blob may go when its row is condemned or gone, or when it was bad anyway. */
  lemma UnlinkDone(w: World, size: Digest -> nat, next: int, digest: Digest)
    requires Ready(w, size, next)
    requires Condemned(w.db, digest) || Withdrawn(w.db, digest)
    ensures Done(w, w.(blobs := w.blobs - {digest}), size, next, {}, {})
  {
    var w' := w.(blobs := w.blobs - {digest});
    assert forall d :: d != digest && Good(w, size, d) ==> Good(w', size, d);
  }

  // ----- Transactions -----

  ghost predicate Keeps(db: Db, db': Db, spent: set<Digest>) {
    forall d :: Condemned(db, d) && d !in spent ==> Condemned(db', d)
  }

  lemma DbDone(w: World, db': Db, size: Digest -> nat, next: int, spent: set<Digest>)
    requires WorldStep(w, w.(db := db'), next)
    requires Stocked(w.(db := db'), size) && Keeps(w.db, db', spent)
    ensures Done(w, w.(db := db'), size, next, {}, spent)
  {
    hide Step, IdsUsed, Stocked;
    assert forall d :: Good(w, size, d) ==> Good(w.(db := db'), size, d);
  }

  /** Bodies on the other tables keep the stock when the pins they leave name published rows. */
  lemma QuietDbDone(w: World, db': Db, size: Digest -> nat, next: int)
    requires Ready(w, size, next) && WorldStep(w, w.(db := db'), next)
    requires db'.revisions == w.db.revisions && db'.publications == w.db.publications
    requires PinsPublished(db')
    ensures Done(w, w.(db := db'), size, next, {}, {})
  {
    hide WorldOk, Step, IdsUsed, TokensFade;
    var w' := w.(db := db');
    assert forall d :: IsPublished(db', d) ==> IsPublished(w.db, d);
    assert forall d :: Good(w, size, d) ==> Good(w', size, d);
    assert forall d :: Condemned(w.db, d) ==> Condemned(db', d);
  }

  lemma ClaimStocked(w: World, size: Digest -> nat, c: Content, t: TaskId, stageToken: Token, pid: Pid, token: Token, now: Time)
    requires Stocked(w, size) && Holds(w, t, c) && c.byteLength == size(c.digest)
    ensures var db' := After(ClaimPublication(w.db, c, t, stageToken, pid, token, now), w.db);
            Stocked(w.(db := db'), size) && Keeps(w.db, db', {})
  {
    var db' := After(ClaimPublication(w.db, c, t, stageToken, pid, token, now), w.db);
    assert forall d :: IsPublished(db', d) <==> IsPublished(w.db, d);
    assert forall d :: Good(w, size, d) ==> Good(w.(db := db'), size, d);
  }

  lemma ClaimDone(w: World, size: Digest -> nat, next: int, c: Content, t: TaskId, stageToken: Token, pid: Pid, now: Time)
    requires Ready(w, size, next) && Holds(w, t, c) && c.byteLength == size(c.digest)
    ensures var db' := After(ClaimPublication(w.db, c, t, stageToken, pid, next, now), w.db);
            Done(w, w.(db := db'), size, next, {}, {})
  {
    hide WorldOk, Stocked, WorldStep, Done, Keeps, ClaimPublication;
    ClaimStocked(w, size, c, t, stageToken, pid, next, now);
    ClaimWorld(w, next, c, t, stageToken, pid, now);
    DbDone(w, After(ClaimPublication(w.db, c, t, stageToken, pid, next, now), w.db), size, next, {});
  }

  lemma AdoptStocked(w: World, size: Digest -> nat, digest: Digest, expected: Token, pid: Pid, token: Token, now: Time)
    requires Stocked(w, size)
    ensures var db' := After(AdoptRepair(w.db, digest, expected, pid, token, now), w.db);
            Stocked(w.(db := db'), size) && Keeps(w.db, db', {})
  {
    var db' := After(AdoptRepair(w.db, digest, expected, pid, token, now), w.db);
    assert forall d :: IsPublished(db', d) <==> IsPublished(w.db, d);
    assert forall d :: Good(w, size, d) ==> Good(w.(db := db'), size, d);
  }

  lemma AdoptDone(w: World, size: Digest -> nat, next: int, digest: Digest, expected: Token, pid: Pid, now: Time)
    requires Ready(w, size, next)
    ensures Done(w, w.(db := After(AdoptRepair(w.db, digest, expected, pid, next, now), w.db)), size, next, {}, {})
  {
    hide WorldOk, Stocked, WorldStep, Done, Keeps, AdoptRepair;
    AdoptStocked(w, size, digest, expected, pid, next, now);
    AdoptWorld(w, next, digest, expected, pid, now);
    DbDone(w, After(AdoptRepair(w.db, digest, expected, pid, next, now), w.db), size, next, {});
  }

  /** Publishing a row whose bytes are in place. */
  lemma SettledStocked(w: World, size: Digest -> nat, digest: Digest, now: Time)
    requires Stocked(w, size) && digest in w.db.revisions && w.db.revisions[digest].state.Publishing? && Good(w, size, digest)
    ensures Stocked(w.(db := Settled(w.db, digest, now)), size)
    ensures IsPublished(Settled(w.db, digest, now), digest)
    ensures Keeps(w.db, Settled(w.db, digest, now), {})
  {
    var w' := w.(db := Settled(w.db, digest, now));
    assert forall d :: IsPublished(w'.db, d) ==> IsPublished(w.db, d) || d == digest;
    assert forall d :: IsPublished(w.db, d) ==> IsPublished(w'.db, d);
    assert forall d :: Good(w, size, d) ==> Good(w', size, d);
  }

  lemma LeaseStocked(w: World, size: Digest -> nat, lease: LeaseId, c: Content, expiresAt: Time, now: Time)
    requires Stocked(w, size) && IsPublished(w.db, c.digest)
    ensures Stocked(w.(db := AddLease(w.db, lease, c, expiresAt, now)), size)
    ensures Keeps(w.db, AddLease(w.db, lease, c, expiresAt, now), {})
  {
    var db' := AddLease(w.db, lease, c, expiresAt, now);
    assert forall d :: IsPublished(db', d) <==> IsPublished(w.db, d);
    assert forall d :: Good(w, size, d) ==> Good(w.(db := db'), size, d);
  }

  lemma SettleOwnedDone(w: World, size: Digest -> nat, next: int, c: Content, token: Token,
                        lease: LeaseId, expiresAt: Time, now: Time)
    requires Ready(w, size, next) && c.byteLength == size(c.digest)
    requires PublishingUnder(w.db, c.digest, token) ==>
               Good(w, size, c.digest) && w.db.revisions[c.digest].byteLength == c.byteLength
    ensures Done(w, w.(db := After(SettleOwned(w.db, c, token, lease, expiresAt, now), w.db)), size, next, {}, {})
  {
    var db' := After(SettleOwned(w.db, c, token, lease, expiresAt, now), w.db);
    hide WorldOk, Stocked, WorldStep, Done, AddLease, Settled;
    SettleOwnedWorld(w, next, c, token, lease, expiresAt, now);
    if PublishingUnder(w.db, c.digest, token) {
      SettledStocked(w, size, c.digest, now);
      LeaseStocked(w.(db := Settled(w.db, c.digest, now)), size, lease, c, expiresAt, now);
    }
    DbDone(w, db', size, next, {});
  }

  lemma SettleRepairedDone(w: World, size: Digest -> nat, next: int, digest: Digest, token: Token, now: Time)
    requires Ready(w, size, next)
    requires PublishingUnder(w.db, digest, token) ==> Good(w, size, digest)
    ensures Done(w, w.(db := SettleRepaired(w.db, digest, token, now)), size, next, {}, {})
  {
    hide WorldOk, WorldStep, Done;
    SettleRepairedWorld(w, next, digest, token, now);
    var db' := SettleRepaired(w.db, digest, token, now);
    if PublishingUnder(w.db, digest, token) {
      SettledStocked(w, size, digest, now);
    } else {
      assert forall d :: IsPublished(db', d) <==> IsPublished(w.db, d);
      assert forall d :: Good(w, size, d) ==> Good(w.(db := db'), size, d);
    }
    DbDone(w, db', size, next, {});
  }

  /** Removing an unpublished row touches no pin. */
  lemma DeleteStocked(w: World, size: Digest -> nat, digest: Digest)
    requires Stocked(w, size) && !IsPublished(w.db, digest)
    ensures Stocked(w.(db := After(DeleteRevision(w.db, digest), w.db)), size)
    ensures Keeps(w.db, After(DeleteRevision(w.db, digest), w.db), {digest})
  {
    var w' := w.(db := After(DeleteRevision(w.db, digest), w.db));
    assert forall d :: IsPublished(w'.db, d) <==> IsPublished(w.db, d);
    assert forall d :: Good(w, size, d) ==> Good(w', size, d);
  }

  lemma DeletionRowStocked(w: World, size: Digest -> nat, digest: Digest)
    requires Stocked(w, size)
    ensures var db' := w.db.(deletions := w.db.deletions - {digest});
            Stocked(w.(db := db'), size) && Keeps(w.db, db', {})
  {
    var db' := w.db.(deletions := w.db.deletions - {digest});
    assert forall d :: IsPublished(db', d) <==> IsPublished(w.db, d);
    assert forall d :: Good(w, size, d) ==> Good(w.(db := db'), size, d);
  }

  lemma FinishDone(w: World, size: Digest -> nat, next: int, digest: Digest)
    requires Ready(w, size, next)
    ensures Done(w, w.(db := After(FinishDeletion(w.db, digest), w.db)), size, next, {}, {digest})
  {
    hide WorldOk, Stocked, WorldStep, Done, DeleteRevision;
    DeletionWorlds(w, next, digest, 0);
    if digest in w.db.revisions && w.db.revisions[digest].state.Deleting? {
      DeleteStocked(w, size, digest);
    } else {
      DeletionRowStocked(w, size, digest);
    }
    DbDone(w, After(FinishDeletion(w.db, digest), w.db), size, next, {digest});
  }

  lemma DropDone(w: World, size: Digest -> nat, next: int, digest: Digest, token: Token)
    requires Ready(w, size, next)
    ensures Done(w, w.(db := After(DropPublication(w.db, digest, token), w.db)), size, next, {}, {})
  {
    hide WorldOk, Stocked, WorldStep, Done, DeleteRevision;
    DeletionWorlds(w, next, digest, token);
    if PublishingUnder(w.db, digest, token) {
      DeleteStocked(w, size, digest);
    }
    DbDone(w, After(DropPublication(w.db, digest, token), w.db), size, next, {});
  }

  lemma QuarantineStocked(w: World, size: Digest -> nat, digest: Digest, now: Time)
    requires Stocked(w, size) && !Pinned(w.db, digest)
    ensures Stocked(w.(db := Quarantine(w.db, digest, now)), size)
    ensures Keeps(w.db, Quarantine(w.db, digest, now), {})
  {
    var db' := Quarantine(w.db, digest, now);
    assert forall d :: IsPublished(db', d) <==> IsPublished(w.db, d) && d != digest;
    assert forall d :: Good(w, size, d) ==> Good(w.(db := db'), size, d);
  }

  lemma QuarantineDone(w: World, size: Digest -> nat, next: int, digest: Digest, now: Time)
    requires Ready(w, size, next) && !Pinned(w.db, digest)
    ensures Done(w, w.(db := Quarantine(w.db, digest, now)), size, next, {}, {})
  {
    hide WorldOk, Stocked, WorldStep, Done, Keeps, Quarantine;
    QuarantineWorld(w, next, digest, now);
    QuarantineStocked(w, size, digest, now);
    DbDone(w, Quarantine(w.db, digest, now), size, next, {});
  }

  lemma MarkStocked(w: World, size: Digest -> nat, now: Time)
    requires Stocked(w, size)
    ensures Stocked(w.(db := MarkGarbage(w.db, now).db), size)
    ensures Keeps(w.db, MarkGarbage(w.db, now).db, {})
    ensures forall d :: d in MarkGarbage(w.db, now).value ==> Condemned(MarkGarbage(w.db, now).db, d)
  {
    var db' := MarkGarbage(w.db, now).db;
    CollectedRowsAreUnpinned(w.db, now);
    hide Anchored, LeasedAfter;
    assert forall d :: IsPublished(db', d) <==> IsPublished(w.db, d) && d !in MarkGarbage(w.db, now).value;
    assert forall d :: Good(w, size, d) ==> Good(w.(db := db'), size, d);
  }

  lemma MarkDone(w: World, size: Digest -> nat, next: int, now: Time)
    requires Ready(w, size, next)
    ensures Done(w, w.(db := MarkGarbage(w.db, now).db), size, next, {}, {})
  {
    var db' := MarkGarbage(w.db, now).db;
    hide WorldOk, Stocked, WorldStep, Done, Keeps, MarkGarbage;
    MarkWorld(w, next, now);
    MarkStocked(w, size, now);
    DbDone(w, db', size, next, {});
  }

  // ----- The steps of one task -----

  ghost predicate MoveSafe(w: World, size: Digest -> nat, next: int, t: TaskId, pc: PC, move: Move) {
    && Done(w, move.world, size, next, if IsWriter(pc) then {t} else {}, Spent(pc))
    && TaskSafe(move.world, size, t, move.pc)
  }

  lemma AdmitSafe(w: World, size: Digest -> nat, now: Time, next: int, t: TaskId, pid: Pid, k: Token, at: AdmitPC, i: Input)
    requires Ready(w, size, next) && t < next && TaskSafe(w, size, t, Admitting(k, at))
    requires i.content.byteLength == size(i.content.digest)
    requires IsWriter(Admitting(k, at)) ==> forall d :: d in w.db.publications ==> w.db.publications[d].temp != t
    ensures MoveSafe(w, size, next, t, Admitting(k, at), AdmitMove(w, now, next, t, pid, k, at, i))
  {
    hide WorldOk, Stocked, WorldStep, Done, PinsPublished, TouchStage, ForgetStage;
    UnstageDone(w, size, next, t);
    match at
    case Opening => StageDone(w, size, next, t, i.content); IdleDone(w, size, next, {t});
    case Writing => StageDone(w, size, next, t, i.content);
    case Touching(c) => StagingSafe(w, size, now, next, t, pid, k);
    case Claiming(c, g) => ClaimDone(w, size, next, c, t, k, pid, now); hide ClaimPublication;
    case Leasing(c, g) => LeasingSafe(w, size, now, next, g.lease, c, g.expiresAt);
    case CleaningFile(r) =>
    case CleaningRow(r) => StagingSafe(w, size, now, next, t, pid, k);
    case Forgetting => StagingSafe(w, size, now, next, t, pid, k);
    case Abandoning =>
  }

  lemma StagingSafe(w: World, size: Digest -> nat, now: Time, next: int, t: TaskId, pid: Pid, k: Token)
    requires Ready(w, size, next) && t < next
    ensures Done(w, w.(db := After(TouchStage(w.db, t, pid, k, now), w.db)), size, next, {}, {})
    ensures Done(w, w.(db := ForgetStage(w.db, t, k)), size, next, {}, {})
  {
    hide WorldOk, WorldStep, Done;
    StagingBase(w, now, next, t, pid, k);
    QuietDbDone(w, After(TouchStage(w.db, t, pid, k, now), w.db), size, next);
    QuietDbDone(w, ForgetStage(w.db, t, k), size, next);
  }

  lemma LeasingSafe(w: World, size: Digest -> nat, now: Time, next: int, lease: LeaseId, c: Content, expiresAt: Time)
    requires Ready(w, size, next)
    ensures Done(w, w.(db := After(InsertLease(w.db, lease, c, expiresAt, now), w.db)), size, next, {}, {})
  {
    hide WorldOk, WorldStep, Done;
    LeaseBase(w, now, next, lease, c, expiresAt);
    QuietDbDone(w, After(InsertLease(w.db, lease, c, expiresAt, now), w.db), size, next);
  }

  lemma HoldSafe(w: World, size: Digest -> nat, now: Time, next: int, t: TaskId, at: HeldStep, h: Held)
    requires Ready(w, size, next) && TaskSafe(w, size, t, Holding(at, h)) && TicketOk(w.db, next, Found(h.content, h.token, t))
    ensures MoveSafe(w, size, next, t, Holding(at, h), HoldMove(w, now, t, at, h))
  {
    assert Holds(w, t, h.content) && h.content.byteLength == size(h.content.digest);
    hide WorldOk, Stocked, WorldStep, Done;
    if at.Settle? {
      SettleOwnedDone(w, size, next, h.content, h.token, h.grant.lease, h.grant.expiresAt, now);
      IdleDone(w, size, next, {});
      hide SettleOwned;
    } else if at.Rename? {
      IdleDone(w, size, next, {});
      if t in w.staged { RenameDone(w, size, next, t, h.content); }
    } else {
      UnstageDone(w, size, next, t);
    }
  }

  lemma VerifySafe(w: World, size: Digest -> nat, now: Time, next: int, t: TaskId, at: CheckStep, c: Content, caller: Caller)
    requires Ready(w, size, next) && TaskSafe(w, size, t, Verifying(at, c, caller))
    requires at.QuarantineRow? ==> !Pinned(w.db, c.digest)
    ensures MoveSafe(w, size, next, t, Verifying(at, c, caller), VerifyMove(w, now, at, c, caller))
  {
    assert c.byteLength == size(c.digest);
    hide Ready, Done, Quarantine, Available, Pinned, Withdrawn;
    if at.QuarantineRow? {
      QuarantineDone(w, size, next, c.digest, now);
      QuarantineWithdraws(w.db, c.digest, now);
    } else if at.MoveAside? {
      UnlinkDone(w, size, next, c.digest);
    } else {
      IdleDone(w, size, next, {});
    }
  }

  lemma QuarantineWithdraws(db: Db, d: Digest, now: Time)
    ensures Withdrawn(Quarantine(db, d, now), d)
  {
  }

  lemma RepairRowSafe(w: World, size: Digest -> nat, now: Time, next: int, t: TaskId, pid: Pid, at: RepairStep, f: Found)
    requires Ready(w, size, next) && TaskSafe(w, size, t, Repairing(at, f))
    requires at.Adopt? || at.SettleRow? || at.DropRow?
    ensures MoveSafe(w, size, next, t, Repairing(at, f), RepairMove(w, now, next, pid, at, f))
  {
    assert Holds(w, f.temp, f.content) && f.content.byteLength == size(f.content.digest);
    hide WorldOk, Stocked, WorldStep, Done, AdoptRepair, SettleRepaired, DropPublication;
    IdleDone(w, size, next, {});
    match at
    case Adopt => AdoptDone(w, size, next, f.content.digest, f.token, pid, now);
    case SettleRow => SettleRepairedDone(w, size, next, f.content.digest, f.token, now);
    case DropRow => DropDone(w, size, next, f.content.digest, f.token);
  }

  lemma RepairFileSafe(w: World, size: Digest -> nat, now: Time, next: int, t: TaskId, pid: Pid, at: RepairStep, f: Found)
    requires Ready(w, size, next) && TaskSafe(w, size, t, Repairing(at, f))
    requires !at.Adopt? && !at.SettleRow? && !at.DropRow?
    ensures MoveSafe(w, size, next, t, Repairing(at, f), RepairMove(w, now, next, pid, at, f))
  {
    assert Holds(w, f.temp, f.content) && f.content.byteLength == size(f.content.digest);
    hide WorldOk, Stocked, WorldStep, Done, AdoptRepair, SettleRepaired, DropPublication;
    UnstageDone(w, size, next, f.temp);
    if at.RenameStaged? && f.temp in w.staged { RenameDone(w, size, next, f.temp, f.content); }
  }

  lemma SweptWorld(w: World, next: int, stage: StageId, owner: Pid, k: Token)
    requires WorldOk(w, next)
    ensures WorldStep(w, w.(db := ForgetStageOf(w.db, stage, owner, k)), next)
  {
    hide WorldOk, WorldStep;
    StagingWorld(w, next, ForgetStageOf(w.db, stage, owner, k));
  }

  lemma SweepSafe(w: World, size: Digest -> nat, alive: set<Pid>, next: int, t: TaskId, at: SweepStep,
                  stage: StageId, owner: Pid, k: Token)
    requires Ready(w, size, next)
    ensures MoveSafe(w, size, next, t, Sweeping(at, stage, owner, k), SweepMove(w, alive, at, stage, owner, k))
  {
    if at.SweepRow? {
      SweptWorld(w, next, stage, owner, k);
      hide WorldOk, WorldStep, Done;
      QuietDbDone(w, ForgetStageOf(w.db, stage, owner, k), size, next);
    } else {
      hide WorldOk, Stocked, Done;
      UnstageDone(w, size, next, stage);
    }
  }

  lemma CollectSafe(w: World, size: Digest -> nat, next: int, t: TaskId, at: CollectPC, i: Input)
    requires Ready(w, size, next) && TaskSafe(w, size, t, Collecting(at))
    ensures MoveSafe(w, size, next, t, Collecting(at), CollectMove(w, at, i))
  {
    hide WorldOk, Stocked, WorldStep, Done;
    match at
    case Marking(when) => MarkDone(w, size, next, when); MarkCondemns(w, size, next, when); hide MarkGarbage;
    case Finishing(pending) =>
      UnstageDone(w, size, next, t);
      if i.digest in pending { UnlinkDone(w, size, next, i.digest); }
    case FinishingRow(d, pending) =>
      FinishDone(w, size, next, d);
      FinishCondemns(w, size, next, d);
      hide FinishDeletion;
  }

  lemma MarkCondemns(w: World, size: Digest -> nat, next: int, now: Time)
    requires Ready(w, size, next)
    ensures forall d :: d in MarkGarbage(w.db, now).value ==> Condemned(MarkGarbage(w.db, now).db, d)
  {
    MarkStocked(w, size, now);
  }

  lemma FinishCondemns(w: World, size: Digest -> nat, next: int, digest: Digest)
    requires Ready(w, size, next)
    ensures Keeps(w.db, After(FinishDeletion(w.db, digest), w.db), {digest})
  {
    FinishDone(w, size, next, digest);
  }

  // ----- Writers stay alone -----

  ghost predicate TempsFrom(db: Db, db': Db, extra: set<StageId>) {
    forall d :: d in db'.publications ==>
      db'.publications[d].temp in extra || (d in db.publications && db'.publications[d].temp == db.publications[d].temp)
  }

  ghost predicate MoveStages(w: World, t: TaskId, pc: PC, move: Move) {
    && TempsFrom(w.db, move.world.db, if IsWriter(pc) then {} else {t})
    && (Source(t, move.pc).Some? ==>
          Source(t, move.pc).value.0 == t
          || (Source(t, pc).Some? && Source(t, move.pc).value.0 == Source(t, pc).value.0))
    && (IsWriter(move.pc) ==> IsWriter(pc))
  }

  lemma RunStages(s: State, stale: Time, t: TaskId, i: Input)
    requires t in s.tasks
    ensures MoveStages(s.world, t, s.tasks[t].pc, MoveOf(s, stale, t, i))
  {
    hide PublishingUnder, TouchStage, InsertLease, ForgetStage, MarkAll, Collectable, Available, DeleteRevision;
    var w, pid, pc := s.world, s.tasks[t].pid, s.tasks[t].pc;
    if Throws(pc, i) {
      ThrownStages(w, t, pc);
      return;
    }
    match pc
    case Admitting(k, at) => AdmitStages(w, s.now, s.next, t, pid, k, at, i);
    case Holding(at, h) => HoldStages(w, s.now, t, at, h);
    case Repairing(at, f) => RepairStages(w, s.now, s.next, t, pid, at, f);
    case Verifying(at, c, caller) => VerifyStages(w, s.now, t, at, c, caller);
    case Collecting(at) => CollectStages(w, t, at, i);
    case _ =>
  }

  lemma ThrownStages(w: World, t: TaskId, pc: PC)
    ensures MoveStages(w, t, pc, Move(w, Thrown(pc)))
  {
  }

  lemma AdmitStages(w: World, now: Time, next: int, t: TaskId, pid: Pid, k: Token, at: AdmitPC, i: Input)
    ensures MoveStages(w, t, Admitting(k, at), AdmitMove(w, now, next, t, pid, k, at, i))
  {
  }

  lemma HoldStages(w: World, now: Time, t: TaskId, at: HeldStep, h: Held)
    ensures MoveStages(w, t, Holding(at, h), HoldMove(w, now, t, at, h))
  {
  }

  lemma VerifyStages(w: World, now: Time, t: TaskId, at: CheckStep, c: Content, caller: Caller)
    ensures MoveStages(w, t, Verifying(at, c, caller), VerifyMove(w, now, at, c, caller))
  {
  }

  lemma RepairStages(w: World, now: Time, next: int, t: TaskId, pid: Pid, at: RepairStep, f: Found)
    ensures MoveStages(w, t, Repairing(at, f), RepairMove(w, now, next, pid, at, f))
  {
  }

  lemma CollectStages(w: World, t: TaskId, at: CollectPC, i: Input)
    ensures MoveStages(w, t, Collecting(at), CollectMove(w, at, i))
  {
  }

  // ----- One action -----

  lemma RunSafe(s: State, size: Digest -> nat, stale: Time, t: TaskId, i: Input)
    requires Safe(s, size) && t in s.tasks && i.content.byteLength == size(i.content.digest) && SparesPins(s, Run(t, i))
    ensures MoveSafe(s.world, size, s.next, t, s.tasks[t].pc, MoveOf(s, stale, t, i))
  {
    var w, pid, pc := s.world, s.tasks[t].pid, s.tasks[t].pc;
    assert t < s.next && TicketsOk(w.db, s.next, t, pc) && TaskSafe(w, size, t, pc) && Ready(w, size, s.next);
    hide Base, WorldOk, Stocked, TaskSafe, Ready, MoveSafe;
    hide AdmitMove, HoldMove, VerifyMove, RepairMove, SweepMove, CollectMove;
    if Throws(pc, i) {
      ThrownSafe(w, size, s.next, t, pc);
      return;
    }
    match pc
    case Admitting(k, at) => AdmitSafe(w, size, s.now, s.next, t, pid, k, at, i);
    case Holding(at, h) => HoldSafe(w, size, s.now, s.next, t, at, h);
    case Verifying(at, c, caller) => VerifySafe(w, size, s.now, s.next, t, at, c, caller);
    case Repairing(at, f) =>
      if at.Adopt? || at.SettleRow? || at.DropRow? { RepairRowSafe(w, size, s.now, s.next, t, pid, at, f); }
      else { RepairFileSafe(w, size, s.now, s.next, t, pid, at, f); }
    case Sweeping(at, stage, owner, k) => SweepSafe(w, size, s.alive, s.next, t, at, stage, owner, k);
    case Collecting(at) => CollectSafe(w, size, s.next, t, at, i);
    case _ => IdleSafe(w, size, s.next, t, pc, MoveOf(s, stale, t, i));
  }

  lemma ThrownSafe(w: World, size: Digest -> nat, next: int, t: TaskId, pc: PC)
    requires Ready(w, size, next) && TaskSafe(w, size, t, pc)
    ensures MoveSafe(w, size, next, t, pc, Move(w, Thrown(pc)))
  {
    hide WorldOk, Stocked, Done;
    IdleDone(w, size, next, if IsWriter(pc) then {t} else {});
  }

  lemma IdleSafe(w: World, size: Digest -> nat, next: int, t: TaskId, pc: PC, move: Move)
    requires Ready(w, size, next) && TaskSafe(w, size, t, pc) && move.world == w
    requires (pc.Judging? && (move.pc == Ended || move.pc == Repairing(Adopt, pc.found))) || (IsDone(pc) && move.pc == pc)
    ensures MoveSafe(w, size, next, t, pc, move)
  {
    hide WorldOk, Stocked, Done;
    IdleDone(w, size, next, {});
  }

  /** What a task knows survives the step of another task. */
  lemma TaskSurvives(w: World, w': World, size: Digest -> nat, next: int, writing: set<StageId>, spent: set<Digest>,
                     u: TaskId, pc: PC)
    requires Calm(w, w', size, next, writing, spent)
    requires TaskSafe(w, size, u, pc) && TicketsOk(w.db, next, u, pc)
    requires Source(u, pc).Some? ==> Source(u, pc).value.0 !in writing
    requires Pending(pc) !! spent
    requires InQuarantine(pc) ==> w'.db.revisions == w.db.revisions
    ensures TaskSafe(w', size, u, pc)
  {
    assert Secured(pc) ==> Ticket(u, pc).Some?;
  }

  ghost predicate OthersSafe(s: State, s': State, size: Digest -> nat, moved: TaskId) {
    forall u :: u in s'.tasks && u != moved ==> TaskSafe(s'.world, size, u, s'.tasks[u].pc)
  }

  lemma OthersSurvive(s: State, s': State, size: Digest -> nat, moved: TaskId, writing: set<StageId>, spent: set<Digest>)
    requires Safe(s, size) && Calm(s.world, s'.world, size, s.next, writing, spent)
    requires forall u :: u in s'.tasks && u != moved ==> u in s.tasks && s'.tasks[u] == s.tasks[u]
    requires forall k :: k in writing ==> k in s.tasks && IsWriter(s.tasks[k].pc)
    requires forall u :: u in s.tasks && u != moved ==> Pending(s.tasks[u].pc) !! spent
    requires (exists u :: u in s.tasks && u != moved && InQuarantine(s.tasks[u].pc)) ==> s'.world.db.revisions == s.world.db.revisions
    ensures OthersSafe(s, s', size, moved)
  {
    hide Calm, TaskSafe, WorldOk, Stocked;
    forall u | u in s'.tasks && u != moved ensures TaskSafe(s'.world, size, u, s'.tasks[u].pc) {
      TaskSurvives(s.world, s'.world, size, s.next, writing, spent, u, s.tasks[u].pc);
    }
  }

  lemma SpawnedSafe(s: State, size: Digest -> nat, pc: PC)
    requires Safe(s, size) && MaySpawn(s, pc)
    ensures TaskSafe(s.world, size, s.next, pc)
  {
    var w := s.world;
    assert RowsOk(w.db) && Stocked(w, size);
    hide WorldOk, WritersAlone;
    match pc
    case Verifying(at, c, caller) =>
      assert PinsOk(w.db);
      assert forall a :: a in w.db.anchors ==> Pinnable(w.db, w.db.anchors[a].digest, w.db.anchors[a].byteLength);
      assert forall l :: l in w.db.leases ==> Pinnable(w.db, w.db.leases[l].digest, w.db.leases[l].byteLength);
    case Judging(f, owner, updated) =>
    case Collecting(at) => assert JournalsOk(w.db);
    case _ =>
  }

  lemma PinActionSafe(s: State, size: Digest -> nat, stale: Time, a: Action)
    requires Ready(s.world, size, s.next) && Enabled(s, a)
    requires a.Anchoring? || a.Cloning? || a.ReleasingAnchor? || a.ReleasingLease?
    ensures Done(s.world, Apply(s, stale, a).world, size, s.next, {}, {})
  {
    var w, db' := s.world, Apply(s, stale, a).world.db;
    hide WorldOk, WorldStep, Done, MoveOf;
    PinActionWorld(s, stale, a);
    PinActionPins(s, stale, a);
    hide Stocked, CreateAnchor, CloneAnchor, ReleaseAnchor, ReleaseLease, PinsPublished;
    QuietDbDone(w, db', size, s.next);
  }

  lemma PinActionPins(s: State, stale: Time, a: Action)
    requires PinsPublished(s.world.db) && Enabled(s, a)
    requires a.Anchoring? || a.Cloning? || a.ReleasingAnchor? || a.ReleasingLease?
    ensures var w' := Apply(s, stale, a).world;
            && PinsPublished(w'.db) && w' == s.world.(db := w'.db)
            && w'.db.revisions == s.world.db.revisions && w'.db.publications == s.world.db.publications
  {
    hide MoveOf, MaySpawn, CoordinateTaken;
    var db' := Apply(s, stale, a).world.db;
    assert db'.revisions == s.world.db.revisions;
    assert forall d :: IsPublished(db', d) <==> IsPublished(s.world.db, d);
  }

  lemma BeginSafe(w: World, size: Digest -> nat, now: Time, next: int, pid: Pid)
    requires Ready(w, size, next)
    ensures Done(w, w.(db := After(BeginStage(w.db, next, pid, next + 1, now), w.db)), size, next, {}, {})
  {
    var db' := After(BeginStage(w.db, next, pid, next + 1, now), w.db);
    hide WorldOk, WorldStep, Done;
    BeginBase(w, now, next, pid);
    assert forall d :: IsPublished(db', d) <==> IsPublished(w.db, d);
    QuietDbDone(w, db', size, next);
  }

  lemma OtherActionDone(s: State, size: Digest -> nat, stale: Time, a: Action)
    requires Safe(s, size) && Enabled(s, a) && !a.Run? && Untouched(a)
    ensures Done(s.world, Apply(s, stale, a).world, size, s.next, {}, {})
  {
    assert Ready(s.world, size, s.next);
    hide Base, Stocked, WorldOk, Ready, Done, MoveOf, MaySpawn, TaskSafe, Safe, WritersAlone, BeginStage;
    if a.Anchoring? || a.Cloning? || a.ReleasingAnchor? || a.ReleasingLease? {
      PinActionSafe(s, size, stale, a);
    } else if a.Admit? {
      BeginSafe(s.world, size, s.now, s.next, a.pid);
    } else {
      IdleDone(s.world, size, s.next, {});
    }
  }

  lemma ActionDone(s: State, size: Digest -> nat, stale: Time, a: Action)
    requires Safe(s, size) && Enabled(s, a) && Honest(size, a) && Untouched(a) && SparesPins(s, a)
    ensures var t := if a.Run? then a.task else s.next;
            Done(s.world, Apply(s, stale, a).world, size, s.next,
                 if a.Run? && IsWriter(s.tasks[t].pc) then {t} else {},
                 if a.Run? then Spent(s.tasks[t].pc) else {})
  {
    if a.Run? {
      assert Ready(s.world, size, s.next);
      RunSafe(s, size, stale, a.task, a.input);
      hide Base, Stocked, WorldOk, Ready, Done, MoveOf, TaskSafe, Safe, WritersAlone;
    } else {
      hide *;
      OtherActionDone(s, size, stale, a);
    }
  }

  lemma WritersStep(s: State, stale: Time, a: Action)
    requires Base(s) && WritersAlone(s) && Enabled(s, a)
    ensures WritersAlone(Apply(s, stale, a))
  {
    var s' := Apply(s, stale, a);
    assert IdsUsed(s.world, s.next) && WritersAlone(s);
    forall u | u in s.tasks ensures u < s.next && TicketsOk(s.world.db, s.next, u, s.tasks[u].pc) {}
    if a.Run? {
      RunStages(s, stale, a.task, a.input);
    }
    hide Base, MoveOf, WorldOk, RowsOk;
    if a.Spawn? {
      SpawnedStage(s, a.pc);
    } else if !a.Run? {
      hide MaySpawn;
    }
  }

  lemma SpawnedStage(s: State, pc: PC)
    requires MaySpawn(s, pc)
    ensures !IsWriter(pc)
    ensures Source(s.next, pc).Some? ==>
              exists d :: d in s.world.db.publications && s.world.db.publications[d].temp == Source(s.next, pc).value.0
  {
  }

  ghost predicate AllTasksSafe(s: State, size: Digest -> nat) {
    forall t :: t in s.tasks ==> TaskSafe(s.world, size, t, s.tasks[t].pc)
  }

  lemma RunTasksStep(s: State, size: Digest -> nat, stale: Time, t: TaskId, i: Input)
    requires Safe(s, size) && Enabled(s, Run(t, i)) && ExclusiveFinishers(s)
    requires Honest(size, Run(t, i)) && QuarantineIsAtomic(s, Run(t, i)) && SparesPins(s, Run(t, i))
    ensures AllTasksSafe(Apply(s, stale, Run(t, i)), size)
  {
    var s' := Apply(s, stale, Run(t, i));
    assert Base(s) && TaskSafe(s.world, size, t, s.tasks[t].pc);
    RunSafe(s, size, stale, t, i);
    hide Base, Stocked, WorldOk, WritersAlone, MaySpawn, Safe, MoveOf, Calm;
    var spent := Spent(s.tasks[t].pc);
    forall u | u in s.tasks && u != t ensures Pending(s.tasks[u].pc) !! spent {
      assert spent <= Pending(s.tasks[t].pc);
    }
    hide TaskSafe, Pending, Spent;
    OthersSurvive(s, s', size, t, if IsWriter(s.tasks[t].pc) then {t} else {}, spent);
  }

  lemma OtherTasksStep(s: State, size: Digest -> nat, stale: Time, a: Action)
    requires Safe(s, size) && Enabled(s, a) && !a.Run? && Untouched(a)
    ensures AllTasksSafe(Apply(s, stale, a), size)
  {
    var s' := Apply(s, stale, a);
    assert Base(s) && SparesPins(s, a);
    hide Safe, Done, Enabled, Apply, Base, SparesPins;
    ActionDone(s, size, stale, a);
    OtherTasksStay(s, stale, a);
    NewTaskSafe(s, size, stale, a);
    DoneIsCalm(s.world, s'.world, size, s.next);
    hide *;
    OthersSurvive(s, s', size, s.next, {}, {});
    NoneLeft(s, s', size, s.next);
  }

  lemma OtherTasksStay(s: State, stale: Time, a: Action)
    requires Base(s) && Enabled(s, a) && !a.Run?
    ensures var s' := Apply(s, stale, a);
      && (forall u :: u in s'.tasks && u != s.next ==> u in s.tasks && s'.tasks[u] == s.tasks[u])
      && s'.world.db.revisions == s.world.db.revisions && s.next !in s.tasks
  {
    assert forall u :: u in s.tasks ==> u < s.next;
    hide Base, MaySpawn, MoveOf, CoordinateTaken, Available;
  }

  lemma NewTaskSafe(s: State, size: Digest -> nat, stale: Time, a: Action)
    requires Safe(s, size) && Enabled(s, a) && !a.Run?
    ensures var s' := Apply(s, stale, a); s.next in s'.tasks ==> TaskSafe(s'.world, size, s.next, s'.tasks[s.next].pc)
  {
    assert forall u :: u in s.tasks ==> u < s.next;
    if a.Spawn? { SpawnedSafe(s, size, a.pc); }
    hide Safe, MaySpawn, MoveOf, CoordinateTaken, Available;
    if a.Spawn? { hide TaskSafe; }
  }

  lemma DoneIsCalm(w: World, w': World, size: Digest -> nat, next: int)
    requires Done(w, w', size, next, {}, {})
    ensures Calm(w, w', size, next, {}, {})
  {
  }

  lemma NoneLeft(s: State, s': State, size: Digest -> nat, moved: TaskId)
    requires OthersSafe(s, s', size, moved) && (moved in s'.tasks ==> TaskSafe(s'.world, size, moved, s'.tasks[moved].pc))
    ensures AllTasksSafe(s', size)
  {
    hide TaskSafe;
  }

  lemma SafeStep(s: State, size: Digest -> nat, stale: Time, a: Action)
    requires Safe(s, size) && Enabled(s, a) && ExclusiveFinishers(s)
    requires Honest(size, a) && QuarantineIsAtomic(s, a) && Untouched(a) && SparesPins(s, a)
    ensures Safe(Apply(s, stale, a), size)
  {
    BaseStep(s, stale, a);
    WritersStep(s, stale, a);
    ActionDone(s, size, stale, a);
    if a.Run? { RunTasksStep(s, size, stale, a.task, a.input); } else { OtherTasksStep(s, size, stale, a); }
    hide Base, Stocked, TaskSafe, WritersAlone, Apply, Calm;
  }

  // ----- Checks that throw -----

  /** What a call is about to quarantine is bad, or no pin names it. */
  ghost predicate Warned(s: State) {
    forall t :: t in s.tasks ==> TaskWarned(s.world.db, s.tasks[t].pc)
  }

  ghost predicate TaskWarned(db: Db, pc: PC) {
    && (pc.Holding? && pc.step.Discard? ==> !Pinned(db, pc.held.content.digest))
    && (pc.Verifying? && pc.check.QuarantineRow? ==> !Pinned(db, pc.content.digest))
  }

  /** A revision whose bytes are not there is not published, so no pin names it. */
  lemma BadIsUnpinned(w: World, size: Digest -> nat, d: Digest)
    requires Stocked(w, size) && !Good(w, size, d)
    ensures !Pinned(w.db, d)
  {
    assert !IsPublished(w.db, d);
  }

  lemma RunWarned(s: State, size: Digest -> nat, stale: Time, t: TaskId, i: Input)
    requires Safe(s, size) && Warned(s) && t in s.tasks && PinnedChecksRead(s, Run(t, i))
    ensures var move := MoveOf(s, stale, t, i);
      InQuarantine(move.pc) && !(move.pc.Verifying? && move.pc.check.MoveAside?) ==>
        move.world.db == s.world.db && TaskWarned(s.world.db, move.pc)
  {
    var w, pc := s.world, s.tasks[t].pc;
    assert TaskSafe(w, size, t, pc) && TaskWarned(w.db, pc) && Stocked(w, size);
    if Checked(pc).Some? && !Good(w, size, Checked(pc).value) { BadIsUnpinned(w, size, Checked(pc).value); }
    if pc.Holding? { assert Source(t, pc) == Some((t, pc.held.content)); }
    hide Safe, Warned, Stocked, Pinned, TaskSafe;
    if pc.Holding? || pc.Verifying? {
      CheckersWarned(s, size, stale, t, i);
    } else {
      OthersDoNotCheck(s, stale, t, i);
    }
  }

  lemma CheckersWarned(s: State, size: Digest -> nat, stale: Time, t: TaskId, i: Input)
    requires t in s.tasks && TaskWarned(s.world.db, s.tasks[t].pc) && PinnedChecksRead(s, Run(t, i))
    requires var pc := s.tasks[t].pc;
      && (pc.Holding? ==> pc.held.content.byteLength == size(pc.held.content.digest))
      && (pc.Verifying? ==> pc.content.byteLength == size(pc.content.digest))
      && (pc.Holding? || pc.Verifying?)
    requires var d := Checked(s.tasks[t].pc); d.Some? && !Good(s.world, size, d.value) ==> !Pinned(s.world.db, d.value)
    ensures var move := MoveOf(s, stale, t, i);
      InQuarantine(move.pc) && !(move.pc.Verifying? && move.pc.check.MoveAside?) ==>
        move.world.db == s.world.db && TaskWarned(s.world.db, move.pc)
  {
    hide Pinned, SettleOwned, Quarantine, Available;
  }

  lemma OthersDoNotCheck(s: State, stale: Time, t: TaskId, i: Input)
    requires t in s.tasks && !s.tasks[t].pc.Holding? && !s.tasks[t].pc.Verifying?
    ensures !InQuarantine(MoveOf(s, stale, t, i).pc)
  {
    hide TouchStage, ClaimPublication, InsertLease, ForgetStage, SettleRepaired, DropPublication, ForgetStageOf,
         FinishDeletion, Available, AdoptRepair, MarkGarbage;
  }

  /** No action outside the calls pins what was not pinned. */
  lemma NoNewPins(s: State, stale: Time, a: Action, d: Digest)
    requires Enabled(s, a) && !a.Run? && Pinned(Apply(s, stale, a).world.db, d)
    ensures Pinned(s.world.db, d)
  {
    hide MoveOf, MaySpawn, CoordinateTaken, Available;
    var db, db' := s.world.db, Apply(s, stale, a).world.db;
    if Anchored(db', d) {
      var x :| x in db'.anchors && db'.anchors[x].digest == d;
      if a.Anchoring? && x !in db.anchors { assert a.lease in db.leases && db.leases[a.lease].digest == d; }
      if a.Cloning? && x !in db.anchors { assert a.source in db.anchors && db.anchors[a.source].digest == d; }
    } else {
      var l :| l in db'.leases && db'.leases[l].digest == d;
      assert l in db.leases && db.leases[l].digest == d;
    }
  }

  lemma WarnedStep(s: State, size: Digest -> nat, stale: Time, a: Action)
    requires Safe(s, size) && Warned(s) && Enabled(s, a) && QuarantineIsAtomic(s, a) && PinnedChecksRead(s, a)
    ensures Warned(Apply(s, stale, a))
  {
    var s' := Apply(s, stale, a);
    if a.Run? {
      RunWarned(s, size, stale, a.task, a.input);
      hide Safe, Pinned, MoveOf, PinnedChecksRead;
    } else {
      forall t | t in s'.tasks ensures TaskWarned(s'.world.db, s'.tasks[t].pc) {
        if t in s.tasks && s'.tasks[t] == s.tasks[t] {
          StillWarned(s, stale, a, s.tasks[t].pc);
        } else {
          NewIsCalm(s, stale, a, t);
        }
      }
    }
  }

  lemma StillWarned(s: State, stale: Time, a: Action, pc: PC)
    requires Enabled(s, a) && !a.Run? && TaskWarned(s.world.db, pc)
    ensures TaskWarned(Apply(s, stale, a).world.db, pc)
  {
    var db' := Apply(s, stale, a).world.db;
    forall d | Pinned(db', d) ensures Pinned(s.world.db, d) { NoNewPins(s, stale, a, d); }
    hide Apply, Enabled, Pinned;
  }

  lemma NewIsCalm(s: State, stale: Time, a: Action, t: TaskId)
    requires Enabled(s, a) && !a.Run? && t in Apply(s, stale, a).tasks && !(t in s.tasks && Apply(s, stale, a).tasks[t] == s.tasks[t])
    ensures !InQuarantine(Apply(s, stale, a).tasks[t].pc)
  {
    hide MoveOf;
  }

  // ----- Theorems -----

  /** Within H0 to H3 everything is safe as long as no step quarantines what a pin names. */
  lemma {:induction false} ScheduledRunsAreSafe(run: Trace, size: Digest -> nat, stale: Time, n: nat)
    requires IsRun(run, stale) && Scheduled(run, size) && n < |run.states|
    requires forall m :: 0 <= m < n ==> SparesPins(run.states[m], run.actions[m])
    ensures Safe(run.states[n], size)
  {
    if n == 0 {
      assert Start.tasks == map[];
    } else {
      ScheduledRunsAreSafe(run, size, stale, n - 1);
      SafeStep(run.states[n - 1], size, stale, run.actions[n - 1]);
    }
  }

  /** Within H6 as well, no step does. */
  lemma {:induction false} DisciplinedRunsAreSafe(run: Trace, size: Digest -> nat, stale: Time, n: nat)
    requires IsRun(run, stale) && Disciplined(run, size) && n < |run.states|
    ensures Safe(run.states[n], size) && Warned(run.states[n])
    ensures n < |run.actions| ==> SparesPins(run.states[n], run.actions[n])
  {
    if n == 0 {
      assert Start.tasks == map[];
    } else {
      DisciplinedRunsAreSafe(run, size, stale, n - 1);
      SafeStep(run.states[n - 1], size, stale, run.actions[n - 1]);
      WarnedStep(run.states[n - 1], size, stale, run.actions[n - 1]);
    }
    hide IsRun, Disciplined, Safe, Pinned;
  }

  /** What `verifyReference` asks of tables and files, both looked at in the same instant. */
  predicate Verifies(w: World, c: Content) {
    Available(w.db, c) && Lookup(w.blobs, c.digest) == Some(c)
  }

  /** Verifying succeeds at once, whichever pin asks. */
  ghost predicate PinsVerify(w: World) {
    && (forall a :: a in w.db.anchors ==> Verifies(w, Content(w.db.anchors[a].digest, w.db.anchors[a].byteLength)))
    && (forall l :: l in w.db.leases ==> Verifies(w, Content(w.db.leases[l].digest, w.db.leases[l].byteLength)))
  }

  lemma StockedVerifies(w: World, size: Digest -> nat)
    requires RowsOk(w.db) && Stocked(w, size)
    ensures PinsVerify(w)
  {
    hide JournalsOk, AnchorsOk;
    forall a | a in w.db.anchors ensures Verifies(w, Content(w.db.anchors[a].digest, w.db.anchors[a].byteLength)) {
      assert Pinnable(w.db, w.db.anchors[a].digest, w.db.anchors[a].byteLength);
      assert IsPublished(w.db, w.db.anchors[a].digest);
      assert Good(w, size, w.db.anchors[a].digest);
    }
    forall l | l in w.db.leases ensures Verifies(w, Content(w.db.leases[l].digest, w.db.leases[l].byteLength)) {
      assert Pinnable(w.db, w.db.leases[l].digest, w.db.leases[l].byteLength);
      assert IsPublished(w.db, w.db.leases[l].digest);
      assert Good(w, size, w.db.leases[l].digest);
    }
  }

  lemma SafeVerifies(s: State, size: Digest -> nat)
    requires Safe(s, size)
    ensures RowsOk(s.world.db) && Stocked(s.world, size) && PinsVerify(s.world)
  {
    hide RowsOk, Stocked;
    StockedVerifies(s.world, size);
  }

  /** In every instant of every disciplined run a published row has its own bytes under its digest, and
      a pinned revision is published: verifying it succeeds at once, whichever pin asks. */
  lemma PinSafety(run: Trace, size: Digest -> nat, stale: Time, n: nat, d: Digest)
    requires IsRun(run, stale) && Disciplined(run, size) && n < |run.states|
    ensures var w := run.states[n].world;
            && (IsPublished(w.db, d) ==> Lookup(w.blobs, d) == Some(Content(d, w.db.revisions[d].byteLength)))
            && (Pinned(w.db, d) ==> IsPublished(w.db, d))
    ensures PinsVerify(run.states[n].world)
  {
    DisciplinedRunsAreSafe(run, size, stale, n);
    SafeVerifies(run.states[n], size);
    hide IsRun, Disciplined, Safe, RowsOk;
  }

  /** A quarantine costs a pin exactly when a pin names its digest. */
  lemma QuarantineCosts(w: World, size: Digest -> nat, d: Digest, now: Time)
    requires RowsOk(w.db) && Stocked(w, size)
    ensures PinsVerify(w.(db := Quarantine(w.db, d, now))) <==> !Pinned(w.db, d)
  {
    var w' := w.(db := Quarantine(w.db, d, now));
    if Pinned(w.db, d) {
      PinnedIsLost(w, d, now);
    } else {
      StockedVerifies(w, size);
      hide RowsOk, Stocked;
      forall a | a in w'.db.anchors ensures Verifies(w', Content(w'.db.anchors[a].digest, w'.db.anchors[a].byteLength)) {
        assert Verifies(w, Content(w.db.anchors[a].digest, w.db.anchors[a].byteLength)) && w.db.anchors[a].digest != d;
      }
      forall l | l in w'.db.leases ensures Verifies(w', Content(w'.db.leases[l].digest, w'.db.leases[l].byteLength)) {
        assert Verifies(w, Content(w.db.leases[l].digest, w.db.leases[l].byteLength)) && w.db.leases[l].digest != d;
      }
    }
  }

  lemma PinnedIsLost(w: World, d: Digest, now: Time)
    requires RowsOk(w.db) && Pinned(w.db, d)
    ensures !PinsVerify(w.(db := Quarantine(w.db, d, now)))
  {
    var w' := w.(db := Quarantine(w.db, d, now));
    if Anchored(w.db, d) {
      var a :| a in w.db.anchors && w.db.anchors[a].digest == d;
      assert Pinnable(w.db, d, w.db.anchors[a].byteLength);
      assert a in w'.db.anchors && !Verifies(w', Content(w'.db.anchors[a].digest, w'.db.anchors[a].byteLength));
    } else {
      var l :| l in w.db.leases && w.db.leases[l].digest == d;
      assert Pinnable(w.db, d, w.db.leases[l].byteLength);
      assert l in w'.db.leases && !Verifies(w', Content(w'.db.leases[l].digest, w'.db.leases[l].byteLength));
    }
  }

  /** A digest check that throws, and the steps up to its quarantine: they cost a pin exactly when a pin names the digest,
      whether or not the bytes are right. */
  lemma ThrowingCheckCosts(s: State, size: Digest -> nat, stale: Time, t: TaskId, thrown: Input, i: Input)
    requires Safe(s, size) && t in s.tasks && Checked(s.tasks[t].pc).Some? && !thrown.ok && i.ok
    ensures var s1 := Apply(s, stale, Run(t, thrown));
      var s2 := if s.tasks[t].pc.Holding? then Apply(s1, stale, Run(t, i)) else s1;
      PinsVerify(Apply(s2, stale, Run(t, i)).world) <==> !Pinned(s.world.db, Checked(s.tasks[t].pc).value)
  {
    SafeVerifies(s, size);
    var w, d := s.world, Checked(s.tasks[t].pc).value;
    QuarantineCosts(w, size, d, s.now);
    ThrownThenQuarantined(s, stale, t, thrown, i);
    hide *;
    var s1 := Apply(s, stale, Run(t, thrown));
    var s2 := if s.tasks[t].pc.Holding? then Apply(s1, stale, Run(t, i)) else s1;
    SamePins(Apply(s2, stale, Run(t, i)).world, w.(db := Quarantine(w.db, d, s.now)));
  }

  lemma ThrownThenQuarantined(s: State, stale: Time, t: TaskId, thrown: Input, i: Input)
    requires t in s.tasks && Checked(s.tasks[t].pc).Some? && !thrown.ok && i.ok
    ensures var s1 := Apply(s, stale, Run(t, thrown));
      && t in s1.tasks && !IsDone(s1.tasks[t].pc)
      && var s2 := if s.tasks[t].pc.Holding? then Apply(s1, stale, Run(t, i)) else s1;
      && t in s2.tasks && !IsDone(s2.tasks[t].pc)
      && var after := Apply(s2, stale, Run(t, i)).world;
      after.db == Quarantine(s.world.db, Checked(s.tasks[t].pc).value, s.now) && after.blobs == s.world.blobs
  {
    hide Quarantine, AdmitMove, RepairMove, SweepMove, CollectMove;
  }

  lemma SamePins(w: World, w': World)
    requires w.db == w'.db && w.blobs == w'.blobs
    ensures PinsVerify(w) <==> PinsVerify(w')
  {
    assert forall c :: Verifies(w, c) <==> Verifies(w', c);
  }

  /** Within H0 to H3 the pins verify at every instant if and only if no step quarantines what a pin names. */
  lemma PinsHoldExactly(run: Trace, size: Digest -> nat, stale: Time)
    requires IsRun(run, stale) && Scheduled(run, size)
    ensures (forall n :: 0 <= n < |run.states| ==> PinsVerify(run.states[n].world)) <==>
            forall n :: 0 <= n < |run.actions| ==> SparesPins(run.states[n], run.actions[n])
  {
    if forall n :: 0 <= n < |run.actions| ==> SparesPins(run.states[n], run.actions[n]) {
      forall n | 0 <= n < |run.states| ensures PinsVerify(run.states[n].world) {
        ScheduledRunsAreSafe(run, size, stale, n);
        SafeVerifies(run.states[n], size);
      }
    } else {
      var n :| 0 <= n < |run.actions| && !SparesPins(run.states[n], run.actions[n]);
      RunInvariant(run, stale, n);
      var s, a := run.states[n], run.actions[n];
      assert RowsOk(s.world.db);
      PinnedIsLost(s.world, s.tasks[a.task].pc.content.digest, s.now);
      QuarantineRuns(s, stale, a.task, a.input);
      assert run.states[n + 1] == Apply(s, stale, a);
    }
  }

  lemma QuarantineRuns(s: State, stale: Time, t: TaskId, i: Input)
    requires t in s.tasks && s.tasks[t].pc.Verifying? && s.tasks[t].pc.check.QuarantineRow? && i.ok
    ensures Apply(s, stale, Run(t, i)).world == s.world.(db := Quarantine(s.world.db, s.tasks[t].pc.content.digest, s.now))
  {
  }
}
