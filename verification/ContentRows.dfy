/** The row state machine: what every run of transaction bodies keeps, with no hypothesis about who
    runs them, in which order, or with which arguments. */
module ContentRows {
  import opened Collections
  import opened ContentDatabase

  datatype Body =
    | BeginStageBody(stage: StageId, pid: Pid, stageToken: Token, now: Time)
    | TouchStageBody(stage: StageId, pid: Pid, stageToken: Token, now: Time)
    | ForgetStageBody(stage: StageId, stageToken: Token)
    | ForgetStageOfBody(stage: StageId, pid: Pid, stageToken: Token)
    | ClaimBody(content: Content, stage: StageId, stageToken: Token, pid: Pid, token: Token, now: Time)
    | SettleOwnedBody(content: Content, token: Token, lease: LeaseId, expiresAt: Time, now: Time)
    | AdoptBody(digest: Digest, expected: Token, pid: Pid, token: Token, now: Time)
    | SettleRepairedBody(digest: Digest, token: Token, now: Time)
    | DropPublicationBody(digest: Digest, token: Token)
    | FinishDeletionBody(digest: Digest)
    | InsertLeaseBody(lease: LeaseId, content: Content, expiresAt: Time, now: Time)
    | ReleaseLeaseBody(lease: LeaseId)
    | CreateAnchorBody(lease: LeaseId, anchor: AnchorId, namespace: string, recordKey: string, now: Time)
    | CloneAnchorBody(source: AnchorId, anchor: AnchorId, namespace: string, recordKey: string, now: Time)
    | ReleaseAnchorBody(anchor: AnchorId, now: Time)
    | QuarantineBody(digest: Digest, now: Time)
    | MarkGarbageBody(now: Time)

  function Execute(db: Db, body: Body): Db {
    match body
    case BeginStageBody(s, p, k, n) => After(BeginStage(db, s, p, k, n), db)
    case TouchStageBody(s, p, k, n) => After(TouchStage(db, s, p, k, n), db)
    case ForgetStageBody(s, k) => ForgetStage(db, s, k)
    case ForgetStageOfBody(s, p, k) => ForgetStageOf(db, s, p, k)
    case ClaimBody(c, s, k, p, t, n) => After(ClaimPublication(db, c, s, k, p, t, n), db)
    case SettleOwnedBody(c, t, l, e, n) => After(SettleOwned(db, c, t, l, e, n), db)
    case AdoptBody(d, x, p, t, n) => After(AdoptRepair(db, d, x, p, t, n), db)
    case SettleRepairedBody(d, t, n) => SettleRepaired(db, d, t, n)
    case DropPublicationBody(d, t) => After(DropPublication(db, d, t), db)
    case FinishDeletionBody(d) => After(FinishDeletion(db, d), db)
    case InsertLeaseBody(l, c, e, n) => After(InsertLease(db, l, c, e, n), db)
    case ReleaseLeaseBody(l) => After(ReleaseLease(db, l), db)
    case CreateAnchorBody(l, a, s, k, n) => After(CreateAnchor(db, l, a, s, k, n), db)
    case CloneAnchorBody(x, a, s, k, n) => After(CloneAnchor(db, x, a, s, k, n), db)
    case ReleaseAnchorBody(a, n) => After(ReleaseAnchor(db, a, n), db)
    case QuarantineBody(d, n) => Quarantine(db, d, n)
    case MarkGarbageBody(n) => After(MarkGarbage(db, n), db)
  }

  // ----- The row invariant -----

  /** A pin names an existing row, published or quarantined, of the pin's own length. */
  predicate Pinnable(db: Db, digest: Digest, byteLength: nat) {
    && digest in db.revisions
    && (db.revisions[digest].state.Published? || db.revisions[digest].state.Quarantined?)
    && db.revisions[digest].byteLength == byteLength
  }

  ghost predicate PinsOk(db: Db) {
    && (forall a :: a in db.anchors ==> Pinnable(db, db.anchors[a].digest, db.anchors[a].byteLength))
    && (forall l :: l in db.leases ==> Pinnable(db, db.leases[l].digest, db.leases[l].byteLength))
  }

  ghost predicate JournalsOk(db: Db) {
    && (forall d :: d in db.publications ==>
          d in db.revisions && db.revisions[d].state.Publishing?
          && db.revisions[d].byteLength == db.publications[d].byteLength)
    && (forall d :: d in db.deletions ==>
          d in db.revisions && (db.revisions[d].state.Deleting? || db.revisions[d].state.Quarantined?))
    && (forall d :: d in db.revisions && db.revisions[d].state.Deleting? ==> d in db.deletions)
    && (forall d :: d in db.revisions ==> (db.revisions[d].owner.Some? <==> db.revisions[d].state.Publishing?))
  }

  predicate SameCoordinate(x: Anchor, y: Anchor) {
    x.namespace == y.namespace && x.recordKey == y.recordKey
  }

  ghost predicate AnchorsOk(db: Db) {
    && db.anchors.Keys !! db.retired.Keys
    && (forall a, b :: a in db.anchors && b in db.anchors && a != b ==> !SameCoordinate(db.anchors[a], db.anchors[b]))
  }

  ghost predicate RowsOk(db: Db) {
    PinsOk(db) && JournalsOk(db) && AnchorsOk(db)
  }

  // ----- Which moves a body may make -----

  /** The transition diagram of a revision row. */
  predicate StateMove(before: RevisionState, after: RevisionState) {
    match before
    case Publishing => !after.Deleting?
    case Published => !after.Publishing?
    case Deleting => after.Deleting? || after.Quarantined?
    case Quarantined => after.Quarantined?
  }

  ghost predicate RowMoves(db: Db, db': Db) {
    && (forall d :: d in db.revisions && d in db'.revisions ==>
          && db'.revisions[d].byteLength == db.revisions[d].byteLength
          && StateMove(db.revisions[d].state, db'.revisions[d].state))
    && (forall d :: d in db.revisions && d !in db'.revisions ==>
          db.revisions[d].state.Publishing? || db.revisions[d].state.Deleting?)
    && (forall d :: d in db'.revisions && d !in db.revisions ==> db'.revisions[d].state.Publishing?)
  }

  ghost predicate AnchorMoves(db: Db, db': Db) {
    && (forall a :: a in db.anchors && a in db'.anchors ==> db'.anchors[a] == db.anchors[a])
    && (forall a :: a in db.anchors && a !in db'.anchors ==> a in db'.retired)
    && (forall a :: a in db'.anchors && a !in db.anchors ==> a !in db.retired)
    && db.retired.Keys <= db'.retired.Keys
  }

  /** How a lease row may go: released, collected once expired, or handed over to an anchor that the
      same transaction inserts for the same digest and length. */
  ghost predicate LeaseMove(db: Db, body: Body, lease: LeaseId)
    requires lease in db.leases
  {
    var db' := Execute(db, body);
    || (lease in db'.leases && db'.leases[lease] == db.leases[lease])
    || body == ReleaseLeaseBody(lease)
    || (body.MarkGarbageBody? && db.leases[lease].expiresAt <= body.now)
    || (body.CreateAnchorBody? && body.lease == lease && body.anchor in db'.anchors
        && db'.anchors[body.anchor].digest == db.leases[lease].digest
        && db'.anchors[body.anchor].byteLength == db.leases[lease].byteLength)
  }

  ghost predicate Step(db: Db, db': Db) {
    RowsOk(db') && RowMoves(db, db') && AnchorMoves(db, db')
  }

  // ----- One lemma per body -----

  lemma StageSteps(db: Db, staging: map<StageId, Stage>)
    requires RowsOk(db)
    ensures Step(db, db.(staging := staging))
  {
  }

  lemma DeleteSteps(db: Db, digest: Digest)
    requires RowsOk(db)
    requires digest in db.revisions && (db.revisions[digest].state.Deleting? || db.revisions[digest].state.Publishing?)
    ensures DeleteRevision(db, digest).Commit?
    ensures Step(db, DeleteRevision(db, digest).db)
    ensures DeleteRevision(db, digest).db.leases == db.leases
  {
    forall a | a in db.anchors ensures db.anchors[a].digest != digest {
      assert Pinnable(db, db.anchors[a].digest, db.anchors[a].byteLength);
    }
    forall l | l in db.leases ensures db.leases[l].digest != digest {
      assert Pinnable(db, db.leases[l].digest, db.leases[l].byteLength);
    }
    assert (map l | l in db.leases && db.leases[l].digest != digest :: db.leases[l]) == db.leases;
  }

  lemma FinishDeletionSteps(db: Db, digest: Digest)
    requires RowsOk(db)
    ensures FinishDeletion(db, digest).Commit? && Step(db, FinishDeletion(db, digest).db)
  {
    if digest in db.revisions && db.revisions[digest].state.Deleting? {
      DeleteSteps(db, digest);
    }
  }

  lemma DropSteps(db: Db, digest: Digest, token: Token)
    requires RowsOk(db)
    ensures DropPublication(db, digest, token).Commit? && Step(db, DropPublication(db, digest, token).db)
  {
    if PublishingUnder(db, digest, token) {
      DeleteSteps(db, digest);
    }
  }

  lemma SettleSteps(db: Db, digest: Digest, now: Time)
    requires RowsOk(db) && digest in db.revisions && db.revisions[digest].state.Publishing?
    ensures Step(db, Settled(db, digest, now))
  {
    var db' := Settled(db, digest, now);
    assert PinsOk(db');
    assert JournalsOk(db');
  }

  lemma SettleRepairedSteps(db: Db, digest: Digest, token: Token, now: Time)
    requires RowsOk(db)
    ensures Step(db, SettleRepaired(db, digest, token, now))
  {
    if PublishingUnder(db, digest, token) {
      SettleSteps(db, digest, now);
    }
  }

  lemma AddLeaseSteps(db: Db, lease: LeaseId, content: Content, expiresAt: Time, now: Time)
    requires RowsOk(db) && Pinnable(db, content.digest, content.byteLength)
    ensures Step(db, AddLease(db, lease, content, expiresAt, now))
  {
  }

  lemma SettleOwnedSteps(db: Db, content: Content, token: Token, lease: LeaseId, expiresAt: Time, now: Time)
    requires RowsOk(db)
    requires PublishingUnder(db, content.digest, token) ==> db.revisions[content.digest].byteLength == content.byteLength
    ensures Step(db, After(SettleOwned(db, content, token, lease, expiresAt, now), db))
  {
    if PublishingUnder(db, content.digest, token) {
      SettleSteps(db, content.digest, now);
      AddLeaseSteps(Settled(db, content.digest, now), lease, content, expiresAt, now);
    }
  }

  lemma NewRowSteps(db: Db, digest: Digest, row: Revision, journal: Publication, staging: map<StageId, Stage>)
    requires RowsOk(db) && digest !in db.revisions
    requires row.state.Publishing? && row.owner.Some? && journal.byteLength == row.byteLength
    ensures var db' := db.(revisions := db.revisions[digest := row], publications := db.publications[digest := journal],
                           staging := staging);
            Step(db, db')
  {
    var db' := db.(revisions := db.revisions[digest := row], publications := db.publications[digest := journal],
                   staging := staging);
    assert PinsOk(db');
    assert JournalsOk(db');
  }

  lemma ClaimSteps(db: Db, content: Content, stage: StageId, stageToken: Token, pid: Pid, token: Token, now: Time)
    requires RowsOk(db)
    ensures Step(db, After(ClaimPublication(db, content, stage, stageToken, pid, token, now), db))
  {
    StageSteps(db, db.staging);
    hide RowsOk, Step;
    var txn := ClaimPublication(db, content, stage, stageToken, pid, token, now);
    if txn.Commit? && txn.value.Owned? {
      NewRowSteps(db, content.digest, txn.db.revisions[content.digest], txn.db.publications[content.digest], txn.db.staging);
    } else {
      assert After(txn, db) == db.(staging := db.staging);
    }
  }

  lemma AdoptSteps(db: Db, digest: Digest, expected: Token, pid: Pid, token: Token, now: Time)
    requires RowsOk(db)
    ensures Step(db, After(AdoptRepair(db, digest, expected, pid, token, now), db))
  {
    if PublishingUnder(db, digest, expected) {
      var db' := After(AdoptRepair(db, digest, expected, pid, token, now), db);
      assert PinsOk(db');
      assert JournalsOk(db');
    }
  }

  lemma QuarantineSteps(db: Db, digest: Digest, now: Time)
    requires RowsOk(db)
    ensures Step(db, Quarantine(db, digest, now))
  {
    var db' := Quarantine(db, digest, now);
    assert PinsOk(db');
    assert JournalsOk(db');
  }

  lemma InsertLeaseSteps(db: Db, lease: LeaseId, content: Content, expiresAt: Time, now: Time)
    requires RowsOk(db)
    ensures Step(db, After(InsertLease(db, lease, content, expiresAt, now), db))
  {
    if Available(db, content) {
      AddLeaseSteps(db, lease, content, expiresAt, now);
    }
  }

  lemma ReleaseLeaseSteps(db: Db, lease: LeaseId)
    requires RowsOk(db)
    ensures Step(db, After(ReleaseLease(db, lease), db))
  {
  }

  lemma AnchorSteps(db: Db, anchor: AnchorId, row: Anchor, leases: map<LeaseId, Lease>)
    requires RowsOk(db) && Pinnable(db, row.digest, row.byteLength)
    requires anchor !in db.anchors && anchor !in db.retired && !CoordinateTaken(db, row.namespace, row.recordKey)
    requires forall l :: l in leases ==> l in db.leases && leases[l] == db.leases[l]
    ensures Step(db, db.(anchors := db.anchors[anchor := row], leases := leases))
  {
    assert forall a :: a in db.anchors ==> !SameCoordinate(db.anchors[a], row);
  }

  lemma CreateAnchorSteps(db: Db, lease: LeaseId, anchor: AnchorId, namespace: string, recordKey: string, createdAt: Time)
    requires RowsOk(db)
    ensures Step(db, After(CreateAnchor(db, lease, anchor, namespace, recordKey, createdAt), db))
  {
    if CreateAnchor(db, lease, anchor, namespace, recordKey, createdAt).Commit? {
      var row := Anchor(namespace, recordKey, db.leases[lease].digest, db.leases[lease].byteLength, createdAt);
      AnchorSteps(db, anchor, row, db.leases - {lease});
    }
  }

  lemma CloneAnchorSteps(db: Db, source: AnchorId, anchor: AnchorId, namespace: string, recordKey: string, createdAt: Time)
    requires RowsOk(db)
    ensures Step(db, After(CloneAnchor(db, source, anchor, namespace, recordKey, createdAt), db))
  {
    if CloneAnchor(db, source, anchor, namespace, recordKey, createdAt).Commit? {
      var row := Anchor(namespace, recordKey, db.anchors[source].digest, db.anchors[source].byteLength, createdAt);
      AnchorSteps(db, anchor, row, db.leases);
      assert db.(anchors := db.anchors[anchor := row], leases := db.leases) == db.(anchors := db.anchors[anchor := row]);
    }
  }

  lemma ReleaseAnchorSteps(db: Db, anchor: AnchorId, now: Time)
    requires RowsOk(db)
    ensures Step(db, After(ReleaseAnchor(db, anchor, now), db))
  {
    if anchor in db.anchors {
      var after := db.(anchors := db.anchors - {anchor}, retired := db.retired[anchor := now]);
      assert ReleaseAnchor(db, anchor, now) == Commit(after, true);
      hide ReleaseAnchor;
      SamePinsOk(db, after);
      hide PinsOk, Pinnable;
      assert JournalsOk(after);
    }
  }

  lemma SamePinsOk(db: Db, after: Db)
    requires PinsOk(db) && after.revisions == db.revisions && after.leases == db.leases
    requires forall a :: a in after.anchors ==> a in db.anchors && after.anchors[a] == db.anchors[a]
    ensures PinsOk(after)
  {
  }

  /** The collector selects exactly the published rows without an anchor and without an unexpired lease, and no pin
      that survives the purge names one of them. */
  lemma CollectedRowsAreUnpinned(db: Db, now: Time)
    ensures var purged := PurgeLeases(db, now);
            && (forall l :: l in purged.leases ==> purged.leases[l].digest !in Collectable(purged, now))
            && (forall a :: a in db.anchors ==> db.anchors[a].digest !in Collectable(purged, now))
            && (forall d :: d in Collectable(purged, now) <==>
                  d in db.revisions && db.revisions[d].state.Published? && !Anchored(db, d) && !LeasedAfter(db, d, now))
  {
    var purged := PurgeLeases(db, now);
    var garbage := Collectable(purged, now);
    assert forall d :: Anchored(purged, d) <==> Anchored(db, d);
    forall d ensures LeasedAfter(purged, d, now) <==> LeasedAfter(db, d, now) {
      assert forall l :: l in db.leases && db.leases[l].expiresAt > now <==> l in purged.leases;
    }
    forall l | l in purged.leases ensures purged.leases[l].digest !in garbage {
      assert LeasedAfter(purged, purged.leases[l].digest, now);
    }
    forall a | a in db.anchors ensures db.anchors[a].digest !in garbage {
      assert Anchored(purged, db.anchors[a].digest);
    }
  }

  /** What a claim can find, read off the row: it is leased when published, waited for when being published, and refused when
      being deleted, quarantined or of another length. Without a row the claim is made, if the stage is still held by its
      token. With the row invariant the key of the journal is never violated. */
  lemma ClaimOutcomes(db: Db, content: Content, stage: StageId, stageToken: Token, pid: Pid, token: Token, now: Time)
    requires RowsOk(db)
    ensures var txn, row, held := ClaimPublication(db, content, stage, stageToken, pid, token, now),
                                  Lookup(db.revisions, content.digest),
                                  stage in db.staging && db.staging[stage].token == stageToken;
            if row.None? then
              if held then txn == Commit(db.(
                revisions := db.revisions[content.digest := Revision(content.byteLength, Publishing, Some(Owner(pid, token)), now)],
                publications := db.publications[content.digest := Publication(content.byteLength, Owner(pid, token), stage, now)],
                staging := db.staging - {stage}), Owned)
              else txn == Rollback(Unavailable)
            else if row.value.byteLength != content.byteLength then txn == Rollback(IntegrityError)
            else match row.value.state
              case Published => txn == Commit(db, AlreadyPublished)
              case Publishing => txn == Commit(db, Waiting)
              case Deleting => txn == Rollback(NotFound)
              case Quarantined => txn == Rollback(QuarantinedError)
  {
    assert content.digest in db.publications ==> content.digest in db.revisions;
  }

  predicate IsQuarantined(db: Db, digest: Digest) {
    digest in db.revisions && db.revisions[digest].state.Quarantined?
  }

  predicate Unused(db: Db, anchor: AnchorId, namespace: string, recordKey: string) {
    anchor !in db.anchors && anchor !in db.retired && !CoordinateTaken(db, namespace, recordKey)
  }

  predicate IsLive(db: Db, lease: LeaseId, at: Time) {
    lease in db.leases && db.leases[lease].expiresAt > at
  }

  /** Why an anchor is not made from a lease, in the order in which the reasons are looked for. */
  predicate IsAnchorRefusal(db: Db, lease: LeaseId, anchor: AnchorId, namespace: string, recordKey: string, at: Time, error: Error) {
    if anchor in db.anchors || anchor in db.retired then error == Unavailable
    else if lease !in db.leases || db.leases[lease].expiresAt <= at then error == NotFound
    else if IsQuarantined(db, db.leases[lease].digest) then error == QuarantinedError
    else error == ConstraintError && CoordinateTaken(db, namespace, recordKey)
  }

  predicate IsCloneRefusal(db: Db, source: AnchorId, anchor: AnchorId, namespace: string, recordKey: string, error: Error) {
    if anchor in db.anchors || anchor in db.retired then error == Unavailable
    else if source !in db.anchors then error == NotFound
    else if IsQuarantined(db, db.anchors[source].digest) then error == QuarantinedError
    else error == ConstraintError && CoordinateTaken(db, namespace, recordKey)
  }

  /** A lease can be turned into an anchor until it expires: the only other refusals are a used anchor id, a taken
      coordinate and a quarantined row. The lease is spent, and the anchor holds what it held. */
  lemma AnchorTakesLease(db: Db, lease: LeaseId, anchor: AnchorId, namespace: string, recordKey: string, at: Time)
    requires RowsOk(db)
    ensures CreateAnchor(db, lease, anchor, namespace, recordKey, at).Commit? <==>
      Unused(db, anchor, namespace, recordKey) && IsLive(db, lease, at) && !IsQuarantined(db, db.leases[lease].digest)
    ensures var txn := CreateAnchor(db, lease, anchor, namespace, recordKey, at);
      txn.Commit? ==>
        var held := db.leases[lease];
        txn == Commit(db.(anchors := db.anchors[anchor := Anchor(namespace, recordKey, held.digest, held.byteLength, at)],
                          leases := db.leases - {lease}), held.byteLength)
    ensures var txn := CreateAnchor(db, lease, anchor, namespace, recordKey, at);
      txn.Rollback? ==> IsAnchorRefusal(db, lease, anchor, namespace, recordKey, at, txn.error)
  {
    if lease in db.leases { assert Pinnable(db, db.leases[lease].digest, db.leases[lease].byteLength); }
  }

  /** An anchor can be cloned unless its row is quarantined, and the clone holds the same revision at another place. */
  lemma CloneHoldsTheSame(db: Db, source: AnchorId, anchor: AnchorId, namespace: string, recordKey: string, at: Time)
    requires RowsOk(db)
    ensures CloneAnchor(db, source, anchor, namespace, recordKey, at).Commit? <==>
      Unused(db, anchor, namespace, recordKey) && source in db.anchors && !IsQuarantined(db, db.anchors[source].digest)
    ensures var txn := CloneAnchor(db, source, anchor, namespace, recordKey, at);
      txn.Commit? ==>
        var held := db.anchors[source];
        && txn == Commit(db.(anchors := db.anchors[anchor := Anchor(namespace, recordKey, held.digest, held.byteLength, at)]), held.byteLength)
        && !SameCoordinate(txn.db.anchors[anchor], held)
    ensures var txn := CloneAnchor(db, source, anchor, namespace, recordKey, at);
      txn.Rollback? ==> IsCloneRefusal(db, source, anchor, namespace, recordKey, txn.error)
  {
    if source in db.anchors { assert Pinnable(db, db.anchors[source].digest, db.anchors[source].byteLength); }
  }

  // ----- What a pin does to collection -----

  /** A collection at that time would mark the revision. */
  predicate Takes(db: Db, d: Digest, at: Time) {
    d in Collectable(PurgeLeases(db, at), at)
  }

  lemma TakesUnpinned(db: Db, d: Digest, at: Time)
    ensures Takes(db, d, at) <==>
      d in db.revisions && db.revisions[d].state.Published? && !Anchored(db, d) && !LeasedAfter(db, d, at)
  {
    CollectedRowsAreUnpinned(db, at);
  }

  /** From one state to the other collection spares one revision up to a time, and takes all others as before. */
  ghost predicate SparesUntil(db: Db, after: Db, digest: Digest, until: Time) {
    forall d, at {:trigger Takes(after, d, at)} {:trigger Takes(db, d, at)} ::
      Takes(after, d, at) <==> Takes(db, d, at) && !(d == digest && at < until)
  }

  ghost predicate SparesAlways(db: Db, after: Db, digest: Digest) {
    forall d, at {:trigger Takes(after, d, at)} {:trigger Takes(db, d, at)} ::
      Takes(after, d, at) <==> Takes(db, d, at) && d != digest
  }

  /** Published with a lease: collection leaves the revision alone until the lease expires, and takes it from then on. */
  ghost predicate TakesFrom(db: Db, after: Db, digest: Digest, from: Time) {
    forall d, at {:trigger Takes(after, d, at)} {:trigger Takes(db, d, at)} ::
      Takes(after, d, at) <==> Takes(db, d, at) || (d == digest && at >= from)
  }

  /** Without one of its anchors a revision is taken when no other pin holds it. */
  ghost predicate LetsGo(db: Db, after: Db, anchor: AnchorId)
    requires anchor in db.anchors
  {
    forall d, at {:trigger Takes(after, d, at)} {:trigger Takes(db, d, at)} ::
      Takes(after, d, at) <==> Takes(db, d, at) || OnlyPin(db, anchor, d, at)
  }

  /** The revision is published, the anchor holds it, and nothing else does at that time. */
  predicate OnlyPin(db: Db, anchor: AnchorId, d: Digest, at: Time)
    requires anchor in db.anchors
  {
    && d == db.anchors[anchor].digest && d in db.revisions && db.revisions[d].state.Published? && !LeasedAfter(db, d, at)
    && forall other :: other in db.anchors && db.anchors[other].digest == d ==> other == anchor
  }

  lemma LeaseSpares(db: Db, lease: LeaseId, content: Content, expiresAt: Time, now: Time)
    requires InsertLease(db, lease, content, expiresAt, now).Commit?
    ensures SparesUntil(db, InsertLease(db, lease, content, expiresAt, now).db, content.digest, expiresAt)
  {
    var after := InsertLease(db, lease, content, expiresAt, now).db;
    forall d, at ensures Takes(after, d, at) <==> Takes(db, d, at) && !(d == content.digest && at < expiresAt) {
      TakesUnpinned(db, d, at);
      TakesUnpinned(after, d, at);
      MoreLeases(db, after, lease, d, at);
    }
  }

  lemma MoreLeases(db: Db, after: Db, lease: LeaseId, d: Digest, at: Time)
    requires lease !in db.leases && lease in after.leases
    requires forall l :: l in after.leases <==> l == lease || l in db.leases
    requires forall l :: l in db.leases ==> after.leases[l] == db.leases[l]
    ensures LeasedAfter(after, d, at) <==>
      LeasedAfter(db, d, at) || (after.leases[lease].digest == d && after.leases[lease].expiresAt > at)
  {
    if LeasedAfter(db, d, at) {
      var l :| l in db.leases && db.leases[l].digest == d && db.leases[l].expiresAt > at;
      assert l in after.leases;
    }
  }

  lemma SettlingSpares(db: Db, content: Content, token: Token, lease: LeaseId, expiresAt: Time, now: Time)
    requires RowsOk(db) && SettleOwned(db, content, token, lease, expiresAt, now).Commit?
    ensures TakesFrom(db, SettleOwned(db, content, token, lease, expiresAt, now).db, content.digest, expiresAt)
  {
    var after := SettleOwned(db, content, token, lease, expiresAt, now).db;
    forall d, at ensures Takes(after, d, at) <==> Takes(db, d, at) || (d == content.digest && at >= expiresAt) {
      TakesUnpinned(db, d, at);
      TakesUnpinned(after, d, at);
      MoreLeases(db, after, lease, d, at);
      assert Anchored(after, d) <==> Anchored(db, d);
      if d == content.digest { PublishingIsUnpinned(db, d, at); }
    }
  }

  lemma PublishingIsUnpinned(db: Db, d: Digest, at: Time)
    requires RowsOk(db) && d in db.revisions && db.revisions[d].state.Publishing?
    ensures !Anchored(db, d) && !LeasedAfter(db, d, at)
  {
    assert forall a :: a in db.anchors ==> Pinnable(db, db.anchors[a].digest, db.anchors[a].byteLength);
    assert forall l :: l in db.leases ==> Pinnable(db, db.leases[l].digest, db.leases[l].byteLength);
  }

  lemma AnchorSpares(db: Db, lease: LeaseId, anchor: AnchorId, namespace: string, recordKey: string, at: Time)
    requires RowsOk(db) && CreateAnchor(db, lease, anchor, namespace, recordKey, at).Commit?
    ensures lease in db.leases
    ensures SparesAlways(db, CreateAnchor(db, lease, anchor, namespace, recordKey, at).db, db.leases[lease].digest)
  {
    var after, digest := CreateAnchor(db, lease, anchor, namespace, recordKey, at).db, db.leases[lease].digest;
    forall d, t ensures Takes(after, d, t) <==> Takes(db, d, t) && d != digest {
      TakesUnpinned(db, d, t);
      TakesUnpinned(after, d, t);
      assert after.anchors[anchor].digest == digest;
      OneAnchorMore(db, after, anchor, d);
      if d != digest && LeasedAfter(db, d, t) {
        var l :| l in db.leases && db.leases[l].digest == d && db.leases[l].expiresAt > t;
        assert l in after.leases;
      }
    }
  }

  lemma OneAnchorMore(db: Db, after: Db, anchor: AnchorId, d: Digest)
    requires anchor !in db.anchors && anchor in after.anchors
    requires forall a :: a in after.anchors <==> a == anchor || a in db.anchors
    requires forall a :: a in db.anchors ==> after.anchors[a] == db.anchors[a]
    ensures Anchored(after, d) <==> Anchored(db, d) || after.anchors[anchor].digest == d
  {
    if Anchored(db, d) {
      var a :| a in db.anchors && db.anchors[a].digest == d;
      assert a in after.anchors;
    }
  }

  lemma ReleaseLetsGo(db: Db, anchor: AnchorId, now: Time)
    requires RowsOk(db) && anchor in db.anchors
    ensures ReleaseAnchor(db, anchor, now).Commit? && LetsGo(db, ReleaseAnchor(db, anchor, now).db, anchor)
  {
    var after := ReleaseAnchor(db, anchor, now).db;
    forall d, at ensures Takes(after, d, at) <==> Takes(db, d, at) || OnlyPin(db, anchor, d, at) {
      TakesUnpinned(db, d, at);
      TakesUnpinned(after, d, at);
      OneAnchorMore(after, db, anchor, d);
      assert LeasedAfter(after, d, at) <==> LeasedAfter(db, d, at);
      assert Anchored(after, d) <==> exists a :: a in db.anchors && a != anchor && db.anchors[a].digest == d;
    }
  }

  /** The revision is published, the lease holds it at that time, and nothing else does. */
  predicate OnlyLease(db: Db, lease: LeaseId, d: Digest, at: Time)
    requires lease in db.leases
  {
    && d == db.leases[lease].digest && db.leases[lease].expiresAt > at
    && d in db.revisions && db.revisions[d].state.Published? && !Anchored(db, d)
    && forall other :: other in db.leases && db.leases[other].digest == d && db.leases[other].expiresAt > at ==> other == lease
  }

  /** A lease can always be released; its revision is taken earlier exactly where the lease was the only pin. */
  lemma LeaseReleaseLetsGo(db: Db, lease: LeaseId)
    ensures ReleaseLease(db, lease).Commit? && (ReleaseLease(db, lease).value <==> lease in db.leases)
    ensures var after := ReleaseLease(db, lease).db;
      && after == db.(leases := db.leases - {lease})
      && forall d, at {:trigger Takes(after, d, at)} {:trigger Takes(db, d, at)} ::
           Takes(after, d, at) <==> Takes(db, d, at) || (lease in db.leases && OnlyLease(db, lease, d, at))
  {
    var after := ReleaseLease(db, lease).db;
    assert lease !in db.leases ==> db.leases - {lease} == db.leases;
    forall d, at ensures Takes(after, d, at) <==> Takes(db, d, at) || (lease in db.leases && OnlyLease(db, lease, d, at)) {
      TakesUnpinned(db, d, at);
      TakesUnpinned(after, d, at);
      hide Takes;
      assert Anchored(after, d) <==> Anchored(db, d);
      if LeasedAfter(db, d, at) && !LeasedAfter(after, d, at) {
        forall other | other in db.leases && db.leases[other].digest == d && db.leases[other].expiresAt > at ensures other == lease {
          assert other != lease ==> other in after.leases;
        }
      }
      if LeasedAfter(after, d, at) {
        var l :| l in after.leases && after.leases[l].digest == d && after.leases[l].expiresAt > at;
        assert l in db.leases && l != lease;
      }
    }
  }

  lemma MarkSteps(db: Db, now: Time)
    requires RowsOk(db)
    ensures Step(db, After(MarkGarbage(db, now), db))
  {
    var purged := PurgeLeases(db, now);
    var garbage := Collectable(purged, now);
    var db' := MarkAll(purged, garbage, now);
    CollectedRowsAreUnpinned(db, now);
    assert PinsOk(db');
    assert JournalsOk(db');
    assert AnchorsOk(db');
  }

  // ----- Every body -----

  /** `publishOwned` settles with the reference it claimed the row for. */
  ghost predicate Faithful(db: Db, body: Body) {
    body.SettleOwnedBody? && PublishingUnder(db, body.content.digest, body.token) ==>
      db.revisions[body.content.digest].byteLength == body.content.byteLength
  }

  lemma StageBodySteps(db: Db, body: Body)
    requires RowsOk(db)
    requires body.BeginStageBody? || body.TouchStageBody? || body.ForgetStageBody? || body.ForgetStageOfBody?
    ensures Step(db, Execute(db, body))
  {
    hide RowsOk, RowMoves, AnchorMoves, Step;
    StageSteps(db, Execute(db, body).staging);
    assert db.(staging := Execute(db, body).staging) == Execute(db, body);
  }

  /** Every transaction body keeps the row invariant and moves rows only along the diagram. */
  lemma ExecuteSteps(db: Db, body: Body)
    requires RowsOk(db) && Faithful(db, body)
    ensures Step(db, Execute(db, body))
  {
    hide RowsOk, RowMoves, AnchorMoves, Step;
    match body
    case BeginStageBody(s, p, k, n) => StageBodySteps(db, body);
    case TouchStageBody(s, p, k, n) => StageBodySteps(db, body);
    case ForgetStageBody(s, k) => StageBodySteps(db, body);
    case ForgetStageOfBody(s, p, k) => StageBodySteps(db, body);
    case ClaimBody(c, s, k, p, t, n) => ClaimSteps(db, c, s, k, p, t, n);
    case SettleOwnedBody(c, t, l, e, n) => SettleOwnedSteps(db, c, t, l, e, n);
    case AdoptBody(d, x, p, t, n) => AdoptSteps(db, d, x, p, t, n);
    case SettleRepairedBody(d, t, n) => SettleRepairedSteps(db, d, t, n);
    case DropPublicationBody(d, t) => DropSteps(db, d, t);
    case FinishDeletionBody(d) => FinishDeletionSteps(db, d);
    case InsertLeaseBody(l, c, e, n) => InsertLeaseSteps(db, l, c, e, n);
    case ReleaseLeaseBody(l) => ReleaseLeaseSteps(db, l);
    case CreateAnchorBody(l, a, s, k, n) => CreateAnchorSteps(db, l, a, s, k, n);
    case CloneAnchorBody(x, a, s, k, n) => CloneAnchorSteps(db, x, a, s, k, n);
    case ReleaseAnchorBody(a, n) => ReleaseAnchorSteps(db, a, n);
    case QuarantineBody(d, n) => QuarantineSteps(db, d, n);
    case MarkGarbageBody(n) => MarkSteps(db, n);
  }

  lemma DeletionsKeepLeases(db: Db, body: Body)
    requires RowsOk(db)
    requires body.FinishDeletionBody? || body.DropPublicationBody?
    ensures Execute(db, body).leases == db.leases
  {
    hide RowsOk;
    if body.FinishDeletionBody? {
      if body.digest in db.revisions && db.revisions[body.digest].state.Deleting? { DeleteSteps(db, body.digest); }
    } else {
      if PublishingUnder(db, body.digest, body.token) { DeleteSteps(db, body.digest); }
    }
  }

  /** A lease row goes only by release, by expiry, or into the anchor that replaces it. */
  lemma LeasesAreHandedOver(db: Db, body: Body, lease: LeaseId)
    requires RowsOk(db) && lease in db.leases
    ensures LeaseMove(db, body, lease)
  {
    hide RowsOk;
    if body.FinishDeletionBody? || body.DropPublicationBody? {
      DeletionsKeepLeases(db, body);
    }
  }
}
