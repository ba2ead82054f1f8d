/** The tables of the content store and its transaction bodies.

    Every function below is one `BEGIN IMMEDIATE` body of `ContentStore`, as a function from the
    tables it finds to the tables it commits. A body that throws is rolled back, so its result is
    the unchanged database together with the error. Digests, process ids, tokens and the ids of
    stages, leases and anchors are integers: only their equality, and for digests their order, is
    ever observed. */
module ContentDatabase {
  import opened Collections

  type Digest = int
  type Pid = int
  type Token = int
  type StageId = int
  type LeaseId = int
  type AnchorId = int
  type Time = int

  /** What `fileDigest` reports of a file, and what a physical revision reference asks for. */
  datatype Content = Content(digest: Digest, byteLength: nat)

  datatype RevisionState = Publishing | Published | Deleting | Quarantined
  datatype Owner = Owner(pid: Pid, token: Token)

  datatype Revision = Revision(byteLength: nat, state: RevisionState, owner: Option<Owner>, updatedAt: Time)
  datatype Stage = Stage(pid: Pid, token: Token, createdAt: Time, updatedAt: Time)
  datatype Publication = Publication(byteLength: nat, owner: Owner, temp: StageId, claimedAt: Time)
  datatype Lease = Lease(digest: Digest, byteLength: nat, expiresAt: Time, createdAt: Time)
  datatype Anchor = Anchor(namespace: string, recordKey: string, digest: Digest, byteLength: nat, createdAt: Time)
  datatype Deletion = Deletion(byteLength: nat, markedAt: Time)

  datatype Db = Db(
    revisions: map<Digest, Revision>,
    staging: map<StageId, Stage>,
    publications: map<Digest, Publication>,
    leases: map<LeaseId, Lease>,
    anchors: map<AnchorId, Anchor>,
    retired: map<AnchorId, Time>,
    deletions: map<Digest, Deletion>)

  const EmptyDb := Db(map[], map[], map[], map[], map[], map[], map[])

  datatype Error =
    | IntegrityError      // digest length collision
    | NotFound            // lease, anchor or exact revision unavailable
    | QuarantinedError    // exact revision is quarantined
    | Unavailable         // ownership or identity changed
    | ConstraintError     // a key or foreign key of the schema refused the statement

  datatype Txn<+T> = Commit(db: Db, value: T) | Rollback(error: Error)

  /** The tables after the transaction, whichever way it ended. */
  function After<T>(txn: Txn<T>, before: Db): Db {
    if txn.Commit? then txn.db else before
  }

  // ----- Row tests -----

  predicate Available(db: Db, content: Content) {
    && content.digest in db.revisions
    && db.revisions[content.digest].state.Published?
    && db.revisions[content.digest].byteLength == content.byteLength
  }

  predicate PublishingUnder(db: Db, digest: Digest, token: Token) {
    && digest in db.revisions
    && db.revisions[digest].state.Publishing?
    && db.revisions[digest].owner.Some?
    && db.revisions[digest].owner.value.token == token
  }

  predicate CoordinateTaken(db: Db, namespace: string, recordKey: string) {
    exists a :: a in db.anchors && db.anchors[a].namespace == namespace && db.anchors[a].recordKey == recordKey
  }

  predicate Anchored(db: Db, digest: Digest) {
    exists a :: a in db.anchors && db.anchors[a].digest == digest
  }

  predicate Leased(db: Db, digest: Digest) {
    exists l :: l in db.leases && db.leases[l].digest == digest
  }

  predicate LeasedAfter(db: Db, digest: Digest, now: Time) {
    exists l :: l in db.leases && db.leases[l].digest == digest && db.leases[l].expiresAt > now
  }

  function UnavailableReference(db: Db, digest: Digest): Error {
    if digest in db.revisions && db.revisions[digest].state.Quarantined? then QuarantinedError else NotFound
  }

  // ----- Admission staging -----

  function BeginStage(db: Db, stage: StageId, pid: Pid, token: Token, now: Time): Txn<()> {
    if stage in db.staging then Rollback(ConstraintError)
    else Commit(db.(staging := db.staging[stage := Stage(pid, token, now, now)]), ())
  }

  function TouchStage(db: Db, stage: StageId, pid: Pid, token: Token, now: Time): Txn<()> {
    if stage in db.staging && db.staging[stage].pid == pid && db.staging[stage].token == token then
      Commit(db.(staging := db.staging[stage := db.staging[stage].(updatedAt := now)]), ())
    else
      Rollback(Unavailable)
  }

  function ForgetStage(db: Db, stage: StageId, token: Token): Db {
    if stage in db.staging && db.staging[stage].token == token then
      db.(staging := db.staging - {stage})
    else
      db
  }

  function ForgetStageOf(db: Db, stage: StageId, pid: Pid, token: Token): Db {
    if stage in db.staging && db.staging[stage].pid == pid && db.staging[stage].token == token then
      db.(staging := db.staging - {stage})
    else
      db
  }

  // ----- Publication -----

  datatype Claim = Owned | AlreadyPublished | Waiting

  function ClaimPublication(db: Db, content: Content, stage: StageId, stageToken: Token,
                            pid: Pid, token: Token, now: Time): Txn<Claim>
  {
    if content.digest in db.revisions then
      var current := db.revisions[content.digest];
      if current.byteLength != content.byteLength then Rollback(IntegrityError)
      else match current.state
        case Published => Commit(db, AlreadyPublished)
        case Quarantined => Rollback(QuarantinedError)
        case Deleting => Rollback(NotFound)
        case Publishing => Commit(db, Waiting)
    else if content.digest in db.publications then Rollback(ConstraintError)
    else if !(stage in db.staging && db.staging[stage].token == stageToken) then Rollback(Unavailable)
    else
      Commit(db.(
        revisions := db.revisions[content.digest :=
          Revision(content.byteLength, Publishing, Some(Owner(pid, token)), now)],
        publications := db.publications[content.digest :=
          Publication(content.byteLength, Owner(pid, token), stage, now)],
        staging := db.staging - {stage}), Owned)
  }

  function Settled(db: Db, digest: Digest, now: Time): Db
    requires digest in db.revisions
  {
    db.(
      revisions := db.revisions[digest := db.revisions[digest].(state := Published, owner := None, updatedAt := now)],
      publications := db.publications - {digest})
  }

  function AddLease(db: Db, lease: LeaseId, content: Content, expiresAt: Time, now: Time): Db {
    db.(leases := db.leases[lease := Lease(content.digest, content.byteLength, expiresAt, now)])
  }

  /** The last transaction of `publishOwned`: publish the row and grant the lease together. */
  function SettleOwned(db: Db, content: Content, token: Token, lease: LeaseId, expiresAt: Time, now: Time): Txn<()> {
    if !PublishingUnder(db, content.digest, token) then Rollback(Unavailable)
    else if lease in db.leases then Rollback(ConstraintError)
    else Commit(AddLease(Settled(db, content.digest, now), lease, content, expiresAt, now), ())
  }

  function AdoptRepair(db: Db, digest: Digest, expected: Token, pid: Pid, token: Token, now: Time): Txn<bool> {
    if !PublishingUnder(db, digest, expected) then Commit(db, false)
    else
      var owner := Owner(pid, token);
      Commit(db.(
        revisions := db.revisions[digest := db.revisions[digest].(owner := Some(owner), updatedAt := now)],
        publications :=
          if digest in db.publications then
            db.publications[digest := db.publications[digest].(owner := owner, claimedAt := now)]
          else db.publications), true)
  }

  /** The row is published only under the token; the journal row goes whoever holds it. */
  function SettleRepaired(db: Db, digest: Digest, token: Token, now: Time): Db {
    if PublishingUnder(db, digest, token) then Settled(db, digest, now)
    else db.(publications := db.publications - {digest})
  }

  // ----- Deleting a revision row -----

  /** ON DELETE RESTRICT for anchors, ON DELETE CASCADE for the other three tables. */
  function DeleteRevision(db: Db, digest: Digest): Txn<()> {
    if Anchored(db, digest) then Rollback(ConstraintError)
    else Commit(db.(
      revisions := db.revisions - {digest},
      publications := db.publications - {digest},
      leases := map l | l in db.leases && db.leases[l].digest != digest :: db.leases[l],
      deletions := db.deletions - {digest}), ())
  }

  function DropPublication(db: Db, digest: Digest, token: Token): Txn<()> {
    if PublishingUnder(db, digest, token) then DeleteRevision(db, digest) else Commit(db, ())
  }

  function FinishDeletion(db: Db, digest: Digest): Txn<()> {
    if digest in db.revisions && db.revisions[digest].state.Deleting? then DeleteRevision(db, digest)
    else Commit(db.(deletions := db.deletions - {digest}), ())
  }

  // ----- Leases and anchors -----

  function InsertLease(db: Db, lease: LeaseId, content: Content, expiresAt: Time, now: Time): Txn<()> {
    if !Available(db, content) then Rollback(UnavailableReference(db, content.digest))
    else if lease in db.leases then Rollback(ConstraintError)
    else Commit(AddLease(db, lease, content, expiresAt, now), ())
  }

  function ReleaseLease(db: Db, lease: LeaseId): Txn<bool> {
    Commit(db.(leases := db.leases - {lease}), lease in db.leases)
  }

  function CreateAnchor(db: Db, lease: LeaseId, anchor: AnchorId, namespace: string, recordKey: string,
                        createdAt: Time): Txn<nat>
  {
    if anchor in db.anchors || anchor in db.retired then Rollback(Unavailable)
    else if lease !in db.leases || db.leases[lease].expiresAt <= createdAt then Rollback(NotFound)
    else
      var content := Content(db.leases[lease].digest, db.leases[lease].byteLength);
      if !Available(db, content) then Rollback(UnavailableReference(db, content.digest))
      else if CoordinateTaken(db, namespace, recordKey) then Rollback(ConstraintError)
      else Commit(db.(
        anchors := db.anchors[anchor := Anchor(namespace, recordKey, content.digest, content.byteLength, createdAt)],
        leases := db.leases - {lease}), content.byteLength)
  }

  function CloneAnchor(db: Db, source: AnchorId, anchor: AnchorId, namespace: string, recordKey: string,
                       createdAt: Time): Txn<nat>
  {
    if anchor in db.anchors || anchor in db.retired then Rollback(Unavailable)
    else if source !in db.anchors then Rollback(NotFound)
    else
      var content := Content(db.anchors[source].digest, db.anchors[source].byteLength);
      if !Available(db, content) then Rollback(UnavailableReference(db, content.digest))
      else if CoordinateTaken(db, namespace, recordKey) then Rollback(ConstraintError)
      else Commit(db.(
        anchors := db.anchors[anchor := Anchor(namespace, recordKey, content.digest, content.byteLength, createdAt)]),
        content.byteLength)
  }

  function ReleaseAnchor(db: Db, anchor: AnchorId, now: Time): Txn<bool> {
    if anchor !in db.anchors then Commit(db, false)
    else if anchor in db.retired then Rollback(ConstraintError)
    else Commit(db.(anchors := db.anchors - {anchor}, retired := db.retired[anchor := now]), true)
  }

  // ----- Quarantine and collection -----

  function Quarantine(db: Db, digest: Digest, now: Time): Db {
    db.(
      revisions :=
        if digest in db.revisions then
          db.revisions[digest := db.revisions[digest].(state := Quarantined, owner := None, updatedAt := now)]
        else db.revisions,
      publications := db.publications - {digest})
  }

  function PurgeLeases(db: Db, now: Time): Db {
    db.(leases := map l | l in db.leases && db.leases[l].expiresAt > now :: db.leases[l])
  }

  /** The rows the collector's SELECT returns. */
  function Collectable(db: Db, now: Time): set<Digest> {
    set d | d in db.revisions && db.revisions[d].state.Published? && !LeasedAfter(db, d, now) && !Anchored(db, d)
  }

  function Mark(db: Db, digest: Digest, now: Time): Db
    requires digest in db.revisions
  {
    db.(
      revisions := db.revisions[digest := db.revisions[digest].(state := Deleting, owner := None, updatedAt := now)],
      deletions := db.deletions[digest := Deletion(db.revisions[digest].byteLength, now)])
  }

  /** The collector's marking transaction, all rows at once. */
  function MarkAll(db: Db, garbage: set<Digest>, now: Time): Db
    requires garbage <= db.revisions.Keys
  {
    db.(
      revisions := map d | d in db.revisions ::
        if d in garbage then db.revisions[d].(state := Deleting, owner := None, updatedAt := now) else db.revisions[d],
      deletions := map d | d in db.deletions.Keys + garbage ::
        if d in garbage then Deletion(db.revisions[d].byteLength, now) else db.deletions[d])
  }

  function MarkGarbage(db: Db, now: Time): Txn<set<Digest>> {
    var purged := PurgeLeases(db, now);
    Commit(MarkAll(purged, Collectable(purged, now), now), Collectable(purged, now))
  }
}
