/** The store as an object over its tables and files, one method per transaction body, and the two
    procedures that loop over rows: the collection and the repair at open. Each transaction method is
    tied to the function of `ContentDatabase` that the protocol steps through. */
module ContentStore {
  import opened Collections
  import opened ContentDatabase
  import opened ContentRows
  import opened ContentProtocol
  import opened ContentSafety
  import opened ContentNaming

  datatype Outcome<+T> = Returned(value: T) | Threw(error: Error)

  function OutcomeOf<T>(txn: Txn<T>): Outcome<T> {
    if txn.Commit? then Outcome.Returned(txn.value) else Threw(txn.error)
  }

  // ----- Sets and maps of ids -----

  lemma SomeMember(s: set<int>)
    requires s != {}
    ensures exists k :: k in s
  {
    if !exists k :: k in s {
      assert false;
    }
  }

  lemma NoMembers<V>(m: map<int, V>)
    requires forall k :: k !in m
    ensures m == map[]
  {
    if m.Keys != {} {
      SomeMember(m.Keys);
    }
  }

  lemma SameEntries<V>(m: map<int, V>, n: map<int, V>)
    requires forall k :: k in m <==> k in n
    requires forall k :: k in m ==> m[k] == n[k]
    ensures m == n
  {
    if m.Keys - n.Keys != {} { SomeMember(m.Keys - n.Keys); }
    if n.Keys - m.Keys != {} { SomeMember(n.Keys - m.Keys); }
    assert m.Keys == n.Keys;
    var changed := set k | k in m && m[k] != n[k];
    if changed != {} { SomeMember(changed); }
    assert m == map k | k in n :: n[k];
    assert n == map k | k in n :: n[k];
  }

  // ----- What repair and collection do to tables and files -----

  /** One uninterrupted `repairPublication` of a row whose owner is dead or stale. */
  function RepairedWorld(w: World, d: Digest, self: Pid, token: Token, now: Time): World
    requires d in w.db.revisions && w.db.revisions[d].owner.Some? && d in w.db.publications
  {
    var c, temp := Content(d, w.db.revisions[d].byteLength), w.db.publications[d].temp;
    var adopted := After(AdoptRepair(w.db, d, w.db.revisions[d].owner.value.token, self, token, now), w.db);
    if Lookup(w.blobs, d) == Some(c) then
      World(SettleRepaired(adopted, d, token, now), w.blobs, w.staged - {temp})
    else if Lookup(w.staged, temp) == Some(c) then
      World(SettleRepaired(adopted, d, token, now), w.blobs[d := c], w.staged - {temp})
    else
      World(After(DropPublication(adopted, d, token), adopted), w.blobs, w.staged - {temp})
  }

  function FinishedWorld(w: World, d: Digest): World {
    World(After(FinishDeletion(w.db, d), w.db), w.blobs - {d}, w.staged)
  }

  /** What reopening may rely on after a crash at any step. */
  ghost predicate Recoverable(w: World) {
    RowsOk(w.db) && Tidy(w)
  }

  /** No pin is lost or changed, and no published revision loses its row or its bytes. */
  ghost predicate Preserves(w: World, w': World) {
    && w'.db.anchors == w.db.anchors && w'.db.leases == w.db.leases && w'.db.retired == w.db.retired
    && (forall d :: IsPublished(w.db, d) ==>
          d in w'.db.revisions && w'.db.revisions[d] == w.db.revisions[d] && Lookup(w'.blobs, d) == Lookup(w.blobs, d))
    && (forall d :: IsPublished(w'.db, d) && !IsPublished(w.db, d) ==>
          Lookup(w'.blobs, d) == Some(Content(d, w'.db.revisions[d].byteLength)))
  }

  lemma PreservesTransitively(w0: World, w1: World, w2: World)
    requires Preserves(w0, w1) && Preserves(w1, w2)
    ensures Preserves(w0, w2)
  {
  }

  function PublishingRows(db: Db): set<Digest> {
    set d | d in db.revisions && db.revisions[d].state.Publishing?
  }

  // ----- Repairing one row -----

  function PublishedRow(db: Db, d: Digest, now: Time): Db
    requires d in db.revisions
  {
    db.(revisions := db.revisions[d := db.revisions[d].(state := Published, owner := None, updatedAt := now)],
        publications := db.publications - {d})
  }

  function DroppedRow(db: Db, d: Digest): Db {
    db.(revisions := db.revisions - {d}, publications := db.publications - {d})
  }

  /** Adopting and then settling, or dropping, the row. */
  lemma AdoptedRow(db: Db, d: Digest, self: Pid, token: Token, now: Time)
    requires RowsOk(db) && d in db.revisions && db.revisions[d].state.Publishing? && d in db.publications
    ensures db.revisions[d].owner.Some?
    ensures var adopted := After(AdoptRepair(db, d, db.revisions[d].owner.value.token, self, token, now), db);
            && SettleRepaired(adopted, d, token, now) == PublishedRow(db, d, now)
            && After(DropPublication(adopted, d, token), adopted) == DroppedRow(db, d)
  {
    assert JournalsOk(db);
    var expected := db.revisions[d].owner.value.token;
    var adopted := After(AdoptRepair(db, d, expected, self, token, now), db);
    AdoptSteps(db, d, expected, self, token, now);
    assert PublishingUnder(adopted, d, token);
    DeleteSteps(adopted, d);
    assert d !in adopted.deletions by { assert JournalsOk(adopted); }
    hide RowsOk, Step, Anchored;
    assert SettleRepaired(adopted, d, token, now).revisions == PublishedRow(db, d, now).revisions;
    assert adopted.publications - {d} == db.publications - {d};
    assert adopted.deletions - {d} == adopted.deletions;
    assert adopted.revisions - {d} == db.revisions - {d};
  }

  ghost predicate RowRepaired(w: World, w': World, d: Digest)
    requires d in w.db.publications
  {
    && PublishingRows(w'.db) == PublishingRows(w.db) - {d}
    && w'.db.staging == w.db.staging && w'.db.deletions == w.db.deletions
    && w'.db.publications == w.db.publications - {d}
    && w'.staged == w.staged - {w.db.publications[d].temp}
    && Preserves(w, w')
  }

  // ----- What a repair comes to -----

  /** The bytes of the row lie under its digest. */
  predicate HasBlob(w: World, d: Digest)
    requires d in w.db.revisions
  {
    d in w.blobs && w.blobs[d] == Content(d, w.db.revisions[d].byteLength)
  }

  /** The bytes of the row lie in the stage its journal row names. */
  predicate HasStage(w: World, d: Digest)
    requires d in w.db.revisions
  {
    && d in w.db.publications && w.db.publications[d].temp in w.staged
    && w.staged[w.db.publications[d].temp] == Content(d, w.db.revisions[d].byteLength)
  }

  /** No table but those two, no row but this one, and no file but its own has changed. */
  ghost predicate OnlyThis(w: World, w': World, d: Digest)
    requires d in w.db.publications
  {
    && w'.db.staging == w.db.staging && w'.db.leases == w.db.leases && w'.db.anchors == w.db.anchors
    && w'.db.retired == w.db.retired && w'.db.deletions == w.db.deletions
    && w'.db.publications == w.db.publications - {d} && w'.staged == w.staged - {w.db.publications[d].temp}
    && (forall e :: e != d ==> Lookup(w'.db.revisions, e) == Lookup(w.db.revisions, e))
  }

  /** A row with its bytes as blob is published, and so is one with its bytes in its stage, which becomes the blob. Any other
      row is gone. */
  ghost predicate RepairedTo(w: World, w': World, d: Digest, now: Time)
    requires d in w.db.revisions && d in w.db.publications
  {
    && OnlyThis(w, w', d)
    && (HasBlob(w, d) || HasStage(w, d) ==>
          Lookup(w'.db.revisions, d) == Some(Revision(w.db.revisions[d].byteLength, Published, None, now)))
    && (!HasBlob(w, d) && !HasStage(w, d) ==> d !in w'.db.revisions)
    && (HasStage(w, d) && !HasBlob(w, d) ==> w'.blobs == w.blobs[d := Content(d, w.db.revisions[d].byteLength)])
    && (HasBlob(w, d) || !HasStage(w, d) ==> w'.blobs == w.blobs)
  }

  /** The three ends of a repair, each with its condition. */
  lemma RepairEnds(w: World, d: Digest, self: Pid, token: Token, now: Time)
    requires Recoverable(w) && d in w.db.revisions && w.db.revisions[d].state.Publishing?
    ensures d in w.db.publications && w.db.revisions[d].owner.Some?
    ensures RepairedTo(w, RepairedWorld(w, d, self, token, now), d, now)
    ensures var w', rest := RepairedWorld(w, d, self, token, now), w.staged - {w.db.publications[d].temp};
            w' == if HasBlob(w, d) then World(PublishedRow(w.db, d, now), w.blobs, rest)
                  else if HasStage(w, d) then
                    World(PublishedRow(w.db, d, now), w.blobs[d := Content(d, w.db.revisions[d].byteLength)], rest)
                  else World(DroppedRow(w.db, d), w.blobs, rest)
  {
    assert JournalsKept(w.db) && JournalsOk(w.db);
    AdoptedRow(w.db, d, self, token, now);
    hide Recoverable, RowsOk, Tidy, AdoptRepair, SettleRepaired, DropPublication;
  }

  lemma PublishEnd(w: World, d: Digest, blobs: map<Digest, Content>, staged: map<StageId, Content>, now: Time)
    requires d in w.db.revisions && w.db.revisions[d].state.Publishing?
    requires blobs == w.blobs || blobs == w.blobs[d := Content(d, w.db.revisions[d].byteLength)]
    requires Lookup(blobs, d) == Some(Content(d, w.db.revisions[d].byteLength))
    ensures Preserves(w, World(PublishedRow(w.db, d, now), blobs, staged))
  {
  }

  lemma DropEnd(w: World, d: Digest, staged: map<StageId, Content>)
    requires d in w.db.revisions && w.db.revisions[d].state.Publishing?
    ensures Preserves(w, World(DroppedRow(w.db, d), w.blobs, staged))
  {
  }

  lemma OnePublishingLess(db: Db, d: Digest, now: Time)
    requires d in db.revisions
    ensures PublishingRows(PublishedRow(db, d, now)) == PublishingRows(db) - {d}
    ensures PublishingRows(DroppedRow(db, d)) == PublishingRows(db) - {d}
  {
  }

  lemma RepairedRow(w: World, d: Digest, self: Pid, token: Token, now: Time)
    requires Recoverable(w) && d in w.db.revisions && w.db.revisions[d].state.Publishing?
    ensures d in w.db.publications && w.db.revisions[d].owner.Some?
    ensures RowRepaired(w, RepairedWorld(w, d, self, token, now), d)
  {
    hide Recoverable, RepairedWorld, Preserves, PublishingRows;
    RepairEnds(w, d, self, token, now);
    OnePublishingLess(w.db, d, now);
    var rest := w.staged - {w.db.publications[d].temp};
    if HasBlob(w, d) { PublishEnd(w, d, w.blobs, rest, now); }
    PublishEnd(w, d, w.blobs[d := Content(d, w.db.revisions[d].byteLength)], rest, now);
    DropEnd(w, d, rest);
  }

  lemma RepairedTidy(w: World, d: Digest, db': Db, blobs: map<Digest, Content>)
    requires Tidy(w) && d in w.db.publications
    requires db'.publications == w.db.publications - {d} && db'.staging == w.db.staging
    requires forall e :: e in db'.revisions && db'.revisions[e].state.Publishing? ==>
               e != d && e in w.db.revisions && w.db.revisions[e].state.Publishing?
    ensures Tidy(World(db', blobs, w.staged - {w.db.publications[d].temp}))
  {
    var w1 := w.(staged := w.staged - {w.db.publications[d].temp});
    assert Tidy(w1);
    JournalLeaves(w1, db', d);
  }

  lemma RepairedRecoverable(w: World, d: Digest, self: Pid, token: Token, now: Time)
    requires Recoverable(w) && d in w.db.revisions && w.db.revisions[d].state.Publishing?
    requires d in w.db.publications && w.db.revisions[d].owner.Some?
    ensures Recoverable(RepairedWorld(w, d, self, token, now))
  {
    SettleSteps(w.db, d, now);
    DroppedSteps(w.db, d);
    RepairEnds(w, d, self, token, now);
    hide RowsOk, Step, RepairedWorld, Tidy, AdoptRepair, SettleRepaired, DropPublication;
    RepairedTidy(w, d, PublishedRow(w.db, d, now), w.blobs);
    RepairedTidy(w, d, PublishedRow(w.db, d, now), w.blobs[d := Content(d, w.db.revisions[d].byteLength)]);
    RepairedTidy(w, d, DroppedRow(w.db, d), w.blobs);
    assert PublishedRow(w.db, d, now) == Settled(w.db, d, now);
  }

  lemma RepairedOwners(w: World, d: Digest, self: Pid, token: Token, now: Time, alive: set<Pid>)
    requires Recoverable(w) && d in w.db.revisions && w.db.revisions[d].state.Publishing? && NobodyElse(w.db, alive)
    ensures d in w.db.publications && w.db.revisions[d].owner.Some?
    ensures NobodyElse(RepairedWorld(w, d, self, token, now).db, alive)
  {
    hide Recoverable, RepairedWorld;
    RepairEnds(w, d, self, token, now);
  }

  lemma DroppedSteps(db: Db, d: Digest)
    requires RowsOk(db) && d in db.revisions && db.revisions[d].state.Publishing?
    ensures RowsOk(DroppedRow(db, d))
  {
    DeleteSteps(db, d);
    assert d !in db.deletions by { assert JournalsOk(db); }
    hide RowsOk, Step;
    assert db.deletions - {d} == db.deletions;
    assert DeleteRevision(db, d).db == DroppedRow(db, d);
  }

  // ----- Finishing one deletion -----

  lemma FinishEnds(w: World, d: Digest)
    requires RowsOk(w.db) && d in w.db.deletions
    ensures var w' := FinishedWorld(w, d);
            && RowsOk(w'.db) && d in w.db.revisions && !w.db.revisions[d].state.Published?
            && (w' == World(w.db.(revisions := w.db.revisions - {d}, deletions := w.db.deletions - {d}), w.blobs - {d}, w.staged)
                || w' == World(w.db.(deletions := w.db.deletions - {d}), w.blobs - {d}, w.staged))
  {
    assert JournalsOk(w.db);
    FinishDeletionSteps(w.db, d);
    if w.db.revisions[d].state.Deleting? {
      DeleteSteps(w.db, d);
      assert w.db.publications - {d} == w.db.publications;
    }
    hide RowsOk, Step, Anchored;
  }

  lemma UnlinkPreserves(w: World, d: Digest, db': Db)
    requires !IsPublished(w.db, d)
    requires db' == w.db.(revisions := w.db.revisions - {d}, deletions := w.db.deletions - {d})
          || db' == w.db.(deletions := w.db.deletions - {d})
    ensures Preserves(w, World(db', w.blobs - {d}, w.staged))
    ensures PublishingRows(db') <= PublishingRows(w.db)
  {
  }

  lemma NoPublishingTidy(w: World, db': Db, blobs: map<Digest, Content>)
    requires Tidy(w) && PublishingRows(db') == {}
    requires db'.publications == w.db.publications && db'.staging == w.db.staging
    ensures Tidy(World(db', blobs, w.staged))
  {
    var w' := World(db', blobs, w.staged);
    forall k | k in w'.staged ensures k in w'.db.staging || Journalled(w'.db, k) {
      assert Journalled(w.db, k) ==> Journalled(w'.db, k);
    }
    assert forall e :: e in db'.revisions && db'.revisions[e].state.Publishing? ==> e in PublishingRows(db');
  }

  ghost predicate RowFinished(w: World, w': World, d: Digest) {
    && PublishingRows(w'.db) == {}
    && w'.db.staging == w.db.staging && w'.staged == w.staged && w'.db.publications == w.db.publications
    && w'.db.deletions == w.db.deletions - {d}
    && Preserves(w, w')
  }

  lemma FinishedRow(w: World, d: Digest)
    requires Recoverable(w) && PublishingRows(w.db) == {} && d in w.db.deletions
    ensures Recoverable(FinishedWorld(w, d)) && RowFinished(w, FinishedWorld(w, d), d)
  {
    var w' := FinishedWorld(w, d);
    FinishEnds(w, d);
    hide RowsOk, FinishedWorld, Tidy, Preserves, PublishingRows;
    UnlinkPreserves(w, d, w'.db);
    NoPublishingTidy(w, w'.db, w'.blobs);
  }

  // ----- What reopening makes of each row -----

  /** An unfinished publication that had its bytes is published with them, and any other is gone. */
  ghost predicate Concluded(w: World, w': World, d: Digest)
    requires d in w.db.revisions
  {
    if HasBlob(w, d) || HasStage(w, d) then
      && d in w'.db.revisions && w'.db.revisions[d].state.Published? && w'.db.revisions[d].owner.None?
      && w'.db.revisions[d].byteLength == w.db.revisions[d].byteLength
      && Lookup(w'.blobs, d) == Some(Content(d, w.db.revisions[d].byteLength))
    else
      d !in w'.db.revisions && Lookup(w'.blobs, d) == Lookup(w.blobs, d)
  }

  /** Row, journal row, blob and stage of an unfinished publication are as they were. */
  ghost predicate Unchanged(w: World, w': World, d: Digest)
    requires d in w.db.revisions
  {
    && Lookup(w'.db.revisions, d) == Lookup(w.db.revisions, d) && Lookup(w'.blobs, d) == Lookup(w.blobs, d)
    && Lookup(w'.db.publications, d) == Lookup(w.db.publications, d)
    && (d in w.db.publications ==>
          Lookup(w'.staged, w.db.publications[d].temp) == Lookup(w.staged, w.db.publications[d].temp))
  }

  ghost predicate SameRow(w: World, w': World, d: Digest) {
    Lookup(w'.db.revisions, d) == Lookup(w.db.revisions, d) && Lookup(w'.blobs, d) == Lookup(w.blobs, d)
  }

  /** Some publications still wait, the others are concluded, and no other row is concerned. */
  ghost predicate Underway(w: World, w': World, waiting: set<Digest>) {
    && (forall d :: d in PublishingRows(w.db) ==> if d in waiting then Unchanged(w, w', d) else Concluded(w, w', d))
    && (forall d :: d !in PublishingRows(w.db) ==> SameRow(w, w', d))
  }

  /** No two publications share a stage, so repairing one leaves the others as they are. */
  lemma RepairIsLocal(w: World, w': World, d: Digest, e: Digest, now: Time)
    requires Tidy(w) && d in w.db.revisions && d in w.db.publications && RepairedTo(w, w', d, now) && e != d
    ensures SameRow(w, w', e) && (e in w.db.revisions ==> Unchanged(w, w', e))
  {
    assert NamedOnce(w.db);
  }

  lemma OneConcluded(w: World, here: World, w': World, waiting: set<Digest>, d: Digest, now: Time)
    requires Underway(w, here, waiting) && d in waiting && waiting <= PublishingRows(w.db)
    requires Tidy(here) && d in here.db.revisions && d in here.db.publications && RepairedTo(here, w', d, now)
    ensures Underway(w, w', waiting - {d})
  {
    assert Unchanged(w, here, d);
    forall e | e != d ensures SameRow(here, w', e) && (e in here.db.revisions ==> Unchanged(here, w', e)) {
      RepairIsLocal(here, w', d, e, now);
    }
    assert Concluded(w, w', d);
    hide Tidy, RepairedTo, PublishingRows;
    forall e | e in PublishingRows(w.db) && e != d
      ensures if e in waiting then Unchanged(w, w', e) else Concluded(w, w', e)
    {
      if e in waiting { assert Unchanged(w, here, e); } else { assert Concluded(w, here, e) && SameRow(here, w', e); }
    }
  }

  lemma AllWaiting(w: World)
    ensures Underway(w, w, PublishingRows(w.db))
  {
  }

  /** Of the rows with a deletion entry those being deleted go, and the blobs of all of them. */
  ghost predicate DeletionsDone(w: World, w': World, entries: set<Digest>) {
    forall d {:trigger SameRow(w, w', d)} {:trigger d in entries} ::
      if d in entries then
        && d !in w'.blobs
        && Lookup(w'.db.revisions, d) ==
             if d in w.db.revisions && w.db.revisions[d].state.Deleting? then None else Lookup(w.db.revisions, d)
      else SameRow(w, w', d)
  }

  lemma OneDeletionDone(w: World, here: World, entries: set<Digest>, d: Digest)
    requires RowsOk(here.db) && d in here.db.deletions && DeletionsDone(w, here, entries) && d !in entries
    ensures DeletionsDone(w, FinishedWorld(here, d), entries + {d})
  {
    var w' := FinishedWorld(here, d);
    FinishEnds(here, d);
    FinishIsExact(here, d);
    hide RowsOk, FinishedWorld;
    assert SameRow(w, here, d);
    forall e | e != d ensures SameRow(here, w', e) {}
    forall e ensures if e in entries + {d} then
        && e !in w'.blobs
        && Lookup(w'.db.revisions, e) ==
             if e in w.db.revisions && w.db.revisions[e].state.Deleting? then None else Lookup(w.db.revisions, e)
      else SameRow(w, w', e)
    {
      if e != d { assert SameRow(here, w', e) && (e in entries || SameRow(w, here, e)); }
    }
  }

  lemma FinishIsExact(w: World, d: Digest)
    requires RowsOk(w.db) && d in w.db.deletions
    ensures var w' := FinishedWorld(w, d);
      && d in w.db.revisions
      && w'.db.revisions == (if w.db.revisions[d].state.Deleting? then w.db.revisions - {d} else w.db.revisions)
  {
    assert JournalsOk(w.db);
    if w.db.revisions[d].state.Deleting? { DeleteSteps(w.db, d); }
    hide RowsOk, Anchored, Step;
  }

  /** What reopening makes of a row, by its state. */
  ghost predicate Settles(w: World, w': World, d: Digest)
    requires d in w.db.revisions
  {
    match w.db.revisions[d].state
    case Publishing => Concluded(w, w', d)
    case Published => SameRow(w, w', d)
    case Deleting => d !in w'.db.revisions && d !in w'.blobs
    case Quarantined => Lookup(w'.db.revisions, d) == Lookup(w.db.revisions, d)
  }

  ghost predicate RowsSettled(w: World, w': World) {
    && (forall d :: d in w.db.revisions ==> Settles(w, w', d))
    && (forall d :: d in w'.db.revisions ==> d in w.db.revisions)
  }

  lemma BothPhases(w: World, mid: World, w': World)
    requires RowsOk(w.db) && RowsOk(mid.db) && mid.db.deletions == w.db.deletions
    requires Underway(w, mid, {}) && DeletionsDone(mid, w', mid.db.deletions.Keys)
    ensures RowsSettled(w, w')
  {
    assert JournalsOk(w.db) && JournalsOk(mid.db);
    forall d | d in w.db.revisions ensures Settles(w, w', d) {
      if w.db.revisions[d].state.Publishing? {
        assert d in PublishingRows(w.db) && Concluded(w, mid, d);
        assert d !in w.db.deletions && SameRow(mid, w', d);
      } else {
        assert SameRow(w, mid, d);
        assert d in mid.db.deletions || SameRow(mid, w', d);
      }
    }
    forall d | d in w'.db.revisions ensures d in w.db.revisions {
      assert d in mid.db.deletions || SameRow(mid, w', d);
      assert d in PublishingRows(w.db) || SameRow(w, mid, d);
    }
  }

  /** Sweeping touches no publication. */
  lemma SweepsNoPublication(w: World, w1: World, w': World)
    requires Tidy(w) && w1.db == w.db.(staging := w1.db.staging) && w1.blobs == w.blobs
    requires forall k :: k !in w.db.staging ==> Lookup(w1.staged, k) == Lookup(w.staged, k)
    requires RowsSettled(w1, w')
    ensures RowsSettled(w, w')
  {
    assert NamedOnce(w.db);
    forall d | d in w.db.revisions ensures Settles(w, w', d) {
      assert Settles(w1, w', d);
      assert HasBlob(w1, d) <==> HasBlob(w, d);
      assert HasStage(w1, d) <==> HasStage(w, d);
    }
  }

  // ----- Sweeping stages -----

  function Swept(w: World, alive: set<Pid>): World {
    World(
      w.db.(staging := map k | k in w.db.staging && w.db.staging[k].pid in alive :: w.db.staging[k]),
      w.blobs,
      map k | k in w.staged && !(k in w.db.staging && w.db.staging[k].pid !in alive) :: w.staged[k])
  }

  /** The stages of dead processes have lost row and file; all else is as it was. */
  ghost predicate IsSwept(w: World, w': World, alive: set<Pid>) {
    && w'.db == w.db.(staging := w'.db.staging) && w'.blobs == w.blobs
    && (forall k :: k in w'.db.staging <==> k in w.db.staging && w.db.staging[k].pid in alive)
    && (forall k :: k in w'.db.staging ==> w'.db.staging[k] == w.db.staging[k])
    && (forall k :: k in w'.staged <==> k in w.staged && (k in w.db.staging ==> w.db.staging[k].pid in alive))
    && (forall k :: k in w'.staged ==> w'.staged[k] == w.staged[k])
  }

  lemma SweptRecoverable(w: World, alive: set<Pid>)
    requires Recoverable(w)
    ensures Recoverable(Swept(w, alive)) && Preserves(w, Swept(w, alive))
  {
    var w' := Swept(w, alive);
    StageSteps(w.db, w'.db.staging);
    assert w'.db == w.db.(staging := w'.db.staging);
    hide RowsOk, Step;
    forall k | k in w'.staged ensures k in w'.db.staging || Journalled(w'.db, k) {
      assert Journalled(w.db, k) ==> Journalled(w'.db, k);
    }
  }

  /** What reopening leaves behind: nothing unfinished, and every pin as it was. */
  ghost predicate Recovered(w: World, w': World) {
    && w'.db.staging == map[] && w'.staged == map[]
    && w'.db.publications == map[] && w'.db.deletions == map[]
    && (forall d :: d in w'.db.revisions ==> w'.db.revisions[d].state.Published? || w'.db.revisions[d].state.Quarantined?)
    && RowsSettled(w, w')
    && Preserves(w, w')
    && Recoverable(w')
  }

  /** No row is owned by a process that still runs. */
  ghost predicate NobodyElse(db: Db, alive: set<Pid>) {
    && (forall k :: k in db.staging ==> db.staging[k].pid !in alive)
    && (forall d :: d in db.revisions && db.revisions[d].owner.Some? ==> db.revisions[d].owner.value.pid !in alive)
  }

  lemma NothingUnfinished(w: World)
    requires Recoverable(w) && PublishingRows(w.db) == {} && w.db.staging == map[]
    ensures w.db.publications == map[] && w.staged == map[]
    ensures w.db.deletions == map[] ==>
              forall d :: d in w.db.revisions ==> w.db.revisions[d].state.Published? || w.db.revisions[d].state.Quarantined?
  {
    assert JournalsOk(w.db);
    assert forall d :: d in w.db.publications ==> d in PublishingRows(w.db);
    NoMembers(w.db.publications);
    assert forall k :: k in w.staged ==> Journalled(w.db, k);
    NoMembers(w.staged);
    assert forall d :: d in w.db.revisions && w.db.revisions[d].state.Publishing? ==> d in PublishingRows(w.db);
  }

  lemma FinishMarkedRow(w: World, d: Digest)
    requires RowsOk(w.db) && d in w.db.revisions && w.db.revisions[d].state.Deleting?
    ensures RowsOk(FinishedWorld(w, d).db)
    ensures FinishedWorld(w, d) == World(w.db.(revisions := w.db.revisions - {d}, deletions := w.db.deletions - {d}),
                                         w.blobs - {d}, w.staged)
  {
    assert JournalsOk(w.db);
    FinishDeletionSteps(w.db, d);
    DeleteSteps(w.db, d);
    hide RowsOk, Step, Anchored;
    assert w.db.publications - {d} == w.db.publications;
  }

  /** Exactly the rows and blobs in `gone` are gone. */
  ghost predicate Emptied(w: World, w': World, gone: set<Digest>) {
    && (forall d :: d in w'.db.revisions <==> d in w.db.revisions && d !in gone)
    && (forall d :: d in w'.db.revisions ==> w'.db.revisions[d] == w.db.revisions[d])
    && (forall d :: d in w'.blobs <==> d in w.blobs && d !in gone)
    && (forall d :: d in w'.blobs ==> w'.blobs[d] == w.blobs[d])
    && w'.db.anchors == w.db.anchors && w'.db.leases == w.db.leases && w'.db.staging == w.db.staging && w'.staged == w.staged
  }

  lemma EmptiedByOne(w: World, w': World, gone: set<Digest>, d: Digest)
    requires Emptied(w, w', gone) && RowsOk(w'.db) && d in w'.db.revisions && w'.db.revisions[d].state.Deleting?
    ensures Emptied(w, FinishedWorld(w', d), gone + {d})
    ensures forall e :: e in w'.db.revisions && e != d ==>
              e in FinishedWorld(w', d).db.revisions && FinishedWorld(w', d).db.revisions[e] == w'.db.revisions[e]
  {
    FinishMarkedRow(w', d);
    hide RowsOk;
  }

  lemma MarkNone(db: Db, now: Time)
    ensures MarkAll(db, {}, now) == db
  {
    SameEntries(MarkAll(db, {}, now).revisions, db.revisions);
    SameEntries(MarkAll(db, {}, now).deletions, db.deletions);
  }

  lemma MarkOneMore(db: Db, done: set<Digest>, d: Digest, now: Time)
    requires done <= db.revisions.Keys && d in db.revisions && d !in done
    ensures MarkAll(db, done, now).revisions.Keys == db.revisions.Keys
    ensures Mark(MarkAll(db, done, now), d, now) == MarkAll(db, done + {d}, now)
  {
    SameEntries(Mark(MarkAll(db, done, now), d, now).revisions, MarkAll(db, done + {d}, now).revisions);
    SameEntries(Mark(MarkAll(db, done, now), d, now).deletions, MarkAll(db, done + {d}, now).deletions);
  }

  lemma StagingIsNotCollected(db: Db, staging: map<StageId, Stage>, now: Time)
    ensures var db' := db.(staging := staging);
            && Collectable(PurgeLeases(db', now), now) == Collectable(PurgeLeases(db, now), now)
            && PurgeLeases(db', now).leases == PurgeLeases(db, now).leases
  {
    var db' := db.(staging := staging);
    assert forall d :: LeasedAfter(PurgeLeases(db', now), d, now) <==> LeasedAfter(PurgeLeases(db, now), d, now);
    assert forall d :: Anchored(PurgeLeases(db', now), d) <==> Anchored(PurgeLeases(db, now), d);
  }

  // ----- What the transactions of the object keep -----

  lemma SettlingHolds(db: Db, content: Content, token: Token, lease: LeaseId, expiresAt: Time, now: Time)
    requires RowsOk(db)
    requires PublishingUnder(db, content.digest, token) ==> db.revisions[content.digest].byteLength == content.byteLength
    ensures var txn := SettleOwned(db, content, token, lease, expiresAt, now);
      txn.Commit? ==> RowsOk(txn.db) && TakesFrom(db, txn.db, content.digest, expiresAt)
  {
    hide RowsOk;
    ExecuteSteps(db, SettleOwnedBody(content, token, lease, expiresAt, now));
    if SettleOwned(db, content, token, lease, expiresAt, now).Commit? {
      SettlingSpares(db, content, token, lease, expiresAt, now);
    }
  }

  lemma LeasingHolds(db: Db, lease: LeaseId, content: Content, expiresAt: Time, now: Time)
    requires RowsOk(db)
    ensures var txn := InsertLease(db, lease, content, expiresAt, now);
      txn.Commit? ==> RowsOk(txn.db) && SparesUntil(db, txn.db, content.digest, expiresAt)
  {
    hide RowsOk;
    ExecuteSteps(db, InsertLeaseBody(lease, content, expiresAt, now));
    if InsertLease(db, lease, content, expiresAt, now).Commit? { LeaseSpares(db, lease, content, expiresAt, now); }
  }

  lemma AnchoringHolds(db: Db, lease: LeaseId, anchor: AnchorId, namespace: string, recordKey: string, at: Time)
    requires RowsOk(db)
    ensures var txn := CreateAnchor(db, lease, anchor, namespace, recordKey, at);
      txn.Commit? ==> RowsOk(txn.db) && lease in db.leases && SparesAlways(db, txn.db, db.leases[lease].digest)
  {
    hide RowsOk;
    ExecuteSteps(db, CreateAnchorBody(lease, anchor, namespace, recordKey, at));
    if CreateAnchor(db, lease, anchor, namespace, recordKey, at).Commit? {
      AnchorSpares(db, lease, anchor, namespace, recordKey, at);
    }
  }

  lemma ReleasingHolds(db: Db, anchor: AnchorId, now: Time)
    requires RowsOk(db)
    ensures var txn := ReleaseAnchor(db, anchor, now);
      txn.Commit? && RowsOk(txn.db) && (anchor in db.anchors ==> LetsGo(db, txn.db, anchor))
  {
    ExecuteSteps(db, ReleaseAnchorBody(anchor, now));
    hide RowsOk;
    if anchor in db.anchors { ReleaseLetsGo(db, anchor, now); }
  }

  // ----- The object -----

  /** The open store: its seven tables and its two directories. */
  class ContentStore {
    var revisions: map<Digest, Revision>
    var staging: map<StageId, Stage>
    var publications: map<Digest, Publication>
    var leases: map<LeaseId, Lease>
    var anchors: map<AnchorId, Anchor>
    var retired: map<AnchorId, Time>
    var deletions: map<Digest, Deletion>
    var blobs: map<Digest, Content>
    var staged: map<StageId, Content>

    ghost function Tables(): Db
      reads this
    {
      Db(revisions, staging, publications, leases, anchors, retired, deletions)
    }

    ghost function Here(): World
      reads this
    {
      World(Tables(), blobs, staged)
    }

    constructor Empty()
      ensures Here() == Start.world
    {
      revisions, staging, publications, leases := map[], map[], map[], map[];
      anchors, retired, deletions := map[], map[], map[];
      blobs, staged := map[], map[];
    }

    // ----- Admission -----

    method ClaimPublication(content: Content, stage: StageId, stageToken: Token, pid: Pid, token: Token, now: Time)
      returns (r: Outcome<Claim>)
      requires publications.Keys <= revisions.Keys
      modifies this`revisions, this`publications, this`staging
      ensures var txn := ContentDatabase.ClaimPublication(old(Tables()), content, stage, stageToken, pid, token, now);
              Tables() == After(txn, old(Tables())) && r == OutcomeOf(txn)
      ensures r != Outcome.Returned(Owned) ==> Here() == old(Here())
      ensures r == Outcome.Returned(Owned) <==>
        content.digest !in old(revisions) && stage in old(staging) && old(staging)[stage].token == stageToken
      ensures r == Outcome.Returned(Owned) ==>
        && revisions == old(revisions)[content.digest := Revision(content.byteLength, Publishing, Some(Owner(pid, token)), now)]
        && publications == old(publications)[content.digest := Publication(content.byteLength, Owner(pid, token), stage, now)]
        && staging == old(staging) - {stage}
      ensures content.digest in old(revisions) ==>
        r == if old(revisions)[content.digest].byteLength != content.byteLength then Threw(IntegrityError)
             else match old(revisions)[content.digest].state
               case Published => Outcome.Returned(AlreadyPublished)
               case Publishing => Outcome.Returned(Waiting)
               case Deleting => Threw(NotFound)
               case Quarantined => Threw(QuarantinedError)
    {
      if content.digest in revisions {
        var current := revisions[content.digest];
        if current.byteLength != content.byteLength { return Threw(IntegrityError); }
        match current.state {
          case Published => return Outcome.Returned(AlreadyPublished);
          case Quarantined => return Threw(QuarantinedError);
          case Deleting => return Threw(NotFound);
          case Publishing => return Outcome.Returned(Waiting);
        }
      }
      // The staging row is the last thing the body looks at: a claim that finds it gone rolls back.
      if stage !in staging || staging[stage].token != stageToken { return Threw(Unavailable); }
      revisions := revisions[content.digest := Revision(content.byteLength, Publishing, Some(Owner(pid, token)), now)];
      publications := publications[content.digest := Publication(content.byteLength, Owner(pid, token), stage, now)];
      staging := staging - {stage};
      return Outcome.Returned(Owned);
    }

    /**
     * The transaction that ends `publishOwned`. Only the holder of the claim gets through. The revision is then published
     * and leased: a collection spares it until the lease expires, and takes all others as it would have.
     */
    method SettleOwned(content: Content, token: Token, lease: LeaseId, expiresAt: Time, now: Time) returns (r: Outcome<()>)
      requires RowsOk(Tables())
      requires PublishingUnder(Tables(), content.digest, token) ==> revisions[content.digest].byteLength == content.byteLength
      modifies this`revisions, this`publications, this`leases
      ensures r.Returned? <==> PublishingUnder(old(Tables()), content.digest, token) && lease !in old(leases)
      ensures r.Threw? ==> Here() == old(Here())
      ensures r.Threw? ==> r.error == if PublishingUnder(old(Tables()), content.digest, token) then ConstraintError else Unavailable
      ensures RowsOk(Tables())
      ensures r.Returned? ==> Available(Tables(), content) && TakesFrom(old(Tables()), Tables(), content.digest, expiresAt)
      ensures r.Returned? ==> leases == old(leases)[lease := Lease(content.digest, content.byteLength, expiresAt, now)]
      ensures r.Returned? ==> publications == old(publications) - {content.digest}
      ensures r.Returned? ==> revisions == old(revisions)[content.digest := Revision(content.byteLength, Published, None, now)]
    {
      hide RowsOk, TakesFrom, Step, Takes;
      ghost var db := Tables();
      SettlingHolds(db, content, token, lease, expiresAt, now);
      if content.digest !in revisions { return Threw(Unavailable); }
      var row := revisions[content.digest];
      if !row.state.Publishing? || row.owner.None? || row.owner.value.token != token { return Threw(Unavailable); }
      if lease in leases { return Threw(ConstraintError); }
      revisions := revisions[content.digest := row.(state := Published, owner := None, updatedAt := now)];
      publications := publications - {content.digest};
      leases := leases[lease := Lease(content.digest, content.byteLength, expiresAt, now)];
      r := Outcome.Returned(());
    }

    /** A lease on what is published with that length. A collection spares the revision until the lease expires. */
    method InsertAdmissionLease(lease: LeaseId, content: Content, expiresAt: Time, now: Time) returns (r: Outcome<()>)
      requires RowsOk(Tables())
      modifies this`leases
      ensures r.Returned? <==> Available(old(Tables()), content) && lease !in old(leases)
      ensures r.Threw? ==> Here() == old(Here())
      ensures r == Threw(QuarantinedError) <==> IsQuarantined(old(Tables()), content.digest)
      ensures r == Threw(ConstraintError) <==> Available(old(Tables()), content) && lease in old(leases)
      ensures RowsOk(Tables())
      ensures r.Returned? ==> leases == old(leases)[lease := Lease(content.digest, content.byteLength, expiresAt, now)]
      ensures r.Returned? ==> SparesUntil(old(Tables()), Tables(), content.digest, expiresAt)
    {
      hide RowsOk, SparesUntil, Step, Takes;
      ghost var db := Tables();
      LeasingHolds(db, lease, content, expiresAt, now);
      if content.digest !in revisions { return Threw(NotFound); }
      var row := revisions[content.digest];
      if row.state.Quarantined? { return Threw(QuarantinedError); }
      if !row.state.Published? || row.byteLength != content.byteLength { return Threw(NotFound); }
      if lease in leases { return Threw(ConstraintError); }
      leases := leases[lease := Lease(content.digest, content.byteLength, expiresAt, now)];
      r := Outcome.Returned(());
    }

    // ----- Anchors -----

    /**
     * An anchor in exchange for a lease. It is refused for a used id, a taken coordinate, a lease that is gone or expired
     * and a quarantined revision, and for nothing else. From then on no collection takes the revision, at any time.
     */
    method CreateAnchor(lease: LeaseId, anchor: AnchorId, namespace: string, recordKey: string, createdAt: Time)
      returns (r: Outcome<nat>)
      requires RowsOk(Tables())
      modifies this`anchors, this`leases
      ensures r.Returned? <==> Unused(old(Tables()), anchor, namespace, recordKey) && IsLive(old(Tables()), lease, createdAt)
                               && !IsQuarantined(old(Tables()), old(leases)[lease].digest)
      ensures r.Threw? ==> Here() == old(Here())
      ensures r.Threw? ==> IsAnchorRefusal(old(Tables()), lease, anchor, namespace, recordKey, createdAt, r.error)
      ensures RowsOk(Tables())
      ensures r.Returned? ==> lease in old(leases) && r.value == old(leases)[lease].byteLength && leases == old(leases) - {lease}
      ensures r.Returned? ==>
        anchors == old(anchors)[anchor := Anchor(namespace, recordKey, old(leases)[lease].digest, r.value, createdAt)]
      ensures r.Returned? ==> SparesAlways(old(Tables()), Tables(), old(leases)[lease].digest)
    {
      hide RowsOk, SparesAlways, Step, Takes, Unused, IsLive, IsQuarantined;
      ghost var db := Tables();
      AnchorTakesLease(db, lease, anchor, namespace, recordKey, createdAt);
      AnchoringHolds(db, lease, anchor, namespace, recordKey, createdAt);
      if anchor in anchors || anchor in retired { return Threw(Unavailable); }
      if lease !in leases || leases[lease].expiresAt <= createdAt { return Threw(NotFound); }
      var digest, byteLength := leases[lease].digest, leases[lease].byteLength;
      if digest in revisions && revisions[digest].state.Quarantined? { return Threw(QuarantinedError); }
      if digest !in revisions || !revisions[digest].state.Published? || revisions[digest].byteLength != byteLength {
        return Threw(NotFound);
      }
      if exists a :: a in anchors && anchors[a].namespace == namespace && anchors[a].recordKey == recordKey {
        return Threw(ConstraintError);
      }
      anchors := anchors[anchor := Anchor(namespace, recordKey, digest, byteLength, createdAt)];
      leases := leases - {lease};
      r := Outcome.Returned(byteLength);
    }

    /**
     * The end of an anchor, never refused. Its id stays retired, and collection takes its revision from then on exactly
     * when no other pin holds it.
     */
    method ReleaseAnchor(anchor: AnchorId, now: Time) returns (r: Outcome<bool>)
      requires RowsOk(Tables())
      modifies this`anchors, this`retired
      ensures r == Outcome.Returned(anchor in old(anchors)) && RowsOk(Tables()) && anchor !in anchors
      ensures !r.value ==> Here() == old(Here())
      ensures r.value ==> anchors == old(anchors) - {anchor} && retired == old(retired)[anchor := now]
      ensures r.value ==> LetsGo(old(Tables()), Tables(), anchor)
    {
      hide RowsOk, LetsGo, Step, Takes;
      ghost var db := Tables();
      ReleasingHolds(db, anchor, now);
      if anchor !in anchors { return Outcome.Returned(false); }
      if anchor in retired { return Threw(ConstraintError); }
      anchors := anchors - {anchor};
      retired := retired[anchor := now];
      r := Outcome.Returned(true);
    }

    // ----- Repair -----

    method AdoptPublicationRepair(digest: Digest, expected: Token, pid: Pid, token: Token, now: Time) returns (adopted: bool)
      modifies this`revisions, this`publications
      ensures var txn := AdoptRepair(old(Tables()), digest, expected, pid, token, now);
              Tables() == After(txn, old(Tables())) && adopted == txn.value
    {
      if digest !in revisions { return false; }
      var row := revisions[digest];
      if !row.state.Publishing? || row.owner.None? || row.owner.value.token != expected { return false; }
      revisions := revisions[digest := row.(owner := Some(Owner(pid, token)), updatedAt := now)];
      if digest in publications {
        publications := publications[digest := publications[digest].(owner := Owner(pid, token), claimedAt := now)];
      }
      return true;
    }

    method SettleRepairedPublication(digest: Digest, token: Token, now: Time)
      modifies this`revisions, this`publications
      ensures Tables() == SettleRepaired(old(Tables()), digest, token, now)
    {
      if digest in revisions {
        var row := revisions[digest];
        if row.state.Publishing? && row.owner.Some? && row.owner.value.token == token {
          revisions := revisions[digest := row.(state := Published, owner := None, updatedAt := now)];
        }
      }
      publications := publications - {digest};
    }

    /** DELETE FROM exact_revisions, with what the schema cascades and restricts. */
    method DeleteRevision(digest: Digest) returns (r: Outcome<()>)
      modifies this`revisions, this`publications, this`leases, this`deletions
      ensures var txn := ContentDatabase.DeleteRevision(old(Tables()), digest);
              Tables() == After(txn, old(Tables())) && r == OutcomeOf(txn)
    {
      if exists a :: a in anchors && anchors[a].digest == digest { return Threw(ConstraintError); }
      revisions := revisions - {digest};
      publications := publications - {digest};
      leases := map l | l in leases && leases[l].digest != digest :: leases[l];
      deletions := deletions - {digest};
      return Outcome.Returned(());
    }

    /** `repairPublication`, run without interruption on a publishing row whose owner is not fresh. */
    method RepairPublication(digest: Digest, self: Pid, token: Token, now: Time)
      requires digest in revisions && revisions[digest].state.Publishing?
      requires digest in publications && revisions[digest].owner.Some?
      modifies this
      ensures Here() == RepairedWorld(old(Here()), digest, self, token, now)
      ensures old(Recoverable(Here())) ==> RepairedTo(old(Here()), Here(), digest, now)
    {
      ghost var before := Here();
      if Recoverable(before) { RepairEnds(before, digest, self, token, now); }
      hide Recoverable, RepairedTo;
      var content, temp := Content(digest, revisions[digest].byteLength), publications[digest].temp;
      var adopted := AdoptPublicationRepair(digest, revisions[digest].owner.value.token, self, token, now);
      if digest in blobs && blobs[digest] == content {
        staged := staged - {temp};
        SettleRepairedPublication(digest, token, now);
      } else if temp in staged && staged[temp] == content {
        blobs := blobs[digest := staged[temp]];
        staged := staged - {temp};
        SettleRepairedPublication(digest, token, now);
      } else {
        staged := staged - {temp};
        var dropped := DeleteRevision(digest);
      }
    }

    method FinishDeletion(digest: Digest)
      modifies this
      ensures Here() == FinishedWorld(old(Here()), digest)
    {
      blobs := blobs - {digest};
      if digest in revisions && revisions[digest].state.Deleting? {
        var deleted := DeleteRevision(digest);
      } else {
        deletions := deletions - {digest};
      }
    }

    // ----- Opening and collecting -----

    method RepairAdmissionStages(alive: set<Pid>)
      modifies this`staging, this`staged
      ensures Here() == Swept(old(Here()), alive) && IsSwept(old(Here()), Here(), alive)
    {
      var rows, files := staging, staged;
      var pending := rows.Keys;
      while pending != {}
        invariant pending <= rows.Keys
        invariant forall k :: k in staging <==> k in rows && (k in pending || rows[k].pid in alive)
        invariant forall k :: k in staging ==> staging[k] == rows[k]
        invariant forall k :: k in staged <==> k in files && !(k in rows && k !in pending && rows[k].pid !in alive)
        invariant forall k :: k in staged ==> staged[k] == files[k]
        decreases |pending|
      {
        SomeMember(pending);
        var stage :| stage in pending;
        pending := pending - {stage};
        if rows[stage].pid !in alive {
          staged := staged - {stage};
          if stage in staging && staging[stage].pid == rows[stage].pid && staging[stage].token == rows[stage].token {
            staging := staging - {stage};
          }
        }
      }
      SameEntries(staging, Swept(old(Here()), alive).db.staging);
      SameEntries(staged, Swept(old(Here()), alive).staged);
    }

    method RepairPublications(alive: set<Pid>, self: Pid, stale: Time, token: Token, now: Time)
      requires Recoverable(Here()) && NobodyElse(Tables(), alive)
      modifies this
      ensures Recoverable(Here()) && Preserves(old(Here()), Here())
      ensures staging == old(staging) && deletions == old(deletions) && PublishingRows(Tables()) == {}
      ensures Underway(old(Here()), Here(), {})
    {
      ghost var before := Here();
      AllWaiting(before);
      PreservesItself(before);
      hide Recoverable, Preserves, RepairedTo, Underway, NobodyElse;
      var publishing := set d | d in revisions && revisions[d].state.Publishing?;
      while publishing != {}
        invariant publishing == PublishingRows(Tables()) && publishing <= PublishingRows(before.db)
        invariant Recoverable(Here()) && Preserves(before, Here()) && staging == old(staging) && deletions == old(deletions)
        invariant NobodyElse(Tables(), alive) && Underway(before, Here(), publishing)
        decreases |publishing|
      {
        SomeMember(publishing);
        var digest :| digest in publishing;
        ghost var here := Here();
        RepairedRow(here, digest, self, token, now);
        RepairedRecoverable(here, digest, self, token, now);
        RepairedOwners(here, digest, self, token, now, alive);
        RepairEnds(here, digest, self, token, now);
        OwnerIsGone(here.db, digest, alive);
        WorldIsTidy(here);
        OneConcluded(before, here, RepairedWorld(here, digest, self, token, now), publishing, digest, now);
        var row := revisions[digest];
        var stillOwned := row.owner.value.pid in alive && now - row.updatedAt < stale;
        if !stillOwned {
          RepairPublication(digest, self, token, now);
        }
        PreservesTransitively(before, here, Here());
        publishing := publishing - {digest};
      }
    }

    method FinishDeletions()
      requires Recoverable(Here()) && PublishingRows(Tables()) == {}
      modifies this
      ensures Recoverable(Here()) && Preserves(old(Here()), Here())
      ensures staging == old(staging) && PublishingRows(Tables()) == {} && deletions == map[]
      ensures DeletionsDone(old(Here()), Here(), old(deletions).Keys)
    {
      ghost var before := Here();
      NoneDone(before);
      PreservesItself(before);
      ghost var done: set<Digest> := {};
      hide Preserves, DeletionsDone, RowFinished, Tidy, RowsOk, PublishingRows, FinishedWorld;
      var entries := deletions.Keys;
      while entries != {}
        invariant entries == deletions.Keys && PublishingRows(Tables()) == {}
        invariant done == before.db.deletions.Keys - entries && entries <= before.db.deletions.Keys && DeletionsDone(before, Here(), done)
        invariant Recoverable(Here()) && Preserves(before, Here()) && staging == old(staging)
        decreases |entries|
      {
        SomeMember(entries);
        var digest :| digest in entries;
        ghost var here := Here();
        FinishedRow(here, digest);
        RowIsFinished(here, FinishedWorld(here, digest), digest);
        OneDeletionDone(before, here, done, digest);
        FinishDeletion(digest);
        PreservesTransitively(before, here, Here());
        entries, done := entries - {digest}, done + {digest};
      }
      assert done == before.db.deletions.Keys;
      NoMembers(deletions);
    }

    /** The loop of the marking transaction over the selected rows. */
    method MarkRows(selected: set<Digest>, now: Time)
      requires selected <= revisions.Keys
      modifies this`revisions, this`deletions
      ensures Tables() == MarkAll(old(Tables()), selected, now)
    {
      ghost var before := Tables();
      var pending := selected;
      hide MarkAll;
      MarkNone(before, now);
      assert selected - pending == {};
      while pending != {}
        invariant pending <= selected <= before.revisions.Keys
        invariant Tables() == MarkAll(before, selected - pending, now)
        decreases |pending|
      {
        SomeMember(pending);
        var digest :| digest in pending;
        MarkOneMore(before, selected - pending, digest, now);
        assert selected - (pending - {digest}) == selected - pending + {digest};
        revisions := revisions[digest := revisions[digest].(state := Deleting, owner := None, updatedAt := now)];
        deletions := deletions[digest := Deletion(revisions[digest].byteLength, now)];
        pending := pending - {digest};
      }
      assert selected - pending == selected;
    }

    /** The marking transaction of `collectGarbage`. */
    method MarkGarbage(now: Time) returns (selected: set<Digest>)
      modifies this`leases, this`revisions, this`deletions
      ensures var txn := ContentDatabase.MarkGarbage(old(Tables()), now);
              Tables() == After(txn, old(Tables())) && selected == txn.value
    {
      leases := map l | l in leases && leases[l].expiresAt > now :: leases[l];
      assert Tables() == PurgeLeases(old(Tables()), now);
      selected := set d | d in revisions && revisions[d].state.Published?
                            && !(exists l :: l in leases && leases[l].digest == d && leases[l].expiresAt > now)
                            && !(exists a :: a in anchors && anchors[a].digest == d);
      assert selected == Collectable(PurgeLeases(old(Tables()), now), now);
      MarkRows(selected, now);
    }

    /** The loop of `collectGarbage` over the rows it marked. */
    method FinishMarked(selected: set<Digest>)
      requires RowsOk(Tables())
      requires forall d :: d in selected ==> d in revisions && revisions[d].state.Deleting?
      modifies this
      ensures forall d :: d in revisions <==> d in old(revisions) && d !in selected
      ensures forall d :: d in revisions ==> revisions[d] == old(revisions)[d]
      ensures forall d :: d in blobs <==> d in old(blobs) && d !in selected
      ensures forall d :: d in blobs ==> blobs[d] == old(blobs)[d]
      ensures anchors == old(anchors) && leases == old(leases) && staging == old(staging) && staged == old(staged)
    {
      ghost var before := Here();
      var pending := selected;
      hide RowsOk;
      while pending != {}
        invariant pending <= selected && RowsOk(Tables()) && Emptied(before, Here(), selected - pending)
        invariant forall d :: d in pending ==> d in revisions && revisions[d].state.Deleting?
        decreases |pending|
      {
        SomeMember(pending);
        var digest :| digest in pending;
        ghost var here := Here();
        FinishMarkedRow(here, digest);
        EmptiedByOne(before, here, selected - pending, digest);
        FinishDeletion(digest);
        assert selected - (pending - {digest}) == selected - pending + {digest};
        pending := pending - {digest};
      }
    }

    /** One uninterrupted `collectGarbage`: exactly the unpinned published revisions lose row and blob. */
    method CollectGarbage(alive: set<Pid>, now: Time) returns (revisionCount: nat)
      requires RowsOk(Tables())
      modifies this
      ensures var garbage := Collectable(PurgeLeases(old(Tables()), now), now);
              && revisionCount == |garbage|
              && (forall d :: d in revisions <==> d in old(revisions) && d !in garbage)
              && (forall d :: d in revisions ==> revisions[d] == old(revisions)[d])
              && (forall d :: d in blobs <==> d in old(blobs) && d !in garbage)
              && (forall d :: d in blobs ==> blobs[d] == old(blobs)[d])
      ensures anchors == old(anchors) && leases == PurgeLeases(old(Tables()), now).leases
      ensures OnlyUnpinnedGone(old(Tables()), Tables(), now)
      ensures staging == Swept(old(Here()), alive).db.staging && staged == Swept(old(Here()), alive).staged
    {
      hide IsSwept, OnlyUnpinnedGone;
      ghost var before := Tables();
      RepairAdmissionStages(alive);
      StageSteps(before, staging);
      assert Tables() == before.(staging := staging);
      MarkSteps(Tables(), now);
      StagingIsNotCollected(before, staging, now);
      hide RowsOk, Collectable;
      var selected := MarkGarbage(now);
      FinishMarked(selected);
      revisionCount := |selected|;
      OnlyUnpinned(before, Tables(), now);
    }

    /** Reopening after a crash, with no other live owner. */
    method RepairInterruptedState(alive: set<Pid>, self: Pid, stale: Time, token: Token, now: Time)
      requires Recoverable(Here()) && NobodyElse(Tables(), alive)
      modifies this
      ensures Recovered(old(Here()), Here())
    {
      ghost var before := Here();
      SweptRecoverable(before, alive);
      RepairAdmissionStages(alive);
      NoMembers(staging);
      ghost var swept := Here();
      SweptFiles(before, alive);
      RepairPublications(alive, self, stale, token, now);
      ghost var repaired := Here();
      FinishDeletions();
      NothingUnfinished(Here());
      BothPhases(swept, repaired, Here());
      SweepsNoPublication(before, swept, Here());
    }
  }

  lemma OwnerIsGone(db: Db, d: Digest, alive: set<Pid>)
    requires NobodyElse(db, alive) && d in db.revisions && db.revisions[d].owner.Some?
    ensures db.revisions[d].owner.value.pid !in alive
  {
  }

  lemma WorldIsTidy(w: World)
    requires Recoverable(w)
    ensures Tidy(w) && RowsOk(w.db)
  {
  }

  lemma RowIsFinished(w: World, w': World, d: Digest)
    requires RowFinished(w, w', d)
    ensures PublishingRows(w'.db) == {} && w'.db.staging == w.db.staging && w'.db.deletions == w.db.deletions - {d}
    ensures Preserves(w, w')
  {
  }

  lemma PreservesItself(w: World)
    ensures Preserves(w, w)
  {
  }

  lemma NoneDone(w: World)
    ensures DeletionsDone(w, w, {})
  {
  }

  /** Expired leases are gone, and just the published rows that no anchor and no other lease holds. */
  ghost predicate OnlyUnpinnedGone(db: Db, db': Db, now: Time) {
    && (forall l :: l in db'.leases <==> l in db.leases && db.leases[l].expiresAt > now)
    && forall d :: d in db.revisions ==>
         (d !in db'.revisions <==>
            && db.revisions[d].state.Published?
            && (forall a :: a in db.anchors ==> db.anchors[a].digest != d)
            && forall l :: l in db.leases && db.leases[l].expiresAt > now ==> db.leases[l].digest != d)
  }

  lemma OnlyUnpinned(db: Db, db': Db, now: Time)
    requires forall d :: d in db'.revisions <==> d in db.revisions && d !in Collectable(PurgeLeases(db, now), now)
    requires db'.leases == PurgeLeases(db, now).leases
    ensures OnlyUnpinnedGone(db, db', now)
  {
    CollectedRowsAreUnpinned(db, now);
  }

  lemma SweptFiles(w: World, alive: set<Pid>)
    ensures var w' := Swept(w, alive);
      && w'.db == w.db.(staging := w'.db.staging) && w'.blobs == w.blobs
      && forall k :: k !in w.db.staging ==> Lookup(w'.staged, k) == Lookup(w.staged, k)
  {
  }

  // ----- From runs to reopening -----

  /** Every instant of every orderly run, so a crash of everything at any step, can be reopened. */
  lemma CrashedStatesAreRecoverable(run: Trace, stale: Time, n: nat)
    requires IsRun(run, stale) && Orderly(run) && n < |run.states|
    ensures Recoverable(run.states[n].world)
  {
    OrderlyRunsAreNamed(run, stale, n);
    hide IsRun, Orderly, RowsOk, Tidy;
  }

  /** Reopening loses no leased or anchored revision: each pin is still there and still verifies. */
  lemma ReopeningKeepsPins(run: Trace, size: Digest -> nat, stale: Time, n: nat, w': World)
    requires IsRun(run, stale) && Disciplined(run, size) && n < |run.states|
    requires Recovered(run.states[n].world, w')
    ensures w'.db.anchors == run.states[n].world.db.anchors && w'.db.leases == run.states[n].world.db.leases
    ensures forall a :: a in w'.db.anchors ==> Verifies(w', Content(w'.db.anchors[a].digest, w'.db.anchors[a].byteLength))
    ensures forall l :: l in w'.db.leases ==> Verifies(w', Content(w'.db.leases[l].digest, w'.db.leases[l].byteLength))
  {
    var w := run.states[n].world;
    PinSafety(run, size, stale, n, 0);
    hide IsRun, Disciplined, Recoverable;
    forall a | a in w'.db.anchors
      ensures Verifies(w', Content(w'.db.anchors[a].digest, w'.db.anchors[a].byteLength))
    {
      assert Verifies(w, Content(w.db.anchors[a].digest, w.db.anchors[a].byteLength));
      assert IsPublished(w.db, w.db.anchors[a].digest);
    }
    forall l | l in w'.db.leases
      ensures Verifies(w', Content(w'.db.leases[l].digest, w'.db.leases[l].byteLength))
    {
      assert Verifies(w, Content(w.db.leases[l].digest, w.db.leases[l].byteLength));
      assert IsPublished(w.db, w.db.leases[l].digest);
    }
  }
}
