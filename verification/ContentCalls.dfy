/** Whole calls of the protocol that run without interruption: what each of them comes to. */
module ContentCalls {
  import opened Collections
  import opened ContentDatabase
  import opened ContentRows
  import opened ContentProtocol
  import opened ContentNaming
  import opened ContentStore

  /** The calls of others stand still while one takes a step for each input, until it is done. */
  function Alone(s: State, stale: Time, t: TaskId, inputs: seq<Input>): State
    decreases |inputs|
  {
    if inputs == [] || t !in s.tasks || IsDone(s.tasks[t].pc) then s
    else Alone(Apply(s, stale, Run(t, inputs[0])), stale, t, inputs[1..])
  }

  predicate Smooth(inputs: seq<Input>, n: nat) {
    |inputs| >= n && forall i :: 0 <= i < |inputs| ==> inputs[i].ok
  }

  predicate At(s: State, t: TaskId, pc: PC) {
    t in s.tasks && s.tasks[t].pc == pc
  }

  /** The call has come to a program counter, and the tables and files are these. */
  ghost predicate Comes(s: State, s': State, t: TaskId, w: World, pc: PC) {
    && At(s', t, pc) && s'.world == w && s'.now == s.now && s'.alive == s.alive && t in s.tasks
    && s'.tasks[t].pid == s.tasks[t].pid
  }

  lemma Steps(s: State, stale: Time, t: TaskId, inputs: seq<Input>)
    requires t in s.tasks && !IsDone(s.tasks[t].pc) && Smooth(inputs, 1)
    ensures var s' := Apply(s, stale, Run(t, inputs[0]));
      && Alone(s, stale, t, inputs) == Alone(s', stale, t, inputs[1..])
      && Smooth(inputs[1..], |inputs| - 1)
      && (!(s.tasks[t].pc.Admitting? && !inputs[0].ok) ==>
            Comes(s, s', t, StepOf(s, stale, t, inputs[0]).world, StepOf(s, stale, t, inputs[0]).pc))
  {
    hide StepOf;
  }

  lemma Rests(s: State, stale: Time, t: TaskId, inputs: seq<Input>)
    requires t in s.tasks && IsDone(s.tasks[t].pc)
    ensures Alone(s, stale, t, inputs) == s
  {
  }

  // ----- Repair -----

  /** Somebody else's publication is taken over only if its owner does not run, or has not moved for long enough. */
  lemma JudgesAlone(s: State, stale: Time, t: TaskId, inputs: seq<Input>, f: Found, owner: Pid, updated: Time)
    requires At(s, t, Judging(f, owner, updated)) && Smooth(inputs, 1)
    ensures var s' := Apply(s, stale, Run(t, inputs[0]));
      Comes(s, s', t, s.world, if owner !in s.alive || s.now - updated >= stale then Repairing(Adopt, f) else Ended)
  {
    Steps(s, stale, t, inputs);
  }

  lemma SettlesAlone(s: State, stale: Time, t: TaskId, inputs: seq<Input>, f: Found)
    requires At(s, t, Repairing(SettleRow, f)) && Smooth(inputs, 1)
    ensures var w := s.world;
      Comes(s, Alone(s, stale, t, inputs), t, w.(db := SettleRepaired(w.db, f.content.digest, f.token, s.now)), Ended)
  {
    hide SettleRepaired;
    Steps(s, stale, t, inputs);
    Rests(Apply(s, stale, Run(t, inputs[0])), stale, t, inputs[1..]);
  }

  lemma UnlinksAlone(s: State, stale: Time, t: TaskId, inputs: seq<Input>, f: Found)
    requires At(s, t, Repairing(UnlinkStaged, f)) && Smooth(inputs, 2)
    ensures var w := s.world;
      Comes(s, Alone(s, stale, t, inputs), t,
            World(SettleRepaired(w.db, f.content.digest, f.token, s.now), w.blobs, w.staged - {f.temp}), Ended)
  {
    hide SettleRepaired, Alone;
    Steps(s, stale, t, inputs);
    SettlesAlone(Apply(s, stale, Run(t, inputs[0])), stale, t, inputs[1..], f);
  }

  lemma RenamesAlone(s: State, stale: Time, t: TaskId, inputs: seq<Input>, f: Found)
    requires At(s, t, Repairing(RenameStaged, f)) && Smooth(inputs, 2) && f.temp in s.world.staged
    ensures var w, d := s.world, f.content.digest;
      Comes(s, Alone(s, stale, t, inputs), t,
            World(SettleRepaired(w.db, d, f.token, s.now), w.blobs[d := w.staged[f.temp]], w.staged - {f.temp}), Ended)
  {
    hide SettleRepaired, Alone;
    Steps(s, stale, t, inputs);
    SettlesAlone(Apply(s, stale, Run(t, inputs[0])), stale, t, inputs[1..], f);
  }

  lemma DropsAlone(s: State, stale: Time, t: TaskId, inputs: seq<Input>, f: Found)
    requires At(s, t, Repairing(DropStaged, f)) && Smooth(inputs, 2)
    ensures var w := s.world;
      Comes(s, Alone(s, stale, t, inputs), t,
            World(After(DropPublication(w.db, f.content.digest, f.token), w.db), w.blobs, w.staged - {f.temp}), Ended)
  {
    hide DropPublication, Alone;
    Steps(s, stale, t, inputs);
    var s' := Apply(s, stale, Run(t, inputs[0]));
    Steps(s', stale, t, inputs[1..]);
    Rests(Apply(s', stale, Run(t, inputs[1..][0])), stale, t, inputs[1..][1..]);
  }

  lemma ChecksAlone(s: State, stale: Time, t: TaskId, inputs: seq<Input>, f: Found)
    requires At(s, t, Repairing(CheckFinal, f)) && Smooth(inputs, 4)
    ensures var w, d, s' := s.world, f.content.digest, Alone(s, stale, t, inputs);
      var rest := w.staged - {f.temp};
      Comes(s, s', t,
            if Lookup(w.blobs, d) == Some(f.content) then World(SettleRepaired(w.db, d, f.token, s.now), w.blobs, rest)
            else if Lookup(w.staged, f.temp) == Some(f.content) then
              World(SettleRepaired(w.db, d, f.token, s.now), w.blobs[d := f.content], rest)
            else World(After(DropPublication(w.db, d, f.token), w.db), w.blobs, rest), Ended)
  {
    hide SettleRepaired, DropPublication, Alone;
    Steps(s, stale, t, inputs);
    var s1 := Apply(s, stale, Run(t, inputs[0]));
    if Lookup(s.world.blobs, f.content.digest) == Some(f.content) {
      UnlinksAlone(s1, stale, t, inputs[1..], f);
    } else {
      Steps(s1, stale, t, inputs[1..]);
      var s2 := Apply(s1, stale, Run(t, inputs[1..][0]));
      if Lookup(s.world.staged, f.temp) == Some(f.content) {
        RenamesAlone(s2, stale, t, inputs[1..][1..], f);
      } else {
        DropsAlone(s2, stale, t, inputs[1..][1..], f);
      }
    }
  }

  /** `repairPublication` without interruption: what the object does, with the condition for each end. */
  lemma RepairAlone(s: State, stale: Time, t: TaskId, inputs: seq<Input>, d: Digest)
    requires Recoverable(s.world) && d in s.world.db.revisions && s.world.db.revisions[d].state.Publishing?
    requires d in s.world.db.publications && s.world.db.revisions[d].owner.Some? && Smooth(inputs, 5)
    requires var row := s.world.db.revisions[d];
      At(s, t, Repairing(Adopt, Found(Content(d, row.byteLength), row.owner.value.token, s.world.db.publications[d].temp)))
    ensures var s' := Alone(s, stale, t, inputs);
      Comes(s, s', t, RepairedWorld(s.world, d, s.tasks[t].pid, s.next, s.now), Ended) && RepairedTo(s.world, s'.world, d, s.now)
  {
    var w, row := s.world, s.world.db.revisions[d];
    var f := Found(Content(d, row.byteLength), row.owner.value.token, w.db.publications[d].temp);
    RepairEnds(w, d, s.tasks[t].pid, s.next, s.now);
    hide Recoverable, RepairedTo, Alone, SettleRepaired, DropPublication;
    Steps(s, stale, t, inputs);
    ChecksAlone(Apply(s, stale, Run(t, inputs[0])), stale, t, inputs[1..], f.(token := s.next));
  }

  // ----- Verification -----

  /** `verifyReference` without interruption: it changes nothing unless the bytes are wrong; then row and blob are set aside. */
  lemma VerifyAlone(s: State, stale: Time, t: TaskId, inputs: seq<Input>, c: Content)
    requires At(s, t, Verifying(ReadRow, c, Caller.Alone)) && Smooth(inputs, 4)
    ensures var w, d := s.world, c.digest;
      var row := Lookup(w.db.revisions, d);
      var there := row.Some? && row.value.state.Published? && row.value.byteLength == c.byteLength;
      Comes(s, Alone(s, stale, t, inputs), t,
            if !there || Lookup(w.blobs, d) == Some(c) then w
            else World(w.db.(revisions := w.db.revisions[d := Revision(c.byteLength, Quarantined, None, s.now)],
                             publications := w.db.publications - {d}), w.blobs - {d}, w.staged),
            if there && Lookup(w.blobs, d) == Some(c) then Ended else Failed)
  {
    hide Alone;
    Steps(s, stale, t, inputs);
    var s1 := Apply(s, stale, Run(t, inputs[0]));
    if !Available(s.world.db, c) {
      Rests(s1, stale, t, inputs[1..]);
    } else {
      Steps(s1, stale, t, inputs[1..]);
      var s2 := Apply(s1, stale, Run(t, inputs[1..][0]));
      if Lookup(s.world.blobs, c.digest) == Some(c) {
        Rests(s2, stale, t, inputs[1..][1..]);
      } else {
        QuarantinesAlone(s2, stale, t, inputs[1..][1..], c, Caller.Alone);
        var s3 := Apply(s2, stale, Run(t, inputs[1..][1..][0]));
        Rests(Apply(s3, stale, Run(t, inputs[1..][1..][1..][0])), stale, t, inputs[1..][1..][1..][1..]);
      }
    }
  }

  lemma QuarantinesAlone(s: State, stale: Time, t: TaskId, inputs: seq<Input>, c: Content, caller: Caller)
    requires At(s, t, Verifying(QuarantineRow, c, caller)) && Smooth(inputs, 2)
    ensures var s1 := Apply(s, stale, Run(t, inputs[0]));
      && Smooth(inputs[1..], 1) && At(s1, t, Verifying(MoveAside, c, caller))
      && var s2 := Apply(s1, stale, Run(t, inputs[1..][0]));
      && Comes(s, s2, t, World(Quarantine(s.world.db, c.digest, s.now), s.world.blobs - {c.digest}, s.world.staged), Failure(caller))
      && Alone(s, stale, t, inputs) == Alone(s2, stale, t, inputs[1..][1..])
  {
    hide Quarantine;
    Steps(s, stale, t, inputs);
    Steps(Apply(s, stale, Run(t, inputs[0])), stale, t, inputs[1..]);
  }

  // ----- Sweeping -----

  /** `repairAdmissionStage` without interruption: the stage of a process that does not run loses file and row. */
  lemma SweepAlone(s: State, stale: Time, t: TaskId, inputs: seq<Input>, stage: StageId)
    requires stage in s.world.db.staging && Smooth(inputs, 3)
    requires var row := s.world.db.staging[stage]; At(s, t, Sweeping(JudgeOwner, stage, row.pid, row.token))
    ensures var w := s.world;
      Comes(s, Alone(s, stale, t, inputs), t,
            if w.db.staging[stage].pid in s.alive then w
            else World(w.db.(staging := w.db.staging - {stage}), w.blobs, w.staged - {stage}), Ended)
  {
    hide Alone;
    Steps(s, stale, t, inputs);
    var s1 := Apply(s, stale, Run(t, inputs[0]));
    if s.world.db.staging[stage].pid in s.alive {
      Rests(s1, stale, t, inputs[1..]);
    } else {
      Steps(s1, stale, t, inputs[1..]);
      var s2 := Apply(s1, stale, Run(t, inputs[1..][0]));
      Steps(s2, stale, t, inputs[1..][1..]);
      Rests(Apply(s2, stale, Run(t, inputs[1..][1..][0])), stale, t, inputs[1..][1..][1..]);
    }
  }

  // ----- Collection -----

  /** Two steps for each digest in turn, and one to end. */
  ghost predicate Finishes(inputs: seq<Input>, ds: seq<Digest>) {
    && Smooth(inputs, 2 * |ds| + 1) && forall i :: 0 <= i < |ds| ==> inputs[2 * i].digest == ds[i]
  }

  lemma FinishesNext(inputs: seq<Input>, ds: seq<Digest>)
    requires Finishes(inputs, ds) && ds != []
    ensures Smooth(inputs, 2) && inputs[0].digest == ds[0] && Smooth(inputs[1..], 2 * |ds|) && Finishes(inputs[1..][1..], ds[1..])
  {
    var rest := inputs[1..][1..];
    forall i | 0 <= i < |ds| - 1 ensures rest[2 * i].digest == ds[1..][i] { assert inputs[2 * (i + 1)].digest == ds[i + 1]; }
  }

  lemma FinishOneAlone(s: State, stale: Time, t: TaskId, inputs: seq<Input>, pending: set<Digest>, d: Digest)
    requires At(s, t, Collecting(Finishing(pending))) && Smooth(inputs, 2) && d in pending && inputs[0].digest == d
    ensures var s1 := Apply(s, stale, Run(t, inputs[0]));
      && Smooth(inputs[1..], 1) && At(s1, t, Collecting(FinishingRow(d, pending)))
      && var s2 := Apply(s1, stale, Run(t, inputs[1..][0]));
      && Comes(s, s2, t, FinishedWorld(s.world, d), Collecting(Finishing(pending - {d})))
      && Alone(s, stale, t, inputs) == Alone(s2, stale, t, inputs[1..][1..])
  {
    hide FinishDeletion;
    Steps(s, stale, t, inputs);
    Steps(Apply(s, stale, Run(t, inputs[0])), stale, t, inputs[1..]);
  }

  lemma FinishedDb(w: World, d: Digest)
    requires RowsOk(w.db) && d in w.db.deletions
    ensures RowsOk(FinishedWorld(w, d).db) && FinishedWorld(w, d).db.deletions == w.db.deletions - {d}
    ensures SameElsewhere(w, FinishedWorld(w, d))
  {
    FinishEnds(w, d);
    hide RowsOk;
  }

  /** Finishing touches revisions, deletion entries and blobs only. */
  ghost predicate SameElsewhere(w: World, w': World) {
    && w'.db.staging == w.db.staging && w'.db.publications == w.db.publications && w'.db.leases == w.db.leases
    && w'.db.anchors == w.db.anchors && w'.db.retired == w.db.retired && w'.staged == w.staged
  }

  /** The loop of `finishDeletion` without interruption, whatever the order. */
  lemma {:induction false} FinishAlone(w: World, done: set<Digest>, s: State, stale: Time, t: TaskId, inputs: seq<Input>, ds: seq<Digest>)
    requires At(s, t, Collecting(Finishing(Members(ds)))) && Finishes(inputs, ds)
    requires forall i, j :: 0 <= i < j < |ds| ==> ds[i] != ds[j]
    requires RowsOk(s.world.db) && (forall d :: d in ds ==> d in s.world.db.deletions && d !in done)
    requires DeletionsDone(w, s.world, done) && SameElsewhere(w, s.world)
    ensures var s' := Alone(s, stale, t, inputs);
      && At(s', t, Ended) && DeletionsDone(w, s'.world, done + Members(ds)) && SameElsewhere(w, s'.world)
    decreases |ds|
  {
    hide Alone, DeletionsDone, RowsOk, FinishedWorld, Members, Finishes, SameElsewhere;
    if ds == [] {
      EmptyMembers(ds);
      FinishesLast(inputs, ds);
      Steps(s, stale, t, inputs);
      Rests(Apply(s, stale, Run(t, inputs[0])), stale, t, inputs[1..]);
      assert done + {} == done;
    } else {
      var d := ds[0];
      FinishesNext(inputs, ds);
      FirstMember(ds);
      FinishOneAlone(s, stale, t, inputs, Members(ds), d);
      OneDeletionDone(w, s.world, done, d);
      FinishedDb(s.world, d);
      ElsewhereBoth(w, s.world, FinishedWorld(s.world, d));
      JoinsDone(done, ds);
      var s2 := Apply(Apply(s, stale, Run(t, inputs[0])), stale, Run(t, inputs[1..][0]));
      FinishAlone(w, done + {d}, s2, stale, t, inputs[1..][1..], ds[1..]);
    }
  }

  lemma ElsewhereBoth(w0: World, w1: World, w2: World)
    requires SameElsewhere(w0, w1) && SameElsewhere(w1, w2)
    ensures SameElsewhere(w0, w2)
  {
  }

  lemma JoinsDone(done: set<Digest>, ds: seq<Digest>)
    requires ds != [] && Members(ds) == {ds[0]} + Members(ds[1..])
    ensures done + {ds[0]} + Members(ds[1..]) == done + Members(ds)
  {
    hide Members;
  }

  lemma FinishesLast(inputs: seq<Input>, ds: seq<Digest>)
    requires Finishes(inputs, ds)
    ensures Smooth(inputs, 1)
  {
  }

  lemma EmptyMembers(ds: seq<Digest>)
    requires ds == []
    ensures Members(ds) == {}
  {
  }

  lemma FirstMember(ds: seq<Digest>)
    requires ds != [] && forall i, j :: 0 <= i < j < |ds| ==> ds[i] != ds[j]
    ensures ds[0] in ds && ds[0] in Members(ds) && Members(ds) == {ds[0]} + Members(ds[1..]) && Members(ds) - {ds[0]} == Members(ds[1..])
    ensures forall d :: d in ds[1..] ==> d in ds && d != ds[0]
  {
    assert forall d :: d in ds <==> d == ds[0] || d in ds[1..];
  }

  /** `collectGarbage` without interruption: exactly the published rows without anchor and without a lease that goes on
      lose row and blob, whatever the order in which they are finished. */
  lemma CollectAlone(s: State, stale: Time, t: TaskId, now: Time, inputs: seq<Input>, ds: seq<Digest>)
    requires At(s, t, Collecting(Marking(now))) && RowsOk(s.world.db) && Smooth(inputs, 1) && Finishes(inputs[1..], ds)
    requires (forall i, j :: 0 <= i < j < |ds| ==> ds[i] != ds[j]) && forall d :: d in ds <==> Takes(s.world.db, d, now)
    ensures var w, s' := s.world, Alone(s, stale, t, inputs);
      && At(s', t, Ended) && s'.world.db.anchors == w.db.anchors && s'.world.db.staging == w.db.staging && s'.world.staged == w.staged
      && (forall l :: Lookup(s'.world.db.leases, l) ==
            if l in w.db.leases && w.db.leases[l].expiresAt > now then Some(w.db.leases[l]) else None)
      && forall d :: if d in w.db.revisions && w.db.revisions[d].state.Published? && !Anchored(w.db, d) && !LeasedAfter(w.db, d, now)
                     then d !in s'.world.db.revisions && d !in s'.world.blobs
                     else Lookup(s'.world.db.revisions, d) == Lookup(w.db.revisions, d) && Lookup(s'.world.blobs, d) == Lookup(w.blobs, d)
  {
    hide Alone, DeletionsDone, RowsOk, MarkGarbage, Anchored, LeasedAfter, Takes, Finishes, Members, SameElsewhere;
    var w := s.world;
    MarkKeepsRows(w.db, now);
    MarkedRows(w.db, now);
    SameMembers(ds, MarkGarbage(w.db, now).value);
    var marked := w.(db := MarkGarbage(w.db, now).db);
    NoneDone(marked);
    StaysElsewhere(marked);
    Steps(s, stale, t, inputs);
    FinishAlone(marked, {}, Apply(s, stale, Run(t, inputs[0])), stale, t, inputs[1..], ds);
    assert {} + Members(ds) == Members(ds);
    var end := Alone(s, stale, t, inputs).world;
    ElsewhereIs(marked, end);
    MarkedAndDone(w, marked, end, Members(ds), now);
  }

  lemma MarkKeepsRows(db: Db, now: Time)
    requires RowsOk(db)
    ensures MarkGarbage(db, now).Commit? && RowsOk(MarkGarbage(db, now).db)
  {
    MarkSteps(db, now);
  }

  lemma StaysElsewhere(w: World)
    ensures SameElsewhere(w, w)
  {
  }

  lemma ElsewhereIs(w: World, w': World)
    requires SameElsewhere(w, w')
    ensures w'.db.anchors == w.db.anchors && w'.db.staging == w.db.staging && w'.staged == w.staged && w'.db.leases == w.db.leases
  {
  }

  lemma SameMembers(ds: seq<Digest>, s: set<Digest>)
    requires forall d :: d in ds <==> d in s
    ensures Members(ds) == s
  {
    if Members(ds) - s != {} { SomeMember(Members(ds) - s); }
    if s - Members(ds) != {} { SomeMember(s - Members(ds)); }
  }

  /** The marking transaction, row by row. */
  lemma MarkedRows(db: Db, now: Time)
    ensures var marked := MarkGarbage(db, now);
      && (forall d :: d in marked.value <==> Takes(db, d, now))
      && (forall d :: d in marked.value ==> d in marked.db.deletions && d in db.revisions && d in marked.db.revisions && marked.db.revisions[d].state.Deleting?)
      && (forall d :: d !in marked.value ==> Lookup(marked.db.revisions, d) == Lookup(db.revisions, d))
      && marked.db.anchors == db.anchors && marked.db.staging == db.staging
      && (forall l :: Lookup(marked.db.leases, l) ==
            if l in db.leases && db.leases[l].expiresAt > now then Some(db.leases[l]) else None)
  {
  }

  lemma MarkedAndDone(w: World, marked: World, end: World, taken: set<Digest>, now: Time)
    requires DeletionsDone(marked, end, taken) && marked.blobs == w.blobs
    requires forall d :: d in taken <==> Takes(w.db, d, now)
    requires forall d :: d in taken ==> d in marked.db.revisions && marked.db.revisions[d].state.Deleting?
    requires forall d :: d !in taken ==> Lookup(marked.db.revisions, d) == Lookup(w.db.revisions, d)
    ensures forall d :: if d in w.db.revisions && w.db.revisions[d].state.Published? && !Anchored(w.db, d) && !LeasedAfter(w.db, d, now)
      then d !in end.db.revisions && d !in end.blobs
      else Lookup(end.db.revisions, d) == Lookup(w.db.revisions, d) && Lookup(end.blobs, d) == Lookup(w.blobs, d)
  {
    hide Anchored, LeasedAfter, Takes;
    forall d ensures if d in w.db.revisions && w.db.revisions[d].state.Published? && !Anchored(w.db, d) && !LeasedAfter(w.db, d, now)
      then d !in end.db.revisions && d !in end.blobs
      else Lookup(end.db.revisions, d) == Lookup(w.db.revisions, d) && Lookup(end.blobs, d) == Lookup(w.blobs, d)
    {
      TakesUnpinned(w.db, d, now);
      assert d in taken || SameRow(marked, end, d);
    }
  }

  // ----- Admission -----

  /** A grant is for the lease asked for, and it lasts: at least one tick from the time the stage was complete. */
  lemma GrantsLast(s: State, stale: Time, t: TaskId, inputs: seq<Input>, k: Token, c: Content)
    requires At(s, t, Admitting(k, Touching(c))) && Smooth(inputs, 1)
    ensures var w, i, s' := s.world, inputs[0], Apply(s, stale, Run(t, inputs[0]));
      if t in w.db.staging && w.db.staging[t].pid == s.tasks[t].pid && w.db.staging[t].token == k then
        var g := Grant(i.lease, s.now + if i.leaseMs < 1 then 1 else i.leaseMs);
        && g.expiresAt > s.now
        && Comes(s, s', t, w.(db := w.db.(staging := w.db.staging[t := w.db.staging[t].(updatedAt := s.now)])), Admitting(k, Claiming(c, g)))
      else Comes(s, s', t, w, CleanUp(k))
  {
    Steps(s, stale, t, inputs);
  }

  /** A claim that meets a publication of somebody else waits for as long as it goes on, and touches nothing. */
  lemma {:induction false} WaitsAlone(s: State, stale: Time, t: TaskId, inputs: seq<Input>, k: Token, c: Content, g: Grant)
    requires At(s, t, Admitting(k, Claiming(c, g))) && Smooth(inputs, 0)
    requires Lookup(s.world.db.revisions, c.digest).Some?
    requires var row := s.world.db.revisions[c.digest]; row.state.Publishing? && row.byteLength == c.byteLength
    ensures Comes(s, Alone(s, stale, t, inputs), t, s.world, Admitting(k, Claiming(c, g)))
    decreases |inputs|
  {
    if inputs != [] {
      hide Alone;
      Steps(s, stale, t, inputs);
      WaitsAlone(Apply(s, stale, Run(t, inputs[0])), stale, t, inputs[1..], k, c, g);
    }
  }

  /** The call holds its stage, the file is in place, and the lease is not in use. */
  predicate IsStaged(s: State, t: TaskId, k: Token, c: Content, g: Grant) {
    && t in s.world.db.staging && s.world.db.staging[t].token == k && t in s.world.staged && s.world.staged[t] == c
    && g.lease !in s.world.db.leases
  }

  function Unstaged(w: World, t: TaskId): World {
    w.(db := w.db.(staging := w.db.staging - {t}), staged := w.staged - {t})
  }

  lemma CleansAlone(s: State, stale: Time, t: TaskId, inputs: seq<Input>, k: Token, r: Option<Granted>)
    requires At(s, t, Admitting(k, CleaningFile(r))) && Smooth(inputs, 2)
    requires t in s.world.db.staging ==> s.world.db.staging[t].token == k
    ensures Comes(s, Alone(s, stale, t, inputs), t, Unstaged(s.world, t), if r.Some? then PC.Returned(r.value) else Failed)
  {
    hide Alone;
    Steps(s, stale, t, inputs);
    var s1 := Apply(s, stale, Run(t, inputs[0]));
    Steps(s1, stale, t, inputs[1..]);
    Rests(Apply(s1, stale, Run(t, inputs[1..][0])), stale, t, inputs[1..][1..]);
    NothingToForget(s.world.db.staging, t);
  }

  lemma NothingToForget(staging: map<StageId, Stage>, t: StageId)
    ensures t !in staging ==> staging - {t} == staging
  {
  }

  /** Of another length, being deleted or quarantined: the call fails, and only its own stage goes. */
  lemma RefusedAlone(s: State, stale: Time, t: TaskId, inputs: seq<Input>, k: Token, c: Content, g: Grant)
    requires At(s, t, Admitting(k, Claiming(c, g))) && Smooth(inputs, 3) && IsStaged(s, t, k, c, g)
    requires Lookup(s.world.db.revisions, c.digest).Some?
    requires var row := s.world.db.revisions[c.digest];
      row.byteLength != c.byteLength || row.state.Deleting? || row.state.Quarantined?
    ensures Comes(s, Alone(s, stale, t, inputs), t, Unstaged(s.world, t), Failed)
  {
    hide Alone;
    Steps(s, stale, t, inputs);
    CleansAlone(Apply(s, stale, Run(t, inputs[0])), stale, t, inputs[1..], k, None);
  }

  /** Already published: a lease on it if its bytes are right. Otherwise row and blob are set aside. */
  lemma LeasesAlone(s: State, stale: Time, t: TaskId, inputs: seq<Input>, k: Token, c: Content, g: Grant)
    requires At(s, t, Admitting(k, Claiming(c, g))) && Smooth(inputs, 8) && IsStaged(s, t, k, c, g)
    requires Lookup(s.world.db.revisions, c.digest).Some?
    requires var row := s.world.db.revisions[c.digest]; row.byteLength == c.byteLength && row.state.Published?
    ensures var w, d := s.world, c.digest;
      var leased := w.db.(leases := w.db.leases[g.lease := Lease(d, c.byteLength, g.expiresAt, s.now)]);
      if Lookup(w.blobs, d) == Some(c) then
        Comes(s, Alone(s, stale, t, inputs), t, Unstaged(w.(db := leased), t), PC.Returned(Granted(c, g)))
      else
        Comes(s, Alone(s, stale, t, inputs), t, Unstaged(World(Quarantine(leased, d, s.now), w.blobs - {d}, w.staged), t), Failed)
  {
    hide Alone, Quarantine;
    Steps(s, stale, t, inputs);
    var s1, in1 := Apply(s, stale, Run(t, inputs[0])), inputs[1..];
    Steps(s1, stale, t, in1);
    var s2, in2 := Apply(s1, stale, Run(t, in1[0])), in1[1..];
    Steps(s2, stale, t, in2);
    var s3, in3 := Apply(s2, stale, Run(t, in2[0])), in2[1..];
    ChecksLeased(s3, stale, t, in3, k, c, g);
  }

  lemma ChecksLeased(s: State, stale: Time, t: TaskId, inputs: seq<Input>, k: Token, c: Content, g: Grant)
    requires At(s, t, Verifying(Check, c, Admission(k, g))) && Smooth(inputs, 5)
    requires t in s.world.db.staging ==> s.world.db.staging[t].token == k
    ensures var w, d := s.world, c.digest;
      if Lookup(w.blobs, d) == Some(c) then
        Comes(s, Alone(s, stale, t, inputs), t, Unstaged(w, t), PC.Returned(Granted(c, g)))
      else
        Comes(s, Alone(s, stale, t, inputs), t, Unstaged(World(Quarantine(w.db, d, s.now), w.blobs - {d}, w.staged), t), Failed)
  {
    hide Alone;
    Steps(s, stale, t, inputs);
    var s1, in1 := Apply(s, stale, Run(t, inputs[0])), inputs[1..];
    if Lookup(s.world.blobs, c.digest) == Some(c) {
      CleansAlone(s1, stale, t, in1, k, Some(Granted(c, g)));
    } else {
      QuarantinesAlone(s1, stale, t, in1, c, Admission(k, g));
      var s2 := Apply(Apply(s1, stale, Run(t, in1[0])), stale, Run(t, in1[1..][0]));
      CleansAlone(s2, stale, t, in1[1..][1..], k, None);
    }
  }

  /** What a claim makes of the tables. */
  function Claimed(db: Db, c: Content, t: TaskId, pid: Pid, token: Token, now: Time): Db {
    db.(revisions := db.revisions[c.digest := Revision(c.byteLength, Publishing, Some(Owner(pid, token)), now)],
        publications := db.publications[c.digest := Publication(c.byteLength, Owner(pid, token), t, now)],
        staging := db.staging - {t})
  }

  /** Published with its bytes and leased, or set aside, from the tables before the claim. */
  ghost predicate IsPublication(w: World, end: World, t: TaskId, c: Content, g: Grant, now: Time) {
    var d := c.digest;
    var wrong := d in w.blobs && w.blobs[d] != c;
    && end.db.revisions == w.db.revisions[d := Revision(c.byteLength, if wrong then Quarantined else Published, None, now)]
    && end.db.publications == w.db.publications && end.db.staging == w.db.staging - {t} && end.staged == w.staged - {t}
    && end.db.anchors == w.db.anchors && end.db.retired == w.db.retired && end.db.deletions == w.db.deletions
    && end.db.leases == (if wrong then w.db.leases else w.db.leases[g.lease := Lease(d, c.byteLength, g.expiresAt, now)])
    && end.blobs == if wrong then w.blobs - {d} else w.blobs[d := c]
  }

  /** Not there yet: published with its bytes and leased, unless wrong bytes lie in its place; then those are set aside. */
  lemma PublishesAlone(s: State, stale: Time, t: TaskId, inputs: seq<Input>, k: Token, c: Content, g: Grant)
    requires At(s, t, Admitting(k, Claiming(c, g))) && Smooth(inputs, 8) && IsStaged(s, t, k, c, g)
    requires c.digest !in s.world.db.revisions && c.digest !in s.world.db.publications
    ensures var w, d, end := s.world, c.digest, Alone(s, stale, t, inputs);
      && At(end, t, if d in w.blobs && w.blobs[d] != c then Failed else PC.Returned(Granted(c, g)))
      && IsPublication(w, end.world, t, c, g, s.now)
  {
    hide Alone, IsPublication, PublishedBy;
    Steps(s, stale, t, inputs);
    var s1, in1 := Apply(s, stale, Run(t, inputs[0])), inputs[1..];
    var h := Held(k, c, s.next, g);
    ClaimedIs(s, stale, t, inputs[0], k, c, g);
    HoldsAlone(s1, stale, t, in1, h);
    PublicationIs(s.world, s1.world, t, h, s.tasks[t].pid, s.now);
  }

  lemma ClaimedIs(s: State, stale: Time, t: TaskId, i: Input, k: Token, c: Content, g: Grant)
    requires At(s, t, Admitting(k, Claiming(c, g))) && i.ok && IsStaged(s, t, k, c, g)
    requires c.digest !in s.world.db.revisions && c.digest !in s.world.db.publications
    ensures var s1, h := Apply(s, stale, Run(t, i)), Held(k, c, s.next, g);
      && s1.world == s.world.(db := Claimed(s.world.db, c, t, s.tasks[t].pid, s.next, s.now))
      && At(s1, t, Holding(Stat, h)) && IsHeld(s1, t, h) && s1.now == s.now
  {
  }

  lemma PublicationIs(w: World, w1: World, t: TaskId, h: Held, pid: Pid, now: Time)
    requires w1 == w.(db := Claimed(w.db, h.content, t, pid, h.token, now))
    requires h.content.digest !in w.db.revisions && h.content.digest !in w.db.publications
    ensures var c, d := h.content, h.content.digest;
      if d in w1.blobs && w1.blobs[d] != c then
        IsPublication(w, World(w1.db.(revisions := w1.db.revisions[d := Revision(c.byteLength, Quarantined, None, now)],
                                      publications := w1.db.publications - {d}), w1.blobs - {d}, w1.staged - {t}), t, c, h.grant, now)
      else IsPublication(w, PublishedBy(w1, t, h, now), t, c, h.grant, now)
  {
    var d := h.content.digest;
    assert w1.db.publications - {d} == w.db.publications;
    assert d in w.blobs && w.blobs[d] == h.content ==> w.blobs[d := h.content] == w.blobs;
  }

  /** A claim that is still the call's own, with the stage in place. */
  predicate IsHeld(s: State, t: TaskId, h: Held) {
    && PublishingUnder(s.world.db, h.content.digest, h.token) && s.world.db.revisions[h.content.digest].byteLength == h.content.byteLength
    && t in s.world.staged && s.world.staged[t] == h.content && t !in s.world.db.staging && h.grant.lease !in s.world.db.leases
  }

  function PublishedBy(w: World, t: TaskId, h: Held, now: Time): World {
    var c, d := h.content, h.content.digest;
    World(w.db.(revisions := w.db.revisions[d := Revision(c.byteLength, Published, None, now)],
                publications := w.db.publications - {d},
                leases := w.db.leases[h.grant.lease := Lease(d, c.byteLength, h.grant.expiresAt, now)]),
          if d in w.blobs then w.blobs else w.blobs[d := c], w.staged - {t})
  }

  /** `publishOwned` without interruption: the stage becomes the blob, or goes when the blob is already there and right. Wrong
      bytes in that place are set aside with the row. */
  lemma HoldsAlone(s: State, stale: Time, t: TaskId, inputs: seq<Input>, h: Held)
    requires At(s, t, Holding(Stat, h)) && Smooth(inputs, 7) && IsHeld(s, t, h)
    ensures var w, c, d := s.world, h.content, h.content.digest;
      if d in w.blobs && w.blobs[d] != c then
        Comes(s, Alone(s, stale, t, inputs), t,
              World(w.db.(revisions := w.db.revisions[d := Revision(c.byteLength, Quarantined, None, s.now)],
                          publications := w.db.publications - {d}), w.blobs - {d}, w.staged - {t}), Failed)
      else Comes(s, Alone(s, stale, t, inputs), t, PublishedBy(w, t, h, s.now), PC.Returned(Granted(c, h.grant)))
  {
    if h.content.digest !in s.world.blobs { RenamesOwn(s, stale, t, inputs, h); }
    else if s.world.blobs[h.content.digest] == h.content { UnlinksOwn(s, stale, t, inputs, h); }
    else { DiscardsOwn(s, stale, t, inputs, h); }
    hide Alone;
  }

  lemma RenamesOwn(s: State, stale: Time, t: TaskId, inputs: seq<Input>, h: Held)
    requires At(s, t, Holding(Stat, h)) && Smooth(inputs, 7) && IsHeld(s, t, h) && h.content.digest !in s.world.blobs
    ensures Comes(s, Alone(s, stale, t, inputs), t, PublishedBy(s.world, t, h, s.now), PC.Returned(Granted(h.content, h.grant)))
  {
    hide Alone;
    Steps(s, stale, t, inputs);
    var s1, in1 := Apply(s, stale, Run(t, inputs[0])), inputs[1..];
    Steps(s1, stale, t, in1);
    SettlesOwnAlone(Apply(s1, stale, Run(t, in1[0])), stale, t, in1[1..], h);
  }

  lemma UnlinksOwn(s: State, stale: Time, t: TaskId, inputs: seq<Input>, h: Held)
    requires At(s, t, Holding(Stat, h)) && Smooth(inputs, 7) && IsHeld(s, t, h)
    requires h.content.digest in s.world.blobs && s.world.blobs[h.content.digest] == h.content
    ensures Comes(s, Alone(s, stale, t, inputs), t, PublishedBy(s.world, t, h, s.now), PC.Returned(Granted(h.content, h.grant)))
  {
    hide Alone;
    Steps(s, stale, t, inputs);
    var s1, in1 := Apply(s, stale, Run(t, inputs[0])), inputs[1..];
    Steps(s1, stale, t, in1);
    var s2, in2 := Apply(s1, stale, Run(t, in1[0])), in1[1..];
    Steps(s2, stale, t, in2);
    SettlesOwnAlone(Apply(s2, stale, Run(t, in2[0])), stale, t, in2[1..], h);
  }

  lemma DiscardsOwn(s: State, stale: Time, t: TaskId, inputs: seq<Input>, h: Held)
    requires At(s, t, Holding(Stat, h)) && Smooth(inputs, 7) && IsHeld(s, t, h)
    requires h.content.digest in s.world.blobs && s.world.blobs[h.content.digest] != h.content
    ensures var w, c, d := s.world, h.content, h.content.digest;
      Comes(s, Alone(s, stale, t, inputs), t,
            World(w.db.(revisions := w.db.revisions[d := Revision(c.byteLength, Quarantined, None, s.now)],
                        publications := w.db.publications - {d}), w.blobs - {d}, w.staged - {t}), Failed)
  {
    hide Alone;
    Steps(s, stale, t, inputs);
    var s1, in1 := Apply(s, stale, Run(t, inputs[0])), inputs[1..];
    Steps(s1, stale, t, in1);
    var s2, in2 := Apply(s1, stale, Run(t, in1[0])), in1[1..];
    Steps(s2, stale, t, in2);
    var s3, in3 := Apply(s2, stale, Run(t, in2[0])), in2[1..];
    QuarantinesAlone(s3, stale, t, in3, h.content, Publisher(h.stageToken));
    var s5 := Apply(Apply(s3, stale, Run(t, in3[0])), stale, Run(t, in3[1..][0]));
    CleansAlone(s5, stale, t, in3[1..][1..], h.stageToken, None);
    TwiceUnstaged(s.world.db.staging, s.world.staged, t);
  }

  lemma TwiceUnstaged(staging: map<StageId, Stage>, staged: map<StageId, Content>, t: StageId)
    ensures t !in staging ==> staging - {t} == staging
    ensures staged - {t} - {t} == staged - {t}
  {
  }

  lemma SettlesOwnAlone(s: State, stale: Time, t: TaskId, inputs: seq<Input>, h: Held)
    requires At(s, t, Holding(Settle, h)) && Smooth(inputs, 1) && PublishingUnder(s.world.db, h.content.digest, h.token)
    requires s.world.db.revisions[h.content.digest].byteLength == h.content.byteLength && h.grant.lease !in s.world.db.leases
    ensures var w, c, d := s.world, h.content, h.content.digest;
      Comes(s, Alone(s, stale, t, inputs), t,
            w.(db := w.db.(revisions := w.db.revisions[d := Revision(c.byteLength, Published, None, s.now)],
                           publications := w.db.publications - {d},
                           leases := w.db.leases[h.grant.lease := Lease(d, c.byteLength, h.grant.expiresAt, s.now)])),
            PC.Returned(Granted(c, h.grant)))
  {
    hide Alone;
    Steps(s, stale, t, inputs);
    Rests(Apply(s, stale, Run(t, inputs[0])), stale, t, inputs[1..]);
  }
}
