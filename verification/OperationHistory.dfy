/** The history of operations, oldest first, and what is logged of it; operations of the system have no entry. */
module OperationHistory {
  import opened Collections
  import Metadata = PersistenceLog

  type History = seq<(Metadata.OperationId, Metadata.Entry)>

  datatype Operation = Operation(id: Metadata.OperationId, summary: string)

  const MAX_ENTRIES: nat := 500

  // ----- Recording -----

  function IndexOfEntry(history: History, id: Metadata.OperationId): (i: nat)
    ensures i <= |history| && (i < |history| ==> history[i].0 == id)
    ensures forall j :: 0 <= j < i ==> history[j].0 != id
  {
    if history == [] || history[0].0 == id then 0 else 1 + IndexOfEntry(history[1..], id)
  }

  /** `record`: an entry of a known operation is merged, any other is appended and the oldest gives way. */
  function Recorded(history: History, id: Metadata.OperationId, entry: Metadata.Entry): History {
    var i := IndexOfEntry(history, id);
    if i < |history| then history[i := (id, Metadata.Entry(entry.summary, history[i].1.nodes + entry.nodes))]
    else
      var longer := history + [(id, entry)];
      if |longer| > MAX_ENTRIES then longer[|longer| - MAX_ENTRIES..] else longer
  }

  /** `entriesForSerialization`. */
  function Newest(history: History): (newest: History)
    ensures |history| <= MAX_ENTRIES ==> newest == history
  {
    if |history| > MAX_ENTRIES then history[|history| - MAX_ENTRIES..] else history
  }

  function Evicted(history: History, id: Metadata.OperationId, entry: Metadata.Entry): History {
    var i, n := IndexOfEntry(history, id), |history| + 1;
    if i == |history| && n > MAX_ENTRIES then (history + [(id, entry)])[..n - MAX_ENTRIES] else []
  }

  function Ids(entries: History): seq<Metadata.OperationId> {
    if entries == [] then [] else [entries[0].0] + Ids(entries[1..])
  }

  /** What the log says of a recording: who gave way, and the entry as it is now. */
  function Logged(history: History, id: Metadata.OperationId, entry: Metadata.Entry, sequence: nat): Metadata.Change {
    var after := Recorded(history, id, entry);
    var i := IndexOfEntry(after, id);
    Metadata.Change(sequence, Ids(Evicted(history, id, entry)), Some(if i < |after| then after[i] else (id, entry)), None)
  }

  // ----- What recording does -----

  ghost predicate DistinctIds(history: History) {
    forall i, j :: 0 <= i < j < |history| ==> history[i].0 != history[j].0
  }

  /** At most 500 entries, each operation once. */
  ghost predicate WellKept(history: History) {
    |history| <= 500 && DistinctIds(history)
  }

  predicate Knows(history: History, id: Metadata.OperationId) {
    exists i :: 0 <= i < |history| && history[i].0 == id
  }

  /** A known operation keeps its place and gets the nodes as well; a new one comes last, and of 500 exactly the oldest gives
      way. */
  ghost predicate Records(before: History, after: History, id: Metadata.OperationId, summary: string, nodes: set<nat>) {
    if Knows(before, id) then
      && |after| == |before|
      && forall j :: 0 <= j < |before| ==>
           after[j] == if before[j].0 == id then (id, Metadata.Entry(summary, before[j].1.nodes + nodes)) else before[j]
    else
      after == (if |before| < 500 then before else before[1..]) + [(id, Metadata.Entry(summary, nodes))]
  }

  /** What a commit does to the history. */
  ghost predicate Journals(before: History, after: History, operation: Option<Operation>, nodes: set<nat>) {
    if operation.None? then after == before else Records(before, after, operation.value.id, operation.value.summary, nodes)
  }

  lemma RecordedIs(history: History, id: Metadata.OperationId, entry: Metadata.Entry)
    requires WellKept(history)
    ensures WellKept(Recorded(history, id, entry)) && Records(history, Recorded(history, id, entry), id, entry.summary, entry.nodes)
  {
    var i := IndexOfEntry(history, id);
    if i == |history| {
      var longer := history + [(id, entry)];
      assert !Knows(history, id);
      assert |history| == 500 ==> longer[1..] == history[1..] + [(id, entry)];
    }
  }

  // ----- The log tells the history -----

  function ByOperation(history: History): map<Metadata.OperationId, Metadata.Entry> {
    if history == [] then map[]
    else ByOperation(history[..|history| - 1])[history[|history| - 1].0 := history[|history| - 1].1]
  }

  lemma {:induction false} ByOperationHas(history: History, id: Metadata.OperationId)
    requires DistinctIds(history)
    ensures id in ByOperation(history) <==> Knows(history, id)
    ensures forall i :: 0 <= i < |history| && history[i].0 == id ==> id in ByOperation(history) && ByOperation(history)[id] == history[i].1
  {
    if history != [] {
      var n := |history| - 1;
      var first := history[..n];
      assert forall i, j :: 0 <= i < j < n ==> first[i].0 != first[j].0;
      ByOperationHas(first, id);
      assert Knows(history, id) <==> Knows(first, id) || history[n].0 == id by {
        if Knows(first, id) {
          var i :| 0 <= i < n && first[i].0 == id;
          assert history[i].0 == id;
        }
      }
      assert forall i :: 0 <= i < n ==> history[i] == first[i];
    }
  }

  lemma {:induction false} InIds(entries: History)
    ensures forall id :: id in Ids(entries) <==> Knows(entries, id)
  {
    if entries != [] {
      InIds(entries[1..]);
      forall id ensures id in Ids(entries) <==> Knows(entries, id) {
        if Knows(entries, id) {
          var i :| 0 <= i < |entries| && entries[i].0 == id;
          assert i == 0 || entries[1..][i - 1].0 == id;
        }
        if Knows(entries[1..], id) {
          var i :| 0 <= i < |entries| - 1 && entries[1..][i].0 == id;
          assert entries[i + 1].0 == id;
        }
      }
    }
  }

  /** Applying the logged change to the stored history gives the new history: nothing is missing and nothing is left over. */
  lemma LogFollows(history: History, id: Metadata.OperationId, entry: Metadata.Entry, sequence: nat, waiting: seq<string>)
    requires WellKept(history)
    ensures Metadata.Applied(Metadata.Stored(ByOperation(history), waiting), Logged(history, id, entry, sequence)) ==
      Metadata.Stored(ByOperation(Recorded(history, id, entry)), waiting)
  {
    var after, change := Recorded(history, id, entry), Logged(history, id, entry, sequence);
    var stored := Metadata.Applied(Metadata.Stored(ByOperation(history), waiting), change);
    RecordedIs(history, id, entry);
    hide Recorded, Records, ByOperation, Logged;
    forall other ensures Lookup(stored.history, other) == Lookup(ByOperation(after), other) {
      AppliedAt(ByOperation(history), waiting, change, other);
      OneFollows(history, id, entry, sequence, other);
    }
    hide Metadata.Applied;
    SameLookups(stored.history, ByOperation(after));
    AppliedRest(ByOperation(history), waiting, history, id, entry, sequence);
  }

  function FoundAfter(stored: map<Metadata.OperationId, Metadata.Entry>, change: Metadata.Change, other: Metadata.OperationId): Option<Metadata.Entry> {
    if change.upsert.Some? && change.upsert.value.0 == other then Some(change.upsert.value.1)
    else if other in change.deletes then None
    else Lookup(stored, other)
  }

  lemma AppliedAt(stored: map<Metadata.OperationId, Metadata.Entry>, waiting: seq<string>, change: Metadata.Change, other: Metadata.OperationId)
    ensures Lookup(Metadata.Applied(Metadata.Stored(stored, waiting), change).history, other) == FoundAfter(stored, change, other)
  {
  }

  lemma AppliedRest(stored: map<Metadata.OperationId, Metadata.Entry>, waiting: seq<string>,
                    history: History, id: Metadata.OperationId, entry: Metadata.Entry, sequence: nat)
    ensures Metadata.Applied(Metadata.Stored(stored, waiting), Logged(history, id, entry, sequence)).pending == waiting
  {
  }

  lemma Finds(history: History, id: Metadata.OperationId)
    requires DistinctIds(history)
    ensures Lookup(ByOperation(history), id) == (var i := IndexOfEntry(history, id); if i < |history| then Some(history[i].1) else None)
    ensures Knows(history, id) <==> IndexOfEntry(history, id) < |history|
  {
    ByOperationHas(history, id);
    hide ByOperation;
    var i := IndexOfEntry(history, id);
    if Knows(history, id) {
      var k :| 0 <= k < |history| && history[k].0 == id;
      assert k == i;
    }
  }

  lemma OneFollows(history: History, id: Metadata.OperationId, entry: Metadata.Entry, sequence: nat, other: Metadata.OperationId)
    requires WellKept(history) && WellKept(Recorded(history, id, entry))
    ensures FoundAfter(ByOperation(history), Logged(history, id, entry, sequence), other) ==
      Lookup(ByOperation(Recorded(history, id, entry)), other)
  {
    var after, gone, change := Recorded(history, id, entry), Evicted(history, id, entry), Logged(history, id, entry, sequence);
    InIds(gone);
    OneOperation(history, id, entry, other);
    Finds(after, other);
    Finds(after, id);
    Finds(history, other);
    ByOperationHas(history, other);
    ByOperationHas(after, other);
    assert change.deletes == Ids(gone) && change.upsert == Some(after[IndexOfEntry(after, id)]);
    hide Recorded, Evicted, ByOperation, Ids, Logged, DistinctIds, IndexOfEntry;
    if other != id && !Knows(after, other) && !Knows(gone, other) {
      assert !Knows(history, other);
    }
  }

  lemma SameLookups(a: map<Metadata.OperationId, Metadata.Entry>, b: map<Metadata.OperationId, Metadata.Entry>)
    requires forall k :: Lookup(a, k) == Lookup(b, k)
    ensures a == b
  {
    forall k ensures k in a <==> k in b { assert Lookup(a, k) == Lookup(b, k); }
    forall k | k in a ensures a[k] == b[k] { assert Lookup(a, k) == Lookup(b, k); }
  }

  /** One operation is where it was before, or has given way. */
  ghost predicate Stands(history: History, after: History, gone: History, id: Metadata.OperationId, other: Metadata.OperationId) {
    && Knows(after, id) && !Knows(gone, id)
    && (other != id ==> (Knows(after, other) <==> Knows(history, other) && !Knows(gone, other)))
    && (other != id && Knows(after, other) ==>
          exists i, j :: 0 <= i < |history| && 0 <= j < |after| && history[i].0 == other && after[j] == history[i])
  }

  lemma OneOperation(history: History, id: Metadata.OperationId, entry: Metadata.Entry, other: Metadata.OperationId)
    requires WellKept(history)
    ensures Stands(history, Recorded(history, id, entry), Evicted(history, id, entry), id, other)
  {
    var after, k := Recorded(history, id, entry), IndexOfEntry(history, id);
    if k < |history| {
      assert after[k].0 == id;
      forall i | 0 <= i < |history| && history[i].0 == other && other != id ensures after[i] == history[i] {}
      if Knows(after, other) && other != id {
        var j :| 0 <= j < |after| && after[j].0 == other;
        assert history[j] == after[j];
      }
    } else {
      var cut := if |history| == 500 then 1 else 0;
      NewComesLast(history, id, entry, cut);
      hide Recorded, Evicted, IndexOfEntry, DistinctIds;
      LastStands(history, id, entry, cut, other);
    }
  }

  lemma NewComesLast(history: History, id: Metadata.OperationId, entry: Metadata.Entry, cut: nat)
    requires WellKept(history) && IndexOfEntry(history, id) == |history| && cut == if |history| == 500 then 1 else 0
    ensures Recorded(history, id, entry) == history[cut..] + [(id, entry)] && Evicted(history, id, entry) == history[..cut]
    ensures !Knows(history, id)
  {
    var longer := history + [(id, entry)];
    assert longer[cut..] == history[cut..] + [(id, entry)] && longer[..cut] == history[..cut];
  }

  lemma LastStands(history: History, id: Metadata.OperationId, entry: Metadata.Entry, cut: nat, other: Metadata.OperationId)
    requires cut <= |history| && !Knows(history, id) && DistinctIds(history)
    ensures Stands(history, history[cut..] + [(id, entry)], history[..cut], id, other)
  {
    var after, gone := history[cut..] + [(id, entry)], history[..cut];
    assert after[|after| - 1] == (id, entry);
    if Knows(history, other) {
      var i :| 0 <= i < |history| && history[i].0 == other;
      if i >= cut { assert after[i - cut] == history[i]; } else { assert gone[i].0 == other; }
    }
    if Knows(after, other) && other != id {
      var j :| 0 <= j < |after| && after[j].0 == other;
      assert history[j + cut] == after[j];
    }
    forall i | 0 <= i < |gone| ensures gone[i] == history[i] {}
  }

  // ----- Histories and logs that go on together -----

  /**
   * What was added to the log leads from the one history to the other, whatever else is stored, and goes on with the
   * numbers of the log.
   */
  ghost predicate Tells(before: History, after: History, log: seq<Metadata.Change>, longer: seq<Metadata.Change>, last: nat, later: nat) {
    && |log| <= |longer| && longer[..|log|] == log
    && later == last + |longer| - |log| && (forall i :: |log| <= i < |longer| ==> longer[i].sequence == last + 1 + i - |log|)
    && forall waiting ::
         Metadata.Replayed(Metadata.Stored(ByOperation(before), waiting), longer[|log|..]) == Metadata.Stored(ByOperation(after), waiting)
  }

  lemma TellsNothing(history: History, log: seq<Metadata.Change>, last: nat)
    ensures Tells(history, history, log, log, last, last)
  {
    assert log[|log|..] == [];
  }

  lemma TellsRecording(history: History, log: seq<Metadata.Change>, id: Metadata.OperationId, entry: Metadata.Entry, last: nat)
    requires WellKept(history)
    ensures Tells(history, Recorded(history, id, entry), log, log + [Logged(history, id, entry, last + 1)], last, last + 1)
  {
    var change := Logged(history, id, entry, last + 1);
    var longer := log + [change];
    assert change.sequence == last + 1;
    assert longer[..|log|] == log && longer[|log|..] == [change] && [change][..0] == [];
    hide Logged, Recorded, ByOperation, Metadata.Applied;
    forall waiting
      ensures Metadata.Replayed(Metadata.Stored(ByOperation(history), waiting), [change]) ==
        Metadata.Stored(ByOperation(Recorded(history, id, entry)), waiting)
    {
      LogFollows(history, id, entry, last + 1, waiting);
    }
  }

  lemma TellsOn(h: History, i: History, j: History, a: seq<Metadata.Change>, b: seq<Metadata.Change>, c: seq<Metadata.Change>,
                l: nat, m: nat, n: nat)
    requires Tells(h, i, a, b, l, m) && Tells(i, j, b, c, m, n)
    ensures Tells(h, j, a, c, l, n)
  {
    hide Metadata.Replayed, ByOperation;
    assert c[|a|..] == b[|a|..] + c[|b|..];
    forall waiting ensures
      Metadata.Replayed(Metadata.Stored(ByOperation(h), waiting), c[|a|..]) == Metadata.Stored(ByOperation(j), waiting)
    {
      Metadata.ReplayAppend(Metadata.Stored(ByOperation(h), waiting), b[|a|..], c[|b|..]);
    }
  }
}
