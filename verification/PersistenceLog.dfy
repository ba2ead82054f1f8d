/** The log of metadata changes: captured in pieces, coalesced, merged into what is stored, and acknowledged. */
module PersistenceLog {
  import opened Collections
  import opened Outline

  type OperationId = nat

  datatype Entry = Entry(summary: string, nodes: set<NodeId>)

  /** One change: entries that fell out of the history, then possibly a new or merged one; or new pending updates. */
  datatype Change = Change(
    sequence: nat,
    deletes: seq<OperationId>,
    upsert: Option<(OperationId, Entry)>,
    pending: Option<seq<string>>)

  /** What is stored on the replica. */
  datatype Stored = Stored(history: map<OperationId, Entry>, pending: seq<string>)

  /** Many changes in one. */
  datatype Delta = Delta(upserts: map<OperationId, Entry>, deletes: set<OperationId>, pending: Option<seq<string>>)

  // ----- Replaying one change after the other -----

  function Applied(base: Stored, change: Change): Stored {
    var kept := base.history - Members(change.deletes);
    Stored(
      if change.upsert.Some? then kept[change.upsert.value.0 := change.upsert.value.1] else kept,
      if change.pending.Some? then change.pending.value else base.pending)
  }

  function Replayed(base: Stored, changes: seq<Change>): Stored {
    if changes == [] then base else Applied(Replayed(base, changes[..|changes| - 1]), changes[|changes| - 1])
  }

  // ----- Coalescing and merging -----

  function Absorbed(delta: Delta, change: Change): Delta {
    var upserts, deletes := delta.upserts - Members(change.deletes), delta.deletes + Members(change.deletes);
    Delta(
      if change.upsert.Some? then upserts[change.upsert.value.0 := change.upsert.value.1] else upserts,
      if change.upsert.Some? then deletes - {change.upsert.value.0} else deletes,
      if change.pending.Some? then change.pending else delta.pending)
  }

  function Coalesced(changes: seq<Change>): Delta {
    if changes == [] then Delta(map[], {}, None) else Absorbed(Coalesced(changes[..|changes| - 1]), changes[|changes| - 1])
  }

  function Merged(base: Stored, delta: Delta): Stored {
    Stored(base.history - delta.deletes + delta.upserts, if delta.pending.Some? then delta.pending.value else base.pending)
  }

  function MergedAll(base: Stored, deltas: seq<Delta>): Stored {
    if deltas == [] then base else Merged(MergedAll(base, deltas[..|deltas| - 1]), deltas[|deltas| - 1])
  }

  lemma AbsorbsOne(base: Stored, delta: Delta, change: Change)
    ensures Merged(base, Absorbed(delta, change)) == Applied(Merged(base, delta), change)
  {
    var one, two := Merged(base, Absorbed(delta, change)).history, Applied(Merged(base, delta), change).history;
    assert one.Keys == two.Keys;
    forall id | id in one ensures one[id] == two[id] {}
  }

  /** Merging the coalesced changes gives what replaying them one by one gives. */
  lemma {:induction false} MergeIsReplay(base: Stored, changes: seq<Change>)
    ensures Merged(base, Coalesced(changes)) == Replayed(base, changes)
  {
    if changes == [] {
      assert base.history - {} + map[] == base.history;
    } else {
      MergeIsReplay(base, changes[..|changes| - 1]);
      AbsorbsOne(base, Coalesced(changes[..|changes| - 1]), changes[|changes| - 1]);
    }
  }

  lemma {:induction false} ReplayAppend(base: Stored, a: seq<Change>, b: seq<Change>)
    ensures Replayed(base, a + b) == Replayed(Replayed(base, a), b)
  {
    if b == [] {
      assert a + b == a;
    } else {
      var first, last := b[..|b| - 1], b[|b| - 1];
      assert (a + b)[..|a + b| - 1] == a + first && (a + b)[|a + b| - 1] == last;
      ReplayAppend(base, a, first);
    }
  }

  /** Cutting the log anywhere and merging the two pieces in turn gives what merging the whole gives. */
  lemma CutAnywhere(base: Stored, changes: seq<Change>, at: nat)
    requires at <= |changes|
    ensures Merged(Merged(base, Coalesced(changes[..at])), Coalesced(changes[at..])) == Merged(base, Coalesced(changes))
  {
    hide *;
    var a, b := changes[..at], changes[at..];
    MergeIsReplay(base, a);
    MergeIsReplay(Replayed(base, a), b);
    MergeIsReplay(base, changes);
    ReplayAppend(base, a, b);
    assert changes == a + b;
  }

  // ----- The log -----

  /** Sequence numbers rise and none is above the last. */
  predicate IsLog(changes: seq<Change>, last: nat) {
    && (forall i :: 0 <= i < |changes| ==> changes[i].sequence <= last)
    && forall i, j :: 0 <= i < j < |changes| ==> changes[i].sequence < changes[j].sequence
  }

  function After(changes: seq<Change>, sequence: int): seq<Change> {
    if changes == [] then []
    else
      var first, last := changes[..|changes| - 1], changes[|changes| - 1];
      After(first, sequence) + if last.sequence > sequence then [last] else []
  }

  lemma AfterStep(first: seq<Change>, c: Change, sequence: int)
    ensures After(first + [c], sequence) == After(first, sequence) + if c.sequence > sequence then [c] else []
  {
    assert (first + [c])[..|first|] == first;
  }

  lemma {:induction false} InAfter(changes: seq<Change>, sequence: int)
    ensures forall c :: c in After(changes, sequence) <==> c in changes && c.sequence > sequence
  {
    if changes != [] {
      var first, c := changes[..|changes| - 1], changes[|changes| - 1];
      InAfter(first, sequence);
      assert changes == first + [c];
    }
  }

  lemma LogAppend(first: seq<Change>, c: Change, last: nat)
    ensures IsLog(first + [c], last) <==>
      IsLog(first, last) && c.sequence <= last && forall x :: x in first ==> x.sequence < c.sequence
  {
    var whole := first + [c];
    assert whole[|first|] == c && forall i :: 0 <= i < |first| ==> whole[i] == first[i];
  }

  lemma {:induction false} AfterHolds(changes: seq<Change>, sequence: int, last: nat)
    requires IsLog(changes, last)
    ensures IsLog(After(changes, sequence), last)
    ensures forall c :: c in After(changes, sequence) <==> c in changes && c.sequence > sequence
  {
    InAfter(changes, sequence);
    if changes != [] {
      hide After, IsLog;
      var first, c := changes[..|changes| - 1], changes[|changes| - 1];
      assert changes == first + [c];
      LogAppend(first, c, last);
      AfterHolds(first, sequence, last);
      AfterStep(first, c, sequence);
      LogAppend(After(first, sequence), c, last);
      assert After(first, sequence) + [] == After(first, sequence);
    } else {
      assert After(changes, sequence) == [];
    }
  }

  /** Dropping what lies before an earlier point does not change what lies after a later one. */
  lemma {:induction false} AfterAfter(changes: seq<Change>, acknowledged: int, sequence: int)
    requires acknowledged <= sequence
    ensures After(After(changes, acknowledged), sequence) == After(changes, sequence)
  {
    if changes != [] {
      var first, c := changes[..|changes| - 1], changes[|changes| - 1];
      assert changes == first + [c];
      AfterAfter(first, acknowledged, sequence);
      var kept := After(first, acknowledged);
      hide After;
      AfterStep(first, c, acknowledged);
      AfterStep(first, c, sequence);
      AfterStep(kept, c, sequence);
      assert kept + [] == kept && After(first, sequence) + [] == After(first, sequence);
    }
  }

  /** The log of a core, together with all the changes ever recorded in it. */
  class Log {
    var sequence: nat
    var changes: seq<Change>
    ghost var all: seq<Change>
    ghost var acknowledged: int

    ghost predicate Valid()
      reads this
    {
      && IsLog(all, sequence) && (forall c :: c in all ==> c.sequence > 0)
      && 0 <= acknowledged <= sequence && changes == After(all, acknowledged)
    }

    constructor ()
      ensures Valid() && all == [] && sequence == 0 && acknowledged == 0
    {
      sequence, changes, all, acknowledged := 0, [], [], 0;
    }

    /** `recordPersistenceMetadataChange`. */
    method Record(deletes: seq<OperationId>, upsert: Option<(OperationId, Entry)>, pending: Option<seq<string>>)
      requires Valid()
      modifies this`sequence, this`changes, this`all
      ensures Valid() && sequence == old(sequence) + 1
      ensures all == old(all) + [Change(sequence, deletes, upsert, pending)]
    {
      sequence := sequence + 1;
      var change := Change(sequence, deletes, upsert, pending);
      changes := changes + [change];
      all := all + [change];
      assert all[..|all| - 1] == old(all);
    }

    /** `capturePersistenceUpdate`: the changes after a point, coalesced. */
    method Capture(after: int) returns (delta: Delta, upTo: nat)
      requires Valid()
      ensures upTo == sequence
      ensures delta == Coalesced(After(all, if after > acknowledged then after else acknowledged))
    {
      if after > acknowledged { AfterAfter(all, acknowledged, after); } else { AllAfter(all, acknowledged, after, sequence); }
      AfterHolds(all, acknowledged, sequence);
      upTo := sequence;
      delta := CoalesceAfter(changes, after, upTo);
    }

    /** `acknowledgePersistenceMetadata`: what is stored safely is dropped. */
    method Acknowledge(upTo: int)
      requires Valid()
      modifies this`changes, this`acknowledged
      ensures Valid() && all == old(all)
      ensures acknowledged == if upTo > old(acknowledged) then (if upTo < sequence then upTo else sequence) else old(acknowledged)
    {
      var point := if upTo < 0 then 0 else if upTo < sequence then upTo else sequence;
      ghost var next := if point > acknowledged then point else acknowledged;
      if point > acknowledged { AfterAfter(all, acknowledged, point); } else { AllAfter(all, acknowledged, point, sequence); }
      AfterHolds(all, next, sequence);
      var kept := KeepAfter(changes, point);
      changes, acknowledged := kept, next;
    }
  }

  method CoalesceAfter(changes: seq<Change>, after: int, upTo: nat) returns (delta: Delta)
    requires IsLog(changes, upTo)
    ensures delta == Coalesced(After(changes, after))
  {
    hide IsLog, After, Coalesced, Absorbed;
    delta := Delta(map[], {}, None);
    var i := 0;
    NothingYet(after);
    assert changes[..0] == [];
    while i < |changes|
      invariant 0 <= i <= |changes| && delta == Coalesced(After(changes[..i], after))
    {
      var change := changes[i];
      assert changes[..i + 1] == changes[..i] + [change];
      AfterStep(changes[..i], change, after);
      InLog(changes, i, upTo);
      if change.sequence > after && change.sequence <= upTo {
        AbsorbsLast(After(changes[..i], after), change);
        delta := Absorb(delta, change);
      } else {
        assert After(changes[..i], after) + [] == After(changes[..i], after);
      }
      i := i + 1;
    }
    assert changes[..i] == changes;
  }

  method KeepAfter(changes: seq<Change>, point: int) returns (kept: seq<Change>)
    ensures kept == After(changes, point)
  {
    kept := [];
    var i := 0;
    while i < |changes|
      invariant 0 <= i <= |changes| && kept == After(changes[..i], point)
    {
      assert changes[..i + 1] == changes[..i] + [changes[i]];
      AfterStep(changes[..i], changes[i], point);
      if changes[i].sequence > point { kept := kept + [changes[i]]; }
      i := i + 1;
    }
    assert changes[..i] == changes;
  }

  lemma NothingYet(after: int)
    ensures Coalesced(After([], after)) == Delta(map[], {}, None)
  {
  }

  lemma InLog(changes: seq<Change>, i: nat, last: nat)
    requires IsLog(changes, last) && i < |changes|
    ensures changes[i].sequence <= last
  {
  }

  lemma AllAfter(all: seq<Change>, acknowledged: int, point: int, last: nat)
    requires IsLog(all, last) && point <= acknowledged
    ensures After(After(all, acknowledged), point) == After(all, acknowledged)
  {
    AfterHolds(all, acknowledged, last);
    AllLater(After(all, acknowledged), point);
  }

  lemma {:induction false} AllLater(changes: seq<Change>, point: int)
    requires forall c :: c in changes ==> c.sequence > point
    ensures After(changes, point) == changes
  {
    if changes != [] {
      var first, c := changes[..|changes| - 1], changes[|changes| - 1];
      assert changes == first + [c];
      assert forall x :: x in first ==> x in changes;
      AllLater(first, point);
    }
  }

  lemma AbsorbsLast(changes: seq<Change>, change: Change)
    ensures Coalesced(changes + [change]) == Absorbed(Coalesced(changes), change)
  {
    assert (changes + [change])[..|changes|] == changes;
  }

  /** The loop body of the capture: deletes first, then the upsert, then the pending updates. */
  method Absorb(delta: Delta, change: Change) returns (next: Delta)
    ensures next == Absorbed(delta, change)
  {
    var upserts, deletes, i := delta.upserts, delta.deletes, 0;
    while i < |change.deletes|
      invariant 0 <= i <= |change.deletes|
      invariant upserts == delta.upserts - Members(change.deletes[..i]) && deletes == delta.deletes + Members(change.deletes[..i])
    {
      assert change.deletes[..i + 1] == change.deletes[..i] + [change.deletes[i]];
      upserts, deletes := upserts - {change.deletes[i]}, deletes + {change.deletes[i]};
      i := i + 1;
    }
    assert change.deletes[..i] == change.deletes;
    if change.upsert.Some? {
      deletes := deletes - {change.upsert.value.0};
      upserts := upserts[change.upsert.value.0 := change.upsert.value.1];
    }
    next := Delta(upserts, deletes, if change.pending.Some? then change.pending else delta.pending);
  }

  /** `mergeWorkspaceReplicaState`. */
  method Merge(base: Stored, deltas: seq<Delta>) returns (merged: Stored)
    ensures merged == MergedAll(base, deltas)
  {
    merged := base;
    var i := 0;
    while i < |deltas|
      invariant 0 <= i <= |deltas| && merged == MergedAll(base, deltas[..i])
    {
      assert deltas[..i + 1][..i] == deltas[..i];
      merged := Merged(merged, deltas[i]);
      i := i + 1;
    }
    assert deltas[..i] == deltas;
  }

  // ----- Storing in steps -----

  lemma MergedOne(base: Stored, delta: Delta)
    ensures MergedAll(base, [delta]) == Merged(base, delta)
  {
    assert [delta][..0] == [];
  }

  /** A replica that stores captures as they come. */
  class Replica {
    const log: Log
    var stored: Stored
    var storedUpTo: nat
    ghost const initial: Stored

    ghost predicate Valid()
      reads this, log
    {
      && log.Valid() && log.acknowledged <= storedUpTo <= log.sequence
      && stored == Replayed(initial, UpTo(log.all, storedUpTo))
    }

    constructor (base: Stored)
      ensures Valid() && fresh(log) && stored == base && initial == base
    {
      log := new Log();
      stored, initial, storedUpTo := base, base, 0;
    }

    /** Whatever was recorded, captured and acknowledged before: a capture brings the stored state up to all changes. */
    method Store()
      requires Valid()
      modifies this
      ensures Valid() && storedUpTo == log.sequence && stored == Replayed(initial, log.all)
    {
      hide Replayed, UpTo, After, Coalesced, Merged, IsLog;
      var delta, upTo := log.Capture(storedUpTo);
      var merged := Merge(stored, [delta]);
      ghost var all, from := log.all, storedUpTo;
      MergedOne(stored, delta);
      MergeIsReplay(stored, After(all, from));
      Rejoined(all, from, log.sequence);
      ReplayAppend(initial, UpTo(all, from), After(all, from));
      AllUpTo(all, log.sequence);
      stored, storedUpTo := merged, upTo;
    }

    /** Only what is stored is acknowledged. */
    method AcknowledgeStored()
      requires Valid()
      modifies log`changes, log`acknowledged
      ensures Valid()
    {
      log.Acknowledge(storedUpTo);
    }
  }

  function UpTo(changes: seq<Change>, sequence: int): seq<Change> {
    if changes == [] then []
    else
      var first, last := changes[..|changes| - 1], changes[|changes| - 1];
      UpTo(first, sequence) + if last.sequence <= sequence then [last] else []
  }

  lemma {:induction false} AllUpTo(changes: seq<Change>, last: nat)
    requires IsLog(changes, last)
    ensures UpTo(changes, last) == changes
  {
    if changes != [] {
      AllUpTo(changes[..|changes| - 1], last);
      assert changes == changes[..|changes| - 1] + [changes[|changes| - 1]];
    }
  }

  lemma {:induction false} Rejoined(changes: seq<Change>, sequence: int, last: nat)
    requires IsLog(changes, last)
    ensures UpTo(changes, sequence) + After(changes, sequence) == changes
  {
    if changes != [] {
      var first, c := changes[..|changes| - 1], changes[|changes| - 1];
      assert changes == first + [c];
      Rejoined(first, sequence, last);
      if c.sequence <= sequence { NoneAfter(first, sequence, c.sequence); }
    }
  }

  /** Cutting at any captured sequence number. */
  lemma CutAtSequence(base: Stored, changes: seq<Change>, sequence: int, last: nat)
    requires IsLog(changes, last)
    ensures Merged(Merged(base, Coalesced(UpTo(changes, sequence))), Coalesced(After(changes, sequence)))
      == Merged(base, Coalesced(changes))
  {
    hide *;
    var a, b := UpTo(changes, sequence), After(changes, sequence);
    Rejoined(changes, sequence, last);
    assert (a + b)[..|a|] == a && (a + b)[|a|..] == b;
    CutAnywhere(base, a + b, |a|);
  }

  lemma {:induction false} NoneAfter(changes: seq<Change>, sequence: int, bound: nat)
    requires bound <= sequence && forall i :: 0 <= i < |changes| ==> changes[i].sequence < bound
    ensures After(changes, sequence) == []
  {
    if changes != [] { NoneAfter(changes[..|changes| - 1], sequence, bound); }
  }
}
