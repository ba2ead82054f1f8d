/** Moving the selected children of a parent up or down by one place. */
module BatchMove {
  import opened Collections
  import opened Outline
  import opened LoroDocument
  import opened Siblings

  // ----- What moving up means -----

  predicate AllIn(s: seq<NodeId>, sel: set<NodeId>) {
    forall x :: x in s ==> x in sel
  }

  /** How many members from the front are selected. */
  function Run(s: seq<NodeId>, sel: set<NodeId>): (k: nat)
    ensures k <= |s| && AllIn(s[..k], sel) && (k < |s| ==> s[k] !in sel)
  {
    if s == [] || s[0] !in sel then 0
    else
      var k := Run(s[1..], sel);
      assert s[..k + 1] == [s[0]] + s[1..][..k];
      k + 1
  }

  /** Each unselected child changes places with the run of selected ones behind it. */
  function Up(s: seq<NodeId>, sel: set<NodeId>): (r: seq<NodeId>)
    ensures |r| == |s|
    decreases |s|
  {
    if s == [] then []
    else if s[0] in sel then [s[0]] + Up(s[1..], sel)
    else
      var k := Run(s[1..], sel);
      s[1..k + 1] + [s[0]] + Up(s[k + 1..], sel)
  }

  function Rev(s: seq<NodeId>): (r: seq<NodeId>)
    ensures |r| == |s| && forall i :: 0 <= i < |s| ==> r[i] == s[|s| - 1 - i]
  {
    if s == [] then [] else Rev(s[1..]) + [s[0]]
  }

  /** Moving down is moving up in a mirror. */
  function Down(s: seq<NodeId>, sel: set<NodeId>): (r: seq<NodeId>)
    ensures |r| == |s|
  {
    Rev(Up(Rev(s), sel))
  }

  // ----- The loops that swap in place -----

  lemma Reassociate(a: seq<NodeId>, b: seq<NodeId>, c: seq<NodeId>)
    ensures a + (b + c) == a + b + c
  {
  }

  lemma UpFrom(u: NodeId, r: seq<NodeId>, sel: set<NodeId>)
    requires u !in sel
    ensures var k := Run(r, sel);
      Up([u] + r, sel) == r[..k] + [u] + Up(r[k..], sel)
  {
    var s, k := [u] + r, Run(r, sel);
    assert s[1..] == r && s[1..k + 1] == r[..k] && s[k + 1..] == r[k..];
  }

  lemma UpPast(u: NodeId, x: NodeId, r: seq<NodeId>, sel: set<NodeId>)
    requires u !in sel && x in sel
    ensures Up([u] + ([x] + r), sel) == [x] + Up([u] + r, sel)
  {
    hide Up;
    var xr, k := [x] + r, Run(r, sel);
    UpFrom(u, xr, sel);
    UpFrom(u, r, sel);
    assert Run(xr, sel) == k + 1 by { assert xr[1..] == r; }
    hide Run;
    assert xr[..k + 1] == [x] + r[..k];
    assert xr[k + 1..] == r[k..];
    assert ([x] + r[..k]) + [u] + Up(r[k..], sel) == [x] + (r[..k] + [u] + Up(r[k..], sel));
  }

  lemma UpStays(u: NodeId, x: NodeId, r: seq<NodeId>, sel: set<NodeId>)
    requires u in sel || x !in sel
    ensures Up([u] + ([x] + r), sel) == [u] + Up([x] + r, sel)
  {
    hide Up;
    var xr := [x] + r;
    if u in sel {
      UpSelected(u, xr, sel);
    } else {
      UpFrom(u, xr, sel);
      assert Run(xr, sel) == 0;
      hide Run;
      assert xr[..0] == [] && xr[0..] == xr;
      assert [] + [u] == [u];
    }
  }

  lemma UpSelected(u: NodeId, r: seq<NodeId>, sel: set<NodeId>)
    requires u in sel
    ensures Up([u] + r, sel) == [u] + Up(r, sel)
  {
    assert ([u] + r)[1..] == r;
  }

  function Swapped(s: seq<NodeId>, i: nat): (r: seq<NodeId>)
    requires i + 1 < |s|
    ensures |r| == |s|
  {
    s[..i] + [s[i + 1], s[i]] + s[i + 2..]
  }

  /** What the upward loop is heading for when it has passed the first `i` places. */
  ghost function Rising(s: seq<NodeId>, i: nat, sel: set<NodeId>): seq<NodeId>
    requires i <= |s|
  {
    s[..i] + Up(s[i..], sel)
  }

  lemma UpAdvances(s: seq<NodeId>, i: nat, sel: set<NodeId>)
    requires i + 1 < |s|
    ensures var next := if s[i + 1] in sel && s[i] !in sel then Swapped(s, i) else s;
      Rising(s, i, sel) == Rising(next, i + 1, sel)
  {
    hide Up;
    var u, x, r := s[i], s[i + 1], s[i + 2..];
    assert s[i..] == [u] + ([x] + r);
    if x in sel && u !in sel {
      UpPast(u, x, r, sel);
      SwappedParts(s, i);
      hide Swapped;
      Reassociate(s[..i], [x], Up([u] + r, sel));
    } else {
      UpStays(u, x, r, sel);
      assert s[i + 1..] == [x] + r;
      assert s[..i + 1] == s[..i] + [u];
      Reassociate(s[..i], [u], Up([x] + r, sel));
    }
  }

  lemma SwappedParts(s: seq<NodeId>, i: nat)
    requires i + 1 < |s|
    ensures var next := Swapped(s, i);
      next[..i + 1] == s[..i] + [s[i + 1]] && next[i + 1..] == [s[i]] + s[i + 2..]
  {
  }

  lemma UpOfOne(x: NodeId, sel: set<NodeId>)
    ensures Up([x], sel) == [x]
  {
    assert [x][1..] == [] && [x][1..1] == [];
  }

  lemma UpEnds(s: seq<NodeId>, sel: set<NodeId>)
    ensures |s| <= 1 ==> Up(s, sel) == s
    ensures s != [] ==> Rising(s, |s| - 1, sel) == s
    ensures Rising(s, 0, sel) == Up(s, sel)
  {
    if s == [] {
      assert Up(s, sel) == [];
    } else {
      hide Up;
      var x := s[|s| - 1];
      UpOfOne(x, sel);
      assert s[|s| - 1..] == [x] && s[..|s| - 1] + [x] == s;
    }
    hide Up;
    assert s[0..] == s && s[..0] == [] && [] + Up(s, sel) == Up(s, sel);
  }

  lemma IsSwapped(s: seq<NodeId>, t: seq<NodeId>, i: nat)
    requires i + 1 < |s| && |t| == |s| && t[i] == s[i + 1] && t[i + 1] == s[i]
    requires forall k :: 0 <= k < |s| && k != i && k != i + 1 ==> t[k] == s[k]
    ensures t == Swapped(s, i)
  {
  }

  /** The swapping loop of `moveSelectedSiblings`, upwards. */
  method SwapUp(a: array<NodeId>, sel: set<NodeId>)
    modifies a
    ensures a[..] == Up(old(a[..]), sel)
  {
    hide Up, Swapped, Rising;
    UpEnds(a[..], sel);
    if a.Length == 0 { return; }
    var index := 1;
    while index < a.Length
      invariant 1 <= index <= a.Length
      invariant Rising(a[..], index - 1, sel) == Up(old(a[..]), sel)
    {
      ghost var s := a[..];
      UpAdvances(s, index - 1, sel);
      if a[index] in sel && a[index - 1] !in sel {
        a[index - 1], a[index] := a[index], a[index - 1];
        IsSwapped(s, a[..], index - 1);
      }
      index := index + 1;
    }
    UpEnds(a[..], sel);
  }

  ghost function Sinking(s: seq<NodeId>, i: nat, sel: set<NodeId>): seq<NodeId>
    requires i <= |s|
  {
    Down(s[..i], sel) + s[i..]
  }

  lemma DownAdvances(s: seq<NodeId>, i: nat, sel: set<NodeId>)
    requires i + 1 < |s|
    ensures var next := if s[i] in sel && s[i + 1] !in sel then Swapped(s, i) else s;
      Sinking(s, i + 2, sel) == Sinking(next, i + 1, sel)
  {
    hide Up, Swapped;
    var u, x, before, r := s[i], s[i + 1], s[..i], s[i + 2..];
    assert s[..i + 2] == before + [u, x];
    RevPair(before, u, x);
    if u in sel && x !in sel {
      SwappedParts(s, i);
      UpPast(x, u, Rev(before), sel);
      RevLast(before, x);
      RevFirst(u, Up([x] + Rev(before), sel));
      Reassociate(Down(before + [x], sel), [u], r);
    } else {
      UpStays(x, u, Rev(before), sel);
      RevLast(before, u);
      RevFirst(x, Up([u] + Rev(before), sel));
      assert s[..i + 1] == before + [u];
      assert s[i + 1..] == [x] + r;
      Reassociate(Down(before + [u], sel), [x], r);
    }
  }

  lemma RevPair(s: seq<NodeId>, u: NodeId, x: NodeId)
    ensures Rev(s + [u, x]) == [x] + ([u] + Rev(s))
  {
  }

  lemma RevLast(s: seq<NodeId>, x: NodeId)
    ensures Rev(s + [x]) == [x] + Rev(s)
  {
  }

  lemma RevFirst(x: NodeId, s: seq<NodeId>)
    ensures Rev([x] + s) == Rev(s) + [x]
  {
  }

  lemma DownEnds(s: seq<NodeId>, sel: set<NodeId>)
    ensures |s| <= 1 ==> Down(s, sel) == s
    ensures s != [] ==> Sinking(s, 1, sel) == s
    ensures Sinking(s, |s|, sel) == Down(s, sel)
  {
    UpEnds(Rev(s), sel);
    assert s[..|s|] == s && s[|s|..] == [];
    if s != [] {
      UpEnds(Rev(s[..1]), sel);
      hide Up;
      assert s == s[..1] + s[1..];
    }
  }

  /** The same loop downwards. */
  method SwapDown(a: array<NodeId>, sel: set<NodeId>)
    modifies a
    ensures a[..] == Down(old(a[..]), sel)
  {
    hide Down, Swapped, Sinking;
    DownEnds(a[..], sel);
    if a.Length == 0 { return; }
    var index := a.Length - 2;
    while index >= 0
      invariant -1 <= index <= a.Length - 2
      invariant Sinking(a[..], index + 2, sel) == Down(old(a[..]), sel)
    {
      ghost var s := a[..];
      DownAdvances(s, index, sel);
      if a[index] in sel && a[index + 1] !in sel {
        a[index], a[index + 1] := a[index + 1], a[index];
        IsSwapped(s, a[..], index);
      }
      index := index - 1;
    }
    DownEnds(a[..], sel);
  }

  // ----- Selected children move by exactly one place -----

  /** A selected child moves up by one unless all before it are selected too. */
  lemma {:induction false} UpShifts(s: seq<NodeId>, sel: set<NodeId>, i: nat)
    requires i < |s| && s[i] in sel
    ensures if AllIn(s[..i], sel) then Up(s, sel)[i] == s[i] else i > 0 && Up(s, sel)[i - 1] == s[i]
    decreases |s|
  {
    hide Up, Run;
    var u, r := s[0], s[1..];
    assert s == [u] + r;
    if u in sel {
      UpSelected(u, r, sel);
      if i > 0 {
        UpShifts(r, sel, i - 1);
        assert s[..i] == [u] + r[..i - 1];
      }
    } else {
      var k := Run(r, sel);
      assert i > 0 && s[..i][0] == u;
      UpFrom(u, r, sel);
      if i > k {
        ShiftsInRest(r[k..], sel, i - 1 - k);
        UpShifts(r[k..], sel, i - 1 - k);
      }
    }
  }

  lemma ShiftsInRest(rest: seq<NodeId>, sel: set<NodeId>, j: nat)
    requires j < |rest| && rest[j] in sel && rest[0] !in sel
    ensures !AllIn(rest[..j], sel)
  {
    assert rest[..j][0] == rest[0];
  }

  lemma DownShifts(s: seq<NodeId>, sel: set<NodeId>, i: nat)
    requires i < |s| && s[i] in sel
    ensures if AllIn(s[i + 1..], sel) then Down(s, sel)[i] == s[i] else i + 1 < |s| && Down(s, sel)[i + 1] == s[i]
  {
    var m, j := Rev(s), |s| - 1 - i;
    UpShifts(m, sel, j);
    forall x ensures x in m[..j] <==> x in s[i + 1..] {
      if x in m[..j] {
        var a :| 0 <= a < j && m[a] == x;
        assert s[i + 1..][|s| - 1 - a - i - 1] == x;
      }
      if x in s[i + 1..] {
        var a :| 0 <= a < |s| - i - 1 && s[i + 1..][a] == x;
        assert m[..j][|s| - 1 - (a + i + 1)] == x;
      }
    }
  }

  function Within(s: seq<NodeId>, sel: set<NodeId>): seq<NodeId> {
    if s == [] then [] else Picked(s[0], sel) + Within(s[1..], sel)
  }

  function Picked(x: NodeId, sel: set<NodeId>): seq<NodeId> {
    if x in sel then [x] else []
  }

  lemma {:induction false} SplitFilters(s: seq<NodeId>, t: seq<NodeId>, sel: set<NodeId>)
    ensures Within(s + t, sel) == Within(s, sel) + Within(t, sel)
    ensures Without(s + t, sel) == Without(s, sel) + Without(t, sel)
  {
    if s == [] {
      assert s + t == t;
    } else {
      SplitFilters(s[1..], t, sel);
      hide Picked, Kept;
      assert (s + t)[0] == s[0] && (s + t)[1..] == s[1..] + t;
      Reassociate(Picked(s[0], sel), Within(s[1..], sel), Within(t, sel));
      Reassociate(Kept(s[0], sel), Without(s[1..], sel), Without(t, sel));
    }
  }

  lemma {:induction false} FiltersOfRun(s: seq<NodeId>, sel: set<NodeId>)
    requires AllIn(s, sel)
    ensures Within(s, sel) == s && Without(s, sel) == []
  {
    if s != [] {
      assert s[0] in s && forall x :: x in s[1..] ==> x in s;
      FiltersOfRun(s[1..], sel);
    }
  }

  lemma FilterOne(x: NodeId, sel: set<NodeId>)
    ensures Within([x], sel) == (if x in sel then [x] else []) && Without([x], sel) == (if x in sel then [] else [x])
  {
    assert [x][1..] == [];
  }

  /** Neither the selected nor the other children change their order among themselves. */
  lemma {:induction false} UpKeepsOrder(s: seq<NodeId>, sel: set<NodeId>)
    ensures Within(Up(s, sel), sel) == Within(s, sel) && Without(Up(s, sel), sel) == Without(s, sel)
    decreases |s|
  {
    if s != [] {
      hide *;
      var u, r := s[0], s[1..];
      assert s == [u] + r;
      if u in sel {
        UpKeepsOrder(r, sel);
        UpSelected(u, r, sel);
        SplitFilters([u], r, sel);
        SplitFilters([u], Up(r, sel), sel);
      } else {
        var k := Run(r, sel);
        var run, rest := r[..k], r[k..];
        assert r == run + rest;
        UpFrom(u, r, sel);
        UpKeepsOrder(rest, sel);
        BlockFilters(u, rest, Up(rest, sel), run, sel);
      }
    }
  }

  lemma BlockFilters(u: NodeId, rest: seq<NodeId>, moved: seq<NodeId>, run: seq<NodeId>, sel: set<NodeId>)
    requires u !in sel && AllIn(run, sel)
    requires Within(moved, sel) == Within(rest, sel) && Without(moved, sel) == Without(rest, sel)
    ensures Within(run + [u] + moved, sel) == Within([u] + (run + rest), sel)
    ensures Without(run + [u] + moved, sel) == Without([u] + (run + rest), sel)
  {
    hide *;
    FiltersOfRun(run, sel);
    FilterOne(u, sel);
    SplitFilters(run + [u], moved, sel);
    SplitFilters(run, [u], sel);
    SplitFilters([u], run + rest, sel);
    SplitFilters(run, rest, sel);
    assert [] + [u] == [u] && run + [] == run;
  }

  lemma RevNone(s: seq<NodeId>)
    ensures Rev([] + s) == Rev(s) + []
  {
    assert [] + s == s && Rev(s) + [] == Rev(s);
  }

  lemma {:induction false} RevFilters(s: seq<NodeId>, sel: set<NodeId>)
    ensures Within(Rev(s), sel) == Rev(Within(s, sel)) && Without(Rev(s), sel) == Rev(Without(s, sel))
  {
    if s != [] {
      var u, r := s[0], s[1..];
      RevFilters(r, sel);
      hide *;
      assert s == [u] + r;
      RevFirst(u, r);
      SplitFilters(Rev(r), [u], sel);
      SplitFilters([u], r, sel);
      FilterOne(u, sel);
      RevFirst(u, Within(r, sel));
      RevFirst(u, Without(r, sel));
      RevNone(Within(r, sel));
      RevNone(Without(r, sel));
    }
  }

  lemma RevTwice(s: seq<NodeId>)
    ensures Rev(Rev(s)) == s
  {
  }

  lemma DownKeepsOrder(s: seq<NodeId>, sel: set<NodeId>)
    ensures Within(Down(s, sel), sel) == Within(s, sel) && Without(Down(s, sel), sel) == Without(s, sel)
  {
    UpKeepsOrder(Rev(s), sel);
    RevFilters(s, sel);
    RevFilters(Up(Rev(s), sel), sel);
    RevTwice(Within(s, sel));
    RevTwice(Without(s, sel));
  }

  // ----- Up, then down -----

  lemma {:induction false} RunAppend(s: seq<NodeId>, t: seq<NodeId>, sel: set<NodeId>)
    requires t == [] || t[0] !in sel
    ensures Run(s + t, sel) == Run(s, sel)
  {
    if s == [] {
      assert s + t == t;
    } else {
      assert (s + t)[0] == s[0] && (s + t)[1..] == s[1..] + t;
      RunAppend(s[1..], t, sel);
    }
  }

  lemma {:induction false} UpAppend(s: seq<NodeId>, t: seq<NodeId>, sel: set<NodeId>)
    requires t == [] || t[0] !in sel
    ensures Up(s + t, sel) == Up(s, sel) + Up(t, sel)
    decreases |s|
  {
    if s == [] {
      assert s + t == t;
    } else {
      var u, r := s[0], s[1..];
      assert s + t == [u] + (r + t) && s == [u] + r;
      hide *;
      if u in sel {
        UpAppend(r, t, sel);
        UpSelected(u, r + t, sel);
        UpSelected(u, r, sel);
        Reassociate([u], Up(r, sel), Up(t, sel));
      } else {
        var k := Run(r, sel);
        RunAppend(r, t, sel);
        UpFrom(u, r + t, sel);
        UpFrom(u, r, sel);
        UpAppend(r[k..], t, sel);
        SplitAt(r, t, k);
        Reassociate(r[..k] + [u], Up(r[k..], sel), Up(t, sel));
      }
    }
  }

  lemma SplitAt(r: seq<NodeId>, t: seq<NodeId>, k: nat)
    requires k <= |r|
    ensures (r + t)[..k] == r[..k] && (r + t)[k..] == r[k..] + t
  {
  }

  lemma {:induction false} UpOfAll(s: seq<NodeId>, sel: set<NodeId>)
    requires AllIn(s, sel)
    ensures Up(s, sel) == s && Run(s, sel) == |s|
  {
    if s != [] {
      var u, r := s[0], s[1..];
      assert s == [u] + r && u in s && forall x :: x in r ==> x in s;
      UpOfAll(r, sel);
      hide Up;
      UpSelected(u, r, sel);
    }
  }

  lemma UpOfBlock(u: NodeId, run: seq<NodeId>, sel: set<NodeId>)
    requires u !in sel && AllIn(run, sel)
    ensures Up([u] + run, sel) == run + [u]
  {
    UpOfAll(run, sel);
    UpFrom(u, run, sel);
    assert run[..|run|] == run && run[|run|..] == [];
  }

  lemma {:induction false} UpThenDown(s: seq<NodeId>, sel: set<NodeId>)
    requires s == [] || s[0] !in sel
    ensures Down(Up(s, sel), sel) == s
    decreases |s|
  {
    if s != [] {
      hide Up, Rev, Down;
      var u, r := s[0], s[1..];
      var k := Run(r, sel);
      var run, rest := r[..k], r[k..];
      assert s == [u] + r && r == run + rest;
      UpFrom(u, r, sel);
      UpThenDown(rest, sel);
      DownOfBlock(u, run, Up(rest, sel), sel);
    }
  }

  lemma DownOfBlock(u: NodeId, run: seq<NodeId>, moved: seq<NodeId>, sel: set<NodeId>)
    requires u !in sel && AllIn(run, sel)
    ensures Down(run + [u] + moved, sel) == [u] + (run + Down(moved, sel))
  {
    hide Up, Rev, AllIn;
    RevThree(run, u, moved);
    assert ([u] + Rev(run))[0] == u;
    UpAppend(Rev(moved), [u] + Rev(run), sel);
    RevAllIn(run, sel);
    UpOfBlock(u, Rev(run), sel);
    RevBlock(Up(Rev(moved), sel), run, u);
  }

  lemma RevAllIn(s: seq<NodeId>, sel: set<NodeId>)
    requires AllIn(s, sel)
    ensures AllIn(Rev(s), sel)
  {
  }

  lemma RevBlock(a: seq<NodeId>, run: seq<NodeId>, u: NodeId)
    ensures Rev(a + (Rev(run) + [u])) == [u] + (run + Rev(a))
  {
  }

  lemma RevThree(a: seq<NodeId>, u: NodeId, b: seq<NodeId>)
    ensures Rev(a + [u] + b) == Rev(b) + ([u] + Rev(a))
  {
  }

  /** The same members, and without repeats if the other has none. */
  ghost predicate Shuffled(s: seq<NodeId>, t: seq<NodeId>) {
    (forall x :: x in t <==> x in s) && (Distinct(s) ==> Distinct(t))
  }

  lemma {:induction false} UpShuffles(s: seq<NodeId>, sel: set<NodeId>)
    ensures Shuffled(s, Up(s, sel))
    decreases |s|
  {
    if s == [] {
      assert Up(s, sel) == [];
    } else {
      hide *;
      var u, r := s[0], s[1..];
      assert s == [u] + r;
      if u in sel {
        UpSelected(u, r, sel);
        UpShuffles(r, sel);
        ShuffledTail(u, r, Up(r, sel));
      } else {
        var k := Run(r, sel);
        assert r == r[..k] + r[k..];
        UpFrom(u, r, sel);
        UpShuffles(r[k..], sel);
        ShuffledBlock(u, r[..k], r[k..], Up(r[k..], sel));
      }
    }
  }

  lemma ShuffledTail(u: NodeId, r: seq<NodeId>, moved: seq<NodeId>)
    requires Shuffled(r, moved)
    ensures Shuffled([u] + r, [u] + moved)
  {
    if Distinct([u] + r) {
      hide Distinct;
      PartOfDistinct([u], r);
      DisjointParts([u], r);
      TwoParts([u], moved);
    }
  }

  lemma ShuffledBlock(u: NodeId, run: seq<NodeId>, rest: seq<NodeId>, moved: seq<NodeId>)
    requires Shuffled(rest, moved)
    ensures Shuffled([u] + (run + rest), run + [u] + moved)
  {
    if Distinct([u] + (run + rest)) {
      hide Distinct;
      PartOfDistinct([u], run + rest);
      PartOfDistinct(run, rest);
      PartsDistinct(u, run, rest, moved);
    }
  }

  lemma UpMembers(s: seq<NodeId>, sel: set<NodeId>)
    ensures forall x :: x in Up(s, sel) <==> x in s
    ensures Distinct(s) ==> Distinct(Up(s, sel))
  {
    hide Up, Distinct;
    UpShuffles(s, sel);
  }

  lemma PartsDistinct(u: NodeId, run: seq<NodeId>, rest: seq<NodeId>, moved: seq<NodeId>)
    requires Distinct([u] + (run + rest)) && Distinct(moved) && forall x :: x in moved <==> x in rest
    ensures Distinct(run + [u] + moved)
  {
    hide Distinct;
    PartOfDistinct([u], run + rest);
    PartOfDistinct(run, rest);
    DisjointParts([u], run + rest);
    DisjointParts(run, rest);
    OneDistinct(u);
    TwoParts(run, [u]);
    TwoParts(run + [u], moved);
  }

  lemma OneDistinct(u: NodeId)
    ensures Distinct([u])
  {
  }

  lemma RevMembers(s: seq<NodeId>)
    ensures (forall x :: x in Rev(s) <==> x in s) && (Distinct(s) ==> Distinct(Rev(s)))
  {
    forall x | x in s ensures x in Rev(s) {
      var i :| 0 <= i < |s| && s[i] == x;
      assert Rev(s)[|s| - 1 - i] == x;
    }
  }

  lemma DownMembers(s: seq<NodeId>, sel: set<NodeId>)
    ensures (forall x :: x in Down(s, sel) <==> x in s) && (Distinct(s) ==> Distinct(Down(s, sel)))
  {
    hide Up, Rev, Distinct;
    RevMembers(s);
    UpMembers(Rev(s), sel);
    RevMembers(Up(Rev(s), sel));
  }

  /** Moving up and then down is undone exactly when no selected child leads, or all are selected. */
  lemma UpThenDownExactly(s: seq<NodeId>, sel: set<NodeId>)
    requires Distinct(s)
    ensures Down(Up(s, sel), sel) == s <==> s == [] || s[0] !in sel || AllIn(s, sel)
  {
    if s == [] || s[0] !in sel {
      UpThenDown(s, sel);
    } else if AllIn(s, sel) {
      UpOfAll(s, sel);
      RevAllIn(s, sel);
      UpOfAll(Rev(s), sel);
      RevTwice(s);
    } else {
      var t := Up(s, sel);
      UpShifts(s, sel, 0);
      UpMembers(s, sel);
      assert t[0] == s[0];
      DownShifts(t, sel, 0);
      assert forall x :: x in t ==> x == t[0] || x in t[1..];
    }
  }

  // ----- Applying a planned order -----

  /** What the loop makes of the list: it compares with the old list, but moves within the current one. */
  function Applied(existing: seq<NodeId>, planned: seq<NodeId>, actual: seq<NodeId>, i: nat): seq<NodeId>
    decreases |planned| - i
  {
    if i >= |planned| then actual
    else if i < |existing| && existing[i] == planned[i] then Applied(existing, planned, actual, i + 1)
    else
      var rest := Without(actual, {planned[i]});
      Applied(existing, planned, Inserted(rest, Least(i, |rest|), planned[i]), i + 1)
  }

  /** Where the plan leaves a child in place, it also leaves the same children before it. */
  ghost predicate Splits(existing: seq<NodeId>, planned: seq<NodeId>) {
    forall i {:trigger planned[i]} :: 0 <= i < |planned| && i < |existing| && existing[i] == planned[i] ==>
      forall x :: x in existing[..i] <==> x in planned[..i]
  }

  lemma PrefixGone(a: seq<NodeId>, x: NodeId, b: seq<NodeId>, gone: set<NodeId>)
    requires AllIn(a, gone) && x !in gone && x !in b
    ensures Without(a + ([x] + b), gone) == [x] + Without(a + ([x] + b), gone + {x})
  {
    WithoutSame(b, gone, gone + {x});
    assert AllIn(a, gone + {x});
    hide *;
    SplitFilters(a, [x] + b, gone);
    SplitFilters(a, [x] + b, gone + {x});
    SplitFilters([x], b, gone);
    SplitFilters([x], b, gone + {x});
    FilterOne(x, gone);
    FilterOne(x, gone + {x});
    FiltersOfRun(a, gone);
    FiltersOfRun(a, gone + {x});
    assert [] + Without(b, gone) == Without(b, gone);
    assert [] + ([x] + Without(b, gone)) == [x] + Without(b, gone);
  }

  lemma NextMembers(planned: seq<NodeId>, i: nat)
    requires i < |planned| && Distinct(planned)
    ensures Members(planned[..i + 1]) == Members(planned[..i]) + {planned[i]} && planned[i] !in Members(planned[..i])
    ensures planned[..i + 1] == planned[..i] + [planned[i]]
  {
    assert planned[..i + 1] == planned[..i] + [planned[i]];
  }

  lemma WithoutPrefix(existing: seq<NodeId>, planned: seq<NodeId>, i: nat)
    requires i < |existing| && i < |planned| && existing[i] == planned[i]
    requires forall x :: x in existing[..i] ==> x in planned[..i]
    requires Distinct(existing) && Distinct(planned)
    ensures Without(existing, Members(planned[..i])) == [planned[i]] + Without(existing, Members(planned[..i + 1]))
  {
    hide Without;
    var a, x, b := existing[..i], existing[i], existing[i + 1..];
    assert existing == a + ([x] + b);
    assert x !in b by { assert forall k :: 0 <= k < |b| ==> b[k] == existing[i + 1 + k]; }
    NextMembers(planned, i);
    PrefixGone(a, x, b, Members(planned[..i]));
  }

  /** A plan that splits so is reached. */
  lemma {:induction false} SplitPlansAreReached(existing: seq<NodeId>, planned: seq<NodeId>, i: nat)
    requires Permuted(existing, planned) && Splits(existing, planned) && i <= |planned|
    ensures Applied(existing, planned, planned[..i] + Without(existing, Members(planned[..i])), i) == planned
    decreases |planned| - i
  {
    var rest := Without(existing, Members(planned[..i]));
    InWithout(existing, Members(planned[..i]));
    hide Without;
    if i == |planned| {
      assert planned[..i] == planned;
      AllTaken(existing, planned, rest);
    } else {
      SplitPlansAreReached(existing, planned, i + 1);
      NextMembers(planned, i);
      if i < |existing| && existing[i] == planned[i] {
        WithoutPrefix(existing, planned, i);
        Reassociate(planned[..i], [planned[i]], Without(existing, Members(planned[..i + 1])));
      } else {
        TakesNext(existing, planned, i);
      }
    }
  }

  lemma AllTaken(existing: seq<NodeId>, planned: seq<NodeId>, rest: seq<NodeId>)
    requires Permuted(existing, planned) && forall x :: x in rest <==> x in existing && x !in Members(planned)
    ensures rest == [] && planned + rest == planned
  {
    if rest != [] {
      FirstIn(rest);
      assert false;
    }
  }

  lemma FirstIn(s: seq<NodeId>)
    requires s != []
    ensures exists x :: x in s
  {
    assert s[0] in s;
  }

  lemma TakesNext(existing: seq<NodeId>, planned: seq<NodeId>, i: nat)
    requires i < |planned| && Distinct(planned)
    ensures var rest := Without(planned[..i] + Without(existing, Members(planned[..i])), {planned[i]});
      i <= |rest| && Inserted(rest, i, planned[i]) == planned[..i + 1] + Without(existing, Members(planned[..i + 1]))
  {
    hide Without;
    NextMembers(planned, i);
    var x, before := planned[i], planned[..i];
    SplitFilters(before, Without(existing, Members(before)), {x});
    WithoutNone(before, {x});
    WithoutTwice(existing, Members(before), {x});
    var next := Without(existing, Members(planned[..i + 1]));
    assert (before + next)[..i] == before && (before + next)[i..] == next;
  }

  lemma AppliedStep(existing: seq<NodeId>, planned: seq<NodeId>, actual: seq<NodeId>, i: nat)
    requires i < |planned|
    ensures Applied(existing, planned, actual, i) ==
      if i < |existing| && existing[i] == planned[i] then Applied(existing, planned, actual, i + 1)
      else
        var rest := Without(actual, {planned[i]});
        Applied(existing, planned, Inserted(rest, Least(i, |rest|), planned[i]), i + 1)
  {
  }

  lemma AppliedEnd(existing: seq<NodeId>, planned: seq<NodeId>, actual: seq<NodeId>)
    ensures Applied(existing, planned, actual, |planned|) == actual
  {
  }

  /** Not every plan is reached: here the second place is skipped although another child stands there by then. */
  lemma OtherPlansAreMissed()
    ensures var existing: seq<NodeId>, planned: seq<NodeId> := [20, 21, 22, 23], [22, 21, 23, 20];
      Permuted(existing, planned) && Applied(existing, planned, existing, 0) == [22, 23, 21, 20]
  {
    hide Applied, Without;
    var existing: seq<NodeId>, planned: seq<NodeId> := [20, 21, 22, 23], [22, 21, 23, 20];
    var a: seq<NodeId>, b: seq<NodeId> := [20, 21], [23];
    var first: seq<NodeId>, second: seq<NodeId>, third: seq<NodeId> := [22, 20, 21, 23], [22, 20, 23, 21], [22, 23, 21, 20];
    MovesOne(existing, planned, existing, 0, a, b, first);
    AppliedStep(existing, planned, first, 1);
    a, b := [22, 20, 21], [];
    MovesOne(existing, planned, first, 2, a, b, second);
    a, b := [22], [23, 21];
    MovesOne(existing, planned, second, 3, a, b, third);
    AppliedEnd(existing, planned, third);
  }

  lemma MovesOne(existing: seq<NodeId>, planned: seq<NodeId>, actual: seq<NodeId>, i: nat, a: seq<NodeId>, b: seq<NodeId>, next: seq<NodeId>)
    requires i < |planned| && !(i < |existing| && existing[i] == planned[i]) && i <= |a + b|
    requires actual == a + [planned[i]] + b && planned[i] !in a && planned[i] !in b && next == Inserted(a + b, i, planned[i])
    ensures Applied(existing, planned, actual, i) == Applied(existing, planned, next, i + 1)
  {
    hide Without;
    TakenOut(a, planned[i], b);
    AppliedStep(existing, planned, actual, i);
  }

  lemma SplitsAppend(a: seq<NodeId>, a2: seq<NodeId>, b: seq<NodeId>, b2: seq<NodeId>)
    requires |a| == |a2| && Splits(a, a2) && Splits(b, b2) && forall x :: x in a <==> x in a2
    ensures Splits(a + b, a2 + b2)
  {
    var s, t := a + b, a2 + b2;
    forall i {:trigger t[i]} | 0 <= i < |t| && i < |s| && s[i] == t[i] ensures forall x :: x in s[..i] <==> x in t[..i] {
      if i < |a| {
        assert a2[i] == a[i];
        assert s[..i] == a[..i] && t[..i] == a2[..i];
      } else {
        assert b2[i - |a|] == b[i - |a|];
        assert s[..i] == a + b[..i - |a|] && t[..i] == a2 + b2[..i - |a|];
      }
    }
  }

  /** A rotated block has no fixed places. */
  lemma RotationSplits(u: NodeId, run: seq<NodeId>)
    requires Distinct([u] + run)
    ensures Splits([u] + run, run + [u])
  {
    var s, t := [u] + run, run + [u];
    forall i {:trigger t[i]} | 0 < i < |t| ensures s[i] != t[i] {
      if i < |run| { assert s[i + 1] == t[i]; } else { assert s[0] == t[i]; }
    }
    assert s[..0] == [] && t[..0] == [];
  }

  lemma {:induction false} UpSplits(s: seq<NodeId>, sel: set<NodeId>)
    requires Distinct(s)
    ensures Splits(s, Up(s, sel))
    decreases |s|
  {
    if s != [] {
      hide Up, Run, Splits, AllIn;
      var u, r := s[0], s[1..];
      assert s == [u] + r;
      if u in sel {
        UpSelected(u, r, sel);
        UpSplits(r, sel);
        RotationSplits(u, []);
        assert [u] + [] == [] + [u] == [u];
        SplitsAppend([u], [u], r, Up(r, sel));
      } else {
        var k := Run(r, sel);
        var run, rest := r[..k], r[k..];
        assert s == [u] + run + rest;
        UpFrom(u, r, sel);
        PartOfDistinct([u] + run, rest);
        UpSplits(rest, sel);
        RotationSplits(u, run);
        SplitsAppend([u] + run, run + [u], rest, Up(rest, sel));
      }
    }
  }

  lemma PartOfDistinct(a: seq<NodeId>, b: seq<NodeId>)
    requires Distinct(a + b)
    ensures Distinct(a) && Distinct(b)
  {
    assert forall i :: 0 <= i < |a| ==> (a + b)[i] == a[i];
    assert forall i :: 0 <= i < |b| ==> (a + b)[|a| + i] == b[i];
  }

  lemma MirrorSplits(s: seq<NodeId>, t: seq<NodeId>)
    requires Permuted(s, t) && |s| == |t| && Splits(Rev(s), Rev(t))
    ensures Splits(s, t)
  {
    var n := |s|;
    forall i {:trigger t[i]} | 0 <= i < n && s[i] == t[i] ensures forall x :: x in s[..i] <==> x in t[..i] {
      assert Rev(t)[n - 1 - i] == Rev(s)[n - 1 - i];
      forall x ensures x in s[..i] <==> x in t[..i] {
        Around(s, i, x);
        Around(t, i, x);
      }
    }
  }

  /** In a list without repeats a member is before, at, or behind a place; behind is before in the mirror. */
  lemma Around(s: seq<NodeId>, i: nat, x: NodeId)
    requires Distinct(s) && i < |s|
    ensures x in s[..i] <==> x in s && x != s[i] && x !in Rev(s)[..|s| - 1 - i]
  {
    MirrorFront(s, i);
    RevMembers(s[i + 1..]);
    hide Rev;
    AroundPlace(s, i, x);
  }

  lemma MirrorFront(s: seq<NodeId>, i: nat)
    requires i < |s|
    ensures Rev(s)[..|s| - 1 - i] == Rev(s[i + 1..])
  {
    hide Rev;
  }

  lemma AroundPlace(s: seq<NodeId>, i: nat, x: NodeId)
    requires Distinct(s) && i < |s|
    ensures x in s[..i] <==> x in s && x != s[i] && x !in s[i + 1..]
  {
    assert s == s[..i] + [s[i]] + s[i + 1..];
    PartOfDistinct(s[..i] + [s[i]], s[i + 1..]);
    DisjointParts(s[..i] + [s[i]], s[i + 1..]);
    PartOfDistinct(s[..i], [s[i]]);
    DisjointParts(s[..i], [s[i]]);
  }

  lemma DisjointParts(a: seq<NodeId>, b: seq<NodeId>)
    requires Distinct(a + b)
    ensures forall y :: y in a ==> y !in b
  {
    forall y | y in a ensures y !in b {
      var k :| 0 <= k < |a| && a[k] == y;
      assert (a + b)[k] == y;
      forall l | 0 <= l < |b| ensures b[l] != y { assert (a + b)[|a| + l] == b[l]; }
    }
  }

  lemma DownSplits(s: seq<NodeId>, sel: set<NodeId>)
    requires Distinct(s)
    ensures Splits(s, Down(s, sel))
  {
    RevMembers(s);
    DownMembers(s, sel);
    UpSplits(Rev(s), sel);
    RevTwice(Up(Rev(s), sel));
    hide Up, Rev;
    MirrorSplits(s, Down(s, sel));
  }

  // ----- The command -----

  method ApplyPlannedOrder(loro: LoroDocument, p: NodeId, planned: seq<NodeId>)
    requires loro.Valid() && Forest(loro.tree) && p in loro.tree && Permuted(loro.tree[p].children, planned)
    modifies loro
    ensures loro.Valid() && Forest(loro.tree)
    ensures var existing := old(loro.tree)[p].children;
      loro.tree == old(loro.tree)[p := old(loro.tree)[p].(children := Applied(existing, planned, existing, 0))]
    ensures old(loro.touched) <= loro.touched && Covers(loro.touched, old(loro.tree), loro.tree)
  {
    hide Linked, Ranked, Above, Without, Moved, Applied, Permuted;
    ghost var doc := loro.tree;
    var existing := loro.tree[p].children;
    ghost var actual := existing;
    var index := 0;
    Untouched(doc, p);
    while index < |planned|
      invariant 0 <= index <= |planned| && loro.Valid() && Forest(loro.tree)
      invariant Permuted(actual, planned) && loro.tree == doc[p := doc[p].(children := actual)]
      invariant Applied(existing, planned, actual, index) == Applied(existing, planned, existing, 0)
      invariant old(loro.touched) <= loro.touched && Covers(loro.touched, doc, loro.tree)
    {
      AppliedStep(existing, planned, actual, index);
      if index >= |existing| || existing[index] != planned[index] {
        ghost var before := loro.tree;
        ghost var rank :| Ranked(before, rank);
        Moves(before, p, actual, planned, index);
        var moved := loro.MoveNode(planned[index], p, Some(index));
        CoversBoth(loro.touched, doc, before, loro.tree);
        ghost var rest := Without(actual, {planned[index]});
        actual := Inserted(rest, Least(index, |rest|), planned[index]);
      }
      index := index + 1;
    }
    AppliedEnd(existing, planned, actual);
  }

  lemma Untouched(doc: Doc, p: NodeId)
    requires p in doc
    ensures doc == doc[p := doc[p].(children := doc[p].children)] && Covers({}, doc, doc)
  {
  }

  lemma Moves(doc: Doc, p: NodeId, actual: seq<NodeId>, planned: seq<NodeId>, i: nat)
    requires Forest(doc) && p in doc && doc[p].children == actual && Permuted(actual, planned) && i < |planned|
    ensures var id, rest := planned[i], Without(actual, {planned[i]});
      var next := Inserted(rest, Least(i, |rest|), id);
      && id in doc && id != p && (forall rank :: Ranked(doc, rank) ==> !Above(doc, rank, id, p))
      && Moved(doc, id, p, Some(i)) == doc[p := doc[p].(children := next)] && Permuted(next, planned)
  {
    var id, rest := planned[i], Without(actual, {planned[i]});
    assert id in planned;
    NotUnderItself(doc, id, p);
    MovedAmongSiblings(doc, id, p, i);
    InWithout(actual, {id});
    WithoutDistinct(actual, {id});
    InsertedDistinct(rest, Least(i, |rest|), id);
    ShortByOne(actual, id);
    hide Inserted, Without, Moved;
  }

  lemma ShortByOne(s: seq<NodeId>, x: NodeId)
    requires Distinct(s) && x in s
    ensures |Without(s, {x})| == |s| - 1
  {
    var at :| 0 <= at < |s| && s[at] == x;
    WithoutOne(s, at);
  }

  function Shifted(s: seq<NodeId>, sel: set<NodeId>, up: bool): seq<NodeId> {
    if up then Up(s, sel) else Down(s, sel)
  }

  lemma ShiftedPlan(s: seq<NodeId>, sel: set<NodeId>, up: bool)
    requires Distinct(s)
    ensures Permuted(s, Shifted(s, sel, up)) && Applied(s, Shifted(s, sel, up), s, 0) == Shifted(s, sel, up)
  {
    var planned := Shifted(s, sel, up);
    if up {
      UpMembers(s, sel);
      UpSplits(s, sel);
    } else {
      DownMembers(s, sel);
      DownSplits(s, sel);
    }
    hide Splits, Shifted, Applied;
    SplitPlansAreReached(s, planned, 0);
    assert planned[..0] == [];
    WithoutNone(s, Members(planned[..0]));
    assert [] + s == s;
  }

  lemma {:induction false} UpOfNone(s: seq<NodeId>, sel: set<NodeId>)
    requires forall x :: x in s ==> x !in sel
    ensures Up(s, sel) == s
  {
    if s != [] {
      var u, r := s[0], s[1..];
      assert s == [u] + r && u in s && forall x :: x in r ==> x in s;
      UpOfNone(r, sel);
      hide Up;
      assert Run(r, sel) == 0 by { assert r == [] || r[0] in r; }
      hide Run;
      UpFrom(u, r, sel);
      assert r[..0] == [] && r[0..] == r;
      assert [] + [u] == [u];
    }
  }

  lemma NoneShifts(s: seq<NodeId>, sel: set<NodeId>, up: bool)
    requires forall x :: x in s ==> x !in sel
    ensures Shifted(s, sel, up) == s
  {
    RevMembers(s);
    UpOfNone(s, sel);
    UpOfNone(Rev(s), sel);
    RevTwice(s);
  }

  ghost predicate HasSelectedAbove(doc: Doc, rank: map<NodeId, nat>, n: NodeId, sel: set<NodeId>)
    requires Linked(doc) && Ranked(doc, rank) && n in doc
  {
    exists a :: a in sel && Above(doc, rank, a, n)
  }

  /** `hasSelectedAncestor`. */
  method HasSelectedAncestor(doc: Doc, n: NodeId, sel: set<NodeId>) returns (r: bool)
    requires Forest(doc)
    ensures forall rank :: Ranked(doc, rank) && n in doc ==> (r <==> HasSelectedAbove(doc, rank, n, sel))
  {
    ghost var rank :| Ranked(doc, rank);
    if n !in doc { return false; }
    var current := n;
    while doc[current].parent.Some?
      invariant current in doc
      invariant forall other :: Ranked(doc, other) ==>
        (HasSelectedAbove(doc, other, n, sel) <==> HasSelectedAbove(doc, other, current, sel))
      decreases rank[current]
    {
      assert ListedByParent(doc, current) && BelowParent(doc, rank, current);
      var parent := doc[current].parent.value;
      forall other | Ranked(doc, other)
        ensures HasSelectedAbove(doc, other, current, sel) <==> parent in sel || HasSelectedAbove(doc, other, parent, sel)
      {
        assert forall a :: Above(doc, other, a, current) <==> a == parent || Above(doc, other, a, parent);
      }
      if parent in sel { return true; }
      current := parent;
    }
    r := false;
  }

  /** The ids that are moved: those without a selected ancestor. */
  ghost predicate IsTopLevel(doc: Doc, rank: map<NodeId, nat>, nodeIds: seq<NodeId>, n: NodeId)
    requires Linked(doc) && Ranked(doc, rank)
  {
    n in nodeIds && (n in doc ==> !HasSelectedAbove(doc, rank, n, Members(nodeIds)))
  }

  method TopLevel(doc: Doc, nodeIds: seq<NodeId>) returns (ids: seq<NodeId>)
    requires Forest(doc)
    ensures forall rank, n :: Ranked(doc, rank) ==> (n in ids <==> IsTopLevel(doc, rank, nodeIds, n))
  {
    hide HasSelectedAbove, Linked, Ranked;
    ids := [];
    var selected, i := Members(nodeIds), 0;
    while i < |nodeIds|
      invariant 0 <= i <= |nodeIds|
      invariant forall rank, n :: Ranked(doc, rank) && Linked(doc) ==>
        (n in ids <==> n in nodeIds[..i] && (n in doc ==> !HasSelectedAbove(doc, rank, n, selected)))
    {
      var n := nodeIds[i];
      assert nodeIds[..i + 1] == nodeIds[..i] + [n];
      if n !in ids {
        var below := HasSelectedAncestor(doc, n, selected);
        if n !in doc || !below { ids := ids + [n]; }
      }
      i := i + 1;
    }
    assert nodeIds[..i] == nodeIds;
  }

  predicate MayMove(doc: Doc, n: NodeId)
    requires n in doc
  {
    && !doc[n].locked && !IsSystemId(n) && !IsInternal(doc[n])
    && doc[n].parent.Some? && doc[n].parent.value in doc && !IsInternal(doc[doc[n].parent.value])
  }

  ghost predicate AreParents(doc: Doc, ids: seq<NodeId>, parents: seq<NodeId>) {
    forall p :: p in parents <==> p in doc && exists n :: n in ids && n in doc && doc[n].parent == Some(p)
  }

  /** Why a node keeps a batch from moving. */
  predicate HasCause(doc: Doc, n: NodeId, error: Error) {
    && n in doc
    && if IsPinned(doc, n) then error == Locked(n)
       else if doc[n].parent.None? then error == InvalidOperation
       else if doc[n].parent.value !in doc then error == NotFound(doc[n].parent.value)
       else error == InvalidOperation && (doc[doc[n].parent.value].kind.DefConfig? || doc[doc[n].parent.value].kind.SystemOption?)
  }

  /** Checks the moved nodes and collects their parents. */
  method ParentsOf(doc: Doc, ids: seq<NodeId>) returns (r: Result<seq<NodeId>>)
    ensures r.Ok? <==> forall n :: n in ids && n in doc ==> MayMove(doc, n)
    ensures r.Err? ==> exists n :: n in ids && HasCause(doc, n, r.error)
    ensures r.Ok? ==> forall n :: n in ids ==> !IsPinned(doc, n)
    ensures r.Ok? ==> Distinct(r.value)
    ensures r.Ok? ==> AreParents(doc, ids, r.value)
  {
    var parents, i := [], 0;
    while i < |ids|
      invariant 0 <= i <= |ids| && Distinct(parents)
      invariant forall n :: n in ids[..i] && n in doc ==> MayMove(doc, n)
      invariant forall p :: p in parents <==> p in doc && exists n :: n in ids[..i] && n in doc && doc[n].parent == Some(p)
    {
      var n := ids[i];
      assert ids[..i + 1] == ids[..i] + [n];
      if n in doc {
        if doc[n].locked || IsSystemId(n) || IsInternal(doc[n]) {
          assert HasCause(doc, n, Locked(n));
          return Err(Locked(n));
        }
        if doc[n].parent.None? { return Err(InvalidOperation); }
        var p := doc[n].parent.value;
        if p !in doc { return Err(NotFound(p)); }
        if IsInternal(doc[p]) { return Err(InvalidOperation); }
        if p !in parents { parents := parents + [p]; }
        assert n in ids[..i + 1];
      }
      i := i + 1;
    }
    assert ids[..i] == ids;
    r := Ok(parents);
  }

  method ShiftList(children: seq<NodeId>, sel: set<NodeId>, up: bool) returns (shifted: seq<NodeId>)
    ensures shifted == Shifted(children, sel, up)
  {
    hide Up, Down;
    var a := new NodeId[|children|](k requires 0 <= k < |children| => children[k]);
    assert a[..] == children;
    if up { SwapUp(a, sel); } else { SwapDown(a, sel); }
    shifted := a[..];
  }

  /** The new order of every list of children, worked out on a copy of the document. */
  method PlanOrders(doc: Doc, ghost ids: seq<NodeId>, sel: set<NodeId>, parents: seq<NodeId>, up: bool) returns (planned: map<NodeId, seq<NodeId>>)
    requires Linked(doc) && sel == Members(ids) && Distinct(parents)
    requires AreParents(doc, ids, parents)
    ensures planned.Keys == doc.Keys && forall p :: p in doc ==> planned[p] == Shifted(doc[p].children, sel, up)
  {
    assert forall i :: 0 <= i < |parents| ==> parents[i] in doc by { forall i | 0 <= i < |parents| ensures parents[i] in doc { assert parents[i] in parents; } }
    hide Shifted, Linked, Planned, AreParents, Distinct;
    planned := map p | p in doc :: doc[p].children;
    PlanStarts(doc, sel, up);
    var i := 0;
    while i < |parents|
      invariant 0 <= i <= |parents| && Planned(doc, planned, parents[..i], sel, up)
    {
      PlanGoesOn(doc, planned, parents, i, sel, up);
      var shifted := ShiftList(planned[parents[i]], sel, up);
      planned := planned[parents[i] := shifted];
      i := i + 1;
    }
    assert parents[..i] == parents;
    OthersStay(doc, ids, parents, up);
    PlanEnds(doc, planned, parents, sel, up);
  }

  ghost predicate Planned(doc: Doc, planned: map<NodeId, seq<NodeId>>, done: seq<NodeId>, sel: set<NodeId>, up: bool) {
    planned.Keys == doc.Keys && forall p :: p in doc ==>
      planned[p] == if p in done then Shifted(doc[p].children, sel, up) else doc[p].children
  }

  lemma PlanStarts(doc: Doc, sel: set<NodeId>, up: bool)
    ensures Planned(doc, map p | p in doc :: doc[p].children, [], sel, up)
  {
    hide Shifted;
  }

  lemma PlanGoesOn(doc: Doc, planned: map<NodeId, seq<NodeId>>, parents: seq<NodeId>, i: nat, sel: set<NodeId>, up: bool)
    requires i < |parents| && Distinct(parents) && parents[i] in doc && Planned(doc, planned, parents[..i], sel, up)
    ensures var p := parents[i];
      p in planned && planned[p] == doc[p].children &&
      Planned(doc, planned[p := Shifted(doc[p].children, sel, up)], parents[..i + 1], sel, up)
  {
    hide Shifted;
    assert parents[..i + 1] == parents[..i] + [parents[i]];
    assert parents[i] !in parents[..i];
  }

  lemma PlanEnds(doc: Doc, planned: map<NodeId, seq<NodeId>>, parents: seq<NodeId>, sel: set<NodeId>, up: bool)
    requires Planned(doc, planned, parents, sel, up)
    requires forall p :: p in doc && p !in parents ==> Shifted(doc[p].children, sel, up) == doc[p].children
    ensures planned.Keys == doc.Keys && forall p :: p in doc ==> planned[p] == Shifted(doc[p].children, sel, up)
  {
    hide Shifted;
  }

  lemma OthersStay(doc: Doc, ids: seq<NodeId>, parents: seq<NodeId>, up: bool)
    requires Linked(doc)
    requires AreParents(doc, ids, parents)
    ensures forall p :: p in doc && p !in parents ==> Shifted(doc[p].children, Members(ids), up) == doc[p].children
  {
    hide Linked, Shifted;
    forall p {:trigger p in parents} | p in doc && p !in parents ensures Shifted(doc[p].children, Members(ids), up) == doc[p].children {
      NoSelectedChild(doc, ids, p);
      NoneShifts(doc[p].children, Members(ids), up);
    }
  }

  lemma NoSelectedChild(doc: Doc, ids: seq<NodeId>, p: NodeId)
    requires Linked(doc) && p in doc && !exists n :: n in ids && n in doc && doc[n].parent == Some(p)
    ensures forall c :: c in doc[p].children ==> c !in ids
  {
  }

  // ----- The whole batch -----

  /** Every list of children after the batch. */
  function Reordered(doc: Doc, sel: set<NodeId>, up: bool): Doc {
    map n | n in doc :: doc[n].(children := Shifted(doc[n].children, sel, up))
  }

  function Underway(doc: Doc, planned: map<NodeId, seq<NodeId>>, pending: set<NodeId>): Doc {
    map n | n in doc :: doc[n].(children := if n in pending || n !in planned then doc[n].children else planned[n])
  }

  lemma OneMore(doc: Doc, planned: map<NodeId, seq<NodeId>>, pending: set<NodeId>, p: NodeId)
    requires p in pending && p in doc && p in planned
    ensures var now := Underway(doc, planned, pending);
      now[p].children == doc[p].children && now[p := now[p].(children := planned[p])] == Underway(doc, planned, pending - {p})
  {
  }

  /** `applyPlannedParentOrders`: the plan is reached although it is compared with a stale copy. */
  method ApplyPlannedOrders(loro: LoroDocument, planned: map<NodeId, seq<NodeId>>)
    requires loro.Valid() && Forest(loro.tree) && planned.Keys == loro.tree.Keys
    requires forall p :: p in loro.tree ==> var s := loro.tree[p].children;
      Permuted(s, planned[p]) && Applied(s, planned[p], s, 0) == planned[p]
    modifies loro
    ensures loro.Valid() && Forest(loro.tree)
    ensures loro.tree == Underway(old(loro.tree), planned, {})
    ensures old(loro.touched) <= loro.touched && Covers(loro.touched, old(loro.tree), loro.tree)
  {
    hide Linked, Ranked, Applied, Permuted, Covers, Underway;
    ghost var doc := loro.tree;
    var pending := planned.Keys;
    NothingUnderway(doc, planned);
    CoversMore({}, loro.touched, doc, loro.tree);
    while pending != {}
      invariant pending <= planned.Keys && loro.Valid() && Forest(loro.tree)
      invariant loro.tree == Underway(doc, planned, pending)
      invariant old(loro.touched) <= loro.touched && Covers(loro.touched, doc, loro.tree)
      decreases pending
    {
      var p :| p in pending;
      OneMore(doc, planned, pending, p);
      SameKeys(doc, planned, pending);
      ghost var before, touched := loro.tree, loro.touched;
      pending := pending - {p};
      ApplyPlannedOrder(loro, p, planned[p]);
      CoversMore(touched, loro.touched, doc, before);
      CoversBoth(loro.touched, doc, before, loro.tree);
    }
  }

  lemma NothingUnderway(doc: Doc, planned: map<NodeId, seq<NodeId>>)
    ensures Underway(doc, planned, planned.Keys) == doc && Covers({}, doc, doc)
  {
  }

  lemma SameKeys(doc: Doc, planned: map<NodeId, seq<NodeId>>, pending: set<NodeId>)
    ensures Underway(doc, planned, pending).Keys == doc.Keys
  {
  }

  /**
   * `batchMoveNodesUp` and `batchMoveNodesDown`: refused as a whole, or every list of children is shifted for the
   * selected nodes that have no selected ancestor.
   */
  method BatchMoveNodes(loro: LoroDocument, nodeIds: seq<NodeId>, up: bool) returns (r: Result<bool>, ghost moved: seq<NodeId>)
    requires loro.Valid() && Forest(loro.tree)
    modifies loro
    ensures loro.Valid() && Forest(loro.tree)
    ensures forall rank, n :: Ranked(old(loro.tree), rank) ==> (n in moved <==> IsTopLevel(old(loro.tree), rank, nodeIds, n))
    ensures r.Ok? <==> forall n :: n in moved && n in old(loro.tree) ==> MayMove(old(loro.tree), n)
    ensures r.Ok? ==> forall n :: n in moved ==> !IsPinned(old(loro.tree), n)
    ensures r.Err? ==> exists n :: n in moved && HasCause(old(loro.tree), n, r.error)
    ensures r.Err? ==> loro.tree == old(loro.tree) && loro.touched == old(loro.touched)
    ensures r.Ok? ==> loro.tree == Reordered(old(loro.tree), Members(moved), up)
    ensures old(loro.touched) <= loro.touched && Covers(loro.touched, old(loro.tree), loro.tree)
  {
    hide IsTopLevel, Shifted, Applied, Permuted, MayMove, Ranked, Covers, HasCause, IsPinned;
    ghost var doc := loro.tree;
    CoversSame({}, doc);
    CoversMore({}, loro.touched, doc, doc);
    loro.Reconcile();
    var state := loro.cache;
    var ids := TopLevel(state, nodeIds);
    moved := ids;
    var parents := ParentsOf(state, ids);
    if parents.Err? { r := Err(parents.error); return; }
    var planned := PlanOrders(state, ids, Members(ids), parents.value, up);
    forall p | p in doc {
      ShiftedPlan(doc[p].children, Members(ids), up);
    }
    ApplyPlannedOrders(loro, planned);
    r := Ok(true);
  }

  lemma BatchUpThenDown(doc: Doc, sel: set<NodeId>)
    requires forall n :: n in doc ==> doc[n].children == [] || doc[n].children[0] !in sel
    ensures Reordered(Reordered(doc, sel, true), sel, false) == doc
  {
    forall n | n in doc ensures Down(Up(doc[n].children, sel), sel) == doc[n].children { UpThenDown(doc[n].children, sel); }
  }
}