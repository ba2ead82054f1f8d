/** Moving a node among its siblings. */
module Siblings {
  import opened Collections
  import opened Outline
  import opened LoroDocument

  lemma {:induction false} WithoutOne(s: seq<NodeId>, at: nat)
    requires Distinct(s) && at < |s|
    ensures Without(s, {s[at]}) == s[..at] + s[at + 1..]
  {
    if at == 0 {
      WithoutNone(s[1..], {s[0]});
    } else {
      WithoutOne(s[1..], at - 1);
      assert s[1..][..at - 1] == s[1..at] && s[1..][at..] == s[at + 1..];
      assert s[..at] == [s[0]] + s[1..at];
    }
  }

  /** A move among the children of the same parent changes nothing but their order. */
  lemma MovedAmongSiblings(doc: Doc, id: NodeId, p: NodeId, index: nat)
    requires Linked(doc) && p in doc && id in doc[p].children && id != p
    ensures Moved(doc, id, p, Some(index)) == doc[p := doc[p].(children :=
      Inserted(Without(doc[p].children, {id}), Least(InsertionIndex(Some(index), |doc[p].children|), |Without(doc[p].children, {id})|), id))]
  {
    assert doc[id].parent == Some(p);
    forall n | n in doc && n != p ensures Without(doc[n].children, {id}) == doc[n].children {
      assert id !in doc[n].children;
      WithoutNone(doc[n].children, {id});
    }
  }

  /** One step of the loop: the child at `at` moves forward to `index`. */
  lemma StepsForward(s: seq<NodeId>, at: nat, index: nat)
    requires Distinct(s) && index <= at < |s|
    ensures var next := Inserted(s[..at] + s[at + 1..], index, s[at]);
      && |next| == |s| && next[..index + 1] == s[..index] + [s[at]] && Distinct(next)
      && forall x :: x in next <==> x in s
  {
    var rest := s[..at] + s[at + 1..];
    WithoutOne(s, at);
    InWithout(s, {s[at]});
    WithoutDistinct(s, {s[at]});
    InsertedDistinct(rest, index, s[at]);
    assert rest[..index] == s[..index];
  }

  lemma NotUnderItself(doc: Doc, id: NodeId, p: NodeId)
    requires Forest(doc) && p in doc && id in doc[p].children
    ensures id != p && forall rank :: Ranked(doc, rank) ==> !Above(doc, rank, id, p)
  {
    forall rank | Ranked(doc, rank) ensures id != p && !Above(doc, rank, id, p) {
      assert BelowParent(doc, rank, id) && doc[id].parent == Some(p);
      if Above(doc, rank, id, p) { AboveIsHigher(doc, rank, id, p); }
    }
    var rank :| Ranked(doc, rank);
  }

  lemma {:induction false} AboveIsHigher(doc: Doc, rank: map<NodeId, nat>, a: NodeId, n: NodeId)
    requires Linked(doc) && Ranked(doc, rank) && n in doc && Above(doc, rank, a, n) && a in doc
    ensures rank[a] < rank[n]
    decreases rank[n]
  {
    assert BelowParent(doc, rank, n) && ListedByParent(doc, n);
    if doc[n].parent.value != a { AboveIsHigher(doc, rank, a, doc[n].parent.value); }
  }

  lemma MoveOf(doc: Doc, p: NodeId, current: seq<NodeId>, at: nat, index: nat)
    requires Forest(doc) && p in doc && doc[p].children == current && index <= at < |current|
    ensures var id := current[at];
      && id in doc && id != p && (forall rank :: Ranked(doc, rank) ==> !Above(doc, rank, id, p))
      && Moved(doc, id, p, Some(index)) == doc[p := doc[p].(children := Inserted(current[..at] + current[at + 1..], index, id))]
  {
    NotUnderItself(doc, current[at], p);
    WithoutOne(current, at);
    MovedAmongSiblings(doc, current[at], p, index);
  }

  lemma TwoParts(a: seq<NodeId>, b: seq<NodeId>)
    requires Distinct(a) && Distinct(b) && forall x :: x in a ==> x !in b
    ensures Distinct(a + b)
  {
    forall i, j | 0 <= i < j < |a + b| ensures (a + b)[i] != (a + b)[j] {
      assert i < |a| <= j ==> a[i] in a && b[j - |a|] in b;
    }
  }

  ghost predicate Permuted(s: seq<NodeId>, t: seq<NodeId>) {
    Distinct(s) && Distinct(t) && forall x :: x in s <==> x in t
  }

  /** `indexOf`. */
  method IndexOf(s: seq<NodeId>, x: NodeId) returns (at: int)
    ensures at < 0 ==> x !in s
    ensures at >= 0 ==> at < |s| && s[at] == x && x !in s[..at]
  {
    at := 0;
    while at < |s|
      invariant 0 <= at <= |s| && x !in s[..at]
    {
      if s[at] == x { return; }
      at := at + 1;
    }
    at := -1;
  }

  /** What goes on after a list with one of its members has a repeat. */
  lemma SurplusRepeats(current: seq<NodeId>, desired: seq<NodeId>)
    requires |desired| < |current| && current[..|desired|] == desired && current[|desired|] in desired
    ensures !Distinct(current)
  {
    var k :| 0 <= k < |desired| && desired[k] == current[|desired|];
    assert current[k] == current[..|desired|][k];
  }

  lemma AllPlaced(current: seq<NodeId>, desired: seq<NodeId>)
    requires Permuted(current, desired) && |desired| <= |current| && current[..|desired|] == desired
    ensures current == desired
  {
    if |current| > |desired| {
      SurplusRepeats(current, desired);
      assert false;
    }
  }

  lemma {:induction false} WithoutAppend(s: seq<NodeId>, t: seq<NodeId>, gone: set<NodeId>)
    ensures Without(s + t, gone) == Without(s, gone) + Without(t, gone)
  {
    if s == [] {
      assert s + t == t;
    } else {
      WithoutAppend(s[1..], t, gone);
      assert (s + t)[0] == s[0] && (s + t)[1..] == s[1..] + t;
      assert Without(s + t, gone) == Kept(s[0], gone) + Without(s[1..] + t, gone);
      assert Without(s, gone) == Kept(s[0], gone) + Without(s[1..], gone);
      hide *;
      Grouped(Kept(s[0], gone), Without(s[1..], gone), Without(t, gone));
    }
  }

  lemma Grouped(a: seq<NodeId>, b: seq<NodeId>, c: seq<NodeId>)
    ensures (a + b) + c == a + (b + c)
  {
  }

  lemma TakenOut(a: seq<NodeId>, x: NodeId, b: seq<NodeId>)
    requires x !in a && x !in b
    ensures Without(a + [x] + b, {x}) == a + b
  {
    WithoutAppend(a + [x], b, {x});
    WithoutAppend(a, [x], {x});
    WithoutNone(a, {x});
    WithoutNone(b, {x});
    assert [x][1..] == [] && Without([x], {x}) == [];
    assert a + [] == a;
  }
}
