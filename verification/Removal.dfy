/** Cascading removal: a subtree goes together with every reference that would be left pointing into it. */
module Removal {
  import opened Collections
  import opened Outline
  import opened LoroDocument

  // ----- What a removal takes with it -----

  predicate PointsInto(doc: Doc, n: NodeId, s: set<NodeId>)
    requires n in doc
  {
    doc[n].kind.Reference? && doc[n].target.Some? && doc[n].target.value in s
  }

  ghost predicate HoldsChildren(doc: Doc, s: set<NodeId>) {
    forall n, c {:trigger c in doc[n].children} :: n in s && n in doc && c in doc[n].children && c in doc ==> c in s
  }

  ghost predicate HoldsReferences(doc: Doc, s: set<NodeId>) {
    forall n {:trigger PointsInto(doc, n, s)} :: n in doc && PointsInto(doc, n, s) ==> n in s
  }

  ghost predicate Closed(doc: Doc, root: NodeId, s: set<NodeId>) {
    root in s && HoldsChildren(doc, s) && HoldsReferences(doc, s)
  }

  /** In every closed set, so bound to go. */
  ghost predicate Forced(doc: Doc, root: NodeId, n: NodeId) {
    forall s {:trigger Closed(doc, root, s)} :: Closed(doc, root, s) ==> n in s
  }

  /** The least set with the root that is closed under children and under references into it. */
  ghost predicate IsCascade(doc: Doc, root: NodeId, s: set<NodeId>) {
    s <= doc.Keys && Closed(doc, root, s) && forall n :: n in s ==> Forced(doc, root, n)
  }

  lemma CascadeIsUnique(doc: Doc, root: NodeId, s: set<NodeId>, t: set<NodeId>)
    requires IsCascade(doc, root, s) && IsCascade(doc, root, t)
    ensures s == t
  {
    forall n ensures n in s <==> n in t {
      if n in s { assert Forced(doc, root, n); }
      if n in t { assert Forced(doc, root, n); }
    }
  }

  lemma ForcedChild(doc: Doc, root: NodeId, n: NodeId, c: NodeId)
    requires Forced(doc, root, n) && n in doc && c in doc && c in doc[n].children
    ensures Forced(doc, root, c)
  {
  }

  lemma ForcedReference(doc: Doc, root: NodeId, n: NodeId)
    requires n in doc && doc[n].kind.Reference? && doc[n].target.Some? && Forced(doc, root, doc[n].target.value)
    ensures Forced(doc, root, n)
  {
    forall s | Closed(doc, root, s) ensures n in s { assert PointsInto(doc, n, s); }
  }

  /** What remains to be visited below the members of a set. */
  ghost predicate Pending(doc: Doc, s: set<NodeId>, stack: seq<NodeId>) {
    forall n, c {:trigger c in doc[n].children} ::
      n in s && n in doc && c in doc[n].children && c in doc ==> c in s || c in stack
  }

  method PushChildren(children: seq<NodeId>, stack: seq<NodeId>) returns (pushed: seq<NodeId>)
    ensures forall x :: x in pushed <==> x in stack || x in children
  {
    pushed := stack;
    var index := |children|;
    while index > 0
      invariant 0 <= index <= |children|
      invariant forall x :: x in pushed <==> x in stack || x in children[index..]
    {
      index := index - 1;
      assert children[index..] == [children[index]] + children[index + 1..];
      pushed := pushed + [children[index]];
    }
  }

  lemma Descended(doc: Doc, s: set<NodeId>, rest: seq<NodeId>, id: NodeId, stack: seq<NodeId>)
    requires id in doc && Pending(doc, s, rest + [id])
    requires forall x :: x in stack <==> x in rest || x in doc[id].children
    ensures Pending(doc, s + {id}, stack)
  {
    forall n, c | n in s + {id} && n in doc && c in doc[n].children && c in doc ensures c in s + {id} || c in stack {
      if n != id { assert c in s || c in rest + [id]; }
    }
  }

  /** `addSubtree`: everything below the root joins the removed set. */
  method AddSubtree(doc: Doc, ghost root: NodeId, start: set<NodeId>, rootId: NodeId)
    returns (removed: set<NodeId>, added: bool)
    requires start <= doc.Keys && HoldsChildren(doc, start)
    requires forall n :: n in start ==> Forced(doc, root, n)
    requires Forced(doc, root, rootId) && rootId in doc
    ensures start <= removed <= doc.Keys && rootId in removed && HoldsChildren(doc, removed)
    ensures forall n :: n in removed ==> Forced(doc, root, n)
    ensures added <==> removed != start
  {
    hide Forced, HoldsChildren;
    removed, added := start, false;
    var stack := [rootId];
    AllHeld(doc, removed, stack);
    while stack != []
      invariant start <= removed <= doc.Keys && (rootId in removed || rootId in stack)
      invariant forall n :: n in removed ==> Forced(doc, root, n)
      invariant forall n :: n in stack && n in doc ==> Forced(doc, root, n)
      invariant Pending(doc, removed, stack)
      invariant added <==> removed != start
      decreases doc.Keys - removed, |stack|
    {
      var id, rest := stack[|stack| - 1], stack[..|stack| - 1];
      assert stack == rest + [id];
      assert id in stack && forall x :: x in rest ==> x in stack;
      stack := rest;
      if id in removed || id !in doc {
        Passed(doc, removed, rest, id);
        continue;
      }
      ghost var before := removed;
      removed, added := removed + {id}, true;
      assert id !in start;
      stack := PushChildren(doc[id].children, rest);
      Descended(doc, before, rest, id, stack);
      forall n | n in stack && n in doc ensures Forced(doc, root, n) {
        if n !in rest { ForcedChild(doc, root, id, n); }
      }
    }
    NothingPending(doc, removed);
  }

  lemma AllHeld(doc: Doc, s: set<NodeId>, stack: seq<NodeId>)
    requires HoldsChildren(doc, s)
    ensures Pending(doc, s, stack)
  {
  }

  lemma NothingPending(doc: Doc, s: set<NodeId>)
    requires Pending(doc, s, [])
    ensures HoldsChildren(doc, s)
  {
  }

  lemma Passed(doc: Doc, s: set<NodeId>, rest: seq<NodeId>, id: NodeId)
    requires Pending(doc, s, rest + [id]) && (id in s || id !in doc)
    ensures Pending(doc, s, rest)
  {
    forall n, c | n in s && n in doc && c in doc[n].children && c in doc ensures c in s || c in rest {
      assert c in s || c in rest + [id];
    }
  }

  /** One pass over all nodes: references into the set join it. */
  method AddReferences(doc: Doc, ghost root: NodeId, start: set<NodeId>) returns (removed: set<NodeId>, changed: bool)
    requires start <= doc.Keys && HoldsChildren(doc, start)
    requires forall n :: n in start ==> Forced(doc, root, n)
    ensures start <= removed <= doc.Keys && HoldsChildren(doc, removed)
    ensures forall n :: n in removed ==> Forced(doc, root, n)
    ensures changed <==> removed != start
    ensures !changed ==> HoldsReferences(doc, removed)
  {
    hide Forced, HoldsChildren, HoldsReferences;
    removed, changed := start, false;
    var pending := doc.Keys;
    while pending != {}
      invariant pending <= doc.Keys && start <= removed <= doc.Keys && HoldsChildren(doc, removed)
      invariant forall n :: n in removed ==> Forced(doc, root, n)
      invariant changed <==> removed != start
      invariant !changed ==> forall n :: n in doc && n !in pending && PointsInto(doc, n, start) ==> n in start
      decreases pending
    {
      var n :| n in pending;
      pending := pending - {n};
      if n !in removed && PointsInto(doc, n, removed) {
        ForcedReference(doc, root, n);
        var added;
        removed, added := AddSubtree(doc, root, removed, n);
        if added { changed := true; }
      }
    }
    if !changed { ReferencesHeld(doc, removed); }
  }

  lemma ReferencesHeld(doc: Doc, s: set<NodeId>)
    requires forall n :: n in doc && PointsInto(doc, n, s) ==> n in s
    ensures HoldsReferences(doc, s)
  {
  }

  /** `collectSubtreeAndDependentReferences`: the fixed point is the least closed set. */
  method CollectCascade(doc: Doc, nodeId: NodeId) returns (removed: set<NodeId>)
    requires nodeId in doc
    ensures IsCascade(doc, nodeId, removed)
  {
    var changed;
    removed, changed := AddSubtree(doc, nodeId, {}, nodeId);
    changed := true;
    while changed
      invariant nodeId in removed && removed <= doc.Keys && HoldsChildren(doc, removed)
      invariant forall n :: n in removed ==> Forced(doc, nodeId, n)
      invariant !changed ==> HoldsReferences(doc, removed)
      decreases doc.Keys - removed, changed
    {
      removed, changed := AddReferences(doc, nodeId, removed);
    }
  }

  // ----- Deleting the roots -----

  predicate IsRemovalRoot(doc: Doc, removed: set<NodeId>, n: NodeId)
    requires n in doc
  {
    doc[n].parent.None? || doc[n].parent.value !in removed
  }

  /** `removalRootIds`. */
  function Roots(doc: Doc, removed: set<NodeId>): set<NodeId> {
    set n | n in removed && n in doc && IsRemovalRoot(doc, removed, n)
  }

  /** A part of the removed set that holds its children and all roots is the whole of it. */
  lemma {:induction false} RootsReachAll(doc: Doc, rank: map<NodeId, nat>, removed: set<NodeId>, gone: set<NodeId>, n: NodeId)
    requires Linked(doc) && Ranked(doc, rank) && removed <= doc.Keys && n in removed
    requires Roots(doc, removed) <= gone && HoldsAllChildren(doc, gone)
    ensures n in gone
    decreases rank[n]
  {
    if !IsRemovalRoot(doc, removed, n) {
      assert BelowParent(doc, rank, n) && ListedByParent(doc, n);
      RootsReachAll(doc, rank, removed, gone, doc[n].parent.value);
    }
  }

  /** The subtree of a root, in the document that is left, lies in the removed set and holds no other root. */
  lemma RootSubtree(doc: Doc, rank: map<NodeId, nat>, removed: set<NodeId>, gone: set<NodeId>, r: NodeId, s: set<NodeId>)
    requires Linked(doc) && Ranked(doc, rank) && removed <= doc.Keys && HoldsAllChildren(doc, removed)
    requires HoldsAllChildren(doc, gone) && r in Roots(doc, removed) && r !in gone
    requires IsSubtree(Pruned(doc, gone), r, s)
    ensures s <= removed && HoldsAllChildren(doc, gone + s)
    ensures forall n :: n in s && n in Roots(doc, removed) ==> n == r
  {
    var left := Pruned(doc, gone);
    PrunedForest(doc, gone);
    forall m, c | m in removed && m in left && c in left[m].children ensures c in removed { InWithout(doc[m].children, gone); }
    forall n | n in s ensures n in removed { SubtreeIsLeast(left, rank - gone, r, s, removed, n); }
    forall n, c | n in gone + s && n in doc && c in doc[n].children ensures c in gone + s {
      if n !in gone && c !in gone {
        InWithout(doc[n].children, gone);
        assert c in left[n].children;
      }
    }
    forall n | n in s && n in Roots(doc, removed) ensures n == r { assert n == r || HangsIn(left, s, n); }
  }

  /** After the last deletion the cache still has the old list of that root's parent; all else is up to date. */
  ghost predicate OneListBehind(tree: Doc, cache: Doc, parents: set<NodeId>, last: NodeId) {
    && cache.Keys == tree.Keys
    && (forall n :: n in tree ==> cache[n] == tree[n].(children := cache[n].children))
    && (forall n :: n in parents ==> n in tree && last in cache[n].children && last !in tree[n].children)
    && (forall n :: n in tree && n !in parents ==> cache[n] == tree[n])
  }

  lemma DeletedOne(before: Doc, after: Doc, cache: Doc, last: NodeId, s: set<NodeId>)
    requires Linked(before) && IsSubtree(before, last, s) && last in before && Parents(before, last) !! s
    requires after == Pruned(before, s) && cache == before - s
    requires forall n {:trigger Differs(after, cache, n)} :: n !in Parents(before, last) ==> !Differs(after, cache, n)
    ensures OneListBehind(after, cache, Parents(before, last), last)
  {
    forall n | n in after && n !in Parents(before, last) ensures cache[n] == after[n] { assert !Differs(after, cache, n); }
    forall n | n in Parents(before, last) ensures n in after && last in cache[n].children && last !in after[n].children {
      assert ListedByParent(before, last);
      InWithout(before[n].children, s);
    }
  }

  lemma NothingGone(doc: Doc)
    ensures HoldsAllChildren(doc, {}) && Pruned(doc, {}) == doc
  {
    PrunedNothing(doc);
  }

  lemma NextRoot(doc: Doc, removed: set<NodeId>, gone: set<NodeId>, r: NodeId)
    requires r in Roots(doc, removed) && r !in gone
    ensures r in Pruned(doc, gone) && Parents(Pruned(doc, gone), r) == Parents(doc, r) && Parents(doc, r) !! removed
  {
  }

  /** Deletes the roots in some order; exactly the removed set disappears. */
  method DeleteRoots(loro: LoroDocument, removed: set<NodeId>) returns (ghost last: NodeId)
    requires loro.Valid() && Forest(loro.tree) && removed <= loro.tree.Keys && HoldsAllChildren(loro.tree, removed)
    requires Roots(loro.tree, removed) != {}
    modifies loro
    ensures loro.Valid() && loro.tree == Pruned(old(loro.tree), removed)
    ensures old(loro.touched) <= loro.touched && Covers(loro.touched, old(loro.tree), loro.tree)
    ensures last in Roots(old(loro.tree), removed) && loro.statePatch == Parents(old(loro.tree), last)
    ensures OneListBehind(loro.tree, loro.cache, loro.statePatch, last)
  {
    hide HoldsAllChildren, Linked, Ranked, Pruned, IsSubtree, Without, OneListBehind;
    ghost var doc := loro.tree;
    ghost var rank :| Ranked(doc, rank);
    ghost var gone: set<NodeId> := {};
    var pending := Roots(loro.tree, removed);
    ghost var roots := pending;
    last :| last in roots;
    NothingGone(doc);
    while pending != {}
      invariant loro.Valid() && gone <= removed && HoldsAllChildren(doc, gone) && loro.tree == Pruned(doc, gone)
      invariant pending <= roots && roots - pending <= gone && pending !! gone
      invariant old(loro.touched) <= loro.touched && Covers(loro.touched, doc, loro.tree)
      invariant last in roots
      invariant pending != roots ==> loro.statePatch == Parents(doc, last)
      invariant pending != roots ==> OneListBehind(loro.tree, loro.cache, loro.statePatch, last)
      decreases pending
    {
      var r :| r in pending;
      pending := pending - {r};
      ghost var before, touched := loro.tree, loro.touched;
      PrunedForest(doc, gone);
      NextRoot(doc, removed, gone, r);
      ghost var s := loro.DeleteNode(r);
      RootSubtree(doc, rank, removed, gone, r, s);
      PrunedTwice(doc, gone, s);
      CoversBoth(loro.touched, doc, before, loro.tree);
      DeletedOne(before, loro.tree, loro.cache, r, s);
      gone, last := gone + s, r;
    }
    forall n | n in removed ensures n in gone { RootsReachAll(doc, rank, removed, gone, n); }
    assert gone == removed;
  }

  // ----- Scrubbing the survivors -----

  function WithoutRefs(refs: seq<Option<NodeId>>, gone: set<NodeId>): seq<Option<NodeId>> {
    if refs == [] then []
    else (if refs[0].Some? && refs[0].value in gone then [] else [refs[0]]) + WithoutRefs(refs[1..], gone)
  }

  predicate NamesGone(id: Option<NodeId>, gone: set<NodeId>) {
    id.Some? && id.value in gone
  }

  function Scrubbed(node: Node, gone: set<NodeId>, replacement: Option<NodeId>): Node {
    node.(
      tags := Without(node.tags, gone),
      target := if node.kind.Reference? && NamesGone(node.target, gone) then None else node.target,
      queryTarget := if (node.kind.Search? || node.kind.QueryCondition?) && NamesGone(node.queryTarget, gone) then None
                     else node.queryTarget,
      template := if NamesGone(node.template, gone) then replacement else node.template,
      inlineRefs := WithoutRefs(node.inlineRefs, gone))
  }

  function AllScrubbed(doc: Doc, gone: set<NodeId>, replacement: Option<NodeId>): Doc {
    map n | n in doc :: Scrubbed(doc[n], gone, replacement)
  }

  ghost predicate Written(tree: Doc, cache: Doc, now: Doc, nowCache: Doc, removed: set<NodeId>, replacement: Option<NodeId>, n: NodeId) {
    && n in tree && n in cache && n in now && n in nowCache
    && now[n] == Scrubbed(tree[n], removed, replacement) && nowCache[n] == Scrubbed(cache[n], removed, replacement)
  }

  ghost predicate Unwritten(tree: Doc, cache: Doc, now: Doc, nowCache: Doc, n: NodeId) {
    n in tree && n in cache && n in now && n in nowCache && now[n] == tree[n] && nowCache[n] == cache[n]
  }

  /** The scrub has dealt with all nodes but the pending ones. */
  ghost predicate Halfway(tree: Doc, cache: Doc, behind: set<NodeId>, now: Doc, nowCache: Doc, patch: set<NodeId>,
                          pending: set<NodeId>, removed: set<NodeId>, replacement: Option<NodeId>)
  {
    && now.Keys == tree.Keys && nowCache.Keys == tree.Keys && cache.Keys == tree.Keys
    && patch <= behind && behind <= tree.Keys && behind * pending <= patch
    && (forall n {:trigger Unwritten(tree, cache, now, nowCache, n)} :: n in tree && n in pending ==>
      Unwritten(tree, cache, now, nowCache, n))
    && (forall n {:trigger Written(tree, cache, now, nowCache, removed, replacement, n)} :: n in tree && n !in pending ==>
      Written(tree, cache, now, nowCache, removed, replacement, n))
    && (forall n :: n in behind - pending ==> (n in patch <==> Scrubbed(tree[n], removed, replacement) == tree[n]))
  }

  lemma ScrubKeepsPlace(node: Node, cached: Node, removed: set<NodeId>, replacement: Option<NodeId>)
    requires cached == node.(children := cached.children)
    ensures var next := Scrubbed(cached, removed, replacement);
      && next.(parent := node.parent, children := node.children) == Scrubbed(node, removed, replacement)
      && (next == cached <==> Scrubbed(node, removed, replacement) == node)
      && next.children == cached.children
  {
  }

  lemma ScrubsOne(tree: Doc, cache: Doc, behind: set<NodeId>, now: Doc, nowCache: Doc, patch: set<NodeId>,
                  pending: set<NodeId>, removed: set<NodeId>, replacement: Option<NodeId>, n: NodeId)
    requires Halfway(tree, cache, behind, now, nowCache, patch, pending, removed, replacement)
    requires n in pending && n in tree && cache[n] == tree[n].(children := cache[n].children)
    ensures var next := Scrubbed(cache[n], removed, replacement);
      if next == cache[n] then Halfway(tree, cache, behind, now, nowCache, patch, pending - {n}, removed, replacement)
      else Halfway(tree, cache, behind, now[n := next.(parent := now[n].parent, children := now[n].children)], nowCache[n := next],
                   patch - {n}, pending - {n}, removed, replacement)
  {
    var next := Scrubbed(cache[n], removed, replacement);
    ScrubKeepsPlace(tree[n], cache[n], removed, replacement);
    hide Scrubbed;
    assert Unwritten(tree, cache, now, nowCache, n);
    if next == cache[n] {
      assert Written(tree, cache, now, nowCache, removed, replacement, n);
    } else {
      var now2, cache2 := now[n := next.(parent := now[n].parent, children := now[n].children)], nowCache[n := next];
      forall m | m in tree && m in pending - {n} ensures Unwritten(tree, cache, now2, cache2, m) {
        assert Unwritten(tree, cache, now, nowCache, m);
      }
      forall m | m in tree && m !in pending - {n} ensures Written(tree, cache, now2, cache2, removed, replacement, m) {
        assert m == n || Written(tree, cache, now, nowCache, removed, replacement, m);
      }
    }
  }

  lemma CoversWrite(touched: set<NodeId>, a: Doc, b: Doc, n: NodeId, node: Node)
    requires Covers(touched, a, b)
    ensures Covers(touched + {n}, a, b[n := node])
  {
    forall m | Differs(a, b[n := node], m) ensures m in touched + {n} {
      if m != n { assert Differs(a, b, m); }
    }
  }

  /** The cache still describes the tree unless the one list that is behind was written back. */
  method ScrubSurvivors(loro: LoroDocument, removed: set<NodeId>, replacement: Option<NodeId>, ghost last: NodeId)
    requires OneListBehind(loro.tree, loro.cache, loro.statePatch, last)
    modifies loro
    ensures loro.tree == AllScrubbed(old(loro.tree), removed, replacement)
    ensures old(loro.touched) <= loro.touched && Covers(loro.touched, old(loro.tree), loro.tree)
    ensures Covers(loro.touched, old(loro.Seen()), loro.Seen())
    ensures loro.Valid() <==> Unscrubbed(old(loro.tree), old(loro.statePatch), removed, replacement)
    ensures BehindAt(old(loro.tree), loro.tree, loro.Seen(), old(loro.statePatch), removed, replacement, last)
  {
    hide Scrubbed, Halfway, Shown;
    ghost var tree, cache, behind := loro.tree, loro.cache, loro.statePatch;
    ghost var seen := loro.Seen();
    var pending := loro.cache.Keys;
    ScrubStarts(tree, cache, behind, removed, replacement, last);
    while pending != {}
      invariant pending <= tree.Keys && loro.tree.Keys == tree.Keys == loro.cache.Keys
      invariant forall n :: n in pending ==> loro.cache[n] == cache[n]
      invariant Halfway(tree, cache, behind, loro.tree, loro.cache, loro.statePatch, pending, removed, replacement)
      invariant old(loro.touched) <= loro.touched && Covers(loro.touched, tree, loro.tree)
      invariant Covers(loro.touched, seen, loro.Seen())
      decreases pending
    {
      var n :| n in pending;
      var next := Scrubbed(loro.cache[n], removed, replacement);
      ScrubsOne(tree, cache, behind, loro.tree, loro.cache, loro.statePatch, pending, removed, replacement, n);
      pending := pending - {n};
      if next != loro.cache[n] && n in loro.tree {
        CoversWrite(loro.touched, tree, loro.tree, n, next.(parent := loro.tree[n].parent, children := loro.tree[n].children));
        CoversWrite(loro.touched, seen, loro.Seen(), n, next);
        loro.WriteNode(n, next);
      }
    }
    ScrubEnds(tree, cache, behind, last, loro.tree, loro.cache, loro.statePatch, removed, replacement);
    ScrubSeen(tree, behind, last, loro.tree, loro.cache, loro.statePatch, removed, replacement);
  }

  /** The scrub leaves these nodes as they are. */
  ghost predicate Unscrubbed(doc: Doc, nodes: set<NodeId>, removed: set<NodeId>, replacement: Option<NodeId>) {
    forall p :: p in nodes && p in doc ==> Scrubbed(doc[p], removed, replacement) == doc[p]
  }

  /** Only the list of children is not up to date: the node that is gone is still in it. */
  predicate KeepsChild(after: Doc, seen: Doc, p: NodeId, n: NodeId) {
    p in after && p in seen && seen[p] == after[p].(children := seen[p].children) && n in seen[p].children
  }

  /** A parent that was rewritten is shown with the child that is gone, and all else as it is. */
  ghost predicate BehindAt(tree: Doc, after: Doc, seen: Doc, behind: set<NodeId>, removed: set<NodeId>,
                           replacement: Option<NodeId>, last: NodeId)
  {
    && (forall p :: p in behind && p in tree && Scrubbed(tree[p], removed, replacement) != tree[p] ==>
          KeepsChild(after, seen, p, last))
    && (forall n :: n !in behind ==> Lookup(seen, n) == Lookup(after, n))
  }

  lemma ScrubSeen(tree: Doc, behind: set<NodeId>, last: NodeId, after: Doc, cached: Doc, patch: set<NodeId>,
                  removed: set<NodeId>, replacement: Option<NodeId>)
    requires forall p :: p in behind && p in tree && Scrubbed(tree[p], removed, replacement) != tree[p] ==>
      p !in patch && KeepsChild(after, cached, p, last)
    requires forall n {:trigger Differs(after, cached, n)} :: n !in behind ==> !Differs(after, cached, n)
    ensures BehindAt(tree, after, Shown(after, cached, patch), behind, removed, replacement, last)
  {
    hide Scrubbed;
    forall n ensures Lookup(Shown(after, cached, patch), n) == Lookup(if n in patch then after else cached, n) {
      ShownAt(after, cached, patch, n);
    }
    forall n | n !in behind ensures Lookup(Shown(after, cached, patch), n) == Lookup(after, n) {
      assert !Differs(after, cached, n);
    }
  }

  lemma ScrubStarts(tree: Doc, cache: Doc, behind: set<NodeId>, removed: set<NodeId>, replacement: Option<NodeId>, last: NodeId)
    requires OneListBehind(tree, cache, behind, last)
    ensures Halfway(tree, cache, behind, tree, cache, behind, cache.Keys, removed, replacement)
  {
  }

  lemma ScrubEnds(tree: Doc, cache: Doc, behind: set<NodeId>, last: NodeId, after: Doc, cached: Doc, patch: set<NodeId>,
                  removed: set<NodeId>, replacement: Option<NodeId>)
    requires OneListBehind(tree, cache, behind, last)
    requires Halfway(tree, cache, behind, after, cached, patch, {}, removed, replacement)
    ensures after == AllScrubbed(tree, removed, replacement)
    ensures Agreeing(after, cached, patch) <==> Unscrubbed(tree, behind, removed, replacement)
    ensures forall p :: p in behind && p in tree && Scrubbed(tree[p], removed, replacement) != tree[p] ==>
      p !in patch && KeepsChild(after, cached, p, last)
    ensures forall n {:trigger Differs(after, cached, n)} :: n !in behind ==> !Differs(after, cached, n)
  {
    forall n | n in tree { ScrubEndsAt(tree, cache, behind, last, after, cached, patch, removed, replacement, n); }
    hide Scrubbed, Written, Unwritten, OneListBehind;
    forall n ensures Differs(after, cached, n) <==> n in behind {}
    BehindOnly(tree, behind, after, cached, patch, removed, replacement);
  }

  lemma BehindOnly(tree: Doc, behind: set<NodeId>, after: Doc, cached: Doc, patch: set<NodeId>,
                   removed: set<NodeId>, replacement: Option<NodeId>)
    requires forall n :: Differs(after, cached, n) <==> n in behind
    requires patch <= behind <= tree.Keys
    requires forall n :: n in behind ==> (n in patch <==> Scrubbed(tree[n], removed, replacement) == tree[n])
    ensures Agreeing(after, cached, patch) <==> Unscrubbed(tree, behind, removed, replacement)
  {
    hide Scrubbed, Differs;
  }

  lemma ScrubEndsAt(tree: Doc, cache: Doc, behind: set<NodeId>, last: NodeId, after: Doc, cached: Doc, patch: set<NodeId>,
                    removed: set<NodeId>, replacement: Option<NodeId>, n: NodeId)
    requires OneListBehind(tree, cache, behind, last) && n in tree
    requires Halfway(tree, cache, behind, after, cached, patch, {}, removed, replacement)
    ensures n in after && n in cached && after[n] == Scrubbed(tree[n], removed, replacement)
    ensures after[n] != cached[n] <==> n in behind
    ensures n in behind ==> KeepsChild(after, cached, n, last)
  {
    assert Written(tree, cache, after, cached, removed, replacement, n);
    ScrubKeepsPlace(tree[n], cache[n], removed, replacement);
    hide Scrubbed;
  }

  // ----- The command -----

  /** What is left once a cascade is gone and the survivors are scrubbed. */
  function Remaining(doc: Doc, removed: set<NodeId>, replacement: Option<NodeId>): Doc {
    AllScrubbed(Pruned(doc, removed), removed, replacement)
  }

  /** A replacement template counts only if it is there and stays. */
  function Usable(doc: Doc, removed: set<NodeId>, replacement: Option<NodeId>): Option<NodeId> {
    if replacement.Some? && replacement.value in doc && replacement.value !in removed then replacement else None
  }

  ghost predicate CacheKept(doc: Doc, removed: set<NodeId>, replacement: Option<NodeId>, last: NodeId) {
    forall p :: p in Parents(doc, last) && p in doc ==> Scrubbed(doc[p], removed, replacement) == doc[p]
  }

  /** The parent of a node that is gone still has it among its children. */
  predicate ParentsShow(doc: Doc, after: Doc, seen: Doc, n: NodeId) {
    forall p :: p in Parents(doc, n) ==> KeepsChild(after, seen, p, n)
  }

  /**
   * `removeSubtreeDirect`. The document loses exactly the cascade. The cache of the document, though, stays right only
   * if the parent of the root deleted last is not itself rewritten by the scrub.
   */
  method RemoveSubtree(loro: LoroDocument, nodeId: NodeId, replacement: Option<NodeId>)
    returns (r: Result<NodeId>, ghost removed: set<NodeId>, ghost last: NodeId)
    requires loro.Valid() && Forest(loro.tree)
    modifies loro
    ensures r.Ok? <==> !IsSystemId(nodeId) && nodeId in old(loro.tree)
    ensures r.Err? ==> loro.tree == old(loro.tree) && loro.Valid() && loro.touched == old(loro.touched)
    ensures r.Ok? ==> IsCascade(old(loro.tree), nodeId, removed) && last in Roots(old(loro.tree), removed)
    ensures r.Ok? ==> loro.tree == Remaining(old(loro.tree), removed, Usable(old(loro.tree), removed, replacement))
    ensures old(loro.touched) <= loro.touched && Covers(loro.touched, old(loro.tree), loro.tree)
    ensures Covers(loro.touched, old(loro.tree), loro.Seen())
    ensures r.Ok? ==>
      (loro.Valid() <==> CacheKept(old(loro.tree), removed, Usable(old(loro.tree), removed, replacement), last))
    ensures r.Ok? && !loro.Valid() ==> ParentsShow(old(loro.tree), loro.tree, loro.Seen(), last) && last !in loro.tree
    ensures r.Ok? ==> forall n :: n !in Parents(old(loro.tree), last) ==> Lookup(loro.Seen(), n) == Lookup(loro.tree, n)
  {
    hide *;
    removed, last := {}, nodeId;
    ghost var doc := loro.tree;
    UnchangedCovered(loro);
    loro.Reconcile();
    if IsSystemId(nodeId) { r := Err(Locked(nodeId)); return; }
    if nodeId !in loro.cache { r := Err(NotFound(nodeId)); return; }
    var cascade := CollectCascade(loro.cache, nodeId);
    removed := cascade;
    CascadeRoots(doc, removed, nodeId);
    last := RemoveCascade(loro, cascade, replacement);
    r := Ok(nodeId);
  }

  method RemoveCascade(loro: LoroDocument, removed: set<NodeId>, replacement: Option<NodeId>) returns (ghost last: NodeId)
    requires loro.Valid() && Forest(loro.tree) && removed <= loro.tree.Keys && HoldsAllChildren(loro.tree, removed)
    requires Roots(loro.tree, removed) != {}
    modifies loro
    ensures last in Roots(old(loro.tree), removed)
    ensures loro.tree == Remaining(old(loro.tree), removed, Usable(old(loro.tree), removed, replacement))
    ensures old(loro.touched) <= loro.touched && Covers(loro.touched, old(loro.tree), loro.tree)
    ensures Covers(loro.touched, old(loro.tree), loro.Seen())
    ensures loro.Valid() <==> CacheKept(old(loro.tree), removed, Usable(old(loro.tree), removed, replacement), last)
    ensures !loro.Valid() ==> ParentsShow(old(loro.tree), loro.tree, loro.Seen(), last) && last !in loro.tree
    ensures forall n :: n !in Parents(old(loro.tree), last) ==> Lookup(loro.Seen(), n) == Lookup(loro.tree, n)
  {
    hide *;
    ghost var doc := loro.tree;
    last := DeleteRoots(loro, removed);
    ghost var pruned, touched, behind := loro.tree, loro.touched, loro.statePatch;
    loro.SeenIsTree();
    UsableAfter(doc, pruned, loro.cache, behind, last, removed, replacement);
    var usable := Usable(loro.cache, removed, replacement);
    ScrubSurvivors(loro, removed, usable, last);
    CoversMore(touched, loro.touched, doc, pruned);
    CoversBoth(loro.touched, doc, pruned, loro.tree);
    CoversBoth(loro.touched, doc, pruned, loro.Seen());
    SameParentData(doc, removed, usable, last);
    ShowsTheLast(doc, loro.tree, loro.Seen(), removed, usable, last);
  }

  lemma UsableAfter(doc: Doc, pruned: Doc, cache: Doc, behind: set<NodeId>, last: NodeId, removed: set<NodeId>,
                    replacement: Option<NodeId>)
    requires pruned == Pruned(doc, removed) && OneListBehind(pruned, cache, behind, last)
    ensures Usable(cache, removed, replacement) == Usable(doc, removed, replacement)
  {
  }

  lemma ShowsTheLast(doc: Doc, after: Doc, seen: Doc, removed: set<NodeId>, replacement: Option<NodeId>, last: NodeId)
    requires Forest(doc) && last in Roots(doc, removed)
    requires BehindAt(Pruned(doc, removed), after, seen, Parents(doc, last), removed, replacement, last)
    requires after == AllScrubbed(Pruned(doc, removed), removed, replacement)
    ensures after == Remaining(doc, removed, replacement) && last !in after
    ensures !CacheKept(doc, removed, replacement, last) ==> ParentsShow(doc, after, seen, last)
    ensures forall n :: n !in Parents(doc, last) ==> Lookup(seen, n) == Lookup(after, n)
  {
    hide Forest, Linked, Without, Scrubbed, IsRemovalRoot;
    SameParentData(doc, removed, replacement, last);
  }

  lemma UnchangedCovered(loro: LoroDocument)
    requires loro.Valid()
    ensures loro.Seen() == loro.tree && Covers(loro.touched, loro.tree, loro.tree)
  {
    loro.SeenIsTree();
  }

  lemma CascadeRoots(doc: Doc, removed: set<NodeId>, n: NodeId)
    requires Forest(doc) && IsCascade(doc, n, removed)
    ensures removed <= doc.Keys && Roots(doc, removed) != {} && HoldsAllChildren(doc, removed)
  {
    var rank :| Ranked(doc, rank);
    CascadeHasRoot(doc, rank, removed, n);
  }

  lemma {:induction false} CascadeHasRoot(doc: Doc, rank: map<NodeId, nat>, removed: set<NodeId>, n: NodeId)
    requires Linked(doc) && Ranked(doc, rank) && n in removed && removed <= doc.Keys && HoldsChildren(doc, removed)
    ensures Roots(doc, removed) != {} && HoldsAllChildren(doc, removed)
    decreases rank[n]
  {
    assert BelowParent(doc, rank, n) && ListedByParent(doc, n);
    if IsRemovalRoot(doc, removed, n) {
      assert n in Roots(doc, removed);
    } else {
      CascadeHasRoot(doc, rank, removed, doc[n].parent.value);
    }
  }

  lemma SameParentData(doc: Doc, removed: set<NodeId>, replacement: Option<NodeId>, last: NodeId)
    requires Forest(doc) && last in Roots(doc, removed)
    ensures CacheKept(doc, removed, replacement, last) <==> Unscrubbed(Pruned(doc, removed), Parents(doc, last), removed, replacement)
    ensures Parents(doc, last) <= Pruned(doc, removed).Keys
  {
    assert ListedByParent(doc, last);
    forall p | p in Parents(doc, last) {
      ScrubKeepsPlace(Pruned(doc, removed)[p], doc[p], removed, replacement);
    }
  }

  // ----- What the survivors look like -----

  lemma {:induction false} InWithoutRefs(refs: seq<Option<NodeId>>, gone: set<NodeId>)
    ensures forall x :: x in WithoutRefs(refs, gone) <==> x in refs && !NamesGone(x, gone)
  {
    if refs != [] {
      InWithoutRefs(refs[1..], gone);
      assert forall x :: x in refs <==> x == refs[0] || x in refs[1..];
    }
  }

  ghost predicate NamesNothingGone(node: Node, gone: set<NodeId>) {
    && (forall t :: t in node.tags ==> t !in gone)
    && (node.kind.Reference? ==> !NamesGone(node.target, gone))
    && (node.kind.Search? || node.kind.QueryCondition? ==> !NamesGone(node.queryTarget, gone))
    && !NamesGone(node.template, gone)
    && (forall ref :: ref in node.inlineRefs ==> !NamesGone(ref, gone))
    && (forall c :: c in node.children ==> c !in gone)
    && !NamesGone(node.parent, gone)
  }

  /** No survivor names anything that is gone, and what is left is a forest again. */
  lemma NothingDangles(doc: Doc, root: NodeId, removed: set<NodeId>, replacement: Option<NodeId>)
    requires Forest(doc) && IsCascade(doc, root, removed)
    ensures var after := Remaining(doc, removed, Usable(doc, removed, replacement));
      && after.Keys == doc.Keys - removed && Forest(after)
      && forall n :: n in after ==> NamesNothingGone(after[n], removed)
  {
    var usable := Usable(doc, removed, replacement);
    CascadeIsClosed(doc, root, removed);
    RemainingForest(doc, removed, usable);
    hide IsCascade, Forest;
    forall n | n in doc && n !in removed ensures NamesNothingGone(Remaining(doc, removed, usable)[n], removed) {
      SurvivorNamesNothingGone(doc, removed, usable, n);
    }
  }

  /**
   * What a survivor keeps and loses: its place, kind, text and lock stay; a template that is gone is replaced, a search
   * whose target is gone has none; tags and mentions that are gone are left out; all else it names stays named.
   */
  ghost predicate Survives(node: Node, after: Node, gone: set<NodeId>, replacement: Option<NodeId>) {
    && after.kind == node.kind && after.parent == node.parent && after.text == node.text
    && after.configKey == node.configKey && after.locked == node.locked
    && after.children == Without(node.children, gone) && after.tags == Without(node.tags, gone)
    && (forall ref :: ref in after.inlineRefs <==> ref in node.inlineRefs && !(ref.Some? && ref.value in gone))
    && after.template == (if node.template.Some? && node.template.value in gone then replacement else node.template)
    && (node.queryTarget.None? || node.queryTarget.value !in gone ==> after.queryTarget == node.queryTarget)
    && (node.kind.Search? || node.kind.QueryCondition? ==>
          after.queryTarget == if node.queryTarget.Some? && node.queryTarget.value in gone then None else node.queryTarget)
    && after.target == node.target
  }

  lemma SurvivorKeeps(doc: Doc, root: NodeId, removed: set<NodeId>, replacement: Option<NodeId>, n: NodeId)
    requires IsCascade(doc, root, removed) && n in doc && n !in removed
    ensures var usable := if replacement.Some? && replacement.value in doc && replacement.value !in removed then replacement else None;
      var after := Remaining(doc, removed, Usable(doc, removed, replacement));
      n in after && Survives(doc[n], after[n], removed, usable)
  {
    InWithoutRefs(doc[n].inlineRefs, removed);
    assert !PointsInto(doc, n, removed);
  }

  lemma CascadeIsClosed(doc: Doc, root: NodeId, removed: set<NodeId>)
    requires Linked(doc) && IsCascade(doc, root, removed)
    ensures HoldsAllChildren(doc, removed) && HoldsReferences(doc, removed)
  {
  }

  lemma RemainingForest(doc: Doc, removed: set<NodeId>, replacement: Option<NodeId>)
    requires Forest(doc) && HoldsAllChildren(doc, removed)
    ensures Forest(Remaining(doc, removed, replacement))
  {
    PrunedForest(doc, removed);
    var rank :| Ranked(doc, rank);
    assert Ranked(Pruned(doc, removed), rank - removed);
    ScrubbedForest(Pruned(doc, removed), removed, replacement);
  }

  lemma SurvivorNamesNothingGone(doc: Doc, removed: set<NodeId>, replacement: Option<NodeId>, n: NodeId)
    requires Forest(doc) && HoldsAllChildren(doc, removed) && n in doc && n !in removed && !NamesGone(replacement, removed)
    ensures NamesNothingGone(Remaining(doc, removed, replacement)[n], removed)
  {
    InWithout(doc[n].children, removed);
    InWithout(doc[n].tags, removed);
    InWithoutRefs(doc[n].inlineRefs, removed);
    assert ListedByParent(doc, n);
  }

  lemma ScrubbedForest(doc: Doc, gone: set<NodeId>, replacement: Option<NodeId>)
    requires Forest(doc)
    ensures Forest(AllScrubbed(doc, gone, replacement))
  {
    hide Forest;
    SamePlacesForest(doc, AllScrubbed(doc, gone, replacement));
  }

  /** A reference that survives keeps its target: all that pointed into the cascade went with it. */
  lemma ReferencesKeepTargets(doc: Doc, root: NodeId, removed: set<NodeId>, replacement: Option<NodeId>, n: NodeId)
    requires IsCascade(doc, root, removed) && n in doc && n !in removed && doc[n].kind.Reference?
    ensures !NamesGone(doc[n].target, removed)
    ensures Remaining(doc, removed, replacement)[n].target == doc[n].target
  {
    assert !PointsInto(doc, n, removed);
  }

  /** A survivor that named nothing gone is left exactly as it was. */
  lemma OthersUntouched(doc: Doc, removed: set<NodeId>, replacement: Option<NodeId>, n: NodeId)
    requires n in doc && n !in removed && NamesNothingGone(doc[n], removed)
    ensures Remaining(doc, removed, replacement)[n] == doc[n]
  {
    WithoutNone(doc[n].children, removed);
    WithoutNone(doc[n].tags, removed);
    RefsWithoutNone(doc[n].inlineRefs, removed);
  }

  lemma {:induction false} RefsWithoutNone(refs: seq<Option<NodeId>>, gone: set<NodeId>)
    requires forall x :: x in refs ==> !NamesGone(x, gone)
    ensures WithoutRefs(refs, gone) == refs
  {
    if refs != [] {
      assert refs[0] in refs && forall x :: x in refs[1..] ==> x in refs;
      RefsWithoutNone(refs[1..], gone);
    }
  }

  /** The guard a caller can check: a parent that names nothing gone apart from its child leaves the cache right. */
  lemma QuietParentKeepsCache(doc: Doc, removed: set<NodeId>, replacement: Option<NodeId>, last: NodeId)
    requires forall p :: p in Parents(doc, last) && p in doc ==> NamesNothingGone(doc[p].(children := []), removed)
    ensures CacheKept(doc, removed, replacement, last)
  {
    forall p | p in Parents(doc, last) && p in doc ensures Scrubbed(doc[p], removed, replacement) == doc[p] {
      WithoutNone(doc[p].tags, removed);
      RefsWithoutNone(doc[p].inlineRefs, removed);
    }
  }

  /** A parent whose text mentions the removed child keeps it in its cached list of children. */
  lemma MentionedChildStaysInCache(doc: Doc, removed: set<NodeId>, replacement: Option<NodeId>, last: NodeId, p: NodeId)
    requires last in doc && doc[last].parent == Some(p) && p in doc && last in removed && Some(last) in doc[p].inlineRefs
    ensures !CacheKept(doc, removed, replacement, last)
  {
    InWithoutRefs(doc[p].inlineRefs, removed);
    assert Scrubbed(doc[p], removed, replacement).inlineRefs != doc[p].inlineRefs;
  }

  /** The smallest such document: node 20 has the child 21 and mentions it. */
  lemma StaleCacheExample()
    ensures var parent := Node(Plain, None, [21], "", [], None, None, None, [Some(21)], 0, false);
      var doc := map[20 := parent, 21 := BlankNode(Plain, 20)];
      && Forest(doc) && IsCascade(doc, 21, {21}) && Roots(doc, {21}) == {21} && !CacheKept(doc, {21}, None, 21)
  {
    hide Scrubbed;
    var parent := Node(Plain, None, [21], "", [], None, None, None, [Some(21)], 0, false);
    var doc: Doc := map[20 := parent, 21 := BlankNode(Plain, 20)];
    assert Ranked(doc, map[20 := 0, 21 := 1]);
    assert ListedByParent(doc, 21);
    MentionedChildStaysInCache(doc, {21}, None, 21, 20);
  }
}