/** The document under the outline: a tree of nodes, a cache of it, and the ids written since the last drain. */
module LoroDocument {
  import opened Collections
  import opened Outline

  // ----- Lists without some of their members -----

  function Without(s: seq<NodeId>, gone: set<NodeId>): seq<NodeId> {
    if s == [] then [] else Kept(s[0], gone) + Without(s[1..], gone)
  }

  function Kept(x: NodeId, gone: set<NodeId>): seq<NodeId> {
    if x in gone then [] else [x]
  }

  lemma {:induction false} InWithout(s: seq<NodeId>, gone: set<NodeId>)
    ensures forall x :: x in Without(s, gone) <==> x in s && x !in gone
  {
    if s != [] {
      InWithout(s[1..], gone);
      assert forall x :: x in s <==> x == s[0] || x in s[1..];
    }
  }

  lemma {:induction false} WithoutDistinct(s: seq<NodeId>, gone: set<NodeId>)
    requires Distinct(s)
    ensures Distinct(Without(s, gone))
  {
    if s != [] {
      WithoutDistinct(s[1..], gone);
      InWithout(s[1..], gone);
      assert s[0] !in s[1..];
    }
  }

  lemma {:induction false} WithoutTwice(s: seq<NodeId>, a: set<NodeId>, b: set<NodeId>)
    ensures Without(Without(s, a), b) == Without(s, a + b)
  {
    if s != [] {
      WithoutTwice(s[1..], a, b);
      var rest := Without(s[1..], a);
      if s[0] !in a {
        assert Without(s, a) == [s[0]] + rest && ([s[0]] + rest)[1..] == rest;
      } else {
        assert Without(s, a) == rest && Without(s, a + b) == Without(s[1..], a + b);
      }
    }
  }

  /** Only the common part of two sets matters. */
  lemma {:induction false} WithoutSame(s: seq<NodeId>, a: set<NodeId>, b: set<NodeId>)
    requires forall x :: x in s ==> (x in a <==> x in b)
    ensures Without(s, a) == Without(s, b)
  {
    if s != [] {
      assert s[0] in s && forall x :: x in s[1..] ==> x in s;
      WithoutSame(s[1..], a, b);
    }
  }

  lemma {:induction false} WithoutNone(s: seq<NodeId>, gone: set<NodeId>)
    requires forall x :: x in s ==> x !in gone
    ensures Without(s, gone) == s
  {
    if s != [] {
      assert s[0] in s && forall x :: x in s[1..] ==> x in s;
      WithoutNone(s[1..], gone);
    }
  }

  // ----- Subtrees -----

  /** `s` is the subtree of `r`: it holds `r` and all children, and every other member hangs under a member. */
  ghost predicate IsSubtree(doc: Doc, r: NodeId, s: set<NodeId>) {
    && r in s && s <= doc.Keys
    && (forall n, c {:trigger c in doc[n].children} :: n in s && c in doc[n].children ==> c in s)
    && (forall n {:trigger HangsIn(doc, s, n)} :: n in s && n != r ==> HangsIn(doc, s, n))
  }

  predicate HangsIn(doc: Doc, s: set<NodeId>, n: NodeId)
    requires n in doc
  {
    doc[n].parent.Some? && doc[n].parent.value in s
  }

  /** A set that holds the root and all children of its members holds the whole subtree. */
  lemma {:induction false} SubtreeIsLeast(doc: Doc, rank: map<NodeId, nat>, r: NodeId, s: set<NodeId>, t: set<NodeId>, n: NodeId)
    requires Linked(doc) && Ranked(doc, rank) && IsSubtree(doc, r, s) && n in s && r in t
    requires forall m, c {:trigger c in doc[m].children} :: m in t && m in doc && c in doc[m].children ==> c in t
    ensures n in t
    decreases rank[n]
  {
    if n != r {
      assert HangsIn(doc, s, n) && BelowParent(doc, rank, n) && ListedByParent(doc, n);
      SubtreeIsLeast(doc, rank, r, s, t, doc[n].parent.value);
    }
  }

  /** The nodes that remain, with the gone ones dropped from every list of children. */
  function Pruned(doc: Doc, gone: set<NodeId>): Doc {
    map n | n in doc && n !in gone :: doc[n].(children := Without(doc[n].children, gone))
  }

  lemma PrunedForest(doc: Doc, gone: set<NodeId>)
    requires Linked(doc) && HoldsAllChildren(doc, gone)
    ensures Linked(Pruned(doc, gone))
    ensures forall rank :: Ranked(doc, rank) ==> Ranked(Pruned(doc, gone), rank - gone)
  {
    var after := Pruned(doc, gone);
    forall n | n in after ensures Distinct(after[n].children) { WithoutDistinct(doc[n].children, gone); }
    forall n, c | n in after && c in after[n].children ensures c in after && after[c].parent == Some(n) {
      InWithout(doc[n].children, gone);
    }
    forall n | n in after ensures ListedByParent(after, n) {
      assert ListedByParent(doc, n);
      if doc[n].parent.Some? { InWithout(doc[doc[n].parent.value].children, gone); }
    }
    forall rank | Ranked(doc, rank) ensures Ranked(after, rank - gone) {
      forall n | n in after ensures BelowParent(after, rank - gone, n) { assert BelowParent(doc, rank, n); }
    }
  }

  ghost predicate HoldsAllChildren(doc: Doc, s: set<NodeId>) {
    forall n, c {:trigger c in doc[n].children} :: n in s && n in doc && c in doc[n].children ==> c in s
  }

  lemma PrunedNothing(doc: Doc)
    ensures Pruned(doc, {}) == doc
  {
    forall n | n in doc ensures Without(doc[n].children, {}) == doc[n].children { WithoutNone(doc[n].children, {}); }
  }

  lemma PrunedTwice(doc: Doc, a: set<NodeId>, b: set<NodeId>)
    ensures Pruned(Pruned(doc, a), b) == Pruned(doc, a + b)
  {
    forall n | n in doc ensures Without(Without(doc[n].children, a), b) == Without(doc[n].children, a + b) {
      WithoutTwice(doc[n].children, a, b);
    }
  }

  // ----- The document -----

  /** Removing a tree node drops its subtree and takes it from its parent's list. */
  function Deleted(doc: Doc, r: NodeId, s: set<NodeId>): Doc {
    map n | n in doc && n !in s ::
      if r in doc && doc[r].parent == Some(n) then doc[n].(children := Without(doc[n].children, {r})) else doc[n]
  }

  lemma DeletedIsPruned(doc: Doc, r: NodeId, s: set<NodeId>)
    requires Linked(doc) && IsSubtree(doc, r, s)
    ensures Deleted(doc, r, s) == Pruned(doc, s)
  {
    forall n | n in doc && n !in s ensures Deleted(doc, r, s)[n] == Pruned(doc, s)[n] {
      forall c | c in doc[n].children && c in s ensures c == r {
        assert c == r || HangsIn(doc, s, c);
      }
      if doc[r].parent == Some(n) {
        WithoutSame(doc[n].children, {r}, s);
      } else {
        WithoutNone(doc[n].children, s);
      }
    }
  }

  /** The ids whose node differs between two documents. */
  predicate Differs(a: Doc, b: Doc, n: NodeId) {
    (n in a) != (n in b) || (n in a && n in b && a[n] != b[n])
  }

  ghost predicate Covers(touched: set<NodeId>, a: Doc, b: Doc) {
    forall n {:trigger Differs(a, b, n)} :: Differs(a, b, n) ==> n in touched
  }

  lemma CoversSame(touched: set<NodeId>, doc: Doc)
    ensures Covers(touched, doc, doc)
  {
  }

  lemma CoversMore(touched: set<NodeId>, more: set<NodeId>, a: Doc, b: Doc)
    requires Covers(touched, a, b) && touched <= more
    ensures Covers(more, a, b)
  {
  }

  lemma CoversBoth(touched: set<NodeId>, a: Doc, b: Doc, c: Doc)
    requires Covers(touched, a, b) && Covers(touched, b, c)
    ensures Covers(touched, a, c)
  {
    forall n | Differs(a, c, n) ensures n in touched { assert Differs(a, b, n) || Differs(b, c, n); }
  }

  // ----- Moving a node -----

  /** Taken out of the old list first, then put into the new one. */
  function Moved(doc: Doc, id: NodeId, p: NodeId, index: Option<int>): Doc
    requires id in doc && p in doc && id != p
  {
    var at := InsertionIndex(index, |doc[p].children|);
    var list := Without(doc[p].children, {id});
    map n | n in doc ::
      if n == id then doc[id].(parent := Some(p))
      else if n == p then doc[p].(children := Inserted(list, Least(at, |list|), id))
      else doc[n].(children := Without(doc[n].children, {id}))
  }

  function Least(a: nat, b: nat): nat {
    if a < b then a else b
  }

  /** What a move does, apart from the order of the new list. */
  ghost predicate IsMoved(doc: Doc, after: Doc, id: NodeId, p: NodeId)
    requires id in doc && p in doc
  {
    && after.Keys == doc.Keys
    && (forall n :: n in doc ==> after[n].parent == if n == id then Some(p) else doc[n].parent)
    && (forall n, c {:trigger c in after[n].children} {:trigger c in doc[n].children} :: n in doc ==>
         (c in after[n].children <==> (c in doc[n].children && c != id) || (n == p && c == id)))
    && (forall n :: n in doc ==> Distinct(after[n].children))
  }

  lemma MovedShape(doc: Doc, id: NodeId, p: NodeId, index: Option<int>)
    requires Linked(doc) && id in doc && p in doc && id != p && id !in doc[id].children
    ensures IsMoved(doc, Moved(doc, id, p, index), id, p)
  {
    hide Inserted, Without, Distinct, InsertionIndex, Least;
    assert forall n :: n in doc ==> Distinct(doc[n].children);
    var after := Moved(doc, id, p, index);
    PutBack(doc[p].children, id, InsertionIndex(index, |doc[p].children|));
    forall n | n in doc && n != p
      ensures Distinct(after[n].children)
      ensures forall c :: c in after[n].children <==> c in doc[n].children && c != id
    {
      WithoutDistinct(doc[n].children, {id});
      InWithout(doc[n].children, {id});
    }
    hide Linked, Moved;
  }

  lemma {:induction false} WithoutIsShorter(s: seq<NodeId>, gone: set<NodeId>)
    ensures |Without(s, gone)| <= |s|
  {
    if s != [] { WithoutIsShorter(s[1..], gone); }
  }

  lemma MovedStands(doc: Doc, id: NodeId, p: NodeId, index: Option<int>)
    requires id in doc && p in doc && id != p
    ensures var after := Moved(doc, id, p, index);
      && id in after && after[id].parent == Some(p) && p in after
      && StandsAt(after[p].children, Without(doc[p].children, {id}), id, index)
  {
    var list := Without(doc[p].children, {id});
    WithoutIsShorter(doc[p].children, {id});
    hide Without, StandsAt;
    InsertedStands(list, id, index, InsertionIndex(index, |list|));
  }

  lemma PutBack(s: seq<NodeId>, id: NodeId, at: nat)
    requires Distinct(s)
    ensures var list := Inserted(Without(s, {id}), Least(at, |Without(s, {id})|), id);
      Distinct(list) && forall c :: c in list <==> c in s || c == id
  {
    InWithout(s, {id});
    WithoutDistinct(s, {id});
    hide Without;
    InsertedDistinct(Without(s, {id}), Least(at, |Without(s, {id})|), id);
  }

  lemma MovedLinked(doc: Doc, after: Doc, id: NodeId, p: NodeId)
    requires Linked(doc) && id in doc && p in doc && id != p && IsMoved(doc, after, id, p)
    ensures Linked(after)
  {
    forall n, c | n in after && c in after[n].children ensures c in after && after[c].parent == Some(n) {
      if c != id || n != p { assert c in doc[n].children; }
    }
    forall n | n in after ensures ListedByParent(after, n) { assert ListedByParent(doc, n); }
  }

  /** Ranks after a move: the moved subtree is lifted above its new parent. */
  ghost function Lifted(doc: Doc, rank: map<NodeId, nat>, id: NodeId, p: NodeId): map<NodeId, nat>
    requires Linked(doc) && Ranked(doc, rank) && p in doc
  {
    map n | n in doc :: rank[n] + if n == id || Above(doc, rank, id, n) then rank[p] + 1 else 0
  }

  lemma MovedRanked(doc: Doc, rank: map<NodeId, nat>, after: Doc, id: NodeId, p: NodeId)
    requires Linked(doc) && Ranked(doc, rank) && id in doc && p in doc && id != p && !Above(doc, rank, id, p)
    requires IsMoved(doc, after, id, p)
    ensures Ranked(after, Lifted(doc, rank, id, p))
  {
    var lifted := Lifted(doc, rank, id, p);
    forall n | n in after ensures BelowParent(after, lifted, n) {
      assert ListedByParent(doc, n) && BelowParent(doc, rank, n);
    }
  }

  /** `subtreeIds`. */
  method SubtreeIds(doc: Doc, r: NodeId) returns (s: set<NodeId>)
    requires Linked(doc) && r in doc
    ensures IsSubtree(doc, r, s)
  {
    var stack := [r];
    s := {};
    while stack != []
      invariant s <= doc.Keys && (r in s || r in stack) && forall x :: x in stack ==> x in doc
      invariant forall n, c {:trigger c in doc[n].children} :: n in s && c in doc[n].children ==> c in s || c in stack
      invariant forall n {:trigger HangsIn(doc, s, n)} :: n in s && n != r ==> HangsIn(doc, s, n)
      invariant forall x :: x in stack && x != r ==> HangsIn(doc, s, x)
      decreases doc.Keys - s, |stack|
    {
      var id, rest := stack[|stack| - 1], stack[..|stack| - 1];
      assert stack == rest + [id];
      stack := rest;
      if id !in s {
        ghost var before := s;
        s := s + {id};
        stack := rest + doc[id].children;
        forall n | n in s && n != r ensures HangsIn(doc, s, n) { assert HangsIn(doc, before, n); }
        forall x | x in stack && x != r ensures HangsIn(doc, s, x) {
          assert x in doc[id].children || (x in rest + [id] && HangsIn(doc, before, x));
        }
      }
    }
  }

  /** `isDescendant`: climbs from the node to the root. */
  method IsDescendant(doc: Doc, n: NodeId, a: NodeId) returns (below: bool)
    requires Forest(doc)
    ensures n !in doc ==> !below
    ensures forall rank :: Ranked(doc, rank) && n in doc ==> (below <==> Above(doc, rank, a, n))
  {
    ghost var rank :| Ranked(doc, rank);
    below := false;
    if n in doc {
      var current := n;
      while doc[current].parent.Some?
        invariant current in doc
        invariant forall other :: Ranked(doc, other) ==> (Above(doc, other, a, n) <==> Above(doc, other, a, current))
        decreases rank[current]
      {
        assert ListedByParent(doc, current) && BelowParent(doc, rank, current);
        if doc[current].parent.value == a { return true; }
        current := doc[current].parent.value;
      }
    }
  }

  // ----- What a read shows -----

  /** The ids marked for re-reading are shown from the tree, all others from the cache. */
  function Shown(tree: Doc, cache: Doc, marked: set<NodeId>): Doc {
    map n | n in tree.Keys + cache.Keys && n in (if n in marked then tree else cache) ::
      (if n in marked then tree else cache)[n]
  }

  lemma ShownAt(tree: Doc, cache: Doc, marked: set<NodeId>, n: NodeId)
    ensures Lookup(Shown(tree, cache, marked), n) == Lookup(if n in marked then tree else cache, n)
  {
  }

  /** Reads show the tree if and only if the cache agrees with it outside the marked ids. */
  lemma ShownIsTree(tree: Doc, cache: Doc, marked: set<NodeId>)
    ensures Shown(tree, cache, marked) == tree <==> Agreeing(tree, cache, marked)
  {
    var shown := Shown(tree, cache, marked);
    forall n ensures Differs(tree, shown, n) <==> n !in marked && Differs(tree, cache, n) {
      ShownAt(tree, cache, marked, n);
    }
    if Agreeing(tree, cache, marked) { SameMaps(tree, shown); }
  }

  ghost predicate Agreeing(tree: Doc, cache: Doc, marked: set<NodeId>) {
    forall n {:trigger Differs(tree, cache, n)} :: n !in marked ==> !Differs(tree, cache, n)
  }

  /** One node written, or removed. */
  function Assigned(doc: Doc, id: NodeId, node: Option<Node>): Doc {
    match node
    case Some(value) => doc[id := value]
    case None => doc - {id}
  }

  /** A touched id is shown from the tree from now on. */
  lemma ShownTouched(tree: Doc, cache: Doc, marked: set<NodeId>, id: NodeId, node: Option<Node>)
    ensures Shown(Assigned(tree, id, node), cache, marked + {id}) == Assigned(Shown(tree, cache, marked), id, node)
  {
  }

  /** Reading a marked id into the cache shows the same. */
  lemma ShownAgain(tree: Doc, cache: Doc, marked: set<NodeId>, id: NodeId)
    requires id in marked
    ensures Shown(tree, Assigned(cache, id, Lookup(tree, id)), marked - {id}) == Shown(tree, cache, marked)
  {
  }

  /** An id touched together with its record is shown as that record says. */
  lemma ShownRecord(tree: Doc, cache: Doc, marked: set<NodeId>, id: NodeId, node: Option<Node>, record: Option<Node>)
    ensures Shown(Assigned(tree, id, node), Assigned(cache, id, record), marked - {id}) == Assigned(Shown(tree, cache, marked), id, record)
  {
  }

  class LoroDocument {
    var tree: Doc
    var cache: Doc
    var statePatch: set<NodeId>
    var touched: set<NodeId>

    /** Outside the ids marked for re-reading, the cache is the tree. */
    ghost predicate Valid()
      reads this
    {
      Agreeing(tree, cache, statePatch)
    }

    ghost function Seen(): Doc
      reads this
    {
      Shown(tree, cache, statePatch)
    }

    lemma SeenIsTree()
      ensures Valid() <==> Seen() == tree
    {
      ShownIsTree(tree, cache, statePatch);
    }

    constructor (initial: Doc)
      ensures Valid() && tree == initial && touched == {} && statePatch == {} && cache == initial
    {
      tree, cache, statePatch, touched := initial, initial, {}, {};
    }

    /** `reconcileStateCache`: a read brings the cache up to date. */
    method Reconcile()
      modifies this`cache, this`statePatch
      ensures forall n :: n !in old(statePatch) ==> (n in cache <==> n in old(cache))
      ensures forall n :: n !in old(statePatch) && n in cache ==> cache[n] == old(cache)[n]
      ensures statePatch == {}
      ensures cache == Seen() == old(Seen())
      ensures old(Valid()) ==> Valid() && cache == tree
    {
      cache := (map n | n in tree && n in statePatch :: tree[n]) + (map n | n in cache && n !in statePatch :: cache[n]);
      if old(Valid()) {
        forall n ensures !Differs(tree, cache, n) { assert !Differs(tree, old(cache), n) || n in old(statePatch); }
        SameMaps(tree, cache);
      }
      statePatch := {};
    }

    /** `materializeNodes`: the marked ids are read from the tree, and the others are as the cache has them. */
    method MaterializeNodes(ids: set<NodeId>) returns (nodes: map<NodeId, Option<Node>>)
      modifies this`cache, this`statePatch
      ensures nodes.Keys == ids && forall n :: n in ids ==> nodes[n] == Lookup(Seen(), n)
      ensures Seen() == old(Seen()) && statePatch == old(statePatch) - ids
    {
      nodes := map[];
      var pending := ids;
      while pending != {}
        invariant pending <= ids && nodes.Keys == ids - pending
        invariant Seen() == old(Seen()) && statePatch == old(statePatch) - nodes.Keys
        invariant forall n :: n in nodes ==> nodes[n] == Lookup(Seen(), n)
        decreases pending
      {
        var n :| n in pending;
        pending := pending - {n};
        ShownAt(tree, cache, statePatch, n);
        if n !in statePatch {
          nodes := nodes[n := Lookup(cache, n)];
        } else {
          nodes := nodes[n := Lookup(tree, n)];
          ShownAgain(tree, cache, statePatch, n);
          cache, statePatch := Assigned(cache, n, Lookup(tree, n)), statePatch - {n};
        }
      }
    }

    /** A write to the tree followed by `touchNode`. */
    method Touch(id: NodeId, node: Option<Node>)
      modifies this`tree, this`statePatch, this`touched
      ensures tree == Assigned(old(tree), id, node) && Seen() == Assigned(old(Seen()), id, node) && touched == old(touched) + {id}
    {
      ShownTouched(tree, cache, statePatch, id, node);
      tree, statePatch, touched := Assigned(tree, id, node), statePatch + {id}, touched + {id};
    }

    /** A write to the tree followed by `touchNodeWithSnapshot`. */
    method TouchWithSnapshot(id: NodeId, node: Option<Node>, record: Option<Node>)
      modifies this
      ensures tree == Assigned(old(tree), id, node) && Seen() == Assigned(old(Seen()), id, record) && touched == old(touched) + {id}
    {
      ShownRecord(tree, cache, statePatch, id, node, record);
      tree, cache, statePatch, touched := Assigned(tree, id, node), Assigned(cache, id, record), statePatch - {id}, touched + {id};
    }

    method ClearTouched()
      modifies this`touched
      ensures touched == {}
    {
      touched := {};
    }

    /** An undo, a redo, a revert or an import that cannot say what it changed: the next read builds the cache again. */
    method Rewrite(next: Doc)
      modifies this`tree, this`cache, this`statePatch
      ensures tree == next && Valid() && Seen() == tree
    {
      tree, cache, statePatch := next, next, {};
    }

    /** An import that names the nodes it affected. */
    method Imported(next: Doc, affected: set<NodeId>)
      requires Covers(affected, tree, next)
      modifies this`tree, this`statePatch
      ensures tree == next && touched == old(touched) && (old(Valid()) ==> Valid())
      ensures forall n :: Lookup(Seen(), n) == if n in affected then Lookup(next, n) else Lookup(old(Seen()), n)
    {
      ghost var before, cached := tree, Seen();
      forall n ensures Lookup(Shown(next, cache, statePatch + affected), n) ==
          if n in affected then Lookup(next, n) else Lookup(cached, n)
      {
        ShownAt(before, cache, statePatch, n);
        ShownAt(next, cache, statePatch + affected, n);
        assert n !in affected ==> !Differs(before, next, n);
      }
      if old(Valid()) {
        forall n | n !in statePatch + affected ensures !Differs(next, cache, n) {
          assert !Differs(before, next, n) && !Differs(before, cache, n);
        }
      }
      tree, statePatch := next, statePatch + affected;
    }

    /** `deleteNode`. */
    method DeleteNode(r: NodeId) returns (ghost s: set<NodeId>)
      requires Valid() && Linked(tree) && r in tree
      modifies this
      ensures Valid() && IsSubtree(old(tree), r, s)
      ensures tree == Pruned(old(tree), s)
      ensures cache == old(tree) - s && statePatch == Parents(old(tree), r)
      ensures old(touched) <= touched && Covers(touched, old(tree), tree)
    {
      Reconcile();
      var removed := SubtreeIds(cache, r);
      s := removed;
      touched := touched + removed + Parents(tree, r);
      cache := cache - removed;
      statePatch := Parents(tree, r);
      DeletedIsPruned(tree, r, removed);
      tree := Deleted(tree, r, removed);
    }

    /** `writeNode`: the data of a node, never its place; the cache takes the written record as it is. */
    method WriteNode(id: NodeId, node: Node)
      requires id in tree
      modifies this
      ensures tree == old(tree)[id := node.(parent := old(tree)[id].parent, children := old(tree)[id].children)]
      ensures cache == old(cache)[id := node] && statePatch == old(statePatch) - {id} && touched == old(touched) + {id}
      ensures Seen() == old(Seen())[id := node]
      ensures old(Valid()) ==> (Valid() <==> node == tree[id])
    {
      ghost var before, cached := tree, cache;
      ShownRecord(tree, cache, statePatch, id, Some(node.(parent := tree[id].parent, children := tree[id].children)), Some(node));
      tree := tree[id := node.(parent := tree[id].parent, children := tree[id].children)];
      cache, statePatch, touched := cache[id := node], statePatch - {id}, touched + {id};
      assert Differs(tree, cache, id) <==> node != tree[id];
      assert forall n :: n != id ==> (Differs(tree, cache, n) <==> Differs(before, cached, n));
    }

    /** `createNodeWithId`. */
    method CreateNode(id: NodeId, index: Option<int>, node: Node)
      requires Valid() && id !in tree && node.parent.Some? && node.parent.value in tree && node.children == []
      modifies this
      ensures Valid() && tree == Created(old(tree), id, index, node)
      ensures id in tree && tree[id] == node && node.parent.value in tree
      ensures StandsAt(tree[node.parent.value].children, old(tree)[node.parent.value].children, id, index)
      ensures old(touched) <= touched && Covers(touched, old(tree), tree)
    {
      ghost var before, cached := tree, cache;
      InsertedStands(tree[node.parent.value].children, id, index, InsertionIndex(index, |tree[node.parent.value].children|));
      hide InsertionIndex, StandsAt;
      tree := Created(tree, id, index, node);
      cache, statePatch := cache[id := node], statePatch - {id} + {node.parent.value};
      touched := touched + {id, node.parent.value};
      forall n | n !in statePatch ensures !Differs(tree, cache, n) {
        if n != id { assert !Differs(before, cached, n); }
      }
    }

    /** `moveNode`: refused when the node would come to lie under itself. */
    method MoveNode(id: NodeId, p: NodeId, index: Option<int>) returns (r: Result<NodeId>)
      requires Valid() && Forest(tree)
      modifies this
      ensures Valid() && Forest(tree) && old(touched) <= touched && Covers(touched, old(tree), tree)
      ensures r.Err? ==> tree == old(tree)
      ensures r.Err? && id in old(tree) && p in old(tree) ==> r.error == InvalidOperation
      ensures r.Ok? ==> id in tree && tree[id].parent == Some(p) && p in tree && p in old(tree)
      ensures r.Ok? ==> StandsAt(tree[p].children, Without(old(tree)[p].children, {id}), id, index)
      ensures r.Ok? ==> id in old(tree) && p in old(tree) && id != p && tree == Moved(old(tree), id, p, index)
      ensures forall rank :: (Ranked(old(tree), rank) && id in old(tree) && p in old(tree)) ==>
        (r.Ok? <==> id != p && !Above(old(tree), rank, id, p))
    {
      Reconcile();
      ghost var rank :| Ranked(tree, rank);
      var below := IsDescendant(cache, p, id);
      if id == p || below { return Err(InvalidOperation); }
      if id !in cache { return Err(NotFound(id)); }
      if p !in cache { return Err(NotFound(p)); }
      MovedStands(tree, id, p, index);
      hide Moved, Linked, Above, Ranked, Distinct, StandsAt;
      MoveKeeps(tree, id, p, index, rank);
      statePatch := {id, p} + Parents(tree, id);
      touched := touched + statePatch;
      tree := Moved(tree, id, p, index);
      r := Ok(id);
    }
  }

  lemma MoveKeeps(doc: Doc, id: NodeId, p: NodeId, index: Option<int>, rank: map<NodeId, nat>)
    requires Linked(doc) && Ranked(doc, rank) && id in doc && p in doc && id != p && !Above(doc, rank, id, p)
    ensures Forest(Moved(doc, id, p, index))
    ensures forall n :: n !in {id, p} + Parents(doc, id) ==>
      !Differs(doc, Moved(doc, id, p, index), n) && !Differs(Moved(doc, id, p, index), doc, n)
  {
    assert BelowParent(doc, rank, id) && (doc[id].parent == Some(id) || id !in doc[id].children);
    MovedShape(doc, id, p, index);
    var after := Moved(doc, id, p, index);
    MovedLinked(doc, after, id, p);
    MovedRanked(doc, rank, after, id, p);
    forall n | n !in {id, p} + Parents(doc, id) ensures !Differs(doc, after, n) {
      if Differs(doc, after, n) { MovedElsewhere(doc, id, p, index, n); }
    }
    forall n ensures Differs(doc, after, n) <==> Differs(after, doc, n) {}
  }

  /** A move changes the node, its new parent and its old one. */
  lemma MovedElsewhere(doc: Doc, id: NodeId, p: NodeId, index: Option<int>, n: NodeId)
    requires Linked(doc) && id in doc && p in doc && id != p && Differs(doc, Moved(doc, id, p, index), n)
    ensures n in {id, p} + Parents(doc, id)
  {
    if n in doc && n != id && n != p && id !in doc[n].children {
      WithoutNone(doc[n].children, {id});
    }
  }

  function Parents(doc: Doc, n: NodeId): set<NodeId> {
    if n in doc && doc[n].parent.Some? then {doc[n].parent.value} else {}
  }

  lemma SameMaps(a: Doc, b: Doc)
    requires forall n :: !Differs(a, b, n)
    ensures a == b
  {
    assert forall n :: n in a <==> n in b by {
      forall n ensures n in a <==> n in b { assert !Differs(a, b, n); }
    }
    forall n | n in a ensures a[n] == b[n] { assert !Differs(a, b, n); }
  }
}
