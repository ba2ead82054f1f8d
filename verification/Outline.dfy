/** The outline document: a map of nodes that form an ordered forest, with references between them. */
module Outline {
  import opened Collections

  type NodeId = nat

  datatype Kind = Plain | Reference | Search | QueryCondition | TagDef | FieldDef | DefConfig | SystemOption | Other

  datatype Node = Node(
    kind: Kind,
    parent: Option<NodeId>,
    children: seq<NodeId>,
    text: string,
    tags: seq<NodeId>,
    target: Option<NodeId>,
    queryTarget: Option<NodeId>,
    template: Option<NodeId>,
    inlineRefs: seq<Option<NodeId>>,
    configKey: nat,
    locked: bool)

  type Doc = map<NodeId, Node>

  /** The seeded nodes have the ids 0 to 10. */
  const SYSTEM_IDS: nat := 11
  const TRASH_ID: NodeId := 6

  predicate IsSystemId(n: NodeId) {
    n < SYSTEM_IDS
  }

  /** Configuration rows and their options are not edited as outline nodes. */
  predicate IsInternal(node: Node) {
    node.kind.DefConfig? || node.kind.SystemOption?
  }

  /** Locked nodes, the system's nodes, and configuration rows with their options stay where they are. */
  predicate IsPinned(doc: Doc, n: NodeId) {
    n in doc && (doc[n].locked || n < 11 || doc[n].kind.DefConfig? || doc[n].kind.SystemOption?)
  }

  datatype Error =
    | NotFound(id: NodeId)
    | Locked(id: NodeId)
    | InvalidOperation
    | ReferenceLoop
    | DuplicateChild

  datatype Result<+T> = Ok(value: T) | Err(error: Error)

  // ----- Lists of children -----

  /** An index given by a caller is clamped; none means the end. */
  function InsertionIndex(index: Option<int>, length: nat): (i: nat)
    ensures i <= length
  {
    match index
    case None => length
    case Some(i) => if i < 0 then 0 else if i > length then length else i
  }

  function Inserted<T>(s: seq<T>, i: nat, x: T): seq<T>
    requires i <= |s|
  {
    s[..i] + [x] + s[i..]
  }

  /** `x` stands among the others at the index; beyond either end means that end, and no index the last place. */
  ghost predicate StandsAt(s: seq<NodeId>, others: seq<NodeId>, x: NodeId, index: Option<int>) {
    && |s| == |others| + 1
    && (index.None? || index.value >= |others| ==> s == others + [x])
    && (index.Some? && index.value <= 0 ==> s == [x] + others)
    && (index.Some? && 0 < index.value < |others| ==>
          s[index.value] == x && s[..index.value] == others[..index.value] && s[index.value + 1..] == others[index.value..])
  }

  lemma InsertedStands(others: seq<NodeId>, x: NodeId, index: Option<int>, i: nat)
    requires i == InsertionIndex(index, |others|)
    ensures StandsAt(Inserted(others, i, x), others, x, index)
  {
  }

  function BlankNode(kind: Kind, parent: NodeId): Node {
    Node(kind, Some(parent), [], "", [], None, None, None, [], 0, false)
  }

  /** `createNodeWithId`: a new leaf among the parent's children. */
  function Created(doc: Doc, id: NodeId, index: Option<int>, node: Node): Doc
    requires node.parent.Some? && node.parent.value in doc
  {
    var p := node.parent.value;
    var children := doc[p].children;
    doc[id := node][p := doc[p].(children := Inserted(children, InsertionIndex(index, |children|), id))]
  }

  // ----- The forest invariant -----

  predicate Distinct<T(==)>(s: seq<T>) {
    forall i, j :: 0 <= i < j < |s| ==> s[i] != s[j]
  }

  predicate ListedByParent(doc: Doc, n: NodeId)
    requires n in doc
  {
    doc[n].parent.Some? ==> doc[n].parent.value in doc && n in doc[doc[n].parent.value].children
  }

  /** Children and parents agree, and no child is listed twice. */
  ghost predicate Linked(doc: Doc) {
    && (forall n :: n in doc ==> Distinct(doc[n].children))
    && (forall n, c {:trigger c in doc[n].children} :: n in doc && c in doc[n].children ==> c in doc && doc[c].parent == Some(n))
    && (forall n {:trigger ListedByParent(doc, n)} :: n in doc ==> ListedByParent(doc, n))
  }

  ghost predicate BelowParent(doc: Doc, rank: map<NodeId, nat>, n: NodeId)
    requires n in doc && n in rank
  {
    doc[n].parent.Some? && doc[n].parent.value in rank ==> rank[doc[n].parent.value] < rank[n]
  }

  /** A witness that following parents ends. */
  ghost predicate Ranked(doc: Doc, rank: map<NodeId, nat>) {
    rank.Keys == doc.Keys && forall n {:trigger BelowParent(doc, rank, n)} :: n in doc ==> BelowParent(doc, rank, n)
  }

  ghost predicate Forest(doc: Doc) {
    Linked(doc) && exists rank :: Ranked(doc, rank)
  }

  lemma InsertedDistinct<T>(s: seq<T>, i: nat, x: T)
    requires i <= |s| && Distinct(s) && x !in s
    ensures Distinct(Inserted(s, i, x))
    ensures forall y :: y in Inserted(s, i, x) <==> y in s || y == x
  {
    var r := Inserted(s, i, x);
    assert forall k :: 0 <= k < |s| ==> s[k] == r[if k < i then k else k + 1];
    assert r[i] == x;
  }

  /** A new leaf keeps the forest. */
  lemma CreatedForest(doc: Doc, id: NodeId, index: Option<int>, node: Node)
    requires Forest(doc) && id !in doc && node.parent.Some? && node.parent.value in doc && node.children == []
    ensures Forest(Created(doc, id, index, node))
  {
    var p, after := node.parent.value, Created(doc, id, index, node);
    InsertedDistinct(doc[p].children, InsertionIndex(index, |doc[p].children|), id);
    CreatedLinked(doc, id, index, node);
    var rank :| Ranked(doc, rank);
    var wider := rank[id := rank[p] + 1];
    forall n | n in after ensures BelowParent(after, wider, n) {
      if n != id { assert BelowParent(doc, rank, n) && ListedByParent(doc, n); }
    }
    assert Ranked(after, wider);
  }

  lemma CreatedLinked(doc: Doc, id: NodeId, index: Option<int>, node: Node)
    requires Linked(doc) && id !in doc && node.parent.Some? && node.parent.value in doc && node.children == []
    ensures Linked(Created(doc, id, index, node))
  {
    var p, after := node.parent.value, Created(doc, id, index, node);
    assert id !in doc[p].children;
    InsertedDistinct(doc[p].children, InsertionIndex(index, |doc[p].children|), id);
    LinkedBy(doc, after, id, p);
  }

  lemma LinkedBy(doc: Doc, after: Doc, id: NodeId, p: NodeId)
    requires Linked(doc) && id !in doc && p in doc && after.Keys == doc.Keys + {id}
    requires after[id].children == [] && after[id].parent == Some(p)
    requires Distinct(after[p].children) && forall c :: c in after[p].children <==> c in doc[p].children || c == id
    requires after[p].parent == doc[p].parent && forall n :: n in doc && n != p ==> after[n] == doc[n]
    ensures Linked(after)
  {
    forall n, c | n in after && c in after[n].children ensures c in after && after[c].parent == Some(n) {
      if n != id && c != id { assert c in doc[n].children; }
    }
    forall n | n in after ensures ListedByParent(after, n) {
      if n != id { assert ListedByParent(doc, n); }
    }
  }

  /** The forest is a matter of parents and children only. */
  lemma SamePlacesForest(doc: Doc, after: Doc)
    requires Forest(doc) && after.Keys == doc.Keys
    requires forall n :: n in doc ==> after[n].parent == doc[n].parent && after[n].children == doc[n].children
    ensures Forest(after)
  {
    SamePlacesLinked(doc, after);
    var rank :| Ranked(doc, rank);
    hide Linked;
    forall n | n in after ensures BelowParent(after, rank, n) { assert BelowParent(doc, rank, n); }
    assert Ranked(after, rank);
  }

  lemma SamePlacesLinked(doc: Doc, after: Doc)
    requires Linked(doc) && after.Keys == doc.Keys
    requires forall n :: n in doc ==> after[n].parent == doc[n].parent && after[n].children == doc[n].children
    ensures Linked(after)
  {
    forall n | n in after ensures ListedByParent(after, n) { assert ListedByParent(doc, n); }
  }

  // ----- Moving a node -----

  /** `a` is a proper ancestor of `n`. */
  ghost predicate Above(doc: Doc, rank: map<NodeId, nat>, a: NodeId, n: NodeId)
    requires Linked(doc) && Ranked(doc, rank) && n in doc
    decreases rank[n]
  {
    assert ListedByParent(doc, n) && BelowParent(doc, rank, n);
    doc[n].parent.Some? && (doc[n].parent.value == a || Above(doc, rank, a, doc[n].parent.value))
  }

  lemma HasMember(s: seq<NodeId>)
    requires s != []
    ensures exists n :: n in s
  {
    assert s[0] in s;
  }
}
