/** Year, week and day nodes: found by searching the children, or for many dates through an index. */
module DateIndex {
  import opened Collections
  import opened Outline

  const DAILY_NOTES_ID: NodeId := 1
  const TAG_YEAR_ID: NodeId := 7
  const TAG_WEEK_ID: NodeId := 8
  const TAG_DAY_ID: NodeId := 9

  /** The canonical names of a date's year, week and day. */
  datatype Date = Date(year: string, week: string, day: string)

  // ----- Searching the children -----

  predicate Matches(doc: Doc, c: NodeId, name: string, tag: NodeId) {
    c in doc && doc[c].text == name && tag in doc[c].tags
  }

  function FirstNamed(doc: Doc, children: seq<NodeId>, name: string, tag: NodeId): Option<NodeId> {
    if children == [] then None
    else if Matches(doc, children[0], name, tag) then Some(children[0])
    else FirstNamed(doc, children[1..], name, tag)
  }

  function Children(doc: Doc, p: NodeId): seq<NodeId> {
    if p in doc then doc[p].children else []
  }

  /** The first child, in child order, with this name and tag. */
  function FirstMatch(doc: Doc, p: NodeId, name: string, tag: NodeId): Option<NodeId> {
    FirstNamed(doc, Children(doc, p), name, tag)
  }

  // ----- One date after the other -----

  datatype State = State(doc: Doc, next: NodeId)

  /** Ids are handed out in turn and nothing has one that is still to come. */
  ghost predicate AllBelow(s: State) {
    && (forall n :: n in s.doc ==> n < s.next)
    && forall n, c {:trigger c in s.doc[n].children} :: n in s.doc && c in s.doc[n].children ==> c < s.next
  }

  function DateNode(p: NodeId, name: string, tag: NodeId): Node {
    BlankNode(Plain, p).(text := name, tags := [tag], locked := true)
  }

  /** An existing child, or a new one in front of the others. */
  function EnsureChild(s: State, p: NodeId, name: string, tag: NodeId): (State, NodeId)
    requires p in s.doc
  {
    match FirstMatch(s.doc, p, name, tag)
    case Some(c) => (s, c)
    case None => (State(Created(s.doc, s.next, Some(0), DateNode(p, name, tag)), s.next + 1), s.next)
  }

  /** A locked node of the name and the tag stands in front of the parent's children, and nothing else has changed. */
  ghost predicate IsNewInFront(s: State, after: State, c: NodeId, p: NodeId, name: string, tag: NodeId) {
    && p in s.doc && c !in s.doc && after.doc.Keys == s.doc.Keys + {c} && c == s.next && after.next == s.next + 1
    && after.doc[c].parent == Some(p) && after.doc[c].text == name && after.doc[c].tags == [tag] && after.doc[c].locked
    && after.doc[c].children == [] && after.doc[c].kind.Plain?
    && after.doc[p] == s.doc[p].(children := [c] + s.doc[p].children)
    && forall n :: n in s.doc && n != p ==> after.doc[n] == s.doc[n]
  }

  lemma ChildEnsured(s: State, p: NodeId, name: string, tag: NodeId)
    requires p in s.doc && AllBelow(s)
    ensures var (after, c) := EnsureChild(s, p, name, tag);
      && AllBelow(after) && s.doc.Keys <= after.doc.Keys && c in after.doc && s.next <= after.next && FirstMatch(after.doc, p, name, tag) == Some(c)
      && (if FirstMatch(s.doc, p, name, tag).Some? then after == s else IsNewInFront(s, after, c, p, name, tag))
  {
    FoundThere(s.doc, Children(s.doc, p), name, tag);
    if FirstMatch(s.doc, p, name, tag).None? {
      var (after, c) := EnsureChild(s, p, name, tag);
      assert after.doc[p].children == [c] + s.doc[p].children;
    }
  }

  lemma {:induction false} FoundThere(doc: Doc, children: seq<NodeId>, name: string, tag: NodeId)
    ensures FirstNamed(doc, children, name, tag).Some? ==>
      FirstNamed(doc, children, name, tag).value in children && Matches(doc, FirstNamed(doc, children, name, tag).value, name, tag)
  {
    if children != [] { FoundThere(doc, children[1..], name, tag); }
  }

  function EnsureDate(s: State, date: Date): (State, NodeId)
    requires DAILY_NOTES_ID in s.doc && AllBelow(s)
  {
    ChildEnsured(s, DAILY_NOTES_ID, date.year, TAG_YEAR_ID);
    var (one, year) := EnsureChild(s, DAILY_NOTES_ID, date.year, TAG_YEAR_ID);
    ChildEnsured(one, year, date.week, TAG_WEEK_ID);
    var (two, week) := EnsureChild(one, year, date.week, TAG_WEEK_ID);
    EnsureChild(two, week, date.day, TAG_DAY_ID)
  }

  lemma DateEnsured(s: State, date: Date)
    requires DAILY_NOTES_ID in s.doc && AllBelow(s)
    ensures var after := EnsureDate(s, date).0;
      AllBelow(after) && DAILY_NOTES_ID in after.doc
  {
    ChildEnsured(s, DAILY_NOTES_ID, date.year, TAG_YEAR_ID);
    var (one, year) := EnsureChild(s, DAILY_NOTES_ID, date.year, TAG_YEAR_ID);
    ChildEnsured(one, year, date.week, TAG_WEEK_ID);
    var (two, week) := EnsureChild(one, year, date.week, TAG_WEEK_ID);
    ChildEnsured(two, week, date.day, TAG_DAY_ID);
  }

  function EnsureAll(s: State, dates: seq<Date>): (r: (State, seq<NodeId>))
    requires DAILY_NOTES_ID in s.doc && AllBelow(s)
    ensures AllBelow(r.0) && DAILY_NOTES_ID in r.0.doc && |r.1| == |dates|
  {
    if dates == [] then (s, [])
    else
      var (before, ids) := EnsureAll(s, dates[..|dates| - 1]);
      DateEnsured(before, dates[|dates| - 1]);
      var (after, id) := EnsureDate(before, dates[|dates| - 1]);
      (after, ids + [id])
  }

  // ----- What creating a date node leaves alone -----

  lemma {:induction false} SameNamed(doc: Doc, after: Doc, children: seq<NodeId>, name: string, tag: NodeId)
    requires forall c :: c in children ==> (Matches(after, c, name, tag) <==> Matches(doc, c, name, tag))
    ensures FirstNamed(after, children, name, tag) == FirstNamed(doc, children, name, tag)
  {
    if children != [] {
      assert children[0] in children && forall c :: c in children[1..] ==> c in children;
      SameNamed(doc, after, children[1..], name, tag);
    }
  }

  /** A new date node is the first match for its own name and tag and for no other. */
  lemma CreatedMatch(s: State, p: NodeId, name: string, tag: NodeId, q: NodeId, other: string, otherTag: NodeId)
    requires AllBelow(s) && p in s.doc && FirstMatch(s.doc, p, name, tag).None?
    ensures var after := EnsureChild(s, p, name, tag).0.doc;
      FirstMatch(after, q, other, otherTag) ==
        if q == p && other == name && otherTag == tag then Some(s.next) else FirstMatch(s.doc, q, other, otherTag)
  {
    var after := EnsureChild(s, p, name, tag).0.doc;
    SameNamed(s.doc, after, Children(s.doc, q), other, otherTag);
    if q == p {
      var children := s.doc[p].children;
      assert after[p].children == [s.next] + children;
      assert ([s.next] + children)[1..] == children;
    }
  }

  /** What is found stays found, whatever is ensured afterwards. */
  lemma MatchStays(s: State, p: NodeId, name: string, tag: NodeId, q: NodeId, other: string, otherTag: NodeId)
    requires AllBelow(s) && p in s.doc && FirstMatch(s.doc, q, other, otherTag).Some?
    ensures FirstMatch(EnsureChild(s, p, name, tag).0.doc, q, other, otherTag) == FirstMatch(s.doc, q, other, otherTag)
  {
    if FirstMatch(s.doc, p, name, tag).None? { CreatedMatch(s, p, name, tag, q, other, otherTag); }
  }

  // ----- Finding a date, and finding it again -----

  /** `findDateNodeIdInState`. */
  function FindDate(doc: Doc, date: Date): Option<NodeId> {
    var year := FirstMatch(doc, DAILY_NOTES_ID, date.year, TAG_YEAR_ID);
    var week := if year.Some? then FirstMatch(doc, year.value, date.week, TAG_WEEK_ID) else None;
    if week.Some? then FirstMatch(doc, week.value, date.day, TAG_DAY_ID) else None
  }

  lemma FindStays(s: State, p: NodeId, name: string, tag: NodeId, date: Date)
    requires AllBelow(s) && p in s.doc && FindDate(s.doc, date).Some?
    ensures FindDate(EnsureChild(s, p, name, tag).0.doc, date) == FindDate(s.doc, date)
  {
    var year := FirstMatch(s.doc, DAILY_NOTES_ID, date.year, TAG_YEAR_ID).value;
    var week := FirstMatch(s.doc, year, date.week, TAG_WEEK_ID).value;
    hide FirstMatch, EnsureChild;
    MatchStays(s, p, name, tag, DAILY_NOTES_ID, date.year, TAG_YEAR_ID);
    MatchStays(s, p, name, tag, year, date.week, TAG_WEEK_ID);
    MatchStays(s, p, name, tag, week, date.day, TAG_DAY_ID);
  }

  /** A date that was ensured is found, and dates found before still are. */
  lemma EnsuredIsFound(s: State, date: Date, other: Date)
    requires DAILY_NOTES_ID in s.doc && AllBelow(s)
    ensures FindDate(EnsureDate(s, date).0.doc, date) == Some(EnsureDate(s, date).1)
    ensures FindDate(s.doc, other).Some? ==> FindDate(EnsureDate(s, date).0.doc, other) == FindDate(s.doc, other)
  {
    ChildEnsured(s, DAILY_NOTES_ID, date.year, TAG_YEAR_ID);
    var (one, year) := EnsureChild(s, DAILY_NOTES_ID, date.year, TAG_YEAR_ID);
    ChildEnsured(one, year, date.week, TAG_WEEK_ID);
    var (two, week) := EnsureChild(one, year, date.week, TAG_WEEK_ID);
    ChildEnsured(two, week, date.day, TAG_DAY_ID);
    if FindDate(s.doc, other).Some? {
      FindStays(s, DAILY_NOTES_ID, date.year, TAG_YEAR_ID, other);
      FindStays(one, year, date.week, TAG_WEEK_ID, other);
      FindStays(two, week, date.day, TAG_DAY_ID, other);
    }
    hide FirstMatch, EnsureChild;
    MatchStays(one, year, date.week, TAG_WEEK_ID, DAILY_NOTES_ID, date.year, TAG_YEAR_ID);
    MatchStays(two, week, date.day, TAG_DAY_ID, DAILY_NOTES_ID, date.year, TAG_YEAR_ID);
    MatchStays(two, week, date.day, TAG_DAY_ID, year, date.week, TAG_WEEK_ID);
  }

  lemma FoundIsKept(s: State, date: Date)
    requires DAILY_NOTES_ID in s.doc && AllBelow(s) && FindDate(s.doc, date).Some?
    ensures EnsureDate(s, date) == (s, FindDate(s.doc, date).value)
  {
  }

  /** After a batch every date is found under the id that was given for it. */
  lemma {:induction false} AllAreFound(s: State, dates: seq<Date>, i: nat)
    requires DAILY_NOTES_ID in s.doc && AllBelow(s) && i < |dates|
    ensures FindDate(EnsureAll(s, dates).0.doc, dates[i]) == Some(EnsureAll(s, dates).1[i])
    decreases |dates|
  {
    var first, last := dates[..|dates| - 1], dates[|dates| - 1];
    var (before, ids) := EnsureAll(s, first);
    DateEnsured(before, last);
    EnsuredIsFound(before, last, dates[i]);
    if i < |first| {
      AllAreFound(s, first, i);
      assert first[i] == dates[i];
    }
  }

  /** Dates that are all found already are given their ids, and nothing changes. */
  lemma {:induction false} FoundAreKept(s: State, dates: seq<Date>, ids: seq<NodeId>)
    requires DAILY_NOTES_ID in s.doc && AllBelow(s) && |ids| == |dates|
    requires forall i :: 0 <= i < |dates| ==> FindDate(s.doc, dates[i]) == Some(ids[i])
    ensures EnsureAll(s, dates) == (s, ids)
    decreases |dates|
  {
    hide FindDate, EnsureDate, AllBelow;
    if dates == [] {
      assert EnsureAll(s, dates) == (s, []);
    } else {
      var n := |dates| - 1;
      var first := dates[..n];
      assert forall i :: 0 <= i < n ==> first[i] == dates[i];
      FoundAreKept(s, first, ids[..n]);
      FoundIsKept(s, dates[n]);
      AllStep(s, dates);
      hide EnsureAll;
      assert ids == ids[..n] + [ids[n]];
    }
  }

  lemma AllStep(s: State, dates: seq<Date>)
    requires DAILY_NOTES_ID in s.doc && AllBelow(s) && dates != []
    ensures var n := |dates| - 1;
      var (before, ids) := EnsureAll(s, dates[..n]);
      EnsureAll(s, dates) == (EnsureDate(before, dates[n]).0, ids + [EnsureDate(before, dates[n]).1])
  {
  }

  /** The same batch again gives the same ids and changes nothing. */
  lemma BatchIsIdempotent(s: State, dates: seq<Date>)
    requires DAILY_NOTES_ID in s.doc && AllBelow(s)
    ensures EnsureAll(EnsureAll(s, dates).0, dates) == EnsureAll(s, dates)
  {
    var (after, ids) := EnsureAll(s, dates);
    forall i | 0 <= i < |dates| ensures FindDate(after.doc, dates[i]) == Some(ids[i]) { AllAreFound(s, dates, i); }
    FoundAreKept(after, dates, ids);
  }

  // ----- The index -----

  type Key = (NodeId, NodeId, string)
  type Index = map<Key, NodeId>

  /** What the index has is the first match. */
  ghost predicate Sound(doc: Doc, index: Index) {
    forall k :: k in index ==> FirstMatch(doc, k.0, k.2, k.1) == Some(index[k])
  }

  /** For this parent and tag the index has every match. */
  ghost predicate Complete(doc: Doc, index: Index, p: NodeId, tag: NodeId) {
    forall name: string {:trigger FirstMatch(doc, p, name, tag)} :: FirstMatch(doc, p, name, tag).Some? ==> (p, tag, name) in index
  }

  /** The entries with one tag have complete entries below them, but for those still waiting. */
  ghost predicate Below(doc: Doc, index: Index, tag: NodeId, next: NodeId, waiting: seq<NodeId>) {
    forall k :: k in index && k.1 == tag ==> index[k] in waiting || Complete(doc, index, index[k], next)
  }

  ghost predicate IndexOk(doc: Doc, index: Index) {
    && Sound(doc, index) && Complete(doc, index, DAILY_NOTES_ID, TAG_YEAR_ID)
    && Below(doc, index, TAG_YEAR_ID, TAG_WEEK_ID, []) && Below(doc, index, TAG_WEEK_ID, TAG_DAY_ID, [])
  }

  lemma {:induction false} NamedAppend(doc: Doc, s: seq<NodeId>, x: NodeId, name: string, tag: NodeId)
    ensures FirstNamed(doc, s + [x], name, tag) ==
      if FirstNamed(doc, s, name, tag).Some? then FirstNamed(doc, s, name, tag)
      else if Matches(doc, x, name, tag) then Some(x) else None
  {
    if s == [] {
      assert [x][1..] == [];
    } else {
      assert (s + [x])[1..] == s[1..] + [x];
      NamedAppend(doc, s[1..], x, name, tag);
    }
  }

  lemma {:induction false} NamedPrefix(doc: Doc, s: seq<NodeId>, t: seq<NodeId>, name: string, tag: NodeId)
    requires FirstNamed(doc, s, name, tag).Some?
    ensures FirstNamed(doc, s + t, name, tag) == FirstNamed(doc, s, name, tag)
  {
    assert (s + t)[1..] == s[1..] + t;
    if !Matches(doc, s[0], name, tag) { NamedPrefix(doc, s[1..], t, name, tag); }
  }

  /** Every name among the first `i` children has an entry. */
  ghost predicate PrefixIndexed(doc: Doc, children: seq<NodeId>, i: nat, index: Index, p: NodeId, tag: NodeId)
    requires i <= |children|
  {
    forall name: string {:trigger FirstNamed(doc, children[..i], name, tag)} ::
      FirstNamed(doc, children[..i], name, tag).Some? ==> (p, tag, name) in index
  }

  predicate IsNew(doc: Doc, c: NodeId, index: Index, p: NodeId, tag: NodeId) {
    c in doc && tag in doc[c].tags && (p, tag, doc[c].text) !in index
  }

  lemma NextIndexed(doc: Doc, children: seq<NodeId>, i: nat, index: Index, p: NodeId, tag: NodeId)
    requires i < |children| && PrefixIndexed(doc, children, i, index, p, tag)
    ensures var c := children[i];
      if IsNew(doc, c, index, p, tag) then
        PrefixIndexed(doc, children, i + 1, index[(p, tag, doc[c].text) := c], p, tag) && FirstNamed(doc, children, doc[c].text, tag) == Some(c)
      else PrefixIndexed(doc, children, i + 1, index, p, tag)
  {
    var c := children[i];
    assert children[..i + 1] == children[..i] + [c];
    forall name: string | FirstNamed(doc, children[..i + 1], name, tag).Some?
      ensures (p, tag, name) in index || (c in doc && name == doc[c].text && IsNew(doc, c, index, p, tag))
    {
      NamedAppend(doc, children[..i], c, name, tag);
    }
    if IsNew(doc, c, index, p, tag) {
      NamedAppend(doc, children[..i], c, doc[c].text, tag);
      NamedPrefix(doc, children[..i + 1], children[i + 1..], doc[c].text, tag);
      assert children == children[..i + 1] + children[i + 1..];
    }
  }

  /** `indexCanonicalDateChildren`: the first child of each name gets an entry. */
  method IndexChildren(doc: Doc, index: Index, p: NodeId, tag: NodeId) returns (wider: Index, selected: seq<NodeId>)
    requires Sound(doc, index)
    ensures Sound(doc, wider) && Complete(doc, wider, p, tag)
    ensures forall k :: k in index ==> k in wider && wider[k] == index[k]
    ensures forall k :: k in wider && k !in index ==> k.0 == p && k.1 == tag && wider[k] in selected
  {
    hide FirstNamed, PrefixIndexed;
    wider, selected := index, [];
    var children, i := Children(doc, p), 0;
    NoneIndexed(doc, children, index, p, tag);
    while i < |children|
      invariant 0 <= i <= |children| && Sound(doc, wider) && PrefixIndexed(doc, children, i, wider, p, tag)
      invariant forall k :: k in index ==> k in wider && wider[k] == index[k]
      invariant forall k :: k in wider && k !in index ==> k.0 == p && k.1 == tag && wider[k] in selected
    {
      var c := children[i];
      NextIndexed(doc, children, i, wider, p, tag);
      if IsNew(doc, c, wider, p, tag) {
        wider, selected := wider[(p, tag, doc[c].text) := c], selected + [c];
      }
      i := i + 1;
    }
    AllIndexed(doc, p, wider, tag);
  }

  lemma NoneIndexed(doc: Doc, children: seq<NodeId>, index: Index, p: NodeId, tag: NodeId)
    ensures PrefixIndexed(doc, children, 0, index, p, tag)
  {
  }

  lemma AllIndexed(doc: Doc, p: NodeId, index: Index, tag: NodeId)
    requires PrefixIndexed(doc, Children(doc, p), |Children(doc, p)|, index, p, tag)
    ensures Complete(doc, index, p, tag)
  {
    var children := Children(doc, p);
    assert children[..|children|] == children;
    hide FirstNamed;
  }

  lemma StillComplete(doc: Doc, index: Index, wider: Index, p: NodeId, tag: NodeId)
    requires Complete(doc, index, p, tag) && forall k :: k in index ==> k in wider
    ensures Complete(doc, wider, p, tag)
  {
  }

  /** One more entry of the waiting list is complete below. */
  lemma OneDone(doc: Doc, index: Index, wider: Index, tag: NodeId, next: NodeId, waiting: seq<NodeId>, i: nat)
    requires i < |waiting| && Below(doc, index, tag, next, waiting[i..]) && Complete(doc, wider, waiting[i], next)
    requires forall k :: k in index ==> k in wider && wider[k] == index[k]
    requires forall k :: k in wider && k !in index ==> k.1 != tag
    ensures Below(doc, wider, tag, next, waiting[i + 1..])
  {
    assert waiting[i..] == [waiting[i]] + waiting[i + 1..];
    forall k | k in wider && k.1 == tag ensures wider[k] in waiting[i + 1..] || Complete(doc, wider, wider[k], next) {
      assert k in index;
      if Complete(doc, index, index[k], next) { StillComplete(doc, index, wider, index[k], next); }
    }
  }

  /** Wider entries of other tags keep what was complete below. */
  lemma StillBelow(doc: Doc, index: Index, wider: Index, tag: NodeId, next: NodeId, waiting: seq<NodeId>, more: seq<NodeId>)
    requires Below(doc, index, tag, next, waiting)
    requires forall k :: k in index ==> k in wider && wider[k] == index[k]
    requires forall k :: k in wider && k !in index && k.1 == tag ==> wider[k] in more
    ensures Below(doc, wider, tag, next, waiting + more)
  {
    forall k | k in wider && k.1 == tag ensures wider[k] in waiting + more || Complete(doc, wider, wider[k], next) {
      if k in index && Complete(doc, index, index[k], next) { StillComplete(doc, index, wider, index[k], next); }
    }
  }

  /** The days of some weeks. */
  method IndexWeeks(doc: Doc, start: Index, weeks: seq<NodeId>) returns (index: Index)
    requires Sound(doc, start) && Below(doc, start, TAG_WEEK_ID, TAG_DAY_ID, weeks)
    ensures Sound(doc, index) && Below(doc, index, TAG_WEEK_ID, TAG_DAY_ID, [])
    ensures forall k :: k in start ==> k in index && index[k] == start[k]
    ensures forall k :: k in index && k !in start ==> k.1 == TAG_DAY_ID
  {
    hide Sound, Below, Complete;
    index := start;
    var i := 0;
    assert weeks[0..] == weeks;
    while i < |weeks|
      invariant 0 <= i <= |weeks| && Sound(doc, index) && Below(doc, index, TAG_WEEK_ID, TAG_DAY_ID, weeks[i..])
      invariant forall k :: k in start ==> k in index && index[k] == start[k]
      invariant forall k :: k in index && k !in start ==> k.1 == TAG_DAY_ID
    {
      var wider, days := IndexChildren(doc, index, weeks[i], TAG_DAY_ID);
      OneDone(doc, index, wider, TAG_WEEK_ID, TAG_DAY_ID, weeks, i);
      index := wider;
      i := i + 1;
    }
    assert weeks[i..] == [];
  }

  /** `canonicalDateNodeIndex`. */
  method BuildIndex(doc: Doc) returns (index: Index)
    ensures IndexOk(doc, index)
  {
    hide Sound, Complete, Below;
    NoEntries(doc);
    var years;
    index, years := IndexChildren(doc, map[], DAILY_NOTES_ID, TAG_YEAR_ID);
    StillBelow(doc, map[], index, TAG_YEAR_ID, TAG_WEEK_ID, [], years);
    StillBelow(doc, map[], index, TAG_WEEK_ID, TAG_DAY_ID, [], []);
    var none: seq<NodeId> := [];
    assert none + none == none && none + years == years && years[0..] == years;
    var i := 0;
    while i < |years|
      invariant 0 <= i <= |years| && Sound(doc, index) && Complete(doc, index, DAILY_NOTES_ID, TAG_YEAR_ID)
      invariant Below(doc, index, TAG_YEAR_ID, TAG_WEEK_ID, years[i..]) && Below(doc, index, TAG_WEEK_ID, TAG_DAY_ID, [])
    {
      index := IndexYear(doc, index, years, i);
      i := i + 1;
    }
    assert years[i..] == [];
  }

  /** The weeks of one year, and their days. */
  method IndexYear(doc: Doc, start: Index, years: seq<NodeId>, i: nat) returns (index: Index)
    requires i < |years| && Sound(doc, start) && Complete(doc, start, DAILY_NOTES_ID, TAG_YEAR_ID)
    requires Below(doc, start, TAG_YEAR_ID, TAG_WEEK_ID, years[i..]) && Below(doc, start, TAG_WEEK_ID, TAG_DAY_ID, [])
    ensures Sound(doc, index) && Complete(doc, index, DAILY_NOTES_ID, TAG_YEAR_ID)
    ensures Below(doc, index, TAG_YEAR_ID, TAG_WEEK_ID, years[i + 1..]) && Below(doc, index, TAG_WEEK_ID, TAG_DAY_ID, [])
  {
    hide Sound, Complete, Below;
    var wider, weeks := IndexChildren(doc, start, years[i], TAG_WEEK_ID);
    StillComplete(doc, start, wider, DAILY_NOTES_ID, TAG_YEAR_ID);
    OneDone(doc, start, wider, TAG_YEAR_ID, TAG_WEEK_ID, years, i);
    StillBelow(doc, start, wider, TAG_WEEK_ID, TAG_DAY_ID, [], weeks);
    assert [] + weeks == weeks;
    index := IndexWeeks(doc, wider, weeks);
    StillComplete(doc, wider, index, DAILY_NOTES_ID, TAG_YEAR_ID);
    StillBelow(doc, wider, index, TAG_YEAR_ID, TAG_WEEK_ID, years[i + 1..], []);
    assert years[i + 1..] + [] == years[i + 1..];
  }

  lemma NoEntries(doc: Doc)
    ensures Sound(doc, map[]) && Below(doc, map[], TAG_YEAR_ID, TAG_WEEK_ID, []) && Below(doc, map[], TAG_WEEK_ID, TAG_DAY_ID, [])
  {
  }

  // ----- Creating with the index at hand -----

  lemma CompleteAfterCreation(s: State, index: Index, p: NodeId, name: string, tag: NodeId, q: NodeId, next: NodeId)
    requires AllBelow(s) && p in s.doc && FirstMatch(s.doc, p, name, tag).None?
    requires q == s.next || Complete(s.doc, index, q, next)
    ensures Complete(EnsureChild(s, p, name, tag).0.doc, index[(p, tag, name) := s.next], q, next)
  {
    forall other: string {:trigger FirstMatch(EnsureChild(s, p, name, tag).0.doc, q, other, next)}
      | FirstMatch(EnsureChild(s, p, name, tag).0.doc, q, other, next).Some?
      ensures (q, next, other) in index[(p, tag, name) := s.next]
    {
      CreatedMatch(s, p, name, tag, q, other, next);
    }
  }

  /** The index follows the creation: it is the first match in child order again. */
  lemma IndexFollows(s: State, index: Index, p: NodeId, name: string, tag: NodeId)
    requires AllBelow(s) && p in s.doc && FirstMatch(s.doc, p, name, tag).None? && IndexOk(s.doc, index)
    ensures IndexOk(EnsureChild(s, p, name, tag).0.doc, index[(p, tag, name) := s.next])
  {
    var after, wider := EnsureChild(s, p, name, tag).0.doc, index[(p, tag, name) := s.next];
    forall k | k in wider ensures FirstMatch(after, k.0, k.2, k.1) == Some(wider[k]) {
      CreatedMatch(s, p, name, tag, k.0, k.2, k.1);
    }
    CompleteAfterCreation(s, index, p, name, tag, DAILY_NOTES_ID, TAG_YEAR_ID);
    BelowFollows(s, index, p, name, tag, TAG_YEAR_ID, TAG_WEEK_ID);
    BelowFollows(s, index, p, name, tag, TAG_WEEK_ID, TAG_DAY_ID);
  }

  lemma BelowFollows(s: State, index: Index, p: NodeId, name: string, tag: NodeId, level: NodeId, next: NodeId)
    requires AllBelow(s) && p in s.doc && FirstMatch(s.doc, p, name, tag).None? && Below(s.doc, index, level, next, [])
    ensures Below(EnsureChild(s, p, name, tag).0.doc, index[(p, tag, name) := s.next], level, next, [])
  {
    var after, wider := EnsureChild(s, p, name, tag).0.doc, index[(p, tag, name) := s.next];
    hide FirstMatch, EnsureChild, AllBelow, Complete;
    forall k | k in wider && k.1 == level ensures Complete(after, wider, wider[k], next) {
      CompleteAfterCreation(s, index, p, name, tag, wider[k], next);
    }
  }

  lemma CompleteBelow(doc: Doc, index: Index, k: Key, next: NodeId)
    requires Below(doc, index, k.1, next, []) && k in index
    ensures Complete(doc, index, index[k], next)
  {
  }

  class Core {
    var doc: Doc
    var next: NodeId

    ghost predicate Valid()
      reads this
    {
      DAILY_NOTES_ID in doc && AllBelow(State(doc, next))
    }

    ghost function Now(): State
      reads this
    {
      State(doc, next)
    }

    method Create(p: NodeId, name: string, tag: NodeId) returns (id: NodeId)
      requires p in doc && FirstMatch(doc, p, name, tag).None?
      modifies this
      ensures (Now(), id) == EnsureChild(old(Now()), p, name, tag)
    {
      id := next;
      doc := Created(doc, id, Some(0), DateNode(p, name, tag));
      next := next + 1;
    }

    /** `findOrCreateNamedChildDirect`: looks through the children. */
    method FindOrCreate(p: NodeId, name: string, tag: NodeId) returns (id: NodeId)
      requires p in doc && AllBelow(Now())
      modifies this
      ensures (Now(), id) == EnsureChild(old(Now()), p, name, tag)
    {
      var children, i := Children(doc, p), 0;
      assert children[0..] == children;
      while i < |children|
        invariant 0 <= i <= |children| && FirstNamed(doc, children[i..], name, tag) == FirstMatch(doc, p, name, tag)
      {
        assert children[i..][0] == children[i] && children[i..][1..] == children[i + 1..];
        if Matches(doc, children[i], name, tag) { return children[i]; }
        i := i + 1;
      }
      id := Create(p, name, tag);
    }

    /** `findOrCreateCanonicalDateChildIndexedDirect`: asks the index only. */
    method FindOrCreateIndexed(index: Index, p: NodeId, name: string, tag: NodeId) returns (wider: Index, id: NodeId)
      requires p in doc && AllBelow(Now()) && IndexOk(doc, index) && Complete(doc, index, p, tag)
      modifies this
      ensures (Now(), id) == EnsureChild(old(Now()), p, name, tag)
      ensures IndexOk(doc, wider) && (p, tag, name) in wider && wider[(p, tag, name)] == id
    {
      var key := (p, tag, name);
      if key in index { return index, index[key]; }
      IndexFollows(Now(), index, p, name, tag);
      id := Create(p, name, tag);
      wider := index[key := id];
    }

    /** `ensureDateNode`: one date, or an error before anything is written. */
    method EnsureDateNode(date: Option<Date>) returns (r: Result<NodeId>)
      requires Valid()
      modifies this
      ensures Valid() && (r.Err? <==> date.None?)
      ensures r.Err? ==> Now() == old(Now())
      ensures r.Ok? ==> (Now(), r.value) == EnsureDate(old(Now()), date.value)
    {
      if date.None? { return Err(InvalidOperation); }
      DateEnsured(Now(), date.value);
      hide FirstMatch, EnsureChild;
      ChildEnsured(Now(), DAILY_NOTES_ID, date.value.year, TAG_YEAR_ID);
      var year := FindOrCreate(DAILY_NOTES_ID, date.value.year, TAG_YEAR_ID);
      ChildEnsured(Now(), year, date.value.week, TAG_WEEK_ID);
      var week := FindOrCreate(year, date.value.week, TAG_WEEK_ID);
      var day := FindOrCreate(week, date.value.day, TAG_DAY_ID);
      r := Ok(day);
    }

    /** One date through the index. */
    method EnsureIndexed(start: Index, date: Date) returns (index: Index, id: NodeId)
      requires Valid() && IndexOk(doc, start)
      modifies this
      ensures Valid() && IndexOk(doc, index) && (Now(), id) == EnsureDate(old(Now()), date)
    {
      DateEnsured(Now(), date);
      hide FirstMatch, EnsureChild, Complete, Below, Sound, AllBelow;
      var year, week;
      ChildEnsured(Now(), DAILY_NOTES_ID, date.year, TAG_YEAR_ID);
      index, year := FindOrCreateIndexed(start, DAILY_NOTES_ID, date.year, TAG_YEAR_ID);
      CompleteBelow(doc, index, (DAILY_NOTES_ID, TAG_YEAR_ID, date.year), TAG_WEEK_ID);
      ChildEnsured(Now(), year, date.week, TAG_WEEK_ID);
      index, week := FindOrCreateIndexed(index, year, date.week, TAG_WEEK_ID);
      CompleteBelow(doc, index, (year, TAG_WEEK_ID, date.week), TAG_DAY_ID);
      index, id := FindOrCreateIndexed(index, week, date.day, TAG_DAY_ID);
    }

    /**
     * `ensureDateNodesYielding`: a batch through one index makes the same nodes with the same ids as one search after
     * the other, and refuses a list with an invalid date before it writes anything.
     */
    method EnsureDateNodes(dates: seq<Option<Date>>) returns (r: Result<seq<NodeId>>)
      requires Valid()
      modifies this
      ensures Valid() && (r.Err? <==> None in dates)
      ensures r.Err? ==> Now() == old(Now())
      ensures r.Ok? ==> (Now(), r.value) == EnsureAll(old(Now()), Values(dates))
    {
      var i := 0;
      while i < |dates|
        invariant 0 <= i <= |dates| && None !in dates[..i]
      {
        if dates[i].None? { return Err(InvalidOperation); }
        i := i + 1;
      }
      var ids := EnsureDescriptors(Values(dates));
      r := Ok(ids);
    }

    method EnsureDescriptors(descriptors: seq<Date>) returns (ids: seq<NodeId>)
      requires Valid()
      modifies this
      ensures Valid() && (Now(), ids) == EnsureAll(old(Now()), descriptors)
    {
      hide IndexOk, EnsureDate, AllBelow;
      var index := BuildIndex(doc);
      ids := [];
      var i := 0;
      while i < |descriptors|
        invariant 0 <= i <= |descriptors| && Valid() && IndexOk(doc, index)
        invariant (Now(), ids) == EnsureAll(old(Now()), descriptors[..i])
      {
        assert descriptors[..i + 1][..i] == descriptors[..i];
        var id;
        index, id := EnsureIndexed(index, descriptors[i]);
        ids := ids + [id];
        i := i + 1;
      }
      assert descriptors[..i] == descriptors;
    }

    /** The same list, one search after the other. */
    method EnsureOneByOne(dates: seq<Date>) returns (ids: seq<NodeId>)
      requires Valid()
      modifies this
      ensures Valid() && (Now(), ids) == EnsureAll(old(Now()), dates)
    {
      ids := [];
      var i := 0;
      hide EnsureDate, AllBelow;
      while i < |dates|
        invariant 0 <= i <= |dates| && Valid() && (Now(), ids) == EnsureAll(old(Now()), dates[..i])
      {
        assert dates[..i + 1][..i] == dates[..i];
        var r := EnsureDateNode(Some(dates[i]));
        ids := ids + [r.value];
        i := i + 1;
      }
      assert dates[..i] == dates;
    }
  }

  function Values(dates: seq<Option<Date>>): (values: seq<Date>)
    ensures |values| <= |dates|
  {
    if dates == [] then []
    else Values(dates[..|dates| - 1]) + if dates[|dates| - 1].Some? then [dates[|dates| - 1].value] else []
  }
}
