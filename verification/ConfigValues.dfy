/** Configuration values are nodes under a definition: one row for a key, and the values under the row. */
module ConfigValues {
  import opened Collections
  import opened Outline
  import opened ConfigSchema

  datatype NodeKind =
    | TagDefinition | FieldDefinition
    | Row(key: Key)
    | RefValue(target: Option<Id>)
    | TextValue
    | OtherKind

  datatype ConfigNode = ConfigNode(kind: NodeKind, children: seq<Id>, text: string)

  type ConfigDoc = map<Id, ConfigNode>

  // ----- Reading: the projection -----

  predicate IsRow(doc: ConfigDoc, c: Id, key: Key) {
    c in doc && doc[c].kind == Row(key)
  }

  /** `configRowsByKey` keeps, for each key, the last child that is a row of it. */
  function LastRow(doc: ConfigDoc, children: seq<Id>, key: Key): Option<Id> {
    if children == [] then None
    else if IsRow(doc, children[|children| - 1], key) then Some(children[|children| - 1])
    else LastRow(doc, children[..|children| - 1], key)
  }

  method ConfigRowsByKey(doc: ConfigDoc, def: Id) returns (rows: map<Key, Id>)
    requires def in doc
    ensures forall key :: (key in rows <==> RowOf(doc, def, key).Some?) && (key in rows ==> Some(rows[key]) == RowOf(doc, def, key))
  {
    rows := map[];
    var children, i := doc[def].children, 0;
    while i < |children|
      invariant 0 <= i <= |children|
      invariant forall key :: key in rows <==> LastRow(doc, children[..i], key).Some?
      invariant forall key :: key in rows ==> Some(rows[key]) == LastRow(doc, children[..i], key)
    {
      assert children[..i + 1][..i] == children[..i];
      var c := children[i];
      if c in doc && doc[c].kind.Row? { rows := rows[doc[c].kind.key := c]; }
      i := i + 1;
    }
    assert children[..i] == children;
  }

  function RowOf(doc: ConfigDoc, def: Id, key: Key): Option<Id> {
    if def in doc then LastRow(doc, doc[def].children, key) else None
  }

  /** The value nodes under a row, without what lies below them. */
  function Values(doc: ConfigDoc, children: seq<Id>): seq<ConfigNode> {
    if children == [] then []
    else (if children[0] in doc then [doc[children[0]].(children := [])] else []) + Values(doc, children[1..])
  }

  function ValuesOf(doc: ConfigDoc, row: Option<Id>): seq<ConfigNode> {
    if row.Some? && row.value in doc then Values(doc, doc[row.value].children) else []
  }

  function FirstText(values: seq<ConfigNode>): Option<string> {
    if values == [] then None
    else if !values[0].kind.RefValue? then Some(values[0].text)
    else FirstText(values[1..])
  }

  function FirstTarget(values: seq<ConfigNode>): Option<Id> {
    if values == [] then None
    else if values[0].kind.RefValue? then values[0].kind.target
    else FirstTarget(values[1..])
  }

  function Targets(values: seq<ConfigNode>): seq<Id> {
    if values == [] then []
    else (if values[0].kind.RefValue? && values[0].kind.target.Some? then [values[0].kind.target.value] else []) + Targets(values[1..])
  }

  function OptionText(doc: ConfigDoc, option: Id): Option<string> {
    if option in doc then Some(doc[option].text) else None
  }

  function OptionTexts(doc: ConfigDoc, options: seq<Id>): seq<string> {
    if options == [] then []
    else
      var text := OptionText(doc, options[0]);
      (if text.Some? && text.value != "" then [text.value] else []) + OptionTexts(doc, options[1..])
  }

  datatype Value =
    | Scalar(text: Option<string>)
    | Target(id: Option<Id>)
    | TargetList(ids: seq<Id>)
    | Chosen(value: Option<string>)
    | ChosenList(values: seq<string>)

  /** What is read for a key of a definition. */
  function Read(doc: ConfigDoc, def: Id, key: Key): Value {
    ReadRow(doc, ValuesOf(doc, RowOf(doc, def, key)), key)
  }

  function ReadRow(doc: ConfigDoc, values: seq<ConfigNode>, key: Key): Value {
    match DomainOf(key)
    case Ref => Target(FirstTarget(values))
    case RefList => TargetList(Targets(values))
    case Choice(_, _) => Chosen(if FirstTarget(values).Some? then OptionText(doc, FirstTarget(values).value) else None)
    case ChoiceList(_, _) => ChosenList(OptionTexts(doc, Targets(values)))
    case _ => Scalar(FirstText(values))
  }

  datatype TagConfig = TagConfig(
    color: Option<string>, extends_: Option<Id>, childSupertag: Option<Id>, showCheckbox: bool, doneStateEnabled: bool,
    doneMapChecked: seq<Id>, doneMapUnchecked: seq<Id>)

  function BoolOr(value: Value, otherwise: bool): bool
    requires value.Scalar?
  {
    var decoded := DecodeBool(if value.text.Some? then value.text.value else "");
    if decoded.Some? then decoded.value else otherwise
  }

  /** `projectTagConfig`. */
  function ProjectTag(doc: ConfigDoc, def: Id): TagConfig {
    var color := Read(doc, def, Color).text;
    TagConfig(
      if color.Some? then DecodeColor(color.value) else None,
      Read(doc, def, Extends).id, Read(doc, def, ChildSupertag).id,
      BoolOr(Read(doc, def, ShowCheckbox), false), BoolOr(Read(doc, def, DoneStateEnabled), false),
      Read(doc, def, DoneMapChecked).ids, Read(doc, def, DoneMapUnchecked).ids)
  }

  datatype FieldConfig = FieldConfig(
    fieldType: string, sourceSupertag: Option<Id>, nullable: bool, hideField: string, autoInitialize: seq<string>,
    autocollectOptions: bool, minValue: Option<real>, maxValue: Option<real>)

  function NumberOf(numbers: Numbers, value: Value): Option<real>
    requires value.Scalar?
  {
    if value.text.Some? then numbers.decode(value.text.value) else None
  }

  function ChosenOr(value: Value, otherwise: string): string
    requires value.Chosen?
  {
    if value.value.Some? then value.value.value else otherwise
  }

  /** `projectFieldConfig`. */
  function ProjectField(numbers: Numbers, doc: ConfigDoc, def: Id): FieldConfig {
    FieldConfig(
      ChosenOr(Read(doc, def, FieldType), "plain"), Read(doc, def, SourceSupertag).id, BoolOr(Read(doc, def, Nullable), true),
      ChosenOr(Read(doc, def, HideField), "never"), Read(doc, def, AutoInitialize).values,
      BoolOr(Read(doc, def, AutocollectOptions), false),
      NumberOf(numbers, Read(doc, def, MinValue)), NumberOf(numbers, Read(doc, def, MaxValue)))
  }

  // ----- Writing -----

  datatype Input =
    | ScalarInput(text: Option<string>)
    | RefInput(target: Option<Id>)
    | RefListInput(targets: seq<Id>)
    | EnumInput(value: Option<string>)
    | EnumListInput(values: seq<string>)

  function Expects(key: Key, input: Input): bool {
    match DomainOf(key)
    case Ref => input.RefInput?
    case RefList => input.RefListInput?
    case Choice(_, _) => input.EnumInput?
    case ChoiceList(_, _) => input.EnumListInput?
    case _ => input.ScalarInput?
  }

  predicate Allowed(doc: ConfigDoc, def: Id, key: Key) {
    def in doc && if ForTags(key) then doc[def].kind.TagDefinition? else doc[def].kind.FieldDefinition?
  }

  function RefNode(target: Id): ConfigNode {
    ConfigNode(RefValue(Some(target)), [], "")
  }

  function RefNodes(targets: seq<Id>): seq<ConfigNode> {
    if targets == [] then [] else [RefNode(targets[0])] + RefNodes(targets[1..])
  }

  function Options(subtree: string, values: seq<string>): seq<Id> {
    if values == [] then [] else [OptionId(subtree, values[0])] + Options(subtree, values[1..])
  }

  /** `prepareConfigValueDirect`: the value nodes to write, or a refusal before anything is written. */
  function Prepared(numbers: Numbers, doc: ConfigDoc, def: Id, key: Key, input: Input): Result<seq<ConfigNode>> {
    if def !in doc then Err(InvalidOperation)
    else if !Expects(key, input) || !Allowed(doc, def, key) then Err(InvalidOperation)
    else match input
    case ScalarInput(text) =>
      if text.None? || Trim(text.value) == "" then Ok([])
      else
        var canonical := Canonical(numbers, DomainOf(key), text.value);
        if canonical.None? then Err(InvalidOperation) else Ok([ConfigNode(TextValue, [], canonical.value)])
    case RefInput(target) =>
      if target.None? then Ok([]) else if target.value !in doc then Err(InvalidOperation) else Ok([RefNode(target.value)])
    case RefListInput(targets) =>
      if exists t :: t in targets && t !in doc then Err(InvalidOperation) else Ok(RefNodes(targets))
    case EnumInput(value) =>
      if value.None? then Ok([])
      else if value.value !in DomainOf(key).values then Err(InvalidOperation)
      else Ok([RefNode(OptionId(DomainOf(key).subtree, value.value))])
    case EnumListInput(values) =>
      if exists v :: v in values && v !in DomainOf(key).values then Err(InvalidOperation)
      else Ok(RefNodes(Options(DomainOf(key).subtree, values)))
  }

  /** Which keys a definition has. */
  predicate Has(kind: NodeKind, key: Key) {
    if kind.TagDefinition? then key in {Color, Extends, ChildSupertag, ShowCheckbox, DoneStateEnabled, DoneMapChecked, DoneMapUnchecked}
    else kind.FieldDefinition? && key in {FieldType, SourceSupertag, AutocollectOptions, AutoInitialize, Nullable, HideField, MinValue, MaxValue}
  }

  predicate IsBlank(text: string) {
    forall i :: 0 <= i < |text| ==> IsSpace(text[i])
  }

  /** What may be written under a key. */
  predicate IsValid(numbers: Numbers, doc: ConfigDoc, key: Key, input: Input) {
    match key
    case Color => input.ScalarInput? && (input.text.Some? && !IsBlank(input.text.value) ==> Trim(input.text.value) in COLORS)
    case Extends => input.RefInput? && (input.target.Some? ==> input.target.value in doc)
    case ChildSupertag => input.RefInput? && (input.target.Some? ==> input.target.value in doc)
    case SourceSupertag => input.RefInput? && (input.target.Some? ==> input.target.value in doc)
    case DoneMapChecked => input.RefListInput? && forall t :: t in input.targets ==> t in doc
    case DoneMapUnchecked => input.RefListInput? && forall t :: t in input.targets ==> t in doc
    case FieldType => input.EnumInput? && (input.value.Some? ==> input.value.value in FIELD_TYPES)
    case HideField => input.EnumInput? && (input.value.Some? ==> input.value.value in HIDE_MODES)
    case AutoInitialize => input.EnumListInput? && forall v :: v in input.values ==> v in AUTO_INIT
    case MinValue => input.ScalarInput? && (input.text.Some? && !IsBlank(input.text.value) ==> numbers.decode(input.text.value).Some?)
    case MaxValue => input.ScalarInput? && (input.text.Some? && !IsBlank(input.text.value) ==> numbers.decode(input.text.value).Some?)
    case _ => input.ScalarInput? && (input.text.Some? && !IsBlank(input.text.value) ==> Lower(Trim(input.text.value)) in {"true", "false"})
  }

  lemma {:induction false} BlankStart(s: string)
    ensures TrimStart(s) == "" <==> IsBlank(s)
    ensures TrimStart(s) != "" ==> !IsSpace(TrimStart(s)[0])
  {
    hide IsSpace;
    if s != "" && IsSpace(s[0]) {
      BlankStart(s[1..]);
      assert s == [s[0]] + s[1..];
    }
  }

  lemma {:induction false} BlankEnd(s: string)
    requires s != "" && !IsSpace(s[0])
    ensures TrimEnd(s) != ""
  {
    hide IsSpace;
    if IsSpace(s[|s| - 1]) { BlankEnd(s[..|s| - 1]); }
  }

  lemma BlankTrimmed(s: string)
    ensures Trim(s) == "" <==> IsBlank(s)
  {
    BlankStart(s);
    hide IsSpace, IsBlank;
    if TrimStart(s) != "" { BlankEnd(TrimStart(s)); }
  }

  lemma ReadableText(numbers: Numbers, key: Key, text: string)
    requires !DomainOf(key).Ref? && !DomainOf(key).RefList? && !HasOptions(key)
    ensures Canonical(numbers, DomainOf(key), text).Some? <==>
      match key
      case Color => Trim(text) in COLORS
      case MinValue => numbers.decode(text).Some?
      case MaxValue => numbers.decode(text).Some?
      case _ => Lower(Trim(text)) in {"true", "false"}
  {
    hide Trim, Lower, COLORS;
  }

  /** A write is accepted exactly for a definition that has the key and an input that is valid for it. */
  lemma AcceptedExactly(numbers: Numbers, doc: ConfigDoc, def: Id, key: Key, input: Input)
    ensures Prepared(numbers, doc, def, key, input).Ok? <==> def in doc && Has(doc[def].kind, key) && IsValid(numbers, doc, key, input)
  {
    AllowedExactly(doc, def, key);
    hide Has, Allowed, IsValid, Prepared;
    if input.ScalarInput? { ScalarAccepted(numbers, doc, def, key, input); } else { ChoiceAccepted(numbers, doc, def, key, input); }
  }

  lemma AllowedExactly(doc: ConfigDoc, def: Id, key: Key)
    ensures Allowed(doc, def, key) <==> def in doc && Has(doc[def].kind, key)
  {
  }

  lemma ScalarAccepted(numbers: Numbers, doc: ConfigDoc, def: Id, key: Key, input: Input)
    requires input.ScalarInput?
    ensures Prepared(numbers, doc, def, key, input).Ok? <==> Allowed(doc, def, key) && IsValid(numbers, doc, key, input)
  {
    if input.text.Some? {
      BlankTrimmed(input.text.value);
      if Expects(key, input) { ReadableText(numbers, key, input.text.value); }
    }
    hide Trim, Lower, IsBlank, COLORS, Canonical, Allowed;
  }

  lemma ChoiceAccepted(numbers: Numbers, doc: ConfigDoc, def: Id, key: Key, input: Input)
    requires !input.ScalarInput?
    ensures Prepared(numbers, doc, def, key, input).Ok? <==> Allowed(doc, def, key) && IsValid(numbers, doc, key, input)
  {
    hide RefNodes, Options, OptionId, Canonical, FIELD_TYPES, HIDE_MODES, AUTO_INIT;
  }

  /** What a valid input should read back as. */
  function Meant(numbers: Numbers, key: Key, input: Input): Value
    requires Expects(key, input)
  {
    match input
    case ScalarInput(text) =>
      Scalar(if text.None? || Trim(text.value) == "" then None else Canonical(numbers, DomainOf(key), text.value))
    case RefInput(target) => Target(target)
    case RefListInput(targets) => TargetList(targets)
    case EnumInput(value) => Chosen(value)
    case EnumListInput(values) => ChosenList(values)
  }

  /** `ensureConfigRowDirect`: a missing row is created in front of the definition's children. */
  function WithRow(doc: ConfigDoc, def: Id, key: Key): ConfigDoc
    requires def in doc
  {
    var row := RowId(def, key);
    if row in doc then doc
    else doc[row := ConfigNode(Row(key), [], KeyName(key))][def := doc[def].(children := [row] + doc[def].children)]
  }

  /** `clearConfigValueChildrenDirect`, where the values are leaves. */
  function Cleared(doc: ConfigDoc, row: Id): ConfigDoc
    requires row in doc
  {
    (doc - Members(doc[row].children))[row := doc[row].(children := [])]
  }

  /** New values at the end of the row. */
  function Filled(doc: ConfigDoc, row: Id, nodes: seq<ConfigNode>, ids: seq<Id>): ConfigDoc
    requires row in doc && |ids| >= |nodes|
  {
    if nodes == [] then doc
    else
      var n := |nodes| - 1;
      var before := Filled(doc, row, nodes[..n], ids);
      if row in before then before[ids[n] := nodes[n]][row := before[row].(children := before[row].children + [ids[n]])] else before
  }

  function Rewritten(doc: ConfigDoc, def: Id, key: Key, nodes: seq<ConfigNode>, ids: seq<Id>): ConfigDoc
    requires def in doc && |ids| >= |nodes|
  {
    Filled(Cleared(WithRow(doc, def, key), RowId(def, key)), RowId(def, key), nodes, ids)
  }

  /** Nothing has `x` as a child or as a target. */
  ghost predicate Unmentioned(doc: ConfigDoc, x: Id) {
    forall n :: n in doc ==> x !in doc[n].children && doc[n].kind != RefValue(Some(x))
  }

  /** The old values of the row: leaves, and under no other node. */
  ghost predicate QuietValues(doc: ConfigDoc, row: Id) {
    row in doc ==> forall v :: v in doc[row].children ==>
      && v != row && (v in doc ==> doc[v].children == [] && (doc[v].kind.RefValue? || doc[v].kind.TextValue?))
      && forall n :: n in doc && n != row ==> v !in doc[n].children
  }

  predicate HasOptions(key: Key) {
    DomainOf(key).Choice? || DomainOf(key).ChoiceList?
  }

  /** A value under a row of options points at `t`. */
  predicate Picks(doc: ConfigDoc, q: Id, c: Id, t: Id) {
    q in doc && doc[q].kind.Row? && HasOptions(doc[q].kind.key) && c in doc[q].children && c in doc && doc[c].kind == RefValue(Some(t))
  }

  /** No option picked under another row is an old value of the row. */
  ghost predicate Unpicked(doc: ConfigDoc, row: Id) {
    forall q, c, t :: Picks(doc, q, c, t) && q != row ==> t !in OldValues(doc, row)
  }

  ghost predicate NewIds(doc: ConfigDoc, row: Id, ids: seq<Id>) {
    && (forall i, j :: 0 <= i < j < |ids| ==> ids[i] != ids[j])
    && (forall x :: x in ids ==> x !in doc && x != row && Unmentioned(doc, x))
    && (row !in doc ==> Unmentioned(doc, row))
  }

  class Core {
    var doc: ConfigDoc

    /**
     * `setConfigValue`: refused before anything is written, or the row holds exactly the new values. In an orderly document
     * the key then reads as the input meant, every other key of every definition as before, and the rows stay in order.
     */
    method SetConfigValue(numbers: Numbers, def: Id, key: Key, input: Input, ids: seq<Id>) returns (r: Result<bool>)
      requires Prepared(numbers, doc, def, key, input).Ok? ==>
        && QuietValues(doc, RowId(def, key)) && NewIds(doc, RowId(def, key), ids)
        && |ids| >= |Prepared(numbers, doc, def, key, input).value|
      modifies this
      ensures r.Ok? <==> Prepared(numbers, old(doc), def, key, input).Ok?
      ensures r.Err? ==> doc == old(doc)
      ensures r.Ok? ==> def in old(doc) && doc == Rewritten(old(doc), def, key, Prepared(numbers, old(doc), def, key, input).value, ids)
      ensures r.Ok? ==> Expects(key, input)
      ensures Orderly(old(doc)) && FreshIds(old(doc), ids) ==> Orderly(doc)
      ensures Orderly(old(doc)) && FreshIds(old(doc), ids) ==> forall d, k :: IsDefinition(old(doc), d) ==>
        Read(doc, d, k) == if r.Ok? && d == def && k == key then Meant(numbers, key, input) else Read(old(doc), d, k)
    {
      var prepared := Prepared(numbers, doc, def, key, input);
      if prepared.Err? { return Err(prepared.error); }
      assert RowId(def, key) !in ids;
      AllReads(numbers, doc, Edit(def, key, input, ids));
      RowIdsDiffer(def, key, def, key);
      assert Expects(key, input);
      hide Prepared, QuietValues, NewIds, Orderly, FreshIds, RowId, KeyName, Read, Meant;
      var row := RowId(def, key);
      if row !in doc {
        doc := doc[row := ConfigNode(Row(key), [], KeyName(key))][def := doc[def].(children := [row] + doc[def].children)];
      }
      NoSelfChild(old(doc), def, key);
      ClearValues(row);
      FillValues(row, prepared.value, ids);
      r := Ok(true);
    }

    method ClearValues(row: Id)
      requires row in doc && row !in doc[row].children
      modifies this
      ensures row in old(doc) && doc == Cleared(old(doc), row)
    {
      var children, i := doc[row].children, 0;
      assert children[0..] == children;
      while i < |children|
        invariant 0 <= i <= |children|
        invariant doc == (old(doc) - Members(children[..i]))[row := old(doc)[row].(children := children[i..])]
      {
        assert children[..i + 1] == children[..i] + [children[i]] && children[i..][1..] == children[i + 1..];
        doc := (doc - {children[i]})[row := doc[row].(children := doc[row].children[1..])];
        i := i + 1;
      }
      assert children[..i] == children && children[i..] == [];
    }

    method FillValues(row: Id, nodes: seq<ConfigNode>, ids: seq<Id>)
      requires row in doc && |ids| >= |nodes| && row !in ids
      modifies this
      ensures row in old(doc) && doc == Filled(old(doc), row, nodes, ids)
    {
      var i := 0;
      while i < |nodes|
        invariant 0 <= i <= |nodes| && row in doc && doc == Filled(old(doc), row, nodes[..i], ids)
      {
        assert nodes[..i + 1][..i] == nodes[..i];
        doc := doc[ids[i] := nodes[i]][row := doc[row].(children := doc[row].children + [ids[i]])];
        i := i + 1;
      }
      assert nodes[..i] == nodes;
    }
  }

  lemma NoSelfChild(doc: ConfigDoc, def: Id, key: Key)
    requires def in doc && QuietValues(doc, RowId(def, key)) && def != RowId(def, key)
    ensures var row, after := RowId(def, key), WithRow(doc, def, key);
      row in after && row !in after[row].children
  {
  }

  // ----- The document after a write -----

  ghost predicate Fits(doc: ConfigDoc, def: Id, key: Key, nodes: seq<ConfigNode>, ids: seq<Id>) {
    && def in doc && def != RowId(def, key) && |ids| >= |nodes| && IsDefinition(doc, def)
    && QuietValues(doc, RowId(def, key)) && Unpicked(doc, RowId(def, key)) && NewIds(doc, RowId(def, key), ids)
  }

  predicate IsDefinition(doc: ConfigDoc, d: Id) {
    d in doc && (doc[d].kind.TagDefinition? || doc[d].kind.FieldDefinition?)
  }

  function OldValues(doc: ConfigDoc, row: Id): set<Id> {
    if row in doc then Members(doc[row].children) else {}
  }

  ghost predicate Holds(after: ConfigDoc, nodes: seq<ConfigNode>, ids: seq<Id>) {
    |ids| == |nodes| && forall i :: 0 <= i < |nodes| ==> ids[i] in after && after[ids[i]] == nodes[i]
  }

  ghost predicate IsFilled(doc: ConfigDoc, row: Id, nodes: seq<ConfigNode>, ids: seq<Id>, after: ConfigDoc) {
    && row in doc && row in after && after[row] == doc[row].(children := doc[row].children + ids)
    && Holds(after, nodes, ids)
    && (forall n :: n != row && n !in ids ==> (n in after <==> n in doc) && (n in doc ==> after[n] == doc[n]))
  }

  lemma {:induction false} FilledShape(doc: ConfigDoc, row: Id, nodes: seq<ConfigNode>, ids: seq<Id>)
    requires row in doc && |ids| >= |nodes| && row !in ids
    requires forall i, j :: 0 <= i < j < |ids| ==> ids[i] != ids[j]
    ensures IsFilled(doc, row, nodes, ids[..|nodes|], Filled(doc, row, nodes, ids))
  {
    if nodes == [] {
      assert doc[row].children + ids[..0] == doc[row].children;
    } else {
      var n := |nodes| - 1;
      FilledShape(doc, row, nodes[..n], ids);
      var before := Filled(doc, row, nodes[..n], ids);
      LastIsNew(ids, n);
      FilledLast(doc, row, nodes, ids);
      hide Filled, Holds, IsFilled;
      assert nodes == nodes[..n] + [nodes[n]];
      FilledByOne(doc, row, nodes[..n], ids[..n], before, nodes[n], ids[n]);
    }
  }

  lemma LastIsNew(ids: seq<Id>, n: nat)
    requires n < |ids| && forall i, j :: 0 <= i < j < |ids| ==> ids[i] != ids[j]
    ensures ids[..n + 1] == ids[..n] + [ids[n]] && ids[n] !in ids[..n] && ids[n] in ids
    ensures forall x :: x in ids[..n] ==> x in ids
  {
  }

  lemma FilledLast(doc: ConfigDoc, row: Id, nodes: seq<ConfigNode>, ids: seq<Id>)
    requires nodes != [] && row in doc && |ids| >= |nodes|
    ensures var n, before := |nodes| - 1, Filled(doc, row, nodes[..|nodes| - 1], ids);
      row in before ==>
        Filled(doc, row, nodes, ids) == before[ids[n] := nodes[n]][row := before[row].(children := before[row].children + [ids[n]])]
  {
  }

  lemma FilledByOne(doc: ConfigDoc, row: Id, nodes: seq<ConfigNode>, ids: seq<Id>, before: ConfigDoc, node: ConfigNode, x: Id)
    requires IsFilled(doc, row, nodes, ids, before) && x !in ids && x != row && row !in ids
    ensures row in before
    ensures IsFilled(doc, row, nodes + [node], ids + [x], before[x := node][row := before[row].(children := before[row].children + [x])])
  {
    var after := before[x := node][row := before[row].(children := before[row].children + [x])];
    assert doc[row].children + ids + [x] == doc[row].children + (ids + [x]);
    HoldsOneMore(row, nodes, ids, before, node, x, after);
    hide Holds;
    assert after[row].children == doc[row].children + (ids + [x]);
    assert x in ids + [x] && forall n :: n !in ids + [x] ==> n !in ids && n != x;
  }

  lemma HoldsOneMore(row: Id, nodes: seq<ConfigNode>, ids: seq<Id>, before: ConfigDoc, node: ConfigNode, x: Id, after: ConfigDoc)
    requires Holds(before, nodes, ids) && x !in ids && x != row && row !in ids
    requires x in after && after[x] == node && forall n :: n in before && n != x && n != row ==> n in after && after[n] == before[n]
    ensures Holds(after, nodes + [node], ids + [x])
  {
    forall i | 0 <= i <= |nodes| ensures (ids + [x])[i] in after && after[(ids + [x])[i]] == (nodes + [node])[i] {
      if i < |nodes| { assert ids[i] in ids; }
    }
  }

  /** Kind and text of a node are as they were. */
  predicate SameFace(doc: ConfigDoc, after: ConfigDoc, n: Id) {
    n in doc && n in after && after[n].kind == doc[n].kind && after[n].text == doc[n].text
  }

  ghost predicate IsRewritten(doc: ConfigDoc, def: Id, row: Id, key: Key, nodes: seq<ConfigNode>, ids: seq<Id>, after: ConfigDoc) {
    && |ids| >= |nodes| && def in doc && row in after && after[row].children == ids[..|nodes|]
    && after[row].kind == (if row in doc then doc[row].kind else Row(key))
    && (forall i :: 0 <= i < |nodes| ==> ids[i] in after && after[ids[i]] == nodes[i])
    && (forall n :: n in doc && n !in OldValues(doc, row) ==> SameFace(doc, after, n))
    && (forall n :: n in doc && n !in OldValues(doc, row) && n != row && n != def ==> n in after && after[n] == doc[n])
    && def in after && after[def].children == (if row in doc then doc[def].children else [row] + doc[def].children)
    && (forall n :: n in after && n !in doc ==> n == row || n in ids[..|nodes|])
    && (forall n :: n in OldValues(doc, row) ==> n !in after)
  }

  ghost predicate IsCleared(doc: ConfigDoc, def: Id, row: Id, key: Key, after: ConfigDoc) {
    && (forall n :: n in after <==> n == row || (n in doc && n !in OldValues(doc, row)))
    && row in after && after[row].children == [] && after[row].kind == (if row in doc then doc[row].kind else Row(key))
    && (row in doc ==> after[row].text == doc[row].text)
    && (forall n :: n in doc && n !in OldValues(doc, row) && n != row && n != def ==> after[n] == doc[n])
    && def in doc && def in after && after[def].kind == doc[def].kind && after[def].text == doc[def].text
    && after[def].children == (if row in doc then doc[def].children else [row] + doc[def].children)
  }

  lemma ClearedShape(doc: ConfigDoc, def: Id, key: Key)
    requires def in doc && def != RowId(def, key) && IsDefinition(doc, def) && QuietValues(doc, RowId(def, key))
    ensures IsCleared(doc, def, RowId(def, key), key, Cleared(WithRow(doc, def, key), RowId(def, key)))
  {
    var row := RowId(def, key);
    assert def !in OldValues(doc, row) && row !in OldValues(doc, row);
    hide RowId, KeyName;
  }

  lemma RewrittenShape(doc: ConfigDoc, def: Id, key: Key, nodes: seq<ConfigNode>, ids: seq<Id>)
    requires Fits(doc, def, key, nodes, ids)
    ensures IsRewritten(doc, def, RowId(def, key), key, nodes, ids, Rewritten(doc, def, key, nodes, ids))
  {
    var row := RowId(def, key);
    ClearedShape(doc, def, key);
    var cleared := Cleared(WithRow(doc, def, key), row);
    FilledShape(cleared, row, nodes, ids);
    NewIdsOutside(doc, row, ids, |nodes|);
    assert row !in OldValues(doc, row) && def !in OldValues(doc, row);
    assert def !in ids[..|nodes|];
    hide Filled, RowId, KeyName, Cleared, WithRow, Fits, IsCleared, IsFilled, IsRewritten;
    RewrittenBy(doc, def, row, key, nodes, ids, cleared, Filled(cleared, row, nodes, ids));
  }

  lemma NewIdsOutside(doc: ConfigDoc, row: Id, ids: seq<Id>, n: nat)
    requires NewIds(doc, row, ids) && n <= |ids|
    ensures forall x :: x in ids[..n] ==> x in ids && x !in doc && x != row && x !in OldValues(doc, row)
  {
    forall x | x in ids[..n] ensures x in ids && x !in doc && x != row && x !in OldValues(doc, row) {
      assert Unmentioned(doc, x);
    }
  }

  lemma RewrittenBy(doc: ConfigDoc, def: Id, row: Id, key: Key, nodes: seq<ConfigNode>, ids: seq<Id>, cleared: ConfigDoc, after: ConfigDoc)
    requires IsCleared(doc, def, row, key, cleared) && |ids| >= |nodes| && def != row && row !in OldValues(doc, row) && def !in OldValues(doc, row)
    requires forall x :: x in ids[..|nodes|] ==> x in ids && x !in doc && x != row && x !in OldValues(doc, row)
    requires IsFilled(cleared, row, nodes, ids[..|nodes|], after)
    ensures IsRewritten(doc, def, row, key, nodes, ids, after)
  {
    hide OldValues, IsCleared, IsFilled, Holds;
    RowAndDefinition(doc, def, row, key, nodes, ids[..|nodes|], cleared, after);
    NodesWritten(nodes, ids, after);
    OthersRewritten(doc, def, row, key, nodes, ids, cleared, after);
  }

  lemma NodesWritten(nodes: seq<ConfigNode>, ids: seq<Id>, after: ConfigDoc)
    requires |ids| >= |nodes| && Holds(after, nodes, ids[..|nodes|])
    ensures forall i :: 0 <= i < |nodes| ==> ids[i] in after && after[ids[i]] == nodes[i]
  {
    assert forall i :: 0 <= i < |nodes| ==> ids[i] == ids[..|nodes|][i];
  }

  lemma RowAndDefinition(doc: ConfigDoc, def: Id, row: Id, key: Key, nodes: seq<ConfigNode>, ids: seq<Id>, cleared: ConfigDoc, after: ConfigDoc)
    requires IsCleared(doc, def, row, key, cleared) && IsFilled(cleared, row, nodes, ids, after) && def != row
    requires forall x :: x in ids ==> x !in doc
    ensures Holds(after, nodes, ids) && def in doc && row in after && after[row].children == ids
    ensures after[row].kind == (if row in doc then doc[row].kind else Row(key)) && (row in doc ==> after[row].text == doc[row].text)
    ensures def in after && after[def].kind == doc[def].kind && after[def].text == doc[def].text
    ensures after[def].children == (if row in doc then doc[def].children else [row] + doc[def].children)
  {
    hide Holds, OldValues;
    assert def !in ids && after[def] == cleared[def];
    assert [] + ids == ids;
  }

  lemma OthersRewritten(doc: ConfigDoc, def: Id, row: Id, key: Key, nodes: seq<ConfigNode>, ids: seq<Id>, cleared: ConfigDoc, after: ConfigDoc)
    requires |ids| >= |nodes| && IsCleared(doc, def, row, key, cleared) && IsFilled(cleared, row, nodes, ids[..|nodes|], after)
    requires forall x :: x in ids[..|nodes|] ==> x in ids && x !in doc && x != row && x !in OldValues(doc, row)
    requires row !in OldValues(doc, row)
    ensures forall n :: n in doc && n !in OldValues(doc, row) && n != row && n != def ==> n in after && after[n] == doc[n]
    ensures forall n :: n in after && n !in doc ==> n == row || n in ids[..|nodes|]
    ensures forall n :: n in OldValues(doc, row) ==> n !in after
  {
    hide OldValues, Holds;
  }

  // ----- Which row is read after a write -----

  /** If the row is there it is a row of its key, under its definition only. */
  ghost predicate RowPlaced(doc: ConfigDoc, def: Id, key: Key) {
    var row := RowId(def, key);
    row in doc ==> IsRow(doc, row, key) && forall n :: n in doc && n != def ==> row !in doc[n].children
  }

  /** No other row of the key stands behind the one that is written. */
  predicate Visible(doc: ConfigDoc, def: Id, key: Key) {
    if RowId(def, key) in doc then RowOf(doc, def, key) == Some(RowId(def, key)) else RowOf(doc, def, key) == None
  }

  lemma {:induction false} LastRowSame(doc: ConfigDoc, after: ConfigDoc, children: seq<Id>, k: Key)
    requires forall c :: c in children ==> (IsRow(after, c, k) <==> IsRow(doc, c, k))
    ensures LastRow(after, children, k) == LastRow(doc, children, k)
  {
    if children != [] {
      var first := children[..|children| - 1];
      assert children[|children| - 1] in children && forall c :: c in first ==> c in children;
      LastRowSame(doc, after, first, k);
    }
  }

  lemma {:induction false} LastRowFront(doc: ConfigDoc, x: Id, children: seq<Id>, k: Key)
    ensures LastRow(doc, [x] + children, k) ==
      if LastRow(doc, children, k).Some? then LastRow(doc, children, k) else if IsRow(doc, x, k) then Some(x) else None
  {
    if children == [] {
      assert [x] + children == [x] && [x][..0] == [];
    } else {
      var whole := [x] + children;
      assert whole[..|whole| - 1] == [x] + children[..|children| - 1] && whole[|whole| - 1] == children[|children| - 1];
      LastRowFront(doc, x, children[..|children| - 1], k);
    }
  }

  lemma {:induction false} LastRowIn(doc: ConfigDoc, children: seq<Id>, k: Key)
    ensures LastRow(doc, children, k).Some? ==> LastRow(doc, children, k).value in children && IsRow(doc, LastRow(doc, children, k).value, k)
  {
    if children != [] { LastRowIn(doc, children[..|children| - 1], k); }
  }

  ghost predicate Write(doc: ConfigDoc, def: Id, key: Key, nodes: seq<ConfigNode>, ids: seq<Id>, after: ConfigDoc) {
    && Fits(doc, def, key, nodes, ids) && RowPlaced(doc, def, key)
    && IsRewritten(doc, def, RowId(def, key), key, nodes, ids, after)
  }

  /** A child of another node than the row is a row afterwards if it was one before. */
  lemma SameRows(doc: ConfigDoc, def: Id, key: Key, nodes: seq<ConfigNode>, ids: seq<Id>, after: ConfigDoc, d: Id, c: Id, k: Key)
    requires Write(doc, def, key, nodes, ids, after) && IsDefinition(doc, d) && c in doc[d].children
    ensures IsRow(after, c, k) <==> IsRow(doc, c, k)
    ensures c !in ids && (RowId(def, key) !in doc ==> c != RowId(def, key))
  {
    var row := RowId(def, key);
    assert d != row;
    assert c in ids ==> Unmentioned(doc, c);
    assert c !in OldValues(doc, row);
    hide RowId;
    if c in doc { assert SameFace(doc, after, c); }
  }

  lemma RowsAfter(doc: ConfigDoc, def: Id, key: Key, nodes: seq<ConfigNode>, ids: seq<Id>, after: ConfigDoc, d: Id, k: Key)
    requires Write(doc, def, key, nodes, ids, after) && IsDefinition(doc, d)
    ensures RowOf(after, d, k) ==
      if d == def && k == key && RowId(def, key) !in doc && RowOf(doc, d, k).None? then Some(RowId(def, key)) else RowOf(doc, d, k)
  {
    var row := RowId(def, key);
    DefinitionStays(doc, def, key, nodes, ids, after, d);
    hide Write, LastRow, RowId, IsRow, Fits, IsRewritten, RowPlaced;
    forall c | c in doc[d].children ensures IsRow(after, c, k) <==> IsRow(doc, c, k) {
      SameRows(doc, def, key, nodes, ids, after, d, c, k);
    }
    LastRowSame(doc, after, doc[d].children, k);
    if d == def && row !in doc {
      LastRowFront(after, row, doc[d].children, k);
      RowOfOneKey(after, row, key, k);
    }
  }

  lemma RowOfOneKey(doc: ConfigDoc, row: Id, key: Key, k: Key)
    requires IsRow(doc, row, key)
    ensures IsRow(doc, row, k) <==> k == key
  {
  }

  lemma DefinitionStays(doc: ConfigDoc, def: Id, key: Key, nodes: seq<ConfigNode>, ids: seq<Id>, after: ConfigDoc, d: Id)
    requires Write(doc, def, key, nodes, ids, after) && IsDefinition(doc, d)
    ensures d in after && d != RowId(def, key)
    ensures after[d].children == if d == def && RowId(def, key) !in doc then [RowId(def, key)] + doc[d].children else doc[d].children
    ensures RowId(def, key) in after && (RowId(def, key) !in doc ==> IsRow(after, RowId(def, key), key))
  {
    assert d !in OldValues(doc, RowId(def, key));
    hide RowId;
  }

  // ----- What other rows say -----

  lemma {:induction false} SameValues(doc: ConfigDoc, after: ConfigDoc, children: seq<Id>)
    requires forall c :: c in children ==> (c in doc <==> c in after) && (c in doc ==> SameFace(doc, after, c))
    ensures Values(after, children) == Values(doc, children)
  {
    if children != [] {
      assert children[0] in children && forall c :: c in children[1..] ==> c in children;
      SameValues(doc, after, children[1..]);
    }
  }

  lemma RowKeepsValues(doc: ConfigDoc, def: Id, key: Key, nodes: seq<ConfigNode>, ids: seq<Id>, after: ConfigDoc, q: Id)
    requires Write(doc, def, key, nodes, ids, after) && q in doc && doc[q].kind.Row? && q != RowId(def, key)
    ensures ValuesOf(after, Some(q)) == ValuesOf(doc, Some(q))
  {
    var row := RowId(def, key);
    assert q !in OldValues(doc, row) && q != def && after[q] == doc[q];
    forall c | c in doc[q].children ensures (c in doc <==> c in after) && (c in doc ==> SameFace(doc, after, c)) {
      assert c in ids ==> Unmentioned(doc, c);
      assert c !in OldValues(doc, row);
    }
    SameValues(doc, after, doc[q].children);
  }

  lemma SameOption(doc: ConfigDoc, def: Id, key: Key, nodes: seq<ConfigNode>, ids: seq<Id>, after: ConfigDoc, q: Id, c: Id, t: Id)
    requires Write(doc, def, key, nodes, ids, after) && Picks(doc, q, c, t) && q != RowId(def, key)
    ensures OptionText(after, t) == OptionText(doc, t)
  {
    var row := RowId(def, key);
    assert t in ids ==> Unmentioned(doc, t);
    assert t !in OldValues(doc, row);
    if t in doc { assert SameFace(doc, after, t); }
  }

  /** Every target read off value nodes is the target of one of them. */
  ghost predicate Sourced(doc: ConfigDoc, children: seq<Id>, t: Id) {
    exists c :: c in children && c in doc && doc[c].kind == RefValue(Some(t))
  }

  lemma {:induction false} TargetsSourced(doc: ConfigDoc, children: seq<Id>)
    ensures FirstTarget(Values(doc, children)).Some? ==> Sourced(doc, children, FirstTarget(Values(doc, children)).value)
    ensures forall t :: t in Targets(Values(doc, children)) ==> Sourced(doc, children, t)
  {
    if children != [] {
      TargetsSourced(doc, children[1..]);
      var head, rest := children[0], Values(doc, children[1..]);
      assert forall t :: Sourced(doc, children[1..], t) ==> Sourced(doc, children, t);
      if head in doc {
        var v := doc[head].(children := []);
        assert ([v] + rest)[0] == v && ([v] + rest)[1..] == rest;
        assert v.kind == doc[head].kind;
        assert head in children;
      } else {
        assert [] + rest == rest;
      }
    }
  }

  lemma {:induction false} SameOptionTexts(doc: ConfigDoc, after: ConfigDoc, options: seq<Id>)
    requires forall t :: t in options ==> OptionText(after, t) == OptionText(doc, t)
    ensures OptionTexts(after, options) == OptionTexts(doc, options)
  {
    if options != [] {
      assert options[0] in options && forall t :: t in options[1..] ==> t in options;
      SameOptionTexts(doc, after, options[1..]);
    }
  }

  lemma ReadsSame(doc: ConfigDoc, def: Id, key: Key, nodes: seq<ConfigNode>, ids: seq<Id>, after: ConfigDoc, q: Id, k: Key)
    requires Write(doc, def, key, nodes, ids, after) && q != RowId(def, key) && IsRow(doc, q, k)
    ensures ReadRow(after, ValuesOf(doc, Some(q)), k) == ReadRow(doc, ValuesOf(doc, Some(q)), k)
  {
    var children := doc[q].children;
    if HasOptions(k) {
      TargetsSourced(doc, children);
      forall t | Sourced(doc, children, t) ensures OptionText(after, t) == OptionText(doc, t) {
        var c :| c in children && c in doc && doc[c].kind == RefValue(Some(t));
        SameOption(doc, def, key, nodes, ids, after, q, c, t);
      }
      SameOptionTexts(doc, after, Targets(Values(doc, children)));
    }
    hide Write, Sourced, OptionText, FirstTarget, Targets, FirstText, Values;
  }

  // ----- The laws -----

  lemma OtherRowIsRead(doc: ConfigDoc, def: Id, key: Key, d: Id, k: Key)
    requires IsDefinition(doc, d) && RowPlaced(doc, def, key) && !(d == def && k == key && Visible(doc, def, key))
    ensures RowOf(doc, d, k) != Some(RowId(def, key))
    ensures d == def && k == key && RowId(def, key) !in doc ==> RowOf(doc, d, k).Some?
  {
    LastRowIn(doc, doc[d].children, k);
    hide LastRow, RowId;
  }

  /** A write changes what is read for no other key and no other definition; a hidden one not even for its own key. */
  lemma OthersKept(doc: ConfigDoc, def: Id, key: Key, nodes: seq<ConfigNode>, ids: seq<Id>, after: ConfigDoc, d: Id, k: Key)
    requires Write(doc, def, key, nodes, ids, after) && IsDefinition(doc, d)
    requires !(d == def && k == key && Visible(doc, def, key))
    ensures Read(after, d, k) == Read(doc, d, k)
  {
    RowsAfter(doc, def, key, nodes, ids, after, d, k);
    var q := RowOf(doc, d, k);
    LastRowIn(doc, doc[d].children, k);
    OtherRowIsRead(doc, def, key, d, k);
    hide Write, ReadRow, LastRow, RowId, Visible, IsDefinition, RowPlaced;
    if q.Some? {
      RowKeepsValues(doc, def, key, nodes, ids, after, q.value);
      ReadsSame(doc, def, key, nodes, ids, after, q.value, k);
    }
  }

  lemma {:induction false} NewValues(after: ConfigDoc, nodes: seq<ConfigNode>, ids: seq<Id>)
    requires |ids| == |nodes| && forall i :: 0 <= i < |nodes| ==> ids[i] in after && after[ids[i]] == nodes[i] && nodes[i].children == []
    ensures Values(after, ids) == nodes
  {
    if nodes != [] {
      NewValues(after, nodes[1..], ids[1..]);
      assert nodes == [nodes[0]] + nodes[1..];
    }
  }

  lemma {:induction false} RefsReadBack(targets: seq<Id>)
    ensures Targets(RefNodes(targets)) == targets && |RefNodes(targets)| == |targets|
    ensures forall v :: v in RefNodes(targets) ==> v.children == []
  {
    if targets != [] {
      RefsReadBack(targets[1..]);
      var rest := RefNodes(targets[1..]);
      assert ([RefNode(targets[0])] + rest)[1..] == rest;
      assert targets == [targets[0]] + targets[1..];
    }
  }

  /** The options of a key stand in the document under their ids, with their values as text. */
  ghost predicate Seeded(doc: ConfigDoc, subtree: string, values: seq<string>) {
    forall v :: v in values ==> v != "" && OptionText(doc, OptionId(subtree, v)) == Some(v)
  }

  lemma {:induction false} ChoicesReadBack(doc: ConfigDoc, subtree: string, domain: seq<string>, values: seq<string>)
    requires Seeded(doc, subtree, domain) && forall v :: v in values ==> v in domain
    ensures OptionTexts(doc, Options(subtree, values)) == values
  {
    if values != [] {
      assert values[0] in values && forall v :: v in values[1..] ==> v in values;
      ChoicesReadBack(doc, subtree, domain, values[1..]);
      var rest := Options(subtree, values[1..]);
      assert ([OptionId(subtree, values[0])] + rest)[1..] == rest;
      assert values == [values[0]] + values[1..];
    }
  }

  /** What is prepared reads as what was meant. */
  lemma PreparedReadsAs(numbers: Numbers, doc: ConfigDoc, after: ConfigDoc, def: Id, key: Key, input: Input)
    requires Prepared(numbers, doc, def, key, input).Ok?
    requires DomainOf(key).Choice? || DomainOf(key).ChoiceList? ==> Seeded(after, DomainOf(key).subtree, DomainOf(key).values)
    ensures Expects(key, input)
    ensures ReadRow(after, Prepared(numbers, doc, def, key, input).value, key) == Meant(numbers, key, input)
    ensures forall v :: v in Prepared(numbers, doc, def, key, input).value ==> v.children == []
  {
    match input
    case ScalarInput(text) =>
    case RefInput(target) =>
    case RefListInput(targets) => RefsReadBack(targets);
    case EnumInput(value) =>
    case EnumListInput(values) =>
      RefsReadBack(Options(DomainOf(key).subtree, values));
      ChoicesReadBack(after, DomainOf(key).subtree, DomainOf(key).values, values);
  }

  lemma SeededStays(doc: ConfigDoc, def: Id, key: Key, nodes: seq<ConfigNode>, ids: seq<Id>, after: ConfigDoc, subtree: string, values: seq<string>)
    requires Write(doc, def, key, nodes, ids, after) && Seeded(doc, subtree, values)
    requires forall v :: v in values ==> OptionId(subtree, v) !in OldValues(doc, RowId(def, key))
    ensures Seeded(after, subtree, values)
  {
    hide RowId, OptionId;
    forall v | v in values ensures OptionText(after, OptionId(subtree, v)) == Some(v) {
      assert SameFace(doc, after, OptionId(subtree, v));
    }
  }

  /** The written row is the one that is read exactly when it is visible. */
  lemma ReadsTheRow(doc: ConfigDoc, def: Id, key: Key, nodes: seq<ConfigNode>, ids: seq<Id>, after: ConfigDoc)
    requires Write(doc, def, key, nodes, ids, after)
    ensures RowOf(after, def, key) == Some(RowId(def, key)) <==> Visible(doc, def, key)
  {
    RowsAfter(doc, def, key, nodes, ids, after, def, key);
    LastRowIn(doc, doc[def].children, key);
  }

  /** Options needed by a key are there, and not among the values that are dropped. */
  ghost predicate OptionsStand(doc: ConfigDoc, def: Id, key: Key) {
    DomainOf(key).Choice? || DomainOf(key).ChoiceList? ==>
      && Seeded(doc, DomainOf(key).subtree, DomainOf(key).values)
      && forall v :: v in DomainOf(key).values ==> OptionId(DomainOf(key).subtree, v) !in OldValues(doc, RowId(def, key))
  }

  /** Writing a key and reading it gives the canonical value, or nothing after a clear. */
  lemma WriteThenRead(numbers: Numbers, doc: ConfigDoc, def: Id, key: Key, input: Input, ids: seq<Id>)
    requires Prepared(numbers, doc, def, key, input).Ok?
    requires var nodes := Prepared(numbers, doc, def, key, input).value;
      Fits(doc, def, key, nodes, ids) && RowPlaced(doc, def, key) && Visible(doc, def, key) && OptionsStand(doc, def, key)
    ensures Expects(key, input)
    ensures Read(Rewritten(doc, def, key, Prepared(numbers, doc, def, key, input).value, ids), def, key) == Meant(numbers, key, input)
  {
    var nodes := Prepared(numbers, doc, def, key, input).value;
    var after, row := Rewritten(doc, def, key, nodes, ids), RowId(def, key);
    RewrittenShape(doc, def, key, nodes, ids);
    ReadsTheRow(doc, def, key, nodes, ids, after);
    if DomainOf(key).Choice? || DomainOf(key).ChoiceList? {
      SeededStays(doc, def, key, nodes, ids, after, DomainOf(key).subtree, DomainOf(key).values);
    }
    PreparedReadsAs(numbers, doc, after, def, key, input);
    hide Prepared, Rewritten, RowId, Meant, ReadRow, Seeded;
    var written := ids[..|nodes|];
    forall i | 0 <= i < |nodes| ensures written[i] in after && after[written[i]] == nodes[i] && nodes[i].children == [] {
      assert nodes[i] in nodes;
    }
    NewValues(after, nodes, written);
  }

  // ----- The same write again -----

  /** The nodes a reference input points at. */
  function InputTargets(input: Input): set<Id> {
    match input
    case RefInput(target) => if target.Some? then {target.value} else {}
    case RefListInput(targets) => Members(targets)
    case _ => {}
  }

  /** What is prepared from a document with the targets and the options: leaves that point into the document. */
  ghost predicate PlainValues(doc: ConfigDoc, nodes: seq<ConfigNode>) {
    forall i :: 0 <= i < |nodes| ==> nodes[i].children == [] && PointsInside(doc, nodes[i].kind)
  }

  predicate PointsInside(doc: ConfigDoc, kind: NodeKind) {
    kind.TextValue? || (kind.RefValue? && kind.target.Some? && kind.target.value in doc)
  }

  lemma {:induction false} RefsPointInside(doc: ConfigDoc, targets: seq<Id>)
    requires forall t :: t in targets ==> t in doc
    ensures PlainValues(doc, RefNodes(targets))
  {
    if targets != [] {
      assert targets[0] in targets && forall t :: t in targets[1..] ==> t in targets;
      RefsPointInside(doc, targets[1..]);
    }
  }

  lemma {:induction false} OptionsInside(doc: ConfigDoc, subtree: string, domain: seq<string>, values: seq<string>)
    requires Seeded(doc, subtree, domain) && forall v :: v in values ==> v in domain
    ensures forall t :: t in Options(subtree, values) ==> t in doc
  {
    if values != [] {
      assert values[0] in values && forall v :: v in values[1..] ==> v in values;
      OptionsInside(doc, subtree, domain, values[1..]);
    }
  }

  lemma PreparedIsPlain(numbers: Numbers, doc: ConfigDoc, def: Id, key: Key, input: Input)
    requires Prepared(numbers, doc, def, key, input).Ok? && OptionsStand(doc, def, key)
    ensures PlainValues(doc, Prepared(numbers, doc, def, key, input).value)
  {
    match input
    case ScalarInput(text) =>
    case RefInput(target) =>
    case RefListInput(targets) => RefsPointInside(doc, targets);
    case EnumInput(value) =>
      if value.Some? { assert OptionText(doc, OptionId(DomainOf(key).subtree, value.value)).Some?; }
    case EnumListInput(values) =>
      OptionsInside(doc, DomainOf(key).subtree, DomainOf(key).values, values);
      RefsPointInside(doc, Options(DomainOf(key).subtree, values));
  }

  /** Prepared again from a document with the same definition: the same nodes, unless a target has gone. */
  lemma PreparedAgain(numbers: Numbers, doc: ConfigDoc, after: ConfigDoc, def: Id, key: Key, input: Input)
    requires Prepared(numbers, doc, def, key, input).Ok?
    requires def in after && after[def].kind == doc[def].kind
    ensures Prepared(numbers, after, def, key, input).Ok? <==> forall t :: t in InputTargets(input) ==> t in after
    ensures Prepared(numbers, after, def, key, input).Ok? ==>
      Prepared(numbers, after, def, key, input) == Prepared(numbers, doc, def, key, input)
  {
    hide Canonical, Trim, RefNodes, Options;
  }

  /** The values just written are quiet: nothing of the old document knows their ids. */
  lemma QuietAgain(doc: ConfigDoc, def: Id, key: Key, nodes: seq<ConfigNode>, ids: seq<Id>, after: ConfigDoc)
    requires Write(doc, def, key, nodes, ids, after) && PlainValues(doc, nodes)
    ensures QuietValues(after, RowId(def, key)) && Unpicked(after, RowId(def, key))
  {
    var row := RowId(def, key);
    forall v | v in after[row].children
      ensures v != row && v in after && after[v].children == [] && (after[v].kind.RefValue? || after[v].kind.TextValue?)
      ensures forall n :: n in after && n != row ==> v !in after[n].children
    {
      NewIdsOutside(doc, row, ids, |nodes|);
      assert Unmentioned(doc, v);
      hide RowId, NewIds, QuietValues, Unpicked;
      var i :| 0 <= i < |nodes| && ids[i] == v;
      forall n | n in after && n != row ensures v !in after[n].children {
        WrittenNode(doc, def, key, nodes, ids, after, n);
      }
    }
    forall q, c, t | Picks(after, q, c, t) && q != row ensures t !in OldValues(after, row) {
      PicksBefore(doc, def, key, nodes, ids, after, q, c, t);
      WrittenNode(doc, def, key, nodes, ids, after, row);
      hide RowId, QuietValues, Unpicked, IsRewritten;
      assert t in ids ==> Unmentioned(doc, t);
      assert forall x :: x in ids[..|nodes|] ==> x in ids;
    }
  }

  /** What is picked under other rows after a write was picked before it. */
  lemma PicksBefore(doc: ConfigDoc, def: Id, key: Key, nodes: seq<ConfigNode>, ids: seq<Id>, after: ConfigDoc, q: Id, c: Id, t: Id)
    requires Write(doc, def, key, nodes, ids, after) && PlainValues(doc, nodes) && Picks(after, q, c, t) && q != RowId(def, key)
    ensures Picks(doc, q, c, t)
  {
    var row := RowId(def, key);
    WrittenNode(doc, def, key, nodes, ids, after, q);
    WrittenNode(doc, def, key, nodes, ids, after, c);
    WrittenNode(doc, def, key, nodes, ids, after, row);
    NewIdsOutside(doc, row, ids, |nodes|);
    hide RowId, QuietValues, Unpicked, IsRewritten, HasOptions;
    assert q in doc && q != def && after[q].children == doc[q].children;
    assert c in ids ==> Unmentioned(doc, c);
    assert forall i :: 0 <= i < |nodes| ==> ids[i] in ids;
  }

  /** Every node after a write is an old one, its row, or one of the new values. */
  lemma WrittenNode(doc: ConfigDoc, def: Id, key: Key, nodes: seq<ConfigNode>, ids: seq<Id>, after: ConfigDoc, n: Id)
    requires Write(doc, def, key, nodes, ids, after) && n in after
    ensures n !in doc && n != RowId(def, key) ==> exists i :: 0 <= i < |nodes| && n == ids[i] && after[n] == nodes[i]
    ensures n in doc ==> SameFace(doc, after, n)
    ensures n in doc && n != RowId(def, key) ==>
      after[n].children == doc[n].children || (n == def && after[n].children == [RowId(def, key)] + doc[n].children)
    ensures n == RowId(def, key) ==> after[n].kind == Row(key) && after[n].children == ids[..|nodes|]
  {
    hide RowId;
  }

  lemma PlacedAgain(doc: ConfigDoc, def: Id, key: Key, nodes: seq<ConfigNode>, ids: seq<Id>, after: ConfigDoc)
    requires Write(doc, def, key, nodes, ids, after) && PlainValues(doc, nodes)
    ensures RowPlaced(after, def, key)
  {
    var row := RowId(def, key);
    forall n | n in after && n != def ensures row !in after[n].children {
      WrittenNode(doc, def, key, nodes, ids, after, n);
      NewIdsOutside(doc, row, ids, |nodes|);
      hide RowId;
    }
    WrittenNode(doc, def, key, nodes, ids, after, row);
  }

  /** What the first write asked for, the document after it has again. */
  lemma ReadyAgain(numbers: Numbers, doc: ConfigDoc, def: Id, key: Key, input: Input, ids: seq<Id>, after: ConfigDoc, more: seq<Id>)
    requires Prepared(numbers, doc, def, key, input).Ok? && OptionsStand(doc, def, key) && Visible(doc, def, key)
    requires var nodes := Prepared(numbers, doc, def, key, input).value;
      Write(doc, def, key, nodes, ids, after) && |more| >= |nodes|
    requires NewIds(after, RowId(def, key), more)
    ensures Fits(after, def, key, Prepared(numbers, doc, def, key, input).value, more)
    ensures RowPlaced(after, def, key) && Visible(after, def, key) && OptionsStand(after, def, key)
  {
    var nodes := Prepared(numbers, doc, def, key, input).value;
    PreparedIsPlain(numbers, doc, def, key, input);
    QuietAgain(doc, def, key, nodes, ids, after);
    PlacedAgain(doc, def, key, nodes, ids, after);
    DefinitionStays(doc, def, key, nodes, ids, after, def);
    WrittenNode(doc, def, key, nodes, ids, after, def);
    ReadsTheRow(doc, def, key, nodes, ids, after);
    OptionsStayAgain(doc, def, key, nodes, ids, after);
    hide Prepared, Write, RowId, OptionsStand, RowPlaced, QuietValues, NewIds, PlainValues, RowOf;
  }

  lemma OptionsStayAgain(doc: ConfigDoc, def: Id, key: Key, nodes: seq<ConfigNode>, ids: seq<Id>, after: ConfigDoc)
    requires Write(doc, def, key, nodes, ids, after) && OptionsStand(doc, def, key)
    ensures OptionsStand(after, def, key)
  {
    var row := RowId(def, key);
    if DomainOf(key).Choice? || DomainOf(key).ChoiceList? {
      var subtree, values := DomainOf(key).subtree, DomainOf(key).values;
      SeededStays(doc, def, key, nodes, ids, after, subtree, values);
      NewIdsOutside(doc, row, ids, |nodes|);
      hide RowId, OptionId;
      forall v | v in values ensures OptionId(subtree, v) !in OldValues(after, row) {
        assert OptionText(doc, OptionId(subtree, v)) == Some(v);
      }
    }
  }

  /**
   * The same write again. It is accepted if and only if no target of the input was among the values the first write
   * dropped, and then it prepares the same nodes and leaves everything reading the same.
   */
  lemma SecondWriteReadsTheSame(numbers: Numbers, doc: ConfigDoc, def: Id, key: Key, input: Input, ids: seq<Id>, more: seq<Id>, d: Id, k: Key)
    requires Prepared(numbers, doc, def, key, input).Ok?
    requires var nodes := Prepared(numbers, doc, def, key, input).value;
      Fits(doc, def, key, nodes, ids) && RowPlaced(doc, def, key) && Visible(doc, def, key) && OptionsStand(doc, def, key)
    requires var nodes := Prepared(numbers, doc, def, key, input).value;
      NewIds(Rewritten(doc, def, key, nodes, ids), RowId(def, key), more) && |more| >= |nodes|
    requires IsDefinition(doc, d)
    ensures var nodes := Prepared(numbers, doc, def, key, input).value;
      var after := Rewritten(doc, def, key, nodes, ids);
      && (Prepared(numbers, after, def, key, input).Ok? <==> InputTargets(input) !! OldValues(doc, RowId(def, key)))
      && (Prepared(numbers, after, def, key, input).Ok? ==>
            && Prepared(numbers, after, def, key, input).value == nodes && def in after
            && Read(Rewritten(after, def, key, nodes, more), d, k) == Read(after, d, k))
  {
    var nodes := Prepared(numbers, doc, def, key, input).value;
    var after := Rewritten(doc, def, key, nodes, ids);
    RewrittenShape(doc, def, key, nodes, ids);
    WriteThenRead(numbers, doc, def, key, input, ids);
    DefinitionStays(doc, def, key, nodes, ids, after, def);
    DefinitionStays(doc, def, key, nodes, ids, after, d);
    WrittenNode(doc, def, key, nodes, ids, after, def);
    WrittenNode(doc, def, key, nodes, ids, after, d);
    PreparedAgain(numbers, doc, after, def, key, input);
    TargetsStay(numbers, doc, def, key, input, nodes, ids, after);
    ReadyAgain(numbers, doc, def, key, input, ids, after, more);
    hide Prepared, Rewritten, Read, Fits, OptionsStand, Visible, RowPlaced, IsRewritten, InputTargets, OldValues;
    if Prepared(numbers, after, def, key, input).Ok? {
      WriteThenRead(numbers, after, def, key, input, more);
      if !(d == def && k == key) {
        OthersKeptWritten(after, def, key, nodes, more, d, k);
      }
    }
  }

  lemma TargetsStay(numbers: Numbers, doc: ConfigDoc, def: Id, key: Key, input: Input, nodes: seq<ConfigNode>, ids: seq<Id>, after: ConfigDoc)
    requires Prepared(numbers, doc, def, key, input).Ok? && Write(doc, def, key, nodes, ids, after)
    ensures (forall t :: t in InputTargets(input) ==> t in after) <==> InputTargets(input) !! OldValues(doc, RowId(def, key))
  {
    forall t | t in InputTargets(input) ensures t in doc {}
    hide Prepared, RowId, InputTargets;
    forall t | t in InputTargets(input) ensures t in after <==> t !in OldValues(doc, RowId(def, key)) {
      if t !in OldValues(doc, RowId(def, key)) { assert SameFace(doc, after, t); }
    }
  }

  /** Such an input: the value of a tag's row is made the target of that row, and goes with the write. */
  lemma OldValueAsTarget(numbers: Numbers, tag: Id, value: Id, added: Id)
    requires tag != value && tag != added && value != added && RowId(tag, Extends) !in {tag, value, added}
    ensures var row, input := RowId(tag, Extends), RefInput(Some(value));
      var doc := map[tag := ConfigNode(TagDefinition, [row], ""), row := ConfigNode(Row(Extends), [value], ""),
                     value := ConfigNode(TextValue, [], "")];
      && Prepared(numbers, doc, tag, Extends, input) == Ok([RefNode(value)]) && Fits(doc, tag, Extends, [RefNode(value)], [added])
      && Prepared(numbers, Rewritten(doc, tag, Extends, [RefNode(value)], [added]), tag, Extends, input) == Err(InvalidOperation)
  {
    var row := RowId(tag, Extends);
    var doc := map[tag := ConfigNode(TagDefinition, [row], ""), row := ConfigNode(Row(Extends), [value], ""),
                   value := ConfigNode(TextValue, [], "")];
    OneValueFits(doc, tag, value, added);
    RewrittenShape(doc, tag, Extends, [RefNode(value)], [added]);
    hide RowId, Fits, Rewritten;
    assert value in OldValues(doc, row);
  }

  lemma OneValueFits(doc: ConfigDoc, tag: Id, value: Id, added: Id)
    requires tag != value && tag != added && value != added && RowId(tag, Extends) !in {tag, value, added}
    requires doc == map[tag := ConfigNode(TagDefinition, [RowId(tag, Extends)], ""),
                        RowId(tag, Extends) := ConfigNode(Row(Extends), [value], ""), value := ConfigNode(TextValue, [], "")]
    ensures Fits(doc, tag, Extends, [RefNode(value)], [added])
  {
    hide RowId;
    assert Unmentioned(doc, added);
    assert QuietValues(doc, RowId(tag, Extends));
  }

  lemma OthersKeptWritten(doc: ConfigDoc, def: Id, key: Key, nodes: seq<ConfigNode>, ids: seq<Id>, d: Id, k: Key)
    requires Fits(doc, def, key, nodes, ids) && RowPlaced(doc, def, key) && IsDefinition(doc, d)
    requires !(d == def && k == key && Visible(doc, def, key))
    ensures Read(Rewritten(doc, def, key, nodes, ids), d, k) == Read(doc, d, k)
  {
    RewrittenShape(doc, def, key, nodes, ids);
    OthersKept(doc, def, key, nodes, ids, Rewritten(doc, def, key, nodes, ids), d, k);
  }

  // ----- All rows at once -----

  ghost predicate UnderOnly(doc: ConfigDoc, c: Id, d: Id) {
    forall n :: n in doc && n != d ==> c !in doc[n].children
  }

  /** The row of a key of a definition: in its place with values of its own, or neither there nor mentioned. */
  ghost predicate RowStands(doc: ConfigDoc, d: Id, k: Key) {
    if RowId(d, k) in doc then
      && IsRow(doc, RowId(d, k), k) && d in doc && RowId(d, k) in doc[d].children && UnderOnly(doc, RowId(d, k), d)
      && QuietValues(doc, RowId(d, k)) && Unpicked(doc, RowId(d, k))
    else Unmentioned(doc, RowId(d, k))
  }

  ghost predicate RowsStand(doc: ConfigDoc) {
    forall d, k :: IsDefinition(doc, d) ==> RowStands(doc, d, k)
  }

  /** A definition has no other rows than its own. */
  ghost predicate OwnRows(doc: ConfigDoc) {
    forall d, c, k :: IsDefinition(doc, d) && c in doc[d].children && IsRow(doc, c, k) ==> c == RowId(d, k)
  }

  predicate IsOption(key: Key, t: Id) {
    HasOptions(key) && exists v :: v in DomainOf(key).values && t == OptionId(DomainOf(key).subtree, v)
  }

  /** The options stand, and none of them is a value of a row. */
  ghost predicate OptionsReady(doc: ConfigDoc) {
    && (forall l :: HasOptions(l) ==> Seeded(doc, DomainOf(l).subtree, DomainOf(l).values))
    && forall d, k, l, t :: IsDefinition(doc, d) && IsOption(l, t) ==> t !in OldValues(doc, RowId(d, k))
  }

  /** Every row stands under its own id and under its own definition only. */
  ghost predicate Orderly(doc: ConfigDoc) {
    RowsStand(doc) && OwnRows(doc) && OptionsReady(doc)
  }

  /** Ids that nothing in the document knows, and that no row will ever have. */
  ghost predicate FreshIds(doc: ConfigDoc, ids: seq<Id>) {
    && (forall i, j :: 0 <= i < j < |ids| ==> ids[i] != ids[j])
    && (forall x :: x in ids ==> x !in doc && Unmentioned(doc, x))
    && forall d, k :: RowId(d, k) !in ids
  }

  /** A document without rows, where nothing mentions one, is in order once the options stand. */
  lemma OrderlyStart(doc: ConfigDoc)
    requires forall d, k :: IsDefinition(doc, d) ==> RowId(d, k) !in doc && Unmentioned(doc, RowId(d, k))
    requires forall n :: n in doc ==> !doc[n].kind.Row?
    requires forall l :: HasOptions(l) ==> Seeded(doc, DomainOf(l).subtree, DomainOf(l).values)
    ensures Orderly(doc)
  {
    hide RowId, KeyName, Unmentioned, Seeded, IsOption;
  }

  lemma {:induction false} OnlyRowIsLast(doc: ConfigDoc, children: seq<Id>, row: Id, k: Key)
    requires row in children && IsRow(doc, row, k) && forall c :: c in children && IsRow(doc, c, k) ==> c == row
    ensures LastRow(doc, children, k) == Some(row)
  {
    var first, last := children[..|children| - 1], children[|children| - 1];
    assert children == first + [last];
    if last != row { OnlyRowIsLast(doc, first, row, k); }
  }

  /** In an orderly document everything a write and a read ask for holds, for every definition and key. */
  lemma OrderlyRows(doc: ConfigDoc, d: Id, k: Key)
    requires Orderly(doc) && IsDefinition(doc, d)
    ensures RowPlaced(doc, d, k) && Visible(doc, d, k) && OptionsStand(doc, d, k)
    ensures QuietValues(doc, RowId(d, k)) && Unpicked(doc, RowId(d, k))
    ensures RowId(d, k) !in doc ==> Unmentioned(doc, RowId(d, k))
  {
    assert RowStands(doc, d, k);
    OptionsOfKey(doc, d, k);
    hide RowId, KeyName, QuietValues, Unpicked, Unmentioned, OptionsReady, OptionsStand, LastRow, OldValues;
    if RowId(d, k) in doc {
      OnlyRowIsLast(doc, doc[d].children, RowId(d, k), k);
    } else {
      assert Unpicked(doc, RowId(d, k)) by { NothingToPick(doc, RowId(d, k)); }
      assert QuietValues(doc, RowId(d, k)) by { NothingToPick(doc, RowId(d, k)); }
      LastRowIn(doc, doc[d].children, k);
    }
  }

  lemma NothingToPick(doc: ConfigDoc, row: Id)
    requires row !in doc
    ensures Unpicked(doc, row) && QuietValues(doc, row)
  {
  }

  lemma OptionsOfKey(doc: ConfigDoc, d: Id, k: Key)
    requires OptionsReady(doc) && IsDefinition(doc, d)
    ensures OptionsStand(doc, d, k)
  {
    hide RowId, KeyName, OptionId, Seeded, OldValues;
    if HasOptions(k) {
      forall v | v in DomainOf(k).values ensures OptionId(DomainOf(k).subtree, v) !in OldValues(doc, RowId(d, k)) {
        assert IsOption(k, OptionId(DomainOf(k).subtree, v));
      }
    }
  }

  /** Under a row of options only options of its key are written. */
  ghost predicate OptionNodes(key: Key, nodes: seq<ConfigNode>) {
    HasOptions(key) ==> forall i :: 0 <= i < |nodes| ==> nodes[i].kind.RefValue? && nodes[i].kind.target.Some? && IsOption(key, nodes[i].kind.target.value)
  }

  lemma {:induction false} OptionsAreOptions(key: Key, values: seq<string>)
    requires HasOptions(key) && forall v :: v in values ==> v in DomainOf(key).values
    ensures OptionNodes(key, RefNodes(Options(DomainOf(key).subtree, values)))
  {
    if values != [] {
      assert values[0] in values && forall v :: v in values[1..] ==> v in values;
      OptionsAreOptions(key, values[1..]);
      var first, rest := OptionId(DomainOf(key).subtree, values[0]), Options(DomainOf(key).subtree, values[1..]);
      assert IsOption(key, first);
      assert ([first] + rest)[1..] == rest;
      assert RefNodes([first] + rest) == [RefNode(first)] + RefNodes(rest);
    }
  }

  lemma PreparedOptions(numbers: Numbers, doc: ConfigDoc, def: Id, key: Key, input: Input)
    requires Prepared(numbers, doc, def, key, input).Ok?
    ensures OptionNodes(key, Prepared(numbers, doc, def, key, input).value)
  {
    match input
    case ScalarInput(_) =>
    case RefInput(_) =>
    case RefListInput(_) =>
    case EnumInput(value) =>
    case EnumListInput(values) => OptionsAreOptions(key, values);
  }

  // ----- A write keeps the order -----

  ghost predicate OrderlyWrite(doc: ConfigDoc, def: Id, key: Key, nodes: seq<ConfigNode>, ids: seq<Id>, after: ConfigDoc) {
    && Orderly(doc) && Write(doc, def, key, nodes, ids, after) && FreshIds(doc, ids)
    && PlainValues(doc, nodes) && OptionNodes(key, nodes)
  }

  lemma SameDefinitions(doc: ConfigDoc, def: Id, key: Key, nodes: seq<ConfigNode>, ids: seq<Id>, after: ConfigDoc, d: Id)
    requires Write(doc, def, key, nodes, ids, after) && PlainValues(doc, nodes)
    ensures IsDefinition(after, d) <==> IsDefinition(doc, d)
  {
    if d in after { WrittenNode(doc, def, key, nodes, ids, after, d); }
    if IsDefinition(doc, d) { DefinitionStays(doc, def, key, nodes, ids, after, d); }
    hide RowId, Fits, IsRewritten, RowPlaced;
  }

  lemma WrittenRowUnder(doc: ConfigDoc, def: Id, key: Key, nodes: seq<ConfigNode>, ids: seq<Id>, after: ConfigDoc, d: Id)
    requires OrderlyWrite(doc, def, key, nodes, ids, after) && IsDefinition(doc, d)
    requires d in after && RowId(def, key) in after[d].children
    ensures d == def
  {
    assert RowStands(doc, def, key);
    DefinitionStays(doc, def, key, nodes, ids, after, d);
    hide RowId, KeyName, QuietValues, Unpicked, OptionsReady, RowsStand, OwnRows, Write, FreshIds, PlainValues, OptionNodes;
  }

  lemma OwnRowsStay(doc: ConfigDoc, def: Id, key: Key, nodes: seq<ConfigNode>, ids: seq<Id>, after: ConfigDoc, d: Id, c: Id, k: Key)
    requires OrderlyWrite(doc, def, key, nodes, ids, after) && IsDefinition(after, d) && c in after[d].children && IsRow(after, c, k)
    ensures c == RowId(d, k)
  {
    SameDefinitions(doc, def, key, nodes, ids, after, d);
    if c == RowId(def, key) {
      WrittenRowUnder(doc, def, key, nodes, ids, after, d);
      WrittenNode(doc, def, key, nodes, ids, after, c);
    } else {
      DefinitionStays(doc, def, key, nodes, ids, after, d);
      SameRows(doc, def, key, nodes, ids, after, d, c, k);
    }
    hide RowId, KeyName, RowsStand, OptionsReady, Write, FreshIds, PlainValues, OptionNodes;
  }

  /** What lies under a node other than the written row lay there before, but for a new row. */
  lemma ChildBefore(doc: ConfigDoc, def: Id, key: Key, nodes: seq<ConfigNode>, ids: seq<Id>, after: ConfigDoc, n: Id, c: Id)
    requires Write(doc, def, key, nodes, ids, after) && PlainValues(doc, nodes) && n in after && c in after[n].children
    ensures n == RowId(def, key) ==> c in ids
    ensures n != RowId(def, key) && c != RowId(def, key) ==> n in doc && c in doc[n].children
  {
    WrittenNode(doc, def, key, nodes, ids, after, n);
    hide RowId, KeyName, Fits, IsRewritten, RowPlaced;
    assert forall x :: x in ids[..|nodes|] ==> x in ids;
  }

  /** Another row with its place and its values is as it was. */
  lemma OtherRowStays(doc: ConfigDoc, def: Id, key: Key, nodes: seq<ConfigNode>, ids: seq<Id>, after: ConfigDoc, d: Id, k: Key)
    requires OrderlyWrite(doc, def, key, nodes, ids, after) && IsDefinition(doc, d) && !(d == def && k == key)
    requires RowId(d, k) in doc
    ensures RowId(d, k) in after && after[RowId(d, k)] == doc[RowId(d, k)] && IsRow(after, RowId(d, k), k)
    ensures d in after && RowId(d, k) in after[d].children && UnderOnly(after, RowId(d, k), d)
  {
    RowIdsDiffer(d, k, def, key);
    var r, row := RowId(d, k), RowId(def, key);
    assert RowStands(doc, d, k) && r !in OldValues(doc, row);
    DefinitionStays(doc, def, key, nodes, ids, after, d);
    hide RowId, KeyName, QuietValues, Unpicked, OptionsReady, RowsStand, OwnRows, PlainValues, OptionNodes, OldValues, Unmentioned, Seeded;
    assert r != def && after[r] == doc[r];
    forall n | n in after && n != d ensures r !in after[n].children {
      if r in after[n].children { ChildBefore(doc, def, key, nodes, ids, after, n, r); }
    }
  }

  lemma OtherValuesStay(doc: ConfigDoc, def: Id, key: Key, nodes: seq<ConfigNode>, ids: seq<Id>, after: ConfigDoc, d: Id, k: Key, v: Id)
    requires OrderlyWrite(doc, def, key, nodes, ids, after) && IsDefinition(doc, d) && !(d == def && k == key)
    requires RowId(d, k) in doc && v in doc[RowId(d, k)].children
    ensures v != RowId(d, k) && v !in ids && v != RowId(def, key) && UnderOnly(after, v, RowId(d, k))
    ensures v in after ==> v in doc && after[v] == doc[v] && after[v].children == [] && (after[v].kind.RefValue? || after[v].kind.TextValue?)
  {
    RowIdsDiffer(d, k, def, key);
    var r, row := RowId(d, k), RowId(def, key);
    assert RowStands(doc, d, k) && RowStands(doc, def, key);
    assert v in ids ==> Unmentioned(doc, v);
    assert v != row by { if row in doc { assert UnderOnly(doc, row, def) && r != def; } }
    hide RowId, KeyName, Unpicked, OptionsReady, RowsStand, OwnRows, PlainValues, OptionNodes, Unmentioned, Seeded, FreshIds, RowPlaced;
    assert v != def;
    if v in after {
      WrittenNode(doc, def, key, nodes, ids, after, v);
      assert v !in OldValues(doc, row);
    }
    hide IsRewritten, Fits;
    forall n | n in after && n != r ensures v !in after[n].children {
      if v in after[n].children { ChildBefore(doc, def, key, nodes, ids, after, n, v); }
    }
  }

  lemma OtherStaysUnpicked(doc: ConfigDoc, def: Id, key: Key, nodes: seq<ConfigNode>, ids: seq<Id>, after: ConfigDoc, d: Id, k: Key, q: Id, c: Id, t: Id)
    requires OrderlyWrite(doc, def, key, nodes, ids, after) && IsDefinition(doc, d) && !(d == def && k == key)
    requires RowId(d, k) in doc && Picks(after, q, c, t) && q != RowId(d, k)
    ensures t !in OldValues(doc, RowId(d, k))
  {
    var r, row := RowId(d, k), RowId(def, key);
    assert RowStands(doc, d, k);
    WrittenNode(doc, def, key, nodes, ids, after, row);
    hide RowId, KeyName, RowsStand, OwnRows, Unmentioned, Seeded, FreshIds, RowPlaced, QuietValues, UnderOnly, OldValues, Fits;
    if q == row {
      var i :| 0 <= i < |nodes| && ids[i] == c;
      assert after[c] == nodes[i] && IsOption(key, t);
    } else {
      PicksBefore(doc, def, key, nodes, ids, after, q, c, t);
    }
  }

  lemma AbsentRowStays(doc: ConfigDoc, def: Id, key: Key, nodes: seq<ConfigNode>, ids: seq<Id>, after: ConfigDoc, d: Id, k: Key)
    requires OrderlyWrite(doc, def, key, nodes, ids, after) && IsDefinition(doc, d) && !(d == def && k == key)
    requires RowId(d, k) !in doc
    ensures RowId(d, k) !in after && Unmentioned(after, RowId(d, k))
  {
    RowIdsDiffer(d, k, def, key);
    var r, row := RowId(d, k), RowId(def, key);
    assert RowStands(doc, d, k) && r !in ids;
    hide RowId, KeyName, RowsStand, OwnRows, OptionsReady, OptionNodes, FreshIds, RowPlaced, Fits;
    if r in after {
      WrittenNode(doc, def, key, nodes, ids, after, r);
      assert false;
    }
    forall n | n in after ensures r !in after[n].children && after[n].kind != RefValue(Some(r)) {
      if r in after[n].children { ChildBefore(doc, def, key, nodes, ids, after, n, r); }
      WrittenNode(doc, def, key, nodes, ids, after, n);
      hide IsRewritten;
      if n !in doc && n != row {
        var i :| 0 <= i < |nodes| && n == ids[i] && after[n] == nodes[i];
        assert PointsInside(doc, nodes[i].kind);
      }
    }
  }

  lemma OtherRowStands(doc: ConfigDoc, def: Id, key: Key, nodes: seq<ConfigNode>, ids: seq<Id>, after: ConfigDoc, d: Id, k: Key)
    requires OrderlyWrite(doc, def, key, nodes, ids, after) && IsDefinition(doc, d) && !(d == def && k == key)
    requires RowId(d, k) in doc
    ensures QuietValues(after, RowId(d, k)) && Unpicked(after, RowId(d, k))
  {
    var r := RowId(d, k);
    OtherRowStays(doc, def, key, nodes, ids, after, d, k);
    hide RowId, KeyName, OrderlyWrite, Picks;
    forall v | v in after[r].children
      ensures v != r && UnderOnly(after, v, r)
      ensures v in after ==> after[v].children == [] && (after[v].kind.RefValue? || after[v].kind.TextValue?)
    {
      OtherValuesStay(doc, def, key, nodes, ids, after, d, k, v);
    }
    forall q, c, t | Picks(after, q, c, t) && q != r ensures t !in OldValues(after, r) {
      OtherStaysUnpicked(doc, def, key, nodes, ids, after, d, k, q, c, t);
    }
  }

  lemma RowStandsOn(doc: ConfigDoc, def: Id, key: Key, nodes: seq<ConfigNode>, ids: seq<Id>, after: ConfigDoc, d: Id, k: Key)
    requires OrderlyWrite(doc, def, key, nodes, ids, after) && IsDefinition(doc, d)
    ensures RowStands(after, d, k)
  {
    if d == def && k == key {
      WrittenRowStands(doc, def, key, nodes, ids, after);
    } else if RowId(d, k) in doc {
      OtherRowStays(doc, def, key, nodes, ids, after, d, k);
      OtherRowStands(doc, def, key, nodes, ids, after, d, k);
    } else {
      AbsentRowStays(doc, def, key, nodes, ids, after, d, k);
    }
    hide RowId, KeyName, OrderlyWrite, QuietValues, Unpicked, Unmentioned, UnderOnly, IsRow;
  }

  lemma WrittenRowStands(doc: ConfigDoc, def: Id, key: Key, nodes: seq<ConfigNode>, ids: seq<Id>, after: ConfigDoc)
    requires OrderlyWrite(doc, def, key, nodes, ids, after)
    ensures RowStands(after, def, key)
  {
    assert RowStands(doc, def, key);
    PlacedAgain(doc, def, key, nodes, ids, after);
    QuietAgain(doc, def, key, nodes, ids, after);
    DefinitionStays(doc, def, key, nodes, ids, after, def);
    hide RowId, KeyName, QuietValues, Unpicked, OrderlyWrite, Write;
  }

  lemma OptionsStayReady(doc: ConfigDoc, def: Id, key: Key, nodes: seq<ConfigNode>, ids: seq<Id>, after: ConfigDoc)
    requires OrderlyWrite(doc, def, key, nodes, ids, after)
    ensures OptionsReady(after)
  {
    hide RowId, KeyName, RowsStand, OwnRows, OptionNodes, PlainValues, DomainOf;
    forall l | HasOptions(l) ensures Seeded(after, DomainOf(l).subtree, DomainOf(l).values) {
      forall v | v in DomainOf(l).values ensures OptionId(DomainOf(l).subtree, v) !in OldValues(doc, RowId(def, key)) {
        assert IsOption(l, OptionId(DomainOf(l).subtree, v));
      }
      SeededStays(doc, def, key, nodes, ids, after, DomainOf(l).subtree, DomainOf(l).values);
    }
    forall d, k, l, t | IsDefinition(after, d) && IsOption(l, t) ensures t !in OldValues(after, RowId(d, k)) {
      OptionStaysApart(doc, def, key, nodes, ids, after, d, k, l, t);
    }
  }

  lemma OptionStaysApart(doc: ConfigDoc, def: Id, key: Key, nodes: seq<ConfigNode>, ids: seq<Id>, after: ConfigDoc, d: Id, k: Key, l: Key, t: Id)
    requires OrderlyWrite(doc, def, key, nodes, ids, after) && IsDefinition(after, d) && IsOption(l, t)
    ensures t !in OldValues(after, RowId(d, k))
  {
    SameDefinitions(doc, def, key, nodes, ids, after, d);
    assert OptionText(doc, t).Some?;
    if d == def && k == key {
      WrittenNode(doc, def, key, nodes, ids, after, RowId(d, k));
      NewIdsOutside(doc, RowId(d, k), ids, |nodes|);
    } else if RowId(d, k) in doc {
      OtherRowStays(doc, def, key, nodes, ids, after, d, k);
    } else {
      AbsentRowStays(doc, def, key, nodes, ids, after, d, k);
    }
    hide RowId, KeyName, RowsStand, OwnRows, OptionNodes, PlainValues, Write, FreshIds;
  }

  /** A write to one row of an orderly document leaves all rows in order. */
  lemma StaysOrderly(doc: ConfigDoc, def: Id, key: Key, nodes: seq<ConfigNode>, ids: seq<Id>, after: ConfigDoc)
    requires OrderlyWrite(doc, def, key, nodes, ids, after)
    ensures Orderly(after)
  {
    OptionsStayReady(doc, def, key, nodes, ids, after);
    forall d, k | IsDefinition(after, d) ensures RowStands(after, d, k) {
      assert IsDefinition(doc, d) by { SameDefinitions(doc, def, key, nodes, ids, after, d); }
      RowStandsOn(doc, def, key, nodes, ids, after, d, k);
    }
    hide RowStands, OptionsReady, OrderlyWrite;
    forall d, c, k | IsDefinition(after, d) && c in after[d].children && IsRow(after, c, k) ensures c == RowId(d, k) {
      OwnRowsStay(doc, def, key, nodes, ids, after, d, c, k);
    }
  }

  // ----- Many writes -----

  datatype Edit = Edit(def: Id, key: Key, input: Input, ids: seq<Id>)

  predicate Accepted(numbers: Numbers, doc: ConfigDoc, edit: Edit) {
    Prepared(numbers, doc, edit.def, edit.key, edit.input).Ok?
  }

  /** There are ids enough for the values. */
  ghost predicate Supplied(numbers: Numbers, doc: ConfigDoc, edit: Edit) {
    Accepted(numbers, doc, edit) ==>
      FreshIds(doc, edit.ids) && |edit.ids| >= |Prepared(numbers, doc, edit.def, edit.key, edit.input).value|
  }

  function Edited(numbers: Numbers, doc: ConfigDoc, edit: Edit): ConfigDoc {
    var prepared := Prepared(numbers, doc, edit.def, edit.key, edit.input);
    if prepared.Ok? && |edit.ids| >= |prepared.value| then Rewritten(doc, edit.def, edit.key, prepared.value, edit.ids) else doc
  }

  function EditedAll(numbers: Numbers, doc: ConfigDoc, edits: seq<Edit>): ConfigDoc {
    if edits == [] then doc else Edited(numbers, EditedAll(numbers, doc, edits[..|edits| - 1]), edits[|edits| - 1])
  }

  ghost predicate AllSupplied(numbers: Numbers, doc: ConfigDoc, edits: seq<Edit>) {
    forall i :: 0 <= i < |edits| ==> Supplied(numbers, EditedAll(numbers, doc, edits[..i]), edits[i])
  }

  /** The last of the edits of a key of a definition that was accepted. */
  function LastEdit(numbers: Numbers, doc: ConfigDoc, edits: seq<Edit>, d: Id, k: Key): (edit: Option<Edit>)
    ensures edit.Some? ==> edit.value.def == d && edit.value.key == k && Expects(k, edit.value.input)
  {
    if edits == [] then None
    else
      var before, last := edits[..|edits| - 1], edits[|edits| - 1];
      if last.def == d && last.key == k && Accepted(numbers, EditedAll(numbers, doc, before), last) then Some(last)
      else LastEdit(numbers, doc, before, d, k)
  }

  lemma EditFits(numbers: Numbers, doc: ConfigDoc, edit: Edit)
    requires Orderly(doc) && Supplied(numbers, doc, edit) && Accepted(numbers, doc, edit)
    ensures var nodes := Prepared(numbers, doc, edit.def, edit.key, edit.input).value;
      && OrderlyWrite(doc, edit.def, edit.key, nodes, edit.ids, Edited(numbers, doc, edit))
      && Edited(numbers, doc, edit) == Rewritten(doc, edit.def, edit.key, nodes, edit.ids)
    ensures IsDefinition(doc, edit.def)
  {
    var def, key, input, ids := edit.def, edit.key, edit.input, edit.ids;
    assert IsDefinition(doc, def);
    OrderlyRows(doc, def, key);
    RowIdsDiffer(def, key, def, key);
    assert NewIds(doc, RowId(def, key), ids);
    PreparedIsPlain(numbers, doc, def, key, input);
    PreparedOptions(numbers, doc, def, key, input);
    hide Prepared, RowId, KeyName, Rewritten, NewIds, PlainValues, OptionNodes, QuietValues, Unpicked, IsRewritten, Orderly, RowPlaced, Visible, FreshIds;
    RewrittenShape(doc, def, key, Prepared(numbers, doc, def, key, input).value, ids);
  }

  /** One edit: order is kept, the key reads as written if it was accepted, and everything else reads as before. */
  lemma EditReads(numbers: Numbers, doc: ConfigDoc, edit: Edit, d: Id, k: Key)
    requires Orderly(doc) && Supplied(numbers, doc, edit)
    ensures var after := Edited(numbers, doc, edit);
      && Orderly(after) && (IsDefinition(after, d) <==> IsDefinition(doc, d))
      && (Accepted(numbers, doc, edit) ==> Expects(edit.key, edit.input))
      && (IsDefinition(doc, d) ==>
            Read(after, d, k) == if Accepted(numbers, doc, edit) && d == edit.def && k == edit.key then Meant(numbers, k, edit.input) else Read(doc, d, k))
  {
    if Accepted(numbers, doc, edit) {
      EditFits(numbers, doc, edit);
      var def, key, input, ids, after := edit.def, edit.key, edit.input, edit.ids, Edited(numbers, doc, edit);
      var nodes := Prepared(numbers, doc, def, key, input).value;
      OrderlyRows(doc, def, key);
      WriteThenRead(numbers, doc, def, key, input, ids);
      StaysOrderly(doc, def, key, nodes, ids, after);
      SameDefinitions(doc, def, key, nodes, ids, after, d);
      hide Prepared, RowId, Rewritten, Write, Orderly, RowPlaced, Visible, Fits, Read, Meant, FreshIds;
      if IsDefinition(doc, d) && !(d == def && k == key) { OthersKept(doc, def, key, nodes, ids, after, d, k); }
    }
  }

  lemma AllReads(numbers: Numbers, doc: ConfigDoc, edit: Edit)
    requires Accepted(numbers, doc, edit) && |edit.ids| >= |Prepared(numbers, doc, edit.def, edit.key, edit.input).value|
    ensures Expects(edit.key, edit.input)
    ensures var after := Rewritten(doc, edit.def, edit.key, Prepared(numbers, doc, edit.def, edit.key, edit.input).value, edit.ids);
      Orderly(doc) && FreshIds(doc, edit.ids) ==>
        && Orderly(after)
        && forall d, k :: IsDefinition(doc, d) ==>
             Read(after, d, k) == if d == edit.def && k == edit.key then Meant(numbers, k, edit.input) else Read(doc, d, k)
  {
    var after := Rewritten(doc, edit.def, edit.key, Prepared(numbers, doc, edit.def, edit.key, edit.input).value, edit.ids);
    if Orderly(doc) && FreshIds(doc, edit.ids) {
      assert Edited(numbers, doc, edit) == after;
      EditReads(numbers, doc, edit, edit.def, edit.key);
      hide Rewritten, Orderly, FreshIds, Read, Meant, Prepared, Edited;
      forall d, k | IsDefinition(doc, d)
        ensures Read(after, d, k) == if d == edit.def && k == edit.key then Meant(numbers, k, edit.input) else Read(doc, d, k)
      {
        EditReads(numbers, doc, edit, d, k);
      }
    }
  }

  lemma OneEditMore(numbers: Numbers, doc: ConfigDoc, edits: seq<Edit>, d: Id, k: Key)
    requires edits != []
    ensures var first, last := edits[..|edits| - 1], edits[|edits| - 1];
      var before := EditedAll(numbers, doc, first);
      && EditedAll(numbers, doc, edits) == Edited(numbers, before, last)
      && LastEdit(numbers, doc, edits, d, k) ==
           if Accepted(numbers, before, last) && d == last.def && k == last.key then Some(last) else LastEdit(numbers, doc, first, d, k)
  {
  }

  /** After any edits, accepted or not, every key of every definition reads as the last accepted edit of it meant. */
  lemma {:induction false} LastEditIsRead(numbers: Numbers, doc: ConfigDoc, edits: seq<Edit>, d: Id, k: Key)
    requires Orderly(doc) && AllSupplied(numbers, doc, edits)
    ensures var after, last := EditedAll(numbers, doc, edits), LastEdit(numbers, doc, edits, d, k);
      && Orderly(after) && (IsDefinition(after, d) <==> IsDefinition(doc, d))
      && (IsDefinition(doc, d) ==> Read(after, d, k) == if last.Some? then Meant(numbers, k, last.value.input) else Read(doc, d, k))
  {
    if edits != [] {
      var first, last := edits[..|edits| - 1], edits[|edits| - 1];
      assert forall i :: 0 <= i < |first| ==> first[..i] == edits[..i];
      LastEditIsRead(numbers, doc, first, d, k);
      assert Supplied(numbers, EditedAll(numbers, doc, first), last);
      OneEditMore(numbers, doc, edits, d, k);
      hide Orderly, Supplied, AllSupplied, Edited, EditedAll, LastEdit, Read, Meant, Accepted, Expects, IsDefinition;
      EditReads(numbers, EditedAll(numbers, doc, first), last, d, k);
    }
  }

  // ----- The projections after a write -----

  /** What a scalar input means; a blank one means nothing. */
  function ScalarMeant(numbers: Numbers, key: Key, input: Input): Option<Scalar>
    requires input.ScalarInput?
  {
    if input.text.None? || Trim(input.text.value) == "" then None else Decode(numbers, DomainOf(key), input.text.value)
  }

  function TruthOr(meant: Option<Scalar>, otherwise: bool): bool {
    if meant.Some? && meant.value.Bool? then meant.value.truth else otherwise
  }

  /** The projected tag shows the input under its key. */
  predicate TagSays(numbers: Numbers, config: TagConfig, key: Key, input: Input)
    requires Expects(key, input)
  {
    match key
    case Color => config.color == if ScalarMeant(numbers, key, input).Some? then Some(Encode(numbers, ScalarMeant(numbers, key, input).value)) else None
    case Extends => config.extends_ == input.target
    case ChildSupertag => config.childSupertag == input.target
    case ShowCheckbox => config.showCheckbox == TruthOr(ScalarMeant(numbers, key, input), false)
    case DoneStateEnabled => config.doneStateEnabled == TruthOr(ScalarMeant(numbers, key, input), false)
    case DoneMapChecked => config.doneMapChecked == input.targets
    case DoneMapUnchecked => config.doneMapUnchecked == input.targets
    case _ => true
  }

  function NumberMeant(meant: Option<Scalar>): Option<real> {
    if meant.Some? && meant.value.Number? then Some(meant.value.number) else None
  }

  predicate FieldSays(numbers: Numbers, config: FieldConfig, key: Key, input: Input)
    requires Expects(key, input)
  {
    match key
    case FieldType => config.fieldType == if input.value.Some? then input.value.value else "plain"
    case SourceSupertag => config.sourceSupertag == input.target
    case AutocollectOptions => config.autocollectOptions == TruthOr(ScalarMeant(numbers, key, input), false)
    case AutoInitialize => config.autoInitialize == input.values
    case Nullable => config.nullable == TruthOr(ScalarMeant(numbers, key, input), true)
    case HideField => config.hideField == if input.value.Some? then input.value.value else "never"
    case MinValue => config.minValue == NumberMeant(ScalarMeant(numbers, key, input))
    case MaxValue => config.maxValue == NumberMeant(ScalarMeant(numbers, key, input))
    case _ => true
  }

  predicate IsCanonizable(numbers: Numbers, key: Key, input: Input) {
    input.ScalarInput? && input.text.Some? && Trim(input.text.value) != "" ==> Canonical(numbers, DomainOf(key), input.text.value).Some?
  }

  /** The canonical text means what the input means. */
  lemma ScalarKeeps(numbers: Numbers, key: Key, input: Input)
    requires ReadsBack(numbers) && IsCanonizable(numbers, key, input)
    ensures input.ScalarInput? && input.text.Some? && Trim(input.text.value) != "" ==>
      var canonical := Canonical(numbers, DomainOf(key), input.text.value).value;
      Decode(numbers, DomainOf(key), canonical) == Decode(numbers, DomainOf(key), input.text.value)
  {
    if input.ScalarInput? && input.text.Some? && Trim(input.text.value) != "" {
      CanonicalMeansTheSame(numbers, DomainOf(key), input.text.value);
    }
  }

  /** A definition that reads as meant projects as meant: the given value, or the default after a clear. */
  lemma TagReadsAndProjects(numbers: Numbers, doc: ConfigDoc, def: Id, key: Key, input: Input)
    requires ReadsBack(numbers) && Expects(key, input) && Read(doc, def, key) == Meant(numbers, key, input)
    requires IsCanonizable(numbers, key, input)
    ensures TagSays(numbers, ProjectTag(doc, def), key, input)
  {
    ScalarKeeps(numbers, key, input);
    BlankIsNoBool();
    hide Read, Trim, Lower, COLORS, FieldSays;
  }

  lemma FieldReadsAndProjects(numbers: Numbers, doc: ConfigDoc, def: Id, key: Key, input: Input)
    requires ReadsBack(numbers) && Expects(key, input) && Read(doc, def, key) == Meant(numbers, key, input)
    requires IsCanonizable(numbers, key, input)
    ensures FieldSays(numbers, ProjectField(numbers, doc, def), key, input)
  {
    ScalarKeeps(numbers, key, input);
    BlankIsNoBool();
    hide Read, Trim, Lower, COLORS, TagSays;
  }

  lemma BlankIsNoBool()
    ensures DecodeBool("") == None
  {
  }

  /** Writing a key and projecting the definition. */
  lemma WriteThenProject(numbers: Numbers, doc: ConfigDoc, def: Id, key: Key, input: Input, ids: seq<Id>)
    requires ReadsBack(numbers) && Prepared(numbers, doc, def, key, input).Ok?
    requires var nodes := Prepared(numbers, doc, def, key, input).value;
      Fits(doc, def, key, nodes, ids) && RowPlaced(doc, def, key) && Visible(doc, def, key) && OptionsStand(doc, def, key)
    ensures Expects(key, input)
    ensures var after := Rewritten(doc, def, key, Prepared(numbers, doc, def, key, input).value, ids);
      TagSays(numbers, ProjectTag(after, def), key, input) && FieldSays(numbers, ProjectField(numbers, after, def), key, input)
  {
    WriteThenRead(numbers, doc, def, key, input, ids);
    PreparedIsCanonical(numbers, doc, def, key, input);
    hide Prepared, Rewritten, Meant, Read, Fits, OptionsStand, Visible, RowPlaced, TagSays, FieldSays, ProjectTag, ProjectField;
    var after := Rewritten(doc, def, key, Prepared(numbers, doc, def, key, input).value, ids);
    TagReadsAndProjects(numbers, after, def, key, input);
    FieldReadsAndProjects(numbers, after, def, key, input);
  }

  lemma PreparedIsCanonical(numbers: Numbers, doc: ConfigDoc, def: Id, key: Key, input: Input)
    requires Prepared(numbers, doc, def, key, input).Ok?
    ensures IsCanonizable(numbers, key, input)
  {
  }

  /** Every other definition projects as before. */
  lemma OthersProjectTheSame(numbers: Numbers, doc: ConfigDoc, def: Id, key: Key, nodes: seq<ConfigNode>, ids: seq<Id>, d: Id)
    requires Fits(doc, def, key, nodes, ids) && RowPlaced(doc, def, key) && IsDefinition(doc, d) && d != def
    ensures var after := Rewritten(doc, def, key, nodes, ids);
      ProjectTag(after, d) == ProjectTag(doc, d) && ProjectField(numbers, after, d) == ProjectField(numbers, doc, d)
  {
    var after := Rewritten(doc, def, key, nodes, ids);
    forall k ensures Read(after, d, k) == Read(doc, d, k) { OthersKeptWritten(doc, def, key, nodes, ids, d, k); }
    hide Read, Rewritten, Fits, RowPlaced;
  }

  // ----- The core's own readers -----

  ghost predicate OneRow(doc: ConfigDoc, children: seq<Id>, key: Key) {
    forall i, j :: 0 <= i < j < |children| ==> !(IsRow(doc, children[i], key) && IsRow(doc, children[j], key))
  }

  /** The first reference with a target. */
  function FirstReal(values: seq<ConfigNode>): Option<Id> {
    if values == [] then None
    else if values[0].kind.RefValue? && values[0].kind.target.Some? then values[0].kind.target
    else FirstReal(values[1..])
  }

  /** The first reference has a target, or none has. */
  predicate TargetInFront(values: seq<ConfigNode>) {
    FirstTarget(values).Some? || Targets(values) == []
  }

  lemma {:induction false} RealIsFirst(values: seq<ConfigNode>)
    ensures FirstReal(values) == if Targets(values) == [] then None else Some(Targets(values)[0])
    ensures FirstReal(values) == FirstTarget(values) <==> TargetInFront(values)
  {
    if values != [] { RealIsFirst(values[1..]); }
  }

  /** `configRefTarget` looks through all rows of the key, first to last. */
  function CoreRefTarget(doc: ConfigDoc, children: seq<Id>, key: Key): Option<Id> {
    if children == [] then None
    else
      var here := if IsRow(doc, children[0], key) then FirstReal(ValuesOf(doc, Some(children[0]))) else None;
      if here.Some? then here else CoreRefTarget(doc, children[1..], key)
  }

  /** `configScalarText`. */
  function CoreScalarText(doc: ConfigDoc, children: seq<Id>, key: Key): Option<string> {
    if children == [] then None
    else
      var here := if IsRow(doc, children[0], key) then FirstText(ValuesOf(doc, Some(children[0]))) else None;
      if here.Some? then here else CoreScalarText(doc, children[1..], key)
  }

  /** `configRefTargets`: the first row of the key decides. */
  function CoreRefTargets(doc: ConfigDoc, children: seq<Id>, key: Key): seq<Id> {
    if children == [] then []
    else if IsRow(doc, children[0], key) then Targets(ValuesOf(doc, Some(children[0])))
    else CoreRefTargets(doc, children[1..], key)
  }

  lemma {:induction false} NoRowsNothing(doc: ConfigDoc, children: seq<Id>, key: Key)
    requires forall c :: c in children ==> !IsRow(doc, c, key)
    ensures CoreRefTarget(doc, children, key) == None && CoreScalarText(doc, children, key) == None && CoreRefTargets(doc, children, key) == []
    ensures LastRow(doc, children, key) == None
  {
    LastRowIn(doc, children, key);
    if children != [] {
      assert children[0] in children && forall c :: c in children[1..] ==> c in children;
      NoRowsNothing(doc, children[1..], key);
    }
  }

  lemma OneRowInTail(doc: ConfigDoc, children: seq<Id>, key: Key)
    requires OneRow(doc, children, key) && children != []
    ensures OneRow(doc, children[1..], key)
    ensures IsRow(doc, children[0], key) ==> forall c :: c in children[1..] ==> !IsRow(doc, c, key)
  {
    var rest := children[1..];
    hide IsRow;
    assert forall i :: 0 <= i < |rest| ==> rest[i] == children[i + 1];
    forall c | c in rest && IsRow(doc, children[0], key) ensures !IsRow(doc, c, key) {
      var i :| 0 <= i < |rest| && rest[i] == c;
      assert children[i + 1] == c;
    }
  }

  /** The core's readers read off the values of the last row. */
  predicate ReadAlike(doc: ConfigDoc, children: seq<Id>, key: Key, row: Option<Id>) {
    && CoreRefTarget(doc, children, key) == FirstReal(ValuesOf(doc, row))
    && CoreScalarText(doc, children, key) == FirstText(ValuesOf(doc, row))
    && CoreRefTargets(doc, children, key) == Targets(ValuesOf(doc, row))
  }

  lemma OnlyHeadIsRow(doc: ConfigDoc, head: Id, rest: seq<Id>, key: Key)
    requires IsRow(doc, head, key) && forall c :: c in rest ==> !IsRow(doc, c, key)
    ensures ReadAlike(doc, [head] + rest, key, Some(head)) && LastRow(doc, [head] + rest, key) == Some(head)
  {
    NoRowsNothing(doc, rest, key);
    LastRowFront(doc, head, rest, key);
    assert ([head] + rest)[1..] == rest;
    hide FirstReal, FirstText, Targets, ValuesOf, LastRow, IsRow;
  }

  lemma HeadIsNoRow(doc: ConfigDoc, head: Id, rest: seq<Id>, key: Key, row: Option<Id>)
    requires !IsRow(doc, head, key) && ReadAlike(doc, rest, key, row)
    ensures ReadAlike(doc, [head] + rest, key, row)
  {
    assert ([head] + rest)[1..] == rest;
    hide FirstReal, FirstText, Targets, ValuesOf, IsRow;
  }

  /** With one row of the key the core and the projection look at the same values. */
  lemma {:induction false} OneRowAgrees(doc: ConfigDoc, children: seq<Id>, key: Key)
    requires OneRow(doc, children, key)
    ensures var values := ValuesOf(doc, LastRow(doc, children, key));
      && CoreRefTarget(doc, children, key) == FirstReal(values)
      && CoreScalarText(doc, children, key) == FirstText(values)
      && CoreRefTargets(doc, children, key) == Targets(values)
  {
    if children != [] {
      hide CoreRefTarget, CoreScalarText, CoreRefTargets, FirstReal, FirstText, Targets, ValuesOf, LastRow, IsRow, OneRow;
      var head, rest := children[0], children[1..];
      assert children == [head] + rest;
      OneRowInTail(doc, children, key);
      if IsRow(doc, head, key) {
        OnlyHeadIsRow(doc, head, rest, key);
      } else {
        OneRowAgrees(doc, rest, key);
        LastRowFront(doc, head, rest, key);
        HeadIsNoRow(doc, head, rest, key, LastRow(doc, rest, key));
      }
    }
  }

  /** What the core makes of an option. */
  function CoreChoice(doc: ConfigDoc, children: seq<Id>, key: Key): Option<string> {
    match CoreRefTarget(doc, children, key)
    case Some(option) => OptionText(doc, option)
    case None => None
  }

  /** Texts and lists then agree. One reference agrees exactly if the first reference has a target or none has; one option
      does also if the target that the core finds is not there. */
  lemma ReadersAgree(doc: ConfigDoc, def: Id, key: Key)
    requires def in doc && OneRow(doc, doc[def].children, key)
    ensures var values, children := ValuesOf(doc, RowOf(doc, def, key)), doc[def].children;
      match Read(doc, def, key)
      case Scalar(text) => CoreScalarText(doc, children, key) == text
      case Target(id) => CoreRefTarget(doc, children, key) == id <==> TargetInFront(values)
      case TargetList(targets) => CoreRefTargets(doc, children, key) == targets
      case Chosen(value) =>
        CoreChoice(doc, children, key) == value <==> TargetInFront(values) || Targets(values)[0] !in doc
      case ChosenList(texts) => texts == OptionTexts(doc, CoreRefTargets(doc, children, key))
  {
    OneRowAgrees(doc, doc[def].children, key);
    RealIsFirst(ValuesOf(doc, RowOf(doc, def, key)));
    hide CoreRefTarget, CoreScalarText, CoreRefTargets, FirstReal, FirstTarget, FirstText, Targets;
  }

  /** A row whose first reference is empty: the projection reads no target, the core the next one. */
  lemma EmptyReferenceDisagrees()
    ensures var doc: ConfigDoc := map[Id("d") := ConfigNode(TagDefinition, [Id("p")], ""), Id("p") := ConfigNode(Row(Extends), [Id("x"), Id("y")], ""),
        Id("x") := ConfigNode(RefValue(None), [], ""), Id("y") := ConfigNode(RefValue(Some(Id("d"))), [], "")];
      && OneRow(doc, doc[Id("d")].children, Extends) && Read(doc, Id("d"), Extends) == Target(None)
      && CoreRefTarget(doc, doc[Id("d")].children, Extends) == Some(Id("d"))
  {
    var doc: ConfigDoc := map[Id("d") := ConfigNode(TagDefinition, [Id("p")], ""), Id("p") := ConfigNode(Row(Extends), [Id("x"), Id("y")], ""),
        Id("x") := ConfigNode(RefValue(None), [], ""), Id("y") := ConfigNode(RefValue(Some(Id("d"))), [], "")];
    assert IsRow(doc, Id("p"), Extends);
    assert LastRow(doc, [Id("p")], Extends) == Some(Id("p"));
    assert [Id("x"), Id("y")][1..] == [Id("y")] && [Id("y")][1..] == [];
    assert Values(doc, [Id("y")]) == [doc[Id("y")]];
    assert Values(doc, [Id("x"), Id("y")]) == [doc[Id("x")], doc[Id("y")]];
    assert [doc[Id("x")], doc[Id("y")]][1..] == [doc[Id("y")]];
  }

  /** With two rows they do not: the core reads the first, the projection the last. */
  lemma TwoRowsDisagree()
    ensures var doc: ConfigDoc := map[Id("d") := ConfigNode(TagDefinition, [Id("p"), Id("q")], ""),
        Id("p") := ConfigNode(Row(Color), [Id("x")], ""), Id("q") := ConfigNode(Row(Color), [Id("y")], ""),
        Id("x") := ConfigNode(TextValue, [], "red"), Id("y") := ConfigNode(TextValue, [], "blue")];
      CoreScalarText(doc, doc[Id("d")].children, Color) == Some("red") && Read(doc, Id("d"), Color) == Scalar(Some("blue"))
  {
    var doc: ConfigDoc := map[Id("d") := ConfigNode(TagDefinition, [Id("p"), Id("q")], ""),
        Id("p") := ConfigNode(Row(Color), [Id("x")], ""), Id("q") := ConfigNode(Row(Color), [Id("y")], ""),
        Id("x") := ConfigNode(TextValue, [], "red"), Id("y") := ConfigNode(TextValue, [], "blue")];
    assert IsRow(doc, Id("p"), Color) && IsRow(doc, Id("q"), Color);
    assert LastRow(doc, [Id("p"), Id("q")], Color) == Some(Id("q"));
    assert [Id("x")][1..] == [] && [Id("y")][1..] == [];
    assert Values(doc, [Id("x")]) == [doc[Id("x")]] && Values(doc, [Id("y")]) == [doc[Id("y")]];
  }
}
