/**
 * What one iteration of a verification loop records for one expected
 * resource, given what the UI steps yielded: the specification that the loop
 * methods of VerifyTest are proved against. The entity, enumeration and flow
 * loops share one shape (navigate, read the name, read the sub-item lists,
 * reject an empty list, compare by position); the folder loop has no
 * sub-items.
 */
module Reconcile {
  import opened Resources
  import opened Observations
  import opened Discrepancies
  import opened Positional

  /** The entity, enumeration and flow labels are fixed, whatever the record's name. */
  const EntityLabel := "Entity:SampleStrucuture "
  const EnumLabel := "Enumerations: EnumSample"
  const FlowLabel := "Flow: ServerFlow"

  /** Only the folder label is built from the expected record. */
  function FolderLabel(f: FileFolder): string
  {
    "FileFolder: " + Show(f.name)
  }

  /** A null name read from the UI is compared as the empty string. */
  function NullAsEmpty(n: JString): string
  {
    if n.Some? then n.value else ""
  }

  /** One mismatch entry when the observed resource-level value is not the expected one. */
  function Check(kind: Kind, resource: string, attr: Attr, expected: Value, observed: Value): Diff
  {
    if observed == expected then NoDiff
    else Diff([], [ResourceDiffers(kind, resource, attr, expected, observed)])
  }

  /** The name comparison of the entity, enumeration and flow loops. */
  function NameCheck(kind: Kind, resource: string, expected: JString, observed: string): Diff
  {
    Check(kind, resource, ResourceName, Text(expected), Text(Some(observed)))
  }

  /** The single missing entry recorded when a step throws. */
  function StepMissing(kind: Kind, resource: string, step: Step, cause: string): Diff
  {
    Diff([StepFailed(kind, resource, step, cause)], [])
  }

  /** The observation steps of one entity, enumeration or flow iteration. */
  datatype Probe = Probe(navigation: Outcome<()>, name: Outcome<JString>, items: Outcome<seq<Column>>)

  /** The attribute of the first observed list that came back empty, in reading order. */
  function FirstEmpty(cols: seq<Column>): Option<Attr>
  {
    if cols == [] then None
    else if cols[0].observed == [] then Some(cols[0].attr)
    else FirstEmpty(cols[1..])
  }

  /**
   * FirstEmpty finds nothing exactly when every observed list is non-empty,
   * and otherwise names the attribute of an empty list.
   */
  lemma {:induction false} FirstEmptySpec(cols: seq<Column>)
    ensures FirstEmpty(cols).None? <==> forall j :: 0 <= j < |cols| ==> cols[j].observed != []
    ensures FirstEmpty(cols).Some? ==>
      exists j :: 0 <= j < |cols| && cols[j].observed == [] && cols[j].attr == FirstEmpty(cols).value
  {
    if cols != [] && cols[0].observed != [] {
      FirstEmptySpec(cols[1..]);
      assert forall j :: 1 <= j < |cols| ==> cols[j] == cols[1..][j - 1];
    }
  }

  /** Some step failed or some observed list was empty: the iteration stopped early. */
  predicate CutShort(p: Probe)
  {
    p.navigation.Fail? || p.name.Fail? || p.items.Fail? || FirstEmpty(p.items.value).Some?
  }

  /**
   * What the sub-item steps add after the name comparison: the read failure,
   * or the first empty observed list, or the positional comparison of the
   * `n` expected sub-items.
   */
  function ItemsDiff(kind: Kind, resource: string, items: Outcome<seq<Column>>, n: nat): Diff
    requires items.Ok? ==> Covers(items.value, n)
  {
    if items.Fail? then StepMissing(kind, resource, ReadItems, items.cause)
    else
      match FirstEmpty(items.value)
      case Some(a) => Diff([NoItems(kind, resource, a)], [])
      case None => Table(kind, resource, items.value, n)
  }

  /** Everything one entity, enumeration or flow iteration over `n` expected sub-items records. */
  function ResourceDiff(kind: Kind, resource: string, expectedName: JString, p: Probe, n: nat): Diff
    requires p.items.Ok? ==> Covers(p.items.value, n)
  {
    if p.navigation.Fail? then StepMissing(kind, resource, Navigate, p.navigation.cause)
    else if p.name.Fail? then StepMissing(kind, resource, ReadDetails, p.name.cause)
    else NameCheck(kind, resource, expectedName, NullAsEmpty(p.name.value)).Then(ItemsDiff(kind, resource, p.items, n))
  }

  // ---------------------------------------------------------------- entities

  function Texts(ss: seq<string>): (vs: seq<Value>)
    ensures |vs| == |ss| && forall i :: 0 <= i < |ss| ==> vs[i] == Text(Some(ss[i]))
  {
    seq(|ss|, i requires 0 <= i < |ss| => Text(Some(ss[i])))
  }

  function Flags(bs: seq<bool>): (vs: seq<Value>)
    ensures |vs| == |bs| && forall i :: 0 <= i < |bs| ==> vs[i] == Flag(bs[i])
  {
    seq(|bs|, i requires 0 <= i < |bs| => Flag(bs[i]))
  }

  /** Name, data type and PK flag of every field, each against its own UI list. */
  function FieldTable(fields: seq<Field>, ui: FieldColumns): (cols: seq<Column>)
    ensures Covers(cols, |fields|) && DistinctAttrs(cols)
  {
    [ Column(FieldName, seq(|fields|, i requires 0 <= i < |fields| => Text(fields[i].name)), Texts(ui.names)),
      Column(FieldType, seq(|fields|, i requires 0 <= i < |fields| => Text(fields[i].scalarType)), Texts(ui.types)),
      Column(FieldPk, seq(|fields|, i requires 0 <= i < |fields| => Flag(fields[i].pk)), Flags(ui.pks)) ]
  }

  /** The empty-list checks run in the order names, types, PK statuses. */
  lemma FieldTableFirstEmpty(fields: seq<Field>, ui: FieldColumns)
    ensures FirstEmpty(FieldTable(fields, ui))
         == if ui.names == [] then Some(FieldName)
            else if ui.types == [] then Some(FieldType)
            else if ui.pks == [] then Some(FieldPk)
            else None
  {
    var cols := FieldTable(fields, ui);
    assert cols[1..] == [cols[1], cols[2]] && cols[1..][1..] == [cols[2]] && [cols[2]][1..] == [];
    assert FirstEmpty([cols[2]]) == if ui.pks == [] then Some(FieldPk) else None;
    assert FirstEmpty([cols[1], cols[2]]) == if ui.types == [] then Some(FieldType) else FirstEmpty([cols[2]]);
  }

  /** The field columns of `fields` against what the field read yielded. */
  function EntityItems(fields: seq<Field>, read: Outcome<FieldColumns>): Outcome<seq<Column>>
  {
    match read
    case Fail(m) => Fail(m)
    case Ok(ui) => Ok(FieldTable(fields, ui))
  }

  function EntityProbe(x: Entity, o: EntityView): Probe
  {
    Probe(o.navigation, o.name, EntityItems(x.fields, o.fields))
  }

  function EntityDiff(x: Entity, o: EntityView): Diff
  {
    ResourceDiff(Entities, EntityLabel, x.entityName, EntityProbe(x, o), |x.fields|)
  }

  function EntityBatch(x: Entity, o: EntityView): (b: Batch)
    ensures Sound(b) && b.resource == EntityLabel
  {
    BatchOf(EntityLabel, EntityDiff(x, o))
  }

  function EntityBatches(xs: seq<Entity>, observe: nat -> EntityView): (bs: seq<Batch>)
    ensures AllSound(bs)
  {
    var bs := seq(|xs|, i requires 0 <= i < |xs| => EntityBatch(xs[i], observe(i)));
    assert forall i :: 0 <= i < |xs| ==> bs[i] == EntityBatch(xs[i], observe(i));
    bs
  }

  // ------------------------------------------------------------ enumerations

  function LiteralTable(literals: seq<EnumLiteral>, ui: seq<string>): (cols: seq<Column>)
    ensures Covers(cols, |literals|) && DistinctAttrs(cols)
  {
    [ Column(LiteralConstant, seq(|literals|, i requires 0 <= i < |literals| => Text(literals[i].constant)), Texts(ui)) ]
  }

  /** The one empty-list check of the enumeration loop. */
  lemma LiteralTableFirstEmpty(literals: seq<EnumLiteral>, ui: seq<string>)
    ensures FirstEmpty(LiteralTable(literals, ui)) == if ui == [] then Some(LiteralConstant) else None
  {
    assert LiteralTable(literals, ui)[1..] == [];
  }

  /** The literal column of `literals` against what the literal read yielded. */
  function EnumItems(literals: seq<EnumLiteral>, read: Outcome<seq<string>>): Outcome<seq<Column>>
  {
    match read
    case Fail(m) => Fail(m)
    case Ok(ui) => Ok(LiteralTable(literals, ui))
  }

  function EnumProbe(x: Enumeration, o: EnumView): Probe
  {
    Probe(o.navigation, o.name, EnumItems(x.literals, o.literals))
  }

  function EnumDiff(x: Enumeration, o: EnumView): Diff
  {
    ResourceDiff(Enumerations, EnumLabel, x.name, EnumProbe(x, o), |x.literals|)
  }

  function EnumBatch(x: Enumeration, o: EnumView): (b: Batch)
    ensures Sound(b) && b.resource == EnumLabel
  {
    BatchOf(EnumLabel, EnumDiff(x, o))
  }

  function EnumBatches(xs: seq<Enumeration>, observe: nat -> EnumView): (bs: seq<Batch>)
    ensures AllSound(bs)
  {
    var bs := seq(|xs|, i requires 0 <= i < |xs| => EnumBatch(xs[i], observe(i)));
    assert forall i :: 0 <= i < |xs| ==> bs[i] == EnumBatch(xs[i], observe(i));
    bs
  }

  // ------------------------------------------------------------------- flows

  function InputTable(inputs: seq<FlowInput>, ui: InputColumns): (cols: seq<Column>)
    ensures Covers(cols, |inputs|) && DistinctAttrs(cols)
  {
    [ Column(InputName, seq(|inputs|, i requires 0 <= i < |inputs| => Text(inputs[i].name)), Texts(ui.names)),
      Column(InputType, seq(|inputs|, i requires 0 <= i < |inputs| => Text(inputs[i].scalarType)), Texts(ui.types)) ]
  }

  /** The empty-list checks run in the order input names, input types. */
  lemma InputTableFirstEmpty(inputs: seq<FlowInput>, ui: InputColumns)
    ensures FirstEmpty(InputTable(inputs, ui))
         == if ui.names == [] then Some(InputName)
            else if ui.types == [] then Some(InputType)
            else None
  {
    var cols := InputTable(inputs, ui);
    assert cols[1..] == [cols[1]] && cols[1..][1..] == [];
    assert FirstEmpty([cols[1]]) == if ui.types == [] then Some(InputType) else None;
  }

  /** The input columns of `inputs` against what the input read yielded. */
  function FlowItems(inputs: seq<FlowInput>, read: Outcome<InputColumns>): Outcome<seq<Column>>
  {
    match read
    case Fail(m) => Fail(m)
    case Ok(ui) => Ok(InputTable(inputs, ui))
  }

  function FlowProbe(x: Flow, o: FlowView): Probe
  {
    Probe(o.navigation, o.name, FlowItems(x.inputs, o.inputs))
  }

  function FlowDiff(x: Flow, o: FlowView): Diff
  {
    ResourceDiff(Flows, FlowLabel, x.name, FlowProbe(x, o), |x.inputs|)
  }

  function FlowBatch(x: Flow, o: FlowView): (b: Batch)
    ensures Sound(b) && b.resource == FlowLabel
  {
    BatchOf(FlowLabel, FlowDiff(x, o))
  }

  function FlowBatches(xs: seq<Flow>, observe: nat -> FlowView): (bs: seq<Batch>)
    ensures AllSound(bs)
  {
    var bs := seq(|xs|, i requires 0 <= i < |xs| => FlowBatch(xs[i], observe(i)));
    assert forall i :: 0 <= i < |xs| ==> bs[i] == FlowBatch(xs[i], observe(i));
    bs
  }

  // ------------------------------------------------------------- file folders

  /** Name, location and citizen-tool flag, each compared on its own. */
  function FolderChecks(f: FileFolder, d: FolderDetails): Diff
  {
    var resource := FolderLabel(f);
    Check(FileFolders, resource, ResourceName, Text(f.name), Text(Some(d.name)))
      .Then(Check(FileFolders, resource, FolderLocation, Text(f.location), Text(Some(d.location))))
      .Then(Check(FileFolders, resource, CitizenTool, Flag(IsTrue(f.citizenToolEnabled)), Flag(d.citizenTool)))
  }

  /** Everything one folder iteration records. */
  function FolderDiff(f: FileFolder, o: FolderView): Diff
  {
    var resource := FolderLabel(f);
    if o.navigation.Fail? then StepMissing(FileFolders, resource, Navigate, o.navigation.cause)
    else if o.details.Fail? then StepMissing(FileFolders, resource, ReadDetails, o.details.cause)
    else FolderChecks(f, o.details.value)
  }

  function FolderBatch(f: FileFolder, o: FolderView): (b: Batch)
    ensures Sound(b) && b.resource == FolderLabel(f)
  {
    BatchOf(FolderLabel(f), FolderDiff(f, o))
  }

  function FolderBatches(xs: seq<FileFolder>, observe: nat -> FolderView): (bs: seq<Batch>)
    ensures AllSound(bs)
  {
    var bs := seq(|xs|, i requires 0 <= i < |xs| => FolderBatch(xs[i], observe(i)));
    assert forall i :: 0 <= i < |xs| ==> bs[i] == FolderBatch(xs[i], observe(i));
    bs
  }
}
