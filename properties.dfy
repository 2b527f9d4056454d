/**
 * What the reconciliation pass promises, stated against reference
 * definitions written in the source's own terms (Java `equals` against the
 * expected record, the UI lists read by position) rather than against the
 * Diff functions the loop methods are proved to follow.
 */
module Properties {
  import opened Resources
  import opened Observations
  import opened Discrepancies
  import opened Positional
  import opened Reconcile

  // ------------------------------------------------- one resource iteration

  /** Every observed sub-item list has at least one element. */
  predicate NoEmptyList(cols: seq<Column>)
  {
    forall j :: 0 <= j < |cols| ==> cols[j].observed != []
  }

  /**
   * An entity, enumeration or flow iteration records nothing exactly when
   * every step succeeds, the observed name (null read as "") equals the
   * expected one, no observed list is empty and every expected sub-item is
   * shown at its own position.
   */
  lemma ResourceVerifiedIff(kind: Kind, resource: string, expectedName: JString, p: Probe, n: nat)
    requires p.items.Ok? ==> Covers(p.items.value, n)
    ensures ResourceDiff(kind, resource, expectedName, p, n).IsEmpty() <==>
      && p.navigation.Ok? && p.name.Ok? && p.items.Ok?
      && JEquals(NullAsEmpty(p.name.value), expectedName)
      && NoEmptyList(p.items.value)
      && AllRowsMatch(p.items.value, n)
  {
    if p.navigation.Ok? && p.name.Ok? {
      var named := NameCheck(kind, resource, expectedName, NullAsEmpty(p.name.value));
      var items := ItemsDiff(kind, resource, p.items, n);
      ThenIsEmpty(named, items);
      if p.items.Ok? {
        FirstEmptySpec(p.items.value);
        if FirstEmpty(p.items.value).None? {
          TableEmptyIff(kind, resource, p.items.value, n);
        }
      }
    }
  }

  /**
   * A failed step or an empty observed list cuts the iteration short: it is
   * the only way an entry other than a sub-item entry reaches the missing
   * list, and it leaves exactly one missing entry.
   */
  lemma Interruption(kind: Kind, resource: string, expectedName: JString, p: Probe, n: nat)
    requires p.items.Ok? ==> Covers(p.items.value, n)
    ensures var d := ResourceDiff(kind, resource, expectedName, p, n);
      && (CutShort(p) <==> exists e <- d.missing :: !e.IsItem())
      && (CutShort(p) ==> |d.missing| == 1 && !d.IsEmpty())
  {
    var d := ResourceDiff(kind, resource, expectedName, p, n);
    if p.navigation.Ok? && p.name.Ok? {
      var items := ItemsDiff(kind, resource, p.items, n);
      assert d.missing == [] + items.missing == items.missing;
      if CutShort(p) {
        assert !d.missing[0].IsItem();
      } else {
        TableEntries(kind, resource, p.items.value, n);
        assert forall e <- d.missing :: e.IsItem();
      }
    } else {
      assert !d.missing[0].IsItem();
    }
  }

  /**
   * The name comparison never stops the iteration: the sub-item steps run
   * whatever the name, a differing name adds one mismatch in front of the
   * sub-item entries, and a null observed name is compared as "".
   */
  lemma NameMismatchDoesNotStop(kind: Kind, resource: string, expectedName: JString, p: Probe, n: nat)
    requires p.items.Ok? ==> Covers(p.items.value, n)
    requires p.navigation.Ok? && p.name.Ok?
    ensures var d, items := ResourceDiff(kind, resource, expectedName, p, n), ItemsDiff(kind, resource, p.items, n);
      var observed := if p.name.value.Some? then p.name.value.value else "";
      && d.missing == items.missing
      && (JEquals(observed, expectedName) ==> d.mismatched == items.mismatched)
      && (!JEquals(observed, expectedName) ==>
            d.mismatched == [ResourceDiffers(kind, resource, ResourceName, Text(expectedName), Text(Some(observed)))] + items.mismatched)
  {
    var items := ItemsDiff(kind, resource, p.items, n);
    assert [] + items.missing == items.missing;
    assert [] + items.mismatched == items.mismatched;
  }

  /** `"".equals(null)` is false: an expected name that is null can never be verified. */
  lemma NullExpectedNameNeverVerifies(kind: Kind, resource: string, p: Probe, n: nat)
    requires p.items.Ok? ==> Covers(p.items.value, n)
    ensures !ResourceDiff(kind, resource, None, p, n).IsEmpty()
  {
    ResourceVerifiedIff(kind, resource, None, p, n);
  }

  /**
   * The empty-list check runs even when nothing is expected: a record with no
   * sub-items is verified only when every observed list is non-empty.
   */
  lemma EmptyExpectationStillNeedsItems(kind: Kind, resource: string, expectedName: JString, p: Probe)
    requires p.navigation.Ok? && p.name.Ok? && p.items.Ok?
    requires JEquals(NullAsEmpty(p.name.value), expectedName)
    ensures ResourceDiff(kind, resource, expectedName, p, 0).IsEmpty() <==> NoEmptyList(p.items.value)
  {
    ResourceVerifiedIff(kind, resource, expectedName, p, 0);
  }

  // ---------------------------------------------------------------- entities

  /** The expected field at `i` is shown at position `i` of each of the three UI lists. */
  predicate FieldShownAt(fields: seq<Field>, ui: FieldColumns, i: nat)
    requires i < |fields|
  {
    && i < |ui.names| && JEquals(ui.names[i], fields[i].name)
    && i < |ui.types| && JEquals(ui.types[i], fields[i].scalarType)
    && i < |ui.pks| && ui.pks[i] == fields[i].pk
  }

  /** The conditions under which the entity loop counts an entity as verified. */
  predicate EntityMatches(x: Entity, o: EntityView)
  {
    && o.navigation.Ok? && o.name.Ok? && o.fields.Ok?
    && JEquals(NullAsEmpty(o.name.value), x.entityName)
    && o.fields.value.names != [] && o.fields.value.types != [] && o.fields.value.pks != []
    && forall i :: 0 <= i < |x.fields| ==> FieldShownAt(x.fields, o.fields.value, i)
  }

  lemma FieldRowMatches(fields: seq<Field>, ui: FieldColumns, i: nat)
    requires i < |fields|
    ensures RowMatches(FieldTable(fields, ui), i) <==> FieldShownAt(fields, ui, i)
  {
    RowMatchesOfColumns(FieldTable(fields, ui), i);
  }

  lemma FieldTableMatches(fields: seq<Field>, ui: FieldColumns)
    ensures NoEmptyList(FieldTable(fields, ui)) <==> ui.names != [] && ui.types != [] && ui.pks != []
    ensures AllRowsMatch(FieldTable(fields, ui), |fields|) <==> forall i :: 0 <= i < |fields| ==> FieldShownAt(fields, ui, i)
  {
    var cols := FieldTable(fields, ui);
    FirstEmptySpec(cols);
    FieldTableFirstEmpty(fields, ui);
    forall i | 0 <= i < |fields|
      ensures RowMatches(cols, i) <==> FieldShownAt(fields, ui, i)
    {
      FieldRowMatches(fields, ui, i);
    }
  }

  /** An entity is counted verified exactly when it matches in every step. */
  lemma EntityVerifiedIff(x: Entity, o: EntityView)
    ensures EntityBatch(x, o).verified <==> EntityMatches(x, o)
  {
    ResourceVerifiedIff(Entities, EntityLabel, x.entityName, EntityProbe(x, o), |x.fields|);
    if o.fields.Ok? {
      FieldTableMatches(x.fields, o.fields.value);
    }
  }

  /** The entity test ends in Assert.fail exactly when some expected entity does not match. */
  lemma EntitiesFailIff(xs: seq<Entity>, observe: nat -> EntityView)
    ensures KindFails(Tally(EntityBatches(xs, observe))) <==> exists k :: 0 <= k < |xs| && !EntityMatches(xs[k], observe(k))
  {
    var bs := EntityBatches(xs, observe);
    FailsIffSomeResourceFailed(bs);
    FailedIffSomeUnverified(bs);
    forall k | 0 <= k < |xs|
      ensures bs[k].verified <==> EntityMatches(xs[k], observe(k))
    {
      EntityVerifiedIff(xs[k], observe(k));
    }
  }

  // ------------------------------------------------------------ enumerations

  /** The expected literal at `i` is shown at position `i` of the UI list. */
  predicate LiteralShownAt(literals: seq<EnumLiteral>, ui: seq<string>, i: nat)
    requires i < |literals|
  {
    i < |ui| && JEquals(ui[i], literals[i].constant)
  }

  /** The conditions under which the enumeration loop counts an enumeration as verified. */
  predicate EnumMatches(x: Enumeration, o: EnumView)
  {
    && o.navigation.Ok? && o.name.Ok? && o.literals.Ok?
    && JEquals(NullAsEmpty(o.name.value), x.name)
    && o.literals.value != []
    && forall i :: 0 <= i < |x.literals| ==> LiteralShownAt(x.literals, o.literals.value, i)
  }

  lemma LiteralTableMatches(literals: seq<EnumLiteral>, ui: seq<string>)
    ensures NoEmptyList(LiteralTable(literals, ui)) <==> ui != []
    ensures AllRowsMatch(LiteralTable(literals, ui), |literals|) <==>
      forall i :: 0 <= i < |literals| ==> LiteralShownAt(literals, ui, i)
  {
    var cols := LiteralTable(literals, ui);
    FirstEmptySpec(cols);
    LiteralTableFirstEmpty(literals, ui);
    forall i | 0 <= i < |literals|
      ensures RowMatches(cols, i) <==> LiteralShownAt(literals, ui, i)
    {
      RowMatchesOfColumns(cols, i);
    }
  }

  /** An enumeration is counted verified exactly when it matches in every step. */
  lemma EnumVerifiedIff(x: Enumeration, o: EnumView)
    ensures EnumBatch(x, o).verified <==> EnumMatches(x, o)
  {
    ResourceVerifiedIff(Enumerations, EnumLabel, x.name, EnumProbe(x, o), |x.literals|);
    if o.literals.Ok? {
      LiteralTableMatches(x.literals, o.literals.value);
    }
  }

  /** The enumeration test ends in Assert.fail exactly when some expected enumeration does not match. */
  lemma EnumerationsFailIff(xs: seq<Enumeration>, observe: nat -> EnumView)
    ensures KindFails(Tally(EnumBatches(xs, observe))) <==> exists k :: 0 <= k < |xs| && !EnumMatches(xs[k], observe(k))
  {
    var bs := EnumBatches(xs, observe);
    FailsIffSomeResourceFailed(bs);
    FailedIffSomeUnverified(bs);
    forall k | 0 <= k < |xs|
      ensures bs[k].verified <==> EnumMatches(xs[k], observe(k))
    {
      EnumVerifiedIff(xs[k], observe(k));
    }
  }

  // ------------------------------------------------------------------- flows

  /** The expected input at `i` is shown at position `i` of both UI lists. */
  predicate InputShownAt(inputs: seq<FlowInput>, ui: InputColumns, i: nat)
    requires i < |inputs|
  {
    && i < |ui.names| && JEquals(ui.names[i], inputs[i].name)
    && i < |ui.types| && JEquals(ui.types[i], inputs[i].scalarType)
  }

  /** The conditions under which the flow loop counts a flow as verified. */
  predicate FlowMatches(x: Flow, o: FlowView)
  {
    && o.navigation.Ok? && o.name.Ok? && o.inputs.Ok?
    && JEquals(NullAsEmpty(o.name.value), x.name)
    && o.inputs.value.names != [] && o.inputs.value.types != []
    && forall i :: 0 <= i < |x.inputs| ==> InputShownAt(x.inputs, o.inputs.value, i)
  }

  lemma InputTableMatches(inputs: seq<FlowInput>, ui: InputColumns)
    ensures NoEmptyList(InputTable(inputs, ui)) <==> ui.names != [] && ui.types != []
    ensures AllRowsMatch(InputTable(inputs, ui), |inputs|) <==> forall i :: 0 <= i < |inputs| ==> InputShownAt(inputs, ui, i)
  {
    var cols := InputTable(inputs, ui);
    FirstEmptySpec(cols);
    InputTableFirstEmpty(inputs, ui);
    forall i | 0 <= i < |inputs|
      ensures RowMatches(cols, i) <==> InputShownAt(inputs, ui, i)
    {
      RowMatchesOfColumns(cols, i);
    }
  }

  /** A flow is counted verified exactly when it matches in every step. */
  lemma FlowVerifiedIff(x: Flow, o: FlowView)
    ensures FlowBatch(x, o).verified <==> FlowMatches(x, o)
  {
    ResourceVerifiedIff(Flows, FlowLabel, x.name, FlowProbe(x, o), |x.inputs|);
    if o.inputs.Ok? {
      InputTableMatches(x.inputs, o.inputs.value);
    }
  }

  /** The flow test ends in Assert.fail exactly when some expected flow does not match. */
  lemma FlowsFailIff(xs: seq<Flow>, observe: nat -> FlowView)
    ensures KindFails(Tally(FlowBatches(xs, observe))) <==> exists k :: 0 <= k < |xs| && !FlowMatches(xs[k], observe(k))
  {
    var bs := FlowBatches(xs, observe);
    FailsIffSomeResourceFailed(bs);
    FailedIffSomeUnverified(bs);
    forall k | 0 <= k < |xs|
      ensures bs[k].verified <==> FlowMatches(xs[k], observe(k))
    {
      FlowVerifiedIff(xs[k], observe(k));
    }
  }

  // ------------------------------------------------------------------ labels

  /** Every entry one iteration records carries the iteration's kind and label. */
  lemma ResourceEntriesLabelled(kind: Kind, resource: string, expectedName: JString, p: Probe, n: nat)
    requires p.items.Ok? ==> Covers(p.items.value, n)
    ensures Labelled(ResourceDiff(kind, resource, expectedName, p, n), kind, resource)
  {
    if p.navigation.Ok? && p.name.Ok? && p.items.Ok? && FirstEmpty(p.items.value).None? {
      TableEntries(kind, resource, p.items.value, n);
    }
  }

  /**
   * Entity entries are all filed under the one fixed entity label, whatever
   * the expected entity's name; the same goes for enumerations and flows.
   */
  lemma EntityEntriesLabelled(x: Entity, o: EntityView)
    ensures Labelled(EntityDiff(x, o), Entities, EntityLabel)
  {
    ResourceEntriesLabelled(Entities, EntityLabel, x.entityName, EntityProbe(x, o), |x.fields|);
  }

  lemma EnumEntriesLabelled(x: Enumeration, o: EnumView)
    ensures Labelled(EnumDiff(x, o), Enumerations, EnumLabel)
  {
    ResourceEntriesLabelled(Enumerations, EnumLabel, x.name, EnumProbe(x, o), |x.literals|);
  }

  lemma FlowEntriesLabelled(x: Flow, o: FlowView)
    ensures Labelled(FlowDiff(x, o), Flows, FlowLabel)
  {
    ResourceEntriesLabelled(Flows, FlowLabel, x.name, FlowProbe(x, o), |x.inputs|);
  }

  /**
   * So the entity test's lists cannot tell two entities apart: every entry
   * and every verified label it reports is the fixed entity label.
   */
  lemma EntityReportLabels(xs: seq<Entity>, observe: nat -> EntityView)
    ensures var r := Tally(EntityBatches(xs, observe));
      && (forall e <- r.missing + r.mismatched :: e.kind == Entities && e.resource == EntityLabel)
      && (forall l <- r.verifiedLabels :: l == EntityLabel)
  {
    var bs := EntityBatches(xs, observe);
    forall k | 0 <= k < |bs|
      ensures bs[k].resource == EntityLabel && Labelled(bs[k].diff, Entities, EntityLabel)
    {
      EntityEntriesLabelled(xs[k], observe(k));
    }
    TallyUnderOneLabel(bs, Entities, EntityLabel);
  }

  lemma EnumReportLabels(xs: seq<Enumeration>, observe: nat -> EnumView)
    ensures var r := Tally(EnumBatches(xs, observe));
      && (forall e <- r.missing + r.mismatched :: e.kind == Enumerations && e.resource == EnumLabel)
      && (forall l <- r.verifiedLabels :: l == EnumLabel)
  {
    var bs := EnumBatches(xs, observe);
    forall k | 0 <= k < |bs|
      ensures bs[k].resource == EnumLabel && Labelled(bs[k].diff, Enumerations, EnumLabel)
    {
      EnumEntriesLabelled(xs[k], observe(k));
    }
    TallyUnderOneLabel(bs, Enumerations, EnumLabel);
  }

  lemma FlowReportLabels(xs: seq<Flow>, observe: nat -> FlowView)
    ensures var r := Tally(FlowBatches(xs, observe));
      && (forall e <- r.missing + r.mismatched :: e.kind == Flows && e.resource == FlowLabel)
      && (forall l <- r.verifiedLabels :: l == FlowLabel)
  {
    var bs := FlowBatches(xs, observe);
    forall k | 0 <= k < |bs|
      ensures bs[k].resource == FlowLabel && Labelled(bs[k].diff, Flows, FlowLabel)
    {
      FlowEntriesLabelled(xs[k], observe(k));
    }
    TallyUnderOneLabel(bs, Flows, FlowLabel);
  }

  /** Folder entries, by contrast, are filed under the expected folder's own name. */
  lemma FolderEntriesLabelled(f: FileFolder, o: FolderView)
    ensures Labelled(FolderDiff(f, o), FileFolders, FolderLabel(f))
  {
    if o.navigation.Ok? && o.details.Ok? {
      var resource := FolderLabel(f);
      var d := o.details.value;
      var c0 := Check(FileFolders, resource, ResourceName, Text(f.name), Text(Some(d.name)));
      var c1 := Check(FileFolders, resource, FolderLocation, Text(f.location), Text(Some(d.location)));
      var c2 := Check(FileFolders, resource, CitizenTool, Flag(IsTrue(f.citizenToolEnabled)), Flag(d.citizenTool));
      assert FolderChecks(f, d).missing == [];
      assert FolderChecks(f, d).mismatched == c0.mismatched + c1.mismatched + c2.mismatched;
    }
  }

  /**
   * Two folders with different non-null names get different labels; a null
   * name is labelled as if the folder were named "null".
   */
  lemma FolderLabelsDistinct(f: FileFolder, g: FileFolder)
    ensures f.name.Some? && g.name.Some? && f.name != g.name ==> FolderLabel(f) != FolderLabel(g)
    ensures f.name.None? && g.name == Some("null") ==> FolderLabel(f) == FolderLabel(g)
  {
    var prefix := "FileFolder: ";
    assert FolderLabel(f)[|prefix|..] == Show(f.name);
    assert FolderLabel(g)[|prefix|..] == Show(g.name);
  }

  // ------------------------------------------------------------- file folders

  /** Whether the folder comparison recorded a mismatch about `a`. */
  predicate MismatchOn(d: Diff, a: Attr)
  {
    exists e <- d.mismatched :: e.ResourceDiffers? && e.attr == a
  }

  /**
   * Name, location and citizen-tool flag are compared independently: no
   * missing entry and one resource-level mismatch per differing attribute,
   * a null expected flag being expected off.
   */
  lemma FolderMismatchCount(f: FileFolder, d: FolderDetails)
    ensures var c := FolderChecks(f, d);
      && c.missing == []
      && (forall e <- c.mismatched :: e.ResourceDiffers? && e.resource == FolderLabel(f))
      && |c.mismatched| == (if JEquals(d.name, f.name) then 0 else 1) + (if JEquals(d.location, f.location) then 0 else 1)
                           + (if d.citizenTool == (f.citizenToolEnabled == Some(true)) then 0 else 1)
  {
    var resource := FolderLabel(f);
    var c0 := Check(FileFolders, resource, ResourceName, Text(f.name), Text(Some(d.name)));
    var c1 := Check(FileFolders, resource, FolderLocation, Text(f.location), Text(Some(d.location)));
    var c2 := Check(FileFolders, resource, CitizenTool, Flag(IsTrue(f.citizenToolEnabled)), Flag(d.citizenTool));
    assert FolderChecks(f, d).mismatched == c0.mismatched + c1.mismatched + c2.mismatched;
  }

  lemma MismatchOnThen(d1: Diff, d2: Diff, a: Attr)
    ensures MismatchOn(d1.Then(d2), a) <==> MismatchOn(d1, a) || MismatchOn(d2, a)
  {
    var ms := d1.Then(d2).mismatched;
    assert forall e <- ms :: e in d1.mismatched || e in d2.mismatched;
  }

  lemma MismatchOnCheck(kind: Kind, resource: string, attr: Attr, expected: Value, observed: Value, a: Attr)
    ensures MismatchOn(Check(kind, resource, attr, expected, observed), a) <==> a == attr && observed != expected
  {
    if observed != expected {
      assert Check(kind, resource, attr, expected, observed).mismatched[0].attr == attr;
    }
  }

  /** Each attribute gets its mismatch entry exactly when it differs, whatever the other two do. */
  lemma FolderMismatchAttrs(f: FileFolder, d: FolderDetails, a: Attr)
    ensures MismatchOn(FolderChecks(f, d), a) <==>
      || (a == ResourceName && !JEquals(d.name, f.name))
      || (a == FolderLocation && !JEquals(d.location, f.location))
      || (a == CitizenTool && d.citizenTool != (f.citizenToolEnabled == Some(true)))
  {
    var resource := FolderLabel(f);
    var c0 := Check(FileFolders, resource, ResourceName, Text(f.name), Text(Some(d.name)));
    var c1 := Check(FileFolders, resource, FolderLocation, Text(f.location), Text(Some(d.location)));
    var c2 := Check(FileFolders, resource, CitizenTool, Flag(IsTrue(f.citizenToolEnabled)), Flag(d.citizenTool));
    MismatchOnCheck(FileFolders, resource, ResourceName, Text(f.name), Text(Some(d.name)), a);
    MismatchOnCheck(FileFolders, resource, FolderLocation, Text(f.location), Text(Some(d.location)), a);
    MismatchOnCheck(FileFolders, resource, CitizenTool, Flag(IsTrue(f.citizenToolEnabled)), Flag(d.citizenTool), a);
    MismatchOnThen(c0, c1, a);
    MismatchOnThen(c0.Then(c1), c2, a);
  }

  /** The conditions under which the folder loop counts a folder as verified. */
  predicate FolderMatches(f: FileFolder, o: FolderView)
  {
    && o.navigation.Ok? && o.details.Ok?
    && JEquals(o.details.value.name, f.name)
    && JEquals(o.details.value.location, f.location)
    && o.details.value.citizenTool == (f.citizenToolEnabled == Some(true))
  }

  /** A folder is counted verified exactly when it matches; a failed step always records one missing entry. */
  lemma FolderVerifiedIff(f: FileFolder, o: FolderView)
    ensures FolderBatch(f, o).verified <==> FolderMatches(f, o)
    ensures o.navigation.Fail? || o.details.Fail? ==>
      |FolderDiff(f, o).missing| == 1 && FolderDiff(f, o).missing[0].StepFailed? && FolderDiff(f, o).mismatched == []
  {
    if o.navigation.Ok? && o.details.Ok? {
      FolderMismatchCount(f, o.details.value);
    }
  }

  /** The folder test ends in Assert.fail exactly when some expected folder does not match. */
  lemma FoldersFailIff(xs: seq<FileFolder>, observe: nat -> FolderView)
    ensures KindFails(Tally(FolderBatches(xs, observe))) <==> exists k :: 0 <= k < |xs| && !FolderMatches(xs[k], observe(k))
  {
    var bs := FolderBatches(xs, observe);
    FailsIffSomeResourceFailed(bs);
    FailedIffSomeUnverified(bs);
    forall k | 0 <= k < |xs|
      ensures bs[k].verified <==> FolderMatches(xs[k], observe(k))
    {
      FolderVerifiedIff(xs[k], observe(k));
    }
  }
}
