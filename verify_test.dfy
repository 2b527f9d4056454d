/**
 * The verification test class: one method per resource kind, run in test
 * priority order, each walking the expected records of its kind and
 * collecting missing and mismatched entries into local lists and into the
 * run-wide lists the class keeps.
 *
 * Every step that appends an entry appends it to a local list and to the
 * matching run-wide list; the helpers state this as Mirrors: the run-wide
 * list is what it held before the test method started, followed by the
 * local list.
 */
module Validation {
  import opened Resources
  import opened Observations
  import opened Discrepancies
  import opened Positional
  import opened Reconcile

  class VerifyTest {
    /** The run-wide lists every test method appends to. */
    var globalMissing: seq<Entry>
    var globalMismatches: seq<Entry>
    var globalVerified: seq<string>

    constructor ()
      ensures globalMissing == [] && globalMismatches == [] && globalVerified == []
    {
      globalMissing := [];
      globalMismatches := [];
      globalVerified := [];
    }

    /** The run-wide lists are `missingBase` and `mismatchBase` followed by the local lists. */
    ghost predicate Mirrors(missingBase: seq<Entry>, mismatchBase: seq<Entry>, missing: seq<Entry>, mismatched: seq<Entry>)
      reads this
    {
      globalMissing == missingBase + missing && globalMismatches == mismatchBase + mismatched
    }

    // ------------------------------------------------------------ shared steps

    /** `missingResources.add(msg); globalMissing.add(msg);` */
    method AddMissing(msg: Entry, missing: seq<Entry>, mismatched: seq<Entry>, ghost missingBase: seq<Entry>, ghost mismatchBase: seq<Entry>)
      returns (missingResources: seq<Entry>)
      requires Mirrors(missingBase, mismatchBase, missing, mismatched)
      modifies this
      ensures missingResources == missing + [msg]
      ensures Mirrors(missingBase, mismatchBase, missingResources, mismatched)
      ensures globalVerified == old(globalVerified)
    {
      missingResources := missing + [msg];
      globalMissing := globalMissing + [msg];
      AppendAssoc(missingBase, missing, [msg]);
    }

    /**
     * One resource-level comparison: a mismatch entry in the local and the
     * run-wide list when the UI value is not the expected one.
     */
    method CompareAttribute(kind: Kind, resourceLabel: string, attr: Attr, expected: Value, found: Value,
                            missing: seq<Entry>, mismatched: seq<Entry>, ghost missingBase: seq<Entry>, ghost mismatchBase: seq<Entry>)
      returns (mismatchedResources: seq<Entry>, differs: bool)
      requires Mirrors(missingBase, mismatchBase, missing, mismatched)
      modifies this
      ensures var d := Check(kind, resourceLabel, attr, expected, found);
        && d.missing == []
        && mismatchedResources == mismatched + d.mismatched
        && (differs <==> !d.IsEmpty())
      ensures Mirrors(missingBase, mismatchBase, missing, mismatchedResources)
      ensures globalVerified == old(globalVerified)
    {
      mismatchedResources := mismatched;
      differs := found != expected;
      if differs {
        var msg := ResourceDiffers(kind, resourceLabel, attr, expected, found);
        mismatchedResources := mismatchedResources + [msg];
        globalMismatches := globalMismatches + [msg];
        AppendAssoc(mismatchBase, mismatched, [msg]);
      }
    }

    /**
     * One attribute of one expected sub-item: a mismatch when the UI list has
     * a different value at position `i`, a missing entry when the UI list is
     * shorter than `i + 1`.
     */
    method CompareCell(kind: Kind, resourceLabel: string, c: Column, i: nat,
                       missing: seq<Entry>, mismatched: seq<Entry>, ghost missingBase: seq<Entry>, ghost mismatchBase: seq<Entry>)
      returns (missingResources: seq<Entry>, mismatchedResources: seq<Entry>, differs: bool)
      requires i < |c.expected|
      requires Mirrors(missingBase, mismatchBase, missing, mismatched)
      modifies this
      ensures var d := Cell(kind, resourceLabel, c, i);
        && missingResources == missing + d.missing
        && mismatchedResources == mismatched + d.mismatched
        && (differs <==> !d.IsEmpty())
      ensures Mirrors(missingBase, mismatchBase, missingResources, mismatchedResources)
      ensures globalVerified == old(globalVerified)
    {
      missingResources, mismatchedResources, differs := missing, mismatched, false;
      if i < |c.observed| {
        if c.observed[i] != c.expected[i] {
          differs := true;
          var msg := ItemDiffers(kind, resourceLabel, c.attr, i, c.expected[i], c.observed[i]);
          mismatchedResources := mismatchedResources + [msg];
          globalMismatches := globalMismatches + [msg];
          AppendAssoc(mismatchBase, mismatched, [msg]);
        }
      } else {
        differs := true;
        var msg := ItemAbsent(kind, resourceLabel, c.attr, i, c.expected[i]);
        missingResources := missingResources + [msg];
        globalMissing := globalMissing + [msg];
        AppendAssoc(missingBase, missing, [msg]);
      }
    }

    // ---------------------------------------------------------------- entities

    /**
     * Priority 1. `observe(k)` is what the UI steps yield while the k-th
     * expected entity is being checked. `assertFails` is the Assert.fail at
     * the end of the method.
     */
    method VerifyEntities(entities: seq<Entity>, observe: nat -> EntityView) returns (report: KindReport, assertFails: bool)
      modifies this
      ensures report == Tally(EntityBatches(entities, observe))
      ensures assertFails == KindFails(report) && (assertFails <==> report.failed > 0)
      ensures globalMissing == old(globalMissing) + report.missing
      ensures globalMismatches == old(globalMismatches) + report.mismatched
      ensures globalVerified == old(globalVerified) + report.verifiedLabels
    {
      ghost var batches := EntityBatches(entities, observe);
      var missingResources: seq<Entry> := [];
      var mismatchedResources: seq<Entry> := [];
      var verifiedResources: seq<string> := [];
      var total, verified, failed := 0, 0, 0;

      for k := 0 to |entities|
        invariant KindReport(total, verified, failed, missingResources, mismatchedResources, verifiedResources)
               == Tally(batches[..k])
        invariant globalMissing == old(globalMissing) + missingResources
        invariant globalMismatches == old(globalMismatches) + mismatchedResources
        invariant globalVerified == old(globalVerified) + verifiedResources
      {
        ghost var r0 := KindReport(total, verified, failed, missingResources, mismatchedResources, verifiedResources);
        var entity := entities[k];
        var view := observe(k);
        total := total + 1;
        var resourceLabel := EntityLabel;
        assert batches[k] == EntityBatch(entity, view);
        var ok;
        missingResources, mismatchedResources, ok :=
          CheckEntity(resourceLabel, entity, view, missingResources, mismatchedResources, old(globalMissing), old(globalMismatches));
        if ok {
          AppendAssoc(old(globalVerified), verifiedResources, [resourceLabel]);
          verified := verified + 1;
          verifiedResources := verifiedResources + [resourceLabel];
          globalVerified := globalVerified + [resourceLabel];
        } else {
          failed := failed + 1;
        }
        RecordStep(batches, k, r0, KindReport(total, verified, failed, missingResources, mismatchedResources, verifiedResources));
      }

      report := KindReport(total, verified, failed, missingResources, mismatchedResources, verifiedResources);
      assert batches[..|entities|] == batches;
      FailsIffSomeResourceFailed(batches);
      assertFails := |missingResources| > 0 || |mismatchedResources| > 0;
    }

    /**
     * One iteration of the entity loop; each early `return` is a `continue`
     * of the loop. `ok` is false exactly when the iteration counts the
     * entity as failed.
     */
    method CheckEntity(resourceLabel: string, entity: Entity, view: EntityView,
                       missing: seq<Entry>, mismatched: seq<Entry>, ghost missingBase: seq<Entry>, ghost mismatchBase: seq<Entry>)
      returns (missingResources: seq<Entry>, mismatchedResources: seq<Entry>, ok: bool)
      requires resourceLabel == EntityLabel
      requires Mirrors(missingBase, mismatchBase, missing, mismatched)
      modifies this
      ensures var d := EntityDiff(entity, view);
        && missingResources == missing + d.missing
        && mismatchedResources == mismatched + d.mismatched
        && (ok <==> d.IsEmpty())
      ensures Mirrors(missingBase, mismatchBase, missingResources, mismatchedResources)
      ensures globalVerified == old(globalVerified)
    {
      missingResources, mismatchedResources := missing, mismatched;
      if view.navigation.Fail? {
        var msg := StepFailed(Entities, resourceLabel, Navigate, view.navigation.cause);
        missingResources := AddMissing(msg, missingResources, mismatchedResources, missingBase, mismatchBase);
        return missingResources, mismatchedResources, false;
      }
      if view.name.Fail? {
        var msg := StepFailed(Entities, resourceLabel, ReadDetails, view.name.cause);
        missingResources := AddMissing(msg, missingResources, mismatchedResources, missingBase, mismatchBase);
        return missingResources, mismatchedResources, false;
      }
      var uiName := if view.name.value.Some? then view.name.value.value else "";

      var nameDiffers;
      mismatchedResources, nameDiffers := CompareAttribute(Entities, resourceLabel, ResourceName,
        Text(entity.entityName), Text(Some(uiName)), missingResources, mismatchedResources, missingBase, mismatchBase);
      var fieldsOk;
      missingResources, mismatchedResources, fieldsOk :=
        CheckFields(resourceLabel, entity.fields, view.fields, missingResources, mismatchedResources, missingBase, mismatchBase);
      ok := !nameDiffers && fieldsOk;

      ghost var named := NameCheck(Entities, resourceLabel, entity.entityName, uiName);
      ghost var items := ItemsDiff(Entities, resourceLabel, EntityItems(entity.fields, view.fields), |entity.fields|);
      assert EntityDiff(entity, view) == named.Then(items);
      assert [] + items.missing == items.missing;
      AppendAssoc(mismatched, named.mismatched, items.mismatched);
      ThenIsEmpty(named, items);
    }

    /** Reading the three field columns, rejecting an empty one (names, then types, then PK statuses), comparing by position. */
    method CheckFields(resourceLabel: string, fields: seq<Field>, read: Outcome<FieldColumns>,
                  missing: seq<Entry>, mismatched: seq<Entry>, ghost missingBase: seq<Entry>, ghost mismatchBase: seq<Entry>)
      returns (missingResources: seq<Entry>, mismatchedResources: seq<Entry>, fieldsOk: bool)
      requires Mirrors(missingBase, mismatchBase, missing, mismatched)
      modifies this
      ensures var d := ItemsDiff(Entities, resourceLabel, EntityItems(fields, read), |fields|);
        && missingResources == missing + d.missing
        && mismatchedResources == mismatched + d.mismatched
        && (fieldsOk <==> d.IsEmpty())
      ensures Mirrors(missingBase, mismatchBase, missingResources, mismatchedResources)
      ensures globalVerified == old(globalVerified)
    {
      missingResources, mismatchedResources := missing, mismatched;
      if read.Fail? {
        var msg := StepFailed(Entities, resourceLabel, ReadItems, read.cause);
        missingResources := AddMissing(msg, missingResources, mismatchedResources, missingBase, mismatchBase);
        return missingResources, mismatchedResources, false;
      }
      var uiFieldNames, uiFieldTypes, uiPKs := read.value.names, read.value.types, read.value.pks;
      FieldTableFirstEmpty(fields, read.value);
      if |uiFieldNames| == 0 {
        missingResources := AddMissing(NoItems(Entities, resourceLabel, FieldName), missingResources, mismatchedResources, missingBase, mismatchBase);
        return missingResources, mismatchedResources, false;
      }
      if |uiFieldTypes| == 0 {
        missingResources := AddMissing(NoItems(Entities, resourceLabel, FieldType), missingResources, mismatchedResources, missingBase, mismatchBase);
        return missingResources, mismatchedResources, false;
      }
      if |uiPKs| == 0 {
        missingResources := AddMissing(NoItems(Entities, resourceLabel, FieldPk), missingResources, mismatchedResources, missingBase, mismatchBase);
        return missingResources, mismatchedResources, false;
      }

      var cols := FieldTable(fields, read.value);
      var anyFieldMismatch;
      missingResources, mismatchedResources, anyFieldMismatch :=
        CompareFields(resourceLabel, cols, |fields|, missingResources, mismatchedResources, missingBase, mismatchBase);
      fieldsOk := !anyFieldMismatch;
    }

    /** The positional loop over the expected fields. */
    method CompareFields(resourceLabel: string, cols: seq<Column>, n: nat,
                  missing: seq<Entry>, mismatched: seq<Entry>, ghost missingBase: seq<Entry>, ghost mismatchBase: seq<Entry>)
      returns (missingResources: seq<Entry>, mismatchedResources: seq<Entry>, anyFieldMismatch: bool)
      requires |cols| == 3 && Covers(cols, n)
      requires Mirrors(missingBase, mismatchBase, missing, mismatched)
      modifies this
      ensures var t := Table(Entities, resourceLabel, cols, n);
        && missingResources == missing + t.missing
        && mismatchedResources == mismatched + t.mismatched
        && (anyFieldMismatch <==> !t.IsEmpty())
      ensures Mirrors(missingBase, mismatchBase, missingResources, mismatchedResources)
      ensures globalVerified == old(globalVerified)
    {
      missingResources, mismatchedResources, anyFieldMismatch := missing, mismatched, false;
      for i := 0 to n
        invariant missingResources == missing + Table(Entities, resourceLabel, cols, i).missing
        invariant mismatchedResources == mismatched + Table(Entities, resourceLabel, cols, i).mismatched
        invariant anyFieldMismatch <==> !Table(Entities, resourceLabel, cols, i).IsEmpty()
        invariant Mirrors(missingBase, mismatchBase, missingResources, mismatchedResources)
        invariant globalVerified == old(globalVerified)
      {
        ghost var m0, mm0 := missingResources, mismatchedResources;
        var fieldDiffers;
        missingResources, mismatchedResources, fieldDiffers :=
          CompareField(resourceLabel, cols, i, missingResources, mismatchedResources, missingBase, mismatchBase);
        anyFieldMismatch := anyFieldMismatch || fieldDiffers;
        TableStep(Entities, resourceLabel, cols, i, missing, mismatched, m0, mm0, missingResources, mismatchedResources);
      }
    }

    /** One expected field at position `i`: its name, then its data type, then its PK status. */
    method CompareField(resourceLabel: string, cols: seq<Column>, i: nat,
                  missing: seq<Entry>, mismatched: seq<Entry>, ghost missingBase: seq<Entry>, ghost mismatchBase: seq<Entry>)
      returns (missingResources: seq<Entry>, mismatchedResources: seq<Entry>, differs: bool)
      requires |cols| == 3 && Covers(cols, i + 1)
      requires Mirrors(missingBase, mismatchBase, missing, mismatched)
      modifies this
      ensures var r := Row(Entities, resourceLabel, cols, i);
        && missingResources == missing + r.missing
        && mismatchedResources == mismatched + r.mismatched
        && (differs <==> !r.IsEmpty())
      ensures Mirrors(missingBase, mismatchBase, missingResources, mismatchedResources)
      ensures globalVerified == old(globalVerified)
    {
      var nameDiffers, typeDiffers, pkDiffers;
      missingResources, mismatchedResources, nameDiffers :=
        CompareCell(Entities, resourceLabel, cols[0], i, missing, mismatched, missingBase, mismatchBase);
      missingResources, mismatchedResources, typeDiffers :=
        CompareCell(Entities, resourceLabel, cols[1], i, missingResources, mismatchedResources, missingBase, mismatchBase);
      missingResources, mismatchedResources, pkDiffers :=
        CompareCell(Entities, resourceLabel, cols[2], i, missingResources, mismatchedResources, missingBase, mismatchBase);
      differs := nameDiffers || typeDiffers || pkDiffers;

      RowOfThree(Entities, resourceLabel, cols, i);
      ghost var c0, c1, c2 := Cell(Entities, resourceLabel, cols[0], i), Cell(Entities, resourceLabel, cols[1], i), Cell(Entities, resourceLabel, cols[2], i);
      AppendAssoc(missing, c0.missing, c1.missing);
      AppendAssoc(missing, c0.missing + c1.missing, c2.missing);
      AppendAssoc(mismatched, c0.mismatched, c1.mismatched);
      AppendAssoc(mismatched, c0.mismatched + c1.mismatched, c2.mismatched);
      assert |c0.missing + c1.missing + c2.missing| == |c0.missing| + |c1.missing| + |c2.missing|;
      assert |c0.mismatched + c1.mismatched + c2.mismatched| == |c0.mismatched| + |c1.mismatched| + |c2.mismatched|;
    }

    // ------------------------------------------------------------ enumerations

    /**
     * Priority 2. `observe(k)` is what the UI steps yield while the k-th
     * expected enumeration is being checked. `assertFails` is the Assert.fail at
     * the end of the method.
     */
    method VerifyEnumerations(enums: seq<Enumeration>, observe: nat -> EnumView) returns (report: KindReport, assertFails: bool)
      modifies this
      ensures report == Tally(EnumBatches(enums, observe))
      ensures assertFails == KindFails(report) && (assertFails <==> report.failed > 0)
      ensures globalMissing == old(globalMissing) + report.missing
      ensures globalMismatches == old(globalMismatches) + report.mismatched
      ensures globalVerified == old(globalVerified) + report.verifiedLabels
    {
      ghost var batches := EnumBatches(enums, observe);
      var missingResources: seq<Entry> := [];
      var mismatchedResources: seq<Entry> := [];
      var verifiedResources: seq<string> := [];
      var total, verified, failed := 0, 0, 0;

      for k := 0 to |enums|
        invariant KindReport(total, verified, failed, missingResources, mismatchedResources, verifiedResources)
               == Tally(batches[..k])
        invariant globalMissing == old(globalMissing) + missingResources
        invariant globalMismatches == old(globalMismatches) + mismatchedResources
        invariant globalVerified == old(globalVerified) + verifiedResources
      {
        ghost var r0 := KindReport(total, verified, failed, missingResources, mismatchedResources, verifiedResources);
        var enm := enums[k];
        var view := observe(k);
        total := total + 1;
        var resourceLabel := EnumLabel;
        assert batches[k] == EnumBatch(enm, view);
        var ok;
        missingResources, mismatchedResources, ok :=
          CheckEnumeration(resourceLabel, enm, view, missingResources, mismatchedResources, old(globalMissing), old(globalMismatches));
        if ok {
          AppendAssoc(old(globalVerified), verifiedResources, [resourceLabel]);
          verified := verified + 1;
          verifiedResources := verifiedResources + [resourceLabel];
          globalVerified := globalVerified + [resourceLabel];
        } else {
          failed := failed + 1;
        }
        RecordStep(batches, k, r0, KindReport(total, verified, failed, missingResources, mismatchedResources, verifiedResources));
      }

      report := KindReport(total, verified, failed, missingResources, mismatchedResources, verifiedResources);
      assert batches[..|enums|] == batches;
      FailsIffSomeResourceFailed(batches);
      assertFails := |missingResources| > 0 || |mismatchedResources| > 0;
    }

    /**
     * One iteration of the enumeration loop; each early `return` is a `continue`
     * of the loop. `ok` is false exactly when the iteration counts the
     * enumeration as failed.
     */
    method CheckEnumeration(resourceLabel: string, enm: Enumeration, view: EnumView,
                       missing: seq<Entry>, mismatched: seq<Entry>, ghost missingBase: seq<Entry>, ghost mismatchBase: seq<Entry>)
      returns (missingResources: seq<Entry>, mismatchedResources: seq<Entry>, ok: bool)
      requires resourceLabel == EnumLabel
      requires Mirrors(missingBase, mismatchBase, missing, mismatched)
      modifies this
      ensures var d := EnumDiff(enm, view);
        && missingResources == missing + d.missing
        && mismatchedResources == mismatched + d.mismatched
        && (ok <==> d.IsEmpty())
      ensures Mirrors(missingBase, mismatchBase, missingResources, mismatchedResources)
      ensures globalVerified == old(globalVerified)
    {
      missingResources, mismatchedResources := missing, mismatched;
      if view.navigation.Fail? {
        var msg := StepFailed(Enumerations, resourceLabel, Navigate, view.navigation.cause);
        missingResources := AddMissing(msg, missingResources, mismatchedResources, missingBase, mismatchBase);
        return missingResources, mismatchedResources, false;
      }
      if view.name.Fail? {
        var msg := StepFailed(Enumerations, resourceLabel, ReadDetails, view.name.cause);
        missingResources := AddMissing(msg, missingResources, mismatchedResources, missingBase, mismatchBase);
        return missingResources, mismatchedResources, false;
      }
      var uiName := if view.name.value.Some? then view.name.value.value else "";

      var nameDiffers;
      mismatchedResources, nameDiffers := CompareAttribute(Enumerations, resourceLabel, ResourceName,
        Text(enm.name), Text(Some(uiName)), missingResources, mismatchedResources, missingBase, mismatchBase);
      var literalsOk;
      missingResources, mismatchedResources, literalsOk :=
        CheckLiterals(resourceLabel, enm.literals, view.literals, missingResources, mismatchedResources, missingBase, mismatchBase);
      ok := !nameDiffers && literalsOk;

      ghost var named := NameCheck(Enumerations, resourceLabel, enm.name, uiName);
      ghost var items := ItemsDiff(Enumerations, resourceLabel, EnumItems(enm.literals, view.literals), |enm.literals|);
      assert EnumDiff(enm, view) == named.Then(items);
      assert [] + items.missing == items.missing;
      AppendAssoc(mismatched, named.mismatched, items.mismatched);
      ThenIsEmpty(named, items);
    }

    /** Reading the literals, rejecting an empty list, comparing by position. */
    method CheckLiterals(resourceLabel: string, literals: seq<EnumLiteral>, read: Outcome<seq<string>>,
                  missing: seq<Entry>, mismatched: seq<Entry>, ghost missingBase: seq<Entry>, ghost mismatchBase: seq<Entry>)
      returns (missingResources: seq<Entry>, mismatchedResources: seq<Entry>, literalsOk: bool)
      requires Mirrors(missingBase, mismatchBase, missing, mismatched)
      modifies this
      ensures var d := ItemsDiff(Enumerations, resourceLabel, EnumItems(literals, read), |literals|);
        && missingResources == missing + d.missing
        && mismatchedResources == mismatched + d.mismatched
        && (literalsOk <==> d.IsEmpty())
      ensures Mirrors(missingBase, mismatchBase, missingResources, mismatchedResources)
      ensures globalVerified == old(globalVerified)
    {
      missingResources, mismatchedResources := missing, mismatched;
      if read.Fail? {
        var msg := StepFailed(Enumerations, resourceLabel, ReadItems, read.cause);
        missingResources := AddMissing(msg, missingResources, mismatchedResources, missingBase, mismatchBase);
        return missingResources, mismatchedResources, false;
      }
      var uiLiterals := read.value;
      LiteralTableFirstEmpty(literals, read.value);
      if |uiLiterals| == 0 {
        missingResources := AddMissing(NoItems(Enumerations, resourceLabel, LiteralConstant), missingResources, mismatchedResources, missingBase, mismatchBase);
        return missingResources, mismatchedResources, false;
      }

      var cols := LiteralTable(literals, read.value);
      var anyLiteralMismatch;
      missingResources, mismatchedResources, anyLiteralMismatch :=
        CompareLiterals(resourceLabel, cols, |literals|, missingResources, mismatchedResources, missingBase, mismatchBase);
      literalsOk := !anyLiteralMismatch;
    }

    /** The positional loop over the expected literals. */
    method CompareLiterals(resourceLabel: string, cols: seq<Column>, n: nat,
                  missing: seq<Entry>, mismatched: seq<Entry>, ghost missingBase: seq<Entry>, ghost mismatchBase: seq<Entry>)
      returns (missingResources: seq<Entry>, mismatchedResources: seq<Entry>, anyLiteralMismatch: bool)
      requires |cols| == 1 && Covers(cols, n)
      requires Mirrors(missingBase, mismatchBase, missing, mismatched)
      modifies this
      ensures var t := Table(Enumerations, resourceLabel, cols, n);
        && missingResources == missing + t.missing
        && mismatchedResources == mismatched + t.mismatched
        && (anyLiteralMismatch <==> !t.IsEmpty())
      ensures Mirrors(missingBase, mismatchBase, missingResources, mismatchedResources)
      ensures globalVerified == old(globalVerified)
    {
      missingResources, mismatchedResources, anyLiteralMismatch := missing, mismatched, false;
      for i := 0 to n
        invariant missingResources == missing + Table(Enumerations, resourceLabel, cols, i).missing
        invariant mismatchedResources == mismatched + Table(Enumerations, resourceLabel, cols, i).mismatched
        invariant anyLiteralMismatch <==> !Table(Enumerations, resourceLabel, cols, i).IsEmpty()
        invariant Mirrors(missingBase, mismatchBase, missingResources, mismatchedResources)
        invariant globalVerified == old(globalVerified)
      {
        ghost var m0, mm0 := missingResources, mismatchedResources;
        var literalDiffers;
        missingResources, mismatchedResources, literalDiffers :=
          CompareCell(Enumerations, resourceLabel, cols[0], i, missingResources, mismatchedResources, missingBase, mismatchBase);
        RowOfOne(Enumerations, resourceLabel, cols, i);
        anyLiteralMismatch := anyLiteralMismatch || literalDiffers;
        TableStep(Enumerations, resourceLabel, cols, i, missing, mismatched, m0, mm0, missingResources, mismatchedResources);
      }
    }

    // ------------------------------------------------------------------- flows

    /**
     * Priority 3. `observe(k)` is what the UI steps yield while the k-th
     * expected flow is being checked. `assertFails` is the Assert.fail at
     * the end of the method.
     */
    method VerifyFlows(flows: seq<Flow>, observe: nat -> FlowView) returns (report: KindReport, assertFails: bool)
      modifies this
      ensures report == Tally(FlowBatches(flows, observe))
      ensures assertFails == KindFails(report) && (assertFails <==> report.failed > 0)
      ensures globalMissing == old(globalMissing) + report.missing
      ensures globalMismatches == old(globalMismatches) + report.mismatched
      ensures globalVerified == old(globalVerified) + report.verifiedLabels
    {
      ghost var batches := FlowBatches(flows, observe);
      var missingResources: seq<Entry> := [];
      var mismatchedResources: seq<Entry> := [];
      var verifiedResources: seq<string> := [];
      var total, verified, failed := 0, 0, 0;

      for k := 0 to |flows|
        invariant KindReport(total, verified, failed, missingResources, mismatchedResources, verifiedResources)
               == Tally(batches[..k])
        invariant globalMissing == old(globalMissing) + missingResources
        invariant globalMismatches == old(globalMismatches) + mismatchedResources
        invariant globalVerified == old(globalVerified) + verifiedResources
      {
        ghost var r0 := KindReport(total, verified, failed, missingResources, mismatchedResources, verifiedResources);
        var flow := flows[k];
        var view := observe(k);
        total := total + 1;
        var resourceLabel := FlowLabel;
        assert batches[k] == FlowBatch(flow, view);
        var ok;
        missingResources, mismatchedResources, ok :=
          CheckFlow(resourceLabel, flow, view, missingResources, mismatchedResources, old(globalMissing), old(globalMismatches));
        if ok {
          AppendAssoc(old(globalVerified), verifiedResources, [resourceLabel]);
          verified := verified + 1;
          verifiedResources := verifiedResources + [resourceLabel];
          globalVerified := globalVerified + [resourceLabel];
        } else {
          failed := failed + 1;
        }
        RecordStep(batches, k, r0, KindReport(total, verified, failed, missingResources, mismatchedResources, verifiedResources));
      }

      report := KindReport(total, verified, failed, missingResources, mismatchedResources, verifiedResources);
      assert batches[..|flows|] == batches;
      FailsIffSomeResourceFailed(batches);
      assertFails := |missingResources| > 0 || |mismatchedResources| > 0;
    }

    /**
     * One iteration of the flow loop; each early `return` is a `continue`
     * of the loop. `ok` is false exactly when the iteration counts the
     * flow as failed.
     */
    method CheckFlow(resourceLabel: string, flow: Flow, view: FlowView,
                       missing: seq<Entry>, mismatched: seq<Entry>, ghost missingBase: seq<Entry>, ghost mismatchBase: seq<Entry>)
      returns (missingResources: seq<Entry>, mismatchedResources: seq<Entry>, ok: bool)
      requires resourceLabel == FlowLabel
      requires Mirrors(missingBase, mismatchBase, missing, mismatched)
      modifies this
      ensures var d := FlowDiff(flow, view);
        && missingResources == missing + d.missing
        && mismatchedResources == mismatched + d.mismatched
        && (ok <==> d.IsEmpty())
      ensures Mirrors(missingBase, mismatchBase, missingResources, mismatchedResources)
      ensures globalVerified == old(globalVerified)
    {
      missingResources, mismatchedResources := missing, mismatched;
      if view.navigation.Fail? {
        var msg := StepFailed(Flows, resourceLabel, Navigate, view.navigation.cause);
        missingResources := AddMissing(msg, missingResources, mismatchedResources, missingBase, mismatchBase);
        return missingResources, mismatchedResources, false;
      }
      if view.name.Fail? {
        var msg := StepFailed(Flows, resourceLabel, ReadDetails, view.name.cause);
        missingResources := AddMissing(msg, missingResources, mismatchedResources, missingBase, mismatchBase);
        return missingResources, mismatchedResources, false;
      }
      var uiName := if view.name.value.Some? then view.name.value.value else "";

      var nameDiffers;
      mismatchedResources, nameDiffers := CompareAttribute(Flows, resourceLabel, ResourceName,
        Text(flow.name), Text(Some(uiName)), missingResources, mismatchedResources, missingBase, mismatchBase);
      var inputsOk;
      missingResources, mismatchedResources, inputsOk :=
        CheckInputs(resourceLabel, flow.inputs, view.inputs, missingResources, mismatchedResources, missingBase, mismatchBase);
      ok := !nameDiffers && inputsOk;

      ghost var named := NameCheck(Flows, resourceLabel, flow.name, uiName);
      ghost var items := ItemsDiff(Flows, resourceLabel, FlowItems(flow.inputs, view.inputs), |flow.inputs|);
      assert FlowDiff(flow, view) == named.Then(items);
      assert [] + items.missing == items.missing;
      AppendAssoc(mismatched, named.mismatched, items.mismatched);
      ThenIsEmpty(named, items);
    }

    /** Reading the input name and type columns, rejecting an empty one (names first), comparing by position. */
    method CheckInputs(resourceLabel: string, inputs: seq<FlowInput>, read: Outcome<InputColumns>,
                  missing: seq<Entry>, mismatched: seq<Entry>, ghost missingBase: seq<Entry>, ghost mismatchBase: seq<Entry>)
      returns (missingResources: seq<Entry>, mismatchedResources: seq<Entry>, inputsOk: bool)
      requires Mirrors(missingBase, mismatchBase, missing, mismatched)
      modifies this
      ensures var d := ItemsDiff(Flows, resourceLabel, FlowItems(inputs, read), |inputs|);
        && missingResources == missing + d.missing
        && mismatchedResources == mismatched + d.mismatched
        && (inputsOk <==> d.IsEmpty())
      ensures Mirrors(missingBase, mismatchBase, missingResources, mismatchedResources)
      ensures globalVerified == old(globalVerified)
    {
      missingResources, mismatchedResources := missing, mismatched;
      if read.Fail? {
        var msg := StepFailed(Flows, resourceLabel, ReadItems, read.cause);
        missingResources := AddMissing(msg, missingResources, mismatchedResources, missingBase, mismatchBase);
        return missingResources, mismatchedResources, false;
      }
      var uiInputNames, uiInputTypes := read.value.names, read.value.types;
      InputTableFirstEmpty(inputs, read.value);
      if |uiInputNames| == 0 {
        missingResources := AddMissing(NoItems(Flows, resourceLabel, InputName), missingResources, mismatchedResources, missingBase, mismatchBase);
        return missingResources, mismatchedResources, false;
      }
      if |uiInputTypes| == 0 {
        missingResources := AddMissing(NoItems(Flows, resourceLabel, InputType), missingResources, mismatchedResources, missingBase, mismatchBase);
        return missingResources, mismatchedResources, false;
      }

      var cols := InputTable(inputs, read.value);
      var anyInputMismatch;
      missingResources, mismatchedResources, anyInputMismatch :=
        CompareInputs(resourceLabel, cols, |inputs|, missingResources, mismatchedResources, missingBase, mismatchBase);
      inputsOk := !anyInputMismatch;
    }

    /** The positional loop over the expected inputs. */
    method CompareInputs(resourceLabel: string, cols: seq<Column>, n: nat,
                  missing: seq<Entry>, mismatched: seq<Entry>, ghost missingBase: seq<Entry>, ghost mismatchBase: seq<Entry>)
      returns (missingResources: seq<Entry>, mismatchedResources: seq<Entry>, anyInputMismatch: bool)
      requires |cols| == 2 && Covers(cols, n)
      requires Mirrors(missingBase, mismatchBase, missing, mismatched)
      modifies this
      ensures var t := Table(Flows, resourceLabel, cols, n);
        && missingResources == missing + t.missing
        && mismatchedResources == mismatched + t.mismatched
        && (anyInputMismatch <==> !t.IsEmpty())
      ensures Mirrors(missingBase, mismatchBase, missingResources, mismatchedResources)
      ensures globalVerified == old(globalVerified)
    {
      missingResources, mismatchedResources, anyInputMismatch := missing, mismatched, false;
      for i := 0 to n
        invariant missingResources == missing + Table(Flows, resourceLabel, cols, i).missing
        invariant mismatchedResources == mismatched + Table(Flows, resourceLabel, cols, i).mismatched
        invariant anyInputMismatch <==> !Table(Flows, resourceLabel, cols, i).IsEmpty()
        invariant Mirrors(missingBase, mismatchBase, missingResources, mismatchedResources)
        invariant globalVerified == old(globalVerified)
      {
        ghost var m0, mm0 := missingResources, mismatchedResources;
        var inputDiffers;
        missingResources, mismatchedResources, inputDiffers :=
          CompareInput(resourceLabel, cols, i, missingResources, mismatchedResources, missingBase, mismatchBase);
        anyInputMismatch := anyInputMismatch || inputDiffers;
        TableStep(Flows, resourceLabel, cols, i, missing, mismatched, m0, mm0, missingResources, mismatchedResources);
      }
    }

    /** One expected input at position `i`: its name, then its type. */
    method CompareInput(resourceLabel: string, cols: seq<Column>, i: nat,
                  missing: seq<Entry>, mismatched: seq<Entry>, ghost missingBase: seq<Entry>, ghost mismatchBase: seq<Entry>)
      returns (missingResources: seq<Entry>, mismatchedResources: seq<Entry>, differs: bool)
      requires |cols| == 2 && Covers(cols, i + 1)
      requires Mirrors(missingBase, mismatchBase, missing, mismatched)
      modifies this
      ensures var r := Row(Flows, resourceLabel, cols, i);
        && missingResources == missing + r.missing
        && mismatchedResources == mismatched + r.mismatched
        && (differs <==> !r.IsEmpty())
      ensures Mirrors(missingBase, mismatchBase, missingResources, mismatchedResources)
      ensures globalVerified == old(globalVerified)
    {
      var nameDiffers, typeDiffers;
      missingResources, mismatchedResources, nameDiffers :=
        CompareCell(Flows, resourceLabel, cols[0], i, missing, mismatched, missingBase, mismatchBase);
      missingResources, mismatchedResources, typeDiffers :=
        CompareCell(Flows, resourceLabel, cols[1], i, missingResources, mismatchedResources, missingBase, mismatchBase);
      differs := nameDiffers || typeDiffers;

      RowOfTwo(Flows, resourceLabel, cols, i);
      ghost var c0, c1 := Cell(Flows, resourceLabel, cols[0], i), Cell(Flows, resourceLabel, cols[1], i);
      AppendAssoc(missing, c0.missing, c1.missing);
      AppendAssoc(mismatched, c0.mismatched, c1.mismatched);
      assert |c0.missing + c1.missing| == |c0.missing| + |c1.missing|;
      assert |c0.mismatched + c1.mismatched| == |c0.mismatched| + |c1.mismatched|;
    }

    // ------------------------------------------------------------- file folders

    /**
     * Priority 4. `observe(k)` is what the UI steps yield while the k-th
     * expected folder is being checked. `assertFails` is the Assert.fail at
     * the end of the method.
     */
    method VerifyFileFolders(folders: seq<FileFolder>, observe: nat -> FolderView) returns (report: KindReport, assertFails: bool)
      modifies this
      ensures report == Tally(FolderBatches(folders, observe))
      ensures assertFails == KindFails(report) && (assertFails <==> report.failed > 0)
      ensures globalMissing == old(globalMissing) + report.missing
      ensures globalMismatches == old(globalMismatches) + report.mismatched
      ensures globalVerified == old(globalVerified) + report.verifiedLabels
    {
      ghost var batches := FolderBatches(folders, observe);
      var missingResources: seq<Entry> := [];
      var mismatchedResources: seq<Entry> := [];
      var verifiedResources: seq<string> := [];
      var total, verified, failed := 0, 0, 0;

      for k := 0 to |folders|
        invariant KindReport(total, verified, failed, missingResources, mismatchedResources, verifiedResources)
               == Tally(batches[..k])
        invariant globalMissing == old(globalMissing) + missingResources
        invariant globalMismatches == old(globalMismatches) + mismatchedResources
        invariant globalVerified == old(globalVerified) + verifiedResources
      {
        ghost var r0 := KindReport(total, verified, failed, missingResources, mismatchedResources, verifiedResources);
        var folder := folders[k];
        var view := observe(k);
        total := total + 1;
        var resourceLabel := FolderLabel(folder);
        assert batches[k] == FolderBatch(folder, view);
        var ok;
        missingResources, mismatchedResources, ok :=
          CheckFolder(resourceLabel, folder, view, missingResources, mismatchedResources, old(globalMissing), old(globalMismatches));
        if ok {
          AppendAssoc(old(globalVerified), verifiedResources, [resourceLabel]);
          verified := verified + 1;
          verifiedResources := verifiedResources + [resourceLabel];
          globalVerified := globalVerified + [resourceLabel];
        } else {
          failed := failed + 1;
        }
        RecordStep(batches, k, r0, KindReport(total, verified, failed, missingResources, mismatchedResources, verifiedResources));
      }

      report := KindReport(total, verified, failed, missingResources, mismatchedResources, verifiedResources);
      assert batches[..|folders|] == batches;
      FailsIffSomeResourceFailed(batches);
      assertFails := |missingResources| > 0 || |mismatchedResources| > 0;
    }

    /**
     * One iteration of the folder loop; each early `return` is a `continue`
     * of the loop. Name, location and citizen-tool flag are compared
     * independently, each adding its own mismatch entry.
     */
    method CheckFolder(resourceLabel: string, folder: FileFolder, view: FolderView,
                       missing: seq<Entry>, mismatched: seq<Entry>, ghost missingBase: seq<Entry>, ghost mismatchBase: seq<Entry>)
      returns (missingResources: seq<Entry>, mismatchedResources: seq<Entry>, ok: bool)
      requires resourceLabel == FolderLabel(folder)
      requires Mirrors(missingBase, mismatchBase, missing, mismatched)
      modifies this
      ensures var d := FolderDiff(folder, view);
        && missingResources == missing + d.missing
        && mismatchedResources == mismatched + d.mismatched
        && (ok <==> d.IsEmpty())
      ensures Mirrors(missingBase, mismatchBase, missingResources, mismatchedResources)
      ensures globalVerified == old(globalVerified)
    {
      missingResources, mismatchedResources := missing, mismatched;
      if view.navigation.Fail? {
        var msg := StepFailed(FileFolders, resourceLabel, Navigate, view.navigation.cause);
        missingResources := AddMissing(msg, missingResources, mismatchedResources, missingBase, mismatchBase);
        return missingResources, mismatchedResources, false;
      }
      if view.details.Fail? {
        var msg := StepFailed(FileFolders, resourceLabel, ReadDetails, view.details.cause);
        missingResources := AddMissing(msg, missingResources, mismatchedResources, missingBase, mismatchBase);
        return missingResources, mismatchedResources, false;
      }
      var uiFolderName, uiLocation, uiCitizenTool := view.details.value.name, view.details.value.location, view.details.value.citizenTool;

      var nameDiffers, locationDiffers, citizenDiffers;
      mismatchedResources, nameDiffers := CompareAttribute(FileFolders, resourceLabel, ResourceName,
        Text(folder.name), Text(Some(uiFolderName)), missingResources, mismatchedResources, missingBase, mismatchBase);
      mismatchedResources, locationDiffers := CompareAttribute(FileFolders, resourceLabel, FolderLocation,
        Text(folder.location), Text(Some(uiLocation)), missingResources, mismatchedResources, missingBase, mismatchBase);
      var expectedCitizen := IsTrue(folder.citizenToolEnabled);
      mismatchedResources, citizenDiffers := CompareAttribute(FileFolders, resourceLabel, CitizenTool,
        Flag(expectedCitizen), Flag(uiCitizenTool), missingResources, mismatchedResources, missingBase, mismatchBase);
      ok := !nameDiffers && !locationDiffers && !citizenDiffers;

      ghost var c0 := Check(FileFolders, resourceLabel, ResourceName, Text(folder.name), Text(Some(uiFolderName)));
      ghost var c1 := Check(FileFolders, resourceLabel, FolderLocation, Text(folder.location), Text(Some(uiLocation)));
      ghost var c2 := Check(FileFolders, resourceLabel, CitizenTool, Flag(expectedCitizen), Flag(uiCitizenTool));
      assert FolderDiff(folder, view) == c0.Then(c1).Then(c2);
      assert missing + ([] + [] + []) == missing;
      AppendAssoc(mismatched, c0.mismatched, c1.mismatched);
      AppendAssoc(mismatched, c0.mismatched + c1.mismatched, c2.mismatched);
      ThenIsEmpty(c0, c1);
      ThenIsEmpty(c0.Then(c1), c2);
    }
  }

  /**
   * The four test methods in priority order on one fresh test instance: the
   * run-wide lists are the per-kind lists concatenated in that order.
   */
  method RunSuite(entities: seq<Entity>, observeEntity: nat -> EntityView,
                  enums: seq<Enumeration>, observeEnum: nat -> EnumView,
                  flows: seq<Flow>, observeFlow: nat -> FlowView,
                  folders: seq<FileFolder>, observeFolder: nat -> FolderView)
    returns (suite: VerifyTest, reports: seq<KindReport>)
    ensures reports == [Tally(EntityBatches(entities, observeEntity)), Tally(EnumBatches(enums, observeEnum)),
                        Tally(FlowBatches(flows, observeFlow)), Tally(FolderBatches(folders, observeFolder))]
    ensures suite.globalMissing == reports[0].missing + reports[1].missing + reports[2].missing + reports[3].missing
    ensures suite.globalMismatches
         == reports[0].mismatched + reports[1].mismatched + reports[2].mismatched + reports[3].mismatched
    ensures suite.globalVerified
         == reports[0].verifiedLabels + reports[1].verifiedLabels + reports[2].verifiedLabels + reports[3].verifiedLabels
    ensures |suite.globalVerified| == reports[0].verified + reports[1].verified + reports[2].verified + reports[3].verified
  {
    suite := new VerifyTest();
    var entityReport, _ := suite.VerifyEntities(entities, observeEntity);
    assert [] + entityReport.missing == entityReport.missing;
    assert [] + entityReport.mismatched == entityReport.mismatched;
    assert [] + entityReport.verifiedLabels == entityReport.verifiedLabels;
    var enumReport, _ := suite.VerifyEnumerations(enums, observeEnum);
    var flowReport, _ := suite.VerifyFlows(flows, observeFlow);
    var folderReport, _ := suite.VerifyFileFolders(folders, observeFolder);
    reports := [entityReport, enumReport, flowReport, folderReport];
    assert |suite.globalVerified|
        == |entityReport.verifiedLabels| + |enumReport.verifiedLabels| + |flowReport.verifiedLabels| + |folderReport.verifiedLabels|;
  }
}
