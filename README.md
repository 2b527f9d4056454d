# MetaUIValidator reconciliation pass, modelled in Dafny

MetaUIValidator checks that a low-code project's UI shows what its JSON
description declares. The test class `VerifyTest` has four test methods,
run in priority order: entities, enumerations, flows and file folders.
Each method walks the expected records of its kind. For each record it
navigates to the resource, reads its name and its sub-item lists from the
UI, and compares them with the record by position. Every difference becomes
an entry in a local `missing` or `mismatched` list and, at the same moment,
in the run-wide `globalMissing` / `globalMismatches` lists. Each record
bumps `total` and exactly one of `verified` / `failed`. A verified record's
label is added to the local and run-wide verified lists. The method ends in
`Assert.fail` when either local list is non-empty.

The model has these parts:

- `resources.dfy` (module `Resources`): the expected records, the value
  classes of `JsonParserUtil`. A Java `String` is `Option<string>`, where
  `None` is `null`. The boxed `Boolean` citizen-tool flag is
  `Option<bool>`.
- `observations.dfy` (module `Observations`): what the UI steps of one
  iteration yield. Each step that the source wraps in one `try` block is an
  `Outcome`: either the value the step returned or the message of the
  exception it threw.
- `discrepancies.dfy` (module `Discrepancies`): the entries, as a
  structured datatype instead of message strings. It also holds the outcome
  of one iteration (`Batch`) and the per-kind counters and lists
  (`KindReport`), built by folding the iterations in order (`Tally`).
- `positional.dfy` (module `Positional`): the positional sub-item
  comparison. Each attribute is a `Column` of expected values and its own
  observed list, bounds-checked against that list's own length.
- `reconcile.dfy` (module `Reconcile`): what one iteration of each loop
  records (`EntityDiff`, `EnumDiff`, `FlowDiff`, `FolderDiff`). These are
  the specification the loop methods are proved against.
- `verify_test.dfy` (module `Validation`): the class `VerifyTest` with the
  three run-wide lists as `seq` fields. The four test methods are `for`
  loops that append to local lists and to the fields, update the counters,
  and leave an iteration early where the source does `continue`. Each
  method is proved to produce exactly `Tally` of its per-record batches and
  to extend each run-wide list by its local list. `RunSuite` runs the four
  methods in priority order.
- `properties.dfy` (module `Properties`): what the pass promises, stated
  against reference predicates written with Java `equals` on the UI lists
  (`EntityMatches`, `EnumMatches`, `FlowMatches`, `FolderMatches`).

## Model

| member | source | states |
|---|---|---|
| Validation.VerifyTest.constructor | MetaUIValidator/src/test/java/validation/VerifyTest.java:35-38 | the three run-wide lists start empty |
| Validation.VerifyTest.VerifyEntities | MetaUIValidator/src/test/java/validation/VerifyTest.java:62-248 | the counters and lists after the loop are `Tally` of the per-entity batches; Assert.fail happens exactly when `failed > 0`; each run-wide list is its old value followed by the method's local list |
| Validation.VerifyTest.CheckEntity | MetaUIValidator/src/test/java/validation/VerifyTest.java:74-229 | one entity iteration appends exactly `EntityDiff` to the local lists (and the run-wide lists alike) and counts the entity verified exactly when it appended nothing |
| Validation.VerifyTest.CheckFields | MetaUIValidator/src/test/java/validation/VerifyTest.java:116-220 | a field-read failure adds one missing entry; the first empty list among names, types and PK statuses adds one `NoItems` entry; otherwise the positional comparison runs |
| Validation.VerifyTest.CompareFields | MetaUIValidator/src/test/java/validation/VerifyTest.java:160-220 | the field loop appends `Table` of the three field columns, and `anyFieldMismatch` is set exactly when it appended something |
| Validation.VerifyTest.CompareField | MetaUIValidator/src/test/java/validation/VerifyTest.java:162-219 | one field position appends its name, type and PK cells in that order |
| Validation.VerifyTest.CompareCell | MetaUIValidator/src/test/java/validation/VerifyTest.java:167-183 | one attribute at one position: a mismatch when the value at that position of its own list differs, a missing entry when its own list is too short, else nothing |
| Validation.VerifyTest.CompareAttribute | MetaUIValidator/src/test/java/validation/VerifyTest.java:107-112 | a resource-level comparison adds one mismatch exactly when the observed value differs |
| Validation.VerifyTest.AddMissing | MetaUIValidator/src/test/java/validation/VerifyTest.java:85-87 | the entry goes to the end of the local and of the run-wide missing list |
| Validation.VerifyTest.VerifyEnumerations | MetaUIValidator/src/test/java/validation/VerifyTest.java:254-378 | as for entities, over the per-enumeration batches |
| Validation.VerifyTest.CheckEnumeration | MetaUIValidator/src/test/java/validation/VerifyTest.java:266-360 | one enumeration iteration appends exactly `EnumDiff` and is verified exactly when it appended nothing |
| Validation.VerifyTest.CheckLiterals | MetaUIValidator/src/test/java/validation/VerifyTest.java:307-350 | a literal-read failure or an empty literal list adds one missing entry; otherwise the positional comparison runs |
| Validation.VerifyTest.CompareLiterals | MetaUIValidator/src/test/java/validation/VerifyTest.java:330-350 | the literal loop appends `Table` of the literal column, and `anyLiteralMismatch` is set exactly when it appended something |
| Validation.VerifyTest.VerifyFlows | MetaUIValidator/src/test/java/validation/VerifyTest.java:384-539 | as for entities, over the per-flow batches |
| Validation.VerifyTest.CheckFlow | MetaUIValidator/src/test/java/validation/VerifyTest.java:396-521 | one flow iteration appends exactly `FlowDiff` and is verified exactly when it appended nothing |
| Validation.VerifyTest.CheckInputs | MetaUIValidator/src/test/java/validation/VerifyTest.java:437-511 | an input-read failure or an empty names or types list (names first) adds one missing entry; otherwise the positional comparison runs |
| Validation.VerifyTest.CompareInputs | MetaUIValidator/src/test/java/validation/VerifyTest.java:470-511 | the input loop appends `Table` of the two input columns, and `anyInputMismatch` is set exactly when it appended something |
| Validation.VerifyTest.CompareInput | MetaUIValidator/src/test/java/validation/VerifyTest.java:473-511 | one input position appends its name cell, then its type cell |
| Validation.VerifyTest.VerifyFileFolders | MetaUIValidator/src/test/java/validation/VerifyTest.java:545-645 | as for entities, over the per-folder batches |
| Validation.VerifyTest.CheckFolder | MetaUIValidator/src/test/java/validation/VerifyTest.java:557-627 | one folder iteration appends exactly `FolderDiff`: a step failure adds one missing entry; otherwise name, location and flag are compared each on its own |
| Validation.RunSuite | MetaUIValidator/src/test/java/validation/VerifyTest.java:36-38 | after the four methods run in priority order, each run-wide list is the four local lists concatenated in that order, and `globalVerified` holds the sum of the four `verified` counts |
| Discrepancies.Tally | MetaUIValidator/src/test/java/validation/VerifyTest.java:73-230 | every iteration bumps `total` and exactly one of `verified`/`failed`: `total == verified + failed`, and one verified label per verified resource |
| Discrepancies.FailsIffSomeResourceFailed | MetaUIValidator/src/test/java/validation/VerifyTest.java:234-247 | when every resource is verified exactly when it added no entry, a kind ends in Assert.fail exactly when `failed > 0` |
| Discrepancies.FailedIffSomeUnverified | MetaUIValidator/src/test/java/validation/VerifyTest.java:222-229 | `failed > 0` exactly when some iteration was not verified |
| Discrepancies.ThenIsEmpty | MetaUIValidator/src/test/java/validation/VerifyTest.java:222 | a resource passes both the name and the sub-item checks exactly when neither added an entry |
| Discrepancies.EmptyKindPasses | MetaUIValidator/src/test/java/validation/VerifyTest.java:234 | a kind with no expected records reports nothing and does not fail |
| Discrepancies.Record | MetaUIValidator/src/test/java/validation/VerifyTest.java:222-229 | no contract of its own: one iteration adds one to the total and to exactly one of verified/failed and appends its entries; Discrepancies.Tally, Discrepancies.FailedIffSomeUnverified and Discrepancies.TallyUnderOneLabel state what a run of it yields |
| Discrepancies.KindFails | MetaUIValidator/src/test/java/validation/VerifyTest.java:234 | no contract of its own: the test fails when either list is non-empty; Discrepancies.FailsIffSomeResourceFailed and the Properties.*FailIff lemmas state when that happens |
| Discrepancies.TallyUnderOneLabel | MetaUIValidator/src/test/java/validation/VerifyTest.java:222-229 | when every iteration carries one label and files its entries under it, every entry and every verified label of the run-wide report is that label |
| Positional.RowEntries | MetaUIValidator/src/test/java/validation/VerifyTest.java:162-219 | one position adds only sub-item entries about that position |
| Positional.TableEntries | MetaUIValidator/src/test/java/validation/VerifyTest.java:161-220 | the positional loop adds only absent-item and differing-item entries, each at an expected position |
| Positional.CellCounts | MetaUIValidator/src/test/java/validation/VerifyTest.java:167-183 | one attribute at one position adds at most one entry, about itself at that position |
| Positional.RowCounts | MetaUIValidator/src/test/java/validation/VerifyTest.java:162-219 | at one position each attribute gets a missing entry exactly when its own list is too short and a mismatch exactly when its value differs |
| Positional.TableMissingCount | MetaUIValidator/src/test/java/validation/VerifyTest.java:161-219 | for each expected position and attribute, exactly one missing entry when the position is beyond that attribute's own list, none otherwise |
| Positional.TableMismatchCount | MetaUIValidator/src/test/java/validation/VerifyTest.java:161-219 | for each expected position and attribute, exactly one mismatch when the observed value there differs, none otherwise and none at or beyond the expected length |
| Positional.TableEmptyIff | MetaUIValidator/src/test/java/validation/VerifyTest.java:161-222 | the positional loop adds nothing exactly when every attribute list holds the expected value at every expected position |
| Positional.RowEmptyIff | MetaUIValidator/src/test/java/validation/VerifyTest.java:162-219 | one position adds nothing exactly when every attribute matches there |
| Positional.TableIgnoresExtraObserved | MetaUIValidator/src/test/java/validation/VerifyTest.java:161 | observed items at positions at or beyond the expected count never influence the comparison |
| Positional.TablePrefixIgnoresTail | MetaUIValidator/src/test/java/validation/VerifyTest.java:161 | the first `k` positions compare the same against observed lists cut to the expected count |
| Positional.Cell | MetaUIValidator/src/test/java/validation/VerifyTest.java:167-183 | no contract of its own: the comparison of one attribute at one position; Positional.CellCounts states its counts |
| Positional.Row | MetaUIValidator/src/test/java/validation/VerifyTest.java:162-219 | no contract of its own: the cells of one position in column order; Positional.RowEntries, Positional.RowCounts and Positional.RowEmptyIff state its properties |
| Positional.Table | MetaUIValidator/src/test/java/validation/VerifyTest.java:161-219 | no contract of its own: the positional loop over the expected sub-items; Positional.TableEntries, Positional.TableMissingCount, Positional.TableMismatchCount and Positional.TableEmptyIff state its properties |
| Reconcile.FirstEmptySpec | MetaUIValidator/src/test/java/validation/VerifyTest.java:134-157 | the empty-list check finds nothing exactly when every observed list is non-empty, and otherwise names an empty one |
| Reconcile.FieldTableFirstEmpty | MetaUIValidator/src/test/java/validation/VerifyTest.java:134-157 | the field lists are checked for emptiness in the order names, types, PK statuses |
| Reconcile.InputTableFirstEmpty | MetaUIValidator/src/test/java/validation/VerifyTest.java:453-468 | the input lists are checked in the order names, types |
| Reconcile.LiteralTableFirstEmpty | MetaUIValidator/src/test/java/validation/VerifyTest.java:321-328 | an empty literal list is the one empty-list failure of an enumeration |
| Reconcile.FieldTable | MetaUIValidator/src/test/java/validation/VerifyTest.java:162-165 | name, type and PK columns each hold one expected value per expected field, and no attribute is compared twice |
| Reconcile.LiteralTable | MetaUIValidator/src/test/java/validation/VerifyTest.java:332-333 | the literal column holds one expected value per expected literal |
| Reconcile.InputTable | MetaUIValidator/src/test/java/validation/VerifyTest.java:472-475 | the input name and type columns each hold one expected value per expected input, distinct attributes |
| Reconcile.NullAsEmpty | MetaUIValidator/src/test/java/validation/VerifyTest.java:96 | no contract of its own: a null UI name is compared as the empty string; Properties.NullExpectedNameNeverVerifies states the consequence |
| Reconcile.Check | MetaUIValidator/src/test/java/validation/VerifyTest.java:107-114 | no contract of its own: one resource-level mismatch entry exactly when the observed value differs; Properties.MismatchOnCheck states it |
| Reconcile.NameCheck | MetaUIValidator/src/test/java/validation/VerifyTest.java:107-114 | no contract of its own: the name comparison through Java `equals`; Properties.NameMismatchDoesNotStop and Properties.NullExpectedNameNeverVerifies state its properties |
| Reconcile.ItemsDiff | MetaUIValidator/src/test/java/validation/VerifyTest.java:116-219 | no contract of its own: the read failure, the first empty list or the positional comparison; Properties.Interruption and Properties.EmptyExpectationStillNeedsItems state its properties |
| Reconcile.ResourceDiff | MetaUIValidator/src/test/java/validation/VerifyTest.java:79-219 | no contract of its own: everything one entity, enumeration or flow iteration records; Properties.ResourceVerifiedIff, Properties.Interruption and Properties.ResourceEntriesLabelled state its properties |
| Reconcile.EntityDiff | MetaUIValidator/src/test/java/validation/VerifyTest.java:74-229 | no contract of its own: the entity instance of ResourceDiff; Properties.EntityVerifiedIff and Properties.EntityEntriesLabelled state its properties |
| Reconcile.EnumDiff | MetaUIValidator/src/test/java/validation/VerifyTest.java:266-360 | no contract of its own: the enumeration instance of ResourceDiff; Properties.EnumVerifiedIff and Properties.EnumEntriesLabelled state its properties |
| Reconcile.FlowDiff | MetaUIValidator/src/test/java/validation/VerifyTest.java:396-521 | no contract of its own: the flow instance of ResourceDiff; Properties.FlowVerifiedIff and Properties.FlowEntriesLabelled state its properties |
| Reconcile.FolderLabel | MetaUIValidator/src/test/java/validation/VerifyTest.java:558 | no contract of its own: "FileFolder: " followed by the expected name, null printed as "null"; Properties.FolderLabelsDistinct states when two labels coincide |
| Reconcile.FolderChecks | MetaUIValidator/src/test/java/validation/VerifyTest.java:590-617 | no contract of its own: the three independent folder comparisons; Properties.FolderMismatchCount and Properties.FolderMismatchAttrs state its properties |
| Reconcile.FolderDiff | MetaUIValidator/src/test/java/validation/VerifyTest.java:557-627 | no contract of its own: everything one folder iteration records; Properties.FolderVerifiedIff and Properties.FolderEntriesLabelled state its properties |
| Properties.ResourceVerifiedIff | MetaUIValidator/src/test/java/validation/VerifyTest.java:79-229 | an entity, enumeration or flow iteration adds nothing exactly when every step succeeds, the name (null read as "") equals the expected one, no list is empty and every position matches |
| Properties.Interruption | MetaUIValidator/src/test/java/validation/VerifyTest.java:79-157 | a failed step or an empty list is the only source of a non-positional missing entry, and it leaves exactly one missing entry and a failed resource |
| Properties.NameMismatchDoesNotStop | MetaUIValidator/src/test/java/validation/VerifyTest.java:94-131 | a differing name adds one mismatch in front of the sub-item entries, which are recorded regardless; a null observed name is compared as "" |
| Properties.NullExpectedNameNeverVerifies | MetaUIValidator/src/test/java/validation/VerifyTest.java:108 | an expected name that is null never equals the observed name, so the resource never verifies |
| Properties.EmptyExpectationStillNeedsItems | MetaUIValidator/src/test/java/validation/VerifyTest.java:134-161 | a record with no expected sub-items verifies only when every observed list is non-empty |
| Properties.FieldRowMatches | MetaUIValidator/src/test/java/validation/VerifyTest.java:162-219 | a field position matches exactly when name, type and PK each equal the expected ones at that position |
| Properties.FieldTableMatches | MetaUIValidator/src/test/java/validation/VerifyTest.java:134-219 | the field lists pass the empty-list checks exactly when none is empty, and every position matches exactly when each expected field is shown there |
| Properties.EntityVerifiedIff | MetaUIValidator/src/test/java/validation/VerifyTest.java:74-229 | an entity is counted verified exactly when it matches in every step |
| Properties.EntitiesFailIff | MetaUIValidator/src/test/java/validation/VerifyTest.java:62-247 | the entity test fails exactly when some expected entity does not match |
| Properties.LiteralTableMatches | MetaUIValidator/src/test/java/validation/VerifyTest.java:321-350 | the literal list passes the empty check exactly when non-empty, and every position matches exactly when each literal is shown there |
| Properties.EnumVerifiedIff | MetaUIValidator/src/test/java/validation/VerifyTest.java:266-360 | an enumeration is counted verified exactly when it matches in every step |
| Properties.EnumerationsFailIff | MetaUIValidator/src/test/java/validation/VerifyTest.java:254-377 | the enumeration test fails exactly when some expected enumeration does not match |
| Properties.InputTableMatches | MetaUIValidator/src/test/java/validation/VerifyTest.java:453-511 | the input lists pass the empty-list checks exactly when neither is empty, and every position matches exactly when each input is shown there |
| Properties.FlowVerifiedIff | MetaUIValidator/src/test/java/validation/VerifyTest.java:396-521 | a flow is counted verified exactly when it matches in every step |
| Properties.FlowsFailIff | MetaUIValidator/src/test/java/validation/VerifyTest.java:384-538 | the flow test fails exactly when some expected flow does not match |
| Properties.FolderMismatchCount | MetaUIValidator/src/test/java/validation/VerifyTest.java:590-616 | a folder comparison adds no missing entry and one mismatch per differing attribute, a null expected flag being expected off |
| Properties.FolderMismatchAttrs | MetaUIValidator/src/test/java/validation/VerifyTest.java:590-616 | each folder attribute gets its mismatch exactly when it differs, independently of the other two |
| Properties.FolderVerifiedIff | MetaUIValidator/src/test/java/validation/VerifyTest.java:557-627 | a folder is counted verified exactly when it matches; a failed step leaves exactly one missing entry and no mismatch |
| Properties.FoldersFailIff | MetaUIValidator/src/test/java/validation/VerifyTest.java:545-644 | the folder test fails exactly when some expected folder does not match |
| Properties.MismatchOnThen | MetaUIValidator/src/test/java/validation/VerifyTest.java:590-616 | a mismatch about an attribute is in a combined comparison exactly when it is in one of its parts |
| Properties.MismatchOnCheck | MetaUIValidator/src/test/java/validation/VerifyTest.java:107-114 | a single comparison records a mismatch about an attribute exactly when it is that attribute and the values differ |
| Properties.ResourceEntriesLabelled | MetaUIValidator/src/test/java/validation/VerifyTest.java:79-219 | every entry an entity, enumeration or flow iteration records carries that iteration's kind and label |
| Properties.EntityEntriesLabelled | MetaUIValidator/src/test/java/validation/VerifyTest.java:75 | every entry of an entity iteration is filed under the fixed label "Entity:SampleStrucuture ", whatever the expected entity's name |
| Properties.EnumEntriesLabelled | MetaUIValidator/src/test/java/validation/VerifyTest.java:267 | every entry of an enumeration iteration is filed under the fixed label "Enumerations: EnumSample", whatever the expected enumeration's name |
| Properties.FlowEntriesLabelled | MetaUIValidator/src/test/java/validation/VerifyTest.java:397 | every entry of a flow iteration is filed under the fixed label "Flow: ServerFlow", whatever the expected flow's name |
| Properties.EntityReportLabels | MetaUIValidator/src/test/java/validation/VerifyTest.java:75-226 | every entry and every verified label the entity test reports is the fixed entity label, so its lists cannot tell two entities apart |
| Properties.EnumReportLabels | MetaUIValidator/src/test/java/validation/VerifyTest.java:267-357 | every entry and every verified label the enumeration test reports is the fixed enumeration label |
| Properties.FlowReportLabels | MetaUIValidator/src/test/java/validation/VerifyTest.java:397-517 | every entry and every verified label the flow test reports is the fixed flow label |
| Properties.FolderEntriesLabelled | MetaUIValidator/src/test/java/validation/VerifyTest.java:558 | every entry of a folder iteration is filed under "FileFolder: " followed by that folder's expected name |
| Properties.FolderLabelsDistinct | MetaUIValidator/src/test/java/validation/VerifyTest.java:558 | folders with different non-null names get different labels, while a null name gets the same label as the name "null" |

## Left out

- The Selenium reads of `ProjectDetailsPage` and the navigation of `ProjectExplorerPage` are not part of this model. Each `try` block of a loop iteration becomes an `Outcome` input: a value, or the message of the exception it threw. Which values the UI yields is left arbitrary.
- A UI string that is `null` where the source calls `equals` on it outside a `try` block is not modelled. The observed field, literal and input strings and the folder name and location are non-null `string`s, so the `NullPointerException` that would end the test method is not represented.
- `JsonParserUtil` parsing (file reading, json-simple casts, swallowed exceptions) is not part of this model. The expected records are inputs with the shapes of its value classes.
- `setUp` and `tearDown` (driver lifecycle, printing of the run-wide lists) are left out, as are all console output and the `StringBuilder` summary text. `Assert.fail` is the boolean `assertFails`.
- Entries are structured values (kind, label, step or attribute, position, expected and found values) instead of message strings. The text of each message is not modelled, and the exception message is kept only as an opaque `cause`.
- TestNG scheduling is not modelled. `RunSuite` runs the four test methods in priority order on one instance.
- An empty observed list is rejected even when the record expects no sub-items, so such a record never verifies when its lists are empty (`Properties.EmptyExpectationStillNeedsItems`). This follows the code, which checks for emptiness before the positional loop. It departs from the stated design that an exact match is verified.
