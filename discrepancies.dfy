/**
 * The structured form of the entries the verification loops collect, the
 * outcome of one resource iteration (a Batch), and the per-kind tally of
 * those outcomes: the counters total/verified/failed, the missing and
 * mismatched lists, and the labels of the verified resources.
 */
module Discrepancies {
  import opened Resources

  /** The four resource kinds, in the order their test methods run. */
  datatype Kind = Entities | Enumerations | Flows | FileFolders

  /** The observation step whose failure cuts a resource iteration short. */
  datatype Step = Navigate | ReadDetails | ReadItems

  /** The attribute an entry is about. */
  datatype Attr =
    | ResourceName | FolderLocation | CitizenTool
    | FieldName | FieldType | FieldPk
    | LiteralConstant
    | InputName | InputType

  /** A compared value: a (possibly null) string, or a boolean flag. */
  datatype Value = Text(text: JString) | Flag(flag: bool)

  /**
   * One entry of a missing or mismatched list. StepFailed, NoItems and
   * ItemAbsent go to the missing list; ResourceDiffers and ItemDiffers go to
   * the mismatched list.
   */
  datatype Entry =
    | StepFailed(kind: Kind, resource: string, step: Step, cause: string)
    | NoItems(kind: Kind, resource: string, attr: Attr)
    | ItemAbsent(kind: Kind, resource: string, attr: Attr, pos: nat, expected: Value)
    | ResourceDiffers(kind: Kind, resource: string, attr: Attr, expected: Value, found: Value)
    | ItemDiffers(kind: Kind, resource: string, attr: Attr, pos: nat, expected: Value, found: Value)
  {
    /** An entry about one sub-item position. */
    predicate IsItem()
    {
      ItemAbsent? || ItemDiffers?
    }
  }

  /** The entries one comparison appends to the missing and mismatched lists. */
  datatype Diff = Diff(missing: seq<Entry>, mismatched: seq<Entry>)
  {
    predicate IsEmpty()
    {
      missing == [] && mismatched == []
    }

    /** The entries of this comparison followed by those of `d`. */
    function Then(d: Diff): Diff
    {
      Diff(missing + d.missing, mismatched + d.mismatched)
    }
  }

  const NoDiff := Diff([], [])

  /** A concatenation of two comparisons records nothing exactly when neither does. */
  lemma ThenIsEmpty(a: Diff, b: Diff)
    ensures a.Then(b).IsEmpty() <==> a.IsEmpty() && b.IsEmpty()
  {
    assert |a.Then(b).missing| == |a.missing| + |b.missing|;
    assert |a.Then(b).mismatched| == |a.mismatched| + |b.mismatched|;
  }

  /** The outcome of one resource iteration. */
  datatype Batch = Batch(resource: string, diff: Diff, verified: bool)

  /** A resource counts as verified exactly when its iteration added no entry. */
  predicate Sound(b: Batch)
  {
    b.verified <==> b.diff.IsEmpty()
  }

  /** The outcome of an iteration that recorded `d`: verified when it recorded nothing. */
  function BatchOf(resource: string, d: Diff): (b: Batch)
    ensures Sound(b) && b.resource == resource && b.diff == d
  {
    Batch(resource, d, d.IsEmpty())
  }

  /** Every iteration is verified exactly when it recorded nothing. */
  predicate AllSound(bs: seq<Batch>)
  {
    forall i :: 0 <= i < |bs| ==> Sound(bs[i])
  }

  /** The local state of one verification test method after its loop. */
  datatype KindReport = KindReport(
    total: nat, verified: nat, failed: nat,
    missing: seq<Entry>, mismatched: seq<Entry>, verifiedLabels: seq<string>)

  const EmptyReport := KindReport(0, 0, 0, [], [], [])

  /** One loop iteration: `total` and exactly one of `verified`/`failed` go up. */
  function Record(r: KindReport, b: Batch): KindReport
  {
    if b.verified then
      KindReport(r.total + 1, r.verified + 1, r.failed,
        r.missing + b.diff.missing, r.mismatched + b.diff.mismatched, r.verifiedLabels + [b.resource])
    else
      KindReport(r.total + 1, r.verified, r.failed + 1,
        r.missing + b.diff.missing, r.mismatched + b.diff.mismatched, r.verifiedLabels)
  }

  /** The report after the loop has processed every batch of `bs` in order. */
  function Tally(bs: seq<Batch>): (r: KindReport)
    ensures r.total == |bs| == r.verified + r.failed
    ensures |r.verifiedLabels| == r.verified
  {
    if bs == [] then EmptyReport else Record(Tally(bs[..|bs| - 1]), bs[|bs| - 1])
  }

  /** The condition under which the test method ends in Assert.fail. */
  predicate KindFails(r: KindReport)
  {
    r.missing != [] || r.mismatched != []
  }

  /** Extending the processed prefix by one batch is one Record step. */
  lemma TallySnoc(bs: seq<Batch>, k: nat)
    requires k < |bs|
    ensures Tally(bs[..k + 1]) == Record(Tally(bs[..k]), bs[k])
  {
    assert bs[..k + 1][..k] == bs[..k];
  }

  /**
   * A loop whose counters and lists are the report of the first `k`
   * iterations, and which then records iteration `k` the way the source's
   * loop body does, holds the report of the first `k + 1` iterations.
   */
  lemma RecordStep(bs: seq<Batch>, k: nat, r0: KindReport, r1: KindReport)
    requires k < |bs| && r0 == Tally(bs[..k])
    requires r1.total == r0.total + 1
    requires r1.missing == r0.missing + bs[k].diff.missing
    requires r1.mismatched == r0.mismatched + bs[k].diff.mismatched
    requires bs[k].verified ==>
      r1.verified == r0.verified + 1 && r1.failed == r0.failed && r1.verifiedLabels == r0.verifiedLabels + [bs[k].resource]
    requires !bs[k].verified ==>
      r1.verified == r0.verified && r1.failed == r0.failed + 1 && r1.verifiedLabels == r0.verifiedLabels
    ensures r1 == Tally(bs[..k + 1])
  {
    TallySnoc(bs, k);
  }

  /**
   * When every resource is verified exactly when it added no entry, the kind
   * fails exactly when some resource was counted as failed.
   */
  lemma {:induction false} FailsIffSomeResourceFailed(bs: seq<Batch>)
    requires AllSound(bs)
    ensures KindFails(Tally(bs)) <==> Tally(bs).failed > 0
  {
    if bs != [] {
      var init := bs[..|bs| - 1];
      FailsIffSomeResourceFailed(init);
    }
  }

  /** Every entry of `d` is about `resource`, of kind `kind`. */
  predicate Labelled(d: Diff, kind: Kind, resource: string)
  {
    forall e <- d.missing + d.mismatched :: e.kind == kind && e.resource == resource
  }

  /**
   * When every iteration is labelled `resource` and records entries under
   * that label only, the run-wide lists hold nothing else: every entry and
   * every verified label is `resource`.
   */
  lemma {:induction false} TallyUnderOneLabel(bs: seq<Batch>, kind: Kind, resource: string)
    requires forall k :: 0 <= k < |bs| ==> bs[k].resource == resource && Labelled(bs[k].diff, kind, resource)
    ensures forall e <- Tally(bs).missing + Tally(bs).mismatched :: e.kind == kind && e.resource == resource
    ensures forall l <- Tally(bs).verifiedLabels :: l == resource
  {
    if bs != [] {
      var init := bs[..|bs| - 1];
      assert forall k :: 0 <= k < |init| ==> init[k] == bs[k];
      TallyUnderOneLabel(init, kind, resource);
      var b := bs[|bs| - 1];
      assert Labelled(b.diff, kind, resource);
      var r0 := Tally(init);
      var r := Tally(bs);
      assert r == Record(r0, b);
      assert r.missing + r.mismatched == r0.missing + b.diff.missing + r0.mismatched + b.diff.mismatched;
      forall e <- r.missing + r.mismatched
        ensures e.kind == kind && e.resource == resource
      {
        if e in r0.missing || e in r0.mismatched {
          assert e in r0.missing + r0.mismatched;
        } else {
          assert e in b.diff.missing + b.diff.mismatched;
        }
      }
    }
  }

  /** The failed counter is positive exactly when some iteration was not verified. */
  lemma {:induction false} FailedIffSomeUnverified(bs: seq<Batch>)
    ensures Tally(bs).failed > 0 <==> exists k :: 0 <= k < |bs| && !bs[k].verified
  {
    if bs != [] {
      var init := bs[..|bs| - 1];
      FailedIffSomeUnverified(init);
      assert forall k :: 0 <= k < |init| ==> init[k] == bs[k];
    }
  }

  /** Sequence concatenation is associative. */
  lemma AppendAssoc<T>(a: seq<T>, b: seq<T>, c: seq<T>)
    ensures a + b + c == a + (b + c)
  {
  }

  /** A kind with no resources has nothing to report and passes. */
  lemma EmptyKindPasses()
    ensures Tally([]) == EmptyReport && !KindFails(Tally([]))
  {
  }
}
