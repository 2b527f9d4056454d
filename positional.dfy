/**
 * The positional sub-item comparison shared by the entity, enumeration and
 * flow loops. Each compared attribute is a Column: the expected values, one
 * per expected sub-item, and the list the UI returned for that attribute.
 * Every column is bounds-checked against its own observed length.
 */
module Positional {
  import opened Resources
  import opened Discrepancies

  datatype Column = Column(attr: Attr, expected: seq<Value>, observed: seq<Value>)

  /** Every column has an expected value at each position below `n`. */
  predicate Covers(cols: seq<Column>, n: nat)
  {
    forall j :: 0 <= j < |cols| ==> n <= |cols[j].expected|
  }

  /** No attribute is compared twice. */
  predicate DistinctAttrs(cols: seq<Column>)
  {
    forall j, k :: 0 <= j < k < |cols| ==> cols[j].attr != cols[k].attr
  }

  /** Compare one attribute at expected position `i`. */
  function Cell(kind: Kind, resource: string, c: Column, i: nat): Diff
    requires i < |c.expected|
  {
    if i < |c.observed| then
      if c.observed[i] == c.expected[i] then NoDiff
      else Diff([], [ItemDiffers(kind, resource, c.attr, i, c.expected[i], c.observed[i])])
    else
      Diff([ItemAbsent(kind, resource, c.attr, i, c.expected[i])], [])
  }

  /** Compare every attribute at position `i`, in column order. */
  function Row(kind: Kind, resource: string, cols: seq<Column>, i: nat): Diff
    requires Covers(cols, i + 1)
    decreases |cols|
  {
    if cols == [] then NoDiff
    else Cell(kind, resource, cols[0], i).Then(Row(kind, resource, cols[1..], i))
  }

  /** The body of the positional loop for i = 0 .. n - 1. */
  function Table(kind: Kind, resource: string, cols: seq<Column>, n: nat): Diff
    requires Covers(cols, n)
  {
    if n == 0 then NoDiff
    else Table(kind, resource, cols, n - 1).Then(Row(kind, resource, cols, n - 1))
  }

  /** A row's missing entries are absent items at position `i`, its mismatches differing items there. */
  lemma {:induction false} RowEntries(kind: Kind, resource: string, cols: seq<Column>, i: nat)
    requires Covers(cols, i + 1)
    ensures forall e <- Row(kind, resource, cols, i).missing ::
      e.ItemAbsent? && e.kind == kind && e.resource == resource && e.pos == i
    ensures forall e <- Row(kind, resource, cols, i).mismatched ::
      e.ItemDiffers? && e.kind == kind && e.resource == resource && e.pos == i
    decreases |cols|
  {
    if cols != [] {
      RowEntries(kind, resource, cols[1..], i);
    }
  }

  /**
   * The positional comparison records only sub-item entries: absent items in
   * the missing list, differing items in the mismatched list, each at an
   * expected position.
   */
  lemma {:induction false} TableEntries(kind: Kind, resource: string, cols: seq<Column>, n: nat)
    requires Covers(cols, n)
    ensures forall e <- Table(kind, resource, cols, n).missing ::
      e.ItemAbsent? && e.kind == kind && e.resource == resource && e.pos < n
    ensures forall e <- Table(kind, resource, cols, n).mismatched ::
      e.ItemDiffers? && e.kind == kind && e.resource == resource && e.pos < n
  {
    if n > 0 {
      TableEntries(kind, resource, cols, n - 1);
      RowEntries(kind, resource, cols, n - 1);
    }
  }

  /** A one-column row is that column's cell. */
  lemma RowOfOne(kind: Kind, resource: string, cols: seq<Column>, i: nat)
    requires |cols| == 1 && Covers(cols, i + 1)
    ensures Row(kind, resource, cols, i) == Cell(kind, resource, cols[0], i)
  {
    var c0 := Cell(kind, resource, cols[0], i);
    assert c0.missing + [] == c0.missing && c0.mismatched + [] == c0.mismatched;
  }

  /** A two-column row is the first cell's entries, then the second's. */
  lemma RowOfTwo(kind: Kind, resource: string, cols: seq<Column>, i: nat)
    requires |cols| == 2 && Covers(cols, i + 1)
    ensures Row(kind, resource, cols, i).missing
         == Cell(kind, resource, cols[0], i).missing + Cell(kind, resource, cols[1], i).missing
    ensures Row(kind, resource, cols, i).mismatched
         == Cell(kind, resource, cols[0], i).mismatched + Cell(kind, resource, cols[1], i).mismatched
  {
    assert cols[1..] == [cols[1]];
    RowOfOne(kind, resource, cols[1..], i);
  }

  /** A three-column row is the three cells' entries in column order. */
  lemma RowOfThree(kind: Kind, resource: string, cols: seq<Column>, i: nat)
    requires |cols| == 3 && Covers(cols, i + 1)
    ensures Row(kind, resource, cols, i).missing
         == Cell(kind, resource, cols[0], i).missing + Cell(kind, resource, cols[1], i).missing
            + Cell(kind, resource, cols[2], i).missing
    ensures Row(kind, resource, cols, i).mismatched
         == Cell(kind, resource, cols[0], i).mismatched + Cell(kind, resource, cols[1], i).mismatched
            + Cell(kind, resource, cols[2], i).mismatched
  {
    assert cols[1..] == [cols[1], cols[2]];
    RowOfTwo(kind, resource, cols[1..], i);
    var c0, c1, c2 := Cell(kind, resource, cols[0], i), Cell(kind, resource, cols[1], i), Cell(kind, resource, cols[2], i);
    AppendAssoc(c0.missing, c1.missing, c2.missing);
    AppendAssoc(c0.mismatched, c1.mismatched, c2.mismatched);
  }

  /** Extending the table by position `i` appends row `i`. */
  lemma TableSnoc(kind: Kind, resource: string, cols: seq<Column>, i: nat)
    requires Covers(cols, i + 1)
    ensures var prev, row, next := Table(kind, resource, cols, i), Row(kind, resource, cols, i), Table(kind, resource, cols, i + 1);
      && next.missing == prev.missing + row.missing
      && next.mismatched == prev.mismatched + row.mismatched
      && (next.IsEmpty() <==> prev.IsEmpty() && row.IsEmpty())
  {
    ThenIsEmpty(Table(kind, resource, cols, i), Row(kind, resource, cols, i));
  }

  /**
   * A loop that has appended the first `i` rows to `missing` and `mismatched`
   * and then appends row `i` has appended the first `i + 1` rows.
   */
  lemma TableStep(kind: Kind, resource: string, cols: seq<Column>, i: nat,
                  missing: seq<Entry>, mismatched: seq<Entry>,
                  m0: seq<Entry>, mm0: seq<Entry>, m1: seq<Entry>, mm1: seq<Entry>)
    requires Covers(cols, i + 1)
    requires m0 == missing + Table(kind, resource, cols, i).missing
    requires mm0 == mismatched + Table(kind, resource, cols, i).mismatched
    requires m1 == m0 + Row(kind, resource, cols, i).missing
    requires mm1 == mm0 + Row(kind, resource, cols, i).mismatched
    ensures m1 == missing + Table(kind, resource, cols, i + 1).missing
    ensures mm1 == mismatched + Table(kind, resource, cols, i + 1).mismatched
    ensures !Table(kind, resource, cols, i + 1).IsEmpty()
        <==> !Table(kind, resource, cols, i).IsEmpty() || !Row(kind, resource, cols, i).IsEmpty()
  {
    var prev, row := Table(kind, resource, cols, i), Row(kind, resource, cols, i);
    TableSnoc(kind, resource, cols, i);
    AppendAssoc(missing, prev.missing, row.missing);
    AppendAssoc(mismatched, prev.mismatched, row.mismatched);
  }

  /** The number of sub-item entries of `es` about attribute `a` at position `i`. */
  function CountAt(es: seq<Entry>, a: Attr, i: nat): nat
  {
    if es == [] then 0
    else (if es[0].IsItem() && es[0].attr == a && es[0].pos == i then 1 else 0) + CountAt(es[1..], a, i)
  }

  lemma {:induction false} CountAtAppend(xs: seq<Entry>, ys: seq<Entry>, a: Attr, i: nat)
    ensures CountAt(xs + ys, a, i) == CountAt(xs, a, i) + CountAt(ys, a, i)
  {
    if xs != [] {
      assert (xs + ys)[0] == xs[0] && (xs + ys)[1..] == xs[1..] + ys;
      CountAtAppend(xs[1..], ys, a, i);
    } else {
      assert xs + ys == ys;
    }
  }

  /** A cell records at most one entry, about its own attribute at its own position. */
  lemma CellCounts(kind: Kind, resource: string, c: Column, r: nat, a: Attr, i: nat)
    requires r < |c.expected|
    ensures CountAt(Cell(kind, resource, c, r).missing, a, i)
         == if a == c.attr && i == r && r >= |c.observed| then 1 else 0
    ensures CountAt(Cell(kind, resource, c, r).mismatched, a, i)
         == if a == c.attr && i == r && r < |c.observed| && c.observed[r] != c.expected[r] then 1 else 0
  {
    var d := Cell(kind, resource, c, r);
    if r < |c.observed| {
      if c.observed[r] != c.expected[r] {
        assert d.mismatched[1..] == [];
      }
    } else {
      assert d.missing[1..] == [];
    }
  }

  /** A row produces no entry about an attribute none of its columns has. */
  lemma {:induction false} RowSilentOnOtherAttr(kind: Kind, resource: string, cols: seq<Column>, r: nat, a: Attr, i: nat)
    requires Covers(cols, r + 1)
    requires forall j :: 0 <= j < |cols| ==> cols[j].attr != a
    ensures CountAt(Row(kind, resource, cols, r).missing, a, i) == 0
    ensures CountAt(Row(kind, resource, cols, r).mismatched, a, i) == 0
    decreases |cols|
  {
    if cols != [] {
      var cell := Cell(kind, resource, cols[0], r);
      var rest := Row(kind, resource, cols[1..], r);
      assert forall j :: 0 <= j < |cols[1..]| ==> cols[1..][j] == cols[j + 1];
      RowSilentOnOtherAttr(kind, resource, cols[1..], r, a, i);
      CellCounts(kind, resource, cols[0], r, a, i);
      CountAtAppend(cell.missing, rest.missing, a, i);
      CountAtAppend(cell.mismatched, rest.mismatched, a, i);
    }
  }

  /** Row `r` classifies column `ci` at position `r` and says nothing else about it. */
  lemma {:induction false} RowCounts(kind: Kind, resource: string, cols: seq<Column>, r: nat, ci: nat, i: nat)
    requires Covers(cols, r + 1) && DistinctAttrs(cols) && ci < |cols|
    ensures CountAt(Row(kind, resource, cols, r).missing, cols[ci].attr, i)
         == if i == r && r >= |cols[ci].observed| then 1 else 0
    ensures CountAt(Row(kind, resource, cols, r).mismatched, cols[ci].attr, i)
         == if i == r && r < |cols[ci].observed| && cols[ci].observed[r] != cols[ci].expected[r] then 1 else 0
    decreases |cols|
  {
    var a := cols[ci].attr;
    var tail := cols[1..];
    var cell := Cell(kind, resource, cols[0], r);
    var rest := Row(kind, resource, tail, r);
    assert Row(kind, resource, cols, r) == cell.Then(rest);
    assert forall j :: 0 <= j < |tail| ==> tail[j] == cols[j + 1];
    CellCounts(kind, resource, cols[0], r, a, i);
    CountAtAppend(cell.missing, rest.missing, a, i);
    CountAtAppend(cell.mismatched, rest.mismatched, a, i);
    if ci == 0 {
      RowSilentOnOtherAttr(kind, resource, tail, r, a, i);
    } else {
      assert tail[ci - 1] == cols[ci];
      assert DistinctAttrs(tail);
      RowCounts(kind, resource, tail, r, ci - 1, i);
    }
  }

  /**
   * For each expected position i and each attribute, the comparison records
   * at most one missing entry: one exactly when i is an expected position
   * beyond that attribute's own observed list.
   */
  lemma {:induction false} TableMissingCount(kind: Kind, resource: string, cols: seq<Column>, n: nat, ci: nat, i: nat)
    requires Covers(cols, n) && DistinctAttrs(cols) && ci < |cols|
    ensures CountAt(Table(kind, resource, cols, n).missing, cols[ci].attr, i)
         == if i < n && i >= |cols[ci].observed| then 1 else 0
  {
    if n > 0 {
      var prev := Table(kind, resource, cols, n - 1);
      var row := Row(kind, resource, cols, n - 1);
      assert Table(kind, resource, cols, n).missing == prev.missing + row.missing;
      TableMissingCount(kind, resource, cols, n - 1, ci, i);
      RowCounts(kind, resource, cols, n - 1, ci, i);
      CountAtAppend(prev.missing, row.missing, cols[ci].attr, i);
    }
  }

  /**
   * For each expected position i and each attribute, the comparison records
   * at most one mismatch: one exactly when the attribute's observed list has
   * a different value at i. Nothing is recorded at or beyond the expected length.
   */
  lemma {:induction false} TableMismatchCount(kind: Kind, resource: string, cols: seq<Column>, n: nat, ci: nat, i: nat)
    requires Covers(cols, n) && DistinctAttrs(cols) && ci < |cols|
    ensures CountAt(Table(kind, resource, cols, n).mismatched, cols[ci].attr, i)
         == if i < n && i < |cols[ci].observed| && cols[ci].observed[i] != cols[ci].expected[i] then 1 else 0
  {
    if n > 0 {
      var prev := Table(kind, resource, cols, n - 1);
      var row := Row(kind, resource, cols, n - 1);
      assert Table(kind, resource, cols, n).mismatched == prev.mismatched + row.mismatched;
      TableMismatchCount(kind, resource, cols, n - 1, ci, i);
      RowCounts(kind, resource, cols, n - 1, ci, i);
      CountAtAppend(prev.mismatched, row.mismatched, cols[ci].attr, i);
    }
  }

  /** The column has its expected value at position `i` of its observed list. */
  predicate ColumnMatches(c: Column, i: nat)
  {
    i < |c.expected| && i < |c.observed| && c.observed[i] == c.expected[i]
  }

  /** Every column agrees with its expectation at position `i`. */
  predicate RowMatches(cols: seq<Column>, i: nat)
  {
    forall j :: 0 <= j < |cols| ==> ColumnMatches(cols[j], i)
  }

  /** A row of at most three columns matches when each of its columns does. */
  lemma RowMatchesOfColumns(cols: seq<Column>, i: nat)
    requires 1 <= |cols| <= 3
    ensures RowMatches(cols, i) <==>
      && ColumnMatches(cols[0], i)
      && (|cols| > 1 ==> ColumnMatches(cols[1], i))
      && (|cols| > 2 ==> ColumnMatches(cols[2], i))
  {
    if ColumnMatches(cols[0], i) && (|cols| > 1 ==> ColumnMatches(cols[1], i)) && (|cols| > 2 ==> ColumnMatches(cols[2], i)) {
      forall j | 0 <= j < |cols|
        ensures ColumnMatches(cols[j], i)
      {
        if j == 0 {
        } else if j == 1 {
        } else {
        }
      }
    }
  }

  lemma {:induction false} RowEmptyIff(kind: Kind, resource: string, cols: seq<Column>, i: nat)
    requires Covers(cols, i + 1)
    ensures Row(kind, resource, cols, i).IsEmpty() <==> RowMatches(cols, i)
  {
    if cols != [] {
      RowEmptyIff(kind, resource, cols[1..], i);
      assert RowMatches(cols, i) <==> RowMatches(cols[..1], i) && RowMatches(cols[1..], i) by {
        assert forall j :: 1 <= j < |cols| ==> cols[j] == cols[1..][j - 1];
      }
    }
  }

  /** Every expected position below `n` matches in every column. */
  predicate AllRowsMatch(cols: seq<Column>, n: nat)
  {
    forall i :: 0 <= i < n ==> RowMatches(cols, i)
  }

  lemma AllRowsMatchSnoc(cols: seq<Column>, n: nat)
    requires n > 0
    ensures AllRowsMatch(cols, n) <==> AllRowsMatch(cols, n - 1) && RowMatches(cols, n - 1)
  {
  }

  /**
   * The positional comparison adds no entry exactly when every attribute
   * list holds the expected value at every expected position.
   */
  lemma {:induction false} TableEmptyIff(kind: Kind, resource: string, cols: seq<Column>, n: nat)
    requires Covers(cols, n)
    ensures Table(kind, resource, cols, n).IsEmpty() <==> AllRowsMatch(cols, n)
  {
    if n > 0 {
      var prev := Table(kind, resource, cols, n - 1);
      var row := Row(kind, resource, cols, n - 1);
      TableEmptyIff(kind, resource, cols, n - 1);
      RowEmptyIff(kind, resource, cols, n - 1);
      ThenIsEmpty(prev, row);
      AllRowsMatchSnoc(cols, n);
    }
  }

  /** Each observed list cut to its first `n` items. */
  function Truncated(cols: seq<Column>, n: nat): (t: seq<Column>)
    ensures |t| == |cols|
    ensures forall j :: 0 <= j < |cols| ==> t[j].attr == cols[j].attr && t[j].expected == cols[j].expected
  {
    seq(|cols|, j requires 0 <= j < |cols| =>
      var c := cols[j];
      Column(c.attr, c.expected, if |c.observed| <= n then c.observed else c.observed[..n]))
  }

  lemma {:induction false} RowIgnoresTail(kind: Kind, resource: string, cols: seq<Column>, t: seq<Column>, i: nat, n: nat)
    requires i < n && |t| == |cols| && Covers(cols, i + 1)
    requires forall j :: 0 <= j < |cols| ==>
      t[j].attr == cols[j].attr && t[j].expected == cols[j].expected &&
      t[j].observed == if |cols[j].observed| <= n then cols[j].observed else cols[j].observed[..n]
    ensures Covers(t, i + 1) && Row(kind, resource, t, i) == Row(kind, resource, cols, i)
    decreases |cols|
  {
    if cols != [] {
      RowIgnoresTail(kind, resource, cols[1..], t[1..], i, n);
    }
  }

  lemma {:induction false} TablePrefixIgnoresTail(kind: Kind, resource: string, cols: seq<Column>, k: nat, n: nat)
    requires k <= n && Covers(cols, n)
    ensures Covers(Truncated(cols, n), k)
    ensures Table(kind, resource, Truncated(cols, n), k) == Table(kind, resource, cols, k)
  {
    if k > 0 {
      TablePrefixIgnoresTail(kind, resource, cols, k - 1, n);
      RowIgnoresTail(kind, resource, cols, Truncated(cols, n), k - 1, n);
    }
  }

  /** Observed items at positions at or beyond the expected length are never examined. */
  lemma TableIgnoresExtraObserved(kind: Kind, resource: string, cols: seq<Column>, n: nat)
    requires Covers(cols, n)
    ensures Covers(Truncated(cols, n), n)
    ensures Table(kind, resource, Truncated(cols, n), n) == Table(kind, resource, cols, n)
  {
    TablePrefixIgnoresTail(kind, resource, cols, n, n);
  }
}
