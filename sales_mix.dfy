/**
 * The sales-mix sheet of the manual packing plan: a column of row labels in which a parent item
 * is followed by its weight variants ("0.5", "1", ...). Each variant's total weight sold is its
 * weight times its units ordered, each parent's total is the sum over its run of variants, and each
 * variant's contribution is its share of its parent's total, in percent, rounded to 2 places.
 */
module SalesMix {
  import opened Wrappers
  import opened Text
  import opened Rounding

  /** One row of the sheet. `rowLabel` is the text of the "Row Labels" cell (an empty cell reads
      "nan"); `units` is "Sum of Units Ordered", None when it is not a number. */
  datatype SalesRow = SalesRow(rowLabel: string, units: Option<real>, pouch: Option<string>, asin: Option<string>)

  /** `s.replace('.', '', 1)`: `s` without its first '.'. */
  function RemoveFirstDot(s: string): string {
    if s == [] then []
    else if s[0] == '.' then s[1..]
    else [s[0]] + RemoveFirstDot(s[1..])
  }

  /** The index of the first '.', or `|s|` when there is none. */
  function FirstDot(s: string): (i: nat)
    ensures i <= |s| && (i < |s| ==> s[i] == '.')
    ensures forall m :: 0 <= m < i ==> s[m] != '.'
  {
    if s == [] || s[0] == '.' then 0 else 1 + FirstDot(s[1..])
  }

  lemma {:induction false} RemoveFirstDotSpec(s: string)
    ensures FirstDot(s) == |s| ==> RemoveFirstDot(s) == s
    ensures FirstDot(s) < |s| ==> RemoveFirstDot(s) == s[..FirstDot(s)] + s[FirstDot(s) + 1..]
  {
    if s != [] && s[0] != '.' {
      var t := s[1..];
      RemoveFirstDotSpec(t);
      assert s == [s[0]] + t;
      if FirstDot(t) < |t| {
        ConsDeletion(s[0], t, FirstDot(t));
      }
    }
  }

  /** Deleting position `j` of `t` and then putting `c` in front deletes position `j + 1` of `[c] + t`. */
  lemma ConsDeletion(c: char, t: string, j: nat)
    requires j < |t|
    ensures [c] + (t[..j] + t[j + 1..]) == ([c] + t)[..j + 1] + ([c] + t)[j + 2..]
  {
    var u := [c] + t;
    assert u[..j + 1] == [c] + t[..j];
    assert u[j + 2..] == t[j + 1..];
  }

  /** `item.replace('.', '', 1).isdigit()` on the stripped cell: the row is a weight variant. */
  predicate IsVariantLabel(cell: string) {
    IsDigits(RemoveFirstDot(Strip(cell)))
  }

  /** The text of a decimal number: digits with at most one '.', and at least one digit. */
  predicate DecimalShape(t: string) {
    && HasDigit(t)
    && (forall i :: 0 <= i < |t| ==> IsDigit(t[i]) || t[i] == '.')
    && (forall i, j :: 0 <= i < j < |t| && t[i] == '.' ==> t[j] != '.')
  }

  /** Deleting the first '.' leaves a non-empty string of digits exactly when the text has the
      shape of a decimal number. */
  lemma DecimalShapeIff(t: string)
    ensures IsDigits(RemoveFirstDot(t)) <==> DecimalShape(t)
  {
    RemoveFirstDotSpec(t);
    var i := FirstDot(t);
    if i < |t| {
      var r := t[..i] + t[i + 1..];
      assert forall m :: 0 <= m < i ==> r[m] == t[m];
      assert forall m :: i < m < |t| ==> r[m - 1] == t[m];
      if IsDigits(r) {
        if i == 0 { assert t[1] == r[0]; } else { assert t[0] == r[0]; }
        forall m | 0 <= m < |t| ensures IsDigit(t[m]) || t[m] == '.' {
          if m > i { assert r[m - 1] == t[m]; }
        }
      }
      if DecimalShape(t) {
        var d :| 0 <= d < |t| && IsDigit(t[d]);
        assert d != i;
        assert |r| > 0;
        forall m | 0 <= m < |r| ensures IsDigit(r[m]) {
          if m >= i { assert r[m] == t[m + 1]; }
        }
      }
    }
  }

  /** A cell is a variant exactly when its stripped text has the shape of a decimal number; every
      other cell, "nan" included, starts a new parent. */
  lemma VariantLabelShape(cell: string)
    ensures IsVariantLabel(cell) <==> DecimalShape(Strip(cell))
  {
    DecimalShapeIff(Strip(cell));
  }

  /** The number of digits after the '.', 0 when there is none. */
  function FractionDigits(t: string): nat {
    if FirstDot(t) < |t| then |t| - FirstDot(t) - 1 else 0
  }

  /** `float(item)` for a variant cell, exactly: its digits read as an integer, scaled down by the
      number of digits after the '.'. */
  function LabelValue(cell: string): real
    requires IsVariantLabel(cell)
  {
    var t := Strip(cell);
    Scaled(DigitsValue(RemoveFirstDot(t)) as real, FractionDigits(t))
  }

  /** `x` divided by 10 `n` times. */
  function Scaled(x: real, n: nat): real {
    if n == 0 then x else Scaled(x, n - 1) / 10.0
  }

  lemma {:induction false} ScaledNonNegative(x: real, n: nat)
    requires x >= 0.0
    ensures Scaled(x, n) >= 0.0
  {
    if n > 0 {
      ScaledNonNegative(x, n - 1);
    }
  }

  /** A variant's weight is never negative. */
  lemma LabelValueNonNegative(cell: string)
    requires IsVariantLabel(cell)
    ensures LabelValue(cell) >= 0.0
  {
    var t := Strip(cell);
    ScaledNonNegative(DigitsValue(RemoveFirstDot(t)) as real, FractionDigits(t));
  }

  /** `weight * units`. */
  function WeightSold(weight: real, units: real): real {
    weight * units
  }

  /** The weight sold of a variant row: weight times units, when units is a number. */
  function VariantTotal(r: SalesRow): Option<real>
    requires IsVariantLabel(r.rowLabel)
  {
    match r.units
    case Some(u) => Some(WeightSold(LabelValue(r.rowLabel), u))
    case None => None
  }

  /** The sum of the defined totals of the consecutive variant rows from `k` on. */
  function RunSum(rows: seq<SalesRow>, k: nat): real
    requires k <= |rows|
    decreases |rows| - k
  {
    if k == |rows| || !IsVariantLabel(rows[k].rowLabel) then 0.0
    else VariantTotal(rows[k]).GetOr(0.0) + RunSum(rows, k + 1)
  }

  /** "Total Weight Sold (kg)" of row `k`: its own total for a variant, its run's sum for a parent. */
  function RowTotal(rows: seq<SalesRow>, k: nat): Option<real>
    requires k < |rows|
  {
    if IsVariantLabel(rows[k].rowLabel) then VariantTotal(rows[k]) else Some(RunSum(rows, k + 1))
  }

  /** The total of the last parent above row `j`, None when there is none. */
  function ParentTotalBefore(rows: seq<SalesRow>, j: nat): Option<real>
    requires j <= |rows|
  {
    if j == 0 then None
    else if !IsVariantLabel(rows[j - 1].rowLabel) then Some(RunSum(rows, j))
    else ParentTotalBefore(rows, j - 1)
  }

  /** `(part / whole) * 100`. */
  function Percent(part: real, whole: real): real
    requires whole != 0.0
  {
    part / whole * 100.0
  }

  /** "Contribution %" of row `k`. */
  function Contribution(rows: seq<SalesRow>, k: nat): Option<real>
    requires k < |rows|
  {
    if !IsVariantLabel(rows[k].rowLabel) then None
    else
      match (VariantTotal(rows[k]), ParentTotalBefore(rows, k))
      case (Some(v), Some(pt)) => if pt != 0.0 then Some(Round2(Percent(v, pt))) else None
      case _ => None
  }

  /** The first row loop: each variant's weight times units; the parents' positions, in order. */
  method VariantTotals(rows: seq<SalesRow>) returns (total: seq<Option<real>>, parentIndices: seq<nat>)
    ensures |total| == |rows|
    ensures forall k :: 0 <= k < |rows| && IsVariantLabel(rows[k].rowLabel) ==> total[k] == VariantTotal(rows[k])
    ensures forall t :: 0 <= t < |parentIndices| ==> parentIndices[t] < |rows| && !IsVariantLabel(rows[parentIndices[t]].rowLabel)
    ensures forall k :: 0 <= k < |rows| && !IsVariantLabel(rows[k].rowLabel) ==> k in parentIndices && total[k] == None
    ensures forall s, t :: 0 <= s < t < |parentIndices| ==> parentIndices[s] < parentIndices[t]
  {
    total := seq(|rows|, k => None);
    parentIndices := [];
    var idx := 0;
    while idx < |rows|
      invariant 0 <= idx <= |rows| && |total| == |rows|
      invariant forall k :: 0 <= k < idx && IsVariantLabel(rows[k].rowLabel) ==> total[k] == VariantTotal(rows[k])
      invariant forall k :: idx <= k < |rows| ==> total[k] == None
      invariant forall t :: 0 <= t < |parentIndices| ==> parentIndices[t] < idx && !IsVariantLabel(rows[parentIndices[t]].rowLabel)
      invariant forall k :: 0 <= k < idx && !IsVariantLabel(rows[k].rowLabel) ==> k in parentIndices && total[k] == None
      invariant forall s, t :: 0 <= s < t < |parentIndices| ==> parentIndices[s] < parentIndices[t]
    {
      if !IsVariantLabel(rows[idx].rowLabel) {
        parentIndices := parentIndices + [idx];
      } else {
        if rows[idx].units.Some? {
          total := total[idx := Some(WeightSold(LabelValue(rows[idx].rowLabel), rows[idx].units.value))];
        }
      }
      idx := idx + 1;
    }
  }

  /** The inner loop of the second: the defined totals of the variant rows below row `p`, up to the
      next parent. */
  method SumRun(rows: seq<SalesRow>, total: seq<Option<real>>, p: nat) returns (sum: real)
    requires p < |rows| && |total| == |rows|
    requires forall k :: 0 <= k < |rows| && IsVariantLabel(rows[k].rowLabel) ==> total[k] == VariantTotal(rows[k])
    ensures sum == RunSum(rows, p + 1)
  {
    sum := 0.0;
    var next := p + 1;
    while next < |rows|
      invariant p + 1 <= next <= |rows|
      invariant sum + RunSum(rows, next) == RunSum(rows, p + 1)
    {
      if !IsVariantLabel(rows[next].rowLabel) {
        break;
      }
      var weight := total[next];
      if weight.Some? {
        sum := sum + weight.value;
      }
      next := next + 1;
    }
  }

  /** The second loop: each parent's total is the sum of the defined totals of the variant rows
      directly below it, up to the next parent. */
  method ParentTotals(rows: seq<SalesRow>, total0: seq<Option<real>>, parentIndices: seq<nat>) returns (total: seq<Option<real>>)
    requires |total0| == |rows|
    requires forall k :: 0 <= k < |rows| && IsVariantLabel(rows[k].rowLabel) ==> total0[k] == VariantTotal(rows[k])
    requires forall t :: 0 <= t < |parentIndices| ==> parentIndices[t] < |rows| && !IsVariantLabel(rows[parentIndices[t]].rowLabel)
    requires forall k :: 0 <= k < |rows| && !IsVariantLabel(rows[k].rowLabel) ==> k in parentIndices
    ensures |total| == |rows|
    ensures forall k :: 0 <= k < |rows| ==> total[k] == RowTotal(rows, k)
  {
    total := total0;
    var t := 0;
    while t < |parentIndices|
      invariant 0 <= t <= |parentIndices| && |total| == |rows|
      invariant forall k :: 0 <= k < |rows| ==> total[k] == if k in parentIndices[..t] then Some(RunSum(rows, k + 1)) else total0[k]
    {
      var p := parentIndices[t];
      VariantsUntouched(rows, total0, total, parentIndices, t);
      var sum := SumRun(rows, total, p);
      total := total[p := Some(sum)];
      assert parentIndices[..t + 1] == parentIndices[..t] + [p];
      t := t + 1;
    }
    assert parentIndices[..t] == parentIndices;
    forall k | 0 <= k < |rows| ensures total[k] == RowTotal(rows, k) {
      if IsVariantLabel(rows[k].rowLabel) {
        assert k !in parentIndices;
      }
    }
  }

  /** Only parent rows are overwritten by the second loop, so the variants' totals stay as the
      first loop left them. */
  lemma VariantsUntouched(rows: seq<SalesRow>, total0: seq<Option<real>>, total: seq<Option<real>>, parentIndices: seq<nat>, t: nat)
    requires |total0| == |rows| && |total| == |rows| && t <= |parentIndices|
    requires forall k :: 0 <= k < |rows| && IsVariantLabel(rows[k].rowLabel) ==> total0[k] == VariantTotal(rows[k])
    requires forall s :: 0 <= s < |parentIndices| ==> parentIndices[s] < |rows| && !IsVariantLabel(rows[parentIndices[s]].rowLabel)
    requires forall k :: 0 <= k < |rows| ==> total[k] == if k in parentIndices[..t] then Some(RunSum(rows, k + 1)) else total0[k]
    ensures forall k :: 0 <= k < |rows| && IsVariantLabel(rows[k].rowLabel) ==> total[k] == VariantTotal(rows[k])
  {
  }

  /** The third loop: each variant's share of the last parent's total, when both are defined and
      that total is not 0. */
  method Contributions(rows: seq<SalesRow>, total: seq<Option<real>>) returns (contribution: seq<Option<real>>)
    requires |total| == |rows|
    requires forall k :: 0 <= k < |rows| ==> total[k] == RowTotal(rows, k)
    ensures |contribution| == |rows|
    ensures forall k :: 0 <= k < |rows| ==> contribution[k] == Contribution(rows, k)
  {
    contribution := seq(|rows|, k => None);
    var currentParentTotal: Option<real> := None;
    var idx := 0;
    while idx < |rows|
      invariant 0 <= idx <= |rows| && |contribution| == |rows|
      invariant currentParentTotal == ParentTotalBefore(rows, idx)
      invariant forall k :: 0 <= k < idx ==> contribution[k] == Contribution(rows, k)
      invariant forall k :: idx <= k < |rows| ==> contribution[k] == None
    {
      ContributionStep(rows, idx);
      ghost var before := contribution;
      if !IsVariantLabel(rows[idx].rowLabel) {
        currentParentTotal := total[idx];
      } else {
        var weight := total[idx];
        if weight.Some? && currentParentTotal.Some? && currentParentTotal.value != 0.0 {
          contribution := contribution[idx := Some(Round2(Percent(weight.value, currentParentTotal.value)))];
        }
      }
      assert contribution[idx] == Contribution(rows, idx);
      assert forall k :: 0 <= k < |rows| && k != idx ==> contribution[k] == before[k];
      idx := idx + 1;
    }
  }

  /** Row `k` as the third loop meets it: a parent sets the running parent total and gets no
      contribution; a variant keeps that total and gets its share when both are defined. */
  lemma ContributionStep(rows: seq<SalesRow>, k: nat)
    requires k < |rows|
    ensures !IsVariantLabel(rows[k].rowLabel) ==>
              ParentTotalBefore(rows, k + 1) == RowTotal(rows, k) && Contribution(rows, k).None?
    ensures IsVariantLabel(rows[k].rowLabel) ==>
              ParentTotalBefore(rows, k + 1) == ParentTotalBefore(rows, k)
              && Contribution(rows, k) ==
                 match (RowTotal(rows, k), ParentTotalBefore(rows, k))
                 case (Some(v), Some(pt)) => if pt != 0.0 then Some(Round2(Percent(v, pt))) else None
                 case _ => None
  {
  }

  /** `process_uploaded_file` after the sheet is read: the two computed columns, row by row. */
  method ProcessSalesMix(rows: seq<SalesRow>) returns (total: seq<Option<real>>, contribution: seq<Option<real>>)
    ensures |total| == |rows| && |contribution| == |rows|
    ensures forall k :: 0 <= k < |rows| ==> total[k] == RowTotal(rows, k)
    ensures forall k :: 0 <= k < |rows| ==> contribution[k] == Contribution(rows, k)
  {
    var variantTotals, parentIndices := VariantTotals(rows);
    total := ParentTotals(rows, variantTotals, parentIndices);
    contribution := Contributions(rows, total);
  }

  /** A parent directly followed by another parent, or by the end of the sheet, totals 0. */
  lemma ParentWithoutVariants(rows: seq<SalesRow>, p: nat)
    requires p < |rows| && !IsVariantLabel(rows[p].rowLabel)
    requires p + 1 == |rows| || !IsVariantLabel(rows[p + 1].rowLabel)
    ensures RowTotal(rows, p) == Some(0.0)
  {
  }

  /** Every variant in the run below parent `p` is measured against that parent's total. */
  lemma {:induction false} ParentTotalInRun(rows: seq<SalesRow>, p: nat, k: nat)
    requires p < k <= |rows| && !IsVariantLabel(rows[p].rowLabel)
    requires forall m :: p < m < k ==> IsVariantLabel(rows[m].rowLabel)
    ensures ParentTotalBefore(rows, k) == Some(RunSum(rows, p + 1))
  {
    if k > p + 1 {
      ParentTotalInRun(rows, p, k - 1);
    }
  }

  /** The sum over the run from `k` of the unrounded shares, in percent, of the total `pt`. */
  function ShareSum(rows: seq<SalesRow>, k: nat, pt: real): real
    requires k <= |rows| && pt != 0.0
    decreases |rows| - k
  {
    if k == |rows| || !IsVariantLabel(rows[k].rowLabel) then 0.0
    else Percent(VariantTotal(rows[k]).GetOr(0.0), pt) + ShareSum(rows, k + 1, pt)
  }

  lemma SharesAdd(a: real, b: real, pt: real)
    requires pt != 0.0
    ensures Percent(a, pt) + Percent(b, pt) == Percent(a + b, pt)
  {
  }

  lemma {:induction false} ShareSumScales(rows: seq<SalesRow>, k: nat, pt: real)
    requires k <= |rows| && pt != 0.0
    ensures ShareSum(rows, k, pt) == Percent(RunSum(rows, k), pt)
    decreases |rows| - k
  {
    if k < |rows| && IsVariantLabel(rows[k].rowLabel) {
      ShareSumScales(rows, k + 1, pt);
      SharesAdd(VariantTotal(rows[k]).GetOr(0.0), RunSum(rows, k + 1), pt);
    }
  }

  /** Before rounding, the shares of a parent's variants add up to 100%. */
  lemma SharesSumTo100(rows: seq<SalesRow>, p: nat)
    requires p < |rows| && !IsVariantLabel(rows[p].rowLabel) && RunSum(rows, p + 1) != 0.0
    ensures ShareSum(rows, p + 1, RunSum(rows, p + 1)) == 100.0
  {
    var pt := RunSum(rows, p + 1);
    ShareSumScales(rows, p + 1, pt);
    WholeShare(pt);
  }

  lemma WholeShare(pt: real)
    requires pt != 0.0
    ensures Percent(pt, pt) == 100.0
  {
  }

  /** A variant with a defined total under a parent with a non-zero total gets a contribution,
      within 0.005 of its exact share of the parent's total. */
  lemma ContributionOfRunMember(rows: seq<SalesRow>, p: nat, k: nat)
    requires p < k < |rows| && !IsVariantLabel(rows[p].rowLabel)
    requires forall m :: p < m <= k ==> IsVariantLabel(rows[m].rowLabel)
    requires VariantTotal(rows[k]).Some? && RunSum(rows, p + 1) != 0.0
    ensures Contribution(rows, k).Some?
    ensures Abs(Contribution(rows, k).value - Percent(VariantTotal(rows[k]).value, RunSum(rows, p + 1))) <= 0.005
  {
    ParentTotalInRun(rows, p, k);
    var v := VariantTotal(rows[k]).value;
    var pt := RunSum(rows, p + 1);
    ContributionIs(rows, k, v, pt);
    RoundedShare(Contribution(rows, k), Percent(v, pt));
  }

  lemma RoundedShare(c: Option<real>, x: real)
    requires c == Some(Round2(x))
    ensures c.Some? && Abs(c.value - x) <= 0.005
  {
    Round2Error(x);
  }

  lemma ContributionIs(rows: seq<SalesRow>, k: nat, v: real, pt: real)
    requires k < |rows| && IsVariantLabel(rows[k].rowLabel) && pt != 0.0
    requires VariantTotal(rows[k]) == Some(v) && ParentTotalBefore(rows, k) == Some(pt)
    ensures Contribution(rows, k) == Some(Round2(Percent(v, pt)))
  {
  }

  /** Labels as the sheet holds them: "0.5" and " 1 " are variants, "nan" and "1.2.5" are not. */
  lemma LabelExamples()
    ensures IsVariantLabel("0.5") && LabelValue("0.5") == 0.5
    ensures IsVariantLabel(" 1 ") && LabelValue(" 1 ") == 1.0
    ensures !IsVariantLabel("nan")
    ensures !IsVariantLabel("1.2.5")
  {
    assert Strip("0.5") == "0.5";
    assert FirstDot("0.5") == 1 && FractionDigits("0.5") == 1;
    assert DigitsValue("05") == 5 by { assert "05"[..1] == "0"; }
    assert Scaled(5.0, 1) == 0.5;
    assert RemoveFirstDot("0.5") == "05";
    assert "0.5"[..1] == "0" && "0.5"[2..] == "5";
    assert Strip(" 1 ") == "1" by {
      assert TrimStart(" 1 ") == "1 " by { assert " 1 "[1..] == "1 "; }
      assert TrimEnd("1 ") == "1" by { assert "1 "[..1] == "1"; }
    }
    assert FirstDot("1") == 1 && RemoveFirstDot("1") == "1";
    assert Strip("nan") == "nan";
    assert !IsDigit(RemoveFirstDot("nan")[0]);
    assert Strip("1.2.5") == "1.2.5";
    assert RemoveFirstDot("1.2.5") == "12.5";
    assert !IsDigit("12.5"[2]);
  }
}
