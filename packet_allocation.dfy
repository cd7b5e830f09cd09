/**
 * The packet allocation of the manual packing plan. For each selected parent item and its target
 * weight, the item's weight variants are gathered from the processed sales-mix sheet; each variant
 * gets an initial even number of packets from its contribution; a correction loop then adds or
 * removes two packets at a time until the packed weight is at most the target and within 5% of
 * it; the rest of the target is reported as loose weight.
 *
 * Where the page stops with a Python exception, the model returns an `AllocError`.
 */
module PacketAllocation {
  import opened Wrappers
  import opened Text
  import opened Rounding
  import opened SalesMix

  /** The exceptions the page can raise before a plan exists. */
  datatype AllocError =
    | ItemNotFound         // `.index[0]` of an empty selection (an IndexError)
    | MissingContribution  // a variant without "Contribution %": `None / 100` (a TypeError)
    | ZeroWeight           // a "0" variant: the packet estimate divides by 0
    | NoVariants           // an item without variants: the correction loop indexes an empty table
    | NeverSettles         // `adjust_packets` never returns: the page hangs

  // ---------------------------------------------------------------------------------------------
  // Parent items

  /** `str(label).replace('.', '', 1).isnumeric()`, applied to the cell as it is (not stripped). */
  predicate IsNumericLabel(cell: string) {
    IsDigits(RemoveFirstDot(cell))
  }

  /** The items offered for selection: the labels of the non-numeric rows, in sheet order. */
  function ParentItems(rows: seq<SalesRow>): seq<string> {
    if rows == [] then []
    else (if IsNumericLabel(rows[0].rowLabel) then [] else [rows[0].rowLabel]) + ParentItems(rows[1..])
  }

  /** A label is offered exactly when some row carries it and it is not numeric. */
  lemma {:induction false} ParentItemsSpec(rows: seq<SalesRow>, x: string)
    ensures x in ParentItems(rows) <==> exists k :: 0 <= k < |rows| && rows[k].rowLabel == x && !IsNumericLabel(x)
  {
    if rows != [] {
      ParentItemsSpec(rows[1..], x);
      assert forall k :: 0 < k < |rows| ==> rows[k] == rows[1..][k - 1];
      if x in ParentItems(rows[1..]) {
        var k :| 0 <= k < |rows[1..]| && rows[1..][k].rowLabel == x && !IsNumericLabel(x);
        assert rows[k + 1].rowLabel == x;
      }
    }
  }

  // ---------------------------------------------------------------------------------------------
  // Gathering the variants of an item

  /** One variant of the selected item, as gathered from the sheet. */
  datatype Variant = Variant(weight: real, contribution: Option<real>, pouch: Option<string>, asin: Option<string>)

  /** `df_full[df_full['Row Labels'] == item].index[0]`, searched from row `k` on. */
  function FindLabel(rows: seq<SalesRow>, item: string, k: nat): (r: Option<nat>)
    requires k <= |rows|
    ensures r.Some? ==> k <= r.value < |rows| && rows[r.value].rowLabel == item
    ensures r.Some? ==> forall m :: k <= m < r.value ==> rows[m].rowLabel != item
    ensures r.None? <==> forall m :: k <= m < |rows| ==> rows[m].rowLabel != item
    decreases |rows| - k
  {
    if k == |rows| then None
    else if rows[k].rowLabel == item then Some(k)
    else FindLabel(rows, item, k + 1)
  }

  /** The variants read from row `i` down to the first row that is not a variant. */
  function RunVariants(rows: seq<SalesRow>, contribution: seq<Option<real>>, i: nat): seq<Variant>
    requires i <= |rows| && |contribution| == |rows|
    decreases |rows| - i
  {
    if i == |rows| || !IsVariantLabel(rows[i].rowLabel) then []
    else [Variant(LabelValue(rows[i].rowLabel), contribution[i], rows[i].pouch, rows[i].asin)]
         + RunVariants(rows, contribution, i + 1)
  }

  /** The variants of `item`: those directly below the first row labelled `item`. */
  function Gather(rows: seq<SalesRow>, contribution: seq<Option<real>>, item: string): Result<seq<Variant>, AllocError>
    requires |contribution| == |rows|
  {
    match FindLabel(rows, item, 0)
    case None => Err(ItemNotFound)
    case Some(p) => Ok(RunVariants(rows, contribution, p + 1))
  }

  /** A run stops at the end of the sheet or at the first row that is not a variant. */
  lemma {:induction false} RunVariantsEnd(rows: seq<SalesRow>, contribution: seq<Option<real>>, i: nat)
    requires i <= |rows| && |contribution| == |rows|
    ensures i + |RunVariants(rows, contribution, i)| <= |rows|
    ensures var e := i + |RunVariants(rows, contribution, i)|; e == |rows| || !IsVariantLabel(rows[e].rowLabel)
    decreases |rows| - i
  {
    if i < |rows| && IsVariantLabel(rows[i].rowLabel) {
      RunVariantsEnd(rows, contribution, i + 1);
    }
  }

  /** Variant `j` of a run comes from row `i + j`, which is a variant row. */
  lemma {:induction false} RunVariantsAt(rows: seq<SalesRow>, contribution: seq<Option<real>>, i: nat, j: nat)
    requires i <= |rows| && |contribution| == |rows| && j < |RunVariants(rows, contribution, i)|
    ensures i + j < |rows| && IsVariantLabel(rows[i + j].rowLabel)
    ensures RunVariants(rows, contribution, i)[j]
            == Variant(LabelValue(rows[i + j].rowLabel), contribution[i + j], rows[i + j].pouch, rows[i + j].asin)
    decreases j
  {
    if j > 0 {
      RunVariantsAt(rows, contribution, i + 1, j - 1);
      assert i + j == (i + 1) + (j - 1);
    }
  }

  /** The run read from row `i` ends inside the sheet, at its end or before a row that is not a
      variant, and every weight in it is never negative. */
  lemma RunVariantsSpec(rows: seq<SalesRow>, contribution: seq<Option<real>>, i: nat)
    requires i <= |rows| && |contribution| == |rows|
    ensures i + |RunVariants(rows, contribution, i)| <= |rows|
    ensures var e := i + |RunVariants(rows, contribution, i)|; e == |rows| || !IsVariantLabel(rows[e].rowLabel)
    ensures forall j :: 0 <= j < |RunVariants(rows, contribution, i)| ==> RunVariants(rows, contribution, i)[j].weight >= 0.0
  {
    RunVariantsEnd(rows, contribution, i);
    forall j | 0 <= j < |RunVariants(rows, contribution, i)|
      ensures RunVariants(rows, contribution, i)[j].weight >= 0.0
    {
      RunVariantsAt(rows, contribution, i, j);
      LabelValueNonNegative(rows[i + j].rowLabel);
    }
  }

  /** Every item the page offers is found, so gathering its variants does not fail. */
  lemma OfferedItemsResolve(rows: seq<SalesRow>, contribution: seq<Option<real>>, item: string)
    requires |contribution| == |rows| && item in ParentItems(rows)
    ensures Gather(rows, contribution, item).Ok?
  {
    ParentItemsSpec(rows, item);
  }

  /** The gathering loop: from the row after the item's first row, while the stripped label is a
      number, append the variant. */
  method GatherVariations(rows: seq<SalesRow>, contribution: seq<Option<real>>, item: string)
    returns (r: Result<seq<Variant>, AllocError>)
    requires |contribution| == |rows|
    ensures r == Gather(rows, contribution, item)
  {
    var found := FindLabel(rows, item, 0);
    if found.None? {
      return Err(ItemNotFound);
    }
    var variations: seq<Variant> := [];
    var i := found.value + 1;
    while i < |rows|
      invariant found.value + 1 <= i <= |rows|
      invariant variations + RunVariants(rows, contribution, i) == RunVariants(rows, contribution, found.value + 1)
    {
      if !IsVariantLabel(rows[i].rowLabel) {
        break;
      }
      var v := Variant(LabelValue(rows[i].rowLabel), contribution[i], rows[i].pouch, rows[i].asin);
      assert RunVariants(rows, contribution, i) == [v] + RunVariants(rows, contribution, i + 1);
      assert (variations + [v]) + RunVariants(rows, contribution, i + 1)
          == variations + ([v] + RunVariants(rows, contribution, i + 1));
      variations := variations + [v];
      i := i + 1;
    }
    assert RunVariants(rows, contribution, i) == [];
    assert variations + [] == variations;
    return Ok(variations);
  }

  // ---------------------------------------------------------------------------------------------
  // The initial estimate

  /** One row of the plan: the per-packet weight, the pouch and ASIN, the packet count and the
      weight packed. */
  datatype PackLine = PackLine(variation: real, pouch: Option<string>, asin: Option<string>, packets: int, packed: real)

  /** `packets * variation`, written as repeated addition so that proofs about the loop stay
      linear; `PackedWeightIsProduct` shows it is the product. */
  function PackedWeight(packets: int, variation: real): real {
    if packets >= 0 then Times(packets, variation) else -Times(-packets, variation)
  }

  lemma PackedWeightIsProduct(packets: int, variation: real)
    ensures PackedWeight(packets, variation) == packets as real * variation
  {
    if packets >= 0 {
      TimesIsProduct(packets, variation);
    } else {
      TimesIsProduct(-packets, variation);
    }
  }

  /** The exact number of packets that would carry the variant's share of the target. */
  function Ideal(v: Variant, target: int): real
    requires v.contribution.Some? && v.weight != 0.0
  {
    v.contribution.value / 100.0 * target as real / v.weight
  }

  /** The estimate for one variant: `round_to_nearest_2` of the ideal count. */
  function EstimateLine(v: Variant, target: int): Result<PackLine, AllocError> {
    if v.contribution.None? then Err(MissingContribution)
    else if v.weight == 0.0 then Err(ZeroWeight)
    else
      var packets := RoundToNearest2(Some(Ideal(v, target))).value;
      Ok(PackLine(v.weight, v.pouch, v.asin, packets, PackedWeight(packets, v.weight)))
  }

  /** The estimate fails exactly for a variant without a contribution or of weight 0; otherwise it
      keeps the variant's columns, its packet count is the even integer nearest to the ideal count
      (within 1 of it), and its packed weight is packets times weight. */
  lemma EstimateLineSpec(v: Variant, target: int)
    ensures EstimateLine(v, target).Err? <==> v.contribution.None? || v.weight == 0.0
    ensures EstimateLine(v, target).Ok? ==>
              var l := EstimateLine(v, target).value;
              && l.variation == v.weight && l.pouch == v.pouch && l.asin == v.asin
              && l.packets % 2 == 0
              && Dist(Ideal(v, target), l.packets) <= 1.0
              && (forall n: int :: n % 2 == 0 ==> Dist(Ideal(v, target), l.packets) <= Dist(Ideal(v, target), n))
              && l.packed == PackedWeight(l.packets, l.variation)
  {
    if v.contribution.Some? && v.weight != 0.0 {
      RoundToNearest2Spec(Some(Ideal(v, target)));
    }
  }

  /** The estimates of all variants, or the error of the first one that fails. */
  function Estimate(vs: seq<Variant>, target: int): Result<seq<PackLine>, AllocError> {
    if vs == [] then Ok([])
    else
      match Estimate(vs[..|vs| - 1], target)
      case Err(e) => Err(e)
      case Ok(ls) =>
        match EstimateLine(vs[|vs| - 1], target)
        case Err(e) => Err(e)
        case Ok(l) => Ok(ls + [l])
  }

  /** The estimate succeeds iff every variant's does, and then line `k` is variant `k`'s estimate. */
  lemma {:induction false} EstimateSpec(vs: seq<Variant>, target: int)
    ensures Estimate(vs, target).Ok? <==> forall k :: 0 <= k < |vs| ==> EstimateLine(vs[k], target).Ok?
    ensures Estimate(vs, target).Ok? ==>
              && |Estimate(vs, target).value| == |vs|
              && forall k :: 0 <= k < |vs| ==> EstimateLine(vs[k], target) == Ok(Estimate(vs, target).value[k])
  {
    if vs != [] {
      var init := vs[..|vs| - 1];
      EstimateSpec(init, target);
      assert forall k :: 0 <= k < |init| ==> init[k] == vs[k];
    }
  }

  /** An error in a prefix is the error of the whole list. */
  lemma {:induction false} EstimateErrorPersists(vs: seq<Variant>, target: int, i: nat)
    requires i <= |vs| && Estimate(vs[..i], target).Err?
    ensures Estimate(vs, target) == Estimate(vs[..i], target)
    decreases |vs| - i
  {
    if i < |vs| {
      assert vs[..i + 1][..i] == vs[..i];
      EstimateErrorPersists(vs, target, i + 1);
    } else {
      assert vs[..i] == vs;
    }
  }

  /** The estimate loop: append each variant's line, stopping at the first failure. */
  method InitialEstimate(vs: seq<Variant>, target: int) returns (r: Result<seq<PackLine>, AllocError>)
    ensures r == Estimate(vs, target)
  {
    var result: seq<PackLine> := [];
    var i := 0;
    while i < |vs|
      invariant 0 <= i <= |vs|
      invariant Estimate(vs[..i], target) == Ok(result)
    {
      assert vs[..i + 1][..i] == vs[..i];
      var line := EstimateLine(vs[i], target);
      if line.Err? {
        EstimateErrorPersists(vs, target, i + 1);
        return Err(line.error);
      }
      result := result + [line.value];
      i := i + 1;
    }
    assert vs[..i] == vs;
    return Ok(result);
  }

  // ---------------------------------------------------------------------------------------------
  // The correction loop, as written

  /** `result_df['Weight Packed (kg)'].sum()` */
  function Packed(lines: seq<PackLine>): real {
    if lines == [] then 0.0 else Packed(lines[..|lines| - 1]) + lines[|lines| - 1].packed
  }

  /** `(target_weight - packed_weight) / target_weight` */
  function Deviation(target: int, packed: real): real
    requires target >= 1
  {
    (target as real - packed) / target as real
  }

  /** The loop condition: over the target, or more than 5% of it away from it. */
  predicate Unsettled(target: int, packed: real)
    requires target >= 1
  {
    packed > target as real || Abs(target as real - packed) > 0.05 * target as real
  }

  /** The loop condition as `adjust_packets` tests it, `packed_weight > target_weight or
      abs(deviation) > 0.05`, is `Unsettled`. */
  lemma UnsettledIsLoopCondition(target: int, packed: real)
    requires target >= 1
    ensures Unsettled(target, packed) <==> packed > target as real || Abs(Deviation(target, packed)) > 0.05
  {
    var t, d := target as real, Deviation(target, packed);
    DeviationScaled(target, packed);
    ScaledCompare(d, t, 0.0);
    ScaledCompare(0.0, t, d);
    ScaledCompare(Abs(d), t, 0.05);
    if d < 0.0 {
      assert Abs(d) * t == -(d * t);
    }
  }

  /** Every packed weight is packets times the per-packet weight. */
  predicate Consistent(lines: seq<PackLine>) {
    forall k :: 0 <= k < |lines| ==> lines[k].packed == PackedWeight(lines[k].packets, lines[k].variation)
  }

  predicate EvenCounts(lines: seq<PackLine>) {
    forall k :: 0 <= k < |lines| ==> lines[k].packets % 2 == 0
  }

  predicate NonNegativeCounts(lines: seq<PackLine>) {
    forall k :: 0 <= k < |lines| ==> lines[k].packets >= 0
  }

  /** The same rows with the same per-packet weights, pouches and ASINs; only the counts and
      packed weights may differ. */
  predicate SameColumns(a: seq<PackLine>, b: seq<PackLine>) {
    |a| == |b| && forall k :: 0 <= k < |a| ==>
      a[k].variation == b[k].variation && a[k].pouch == b[k].pouch && a[k].asin == b[k].asin
  }

  /** `idxmax()` of the per-packet weights: the first row of largest weight. */
  function ArgMax(lines: seq<PackLine>): (i: nat)
    requires |lines| > 0
    ensures i < |lines|
    ensures forall k :: 0 <= k < |lines| ==> lines[k].variation <= lines[i].variation
    ensures forall k :: 0 <= k < i ==> lines[k].variation < lines[i].variation
  {
    if |lines| == 1 then 0
    else
      var j := ArgMax(lines[..|lines| - 1]);
      if lines[|lines| - 1].variation > lines[j].variation then |lines| - 1 else j
  }

  /** `idxmin()` of the per-packet weights: the first row of smallest weight. */
  function ArgMin(lines: seq<PackLine>): (i: nat)
    requires |lines| > 0
    ensures i < |lines|
    ensures forall k :: 0 <= k < |lines| ==> lines[i].variation <= lines[k].variation
    ensures forall k :: 0 <= k < i ==> lines[i].variation < lines[k].variation
  {
    if |lines| == 1 then 0
    else
      var j := ArgMin(lines[..|lines| - 1]);
      if lines[|lines| - 1].variation < lines[j].variation then |lines| - 1 else j
  }

  /** `result_df['Weight Packed (kg)'] = result_df['Variation (kg)'] * result_df['Packets to Pack']` */
  function Recompute(lines: seq<PackLine>): seq<PackLine> {
    seq(|lines|, k requires 0 <= k < |lines| => lines[k].(packed := PackedWeight(lines[k].packets, lines[k].variation)))
  }

  /** Row `i` with its count changed by `d`. */
  function Bump(lines: seq<PackLine>, i: nat, d: int): seq<PackLine>
    requires i < |lines|
  {
    lines[i := lines[i].(packets := lines[i].packets + d)]
  }

  /** One pass of the loop body, taken while the loop condition holds: over the target, two packets
      come off the heaviest variant if it has two; under it, two go on the lightest. */
  function Step(lines: seq<PackLine>, target: int): seq<PackLine>
    requires |lines| > 0 && target >= 1
  {
    var packed := Packed(lines);
    if packed > target as real then
      var i := ArgMax(lines);
      if lines[i].packets >= 2 then Recompute(Bump(lines, i, -2)) else Recompute(lines)
    else Recompute(Bump(lines, ArgMin(lines), 2))
  }

  /** `adjust_packets`, followed for at most `fuel` passes: Some(the table it returns), or None
      when it is still looping. The `else: break` arm is left out: `BreakUnreachable` shows that
      the loop condition excludes it. */
  function Run(lines: seq<PackLine>, target: int, fuel: nat): Option<seq<PackLine>>
    requires |lines| > 0 && target >= 1
    decreases fuel
  {
    if !Unsettled(target, Packed(lines)) then Some(lines)
    else if fuel == 0 then None
    else Run(Step(lines, target), target, fuel - 1)
  }

  /** Within the loop and not over the target, the deviation is positive: the `else: break` arm of
      the loop body is never taken. */
  lemma BreakUnreachable(target: int, packed: real)
    requires target >= 1 && Unsettled(target, packed) && packed <= target as real
    ensures Deviation(target, packed) > 0.05
  {
    DeviationScaled(target, packed);
    ScaledCompare(Deviation(target, packed), target as real, 0.05);
  }

  /** The loop ends with packed weight at most the target and loose weight at most 5% of it. */
  lemma SettledMeans(target: int, packed: real)
    requires target >= 1
    ensures !Unsettled(target, packed) <==> packed <= target as real && target as real - packed <= 0.05 * target as real
    ensures packed <= target as real ==> Deviation(target, packed) >= 0.0
  {
    DeviationScaled(target, packed);
    SettledArith(Deviation(target, packed), target as real, packed);
  }

  /** The deviation times the target is the loose weight. */
  lemma DeviationScaled(target: int, packed: real)
    requires target >= 1
    ensures Deviation(target, packed) * target as real == target as real - packed
  {
  }

  /** For a positive target `t` and `d * t == t - p`: `p <= t` exactly when `d` is not negative,
      and then `|d| <= 0.05` exactly when `t - p <= 0.05 * t`. */
  lemma SettledArith(d: real, t: real, p: real)
    requires t > 0.0 && d * t == t - p
    ensures p <= t <==> d >= 0.0
    ensures p <= t ==> (Abs(d) <= 0.05 <==> t - p <= 0.05 * t)
  {
    ScaledCompare(d, t, 0.05);
    ScaledCompare(0.0, t, d);
  }

  lemma ScaledCompare(x: real, t: real, y: real)
    requires t > 0.0
    ensures x <= y <==> x * t <= y * t
  {
  }

  lemma RecomputeConsistent(lines: seq<PackLine>)
    requires Consistent(lines)
    ensures Recompute(lines) == lines
  {
  }

  /** One pass changes exactly one count, by -2 on the first heaviest variant when over the target
      (and only if it has 2 packets), by +2 on the first lightest one otherwise; every other count
      and every weight, pouch and ASIN is kept, and packed weights are recomputed. Even counts stay
      even and non-negative counts stay non-negative. */
  /** A pass keeps the number of rows. */
  lemma StepLength(lines: seq<PackLine>, target: int)
    requires |lines| > 0 && target >= 1
    ensures |Step(lines, target)| == |lines|
  {
  }

  lemma StepSpec(lines: seq<PackLine>, target: int)
    requires |lines| > 0 && target >= 1
    ensures var s := Step(lines, target);
            && SameColumns(lines, s) && Consistent(s)
            && (EvenCounts(lines) ==> EvenCounts(s))
            && (NonNegativeCounts(lines) ==> NonNegativeCounts(s))
    ensures var s := Step(lines, target); var i := ArgMax(lines);
            Packed(lines) > target as real ==>
              && (forall k :: 0 <= k < |lines| && k != i ==> s[k].packets == lines[k].packets)
              && s[i].packets == (if lines[i].packets >= 2 then lines[i].packets - 2 else lines[i].packets)
    ensures var s := Step(lines, target); var i := ArgMin(lines);
            Packed(lines) <= target as real ==>
              && (forall k :: 0 <= k < |lines| && k != i ==> s[k].packets == lines[k].packets)
              && s[i].packets == lines[i].packets + 2
  {
    var s := Step(lines, target);
    if Packed(lines) > target as real {
      var i := ArgMax(lines);
      if lines[i].packets >= 2 {
        assert s == Recompute(Bump(lines, i, -2));
        RecomputeBump(lines, i, -2);
      } else {
        assert s == Recompute(lines);
        RecomputeSpec(lines);
      }
    } else {
      var i := ArgMin(lines);
      assert s == Recompute(Bump(lines, i, 2));
      RecomputeBump(lines, i, 2);
    }
  }

  lemma RecomputeBump(lines: seq<PackLine>, i: nat, d: int)
    requires i < |lines| && (d == 2 || d == -2)
    ensures var s := Recompute(Bump(lines, i, d));
            && SameColumns(lines, s) && Consistent(s)
            && s[i].packets == lines[i].packets + d
            && (forall k :: 0 <= k < |lines| && k != i ==> s[k].packets == lines[k].packets)
            && (EvenCounts(lines) ==> EvenCounts(s))
            && (NonNegativeCounts(lines) && lines[i].packets + d >= 0 ==> NonNegativeCounts(s))
  {
    BumpSpec(lines, i, d);
    RecomputeSpec(Bump(lines, i, d));
  }

  lemma RecomputeSpec(lines: seq<PackLine>)
    ensures SameColumns(lines, Recompute(lines)) && Consistent(Recompute(lines))
    ensures forall k :: 0 <= k < |lines| ==> Recompute(lines)[k].packets == lines[k].packets
  {
  }

  /** Changing one count by two keeps counts even, and keeps them non-negative when the
      step does not go below 0. */
  lemma BumpSpec(lines: seq<PackLine>, i: nat, d: int)
    requires i < |lines| && (d == 2 || d == -2)
    ensures var b := Bump(lines, i, d);
            && SameColumns(lines, b)
            && b[i].packets == lines[i].packets + d
            && (forall k :: 0 <= k < |lines| && k != i ==> b[k].packets == lines[k].packets)
            && (EvenCounts(lines) ==> EvenCounts(b))
            && (NonNegativeCounts(lines) && lines[i].packets + d >= 0 ==> NonNegativeCounts(b))
  {
  }

  /** When the loop returns, the packed weight is at most the target and within 5% of it; counts
      stay even and non-negative when they start so, and the rows keep their weights. */
  lemma {:induction false} RunSpec(lines: seq<PackLine>, target: int, fuel: nat)
    requires |lines| > 0 && target >= 1 && Consistent(lines)
    requires Run(lines, target, fuel).Some?
    ensures var r := Run(lines, target, fuel).value;
            && Packed(r) <= target as real && target as real - Packed(r) <= 0.05 * target as real
            && SameColumns(lines, r) && Consistent(r)
            && (EvenCounts(lines) ==> EvenCounts(r))
            && (NonNegativeCounts(lines) ==> NonNegativeCounts(r))
    decreases fuel
  {
    RunUnfolds(lines, target, fuel);
    if Unsettled(target, Packed(lines)) {
      var s := Step(lines, target);
      StepSpec(lines, target);
      RunSpec(s, target, fuel - 1);
      SameColumnsTransitive(lines, s, Run(s, target, fuel - 1).value);
    } else {
      SettledMeans(target, Packed(lines));
    }
  }

  lemma SameColumnsTransitive(a: seq<PackLine>, b: seq<PackLine>, c: seq<PackLine>)
    requires SameColumns(a, b) && SameColumns(b, c)
    ensures SameColumns(a, c)
  {
  }

  /** `adjust_packets` with at most `fuel` passes of its loop. */
  method AdjustPackets(lines0: seq<PackLine>, target: int, fuel: nat) returns (lines: seq<PackLine>, settled: bool)
    requires |lines0| > 0 && target >= 1
    ensures Run(lines0, target, fuel) == if settled then Some(lines) else None
  {
    lines := lines0;
    var packed := Packed(lines);
    var deviation := Deviation(target, packed);
    var n := fuel;
    while packed > target as real || Abs(deviation) > 0.05
      invariant |lines| == |lines0|
      invariant packed == Packed(lines) && deviation == Deviation(target, packed)
      invariant Run(lines0, target, fuel) == Run(lines, target, n)
      decreases n
    {
      UnsettledIsLoopCondition(target, packed);
      if n == 0 {
        RunUnfolds(lines, target, n);
        return lines, false;
      }
      ghost var before := lines;
      if packed > target as real || deviation > 0.0 {
        lines := Pass(lines, target);
        RunAdvances(lines0, target, fuel, before, lines, n);
      } else {
        BreakUnreachable(target, packed);
        assert false;
        break;
      }
      packed := Packed(lines);
      deviation := Deviation(target, packed);
      n := n - 1;
    }
    UnsettledIsLoopCondition(target, packed);
    RunUnfolds(lines, target, n);
    settled := true;
  }

  /** A pass taken while the loop condition holds keeps what the loop returns. */
  lemma RunAdvances(lines0: seq<PackLine>, target: int, fuel: nat, before: seq<PackLine>, after: seq<PackLine>, n: nat)
    requires |lines0| > 0 && |before| > 0 && target >= 1 && n > 0
    requires Unsettled(target, Packed(before)) && after == Step(before, target)
    requires Run(lines0, target, fuel) == Run(before, target, n)
    ensures |after| == |before|
    ensures Run(lines0, target, fuel) == Run(after, target, n - 1)
  {
    StepSpec(before, target);
  }

  /** One unfolding of `Run`. */
  lemma RunUnfolds(lines: seq<PackLine>, target: int, fuel: nat)
    requires |lines| > 0 && target >= 1
    ensures !Unsettled(target, Packed(lines)) ==> Run(lines, target, fuel) == Some(lines)
    ensures Unsettled(target, Packed(lines)) && fuel > 0 ==> Run(lines, target, fuel) == Run(Step(lines, target), target, fuel - 1)
  {
  }

  /** One pass of the loop body over the target or under it: two packets off the heaviest variant
      (when it has two), or two packets onto the lightest, then the packed weights recomputed. */
  method Pass(lines: seq<PackLine>, target: int) returns (next: seq<PackLine>)
    requires |lines| > 0 && target >= 1
    ensures next == Step(lines, target)
  {
    next := lines;
    if Packed(lines) > target as real {
      var idx := ArgMax(lines);
      if lines[idx].packets >= 2 {
        next := lines[idx := lines[idx].(packets := lines[idx].packets - 2)];
      }
    } else {
      var idx := ArgMin(lines);
      next := lines[idx := lines[idx].(packets := lines[idx].packets + 2)];
    }
    next := Recompute(next);
  }

  /** Over the target with fewer than 2 packets on the heaviest variant, a pass changes nothing, so
      the loop never ends. */
  lemma {:induction false} StallNeverSettles(lines: seq<PackLine>, target: int, fuel: nat)
    requires |lines| > 0 && target >= 1 && Consistent(lines)
    requires Packed(lines) > target as real && lines[ArgMax(lines)].packets < 2
    ensures Run(lines, target, fuel).None?
    decreases fuel
  {
    RecomputeConsistent(lines);
    assert Step(lines, target) == lines;
    if fuel > 0 {
      StallNeverSettles(lines, target, fuel - 1);
    }
  }

  /** One 1 kg variant with no packets, and the same with two. */
  function Empty1kg(): seq<PackLine> { [PackLine(1.0, None, None, 0, 0.0)] }
  function Two1kg(): seq<PackLine> { [PackLine(1.0, None, None, 2, 2.0)] }

  /** A 1 kg target with a single 1 kg variant: the estimate is 0 packets (1 rounds to 0), and the
      loop then alternates between 0 and 2 packets, never settling. */
  lemma {:induction false} OscillationNeverSettles(fuel: nat)
    ensures Estimate([Variant(1.0, Some(100.0), None, None)], 1) == Ok(Empty1kg())
    ensures Run(Empty1kg(), 1, fuel).None? && Run(Two1kg(), 1, fuel).None?
    decreases fuel
  {
    RoundToNearest2Ties();
    var v := Variant(1.0, Some(100.0), None, None);
    assert Ideal(v, 1) == 1.0;
    assert PackedWeight(0, 1.0) == 0.0;
    assert EstimateLine(v, 1) == Ok(Empty1kg()[0]);
    assert [v][..0] == [];
    assert Estimate([v], 1) == Ok([] + [Empty1kg()[0]]);
    assert [] + [Empty1kg()[0]] == Empty1kg();
    assert Packed(Empty1kg()) == 0.0 by { assert Empty1kg()[..0] == []; }
    assert Packed(Two1kg()) == 2.0 by { assert Two1kg()[..0] == []; }
    assert Deviation(1, 0.0) == 1.0;
    assert Step(Empty1kg(), 1) == Two1kg();
    assert Step(Two1kg(), 1) == Empty1kg();
    if fuel > 0 {
      OscillationNeverSettles(fuel - 1);
    }
  }

  /** A 100 kg target split 40/60 between 0.5 kg and 1 kg variants: 80 and 60 packets, exactly
      100 kg, and the loop does not run. */
  lemma ScenarioSettles()
    ensures var vs := [Variant(0.5, Some(40.0), None, None), Variant(1.0, Some(60.0), None, None)];
            var lines := [PackLine(0.5, None, None, 80, 40.0), PackLine(1.0, None, None, 60, 60.0)];
            Estimate(vs, 100) == Ok(lines) && Run(lines, 100, 0) == Some(lines)
  {
    var vs := [Variant(0.5, Some(40.0), None, None), Variant(1.0, Some(60.0), None, None)];
    var lines := [PackLine(0.5, None, None, 80, 40.0), PackLine(1.0, None, None, 60, 60.0)];
    assert Ideal(vs[0], 100) == 80.0;
    assert Ideal(vs[1], 100) == 60.0;
    assert RoundHalfEven(40.0) == 40 by { assert (40.0).Floor == 40; }
    assert RoundHalfEven(30.0) == 30 by { assert (30.0).Floor == 30; }
    PackedWeightIsProduct(80, 0.5);
    PackedWeightIsProduct(60, 1.0);
    assert EstimateLine(vs[0], 100) == Ok(lines[0]);
    assert EstimateLine(vs[1], 100) == Ok(lines[1]);
    assert vs[..1] == [vs[0]] && vs[..1][..0] == [];
    assert Estimate(vs[..1], 100) == Ok([] + [lines[0]]);
    assert [] + [lines[0]] == [lines[0]];
    assert vs[..|vs| - 1] == vs[..1];
    assert Estimate(vs, 100) == Ok([lines[0]] + [lines[1]]);
    assert [lines[0]] + [lines[1]] == lines;
    assert lines[..1] == [lines[0]] && lines[..1][..0] == [];
    assert Packed(lines) == 100.0;
    assert Deviation(100, 100.0) == 0.0;
  }

  /** A 1 kg target split 95/5 between 0.3 kg and 2 kg variants: the estimate is 4 and 0 packets,
      1.2 kg in all, over the target; the heaviest variant has no packets to take off, so the loop
      never ends. */
  lemma StallScenario(fuel: nat)
    ensures var vs := [Variant(0.3, Some(95.0), None, None), Variant(2.0, Some(5.0), None, None)];
            var lines := [PackLine(0.3, None, None, 4, 1.2), PackLine(2.0, None, None, 0, 0.0)];
            Estimate(vs, 1) == Ok(lines) && Run(lines, 1, fuel).None?
  {
    var vs := [Variant(0.3, Some(95.0), None, None), Variant(2.0, Some(5.0), None, None)];
    var lines := [PackLine(0.3, None, None, 4, 1.2), PackLine(2.0, None, None, 0, 0.0)];
    assert Ideal(vs[0], 1) == 19.0 / 6.0;
    assert Ideal(vs[1], 1) == 0.025;
    assert RoundHalfEven(19.0 / 12.0) == 2 by { assert (19.0 / 12.0).Floor == 1; }
    assert RoundHalfEven(0.0125) == 0 by { assert (0.0125).Floor == 0; }
    PackedWeightIsProduct(4, 0.3);
    PackedWeightIsProduct(0, 2.0);
    assert EstimateLine(vs[0], 1) == Ok(lines[0]);
    assert EstimateLine(vs[1], 1) == Ok(lines[1]);
    assert vs[..1] == [vs[0]] && vs[..1][..0] == [];
    assert Estimate(vs[..1], 1) == Ok([] + [lines[0]]);
    assert [] + [lines[0]] == [lines[0]];
    assert vs[..|vs| - 1] == vs[..1];
    assert Estimate(vs, 1) == Ok([lines[0]] + [lines[1]]);
    assert [lines[0]] + [lines[1]] == lines;
    assert lines[..1] == [lines[0]] && lines[..1][..0] == [];
    assert Packed(lines) == 1.2;
    assert ArgMax(lines) == 1 by { assert lines[..1] == [lines[0]]; }
    StallNeverSettles(lines, 1, fuel);
  }

  // ---------------------------------------------------------------------------------------------
  // The correction loop, corrected

  /** Every per-packet weight is positive, as after a successful estimate. */
  predicate PositiveWeights(lines: seq<PackLine>) {
    forall k :: 0 <= k < |lines| ==> lines[k].variation > 0.0
  }

  /** Row `i` with `n` packets and its packed weight kept in step. */
  function Repack(lines: seq<PackLine>, i: nat, n: int): seq<PackLine>
    requires i < |lines|
  {
    lines[i := lines[i].(packets := n, packed := PackedWeight(n, lines[i].variation))]
  }

  lemma {:induction false} PackedUpdate(lines: seq<PackLine>, i: nat, x: PackLine)
    requires i < |lines|
    ensures Packed(lines[i := x]) == Packed(lines) - lines[i].packed + x.packed
  {
    var n := |lines| - 1;
    var u := lines[i := x];
    if i == n {
      assert u[..n] == lines[..n];
    } else {
      assert u[..n] == lines[..n][i := x];
      PackedUpdate(lines[..n], i, x);
    }
  }

  /** Repacking one row keeps the columns, the consistency and even counts, and touches no other
      row. */
  lemma RepackSpec(lines: seq<PackLine>, i: nat, n: int)
    requires i < |lines| && Consistent(lines)
    ensures var r := Repack(lines, i, n);
            && SameColumns(lines, r) && Consistent(r)
            && r[i].packets == n
            && (forall k :: 0 <= k < |lines| && k != i ==> r[k] == lines[k])
            && (EvenCounts(lines) && n % 2 == 0 ==> EvenCounts(r))
  {
  }

  /** Repacking one row by two packets moves the packed weight by twice the row's weight. */
  lemma RepackPacked(lines: seq<PackLine>, i: nat, n: int, d: int)
    requires i < |lines| && lines[i].packed == PackedWeight(lines[i].packets, lines[i].variation)
    requires n == lines[i].packets + d && (d == 2 || d == -2)
    ensures d == 2 ==> Packed(Repack(lines, i, n)) == Packed(lines) + 2.0 * lines[i].variation
    ensures d == -2 ==> Packed(Repack(lines, i, n)) == Packed(lines) - 2.0 * lines[i].variation
  {
    var x := lines[i].(packets := n, packed := PackedWeight(n, lines[i].variation));
    assert Repack(lines, i, n) == lines[i := x];
    PackedUpdate(lines, i, x);
    PackedWeightShift(lines[i].packets, d, lines[i].variation);
  }

  /** Two packets more or fewer weigh twice the per-packet weight more or less. */
  lemma PackedWeightShift(p: int, d: int, v: real)
    requires d == 2 || d == -2
    ensures d == 2 ==> PackedWeight(p + d, v) == PackedWeight(p, v) + 2.0 * v
    ensures d == -2 ==> PackedWeight(p + d, v) == PackedWeight(p, v) - 2.0 * v
  {
    PackedWeightIsProduct(p, v);
    PackedWeightIsProduct(p + d, v);
  }

  /** Repacking a row back to its count gives the table back. */
  lemma RepackUndo(lines: seq<PackLine>, i: nat, n: int)
    requires i < |lines| && Consistent(lines)
    ensures Repack(Repack(lines, i, n), i, lines[i].packets) == lines
  {
    assert Repack(Repack(lines, i, n), i, lines[i].packets)[i] == lines[i];
  }

  /** Under the target, a pass puts two packets on the first lightest variant. */
  lemma StepUnder(lines: seq<PackLine>, target: int)
    requires |lines| > 0 && target >= 1 && Packed(lines) <= target as real
    ensures Step(lines, target) == Recompute(Bump(lines, ArgMin(lines), 2))
  {
  }

  /** Over the target, a pass that changes a consistent table takes two packets off the first
      heaviest variant, which therefore had two. */
  lemma StepOverMoves(lines: seq<PackLine>, target: int)
    requires |lines| > 0 && target >= 1 && Consistent(lines)
    requires Packed(lines) > target as real && Step(lines, target) != lines
    ensures lines[ArgMax(lines)].packets >= 2 && Step(lines, target) == Recompute(Bump(lines, ArgMax(lines), -2))
  {
    RecomputeConsistent(lines);
  }

  /** A pass leaves a consistent table as it is exactly when it is over the target and the first
      heaviest variant has fewer than two packets. */
  lemma StepStalls(lines: seq<PackLine>, target: int)
    requires |lines| > 0 && target >= 1 && Consistent(lines)
    ensures Step(lines, target) == lines <==> Packed(lines) > target as real && lines[ArgMax(lines)].packets < 2
  {
    var i, j := ArgMin(lines), ArgMax(lines);
    RecomputeConsistent(lines);
    assert Recompute(Bump(lines, i, 2))[i].packets == lines[i].packets + 2;
    assert Recompute(Bump(lines, j, -2))[j].packets == lines[j].packets - 2;
  }

  lemma RecomputeBumpIsRepack(lines: seq<PackLine>, i: nat, d: int, n: int)
    requires i < |lines| && Consistent(lines) && n == lines[i].packets + d
    ensures Recompute(Bump(lines, i, d)) == Repack(lines, i, n)
  {
    var a, b := Recompute(Bump(lines, i, d)), Repack(lines, i, n);
    assert |a| == |b|;
    forall k | 0 <= k < |a| ensures a[k] == b[k] {
    }
  }

  /** ArgMin looks only at the weights. */
  lemma {:induction false} ArgMinColumns(a: seq<PackLine>, b: seq<PackLine>)
    requires |a| > 0 && SameColumns(a, b)
    ensures ArgMin(a) == ArgMin(b)
  {
    if |a| > 1 {
      var n := |a| - 1;
      assert SameColumns(a[..n], b[..n]);
      ArgMinColumns(a[..n], b[..n]);
    }
  }

  /** ArgMax looks only at the weights. */
  lemma {:induction false} ArgMaxColumns(a: seq<PackLine>, b: seq<PackLine>)
    requires |a| > 0 && SameColumns(a, b)
    ensures ArgMax(a) == ArgMax(b)
  {
    if |a| > 1 {
      var n := |a| - 1;
      assert SameColumns(a[..n], b[..n]);
      ArgMaxColumns(a[..n], b[..n]);
    }
  }

  /** `adjust_packets` returns `r` from `lines`. */
  ghost predicate RunsTo(lines: seq<PackLine>, target: int, r: seq<PackLine>) {
    |lines| > 0 && target >= 1 && exists fuel :: Run(lines, target, fuel) == Some(r)
  }

  /** `adjust_packets` returns at all from `lines`. */
  ghost predicate Settles(lines: seq<PackLine>, target: int) {
    |lines| > 0 && target >= 1 && exists fuel :: Run(lines, target, fuel).Some?
  }

  /** More fuel does not change what the loop returns: it returns one table or none. */
  lemma {:induction false} RunOnce(lines: seq<PackLine>, target: int, f: nat, g: nat)
    requires |lines| > 0 && target >= 1
    requires Run(lines, target, f).Some? && Run(lines, target, g).Some?
    ensures Run(lines, target, f) == Run(lines, target, g)
    decreases f
  {
    if Unsettled(target, Packed(lines)) {
      RunPasses(lines, target, f);
      RunPasses(lines, target, g);
      RunOnce(Step(lines, target), target, f - 1, g - 1);
    }
  }

  /** A run that returns from an unsettled table takes at least one pass. */
  lemma RunPasses(lines: seq<PackLine>, target: int, f: nat)
    requires |lines| > 0 && target >= 1 && Unsettled(target, Packed(lines)) && Run(lines, target, f).Some?
    ensures f > 0 && |Step(lines, target)| > 0 && Run(lines, target, f) == Run(Step(lines, target), target, f - 1)
  {
    StepLength(lines, target);
  }

  lemma RunsToUnique(lines: seq<PackLine>, target: int, r1: seq<PackLine>, r2: seq<PackLine>)
    requires RunsTo(lines, target, r1) && RunsTo(lines, target, r2)
    ensures r1 == r2
  {
    var f :| Run(lines, target, f) == Some(r1);
    var g :| Run(lines, target, g) == Some(r2);
    RunOnce(lines, target, f, g);
  }

  /** A table that a pass leaves unchanged, inside the loop, is never left. */
  lemma {:induction false} StallForever(lines: seq<PackLine>, target: int, fuel: nat)
    requires |lines| > 0 && target >= 1
    requires Unsettled(target, Packed(lines)) && Step(lines, target) == lines
    ensures Run(lines, target, fuel).None?
    decreases fuel
  {
    if fuel > 0 {
      StallForever(lines, target, fuel - 1);
    }
  }

  /** Two tables that passes turn into each other, both inside the loop, are never left. */
  lemma {:induction false} CycleForever(a: seq<PackLine>, b: seq<PackLine>, target: int, fuel: nat)
    requires |a| > 0 && |b| > 0 && target >= 1
    requires Unsettled(target, Packed(a)) && Unsettled(target, Packed(b))
    requires Step(a, target) == b && Step(b, target) == a
    ensures Run(a, target, fuel).None? && Run(b, target, fuel).None?
    decreases fuel
  {
    if fuel > 0 {
      CycleForever(a, b, target, fuel - 1);
    }
  }

  /** `lines` is what `n` passes make of `lines0`, and the loop from `lines0` did not return in
      fewer: the run from `lines0` is the run from `lines`, `n` passes later. */
  ghost predicate Ahead(lines0: seq<PackLine>, lines: seq<PackLine>, target: int, n: nat)
    requires |lines0| > 0 && |lines| > 0 && target >= 1
  {
    && (forall f: nat :: Run(lines0, target, f + n) == Run(lines, target, f))
    && (forall f: nat :: f < n ==> Run(lines0, target, f).None?)
  }

  /** After a pass from inside the loop, the run from the start is `n + 1` passes ahead. */
  lemma RunAhead(lines0: seq<PackLine>, lines: seq<PackLine>, next: seq<PackLine>, target: int, n: nat)
    requires |lines0| > 0 && |lines| > 0 && target >= 1 && Unsettled(target, Packed(lines))
    requires Ahead(lines0, lines, target, n) && next == Step(lines, target)
    ensures |next| == |lines| && Ahead(lines0, next, target, n + 1)
  {
    StepLength(lines, target);
    forall f: nat ensures Run(lines0, target, f + (n + 1)) == Run(next, target, f) {
      assert Run(lines0, target, (f + 1) + n) == Run(lines, target, f + 1);
    }
    assert Run(lines0, target, 0 + n) == Run(lines, target, 0);
  }

  /** A table reached from the start that never settles means the start never settles. */
  lemma NeverAhead(lines0: seq<PackLine>, lines: seq<PackLine>, target: int, n: nat)
    requires |lines0| > 0 && |lines| > 0 && target >= 1
    requires Ahead(lines0, lines, target, n)
    requires forall f: nat :: Run(lines, target, f).None?
    ensures !Settles(lines0, target)
  {
    forall f: nat ensures Run(lines0, target, f).None? {
      if f >= n {
        assert Run(lines0, target, (f - n) + n) == Run(lines, target, f - n);
      }
    }
  }

  /** A table reached from the start that the loop returns is what the loop returns from the start. */
  lemma SettledAhead(lines0: seq<PackLine>, lines: seq<PackLine>, target: int, n: nat)
    requires |lines0| > 0 && |lines| > 0 && target >= 1
    requires Ahead(lines0, lines, target, n) && !Unsettled(target, Packed(lines))
    ensures Run(lines0, target, n) == Some(lines)
  {
    assert Run(lines0, target, 0 + n) == Run(lines, target, 0);
  }

  /** `c * w`, as `c` additions of `w`. */
  function Times(c: nat, w: real): real {
    if c == 0 then 0.0 else Times(c - 1, w) + w
  }

  lemma {:induction false} TimesIsProduct(c: nat, w: real)
    ensures Times(c, w) == c as real * w
  {
    if c > 0 {
      TimesIsProduct(c - 1, w);
    }
  }

  lemma {:induction false} TimesDouble(c: nat, w: real)
    ensures Times(c, 2.0 * w) == Times(2 * c, w)
  {
    if c > 0 {
      TimesDouble(c - 1, w);
      assert Times(2 * c, w) == Times(2 * c - 1, w) + w;
    }
  }

  lemma {:induction false} TimesMono(c1: nat, c2: nat, w: real)
    requires c1 <= c2 && w >= 0.0
    ensures Times(c1, w) <= Times(c2, w)
  {
    if c1 < c2 {
      TimesMono(c1, c2 - 1, w);
    }
  }

  /** Passes up, counted, never outrun the room under the ceiling once the passes down are
      added back. */
  lemma UpBound(up: nat, down: nat, p: real, p0: real, b: real, mi: real, mj: real, room: nat, k: nat)
    requires mi > 0.0 && mj > 0.0 && 2 * down <= room
    requires p == p0 + Times(up, 2.0 * mi) - Times(down, 2.0 * mj) && p <= b
    requires b - p0 + Times(room, mj) < Times(k + 1, mi)
    ensures 2 * up <= k
  {
    TimesDouble(up, mi);
    TimesDouble(down, mj);
    TimesMono(2 * down, room, mj);
    if 2 * up > k {
      TimesMono(k + 1, 2 * up, mi);
      assert false;
    }
  }

  /** The floor of `c / m` counts the whole `m`s in `c`, one more of them being more than `c`. */
  lemma FloorBound(c: real, m: real)
    requires m > 0.0 && c >= 0.0
    ensures (c / m).Floor >= 0 && c < ((c / m).Floor + 1) as real * m
  {
    var r := c / m;
    assert r * m == c;
    assert r >= 0.0;
    var f := r.Floor;
    var g := f as real + 1.0 - r;
    assert g > 0.0;
    assert g * m > 0.0;
    assert (f + 1) as real * m == r * m + g * m;
  }

  /** The bound on passes up, in numbers: with `k` the whole lightest packets in what the ceiling
      leaves above the start once `room` heaviest packets are taken off, `k + 1` of them weigh
      more. */
  lemma ScaledRoom(mi: real, mj: real, p0: real, ceiling: real, room: nat, k: int)
    requires mi > 0.0 && mj > 0.0 && ceiling >= p0
    requires k == Steps(mi, mj, p0, ceiling, room)
    ensures k >= 0 && ceiling - p0 + Times(room, mj) < Times(k + 1, mi)
  {
    var c := ceiling - p0 + room as real * mj;
    assert room as real * mj >= 0.0;
    FloorBound(c, mi);
    TimesIsProduct(room, mj);
    TimesIsProduct(k + 1, mi);
  }

  /** What the corrected loop fixes at the start: the first lightest and heaviest variants `i` and
      `j`, their weights and counts, the start's packed weight, a ceiling the packed weight stays
      under, and the bounds `k` on packets put on and `room` on packets taken off. */
  datatype Bounds = Bounds(i: nat, j: nat, mi: real, mj: real, a0: int, b0: int, p0: real, ceiling: real, room: int, k: int)

  ghost function Frame(lines0: seq<PackLine>, target: int): Bounds
    requires |lines0| > 0 && target >= 1
  {
    var i, j := ArgMin(lines0), ArgMax(lines0);
    var mi, mj := lines0[i].variation, lines0[j].variation;
    var p0 := Packed(lines0);
    var ceiling := if p0 >= target as real + 2.0 * mi then p0 else target as real + 2.0 * mi;
    var room: nat := if lines0[j].packets < 0 then 0 else lines0[j].packets;
    Bounds(i, j, mi, mj, lines0[i].packets, lines0[j].packets, p0, ceiling, room, Steps(mi, mj, p0, ceiling, room))
  }

  /** The whole lightest packets (weight `mi`) in what `ceiling` leaves above `p0` once `room`
      heaviest packets (weight `mj`) are taken off. */
  function Steps(mi: real, mj: real, p0: real, ceiling: real, room: nat): int {
    if mi > 0.0 then ((ceiling - p0 + room as real * mj) / mi).Floor else 0
  }

  /** The bounds of a start with positive weights: the ceiling leaves room for a pass up from the
      target, and `k + 1` lightest packets weigh more than the ceiling leaves above the start once
      `room` heaviest packets are taken off. */
  predicate Fits(fr: Bounds, target: int) {
    && fr.mi > 0.0 && fr.mj > 0.0
    && fr.ceiling >= target as real + 2.0 * fr.mi
    && fr.room >= 0 && fr.room >= fr.b0 && (fr.i == fr.j ==> fr.a0 == fr.b0)
    && fr.k >= 0 && fr.ceiling - fr.p0 + Times(fr.room, fr.mj) < Times(fr.k + 1, fr.mi)
  }

  lemma FrameFits(lines0: seq<PackLine>, target: int)
    requires |lines0| > 0 && target >= 1 && PositiveWeights(lines0)
    ensures Fits(Frame(lines0, target), target)
  {
    var fr := Frame(lines0, target);
    assert fr.mi == lines0[ArgMin(lines0)].variation > 0.0;
    assert fr.mj == lines0[ArgMax(lines0)].variation > 0.0;
    ScaledRoom(fr.mi, fr.mj, fr.p0, fr.ceiling, fr.room, fr.k);
  }

  /** The passes still possible: it drops by two with every pass. */
  function Left(fr: Bounds, up: nat, down: nat): int {
    fr.k - 2 * up + fr.room - 2 * down
  }

  /** The tally in numbers: after `up` passes onto `i` and `down` passes off `j`, the packed weight
      `p` is what they add up to and stays under the ceiling, the counts `a` of `i` and `b` of `j`
      follow the passes, and the passes stay inside the bounds that end the loop. */
  predicate Counts(fr: Bounds, p: real, a: int, b: int, up: nat, down: nat) {
    && p == fr.p0 + Times(up, 2.0 * fr.mi) - Times(down, 2.0 * fr.mj)
    && p <= fr.ceiling
    && (fr.i != fr.j ==> a == fr.a0 + 2 * up && b == fr.b0 - 2 * down)
    && (fr.i == fr.j ==> a == fr.a0 + 2 * up - 2 * down && (up == 0 || down == 0))
    && (down > 0 ==> b >= 0)
    && 2 * up <= fr.k && 2 * down <= fr.room
  }

  /** One more pass up, from at most the target, keeps the counts. */
  lemma CountsUp(fr: Bounds, target: int, p: real, a: int, b: int, up: nat, down: nat,
                 q: real, a2: int, b2: int, u: nat)
    requires Fits(fr, target) && Counts(fr, p, a, b, up, down) && p <= target as real
    requires q == p + 2.0 * fr.mi && a2 == a + 2 && (fr.i != fr.j ==> b2 == b) && u == up + 1
    requires fr.i == fr.j ==> down == 0
    ensures Counts(fr, q, a2, b2, u, down)
  {
    assert Times(u, 2.0 * fr.mi) == Times(up, 2.0 * fr.mi) + 2.0 * fr.mi;
    UpBound(u, down, q, fr.p0, fr.ceiling, fr.mi, fr.mj, fr.room, fr.k);
  }

  /** One more pass down, off a variant with at least two packets, keeps the counts. */
  lemma CountsDown(fr: Bounds, target: int, p: real, a: int, b: int, up: nat, down: nat,
                   q: real, a2: int, b2: int, d: nat)
    requires Fits(fr, target) && Counts(fr, p, a, b, up, down) && b >= 2
    requires q == p - 2.0 * fr.mj && b2 == b - 2 && (fr.i != fr.j ==> a2 == a) && d == down + 1
    requires fr.i == fr.j ==> a2 == b2 && a == b && up == 0
    ensures Counts(fr, q, a2, b2, up, d)
  {
    assert Times(d, 2.0 * fr.mj) == Times(down, 2.0 * fr.mj) + 2.0 * fr.mj;
  }

  /** What the corrected loop has done so far: the counts of its passes, and the pass before the
      last kept in `prev`. */
  ghost predicate Tally(lines: seq<PackLine>, prev: Option<seq<PackLine>>, fr: Bounds, up: nat, down: nat)
    requires fr.i < |lines| && fr.j < |lines|
  {
    && Counts(fr, Packed(lines), lines[fr.i].packets, lines[fr.j].packets, up, down)
    && (fr.i == fr.j && up > 0 ==> prev == Some(Repack(lines, fr.i, lines[fr.i].packets - 2)))
    && (fr.i == fr.j && down > 0 ==> prev == Some(Repack(lines, fr.i, lines[fr.i].packets + 2)))
  }

  /** The table's shape through the corrected loop: the columns of the start, consistent, even
      counts if the start has them, and the start's lightest and heaviest variants. */
  ghost predicate Shape(lines0: seq<PackLine>, fr: Bounds, lines: seq<PackLine>) {
    && SameColumns(lines0, lines) && Consistent(lines)
    && (EvenCounts(lines0) ==> EvenCounts(lines))
    && fr.i < |lines| && fr.j < |lines|
    && ArgMin(lines) == fr.i && ArgMax(lines) == fr.j
    && lines[fr.i].variation == fr.mi && lines[fr.j].variation == fr.mj
  }

  /** The invariant of the corrected loop after `n` passes from `lines0`; `prev`, when there is
      one, is an unsettled table whose pass gives `lines`. */
  ghost predicate Loop(lines0: seq<PackLine>, target: int, fr: Bounds, lines: seq<PackLine>,
                       prev: Option<seq<PackLine>>, up: nat, down: nat, n: nat)
    requires |lines0| > 0 && target >= 1
  {
    match prev
    case None =>
      Shape(lines0, fr, lines) && Ahead(lines0, lines, target, n) && Tally(lines, prev, fr, up, down)
    case Some(p) =>
      && Shape(lines0, fr, lines) && Ahead(lines0, lines, target, n) && Tally(lines, prev, fr, up, down)
      && |p| > 0 && Unsettled(target, Packed(p)) && Step(p, target) == lines
  }

  lemma LoopStart(lines0: seq<PackLine>, target: int)
    requires |lines0| > 0 && target >= 1 && Consistent(lines0) && PositiveWeights(lines0)
    ensures Loop(lines0, target, Frame(lines0, target), lines0, None, 0, 0, 0)
  {
    var fr := Frame(lines0, target);
    FrameFits(lines0, target);
    forall f: nat ensures Run(lines0, target, f + 0) == Run(lines0, target, f) {
    }
  }

  /** Moving two packets onto or off row `i` of a consistent table, as a pass does: the columns,
      consistency and even counts are kept, only row `i`'s count changes, the packed weight moves
      by two of row `i`'s packets, and repacking row `i` to its old count undoes it. */
  lemma Moved(lines: seq<PackLine>, next: seq<PackLine>, i: nat, d: int)
    requires i < |lines| && Consistent(lines) && next == Recompute(Bump(lines, i, d))
    requires d == 2 || d == -2
    ensures SameColumns(lines, next) && Consistent(next) && (EvenCounts(lines) ==> EvenCounts(next))
    ensures next[i].packets == lines[i].packets + d
    ensures forall k :: 0 <= k < |lines| && k != i ==> next[k] == lines[k]
    ensures d == 2 ==> Packed(next) == Packed(lines) + 2.0 * lines[i].variation
    ensures d == -2 ==> Packed(next) == Packed(lines) - 2.0 * lines[i].variation
    ensures d == 2 ==> next == Repack(lines, i, lines[i].packets + 2) && Repack(next, i, next[i].packets - 2) == lines
    ensures d == -2 ==> next == Repack(lines, i, lines[i].packets - 2) && Repack(next, i, next[i].packets + 2) == lines
  {
    var n := lines[i].packets + d;
    RecomputeBumpIsRepack(lines, i, d, n);
    if EvenCounts(lines) {
      EvenShift(lines[i].packets, n);
    }
    RepackSpec(lines, i, n);
    RepackUndo(lines, i, n);
    RepackPacked(lines, i, n, d);
  }

  /** A pass onto the lightest variant that does not undo the pass before keeps the tally, one
      more up. */
  lemma UpKeeps(lines: seq<PackLine>, next: seq<PackLine>, prev: Option<seq<PackLine>>, target: int, fr: Bounds,
                up: nat, down: nat)
    requires fr.i < |lines| && fr.j < |lines| && Consistent(lines) && target >= 1 && Fits(fr, target)
    requires lines[fr.i].variation == fr.mi
    requires Tally(lines, prev, fr, up, down)
    requires Packed(lines) <= target as real
    requires next == Recompute(Bump(lines, fr.i, 2)) && prev != Some(next)
    ensures SameColumns(lines, next) && Consistent(next) && (EvenCounts(lines) ==> EvenCounts(next))
    ensures Tally(next, Some(lines), fr, up + 1, down)
  {
    var i, j := fr.i, fr.j;
    Moved(lines, next, i, 2);
    CountsUp(fr, target, Packed(lines), lines[i].packets, lines[j].packets, up, down,
             Packed(next), next[i].packets, next[j].packets, up + 1);
  }

  /** A pass off the heaviest variant that does not undo the pass before keeps the tally, one more
      down. */
  lemma DownKeeps(lines: seq<PackLine>, next: seq<PackLine>, prev: Option<seq<PackLine>>, target: int, fr: Bounds,
                  up: nat, down: nat)
    requires fr.i < |lines| && fr.j < |lines| && Consistent(lines) && target >= 1 && Fits(fr, target)
    requires lines[fr.j].variation == fr.mj
    requires Tally(lines, prev, fr, up, down)
    requires lines[fr.j].packets >= 2
    requires next == Recompute(Bump(lines, fr.j, -2)) && prev != Some(next)
    ensures SameColumns(lines, next) && Consistent(next) && (EvenCounts(lines) ==> EvenCounts(next))
    ensures Tally(next, Some(lines), fr, up, down + 1)
  {
    var i, j := fr.i, fr.j;
    Moved(lines, next, j, -2);
    CountsDown(fr, target, Packed(lines), lines[i].packets, lines[j].packets, up, down,
               Packed(next), next[i].packets, next[j].packets, down + 1);
  }

  lemma EvenShift(x: int, y: int)
    requires x % 2 == 0 && (y == x + 2 || y == x - 2)
    ensures y % 2 == 0
  {
  }

  lemma SameColumnsTrans(a: seq<PackLine>, b: seq<PackLine>, c: seq<PackLine>)
    requires SameColumns(a, b) && SameColumns(b, c)
    ensures SameColumns(a, c)
  {
  }

  /** A pass that keeps the columns, consistency and even counts keeps the shape. */
  lemma ShapeKeeps(lines0: seq<PackLine>, fr: Bounds, lines: seq<PackLine>, next: seq<PackLine>)
    requires |lines| > 0 && Shape(lines0, fr, lines)
    requires SameColumns(lines, next) && Consistent(next) && (EvenCounts(lines) ==> EvenCounts(next))
    ensures Shape(lines0, fr, next)
  {
    ArgMinColumns(lines, next);
    ArgMaxColumns(lines, next);
    SameColumnsTrans(lines0, lines, next);
  }

  /** A pass onto the lightest variant that does not undo the pass before keeps the shape and the
      tally, one more up. */
  lemma UpStep(lines0: seq<PackLine>, target: int, fr: Bounds, lines: seq<PackLine>, prev: Option<seq<PackLine>>,
               up: nat, down: nat, next: seq<PackLine>)
    requires |lines| > 0 && target >= 1 && Fits(fr, target)
    requires Shape(lines0, fr, lines) && Tally(lines, prev, fr, up, down) && Packed(lines) <= target as real
    requires next == Step(lines, target) && prev != Some(next)
    ensures Shape(lines0, fr, next) && Tally(next, Some(lines), fr, up + 1, down)
  {
    StepUnder(lines, target);
    UpKeeps(lines, next, prev, target, fr, up, down);
    ShapeKeeps(lines0, fr, lines, next);
  }

  /** A pass off the heaviest variant that changes the table and does not undo the pass before
      keeps the shape and the tally, one more down. */
  lemma DownStep(lines0: seq<PackLine>, target: int, fr: Bounds, lines: seq<PackLine>, prev: Option<seq<PackLine>>,
                 up: nat, down: nat, next: seq<PackLine>)
    requires |lines| > 0 && target >= 1 && Fits(fr, target)
    requires Shape(lines0, fr, lines) && Tally(lines, prev, fr, up, down) && Packed(lines) > target as real
    requires next == Step(lines, target) && next != lines && prev != Some(next)
    ensures Shape(lines0, fr, next) && Tally(next, Some(lines), fr, up, down + 1)
  {
    StepOverMoves(lines, target);
    DownKeeps(lines, next, prev, target, fr, up, down);
    ShapeKeeps(lines0, fr, lines, next);
  }

  /** A pass onto the lightest variant, from inside the loop, that does not undo the pass before
      keeps the loop's invariant with one more pass up. */
  lemma PassUp(lines0: seq<PackLine>, target: int, fr: Bounds, lines: seq<PackLine>, prev: Option<seq<PackLine>>,
               up: nat, down: nat, n: nat, next: seq<PackLine>) returns (up2: nat, down2: nat)
    requires |lines0| > 0 && target >= 1 && Fits(fr, target)
    requires Loop(lines0, target, fr, lines, prev, up, down, n)
    requires Unsettled(target, Packed(lines)) && Packed(lines) <= target as real
    requires next == Step(lines, target) && prev != Some(next)
    ensures Loop(lines0, target, fr, next, Some(lines), up2, down2, n + 1)
    ensures 0 <= Left(fr, up, down) && Left(fr, up2, down2) < Left(fr, up, down)
  {
    up2, down2 := up + 1, down;
    UpStep(lines0, target, fr, lines, prev, up, down, next);
    RunAhead(lines0, lines, next, target, n);
  }

  /** A pass off the heaviest variant, from inside the loop, that changes the table and does not
      undo the pass before keeps the loop's invariant with one more pass down. */
  lemma PassDown(lines0: seq<PackLine>, target: int, fr: Bounds, lines: seq<PackLine>, prev: Option<seq<PackLine>>,
                 up: nat, down: nat, n: nat, next: seq<PackLine>) returns (up2: nat, down2: nat)
    requires |lines0| > 0 && target >= 1 && Fits(fr, target)
    requires Loop(lines0, target, fr, lines, prev, up, down, n)
    requires Unsettled(target, Packed(lines)) && Packed(lines) > target as real
    requires next == Step(lines, target) && next != lines && prev != Some(next)
    ensures Loop(lines0, target, fr, next, Some(lines), up2, down2, n + 1)
    ensures 0 <= Left(fr, up, down) && Left(fr, up2, down2) < Left(fr, up, down)
  {
    up2, down2 := up, down + 1;
    DownStep(lines0, target, fr, lines, prev, up, down, next);
    RunAhead(lines0, lines, next, target, n);
  }

  /** A pass from inside the loop that neither stalls nor undoes the pass before keeps the loop's
      invariant, with one pass more and fewer passes left. */
  lemma PassKeeps(lines0: seq<PackLine>, target: int, fr: Bounds, lines: seq<PackLine>, prev: Option<seq<PackLine>>,
                  up: nat, down: nat, n: nat, next: seq<PackLine>) returns (up2: nat, down2: nat)
    requires |lines0| > 0 && target >= 1 && Fits(fr, target)
    requires Loop(lines0, target, fr, lines, prev, up, down, n)
    requires Unsettled(target, Packed(lines)) && next == Step(lines, target) && next != lines && prev != Some(next)
    ensures Loop(lines0, target, fr, next, Some(lines), up2, down2, n + 1)
    ensures 0 <= Left(fr, up, down) && Left(fr, up2, down2) < Left(fr, up, down)
  {
    if Packed(lines) <= target as real {
      up2, down2 := PassUp(lines0, target, fr, lines, prev, up, down, n, next);
    } else {
      up2, down2 := PassDown(lines0, target, fr, lines, prev, up, down, n, next);
    }
  }

  /** A pass that changes nothing: over the target, too few packets on the heaviest variant, and
      the start never settles. */
  lemma StallExit(lines0: seq<PackLine>, target: int, fr: Bounds, lines: seq<PackLine>, prev: Option<seq<PackLine>>,
                  up: nat, down: nat, n: nat)
    requires |lines0| > 0 && target >= 1 && Loop(lines0, target, fr, lines, prev, up, down, n)
    requires Unsettled(target, Packed(lines)) && Step(lines, target) == lines
    ensures !Settles(lines0, target) && Packed(lines) > target as real && lines[ArgMax(lines)].packets < 2
  {
    StepStalls(lines, target);
    forall f: nat ensures Run(lines, target, f).None? {
      StallForever(lines, target, f);
    }
    NeverAhead(lines0, lines, target, n);
  }

  /** A pass that undoes the one before: the two tables alternate and the start never settles. */
  lemma CycleExit(lines0: seq<PackLine>, target: int, fr: Bounds, lines: seq<PackLine>, prev: Option<seq<PackLine>>,
                  up: nat, down: nat, n: nat)
    requires |lines0| > 0 && target >= 1 && Loop(lines0, target, fr, lines, prev, up, down, n)
    requires Unsettled(target, Packed(lines)) && prev == Some(Step(lines, target))
    ensures !Settles(lines0, target) && Step(Step(lines, target), target) == lines
  {
    var next := Step(lines, target);
    forall f: nat ensures Run(lines, target, f).None? {
      CycleForever(lines, next, target, f);
    }
    NeverAhead(lines0, lines, target, n);
  }

  /** The loop condition fails: the table is what `adjust_packets` returns, at most the target and
      within 5% of it. */
  lemma SettledExit(lines0: seq<PackLine>, target: int, fr: Bounds, lines: seq<PackLine>, prev: Option<seq<PackLine>>,
                    up: nat, down: nat, n: nat)
    requires |lines0| > 0 && target >= 1 && Loop(lines0, target, fr, lines, prev, up, down, n)
    requires !Unsettled(target, Packed(lines))
    ensures Settles(lines0, target) && RunsTo(lines0, target, lines)
    ensures Packed(lines) <= target as real && target as real - Packed(lines) <= 0.05 * target as real
  {
    SettledAhead(lines0, lines, target, n);
    SettledMeans(target, Packed(lines));
  }

  /** How the corrected loop ends. */
  datatype Outcome =
    | Settled  // the loop condition no longer holds: the table `adjust_packets` returns
    | Stalled  // over the target with fewer than 2 packets on the heaviest variant: a pass changes nothing
    | Cycling  // the pass would undo the previous one: the table alternates between two states

  /** The correction loop as the page intends it: the passes of `adjust_packets`, one by one, but
      stopping with a report where the original loops for ever, when a pass changes nothing or
      undoes the pass before it. It always ends. It returns the table `adjust_packets` returns
      whenever that loop returns, and reports a stall or a cycle only when it never returns. */
  method SettleOrReport(lines0: seq<PackLine>, target: int) returns (lines: seq<PackLine>, outcome: Outcome)
    requires |lines0| > 0 && target >= 1 && Consistent(lines0) && PositiveWeights(lines0)
    ensures SameColumns(lines0, lines) && Consistent(lines)
    ensures EvenCounts(lines0) ==> EvenCounts(lines)
    ensures outcome == Settled <==> Settles(lines0, target)
    ensures outcome == Settled ==> RunsTo(lines0, target, lines)
    ensures outcome == Settled ==> Packed(lines) <= target as real && target as real - Packed(lines) <= 0.05 * target as real
    ensures outcome == Stalled ==> Packed(lines) > target as real && lines[ArgMax(lines)].packets < 2
    ensures outcome == Cycling ==> Unsettled(target, Packed(lines)) && Step(Step(lines, target), target) == lines
  {
    ghost var fr := Frame(lines0, target);
    ghost var up: nat, down: nat, n: nat := 0, 0, 0;
    FrameFits(lines0, target);
    LoopStart(lines0, target);
    lines := lines0;
    var prev: Option<seq<PackLine>> := None;
    while Unsettled(target, Packed(lines))
      invariant Loop(lines0, target, fr, lines, prev, up, down, n)
      decreases Left(fr, up, down)
    {
      var next := Pass(lines, target);
      if next == lines {
        StallExit(lines0, target, fr, lines, prev, up, down, n);
        return lines, Stalled;
      }
      if prev == Some(next) {
        CycleExit(lines0, target, fr, lines, prev, up, down, n);
        return lines, Cycling;
      }
      up, down := PassKeeps(lines0, target, fr, lines, prev, up, down, n, next);
      prev := Some(lines);
      lines := next;
      n := n + 1;
    }
    SettledExit(lines0, target, fr, lines, prev, up, down, n);
    return lines, Settled;
  }

  // ---------------------------------------------------------------------------------------------
  // The plan of one item, and the combined totals

  /** The plan of one selected item: its target, the packed and loose weights, and the rows. */
  datatype ItemPlan = ItemPlan(item: string, target: int, packed: real, loose: real, lines: seq<PackLine>)

  /** The item's plan can be made: it is found, has variants, and every variant can be estimated. */
  predicate Plannable(rows: seq<SalesRow>, contribution: seq<Option<real>>, item: string, target: int)
    requires |contribution| == |rows|
  {
    var g := Gather(rows, contribution, item);
    g.Ok? && |g.value| > 0 && Estimate(g.value, target).Ok?
  }

  /** The error the page stops with for an item that cannot be planned: not found, then the first
      variant that cannot be estimated, then no variants at all. */
  function PlanError(rows: seq<SalesRow>, contribution: seq<Option<real>>, item: string, target: int): AllocError
    requires |contribution| == |rows|
  {
    match Gather(rows, contribution, item)
    case Err(e) => e
    case Ok(vs) => if Estimate(vs, target).Err? then Estimate(vs, target).error else NoVariants
  }

  /** A successful estimate of gathered variants is ready for the correction loop: weights are
      positive, counts even, packed weights consistent, and row `k` is variant `k`. */
  lemma EstimateReady(vs: seq<Variant>, target: int)
    requires forall k :: 0 <= k < |vs| ==> vs[k].weight >= 0.0
    requires Estimate(vs, target).Ok?
    ensures var lines := Estimate(vs, target).value;
            && |lines| == |vs|
            && Consistent(lines) && PositiveWeights(lines) && EvenCounts(lines)
            && forall k :: 0 <= k < |vs| ==>
                 lines[k].variation == vs[k].weight && lines[k].pouch == vs[k].pouch && lines[k].asin == vs[k].asin
  {
    EstimateSpec(vs, target);
    forall k | 0 <= k < |vs| {
      EstimateLineSpec(vs[k], target);
    }
  }

  lemma GatheredWeights(rows: seq<SalesRow>, contribution: seq<Option<real>>, item: string)
    requires |contribution| == |rows| && Gather(rows, contribution, item).Ok?
    ensures forall k :: 0 <= k < |Gather(rows, contribution, item).value| ==> Gather(rows, contribution, item).value[k].weight >= 0.0
  {
    RunVariantsSpec(rows, contribution, FindLabel(rows, item, 0).value + 1);
  }

  /** The table the correction loop starts from. */
  function StartLines(rows: seq<SalesRow>, contribution: seq<Option<real>>, item: string, target: int): seq<PackLine>
    requires |contribution| == |rows| && Plannable(rows, contribution, item, target)
  {
    Estimate(Gather(rows, contribution, item).value, target).value
  }

  /** The page gets past the item: it can be planned and `adjust_packets` returns. */
  ghost predicate Completes(rows: seq<SalesRow>, contribution: seq<Option<real>>, item: string, target: int)
    requires |contribution| == |rows|
  {
    Plannable(rows, contribution, item, target) && Settles(StartLines(rows, contribution, item, target), target)
  }

  /** The error for an item the page does not get past: the page's own error when the item cannot
      be planned, `NeverSettles` when `adjust_packets` does not return from its estimate. */
  function ItemError(rows: seq<SalesRow>, contribution: seq<Option<real>>, item: string, target: int): AllocError
    requires |contribution| == |rows|
  {
    if Plannable(rows, contribution, item, target) then NeverSettles else PlanError(rows, contribution, item, target)
  }

  /** The loop body over the selected items: gather, estimate, correct, then the loose weight
      `target_weight - packed_weight`. The rows are the table `adjust_packets` returns, so the
      packed weight is at most the target and the loose weight at most 5% of it. Where
      `adjust_packets` never returns the page hangs, and the plan is `NeverSettles`. */
  method PlanItem(rows: seq<SalesRow>, contribution: seq<Option<real>>, item: string, target: int)
    returns (r: Result<ItemPlan, AllocError>)
    requires |contribution| == |rows| && target >= 1
    ensures r.Ok? <==> Completes(rows, contribution, item, target)
    ensures r.Err? ==> r.error == ItemError(rows, contribution, item, target)
    ensures r.Ok? ==>
              var vs := Gather(rows, contribution, item).value; var plan := r.value;
              && plan.item == item && plan.target == target
              && RunsTo(StartLines(rows, contribution, item, target), target, plan.lines)
              && |plan.lines| == |vs| > 0
              && (forall k :: 0 <= k < |vs| ==>
                    plan.lines[k].variation == vs[k].weight && plan.lines[k].pouch == vs[k].pouch
                    && plan.lines[k].asin == vs[k].asin && plan.lines[k].packets % 2 == 0)
              && plan.packed == Packed(plan.lines)
              && plan.loose == target as real - plan.packed
              && 0.0 <= plan.loose <= 0.05 * target as real
  {
    var g := GatherVariations(rows, contribution, item);
    if g.Err? {
      return Err(g.error);
    }
    var vs := g.value;
    var est := InitialEstimate(vs, target);
    if est.Err? {
      return Err(est.error);
    }
    GatheredWeights(rows, contribution, item);
    EstimateReady(vs, target);
    var lines := est.value;
    if |lines| == 0 {
      return Err(NoVariants);
    }
    var outcome;
    lines, outcome := SettleOrReport(lines, target);
    if outcome != Settled {
      return Err(NeverSettles);
    }
    var packed := Packed(lines);
    var loose := target as real - packed;
    return Ok(ItemPlan(item, target, packed, loose, lines));
  }

  /** An item the user selected, with the target weight entered for it. */
  datatype Selection = Selection(item: string, target: int)

  /** The page's summary: one plan per selected item, the combined packed and loose weights. */
  datatype Summary = Summary(plans: seq<ItemPlan>, totalPacked: real, totalLoose: real)

  function SumPacked(plans: seq<ItemPlan>): real {
    if plans == [] then 0.0 else SumPacked(plans[..|plans| - 1]) + plans[|plans| - 1].packed
  }

  function SumLoose(plans: seq<ItemPlan>): real {
    if plans == [] then 0.0 else SumLoose(plans[..|plans| - 1]) + plans[|plans| - 1].loose
  }

  function SumTargets(plans: seq<ItemPlan>): int {
    if plans == [] then 0 else SumTargets(plans[..|plans| - 1]) + plans[|plans| - 1].target
  }

  /** When every loose weight is its target minus its packed weight, the combined packed and loose
      weights add up to the combined targets. */
  lemma {:induction false} CombinedBalance(plans: seq<ItemPlan>)
    requires forall k :: 0 <= k < |plans| ==> plans[k].loose == plans[k].target as real - plans[k].packed
    ensures SumPacked(plans) + SumLoose(plans) == SumTargets(plans) as real
  {
    if plans != [] {
      var init := plans[..|plans| - 1];
      assert forall k :: 0 <= k < |init| ==> init[k] == plans[k];
      CombinedBalance(init);
    }
  }

  /** A plan for the selection `s`: its item and target, the rows `adjust_packets` returns from the
      item's estimate, their packed weight, and a loose weight that is the target minus the packed
      weight, between 0 and 5% of the target. */
  ghost predicate PlanFor(rows: seq<SalesRow>, contribution: seq<Option<real>>, p: ItemPlan, s: Selection)
    requires |contribution| == |rows|
  {
    && p.item == s.item && p.target == s.target
    && Plannable(rows, contribution, s.item, s.target)
    && RunsTo(StartLines(rows, contribution, s.item, s.target), s.target, p.lines)
    && p.packed == Packed(p.lines)
    && p.loose == p.target as real - p.packed
    && 0.0 <= p.loose <= 0.05 * p.target as real
  }

  /** `PlanItem` for one selection, with only what the summary needs of its contract. */
  method PlanSelection(rows: seq<SalesRow>, contribution: seq<Option<real>>, s: Selection)
    returns (r: Result<ItemPlan, AllocError>)
    requires |contribution| == |rows| && s.target >= 1
    ensures r.Ok? <==> Completes(rows, contribution, s.item, s.target)
    ensures r.Ok? ==> PlanFor(rows, contribution, r.value, s)
    ensures r.Err? ==> r.error == ItemError(rows, contribution, s.item, s.target)
  {
    r := PlanItem(rows, contribution, s.item, s.target);
  }

  /** One more item that completes extends the prefix of items that complete. */
  lemma CompletesExtend(rows: seq<SalesRow>, contribution: seq<Option<real>>, selections: seq<Selection>, i: nat)
    requires |contribution| == |rows| && i < |selections|
    requires forall k {:trigger Completes(rows, contribution, selections[k].item, selections[k].target)} ::
               0 <= k < i ==> Completes(rows, contribution, selections[k].item, selections[k].target)
    requires Completes(rows, contribution, selections[i].item, selections[i].target)
    ensures forall k {:trigger Completes(rows, contribution, selections[k].item, selections[k].target)} ::
              0 <= k < i + 1 ==> Completes(rows, contribution, selections[k].item, selections[k].target)
  {
  }

  /** The plans so far, one per selection in order, and the two running totals. */
  ghost predicate Tallied(rows: seq<SalesRow>, contribution: seq<Option<real>>,
                         plans: seq<ItemPlan>, selections: seq<Selection>, totalPacked: real, totalLoose: real)
    requires |contribution| == |rows|
  {
    && |plans| <= |selections|
    && (forall k :: 0 <= k < |plans| ==> PlanFor(rows, contribution, plans[k], selections[k]))
    && totalPacked == SumPacked(plans) && totalLoose == SumLoose(plans)
  }

  /** Appending the next selection's plan and adding it to the totals keeps the tally. */
  lemma TalliedAppend(rows: seq<SalesRow>, contribution: seq<Option<real>>,
                      plans: seq<ItemPlan>, selections: seq<Selection>, totalPacked: real, totalLoose: real, p: ItemPlan)
    requires |contribution| == |rows|
    requires Tallied(rows, contribution, plans, selections, totalPacked, totalLoose) && |plans| < |selections|
    requires PlanFor(rows, contribution, p, selections[|plans|])
    ensures Tallied(rows, contribution, plans + [p], selections, totalPacked + p.packed, totalLoose + p.loose)
  {
    var next := plans + [p];
    assert next[..|plans|] == plans;
  }

  /** A complete tally: every plan's weights add up to its target, and so do the totals. */
  lemma TalliedBalance(rows: seq<SalesRow>, contribution: seq<Option<real>>,
                       plans: seq<ItemPlan>, selections: seq<Selection>, totalPacked: real, totalLoose: real)
    requires |contribution| == |rows|
    requires Tallied(rows, contribution, plans, selections, totalPacked, totalLoose)
    ensures totalPacked + totalLoose == SumTargets(plans) as real
  {
    assert forall k :: 0 <= k < |plans| ==> plans[k].loose == plans[k].target as real - plans[k].packed;
    CombinedBalance(plans);
  }

  /** The loop over the selected items, accumulating `total_combined_weight` and
      `total_combined_loose`; the first item that cannot be planned stops the page. */
  method PlanItems(rows: seq<SalesRow>, contribution: seq<Option<real>>, selections: seq<Selection>)
    returns (r: Result<Summary, AllocError>)
    requires |contribution| == |rows|
    requires forall k :: 0 <= k < |selections| ==> selections[k].target >= 1
    ensures r.Ok? <==> forall k {:trigger Completes(rows, contribution, selections[k].item, selections[k].target)} ::
                         0 <= k < |selections| ==> Completes(rows, contribution, selections[k].item, selections[k].target)
    ensures r.Ok? ==>
              var sum := r.value;
              && |sum.plans| == |selections|
              && (forall k :: 0 <= k < |selections| ==> PlanFor(rows, contribution, sum.plans[k], selections[k]))
              && sum.totalPacked == SumPacked(sum.plans)
              && sum.totalLoose == SumLoose(sum.plans)
              && sum.totalPacked + sum.totalLoose == SumTargets(sum.plans) as real
    ensures r.Err? ==>
              exists i :: && 0 <= i < |selections|
                          && (forall k {:trigger Completes(rows, contribution, selections[k].item, selections[k].target)} ::
                                0 <= k < i ==> Completes(rows, contribution, selections[k].item, selections[k].target))
                          && !Completes(rows, contribution, selections[i].item, selections[i].target)
                          && r.error == ItemError(rows, contribution, selections[i].item, selections[i].target)
  {
    var plans: seq<ItemPlan> := [];
    var totalPacked := 0.0;
    var totalLoose := 0.0;
    while |plans| < |selections|
      invariant Tallied(rows, contribution, plans, selections, totalPacked, totalLoose)
      invariant forall k {:trigger Completes(rows, contribution, selections[k].item, selections[k].target)} ::
                  0 <= k < |plans| ==> Completes(rows, contribution, selections[k].item, selections[k].target)
    {
      var plan := PlanSelection(rows, contribution, selections[|plans|]);
      if plan.Err? {
        return Err(plan.error);
      }
      CompletesExtend(rows, contribution, selections, |plans|);
      TalliedAppend(rows, contribution, plans, selections, totalPacked, totalLoose, plan.value);
      plans, totalPacked, totalLoose := plans + [plan.value], totalPacked + plan.value.packed, totalLoose + plan.value.loose;
    }
    TalliedBalance(rows, contribution, plans, selections, totalPacked, totalLoose);
    return Ok(Summary(plans, totalPacked, totalLoose));
  }
}
