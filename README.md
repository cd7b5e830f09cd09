# Mithila tools: a verified model of the packing, report and label logic

This project models the deterministic core of the Mithila Foods Streamlit tools in Dafny. The
upload forms, the PDF and Excel decoding, and the drawing are left out. What remains is modelled
and proved:

- **Invoice quantity extractor** (`InvoiceExtractor`, packing_plan_tool.py). Each page line gets
  its first ASIN of the form `B0` plus 8 upper-case letters or digits. It then gets a quantity:
  - the explicit `Qty … <digits>` cue of a four-line window that stays on the page;
  - failing that, the `₹amount <qty> ₹amount` fallback;
  - failing that, 1.

  The running per-ASIN totals are built by loops over files, pages and lines. They equal a
  declarative sum over every occurrence, so they do not depend on file order. They feed a left
  join with the master table.
- **Qty > 1 highlighter** (`QtyHighlighter`, packing_plan_tool.py). This is the `in_table` /
  `found` scan over an invoice's text blocks. It decides whether some table row holds an integer
  token greater than 1. The loop is proved equal to a declarative definition of a qualifying row.
- **Sales-mix parse** (`SalesMix`, manual_packing_plan.py). Rows are classified as parent items
  or numeric weight variants. Each variant's weight sold is weight × units; each parent's total
  sums its run of variants. Each variant's contribution is its share of the parent total,
  rounded to 2 decimals. The three in-place passes over the sheet are methods proved against
  functions of the rows. The shares of a parent's variants add up to 100% before rounding.
- **Packet allocation** (`PacketAllocation`, `Rounding`, manual_packing_plan.py). The steps are:
  - the item's variants are gathered;
  - each variant's initial packet count is its ideal count rounded to the nearest even number,
    with Python's ties-to-even `round`;
  - the correction loop `adjust_packets` adjusts the counts;
  - the loose weight `target - packed` is computed;
  - the combined totals are summed.

  The loop as written is modelled with a fuel bound; see Findings. The plan runs its passes one
  by one, and stops with a report where the loop as written would never end: a pass that changes
  nothing, or one that undoes the pass before it. Whenever the loop as written returns, the plan
  has exactly the table it returns.
- **Easy Ship report** (`EasyShipReport`, easy_ship_report.py). The steps are:
  - sort by ASIN;
  - shorten product names to ten words and 70 characters;
  - cut the pickup slot to its month-day (`[A-Za-z]{3,9} \d{1,2}`, leftmost match);
  - set the highlight flag for a quantity above 1;
  - left-join the clean names from the master sheet;
  - build the per-product blocks of the PDF.
- **Label codes** (`LabelCodes`, label_generator_tool.py): `sanitize_filename` (`\W+` → `_`) and
  the batch code. A batch code is a product prefix, then a `ddmmyy` date code, then a zero-padded
  serial. The date and the random serial are parameters.

`Text` holds the ASCII character classes and Python's `str.split`, `' '.join`, `strip`, `str(n)`,
`int(s)` and string ordering. `Wrappers` holds `Option` and `Result`. Weights are exact `real`s.

## Model

| member | source | states |
|---|---|---|
| `InvoiceExtractor.Search` | packing_plan_tool.py:80-91 | `pattern.search` returns the leftmost position where the pattern matches, and no match exists before it; None means no match anywhere |
| `InvoiceExtractor.FirstAsinSpec` | packing_plan_tool.py:80-82 | a line has an ASIN iff `B0[A-Z0-9]{8}` matches somewhere; the ASIN is the leftmost match, 10 characters of that form, and later matches are ignored |
| `InvoiceExtractor.HintGroup` | packing_plan_tool.py:69-87 | the captured group of `\bQty\b.*?(\d+)` is a non-empty digit string |
| `InvoiceExtractor.ImplicitGroup` | packing_plan_tool.py:70-93 | the captured group of the price/qty/price triple is a non-empty digit string |
| `InvoiceExtractor.QtyHintValueSpec` | packing_plan_tool.py:85-87 | the explicit cue exists iff `\bQty\b.*?(\d+)` matches; its value is the first digit run after the leftmost `Qty` word |
| `InvoiceExtractor.ImplicitQtyValueSpec` | packing_plan_tool.py:91-93 | the fallback exists iff the triple matches; its value is the middle integer of the leftmost match |
| `InvoiceExtractor.Window` | packing_plan_tool.py:84-84 | the window of line i is lines i .. min(i+4, len)-1 of the same page: 1 to 4 lines |
| `InvoiceExtractor.FirstCueSpec` | packing_plan_tool.py:84-88 | the cue is missing iff no window line carries it; otherwise it is read from the first line that does |
| `InvoiceExtractor.FirstCueAt` | packing_plan_tool.py:84-88 | the first window line carrying the cue decides the value |
| `InvoiceExtractor.QtyForLocal` | packing_plan_tool.py:76-84 | the quantity depends only on the window: lines after it, and the next page, have no influence |
| `InvoiceExtractor.ScanWindow` | packing_plan_tool.py:84-94 | the `for … break` scan returns the value of the first window line whose pattern matches |
| `InvoiceExtractor.QuantityAt` | packing_plan_tool.py:83-94 | explicit cue first; the fallback is consulted exactly when the quantity is still 1, also when the cue said 1; the default is 1; `Qty 0` gives 0 |
| `InvoiceExtractor.TallyMeaning` | packing_plan_tool.py:65-95 | the defaultdict has a key for exactly the ASINs that occur; each value is the sum of the quantities of its occurrences |
| `InvoiceExtractor.FirstSeenMeaning` | packing_plan_tool.py:65-103 | the keys are listed in order of first occurrence, each once |
| `InvoiceExtractor.TallySnoc` | packing_plan_tool.py:95-95 | `asin_qty_data[asin] += qty` adds the quantity to the ASIN's total (0 when new), and a new key is appended to the key order |
| `InvoiceExtractor.SumForConcat` | packing_plan_tool.py:95-95 | the total of an ASIN over two runs of occurrences is the sum of the two totals |
| `InvoiceExtractor.SumForAbsent` | packing_plan_tool.py:95-95 | an ASIN that never occurs totals 0 |
| `InvoiceExtractor.TallyPage` | packing_plan_tool.py:79-95 | the line loop of a page leaves the totals and key order of all occurrences so far plus the page's |
| `InvoiceExtractor.TallyFile` | packing_plan_tool.py:78-95 | the page loop of a file does the same for the file's pages in order |
| `InvoiceExtractor.ExtractQuantities` | packing_plan_tool.py:65-95 | the whole loop over files yields exactly the declarative totals and first-occurrence key order |
| `InvoiceExtractor.TotalsOrderIndependent` | packing_plan_tool.py:72-95 | uploading the same invoices in any order gives the same totals |
| `InvoiceExtractor.DuplicateFileCountsTwice` | packing_plan_tool.py:72-95 | the same invoice uploaded twice counts each quantity twice: occurrences are never deduplicated |
| `InvoiceExtractor.ExtractedKeyOrder` | packing_plan_tool.py:65-103 | the extraction leaves a dict: every key in the key order has a total, every total is in the key order, and no key is listed twice |
| `InvoiceExtractor.ExtractedRows` | packing_plan_tool.py:103-103 | the ASIN column holds no ASIN twice, and its ASINs are exactly the keys of the totals, in key order; each row's Qty is its ASIN's total |
| `InvoiceExtractor.MatchingRows` | packing_plan_tool.py:104-104 | the master rows joined to an ASIN are exactly those carrying it |
| `InvoiceExtractor.JoinRow` | packing_plan_tool.py:104-112 | a left-join row: one plan row per matching master row, with its item, weight, packet size, MRP and FNSKU; one row with empty master columns when none matches |
| `InvoiceExtractor.MergeRowsSpec` | packing_plan_tool.py:104-112 | every extracted row yields at least one merged row with its ASIN and quantity; every merged row carries an extracted row's ASIN and quantity and the master columns of a master row with that ASIN, or empty master columns when none has it |
| `InvoiceExtractor.MergeRowsSplit` | packing_plan_tool.py:104-104 | the merge keeps the order of the extracted rows: the rows of one extracted row sit between the rows of those before it and those after it |
| `InvoiceExtractor.PackingPlan` | packing_plan_tool.py:103-112 | no extracted row (no "ASIN" column to merge on) is an error, and only then; otherwise every extracted row yields at least one plan row with its ASIN and quantity, every plan row carries an extracted row's ASIN and quantity and is joined from the master table (`JoinedFrom`), and the plan is, for each extracted row in turn, the merge of the rows before it, its own join rows, then the merge of the rows after it |
| `InvoiceExtractor.PlanKeepsEveryAsin` | packing_plan_tool.py:103-104 | every extracted ASIN reaches the plan with its total, even when the master table does not know it |
| `QtyHighlighter.InTableStep` | packing_plan_tool.py:38-54 | `in_table` after a block equals the declarative rule: a header on this page earlier, with no closing block between |
| `QtyHighlighter.TotalWithoutDigitKeepsTable` | packing_plan_tool.py:42-54 | a "TOTAL" block without a digit is skipped before the reset and leaves the table open |
| `QtyHighlighter.HasLargeValue` | packing_plan_tool.py:46-52 | the token loop answers true iff some whitespace token is all digits with value > 1 |
| `QtyHighlighter.ScanPage` | packing_plan_tool.py:34-54 | after a page, `found` is true iff it was before or the page holds a qualifying row |
| `QtyHighlighter.HighlightLargeQty` | packing_plan_tool.py:30-56 | a document is returned iff some page has a block that comes after a header with no closing block between, holds a digit, names none of Qty/Unit Price/Total, and has a token > 1 |
| `QtyHighlighter.FirstBlockNeverQualifies` | packing_plan_tool.py:35-35 | `in_table` restarts false on every page, so a page's first block never qualifies |
| `QtyHighlighter.ExampleFlagged` | packing_plan_tool.py:38-51 | a header followed by a row "2" is flagged |
| `Rounding.RoundHalfEvenNearest` | manual_packing_plan.py:68-68 | `round(y)` is an integer nearest to y, within 1/2, the even one on a tie |
| `Rounding.Round2Error` | manual_packing_plan.py:61-61 | `round(x, 2)` is within 0.005 of x |
| `Rounding.RoundToNearest2Spec` | manual_packing_plan.py:67-68 | `round_to_nearest_2` is None exactly for a missing x; otherwise an even integer within 1 of x, and no even integer is nearer |
| `Rounding.RoundToNearest2Ties` | manual_packing_plan.py:68-68 | ties go to even: 1 → 0, 3 → 4, 5 → 4 |
| `Rounding.RoundToNearest2Odd` | manual_packing_plan.py:68-68 | every odd integer is sent to a multiple of 4 |
| `SalesMix.FirstDot` | manual_packing_plan.py:28-28 | the index of the first '.', or the length when there is none |
| `SalesMix.RemoveFirstDotSpec` | manual_packing_plan.py:28-28 | `replace('.', '', 1)` deletes exactly the first '.', and changes nothing without one |
| `SalesMix.DecimalShapeIff` | manual_packing_plan.py:28-28 | deleting the first '.' leaves a non-empty digit string iff the text is digits with at most one '.' and at least one digit |
| `SalesMix.VariantLabelShape` | manual_packing_plan.py:27-28 | a row label is a weight variant iff its stripped text has that decimal shape; "nan" and every other label start a parent |
| `SalesMix.LabelValueNonNegative` | manual_packing_plan.py:33-33 | `float(item)` of a variant label is non-negative |
| `SalesMix.LabelExamples` | manual_packing_plan.py:27-33 | "0.5" and " 1 " are variants of weight 0.5 and 1; "nan" and "1.2.5" are not |
| `SalesMix.VariantTotals` | manual_packing_plan.py:22-37 | the first pass sets each variant row's total to weight × units (unset when units is missing) and leaves every parent row's total unset; it lists every parent row, in increasing row order, each once |
| `SalesMix.SumRun` | manual_packing_plan.py:40-47 | the inner loop sums the defined totals of the variant rows right after a parent, stopping at the next parent |
| `SalesMix.ParentTotals` | manual_packing_plan.py:39-48 | the second pass gives each parent the sum of its run, and leaves variant totals as they were |
| `SalesMix.VariantsUntouched` | manual_packing_plan.py:39-48 | writing parent totals does not change any variant row's total |
| `SalesMix.Contributions` | manual_packing_plan.py:50-63 | the third pass sets each variant's contribution to round(v / parent × 100, 2) when both are defined and the parent total is not 0, and leaves it unset otherwise |
| `SalesMix.ContributionStep` | manual_packing_plan.py:53-61 | a parent sets the running parent total and gets no contribution; a variant keeps the running total and gets its share |
| `SalesMix.ProcessSalesMix` | manual_packing_plan.py:12-65 | the totals and contributions columns equal the declarative row totals and contributions |
| `SalesMix.ParentWithoutVariants` | manual_packing_plan.py:39-48 | a parent directly followed by a parent, or last, gets total 0 |
| `SalesMix.ParentTotalInRun` | manual_packing_plan.py:51-56 | inside a parent's run, the running parent total is that parent's run sum |
| `SalesMix.ShareSumScales` | manual_packing_plan.py:56-61 | the unrounded shares of a run add up to the run's total as a percentage |
| `SalesMix.SharesSumTo100` | manual_packing_plan.py:56-61 | the unrounded shares of a parent's variants add up to exactly 100 |
| `SalesMix.ContributionOfRunMember` | manual_packing_plan.py:56-61 | a variant with a total, under a parent with a non-zero total, gets a contribution within 0.005 of its exact share |
| `SalesMix.ContributionIs` | manual_packing_plan.py:59-61 | with defined totals v and pt ≠ 0, the contribution is round(v / pt × 100, 2) |
| `PacketAllocation.ParentItemsSpec` | manual_packing_plan.py:133-133 | a label is offered iff some row carries it and it is not numeric (tested unstripped) |
| `PacketAllocation.FindLabel` | manual_packing_plan.py:144-144 | `.index[0]`: the first row whose label equals the item, or none |
| `PacketAllocation.RunVariantsEnd` | manual_packing_plan.py:146-149 | gathering stops at the end of the sheet or at the first non-variant label |
| `PacketAllocation.RunVariantsAt` | manual_packing_plan.py:146-155 | gathered variant j is row i+j, a variant row, with its weight, contribution, pouch and ASIN |
| `PacketAllocation.RunVariantsSpec` | manual_packing_plan.py:146-155 | the gathered run ends at a parent or at the end, and every gathered weight is non-negative |
| `PacketAllocation.OfferedItemsResolve` | manual_packing_plan.py:133-144 | an offered item is always found |
| `PacketAllocation.GatherVariations` | manual_packing_plan.py:144-155 | the variant loop returns the declarative gathering, or ItemNotFound |
| `PacketAllocation.GatheredWeights` | manual_packing_plan.py:146-155 | every gathered variant has a non-negative weight |
| `PacketAllocation.EstimateLineSpec` | manual_packing_plan.py:158-167 | the estimate fails exactly for a missing contribution or weight 0; otherwise the count is the even integer nearest to contribution/100 × target / weight, and the packed weight is count × weight |
| `PacketAllocation.EstimateSpec` | manual_packing_plan.py:157-168 | the estimate succeeds iff every variant's does; then line k is variant k's estimate |
| `PacketAllocation.EstimateErrorPersists` | manual_packing_plan.py:157-168 | once a variant fails, the whole estimate fails with that variant's error |
| `PacketAllocation.InitialEstimate` | manual_packing_plan.py:157-168 | the appending loop yields the declarative estimate |
| `PacketAllocation.EstimateReady` | manual_packing_plan.py:157-170 | a successful estimate keeps each variant's columns, has even counts and consistent packed weights |
| `PacketAllocation.ArgMax` | manual_packing_plan.py:76-76 | `idxmax`: a row of largest per-packet weight, the first on ties |
| `PacketAllocation.ArgMin` | manual_packing_plan.py:80-80 | `idxmin`: a row of smallest per-packet weight, the first on ties |
| `PacketAllocation.BreakUnreachable` | manual_packing_plan.py:79-83 | with exact arithmetic the `else: break` arm is never taken: a loop entered with packed ≤ target has a positive deviation |
| `PacketAllocation.SettledMeans` | manual_packing_plan.py:72-74 | the loop stops iff packed ≤ target and target − packed ≤ 5% of the target |
| `PacketAllocation.RecomputeSpec` | manual_packing_plan.py:85-85 | recomputing the packed column keeps counts and columns, and makes every packed weight count × weight |
| `PacketAllocation.RecomputeConsistent` | manual_packing_plan.py:85-85 | recomputing consistent packed weights changes nothing |
| `PacketAllocation.BumpSpec` | manual_packing_plan.py:77-81 | changing one count by ±2 leaves the other counts and all columns alone, and keeps counts even |
| `PacketAllocation.RecomputeBump` | manual_packing_plan.py:77-85 | a ±2 change followed by the recompute changes that row's count only, keeps counts even, and keeps packed weights consistent |
| `PacketAllocation.StepSpec` | manual_packing_plan.py:75-87 | one pass: over the target, the first heaviest row loses 2 packets if it has 2, and nothing changes otherwise; at or under the target, the first lightest row gains 2; all other counts are unchanged; parity, non-negativity and columns are kept |
| `PacketAllocation.RunUnfolds` | manual_packing_plan.py:74-87 | a settled state is returned as is; an unsettled one takes one pass |
| `PacketAllocation.RunSpec` | manual_packing_plan.py:74-89 | if the loop returns, packed ≤ target and within 5% of it, and counts stay even and non-negative when they start so |
| `PacketAllocation.RunAdvances` | manual_packing_plan.py:74-87 | a pass taken while the loop condition holds does not change what the loop returns |
| `PacketAllocation.Pass` | manual_packing_plan.py:75-87 | the loop body computes one pass |
| `PacketAllocation.AdjustPackets` | manual_packing_plan.py:70-89 | the loop as written, with a step bound: it returns exactly what the declarative loop returns within that many passes, or reports that it has not settled |
| `PacketAllocation.StallNeverSettles` | manual_packing_plan.py:74-78 | over the target with fewer than 2 packets on the heaviest row, the loop never changes anything and never returns |
| `PacketAllocation.OscillationNeverSettles` | manual_packing_plan.py:67-87 | a 1 kg target with one 1 kg variant estimates 0 packets, and the loop then alternates 0 ↔ 2 forever |
| `PacketAllocation.StallScenario` | manual_packing_plan.py:157-168 | a 1 kg target split 95/5 between 0.3 kg and 2 kg variants estimates 4 and 0 packets (1.2 kg), and the loop then never returns |
| `PacketAllocation.ScenarioSettles` | manual_packing_plan.py:157-168 | a two-variant item (0.5 kg at 40%, 1 kg at 60%, 100 kg target) estimates 80 and 60 packets, which is already settled |
| `PacketAllocation.RepackSpec` | manual_packing_plan.py:78-85 | setting one row's count keeps the others and the columns, and keeps packed weights consistent |
| `PacketAllocation.PackedUpdate` | manual_packing_plan.py:86-86 | changing one row changes the packed sum by that row's difference |
| `PacketAllocation.PackedWeightIsProduct` | manual_packing_plan.py:85-85 | the packed weight of a row is its packet count times its per-packet weight |
| `PacketAllocation.RepackPacked` | manual_packing_plan.py:77-86 | moving one row by 2 packets moves the packed sum by twice that row's per-packet weight |
| `PacketAllocation.UnsettledIsLoopCondition` | manual_packing_plan.py:71-74 | `packed > target or abs((target − packed) / target) > 0.05` holds iff the table is over the target or more than 5% of the target away from it |
| `PacketAllocation.StepUnder` | manual_packing_plan.py:79-81 | at or under the target, a pass puts 2 packets on the first lightest row |
| `PacketAllocation.StepOverMoves` | manual_packing_plan.py:75-78 | over the target, a pass that changes anything took 2 packets off the first heaviest row, which had at least 2 |
| `PacketAllocation.StepStalls` | manual_packing_plan.py:75-85 | a pass leaves the table as it is iff it is over the target and the first heaviest row has fewer than 2 packets |
| `PacketAllocation.RunOnce` | manual_packing_plan.py:74-89 | more passes do not change what the loop returns |
| `PacketAllocation.RunsToUnique` | manual_packing_plan.py:74-89 | the loop returns at most one table from a start |
| `PacketAllocation.StallForever` | manual_packing_plan.py:74-85 | inside the loop, a table that a pass leaves as it is is never left |
| `PacketAllocation.CycleForever` | manual_packing_plan.py:74-85 | inside the loop, two tables that passes turn into each other are never left |
| `PacketAllocation.RunAhead` | manual_packing_plan.py:74-87 | after a pass from inside the loop, the run from the start is one pass further ahead |
| `PacketAllocation.NeverAhead` | manual_packing_plan.py:74-89 | a table reached from the start from which the loop never returns means the loop never returns from the start |
| `PacketAllocation.SettledAhead` | manual_packing_plan.py:74-89 | a table reached from the start where the loop condition fails is what the loop returns from the start |
| `PacketAllocation.StallExit` | manual_packing_plan.py:75-78 | a pass that changes nothing: over the target, fewer than 2 packets on the first heaviest row, and the loop never returns from the start |
| `PacketAllocation.CycleExit` | manual_packing_plan.py:74-87 | a pass that undoes the one before: the two tables alternate and the loop never returns from the start |
| `PacketAllocation.SettledExit` | manual_packing_plan.py:72-89 | the loop condition fails: the table is what the loop returns from the start, at most the target and within 5% of it |
| `PacketAllocation.SettleOrReport` | manual_packing_plan.py:70-89 | the passes of `adjust_packets` one by one, always ending: it reports Settled iff `adjust_packets` returns, and then returns that same table, at most the target and within 5% of it; otherwise it stops at a stall (over the target, fewer than 2 packets on the heaviest row) or at a two-table cycle; columns and consistent packed weights are kept, and even counts stay even |
| `PacketAllocation.ArgMinColumns` | manual_packing_plan.py:80-80 | `idxmin` depends only on the per-packet weights |
| `PacketAllocation.ArgMaxColumns` | manual_packing_plan.py:76-76 | `idxmax` depends only on the per-packet weights |
| `PacketAllocation.PlanItem` | manual_packing_plan.py:142-173 | an item is planned iff it is found, has variants, can be estimated, and `adjust_packets` returns from the estimate; an item that cannot be estimated gives the page's error, one whose loop never returns gives `NeverSettles`; a plan's rows are exactly the table `adjust_packets` returns, row k is variant k with an even count, and the loose weight is target − packed, between 0 and 5% of the target |
| `PacketAllocation.PlanSelection` | manual_packing_plan.py:140-182 | one selection is planned iff its item completes; its entry has the item and its target, the rows `adjust_packets` returns from the item's estimate, their packed weight, and the loose weight target − packed, between 0 and 5% of the target; otherwise the error is the item's: the page's own, or `NeverSettles` |
| `PacketAllocation.TalliedAppend` | manual_packing_plan.py:175-185 | appending the next selection's entry and adding its weights to the running totals keeps one entry per selection so far, in order, each with the table `adjust_packets` returns for it, with totals that are their sums |
| `PacketAllocation.TalliedBalance` | manual_packing_plan.py:184-185 | the running packed and loose totals add up to the sum of the targets |
| `PacketAllocation.PlanItems` | manual_packing_plan.py:136-185 | the page gets through the selections iff every selected item completes; then there is one entry per selection, in order, each for its item and target with the table `adjust_packets` returns, its packed weight, and a loose weight between 0 and 5% of the target, and the combined packed and loose weights are the sums of the entries and add up to the combined targets; otherwise the error is that of the first selection that does not complete |
| `PacketAllocation.CombinedBalance` | manual_packing_plan.py:184-185 | when every loose weight is target − packed, the combined packed plus the combined loose equals the combined targets |
| `Text.Words` | easy_ship_report.py:41-41 | `str.split()` gives non-empty tokens without whitespace |
| `Text.GapsSpec` | easy_ship_report.py:41-41 | every string is its words separated by whitespace runs, with a non-empty run between two words |
| `Text.WordsOfSeparated` | easy_ship_report.py:41-41 | tokens separated by whitespace runs (non-empty between two tokens) split back into exactly those tokens |
| `Text.WordsSpec` | easy_ship_report.py:41-41 | `s.split()` is the one list of tokens that, separated by whitespace runs, makes up s: its words are the maximal runs of non-whitespace |
| `Text.JoinSingleSpaced` | easy_ship_report.py:42-42 | tokens joined with single spaces give a single-spaced string, with no space at either end |
| `Text.WordsJoin` | easy_ship_report.py:41-42 | splitting tokens joined with single spaces gives back the tokens |
| `Text.WordsOfSingleToken` | easy_ship_report.py:41-41 | a token followed by whitespace splits off as the first word |
| `Text.NatToString` | easy_ship_report.py:89-89 | `str(n)` is a digit string with no leading 0, of one digit iff n < 10 |
| `Text.NatToStringRoundTrip` | easy_ship_report.py:89-89 | `int(str(n)) == n` |
| `Text.NatToStringLength` | label_generator_tool.py:41-41 | `str(n)` has 1, 2 or 3 digits for n below 10, 100 and 1000 |
| `Text.Span` | easy_ship_report.py:47-47 | the maximal run of one character class from a position |
| `Text.TrimStartSpec` | manual_packing_plan.py:27-27 | `lstrip` removes exactly the leading whitespace |
| `Text.TrimEndSpec` | manual_packing_plan.py:27-27 | `rstrip` removes exactly the trailing whitespace |
| `Text.StripSpec` | manual_packing_plan.py:27-27 | `strip` is the text between leading and trailing whitespace, with no whitespace at either end |
| `Text.StrLessIrreflexive` | easy_ship_report.py:37-37 | no string sorts before itself |
| `Text.StrLessTransitive` | easy_ship_report.py:37-37 | the string order is transitive |
| `Text.StrLessTotal` | easy_ship_report.py:37-37 | any two different strings are ordered one way or the other |
| `Text.StrLessAsymmetric` | easy_ship_report.py:37-37 | two strings are never each before the other |
| `Text.UpperChar` | label_generator_tool.py:40-40 | `upper()` maps a lower-case ASCII letter to its capital and leaves every other character alone |
| `EasyShipReport.TruncateSpec` | easy_ship_report.py:40-42 | the shortened name has at most 70 characters, is a prefix of the first ten words joined by single spaces (all of it when that fits), and is single-spaced |
| `EasyShipReport.TruncateShortName` | easy_ship_report.py:41-42 | a name of at most ten words whose join fits in 70 characters becomes exactly that join, with the same words, and shortening it again changes nothing |
| `EasyShipReport.MatchEnd` | easy_ship_report.py:47-47 | the regex tried at one position either fails or ends after it |
| `EasyShipReport.MatchEndSpec` | easy_ship_report.py:47-47 | the match at a position is a month-day, and the longest one starting there; the regex fails there only when no month-day starts there |
| `EasyShipReport.FirstMatch` | easy_ship_report.py:47-47 | `re.search` tries the positions left to right |
| `EasyShipReport.FirstMatchSpec` | easy_ship_report.py:47-47 | the search fails iff the regex fails everywhere; otherwise it returns the leftmost position where it matches |
| `EasyShipReport.ExtractMonthDaySpec` | easy_ship_report.py:46-48 | the slot becomes "" iff no piece of it is a month-day; otherwise a month-day that occurs in the slot, no month-day starts earlier, and none longer starts at the same place |
| `EasyShipReport.AsinMapSpec` | easy_ship_report.py:22-25 | the map holds (ASIN, `Name + " " + Net Weight + "kg"`) exactly for the master rows that have an ASIN |
| `EasyShipReport.NotLessTransitive` | easy_ship_report.py:37-37 | "not before" is transitive on strings |
| `EasyShipReport.InsertPermutes` | easy_ship_report.py:37-37 | inserting an order adds it and keeps every other order |
| `EasyShipReport.HeadIsLeast` | easy_ship_report.py:37-37 | no order of a sorted list sorts before its first |
| `EasyShipReport.InsertSorted` | easy_ship_report.py:37-37 | inserting into a list sorted by ASIN keeps it sorted |
| `EasyShipReport.SortByAsinSpec` | easy_ship_report.py:37-37 | the sort returns the same orders (as a multiset), sorted by ASIN ascending |
| `EasyShipReport.MatchesSpec` | easy_ship_report.py:56-56 | the merge's matches for an ASIN are exactly its clean names in the map |
| `EasyShipReport.NoMatches` | easy_ship_report.py:56-56 | an ASIN missing from the map has no match |
| `EasyShipReport.UniqueMatches` | easy_ship_report.py:56-57 | with unique map keys, an ASIN has at most one match, the one `Lookup` finds |
| `EasyShipReport.MergeNamesUnique` | easy_ship_report.py:56-58 | with unique map keys, the left merge keeps the rows one for one and in order, and a row takes its ASIN's clean name or keeps its own (`fillna`); nothing else changes |
| `EasyShipReport.DuplicateAsinRepeatsOrder` | easy_ship_report.py:56-56 | an ASIN on two master rows duplicates the order, once per clean name |
| `EasyShipReport.ProcessSpec` | easy_ship_report.py:36-58 | with one master row per ASIN: one row per order, in ASIN order, the same orders; each row keeps its tracking id, ASIN and quantity, is highlighted iff qty > 1, has the month-day slot, and has the clean name of its ASIN or else the shortened name |
| `EasyShipReport.GroupSpec` | easy_ship_report.py:83-84 | a product's group holds exactly the rows of that product name |
| `EasyShipReport.InsertNameSpec` | easy_ship_report.py:83-83 | adding a name to a strictly ascending key list keeps it strictly ascending and adds exactly that name |
| `EasyShipReport.GroupKeysSpec` | easy_ship_report.py:83-84 | the group keys are strictly ascending and are exactly the product names of the rows |
| `EasyShipReport.BlockLines` | easy_ship_report.py:85-106 | a block has one line per row of its group, in order, each with the row's tracking id, pickup slot, and `str(qty)` reading back as its qty; the qty cell is emphasised iff qty > 1 |
| `EasyShipReport.BlocksSpec` | easy_ship_report.py:83-91 | one block per product name, in ascending distinct order; every row's product has a block; the blocks' lines add up to one per row |
| `EasyShipReport.BlockCounts` | easy_ship_report.py:84-91 | the number of lines of the blocks is the sum of the group sizes |
| `EasyShipReport.OccursOnce` | easy_ship_report.py:83-83 | a name occurs once among strictly ascending keys |
| `EasyShipReport.GroupSizesCons` | easy_ship_report.py:84-84 | one more row adds one to the group of its name |
| `EasyShipReport.GroupSizesCover` | easy_ship_report.py:83-86 | distinct keys covering every row's name split the rows: their group sizes add up to the number of rows |
| `EasyShipReport.GroupSizesOfNone` | easy_ship_report.py:84-84 | an empty frame has empty groups |
| `EasyShipReport.GroupKeepsAsinOrder` | easy_ship_report.py:37-86 | rows sorted by ASIN stay sorted by ASIN inside each product's group |
| `LabelCodes.SanitizeIsUnderscored` | label_generator_tool.py:107-107 | `re.sub(r'\W+', '_', …)` equals the character-by-character rule: word characters are kept in order, and each maximal run of other characters becomes one '_' |
| `LabelCodes.UnderscoredSkipsRun` | label_generator_tool.py:107-107 | inside a run of non-word characters, further ones add nothing |
| `LabelCodes.SanitizeSpec` | label_generator_tool.py:106-107 | the result has only word characters, is no longer than the name, and is empty iff the name is |
| `LabelCodes.SanitizeKeepsWordNames` | label_generator_tool.py:107-107 | a name of word characters only is unchanged |
| `LabelCodes.SanitizeIdempotent` | label_generator_tool.py:107-107 | sanitizing twice is sanitizing once |
| `LabelCodes.UnderscoredKeepsLetters` | label_generator_tool.py:107-107 | the letters, digits and their order are kept |
| `LabelCodes.SanitizeKeepsLetters` | label_generator_tool.py:107-107 | the name's letters and digits survive, in order |
| `LabelCodes.AlnumOnlySpec` | label_generator_tool.py:40-40 | `filter(str.isalnum, …)` keeps only letters and digits, and keeps an all-alphanumeric text whole |
| `LabelCodes.AlnumOnlyUpper` | label_generator_tool.py:40-40 | filtering and upper-casing commute |
| `LabelCodes.ProductPrefixSpec` | label_generator_tool.py:40-40 | the prefix is the name's first two letters or digits, upper-cased, or fewer when it has fewer |
| `LabelCodes.LeadingZeros` | label_generator_tool.py:41-41 | zero padding does not change the value read back |
| `LabelCodes.ZerosValue` | label_generator_tool.py:41-41 | a string of zeros reads as 0 |
| `LabelCodes.SerialSpec` | label_generator_tool.py:41-41 | `str(n).zfill(3)` of a serial in 1..999 is exactly 3 digits that read back as n |
| `LabelCodes.TwoDigits` | label_generator_tool.py:27-27 | a number below 100 padded to 2 gives 2 digits that read back as it |
| `LabelCodes.DateCodeSpec` | label_generator_tool.py:27-27 | `strftime('%d%m%y')` is 6 digits reading as day, month and year within the century |
| `LabelCodes.BatchCodeSpec` | label_generator_tool.py:40-41 | the batch code is prefix, date code and serial: 9 to 11 characters that can be taken apart again |

## Left out

- The Streamlit pages: uploads, the sidebar, admin gating, downloads and writes to disk. These
  are user interface and I/O.
- PDF and Excel decoding and rendering: `fitz`, FPDF, reportlab layout, `pd.read_excel`. The
  models take pages, lines, blocks and table rows as values.
- Highlight rectangles and the saved PDF. Only the decision of `highlight_large_qty` is
  modelled.
- The report's title line and file name. They are layout text over the row count and the date.
- The label's name, weight, MRP and FSSAI texts, the use-by date, and the repetition of label
  pages per quantity. These are PDF assembly with `int(float(...))` and `strftime` formatting.
- test_sheets.py: a network fetch from Google Sheets. It is not part of this model.
- The date and the random serial of the batch code are parameters. The clock and the random
  generator are not modelled.
- Character classes are ASCII: `\w`, `\d`, `\s`, `isdigit`, `isalnum`, `upper` and
  `str.split` are Unicode in Python. A non-ASCII digit or letter is treated as other text.
- Weights, percentages and deviations are exact reals. Binary floating point (the error of
  `round(…, 2)` and of the 5% comparison, NaN) is not modelled. This is why the `else: break`
  arm of `adjust_packets` is proved unreachable rather than modelled: only NaN reaches it.
- `str()` of a non-string cell (a number label such as `1.0`, or `nan`) is taken as the cell's
  text as given.
- Label lookups against NaN cells are left out. `df_full['Row Labels'] == selected_item` is
  modelled as string equality.
- The parent-item list at manual_packing_plan.py:133 tests the label unstripped with
  `isnumeric`. It is modelled with the same digit test as `isdigit`; Unicode numerics are left
  out.
- `SortByAsinSpec`: `sort_values` uses an unstable sort. The model is one stable order, and the
  contract states only that the result is sorted and a permutation. It does not fix the order of
  equal ASINs.
- `MergeNamesUnique` and `ProcessSpec`: both assume one master row per ASIN. With duplicates
  the merge repeats the order; `DuplicateAsinRepeatsOrder` shows this.
- `PacketAllocation.AdjustPackets` and `PacketAllocation.RunSpec`: the loop as written can run
  forever (see Findings). It takes a fuel bound, and the contract speaks of what it returns
  within that bound.
- `adjust_packets` has no stall exit: where it loops for ever, the page hangs. `PlanItem`
  reports `NeverSettles` there instead, and promises the 5% bound only for items where the loop
  returns.
- `round()` in `round_to_nearest_2` rounds ties to even; the model does the same.
- `PackedWeight` is written as repeated addition of the per-packet weight, to keep the proofs
  about the loop linear; `PackedWeightIsProduct` shows it equals count × weight.
- `SettleOrReport` compares a pass only with the table before the last, so it detects cycles
  of two tables. That suffices: its termination proof shows that the passes of the loop as
  written always reach a settled table, a stall, or a two-table cycle.

## Findings

| source | as written | input that shows it | evidently intended | confidence | as-written member | corrected member |
|---|---|---|---|---|---|---|
| manual_packing_plan.py:74-81 | over the target, `adjust_packets` only shrinks the `idxmax` row and skips it when it has fewer than 2 packets; the loop then never changes state and never ends | a 1 kg target split 95/5 between 0.3 kg and 2 kg variants: the estimate is 4 and 0 packets, 1.2 kg is over the target, and `idxmax` picks the 2 kg row, which has no packets to take off | end the loop, and say so, when a pass changes nothing; keep the table the loop returns whenever it does return | not executed | `PacketAllocation.StallNeverSettles` | `PacketAllocation.SettleOrReport` |
| manual_packing_plan.py:74-87 | the undershoot branch adds 2 packets of the lightest row even when that overshoots, and the overshoot branch then takes 2 off again | a 1 kg target with one 1 kg variant at 100% contribution: 0 → 2 → 0 → … | end the loop, and say so, when a pass undoes the one before it; keep the table the loop returns whenever it does return | not executed | `PacketAllocation.OscillationNeverSettles` | `PacketAllocation.SettleOrReport` |
