/**
 * The "Qty > 1" highlighter of the packing-plan tool: a scan over the text blocks of an invoice,
 * page by page, that decides whether some row of the item table holds an integer greater than 1.
 * The rectangles it draws and the PDF it saves are left out; only the decision is modelled.
 */
module QtyHighlighter {
  import opened Text

  /** The text blocks of one page, in the order the PDF library returns them. */
  type Page = seq<string>

  /** The table header: a block naming both "Description" and "Qty". */
  predicate IsHeader(text: string) {
    Contains(text, "Description") && Contains(text, "Qty")
  }

  /** A block inside the table that is examined for a quantity: it holds a digit and is not a
      header-like or total-like block. */
  predicate IsRowCandidate(text: string) {
    HasDigit(text) && !Contains(text, "Qty") && !Contains(text, "Unit Price") && !Contains(text, "Total")
  }

  /** A whitespace token that `str.isdigit()` accepts and whose value exceeds 1. */
  predicate IsLargeValue(v: string) {
    IsDigits(v) && DigitsValue(v) > 1
  }

  predicate HasLargeToken(text: string) {
    exists k :: 0 <= k < |Words(text)| && IsLargeValue(Words(text)[k])
  }

  /** A block that, met inside the table, closes it: it reaches the "TOTAL" check. Blocks skipped
      before the check (no digit, or naming Qty, Unit Price or Total) do not close it. */
  predicate Closes(text: string) {
    !IsHeader(text) && IsRowCandidate(text) && Contains(text, "TOTAL")
  }

  /** `in_table` after one block, given its value before. */
  function NextInTable(inTable: bool, text: string): bool {
    IsHeader(text) || (inTable && !Closes(text))
  }

  /** Block `j` of a page is inside the table: some earlier block of the same page is a header and
      no block strictly between them closes the table. */
  predicate InTableAt(page: Page, j: nat)
    requires j <= |page|
  {
    exists h :: 0 <= h < j && IsHeader(page[h]) && forall m :: h < m < j ==> !Closes(page[m])
  }

  /** Block `j` is a table row with a quantity greater than 1. */
  predicate QualifyingRow(page: Page, j: nat)
    requires j < |page|
  {
    InTableAt(page, j) && !IsHeader(page[j]) && IsRowCandidate(page[j]) && HasLargeToken(page[j])
  }

  /** The invoice is highlighted: some page holds a qualifying row. */
  predicate Flagged(pages: seq<Page>) {
    exists p, j :: 0 <= p < |pages| && 0 <= j < |pages[p]| && QualifyingRow(pages[p], j)
  }

  /** The flag `in_table` follows the declarative definition block after block. */
  lemma InTableStep(page: Page, j: nat)
    requires j < |page|
    ensures InTableAt(page, j + 1) == NextInTable(InTableAt(page, j), page[j])
  {
    if IsHeader(page[j]) {
      assert 0 <= j < j + 1 && IsHeader(page[j]);
    } else if Closes(page[j]) {
      forall h | 0 <= h < j + 1 && IsHeader(page[h])
        ensures exists m :: h < m < j + 1 && Closes(page[m])
      {
        assert h < j < j + 1 && Closes(page[j]);
      }
    } else {
      if InTableAt(page, j + 1) {
        var h :| 0 <= h < j + 1 && IsHeader(page[h]) && forall m :: h < m < j + 1 ==> !Closes(page[m]);
        assert h < j;
      }
      if InTableAt(page, j) {
        var h :| 0 <= h < j && IsHeader(page[h]) && forall m :: h < m < j ==> !Closes(page[m]);
        assert forall m :: h < m < j + 1 ==> !Closes(page[m]);
      }
    }
  }

  /** A "TOTAL" block without a digit is skipped before the reset and leaves the table open. */
  lemma TotalWithoutDigitKeepsTable(inTable: bool, text: string)
    requires !HasDigit(text) && !IsHeader(text)
    ensures NextInTable(inTable, text) == inTable
  {
  }

  /** The inner `for val in values` loop: is some whitespace token an integer greater than 1? */
  method HasLargeValue(text: string) returns (large: bool)
    ensures large <==> HasLargeToken(text)
  {
    var values := Words(text);
    var k := 0;
    while k < |values|
      invariant 0 <= k <= |values|
      invariant forall m :: 0 <= m < k ==> !IsLargeValue(values[m])
    {
      if IsLargeValue(values[k]) {
        return true;
      }
      k := k + 1;
    }
    return false;
  }

  /** The block loop of one page; `found` carries over from the earlier pages, `in_table` starts
      false on every page. */
  method ScanPage(page: Page, found0: bool) returns (found: bool)
    ensures found <==> found0 || exists j :: 0 <= j < |page| && QualifyingRow(page, j)
  {
    found := found0;
    var inTable := false;
    var j := 0;
    while j < |page|
      invariant 0 <= j <= |page|
      invariant inTable == InTableAt(page, j)
      invariant found <==> found0 || exists q :: 0 <= q < j && QualifyingRow(page, q)
    {
      var text := page[j];
      InTableStep(page, j);
      assert QualifyingRow(page, j) <==> inTable && !IsHeader(text) && IsRowCandidate(text) && HasLargeToken(text);
      assert forall q :: 0 <= q < j + 1 ==> (QualifyingRow(page, q) <==> (q == j && QualifyingRow(page, j)) || (q < j && QualifyingRow(page, q)));
      j := j + 1;
      if IsHeader(text) {
        inTable := true;
        continue;
      }
      if inTable {
        if !HasDigit(text) {
          continue;
        }
        if Contains(text, "Qty") || Contains(text, "Unit Price") || Contains(text, "Total") {
          continue;
        }
        var large := HasLargeValue(text);
        if large {
          found := true;
        }
      }
      if Contains(text, "TOTAL") {
        inTable := false;
      }
    }
  }

  /** `highlight_large_qty`: the invoice is returned (highlighted) iff it is `Flagged`; otherwise
      the function returns None. */
  method HighlightLargeQty(pages: seq<Page>) returns (found: bool)
    ensures found <==> Flagged(pages)
  {
    found := false;
    var p := 0;
    while p < |pages|
      invariant 0 <= p <= |pages|
      invariant found <==> exists p', j :: 0 <= p' < p && 0 <= j < |pages[p']| && QualifyingRow(pages[p'], j)
    {
      found := ScanPage(pages[p], found);
      p := p + 1;
    }
  }

  /** A header opens the table only for the rest of its own page: the first block of a page is
      never a qualifying row, whatever the previous page held. */
  lemma FirstBlockNeverQualifies(page: Page)
    requires |page| > 0
    ensures !QualifyingRow(page, 0)
  {
  }

  /** A concrete invoice: a header, then a row holding the quantity 2. */
  lemma ExampleFlagged()
    ensures Flagged([["Description Qty", "2"]])
  {
    var page := ["Description Qty", "2"];
    assert OccursAt(page[0], "Description", 0);
    assert OccursAt(page[0], "Qty", 12);
    assert InTableAt(page, 1);
    assert IsDigit(page[1][0]);
    WordsOfSingleToken("2", "");
    assert "2" + "" == "2";
    assert IsLargeValue(Words(page[1])[0]);
    assert QualifyingRow(page, 1);
    assert [page][0] == page;
  }
}
