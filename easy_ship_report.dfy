/**
 * The Easy Ship order report: orders sorted by ASIN, product names shortened, the pickup slot cut
 * down to its month and day, a highlight on orders of more than one unit, the master sheet's clean
 * name put in place of the product name by ASIN, and the PDF's per-product blocks.
 */
module EasyShipReport {
  import opened Wrappers
  import opened Text

  // ---------------------------------------------------------------------------------------------
  // truncate_product_name

  /** `s[:n]` */
  function Take<T>(s: seq<T>, n: nat): (r: seq<T>)
    ensures |r| == (if |s| <= n then |s| else n) && r == s[..|r|]
  {
    if |s| <= n then s else s[..n]
  }

  /** `' '.join(str(text).split()[:10])[:70]` */
  function TruncateProductName(text: string): string {
    Take(Join(Take(Words(text), 10)), 70)
  }

  /** A prefix of a single-spaced string is single-spaced. */
  lemma SingleSpacedPrefix(s: string, n: nat)
    requires SingleSpaced(s) && n <= |s|
    ensures SingleSpaced(s[..n])
  {
  }

  /** The shortened name has at most 70 characters, is the start of the first ten words joined by
      single spaces, and is itself single-spaced. */
  lemma TruncateSpec(text: string)
    ensures var r := TruncateProductName(text); var full := Join(Take(Words(text), 10));
            && |r| <= 70
            && r == full[..|r|]
            && (|full| <= 70 ==> r == full)
            && SingleSpaced(r)
  {
    var full := Join(Take(Words(text), 10));
    JoinSingleSpaced(Take(Words(text), 10));
    SingleSpacedPrefix(full, |TruncateProductName(text)|);
  }

  /** A name of at most ten words that fit in 70 characters joined comes back as those words joined
      by single spaces; shortening it again changes nothing. */
  lemma TruncateShortName(text: string)
    requires |Words(text)| <= 10 && |Join(Words(text))| <= 70
    ensures TruncateProductName(text) == Join(Words(text))
    ensures Words(TruncateProductName(text)) == Words(text)
    ensures TruncateProductName(TruncateProductName(text)) == TruncateProductName(text)
  {
    WordsJoin(Words(text));
  }

  // ---------------------------------------------------------------------------------------------
  // extract_month_day: re.search(r'[A-Za-z]{3,9} \d{1,2}', slot)

  /** A whole string of the form `[A-Za-z]{3,9} \d{1,2}`. The letters stop at the space, so the
      letter run from the start is the month part. */
  predicate MonthDay(t: string) {
    var l := Span(t, 0, Letter);
    && 3 <= l <= 9 && l + 2 <= |t| <= l + 3 && t[l] == ' '
    && forall k :: l < k < |t| ==> IsDigit(t[k])
  }

  /** The end of the match the pattern finds when tried at `i`, if any. Greedy `{3,9}` takes the
      whole letter run when it has at most 9 letters; giving letters back would leave a letter
      where the space must be, so a run of 10 or more never matches from its start. `\d{1,2}` then
      takes two digits when there are two. */
  function MatchEnd(s: string, i: nat): (r: Option<nat>)
    requires i <= |s|
    ensures r.Some? ==> i < r.value <= |s|
  {
    var e := Span(s, i, Letter);
    if 3 <= e - i <= 9 && e + 1 < |s| && s[e] == ' ' && IsDigit(s[e + 1]) then
      Some(if e + 2 < |s| && IsDigit(s[e + 2]) then e + 3 else e + 2)
    else None
  }

  /** The match at `i` is a month-day, and it is the longest month-day starting at `i`; there is
      none when the pattern fails at `i`. */
  lemma MatchEndSpec(s: string, i: nat)
    requires i <= |s|
    ensures MatchEnd(s, i).Some? ==> MonthDay(s[i..MatchEnd(s, i).value])
    ensures forall e :: i <= e <= |s| && MonthDay(s[i..e]) ==> MatchEnd(s, i).Some? && e <= MatchEnd(s, i).value
  {
    var e := Span(s, i, Letter);
    if MatchEnd(s, i).Some? {
      var t := s[i..MatchEnd(s, i).value];
      assert forall k :: 0 <= k < e - i ==> t[k] == s[i + k];
      assert t[e - i] == ' ';
      assert Span(t, 0, Letter) == e - i;
    }
    forall f | i <= f <= |s| && MonthDay(s[i..f])
      ensures MatchEnd(s, i).Some? && f <= MatchEnd(s, i).value
    {
      var t := s[i..f];
      var l := Span(t, 0, Letter);
      assert forall k :: 0 <= k < l ==> s[i + k] == t[k];
      assert s[i + l] == ' ';
      assert e == i + l;
      assert IsDigit(s[e + 1]) by { assert s[e + 1] == t[l + 1]; }
      if f == e + 3 {
        assert s[e + 2] == t[l + 2];
      }
    }
  }

  /** The leftmost position from `i` on where the pattern matches, with its end. */
  function FirstMatch(s: string, i: nat): (r: Option<(nat, nat)>)
    requires i <= |s|
    ensures r.Some? ==> i <= r.value.0 < r.value.1 <= |s|
    decreases |s| - i
  {
    match MatchEnd(s, i)
    case Some(e) => Some((i, e))
    case None => if i == |s| then None else FirstMatch(s, i + 1)
  }

  lemma {:induction false} FirstMatchSpec(s: string, i: nat)
    requires i <= |s|
    ensures FirstMatch(s, i).None? <==> forall j :: i <= j <= |s| ==> MatchEnd(s, j).None?
    ensures FirstMatch(s, i).Some? ==>
              var (j, e) := FirstMatch(s, i).value;
              && MatchEnd(s, j) == Some(e)
              && forall j' :: i <= j' < j ==> MatchEnd(s, j').None?
    decreases |s| - i
  {
    if MatchEnd(s, i).None? && i < |s| {
      FirstMatchSpec(s, i + 1);
    }
  }

  /** `match.group(0) if match else ""` */
  function ExtractMonthDay(slot: string): string {
    match FirstMatch(slot, 0)
    case Some((i, e)) => slot[i..e]
    case None => ""
  }

  /** The slot is "" exactly when no piece of it is a month-day. Otherwise it is a month-day found
      in the slot at a position where no month-day starts earlier, and no longer month-day starts
      there. */
  lemma ExtractMonthDaySpec(slot: string)
    ensures ExtractMonthDay(slot) == "" <==> forall i, e :: 0 <= i <= e <= |slot| ==> !MonthDay(slot[i..e])
    ensures ExtractMonthDay(slot) != "" ==>
              var r := ExtractMonthDay(slot);
              && MonthDay(r)
              && exists i ::
                   && OccursAt(slot, r, i)
                   && (forall j, e :: 0 <= j < i && j <= e <= |slot| ==> !MonthDay(slot[j..e]))
                   && (forall e :: i + |r| < e <= |slot| ==> !MonthDay(slot[i..e]))
  {
    FirstMatchSpec(slot, 0);
    if FirstMatch(slot, 0).Some? {
      var (i, e) := FirstMatch(slot, 0).value;
      var r := slot[i..e];
      MatchEndSpec(slot, i);
      assert r == ExtractMonthDay(slot) && MonthDay(r) && |r| > 0;
      assert OccursAt(slot, r, i);
      forall j, f | 0 <= j < i && j <= f <= |slot|
        ensures !MonthDay(slot[j..f])
      {
        MatchEndSpec(slot, j);
      }
    } else {
      forall j, f | 0 <= j <= f <= |slot|
        ensures !MonthDay(slot[j..f])
      {
        MatchEndSpec(slot, j);
      }
    }
  }

  // ---------------------------------------------------------------------------------------------
  // The order table

  /** A row of the Easy Ship sheet, in the five columns the report keeps. */
  datatype Order = Order(trackingId: string, asin: string, productName: string, qty: nat, pickupSlot: string)

  /** A row after the clean-up: `quantity-purchased` renamed `qty`, and the highlight column. */
  datatype Row = Row(trackingId: string, asin: string, productName: string, qty: nat, pickupSlot: string, highlight: bool)

  /** A row of the master sheet; the ASIN may be missing. */
  datatype MasterRow = MasterRow(asin: Option<string>, name: string, netWeight: string)

  /** `Name + " " + Net Weight + "kg"`, each cell taken as text. */
  function CleanName(m: MasterRow): string {
    m.name + " " + m.netWeight + "kg"
  }

  /** The ASIN → clean-name table: the master rows with an ASIN, in sheet order (`dropna`). */
  function AsinMap(master: seq<MasterRow>): (r: seq<(string, string)>)
    decreases |master|
  {
    if master == [] then []
    else
      var rest := AsinMap(master[1..]);
      if master[0].asin.Some? then [(master[0].asin.value, CleanName(master[0]))] + rest else rest
  }

  lemma {:induction false} AsinMapSpec(master: seq<MasterRow>, asin: string, name: string)
    ensures (asin, name) in AsinMap(master) <==>
              exists k :: 0 <= k < |master| && master[k].asin == Some(asin) && CleanName(master[k]) == name
    decreases |master|
  {
    if master != [] {
      AsinMapSpec(master[1..], asin, name);
      if (exists k :: 0 <= k < |master| && master[k].asin == Some(asin) && CleanName(master[k]) == name) {
        var k :| 0 <= k < |master| && master[k].asin == Some(asin) && CleanName(master[k]) == name;
        if k > 0 {
          assert master[1..][k - 1] == master[k];
        }
      }
      if (exists k :: 0 <= k < |master| - 1 && master[1..][k].asin == Some(asin) && CleanName(master[1..][k]) == name) {
        var k :| 0 <= k < |master| - 1 && master[1..][k].asin == Some(asin) && CleanName(master[1..][k]) == name;
        assert master[k + 1] == master[1..][k];
      }
    }
  }

  /** The cleaned-up row: the shortened name, the month-day slot, highlighted when more than one
      unit was bought. */
  function Prepare(o: Order): Row {
    Row(o.trackingId, o.asin, TruncateProductName(o.productName), o.qty, ExtractMonthDay(o.pickupSlot), o.qty > 1)
  }

  // ---------------------------------------------------------------------------------------------
  // sort_values(by="asin")

  /** Sorted by ASIN, ascending. */
  predicate SortedByAsin(s: seq<Order>) {
    forall i, j :: 0 <= i < j < |s| ==> !StrLess(s[j].asin, s[i].asin)
  }

  /** `o` placed in front of the first order whose ASIN is not smaller. */
  function Insert(o: Order, s: seq<Order>): seq<Order>
    decreases |s|
  {
    if s == [] then [o]
    else if !StrLess(s[0].asin, o.asin) then [o] + s
    else [s[0]] + Insert(o, s[1..])
  }

  /** The orders sorted by ASIN (pandas' sort is not stable: this is one order it may produce). */
  function SortByAsin(s: seq<Order>): seq<Order>
    decreases |s|
  {
    if s == [] then [] else Insert(s[0], SortByAsin(s[1..]))
  }

  /** "Not smaller" is transitive. */
  lemma NotLessTransitive(a: string, b: string, c: string)
    requires !StrLess(b, a) && !StrLess(c, b)
    ensures !StrLess(c, a)
  {
    StrLessTotal(a, b);
    StrLessTotal(b, c);
    if StrLess(c, a) {
      if StrLess(a, b) && StrLess(b, c) {
        StrLessTransitive(a, b, c);
        StrLessAsymmetric(a, c);
      } else if StrLess(a, b) {
        StrLessAsymmetric(c, b);
      } else if StrLess(b, c) {
        StrLessAsymmetric(c, a);
      } else {
        StrLessIrreflexive(a);
      }
    }
  }

  /** Insertion adds `o` and keeps everything else. */
  lemma {:induction false} InsertPermutes(o: Order, s: seq<Order>)
    ensures multiset(Insert(o, s)) == multiset([o] + s)
    decreases |s|
  {
    if s != [] && StrLess(s[0].asin, o.asin) {
      InsertPermutes(o, s[1..]);
      assert s == [s[0]] + s[1..];
    }
  }

  /** Below the first element of a sorted list, nothing in the list is smaller. */
  lemma HeadIsLeast(s: seq<Order>, x: Order)
    requires SortedByAsin(s) && x in s
    ensures !StrLess(x.asin, s[0].asin)
  {
    var m :| 0 <= m < |s| && s[m] == x;
    if m == 0 {
      StrLessIrreflexive(x.asin);
    }
  }

  /** Insertion into a sorted list keeps it sorted. */
  lemma {:induction false} InsertSorted(o: Order, s: seq<Order>)
    requires SortedByAsin(s)
    ensures SortedByAsin(Insert(o, s))
    decreases |s|
  {
    var r := Insert(o, s);
    if s == [] {
    } else if !StrLess(s[0].asin, o.asin) {
      forall i, j | 0 <= i < j < |r|
        ensures !StrLess(r[j].asin, r[i].asin)
      {
        if i == 0 {
          HeadIsLeast(s, r[j]);
          NotLessTransitive(o.asin, s[0].asin, r[j].asin);
        }
      }
    } else {
      var t := s[1..];
      InsertSorted(o, t);
      InsertPermutes(o, t);
      var u := Insert(o, t);
      assert r == [s[0]] + u;
      forall i, j | 0 <= i < j < |r|
        ensures !StrLess(r[j].asin, r[i].asin)
      {
        if i == 0 {
          assert r[j] in multiset([o] + t);
          if r[j] == o {
            StrLessAsymmetric(s[0].asin, o.asin);
          } else {
            assert r[j] in s;
            HeadIsLeast(s, r[j]);
          }
        }
      }
    }
  }

  /** The sort returns the same orders, sorted by ASIN. */
  lemma {:induction false} SortByAsinSpec(s: seq<Order>)
    ensures SortedByAsin(SortByAsin(s))
    ensures multiset(SortByAsin(s)) == multiset(s)
    ensures |SortByAsin(s)| == |s|
    decreases |s|
  {
    if s != [] {
      SortByAsinSpec(s[1..]);
      InsertSorted(s[0], SortByAsin(s[1..]));
      InsertPermutes(s[0], SortByAsin(s[1..]));
      assert s == [s[0]] + s[1..];
      assert |multiset(SortByAsin(s))| == |multiset(s)|;
    }
  }

  // ---------------------------------------------------------------------------------------------
  // merge(asin_map, how='left') and fillna

  /** The clean names the table holds for `asin`, in table order. */
  function Matches(table: seq<(string, string)>, asin: string): (r: seq<string>)
    decreases |table|
  {
    if table == [] then []
    else (if table[0].0 == asin then [table[0].1] else []) + Matches(table[1..], asin)
  }

  lemma {:induction false} MatchesSpec(table: seq<(string, string)>, asin: string)
    ensures forall n :: n in Matches(table, asin) <==> (asin, n) in table
    decreases |table|
  {
    if table != [] {
      MatchesSpec(table[1..], asin);
      assert table == [table[0]] + table[1..];
    }
  }

  /** A left join keeps a row without a match once, with its own name, and repeats a row once per
      match, each copy with that clean name. */
  function MergeRow(r: Row, table: seq<(string, string)>): seq<Row> {
    var m := Matches(table, r.asin);
    if m == [] then [r] else seq(|m|, k requires 0 <= k < |m| => r.(productName := m[k]))
  }

  function MergeNames(rows: seq<Row>, table: seq<(string, string)>): seq<Row>
    decreases |rows|
  {
    if rows == [] then [] else MergeRow(rows[0], table) + MergeNames(rows[1..], table)
  }

  /** No ASIN occurs twice in the table. */
  predicate UniqueKeys(table: seq<(string, string)>) {
    forall i, j :: 0 <= i < j < |table| ==> table[i].0 != table[j].0
  }

  /** The clean name of `asin`, when the table has one. */
  function Lookup(table: seq<(string, string)>, asin: string): (r: Option<string>)
    decreases |table|
  {
    if table == [] then None
    else if table[0].0 == asin then Some(table[0].1)
    else Lookup(table[1..], asin)
  }

  /** A key the table does not hold has no matches. */
  lemma {:induction false} NoMatches(table: seq<(string, string)>, asin: string)
    requires forall k :: 0 <= k < |table| ==> table[k].0 != asin
    ensures Matches(table, asin) == []
    decreases |table|
  {
    if table != [] {
      NoMatches(table[1..], asin);
    }
  }

  /** With unique ASINs, a key has at most one match, which is what `Lookup` finds. */
  lemma {:induction false} UniqueMatches(table: seq<(string, string)>, asin: string)
    requires UniqueKeys(table)
    ensures Lookup(table, asin).None? ==> Matches(table, asin) == []
    ensures Lookup(table, asin).Some? ==> Matches(table, asin) == [Lookup(table, asin).value]
    decreases |table|
  {
    if table != [] {
      UniqueMatches(table[1..], asin);
      if table[0].0 == asin {
        forall k | 0 <= k < |table| - 1
          ensures table[1..][k].0 != asin
        {
          assert table[1..][k] == table[k + 1];
        }
        NoMatches(table[1..], asin);
      }
    }
  }

  /** With unique ASINs in the table, the merge keeps the rows one for one and in order; a row
      takes its ASIN's clean name, or keeps its name when the table has none (`fillna`). Nothing
      else in the row changes. */
  lemma {:induction false} MergeNamesUnique(rows: seq<Row>, table: seq<(string, string)>)
    requires UniqueKeys(table)
    ensures |MergeNames(rows, table)| == |rows|
    ensures forall k :: 0 <= k < |rows| ==>
              MergeNames(rows, table)[k] == rows[k].(productName := Lookup(table, rows[k].asin).GetOr(rows[k].productName))
    decreases |rows|
  {
    if rows != [] {
      MergeNamesUnique(rows[1..], table);
      UniqueMatches(table, rows[0].asin);
      var head := MergeRow(rows[0], table);
      assert |head| == 1;
      assert head[0] == rows[0].(productName := Lookup(table, rows[0].asin).GetOr(rows[0].productName));
      forall k | 0 < k < |rows|
        ensures MergeNames(rows, table)[k] == rows[k].(productName := Lookup(table, rows[k].asin).GetOr(rows[k].productName))
      {
        assert MergeNames(rows, table)[k] == MergeNames(rows[1..], table)[k - 1];
        assert rows[1..][k - 1] == rows[k];
      }
    }
  }

  /** A master sheet with the same ASIN on two rows makes the order appear twice. */
  lemma DuplicateAsinRepeatsOrder(r: Row, a: string, n1: string, n2: string)
    requires r.asin == a
    ensures MergeRow(r, [(a, n1), (a, n2)]) == [r.(productName := n1), r.(productName := n2)]
  {
    var t := [(a, n1), (a, n2)];
    assert t[1..] == [(a, n2)];
    assert [(a, n2)][1..] == [];
    assert Matches([(a, n2)], a) == [n2];
    assert Matches(t, a) == [n1, n2];
  }

  // ---------------------------------------------------------------------------------------------
  // The whole clean-up

  function PrepareAll(s: seq<Order>): (r: seq<Row>)
    ensures |r| == |s| && forall k :: 0 <= k < |s| ==> r[k] == Prepare(s[k])
  {
    seq(|s|, k requires 0 <= k < |s| => Prepare(s[k]))
  }

  /** Sort by ASIN, shorten the names, cut the slots, add the highlight, then put in the clean
      names from the master sheet. */
  function Process(orders: seq<Order>, master: seq<MasterRow>): seq<Row> {
    MergeNames(PrepareAll(SortByAsin(orders)), AsinMap(master))
  }

  /** With one master row per ASIN: one row per order; the rows are in ASIN order and hold exactly
      the orders, each with its tracking id, ASIN and quantity, a highlight exactly when more than
      one unit was bought, the month-day slot, and the clean name of its ASIN or else the
      shortened name. */
  lemma ProcessSpec(orders: seq<Order>, master: seq<MasterRow>)
    requires UniqueKeys(AsinMap(master))
    ensures var rows := Process(orders, master); var sorted := SortByAsin(orders);
            && |rows| == |orders|
            && SortedByAsin(sorted) && multiset(sorted) == multiset(orders)
            && forall k :: 0 <= k < |rows| ==>
                 && rows[k].trackingId == sorted[k].trackingId && rows[k].asin == sorted[k].asin
                 && rows[k].qty == sorted[k].qty
                 && (rows[k].highlight <==> sorted[k].qty > 1)
                 && rows[k].pickupSlot == ExtractMonthDay(sorted[k].pickupSlot)
                 && rows[k].productName
                    == Lookup(AsinMap(master), sorted[k].asin).GetOr(TruncateProductName(sorted[k].productName))
  {
    SortByAsinSpec(orders);
    MergeNamesUnique(PrepareAll(SortByAsin(orders)), AsinMap(master));
  }

  // ---------------------------------------------------------------------------------------------
  // groupby('product-name') and the PDF blocks

  /** A line of a block's table: tracking id, `str(qty)`, pickup slot, and whether the qty cell is
      emphasised. */
  datatype TableLine = TableLine(trackingId: string, qty: string, pickupSlot: string, emphasised: bool)

  /** One product's block: its name and the lines under the header row
      `tracking-id | qty | pickup-slot`. */
  datatype Block = Block(productName: string, lines: seq<TableLine>)

  /** The rows of one product, in frame order. */
  function Group(rows: seq<Row>, name: string): seq<Row>
    decreases |rows|
  {
    if rows == [] then []
    else (if rows[0].productName == name then [rows[0]] else []) + Group(rows[1..], name)
  }

  lemma {:induction false} GroupSpec(rows: seq<Row>, name: string)
    ensures forall r :: r in Group(rows, name) <==> r in rows && r.productName == name
    ensures |Group(rows, name)| <= |rows|
    decreases |rows|
  {
    if rows != [] {
      GroupSpec(rows[1..], name);
      assert rows == [rows[0]] + rows[1..];
    }
  }

  /** `n` placed into a strictly increasing list of names, unless it is already there. */
  function InsertName(n: string, ns: seq<string>): seq<string>
    decreases |ns|
  {
    if ns == [] then [n]
    else if n == ns[0] then ns
    else if StrLess(n, ns[0]) then [n] + ns
    else [ns[0]] + InsertName(n, ns[1..])
  }

  /** The group keys: the distinct product names, ascending (groupby sorts its keys). */
  function GroupKeys(rows: seq<Row>): seq<string>
    decreases |rows|
  {
    if rows == [] then [] else InsertName(rows[0].productName, GroupKeys(rows[1..]))
  }

  predicate StrictlyAscending(ns: seq<string>) {
    forall i, j :: 0 <= i < j < |ns| ==> StrLess(ns[i], ns[j])
  }

  lemma {:induction false} InsertNameSpec(n: string, ns: seq<string>)
    requires StrictlyAscending(ns)
    ensures StrictlyAscending(InsertName(n, ns))
    ensures forall x :: x in InsertName(n, ns) <==> x == n || x in ns
    decreases |ns|
  {
    var r := InsertName(n, ns);
    if ns == [] || n == ns[0] {
    } else if StrLess(n, ns[0]) {
      forall i, j | 0 <= i < j < |r|
        ensures StrLess(r[i], r[j])
      {
        if i == 0 && j > 1 {
          StrLessTransitive(n, ns[0], ns[j - 1]);
        }
      }
    } else {
      InsertNameSpec(n, ns[1..]);
      StrLessTotal(n, ns[0]);
      assert ns == [ns[0]] + ns[1..];
      forall i, j | 0 <= i < j < |r|
        ensures StrLess(r[i], r[j])
      {
        if i == 0 {
          assert r[j] in InsertName(n, ns[1..]);
        }
      }
    }
  }

  /** The keys are strictly ascending — so each name has one block — and are exactly the product
      names of the rows. */
  lemma {:induction false} GroupKeysSpec(rows: seq<Row>)
    ensures StrictlyAscending(GroupKeys(rows))
    ensures forall n :: n in GroupKeys(rows) <==> exists r :: r in rows && r.productName == n
    decreases |rows|
  {
    if rows != [] {
      GroupKeysSpec(rows[1..]);
      InsertNameSpec(rows[0].productName, GroupKeys(rows[1..]));
      assert rows == [rows[0]] + rows[1..];
      forall n | n in GroupKeys(rows)
        ensures exists r :: r in rows && r.productName == n
      {
        if n != rows[0].productName {
          var r :| r in rows[1..] && r.productName == n;
          assert r in rows;
        }
      }
    }
  }

  /** `[row['tracking-id'], str(row['qty']), row['pickup-slot']]`, the qty cell emphasised when the
      row is highlighted. */
  function Line(r: Row): TableLine {
    TableLine(r.trackingId, NatToString(r.qty), r.pickupSlot, r.highlight)
  }

  function BlockOf(rows: seq<Row>, name: string): Block {
    var g := Group(rows, name);
    Block(name, seq(|g|, k requires 0 <= k < |g| => Line(g[k])))
  }

  /** The blocks of the PDF, one per product name, in key order. */
  function Blocks(rows: seq<Row>): seq<Block> {
    var ks := GroupKeys(rows);
    seq(|ks|, i requires 0 <= i < |ks| => BlockOf(rows, ks[i]))
  }

  /** Each line of a product's block is one of that product's rows, in row order: its tracking id,
      its pickup slot, its quantity (read back from the text), emphasised exactly for more than one
      unit. */
  lemma BlockLines(rows: seq<Row>, name: string)
    requires forall r :: r in rows ==> (r.highlight <==> r.qty > 1)
    ensures var b := BlockOf(rows, name); var g := Group(rows, name);
            && |b.lines| == |g|
            && forall k :: 0 <= k < |g| ==>
                 && g[k].productName == name
                 && b.lines[k].trackingId == g[k].trackingId
                 && b.lines[k].pickupSlot == g[k].pickupSlot
                 && DigitsValue(b.lines[k].qty) == g[k].qty
                 && (b.lines[k].emphasised <==> g[k].qty > 1)
  {
    var g := Group(rows, name);
    GroupSpec(rows, name);
    forall k | 0 <= k < |g|
      ensures DigitsValue(NatToString(g[k].qty)) == g[k].qty
      ensures g[k] in rows
    {
      NatToStringRoundTrip(g[k].qty);
    }
  }

  /** The blocks come in ascending, distinct product-name order; the blocks' lines add up to one
      line per row, so every order is printed once, under its own product. */
  lemma BlocksSpec(rows: seq<Row>)
    ensures var bs := Blocks(rows);
            && (forall i, j :: 0 <= i < j < |bs| ==> StrLess(bs[i].productName, bs[j].productName))
            && (forall r :: r in rows ==> exists i :: 0 <= i < |bs| && bs[i].productName == r.productName)
            && LineCount(bs) == |rows|
  {
    var ks := GroupKeys(rows);
    var bs := Blocks(rows);
    GroupKeysSpec(rows);
    forall r | r in rows
      ensures exists i :: 0 <= i < |bs| && bs[i].productName == r.productName
    {
      assert r.productName in ks;
      var i :| 0 <= i < |ks| && ks[i] == r.productName;
      assert bs[i].productName == ks[i];
    }
    GroupSizesCover(rows, ks);
    BlockCounts(rows, ks);
  }

  function LineCount(bs: seq<Block>): nat
    decreases |bs|
  {
    if bs == [] then 0 else |bs[0].lines| + LineCount(bs[1..])
  }

  /** The sizes of the groups of a list of keys. */
  function GroupSizes(rows: seq<Row>, ks: seq<string>): nat
    decreases |ks|
  {
    if ks == [] then 0 else |Group(rows, ks[0])| + GroupSizes(rows, ks[1..])
  }

  lemma {:induction false} BlockCounts(rows: seq<Row>, ks: seq<string>)
    ensures LineCount(seq(|ks|, i requires 0 <= i < |ks| => BlockOf(rows, ks[i]))) == GroupSizes(rows, ks)
    decreases |ks|
  {
    if ks != [] {
      BlockCounts(rows, ks[1..]);
      var bs := seq(|ks|, i requires 0 <= i < |ks| => BlockOf(rows, ks[i]));
      assert bs[1..] == seq(|ks| - 1, i requires 0 <= i < |ks| - 1 => BlockOf(rows, ks[1..][i]));
    }
  }

  /** How often `n` occurs in `ks`. */
  function Occurrences(ks: seq<string>, n: string): nat
    decreases |ks|
  {
    if ks == [] then 0 else (if ks[0] == n then 1 else 0) + Occurrences(ks[1..], n)
  }

  lemma {:induction false} OccursOnce(ks: seq<string>, n: string)
    requires StrictlyAscending(ks) && n in ks
    ensures Occurrences(ks, n) == 1
    decreases |ks|
  {
    if ks[0] == n {
      NotInAscendingTail(ks, n);
    } else {
      OccursOnce(ks[1..], n);
    }
  }

  lemma {:induction false} NotInAscendingTail(ks: seq<string>, n: string)
    requires StrictlyAscending(ks) && |ks| > 0 && ks[0] == n
    ensures Occurrences(ks[1..], n) == 0
  {
    var t := ks[1..];
    forall k | 0 <= k < |t|
      ensures t[k] != n
    {
      assert StrLess(ks[0], ks[k + 1]);
      StrLessIrreflexive(n);
    }
    ZeroOccurrences(t, n);
  }

  lemma {:induction false} ZeroOccurrences(ks: seq<string>, n: string)
    requires n !in ks
    ensures Occurrences(ks, n) == 0
    decreases |ks|
  {
    if ks != [] {
      ZeroOccurrences(ks[1..], n);
    }
  }

  /** Adding a row in front adds one to the group of its name. */
  lemma {:induction false} GroupSizesCons(r: Row, rest: seq<Row>, ks: seq<string>)
    ensures GroupSizes([r] + rest, ks) == GroupSizes(rest, ks) + Occurrences(ks, r.productName)
    decreases |ks|
  {
    if ks != [] {
      GroupSizesCons(r, rest, ks[1..]);
      assert ([r] + rest)[1..] == rest;
    }
  }

  /** Distinct keys covering every row's name split the rows: the group sizes add up to the
      number of rows. */
  lemma {:induction false} GroupSizesCover(rows: seq<Row>, ks: seq<string>)
    requires StrictlyAscending(ks)
    requires forall r :: r in rows ==> r.productName in ks
    ensures GroupSizes(rows, ks) == |rows|
    decreases |rows|
  {
    if rows != [] {
      var rest := rows[1..];
      assert rows == [rows[0]] + rest;
      assert rows[0] in rows;
      GroupSizesCover(rest, ks);
      GroupSizesCons(rows[0], rest, ks);
      OccursOnce(ks, rows[0].productName);
    } else {
      GroupSizesOfNone(ks);
    }
  }

  lemma {:induction false} GroupSizesOfNone(ks: seq<string>)
    ensures GroupSizes([], ks) == 0
    decreases |ks|
  {
    if ks != [] {
      GroupSizesOfNone(ks[1..]);
    }
  }

  /** Rows sorted by ASIN stay sorted by ASIN inside each product's group. */
  lemma {:induction false} GroupKeepsAsinOrder(rows: seq<Row>, name: string)
    requires forall i, j :: 0 <= i < j < |rows| ==> !StrLess(rows[j].asin, rows[i].asin)
    ensures var g := Group(rows, name);
            forall i, j :: 0 <= i < j < |g| ==> !StrLess(g[j].asin, g[i].asin)
    decreases |rows|
  {
    if rows != [] {
      GroupKeepsAsinOrder(rows[1..], name);
      GroupSpec(rows[1..], name);
      var g := Group(rows, name);
      var t := Group(rows[1..], name);
      if rows[0].productName == name {
        assert g == [rows[0]] + t;
        forall i, j | 0 <= i < j < |g|
          ensures !StrLess(g[j].asin, g[i].asin)
        {
          if i == 0 {
            assert g[j] in rows[1..];
            var m :| 0 <= m < |rows| - 1 && rows[1..][m] == g[j];
            assert rows[m + 1] == g[j];
          }
        }
      } else {
        assert g == t;
      }
    }
  }
}
