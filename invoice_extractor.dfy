/**
 * The invoice quantity extractor of the packing-plan tool: every line of every page of every
 * uploaded invoice is searched for an ASIN; a quantity is read from a four-line look-ahead window
 * (an explicit "Qty" cue first, a "₹price qty ₹amount" triple as fallback, 1 by default) and added
 * to a running total per ASIN. The totals are then left-joined with the master table.
 *
 * The three regular expressions are written out as predicates with Python's leftmost-match search
 * semantics. For each pattern, backtracking cannot change the outcome (every quantified part is
 * followed by a character its own class excludes), so a match at a position is determined by the
 * maximal runs starting there.
 */
module InvoiceExtractor {
  import opened Wrappers
  import opened Text

  type Page = seq<string>
  type File = seq<Page>

  const Rupee: char := '\U{20B9}'

  // ---------------------------------------------------------------------------------------------
  // Patterns

  datatype Pattern = AsinPattern | QtyHintPattern | ImplicitQtyPattern

  /** `[A-Z0-9]` */
  predicate IsAsinChar(c: char) { IsUpper(c) || IsDigit(c) }

  /** `B0[A-Z0-9]{8}` matches at `k` (no word boundary is required on either side). */
  predicate AsinAt(line: string, k: int) {
    0 <= k && k + 10 <= |line| && line[k] == 'B' && line[k + 1] == '0'
    && forall m :: k + 2 <= m < k + 10 ==> IsAsinChar(line[m])
  }

  /** `\bQty\b` matches at `k`. */
  predicate QtyWordAt(line: string, k: int) {
    0 <= k && k + 3 <= |line| && line[k..k + 3] == "Qty"
    && (k == 0 || !IsWordChar(line[k - 1]))
    && (k + 3 == |line| || !IsWordChar(line[k + 3]))
  }

  /** `\bQty\b.*?(\d+)` matches at `k`: the lazy `.*?` stops at the first digit after "Qty". */
  predicate QtyHintAt(line: string, k: int) {
    QtyWordAt(line, k) && Span(line, k + 3, NonDigit) < |line|
  }

  /** `₹[\d,.]+\s+(\d+)\s+₹[\d,.]+` matches at `a`; each run is maximal. */
  predicate ImplicitQtyAt(line: string, a: int) {
    0 <= a < |line| && line[a] == Rupee &&
    var e1 := Span(line, a + 1, AmountChar);
    e1 > a + 1 &&
    var e2 := Span(line, e1, Space);
    e2 > e1 &&
    var e3 := Span(line, e2, Digit);
    e3 > e2 &&
    var e4 := Span(line, e3, Space);
    e4 > e3 && e4 + 1 < |line| && line[e4] == Rupee && InKind(line[e4 + 1], AmountChar)
  }

  predicate MatchAt(line: string, k: int, pat: Pattern) {
    match pat
    case AsinPattern => AsinAt(line, k)
    case QtyHintPattern => QtyHintAt(line, k)
    case ImplicitQtyPattern => ImplicitQtyAt(line, k)
  }

  /** `pattern.search(line[k:])`: the leftmost position at or after `k` where `pat` matches. */
  function Search(line: string, k: nat, pat: Pattern): (r: Option<nat>)
    requires k <= |line|
    ensures r.Some? ==> k <= r.value < |line| && MatchAt(line, r.value, pat)
    ensures r.Some? ==> forall q :: k <= q < r.value ==> !MatchAt(line, q, pat)
    ensures r.None? ==> forall q :: k <= q ==> !MatchAt(line, q, pat)
    decreases |line| - k
  {
    if k == |line| then None
    else if MatchAt(line, k, pat) then Some(k)
    else Search(line, k + 1, pat)
  }

  /** The ASIN of a line: the first match of the pattern. */
  function FirstAsin(line: string): Option<string> {
    match Search(line, 0, AsinPattern)
    case Some(k) => Some(line[k..k + 10])
    case None => None
  }

  /** A line has an ASIN iff the pattern matches somewhere in it; the ASIN is the leftmost match,
      has the literal form `B0` + 8 characters of `[A-Z0-9]`, and later matches are ignored. */
  lemma FirstAsinSpec(line: string)
    ensures FirstAsin(line).None? <==> forall k :: !AsinAt(line, k)
    ensures FirstAsin(line).Some? ==>
              exists k :: AsinAt(line, k) && FirstAsin(line).value == line[k..k + 10]
                          && forall q :: 0 <= q < k ==> !AsinAt(line, q)
    ensures FirstAsin(line).Some? ==> |FirstAsin(line).value| == 10 && AsinAt(FirstAsin(line).value, 0)
  {
    assert forall q :: MatchAt(line, q, AsinPattern) == AsinAt(line, q);
    var found := Search(line, 0, AsinPattern);
    if found.Some? {
      var k := found.value;
      var a := line[k..k + 10];
      assert forall m :: 0 <= m < 10 ==> a[m] == line[k + m];
    }
  }

  /** `match.group(1)` of the explicit cue matched at `k`: the digit run that starts at the first
      digit after "Qty". */
  function HintGroup(line: string, k: int): (g: string)
    requires QtyHintAt(line, k)
    ensures IsDigits(g)
  {
    var p := Span(line, k + 3, NonDigit);
    line[p..Span(line, p, Digit)]
  }

  /** `match.group(1)` of the triple matched at `a`: the bare integer between the two amounts. */
  function ImplicitGroup(line: string, a: int): (g: string)
    requires ImplicitQtyAt(line, a)
    ensures IsDigits(g)
  {
    var e1 := Span(line, a + 1, AmountChar);
    var e2 := Span(line, e1, Space);
    line[e2..Span(line, e2, Digit)]
  }

  /** `int(qty_hint_pattern.search(line).group(1))`, or None when the pattern does not match. */
  function QtyHintValue(line: string): Option<nat> {
    match Search(line, 0, QtyHintPattern)
    case Some(k) => Some(DigitsValue(HintGroup(line, k)))
    case None => None
  }

  /** The explicit cue is read from the leftmost match of `\bQty\b.*?(\d+)`. */
  lemma QtyHintValueSpec(line: string)
    ensures QtyHintValue(line).None? <==> forall k :: !QtyHintAt(line, k)
    ensures QtyHintValue(line).Some? ==>
              exists k :: QtyHintAt(line, k) && QtyHintValue(line).value == DigitsValue(HintGroup(line, k))
                          && forall q :: 0 <= q < k ==> !QtyHintAt(line, q)
  {
    assert forall q :: MatchAt(line, q, QtyHintPattern) == QtyHintAt(line, q);
  }

  /** `int(implicit_qty_pattern.search(line).group(1))`, or None when the pattern does not match. */
  function ImplicitQtyValue(line: string): Option<nat> {
    match Search(line, 0, ImplicitQtyPattern)
    case Some(a) => Some(DigitsValue(ImplicitGroup(line, a)))
    case None => None
  }

  /** The fallback cue is read from the leftmost match of the price/qty/price triple. */
  lemma ImplicitQtyValueSpec(line: string)
    ensures ImplicitQtyValue(line).None? <==> forall a :: !ImplicitQtyAt(line, a)
    ensures ImplicitQtyValue(line).Some? ==>
              exists a :: ImplicitQtyAt(line, a) && ImplicitQtyValue(line).value == DigitsValue(ImplicitGroup(line, a))
                          && forall q :: 0 <= q < a ==> !ImplicitQtyAt(line, q)
  {
    assert forall q :: MatchAt(line, q, ImplicitQtyPattern) == ImplicitQtyAt(line, q);
  }

  // ---------------------------------------------------------------------------------------------
  // Quantity of one ASIN occurrence

  datatype Cue = Explicit | Implicit

  function CueValue(line: string, cue: Cue): Option<nat> {
    match cue
    case Explicit => QtyHintValue(line)
    case Implicit => ImplicitQtyValue(line)
  }

  function Min(a: int, b: int): int { if a < b then a else b }

  /** The look-ahead window of line `i`: `lines[i : min(i + 4, len(lines))]`, never past the page. */
  function Window(lines: Page, i: nat): (w: seq<string>)
    requires i < |lines|
    ensures 1 <= |w| <= 4 && |w| == Min(i + 4, |lines|) - i
    ensures forall j :: 0 <= j < |w| ==> w[j] == lines[i + j]
  {
    lines[i..Min(i + 4, |lines|)]
  }

  /** The value of the cue on the first window line where it matches. */
  function FirstCue(w: seq<string>, cue: Cue): Option<nat> {
    if w == [] then None
    else if CueValue(w[0], cue).Some? then CueValue(w[0], cue)
    else FirstCue(w[1..], cue)
  }

  /** The cue is missing iff no window line carries it; otherwise it is read from the first line
      that does. */
  lemma {:induction false} FirstCueSpec(w: seq<string>, cue: Cue)
    ensures FirstCue(w, cue).None? <==> forall j :: 0 <= j < |w| ==> CueValue(w[j], cue).None?
    ensures FirstCue(w, cue).Some? ==>
              exists j :: 0 <= j < |w| && CueValue(w[j], cue) == FirstCue(w, cue)
                          && forall m :: 0 <= m < j ==> CueValue(w[m], cue).None?
  {
    if w != [] && CueValue(w[0], cue).None? {
      var t := w[1..];
      FirstCueSpec(t, cue);
      assert forall j :: 0 < j < |w| ==> w[j] == t[j - 1];
      if FirstCue(t, cue).Some? {
        var j :| 0 <= j < |t| && CueValue(t[j], cue) == FirstCue(t, cue)
                 && forall m :: 0 <= m < j ==> CueValue(t[m], cue).None?;
        assert CueValue(w[j + 1], cue) == FirstCue(w, cue);
      }
    } else if w != [] {
      assert CueValue(w[0], cue) == FirstCue(w, cue);
    }
  }

  /** The first line carrying the cue decides it. */
  lemma {:induction false} FirstCueAt(w: seq<string>, cue: Cue, j: nat)
    requires j < |w| && CueValue(w[j], cue).Some?
    requires forall m :: 0 <= m < j ==> CueValue(w[m], cue).None?
    ensures FirstCue(w, cue) == CueValue(w[j], cue)
  {
    if j > 0 {
      assert forall m :: 0 <= m < j - 1 ==> w[1..][m] == w[m + 1];
      FirstCueAt(w[1..], cue, j - 1);
    }
  }

  /** The quantity credited to the ASIN found on line `i` of a page. The fallback is consulted
      whenever the explicit cue left the quantity at 1, also when the cue itself said 1. */
  function QtyFor(lines: Page, i: nat): nat
    requires i < |lines|
  {
    var w := Window(lines, i);
    var q := FirstCue(w, Explicit).GetOr(1);
    if q == 1 then FirstCue(w, Implicit).GetOr(1) else q
  }

  /** The quantity is determined by the window lines alone: what follows the window, and in
      particular the next page, has no influence. */
  lemma QtyForLocal(lines: Page, more: seq<string>, i: nat)
    requires i < |lines| && |lines| >= i + 4
    ensures QtyFor(lines + more, i) == QtyFor(lines, i)
  {
    assert Window(lines + more, i) == Window(lines, i);
  }

  /** One cue scan of the source: `for j in range(i, min(i + 4, len(lines)))`, stopping at the
      first line where the pattern matches. */
  method ScanWindow(lines: Page, i: nat, cue: Cue) returns (r: Option<nat>)
    requires i < |lines|
    ensures r == FirstCue(Window(lines, i), cue)
  {
    var hi := Min(i + 4, |lines|);
    ghost var w := Window(lines, i);
    var j := i;
    while j < hi
      invariant i <= j <= hi
      invariant forall m :: 0 <= m < j - i ==> CueValue(w[m], cue).None?
    {
      assert lines[j] == w[j - i];
      var v := CueValue(lines[j], cue);
      if v.Some? {
        FirstCueAt(w, cue, j - i);
        return v;
      }
      j := j + 1;
    }
    FirstCueSpec(w, cue);
    r := None;
  }

  /** The quantity of one occurrence: `qty = 1`, the explicit scan, then the fallback scan when
      `qty == 1`. */
  method QuantityAt(lines: Page, i: nat) returns (qty: nat)
    requires i < |lines|
    ensures qty == QtyFor(lines, i)
  {
    qty := 1;
    var hint := ScanWindow(lines, i, Explicit);
    if hint.Some? {
      qty := hint.value;
    }
    if qty == 1 {
      var implicit := ScanWindow(lines, i, Implicit);
      if implicit.Some? {
        qty := implicit.value;
      }
    }
  }

  // ---------------------------------------------------------------------------------------------
  // Occurrences and running totals

  datatype Hit = Hit(asin: string, qty: nat)

  /** What line `i` of a page contributes: its first ASIN with the window's quantity. */
  function LineHit(lines: Page, i: nat): Option<Hit>
    requires i < |lines|
  {
    match FirstAsin(lines[i])
    case Some(a) => Some(Hit(a, QtyFor(lines, i)))
    case None => None
  }

  /** The occurrences on the first `n` lines of a page, in order. */
  function PageHitsUpTo(lines: Page, n: nat): seq<Hit>
    requires n <= |lines|
  {
    if n == 0 then []
    else PageHitsUpTo(lines, n - 1) + (match LineHit(lines, n - 1) case Some(h) => [h] case None => [])
  }

  function PageHits(lines: Page): seq<Hit> {
    PageHitsUpTo(lines, |lines|)
  }

  /** The concatenation of `g(x)` over `xs`, in order. */
  function FlatMap<T, U>(xs: seq<T>, g: T -> seq<U>): seq<U> {
    if xs == [] then [] else FlatMap(xs[..|xs| - 1], g) + g(xs[|xs| - 1])
  }

  /** The occurrences of a file, page by page. */
  function FileHits(file: File): seq<Hit> {
    FlatMap(file, PageHits)
  }

  /** The occurrences of a batch, file by file. */
  function BatchHits(files: seq<File>): seq<Hit> {
    FlatMap(files, FileHits)
  }

  lemma FlatMapSnoc<T>(xs: seq<T>, n: nat, g: T -> seq<Hit>)
    requires n < |xs|
    ensures FlatMap(xs[..n + 1], g) == FlatMap(xs[..n], g) + g(xs[n])
  {
    assert xs[..n + 1][..n] == xs[..n];
  }

  lemma {:induction false} FlatMapConcat<T, U>(x: seq<T>, y: seq<T>, g: T -> seq<U>)
    ensures FlatMap(x + y, g) == FlatMap(x, g) + FlatMap(y, g)
    decreases |y|
  {
    if y == [] {
      assert x + y == x;
    } else {
      var y' := y[..|y| - 1];
      FlatMapConcat(x, y', g);
      assert (x + y)[..|x + y| - 1] == x + y';
      assert (x + y)[|x + y| - 1] == y[|y| - 1];
      assert FlatMap(x + y, g) == FlatMap(x + y', g) + g(y[|y| - 1]);
      assert FlatMap(y, g) == FlatMap(y', g) + g(y[|y| - 1]);
    }
  }

  lemma FlatMapStep<T>(seen: seq<Hit>, xs: seq<T>, n: nat, g: T -> seq<Hit>, acc: seq<Hit>)
    requires n < |xs| && acc == seen + FlatMap(xs[..n], g)
    ensures acc + g(xs[n]) == seen + FlatMap(xs[..n + 1], g)
  {
    FlatMapSnoc(xs, n, g);
  }

  /** The sum of the quantities of the occurrences of `a`. */
  function SumFor(hits: seq<Hit>, a: string): nat {
    if hits == [] then 0
    else SumFor(hits[..|hits| - 1], a) + (if hits[|hits| - 1].asin == a then hits[|hits| - 1].qty else 0)
  }

  lemma {:induction false} SumForConcat(x: seq<Hit>, y: seq<Hit>, a: string)
    ensures SumFor(x + y, a) == SumFor(x, a) + SumFor(y, a)
    decreases |y|
  {
    if y != [] {
      SumForConcat(x, y[..|y| - 1], a);
      assert (x + y)[..|x + y| - 1] == x + y[..|y| - 1];
    } else {
      assert x + y == x;
    }
  }

  predicate Mentions(hits: seq<Hit>, a: string) {
    exists k :: 0 <= k < |hits| && hits[k].asin == a
  }

  lemma {:induction false} SumForAbsent(hits: seq<Hit>, a: string)
    requires !Mentions(hits, a)
    ensures SumFor(hits, a) == 0
  {
    if hits != [] {
      var prev := hits[..|hits| - 1];
      assert forall k :: 0 <= k < |prev| ==> prev[k] == hits[k];
      SumForAbsent(prev, a);
    }
  }

  lemma MentionsConcat(x: seq<Hit>, y: seq<Hit>, a: string)
    ensures Mentions(x + y, a) <==> Mentions(x, a) || Mentions(y, a)
  {
    if Mentions(x + y, a) {
      var k :| 0 <= k < |x + y| && (x + y)[k].asin == a;
      if k >= |x| { assert y[k - |x|].asin == a; } else { assert x[k].asin == a; }
    }
    if Mentions(x, a) {
      var k :| 0 <= k < |x| && x[k].asin == a;
      assert (x + y)[k] == x[k];
    }
    if Mentions(y, a) {
      var k :| 0 <= k < |y| && y[k].asin == a;
      assert (x + y)[|x| + k] == y[k];
    }
  }

  /** `asin_qty_data[asin] += qty` of a defaultdict(int). */
  function AddHit(m: map<string, int>, h: Hit): map<string, int> {
    m[h.asin := (if h.asin in m then m[h.asin] else 0) + h.qty]
  }

  /** The running totals after all the occurrences, as the defaultdict holds them. */
  function Tally(hits: seq<Hit>): map<string, int> {
    if hits == [] then map[] else AddHit(Tally(hits[..|hits| - 1]), hits[|hits| - 1])
  }

  /** The order of the defaultdict's keys: order of first occurrence. */
  function FirstSeen(hits: seq<Hit>): seq<string> {
    if hits == [] then []
    else
      var o := FirstSeen(hits[..|hits| - 1]);
      var a := hits[|hits| - 1].asin;
      if a in o then o else o + [a]
  }

  lemma MentionsSnoc(hits: seq<Hit>)
    requires hits != []
    ensures forall a :: Mentions(hits, a) <==> Mentions(hits[..|hits| - 1], a) || hits[|hits| - 1].asin == a
  {
    var prev, last := hits[..|hits| - 1], hits[|hits| - 1];
    assert hits == prev + [last];
    forall a { MentionsConcat(prev, [last], a); }
  }

  /** The totals hold one key per ASIN that occurs, even when its quantities are all 0, mapped to
      the sum of all its quantities (repeated lines are not deduplicated). */
  lemma {:induction false} TallyMeaning(hits: seq<Hit>)
    ensures forall a :: a in Tally(hits) <==> Mentions(hits, a)
    ensures forall a :: a in Tally(hits) ==> Tally(hits)[a] == SumFor(hits, a)
  {
    if hits != [] {
      var prev, last := hits[..|hits| - 1], hits[|hits| - 1];
      TallyMeaning(prev);
      MentionsSnoc(hits);
      if last.asin !in Tally(prev) { SumForAbsent(prev, last.asin); }
    }
  }

  /** The key order lists each ASIN that occurs exactly once. */
  lemma {:induction false} FirstSeenMeaning(hits: seq<Hit>)
    ensures forall a :: a in FirstSeen(hits) <==> Mentions(hits, a)
    ensures forall j, k :: 0 <= j < k < |FirstSeen(hits)| ==> FirstSeen(hits)[j] != FirstSeen(hits)[k]
  {
    if hits != [] {
      FirstSeenMeaning(hits[..|hits| - 1]);
      MentionsSnoc(hits);
    }
  }

  /** One `asin_qty_data[asin] += qty` step on the totals and on the key order; a key is new to the
      totals exactly when it is new to the order. */
  lemma TallySnoc(seen: seq<Hit>, h: Hit)
    ensures Tally(seen + [h]) == AddHit(Tally(seen), h)
    ensures h.asin in Tally(seen) <==> h.asin in FirstSeen(seen)
    ensures FirstSeen(seen + [h]) == if h.asin in FirstSeen(seen) then FirstSeen(seen) else FirstSeen(seen) + [h.asin]
  {
    assert (seen + [h])[..|seen|] == seen;
    TallyMeaning(seen);
    FirstSeenMeaning(seen);
  }

  /** The totals of a whole batch. */
  function Totals(files: seq<File>): map<string, int> {
    Tally(BatchHits(files))
  }

  lemma PageHitsStep(seen: seq<Hit>, lines: Page, i: nat, acc: seq<Hit>)
    requires i < |lines| && acc == seen + PageHitsUpTo(lines, i)
    ensures LineHit(lines, i).None? ==> seen + PageHitsUpTo(lines, i + 1) == acc
    ensures LineHit(lines, i).Some? ==> seen + PageHitsUpTo(lines, i + 1) == acc + [LineHit(lines, i).value]
  {
  }

  /** The loop over the lines of one page, continuing the running totals of everything `seen`
      before it. */
  method TallyPage(lines: Page, ghost seen: seq<Hit>, totals0: map<string, int>, order0: seq<string>)
    returns (totals: map<string, int>, order: seq<string>)
    requires totals0 == Tally(seen) && order0 == FirstSeen(seen)
    ensures totals == Tally(seen + PageHits(lines))
    ensures order == FirstSeen(seen + PageHits(lines))
  {
    totals, order := totals0, order0;
    ghost var acc := seen;
    assert seen + PageHitsUpTo(lines, 0) == seen;
    var i := 0;
    while i < |lines|
      invariant 0 <= i <= |lines|
      invariant acc == seen + PageHitsUpTo(lines, i)
      invariant totals == Tally(acc) && order == FirstSeen(acc)
    {
      var asin := FirstAsin(lines[i]);
      if asin.Some? {
        var qty := QuantityAt(lines, i);
        var a := asin.value;
        TallySnoc(acc, Hit(a, qty));
        assert LineHit(lines, i) == Some(Hit(a, qty));
        PageHitsStep(seen, lines, i, acc);
        if a !in totals {
          order := order + [a];
        }
        totals := AddHit(totals, Hit(a, qty));
        acc := acc + [Hit(a, qty)];
      } else {
        assert LineHit(lines, i) == None;
        PageHitsStep(seen, lines, i, acc);
      }
      i := i + 1;
    }
  }

  /** The loop over the pages of one file. */
  method TallyFile(pages: File, ghost seen: seq<Hit>, totals0: map<string, int>, order0: seq<string>)
    returns (totals: map<string, int>, order: seq<string>)
    requires totals0 == Tally(seen) && order0 == FirstSeen(seen)
    ensures totals == Tally(seen + FileHits(pages))
    ensures order == FirstSeen(seen + FileHits(pages))
  {
    totals, order := totals0, order0;
    ghost var acc := seen;
    assert pages[..0] == [];
    var p := 0;
    while p < |pages|
      invariant 0 <= p <= |pages|
      invariant acc == seen + FlatMap(pages[..p], PageHits)
      invariant totals == Tally(acc) && order == FirstSeen(acc)
    {
      totals, order := TallyPage(pages[p], acc, totals, order);
      FlatMapStep(seen, pages, p, PageHits, acc);
      acc := acc + PageHits(pages[p]);
      p := p + 1;
    }
    assert pages[..|pages|] == pages;
    assert acc == seen + FileHits(pages);
  }

  /** The nested loops of the source over files, pages and lines; `totals` is the defaultdict and
      `order` its key order. */
  method ExtractQuantities(files: seq<File>) returns (totals: map<string, int>, order: seq<string>)
    ensures totals == Totals(files)
    ensures order == FirstSeen(BatchHits(files))
  {
    totals, order := map[], [];
    ghost var acc: seq<Hit> := [];
    assert files[..0] == [];
    var f := 0;
    while f < |files|
      invariant 0 <= f <= |files|
      invariant acc == [] + FlatMap(files[..f], FileHits)
      invariant totals == Tally(acc) && order == FirstSeen(acc)
    {
      totals, order := TallyFile(files[f], acc, totals, order);
      FlatMapStep([], files, f, FileHits, acc);
      acc := acc + FileHits(files[f]);
      f := f + 1;
    }
    assert files[..|files|] == files;
    assert acc == BatchHits(files);
  }

  // ---------------------------------------------------------------------------------------------
  // Order independence

  /** The sum over `xs` of the total of `a` in `g(x)`. */
  function SumOver<T>(xs: seq<T>, g: T -> seq<Hit>, a: string): nat {
    if xs == [] then 0 else SumOver(xs[..|xs| - 1], g, a) + SumFor(g(xs[|xs| - 1]), a)
  }

  lemma {:induction false} SumOverConcat<T>(x: seq<T>, y: seq<T>, g: T -> seq<Hit>, a: string)
    ensures SumOver(x + y, g, a) == SumOver(x, g, a) + SumOver(y, g, a)
    decreases |y|
  {
    if y == [] {
      assert x + y == x;
    } else {
      SumOverConcat(x, y[..|y| - 1], g, a);
      assert (x + y)[..|x + y| - 1] == x + y[..|y| - 1];
    }
  }

  /** The total of a concatenation is the sum of the parts' totals. */
  lemma {:induction false} FlatMapSum<T>(xs: seq<T>, g: T -> seq<Hit>, a: string)
    ensures SumFor(FlatMap(xs, g), a) == SumOver(xs, g, a)
  {
    if xs != [] {
      FlatMapSum(xs[..|xs| - 1], g, a);
      SumForConcat(FlatMap(xs[..|xs| - 1], g), g(xs[|xs| - 1]), a);
    }
  }

  /** Reordering the parts does not change the sum. */
  lemma {:induction false} SumOverPermutation<T>(x: seq<T>, y: seq<T>, g: T -> seq<Hit>, a: string)
    requires multiset(x) == multiset(y)
    ensures SumOver(x, g, a) == SumOver(y, g, a)
    decreases |x|
  {
    if x == [] {
      assert |y| == |multiset(y)| == 0;
    } else {
      var n := |x| - 1;
      var last := x[n];
      assert x == x[..n] + [last];
      assert multiset(x) == multiset(x[..n]) + multiset{last};
      assert last in multiset(y);
      var i :| 0 <= i < |y| && y[i] == last;
      var rest := y[..i] + y[i + 1..];
      assert y == y[..i] + [last] + y[i + 1..];
      calc {
        multiset(y);
        multiset(y[..i] + [last] + y[i + 1..]);
        multiset(y[..i] + [last]) + multiset(y[i + 1..]);
        multiset(y[..i]) + multiset([last]) + multiset(y[i + 1..]);
        multiset(rest) + multiset{last};
      }
      assert multiset(x[..n]) == multiset(x) - multiset{last};
      assert multiset(rest) == multiset(y) - multiset{last};
      SumOverPermutation(x[..n], rest, g, a);
      SumOverConcat(y[..i] + [last], y[i + 1..], g, a);
      SumOverConcat(y[..i], [last], g, a);
      SumOverConcat(y[..i], y[i + 1..], g, a);
      assert [last][..0] == [];
    }
  }

  /** An ASIN is mentioned in a concatenation iff it is mentioned in one of the parts. */
  lemma {:induction false} FlatMapMentions<T>(xs: seq<T>, g: T -> seq<Hit>, a: string)
    ensures Mentions(FlatMap(xs, g), a) <==> exists i :: 0 <= i < |xs| && Mentions(g(xs[i]), a)
  {
    if xs != [] {
      var n := |xs| - 1;
      FlatMapMentions(xs[..n], g, a);
      MentionsConcat(FlatMap(xs[..n], g), g(xs[n]), a);
      assert forall i :: 0 <= i < n ==> xs[..n][i] == xs[i];
    }
  }

  /** Processing the same invoices in any order gives the same totals. */
  lemma TotalsOrderIndependent(x: seq<File>, y: seq<File>)
    requires multiset(x) == multiset(y)
    ensures Totals(x) == Totals(y)
  {
    var tx, ty := Totals(x), Totals(y);
    TallyMeaning(BatchHits(x));
    TallyMeaning(BatchHits(y));
    forall a ensures a in tx <==> a in ty {
      FlatMapMentions(x, FileHits, a);
      FlatMapMentions(y, FileHits, a);
      if a in tx {
        var i :| 0 <= i < |x| && Mentions(FileHits(x[i]), a);
        assert x[i] in multiset(y);
        var j :| 0 <= j < |y| && y[j] == x[i];
      }
      if a in ty {
        var i :| 0 <= i < |y| && Mentions(FileHits(y[i]), a);
        assert y[i] in multiset(x);
        var j :| 0 <= j < |x| && x[j] == y[i];
      }
    }
    forall a | a in tx ensures tx[a] == ty[a] {
      FlatMapSum(x, FileHits, a);
      FlatMapSum(y, FileHits, a);
      SumOverPermutation(x, y, FileHits, a);
    }
  }

  /** Uploading the same invoice twice counts each of its quantities twice. */
  lemma DuplicateFileCountsTwice(file: File, a: string)
    requires a in Totals([file])
    ensures a in Totals([file, file]) && Totals([file, file])[a] == 2 * Totals([file])[a]
  {
    assert [file, file] == [file] + [file];
    FlatMapConcat([file], [file], FileHits);
    SumForConcat(BatchHits([file]), BatchHits([file]), a);
    MentionsConcat(BatchHits([file]), BatchHits([file]), a);
    TallyMeaning(BatchHits([file]));
    TallyMeaning(BatchHits([file, file]));
  }

  // ---------------------------------------------------------------------------------------------
  // The packing plan: left join of the totals with the master table

  /** A row of the master table; a missing cell is None. */
  datatype MasterRow = MasterRow(asin: string, name: Option<string>, netWeight: Option<string>,
                                 packetSize: Option<string>, mrp: Option<string>, fnsku: Option<string>)

  /** A row of the packing plan, projected to item, weight, Qty, Packet Size, ASIN, MRP, FNSKU. */
  datatype PlanRow = PlanRow(item: Option<string>, weight: Option<string>, qty: int,
                             packetSize: Option<string>, asin: string, mrp: Option<string>,
                             fnsku: Option<string>)

  /** `order` lists the keys of `totals`, each once, as a dict's key order does. */
  predicate KeyOrder(totals: map<string, int>, order: seq<string>) {
    && (forall a :: a in order ==> a in totals)
    && (forall a :: a in totals ==> a in order)
    && (forall j, k :: 0 <= j < k < |order| ==> order[j] != order[k])
  }

  /** The totals and key order the extraction leaves form a dict. */
  lemma ExtractedKeyOrder(files: seq<File>)
    ensures KeyOrder(Totals(files), FirstSeen(BatchHits(files)))
  {
    TallyMeaning(BatchHits(files));
    FirstSeenMeaning(BatchHits(files));
  }

  /** `[{"ASIN": asin, "Qty": qty} for asin, qty in asin_qty_data.items()]`: the ASIN column holds
      every key of the totals exactly once, in key order, and each row's Qty is its ASIN's total. */
  function ExtractedRows(totals: map<string, int>, order: seq<string>): (rows: seq<(string, int)>)
    requires KeyOrder(totals, order)
    ensures forall a :: a in totals <==> exists k :: 0 <= k < |rows| && rows[k].0 == a
    ensures forall j, k :: 0 <= j < k < |rows| ==> rows[j].0 != rows[k].0
    ensures forall k :: 0 <= k < |rows| ==> rows[k].0 in totals && rows[k].1 == totals[rows[k].0]
    ensures |rows| == |order| && forall k :: 0 <= k < |rows| ==> rows[k].0 == order[k]
  {
    var rows := seq(|order|, k requires 0 <= k < |order| => (order[k], totals[order[k]]));
    assert forall a :: a in order ==> exists k :: 0 <= k < |rows| && rows[k].0 == a by {
      forall a | a in order ensures exists k :: 0 <= k < |rows| && rows[k].0 == a {
        var k :| 0 <= k < |order| && order[k] == a;
        assert rows[k].0 == a;
      }
    }
    rows
  }

  /** The master rows with the given ASIN, in table order. */
  function MatchingRows(master: seq<MasterRow>, asin: string): (m: seq<MasterRow>)
    ensures forall r :: r in m ==> r in master && r.asin == asin
    ensures forall r :: r in master && r.asin == asin ==> r in m
  {
    if master == [] then []
    else
      var rest := MatchingRows(master[1..], asin);
      if master[0].asin == asin then [master[0]] + rest else rest
  }

  /** The plan rows that one extracted row produces: one per matching master row, or one row with
      empty master columns when there is no match. */
  function JoinRow(asin: string, qty: int, master: seq<MasterRow>): (rows: seq<PlanRow>)
    ensures |rows| >= 1
    ensures forall r :: r in rows ==> r.asin == asin && r.qty == qty
    ensures MatchingRows(master, asin) == [] ==>
              rows == [PlanRow(None, None, qty, None, asin, None, None)]
    ensures MatchingRows(master, asin) != [] ==>
              |rows| == |MatchingRows(master, asin)|
              && forall k :: 0 <= k < |rows| ==>
                   var mr := MatchingRows(master, asin)[k];
                   rows[k] == PlanRow(mr.name, mr.netWeight, qty, mr.packetSize, asin, mr.mrp, mr.fnsku)
  {
    var m := MatchingRows(master, asin);
    if m == [] then [PlanRow(None, None, qty, None, asin, None, None)]
    else seq(|m|, k requires 0 <= k < |m| =>
               PlanRow(m[k].name, m[k].netWeight, qty, m[k].packetSize, asin, m[k].mrp, m[k].fnsku))
  }

  /** A plan row carries its master row's item, weight, packet size, MRP and FNSKU, or none of
      them when the master table does not know its ASIN. */
  predicate JoinedFrom(r: PlanRow, master: seq<MasterRow>) {
    if MatchingRows(master, r.asin) == [] then
      r.item.None? && r.weight.None? && r.packetSize.None? && r.mrp.None? && r.fnsku.None?
    else
      exists m :: m in master && m.asin == r.asin
                  && r == PlanRow(m.name, m.netWeight, r.qty, m.packetSize, r.asin, m.mrp, m.fnsku)
  }

  /** The join rows of one extracted row. */
  function JoinWith(master: seq<MasterRow>): ((string, int)) -> seq<PlanRow> {
    (e: (string, int)) => JoinRow(e.0, e.1, master)
  }

  /** The left merge of the extracted rows with the master table, followed by the projection. */
  function MergeRows(extracted: seq<(string, int)>, master: seq<MasterRow>): seq<PlanRow> {
    FlatMap(extracted, JoinWith(master))
  }

  /** Every extracted row yields at least one plan row, and every plan row carries an extracted
      row's ASIN and quantity and is joined from the master table. */
  lemma {:induction false} MergeRowsSpec(extracted: seq<(string, int)>, master: seq<MasterRow>)
    ensures var plan := MergeRows(extracted, master);
            && |plan| >= |extracted|
            && (forall r :: r in plan ==> (r.asin, r.qty) in extracted && JoinedFrom(r, master))
            && (forall e :: e in extracted ==> exists r :: r in plan && (r.asin, r.qty) == e)
  {
    if extracted != [] {
      var n := |extracted| - 1;
      var init, last := extracted[..n], extracted[n];
      var head := MergeRows(init, master);
      var tail := JoinRow(last.0, last.1, master);
      MergeRowsSpec(init, master);
      assert MergeRows(extracted, master) == head + tail;
      assert forall e :: e in extracted <==> e == last || e in init;
      assert tail[0] in head + tail;
      JoinRowJoined(last, master);
      assert forall r :: r in head ==> r in head + tail;
    }
  }

  lemma JoinRowJoined(e: (string, int), master: seq<MasterRow>)
    ensures forall r :: r in JoinRow(e.0, e.1, master) ==> JoinedFrom(r, master)
  {
    var rows := JoinRow(e.0, e.1, master);
    forall r | r in rows ensures JoinedFrom(r, master) {
      var m := MatchingRows(master, e.0);
      if m != [] {
        var k :| 0 <= k < |rows| && rows[k] == r;
        assert m[k] in m;
      }
    }
  }

  /** The merge keeps the extracted rows' order: an extracted row contributes its own join rows at
      its own place. */
  lemma MergeRowsSplit(x: seq<(string, int)>, e: (string, int), y: seq<(string, int)>, master: seq<MasterRow>)
    ensures MergeRows(x + [e] + y, master) == MergeRows(x, master) + JoinRow(e.0, e.1, master) + MergeRows(y, master)
  {
    var g := JoinWith(master);
    FlatMapConcat(x + [e], y, g);
    FlatMapConcat(x, [e], g);
    assert [e][..0] == [];
    assert FlatMap([e], g) == g(e);
  }

  /** Why the plan cannot be built. */
  datatype PlanError =
    | NoAsinColumn  // no ASIN was found: the empty extracted table has no "ASIN" column to merge on

  /** `pd.merge(extracted_df, master_df, on="ASIN", how="left")` followed by the projection. With
      no extracted row the merge raises KeyError; otherwise the plan is the row-by-row left join. */
  function PackingPlan(extracted: seq<(string, int)>, master: seq<MasterRow>): (r: Result<seq<PlanRow>, PlanError>)
    ensures r.Err? <==> extracted == []
    ensures r.Ok? ==> var plan := r.value;
              && |plan| >= |extracted|
              && (forall row :: row in plan ==> (row.asin, row.qty) in extracted && JoinedFrom(row, master))
              && (forall e :: e in extracted ==> exists row :: row in plan && (row.asin, row.qty) == e)
              && (forall i :: 0 <= i < |extracted| ==>
                    plan == MergeRows(extracted[..i], master) + JoinRow(extracted[i].0, extracted[i].1, master)
                            + MergeRows(extracted[i + 1..], master))
  {
    MergeRowsSpec(extracted, master);
    forall i | 0 <= i < |extracted|
      ensures MergeRows(extracted, master) == MergeRows(extracted[..i], master)
                + JoinRow(extracted[i].0, extracted[i].1, master) + MergeRows(extracted[i + 1..], master)
    {
      assert extracted[..i] + [extracted[i]] + extracted[i + 1..] == extracted;
      MergeRowsSplit(extracted[..i], extracted[i], extracted[i + 1..], master);
    }
    if extracted == [] then Err(NoAsinColumn) else Ok(MergeRows(extracted, master))
  }

  /** Every extracted ASIN reaches the plan with its total, whether or not the master table knows
      it. */
  lemma PlanKeepsEveryAsin(totals: map<string, int>, order: seq<string>, master: seq<MasterRow>, a: string)
    requires KeyOrder(totals, order)
    requires a in totals
    ensures PackingPlan(ExtractedRows(totals, order), master).Ok?
    ensures exists r :: r in PackingPlan(ExtractedRows(totals, order), master).value
                        && r.asin == a && r.qty == totals[a]
  {
    var rows := ExtractedRows(totals, order);
    var k :| 0 <= k < |rows| && rows[k].0 == a;
    var plan := PackingPlan(rows, master).value;
    assert rows[k] in rows && rows[k] == (a, totals[a]);
    assert exists r :: r in plan && (r.asin, r.qty) == rows[k];
    var r :| r in plan && (r.asin, r.qty) == rows[k];
    assert r.asin == a && r.qty == totals[a];
  }
}
