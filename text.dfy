/**
 * Character classes and the few string operations of Python that the tools rely on:
 * `str.split()`, `' '.join`, `str.strip()`, `str.isdigit()`, `int(...)` of a digit string,
 * `str(n)` of a natural number, and the ordering Python uses to compare strings.
 * Character classes are restricted to ASCII (see README, "Left out").
 */
module Text {

  predicate IsDigit(c: char) { '0' <= c <= '9' }
  predicate IsUpper(c: char) { 'A' <= c <= 'Z' }
  predicate IsLower(c: char) { 'a' <= c <= 'z' }
  predicate IsLetter(c: char) { IsUpper(c) || IsLower(c) }
  predicate IsAlnum(c: char) { IsLetter(c) || IsDigit(c) }

  /** Python's `\w` on ASCII. */
  predicate IsWordChar(c: char) { IsAlnum(c) || c == '_' }

  /** Python's `\s` and `str.isspace()` on ASCII: space, \t \n \v \f \r and \x1c-\x1f. */
  predicate IsSpace(c: char) {
    c == ' ' || ('\t' <= c <= '\r') || ('\U{1C}' <= c <= '\U{1F}')
  }

  /** The character classes whose maximal runs the hand-written regular expressions consume. */
  datatype CharKind = Digit | NonDigit | Space | NonSpace | Letter | NonWord | AmountChar

  predicate InKind(c: char, k: CharKind) {
    match k
    case Digit => IsDigit(c)
    case NonDigit => !IsDigit(c)
    case Space => IsSpace(c)
    case NonSpace => !IsSpace(c)
    case Letter => IsLetter(c)
    case NonWord => !IsWordChar(c)
    case AmountChar => IsDigit(c) || c == ',' || c == '.'  // [\d,.]
  }

  /** End of the maximal run of `k` characters starting at `i`. */
  function Span(s: string, i: nat, k: CharKind): (j: nat)
    requires i <= |s|
    ensures i <= j <= |s|
    ensures forall m :: i <= m < j ==> InKind(s[m], k)
    ensures j == |s| || !InKind(s[j], k)
    decreases |s| - i
  {
    if i == |s| || !InKind(s[i], k) then i else Span(s, i + 1, k)
  }

  /** `str.isdigit()`: non-empty and every character a digit. */
  predicate IsDigits(s: string) {
    |s| > 0 && forall i :: 0 <= i < |s| ==> IsDigit(s[i])
  }

  /** `int(s)` for a string of digits (leading zeros allowed). */
  function DigitsValue(s: string): nat
    requires forall i :: 0 <= i < |s| ==> IsDigit(s[i])
  {
    if s == [] then 0
    else DigitsValue(s[..|s| - 1]) * 10 + DigitValue(s[|s| - 1])
  }

  function DigitValue(c: char): nat
    requires IsDigit(c)
  {
    c as int - '0' as int
  }

  function DigitChar(d: nat): (c: char)
    requires d < 10
    ensures IsDigit(c) && c as int - '0' as int == d
  {
    ('0' as int + d) as char
  }

  /** `str(n)` for a natural number: its decimal digits, no leading zero. */
  function NatToString(n: nat): (s: string)
    ensures IsDigits(s)
    ensures n < 10 <==> |s| == 1
    ensures |s| > 1 ==> s[0] != '0'
  {
    if n < 10 then [DigitChar(n)] else NatToString(n / 10) + [DigitChar(n % 10)]
  }

  /** `str(n)` is read back by `int(...)`. */
  lemma {:induction false} NatToStringRoundTrip(n: nat)
    ensures DigitsValue(NatToString(n)) == n
  {
    if n >= 10 {
      NatToStringRoundTrip(n / 10);
      var s := NatToString(n);
      assert s[..|s| - 1] == NatToString(n / 10);
    }
  }

  /** The number of digits of `str(n)` for the three-digit range. */
  lemma {:induction false} NatToStringLength(n: nat)
    ensures n < 10 ==> |NatToString(n)| == 1
    ensures 10 <= n < 100 ==> |NatToString(n)| == 2
    ensures 100 <= n < 1000 ==> |NatToString(n)| == 3
  {
    if n >= 10 { NatToStringLength(n / 10); }
  }

  /** `sub in s`. */
  predicate OccursAt(s: string, sub: string, i: int) {
    0 <= i && i + |sub| <= |s| && s[i..i + |sub|] == sub
  }

  predicate Contains(s: string, sub: string) {
    exists i | 0 <= i <= |s| - |sub| :: OccursAt(s, sub, i)
  }

  predicate HasDigit(s: string) {
    exists i | 0 <= i < |s| :: IsDigit(s[i])
  }

  /** A word of `str.split()`: non-empty, no whitespace. */
  predicate IsToken(w: string) {
    |w| > 0 && forall i :: 0 <= i < |w| ==> !IsSpace(w[i])
  }

  /** `s.split()`: the maximal runs of non-whitespace characters, in order. */
  function Words(s: string): (ws: seq<string>)
    ensures forall k :: 0 <= k < |ws| ==> IsToken(ws[k])
    decreases |s|
  {
    if s == [] then []
    else if IsSpace(s[0]) then Words(s[1..])
    else
      var n := Span(s, 0, NonSpace);
      [s[..n]] + Words(s[n..])
  }

  predicate AllSpace(g: string) {
    forall i :: 0 <= i < |g| ==> IsSpace(g[i])
  }

  /** `gaps[0] + ws[0] + gaps[1] + ... + ws[n - 1] + gaps[n]`. */
  function Interleave(gaps: seq<string>, ws: seq<string>): string
    requires |gaps| == |ws| + 1
    decreases |ws|
  {
    if ws == [] then gaps[0] else gaps[0] + (ws[0] + Interleave(gaps[1..], ws[1..]))
  }

  /** Separators for `ws`: runs of whitespace, one before each word and one after the last, those
      between two words non-empty. */
  predicate Separators(gaps: seq<string>, ws: seq<string>) {
    && |gaps| == |ws| + 1
    && (forall k :: 0 <= k < |gaps| ==> AllSpace(gaps[k]))
    && (forall k :: 0 < k < |ws| ==> |gaps[k]| > 0)
  }

  /** The whitespace runs around the words of `s`. */
  function Gaps(s: string): seq<string>
    decreases |s|
  {
    if s == [] then [""]
    else if IsSpace(s[0]) then
      var g := Gaps(s[1..]);
      [[s[0]] + g[0]] + g[1..]
    else [""] + Gaps(s[Span(s, 0, NonSpace)..])
  }

  /** `s` is its words separated by the runs `Gaps(s)`. */
  lemma {:induction false} GapsSpec(s: string)
    ensures Separators(Gaps(s), Words(s)) && Interleave(Gaps(s), Words(s)) == s
    ensures |s| > 0 && IsSpace(s[0]) ==> |Gaps(s)[0]| > 0
    decreases |s|
  {
    if s == [] {
    } else if IsSpace(s[0]) {
      GapsSpec(s[1..]);
      GapsAfterSpace(s);
    } else {
      var n := Span(s, 0, NonSpace);
      GapsSpec(s[n..]);
      GapsAfterWord(s, n);
    }
  }

  lemma GapsAfterSpace(s: string)
    requires |s| > 0 && IsSpace(s[0])
    requires Separators(Gaps(s[1..]), Words(s[1..])) && Interleave(Gaps(s[1..]), Words(s[1..])) == s[1..]
    ensures Separators(Gaps(s), Words(s)) && Interleave(Gaps(s), Words(s)) == s
    ensures |Gaps(s)[0]| > 0
  {
    var g := Gaps(s[1..]);
    var ws := Words(s[1..]);
    assert Words(s) == ws;
    assert Gaps(s) == [[s[0]] + g[0]] + g[1..];
    InterleaveWiden([s[0]], g, ws);
    assert s == [s[0]] + s[1..];
  }

  /** Widening the first separator by a prefix of whitespace prefixes the whole string. */
  lemma InterleaveWiden(x: string, g: seq<string>, ws: seq<string>)
    requires AllSpace(x) && Separators(g, ws)
    ensures Separators([x + g[0]] + g[1..], ws)
    ensures Interleave([x + g[0]] + g[1..], ws) == x + Interleave(g, ws)
  {
    var gaps := [x + g[0]] + g[1..];
    assert gaps[1..] == g[1..];
    forall k | 0 <= k < |gaps| ensures AllSpace(gaps[k]) {
      if k > 0 { assert gaps[k] == g[k]; }
    }
  }

  lemma GapsAfterWord(s: string, n: nat)
    requires |s| > 0 && !IsSpace(s[0]) && n == Span(s, 0, NonSpace)
    requires Separators(Gaps(s[n..]), Words(s[n..])) && Interleave(Gaps(s[n..]), Words(s[n..])) == s[n..]
    requires |s[n..]| > 0 && IsSpace(s[n..][0]) ==> |Gaps(s[n..])[0]| > 0
    ensures Separators(Gaps(s), Words(s)) && Interleave(Gaps(s), Words(s)) == s
  {
    var g := Gaps(s[n..]);
    var ws := Words(s[n..]);
    var gaps, w := Gaps(s), Words(s);
    assert gaps == [""] + g;
    assert w == [s[..n]] + ws;
    assert gaps[1..] == g && w[1..] == ws;
    assert ws != [] ==> |g[0]| > 0;
    forall k | 0 <= k < |gaps| ensures AllSpace(gaps[k]) && (0 < k < |w| ==> |gaps[k]| > 0) {
      if k > 0 {
        assert gaps[k] == g[k - 1];
      }
    }
    assert "" + (s[..n] + s[n..]) == s;
  }

  /** Leading whitespace does not change the words. */
  lemma {:induction false} WordsAfterSpaces(g: string, rest: string)
    requires AllSpace(g)
    ensures Words(g + rest) == Words(rest)
    decreases |g|
  {
    if g != [] {
      assert (g + rest)[1..] == g[1..] + rest;
      WordsAfterSpaces(g[1..], rest);
    } else {
      assert g + rest == rest;
    }
  }

  /** Dropping the first separator and word leaves separators for the other words. */
  lemma SeparatedTail(gaps: seq<string>, ws: seq<string>)
    requires Separators(gaps, ws) && |ws| > 0
    ensures Separators(gaps[1..], ws[1..])
  {
    forall k | 0 <= k < |gaps| - 1 ensures AllSpace(gaps[1..][k]) {
      assert gaps[1..][k] == gaps[k + 1];
    }
    forall k | 0 < k < |ws| - 1 ensures |gaps[1..][k]| > 0 {
      assert gaps[1..][k] == gaps[k + 1];
    }
  }

  /** After the first word, the rest of an interleaving is empty or starts with whitespace. */
  lemma RestStartsSpace(gaps: seq<string>, ws: seq<string>)
    requires Separators(gaps, ws) && |ws| > 0
    ensures var r := Interleave(gaps[1..], ws[1..]); r == [] || IsSpace(r[0])
  {
    var g := gaps[1..];
    var r := Interleave(g, ws[1..]);
    assert g[0] == gaps[1] && AllSpace(gaps[1]);
    if |ws| > 1 {
      assert |gaps[1]| > 0;
      assert r[0] == gaps[1][0];
    }
  }

  /** Any way of writing `s` as tokens separated by whitespace runs gives exactly `s.split()`. */
  lemma {:induction false} WordsOfSeparated(gaps: seq<string>, ws: seq<string>)
    requires Separators(gaps, ws) && forall k :: 0 <= k < |ws| ==> IsToken(ws[k])
    ensures Words(Interleave(gaps, ws)) == ws
    decreases |ws|
  {
    if ws == [] {
      WordsAfterSpaces(gaps[0], "");
      assert gaps[0] + "" == gaps[0];
    } else {
      SeparatedTail(gaps, ws);
      RestStartsSpace(gaps, ws);
      var r := Interleave(gaps[1..], ws[1..]);
      WordsAfterSpaces(gaps[0], ws[0] + r);
      WordsOfSingleToken(ws[0], r);
      WordsOfSeparated(gaps[1..], ws[1..]);
      assert ws == [ws[0]] + ws[1..];
    }
  }

  /** `s.split()` is the unique list of tokens that, separated by runs of whitespace (non-empty
      between two tokens), make up `s`. */
  lemma WordsSpec(s: string)
    ensures exists gaps :: Separators(gaps, Words(s)) && Interleave(gaps, Words(s)) == s
    ensures forall gaps, ws {:trigger Interleave(gaps, ws)} ::
              (forall k :: 0 <= k < |ws| ==> IsToken(ws[k])) && Separators(gaps, ws) && Interleave(gaps, ws) == s
              ==> ws == Words(s)
  {
    GapsSpec(s);
    forall gaps, ws | (forall k :: 0 <= k < |ws| ==> IsToken(ws[k])) && Separators(gaps, ws) && Interleave(gaps, ws) == s
      ensures ws == Words(s)
    {
      WordsOfSeparated(gaps, ws);
    }
  }

  /** `' '.join(ws)`. */
  function Join(ws: seq<string>): string {
    if ws == [] then ""
    else if |ws| == 1 then ws[0]
    else ws[0] + " " + Join(ws[1..])
  }

  /** A string as `' '.join(s.split())` leaves it: only ' ' as whitespace, never two in a row,
      none at the start. */
  predicate SingleSpaced(s: string) {
    && (forall i :: 0 <= i < |s| && IsSpace(s[i]) ==> s[i] == ' ')
    && (forall i :: 0 < i < |s| && s[i] == ' ' ==> s[i - 1] != ' ')
    && (|s| > 0 ==> s[0] != ' ')
  }

  /** Joining tokens with single spaces gives a single-spaced string without a trailing space. */
  lemma {:induction false} JoinSingleSpaced(ws: seq<string>)
    requires forall k :: 0 <= k < |ws| ==> IsToken(ws[k])
    ensures SingleSpaced(Join(ws))
    ensures |Join(ws)| > 0 ==> Join(ws)[|Join(ws)| - 1] != ' '
    ensures |ws| > 0 ==> |Join(ws)| > 0
  {
    if |ws| > 1 {
      JoinSingleSpaced(ws[1..]);
      var w, j := ws[0], Join(ws[1..]);
      assert Join(ws) == w + " " + j;
      assert IsToken(w);
      var s := Join(ws);
      assert forall i :: 0 <= i < |w| ==> s[i] == w[i];
      assert forall i :: |w| < i < |s| ==> s[i] == j[i - |w| - 1];
      assert s[|w|] == ' ';
    }
  }

  /** A token followed by nothing or by whitespace splits into that token and the rest's words. */
  lemma {:induction false} WordsOfSingleToken(w: string, rest: string)
    requires IsToken(w)
    requires rest == [] || IsSpace(rest[0])
    ensures Words(w + rest) == [w] + Words(rest)
  {
    var s := w + rest;
    var n := Span(s, 0, NonSpace);
    assert forall m :: 0 <= m < |w| ==> s[m] == w[m];
    assert |w| == |s| || s[|w|] == rest[0];
    assert n == |w|;
    assert s[..n] == w;
    assert s[n..] == rest;
  }

  /** Splitting undoes joining: `' '.join(ws).split() == ws` for tokens. */
  lemma {:induction false} WordsJoin(ws: seq<string>)
    requires forall k :: 0 <= k < |ws| ==> IsToken(ws[k])
    ensures Words(Join(ws)) == ws
  {
    if |ws| == 1 {
      WordsOfSingleToken(ws[0], "");
      assert ws[0] + "" == ws[0];
    } else if |ws| > 1 {
      WordsJoin(ws[1..]);
      var rest := " " + Join(ws[1..]);
      assert Join(ws) == ws[0] + rest;
      WordsOfSingleToken(ws[0], rest);
      assert rest[1..] == Join(ws[1..]);
      assert ws == [ws[0]] + ws[1..];
    }
  }

  /** `s.lstrip()` */
  function TrimStart(s: string): string {
    if |s| > 0 && IsSpace(s[0]) then TrimStart(s[1..]) else s
  }

  /** `s.rstrip()` */
  function TrimEnd(s: string): string {
    if |s| > 0 && IsSpace(s[|s| - 1]) then TrimEnd(s[..|s| - 1]) else s
  }

  lemma {:induction false} TrimStartSpec(s: string)
    ensures |TrimStart(s)| <= |s| && TrimStart(s) == s[|s| - |TrimStart(s)|..]
    ensures TrimStart(s) == [] || !IsSpace(TrimStart(s)[0])
    ensures forall i :: 0 <= i < |s| - |TrimStart(s)| ==> IsSpace(s[i])
  {
    if |s| > 0 && IsSpace(s[0]) {
      TrimStartSpec(s[1..]);
    }
  }

  lemma {:induction false} TrimEndSpec(s: string)
    ensures |TrimEnd(s)| <= |s| && TrimEnd(s) == s[..|TrimEnd(s)|]
    ensures TrimEnd(s) == [] || !IsSpace(TrimEnd(s)[|TrimEnd(s)| - 1])
    ensures forall i :: |TrimEnd(s)| <= i < |s| ==> IsSpace(s[i])
  {
    if |s| > 0 && IsSpace(s[|s| - 1]) {
      TrimEndSpec(s[..|s| - 1]);
    }
  }

  /** `s.strip()`. */
  function Strip(s: string): string {
    TrimEnd(TrimStart(s))
  }

  /** `s.strip()` is `s` without its leading and trailing whitespace. */
  lemma StripSpec(s: string)
    ensures exists a, b :: 0 <= a <= b <= |s| && Strip(s) == s[a..b]
                           && (forall i :: 0 <= i < a ==> IsSpace(s[i]))
                           && (forall i :: b <= i < |s| ==> IsSpace(s[i]))
    ensures Strip(s) == [] || (!IsSpace(Strip(s)[0]) && !IsSpace(Strip(s)[|Strip(s)| - 1]))
  {
    TrimStartSpec(s);
    var t := TrimStart(s);
    TrimEndSpec(t);
    var a := |s| - |t|;
    var r := Strip(s);
    assert r == s[a..a + |r|];
    assert forall i :: a + |r| <= i < |s| ==> s[i] == t[i - a];
  }

  /** Python's `<` on strings: lexicographic by code point, a proper prefix first. */
  predicate StrLess(a: string, b: string)
    decreases |a|
  {
    if a == [] then b != []
    else if b == [] then false
    else if a[0] != b[0] then a[0] < b[0]
    else StrLess(a[1..], b[1..])
  }

  lemma {:induction false} StrLessIrreflexive(a: string)
    ensures !StrLess(a, a)
  {
    if a != [] { StrLessIrreflexive(a[1..]); }
  }

  lemma {:induction false} StrLessTransitive(a: string, b: string, c: string)
    requires StrLess(a, b) && StrLess(b, c)
    ensures StrLess(a, c)
    decreases |a|
  {
    if a != [] && b != [] && c != [] && a[0] == b[0] && b[0] == c[0] {
      StrLessTransitive(a[1..], b[1..], c[1..]);
    }
  }

  lemma {:induction false} StrLessTotal(a: string, b: string)
    ensures a == b || StrLess(a, b) || StrLess(b, a)
    decreases |a|
  {
    if a != [] && b != [] && a[0] == b[0] {
      StrLessTotal(a[1..], b[1..]);
      if a[1..] == b[1..] {
        assert a == [a[0]] + a[1..] && b == [b[0]] + b[1..];
      }
    }
  }

  lemma {:induction false} StrLessAsymmetric(a: string, b: string)
    requires StrLess(a, b)
    ensures !StrLess(b, a)
  {
    if StrLess(b, a) {
      StrLessTransitive(a, b, a);
      StrLessIrreflexive(a);
    }
  }

  /** `c.upper()` on ASCII. */
  function UpperChar(c: char): (u: char)
    ensures IsLower(c) ==> IsUpper(u) && u as int == c as int - 32
    ensures !IsLower(c) ==> u == c
  {
    if IsLower(c) then (c as int - 32) as char else c
  }

  function Upper(s: string): (u: string)
    ensures |u| == |s| && forall i :: 0 <= i < |s| ==> u[i] == UpperChar(s[i])
  {
    seq(|s|, i requires 0 <= i < |s| => UpperChar(s[i]))
  }
}
