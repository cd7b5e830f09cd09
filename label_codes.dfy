/**
 * The string rules of the label generator: the file-name sanitiser and the batch code printed on
 * each MRP label (product prefix, `ddmmyy` date code, zero-padded serial). The date and the random
 * serial are parameters; the PDF drawing around them is not modelled.
 */
module LabelCodes {
  import opened Text

  // ---------------------------------------------------------------------------------------------
  // sanitize_filename

  /** Every character is a word character (`\w`). */
  predicate AllWordChars(s: string) {
    forall i :: 0 <= i < |s| ==> IsWordChar(s[i])
  }

  /** `re.sub(r'\W+', '_', name)`: each maximal run of non-word characters becomes one '_'. */
  function SanitizeFilename(name: string): string
    decreases |name|
  {
    if name == [] then ""
    else if IsWordChar(name[0]) then [name[0]] + SanitizeFilename(name[1..])
    else
      var n := Span(name, 0, NonWord);
      "_" + SanitizeFilename(name[n..])
  }

  /** A character-by-character reading of the same substitution: a word character is copied; a
      non-word character becomes '_' when it opens a run and vanishes when it continues one. */
  function Underscored(s: string, inRun: bool): string
    decreases |s|
  {
    if s == [] then ""
    else if IsWordChar(s[0]) then [s[0]] + Underscored(s[1..], false)
    else (if inRun then "" else "_") + Underscored(s[1..], true)
  }

  /** Inside a run, the rest of the run vanishes. */
  lemma {:induction false} UnderscoredSkipsRun(s: string, n: nat)
    requires n <= |s| && forall m :: 0 <= m < n ==> !IsWordChar(s[m])
    ensures Underscored(s, true) == Underscored(s[n..], true)
    decreases n
  {
    if n > 0 {
      UnderscoredSkipsRun(s[1..], n - 1);
      assert s[1..][n - 1..] == s[n..];
    }
  }

  /** The substitution agrees with the character-by-character reading. */
  lemma {:induction false} SanitizeIsUnderscored(name: string)
    ensures SanitizeFilename(name) == Underscored(name, false)
    decreases |name|
  {
    if name != [] {
      if IsWordChar(name[0]) {
        SanitizeIsUnderscored(name[1..]);
      } else {
        var n := Span(name, 0, NonWord);
        var rest := name[n..];
        SanitizeIsUnderscored(rest);
        UnderscoredSkipsRun(name[1..], n - 1);
        assert name[1..][n - 1..] == rest;
        assert rest == [] || IsWordChar(rest[0]);
        if rest != [] {
          assert Underscored(rest, true) == Underscored(rest, false);
        }
      }
    }
  }

  /** The result holds word characters only, is never longer than the name, and a non-empty name
      gives a non-empty result. */
  lemma {:induction false} SanitizeSpec(name: string)
    ensures AllWordChars(SanitizeFilename(name))
    ensures |SanitizeFilename(name)| <= |name|
    ensures |SanitizeFilename(name)| == 0 <==> |name| == 0
    decreases |name|
  {
    if name != [] {
      if IsWordChar(name[0]) {
        SanitizeSpec(name[1..]);
      } else {
        SanitizeSpec(name[Span(name, 0, NonWord)..]);
      }
    }
  }

  /** A name made of word characters only is left as it is. */
  lemma {:induction false} SanitizeKeepsWordNames(name: string)
    requires AllWordChars(name)
    ensures SanitizeFilename(name) == name
    decreases |name|
  {
    if name != [] {
      SanitizeKeepsWordNames(name[1..]);
      assert name == [name[0]] + name[1..];
    }
  }

  /** Sanitising twice is sanitising once. */
  lemma SanitizeIdempotent(name: string)
    ensures SanitizeFilename(SanitizeFilename(name)) == SanitizeFilename(name)
  {
    SanitizeSpec(name);
    SanitizeKeepsWordNames(SanitizeFilename(name));
  }

  /** The word characters come through unchanged and in order: dropping every '_' and every non-word
      character from the name gives the same as dropping every '_' from the result. */
  function Letters(s: string): string
    decreases |s|
  {
    if s == [] then ""
    else if IsWordChar(s[0]) && s[0] != '_' then [s[0]] + Letters(s[1..])
    else Letters(s[1..])
  }

  lemma {:induction false} UnderscoredKeepsLetters(s: string, inRun: bool)
    ensures Letters(Underscored(s, inRun)) == Letters(s)
    decreases |s|
  {
    if s != [] {
      UnderscoredKeepsLetters(s[1..], !IsWordChar(s[0]));
      if IsWordChar(s[0]) {
        assert Underscored(s, inRun) == [s[0]] + Underscored(s[1..], false);
      } else {
        var head: string := if inRun then "" else "_";
        var tail := Underscored(s[1..], true);
        assert Underscored(s, inRun) == head + tail;
        if !inRun {
          assert (head + tail)[1..] == tail;
        } else {
          assert head + tail == tail;
        }
      }
    }
  }

  lemma SanitizeKeepsLetters(name: string)
    ensures Letters(SanitizeFilename(name)) == Letters(name)
  {
    SanitizeIsUnderscored(name);
    UnderscoredKeepsLetters(name, false);
  }

  // ---------------------------------------------------------------------------------------------
  // The batch code

  /** `''.join(filter(str.isalnum, s))` */
  function AlnumOnly(s: string): (r: string)
    decreases |s|
  {
    if s == [] then ""
    else if IsAlnum(s[0]) then [s[0]] + AlnumOnly(s[1..])
    else AlnumOnly(s[1..])
  }

  lemma {:induction false} AlnumOnlySpec(s: string)
    ensures |AlnumOnly(s)| <= |s|
    ensures forall i :: 0 <= i < |AlnumOnly(s)| ==> IsAlnum(AlnumOnly(s)[i])
    ensures (forall i :: 0 <= i < |s| ==> IsAlnum(s[i])) ==> AlnumOnly(s) == s
    decreases |s|
  {
    if s != [] {
      AlnumOnlySpec(s[1..]);
      assert s == [s[0]] + s[1..];
    }
  }

  /** Upper-casing and keeping the letters and digits commute. */
  lemma {:induction false} AlnumOnlyUpper(s: string)
    ensures AlnumOnly(Upper(s)) == Upper(AlnumOnly(s))
    decreases |s|
  {
    if s != [] {
      AlnumOnlyUpper(s[1..]);
      assert Upper(s)[1..] == Upper(s[1..]);
      if IsAlnum(s[0]) {
        assert Upper([s[0]] + AlnumOnly(s[1..])) == [UpperChar(s[0])] + Upper(AlnumOnly(s[1..]));
      }
    }
  }

  /** `''.join(filter(str.isalnum, name.upper()))[:2]` */
  function ProductPrefix(name: string): string {
    var a := AlnumOnly(Upper(name));
    a[..if |a| < 2 then |a| else 2]
  }

  /** The prefix is the first two letters or digits of the name, upper-cased (fewer when the name
      has fewer): it holds only digits and capitals. */
  lemma ProductPrefixSpec(name: string)
    ensures var p := ProductPrefix(name); var a := AlnumOnly(name);
            && |p| == (if |a| < 2 then |a| else 2)
            && p == Upper(a[..|p|])
            && forall i :: 0 <= i < |p| ==> IsDigit(p[i]) || IsUpper(p[i])
  {
    var a := AlnumOnly(name);
    AlnumOnlyUpper(name);
    AlnumOnlySpec(name);
    var p := ProductPrefix(name);
    assert p == Upper(a)[..|p|];
    forall i | 0 <= i < |p|
      ensures IsDigit(p[i]) || IsUpper(p[i])
    {
      assert p[i] == UpperChar(a[i]);
    }
  }

  /** `s.zfill(w)` for a string without a sign: '0's on the left up to width `w`. */
  function ZFill(s: string, w: nat): (r: string) {
    if |s| >= w then s else seq(w - |s|, _ => '0') + s
  }

  /** Leading zeros do not change the value a digit string is read as. */
  lemma {:induction false} LeadingZeros(z: nat, s: string)
    requires IsDigits(s)
    ensures IsDigits(seq(z, _ => '0') + s)
    ensures DigitsValue(seq(z, _ => '0') + s) == DigitsValue(s)
    decreases |s|
  {
    var t := seq(z, _ => '0') + s;
    if |s| == 1 {
      ZerosValue(z);
      assert t[..|t| - 1] == seq(z, _ => '0');
    } else {
      var s' := s[..|s| - 1];
      LeadingZeros(z, s');
      assert t[..|t| - 1] == seq(z, _ => '0') + s';
    }
  }

  lemma {:induction false} ZerosValue(z: nat)
    ensures DigitsValue(seq(z, _ => '0')) == 0
  {
    if z > 0 {
      ZerosValue(z - 1);
      assert seq(z, _ => '0')[..z - 1] == seq(z - 1, _ => '0');
    }
  }

  /** `str(n).zfill(3)` for a serial between 1 and 999: exactly three digits that read back as the
      serial. */
  function Serial(n: nat): string {
    ZFill(NatToString(n), 3)
  }

  lemma SerialSpec(n: nat)
    requires 1 <= n <= 999
    ensures |Serial(n)| == 3 && IsDigits(Serial(n)) && DigitsValue(Serial(n)) == n
  {
    NatToStringLength(n);
    NatToStringRoundTrip(n);
    var s := NatToString(n);
    if |s| < 3 {
      LeadingZeros(3 - |s|, s);
    }
  }

  /** A day of a date, as `strftime` sees it. */
  datatype Date = Date(day: nat, month: nat, year: nat)

  predicate ValidDate(d: Date) {
    1 <= d.day <= 31 && 1 <= d.month <= 12
  }

  /** `strftime('%d%m%y')`: day, month and the year within its century, two digits each. */
  function DateCode(d: Date): string {
    ZFill(NatToString(d.day), 2) + ZFill(NatToString(d.month), 2) + ZFill(NatToString(d.year % 100), 2)
  }

  /** Two digits that read back as `n`, for `n` below 100. */
  lemma TwoDigits(n: nat)
    requires n < 100
    ensures |ZFill(NatToString(n), 2)| == 2 && IsDigits(ZFill(NatToString(n), 2))
    ensures DigitsValue(ZFill(NatToString(n), 2)) == n
  {
    NatToStringLength(n);
    NatToStringRoundTrip(n);
    var s := NatToString(n);
    if |s| < 2 {
      LeadingZeros(2 - |s|, s);
    }
  }

  /** The date code is six digits: the day, the month and the year modulo 100, in that order. */
  lemma DateCodeSpec(d: Date)
    requires ValidDate(d)
    ensures var c := DateCode(d);
            && |c| == 6 && IsDigits(c)
            && DigitsValue(c[0..2]) == d.day && DigitsValue(c[2..4]) == d.month
            && DigitsValue(c[4..6]) == d.year % 100
  {
    TwoDigits(d.day);
    TwoDigits(d.month);
    TwoDigits(d.year % 100);
    var a, b, y := ZFill(NatToString(d.day), 2), ZFill(NatToString(d.month), 2), ZFill(NatToString(d.year % 100), 2);
    var c := DateCode(d);
    assert c == a + b + y;
    assert c[0..2] == a && c[2..4] == b && c[4..6] == y;
  }

  /** `f"{product_prefix}{date_code}{str(random.randint(1, 999)).zfill(3)}"`, with the day and the
      random serial given. */
  function BatchCode(name: string, today: Date, serial: nat): string {
    ProductPrefix(name) + DateCode(today) + Serial(serial)
  }

  /** The batch code is the product prefix, then the date code, then three digits reading back as
      the serial; so it is 9 to 11 characters long and can be taken apart again. */
  lemma BatchCodeSpec(name: string, today: Date, serial: nat)
    requires ValidDate(today) && 1 <= serial <= 999
    ensures var code := BatchCode(name, today, serial); var p := |ProductPrefix(name)|;
            && 9 <= |code| <= 11 && p <= 2
            && code[..p] == ProductPrefix(name)
            && code[p..p + 6] == DateCode(today)
            && DigitsValue(code[p + 6..]) == serial
  {
    ProductPrefixSpec(name);
    DateCodeSpec(today);
    SerialSpec(serial);
    var code := BatchCode(name, today, serial);
    var p := |ProductPrefix(name)|;
    assert code[..p] == ProductPrefix(name);
    assert code[p..p + 6] == DateCode(today);
    assert code[p + 6..] == Serial(serial);
  }
}
