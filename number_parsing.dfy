/**
 * Python's `int(s)` and `float(s)` on strings, for the decimal forms a TLE
 * field can hold: surrounding whitespace is ignored, an optional sign, digit
 * groups that may be separated by single underscores, a decimal point and an
 * exponent. Values are exact: `float` is read as the real number the text
 * denotes.
 */
module NumberParsing {
  import opened Wrappers
  import opened TleLoader

  /**
   * The whitespace `int()` and `float()` skip around a number: every
   * non-ASCII character `str.isspace` accepts, but of ASCII only tab, line
   * feed, vertical tab, form feed, carriage return and space. The file,
   * group, record and unit separators U+001C-U+001F, which `str.strip`
   * removes, are not skipped.
   */
  predicate NumberSpace(c: char): (r: bool)
    ensures r <==> IsSpace(c) && !('\U{1C}' <= c <= '\U{1F}')
  {
    || ('\t' <= c <= '\r') || c == ' ' || c == '\U{85}' || c == '\U{A0}'
    || c == '\U{1680}' || ('\U{2000}' <= c <= '\U{200A}')
    || c == '\U{2028}' || c == '\U{2029}' || c == '\U{202F}' || c == '\U{205F}' || c == '\U{3000}'
  }

  /** The text after the leading number whitespace. */
  function StripNumberStart(s: string): (r: string)
    ensures |r| <= |s| && r == s[|s| - |r|..]
    ensures forall i :: 0 <= i < |s| - |r| ==> NumberSpace(s[i])
    ensures r != [] ==> !NumberSpace(r[0])
  {
    if s != [] && NumberSpace(s[0]) then StripNumberStart(s[1..]) else s
  }

  /** The text before the trailing number whitespace. */
  function StripNumberEnd(s: string): (r: string)
    ensures |r| <= |s| && r == s[..|r|]
    ensures forall i :: |r| <= i < |s| ==> NumberSpace(s[i])
    ensures r != [] ==> !NumberSpace(r[|r| - 1])
  {
    if s != [] && NumberSpace(s[|s| - 1]) then StripNumberEnd(s[..|s| - 1]) else s
  }

  /** No number whitespace at either end. */
  predicate NumberTrimmed(s: string)
  {
    s == [] || (!NumberSpace(s[0]) && !NumberSpace(s[|s| - 1]))
  }

  /** The text `int()` and `float()` go on to read, once the number whitespace around it is gone. */
  function StripNumber(s: string): (r: string)
    ensures NumberTrimmed(r)
  {
    var a := StripNumberStart(s);
    var r := StripNumberEnd(a);
    assert r != [] ==> r[0] == a[0];
    r
  }

  /** Text without number whitespace at its ends is read as it stands. */
  lemma StripNumberTrimmed(s: string)
    requires NumberTrimmed(s)
    ensures StripNumber(s) == s
  {
  }

  /** Text that does not start with number whitespace keeps its first character. */
  lemma StripNumberKeepsFirst(s: string)
    requires s != [] && !NumberSpace(s[0])
    ensures StripNumber(s) != [] && StripNumber(s)[0] == s[0]
  {
    assert StripNumberStart(s) == s;
    assert StripNumberEnd(s) != [];
  }

  /** Leading number whitespace makes no difference to what is read. */
  lemma {:induction false} StripNumberStartSkipsSpace(p: string, t: string)
    requires forall i :: 0 <= i < |p| ==> NumberSpace(p[i])
    ensures StripNumberStart(p + t) == StripNumberStart(t) && StripNumber(p + t) == StripNumber(t)
  {
    if p == [] {
      assert p + t == t;
    } else {
      assert (p + t)[0] == p[0] && NumberSpace(p[0]);
      assert (p + t)[1..] == p[1..] + t;
      assert StripNumberStart(p + t) == StripNumberStart(p[1..] + t);
      StripNumberStartSkipsSpace(p[1..], t);
    }
  }

  /** One of the separators U+001C-U+001F. */
  predicate IsSeparatorControl(c: char)
  {
    '\U{1C}' <= c <= '\U{1F}'
  }

  /** Without the separators U+001C-U+001F, the number whitespace at the front is what `str.lstrip` removes. */
  lemma {:induction false} StripNumberStartAgrees(s: string)
    requires forall i :: 0 <= i < |s| ==> !IsSeparatorControl(s[i])
    ensures StripNumberStart(s) == StripStart(s)
  {
    if s != [] && IsSpace(s[0]) {
      assert NumberSpace(s[0]);
      StripNumberStartAgrees(s[1..]);
    }
  }

  /** Without the separators U+001C-U+001F, the number whitespace at the end is what `str.rstrip` removes. */
  lemma {:induction false} StripNumberEndAgrees(s: string)
    requires forall i :: 0 <= i < |s| ==> !IsSeparatorControl(s[i])
    ensures StripNumberEnd(s) == StripEnd(s)
  {
    if s != [] && IsSpace(s[|s| - 1]) {
      assert NumberSpace(s[|s| - 1]);
      StripNumberEndAgrees(s[..|s| - 1]);
    }
  }

  /** Text without the separators U+001C-U+001F is stripped for a number exactly as `str.strip` strips it. */
  lemma StripNumberAgrees(s: string)
    requires forall i :: 0 <= i < |s| ==> !IsSeparatorControl(s[i])
    ensures StripNumber(s) == Strip(s)
  {
    StripNumberStartAgrees(s);
    var a := StripStart(s);
    NoSeparatorInSuffix(s, |s| - |a|);
    StripNumberEndAgrees(a);
  }

  lemma NoSeparatorInSuffix(s: string, k: nat)
    requires k <= |s| && forall i :: 0 <= i < |s| ==> !IsSeparatorControl(s[i])
    ensures forall i :: 0 <= i < |s| - k ==> !IsSeparatorControl(s[k..][i])
  {
  }

  /** `str.strip` removes a leading U+001C, but `int()` rejects it. */
  lemma LeadingSeparatorControlRejected()
    ensures Strip("\U{1C}5") == "5" && ParseInt("\U{1C}5") == None
  {
    LeadingSeparatorControlStripped();
    IntRejectsSeparatorControl();
  }

  lemma LeadingSeparatorControlStripped()
    ensures Strip("\U{1C}5") == "5"
  {
    var a := "\U{1C}5";
    assert IsSpace(a[0]) && a[1..] == "5";
  }

  lemma IntRejectsSeparatorControl()
    ensures ParseInt("\U{1C}5") == None
  {
    var a := "\U{1C}5";
    assert StripNumber(a) == a by {
      assert !NumberSpace(a[0]) && !NumberSpace(a[1]);
      StripNumberTrimmed(a);
    }
    assert ParseSignedGroup(a) == None by {
      assert a[0] != '+' && a[0] != '-' && !IsDigit(a[0]);
    }
  }

  /** `str.strip` removes a trailing U+001F, but `float()` rejects it. */
  lemma TrailingSeparatorControlRejected()
    ensures Strip("5\U{1F}") == "5" && ParseFloat("5\U{1F}") == None
  {
    TrailingSeparatorControlStripped();
    FloatRejectsSeparatorControl();
  }

  lemma TrailingSeparatorControlStripped()
    ensures Strip("5\U{1F}") == "5"
  {
    var b := "5\U{1F}";
    assert IsSpace(b[1]) && b[..1] == "5";
  }

  lemma FloatRejectsSeparatorControl()
    ensures ParseFloat("5\U{1F}") == None
  {
    var b := "5\U{1F}";
    assert StripNumber(b) == b by {
      assert !NumberSpace(b[0]) && !NumberSpace(b[1]);
      StripNumberTrimmed(b);
    }
    assert ParseUnsigned(b) == None by {
      assert IndexOfEither(b, 'e', 'E') == 2 && b[..2] == b;
      assert IndexOfEither(b, '.', '.') == 2;
      assert !IsDigitPart(b) by {
        assert !IsDigit(b[|b| - 1]);
      }
    }
    assert SplitSign(b) == (false, b);
  }

  predicate IsDigit(c: char)
  {
    '0' <= c <= '9'
  }

  function DigitValue(c: char): (r: nat)
    requires IsDigit(c)
    ensures r < 10
  {
    c as int - '0' as int
  }

  function Pow10(n: nat): (r: nat)
    ensures r >= 1
  {
    if n == 0 then 1 else 10 * Pow10(n - 1)
  }

  predicate AllDigits(s: string)
  {
    forall i :: 0 <= i < |s| ==> IsDigit(s[i])
  }

  /** The number a string of decimal digits denotes, most significant first. */
  function DigitsValue(s: string): (r: nat)
    requires AllDigits(s)
    ensures r < Pow10(|s|)
  {
    if s == [] then 0 else DigitsValue(s[..|s| - 1]) * 10 + DigitValue(s[|s| - 1])
  }

  /** Digits, with single underscores allowed between two digits. */
  predicate DigitsOrSeparators(s: string)
  {
    forall i :: 0 <= i < |s| ==> IsDigit(s[i]) || s[i] == '_'
  }

  predicate IsDigitPart(s: string)
  {
    && DigitsOrSeparators(s)
    && s != [] && IsDigit(s[0]) && IsDigit(s[|s| - 1])
    && forall i :: 0 <= i < |s| - 1 ==> DigitAfterSeparator(s, i)
  }

  /** An underscore at position i of `s` is followed by a digit. */
  predicate DigitAfterSeparator(s: string, i: nat)
    requires i + 1 < |s|
  {
    s[i] == '_' ==> IsDigit(s[i + 1])
  }

  /** The digits of `s`, with the underscores dropped. */
  function Unseparated(s: string): (r: string)
    requires DigitsOrSeparators(s)
    ensures AllDigits(r) && |r| <= |s|
    ensures AllDigits(s) ==> r == s
  {
    if s == [] then []
    else if s[0] == '_' then Unseparated(s[1..])
    else [s[0]] + Unseparated(s[1..])
  }

  function GroupValue(s: string): nat
    requires DigitsOrSeparators(s)
  {
    DigitsValue(Unseparated(s))
  }

  /** A leading '+' or '-', if any, and the rest. */
  function SplitSign(s: string): (bool, string)
  {
    if s != [] && (s[0] == '+' || s[0] == '-') then (s[0] == '-', s[1..]) else (false, s)
  }

  /** An optional sign followed by a digit group: the form `int` accepts once stripped. */
  function ParseSignedGroup(s: string): Option<int>
  {
    var (negative, body) := SplitSign(s);
    if IsDigitPart(body) then
      var v: int := GroupValue(body);
      Some(if negative then -v else v)
    else None
  }

  /** `int(s)`; `None` where Python raises `ValueError`. */
  function ParseInt(s: string): (r: Option<int>)
    ensures r.Some? ==> StripNumber(s) != [] && (r.value < 0 ==> StripNumber(s)[0] == '-')
  {
    ParseSignedGroup(StripNumber(s))
  }

  /** The position of the first `c` or `d` in `s`, or `|s|` when there is none. */
  function IndexOfEither(s: string, c: char, d: char): (r: nat)
    ensures r <= |s|
    ensures forall i :: 0 <= i < r ==> s[i] != c && s[i] != d
    ensures r < |s| ==> s[r] == c || s[r] == d
  {
    if s == [] then 0 else if s[0] == c || s[0] == d then 0 else 1 + IndexOfEither(s[1..], c, d)
  }

  /** `m * 10^x` for a signed exponent, one decimal place at a time. */
  function Scaled(m: real, x: int): (r: real)
    ensures m >= 0.0 ==> r >= 0.0
    decreases if x < 0 then -x else x
  {
    if x == 0 then m else if x > 0 then Scaled(m, x - 1) * 10.0 else Scaled(m, x + 1) / 10.0
  }

  /** The part before any exponent: digits, a point, digits, with at least one digit in all. */
  function ParseMantissa(s: string): (r: Option<real>)
    ensures r.Some? ==> r.value >= 0.0
  {
    var dot := IndexOfEither(s, '.', '.');
    MantissaValue(s[..dot], if dot < |s| then s[dot + 1..] else [])
  }

  /** The value of digits written after a decimal point: a proper fraction. */
  function Fraction(digits: string): (r: real)
    requires AllDigits(digits)
    ensures 0.0 <= r < 1.0
  {
    if digits == [] then 0.0 else (DigitValue(digits[0]) as real + Fraction(digits[1..])) / 10.0
  }

  /** The digits before and after the point; either may be missing, not both. */
  function MantissaValue(whole: string, fraction: string): (r: Option<real>)
    ensures r.Some? ==> r.value >= 0.0
  {
    if (whole == [] || IsDigitPart(whole)) && (fraction == [] || IsDigitPart(fraction)) && (whole != [] || fraction != []) then
      Some(GroupValue(whole) as real + Fraction(Unseparated(fraction)))
    else None
  }

  /**
   * `float(s)`; `None` where Python raises `ValueError`. The spellings of
   * infinity and not-a-number are not modelled (they have no real value).
   */
  function ParseFloat(s: string): (r: Option<real>)
    ensures r.Some? ==> StripNumber(s) != [] && (r.value < 0.0 ==> StripNumber(s)[0] == '-')
  {
    ParseDecimal(StripNumber(s))
  }

  /** The form `float` accepts once stripped: an optional sign, then an unsigned decimal. */
  function ParseDecimal(s: string): (r: Option<real>)
    ensures r.Some? && (s == [] || s[0] != '-') ==> r.value >= 0.0
  {
    var (negative, body) := SplitSign(s);
    var v := ParseUnsigned(body);
    if v.None? then None else Some(if negative then -v.value else v.value)
  }

  /** A mantissa, then optionally 'e' or 'E' and a signed exponent. */
  function ParseUnsigned(s: string): (r: Option<real>)
    ensures r.Some? ==> r.value >= 0.0
  {
    var e := IndexOfEither(s, 'e', 'E');
    var mantissa := ParseMantissa(s[..e]);
    var exponent := if e == |s| then Some(0) else ParseSignedGroup(s[e + 1..]);
    if mantissa.None? || exponent.None? then None else Some(Scaled(mantissa.value, exponent.value))
  }

  /** The decimal numeral Python's `str` gives for a natural number. */
  function DecimalString(n: nat): (r: string)
    ensures r != [] && AllDigits(r)
  {
    (if n < 10 then [] else DecimalString(n / 10)) + ['0' + (n % 10) as char]
  }

  lemma {:induction false} DecimalStringValue(n: nat)
    ensures DigitsValue(DecimalString(n)) == n
  {
    var s := DecimalString(n);
    assert s[..|s| - 1] == (if n < 10 then [] else DecimalString(n / 10));
    if n >= 10 {
      DecimalStringValue(n / 10);
    }
  }

  lemma DigitsArePart(s: string)
    requires s != [] && AllDigits(s)
    ensures IsDigitPart(s) && DigitsOrSeparators(s) && Unseparated(s) == s
  {
  }

  /** Digits after an optional minus sign: the sign is split off, and the text has no whitespace at its ends. */
  lemma SignedDigits(d: string, negative: bool)
    requires d != [] && AllDigits(d)
    ensures SplitSign((if negative then "-" else "") + d) == (negative, d)
    ensures NumberTrimmed((if negative then "-" else "") + d)
  {
    var s := (if negative then "-" else "") + d;
    SplitSignedDigits(d, negative);
    if !negative {
      assert s == d;
      assert IsDigit(s[0]);
    }
    assert IsDigit(s[|s| - 1]);
  }

  /** The sign in front of a digit string is split off, leaving the digits. */
  lemma SplitSignedDigits(d: string, negative: bool)
    requires d != [] && AllDigits(d)
    ensures SplitSign((if negative then "-" else "") + d) == (negative, d)
  {
    var s := (if negative then "-" else "") + d;
    if negative {
      assert s[1..] == d;
    } else {
      assert s == d;
      assert IsDigit(s[0]);
    }
  }

  /** An optionally signed digit string is read as its value with that sign. */
  lemma SignedGroupValue(d: string, negative: bool)
    requires d != [] && AllDigits(d)
    ensures ParseSignedGroup((if negative then "-" else "") + d) == Some(if negative then -(DigitsValue(d) as int) else DigitsValue(d))
  {
    SplitSignedDigits(d, negative);
    DigitsArePart(d);
    assert GroupValue(d) == DigitsValue(d);
  }

  /** Text without whitespace at its ends is read by `int` as it stands. */
  lemma ParseIntOfTrimmed(s: string)
    requires NumberTrimmed(s)
    ensures ParseInt(s) == ParseSignedGroup(s)
  {
    StripNumberTrimmed(s);
  }

  /** `int` reads an optionally signed digit string as its value with that sign. */
  lemma ParseIntOfSignedDigits(d: string, negative: bool)
    requires d != [] && AllDigits(d)
    ensures ParseInt((if negative then "-" else "") + d) == Some(if negative then -(DigitsValue(d) as int) else DigitsValue(d))
  {
    SignedDigits(d, negative);
    ParseIntOfTrimmed((if negative then "-" else "") + d);
    SignedGroupValue(d, negative);
  }

  /** The shape of "0." followed by digits. */
  lemma ImpliedPointText(d: string)
    requires AllDigits(d)
    ensures var s := "0." + d;
            && NumberTrimmed(s) && SplitSign(s) == (false, s)
            && IndexOfEither(s, 'e', 'E') == |s| && IndexOfEither(s, '.', '.') == 1
            && s[..1] == "0" && s[2..] == d && s[..|s|] == s
  {
    var s := "0." + d;
    assert IsDigit(s[0]);
    assert NumberSpace(s[|s| - 1]) ==> false by {
      if d != [] { assert s[|s| - 1] == d[|d| - 1]; }
    }
    forall i | 2 <= i < |s| ensures s[i] != 'e' && s[i] != 'E' {
      assert s[i] == d[i - 2];
    }
    assert IndexOfEither(s[1..], '.', '.') == 0;
  }

  /** The mantissa "0." followed by digits is the fraction those digits denote. */
  lemma ImpliedPointMantissa(d: string)
    requires AllDigits(d)
    ensures ParseMantissa("0." + d) == Some(Fraction(d))
  {
    assert ParseMantissa("0." + d) == MantissaValue("0", d) by {
      ImpliedPointText(d);
    }
    ZeroPointValue(d);
  }

  /** A whole part "0" adds nothing to the fraction digits behind it. */
  lemma ZeroPointValue(d: string)
    requires AllDigits(d)
    ensures MantissaValue("0", d) == Some(Fraction(d))
  {
    assert IsDigitPart("0") && GroupValue("0") == 0 by {
      DigitsArePart("0");
      assert DigitsValue("0") == 0;
    }
    assert (d == [] || IsDigitPart(d)) && Unseparated(d) == d by {
      if d != [] {
        DigitsArePart(d);
      }
    }
  }

  /**
   * Digits behind an implied "0." read as the fraction they denote, which
   * lies in [0, 1).
   */
  lemma ImpliedPointFraction(d: string)
    requires AllDigits(d)
    ensures ParseFloat("0." + d) == Some(Fraction(d))
  {
    var s := "0." + d;
    assert ParseDecimal(s) == Some(Fraction(d)) by {
      ImpliedPointText(d);
      ImpliedPointMantissa(d);
    }
    assert ParseFloat(s) == ParseDecimal(s) by {
      ImpliedPointText(d);
      StripNumberTrimmed(s);
    }
  }

  lemma ExponentSampleText()
    ensures SplitSign("0.1e5") == (false, "0.1e5") && IndexOfEither("0.1e5", 'e', 'E') == 3
    ensures "0.1e5"[..3] == "0." + "1" && "0.1e5"[4..] == "5"
  {
    var s := "0.1e5";
    assert s[0] != 'e' && s[1] != 'e' && s[2] != 'e' && s[3] == 'e';
    assert s[0] != 'E' && s[1] != 'E' && s[2] != 'E';
  }

  lemma ExponentSampleMantissa()
    ensures ParseMantissa("0." + "1") == Some(0.1)
  {
    ImpliedPointMantissa("1");
    assert Fraction("1") == 0.1;
  }

  lemma ExponentSampleExponent()
    ensures ParseSignedGroup("5") == Some(5)
  {
    DigitsArePart("5");
    assert DigitsValue("5") == 5;
  }

  /** How an unsigned mantissa and an exponent are put together. */
  lemma UnsignedWithExponent(s: string, e: nat, m: real, x: int)
    requires IndexOfEither(s, 'e', 'E') == e < |s|
    requires ParseMantissa(s[..e]) == Some(m) && ParseSignedGroup(s[e + 1..]) == Some(x)
    ensures ParseUnsigned(s) == Some(Scaled(m, x))
  {
    var exponent := if e == |s| then Some(0) else ParseSignedGroup(s[e + 1..]);
    assert exponent == Some(x);
  }

  lemma ExponentSampleScaled()
    ensures Scaled(0.1, 5) == 10000.0
  {
    assert Scaled(0.1, 1) == 1.0;
    assert Scaled(0.1, 3) == 100.0;
  }

  lemma ExponentSampleDecimal()
    ensures ParseDecimal("0.1e5") == Some(10000.0)
  {
    ExponentSampleText();
    ExponentSampleMantissa();
    ExponentSampleExponent();
    UnsignedWithExponent("0.1e5", 3, 0.1, 5);
    ExponentSampleScaled();
  }

  /** An exponent in a field read behind "0." escapes [0, 1): "0." + "1e5" reads as 10000. */
  lemma ImpliedPointWithExponent(field: string)
    requires field == "1e5"
    ensures ParseFloat("0." + field) == Some(10000.0)
  {
    var s := "0." + field;
    assert s == "0.1e5";
    assert ParseFloat(s) == ParseDecimal(s) by {
      assert NumberTrimmed(s) by {
        assert s[0] == '0' && s[|s| - 1] == '5';
      }
      StripNumberTrimmed(s);
    }
    ExponentSampleDecimal();
  }

  /** The shape of whole digits, a point and fraction digits: no whitespace, no sign, no exponent, one point after the whole part. */
  lemma PointedText(w: string, f: string)
    requires IsDigitPart(w) && IsDigitPart(f)
    ensures var s := w + "." + f;
            && NumberTrimmed(s) && SplitSign(s) == (false, s)
            && IndexOfEither(s, 'e', 'E') == |s| && IndexOfEither(s, '.', '.') == |w|
            && s[..|s|] == s && s[..|w|] == w && s[|w| + 1..] == f
  {
    var s := w + "." + f;
    assert s[0] == w[0] && s[|s| - 1] == f[|f| - 1];
    forall i | 0 <= i < |s| ensures s[i] != 'e' && s[i] != 'E' {
      if i < |w| {
        assert s[i] == w[i];
      } else if i > |w| {
        assert s[i] == f[i - |w| - 1];
      }
    }
    forall i | 0 <= i < |w| ensures s[i] != '.' {
      assert s[i] == w[i];
    }
    assert s[|w|] == '.';
  }

  /** `float` reads whole digits, a point and fraction digits as the whole part plus the fraction. */
  lemma PointedDecimal(w: string, f: string)
    requires IsDigitPart(w) && IsDigitPart(f)
    ensures ParseFloat(w + "." + f) == Some(GroupValue(w) as real + Fraction(Unseparated(f)))
  {
    var s := w + "." + f;
    PointedText(w, f);
    FloatOfUnsignedText(s);
    UnsignedWithoutExponent(s);
    MantissaAtPoint(s, |w|);
    MantissaOfParts(w, f);
  }

  /** Whitespace before whole digits, a point and fraction digits is skipped, as in a fixed-width column. */
  lemma PaddedPointedDecimal(s: string, p: string, w: string, f: string)
    requires s == p + (w + "." + f) && forall i :: 0 <= i < |p| ==> NumberSpace(p[i])
    requires IsDigitPart(w) && IsDigitPart(f)
    ensures ParseFloat(s) == Some(GroupValue(w) as real + Fraction(Unseparated(f)))
  {
    StripNumberStartSkipsSpace(p, w + "." + f);
    PointedDecimal(w, f);
  }

  /** A digit column is read by `int` as the number its digits denote, leading zeros included. */
  lemma DigitColumnValue(s: string)
    requires s != [] && AllDigits(s)
    ensures ParseInt(s) == Some(DigitsValue(s))
  {
    ParseIntOfSignedDigits(s, false);
    assert "" + s == s;
  }

  /** Unsigned text without whitespace at its ends is read by `float` as an unsigned decimal. */
  lemma FloatOfUnsignedText(s: string)
    requires NumberTrimmed(s) && SplitSign(s) == (false, s)
    ensures ParseFloat(s) == ParseUnsigned(s)
  {
    assert StripNumber(s) == s by {
      StripNumberTrimmed(s);
    }
    DecimalOfUnsigned(s);
  }

  /** Text with no sign in front is read by the decimal reader as an unsigned decimal. */
  lemma DecimalOfUnsigned(s: string)
    requires SplitSign(s) == (false, s)
    ensures ParseDecimal(s) == ParseUnsigned(s)
  {
  }

  /** Without an exponent marker, the whole text is the mantissa. */
  lemma UnsignedWithoutExponent(s: string)
    requires IndexOfEither(s, 'e', 'E') == |s|
    ensures ParseUnsigned(s) == ParseMantissa(s)
  {
    assert s[..|s|] == s;
  }

  /** A mantissa splits at its first point into whole and fraction digits. */
  lemma MantissaAtPoint(s: string, dot: nat)
    requires IndexOfEither(s, '.', '.') == dot < |s|
    ensures ParseMantissa(s) == MantissaValue(s[..dot], s[dot + 1..])
  {
  }

  lemma MantissaOfParts(w: string, f: string)
    requires IsDigitPart(w) && IsDigitPart(f)
    ensures MantissaValue(w, f) == Some(GroupValue(w) as real + Fraction(Unseparated(f)))
  {
  }
}
