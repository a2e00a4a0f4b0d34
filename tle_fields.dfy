/**
 * Reading orbital parameters and the epoch out of the fixed columns of a TLE:
 * inclination (line 2, columns 9-16), eccentricity (line 2, columns 27-33,
 * with an implied leading "0."), mean motion (line 2, columns 53-63), epoch
 * year (line 1, columns 19-20, two digits pivoting at 57) and epoch day of
 * year (line 1, columns 21-32, day 1.0 being midnight on 1 January).
 */
module TleFields {
  import opened Wrappers
  import opened TleLoader
  import opened NumberParsing

  /** Python's `s[lo:hi]` for 0 <= lo <= hi: out-of-range bounds are cut to the string's length. */
  function Slice(s: string, lo: nat, hi: nat): (r: string)
    requires lo <= hi
    ensures hi <= |s| ==> r == s[lo..hi]
    ensures lo <= |s| <= hi ==> r == s[lo..]
    ensures |s| <= lo ==> r == []
  {
    if |s| <= lo then [] else if |s| <= hi then s[lo..] else s[lo..hi]
  }

  datatype TleParameters = TleParameters(inclinationDeg: real, eccentricity: real, meanMotionRevPerDay: real)

  /** What `extract_tle_parameters` returns when any field fails to parse. */
  const DefaultParameters := TleParameters(97.0, 0.0005, 15.0)

  function InclinationField(line2: string): string { Slice(line2, 8, 16) }
  function EccentricityField(line2: string): string { Slice(line2, 26, 33) }
  function MeanMotionField(line2: string): string { Slice(line2, 52, 63) }
  function EpochYearField(line1: string): string { Slice(line1, 18, 20) }
  function EpochDayField(line1: string): string { Slice(line1, 20, 32) }

  /** Text starting with "0." strips to text that still starts with '0'. */
  lemma ImpliedPointStripsToZero(f: string)
    ensures StripNumber("0." + f) != [] && StripNumber("0." + f)[0] == '0'
  {
    var s := "0." + f;
    assert s[0] == '0' && !NumberSpace('0');
    StripNumberKeepsFirst(s);
  }

  /** The eccentricity as read: `float("0." + line2[26:33])`, which is never negative. */
  function ReadEccentricity(line2: string): (r: Option<real>)
    ensures r.Some? ==> r.value >= 0.0
  {
    ImpliedPointStripsToZero(EccentricityField(line2));
    ParseFloat("0." + EccentricityField(line2))
  }

  /**
   * `extract_tle_parameters(line1, line2)`. The epoch fields of line 1 are
   * parsed, and a failure there also yields the defaults, but their values
   * are not used.
   */
  function ExtractTleParameters(line1: string, line2: string): (r: TleParameters)
    ensures var year := ParseInt(Slice(line1, 18, 20));
            var day := ParseFloat(Slice(line1, 20, 32));
            var inclination := ParseFloat(Slice(line2, 8, 16));
            var eccentricity := ParseFloat("0." + Slice(line2, 26, 33));
            var meanMotion := ParseFloat(Slice(line2, 52, 63));
            if year.Some? && day.Some? && inclination.Some? && eccentricity.Some? && meanMotion.Some?
            then r == TleParameters(inclination.value, eccentricity.value, meanMotion.value)
            else r == DefaultParameters
    ensures r == DefaultParameters || r.eccentricity >= 0.0
  {
    var year := ParseInt(EpochYearField(line1));
    var day := ParseFloat(EpochDayField(line1));
    var inclination := ParseFloat(InclinationField(line2));
    var eccentricity := ReadEccentricity(line2);
    var meanMotion := ParseFloat(MeanMotionField(line2));
    if year.None? || day.None? || inclination.None? || eccentricity.None? || meanMotion.None? then DefaultParameters
    else TleParameters(inclination.value, eccentricity.value, meanMotion.value)
  }

  lemma EmptyTextIsNoNumber()
    ensures ParseInt("") == None && ParseFloat("") == None
  {
    assert StripNumber("") == "";
    assert ParseSignedGroup("") == None by {
      assert SplitSign("") == (false, "");
    }
    assert ParseDecimal("") == None by {
      assert SplitSign("") == (false, "");
      assert ParseUnsigned("") == None by {
        assert IndexOfEither("", 'e', 'E') == 0;
        assert ""[..0] == "";
        assert ParseMantissa("") == None by {
          assert IndexOfEither("", '.', '.') == 0;
        }
      }
    }
  }

  /** A line 2 too short to reach the mean-motion columns gives the defaults. */
  lemma ShortLine2GivesDefaults(line1: string, line2: string)
    requires |line2| <= 52
    ensures ExtractTleParameters(line1, line2) == DefaultParameters
  {
    EmptyTextIsNoNumber();
  }

  /** A line 1 too short to reach the epoch-year columns gives the defaults. */
  lemma ShortLine1GivesDefaults(line1: string, line2: string)
    requires |line1| <= 18
    ensures ExtractTleParameters(line1, line2) == DefaultParameters
  {
    EmptyTextIsNoNumber();
  }

  /**
   * When the eccentricity columns hold digits only, as in a well-formed TLE,
   * the eccentricity read is the fraction they denote, in [0, 1).
   */
  lemma DigitEccentricityIsFraction(line1: string, line2: string)
    requires AllDigits(EccentricityField(line2))
    ensures var r := ExtractTleParameters(line1, line2);
            var f := EccentricityField(line2);
            r == DefaultParameters || (r.eccentricity == Fraction(f) && 0.0 <= r.eccentricity < 1.0)
  {
    ImpliedPointFraction(EccentricityField(line2));
  }

  /** Eccentricity columns holding an exponent escape [0, 1): "1e5" reads as 10000. */
  lemma ExponentEccentricityExceedsOne(line2: string)
    requires EccentricityField(line2) == "1e5"
    ensures ReadEccentricity(line2) == Some(10000.0)
  {
    ImpliedPointWithExponent(EccentricityField(line2));
  }

  // The ISS element lines of the loader's tests hold "08" and "264.51782528"
  // in the epoch columns of line 1, and " 51.6416", "0006703" and
  // "15.72125391" in the inclination, eccentricity and mean-motion columns of
  // line 2.

  lemma EpochDayDigits()
    ensures IsDigitPart("264") && IsDigitPart("51782528")
    ensures GroupValue("264") as real + Fraction(Unseparated("51782528")) == 264.51782528
  {
    EpochDayWhole();
    EpochDayFraction();
  }

  lemma EpochDayWhole()
    ensures IsDigitPart("264") && GroupValue("264") == 264
  {
    DigitsArePart("264");
    assert DigitsValue("264") == 264;
  }

  lemma EpochDayFraction()
    ensures IsDigitPart("51782528") && Fraction(Unseparated("51782528")) == 0.51782528
  {
    DigitsArePart("51782528");
    assert Fraction("528") == 0.528;
    assert Fraction("51782528") == 0.51782528;
  }

  lemma InclinationDigits()
    ensures IsDigitPart("51") && IsDigitPart("6416")
    ensures GroupValue("51") as real + Fraction(Unseparated("6416")) == 51.6416
  {
    DigitsArePart("51");
    DigitsArePart("6416");
    assert DigitsValue("51") == 51;
  }

  lemma MeanMotionDigits()
    ensures IsDigitPart("15") && IsDigitPart("72125391")
    ensures GroupValue("15") as real + Fraction(Unseparated("72125391")) == 15.72125391
  {
    DigitsArePart("15");
    DigitsArePart("72125391");
    assert DigitsValue("15") == 15;
  }

  lemma IssEpochYear(line1: string)
    requires Slice(line1, 18, 20) == "08"
    ensures ParseInt(Slice(line1, 18, 20)) == Some(8)
  {
    var year := Slice(line1, 18, 20);
    assert year != [] && AllDigits(year) && DigitsValue(year) == 8 by {
      assert DigitsValue("08") == 8;
    }
    DigitColumnValue(year);
  }

  lemma IssEpochDay(line1: string)
    requires Slice(line1, 20, 32) == "264.51782528"
    ensures ParseFloat(Slice(line1, 20, 32)) == Some(264.51782528)
  {
    var day, w, f := Slice(line1, 20, 32), "264", "51782528";
    assert day == "" + (w + "." + f);
    EpochDayDigits();
    PaddedPointedDecimal(day, "", w, f);
  }

  lemma IssInclination(line2: string)
    requires Slice(line2, 8, 16) == " 51.6416"
    ensures ParseFloat(Slice(line2, 8, 16)) == Some(51.6416)
  {
    var field, w, f := Slice(line2, 8, 16), "51", "6416";
    assert field == " " + (w + "." + f) && NumberSpace(' ');
    InclinationDigits();
    PaddedPointedDecimal(field, " ", w, f);
  }

  lemma IssEccentricity(line2: string)
    requires Slice(line2, 26, 33) == "0006703"
    ensures ParseFloat("0." + Slice(line2, 26, 33)) == Some(0.0006703)
  {
    var field := Slice(line2, 26, 33);
    assert AllDigits(field) && Fraction(field) == 0.0006703 by {
      assert Fraction("0006703") == 0.0006703;
    }
    ImpliedPointFraction(field);
  }

  lemma IssMeanMotion(line2: string)
    requires Slice(line2, 52, 63) == "15.72125391"
    ensures ParseFloat(Slice(line2, 52, 63)) == Some(15.72125391)
  {
    var field, w, f := Slice(line2, 52, 63), "15", "72125391";
    assert field == "" + (w + "." + f);
    MeanMotionDigits();
    PaddedPointedDecimal(field, "", w, f);
  }

  /** The ISS test lines give inclination 51.6416, eccentricity 0.0006703 and 15.72125391 revolutions a day. */
  lemma IssParameters(line1: string, line2: string)
    requires Slice(line1, 18, 20) == "08" && Slice(line1, 20, 32) == "264.51782528"
    requires Slice(line2, 8, 16) == " 51.6416" && Slice(line2, 26, 33) == "0006703" && Slice(line2, 52, 63) == "15.72125391"
    ensures ExtractTleParameters(line1, line2) == TleParameters(51.6416, 0.0006703, 15.72125391)
  {
    IssEpochYear(line1);
    IssEpochDay(line1);
    IssInclination(line2);
    IssEccentricity(line2);
    IssMeanMotion(line2);
  }

  /** Two-digit epoch year to calendar year: below 57 is 20yy, otherwise 19yy. */
  function FullYear(yy: int): (r: int)
    ensures 0 <= yy < 100 ==> 1957 <= r <= 2056 && r % 100 == yy
  {
    if yy < 57 then 2000 + yy else 1900 + yy
  }

  /** The pivot maps 00-99 one-to-one onto 1957-2056, keeping the last two digits. */
  lemma FullYearPivot(yy: int)
    requires 0 <= yy < 100
    ensures 1957 <= FullYear(yy) <= 2056
    ensures FullYear(yy) % 100 == yy
    ensures FullYear(yy) - 1957 == (yy - 57) % 100
  {
  }

  predicate IsLeap(y: int)
  {
    y % 4 == 0 && (y % 100 != 0 || y % 400 == 0)
  }

  /** Days from 1 January of year 1 to 1 January of year `y`, in the proleptic Gregorian calendar. */
  function DaysBeforeYear(y: int): (r: int)
    requires y >= 1
    ensures 365 * (y - 1) <= r <= 366 * (y - 1)
  {
    var p := y - 1;
    p * 365 + p / 4 - p / 100 + p / 400
  }

  /** Each year adds 366 days when it is a leap year and 365 otherwise. */
  lemma DaysBeforeNextYear(y: int)
    requires y >= 1
    ensures DaysBeforeYear(y + 1) - DaysBeforeYear(y) == if IsLeap(y) then 366 else 365
  {
    var p := y - 1;
    assert DaysBeforeYear(y + 1) == y * 365 + y / 4 - y / 100 + y / 400;
    assert DaysBeforeYear(y) == p * 365 + p / 4 - p / 100 + p / 400;
    assert y * 365 == p * 365 + 365;
    QuotientStep(y, 4);
    QuotientStep(y, 100);
    QuotientStep(y, 400);
    LeapDivisors(y);
  }

  /** A multiple of 400 is a multiple of 100, and a multiple of 100 is a multiple of 4. */
  lemma LeapDivisors(y: int)
    ensures y % 400 == 0 ==> y % 100 == 0
    ensures y % 100 == 0 ==> y % 4 == 0
  {
  }

  /** Moving from `y - 1` to `y` raises the quotient by `k` exactly when `k` divides `y`. */
  lemma QuotientStep(y: int, k: int)
    requires y >= 1 && k >= 1
    ensures y / k - (y - 1) / k == if y % k == 0 then 1 else 0
  {
    var q, m := (y - 1) / k, (y - 1) % k;
    if m == k - 1 {
      DivisionUnique(y, k, q + 1, 0);
    } else {
      DivisionUnique(y, k, q, m + 1);
    }
  }

  /** Quotient and remainder are the only pair with `y == q * k + m` and `0 <= m < k`. */
  lemma DivisionUnique(y: int, k: int, q: int, m: int)
    requires k >= 1 && y == q * k + m && 0 <= m < k
    ensures y / k == q && y % k == m
  {
    var t := y / k - q;
    assert t * k == m - y % k;
    assert t >= 1 ==> t * k >= k;
    assert t <= -1 ==> t * k <= -k;
  }

  const SecondsPerDay: real := 86400.0

  /** Days from `datetime.min` to just past `datetime.max`: all of years 1 to 9999. */
  const DateTimeDays := 3652059

  lemma DateTimeDaysSpanAllYears()
    ensures DaysBeforeYear(10000) == DateTimeDays
  {
  }

  /** A point in time `datetime` can represent, as seconds since `datetime.min`. */
  predicate IsDateTime(t: real)
  {
    0.0 <= t < DateTimeDays as real * SecondsPerDay
  }

  /** Whether `timedelta(days=d)` is representable: its whole days lie within plus or minus 999999999. */
  predicate IsTimeDeltaDays(d: real)
  {
    -999999999.0 <= d < 1000000000.0
  }

  /** Midnight on 1 January of `year`, in seconds since `datetime.min`. */
  function NewYear(year: int): (r: real)
    requires year >= 1
    ensures r >= 0.0 && (year == 1 <==> r == 0.0)
  {
    DaysBeforeYear(year) as real * SecondsPerDay
  }

  /**
   * `datetime(FullYear(yy), 1, 1) + timedelta(days=day - 1)`, in seconds since
   * `datetime.min`; `None` where Python raises: a year `datetime` rejects, a
   * day count `timedelta` cannot hold, or a sum outside `datetime`'s range.
   */
  function EpochOf(yy: int, day: real): (r: Option<real>)
    ensures r.Some? ==> IsDateTime(r.value)
  {
    var year := FullYear(yy);
    if !(1 <= year <= 9999) || !IsTimeDeltaDays(day - 1.0) then None
    else
      var epoch := NewYear(year) + (day - 1.0) * SecondsPerDay;
      if IsDateTime(epoch) then Some(epoch) else None
  }

  /** The epoch of line 1: its year and day fields parsed, then `EpochOf`; `None` when a field does not parse. */
  function TleEpoch(line1: string): (r: Option<real>)
    ensures r.Some? ==> IsDateTime(r.value)
  {
    var yy := ParseInt(EpochYearField(line1));
    var day := ParseFloat(EpochDayField(line1));
    if yy.None? || day.None? then None else EpochOf(yy.value, day.value)
  }

  /** 1 January of every year 1 to 9999 is a representable point in time. */
  lemma NewYearIsDateTime(y: int)
    requires 1 <= y <= 9999
    ensures 0 <= DaysBeforeYear(y) < DateTimeDays && IsDateTime(NewYear(y))
  {
  }

  /** Day 1.0 of the epoch is midnight on 1 January of the pivoted year. */
  lemma DayOneIsNewYear(yy: int)
    requires 0 <= yy < 100
    ensures EpochOf(yy, 1.0) == Some(NewYear(FullYear(yy)))
  {
    FullYearPivot(yy);
    NewYearIsDateTime(FullYear(yy));
  }

  /**
   * The day after the last day of the pivoted year (day 367 of a leap year,
   * day 366 otherwise) is midnight on 1 January of the following year.
   */
  lemma DayAfterLastIsNextNewYear(yy: int)
    requires 0 <= yy < 100
    ensures var year := FullYear(yy);
            EpochOf(yy, if IsLeap(year) then 367.0 else 366.0) == Some(NewYear(year + 1))
  {
    var year := FullYear(yy);
    FullYearPivot(yy);
    DaysBeforeNextYear(year);
    NewYearIsDateTime(year + 1);
  }

  /** One more day in the day field moves the epoch 24 hours later, while both epochs exist. */
  lemma NextDayIsOneDayLater(yy: int, day: real)
    requires EpochOf(yy, day).Some? && EpochOf(yy, day + 1.0).Some?
    ensures EpochOf(yy, day + 1.0).value == EpochOf(yy, day).value + 24.0 * 3600.0
  {
  }

  /**
   * `compute_time_since_epoch(line1, current)`, with `current` in seconds
   * since `datetime.min`: the hours from the epoch to `current`, negative
   * when `current` precedes the epoch, and 0.0 whenever the epoch cannot be
   * built.
   */
  function HoursSinceEpoch(line1: string, current: real): (r: real)
    ensures TleEpoch(line1) == None ==> r == 0.0
    ensures TleEpoch(line1).Some? ==> TleEpoch(line1).value + r * 3600.0 == current
    ensures TleEpoch(line1).Some? ==> (r < 0.0 <==> current < TleEpoch(line1).value)
  {
    match TleEpoch(line1)
    case None => 0.0
    case Some(epoch) => (current - epoch) / 3600.0
  }
}
