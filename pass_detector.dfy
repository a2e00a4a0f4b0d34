/**
 * The batch threshold pass scanner (`detect_passes` and `_interp_time`).
 *
 * Timestamps are real seconds on a common time axis; elevations are real
 * degrees. `Passes` is the reference definition: an explicit two-state
 * machine folded over consecutive sample pairs. `DetectPasses` is the
 * scanner as the source writes it (boolean flag, optional AOS, sentinel peak)
 * and is proved to compute `Passes`.
 */
module PassDetection {
  import opened Wrappers

  /** A detected pass: AOS, time of peak elevation, LOS and peak elevation. */
  datatype PassEvent = PassEvent(startTime: real, maxTime: real, endTime: real, maxElevationDeg: real)

  /** Peak sentinel the source uses while no pass is open. */
  const NoPeak: real := -1000000000.0

  /** `max(0.0, min(1.0, frac))` */
  function Clamp01(frac: real): (r: real)
    ensures 0.0 <= r <= 1.0
    ensures 0.0 <= frac <= 1.0 ==> r == frac
  {
    if 1.0 < frac then 1.0 else if frac < 0.0 then 0.0 else frac
  }

  /**
   * Time at which the chord from (t0, y0) to (t1, y1) reaches the level y,
   * clamped to the sample interval; t0 when the two samples are level.
   */
  function InterpTime(t0: real, t1: real, y0: real, y1: real, y: real): (r: real)
    // degenerate pair: no division, the earlier time
    ensures y1 == y0 ==> r == t0
  {
    if y1 == y0 then t0 else t0 + (t1 - t0) * Clamp01((y - y0) / (y1 - y0))
  }

  /** The interpolated time never leaves the sample interval. */
  lemma InterpTimeWithin(t0: real, t1: real, y0: real, y1: real, y: real)
    requires t0 <= t1
    ensures t0 <= InterpTime(t0, t1, y0, y1, y) <= t1
  {
    if y1 != y0 {
      var c := Clamp01((y - y0) / (y1 - y0));
      var d := t1 - t0;
      ScaledFraction(d, c);
      assert InterpTime(t0, t1, y0, y1, y) == t0 + d * c;
    }
  }

  /** A fraction of a non-negative length stays within it, strictly for a strict fraction of a positive one. */
  lemma ScaledFraction(d: real, c: real)
    requires 0.0 <= c <= 1.0
    ensures 0.0 <= d ==> 0.0 <= d * c <= d
    ensures 0.0 < d && 0.0 < c < 1.0 ==> 0.0 < d * c < d
  {
    assert d - d * c == d * (1.0 - c);
  }

  /** Where a quotient a / d lies relative to 0 and 1, read off the signs of a and d. */
  lemma QuotientAgainstUnit(a: real, d: real)
    requires d != 0.0
    ensures (a / d) * d == a
    ensures 0.0 < d ==> (a / d <= 0.0 <==> a <= 0.0) && (1.0 <= a / d <==> d <= a)
    ensures d < 0.0 ==> (a / d <= 0.0 <==> 0.0 <= a) && (1.0 <= a / d <==> a <= d)
  {
    var q := a / d;
    assert q * d == a;
    assert (q - 1.0) * d == a - d;
    if 0.0 < d {
      assert q <= 0.0 ==> q * d <= 0.0;
      assert q > 0.0 ==> q * d > 0.0;
      assert q - 1.0 >= 0.0 ==> (q - 1.0) * d >= 0.0;
      assert q - 1.0 < 0.0 ==> (q - 1.0) * d < 0.0;
    } else {
      assert q <= 0.0 ==> q * d >= 0.0;
      assert q > 0.0 ==> q * d < 0.0;
      assert q - 1.0 >= 0.0 ==> (q - 1.0) * d <= 0.0;
      assert q - 1.0 < 0.0 ==> (q - 1.0) * d > 0.0;
    }
  }

  /**
   * The interpolated time is the crossing of the chord when the level lies
   * between the two samples, and is clamped to the nearer end otherwise.
   */
  lemma InterpTimeOnChord(t0: real, t1: real, y0: real, y1: real, y: real)
    requires y0 != y1
    ensures var r := InterpTime(t0, t1, y0, y1, y);
      && ((y0 <= y <= y1 || y1 <= y <= y0) ==> (r - t0) * (y1 - y0) == (y - y0) * (t1 - t0))
      && ((y0 < y1 && y1 <= y) || (y1 < y0 && y <= y1) ==> r == t1)
      && ((y0 < y1 && y <= y0) || (y1 < y0 && y0 <= y) ==> r == t0)
      && (t0 < t1 && (y0 < y < y1 || y1 < y < y0) ==> t0 < r < t1)
  {
    QuotientAgainstUnit(y - y0, y1 - y0);
    var frac := (y - y0) / (y1 - y0);
    if (y0 <= y <= y1 || y1 <= y <= y0) {
      assert 0.0 <= frac <= 1.0;
      assert (t1 - t0) * frac * (y1 - y0) == (t1 - t0) * (y - y0);
    }
    if t0 < t1 && (y0 < y < y1 || y1 < y < y0) {
      assert 0.0 < frac < 1.0;
      ScaledFraction(t1 - t0, frac);
    }
  }

  /** The scanner's two states; `Above` carries the open pass's AOS and running peak. */
  datatype ScanState = Below | Above(aosTime: real, maxEl: real, maxTime: real)

  /**
   * One transition over the sample pair (t0, e0) -> (t1, e1): the new state
   * and the passes completed by it (none or one).
   */
  function Step(st: ScanState, t0: real, t1: real, e0: real, e1: real, thr: real): (r: (ScanState, seq<PassEvent>))
    ensures |r.1| <= 1
    ensures r.1 != [] <==> st.Above? && e0 > thr && e1 <= thr
    ensures r.1 != [] ==> r.0.Below? && r.1[0].startTime == st.aosTime
  {
    match st
    case Below =>
      if e0 <= thr && e1 > thr then
        (Above(InterpTime(t0, t1, e0, e1, thr), e1, t1), [])
      else if e1 > thr && e0 > thr then
        (Above(t0, if e0 >= e1 then e0 else e1, if e0 >= e1 then t0 else t1), [])
      else
        (Below, [])
    case Above(aos, m, mt) =>
      var m', mt' := if e1 > m then e1 else m, if e1 > m then t1 else mt;
      if e0 > thr && e1 <= thr then
        (Below, [PassEvent(aos, mt', InterpTime(t0, t1, e0, e1, thr), m')])
      else
        (Above(aos, m', mt'), [])
  }

  /**
   * State and completed passes once samples 0 .. k-1 have been consumed
   * (that is, after the pairs ending at indices 1 .. k-1).
   */
  function ScanUpTo(times: seq<real>, elev: seq<real>, thr: real, k: nat): (r: (ScanState, seq<PassEvent>))
    requires 1 <= k <= |times| == |elev|
    ensures |r.1| <= k - 1
  {
    if k == 1 then (Below, [])
    else
      var prev := ScanUpTo(times, elev, thr, k - 1);
      var next := Step(prev.0, times[k - 2], times[k - 1], elev[k - 2], elev[k - 1], thr);
      (next.0, prev.1 + next.1)
  }

  /** A pass still open when the samples run out is closed at the last timestamp. */
  function Close(st: ScanState, lastTime: real): (r: seq<PassEvent>)
    ensures |r| <= 1 && (r != [] <==> st.Above?)
    ensures r != [] ==> r[0].startTime == st.aosTime && r[0].endTime == lastTime && r[0].maxElevationDeg == st.maxEl
  {
    match st
    case Below => []
    case Above(aos, m, mt) => [PassEvent(aos, mt, lastTime, m)]
  }

  /** The passes the scanner reports: none for empty or mismatched input. */
  function Passes(times: seq<real>, elev: seq<real>, thr: real): (r: seq<PassEvent>)
    ensures |r| <= |times|
  {
    if |times| == 0 || |times| != |elev| then []
    else
      var final := ScanUpTo(times, elev, thr, |times|);
      final.1 + Close(final.0, times[|times| - 1])
  }

  /** The source's locals agree with the reference state after the same samples. */
  ghost predicate Tracks(scan: (ScanState, seq<PassEvent>), passes: seq<PassEvent>, inPass: bool,
                         aosTime: Option<real>, maxEl: real, maxTime: Option<real>)
  {
    && scan.1 == passes
    && match scan.0
       case Below => !inPass && aosTime == None && maxEl == NoPeak && maxTime == None
       case Above(aos, m, mt) => inPass && aosTime == Some(aos) && maxEl == m && maxTime == Some(mt)
  }

  /** `detect_passes`: a single forward scan over consecutive sample pairs. */
  method DetectPasses(times: seq<real>, elevDeg: seq<real>, thresholdDeg: real) returns (passes: seq<PassEvent>)
    ensures passes == Passes(times, elevDeg, thresholdDeg)
    ensures |times| == 0 || |times| != |elevDeg| ==> passes == []
  {
    if |times| == 0 || |times| != |elevDeg| {
      return [];
    }
    passes := [];
    var inPass := false;
    var aosTime: Option<real> := None;
    var maxEl := NoPeak;
    var maxTime: Option<real> := None;
    for i := 1 to |times|
      invariant Tracks(ScanUpTo(times, elevDeg, thresholdDeg, i), passes, inPass, aosTime, maxEl, maxTime)
    {
      var t0, t1 := times[i - 1], times[i];
      var e0, e1 := elevDeg[i - 1], elevDeg[i];
      if !inPass {
        if e0 <= thresholdDeg && e1 > thresholdDeg {
          aosTime := Some(InterpTime(t0, t1, e0, e1, thresholdDeg));
          inPass := true;
          maxEl := e1;
          maxTime := Some(t1);
        } else if e1 > thresholdDeg && e0 > thresholdDeg && aosTime == None {
          aosTime := Some(t0);
          inPass := true;
          maxEl := if e1 > e0 then e1 else e0;
          maxTime := Some(if e0 >= e1 then t0 else t1);
        }
      } else {
        if e1 > maxEl {
          maxEl := e1;
          maxTime := Some(t1);
        }
        if e0 > thresholdDeg && e1 <= thresholdDeg {
          var losTime := InterpTime(t0, t1, e0, e1, thresholdDeg);
          passes := passes + [PassEvent(aosTime.value, maxTime.value, losTime, maxEl)];
          inPass := false;
          aosTime := None;
          maxEl := NoPeak;
          maxTime := None;
        }
      }
    }
    if inPass && aosTime != None {
      passes := passes + [PassEvent(aosTime.value, maxTime.value, times[|times| - 1], maxEl)];
    }
  }
}
