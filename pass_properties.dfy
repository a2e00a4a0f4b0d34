/**
 * What the batch scanner promises: the state it is in is decided by the last
 * sample, passes are well formed and chronological, an at-or-below sample
 * resets it, and a single excursion above the threshold is reported as one
 * pass whose peak is the earliest maximum of the excursion.
 */
module PassProperties {
  import opened PassDetection

  ghost predicate Nondecreasing(times: seq<real>)
  {
    forall i, j :: 0 <= i <= j < |times| ==> times[i] <= times[j]
  }

  /** AOS <= peak time <= LOS, and the peak is above the threshold. */
  ghost predicate WellFormed(p: PassEvent, thr: real)
  {
    p.startTime <= p.maxTime <= p.endTime && p.maxElevationDeg > thr
  }

  /** Every pass ends no later than any later pass starts. */
  ghost predicate Chronological(ps: seq<PassEvent>)
  {
    forall i, j :: 0 <= i < j < |ps| ==> ps[i].endTime <= ps[j].startTime
  }

  /** After at least one pair, the scanner is inside a pass exactly when the last sample is above the threshold. */
  lemma {:induction false} StateFollowsLastSample(times: seq<real>, elev: seq<real>, thr: real, k: nat)
    requires 2 <= k <= |times| == |elev|
    ensures ScanUpTo(times, elev, thr, k).0.Above? <==> elev[k - 1] > thr
  {
    if k > 2 {
      StateFollowsLastSample(times, elev, thr, k - 1);
    }
  }

  /** While no further sample rises above the threshold, a scanner below it stays below and reports nothing. */
  lemma {:induction false} QuietWhileBelow(times: seq<real>, elev: seq<real>, thr: real, j: nat, k: nat, ps: seq<PassEvent>)
    requires 1 <= j <= k <= |times| == |elev|
    requires ScanUpTo(times, elev, thr, j) == (Below, ps)
    requires forall i :: j <= i < k ==> elev[i] <= thr
    ensures ScanUpTo(times, elev, thr, k) == (Below, ps)
  {
    if k > j {
      QuietWhileBelow(times, elev, thr, j, k - 1, ps);
      var next := Step(Below, times[k - 2], times[k - 1], elev[k - 2], elev[k - 1], thr);
      assert next == (Below, []);
      assert ScanUpTo(times, elev, thr, k) == (next.0, ps + next.1);
      assert ps + [] == ps;
    }
  }

  /**
   * No sample after the first rises above the threshold, so no pass: in
   * particular a series that never exceeds it, and any series of fewer than
   * two samples, even when the first (or only) one is above.
   */
  lemma NoPassWithoutLaterSampleAbove(times: seq<real>, elev: seq<real>, thr: real)
    requires forall i :: 1 <= i < |elev| ==> elev[i] <= thr
    ensures Passes(times, elev, thr) == []
  {
    if 0 < |times| == |elev| {
      QuietWhileBelow(times, elev, thr, 1, |times|, []);
    }
  }

  /** The invariant the scan keeps over nondecreasing timestamps. */
  ghost predicate ScanInvariant(times: seq<real>, thr: real, k: nat, scan: (ScanState, seq<PassEvent>))
    requires 1 <= k <= |times|
  {
    var ps := scan.1;
    && (forall i :: 0 <= i < |ps| ==> WellFormed(ps[i], thr) && times[0] <= ps[i].startTime && ps[i].endTime <= times[k - 1])
    && Chronological(ps)
    && match scan.0
       case Below => true
       case Above(aos, m, mt) =>
         && times[0] <= aos <= mt <= times[k - 1]
         && m > thr
         && (forall i :: 0 <= i < |ps| ==> ps[i].endTime <= aos)
  }

  lemma {:induction false} ScanInvariantHolds(times: seq<real>, elev: seq<real>, thr: real, k: nat)
    requires 1 <= k <= |times| == |elev|
    requires Nondecreasing(times)
    ensures ScanInvariant(times, thr, k, ScanUpTo(times, elev, thr, k))
  {
    if k > 1 {
      ScanInvariantHolds(times, elev, thr, k - 1);
      var prev := ScanUpTo(times, elev, thr, k - 1);
      var t0, t1, e0, e1 := times[k - 2], times[k - 1], elev[k - 2], elev[k - 1];
      assert t0 <= t1;
      var next := Step(prev.0, t0, t1, e0, e1, thr);
      var ps := prev.1 + next.1;
      assert ScanUpTo(times, elev, thr, k) == (next.0, ps);
      InterpTimeWithin(t0, t1, e0, e1, thr);
      match prev.0
      case Below =>
        assert next.1 == [];
        assert ps == prev.1;
      case Above(aos, m, mt) =>
        if e0 > thr && e1 <= thr {
          var p := PassEvent(aos, mt, InterpTime(t0, t1, e0, e1, thr), m);
          assert next == (Below, [p]);
          assert forall i :: 0 <= i < |ps| ==> ps[i] == if i < |prev.1| then prev.1[i] else p;
        } else {
          assert ps == prev.1;
        }
    }
  }

  /**
   * Over nondecreasing timestamps every pass has AOS <= peak time <= LOS,
   * a peak above the threshold, lies within the sampled window, and the
   * passes come out in chronological order without overlapping.
   */
  lemma PassesWellFormed(times: seq<real>, elev: seq<real>, thr: real)
    requires |times| == |elev|
    requires Nondecreasing(times)
    ensures var ps := Passes(times, elev, thr);
      && (forall i :: 0 <= i < |ps| ==> WellFormed(ps[i], thr))
      && (forall i :: 0 <= i < |ps| ==> times[0] <= ps[i].startTime && ps[i].endTime <= times[|times| - 1])
      && Chronological(ps)
  {
    if |times| > 0 {
      var n := |times|;
      ScanInvariantHolds(times, elev, thr, n);
      var final := ScanUpTo(times, elev, thr, n);
      var ps := Passes(times, elev, thr);
      assert ps == final.1 + Close(final.0, times[n - 1]);
      match final.0
      case Below =>
      case Above(aos, m, mt) =>
        assert forall i :: 0 <= i < |ps| ==> ps[i] == if i < |final.1| then final.1[i] else PassEvent(aos, mt, times[n - 1], m);
    }
  }

  /** A pass that is open after some prefix is reported, with that AOS, right after the passes completed so far. */
  lemma {:induction false} OpenPassIsReported(times: seq<real>, elev: seq<real>, thr: real, j: nat, k: nat)
    requires 1 <= j <= k <= |times| == |elev|
    requires ScanUpTo(times, elev, thr, j).0.Above?
    ensures var done := ScanUpTo(times, elev, thr, j).1;
      var scan := ScanUpTo(times, elev, thr, k);
      || (scan.0.Above? && scan.0.aosTime == ScanUpTo(times, elev, thr, j).0.aosTime && scan.1 == done)
      || (|scan.1| > |done| && scan.1[..|done|] == done && scan.1[|done|].startTime == ScanUpTo(times, elev, thr, j).0.aosTime)
  {
    if k > j {
      OpenPassIsReported(times, elev, thr, j, k - 1);
      var done := ScanUpTo(times, elev, thr, j).1;
      var prev := ScanUpTo(times, elev, thr, k - 1);
      var scan := ScanUpTo(times, elev, thr, k);
      assert scan.1[..|prev.1|] == prev.1;
      if |prev.1| > |done| {
        assert scan.1[..|done|] == prev.1[..|done|];
      }
    }
  }

  /** A window that opens with two samples above the threshold reports a first pass whose AOS is the first timestamp. */
  lemma StartingAboveGivesAosAtFirstSample(times: seq<real>, elev: seq<real>, thr: real)
    requires 2 <= |times| == |elev|
    requires elev[0] > thr && elev[1] > thr
    ensures var ps := Passes(times, elev, thr); |ps| > 0 && ps[0].startTime == times[0]
  {
    var n := |times|;
    assert ScanUpTo(times, elev, thr, 2).0 == Above(times[0], if elev[0] >= elev[1] then elev[0] else elev[1],
                                                      if elev[0] >= elev[1] then times[0] else times[1]);
    OpenPassIsReported(times, elev, thr, 2, n);
  }

  /** Scanning a prefix of the samples agrees with the scan of the whole series so far. */
  lemma {:induction false} PrefixScan(times: seq<real>, elev: seq<real>, thr: real, j: nat, k: nat)
    requires 1 <= k <= j <= |times| == |elev|
    ensures ScanUpTo(times[..j], elev[..j], thr, k) == ScanUpTo(times, elev, thr, k)
  {
    if k > 1 {
      PrefixScan(times, elev, thr, j, k - 1);
    }
  }

  /** Once the scanner is below the threshold after sample m, the rest is a fresh scan of the samples from m on. */
  lemma {:induction false} ScanRestartsBelow(times: seq<real>, elev: seq<real>, thr: real, m: nat, k: nat)
    requires m + 1 <= k <= |times| == |elev|
    requires ScanUpTo(times, elev, thr, m + 1).0 == Below
    ensures var rest := ScanUpTo(times[m..], elev[m..], thr, k - m);
      ScanUpTo(times, elev, thr, k) == (rest.0, ScanUpTo(times, elev, thr, m + 1).1 + rest.1)
  {
    var done := ScanUpTo(times, elev, thr, m + 1).1;
    if k > m + 1 {
      ScanRestartsBelow(times, elev, thr, m, k - 1);
      var ts, es := times[m..], elev[m..];
      assert ts[k - m - 2] == times[k - 2] && ts[k - m - 1] == times[k - 1];
      assert es[k - m - 2] == elev[k - 2] && es[k - m - 1] == elev[k - 1];
      var rest := ScanUpTo(ts, es, thr, k - m - 1);
      var next := Step(rest.0, times[k - 2], times[k - 1], elev[k - 2], elev[k - 1], thr);
      assert ScanUpTo(ts, es, thr, k - m) == (next.0, rest.1 + next.1);
      assert ScanUpTo(times, elev, thr, k) == (next.0, done + rest.1 + next.1);
      assert done + rest.1 + next.1 == done + (rest.1 + next.1);
    } else {
      assert ScanUpTo(times[m..], elev[m..], thr, 1) == (Below, []);
      assert done + [] == done;
    }
  }

  /**
   * A sample at or below the threshold resets the scanner: the passes of the
   * whole series are those up to that sample followed by those from it on.
   */
  lemma ResetAtSampleBelow(times: seq<real>, elev: seq<real>, thr: real, m: nat)
    requires m < |times| == |elev|
    requires elev[m] <= thr
    ensures Passes(times, elev, thr) == Passes(times[..m + 1], elev[..m + 1], thr) + Passes(times[m..], elev[m..], thr)
  {
    if m >= 1 {
      StateFollowsLastSample(times, elev, thr, m + 1);
    }
    PassesUpToReset(times, elev, thr, m);
    PassesAfterReset(times, elev, thr, m);
  }

  /** The passes of a prefix ending below the threshold are those its scan completed. */
  lemma PassesUpToReset(times: seq<real>, elev: seq<real>, thr: real, m: nat)
    requires m < |times| == |elev|
    requires ScanUpTo(times, elev, thr, m + 1).0 == Below
    ensures Passes(times[..m + 1], elev[..m + 1], thr) == ScanUpTo(times, elev, thr, m + 1).1
  {
    var head := ScanUpTo(times, elev, thr, m + 1);
    PrefixScan(times, elev, thr, m + 1, m + 1);
    PassesOfScan(times[..m + 1], elev[..m + 1], thr);
    assert head.1 + Close(Below, times[m]) == head.1;
  }

  /** Once the scan is below the threshold after sample m, the series' passes are those so far plus those of a fresh scan from m. */
  lemma PassesAfterReset(times: seq<real>, elev: seq<real>, thr: real, m: nat)
    requires m < |times| == |elev|
    requires ScanUpTo(times, elev, thr, m + 1).0 == Below
    ensures Passes(times, elev, thr) == ScanUpTo(times, elev, thr, m + 1).1 + Passes(times[m..], elev[m..], thr)
  {
    var n := |times|;
    var head := ScanUpTo(times, elev, thr, m + 1);
    var ts, es := times[m..], elev[m..];
    var rest := ScanUpTo(ts, es, thr, n - m);
    var tail := Close(rest.0, times[n - 1]);
    assert Passes(ts, es, thr) == rest.1 + tail by {
      PassesOfScan(ts, es, thr);
      assert ts[n - m - 1] == times[n - 1];
    }
    ScanRestartsBelow(times, elev, thr, m, n);
    PassesOfScan(times, elev, thr);
    assert head.1 + rest.1 + tail == head.1 + (rest.1 + tail);
  }

  /** The passes of a non-empty series: those the scan completes, then the one left open, if any. */
  lemma PassesOfScan(times: seq<real>, elev: seq<real>, thr: real)
    requires 1 <= |times| == |elev|
    ensures var scan := ScanUpTo(times, elev, thr, |times|);
      Passes(times, elev, thr) == scan.1 + Close(scan.0, times[|times| - 1])
  {
  }

  /**
   * A first sample above the threshold followed by one at or below it opens
   * no pass: the result is that of the series without its first sample.
   */
  lemma FirstSampleAloneIsDropped(times: seq<real>, elev: seq<real>, thr: real)
    requires 2 <= |times| == |elev|
    requires elev[0] > thr >= elev[1]
    ensures Passes(times, elev, thr) == Passes(times[1..], elev[1..], thr)
  {
    ResetAtSampleBelow(times, elev, thr, 1);
    assert Passes(times[..2], elev[..2], thr) == [] by {
      var ts, es := times[..2], elev[..2];
      assert es[0] > thr >= es[1];
      assert ScanUpTo(ts, es, thr, 2) == (Below, []);
      PassesOfScan(ts, es, thr);
    }
    assert [] + Passes(times[1..], elev[1..], thr) == Passes(times[1..], elev[1..], thr);
  }

  /** Index of the earliest maximum of elev[a..b]. */
  function PeakIndex(elev: seq<real>, a: nat, b: nat): (r: nat)
    requires a < b <= |elev|
    ensures a <= r < b
    ensures forall i :: a <= i < b ==> elev[i] <= elev[r]
    ensures forall i :: a <= i < r ==> elev[i] < elev[r]
  {
    if b == a + 1 then a
    else
      var j := PeakIndex(elev, a, b - 1);
      if elev[b - 1] > elev[j] then b - 1 else j
  }

  /** AOS of an excursion starting at sample a: interpolated, or the first timestamp when it starts the window. */
  function ExcursionAos(times: seq<real>, elev: seq<real>, thr: real, a: nat): real
    requires a < |times| == |elev|
  {
    if a == 0 then times[0] else InterpTime(times[a - 1], times[a], elev[a - 1], elev[a], thr)
  }

  /** Samples a .. b-1 are the only ones above the threshold among 0 .. b-1. */
  ghost predicate ExcursionSoFar(elev: seq<real>, thr: real, a: nat, b: nat)
    requires a < b <= |elev|
  {
    && (forall i :: 0 <= i < a ==> elev[i] <= thr)
    && (forall i :: a <= i < b ==> elev[i] > thr)
  }

  lemma {:induction false} InsideExcursion(times: seq<real>, elev: seq<real>, thr: real, a: nat, k: nat)
    requires a < k <= |times| == |elev| && 2 <= k
    requires ExcursionSoFar(elev, thr, a, k)
    ensures var p := PeakIndex(elev, a, k);
      ScanUpTo(times, elev, thr, k) == (Above(ExcursionAos(times, elev, thr, a), elev[p], times[p]), [])
  {
    if k == a + 1 || k == 2 {
      if a >= 1 {
        QuietWhileBelow(times, elev, thr, 1, a, []);
        assert k == a + 1;
        var next := Step(Below, times[a - 1], times[a], elev[a - 1], elev[a], thr);
        assert next == (Above(ExcursionAos(times, elev, thr, a), elev[a], times[a]), []);
        assert ScanUpTo(times, elev, thr, a + 1) == (next.0, ScanUpTo(times, elev, thr, a).1 + next.1);
        assert ScanUpTo(times, elev, thr, a).1 == [];
        assert next.1 == [];
        assert PeakIndex(elev, a, k) == a;
        assert ScanUpTo(times, elev, thr, a + 1).1 == [];
      } else {
        assert k == 2;
        var next := Step(Below, times[0], times[1], elev[0], elev[1], thr);
        assert PeakIndex(elev, 0, 2) == if elev[1] > elev[0] then 1 else 0;
        assert next == (Above(times[0], elev[PeakIndex(elev, 0, 2)], times[PeakIndex(elev, 0, 2)]), []);
        assert ScanUpTo(times, elev, thr, 2) == (next.0, [] + next.1);
        assert ExcursionAos(times, elev, thr, a) == times[0];
        assert [] + next.1 == [];
      }
    } else {
      InsideExcursion(times, elev, thr, a, k - 1);
      var p := PeakIndex(elev, a, k - 1);
      var open := Above(ExcursionAos(times, elev, thr, a), elev[p], times[p]);
      var next := Step(open, times[k - 2], times[k - 1], elev[k - 2], elev[k - 1], thr);
      assert next == (Above(ExcursionAos(times, elev, thr, a), elev[PeakIndex(elev, a, k)], times[PeakIndex(elev, a, k)]), []);
      assert ScanUpTo(times, elev, thr, k) == (next.0, ScanUpTo(times, elev, thr, k - 1).1 + next.1);
      assert ScanUpTo(times, elev, thr, k - 1).1 + next.1 == [];
    }
  }

  /**
   * A series whose samples above the threshold form one run a .. b-1 (at least
   * two samples long when it starts the window) is reported as exactly one
   * pass: AOS at the upward crossing (the first timestamp when a = 0), peak at
   * the earliest maximum of the run, LOS at the downward crossing or at the
   * last timestamp when the run reaches the end of the window.
   */
  lemma SingleExcursion(times: seq<real>, elev: seq<real>, thr: real, a: nat, b: nat)
    requires a < b <= |times| == |elev| && 2 <= b
    requires ExcursionSoFar(elev, thr, a, b)
    requires forall i :: b <= i < |elev| ==> elev[i] <= thr
    ensures var p := PeakIndex(elev, a, b);
      var n := |times|;
      var los := if b == n then times[n - 1] else InterpTime(times[b - 1], times[b], elev[b - 1], elev[b], thr);
      Passes(times, elev, thr) == [PassEvent(ExcursionAos(times, elev, thr, a), times[p], los, elev[p])]
  {
    var n := |times|;
    InsideExcursion(times, elev, thr, a, b);
    if b < n {
      var p := PeakIndex(elev, a, b);
      var los := InterpTime(times[b - 1], times[b], elev[b - 1], elev[b], thr);
      var open := Above(ExcursionAos(times, elev, thr, a), elev[p], times[p]);
      var next := Step(open, times[b - 1], times[b], elev[b - 1], elev[b], thr);
      assert next == (Below, [PassEvent(ExcursionAos(times, elev, thr, a), times[p], los, elev[p])]);
      assert ScanUpTo(times, elev, thr, b + 1) == (next.0, ScanUpTo(times, elev, thr, b).1 + next.1);
      assert ScanUpTo(times, elev, thr, b).1 == [];
      assert ScanUpTo(times, elev, thr, b).1 + next.1 == next.1;
      assert ScanUpTo(times, elev, thr, b + 1) == (Below, [PassEvent(ExcursionAos(times, elev, thr, a), times[p], los, elev[p])]);
      QuietWhileBelow(times, elev, thr, b + 1, n, [PassEvent(ExcursionAos(times, elev, thr, a), times[p], los, elev[p])]);
    }
  }
}
