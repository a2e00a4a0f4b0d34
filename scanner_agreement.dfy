/**
 * How the streaming scanner relates to the batch scanner: fed the same
 * timestamped samples and then finalized, it reports exactly the batch
 * passes, except at the start of the window, where a first sample above the
 * threshold opens a pass on its own. The batch scanner needs the first two
 * samples above the threshold for that, so a lone first sample above it
 * (followed by one at or below, or by nothing) yields one extra streaming pass.
 */
module ScannerAgreement {
  import opened Wrappers
  import opened PassDetection
  import opened PassProperties
  import opened StreamingDetection

  /** The detector after `update` has been called on samples 0 .. k-1, each with its timestamp. */
  function Fed(thr: real, times: seq<real>, elev: seq<real>, k: nat): DetectorState
    requires k <= |times| == |elev|
  {
    if k == 0 then Initial(thr) else Updated(Fed(thr, times, elev, k - 1), elev[k - 1], Some(times[k - 1]))
  }

  /** What `get_passes()` returns once every sample has been fed. */
  function StreamPasses(thr: real, times: seq<real>, elev: seq<real>): seq<StreamPassEvent>
    requires |times| == |elev|
  {
    Finalized(Fed(thr, times, elev, |times|)).passes
  }

  function ToStream(p: PassEvent): StreamPassEvent
  {
    StreamPassEvent(Some(p.startTime), Some(p.maxTime), Some(p.endTime), p.maxElevationDeg)
  }

  function Lift(ps: seq<PassEvent>): (r: seq<StreamPassEvent>)
    ensures |r| == |ps| && forall i :: 0 <= i < |ps| ==> r[i] == ToStream(ps[i])
  {
    seq(|ps|, i requires 0 <= i < |ps| => ToStream(ps[i]))
  }

  /**
   * The pass only the streaming scanner reports: a first sample above the
   * threshold that is the only sample, or is followed by one at or below it.
   */
  function LoneFirstPass(times: seq<real>, elev: seq<real>, thr: real): seq<StreamPassEvent>
    requires |times| == |elev|
  {
    if |times| >= 1 && elev[0] > thr && (|times| == 1 || elev[1] <= thr) then
      var los := if |times| == 1 then times[0] else InterpTime(times[0], times[1], elev[0], elev[1], thr);
      [StreamPassEvent(Some(times[0]), Some(times[0]), Some(los), elev[0])]
    else []
  }

  /** The detector's pass-tracking fields hold what the batch scan state holds. */
  ghost predicate Matches(s: DetectorState, st: ScanState)
  {
    match st
    case Below => !s.inPass
    case Above(aos, m, mt) => s.inPass && s.aosTime == Some(aos) && s.maxEl == m && s.maxTime == Some(mt)
  }

  /** The detector's fields agree with the batch scan state after the same k samples. */
  ghost predicate Simulates(s: DetectorState, scan: (ScanState, seq<PassEvent>), extra: seq<StreamPassEvent>,
                            times: seq<real>, elev: seq<real>, thr: real, k: nat)
    requires 1 <= k <= |times| == |elev|
  {
    && s.thresholdDeg == thr
    && s.prevTime == Some(times[k - 1])
    && s.prevElev == elev[k - 1]
    && s.passes == extra + Lift(scan.1)
    && Matches(s, scan.0)
  }

  lemma LiftAppend(ps: seq<PassEvent>, out: seq<PassEvent>)
    ensures Lift(ps + out) == Lift(ps) + Lift(out)
  {
  }

  /**
   * One update of the detector mirrors one step of the batch scan, provided
   * the batch scan is not idle with the previous sample above the threshold
   * (a state it never reaches after its first pair).
   */
  lemma UpdateMirrorsStep(s: DetectorState, st: ScanState, extra: seq<StreamPassEvent>, ps: seq<PassEvent>,
                          t0: real, t1: real, e0: real, e1: real, thr: real)
    requires s.thresholdDeg == thr && s.prevTime == Some(t0) && s.prevElev == e0
    requires s.passes == extra + Lift(ps) && Matches(s, st)
    requires st.Below? ==> e0 <= thr
    ensures var s' := Updated(s, e1, Some(t1));
            var next := Step(st, t0, t1, e0, e1, thr);
            && s'.thresholdDeg == thr && s'.prevTime == Some(t1) && s'.prevElev == e1
            && s'.passes == extra + Lift(ps + next.1) && Matches(s', next.0)
  {
    var next := Step(st, t0, t1, e0, e1, thr);
    LiftAppend(ps, next.1);
    match st
    case Below =>
      if e1 > thr {
        assert next == (Above(InterpTime(t0, t1, e0, e1, thr), e1, t1), []);
      } else {
        assert next == (Below, []);
      }
    case Above(aos, m, mt) =>
      var m', mt' := if e1 > m then e1 else m, if e1 > m then t1 else mt;
      if e0 > thr && e1 <= thr {
        assert next == (Below, [PassEvent(aos, mt', InterpTime(t0, t1, e0, e1, thr), m')]);
      } else {
        assert next == (Above(aos, m', mt'), []);
      }
  }

  /** After the first two samples, the detector mirrors the batch scan, with the lone-first-sample pass in front. */
  lemma FirstPairSimulated(times: seq<real>, elev: seq<real>, thr: real)
    requires 2 <= |times| == |elev|
    ensures Simulates(Fed(thr, times, elev, 2), ScanUpTo(times, elev, thr, 2), LoneFirstPass(times, elev, thr),
                      times, elev, thr, 2)
  {
    var t0, t1, e0, e1 := times[0], times[1], elev[0], elev[1];
    var s1 := Fed(thr, times, elev, 1);
    var s2 := Fed(thr, times, elev, 2);
    assert Fed(thr, times, elev, 0) == Initial(thr);
    assert s1 == Updated(Initial(thr), e0, Some(t0));
    assert s2 == Updated(s1, e1, Some(t1));
    var scan := ScanUpTo(times, elev, thr, 2);
    assert ScanUpTo(times, elev, thr, 1) == (Below, []);
    assert scan == (Step(Below, t0, t1, e0, e1, thr).0, [] + Step(Below, t0, t1, e0, e1, thr).1);
    assert Lift([]) == [];
    if e0 > thr {
      assert s1 == Initial(thr).(prevTime := Some(t0), prevElev := e0, inPass := true, aosTime := Some(t0), maxEl := e0, maxTime := Some(t0));
      if e1 > thr {
        assert scan == (Above(t0, if e0 >= e1 then e0 else e1, if e0 >= e1 then t0 else t1), []);
      } else {
        assert scan == (Below, []);
        var los := InterpTime(t0, t1, e0, e1, thr);
        assert s2.passes == [StreamPassEvent(Some(t0), Some(t0), Some(los), e0)];
      }
    } else {
      assert s1 == Initial(thr).(prevTime := Some(t0), prevElev := e0);
      UpdateMirrorsStep(s1, Below, [], [], t0, t1, e0, e1, thr);
    }
  }

  lemma {:induction false} FedSimulatesScan(times: seq<real>, elev: seq<real>, thr: real, k: nat)
    requires 2 <= k <= |times| == |elev|
    ensures Simulates(Fed(thr, times, elev, k), ScanUpTo(times, elev, thr, k), LoneFirstPass(times, elev, thr),
                      times, elev, thr, k)
  {
    if k == 2 {
      FirstPairSimulated(times, elev, thr);
    } else {
      FedSimulatesScan(times, elev, thr, k - 1);
      StateFollowsLastSample(times, elev, thr, k - 1);
      var prev := ScanUpTo(times, elev, thr, k - 1);
      var s := Fed(thr, times, elev, k - 1);
      UpdateMirrorsStep(s, prev.0, LoneFirstPass(times, elev, thr), prev.1,
                        times[k - 2], times[k - 1], elev[k - 2], elev[k - 1], thr);
      var next := Step(prev.0, times[k - 2], times[k - 1], elev[k - 2], elev[k - 1], thr);
      assert ScanUpTo(times, elev, thr, k) == (next.0, prev.1 + next.1);
    }
  }

  /**
   * Fed the same timestamped samples and finalized, the streaming scanner
   * reports the batch scanner's passes, preceded by the lone-first-sample pass
   * when there is one.
   */
  lemma StreamingMatchesBatch(times: seq<real>, elev: seq<real>, thr: real)
    requires |times| == |elev|
    ensures StreamPasses(thr, times, elev) == LoneFirstPass(times, elev, thr) + Lift(Passes(times, elev, thr))
  {
    if |times| < 2 {
      ShortWindowsMatch(times, elev, thr);
    } else {
      LongWindowsMatch(times, elev, thr);
    }
  }

  lemma ShortWindowsMatch(times: seq<real>, elev: seq<real>, thr: real)
    requires |times| == |elev| < 2
    ensures StreamPasses(thr, times, elev) == LoneFirstPass(times, elev, thr) + Lift(Passes(times, elev, thr))
  {
    assert Passes(times, elev, thr) == [];
    assert Lift([]) == [];
    if |times| == 1 {
      assert Fed(thr, times, elev, 0) == Initial(thr);
      assert Fed(thr, times, elev, 1) == Updated(Initial(thr), elev[0], Some(times[0]));
    }
  }

  lemma LongWindowsMatch(times: seq<real>, elev: seq<real>, thr: real)
    requires |times| == |elev| >= 2
    ensures StreamPasses(thr, times, elev) == LoneFirstPass(times, elev, thr) + Lift(Passes(times, elev, thr))
  {
    var n := |times|;
    FedSimulatesScan(times, elev, thr, n);
    var final := ScanUpTo(times, elev, thr, n);
    match final.0
    case Below =>
      assert Passes(times, elev, thr) == final.1;
    case Above(aos, m, mt) =>
      var last := PassEvent(aos, mt, times[n - 1], m);
      assert Passes(times, elev, thr) == final.1 + [last];
      assert Lift(final.1 + [last]) == Lift(final.1) + [ToStream(last)];
  }

  /**
   * The two scanners agree exactly when the window does not start with a lone
   * sample above the threshold.
   */
  lemma AgreeUnlessLoneFirstSample(times: seq<real>, elev: seq<real>, thr: real)
    requires |times| == |elev|
    ensures StreamPasses(thr, times, elev) == Lift(Passes(times, elev, thr))
        <==> !(|times| >= 1 && elev[0] > thr && (|times| == 1 || elev[1] <= thr))
  {
    StreamingMatchesBatch(times, elev, thr);
  }

  /**
   * A first sample above the threshold followed by one at or below it: the
   * streaming scanner reports a pass starting at the first timestamp, the
   * batch scanner reports none.
   */
  lemma LoneFirstSampleAboveThenBelow(t0: real, t1: real, e0: real, e1: real, thr: real)
    requires e0 > thr >= e1
    ensures StreamPasses(thr, [t0, t1], [e0, e1]) == [StreamPassEvent(Some(t0), Some(t0), Some(InterpTime(t0, t1, e0, e1, thr)), e0)]
    ensures Passes([t0, t1], [e0, e1], thr) == []
  {
    StreamingMatchesBatch([t0, t1], [e0, e1], thr);
    NoPassWithoutLaterSampleAbove([t0, t1], [e0, e1], thr);
  }

  /** Finalizing twice, or calling `get_passes()` again, reports nothing new. */
  lemma FinalizeIdempotent(s: DetectorState)
    ensures Finalized(Finalized(s)) == Finalized(s)
    ensures |Finalized(s).passes| <= |s.passes| + 1
  {
  }
}
