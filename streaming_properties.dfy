/** Properties of the streaming scanner's single steps. */
module StreamingProperties {
  import opened Wrappers
  import opened PassDetection
  import opened StreamingDetection

  /** A reported pass has an end time and a peak above the threshold. */
  ghost predicate Reported(p: StreamPassEvent, thr: real)
  {
    p.endTime != None && p.maxElevationDeg > thr
  }

  /**
   * What holds of every detector built by the constructor and `update`:
   * idle means no pass state, an open pass has a peak above the threshold and
   * at least as high as the previous sample, an AOS implies a previous time,
   * and every reported pass has an end time and a peak above the threshold.
   * An open pass need not have an AOS: see `UntimedFirstSampleLosesAos`.
   */
  ghost predicate Consistent(s: DetectorState)
  {
    && (!s.inPass ==> s.aosTime == None && s.maxTime == None && s.maxEl == NoPeak)
    && (s.inPass ==> s.maxEl > s.thresholdDeg && s.maxEl >= s.prevElev)
    && (s.aosTime != None ==> s.prevTime != None)
    && (s.prevTime == None ==> s.passes == [])
    && forall i :: 0 <= i < |s.passes| ==> Reported(s.passes[i], s.thresholdDeg)
  }

  lemma InitialConsistent(thr: real)
    ensures Consistent(Initial(thr))
  {
  }

  /**
   * `update` keeps the detector consistent, only ever appends to the pass list,
   * appends at most one pass, and does so exactly on a downward crossing
   * inside an open pass.
   */
  lemma UpdateKeepsConsistent(s: DetectorState, elevDeg: real, currentTime: Option<real>)
    requires Consistent(s)
    ensures var s' := Updated(s, elevDeg, currentTime);
            && Consistent(s')
            && s'.thresholdDeg == s.thresholdDeg
            && s'.passes[..|s.passes|] == s.passes
            && |s'.passes| == |s.passes| + (if s.prevTime != None && s.inPass && s.prevElev > s.thresholdDeg >= elevDeg then 1 else 0)
  {
    var s' := Updated(s, elevDeg, currentTime);
    var thr := s.thresholdDeg;
    if s.prevTime != None {
      var t := EffectiveTime(s, currentTime);
      assert t != None;
      if s.inPass && s.prevElev > thr >= elevDeg {
        var last := StreamPassEvent(s.aosTime, s.maxTime, Some(InterpTime(s.prevTime.value, t.value, s.prevElev, elevDeg, thr)), s.maxEl);
        assert s'.passes == s.passes + [last];
      } else {
        assert s'.passes == s.passes;
      }
    }
  }

  /**
   * Inside a pass the peak never drops, and it moves only to a strictly greater
   * sample, taken with that sample's time, so the earliest maximum is kept.
   */
  lemma PeakOnlyRises(s: DetectorState, elevDeg: real, currentTime: Option<real>)
    requires s.prevTime != None && s.inPass
    ensures var s' := Updated(s, elevDeg, currentTime);
            s'.inPass ==>
              && s'.maxEl >= s.maxEl
              && (s'.maxEl != s.maxEl ==> s'.maxEl == elevDeg > s.maxEl && s'.maxTime == EffectiveTime(s, currentTime))
              && (elevDeg <= s.maxEl ==> s'.maxEl == s.maxEl && s'.maxTime == s.maxTime)
  {
  }

  /** The first `update` records its sample, and opens a pass on that sample alone when it is above the threshold. */
  lemma FirstUpdateOpensOnItsOwn(thr: real, elevDeg: real, currentTime: Option<real>)
    ensures var s := Updated(Initial(thr), elevDeg, currentTime);
            && s.prevTime == currentTime && s.prevElev == elevDeg && s.passes == []
            && (s.inPass <==> elevDeg > thr)
            && (elevDeg > thr ==> s.aosTime == currentTime && s.maxTime == currentTime && s.maxEl == elevDeg)
  {
  }

  /** Later updates record their sample; an omitted time is the previous one plus the default step. */
  lemma LaterUpdateRecordsSample(s: DetectorState, elevDeg: real, currentTime: Option<real>)
    requires s.prevTime != None
    ensures var s' := Updated(s, elevDeg, currentTime);
            && s'.prevElev == elevDeg
            && s'.prevTime == (if currentTime == None then Some(s.prevTime.value + DefaultStepSeconds) else currentTime)
  {
  }

  /** An upward crossing opens a pass whose AOS lies within the bracketing samples and whose peak is the new sample. */
  lemma UpwardCrossingOpens(s: DetectorState, elevDeg: real, t1: real)
    requires s.prevTime != None && !s.inPass && s.prevElev <= s.thresholdDeg < elevDeg
    requires s.prevTime.value <= t1
    ensures var s' := Updated(s, elevDeg, Some(t1));
            && s'.inPass && s'.aosTime != None && s.prevTime.value <= s'.aosTime.value <= t1
            && s'.maxEl == elevDeg && s'.maxTime == Some(t1) && s'.passes == s.passes
  {
    InterpTimeWithin(s.prevTime.value, t1, s.prevElev, elevDeg, s.thresholdDeg);
  }

  /**
   * A downward crossing inside an open pass appends exactly one pass, ending
   * within the bracketing samples, and clears the pass state.
   */
  lemma DownwardCrossingCloses(s: DetectorState, elevDeg: real, t1: real)
    requires Consistent(s) && s.prevTime != None && s.inPass && s.prevElev > s.thresholdDeg >= elevDeg
    requires s.prevTime.value <= t1
    ensures var s' := Updated(s, elevDeg, Some(t1));
            && |s'.passes| == |s.passes| + 1 && s'.passes[..|s.passes|] == s.passes
            && s'.passes[|s.passes|].startTime == s.aosTime
            && s'.passes[|s.passes|].maxTime == s.maxTime
            && s'.passes[|s.passes|].maxElevationDeg == s.maxEl
            && s'.passes[|s.passes|].endTime != None
            && s.prevTime.value <= s'.passes[|s.passes|].endTime.value <= t1
            && !s'.inPass && s'.aosTime == None && s'.maxTime == None && s'.maxEl == NoPeak
  {
    var t0 := s.prevTime.value;
    InterpTimeWithin(t0, t1, s.prevElev, elevDeg, s.thresholdDeg);
    var p := StreamPassEvent(s.aosTime, s.maxTime, Some(InterpTime(t0, t1, s.prevElev, elevDeg, s.thresholdDeg)), s.maxEl);
    assert Updated(s, elevDeg, Some(t1)).passes == s.passes + [p];
  }

  /**
   * `finalize` reports an open pass with an AOS, ending at the last sample's
   * time, and nothing otherwise; every reported pass still has an end time
   * and a peak above the threshold, and a second `finalize` (or `get_passes`)
   * adds nothing.
   */
  lemma FinalizeReportsOpenPass(s: DetectorState)
    requires Consistent(s)
    ensures var f := Finalized(s);
            && f.passes == (if s.inPass && s.aosTime != None
                            then s.passes + [StreamPassEvent(s.aosTime, s.maxTime, s.prevTime, s.maxEl)]
                            else s.passes)
            && (s.aosTime != None ==> !f.inPass)
            && (forall i :: 0 <= i < |f.passes| ==> Reported(f.passes[i], s.thresholdDeg))
            && Finalized(f) == f
  {
  }

  /**
   * A first `update` without a time, above the threshold, opens a pass with
   * no AOS; the next timed update is taken as a first sample again and, being
   * below the threshold, leaves that pass open. The pass is later reported
   * with neither an AOS nor a peak time.
   */
  lemma UntimedFirstSampleLosesAos()
    ensures var s := Updated(Updated(Updated(Updated(Initial(10.0), 50.0, None), 5.0, Some(0.0)), 20.0, Some(60.0)), 5.0, Some(120.0));
            s.passes == [StreamPassEvent(None, None, Some(100.0), 50.0)]
  {
    var s1 := Updated(Initial(10.0), 50.0, None);
    assert s1.inPass && s1.aosTime == None && s1.prevTime == None;
    var s2 := Updated(s1, 5.0, Some(0.0));
    assert s2.inPass && s2.aosTime == None && s2.prevTime == Some(0.0) && s2.maxEl == 50.0;
    var s3 := Updated(s2, 20.0, Some(60.0));
    assert s3.inPass && s3.aosTime == None && s3.maxTime == None && s3.prevElev == 20.0 && s3.passes == [];
    assert InterpTime(60.0, 120.0, 20.0, 5.0, 10.0) == 100.0;
  }
}
