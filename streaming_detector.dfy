/**
 * The streaming pass scanner (`PassDetector`): the same two-state machine as
 * the batch scanner, fed one elevation sample at a time. Timestamps are
 * optional on input, and every time-valued field may be unset, so they are
 * `Option<real>` here as they are in the source.
 */
module StreamingDetection {
  import opened Wrappers
  import opened PassDetection

  /** A pass reported by the streaming scanner. */
  datatype StreamPassEvent = StreamPassEvent(startTime: Option<real>, maxTime: Option<real>, endTime: Option<real>, maxElevationDeg: real)

  /** Step used when an update omits its timestamp, in seconds. */
  const DefaultStepSeconds: real := 60.0

  /** The detector's fields, as a value. */
  datatype DetectorState = DetectorState(
    thresholdDeg: real,
    passes: seq<StreamPassEvent>,
    inPass: bool,
    aosTime: Option<real>,
    maxEl: real,
    maxTime: Option<real>,
    prevTime: Option<real>,
    prevElev: real)

  /** A fresh detector. */
  function Initial(thresholdDeg: real): (s: DetectorState)
    ensures s.passes == [] && !s.inPass && s.prevTime == None && s.thresholdDeg == thresholdDeg
  {
    DetectorState(thresholdDeg, [], false, None, NoPeak, None, None, NoPeak)
  }

  /** The timestamp an update uses: the given one, else the previous one plus the default step. */
  function EffectiveTime(s: DetectorState, currentTime: Option<real>): (r: Option<real>)
    ensures currentTime.Some? ==> r == currentTime
    ensures r.None? <==> currentTime.None? && s.prevTime.None?
    ensures currentTime.None? && s.prevTime.Some? ==> r.value > s.prevTime.value
  {
    if currentTime == None && s.prevTime != None then Some(s.prevTime.value + DefaultStepSeconds) else currentTime
  }

  /** `update(elev_deg, current_time)` */
  function Updated(s: DetectorState, elevDeg: real, currentTime: Option<real>): (r: DetectorState)
    ensures r.thresholdDeg == s.thresholdDeg
    ensures r.prevTime == EffectiveTime(s, currentTime) && r.prevElev == elevDeg
    ensures s.passes <= r.passes && |r.passes| <= |s.passes| + 1
    ensures |r.passes| == |s.passes| + 1 ==> s.inPass && elevDeg <= s.thresholdDeg && !r.inPass
  {
    var t := EffectiveTime(s, currentTime);
    var thr := s.thresholdDeg;
    if s.prevTime == None then
      // first sample: record it, and open a pass at once if it is above the threshold
      var s1 := s.(prevTime := t, prevElev := elevDeg);
      if elevDeg > thr then s1.(inPass := true, aosTime := t, maxEl := elevDeg, maxTime := t) else s1
    else
      var t0, t1 := s.prevTime.value, t.value;
      // upward crossing
      var s1 :=
        if !s.inPass && s.prevElev <= thr < elevDeg then
          s.(inPass := true, aosTime := Some(InterpTime(t0, t1, s.prevElev, elevDeg, thr)), maxEl := elevDeg, maxTime := t)
        else s;
      // running peak
      var s2 := if s1.inPass && elevDeg > s1.maxEl then s1.(maxEl := elevDeg, maxTime := t) else s1;
      // downward crossing
      var s3 :=
        if s2.inPass && s2.prevElev > thr >= elevDeg then
          var los := InterpTime(t0, t1, s2.prevElev, elevDeg, thr);
          s2.(passes := s2.passes + [StreamPassEvent(s2.aosTime, s2.maxTime, Some(los), s2.maxEl)],
              inPass := false, aosTime := None, maxEl := NoPeak, maxTime := None)
        else s2;
      s3.(prevTime := t, prevElev := elevDeg)
  }

  /** `finalize()`: an open pass with an AOS is reported, ending at the last sample's time. */
  function Finalized(s: DetectorState): (r: DetectorState)
    ensures s.passes <= r.passes && !(r.inPass && r.aosTime != None)
    ensures |r.passes| == |s.passes| + (if s.inPass && s.aosTime != None then 1 else 0)
    ensures |r.passes| > |s.passes| ==> r.passes[|s.passes|].startTime == s.aosTime && r.passes[|s.passes|].endTime == s.prevTime
  {
    if s.inPass && s.aosTime != None then
      s.(passes := s.passes + [StreamPassEvent(s.aosTime, s.maxTime, s.prevTime, s.maxEl)], inPass := false)
    else s
  }

  class PassDetector {
    const thresholdDeg: real
    var passes: seq<StreamPassEvent>
    var inPass: bool
    var aosTime: Option<real>
    var maxEl: real
    var maxTime: Option<real>
    var prevTime: Option<real>
    var prevElev: real

    function State(): DetectorState
      reads this
    {
      DetectorState(thresholdDeg, passes, inPass, aosTime, maxEl, maxTime, prevTime, prevElev)
    }

    constructor (thresholdDeg: real)
      ensures State() == Initial(thresholdDeg)
    {
      this.thresholdDeg := thresholdDeg;
      passes := [];
      inPass := false;
      aosTime := None;
      maxEl := NoPeak;
      maxTime := None;
      prevTime := None;
      prevElev := NoPeak;
    }

    method Update(elevDeg: real, currentTime: Option<real>)
      modifies this
      ensures State() == Updated(old(State()), elevDeg, currentTime)
    {
      var now := currentTime;
      if now == None && prevTime != None {
        now := Some(prevTime.value + DefaultStepSeconds);
      }

      if prevTime == None {
        prevTime := now;
        prevElev := elevDeg;
        if elevDeg > thresholdDeg {
          inPass := true;
          aosTime := now;
          maxEl := elevDeg;
          maxTime := now;
        }
        return;
      }

      if !inPass && prevElev <= thresholdDeg < elevDeg {
        inPass := true;
        aosTime := Some(InterpTime(prevTime.value, now.value, prevElev, elevDeg, thresholdDeg));
        maxEl := elevDeg;
        maxTime := now;
      }

      if inPass && elevDeg > maxEl {
        maxEl := elevDeg;
        maxTime := now;
      }

      if inPass && prevElev > thresholdDeg >= elevDeg {
        var losTime := InterpTime(prevTime.value, now.value, prevElev, elevDeg, thresholdDeg);
        passes := passes + [StreamPassEvent(aosTime, maxTime, Some(losTime), maxEl)];
        inPass := false;
        aosTime := None;
        maxEl := NoPeak;
        maxTime := None;
      }

      prevTime := now;
      prevElev := elevDeg;
    }

    method Finalize()
      modifies this
      ensures State() == Finalized(old(State()))
    {
      if inPass && aosTime != None {
        passes := passes + [StreamPassEvent(aosTime, maxTime, prevTime, maxEl)];
        inPass := false;
      }
    }

    method GetPasses() returns (result: seq<StreamPassEvent>)
      modifies this
      ensures State() == Finalized(old(State()))
      ensures result == passes
    {
      Finalize();
      result := passes;
    }
  }
}
