/**
 * Output records for detected passes: the numbered per-pass records
 * (`passes_to_dict`), the pass count of the run metadata, and the per-pass
 * summary the visualisation entry point lists. Times stay real seconds:
 * ISO-8601 formatting and `round` are not modelled.
 */
module PassOutput {
  import opened PassDetection
  import opened PassProperties

  /** One output record: the keys `passes_to_dict` writes. */
  datatype PassRecord = PassRecord(
    passNumber: nat,
    aosTime: real,
    tcaTime: real,
    losTime: real,
    maxElevationDeg: real,
    durationMinutes: real,
    predictionType: string)

  /** `passes_to_dict(passes, prediction_type)` */
  method PassesToDict(passes: seq<PassEvent>, predictionType: string) returns (result: seq<PassRecord>)
    ensures |result| == |passes| == NumPasses(passes)
    ensures forall i :: 0 <= i < |passes| ==>
              && result[i].passNumber == i + 1
              && result[i].aosTime == passes[i].startTime
              && result[i].tcaTime == passes[i].maxTime
              && result[i].losTime == passes[i].endTime
              && result[i].maxElevationDeg == passes[i].maxElevationDeg
              && result[i].durationMinutes * 60.0 == passes[i].endTime - passes[i].startTime
              && result[i].predictionType == predictionType
  {
    result := [];
    for i := 0 to |passes|
      invariant |result| == i
      invariant forall k :: 0 <= k < i ==>
                  && result[k].passNumber == k + 1
                  && result[k].aosTime == passes[k].startTime
                  && result[k].tcaTime == passes[k].maxTime
                  && result[k].losTime == passes[k].endTime
                  && result[k].maxElevationDeg == passes[k].maxElevationDeg
                  && result[k].durationMinutes * 60.0 == passes[k].endTime - passes[k].startTime
                  && result[k].predictionType == predictionType
    {
      var p := passes[i];
      var durationMin := (p.endTime - p.startTime) / 60.0;
      result := result + [PassRecord(i + 1, p.startTime, p.maxTime, p.endTime, p.maxElevationDeg, durationMin, predictionType)];
    }
  }

  /** The `num_passes` entry of the run metadata. */
  function NumPasses(passes: seq<PassEvent>): (r: nat)
    ensures r == 0 <==> passes == []
  {
    |passes|
  }

  /**
   * Records written for well-formed, chronological passes: numbers strictly
   * increase, durations are not negative, and no record's LOS is later than
   * the next record's AOS.
   */
  lemma RecordsOfScannedPasses(passes: seq<PassEvent>, thr: real, result: seq<PassRecord>)
    requires forall i :: 0 <= i < |passes| ==> WellFormed(passes[i], thr)
    requires Chronological(passes)
    requires |result| == |passes|
    requires forall i :: 0 <= i < |passes| ==>
               && result[i].passNumber == i + 1
               && result[i].aosTime == passes[i].startTime
               && result[i].losTime == passes[i].endTime
               && result[i].durationMinutes * 60.0 == passes[i].endTime - passes[i].startTime
    ensures forall i, j :: 0 <= i < j < |result| ==> result[i].passNumber < result[j].passNumber
    ensures forall i :: 0 <= i < |result| ==> result[i].durationMinutes >= 0.0
    ensures forall i, j :: 0 <= i < j < |result| ==> result[i].losTime <= result[j].aosTime
  {
    forall i | 0 <= i < |result| ensures result[i].durationMinutes >= 0.0 {
      assert WellFormed(passes[i], thr);
    }
  }

  /** One entry of the visualisation summary: start, peak and end times and the peak. */
  datatype PassSummary = PassSummary(startTime: real, maxTime: real, endTime: real, maxElevationDeg: real)

  /** The summary list, one entry per pass in order. */
  function Summaries(passes: seq<PassEvent>): (r: seq<PassSummary>)
    ensures |r| == |passes|
    ensures forall i :: 0 <= i < |passes| ==>
              r[i] == PassSummary(passes[i].startTime, passes[i].maxTime, passes[i].endTime, passes[i].maxElevationDeg)
  {
    seq(|passes|, i requires 0 <= i < |passes| =>
      PassSummary(passes[i].startTime, passes[i].maxTime, passes[i].endTime, passes[i].maxElevationDeg))
  }

  /** The summary of the batch scanner's output is in time order with every entry's times ordered. */
  lemma SummariesOfDetectedPasses(times: seq<real>, elev: seq<real>, thr: real)
    requires Nondecreasing(times)
    ensures var s := Summaries(Passes(times, elev, thr));
            && (forall i :: 0 <= i < |s| ==> s[i].startTime <= s[i].maxTime <= s[i].endTime && s[i].maxElevationDeg > thr)
            && (forall i, j :: 0 <= i < j < |s| ==> s[i].endTime <= s[j].startTime)
  {
    if |times| == |elev| {
      PassesWellFormed(times, elev, thr);
      var ps := Passes(times, elev, thr);
      var s := Summaries(ps);
      forall i | 0 <= i < |s| ensures s[i].startTime <= s[i].maxTime <= s[i].endTime && s[i].maxElevationDeg > thr {
        assert WellFormed(ps[i], thr);
      }
    }
  }
}
