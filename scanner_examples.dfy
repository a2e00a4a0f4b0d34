/**
 * The batch scanner on the sample series of its unit tests, one minute
 * between samples (times in seconds from the first) and a 10 degree
 * threshold.
 */
module ScannerExamples {
  import opened PassDetection
  import opened PassProperties

  function Minutes(n: nat): (r: seq<real>)
    ensures |r| == n && forall i :: 0 <= i < n ==> r[i] == 60.0 * i as real
  {
    seq(n, i => 60.0 * i as real)
  }

  /** Crossings between samples 0 and 1 and between 3 and 4 are interpolated strictly inside those intervals. */
  lemma InterpolatedCrossings()
    ensures Passes(Minutes(5), [8.0, 12.0, 15.0, 12.0, 8.0], 10.0) == [PassEvent(30.0, 120.0, 210.0, 15.0)]
  {
    var t := Minutes(5);
    assert t == [0.0, 60.0, 120.0, 180.0, 240.0];
  }

  /** One rise and fall: one pass, peaking at the largest sample. */
  lemma SimplePass()
    ensures Passes(Minutes(10), [5.0, 8.0, 12.0, 18.0, 22.0, 18.0, 12.0, 8.0, 5.0, 2.0], 10.0)
         == [PassEvent(90.0, 240.0, 390.0, 22.0)]
  {
    assert Minutes(10) == [0.0, 60.0, 120.0, 180.0, 240.0, 300.0, 360.0, 420.0, 480.0, 540.0];
  }

  /** A series that never exceeds the threshold: no pass. */
  lemma NoPasses()
    ensures Passes(Minutes(10), [2.0, 3.0, 5.0, 7.0, 8.0, 7.0, 5.0, 3.0, 2.0, 1.0], 10.0) == []
  {
    NoPassWithoutLaterSampleAbove(Minutes(10), [2.0, 3.0, 5.0, 7.0, 8.0, 7.0, 5.0, 3.0, 2.0, 1.0], 10.0);
  }

  /** Two excursions of different heights: two passes in order, each with its own crossings and its own peak. */
  lemma TwoPasses()
    ensures Passes(Minutes(5), [8.0, 12.0, 8.0, 20.0, 8.0], 10.0)
         == [PassEvent(30.0, 60.0, 90.0, 12.0), PassEvent(130.0, 180.0, 230.0, 20.0)]
  {
    assert Minutes(5) == [0.0, 60.0, 120.0, 180.0, 240.0];
  }

  /** Starting above the threshold: AOS is the first timestamp. */
  lemma StartsAbove()
    ensures Passes(Minutes(10), [15.0, 20.0, 18.0, 12.0, 8.0, 5.0, 2.0, 1.0, 0.0, 0.0], 10.0)
         == [PassEvent(0.0, 60.0, 210.0, 20.0)]
  {
    assert Minutes(10) == [0.0, 60.0, 120.0, 180.0, 240.0, 300.0, 360.0, 420.0, 480.0, 540.0];
  }

  /** Still above the threshold at the end: LOS is the last timestamp. */
  lemma EndsAbove()
    ensures Passes(Minutes(10), [5.0, 8.0, 12.0, 18.0, 22.0, 25.0, 28.0, 30.0, 32.0, 35.0], 10.0)
         == [PassEvent(90.0, 540.0, 540.0, 35.0)]
  {
    assert Minutes(10) == [0.0, 60.0, 120.0, 180.0, 240.0, 300.0, 360.0, 420.0, 480.0, 540.0];
  }

  /** Empty input and input of mismatched lengths: no pass. */
  lemma EmptyOrMismatched()
    ensures Passes([], [], 10.0) == []
    ensures Passes(Minutes(5), [8.0, 12.0, 15.0], 10.0) == []
  {
  }
}
