/**
 * The residual accumulator (`ResidualStats`): per-pass prediction errors are
 * appended to one list per quantity, and summary statistics (mean, minimum,
 * maximum) are computed over each list on request.
 */
module Residuals {
  import opened Wrappers

  /** The sum of a list of values. */
  function Sum(xs: seq<real>): real
  {
    if xs == [] then 0.0 else xs[0] + Sum(xs[1..])
  }

  /** The smallest value of a non-empty list (`np.min`). */
  function Minimum(xs: seq<real>): (r: real)
    requires xs != []
    ensures r in xs && forall i :: 0 <= i < |xs| ==> r <= xs[i]
  {
    if |xs| == 1 then xs[0]
    else
      var rest := Minimum(xs[1..]);
      if xs[0] <= rest then xs[0] else rest
  }

  /** The largest value of a non-empty list (`np.max`). */
  function Maximum(xs: seq<real>): (r: real)
    requires xs != []
    ensures r in xs && forall i :: 0 <= i < |xs| ==> xs[i] <= r
  {
    if |xs| == 1 then xs[0]
    else
      var rest := Maximum(xs[1..]);
      if xs[0] >= rest then xs[0] else rest
  }

  /** `x` added to itself `n` times. */
  function Repeated(n: nat, x: real): real
  {
    if n == 0 then 0.0 else x + Repeated(n - 1, x)
  }

  lemma {:induction false} RepeatedIsProduct(n: nat, x: real)
    ensures Repeated(n, x) == n as real * x
  {
    if n > 0 {
      RepeatedIsProduct(n - 1, x);
    }
  }

  /** Values all within [lo, hi] sum to between n copies of lo and n copies of hi. */
  lemma {:induction false} SumWithin(xs: seq<real>, lo: real, hi: real)
    requires forall i :: 0 <= i < |xs| ==> lo <= xs[i] <= hi
    ensures Repeated(|xs|, lo) <= Sum(xs) <= Repeated(|xs|, hi)
  {
    if xs != [] {
      SumWithin(xs[1..], lo, hi);
    }
  }

  lemma ScaleMonotone(a: real, b: real, n: real)
    requires n > 0.0
    ensures a < b ==> n * a < n * b
  {
  }

  lemma QuotientWithin(s: real, n: nat, lo: real, hi: real)
    requires n > 0 && Repeated(n, lo) <= s <= Repeated(n, hi)
    ensures lo <= s / n as real <= hi
  {
    var d := n as real;
    var q := s / d;
    DivisionCancels(s, d);
    RepeatedIsProduct(n, lo);
    RepeatedIsProduct(n, hi);
    ScaleMonotone(q, lo, d);
    ScaleMonotone(hi, q, d);
  }

  lemma DivisionCancels(s: real, d: real)
    requires d != 0.0
    ensures d * (s / d) == s
  {
  }

  /** The sum over the count lies between the extremes. */
  lemma AverageWithinExtremes(xs: seq<real>)
    requires xs != []
    ensures Minimum(xs) <= Sum(xs) / |xs| as real <= Maximum(xs)
  {
    var lo, hi := Minimum(xs), Maximum(xs);
    SumWithin(xs, lo, hi);
    QuotientWithin(Sum(xs), |xs|, lo, hi);
  }

  /** `np.mean` of a non-empty list: |xs| copies of it add up to the list's sum, and it lies between the list's extremes. */
  function Mean(xs: seq<real>): (r: real)
    requires xs != []
    ensures Repeated(|xs|, r) == Sum(xs)
    ensures Minimum(xs) <= r <= Maximum(xs)
  {
    AverageWithinExtremes(xs);
    QuotientRepeats(Sum(xs), |xs|);
    Sum(xs) / |xs| as real
  }

  /** n copies of s / n add up to s. */
  lemma QuotientRepeats(s: real, n: nat)
    requires n > 0
    ensures Repeated(n, s / n as real) == s
  {
    RepeatedIsProduct(n, s / n as real);
    DivisionCancels(s, n as real);
  }

  /** `np.mean`, `np.min` and `np.max` of one list; `std` and `median` are not modelled. */
  datatype FieldStats = FieldStats(mean: real, min: real, max: real)

  /** The statistics of a non-empty list: extremes it contains, and a mean between them. */
  function StatsOf(xs: seq<real>): (r: FieldStats)
    requires xs != []
    ensures r.min in xs && r.max in xs
    ensures forall i :: 0 <= i < |xs| ==> r.min <= xs[i] <= r.max
    ensures r.min <= r.mean <= r.max
    ensures Repeated(|xs|, r.mean) == Sum(xs)
  {
    FieldStats(Mean(xs), Minimum(xs), Maximum(xs))
  }

  /** The mean of equal values is that value; in particular the mean of one value is the value. */
  lemma MeanOfEqualValues(xs: seq<real>, c: real)
    requires xs != [] && forall i :: 0 <= i < |xs| ==> xs[i] == c
    ensures Mean(xs) == c
  {
    var lo :| lo in xs && lo == Minimum(xs);
    var hi :| hi in xs && hi == Maximum(xs);
  }

  /** Appending a value lowers the minimum to it when it is smaller, and otherwise keeps the minimum. */
  lemma MinimumAfterAppend(xs: seq<real>, x: real)
    requires xs != []
    ensures Minimum(xs + [x]) == if x < Minimum(xs) then x else Minimum(xs)
  {
    var ys := xs + [x];
    var m := Minimum(xs);
    var c := if x < m then x else m;
    assert c in ys by {
      if x >= m {
        var j :| 0 <= j < |xs| && xs[j] == m;
        assert ys[j] == m;
      } else {
        assert ys[|xs|] == x;
      }
    }
    forall i | 0 <= i < |ys| ensures c <= ys[i] {
      if i < |xs| { assert ys[i] == xs[i]; }
    }
    var k :| 0 <= k < |ys| && ys[k] == Minimum(ys);
    var l :| 0 <= l < |ys| && ys[l] == c;
  }

  /** Appending a value raises the maximum to it when it is larger, and otherwise keeps the maximum. */
  lemma MaximumAfterAppend(xs: seq<real>, x: real)
    requires xs != []
    ensures Maximum(xs + [x]) == if x > Maximum(xs) then x else Maximum(xs)
  {
    var ys := xs + [x];
    var m := Maximum(xs);
    var c := if x > m then x else m;
    assert c in ys by {
      if x <= m {
        var j :| 0 <= j < |xs| && xs[j] == m;
        assert ys[j] == m;
      } else {
        assert ys[|xs|] == x;
      }
    }
    forall i | 0 <= i < |ys| ensures ys[i] <= c {
      if i < |xs| { assert ys[i] == xs[i]; }
    }
    var k :| 0 <= k < |ys| && ys[k] == Maximum(ys);
    var l :| 0 <= l < |ys| && ys[l] == c;
  }

  /** What `compute_stats` returns; `None` stands for the empty dict of a field. */
  datatype Stats = Stats(
    passCount: int,
    positionErrorKm: Option<FieldStats>,
    aosErrorSec: Option<FieldStats>,
    losErrorSec: Option<FieldStats>,
    maxElevationErrorDeg: Option<FieldStats>)

  class ResidualStats {
    var positionErrorsKm: seq<real>
    var timingErrorsSec: seq<real>
    var aosErrorsSec: seq<real>
    var losErrorsSec: seq<real>
    var maxElevationErrorsDeg: seq<real>
    var passCount: int

    /** The counter matches every appended list, and the timing list is never filled. */
    ghost predicate Valid()
      reads this
    {
      && passCount == |positionErrorsKm| == |aosErrorsSec| == |losErrorsSec| == |maxElevationErrorsDeg|
      && timingErrorsSec == []
    }

    constructor()
      ensures Valid() && passCount == 0
      ensures positionErrorsKm == aosErrorsSec == losErrorsSec == maxElevationErrorsDeg == timingErrorsSec == []
    {
      positionErrorsKm := [];
      timingErrorsSec := [];
      aosErrorsSec := [];
      losErrorsSec := [];
      maxElevationErrorsDeg := [];
      passCount := 0;
    }

    /** `add_pass_residual`: each error goes to the end of its own list, and one more pass is counted. */
    method AddPassResidual(positionError: real, aosError: real, losError: real, maxElError: real)
      requires Valid()
      modifies this
      ensures Valid()
      ensures positionErrorsKm == old(positionErrorsKm) + [positionError]
      ensures aosErrorsSec == old(aosErrorsSec) + [aosError]
      ensures losErrorsSec == old(losErrorsSec) + [losError]
      ensures maxElevationErrorsDeg == old(maxElevationErrorsDeg) + [maxElError]
      ensures passCount == old(passCount) + 1
      ensures timingErrorsSec == old(timingErrorsSec)
    {
      positionErrorsKm := positionErrorsKm + [positionError];
      aosErrorsSec := aosErrorsSec + [aosError];
      losErrorsSec := losErrorsSec + [losError];
      maxElevationErrorsDeg := maxElevationErrorsDeg + [maxElError];
      passCount := passCount + 1;
    }

    /**
     * `compute_stats`: with no passes, the count and four empty fields;
     * otherwise the statistics of each list. It only reads the recorded state.
     */
    function ComputeStats(): (r: Stats)
      reads this
      requires Valid()
      ensures r.passCount == passCount
      ensures passCount == 0 <==> r.positionErrorKm.None?
      ensures passCount == 0 <==> r.aosErrorSec.None?
      ensures passCount == 0 <==> r.losErrorSec.None?
      ensures passCount == 0 <==> r.maxElevationErrorDeg.None?
      ensures r.positionErrorKm.Some? ==> r.positionErrorKm.value.min <= r.positionErrorKm.value.mean <= r.positionErrorKm.value.max
      ensures r.aosErrorSec.Some? ==> r.aosErrorSec.value.min <= r.aosErrorSec.value.mean <= r.aosErrorSec.value.max
      ensures r.losErrorSec.Some? ==> r.losErrorSec.value.min <= r.losErrorSec.value.mean <= r.losErrorSec.value.max
      ensures r.maxElevationErrorDeg.Some? ==> r.maxElevationErrorDeg.value.min <= r.maxElevationErrorDeg.value.mean <= r.maxElevationErrorDeg.value.max
      ensures passCount > 0 ==> r.positionErrorKm == Some(StatsOf(positionErrorsKm))
      ensures passCount > 0 ==> r.aosErrorSec == Some(StatsOf(aosErrorsSec))
      ensures passCount > 0 ==> r.losErrorSec == Some(StatsOf(losErrorsSec))
      ensures passCount > 0 ==> r.maxElevationErrorDeg == Some(StatsOf(maxElevationErrorsDeg))
    {
      if passCount == 0 then Stats(0, None, None, None, None)
      else
        Stats(passCount, Some(StatsOf(positionErrorsKm)), Some(StatsOf(aosErrorsSec)),
              Some(StatsOf(losErrorsSec)), Some(StatsOf(maxElevationErrorsDeg)))
    }
  }
}
