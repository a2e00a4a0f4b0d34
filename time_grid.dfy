/**
 * The sample-time grid (`datetime_range`): from `start`, every `step`, up to
 * and including `end`. Times are whole microseconds, as `datetime` holds
 * them; the step is `timedelta(seconds=step_seconds)`, which rounds to the
 * nearest microsecond, ties to even.
 */
module TimeGrid {
  import opened PassProperties

  /** The integer nearest to `x`, ties going to the even one. */
  function RoundHalfEven(x: real): (r: int)
    ensures -0.5 <= r as real - x <= 0.5
    ensures (r as real - x == 0.5 || x - r as real == 0.5) ==> r % 2 == 0
  {
    var f := x.Floor;
    var frac := x - f as real;
    if frac < 0.5 then f else if frac > 0.5 then f + 1 else if f % 2 == 0 then f else f + 1
  }

  /** Rounding leaves whole numbers unchanged. */
  lemma RoundHalfEvenOfWhole(n: int)
    ensures RoundHalfEven(n as real) == n
  {
  }

  /** `timedelta(seconds=s)` in microseconds. */
  function StepMicroseconds(stepSeconds: real): (r: int)
    ensures -0.5 <= r as real - stepSeconds * 1000000.0 <= 0.5
    ensures stepSeconds > 0.0000005 ==> r >= 1
  {
    RoundHalfEven(stepSeconds * 1000000.0)
  }

  /**
   * `datetime_range(start, end, step_seconds)`. The loop runs forever when
   * `start <= end` and the rounded step is not positive, so that is required.
   */
  method DatetimeRange(start: int, end: int, stepSeconds: real) returns (times: seq<int>)
    requires start <= end ==> StepMicroseconds(stepSeconds) > 0
    ensures start > end ==> times == []
    ensures start <= end ==> times != [] && times[0] == start
    ensures forall i :: 0 <= i < |times| ==> times[i] <= end
    ensures forall i :: 0 < i < |times| ==> times[i] == times[i - 1] + StepMicroseconds(stepSeconds)
    ensures times != [] ==> times[|times| - 1] + StepMicroseconds(stepSeconds) > end
  {
    times := [];
    var t := start;
    var step := StepMicroseconds(stepSeconds);
    while t <= end
      invariant times == [] ==> t == start
      invariant times != [] ==> times[0] == start && t == times[|times| - 1] + step
      invariant forall i :: 0 <= i < |times| ==> times[i] <= end
      invariant forall i :: 0 < i < |times| ==> times[i] == times[i - 1] + step
      decreases end - t
    {
      times := times + [t];
      t := t + step;
    }
  }

  /** Consecutive grid points `step` apart, starting at `start`, all at most `end`, and no room for one more. */
  ghost predicate IsGrid(times: seq<int>, start: int, end: int, step: int)
  {
    && (start > end ==> times == [])
    && (start <= end ==> times != [] && times[0] == start)
    && (forall i :: 0 <= i < |times| ==> times[i] <= end)
    && (forall i :: 0 < i < |times| ==> times[i] == times[i - 1] + step)
    && (times != [] ==> times[|times| - 1] + step > end)
  }

  /** With a positive step the grid is strictly increasing. */
  lemma {:induction false} GridIncreasing(times: seq<int>, start: int, end: int, step: int)
    requires step > 0 && IsGrid(times, start, end, step)
    ensures forall i, j :: 0 <= i < j < |times| ==> times[i] < times[j]
  {
    forall i, j | 0 <= i < j < |times| ensures times[i] < times[j] {
      StepsIncrease(times, step, i, j);
    }
  }

  lemma {:induction false} StepsIncrease(times: seq<int>, step: int, i: nat, j: nat)
    requires step > 0 && i < j < |times|
    requires forall k :: 0 < k < |times| ==> times[k] == times[k - 1] + step
    ensures times[i] < times[j]
    decreases j - i
  {
    if i + 1 < j {
      StepsIncrease(times, step, i, j - 1);
    }
  }

  /** The grid's contract pins it down: two sequences meeting it are equal. */
  lemma GridDetermined(a: seq<int>, b: seq<int>, start: int, end: int, step: int)
    requires step > 0 && IsGrid(a, start, end, step) && IsGrid(b, start, end, step)
    ensures a == b
  {
    if start <= end {
      var n := if |a| < |b| then |a| else |b|;
      SamePrefix(a, b, step, n);
      NextStepPastEnd(a, b, end, step);
      NextStepPastEnd(b, a, end, step);
      if |a| != |b| {
        assert false;
      }
    }
  }

  /** Where `b` agrees with all of `a` and goes on, its next point is past `end`. */
  lemma NextStepPastEnd(a: seq<int>, b: seq<int>, end: int, step: int)
    requires a != [] && a[|a| - 1] + step > end
    requires forall i :: 0 <= i < |a| && i < |b| ==> a[i] == b[i]
    requires forall i :: 0 < i < |b| ==> b[i] == b[i - 1] + step
    ensures |a| < |b| ==> b[|a|] > end
  {
    if |a| < |b| {
      assert b[|a|] == b[|a| - 1] + step;
    }
  }

  lemma {:induction false} SamePrefix(a: seq<int>, b: seq<int>, step: int, n: nat)
    requires 1 <= n <= |a| && n <= |b| && a[0] == b[0]
    requires forall i :: 0 < i < |a| ==> a[i] == a[i - 1] + step
    requires forall i :: 0 < i < |b| ==> b[i] == b[i - 1] + step
    ensures forall i :: 0 <= i < n ==> a[i] == b[i]
  {
    if n > 1 {
      SamePrefix(a, b, step, n - 1);
      assert a[n - 1] == a[n - 2] + step;
    }
  }

  /** Grid times in seconds, the time axis the pass scanners use. */
  function ToSeconds(times: seq<int>): (r: seq<real>)
    ensures |r| == |times| && forall i :: 0 <= i < |times| ==> r[i] == times[i] as real / 1000000.0
  {
    seq(|times|, i requires 0 <= i < |times| => times[i] as real / 1000000.0)
  }

  /** A grid with a positive step meets the pass scanners' precondition of nondecreasing times. */
  lemma GridFeedsScanner(times: seq<int>, start: int, end: int, step: int)
    requires step > 0 && IsGrid(times, start, end, step)
    ensures Nondecreasing(ToSeconds(times))
  {
    GridIncreasing(times, start, end, step);
    var s := ToSeconds(times);
    forall i, j | 0 <= i <= j < |s| ensures s[i] <= s[j] {
      if i < j {
        assert times[i] as real < times[j] as real;
      }
    }
  }
}
