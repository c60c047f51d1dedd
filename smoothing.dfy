/**
 * `exponential_smoothing` of notebooks/pollutant_cal_utils.py: the
 * single-pole recurrence out[0] = in[0], out[n] = a*in[n] + (1-a)*out[n-1].
 */
module Smoothing {

  /** The module constant `filterExpSmoothing`, the alpha every filter call uses. */
  const FilterExpSmoothing: real := 0.2

  /** One step of the recurrence: the new sample weighted by alpha, the previous output by 1 - alpha. */
  function FilterStep(alpha: real, sample: real, previous: real): real {
    alpha * sample + (1.0 - alpha) * previous
  }

  /** The smoothed series, defined on prefixes. */
  function Smoothed(series: seq<real>, alpha: real): (out: seq<real>)
    requires |series| > 0
    ensures |out| == |series|
    decreases |series|
  {
    if |series| == 1 then [series[0]]
    else
      var prev := Smoothed(series[..|series| - 1], alpha);
      prev + [FilterStep(alpha, series[|series| - 1], prev[|prev| - 1])]
  }

  /** `exponential_smoothing`: appends one filtered value per input sample. */
  method ExponentialSmoothing(series: seq<real>, alpha: real) returns (result: seq<real>)
    requires |series| > 0
    ensures result == Smoothed(series, alpha)
  {
    result := [series[0]];
    for n := 1 to |series|
      invariant result == Smoothed(series[..n], alpha)
    {
      ghost var step := series[..n + 1];
      ghost var prev := result;
      assert step[..|step| - 1] == series[..n] && step[|step| - 1] == series[n];
      SmoothedUnfold(step, alpha);
      var next := alpha * series[n] + (1.0 - alpha) * result[n - 1];
      assert next == FilterStep(alpha, series[n], prev[n - 1]);
      result := result + [next];
    }
    assert series[..|series|] == series;
  }

  lemma SmoothedUnfold(s: seq<real>, alpha: real)
    requires |s| > 1
    ensures Smoothed(s, alpha) == Smoothed(s[..|s| - 1], alpha)
              + [FilterStep(alpha, s[|s| - 1], Smoothed(s[..|s| - 1], alpha)[|s| - 2])]
  {
  }

  /** Smoothing a prefix gives the prefix of the smoothed series. */
  lemma {:induction false} SmoothedPrefix(series: seq<real>, alpha: real, k: nat)
    requires 0 < k <= |series|
    ensures Smoothed(series[..k], alpha) == Smoothed(series, alpha)[..k]
    decreases |series|
  {
    if k < |series| {
      var init := series[..|series| - 1];
      assert init[..k] == series[..k];
      SmoothedPrefix(init, alpha, k);
    } else {
      assert series[..k] == series;
    }
  }

  /** The first output equals the first input. */
  lemma {:induction false} SmoothedFirst(series: seq<real>, alpha: real)
    requires |series| > 0
    ensures Smoothed(series, alpha)[0] == series[0]
  {
    SmoothedPrefix(series, alpha, 1);
  }

  /** Every later output follows the recurrence out[n] = a*in[n] + (1-a)*out[n-1]. */
  lemma {:induction false} SmoothedStep(series: seq<real>, alpha: real, n: nat)
    requires 0 < n < |series|
    ensures var out := Smoothed(series, alpha);
            out[n] == alpha * series[n] + (1.0 - alpha) * out[n - 1]
  {
    SmoothedPrefix(series, alpha, n + 1);
    SmoothedPrefix(series, alpha, n);
    assert series[..n + 1][..n] == series[..n];
  }

  /** With alpha = 1 the filter passes its input through unchanged. */
  lemma {:induction false} SmoothedIdentity(series: seq<real>)
    requires |series| > 0
    ensures Smoothed(series, 1.0) == series
    decreases |series|
  {
    if |series| > 1 {
      var init := series[..|series| - 1];
      SmoothedIdentity(init);
      assert init + [series[|series| - 1]] == series;
    }
  }

  /** A convex combination of two values in [lo, hi] stays in [lo, hi]. */
  lemma ConvexStaysBetween(alpha: real, x: real, y: real, lo: real, hi: real)
    requires 0.0 <= alpha <= 1.0
    requires lo <= x <= hi && lo <= y <= hi
    ensures lo <= alpha * x + (1.0 - alpha) * y <= hi
  {
    var beta := 1.0 - alpha;
    MulNonNegative(alpha, x - lo);
    MulNonNegative(beta, y - lo);
    MulNonNegative(alpha, hi - x);
    MulNonNegative(beta, hi - y);
    assert alpha * x + beta * y - lo == alpha * (x - lo) + beta * (y - lo);
    assert hi - (alpha * x + beta * y) == alpha * (hi - x) + beta * (hi - y);
  }

  lemma MulNonNegative(p: real, q: real)
    requires p >= 0.0 && q >= 0.0
    ensures p * q >= 0.0
  {
  }

  /** For alpha in [0, 1], every output lies between the smallest and the largest input. */
  lemma {:induction false} SmoothedWithinBounds(series: seq<real>, alpha: real, lo: real, hi: real)
    requires |series| > 0 && 0.0 <= alpha <= 1.0
    requires forall i :: 0 <= i < |series| ==> lo <= series[i] <= hi
    ensures forall i :: 0 <= i < |series| ==> lo <= Smoothed(series, alpha)[i] <= hi
    decreases |series|
  {
    if |series| > 1 {
      var init := series[..|series| - 1];
      SmoothedWithinBounds(init, alpha, lo, hi);
      var prev := Smoothed(init, alpha);
      ConvexStaysBetween(alpha, series[|series| - 1], prev[|prev| - 1], lo, hi);
    }
  }
}
