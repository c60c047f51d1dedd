/**
 * `findMax` and `createBaselines` of notebooks/pollutant_cal_utils.py: one
 * rolling-minimum baseline per candidate half-width, the half-width whose
 * baseline correlates best with the covariate, and the linear or exponential
 * regression of that baseline on the covariate.
 */
module RegressionSelection {
  import opened RollingMinimum
  import opened Numerics

  /** Python's `max` on a non-empty list. */
  function MaxOf(s: seq<real>): (m: real)
    requires |s| > 0
    ensures m in s
    ensures forall i :: 0 <= i < |s| ==> s[i] <= m
  {
    if |s| == 1 then s[0]
    else
      var rest := MaxOf(s[1..]);
      if s[0] >= rest then s[0] else rest
  }

  /** Python's `list.index`: the first position holding `v`. */
  function IndexOf(s: seq<real>, v: real): (i: nat)
    requires v in s
    ensures i < |s| && s[i] == v
    ensures forall j :: 0 <= j < i ==> s[j] != v
  {
    if s[0] == v then 0 else 1 + IndexOf(s[1..], v)
  }

  /** `findMax`: the largest value and the first index that holds it. */
  function FindMax(list: seq<real>): (vi: (real, nat))
    requires |list| > 0
    ensures vi.1 < |list| && vi.0 == list[vi.1]
    ensures forall j :: 0 <= j < |list| ==> list[j] <= vi.0
    ensures forall j :: 0 <= j < vi.1 ==> list[j] < vi.0
  {
    var valMax := MaxOf(list);
    (valMax, IndexOf(list, valMax))
  }

  /** The first index of a maximum is unique: any index meeting that description is FindMax's. */
  lemma FindMaxFirstIndex(list: seq<real>, i: nat)
    requires i < |list|
    requires forall j :: 0 <= j < |list| ==> list[j] <= list[i]
    requires forall j :: 0 <= j < i ==> list[j] < list[i]
    ensures FindMax(list).1 == i
  {
  }

  /** `_type_regress`. */
  datatype Regression = Linear | Exponential | Best

  /** The regression that turns covariate readings into the baseline proxy. */
  datatype Proxy = LinearProxy(fit: Fit) | ExponentialProxy(fit: Fit)

  /** The proxy at one covariate reading; the exponential one is `exponential_func(x, exp(intercept), slope, 0)`. */
  function ProxyAt(p: Proxy, x: real, num: Routines): real {
    match p
    case LinearProxy(f) => f.intercept + f.slope * x
    case ExponentialProxy(f) => num.exp(f.intercept) * num.exp(f.slope * x) + 0.0
  }

  /** The proxy evaluated over every covariate reading. */
  function ProxySeries(p: Proxy, corr: seq<real>, num: Routines): (s: seq<real>)
    ensures |s| == |corr|
    ensures forall i :: 0 <= i < |corr| ==> s[i] == ProxyAt(p, corr[i], num)
  {
    seq(|corr|, i requires 0 <= i < |corr| => ProxyAt(p, corr[i], num))
  }

  /** Element-wise `np.log`. */
  function LogOf(s: seq<real>, num: Routines): (l: seq<real>)
    ensures |l| == |s|
  {
    seq(|s|, i requires 0 <= i < |s| => num.ln(s[i]))
  }

  /** Baseline regressed on the covariate: `linregress(corr, best)`. */
  function LinearFit(corr: seq<real>, best: seq<real>, num: Routines): Fit {
    num.linregress(corr, best)
  }

  /** Log-baseline regressed on the covariate: `linregress(corr, log(best))`. */
  function ExponentialFit(corr: seq<real>, best: seq<real>, num: Routines): Fit {
    num.linregress(corr, LogOf(best, num))
  }

  /** The `'best'` choice: linear only when its r is strictly larger. */
  function PickBest(lin: Fit, exp: Fit): (p: Proxy)
    ensures p.LinearProxy? <==> lin.r > exp.r
    ensures p.fit == if lin.r > exp.r then lin else exp
  {
    if lin.r > exp.r then LinearProxy(lin) else ExponentialProxy(exp)
  }

  /** The regression `createBaselines` fits for each `_type_regress`. */
  function ChooseProxy(kind: Regression, corr: seq<real>, best: seq<real>, num: Routines): (p: Proxy)
    ensures kind == Linear ==> p == LinearProxy(LinearFit(corr, best, num))
    ensures kind == Exponential ==> p == ExponentialProxy(ExponentialFit(corr, best, num))
    ensures kind == Best ==> p == PickBest(LinearFit(corr, best, num), ExponentialFit(corr, best, num))
  {
    match kind
    case Linear => LinearProxy(LinearFit(corr, best, num))
    case Exponential => ExponentialProxy(ExponentialFit(corr, best, num))
    case Best => PickBest(LinearFit(corr, best, num), ExponentialFit(corr, best, num))
  }

  /** Under `'best'`, equal correlations go to the exponential regression. */
  lemma BestTieIsExponential(lin: Fit, exp: Fit)
    requires lin.r == exp.r
    ensures PickBest(lin, exp) == ExponentialProxy(exp)
  {
  }

  /** Every candidate half-width can be used on a signal of length `n`. */
  predicate UsableDeltas(deltas: seq<nat>, n: nat) {
    forall k :: 0 <= k < |deltas| ==> deltas[k] >= 1 || n == 0
  }

  /** The correlation coefficient of each candidate baseline against the covariate. */
  function Pearsons(data: seq<real>, corr: seq<real>, deltas: seq<nat>, num: Routines): (ps: seq<real>)
    requires UsableDeltas(deltas, |data|)
    ensures |ps| == |deltas|
  {
    seq(|deltas|, k requires 0 <= k < |deltas| => PearsonFor(data, corr, deltas[k], num))
  }

  /** The correlation coefficient of one candidate baseline against the covariate. */
  function PearsonFor(data: seq<real>, corr: seq<real>, delta: nat, num: Routines): real
    requires delta >= 1 || |data| == 0
  {
    num.linregress(Baseline(data, delta), corr).r
  }

  /** The half-width index `createBaselines` selects. */
  function SelectedIndex(data: seq<real>, corr: seq<real>, deltas: seq<nat>, num: Routines): (k: nat)
    requires |deltas| > 0 && UsableDeltas(deltas, |data|)
    ensures k < |deltas|
  {
    FindMax(Pearsons(data, corr, deltas, num)).1
  }

  /** The baseline proxy `createBaselines` returns. */
  function BaselineProxy(data: seq<real>, corr: seq<real>, deltas: seq<nat>, kind: Regression, num: Routines): (s: seq<real>)
    requires |deltas| > 0 && UsableDeltas(deltas, |data|)
    ensures |s| == |corr|
  {
    var best := Baseline(data, deltas[SelectedIndex(data, corr, deltas, num)]);
    ProxySeries(ChooseProxy(kind, corr, best, num), corr, num)
  }

  /**
   * The selected half-width has the largest correlation, and every earlier
   * candidate has a strictly smaller one: ties go to the earliest delta.
   */
  lemma SelectedIsFirstBest(data: seq<real>, corr: seq<real>, deltas: seq<nat>, num: Routines, j: nat)
    requires |deltas| > 0 && UsableDeltas(deltas, |data|) && j < |deltas|
    ensures var k := SelectedIndex(data, corr, deltas, num);
            var ps := Pearsons(data, corr, deltas, num);
            ps[j] <= ps[k] && (j < k ==> ps[j] < ps[k])
  {
  }

  /**
   * The loop of `createBaselines` over the candidate half-widths: one baseline
   * column and one correlation coefficient per delta, appended in order.
   */
  method BaselinesPerDelta(dataBaseline: seq<real>, dataCorr: seq<real>, deltas: seq<nat>, num: Routines)
    returns (columns: seq<seq<real>>, pearsons: seq<real>)
    requires UsableDeltas(deltas, |dataBaseline|)
    ensures |columns| == |deltas|
    ensures forall k :: 0 <= k < |deltas| ==> columns[k] == Baseline(dataBaseline, deltas[k])
    ensures pearsons == Pearsons(dataBaseline, dataCorr, deltas, num)
  {
    columns := [];
    pearsons := [];
    for i := 0 to |deltas|
      invariant |columns| == i && |pearsons| == i
      invariant forall k :: 0 <= k < i ==> columns[k] == Baseline(dataBaseline, deltas[k])
      invariant forall k :: 0 <= k < i ==> pearsons[k] == PearsonFor(dataBaseline, dataCorr, deltas[k], num)
    {
      var b := ExtractBaseline(dataBaseline, deltas[i]);
      var column := b[..];
      var fit := num.linregress(column, dataCorr);
      columns := columns + [column];
      pearsons := pearsons + [fit.r];
    }
  }

  /**
   * `createBaselines`: picks the first best half-width, fits the chosen
   * regression of that baseline on the covariate and evaluates it over the
   * covariate readings.
   */
  method CreateBaselines(dataBaseline: seq<real>, dataCorr: seq<real>, deltas: seq<nat>,
                         kind: Regression, num: Routines)
    returns (baseline: seq<real>, indexMax: nat)
    requires |deltas| > 0 && UsableDeltas(deltas, |dataBaseline|)
    ensures indexMax == SelectedIndex(dataBaseline, dataCorr, deltas, num)
    ensures baseline == BaselineProxy(dataBaseline, dataCorr, deltas, kind, num)
  {
    var columns, pearsons := BaselinesPerDelta(dataBaseline, dataCorr, deltas, num);
    var found := FindMax(pearsons);
    indexMax := found.1;
    var best := columns[indexMax];
    var proxy: Proxy;
    match kind {
      case Linear =>
        proxy := LinearProxy(num.linregress(dataCorr, best));
      case Exponential =>
        var logy := LogOf(best, num);
        proxy := ExponentialProxy(num.linregress(dataCorr, logy));
      case Best =>
        var lin := num.linregress(dataCorr, best);
        var logy := LogOf(best, num);
        var exp := num.linregress(dataCorr, logy);
        if lin.r > exp.r {
          proxy := LinearProxy(lin);
        } else {
          proxy := ExponentialProxy(exp);
        }
    }
    assert proxy == ChooseProxy(kind, dataCorr, best, num);
    baseline := ProxySeries(proxy, dataCorr, num);
  }
}
