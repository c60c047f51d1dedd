/**
 * The per-day diagnostics of notebooks/pollutant_cal_utils.py: the metadata
 * `calculateBaselineDay` returns, the row `calculatePollutantsAlpha` and
 * `calculatePollutantsMICS` assemble for each day, and the table pandas
 * builds from those rows.
 */
module Diagnostics {
  import opened Wrappers
  import opened Numerics

  /** One field of a diagnostics row: a number, an index, a flag, or NaN. */
  datatype Stat = Num(x: real) | Index(n: nat) | Flag(b: bool) | Missing

  /** Python's `sum`. */
  function Sum(xs: seq<real>): real {
    if |xs| == 0 then 0.0 else xs[0] + Sum(xs[1..])
  }

  /** `Series.mean(skipna=True)` of a column without gaps: NaN when there are no samples. */
  function Mean(xs: seq<real>): (m: Stat)
    ensures m.Missing? <==> |xs| == 0
    ensures |xs| > 0 ==> m == Num(Sum(xs) / |xs| as real)
  {
    if |xs| == 0 then Missing else Num(Sum(xs) / |xs| as real)
  }

  /** `Series.std(skipna=True)`, the sample deviation: NaN below two samples. */
  function StdDev(xs: seq<real>, num: Routines): (s: Stat)
    ensures s.Missing? <==> |xs| < 2
  {
    if |xs| < 2 then Missing else Num(num.std(xs))
  }

  /** `r ** 2`; NaN stays NaN. */
  function Squared(r: Stat): (s: Stat)
    ensures r.Num? ==> s == Num(r.x * r.x) && s.x >= 0.0
    ensures !r.Num? ==> s == Missing
  {
    if r.Num? then Num(r.x * r.x) else Missing
  }

  /** The correlation above which a day's baseline counts as valid. */
  const ValidityThreshold: real := 0.3

  /** The pre-filter of `calculateBaselineDay`: positive slope and r above 0.3. */
  predicate IsValid(fit: Fit) {
    fit.slope > 0.0 && fit.r > ValidityThreshold
  }

  // ---------------------------------------------------------------------
  // Baseline against the auxiliary electrode. `data_baseline.values` has
  // shape (N, 1) and the auxiliary `.values` shape (N,), so numpy
  // broadcasts every difference and ratio to an N x N matrix.
  // ---------------------------------------------------------------------

  /** The sum over j of (x - a[j]): one row of the broadcast difference matrix. */
  function RowDiffSum(x: real, a: seq<real>): real {
    if |a| == 0 then 0.0 else (x - a[0]) + RowDiffSum(x, a[1..])
  }

  /** The sum of every entry of the broadcast difference matrix. */
  function PairDiffSum(b: seq<real>, a: seq<real>): real {
    if |b| == 0 then 0.0 else RowDiffSum(b[0], a) + PairDiffSum(b[1..], a)
  }

  /** `np.mean(data_baseline.values - A.values)` over the broadcast matrix. */
  function DeltaMean(b: seq<real>, a: seq<real>): Stat {
    if |b| == 0 || |a| == 0 then Missing
    else Num(PairDiffSum(b, a) / ((|b| * |a|) as real))
  }

  lemma {:induction false} RowDiffSumIs(x: real, a: seq<real>)
    ensures RowDiffSum(x, a) == (|a| as real) * x - Sum(a)
    decreases |a|
  {
    if |a| > 0 {
      RowDiffSumIs(x, a[1..]);
      assert (|a| as real) * x == x + ((|a| - 1) as real) * x;
    }
  }

  lemma {:induction false} PairDiffSumIs(b: seq<real>, a: seq<real>)
    ensures PairDiffSum(b, a) == (|a| as real) * Sum(b) - (|b| as real) * Sum(a)
    decreases |b|
  {
    if |b| > 0 {
      RowDiffSumIs(b[0], a);
      PairDiffSumIs(b[1..], a);
      assert (|a| as real) * Sum(b) == (|a| as real) * b[0] + (|a| as real) * Sum(b[1..]);
      assert (|b| as real) * Sum(a) == Sum(a) + ((|b| - 1) as real) * Sum(a);
    }
  }

  /**
   * The broadcast makes no difference to the average delta: it is the mean
   * of the baseline minus the mean of the auxiliary electrode, as the
   * element-wise difference would give.
   */
  lemma {:induction false} DeltaMeanIsDifferenceOfMeans(b: seq<real>, a: seq<real>)
    requires |b| == |a| > 0
    ensures DeltaMean(b, a) == Num(Sum(b) / |b| as real - Sum(a) / |a| as real)
  {
    var n := |b| as real;
    PairDiffSumIs(b, a);
    assert PairDiffSum(b, a) == n * (Sum(b) - Sum(a));
    assert PairDiffSum(b, a) / (n * n) == (Sum(b) - Sum(a)) / n;
  }

  /** Whether any auxiliary sample is zero (the ratio is then infinite or NaN). */
  predicate HasZero(a: seq<real>) {
    exists j :: 0 <= j < |a| && a[j] == 0.0
  }

  /** The sum over j of x / a[j]: one row of the broadcast ratio matrix. */
  function RowRatioSum(x: real, a: seq<real>): real
    requires !HasZero(a)
  {
    if |a| == 0 then 0.0 else x / a[0] + RowRatioSum(x, a[1..])
  }

  /** The sum of every entry of the broadcast ratio matrix. */
  function PairRatioSum(b: seq<real>, a: seq<real>): real
    requires !HasZero(a)
  {
    if |b| == 0 then 0.0 else RowRatioSum(b[0], a) + PairRatioSum(b[1..], a)
  }

  /**
   * `np.mean(data_baseline.values / A.values)` as written: the mean over the
   * broadcast N x N matrix of every baseline sample divided by every
   * auxiliary sample.
   */
  function RatioMeanAsWritten(b: seq<real>, a: seq<real>): Stat {
    if |b| == 0 || |a| == 0 || HasZero(a) then Missing
    else Num(PairRatioSum(b, a) / ((|b| * |a|) as real))
  }

  /** The sum over i of b[i] / a[i]. */
  function RatioSum(b: seq<real>, a: seq<real>): real
    requires |b| == |a| && !HasZero(a)
  {
    if |b| == 0 then 0.0 else b[0] / a[0] + RatioSum(b[1..], a[1..])
  }

  /** The average ratio of each baseline sample to the auxiliary sample taken at the same time. */
  function RatioMean(b: seq<real>, a: seq<real>): Stat
    requires |b| == |a|
  {
    if |b| == 0 || HasZero(a) then Missing
    else Num(RatioSum(b, a) / |b| as real)
  }

  lemma {:induction false} RatioSumProportional(b: seq<real>, a: seq<real>, k: real)
    requires |b| == |a| && !HasZero(a)
    requires forall i :: 0 <= i < |b| ==> b[i] == k * a[i]
    ensures RatioSum(b, a) == (|b| as real) * k
    decreases |b|
  {
    if |b| > 0 {
      assert b[0] / a[0] == k;
      RatioSumProportional(b[1..], a[1..], k);
    }
  }

  /** When the baseline is k times the auxiliary electrode throughout, the average ratio is k. */
  lemma {:induction false} RatioMeanOfProportional(b: seq<real>, a: seq<real>, k: real)
    requires |b| == |a| > 0 && !HasZero(a)
    requires forall i :: 0 <= i < |b| ==> b[i] == k * a[i]
    ensures RatioMean(b, a) == Num(k)
  {
    RatioSumProportional(b, a, k);
  }

  /**
   * The broadcast ratio is not the average ratio: a baseline equal to the
   * auxiliary electrode, [1, 2] against [1, 2], has ratio 1 at every sample
   * but the broadcast mean is 1.125.
   */
  lemma RatioBroadcastDiffers()
    ensures RatioMean([1.0, 2.0], [1.0, 2.0]) == Num(1.0)
    ensures RatioMeanAsWritten([1.0, 2.0], [1.0, 2.0]) == Num(1.125)
  {
    var a := [1.0, 2.0];
    assert !HasZero(a);
    assert a[1..] == [2.0] && a[1..][1..] == [];
    assert RowRatioSum(1.0, a) == 1.5;
    assert RowRatioSum(2.0, a) == 3.0;
    assert PairRatioSum(a, a) == 4.5;
    RatioMeanOfProportional(a, a, 1.0);
  }

  // ---------------------------------------------------------------------
  // The metadata `calculateBaselineDay` returns.
  // ---------------------------------------------------------------------

  /**
   * The alphasense `baselineCorr`: the fit of the auxiliary electrode on the
   * baseline, the broadcast delta and ratio means as the code computes them,
   * the selected half-width index and the validity flag.
   */
  function AlphaBaselineCorr(fit: Fit, baseline: seq<real>, aux: seq<real>, indexMax: nat): (corr: seq<Stat>)
    ensures |corr| == 9
    ensures corr[..5] == [Num(fit.slope), Num(fit.intercept), Num(fit.r), Num(fit.p), Num(fit.stdErr)]
    ensures corr[5] == DeltaMean(baseline, aux) && corr[6] == RatioMeanAsWritten(baseline, aux)
    ensures corr[7] == Index(indexMax)
    ensures corr[8] == Flag(fit.slope > 0.0 && fit.r > 0.3)
  {
    [Num(fit.slope), Num(fit.intercept), Num(fit.r), Num(fit.p), Num(fit.stdErr),
     DeltaMean(baseline, aux), RatioMeanAsWritten(baseline, aux), Index(indexMax), Flag(IsValid(fit))]
  }

  /** The MICS `baselineCorr`: only the selected half-width index. */
  function MicsBaselineCorr(indexMax: nat): (corr: seq<Stat>)
    ensures corr == [Index(indexMax)]
  {
    [Index(indexMax)]
  }

  // ---------------------------------------------------------------------
  // The per-day row and the metadata table.
  // ---------------------------------------------------------------------

  /** `list.insert(i, x)`: before position `i`, or at the end when `i` is past it. */
  function Insert(list: seq<Stat>, i: nat, x: Stat): (r: seq<Stat>)
    ensures |r| == |list| + 1
    ensures i <= |list| ==> r[..i] == list[..i] && r[i] == x && r[i + 1..] == list[i..]
    ensures i > |list| ==> r == list + [x]
  {
    var k := if i <= |list| then i else |list|;
    list[..k] + [x] + list[k..]
  }

  /** Inserting at position 1 puts the element right after the head. */
  lemma InsertSecond(head: Stat, rest: seq<Stat>, x: Stat)
    ensures Insert([head] + rest, 1, x) == [head] + ([x] + rest)
  {
  }

  /** Six elements pushed one by one in front of a list, last first. */
  lemma PushSix(a: Stat, b: Stat, c: Stat, d: Stat, e: Stat, f: Stat, rest: seq<Stat>)
    ensures [a] + ([b] + ([c] + ([d] + ([e] + ([f] + rest))))) == [a, b, c, d, e, f] + rest
  {
  }

  /**
   * The row of a day with data: r² at position 0, then one insert after
   * another at position 1, so the later inserts end up first.
   */
  method AssembleDayRow(corrTrim: seq<Stat>, r2: Stat, tempAvg: Stat, tempStd: Stat,
                        humAvg: Stat, humStd: Stat, pollutantAvg: Stat)
    returns (row: seq<Stat>)
    ensures row == [r2, tempAvg, tempStd, humAvg, humStd, pollutantAvg] + corrTrim
  {
    row := corrTrim;
    row := Insert(row, 0, r2);
    assert row == [r2] + corrTrim;
    ghost var rest := corrTrim;
    InsertSecond(r2, rest, pollutantAvg);
    row, rest := Insert(row, 1, pollutantAvg), [pollutantAvg] + rest;
    InsertSecond(r2, rest, humStd);
    row, rest := Insert(row, 1, humStd), [humStd] + rest;
    InsertSecond(r2, rest, humAvg);
    row, rest := Insert(row, 1, humAvg), [humAvg] + rest;
    InsertSecond(r2, rest, tempStd);
    row, rest := Insert(row, 1, tempStd), [tempStd] + rest;
    InsertSecond(r2, rest, tempAvg);
    row := Insert(row, 1, tempAvg);
    PushSix(r2, tempAvg, tempStd, humAvg, humStd, pollutantAvg, corrTrim);
  }

  /** The row of a day without data: ten NaNs, whatever the labels. */
  function NanRow(): (row: seq<Stat>)
    ensures |row| == 10 && forall i :: 0 <= i < |row| ==> row[i] == Missing
  {
    seq(10, _ => Missing)
  }

  function AlphaLabels(): seq<string> {
    ["r_valueRef", "avg_temp", "stderr_temp", "avg_hum", "stderr_hum", "avg_pollutant",
     "slopeBA", "interceptBA", "r_valueBA", "p_valueBA", "std_errBA",
     "deltaAuxBas_avg", "ratioAuxBas_avg", "indexMax", "valid"]
  }

  function MicsLabels(): seq<string> {
    ["r_valueRef", "avg_temp", "stderr_temp", "avg_hum", "stderr_hum", "avg_pollutant", "indexMax"]
  }

  function ClassicLabels(): seq<string> {
    ["r_valueRef", "avg_temp", "stderr_temp", "avg_hum", "stderr_hum", "avg_pollutant"]
  }

  /** A metadata table: column labels, one midnight per day, and one row per day. */
  datatype Table = Table(labels: seq<string>, days: seq<int>, rows: seq<seq<Stat>>)

  /** The length of the longest row. */
  function Widest(rows: seq<seq<Stat>>): (w: nat)
    ensures forall i :: 0 <= i < |rows| ==> |rows[i]| <= w
    ensures |rows| > 0 ==> exists i :: 0 <= i < |rows| && |rows[i]| == w
    ensures |rows| == 0 ==> w == 0
  {
    if |rows| == 0 then 0
    else
      var rest := Widest(rows[1..]);
      if |rows[0]| >= rest then |rows[0]| else rest
  }

  /** A row padded with NaN to `width` fields. */
  function Pad(row: seq<Stat>, width: nat): (p: seq<Stat>)
    requires |row| <= width
    ensures |p| == width && p[..|row|] == row
    ensures forall i :: |row| <= i < width ==> p[i] == Missing
  {
    row + seq(width - |row|, _ => Missing)
  }

  /**
   * `pd.DataFrame(rows, columns = labels, index = days)`: the rows are
   * padded to the longest one, which must have exactly as many fields as
   * there are labels; otherwise pandas raises and there is no table.
   */
  function BuildTable(rows: seq<seq<Stat>>, labels: seq<string>, days: seq<int>): (t: Option<Table>)
    ensures t.Some? <==> |rows| == |days| && (|rows| == 0 || Widest(rows) == |labels|)
    ensures t.Some? ==> t.value.labels == labels && t.value.days == days && |t.value.rows| == |rows|
    ensures t.Some? ==> forall i :: 0 <= i < |rows| ==>
              |t.value.rows[i]| == |labels| && t.value.rows[i][..|rows[i]|] == rows[i]
  {
    if |rows| != |days| || (|rows| > 0 && Widest(rows) != |labels|) then None
    else Some(Table(labels, days, seq(|rows|, i requires 0 <= i < |rows| => Pad(rows[i], |labels|))))
  }
}
