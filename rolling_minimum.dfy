/**
 * `ExtractBaseline` of notebooks/pollutant_cal_utils.py: the rolling minimum
 * of a signal over the half-open window [max(0, n-delta), min(N, n+delta)).
 */
module RollingMinimum {

  /** Python's built-in `min` on a non-empty chunk. */
  function SeqMin(s: seq<real>): (m: real)
    requires |s| > 0
    ensures m in s
    ensures forall i :: 0 <= i < |s| ==> m <= s[i]
  {
    if |s| == 1 then s[0]
    else
      var rest := SeqMin(s[1..]);
      if s[0] <= rest then s[0] else rest
  }

  /** `minIndex = max(n - delta, 0)`. */
  function WindowStart(n: nat, delta: nat): nat {
    if n - delta > 0 then n - delta else 0
  }

  /** `maxIndex = min(n + delta, N)`: the slice end, itself excluded. */
  function WindowEnd(n: nat, delta: nat, len: nat): nat {
    if n + delta < len then n + delta else len
  }

  /** The chunk `data[minIndex:maxIndex]` whose minimum is entry `n` of the baseline. */
  function Window(data: seq<real>, delta: nat, n: nat): (chunk: seq<real>)
    requires n < |data|
    ensures delta >= 1 ==> |chunk| > 0
  {
    data[WindowStart(n, delta)..WindowEnd(n, delta, |data|)]
  }

  /** Entry `n` of the baseline. */
  function BaselineAt(data: seq<real>, delta: nat, n: nat): real
    requires delta >= 1 && n < |data|
  {
    SeqMin(Window(data, delta, n))
  }

  /** The whole baseline, one entry per sample. */
  function Baseline(data: seq<real>, delta: nat): (b: seq<real>)
    requires delta >= 1 || |data| == 0
    ensures |b| == |data|
  {
    seq(|data|, n requires 0 <= n < |data| => BaselineAt(data, delta, n))
  }

  /**
   * `ExtractBaseline`: fills a preallocated array entry by entry. With
   * delta = 0 and a non-empty signal the first chunk is empty and `min`
   * raises, so callers pass delta >= 1 (the configured deltas start at 1).
   */
  method ExtractBaseline(data: seq<real>, delta: nat) returns (result: array<real>)
    requires delta >= 1 || |data| == 0
    ensures result.Length == |data|
    ensures result[..] == Baseline(data, delta)
  {
    result := new real[|data|];
    for n := 0 to |data|
      invariant forall k :: 0 <= k < n ==> result[k] == BaselineAt(data, delta, k)
    {
      var minIndex := if n - delta > 0 then n - delta else 0;
      var maxIndex := if n + delta < |data| then n + delta else |data|;
      var chunk := data[minIndex..maxIndex];
      assert chunk == Window(data, delta, n);
      result[n] := SeqMin(chunk);
    }
    assert forall k :: 0 <= k < |data| ==> result[..][k] == Baseline(data, delta)[k];
  }

  /** Each baseline entry is a sample of the window, and no larger than sample `n`. */
  lemma BaselineIsSample(data: seq<real>, delta: nat, n: nat)
    requires delta >= 1 && n < |data|
    ensures BaselineAt(data, delta, n) <= data[n]
    ensures BaselineAt(data, delta, n) in data
    ensures exists j :: WindowStart(n, delta) <= j < WindowEnd(n, delta, |data|)
                        && BaselineAt(data, delta, n) == data[j]
  {
    var lo, hi := WindowStart(n, delta), WindowEnd(n, delta, |data|);
    var chunk := Window(data, delta, n);
    assert chunk[n - lo] == data[n];
    var m := SeqMin(chunk);
    var k :| 0 <= k < |chunk| && chunk[k] == m;
    assert data[lo + k] == m;
  }

  /** A zero half-width gives an empty chunk: the reason the source needs delta >= 1. */
  lemma ZeroDeltaEmptyWindow(data: seq<real>, n: nat)
    requires n < |data|
    ensures Window(data, 0, n) == []
  {
  }

  /** Widening the half-width never raises the baseline: the window only grows. */
  lemma WiderWindowNotHigher(data: seq<real>, d1: nat, d2: nat, n: nat)
    requires 1 <= d1 <= d2 && n < |data|
    ensures BaselineAt(data, d2, n) <= BaselineAt(data, d1, n)
  {
    BaselineIsSample(data, d1, n);
    var j :| WindowStart(n, d1) <= j < WindowEnd(n, d1, |data|) && BaselineAt(data, d1, n) == data[j];
    var lo2 := WindowStart(n, d2);
    var chunk2 := Window(data, d2, n);
    assert chunk2[j - lo2] == data[j];
  }

  /** A baseline is pinned down by its entries. */
  lemma BaselineFrom(data: seq<real>, delta: nat, expected: seq<real>)
    requires delta >= 1 && |expected| == |data|
    requires forall k :: 0 <= k < |data| ==> BaselineAt(data, delta, k) == expected[k]
    ensures Baseline(data, delta) == expected
  {
  }

  /**
   * The sample `data[n + delta]` is outside window `n`: the source's slice is
   * half-open, so for [100, 102, 98, 101, 99] and delta 1 the baseline is
   * [100, 100, 98, 98, 99].
   */
  lemma HalfOpenExample()
    ensures Baseline([100.0, 102.0, 98.0, 101.0, 99.0], 1) == [100.0, 100.0, 98.0, 98.0, 99.0]
  {
    var data := [100.0, 102.0, 98.0, 101.0, 99.0];
    var expected := [100.0, 100.0, 98.0, 98.0, 99.0];
    assert Window(data, 1, 0) == [100.0];
    assert Window(data, 1, 1) == [100.0, 102.0];
    assert Window(data, 1, 2) == [102.0, 98.0];
    assert Window(data, 1, 3) == [98.0, 101.0];
    assert Window(data, 1, 4) == [101.0, 99.0];
    forall k | 0 <= k < 5
      ensures BaselineAt(data, 1, k) == expected[k]
    {
    }
    BaselineFrom(data, 1, expected);
  }
}
