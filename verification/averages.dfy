/**
 * `total ? Math.round(list.reduce((acc, t) => acc + t.duration, 0) / total) : 0`,
 * the rounded average duration shown by the dashboard and the call-centre
 * statistics, computed exactly on integers.
 */
module Averages {
  import opened Types

  /** The sum of the durations, in list order. */
  function SumDurations(tasks: seq<Task>): int
    decreases |tasks|
  {
    if |tasks| == 0 then 0 else SumDurations(tasks[..|tasks| - 1]) + tasks[|tasks| - 1].duration
  }

  /**
   * `Math.round(sum / n)`, or 0 when `n` is 0. `Math.round` rounds halves
   * up, so the result is the floor of `sum / n + 1/2`, which is
   * `(2 * sum + n) / (2 * n)` with floor division.
   */
  function RoundedAverage(sum: int, n: nat): (r: int)
    ensures n == 0 ==> r == 0
  {
    if n == 0 then 0 else (2 * sum + n) / (2 * n)
  }

  /**
   * The rounded average is the integer nearest to `sum / n`, halves going
   * up: `r - 1/2 <= sum / n < r + 1/2`.
   */
  lemma RoundedAverageNearest(sum: int, n: nat)
    requires n > 0
    ensures 2 * n * RoundedAverage(sum, n) <= 2 * sum + n < 2 * n * (RoundedAverage(sum, n) + 1)
  {
    var d := 2 * n;
    var r := RoundedAverage(sum, n);
    var m := (2 * sum + n) % d;
    assert 2 * sum + n == d * r + m && 0 <= m < d;
    assert d * (r + 1) == d * r + d;
  }

  lemma MulMonotone(c: nat, a: int, b: int)
    requires a <= b
    ensures c * a <= c * b
  {
    assert c * b - c * a == c * (b - a);
  }

  /** Only one integer lies within a half of `sum / n`, so the nearest-integer property determines the average. */
  lemma RoundedAverageUnique(sum: int, n: nat, v: int)
    requires n > 0
    requires 2 * n * v <= 2 * sum + n < 2 * n * (v + 1)
    ensures RoundedAverage(sum, n) == v
  {
    var r := RoundedAverage(sum, n);
    RoundedAverageNearest(sum, n);
    if r < v {
      MulMonotone(2 * n, r + 1, v);
    } else if r > v {
      MulMonotone(2 * n, v + 1, r);
    }
  }

  /** A list of equal durations averages to that duration. */
  lemma {:induction false} ConstantAverage(tasks: seq<Task>, v: int)
    requires forall i :: 0 <= i < |tasks| ==> tasks[i].duration == v
    ensures SumDurations(tasks) == |tasks| * v
    ensures |tasks| > 0 ==> RoundedAverage(SumDurations(tasks), |tasks|) == v
    decreases |tasks|
  {
    if |tasks| > 0 {
      var n := |tasks|;
      ConstantAverage(tasks[..n - 1], v);
      assert SumDurations(tasks) == (n - 1) * v + v;
      assert (n - 1) * v + v == n * v;
      assert 2 * n * (v + 1) == 2 * n * v + 2 * n;
      assert 2 * (n * v) == 2 * n * v;
      RoundedAverageUnique(n * v, n, v);
    }
  }
}
