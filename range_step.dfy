/** Rust's `(start..end).step_by(step)` over unsigned integers: the values
    `start, start + step, start + 2 * step, ...` that are below `end`.
    `step_by(0)` panics in Rust; here a zero step is excluded by `requires`
    and the callers that can reach it model the panic themselves. */
module RangeStep {

  function StepBy(start: nat, end: nat, step: nat): (r: seq<nat>)
    requires step > 0
    decreases end - start
  {
    if start >= end then [] else [start] + StepBy(start + step, end, step)
  }

  lemma MulMonotone(a: nat, b: nat, step: nat)
    requires a <= b
    ensures a * step <= b * step
  {
  }

  /** The k-th value is `start + k * step`, every value is below `end`, and
      the last one is at most one step short of `end`. */
  lemma {:induction false} StepByValues(start: nat, end: nat, step: nat)
    requires step > 0
    ensures var r := StepBy(start, end, step);
      && (|r| == 0 <==> start >= end)
      && (forall k :: 0 <= k < |r| ==> r[k] == start + k * step && r[k] < end)
      && (|r| > 0 ==> r[|r| - 1] + step >= end)
    decreases end - start
  {
    if start < end {
      StepByValues(start + step, end, step);
      var r := StepBy(start, end, step);
      var rest := StepBy(start + step, end, step);
      assert r == [start] + rest;
      forall k | 1 <= k < |r|
        ensures r[k] == start + k * step
      {
        assert r[k] == rest[k - 1] == start + step + (k - 1) * step;
      }
    }
  }

  /** `n` with `(n - 1) * step < d <= n * step` is `d / step` rounded up. */
  lemma CeilDiv(n: nat, d: nat, step: nat)
    requires step > 0
    requires n * step < d + step && d <= n * step
    ensures (d + step - 1) / step == n
  {
    var q, rem := (d + step - 1) / step, (d + step - 1) % step;
    assert d + step - 1 == q * step + rem && rem < step;
    assert q < n + 1 by {
      if q >= n + 1 {
        MulMonotone(n + 1, q, step);
      }
    }
    assert q + 1 > n by {
      if q + 1 <= n {
        MulMonotone(q + 1, n, step);
      }
    }
  }

  /** The number of values is `ceil((end - start) / step)`. */
  lemma StepByLength(start: nat, end: nat, step: nat)
    requires step > 0
    ensures start < end ==> |StepBy(start, end, step)| == (end - start + step - 1) / step
    ensures start >= end ==> |StepBy(start, end, step)| == 0
  {
    StepByValues(start, end, step);
    var r := StepBy(start, end, step);
    if start < end {
      var n := |r|;
      assert r[n - 1] == start + (n - 1) * step;
      assert (n - 1) * step + step == n * step;
      CeilDiv(n, end - start, step);
    }
  }

  /** The windows `[r[i], r[i] + step)` are pairwise disjoint and in order. */
  lemma StepByDisjoint(start: nat, end: nat, step: nat)
    requires step > 0
    ensures forall i, j :: 0 <= i < j < |StepBy(start, end, step)| ==> StepBy(start, end, step)[i] + step <= StepBy(start, end, step)[j]
  {
    StepByValues(start, end, step);
    var r := StepBy(start, end, step);
    forall i, j | 0 <= i < j < |r|
      ensures r[i] + step <= r[j]
    {
      assert r[i] == start + i * step && r[j] == start + j * step;
      MulMonotone(i + 1, j, step);
      assert (i + 1) * step == i * step + step;
    }
  }

  /** Together the windows `[r[i], r[i] + step)` cover `[start, end)`:
      the value `x` lies in the window of the `(x - start) / step`-th value. */
  lemma StepByCovers(start: nat, end: nat, step: nat, x: nat)
    requires step > 0
    requires start <= x < end
    ensures var r := StepBy(start, end, step);
      exists k :: 0 <= k < |r| && r[k] <= x < r[k] + step
  {
    StepByValues(start, end, step);
    var r := StepBy(start, end, step);
    var k := (x - start) / step;
    assert k * step <= x - start < k * step + step;
    if k >= |r| {
      MulMonotone(|r|, k, step);
      assert false;
    }
    assert r[k] <= x < r[k] + step;
  }
}
