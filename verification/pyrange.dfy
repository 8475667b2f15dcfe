/** Python 2 `xrange(start, stop, step)` on integers. */
module PyRange {
  import opened Optional

  /** The documented meaning of `xrange(start, stop, step)` for a non-zero
      step: the arithmetic progression from `start` with difference `step`,
      taken as long as it stays strictly on the near side of `stop`. */
  ghost predicate IsXRange(r: seq<int>, start: int, stop: int, step: int)
  {
    && (forall k :: 0 <= k < |r| ==> r[k] == start + k * step)
    && (step > 0 ==> (forall k :: 0 <= k < |r| ==> r[k] < stop) && start + |r| * step >= stop)
    && (step < 0 ==> (forall k :: 0 <= k < |r| ==> r[k] > stop) && start + |r| * step <= stop)
  }

  /** The values `xrange` yields, for a non-zero step: `start`, then onwards
      in steps of `step` while strictly on the near side of `stop`. */
  function Progression(start: int, stop: int, step: int): seq<int>
    requires step != 0
    decreases if step > 0 then stop - start else start - stop
  {
    if (step > 0 && start < stop) || (step < 0 && stop < start) then
      [start] + Progression(start + step, stop, step)
    else
      []
  }

  /** One more value while short of `stop`. */
  lemma ProgressionCons(start: int, stop: int, step: int)
    requires (step > 0 && start < stop) || (step < 0 && stop < start)
    ensures Progression(start, stop, step) == [start] + Progression(start + step, stop, step)
  {
  }

  /** Nothing once `stop` is reached or passed. */
  lemma ProgressionDone(start: int, stop: int, step: int)
    requires (step > 0 && start >= stop) || (step < 0 && stop >= start)
    ensures Progression(start, stop, step) == []
  {
  }

  /** The progression has the documented meaning. */
  lemma {:induction false} ProgressionIsXRange(start: int, stop: int, step: int)
    requires step != 0
    ensures IsXRange(Progression(start, stop, step), start, stop, step)
    decreases if step > 0 then stop - start else start - stop
  {
    if (step > 0 && start < stop) || (step < 0 && stop < start) {
      ProgressionIsXRange(start + step, stop, step);
      Extend(Progression(start + step, stop, step), start, stop, step);
    }
  }

  lemma Extend(rest: seq<int>, start: int, stop: int, step: int)
    requires (step > 0 && start < stop) || (step < 0 && stop < start)
    requires IsXRange(rest, start + step, stop, step)
    ensures IsXRange([start] + rest, start, stop, step)
  {
    var r := [start] + rest;
    forall k | 0 <= k < |r|
      ensures r[k] == start + k * step
    {
      if k > 0 {
        assert r[k] == rest[k - 1] == start + step + (k - 1) * step;
        assert (k - 1) * step + step == k * step;
      }
    }
    assert start + |r| * step == start + step + |rest| * step;
  }

  /** `xrange(start, stop, step)`: None stands for the ValueError Python
      raises when the step is zero. */
  function XRange(start: int, stop: int, step: int): (r: Option<seq<int>>)
    ensures r.None? <==> step == 0
    ensures r.Some? ==> IsXRange(r.value, start, stop, step)
  {
    if step == 0 then None
    else
      ProgressionIsXRange(start, stop, step);
      Some(Progression(start, stop, step))
  }

  /** Every index short of the length lies strictly before `stop`. */
  lemma Below(r: seq<int>, start: int, stop: int, step: int, n: int)
    requires IsXRange(r, start, stop, step)
    requires 0 <= n < |r|
    ensures step > 0 ==> start + n * step < stop
    ensures step < 0 ==> start + n * step > stop
  {
    assert r[n] == start + n * step;
  }

  /** The meaning above pins the sequence down: there is only one. */
  lemma {:induction false} XRangeUnique(r: seq<int>, s: seq<int>, start: int, stop: int, step: int)
    requires step != 0
    requires IsXRange(r, start, stop, step) && IsXRange(s, start, stop, step)
    ensures r == s
  {
    if |r| < |s| {
      Below(s, start, stop, step, |r|);
      assert false;
    } else if |s| < |r| {
      Below(r, start, stop, step, |s|);
      assert false;
    }
  }

  lemma DivExact(p: int, step: int)
    requires step > 0 && p >= 0 && p % step == 0
    ensures p == (p / step) * step && p / step >= 0
  {
  }

  /** `m * step` as repeated addition, which keeps inductions over `m`
      linear. */
  function Times(m: nat, step: int): (r: int)
    ensures step >= 0 ==> r >= 0
  {
    if m == 0 then 0 else Times(m - 1, step) + step
  }

  lemma {:induction false} TimesIsProduct(m: nat, step: int)
    ensures Times(m, step) == m * step
  {
    if m > 0 {
      TimesIsProduct(m - 1, step);
      assert (m - 1) * step + step == m * step;
    }
  }

  /** A multiple of a positive step is its quotient's worth of steps. */
  lemma DivTimes(p: int, step: int)
    requires step > 0 && p >= 0 && p % step == 0
    ensures p / step >= 0 && p == Times(p / step, step)
  {
    DivExact(p, step);
    TimesIsProduct(p / step, step);
  }

  lemma MulMono(a: int, b: int, step: int)
    requires a <= b && step > 0
    ensures a * step <= b * step
  {
    assert b * step - a * step == (b - a) * step;
  }

  /** For a positive step, index k is in the range exactly when
      `start + k * step < stop`; for a negative step, when it is `> stop`. */
  lemma {:induction false} XRangeIndices(r: seq<int>, start: int, stop: int, step: int)
    requires step != 0
    requires IsXRange(r, start, stop, step)
    ensures step > 0 ==> forall k :: 0 <= k ==> (k < |r| <==> start + k * step < stop)
    ensures step < 0 ==> forall k :: 0 <= k ==> (k < |r| <==> start + k * step > stop)
  {
    forall k | 0 <= k && |r| <= k
      ensures step > 0 ==> start + k * step >= stop
      ensures step < 0 ==> start + k * step <= stop
    {
      if step > 0 {
        MulMono(|r|, k, step);
      } else {
        MulMono(|r|, k, -step);
        assert k * step == -(k * -step) && |r| * step == -(|r| * -step);
      }
    }
    forall k | 0 <= k < |r|
      ensures step > 0 ==> start + k * step < stop
      ensures step < 0 ==> start + k * step > stop
    {
      Below(r, start, stop, step, k);
    }
  }
}
