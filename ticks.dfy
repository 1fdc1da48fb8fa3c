/** The x-axis tick selector of the Logistic Equation app: a spacing chosen
    from a fixed threshold table, then the multiples of that spacing from 0
    up to the step count, as numpy's integer `arange` produces them. */
module AxisTicks {

  /** The tick spacing for a plot of `steps` iterations; the first threshold
      that `steps` falls below wins. */
  function Delta(steps: int): (delta: int)
    ensures delta in {1, 2, 5, 10, 25, 50}
  {
    if steps < 10 then 1
    else if steps < 20 then 2
    else if steps < 100 then 5
    else if steps < 200 then 10
    else if steps < 500 then 25
    else 50
  }

  /** numpy's `arange(start, stop, step)` on integers with a positive step:
      start, start + step, start + 2 * step, ... for as long as the value
      stays below the exclusive bound `stop`. */
  function Arange(start: int, stop: int, step: int): (s: seq<int>)
    requires step > 0
    ensures forall i :: 0 <= i < |s| ==> s[i] == start + i * step
    ensures stop <= start ==> s == []
    ensures start < stop ==> |s| > 0 && s[|s| - 1] < stop <= s[|s| - 1] + step
    decreases stop - start
  {
    if start < stop then [start] + Arange(start + step, stop, step) else []
  }

  /** The x-axis ticks for a plot of `steps` iterations. For a non-negative
      step count they are 0, delta, 2 * delta, ... up to the largest multiple
      of delta that does not exceed `steps`, so there are steps / delta + 1 of
      them; a negative step count yields none. */
  function XTicks(steps: int): (t: seq<int>)
    ensures steps < 0 ==> t == []
    ensures steps >= 0 ==>
      && |t| == steps / Delta(steps) + 1
      && t[0] == 0
      && (forall i :: 0 <= i < |t| ==> t[i] == i * Delta(steps) && 0 <= t[i] <= steps)
      && t[|t| - 1] <= steps < t[|t| - 1] + Delta(steps)
  {
    var t := Arange(0, steps + 1, Delta(steps));
    if steps >= 0 then
      ArangeFromZero(steps + 1, Delta(steps));
      t
    else
      t
  }

  /** The spacing never shrinks as the step count grows, so longer runs get
      coarser ticks. */
  lemma DeltaMonotone(s1: int, s2: int)
    requires s1 <= s2
    ensures Delta(s1) <= Delta(s2)
  {
  }

  /** An arange with a positive step is strictly increasing. */
  lemma ArangeIncreasing(start: int, stop: int, step: int)
    requires step > 0
    ensures forall i, j :: 0 <= i < j < |Arange(start, stop, step)| ==>
      Arange(start, stop, step)[i] < Arange(start, stop, step)[j]
  {
    var s := Arange(start, stop, step);
    forall i, j | 0 <= i < j < |s|
      ensures s[i] < s[j]
    {
      assert s[j] - s[i] == (j - i) * step;
      MulPositive(j - i, step);
    }
  }

  /** The product of two positive integers is positive. */
  lemma MulPositive(a: int, b: int)
    requires a > 0 && b > 0
    ensures a * b > 0
  {
  }

  /** An arange from 0 with one of the table's spacings and a positive bound
      holds the multiples of the spacing below the bound; there are
      (stop - 1) / step + 1 of them. */
  lemma ArangeFromZero(stop: int, step: int)
    requires stop > 0 && step in {1, 2, 5, 10, 25, 50}
    ensures var s := Arange(0, stop, step);
      && |s| == (stop - 1) / step + 1
      && s[0] == 0
      && (forall i :: 0 <= i < |s| ==> s[i] == i * step && 0 <= s[i] < stop)
      && s[|s| - 1] < stop <= s[|s| - 1] + step
  {
    var s := Arange(0, stop, step);
    var n := |s| - 1;
    assert s[n] == n * step;
    assert n * step <= stop - 1 < n * step + step;
    forall i | 0 <= i < |s|
      ensures 0 <= s[i] < stop
    {
      assert s[i] == i * step;
      if i > 0 {
        MulPositive(i, step);
      }
      ArangeIncreasing(0, stop, step);
      if i < n {
        assert s[i] < s[n];
      }
    }
    QuotientUnique(stop - 1, step, n);
  }

  /** For each spacing of the table, a quotient is pinned down by the
      multiples around the dividend. */
  lemma QuotientUnique(m: int, d: int, q: int)
    requires d in {1, 2, 5, 10, 25, 50} && q * d <= m < q * d + d
    ensures m / d == q
  {
    if d == 1 {
    } else if d == 2 {
    } else if d == 5 {
    } else if d == 10 {
    } else if d == 25 {
    } else {
    }
  }

  /** The ticks are exactly the multiples of the spacing between 0 and
      `steps`. */
  lemma XTicksMembership(steps: int, m: int)
    requires steps >= 0
    ensures m in XTicks(steps) <==> 0 <= m <= steps && m % Delta(steps) == 0
  {
    if m in XTicks(steps) {
      XTicksSound(steps, m);
    }
    if 0 <= m <= steps && m % Delta(steps) == 0 {
      XTicksComplete(steps, m);
    }
  }

  /** Every tick is a multiple of the spacing between 0 and `steps`. */
  lemma XTicksSound(steps: int, m: int)
    requires steps >= 0 && m in XTicks(steps)
    ensures 0 <= m <= steps && m % Delta(steps) == 0
  {
    var t := XTicks(steps);
    var k :| 0 <= k < |t| && t[k] == m;
    MultipleModulo(k, Delta(steps));
  }

  /** Every multiple of the spacing between 0 and `steps` is a tick. */
  lemma XTicksComplete(steps: int, m: int)
    requires 0 <= m <= steps && m % Delta(steps) == 0
    ensures m in XTicks(steps)
  {
    var t, delta := XTicks(steps), Delta(steps);
    var k := m / delta;
    assert m == k * delta;
    assert k >= 0;
    if k >= |t| {
      MulMonotone(|t|, k, delta);
      assert false;
    }
    assert t[k] == m;
  }

  /** A multiple of one of the table's spacings leaves no remainder. */
  lemma MultipleModulo(k: int, d: int)
    requires d in {1, 2, 5, 10, 25, 50}
    ensures (k * d) % d == 0
  {
    QuotientUnique(k * d, d, k);
    assert k * d == d * ((k * d) / d) + (k * d) % d;
  }

  /** Multiplying by a positive factor keeps order. */
  lemma MulMonotone(a: int, b: int, c: int)
    requires a <= b && c > 0
    ensures a * c <= b * c
  {
  }

  /** Below 10 steps every iteration index 0..steps gets a tick. */
  lemma XTicksSmall(steps: int)
    requires 0 <= steps < 10
    ensures XTicks(steps) == seq(steps + 1, i => i)
  {
  }

  /** At 15 steps the spacing is 2 and the last tick is 14: the exclusive
      bound steps + 1 = 16 keeps 16 itself off the axis. */
  lemma XTicksFifteen()
    ensures XTicks(15) == [0, 2, 4, 6, 8, 10, 12, 14]
  {
  }

  /** Over the slider's range of 1..1000 iterations the axis carries between
      2 and 21 ticks. */
  lemma XTicksCount(steps: int)
    requires 1 <= steps <= 1000
    ensures 2 <= |XTicks(steps)| <= 21
  {
  }
}
