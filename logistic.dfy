/** The iteration engine of the Logistic Equation app: the logistic map
    x(n) = r * x(n-1) * (1 - x(n-1)) run side by side from two seeds.
    Arithmetic is over `real`, which is exact; floating-point rounding is
    not modelled. */
module Logistic {

  /** One application of the logistic map with growth rate r. */
  function Step(r: real, x: real): real
  {
    r * x * (1.0 - x)
  }

  /** The n-th iterate of the map from seed x: Step applied n times. */
  function Orbit(r: real, x: real, n: nat): real
  {
    if n == 0 then x else Step(r, Orbit(r, x, n - 1))
  }

  /** The list the source builds for one seed after n loop passes: the seed,
      then one appended iterate per pass. */
  function Trajectory(r: real, x: real, n: nat): (t: seq<real>)
    ensures |t| == n + 1
    ensures t[0] == x
    ensures forall i :: 0 <= i < n ==> t[i + 1] == Step(r, t[i])
  {
    if n == 0 then [x]
    else
      var prev := Trajectory(r, x, n - 1);
      prev + [Step(r, prev[n - 1])]
  }

  /** The number of passes `for i in range(steps)` makes: none when steps <= 0. */
  function Passes(steps: int): (n: nat)
    ensures steps >= 0 ==> n == steps
    ensures steps <= 0 ==> n == 0
  {
    if steps < 0 then 0 else steps
  }

  /** Runs the map from x0 and from y0 for `steps` passes and returns both
      trajectories and their pointwise difference. */
  method LogisticEquation(steps: int, x0: real, y0: real, r: real)
    returns (a: seq<real>, b: seq<real>, d: seq<real>)
    ensures |a| == |b| == |d| == Passes(steps) + 1
    ensures a[0] == x0 && b[0] == y0 && d[0] == x0 - y0
    ensures forall i :: 0 <= i < |a| - 1 ==> a[i + 1] == Step(r, a[i]) && b[i + 1] == Step(r, b[i])
    ensures forall i :: 0 <= i < |d| ==> d[i] == a[i] - b[i]
    ensures a == Trajectory(r, x0, Passes(steps)) && b == Trajectory(r, y0, Passes(steps))
    ensures steps <= 0 ==> a == [x0] && b == [y0] && d == [x0 - y0]
    ensures x0 == y0 ==> a == b && forall i :: 0 <= i < |d| ==> d[i] == 0.0
  {
    a, b, d := [x0], [y0], [x0 - y0];
    var x, y := x0, y0;
    var i := 0;
    while i < steps
      invariant 0 <= i <= Passes(steps)
      invariant a == Trajectory(r, x0, i) && b == Trajectory(r, y0, i)
      invariant x == a[i] && y == b[i]
      invariant |d| == i + 1
      invariant forall k :: 0 <= k <= i ==> d[k] == a[k] - b[k]
    {
      var x1 := Step(r, x);
      var y1 := Step(r, y);
      a := a + [x1];
      b := b + [y1];
      d := d + [x1 - y1];
      x, y := x1, y1;
      i := i + 1;
    }
  }

  /** Each entry of a trajectory is the iterate of the same index. */
  lemma {:induction false} TrajectoryIsOrbit(r: real, x: real, n: nat, i: nat)
    requires i <= n
    ensures Trajectory(r, x, n)[i] == Orbit(r, x, i)
  {
    if i < n {
      TrajectoryIsOrbit(r, x, n - 1, i);
      assert Trajectory(r, x, n)[i] == Trajectory(r, x, n - 1)[i];
    } else if i > 0 {
      TrajectoryIsOrbit(r, x, n - 1, i - 1);
    }
  }

  /** A shorter run is a prefix of a longer run from the same seed. */
  lemma {:induction false} TrajectoryPrefix(r: real, x: real, m: nat, n: nat)
    requires m <= n
    ensures Trajectory(r, x, m) == Trajectory(r, x, n)[..m + 1]
  {
    if m < n {
      TrajectoryPrefix(r, x, m, n - 1);
      assert Trajectory(r, x, n)[..n] == Trajectory(r, x, n - 1);
    }
  }

  /** Iterating m times and then n times is iterating m + n times. */
  lemma {:induction false} OrbitCompose(r: real, x: real, m: nat, n: nat)
    ensures Orbit(r, Orbit(r, x, m), n) == Orbit(r, x, m + n)
  {
    if n > 0 {
      OrbitCompose(r, x, m, n - 1);
    }
  }

  /** A fixed point of the map (such as 0.5 for r = 2) stays put forever. */
  lemma {:induction false} FixedPointOrbit(r: real, x: real, n: nat)
    requires Step(r, x) == x
    ensures Orbit(r, x, n) == x
  {
    if n > 0 {
      FixedPointOrbit(r, x, n - 1);
    }
  }

  /** From a fixed point of the map every entry of the built list is the
      seed itself. */
  lemma FixedPointTrajectory(r: real, x: real, n: nat)
    requires Step(r, x) == x
    ensures forall i :: 0 <= i <= n ==> Trajectory(r, x, n)[i] == x
  {
    forall i | 0 <= i <= n
      ensures Trajectory(r, x, n)[i] == x
    {
      TrajectoryIsOrbit(r, x, n, i);
      FixedPointOrbit(r, x, i);
    }
  }

  /** Two passes at r = 2 from the seeds 0.5 and 0.5, which is a fixed point
      there: both lists stay at 0.5 and the differences are all zero. */
  method FixedPointRun() returns (a: seq<real>, b: seq<real>, d: seq<real>)
    ensures a == b == [0.5, 0.5, 0.5]
    ensures d == [0.0, 0.0, 0.0]
  {
    a, b, d := LogisticEquation(2, 0.5, 0.5, 2.0);
    assert Step(2.0, 0.5) == 0.5;
    FixedPointTrajectory(2.0, 0.5, 2);
  }

  /** The product of two non-negative reals is non-negative. */
  lemma MulNonNegative(a: real, b: real)
    requires 0.0 <= a && 0.0 <= b
    ensures 0.0 <= a * b
  {
  }

  /** A square is non-negative. */
  lemma SquareNonNegative(a: real)
    ensures 0.0 <= a * a
  {
    if a < 0.0 {
      MulNonNegative(-a, -a);
    } else {
      MulNonNegative(a, a);
    }
  }

  /** For growth rates in [0, 4] the map sends [0, 1] into itself, because
      x(1 - x) = 1/4 - (x - 1/2)^2 lies in [0, 1/4] there. */
  lemma StepBounded(r: real, x: real)
    requires 0.0 <= r <= 4.0 && 0.0 <= x <= 1.0
    ensures 0.0 <= Step(r, x) <= 1.0
  {
    var p := x * (1.0 - x);
    MulNonNegative(x, 1.0 - x);
    SquareNonNegative(x - 0.5);
    assert 0.25 - p == (x - 0.5) * (x - 0.5);
    assert Step(r, x) == r * p;
    MulNonNegative(r, p);
    MulNonNegative(4.0 - r, p);
  }

  /** Every iterate stays in [0, 1] when the seed and growth rate lie in the
      slider ranges. */
  lemma {:induction false} OrbitBounded(r: real, x: real, n: nat)
    requires 0.0 <= r <= 4.0 && 0.0 <= x <= 1.0
    ensures 0.0 <= Orbit(r, x, n) <= 1.0
  {
    if n > 0 {
      OrbitBounded(r, x, n - 1);
      StepBounded(r, Orbit(r, x, n - 1));
    }
  }

  /** With seeds in [0, 1] and r in [0, 4], both trajectories fit the plot
      window [0, 1] and their difference fits [-1, 1]. */
  lemma PlotWindow(r: real, x0: real, y0: real, n: nat)
    requires 0.0 <= r <= 4.0 && 0.0 <= x0 <= 1.0 && 0.0 <= y0 <= 1.0
    ensures forall i :: 0 <= i <= n ==>
      0.0 <= Trajectory(r, x0, n)[i] <= 1.0 &&
      0.0 <= Trajectory(r, y0, n)[i] <= 1.0 &&
      -1.0 <= Trajectory(r, x0, n)[i] - Trajectory(r, y0, n)[i] <= 1.0
  {
    forall i | 0 <= i <= n
      ensures 0.0 <= Trajectory(r, x0, n)[i] <= 1.0 && 0.0 <= Trajectory(r, y0, n)[i] <= 1.0
    {
      TrajectoryIsOrbit(r, x0, n, i);
      TrajectoryIsOrbit(r, y0, n, i);
      OrbitBounded(r, x0, i);
      OrbitBounded(r, y0, i);
    }
  }
}
