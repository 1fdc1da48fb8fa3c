# Logistic Equation — verified model of the iteration engine

The Logistic Equation app runs the logistic map `x(n) = r·x(n-1)·(1−x(n-1))`
from two seeds `x0` and `y0` with a shared growth rate `r`. It plots both
trajectories and their pointwise difference. The x-axis ticks are spaced by a
threshold table, so that long runs stay readable. This project models the two
routines that do the computing:

- `logistic_equation(steps, x0, y0, r)`. The source builds three Python lists
  in a `for` loop and reassigns its locals on each pass. It is modelled in
  `logistic.dfy` (module `Logistic`) as the method `LogisticEquation`. That
  method has a `while` loop that builds three `seq<real>`. It is proved
  against `Trajectory`, a specification that appends one iterate per pass.
  The independent reference `Orbit` applies `Step` n times. `Step` is the
  expression `r*x*(1-x)` from lines 69-70. The loop calls it for both seeds.
- `get_xticks(steps)`. The source is a pure if/elif chain ending in one
  `np.arange(0, steps+1, delta)`. It is modelled in `ticks.dfy` (module
  `AxisTicks`) as the functions `Delta` and `XTicks`. numpy's integer
  `arange` is written out as `Arange`.

Arithmetic is done over Dafny's exact `real`.

### Edge cases of the code

- Negative step counts. `range(steps)` is empty, so each list holds just its
  seed and nothing is raised (`LogisticEquation`). `get_xticks` returns an
  empty array, because the bound `steps+1` is not above 0 (`XTicks`).
- Where the tick sequence ends. `arange`'s bound `steps+1` is exclusive, so
  the last tick is the largest multiple of delta that is `<= steps`. For 15
  that gives `0, 2, …, 14` (`XTicks`, `XTicksFifteen`). There are
  `steps / delta + 1` ticks.

## Model

| member | source | states |
|---|---|---|
| `Logistic.LogisticEquation` | LogisticEquation.py:60-77 | The three lists have `Passes(steps)+1` entries each, which is `steps+1` for `steps >= 0`. The first entries are `x0`, `y0` and `x0-y0`. Each later entry of A and of B is the logistic map of the one before it. `D[i] == A[i]-B[i]` at every index. A and B equal `Trajectory` of their seeds. For `steps <= 0` each list is just its seed, and no error is raised. Equal seeds give `A == B` and an all-zero D. |
| `Logistic.Trajectory` | LogisticEquation.py:61-75 | The list built for one seed after n passes has n+1 entries. It starts at the seed, and each entry maps to the next under the logistic map. |
| `Logistic.TrajectoryIsOrbit` | LogisticEquation.py:68-75 | Entry i of the built list is the i-th iterate of the map. This ties the append-per-pass construction to the n-fold-application definition. |
| `Logistic.TrajectoryPrefix` | LogisticEquation.py:61-75 | A run of m steps is exactly the first m+1 entries of a longer run from the same seed. So runs are deterministic and extend one another. |
| `Logistic.OrbitCompose` | LogisticEquation.py:74-75 | A fact about `Orbit` that rests on the loop carrying its locals forward: iterating m times from the m-th iterate's value equals iterating m+n times from the seed. So a run could be restarted from any entry of its list. |
| `Logistic.FixedPointOrbit` | LogisticEquation.py:69-75 | If the seed is a fixed point of the map (for example 0.5 at r = 2), every iterate equals the seed. |
| `Logistic.FixedPointTrajectory` | LogisticEquation.py:61-75 | From a fixed point of the map, every entry of the built list is the seed. |
| `Logistic.FixedPointRun` | LogisticEquation.py:60-77 | Two passes at r = 2 from the seeds 0.5 and 0.5 give `[0.5, 0.5, 0.5]` for both lists and `[0.0, 0.0, 0.0]` for the differences. |
| `Logistic.StepBounded` | LogisticEquation.py:69 | For `r` in [0,4] and `x` in [0,1], one step stays in [0,1]. |
| `Logistic.OrbitBounded` | LogisticEquation.py:68-75 | For `r` in [0,4] and a seed in [0,1], every iterate stays in [0,1]. These are the slider ranges. |
| `Logistic.PlotWindow` | LogisticEquation.py:96-131 | With the slider ranges for `x0`, `y0` and `r`, both trajectories fit the fixed y-limits [0,1]. Their difference fits [-1,1]. |
| `AxisTicks.Delta` | LogisticEquation.py:81-92 | The spacing is one of 1, 2, 5, 10, 25 or 50. It is chosen by the ordered thresholds 10, 20, 100, 200 and 500. |
| `AxisTicks.DeltaMonotone` | LogisticEquation.py:81-92 | A larger step count never gets a finer spacing. |
| `AxisTicks.Arange` | LogisticEquation.py:82-92 | Integer `arange(start, stop, step)` with `step > 0`. Element i is `start + i*step`. The result is empty when `stop <= start`. Otherwise the last element is below `stop`, and one more step would reach `stop` or pass it. |
| `AxisTicks.ArangeIncreasing` | LogisticEquation.py:82-93 | The ticks are strictly increasing. |
| `AxisTicks.XTicks` | LogisticEquation.py:80-93 | For `steps >= 0` the ticks are `0, delta, 2·delta, …`. Every tick lies in [0, steps]. There are `steps/delta + 1` of them. The last tick is the largest multiple of delta that is `<= steps`. A negative step count yields no ticks. |
| `AxisTicks.XTicksMembership` | LogisticEquation.py:80-93 | For `steps >= 0`, a number is a tick if and only if it lies in [0, steps] and delta divides it. |
| `AxisTicks.XTicksSound` | LogisticEquation.py:80-93 | Every tick lies in [0, steps] and is a multiple of delta. |
| `AxisTicks.XTicksComplete` | LogisticEquation.py:80-93 | Every multiple of delta in [0, steps] is a tick. |
| `AxisTicks.ArangeFromZero` | LogisticEquation.py:82-92 | `arange(0, stop, delta)` with `stop > 0` and a spacing from the table holds `(stop-1)/delta + 1` multiples of delta, all below `stop`. The last one is within one spacing of `stop`. |
| `AxisTicks.XTicksSmall` | LogisticEquation.py:81-82 | Below 10 steps the ticks are exactly `0, 1, …, steps`. |
| `AxisTicks.XTicksFifteen` | LogisticEquation.py:83-84 | 15 steps give `0, 2, …, 14`; 16 is not a tick. |
| `AxisTicks.XTicksCount` | LogisticEquation.py:80-93 | For the slider's range of 1 to 1000 steps, the axis carries between 2 and 21 ticks. |

`Logistic.Step` is the map expression `r*x0*(1-x0)` of lines 69-70.
`Logistic.Orbit` applies it n times. `Logistic.Passes` is the number of
passes `range(steps)` makes at line 68. These three are the definitions the
contracts are stated in. `MulNonNegative`, `SquareNonNegative`,
`MulPositive`, `MulMonotone`, `QuotientUnique` and `MultipleModulo` are
arithmetic helpers.

## Left out

- IEEE-754 double arithmetic. The recurrence is computed over exact reals, so
  rounding, overflow to infinity and NaN are not modelled.
- The Streamlit page: configuration, title, markdown, the logo image, the
  expander, the columns, the sliders and the button (lines 10-52, 142-147).
  These are UI and file I/O. The slider ranges appear only as hypotheses of
  `StepBounded`, `OrbitBounded`, `PlotWindow` and `XTicksCount`.
- The matplotlib figures and `st.pyplot` calls (lines 99-139). This is
  rendering.
- The float-valued y-tick `np.arange` calls (lines 105, 120, 134). They depend
  on floating-point step accumulation.
- The pandas table of the three lists (lines 145-147). This is display code
  in a foreign library.
- The numpy array type. `XTicks` returns a `seq<int>` in place of the
  `ndarray` that `np.arange` builds.
- numpy's int64 conversion of the bound `steps+1`. `Arange` works on
  unbounded integers, so an overflow above 2^63−1 is not modelled. The
  slider's range of 1 to 1000 never comes near it.
