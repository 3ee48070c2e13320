# Turbine chain stage and upwind ordering of WINDOW_openMDAO

A Dafny model of the two algorithmic pieces of the wind-farm workflow.

- **`Curve`** (`curve.dfy`) is the turbine performance curve `turbine_model`. It maps one inflow speed `u` (m/s) to a thrust coefficient and a power in W. The ct is `0.1` below 4 m/s and above 25 m/s, and a 6th-degree polynomial in between. The power is `0` below 4 m/s, `1000 ×` a 7th-degree polynomial (kW to W) on `[4, 10]`, the rated power on `(10, 25]`, and `0` above 25 m/s. The coefficients are the source's literals, read exactly as reals. The polynomials are written in Horner form, which is algebraically the same polynomial as the source's sum of powers.
- **`Stage`** (`stage.dfy`) is one `Turbine` component, at slot `number`. `Compute` follows the source's loop: for each case (a wind direction and speed-bin pair) it walks `n` over `range(n_turbines)`. While `n < number < n_turbines`, it appends either the curve value of `U{number-1}[case]` or the previous stage's `prev_turbine_ct/p[case][n]`. It then pads the row with zeros to width `max_n_turbines - 1`. `CaseRow` / `StageRows` is a reference definition built from one case's data at a time. The lemmas use it for case independence, case shuffling and chaining consecutive stages.
- **`Ordering`** (`ordering.dfy`) is `order`. Each layout row `(id, x, y)` gets the key `(distance, id)`. The keys are sorted lexicographically, and the output is rebuilt by indexing the layout with the sorted ids. List indexing is modelled with its negative-index rule and its `IndexError`. The distance is the function parameter `dist(x, y, direction)`. `SortKeys` is an insertion sort. `SortedUnique` shows that the lexicographic order admits exactly one sorted arrangement of a multiset of keys, so any sort routine, the built-in list sort included, returns the same list.

Edge cases of the program that the model keeps:

- Every speed below 4 m/s, negative ones included, takes the parked branch: ct `0.1`, power `0` (Turbine/TurbineGroup.py:61-62, 69-70). No speed is rejected.
- At exactly 25 m/s the ct is the polynomial's value `CtPoly(25)`, about `0.0560033`, not the parked `0.1`. The power there is the rated power.
- Turbines at equal distance are ordered by smaller id, because `[distance, id]` pairs are compared lexicographically (sellar/order_layout.py:12-13).
- `n_turbines` is never checked against `max_n_turbines`. A stage is active whenever `number < n_turbines`.
- Stage `number` evaluates the curve for slot `number - 1`, on `U{number-1}`. Stage 0 always produces an all-zero row.

## Model

| member | source | states |
|---|---|---|
| Curve.TurbineModel | Turbine/TurbineGroup.py:60-78 | Outside `[4, 25]` the result is ct `0.1` and power `0`. On `[4, 25]` the ct is the 6th-degree polynomial. On `[4, 10]` the power is 1000 × the 7th-degree polynomial. On `(10, 25]` the power is the rated power. |
| Curve.ModelByRegime | Turbine/TurbineGroup.py:61-76 | The separate ct chain and power chain agree with one four-regime partition: parked, partial load, full load, cut off. The ct polynomial's interval is exactly partial load plus full load. |
| Curve.RatedPlateau | Turbine/TurbineGroup.py:73-74 | Any two speeds in `(10, 25]` give the same power, equal to the rated power. |
| Curve.BoundaryOwnership | Turbine/TurbineGroup.py:61-74 | 4 m/s opens the partial-load regime. 10 m/s closes partial load, and 25 m/s closes full load. Exact curve values are given at the three boundaries. At 25 m/s only the ct is polynomial, and it differs from the parked `0.1`. The power there is the rated power. |
| Stage.Compute | Turbine/TurbineGroup.py:25-58 | Both outputs have one row per case, each `max_n_turbines - 1` wide. Every row is all zeros when `number == 0` or `number >= n_turbines`. Otherwise entry `number-1` is the curve of `U{number-1}[c]`, and entries below it are `prev_turbine_ct/p[c]` unchanged. Entries from `number` on are zero. Every row agrees with the per-case reference row. |
| Stage.CaseRowSlots | Turbine/TurbineGroup.py:38-51 | Slot by slot, the per-case reference row is all zeros when the stage is inactive or `number == 0`. Otherwise slot `number-1` is the curve of that slot's speed, and slots below it are the previous stage's values. Slots from `number` on are zero. |
| Stage.ComputeCase | Turbine/TurbineGroup.py:33-51 | The loop over `range(n_turbines)` plus the zero padding produce exactly the per-case reference row, for both ct and power. |
| Stage.RowDependsOnlyOnItsCase | Turbine/TurbineGroup.py:32-53 | Two batches that agree on case `c`'s previous rows, on its speeds and on `n_turbines` produce the same row `c`. |
| Stage.ShuffleCases | Turbine/TurbineGroup.py:32-55 | Re-indexing the cases of a batch (shuffling, duplicating or dropping them) re-indexes the output rows the same way and leaves each row unchanged. |
| Stage.ChainedStages | Turbine/TurbineGroup.py:38-47 | Suppose stages 0..m run in sequence, each fed the previous stage's row, with `m < n_turbines`. Then every slot below `m` holds the curve of its own speed, whatever the initial upstream row was, and slots from `m` on are zero. |
| Ordering.SortKeys | sellar/order_layout.py:13 | The result is sorted by `(distance, id)` and is a permutation of the keys. |
| Ordering.SortedUnique | sellar/order_layout.py:13 | Two sorted permutations of the same keys are equal. So the ordering is deterministic and independent of the sort algorithm. |
| Ordering.Lookup | sellar/order_layout.py:15 | An id in `[0, n)` gives row `id`. An id in `[-n, 0)` gives row `n + id`. Any other id gives an `IndexError` carrying that id. |
| Ordering.Gather | sellar/order_layout.py:14-15 | Gathering succeeds exactly when every sorted id is in range. Element `k` is then the layout row of sorted id `k`. A failure names an out-of-range id drawn from the keys. |
| Ordering.GatherFailsAtFirst | sellar/order_layout.py:15 | A failed gather reports the first out-of-range id in key order, where the list comprehension raises. Every key before it is in range. |
| Ordering.Order | sellar/order_layout.py:9-16 | The ordering succeeds exactly when every turbine's id is in range. The output then has the layout's length, and each element is the layout row indexed by some turbine's id. `Ordering.OrderFollowsKeyOrder` states which row comes at each position. |
| Ordering.OrderFollowsKeyOrder | sellar/order_layout.py:12-15 | When the ordering succeeds, some arrangement of the turbines' `(distance, id)` keys is sorted lexicographically and has the layout's length. Element `k` of the output is the layout row indexed by the id of key `k` in that arrangement. |
| Ordering.OrderWellIndexedPermutes | sellar/order_layout.py:10-15 | When every id equals its position, the ordering succeeds and is a permutation of the layout. |
| Ordering.OrderWellIndexedSorted | sellar/order_layout.py:10-15 | When every id equals its position, the ordering succeeds and its distances are non-decreasing. Turbines at equal distance appear in strictly ascending id order. |
| Ordering.DemoOrder | sellar/order_layout.py:19-21 | Assume the distance at direction 0 of each of the four demo turbines is its `x + 1e10`, as the exact-real formula `|x + 1e10|` gives for them. Then the demo layout orders to ids 3, 1, 0, 2. |

## Left out

- The body of `distance_to_front` (sellar/order_layout.py:4-6) uses `tan`, `cos`, `sqrt` and `deg2rad` on floats, and divides by zero when `cos(θ) = 0`. It is the parameter `dist`. The claim that turning the direction by 180° reverses the order depends on that geometry and is not modelled.
- Ordering.DemoOrder: takes as a hypothesis (`DemoDistances`) that the distance at direction 0 is `x + 1e10` at the four demo turbines. Over exact reals the formula there is `|x + 1e10|`, which meets it. Over floats, `tan(π)` is not exactly 0, so the float value differs slightly.
- Ordering.OrderWellIndexedPermutes: states the permutation of the layout only for layouts whose ids are their positions. For other ids the output can repeat or skip rows, since rows are fetched by id. `Ordering.OrderFollowsKeyOrder` still ties element `k` to the `k`-th key in sorted order for every layout.
- Layout ids are integers. The source's `int(i)` truncation of fractional float ids is not modelled.
- The built-in list sort (Timsort) is replaced by insertion sort. `SortedUnique` makes the two interchangeable, since any sorted permutation is the same list.
- The sort's behaviour on NaN distances is not modelled, and neither are IEEE float rounding and overflow. All arithmetic is over `real`.
- The component's port declarations (Turbine/TurbineGroup.py:13-21) become the precondition `WellShaped`: `U{n}` exists for `n < number`, the previous rows are `max_n_turbines - 1` wide, and `number < max_n_turbines`.
- Stage.Compute: requires `number < max_n_turbines`. It excludes stages with `number >= max_n_turbines` that are inactive, meaning `number >= n_turbines`. For those the program writes all-zero rows without error (Turbine/TurbineGroup.py:38-51), and the model does not cover them. An active stage with `number >= max_n_turbines` fails in the program when `n_cases > 0`. With `number > max_n_turbines`, the loop reaches the copy branch at `n = max_n_turbines - 1` before slot `number - 1`. There `prev_turbine_ct[max_n_turbines - 1]` (line 44) indexes a row only `max_n_turbines - 1` wide (line 18) and raises an `IndexError`. With `number == max_n_turbines`, the row is `max_n_turbines` long and the `reshape` at line 54 fails. With `n_cases == 0` neither loop body runs, and the empty `reshape` succeeds.
- `n_turbines` arrives as an integer. The source's float-to-`int` conversion is not modelled.
- numpy `append` / `concatenate` / `reshape` are modelled as a list of rows, each a sequence.
- The `print` side effect at Turbine/TurbineGroup.py:41 is left out.
- `max_n_turbines` and `turbine_rated_power` come from the configuration module. They are the fields of `Config`.
- The wake model that produces the `U{n}` series is outside this core. Its output is the input `speeds`.
- The component wiring that feeds stage `number` the rows of stage `number - 1` is outside this core. `Stage.ChainedStages` states what follows when the stages are chained.
- `order` never modifies `layout_array`. In this model every value is an immutable sequence, so that property holds by construction and needs no member.
