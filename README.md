# time_value: discounting and bisection IRR search, modelled in Dafny

This project models the computational core of the `time_value` Rust crate, which finds the
internal rate of return (IRR) of a series of cash flows. The IRR is the discount rate at which
the net present value (NPV) of the series is zero. The model covers:

- **Discounting.** `present_value` discounts one cash flow by `(1 + r)^n`.
  `from_cash_flows_and_discount_rate` sums the discounted series (the NPV).
  `from_pv_and_expected_rates` compounds a present value forward through one rate per period.
- **Building blocks of the search.** The overflow-safe midpoint `a + (c - a) / 2`.
  The epsilon-relative "equal enough" comparison.
  The result records `InitialBounds`, `Irr` and `IrrApproximation`.
- **Bracket finders.** The newer `determine` steps away from a guess with a doubling step, in a
  direction fixed at the start. The older `calculate_initial_bounds_for_bisection` slides a
  (left, rate, right) triple using `shift_rate`. `generate_initial_bounds` / `generate_bounds`
  in `irr.rs` build a symmetric interval.
- **Bisection solvers.** `functions::irr::bisection` and its older twin `function::bisection`
  repeatedly replace one bound by the midpoint. They stop when the NPV at the midpoint is
  equal enough to the precision constant, or when the iteration budget is spent. They report
  validity through a flag instead of an error.

Numbers are `real`. Machine epsilon is `EPS = 2^-23` and the largest float is
`MAXV = f32::MAX`, the f32 values. The NPV precision is `1/1000`. Iteration limits and counts
are the 16-bit `i16`. A NaN result is `None` in an `Option<real>`.

The searches take the NPV evaluator as a parameter `npvAt: real -> real`. This keeps them
total, and their contracts hold for any evaluator. `PresentValue.NpvOf(cashFlows)` is the
concrete evaluator. `PresentValue.NpvOfAgrees` shows it is the NPV wherever `1 + r != 0`.

Each loop is a `method` proved against a specification function:

| method | specification function |
|---|---|
| `determine` | `Walk` |
| both bisections | `Bisect` / `Halve` |
| the older finder | `Search` / `Step` / `Accept` |

The properties are lemmas about those functions.

With a zero iteration limit, the loop in `determine`
(`src/irr/bisection/functions/initial_bounds.rs:35`) never runs, so the first micro-bracket
is never tested. `InitialBoundsFinder.Determine` reports such a result invalid with zero
iterations run.

## Model

| member | source | states |
|---|---|---|
| PresentValue.PresentValue | src/present_value.rs:43-51 | at period 0 the present value is the cash flow itself, at every rate; a later period needs `1 + r != 0` |
| PresentValue.PresentValueDivides | src/present_value.rs:47-50 | when `1 + r != 0` the present value is `cf / (1 + r)^n` |
| PresentValue.PresentValueNextPeriod | src/present_value.rs:47-50 | one more period divides the present value by one more factor `1 + r` |
| PresentValue.PresentValueLinear | src/present_value.rs:50 | scaling the cash flow by `k` scales the present value by `k` |
| PresentValue.PresentValueExample | src/present_value.rs:19-41 | 5 at 20% for one period is 4.167 and 10 at 10% for two periods is 8.264, each within 0.001 |
| PresentValue.Discounted | src/present_value.rs:133-137 | the enumerated map yields one discounted value per cash flow |
| PresentValue.SumNonNegative | src/present_value.rs:138 | the sum of non-negative terms is non-negative |
| PresentValue.Npv | src/present_value.rs:129-139 | the NPV of no cash flows is 0, and a one-flow series is its own NPV at every rate, even at `r = -1` |
| PresentValue.NpvNonNegative | src/present_value.rs:129-139 | at a rate above -100%, non-negative cash flows have a non-negative NPV |
| PresentValue.NpvOfAgrees | src/present_value.rs:129-139 | the evaluator handed to the searches is the NPV wherever it is defined: `1 + r != 0`, or at most one cash flow |
| PresentValue.NpvSnoc | src/present_value.rs:134-137 | appending a flow adds it discounted by its position in the series |
| PresentValue.NpvLinear | src/present_value.rs:133-138 | scaling every cash flow by `k` scales the NPV by `k` |
| PresentValue.NpvCons | src/present_value.rs:133-138 | Horner form: the NPV is the first flow plus the NPV of the rest divided by `1 + r` |
| PresentValue.NpvTwoFlows | src/present_value.rs:133-138 | the NPV of two flows is `a + b / (1 + r)` |
| PresentValue.NpvExample | src/present_value.rs:123-127 | three flows of 10 at 10% are worth 27.35 within 0.01 |
| FutureValue.FutureValueSign | src/future_value.rs:52-57 | while every rate is above -100%, the future value is positive, zero or negative exactly as the present value is |
| FutureValue.NoRatesKeepsValue | src/future_value.rs:65-72 | with no rates the future value is the present value |
| FutureValue.CompoundOneMore | src/future_value.rs:56 | the fold is a left fold: `fv(pv, rs + [r]) = fv(pv, rs) * (1 + r)` |
| FutureValue.FutureValueIsGrowth | src/future_value.rs:56 | the future value is the present value times the product of all `1 + r` |
| FutureValue.FutureValueLinear | src/future_value.rs:56 | scaling the present value scales the future value |
| FutureValue.GrowthPermutation | src/future_value.rs:56 | two rate sequences with the same multiset have the same growth factor |
| FutureValue.RateOrderIrrelevant | src/future_value.rs:56 | reordering the rates does not change the future value |
| FutureValue.FutureValueExamples | src/future_value.rs:24-50 | 10 at 100%, 200%, 300% is exactly 240; 10 at 10% for three periods is 13.31 within 0.001 |
| Midpoint.Calculate | src/irr/bisection/functions/midpoint.rs:19-24 | the midpoint is equidistant from both arguments and lies between their minimum and maximum |
| Midpoint.CalculateIsAverage | src/irr/bisection/functions/midpoint.rs:23 | over the reals it is `(a + c) / 2`, symmetric in its arguments, and `calculate(a, a) = a` |
| Midpoint.CalculateExample | src/irr/bisection/functions/midpoint.rs:14-17 | the midpoint of 1 and 2 is 1.5 |
| AreEqualEnough.IsTrue | src/irr/bisection/functions/are_equal_enough.rs:21-31 | equal values are equal enough, and a value is equal enough to 0 exactly when it is 0 |
| AreEqualEnough.IsTrueMeaning | src/irr/bisection/functions/are_equal_enough.rs:25-30 | `is_true(a, b)` iff `abs(a - b) <= max(abs(a), abs(b)) * EPS`; symmetric and reflexive |
| AreEqualEnough.IsTrueAgainstZero | src/irr/bisection/functions/are_equal_enough.rs:25-30 | only zero is equal enough to zero, in either argument position: the test has no absolute floor |
| AreEqualEnough.IsTrueFarApart | src/irr/bisection/functions/are_equal_enough.rs:25-30 | values further apart than twice the relative tolerance are never equal enough |
| AreEqualEnough.IsTrueScaleInvariant | src/irr/bisection/functions/are_equal_enough.rs:25-30 | multiplying both values by the same non-zero `k` does not change the verdict |
| AreEqualEnough.NearPrecisionIsPositive | src/irr/bisection/functions/are_equal_enough.rs:25-30 | a value equal enough to the NPV precision is positive and within a relative epsilon of 0.001 |
| AreEqualEnough.IsTrueExample | src/irr/bisection/functions/are_equal_enough.rs:14-19 | 0.0010 is equal enough to itself and not to 0.0011 |
| InitialBoundsRecord.GettersReturnArguments | src/irr/bisection/structs/initial_bounds.rs:21-84 | each getter returns exactly the value given to `new` |
| InitialBoundsRecord.NoValidation | src/irr/bisection/structs/initial_bounds.rs:11-19 | `new` stores `is_valid = true` even for two NPVs of the same sign |
| IrrRecord.GettersReturnArguments | src/irr/bisection/structs/irr.rs:86-163 | each getter returns exactly the value given to `new` |
| IrrRecord.ValidityIsStored | src/irr/bisection/structs/irr.rs:21-84 | the doc example's getters return its arguments; `is_valid` is the stored flag, not recomputed: a record may hold `false` beside an NPV of 0, which the first doc example's precision test calls valid |
| InitialBoundsFinder.GenerateEpsilonMultiple | src/irr/bisection/functions/initial_bounds.rs:75-84 | below `MAXV / 2` the multiple doubles, from `MAXV / 2` on it saturates at `MAXV`; the result never exceeds `MAXV` and never falls below a positive old multiple |
| InitialBoundsFinder.Advance | src/irr/bisection/functions/initial_bounds.rs:48-56 | going low, the new high end is the old low end; going high, the new low end is the old high end; the width is always the new multiple times `EPS` |
| InitialBoundsFinder.Walk | src/irr/bisection/functions/initial_bounds.rs:27-61 | every bracket on the walk has `rate_low < rate_high` and a positive multiple |
| InitialBoundsFinder.WalkMultiple | src/irr/bisection/functions/initial_bounds.rs:27-56 | after `k` steps the multiple is `min(10 * 2^k, MAXV)` |
| InitialBoundsFinder.StepDirection | src/irr/bisection/functions/initial_bounds.rs:50-56 | going low, the high end takes the old low end and the low end strictly drops; going high, the mirror image |
| InitialBoundsFinder.Determine | src/irr/bisection/functions/initial_bounds.rs:10-73 | guess NPV strictly inside the precision: guess as both ends, zero iterations, valid; otherwise the result is the bracket after `iterations_run` steps, with its NPVs, and `0 <= iterations_run <= max(0, limit)`; valid implies the NPVs do not share a strict sign and the budget was not spent; invalid implies `iterations_run = max(0, limit)`; no earlier bracket straddled zero |
| IrrBisection.Halve | src/irr/bisection/functions/irr.rs:85-97 | a step halves the width, keeps one of the two bounds, and keeps the stored NPVs equal to the NPVs of the stored rates |
| IrrBisection.Bisect | src/irr/bisection/functions/irr.rs:63-97 | after any number of steps the stored NPVs are still the NPVs of the stored rates |
| IrrBisection.HalveReplacesOne | src/irr/bisection/functions/irr.rs:88-97 | a step replaces exactly one bound and its NPV by the midpoint: the high bound when `npv_low * npv_mid < 0`, the low bound otherwise |
| IrrBisection.BisectWidth | src/irr/bisection/functions/irr.rs:80-96 | after `k` steps the width is the starting width over `2^k` |
| IrrBisection.BisectNested | src/irr/bisection/functions/irr.rs:88-96 | with ordered guesses every segment stays ordered and inside the first |
| IrrBisection.HalveKeepsBracket | src/irr/bisection/functions/irr.rs:88-94 | a step keeps the NPVs from sharing a strict sign as long as `npv_low != 0` |
| IrrBisection.BisectKeepsBracket | src/irr/bisection/functions/irr.rs:85-98 | the bracket survives `k` steps when no low-bound NPV on the way is exactly zero |
| IrrBisection.Bisection | src/irr/bisection/functions/irr.rs:51-111 | same-sign guesses: the guesses and their NPVs, zero iterations, no irr or npv, invalid; otherwise the bounds are those after `iterations_run` halvings, with their NPVs, and `0 <= iterations_run <= max(0, limit)`; `irr` is the midpoint of those bounds, `npv` its NPV, and `is_valid` iff `abs(npv) <= 0.001`; stopping before the limit means `npv` is equal enough to 0.001; no earlier midpoint was equal enough to 0.001 |
| IrrBisection.StopTestIsNotValidity | src/irr/bisection/functions/irr.rs:85-109 | an exact zero NPV never stops the loop; an NPV just above 0.001 stops it and is reported invalid |
| IrrBisection.ExactRootLosesBracket | src/irr/bisection/functions/irr.rs:85-97 | for flows [-1, 1] on [-0.5, 0.5] the first midpoint is the root, the loop goes on, and two steps later both NPVs are negative |
| BisectionFunction.GettersReturnArguments | src/irr/bisection/function.rs:14-108 | each getter of `IrrApproximation` returns the value it was built with |
| BisectionFunction.CalculateMidPoint | src/irr/bisection/function.rs:124-129 | the midpoint is equidistant from both arguments and lies between them |
| BisectionFunction.MidPointAgrees | src/irr/bisection/function.rs:115-129 | it equals the newer midpoint, is symmetric, and gives 1.5 for 1 and 2 |
| BisectionFunction.AreEqualEnough | src/irr/bisection/function.rs:147-157 | the older comparison gives the same verdict as `is_true` on every pair |
| BisectionFunction.AreEqualEnoughAgrees | src/irr/bisection/function.rs:136-157 | it equals the newer comparison: symmetric, reflexive, true for 0.0010 with itself, false against 0.0011 |
| BisectionFunction.AreEqualEnoughZero | src/irr/bisection/function.rs:147-157 | only zero is equal enough to zero |
| BisectionFunction.Bisection | src/irr/bisection/function.rs:197-256 | same-sign guesses: the guesses with their NPVs, zero iterations, NaN approximations, invalid; otherwise the bounds (a, c) are the same halvings as the newer solver, with their NPVs; the approximation is their midpoint and its NPV; `is_valid` iff `abs(npv_b) <= 0.001`; stopping before the limit means `npv_b` is equal enough to 0.001, and no earlier midpoint's NPV was, so the loop stops exactly where the newer solver's does |
| BisectionFunction.EarlyStopCanBeInvalid | src/irr/bisection/function.rs:298-303 | an early stop can still be invalid, so the randomised test's "invalid means the limit was hit" does not follow from the code |
| BisectionInitialBounds.ShiftRate | src/irr/bisection/initial_bounds.rs:82-102 | shifting left gives a strictly smaller rate and shifting right a strictly larger one; zero moves to magnitude 1, any other rate doubles its magnitude |
| BisectionInitialBounds.ShiftRateCases | src/irr/bisection/initial_bounds.rs:86-101 | the case table: 0 to -1 / 1, negative `r` to `2r` / `-2r`, positive `r` to `-2r` / `2r` |
| BisectionInitialBounds.StartOrdered | src/irr/bisection/initial_bounds.rs:28-36 | the first probe is strictly ordered, `left < rate < right` |
| BisectionInitialBounds.Accept | src/irr/bisection/initial_bounds.rs:21-39 | the three tests return `(rate, rate)`, `(left, rate)` or `(rate, right)`; from an ordered probe the pair is ordered, its NPVs do not share a strict sign, and a degenerate pair is an exact root |
| BisectionInitialBounds.Step | src/irr/bisection/initial_bounds.rs:45-64 | a move keeps the probe strictly ordered, and the new middle rate is the old left or right end |
| BisectionInitialBounds.Search | src/irr/bisection/initial_bounds.rs:41-79 | from an ordered probe, every `Some((a, b))` found has `a <= b` and `npv(a) * npv(b) <= 0`, with `a = b` only at an exact root |
| BisectionInitialBounds.GuessAtRoot | src/irr/bisection/initial_bounds.rs:21-25 | a guess with NPV zero is returned as `Some((guess, guess))` |
| BisectionInitialBounds.CalculateInitialBoundsForBisection | src/irr/bisection/initial_bounds.rs:13-80 | the result is the search from the guess with `max(0, limit - 1)` moves, and any pair it returns is a sound bracket |
| IrrBounds.GenerateInitialBounds | src/irr.rs:42-61 | the bounds are symmetric about zero with `left < 0 < right`; zero gives (-1, 1) and any other guess is one of the two ends |
| IrrBounds.GenerateInitialBoundsExamples | src/irr.rs:63-87 | 0 gives (-1, 1), a positive `b` gives (-b, b), a negative `b` gives (b, -b) |
| IrrBounds.GenerateBounds | src/irr.rs:20-40 | the counting loop changes nothing: the result is `generate_initial_bounds(guess)`, with `left < right` |

## Left out

- Floating-point rounding, NaN and infinity propagation, and overflow are not modelled; all arithmetic is exact over the reals. The overflow-safe form of the midpoint and the saturation of the epsilon multiple at `MAXV` are kept as written, but their float motivation is not modelled.
- The generic numeric type is fixed to one set of constants: the f32 epsilon and maximum. `NPV_PRECISION` is exactly 1/1000, not the nearest f32 value widened to the working type.
- `-0.0` is not distinguished from `0.0`. `shift_rate` therefore sends both to -1 / 1.
- The `period as i32` cast in `present_value` is not modelled. Periods are natural numbers.
- PresentValue.NpvOf: where `1 + r = 0` and the series has more than one flow, the float code produces a non-finite value. The evaluator returns the placeholder 0.0 there. The searches' contracts hold for every evaluator, so they do not depend on this choice.
- The stub `bisection` in `src/irr.rs:7-18` is not modelled. Its loop has an empty body and never terminates once entered, so it has no result to specify.
- The `Display` and `Debug` implementations are formatting only and are not modelled.
- The randomised tests driven by `rand` are not modelled; their inputs are not deterministic.
- The exact numeric outcomes of the IRR doc tests are not modelled. For example, the documented cash flows converge within 100 iterations; that depends on f32/f64 evaluation.
- "Feeding the returned bounds back into the solver gives an irr within the NPV precision of the first" is not modelled. It compares a rate with an NPV tolerance and does not follow from the code over the reals.
- Calling the NPV evaluator is modelled as a parameter; the cash-flow iterator that the Rust code clones for each call is not.
