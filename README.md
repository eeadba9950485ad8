# Trapezoidal stepper-motor move

A Dafny model of `model.c` from StepperMotorDriver, a desktop simulation of
one trapezoidal stepper-motor move. The program plans how many steps the
acceleration, cruise and deceleration phases take. It then runs three loops.
Each loop advances the logical position by one per step and prints the
position and the inter-step delay: the delay falls by `step_delay` while
accelerating, holds while cruising, and rises again while decelerating.

- `planner.dfy` (module `Planner`): the integer arithmetic of the plan.
  `nsteps = (start_delay - stop_delay) / step_delay`, the signed `delta`, the
  `min` macro and the three phase lengths. C's truncating `/` is written out
  as `TruncDiv`.
- `executor.dfy` (module `Executor`): the three loops as a method, `Execute`,
  that starts from a given position with the delay at `start_delay`, updates
  both step by step, and returns their final values with the trace. The printed lines become a trace
  of (phase, position, delay) entries. `ProfileTrace` is the trace the loops
  must produce, and lemmas state its shape.
- `corrected.dfy` (module `Corrected`): the plan on the distance
  `|target - current|` with a separate direction, beside the as-written plan
  (see Findings).

The model follows the code as written. The plan uses the signed `delta`, and
the loops only step forward (`current_position++`). A backward move therefore
takes no step at all, and `Executor.Move` states this. Yet the file's own
literals (model.c:12-13) ask for exactly such a move, from 50 to -50, so the
code as written cannot make the move it is set up for. Planning on `|delta|`
and stepping toward the target is what that move needs. This corrected plan
is modelled separately in `Corrected`.

## Model

| member | source | states |
|---|---|---|
| `Planner.TruncDiv` | model.c:17-23 | the quotient truncates toward zero: the remainder lies in `[0, b)` for a non-negative dividend and in `(-b, 0]` for a negative one |
| `Planner.Min` | model.c:8 | the `min` macro yields a value no larger than either argument and equal to one of them |
| `Planner.RampSteps` | model.c:17 | `nsteps >= 0` and it is the largest count with `nsteps * step_delay <= start_delay - stop_delay` |
| `Planner.PlanMove` | model.c:19-28 | `delta` is `target - current`. Both ramps are equal, at most `nsteps` and at most `delta / 2` (truncated), and equal to one of the two. The three phase lengths sum to `delta` |
| `Planner.ForwardPlanBounds` | model.c:22-28 | for `delta >= 0`: `0 <= ramp <= nsteps`, `2 * ramp <= delta`, cruise length `>= 0`, and the ramp is `nsteps` or `delta / 2` |
| `Planner.ShortMoveCruise` | model.c:22-28 | for `0 <= delta` with `delta / 2 <= nsteps`: the ramp is `delta / 2` and the cruise is `delta % 2` steps |
| `Planner.LongMoveCruise` | model.c:22-28 | for `delta >= 2 * nsteps`: both ramps are `nsteps` and the cruise is `delta - 2 * nsteps` |
| `Planner.TriangularMove` | model.c:22-28 | a move of exactly `2 * nsteps` has no cruise phase |
| `Planner.BackwardPlanSigns` | model.c:19-28 | for `delta < 0`: both ramps are `delta / 2` truncated, `<= 0`, and the cruise length is minus the parity of the distance, `<= 0` |
| `Planner.SourceConfiguration` | model.c:12-28 | the literal configuration gives `nsteps == 45`. The literal move 50 to -50 plans ramps of -50 and a cruise of 0. Moves 0 to 50 and 0 to 150 plan (25, 0, 25) and (45, 60, 45) |
| `Executor.RampClosedForm` | model.c:30-42 | changing the delay by `change` on each of `n` steps moves it by exactly `n * change` |
| `Executor.RampUndone` | model.c:30-42 | raising the delay `i` times by `step_delay` after `a >= i` lowerings leaves it `a - i` lowerings below the start. With `i == a` the deceleration restores the start delay |
| `Executor.ProfileTrace` | model.c:30-42 | the trace the three loops print: acceleration entries, then cruise entries, then deceleration entries, one per loop iteration, so its length is the number of iterations |
| `Executor.PhaseTraceAt` | model.c:30-42 | entry `k` of a phase's trace is at the phase's first position plus `k`, with the delay changed `k` times by the phase's increment |
| `Executor.Execute` | model.c:21-42 | the loops emit exactly `ProfileTrace`. The position ends advanced by one per loop iteration. The delay ends at the cruise delay (the start delay lowered once per acceleration step), raised once per deceleration step |
| `Executor.Move` | model.c:12-42 | plan then execute. A forward move ends on the target with one trace entry per step. A backward move takes no step and emits nothing. The delay always ends at `start_delay` |
| `Executor.ProfileTraceAt` | model.c:30-42 | entry `k` of the trace is at position `current + k`. Its phase follows from `k`. Its delay is the one printed before that step's update: `start_delay` lowered `k` times, the cruise delay, or the cruise delay raised `k - acc - cruise` times |
| `Executor.TracePositions` | model.c:30-42 | one trace entry per loop iteration, at consecutive positions from the start position |
| `Executor.TracePhaseShape` | model.c:30-42 | the phases appear in order (acceleration, cruise, deceleration). Within a phase, successive delays differ by `-step_delay`, `0` or `+step_delay` |
| `Executor.TraceDelaysBounded` | model.c:21-42 | every delay printed during a planned move lies between `stop_delay` and `start_delay` |
| `Executor.EntryDelayBounded` | model.c:30-42 | for any profile whose equal ramps are at most `nsteps` long, each printed delay lies between `stop_delay` and `start_delay` |
| `Corrected.PlanDirectedMove` | model.c:19-28 | the planned distance is the absolute value of `target - current`, the direction is `+1` for a forward or zero move and `-1` for a backward one (so `direction * distance == delta`), the equal ramps are exactly `min(distance / 2, nsteps)` (so in `[0, nsteps]`), the cruise is non-negative, and the lengths sum to the distance |
| `Corrected.CorrectedMoveArrives` | model.c:19-42 | under the corrected plan, `current + direction * StepCount(profile) == target` for every start and target, and raising the cruise delay once per deceleration step gives back `start_delay` |
| `Corrected.SignedPlanStallsBackward` | model.c:19-42 | as written, a backward move takes zero steps, so the position stays short of the target |
| `Corrected.SourceConfigurationCorrected` | model.c:12-28 | with the literal configuration, moves 50 to -50 and 150 to 50 become 100 steps backward with ramps of 45 and a cruise of 10 |

## Findings

| source | as written | input that shows it | evidently intended | confidence | as-written member | corrected member |
|---|---|---|---|---|---|---|
| model.c:19-42 | ramps are `min(delta / 2, nsteps)` on the signed `delta`, and every step does `current_position++` | the file's own values: current 50, target -50. All phase lengths are `<= 0`, no step is taken, and the position stays 50 | plan on the absolute value of `delta` and step toward the target | high (not executed) | `Corrected.SignedPlanStallsBackward` | `Corrected.CorrectedMoveArrives` |

## Left out

- The `printf` text (model.c:6, 25-26, 32, 37, 40): only the values of each trace line are kept. The two lines printing the ramp lengths are not part of the trace.
- C integer widths: `long` and `int` are modelled as unbounded integers. Overflow, and narrowing the `long` results into the `int` phase counts (model.c:22-23, 28), are not modelled.
- Configuration checks: the source has none. The model requires `start_delay > stop_delay > 0` and `step_delay > 0` (`Planner.ValidConfig`). This excludes the division by zero at model.c:17, and the literals meet it.
- Pulse generation, timing and direction pins on the Arduino (named only in the header comment, model.c:2) are hardware I/O and absent from this file.
- Stepping toward the target in the corrected plan: `Corrected` states the arrival on the planned step count and direction. It has no loop of its own, because model.c has none that steps backward.
