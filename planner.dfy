// The planning half of the trapezoidal move in model.c: how many steps the
// acceleration, cruise and deceleration phases of one move take.

module Planner {

  /** C's integer `/` for a positive divisor: the quotient is truncated toward zero. */
  function TruncDiv(a: int, b: int): (q: int)
    requires b > 0
    ensures a >= 0 ==> 0 <= a - q * b < b
    ensures a < 0 ==> -b < a - q * b <= 0
  {
    if a >= 0 then a / b else -((-a) / b)
  }

  /** The `min` macro of model.c. */
  function Min(a: int, b: int): (m: int)
    ensures m <= a && m <= b
    ensures m == a || m == b
  {
    if a < b then a else b
  }

  /** The three delays the move is configured with (literals in the source). */
  datatype SpeedConfig = SpeedConfig(startDelay: int, stopDelay: int, stepDelay: int)

  /** Slowest delay above fastest delay above zero, and a positive ramp increment. */
  predicate ValidConfig(c: SpeedConfig)
  {
    c.startDelay > c.stopDelay > 0 && c.stepDelay > 0
  }

  /**
   * `nsteps`: the number of whole `stepDelay` decrements that fit between the
   * start delay and the stop delay.
   */
  function RampSteps(c: SpeedConfig): (n: int)
    requires ValidConfig(c)
    ensures n >= 0
    ensures n * c.stepDelay <= c.startDelay - c.stopDelay < (n + 1) * c.stepDelay
  {
    var n := TruncDiv(c.startDelay - c.stopDelay, c.stepDelay);
    assert (n + 1) * c.stepDelay == n * c.stepDelay + c.stepDelay;
    n
  }

  /** The phase lengths of one move, as the C variables hold them (they may be negative). */
  datatype Profile = Profile(delta: int, accSteps: int, fullSteps: int, decSteps: int)

  /**
   * Plans the move from `current` to `target`: both ramps are
   * `min(delta / 2, nsteps)` and the cruise phase takes what is left. The
   * signed `delta` is used as it is; no absolute value is taken.
   */
  function PlanMove(current: int, target: int, c: SpeedConfig): (p: Profile)
    requires ValidConfig(c)
    ensures p.delta == target - current
    ensures p.accSteps == p.decSteps
    ensures p.accSteps + p.fullSteps + p.decSteps == p.delta
    ensures p.accSteps <= RampSteps(c)
    ensures p.accSteps <= TruncDiv(p.delta, 2)
    ensures p.accSteps == RampSteps(c) || p.accSteps == TruncDiv(p.delta, 2)
  {
    var delta := target - current;
    var ramp := Min(TruncDiv(delta, 2), RampSteps(c));
    Profile(delta, ramp, delta - ramp - ramp, ramp)
  }

  /**
   * A forward (or zero) move: the ramps are non-negative, never longer than
   * `nsteps` and together no longer than the move, so the cruise phase is
   * non-negative; a ramp shorter than `nsteps` is exactly half the move.
   */
  lemma ForwardPlanBounds(current: int, target: int, c: SpeedConfig)
    requires ValidConfig(c)
    requires target >= current
    ensures var p := PlanMove(current, target, c);
      && 0 <= p.accSteps <= RampSteps(c)
      && 2 * p.accSteps <= p.delta
      && p.fullSteps >= 0
      && (p.accSteps == RampSteps(c) || p.accSteps == p.delta / 2)
  {
  }

  /**
   * A move short enough that half of it fits in the ramp gets no cruise
   * phase, except one step when its length is odd.
   */
  lemma ShortMoveCruise(current: int, target: int, c: SpeedConfig)
    requires ValidConfig(c)
    requires target >= current
    requires (target - current) / 2 <= RampSteps(c)
    ensures var p := PlanMove(current, target, c);
      && p.accSteps == p.delta / 2
      && p.fullSteps == p.delta % 2
  {
  }

  /** A move of at least `2 * nsteps` uses the full ramp and cruises for the rest. */
  lemma LongMoveCruise(current: int, target: int, c: SpeedConfig)
    requires ValidConfig(c)
    requires target - current >= 2 * RampSteps(c)
    ensures var p := PlanMove(current, target, c);
      && p.accSteps == p.decSteps == RampSteps(c)
      && p.fullSteps == p.delta - 2 * RampSteps(c)
  {
  }

  /** A move of exactly `2 * nsteps` is a pure triangle: no cruise phase. */
  lemma TriangularMove(current: int, target: int, c: SpeedConfig)
    requires ValidConfig(c)
    requires target - current == 2 * RampSteps(c)
    ensures PlanMove(current, target, c).fullSteps == 0
  {
  }

  /**
   * A backward move, planned with the signed `delta`: every phase length is
   * zero or negative (the cruise length is minus the parity of the distance).
   */
  lemma BackwardPlanSigns(current: int, target: int, c: SpeedConfig)
    requires ValidConfig(c)
    requires target < current
    ensures var p := PlanMove(current, target, c);
      && p.accSteps == p.decSteps == TruncDiv(p.delta, 2) <= 0
      && p.fullSteps == -((current - target) % 2) <= 0
  {
  }

  /** The configuration written into the source: a 100 to 10 ramp by 2, moving from 50 to -50. */
  lemma SourceConfiguration()
    ensures ValidConfig(SpeedConfig(100, 10, 2))
    ensures RampSteps(SpeedConfig(100, 10, 2)) == 45
    ensures PlanMove(50, -50, SpeedConfig(100, 10, 2)) == Profile(-100, -50, 0, -50)
    ensures PlanMove(0, 50, SpeedConfig(100, 10, 2)) == Profile(50, 25, 0, 25)
    ensures PlanMove(0, 150, SpeedConfig(100, 10, 2)) == Profile(150, 45, 60, 45)
  {
  }
}
