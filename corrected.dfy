// The move as it was evidently meant to be planned: on the distance to the
// target, whatever its sign, with the direction kept apart. model.c plans on
// the signed difference and only ever steps forward, so a backward move takes
// no step; this module is the corrected counterpart of Planner.PlanMove.

module Corrected {
  import opened Planner
  import opened Executor

  /** A move's phase lengths, planned on the distance, and the direction each step goes in. */
  datatype DirectedProfile = DirectedProfile(direction: int, profile: Profile)

  function Abs(x: int): nat
  {
    if x < 0 then -x else x
  }

  /**
   * Plans a move of `|target - current|` steps in the direction of the target:
   * both ramps are `min(|delta| / 2, nsteps)`, non-negative, and the cruise
   * phase takes the non-negative remainder.
   */
  function PlanDirectedMove(current: int, target: int, c: SpeedConfig): (m: DirectedProfile)
    requires ValidConfig(c)
    ensures m.direction == 1 || m.direction == -1
    ensures m.direction * m.profile.delta == target - current
    ensures m.profile.delta == Abs(target - current)
    ensures m.direction == (if target >= current then 1 else -1)
    ensures 0 <= m.profile.accSteps == m.profile.decSteps <= RampSteps(c)
    ensures m.profile.fullSteps >= 0
    ensures m.profile.accSteps + m.profile.fullSteps + m.profile.decSteps == Abs(target - current)
    ensures m.profile.accSteps == Min(Abs(target - current) / 2, RampSteps(c))
  {
    ForwardPlanBounds(0, Abs(target - current), c);
    DirectedProfile(if target >= current then 1 else -1, PlanMove(0, Abs(target - current), c))
  }

  /**
   * Stepping `direction` once per loop iteration under the corrected plan
   * reaches the target from any start, and the deceleration ramp restores the
   * start delay.
   */
  lemma CorrectedMoveArrives(current: int, target: int, c: SpeedConfig)
    requires ValidConfig(c)
    ensures var m := PlanDirectedMove(current, target, c);
      && current + m.direction * StepCount(m.profile) == target
      && Ramp(CruiseDelay(c, m.profile), c.stepDelay, Iterations(m.profile.decSteps)) == c.startDelay
  {
    var m := PlanDirectedMove(current, target, c);
    var a := Iterations(m.profile.accSteps);
    assert StepCount(m.profile) == m.profile.delta;
    RampUndone(c.startDelay, c.stepDelay, a, a);
  }

  /**
   * The plan as written takes no step for a backward move, so the only-forward
   * executor leaves the position where it was, short of the target.
   */
  lemma SignedPlanStallsBackward(current: int, target: int, c: SpeedConfig)
    requires ValidConfig(c)
    requires target < current
    ensures StepCount(PlanMove(current, target, c)) == 0
    ensures current + StepCount(PlanMove(current, target, c)) != target
  {
    BackwardPlanSigns(current, target, c);
  }

  /** The source's own configuration: the move from 50 to -50 is planned as 100 steps backward. */
  lemma SourceConfigurationCorrected()
    ensures PlanDirectedMove(50, -50, SpeedConfig(100, 10, 2)) == DirectedProfile(-1, Profile(100, 45, 10, 45))
    ensures PlanDirectedMove(150, 50, SpeedConfig(100, 10, 2)) == DirectedProfile(-1, Profile(100, 45, 10, 45))
  {
  }
}
