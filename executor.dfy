// The executing half of the trapezoidal move in model.c: three counted loops
// that step the position forward and ramp the delay down, hold it, and ramp it
// back up, emitting one trace line per step.

module Executor {
  import opened Planner

  datatype Phase = Accelerate | Cruise | Decelerate

  /** One trace line: the phase, and the position and delay printed for that step. */
  datatype TraceEntry = TraceEntry(phase: Phase, position: int, delay: int)

  /** How many times `for (int i = 0; i < n; i++)` runs its body. */
  function Iterations(n: int): nat
  {
    if n < 0 then 0 else n
  }

  /** The number of steps the three loops take under profile `p`. */
  function StepCount(p: Profile): nat
  {
    Iterations(p.accSteps) + Iterations(p.fullSteps) + Iterations(p.decSteps)
  }

  /** The delay after it has changed by `change` `n` times, starting from `delay`. */
  function Ramp(delay: int, change: int, n: nat): int
  {
    if n == 0 then delay else Ramp(delay, change, n - 1) + change
  }

  /** `n` changes of `change` move the delay by `n * change`. */
  lemma {:induction false} RampClosedForm(delay: int, change: int, n: nat)
    ensures Ramp(delay, change, n) == delay + n * change
  {
    if n > 0 {
      RampClosedForm(delay, change, n - 1);
    }
  }

  /** Ramping `i` times back up by `change` undoes the last `i` of `a` steps down by `change`. */
  lemma {:induction false} RampUndone(delay: int, change: int, a: nat, i: nat)
    requires i <= a
    ensures Ramp(Ramp(delay, -change, a), change, i) == Ramp(delay, -change, a - i)
  {
    if i > 0 {
      RampUndone(delay, change, a, i - 1);
    }
  }

  /** `n` consecutive steps of one phase from `position`, the delay changing by `change` per step. */
  function PhaseTrace(phase: Phase, position: int, delay: int, change: int, n: nat): (t: seq<TraceEntry>)
    ensures |t| == n
  {
    if n == 0 then []
    else PhaseTrace(phase, position, delay, change, n - 1) + [TraceEntry(phase, position + n - 1, Ramp(delay, change, n - 1))]
  }

  /** Entry `k` of a phase is its `k`-th step: position and delay both advanced `k` times. */
  lemma {:induction false} PhaseTraceAt(phase: Phase, position: int, delay: int, change: int, n: nat, k: nat)
    requires k < n
    ensures PhaseTrace(phase, position, delay, change, n)[k] == TraceEntry(phase, position + k, Ramp(delay, change, k))
  {
    if k < n - 1 {
      PhaseTraceAt(phase, position, delay, change, n - 1, k);
    }
  }

  /** The delay printed during the cruise phase: the start delay after the whole acceleration ramp. */
  function CruiseDelay(c: SpeedConfig, p: Profile): int
  {
    Ramp(c.startDelay, -c.stepDelay, Iterations(p.accSteps))
  }

  /** The whole trace of a move from `current` under profile `p`, phase after phase. */
  function ProfileTrace(current: int, c: SpeedConfig, p: Profile): (t: seq<TraceEntry>)
    ensures |t| == StepCount(p)
  {
    var a, f := Iterations(p.accSteps), Iterations(p.fullSteps);
    PhaseTrace(Accelerate, current, c.startDelay, -c.stepDelay, a)
    + PhaseTrace(Cruise, current + a, CruiseDelay(c, p), 0, f)
    + PhaseTrace(Decelerate, current + a + f, CruiseDelay(c, p), c.stepDelay, Iterations(p.decSteps))
  }

  /**
   * Runs the three loops of model.c from `current`, with the delay starting at
   * the start delay. The trace records the position and delay as printed,
   * before the position's post-increment and before the delay update.
   */
  method Execute(current: int, c: SpeedConfig, p: Profile) returns (position: int, delay: int, trace: seq<TraceEntry>)
    ensures trace == ProfileTrace(current, c, p)
    ensures position == current + StepCount(p)
    ensures delay == Ramp(CruiseDelay(c, p), c.stepDelay, Iterations(p.decSteps))
  {
    position, delay, trace := current, c.startDelay, [];

    var i := 0;
    while i < p.accSteps
      invariant 0 <= i <= Iterations(p.accSteps)
      invariant position == current + i
      invariant delay == Ramp(c.startDelay, -c.stepDelay, i)
      invariant trace == PhaseTrace(Accelerate, current, c.startDelay, -c.stepDelay, i)
    {
      trace := trace + [TraceEntry(Accelerate, position, delay)];
      position := position + 1;
      delay := delay - c.stepDelay;
      i := i + 1;
    }
    assert i == Iterations(p.accSteps);
    ghost var accTrace := trace;
    ghost var cruiseFrom := position;
    assert delay == CruiseDelay(c, p);

    i := 0;
    while i < p.fullSteps
      invariant 0 <= i <= Iterations(p.fullSteps)
      invariant position == cruiseFrom + i
      invariant delay == CruiseDelay(c, p)
      invariant trace == accTrace + PhaseTrace(Cruise, cruiseFrom, CruiseDelay(c, p), 0, i)
    {
      RampClosedForm(CruiseDelay(c, p), 0, i);
      trace := trace + [TraceEntry(Cruise, position, delay)];
      position := position + 1;
      i := i + 1;
    }
    assert i == Iterations(p.fullSteps);
    ghost var cruiseTrace := trace;
    ghost var decFrom := position;

    i := 0;
    while i < p.decSteps
      invariant 0 <= i <= Iterations(p.decSteps)
      invariant position == decFrom + i
      invariant delay == Ramp(CruiseDelay(c, p), c.stepDelay, i)
      invariant trace == cruiseTrace + PhaseTrace(Decelerate, decFrom, CruiseDelay(c, p), c.stepDelay, i)
    {
      trace := trace + [TraceEntry(Decelerate, position, delay)];
      position := position + 1;
      delay := delay + c.stepDelay;
      i := i + 1;
    }
    assert i == Iterations(p.decSteps);
  }

  /**
   * Plans and executes one move, as `main` does. A forward move ends on the
   * target with one trace entry per step; a backward move takes no step at
   * all. Either way the delay ends where it started.
   */
  method Move(current: int, target: int, c: SpeedConfig) returns (position: int, delay: int, trace: seq<TraceEntry>)
    requires ValidConfig(c)
    ensures trace == ProfileTrace(current, c, PlanMove(current, target, c))
    ensures target >= current ==> position == target && |trace| == target - current
    ensures target < current ==> position == current && trace == []
    ensures delay == c.startDelay
  {
    var p := PlanMove(current, target, c);
    if target >= current {
      ForwardPlanBounds(current, target, c);
    } else {
      BackwardPlanSigns(current, target, c);
    }
    position, delay, trace := Execute(current, c, p);
    RampUndone(c.startDelay, c.stepDelay, Iterations(p.accSteps), Iterations(p.decSteps));
  }

  /**
   * Entry `k` of a move's trace: the `k`-th step from `current`, in the
   * acceleration, cruise or deceleration phase according to `k`, with the
   * delay that phase had reached when the step was printed.
   */
  lemma ProfileTraceAt(current: int, c: SpeedConfig, p: Profile, k: nat)
    requires k < |ProfileTrace(current, c, p)|
    ensures var a, f := Iterations(p.accSteps), Iterations(p.fullSteps);
      var e := ProfileTrace(current, c, p)[k];
      && e.position == current + k
      && (k < a ==> e == TraceEntry(Accelerate, current + k, Ramp(c.startDelay, -c.stepDelay, k)))
      && (a <= k < a + f ==> e == TraceEntry(Cruise, current + k, CruiseDelay(c, p)))
      && (a + f <= k ==> e == TraceEntry(Decelerate, current + k, Ramp(CruiseDelay(c, p), c.stepDelay, k - a - f)))
  {
    var a, f, d := Iterations(p.accSteps), Iterations(p.fullSteps), Iterations(p.decSteps);
    var t1 := PhaseTrace(Accelerate, current, c.startDelay, -c.stepDelay, a);
    var t2 := PhaseTrace(Cruise, current + a, CruiseDelay(c, p), 0, f);
    var t3 := PhaseTrace(Decelerate, current + a + f, CruiseDelay(c, p), c.stepDelay, d);
    var t := ProfileTrace(current, c, p);
    assert t == t1 + t2 + t3;
    if k < a {
      PhaseTraceAt(Accelerate, current, c.startDelay, -c.stepDelay, a, k);
      assert t[k] == t1[k];
    } else if k < a + f {
      PhaseTraceAt(Cruise, current + a, CruiseDelay(c, p), 0, f, k - a);
      RampClosedForm(CruiseDelay(c, p), 0, k - a);
      assert t[k] == t2[k - a];
    } else {
      PhaseTraceAt(Decelerate, current + a + f, CruiseDelay(c, p), c.stepDelay, d, k - a - f);
      assert t[k] == t3[k - a - f];
    }
  }

  /** The trace has one entry per loop iteration, at consecutive positions from `current`. */
  lemma TracePositions(current: int, c: SpeedConfig, p: Profile)
    ensures var t := ProfileTrace(current, c, p);
      && |t| == StepCount(p)
      && forall k :: 0 <= k < |t| ==> t[k].position == current + k
  {
    var t := ProfileTrace(current, c, p);
    forall k | 0 <= k < |t|
      ensures t[k].position == current + k
    {
      ProfileTraceAt(current, c, p, k);
    }
  }

  /** How a phase changes the delay from one step to the next. */
  function DelayChange(phase: Phase, c: SpeedConfig): int
  {
    match phase
    case Accelerate => -c.stepDelay
    case Cruise => 0
    case Decelerate => c.stepDelay
  }

  /**
   * The phases come in order: acceleration entries, then cruise entries, then
   * deceleration entries; within a phase the delay falls by the step delay,
   * stays put, or rises by the step delay from one entry to the next.
   */
  lemma TracePhaseShape(current: int, c: SpeedConfig, p: Profile)
    ensures var t := ProfileTrace(current, c, p);
      var a, f := Iterations(p.accSteps), Iterations(p.fullSteps);
      && (forall k :: 0 <= k < |t| ==>
            (t[k].phase == Accelerate <==> k < a) && (t[k].phase == Decelerate <==> a + f <= k))
      && (forall k :: 0 < k < |t| && t[k - 1].phase == t[k].phase ==>
            t[k].delay == t[k - 1].delay + DelayChange(t[k].phase, c))
  {
    var a, f := Iterations(p.accSteps), Iterations(p.fullSteps);
    var t := ProfileTrace(current, c, p);
    forall k | 0 <= k < |t|
      ensures (t[k].phase == Accelerate <==> k < a) && (t[k].phase == Decelerate <==> a + f <= k)
    {
      ProfileTraceAt(current, c, p, k);
    }
    forall k | 0 < k < |t| && t[k - 1].phase == t[k].phase
      ensures t[k].delay == t[k - 1].delay + DelayChange(t[k].phase, c)
    {
      ProfileTraceAt(current, c, p, k);
      ProfileTraceAt(current, c, p, k - 1);
    }
  }

  /**
   * For a planned move, every delay in the trace lies between the stop delay
   * and the start delay: the acceleration ramp never runs longer than `nsteps`.
   */
  lemma TraceDelaysBounded(current: int, target: int, c: SpeedConfig)
    requires ValidConfig(c)
    ensures var t := ProfileTrace(current, c, PlanMove(current, target, c));
      forall k :: 0 <= k < |t| ==> c.stopDelay <= t[k].delay <= c.startDelay
  {
    var p := PlanMove(current, target, c);
    var t := ProfileTrace(current, c, p);
    forall k | 0 <= k < |t|
      ensures c.stopDelay <= t[k].delay <= c.startDelay
    {
      EntryDelayBounded(current, c, p, k);
    }
  }

  /** One entry's delay, for any profile whose symmetric ramps fit in `nsteps`. */
  lemma EntryDelayBounded(current: int, c: SpeedConfig, p: Profile, k: nat)
    requires ValidConfig(c)
    requires Iterations(p.accSteps) == Iterations(p.decSteps) <= RampSteps(c)
    requires k < |ProfileTrace(current, c, p)|
    ensures c.stopDelay <= ProfileTrace(current, c, p)[k].delay <= c.startDelay
  {
    var a, f := Iterations(p.accSteps), Iterations(p.fullSteps);
    ProfileTraceAt(current, c, p, k);
    if k < a {
      RampDelayInRange(c, a, k);
    } else if k < a + f {
      RampDelayInRange(c, a, a);
    } else {
      RampUndone(c.startDelay, c.stepDelay, a, k - a - f);
      RampDelayInRange(c, a, a - (k - a - f));
    }
  }

  /** After `j` of at most `nsteps` ramp steps down, the delay is still between the stop and start delays. */
  lemma RampDelayInRange(c: SpeedConfig, a: int, j: nat)
    requires ValidConfig(c)
    requires j <= a <= RampSteps(c)
    ensures c.stopDelay <= Ramp(c.startDelay, -c.stepDelay, j) <= c.startDelay
  {
    RampClosedForm(c.startDelay, -c.stepDelay, j);
    MulMonotone(j, RampSteps(c), c.stepDelay);
    MulMonotone(0, j, c.stepDelay);
  }

  /** Multiplying by a non-negative factor keeps order; used by `RampDelayInRange`. */
  lemma MulMonotone(x: int, y: int, m: int)
    requires 0 <= x <= y && m >= 0
    ensures x * m <= y * m
  {
  }
}
