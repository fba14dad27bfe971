/**
 * The adaptive time regulator. Each frame it measures the render step,
 * tracks how long rendering has run over budget, accumulates elapsed time and
 * turns it into a whole number of fixed simulation substeps, keeping the
 * remainder for the next frame. Times are in milliseconds, as reals.
 */
module Time {

  /** The per-frame inputs the regulator reads. */
  datatype TimeInputs = TimeInputs(doPause: bool, doReset: bool, timeStamp: real, simRate: real)

  /** The six fields of the regulator's state, as a value. */
  datatype Clock = Clock(
    prevTimeMs: real,
    timeAccumulatorMs: real,
    estimatedRenderTimeStepMs: real,
    estimatedThrottlingRatio: real,
    framesAboveTarget: int,
    simFrameCountCap: int)

  /** The render-step estimate a reset starts from: one frame at 60 Hz. */
  const DefaultStepMs: real := 1000.0 / 60.0

  /** The substep cap; the code that would shrink it is disabled, so it never changes. */
  const SubstepCap: int := 100

  /** Consecutive over-budget frames after which the counter starts again from zero. */
  const ThrottleFrames: int := 10

  /** The state before the first frame. */
  const Initial: Clock := Clock(0.0, 0.0, DefaultStepMs, 1.0, 0, SubstepCap)

  function Min(a: real, b: real): real {
    if a <= b then a else b
  }

  /**
   * `Math.min(1, cap / substeps)`: a division by zero gives +Infinity (the
   * cap is positive), so the minimum is 1.
   */
  function ThrottleTerm(cap: int, substeps: int): real
    requires cap > 0
  {
    if substeps == 0 then 1.0 else Min(1.0, cap as real / substeps as real)
  }

  /** The state a pause or reset restores; the frame's `delta` then equals the estimate. */
  function Restart(c: Clock, now: real): Clock {
    Clock(now - DefaultStepMs, 0.0, DefaultStepMs, 1.0, 0, SubstepCap)
  }

  /** The over-budget counter after a frame that took `delta` against the estimate `estimate`. */
  function NextFramesAbove(frames: int, estimate: real, delta: real): int {
    var counted :=
      if delta < estimate then frames
      else if delta > 2.0 * estimate then frames + 1
      else 0;
    if counted >= ThrottleFrames then 0 else counted
  }

  /** `Math.floor(acc * simRate / 1000)`: the whole substeps `acc` milliseconds hold. */
  function WholeSteps(acc: real, simRate: real): int {
    (acc * simRate / 1000.0).Floor
  }

  /**
   * One frame of the regulator: the state it leaves and the substep count it
   * returns. The count is clamped to the cap only after the accumulator has
   * been charged for the unclamped count.
   */
  function Regulate(c: Clock, inputs: TimeInputs): (Clock, int)
    requires c.simFrameCountCap > 0 && inputs.simRate > 0.0
  {
    var c1 := if inputs.doPause || inputs.doReset then Restart(c, inputs.timeStamp) else c;
    var delta := inputs.timeStamp - c1.prevTimeMs;
    var estimate := if delta < c1.estimatedRenderTimeStepMs then delta else c1.estimatedRenderTimeStepMs;
    var frames := NextFramesAbove(c1.framesAboveTarget, c1.estimatedRenderTimeStepMs, delta);
    var acc := c1.timeAccumulatorMs + delta;
    var steps := if inputs.doPause then 0 else WholeSteps(acc, inputs.simRate);
    var acc' := if inputs.doPause then 0.0 else acc - 1000.0 * (steps as real / inputs.simRate);
    var ratio := c1.estimatedThrottlingRatio * 0.99 + 0.01 * ThrottleTerm(c1.simFrameCountCap, steps);
    var returned := if steps > c1.simFrameCountCap then c1.simFrameCountCap else steps;
    (Clock(inputs.timeStamp, acc', estimate, ratio, frames, c1.simFrameCountCap), returned)
  }

  /** What holds between frames whatever the inputs. */
  predicate Bounded(c: Clock) {
    0 <= c.framesAboveTarget < ThrottleFrames && c.simFrameCountCap == SubstepCap
  }

  /** What also holds between frames while time runs forward. */
  predicate Settled(c: Clock) {
    Bounded(c) && c.timeAccumulatorMs >= 0.0 && 0.0 < c.estimatedThrottlingRatio <= 1.0
  }

  /** Time runs forward for this frame: it does not start before the last one, unless it resets. */
  predicate Forward(c: Clock, inputs: TimeInputs) {
    inputs.doPause || inputs.doReset || inputs.timeStamp >= c.prevTimeMs
  }

  /**
   * The regulator as the module record it is: `doTimeRegulation` updates the
   * fields one after another, and the getters read them.
   */
  class TimeState {
    var prevTimeMs: real
    var timeAccumulatorMs: real
    var estimatedRenderTimeStepMs: real
    var estimatedThrottlingRatio: real
    var framesAboveTarget: int
    var simFrameCountCap: int

    ghost predicate Valid()
      reads this
    {
      Bounded(Snapshot())
    }

    function Snapshot(): Clock
      reads this
    {
      Clock(prevTimeMs, timeAccumulatorMs, estimatedRenderTimeStepMs, estimatedThrottlingRatio,
            framesAboveTarget, simFrameCountCap)
    }

    constructor ()
      ensures Valid() && Snapshot() == Initial
    {
      prevTimeMs := 0.0;
      timeAccumulatorMs := 0.0;
      estimatedRenderTimeStepMs := DefaultStepMs;
      estimatedThrottlingRatio := 1.0;
      framesAboveTarget := 0;
      simFrameCountCap := SubstepCap;
    }

    /** `doTimeRegulation`: advances the state by one frame and returns the substeps to run. */
    method DoTimeRegulation(inputs: TimeInputs) returns (substepCount: int)
      requires Valid() && inputs.simRate > 0.0
      modifies this
      ensures Valid()
      ensures (Snapshot(), substepCount) == Regulate(old(Snapshot()), inputs)
    {
      ghost var start := Snapshot();
      if inputs.doPause || inputs.doReset {
        estimatedRenderTimeStepMs := DefaultStepMs;
        prevTimeMs := inputs.timeStamp - estimatedRenderTimeStepMs;
        simFrameCountCap := SubstepCap;
        framesAboveTarget := 0;
        estimatedThrottlingRatio := 1.0;
        timeAccumulatorMs := 0.0;
      }

      var deltaTimeMs := inputs.timeStamp - prevTimeMs;

      if deltaTimeMs < estimatedRenderTimeStepMs {
        estimatedRenderTimeStepMs := deltaTimeMs;
      } else if deltaTimeMs > 2.0 * estimatedRenderTimeStepMs {
        framesAboveTarget := framesAboveTarget + 1;
      } else {
        framesAboveTarget := 0;
      }

      if framesAboveTarget >= ThrottleFrames {
        framesAboveTarget := 0;
      }

      prevTimeMs := inputs.timeStamp;
      timeAccumulatorMs := timeAccumulatorMs + deltaTimeMs;
      substepCount := WholeSteps(timeAccumulatorMs, inputs.simRate);

      if inputs.doPause {
        substepCount := 0;
        timeAccumulatorMs := 0.0;
      } else {
        timeAccumulatorMs := timeAccumulatorMs - 1000.0 * (substepCount as real / inputs.simRate);
      }

      estimatedThrottlingRatio := estimatedThrottlingRatio * 0.99 + 0.01 * ThrottleTerm(simFrameCountCap, substepCount);

      if substepCount > simFrameCountCap {
        substepCount := simFrameCountCap;
      }
      StepKeepsBounded(start, inputs);
    }

    /** `getLastRenderTimeStep`: the estimate in seconds. */
    function GetLastRenderTimeStep(): (seconds: real)
      reads this
      ensures seconds * 1000.0 == estimatedRenderTimeStepMs
    {
      estimatedRenderTimeStepMs / 1000.0
    }

    function GetThrottlingRatio(): (ratio: real)
      reads this
      ensures ratio == Snapshot().estimatedThrottlingRatio
    {
      estimatedThrottlingRatio
    }
  }

  // ---------------------------------------------------------------------------
  // Properties of one frame

  /** The counter stays in `[0, 9]` and the cap stays 100, whatever the inputs. */
  lemma StepKeepsBounded(c: Clock, inputs: TimeInputs)
    requires Bounded(c) && inputs.simRate > 0.0
    ensures Bounded(Regulate(c, inputs).0)
  {
  }

  /**
   * A pause or reset restores the defaults, and that frame's delta is the
   * default estimate exactly: the estimate stays, the counter is zero.
   */
  lemma RestartFrame(c: Clock, inputs: TimeInputs)
    requires c.simFrameCountCap > 0 && inputs.simRate > 0.0
    requires inputs.doPause || inputs.doReset
    ensures var (c', _) := Regulate(c, inputs);
      && c'.estimatedRenderTimeStepMs == DefaultStepMs
      && c'.framesAboveTarget == 0
      && c'.simFrameCountCap == SubstepCap
      && c'.prevTimeMs == inputs.timeStamp
  {
  }

  /** A frame's step of the over-budget counter in the regulated state. */
  lemma RegulateFramesAbove(c: Clock, inputs: TimeInputs)
    requires c.simFrameCountCap > 0 && inputs.simRate > 0.0 && !inputs.doPause && !inputs.doReset
    ensures Regulate(c, inputs).0.framesAboveTarget ==
      NextFramesAbove(c.framesAboveTarget, c.estimatedRenderTimeStepMs, inputs.timeStamp - c.prevTimeMs)
  {
  }

  /**
   * The over-budget counter: unchanged under the estimate, +1 over twice it,
   * 0 in between; reaching 10 starts it again from 0.
   */
  lemma FramesAboveMoves(frames: int, estimate: real, delta: real)
    requires 0 <= frames < ThrottleFrames
    ensures var next := NextFramesAbove(frames, estimate, delta);
      && 0 <= next < ThrottleFrames
      && (delta < estimate ==> next == frames)
      && (estimate <= delta <= 2.0 * estimate ==> next == 0)
      && (estimate <= delta && delta > 2.0 * estimate ==> next == if frames == ThrottleFrames - 1 then 0 else frames + 1)
  {
  }

  /** Between resets the render-step estimate never grows: it is only replaced by a smaller delta. */
  lemma EstimateNeverGrows(c: Clock, inputs: TimeInputs)
    requires c.simFrameCountCap > 0 && inputs.simRate > 0.0 && !inputs.doPause && !inputs.doReset
    ensures var e := Regulate(c, inputs).0.estimatedRenderTimeStepMs;
      e <= c.estimatedRenderTimeStepMs && (e < c.estimatedRenderTimeStepMs <==> inputs.timeStamp - c.prevTimeMs < c.estimatedRenderTimeStepMs)
  {
  }

  /** The returned count never exceeds the cap, which is 100. */
  lemma SubstepsCapped(c: Clock, inputs: TimeInputs)
    requires Bounded(c) && inputs.simRate > 0.0
    ensures Regulate(c, inputs).1 <= SubstepCap
  {
  }

  /** A paused frame runs no substep and empties the accumulator. */
  lemma PausedFrame(c: Clock, inputs: TimeInputs)
    requires c.simFrameCountCap > 0 && inputs.simRate > 0.0 && inputs.doPause
    ensures Regulate(c, inputs).1 == 0 && Regulate(c, inputs).0.timeAccumulatorMs == 0.0
  {
  }

  /** Charging `Floor(acc * rate / 1000)` substeps of `1000 / rate` ms each leaves less than one substep. */
  lemma ChargeLeavesRemainder(acc: real, rate: real)
    requires acc >= 0.0 && rate > 0.0
    ensures WholeSteps(acc, rate) >= 0
    ensures 0.0 <= acc - 1000.0 * (WholeSteps(acc, rate) as real / rate) < 1000.0 / rate
  {
    var q := acc * rate / 1000.0;
    var n := WholeSteps(acc, rate);
    assert n as real <= q < n as real + 1.0;
    assert 1000.0 * (n as real / rate) == (1000.0 / rate) * (n as real);
    assert acc == (1000.0 / rate) * q;
    assert acc - 1000.0 * (n as real / rate) == (1000.0 / rate) * (q - n as real);
  }

  /**
   * A running frame returns `Floor(acc * simRate / 1000)` substeps (before the
   * cap) and keeps less than one substep's worth of time; what lies beyond the
   * cap is dropped, not carried over.
   */
  lemma RunningFrame(c: Clock, inputs: TimeInputs)
    requires Settled(c) && inputs.simRate > 0.0 && !inputs.doPause && Forward(c, inputs)
    ensures var c1 := if inputs.doReset then Restart(c, inputs.timeStamp) else c;
      var acc := c1.timeAccumulatorMs + (inputs.timeStamp - c1.prevTimeMs);
      var steps := WholeSteps(acc, inputs.simRate);
      var (c', returned) := Regulate(c, inputs);
      && steps >= 0
      && returned == (if steps > SubstepCap then SubstepCap else steps)
      && c'.timeAccumulatorMs == acc - 1000.0 * (steps as real / inputs.simRate)
      && 0.0 <= c'.timeAccumulatorMs < 1000.0 / inputs.simRate
  {
    var c1 := if inputs.doReset then Restart(c, inputs.timeStamp) else c;
    ChargeLeavesRemainder(c1.timeAccumulatorMs + (inputs.timeStamp - c1.prevTimeMs), inputs.simRate);
  }

  /** The throttling term of a non-negative substep count lies in `(0, 1]`. */
  lemma ThrottleTermBounds(cap: int, substeps: int)
    requires cap > 0 && substeps >= 0
    ensures 0.0 < ThrottleTerm(cap, substeps) <= 1.0
  {
    if substeps > 0 {
      assert cap as real / substeps as real > 0.0;
    }
  }

  /** While time runs forward, the throttling ratio, an average of terms in `(0, 1]`, stays in `(0, 1]`. */
  lemma RatioStaysInUnit(c: Clock, inputs: TimeInputs)
    requires Settled(c) && inputs.simRate > 0.0 && Forward(c, inputs)
    ensures 0.0 < Regulate(c, inputs).0.estimatedThrottlingRatio <= 1.0
  {
    var c1 := if inputs.doPause || inputs.doReset then Restart(c, inputs.timeStamp) else c;
    var acc := c1.timeAccumulatorMs + (inputs.timeStamp - c1.prevTimeMs);
    if !inputs.doPause {
      ChargeLeavesRemainder(acc, inputs.simRate);
      ThrottleTermBounds(c1.simFrameCountCap, WholeSteps(acc, inputs.simRate));
    }
  }

  /** While time runs forward, every frame leaves the state settled. */
  lemma StepKeepsSettled(c: Clock, inputs: TimeInputs)
    requires Settled(c) && inputs.simRate > 0.0 && Forward(c, inputs)
    ensures Settled(Regulate(c, inputs).0)
  {
    StepKeepsBounded(c, inputs);
    RatioStaysInUnit(c, inputs);
    if !inputs.doPause {
      RunningFrame(c, inputs);
    }
  }
}
