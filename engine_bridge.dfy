/**
 * MinimalEngineBridge: the step bookkeeping between the interpreter and the engine. A step is
 * started and ended in turn; ending one saves the current timestep in the replicate and moves the
 * current and absolute step counters on by one.
 */
module EngineBridges {
  import opened Wrappers

  const DEFAULT_START_STEP: int := 0
  const DEFAULT_END_STEP: int := 100

  /** The timesteps start, start + 1, ..., start + n - 1. */
  function Consecutive(start: int, n: nat): (r: seq<int>)
    ensures |r| == n
    ensures forall i :: 0 <= i < n ==> r[i] == start + i
  {
    if n == 0 then [] else Consecutive(start, n - 1) + [start + n - 1]
  }

  /**
   * The bridge over a simulation whose steps.low and steps.high may be missing, a prototype store
   * and the timesteps saved in its replicate so far.
   */
  class EngineBridge<P> {
    const startStep: int
    const endStep: int
    const prototypes: map<string, P>
    var currentStep: int
    var absoluteStep: int
    var inStep: bool
    var savedTimesteps: seq<int>

    /** Every ended step moved the current step on by one and saved the one it ended. */
    predicate Valid()
      reads this
    {
      absoluteStep >= 0 &&
      currentStep == startStep + absoluteStep &&
      savedTimesteps == Consecutive(startStep, absoluteStep)
    }

    /** The constructor: steps.low and steps.high default to 0 and 100. */
    constructor(stepsLow: Option<int>, stepsHigh: Option<int>, prototypes: map<string, P>)
      ensures Valid()
      ensures startStep == stepsLow.GetOr(DEFAULT_START_STEP)
      ensures endStep == stepsHigh.GetOr(DEFAULT_END_STEP)
      ensures this.prototypes == prototypes
      ensures currentStep == startStep && absoluteStep == 0 && !inStep && savedTimesteps == []
    {
      startStep := stepsLow.GetOr(DEFAULT_START_STEP);
      endStep := stepsHigh.GetOr(DEFAULT_END_STEP);
      this.prototypes := prototypes;
      currentStep := stepsLow.GetOr(DEFAULT_START_STEP);
      absoluteStep := 0;
      inStep := false;
      savedTimesteps := [];
    }

    /** startStep: IllegalStateException while a step is running. */
    method StartStep() returns (err: Option<Error>)
      modifies `inStep
      ensures err.Some? <==> old(inStep)
      ensures err.Some? ==> inStep && err.value == Error(IllegalState, "Tried to start a step before finishing the current one.")
      ensures err.None? ==> inStep
    {
      if inStep {
        return Some(Error(IllegalState, "Tried to start a step before finishing the current one."));
      }
      inStep := true;
      return None;
    }

    /** endStep: IllegalStateException outside a step; otherwise saves the step and moves on. */
    method EndStep() returns (err: Option<Error>)
      requires Valid()
      modifies `inStep, `currentStep, `absoluteStep, `savedTimesteps
      ensures Valid()
      ensures err.Some? <==> !old(inStep)
      ensures err.Some? ==> (
        err.value == Error(IllegalState, "Tried to end a step before starting the current one.") &&
        currentStep == old(currentStep) && absoluteStep == old(absoluteStep) && !inStep &&
        savedTimesteps == old(savedTimesteps))
      ensures err.None? ==> (
        savedTimesteps == old(savedTimesteps) + [old(currentStep)] &&
        currentStep == old(currentStep) + 1 && absoluteStep == old(absoluteStep) + 1 && !inStep)
    {
      if !inStep {
        return Some(Error(IllegalState, "Tried to end a step before starting the current one."));
      }
      savedTimesteps := savedTimesteps + [currentStep];
      currentStep := currentStep + 1;
      absoluteStep := absoluteStep + 1;
      inStep := false;
      return None;
    }

    /** isComplete: the current step is past the end step. */
    predicate IsComplete()
      reads this
    {
      currentStep > endStep
    }

    function CurrentTimestep(): int
      reads this
    {
      currentStep
    }

    /** getPriorTimestep: the step before the current one. */
    function PriorTimestep(): (t: int)
      reads this
      ensures t + 1 == CurrentTimestep()
    {
      currentStep - 1
    }

    function AbsoluteTimestep(): int
      reads this
    {
      absoluteStep
    }

    /** getPrototype: IllegalArgumentException for a name the store does not have. */
    function GetPrototype(name: string): (r: Result<P>)
      ensures r.Success? <==> name in prototypes
      ensures r.Success? ==> r.value == prototypes[name]
      ensures r.Failure? ==> r.error == Error(IllegalArgument, "Unknown entity type: " + name)
    {
      if name !in prototypes then Failure(Error(IllegalArgument, "Unknown entity type: " + name))
      else Success(prototypes[name])
    }
  }

  /**
   * A run of correctly paired steps: the bridge is complete exactly once more steps have ended
   * than there are timesteps from start to end, and the prior timestep is the last one saved.
   */
  lemma CompletionCountsSteps<P>(b: EngineBridge<P>)
    requires b.Valid()
    ensures b.IsComplete() <==> b.absoluteStep > b.endStep - b.startStep
    ensures b.absoluteStep > 0 ==> b.savedTimesteps[|b.savedTimesteps| - 1] == b.PriorTimestep()
  {
  }
}
