/**
 * ProgressCalculator: cumulative progress over the replicates of a run, and the filter that
 * decides which step updates are worth reporting. Percentages are exact rationals here.
 */
module Progress {
  import opened Wrappers

  const PROGRESS_REPORT_THRESHOLD: real := 5.0
  const MIN_STEP_INTERVAL: int := 10
  const MIN_PERCENTAGE_INTERVAL: real := 1.0

  /** The arguments of the message a report would show; formatting them is not modelled. */
  datatype Message =
    | StepMessage(percentage: real, step: int, totalSteps: int, replicate: Option<(int, int)>)
    | SimulationCompleted(percentage: real)
    | ReplicateCompleted(percentage: real, completedReplicate: int, totalReplicates: int)

  datatype ProgressUpdate = ProgressUpdate(shouldReport: bool, percentage: real, message: Option<Message>)

  /** Steps done out of all steps of all replicates, as a percentage. */
  function Percentage(doneSteps: int, stepsPerReplicate: int, replicates: int): (p: real)
    requires stepsPerReplicate > 0 && replicates > 0
    ensures 0 <= doneSteps <= stepsPerReplicate * replicates ==> 0.0 <= p <= 100.0
  {
    var total := (stepsPerReplicate * replicates) as real;
    assert total > 0.0;
    var p := doneSteps as real / total * 100.0;
    assert 0 <= doneSteps <= stepsPerReplicate * replicates ==> doneSteps as real / total <= 1.0;
    p
  }

  /** shouldReportProgress. */
  function ShouldReport(lastReportedPercentage: real, lastReportedStep: int, currentPercentage: real, currentStep: int)
    : (b: bool)
    ensures lastReportedPercentage < 0.0 ==> b
    ensures lastReportedPercentage >= 0.0 ==>
      (b <==> (currentPercentage - lastReportedPercentage >= PROGRESS_REPORT_THRESHOLD ||
               (currentStep - lastReportedStep >= MIN_STEP_INTERVAL &&
                currentPercentage - lastReportedPercentage >= MIN_PERCENTAGE_INTERVAL)))
  {
    if lastReportedPercentage < 0.0 then true
    else if currentPercentage - lastReportedPercentage >= PROGRESS_REPORT_THRESHOLD then true
    else if currentStep - lastReportedStep >= MIN_STEP_INTERVAL &&
      currentPercentage - lastReportedPercentage >= MIN_PERCENTAGE_INTERVAL then true
    else false
  }

  /** Within a replicate, a later step is further along. */
  lemma PercentageMonotone(a: int, b: int, stepsPerReplicate: int, replicates: int)
    requires stepsPerReplicate > 0 && replicates > 0 && a <= b
    ensures Percentage(a, stepsPerReplicate, replicates) <= Percentage(b, stepsPerReplicate, replicates)
  {
    var total := (stepsPerReplicate * replicates) as real;
    assert a as real / total <= b as real / total;
  }

  /** The last step of replicate n is where the completion of replicate n stands. */
  lemma CompletionContinuesSteps(n: int, stepsPerReplicate: int, replicates: int)
    requires stepsPerReplicate > 0 && replicates > 0
    ensures Percentage((n - 1) * stepsPerReplicate + stepsPerReplicate, stepsPerReplicate, replicates) ==
      Percentage(n * stepsPerReplicate, stepsPerReplicate, replicates)
  {
    assert (n - 1) * stepsPerReplicate + stepsPerReplicate == n * stepsPerReplicate;
  }

  /** Completing the last replicate is completing the run. */
  lemma LastCompletionIsHundred(stepsPerReplicate: int, replicates: int)
    requires stepsPerReplicate > 0 && replicates > 0
    ensures Percentage(replicates * stepsPerReplicate, stepsPerReplicate, replicates) == 100.0
  {
    var total := stepsPerReplicate * replicates;
    assert replicates * stepsPerReplicate == total;
    DivSelf(total as real);
  }

  lemma DivSelf(x: real)
    requires x > 0.0
    ensures x / x * 100.0 == 100.0
  {
  }

  class ProgressCalculator {
    const totalStepsPerReplicate: int
    const totalReplicates: int
    const totalStepsAcrossReplicates: int

    var lastReportedStep: int
    var lastReportedPercentage: real
    var currentReplicate: int
    var totalCompletedSteps: int

    predicate Valid()
      reads this
    {
      totalStepsPerReplicate > 0 && totalReplicates > 0 &&
      totalStepsAcrossReplicates == totalStepsPerReplicate * totalReplicates
    }

    constructor(steps: int, replicates: int)
      requires steps > 0 && replicates > 0
      ensures Valid()
      ensures totalStepsPerReplicate == steps && totalReplicates == replicates
      ensures lastReportedStep == -1 && lastReportedPercentage == -1.0
      ensures currentReplicate == 1 && totalCompletedSteps == 0
    {
      totalStepsPerReplicate := steps;
      totalReplicates := replicates;
      totalStepsAcrossReplicates := steps * replicates;
      lastReportedStep := -1;
      lastReportedPercentage := -1.0;
      currentReplicate := 1;
      totalCompletedSteps := 0;
    }

    /** The progress a step of the current replicate stands for. */
    function StepPercentage(currentStepInReplicate: int): (p: real)
      requires Valid()
      reads this
      ensures 1 <= currentReplicate <= totalReplicates && 0 <= currentStepInReplicate <= totalStepsPerReplicate ==>
        0.0 <= p <= 100.0
    {
      var done := (currentReplicate - 1) * totalStepsPerReplicate + currentStepInReplicate;
      assert 1 <= currentReplicate <= totalReplicates && 0 <= currentStepInReplicate <= totalStepsPerReplicate ==>
        done <= totalStepsPerReplicate * totalReplicates by {
        if 1 <= currentReplicate <= totalReplicates && 0 <= currentStepInReplicate <= totalStepsPerReplicate {
          assert (currentReplicate - 1) * totalStepsPerReplicate <= (totalReplicates - 1) * totalStepsPerReplicate;
        }
      }
      Percentage(done, totalStepsPerReplicate, totalReplicates)
    }

    /**
     * updateStep: reports the step when the filter lets it through, remembering it as the last
     * report; otherwise nothing changes and there is no message.
     */
    method UpdateStep(currentStepInReplicate: int) returns (u: ProgressUpdate)
      requires Valid()
      modifies `lastReportedStep, `lastReportedPercentage
      ensures u.percentage == StepPercentage(currentStepInReplicate)
      ensures u.shouldReport == ShouldReport(old(lastReportedPercentage), old(lastReportedStep), u.percentage,
        currentStepInReplicate)
      ensures u.shouldReport ==> (
        lastReportedStep == currentStepInReplicate && lastReportedPercentage == u.percentage &&
        u.message == Some(StepMessage(u.percentage, currentStepInReplicate, totalStepsPerReplicate,
          if totalReplicates == 1 then None else Some((currentReplicate, totalReplicates)))))
      ensures !u.shouldReport ==> (
        lastReportedStep == old(lastReportedStep) &&
        lastReportedPercentage == old(lastReportedPercentage) && u.message == None)
    {
      var stepsFromCompletedReplicates := (currentReplicate - 1) * totalStepsPerReplicate;
      var totalCurrentSteps := stepsFromCompletedReplicates + currentStepInReplicate;
      var currentPercentage := totalCurrentSteps as real / totalStepsAcrossReplicates as real * 100.0;
      var shouldReport := ShouldReport(lastReportedPercentage, lastReportedStep, currentPercentage, currentStepInReplicate);
      if shouldReport {
        var message := FormatProgressMessage(currentPercentage, currentStepInReplicate, currentReplicate);
        lastReportedStep := currentStepInReplicate;
        lastReportedPercentage := currentPercentage;
        return ProgressUpdate(true, currentPercentage, Some(message));
      } else {
        return ProgressUpdate(false, currentPercentage, None);
      }
    }

    /** formatProgressMessage for a step: the replicate is shown only when there are several. */
    function FormatProgressMessage(percentage: real, currentStepInReplicate: int, replicate: int): (m: Message)
      reads this
      ensures m.StepMessage? && m.percentage == percentage && m.step == currentStepInReplicate
      ensures m.replicate.None? <==> totalReplicates == 1
    {
      if totalReplicates == 1 then StepMessage(percentage, currentStepInReplicate, totalStepsPerReplicate, None)
      else StepMessage(percentage, currentStepInReplicate, totalStepsPerReplicate, Some((replicate, totalReplicates)))
    }

    /**
     * updateReplicateCompleted: always reports the completed share of the run, moves on to the next
     * replicate and restarts the step filter from the completion.
     */
    method UpdateReplicateCompleted(completedReplicateNumber: int) returns (u: ProgressUpdate)
      requires Valid()
      modifies `totalCompletedSteps, `currentReplicate, `lastReportedStep, `lastReportedPercentage
      ensures u.shouldReport
      ensures u.percentage == Percentage(completedReplicateNumber * totalStepsPerReplicate, totalStepsPerReplicate, totalReplicates)
      ensures totalCompletedSteps == completedReplicateNumber * totalStepsPerReplicate
      ensures currentReplicate == completedReplicateNumber + 1
      ensures lastReportedStep == -1 && lastReportedPercentage == u.percentage
      ensures u.message == Some(if totalReplicates == 1 then SimulationCompleted(u.percentage)
        else ReplicateCompleted(u.percentage, completedReplicateNumber, totalReplicates))
    {
      totalCompletedSteps := completedReplicateNumber * totalStepsPerReplicate;
      currentReplicate := completedReplicateNumber + 1;
      var currentPercentage := totalCompletedSteps as real / totalStepsAcrossReplicates as real * 100.0;
      var message;
      if totalReplicates == 1 {
        message := SimulationCompleted(currentPercentage);
      } else {
        message := ReplicateCompleted(currentPercentage, completedReplicateNumber, totalReplicates);
      }
      lastReportedStep := -1;
      lastReportedPercentage := currentPercentage;
      return ProgressUpdate(true, currentPercentage, Some(message));
    }
  }

  /** A calculator that was never told of a report reports its first update. */
  lemma FirstUpdateReports(currentPercentage: real, currentStep: int)
    ensures ShouldReport(-1.0, -1, currentPercentage, currentStep)
  {
  }

  /**
   * After replicate n completes, step s of replicate n + 1 is s steps past the last report, so it
   * is reported when those steps are at least 5% of the run, or at least 1% once s >= 9.
   */
  lemma AfterCompletion(n: int, s: int, stepsPerReplicate: int, replicates: int)
    requires stepsPerReplicate > 0 && replicates > 0
    ensures var last := Percentage(n * stepsPerReplicate, stepsPerReplicate, replicates);
      var now := Percentage(((n + 1) - 1) * stepsPerReplicate + s, stepsPerReplicate, replicates);
      var gain := Percentage(s, stepsPerReplicate, replicates);
      now - last == gain &&
      (last >= 0.0 ==> (ShouldReport(last, -1, now, s) <==>
        gain >= PROGRESS_REPORT_THRESHOLD || (s + 1 >= MIN_STEP_INTERVAL && gain >= MIN_PERCENTAGE_INTERVAL)))
  {
    var total := (stepsPerReplicate * replicates) as real;
    assert ((n + 1) - 1) * stepsPerReplicate + s == n * stepsPerReplicate + s;
    assert (n * stepsPerReplicate + s) as real / total * 100.0 ==
      (n * stepsPerReplicate) as real / total * 100.0 + s as real / total * 100.0;
  }

  /** The ProgressCalculator constructor: IllegalArgumentException for a non-positive count. */
  method NewProgressCalculator(totalStepsPerReplicate: int, totalReplicates: int) returns (r: Result<ProgressCalculator>)
    ensures r.Failure? <==> totalStepsPerReplicate <= 0 || totalReplicates <= 0
    ensures r.Failure? ==> r.error == Error(IllegalArgument,
      if totalStepsPerReplicate <= 0 then "Total steps per replicate must be positive" else "Total replicates must be positive")
    ensures r.Success? ==> (
      fresh(r.value) && r.value.Valid() &&
      r.value.totalStepsPerReplicate == totalStepsPerReplicate && r.value.totalReplicates == totalReplicates &&
      r.value.lastReportedPercentage < 0.0 && r.value.currentReplicate == 1)
  {
    if totalStepsPerReplicate <= 0 {
      return Failure(Error(IllegalArgument, "Total steps per replicate must be positive"));
    }
    if totalReplicates <= 0 {
      return Failure(Error(IllegalArgument, "Total replicates must be positive"));
    }
    var calculator := new ProgressCalculator(totalStepsPerReplicate, totalReplicates);
    return Success(calculator);
  }
}
