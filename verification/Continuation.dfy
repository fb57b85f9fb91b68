/**
 One resumption of a saga (CooperationContinuation.ts): which user callback runs, what it is given, and what its outcome
 makes of the run.
 */
module Continuation {
  import opened Options
  import opened RollbackPlan

  datatype NextStep = Continue | Repeat | GoTo(stepIndex: int)

  datatype SuspensionPoint =
    | BeforeFirstStep(firstStep: string)
    | BetweenSteps(previousStep: string, nextStep: string)
    | AfterLastStep(lastStep: string)

  datatype LastStepResult = SuccessfullyInvoked | SuccessfullyRolledBack | ChildFailed(nextStep: NextStep)

  /** Rethrown: Scoop's own bookkeeping failed, the tick is retried and the run stays where it was. */
  datatype Result = Suspend(nextStep: NextStep) | Success | Failure | Rethrown

  /** A call of user code. */
  datatype Call =
    | Invoke(step: string, stepIteration: nat)
    | Rollback(step: string, handler: Option<nat>)
    | HandleChildFailures(step: string, stepIteration: nat, handlerIteration: nat, nextStep: NextStep)

  datatype Outcome = Returned(nextStep: NextStep) | Threw | InfrastructureFailed

  /** giveUpIfNecessary: carry on, throw GaveUpException, or fail to find out. */
  datatype GiveUp = CarryOn | GaveUp | Unknown

  // ---------------------------------------------------------------- what one resumption does

  function CurrentStep(point: SuspensionPoint, input: LastStepResult): string {
    match point
    case BeforeFirstStep(firstStep) => firstStep
    case BetweenSteps(previousStep, nextStep) => if input.ChildFailed? then previousStep else nextStep
    case AfterLastStep(lastStep) => lastStep
  }

  /** The callback a resumption runs if nothing makes it give up first. */
  function CallFor(point: SuspensionPoint, input: LastStepResult, stepIteration: nat, handler: Option<nat>): Option<Call> {
    var step := CurrentStep(point, input);
    match input
    case ChildFailed(nextStep) => Some(HandleChildFailures(step, stepIteration, Incremented(handler), nextStep))
    case SuccessfullyInvoked => if point.AfterLastStep? then None else Some(Invoke(step, stepIteration))
    case SuccessfullyRolledBack => if point.AfterLastStep? then None else Some(Rollback(step, handler))
  }

  predicate ValidNextStep(nextStep: NextStep, stepCount: nat) {
    nextStep.GoTo? ==> 0 <= nextStep.stepIndex < stepCount
  }

  /** A callback's outcome as a result; rollback callbacks return nothing and always continue. */
  function ResultOf(call: Option<Call>, user: Call -> Outcome, stepCount: nat): Result {
    if call.None? then Success
    else
      match user(call.value)
      case InfrastructureFailed => Rethrown
      case Threw => Failure
      case Returned(nextStep) =>
        if call.value.Rollback? then Suspend(Continue)
        else if ValidNextStep(nextStep, stepCount) then Suspend(nextStep)
        else Failure
  }

  function CheckedAfter(result: Result, after: GiveUp): Result {
    if result.Failure? || result.Rethrown? || after.CarryOn? then result
    else if after.GaveUp? then Failure
    else Rethrown
  }

  function ResumedResult(point: SuspensionPoint, input: LastStepResult, stepIteration: nat, handler: Option<nat>,
                         user: Call -> Outcome, stepCount: nat, before: GiveUp, after: GiveUp): Result
  {
    if before.CarryOn?
    then CheckedAfter(ResultOf(CallFor(point, input, stepIteration, handler), user, stepCount), after)
    else if before.GaveUp? then Failure
    else Rethrown
  }

  /** What giving up, or not being able to find out, makes of a callback that went well. */
  function Unless(check: GiveUp, result: Result): Result {
    match check
    case CarryOn => result
    case GaveUp => Failure
    case Unknown => Rethrown
  }

  /**
   How one resumption ends.  Giving up before the callback comes first; what the callback throws stands, whatever the check
   behind it says; a jump to a step that is not there is a failure; a rollback always goes on to the next entry.
   */
  lemma EndsAs(point: SuspensionPoint, input: LastStepResult, stepIteration: nat, handler: Option<nat>,
               user: Call -> Outcome, stepCount: nat, before: GiveUp, after: GiveUp)
    ensures var result := ResumedResult(point, input, stepIteration, handler, user, stepCount, before, after);
            var call := CallFor(point, input, stepIteration, handler);
            result
            == if !before.CarryOn? then Unless(before, Failure)
               else if call.None? then Unless(after, Success)
               else
                 match user(call.value)
                 case InfrastructureFailed => Rethrown
                 case Threw => Failure
                 case Returned(GoTo(index)) =>
                   if call.value.Rollback? then Unless(after, Suspend(Continue))
                   else if index < 0 || index >= stepCount then Failure
                   else Unless(after, Suspend(GoTo(index)))
                 case Returned(nextStep) => Unless(after, Suspend(if call.value.Rollback? then Continue else nextStep))
  {}

  class CooperationContinuation {
    const suspensionPoint: SuspensionPoint
    const stepCount: nat
    const stepIteration: nat
    var currentStep: string
    var handlerIteration: Option<nat>
    /** Every callback made so far; the callbacks themselves are user code. */
    var calls: seq<Call>

    constructor (suspensionPoint: SuspensionPoint, stepCount: nat, stepIteration: nat, handlerIteration: Option<nat>)
      ensures this.suspensionPoint == suspensionPoint && this.stepCount == stepCount
      ensures this.stepIteration == stepIteration && this.handlerIteration == handlerIteration && calls == []
    {
      this.suspensionPoint, this.stepCount, this.stepIteration := suspensionPoint, stepCount, stepIteration;
      this.handlerIteration, this.currentStep, this.calls := handlerIteration, "", [];
    }

    method RunUser(call: Call, user: Call -> Outcome) returns (outcome: Outcome)
      modifies this`calls
      ensures calls == old(calls) + [call] && outcome == user(call)
    {
      calls := calls + [call];
      outcome := user(call);
    }

    /** resume: a run that is past its last step succeeds without running the step. */
    method Resume(call: Call, user: Call -> Outcome) returns (result: Result)
      requires call.Invoke? || call.Rollback?
      modifies this`calls
      ensures result == ResultOf(if suspensionPoint.AfterLastStep? then None else Some(call), user, stepCount)
      ensures calls == if suspensionPoint.AfterLastStep? then old(calls) else old(calls) + [call]
    {
      if suspensionPoint.AfterLastStep? {
        return Success;
      }
      var outcome := RunUser(call, user);
      match outcome {
        case InfrastructureFailed => result := Rethrown;
        case Threw => result := Failure;
        case Returned(returned) =>
          var nextStep := if call.Rollback? then Continue else returned;
          result := if ValidNextStep(nextStep, stepCount) then Suspend(nextStep) else Failure;
      }
    }

    method HandleFailuresOrResume(input: LastStepResult, user: Call -> Outcome) returns (result: Result)
      requires currentStep == CurrentStep(suspensionPoint, input)
      modifies this`calls, this`handlerIteration
      ensures var call := CallFor(suspensionPoint, input, stepIteration, old(handlerIteration));
              && result == ResultOf(call, user, stepCount)
              && calls == old(calls) + (if call.None? then [] else [call.value])
      ensures handlerIteration
              == if input.ChildFailed? then Some(Incremented(old(handlerIteration))) else old(handlerIteration)
    {
      match input {
        case ChildFailed(nextStep) =>
          var incremented := Incremented(handlerIteration);
          handlerIteration := Some(incremented);
          var outcome := RunUser(HandleChildFailures(currentStep, stepIteration, incremented, nextStep), user);
          match outcome {
            case InfrastructureFailed => result := Rethrown;
            case Threw => result := Failure;
            case Returned(chosen) => result := if ValidNextStep(chosen, stepCount) then Suspend(chosen) else Failure;
          }
        case SuccessfullyInvoked =>
          result := Resume(Invoke(currentStep, stepIteration), user);
        case SuccessfullyRolledBack =>
          result := Resume(Rollback(currentStep, handlerIteration), user);
      }
    }

    /** resumeWith and resumeCoroutine: choose the step, check for giving up, run, check again. */
    method ResumeWith(input: LastStepResult, user: Call -> Outcome, before: GiveUp, after: GiveUp)
      returns (result: Result)
      modifies this
      ensures result == ResumedResult(suspensionPoint, input, stepIteration, old(handlerIteration), user, stepCount,
                                      before, after)
      ensures currentStep == CurrentStep(suspensionPoint, input)
      ensures handlerIteration == if before.CarryOn? && input.ChildFailed? then Some(Incremented(old(handlerIteration)))
                                  else old(handlerIteration)
      ensures calls == old(calls)
                       + (var call := CallFor(suspensionPoint, input, stepIteration, old(handlerIteration));
                          if before.CarryOn? && call.Some? then [call.value] else [])
    {
      match suspensionPoint {
        case BeforeFirstStep(firstStep) => currentStep := firstStep;
        case BetweenSteps(previousStep, nextStep) =>
          if input.ChildFailed? { currentStep := previousStep; } else { currentStep := nextStep; }
        case AfterLastStep(lastStep) => currentStep := lastStep;
      }
      match before {
        case GaveUp => return Failure;
        case Unknown => return Rethrown;
        case CarryOn =>
      }
      result := HandleFailuresOrResume(input, user);
      if result.Suspend? || result.Success? {
        match after {
          case GaveUp => result := Failure;
          case Unknown => result := Rethrown;
          case CarryOn =>
        }
      }
    }
  }
}
