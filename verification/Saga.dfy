/**
 A saga between ticks (EventLoop.ts, HappyPathContinuation.ts, RollbackPathContinuation.ts): its SUSPENDED rows are
 decoded into a position, one step runs, and the outcome is encoded as the next row.
 */
module Saga {
  import opened Options
  import opened RollbackPlan
  import opened Continuation

  // ---------------------------------------------------------------- saga definitions

  datatype Steps = Definition(steps: seq<string>)

  /** The DistributedCoroutine constructor: steps exist and have unique names. */
  predicate WellFormed(saga: Steps) {
    |saga.steps| > 0 && forall i, j :: 0 <= i < j < |saga.steps| ==> saga.steps[i] != saga.steps[j]
  }

  /** A saga as the constructor lets it through. */
  type Definition = saga: Steps | WellFormed(saga) witness Definition([""])

  function IndexOf(steps: seq<string>, name: string): (i: Option<nat>)
    ensures i.Some? ==> i.value < |steps| && steps[i.value] == name
    ensures i.None? <==> name !in steps
    ensures i.Some? ==> forall j :: 0 <= j < i.value ==> steps[j] != name
  {
    if steps == [] then None
    else if steps[0] == name then Some(0)
    else
      var rest := IndexOf(steps[1..], name);
      if rest.None? then None else Some(rest.value + 1)
  }

  lemma IndexOfStep(saga: Definition, i: nat)
    requires i < |saga.steps|
    ensures IndexOf(saga.steps, saga.steps[i]) == Some(i)
  {}

  // ---------------------------------------------------------------- decoding

  /** A SUSPENDED row; a run's rows are kept most recent first. */
  datatype Suspended = Suspended(step: string, nextStep: Option<nat>, handler: Option<nat>, at: int)

  datatype SuspensionState =
    | NotSuspendedYet
    | SuspendedBetweenSteps(completedStep: string, nextStep: string, handler: Option<nat>)
    | LastStepFinished(completedStep: string, handler: Option<nat>)
    | SuspendedAfterStepRollback(completedRollbackStep: string, handler: Option<nat>)

  datatype RollbackState =
    | Gucci
    | SuccessfullyRolledBackLastStep
    | ChildrenFailedWhileRollingBackLastStep
    | ChildrenFailedAndSuccessfullyRolledBack
    | ChildrenFailedAndFailedToRollBack

  /** What the final select reports besides the rows. */
  datatype Failures = Failures(childRolledBack: bool, childRollbackFailed: bool, rollingBack: bool)

  function RollbackStateOf(f: Failures): RollbackState {
    if f.childRollbackFailed
    then if f.rollingBack then ChildrenFailedWhileRollingBackLastStep else ChildrenFailedAndFailedToRollBack
    else if f.rollingBack then SuccessfullyRolledBackLastStep
    else if f.childRolledBack then ChildrenFailedAndSuccessfullyRolledBack
    else Gucci
  }

  predicate MeRollingBack(state: RollbackState) {
    state == SuccessfullyRolledBackLastStep || state == ChildrenFailedWhileRollingBackLastStep
  }

  datatype Decoded = Decoded(state: SuspensionState, stepIteration: nat) | DecodeError

  /** How many of the most recent normal suspensions, without interruption, are of this step. */
  function Streak(rows: seq<Suspended>, step: string): nat {
    if rows == [] then 0
    else if rows[0].handler.Some? then Streak(rows[1..], step)
    else if rows[0].step == step then 1 + Streak(rows[1..], step)
    else 0
  }

  /** The stepIteration loop: walk the rows without handler iteration until one is of another step. */
  method CountStreak(rows: seq<Suspended>, step: string) returns (stepIteration: nat)
    ensures stepIteration == Streak(rows, step)
  {
    stepIteration := 0;
    for i := 0 to |rows|
      invariant stepIteration + Streak(rows[i..], step) == Streak(rows, step)
    {
      assert rows[i..][1..] == rows[i + 1..];
      if rows[i].handler.None? {
        if rows[i].step == step {
          stepIteration := stepIteration + 1;
        } else {
          break;
        }
      }
    }
  }

  function Decode(saga: Definition, rows: seq<Suspended>, rollingBack: bool): Decoded {
    if rows == [] then Decoded(NotSuspendedYet, 0)
    else
      var last := rows[0];
      if last.nextStep.Some? && last.nextStep.value >= |saga.steps| then DecodeError
      else
        var stepIteration := if last.nextStep.Some? then Streak(rows, saga.steps[last.nextStep.value]) else 0;
        if rollingBack && last.step !in saga.steps
        then Decoded(SuspendedAfterStepRollback(last.step, last.handler), stepIteration)
        else if last.nextStep.Some?
        then Decoded(SuspendedBetweenSteps(last.step, saga.steps[last.nextStep.value], last.handler), stepIteration)
        else Decoded(LastStepFinished(last.step, last.handler), stepIteration)
  }

  // ---------------------------------------------------------------- building the continuation

  /** A continuation's constructor arguments, or the error its builder throws. */
  datatype Built = Built(point: SuspensionPoint, stepIteration: nat, handler: Option<nat>) | BuildError

  function BuildForward(saga: Definition, d: Decoded): Built
    requires d.Decoded?
  {
    match d.state
    case NotSuspendedYet => Built(BeforeFirstStep(saga.steps[0]), 0, None)
    case LastStepFinished(completed, handler) =>
      Built(AfterLastStep(saga.steps[|saga.steps| - 1]), d.stepIteration, handler)
    case SuspendedBetweenSteps(completed, next, handler) =>
      if completed in saga.steps && next in saga.steps
      then Built(BetweenSteps(completed, next), d.stepIteration, handler)
      else BuildError
    case SuspendedAfterStepRollback(_, _) => BuildError
  }

  function Prefix(saga: Definition): string {
    FreshPrefix(saga.steps, PREFIX)
  }

  function Suffix(saga: Definition): string {
    FreshSuffix(saga.steps, SUFFIX)
  }

  function Executed(rows: seq<Suspended>): (instances: seq<Instance>)
    ensures |instances| == |rows|
    ensures forall i :: 0 <= i < |rows| ==> instances[i] == Instance(rows[i].step, rows[i].handler, rows[i].at)
  {
    seq(|rows|, i requires 0 <= i < |rows| => Instance(rows[i].step, rows[i].handler, rows[i].at))
  }

  /** The plan rebuilt from all suspended rows of the run. */
  function PlanOf(saga: Definition, rows: seq<Suspended>): seq<PlanStep> {
    Plan(Prefix(saga), Suffix(saga), Originals(Prefix(saga), Executed(rows)))
  }

  /** createSentinelRollbackStep: the self rollback of a made-up first execution. */
  function Sentinel(saga: Definition, step: string): string {
    SelfName(Prefix(saga), step, 0, None)
  }

  function BuildRollback(saga: Definition, rows: seq<Suspended>, d: Decoded): Built
    requires d.Decoded?
  {
    var plan := PlanOf(saga, rows);
    match d.state
    case NotSuspendedYet => Built(AfterLastStep(Sentinel(saga, saga.steps[0])), 0, None)
    case SuspendedBetweenSteps(completed, _, _) => RollbackInitiated(saga, plan, completed)
    case LastStepFinished(completed, _) => RollbackInitiated(saga, plan, completed)
    case SuspendedAfterStepRollback(done, handler) =>
      var position := Position(plan, done);
      if position.None? then BuildError
      else if position.value == |plan| - 1 then Built(AfterLastStep(plan[position.value].name), 0, handler)
      else Built(BetweenSteps(plan[position.value].name, plan[position.value + 1].name), 0, handler)
  }

  function RollbackInitiated(saga: Definition, plan: seq<PlanStep>, completed: string): Built {
    if plan == [] then Built(AfterLastStep(Sentinel(saga, completed)), 0, None)
    else Built(BeforeFirstStep(plan[0].name), 0, None)
  }

  // ---------------------------------------------------------------- the input, the outcome, the row

  /** Where a NextStep leads from step `index`; None is past the last step. */
  function Target(saga: Definition, index: nat, nextStep: NextStep): Option<int> {
    match nextStep
    case Continue => if index + 1 >= |saga.steps| then None else Some(index + 1)
    case Repeat => Some(index)
    case GoTo(stepIndex) => Some(stepIndex)
  }

  /** The NextStep handed to handleChildFailures, reconstructed from the suspension state. */
  function RebuiltNextStep(saga: Definition, state: SuspensionState): NextStep {
    if !state.SuspendedBetweenSteps? then Continue
    else
      var completed := IndexOf(saga.steps, state.completedStep);
      var next := IndexOf(saga.steps, state.nextStep);
      if next == completed then Repeat
      else if next.Some? && next.value == (if completed.Some? then completed.value + 1 else 0) then Continue
      else GoTo(if next.Some? then next.value else -1)
  }

  function InputFor(saga: Definition, state: SuspensionState, rollback: RollbackState): LastStepResult {
    match rollback
    case Gucci => SuccessfullyInvoked
    case SuccessfullyRolledBackLastStep => SuccessfullyRolledBack
    case _ => ChildFailed(RebuiltNextStep(saga, state))
  }

  /** markSuspended: next_step is written only for user-defined steps. */
  function NextStepColumn(saga: Definition, step: string, nextStep: NextStep): (column: Option<int>) {
    var index := IndexOf(saga.steps, step);
    if index.None? then None else Target(saga, index.value, nextStep)
  }

  /** What one tick does to a run. */
  datatype Tick =
    | WroteSuspended(row: Suspended)
    | WroteCommitted
    | WroteRollingBack
    | WroteRolledBack
    | WroteRollbackFailed
    | Nothing

  function AsNat(i: Option<int>): Option<nat> {
    if i.Some? && i.value >= 0 then Some(i.value) else None
  }

  function Written(saga: Definition, rollback: RollbackState, step: string, handler: Option<nat>, at: int, result: Result)
    : Tick
  {
    match result
    case Success => if MeRollingBack(rollback) then WroteRolledBack else WroteCommitted
    case Failure => if MeRollingBack(rollback) then WroteRollbackFailed else WroteRollingBack
    case Suspend(nextStep) => WroteSuspended(Suspended(step, AsNat(NextStepColumn(saga, step, nextStep)), handler, at))
    case Rethrown => Nothing
  }

  /** The decoded run, ready to resume. */
  datatype Prepared = Prepared(built: Built, input: LastStepResult) | NotPrepared

  function Prepare(saga: Definition, rows: seq<Suspended>, failures: Failures): Prepared {
    var rollback := RollbackStateOf(failures);
    var d := Decode(saga, rows, MeRollingBack(rollback));
    if d.DecodeError? then NotPrepared
    else
      var built := if MeRollingBack(rollback) then BuildRollback(saga, rows, d) else BuildForward(saga, d);
      if built.BuildError? then NotPrepared else Prepared(built, InputFor(saga, d.state, rollback))
  }

  /** The callback a tick runs, if it gets that far. */
  function TickCall(saga: Definition, rows: seq<Suspended>, failures: Failures): Option<Call> {
    var p := Prepare(saga, rows, failures);
    if p.NotPrepared? then None
    else CallFor(p.built.point, p.input, p.built.stepIteration, p.built.handler)
  }

  /** One tick of a run, as a function of its rows, the failures reported, and what user code does. */
  function TickOf(saga: Definition, rows: seq<Suspended>, failures: Failures, user: Call -> Outcome, before: GiveUp,
                  after: GiveUp, at: int): Tick
  {
    var p := Prepare(saga, rows, failures);
    if p.NotPrepared? then Nothing
    else
      var Built(point, stepIteration, handler) := p.built;
      var result := ResumedResult(point, p.input, stepIteration, handler, user, |saga.steps|, before, after);
      var handler' := if before.CarryOn? && p.input.ChildFailed? then Some(Incremented(handler)) else handler;
      Written(saga, RollbackStateOf(failures), CurrentStep(point, p.input), handler', at, result)
  }

  /** resumeCoroutine as the event loop runs it: build a continuation, resume it, write what its final fields say. */
  method ResumeRun(saga: Definition, rows: seq<Suspended>, failures: Failures, user: Call -> Outcome, before: GiveUp,
                   after: GiveUp, at: int) returns (tick: Tick, calls: seq<Call>)
    ensures tick == TickOf(saga, rows, failures, user, before, after, at)
    ensures calls == if before.CarryOn? && TickCall(saga, rows, failures).Some?
                     then [TickCall(saga, rows, failures).value] else []
  {
    var prepared := Prepare(saga, rows, failures);
    if prepared.NotPrepared? {
      return Nothing, [];
    }
    var Built(point, stepIteration, handler) := prepared.built;
    var continuation := new CooperationContinuation(point, |saga.steps|, stepIteration, handler);
    var result := continuation.ResumeWith(prepared.input, user, before, after);
    tick := Written(saga, RollbackStateOf(failures), continuation.currentStep, continuation.handlerIteration, at, result);
    calls := continuation.calls;
  }
}
