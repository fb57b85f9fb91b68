/**
 The rows of one run as a whole, forward part and rollback part, and what one tick adds to them; for any user code and
 any give-up decision.
 */
module RunHistory {
  import opened Options
  import opened RollbackPlan
  import opened Continuation
  import opened Saga
  import opened SagaProofs

  /** The rows from the latest forward suspension on (rows are kept most recent first). */
  function ForwardPart(saga: Definition, rows: seq<Suspended>): (part: seq<Suspended>) {
    rows[Undone(saga, rows)..]
  }

  /** How many rows the rollback has written. */
  function Undone(saga: Definition, rows: seq<Suspended>): (n: nat)
    ensures n <= |rows|
  {
    if rows == [] || rows[0].step in saga.steps then 0 else 1 + Undone(saga, rows[1..])
  }

  lemma ForwardPartAt(saga: Definition, rows: seq<Suspended>, k: nat) returns (i: nat)
    requires k < |ForwardPart(saga, rows)|
    ensures i == k + |rows| - |ForwardPart(saga, rows)| < |rows| && rows[i] == ForwardPart(saga, rows)[k]
  {
    i := k + |rows| - |ForwardPart(saga, rows)|;
  }

  function RollbackPart(saga: Definition, rows: seq<Suspended>): seq<Suspended> {
    rows[..Undone(saga, rows)]
  }

  /** Forward rows name steps of the saga, rollback rows carry the rollback prefix. */
  ghost predicate Sound(saga: Definition, rows: seq<Suspended>) {
    && ForwardRows(saga, ForwardPart(saga, rows))
    && forall i :: 0 <= i < |RollbackPart(saga, rows)| ==> Prefix(saga) <= RollbackPart(saga, rows)[i].step
  }

  function PlanFor(saga: Definition, rows: seq<Suspended>): seq<PlanStep> {
    Plan(Prefix(saga), Suffix(saga), Executed(ForwardPart(saga, rows)))
  }

  /** The entry the rollback stands before; None if its latest row names no entry. */
  function Standing(saga: Definition, rows: seq<Suspended>, plan: seq<PlanStep>): (n: Option<nat>)
    ensures n.Some? ==> n.value <= |plan|
  {
    if RollbackPart(saga, rows) == [] then Some(0)
    else
      var position := Position(plan, rows[0].step);
      if position.None? then None else Some(position.value + 1)
  }

  /** The first suspension of the rollback was not written by a failure handler. */
  predicate CleanStart(saga: Definition, rows: seq<Suspended>) {
    var part := RollbackPart(saga, rows);
    part != [] ==> part[|part| - 1].handler.None?
  }

  // ---------------------------------------------------------------- adding a row

  lemma AddForwardRow(saga: Definition, rows: seq<Suspended>, row: Suspended)
    requires Sound(saga, rows) && RollbackPart(saga, rows) == []
    requires row.step in saga.steps && (row.nextStep.Some? ==> row.nextStep.value < |saga.steps|)
    ensures Sound(saga, [row] + rows) && RollbackPart(saga, [row] + rows) == []
  {
    hide FreshPrefix;
    assert ForwardPart(saga, rows) == rows;
    var grown := [row] + rows;
    StartsForward(saga, grown);
    hide ForwardPart, RollbackPart;
    assert forall i :: 0 <= i < |grown| ==> grown[i] == if i == 0 then row else rows[i - 1];
  }

  lemma StartsForward(saga: Definition, rows: seq<Suspended>)
    requires rows != [] && rows[0].step in saga.steps
    ensures ForwardPart(saga, rows) == rows && RollbackPart(saga, rows) == []
  {}

  lemma SyntheticIsNoStep(saga: Definition, name: string)
    requires Prefix(saga) <= name
    ensures name !in saga.steps
  {
    assert !SomeStartsWith(saga.steps, Prefix(saga));
  }

  lemma ForwardPartSkips(saga: Definition, rows: seq<Suspended>, row: Suspended)
    requires row.step !in saga.steps
    ensures ForwardPart(saga, [row] + rows) == ForwardPart(saga, rows)
  {
    var grown := [row] + rows;
    assert grown[0] == row;
    assert grown[1..] == rows;
  }

  lemma RollbackRowJoinsRollbackPart(saga: Definition, rows: seq<Suspended>, row: Suspended)
    requires row.step !in saga.steps
    ensures ForwardPart(saga, [row] + rows) == ForwardPart(saga, rows)
    ensures RollbackPart(saga, [row] + rows) == [row] + RollbackPart(saga, rows)
  {
    ForwardPartSkips(saga, rows, row);
    hide ForwardPart;
  }

  lemma AddRollbackRow(saga: Definition, rows: seq<Suspended>, row: Suspended)
    requires Sound(saga, rows) && Prefix(saga) <= row.step
    ensures Sound(saga, [row] + rows)
    ensures ForwardPart(saga, [row] + rows) == ForwardPart(saga, rows)
    ensures RollbackPart(saga, [row] + rows) == [row] + RollbackPart(saga, rows)
    ensures CleanStart(saga, [row] + rows)
            <==> if RollbackPart(saga, rows) == [] then row.handler.None? else CleanStart(saga, rows)
  {
    hide ForwardPart, ForwardRows;
    SyntheticIsNoStep(saga, row.step);
    RollbackRowJoinsRollbackPart(saga, rows, row);
  }

  lemma StandingAfter(saga: Definition, rows: seq<Suspended>, row: Suspended, plan: seq<PlanStep>, j: nat)
    requires Sound(saga, rows) && Prefix(saga) <= row.step
    requires j < |plan| && row.step == plan[j].name
    ensures Standing(saga, [row] + rows, plan).Some? && Standing(saga, [row] + rows, plan).value <= j + 1
  {
    AddRollbackRow(saga, rows, row);
    var position := Position(plan, row.step);
    assert position.Some? && position.value <= j;
  }

  lemma PlanOfIsPlanFor(saga: Definition, rows: seq<Suspended>)
    requires Sound(saga, rows)
    ensures PlanOf(saga, rows) == PlanFor(saga, rows)
  {
    assert rows == RollbackPart(saga, rows) + ForwardPart(saga, rows);
    OriginalsOfParts(saga, RollbackPart(saga, rows), ForwardPart(saga, rows));
  }

  // ---------------------------------------------------------------- one tick

  lemma ForwardTick(saga: Definition, rows: seq<Suspended>, failures: Failures, user: Call -> Outcome, before: GiveUp,
                    after: GiveUp, at: int)
    requires Sound(saga, rows) && RollbackPart(saga, rows) == [] && !failures.rollingBack
    ensures var tick := TickOf(saga, rows, failures, user, before, after, at);
            && (tick.WroteSuspended? ==> Sound(saga, [tick.row] + rows) && RollbackPart(saga, [tick.row] + rows) == [])
            && !tick.WroteRolledBack? && !tick.WroteRollbackFailed?
  {
    hide Sound, TickOf, RollbackPart;
    ForwardTickNeverEndsRollback(saga, rows, failures, user, before, after, at);
    var tick := TickOf(saga, rows, failures, user, before, after, at);
    if tick.WroteSuspended? {
      ForwardStepIsUsers(saga, rows, failures, user, before, after, at);
      AddForwardRow(saga, rows, tick.row);
    }
  }

  lemma ForwardTickNeverEndsRollback(saga: Definition, rows: seq<Suspended>, failures: Failures, user: Call -> Outcome,
                                     before: GiveUp, after: GiveUp, at: int)
    requires !failures.rollingBack
    ensures !TickOf(saga, rows, failures, user, before, after, at).WroteRolledBack?
    ensures !TickOf(saga, rows, failures, user, before, after, at).WroteRollbackFailed?
  {
    hide Prepare, ResumedResult;
  }

  lemma ForwardStepIsUsers(saga: Definition, rows: seq<Suspended>, failures: Failures, user: Call -> Outcome,
                           before: GiveUp, after: GiveUp, at: int)
    requires !failures.rollingBack
    requires TickOf(saga, rows, failures, user, before, after, at).WroteSuspended?
    ensures var row := TickOf(saga, rows, failures, user, before, after, at).row;
            row.step in saga.steps && (row.nextStep.Some? ==> row.nextStep.value < |saga.steps|)
  {
    var p := Prepare(saga, rows, failures);
    assert CurrentStep(p.built.point, p.input) in saga.steps;
  }

  /** Where the rebuilt continuation of a rolling run stands. */
  lemma RollingBuilt(saga: Definition, rows: seq<Suspended>, plan: seq<PlanStep>)
    requires Sound(saga, rows) && plan == PlanFor(saga, rows)
    requires Decode(saga, rows, true).Decoded? && BuildRollback(saga, rows, Decode(saga, rows, true)).Built?
    ensures Standing(saga, rows, plan).Some?
    ensures var b := BuildRollback(saga, rows, Decode(saga, rows, true));
            && PointAt(plan, b.point, Standing(saga, rows, plan).value)
            && (RollbackPart(saga, rows) == [] ==> b.handler.None?)
            && forall input :: Prefix(saga) <= CurrentStep(b.point, input)
  {
    PlanOfIsPlanFor(saga, rows);
    PlanIsEmptyIff(Prefix(saga), Suffix(saga), Executed(ForwardPart(saga, rows)));
    forall i | 0 <= i < |plan| ensures Prefix(saga) <= plan[i].name {
      PlanNamesStartWithPrefix(Prefix(saga), Suffix(saga), Executed(ForwardPart(saga, rows)), i);
    }
    if RollbackPart(saga, rows) != [] {
      RollingInTheMiddle(saga, rows, plan);
    } else {
      RollingAtTheStart(saga, rows, plan);
    }
  }

  lemma RollingInTheMiddle(saga: Definition, rows: seq<Suspended>, plan: seq<PlanStep>)
    requires plan == PlanOf(saga, rows) && RollbackPart(saga, rows) != []
    requires rows[0].step !in saga.steps && forall i :: 0 <= i < |plan| ==> Prefix(saga) <= plan[i].name
    requires Decode(saga, rows, true).Decoded? && BuildRollback(saga, rows, Decode(saga, rows, true)).Built?
    ensures Standing(saga, rows, plan).Some?
    ensures var b := BuildRollback(saga, rows, Decode(saga, rows, true));
            && PointAt(plan, b.point, Standing(saga, rows, plan).value)
            && forall input :: Prefix(saga) <= CurrentStep(b.point, input)
  {
    var d := Decode(saga, rows, true);
    assert d.state == SuspendedAfterStepRollback(rows[0].step, rows[0].handler);
  }

  lemma RollingAtTheStart(saga: Definition, rows: seq<Suspended>, plan: seq<PlanStep>)
    requires plan == PlanOf(saga, rows) && ForwardRows(saga, rows) && (plan == [] <==> rows == [])
    requires forall i :: 0 <= i < |plan| ==> Prefix(saga) <= plan[i].name
    requires Decode(saga, rows, true).Decoded? && BuildRollback(saga, rows, Decode(saga, rows, true)).Built?
    ensures var b := BuildRollback(saga, rows, Decode(saga, rows, true));
            && PointAt(plan, b.point, 0) && b.handler.None?
            && forall input :: Prefix(saga) <= CurrentStep(b.point, input)
  {
    var d := Decode(saga, rows, true);
    assert rows != [] ==> d.state.SuspendedBetweenSteps? || d.state.LastStepFinished?;
  }

  /** A rolling run's next row, or its end. */
  ghost predicate RollingOutcome(saga: Definition, rows: seq<Suspended>, plan: seq<PlanStep>, failed: bool, tick: Tick) {
    var n := Standing(saga, rows, plan);
    && !tick.WroteCommitted? && !tick.WroteRollingBack?
    && (tick != Nothing ==> n.Some?)
    && (tick.WroteRolledBack? ==> n == Some(|plan|) && !failed)
    && (tick.WroteSuspended? ==>
          && Prefix(saga) <= tick.row.step
          && (!failed ==> n.value < |plan| && tick.row.step == plan[n.value].name
                          && (RollbackPart(saga, rows) == [] ==> tick.row.handler.None?))
          && (failed && plan != [] ==> tick.row.step == plan[if n.value == 0 then 0 else n.value - 1].name)
          && (failed ==> tick.row.handler.Some?))
  }

  lemma RollingTick(saga: Definition, rows: seq<Suspended>, plan: seq<PlanStep>, failures: Failures,
                    user: Call -> Outcome, before: GiveUp, after: GiveUp, at: int)
    requires Sound(saga, rows) && plan == PlanFor(saga, rows) && failures.rollingBack
    ensures RollingOutcome(saga, rows, plan, failures.childRollbackFailed,
                           TickOf(saga, rows, failures, user, before, after, at))
  {
    if Prepare(saga, rows, failures).Prepared? {
      RollingBuilt(saga, rows, plan);
      PreparedRollingTick(saga, rows, plan, failures, user, before, after, at);
    }
  }

  /** What TickOf writes for a rolling run, with the continuation's inner workings left out. */
  lemma RollingTickShape(saga: Definition, rows: seq<Suspended>, failures: Failures, user: Call -> Outcome,
                         before: GiveUp, after: GiveUp, at: int)
    requires failures.rollingBack
    requires Prepare(saga, rows, failures).Prepared? && Prepare(saga, rows, failures).built.Built?
    ensures var p := Prepare(saga, rows, failures);
            var tick := TickOf(saga, rows, failures, user, before, after, at);
            && !tick.WroteCommitted? && !tick.WroteRollingBack?
            && (p.input.ChildFailed? <==> failures.childRollbackFailed)
            && (!failures.childRollbackFailed ==> p.input == SuccessfullyRolledBack)
            && (tick.WroteRolledBack? ==> p.built.point.AfterLastStep? && !failures.childRollbackFailed)
            && (tick.WroteSuspended? ==>
                  && tick.row.step == CurrentStep(p.built.point, p.input)
                  && (failures.childRollbackFailed ==> tick.row.handler.Some?)
                  && (!failures.childRollbackFailed ==> tick.row.handler == p.built.handler
                                                        && !p.built.point.AfterLastStep?))
  {}

  lemma PreparedRollingTick(saga: Definition, rows: seq<Suspended>, plan: seq<PlanStep>, failures: Failures,
                            user: Call -> Outcome, before: GiveUp, after: GiveUp, at: int)
    requires failures.rollingBack
    requires var p := Prepare(saga, rows, failures);
             && p.Prepared? && p.built.Built? && Standing(saga, rows, plan).Some?
             && PointAt(plan, p.built.point, Standing(saga, rows, plan).value)
             && (RollbackPart(saga, rows) == [] ==> p.built.handler.None?)
             && forall input :: Prefix(saga) <= CurrentStep(p.built.point, input)
    ensures RollingOutcome(saga, rows, plan, failures.childRollbackFailed,
                           TickOf(saga, rows, failures, user, before, after, at))
  {
    RollingTickShape(saga, rows, failures, user, before, after, at);
  }

  /** The handler iteration a rollback carries along: none before its first row, then that of its latest row. */
  function RollingHandler(saga: Definition, rows: seq<Suspended>): Option<nat> {
    if RollbackPart(saga, rows) == [] then None else rows[0].handler
  }

  /**
   What a rolling run calls, and under which iteration it records that: the rollback of the entry it stands before, under the
   iteration carried along; nothing behind the last; told of a failed child, the failure handler of the entry before, under
   the next iteration, with step iteration 0.
   */
  lemma RollingCallIs(saga: Definition, rows: seq<Suspended>, plan: seq<PlanStep>, failures: Failures, user: Call -> Outcome,
                      before: GiveUp, after: GiveUp, at: int)
    requires Sound(saga, rows) && plan == PlanFor(saga, rows) && failures.rollingBack
    requires Prepare(saga, rows, failures).Prepared?
    ensures Standing(saga, rows, plan).Some? && Standing(saga, rows, plan).value <= |plan|
    ensures var n, handler, call :=
              Standing(saga, rows, plan).value, RollingHandler(saga, rows), TickCall(saga, rows, failures);
            if failures.childRollbackFailed then
              && call.Some? && call.value.HandleChildFailures? && call.value.stepIteration == 0
              && call.value.handlerIteration == Incremented(handler)
              && (plan != [] ==> call.value.step == plan[if n == 0 then 0 else n - 1].name)
            else call == if n < |plan| then Some(Rollback(plan[n].name, handler)) else None
    ensures var tick, handler := TickOf(saga, rows, failures, user, before, after, at), RollingHandler(saga, rows);
            tick.WroteSuspended? && before.CarryOn?
            ==> tick.row.handler == if failures.childRollbackFailed then Some(Incremented(handler)) else handler
  {
    hide PlanFor, Standing, Sound, RebuiltNextStep, PlanOf, NextStepColumn, FreshPrefix;
    RollingBuilt(saga, rows, plan);
    BuiltForRollback(saga, rows);
  }

  /** What a rollback's continuation is built with. */
  lemma BuiltForRollback(saga: Definition, rows: seq<Suspended>)
    requires Sound(saga, rows) && Decode(saga, rows, true).Decoded?
    requires BuildRollback(saga, rows, Decode(saga, rows, true)).Built?
    ensures var b := BuildRollback(saga, rows, Decode(saga, rows, true));
            b.stepIteration == 0 && b.handler == RollingHandler(saga, rows)
  {
    hide PlanOf, Sentinel, Position, Sound, Streak;
  }

  /** ROLLED_BACK is written behind the last entry of the plan, by a tick that was told of no failed child rollback. */
  lemma RolledBackMeansDone(saga: Definition, rows: seq<Suspended>, plan: seq<PlanStep>, failures: Failures,
                            user: Call -> Outcome, before: GiveUp, after: GiveUp, at: int)
    requires Sound(saga, rows) && plan == PlanFor(saga, rows)
    requires !failures.rollingBack ==> RollbackPart(saga, rows) == []
    requires TickOf(saga, rows, failures, user, before, after, at).WroteRolledBack?
    ensures Standing(saga, rows, plan) == Some(|plan|) && !failures.childRollbackFailed
  {
    if failures.rollingBack {
      RollingTick(saga, rows, plan, failures, user, before, after, at);
    } else {
      ForwardTick(saga, rows, failures, user, before, after, at);
    }
  }

  /** Told of a failed child rollback, a tick can only run a failure handler: it neither commits nor completes a rollback. */
  lemma FailedChildTick(saga: Definition, rows: seq<Suspended>, failures: Failures, user: Call -> Outcome, before: GiveUp,
                        after: GiveUp, at: int)
    requires failures.childRollbackFailed
    ensures var tick := TickOf(saga, rows, failures, user, before, after, at);
            && !tick.WroteCommitted? && !tick.WroteRolledBack?
            && (tick.WroteSuspended? ==> tick.row.handler.Some?)
  {
    hide Decode, BuildRollback, BuildForward, NextStepColumn, CurrentStep, RebuiltNextStep;
  }

  // ---------------------------------------------------------------- the histories forward ticks write

  function InstanceOf(row: Suspended): Instance {
    Instance(row.step, row.handler, row.at)
  }

  /** Forward rows as ticks write them: only the last step leaves without a next one. */
  ghost predicate EngineRows(saga: Definition, rows: seq<Suspended>) {
    && ForwardRows(saga, rows) && EngineHistory(Executed(rows))
    && forall i :: 0 <= i < |rows| && rows[i].nextStep.None? ==> rows[i].step == saga.steps[|saga.steps| - 1]
  }

  predicate FailureReported(failures: Failures) {
    failures.childRolledBack || failures.childRollbackFailed
  }

  function LastHandler(rows: seq<Suspended>): Option<nat> {
    if rows == [] then None else rows[0].handler
  }

  /** The row of a forward tick: a handler run of the step below it if a failure was reported, else an invocation. */
  ghost predicate ForwardRowOf(saga: Definition, rows: seq<Suspended>, failures: Failures, row: Suspended) {
    && row.step in saga.steps && (row.nextStep.Some? ==> row.nextStep.value < |saga.steps|)
    && (row.nextStep.None? ==> row.step == saga.steps[|saga.steps| - 1])
    && row.handler == (if FailureReported(failures) then Some(Incremented(LastHandler(rows))) else LastHandler(rows))
    && (FailureReported(failures) && rows != [] ==> row.step == rows[0].step)
  }

  lemma WrittenForwardRow(saga: Definition, step: string, handler: Option<nat>, at: int, nextStep: NextStep, row: Suspended)
    requires step in saga.steps && ValidNextStep(nextStep, |saga.steps|)
    requires row == Suspended(step, AsNat(NextStepColumn(saga, step, nextStep)), handler, at)
    ensures row.nextStep.Some? ==> row.nextStep.value < |saga.steps|
    ensures row.nextStep.None? ==> row.step == saga.steps[|saga.steps| - 1]
  {}

  /** Where a forward continuation stands, and whose handler it would run. */
  lemma ForwardBuilt(saga: Definition, rows: seq<Suspended>)
    requires EngineRows(saga, rows)
    requires Decode(saga, rows, false).Decoded? && BuildForward(saga, Decode(saga, rows, false)).Built?
    ensures var b := BuildForward(saga, Decode(saga, rows, false));
            && b.handler == LastHandler(rows)
            && (forall input :: CurrentStep(b.point, input) in saga.steps)
            && (rows != [] ==> forall next :: CurrentStep(b.point, ChildFailed(next)) == rows[0].step)
  {
    hide EngineHistory, Streak;
  }

  lemma ForwardTickWritesRow(saga: Definition, rows: seq<Suspended>, failures: Failures, user: Call -> Outcome,
                             before: GiveUp, after: GiveUp, at: int)
    requires EngineRows(saga, rows) && !failures.rollingBack
    requires TickOf(saga, rows, failures, user, before, after, at).WroteSuspended?
    ensures ForwardRowOf(saga, rows, failures, TickOf(saga, rows, failures, user, before, after, at).row)
  {
    hide EngineRows, Decode, BuildForward, NextStepColumn, RebuiltNextStep;
    var p := Prepare(saga, rows, failures);
    ForwardBuilt(saga, rows);
    var row := TickOf(saga, rows, failures, user, before, after, at).row;
    var handler := if p.input.ChildFailed? then Some(Incremented(p.built.handler)) else p.built.handler;
    var result := ResumedResult(p.built.point, p.input, p.built.stepIteration, p.built.handler, user, |saga.steps|, before,
                                after);
    WrittenForwardRow(saga, CurrentStep(p.built.point, p.input), handler, at, result.nextStep, row);
  }

  lemma RowExtendsHistory(saga: Definition, rows: seq<Suspended>, failures: Failures, row: Suspended)
    requires EngineRows(saga, rows) && ForwardRowOf(saga, rows, failures, row)
    ensures EngineRows(saga, [row] + rows)
  {
    var grown := [row] + rows;
    var before, history := Executed(rows), Executed(grown);
    assert forall i :: 0 < i < |history| ==> history[i] == before[i - 1];
    forall i | 0 <= i < |history| - 1
      ensures HandlerRun(history[i], history[i + 1]) || history[i].handler == history[i + 1].handler
    {
      assert i > 0 ==> history[i] == before[i - 1] && history[i + 1] == before[i];
    }
  }

  /** Whatever failures are reported and whatever user code does, forward ticks write engine histories. */
  lemma ForwardTicksWriteEngineHistory(saga: Definition, rows: seq<Suspended>, failures: Failures, user: Call -> Outcome,
                                       before: GiveUp, after: GiveUp, at: int)
    requires EngineRows(saga, rows) && !failures.rollingBack
    ensures EngineRows(saga, [])
    ensures var tick := TickOf(saga, rows, failures, user, before, after, at);
            tick.WroteSuspended? ==> EngineRows(saga, [tick.row] + rows)
  {
    hide TickOf;
    var tick := TickOf(saga, rows, failures, user, before, after, at);
    if tick.WroteSuspended? {
      ForwardTickWritesRow(saga, rows, failures, user, before, after, at);
      RowExtendsHistory(saga, rows, failures, tick.row);
    }
  }

  /**
   A child's ROLLING_BACK stays in the log, so a failure once reported is reported on every later resume.  As long as that
   holds, only handler runs carry an iteration, and names never collide.
   */
  lemma PersistentReportsKeepNamesDistinct(saga: Definition, rows: seq<Suspended>, failures: Failures, row: Suspended)
    requires EngineRows(saga, rows) && OnlyHandlersCarryIterations(Executed(rows))
    requires ForwardRowOf(saga, rows, failures, row)
    requires LastHandler(rows).Some? ==> FailureReported(failures)
    requires rows == [] ==> !FailureReported(failures)
    ensures OnlyHandlersCarryIterations(Executed([row] + rows))
    ensures DistinctNames(Plan(Prefix(saga), Suffix(saga), Executed([row] + rows)))
  {
    RowExtendsHistory(saga, rows, failures, row);
    HandlerOnTop(rows, row);
    HandlerDisciplineKeepsNamesDistinct(saga.steps, Prefix(saga), Executed([row] + rows));
  }

  lemma HandlerOnTop(rows: seq<Suspended>, row: Suspended)
    requires OnlyHandlersCarryIterations(Executed(rows))
    requires row.handler.Some? ==> rows != [] && HandlerRun(InstanceOf(row), InstanceOf(rows[0]))
    ensures OnlyHandlersCarryIterations(Executed([row] + rows))
  {
    var before, history := Executed(rows), Executed([row] + rows);
    forall i | 0 <= i < |history| && history[i].handler.Some?
      ensures i + 1 < |history| && HandlerRun(history[i], history[i + 1])
    {
      if i > 0 {
        assert history[i] == before[i - 1];
        assert history[i + 1] == before[i];
      }
    }
  }

  lemma BuiltHandler(saga: Definition, rows: seq<Suspended>)
    requires Decode(saga, rows, false).Decoded? && BuildForward(saga, Decode(saga, rows, false)).Built?
    ensures BuildForward(saga, Decode(saga, rows, false)).handler == LastHandler(rows)
  {
    hide Streak;
  }

  /** Going forward and told of a failed child, a tick runs a failure handler, one iteration on, or starts the rollback. */
  lemma ReportedFailureTick(saga: Definition, rows: seq<Suspended>, failures: Failures, user: Call -> Outcome,
                            before: GiveUp, after: GiveUp, at: int)
    requires FailureReported(failures) && !failures.rollingBack
    ensures var tick := TickOf(saga, rows, failures, user, before, after, at);
            && (tick.WroteSuspended? || tick.WroteRollingBack? || tick.Nothing?)
            && (tick.WroteSuspended? ==> tick.row.handler == Some(Incremented(LastHandler(rows))))
  {
    hide Decode, BuildForward, NextStepColumn, CurrentStep, RebuiltNextStep;
    if Prepare(saga, rows, failures).Prepared? {
      BuiltHandler(saga, rows);
    }
  }
}
