/**
 The persisted saga is the loop its author wrote, and its rollback is the reverse of what ran: whole-run theorems about
 Saga.TickOf.
 */
module SagaProofs {
  import opened Options
  import opened RollbackPlan
  import opened Continuation
  import opened Saga

  const HEALTHY := Failures(false, false, false)

  /** The rows the stepIteration loop looks at: those not written by a failure handler. */
  function NormalRows(rows: seq<Suspended>): seq<Suspended> {
    if rows == [] then []
    else (if rows[0].handler.None? then [rows[0]] else []) + NormalRows(rows[1..])
  }

  /** The first n rows, and no more, are of this step. */
  predicate LongestRun(rows: seq<Suspended>, step: string, n: nat) {
    n <= |rows| && (forall i :: 0 <= i < n ==> rows[i].step == step) && (n < |rows| ==> rows[n].step != step)
  }

  /** stepIteration is the length of the longest run of the step at the top of the normal rows; handler runs are ignored. */
  lemma {:induction false} StreakIsLongestRun(rows: seq<Suspended>, step: string)
    ensures LongestRun(NormalRows(rows), step, Streak(rows, step))
  {
    if rows != [] {
      StreakIsLongestRun(rows[1..], step);
      var rest := NormalRows(rows[1..]);
      if rows[0].handler.None? {
        assert NormalRows(rows) == [rows[0]] + rest;
        assert forall i :: 0 < i < |NormalRows(rows)| ==> NormalRows(rows)[i] == rest[i - 1];
      } else {
        assert NormalRows(rows) == rest;
      }
    }
  }

  // ---------------------------------------------------------------- the loop in memory

  /** A saga as its author thinks of it: a program counter, and how often the step ran in a row. */
  datatype Loop = At(pc: nat, iteration: nat) | Halted

  function LoopNext(saga: Definition, pc: nat, iteration: nat, nextStep: NextStep): Loop
    requires pc < |saga.steps| && ValidNextStep(nextStep, |saga.steps|)
  {
    match nextStep
    case Continue => if pc + 1 < |saga.steps| then At(pc + 1, 0) else Halted
    case Repeat => At(pc, iteration + 1)
    case GoTo(target) => At(target, if target == pc then iteration + 1 else 0)
  }

  /** The rows (most recent first) say where the loop stands. */
  ghost predicate Represents(saga: Definition, rows: seq<Suspended>, loop: Loop) {
    && (forall i :: 0 <= i < |rows| ==> rows[i].handler.None?)
    && (rows != [] ==> rows[0].step in saga.steps)
    && match loop
       case At(pc, iteration) =>
         pc < |saga.steps|
         && (if rows == [] then pc == 0 && iteration == 0
             else rows[0].nextStep == Some(pc) && iteration == Streak(rows, saga.steps[pc]))
       case Halted => rows != [] && rows[0].nextStep.None?
  }

  /** The row written for a step that went well. */
  function RowFor(saga: Definition, pc: nat, nextStep: NextStep, at: int): Suspended
    requires pc < |saga.steps|
  {
    Suspended(saga.steps[pc], AsNat(Target(saga, pc, nextStep)), None, at)
  }

  lemma TickWritesRow(saga: Definition, rows: seq<Suspended>, pc: nat, iteration: nat, user: Call -> Outcome,
                      nextStep: NextStep, at: int)
    requires Represents(saga, rows, At(pc, iteration))
    requires user(Invoke(saga.steps[pc], iteration)) == Returned(nextStep) && ValidNextStep(nextStep, |saga.steps|)
    ensures TickCall(saga, rows, HEALTHY) == Some(Invoke(saga.steps[pc], iteration))
    ensures TickOf(saga, rows, HEALTHY, user, CarryOn, CarryOn, at) == WroteSuspended(RowFor(saga, pc, nextStep, at))
  {
    hide PlanOf, BuildRollback, RebuiltNextStep, Target, Streak;
    IndexOfStep(saga, pc);
  }

  lemma RowRepresentsNext(saga: Definition, rows: seq<Suspended>, pc: nat, iteration: nat, nextStep: NextStep, at: int)
    requires Represents(saga, rows, At(pc, iteration)) && ValidNextStep(nextStep, |saga.steps|)
    ensures Represents(saga, [RowFor(saga, pc, nextStep, at)] + rows, LoopNext(saga, pc, iteration, nextStep))
  {
    var rows' := [RowFor(saga, pc, nextStep, at)] + rows;
    assert rows'[1..] == rows;
    var next := LoopNext(saga, pc, iteration, nextStep);
    if next.At? && next.pc == pc {
      assert Streak(rows', saga.steps[pc]) == 1 + Streak(rows, saga.steps[pc]);
    } else if next.At? {
      assert saga.steps[next.pc] != saga.steps[pc];
      assert Streak(rows', saga.steps[next.pc]) == 0;
    }
  }

  /** One tick runs the step the loop is at, with the loop's iteration, and stores where the loop goes next. */
  lemma TickFollowsLoop(saga: Definition, rows: seq<Suspended>, pc: nat, iteration: nat, user: Call -> Outcome,
                        nextStep: NextStep, at: int)
    requires Represents(saga, rows, At(pc, iteration))
    requires user(Invoke(saga.steps[pc], iteration)) == Returned(nextStep) && ValidNextStep(nextStep, |saga.steps|)
    ensures TickCall(saga, rows, HEALTHY) == Some(Invoke(saga.steps[pc], iteration))
    ensures var tick := TickOf(saga, rows, HEALTHY, user, CarryOn, CarryOn, at);
            tick.WroteSuspended? && Represents(saga, [tick.row] + rows, LoopNext(saga, pc, iteration, nextStep))
  {
    hide TickOf, TickCall, RowFor;
    TickWritesRow(saga, rows, pc, iteration, user, nextStep, at);
    RowRepresentsNext(saga, rows, pc, iteration, nextStep, at);
  }

  /** A halted loop commits on its next tick, and runs nothing. */
  lemma HaltedLoopCommits(saga: Definition, rows: seq<Suspended>, user: Call -> Outcome, at: int)
    requires Represents(saga, rows, Halted)
    ensures TickCall(saga, rows, HEALTHY) == None
    ensures TickOf(saga, rows, HEALTHY, user, CarryOn, CarryOn, at) == WroteCommitted
  {}

  /** User code as an oracle: the answer may depend on how many calls came before. */
  datatype Persisted = Persisted(rows: seq<Suspended>, calls: seq<Call>, committed: bool)

  datatype InMemory = InMemory(loop: Loop, calls: seq<Call>, committed: bool)

  ghost predicate Valid(saga: Definition, user: (nat, Call) -> NextStep) {
    forall n, c :: user(n, c).GoTo? ==> 0 <= user(n, c).stepIndex < |saga.steps|
  }

  function PersistedTick(saga: Definition, user: (nat, Call) -> NextStep, before: Persisted, at: int): Persisted {
    var call := TickCall(saga, before.rows, HEALTHY);
    var calls := if call.Some? then before.calls + [call.value] else before.calls;
    match TickOf(saga, before.rows, HEALTHY, c => Returned(user(|before.calls|, c)), CarryOn, CarryOn, at)
    case WroteSuspended(row) => Persisted([row] + before.rows, calls, false)
    case WroteCommitted => Persisted(before.rows, calls, true)
    case _ => Persisted(before.rows, calls, false)
  }

  /** `ticks` ticks of a healthy saga. */
  function PersistedAfter(saga: Definition, user: (nat, Call) -> NextStep, ticks: nat): Persisted {
    if ticks == 0 then Persisted([], [], false)
    else
      var before := PersistedAfter(saga, user, ticks - 1);
      if before.committed then before else PersistedTick(saga, user, before, ticks)
  }

  function InMemoryTurn(saga: Definition, user: (nat, Call) -> NextStep, before: InMemory): InMemory
    requires Valid(saga, user) && (before.loop.At? ==> before.loop.pc < |saga.steps|)
  {
    match before.loop
    case Halted => before.(committed := true)
    case At(pc, iteration) =>
      var call := Invoke(saga.steps[pc], iteration);
      InMemory(LoopNext(saga, pc, iteration, user(|before.calls|, call)), before.calls + [call], false)
  }

  /** The same number of turns of the loop in memory; leaving the loop takes one turn more. */
  function InMemoryAfter(saga: Definition, user: (nat, Call) -> NextStep, turns: nat): (memory: InMemory)
    requires Valid(saga, user)
    ensures memory.loop.At? ==> memory.loop.pc < |saga.steps|
    ensures memory.committed ==> memory.loop.Halted?
  {
    if turns == 0 then InMemory(At(0, 0), [], false)
    else InMemoryTurn(saga, user, InMemoryAfter(saga, user, turns - 1))
  }

  /** The rows, the calls so far and the verdict of both executions agree. */
  ghost predicate InStep(saga: Definition, persisted: Persisted, memory: InMemory) {
    && persisted.calls == memory.calls && persisted.committed == memory.committed
    && Represents(saga, persisted.rows, memory.loop)
  }

  lemma TickMatchesTurn(saga: Definition, user: (nat, Call) -> NextStep, before: Persisted, memory: InMemory, at: int)
    requires Valid(saga, user) && InStep(saga, before, memory) && !before.committed
    ensures InStep(saga, PersistedTick(saga, user, before, at), InMemoryTurn(saga, user, memory))
  {
    var answer := (c: Call) => Returned(user(|before.calls|, c));
    match memory.loop
    case Halted => HaltedLoopCommits(saga, before.rows, answer, at);
    case At(pc, iteration) =>
      TickFollowsLoop(saga, before.rows, pc, iteration, answer,
                      user(|before.calls|, Invoke(saga.steps[pc], iteration)), at);
  }

  lemma FreshRunStandsAtFirstStep(saga: Definition)
    ensures Represents(saga, [], At(0, 0))
  {}

  /** Tick for turn: the same calls with the same iterations in the same order, committed at the same point. */
  lemma {:induction false} PersistedSagaRefinesLoop(saga: Definition, user: (nat, Call) -> NextStep, ticks: nat)
    requires Valid(saga, user)
    ensures InStep(saga, PersistedAfter(saga, user, ticks), InMemoryAfter(saga, user, ticks))
  {
    hide PersistedTick, Represents;
    if ticks == 0 {
      FreshRunStandsAtFirstStep(saga);
    } else {
      PersistedSagaRefinesLoop(saga, user, ticks - 1);
      var before, memory := PersistedAfter(saga, user, ticks - 1), InMemoryAfter(saga, user, ticks - 1);
      assert InMemoryAfter(saga, user, ticks) == InMemoryTurn(saga, user, memory);
      if before.committed {
        assert PersistedAfter(saga, user, ticks) == before;
      } else {
        assert PersistedAfter(saga, user, ticks) == PersistedTick(saga, user, before, ticks);
        TickMatchesTurn(saga, user, before, memory, ticks);
      }
    }
  }

  // ---------------------------------------------------------------- failure handling

  /** The NextStep rebuilt for handleChildFailures leads where the one written led. */
  lemma RebuiltNextStepKeepsTarget(saga: Definition, rows: seq<Suspended>, index: nat, written: NextStep,
                                   handler: Option<nat>, at: int, rollingBack: bool)
    requires index < |saga.steps| && ValidNextStep(written, |saga.steps|)
    ensures var row := Suspended(saga.steps[index], AsNat(NextStepColumn(saga, saga.steps[index], written)), handler, at);
            var d := Decode(saga, [row] + rows, rollingBack);
            var rebuilt, target := RebuiltNextStep(saga, d.state), Target(saga, index, written);
            && d.Decoded? && Target(saga, index, rebuilt) == target
            && (rebuilt.Repeat? <==> target == Some(index)) && (rebuilt.GoTo? ==> target != Some(index + 1))
  {
    IndexOfStep(saga, index);
    var target := Target(saga, index, written);
    if target.Some? {
      IndexOfStep(saga, target.value);
    }
  }

  /**
   A forward tick that reports a child failure runs the handler of the step that was completed, one iteration on; it is told
   how often the step that comes next has run in a row, and 0 if none comes next.
   */
  lemma ChildFailureGoesToCompletedStep(saga: Definition, rows: seq<Suspended>, index: nat, written: NextStep,
                                        handler: Option<nat>, at: int, failures: Failures)
    requires index < |saga.steps| && ValidNextStep(written, |saga.steps|)
    requires (failures.childRolledBack || failures.childRollbackFailed) && !failures.rollingBack
    ensures var row := Suspended(saga.steps[index], AsNat(NextStepColumn(saga, saga.steps[index], written)), handler, at);
            var call := TickCall(saga, [row] + rows, failures);
            && call.Some? && call.value.HandleChildFailures?
            && call.value.step == saga.steps[index] && call.value.handlerIteration == Incremented(handler)
            && Target(saga, index, call.value.nextStep) == Target(saga, index, written)
            && (written.Repeat? ==> call.value.nextStep == Repeat) && (written.Continue? ==> call.value.nextStep == Continue)
            && (if row.nextStep.None? then call.value.stepIteration == 0
                else LongestRun(NormalRows([row] + rows), saga.steps[row.nextStep.value], call.value.stepIteration))
  {
    hide Streak, NormalRows, LongestRun;
    var row := Suspended(saga.steps[index], AsNat(NextStepColumn(saga, saga.steps[index], written)), handler, at);
    var d := Decode(saga, [row] + rows, false);
    RebuiltNextStepKeepsTarget(saga, rows, index, written, handler, at, false);
    DecodedPointHasCompletedStep(saga, rows, index, written, handler, at);
    assert InputFor(saga, d.state, RollbackStateOf(failures)) == ChildFailed(RebuiltNextStep(saga, d.state));
    if row.nextStep.Some? {
      StreakIsLongestRun([row] + rows, saga.steps[row.nextStep.value]);
    }
  }

  lemma DecodedPointHasCompletedStep(saga: Definition, rows: seq<Suspended>, index: nat, written: NextStep,
                                     handler: Option<nat>, at: int)
    requires index < |saga.steps| && ValidNextStep(written, |saga.steps|)
    ensures var row := Suspended(saga.steps[index], AsNat(NextStepColumn(saga, saga.steps[index], written)), handler, at);
            var d := Decode(saga, [row] + rows, false);
            && d.Decoded? && BuildForward(saga, d).Built? && BuildForward(saga, d).handler == handler
            && forall n :: CurrentStep(BuildForward(saga, d).point, ChildFailed(n)) == saga.steps[index]
  {
    IndexOfStep(saga, index);
    if written.Continue? && index + 1 == |saga.steps| {
      assert Target(saga, index, written) == None;
    }
  }

  // ---------------------------------------------------------------- rollback

  /** Rows only the forward path writes. */
  predicate ForwardRows(saga: Definition, rows: seq<Suspended>) {
    forall i :: 0 <= i < |rows| ==>
      rows[i].step in saga.steps && (rows[i].nextStep.Some? ==> rows[i].nextStep.value < |saga.steps|)
  }

  /**
   The rollback's own rows, most recent first: each names a plan entry, and the latest says that the rollback stands
   behind entry n - 1.
   */
  ghost predicate StandsAt(plan: seq<PlanStep>, done: seq<Suspended>, n: nat) {
    && n <= |plan|
    && (n == 0 <==> done == [])
    && (n > 0 ==> done[0].step == plan[n - 1].name && done[0].nextStep.None?)
    && forall i :: 0 <= i < |done| ==> exists j :: 0 <= j < |plan| && done[i].step == plan[j].name
  }

  lemma ForwardNamesAreUsers(saga: Definition, forwardRows: seq<Suspended>)
    requires ForwardRows(saga, forwardRows)
    ensures forall i :: 0 <= i < |forwardRows| ==> !(Prefix(saga) <= Executed(forwardRows)[i].step)
  {
    assert !SomeStartsWith(saga.steps, Prefix(saga));
  }

  lemma OriginalsOfParts(saga: Definition, done: seq<Suspended>, forwardRows: seq<Suspended>)
    requires ForwardRows(saga, forwardRows) && forall i :: 0 <= i < |done| ==> Prefix(saga) <= done[i].step
    ensures Originals(Prefix(saga), Executed(done + forwardRows)) == Executed(forwardRows)
  {
    ForwardNamesAreUsers(saga, forwardRows);
    RollbackRowsLeaveOriginals(Prefix(saga), Executed(done), Executed(forwardRows));
    assert Executed(done + forwardRows) == Executed(done) + Executed(forwardRows);
  }

  lemma OriginalsAreForward(saga: Definition, plan: seq<PlanStep>, done: seq<Suspended>, n: nat,
                            forwardRows: seq<Suspended>)
    requires ForwardRows(saga, forwardRows) && StandsAt(plan, done, n)
    requires forall i :: 0 <= i < |plan| ==> Prefix(saga) <= plan[i].name
    ensures Originals(Prefix(saga), Executed(done + forwardRows)) == Executed(forwardRows)
  {
    forall i | 0 <= i < |done| ensures Prefix(saga) <= done[i].step {
      var j :| 0 <= j < |plan| && done[i].step == plan[j].name;
    }
    OriginalsOfParts(saga, done, forwardRows);
  }

  /** The plan rebuilt in the middle of a rollback is the plan of the forward history. */
  lemma PlanIsStable(saga: Definition, done: seq<Suspended>, n: nat, forwardRows: seq<Suspended>)
    requires ForwardRows(saga, forwardRows)
    requires StandsAt(Plan(Prefix(saga), Suffix(saga), Executed(forwardRows)), done, n)
    ensures PlanOf(saga, done + forwardRows) == Plan(Prefix(saga), Suffix(saga), Executed(forwardRows))
  {
    var plan := Plan(Prefix(saga), Suffix(saga), Executed(forwardRows));
    forall i | 0 <= i < |plan| ensures Prefix(saga) <= plan[i].name {
      PlanNamesStartWithPrefix(Prefix(saga), Suffix(saga), Executed(forwardRows), i);
    }
    OriginalsAreForward(saga, plan, done, n, forwardRows);
  }

  lemma PositionOfEntry(plan: seq<PlanStep>, k: nat)
    requires DistinctNames(plan) && k < |plan|
    ensures Position(plan, plan[k].name) == Some(k)
  {
    var p := Position(plan, plan[k].name);
    assert p.Some?;
  }

  lemma PlanNamesAreSynthetic(saga: Definition, history: seq<Instance>, k: nat)
    requires k < |Plan(Prefix(saga), Suffix(saga), history)|
    ensures Plan(Prefix(saga), Suffix(saga), history)[k].name !in saga.steps
  {
    PlanNamesStartWithPrefix(Prefix(saga), Suffix(saga), history, k);
    assert !SomeStartsWith(saga.steps, Prefix(saga));
  }

  /** The step a rollback standing at n resumes with: the next entry, or on a child failure the entry before. */
  ghost predicate PointAt(plan: seq<PlanStep>, point: SuspensionPoint, n: nat) {
    && n <= |plan|
    && (n == |plan| <==> point.AfterLastStep?)
    && (n < |plan| ==> CurrentStep(point, SuccessfullyRolledBack) == plan[n].name)
    && (plan != [] ==> forall next :: CurrentStep(point, ChildFailed(next)) == plan[if n == 0 then 0 else n - 1].name)
  }

  ghost predicate PositionedAt(saga: Definition, rows: seq<Suspended>, plan: seq<PlanStep>, n: nat) {
    var d := Decode(saga, rows, true);
    d.Decoded? && BuildRollback(saga, rows, d).Built? && PointAt(plan, BuildRollback(saga, rows, d).point, n)
  }

  lemma PositionInTheMiddle(saga: Definition, rows: seq<Suspended>, plan: seq<PlanStep>, n: nat)
    requires plan == PlanOf(saga, rows) && DistinctNames(plan) && 0 < n <= |plan|
    requires rows != [] && rows[0].step == plan[n - 1].name && rows[0].nextStep.None?
    requires rows[0].step !in saga.steps
    ensures PositionedAt(saga, rows, plan, n)
  {
    PositionOfEntry(plan, n - 1);
  }

  lemma PositionAtTheStart(saga: Definition, rows: seq<Suspended>, plan: seq<PlanStep>)
    requires plan == PlanOf(saga, rows) && ForwardRows(saga, rows) && (rows == [] <==> plan == [])
    ensures PositionedAt(saga, rows, plan, 0)
  {}

  lemma PlanIsEmptyIff(prefix: string, suffix: string, history: seq<Instance>)
    ensures Plan(prefix, suffix, history) == [] <==> history == []
  {}

  lemma RollbackPosition(saga: Definition, done: seq<Suspended>, forwardRows: seq<Suspended>, plan: seq<PlanStep>, n: nat)
    requires ForwardRows(saga, forwardRows)
    requires plan == Plan(Prefix(saga), Suffix(saga), Executed(forwardRows)) && DistinctNames(plan)
    requires StandsAt(plan, done, n)
    ensures PositionedAt(saga, done + forwardRows, plan, n)
  {
    hide PositionedAt, ForwardRows, DistinctNames;
    PlanIsStable(saga, done, n, forwardRows);
    if done != [] {
      PlanNamesAreSynthetic(saga, Executed(forwardRows), n - 1);
      assert (done + forwardRows)[0] == done[0];
      PositionInTheMiddle(saga, done + forwardRows, plan, n);
    } else {
      PlanIsEmptyIff(Prefix(saga), Suffix(saga), Executed(forwardRows));
      assert done + forwardRows == forwardRows;
      PositionAtTheStart(saga, forwardRows, plan);
    }
  }

  /** What resume number k does, as a function of the rollback rows written so far. */
  datatype Report = Report(call: Option<Call>, tick: Tick)

  type Resumes = (seq<Suspended>, nat) -> Report

  /** A clean resume from position n runs entry n and records it, or finishes the rollback. */
  ghost predicate Advances(plan: seq<PlanStep>, n: nat, report: Report)
    requires n <= |plan|
  {
    if n < |plan|
    then && report.call.Some? && report.call.value.Rollback? && report.call.value.step == plan[n].name
         && report.tick.WroteSuspended? && report.tick.row.step == plan[n].name && report.tick.row.nextStep.None?
    else report == Report(None, WroteRolledBack)
  }

  /** A resume that reports a failed child rollback runs a failure handler instead; its row names the entry before. */
  ghost predicate Detours(plan: seq<PlanStep>, n: nat, report: Report)
    requires n <= |plan| && plan != []
  {
    && report.call.Some? && report.call.value.HandleChildFailures?
    && report.tick.WroteSuspended? && report.tick.row.nextStep.None?
    && report.tick.row.step == plan[if n == 0 then 0 else n - 1].name
  }

  /** User code that never throws and never jumps out of bounds. */
  ghost predicate Returns(saga: Definition, user: Call -> Outcome) {
    forall c :: user(c).Returned? && ValidNextStep(user(c).nextStep, |saga.steps|)
  }

  function ReportOf(saga: Definition, rows: seq<Suspended>, failures: Failures, user: Call -> Outcome, at: int): Report {
    Report(TickCall(saga, rows, failures), TickOf(saga, rows, failures, user, CarryOn, CarryOn, at))
  }

  ghost predicate PreparedAt(plan: seq<PlanStep>, p: Prepared, n: nat) {
    p.Prepared? && p.built.Built? && PointAt(plan, p.built.point, n)
  }

  lemma PositionIsPrepared(saga: Definition, rows: seq<Suspended>, plan: seq<PlanStep>, n: nat, failures: Failures)
    requires failures.rollingBack && PositionedAt(saga, rows, plan, n)
    ensures PreparedAt(plan, Prepare(saga, rows, failures), n)
    ensures if failures.childRollbackFailed then Prepare(saga, rows, failures).input.ChildFailed?
            else Prepare(saga, rows, failures).input == SuccessfullyRolledBack
  {}

  lemma FailedResumeDetours(saga: Definition, rows: seq<Suspended>, plan: seq<PlanStep>, n: nat, failures: Failures,
                            user: Call -> Outcome, at: int)
    requires failures.rollingBack && PreparedAt(plan, Prepare(saga, rows, failures), n)
    requires Prepare(saga, rows, failures).input.ChildFailed?
    requires plan != [] && plan[if n == 0 then 0 else n - 1].name !in saga.steps
    requires Returns(saga, user)
    ensures Detours(plan, n, ReportOf(saga, rows, failures, user, at))
  {}

  lemma RollbackResumeDoes(saga: Definition, done: seq<Suspended>, forwardRows: seq<Suspended>, plan: seq<PlanStep>,
                           n: nat, failures: Failures, user: Call -> Outcome, at: int)
    requires ForwardRows(saga, forwardRows) && failures.rollingBack && Returns(saga, user)
    requires plan == Plan(Prefix(saga), Suffix(saga), Executed(forwardRows)) && DistinctNames(plan)
    requires StandsAt(plan, done, n)
    ensures !failures.childRollbackFailed ==> Advances(plan, n, ReportOf(saga, done + forwardRows, failures, user, at))
    ensures failures.childRollbackFailed && plan != []
            ==> Detours(plan, n, ReportOf(saga, done + forwardRows, failures, user, at))
  {
    RollbackPosition(saga, done, forwardRows, plan, n);
    PositionIsPrepared(saga, done + forwardRows, plan, n, failures);
    if !failures.childRollbackFailed {
      if n < |plan| { PlanNamesAreSynthetic(saga, Executed(forwardRows), n); }
    } else if plan != [] {
      PlanNamesAreSynthetic(saga, Executed(forwardRows), if n == 0 then 0 else n - 1);
      FailedResumeDetours(saga, done + forwardRows, plan, n, failures, user, at);
    }
  }

  // ---------------------------------------------------------------- whole rollbacks

  datatype RollbackRun = RollbackRun(done: seq<Suspended>, rolledBack: seq<string>, finished: bool)

  function RollbackResumes(saga: Definition, forwardRows: seq<Suspended>, failures: nat -> Failures, user: Call -> Outcome)
    : Resumes
  {
    (done: seq<Suspended>, k: nat) => ReportOf(saga, done + forwardRows, failures(k), user, k)
  }

  /** Record the plan entries whose rollback ran; handler calls are not among them. */
  function RollbackResume(report: Report, before: RollbackRun): RollbackRun {
    var rolledBack := if report.call.Some? && report.call.value.Rollback? then before.rolledBack + [report.call.value.step]
                      else before.rolledBack;
    match report.tick
    case WroteSuspended(row) => RollbackRun([row] + before.done, rolledBack, false)
    case WroteRolledBack => RollbackRun(before.done, rolledBack, true)
    case _ => RollbackRun(before.done, rolledBack, false)
  }

  /** A run after k resumes of its rollback. */
  function RollbackAfter(resumes: Resumes, k: nat): RollbackRun {
    if k == 0 then RollbackRun([], [], false)
    else
      var before := RollbackAfter(resumes, k - 1);
      if before.finished then before else RollbackResume(resumes(before.done, k), before)
  }

  function Names(plan: seq<PlanStep>): (names: seq<string>)
    ensures |names| == |plan| && forall i :: 0 <= i < |plan| ==> names[i] == plan[i].name
  {
    seq(|plan|, i requires 0 <= i < |plan| => plan[i].name)
  }

  /** Behind entry n - 1, having run entries skipped..n. */
  ghost predicate RanUpTo(plan: seq<PlanStep>, run: RollbackRun, skipped: nat, n: nat) {
    && StandsAt(plan, run.done, n)
    && (n == 0 ==> run.rolledBack == [])
    && (n > 0 ==> skipped <= n && run.rolledBack == Names(plan)[skipped..n])
    && (run.finished ==> n == |plan|)
  }

  /** Every resume of a run standing at n advances or detours. */
  ghost predicate Behaves(plan: seq<PlanStep>, resumes: Resumes, clean: nat -> bool) {
    forall done, n, k: nat {:trigger resumes(done, k), StandsAt(plan, done, n)} | StandsAt(plan, done, n) ::
      (clean(k) ==> Advances(plan, n, resumes(done, k)))
      && (!clean(k) ==> plan != [] && Detours(plan, n, resumes(done, k)))
  }

  lemma AdvanceOnce(plan: seq<PlanStep>, before: RollbackRun, skipped: nat, n: nat, report: Report)
    requires RanUpTo(plan, before, skipped, n) && !before.finished && Advances(plan, n, report)
    requires n == 0 && plan != [] ==> skipped == 0
    ensures RanUpTo(plan, RollbackResume(report, before), skipped, if n < |plan| then n + 1 else n)
    ensures RollbackResume(report, before).finished <==> n == |plan|
  {
    if n < |plan| {
      assert Names(plan)[skipped..n + 1] == Names(plan)[skipped..n] + [plan[n].name];
    }
  }

  lemma DetourOnce(plan: seq<PlanStep>, before: RollbackRun, skipped: nat, n: nat, report: Report)
    requires plan != [] && RanUpTo(plan, before, skipped, n) && !before.finished && Detours(plan, n, report)
    requires n == 0 ==> skipped == 1
    ensures RanUpTo(plan, RollbackResume(report, before), skipped, if n == 0 then 1 else n)
    ensures !RollbackResume(report, before).finished
  {
    if n == 0 {
      assert Names(plan)[1..1] == [];
    }
  }

  /** The first entry is skipped exactly when the first resume ran a failure handler. */
  function Skipped(clean: nat -> bool): nat {
    if clean(1) then 0 else 1
  }

  /** How many of the first k resumes reported no failed child rollback. */
  function CleanResumes(clean: nat -> bool, k: nat): (count: nat)
    ensures (forall i :: clean(i)) ==> count == k
  {
    if k == 0 then 0 else CleanResumes(clean, k - 1) + if clean(k) then 1 else 0
  }

  /** The entry a rollback stands before after k resumes, if names never collide. */
  function StandingAt(plan: seq<PlanStep>, clean: nat -> bool, k: nat): nat {
    var n := if k == 0 then 0 else Skipped(clean) + CleanResumes(clean, k);
    if n < |plan| then n else |plan|
  }

  lemma {:induction false} BehavingRollback(plan: seq<PlanStep>, resumes: Resumes, clean: nat -> bool, k: nat)
    returns (n: nat)
    requires Behaves(plan, resumes, clean)
    ensures RanUpTo(plan, RollbackAfter(resumes, k), Skipped(clean), n)
    ensures n == StandingAt(plan, clean, k)
    ensures RollbackAfter(resumes, k).finished <==> k > 0 && Skipped(clean) + CleanResumes(clean, k) > |plan|
  {
    n := 0;
    if k > 0 {
      n := BehavingRollback(plan, resumes, clean, k - 1);
      var before := RollbackAfter(resumes, k - 1);
      if !before.finished {
        assert StandsAt(plan, before.done, n);
        var report := resumes(before.done, k);
        if clean(k) {
          AdvanceOnce(plan, before, Skipped(clean), n, report);
          n := if n < |plan| then n + 1 else n;
        } else {
          DetourOnce(plan, before, Skipped(clean), n, report);
          n := if n == 0 then 1 else n;
        }
      }
    }
  }

  function Clean(failures: nat -> Failures): nat -> bool {
    (k: nat) => !failures(k).childRollbackFailed
  }

  lemma RollbackBehaves(saga: Definition, forwardRows: seq<Suspended>, failures: nat -> Failures, user: Call -> Outcome,
                        plan: seq<PlanStep>)
    requires ForwardRows(saga, forwardRows) && Returns(saga, user)
    requires plan == Plan(Prefix(saga), Suffix(saga), Executed(forwardRows)) && DistinctNames(plan)
    requires forall k :: failures(k).rollingBack
    requires plan != [] || forall k :: !failures(k).childRollbackFailed
    ensures Behaves(plan, RollbackResumes(saga, forwardRows, failures, user), Clean(failures))
  {
    var resumes := RollbackResumes(saga, forwardRows, failures, user);
    forall done, n, k: nat | StandsAt(plan, done, n)
      ensures !failures(k).childRollbackFailed ==> Advances(plan, n, resumes(done, k))
      ensures failures(k).childRollbackFailed ==> plan != [] && Detours(plan, n, resumes(done, k))
    {
      RollbackResumeDoes(saga, done, forwardRows, plan, n, failures(k), user, k);
    }
  }

  /**
   With no failed child rollback, a rollback runs the plan from the first to the last entry, each exactly once, and
   writes ROLLED_BACK on resume number plan length plus one: not earlier, not later.
   */
  lemma RollbackRunsThePlan(saga: Definition, forwardRows: seq<Suspended>, failures: nat -> Failures,
                            user: Call -> Outcome, plan: seq<PlanStep>, k: nat)
    requires ForwardRows(saga, forwardRows) && Returns(saga, user)
    requires plan == Plan(Prefix(saga), Suffix(saga), Executed(forwardRows)) && DistinctNames(plan)
    requires forall i :: failures(i).rollingBack && !failures(i).childRollbackFailed
    ensures var run := RollbackAfter(RollbackResumes(saga, forwardRows, failures, user), k);
            && run.rolledBack == Names(plan)[..if k < |plan| then k else |plan|]
            && (run.finished <==> k > |plan|)
  {
    RollbackBehaves(saga, forwardRows, failures, user, plan);
    var resumes := RollbackResumes(saga, forwardRows, failures, user);
    var n := BehavingRollback(plan, resumes, Clean(failures), k);
    assert Names(plan)[0..n] == Names(plan)[..n];
  }

  lemma FinishedRan(plan: seq<PlanStep>, run: RollbackRun, skipped: nat, n: nat)
    requires RanUpTo(plan, run, skipped, n) && run.finished && plan != [] && skipped <= 1
    ensures run.rolledBack == Names(plan)[skipped..]
    ensures run.rolledBack == Names(plan) <==> skipped == 0
  {
    assert Names(plan)[0..] == Names(plan) && Names(plan)[skipped..n] == Names(plan)[skipped..];
  }

  /** A rollback that ends has run its whole plan, or all but the first entry. */
  lemma CompleteDistinctRollback(saga: Definition, forwardRows: seq<Suspended>, failures: nat -> Failures,
                                 user: Call -> Outcome, plan: seq<PlanStep>, k: nat)
    requires ForwardRows(saga, forwardRows) && Returns(saga, user) && forwardRows != []
    requires plan == Plan(Prefix(saga), Suffix(saga), Executed(forwardRows)) && DistinctNames(plan)
    requires forall i :: failures(i).rollingBack
    requires RollbackAfter(RollbackResumes(saga, forwardRows, failures, user), k).finished
    ensures var run := RollbackAfter(RollbackResumes(saga, forwardRows, failures, user), k);
            && (run.rolledBack == Names(plan) <==> !failures(1).childRollbackFailed)
            && (failures(1).childRollbackFailed ==> run.rolledBack == Names(plan)[1..])
  {
    PlanIsEmptyIff(Prefix(saga), Suffix(saga), Executed(forwardRows));
    RollbackBehaves(saga, forwardRows, failures, user, plan);
    var resumes := RollbackResumes(saga, forwardRows, failures, user);
    var n := BehavingRollback(plan, resumes, Clean(failures), k);
    FinishedRan(plan, RollbackAfter(resumes, k), Skipped(Clean(failures)), n);
  }

  const ONE_STEP: Definition := Definition(["A"])
  const ONE_ROW := [Suspended("A", None, None, 1)]

  /** The first resume reports a failed child rollback, the later ones do not. */
  function FailsFirst(k: nat): Failures {
    Failures(false, k == 1, true)
  }

  lemma OneStepPlan(plan: seq<PlanStep>)
    requires plan == Plan(Prefix(ONE_STEP), Suffix(ONE_STEP), Executed(ONE_ROW))
    ensures |plan| == 2 && !plan[0].own && DistinctNames(plan)
  {
    assert Executed(ONE_ROW) == [Instance("A", None, 1)];
    HandlerDisciplineKeepsNamesDistinct(ONE_STEP.steps, Prefix(ONE_STEP), Executed(ONE_ROW));
  }

  /**
   One step ran; its first rollback resume is told of a failed child rollback and the handler returns: ROLLED_BACK after
   three resumes, and the children of the step were never asked.
   */
  lemma SwallowedFailureSkipsFirstEntry(plan: seq<PlanStep>)
    requires plan == Plan(Prefix(ONE_STEP), Suffix(ONE_STEP), Executed(ONE_ROW))
    ensures var run := RollbackAfter(RollbackResumes(ONE_STEP, ONE_ROW, FailsFirst, c => Returned(Continue)), 3);
            run.finished && run.rolledBack == [plan[1].name] && !plan[0].own
  {
    hide Plan, ReportOf, Executed;
    OneStepPlan(plan);
    var user := (c: Call) => Returned(Continue);
    var resumes := RollbackResumes(ONE_STEP, ONE_ROW, FailsFirst, user);
    RollbackBehaves(ONE_STEP, ONE_ROW, FailsFirst, user, plan);
    ThreeResumes(plan, resumes, Clean(FailsFirst));
  }

  lemma ThreeResumes(plan: seq<PlanStep>, resumes: Resumes, clean: nat -> bool)
    requires |plan| == 2 && Behaves(plan, resumes, clean) && !clean(1) && clean(2) && clean(3)
    ensures RollbackAfter(resumes, 3).finished && RollbackAfter(resumes, 3).rolledBack == [plan[1].name]
  {
    var run0 := RollbackAfter(resumes, 0);
    assert StandsAt(plan, run0.done, 0);
    assert Detours(plan, 0, resumes(run0.done, 1));
    DetourOnce(plan, run0, 1, 0, resumes(run0.done, 1));
    var run1 := RollbackAfter(resumes, 1);
    assert StandsAt(plan, run1.done, 1);
    assert Advances(plan, 1, resumes(run1.done, 2));
    AdvanceOnce(plan, run1, 1, 1, resumes(run1.done, 2));
    var run2 := RollbackAfter(resumes, 2);
    assert StandsAt(plan, run2.done, 2);
    assert Advances(plan, 2, resumes(run2.done, 3));
    AdvanceOnce(plan, run2, 1, 2, resumes(run2.done, 3));
    assert Names(plan)[1..2] == [plan[1].name];
  }

  // ---------------------------------------------------------------- what the plan contains

  /** The executions whose own rollback a plan runs, in plan order. */
  function OwnRollbacks(plan: seq<PlanStep>): seq<Instance> {
    if plan == [] then []
    else (if plan[0].own then [plan[0].instance] else []) + OwnRollbacks(plan[1..])
  }

  function ChildRollbacks(plan: seq<PlanStep>): seq<Instance> {
    if plan == [] then []
    else (if plan[0].own then [] else [plan[0].instance]) + ChildRollbacks(plan[1..])
  }

  function NormalInstances(history: seq<Instance>): seq<Instance> {
    if history == [] then []
    else (if history[0].handler.None? then [history[0]] else []) + NormalInstances(history[1..])
  }

  lemma FirstOfSum(a: seq<PlanStep>, b: seq<PlanStep>)
    requires a != []
    ensures (a + b)[0] == a[0] && (a + b)[1..] == a[1..] + b
  {}

  lemma Associates(x: seq<Instance>, y: seq<Instance>, z: seq<Instance>)
    ensures (x + y) + z == x + (y + z)
  {}

  lemma {:induction false} OwnRollbacksAppend(a: seq<PlanStep>, b: seq<PlanStep>)
    ensures OwnRollbacks(a + b) == OwnRollbacks(a) + OwnRollbacks(b)
  {
    if a == [] {
      assert a + b == b;
    } else {
      hide OwnRollbacks;
      OwnRollbacksAppend(a[1..], b);
      FirstOfSum(a, b);
      OwnRollbacksOfFirst(a);
      OwnRollbacksOfFirst(a + b);
      Associates(if a[0].own then [a[0].instance] else [], OwnRollbacks(a[1..]), OwnRollbacks(b));
    }
  }

  lemma OwnRollbacksOfFirst(plan: seq<PlanStep>)
    requires plan != []
    ensures OwnRollbacks(plan) == (if plan[0].own then [plan[0].instance] else []) + OwnRollbacks(plan[1..])
  {}

  lemma {:induction false} ChildRollbacksAppend(a: seq<PlanStep>, b: seq<PlanStep>)
    ensures ChildRollbacks(a + b) == ChildRollbacks(a) + ChildRollbacks(b)
  {
    if a == [] {
      assert a + b == b;
    } else {
      hide ChildRollbacks;
      ChildRollbacksAppend(a[1..], b);
      FirstOfSum(a, b);
      ChildRollbacksOfFirst(a);
      ChildRollbacksOfFirst(a + b);
      Associates(if a[0].own then [] else [a[0].instance], ChildRollbacks(a[1..]), ChildRollbacks(b));
    }
  }

  lemma ChildRollbacksOfFirst(plan: seq<PlanStep>)
    requires plan != []
    ensures ChildRollbacks(plan) == (if plan[0].own then [] else [plan[0].instance]) + ChildRollbacks(plan[1..])
  {}

  /** An own rollback comes right after its children's. */
  predicate OwnAfterChildren(plan: seq<PlanStep>) {
    forall i :: 0 <= i < |plan| && plan[i].own ==> i > 0 && !plan[i - 1].own && plan[i - 1].instance == plan[i].instance
  }

  lemma OwnAfterChildrenAppend(a: seq<PlanStep>, b: seq<PlanStep>)
    requires OwnAfterChildren(a) && OwnAfterChildren(b)
    ensures OwnAfterChildren(a + b)
  {
    forall i | 0 <= i < |a + b| && (a + b)[i].own
      ensures i > 0 && !(a + b)[i - 1].own && (a + b)[i - 1].instance == (a + b)[i].instance
    {
      if i >= |a| { assert (a + b)[i] == b[i - |a|]; }
    }
  }

  lemma OneInstance(first: seq<PlanStep>, instance: Instance)
    requires |first| == if instance.handler.None? then 2 else 1
    requires !first[0].own && first[0].instance == instance
    requires |first| == 2 ==> first[1].own && first[1].instance == instance
    ensures ChildRollbacks(first) == [instance] && OwnRollbacks(first) == if instance.handler.None? then [instance] else []
    ensures OwnAfterChildren(first)
  {
    if |first| == 2 {
      var second := first[1..];
      assert second[0] == first[1] && second[1..] == [];
      assert OwnRollbacks(second[1..]) == [] && ChildRollbacks(second[1..]) == [];
      assert OwnRollbacks(second) == [instance];
      assert ChildRollbacks(second) == [];
    }
  }

  lemma StepsOfInstance(prefix: string, suffix: string, instance: Instance, iteration: nat)
    ensures var first := StepsFor(prefix, suffix, instance, iteration);
            && ChildRollbacks(first) == [instance] && OwnAfterChildren(first)
            && OwnRollbacks(first) == (if instance.handler.None? then [instance] else [])
            && |first| == 1 + |OwnRollbacks(first)|
  {
    OneInstance(StepsFor(prefix, suffix, instance, iteration), instance);
  }

  lemma PlanOfFirst(prefix: string, suffix: string, history: seq<Instance>)
    requires history != []
    ensures Plan(prefix, suffix, history)
            == StepsFor(prefix, suffix, history[0], IterationOf(history[0], history[1..])) + Plan(prefix, suffix, history[1..])
    ensures NormalInstances(history)
            == (if history[0].handler.None? then [history[0]] else []) + NormalInstances(history[1..])
  {}

  /** The plan contains every execution's child rollback, every normal execution's own rollback, and nothing else. */
  ghost predicate Compensates(plan: seq<PlanStep>, history: seq<Instance>) {
    && ChildRollbacks(plan) == history && OwnRollbacks(plan) == NormalInstances(history)
    && |plan| == |history| + |NormalInstances(history)| && OwnAfterChildren(plan)
  }

  lemma CompensatesOneMore(prefix: string, suffix: string, history: seq<Instance>)
    requires history != [] && Compensates(Plan(prefix, suffix, history[1..]), history[1..])
    ensures Compensates(Plan(prefix, suffix, history), history)
  {
    hide OwnAfterChildren, IterationOf, ChildRollbacks, OwnRollbacks, NormalInstances, StepsFor, Plan;
    PlanOfFirst(prefix, suffix, history);
    var iteration := IterationOf(history[0], history[1..]);
    var first, rest := StepsFor(prefix, suffix, history[0], iteration), Plan(prefix, suffix, history[1..]);
    StepsOfInstance(prefix, suffix, history[0], iteration);
    OwnAfterChildrenAppend(first, rest);
    OwnRollbacksAppend(first, rest);
    ChildRollbacksAppend(first, rest);
    assert history == [history[0]] + history[1..];
  }

  /**
   Most recent first: every execution's children are rolled back exactly once, every normal execution's own rollback
   runs exactly once, right after its children's, and nothing else is in the plan.
   */
  lemma {:induction false} PlanCompensatesHistory(prefix: string, suffix: string, history: seq<Instance>)
    ensures ChildRollbacks(Plan(prefix, suffix, history)) == history
    ensures OwnRollbacks(Plan(prefix, suffix, history)) == NormalInstances(history)
    ensures |Plan(prefix, suffix, history)| == |history| + |NormalInstances(history)|
    ensures OwnAfterChildren(Plan(prefix, suffix, history))
  {
    hide StepsFor;
    if history != [] {
      PlanCompensatesHistory(prefix, suffix, history[1..]);
      CompensatesOneMore(prefix, suffix, history);
    }
  }
}
