/**
 The life of one run in a saga trace: what each action of the system does to the rows of that run.  Whoever is not its writer
 leaves them alone; its writer puts at most one row in front, the one its saga's tick calls for.
 */
module RunLives {
  import opened Options
  import opened EventLog
  import opened Readiness
  import opened Protocol
  import opened AutomatonProofs
  import opened CooperationProofs
  import opened Workers
  import opened Safety
  import opened RunRows
  import opened RunHistory
  import opened TreeRollback
  import opened RestingChildren
  import opened TreeProofs
  import Saga

  /** A write about the run: what the writer's second read told it, and the row it writes. */
  datatype Move = Move(rows: seq<Saga.Suspended>, rolling: bool, told: bool, row: Event)

  /** The write about this run that the action is; told of a failed child rollback of any candidate of the coroutine. */
  ghost function MoveOf(s: State, a: Action, run: Event): Option<Move> {
    if a.Write? && a.worker in s.workers && s.workers[a.worker].Resuming? && s.workers[a.worker].run == run
       && run.coroutine.Some?
    then
      var Resuming(_, view, stamped) := s.workers[a.worker];
      Some(Move(RowsOf(view, run.lineage), Has(view, RollingBack, run.lineage),
                FailedRollbackReported(view, stamped, run.coroutine.value), a.row))
    else None
  }

  ghost predicate Same(log: Log, log': Log, run: Lineage, kind: Kind) {
    Has(log', kind, run) <==> Has(log, kind, run)
  }

  ghost predicate Adds(log: Log, log': Log, run: Lineage, row: Event, kind: Kind) {
    Has(log', kind, run) <==> Has(log, kind, run) || row.kind == kind
  }

  /** A forward write: a step's row, or none. */
  ghost predicate MovesOn(saga: Saga.Definition, log': Log, run: Lineage, move: Move) {
    && (move.row.kind == Suspended || move.row.kind == Committed || move.row.kind == RollingBack)
    && RollbackPart(saga, move.rows) == [] && RollbackPart(saga, RowsOf(log', run)) == []
    && (move.row.kind != Suspended ==> RowsOf(log', run) == move.rows)
  }

  /** A write in rollback: the row of an entry or of a handler, or the end. */
  ghost predicate MovesBack(saga: Saga.Definition, log': Log, run: Lineage, move: Move) {
    if move.row.kind == Suspended then
      && move.row.step.Some? && RowsOf(log', run) == [SuspendedOf(move.row)] + move.rows
      && RollingOutcome(saga, move.rows, PlanFor(saga, move.rows), move.told, Saga.WroteSuspended(SuspendedOf(move.row)))
    else
      && (move.row.kind == RolledBack || move.row.kind == RollbackFailed) && RowsOf(log', run) == move.rows
      && (move.row.kind == RolledBack ==> !move.told)
  }

  /** What one action does to a run; the run's writer has read all its rows, and the run is not over. */
  ghost predicate Moves(saga: Saga.Definition, log: Log, log': Log, run: Lineage, move: Option<Move>) {
    && (Has(log, RollingBack, run) ==> Has(log', RollingBack, run))
    && if move.None? then
      && RowsOf(log', run) == RowsOf(log, run)
      && Same(log, log', run, Committed) && Same(log, log', run, RolledBack) && Same(log, log', run, RollbackFailed)
    else
      && move.value.rows == RowsOf(log, run) && Sound(saga, move.value.rows) && !RollbackTerminated(log, run)
      && (move.value.rolling <==> Has(log, RollingBack, run))
      && Adds(log, log', run, move.value.row, Committed) && Adds(log, log', run, move.value.row, RolledBack)
      && Adds(log, log', run, move.value.row, RollbackFailed)
      && if move.value.rolling then MovesBack(saga, log', run, move.value) else MovesOn(saga, log', run, move.value)
  }

  // ---------------------------------------------------------------- the writer

  /** What a commit adds for the run are emissions or requests and its row. */
  ghost predicate OneRow(run: Lineage, emissions: seq<Event>, row: Event) {
    row.lineage == run && forall e :: e in emissions ==> e.kind == Emitted || e.kind == RollbackEmitted
  }

  lemma WorkHasOneRow(log: Log, run: Event, emissions: seq<Event>, row: Event)
    requires WorkAllowed(log, run, emissions, row)
    ensures OneRow(run.lineage, emissions, row)
    ensures !Has(log, RollingBack, run.lineage) ==> row.kind == Suspended || row.kind == Committed || row.kind == RollingBack
    ensures !RollbackTerminated(log, run.lineage)
  {
    WorkLaunchesOrAsks(log, run, emissions, row);
  }

  lemma OneRowIsAdded(log: Log, run: Lineage, emissions: seq<Event>, row: Event)
    requires OneRow(run, emissions, row)
    ensures forall kind :: kind != Emitted && kind != RollbackEmitted
                           ==> Adds(log, log + (emissions + [row]), run, row, kind)
    ensures row.kind != Suspended ==> RowsOf(log + (emissions + [row]), run) == RowsOf(log, run)
    ensures row.kind == Suspended && row.step.Some?
            ==> RowsOf(log + (emissions + [row]), run) == [SuspendedOf(row)] + RowsOf(log, run)
  {
    forall kind | kind != Emitted && kind != RollbackEmitted
      ensures Adds(log, log + (emissions + [row]), run, row, kind)
    {
      HasSplit(log, emissions + [row], kind, run);
      assert row in emissions + [row];
    }
    if row.kind != Suspended {
      RowsOfOthers(log, emissions + [row], run);
    } else if row.step.Some? {
      RowsOfWork(log, emissions, row);
    }
  }

  lemma RollingWriteMoves(env: Env, log: Log, run: Event, view: Log, settled: set<Lineage>, choice: Choice,
                          emissions: seq<Event>, row: Event)
    requires WritesTick(env, log, run, view, settled, choice, emissions, row)
    requires Sound(env.sagas(run.coroutine.value), RowsOf(view, run.lineage)) && Has(view, RollingBack, run.lineage)
    requires RowsOf(view, run.lineage) == RowsOf(log, run.lineage) && OneRow(run.lineage, emissions, row)
    ensures MovesBack(env.sagas(run.coroutine.value), log + (emissions + [row]), run.lineage,
                      Move(RowsOf(view, run.lineage), true, FailedRollbackReported(view, settled, run.coroutine.value), row))
  {
    hide Saga.TickOf, FailedRollbackReported, ChildHasRolledBack, Sound, RowsOf, WritesOf, EntryRun, PlanFor, Standing,
      Adds;
    var saga, rows := env.sagas(run.coroutine.value), RowsOf(view, run.lineage);
    var failures := FailuresOf(view, settled, run.coroutine.value, run.lineage);
    RollingTick(saga, rows, PlanFor(saga, rows), failures, choice.user, choice.before, choice.after, row.createdAt);
    if row.kind == Suspended {
      OnlySuspendedRecords(Saga.TickOf(saga, rows, failures, choice.user, choice.before, choice.after, row.createdAt), row);
    }
    OneRowIsAdded(log, run.lineage, emissions, row);
  }

  /** One action of a saga trace, with the invariants of the states around it. */
  ghost predicate Goes(env: Env, s: State, a: Action, choice: Choice, s': State) {
    && SystemInv(s) && TreeInv(env, s) && Inv(s'.log) && TreeKept(env, s'.log)
    && Next(s, a, s') && Disciplined(env, s, a, choice)
  }

  ghost predicate RunMoves(env: Env, log: Log, log': Log, run: Event, move: Option<Move>) {
    run.coroutine.Some? && Moves(env.sagas(run.coroutine.value), log, log', run.lineage, move)
  }

  lemma WriterMoves(env: Env, s: State, a: Action, choice: Choice, s': State, run: Event)
    requires Goes(env, s, a, choice, s') && MoveOf(s, a, run).Some?
    ensures RunMoves(env, s.log, s'.log, run, MoveOf(s, a, run))
  {
    hide Inv, LocksExclusive, SettledEarned, RequestsFollowEmissions, RequestsAnswered, RolledBackRun, WritesTick, WorkShape,
      RowsOf, FailedRollbackReported, Resumable, SelectedBy, RollbackPart, PlanFor, Standing, Sound, WorkAllowed, OneRow,
      MovesBack;
    var Resuming(_, view, stamped) := s.workers[a.worker];
    assert WorkerSound(s.log, s.workers[a.worker]);
    ViewAgrees(s.log, s.workers[a.worker]);
    assert Row(s.log, run) && Row(s'.log, run);
    WriteIsAllowed(s, a.worker, a.emissions, a.row);
    WorkHasOneRow(s.log, run, a.emissions, a.row);
    OneRowIsAdded(s.log, run.lineage, a.emissions, a.row);
    if Has(view, RollingBack, run.lineage) {
      RollingWriteMoves(env, s.log, run, view, stamped, choice, a.emissions, a.row);
    }
  }

  // ---------------------------------------------------------------- everybody else

  lemma BystanderUntouched(log: Log, step: LogStep, run: Event)
    requires Allowed(log, step) && Inv(log + Rows(step))
    requires run in log + Rows(step) && run.kind == Seen && (step.Work? ==> step.run != run)
    ensures RowsOf(log + Rows(step), run.lineage) == RowsOf(log, run.lineage)
    ensures forall kind :: kind == Committed || kind == RolledBack || kind == RollbackFailed
                           ==> Same(log, log + Rows(step), run.lineage, kind)
  {
    hide Inv, Allowed, RowsOf;
    RunIsDeep(log + Rows(step), run);
    OthersEndElsewhere(log, step, run);
    OnlyOwnWorkMoves(log, step, run.lineage);
    RowsOfOthers(log, Rows(step), run.lineage);
    forall kind | kind == Committed || kind == RolledBack || kind == RollbackFailed
      ensures Same(log, log + Rows(step), run.lineage, kind)
    {
      HasSplit(log, Rows(step), kind, run.lineage);
    }
  }

  lemma OthersEndElsewhere(log: Log, step: LogStep, run: Event)
    requires Allowed(log, step) && Inv(log + Rows(step))
    requires run in log + Rows(step) && run.kind == Seen && (step.Work? ==> step.run != run)
    ensures step.Work? ==> step.run.lineage != run.lineage && step.row.lineage != run.lineage
    ensures forall kind :: kind == Committed || kind == RolledBack || kind == RollbackFailed
                           ==> !Has(Rows(step), kind, run.lineage)
  {
    hide LineagesFormTree, RowsBelongToRuns, RunsHangUnderEmissions, RunsFollowAutomaton, EmissionsClosed, WindowsUnmixed,
      FinishingRowsLast, OpenChildrenAwaited, AskedRunsAtRest, ParentStillSuspendedOn, WorkShape;
    if step.Work? {
      assert step.run in log + Rows(step);
      WorkHasOneRow(log, step.run, step.emissions, step.row);
    }
  }

  lemma ActionMoves(env: Env, s: State, a: Action, choice: Choice, s': State, run: Event)
    requires Goes(env, s, a, choice, s') && run in s'.log && run.kind == Seen
    ensures RunMoves(env, s.log, s'.log, run, MoveOf(s, a, run))
  {
    hide Inv, Allowed, WorkShape, Ready, LocksExclusive, SettledEarned, RowsOf, WritesTick, TreeInv, Sound, RollbackPart,
      MovesBack, MovesOn, Unsettled, StaleSettled, FailedRollbackReported, WorkerSound;
    assert Row(s'.log, run);
    if MoveOf(s, a, run).Some? {
      WriterMoves(env, s, a, choice, s', run);
    } else {
      ActionIsAStep(s, a, s');
      if StepOf(s, a).Some? {
        BystanderUntouched(s.log, StepOf(s, a).value, run);
      }
    }
  }

  // ---------------------------------------------------------------- along a trace

  function Logs(states: seq<State>): (logs: seq<Log>) {
    seq(|states|, i requires 0 <= i < |states| => states[i].log)
  }

  ghost function MovesOf(states: seq<State>, actions: seq<Action>, run: Event): seq<Option<Move>>
    requires |actions| < |states|
  {
    seq(|actions|, i requires 0 <= i < |actions| => MoveOf(states[i], actions[i], run))
  }

  /** A run that begins with nothing and moves as the tick of its saga says. */
  ghost predicate Life(saga: Saga.Definition, logs: seq<Log>, moves: seq<Option<Move>>, run: Lineage) {
    && |logs| == |moves| + 1
    && RowsOf(logs[0], run) == [] && !RollbackTerminated(logs[0], run)
    && forall i {:trigger moves[i]} :: 0 <= i < |moves| ==> Moves(saga, logs[i], logs[i + 1], run, moves[i])
  }

  ghost predicate RanInTrace(env: Env, states: seq<State>, actions: seq<Action>, choices: seq<Choice>, i: nat, run: Event) {
    SagaTrace(env, states, actions, choices) && i < |states| && run in states[i].log && run.kind == Seen
    && run.coroutine.Some?
  }

  lemma RunIsKept(env: Env, states: seq<State>, actions: seq<Action>, choices: seq<Choice>, i: nat, run: Event)
    requires RanInTrace(env, states, actions, choices, i, run)
    ensures SeenKept(env, states[i].log, run)
  {
    TraceKeepsTree(env, states, actions, choices, i);
    assert Row(states[i].log, run);
  }

  lemma SeenOfLineage(log: Log, later: Log, run: Event)
    requires Inv(log) && Inv(later) && log <= later && run in later && run.kind == Seen
    requires exists e :: e in log && e.lineage == run.lineage && Own(e.kind)
    ensures run in log
  {
    var e :| e in log && e.lineage == run.lineage && Own(e.kind);
    RunIsDeep(later, run);
    assert Row(log, e);
    var s :| SeenOf(log, e, s);
    assert s in later;
  }

  /** A run that is not known yet has no rows, and nobody resumes it. */
  lemma UnknownHasNoRows(log: Log, later: Log, run: Event)
    requires Inv(log) && Inv(later) && log <= later && run in later && run.kind == Seen && run !in log
    ensures RowsOf(log, run.lineage) == [] && !Has(log, Committed, run.lineage) && !RollbackTerminated(log, run.lineage)
  {
    hide Inv;
    if RowsOf(log, run.lineage) != [] {
      var k := RowIsInLog(log, run.lineage, 0);
      assert log[k] in log;
    }
    if exists e :: e in log && e.lineage == run.lineage && Own(e.kind) {
      SeenOfLineage(log, later, run);
    }
  }

  lemma UnknownMoves(env: Env, s: State, a: Action, s': State, later: Log, run: Event)
    requires SystemInv(s) && Inv(s'.log) && Inv(later) && s.log <= s'.log <= later && run in later && run.kind == Seen
    requires run !in s'.log && run.coroutine.Some?
    ensures RunMoves(env, s.log, s'.log, run, MoveOf(s, a, run))
  {
    hide Inv, LocksExclusive, SettledEarned, RowsOf;
    UnknownHasNoRows(s.log, later, run);
    UnknownHasNoRows(s'.log, later, run);
  }

  /** Every run of every saga trace lives such a life. */
  lemma TraceIsLife(env: Env, states: seq<State>, actions: seq<Action>, choices: seq<Choice>, i: nat, run: Event)
    requires RanInTrace(env, states, actions, choices, i, run)
    ensures |states| == |actions| + 1
    ensures Life(env.sagas(run.coroutine.value), Logs(states), MovesOf(states, actions, run), run.lineage)
  {
    hide Inv, LocksExclusive, SettledEarned, WorkerSound, TreeKept, WorkersKnow, Next, Disciplined, Moves, MoveOf;
    TraceKeepsSystem(states, actions, i);
    forall k | 0 <= k < |actions|
      ensures RunMoves(env, states[k].log, states[k + 1].log, run, MoveOf(states[k], actions[k], run))
    {
      TraceKeepsSystem(states, actions, k);
      TraceKeepsSystem(states, actions, k + 1);
      if run in states[k + 1].log {
        TraceKeepsTree(env, states, actions, choices, k);
        TraceKeepsTree(env, states, actions, choices, k + 1);
        ActionMoves(env, states[k], actions[k], choices[k], states[k + 1], run);
      } else {
        LogsOnlyGrow(states, actions, k, k + 1);
        if i <= k + 1 { LogsOnlyGrow(states, actions, i, k + 1); } else { LogsOnlyGrow(states, actions, k + 1, i); }
        UnknownMoves(env, states[k], actions[k], states[k + 1], states[i].log, run);
      }
    }
  }
}
