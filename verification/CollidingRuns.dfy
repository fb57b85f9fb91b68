/**
 Runs whose plan has two entries of one name, in every saga trace: they stand before the second of them at most, whatever is
 reported and whatever code does, and never become ROLLED_BACK.
 */
module CollidingRuns {
  import opened Options
  import opened EventLog
  import opened Readiness
  import opened Protocol
  import opened Workers
  import opened Safety
  import opened RollbackPlan
  import opened RunRows
  import opened RunHistory
  import opened RollbackEnds
  import opened TreeRollback
  import opened RunLives
  import opened RollbackStart
  import Saga

  /** The rollback does not stand behind the second of two entries with one name. */
  ghost predicate NotBehind(saga: Saga.Definition, rows: seq<Saga.Suspended>, plan: seq<PlanStep>) {
    forall i, j :: 0 <= i < j < |plan| && plan[i].name == plan[j].name && Standing(saga, rows, plan).Some?
                   ==> Standing(saga, rows, plan).value <= j
  }

  ghost predicate Bounded(saga: Saga.Definition, log: Log, run: Lineage) {
    NotBehind(saga, RowsOf(log, run), PlanFor(saga, RowsOf(log, run)))
  }

  lemma RollingRowKeepsBound(saga: Saga.Definition, rows: seq<Saga.Suspended>, row: Saga.Suspended, plan: seq<PlanStep>,
                             failed: bool)
    requires Sound(saga, rows) && plan == PlanFor(saga, rows) && NotBehind(saga, rows, plan)
    requires RollingOutcome(saga, rows, plan, failed, Saga.WroteSuspended(row))
    ensures plan == PlanFor(saga, [row] + rows) && NotBehind(saga, [row] + rows, plan)
  {
    hide Sound, ForwardPart, Standing, RollingOutcome;
    RollingRowJoins(saga, rows, row, plan, failed);
    forall i, j | 0 <= i < j < |plan| && plan[i].name == plan[j].name
      ensures Standing(saga, [row] + rows, plan).Some? ==> Standing(saga, [row] + rows, plan).value <= j
    {
      RowKeepsStuck(saga, rows, row, plan, i, j, failed);
    }
  }

  lemma RollingRowJoins(saga: Saga.Definition, rows: seq<Saga.Suspended>, row: Saga.Suspended, plan: seq<PlanStep>,
                        failed: bool)
    requires Sound(saga, rows) && RollingOutcome(saga, rows, plan, failed, Saga.WroteSuspended(row))
    ensures ForwardPart(saga, [row] + rows) == ForwardPart(saga, rows)
  {
    hide Sound, ForwardPart, Standing;
    AddRollbackRow(saga, rows, row);
  }

  lemma NotRollingIsBounded(saga: Saga.Definition, log: Log, run: Lineage)
    requires RollbackPart(saga, RowsOf(log, run)) == []
    ensures Bounded(saga, log, run)
  {}

  lemma MoveKeepsBound(saga: Saga.Definition, log: Log, log': Log, run: Lineage, move: Option<Move>)
    requires Moves(saga, log, log', run, move) && Bounded(saga, log, run)
    ensures Bounded(saga, log', run)
  {
    hide RowsOf, Sound, NotBehind, PlanFor, RollingOutcome, RollbackPart;
    if move.Some? && move.value.row.kind == Suspended {
      var Move(rows, rolling, told, row) := move.value;
      if rolling {
        RollingRowKeepsBound(saga, rows, SuspendedOf(row), PlanFor(saga, rows), told);
      } else {
        NotRollingIsBounded(saga, log', run);
      }
    }
  }

  lemma {:induction false} BoundedAlong(saga: Saga.Definition, logs: seq<Log>, moves: seq<Option<Move>>, run: Lineage, i: nat)
    requires Life(saga, logs, moves, run) && i < |logs|
    ensures Bounded(saga, logs[i], run)
  {
    hide Moves, Bounded, RowsOf;
    if i == 0 {
      NotRollingIsBounded(saga, logs[0], run);
    } else {
      BoundedAlong(saga, logs, moves, run, i - 1);
      MoveKeepsBound(saga, logs[i - 1], logs[i], run, moves[i - 1]);
    }
  }

  lemma {:induction false} RollingStays(saga: Saga.Definition, logs: seq<Log>, moves: seq<Option<Move>>, run: Lineage, i: nat,
                                        j: nat)
    requires Life(saga, logs, moves, run) && i <= j < |logs| && Has(logs[i], RollingBack, run)
    ensures Has(logs[j], RollingBack, run) && StoodStill(saga, logs[i], logs[j], run)
  {
    hide RowsOf, ForwardPart, Has, MovesBack, MovesOn;
    if i < j {
      RollingStays(saga, logs, moves, run, i, j - 1);
      assert Moves(saga, logs[j - 1], logs[j], run, moves[j - 1]);
      RollingMoveStandsStill(saga, logs[j - 1], logs[j], run, moves[j - 1]);
    }
  }

  /** ROLLED_BACK is only ever written for runs whose plan has pairwise distinct names. */
  lemma RolledBackRunsHaveDistinctNames(env: Env, states: seq<State>, actions: seq<Action>, choices: seq<Choice>, i: nat,
                                        run: Event)
    requires RanInTrace(env, states, actions, choices, i, run) && Has(states[i].log, RolledBack, run.lineage)
    ensures var saga := env.sagas(run.coroutine.value);
            DistinctNames(PlanFor(saga, RowsOf(states[i].log, run.lineage)))
  {
    hide SagaTrace, Life, RunKept, RowsOf, PlanFor, Standing;
    RunIsKept(env, states, actions, choices, i, run);
    TraceIsLife(env, states, actions, choices, i, run);
    BoundedAlong(env.sagas(run.coroutine.value), Logs(states), MovesOf(states, actions, run), run.lineage, i);
  }

  /** A rolling run with two entries of one name is never ROLLED_BACK, in whatever way the trace goes on. */
  lemma CollidingRunNeverRollsBack(env: Env, states: seq<State>, actions: seq<Action>, choices: seq<Choice>, i: nat, j: nat,
                                   run: Event)
    requires RanInTrace(env, states, actions, choices, i, run) && i <= j < |states|
    requires Has(states[i].log, RollingBack, run.lineage)
    requires !DistinctNames(PlanFor(env.sagas(run.coroutine.value), RowsOf(states[i].log, run.lineage)))
    ensures !Has(states[j].log, RolledBack, run.lineage)
  {
    hide Trace, Disciplined, Life, RowsOf, ForwardPart, DistinctNames;
    LogsOnlyGrow(states, actions, i, j);
    TraceIsLife(env, states, actions, choices, i, run);
    RollingStays(env.sagas(run.coroutine.value), Logs(states), MovesOf(states, actions, run), run.lineage, i, j);
    if Has(states[j].log, RolledBack, run.lineage) {
      RolledBackRunsHaveDistinctNames(env, states, actions, choices, j, run);
    }
  }
}
