/**
 What a failed or rolled back child means for all later resumes of its parent.  child_rolling_backs is not limited to the
 latest step, so what has once been reported to a run is reported to it for ever.
 */
module TreeFinality {
  import opened Options
  import opened EventLog
  import opened Readiness
  import opened Protocol
  import opened AutomatonProofs
  import opened CooperationProofs
  import opened Workers
  import opened Safety
  import opened RunRows
  import opened RunHistory
  import opened TreeRollback
  import opened RestingChildren
  import opened TreeProofs
  import opened RunLives
  import opened TreeTheorems
  import opened RollbackPlan
  import Saga

  // ---------------------------------------------------------------- what every later resume is told

  /** A child's rollback that has begun by the time of a write had ended when the writer read the log. */
  lemma BegunRollbackIsInView(log: Log, run: Event, view: Log, b: Event)
    requires Structure(log) && view <= log && run in log && run.kind == Seen && ChildrenAtRest(log, run.lineage, view)
    requires b in log && ChildRollingBack(log, run.lineage, b)
    ensures RollbackTerminated(view, b.lineage) && ChildHasRolledBack(view, run.lineage)
    ensures exists d :: d in view && ChildRollingBack(view, run.lineage, d) && d.lineage == b.lineage
  {
    ContainmentIsPrefix(log, run.lineage, b.lineage);
    RunLineageIsDeep(log, run);
    assert Row(log, b);
    var c :| SeenOf(log, b, c);
    assert Row(log, c);
    var d :| d in view && d.kind == RollingBack && d.lineage == b.lineage;
    assert ChildRollingBack(view, run.lineage, d);
  }

  /** A writer, as the theorems below need it. */
  ghost predicate Writes(s: State, a: Action, run: Event, view: Log) {
    && a.Write? && a.worker in s.workers && s.workers[a.worker].Resuming?
    && s.workers[a.worker].run == run && s.workers[a.worker].view == view
    && Inv(s.log) && view <= s.log && run in s.log && run.kind == Seen && a.row.lineage == run.lineage
    && RowsOf(view, run.lineage) == RowsOf(s.log, run.lineage)
    && (Has(view, RollingBack, run.lineage) <==> Has(s.log, RollingBack, run.lineage))
    && SelectedBy(run, view, s.workers[a.worker].stamped) && ChildrenAtRest(s.log, run.lineage, view)
  }

  lemma WriterOfTrace(env: Env, states: seq<State>, actions: seq<Action>, choices: seq<Choice>, j: nat)
    returns (run: Event, view: Log)
    requires SagaTrace(env, states, actions, choices) && j < |actions| && actions[j].Write?
    ensures Writes(states[j], actions[j], run, view)
  {
    hide Inv, LocksExclusive, SettledEarned, TreeKept, ChildrenAtRest, Apply, SelectedBy, RowsOf, OwnRowsSeen, Resumable, Has;
    TraceKeepsSystem(states, actions, j);
    TraceKeepsTree(env, states, actions, choices, j);
    var Resuming(seen, seenLog, _) := states[j].workers[actions[j].worker];
    run, view := seen, seenLog;
    assert WorkerSound(states[j].log, states[j].workers[actions[j].worker]);
    ViewAgrees(states[j].log, states[j].workers[actions[j].worker]);
  }

  /** A child whose rollback has begun is reported on every later resume, which also knows how it ended. */
  lemma ReportsArePermanent(env: Env, states: seq<State>, actions: seq<Action>, choices: seq<Choice>, i: nat, j: nat)
    requires SagaTrace(env, states, actions, choices) && i <= j < |actions| && actions[j].Write?
    ensures ChildHasRolledBack(states[i].log, actions[j].row.lineage)
            ==> ChildHasRolledBack(states[j].workers[actions[j].worker].view, actions[j].row.lineage)
    ensures ChildRollbackHasFailed(states[i].log, actions[j].row.lineage)
            ==> ChildRollbackHasFailed(states[j].workers[actions[j].worker].view, actions[j].row.lineage)
  {
    hide Enabled, Apply, Disciplined, ChildrenAtRest, ChildHasRolledBack, ChildRollbackHasFailed, Has;
    var run, view := WriterOfTrace(env, states, actions, choices, j);
    LogsOnlyGrow(states, actions, i, j);
    if ChildHasRolledBack(states[i].log, run.lineage) {
      BegunIsInView(states[i].log, states[j].log, run, view);
    }
    if ChildRollbackHasFailed(states[i].log, run.lineage) {
      var b := FailedStays(states[i].log, states[j].log, run.lineage);
      if Has(states[j].log, RolledBack, b.lineage) {
        EndsOnce(states, actions, j, b.lineage);
      }
      FailureIsInView(states[j].log, run, view, b);
    }
  }

  lemma BegunIsInView(earlier: Log, log: Log, run: Event, view: Log)
    requires Structure(log) && view <= log && run in log && run.kind == Seen && ChildrenAtRest(log, run.lineage, view)
    requires earlier <= log && ChildHasRolledBack(earlier, run.lineage)
    ensures ChildHasRolledBack(view, run.lineage)
  {
    hide Structure, ChildrenAtRest;
    var b :| b in earlier && ChildRollingBack(earlier, run.lineage, b);
    BegunRollbackIsInView(log, run, view, b);
  }

  lemma FailedStays(earlier: Log, log: Log, run: Lineage) returns (b: Event)
    requires earlier <= log && ChildRollbackHasFailed(earlier, run)
    ensures b in log && ChildRollingBack(log, run, b) && Has(log, RollbackFailed, b.lineage)
  {
    b :| b in earlier && ChildRollingBack(earlier, run, b) && Has(earlier, RollbackFailed, b.lineage);
    HasStays(earlier, log, RollbackFailed, b.lineage);
  }

  lemma FailureIsInView(log: Log, run: Event, view: Log, b: Event)
    requires Structure(log) && view <= log && run in log && run.kind == Seen && ChildrenAtRest(log, run.lineage, view)
    requires b in log && ChildRollingBack(log, run.lineage, b)
    requires Has(log, RollbackFailed, b.lineage) && !Has(log, RolledBack, b.lineage)
    ensures ChildRollbackHasFailed(view, run.lineage)
  {
    hide Structure, ChildrenAtRest;
    BegunRollbackIsInView(log, run, view, b);
    if Has(view, RolledBack, b.lineage) {
      HasStays(view, log, RolledBack, b.lineage);
    }
  }

  /**
   Once a child has failed to roll back, its parent can only run failure handlers: whenever it is resumed later, it never
   becomes COMMITTED or ROLLED_BACK, and each of its suspensions carries a handler iteration.
   */
  lemma FailedChildRollbackIsFinal(env: Env, states: seq<State>, actions: seq<Action>, choices: seq<Choice>, i: nat,
                                   j: nat)
    requires SagaTrace(env, states, actions, choices) && i <= j < |actions| && actions[j].Write?
    requires ChildRollbackHasFailed(states[i].log, actions[j].row.lineage)
    ensures actions[j].row.kind != Committed && actions[j].row.kind != RolledBack
    ensures actions[j].row.kind == Suspended ==> actions[j].row.handlerIteration.Some?
  {
    hide Enabled, Apply, ChildrenAtRest, WritesTick, ChildRollbackHasFailed;
    ReportsArePermanent(env, states, actions, choices, i, j);
    var run, view := WriterOfTrace(env, states, actions, choices, j);
    FailedChildWrite(env, states[j].log, run, view, states[j].workers[actions[j].worker].stamped, choices[j],
                     actions[j].emissions, actions[j].row);
  }

  lemma FailedChildWrite(env: Env, log: Log, run: Event, view: Log, settled: set<Lineage>, choice: Choice,
                         emissions: seq<Event>, row: Event)
    requires WritesTick(env, log, run, view, settled, choice, emissions, row)
    requires ChildRollbackHasFailed(view, run.lineage) && SelectedBy(run, view, settled)
    ensures row.kind != Committed && row.kind != RolledBack
    ensures row.kind == Suspended ==> row.handlerIteration.Some?
  {
    hide Saga.TickOf, ChildRollbackHasFailed;
    assert FailedRollbackReported(view, settled, run.coroutine.value);
    FailedChildTick(env.sagas(run.coroutine.value), RowsOf(view, run.lineage),
                    FailuresOf(view, settled, run.coroutine.value, run.lineage), choice.user, choice.before, choice.after,
                    row.createdAt);
  }

  /**
   Going forward, the only way out of a failure handler is to throw: once a child has begun to roll back, every later
   resume of a run that is not rolling back itself runs the handler once more, and neither invokes a step nor commits.
   */
  lemma HandlerIsLeftOnlyByThrowing(env: Env, states: seq<State>, actions: seq<Action>, choices: seq<Choice>, i: nat,
                                    j: nat)
    requires SagaTrace(env, states, actions, choices) && i <= j < |actions| && actions[j].Write?
    requires ChildHasRolledBack(states[i].log, actions[j].row.lineage)
    requires !Has(states[j].log, RollingBack, actions[j].row.lineage)
    ensures actions[j].row.kind == Suspended || actions[j].row.kind == RollingBack
    ensures actions[j].row.kind == Suspended ==>
              actions[j].row.handlerIteration
              == Some(Incremented(LastHandler(RowsOf(states[j].log, actions[j].row.lineage))))
  {
    hide Enabled, Apply, ChildrenAtRest, WritesTick, ChildHasRolledBack, SelectedBy;
    ReportsArePermanent(env, states, actions, choices, i, j);
    var run, view := WriterOfTrace(env, states, actions, choices, j);
    HandlerWrite(env, states[j].log, run, view, states[j].workers[actions[j].worker].stamped, choices[j],
                 actions[j].emissions, actions[j].row);
  }

  lemma HandlerWrite(env: Env, log: Log, run: Event, view: Log, settled: set<Lineage>, choice: Choice,
                     emissions: seq<Event>, row: Event)
    requires WritesTick(env, log, run, view, settled, choice, emissions, row)
    requires ChildHasRolledBack(view, run.lineage) && !Has(view, RollingBack, run.lineage)
    ensures row.kind == Suspended || row.kind == RollingBack
    ensures row.kind == Suspended
            ==> row.handlerIteration == Some(Incremented(LastHandler(RowsOf(view, run.lineage))))
  {
    hide Saga.TickOf, ChildHasRolledBack;
    ReportedFailureTick(env.sagas(run.coroutine.value), RowsOf(view, run.lineage),
                        FailuresOf(view, settled, run.coroutine.value, run.lineage), choice.user, choice.before,
                        choice.after, row.createdAt);
  }
}
