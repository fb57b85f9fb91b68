/** Every step of a saga trace keeps the books of every run; what that means for a run that reaches ROLLED_BACK. */
module TreeProofs {
  import opened Options
  import opened EventLog
  import opened Readiness
  import opened Protocol
  import opened StructureProofs
  import opened AutomatonProofs
  import opened CooperationProofs
  import opened Workers
  import opened Windows
  import opened StandardStrategy
  import opened RollbackPlan
  import opened RunRows
  import opened RunHistory
  import opened TreeRollback
  import opened RestingChildren
  import Saga

  // ---------------------------------------------------------------- the invariant

  /** A run that is ROLLED_BACK stood behind its whole plan, and every child run it asked is ROLLED_BACK. */
  ghost predicate RolledBackRun(saga: Saga.Definition, log: Log, run: Lineage) {
    Has(log, RolledBack, run) ==>
      && Standing(saga, RowsOf(log, run), PlanFor(saga, RowsOf(log, run)))
         == Some(|PlanFor(saga, RowsOf(log, run))|)
      && forall r, c | r in log && r.kind == RollbackEmitted && r.lineage == run
                       && c in log && c.kind == Seen && c.message == r.message :: Has(log, RolledBack, c.lineage)
  }

  ghost predicate SeenKept(env: Env, log: Log, c: Event) {
    && c.coroutine.Some? && Registered(env.registry, c.message, c.coroutine.value)
    && RunKept(env.sagas(c.coroutine.value), log, c.lineage)
    && RolledBackRun(env.sagas(c.coroutine.value), log, c.lineage)
  }

  ghost predicate TreeKept(env: Env, log: Log) {
    && (forall c {:trigger Row(log, c)} :: Row(log, c) && c.kind == Seen ==> SeenKept(env, log, c))
    && RequestsFollowEmissions(log) && RequestsAnswered(log)
  }

  ghost predicate Informed(log: Log, run: Lineage, view: Log) {
    WorkerKnows(log, run, view) && ChildrenAtRest(log, run, view)
  }

  ghost predicate WorkersKnow(s: State) {
    forall w :: w in s.workers && s.workers[w].Resuming?
                ==> Informed(s.log, s.workers[w].run.lineage, s.workers[w].view)
  }

  // ---------------------------------------------------------------- steps of the log

  lemma BystanderSeenKept(env: Env, log: Log, step: LogStep, c: Event)
    requires Inv(log) && RequestsFollowEmissions(log) && Allowed(log, step)
    requires c in log && c.kind == Seen && SeenKept(env, log, c)
    requires Unmoved(Rows(step), c.lineage) && !Has(Rows(step), RolledBack, c.lineage)
    ensures SeenKept(env, log + Rows(step), c)
  {
    var saga, run, rows := env.sagas(c.coroutine.value), c.lineage, Rows(step);
    BystanderKept(saga, log, rows, run);
    HasSplit(log, rows, RolledBack, run);
    RunIsDeep(log, c);
    if Has(log, RolledBack, run) {
      forall r, d | r in log + rows && r.kind == RollbackEmitted && r.lineage == run
                    && d in log + rows && d.kind == Seen && d.message == r.message
        ensures Has(log + rows, RolledBack, d.lineage)
      {
        RunsOfAskedAreOld(log, step, r, d);
        HasSplit(log, rows, RolledBack, d.lineage);
      }
    }
  }

  lemma StartedSeenKept(env: Env, log: Log, row: Event, emission: Event)
    requires StartRunAllowed(log, row, emission)
    requires Registered(env.registry, row.message, row.coroutine.value)
    ensures SeenKept(env, log + [row], row)
  {
    StartedRunIsNew(log, StartRun(row, emission), row);
    NoRowsOfStranger(log, row.lineage);
    RowsOfOthers(log, [row], row.lineage);
    assert NothingAsked(log + [row], row.lineage);
    NotRollingKept(env.sagas(row.coroutine.value), log + [row], row.lineage);
    HasSplit(log, [row], RolledBack, row.lineage);
  }

  lemma WorkCommits(log: Log, run: Event, emissions: seq<Event>, row: Event)
    requires WorkAllowed(log, run, emissions, row) && row.kind == Suspended && row.step.Some?
    ensures Commits(log, run.lineage, emissions, row)
  {
    forall e | e in emissions
      ensures After(log, e) && e.lineage == run.lineage && (e.kind == Emitted || e.kind == RollbackEmitted)
    {
      assert EmissionAllowed(log, run, e) || RollbackEmissionAllowed(log, run, e);
    }
  }

  lemma TickRowHasStep(env: Env, log: Log, run: Event, view: Log, settled: set<Lineage>, choice: Choice,
                       emissions: seq<Event>, row: Event)
    requires WritesTick(env, log, run, view, settled, choice, emissions, row) && row.kind == Suspended
    ensures row.step.Some?
  {
    hide Saga.TickOf, Records, FailuresOf, RowsOf, WritesOf, EntryRun;
    var failures := FailuresOf(view, settled, run.coroutine.value, run.lineage);
    OnlySuspendedRecords(Saga.TickOf(env.sagas(run.coroutine.value), RowsOf(view, run.lineage), failures, choice.user,
                                     choice.before, choice.after, row.createdAt), row);
  }

  lemma SuspendingSeenKept(env: Env, log: Log, run: Event, view: Log, settled: set<Lineage>, choice: Choice,
                           emissions: seq<Event>, row: Event)
    requires Inv(log) && StampsIncrease(log) && SeenKept(env, log, run)
    requires WorkAllowed(log, run, emissions, row) && row.kind == Suspended
    requires WritesTick(env, log, run, view, settled, choice, emissions, row) && WorkerKnows(log, run.lineage, view)
    requires Has(view, RollingBack, run.lineage) <==> Has(log, RollingBack, run.lineage)
    ensures SeenKept(env, log + (emissions + [row]), run)
  {
    hide LineagesFormTree, SeenUnique, RowsBelongToRuns, RunsFollowAutomaton, EmissionsClosed, WindowsUnmixed,
      FinishingRowsLast, OpenChildrenAwaited, AskedRunsAtRest, WritesTick, RunKept, Commits, WorkShape,
      StampsIncrease;
    TickRowHasStep(env, log, run, view, settled, choice, emissions, row);
    WorkCommits(log, run, emissions, row);
    SuspensionKept(env, log, run, view, settled, choice, emissions, row);
    HasSplit(log, emissions + [row], RolledBack, run.lineage);
  }

  /** The tick that writes ROLLED_BACK stood behind the plan and was told of no failed child rollback. */
  lemma RolledBackTick(env: Env, log: Log, run: Event, view: Log, settled: set<Lineage>, choice: Choice,
                       row: Event)
    requires run.coroutine.Some?
    requires Sound(env.sagas(run.coroutine.value), RowsOf(view, run.lineage))
    requires !Has(view, RollingBack, run.lineage)
             ==> RollbackPart(env.sagas(run.coroutine.value), RowsOf(view, run.lineage)) == []
    requires WritesTick(env, log, run, view, settled, choice, [], row) && row.kind == RolledBack
    requires run in view && SelectedBy(run, view, settled)
    ensures var saga, rows := env.sagas(run.coroutine.value), RowsOf(view, run.lineage);
            Standing(saga, rows, PlanFor(saga, rows)) == Some(|PlanFor(saga, rows)|)
    ensures !ChildRollbackHasFailed(view, run.lineage)
  {
    var saga, rows := env.sagas(run.coroutine.value), RowsOf(view, run.lineage);
    var Choice(user, before, after) := choice;
    var failures := FailuresOf(view, settled, run.coroutine.value, run.lineage);
    OnlyRolledBackRecords(Saga.TickOf(saga, rows, failures, user, before, after, row.createdAt), row);
    RolledBackMeansDone(saga, rows, PlanFor(saga, rows), failures, user, before, after, row.createdAt);
  }

  lemma OnlyRolledBackRecords(tick: Saga.Tick, row: Event)
    requires Records(tick, row) && row.kind == RolledBack
    ensures tick.WroteRolledBack?
  {}

  /** A run of a message this run asked for is its child. */
  lemma AskedRunIsChild(log: Log, r: Event, c: Event)
    requires Structure(log) && RequestsFollowEmissions(log)
    requires r in log && r.kind == RollbackEmitted && |r.lineage| > 1
    requires c in log && c.kind == Seen && c.message == r.message
    ensures IsChild(r.lineage, c.lineage) && LooksLikeChild(r.lineage, c.lineage)
  {
    assert Row(log, r);
    var e :| e in log && e.kind == Emitted && e.lineage == r.lineage && e.message == r.message
             && e.createdAt < r.createdAt;
    SameMessageSameParent(log, e, c);
    ChildLooksLikeChild(r.lineage, c.lineage);
  }

  lemma AskedChildRolledBack(log: Log, run: Lineage, view: Log, c: Event)
    requires view <= log && !ChildRollbackHasFailed(view, run) && LooksLikeChild(run, c.lineage)
    requires RollbackTerminated(view, c.lineage) && Has(view, RollingBack, c.lineage)
    ensures Has(log, RolledBack, c.lineage)
  {
    var b :| b in view && b.kind == RollingBack && b.lineage == c.lineage;
    assert ChildRollingBack(view, run, b);
    HasSplit(view, log[|view|..], RolledBack, c.lineage);
    assert log == view + log[|view|..];
  }

  lemma AskedChildrenRolledBack(log: Log, run: Lineage, view: Log, row: Event)
    requires Structure(log) && RequestsFollowEmissions(log) && view <= log && |run| > 1 && row.kind == RolledBack
    requires WorkerKnows(log, run, view) && !ChildRollbackHasFailed(view, run)
    ensures forall r, c | r in log + [row] && r.kind == RollbackEmitted && r.lineage == run
                          && c in log + [row] && c.kind == Seen && c.message == r.message ::
              Has(log + [row], RolledBack, c.lineage)
  {
    forall r, c | r in log + [row] && r.kind == RollbackEmitted && r.lineage == run
                  && c in log + [row] && c.kind == Seen && c.message == r.message
      ensures Has(log + [row], RolledBack, c.lineage)
    {
      AskedRunIsChild(log, r, c);
      AskedChildRolledBack(log, run, view, c);
      HasSplit(log, [row], RolledBack, c.lineage);
    }
  }

  lemma RollingBackSeenKept(env: Env, log: Log, run: Event, view: Log, settled: set<Lineage>, choice: Choice,
                            row: Event)
    requires Inv(log) && RequestsFollowEmissions(log) && SeenKept(env, log, run)
    requires run in log && run.kind == Seen && view <= log && row.kind == RolledBack
    requires WritesTick(env, log, run, view, settled, choice, [], row) && WorkerKnows(log, run.lineage, view)
    requires SelectedBy(run, view, settled)
    requires Has(view, RollingBack, run.lineage) <==> Has(log, RollingBack, run.lineage)
    ensures SeenKept(env, log + [row], run)
  {
    hide SeenUnique, RowsBelongToRuns, RunsFollowAutomaton, EmissionsClosed, WindowsUnmixed, FinishingRowsLast,
      OpenChildrenAwaited, AskedRunsAtRest, WritesTick;
    RunIsDeep(log, run);
    BystanderKept(env.sagas(run.coroutine.value), log, [row], run.lineage);
    RolledBackTick(env, log, run, view, settled, choice, row);
    AskedChildrenRolledBack(log, run.lineage, view, row);
  }

  // ---------------------------------------------------------------- actions

  lemma ViewAgrees(log: Log, phase: Phase)
    requires WorkerSound(log, phase) && phase.Resuming?
    ensures Has(phase.view, RollingBack, phase.run.lineage) <==> Has(log, RollingBack, phase.run.lineage)
    ensures phase.view <= log
  {
    if b :| b in log && b.kind == RollingBack && b.lineage == phase.run.lineage {
      assert b in phase.view;
    }
  }

  lemma AppendKeepsTree(env: Env, log: Log, step: LogStep)
    requires Inv(log) && TreeKept(env, log) && Allowed(log, step) && !step.Work?
    requires step.StartRun? && step.row.coroutine.Some?
             ==> Registered(env.registry, step.row.message, step.row.coroutine.value)
    ensures TreeKept(env, log + Rows(step))
  {
    hide Inv, RequestsFollowEmissions, RequestsAnswered, SeenKept;
    forall c | Row(log + Rows(step), c) && c.kind == Seen ensures SeenKept(env, log + Rows(step), c) {
      if c in log {
        assert Row(log, c);
        RunIsDeep(log, c);
        OnlyOwnWorkMoves(log, step, c.lineage);
        BystanderSeenKept(env, log, step, c);
      } else {
        StartedRunIsNew(log, step, c);
        StartedSeenKept(env, log, step.row, step.emission);
      }
    }
    StepKeepsRequestsFollow(log, step);
    StepKeepsRequestsAnswered(log, step);
  }

  lemma WriteKeepsOwnSeen(env: Env, log: Log, run: Event, view: Log, settled: set<Lineage>, choice: Choice,
                          emissions: seq<Event>, row: Event)
    requires Inv(log) && StampsIncrease(log) && TreeKept(env, log)
    requires WorkAllowed(log, run, emissions, row) && WritesTick(env, log, run, view, settled, choice, emissions, row)
    requires WorkerKnows(log, run.lineage, view) && view <= log && SelectedBy(run, view, settled)
    requires Has(view, RollingBack, run.lineage) <==> Has(log, RollingBack, run.lineage)
    ensures SeenKept(env, log + (emissions + [row]), run)
  {
    hide Inv, StampsIncrease, WritesTick, SeenKept, WorkerKnows, RequestsFollowEmissions, RequestsAnswered, Quiet;
    assert Row(log, run);
    if row.kind == Suspended {
      SuspendingSeenKept(env, log, run, view, settled, choice, emissions, row);
    } else if row.kind == RolledBack {
      assert emissions + [row] == [row];
      RollingBackSeenKept(env, log, run, view, settled, choice, row);
    } else {
      RunIsDeep(log, run);
      OnlyOwnWorkMoves(log, Work(run, emissions, row), run.lineage);
      assert emissions == [];
      BystanderSeenKept(env, log, Work(run, emissions, row), run);
    }
  }

  lemma WriteKeepsTree(env: Env, log: Log, run: Event, view: Log, settled: set<Lineage>, choice: Choice,
                       emissions: seq<Event>, row: Event)
    requires Inv(log) && StampsIncrease(log) && TreeKept(env, log)
    requires WorkAllowed(log, run, emissions, row) && WritesTick(env, log, run, view, settled, choice, emissions, row)
    requires WorkerKnows(log, run.lineage, view) && view <= log && SelectedBy(run, view, settled)
    requires Has(view, RollingBack, run.lineage) <==> Has(log, RollingBack, run.lineage)
    ensures TreeKept(env, log + (emissions + [row]))
  {
    var step := Work(run, emissions, row);
    WorkStartsNothing(log, run, emissions, row);
    forall c | Row(log + Rows(step), c) && c.kind == Seen ensures SeenKept(env, log + Rows(step), c) {
      if c.lineage == run.lineage {
        assert c == run;
        WriteKeepsOwnSeen(env, log, run, view, settled, choice, emissions, row);
      } else {
        assert Row(log, c);
        RunIsDeep(log, c);
        OnlyOwnWorkMoves(log, step, c.lineage);
        OthersRowsElsewhere(log, run, emissions, row, c.lineage);
        BystanderSeenKept(env, log, step, c);
      }
    }
    StepKeepsRequestsFollow(log, step);
    forall r | r in log && r.kind == RollbackEmitted && r.lineage == run.lineage ensures Answered(log, r.message) {
      AnswersAreInLog(log, run.lineage, view, r);
    }
    StepKeepsRequestsAnswered(log, step);
  }

  lemma OthersRowsElsewhere(log: Log, run: Event, emissions: seq<Event>, row: Event, other: Lineage)
    requires WorkAllowed(log, run, emissions, row) && other != run.lineage
    ensures !Has(emissions + [row], RolledBack, other)
  {
    forall e | e in emissions ensures e.lineage == run.lineage {
      assert EmissionAllowed(log, run, e) || RollbackEmissionAllowed(log, run, e);
    }
  }

  lemma AnswersAreInLog(log: Log, run: Lineage, view: Log, r: Event)
    requires WorkerKnows(log, run, view) && view <= log
    requires r in log && r.kind == RollbackEmitted && r.lineage == run
    ensures Answered(log, r.message)
  {
    forall c | c in log && c.kind == Seen && c.message == r.message ensures RollbackTerminated(log, c.lineage) {
      assert log == view + log[|view|..];
      RollbackTerminatedStays(view, log[|view|..], c.lineage);
    }
  }

  // ---------------------------------------------------------------- what workers know

  /** The second read: requests of the latest step are answered by readiness, older ones were before. */
  lemma RereadKnows(env: Env, log: Log, settled: set<Lineage>, coroutine: string, run: Event, strategy: Strategy)
    requires Inv(log) && TreeKept(env, log) && IsStandard(strategy, env.registry)
    requires Ready(log, settled, coroutine, run, strategy)
    ensures WorkerKnows(log, run.lineage, log)
  {
    RunIsDeep(log, run);
    forall r, c | r in log && r.kind == RollbackEmitted && r.lineage == run.lineage
                  && c in log && c.kind == Seen && c.message == r.message
      ensures RollbackTerminated(log, c.lineage) && Has(log, RollingBack, c.lineage)
    {
      assert Row(log, r) && Row(log, c);
      if RollbackEmissionInLatestStep(log, run.lineage, r) {
        AskedRunIsChild(log, r, c);
        ReadyMeansRollbacksFinished(log, settled, coroutine, run, strategy, env.registry, r, c);
      }
      StateDescribesLog(log, c.lineage);
    }
  }

  lemma RereadInforms(env: Env, log: Log, settled: set<Lineage>, coroutine: string, run: Event, strategy: Strategy)
    requires Inv(log) && TreeKept(env, log) && IsStandard(strategy, env.registry) && ReopenedWereAsked(log)
    requires Ready(log, settled, coroutine, run, strategy)
    ensures Informed(log, run.lineage, log)
  {
    hide Inv, SeenKept, RequestsFollowEmissions, RequestsAnswered, ReopenedWereAsked, IsStandard, WorkerKnows, ChildrenAtRest,
      Ready;
    RereadKnows(env, log, settled, coroutine, run, strategy);
    ReadyMeansResumable(log, settled, coroutine, run, strategy);
    RereadFindsChildrenAtRest(log, run);
  }

  lemma OthersKeepInformed(log: Log, step: LogStep, run: Event, view: Log)
    requires Inv(log) && RequestsFollowEmissions(log) && Allowed(log, step) && view <= log
    requires run in log && run.kind == Seen && Resumable(log, run) && LeavesRunAlone(step, run)
    requires Informed(log, run.lineage, view)
    ensures Informed(log + Rows(step), run.lineage, view)
  {
    hide Inv, RequestsFollowEmissions, Allowed, Resumable, LeavesRunAlone, ChildrenAtRest;
    RunIsDeep(log, run);
    OthersKeepResumable(log, step, run);
    RowsOfOthers(log, Rows(step), run.lineage);
    forall r, c | r in log + Rows(step) && r.kind == RollbackEmitted && r.lineage == run.lineage
                  && c in log + Rows(step) && c.kind == Seen && c.message == r.message
      ensures RollbackTerminated(view, c.lineage) && Has(view, RollingBack, c.lineage)
    {
      RunsOfAskedAreOld(log, step, r, c);
    }
    OthersKeepChildrenAtRest(log, step, run, view);
  }

  ghost predicate TreeInv(env: Env, s: State) {
    TreeKept(env, s.log) && WorkersKnow(s)
  }

  // ---------------------------------------------------------------- actions

  /** One action of a saga trace, with all that is known of the state before it. */
  ghost predicate Proceeds(env: Env, s: State, a: Action, choice: Choice, s': State) {
    && SystemInv(s) && StampsIncrease(s.log) && ReopenedWereAsked(s.log) && TreeInv(env, s)
    && Next(s, a, s') && Disciplined(env, s, a, choice)
  }

  lemma ActionKeepsTree(env: Env, s: State, a: Action, choice: Choice, s': State)
    requires Proceeds(env, s, a, choice, s')
    ensures TreeKept(env, s'.log)
  {
    hide Inv, StampsIncrease, LocksExclusive, SettledEarned, TreeKept, WorkerKnows, ChildrenAtRest, ReopenedWereAsked,
      WritesTick, WorkShape, Allowed, Ready, IsStandard, Unsettled, OwnRowsSeen, Resumable, SelectedBy, Registered;
    match a
    case Append(step) => AppendKeepsTree(env, s.log, step);
    case Write(w, emissions, row) =>
      var Resuming(run, view, stamped) := s.workers[w];
      assert WorkerSound(s.log, s.workers[w]);
      ViewAgrees(s.log, s.workers[w]);
      WriteIsAllowed(s, w, emissions, row);
      WriteKeepsTree(env, s.log, run, view, stamped, choice, emissions, row);
    case _ =>
  }

  lemma ActionKeepsInformed(env: Env, s: State, a: Action, choice: Choice, s': State)
    requires Proceeds(env, s, a, choice, s')
    ensures WorkersKnow(s')
  {
    hide Inv, StampsIncrease, LocksExclusive, SettledEarned, SeenKept, RequestsFollowEmissions, RequestsAnswered, Informed,
      ReopenedWereAsked, WritesTick, WorkShape, Allowed, Ready, IsStandard, Unsettled, OwnRowsSeen, Resumable, SelectedBy,
      LeavesRunAlone, StepOf;
    ActionIsAStep(s, a, s');
    forall v | v in s'.workers && s'.workers[v].Resuming?
      ensures Informed(s'.log, s'.workers[v].run.lineage, s'.workers[v].view)
    {
      if a.Reread? && a.worker == v {
        RereadInforms(env, s.log, s.settled, a.coroutine, s.workers[v].run, a.strategy);
      } else {
        assert WorkerSound(s.log, s.workers[v]);
        if StepOf(s, a).Some? {
          OthersKeepInformed(s.log, StepOf(s, a).value, s.workers[v].run, s.workers[v].view);
        }
      }
    }
  }

  lemma NothingToKeep(env: Env)
    ensures TreeInv(env, EMPTY)
  {}

  lemma {:induction false} TraceKeepsTree(env: Env, states: seq<State>, actions: seq<Action>, choices: seq<Choice>, i: nat)
    requires SagaTrace(env, states, actions, choices) && i < |states|
    ensures TreeInv(env, states[i])
  {
    hide SystemInv, StampsIncrease, ReopenedWereAsked, TreeKept, WorkersKnow, Next, Disciplined;
    if i == 0 {
      NothingToKeep(env);
    } else {
      TraceKeepsTree(env, states, actions, choices, i - 1);
      TraceKeepsSystem(states, actions, i - 1);
      GuardedRowsComeLater(states, actions, i - 1);
      ReopenedInTrace(states, actions, i - 1);
      ActionKeepsTree(env, states[i - 1], actions[i - 1], choices[i - 1], states[i]);
      ActionKeepsInformed(env, states[i - 1], actions[i - 1], choices[i - 1], states[i]);
    }
  }
}
