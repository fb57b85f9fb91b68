/**
 Children of a run that is being resumed: those that have begun to roll back are through with it, because nobody but their
 parent can have asked them to, and a parent is resumed only once everything it asked has been answered.
 */
module RestingChildren {
  import opened EventLog
  import opened Readiness
  import opened Protocol
  import opened AutomatonProofs
  import opened CooperationProofs
  import opened Workers
  import opened RunRows
  import opened TreeRollback

  // ---------------------------------------------------------------- only a request reopens a run

  /** A run that is COMMITTED and rolling back has been asked to: nobody else reopens it. */
  ghost predicate ReopenedWereAsked(log: Log) {
    forall c {:trigger Row(log, c)} | Row(log, c) && c.kind == Seen
      && Has(log, Committed, c.lineage) && Has(log, RollingBack, c.lineage) :: RollbackAsked(log, c.message)
  }

  lemma StepKeepsReopened(log: Log, step: LogStep)
    requires Inv(log) && Allowed(log, step) && ReopenedWereAsked(log)
    ensures ReopenedWereAsked(log + Rows(step))
  {
    var log' := log + Rows(step);
    forall c | Row(log', c) && c.kind == Seen && Has(log', Committed, c.lineage) && Has(log', RollingBack, c.lineage)
      ensures RollbackAsked(log', c.message)
    {
      hide Structure, RunsFollowAutomaton, EmissionsClosed, WindowsUnmixed, FinishingRowsLast, OpenChildrenAwaited,
        AskedRunsAtRest;
      HasSplit(log, Rows(step), Committed, c.lineage);
      HasSplit(log, Rows(step), RollingBack, c.lineage);
      if c in log && Has(log, Committed, c.lineage) && Has(log, RollingBack, c.lineage) {
        assert Row(log, c);
        AskedStays(log, Rows(step), c.message);
      } else {
        OnlyRequestsReopen(log, step, c);
        AskedStays(log, Rows(step), c.message);
      }
    }
  }

  lemma AskedStays(log: Log, rows: seq<Event>, message: Id)
    requires RollbackAsked(log, message)
    ensures RollbackAsked(log + rows, message)
  {
    var r :| r in log && r.kind == RollbackEmitted && r.message == message;
    assert r in log + rows;
  }

  lemma OnlyRequestsReopen(log: Log, step: LogStep, c: Event)
    requires Inv(log) && Allowed(log, step) && c in log + Rows(step) && c.kind == Seen
    requires Has(log, Committed, c.lineage) || Has(Rows(step), Committed, c.lineage)
    requires Has(log, RollingBack, c.lineage) || Has(Rows(step), RollingBack, c.lineage)
    requires c in log ==> !(Has(log, Committed, c.lineage) && Has(log, RollingBack, c.lineage))
    ensures RollbackAsked(log, c.message)
  {
    hide LineagesFormTree, RowsBelongToRuns, RunsHangUnderEmissions, EmissionsClosed, WindowsUnmixed, FinishingRowsLast,
      OpenChildrenAwaited, AskedRunsAtRest;
    if c !in log {
      StartedRunIsNew(log, step, c);
      assert false;
    }
    StateDescribesLog(log, c.lineage);
    if step.Work? {
      WorkDoesNotReopen(log, step.run, step.emissions, step.row, c.lineage);
      assert false;
    }
  }

  /** A worker's commit writes COMMITTED or ROLLING_BACK, and only for a run that has neither. */
  lemma WorkDoesNotReopen(log: Log, run: Event, emissions: seq<Event>, row: Event, c: Lineage)
    requires RunsFollowAutomaton(log) && WorkAllowed(log, run, emissions, row)
    requires Has(log, Committed, c) || Has(emissions + [row], Committed, c)
    requires Has(log, RollingBack, c) || Has(emissions + [row], RollingBack, c)
    ensures Has(log, Committed, c) && Has(log, RollingBack, c)
  {
    hide RunsFollowAutomaton, Quiet, RollbackAsked;
    WorkLaunchesOrAsks(log, run, emissions, row);
    assert Has(emissions + [row], Committed, c) ==> row.kind == Committed && row.lineage == c;
    assert Has(emissions + [row], RollingBack, c) ==> row.kind == RollingBack && row.lineage == c;
  }

  lemma WorkLaunchesOrAsks(log: Log, run: Event, emissions: seq<Event>, row: Event)
    requires WorkAllowed(log, run, emissions, row)
    ensures forall e :: e in emissions ==> e.kind == Emitted || e.kind == RollbackEmitted
  {
    forall e | e in emissions ensures e.kind == Emitted || e.kind == RollbackEmitted {
      assert EmissionAllowed(log, run, e) || RollbackEmissionAllowed(log, run, e);
    }
  }

  lemma {:induction false} ReopenedInTrace(states: seq<State>, actions: seq<Action>, i: nat)
    requires Trace(states, actions) && i < |states|
    ensures ReopenedWereAsked(states[i].log)
  {
    hide Inv, LocksExclusive, SettledEarned, WorkerSound, OthersLeftAlone, ReopenedWereAsked, Allowed, Next, StepOf;
    if i == 0 {
      NothingReopened();
    } else {
      ReopenedInTrace(states, actions, i - 1);
      TraceKeepsSystem(states, actions, i - 1);
      ActionIsAStep(states[i - 1], actions[i - 1], states[i]);
      if StepOf(states[i - 1], actions[i - 1]).Some? {
        StepKeepsReopened(states[i - 1].log, StepOf(states[i - 1], actions[i - 1]).value);
      }
    }
  }

  lemma NothingReopened()
    ensures ReopenedWereAsked([])
  {}

  // ---------------------------------------------------------------- children of a run that is being resumed

  /** What the second read tells a worker: the run's rows, and that everything it asked has been answered. */
  ghost predicate WorkerKnows(log: Log, run: Lineage, view: Log) {
    && RowsOf(view, run) == RowsOf(log, run)
    && forall r, c | r in log && r.kind == RollbackEmitted && r.lineage == run
                     && c in log && c.kind == Seen && c.message == r.message ::
         RollbackTerminated(view, c.lineage) && Has(view, RollingBack, c.lineage)
  }

  /** Every child of the run that has begun to roll back had ended its rollback when the worker read the log. */
  ghost predicate ChildrenAtRest(log: Log, run: Lineage, view: Log) {
    forall c {:trigger Row(log, c)} | Row(log, c) && c.kind == Seen && IsChild(run, c.lineage)
      && Has(log, RollingBack, c.lineage) ::
      RollbackTerminated(view, c.lineage) && Has(view, RollingBack, c.lineage)
  }

  /** A child of a run below the roots is asked to roll back by that run, and by nobody else. */
  lemma ChildIsAskedByParent(log: Log, run: Lineage, c: Event, r: Event)
    requires Structure(log) && RequestsFollowEmissions(log) && |run| > 1
    requires c in log && c.kind == Seen && IsChild(run, c.lineage)
    requires r in log && r.kind == RollbackEmitted && r.message == c.message
    ensures r.lineage == run
  {
    assert Row(log, c) && Row(log, r);
    var e :| EmissionOf(log, c, e);
    assert |r.lineage| > 0;
    if |r.lineage| > 1 {
      var f :| f in log && f.kind == Emitted && f.lineage == r.lineage && f.message == r.message
               && f.createdAt < r.createdAt;
      assert e == f;
    } else {
      MessageOfRoot(log, r, c);
      assert false;
    }
  }

  /** The second read: an asked child has answered, and nobody else rolls back while its parent can resume. */
  lemma RereadFindsChildrenAtRest(log: Log, run: Event)
    requires Inv(log) && RequestsFollowEmissions(log) && ReopenedWereAsked(log)
    requires run in log && run.kind == Seen && Quiet(log, run.lineage) && WorkerKnows(log, run.lineage, log)
    ensures ChildrenAtRest(log, run.lineage, log)
  {
    hide LineagesFormTree, SeenUnique, RowsBelongToRuns, RunsHangUnderEmissions, RunsFollowAutomaton, EmissionsClosed,
      WindowsUnmixed, FinishingRowsLast, OpenChildrenAwaited, AskedRunsAtRest, RequestsFollowEmissions;
    RunIsDeep(log, run);
    forall c | Row(log, c) && c.kind == Seen && IsChild(run.lineage, c.lineage) && Has(log, RollingBack, c.lineage)
      ensures RollbackTerminated(log, c.lineage)
    {
      if !RollbackTerminated(log, c.lineage) {
        var r :| r in log && r.kind == RollbackEmitted && r.message == c.message;
        ChildIsAskedByParent(log, run.lineage, c, r);
        assert false;
      }
    }
  }

  /** While the lock is held, no child begins to roll back. */
  lemma NoChildBegins(log: Log, step: LogStep, run: Event, view: Log, c: Event)
    requires Inv(log) && RequestsFollowEmissions(log) && Allowed(log, step) && view <= log
    requires run in log && run.kind == Seen && Quiet(log, run.lineage) && WorkerKnows(log, run.lineage, view)
    requires c in log && c.kind == Seen && IsChild(run.lineage, c.lineage) && !Has(log, RollingBack, c.lineage)
    ensures !Has(Rows(step), RollingBack, c.lineage)
  {
    hide RequestsFollowEmissions, RunsFollowAutomaton, EmissionsClosed, WindowsUnmixed, FinishingRowsLast,
      OpenChildrenAwaited, AskedRunsAtRest, LineagesFormTree, RowsBelongToRuns, RunsHangUnderEmissions, Quiet, Resumable;
    RunIsDeep(log, run);
    if step.StartRollback? {
      if step.row.lineage == c.lineage {
        ChildIsAskedByParent(log, run.lineage, c, step.request);
        HasStays(view, log, RollingBack, c.lineage);
        assert false;
      }
    } else {
      ChildDoesNotResume(log, step, run, c);
    }
  }

  lemma ChildDoesNotResume(log: Log, step: LogStep, run: Event, c: Event)
    requires SeenUnique(log) && Allowed(log, step) && Quiet(log, run.lineage) && !step.StartRollback?
    requires c in log && c.kind == Seen && IsChild(run.lineage, c.lineage) && !Has(log, RollingBack, c.lineage)
    ensures !Has(Rows(step), RollingBack, c.lineage)
  {
    if b :| b in Rows(step) && b.kind == RollingBack && b.lineage == c.lineage {
      assert step.Work?;
      WorkLaunchesOrAsks(log, step.run, step.emissions, step.row);
      assert false;
    }
  }

  lemma OthersKeepChildrenAtRest(log: Log, step: LogStep, run: Event, view: Log)
    requires Inv(log) && RequestsFollowEmissions(log) && Allowed(log, step) && view <= log
    requires run in log && run.kind == Seen && Resumable(log, run) && WorkerKnows(log, run.lineage, view)
    requires LeavesRunAlone(step, run) && ChildrenAtRest(log, run.lineage, view)
    ensures ChildrenAtRest(log + Rows(step), run.lineage, view)
  {
    hide Inv, RequestsFollowEmissions, Allowed, WorkerKnows;
    var log' := log + Rows(step);
    forall c | Row(log', c) && c.kind == Seen && IsChild(run.lineage, c.lineage) && Has(log', RollingBack, c.lineage)
      ensures RollbackTerminated(view, c.lineage) && Has(view, RollingBack, c.lineage)
    {
      HasSplit(log, Rows(step), RollingBack, c.lineage);
      if c !in log {
        StartedRunIsNew(log, step, c);
        assert false;
      }
      assert Row(log, c);
      if !Has(log, RollingBack, c.lineage) {
        NoChildBegins(log, step, run, view, c);
        assert false;
      }
    }
  }
}
