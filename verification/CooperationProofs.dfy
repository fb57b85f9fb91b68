/** The window and cooperation invariants are kept by every transition. */
module CooperationProofs {
  import opened EventLog
  import opened Protocol
  import opened StructureProofs
  import opened AutomatonProofs

  // ---------------------------------------------------------------- small facts

  lemma TerminatedStays(log: Log, rows: seq<Event>, lineage: Lineage)
    requires Terminated(log, lineage)
    ensures Terminated(log + rows, lineage)
  {
    HasSplit(log, rows, Committed, lineage);
    HasSplit(log, rows, RolledBack, lineage);
    HasSplit(log, rows, RollbackFailed, lineage);
  }

  lemma RunLineageIsDeep(log: Log, s: Event)
    requires LineagesFormTree(log) && RowsBelongToRuns(log)
    requires s in log && s.kind == Seen
    ensures |s.lineage| > 1
  {}

  lemma RunIsDeep(log: Log, s: Event)
    requires Inv(log) && s in log && s.kind == Seen
    ensures |s.lineage| > 1
  {
    RunLineageIsDeep(log, s);
  }

  /** Rows of a transition that is not a worker's never are suspensions, and emissions only on root lineages. */
  lemma OnlyWorkersSuspend(log: Log, step: LogStep, e: Event)
    requires Allowed(log, step) && e in Rows(step)
    ensures e.kind == Suspended || ((e.kind == Emitted || e.kind == RollbackEmitted) && |e.lineage| > 1) ==> step.Work?
  {}

  // ---------------------------------------------------------------- windows

  lemma WorkClosesItsEmissions(log: Log, run: Event, emissions: seq<Event>, row: Event)
    requires EmissionsClosed(log) && WorkAllowed(log, run, emissions, row)
    ensures EmissionsClosed(log + (emissions + [row]))
  {
    var log' := log + (emissions + [row]);
    forall e | Row(log', e) && |e.lineage| > 1 && (e.kind == Emitted || e.kind == RollbackEmitted)
      ensures exists u :: u in log' && u.kind == Suspended && u.lineage == e.lineage && e.createdAt < u.createdAt
    {
      if e in log {
        assert Row(log, e);
        var u :| u in log && u.kind == Suspended && u.lineage == e.lineage && e.createdAt < u.createdAt;
        assert u in log';
      } else {
        assert e in emissions;
        assert EmissionAllowed(log, run, e) || RollbackEmissionAllowed(log, run, e);
        assert row in log' && row.kind == Suspended;
      }
    }
  }

  lemma StepKeepsEmissionsClosed(log: Log, step: LogStep)
    requires EmissionsClosed(log) && Allowed(log, step)
    ensures EmissionsClosed(log + Rows(step))
  {
    if step.Work? {
      WorkClosesItsEmissions(log, step.run, step.emissions, step.row);
    } else {
      var log' := log + Rows(step);
      forall e | Row(log', e) && |e.lineage| > 1 && (e.kind == Emitted || e.kind == RollbackEmitted)
        ensures exists u :: u in log' && u.kind == Suspended && u.lineage == e.lineage && e.createdAt < u.createdAt
      {
        if e in Rows(step) { OnlyWorkersSuspend(log, step, e); }
        assert Row(log, e);
        var u :| u in log && u.kind == Suspended && u.lineage == e.lineage && e.createdAt < u.createdAt;
        assert u in log';
      }
    }
  }

  /** An old emission (or request) and a new request (or emission) of one run: an old suspension lies between. */
  lemma SeparatedFromNew(log: Log, run: Event, emissions: seq<Event>, row: Event, earlier: Event, later: Event)
    requires EmissionsClosed(log) && WorkAllowed(log, run, emissions, row)
    requires earlier in log && (earlier.kind == Emitted || earlier.kind == RollbackEmitted) && |earlier.lineage| > 1
    requires later in emissions && earlier.lineage == later.lineage
    ensures exists u :: SuspensionBetween(log + (emissions + [row]), earlier.lineage, earlier.createdAt, later.createdAt, u)
  {
    assert Row(log, earlier);
    var u :| u in log && u.kind == Suspended && u.lineage == earlier.lineage && earlier.createdAt < u.createdAt;
    assert EmissionAllowed(log, run, later) || RollbackEmissionAllowed(log, run, later);
    assert SuspensionBetween(log + (emissions + [row]), earlier.lineage, earlier.createdAt, later.createdAt, u);
  }

  lemma StepKeepsWindowsUnmixed(log: Log, step: LogStep)
    requires WindowsUnmixed(log) && EmissionsClosed(log) && Allowed(log, step)
    ensures WindowsUnmixed(log + Rows(step))
  {
    var log' := log + Rows(step);
    forall e, r | Row(log', e) && Row(log', r) && e.kind == Emitted && r.kind == RollbackEmitted
      && e.lineage == r.lineage && |e.lineage| > 1
      ensures exists u :: SuspensionBetween(log', e.lineage, e.createdAt, r.createdAt, u)
                          || SuspensionBetween(log', e.lineage, r.createdAt, e.createdAt, u)
    {
      if e in log && r in log {
        assert Row(log, e) && Row(log, r);
        var u :| SuspensionBetween(log, e.lineage, e.createdAt, r.createdAt, u)
                 || SuspensionBetween(log, e.lineage, r.createdAt, e.createdAt, u);
        assert SuspensionBetween(log', e.lineage, e.createdAt, r.createdAt, u)
               || SuspensionBetween(log', e.lineage, r.createdAt, e.createdAt, u);
      } else {
        if e !in log { OnlyWorkersSuspend(log, step, e); } else { OnlyWorkersSuspend(log, step, r); }
        MixedOnlyAcrossCommits(log, step.run, step.emissions, step.row, e, r);
        if e in log {
          SeparatedFromNew(log, step.run, step.emissions, step.row, e, r);
        } else {
          SeparatedFromNew(log, step.run, step.emissions, step.row, r, e);
        }
      }
    }
  }

  lemma MixedOnlyAcrossCommits(log: Log, run: Event, emissions: seq<Event>, row: Event, e: Event, r: Event)
    requires WorkAllowed(log, run, emissions, row)
    requires e in log + (emissions + [row]) && r in log + (emissions + [row])
    requires e.kind == Emitted && r.kind == RollbackEmitted
    requires e !in log || r !in log
    ensures (e in log && r in emissions) || (r in log && e in emissions)
  {}

  lemma StepKeepsFinishingRowsLast(log: Log, step: LogStep)
    requires FinishingRowsLast(log) && Allowed(log, step)
    ensures FinishingRowsLast(log + Rows(step))
  {
    var log' := log + Rows(step);
    forall t, u | t in log' && u in log' && t.lineage == u.lineage && u.kind == Suspended
      && (t.kind == RolledBack || t.kind == RollbackFailed
          || (t.kind == Committed && !Has(log', RollingBack, t.lineage)))
      ensures u.createdAt < t.createdAt
    {
      HasSplit(log, Rows(step), RollingBack, t.lineage);
      if u !in log || t !in log {
        assert step.Work? by {
          if u !in log { OnlyWorkersSuspend(log, step, u); }
        }
        FinishingOrSuspending(log, step.run, step.emissions, step.row, t, u);
      }
    }
  }

  lemma FinishingOrSuspending(log: Log, run: Event, emissions: seq<Event>, row: Event, t: Event, u: Event)
    requires WorkAllowed(log, run, emissions, row)
    requires t in log + (emissions + [row]) && u in log + (emissions + [row]) && t.lineage == u.lineage
    requires u.kind == Suspended && (t !in log || u !in log)
    requires t.kind == RolledBack || t.kind == RollbackFailed
             || (t.kind == Committed && !Has(log, RollingBack, t.lineage))
    ensures u.createdAt < t.createdAt
  {
    assert forall e :: e in emissions ==> EmissionAllowed(log, run, e) || RollbackEmissionAllowed(log, run, e);
    assert t in log && u == row ==> !Has(log, t.kind, run.lineage);
  }

  // ---------------------------------------------------------------- runs asked to roll back

  lemma StepKeepsAskedRunsAtRest(log: Log, step: LogStep)
    requires Structure(log) && RunsFollowAutomaton(log) && AskedRunsAtRest(log) && Allowed(log, step)
    ensures AskedRunsAtRest(log + Rows(step))
  {
    hide Structure, RunsFollowAutomaton;
    var log' := log + Rows(step);
    forall r, s | r in log' && s in log' && r.kind == RollbackEmitted && s.kind == Seen && r.message == s.message
      ensures Has(log', RollingBack, s.lineage) || Has(log', Committed, s.lineage)
              || !Has(log', Suspended, s.lineage)
    {
      HasSplit(log, Rows(step), RollingBack, s.lineage);
      HasSplit(log, Rows(step), Committed, s.lineage);
      HasSplit(log, Rows(step), Suspended, s.lineage);
      if s !in log {
        StartedRunIsNew(log, step, s);
      } else if r in log {
        if Has(Rows(step), Suspended, s.lineage) {
          SuspendingRunWasNotAsked(log, step, r, s);
        }
      } else if step.RequestRollback? {
        RequestedRunIsAtRest(log, step.row, s);
      } else {
        ChildAskedIsAtRest(log, step, r, s);
      }
    }
  }

  lemma StartedRunIsNew(log: Log, step: LogStep, s: Event)
    requires Allowed(log, step) && s in Rows(step) && s.kind == Seen
    ensures Rows(step) == [s] && step.StartRun?
    ensures forall e :: e in log ==> e.lineage != s.lineage
    ensures !Has(log + [s], Suspended, s.lineage)
  {
    if step.Work? {
      WorkStartsNothing(log, step.run, step.emissions, step.row);
    }
  }

  lemma WorkStartsNothing(log: Log, run: Event, emissions: seq<Event>, row: Event)
    requires WorkAllowed(log, run, emissions, row)
    ensures forall e :: e in emissions + [row] ==> e.kind != Seen
  {
    forall e | e in emissions ensures e.kind != Seen {
      assert EmissionAllowed(log, run, e) || RollbackEmissionAllowed(log, run, e);
    }
  }

  lemma SuspendingRunWasNotAsked(log: Log, step: LogStep, r: Event, s: Event)
    requires Structure(log) && Allowed(log, step)
    requires r in log && r.kind == RollbackEmitted && s in log && s.kind == Seen && r.message == s.message
    requires Has(Rows(step), Suspended, s.lineage)
    ensures Has(log, RollingBack, s.lineage)
  {
    hide LineagesFormTree, RowsBelongToRuns, RunsHangUnderEmissions;
    var u :| u in Rows(step) && u.kind == Suspended && u.lineage == s.lineage;
    OnlyWorkersSuspend(log, step, u);
    assert Resumable(log, step.run);
    assert step.run == s;
  }

  /** Only runs below the requested root carry its message; each passed the safety check. */
  lemma RequestedRunIsAtRest(log: Log, row: Event, s: Event)
    requires Structure(log) && RunsFollowAutomaton(log) && RequestRollbackAllowed(log, row)
    requires s in log && s.kind == Seen && s.message == row.message
    ensures Has(log, RollingBack, s.lineage) || Has(log, Committed, s.lineage)
  {
    MessageOfRoot(log, row, s);
    StateDescribesLog(log, s.lineage);
  }

  /** The message a root lineage carries was emitted on that lineage. */
  lemma MessageOfRoot(log: Log, row: Event, s: Event)
    requires Structure(log)
    requires |row.lineage| == 1 && exists e :: e in log && e.lineage == row.lineage && e.message == row.message
    requires s in log && s.kind == Seen && s.message == row.message
    ensures IsChild(row.lineage, s.lineage) && ContainedIn(row.lineage, s.lineage) && |s.lineage| > 1
  {
    assert Row(log, s);
    var e :| EmissionOf(log, s, e);
    RootHasEmission(log, row);
    var f :| f in log && f.kind == Emitted && f.message == row.message && f.lineage == row.lineage;
    assert e == f;
    assert s.lineage[0] == row.lineage[0];
  }

  lemma RootHasEmission(log: Log, row: Event)
    requires Structure(log)
    requires |row.lineage| == 1 && exists e :: e in log && e.lineage == row.lineage && e.message == row.message
    ensures exists f :: f in log && f.kind == Emitted && f.message == row.message && f.lineage == row.lineage
  {
    var e :| e in log && e.lineage == row.lineage && e.message == row.message;
    assert Row(log, e);
  }

  lemma ChildAskedIsAtRest(log: Log, step: LogStep, r: Event, s: Event)
    requires Structure(log) && RunsFollowAutomaton(log) && Allowed(log, step)
    requires step.Work? && r in Rows(step) && r.kind == RollbackEmitted
    requires s in log && s.kind == Seen && s.message == r.message
    ensures Has(log, RollingBack, s.lineage) || Has(log, Committed, s.lineage)
  {
    assert RollbackEmissionAllowed(log, step.run, r);
    var e :| e in log && e.kind == Emitted && e.lineage == step.run.lineage && e.message == r.message;
    assert Row(log, s);
    var f :| EmissionOf(log, s, f);
    assert e == f;
    assert Quiet(log, step.run.lineage);
    StateDescribesLog(log, s.lineage);
  }

  // ---------------------------------------------------------------- open children

  /** A starting run's parent waits for it: the start guard saw the parent's last row. */
  lemma StartedRunIsAwaited(log: Log, row: Event, emission: Event)
    requires Structure(log) && EmissionsClosed(log) && FinishingRowsLast(log)
    requires StartRunAllowed(log, row, emission) && |row.lineage| > 2
    ensures !Finished(log, Parent(row.lineage)) && exists u :: ParentWaits(log, row, u, emission)
  {
    hide LineagesFormTree, SeenUnique, RunsHangUnderEmissions, FinishingRowsLast, ParentWaits, Finished;
    assert Row(log, emission);
    var seen :| SeenOf(log, emission, seen);
    assert Has(log, Seen, emission.lineage);
    var u :| u in log && IsLastRow(log, emission.lineage, u) && u.kind == Suspended
             && NoSuspensionBetween(log, emission.lineage, emission.createdAt, u.createdAt);
    var v :| v in log && v.kind == Suspended && v.lineage == emission.lineage && emission.createdAt < v.createdAt;
    assert v.createdAt <= u.createdAt;
    LastSuspensionMeansUnfinished(log, emission.lineage, u);
    GuardMeansWaits(log, row, u, emission);
  }

  lemma LastSuspensionMeansUnfinished(log: Log, run: Lineage, u: Event)
    requires FinishingRowsLast(log) && IsLastRow(log, run, u) && u.kind == Suspended
    ensures !Finished(log, run)
  {}

  lemma GuardMeansWaits(log: Log, row: Event, u: Event, emission: Event)
    requires |row.lineage| > 1 && Parent(row.lineage) == emission.lineage && row.message == emission.message
    requires IsLastRow(log, emission.lineage, u) && u.kind == Suspended && emission.createdAt < u.createdAt
    requires emission in log && emission.kind == Emitted
    requires NoSuspensionBetween(log, emission.lineage, emission.createdAt, u.createdAt)
    ensures ParentWaits(log, row, u, emission)
  {}

  /** No transition writes an own row of a run that still has an open child. */
  lemma AwaitingParentIsUntouched(log: Log, step: LogStep, s: Event, e: Event)
    requires Inv(log) && Allowed(log, step)
    requires s in log && s.kind == Seen && |s.lineage| > 2 && !Terminated(log, s.lineage)
    requires e in Rows(step) && e.lineage == Parent(s.lineage)
    ensures e.kind == CancellationRequested
  {
    hide RunsHangUnderEmissions, RunsFollowAutomaton, EmissionsClosed, WindowsUnmixed, FinishingRowsLast;
    var parent := Parent(s.lineage);
    assert Row(log, s);
    assert !Finished(log, parent) && Has(log, Suspended, parent);
    assert IsLineage(log, s.lineage[..|s.lineage| - 1]);
    if step.StartRollback? {
      NotYetRollingBack(log, step.request, step.seen);
    }
  }

  lemma UntouchedParentWaits(log: Log, rows: seq<Event>, s: Event, u: Event, e: Event)
    requires ParentWaits(log, s, u, e) && !Finished(log, Parent(s.lineage))
    requires forall r :: r in rows && r.lineage == Parent(s.lineage) ==> r.kind == CancellationRequested
    ensures ParentWaits(log + rows, s, u, e) && !Finished(log + rows, Parent(s.lineage))
  {
    var parent := Parent(s.lineage);
    HasSplit(log, rows, RolledBack, parent);
    HasSplit(log, rows, RollbackFailed, parent);
    HasSplit(log, rows, Committed, parent);
    HasSplit(log, rows, RollingBack, parent);
  }

  lemma OldChildStillAwaited(log: Log, step: LogStep, s: Event)
    requires Inv(log) && Allowed(log, step)
    requires s in log && s.kind == Seen && |s.lineage| > 2 && !Terminated(log, s.lineage)
    ensures Awaited(log + Rows(step), s)
  {
    assert Row(log, s);
    var u, e :| ParentWaits(log, s, u, e);
    forall r | r in Rows(step) && r.lineage == Parent(s.lineage) ensures r.kind == CancellationRequested {
      AwaitingParentIsUntouched(log, step, s, r);
    }
    UntouchedParentWaits(log, Rows(step), s, u, e);
  }

  lemma NewChildIsAwaited(log: Log, step: LogStep, s: Event)
    requires Structure(log) && EmissionsClosed(log) && FinishingRowsLast(log) && Allowed(log, step)
    requires s in Rows(step) && s.kind == Seen && |s.lineage| > 2
    ensures Awaited(log + Rows(step), s)
  {
    StartedRunIsNew(log, step, s);
    StartedRunIsAwaited(log, s, step.emission);
    var u :| ParentWaits(log, s, u, step.emission);
    UntouchedParentWaits(log, Rows(step), s, u, step.emission);
  }

  lemma StepKeepsOpenChildrenAwaited(log: Log, step: LogStep)
    requires Inv(log) && Allowed(log, step)
    ensures OpenChildrenAwaited(log + Rows(step))
  {
    var log' := log + Rows(step);
    forall s | Row(log', s) && s.kind == Seen && |s.lineage| > 2 && !Terminated(log', s.lineage)
      ensures Awaited(log', s)
    {
      if s in log {
        if Terminated(log, s.lineage) { TerminatedStays(log, Rows(step), s.lineage); }
        OldChildStillAwaited(log, step, s);
      } else {
        NewChildIsAwaited(log, step, s);
      }
    }
  }

  /** The whole invariant is inductive. */
  lemma StepKeepsInv(log: Log, step: LogStep)
    requires Inv(log) && Allowed(log, step)
    ensures Inv(log + Rows(step))
  {
    StepKeepsStructure(log, step);
    StepKeepsAutomaton(log, step);
    StepKeepsEmissionsClosed(log, step);
    StepKeepsWindowsUnmixed(log, step);
    StepKeepsFinishingRowsLast(log, step);
    StepKeepsOpenChildrenAwaited(log, step);
    StepKeepsAskedRunsAtRest(log, step);
  }
}
