/** The rows of every run follow the automaton, and the automaton's state is what the queries' EXISTS tests ask for. */
module AutomatonProofs {
  import opened EventLog
  import opened Protocol

  lemma HasSplit(log: Log, rows: seq<Event>, kind: Kind, lineage: Lineage)
    ensures Has(log + rows, kind, lineage) <==> Has(log, kind, lineage) || Has(rows, kind, lineage)
  {
    if Has(log, kind, lineage) {
      var e :| e in log && e.kind == kind && e.lineage == lineage;
      assert e in log + rows;
    }
    if Has(rows, kind, lineage) {
      var e :| e in rows && e.kind == kind && e.lineage == lineage;
      assert e in log + rows;
    }
  }

  lemma HasStays(log: Log, later: Log, kind: Kind, run: Lineage)
    requires log <= later && Has(log, kind, run)
    ensures Has(later, kind, run)
  {
    HasSplit(log, later[|log|..], kind, run);
    assert later == log + later[|log|..];
  }

  lemma StateOfAppend(log: Log, e: Event, run: Lineage)
    ensures StateOf(log + [e], run) == if e.lineage == run then Delta(StateOf(log, run), e.kind) else StateOf(log, run)
  {
    assert (log + [e])[..|log|] == log;
  }

  /** Which EXISTS tests hold in a state of the automaton. */
  ghost predicate Describes(state: RunState, log: Log, run: Lineage) {
    && (Has(log, Seen, run) <==> state != NotStarted)
    && (Has(log, RollingBack, run) <==> state == Rolling || state == Ended)
    && (RollbackTerminated(log, run) <==> state == Ended)
    && (Has(log, Committed, run) ==> state == Done || state == Rolling || state == Ended)
    && (state == Done ==> Has(log, Committed, run))
    && (Has(log, Suspended, run) ==> state != NotStarted)
  }

  lemma {:induction false} StateDescribesLog(log: Log, run: Lineage)
    requires StateOf(log, run) != Stuck
    ensures Describes(StateOf(log, run), log, run)
    ensures Finished(log, run) <==> StateOf(log, run) == Done || StateOf(log, run) == Ended
  {
    if |log| > 0 {
      var before, e := log[..|log| - 1], log[|log| - 1];
      assert log == before + [e];
      StateDescribesLog(before, run);
      HasOneMore(before, e, Seen, run);
      HasOneMore(before, e, Suspended, run);
      HasOneMore(before, e, RollingBack, run);
      HasOneMore(before, e, Committed, run);
      HasOneMore(before, e, RolledBack, run);
      HasOneMore(before, e, RollbackFailed, run);
      DescribesNext(StateOf(before, run), before, e, run);
    }
  }

  lemma HasOneMore(log: Log, e: Event, kind: Kind, run: Lineage)
    ensures Has(log + [e], kind, run) <==> Has(log, kind, run) || (e.kind == kind && e.lineage == run)
  {
    HasSplit(log, [e], kind, run);
    assert e in [e];
  }

  lemma DescribesNext(before: RunState, log: Log, e: Event, run: Lineage)
    requires Describes(before, log, run) && (e.lineage == run ==> Delta(before, e.kind) != Stuck)
    requires forall kind :: kind in {Seen, Suspended, RollingBack, Committed, RolledBack, RollbackFailed}
               ==> (Has(log + [e], kind, run) <==> Has(log, kind, run) || (e.kind == kind && e.lineage == run))
    ensures Describes(if e.lineage == run then Delta(before, e.kind) else before, log + [e], run)
  {}

  /** Emissions do not move the automaton. */
  lemma {:induction false} StateOfEmissions(log: Log, emissions: seq<Event>, run: Lineage)
    requires forall e :: e in emissions ==> e.kind == Emitted || e.kind == RollbackEmitted
    ensures StateOf(log + emissions, run) == StateOf(log, run)
  {
    if emissions == [] {
      assert log + emissions == log;
    } else {
      var most, e := emissions[..|emissions| - 1], emissions[|emissions| - 1];
      StateOfEmissions(log, most, run);
      assert log + emissions == (log + most) + [e];
      StateOfAppend(log + most, e, run);
    }
  }

  lemma SingleRowKeepsAutomaton(log: Log, row: Event)
    requires RunsFollowAutomaton(log)
    requires Delta(StateOf(log, row.lineage), row.kind) != Stuck
    ensures RunsFollowAutomaton(log + [row])
  {
    forall run: Lineage ensures StateOf(log + [row], run) != Stuck {
      StateOfAppend(log, row, run);
    }
  }

  lemma WorkKeepsAutomaton(log: Log, run: Event, emissions: seq<Event>, row: Event)
    requires RunsFollowAutomaton(log) && WorkAllowed(log, run, emissions, row)
    ensures RunsFollowAutomaton(log + (emissions + [row]))
  {
    forall e | e in emissions ensures e.kind == Emitted || e.kind == RollbackEmitted {
      assert EmissionAllowed(log, run, e) || RollbackEmissionAllowed(log, run, e);
    }
    forall other: Lineage ensures StateOf(log + (emissions + [row]), other) != Stuck {
      WorkMovesAutomaton(log, emissions, row, other);
      StateDescribesLog(log, other);
    }
  }

  lemma WorkMovesAutomaton(log: Log, emissions: seq<Event>, row: Event, run: Lineage)
    requires forall e :: e in emissions ==> e.kind == Emitted || e.kind == RollbackEmitted
    ensures StateOf(log + (emissions + [row]), run)
            == if row.lineage == run then Delta(StateOf(log, run), row.kind) else StateOf(log, run)
  {
    StateOfEmissions(log, emissions, run);
    assert log + (emissions + [row]) == (log + emissions) + [row];
    StateOfAppend(log + emissions, row, run);
  }

  lemma StartKeepsAutomaton(log: Log, row: Event, emission: Event)
    requires RunsFollowAutomaton(log) && StartRunAllowed(log, row, emission)
    ensures RunsFollowAutomaton(log + [row])
  {
    StateDescribesLog(log, row.lineage);
    assert !Has(log, Seen, row.lineage);
    SingleRowKeepsAutomaton(log, row);
  }

  /** ROLLING_BACK from a request finds its run committed, or never suspended: in Forward or Done either way. */
  lemma StartRollbackKeepsAutomaton(log: Log, row: Event, request: Event, seen: Event)
    requires LineagesFormTree(log) && SeenUnique(log) && RowsBelongToRuns(log)
    requires RunsFollowAutomaton(log) && StartRollbackAllowed(log, row, request, seen)
    ensures RunsFollowAutomaton(log + [row])
    ensures !Has(log, RollingBack, row.lineage)
  {
    NotYetRollingBack(log, request, seen);
    StateDescribesLog(log, row.lineage);
    assert Has(log, Seen, row.lineage);
    SingleRowKeepsAutomaton(log, row);
  }

  lemma NotYetRollingBack(log: Log, request: Event, seen: Event)
    requires LineagesFormTree(log) && SeenUnique(log) && RowsBelongToRuns(log)
    requires seen in log && seen.kind == Seen && seen.message == request.message
    requires forall b :: b in log && b.kind == RollingBack && b.message == request.message
               ==> b.coroutine != seen.coroutine
    ensures !Has(log, RollingBack, seen.lineage)
  {
    if b :| b in log && b.kind == RollingBack && b.lineage == seen.lineage {
      assert Row(log, b) && Row(log, seen);
    }
  }

  lemma StepKeepsAutomaton(log: Log, step: LogStep)
    requires Structure(log) && RunsFollowAutomaton(log) && Allowed(log, step)
    ensures RunsFollowAutomaton(log + Rows(step))
  {
    match step
    case Launch(row) => SingleRowKeepsAutomaton(log, row);
    case Cancel(row) => SingleRowKeepsAutomaton(log, row);
    case RequestRollback(row) => SingleRowKeepsAutomaton(log, row);
    case StartRun(row, emission) => StartKeepsAutomaton(log, row, emission);
    case StartRollback(row, request, seen) => StartRollbackKeepsAutomaton(log, row, request, seen);
    case Work(run, emissions, row) => WorkKeepsAutomaton(log, run, emissions, row);
  }
}
