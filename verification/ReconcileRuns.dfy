/** One reconcile pass, seen from the workers: a run of their actions, one append after the other and one unsettle. */
module ReconcileRuns {
  import opened Options
  import opened EventLog
  import opened Protocol
  import opened AutomatonProofs
  import opened CooperationProofs
  import opened Workers
  import opened Repository

  /** The actions are enabled one after the other, and lead from s to s'. */
  ghost predicate RunsTo(s: State, actions: seq<Action>, s': State)
    decreases |actions|
  {
    if actions == [] then s == s'
    else Enabled(s, actions[0]) && RunsTo(Apply(s, actions[0]), actions[1..], s')
  }

  /** The appends of a pass, and the unsettle behind them. */
  ghost function Pass(steps: seq<LogStep>, coroutine: string): (actions: seq<Action>)
    decreases |steps|
  {
    if steps == [] then [Unsettle(coroutine)] else [Append(steps[0])] + Pass(steps[1..], coroutine)
  }

  /** A start whose parent nobody has locked. */
  ghost predicate StartsUnlocked(s: State, coroutine: string, step: LogStep) {
    && (step.StartRun? || step.StartRollback?) && step.row.coroutine == Some(coroutine)
    && (step.StartRun? ==> !RowLocked(s, step.emission.lineage))
    && (step.StartRollback? ==> !RowLocked(s, step.request.lineage))
  }

  /** A pass adds rows at the end, and none that ends a rollback. */
  lemma {:induction false} StartsEndNothing(log: Log, steps: seq<LogStep>, l: Lineage)
    requires AllowedInTurn(log, steps) && forall step :: step in steps ==> step.StartRun? || step.StartRollback?
    ensures log <= AfterAll(log, steps)
    ensures RollbackTerminated(AfterAll(log, steps), l) <==> RollbackTerminated(log, l)
    decreases |steps|
  {
    if steps != [] {
      assert steps[0] in steps;
      StartsEndNothing(log + Rows(steps[0]), steps[1..], l);
      HasSplit(log, Rows(steps[0]), RolledBack, l);
      HasSplit(log, Rows(steps[0]), RollbackFailed, l);
    }
  }

  /** The run a pass starts to roll back is stale when the pass is over. */
  lemma StartedRollbackIsStale(log: Log, step: LogStep, rest: seq<LogStep>, coroutine: string)
    requires Inv(log) && Allowed(log, step) && step.StartRollback? && step.row.coroutine == Some(coroutine)
    requires AllowedInTurn(log + Rows(step), rest) && forall r :: r in rest ==> r.StartRun? || r.StartRollback?
    ensures StaleSeen(AfterAll(log + Rows(step), rest), coroutine, step.seen.lineage)
  {
    hide EmissionsClosed, WindowsUnmixed, FinishingRowsLast, OpenChildrenAwaited, AskedRunsAtRest;
    var l := step.seen.lineage;
    NotYetRollingBack(log, step.request, step.seen);
    StateDescribesLog(log, l);
    HasSplit(log, Rows(step), RolledBack, l);
    HasSplit(log, Rows(step), RollbackFailed, l);
    StartsEndNothing(log + Rows(step), rest, l);
    assert step.row in log + Rows(step) && step.seen in log + Rows(step);
  }

  lemma {:induction false} StartsRun(s: State, steps: seq<LogStep>, coroutine: string) returns (s': State)
    requires Inv(s.log) && AllowedInTurn(s.log, steps)
    requires forall step :: step in steps ==> StartsUnlocked(s, coroutine, step)
    ensures RunsTo(s, Pass(steps, coroutine), s') && s'.log == AfterAll(s.log, steps) && s'.workers == s.workers
    ensures forall l :: l in s'.settled <==> l in s.settled && !(StaleSeen(s'.log, coroutine, l) && !RowLocked(s, l))
    decreases |steps|
  {
    hide Inv, Allowed, StaleSeen;
    if steps == [] {
      s' := Apply(s, Unsettle(coroutine));
      assert RunsTo(s', Pass(steps, coroutine)[1..], s');
    } else {
      var step, rest := steps[0], steps[1..];
      assert step in steps && StartsUnlocked(s, coroutine, step);
      StepKeepsInv(s.log, step);
      var next := Apply(s, Append(step));
      forall other | other in rest ensures StartsUnlocked(next, coroutine, other) {
        assert other in steps && StartsUnlocked(s, coroutine, other);
      }
      s' := StartsRun(next, rest, coroutine);
      assert Pass(steps, coroutine)[1..] == Pass(rest, coroutine);
      if step.StartRollback? {
        StartedRollbackIsStale(s.log, step, rest, coroutine);
      }
    }
  }

  lemma LockedRunHasSeen(s: State, l: Lineage)
    requires SystemInv(s)
    ensures RowLocked(s, l) ==> Has(s.log, Seen, l)
  {
    hide Inv, LocksExclusive, SettledEarned;
    if RowLocked(s, l) {
      var w :| w in s.workers && HoldsLock(s.workers[w]) && s.workers[w].run.lineage == l;
      assert WorkerSound(s.log, s.workers[w]);
    }
  }

  /**
   A pass as StartContinuations describes it, made while the workers hold the locks it skips, is a run of enabled actions: it
   ends in the same log and the same flags.
   */
  lemma PassIsARun(s: State, steps: seq<LogStep>, coroutine: string, locked: set<Lineage>)
    returns (s': State)
    requires SystemInv(s) && AllowedInTurn(s.log, steps) && forall l :: l in locked <==> RowLocked(s, l)
    requires forall step :: step in steps ==> step.row.coroutine == Some(coroutine) && RespectsLocks(s.log, locked, step)
    ensures RunsTo(s, Pass(steps, coroutine), s') && s'.log == AfterAll(s.log, steps) && s'.workers == s.workers
    ensures forall l :: l in s'.settled <==> l in s.settled && !(StaleSeen(s'.log, coroutine, l) && l !in locked)
  {
    hide Inv, StaleSeen, LocksExclusive, SettledEarned, AllowedInTurn;
    forall step | step in steps ensures StartsUnlocked(s, coroutine, step) {
      assert RespectsLocks(s.log, locked, step);
      LockedRunHasSeen(s, if step.StartRun? then step.emission.lineage else step.request.lineage);
    }
    s' := StartsRun(s, steps, coroutine);
  }

  /** Two sequences of transitions, one behind the other. */
  lemma {:induction false} InTurnBehind(log: Log, first: seq<LogStep>, second: seq<LogStep>)
    requires AllowedInTurn(log, first) && AllowedInTurn(AfterAll(log, first), second)
    ensures AllowedInTurn(log, first + second)
    ensures AfterAll(log, first + second) == AfterAll(AfterAll(log, first), second)
    decreases |first|
  {
    hide Allowed, Rows;
    if first == [] {
      assert first + second == second;
    } else {
      var all := first + second;
      InTurnBehind(log + Rows(first[0]), first[1..], second);
      assert all[0] == first[0];
      assert all[1..] == first[1..] + second;
    }
  }

  /**
   The pass as the repository runs it, on a table that is what the workers see, skipping what they have locked: a run of
   enabled actions to a state with just that table.
   */
  method StartContinuationsRun(table: MessageEventTable, ghost s: State, coroutine: string, startable: Event -> bool,
                               onTopic: Event -> bool, locked: set<Lineage>, supply: Id, clock: nat -> int)
    returns (inserted: nat, ghost steps: seq<LogStep>, ghost s': State)
    requires SystemInv(s) && table.log == s.log && table.settled == s.settled && table.Valid()
    requires IdsBelow(table.log, supply) && forall l :: l in locked <==> RowLocked(s, l)
    modifies table
    ensures RunsTo(s, Pass(steps, coroutine), s') && inserted == |steps|
    ensures s'.log == table.log && s'.settled == table.settled && s'.workers == s.workers
  {
    hide Inv, AllowedInTurn, AfterAll, RespectsLocks, StaleSeen, LocksExclusive, SettledEarned, WorkerSound;
    ghost var seenSteps, rollbackSteps, started;
    inserted, seenSteps, rollbackSteps, started :=
      table.StartContinuations(coroutine, startable, onTopic, locked, supply, clock);
    steps := seenSteps + rollbackSteps;
    InTurnBehind(s.log, seenSteps, rollbackSteps);
    s' := PassIsARun(s, steps, coroutine, locked);
    assert s'.settled == table.settled;
  }
}
