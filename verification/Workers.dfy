/**
 Workers racing over one log.  A worker reads the readiness query, locks the run's SEEN row (skipping rows others
 hold), reads the query again, and only then executes a step and commits.  Every point where another transaction can
 commit in between is a separate state.
 */
module Workers {
  import opened Options
  import opened EventLog
  import opened Readiness
  import opened Protocol
  import opened AutomatonProofs
  import opened CooperationProofs

  type WorkerId = nat

  /**
   Where a worker stands in its transaction.  `view` and `stamped` are the log and the settled
   flags the second read saw.  Unwinding: ROLLING_BACK or
   ROLLBACK_FAILED is already committed on its own connection, the step's transaction still holds the lock.
   */
  datatype Phase =
    | Picked(run: Event)
    | Locked(run: Event)
    | Resuming(run: Event, view: Log, stamped: set<Lineage>)
    | Unwinding(run: Event)

  datatype State = State(log: Log, settled: set<Lineage>, workers: map<WorkerId, Phase>)

  datatype Action =
    | Append(step: LogStep)
    | Unsettle(coroutine: string)
    | Pick(worker: WorkerId, coroutine: string, run: Event, strategy: Strategy)
    | Lock(worker: WorkerId)
    | Reread(worker: WorkerId, coroutine: string, strategy: Strategy)
    | Write(worker: WorkerId, emissions: seq<Event>, row: Event)
    | Leave(worker: WorkerId)

  const EMPTY := State([], {}, map[])

  predicate HoldsLock(phase: Phase) {
    !phase.Picked?
  }

  /** Some transaction holds the row lock of this lineage's SEEN. */
  predicate RowLocked(s: State, lineage: Lineage) {
    exists w :: w in s.workers && HoldsLock(s.workers[w]) && s.workers[w].run.lineage == lineage
  }

  // ---------------------------------------------------------------- guards and effects

  /** Reconcile skips emissions and rollback requests whose parent SEEN is locked. */
  ghost predicate AppendEnabled(s: State, step: LogStep) {
    && Allowed(s.log, step)
    && !step.Work?
    && (step.StartRun? ==> !RowLocked(s, step.emission.lineage))
    && (step.StartRollback? ==> !RowLocked(s, step.request.lineage))
  }

  ghost predicate Enabled(s: State, a: Action) {
    match a
    case Append(step) => AppendEnabled(s, step)
    case Unsettle(coroutine) => true
    case Pick(w, coroutine, run, strategy) => w !in s.workers && Ready(s.log, s.settled, coroutine, run, strategy)
    case Lock(w) => w in s.workers && s.workers[w].Picked? && !RowLocked(s, s.workers[w].run.lineage)
    case Reread(w, coroutine, strategy) =>
      w in s.workers && s.workers[w].Locked? && Ready(s.log, s.settled, coroutine, s.workers[w].run, strategy)
    case Write(w, emissions, row) =>
      && w in s.workers && s.workers[w].Resuming?
      && var Resuming(run, view, _) := s.workers[w];
         WorkShape(s.log, run, Has(view, RollingBack, run.lineage), emissions, row)
    case Leave(w) => w in s.workers
  }

  /** A SEEN whose ROLLING_BACK, found by (coroutine, message), has no terminal row yet. */
  predicate StaleSeen(log: Log, coroutine: string, lineage: Lineage) {
    && (exists seen :: seen in log && seen.kind == Seen && seen.coroutine == Some(coroutine) && seen.lineage == lineage
                       && exists b :: b in log && b.kind == RollingBack && b.coroutine == seen.coroutine
                                      && b.message == seen.message)
    && !RollbackTerminated(log, lineage)
  }

  /** What reconcile clears: it skips rows others have locked. */
  predicate StaleSettled(s: State, coroutine: string, lineage: Lineage) {
    StaleSeen(s.log, coroutine, lineage) && !RowLocked(s, lineage)
  }

  function Unsettled(s: State, coroutine: string): set<Lineage> {
    set lineage | lineage in s.settled && !StaleSettled(s, coroutine, lineage)
  }

  function AppendEffect(s: State, step: LogStep): State {
    var settled := if step.StartRollback? && !RowLocked(s, step.seen.lineage) then s.settled - {step.seen.lineage}
                   else s.settled;
    State(s.log + Rows(step), settled, s.workers)
  }

  /**
   COMMITTED and ROLLED_BACK stamp the SEEN the worker itself locked.  ROLLING_BACK and ROLLBACK_FAILED are written on
   another connection, so their flag update meets the worker's own lock and is skipped.
   */
  function WriteEffect(s: State, w: WorkerId, emissions: seq<Event>, row: Event): State
    requires w in s.workers
  {
    var log := s.log + (emissions + [row]);
    if row.kind == RollingBack || row.kind == RollbackFailed
    then State(log, s.settled, s.workers[w := Unwinding(s.workers[w].run)])
    else State(log, if row.kind == Suspended then s.settled else s.settled + {row.lineage}, s.workers - {w})
  }

  ghost function Apply(s: State, a: Action): State
    requires Enabled(s, a)
  {
    match a
    case Append(step) => AppendEffect(s, step)
    case Unsettle(coroutine) => s.(settled := Unsettled(s, coroutine))
    case Pick(w, coroutine, run, strategy) => s.(workers := s.workers[w := Picked(run)])
    case Lock(w) => s.(workers := s.workers[w := Locked(s.workers[w].run)])
    case Reread(w, coroutine, strategy) => s.(workers := s.workers[w := Resuming(s.workers[w].run, s.log, s.settled)])
    case Write(w, emissions, row) => WriteEffect(s, w, emissions, row)
    case Leave(w) => s.(workers := s.workers - {w})
  }

  ghost predicate Next(s: State, a: Action, s': State) {
    Enabled(s, a) && s' == Apply(s, a)
  }

  /** A run of the system: every interleaving of any number of workers, strategies and clocks. */
  ghost predicate Trace(states: seq<State>, actions: seq<Action>) {
    && |states| == |actions| + 1
    && states[0] == EMPTY
    && forall i {:trigger actions[i]} :: 0 <= i < |actions| ==> Next(states[i], actions[i], states[i + 1])
  }

  // ---------------------------------------------------------------- invariant

  /** The rows a run wrote about itself and its emissions are those of the view. */
  ghost predicate OwnRowsSeen(log: Log, run: Event, view: Log) {
    forall e :: e in log && e.lineage == run.lineage && Own(e.kind) ==> e in view
  }

  /** The second read selected the run: it was a candidate of its coroutine. */
  ghost predicate SelectedBy(run: Event, view: Log, stamped: set<Lineage>) {
    run.coroutine.Some? && Candidate(view, stamped, run.coroutine.value, run)
  }

  ghost predicate WorkerSound(log: Log, phase: Phase) {
    && phase.run in log && phase.run.kind == Seen
    && (phase.Resuming? ==> phase.view <= log && OwnRowsSeen(log, phase.run, phase.view) && Resumable(log, phase.run)
                            && SelectedBy(phase.run, phase.view, phase.stamped))
  }

  ghost predicate LocksExclusive(s: State) {
    forall v, w | v in s.workers && w in s.workers && HoldsLock(s.workers[v]) && HoldsLock(s.workers[w]) ::
      s.workers[v].run.lineage == s.workers[w].run.lineage ==> v == w
  }

  /** A stamped SEEN has written the row that stamped it. */
  ghost predicate SettledEarned(s: State) {
    forall lineage :: lineage in s.settled ==> Has(s.log, Committed, lineage) || RollbackTerminated(s.log, lineage)
  }

  ghost predicate SystemInv(s: State) {
    && Inv(s.log)
    && LocksExclusive(s)
    && (forall w :: w in s.workers ==> WorkerSound(s.log, s.workers[w]))
    && SettledEarned(s)
  }

  // ---------------------------------------------------------------- what the second read establishes

  lemma RollingBackRowIsTheRuns(log: Log, seen: Event)
    requires Structure(log) && seen in log && seen.kind == Seen && Has(log, RollingBack, seen.lineage)
    ensures exists b :: b in log && b.kind == RollingBack && b.message == seen.message && b.lineage == seen.lineage
                        && b.coroutine == seen.coroutine
  {
    RunLineageIsDeep(log, seen);
    var b :| b in log && b.kind == RollingBack && b.lineage == seen.lineage;
    assert Row(log, b);
    var s :| SeenOf(log, b, s);
    assert s == seen;
  }

  lemma UnfinishedIsNotFinished(log: Log, coroutine: string, seen: Event)
    requires Structure(log) && RunsFollowAutomaton(log) && UnfinishedSeen(log, coroutine, seen)
    ensures !Finished(log, seen.lineage)
    ensures RollbackAsked(log, seen.message) ==> Has(log, RollingBack, seen.lineage)
  {
    StateDescribesLog(log, seen.lineage);
    if Has(log, RollingBack, seen.lineage) {
      RollingBackRowIsTheRuns(log, seen);
    }
  }

  /** An open child stops the query: it is in child_seens, or there is no rollback request beside it. */
  lemma OpenChildBlocks(log: Log, run: Event, s: Event)
    requires Inv(log) && run in log && run.kind == Seen
    requires s in log && s.kind == Seen && IsChild(run.lineage, s.lineage) && !Terminated(log, s.lineage)
    ensures !RollbackEmissionsPresent(log, run.lineage)
    ensures ChildSeen(log, run.lineage, s) && !ChildTerminated(log, s)
  {
    hide LineagesFormTree, SeenUnique, RowsBelongToRuns, RunsHangUnderEmissions, RunsFollowAutomaton, EmissionsClosed,
      FinishingRowsLast, AskedRunsAtRest;
    RunIsDeep(log, run);
    assert Row(log, s);
    var u, e :| ParentWaits(log, s, u, e);
    assert IsLatestSuspended(log, run.lineage, u);
    NoRequestsBesideAnOpenChild(log, run.lineage, u, e);
    assert EmissionInLatestStep(log, run.lineage, e);
  }

  lemma ReadyMeansQuiet(log: Log, run: Event)
    requires Inv(log) && run in log && run.kind == Seen && ChildrenAllowResume(log, run.lineage)
    ensures Quiet(log, run.lineage)
  {
    forall s | s in log && s.kind == Seen && IsChild(run.lineage, s.lineage) ensures Terminated(log, s.lineage) {
      if !Terminated(log, s.lineage) {
        OpenChildBlocks(log, run, s);
      }
    }
  }

  lemma NoRequestsBesideAnOpenChild(log: Log, run: Lineage, u: Event, e: Event)
    requires WindowsUnmixed(log) && |run| > 1
    requires IsLatestSuspended(log, run, u) && e in log && e.kind == Emitted && e.lineage == run
    requires InWindow(log, e, u.createdAt)
    ensures !RollbackEmissionsPresent(log, run)
  {
    if r :| r in log && RollbackEmissionInLatestStep(log, run, r) {
      assert Row(log, e) && Row(log, r);
      var mid :| SuspensionBetween(log, run, e.createdAt, r.createdAt, mid)
                 || SuspensionBetween(log, run, r.createdAt, e.createdAt, mid);
      assert false;
    }
  }

  lemma ReadyMeansResumable(log: Log, settled: set<Lineage>, coroutine: string, seen: Event, strategy: Strategy)
    requires Inv(log) && Ready(log, settled, coroutine, seen, strategy)
    ensures Resumable(log, seen)
  {
    UnfinishedIsNotFinished(log, coroutine, seen);
    ReadyMeansQuiet(log, seen);
  }

  // ---------------------------------------------------------------- what others cannot change

  /** The step is not the lock holder's own write, and reconcile skipped the locked run. */
  ghost predicate LeavesRunAlone(step: LogStep, run: Event) {
    && (step.Work? ==> step.run.lineage != run.lineage)
    && (step.StartRun? ==> step.emission.lineage != run.lineage)
  }

  lemma OthersWriteNoOwnRow(log: Log, step: LogStep, run: Event, e: Event)
    requires Inv(log) && Allowed(log, step) && Resumable(log, run) && LeavesRunAlone(step, run)
    requires e in Rows(step) && e.lineage == run.lineage
    ensures !Own(e.kind)
  {
    hide RunsHangUnderEmissions, RunsFollowAutomaton, EmissionsClosed, WindowsUnmixed, FinishingRowsLast,
      OpenChildrenAwaited;
    assert Row(log, run);
    RunLineageIsDeep(log, run);
    if step.StartRollback? {
      NotYetRollingBack(log, step.request, step.seen);
    }
  }

  lemma OthersDoNotAsk(log: Log, step: LogStep, run: Event)
    requires Inv(log) && Allowed(log, step) && Resumable(log, run)
    requires RollbackAsked(log + Rows(step), run.message)
    ensures Has(log, RollingBack, run.lineage)
  {
    hide LineagesFormTree, SeenUnique, RowsBelongToRuns, RunsHangUnderEmissions, EmissionsClosed, WindowsUnmixed,
      FinishingRowsLast, OpenChildrenAwaited, AskedRunsAtRest;
    var r :| r in log + Rows(step) && r.kind == RollbackEmitted && r.message == run.message;
    if r !in log {
      if step.RequestRollback? {
        RequestedRunIsAtRest(log, step.row, run);
      } else {
        ChildAskedIsAtRest(log, step, r, run);
      }
    }
  }

  lemma OthersKeepQuiet(log: Log, step: LogStep, run: Event)
    requires Allowed(log, step) && Quiet(log, run.lineage) && LeavesRunAlone(step, run)
    ensures Quiet(log + Rows(step), run.lineage)
  {
    forall s | s in log + Rows(step) && s.kind == Seen && IsChild(run.lineage, s.lineage)
      ensures Terminated(log + Rows(step), s.lineage)
    {
      if s in log {
        TerminatedStays(log, Rows(step), s.lineage);
      } else {
        StartedRunIsNew(log, step, s);
        assert false;
      }
    }
  }

  lemma OthersKeepResumable(log: Log, step: LogStep, run: Event)
    requires Inv(log) && Allowed(log, step) && Resumable(log, run) && LeavesRunAlone(step, run)
    ensures Resumable(log + Rows(step), run)
    ensures forall e :: e in Rows(step) && e.lineage == run.lineage ==> !Own(e.kind)
  {
    var rows := Rows(step);
    forall e | e in rows && e.lineage == run.lineage ensures !Own(e.kind) {
      OthersWriteNoOwnRow(log, step, run, e);
    }
    HasSplit(log, rows, RollingBack, run.lineage);
    HasSplit(log, rows, Committed, run.lineage);
    HasSplit(log, rows, RolledBack, run.lineage);
    HasSplit(log, rows, RollbackFailed, run.lineage);
    OthersKeepQuiet(log, step, run);
    if RollbackAsked(log + rows, run.message) {
      OthersDoNotAsk(log, step, run);
    }
  }

  lemma WorkerStaysSound(log: Log, step: LogStep, phase: Phase)
    requires Inv(log) && Allowed(log, step) && WorkerSound(log, phase)
    requires phase.Resuming? ==> LeavesRunAlone(step, phase.run)
    ensures WorkerSound(log + Rows(step), phase)
  {
    if phase.Resuming? {
      OthersKeepResumable(log, step, phase.run);
    }
  }

  // ---------------------------------------------------------------- inductiveness

  lemma SettledStaysEarned(s: State, rows: seq<Event>, settled: set<Lineage>)
    requires SettledEarned(s)
    requires forall l :: l in settled ==> l in s.settled || Has(rows, Committed, l) || Has(rows, RolledBack, l)
    ensures forall l :: l in settled ==> Has(s.log + rows, Committed, l) || RollbackTerminated(s.log + rows, l)
  {
    forall l | l in settled ensures Has(s.log + rows, Committed, l) || RollbackTerminated(s.log + rows, l) {
      HasSplit(s.log, rows, Committed, l);
      HasSplit(s.log, rows, RolledBack, l);
      HasSplit(s.log, rows, RollbackFailed, l);
    }
  }

  /** The view decides forward or rollback; it still agrees with the log, so the write is a legal one. */
  lemma WriteIsAllowed(s: State, w: WorkerId, emissions: seq<Event>, row: Event)
    requires SystemInv(s) && Enabled(s, Write(w, emissions, row))
    ensures Allowed(s.log, Work(s.workers[w].run, emissions, row))
  {
    var Resuming(run, view, _) := s.workers[w];
    assert WorkerSound(s.log, s.workers[w]);
    assert Has(view, RollingBack, run.lineage) == Has(s.log, RollingBack, run.lineage) by {
      if Has(s.log, RollingBack, run.lineage) {
        var b :| b in s.log && b.kind == RollingBack && b.lineage == run.lineage;
        assert b in view;
      }
    }
  }

  /** The transition of the log an action makes, if it makes one. */
  ghost function StepOf(s: State, a: Action): Option<LogStep> {
    match a
    case Append(step) => Some(step)
    case Write(w, emissions, row) => if w in s.workers then Some(Work(s.workers[w].run, emissions, row)) else None
    case _ => None
  }

  /** Who is resuming a run after the action has just read the log, or was at it before and nobody touched the run. */
  ghost predicate OthersLeftAlone(s: State, a: Action, s': State) {
    forall v :: v in s'.workers && s'.workers[v].Resuming? && !(a.Reread? && a.worker == v)
                ==> && v in s.workers && s'.workers[v] == s.workers[v]
                    && (StepOf(s, a).Some? ==> LeavesRunAlone(StepOf(s, a).value, s.workers[v].run))
  }

  /** The log takes the step, or stays as it is. */
  ghost predicate Steps(log: Log, step: Option<LogStep>, log': Log) {
    match step
    case Some(step) => Allowed(log, step) && log' == log + Rows(step)
    case None => log' == log
  }

  lemma ActionIsAStep(s: State, a: Action, s': State)
    requires SystemInv(s) && Next(s, a, s')
    ensures Steps(s.log, StepOf(s, a), s'.log) && OthersLeftAlone(s, a, s')
  {
    hide Inv, WorkShape, Allowed, Ready, SettledEarned, WorkerSound, Unsettled;
    if a.Write? {
      WriteIsAllowed(s, a.worker, a.emissions, a.row);
    }
  }

  lemma WorkerAfter(s: State, a: Action, s': State, v: WorkerId)
    requires SystemInv(s) && Next(s, a, s') && v in s'.workers && !(a.Reread? && a.worker == v)
    requires Steps(s.log, StepOf(s, a), s'.log) && OthersLeftAlone(s, a, s')
    ensures WorkerSound(s'.log, s'.workers[v])
  {
    hide Inv, WorkShape, Allowed, ChildrenAllowResume, StrategyAllowsResume, SettledEarned, LocksExclusive, Unsettled,
      OwnRowsSeen, Resumable, SelectedBy;
    if StepOf(s, a).Some? {
      WorkerStaysSound(s.log, StepOf(s, a).value, s'.workers[v]);
    }
  }

  lemma NextKeepsLocksAndFlags(s: State, a: Action, s': State)
    requires LocksExclusive(s) && SettledEarned(s) && Next(s, a, s')
    ensures LocksExclusive(s') && SettledEarned(s')
  {
    hide Ready, Allowed;
    if a.Write? {
      assert a.row in a.emissions + [a.row];
      SettledStaysEarned(s, a.emissions + [a.row], s'.settled);
    } else if a.Append? {
      SettledStaysEarned(s, Rows(a.step), s'.settled);
    }
  }

  lemma NextKeepsSystem(s: State, a: Action, s': State)
    requires SystemInv(s) && Next(s, a, s')
    ensures SystemInv(s')
  {
    hide Inv, LocksExclusive, WorkerSound, SettledEarned, StepOf, OthersLeftAlone;
    ActionIsAStep(s, a, s');
    if StepOf(s, a).Some? {
      StepKeepsInv(s.log, StepOf(s, a).value);
    }
    NextKeepsLocksAndFlags(s, a, s');
    forall v | v in s'.workers ensures WorkerSound(s'.log, s'.workers[v]) {
      if a.Reread? && a.worker == v {
        RereadIsSound(s, a, s');
      } else {
        WorkerAfter(s, a, s', v);
      }
    }
  }

  lemma RereadIsSound(s: State, a: Action, s': State)
    requires SystemInv(s) && Next(s, a, s') && a.Reread?
    ensures a.worker in s'.workers && WorkerSound(s'.log, s'.workers[a.worker])
  {
    hide Inv, Resumable, ChildrenAllowResume, StrategyAllowsResume, LocksExclusive, SettledEarned;
    assert WorkerSound(s.log, s.workers[a.worker]);
    ReadyMeansResumable(s.log, s.settled, a.coroutine, s.workers[a.worker].run, a.strategy);
  }

  lemma {:induction false} TraceKeepsSystem(states: seq<State>, actions: seq<Action>, i: nat)
    requires Trace(states, actions) && i < |states|
    ensures SystemInv(states[i])
  {
    hide SystemInv, Next;
    if i == 0 {
      EmptySystem();
    } else {
      TraceKeepsSystem(states, actions, i - 1);
      NextKeepsSystem(states[i - 1], actions[i - 1], states[i]);
    }
  }

  lemma EmptySystem()
    ensures SystemInv(EMPTY)
  {}
}
