/**
 The structured-cooperation protocol as a transition system over the log: what each kind of transaction may append,
 and the invariants every reachable log has, for any strategy and any clock.
 */
module Protocol {
  import opened Options
  import opened EventLog
  import opened Readiness

  // ================================================================ transitions of the log

  /**
   One committed append.  A worker's transaction writes its emissions (or its rollback requests) followed by one row
   about the run itself; every other transaction writes a single row.
   */
  datatype LogStep =
    | Launch(row: Event)
    | Cancel(row: Event)
    | RequestRollback(row: Event)
    | StartRun(row: Event, emission: Event)
    | StartRollback(row: Event, request: Event, seen: Event)
    | Work(run: Event, emissions: seq<Event>, row: Event)

  function Rows(step: LogStep): seq<Event> {
    if step.Work? then step.emissions + [step.row] else [step.row]
  }

  ghost predicate FreshMessage(log: Log, message: Id) {
    forall e :: e in log ==> e.message != message
  }

  ghost predicate FreshId(log: Log, id: Id) {
    forall e :: e in log ==> id !in e.lineage
  }

  ghost predicate After(log: Log, row: Event) {
    forall e :: e in log && e.lineage == row.lineage ==> e.createdAt < row.createdAt
  }

  /** insertGlobalEmittedEvent. */
  ghost predicate LaunchAllowed(log: Log, row: Event) {
    row.kind == Emitted && |row.lineage| == 1 && FreshMessage(log, row.message) && FreshId(log, row.lineage[0])
  }

  /** insertCancellationRequestedEvent: any known lineage, once. */
  ghost predicate CancelAllowed(log: Log, row: Event) {
    && row.kind == CancellationRequested && After(log, row)
    && (exists e :: e in log && e.lineage == row.lineage && e.message == row.message)
    && !Has(log, CancellationRequested, row.lineage)
  }

  /** The safety check of insertRollbackEmittedEvent: every run below has COMMITTED or ROLLBACK_FAILED. */
  predicate NothingBelowActive(log: Log, lineage: Lineage) {
    forall s :: s in log && s.kind == Seen && ContainedIn(lineage, s.lineage) && |s.lineage| > |lineage|
      ==> Has(log, Committed, s.lineage) || Has(log, RollbackFailed, s.lineage)
  }

  /** insertRollbackEmittedEvent, aimed at a cooperation root. */
  ghost predicate RequestRollbackAllowed(log: Log, row: Event) {
    && row.kind == RollbackEmitted && row.step.None? && |row.lineage| == 1 && After(log, row)
    && (exists e :: e in log && e.lineage == row.lineage && e.message == row.message)
    && NothingBelowActive(log, row.lineage)
    && !RollbackAsked(log, row.message)
  }

  /** The parent run's last row is a SUSPENDED, and the emission belongs to the tick it closed. */
  predicate ParentStillSuspendedOn(log: Log, emission: Event) {
    exists u :: u in log && IsLastRow(log, emission.lineage, u) && u.kind == Suspended
                && NoSuspensionBetween(log, emission.lineage, emission.createdAt, u.createdAt)
  }

  /** emitted_missing_seen and seen_insert; created_at is whatever the clock says. */
  ghost predicate StartRunAllowed(log: Log, row: Event, emission: Event) {
    && emission in log && emission.kind == Emitted
    && row.kind == Seen && row.message == emission.message && row.coroutine.Some?
    && |row.lineage| == |emission.lineage| + 1 && Parent(row.lineage) == emission.lineage
    && FreshId(log, Tip(row.lineage))
    && (forall s :: s in log && s.kind == Seen && s.message == row.message ==> s.coroutine != row.coroutine)
    && (Has(log, Seen, emission.lineage) ==> ParentStillSuspendedOn(log, emission))
  }

  /** rollback_emitted_missing_rolling_back and rolling_back_insert; created_at is whatever the clock says. */
  ghost predicate StartRollbackAllowed(log: Log, row: Event, request: Event, seen: Event) {
    && request in log && request.kind == RollbackEmitted
    && seen in log && seen.kind == Seen && seen.message == request.message
    && (forall b :: b in log && b.kind == RollingBack && b.message == request.message ==> b.coroutine != seen.coroutine)
    && row.kind == RollingBack && row.message == request.message
    && row.lineage == seen.lineage && row.coroutine == seen.coroutine && row.step.None?
  }

  /** Every started child of the run wrote a terminal row. */
  predicate Quiet(log: Log, run: Lineage) {
    forall s :: s in log && s.kind == Seen && IsChild(run, s.lineage) ==> Terminated(log, s.lineage)
  }

  /** What a worker knows about its run between the second read and the write (established in Workers). */
  ghost predicate Resumable(log: Log, run: Event) {
    && run in log && run.kind == Seen
    && !Finished(log, run.lineage)
    && Quiet(log, run.lineage)
    && (RollbackAsked(log, run.message) ==> Has(log, RollingBack, run.lineage))
  }

  ghost predicate EmissionAllowed(log: Log, run: Event, e: Event) {
    && e.kind == Emitted && e.lineage == run.lineage && e.coroutine == run.coroutine
    && After(log, e) && FreshMessage(log, e.message)
  }

  ghost predicate RollbackEmissionAllowed(log: Log, run: Event, r: Event) {
    && r.kind == RollbackEmitted && r.lineage == run.lineage && r.coroutine == run.coroutine && r.step.Some?
    && After(log, r) && !RollbackAsked(log, r.message)
    && exists e :: e in log && e.kind == Emitted && e.lineage == run.lineage && e.message == r.message
  }

  /** unique_emitted_msg and unique_rollback_emitted_msg. */
  ghost predicate DistinctMessages(emissions: seq<Event>) {
    forall i, j :: 0 <= i < j < |emissions| ==> emissions[i].message != emissions[j].message
  }

  /** Each launch is a statement of its own; the rollback requests of one statement may share their created_at. */
  ghost predicate EmissionsInOrder(emissions: seq<Event>) {
    forall i, j :: 0 <= i < j < |emissions| && emissions[j].kind == Emitted
      ==> emissions[i].createdAt < emissions[j].createdAt
  }

  /** launch (any number of times) or insertRollbackEmittedEventsForStep, then insertMessageEvent. */
  ghost predicate WorkShape(log: Log, run: Event, rolling: bool, emissions: seq<Event>, row: Event) {
    && row.lineage == run.lineage && row.message == run.message && row.coroutine == run.coroutine
    && After(log, row) && row.step.Some?
    && (match row.kind
        case Suspended => true
        case Committed | RollingBack => !rolling
        case RolledBack | RollbackFailed => rolling
        case _ => false)
    && (emissions != [] ==> row.kind == Suspended)
    && (forall e :: e in emissions ==> e.createdAt < row.createdAt)
    && DistinctMessages(emissions)
    && EmissionsInOrder(emissions)
    && ((forall e :: e in emissions ==> EmissionAllowed(log, run, e))
        || (rolling && forall e :: e in emissions ==> RollbackEmissionAllowed(log, run, e)))
  }

  ghost predicate WorkAllowed(log: Log, run: Event, emissions: seq<Event>, row: Event) {
    Resumable(log, run) && WorkShape(log, run, Has(log, RollingBack, run.lineage), emissions, row)
  }

  ghost predicate Allowed(log: Log, step: LogStep) {
    match step
    case Launch(row) => LaunchAllowed(log, row)
    case Cancel(row) => CancelAllowed(log, row)
    case RequestRollback(row) => RequestRollbackAllowed(log, row)
    case StartRun(row, emission) => StartRunAllowed(log, row, emission)
    case StartRollback(row, request, seen) => StartRollbackAllowed(log, row, request, seen)
    case Work(run, emissions, row) => WorkAllowed(log, run, emissions, row)
  }

  // ================================================================ invariants

  /**
   Membership under a name of its own.  Invariants that promise another row are instantiated where a proof says
   `Row(log, e)`, not at every row the solver comes across.
   */
  predicate Row(log: Log, e: Event) {
    e in log
  }

  /** Every nonempty prefix of a lineage is a lineage, and an id is the tip of one lineage only. */
  ghost predicate LineagesFormTree(log: Log) {
    && (forall e :: e in log ==> |e.lineage| > 0)
    && (forall e, k :: e in log && 1 <= k <= |e.lineage| ==> IsLineage(log, e.lineage[..k]))
    && (forall e, f :: e in log && f in log && Tip(e.lineage) == Tip(f.lineage) ==> e.lineage == f.lineage)
  }

  /** One SEEN per lineage, one per (coroutine, message). */
  ghost predicate SeenUnique(log: Log) {
    forall s, t | s in log && t in log && s.kind == Seen && t.kind == Seen ::
      (s.lineage == t.lineage || (s.coroutine == t.coroutine && s.message == t.message)) ==> s == t
  }

  predicate AboutRun(kind: Kind) {
    kind == Seen || kind == Suspended || kind == Committed || kind == RollingBack || kind == RolledBack
    || kind == RollbackFailed
  }

  ghost predicate SeenOf(log: Log, e: Event, s: Event) {
    s in log && s.kind == Seen && s.lineage == e.lineage && s.coroutine == e.coroutine
    && (AboutRun(e.kind) ==> s.message == e.message)
  }

  /** Rows below the roots belong to a SEEN; rows about a run carry its message and coroutine. */
  ghost predicate RowsBelongToRuns(log: Log) {
    && (forall e {:trigger Row(log, e)} :: Row(log, e) && Own(e.kind) && |e.lineage| > 1
          ==> exists s :: SeenOf(log, e, s))
    && (forall e :: e in log && Own(e.kind) && |e.lineage| == 1 ==> e.kind == Emitted || e.kind == RollbackEmitted)
    && (forall e, f :: e in log && f in log && e.lineage == f.lineage && |e.lineage| == 1 ==> e.message == f.message)
    && (forall e {:trigger Row(log, e)} :: Row(log, e) && |e.lineage| == 1 ==> Has(log, Emitted, e.lineage))
  }

  ghost predicate EmissionOf(log: Log, s: Event, e: Event) {
    e in log && e.kind == Emitted && e.message == s.message && IsChild(e.lineage, s.lineage)
  }

  ghost predicate KnownMessage(log: Log, message: Id) {
    exists e :: e in log && e.kind == Emitted && e.message == message
  }

  /** One EMITTED per message; a run hangs under the lineage that emitted its message. */
  ghost predicate RunsHangUnderEmissions(log: Log) {
    && (forall e, f :: e in log && f in log && e.kind == Emitted && f.kind == Emitted && e.message == f.message ==> e == f)
    && (forall s {:trigger Row(log, s)} :: Row(log, s) && s.kind == Seen ==> exists e :: EmissionOf(log, s, e))
    && (forall r {:trigger Row(log, r)} :: Row(log, r) ==> KnownMessage(log, r.message))
  }

  // ---------------------------------------------------------------- the automaton of one run

  datatype RunState = NotStarted | Forward | Done | Rolling | Ended | Stuck

  function Delta(state: RunState, kind: Kind): RunState {
    match (state, kind)
    case (_, Emitted) => state
    case (_, RollbackEmitted) => state
    case (_, CancellationRequested) => state
    case (NotStarted, Seen) => Forward
    case (Forward, Suspended) => Forward
    case (Forward, Committed) => Done
    case (Forward, RollingBack) => Rolling
    case (Done, RollingBack) => Rolling
    case (Rolling, Suspended) => Rolling
    case (Rolling, RolledBack) => Ended
    case (Rolling, RollbackFailed) => Ended
    case (_, _) => Stuck
  }

  /** The automaton run over a lineage's rows in commit order. */
  function StateOf(log: Log, run: Lineage): RunState {
    if |log| == 0 then NotStarted
    else
      var before := StateOf(log[..|log| - 1], run);
      var e := log[|log| - 1];
      if e.lineage == run then Delta(before, e.kind) else before
  }

  ghost predicate RunsFollowAutomaton(log: Log) {
    forall run: Lineage :: StateOf(log, run) != Stuck
  }

  // ---------------------------------------------------------------- windows

  /** Emissions and rollback requests of a run are committed together with a later SUSPENDED. */
  ghost predicate EmissionsClosed(log: Log) {
    forall e {:trigger Row(log, e)} | Row(log, e) && |e.lineage| > 1 && (e.kind == Emitted || e.kind == RollbackEmitted) ::
      exists u :: u in log && u.kind == Suspended && u.lineage == e.lineage && e.createdAt < u.createdAt
  }

  ghost predicate SuspensionBetween(log: Log, run: Lineage, from: int, to: int, u: Event) {
    u in log && u.kind == Suspended && u.lineage == run && from < u.createdAt < to
  }

  /** No window holds both an emission and a rollback request. */
  ghost predicate WindowsUnmixed(log: Log) {
    forall e, r {:trigger Row(log, e), Row(log, r)}
      | Row(log, e) && Row(log, r) && e.kind == Emitted && r.kind == RollbackEmitted && e.lineage == r.lineage
      && |e.lineage| > 1 ::
      exists u :: SuspensionBetween(log, e.lineage, e.createdAt, r.createdAt, u)
                      || SuspensionBetween(log, e.lineage, r.createdAt, e.createdAt, u)
  }

  /** A row that finishes a run is later than all its suspensions. */
  ghost predicate FinishingRowsLast(log: Log) {
    forall t, u | t in log && u in log && t.lineage == u.lineage && u.kind == Suspended ::
      (t.kind == RolledBack || t.kind == RollbackFailed || (t.kind == Committed && !Has(log, RollingBack, t.lineage)))
      ==> u.createdAt < t.createdAt
  }

  // ---------------------------------------------------------------- the cooperation invariant

  /** `u` is the parent's last own row, a SUSPENDED, and closes the window in which the child was emitted. */
  ghost predicate ParentWaits(log: Log, child: Event, u: Event, e: Event) {
    && |child.lineage| > 1
    && u in log && u.kind == Suspended && u.lineage == Parent(child.lineage)
    && (forall o :: o in log && o.lineage == u.lineage && Own(o.kind) ==> o.createdAt <= u.createdAt)
    && e in log && e.kind == Emitted && e.message == child.message && e.lineage == u.lineage
    && InWindow(log, e, u.createdAt)
  }

  ghost predicate Awaited(log: Log, child: Event) {
    |child.lineage| > 0 && !Finished(log, Parent(child.lineage)) && exists u, e :: ParentWaits(log, child, u, e)
  }

  /** A started child without terminal row: its parent has not finished and waits for exactly that window. */
  ghost predicate OpenChildrenAwaited(log: Log) {
    forall s {:trigger Row(log, s)} | Row(log, s) && s.kind == Seen && |s.lineage| > 2 && !Terminated(log, s.lineage) ::
      Awaited(log, s)
  }

  /** A run asked to roll back that has not begun to: it is committed, or it never suspended. */
  ghost predicate AskedRunsAtRest(log: Log) {
    forall r, s | r in log && s in log && r.kind == RollbackEmitted && s.kind == Seen && r.message == s.message ::
      Has(log, RollingBack, s.lineage) || Has(log, Committed, s.lineage) || !Has(log, Suspended, s.lineage)
  }

  ghost predicate Structure(log: Log) {
    LineagesFormTree(log) && SeenUnique(log) && RowsBelongToRuns(log) && RunsHangUnderEmissions(log)
  }

  ghost predicate Inv(log: Log) {
    && Structure(log)
    && RunsFollowAutomaton(log)
    && EmissionsClosed(log)
    && WindowsUnmixed(log)
    && FinishingRowsLast(log)
    && OpenChildrenAwaited(log)
    && AskedRunsAtRest(log)
  }
}
