/**
 The message_event table and the statements that change it (MessageEventRepository.ts, SettledFlag.ts).  Each method is
 one statement: it states the whole new table, and that the change is a transition of the protocol.

 `locked` is the set of SEEN rows (named by their lineage) other transactions hold; `clock` is CLOCK_TIMESTAMP().
 */
module Repository {
  import opened Options
  import opened EventLog
  import opened Readiness
  import opened Protocol
  import opened AutomatonProofs
  import opened SettledFlag
  import opened Windows
  import opened Workers

  predicate Settles(kind: Kind) {
    kind == Committed || kind == RolledBack || kind == RollbackFailed
  }

  /** The SEEN rows one statement addresses by (coroutine_name, message_id, type), less those it must skip. */
  function SeensAddressed(log: Log, coroutine: Option<string>, message: Id, locked: set<Lineage>): set<Lineage> {
    set s | s in log && s.kind == Seen && s.coroutine == coroutine && s.message == message && s.lineage !in locked
      :: s.lineage
  }

  /** On a reachable log (coroutine, message) addresses the run's own SEEN and nothing else. */
  lemma FlagUpdateHitsOwnSeen(log: Log, run: Event, locked: set<Lineage>)
    requires SeenUnique(log) && run in log && run.kind == Seen
    ensures SeensAddressed(log, run.coroutine, run.message, locked)
            == if run.lineage in locked then {} else {run.lineage}
  {}

  // ---------------------------------------------------------------- the rollback requests of one step

  /** emitted_record: an emission of the tick that the SUSPENDED at `suspendedAt` closed. */
  predicate InStep(log: Log, e: Event, lineage: Lineage, suspendedAt: int) {
    e.kind == Emitted && e.lineage == lineage && InWindow(log, e, suspendedAt)
  }

  /** The rows a WHERE clause keeps, in order. */
  function Where(rows: seq<Event>, keep: Event -> bool): (kept: seq<Event>)
    ensures forall e :: e in kept <==> e in rows && keep(e)
  {
    if rows == [] then []
    else
      assert rows == [rows[0]] + rows[1..];
      if keep(rows[0]) then [rows[0]] + Where(rows[1..], keep) else Where(rows[1..], keep)
  }

  lemma {:induction false} KeptMessagesDiffer(rows: seq<Event>, keep: Event -> bool)
    requires OncePerMessage(rows, Emitted) && forall e :: keep(e) ==> e.kind == Emitted
    ensures DistinctMessages(Where(rows, keep))
  {
    if rows != [] {
      var rest := rows[1..];
      assert forall i :: 0 <= i < |rest| ==> rest[i] == rows[i + 1];
      KeptMessagesDiffer(rest, keep);
      var kept := Where(rest, keep);
      forall j | 0 <= j < |kept| && keep(rows[0]) ensures kept[j].message != rows[0].message {
        assert kept[j] in kept;
        var i :| 0 <= i < |rest| && rest[i] == kept[j];
        assert rows[i + 1] == kept[j];
      }
    }
  }

  function EmittedRecord(log: Log, lineage: Lineage, suspendedAt: int): seq<Event> {
    Where(log, (e: Event) => InStep(log, e, lineage, suspendedAt))
  }

  /** The rows insertRollbackEmittedEventsForStep inserts: one per row of emitted_record. */
  function RequestsFor(emitted: seq<Event>, lineage: Lineage, coroutine: string, step: string, at: int)
    : (rows: seq<Event>)
    ensures |rows| == |emitted|
    ensures forall i :: 0 <= i < |rows| ==>
              rows[i] == Event(RollbackEmitted, emitted[i].message, lineage, Some(coroutine), Some(step), None, None, at)
  {
    seq(|emitted|, i requires 0 <= i < |emitted| =>
      Event(RollbackEmitted, emitted[i].message, lineage, Some(coroutine), Some(step), None, None, at))
  }

  predicate NoneAskedYet(log: Log, lineage: Lineage, suspendedAt: int) {
    forall e :: e in EmittedRecord(log, lineage, suspendedAt) ==> !RollbackAsked(log, e.message)
  }

  lemma RequestsAreAllowed(log: Log, run: Event, coroutine: string, step: string, suspendedAt: int, at: int, r: Event)
    requires run.coroutine == Some(coroutine) && NoneAskedYet(log, run.lineage, suspendedAt)
    requires forall e :: e in log && e.lineage == run.lineage ==> e.createdAt < at
    requires r in RequestsFor(EmittedRecord(log, run.lineage, suspendedAt), run.lineage, coroutine, step, at)
    ensures RollbackEmissionAllowed(log, run, r)
  {
    var emitted := EmittedRecord(log, run.lineage, suspendedAt);
    var rows := RequestsFor(emitted, run.lineage, coroutine, step, at);
    var i :| 0 <= i < |rows| && rows[i] == r;
    assert emitted[i] in emitted;
  }

  // ---------------------------------------------------------------- the rows of one tick

  /** What launching `launches` (message, clock) in one step inserts, one guarded statement after the other. */
  function Launched(log: Log, run: Event, step: string, launches: seq<(Id, int)>): (rows: seq<Event>)
    decreases |launches|
  {
    if launches == [] then []
    else
      var row := Event(Emitted, launches[0].0, run.lineage, run.coroutine, Some(step), None, None,
                       Stamp(log, run.lineage, launches[0].1));
      [row] + Launched(log + [row], run, step, launches[1..])
  }

  ghost predicate DistinctFresh(log: Log, launches: seq<(Id, int)>) {
    && (forall i :: 0 <= i < |launches| ==> FreshMessage(log, launches[i].0))
    && (forall i, j :: 0 <= i < j < |launches| ==> launches[i].0 != launches[j].0)
  }

  lemma {:induction false} LaunchedInOrder(log: Log, run: Event, step: string, launches: seq<(Id, int)>)
    requires DistinctFresh(log, launches)
    ensures var rows := Launched(log, run, step, launches);
            && |rows| == |launches| && EmissionsInOrder(rows)
            && (forall i :: 0 <= i < |rows| ==> rows[i].message == launches[i].0 && EmissionAllowed(log, run, rows[i]))
            && DistinctMessages(rows)
    decreases |launches|
  {
    if launches != [] {
      var first := Launched(log, run, step, launches)[0];
      var rest := Launched(log + [first], run, step, launches[1..]);
      LaunchedInOrder(log + [first], run, step, launches[1..]);
      forall i | 0 <= i < |rest|
        ensures EmissionAllowed(log, run, rest[i]) && first.createdAt < rest[i].createdAt
                && first.message != rest[i].message && rest[i].message == launches[i + 1].0
      {
        AllowedAfter(log, run, first, rest[i]);
      }
    }
  }

  /** Each launch carries the step's name and is not stamped before its clock. */
  lemma {:induction false} LaunchedByStep(log: Log, run: Event, step: string, launches: seq<(Id, int)>)
    ensures var rows := Launched(log, run, step, launches);
            |rows| == |launches|
            && forall i :: 0 <= i < |rows| ==> rows[i].step == Some(step) && rows[i].createdAt >= launches[i].1
    decreases |launches|
  {
    if launches != [] {
      LaunchedByStep(log + [Launched(log, run, step, launches)[0]], run, step, launches[1..]);
    }
  }

  /** A row allowed behind another of its lineage is later than it, and allowed without it. */
  lemma AllowedAfter(log: Log, run: Event, first: Event, e: Event)
    requires first.lineage == run.lineage && EmissionAllowed(log + [first], run, e)
    ensures EmissionAllowed(log, run, e) && first.createdAt < e.createdAt && first.message != e.message
  {
    assert first in log + [first];
    assert forall f :: f in log ==> f in log + [first];
  }

  /** The guarded inserts of one forward or compensating step have the shape the protocol allows, for any clock. */
  lemma StepInsertsHaveWorkShape(log: Log, run: Event, rolling: bool, step: string, launches: seq<(Id, int)>, row: Event)
    requires DistinctFresh(log, launches)
    requires row.kind == Suspended && row.lineage == run.lineage && row.message == run.message
    requires row.coroutine == run.coroutine && row.step == Some(step)
    requires After(log + Launched(log, run, step, launches), row)
    ensures WorkShape(log, run, rolling, Launched(log, run, step, launches), row)
  {
    LaunchedInOrder(log, run, step, launches);
    var rows := Launched(log, run, step, launches);
    forall e | e in rows ensures EmissionAllowed(log, run, e) && e.createdAt < row.createdAt {
      assert e in log + rows;
    }
    assert forall e :: e in log ==> e in log + rows;
  }

  /** So do the rollback requests of one child-rollback step. */
  lemma RequestInsertsHaveWorkShape(log: Log, run: Event, coroutine: string, step: string, suspendedAt: int, clock: int,
                                    row: Event)
    requires run.coroutine == Some(coroutine) && NoneAskedYet(log, run.lineage, suspendedAt)
    requires OncePerMessage(log, Emitted)
    requires row.kind == Suspended && row.lineage == run.lineage && row.message == run.message
    requires row.coroutine == run.coroutine && row.step == Some(step)
    requires After(log + RequestsFor(EmittedRecord(log, run.lineage, suspendedAt), run.lineage, coroutine, step,
                                     Stamp(log, run.lineage, clock)), row)
    ensures WorkShape(log, run, true,
                      RequestsFor(EmittedRecord(log, run.lineage, suspendedAt), run.lineage, coroutine, step,
                                  Stamp(log, run.lineage, clock)), row)
  {
    var at := Stamp(log, run.lineage, clock);
    var rows := RequestsFor(EmittedRecord(log, run.lineage, suspendedAt), run.lineage, coroutine, step, at);
    forall e | e in rows ensures RollbackEmissionAllowed(log, run, e) && e.createdAt < row.createdAt {
      RequestsAreAllowed(log, run, coroutine, step, suspendedAt, at, e);
      assert e in log + rows;
    }
    KeptMessagesDiffer(log, (e: Event) => InStep(log, e, run.lineage, suspendedAt));
    assert forall e :: e in log ==> e in log + rows;
  }

  // ---------------------------------------------------------------- reconcile

  /** emitted_missing_seen, less the strategy's start test. */
  predicate MissingSeen(log: Log, locked: set<Lineage>, coroutine: string, e: Event) {
    && e.kind == Emitted
    && (forall s :: s in log && s.kind == Seen && s.message == e.message ==> s.coroutine != Some(coroutine))
    && (Has(log, Seen, e.lineage) ==> e.lineage !in locked && ParentStillSuspendedOn(log, e))
  }

  /** rollback_emitted_missing_rolling_back: the request, and the SEEN whose run it re-activates. */
  predicate MissingRollingBack(log: Log, locked: set<Lineage>, coroutine: string, request: Event, seen: Event) {
    && request.kind == RollbackEmitted
    && seen.kind == Seen && seen.message == request.message && seen.coroutine == Some(coroutine)
    && (forall b :: b in log && b.kind == RollingBack && b.message == request.message ==> b.coroutine != Some(coroutine))
    && (Has(log, Seen, request.lineage) ==> request.lineage !in locked)
  }

  /** What the protocol lets this coroutine start, and nobody has locked, is among the missing. */
  lemma AllowedIsMissing(log: Log, locked: set<Lineage>, coroutine: string)
    ensures forall e, row :: StartRunAllowed(log, row, e) && row.coroutine == Some(coroutine)
                             && (Has(log, Seen, e.lineage) ==> e.lineage !in locked)
                             ==> e in log && MissingSeen(log, locked, coroutine, e)
    ensures forall r, s, row :: StartRollbackAllowed(log, row, r, s) && row.coroutine == Some(coroutine)
                                && (Has(log, Seen, r.lineage) ==> r.lineage !in locked)
                                ==> r in log && s in log && MissingRollingBack(log, locked, coroutine, r, s)
  {}

  /** A sequence of log transitions, one after the other. */
  ghost predicate AllowedInTurn(log: Log, steps: seq<LogStep>)
    decreases |steps|
  {
    steps == [] || (Allowed(log, steps[0]) && AllowedInTurn(log + Rows(steps[0]), steps[1..]))
  }

  ghost function AfterAll(log: Log, steps: seq<LogStep>): Log
    decreases |steps|
  {
    if steps == [] then log else AfterAll(log + Rows(steps[0]), steps[1..])
  }

  lemma {:induction false} OneMoreStep(log: Log, steps: seq<LogStep>, step: LogStep)
    requires AllowedInTurn(log, steps) && Allowed(AfterAll(log, steps), step)
    ensures AllowedInTurn(log, steps + [step])
    ensures AfterAll(log, steps + [step]) == AfterAll(log, steps) + Rows(step)
    decreases |steps|
  {
    if steps == [] {
      assert (steps + [step])[1..] == [];
    } else {
      OneMoreStep(log + Rows(steps[0]), steps[1..], step);
      assert (steps + [step])[1..] == steps[1..] + [step];
    }
  }

  /** Reconcile leaves emissions and requests alone whose parent SEEN it could not lock. */
  predicate RespectsLocks(log: Log, locked: set<Lineage>, step: LogStep) {
    match step
    case StartRun(row, emission) => Has(log, Seen, emission.lineage) ==> emission.lineage !in locked
    case StartRollback(row, request, seen) => Has(log, Seen, request.lineage) ==> request.lineage !in locked
    case _ => false
  }

  /** Rows on other lineages do not change what the start guard sees of the parent. */
  lemma ParentViewUnchanged(log: Log, rows: seq<Event>, e: Event)
    requires ParentStillSuspendedOn(log, e) && forall r :: r in rows ==> r.lineage != e.lineage
    ensures ParentStillSuspendedOn(log + rows, e)
  {
    var u :| u in log && IsLastRow(log, e.lineage, u) && u.kind == Suspended
             && NoSuspensionBetween(log, e.lineage, e.createdAt, u.createdAt);
    assert IsLastRow(log + rows, e.lineage, u);
    assert NoSuspensionBetween(log + rows, e.lineage, e.createdAt, u.createdAt);
  }

  ghost predicate IdsBelow(log: Log, supply: Id) {
    forall e, x :: e in log && x in e.lineage ==> x < supply
  }

  /** What a pass has inserted so far: SEENs of one coroutine, each on a lineage the snapshot does not know. */
  ghost predicate OnlyNewSeens(snapshot: Log, coroutine: string, rows: seq<Event>) {
    forall r :: r in rows ==> r.kind == Seen && r.coroutine == Some(coroutine) && !IsLineage(snapshot, r.lineage)
  }

  lemma StillStartable(snapshot: Log, rows: seq<Event>, locked: set<Lineage>, coroutine: string, supply: Id,
                       e: Event, row: Event)
    requires LineagesFormTree(snapshot) && e in snapshot && MissingSeen(snapshot, locked, coroutine, e)
    requires OnlyNewSeens(snapshot, coroutine, rows) && IdsBelow(snapshot + rows, supply)
    requires forall r :: r in rows ==> r.message != e.message
    requires row.kind == Seen && row.message == e.message && row.coroutine == Some(coroutine)
    requires row.lineage == e.lineage + [supply]
    ensures StartRunAllowed(snapshot + rows, row, e)
    ensures !IsLineage(snapshot, row.lineage)
    ensures RespectsLocks(snapshot, locked, StartRun(row, e))
  {
    assert Parent(row.lineage) == e.lineage && Tip(row.lineage) == supply && supply in row.lineage;
    HasSplit(snapshot, rows, Seen, e.lineage);
    assert IsLineage(snapshot, e.lineage);
    if Has(snapshot + rows, Seen, e.lineage) {
      assert Has(snapshot, Seen, e.lineage);
      ParentViewUnchanged(snapshot, rows, e);
    }
  }

  predicate HasSeenFor(log: Log, coroutine: string, message: Id) {
    exists s :: s in log && s.kind == Seen && s.message == message && s.coroutine == Some(coroutine)
  }

  predicate HasRollingBackFor(log: Log, coroutine: string, message: Id) {
    exists b :: b in log && b.kind == RollingBack && b.message == message && b.coroutine == Some(coroutine)
  }

  /** A pass in progress: the rows appended to the snapshot are those of allowed transitions, taken in turn. */
  ghost predicate SeenPass(snapshot: Log, rows: seq<Event>, steps: seq<LogStep>, locked: set<Lineage>, coroutine: string,
                           supply: Id)
  {
    && AllowedInTurn(snapshot, steps) && snapshot + rows == AfterAll(snapshot, steps) && |rows| == |steps|
    && OnlyNewSeens(snapshot, coroutine, rows) && IdsBelow(snapshot + rows, supply)
    && forall step :: step in steps
                      ==> step.StartRun? && step.row.coroutine == Some(coroutine) && RespectsLocks(snapshot, locked, step)
  }

  lemma SeenPassContinues(snapshot: Log, rows: seq<Event>, steps: seq<LogStep>, locked: set<Lineage>,
                          coroutine: string, supply: Id, e: Event, row: Event)
    requires Structure(snapshot) && SeenPass(snapshot, rows, steps, locked, coroutine, supply)
    requires e in snapshot && MissingSeen(snapshot, locked, coroutine, e)
    requires !HasSeenFor(snapshot + rows, coroutine, e.message)
    requires row.kind == Seen && row.message == e.message && row.coroutine == Some(coroutine)
    requires row.lineage == e.lineage + [supply]
    ensures SeenPass(snapshot, rows + [row], steps + [StartRun(row, e)], locked, coroutine, supply + 1)
  {
    forall r | r in rows ensures r.message != e.message {
      assert r in snapshot + rows;
    }
    StillStartable(snapshot, rows, locked, coroutine, supply, e, row);
    OneMoreStep(snapshot, steps, StartRun(row, e));
    assert snapshot + (rows + [row]) == (snapshot + rows) + [row];
    forall f, x | f in snapshot + (rows + [row]) && x in f.lineage ensures x < supply + 1 {
      if f == row {
        assert x in e.lineage || x == supply;
        assert e in snapshot + rows;
      }
    }
  }

  lemma NothingStartedYet(snapshot: Log, locked: set<Lineage>, coroutine: string, supply: Id)
    requires IdsBelow(snapshot, supply)
    ensures SeenPass(snapshot, [], [], locked, coroutine, supply)
  {
    assert snapshot + [] == snapshot;
  }

  lemma NothingReactivatedYet(snapshot: Log, started: Log, locked: set<Lineage>, coroutine: string)
    ensures RollbackPass(snapshot, started, [], [], locked, coroutine)
  {
    assert started + [] == started;
  }

  /** With every missing ROLLING_BACK written, everything the protocol lets this coroutine begin has begun. */
  lemma NoneAllowedLeft(snapshot: Log, log: Log, coroutine: string, eligible: Event -> bool, locked: set<Lineage>)
    requires forall r, s :: r in snapshot && s in snapshot && eligible(r)
                            && MissingRollingBack(snapshot, locked, coroutine, r, s)
                            ==> HasRollingBackFor(log, coroutine, r.message)
    ensures forall r, s, row :: StartRollbackAllowed(snapshot, row, r, s) && row.coroutine == Some(coroutine)
                                && eligible(r) && (Has(snapshot, Seen, r.lineage) ==> r.lineage !in locked)
                                ==> exists b :: b in log && b.kind == RollingBack && b.message == r.message
                                                && b.coroutine == Some(coroutine)
  {
    hide MissingRollingBack, StartRollbackAllowed;
    AllowedIsMissing(snapshot, locked, coroutine);
  }

  lemma SeenForStays(log: Log, row: Event, coroutine: string, message: Id)
    requires HasSeenFor(log, coroutine, message)
    ensures HasSeenFor(log + [row], coroutine, message)
  {
    var s :| s in log && s.kind == Seen && s.message == message && s.coroutine == Some(coroutine);
    assert s in log + [row];
  }

  /** Rows a pass inserts for rollback requests: each on the lineage of a SEEN that was not rolling back. */
  ghost predicate ReactivatesRun(snapshot: Log, coroutine: string, r: Event) {
    r.kind == RollingBack && r.coroutine == Some(coroutine) && !HasRollingBackFor(snapshot, coroutine, r.message)
    && exists s :: s in snapshot && s.kind == Seen && s.coroutine == r.coroutine && s.message == r.message
                   && s.lineage == r.lineage
  }

  ghost predicate RollbackPass(snapshot: Log, started: Log, rows: seq<Event>, steps: seq<LogStep>, locked: set<Lineage>,
                               coroutine: string)
  {
    && AllowedInTurn(started, steps) && started + rows == AfterAll(started, steps) && |rows| == |steps|
    && (forall r :: r in rows ==> ReactivatesRun(snapshot, coroutine, r))
    && forall step :: step in steps ==> step.StartRollback? && step.row.coroutine == Some(coroutine)
                                        && RespectsLocks(snapshot, locked, step)
  }

  lemma RollbackPassContinues(snapshot: Log, started: Log, rows: seq<Event>, steps: seq<LogStep>,
                              locked: set<Lineage>, coroutine: string, request: Event, seen: Event, row: Event)
    requires snapshot <= started && RollbackPass(snapshot, started, rows, steps, locked, coroutine)
    requires request in snapshot && seen in snapshot && MissingRollingBack(snapshot, locked, coroutine, request, seen)
    requires !HasRollingBackFor(started + rows, coroutine, request.message)
    requires row.kind == RollingBack && row.message == request.message && row.coroutine == Some(coroutine)
    requires row.lineage == seen.lineage && row.step.None?
    ensures RollbackPass(snapshot, started, rows + [row], steps + [StartRollback(row, request, seen)], locked, coroutine)
  {
    assert request in started + rows && seen in started + rows;
    assert StartRollbackAllowed(started + rows, row, request, seen);
    OneMoreStep(started, steps, StartRollback(row, request, seen));
    assert started + (rows + [row]) == (started + rows) + [row];
    assert ReactivatesRun(snapshot, coroutine, row);
  }

  lemma RollingBackForNew(log: Log, row: Event, coroutine: string)
    requires row.kind == RollingBack && row.coroutine == Some(coroutine)
    ensures HasRollingBackFor(log + [row], coroutine, row.message)
  {
    assert row in log + [row];
  }

  lemma RollingBackForStays(log: Log, row: Event, coroutine: string, message: Id)
    requires HasRollingBackFor(log, coroutine, message)
    ensures HasRollingBackFor(log + [row], coroutine, message)
  {
    var s :| s in log && s.kind == RollingBack && s.message == message && s.coroutine == Some(coroutine);
    assert s in log + [row];
  }

  lemma ReactivatedIsStale(snapshot: Log, seens: seq<Event>, rolling: seq<Event>, coroutine: string, r: Event)
    requires Structure(snapshot) && RunsFollowAutomaton(snapshot) && OnlyNewSeens(snapshot, coroutine, seens)
    requires forall q :: q in rolling ==> ReactivatesRun(snapshot, coroutine, q)
    requires r in rolling
    ensures StaleSeen(snapshot + seens + rolling, coroutine, r.lineage)
  {
    var log := snapshot + seens + rolling;
    assert ReactivatesRun(snapshot, coroutine, r);
    var s :| s in snapshot && s.kind == Seen && s.coroutine == r.coroutine && s.message == r.message
             && s.lineage == r.lineage;
    NotYetRollingBack(snapshot, r, s);
    StateDescribesLog(snapshot, r.lineage);
    NoTerminalAdded(snapshot, seens, rolling, coroutine, r.lineage);
    assert s in log && r in log;
  }

  lemma StaleStaysStale(snapshot: Log, seens: seq<Event>, rolling: seq<Event>, coroutine: string, l: Lineage)
    requires OnlyNewSeens(snapshot, coroutine, seens)
    requires forall r :: r in rolling ==> ReactivatesRun(snapshot, coroutine, r)
    requires StaleSeen(snapshot, coroutine, l)
    ensures StaleSeen(snapshot + seens + rolling, coroutine, l)
  {
    var log := snapshot + seens + rolling;
    var s, b :| s in snapshot && s.kind == Seen && s.coroutine == Some(coroutine) && s.lineage == l
                && b in snapshot && b.kind == RollingBack && b.coroutine == s.coroutine && b.message == s.message;
    NoTerminalAdded(snapshot, seens, rolling, coroutine, l);
    assert s in log && b in log;
  }

  lemma StaleWasStaleOrReactivated(snapshot: Log, seens: seq<Event>, rolling: seq<Event>, coroutine: string, l: Lineage)
    requires SeenUnique(snapshot) && OnlyNewSeens(snapshot, coroutine, seens) && Has(snapshot, Seen, l)
    requires forall r :: r in rolling ==> ReactivatesRun(snapshot, coroutine, r)
    requires StaleSeen(snapshot + seens + rolling, coroutine, l)
    ensures StaleSeen(snapshot, coroutine, l) || exists r :: r in rolling && r.lineage == l
  {
    var log := snapshot + seens + rolling;
    NoTerminalAdded(snapshot, seens, rolling, coroutine, l);
    var s, b :| s in log && s.kind == Seen && s.coroutine == Some(coroutine) && s.lineage == l
                && b in log && b.kind == RollingBack && b.coroutine == s.coroutine && b.message == s.message;
    assert IsLineage(snapshot, l);
    assert s in snapshot by {
      assert s in seens ==> !IsLineage(snapshot, s.lineage);
      assert s in rolling ==> ReactivatesRun(snapshot, coroutine, s);
    }
    if b !in snapshot {
      assert b in rolling && ReactivatesRun(snapshot, coroutine, b);
      var owner :| owner in snapshot && owner.kind == Seen && owner.coroutine == b.coroutine
                   && owner.message == b.message && owner.lineage == b.lineage;
      assert owner == s;
    }
  }

  /** rolling_back_unsettle covers the rows of this pass, stale_rolling_back_unsettle the older ones: together, all. */
  lemma BothUnsettlesTogether(snapshot: Log, seens: seq<Event>, rolling: seq<Event>, coroutine: string, l: Lineage)
    requires Structure(snapshot) && RunsFollowAutomaton(snapshot)
    requires OnlyNewSeens(snapshot, coroutine, seens) && Has(snapshot, Seen, l)
    requires forall r :: r in rolling ==> ReactivatesRun(snapshot, coroutine, r)
    ensures StaleSeen(snapshot + seens + rolling, coroutine, l)
            <==> StaleSeen(snapshot, coroutine, l) || exists r :: r in rolling && r.lineage == l
  {
    if r :| r in rolling && r.lineage == l {
      ReactivatedIsStale(snapshot, seens, rolling, coroutine, r);
    }
    if StaleSeen(snapshot, coroutine, l) {
      StaleStaysStale(snapshot, seens, rolling, coroutine, l);
    }
    if StaleSeen(snapshot + seens + rolling, coroutine, l) {
      StaleWasStaleOrReactivated(snapshot, seens, rolling, coroutine, l);
    }
  }

  lemma NoTerminalAdded(snapshot: Log, seens: seq<Event>, rolling: seq<Event>, coroutine: string, l: Lineage)
    requires OnlyNewSeens(snapshot, coroutine, seens)
    requires forall r :: r in rolling ==> ReactivatesRun(snapshot, coroutine, r)
    ensures RollbackTerminated(snapshot + seens + rolling, l) <==> RollbackTerminated(snapshot, l)
  {
    HasSplit(snapshot, seens, RolledBack, l);
    HasSplit(snapshot, seens, RollbackFailed, l);
    HasSplit(snapshot + seens, rolling, RolledBack, l);
    HasSplit(snapshot + seens, rolling, RollbackFailed, l);
  }

  class MessageEventTable {
    var log: Log
    var settled: set<Lineage>

    /** Only SEEN rows carry a stamp. */
    ghost predicate Valid()
      reads this
    {
      forall l :: l in settled ==> Has(log, Seen, l)
    }

    method InsertGlobalEmittedEvent(message: Id, root: Id, clock: int) returns (row: Event)
      modifies this`log
      ensures row == Event(Emitted, message, [root], None, None, None, None, Stamp(old(log), [root], clock))
      ensures log == old(log) + [row]
      ensures FreshMessage(old(log), message) && FreshId(old(log), root) ==> Allowed(old(log), Launch(row))
    {
      row := Event(Emitted, message, [root], None, None, None, None, Stamp(log, [root], clock));
      log := log + [row];
    }

    method InsertScopedEmittedEvent(message: Id, coroutine: string, step: string, lineage: Lineage, clock: int)
      returns (row: Event)
      modifies this`log
      ensures row == Event(Emitted, message, lineage, Some(coroutine), Some(step), None, None,
                           Stamp(old(log), lineage, clock))
      ensures log == old(log) + [row] && After(old(log), row)
    {
      row := Event(Emitted, message, lineage, Some(coroutine), Some(step), None, None, Stamp(log, lineage, clock));
      log := log + [row];
    }

    /** A request for a root is inserted exactly when the protocol allows it, and for the root's own message. */
    method InsertRollbackEmittedEvent(root: Id, clock: int) returns (inserted: bool)
      requires RowsBelongToRuns(log)
      modifies this`log
      ensures inserted <==> exists row :: RequestRollbackAllowed(old(log), row) && row.lineage == [root]
      ensures inserted ==> |log| == |old(log)| + 1 && log == old(log) + [log[|old(log)|]]
                           && RequestRollbackAllowed(old(log), log[|old(log)|])
                           && log[|old(log)|].createdAt == Stamp(old(log), [root], clock)
      ensures !inserted ==> log == old(log)
    {
      inserted := false;
      if IsLineage(log, [root]) {
        var known :| known in log && known.lineage == [root];
        if NothingBelowActive(log, [root]) && !RollbackAsked(log, known.message) {
          var row := Event(RollbackEmitted, known.message, [root], None, None, None, None, Stamp(log, [root], clock));
          assert RequestRollbackAllowed(log, row);
          log := log + [row];
          inserted := true;
        }
      }
    }

    method InsertCancellationRequestedEvent(lineage: Lineage, clock: int) returns (inserted: bool)
      modifies this`log
      ensures inserted <==> IsLineage(old(log), lineage) && !Has(old(log), CancellationRequested, lineage)
      ensures inserted ==> |log| == |old(log)| + 1 && log == old(log) + [log[|old(log)|]]
                           && log[|old(log)|].lineage == lineage && CancelAllowed(old(log), log[|old(log)|])
      ensures !inserted ==> log == old(log)
    {
      inserted := false;
      if IsLineage(log, lineage) && !Has(log, CancellationRequested, lineage) {
        var known :| known in log && known.lineage == lineage;
        log := log + [Event(CancellationRequested, known.message, lineage, None, None, None, None,
                            Stamp(log, lineage, clock))];
        inserted := true;
      }
    }

    /** The insert and the flag update chained onto it; the update never waits for a locked SEEN. */
    method InsertMessageEvent(run: Event, kind: Kind, step: string, handlerIteration: Option<nat>,
                              nextStep: Option<nat>, clock: int, locked: set<Lineage>) returns (row: Event)
      requires SeenUnique(log) && run in log && run.kind == Seen
      requires kind in {Suspended, Committed, RollingBack, RolledBack, RollbackFailed}
      modifies this
      ensures row == Event(kind, run.message, run.lineage, run.coroutine, Some(step), nextStep, handlerIteration,
                           Stamp(old(log), run.lineage, clock))
      ensures log == old(log) + [row] && After(old(log), row)
      ensures settled == if run.lineage in locked then old(settled)
                         else if kind == Committed || kind == RolledBack || kind == RollbackFailed
                         then old(settled) + {run.lineage}
                         else if kind == RollingBack then old(settled) - {run.lineage}
                         else old(settled)
    {
      FlagUpdateHitsOwnSeen(log, run, locked);
      row := Event(kind, run.message, run.lineage, run.coroutine, Some(step), nextStep, handlerIteration,
                   Stamp(log, run.lineage, clock));
      if Settles(kind) {
        settled := settled + SeensAddressed(log, run.coroutine, run.message, locked);
      } else if kind == RollingBack {
        settled := settled - SeensAddressed(log, run.coroutine, run.message, locked);
      }
      log := log + [row];
    }

    /** One rollback request for every emission of the window, and for nothing else; all stamped alike, after the log. */
    method InsertRollbackEmittedEventsForStep(run: Event, coroutine: string, step: string, suspendedAt: int, clock: int)
      returns (rows: seq<Event>)
      modifies this`log
      ensures log == old(log) + rows
      ensures rows == RequestsFor(EmittedRecord(old(log), run.lineage, suspendedAt), run.lineage, coroutine, step,
                                  Stamp(old(log), run.lineage, clock))
      ensures run.coroutine == Some(coroutine) && NoneAskedYet(old(log), run.lineage, suspendedAt)
              ==> forall r :: r in rows ==> RollbackEmissionAllowed(old(log), run, r)
    {
      var at := Stamp(log, run.lineage, clock);
      rows := RequestsFor(EmittedRecord(log, run.lineage, suspendedAt), run.lineage, coroutine, step, at);
      if run.coroutine == Some(coroutine) && NoneAskedYet(log, run.lineage, suspendedAt) {
        forall r | r in rows ensures RollbackEmissionAllowed(log, run, r) {
          RequestsAreAllowed(log, run, coroutine, step, suspendedAt, at, r);
        }
      }
      log := log + rows;
    }

    /** repairSettledFlags: two UPDATE statements and the number of rows each corrected. */
    method RepairSettledFlags() returns (stamped: nat, cleared: nat)
      requires Valid()
      modifies this`settled
      ensures Valid() && settled == Truth(log)
      ensures stamped == |Truth(log) - old(settled)| && cleared == |old(settled) - Truth(log)|
      ensures old(settled) == Truth(log) ==> stamped == 0 && cleared == 0
    {
      var toStamp := ToStamp(log, settled);
      settled := settled + toStamp;
      var toClear := ToClear(log, settled);
      settled := settled - toClear;
      stamped, cleared := |toStamp|, |toClear|;
      RepairReachesTruth(log, old(settled));
    }

    /** The SEEN half of a reconcile pass: every emission of the snapshot that may start, starts. */
    method InsertMissingSeens(coroutine: string, eligible: Event -> bool, locked: set<Lineage>, supply: Id,
                              clock: nat -> int) returns (rows: seq<Event>, nextId: Id, ghost steps: seq<LogStep>)
      requires Structure(log) && IdsBelow(log, supply)
      modifies this`log
      ensures log == old(log) + rows && SeenPass(old(log), rows, steps, locked, coroutine, nextId)
      ensures forall step :: step in steps ==> step.StartRun? && step.emission in old(log) && eligible(step.emission)
      ensures forall e :: e in old(log) && eligible(e) && MissingSeen(old(log), locked, coroutine, e)
                          ==> HasSeenFor(log, coroutine, e.message)
      ensures forall e, row :: StartRunAllowed(old(log), row, e) && row.coroutine == Some(coroutine)
                               && eligible(e) && (Has(old(log), Seen, e.lineage) ==> e.lineage !in locked)
                               ==> exists s :: s in log && s.kind == Seen && s.message == e.message
                                               && s.coroutine == Some(coroutine)
    {
      var snapshot := log;
      hide SeenPass, MissingSeen, StartRunAllowed, Structure;
      AllowedIsMissing(snapshot, locked, coroutine);
      NothingStartedYet(snapshot, locked, coroutine, supply);
      rows, nextId, steps := [], supply, [];
      assert snapshot + rows == snapshot;
      for i := 0 to |snapshot|
        invariant log == snapshot + rows && SeenPass(snapshot, rows, steps, locked, coroutine, nextId)
        invariant forall step :: step in steps ==> step.StartRun? && step.emission in snapshot && eligible(step.emission)
        invariant forall k :: 0 <= k < i && eligible(snapshot[k]) && MissingSeen(snapshot, locked, coroutine, snapshot[k])
                              ==> HasSeenFor(log, coroutine, snapshot[k].message)
      {
        var e := snapshot[i];
        if eligible(e) && MissingSeen(snapshot, locked, coroutine, e) && !HasSeenFor(log, coroutine, e.message) {
          var row := Event(Seen, e.message, e.lineage + [nextId], Some(coroutine), None, None, None, clock(i));
          SeenPassContinues(snapshot, rows, steps, locked, coroutine, nextId, e, row);
          forall k | 0 <= k < i && HasSeenFor(log, coroutine, snapshot[k].message)
            ensures HasSeenFor(log + [row], coroutine, snapshot[k].message)
          {
            SeenForStays(log, row, coroutine, snapshot[k].message);
          }
          assert row in log + [row];
          rows, log, steps, nextId := rows + [row], log + [row], steps + [StartRun(row, e)], nextId + 1;
        }
      }
    }

    /** The ROLLING_BACK half: requests of the snapshot, joined with the SEENs of the snapshot. */
    method InsertMissingRollingBacks(snapshot: Log, coroutine: string, eligible: Event -> bool, locked: set<Lineage>,
                                     clock: nat -> int) returns (rows: seq<Event>, ghost steps: seq<LogStep>)
      requires snapshot <= log
      modifies this`log
      ensures log == old(log) + rows && RollbackPass(snapshot, old(log), rows, steps, locked, coroutine)
      ensures forall step :: step in steps ==> step.StartRollback? && step.request in snapshot && eligible(step.request)
      ensures forall r, s :: r in snapshot && s in snapshot && eligible(r)
                             && MissingRollingBack(snapshot, locked, coroutine, r, s)
                             ==> HasRollingBackFor(log, coroutine, r.message)
      ensures forall r, s, row :: StartRollbackAllowed(snapshot, row, r, s) && row.coroutine == Some(coroutine)
                                  && eligible(r) && (Has(snapshot, Seen, r.lineage) ==> r.lineage !in locked)
                                  ==> exists b :: b in log && b.kind == RollingBack && b.message == r.message
                                                  && b.coroutine == Some(coroutine)
    {
      ghost var started := log;
      hide RollbackPass, MissingRollingBack, StartRollbackAllowed, HasRollingBackFor;
      NothingReactivatedYet(snapshot, started, locked, coroutine);
      rows, steps := [], [];
      assert started + rows == started;
      for i := 0 to |snapshot|
        invariant log == started + rows && RollbackPass(snapshot, started, rows, steps, locked, coroutine)
        invariant forall step :: step in steps ==> step.StartRollback? && step.request in snapshot && eligible(step.request)
        invariant forall k, s :: 0 <= k < i && s in snapshot && eligible(snapshot[k])
                                 && MissingRollingBack(snapshot, locked, coroutine, snapshot[k], s)
                                 ==> HasRollingBackFor(log, coroutine, snapshot[k].message)
      {
        var request := snapshot[i];
        if eligible(request) && !HasRollingBackFor(log, coroutine, request.message)
           && exists s :: s in snapshot && MissingRollingBack(snapshot, locked, coroutine, request, s) {
          var seen :| seen in snapshot && MissingRollingBack(snapshot, locked, coroutine, request, seen);
          var row := Event(RollingBack, request.message, seen.lineage, Some(coroutine), None, None, None, clock(i));
          RollbackPassContinues(snapshot, started, rows, steps, locked, coroutine, request, seen, row);
          forall k | 0 <= k < i && HasRollingBackFor(log, coroutine, snapshot[k].message)
            ensures HasRollingBackFor(log + [row], coroutine, snapshot[k].message)
          {
            RollingBackForStays(log, row, coroutine, snapshot[k].message);
          }
          RollingBackForNew(log, row, coroutine);
          rows, log, steps := rows + [row], log + [row], steps + [StartRollback(row, request, seen)];
        }
      }
      NoneAllowedLeft(snapshot, log, coroutine, eligible, locked);
    }

    /**
     startContinuationsForCoroutine: one reconcile pass.  It is a sequence of protocol transitions, as many as it
     reports; nothing that may start is left; and every unlocked SEEN whose rollback has begun and not ended is cleared.
     */
    method StartContinuations(coroutine: string, startable: Event -> bool, onTopic: Event -> bool, locked: set<Lineage>,
                              supply: Id, clock: nat -> int)
      returns (inserted: nat, ghost seenSteps: seq<LogStep>, ghost rollbackSteps: seq<LogStep>, ghost started: Log)
      requires Inv(log) && Valid() && IdsBelow(log, supply)
      modifies this
      ensures AllowedInTurn(old(log), seenSteps) && started == AfterAll(old(log), seenSteps)
      ensures AllowedInTurn(started, rollbackSteps) && log == AfterAll(started, rollbackSteps)
      ensures inserted == |seenSteps| + |rollbackSteps| == |log| - |old(log)|
      ensures forall step :: step in seenSteps || step in rollbackSteps
                             ==> step.row.coroutine == Some(coroutine) && RespectsLocks(old(log), locked, step)
      ensures forall step :: step in seenSteps
                             ==> step.StartRun? && step.emission in old(log) && startable(step.emission)
                                 && onTopic(step.emission)
      ensures forall step :: step in rollbackSteps
                             ==> step.StartRollback? && step.request in old(log) && onTopic(step.request)
      ensures forall e, row :: StartRunAllowed(old(log), row, e) && row.coroutine == Some(coroutine)
                               && startable(e) && onTopic(e) && (Has(old(log), Seen, e.lineage) ==> e.lineage !in locked)
                               ==> exists s :: s in started && s.kind == Seen && s.message == e.message
                                               && s.coroutine == Some(coroutine)
      ensures forall r, s, row :: StartRollbackAllowed(old(log), row, r, s) && row.coroutine == Some(coroutine)
                                  && onTopic(r) && (Has(old(log), Seen, r.lineage) ==> r.lineage !in locked)
                                  ==> exists b :: b in log && b.kind == RollingBack && b.message == r.message
                                                  && b.coroutine == Some(coroutine)
      ensures forall l :: l in settled <==> l in old(settled) && !(StaleSeen(log, coroutine, l) && l !in locked)
    {
      hide StaleSeen, MissingSeen, MissingRollingBack, HasSeenFor, HasRollingBackFor, RespectsLocks, Structure,
        RunsFollowAutomaton, StartRunAllowed, StartRollbackAllowed;
      var snapshot := log;
      var seens, next;
      seens, next, seenSteps := InsertMissingSeens(coroutine, e => startable(e) && onTopic(e), locked, supply, clock);
      started := log;
      var rolling;
      rolling, rollbackSteps := InsertMissingRollingBacks(snapshot, coroutine, onTopic, locked, clock);
      settled := set l | l in settled && (l in locked
                   || !(StaleSeen(snapshot, coroutine, l) || exists r :: r in rolling && r.lineage == l));
      forall l | l in old(settled)
        ensures StaleSeen(log, coroutine, l)
                <==> StaleSeen(snapshot, coroutine, l) || exists r :: r in rolling && r.lineage == l
      {
        BothUnsettlesTogether(snapshot, seens, rolling, coroutine, l);
      }
      inserted := |seens| + |rolling|;
    }
  }
}
