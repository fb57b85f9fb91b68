/**
 A fourth saga trace: a run that is rolling back asks its child to roll back, the child fails to, and the run resumes, is told,
 and runs a failure handler.
 */
module AskedScenario {
  import opened Options
  import opened EventLog
  import opened Readiness
  import opened Protocol
  import AutomatonProofs
  import opened CooperationProofs
  import opened Workers
  import opened Safety
  import opened Windows
  import opened StandardStrategy
  import opened Repository
  import opened RollbackPlan
  import opened RunRows
  import opened RunHistory
  import opened TreeRollback
  import opened TreeTheorems
  import opened ReadyRuns
  import opened Stage
  import opened StageActions
  import opened Scenario
  import Continuation
  import Saga

  // ---------------------------------------------------------------- a run that has thrown, its child committed

  ghost predicate HasThrown(f: Facts, t: int, u: int, e: Event) {
    && f.Of(First) == Undoing(Working([Ran(true, t)], Some(e))) && e.message == 6
    && f.Of(ChildOfFirst) == Working([Ran(false, u)], None).(committed := true)
    && f.Of(Second) == Working([], None) && f.Of(ChildOfSecond) == UNBORN && f.settled == {LineageOf(ChildOfFirst)}
  }

  lemma FirstThrowsAfterItsChild() returns (f: Facts, t: int, u: int, e: Event)
    ensures Played(f) && HasThrown(f, t, u, e)
  {
    hide Played, Saga.TickOf;
    var before := BothStart();
    t, e := before.clock + 1, Emission(before, First, 6);
    f := RunsItsStep(before, First, true, Some(6));
    var started := Started(f, ChildOfFirst);
    assert SetsOff(f, First, started);
    PlaysOn(f, started);
    u := started.clock + 1;
    f := RunsItsStep(started, ChildOfFirst, false, None);
    ForwardTicks(f.clock + 1, u, NOTHING);
    f := Ends(f, ChildOfFirst, Committed, RETURNS);
    ForwardTicks(f.clock + 1, t, NOTHING);
    f := Ends(f, First, RollingBack, THROWS);
  }

  // ---------------------------------------------------------------- it asks

  lemma FirstEntryOf(again: bool, t: int)
    ensures |PlanOfOne(Ran(again, t))| > 0 && PlanOfOne(Ran(again, t))[0].instance == Instance("A", None, t)
  {
    var history := [Instance("A", None, t)];
    assert Saga.Executed([Ran(again, t)]) == history && history[1..] == [];
  }

  /** The window of the run's one suspension holds the message it waits for, and nothing else. */
  lemma RecordIs(log: Log, f: Facts, again: bool, t: int, e: Event)
    requires Describes(log, f) && f.Of(First).rows == [Ran(again, t)]
    requires f.Of(First).waitsFor == Some(e) && f.Of(First).sent == Some(e)
    ensures forall d :: d in EmittedRecord(log, LineageOf(First), t) <==> d == e
  {
    hide Tidy, Tested, ParentStillSuspendedOn;
    assert DescribesRun(log, First, f.Of(First));
    var run := LineageOf(First);
    var u :| u in log && u.kind == Suspended && u.lineage == run && u.step.Some? && InStep(log, e, run, u.createdAt);
    var k :| 0 <= k < |log| && log[k] == u;
    var i := SuspensionIsARow(log, run, k);
    assert u.createdAt == t;
    assert EmissionInLatestStep(log, run, e);
    var v :| v in log && IsLatestSuspended(log, run, v) && InWindow(log, e, v.createdAt);
    forall d | d in log && InStep(log, d, run, t) ensures d == e {
      assert EmissionInLatestStep(log, run, d);
    }
  }

  /** What the log says once the run has asked: the rows of both runs, and how far the child has come. */
  ghost predicate Asked(log: Log, rows: seq<Saga.Suspended>, u: int, clock: int, rolling: bool, failed: bool) {
    && (forall e :: e in log ==> e.createdAt < clock)
    && (forall s :: s in log && s.kind == Seen ==> exists who :: s == SeenRow(who))
    && SeenRow(First) in log && SeenRow(ChildOfFirst) in log
    && RowsOf(log, LineageOf(First)) == rows && RowsOf(log, LineageOf(ChildOfFirst)) == [Ran(false, u)]
    && Has(log, RollingBack, LineageOf(First)) && !RollbackTerminated(log, LineageOf(First))
    && (Has(log, RollingBack, LineageOf(ChildOfFirst)) <==> rolling)
    && (Has(log, RollbackFailed, LineageOf(ChildOfFirst)) <==> failed) && !Has(log, RolledBack, LineageOf(ChildOfFirst))
    && (forall e :: e in log && e.kind == Emitted ==> e.lineage != LineageOf(ChildOfFirst))
    && (forall q :: q in log && q.kind == RollbackEmitted ==> q.lineage == LineageOf(First) && q.message == 6)
    && (exists r :: RollbackEmissionInLatestStep(log, LineageOf(First), r))
  }

  lemma RequestIsLatest(log: Log, emissions: seq<Event>, row: Event, r: Event)
    requires r in emissions && r.kind == RollbackEmitted && r.step.Some? && r.lineage == row.lineage
    requires row.kind == Suspended && forall e :: e in log + emissions ==> e.createdAt < row.createdAt
    requires (forall e :: e in log ==> e.createdAt <= r.createdAt) && forall e :: e in emissions ==> e.kind != Suspended
    ensures RollbackEmissionInLatestStep(log + (emissions + [row]), row.lineage, r)
  {
    var log' := log + (emissions + [row]);
    assert r in log' && row in log' && r in log + emissions;
    assert forall e :: e in log' ==> e in log + emissions || e == row;
    assert IsLatestSuspended(log', row.lineage, row);
    assert InWindow(log', r, row.createdAt);
  }

  predicate IsAsk(r: Event, at: int) {
    r.kind == RollbackEmitted && r.message == 6 && r.step.Some? && r.lineage == LineageOf(First) && r.createdAt == at
  }

  /** The requests and the row behind them, as the statements of one step insert them. */
  lemma AsksFit(log: Log, f: Facts, t: int, u: int, e: Event, row: Event) returns (emissions: seq<Event>)
    requires Inv(log) && OncePerMessage(log, Emitted) && Describes(log, f) && HasThrown(f, t, u, e)
    requires RowFor(f, First, row) && row.kind == Suspended
    ensures emissions == RequestsFor(EmittedRecord(log, LineageOf(First), t), LineageOf(First), "handler", row.step.value,
                                     Stamp(log, LineageOf(First), f.clock))
    ensures WorkShape(log, SeenRow(First), true, emissions, row)
    ensures emissions != [] && forall r :: r in emissions ==> IsAsk(r, f.clock)
  {
    hide WorkShape, DescribesRun, Inv;
    var run, at := LineageOf(First), Stamp(log, LineageOf(First), f.clock);
    AfterEverything(log, f, row);
    assert at == f.clock;
    RecordIs(log, f, true, t, e);
    var record := EmittedRecord(log, run, t);
    emissions := RequestsFor(record, run, "handler", row.step.value, at);
    assert e in record;
    forall r | r in emissions ensures IsAsk(r, f.clock) {
      var i :| 0 <= i < |emissions| && emissions[i] == r;
      assert record[i] in record;
    }
    NothingAskedYet(log, f);
    RequestInsertsHaveWorkShape(log, SeenRow(First), "handler", row.step.value, t, f.clock, row);
  }

  /** Asking is a tick of the run's saga: the entry that undoes the children of its one step. */
  lemma AsksTick(log: Log, f: Facts, t: int, u: int, e: Event, r: Saga.Suspended, emissions: seq<Event>, step: string, at: int)
    requires Inv(log) && Describes(log, f) && HasThrown(f, t, u, e) && r.at == f.clock + 1
    requires TickBy([Ran(true, t)], Told(f, First), RETURNS, f.clock + 1) == Saga.WroteSuspended(r)
    requires emissions == RequestsFor(EmittedRecord(log, LineageOf(First), t), LineageOf(First), "handler", step, at)
    ensures WritesTick(Deployment(), log, SeenRow(First), log, f.settled, Doing(RETURNS), emissions, RowOf(f, First, r))
  {
    hide Saga.TickOf, Inv, Describes, FailuresOf, EntryRun, RequestsFor, EmittedRecord, Plan, Stood;
    LifeOf(log, f, First);
    ToldIs(log, f, First);
    StoodAtStart(Ran(true, t));
    EntryAt([Ran(true, t)], true, t, 0, Told(f, First));
    FirstEntryOf(true, t);
    TwoEntries(true, t);
  }

  lemma AskedAfter(log: Log, f: Facts, t: int, u: int, e: Event, emissions: seq<Event>, row: Event)
    requires Inv(log) && Describes(log, f) && HasThrown(f, t, u, e)
    requires emissions != [] && forall r :: r in emissions ==> IsAsk(r, f.clock)
    requires row.kind == Suspended && row.lineage == LineageOf(First) && row.step.Some? && row.createdAt == f.clock + 1
    ensures Asked(log + (emissions + [row]), [SuspendedOf(row), Ran(true, t)], u, f.clock + 2, false, false)
  {
    hide Inv, DescribesRun, RowsOf, RollbackEmissionInLatestStep, LineageOf, Has, SeenRow;
    var rows := emissions + [row];
    Cast(First, ChildOfFirst);
    LifeOf(log, f, First);
    LifeOf(log, f, ChildOfFirst);
    ChildEmitsNothing(log, f);
    NothingMarked(log, rows, LineageOf(First));
    NothingMarked(log, rows, LineageOf(ChildOfFirst));
    RowsOfWork(log, emissions, row);
    RowsOfOthers(log, rows, LineageOf(ChildOfFirst));
    assert emissions[0] in emissions;
    RequestIsLatest(log, emissions, row, emissions[0]);
    assert [SuspendedOf(row)] + [Ran(true, t)] == [SuspendedOf(row), Ran(true, t)];
  }

  lemma NothingMarked(log: Log, rows: seq<Event>, run: Lineage)
    requires forall r :: r in rows ==> r.kind == RollbackEmitted || r.kind == Suspended
    ensures Has(log + rows, RollingBack, run) <==> Has(log, RollingBack, run)
    ensures Has(log + rows, RolledBack, run) <==> Has(log, RolledBack, run)
    ensures Has(log + rows, RollbackFailed, run) <==> Has(log, RollbackFailed, run)
  {
    Tests(log, rows, run);
  }

  lemma ChildEmitsNothing(log: Log, f: Facts)
    requires Describes(log, f) && f.Of(ChildOfFirst).sent.None?
    ensures forall e :: e in log && e.kind == Emitted ==> e.lineage != LineageOf(ChildOfFirst)
  {
    hide Tidy, Tested, RowsOf, LineageOf;
    assert DescribesRun(log, ChildOfFirst, f.Of(ChildOfFirst));
  }

  lemma Asks(s: State, f: Facts, t: int, u: int, e: Event) returns (s': State, rows: seq<Saga.Suspended>)
    requires Stands(s, f) && HasThrown(f, t, u, e)
    ensures Reached(s') && s'.workers == NOBODY && s'.settled == {LineageOf(ChildOfFirst)}
    ensures Asked(s'.log, rows, u, f.clock + 2, false, false) && Stood(rows, Ran(true, t), 1)
  {
    hide Describes, Reached, Inv, Saga.TickOf, EntryRun, Told, Stood, WorkShape, WritesTick, Ready, Asked, EmittedRecord,
      RequestsFor, OncePerMessage;
    ReachedKeepsInv(s);
    StoodAtStart(Ran(true, t));
    ToldRolling(f, First);
    NotTold(f, t, u, e);
    var r := RollingRow([Ran(true, t)], true, t, 0, Told(f, First), f.clock + 1);
    var row := RowOf(f, First, r);
    EmittedOnce(s);
    var emissions := AsksFit(s.log, f, t, u, e, row);
    AsksTick(s.log, f, t, u, e, r, emissions, row.step.value, Stamp(s.log, LineageOf(First), f.clock));
    ReadyIf(s.log, f, First);
    LifeOf(s.log, f, First);
    s' := WriteAndLeave(s, First, Doing(RETURNS), emissions, row);
    AskedAfter(s.log, f, t, u, e, emissions, row);
    rows := [r] + [Ran(true, t)];
    assert [SuspendedOf(row), Ran(true, t)] == rows;
  }

  lemma NotTold(f: Facts, t: int, u: int, e: Event)
    requires HasThrown(f, t, u, e)
    ensures CanResume(f, First) && !Told(f, First).childRollbackFailed
  {}

  lemma EmittedOnce(s: State)
    requires Reached(s)
    ensures OncePerMessage(s.log, Emitted)
  {
    hide Next, Disciplined, OncePerMessage;
    var states, actions, choices :| TraceTo(states, actions, choices, s);
    EachMessageIsAskedOnce(states, actions, |actions|);
  }

  // ---------------------------------------------------------------- the child is started and fails

  lemma ChildRowKeeps(log: Log, rows: seq<Saga.Suspended>, u: int, clock: int, rolling: bool, failed: bool, row: Event)
    requires Asked(log, rows, u, clock, rolling, failed) && row.lineage == LineageOf(ChildOfFirst) && clock <= row.createdAt
    requires row.kind == RollingBack || row.kind == RollbackFailed
    ensures Asked(log + [row], rows, u, row.createdAt + 1, rolling || row.kind == RollingBack,
                  failed || row.kind == RollbackFailed)
  {
    hide RowsOf, RollbackEmissionInLatestStep, LineageOf, SeenRow, Has;
    Cast(First, ChildOfFirst);
    Tests(log, [row], LineageOf(First));
    OtherTests(row, LineageOf(First));
    Tests(log, [row], LineageOf(ChildOfFirst));
    OneTest(row, LineageOf(ChildOfFirst));
    RowsOfOthers(log, [row], LineageOf(First));
    RowsOfOthers(log, [row], LineageOf(ChildOfFirst));
    var r :| RollbackEmissionInLatestStep(log, LineageOf(First), r);
    RequestIsOfRun(log, LineageOf(First), r);
    LatestStepUnmoved(log, [row], r);
  }

  lemma OtherTests(row: Event, run: Lineage)
    requires row.lineage != run
    ensures forall kind :: !Has([row], kind, run)
  {}

  lemma RequestIsOfRun(log: Log, run: Lineage, r: Event)
    requires RollbackEmissionInLatestStep(log, run, r)
    ensures r in log && r.kind == RollbackEmitted && r.lineage == run
  {}

  function ChildRow(kind: Kind, at: int): Event {
    Event(kind, MessageOf(ChildOfFirst), LineageOf(ChildOfFirst), Some(HandlerOf(ChildOfFirst)),
          if kind == RollingBack then None else Some("A"), None, None, at)
  }

  lemma RollsBack(log: Log, rows: seq<Saga.Suspended>, u: int, clock: int, b: Event) returns (who: Who)
    requires Structure(log) && Asked(log, rows, u, clock, false, false) && b in log && b.kind == RollingBack
    ensures Has(log, RollingBack, LineageOf(who))
    ensures b.message == MessageOf(who) && b.coroutine == Some(HandlerOf(who))
  {
    hide Structure, RowsOf;
    var s := RollingBackHasRun(log, b);
    who :| s == SeenRow(who);
  }

  lemma ChildMayBegin(log: Log, rows: seq<Saga.Suspended>, u: int, clock: int, r: Event)
    requires Structure(log) && Asked(log, rows, u, clock, false, false)
    requires RollbackEmissionInLatestStep(log, LineageOf(First), r)
    ensures StartRollbackAllowed(log, ChildRow(RollingBack, clock), r, SeenRow(ChildOfFirst))
  {
    hide Structure, RowsOf;
    RequestIsOfRun(log, LineageOf(First), r);
    forall b | b in log && b.kind == RollingBack ensures b.message != r.message {
      var who := RollsBack(log, rows, u, clock, b);
    }
  }

  lemma ChildBegins(s: State, rows: seq<Saga.Suspended>, u: int, clock: int) returns (s': State)
    requires Reached(s) && s.workers == NOBODY && s.settled == {LineageOf(ChildOfFirst)}
    requires Asked(s.log, rows, u, clock, false, false)
    ensures Reached(s') && s'.workers == NOBODY && s'.settled == {} && Asked(s'.log, rows, u, clock + 1, true, false)
  {
    hide Reached, Structure, RunsFollowAutomaton, EmissionsClosed, WindowsUnmixed, FinishingRowsLast, OpenChildrenAwaited,
      AskedRunsAtRest, StartRollbackAllowed, RollbackEmissionInLatestStep, RowsOf;
    ReachedKeepsInv(s);
    var r :| RollbackEmissionInLatestStep(s.log, LineageOf(First), r);
    ChildMayBegin(s.log, rows, u, clock, r);
    ChildRowKeeps(s.log, rows, u, clock, false, false, ChildRow(RollingBack, clock));
    var a := Append(StartRollback(ChildRow(RollingBack, clock), r, SeenRow(ChildOfFirst)));
    s' := Apply(s, a);
    Extend(s, a, NoChoice(), s');
  }

  /** Nobody hangs below the child, and it waits for nothing. */
  lemma ChildIsReady(log: Log, rows: seq<Saga.Suspended>, u: int, clock: int)
    requires Inv(log) && RequestsFollowEmissions(log) && Asked(log, rows, u, clock, true, false)
    ensures Ready(log, {}, "left handler", SeenRow(ChildOfFirst), Standard())
  {
    hide Inv, RequestsFollowEmissions, RowsOf, RollbackEmissionInLatestStep, EmissionInLatestStep, IsStandard;
    StandardIsStandard();
    forall r ensures !RollbackEmissionInLatestStep(log, LineageOf(ChildOfFirst), r) {
      if RollbackEmissionInLatestStep(log, LineageOf(ChildOfFirst), r) {
        RequestIsOfRun(log, LineageOf(ChildOfFirst), r);
      }
    }
    forall e ensures !EmissionInLatestStep(log, LineageOf(ChildOfFirst), e) {
      if EmissionInLatestStep(log, LineageOf(ChildOfFirst), e) {
        EmissionOfRun(log, LineageOf(ChildOfFirst), e);
      }
    }
    forall s | s in log && s.kind == Seen ensures !IsChild(LineageOf(ChildOfFirst), s.lineage) {
      var who :| s == SeenRow(who);
      Cast(ChildOfFirst, who);
    }
    ReadyIff(log, {}, "left handler", SeenRow(ChildOfFirst), Standard(), REGISTRY);
  }

  lemma EmissionOfRun(log: Log, run: Lineage, e: Event)
    requires EmissionInLatestStep(log, run, e)
    ensures e in log && e.kind == Emitted && e.lineage == run
  {}

  lemma ChildFailsTick(log: Log, rows: seq<Saga.Suspended>, u: int, clock: int)
    requires Asked(log, rows, u, clock, true, false)
    ensures WritesTick(Deployment(), log, SeenRow(ChildOfFirst), log, {}, Doing(THROWS), [], ChildRow(RollbackFailed, clock))
    ensures WorkShape(log, SeenRow(ChildOfFirst), Has(log, RollingBack, LineageOf(ChildOfFirst)), [],
                      ChildRow(RollbackFailed, clock))
  {
    hide Saga.TickOf, RowsOf, ChildHasRolledBack, FailedRollbackReported, RollbackEmissionInLatestStep, Stood;
    StoodAtStart(Ran(false, u));
    RollbackTicks([Ran(false, u)], false, u, 0, FailuresOf(log, {}, "left handler", LineageOf(ChildOfFirst)), clock);
  }

  lemma RequestsFollowReached(s: State)
    requires Reached(s)
    ensures RequestsFollowEmissions(s.log)
  {
    hide Next, Disciplined, RequestsFollowEmissions;
    var states, actions, choices :| TraceTo(states, actions, choices, s);
    RequestsFollowInTrace(states, actions, |actions|);
  }

  lemma ChildFailsToRollBack(s: State, rows: seq<Saga.Suspended>, u: int, clock: int) returns (s': State)
    requires Reached(s) && s.workers == NOBODY && s.settled == {} && Asked(s.log, rows, u, clock, true, false)
    ensures Reached(s') && s'.workers == NOBODY && s'.settled == {} && Asked(s'.log, rows, u, clock + 1, true, true)
  {
    hide Reached, Inv, Asked, Ready, WritesTick, WorkShape, RequestsFollowEmissions;
    ReachedKeepsInv(s);
    RequestsFollowReached(s);
    ChildIsReady(s.log, rows, u, clock);
    ChildFailsTick(s.log, rows, u, clock);
    s' := WriteAndLeave(s, ChildOfFirst, Doing(THROWS), [], ChildRow(RollbackFailed, clock));
    ChildRowKeeps(s.log, rows, u, clock, true, false, ChildRow(RollbackFailed, clock));
    assert [] + [ChildRow(RollbackFailed, clock)] == [ChildRow(RollbackFailed, clock)];
  }

  // ---------------------------------------------------------------- the run resumes

  lemma FirstIsReady(log: Log, rows: seq<Saga.Suspended>, u: int, clock: int)
    requires Inv(log) && RequestsFollowEmissions(log) && Asked(log, rows, u, clock, true, true)
    ensures Ready(log, {}, "handler", SeenRow(First), Standard()) && RollbackEmissionsPresent(log, LineageOf(First))
  {
    hide Inv, RequestsFollowEmissions, RowsOf, RollbackEmissionInLatestStep, EmissionInLatestStep, IsStandard, Candidate, Has;
    StandardIsStandard();
    forall k, r, handler | k in log && Candidate(log, {}, "handler", k) && RollbackEmissionInLatestStep(log, k.lineage, r)
                           && Registered(REGISTRY, r.message, handler)
      ensures HandlerRollsBack(log, r.message, handler)
    {
      RequestIsOfRun(log, k.lineage, r);
      OnlyOneHandler(First, handler);
    }
    forall s | s in log && s.kind == Seen && IsChild(LineageOf(First), s.lineage) ensures RollbackTerminated(log, s.lineage) {
      var who :| s == SeenRow(who);
      Cast(First, who);
    }
    RequestPresent(log, LineageOf(First));
    ReadyIff(log, {}, "handler", SeenRow(First), Standard(), REGISTRY);
  }

  lemma RequestPresent(log: Log, run: Lineage)
    requires exists r :: RollbackEmissionInLatestStep(log, run, r)
    ensures RollbackEmissionsPresent(log, run)
  {
    var r :| RollbackEmissionInLatestStep(log, run, r);
    assert r in log;
  }

  lemma FailureReaches(log: Log, rows: seq<Saga.Suspended>, u: int, clock: int)
    requires Asked(log, rows, u, clock, true, true) && Ready(log, {}, "handler", SeenRow(First), Standard())
    ensures ChildRollbackHasFailed(log, LineageOf(First)) && FailedRollbackReported(log, {}, "handler")
  {
    hide RowsOf, RollbackEmissionInLatestStep, UnfinishedSeen, StrategyAllowsResume, ChildrenAllowResume;
    var b :| b in log && b.kind == RollingBack && b.lineage == LineageOf(ChildOfFirst);
    assert ChildRollingBack(log, LineageOf(First), b);
  }

  lemma HandlerTick(log: Log, rows: seq<Saga.Suspended>, t: int, u: int, clock: int) returns (row: Event)
    requires Asked(log, rows, u, clock, true, true) && Stood(rows, Ran(true, t), 1)
    requires FailedRollbackReported(log, {}, "handler")
    ensures WritesTick(Deployment(), log, SeenRow(First), log, {}, Doing(RETURNS), [], row)
    ensures WorkShape(log, SeenRow(First), Has(log, RollingBack, LineageOf(First)), [], row)
    ensures row.kind == Suspended && row.lineage == LineageOf(First) && row.handlerIteration.Some?
  {
    hide Saga.TickOf, RowsOf, ChildHasRolledBack, FailedRollbackReported, RollbackEmissionInLatestStep, Stood, Plan;
    var told := FailuresOf(log, {}, "handler", LineageOf(First));
    RollbackTicks(rows, true, t, 1, told, clock);
    HandlerRowCarriesIteration(rows, told, clock);
    SuspendedNow(rows, told, RETURNS, clock);
    var r := TickBy(rows, told, RETURNS, clock).row;
    row := Event(Suspended, MessageOf(First), LineageOf(First), Some(HandlerOf(First)), Some(r.step), r.nextStep, r.handler,
                 clock);
  }

  /**
   The last action is a write about a run whose latest step, as its second read saw it, had asked a child to roll back that
   has failed to; what is written is a failure handler's row.
   */
  ghost predicate ResumesAfterAsking(s: State, a: Action, run: Event) {
    && a.Write? && a.worker in s.workers && s.workers[a.worker].Resuming? && s.workers[a.worker].run == run
    && RollbackEmissionsPresent(s.workers[a.worker].view, run.lineage)
    && ChildRollbackHasFailed(s.workers[a.worker].view, run.lineage)
    && a.row.kind == Suspended && a.row.handlerIteration.Some?
  }

  lemma Resumes(s: State, rows: seq<Saga.Suspended>, t: int, u: int, clock: int)
    returns (states: seq<State>, actions: seq<Action>, choices: seq<Choice>)
    requires Reached(s) && s.workers == NOBODY && s.settled == {} && Asked(s.log, rows, u, clock, true, true)
    requires Stood(rows, Ran(true, t), 1)
    ensures SagaTrace(Deployment(), states, actions, choices) && actions != []
    ensures ResumesAfterAsking(states[|actions| - 1], actions[|actions| - 1], SeenRow(First))
  {
    hide Reached, Inv, Asked, Ready, WritesTick, WorkShape, RequestsFollowEmissions, SagaTrace, RollbackEmissionsPresent,
      ChildRollbackHasFailed, FailedRollbackReported, Stood;
    ReachedKeepsInv(s);
    RequestsFollowReached(s);
    FirstIsReady(s.log, rows, u, clock);
    FailureReaches(s.log, rows, u, clock);
    var row := HandlerTick(s.log, rows, t, u, clock);
    ReadAgain(s, First);
    var reading := Held(s, Resuming(SeenRow(First), s.log, s.settled));
    states, actions, choices := Goes(reading, Write(0, [], row), Doing(RETURNS));
  }

  lemma Goes(s: State, a: Action, choice: Choice) returns (states: seq<State>, actions: seq<Action>, choices: seq<Choice>)
    requires Reached(s) && Enabled(s, a) && Disciplined(Deployment(), s, a, choice)
    ensures SagaTrace(Deployment(), states, actions, choices)
    ensures actions != [] && states[|actions| - 1] == s && actions[|actions| - 1] == a
  {
    hide Next, Disciplined, Apply, Enabled;
    var before, earlier, chosen :| TraceTo(before, earlier, chosen, s);
    assert Next(s, a, Apply(s, a)) by { IsNext(s, a); }
    LongerTrace(before, earlier, chosen, s, a, choice, Apply(s, a));
    states, actions, choices := before + [Apply(s, a)], earlier + [a], chosen + [choice];
  }

  lemma IsNext(s: State, a: Action)
    requires Enabled(s, a)
    ensures Next(s, a, Apply(s, a))
  {}

  /** A run resumes after asking its child to roll back, and is told that the child has failed to. */
  lemma FailedChildIsReported()
    ensures exists states: seq<State>, actions: seq<Action>, choices: seq<Choice> ::
              SagaTrace(Deployment(), states, actions, choices) && actions != []
              && ResumesAfterAsking(states[|actions| - 1], actions[|actions| - 1], SeenRow(First))
  {
    hide SagaTrace, Asked, Stood, ResumesAfterAsking, HasThrown, Reached;
    var f, t, u, e := FirstThrowsAfterItsChild();
    var s := PlayedIsReached(f);
    var asked, rows := Asks(s, f, t, u, e);
    var begun := ChildBegins(asked, rows, u, f.clock + 2);
    var failed := ChildFailsToRollBack(begun, rows, u, f.clock + 3);
    var states, actions, choices := Resumes(failed, rows, t, u, f.clock + 4);
  }
}
