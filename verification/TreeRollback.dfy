/**
 Rollback of a whole tree of runs: the log, the workers and the sagas they resume put together.  Every write is a tick of
 the run's saga over the rows the worker's second read saw; user code and give-up decisions are arbitrary.
 */
module TreeRollback {
  import opened Options
  import opened EventLog
  import opened Readiness
  import opened Protocol
  import opened AutomatonProofs
  import opened CooperationProofs
  import opened Workers
  import opened Windows
  import opened StandardStrategy
  import opened Repository
  import opened RollbackPlan
  import opened RunRows
  import opened RunHistory
  import Continuation
  import Saga

  /** The deployment: the saga behind each coroutine name, and who listens to what. */
  datatype Env = Env(sagas: string -> Saga.Definition, registry: Registry)

  /** What a tick depends on besides the log. */
  datatype Choice = Choice(user: Continuation.Call -> Continuation.Outcome, before: Continuation.GiveUp,
                           after: Continuation.GiveUp)

  // ---------------------------------------------------------------- a write is a tick

  /** A direct child of the run has ROLLBACK_FAILED. */
  predicate ChildRollbackHasFailed(view: Log, run: Lineage) {
    exists b :: b in view && ChildRollingBack(view, run, b) && Has(view, RollbackFailed, b.lineage)
  }

  /** Some direct child has begun to roll back, in whichever step of the run it was emitted. */
  predicate ChildHasRolledBack(view: Log, run: Lineage) {
    exists b :: b in view && ChildRollingBack(view, run, b)
  }

  /** child_rollback_failed_exceptions: a child of any candidate of the coroutine has ROLLBACK_FAILED. */
  predicate FailedRollbackReported(view: Log, settled: set<Lineage>, coroutine: string) {
    exists p :: p in view && Candidate(view, settled, coroutine, p) && ChildRollbackHasFailed(view, p.lineage)
  }

  /** Which exceptions the final select returns for the selected run. */
  function FailuresOf(view: Log, settled: set<Lineage>, coroutine: string, run: Lineage): Saga.Failures {
    Saga.Failures(ChildHasRolledBack(view, run), FailedRollbackReported(view, settled, coroutine),
                  Has(view, RollingBack, run))
  }

  predicate Records(tick: Saga.Tick, row: Event) {
    match tick
    case WroteSuspended(suspended) => row.kind == Suspended && row.step.Some? && SuspendedOf(row) == suspended
    case WroteCommitted => row.kind == Committed
    case WroteRollingBack => row.kind == RollingBack
    case WroteRolledBack => row.kind == RolledBack
    case WroteRollbackFailed => row.kind == RollbackFailed
    case Nothing => false
  }

  /** The plan entry a tick of a rolling run executes; None if it runs a failure handler or is past the plan. */
  function EntryRun(saga: Saga.Definition, rows: seq<Saga.Suspended>, failures: Saga.Failures): Option<PlanStep> {
    var plan := PlanFor(saga, rows);
    var n := Standing(saga, rows, plan);
    if failures.rollingBack && !failures.childRollbackFailed && n.Some? && n.value < |plan| then Some(plan[n.value])
    else None
  }

  /** A child-rollback entry asks the emissions of its window; every other callback can only launch messages. */
  ghost predicate WritesOf(log: Log, run: Event, coroutine: string, entry: Option<PlanStep>, emissions: seq<Event>) {
    if entry.Some? && !entry.value.own
    then exists step, at :: emissions == RequestsFor(EmittedRecord(log, run.lineage, entry.value.instance.suspendedAt),
                                                     run.lineage, coroutine, step, at)
    else forall e :: e in emissions ==> e.kind == Emitted
  }

  ghost predicate WritesTick(env: Env, log: Log, run: Event, view: Log, settled: set<Lineage>, choice: Choice,
                             emissions: seq<Event>, row: Event)
  {
    && run.coroutine.Some?
    && var saga, rows := env.sagas(run.coroutine.value), RowsOf(view, run.lineage);
       var failures := FailuresOf(view, settled, run.coroutine.value, run.lineage);
       && Records(Saga.TickOf(saga, rows, failures, choice.user, choice.before, choice.after, row.createdAt), row)
       && (row.kind == Suspended ==> WritesOf(log, run, run.coroutine.value, EntryRun(saga, rows, failures), emissions))
  }

  ghost predicate Disciplined(env: Env, s: State, a: Action, choice: Choice) {
    match a
    case Append(step) =>
      step.StartRun? && step.row.coroutine.Some?
      ==> Registered(env.registry, step.row.message, step.row.coroutine.value)
    case Reread(w, coroutine, strategy) =>
      IsStandard(strategy, env.registry)
    case Write(w, emissions, row) =>
      && w in s.workers && s.workers[w].Resuming?
      && WritesTick(env, s.log, s.workers[w].run, s.workers[w].view, s.workers[w].stamped, choice, emissions, row)
    case _ => true
  }

  /** A trace of the whole system: standard strategy, handlers registered, every write a tick of its saga. */
  ghost predicate SagaTrace(env: Env, states: seq<State>, actions: seq<Action>, choices: seq<Choice>) {
    && Trace(states, actions) && |choices| == |actions|
    && forall i {:trigger actions[i]} :: 0 <= i < |actions| ==> Disciplined(env, states[i], actions[i], choices[i])
  }

  // ---------------------------------------------------------------- what holds of every run

  ghost predicate RequestedBy(log: Log, run: Lineage, message: Id) {
    exists r :: r in log && r.kind == RollbackEmitted && r.lineage == run && r.message == message
  }

  /** Every emission of the tick that the SUSPENDED at `at` closed has been asked to roll back. */
  ghost predicate StepAsked(log: Log, run: Lineage, at: int) {
    forall e :: e in log && InStep(log, e, run, at) ==> RequestedBy(log, run, e.message)
  }

  ghost predicate StepNotAsked(log: Log, run: Lineage, at: int) {
    forall e :: e in log && InStep(log, e, run, at) ==> !RequestedBy(log, run, e.message)
  }

  ghost predicate EntriesAsked(log: Log, run: Lineage, plan: seq<PlanStep>, from: nat, to: nat)
    requires to <= |plan|
  {
    forall j :: from <= j < to && !plan[j].own ==> StepAsked(log, run, plan[j].instance.suspendedAt)
  }

  ghost predicate NothingAsked(log: Log, run: Lineage) {
    forall r :: r in log && r.kind == RollbackEmitted ==> r.lineage != run
  }

  function FirstRun(saga: Saga.Definition, rows: seq<Saga.Suspended>): nat {
    if CleanStart(saga, rows) then 0 else 1
  }

  /** The rows of a run and the requests it has made so far. */
  ghost predicate RunKept(saga: Saga.Definition, log: Log, run: Lineage) {
    var rows := RowsOf(log, run);
    var plan := PlanFor(saga, rows);
    && Sound(saga, rows)
    && (!Has(log, RollingBack, run) ==> RollbackPart(saga, rows) == [])
    && (RollbackPart(saga, rows) == [] ==> NothingAsked(log, run))
    && (Standing(saga, rows, plan).Some?
        ==> EntriesAsked(log, run, plan, FirstRun(saga, rows), Standing(saga, rows, plan).value))
    && (!CleanStart(saga, rows) && plan != [] ==> StepNotAsked(log, run, plan[0].instance.suspendedAt))
  }

  /** Appended rows that are neither suspensions, emissions nor requests of the run. */
  predicate Unmoved(rows: seq<Event>, run: Lineage) {
    forall e :: e in rows && e.lineage == run ==> e.kind != Suspended && e.kind != Emitted && e.kind != RollbackEmitted
  }

  lemma StepUnmoved(log: Log, rows: seq<Event>, run: Lineage, at: int)
    requires Unmoved(rows, run)
    ensures forall e :: InStep(log + rows, e, run, at) <==> InStep(log, e, run, at)
    ensures forall e :: e in log + rows && InStep(log, e, run, at) <==> e in log && InStep(log, e, run, at)
    ensures forall m :: RequestedBy(log + rows, run, m) <==> RequestedBy(log, run, m)
  {
    forall e ensures InStep(log + rows, e, run, at) <==> InStep(log, e, run, at) {
      if e.lineage == run {
        assert NoSuspensionBetween(log + rows, run, e.createdAt, at) <==> NoSuspensionBetween(log, run, e.createdAt, at);
      }
    }
    forall m ensures RequestedBy(log + rows, run, m) <==> RequestedBy(log, run, m) {
      assert forall r :: r in log ==> r in log + rows;
    }
  }

  lemma AskedUnmoved(log: Log, rows: seq<Event>, run: Lineage, at: int)
    requires Unmoved(rows, run)
    ensures StepAsked(log + rows, run, at) <==> StepAsked(log, run, at)
    ensures StepNotAsked(log + rows, run, at) <==> StepNotAsked(log, run, at)
  {
    StepUnmoved(log, rows, run, at);
  }

  lemma BystanderKept(saga: Saga.Definition, log: Log, rows: seq<Event>, run: Lineage)
    requires RunKept(saga, log, run) && Unmoved(rows, run)
    ensures RunKept(saga, log + rows, run)
    ensures RowsOf(log + rows, run) == RowsOf(log, run)
  {
    RowsOfOthers(log, rows, run);
    HasSplit(log, rows, RollingBack, run);
    forall at ensures StepAsked(log + rows, run, at) <==> StepAsked(log, run, at)
              ensures StepNotAsked(log + rows, run, at) <==> StepNotAsked(log, run, at) {
      AskedUnmoved(log, rows, run, at);
    }
  }

  /** A run that has not suspended in rollback, nor asked anything. */
  lemma NotRollingKept(saga: Saga.Definition, log: Log, run: Lineage)
    requires Sound(saga, RowsOf(log, run)) && RollbackPart(saga, RowsOf(log, run)) == []
    requires NothingAsked(log, run)
    ensures RunKept(saga, log, run)
  {}

  // ---------------------------------------------------------------- a worker suspends its own run

  /** Windows of earlier suspensions are closed: what a commit adds lies behind them. */
  ghost predicate IsStampOf(log: Log, run: Lineage, at: int) {
    exists u :: u in log && u.kind == Suspended && u.lineage == run && u.createdAt == at
  }

  /** A commit of this run: emissions or requests, then a SUSPENDED, all later than the run's rows so far. */
  ghost predicate Commits(log: Log, run: Lineage, emissions: seq<Event>, row: Event) {
    && row.kind == Suspended && row.lineage == run && row.step.Some? && After(log, row)
    && (forall e :: e in emissions ==> After(log, e) && e.lineage == run
                                       && (e.kind == Emitted || e.kind == RollbackEmitted))
  }

  lemma InStepOfOldWindow(log: Log, run: Lineage, emissions: seq<Event>, row: Event, at: int, e: Event)
    requires Commits(log, run, emissions, row) && IsStampOf(log, run, at)
    requires e in log + (emissions + [row]) && InStep(log + (emissions + [row]), e, run, at)
    ensures e in log && InStep(log, e, run, at)
  {
    var log' := log + (emissions + [row]);
    assert e in log || e in emissions || e == row;
    assert forall u :: u in log ==> u in log';
    assert NoSuspensionBetween(log', run, e.createdAt, at) ==> NoSuspensionBetween(log, run, e.createdAt, at);
  }

  lemma StepStaysAsked(log: Log, run: Lineage, emissions: seq<Event>, row: Event, at: int)
    requires Commits(log, run, emissions, row) && IsStampOf(log, run, at) && StepAsked(log, run, at)
    ensures StepAsked(log + (emissions + [row]), run, at)
  {
    var log' := log + (emissions + [row]);
    forall e | e in log' && InStep(log', e, run, at) ensures RequestedBy(log', run, e.message) {
      InStepOfOldWindow(log, run, emissions, row, at, e);
      var r :| r in log && r.kind == RollbackEmitted && r.lineage == run && r.message == e.message;
      assert r in log';
    }
  }

  lemma StepStaysUnasked(log: Log, run: Lineage, emissions: seq<Event>, row: Event, at: int)
    requires Commits(log, run, emissions, row) && IsStampOf(log, run, at) && StepNotAsked(log, run, at)
    requires forall r, e :: r in emissions && r.kind == RollbackEmitted && e in log && InStep(log, e, run, at)
                            ==> r.message != e.message
    ensures StepNotAsked(log + (emissions + [row]), run, at)
  {
    var log' := log + (emissions + [row]);
    forall e | e in log' && InStep(log', e, run, at) ensures !RequestedBy(log', run, e.message) {
      InStepOfOldWindow(log, run, emissions, row, at, e);
      forall r | r in log' && r.kind == RollbackEmitted && r.lineage == run ensures r.message != e.message {
        assert r in log ==> r.message != e.message;
      }
    }
  }

  /** The entry's requests cover its window. */
  lemma EntryIsAsked(log: Log, run: Lineage, emissions: seq<Event>, row: Event, at: int, coroutine: string, step: string,
                     stamp: int)
    requires Commits(log, run, emissions, row) && IsStampOf(log, run, at)
    requires emissions == RequestsFor(EmittedRecord(log, run, at), run, coroutine, step, stamp)
    ensures StepAsked(log + (emissions + [row]), run, at)
  {
    var log' := log + (emissions + [row]);
    forall e | e in log' && InStep(log', e, run, at) ensures RequestedBy(log', run, e.message) {
      InStepOfOldWindow(log, run, emissions, row, at, e);
      var emitted := EmittedRecord(log, run, at);
      assert e in emitted;
      var i :| 0 <= i < |emitted| && emitted[i] == e;
      assert emissions[i] in log';
    }
  }

  /** An emission lies in one window only. */
  lemma WindowsAreDisjoint(log: Log, run: Lineage, a: int, b: int, e: Event)
    requires IsStampOf(log, run, a) && IsStampOf(log, run, b) && a != b
    ensures !(InStep(log, e, run, a) && InStep(log, e, run, b))
  {
    var u :| u in log && u.kind == Suspended && u.lineage == run && u.createdAt == a;
    var v :| v in log && v.kind == Suspended && v.lineage == run && v.createdAt == b;
  }

  /** Requests for one window ask nothing in another. */
  lemma OtherWindowUntouched(log: Log, run: Lineage, requests: seq<Event>, at: int, other: int, coroutine: string,
                             step: string, stamp: int)
    requires RunsHangUnderEmissions(log) && IsStampOf(log, run, at) && IsStampOf(log, run, other) && at != other
    requires requests == RequestsFor(EmittedRecord(log, run, at), run, coroutine, step, stamp)
    ensures forall r, e :: r in requests && e in log && InStep(log, e, run, other) ==> r.message != e.message
  {
    forall r, e | r in requests && e in log && InStep(log, e, run, other) ensures r.message != e.message {
      var emitted := EmittedRecord(log, run, at);
      var i :| 0 <= i < |requests| && requests[i] == r;
      var asked := emitted[i];
      assert asked in emitted;
      WindowsAreDisjoint(log, run, at, other, asked);
    }
  }

  // ---------------------------------------------------------------- plan entries and windows

  ghost predicate StampsDecrease(history: seq<Instance>) {
    forall i, j :: 0 <= i < j < |history| ==> history[i].suspendedAt > history[j].suspendedAt
  }

  /** Only the first entry addresses the window of the latest execution. */
  lemma LaterEntryOtherStep(prefix: string, suffix: string, history: seq<Instance>, n: nat)
    requires StampsDecrease(history) && 0 < n < |Plan(prefix, suffix, history)|
    requires !Plan(prefix, suffix, history)[n].own
    ensures Plan(prefix, suffix, history)[n].instance.suspendedAt != Plan(prefix, suffix, history)[0].instance.suspendedAt
  {
    var first := StepsFor(prefix, suffix, history[0], IterationOf(history[0], history[1..]));
    assert n >= |first|;
    var k := EntriesComeFromHistory(prefix, suffix, history[1..], n - |first|);
  }

  lemma ForwardStampsDecrease(saga: Saga.Definition, log: Log, run: Lineage)
    requires StampsIncrease(log)
    ensures StampsDecrease(Saga.Executed(ForwardPart(saga, RowsOf(log, run))))
  {
    var rows := RowsOf(log, run);
    forall i, j | 0 <= i < j < |rows| ensures rows[i].at > rows[j].at {
      RowsAreMostRecentFirst(log, run, i, j);
    }
  }

  lemma ForwardRowStamp(saga: Saga.Definition, log: Log, run: Lineage, k: nat)
    requires k < |ForwardPart(saga, RowsOf(log, run))|
    ensures IsStampOf(log, run, ForwardPart(saga, RowsOf(log, run))[k].at)
  {
    hide RowsOf, ForwardPart;
    var i := ForwardPartAt(saga, RowsOf(log, run), k);
    var n := RowIsInLog(log, run, i);
    assert log[n] in log;
  }

  // ---------------------------------------------------------------- the run that suspends

  /** Every entry of the plan has a window. */
  ghost predicate Stamped(log: Log, run: Lineage, plan: seq<PlanStep>) {
    forall j :: 0 <= j < |plan| ==> IsStampOf(log, run, plan[j].instance.suspendedAt)
  }

  lemma PlanIsStamped(saga: Saga.Definition, log: Log, run: Lineage)
    ensures Stamped(log, run, PlanFor(saga, RowsOf(log, run)))
  {
    hide IsStampOf, RowsOf, ForwardPart;
    var part := ForwardPart(saga, RowsOf(log, run));
    var plan := PlanFor(saga, RowsOf(log, run));
    forall j | 0 <= j < |plan| ensures IsStampOf(log, run, plan[j].instance.suspendedAt) {
      var k := EntriesComeFromHistory(Saga.Prefix(saga), Saga.Suffix(saga), Saga.Executed(part), j);
      ForwardRowStamp(saga, log, run, k);
    }
  }

  lemma EntriesStayAsked(log: Log, run: Lineage, emissions: seq<Event>, row: Event, plan: seq<PlanStep>, from: nat, to: nat)
    requires Commits(log, run, emissions, row) && Stamped(log, run, plan) && to <= |plan|
    requires EntriesAsked(log, run, plan, from, to)
    ensures EntriesAsked(log + (emissions + [row]), run, plan, from, to)
  {
    hide StepAsked, Commits, IsStampOf;
    forall j | from <= j < to && !plan[j].own
      ensures StepAsked(log + (emissions + [row]), run, plan[j].instance.suspendedAt)
    {
      StepStaysAsked(log, run, emissions, row, plan[j].instance.suspendedAt);
    }
  }

  lemma ForwardSuspensionKept(saga: Saga.Definition, log: Log, run: Lineage, emissions: seq<Event>, row: Event)
    requires Commits(log, run, emissions, row) && NothingAsked(log, run)
    requires forall e :: e in emissions ==> e.kind == Emitted
    requires var rows := [SuspendedOf(row)] + RowsOf(log, run); Sound(saga, rows) && RollbackPart(saga, rows) == []
    ensures RunKept(saga, log + (emissions + [row]), run)
  {
    RowsOfWork(log, emissions, row);
    assert NothingAsked(log + (emissions + [row]), run);
    NotRollingKept(saga, log + (emissions + [row]), run);
  }

  /** The requests, if any, are those of entry n. */
  ghost predicate RequestsOf(log: Log, run: Lineage, plan: seq<PlanStep>, n: nat, emissions: seq<Event>)
    requires n < |plan|
  {
    if plan[n].own then forall e :: e in emissions ==> e.kind == Emitted
    else exists c, step, stamp :: emissions == RequestsFor(EmittedRecord(log, run, plan[n].instance.suspendedAt), run, c,
                                                           step, stamp)
  }

  lemma EntryAdvances(saga: Saga.Definition, log: Log, run: Lineage, emissions: seq<Event>, row: Event,
                      plan: seq<PlanStep>, from: nat, n: nat)
    requires Commits(log, run, emissions, row) && plan == PlanFor(saga, RowsOf(log, run)) && n < |plan|
    requires RequestsOf(log, run, plan, n, emissions) && EntriesAsked(log, run, plan, from, n)
    ensures EntriesAsked(log + (emissions + [row]), run, plan, from, n + 1)
  {
    PlanIsStamped(saga, log, run);
    EntriesStayAsked(log, run, emissions, row, plan, from, n);
    if !plan[n].own {
      var c, step, stamp :| emissions == RequestsFor(EmittedRecord(log, run, plan[n].instance.suspendedAt), run, c, step,
                                                     stamp);
      EntryIsAsked(log, run, emissions, row, plan[n].instance.suspendedAt, c, step, stamp);
    }
  }

  lemma FirstEntryStaysUnasked(saga: Saga.Definition, log: Log, run: Lineage, emissions: seq<Event>, row: Event,
                               plan: seq<PlanStep>, n: nat)
    requires RunsHangUnderEmissions(log) && StampsIncrease(log)
    requires Commits(log, run, emissions, row) && plan == PlanFor(saga, RowsOf(log, run)) && 0 < n < |plan|
    requires RequestsOf(log, run, plan, n, emissions) && StepNotAsked(log, run, plan[0].instance.suspendedAt)
    ensures StepNotAsked(log + (emissions + [row]), run, plan[0].instance.suspendedAt)
  {
    PlanIsStamped(saga, log, run);
    if !plan[n].own {
      var c, step, stamp :| emissions == RequestsFor(EmittedRecord(log, run, plan[n].instance.suspendedAt), run, c, step,
                                                     stamp);
      ForwardStampsDecrease(saga, log, run);
      LaterEntryOtherStep(Saga.Prefix(saga), Saga.Suffix(saga), Saga.Executed(ForwardPart(saga, RowsOf(log, run))), n);
      OtherWindowUntouched(log, run, emissions, plan[n].instance.suspendedAt, plan[0].instance.suspendedAt, c, step,
                           stamp);
    }
    StepStaysUnasked(log, run, emissions, row, plan[0].instance.suspendedAt);
  }

  /** A rollback that has suspended, has run entries from..to, and does not stand behind them. */
  ghost predicate RollingTo(saga: Saga.Definition, rows: seq<Saga.Suspended>, plan: seq<PlanStep>, from: nat, to: nat) {
    && Sound(saga, rows) && RollbackPart(saga, rows) != [] && plan == PlanFor(saga, rows)
    && from == FirstRun(saga, rows) && to <= |plan|
    && (Standing(saga, rows, plan).Some? ==> Standing(saga, rows, plan).value <= to)
  }

  lemma AdvancedRows(saga: Saga.Definition, rows: seq<Saga.Suspended>, next: Saga.Suspended, plan: seq<PlanStep>, n: nat)
    requires Sound(saga, rows) && plan == PlanFor(saga, rows) && Saga.Prefix(saga) <= next.step
    requires n < |plan| && next.step == plan[n].name
    requires RollbackPart(saga, rows) == [] ==> next.handler.None?
    ensures RollingTo(saga, [next] + rows, plan, FirstRun(saga, rows), n + 1)
  {
    AddRollbackRow(saga, rows, next);
    StandingAfter(saga, rows, next, plan, n);
  }

  lemma DetouredRows(saga: Saga.Definition, rows: seq<Saga.Suspended>, next: Saga.Suspended, plan: seq<PlanStep>, n: nat)
    requires Sound(saga, rows) && plan == PlanFor(saga, rows) && Saga.Prefix(saga) <= next.step
    requires n <= |plan| && next.handler.Some? && (plan != [] ==> next.step == plan[if n == 0 then 0 else n - 1].name)
    ensures var from := if RollbackPart(saga, rows) == [] then 1 else FirstRun(saga, rows);
            RollingTo(saga, [next] + rows, plan, from, if n == 0 && plan != [] then 1 else n)
  {
    AddRollbackRow(saga, rows, next);
    if plan != [] {
      StandingAfter(saga, rows, next, plan, if n == 0 then 0 else n - 1);
    }
  }

  lemma RollingKept(saga: Saga.Definition, log: Log, run: Lineage, plan: seq<PlanStep>, from: nat, to: nat)
    requires RollingTo(saga, RowsOf(log, run), plan, from, to) && Has(log, RollingBack, run)
    requires EntriesAsked(log, run, plan, from, to)
    requires from == 1 && plan != [] ==> StepNotAsked(log, run, plan[0].instance.suspendedAt)
    ensures RunKept(saga, log, run)
  {}

  /** A clean tick of a rolling run: entry n is executed and recorded. */
  lemma AdvanceKept(saga: Saga.Definition, log: Log, run: Lineage, emissions: seq<Event>, row: Event,
                    plan: seq<PlanStep>, from: nat, n: nat)
    requires RunsHangUnderEmissions(log) && StampsIncrease(log) && Has(log, RollingBack, run)
    requires Commits(log, run, emissions, row) && plan == PlanFor(saga, RowsOf(log, run)) && n < |plan|
    requires RollingTo(saga, [SuspendedOf(row)] + RowsOf(log, run), plan, from, n + 1)
    requires EntriesAsked(log, run, plan, from, n) && RequestsOf(log, run, plan, n, emissions)
    requires from == 1 ==> n > 0 && StepNotAsked(log, run, plan[0].instance.suspendedAt)
    ensures RunKept(saga, log + (emissions + [row]), run)
  {
    var log' := log + (emissions + [row]);
    RowsOfWork(log, emissions, row);
    EntryAdvances(saga, log, run, emissions, row, plan, from, n);
    HasSplit(log, emissions + [row], RollingBack, run);
    if from == 1 {
      FirstEntryStaysUnasked(saga, log, run, emissions, row, plan, n);
    }
    RollingKept(saga, log', run, plan, from, n + 1);
  }

  /** A tick that reported a failed child rollback: nothing is asked, and the position does not move on. */
  lemma DetourKept(saga: Saga.Definition, log: Log, run: Lineage, emissions: seq<Event>, row: Event,
                   plan: seq<PlanStep>, from: nat, n: nat)
    requires Has(log, RollingBack, run)
    requires Commits(log, run, emissions, row) && plan == PlanFor(saga, RowsOf(log, run))
    requires RollingTo(saga, [SuspendedOf(row)] + RowsOf(log, run), plan, from, n)
    requires EntriesAsked(log, run, plan, from, n) && forall e :: e in emissions ==> e.kind == Emitted
    requires from == 1 && plan != [] ==> StepNotAsked(log, run, plan[0].instance.suspendedAt)
    ensures RunKept(saga, log + (emissions + [row]), run)
  {
    RowsOfWork(log, emissions, row);
    PlanIsStamped(saga, log, run);
    EntriesStayAsked(log, run, emissions, row, plan, from, n);
    HasSplit(log, emissions + [row], RollingBack, run);
    if from == 1 && plan != [] {
      StepStaysUnasked(log, run, emissions, row, plan[0].instance.suspendedAt);
    }
    RollingKept(saga, log + (emissions + [row]), run, plan, from, n);
  }

  lemma OnlySuspendedRecords(tick: Saga.Tick, row: Event)
    requires Records(tick, row) && row.kind == Suspended
    ensures row.step.Some? && tick == Saga.WroteSuspended(SuspendedOf(row))
  {}

  /** The tick's own row keeps the run's books, whichever way the tick went. */
  lemma SuspensionKept(env: Env, log: Log, run: Event, view: Log, settled: set<Lineage>, choice: Choice,
                       emissions: seq<Event>, row: Event)
    requires RunsHangUnderEmissions(log) && StampsIncrease(log) && row.kind == Suspended
    requires WritesTick(env, log, run, view, settled, choice, emissions, row) && Commits(log, run.lineage, emissions, row)
    requires RowsOf(view, run.lineage) == RowsOf(log, run.lineage)
    requires Has(view, RollingBack, run.lineage) <==> Has(log, RollingBack, run.lineage)
    requires RunKept(env.sagas(run.coroutine.value), log, run.lineage)
    ensures RunKept(env.sagas(run.coroutine.value), log + (emissions + [row]), run.lineage)
  {
    hide RunsHangUnderEmissions, StampsIncrease, Commits, Saga.TickOf, RollingOutcome, RunKept, Records, WritesOf, EntryRun;
    var saga, rows := env.sagas(run.coroutine.value), RowsOf(log, run.lineage);
    var failures := FailuresOf(view, settled, run.coroutine.value, run.lineage);
    var tick := Saga.TickOf(saga, rows, failures, choice.user, choice.before, choice.after, row.createdAt);
    OnlySuspendedRecords(tick, row);
    if failures.rollingBack {
      RollingTickKept(saga, log, run, failures, choice, emissions, row, tick);
    } else {
      ForwardTickKept(saga, log, run, failures, choice, emissions, row, tick);
    }
  }

  lemma ForwardTickKept(saga: Saga.Definition, log: Log, run: Event, failures: Saga.Failures, choice: Choice,
                        emissions: seq<Event>, row: Event, tick: Saga.Tick)
    requires RunKept(saga, log, run.lineage) && Commits(log, run.lineage, emissions, row)
    requires tick == Saga.TickOf(saga, RowsOf(log, run.lineage), failures, choice.user, choice.before, choice.after,
                                 row.createdAt)
    requires row.step.Some? && tick == Saga.WroteSuspended(SuspendedOf(row)) && !failures.rollingBack
    requires !Has(log, RollingBack, run.lineage) && run.coroutine.Some?
    requires WritesOf(log, run, run.coroutine.value, EntryRun(saga, RowsOf(log, run.lineage), failures), emissions)
    ensures RunKept(saga, log + (emissions + [row]), run.lineage)
  {
    hide Saga.TickOf, Commits, Sound, RollbackPart, PlanFor, Standing, EntriesAsked, StepNotAsked, CleanStart;
    ForwardTick(saga, RowsOf(log, run.lineage), failures, choice.user, choice.before, choice.after, row.createdAt);
    ForwardSuspensionKept(saga, log, run.lineage, emissions, row);
  }

  lemma RollingTickKept(saga: Saga.Definition, log: Log, run: Event, failures: Saga.Failures, choice: Choice,
                        emissions: seq<Event>, row: Event, tick: Saga.Tick)
    requires RunKept(saga, log, run.lineage) && Commits(log, run.lineage, emissions, row)
    requires RunsHangUnderEmissions(log) && StampsIncrease(log)
    requires tick == Saga.TickOf(saga, RowsOf(log, run.lineage), failures, choice.user, choice.before, choice.after,
                                 row.createdAt)
    requires row.step.Some? && tick == Saga.WroteSuspended(SuspendedOf(row)) && failures.rollingBack
    requires Has(log, RollingBack, run.lineage) && run.coroutine.Some?
    requires WritesOf(log, run, run.coroutine.value, EntryRun(saga, RowsOf(log, run.lineage), failures), emissions)
    ensures RunKept(saga, log + (emissions + [row]), run.lineage)
  {
    hide Saga.TickOf, Commits, RunsHangUnderEmissions, StampsIncrease, Sound, RollbackPart, PlanFor, Standing, EntriesAsked,
      StepNotAsked, CleanStart, RollingOutcome, WritesOf, EntryRun;
    var rows := RowsOf(log, run.lineage);
    var plan := PlanFor(saga, rows);
    RollingTick(saga, rows, plan, failures, choice.user, choice.before, choice.after, row.createdAt);
    RollingSuspensionKept(saga, log, run, emissions, row, plan, failures, tick);
  }

  lemma RollingSuspensionKept(saga: Saga.Definition, log: Log, run: Event, emissions: seq<Event>, row: Event,
                              plan: seq<PlanStep>, failures: Saga.Failures, tick: Saga.Tick)
    requires RunsHangUnderEmissions(log) && StampsIncrease(log) && Has(log, RollingBack, run.lineage)
    requires RunKept(saga, log, run.lineage) && Commits(log, run.lineage, emissions, row)
    requires plan == PlanFor(saga, RowsOf(log, run.lineage)) && run.coroutine.Some? && failures.rollingBack
    requires RollingOutcome(saga, RowsOf(log, run.lineage), plan, failures.childRollbackFailed, tick)
    requires row.step.Some? && tick == Saga.WroteSuspended(SuspendedOf(row))
    requires WritesOf(log, run, run.coroutine.value, EntryRun(saga, RowsOf(log, run.lineage), failures), emissions)
    ensures RunKept(saga, log + (emissions + [row]), run.lineage)
  {
    hide RunsHangUnderEmissions, StampsIncrease, Commits, RunKept, PlanFor, Standing, StepsFor, RollbackPart;
    var rows := RowsOf(log, run.lineage);
    var n := Standing(saga, rows, plan).value;
    StandingZeroIff(saga, rows, plan);
    if failures.childRollbackFailed {
      SwallowedFailureKept(saga, log, run.lineage, emissions, row, plan, n);
    } else {
      EntryKept(saga, log, run.lineage, emissions, row, plan, n);
    }
  }

  lemma EntryKept(saga: Saga.Definition, log: Log, run: Lineage, emissions: seq<Event>, row: Event,
                  plan: seq<PlanStep>, n: nat)
    requires RunsHangUnderEmissions(log) && StampsIncrease(log) && Has(log, RollingBack, run)
    requires RunKept(saga, log, run) && Commits(log, run, emissions, row)
    requires plan == PlanFor(saga, RowsOf(log, run)) && Standing(saga, RowsOf(log, run), plan) == Some(n)
    requires n < |plan| && row.step.Some? && row.step.value == plan[n].name && Saga.Prefix(saga) <= row.step.value
    requires RollbackPart(saga, RowsOf(log, run)) == [] ==> row.handlerIteration.None?
    requires RequestsOf(log, run, plan, n, emissions)
    ensures RunKept(saga, log + (emissions + [row]), run)
  {
    hide RunsHangUnderEmissions, StampsIncrease, Commits, StepAsked, StepNotAsked, Sound, PlanFor, Standing, RollingTo,
      CleanStart, RequestsOf;
    var rows := RowsOf(log, run);
    StandingZeroIff(saga, rows, plan);
    AdvancedRows(saga, rows, SuspendedOf(row), plan, n);
    AdvanceKept(saga, log, run, emissions, row, plan, FirstRun(saga, rows), n);
  }

  /** A rollback stands before entry 0 exactly if it has not suspended. */
  lemma StandingZeroIff(saga: Saga.Definition, rows: seq<Saga.Suspended>, plan: seq<PlanStep>)
    requires Standing(saga, rows, plan).Some?
    ensures Standing(saga, rows, plan).value == 0 <==> RollbackPart(saga, rows) == []
    ensures RollbackPart(saga, rows) == [] ==> CleanStart(saga, rows)
  {}

  lemma NothingAskedInStep(log: Log, run: Lineage, at: int)
    requires NothingAsked(log, run)
    ensures StepNotAsked(log, run, at)
  {}

  lemma SwallowedFailureKept(saga: Saga.Definition, log: Log, run: Lineage, emissions: seq<Event>, row: Event,
                             plan: seq<PlanStep>, n: nat)
    requires RunKept(saga, log, run) && Commits(log, run, emissions, row) && Has(log, RollingBack, run)
    requires plan == PlanFor(saga, RowsOf(log, run)) && Standing(saga, RowsOf(log, run), plan) == Some(n)
    requires row.step.Some? && Saga.Prefix(saga) <= row.step.value && row.handlerIteration.Some?
    requires plan != [] ==> row.step.value == plan[if n == 0 then 0 else n - 1].name
    requires forall e :: e in emissions ==> e.kind == Emitted
    ensures RunKept(saga, log + (emissions + [row]), run)
  {
    hide Commits, StepAsked, StepNotAsked, NothingAsked, Sound, PlanFor, Standing, RollingTo, CleanStart, InStep;
    var rows := RowsOf(log, run);
    StandingZeroIff(saga, rows, plan);
    DetouredRows(saga, rows, SuspendedOf(row), plan, n);
    if RollbackPart(saga, rows) == [] {
      if plan != [] {
        NothingAskedInStep(log, run, plan[0].instance.suspendedAt);
      }
      DetourKept(saga, log, run, emissions, row, plan, 1, if plan != [] then 1 else 0);
    } else {
      DetourKept(saga, log, run, emissions, row, plan, FirstRun(saga, rows), n);
    }
  }

  // ---------------------------------------------------------------- requests and their answers

  ghost predicate RequestsFollowEmissions(log: Log) {
    forall r {:trigger Row(log, r)} | Row(log, r) && r.kind == RollbackEmitted && |r.lineage| > 1 ::
      exists e :: e in log && e.kind == Emitted && e.lineage == r.lineage && e.message == r.message
                  && e.createdAt < r.createdAt
  }

  /** Every run of this message has rolled back, or failed to. */
  ghost predicate Answered(log: Log, message: Id) {
    forall c :: c in log && c.kind == Seen && c.message == message ==> RollbackTerminated(log, c.lineage)
  }

  /** A request that is not answered yet belongs to the requesting run's latest step. */
  ghost predicate RequestsAnswered(log: Log) {
    forall r {:trigger Row(log, r)} | Row(log, r) && r.kind == RollbackEmitted && |r.lineage| > 1 ::
      RollbackEmissionInLatestStep(log, r.lineage, r) || Answered(log, r.message)
  }

  lemma StepKeepsRequestsFollow(log: Log, step: LogStep)
    requires RequestsFollowEmissions(log) && Allowed(log, step)
    ensures RequestsFollowEmissions(log + Rows(step))
  {
    var log' := log + Rows(step);
    forall r | Row(log', r) && r.kind == RollbackEmitted && |r.lineage| > 1
      ensures exists e :: e in log' && e.kind == Emitted && e.lineage == r.lineage && e.message == r.message
                          && e.createdAt < r.createdAt
    {
      var e;
      if r in log {
        assert Row(log, r);
        e :| e in log && e.kind == Emitted && e.lineage == r.lineage && e.message == r.message
             && e.createdAt < r.createdAt;
      } else {
        OnlyWorkersSuspend(log, step, r);
        assert RollbackEmissionAllowed(log, step.run, r);
        e :| e in log && e.kind == Emitted && e.lineage == r.lineage && e.message == r.message;
      }
      assert e in log';
    }
  }

  /** A message that has been asked to roll back starts no further run: its emitter has suspended again. */
  lemma AskedMessageStartsNoRun(log: Log, row: Event, emission: Event, r: Event)
    requires Inv(log) && RequestsFollowEmissions(log) && StartRunAllowed(log, row, emission)
    requires r in log && r.kind == RollbackEmitted && |r.lineage| > 1
    ensures r.message != row.message
  {
    hide LineagesFormTree, SeenUnique, RunsFollowAutomaton, EmissionsClosed, FinishingRowsLast, OpenChildrenAwaited,
      AskedRunsAtRest, ParentStillSuspendedOn;
    assert Row(log, r);
    var e :| e in log && e.kind == Emitted && e.lineage == r.lineage && e.message == r.message
             && e.createdAt < r.createdAt;
    var parent :| SeenOf(log, r, parent);
    assert Row(log, e);
    var mid :| SuspensionBetween(log, e.lineage, e.createdAt, r.createdAt, mid)
               || SuspensionBetween(log, e.lineage, r.createdAt, e.createdAt, mid);
    if e == emission {
      ParentHasMovedOn(log, e, r, mid);
    }
  }

  lemma ParentHasMovedOn(log: Log, e: Event, r: Event, mid: Event)
    requires r in log && r.lineage == e.lineage && SuspensionBetween(log, e.lineage, e.createdAt, r.createdAt, mid)
    ensures !ParentStillSuspendedOn(log, e)
  {}

  lemma RollbackTerminatedStays(log: Log, rows: seq<Event>, run: Lineage)
    requires RollbackTerminated(log, run)
    ensures RollbackTerminated(log + rows, run)
  {
    HasSplit(log, rows, RolledBack, run);
    HasSplit(log, rows, RollbackFailed, run);
  }

  /** The runs of an asked message are all known. */
  lemma RunsOfAskedAreOld(log: Log, step: LogStep, r: Event, c: Event)
    requires Inv(log) && RequestsFollowEmissions(log) && Allowed(log, step)
    requires r in log && r.kind == RollbackEmitted && |r.lineage| > 1
    requires c in log + Rows(step) && c.kind == Seen && c.message == r.message
    ensures c in log
  {
    if c !in log {
      StartedRunIsNew(log, step, c);
      AskedMessageStartsNoRun(log, step.row, step.emission, r);
    }
  }

  lemma AnsweredStays(log: Log, step: LogStep, r: Event)
    requires Inv(log) && RequestsFollowEmissions(log) && Allowed(log, step)
    requires r in log && r.kind == RollbackEmitted && |r.lineage| > 1 && Answered(log, r.message)
    ensures Answered(log + Rows(step), r.message)
  {
    forall c | c in log + Rows(step) && c.kind == Seen && c.message == r.message
      ensures RollbackTerminated(log + Rows(step), c.lineage)
    {
      RunsOfAskedAreOld(log, step, r, c);
      RollbackTerminatedStays(log, Rows(step), c.lineage);
    }
  }

  lemma LatestStepUnmoved(log: Log, rows: seq<Event>, r: Event)
    requires RollbackEmissionInLatestStep(log, r.lineage, r) && Unmoved(rows, r.lineage)
    ensures RollbackEmissionInLatestStep(log + rows, r.lineage, r)
  {
    var u :| u in log && IsLatestSuspended(log, r.lineage, u) && InWindow(log, r, u.createdAt);
    assert IsLatestSuspended(log + rows, r.lineage, u);
    assert InWindow(log + rows, r, u.createdAt);
  }

  /** Only the run's own worker emits, asks or suspends for it. */
  lemma OnlyOwnWorkMoves(log: Log, step: LogStep, run: Lineage)
    requires Allowed(log, step) && |run| > 1 && (step.Work? ==> step.run.lineage != run || step.row.kind != Suspended)
    ensures Unmoved(Rows(step), run)
  {
    forall e | e in Rows(step) && e.lineage == run
      ensures e.kind != Suspended && e.kind != Emitted && e.kind != RollbackEmitted
    {
      OnlyWorkersSuspend(log, step, e);
      if step.Work? {
        assert e in step.emissions ==> EmissionAllowed(log, step.run, e) || RollbackEmissionAllowed(log, step.run, e);
      }
    }
  }

  /** Before a run suspends again, its requests so far must be answered. */
  lemma StepKeepsRequestsAnswered(log: Log, step: LogStep)
    requires Inv(log) && RequestsFollowEmissions(log) && RequestsAnswered(log) && Allowed(log, step)
    requires step.Work? ==> forall r :: r in log && r.kind == RollbackEmitted && r.lineage == step.run.lineage
                                        ==> Answered(log, r.message)
    ensures RequestsAnswered(log + Rows(step))
  {
    var log' := log + Rows(step);
    forall r | Row(log', r) && r.kind == RollbackEmitted && |r.lineage| > 1
      ensures RollbackEmissionInLatestStep(log', r.lineage, r) || Answered(log', r.message)
    {
      if r !in log {
        OnlyWorkersSuspend(log, step, r);
        NewRequestIsInLatestStep(log, step.run, step.emissions, step.row, r);
      } else if Answered(log, r.message) {
        AnsweredStays(log, step, r);
      } else {
        assert Row(log, r);
        OnlyOwnWorkMoves(log, step, r.lineage);
        LatestStepUnmoved(log, Rows(step), r);
      }
    }
  }

  lemma NewRequestIsInLatestStep(log: Log, run: Event, emissions: seq<Event>, row: Event, r: Event)
    requires WorkAllowed(log, run, emissions, row) && r in emissions && r.kind == RollbackEmitted
    ensures RollbackEmissionInLatestStep(log + (emissions + [row]), r.lineage, r)
  {
    var log' := log + (emissions + [row]);
    forall e | e in emissions ensures e.kind != Suspended && e.lineage == run.lineage {
      assert EmissionAllowed(log, run, e) || RollbackEmissionAllowed(log, run, e);
    }
    assert RollbackEmissionAllowed(log, run, r);
    assert row in log' && IsLatestSuspended(log', r.lineage, row);
    assert InWindow(log', r, row.createdAt);
  }
}
