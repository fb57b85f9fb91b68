/**
 Rollbacks that wait for ever.  A rolling run resumes once every registered handler of every message it has asked for has begun
 to roll back; a handler that had not started when the message was asked for never will, and where no deadline passes nobody
 gives up.  A forward run resumes with handlers missing as soon as it is cancelled, so cancelling it leads there.
 */
module Stranding {
  import opened Options
  import opened EventLog
  import opened Readiness
  import opened Protocol
  import opened AutomatonProofs
  import opened CooperationProofs
  import opened Workers
  import opened Safety
  import opened StandardStrategy
  import opened TreeRollback
  import opened TreeProofs
  import opened RunLives

  ghost predicate NoRunOf(log: Log, message: Id, handler: string) {
    forall s :: s in log && s.kind == Seen && s.message == message ==> s.coroutine != Some(handler)
  }

  /** The run is rolling back, and a registered handler of a message its latest step asked for has no run. */
  ghost predicate Stranded(registry: Registry, log: Log, run: Event, r: Event, handler: string) {
    && run in log && run.kind == Seen && Has(log, RollingBack, run.lineage) && !RollbackTerminated(log, run.lineage)
    && RollbackEmissionInLatestStep(log, run.lineage, r) && Registered(registry, r.message, handler)
    && NoRunOf(log, r.message, handler)
  }

  // ---------------------------------------------------------------- what it holds back

  ghost predicate NoRollbackOf(log: Log, message: Id, handler: string) {
    forall b :: b in log && b.kind == RollingBack && b.message == message ==> b.coroutine != Some(handler)
  }

  lemma NoRunNoRollback(log: Log, message: Id, handler: string)
    requires Structure(log) && NoRunOf(log, message, handler)
    ensures NoRollbackOf(log, message, handler)
  {
    forall b | b in log && b.kind == RollingBack && b.message == message ensures b.coroutine != Some(handler) {
      assert Row(log, b) && |b.lineage| > 0;
      var owner :| SeenOf(log, b, owner);
    }
  }

  /** Where a candidate asked for such a message, no run of its coroutine with requests in its latest step is ready. */
  lemma MissingAnswerBlocks(registry: Registry, log: Log, settled: set<Lineage>, coroutine: string, strategy: Strategy,
                            run: Event, r: Event, handler: string, k: Event)
    requires IsStandard(strategy, registry) && run in log && Candidate(log, settled, coroutine, run)
    requires RollbackEmissionInLatestStep(log, run.lineage, r) && Registered(registry, r.message, handler)
    requires NoRollbackOf(log, r.message, handler) && RollbackEmissionsPresent(log, k.lineage)
    ensures !Ready(log, settled, coroutine, k, strategy)
  {
    hide Candidate, RollbackEmissionInLatestStep;
    RequestIsOnLog(log, run.lineage, r);
    var pair := (registry.topicOf(r.message), handler);
    assert pair in registry.pairs && registry.topicOf(r.message) == pair.0;
  }

  lemma RequestIsOnLog(log: Log, run: Lineage, r: Event)
    requires RollbackEmissionInLatestStep(log, run, r)
    ensures r in log && r.kind == RollbackEmitted && r.lineage == run
  {}

  lemma StrandedIsCandidate(registry: Registry, log: Log, settled: set<Lineage>, run: Event, r: Event, handler: string)
    requires Structure(log) && Stranded(registry, log, run, r, handler) && run.coroutine.Some? && run.lineage !in settled
    ensures Candidate(log, settled, run.coroutine.value, run)
  {
    assert Row(log, run);
    var e :| EmissionOf(log, run, e);
    RollingBackRowIsTheRuns(log, run);
  }

  // ---------------------------------------------------------------- nobody else moves it

  lemma OthersLeaveItStranded(registry: Registry, log: Log, step: LogStep, run: Event, r: Event, handler: string)
    requires Inv(log) && RequestsFollowEmissions(log) && Allowed(log, step) && Inv(log + Rows(step))
    requires Stranded(registry, log, run, r, handler) && (step.Work? ==> step.run != run)
    ensures Stranded(registry, log + Rows(step), run, r, handler)
    ensures step.Work? ==> step.row.lineage != run.lineage
  {
    hide Inv, Allowed, RequestsFollowEmissions, RollbackEmissionInLatestStep;
    RunIsDeep(log, run);
    RequestIsOnLog(log, run.lineage, r);
    OthersEndElsewhere(log, step, run);
    OnlyOwnWorkMoves(log, step, run.lineage);
    LatestStepUnmoved(log, Rows(step), r);
    HasSplit(log, Rows(step), RollingBack, run.lineage);
    HasSplit(log, Rows(step), RolledBack, run.lineage);
    HasSplit(log, Rows(step), RollbackFailed, run.lineage);
    forall s | s in log + Rows(step) && s.kind == Seen && s.message == r.message ensures s.coroutine != Some(handler) {
      RunsOfAskedAreOld(log, step, r, s);
    }
  }

  // ---------------------------------------------------------------- nobody is resuming it

  /** Whoever is resuming a run has found it ready under the standard strategy. */
  ghost predicate ReadyWhenRead(registry: Registry, phase: Phase) {
    phase.Resuming? ==>
      exists coroutine, strategy :: IsStandard(strategy, registry)
                                    && Ready(phase.view, phase.stamped, coroutine, phase.run, strategy)
  }

  ghost predicate ReadersFoundReady(registry: Registry, s: State) {
    forall w :: w in s.workers ==> ReadyWhenRead(registry, s.workers[w])
  }

  lemma {:induction false} ReadersFoundReadyInTrace(env: Env, states: seq<State>, actions: seq<Action>, choices: seq<Choice>,
                                                    i: nat)
    requires SagaTrace(env, states, actions, choices) && i < |states|
    ensures ReadersFoundReady(env.registry, states[i])
  {
    hide Ready, IsStandard, WritesTick, WorkShape, Allowed, Unsettled;
    if i > 0 {
      ReadersFoundReadyInTrace(env, states, actions, choices, i - 1);
      assert Next(states[i - 1], actions[i - 1], states[i]);
      forall w | w in states[i].workers ensures ReadyWhenRead(env.registry, states[i].workers[w]) {
        assert w in states[i - 1].workers ==> ReadyWhenRead(env.registry, states[i - 1].workers[w]);
      }
    }
  }

  lemma SameLatestStep(log: Log, run: Event, view: Log, r: Event)
    requires view <= log && OwnRowsSeen(log, run, view) && RollbackEmissionInLatestStep(log, run.lineage, r)
    ensures RollbackEmissionInLatestStep(view, run.lineage, r)
  {
    var u :| u in log && IsLatestSuspended(log, run.lineage, u) && InWindow(log, r, u.createdAt);
    assert u in view && r in view;
    assert forall e :: e in view ==> e in log;
  }

  /** Who reads a log that differs in the rows of others only finds the run not ready. */
  lemma StrandedIsNotReady(registry: Registry, log: Log, view: Log, stamped: set<Lineage>, coroutine: string,
                           strategy: Strategy, run: Event, r: Event, handler: string)
    requires Structure(log) && Stranded(registry, log, run, r, handler) && IsStandard(strategy, registry)
    requires view <= log && OwnRowsSeen(log, run, view)
    ensures !Ready(view, stamped, coroutine, run, strategy)
  {
    hide Structure, RollbackEmissionInLatestStep, UnfinishedSeen, IsStandard;
    if Candidate(view, stamped, coroutine, run) {
      SameLatestStep(log, run, view, r);
      RequestIsOnLog(view, run.lineage, r);
      NoRunNoRollback(log, r.message, handler);
      assert forall b :: b in view ==> b in log;
      CandidateIsOnLog(view, stamped, coroutine, run);
      MissingAnswerBlocks(registry, view, stamped, coroutine, strategy, run, r, handler, run);
    }
  }

  lemma CandidateIsOnLog(log: Log, settled: set<Lineage>, coroutine: string, run: Event)
    requires Candidate(log, settled, coroutine, run)
    ensures run in log
  {}

  // ---------------------------------------------------------------- along a trace

  lemma ActionLeavesItStranded(env: Env, s: State, a: Action, s': State, run: Event, r: Event, handler: string)
    requires SystemInv(s) && TreeKept(env, s.log) && Inv(s'.log) && Next(s, a, s') && ReadersFoundReady(env.registry, s)
    requires Stranded(env.registry, s.log, run, r, handler)
    ensures Stranded(env.registry, s'.log, run, r, handler)
    ensures a.Write? ==> a.row.lineage != run.lineage
    ensures run.lineage in s'.settled ==> run.lineage in s.settled
  {
    hide Structure, RunsFollowAutomaton, EmissionsClosed, WindowsUnmixed, FinishingRowsLast, OpenChildrenAwaited,
      AskedRunsAtRest, LocksExclusive, SettledEarned, Stranded, SeenKept, RequestsFollowEmissions, RequestsAnswered, Allowed,
      Ready, WorkShape, IsStandard, OwnRowsSeen, Resumable, SelectedBy, StaleSettled;
    ActionIsAStep(s, a, s');
    if a.Write? && s.workers[a.worker].run == run {
      var Resuming(_, view, stamped) := s.workers[a.worker];
      assert WorkerSound(s.log, s.workers[a.worker]) && ReadyWhenRead(env.registry, s.workers[a.worker]);
      var coroutine, strategy :| IsStandard(strategy, env.registry) && Ready(view, stamped, coroutine, run, strategy);
      StrandedIsNotReady(env.registry, s.log, view, stamped, coroutine, strategy, run, r, handler);
      assert false;
    }
    if StepOf(s, a).Some? {
      OthersLeaveItStranded(env.registry, s.log, StepOf(s, a).value, run, r, handler);
    }
  }

  /**
   Once stranded, always: no worker writes about the run any more, its rollback has not ended in any later state, and its SEEN
   is not stamped if it was not.
   */
  lemma {:induction false} StrandedForEver(env: Env, states: seq<State>, actions: seq<Action>, choices: seq<Choice>, i: nat,
                                           j: nat, run: Event, r: Event, handler: string)
    requires SagaTrace(env, states, actions, choices) && i <= j < |states|
    requires Stranded(env.registry, states[i].log, run, r, handler)
    ensures Stranded(env.registry, states[j].log, run, r, handler)
    ensures forall k :: i <= k < j && actions[k].Write? ==> actions[k].row.lineage != run.lineage
    ensures run.lineage in states[j].settled ==> run.lineage in states[i].settled
  {
    hide Inv, LocksExclusive, SettledEarned, WorkerSound, TreeKept, WorkersKnow, ReadersFoundReady, Next, Disciplined,
      Stranded;
    if i < j {
      StrandedForEver(env, states, actions, choices, i, j - 1, run, r, handler);
      TraceKeepsSystem(states, actions, j - 1);
      TraceKeepsTree(env, states, actions, choices, j - 1);
      TraceKeepsSystem(states, actions, j);
      ReadersFoundReadyInTrace(env, states, actions, choices, j - 1);
      ActionLeavesItStranded(env, states[j - 1], actions[j - 1], states[j], run, r, handler);
    }
  }

  /**
   And it holds back others: from then on no second read, of whatever run of its coroutine, finds a run with requests in its
   latest step ready, the stranded one included.
   */
  lemma StrandedHoldsBackItsCoroutine(env: Env, states: seq<State>, actions: seq<Action>, choices: seq<Choice>, i: nat,
                                      j: nat, run: Event, r: Event, handler: string)
    requires SagaTrace(env, states, actions, choices) && i <= j < |actions| && actions[j].Reread?
    requires Stranded(env.registry, states[i].log, run, r, handler) && run.coroutine == Some(actions[j].coroutine)
    requires run.lineage !in states[i].settled
    ensures !RollbackEmissionsPresent(states[j].log, states[j].workers[actions[j].worker].run.lineage)
    ensures states[j].workers[actions[j].worker].run != run
  {
    hide Structure, RunsFollowAutomaton, EmissionsClosed, WindowsUnmixed, FinishingRowsLast, OpenChildrenAwaited,
      AskedRunsAtRest, LocksExclusive, SettledEarned, WorkerSound, Apply, IsStandard, Ready, RollbackEmissionInLatestStep;
    StrandedForEver(env, states, actions, choices, i, j, run, r, handler);
    TraceKeepsSystem(states, actions, j);
    StrandedBlocks(env.registry, states[j].log, states[j].settled, actions[j].coroutine, actions[j].strategy, run, r, handler,
                   states[j].workers[actions[j].worker].run);
  }

  lemma StrandedBlocks(registry: Registry, log: Log, settled: set<Lineage>, coroutine: string, strategy: Strategy, run: Event,
                       r: Event, handler: string, k: Event)
    requires Structure(log) && IsStandard(strategy, registry) && Stranded(registry, log, run, r, handler)
    requires run.coroutine == Some(coroutine) && run.lineage !in settled && Ready(log, settled, coroutine, k, strategy)
    ensures !RollbackEmissionsPresent(log, k.lineage) && k != run
  {
    hide Structure, RollbackEmissionInLatestStep, Candidate, IsStandard, Ready;
    StrandedIsCandidate(registry, log, settled, run, r, handler);
    NoRunNoRollback(log, r.message, handler);
    RequestIsOnLog(log, run.lineage, r);
    if RollbackEmissionsPresent(log, k.lineage) {
      MissingAnswerBlocks(registry, log, settled, coroutine, strategy, run, r, handler, k);
    }
  }

  // ---------------------------------------------------------------- how a run gets there

  /** A request strands the run that writes it exactly if a registered handler of the message has not started by then. */
  lemma AskingStrandsIff(registry: Registry, log: Log, run: Event, emissions: seq<Event>, row: Event, r: Event,
                         handler: string)
    requires Inv(log) && WorkAllowed(log, run, emissions, row) && r in emissions && r.kind == RollbackEmitted
    ensures Stranded(registry, log + (emissions + [row]), run, r, handler)
            <==> Registered(registry, r.message, handler) && NoRunOf(log, r.message, handler)
  {
    hide RollbackEmissionInLatestStep, Inv, Quiet;
    var rows := emissions + [row];
    WorkHasOneRow(log, run, emissions, row);
    NewRequestIsInLatestStep(log, run, emissions, row, r);
    OneRowIsAdded(log, run.lineage, emissions, row);
    assert EmissionAllowed(log, run, r) || RollbackEmissionAllowed(log, run, r);
    assert Adds(log, log + rows, run.lineage, row, RollingBack) && Adds(log, log + rows, run.lineage, row, RolledBack)
           && Adds(log, log + rows, run.lineage, row, RollbackFailed);
    forall s | s in log + rows && s.kind == Seen ensures s in log {}
  }

  // ---------------------------------------------------------------- only a cancellation leads there

  ghost predicate Uncancelled(log: Log) {
    forall c :: c in log ==> c.kind != CancellationRequested
  }

  /** Every registered handler of the message has a run. */
  ghost predicate Heard(registry: Registry, log: Log, message: Id) {
    forall handler :: Registered(registry, message, handler) ==> !NoRunOf(log, message, handler)
  }

  /** What a run emitted before its latest step has been heard. */
  ghost predicate EmissionsHeard(registry: Registry, log: Log) {
    forall e {:trigger Row(log, e)} :: Row(log, e) && e.kind == Emitted && |e.lineage| > 1
                                       ==> Heard(registry, log, e.message) || EmissionInLatestStep(log, e.lineage, e)
  }

  lemma HeardStays(registry: Registry, log: Log, rows: seq<Event>, message: Id)
    requires Heard(registry, log, message)
    ensures Heard(registry, log + rows, message)
  {
    forall handler | Registered(registry, message, handler) ensures !NoRunOf(log + rows, message, handler) {
      assert !NoRunOf(log, message, handler);
      assert forall s :: s in log ==> s in log + rows;
    }
  }

  lemma LatestEmissionUnmoved(log: Log, rows: seq<Event>, e: Event)
    requires EmissionInLatestStep(log, e.lineage, e) && Unmoved(rows, e.lineage)
    ensures EmissionInLatestStep(log + rows, e.lineage, e)
  {
    var u :| u in log && IsLatestSuspended(log, e.lineage, u) && InWindow(log, e, u.createdAt);
    assert IsLatestSuspended(log + rows, e.lineage, u) && InWindow(log + rows, e, u.createdAt);
  }

  lemma NewEmissionIsInLatestStep(log: Log, run: Event, emissions: seq<Event>, row: Event, e: Event)
    requires WorkAllowed(log, run, emissions, row) && e in emissions && e.kind == Emitted
    ensures EmissionInLatestStep(log + (emissions + [row]), e.lineage, e)
  {
    var log' := log + (emissions + [row]);
    forall d | d in emissions ensures d.kind != Suspended && d.lineage == run.lineage {
      assert EmissionAllowed(log, run, d) || RollbackEmissionAllowed(log, run, d);
    }
    assert EmissionAllowed(log, run, e);
    assert row in log' && IsLatestSuspended(log', e.lineage, row) && InWindow(log', e, row.createdAt);
  }

  lemma StepKeepsHeard(registry: Registry, log: Log, step: LogStep)
    requires Allowed(log, step) && EmissionsHeard(registry, log)
    requires step.Work? ==> forall e :: e in log && e.kind == Emitted && e.lineage == step.run.lineage
                                        ==> Heard(registry, log, e.message)
    ensures EmissionsHeard(registry, log + Rows(step))
  {
    hide Allowed, Heard, EmissionInLatestStep;
    forall e | Row(log + Rows(step), e) && e.kind == Emitted && |e.lineage| > 1
      ensures Heard(registry, log + Rows(step), e.message) || EmissionInLatestStep(log + Rows(step), e.lineage, e)
    {
      if e !in log {
        OnlyWorkersSuspend(log, step, e);
        WorkIsAllowed(log, step);
        NewEmissionIsInLatestStep(log, step.run, step.emissions, step.row, e);
      } else if Heard(registry, log, e.message) {
        HeardStays(registry, log, Rows(step), e.message);
      } else {
        assert Row(log, e);
        OnlyOwnWorkMoves(log, step, e.lineage);
        LatestEmissionUnmoved(log, Rows(step), e);
      }
    }
  }

  lemma WorkIsAllowed(log: Log, step: LogStep)
    requires Allowed(log, step) && step.Work?
    ensures WorkAllowed(log, step.run, step.emissions, step.row) && step.row.kind != Emitted
  {}

  lemma SameLatestEmission(log: Log, run: Event, view: Log, e: Event)
    requires view <= log && OwnRowsSeen(log, run, view) && EmissionInLatestStep(log, run.lineage, e)
    ensures EmissionInLatestStep(view, run.lineage, e)
  {
    var u :| u in log && IsLatestSuspended(log, run.lineage, u) && InWindow(log, e, u.createdAt);
    assert u in view && e in view;
    assert forall d :: d in view ==> d in log;
  }

  lemma WindowsKeptApart(log: Log, run: Event, view: Log, e: Event)
    requires WindowsUnmixed(log) && view <= log && OwnRowsSeen(log, run, view) && |run.lineage| > 1
    requires EmissionInLatestStep(log, run.lineage, e)
    ensures !RollbackEmissionsPresent(view, run.lineage)
  {
    if r :| r in view && RollbackEmissionInLatestStep(view, run.lineage, r) {
      var u :| u in log && IsLatestSuspended(log, run.lineage, u) && InWindow(log, e, u.createdAt);
      var v :| v in view && IsLatestSuspended(view, run.lineage, v) && InWindow(view, r, v.createdAt);
      assert Row(log, e) && Row(log, r) && u in view;
      var mid :| SuspensionBetween(log, run.lineage, e.createdAt, r.createdAt, mid)
                 || SuspensionBetween(log, run.lineage, r.createdAt, e.createdAt, mid);
      assert false;
    }
  }

  lemma EmissionIsThere(log: Log, run: Lineage, e: Event)
    requires EmissionInLatestStep(log, run, e)
    ensures e in log
  {}

  /** A forward read that is not told of a cancellation waits for all handlers of the latest step. */
  lemma ReadyMeansHeard(registry: Registry, log: Log, view: Log, stamped: set<Lineage>, coroutine: string,
                        strategy: Strategy, run: Event, e: Event)
    requires WindowsUnmixed(log) && view <= log && OwnRowsSeen(log, run, view) && |run.lineage| > 1 && Uncancelled(log)
    requires IsStandard(strategy, registry) && Ready(view, stamped, coroutine, run, strategy)
    requires EmissionInLatestStep(log, run.lineage, e)
    ensures Heard(registry, log, e.message)
  {
    hide EmissionInLatestStep, WindowsUnmixed, OwnRowsSeen, RollbackEmissionsPresent;
    SameLatestEmission(log, run, view, e);
    WindowsKeptApart(log, run, view, e);
    assert forall c :: c in view ==> c in log;
    assert !SomeCandidateCancelled(view, stamped, coroutine);
    EmissionIsThere(view, run.lineage, e);
    forall handler | Registered(registry, e.message, handler) ensures !NoRunOf(log, e.message, handler) {
      NoSeenMissing(registry, view, stamped, coroutine, run, e, handler);
    }
  }

  lemma ActionKeepsHeard(env: Env, s: State, a: Action, s': State)
    requires SystemInv(s) && Next(s, a, s') && ReadersFoundReady(env.registry, s)
    requires EmissionsHeard(env.registry, s.log) && Uncancelled(s.log)
    ensures EmissionsHeard(env.registry, s'.log)
  {
    hide Structure, RunsFollowAutomaton, EmissionsClosed, WindowsUnmixed, FinishingRowsLast, OpenChildrenAwaited,
      AskedRunsAtRest, LocksExclusive, SettledEarned, EmissionsHeard, Heard, Allowed, Ready, WorkShape, IsStandard,
      OwnRowsSeen, Resumable, SelectedBy, Unsettled, Uncancelled, OthersLeftAlone, EmissionInLatestStep;
    ActionIsAStep(s, a, s');
    if a.Write? {
      var Resuming(run, view, stamped) := s.workers[a.worker];
      assert WorkerSound(s.log, s.workers[a.worker]) && ReadyWhenRead(env.registry, s.workers[a.worker]);
      var coroutine, strategy :| IsStandard(strategy, env.registry) && Ready(view, stamped, coroutine, run, strategy);
      AllOwnHeard(env.registry, s.log, view, stamped, coroutine, strategy, run);
    }
    if StepOf(s, a).Some? {
      StepKeepsHeard(env.registry, s.log, StepOf(s, a).value);
    }
  }

  lemma AllOwnHeard(registry: Registry, log: Log, view: Log, stamped: set<Lineage>, coroutine: string, strategy: Strategy,
                    run: Event)
    requires Inv(log) && view <= log && OwnRowsSeen(log, run, view) && run in log && run.kind == Seen && Uncancelled(log)
    requires IsStandard(strategy, registry) && Ready(view, stamped, coroutine, run, strategy) && EmissionsHeard(registry, log)
    ensures forall e :: e in log && e.kind == Emitted && e.lineage == run.lineage ==> Heard(registry, log, e.message)
  {
    hide Structure, RunsFollowAutomaton, EmissionsClosed, WindowsUnmixed, FinishingRowsLast, OpenChildrenAwaited,
      AskedRunsAtRest, Heard, Ready, IsStandard, OwnRowsSeen, Uncancelled, EmissionInLatestStep;
    RunIsDeep(log, run);
    forall e | e in log && e.kind == Emitted && e.lineage == run.lineage ensures Heard(registry, log, e.message) {
      assert Row(log, e);
      if !Heard(registry, log, e.message) {
        ReadyMeansHeard(registry, log, view, stamped, coroutine, strategy, run, e);
      }
    }
  }

  lemma {:induction false} EmissionsHeardInTrace(env: Env, states: seq<State>, actions: seq<Action>, choices: seq<Choice>,
                                                 i: nat)
    requires SagaTrace(env, states, actions, choices) && i < |states| && Uncancelled(states[i].log)
    ensures EmissionsHeard(env.registry, states[i].log)
  {
    hide SystemInv, ReadersFoundReady, Next, Disciplined, EmissionsHeard;
    if i == 0 {
      NothingHeardYet(env.registry);
    } else {
      LogsOnlyGrow(states, actions, i - 1, i);
      assert forall c :: c in states[i - 1].log ==> c in states[i].log;
      EmissionsHeardInTrace(env, states, actions, choices, i - 1);
      TraceKeepsSystem(states, actions, i - 1);
      ReadersFoundReadyInTrace(env, states, actions, choices, i - 1);
      ActionKeepsHeard(env, states[i - 1], actions[i - 1], states[i]);
    }
  }

  lemma NothingHeardYet(registry: Registry)
    ensures EmissionsHeard(registry, EMPTY.log)
  {}

  /** As long as nothing has been cancelled, nobody is stranded. */
  lemma OnlyCancellationStrands(env: Env, states: seq<State>, actions: seq<Action>, choices: seq<Choice>, i: nat, run: Event,
                                r: Event, handler: string)
    requires SagaTrace(env, states, actions, choices) && i < |states|
    requires Stranded(env.registry, states[i].log, run, r, handler)
    ensures exists c :: c in states[i].log && c.kind == CancellationRequested
  {
    hide Inv, LocksExclusive, SettledEarned, WorkerSound, SeenKept, RequestsFollowEmissions, RequestsAnswered, WorkersKnow,
      EmissionsHeard, Trace, Disciplined;
    if Uncancelled(states[i].log) {
      TraceKeepsSystem(states, actions, i);
      TraceKeepsTree(env, states, actions, choices, i);
      EmissionsHeardInTrace(env, states, actions, choices, i);
      HeardIsNotStranded(env.registry, states[i].log, run, r, handler);
    }
  }

  lemma HeardIsNotStranded(registry: Registry, log: Log, run: Event, r: Event, handler: string)
    requires Inv(log) && RequestsFollowEmissions(log) && EmissionsHeard(registry, log)
    ensures !Stranded(registry, log, run, r, handler)
  {
    hide Structure, RunsFollowAutomaton, EmissionsClosed, FinishingRowsLast, OpenChildrenAwaited, AskedRunsAtRest;
    if Stranded(registry, log, run, r, handler) {
      RunIsDeep(log, run);
      assert Row(log, r);
      var e :| e in log && e.kind == Emitted && e.lineage == r.lineage && e.message == r.message && e.createdAt < r.createdAt;
      assert Row(log, e);
      var mid :| SuspensionBetween(log, e.lineage, e.createdAt, r.createdAt, mid)
                 || SuspensionBetween(log, e.lineage, r.createdAt, e.createdAt, mid);
    }
  }
}
