/** What ROLLED_BACK means, in every saga trace: for the run's own children, and for the whole tree below it. */
module TreeTheorems {
  import opened Options
  import opened EventLog
  import opened Readiness
  import opened Protocol
  import opened Workers
  import opened Windows
  import opened StandardStrategy
  import opened Repository
  import opened RollbackPlan
  import opened RunRows
  import opened RunHistory
  import opened TreeRollback
  import opened RunLives
  import opened RollbackStart
  import opened Safety
  import Saga
  import SagaProofs

  /** Emitted by a tick that ran a step of the saga, not by one of its rollback. */
  ghost predicate ForwardEmission(saga: Saga.Definition, log: Log, run: Lineage, e: Event) {
    e in log && exists u :: u in log && u.kind == Suspended && u.lineage == run && u.step.Some?
                            && u.step.value in saga.steps && InStep(log, e, run, u.createdAt)
  }

  lemma ForwardEmissionsWindow(saga: Saga.Definition, log: Log, run: Lineage, e: Event) returns (k: nat)
    requires Sound(saga, RowsOf(log, run)) && ForwardEmission(saga, log, run, e)
    ensures k < |ForwardPart(saga, RowsOf(log, run))|
    ensures InStep(log, e, run, ForwardPart(saga, RowsOf(log, run))[k].at)
  {
    var u :| u in log && u.kind == Suspended && u.lineage == run && u.step.Some?
             && u.step.value in saga.steps && InStep(log, e, run, u.createdAt);
    var n :| 0 <= n < |log| && log[n] == u;
    var rows := RowsOf(log, run);
    var i := SuspensionIsARow(log, run, n);
    var done := RollbackPart(saga, rows);
    if i < |done| {
      SyntheticIsNoStep(saga, done[i].step);
    }
    k := i - |done|;
  }

  lemma StepsWindowIsForward(saga: Saga.Definition, log: Log, run: Lineage, e: Event, i: nat)
    requires i < |RowsOf(log, run)| && RowsOf(log, run)[i].step in saga.steps
    requires e in log && InStep(log, e, run, RowsOf(log, run)[i].at)
    ensures ForwardEmission(saga, log, run, e)
  {
    var n := RowIsInLog(log, run, i);
    assert log[n] in log;
  }

  lemma WindowIsForward(saga: Saga.Definition, log: Log, run: Lineage, e: Event, k: nat)
    requires SagaProofs.ForwardRows(saga, ForwardPart(saga, RowsOf(log, run)))
    requires k < |ForwardPart(saga, RowsOf(log, run))|
    requires e in log && InStep(log, e, run, ForwardPart(saga, RowsOf(log, run))[k].at)
    ensures ForwardEmission(saga, log, run, e)
  {
    hide ForwardPart, InStep;
    var i := ForwardPartAt(saga, RowsOf(log, run), k);
    StepsWindowIsForward(saga, log, run, e, i);
  }

  /** The latest step of the forward path emitted nothing. */
  ghost predicate LatestStepSilent(saga: Saga.Definition, log: Log, run: Lineage) {
    var part := ForwardPart(saga, RowsOf(log, run));
    part == [] || forall e :: e in log ==> !InStep(log, e, run, part[0].at)
  }

  ghost predicate EverythingAsked(saga: Saga.Definition, log: Log, run: Lineage) {
    forall e :: ForwardEmission(saga, log, run, e) ==> RequestedBy(log, run, e.message)
  }

  /** A rollback that went through entries `from` to the end asked every window but, if it skipped entry 0, the first. */
  lemma AskedThroughThePlan(saga: Saga.Definition, log: Log, run: Lineage, plan: seq<PlanStep>, from: nat, e: Event)
    requires Sound(saga, RowsOf(log, run)) && plan == PlanFor(saga, RowsOf(log, run))
    requires from <= 1 && from <= |plan| && EntriesAsked(log, run, plan, from, |plan|)
    requires ForwardEmission(saga, log, run, e) && (from == 1 ==> LatestStepSilent(saga, log, run))
    ensures RequestedBy(log, run, e.message)
  {
    var k := ForwardEmissionsWindow(saga, log, run, e);
    var j := EntryOfWindow(saga, log, run, plan, k);
    assert StepAsked(log, run, plan[j].instance.suspendedAt);
  }

  /** The entry that asks the window of the k-th latest execution; the first entry asks the latest. */
  lemma EntryOfWindow(saga: Saga.Definition, log: Log, run: Lineage, plan: seq<PlanStep>, k: nat) returns (j: nat)
    requires plan == PlanFor(saga, RowsOf(log, run)) && k < |ForwardPart(saga, RowsOf(log, run))|
    ensures j < |plan| && !plan[j].own && (k == 0 <==> j == 0)
    ensures plan[j].instance.suspendedAt == ForwardPart(saga, RowsOf(log, run))[k].at
  {
    j := ChildEntryOf(Saga.Prefix(saga), Saga.Suffix(saga), Saga.Executed(ForwardPart(saga, RowsOf(log, run))), k);
  }

  lemma SkippedStepNotAsked(saga: Saga.Definition, log: Log, run: Lineage, plan: seq<PlanStep>, e: Event)
    requires Sound(saga, RowsOf(log, run)) && plan == PlanFor(saga, RowsOf(log, run)) && plan != []
    requires StepNotAsked(log, run, plan[0].instance.suspendedAt)
    requires ForwardPart(saga, RowsOf(log, run)) != []
    requires e in log && InStep(log, e, run, ForwardPart(saga, RowsOf(log, run))[0].at)
    ensures ForwardEmission(saga, log, run, e) && !RequestedBy(log, run, e.message)
  {
    WindowIsForward(saga, log, run, e, 0);
    var j := EntryOfWindow(saga, log, run, plan, 0);
  }

  lemma AskedIffOfKept(saga: Saga.Definition, log: Log, run: Lineage)
    requires RunKept(saga, log, run)
    requires Standing(saga, RowsOf(log, run), PlanFor(saga, RowsOf(log, run)))
             == Some(|PlanFor(saga, RowsOf(log, run))|)
    ensures EverythingAsked(saga, log, run)
            <==> CleanStart(saga, RowsOf(log, run)) || LatestStepSilent(saga, log, run)
  {
    var rows := RowsOf(log, run);
    var plan, from := PlanFor(saga, rows), FirstRun(saga, rows);
    if plan == [] {
      NothingForward(saga, log, run);
    } else if from == 0 || LatestStepSilent(saga, log, run) {
      forall e | ForwardEmission(saga, log, run, e) ensures RequestedBy(log, run, e.message) {
        AskedThroughThePlan(saga, log, run, plan, from, e);
      }
    } else {
      var e :| e in log && InStep(log, e, run, ForwardPart(saga, rows)[0].at);
      SkippedStepNotAsked(saga, log, run, plan, e);
    }
  }

  lemma NothingForward(saga: Saga.Definition, log: Log, run: Lineage)
    requires Sound(saga, RowsOf(log, run)) && PlanFor(saga, RowsOf(log, run)) == []
    ensures forall e :: !ForwardEmission(saga, log, run, e)
    ensures LatestStepSilent(saga, log, run)
  {
    forall e | ForwardEmission(saga, log, run, e) ensures false {
      var k := ForwardEmissionsWindow(saga, log, run, e);
    }
  }

  // ---------------------------------------------------------------- one run

  /** No run is both ROLLED_BACK and ROLLBACK_FAILED. */
  lemma EndsOnce(states: seq<State>, actions: seq<Action>, i: nat, run: Lineage)
    requires Trace(states, actions) && i < |states| && Has(states[i].log, RolledBack, run)
    ensures !Has(states[i].log, RollbackFailed, run)
  {
    hide Trace;
    var log := states[i].log;
    if Has(log, RollbackFailed, run) {
      var e :| e in log && e.kind == RolledBack && e.lineage == run;
      var f :| f in log && f.kind == RollbackFailed && f.lineage == run;
      var j :| 0 <= j < |log| && log[j] == e;
      var k :| 0 <= k < |log| && log[k] == f;
      if j < k { RunsFollowOneLife(states, actions, i, j, k); } else { RunsFollowOneLife(states, actions, i, k, j); }
      assert false;
    }
  }

  /** The run resumes in rollback for the first time. */
  ghost predicate FirstRollbackResume(env: Env, s: State, a: Action, run: Event) {
    run.coroutine.Some? && StartsBack(env.sagas(run.coroutine.value), MoveOf(s, a, run))
  }

  /** When the run read the log for this resume, some candidate of its coroutine had a child in ROLLBACK_FAILED. */
  ghost predicate ToldOfFailure(s: State, a: Action, run: Event) {
    MoveOf(s, a, run).Some? && MoveOf(s, a, run).value.told
  }

  /** Whenever it was that this run first resumed in rollback, no candidate of its coroutine had a failed child rollback. */
  ghost predicate StartedUntold(env: Env, states: seq<State>, actions: seq<Action>, i: nat, run: Event)
    requires i <= |actions| <= |states|
  {
    forall w :: 0 <= w < i && FirstRollbackResume(env, states[w], actions[w], run)
                ==> !ToldOfFailure(states[w], actions[w], run)
  }

  /**
   A run that is ROLLED_BACK has asked every emission of its forward path to roll back exactly if no candidate of its
   coroutine had a failed child rollback when the run first resumed in rollback, or the latest step emitted nothing.  There
   always is such a resume.
   */
  lemma EverythingAskedIff(env: Env, states: seq<State>, actions: seq<Action>, choices: seq<Choice>, i: nat, run: Event)
    returns (w: nat)
    requires RanInTrace(env, states, actions, choices, i, run) && Has(states[i].log, RolledBack, run.lineage)
    ensures w < i && FirstRollbackResume(env, states[w], actions[w], run)
    ensures StartedUntold(env, states, actions, i, run) <==> !ToldOfFailure(states[w], actions[w], run)
    ensures EverythingAsked(env.sagas(run.coroutine.value), states[i].log, run.lineage)
            <==> !ToldOfFailure(states[w], actions[w], run)
                 || LatestStepSilent(env.sagas(run.coroutine.value), states[i].log, run.lineage)
  {
    hide SagaTrace, Life, RunKept, EverythingAsked, LatestStepSilent, RowsOf, MoveOf, RollbackPart, PlanFor, CleanStart;
    TraceIsLife(env, states, actions, choices, i, run);
    var saga, logs, moves := env.sagas(run.coroutine.value), Logs(states), MovesOf(states, actions, run);
    w := RollbackHadAFirstResume(saga, logs, moves, run.lineage, i);
    forall v | 0 <= v < i && FirstRollbackResume(env, states[v], actions[v], run)
      ensures !ToldOfFailure(states[v], actions[v], run) <==> StartedCleanly(saga, logs[i], run.lineage)
    {
      CleanIffUntold(saga, logs, moves, run.lineage, v, i);
    }
    RunIsKept(env, states, actions, choices, i, run);
    AskedIffOfKept(saga, states[i].log, run.lineage);
  }

  /** Whatever a ROLLED_BACK run asked, every run of that message is ROLLED_BACK: none failed, none is still open. */
  lemma AskedRunsAreRolledBack(env: Env, states: seq<State>, actions: seq<Action>, choices: seq<Choice>, i: nat,
                               run: Event, child: Event)
    requires RanInTrace(env, states, actions, choices, i, run) && Has(states[i].log, RolledBack, run.lineage)
    requires child in states[i].log && child.kind == Seen && RequestedBy(states[i].log, run.lineage, child.message)
    ensures Has(states[i].log, RolledBack, child.lineage)
  {
    RunIsKept(env, states, actions, choices, i, run);
  }

  ghost predicate IsRequest(log: Log, run: Lineage, message: Id, k: nat) {
    k < |log| && log[k].kind == RollbackEmitted && log[k].lineage == run && log[k].message == message
  }

  /** A complete rollback writes ROLLBACK_EMITTED exactly once for every emission of the forward path. */
  lemma EveryEmissionAskedExactlyOnce(env: Env, states: seq<State>, actions: seq<Action>, choices: seq<Choice>, i: nat,
                                      run: Event, e: Event) returns (k: nat)
    requires RanInTrace(env, states, actions, choices, i, run) && Has(states[i].log, RolledBack, run.lineage)
    requires StartedUntold(env, states, actions, i, run)
             || LatestStepSilent(env.sagas(run.coroutine.value), states[i].log, run.lineage)
    requires ForwardEmission(env.sagas(run.coroutine.value), states[i].log, run.lineage, e)
    ensures IsRequest(states[i].log, run.lineage, e.message, k)
    ensures forall j :: 0 <= j < |states[i].log| && j != k && states[i].log[j].kind == RollbackEmitted
                        ==> states[i].log[j].message != e.message
  {
    hide ForwardEmission, LatestStepSilent, StartedUntold, ToldOfFailure, FirstRollbackResume;
    var w := EverythingAskedIff(env, states, actions, choices, i, run);
    EachMessageIsAskedOnce(states, actions, i);
    k := OneRequest(states[i].log, run.lineage, e.message);
  }

  lemma OneRequest(log: Log, run: Lineage, message: Id) returns (k: nat)
    requires RequestedBy(log, run, message) && OncePerMessage(log, RollbackEmitted)
    ensures IsRequest(log, run, message, k)
    ensures forall j :: 0 <= j < |log| && j != k && log[j].kind == RollbackEmitted ==> log[j].message != message
  {
    var r :| r in log && r.kind == RollbackEmitted && r.lineage == run && r.message == message;
    k :| 0 <= k < |log| && log[k] == r;
  }

  // ---------------------------------------------------------------- the whole tree

  /** `child` ran because of a message `parent` emitted on its forward path. */
  ghost predicate ForwardChild(env: Env, log: Log, parent: Event, child: Event) {
    parent.coroutine.Some?
    && exists e :: ForwardEmission(env.sagas(parent.coroutine.value), log, parent.lineage, e) && e.message == child.message
  }

  /** A path down the tree of runs along forward emissions, through runs whose rollback left out no entry that matters. */
  ghost predicate ForwardPath(env: Env, states: seq<State>, actions: seq<Action>, i: nat, path: seq<Event>)
    requires i <= |actions| < |states|
  {
    && path != []
    && (forall k :: 0 <= k < |path|
          ==> path[k] in states[i].log && path[k].kind == Seen && path[k].coroutine.Some?)
    && (forall k :: 0 <= k < |path| - 1 ==>
          ForwardChild(env, states[i].log, path[k], path[k + 1])
          && (StartedUntold(env, states, actions, i, path[k])
              || LatestStepSilent(env.sagas(path[k].coroutine.value), states[i].log, path[k].lineage)))
  }

  /**
   Rolling back a run rolls back everything its forward path set off, at any depth: as long as no candidate of a rolling
   run's coroutine has a failed child rollback when that run first resumes in rollback.
   */
  lemma {:induction false} WholeTreeIsRolledBack(env: Env, states: seq<State>, actions: seq<Action>, choices: seq<Choice>,
                                                 i: nat, path: seq<Event>)
    requires SagaTrace(env, states, actions, choices) && i < |states| && ForwardPath(env, states, actions, i, path)
    requires Has(states[i].log, RolledBack, path[0].lineage)
    ensures forall k :: 0 <= k < |path| ==> Has(states[i].log, RolledBack, path[k].lineage)
    decreases |path|
  {
    hide SagaTrace, ForwardEmission, StartedUntold, LatestStepSilent, ToldOfFailure, FirstRollbackResume;
    if |path| > 1 {
      var w := EverythingAskedIff(env, states, actions, choices, i, path[0]);
      AskedRunsAreRolledBack(env, states, actions, choices, i, path[0], path[1]);
      WholeTreeIsRolledBack(env, states, actions, choices, i, path[1..]);
      assert forall k :: 0 < k < |path| ==> path[k] == path[1..][k - 1];
    }
  }
}
