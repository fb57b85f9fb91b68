/**
 What a cancellation request does, where no deadline passes.  The checks before and after a step ask for it only while the run
 goes forward.  The queries ask for it wherever a run's latest step made no rollback request, which a rolling run's may not
 have; where it has, nothing but a missed deadline gives up.
 */
module Cancellation {
  import opened Options
  import opened EventLog
  import opened Readiness
  import opened Protocol
  import opened Workers
  import opened Safety
  import opened StandardStrategy
  import opened RunRows
  import opened RunHistory
  import opened TreeRollback
  import opened RunLives
  import opened RollbackStart
  import opened Continuation
  import Saga
  import SagaProofs

  // ---------------------------------------------------------------- give-up checks

  /** A forward give-up check that reads this log: it finds the requests there are, or fails to read. */
  ghost predicate Checked(log: Log, run: Event, check: GiveUp) {
    check.Unknown? || (check.GaveUp? <==> CancellationSeen(log, run))
  }

  /** The two checks of a tick read the log between the second read and the commit, one after the other. */
  ghost predicate ChecksRead(view: Log, first: Log, second: Log, log: Log, run: Event, choice: Choice) {
    view <= first <= second <= log && Checked(first, run, choice.before) && Checked(second, run, choice.after)
  }

  ghost predicate ChecksOf(view: Log, log: Log, run: Event, choice: Choice) {
    if Has(view, RollingBack, run.lineage) then !choice.before.GaveUp? && !choice.after.GaveUp?
    else exists first, second :: ChecksRead(view, first, second, log, run, choice)
  }

  /** A saga trace in which runs give up for a cancellation request only. */
  ghost predicate NoDeadlines(env: Env, states: seq<State>, actions: seq<Action>, choices: seq<Choice>) {
    && SagaTrace(env, states, actions, choices)
    && forall i :: 0 <= i < |actions| && actions[i].Write? ==> ChecksAt(states[i], actions[i], choices[i])
  }

  ghost predicate ChecksAt(s: State, a: Action, choice: Choice) {
    a.Write? && a.worker in s.workers && s.workers[a.worker].Resuming?
    && ChecksOf(s.workers[a.worker].view, s.log, s.workers[a.worker].run, choice)
  }

  /** Checks that answer what the log says are such checks, and so are checks that fail to find out. */
  lemma HonestChecks(view: Log, log: Log, run: Event, user: Call -> Outcome)
    requires view <= log
    ensures var honest := if Has(view, RollingBack, run.lineage) || !CancellationSeen(view, run) then CarryOn else GaveUp;
            ChecksOf(view, log, run, Choice(user, honest, honest)) && ChecksOf(view, log, run, Choice(user, Unknown, Unknown))
  {
    hide CancellationSeen;
    var honest := if Has(view, RollingBack, run.lineage) || !CancellationSeen(view, run) then CarryOn else GaveUp;
    if !Has(view, RollingBack, run.lineage) {
      assert ChecksRead(view, view, view, log, run, Choice(user, honest, honest));
      assert ChecksRead(view, view, view, log, run, Choice(user, Unknown, Unknown));
    }
  }

  /** Where nothing is cancelled and nobody gives up, every saga trace is one without deadlines. */
  lemma NothingCancelledIsNoDeadlines(env: Env, states: seq<State>, actions: seq<Action>, choices: seq<Choice>)
    requires SagaTrace(env, states, actions, choices)
    requires forall i :: 0 <= i < |choices| ==> choices[i].before == choices[i].after == CarryOn
    requires forall c :: c in states[|actions|].log ==> c.kind != CancellationRequested
    ensures NoDeadlines(env, states, actions, choices)
  {
    hide Inv, LocksExclusive, SettledEarned, CancellationSeen, WritesTick, Apply, ChecksOf, OwnRowsSeen, Resumable, SelectedBy;
    forall i | 0 <= i < |actions| && actions[i].Write? ensures ChecksAt(states[i], actions[i], choices[i]) {
      TraceKeepsSystem(states, actions, i);
      LogsOnlyGrow(states, actions, i, |actions|);
      var Resuming(run, view, _) := states[i].workers[actions[i].worker];
      assert WorkerSound(states[i].log, states[i].workers[actions[i].worker]);
      assert forall c :: c in view ==> c in states[|actions|].log;
      NothingSeen(view, run);
      HonestChecks(view, states[i].log, run, choices[i].user);
    }
  }

  lemma NothingSeen(log: Log, run: Event)
    requires forall c :: c in log ==> c.kind != CancellationRequested
    ensures !CancellationSeen(log, run)
  {}

  // ---------------------------------------------------------------- ticks

  /** A forward tick that gives up, before its step or after it, or cannot find out, writes ROLLING_BACK or nothing. */
  lemma GivingUpTick(saga: Saga.Definition, rows: seq<Saga.Suspended>, failures: Saga.Failures, user: Call -> Outcome,
                     before: GiveUp, after: GiveUp, at: int)
    requires !failures.rollingBack && !(before.CarryOn? && after.CarryOn?)
    ensures var tick := Saga.TickOf(saga, rows, failures, user, before, after, at);
            tick.WroteRollingBack? || tick.Nothing?
  {
    hide Saga.Prepare, CallFor, Saga.NextStepColumn;
  }

  /** User code that returns, and nothing to give up for: the run goes on. */
  lemma CarryingOnTick(saga: Saga.Definition, rows: seq<Saga.Suspended>, failures: Saga.Failures, user: Call -> Outcome,
                       before: GiveUp, after: GiveUp, at: int)
    requires !failures.rollingBack && SagaProofs.Returns(saga, user)
    requires !before.GaveUp? && !after.GaveUp?
    ensures !Saga.TickOf(saga, rows, failures, user, before, after, at).WroteRollingBack?
  {
    hide Saga.Prepare, CallFor, Saga.NextStepColumn;
  }

  // ---------------------------------------------------------------- one write

  lemma SeenStays(log: Log, later: Log, run: Event)
    requires log <= later && CancellationSeen(log, run)
    ensures CancellationSeen(later, run)
  {
    var c :| c in log && c.kind == CancellationRequested && ContainedIn(c.lineage, run.lineage);
    assert c in later;
  }

  lemma CancelledWrite(env: Env, log: Log, run: Event, view: Log, settled: set<Lineage>, choice: Choice,
                       emissions: seq<Event>, row: Event)
    requires WritesTick(env, log, run, view, settled, choice, emissions, row)
    requires !Has(view, RollingBack, run.lineage) && ChecksOf(view, log, run, choice)
    ensures run.coroutine.Some? && (CancellationSeen(view, run) ==> row.kind == RollingBack)
    ensures SagaProofs.Returns(env.sagas(run.coroutine.value), choice.user) && row.kind == RollingBack
            ==> CancellationSeen(log, run)
  {
    hide Saga.TickOf, CancellationSeen, ChildHasRolledBack, FailedRollbackReported, RowsOf, WritesOf, EntryRun,
      SagaProofs.Returns;
    var saga, rows := env.sagas(run.coroutine.value), RowsOf(view, run.lineage);
    var failures := FailuresOf(view, settled, run.coroutine.value, run.lineage);
    var first, second :| ChecksRead(view, first, second, log, run, choice);
    if CancellationSeen(view, run) {
      SeenStays(view, first, run);
      GivingUpTick(saga, rows, failures, choice.user, choice.before, choice.after, row.createdAt);
    }
    if SagaProofs.Returns(saga, choice.user) && row.kind == RollingBack {
      if !choice.before.GaveUp? && !choice.after.GaveUp? {
        CarryingOnTick(saga, rows, failures, choice.user, choice.before, choice.after, row.createdAt);
        assert false;
      }
      if choice.before.GaveUp? { SeenStays(first, log, run); } else { SeenStays(second, log, run); }
    }
  }

  /**
   Going forward, in every trace: a run whose scope, or one above it, was cancelled before its second read writes ROLLING_BACK
   and nothing else; and if its own code does not throw, it does so only if a request is there at the commit.
   */
  lemma CancelledRunRollsBack(env: Env, states: seq<State>, actions: seq<Action>, choices: seq<Choice>, i: nat)
    requires NoDeadlines(env, states, actions, choices) && i < |actions| && actions[i].Write?
    requires var Resuming(run, view, _) := states[i].workers[actions[i].worker]; !Has(view, RollingBack, run.lineage)
    ensures var Resuming(run, view, _) := states[i].workers[actions[i].worker];
            && (CancellationSeen(view, run) ==> actions[i].row.kind == RollingBack)
            && run.coroutine.Some?
            && (actions[i].row.kind == RollingBack && SagaProofs.Returns(env.sagas(run.coroutine.value), choices[i].user)
                ==> CancellationSeen(states[i].log, run))
  {
    hide Apply, WritesTick, ChecksOf, CancellationSeen, SagaProofs.Returns;
    assert Disciplined(env, states[i], actions[i], choices[i]) && ChecksAt(states[i], actions[i], choices[i]);
    var Resuming(run, view, stamped) := states[i].workers[actions[i].worker];
    CancelledWrite(env, states[i].log, run, view, stamped, choices[i], actions[i].emissions, actions[i].row);
  }

  // ---------------------------------------------------------------- readiness

  /** The strategy lets a cancelled run go at once, forward; what it still waits for is that its children are over. */
  lemma CancelledRunWaitsForChildrenOnly(log: Log, settled: set<Lineage>, coroutine: string, run: Event,
                                         strategy: Strategy, registry: Registry)
    requires IsStandard(strategy, registry) && Candidate(log, settled, coroutine, run) && CancellationSeen(log, run)
    requires !RollbackEmissionsPresent(log, run.lineage)
    ensures Ready(log, settled, coroutine, run, strategy) <==> AllChildSeensTerminated(log, run.lineage)
  {
    hide CancellationSeen, AllChildSeensTerminated, RollbackEmissionsPresent;
    assert SomeCandidateCancelled(log, settled, coroutine);
  }

  // ---------------------------------------------------------------- from a request on

  /** Whoever is resuming this run has read the log after the request. */
  ghost predicate ResumersKnow(s: State, run: Event) {
    forall w :: w in s.workers && s.workers[w].Resuming? && s.workers[w].run == run
                ==> CancellationSeen(s.workers[w].view, run)
  }

  lemma ResumersKeepKnowing(s: State, a: Action, run: Event)
    requires Enabled(s, a) && ResumersKnow(s, run) && CancellationSeen(s.log, run)
    ensures ResumersKnow(Apply(s, a), run)
  {
    hide CancellationSeen, Ready, WorkShape, Allowed;
  }

  lemma {:induction false} ResumersKnowAlong(states: seq<State>, actions: seq<Action>, i: nat, k: nat, run: Event)
    requires Trace(states, actions) && i <= k < |states|
    requires ResumersKnow(states[i], run) && CancellationSeen(states[i].log, run)
    ensures ResumersKnow(states[k], run) && CancellationSeen(states[k].log, run)
  {
    hide Enabled, Apply, ResumersKnow, CancellationSeen;
    if i < k {
      ResumersKnowAlong(states, actions, i, k - 1, run);
      LogsOnlyGrow(states, actions, k - 1, k);
      SeenStays(states[k - 1].log, states[k].log, run);
      ResumersKeepKnowing(states[k - 1], actions[k - 1], run);
    }
  }

  /** Whatever is written about the run, it neither executes a step nor commits. */
  ghost predicate Halts(move: Option<Move>) {
    move.Some? && !move.value.rolling ==> move.value.row.kind == RollingBack
  }

  lemma {:induction false} HaltedLife(saga: Saga.Definition, logs: seq<Log>, moves: seq<Option<Move>>, run: Lineage, i: nat,
                                      j: nat)
    requires Life(saga, logs, moves, run) && i <= j < |logs| && forall k :: i <= k < j ==> Halts(moves[k])
    ensures StoodStill(saga, logs[i], logs[j], run)
  {
    hide RowsOf, ForwardPart, MovesBack, MovesOn;
    if i < j {
      HaltedLife(saga, logs, moves, run, i, j - 1);
      assert Moves(saga, logs[j - 1], logs[j], run, moves[j - 1]);
      if moves[j - 1].Some? {
        RollingMoveStandsStill(saga, logs[j - 1], logs[j], run, moves[j - 1]);
      }
    }
  }

  /**
   From the moment a scope is cancelled, no run at or below it that nobody is resuming just then, and none that starts later,
   executes another step or commits, whatever its code does.  What it has done so far is all its rollback has to undo.
   */
  lemma CancelledScopeStandsStill(env: Env, states: seq<State>, actions: seq<Action>, choices: seq<Choice>, i: nat, j: nat,
                                  scope: Lineage, run: Event)
    requires NoDeadlines(env, states, actions, choices) && i <= j < |states|
    requires Has(states[i].log, CancellationRequested, scope) && scope <= run.lineage
    requires run in states[j].log && run.kind == Seen && run.coroutine.Some?
    requires forall w :: w in states[i].workers && states[i].workers[w].Resuming? ==> states[i].workers[w].run != run
    ensures StoodStill(env.sagas(run.coroutine.value), states[i].log, states[j].log, run.lineage)
  {
    hide Trace, Disciplined, RowsOf, ForwardPart, ChecksAt, StoodStill, Life, CancellationSeen, FailedRollbackReported;
    ScopeIsSeen(states[i].log, scope, run);
    TraceIsLife(env, states, actions, choices, j, run);
    forall k | i <= k < j ensures Halts(MoveOf(states[k], actions[k], run)) {
      ResumersKnowAlong(states, actions, i, k, run);
      if actions[k].Write? && MoveOf(states[k], actions[k], run).Some? && !MoveOf(states[k], actions[k], run).value.rolling {
        CancelledRunRollsBack(env, states, actions, choices, k);
      }
    }
    HaltedLife(env.sagas(run.coroutine.value), Logs(states), MovesOf(states, actions, run), run.lineage, i, j);
  }

  lemma ScopeIsSeen(log: Log, scope: Lineage, run: Event)
    requires Has(log, CancellationRequested, scope) && scope <= run.lineage
    ensures CancellationSeen(log, run)
  {
    var c :| c in log && c.kind == CancellationRequested && c.lineage == scope;
    assert forall x :: x in scope ==> x in run.lineage;
  }
}
