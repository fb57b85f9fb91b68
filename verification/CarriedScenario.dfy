/**
 A third saga trace: a run is told once of another run's failed child, the other run ends, the report vanishes, and the run
 goes on under the handler iteration left behind.  Its rollback begins on the trace, and ends on no trace that continues it.
 */
module CarriedScenario {
  import opened Options
  import opened EventLog
  import opened Readiness
  import opened Protocol
  import opened Workers
  import opened RollbackPlan
  import opened RunRows
  import opened RunHistory
  import opened TreeRollback
  import opened RunLives
  import opened CollidingRuns
  import opened Stage
  import opened StageActions
  import opened Scenario
  import Saga

  /** The one step again, recorded under handler iteration 0: by the handler, or by the step itself later. */
  function Carried(at: int): Saga.Suspended {
    Saga.Suspended("A", Some(0), Some(0), at)
  }

  lemma CarriedTicks(at: int, t: int, u: int, v: int, told: Saga.Failures)
    ensures told.childRollbackFailed && !told.rollingBack
            ==> TickBy([Ran(false, t)], told, REPEATS, at) == Saga.WroteSuspended(Carried(at))
    ensures TickBy([Carried(u), Ran(false, t)], NOTHING, REPEATS, at) == Saga.WroteSuspended(Carried(at))
    ensures TickBy([Carried(v), Carried(u), Ran(false, t)], NOTHING, THROWS, at) == Saga.WroteRollingBack
  {}

  /** Two executions of one step under one handler iteration: their child rollbacks share a name. */
  lemma CarriedCollides(v: int, u: int, t: int)
    ensures !DistinctNames(PlanFor(SAGA, [Carried(v), Carried(u), Ran(false, t)]))
  {
    hide Plan, Confused, Saga.Prefix, Saga.Suffix, DistinctNames;
    var rows := [Carried(v), Carried(u), Ran(false, t)];
    StartsForward(SAGA, rows);
    assert Saga.Executed(rows) == CarriedHistory(v, u, t);
    CarriedIsConfused(v, u, t);
    ConfusedCollide(Saga.Prefix(SAGA), Saga.Suffix(SAGA), CarriedHistory(v, u, t), 0, 1);
  }

  function CarriedHistory(v: int, u: int, t: int): seq<Instance> {
    [Instance("A", Some(0), v), Instance("A", Some(0), u), Instance("A", None, t)]
  }

  lemma CarriedIsConfused(v: int, u: int, t: int)
    ensures Confused(CarriedHistory(v, u, t), 0, 1)
  {
    var history := CarriedHistory(v, u, t);
    assert history[1..] == [history[1], history[2]] && history[2..] == [history[2]];
    assert Runs([history[2]], "A") == 1;
    assert [history[1], history[2]][1..] == [history[2]];
    assert Runs([history[1], history[2]], "A") == 1;
  }

  // ---------------------------------------------------------------- the trace

  /** The first run has handled the report, and goes forward under its iteration. */
  ghost predicate Handled(f: Facts, t: int, v: int, e: Event) {
    && f.Of(First) == Working([Carried(v), Ran(false, t)], None).(sent := Some(e))
    && f.Of(ChildOfFirst).started && f.Of(ChildOfFirst).committed && !f.Of(ChildOfFirst).rolling
    && f.Of(ChildOfFirst).waitsFor.None? && f.settled == {LineageOf(ChildOfFirst)}
  }

  lemma FirstHandles(before: Facts, t: int, e: Event, u: int, d: Event) returns (f: Facts, v: int)
    requires Played(before) && ChildFailed(before, t, e, u, d)
    ensures Played(f) && Handled(f, t, v, e) && SecondHangs(f, u, d)
  {
    hide Played, Saga.TickOf, EntryRun;
    v := before.clock + 1;
    CarriedTicks(v, t, 0, 0, Told(before, First));
    f := RepeatsCarried(before, [Ran(false, t)]);
    assert [Carried(v)] + [Ran(false, t)] == [Carried(v), Ran(false, t)];
  }

  /** The first run suspends under the carried iteration. */
  lemma RepeatsCarried(before: Facts, rows: seq<Saga.Suspended>) returns (f: Facts)
    requires Played(before) && CanResume(before, First) && before.Of(First).rows == rows && !before.Of(First).rolling
    requires TickBy(rows, Told(before, First), REPEATS, before.clock + 1)
             == Saga.WroteSuspended(Carried(before.clock + 1))
    ensures Becomes(before, f, First, before.Of(First).(rows := [Carried(before.clock + 1)] + rows, waitsFor := None))
    ensures f.settled == before.settled
  {
    hide Played, CanResume, Saga.TickOf, EntryRun, Told;
    ToldRolling(before, First);
    NoEntryForward(rows, Told(before, First));
    f := SuspendsAs(before, First, Doing(REPEATS), Carried(before.clock + 1), []);
  }

  /** Nothing is reported any more: the step runs again, under the iteration its handler left, and then throws. */
  ghost predicate Rolls(f: Facts, t: int, v: int, w: int) {
    f.Of(First).started && f.Of(First).rolling && f.Of(First).rows == [Carried(w), Carried(v), Ran(false, t)]
  }

  /** No other run of the coroutine is a candidate any more. */
  ghost predicate NobodyElse(f: Facts) {
    && f.Of(Second).rolling && f.Of(Second).failed && f.Of(ChildOfSecond).waitsFor.None? && HandlerHasStarted(f, Second)
    && f.Of(ChildOfFirst).started && f.Of(ChildOfFirst).committed && !f.Of(ChildOfFirst).rolling
    && f.Of(ChildOfFirst).waitsFor.None? && f.settled == {LineageOf(ChildOfFirst)}
  }

  lemma NothingTold(f: Facts)
    requires NobodyElse(f) && f.Of(First).started && !f.Of(First).rolling && !f.Of(First).committed
    requires f.Of(First).waitsFor.None?
    ensures Told(f, First) == NOTHING && CanResume(f, First)
  {}

  lemma FirstRepeats(before: Facts, t: int, v: int, e: Event) returns (f: Facts, w: int)
    requires Played(before) && NobodyElse(before) && Handled(before, t, v, e)
    ensures Played(f) && NobodyElse(f)
    ensures f.Of(First) == before.Of(First).(rows := [Carried(w), Carried(v), Ran(false, t)])
  {
    hide Played, Saga.TickOf, CanResume, Told;
    NothingTold(before);
    w := before.clock + 1;
    CarriedTicks(w, t, v, 0, NOTHING);
    f := RepeatsCarried(before, [Carried(v), Ran(false, t)]);
    assert [Carried(w)] + [Carried(v), Ran(false, t)] == [Carried(w), Carried(v), Ran(false, t)];
  }

  lemma FirstThrows(before: Facts, t: int, v: int, w: int) returns (f: Facts)
    requires Played(before) && NobodyElse(before) && before.Of(First).rows == [Carried(w), Carried(v), Ran(false, t)]
    requires before.Of(First).started && !before.Of(First).rolling && !before.Of(First).committed
    requires before.Of(First).waitsFor.None?
    ensures Played(f) && Rolls(f, t, v, w)
  {
    hide Played, Saga.TickOf, CanResume, Told;
    NothingTold(before);
    CarriedTicks(before.clock + 1, t, v, w, NOTHING);
    f := Ends(before, First, RollingBack, THROWS);
  }

  // ---------------------------------------------------------------- what the trace shows

  /** Rolling back, with two entries of one name in its plan. */
  ghost predicate RollsWithCollision(log: Log, run: Event) {
    run in log && run.kind == Seen && Has(log, RollingBack, run.lineage)
    && !DistinctNames(PlanFor(SAGA, RowsOf(log, run.lineage)))
  }

  /** However a trace that begins like this one goes on, the run is not ROLLED_BACK. */
  ghost predicate NeverRolledBackAfter(states: seq<State>, run: Lineage) {
    forall later: seq<State>, actions: seq<Action>, choices: seq<Choice> ::
      SagaTrace(Deployment(), later, actions, choices) && states <= later
      ==> !Has(later[|actions|].log, RolledBack, run)
  }

  lemma FirstCollides(log: Log, f: Facts, t: int, v: int, w: int)
    requires Describes(log, f) && Rolls(f, t, v, w)
    ensures RollsWithCollision(log, SeenRow(First))
  {
    hide Describes, DistinctNames, PlanFor, Has;
    LifeOf(log, f, First);
    CarriedCollides(w, v, t);
  }

  lemma CollisionIsForEver(states: seq<State>, actions: seq<Action>, choices: seq<Choice>, run: Event)
    requires SagaTrace(Deployment(), states, actions, choices) && RollsWithCollision(states[|actions|].log, run)
    requires run.coroutine.Some?
    ensures NeverRolledBackAfter(states, run.lineage)
  {
    hide Enabled, Apply, Disciplined, DistinctNames, PlanFor, RowsOf;
    forall later: seq<State>, more: seq<Action>, choices': seq<Choice>
      | SagaTrace(Deployment(), later, more, choices') && states <= later
      ensures !Has(later[|more|].log, RolledBack, run.lineage)
    {
      assert later[|actions|] == states[|actions|];
      CollidingRunNeverRollsBack(Deployment(), later, more, choices', |actions|, |more|, run);
    }
  }

  /** A run reaches a rollback that cannot end: another run's failed child was reported to it once, and then no more. */
  lemma VanishedReportStrandsARun()
    ensures exists states: seq<State>, actions: seq<Action>, choices: seq<Choice> ::
              SagaTrace(Deployment(), states, actions, choices)
              && RollsWithCollision(states[|actions|].log, SeenRow(First))
              && NeverRolledBackAfter(states, LineageOf(First))
  {
    hide SagaTrace, HeldBack, ChildFailed, Describes, RollsWithCollision, NeverRolledBackAfter;
    var f, t, e, u, d := OneRunWaits();
    f := ChildFails(f, t, e, u, d);
    var v, w;
    f, v := FirstHandles(f, t, e, u, d);
    f := SecondGivesUp(f, u, d);
    f, w := FirstRepeats(f, t, v, e);
    f := FirstThrows(f, t, v, w);
    var s := PlayedIsReached(f);
    FirstCollides(s.log, f, t, v, w);
    var states, actions, choices :| TraceTo(states, actions, choices, s);
    CollisionIsForEver(states, actions, choices, SeenRow(First));
  }
}
