/**
 Two concrete saga traces, run by run.  In the first a run whose handlers have all finished is held back by another run of its
 coroutine.  The second goes on from there: the other run's child fails to roll back, the report reaches the first run
 as its rollback starts, and it ends ROLLED_BACK with a child that stays COMMITTED and was never asked.
 */
module Scenario {
  import opened Options
  import opened EventLog
  import opened Readiness
  import opened Protocol
  import opened Workers
  import opened StandardStrategy
  import opened RollbackPlan
  import opened RunRows
  import opened RunHistory
  import opened TreeRollback
  import opened TreeTheorems
  import opened Stage
  import opened StageActions
  import Continuation
  import Saga
  import SagaProofs

  // ---------------------------------------------------------------- ticks of a saga with one step

  const RETURNS: Continuation.Call -> Continuation.Outcome := c => Continuation.Returned(Continuation.Continue)
  const REPEATS: Continuation.Call -> Continuation.Outcome := c => Continuation.Returned(Continuation.Repeat)
  const THROWS: Continuation.Call -> Continuation.Outcome := c => Continuation.Threw

  function Doing(user: Continuation.Call -> Continuation.Outcome): Choice {
    Choice(user, Continuation.CarryOn, Continuation.CarryOn)
  }

  function TickBy(rows: seq<Saga.Suspended>, told: Saga.Failures, user: Continuation.Call -> Continuation.Outcome, at: int)
    : Saga.Tick
  {
    Saga.TickOf(SAGA, rows, told, user, Continuation.CarryOn, Continuation.CarryOn, at)
  }

  const NOTHING := Saga.Failures(false, false, false)

  /** The row of the one step, going on to the end or to itself. */
  function Ran(again: bool, at: int): Saga.Suspended {
    Saga.Suspended("A", if again then Some(0) else None, None, at)
  }

  lemma ForwardTicks(at: int, t: int, told: Saga.Failures)
    ensures TickBy([], NOTHING, RETURNS, at) == Saga.WroteSuspended(Ran(false, at))
    ensures TickBy([], NOTHING, REPEATS, at) == Saga.WroteSuspended(Ran(true, at))
    ensures TickBy([Ran(false, t)], NOTHING, RETURNS, at) == Saga.WroteCommitted
    ensures TickBy([Ran(true, t)], NOTHING, THROWS, at) == Saga.WroteRollingBack
    ensures told.childRollbackFailed && !told.rollingBack
            ==> TickBy([Ran(false, t)], told, THROWS, at) == Saga.WroteRollingBack
  {}

  // ---------------------------------------------------------------- the rollback of one step

  /** The two entries of its plan: the rollback of the step's children, then its own. */
  function PlanOfOne(forward: Saga.Suspended): seq<PlanStep> {
    Plan(Saga.Prefix(SAGA), Saga.Suffix(SAGA), Saga.Executed([forward]))
  }

  lemma TwoEntries(again: bool, t: int)
    ensures var plan := PlanOfOne(Ran(again, t)); |plan| == 2 && !plan[0].own && plan[1].own && DistinctNames(plan)
    ensures SagaProofs.ForwardRows(SAGA, [Ran(again, t)])
  {
    var history := [Instance("A", None, t)];
    assert Saga.Executed([Ran(again, t)]) == history && history[1..] == [];
    var prefix, suffix := Saga.Prefix(SAGA), Saga.Suffix(SAGA);
    assert Plan(prefix, suffix, history[1..]) == [];
    assert Plan(prefix, suffix, history) == StepsFor(prefix, suffix, history[0], IterationOf(history[0], history[1..]));
    HandlerDisciplineKeepsNamesDistinct(SAGA.steps, Saga.Prefix(SAGA), Saga.Executed([Ran(again, t)]));
  }

  /** Behind entry n - 1, if n > 0. */
  ghost predicate Stood(rows: seq<Saga.Suspended>, forward: Saga.Suspended, n: nat) {
    && |rows| > 0 && rows[|rows| - 1] == forward
    && SagaProofs.StandsAt(PlanOfOne(forward), rows[..|rows| - 1], n)
  }

  lemma StoodAtStart(forward: Saga.Suspended)
    ensures Stood([forward], forward, 0)
  {}

  lemma StoodAfter(rows: seq<Saga.Suspended>, forward: Saga.Suspended, n: nat, row: Saga.Suspended, j: nat)
    requires Stood(rows, forward, n) && j < |PlanOfOne(forward)| && row.step == PlanOfOne(forward)[j].name
    requires row.nextStep.None?
    ensures Stood([row] + rows, forward, j + 1)
  {
    hide Plan;
    var done := rows[..|rows| - 1];
    assert ([row] + rows)[..|[row] + rows| - 1] == [row] + done;
  }

  /** What a resume in rollback does, standing at n. */
  lemma RollbackTicks(rows: seq<Saga.Suspended>, again: bool, t: int, n: nat, told: Saga.Failures, at: int)
    requires Stood(rows, Ran(again, t), n) && told.rollingBack && n <= 2
    ensures var plan := PlanOfOne(Ran(again, t));
            && |plan| == 2
            && (!told.childRollbackFailed ==>
                  if n < 2 then Suspends(TickBy(rows, told, RETURNS, at), plan[n].name)
                  else TickBy(rows, told, RETURNS, at) == Saga.WroteRolledBack)
            && (told.childRollbackFailed ==>
                  Suspends(TickBy(rows, told, RETURNS, at), plan[if n == 0 then 0 else n - 1].name))
            && (told.childRollbackFailed || n < 2 ==> TickBy(rows, told, THROWS, at) == Saga.WroteRollbackFailed)
  {
    hide Saga.TickOf, Saga.TickCall, Plan, SagaProofs.PositionedAt, SagaProofs.PreparedAt, SagaProofs.ForwardRows;
    var forward := Ran(again, t);
    var plan, done := PlanOfOne(forward), rows[..|rows| - 1];
    TwoEntries(again, t);
    assert rows == done + [forward];
    SagaProofs.RollbackResumeDoes(SAGA, done, [forward], plan, n, told, RETURNS, at);
    SagaProofs.RollbackPosition(SAGA, done, [forward], plan, n);
    SagaProofs.PositionIsPrepared(SAGA, rows, plan, n, told);
    if told.childRollbackFailed || n < 2 {
      ThrowingEndsRollback(rows, plan, n, told, at);
    }
  }

  ghost predicate Suspends(tick: Saga.Tick, step: string) {
    tick.WroteSuspended? && tick.row.step == step && tick.row.nextStep.None?
  }

  lemma ThrowingEndsRollback(rows: seq<Saga.Suspended>, plan: seq<PlanStep>, n: nat, told: Saga.Failures, at: int)
    requires told.rollingBack && SagaProofs.PreparedAt(plan, Saga.Prepare(SAGA, rows, told), n)
    requires if told.childRollbackFailed then Saga.Prepare(SAGA, rows, told).input.ChildFailed?
             else n < |plan| && Saga.Prepare(SAGA, rows, told).input == Continuation.SuccessfullyRolledBack
    ensures TickBy(rows, told, THROWS, at) == Saga.WroteRollbackFailed
  {
    hide Saga.Prepare;
  }

  /** The entry a resume at n executes. */
  lemma EntryAt(rows: seq<Saga.Suspended>, again: bool, t: int, n: nat, told: Saga.Failures)
    requires Stood(rows, Ran(again, t), n) && told.rollingBack && n < 2
    ensures EntryRun(SAGA, rows, told)
            == if told.childRollbackFailed then None else Some(PlanOfOne(Ran(again, t))[n])
  {
    hide Plan, SagaProofs.ForwardRows;
    var forward := Ran(again, t);
    var plan, done := PlanOfOne(forward), rows[..|rows| - 1];
    TwoEntries(again, t);
    assert rows == done + [forward];
    DoneIsRollbackPart(done, forward, plan, n);
    if n == 1 {
      assert Position(plan, plan[0].name) == Some(0);
    }
  }

  lemma {:induction false} DoneIsRollbackPart(done: seq<Saga.Suspended>, forward: Saga.Suspended, plan: seq<PlanStep>,
                                             n: nat)
    requires plan == PlanOfOne(forward) && forward.step == "A" && SagaProofs.StandsAt(plan, done, n)
    ensures RollbackPart(SAGA, done + [forward]) == done && ForwardPart(SAGA, done + [forward]) == [forward]
    decreases |done|
  {
    NamesAreSynthetic(done, forward, plan, n);
    SyntheticBeforeForward(done, forward);
  }

  lemma NamesAreSynthetic(done: seq<Saga.Suspended>, forward: Saga.Suspended, plan: seq<PlanStep>, n: nat)
    requires plan == PlanOfOne(forward) && SagaProofs.StandsAt(plan, done, n)
    ensures forall i :: 0 <= i < |done| ==> done[i].step !in SAGA.steps
  {
    hide Plan;
    forall i | 0 <= i < |done| ensures done[i].step !in SAGA.steps {
      var j :| 0 <= j < |plan| && done[i].step == plan[j].name;
      SagaProofs.PlanNamesAreSynthetic(SAGA, Saga.Executed([forward]), j);
    }
  }

  lemma {:induction false} SyntheticBeforeForward(done: seq<Saga.Suspended>, forward: Saga.Suspended)
    requires forward.step == "A" && forall i :: 0 <= i < |done| ==> done[i].step !in SAGA.steps
    ensures ForwardPart(SAGA, done + [forward]) == [forward] && RollbackPart(SAGA, done + [forward]) == done
  {
    if done != [] {
      SyntheticBeforeForward(done[1..], forward);
      assert (done + [forward])[1..] == done[1..] + [forward];
    }
    assert (done + [forward])[..|done|] == done;
  }

  // ---------------------------------------------------------------- one resume

  function RowOf(f: Facts, who: Who, r: Saga.Suspended): (row: Event)
    ensures row.step.Some? && (r.at == f.clock + 1 ==> SuspendedOf(row) == r)
  {
    Event(Suspended, MessageOf(who), LineageOf(who), Some(HandlerOf(who)), Some(r.step), r.nextStep, r.handler, f.clock + 1)
  }

  function EndOf(f: Facts, who: Who, kind: Kind): Event {
    Event(kind, MessageOf(who), LineageOf(who), Some(HandlerOf(who)), Some("A"), None, None, f.clock + 1)
  }

  /** The run does something, the others stand still. */
  ghost predicate Becomes(f: Facts, f': Facts, who: Who, life: Life) {
    && f'.Of(who) == life && (forall v :: v != who ==> f'.Of(v) == f.Of(v))
    && f'.clock == f.clock + 2 && Played(f')
  }

  /** A run executes its step for the first time, launching a message or not. */
  lemma RunsItsStep(f: Facts, who: Who, again: bool, message: Option<Id>) returns (f': Facts)
    requires Played(f) && CanResume(f, who) && f.Of(who).rows == [] && Told(f, who) == NOTHING
    requires message.Some? ==> f.next <= message.value
    ensures var ran, sent := Ran(again, f.clock + 1),
                             if message.None? then None else Some(Emission(f, who, message.value));
            Becomes(f, f', who, f.Of(who).(rows := [ran], waitsFor := sent,
                                           sent := if sent.Some? then sent else f.Of(who).sent))
    ensures f'.settled == f.settled && f'.next == if message.None? then f.next else message.value + 1
  {
    hide Played, CanResume, Saga.TickOf, EntryRun, Told;
    var emissions := if message.None? then [] else [Emission(f, who, message.value)];
    ToldRolling(f, who);
    ForwardTicks(f.clock + 1, 0, NOTHING);
    NoEntryForward(f.Of(who).rows, NOTHING);
    f' := SuspendsAs(f, who, Doing(if again then REPEATS else RETURNS), Ran(again, f.clock + 1), emissions);
  }

  lemma NoEntryForward(rows: seq<Saga.Suspended>, told: Saga.Failures)
    requires !told.rollingBack
    ensures EntryRun(SAGA, rows, told).None?
  {}

  /** A run commits, starts to roll back, or ends its rollback. */
  lemma Ends(f: Facts, who: Who, kind: Kind, user: Continuation.Call -> Continuation.Outcome) returns (f': Facts)
    requires Played(f) && CanResume(f, who) && RowFor(f, who, EndOf(f, who, kind)) && kind != Suspended
    requires Records(TickBy(f.Of(who).rows, Told(f, who), user, f.clock + 1), EndOf(f, who, kind))
    requires f.Of(who).waitsFor.Some? ==> kind == RollingBack || f.Of(who).rolling
    ensures Becomes(f, f', who, Marked(f.Of(who), kind)) && f'.next == f.next
    ensures f'.settled == if kind == Committed || kind == RolledBack then f.settled + {LineageOf(who)} else f.settled
  {
    hide Played, CanResume, Saga.TickOf, EntryRun, Told, Marked;
    f' := Wrote(f, who, [], EndOf(f, who, kind));
    assert Resumes(f, who, Doing(user), [], EndOf(f, who, kind), f');
    PlaysOn(f, f');
  }

  lemma SuspendedNow(rows: seq<Saga.Suspended>, told: Saga.Failures, user: Continuation.Call -> Continuation.Outcome, at: int)
    ensures var tick := TickBy(rows, told, user, at); tick.WroteSuspended? ==> tick.row.at == at
  {
    hide Saga.Prepare, Saga.NextStepColumn;
  }

  /** The row a resume in rollback writes, standing at n. */
  lemma RollingRow(rows: seq<Saga.Suspended>, again: bool, t: int, n: nat, told: Saga.Failures, at: int)
    returns (r: Saga.Suspended)
    requires Stood(rows, Ran(again, t), n) && told.rollingBack && n < 2 && (n == 1 ==> !told.childRollbackFailed)
    ensures TickBy(rows, told, RETURNS, at) == Saga.WroteSuspended(r) && r.at == at
    ensures Stood([r] + rows, Ran(again, t), n + 1) && (told.childRollbackFailed ==> r.handler.Some?)
    ensures var entry := EntryRun(SAGA, rows, told);
            entry.Some? && !entry.value.own ==> n == 0 && !told.childRollbackFailed
  {
    hide Saga.TickOf, EntryRun, Plan, Stood;
    RollbackTicks(rows, again, t, n, told, at);
    r := TickBy(rows, told, RETURNS, at).row;
    SuspendedNow(rows, told, RETURNS, at);
    EntryAt(rows, again, t, n, told);
    TwoEntries(again, t);
    StoodAfter(rows, Ran(again, t), n, r, n);
    if told.childRollbackFailed {
      HandlerRowCarriesIteration(rows, told, at);
    }
  }

  /** A run suspends in rollback, behind entry n, or before the entry it detoured around. */
  lemma RollsOn(f: Facts, who: Who, again: bool, t: int, n: nat) returns (f': Facts)
    requires Played(f) && CanResume(f, who) && f.Of(who).rolling && n < 2 && Stood(f.Of(who).rows, Ran(again, t), n)
    requires n == 0 && f.Of(who).sent.Some? ==> Told(f, who).childRollbackFailed
    requires n == 1 ==> !Told(f, who).childRollbackFailed
    ensures Becomes(f, f', who, f.Of(who).(rows := f'.Of(who).rows, waitsFor := None)) && f'.next == f.next
    ensures f'.settled == f.settled && Stood(f'.Of(who).rows, Ran(again, t), n + 1)
    ensures |f'.Of(who).rows| > 0 && f'.Of(who).rows[1..] == f.Of(who).rows
    ensures Told(f, who).childRollbackFailed ==> f'.Of(who).rows[0].handler.Some?
  {
    hide Played, CanResume, Saga.TickOf, EntryRun, Plan, Told, Stood;
    ToldRolling(f, who);
    var r := RollingRow(f.Of(who).rows, again, t, n, Told(f, who), f.clock + 1);
    f' := SuspendsAs(f, who, Doing(RETURNS), r, []);
  }

  lemma WroteIs(f: Facts, who: Who, emissions: seq<Event>, row: Event)
    requires RowFor(f, who, row)
    ensures var f' := Wrote(f, who, emissions, row);
            && f'.Of(who) == (if row.kind == Suspended then AsLife(f.Of(who), emissions, row)
                              else Marked(f.Of(who), row.kind))
            && (forall v :: v != who ==> f'.Of(v) == f.Of(v)) && f'.clock == f.clock + 2
            && f'.settled == (if row.kind == Committed || row.kind == RolledBack then f.settled + {LineageOf(who)}
                              else f.settled)
            && f'.next == if emissions == [] then f.next else emissions[0].message + 1
  {
    hide AsLife, Marked, LineageOf;
  }

  /** One resume that suspends. */
  lemma SuspendsAs(f: Facts, who: Who, choice: Choice, r: Saga.Suspended, emissions: seq<Event>) returns (f': Facts)
    requires Played(f) && CanResume(f, who) && r.at == f.clock + 1 && EmissionsFor(f, who, emissions, RowOf(f, who, r))
    requires Saga.TickOf(SAGA, f.Of(who).rows, Told(f, who), choice.user, choice.before, choice.after, f.clock + 1)
             == Saga.WroteSuspended(r)
    requires var entry := EntryRun(SAGA, f.Of(who).rows, Told(f, who));
             entry.Some? && !entry.value.own ==> emissions == [] && f.Of(who).sent.None?
    ensures Becomes(f, f', who, AsLife(f.Of(who), emissions, RowOf(f, who, r)))
    ensures f'.Of(who).rows == [r] + f.Of(who).rows && f'.settled == f.settled
    ensures f'.next == if emissions == [] then f.next else emissions[0].message + 1
  {
    hide Played, CanResume, Saga.TickOf, EntryRun, Told, Wrote;
    WroteIs(f, who, emissions, RowOf(f, who, r));
    f' := Wrote(f, who, emissions, RowOf(f, who, r));
    assert Resumes(f, who, choice, emissions, RowOf(f, who, r), f');
    PlaysOn(f, f');
  }

  lemma ToldRolling(f: Facts, who: Who)
    ensures Told(f, who).rollingBack == f.Of(who).rolling
  {}

  lemma HandlerRowCarriesIteration(rows: seq<Saga.Suspended>, told: Saga.Failures, at: int)
    requires told.childRollbackFailed
    ensures var tick := TickBy(rows, told, RETURNS, at); tick.WroteSuspended? ==> tick.row.handler.Some?
  {
    FailedChildTick(SAGA, rows, told, RETURNS, Continuation.CarryOn, Continuation.CarryOn, at);
  }

  // ---------------------------------------------------------------- the first trace: one run holds back the other

  function Working(rows: seq<Saga.Suspended>, sent: Option<Event>): Life {
    UNBORN.(started := true, rows := rows, waitsFor := sent, sent := sent)
  }

  function Undoing(life: Life): Life {
    life.(rolling := true)
  }

  /** Both runs have started and done nothing. */
  lemma BothStart() returns (f: Facts)
    ensures Played(f) && f.Of(First) == f.Of(Second) == Working([], None)
    ensures f.Of(ChildOfFirst) == f.Of(ChildOfSecond) == UNBORN && f.settled == {} && f.next == 6 && f.clock > 0
  {
    hide Played;
    NothingPlayed();
    var first := Started(Launched(START, First), First);
    assert Enters(START, First, first);
    PlaysOn(START, first);
    f := Started(Launched(first, Second), Second);
    assert Enters(first, Second, f);
    PlaysOn(first, f);
  }

  /** The first run emits, and its child commits. */
  ghost predicate FirstIsDone(f: Facts, t: int, e: Event) {
    && f.Of(First) == Working([Ran(false, t)], Some(e)) && e.message == 6
    && f.Of(ChildOfFirst).started && f.Of(ChildOfFirst).committed && !f.Of(ChildOfFirst).rolling
    && !f.Of(ChildOfFirst).rolledBack && f.Of(ChildOfFirst).waitsFor.None?
    && f.settled == {LineageOf(ChildOfFirst)} && f.clock > 0
  }

  lemma FirstRuns(before: Facts) returns (f: Facts, t: int, e: Event)
    requires Played(before) && before.Of(First) == before.Of(Second) == Working([], None) && before.clock > 0
    requires before.Of(ChildOfFirst) == before.Of(ChildOfSecond) == UNBORN && before.settled == {} && before.next == 6
    ensures Played(f) && FirstIsDone(f, t, e) && f.Of(Second) == Working([], None) && f.Of(ChildOfSecond) == UNBORN
    ensures f.next == 8
  {
    hide Played, Saga.TickOf;
    t, e := before.clock + 1, Emission(before, First, 6);
    f := RunsItsStep(before, First, false, Some(6));
    var started := Started(f, ChildOfFirst);
    assert SetsOff(f, First, started);
    PlaysOn(f, started);
    f := ChildCommits(started, t, e);
  }

  lemma ChildCommits(before: Facts, t: int, e: Event) returns (f: Facts)
    requires Played(before) && before.Of(First) == Working([Ran(false, t)], Some(e)) && e.message == 6
    requires before.Of(ChildOfFirst) == before.Of(Second) == Working([], None) && before.Of(ChildOfSecond) == UNBORN
    requires before.settled == {} && before.next == 8 && before.clock > 0
    ensures Played(f) && FirstIsDone(f, t, e) && f.Of(Second) == before.Of(Second) && f.Of(ChildOfSecond) == UNBORN
    ensures f.next == 8
  {
    hide Played, Saga.TickOf;
    var suspended := RunsItsStep(before, ChildOfFirst, false, None);
    ForwardTicks(suspended.clock + 1, before.clock + 1, NOTHING);
    f := Ends(suspended, ChildOfFirst, Committed, RETURNS);
  }

  /** The second run emits, and nobody has started on its message yet. */
  ghost predicate HeldBack(f: Facts, t: int, e: Event, u: int, d: Event) {
    FirstIsDone(f, t, e) && f.Of(Second) == Working([Ran(false, u)], Some(d)) && d.message == 8
    && f.Of(ChildOfSecond) == UNBORN && f.next == 9
  }

  lemma OneRunWaits() returns (f: Facts, t: int, e: Event, u: int, d: Event)
    ensures Played(f) && HeldBack(f, t, e, u, d)
  {
    hide Played;
    var before := BothStart();
    before, t, e := FirstRuns(before);
    u, d := before.clock + 1, Emission(before, Second, 8);
    f := RunsItsStep(before, Second, false, Some(8));
  }

  // ---------------------------------------------------------------- the second trace: a report skips an entry

  /** The second run's child has failed to roll back; both parents go forward still. */
  ghost predicate ChildFailed(f: Facts, t: int, e: Event, u: int, d: Event) {
    && FirstIsDone(f, t, e) && f.Of(Second) == Working([Ran(false, u)], Some(d)) && d.message == 8
    && f.Of(ChildOfSecond).started && f.Of(ChildOfSecond).rolling && f.Of(ChildOfSecond).failed
    && !f.Of(ChildOfSecond).rolledBack && f.Of(ChildOfSecond).waitsFor.None?
  }

  lemma ChildFails(before: Facts, t: int, e: Event, u: int, d: Event) returns (f: Facts)
    requires Played(before) && HeldBack(before, t, e, u, d)
    ensures Played(f) && ChildFailed(f, t, e, u, d)
  {
    hide Played, Saga.TickOf;
    f := Started(before, ChildOfSecond);
    assert SetsOff(before, Second, f);
    PlaysOn(before, f);
    var at := f.clock + 1;
    f := RunsItsStep(f, ChildOfSecond, true, None);
    f := ChildRollsBack(f, t, e, u, d, at);
  }

  lemma ChildRollsBack(before: Facts, t: int, e: Event, u: int, d: Event, at: int) returns (f: Facts)
    requires Played(before) && FirstIsDone(before, t, e) && before.Of(Second) == Working([Ran(false, u)], Some(d))
    requires d.message == 8 && before.Of(ChildOfSecond) == Working([Ran(true, at)], None)
    ensures Played(f) && ChildFailed(f, t, e, u, d)
  {
    hide Played, Saga.TickOf, Stood;
    ForwardTicks(before.clock + 1, at, NOTHING);
    f := Ends(before, ChildOfSecond, RollingBack, THROWS);
    StoodAtStart(Ran(true, at));
    f := RollsOn(f, ChildOfSecond, true, at, 0);
    RollbackTicks(f.Of(ChildOfSecond).rows, true, at, 1, Told(f, ChildOfSecond), f.clock + 1);
    f := Ends(f, ChildOfSecond, RollbackFailed, THROWS);
  }

  /** The first run has thrown, and its first resume in rollback has run a failure handler. */
  ghost predicate Skipped(f: Facts, t: int, e: Event, u: int, d: Event) {
    && f.Of(First).started && f.Of(First).rolling && !f.Of(First).rolledBack && !f.Of(First).failed
    && f.Of(First).sent == Some(e) && e.message == 6 && f.Of(First).waitsFor.None?
    && Stood(f.Of(First).rows, Ran(false, t), 1)
    && f.Of(ChildOfFirst).started && f.Of(ChildOfFirst).committed && !f.Of(ChildOfFirst).rolling
    && !f.Of(ChildOfFirst).rolledBack && f.Of(ChildOfFirst).waitsFor.None?
    && f.settled == {LineageOf(ChildOfFirst)}
    && f.Of(ChildOfSecond).started && f.Of(ChildOfSecond).rolling && f.Of(ChildOfSecond).failed
    && f.Of(ChildOfSecond).waitsFor.None?
    && f.Of(Second) == Working([Ran(false, u)], Some(d)) && d.message == 8
  }

  lemma FirstDetours(before: Facts, t: int, e: Event, u: int, d: Event) returns (f: Facts)
    requires Played(before) && ChildFailed(before, t, e, u, d)
    ensures Played(f) && Skipped(f, t, e, u, d)
  {
    hide Played, Saga.TickOf, Stood;
    ForwardTicks(before.clock + 1, t, Told(before, First));
    f := Ends(before, First, RollingBack, THROWS);
    StoodAtStart(Ran(false, t));
    f := RollsOn(f, First, false, t, 0);
  }

  /** The second run goes forward, above a child that has failed to roll back. */
  ghost predicate SecondHangs(f: Facts, u: int, d: Event) {
    && f.Of(Second) == Working([Ran(false, u)], Some(d)) && d.message == 8 && LineageOf(Second) !in f.settled
    && f.Of(ChildOfSecond).started && f.Of(ChildOfSecond).rolling && f.Of(ChildOfSecond).failed
    && f.Of(ChildOfSecond).waitsFor.None? && f.Of(ChildOfFirst).waitsFor.None? && HandlerHasStarted(f, First)
  }

  /** The second run gives up: it is no candidate any more. */
  lemma SecondGivesUp(before: Facts, u: int, d: Event) returns (f: Facts)
    requires Played(before) && SecondHangs(before, u, d)
    ensures Played(f) && f.Of(First) == before.Of(First) && f.Of(ChildOfFirst) == before.Of(ChildOfFirst)
    ensures f.Of(Second) == Undoing(before.Of(Second)).(failed := true) && f.settled == before.settled
    ensures f.Of(ChildOfSecond) == before.Of(ChildOfSecond)
  {
    hide Played, Saga.TickOf, Stood;
    ForwardTicks(before.clock + 1, u, Told(before, Second));
    f := Ends(before, Second, RollingBack, THROWS);
    StoodAtStart(Ran(false, u));
    RollbackTicks(f.Of(Second).rows, false, u, 0, Told(f, Second), f.clock + 1);
    f := Ends(f, Second, RollbackFailed, THROWS);
  }

  lemma FirstEnds(before: Facts, t: int, e: Event, u: int, d: Event) returns (f: Facts)
    requires Played(before) && Skipped(before.(second := Working([Ran(false, u)], Some(d))), t, e, u, d)
    requires before.Of(Second) == Undoing(Working([Ran(false, u)], Some(d))).(failed := true)
    ensures Played(f) && f.Of(First).rolledBack && f.Of(First).sent == Some(e) && f.Of(First).started
    ensures f.Of(ChildOfFirst) == before.Of(ChildOfFirst)
  {
    hide Played, Saga.TickOf, Stood;
    f := RollsOn(before, First, false, t, 1);
    RollbackTicks(f.Of(First).rows, false, t, 2, Told(f, First), f.clock + 1);
    f := Ends(f, First, RolledBack, RETURNS);
  }

  // ---------------------------------------------------------------- what the traces show

  /** Every registered handler of everything the run waits for has finished, and still it cannot resume. */
  ghost predicate HeldBackByAnother(s: State, coroutine: string, run: Event) {
    && Candidate(s.log, s.settled, coroutine, run) && ChildrenAllowResume(s.log, run.lineage)
    && (exists e :: EmissionInLatestStep(s.log, run.lineage, e))
    && (forall e, handler | EmissionInLatestStep(s.log, run.lineage, e) && Registered(REGISTRY, e.message, handler) ::
          HandlerFinished(s.log, e, handler))
    && forall strategy | IsStandard(strategy, REGISTRY) :: !Ready(s.log, s.settled, coroutine, run, strategy)
  }

  lemma FirstIsHeldBack(s: State, f: Facts, t: int, e: Event, u: int, d: Event)
    requires Inv(s.log) && Describes(s.log, f) && s.settled == f.settled && HeldBack(f, t, e, u, d)
    ensures HeldBackByAnother(s, "handler", SeenRow(First))
  {
    hide Inv, Describes, Candidate, EmissionInLatestStep, Registered, HandlerFinished, Ready, IsStandard, Has,
      ChildrenAllowResume;
    CandidateIff(s.log, f, First);
    NothingAskedYet(s.log, f);
    ChildrenAreOver(s.log, f, First);
    NoRequestsChildrenDecide(s.log, LineageOf(First));
    WaitsFor(s.log, f, First, e);
    forall e', handler | EmissionInLatestStep(s.log, LineageOf(First), e') && Registered(REGISTRY, e'.message, handler)
      ensures HandlerFinished(s.log, e', handler)
    {
      WaitsFor(s.log, f, First, e');
      OnlyOneHandler(First, handler);
      FirstChildFinished(s.log, f, e);
    }
    forall strategy | IsStandard(strategy, REGISTRY)
      ensures !Ready(s.log, s.settled, "handler", SeenRow(First), strategy)
    {
      SecondIsMissing(s.log, f, d);
      MissingIffOnLog(s.log, s.settled, "handler");
      MissingBlocks(s.log, s.settled, SeenRow(First), strategy, e);
    }
  }

  lemma NoRequestsChildrenDecide(log: Log, run: Lineage)
    requires !RollbackEmissionsPresent(log, run) && AllChildSeensTerminated(log, run)
    ensures ChildrenAllowResume(log, run)
  {}

  lemma FirstChildFinished(log: Log, f: Facts, e: Event)
    requires Describes(log, f) && f.Of(ChildOfFirst).started && f.Of(ChildOfFirst).committed
    requires EmissionInLatestStep(log, LineageOf(First), e) && e.message == MessageOf(ChildOfFirst)
    ensures HandlerFinished(log, e, HandlerOf(ChildOfFirst))
  {
    hide Describes, EmissionInLatestStep, Has;
    LifeOf(log, f, ChildOfFirst);
    Cast(First, ChildOfFirst);
    EmittedByRun(log, LineageOf(First), e);
    assert SeenRow(ChildOfFirst) in log;
  }

  lemma SecondIsMissing(log: Log, f: Facts, d: Event)
    requires Inv(log) && Describes(log, f) && IsCandidate(f, Second) && f.Of(ChildOfSecond) == UNBORN
    requires f.Of(Second).waitsFor == Some(d) && d.message == 8
    ensures !CoroutineHasAllStarted(REGISTRY, log, f.settled, "handler")
  {
    hide Inv, Describes, Candidate, EmissionInLatestStep, Has;
    CandidateIff(log, f, Second);
    CandidateIsOnLog(log, f.settled, "handler", SeenRow(Second));
    WaitsFor(log, f, Second, d);
    EmittedByRun(log, LineageOf(Second), d);
    assert Registered(REGISTRY, d.message, "right handler");
    if HandlerStarted(log, d, "right handler") {
      var s :| s in log && s.kind == Seen && s.message == d.message && s.coroutine == Some("right handler");
      var who := SeenIsCast(log, f, s);
      LifeOf(log, f, ChildOfSecond);
    }
    EmissionIsOnLog(log, LineageOf(Second), d);
  }

  lemma EmissionIsOnLog(log: Log, run: Lineage, e: Event)
    requires EmissionInLatestStep(log, run, e)
    ensures e in log
  {}

  lemma MissingBlocks(log: Log, settled: set<Lineage>, run: Event, strategy: Strategy, e: Event)
    requires IsStandard(strategy, REGISTRY) && SomeSeenMissing(REGISTRY, log, settled, "handler")
    requires EmissionInLatestStep(log, run.lineage, e) && !RollbackEmissionsPresent(log, run.lineage)
    requires !SomeCandidateCancelled(log, settled, "handler")
    ensures !Ready(log, settled, "handler", run, strategy)
  {
    hide SomeSeenMissing, EmissionInLatestStep, RollbackEmissionsPresent, SomeCandidateCancelled, Candidate,
      ChildrenAllowResume;
    EmissionIsOnLog(log, run.lineage, e);
  }

  /** A reachable state in which a run all of whose handlers have finished is held back by another run of its coroutine. */
  lemma OneRunHoldsBackAnother()
    ensures exists states: seq<State>, actions: seq<Action>, choices: seq<Choice> ::
              SagaTrace(Deployment(), states, actions, choices)
              && HeldBackByAnother(states[|actions|], "handler", SeenRow(First))
  {
    hide SagaTrace, HeldBack, HeldBackByAnother, Describes;
    var f, t, e, u, d := OneRunWaits();
    var s := PlayedIsReached(f);
    ReachedKeepsInv(s);
    FirstIsHeldBack(s, f, t, e, u, d);
    var states, actions, choices :| TraceTo(states, actions, choices, s);
  }

  /** ROLLED_BACK, although a child of the run's forward path is COMMITTED and nobody has asked it to roll back. */
  ghost predicate LeavesAChild(log: Log, run: Event, child: Event) {
    && Has(log, RolledBack, run.lineage)
    && child in log && child.kind == Seen && ForwardChild(Deployment(), log, run, child)
    && Has(log, Committed, child.lineage) && !Has(log, RollingBack, child.lineage) && !RollbackAsked(log, child.message)
  }

  lemma FirstLeavesAChild(log: Log, f: Facts, e: Event)
    requires Describes(log, f) && f.Of(First).rolledBack && f.Of(First).sent == Some(e) && e.message == 6
    requires f.Of(ChildOfFirst).started && f.Of(ChildOfFirst).committed && !f.Of(ChildOfFirst).rolling
    ensures LeavesAChild(log, SeenRow(First), SeenRow(ChildOfFirst))
  {
    hide Describes, Has, RollbackAsked, ForwardEmission;
    LifeOf(log, f, First);
    LifeOf(log, f, ChildOfFirst);
    NothingAskedYet(log, f);
    SentForward(log, f, First);
  }

  lemma SentForward(log: Log, f: Facts, who: Who)
    requires Describes(log, f) && f.Of(who).sent.Some?
    ensures ForwardEmission(SAGA, log, LineageOf(who), f.Of(who).sent.value)
  {
    hide Tidy, Tested, RowsOf, ForwardEmission;
    assert DescribesRun(log, who, f.Of(who));
  }

  /** A run reaches ROLLED_BACK with a child left behind, because another run of its coroutine had a failed child. */
  lemma AnotherRunsFailureLeavesAChild()
    ensures exists states: seq<State>, actions: seq<Action>, choices: seq<Choice> ::
              SagaTrace(Deployment(), states, actions, choices)
              && LeavesAChild(states[|actions|].log, SeenRow(First), SeenRow(ChildOfFirst))
  {
    hide SagaTrace, HeldBack, ChildFailed, LeavesAChild, Describes, Stood;
    var f, t, e, u, d := OneRunWaits();
    f := ChildFails(f, t, e, u, d);
    f := FirstDetours(f, t, e, u, d);
    var skipped := f;
    assert SecondHangs(f, u, d);
    f := SecondGivesUp(f, u, d);
    SkippedStill(skipped, f, t, e, u, d);
    f := FirstEnds(f, t, e, u, d);
    var s := PlayedIsReached(f);
    FirstLeavesAChild(s.log, f, e);
    var states, actions, choices :| TraceTo(states, actions, choices, s);
  }

  lemma SkippedStill(before: Facts, f: Facts, t: int, e: Event, u: int, d: Event)
    requires Skipped(before, t, e, u, d) && f.Of(First) == before.Of(First)
    requires f.Of(ChildOfFirst) == before.Of(ChildOfFirst) && f.Of(ChildOfSecond) == before.Of(ChildOfSecond)
    requires f.settled == before.settled && f.Of(Second) == Undoing(before.Of(Second)).(failed := true)
    ensures Skipped(f.(second := Working([Ran(false, u)], Some(d))), t, e, u, d)
    ensures f.Of(Second) == Undoing(Working([Ran(false, u)], Some(d))).(failed := true)
  {
    hide Stood;
  }
}
