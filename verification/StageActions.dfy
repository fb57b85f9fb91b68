/** What can happen on the stage: runs are launched and started, resume, and the facts follow. */
module StageActions {
  import opened Options
  import opened EventLog
  import opened Readiness
  import opened Protocol
  import opened CooperationProofs
  import opened Workers
  import opened StandardStrategy
  import opened Repository
  import opened RollbackPlan
  import opened RunRows
  import opened TreeRollback
  import opened Stage
  import Continuation
  import Saga

  const NOBODY: map<WorkerId, Phase> := map[]

  ghost predicate TraceTo(states: seq<State>, actions: seq<Action>, choices: seq<Choice>, s: State) {
    SagaTrace(Deployment(), states, actions, choices) && states[|actions|] == s
  }

  ghost predicate Reached(s: State) {
    exists states: seq<State>, actions: seq<Action>, choices: seq<Choice> :: TraceTo(states, actions, choices, s)
  }

  /** A reachable state between transactions, and what is to be known about its log. */
  ghost predicate Stands(s: State, f: Facts) {
    Reached(s) && s.workers == NOBODY && s.settled == f.settled && Describes(s.log, f)
  }

  ghost predicate At(f: Facts) {
    exists s :: Stands(s, f)
  }

  lemma Extend(s: State, a: Action, choice: Choice, s': State)
    requires Reached(s) && Next(s, a, s') && Disciplined(Deployment(), s, a, choice)
    ensures Reached(s')
  {
    hide Next, Disciplined;
    var states, actions, choices :| TraceTo(states, actions, choices, s);
    LongerTrace(states, actions, choices, s, a, choice, s');
    assert TraceTo(states + [s'], actions + [a], choices + [choice], s');
  }

  lemma LongerTrace(states: seq<State>, actions: seq<Action>, choices: seq<Choice>, s: State, a: Action, choice: Choice,
                    s': State)
    requires TraceTo(states, actions, choices, s) && Next(s, a, s') && Disciplined(Deployment(), s, a, choice)
    ensures TraceTo(states + [s'], actions + [a], choices + [choice], s')
  {
    hide Next, Disciplined;
    var states', actions', choices' := states + [s'], actions + [a], choices + [choice];
    forall i | 0 <= i < |actions'|
      ensures Next(states'[i], actions'[i], states'[i + 1])
              && Disciplined(Deployment(), states'[i], actions'[i], choices'[i])
    {
      if i == |actions| {
        assert states'[i] == s && actions'[i] == a && choices'[i] == choice;
      } else {
        assert states'[i] == states[i] && states'[i + 1] == states[i + 1] && actions'[i] == actions[i];
      }
    }
  }

  lemma ReachedKeepsInv(s: State)
    requires Reached(s)
    ensures Inv(s.log)
  {
    hide Enabled, Apply, Disciplined;
    var states, actions, choices :| TraceTo(states, actions, choices, s);
    TraceKeepsSystem(states, actions, |actions|);
  }

  const START := Facts(UNBORN, UNBORN, UNBORN, UNBORN, {}, 1, 0)

  lemma EmptyIsReached()
    ensures Reached(EMPTY)
  {
    assert TraceTo([EMPTY], [], [], EMPTY);
  }

  lemma NothingOnStage()
    ensures Describes([], START)
  {
    forall who ensures DescribesRun([], who, UNBORN) {}
  }

  // ---------------------------------------------------------------- rows and facts

  ghost predicate TidyRows(rows: seq<Event>, clock: nat, next: Id) {
    && (forall e :: e in rows ==> e.kind != RollbackEmitted && e.kind != CancellationRequested)
    && (forall e :: e in rows ==> e.createdAt < clock && e.message < next)
    && (forall e, x :: e in rows && x in e.lineage ==> x < next)
    && (forall e :: e in rows && e.kind == Seen ==> exists who :: e == SeenRow(who))
  }

  lemma DescribesAfter(log: Log, rows: seq<Event>, f: Facts, f': Facts)
    requires Describes(log, f) && TidyRows(rows, f'.clock, f'.next) && f.clock <= f'.clock && f.next <= f'.next
    requires forall who :: DescribesRun(log + rows, who, f'.Of(who))
    ensures Describes(log + rows, f')
  {
    hide DescribesRun;
  }

  /** Rows of one run. */
  lemma DescribesOneRun(log: Log, rows: seq<Event>, f: Facts, f': Facts, who: Who)
    requires Describes(log, f) && TidyRows(rows, f'.clock, f'.next) && f.clock <= f'.clock && f.next <= f'.next
    requires forall r :: r in rows ==> r.lineage == LineageOf(who)
    requires DescribesRun(log + rows, who, f'.Of(who)) && forall v :: v != who ==> f'.Of(v) == f.Of(v)
    ensures Describes(log + rows, f')
  {
    hide DescribesRun, LineageOf, SeenRow;
    forall v ensures DescribesRun(log + rows, v, f'.Of(v)) {
      if v != who {
        Cast(v, who);
        Bystands(log, rows, v, f.Of(v), f.clock);
      }
    }
    DescribesAfter(log, rows, f, f');
  }

  // ---------------------------------------------------------------- launching and starting

  function Started(f: Facts, who: Who): Facts {
    f.With(who, f.Of(who).(started := true)).(next := Tip(LineageOf(who)) + 1)
  }

  lemma FreshOnStage(log: Log, f: Facts, x: Id)
    requires Describes(log, f) && f.next <= x
    ensures FreshId(log, x) && FreshMessage(log, x)
  {
    hide DescribesRun;
  }

  /** The message this run handles is there and waits for its handler. */
  ghost predicate CanStart(log: Log, f: Facts, who: Who, emission: Event) {
    && f.Of(who) == UNBORN && f.clock > 0 && f.next <= Tip(LineageOf(who))
    && emission in log && emission.kind == Emitted && emission.message == MessageOf(who)
    && emission.lineage == Emitter(who)
    && (Has(log, Seen, emission.lineage) ==> ParentStillSuspendedOn(log, emission))
  }

  lemma StartFits(log: Log, f: Facts, who: Who, emission: Event)
    requires Describes(log, f) && CanStart(log, f, who, emission)
    ensures StartRunAllowed(log, SeenRow(who), emission)
    ensures Registered(REGISTRY, MessageOf(who), HandlerOf(who))
  {
    hide DescribesRun, ParentStillSuspendedOn;
    FreshOnStage(log, f, Tip(LineageOf(who)));
    Cast(who, who);
    LifeOf(log, f, who);
    forall s | s in log && s.kind == Seen && s.message == MessageOf(who) ensures s.coroutine != Some(HandlerOf(who)) {
      var v := SeenIsCast(log, f, s);
    }
  }

  lemma StartDescribes(log: Log, f: Facts, who: Who)
    requires Describes(log, f) && f.Of(who) == UNBORN && f.next <= Tip(LineageOf(who)) && f.clock > 0
    ensures Describes(log + [SeenRow(who)], Started(f, who))
  {
    hide DescribesRun;
    assert DescribesRun(log, who, f.Of(who));
    MarksRun(log, SeenRow(who), who, f.Of(who), f.clock);
    DescribesOneRun(log, [SeenRow(who)], f, Started(f, who), who);
  }

  lemma StartGoes(s: State, f: Facts, who: Who, emission: Event) returns (s': State)
    requires Stands(s, f) && CanStart(s.log, f, who, emission)
    ensures Stands(s', Started(f, who))
  {
    hide Describes, ParentStillSuspendedOn, StartRunAllowed, Reached, Registered;
    StartFits(s.log, f, who, emission);
    StartDescribes(s.log, f, who);
    var a := Append(StartRun(SeenRow(who), emission));
    s' := Apply(s, a);
    Extend(s, a, NoChoice(), s');
  }

  /** Actions that call no user code. */
  function NoChoice(): Choice {
    Choice(c => Continuation.Threw, Continuation.CarryOn, Continuation.CarryOn)
  }

  function LaunchRow(who: Who, at: int): Event {
    Event(Emitted, MessageOf(who), Emitter(who), None, None, None, None, at)
  }

  function Launched(f: Facts, who: Who): Facts {
    f.(clock := f.clock + 1, next := Tip(LineageOf(who)))
  }

  lemma LaunchFits(log: Log, f: Facts, who: Who)
    requires Describes(log, f) && HasChild(who) && f.next <= MessageOf(who)
    ensures LaunchAllowed(log, LaunchRow(who, f.clock))
    ensures Describes(log + [LaunchRow(who, f.clock)], Launched(f, who))
  {
    hide DescribesRun;
    var row := LaunchRow(who, f.clock);
    FreshOnStage(log, f, row.message);
    FreshOnStage(log, f, row.lineage[0]);
    forall v ensures DescribesRun(log + [row], v, Launched(f, who).Of(v)) {
      Cast(v, v);
      assert row.lineage != LineageOf(v);
      Bystands(log, [row], v, f.Of(v), f.clock);
    }
    DescribesAfter(log, [row], f, Launched(f, who));
  }

  lemma LaunchGoes(s: State, f: Facts, who: Who) returns (s': State)
    requires Stands(s, f) && HasChild(who) && f.next <= MessageOf(who)
    ensures Stands(s', Launched(f, who)) && LaunchRow(who, f.clock) in s'.log
  {
    hide Describes, Reached, LaunchAllowed;
    LaunchFits(s.log, f, who);
    var a := Append(Launch(LaunchRow(who, f.clock)));
    s' := Apply(s, a);
    Extend(s, a, NoChoice(), s');
  }

  lemma RootHasNoSeen(log: Log, who: Who)
    requires Inv(log) && HasChild(who)
    ensures !Has(log, Seen, Emitter(who))
  {
    if s :| s in log && s.kind == Seen && s.lineage == Emitter(who) {
      RunIsDeep(log, s);
      assert false;
    }
  }

  /** A message comes in from outside and its handler starts. */
  ghost predicate Enters(f: Facts, who: Who, f': Facts) {
    HasChild(who) && f.next <= MessageOf(who) && f.Of(who) == UNBORN && f' == Started(Launched(f, who), who)
  }

  lemma EntersGoes(s: State, f: Facts, who: Who, f': Facts)
    requires Stands(s, f) && Enters(f, who, f')
    ensures At(f')
  {
    hide Describes, Reached, LaunchRow, Inv;
    var launched := LaunchGoes(s, f, who);
    ReachedKeepsInv(launched);
    RootHasNoSeen(launched.log, who);
    LaunchRowIs(who, f.clock);
    var started := StartGoes(launched, Launched(f, who), who, LaunchRow(who, f.clock));
  }

  lemma LaunchRowIs(who: Who, at: int)
    ensures var e := LaunchRow(who, at); e.kind == Emitted && e.message == MessageOf(who) && e.lineage == Emitter(who)
  {}

  /** The handler of the message a run waits for starts. */
  ghost predicate SetsOff(f: Facts, who: Who, f': Facts) {
    && HasChild(who) && f.Of(ChildOf(who)) == UNBORN && !f.Of(who).rolling && f.clock > 0
    && f.Of(who).waitsFor.Some? && f.Of(who).waitsFor.value.message == MessageOf(ChildOf(who))
    && f.next <= Tip(LineageOf(ChildOf(who))) && f' == Started(f, ChildOf(who))
  }

  lemma SetsOffGoes(s: State, f: Facts, who: Who, f': Facts)
    requires Stands(s, f) && SetsOff(f, who, f')
    ensures At(f')
  {
    hide Describes, Reached, ParentStillSuspendedOn;
    WaitingParent(s.log, f, who);
    var started := StartGoes(s, f, ChildOf(who), f.Of(who).waitsFor.value);
  }

  lemma WaitingParent(log: Log, f: Facts, who: Who)
    requires Describes(log, f) && HasChild(who) && !f.Of(who).rolling && f.Of(who).waitsFor.Some?
    ensures var e := f.Of(who).waitsFor.value;
            && e in log && e.kind == Emitted && e.lineage == LineageOf(who) == Emitter(ChildOf(who))
            && ParentStillSuspendedOn(log, e)
  {
    hide Tidy, Tested, RowsOf, ParentStillSuspendedOn;
    assert DescribesRun(log, who, f.Of(who));
    var e := f.Of(who).waitsFor.value;
    assert EmissionInLatestStep(log, LineageOf(who), e);
  }

  // ---------------------------------------------------------------- resuming

  /** The row is about the run, and of a kind its state allows. */
  predicate RowFor(f: Facts, who: Who, row: Event) {
    && row.message == MessageOf(who) && row.lineage == LineageOf(who) && row.coroutine == Some(HandlerOf(who))
    && row.createdAt == f.clock + 1 && row.step.Some?
    && (match row.kind
        case Suspended => true
        case Committed => !f.Of(who).rolling && f.Of(who).waitsFor.None?
        case RollingBack => !f.Of(who).rolling
        case RolledBack | RollbackFailed => f.Of(who).rolling
        case _ => false)
  }

  function Emission(f: Facts, who: Who, message: Id): Event {
    Event(Emitted, message, LineageOf(who), Some(HandlerOf(who)), None, None, None, f.clock)
  }

  /** At most one new message, launched by a step. */
  predicate EmissionsFor(f: Facts, who: Who, emissions: seq<Event>, row: Event) {
    emissions != [] ==>
      && row.kind == Suspended && row.step == Some("A") && !f.Of(who).rolling
      && emissions == [Emission(f, who, emissions[0].message)] && f.next <= emissions[0].message
  }

  function Wrote(f: Facts, who: Who, emissions: seq<Event>, row: Event): Facts
    requires RowFor(f, who, row)
  {
    var life := if row.kind == Suspended then AsLife(f.Of(who), emissions, row) else Marked(f.Of(who), row.kind);
    f.With(who, life).(settled := if row.kind == Committed || row.kind == RolledBack then f.settled + {LineageOf(who)}
                                  else f.settled,
                       clock := f.clock + 2,
                       next := if emissions == [] then f.next else emissions[0].message + 1)
  }

  lemma AfterEverything(log: Log, f: Facts, row: Event)
    requires Describes(log, f) && f.clock <= row.createdAt
    ensures After(log, row) && forall r :: r in log ==> r.createdAt < f.clock
  {
    hide DescribesRun;
  }

  lemma EmissionFits(log: Log, f: Facts, who: Who, emissions: seq<Event>, row: Event)
    requires Describes(log, f) && RowFor(f, who, row) && EmissionsFor(f, who, emissions, row)
    ensures forall e :: e in emissions ==> EmissionAllowed(log, SeenRow(who), e) && e.createdAt < row.createdAt
    ensures |emissions| <= 1 && (emissions != [] ==> row.kind == Suspended && row.step == Some("A"))
  {
    hide Describes;
    if emissions != [] {
      AfterEverything(log, f, emissions[0]);
      FreshOnStage(log, f, emissions[0].message);
    }
  }

  lemma RowFits(log: Log, f: Facts, who: Who, emissions: seq<Event>, row: Event)
    requires Describes(log, f) && RowFor(f, who, row) && EmissionsFor(f, who, emissions, row)
    ensures WorkShape(log, SeenRow(who), Has(log, RollingBack, LineageOf(who)), emissions, row)
    ensures row.kind == Suspended ==> SuspendsWith(log, LineageOf(who), emissions, row)
  {
    hide Describes, EmissionAllowed, RollbackEmissionAllowed, Has, After, LineageOf, EmissionsFor;
    LifeOf(log, f, who);
    AfterEverything(log, f, row);
    EmissionFits(log, f, who, emissions, row);
    forall e | e in emissions ensures e.kind == Emitted && e.lineage == LineageOf(who) && After(log, e) {
      AllowedEmission(log, SeenRow(who), e);
    }
  }

  lemma AllowedEmission(log: Log, run: Event, e: Event)
    requires EmissionAllowed(log, run, e)
    ensures e.kind == Emitted && e.lineage == run.lineage && After(log, e)
  {}

  lemma WrittenRowsAreTidy(f: Facts, who: Who, emissions: seq<Event>, row: Event)
    requires RowFor(f, who, row) && EmissionsFor(f, who, emissions, row)
    requires MessageOf(who) < f.next && forall x :: x in LineageOf(who) ==> x < f.next
    ensures TidyRows(emissions + [row], Wrote(f, who, emissions, row).clock, Wrote(f, who, emissions, row).next)
    ensures forall r :: r in emissions + [row] ==> r.lineage == LineageOf(who)
    ensures f.next <= Wrote(f, who, emissions, row).next
  {
    hide AsLife, Marked, LineageOf;
  }

  lemma WriteDescribes(log: Log, f: Facts, who: Who, emissions: seq<Event>, row: Event)
    requires Inv(log) && Describes(log, f) && f.Of(who).started
    requires RowFor(f, who, row) && EmissionsFor(f, who, emissions, row)
    requires f.Of(who).waitsFor.Some? ==> row.kind == Suspended || row.kind == RollingBack || f.Of(who).rolling
    ensures Describes(log + (emissions + [row]), Wrote(f, who, emissions, row))
  {
    hide DescribesRun, SuspendsWith, WorkShape, RowFor, Tidy, AsLife, Marked, LineageOf;
    KnownRun(log, f, who);
    KindOfRow(f, who, row);
    AfterEverything(log, f, row);
    WrittenRowsAreTidy(f, who, emissions, row);
    assert DescribesRun(log, who, f.Of(who));
    RowFits(log, f, who, emissions, row);
    if row.kind == Suspended {
      SuspendsRun(log, emissions, row, who, f.Of(who), f.clock);
    } else {
      assert emissions + [row] == [row];
      MarksRun(log, row, who, f.Of(who), f.clock);
    }
    DescribesOneRun(log, emissions + [row], f, Wrote(f, who, emissions, row), who);
  }

  lemma KindOfRow(f: Facts, who: Who, row: Event)
    requires RowFor(f, who, row)
    ensures row.kind in {Suspended, Committed, RollingBack, RolledBack, RollbackFailed}
    ensures row.lineage == LineageOf(who) && row.createdAt == f.clock + 1 && (row.kind == Suspended ==> row.step.Some?)
  {}

  lemma KnownRun(log: Log, f: Facts, who: Who)
    requires Describes(log, f) && f.Of(who).started
    ensures MessageOf(who) < f.next && forall x :: x in LineageOf(who) ==> x < f.next
  {
    hide DescribesRun;
    LifeOf(log, f, who);
    var e := SeenRow(who);
    assert e in log;
  }

  /** The tick, as the rows of the run and what it is told determine it. */
  ghost predicate Ticks(f: Facts, who: Who, choice: Choice, emissions: seq<Event>, row: Event) {
    var rows, told := f.Of(who).rows, Told(f, who);
    && Records(Saga.TickOf(SAGA, rows, told, choice.user, choice.before, choice.after, f.clock + 1), row)
    && (row.kind == Suspended ==>
          var entry := EntryRun(SAGA, rows, told);
          entry.Some? && !entry.value.own ==> emissions == [] && f.Of(who).sent.None?)
  }

  lemma TickWritten(log: Log, f: Facts, who: Who, choice: Choice, emissions: seq<Event>, row: Event)
    requires Inv(log) && Describes(log, f) && f.Of(who).started
    requires RowFor(f, who, row) && EmissionsFor(f, who, emissions, row) && Ticks(f, who, choice, emissions, row)
    ensures WritesTick(Deployment(), log, SeenRow(who), log, f.settled, choice, emissions, row)
  {
    hide Saga.TickOf, Inv, Describes, FailuresOf, Told, Records, EntryRun, Has, RequestsFor, EmittedRecord;
    LifeOf(log, f, who);
    ToldIs(log, f, who);
    KindOfRow(f, who, row);
    if f.Of(who).sent.None? {
      NothingInRecord(log, f, who, EntryRun(SAGA, f.Of(who).rows, Told(f, who)));
    }
  }

  lemma NothingInRecord(log: Log, f: Facts, who: Who, entry: Option<PlanStep>)
    requires Describes(log, f) && f.Of(who).sent.None?
    ensures entry.Some? && !entry.value.own ==> WritesOf(log, SeenRow(who), HandlerOf(who), entry, [])
  {
    hide Tidy, Tested, RowsOf;
    assert DescribesRun(log, who, f.Of(who));
    if entry.Some? && !entry.value.own {
      var record := EmittedRecord(log, LineageOf(who), entry.value.instance.suspendedAt);
      NoEmissions(log, LineageOf(who), entry.value.instance.suspendedAt);
      assert RequestsFor(record, LineageOf(who), HandlerOf(who), "", 0) == [];
    }
  }

  lemma NoEmissions(log: Log, run: Lineage, at: int)
    requires forall e :: e in log && e.lineage == run ==> e.kind != Emitted
    ensures EmittedRecord(log, run, at) == []
  {
    NoneKept(log, (e: Event) => InStep(log, e, run, at));
  }

  lemma {:induction false} NoneKept(rows: seq<Event>, keep: Event -> bool)
    requires forall e :: e in rows ==> !keep(e)
    ensures Where(rows, keep) == []
  {
    if rows != [] {
      NoneKept(rows[1..], keep);
    }
  }

  /** A run resumes: picked, locked, read again, one tick, one commit. */
  ghost predicate Resumes(f: Facts, who: Who, choice: Choice, emissions: seq<Event>, row: Event, f': Facts) {
    && CanResume(f, who) && RowFor(f, who, row) && EmissionsFor(f, who, emissions, row)
    && Ticks(f, who, choice, emissions, row)
    && (f.Of(who).waitsFor.Some? ==> row.kind == Suspended || row.kind == RollingBack || f.Of(who).rolling)
    && f' == Wrote(f, who, emissions, row)
  }

  function Held(s: State, phase: Phase): State {
    s.(workers := map[0 := phase])
  }

  /** Nobody is at work, and the query lets the run resume. */
  ghost predicate CanRead(s: State, who: Who) {
    Reached(s) && s.workers == NOBODY && Ready(s.log, s.settled, HandlerOf(who), SeenRow(who), Standard())
  }

  lemma PickAndLock(s: State, who: Who)
    requires CanRead(s, who)
    ensures Reached(Held(s, Locked(SeenRow(who))))
  {
    hide Reached, Ready;
    assert NOBODY[0 := Picked(SeenRow(who))] == map[0 := Picked(SeenRow(who))];
    Extend(s, Pick(0, HandlerOf(who), SeenRow(who), Standard()), NoChoice(), Held(s, Picked(SeenRow(who))));
    assert map[0 := Picked(SeenRow(who))][0 := Locked(SeenRow(who))] == map[0 := Locked(SeenRow(who))];
    Extend(Held(s, Picked(SeenRow(who))), Lock(0), NoChoice(), Held(s, Locked(SeenRow(who))));
  }

  lemma ReadAgain(s: State, who: Who)
    requires CanRead(s, who)
    ensures Reached(Held(s, Resuming(SeenRow(who), s.log, s.settled)))
  {
    hide Reached, Ready, IsStandard;
    PickAndLock(s, who);
    StandardIsStandard();
    var phase := Resuming(SeenRow(who), s.log, s.settled);
    assert map[0 := Locked(SeenRow(who))][0 := phase] == map[0 := phase];
    Extend(Held(s, Locked(SeenRow(who))), Reread(0, HandlerOf(who), Standard()), NoChoice(), Held(s, phase));
  }

  /** What the reader writes fits the log, and is a tick of its saga. */
  ghost predicate CanWrite(s: State, who: Who, choice: Choice, emissions: seq<Event>, row: Event) {
    && WorkShape(s.log, SeenRow(who), Has(s.log, RollingBack, LineageOf(who)), emissions, row)
    && WritesTick(Deployment(), s.log, SeenRow(who), s.log, s.settled, choice, emissions, row)
  }

  lemma WriteAndLeave(s: State, who: Who, choice: Choice, emissions: seq<Event>, row: Event) returns (s': State)
    requires CanRead(s, who) && CanWrite(s, who, choice, emissions, row)
    ensures Reached(s') && s'.workers == NOBODY && s'.log == s.log + (emissions + [row])
    ensures s'.settled == if row.kind == Committed || row.kind == RolledBack then s.settled + {row.lineage} else s.settled
  {
    hide Reached, WritesTick, Ready;
    ReadAgain(s, who);
    KindOfWork(s.log, SeenRow(who), emissions, row);
    hide WorkShape;
    var reading := Held(s, Resuming(SeenRow(who), s.log, s.settled));
    var written := Apply(reading, Write(0, emissions, row));
    Extend(reading, Write(0, emissions, row), choice, written);
    if row.kind == RollingBack || row.kind == RollbackFailed {
      s' := Apply(written, Leave(0));
      Extend(written, Leave(0), choice, s');
    } else {
      s' := written;
    }
    assert s'.workers == NOBODY;
  }

  lemma KindOfWork(log: Log, run: Event, emissions: seq<Event>, row: Event)
    requires WorkShape(log, run, Has(log, RollingBack, run.lineage), emissions, row)
    ensures row.kind in {Suspended, Committed, RollingBack, RolledBack, RollbackFailed}
  {}

  lemma ResumesGoes(s: State, f: Facts, who: Who, choice: Choice, emissions: seq<Event>, row: Event, f': Facts)
    requires Stands(s, f) && Resumes(f, who, choice, emissions, row, f')
    ensures At(f')
  {
    hide Describes, Reached, Ticks, RowFor, EmissionsFor, HandlerHasStarted, ChildIsOver, WorkShape, WritesTick, Ready, AsLife,
      Marked;
    ReachedKeepsInv(s);
    ReadyIf(s.log, f, who);
    RowFits(s.log, f, who, emissions, row);
    TickWritten(s.log, f, who, choice, emissions, row);
    KindOfRow(f, who, row);
    var s' := WriteAndLeave(s, who, choice, emissions, row);
    WriteDescribes(s.log, f, who, emissions, row);
    assert Stands(s', f');
  }

  // ---------------------------------------------------------------- plays

  ghost predicate Scene(f: Facts, f': Facts) {
    || (exists who :: Enters(f, who, f'))
    || (exists who :: SetsOff(f, who, f'))
    || (exists who, choice, emissions, row :: Resumes(f, who, choice, emissions, row, f'))
  }

  /** Scenes one after the other, from the empty stage on. */
  ghost predicate Play(facts: seq<Facts>) {
    facts != [] && facts[0] == START
    && forall i {:trigger facts[i]} :: 0 < i < |facts| ==> Scene(facts[i - 1], facts[i])
  }

  ghost predicate Played(f: Facts) {
    exists facts :: Play(facts) && facts[|facts| - 1] == f
  }

  lemma NothingPlayed()
    ensures Played(START)
  {
    assert Play([START]);
  }

  lemma PlaysOn(f: Facts, f': Facts)
    requires Played(f) && Scene(f, f')
    ensures Played(f')
  {
    hide Scene;
    var facts :| Play(facts) && facts[|facts| - 1] == f;
    assert Play(facts + [f']);
  }

  lemma SceneGoes(s: State, f: Facts, f': Facts)
    requires Stands(s, f) && Scene(f, f')
    ensures At(f')
  {
    hide Stands, At, Enters, SetsOff, Resumes;
    if who {:trigger Enters(f, who, f')} :| Enters(f, who, f') {
      EntersGoes(s, f, who, f');
    } else if who {:trigger SetsOff(f, who, f')} :| SetsOff(f, who, f') {
      SetsOffGoes(s, f, who, f');
    } else {
      var who, choice, emissions, row :| Resumes(f, who, choice, emissions, row, f');
      ResumesGoes(s, f, who, choice, emissions, row, f');
    }
  }

  /** What is played can be reached. */
  lemma {:induction false} PlayGoes(facts: seq<Facts>)
    requires Play(facts)
    ensures At(facts[|facts| - 1])
    decreases |facts|
  {
    hide Reached, Describes, Scene;
    var n := |facts| - 1;
    if n == 0 {
      EmptyIsReached();
      NothingOnStage();
      assert Stands(EMPTY, START);
    } else {
      PlayGoes(facts[..n]);
      var s :| Stands(s, facts[n - 1]);
      SceneGoes(s, facts[n - 1], facts[n]);
    }
  }

  lemma PlayedIsReached(f: Facts) returns (s: State)
    requires Played(f)
    ensures Stands(s, f)
  {
    hide Stands, Scene;
    var facts :| Play(facts) && facts[|facts| - 1] == f;
    PlayGoes(facts);
    s :| Stands(s, f);
  }
}
