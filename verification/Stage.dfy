/**
 A stage for concrete traces: two runs of one coroutine, one child run each, and a handful of facts that say all the
 queries need to know about a log in which nothing else happens.
 */
module Stage {
  import opened Options
  import opened EventLog
  import opened Readiness
  import opened Protocol
  import opened AutomatonProofs
  import opened CooperationProofs
  import opened Workers
  import opened Safety
  import opened StandardStrategy
  import opened Repository
  import opened RunRows
  import opened TreeRollback
  import opened TreeTheorems
  import Saga

  // ---------------------------------------------------------------- the cast

  datatype Who = First | Second | ChildOfFirst | ChildOfSecond

  /** Every coroutine has a single step. */
  const SAGA: Saga.Definition := Saga.Definition(["A"])

  const REGISTRY := Registry({("top", "handler"), ("left", "left handler"), ("right", "right handler")},
                             (m: Id) => if m == 6 then "left" else if m == 8 then "right" else "top")

  function Deployment(): Env {
    Env(c => SAGA, REGISTRY)
  }

  /** Who emits the message this run handles; the first two are launched from outside. */
  function Emitter(who: Who): Lineage {
    match who
    case First => [1]
    case Second => [4]
    case ChildOfFirst => LineageOf(First)
    case ChildOfSecond => LineageOf(Second)
  }

  function LineageOf(who: Who): Lineage {
    match who
    case First => [1, 2]
    case Second => [4, 5]
    case ChildOfFirst => [1, 2, 7]
    case ChildOfSecond => [4, 5, 9]
  }

  function MessageOf(who: Who): Id {
    match who
    case First => 0
    case Second => 3
    case ChildOfFirst => 6
    case ChildOfSecond => 8
  }

  function HandlerOf(who: Who): string {
    match who
    case ChildOfFirst => "left handler"
    case ChildOfSecond => "right handler"
    case _ => "handler"
  }

  function SeenRow(who: Who): Event {
    Event(Seen, MessageOf(who), LineageOf(who), Some(HandlerOf(who)), None, None, None, 0)
  }

  predicate HasChild(who: Who) {
    who == First || who == Second
  }

  function ChildOf(who: Who): Who
    requires HasChild(who)
  {
    if who == First then ChildOfFirst else ChildOfSecond
  }

  lemma Cast(v: Who, w: Who)
    ensures LineageOf(v) == LineageOf(w) ==> v == w
    ensures SeenRow(v) == SeenRow(w) ==> v == w
    ensures IsChild(LineageOf(v), LineageOf(w)) <==> HasChild(v) && ChildOf(v) == w
    ensures |LineageOf(w)| > 1 && IsChild(Emitter(w), LineageOf(w))
  {
    assert Parent(LineageOf(w)) == Emitter(w);
  }

  // ---------------------------------------------------------------- facts

  /**
   What has happened to one run: the EXISTS tests, the rows it suspended with, what its latest step emitted, and what it
   emitted at all.
   */
  datatype Life = Life(started: bool, committed: bool, rolling: bool, rolledBack: bool, failed: bool,
                       rows: seq<Saga.Suspended>, waitsFor: Option<Event>, sent: Option<Event>)

  const UNBORN := Life(false, false, false, false, false, [], None, None)

  /** Every row is earlier than `clock`, every id and message smaller than `next`. */
  datatype Facts = Facts(first: Life, second: Life, left: Life, right: Life, settled: set<Lineage>, clock: nat,
                         next: Id)
  {
    function Of(who: Who): Life {
      match who
      case First => first
      case Second => second
      case ChildOfFirst => left
      case ChildOfSecond => right
    }

    function With(who: Who, life: Life): (f: Facts)
      ensures forall v :: f.Of(v) == if v == who then life else Of(v)
      ensures f.settled == settled && f.clock == clock && f.next == next
    {
      match who
      case First => this.(first := life)
      case Second => this.(second := life)
      case ChildOfFirst => this.(left := life)
      case ChildOfSecond => this.(right := life)
    }
  }

  ghost predicate Tested(log: Log, who: Who, life: Life) {
    var run := LineageOf(who);
    && (SeenRow(who) in log <==> life.started)
    && (Has(log, Committed, run) <==> life.committed)
    && (Has(log, RollingBack, run) <==> life.rolling)
    && (Has(log, RolledBack, run) <==> life.rolledBack)
    && (Has(log, RollbackFailed, run) <==> life.failed)
  }

  ghost predicate Emitting(log: Log, run: Lineage, life: Life) {
    && (forall e :: EmissionInLatestStep(log, run, e) <==> life.waitsFor == Some(e))
    && (life.waitsFor.Some? && !life.rolling ==> ParentStillSuspendedOn(log, life.waitsFor.value))
    && (if life.sent.Some? then ForwardEmission(SAGA, log, run, life.sent.value)
        else forall e :: e in log && e.lineage == run ==> e.kind != Emitted)
  }

  ghost predicate DescribesRun(log: Log, who: Who, life: Life) {
    Tested(log, who, life) && RowsOf(log, LineageOf(who)) == life.rows && Emitting(log, LineageOf(who), life)
  }

  /** Nothing but the cast is on the log. */
  ghost predicate Tidy(log: Log, clock: nat, next: Id) {
    && (forall e :: e in log ==> e.kind != RollbackEmitted && e.kind != CancellationRequested)
    && (forall e :: e in log ==> e.createdAt < clock && e.message < next)
    && (forall e, x :: e in log && x in e.lineage ==> x < next)
    && (forall e :: e in log && e.kind == Seen ==> exists who :: e == SeenRow(who))
  }

  ghost predicate Describes(log: Log, f: Facts) {
    Tidy(log, f.clock, f.next) && forall who :: DescribesRun(log, who, f.Of(who))
  }

  // ---------------------------------------------------------------- reading the facts

  predicate IsCandidate(f: Facts, who: Who) {
    var life := f.Of(who);
    && life.started && LineageOf(who) !in f.settled
    && (if life.rolling then !life.rolledBack && !life.failed else !life.committed)
  }

  lemma NothingAskedYet(log: Log, f: Facts)
    requires Describes(log, f)
    ensures forall m :: !RollbackAsked(log, m)
    ensures forall run :: !RollbackEmissionsPresent(log, run)
    ensures forall settled, c :: !SomeCandidateCancelled(log, settled, c)
  {
    hide DescribesRun;
  }

  /** The tests of one run. */
  lemma LifeOf(log: Log, f: Facts, who: Who)
    requires Describes(log, f)
    ensures var run, life := LineageOf(who), f.Of(who);
            && (SeenRow(who) in log <==> life.started) && (Has(log, Committed, run) <==> life.committed)
            && (Has(log, RollingBack, run) <==> life.rolling) && (Has(log, RolledBack, run) <==> life.rolledBack)
            && (Has(log, RollbackFailed, run) <==> life.failed) && RowsOf(log, run) == life.rows
  {
    hide Tidy, Has, Emitting, RowsOf;
    assert DescribesRun(log, who, f.Of(who));
  }

  lemma SeenHasEmission(log: Log, seen: Event)
    requires Structure(log) && seen in log && seen.kind == Seen
    ensures exists e :: e in log && e.kind == Emitted && e.message == seen.message
    ensures (exists b :: b in log && b.kind == RollingBack && b.message == seen.message && b.lineage == seen.lineage)
            <==> Has(log, RollingBack, seen.lineage)
  {
    hide LineagesFormTree, RowsBelongToRuns, SeenUnique;
    assert Row(log, seen);
    var e :| EmissionOf(log, seen, e);
    if Has(log, RollingBack, seen.lineage) {
      RollingBackRowIsTheRuns(log, seen);
    }
  }

  lemma CandidateIff(log: Log, f: Facts, who: Who)
    requires Inv(log) && Describes(log, f)
    ensures Candidate(log, f.settled, HandlerOf(who), SeenRow(who)) <==> IsCandidate(f, who)
  {
    hide RunsFollowAutomaton, EmissionsClosed, WindowsUnmixed, FinishingRowsLast, OpenChildrenAwaited, AskedRunsAtRest,
      Structure, Describes, RollbackAsked, Has;
    NothingAskedYet(log, f);
    LifeOf(log, f, who);
    if SeenRow(who) in log {
      SeenHasEmission(log, SeenRow(who));
    }
  }

  lemma CandidateIsCast(log: Log, f: Facts, coroutine: string, p: Event)
    requires Inv(log) && Describes(log, f) && Candidate(log, f.settled, coroutine, p)
    ensures exists who :: p == SeenRow(who) && coroutine == HandlerOf(who) && IsCandidate(f, who)
  {
    hide Inv, DescribesRun, UnfinishedSeen;
    var who := CastOf(log, f, p, coroutine);
    CandidateIff(log, f, who);
  }

  lemma CastOf(log: Log, f: Facts, p: Event, coroutine: string) returns (who: Who)
    requires Describes(log, f) && UnfinishedSeen(log, coroutine, p)
    ensures p == SeenRow(who) && coroutine == HandlerOf(who)
  {
    hide DescribesRun;
    who :| p == SeenRow(who);
  }

  lemma OwnerIsCast(log: Log, f: Facts, b: Event) returns (who: Who)
    requires Inv(log) && Describes(log, f) && b in log && b.kind == RollingBack
    ensures b.lineage == LineageOf(who) && LineagesFormTree(log)
  {
    hide RunsFollowAutomaton, EmissionsClosed, WindowsUnmixed, FinishingRowsLast, OpenChildrenAwaited, AskedRunsAtRest,
      RunsHangUnderEmissions, SeenUnique, DescribesRun;
    assert Row(log, b) && |b.lineage| > 0;
    var s :| SeenOf(log, b, s);
    who :| s == SeenRow(who);
  }

  /** Direct children that have begun to roll back. */
  lemma ChildRollingBackIff(log: Log, f: Facts, who: Who, b: Event)
    requires Inv(log) && Describes(log, f) && b in log && b.kind == RollingBack && f.Of(who).started
    ensures ChildRollingBack(log, LineageOf(who), b)
            <==> HasChild(who) && b.lineage == LineageOf(ChildOf(who))
  {
    hide Inv, DescribesRun, SeenOf, IsChild, LooksLikeChild;
    LifeOf(log, f, who);
    var v := OwnerIsCast(log, f, b);
    ContainmentIsPrefix(log, LineageOf(who), b.lineage);
    Cast(who, v);
  }

  /** What the final select reports to a run. */
  function Told(f: Facts, who: Who): Saga.Failures {
    Saga.Failures(HasChild(who) && f.Of(ChildOf(who)).rolling,
                  HasChild(who) && (FailedBelow(f, First) || FailedBelow(f, Second)),
                  f.Of(who).rolling)
  }

  predicate FailedBelow(f: Facts, who: Who)
    requires HasChild(who)
  {
    IsCandidate(f, who) && f.Of(ChildOf(who)).rolling && f.Of(ChildOf(who)).failed
  }

  lemma ChildHasRolledBackIff(log: Log, f: Facts, who: Who)
    requires Inv(log) && Describes(log, f) && f.Of(who).started
    ensures ChildHasRolledBack(log, LineageOf(who)) <==> HasChild(who) && f.Of(ChildOf(who)).rolling
    ensures ChildRollbackHasFailed(log, LineageOf(who))
            <==> HasChild(who) && f.Of(ChildOf(who)).rolling && f.Of(ChildOf(who)).failed
  {
    hide Inv, Describes, ChildRollingBack;
    forall b | b in log && b.kind == RollingBack
      ensures ChildRollingBack(log, LineageOf(who), b) <==> HasChild(who) && b.lineage == LineageOf(ChildOf(who))
    {
      ChildRollingBackIff(log, f, who, b);
    }
    OnlyRollingBacks(log, LineageOf(who));
    if HasChild(who) {
      LifeOf(log, f, ChildOf(who));
    }
  }

  lemma OnlyRollingBacks(log: Log, run: Lineage)
    ensures forall b :: ChildRollingBack(log, run, b) ==> b in log && b.kind == RollingBack
  {}

  lemma ToldIs(log: Log, f: Facts, who: Who)
    requires Inv(log) && Describes(log, f) && f.Of(who).started
    ensures FailuresOf(log, f.settled, HandlerOf(who), LineageOf(who)) == Told(f, who)
  {
    hide Inv, Describes, ChildHasRolledBack, ChildRollbackHasFailed, Candidate, Has;
    ChildHasRolledBackIff(log, f, who);
    LifeOf(log, f, who);
    ReportedIff(log, f, who);
  }

  lemma ReportedIff(log: Log, f: Facts, who: Who)
    requires Inv(log) && Describes(log, f)
    ensures FailedRollbackReported(log, f.settled, HandlerOf(who)) <==> Told(f, who).childRollbackFailed
  {
    hide Inv, Describes, ChildRollbackHasFailed, Candidate, Has;
    if FailedRollbackReported(log, f.settled, HandlerOf(who)) {
      var p :| p in log && Candidate(log, f.settled, HandlerOf(who), p) && ChildRollbackHasFailed(log, p.lineage);
      CandidateIsCast(log, f, HandlerOf(who), p);
      var v :| p == SeenRow(v) && HandlerOf(who) == HandlerOf(v) && IsCandidate(f, v);
      ChildHasRolledBackIff(log, f, v);
    }
    if Told(f, who).childRollbackFailed {
      var v := if FailedBelow(f, First) then First else Second;
      CandidateIff(log, f, v);
      ChildHasRolledBackIff(log, f, v);
      CandidateIsOnLog(log, f.settled, HandlerOf(who), SeenRow(v));
    }
  }

  lemma CandidateIsOnLog(log: Log, settled: set<Lineage>, coroutine: string, p: Event)
    requires Candidate(log, settled, coroutine, p)
    ensures p in log && p.kind == Seen
  {}

  // ---------------------------------------------------------------- readiness

  function Standard(): Strategy {
    Strategy((log, e) => true,
             (log, settled, c, seen) => AllSeensStarted(REGISTRY, log, settled, c, seen),
             (log, settled, c) => SomeCandidateCancelled(log, settled, c),
             (log, settled, c, seen) => AllRollingBacksStarted(REGISTRY, log, settled, c, seen),
             (log, settled, c) => false)
  }

  lemma StandardIsStandard()
    ensures IsStandard(Standard(), REGISTRY)
  {}

  /** The child has a terminal row, or has not started. */
  predicate ChildIsOver(f: Facts, who: Who) {
    HasChild(who) ==>
      var child := f.Of(ChildOf(who)); !child.started || child.committed || child.rolledBack || child.failed
  }

  /** The handler of whatever this run waits for has started. */
  predicate HandlerHasStarted(f: Facts, who: Who) {
    f.Of(who).waitsFor.Some? ==>
      HasChild(who) && f.Of(who).waitsFor.value.message == MessageOf(ChildOf(who))
      && f.Of(ChildOf(who)).started
  }

  predicate CanResume(f: Facts, who: Who) {
    IsCandidate(f, who) && ChildIsOver(f, who) && forall v :: HandlerHasStarted(f, v)
  }

  lemma WaitsFor(log: Log, f: Facts, who: Who, e: Event)
    requires Describes(log, f)
    ensures EmissionInLatestStep(log, LineageOf(who), e) <==> f.Of(who).waitsFor == Some(e)
  {
    hide Tidy, Tested, ForwardEmission, EmissionInLatestStep, RowsOf, ParentStillSuspendedOn;
    assert DescribesRun(log, who, f.Of(who));
  }

  lemma OnlyOneHandler(who: Who, handler: string)
    requires HasChild(who) && Registered(REGISTRY, MessageOf(ChildOf(who)), handler)
    ensures handler == HandlerOf(ChildOf(who))
  {}

  lemma AllHandlersStarted(log: Log, f: Facts, coroutine: string)
    requires Inv(log) && Describes(log, f) && forall v :: HandlerHasStarted(f, v)
    ensures CoroutineHasAllStarted(REGISTRY, log, f.settled, coroutine)
  {
    hide Inv, Describes, Candidate, EmissionInLatestStep, Registered, Has;
    forall k, e, handler | k in log && Candidate(log, f.settled, coroutine, k) && e in log
      && EmissionInLatestStep(log, k.lineage, e) && Registered(REGISTRY, e.message, handler)
      ensures HandlerStarted(log, e, handler)
    {
      CandidateIsCast(log, f, coroutine, k);
      var who :| k == SeenRow(who) && coroutine == HandlerOf(who) && IsCandidate(f, who);
      WaitsFor(log, f, who, e);
      assert HandlerHasStarted(f, who);
      OnlyOneHandler(who, handler);
      LifeOf(log, f, ChildOf(who));
      Cast(who, ChildOf(who));
      EmittedByRun(log, LineageOf(who), e);
      assert SeenRow(ChildOf(who)) in log;
    }
  }

  lemma EmittedByRun(log: Log, run: Lineage, e: Event)
    requires EmissionInLatestStep(log, run, e)
    ensures e.lineage == run
  {}

  lemma ChildrenAreOver(log: Log, f: Facts, who: Who)
    requires Inv(log) && Describes(log, f) && ChildIsOver(f, who)
    ensures AllChildSeensTerminated(log, LineageOf(who))
  {
    hide Inv, Describes, EmissionInLatestStep, Has, IsChild, LooksLikeChild;
    forall s | s in log && ChildSeen(log, LineageOf(who), s) ensures ChildTerminated(log, s) {
      var v := SeenIsCast(log, f, s);
      SeenRunIsKnown(log, who, s);
      Cast(who, v);
      LifeOf(log, f, v);
      TerminalRowIsTheRuns(log, s);
    }
  }

  lemma SeenIsCast(log: Log, f: Facts, s: Event) returns (who: Who)
    requires Describes(log, f) && s in log && s.kind == Seen
    ensures s == SeenRow(who)
  {
    hide DescribesRun;
    who :| s == SeenRow(who);
  }

  /** What looks like a child of a run that emitted is one. */
  lemma SeenRunIsKnown(log: Log, who: Who, s: Event)
    requires Inv(log) && ChildSeen(log, LineageOf(who), s)
    ensures IsChild(LineageOf(who), s.lineage)
  {
    hide RunsFollowAutomaton, EmissionsClosed, WindowsUnmixed, FinishingRowsLast, OpenChildrenAwaited, AskedRunsAtRest,
      RunsHangUnderEmissions, SeenUnique, RowsBelongToRuns;
    var e :| e in log && EmissionInLatestStep(log, LineageOf(who), e) && e.message == s.message;
    ContainmentIsPrefix(log, LineageOf(who), s.lineage);
  }

  lemma TerminalRowIsTheRuns(log: Log, s: Event)
    requires Inv(log) && s in log && s.kind == Seen && Terminated(log, s.lineage)
    ensures ChildTerminated(log, s)
  {
    hide RunsFollowAutomaton, EmissionsClosed, WindowsUnmixed, FinishingRowsLast, OpenChildrenAwaited, AskedRunsAtRest,
      RunsHangUnderEmissions, LineagesFormTree;
    RunIsDeep(log, s);
    var t :| t in log && t.lineage == s.lineage
             && (t.kind == Committed || t.kind == RolledBack || t.kind == RollbackFailed);
    assert Row(log, t);
    var o :| SeenOf(log, t, o);
    assert o == s;
  }

  lemma ReadyIf(log: Log, f: Facts, who: Who)
    requires Inv(log) && Describes(log, f) && CanResume(f, who)
    ensures Ready(log, f.settled, HandlerOf(who), SeenRow(who), Standard())
  {
    hide Inv, Describes, Candidate, SomeSeenMissing, AllChildSeensTerminated, RollbackEmissionsPresent,
      CoroutineHasAllStarted, HandlerHasStarted;
    NothingAskedYet(log, f);
    CandidateIff(log, f, who);
    ChildrenAreOver(log, f, who);
    AllHandlersStarted(log, f, HandlerOf(who));
    MissingIffOnLog(log, f.settled, HandlerOf(who));
  }

  lemma MissingIffOnLog(log: Log, settled: set<Lineage>, coroutine: string)
    requires Inv(log)
    ensures SomeSeenMissing(REGISTRY, log, settled, coroutine)
            <==> !CoroutineHasAllStarted(REGISTRY, log, settled, coroutine)
  {
    hide RunsFollowAutomaton, EmissionsClosed, WindowsUnmixed, FinishingRowsLast, OpenChildrenAwaited, AskedRunsAtRest,
      SomeSeenMissing, CoroutineHasAllStarted;
    MissingIff(REGISTRY, log, settled, coroutine);
  }

  // ---------------------------------------------------------------- what appended rows do to the facts

  lemma LatestStepUnmovedBy(log: Log, rows: seq<Event>, run: Lineage, e: Event)
    requires Unmoved(rows, run)
    ensures EmissionInLatestStep(log + rows, run, e) <==> EmissionInLatestStep(log, run, e)
  {
    var log' := log + rows;
    if u :| u in log && IsLatestSuspended(log, run, u) && e.lineage == run && InWindow(log, e, u.createdAt) {
      assert IsLatestSuspended(log', run, u) && InWindow(log', e, u.createdAt);
    }
    if u :| u in log' && IsLatestSuspended(log', run, u) && e.lineage == run && InWindow(log', e, u.createdAt) {
      assert u in log;
      assert IsLatestSuspended(log, run, u) && InWindow(log, e, u.createdAt);
    }
  }

  lemma ForwardEmissionStays(log: Log, rows: seq<Event>, run: Lineage, e: Event, clock: int)
    requires ForwardEmission(SAGA, log, run, e)
    requires forall r :: r in log ==> r.createdAt < clock
    requires forall r :: r in rows && r.lineage == run && r.kind == Suspended ==> clock <= r.createdAt
    ensures ForwardEmission(SAGA, log + rows, run, e)
  {
    var log' := log + rows;
    var u :| u in log && u.kind == Suspended && u.lineage == run && u.step.Some?
             && u.step.value in SAGA.steps && InStep(log, e, run, u.createdAt);
    assert u in log' && InStep(log', e, run, u.createdAt);
  }

  lemma ParentStaysSuspended(log: Log, rows: seq<Event>, e: Event)
    requires ParentStillSuspendedOn(log, e) && forall r :: r in rows ==> r.lineage != e.lineage
    ensures ParentStillSuspendedOn(log + rows, e)
  {
    var u :| u in log && IsLastRow(log, e.lineage, u) && u.kind == Suspended
             && NoSuspensionBetween(log, e.lineage, e.createdAt, u.createdAt);
    assert IsLastRow(log + rows, e.lineage, u);
  }

  /** What a run emitted stays as it is under rows that neither suspend nor emit for it. */
  lemma EmittingStays(log: Log, rows: seq<Event>, run: Lineage, life: Life, life': Life, clock: int)
    requires Emitting(log, run, life) && life'.waitsFor == life.waitsFor && life'.sent == life.sent
    requires Unmoved(rows, run) && forall r :: r in log ==> r.createdAt < clock
    requires life.waitsFor.Some? && !life'.rolling ==> !life.rolling && forall r :: r in rows ==> r.lineage != run
    ensures Emitting(log + rows, run, life')
  {
    hide ForwardEmission, EmissionInLatestStep, ParentStillSuspendedOn;
    forall e ensures EmissionInLatestStep(log + rows, run, e) <==> EmissionInLatestStep(log, run, e) {
      LatestStepUnmovedBy(log, rows, run, e);
    }
    if life.waitsFor.Some? {
      EmittedByRun(log, run, life.waitsFor.value);
      if !life'.rolling {
        ParentStaysSuspended(log, rows, life.waitsFor.value);
      }
    }
    if life.sent.Some? {
      ForwardEmissionStays(log, rows, run, life.sent.value, clock);
    }
  }

  lemma Tests(log: Log, rows: seq<Event>, run: Lineage)
    ensures Has(log + rows, Committed, run) <==> Has(log, Committed, run) || Has(rows, Committed, run)
    ensures Has(log + rows, RollingBack, run) <==> Has(log, RollingBack, run) || Has(rows, RollingBack, run)
    ensures Has(log + rows, RolledBack, run) <==> Has(log, RolledBack, run) || Has(rows, RolledBack, run)
    ensures Has(log + rows, RollbackFailed, run) <==> Has(log, RollbackFailed, run) || Has(rows, RollbackFailed, run)
  {
    HasSplit(log, rows, Committed, run);
    HasSplit(log, rows, RollingBack, run);
    HasSplit(log, rows, RolledBack, run);
    HasSplit(log, rows, RollbackFailed, run);
  }

  /** No appended row is a SEEN, or ends or begins anything, for this run. */
  ghost predicate NoMarks(rows: seq<Event>, run: Lineage) {
    forall r :: r in rows && r.lineage == run ==> r.kind == Emitted || r.kind == Suspended
  }

  lemma TestedStays(log: Log, rows: seq<Event>, who: Who, life: Life, life': Life)
    requires Tested(log, who, life) && NoMarks(rows, LineageOf(who))
    requires life' == life.(rows := life'.rows, waitsFor := life'.waitsFor, sent := life'.sent)
    ensures Tested(log + rows, who, life')
  {
    Tests(log, rows, LineageOf(who));
  }

  /** Rows of other runs leave a run's life as it is. */
  lemma Bystands(log: Log, rows: seq<Event>, who: Who, life: Life, clock: int)
    requires DescribesRun(log, who, life) && forall r :: r in log ==> r.createdAt < clock
    requires forall r :: r in rows ==> r.lineage != LineageOf(who)
    ensures DescribesRun(log + rows, who, life)
  {
    hide Emitting, Tested, RowsOf;
    TestedStays(log, rows, who, life, life);
    RowsOfOthers(log, rows, LineageOf(who));
    EmittingStays(log, rows, LineageOf(who), life, life, clock);
  }

  /** One row about the run itself that neither suspends nor emits. */
  function Marked(life: Life, kind: Kind): Life {
    match kind
    case Seen => life.(started := true)
    case Committed => life.(committed := true)
    case RollingBack => life.(rolling := true)
    case RolledBack => life.(rolledBack := true)
    case RollbackFailed => life.(failed := true)
    case _ => life
  }

  lemma OneTest(row: Event, run: Lineage)
    requires row.lineage == run
    ensures forall kind :: Has([row], kind, run) <==> row.kind == kind
  {
    forall kind ensures Has([row], kind, run) <==> row.kind == kind {
      assert row in [row];
    }
  }

  lemma TestedMarked(log: Log, row: Event, who: Who, life: Life)
    requires Tested(log, who, life) && row.lineage == LineageOf(who) && (row.kind == Seen ==> row == SeenRow(who))
    requires row.kind in {Seen, Committed, RollingBack, RolledBack, RollbackFailed}
    ensures Tested(log + [row], who, Marked(life, row.kind))
  {
    hide Has, LineageOf;
    Tests(log, [row], LineageOf(who));
    OneTest(row, LineageOf(who));
    assert SeenRow(who) in log + [row] <==> SeenRow(who) in log || row == SeenRow(who);
  }

  lemma MarksRun(log: Log, row: Event, who: Who, life: Life, clock: int)
    requires DescribesRun(log, who, life) && forall r :: r in log ==> r.createdAt < clock
    requires row.lineage == LineageOf(who) && (row.kind == Seen ==> row == SeenRow(who))
    requires row.kind in {Seen, Committed, RollingBack, RolledBack, RollbackFailed}
    requires life.waitsFor.Some? ==> row.kind == RollingBack || life.rolling
    ensures DescribesRun(log + [row], who, Marked(life, row.kind))
  {
    hide Emitting, Tested, RowsOf, LineageOf;
    TestedMarked(log, row, who, life);
    RowsOfOthers(log, [row], LineageOf(who));
    EmittingStays(log, [row], LineageOf(who), life, Marked(life, row.kind), clock);
  }

  function AsLife(life: Life, emissions: seq<Event>, row: Event): Life
    requires row.step.Some?
  {
    life.(rows := [SuspendedOf(row)] + life.rows,
          waitsFor := if emissions == [] then None else Some(emissions[0]),
          sent := if emissions == [] then life.sent else Some(emissions[0]))
  }

  /** A commit that suspends: at most one emission, one clock tick earlier. */
  ghost predicate SuspendsWith(log: Log, run: Lineage, emissions: seq<Event>, row: Event) {
    && Commits(log, run, emissions, row)
    && |emissions| <= 1
    && forall e :: e in emissions ==> e.kind == Emitted && e.createdAt < row.createdAt && row.step.value in SAGA.steps
  }

  lemma LatestStepIsTheCommit(log: Log, run: Lineage, emissions: seq<Event>, row: Event, e: Event)
    requires EmissionsClosed(log) && |run| > 1 && SuspendsWith(log, run, emissions, row)
    ensures EmissionInLatestStep(log + (emissions + [row]), run, e) <==> e in emissions
  {
    var log' := log + (emissions + [row]);
    assert row in log' && IsLatestSuspended(log', run, row);
    if e in emissions {
      assert e in log' && InWindow(log', e, row.createdAt);
    } else if e in log && e.kind == Emitted && e.lineage == run {
      assert Row(log, e);
      var u :| u in log && u.kind == Suspended && u.lineage == e.lineage && e.createdAt < u.createdAt;
      assert u in log';
    }
  }

  lemma CommitSuspendsParent(log: Log, run: Lineage, emissions: seq<Event>, row: Event, e: Event)
    requires SuspendsWith(log, run, emissions, row) && e in emissions
    ensures ParentStillSuspendedOn(log + (emissions + [row]), e)
    ensures ForwardEmission(SAGA, log + (emissions + [row]), run, e)
  {
    var log' := log + (emissions + [row]);
    assert row in log' && IsLastRow(log', run, row);
    assert NoSuspensionBetween(log', run, e.createdAt, row.createdAt);
    assert e in log' && InStep(log', e, run, row.createdAt);
  }

  lemma OnlyTheEmissions(log: Log, run: Lineage, emissions: seq<Event>, row: Event)
    requires SuspendsWith(log, run, emissions, row)
    ensures row.kind == Suspended
  {}

  lemma EmittingSuspends(log: Log, run: Lineage, emissions: seq<Event>, row: Event, life: Life, clock: int)
    requires Emitting(log, run, life) && |run| > 1 && EmissionsClosed(log) && SuspendsWith(log, run, emissions, row)
    requires (forall r :: r in log ==> r.createdAt < clock) && clock <= row.createdAt
    ensures Emitting(log + (emissions + [row]), run, AsLife(life, emissions, row))
  {
    hide ForwardEmission, EmissionInLatestStep, ParentStillSuspendedOn, EmissionsClosed, Commits;
    forall e ensures EmissionInLatestStep(log + (emissions + [row]), run, e) <==> e in emissions {
      LatestStepIsTheCommit(log, run, emissions, row, e);
    }
    OnlyTheEmissions(log, run, emissions, row);
    if emissions != [] {
      CommitSuspendsParent(log, run, emissions, row, emissions[0]);
    } else if life.sent.Some? {
      ForwardEmissionStays(log, emissions + [row], run, life.sent.value, clock);
    }
  }

  lemma SuspendsRun(log: Log, emissions: seq<Event>, row: Event, who: Who, life: Life, clock: int)
    requires DescribesRun(log, who, life) && (forall r :: r in log ==> r.createdAt < clock) && clock <= row.createdAt
    requires EmissionsClosed(log) && SuspendsWith(log, LineageOf(who), emissions, row)
    ensures DescribesRun(log + (emissions + [row]), who, AsLife(life, emissions, row))
  {
    hide Tested, Emitting, RowsOf, EmissionsClosed;
    TestedStays(log, emissions + [row], who, life, AsLife(life, emissions, row));
    RowsOfWork(log, emissions, row);
    EmittingSuspends(log, LineageOf(who), emissions, row, life, clock);
  }
}
