/**
 The standard strategy (StandardEventLoopStrategy.ts, strategyBuilders.ts): a run resumes once every registered handler
 of every message it waits for has started.
 */
module StandardStrategy {
  import opened Options
  import opened EventLog
  import opened Readiness
  import opened Protocol
  import opened Workers
  import opened Safety

  /** Who listens: (topic, handler) pairs, and the topic each message was published on. */
  datatype Registry = Registry(pairs: set<(string, string)>, topicOf: Id -> string)

  predicate Registered(registry: Registry, message: Id, handler: string) {
    (registry.topicOf(message), handler) in registry.pairs
  }

  // ---------------------------------------------------------------- forward

  /** child_seens has a row for this message and handler: the LEFT JOIN of the inner EXISTS finds a match. */
  predicate SeenStarted(log: Log, settled: set<Lineage>, coroutine: string, message: Id, handler: string) {
    exists p, s :: p in log && Candidate(log, settled, coroutine, p) && s in log && ChildSeen(log, p.lineage, s)
                   && s.message == message && s.coroutine == Some(handler)
  }

  /** The inner EXISTS: some emission of some candidate of this coroutine lacks a registered handler's SEEN. */
  predicate SomeSeenMissing(registry: Registry, log: Log, settled: set<Lineage>, coroutine: string) {
    exists pair, k, e ::
      && pair in registry.pairs && k in log && Candidate(log, settled, coroutine, k)
      && e in log && EmissionInLatestStep(log, k.lineage, e) && registry.topicOf(e.message) == pair.0
      && !SeenStarted(log, settled, coroutine, e.message, pair.1)
  }

  /** allEmissionsHaveCorrespondingContinuationStarts over child_emissions_in_latest_step and child_seens. */
  predicate AllSeensStarted(registry: Registry, log: Log, settled: set<Lineage>, coroutine: string, seen: Event) {
    registry.pairs == {}
    || !((exists e :: e in log && EmissionInLatestStep(log, seen.lineage, e))
         && SomeSeenMissing(registry, log, settled, coroutine))
  }

  // ---------------------------------------------------------------- rollback

  predicate RollingBackStarted(log: Log, settled: set<Lineage>, coroutine: string, message: Id, handler: string) {
    exists p, b :: p in log && Candidate(log, settled, coroutine, p) && b in log && ChildRollingBack(log, p.lineage, b)
                   && b.message == message && b.coroutine == Some(handler)
  }

  predicate SomeRollingBackMissing(registry: Registry, log: Log, settled: set<Lineage>, coroutine: string) {
    exists pair, k, r ::
      && pair in registry.pairs && k in log && Candidate(log, settled, coroutine, k)
      && r in log && RollbackEmissionInLatestStep(log, k.lineage, r) && registry.topicOf(r.message) == pair.0
      && !RollingBackStarted(log, settled, coroutine, r.message, pair.1)
  }

  predicate AllRollingBacksStarted(registry: Registry, log: Log, settled: set<Lineage>, coroutine: string, seen: Event) {
    registry.pairs == {}
    || !((exists r :: r in log && RollbackEmissionInLatestStep(log, seen.lineage, r))
         && SomeRollingBackMissing(registry, log, settled, coroutine))
  }

  /** The give-up query for a whole coroutine: some candidate's scope, or one above it, is cancelled. */
  predicate SomeCandidateCancelled(log: Log, settled: set<Lineage>, coroutine: string) {
    exists p :: p in log && Candidate(log, settled, coroutine, p) && CancellationSeen(log, p)
  }

  /**
   The standard strategy where no deadline passes: going forward it gives up on a cancellation request; on the rollback path
   it knows deadlines only, so it never does.
   */
  ghost predicate IsStandard(strategy: Strategy, registry: Registry) {
    && (forall log, settled, c, seen ::
          strategy.resumeForward(log, settled, c, seen) == AllSeensStarted(registry, log, settled, c, seen))
    && (forall log, settled, c, seen ::
          strategy.resumeRollback(log, settled, c, seen) == AllRollingBacksStarted(registry, log, settled, c, seen))
    && (forall log, settled, c :: strategy.giveUpForward(log, settled, c) == SomeCandidateCancelled(log, settled, c))
    && (forall log, settled, c :: !strategy.giveUpRollback(log, settled, c))
  }

  // ---------------------------------------------------------------- what a resume may rely on

  /** A SEEN with the message a run emitted is a child of that run. */
  lemma SameMessageSameParent(log: Log, e: Event, s: Event)
    requires RunsHangUnderEmissions(log) && e in log && e.kind == Emitted
    requires s in log && s.kind == Seen && s.message == e.message
    ensures IsChild(e.lineage, s.lineage)
  {
    assert Row(log, s);
    var f :| EmissionOf(log, s, f);
    assert e == f;
  }

  ghost predicate HandlerFinished(log: Log, e: Event, handler: string) {
    exists s :: s in log && s.kind == Seen && s.message == e.message && s.coroutine == Some(handler)
                && IsChild(e.lineage, s.lineage) && Terminated(log, s.lineage)
  }

  lemma NoSeenMissing(registry: Registry, log: Log, settled: set<Lineage>, coroutine: string, run: Event, e: Event,
                      handler: string)
    requires AllSeensStarted(registry, log, settled, coroutine, run) && Candidate(log, settled, coroutine, run)
    requires e in log && EmissionInLatestStep(log, run.lineage, e) && Registered(registry, e.message, handler)
    ensures SeenStarted(log, settled, coroutine, e.message, handler)
  {
    var pair := (registry.topicOf(e.message), handler);
    assert pair in registry.pairs && registry.topicOf(e.message) == pair.0;
  }

  lemma NoRollingBackMissing(registry: Registry, log: Log, settled: set<Lineage>, coroutine: string, run: Event, r: Event,
                             handler: string)
    requires AllRollingBacksStarted(registry, log, settled, coroutine, run) && Candidate(log, settled, coroutine, run)
    requires r in log && RollbackEmissionInLatestStep(log, run.lineage, r) && Registered(registry, r.message, handler)
    ensures RollingBackStarted(log, settled, coroutine, r.message, handler)
  {
    var pair := (registry.topicOf(r.message), handler);
    assert pair in registry.pairs && registry.topicOf(r.message) == pair.0;
  }

  lemma StartedIsFinished(log: Log, settled: set<Lineage>, coroutine: string, run: Event, e: Event, handler: string)
    requires Inv(log) && run in log && run.kind == Seen && Quiet(log, run.lineage)
    requires e in log && e.kind == Emitted && e.lineage == run.lineage
    requires SeenStarted(log, settled, coroutine, e.message, handler)
    ensures HandlerFinished(log, e, handler)
  {
    var p, s :| p in log && Candidate(log, settled, coroutine, p) && s in log && ChildSeen(log, p.lineage, s)
                && s.message == e.message && s.coroutine == Some(handler);
    SameMessageSameParent(log, e, s);
  }

  lemma ReadyMeansHandlersFinished(log: Log, settled: set<Lineage>, coroutine: string, run: Event, strategy: Strategy,
                                   registry: Registry, e: Event, handler: string)
    requires Inv(log) && IsStandard(strategy, registry) && Ready(log, settled, coroutine, run, strategy)
    requires !RollbackEmissionsPresent(log, run.lineage)
    requires e in log && EmissionInLatestStep(log, run.lineage, e) && Registered(registry, e.message, handler)
    ensures HandlerFinished(log, e, handler) || SomeCandidateCancelled(log, settled, coroutine)
  {
    if !SomeCandidateCancelled(log, settled, coroutine) {
      NoSeenMissing(registry, log, settled, coroutine, run, e, handler);
      ReadyMeansQuiet(log, run);
      StartedIsFinished(log, settled, coroutine, run, e, handler);
    }
  }

  /**
   Whenever a run resumes forward, every registered handler of every message in the window it leaves has a run with a
   terminal row, although the strategy's inner EXISTS is not tied to the run it decides about; unless some candidate of its
   coroutine, not necessarily this one, is cancelled.
   */
  lemma ForwardResumeWaitsForAllHandlers(states: seq<State>, actions: seq<Action>, i: nat, registry: Registry,
                                         e: Event, handler: string)
    requires Trace(states, actions) && i < |actions| && actions[i].Reread?
    requires IsStandard(actions[i].strategy, registry)
    requires var run := states[i].workers[actions[i].worker].run;
             && !RollbackEmissionsPresent(states[i].log, run.lineage)
             && e in states[i].log && EmissionInLatestStep(states[i].log, run.lineage, e)
    requires Registered(registry, e.message, handler)
    ensures HandlerFinished(states[i].log, e, handler)
            || SomeCandidateCancelled(states[i].log, states[i].settled, actions[i].coroutine)
  {
    TraceKeepsSystem(states, actions, i);
    var Reread(w, coroutine, strategy) := actions[i];
    assert Enabled(states[i], actions[i]);
    ReadyMeansHandlersFinished(states[i].log, states[i].settled, coroutine, states[i].workers[w].run, strategy, registry,
                               e, handler);
  }

  ghost predicate HandlerStarted(log: Log, e: Event, handler: string) {
    exists s :: s in log && s.kind == Seen && s.message == e.message && s.coroutine == Some(handler)
                && IsChild(e.lineage, s.lineage)
  }

  /** Every registered handler of every emission in the latest step of every candidate of the coroutine has started. */
  ghost predicate CoroutineHasAllStarted(registry: Registry, log: Log, settled: set<Lineage>, coroutine: string) {
    forall k, e, handler | k in log && Candidate(log, settled, coroutine, k) && e in log
                           && EmissionInLatestStep(log, k.lineage, e) && Registered(registry, e.message, handler) ::
      HandlerStarted(log, e, handler)
  }

  lemma StartedIff(log: Log, settled: set<Lineage>, coroutine: string, k: Event, e: Event, handler: string)
    requires RunsHangUnderEmissions(log) && k in log && Candidate(log, settled, coroutine, k)
    requires e in log && EmissionInLatestStep(log, k.lineage, e)
    ensures SeenStarted(log, settled, coroutine, e.message, handler) <==> HandlerStarted(log, e, handler)
  {
    if SeenStarted(log, settled, coroutine, e.message, handler) {
      var p, s :| p in log && Candidate(log, settled, coroutine, p) && s in log && ChildSeen(log, p.lineage, s)
                  && s.message == e.message && s.coroutine == Some(handler);
      SameMessageSameParent(log, e, s);
    }
    if HandlerStarted(log, e, handler) {
      var s :| s in log && s.kind == Seen && s.message == e.message && s.coroutine == Some(handler)
               && IsChild(e.lineage, s.lineage);
      ChildLooksLikeChild(e.lineage, s.lineage);
      assert ChildSeen(log, k.lineage, s);
    }
  }

  /**
   What the untied EXISTS decides, on every reachable log: a run that emitted in its latest step passes exactly if every
   candidate of its coroutine has every handler started, so one waiting run holds back all the others.
   */
  lemma ResumeIsDecidedByTheWholeCoroutine(states: seq<State>, actions: seq<Action>, i: nat, registry: Registry,
                                           coroutine: string, run: Event)
    requires Trace(states, actions) && i < |states|
    requires exists e :: e in states[i].log && EmissionInLatestStep(states[i].log, run.lineage, e)
    ensures AllSeensStarted(registry, states[i].log, states[i].settled, coroutine, run)
            <==> CoroutineHasAllStarted(registry, states[i].log, states[i].settled, coroutine)
  {
    TraceKeepsSystem(states, actions, i);
    MissingIff(registry, states[i].log, states[i].settled, coroutine);
  }

  lemma MissingIff(registry: Registry, log: Log, settled: set<Lineage>, coroutine: string)
    requires RunsHangUnderEmissions(log)
    ensures SomeSeenMissing(registry, log, settled, coroutine)
            <==> !CoroutineHasAllStarted(registry, log, settled, coroutine)
    ensures registry.pairs == {} ==> !SomeSeenMissing(registry, log, settled, coroutine)
  {
    hide Candidate, EmissionInLatestStep, SeenStarted, HandlerStarted, RunsHangUnderEmissions;
    if SomeSeenMissing(registry, log, settled, coroutine) {
      var pair, k, e :| pair in registry.pairs && k in log && Candidate(log, settled, coroutine, k)
        && e in log && EmissionInLatestStep(log, k.lineage, e) && registry.topicOf(e.message) == pair.0
        && !SeenStarted(log, settled, coroutine, e.message, pair.1);
      StartedIff(log, settled, coroutine, k, e, pair.1);
      assert Registered(registry, e.message, pair.1);
    }
    if !CoroutineHasAllStarted(registry, log, settled, coroutine) {
      var k, e, handler :| k in log && Candidate(log, settled, coroutine, k) && e in log
        && EmissionInLatestStep(log, k.lineage, e) && Registered(registry, e.message, handler)
        && !HandlerStarted(log, e, handler);
      StartedIff(log, settled, coroutine, k, e, handler);
      var pair := (registry.topicOf(e.message), handler);
      assert pair in registry.pairs;
    }
  }

  /** On the rollback path, cancelled or not: every registered handler of a requested message has rolled back, or failed to. */
  lemma ReadyMeansRollbacksFinished(log: Log, settled: set<Lineage>, coroutine: string, run: Event, strategy: Strategy,
                                    registry: Registry, r: Event, s: Event)
    requires Inv(log) && IsStandard(strategy, registry) && Ready(log, settled, coroutine, run, strategy)
    requires r in log && RollbackEmissionInLatestStep(log, run.lineage, r)
    requires s in log && s.kind == Seen && s.message == r.message && IsChild(run.lineage, s.lineage)
    requires s.coroutine.Some? && Registered(registry, r.message, s.coroutine.value)
    ensures RollbackTerminated(log, s.lineage)
  {
    assert RollbackEmissionsPresent(log, run.lineage);
    NoRollingBackMissing(registry, log, settled, coroutine, run, r, s.coroutine.value);
    StartedRollbackIsFinished(log, settled, coroutine, run, r, s);
  }

  lemma StartedRollbackIsFinished(log: Log, settled: set<Lineage>, coroutine: string, run: Event, r: Event, s: Event)
    requires Structure(log) && AllChildRollingBacksTerminated(log, run.lineage)
    requires s in log && s.kind == Seen && s.message == r.message && IsChild(run.lineage, s.lineage)
    requires s.coroutine.Some? && RollingBackStarted(log, settled, coroutine, r.message, s.coroutine.value)
    ensures RollbackTerminated(log, s.lineage)
  {
    hide LineagesFormTree, RunsHangUnderEmissions, RowsBelongToRuns, SeenUnique, Candidate;
    var p, b :| p in log && Candidate(log, settled, coroutine, p) && b in log && ChildRollingBack(log, p.lineage, b)
                && b.message == r.message && b.coroutine == s.coroutine;
    RollingBackBelongsTo(log, b, s);
    ChildLooksLikeChild(run.lineage, s.lineage);
    assert ChildRollingBack(log, run.lineage, b);
  }

  lemma ChildLooksLikeChild(parent: Lineage, child: Lineage)
    requires IsChild(parent, child)
    ensures LooksLikeChild(parent, child)
  {
    assert child[..|child| - 1] == parent;
  }

  lemma RollingBackBelongsTo(log: Log, b: Event, s: Event)
    requires Structure(log) && b in log && b.kind == RollingBack
    requires s in log && s.kind == Seen && s.message == b.message && s.coroutine == b.coroutine
    ensures b.lineage == s.lineage
  {
    assert Row(log, b) && |b.lineage| > 0;
    var owner :| SeenOf(log, b, owner);
    assert owner == s;
  }
}
