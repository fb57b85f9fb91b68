/**
 Exactly when the readiness query lets a run resume, under the standard strategy: the candidates, their latest windows, their
 children, and what of them must be over.
 */
module ReadyRuns {
  import opened Options
  import opened EventLog
  import opened Readiness
  import opened Protocol
  import opened CooperationProofs
  import opened AutomatonProofs
  import opened Workers
  import opened Safety
  import opened StandardStrategy
  import opened TreeRollback

  // ---------------------------------------------------------------- candidates

  /** Nothing has ended the run for good, and if it has been asked to roll back it has begun to. */
  ghost predicate Unfinished(log: Log, coroutine: string, seen: Event) {
    && seen in log && seen.kind == Seen && seen.coroutine == Some(coroutine) && !Finished(log, seen.lineage)
    && (RollbackAsked(log, seen.message) ==> Has(log, RollingBack, seen.lineage))
  }

  lemma UnfinishedIff(log: Log, coroutine: string, seen: Event)
    requires Inv(log)
    ensures UnfinishedSeen(log, coroutine, seen) <==> Unfinished(log, coroutine, seen)
  {
    hide LineagesFormTree, SeenUnique, RowsBelongToRuns, EmissionsClosed, WindowsUnmixed, FinishingRowsLast,
      OpenChildrenAwaited, AskedRunsAtRest;
    if UnfinishedSeen(log, coroutine, seen) {
      UnfinishedIsNotFinished(log, coroutine, seen);
    }
    if Unfinished(log, coroutine, seen) {
      assert Row(log, seen);
      var e :| EmissionOf(log, seen, e);
      if Has(log, RollingBack, seen.lineage) {
        RollingBackRowIsTheRuns(log, seen);
      }
    }
  }

  // ---------------------------------------------------------------- children

  lemma ChildTerminatedIff(log: Log, s: Event)
    requires Structure(log) && s in log && s.kind == Seen
    ensures ChildTerminated(log, s) <==> Terminated(log, s.lineage)
  {
    RunLineageIsDeep(log, s);
    forall t | t in log && t.lineage == s.lineage && (t.kind == Committed || t.kind == RolledBack || t.kind == RollbackFailed)
      ensures t.message == s.message
    {
      assert Row(log, t);
      var o :| SeenOf(log, t, o);
      assert o == s;
    }
  }

  /** Going forward: every started child is terminal, whichever window its message was emitted in. */
  lemma SeensTerminatedIff(log: Log, run: Event)
    requires Inv(log) && run in log && run.kind == Seen && !RollbackEmissionsPresent(log, run.lineage)
    ensures AllChildSeensTerminated(log, run.lineage) <==> Quiet(log, run.lineage)
  {
    hide RunsFollowAutomaton, EmissionsClosed, WindowsUnmixed, FinishingRowsLast, OpenChildrenAwaited, AskedRunsAtRest,
      SeenUnique, RowsBelongToRuns, RunsHangUnderEmissions;
    if AllChildSeensTerminated(log, run.lineage) {
      ReadyMeansQuiet(log, run);
    }
    forall s | s in log && ChildSeen(log, run.lineage, s) && Quiet(log, run.lineage) ensures ChildTerminated(log, s) {
      ContainmentIsPrefix(log, run.lineage, s.lineage);
      ChildTerminatedIff(log, s);
    }
  }

  /** In rollback: every started child that has begun to roll back has ended that, one way or the other. */
  ghost predicate ChildRollbacksOver(log: Log, run: Lineage) {
    forall s :: s in log && s.kind == Seen && IsChild(run, s.lineage) && Has(log, RollingBack, s.lineage)
                ==> RollbackTerminated(log, s.lineage)
  }

  /** A ROLLING_BACK belongs to a run, and so does whatever ends it. */
  lemma RollingBackHasRun(log: Log, b: Event) returns (s: Event)
    requires Structure(log) && b in log && b.kind == RollingBack
    ensures s in log && s.kind == Seen && s.lineage == b.lineage && s.message == b.message && s.coroutine == b.coroutine
    ensures ChildRollbackTerminated(log, b) <==> RollbackTerminated(log, s.lineage)
  {
    assert Row(log, b) && |b.lineage| > 0;
    s :| SeenOf(log, b, s);
    forall t | t in log && t.lineage == s.lineage && (t.kind == RolledBack || t.kind == RollbackFailed)
      ensures t.message == b.message
    {
      assert Row(log, t);
      var o :| SeenOf(log, t, o);
      assert o == s;
    }
  }

  lemma RollingBacksTerminatedIff(log: Log, run: Event)
    requires Structure(log) && run in log
    ensures AllChildRollingBacksTerminated(log, run.lineage) <==> ChildRollbacksOver(log, run.lineage)
  {
    hide Structure, ChildRollbackTerminated, LooksLikeChild, IsChild, RollbackTerminated;
    if AllChildRollingBacksTerminated(log, run.lineage) {
      forall s | s in log && s.kind == Seen && IsChild(run.lineage, s.lineage) && Has(log, RollingBack, s.lineage)
        ensures RollbackTerminated(log, s.lineage)
      {
        var b :| b in log && b.kind == RollingBack && b.lineage == s.lineage;
        var o := RollingBackHasRun(log, b);
        OnTree(log, run.lineage, s.lineage);
      }
    }
    if ChildRollbacksOver(log, run.lineage) {
      forall b | b in log && ChildRollingBack(log, run.lineage, b) ensures ChildRollbackTerminated(log, b) {
        var s := RollingBackHasRun(log, b);
        OnTree(log, run.lineage, b.lineage);
        assert Has(log, RollingBack, s.lineage);
      }
    }
  }

  lemma OnTree(log: Log, a: Lineage, b: Lineage)
    requires Structure(log) && IsLineage(log, a) && IsLineage(log, b)
    ensures LooksLikeChild(a, b) <==> IsChild(a, b)
  {
    ContainmentIsPrefix(log, a, b);
  }

  // ---------------------------------------------------------------- registered handlers

  /** A run of this handler for this message has begun to roll back. */
  ghost predicate HandlerRollsBack(log: Log, message: Id, handler: string) {
    exists s :: s in log && s.kind == Seen && s.message == message && s.coroutine == Some(handler)
                && Has(log, RollingBack, s.lineage)
  }

  /** Every registered handler of every request in the latest step of every candidate of the coroutine rolls back. */
  ghost predicate CoroutineHasAllRollingBack(registry: Registry, log: Log, settled: set<Lineage>, coroutine: string) {
    forall k, r, handler | k in log && Candidate(log, settled, coroutine, k) && RollbackEmissionInLatestStep(log, k.lineage, r)
                           && Registered(registry, r.message, handler) ::
      HandlerRollsBack(log, r.message, handler)
  }

  lemma RollingBackIff(log: Log, settled: set<Lineage>, coroutine: string, k: Event, r: Event, handler: string)
    requires Inv(log) && RequestsFollowEmissions(log) && k in log && Candidate(log, settled, coroutine, k)
    requires RollbackEmissionInLatestStep(log, k.lineage, r)
    ensures RollingBackStarted(log, settled, coroutine, r.message, handler) <==> HandlerRollsBack(log, r.message, handler)
  {
    hide Structure, RunsFollowAutomaton, EmissionsClosed, WindowsUnmixed, FinishingRowsLast, OpenChildrenAwaited,
      AskedRunsAtRest, RequestsFollowEmissions, ChildRollbackTerminated, LooksLikeChild, IsChild;
    if RollingBackStarted(log, settled, coroutine, r.message, handler) {
      var p, b :| p in log && Candidate(log, settled, coroutine, p) && b in log && ChildRollingBack(log, p.lineage, b)
                  && b.message == r.message && b.coroutine == Some(handler);
      var s := RollingBackHasRun(log, b);
      assert Has(log, RollingBack, s.lineage);
    }
    if HandlerRollsBack(log, r.message, handler) {
      var s :| s in log && s.kind == Seen && s.message == r.message && s.coroutine == Some(handler)
               && Has(log, RollingBack, s.lineage);
      RequestedRunIsChild(log, k, r, s);
      RollingBackRowIsTheRuns(log, s);
    }
  }

  lemma RequestedRunIsChild(log: Log, k: Event, r: Event, s: Event)
    requires Inv(log) && RequestsFollowEmissions(log) && k in log && k.kind == Seen
    requires RollbackEmissionInLatestStep(log, k.lineage, r) && s in log && s.kind == Seen && s.message == r.message
    ensures LooksLikeChild(k.lineage, s.lineage)
  {
    hide RunsFollowAutomaton, EmissionsClosed, WindowsUnmixed, FinishingRowsLast, OpenChildrenAwaited, AskedRunsAtRest;
    RunIsDeep(log, k);
    assert Row(log, r);
    var e :| e in log && e.kind == Emitted && e.lineage == r.lineage && e.message == r.message && e.createdAt < r.createdAt;
    SameMessageSameParent(log, e, s);
    ChildLooksLikeChild(k.lineage, s.lineage);
  }

  lemma MissingRollbackIff(registry: Registry, log: Log, settled: set<Lineage>, coroutine: string)
    requires Inv(log) && RequestsFollowEmissions(log)
    ensures SomeRollingBackMissing(registry, log, settled, coroutine)
            <==> !CoroutineHasAllRollingBack(registry, log, settled, coroutine)
    ensures registry.pairs == {} ==> !SomeRollingBackMissing(registry, log, settled, coroutine)
  {
    hide Inv, RequestsFollowEmissions, Candidate, RollbackEmissionInLatestStep, RollingBackStarted, HandlerRollsBack;
    if SomeRollingBackMissing(registry, log, settled, coroutine) {
      var pair, k, r :| pair in registry.pairs && k in log && Candidate(log, settled, coroutine, k)
        && r in log && RollbackEmissionInLatestStep(log, k.lineage, r) && registry.topicOf(r.message) == pair.0
        && !RollingBackStarted(log, settled, coroutine, r.message, pair.1);
      RollingBackIff(log, settled, coroutine, k, r, pair.1);
      assert Registered(registry, r.message, pair.1);
    }
    if !CoroutineHasAllRollingBack(registry, log, settled, coroutine) {
      var k, r, handler :| k in log && Candidate(log, settled, coroutine, k) && RollbackEmissionInLatestStep(log, k.lineage, r)
        && Registered(registry, r.message, handler) && !HandlerRollsBack(log, r.message, handler);
      RollingBackIff(log, settled, coroutine, k, r, handler);
      RequestThere(log, k.lineage, r);
      var pair := (registry.topicOf(r.message), handler);
      assert pair in registry.pairs;
    }
  }

  lemma RequestThere(log: Log, run: Lineage, r: Event)
    requires RollbackEmissionInLatestStep(log, run, r)
    ensures r in log
  {}

  // ---------------------------------------------------------------- ready

  /** The run's latest step emitted something. */
  ghost predicate EmittedLately(log: Log, run: Lineage) {
    exists e :: EmissionInLatestStep(log, run, e)
  }

  /** The scope of an unfinished run of the coroutine that is not hidden, or one above it, has been cancelled. */
  ghost predicate SomeoneCancelled(log: Log, settled: set<Lineage>, coroutine: string) {
    exists p, c :: Unfinished(log, coroutine, p) && p.lineage !in settled
                   && c in log && c.kind == CancellationRequested && c.lineage <= p.lineage
  }

  lemma CancelledIff(log: Log, settled: set<Lineage>, coroutine: string)
    requires Inv(log)
    ensures SomeCandidateCancelled(log, settled, coroutine) <==> SomeoneCancelled(log, settled, coroutine)
  {
    hide LineagesFormTree, SeenUnique, RowsBelongToRuns, RunsHangUnderEmissions, RunsFollowAutomaton, EmissionsClosed,
      WindowsUnmixed, FinishingRowsLast, OpenChildrenAwaited, AskedRunsAtRest, UnfinishedSeen, Finished, RollbackAsked, Has;
    if SomeCandidateCancelled(log, settled, coroutine) {
      var p :| p in log && Candidate(log, settled, coroutine, p) && CancellationSeen(log, p);
      UnfinishedIff(log, coroutine, p);
      var c :| c in log && c.kind == CancellationRequested && ContainedIn(c.lineage, p.lineage);
      ContainmentIsPrefix(log, c.lineage, p.lineage);
    }
    if SomeoneCancelled(log, settled, coroutine) {
      var p, c :| Unfinished(log, coroutine, p) && p.lineage !in settled
                  && c in log && c.kind == CancellationRequested && c.lineage <= p.lineage;
      UnfinishedIff(log, coroutine, p);
      ContainmentIsPrefix(log, c.lineage, p.lineage);
    }
  }

  /** What the whole coroutine, and the run's own children, must have done for the run to go on. */
  ghost predicate MayGoOn(registry: Registry, log: Log, settled: set<Lineage>, coroutine: string, run: Lineage) {
    if RollbackEmissionsPresent(log, run) then
      CoroutineHasAllRollingBack(registry, log, settled, coroutine) && ChildRollbacksOver(log, run)
    else
      && (EmittedLately(log, run)
          ==> CoroutineHasAllStarted(registry, log, settled, coroutine) || SomeoneCancelled(log, settled, coroutine))
      && Quiet(log, run)
  }

  lemma StrategyIff(log: Log, settled: set<Lineage>, coroutine: string, run: Event, strategy: Strategy, registry: Registry)
    requires Inv(log) && RequestsFollowEmissions(log) && IsStandard(strategy, registry)
    ensures Consents(log, settled, coroutine, run, strategy)
            <==> if RollbackEmissionsPresent(log, run.lineage)
                 then CoroutineHasAllRollingBack(registry, log, settled, coroutine)
                 else EmittedLately(log, run.lineage)
                      ==> CoroutineHasAllStarted(registry, log, settled, coroutine)
                          || SomeoneCancelled(log, settled, coroutine)
  {
    hide LineagesFormTree, SeenUnique, RowsBelongToRuns, RunsHangUnderEmissions, RunsFollowAutomaton, EmissionsClosed,
      WindowsUnmixed, FinishingRowsLast, OpenChildrenAwaited, AskedRunsAtRest, RequestsFollowEmissions, SomeSeenMissing,
      SomeRollingBackMissing, CoroutineHasAllRollingBack, CoroutineHasAllStarted, SomeCandidateCancelled, SomeoneCancelled;
    CancelledIff(log, settled, coroutine);
    MissingIff(registry, log, settled, coroutine);
    MissingRollbackIff(registry, log, settled, coroutine);
    EmittedThere(log, run.lineage);
    RequestedThere(log, run.lineage);
  }

  lemma EmittedThere(log: Log, run: Lineage)
    ensures EmittedLately(log, run) <==> exists e :: e in log && EmissionInLatestStep(log, run, e)
  {}

  lemma RequestedThere(log: Log, run: Lineage)
    ensures RollbackEmissionsPresent(log, run) <==> exists r :: r in log && RollbackEmissionInLatestStep(log, run, r)
  {}

  /** What the strategy says: go on, or give up. */
  predicate Consents(log: Log, settled: set<Lineage>, coroutine: string, run: Event, strategy: Strategy) {
    || (if RollbackEmissionsPresent(log, run.lineage) then strategy.resumeRollback(log, settled, coroutine, run)
        else strategy.resumeForward(log, settled, coroutine, run))
    || (if RollbackEmissionsPresent(log, run.lineage) then strategy.giveUpRollback(log, settled, coroutine)
        else strategy.giveUpForward(log, settled, coroutine))
  }

  /**
   Whatever the strategy: on every reachable log the query lets a run resume exactly if the run is unfinished and not hidden
   by its stamp, the strategy consents, and its children are over: those that roll back ROLLED_BACK or ROLLBACK_FAILED where
   its latest step made rollback requests, all that have started otherwise.
   */
  lemma ReadyForAnyStrategy(log: Log, settled: set<Lineage>, coroutine: string, run: Event, strategy: Strategy)
    requires Inv(log)
    ensures Ready(log, settled, coroutine, run, strategy)
            <==> Unfinished(log, coroutine, run) && run.lineage !in settled
                 && Consents(log, settled, coroutine, run, strategy)
                 && if RollbackEmissionsPresent(log, run.lineage) then ChildRollbacksOver(log, run.lineage)
                    else Quiet(log, run.lineage)
  {
    hide LineagesFormTree, SeenUnique, RowsBelongToRuns, RunsHangUnderEmissions, RunsFollowAutomaton, EmissionsClosed,
      WindowsUnmixed, FinishingRowsLast, OpenChildrenAwaited, AskedRunsAtRest, UnfinishedSeen, Quiet, AllChildSeensTerminated,
      AllChildRollingBacksTerminated, RollbackEmissionsPresent, ChildRollbacksOver;
    UnfinishedIff(log, coroutine, run);
    if run in log && run.kind == Seen {
      RollingBacksTerminatedIff(log, run);
      if !RollbackEmissionsPresent(log, run.lineage) {
        SeensTerminatedIff(log, run);
      }
    }
  }

  /**
   Under the standard strategy: where its latest step made rollback requests, every handler requested by a candidate of its
   coroutine must have begun to roll back; otherwise, if it emitted in its latest step, every handler some candidate of its
   coroutine waits for must have started, or one be cancelled.
   */
  lemma ReadyIff(log: Log, settled: set<Lineage>, coroutine: string, run: Event, strategy: Strategy, registry: Registry)
    requires Inv(log) && RequestsFollowEmissions(log) && IsStandard(strategy, registry)
    ensures Ready(log, settled, coroutine, run, strategy)
            <==> Unfinished(log, coroutine, run) && run.lineage !in settled
                 && MayGoOn(registry, log, settled, coroutine, run.lineage)
  {
    hide Inv, RequestsFollowEmissions, IsStandard, Quiet, CoroutineHasAllRollingBack, CoroutineHasAllStarted, Unfinished,
      SomeoneCancelled, RollbackEmissionsPresent, EmittedLately, ChildRollbacksOver, Candidate, ChildrenAllowResume;
    ReadyForAnyStrategy(log, settled, coroutine, run, strategy);
    StrategyIff(log, settled, coroutine, run, strategy, registry);
  }

  lemma {:induction false} RequestsFollowInTrace(states: seq<State>, actions: seq<Action>, i: nat)
    requires Trace(states, actions) && i < |states|
    ensures RequestsFollowEmissions(states[i].log)
  {
    hide Inv, LocksExclusive, SettledEarned, WorkerSound, OthersLeftAlone, RequestsFollowEmissions, Allowed, Next, StepOf;
    if i == 0 {
      NothingFollows();
    } else {
      RequestsFollowInTrace(states, actions, i - 1);
      TraceKeepsSystem(states, actions, i - 1);
      ActionIsAStep(states[i - 1], actions[i - 1], states[i]);
      if StepOf(states[i - 1], actions[i - 1]).Some? {
        StepKeepsRequestsFollow(states[i - 1].log, StepOf(states[i - 1], actions[i - 1]).value);
      }
    }
  }

  lemma NothingFollows()
    ensures RequestsFollowEmissions([])
  {}

  lemma ReadyIffInTrace(states: seq<State>, actions: seq<Action>, i: nat, coroutine: string, run: Event, strategy: Strategy,
                        registry: Registry)
    requires Trace(states, actions) && i < |states| && IsStandard(strategy, registry)
    ensures Ready(states[i].log, states[i].settled, coroutine, run, strategy)
            <==> Unfinished(states[i].log, coroutine, run) && run.lineage !in states[i].settled
                 && MayGoOn(registry, states[i].log, states[i].settled, coroutine, run.lineage)
  {
    hide Inv, LocksExclusive, SettledEarned, WorkerSound, RequestsFollowEmissions;
    hide Ready, Unfinished, MayGoOn, IsStandard, Next;
    TraceKeepsSystem(states, actions, i);
    RequestsFollowInTrace(states, actions, i);
    ReadyIff(states[i].log, states[i].settled, coroutine, run, strategy, registry);
  }
}
