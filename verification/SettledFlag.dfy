/**
 settled_at caches "this run is over" on the SEEN row so that dispatch can skip it.  Updates of the cache skip locked
 rows; these lemmas say exactly how far it can drift and what brings it back.
 */
module SettledFlag {
  import opened Options
  import opened EventLog
  import opened Readiness
  import opened Protocol
  import opened AutomatonProofs
  import opened Workers

  predicate IsSeenOf(log: Log, coroutine: string, lineage: Lineage) {
    exists s :: s in log && s.kind == Seen && s.coroutine == Some(coroutine) && s.lineage == lineage
  }

  /** Stamped although the log says it is unfinished: invisible to dispatch. */
  predicate Hidden(log: Log, settled: set<Lineage>, coroutine: string, lineage: Lineage) {
    lineage in settled && IsSeenOf(log, coroutine, lineage) && !Finished(log, lineage)
  }

  /** The only drift towards "settled": a ROLLING_BACK whose unsettling met a lock. */
  lemma HiddenRunsAreRollingBack(states: seq<State>, actions: seq<Action>, i: nat, coroutine: string, lineage: Lineage)
    requires Trace(states, actions) && i < |states|
    requires Hidden(states[i].log, states[i].settled, coroutine, lineage)
    ensures Has(states[i].log, RollingBack, lineage) && !RollbackTerminated(states[i].log, lineage)
  {
    TraceKeepsSystem(states, actions, i);
    StateDescribesLog(states[i].log, lineage);
  }

  /** Reconcile's stale_rolling_back_unsettle clears exactly the hidden runs of its coroutine that nobody has locked. */
  lemma UnsettleClearsHiddenRuns(states: seq<State>, actions: seq<Action>, i: nat, coroutine: string, lineage: Lineage)
    requires Trace(states, actions) && i < |actions| && actions[i] == Unsettle(coroutine)
    ensures lineage in states[i].settled && lineage !in states[i + 1].settled
            <==> Hidden(states[i].log, states[i].settled, coroutine, lineage) && !RowLocked(states[i], lineage)
    ensures states[i + 1].settled <= states[i].settled
  {
    TraceKeepsSystem(states, actions, i);
    var s := states[i];
    assert s.settled - Unsettled(s, coroutine) == s.settled - states[i + 1].settled;
    StateDescribesLog(s.log, lineage);
    if Hidden(s.log, s.settled, coroutine, lineage) {
      var seen :| seen in s.log && seen.kind == Seen && seen.coroutine == Some(coroutine) && seen.lineage == lineage;
      RollingBackRowIsTheRuns(s.log, seen);
    }
    if StaleSettled(s, coroutine, lineage) {
      StaleIsRollingBack(s, coroutine, lineage);
    }
  }

  /** The ROLLING_BACK the query finds by (coroutine, message) is the one on the SEEN's own lineage. */
  lemma StaleIsRollingBack(s: State, coroutine: string, lineage: Lineage)
    requires Structure(s.log) && StaleSettled(s, coroutine, lineage)
    ensures Has(s.log, RollingBack, lineage) && IsSeenOf(s.log, coroutine, lineage)
  {
    var seen, b :| seen in s.log && seen.kind == Seen && seen.coroutine == Some(coroutine) && seen.lineage == lineage
                   && b in s.log && b.kind == RollingBack && b.coroutine == seen.coroutine && b.message == seen.message;
    assert Row(s.log, b) && |b.lineage| > 0;
    var owner :| SeenOf(s.log, b, owner);
    assert owner == seen;
  }

  /**
   After an uncontended reconcile pass the filter costs nothing: the candidates that pass `settled_at IS NULL` are all
   candidates.
   */
  lemma FilterLosesNothing(states: seq<State>, actions: seq<Action>, i: nat, coroutine: string, seen: Event)
    requires Trace(states, actions) && i < |actions| && actions[i] == Unsettle(coroutine)
    requires forall lineage :: IsSeenOf(states[i].log, coroutine, lineage) ==> !RowLocked(states[i], lineage)
    ensures Candidate(states[i + 1].log, states[i + 1].settled, coroutine, seen)
            <==> UnfinishedSeen(states[i + 1].log, coroutine, seen)
  {
    TraceKeepsSystem(states, actions, i);
    assert states[i + 1].log == states[i].log;
    if UnfinishedSeen(states[i].log, coroutine, seen) {
      UnfinishedIsNotFinished(states[i].log, coroutine, seen);
      assert IsSeenOf(states[i].log, coroutine, seen.lineage);
      UnsettleClearsHiddenRuns(states, actions, i, coroutine, seen.lineage);
    }
  }

  /** Between passes the filter hides only what is listed here, and never a run in forward execution. */
  lemma FilterHidesOnlyStaleRollbacks(states: seq<State>, actions: seq<Action>, i: nat, coroutine: string, seen: Event)
    requires Trace(states, actions) && i < |states| && UnfinishedSeen(states[i].log, coroutine, seen)
    ensures Candidate(states[i].log, states[i].settled, coroutine, seen)
            <==> !Hidden(states[i].log, states[i].settled, coroutine, seen.lineage)
    ensures !Candidate(states[i].log, states[i].settled, coroutine, seen)
            ==> Has(states[i].log, RollingBack, seen.lineage)
  {
    TraceKeepsSystem(states, actions, i);
    UnfinishedIsNotFinished(states[i].log, coroutine, seen);
    if seen.lineage in states[i].settled {
      HiddenRunsAreRollingBack(states, actions, i, coroutine, seen.lineage);
    }
  }

  /** What repairSettledFlags takes for finished is never a candidate. */
  lemma FinishedIsNoCandidate(states: seq<State>, actions: seq<Action>, i: nat, coroutine: string, seen: Event)
    requires Trace(states, actions) && i < |states| && Finished(states[i].log, seen.lineage)
    ensures !UnfinishedSeen(states[i].log, coroutine, seen)
  {
    TraceKeepsSystem(states, actions, i);
    if UnfinishedSeen(states[i].log, coroutine, seen) {
      UnfinishedIsNotFinished(states[i].log, coroutine, seen);
    }
  }

  // ---------------------------------------------------------------- repair

  /** The SEEN rows' lineages the log calls finished. */
  function Truth(log: Log): (truth: set<Lineage>)
    ensures forall l :: l in truth <==> Has(log, Seen, l) && Finished(log, l)
  {
    set s | s in log && s.kind == Seen && Finished(log, s.lineage) :: s.lineage
  }

  /** The rows the first UPDATE of repairSettledFlags stamps. */
  function ToStamp(log: Log, settled: set<Lineage>): (rows: set<Lineage>)
    ensures rows == Truth(log) - settled
  {
    set s | s in log && s.kind == Seen && s.lineage !in settled && Finished(log, s.lineage) :: s.lineage
  }

  /** The rows the second UPDATE clears. */
  function ToClear(log: Log, settled: set<Lineage>): (rows: set<Lineage>)
    ensures forall l :: l in rows <==> l in settled && Has(log, Seen, l) && !Finished(log, l)
  {
    set s | s in log && s.kind == Seen && s.lineage in settled && !Finished(log, s.lineage) :: s.lineage
  }

  /** Stamping, then clearing, arrives at the truth from wherever it starts. */
  lemma RepairReachesTruth(log: Log, settled: set<Lineage>)
    requires forall l :: l in settled ==> Has(log, Seen, l)
    ensures var stamped := settled + ToStamp(log, settled);
            ToClear(log, stamped) == settled - Truth(log) && stamped - ToClear(log, stamped) == Truth(log)
  {
    hide Finished;
  }
}
