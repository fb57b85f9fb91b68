/**
 The readiness queries (PendingCoroutineRunSql.ts) as the relations they denote: one predicate per
 common table expression, from candidate_seens to candidate_seens_waiting_to_be_processed.
 */
module Readiness {
  import opened Options
  import opened EventLog

  /**
   An event-loop strategy is any five decisions over the log.  The give-up tests receive the candidate set of a
   whole coroutine, not one run: the EXISTS that uses them re-reads candidate_seens.
   */
  datatype Strategy = Strategy(
    start: (Log, Event) -> bool,
    resumeForward: (Log, set<Lineage>, string, Event) -> bool,
    giveUpForward: (Log, set<Lineage>, string) -> bool,
    resumeRollback: (Log, set<Lineage>, string, Event) -> bool,
    giveUpRollback: (Log, set<Lineage>, string) -> bool
  )

  // ---------------------------------------------------------------- candidate_seens

  /** candidate_seens without the settled_at filter: the branches that are the correctness authority. */
  predicate UnfinishedSeen(log: Log, coroutine: string, seen: Event) {
    && seen in log && seen.kind == Seen && seen.coroutine == Some(coroutine)
    && (exists e :: e in log && e.kind == Emitted && e.message == seen.message)
    && var rollbackEmitted := RollbackAsked(log, seen.message);
       var rollingBack := exists e :: e in log && e.kind == RollingBack && e.message == seen.message
                                      && e.lineage == seen.lineage;
       || (!rollbackEmitted && !rollingBack && !Has(log, Committed, seen.lineage))
       || (!rollbackEmitted && rollingBack && !RollbackTerminated(log, seen.lineage))
       || (rollbackEmitted && rollingBack && !RollbackTerminated(log, seen.lineage))
  }

  predicate Candidate(log: Log, settled: set<Lineage>, coroutine: string, seen: Event) {
    UnfinishedSeen(log, coroutine, seen) && seen.lineage !in settled
  }

  // ---------------------------------------------------------------- children of the latest step

  /** child_emissions_in_latest_step, for one candidate. */
  predicate EmissionInLatestStep(log: Log, run: Lineage, e: Event) {
    && e in log && e.kind == Emitted && e.lineage == run
    && exists u :: u in log && IsLatestSuspended(log, run, u) && InWindow(log, e, u.createdAt)
  }

  /** child_seens, for one candidate. */
  predicate ChildSeen(log: Log, run: Lineage, s: Event) {
    && s in log && s.kind == Seen && LooksLikeChild(run, s.lineage)
    && exists e :: e in log && EmissionInLatestStep(log, run, e) && e.message == s.message
  }

  /** terminated_child_seens. */
  predicate ChildTerminated(log: Log, s: Event) {
    exists t :: t in log && t.message == s.message && t.lineage == s.lineage
                && (t.kind == Committed || t.kind == RolledBack || t.kind == RollbackFailed)
  }

  /** child_rollback_emissions_in_latest_step, for one candidate. */
  predicate RollbackEmissionInLatestStep(log: Log, run: Lineage, r: Event) {
    && r in log && r.kind == RollbackEmitted && r.step.Some? && r.lineage == run
    && exists u :: u in log && IsLatestSuspended(log, run, u) && InWindow(log, r, u.createdAt)
  }

  /** child_rolling_backs, for one candidate: all direct children, not only those of the latest step. */
  predicate ChildRollingBack(log: Log, run: Lineage, b: Event) {
    b in log && b.kind == RollingBack && LooksLikeChild(run, b.lineage)
  }

  /** terminated_child_rolling_backs. */
  predicate ChildRollbackTerminated(log: Log, b: Event) {
    exists t :: t in log && t.message == b.message && t.lineage == b.lineage
                && (t.kind == RolledBack || t.kind == RollbackFailed)
  }

  predicate RollbackEmissionsPresent(log: Log, run: Lineage) {
    exists r :: r in log && RollbackEmissionInLatestStep(log, run, r)
  }

  predicate AllChildSeensTerminated(log: Log, run: Lineage) {
    forall s :: s in log && ChildSeen(log, run, s) ==> ChildTerminated(log, s)
  }

  predicate AllChildRollingBacksTerminated(log: Log, run: Lineage) {
    forall b :: b in log && ChildRollingBack(log, run, b) ==> ChildRollbackTerminated(log, b)
  }

  // ---------------------------------------------------------------- candidate_seens_waiting_to_be_processed

  /** The part of readiness no strategy can change. */
  predicate ChildrenAllowResume(log: Log, run: Lineage) {
    if RollbackEmissionsPresent(log, run)
    then AllChildRollingBacksTerminated(log, run)
    else AllChildSeensTerminated(log, run)
  }

  predicate StrategyAllowsResume(log: Log, settled: set<Lineage>, coroutine: string, seen: Event, strategy: Strategy) {
    if RollbackEmissionsPresent(log, seen.lineage)
    then strategy.resumeRollback(log, settled, coroutine, seen) || strategy.giveUpRollback(log, settled, coroutine)
    else strategy.resumeForward(log, settled, coroutine, seen) || strategy.giveUpForward(log, settled, coroutine)
  }

  predicate Ready(log: Log, settled: set<Lineage>, coroutine: string, seen: Event, strategy: Strategy) {
    && Candidate(log, settled, coroutine, seen)
    && StrategyAllowsResume(log, settled, coroutine, seen, strategy)
    && ChildrenAllowResume(log, seen.lineage)
  }
}
