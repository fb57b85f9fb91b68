/**
 The append-only event log and the vocabulary every query over it is written in.

 A log is a sequence of rows in commit order.  Ids (UUIDs) are natural numbers drawn from an unbounded
 supply; a lineage is the list of ids from the cooperation root down to one run.
 */
module EventLog {

  import opened Options

  type Id = nat

  type Lineage = seq<Id>

  datatype Kind =
    | Emitted
    | Seen
    | Suspended
    | Committed
    | RollingBack
    | RollbackEmitted
    | RolledBack
    | RollbackFailed
    | CancellationRequested

  datatype Event = Event(
    kind: Kind,
    message: Id,
    lineage: Lineage,
    coroutine: Option<string>,
    step: Option<string>,
    nextStep: Option<nat>,
    handlerIteration: Option<nat>,
    createdAt: int
  )

  type Log = seq<Event>

  // ---------------------------------------------------------------- rows of one lineage

  predicate Has(log: Log, kind: Kind, lineage: Lineage) {
    exists e :: e in log && e.kind == kind && e.lineage == lineage
  }

  predicate IsLineage(log: Log, lineage: Lineage) {
    exists e :: e in log && e.lineage == lineage
  }

  /** The run wrote COMMITTED, ROLLED_BACK or ROLLBACK_FAILED at least once. */
  predicate Terminated(log: Log, lineage: Lineage) {
    Has(log, Committed, lineage) || Has(log, RolledBack, lineage) || Has(log, RollbackFailed, lineage)
  }

  predicate RollbackTerminated(log: Log, lineage: Lineage) {
    Has(log, RolledBack, lineage) || Has(log, RollbackFailed, lineage)
  }

  /** What the log says about "this run is over": a rollback re-opens a committed run. */
  predicate Finished(log: Log, lineage: Lineage) {
    RollbackTerminated(log, lineage)
    || (Has(log, Committed, lineage) && !Has(log, RollingBack, lineage))
  }

  /** Some ROLLBACK_EMITTED row carries this message. */
  predicate RollbackAsked(log: Log, message: Id) {
    exists e :: e in log && e.kind == RollbackEmitted && e.message == message
  }

  /** Every row a run writes about itself, or about messages it emits; a cancellation request comes from outside. */
  predicate Own(kind: Kind) {
    kind != CancellationRequested
  }

  // ---------------------------------------------------------------- lineages

  /** Postgres array containment `a <@ b`: a statement about sets of ids, not about order. */
  predicate ContainedIn(a: Lineage, b: Lineage) {
    forall x :: x in a ==> x in b
  }

  /** The queries' way of saying "direct child": different, containing, one id longer. */
  predicate LooksLikeChild(parent: Lineage, child: Lineage) {
    parent != child && ContainedIn(parent, child) && |child| == |parent| + 1
  }

  function Parent(lineage: Lineage): Lineage
    requires |lineage| > 0
  {
    lineage[..|lineage| - 1]
  }

  function Tip(lineage: Lineage): Id
    requires |lineage| > 0
  {
    lineage[|lineage| - 1]
  }

  predicate IsChild(parent: Lineage, child: Lineage) {
    |child| > 0 && Parent(child) == parent
  }

  // ---------------------------------------------------------------- time stamps

  /** The greatest created_at among the rows of one lineage, if there are any. */
  function LatestStamp(log: Log, lineage: Lineage): (latest: Option<int>)
    ensures latest.None? <==> !IsLineage(log, lineage)
    ensures latest.Some? ==> exists e :: e in log && e.lineage == lineage && e.createdAt == latest.value
    ensures forall e :: e in log && e.lineage == lineage ==> latest.Some? && e.createdAt <= latest.value
  {
    if |log| == 0 then None
    else
      var e := log[|log| - 1];
      var earlier := LatestStamp(log[..|log| - 1], lineage);
      assert log == log[..|log| - 1] + [e];
      if e.lineage != lineage then earlier
      else if earlier.None? || earlier.value < e.createdAt then Some(e.createdAt) else earlier
  }

  /** GREATEST(clock, max(created_at of the lineage) + 1 microsecond): the guarded inserts' created_at. */
  function Stamp(log: Log, lineage: Lineage, clock: int): (at: int)
    ensures at >= clock
    ensures forall e :: e in log && e.lineage == lineage ==> e.createdAt < at
    ensures at == clock || exists e :: e in log && e.lineage == lineage && at == e.createdAt + 1
  {
    var latest := LatestStamp(log, lineage);
    if latest.None? then clock
    else if clock >= latest.value + 1 then clock else latest.value + 1
  }

  // ---------------------------------------------------------------- step windows

  /** No SUSPENDED of the lineage lies strictly between the two instants. */
  predicate NoSuspensionBetween(log: Log, lineage: Lineage, from: int, to: int) {
    !exists mid :: mid in log && mid.kind == Suspended && mid.lineage == lineage
                   && from < mid.createdAt < to
  }

  /** `row` was written in the tick that the SUSPENDED at instant `at` closed. */
  predicate InWindow(log: Log, row: Event, at: int) {
    row.createdAt < at && NoSuspensionBetween(log, row.lineage, row.createdAt, at)
  }

  predicate IsLatestSuspended(log: Log, lineage: Lineage, u: Event) {
    u in log && u.kind == Suspended && u.lineage == lineage
    && forall v :: v in log && v.kind == Suspended && v.lineage == lineage ==> v.createdAt <= u.createdAt
  }

  /** A row of this lineage with the greatest created_at; on a tie the database may return any of them. */
  predicate IsLastRow(log: Log, lineage: Lineage, u: Event) {
    u in log && u.lineage == lineage
    && forall v :: v in log && v.lineage == lineage ==> v.createdAt <= u.createdAt
  }
}
