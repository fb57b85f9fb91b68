/** For any clock: guarded rows are strictly later than everything before them, and the step windows are a partition. */
module Windows {
  import opened Options
  import opened EventLog
  import opened Protocol
  import opened Workers

  /**
   Inserted by the GREATEST rule.  SEEN and reconcile's ROLLING_BACK use the column default; the ROLLING_BACK a worker writes
   does not, and names the step that failed.
   */
  predicate Guarded(e: Event) {
    e.kind != Seen && (e.kind == RollingBack ==> e.step.Some?)
  }

  /** Rows i..j are rollback requests of one INSERT ... SELECT, which reads max(created_at) once. */
  ghost predicate OneStatement(log: Log, i: nat, j: nat)
    requires i <= j < |log|
  {
    forall k :: i <= k <= j ==> log[k].kind == RollbackEmitted
  }

  ghost predicate StampsIncrease(log: Log) {
    forall i, j | 0 <= i < j < |log| && log[i].lineage == log[j].lineage && Guarded(log[j]) ::
      log[i].createdAt < log[j].createdAt || OneStatement(log, i, j)
  }

  lemma SingleRowKeepsStamps(log: Log, row: Event)
    requires StampsIncrease(log)
    requires Guarded(row) ==> After(log, row)
    ensures StampsIncrease(log + [row])
  {
    var log' := log + [row];
    forall i, j | 0 <= i < j < |log'| && log'[i].lineage == log'[j].lineage && Guarded(log'[j])
      ensures log'[i].createdAt < log'[j].createdAt || OneStatement(log', i, j)
    {
      if j < |log| {
        assert log[i] == log'[i] && log[j] == log'[j];
        assert OneStatement(log, i, j) ==> OneStatement(log', i, j);
      } else {
        assert log'[i] in log;
      }
    }
  }

  lemma WorkKeepsStamps(log: Log, run: Event, rolling: bool, emissions: seq<Event>, row: Event)
    requires StampsIncrease(log) && WorkShape(log, run, rolling, emissions, row)
    ensures StampsIncrease(log + (emissions + [row]))
  {
    var log' := log + (emissions + [row]);
    forall i, j | 0 <= i < j < |log'| && log'[i].lineage == log'[j].lineage && Guarded(log'[j])
      ensures log'[i].createdAt < log'[j].createdAt || OneStatement(log', i, j)
    {
      if j < |log| {
        assert log[i] == log'[i] && log[j] == log'[j];
        assert OneStatement(log, i, j) ==> OneStatement(log', i, j);
      } else if i < |log| {
        assert log'[i] in log;
        assert log'[j] in emissions ==> EmissionAllowed(log, run, log'[j]) || RollbackEmissionAllowed(log, run, log'[j]);
      } else if j < |log'| - 1 {
        BatchInOrder(log, run, rolling, emissions, row, i - |log|, j - |log|);
        assert OneStatement(emissions, i - |log|, j - |log|) ==> OneStatement(log', i, j) by {
          assert forall k :: i <= k <= j ==> log'[k] == emissions[k - |log|];
        }
      } else {
        assert log'[i] == emissions[i - |log|];
      }
    }
  }

  lemma BatchInOrder(log: Log, run: Event, rolling: bool, emissions: seq<Event>, row: Event, i: nat, j: nat)
    requires WorkShape(log, run, rolling, emissions, row) && i < j < |emissions|
    ensures emissions[i].createdAt < emissions[j].createdAt || OneStatement(emissions, i, j)
  {
    if emissions[j].kind != Emitted {
      assert emissions[j] in emissions;
      forall k | i <= k <= j ensures emissions[k].kind == RollbackEmitted {
        assert emissions[k] in emissions;
      }
    }
  }

  lemma AppendKeepsStamps(log: Log, step: LogStep)
    requires Allowed(log, step) && !step.Work? && StampsIncrease(log)
    ensures StampsIncrease(log + Rows(step))
  {
    assert Guarded(step.row) ==> After(log, step.row);
    SingleRowKeepsStamps(log, step.row);
  }

  lemma ActionKeepsStamps(s: State, a: Action, s': State)
    requires Next(s, a, s') && StampsIncrease(s.log)
    ensures StampsIncrease(s'.log)
  {
    match a
    case Append(step) => AppendKeepsStamps(s.log, step);
    case Write(w, emissions, row) =>
      var Resuming(run, view, _) := s.workers[w];
      WorkKeepsStamps(s.log, run, Has(view, RollingBack, run.lineage), emissions, row);
    case _ =>
  }

  /** Whatever the clocks do, every guarded row is strictly after all earlier rows of its lineage. */
  lemma {:induction false} GuardedRowsComeLater(states: seq<State>, actions: seq<Action>, k: nat)
    requires Trace(states, actions) && k < |states|
    ensures StampsIncrease(states[k].log)
  {
    if k > 0 {
      GuardedRowsComeLater(states, actions, k - 1);
      ActionKeepsStamps(states[k - 1], actions[k - 1], states[k]);
    }
  }

  // ---------------------------------------------------------------- windows partition the emissions

  predicate SuspendsAfter(u: Event, run: Lineage, at: int) {
    u.kind == Suspended && u.lineage == run && at < u.createdAt
  }

  /** The earliest suspension of a run after an instant. */
  lemma {:induction false} EarliestSuspension(log: Log, run: Lineage, at: int) returns (u: Event)
    requires exists v :: v in log && SuspendsAfter(v, run, at)
    ensures u in log && SuspendsAfter(u, run, at)
    ensures forall v :: v in log && SuspendsAfter(v, run, at) ==> u.createdAt <= v.createdAt
  {
    var before, e := log[..|log| - 1], log[|log| - 1];
    assert log == before + [e];
    if exists v :: v in before && SuspendsAfter(v, run, at) {
      u := EarliestSuspension(before, run, at);
      if SuspendsAfter(e, run, at) && e.createdAt < u.createdAt {
        u := e;
      }
    } else {
      u := e;
    }
  }

  /** The suspension whose tick wrote `row`. */
  ghost predicate Closes(log: Log, u: Event, row: Event) {
    u in log && u.kind == Suspended && u.lineage == row.lineage && InWindow(log, row, u.createdAt)
  }

  /** Every emission and rollback request of a run lies in the window of exactly one suspension. */
  lemma WindowsPartitionEmissions(states: seq<State>, actions: seq<Action>, k: nat, row: Event)
    requires Trace(states, actions) && k < |states| && row in states[k].log && |row.lineage| > 1
    requires row.kind == Emitted || row.kind == RollbackEmitted
    ensures exists u :: Closes(states[k].log, u, row)
    ensures forall u, v :: Closes(states[k].log, u, row) && Closes(states[k].log, v, row) ==> u == v
  {
    var log := states[k].log;
    TraceKeepsSystem(states, actions, k);
    assert Row(log, row);
    var u := EarliestSuspension(log, row.lineage, row.createdAt);
    assert Closes(log, u, row);
    GuardedRowsComeLater(states, actions, k);
    forall v | Closes(log, v, row) ensures u == v {
      assert u.createdAt == v.createdAt;
      SuspensionsHaveDistinctStamps(log, u, v);
    }
  }

  lemma SuspensionsHaveDistinctStamps(log: Log, u: Event, v: Event)
    requires StampsIncrease(log) && u in log && v in log
    requires u.kind == Suspended && v.kind == Suspended && u.lineage == v.lineage && u.createdAt == v.createdAt
    ensures u == v
  {
    var i :| 0 <= i < |log| && log[i] == u;
    var j :| 0 <= j < |log| && log[j] == v;
    assert i < j ==> log[i].createdAt < log[j].createdAt || OneStatement(log, i, j);
    assert j < i ==> log[j].createdAt < log[i].createdAt || OneStatement(log, j, i);
  }

  // ---------------------------------------------------------------- one row per message

  /** No two rows of this kind carry the same message, not even two equal rows. */
  ghost predicate OncePerMessage(log: Log, kind: Kind) {
    forall i, j :: 0 <= i < j < |log| && log[i].kind == kind && log[j].kind == kind ==> log[i].message != log[j].message
  }

  lemma NewRowsCarryNewMessages(log: Log, step: LogStep, kind: Kind, i: nat)
    requires Allowed(log, step) && (kind == Emitted || kind == RollbackEmitted)
    requires i < |Rows(step)| && Rows(step)[i].kind == kind
    ensures forall e :: e in log && e.kind == kind ==> e.message != Rows(step)[i].message
    ensures forall j :: 0 <= j < |Rows(step)| && j != i && Rows(step)[j].kind == kind
                        ==> Rows(step)[j].message != Rows(step)[i].message
  {
    if step.Work? {
      var e := step.emissions[i];
      assert EmissionAllowed(log, step.run, e) || RollbackEmissionAllowed(log, step.run, e);
    }
  }

  lemma StepKeepsOncePerMessage(log: Log, step: LogStep, kind: Kind)
    requires Allowed(log, step) && (kind == Emitted || kind == RollbackEmitted) && OncePerMessage(log, kind)
    ensures OncePerMessage(log + Rows(step), kind)
  {
    var log' := log + Rows(step);
    forall i, j | 0 <= i < j < |log'| && log'[i].kind == kind && log'[j].kind == kind
      ensures log'[i].message != log'[j].message
    {
      if j >= |log| {
        assert log'[j] == Rows(step)[j - |log|];
        NewRowsCarryNewMessages(log, step, kind, j - |log|);
        if i < |log| { assert log'[i] in log; } else { assert log'[i] == Rows(step)[i - |log|]; }
      }
    }
  }

  /** One EMITTED and one ROLLBACK_EMITTED per message. */
  lemma {:induction false} EachMessageIsAskedOnce(states: seq<State>, actions: seq<Action>, k: nat)
    requires Trace(states, actions) && k < |states|
    ensures OncePerMessage(states[k].log, Emitted) && OncePerMessage(states[k].log, RollbackEmitted)
  {
    if k > 0 {
      EachMessageIsAskedOnce(states, actions, k - 1);
      TraceKeepsSystem(states, actions, k - 1);
      ActionIsAStep(states[k - 1], actions[k - 1], states[k]);
      var step := StepOf(states[k - 1], actions[k - 1]);
      if step.Some? {
        StepKeepsOncePerMessage(states[k - 1].log, step.value, Emitted);
        StepKeepsOncePerMessage(states[k - 1].log, step.value, RollbackEmitted);
      }
    }
  }
}
