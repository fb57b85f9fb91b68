/** The suspensions of one run as the event loop reads them from the log, and what an append does to them. */
module RunRows {
  import opened Options
  import opened EventLog
  import opened Protocol
  import opened Windows
  import Saga

  function SuspendedOf(e: Event): Saga.Suspended
    requires e.step.Some?
  {
    Saga.Suspended(e.step.value, e.nextStep, e.handlerIteration, e.createdAt)
  }

  /** executed_step_instances and latest_suspended: the run's SUSPENDED rows with a step, most recent first. */
  function RowsOf(log: Log, run: Lineage): seq<Saga.Suspended> {
    if |log| == 0 then []
    else
      var e := log[|log| - 1];
      (if e.kind == Suspended && e.lineage == run && e.step.Some? then [SuspendedOf(e)] else [])
      + RowsOf(log[..|log| - 1], run)
  }

  lemma RowsOfAppend(log: Log, e: Event, run: Lineage)
    ensures RowsOf(log + [e], run)
            == (if e.kind == Suspended && e.lineage == run && e.step.Some? then [SuspendedOf(e)] else [])
               + RowsOf(log, run)
  {
    assert (log + [e])[..|log|] == log;
  }

  /** The rows suspend no tick of this run. */
  predicate NoSuspensionOf(rows: seq<Event>, run: Lineage) {
    forall e :: e in rows && e.lineage == run ==> e.kind != Suspended
  }

  lemma {:induction false} RowsOfOthers(log: Log, rows: seq<Event>, run: Lineage)
    requires NoSuspensionOf(rows, run)
    ensures RowsOf(log + rows, run) == RowsOf(log, run)
  {
    if rows == [] {
      assert log + rows == log;
    } else {
      var most, e := rows[..|rows| - 1], rows[|rows| - 1];
      RowsOfOthers(log, most, run);
      assert log + rows == (log + most) + [e];
      RowsOfAppend(log + most, e, run);
    }
  }

  /** A worker's commit puts its row in front. */
  lemma RowsOfWork(log: Log, emissions: seq<Event>, row: Event)
    requires forall e :: e in emissions ==> e.kind != Suspended
    requires row.kind == Suspended && row.step.Some?
    ensures RowsOf(log + (emissions + [row]), row.lineage) == [SuspendedOf(row)] + RowsOf(log, row.lineage)
  {
    RowsOfOthers(log, emissions, row.lineage);
    assert log + (emissions + [row]) == (log + emissions) + [row];
    RowsOfAppend(log + emissions, row, row.lineage);
  }

  lemma PrefixStampsIncrease(log: Log)
    requires StampsIncrease(log) && |log| > 0
    ensures StampsIncrease(log[..|log| - 1])
  {
    var before := log[..|log| - 1];
    forall i, j | 0 <= i < j < |before| && before[i].lineage == before[j].lineage && Guarded(before[j])
      ensures before[i].createdAt < before[j].createdAt || OneStatement(before, i, j)
    {
      assert log[i] == before[i] && log[j] == before[j];
      assert OneStatement(log, i, j) ==> OneStatement(before, i, j);
    }
  }

  /** Reading them off the log and selecting them by created_at DESC gives the same list. */
  lemma {:induction false} RowsAreMostRecentFirst(log: Log, run: Lineage, i: nat, j: nat)
    requires StampsIncrease(log) && i < j < |RowsOf(log, run)|
    ensures RowsOf(log, run)[i].at > RowsOf(log, run)[j].at
  {
    var before, e := log[..|log| - 1], log[|log| - 1];
    PrefixStampsIncrease(log);
    var rest := RowsOf(before, run);
    var first := |RowsOf(log, run)| - |rest|;
    if i >= first {
      RowsAreMostRecentFirst(before, run, i - first, j - first);
    } else {
      var k := RowIsInLog(before, run, j - first);
      assert log[k] == before[k];
      assert !OneStatement(log, k, |log| - 1);
    }
  }

  lemma {:induction false} RowIsInLog(log: Log, run: Lineage, i: nat) returns (k: nat)
    requires i < |RowsOf(log, run)|
    ensures k < |log| && log[k].kind == Suspended && log[k].lineage == run && log[k].step.Some?
    ensures RowsOf(log, run)[i] == SuspendedOf(log[k])
  {
    var before := log[..|log| - 1];
    var first := |RowsOf(log, run)| - |RowsOf(before, run)|;
    if i < first {
      k := |log| - 1;
    } else {
      k := RowIsInLog(before, run, i - first);
    }
  }

  lemma {:induction false} SuspensionIsARow(log: Log, run: Lineage, k: nat) returns (i: nat)
    requires k < |log| && log[k].kind == Suspended && log[k].lineage == run && log[k].step.Some?
    ensures i < |RowsOf(log, run)| && RowsOf(log, run)[i] == SuspendedOf(log[k])
  {
    if k == |log| - 1 {
      i := 0;
    } else {
      var before := log[..|log| - 1];
      var rest := SuspensionIsARow(before, run, k);
      i := rest + |RowsOf(log, run)| - |RowsOf(before, run)|;
    }
  }

  /** A run of which nothing is known has no rows. */
  lemma {:induction false} NoRowsOfStranger(log: Log, run: Lineage)
    requires !IsLineage(log, run)
    ensures RowsOf(log, run) == []
  {
    assert NoSuspensionOf(log, run);
    RowsOfOthers([], log, run);
    assert [] + log == log;
  }
}
