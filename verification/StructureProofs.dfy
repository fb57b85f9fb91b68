/** Every transition keeps the log's structure: the tree of lineages, one SEEN per run, one EMITTED per message. */
module StructureProofs {
  import opened EventLog
  import opened Protocol

  // ---------------------------------------------------------------- what a new row looks like, whatever wrote it

  /** A lineage used for the first time: a new root, or one fresh id below a lineage of the log. */
  ghost predicate OpensLineage(log: Log, lineage: Lineage) {
    |lineage| > 0 && FreshId(log, Tip(lineage)) && (|lineage| > 1 ==> IsLineage(log, Parent(lineage)))
  }

  ghost predicate NewSeen(log: Log, s: Event) {
    && !IsLineage(log, s.lineage)
    && (forall t :: t in log && t.kind == Seen && t.message == s.message ==> t.coroutine != s.coroutine)
    && exists e :: EmissionOf(log, s, e)
  }

  ghost predicate NewRootRow(log: Log, e: Event) {
    && (Own(e.kind) ==> e.kind == Emitted || e.kind == RollbackEmitted)
    && (forall f :: f in log && f.lineage == e.lineage ==> f.message == e.message)
    && (e.kind == Emitted || Has(log, Emitted, e.lineage))
  }

  /** One new row, judged against the log before the step. */
  ghost predicate WellPlaced(log: Log, e: Event) {
    && |e.lineage| > 0
    && (e.kind == Seen ==> |e.lineage| > 1 && NewSeen(log, e))
    && (Own(e.kind) && |e.lineage| > 1 && e.kind != Seen ==> exists s :: SeenOf(log, e, s))
    && (|e.lineage| == 1 ==> NewRootRow(log, e))
    && (if e.kind == Emitted then FreshMessage(log, e.message) else KnownMessage(log, e.message))
  }

  /** All new rows of one step. */
  ghost predicate WellFormedAppend(log: Log, rows: seq<Event>) {
    && (forall e :: e in rows ==> WellPlaced(log, e))
    && ((forall e :: e in rows ==> IsLineage(log, e.lineage)) || (|rows| == 1 && OpensLineage(log, rows[0].lineage)))
    && (forall e :: e in rows && (e.kind == Seen || |e.lineage| == 1) ==> |rows| == 1)
    && (forall e, f :: e in rows && f in rows && e.kind == Emitted && f.kind == Emitted && e.message == f.message
          ==> e == f)
  }

  lemma SingleRow(log: Log, row: Event)
    requires WellPlaced(log, row)
    requires IsLineage(log, row.lineage) || OpensLineage(log, row.lineage)
    ensures WellFormedAppend(log, [row])
  {}

  lemma LaunchWellFormed(log: Log, row: Event)
    requires LaunchAllowed(log, row)
    ensures WellFormedAppend(log, [row])
  {
    SingleRow(log, row);
  }

  lemma RootOrCancelWellFormed(log: Log, row: Event)
    requires RowsBelongToRuns(log) && RunsHangUnderEmissions(log) && LineagesFormTree(log)
    requires row.kind == CancellationRequested || (row.kind == RollbackEmitted && |row.lineage| == 1)
    requires exists e :: e in log && e.lineage == row.lineage && e.message == row.message
    ensures WellFormedAppend(log, [row])
  {
    var e :| e in log && e.lineage == row.lineage && e.message == row.message;
    assert Row(log, e);
    SingleRow(log, row);
  }

  lemma StartRunWellFormed(log: Log, row: Event, emission: Event)
    requires LineagesFormTree(log) && StartRunAllowed(log, row, emission)
    ensures WellFormedAppend(log, [row])
  {
    assert EmissionOf(log, row, emission);
    SingleRow(log, row);
  }

  lemma StartRollbackWellFormed(log: Log, row: Event, request: Event, seen: Event)
    requires RowsBelongToRuns(log) && RunsHangUnderEmissions(log) && LineagesFormTree(log)
    requires StartRollbackAllowed(log, row, request, seen)
    ensures WellFormedAppend(log, [row])
  {
    assert SeenOf(log, row, seen);
    assert Row(log, seen) && Row(log, request);
    SingleRow(log, row);
  }

  lemma WorkRowPlaced(log: Log, run: Event, emissions: seq<Event>, row: Event, e: Event)
    requires RowsBelongToRuns(log) && RunsHangUnderEmissions(log) && LineagesFormTree(log)
    requires WorkAllowed(log, run, emissions, row)
    requires e in emissions || e == row
    ensures WellPlaced(log, e) && e.lineage == run.lineage && |e.lineage| > 1 && e.kind != Seen
  {
    assert Row(log, run);
    assert SeenOf(log, e, run);
    if e.kind == RollbackEmitted {
      assert RollbackEmissionAllowed(log, run, e);
    }
  }

  lemma WorkWellFormed(log: Log, run: Event, emissions: seq<Event>, row: Event)
    requires RowsBelongToRuns(log) && RunsHangUnderEmissions(log) && LineagesFormTree(log)
    requires WorkAllowed(log, run, emissions, row)
    ensures WellFormedAppend(log, emissions + [row])
  {
    hide RowsBelongToRuns, RunsHangUnderEmissions, LineagesFormTree, WellPlaced, EmissionAllowed,
      RollbackEmissionAllowed;
    forall e | e in emissions + [row]
      ensures WellPlaced(log, e) && e.lineage == run.lineage && |e.lineage| > 1 && e.kind != Seen
    {
      WorkRowPlaced(log, run, emissions, row, e);
    }
    forall e | e in emissions + [row] ensures IsLineage(log, e.lineage) {
      assert run.lineage == e.lineage;
    }
  }

  lemma StepWellFormed(log: Log, step: LogStep)
    requires Structure(log) && Allowed(log, step)
    ensures WellFormedAppend(log, Rows(step))
  {
    match step
    case Launch(row) => LaunchWellFormed(log, row);
    case Cancel(row) => RootOrCancelWellFormed(log, row);
    case RequestRollback(row) => RootOrCancelWellFormed(log, row);
    case StartRun(row, emission) => StartRunWellFormed(log, row, emission);
    case StartRollback(row, request, seen) => StartRollbackWellFormed(log, row, request, seen);
    case Work(run, emissions, row) => WorkWellFormed(log, run, emissions, row);
  }

  // ---------------------------------------------------------------- the structure invariants

  lemma AppendKeepsTree(log: Log, rows: seq<Event>)
    requires LineagesFormTree(log) && WellFormedAppend(log, rows)
    ensures LineagesFormTree(log + rows)
  {
    var log' := log + rows;
    forall e, k | e in log' && 1 <= k <= |e.lineage| ensures IsLineage(log', e.lineage[..k]) {
      PrefixIsLineage(log, rows, e, k);
    }
    forall e, f | e in log' && f in log' && Tip(e.lineage) == Tip(f.lineage) ensures e.lineage == f.lineage {
      TipIsUnique(log, rows, e, f);
    }
  }

  lemma PrefixIsLineage(log: Log, rows: seq<Event>, e: Event, k: nat)
    requires LineagesFormTree(log) && WellFormedAppend(log, rows)
    requires e in log + rows && 1 <= k <= |e.lineage|
    ensures IsLineage(log + rows, e.lineage[..k])
  {
    hide WellPlaced;
    if f :| f in log && f.lineage == e.lineage {
      assert IsLineage(log, f.lineage[..k]);
    } else if k == |e.lineage| {
      assert e.lineage[..k] == e.lineage;
    } else {
      var f :| f in log && f.lineage == Parent(e.lineage);
      assert e.lineage[..k] == f.lineage[..k];
      assert IsLineage(log, f.lineage[..k]);
    }
  }

  lemma TipIsUnique(log: Log, rows: seq<Event>, e: Event, f: Event)
    requires LineagesFormTree(log) && WellFormedAppend(log, rows) && e in log + rows && f in log + rows
    requires |e.lineage| > 0 && |f.lineage| > 0 && Tip(e.lineage) == Tip(f.lineage)
    ensures e.lineage == f.lineage
  {
    hide WellPlaced;
    if IsLineage(log, e.lineage) && IsLineage(log, f.lineage) {
      var e0 :| e0 in log && e0.lineage == e.lineage;
      var f0 :| f0 in log && f0.lineage == f.lineage;
      assert Tip(e0.lineage) == Tip(f0.lineage);
    } else {
      assert |rows| == 1 && OpensLineage(log, rows[0].lineage);
    }
  }

  lemma AppendKeepsSeenUnique(log: Log, rows: seq<Event>)
    requires SeenUnique(log) && WellFormedAppend(log, rows)
    ensures SeenUnique(log + rows)
  {
    var log' := log + rows;
    forall s, t | s in log' && t in log' && s.kind == Seen && t.kind == Seen
      && (s.lineage == t.lineage || (s.coroutine == t.coroutine && s.message == t.message))
      ensures s == t
    {
      if s in rows && s !in log { assert NewSeen(log, s); }
      if t in rows && t !in log { assert NewSeen(log, t); }
    }
  }

  lemma RowBelongs(log: Log, rows: seq<Event>, e: Event)
    requires RowsBelongToRuns(log) && WellFormedAppend(log, rows)
    requires e in log + rows && Own(e.kind) && |e.lineage| > 1
    ensures exists s :: SeenOf(log + rows, e, s)
  {
    var s;
    if e in rows && e.kind == Seen {
      s := e;
    } else {
      assert Row(log, e) || WellPlaced(log, e);
      s :| SeenOf(log, e, s);
    }
    assert SeenOf(log + rows, e, s);
  }

  lemma RootRowFits(log: Log, rows: seq<Event>, e: Event, f: Event)
    requires RowsBelongToRuns(log) && WellFormedAppend(log, rows)
    requires e in log + rows && f in log + rows && e.lineage == f.lineage && |e.lineage| == 1
    ensures e.message == f.message
    ensures Own(e.kind) ==> e.kind == Emitted || e.kind == RollbackEmitted
    ensures e == f ==> Has(log + rows, Emitted, e.lineage)
  {
    assert Row(log, e) || e in rows;
    assert e in log || (WellPlaced(log, e) && NewRootRow(log, e));
    assert f in log || (WellPlaced(log, f) && NewRootRow(log, f));
  }

  lemma AppendKeepsRowsBelongToRuns(log: Log, rows: seq<Event>)
    requires RowsBelongToRuns(log) && WellFormedAppend(log, rows)
    ensures RowsBelongToRuns(log + rows)
  {
    var log' := log + rows;
    forall e | Row(log', e) && Own(e.kind) && |e.lineage| > 1 ensures exists s :: SeenOf(log', e, s) {
      RowBelongs(log, rows, e);
    }
    forall e, f | e in log' && f in log' && e.lineage == f.lineage && |e.lineage| == 1
      ensures e.message == f.message && (Own(e.kind) ==> e.kind == Emitted || e.kind == RollbackEmitted)
    {
      RootRowFits(log, rows, e, f);
    }
    forall e | Row(log', e) && |e.lineage| == 1 ensures Has(log', Emitted, e.lineage) {
      RootRowFits(log, rows, e, e);
    }
  }

  lemma AppendKeepsEmissions(log: Log, rows: seq<Event>)
    requires RunsHangUnderEmissions(log) && WellFormedAppend(log, rows)
    ensures RunsHangUnderEmissions(log + rows)
  {
    var log' := log + rows;
    forall s | Row(log', s) && s.kind == Seen ensures exists e :: EmissionOf(log', s, e) {
      assert Row(log, s) || NewSeen(log, s);
      var e :| EmissionOf(log, s, e);
      assert EmissionOf(log', s, e);
    }
    forall r | Row(log', r) ensures KnownMessage(log', r.message) {
      if r in log || r.kind != Emitted {
        assert Row(log, r) || r in rows;
        assert KnownMessage(log, r.message);
      }
    }
    forall e, f | e in log' && f in log' && e.kind == Emitted && f.kind == Emitted && e.message == f.message
      ensures e == f
    {
      if e !in log { assert FreshMessage(log, e.message); }
      if f !in log { assert FreshMessage(log, f.message); }
    }
  }

  lemma StepKeepsStructure(log: Log, step: LogStep)
    requires Structure(log) && Allowed(log, step)
    ensures Structure(log + Rows(step))
  {
    StepWellFormed(log, step);
    AppendKeepsTree(log, Rows(step));
    AppendKeepsSeenUnique(log, Rows(step));
    AppendKeepsRowsBelongToRuns(log, Rows(step));
    AppendKeepsEmissions(log, Rows(step));
  }
}
