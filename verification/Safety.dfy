/**
 What structured cooperation promises, for every trace: any number of workers, any strategy, any clock, any
 interleaving.
 */
module Safety {
  import opened EventLog
  import opened Readiness
  import opened Protocol
  import opened AutomatonProofs
  import opened Workers

  // ---------------------------------------------------------------- parents and children

  /** A started child without a terminal row belongs to its parent's latest window, and the parent has not finished. */
  lemma OpenChildIsInParentsLatestStep(states: seq<State>, actions: seq<Action>, i: nat, child: Event)
    requires Trace(states, actions) && i < |states|
    requires child in states[i].log && child.kind == Seen && |child.lineage| > 2
    requires !Terminated(states[i].log, child.lineage)
    ensures !Finished(states[i].log, Parent(child.lineage))
    ensures exists u, e :: ParentWaits(states[i].log, child, u, e)
    ensures ChildSeen(states[i].log, Parent(child.lineage), child)
  {
    TraceKeepsSystem(states, actions, i);
    var log := states[i].log;
    assert Row(log, child);
    var u, e :| ParentWaits(log, child, u, e);
    assert Row(log, u);
    var parent :| SeenOf(log, u, parent);
    OpenChildBlocks(log, parent, child);
  }

  /** Whatever a worker writes about its run, every started child of that run is over, and the run itself is not. */
  lemma WriterHasNoOpenChild(states: seq<State>, actions: seq<Action>, i: nat, child: Event)
    requires Trace(states, actions) && i < |actions| && actions[i].Write?
    requires child in states[i].log && child.kind == Seen && IsChild(actions[i].row.lineage, child.lineage)
    ensures Terminated(states[i].log, child.lineage)
    ensures !Finished(states[i].log, actions[i].row.lineage)
  {
    TraceKeepsSystem(states, actions, i);
    assert Enabled(states[i], actions[i]);
    assert WorkerSound(states[i].log, states[i].workers[actions[i].worker]);
  }

  /** No child starts under a parent that finished, or that suspended again after the child's emission was closed. */
  lemma NoChildStartsBehindItsParent(states: seq<State>, actions: seq<Action>, i: nat)
    requires Trace(states, actions) && i < |actions| && actions[i].Append? && actions[i].step.StartRun?
    ensures !Finished(states[i].log, actions[i].step.emission.lineage)
    ensures forall u, v | u in states[i].log && v in states[i].log && u.kind == Suspended && v.kind == Suspended
                          && u.lineage == v.lineage == actions[i].step.emission.lineage
                          && actions[i].step.emission.createdAt < u.createdAt :: v.createdAt <= u.createdAt
  {
    TraceKeepsSystem(states, actions, i);
    assert Enabled(states[i], actions[i]);
    var log, emission := states[i].log, actions[i].step.emission;
    assert Row(log, emission);
    if |emission.lineage| > 1 {
      var parent :| SeenOf(log, emission, parent);
      ParentIsAliveAndLast(log, actions[i].step.row, emission);
    } else {
      RootsNeverFinish(log, emission.lineage);
    }
  }

  lemma RootsNeverFinish(log: Log, root: Lineage)
    requires RowsBelongToRuns(log) && |root| == 1
    ensures !Finished(log, root) && !Has(log, Suspended, root)
  {}

  lemma ParentIsAliveAndLast(log: Log, row: Event, emission: Event)
    requires Inv(log) && StartRunAllowed(log, row, emission) && Has(log, Seen, emission.lineage)
    ensures !Finished(log, emission.lineage)
    ensures forall u, v | u in log && v in log && u.kind == Suspended && v.kind == Suspended
                          && u.lineage == v.lineage == emission.lineage && emission.createdAt < u.createdAt ::
              v.createdAt <= u.createdAt
  {
    var last :| last in log && IsLastRow(log, emission.lineage, last) && last.kind == Suspended
                && NoSuspensionBetween(log, emission.lineage, emission.createdAt, last.createdAt);
  }

  // ---------------------------------------------------------------- workers

  /** The double check closes the race: a writer's view is current, and nobody else resumes the same run. */
  lemma WriterIsAloneAndCurrent(states: seq<State>, actions: seq<Action>, i: nat)
    requires Trace(states, actions) && i < |actions| && actions[i].Write?
    ensures var s, w := states[i], actions[i].worker;
            var Resuming(run, view, _) := s.workers[w];
            && (forall e :: e in s.log && e.lineage == run.lineage && Own(e.kind) <==>
                            e in view && e.lineage == run.lineage && Own(e.kind))
            && (forall v :: v in s.workers && HoldsLock(s.workers[v]) && s.workers[v].run.lineage == run.lineage ==> v == w)
  {
    hide Inv, SettledEarned, WorkShape, Resumable, SelectedBy;
    TraceKeepsSystem(states, actions, i);
    assert Enabled(states[i], actions[i]);
    assert WorkerSound(states[i].log, states[i].workers[actions[i].worker]);
  }

  lemma {:induction false} LogsOnlyGrow(states: seq<State>, actions: seq<Action>, i: nat, j: nat)
    requires Trace(states, actions) && i <= j < |states|
    ensures states[i].log <= states[j].log
  {
    if i < j {
      LogsOnlyGrow(states, actions, i, j - 1);
      assert states[j] == Apply(states[j - 1], actions[j - 1]);
      assert states[j - 1].log <= states[j].log;
    }
  }

  /** Two writes about one run never come from the same suspension: the later writer has read the earlier row. */
  lemma LaterWriterHasReadEarlierWrite(states: seq<State>, actions: seq<Action>, i: nat, j: nat)
    requires Trace(states, actions) && i < j < |actions| && actions[i].Write? && actions[j].Write?
    requires actions[i].row.lineage == actions[j].row.lineage
    ensures actions[i].row in states[j].workers[actions[j].worker].view
    ensures Own(actions[i].row.kind)
  {
    assert Enabled(states[i], actions[i]) && Enabled(states[j], actions[j]);
    LogsOnlyGrow(states, actions, i + 1, j);
    assert states[i + 1] == Apply(states[i], actions[i]);
    assert actions[i].row in actions[i].emissions + [actions[i].row];
    assert actions[i].row in states[i + 1].log;
    WriterIsAloneAndCurrent(states, actions, j);
  }

  // ---------------------------------------------------------------- the life of a run

  function Rank(state: RunState): nat {
    match state
    case NotStarted => 0
    case Forward => 1
    case Done => 2
    case Rolling => 3
    case Ended => 4
    case Stuck => 5
  }

  lemma {:induction false} StateOnlyAdvances(log: Log, run: Lineage, i: nat)
    requires i <= |log|
    ensures Rank(StateOf(log[..i], run)) <= Rank(StateOf(log, run))
  {
    if i < |log| {
      StateOnlyAdvances(log[..|log| - 1], run, i);
      assert log[..|log| - 1][..i] == log[..i];
    } else {
      assert log[..i] == log;
    }
  }

  /** Row i is judged in the state the rows before it leave behind. */
  lemma StateAround(log: Log, run: Lineage, i: nat)
    requires StateOf(log, run) != Stuck && i < |log| && log[i].lineage == run
    ensures Delta(StateOf(log[..i], run), log[i].kind) == StateOf(log[..i + 1], run) != Stuck
    ensures StateOf(log[..i], run) != Stuck
  {
    assert log[..i + 1] == log[..i] + [log[i]];
    StateOfAppend(log[..i], log[i], run);
    StateOnlyAdvances(log, run, i);
    StateOnlyAdvances(log, run, i + 1);
  }

  /** May a row of kind `later` follow a row of kind `earlier` in the life of one run? */
  predicate MayFollow(earlier: Kind, later: Kind) {
    match (earlier, later)
    case (_, Seen) => false
    case (Seen, _) => true
    case (Suspended, _) => true
    case (Committed, _) => later == RollingBack || later == Suspended || later == RolledBack || later == RollbackFailed
    case (RollingBack, _) => later == Suspended || later == RolledBack || later == RollbackFailed
    case (_, _) => false
  }

  lemma TraceFollowsAutomaton(states: seq<State>, actions: seq<Action>, k: nat, run: Lineage)
    requires Trace(states, actions) && k < |states|
    ensures StateOf(states[k].log, run) != Stuck
  {
    TraceKeepsSystem(states, actions, k);
  }

  /**
   The rows about one run, in commit order: SEEN, forward suspensions, at most one COMMITTED, at most one ROLLING_BACK,
   rollback suspensions, at most one rollback terminal and nothing after it.
   */
  lemma RunsFollowOneLife(states: seq<State>, actions: seq<Action>, k: nat, i: nat, j: nat)
    requires Trace(states, actions) && k < |states|
    requires i < j < |states[k].log| && states[k].log[i].lineage == states[k].log[j].lineage
    requires AboutRun(states[k].log[i].kind) && AboutRun(states[k].log[j].kind)
    ensures MayFollow(states[k].log[i].kind, states[k].log[j].kind)
    ensures states[k].log[i].kind == Committed && states[k].log[j].kind != RollingBack
            ==> exists b :: i < b < j && states[k].log[b].kind == RollingBack
                            && states[k].log[b].lineage == states[k].log[i].lineage
  {
    hide Trace;
    var log := states[k].log;
    var run := log[i].lineage;
    TraceFollowsAutomaton(states, actions, k, run);
    StateAround(log, run, i);
    StateAround(log, run, j);
    var between := log[..j];
    assert between[..i + 1] == log[..i + 1];
    StateOnlyAdvances(between, run, i + 1);
    if log[i].kind == Committed && log[j].kind != RollingBack {
      RollbackBegan(log, run, i + 1, j);
    }
  }

  /** From Done to a later state there is a ROLLING_BACK on the way. */
  lemma {:induction false} RollbackBegan(log: Log, run: Lineage, from: nat, to: nat)
    requires from <= to <= |log| && StateOf(log, run) != Stuck
    requires StateOf(log[..from], run) == Done && StateOf(log[..to], run) != Done
    ensures exists b :: from <= b < to && log[b].kind == RollingBack && log[b].lineage == run
  {
    if StateOf(log[..to - 1], run) == Done {
      assert log[..to] == log[..to - 1] + [log[to - 1]];
      StateOfAppend(log[..to - 1], log[to - 1], run);
      StateOnlyAdvances(log, run, to);
    } else {
      RollbackBegan(log, run, from, to - 1);
    }
  }

  // ---------------------------------------------------------------- lineages

  /** On the lineages of a reachable log, containment of id sets is the prefix order. */
  lemma ContainmentIsPrefix(log: Log, a: Lineage, b: Lineage)
    requires LineagesFormTree(log) && IsLineage(log, a) && IsLineage(log, b)
    ensures ContainedIn(a, b) <==> a <= b
    ensures LooksLikeChild(a, b) <==> IsChild(a, b)
  {
    var e :| e in log && e.lineage == a;
    var f :| f in log && f.lineage == b;
    if ContainedIn(a, b) {
      assert Tip(a) in b;
      var k :| 0 <= k < |b| && b[k] == Tip(a);
      assert IsLineage(log, f.lineage[..k + 1]);
      var g :| g in log && g.lineage == b[..k + 1];
      assert Tip(g.lineage) == Tip(e.lineage);
    }
    if a <= b {
      assert forall x :: x in a ==> x in b;
    }
    if IsChild(a, b) {
      assert a == b[..|b| - 1];
    }
  }

  /** cancellationRequested(seen): does the give-up query see a request for this run? */
  predicate CancellationSeen(log: Log, seen: Event) {
    exists c :: c in log && c.kind == CancellationRequested && ContainedIn(c.lineage, seen.lineage)
  }

  lemma CancellationAtPrefix(log: Log, c: Event, seen: Event)
    requires LineagesFormTree(log) && c in log && seen in log
    ensures ContainedIn(c.lineage, seen.lineage)
            <==> |c.lineage| <= |seen.lineage| && c.lineage == seen.lineage[..|c.lineage|]
  {
    ContainmentIsPrefix(log, c.lineage, seen.lineage);
  }

  /** A cancellation reaches exactly the scope it names and everything below it. */
  lemma CancellationReachesSubtree(states: seq<State>, actions: seq<Action>, i: nat, seen: Event)
    requires Trace(states, actions) && i < |states| && seen in states[i].log && seen.kind == Seen
    ensures CancellationSeen(states[i].log, seen)
            <==> exists k :: 1 <= k <= |seen.lineage| && Has(states[i].log, CancellationRequested, seen.lineage[..k])
  {
    TraceKeepsSystem(states, actions, i);
    CancellationSeenIff(states[i].log, seen);
  }

  lemma CancellationSeenIff(log: Log, seen: Event)
    requires LineagesFormTree(log) && seen in log
    ensures CancellationSeen(log, seen)
            <==> exists k :: 1 <= k <= |seen.lineage| && Has(log, CancellationRequested, seen.lineage[..k])
  {
    if c :| c in log && c.kind == CancellationRequested && ContainedIn(c.lineage, seen.lineage) {
      CancellationAtPrefix(log, c, seen);
      assert Has(log, CancellationRequested, seen.lineage[..|c.lineage|]);
    }
    if k :| 1 <= k <= |seen.lineage| && Has(log, CancellationRequested, seen.lineage[..k]) {
      var c :| c in log && c.kind == CancellationRequested && c.lineage == seen.lineage[..k];
      CancellationAtPrefix(log, c, seen);
    }
  }
}
