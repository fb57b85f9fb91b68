/**
 Which invocations a rollback compensates.  A plan has an own rollback for each execution recorded without handler iteration;
 a step invoked while the iteration of an earlier failure handler is still carried along is recorded under that iteration,
 and has none.
 */
module Compensation {
  import opened Options
  import opened RollbackPlan
  import opened Continuation
  import opened Saga
  import opened SagaProofs
  import opened RunHistory
  import opened ForwardRuns

  /** The k-th resume invoked a step, and its execution was recorded. */
  predicate Invokes(saga: Definition, resumes: nat -> Resume, k: nat) {
    k > 0
    && var rows, r := RowsAfter(saga, resumes, k - 1), resumes(k);
       && TickOf(saga, rows, r.failures, r.user, r.before, r.after, k).WroteSuspended?
       && TickCall(saga, rows, r.failures).Some? && TickCall(saga, rows, r.failures).value.Invoke?
  }

  /** What the first k resumes really invoked, most recent first; handler runs are not among them. */
  function Invocations(saga: Definition, resumes: nat -> Resume, k: nat): seq<Instance> {
    if k == 0 then []
    else
      var earlier := Invocations(saga, resumes, k - 1);
      if Invokes(saga, resumes, k) then [InstanceOf(RowsAfter(saga, resumes, k)[0])] + earlier else earlier
  }

  /** The k-th resume invokes a step although the row before carries a handler's iteration. */
  predicate InvokesUnderHandler(saga: Definition, resumes: nat -> Resume, k: nat) {
    Invokes(saga, resumes, k) && LastHandler(RowsAfter(saga, resumes, k - 1)).Some?
  }

  // ---------------------------------------------------------------- one tick

  /** A recorded forward tick is an invocation under the iteration carried along, or a handler run under the next one. */
  lemma RecordedCall(saga: Definition, rows: seq<Suspended>, failures: Failures, user: Call -> Outcome, before: GiveUp,
                     after: GiveUp, at: int)
    requires !failures.rollingBack && TickOf(saga, rows, failures, user, before, after, at).WroteSuspended?
    ensures var call, row := TickCall(saga, rows, failures), TickOf(saga, rows, failures, user, before, after, at).row;
            && call.Some?
            && (if FailureReported(failures)
                then call.value.HandleChildFailures? && row.handler == Some(Incremented(LastHandler(rows)))
                else call.value.Invoke? && row.handler == LastHandler(rows))
  {
    hide Decode, BuildForward, NextStepColumn, CurrentStep, RebuiltNextStep;
    BuiltHandler(saga, rows);
  }

  lemma NormalFirst(first: Instance, rest: seq<Instance>)
    ensures NormalInstances([first] + rest) == (if first.handler.None? then [first] else []) + NormalInstances(rest)
  {
    assert ([first] + rest)[1..] == rest;
  }

  lemma ExecutedFirst(row: Suspended, rows: seq<Suspended>)
    ensures Executed([row] + rows) == [InstanceOf(row)] + Executed(rows)
  {}

  /** The k-th resume wrote a row. */
  predicate Writes(saga: Definition, resumes: nat -> Resume, k: nat) {
    k > 0
    && var rows, r := RowsAfter(saga, resumes, k - 1), resumes(k);
       TickOf(saga, rows, r.failures, r.user, r.before, r.after, k).WroteSuspended?
  }

  /** Handler runs in a row are numbered from 0; whatever is invoked behind them keeps the last number. */
  lemma {:induction false} HandlerRunsAreNumbered(saga: Definition, resumes: nat -> Resume, k: nat, runs: nat, later: nat)
    requires GoingForward(resumes) && LastHandler(RowsAfter(saga, resumes, k)).None?
    requires forall j: nat :: k < j <= k + runs ==> Writes(saga, resumes, j) && Reported(resumes, j)
    requires forall j: nat :: k + runs < j <= k + runs + later ==> !Reported(resumes, j)
    ensures LastHandler(RowsAfter(saga, resumes, k + runs + later)) == if runs == 0 then None else Some(runs - 1)
    decreases runs + later
  {
    hide TickOf, TickCall;
    if runs + later > 0 {
      var n := k + runs + later;
      if later > 0 {
        HandlerRunsAreNumbered(saga, resumes, k, runs, later - 1);
      } else {
        HandlerRunsAreNumbered(saga, resumes, k, runs - 1, 0);
        assert Writes(saga, resumes, n) && Reported(resumes, n);
      }
      var rows, r := RowsAfter(saga, resumes, n - 1), resumes(n);
      var tick := TickOf(saga, rows, r.failures, r.user, r.before, r.after, n);
      if tick.WroteSuspended? {
        RecordedCall(saga, rows, r.failures, r.user, r.before, r.after, n);
        assert !Reported(resumes, n) || later == 0;
      }
    }
  }

  // ---------------------------------------------------------------- whole runs

  /** The executions recorded without handler iteration are the invocations that were not made under one. */
  lemma {:induction false} NormalInstancesWereInvoked(saga: Definition, resumes: nat -> Resume, k: nat)
    requires GoingForward(resumes)
    ensures NormalInstances(Executed(RowsAfter(saga, resumes, k))) == NormalInstances(Invocations(saga, resumes, k))
  {
    hide TickOf, TickCall, NormalInstances, Executed;
    if k == 0 {
      assert Executed([]) == [];
    } else {
      NormalInstancesWereInvoked(saga, resumes, k - 1);
      var rows, r := RowsAfter(saga, resumes, k - 1), resumes(k);
      var tick := TickOf(saga, rows, r.failures, r.user, r.before, r.after, k);
      if tick.WroteSuspended? {
        RecordedCall(saga, rows, r.failures, r.user, r.before, r.after, k);
        ExecutedFirst(tick.row, rows);
        NormalFirst(InstanceOf(tick.row), Executed(rows));
        NormalFirst(InstanceOf(tick.row), Invocations(saga, resumes, k - 1));
      }
    }
  }

  predicate AllNormal(history: seq<Instance>) {
    forall i :: i in history ==> i.handler.None?
  }

  lemma {:induction false} AllNormalIff(history: seq<Instance>)
    ensures |NormalInstances(history)| <= |history|
    ensures NormalInstances(history) == history <==> AllNormal(history)
  {
    if history != [] {
      AllNormalIff(history[1..]);
      NormalFirst(history[0], history[1..]);
      assert history == [history[0]] + history[1..];
      if history[0].handler.None? {
        assert NormalInstances(history)[1..] == NormalInstances(history[1..]);
      }
    }
  }

  predicate NeverUnderHandler(saga: Definition, resumes: nat -> Resume, k: nat) {
    !InvokesUnderHandler(saga, resumes, k) && (k > 0 ==> NeverUnderHandler(saga, resumes, k - 1))
  }

  lemma {:induction false} NeverMeansNever(saga: Definition, resumes: nat -> Resume, k: nat)
    ensures NeverUnderHandler(saga, resumes, k) <==> forall n: nat :: n <= k ==> !InvokesUnderHandler(saga, resumes, n)
  {
    hide InvokesUnderHandler;
    if k > 0 {
      NeverMeansNever(saga, resumes, k - 1);
    }
  }

  lemma {:induction false} InvokedUnderHandlerIff(saga: Definition, resumes: nat -> Resume, k: nat)
    requires GoingForward(resumes)
    ensures AllNormal(Invocations(saga, resumes, k)) <==> NeverUnderHandler(saga, resumes, k)
  {
    hide TickOf, TickCall;
    if k > 0 {
      InvokedUnderHandlerIff(saga, resumes, k - 1);
      if Invokes(saga, resumes, k) {
        var rows, r := RowsAfter(saga, resumes, k - 1), resumes(k);
        RecordedCall(saga, rows, r.failures, r.user, r.before, r.after, k);
        assert Invocations(saga, resumes, k)[0] in Invocations(saga, resumes, k);
        assert forall i :: i in Invocations(saga, resumes, k - 1) ==> i in Invocations(saga, resumes, k);
      }
    }
  }

  /**
   Whatever happened going forward, the own rollbacks of the plan are those of the invocations that were not made under a
   handler iteration; and each invocation has its own rollback exactly if no step was ever invoked right behind a row that
   carries one.
   */
  lemma InvocationsAreCompensatedIff(saga: Definition, resumes: nat -> Resume, k: nat)
    requires GoingForward(resumes)
    ensures var own := OwnRollbacks(Plan(Prefix(saga), Suffix(saga), Executed(RowsAfter(saga, resumes, k))));
            && own == NormalInstances(Invocations(saga, resumes, k))
            && (own == Invocations(saga, resumes, k)
                <==> forall n: nat :: n <= k ==> !InvokesUnderHandler(saga, resumes, n))
  {
    hide RowsAfter, Invocations, InvokesUnderHandler, Plan, OwnRollbacks, NormalInstances, NeverUnderHandler;
    PlanCompensatesHistory(Prefix(saga), Suffix(saga), Executed(RowsAfter(saga, resumes, k)));
    NormalInstancesWereInvoked(saga, resumes, k);
    AllNormalIff(Invocations(saga, resumes, k));
    InvokedUnderHandlerIff(saga, resumes, k);
    NeverMeansNever(saga, resumes, k);
  }

  /** With failure reports that persist, every invocation has its own rollback. */
  lemma PersistentReportsCompensate(saga: Definition, resumes: nat -> Resume, k: nat)
    requires GoingForward(resumes) && ReportsPersist(saga, resumes)
    ensures OwnRollbacks(Plan(Prefix(saga), Suffix(saga), Executed(RowsAfter(saga, resumes, k))))
            == Invocations(saga, resumes, k)
  {
    hide TickOf, TickCall, RowsAfter, Plan, OwnRollbacks, Invocations;
    forall n: nat | n <= k ensures !InvokesUnderHandler(saga, resumes, n) {
      if n > 0 && Invokes(saga, resumes, n) {
        PersistentReportsKeepRunsOrderly(saga, resumes, n - 1);
        assert Reported(resumes, n - 1) ==> Reported(resumes, n);
        var r := resumes(n);
        RecordedCall(saga, RowsAfter(saga, resumes, n - 1), r.failures, r.user, r.before, r.after, n);
      }
    }
    InvocationsAreCompensatedIff(saga, resumes, k);
  }

  // ---------------------------------------------------------------- an invocation nobody compensates

  /** Three ticks of the run told once of a failed child: "A", its handler, and "B" under the iteration left behind. */
  lemma ThreeRows()
    ensures RowsAfter(TWO_STEPS, ToldOnce, 2) == CARRIED[2..] && RowsAfter(TWO_STEPS, ToldOnce, 3) == CARRIED[1..]
  {
    hide RowsAfter;
    NoRowsYet(TWO_STEPS, ToldOnce);
    OneMoreCarriedRow(1);
    OneMoreCarriedRow(2);
    OneMoreCarriedRow(3);
  }

  lemma NormalOfThree(b: Instance, handler: Instance, a: Instance)
    requires b.handler.Some? && handler.handler.Some? && a.handler.None?
    ensures NormalInstances([b, handler, a]) == [a]
  {
    NormalFirst(b, [handler, a]);
    NormalFirst(handler, [a]);
    NormalFirst(a, []);
  }

  lemma NamesStayApart()
    ensures DistinctNames(Plan(Prefix(TWO_STEPS), Suffix(TWO_STEPS), Executed(CARRIED[1..])))
  {
    hide Plan, Prefix, FreshSuffix, DistinctNames;
    var history := Executed(CARRIED[1..]);
    assert history == [Instance("B", Some(0), 3), Instance("A", Some(0), 2), Instance("A", None, 1)];
    assert HandlerRun(history[1], history[2]) && history[0].handler == history[1].handler;
    assert forall i, j :: 0 <= i < j < 3 ==> !TwiceInOneHandlerRun(history, i, j);
    EngineNamesDistinctIff(TWO_STEPS.steps, Prefix(TWO_STEPS), history);
  }

  lemma InvokedAAndB()
    ensures Invocations(TWO_STEPS, ToldOnce, 3) == [Instance("B", Some(0), 3), Instance("A", None, 1)]
  {
    hide TickOf, TickCall, RowsAfter;
    NoRowsYet(TWO_STEPS, ToldOnce);
    ThreeRows();
    OneMoreCarriedRow(1);
    CarriedCall(1);
    CarriedCall(2);
    CarriedCall(3);
  }

  lemma CarriedCall(k: nat)
    requires 1 <= k <= 3 && RowsAfter(TWO_STEPS, ToldOnce, k - 1) == CARRIED[5 - k..]
    ensures Invokes(TWO_STEPS, ToldOnce, k) <==> k != 2
  {
    hide TickOf, TickCall, RowsAfter;
    CarriedTick(k);
    var r := ToldOnce(k);
    RecordedCall(TWO_STEPS, CARRIED[5 - k..], r.failures, r.user, r.before, r.after, k);
  }

  /**
   That run's rollback, if no child fails to roll back, runs its whole plan and ends; "B" was really invoked, and the only own
   rollback is that of "A".
   */
  lemma InvocationIsNeverCompensated(failures: nat -> Failures, user: Call -> Outcome, k: nat)
    requires Returns(TWO_STEPS, user) && forall m :: failures(m).rollingBack && !failures(m).childRollbackFailed
    ensures var rows := RowsAfter(TWO_STEPS, ToldOnce, 3);
            var plan := Plan(Prefix(TWO_STEPS), Suffix(TWO_STEPS), Executed(rows));
            && Invocations(TWO_STEPS, ToldOnce, 3) == [Instance("B", Some(0), 3), Instance("A", None, 1)]
            && OwnRollbacks(plan) == [Instance("A", None, 1)] && |plan| == 4
            && var run := RollbackAfter(RollbackResumes(TWO_STEPS, rows, failures, user), k);
               (run.finished <==> k > 4) && (run.finished ==> run.rolledBack == Names(plan))
  {
    hide RowsAfter, Plan, OwnRollbacks, Prefix, Suffix, RollbackResumes, RollbackAfter, DistinctNames, Returns, Names,
      NormalInstances, Invocations;
    ThreeRows();
    InvokedAAndB();
    NamesStayApart();
    var plan := Plan(Prefix(TWO_STEPS), Suffix(TWO_STEPS), Executed(CARRIED[1..]));
    PlanCompensatesHistory(Prefix(TWO_STEPS), Suffix(TWO_STEPS), Executed(CARRIED[1..]));
    assert Executed(CARRIED[1..]) == [Instance("B", Some(0), 3), Instance("A", Some(0), 2), Instance("A", None, 1)];
    NormalOfThree(Instance("B", Some(0), 3), Instance("A", Some(0), 2), Instance("A", None, 1));
    RollbackRunsThePlan(TWO_STEPS, CARRIED[1..], failures, user, plan, k);
  }
}
