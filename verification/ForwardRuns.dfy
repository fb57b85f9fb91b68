/**
 Whole forward runs, tick after tick, and the rollbacks that follow them: with failure reports that persist every rollback
 runs its plan to the end; a report that vanishes can leave a run that never rolls back.
 */
module ForwardRuns {
  import opened Options
  import opened RollbackPlan
  import opened Continuation
  import opened Saga
  import opened SagaProofs
  import opened RunHistory
  import opened RollbackEnds

  /** What one resume is told and what user code and the give-up checks do. */
  datatype Resume = Resume(failures: Failures, user: Call -> Outcome, before: GiveUp, after: GiveUp)

  /** The rows of a run after k resumes. */
  function RowsAfter(saga: Definition, resumes: nat -> Resume, k: nat): seq<Suspended> {
    if k == 0 then []
    else
      var rows, r := RowsAfter(saga, resumes, k - 1), resumes(k);
      var tick := TickOf(saga, rows, r.failures, r.user, r.before, r.after, k);
      if tick.WroteSuspended? then [tick.row] + rows else rows
  }

  predicate Reported(resumes: nat -> Resume, k: nat) {
    FailureReported(resumes(k).failures)
  }

  /** A failure is reported only to a run that has suspended (so may have children), and from then on at every resume. */
  ghost predicate ReportsPersist(saga: Definition, resumes: nat -> Resume) {
    && (forall i: nat, j: nat :: i <= j && Reported(resumes, i) ==> Reported(resumes, j))
    && (forall k: nat :: k > 0 && Reported(resumes, k) ==> RowsAfter(saga, resumes, k - 1) != [])
  }

  ghost predicate GoingForward(resumes: nat -> Resume) {
    forall k: nat :: !resumes(k).failures.rollingBack
  }

  /** All that is needed of the rows so far. */
  ghost predicate Orderly(saga: Definition, resumes: nat -> Resume, k: nat) {
    var rows := RowsAfter(saga, resumes, k);
    && EngineRows(saga, rows) && OnlyHandlersCarryIterations(Executed(rows))
    && (LastHandler(rows).Some? ==> Reported(resumes, k))
    && DistinctNames(Plan(Prefix(saga), Suffix(saga), Executed(rows)))
  }

  lemma {:induction false} PersistentReportsKeepRunsOrderly(saga: Definition, resumes: nat -> Resume, k: nat)
    requires GoingForward(resumes) && ReportsPersist(saga, resumes)
    ensures Orderly(saga, resumes, k)
  {
    hide TickOf, EngineRows, OnlyHandlersCarryIterations, DistinctNames, Plan;
    if k == 0 {
      NothingIsOrderly(saga, resumes);
    } else {
      PersistentReportsKeepRunsOrderly(saga, resumes, k - 1);
      var rows, r := RowsAfter(saga, resumes, k - 1), resumes(k);
      var tick := TickOf(saga, rows, r.failures, r.user, r.before, r.after, k);
      assert Reported(resumes, k - 1) ==> Reported(resumes, k);
      assert Reported(resumes, k) ==> rows != [];
      if tick.WroteSuspended? {
        ForwardTickWritesRow(saga, rows, r.failures, r.user, r.before, r.after, k);
        RowExtendsHistory(saga, rows, r.failures, tick.row);
        PersistentReportsKeepNamesDistinct(saga, rows, r.failures, tick.row);
      }
    }
  }

  lemma NothingIsOrderly(saga: Definition, resumes: nat -> Resume)
    ensures Orderly(saga, resumes, 0)
  {}

  /**
   Whatever a run did going forward, with failure reports that persist: its rollback, if no child fails to roll back, runs
   its plan from the first to the last entry, each exactly once, and ends on resume plan length plus one.  Nothing is
   assumed of names.
   */
  lemma PersistentReportsRollBack(saga: Definition, resumes: nat -> Resume, ticks: nat, failures: nat -> Failures,
                                  user: Call -> Outcome, plan: seq<PlanStep>, k: nat)
    requires GoingForward(resumes) && ReportsPersist(saga, resumes) && Returns(saga, user)
    requires plan == Plan(Prefix(saga), Suffix(saga), Executed(RowsAfter(saga, resumes, ticks)))
    requires forall i :: failures(i).rollingBack && !failures(i).childRollbackFailed
    ensures var run := RollbackAfter(RollbackResumes(saga, RowsAfter(saga, resumes, ticks), failures, user), k);
            && run.rolledBack == Names(plan)[..if k < |plan| then k else |plan|]
            && (run.finished <==> k > |plan|)
  {
    PersistentReportsKeepRunsOrderly(saga, resumes, ticks);
    RollbackRunsThePlan(saga, RowsAfter(saga, resumes, ticks), failures, user, plan, k);
  }

  // ---------------------------------------------------------------- a report that vanishes

  const TWO_STEPS: Definition := Definition(["A", "B"])

  /** "A" continues, so does its failure handler; "B" repeats itself. */
  function Answers(call: Call): Outcome {
    if call.Invoke? && call.step == "B" then Returned(Repeat) else Returned(Continue)
  }

  /** The second resume, and no other, is told that a child failed to roll back. */
  function ToldOnce(k: nat): Resume {
    Resume(Failures(false, k == 2, false), Answers, CarryOn, CarryOn)
  }

  const CARRIED := [Suspended("B", Some(1), Some(0), 4), Suspended("B", Some(1), Some(0), 3),
                    Suspended("A", Some(1), Some(0), 2), Suspended("A", Some(1), None, 1)]

  /** The k-th of the four rows is what the k-th tick writes behind the earlier ones. */
  lemma CarriedTick(k: nat)
    requires 1 <= k <= 4
    ensures var r := ToldOnce(k);
            TickOf(TWO_STEPS, CARRIED[5 - k..], r.failures, r.user, r.before, r.after, k)
            == WroteSuspended(CARRIED[4 - k])
  {
    hide PlanOf, BuildRollback, Prefix, Suffix, Streak, IndexOf;
    IndexOfStep(TWO_STEPS, 0);
    IndexOfStep(TWO_STEPS, 1);
    if k > 1 {
      assert CARRIED[5 - k..][0] == CARRIED[5 - k];
    }
  }

  lemma OneMoreCarriedRow(k: nat)
    requires 1 <= k <= 4 && RowsAfter(TWO_STEPS, ToldOnce, k - 1) == CARRIED[5 - k..]
    ensures RowsAfter(TWO_STEPS, ToldOnce, k) == CARRIED[4 - k..]
  {
    hide TickOf;
    CarriedTick(k);
    assert [CARRIED[4 - k]] + CARRIED[5 - k..] == CARRIED[4 - k..];
  }

  /**
   Four ticks: "A" is invoked; its handler runs and returns; "B" is invoked and repeats, twice.  Both suspensions of "B" are
   recorded under the iteration the handler left behind.
   */
  lemma CarriedIterationIsWritten()
    ensures RowsAfter(TWO_STEPS, ToldOnce, 4) == CARRIED
  {
    hide RowsAfter;
    NoRowsYet(TWO_STEPS, ToldOnce);
    OneMoreCarriedRow(1);
    OneMoreCarriedRow(2);
    OneMoreCarriedRow(3);
    OneMoreCarriedRow(4);
  }

  lemma NoRowsYet(saga: Definition, resumes: nat -> Resume)
    ensures RowsAfter(saga, resumes, 0) == []
  {}

  /** The rollback of that run never ends, whatever is reported to it and whatever user code does. */
  lemma CarriedIterationNeverRollsBack(failures: nat -> Failures, user: Call -> Outcome, k: nat)
    requires forall m :: failures(m).rollingBack
    ensures !EndedAt(TWO_STEPS, RowsAfter(TWO_STEPS, ToldOnce, 4), failures, user, k)
  {
    hide EndedAt, Plan, RollbackResumes, StuckBefore, Prefix, FreshSuffix, DistinctNames, RowsAfter;
    CarriedIterationIsWritten();
    var history := Executed(CARRIED);
    assert history == [Instance("B", Some(0), 4), Instance("B", Some(0), 3), Instance("A", Some(0), 2),
                       Instance("A", None, 1)];
    var plan := Plan(Prefix(TWO_STEPS), Suffix(TWO_STEPS), history);
    CarriedIterationCollides(TWO_STEPS.steps, Prefix(TWO_STEPS));
    var i, j := CollidingEntries(plan);
    CollidingRollbackNeverEnds(TWO_STEPS, CARRIED, failures, user, plan, i, j, k);
    NeverEnded(failures, user, plan, j, k);
  }

  lemma NeverEnded(failures: nat -> Failures, user: Call -> Outcome, plan: seq<PlanStep>, j: nat, k: nat)
    requires j < |plan|
    requires StuckBefore(TWO_STEPS, CARRIED, plan, j,
                         RollbackAfter(RollbackResumes(TWO_STEPS, CARRIED, failures, user), k))
    ensures !EndedAt(TWO_STEPS, CARRIED, failures, user, k)
  {}
}
