/**
 When a rollback comes to an end, for every history and every pattern of reported failures: exactly if no two entries of its
 plan share a name and enough resumes report no failed child rollback.
 */
module RollbackEnds {
  import opened Options
  import opened RollbackPlan
  import opened Continuation
  import opened Saga
  import opened SagaProofs
  import opened RunHistory

  // ---------------------------------------------------------------- colliding names

  /** The rollback has not ended and stands, if anywhere, at or before entry j; nothing behind entry j has run. */
  ghost predicate StuckBefore(saga: Definition, forwardRows: seq<Suspended>, plan: seq<PlanStep>, j: nat, run: RollbackRun)
    requires j < |plan|
  {
    var rows := run.done + forwardRows;
    && !run.finished && Sound(saga, rows) && ForwardPart(saga, rows) == forwardRows
    && (Standing(saga, rows, plan).Some? ==> Standing(saga, rows, plan).value <= j)
    && forall name :: name in run.rolledBack ==> name in Names(plan)[..j + 1]
  }

  /** A rollback callback is that of the entry the rollback stands before. */
  lemma RollingCall(saga: Definition, rows: seq<Suspended>, plan: seq<PlanStep>, failures: Failures)
    requires Sound(saga, rows) && plan == PlanFor(saga, rows) && failures.rollingBack
    requires TickCall(saga, rows, failures).Some? && TickCall(saga, rows, failures).value.Rollback?
    ensures var n := Standing(saga, rows, plan);
            n.Some? && n.value < |plan| && TickCall(saga, rows, failures).value.step == plan[n.value].name
  {
    hide Decode, BuildRollback, PlanFor, Standing, Sound, CallFor, RebuiltNextStep;
    RollingBuilt(saga, rows, plan);
    var b := BuildRollback(saga, rows, Decode(saga, rows, true));
    CallAtEntry(plan, b.point, Prepare(saga, rows, failures).input, b.stepIteration, b.handler,
                Standing(saga, rows, plan).value);
  }

  lemma CallAtEntry(plan: seq<PlanStep>, point: SuspensionPoint, input: LastStepResult, stepIteration: nat,
                    handler: Option<nat>, n: nat)
    requires PointAt(plan, point, n)
    requires CallFor(point, input, stepIteration, handler).Some?
    requires CallFor(point, input, stepIteration, handler).value.Rollback?
    ensures n < |plan| && CallFor(point, input, stepIteration, handler).value.step == plan[n].name
  {}

  /** Entry j has the name of the earlier entry i, so running it leads back to entry i + 1. */
  lemma RowKeepsStuck(saga: Definition, rows: seq<Suspended>, row: Suspended, plan: seq<PlanStep>, i: nat, j: nat,
                      failed: bool)
    requires Sound(saga, rows) && plan == PlanFor(saga, rows) && i < j < |plan| && plan[i].name == plan[j].name
    requires Standing(saga, rows, plan).Some? ==> Standing(saga, rows, plan).value <= j
    requires RollingOutcome(saga, rows, plan, failed, WroteSuspended(row))
    ensures Sound(saga, [row] + rows) && ForwardPart(saga, [row] + rows) == ForwardPart(saga, rows)
    ensures Standing(saga, [row] + rows, plan).Some? ==> Standing(saga, [row] + rows, plan).value <= j
  {
    hide Sound, PlanFor, ForwardPart, RollbackPart, Standing, CleanStart;
    AddRollbackRow(saga, rows, row);
    var n := Standing(saga, rows, plan).value;
    if failed {
      StandingAfter(saga, rows, row, plan, if n == 0 then 0 else n - 1);
    } else {
      StandingAfter(saga, rows, row, plan, if n == j then i else n);
    }
  }

  lemma ResumeKeepsStuck(saga: Definition, forwardRows: seq<Suspended>, plan: seq<PlanStep>, i: nat, j: nat,
                         before: RollbackRun, failures: Failures, user: Call -> Outcome, at: int)
    requires failures.rollingBack
    requires plan == Plan(Prefix(saga), Suffix(saga), Executed(forwardRows))
    requires i < j < |plan| && plan[i].name == plan[j].name && StuckBefore(saga, forwardRows, plan, j, before)
    ensures StuckBefore(saga, forwardRows, plan, j,
                        RollbackResume(ReportOf(saga, before.done + forwardRows, failures, user, at), before))
  {
    hide Sound, ForwardPart, Standing, TickOf, TickCall, RollingOutcome, Plan, Names;
    var rows := before.done + forwardRows;
    var report := ReportOf(saga, rows, failures, user, at);
    assert plan == PlanFor(saga, rows);
    RollingTick(saga, rows, plan, failures, user, CarryOn, CarryOn, at);
    if report.call.Some? && report.call.value.Rollback? {
      RollingCall(saga, rows, plan, failures);
      var n := Standing(saga, rows, plan).value;
      NameUpTo(plan, n, j);
    }
    if report.tick.WroteSuspended? {
      var row := report.tick.row;
      RowKeepsStuck(saga, rows, row, plan, i, j, failures.childRollbackFailed);
      assert ([row] + before.done) + forwardRows == [row] + rows;
    }
  }

  lemma NameUpTo(plan: seq<PlanStep>, n: nat, j: nat)
    requires n <= j < |plan|
    ensures plan[n].name in Names(plan)[..j + 1]
  {
    assert Names(plan)[..j + 1][n] == plan[n].name;
  }

  lemma ForwardRowsStart(saga: Definition, forwardRows: seq<Suspended>, plan: seq<PlanStep>, j: nat)
    requires ForwardRows(saga, forwardRows) && j < |plan|
    ensures StuckBefore(saga, forwardRows, plan, j, RollbackRun([], [], false))
  {
    assert [] + forwardRows == forwardRows;
    assert ForwardPart(saga, forwardRows) == forwardRows;
  }

  /**
   Two entries with one name: the rollback keeps returning to the entry behind the first of them.  It never ends, whatever
   user code does and whatever is reported, and no entry behind the second is ever run.
   */
  lemma {:induction false} CollidingRollbackNeverEnds(saga: Definition, forwardRows: seq<Suspended>,
                                                      failures: nat -> Failures, user: Call -> Outcome,
                                                      plan: seq<PlanStep>, i: nat, j: nat, k: nat)
    requires ForwardRows(saga, forwardRows)
    requires plan == Plan(Prefix(saga), Suffix(saga), Executed(forwardRows))
    requires i < j < |plan| && plan[i].name == plan[j].name && forall m :: failures(m).rollingBack
    ensures StuckBefore(saga, forwardRows, plan, j, RollbackAfter(RollbackResumes(saga, forwardRows, failures, user), k))
    decreases k
  {
    hide StuckBefore, ReportOf;
    if k == 0 {
      ForwardRowsStart(saga, forwardRows, plan, j);
    } else {
      CollidingRollbackNeverEnds(saga, forwardRows, failures, user, plan, i, j, k - 1);
      var before := RollbackAfter(RollbackResumes(saga, forwardRows, failures, user), k - 1);
      StuckIsNotFinished(saga, forwardRows, plan, j, before);
      ResumeKeepsStuck(saga, forwardRows, plan, i, j, before, failures(k), user, k);
    }
  }

  lemma StuckIsNotFinished(saga: Definition, forwardRows: seq<Suspended>, plan: seq<PlanStep>, j: nat, run: RollbackRun)
    requires j < |plan| && StuckBefore(saga, forwardRows, plan, j, run)
    ensures !run.finished
  {}

  // ---------------------------------------------------------------- runs that never suspended

  lemma NothingToRollBack(saga: Definition, failures: Failures, user: Call -> Outcome, at: int)
    requires failures.rollingBack && Returns(saga, user)
    ensures !failures.childRollbackFailed ==> ReportOf(saga, [], failures, user, at) == Report(None, WroteRolledBack)
    ensures failures.childRollbackFailed
            ==> var tick := ReportOf(saga, [], failures, user, at).tick;
                tick.WroteSuspended? && tick.row.step == Sentinel(saga, saga.steps[0]) && tick.row.nextStep.None?
  {
    SyntheticIsNoStep(saga, Sentinel(saga, saga.steps[0]));
  }

  /** No plan contains the sentinel's name, so from its row on every tick fails to build a continuation. */
  lemma SentinelStrands(saga: Definition, row: Suspended, failures: Failures, user: Call -> Outcome, at: int)
    requires failures.rollingBack
    requires row.step == Sentinel(saga, saga.steps[0]) && row.nextStep.None?
    ensures ReportOf(saga, [row], failures, user, at) == Report(None, Nothing)
  {
    SyntheticIsNoStep(saga, row.step);
    RollbackRowsLeaveOriginals(Prefix(saga), Executed([row]), []);
    assert Executed([row]) + [] == Executed([row]);
    assert PlanOf(saga, [row]) == [];
  }

  lemma {:induction false} StrandedRollback(saga: Definition, failures: nat -> Failures, user: Call -> Outcome, k: nat)
    requires Returns(saga, user) && (forall m :: failures(m).rollingBack) && k > 0
    ensures var run := RollbackAfter(RollbackResumes(saga, [], failures, user), k);
            && run.rolledBack == []
            && (run.finished <==> !failures(1).childRollbackFailed)
            && (failures(1).childRollbackFailed
                ==> |run.done| == 1 && run.done[0].step == Sentinel(saga, saga.steps[0]) && run.done[0].nextStep.None?)
    decreases k
  {
    var resumes := RollbackResumes(saga, [], failures, user);
    if k == 1 {
      assert RollbackAfter(resumes, 0).done + [] == [];
      NothingToRollBack(saga, failures(1), user, 1);
    } else {
      StrandedRollback(saga, failures, user, k - 1);
      var before := RollbackAfter(resumes, k - 1);
      if !before.finished {
        assert before.done + [] == [before.done[0]];
        SentinelStrands(saga, before.done[0], failures(k), user, k);
      }
    }
  }

  // ---------------------------------------------------------------- when a rollback ends

  /** The first of two entries with one name, and the second. */
  lemma CollidingEntries(plan: seq<PlanStep>) returns (i: nat, j: nat)
    requires !DistinctNames(plan)
    ensures i < j < |plan| && plan[i].name == plan[j].name
  {
    i, j :| 0 <= i < j < |plan| && plan[i].name == plan[j].name;
  }

  /** Resume k has ended the rollback. */
  predicate EndedAt(saga: Definition, forwardRows: seq<Suspended>, failures: nat -> Failures, user: Call -> Outcome, k: nat) {
    RollbackAfter(RollbackResumes(saga, forwardRows, failures, user), k).finished
  }

  /** Enough resumes that run plan entries instead of failure handlers. */
  predicate EnoughCleanResumes(plan: seq<PlanStep>, failures: nat -> Failures, k: nat) {
    k > 0
    && if plan == [] then !failures(1).childRollbackFailed
       else Skipped(Clean(failures)) + CleanResumes(Clean(failures), k) > |plan|
  }

  /**
   For every history, every pattern of reported failures and every k: the rollback has ended after k resumes exactly if no
   two entries of its plan share a name and enough of the resumes were clean.
   */
  lemma RollbackEndsIff(saga: Definition, forwardRows: seq<Suspended>, failures: nat -> Failures, user: Call -> Outcome,
                        plan: seq<PlanStep>, k: nat)
    requires ForwardRows(saga, forwardRows) && Returns(saga, user)
    requires plan == Plan(Prefix(saga), Suffix(saga), Executed(forwardRows)) && forall m :: failures(m).rollingBack
    ensures EndedAt(saga, forwardRows, failures, user, k)
            <==> DistinctNames(plan) && EnoughCleanResumes(plan, failures, k)
  {
    hide RollbackResumes, Returns, ForwardRows;
    PlanIsEmptyIff(Prefix(saga), Suffix(saga), Executed(forwardRows));
    if !DistinctNames(plan) {
      var i, j := CollidingEntries(plan);
      CollidingRollbackNeverEnds(saga, forwardRows, failures, user, plan, i, j, k);
      StuckIsNotFinished(saga, forwardRows, plan, j,
                         RollbackAfter(RollbackResumes(saga, forwardRows, failures, user), k));
    } else if plan == [] {
      assert forwardRows == [];
      if k > 0 { StrandedRollback(saga, failures, user, k); }
    } else {
      RollbackBehaves(saga, forwardRows, failures, user, plan);
      var n := BehavingRollback(plan, RollbackResumes(saga, forwardRows, failures, user), Clean(failures), k);
    }
  }

  /** With no failed child rollback reported, a rollback ends at all exactly if the names of its plan are distinct. */
  lemma CleanRollbackEndsIff(saga: Definition, forwardRows: seq<Suspended>, failures: nat -> Failures,
                             user: Call -> Outcome, plan: seq<PlanStep>)
    requires ForwardRows(saga, forwardRows) && Returns(saga, user)
    requires plan == Plan(Prefix(saga), Suffix(saga), Executed(forwardRows))
    requires forall m :: failures(m).rollingBack && !failures(m).childRollbackFailed
    ensures (exists k: nat :: EndedAt(saga, forwardRows, failures, user, k)) <==> DistinctNames(plan)
  {
    hide EndedAt, ForwardRows, Returns;
    var last: nat := |plan| + 1;
    assert forall m :: Clean(failures)(m);
    assert CleanResumes(Clean(failures), last) == last;
    RollbackEndsIff(saga, forwardRows, failures, user, plan, last);
    forall k: nat ensures EndedAt(saga, forwardRows, failures, user, k) ==> DistinctNames(plan) {
      RollbackEndsIff(saga, forwardRows, failures, user, plan, k);
    }
  }

  /**
   Failed child rollbacks that the handler swallows: a rollback that ends has run every entry of its plan exactly if its
   first resume did not report one.  Otherwise the first entry, the rollback of the children of the step executed last, was
   never run, although the run is ROLLED_BACK.
   */
  lemma CompleteRollbackIff(saga: Definition, forwardRows: seq<Suspended>, failures: nat -> Failures,
                            user: Call -> Outcome, plan: seq<PlanStep>, k: nat)
    requires ForwardRows(saga, forwardRows) && Returns(saga, user)
    requires plan == Plan(Prefix(saga), Suffix(saga), Executed(forwardRows)) && forall m :: failures(m).rollingBack
    requires EndedAt(saga, forwardRows, failures, user, k)
    ensures var run := RollbackAfter(RollbackResumes(saga, forwardRows, failures, user), k);
            && (run.rolledBack == Names(plan) <==> !failures(1).childRollbackFailed)
            && (failures(1).childRollbackFailed ==> plan != [] && run.rolledBack == Names(plan)[1..])
  {
    hide Returns, ForwardRows;
    RollbackEndsIff(saga, forwardRows, failures, user, plan, k);
    PlanIsEmptyIff(Prefix(saga), Suffix(saga), Executed(forwardRows));
    if plan == [] {
      assert forwardRows == [];
      StrandedRollback(saga, failures, user, k);
    } else {
      CompleteDistinctRollback(saga, forwardRows, failures, user, plan, k);
    }
  }
}
