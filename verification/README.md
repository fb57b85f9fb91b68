# Scoop: structured cooperation over an event log

Scoop runs sagas (distributed coroutines) as rows in an append-only table.  A handler run is a SEEN row with a lineage of
ids; each of its steps is one transaction that appends EMITTED rows for the messages it launches and one SUSPENDED row;
the handlers of those messages become its children, and it may not go on before they are over.  Rolling back walks the
same log in reverse.  This project models that engine and proves what it promises.

How the files build on each other:

- `EventLog`, `Readiness`, `Protocol`: the log, the readiness queries as the relations they denote, the transitions
  every kind of transaction may make, and the invariants.
- `StructureProofs`, `AutomatonProofs`, `CooperationProofs`: each transition keeps each invariant.
- `Workers`, `Safety`, `Windows`, `SettledFlag`, `StandardStrategy`: any number of workers that read, lock, read again and
  write, interleaved in any way; what holds in every state of every trace.
- `Repository`: the table as an object and its statements as methods, each shown to be a protocol transition.
- `ReconcileRuns`: a reconcile pass of that object as a run of the workers' transition system.
- `RollbackPlan`, `Continuation`, `Saga`, `SagaProofs`, `RunHistory`, `RollbackEnds`, `ForwardRuns`, `Compensation`: one run
  between ticks, encoded and decoded; its rollback, what that compensates, and when it ends.
- `RunRows`, `TreeRollback`, `RestingChildren`, `ReadyRuns`, `TreeProofs`, `RunLives`: logs, workers and sagas put together,
  exactly when a run is ready, and the life each run leads in such a system.
- `RollbackStart`, `TreeTheorems`, `TreeFinality`, `CollidingRuns`, `Cancellation`, `Stranding`: rollback of whole trees, and
  what a failed child, two equal names or a cancellation mean for ever after.
- `Stage`, `StageActions`, `Scenario`, `CarriedScenario`, `AskedScenario`: concrete saga traces, which also show that the
  theorems speak about something.
- `Gates`, `Ticker`: when a worker looks at the database at all.  The methods of their classes are proved equal to
  functions on values, and the theorems about all interleavings are about those functions.
- `CooperationFailures`, `RollbackFailures`, `ContextMap`: what travels with the messages.

Clocks are arbitrary integers, never assumed to advance.  User code, strategies, topics and give-up decisions are
parameters.  Ids are drawn from an unbounded supply and are fresh.

Where the code does less than its documentation suggests, the project says exactly how much less:

- A rollback that is told of a failed child rollback on its very first resume, and whose handler returns, skips the
  child rollback of the step executed last and can still end ROLLED_BACK (`CompleteRollbackIff`, `EverythingAskedIff`).
  The report is then of another run's child, since child_rollback_failed_exceptions is not tied to the selected run
  (`AnotherRunsFailureLeavesAChild`); one of its own would keep it from ending at all (`FailedChildRollbackIsFinal`).
- A failure handler that returns a NextStep does not resume the saga there: the child's ROLLING_BACK is reported again on
  every later resume, so the handler runs until it throws (`HandlerIsLeftOnlyByThrowing`, `ReportsArePermanent`).
- Synthetic rollback names are distinct while failure reports persist (`PersistentReportsKeepRunsOrderly`).  A report of
  another run's child can vanish; a step invoked twice under the handler iteration left behind gives two entries
  one name (`CarriedIterationIsWritten`, `EngineNamesDistinctIff`), and such a rollback never ends
  (`RollbackEndsIff`, `CollidingRunNeverRollsBack`, `VanishedReportStrandsARun`).
- The plan leaves out the own rollback of a row that carries a handler iteration, on the ground that a handler ran there.  A
  step really invoked behind such a row, when the report has vanished, is recorded under the iteration carried along
  (HappyPathContinuation.ts:75-84, RollbackPathContinuation.ts:269-273) and never compensated, in a rollback that ends
  (`InvocationsAreCompensatedIff`, `InvocationIsNeverCompensated`); while reports persist this cannot happen
  (`PersistentReportsCompensate`).
- A cancelled run may resume forward although handlers of its latest messages have not started.  Its rollback asks for those
  messages, which bars the handlers from ever starting, and waits for them: without deadlines neither it nor any run of its
  coroutine with requests in its latest step resumes any more (`AskingStrandsIff`, `StrandedForEver`,
  `StrandedHoldsBackItsCoroutine`, `AskedMessageStartsNoRun`).  Nothing but a cancellation leads there
  (`OnlyCancellationStrands`).
- A run that never suspended and whose rollback starts in a failure handler is stuck on a row no plan contains
  (`StrandedRollback`).
- The inner EXISTS of the standard strategy looks at all runs of the coroutine, so one of them can hold back another that
  has nothing left to wait for (`ResumeIsDecidedByTheWholeCoroutine`, `OneRunHoldsBackAnother`); and the forward give-up
  test lets all of them resume if one is cancelled (`ForwardResumeWaitsForAllHandlers`).
- `close` finds the running tick because triggers come from timers; a caller that triggers from a microtask could make
  clean-up callbacks of an earlier tick clear `inFlight` under a later one (`CloseFindsIffNonePending`).
- A blank message does not survive a hop (`RoundTripIff`).

## Model

| member | source | states |
|---|---|---|
| Safety.OpenChildIsInParentsLatestStep | src/coroutine/structuredcooperation/PendingCoroutineRunSql.ts:101-147 | In every reachable log, a started child without a terminal row has a parent that has not finished, whose last own row is the SUSPENDED closing the very window in which the child was emitted; the readiness query sees the child |
| Safety.WriterHasNoOpenChild | src/coroutine/structuredcooperation/PendingCoroutineRunSql.ts:206-275 | Whatever a worker writes about its run (a further step, COMMITTED, a rollback terminal), every started child of that run is terminal at that moment and the run itself is not finished |
| Safety.NoChildStartsBehindItsParent | src/coroutine/structuredcooperation/MessageEventRepository.ts:359-410 | A child starts only under a parent that has not finished and has not suspended again since it emitted the child's message |
| Safety.WriterIsAloneAndCurrent | src/coroutine/structuredcooperation/MessageEventRepository.ts:544-595 | At every write the run's own rows are exactly those the second read saw, and no other worker holds the run |
| Safety.LaterWriterHasReadEarlierWrite | src/coroutine/structuredcooperation/MessageEventRepository.ts:544-595 | Of two writes about one run the later worker's second read contained the earlier row: no two workers write from the same suspension |
| Safety.LogsOnlyGrow | src/coroutine/structuredcooperation/MessageEventRepository.ts:23-31 | Along every trace the log is only appended to |
| Safety.RunsFollowOneLife | src/coroutine/structuredcooperation/PendingCoroutineRunSql.ts:56-85 | In commit order: SEEN, forward suspensions, at most one COMMITTED, at most one ROLLING_BACK, rollback suspensions, at most one rollback terminal, nothing after it; between COMMITTED and any rollback row lies a ROLLING_BACK |
| Safety.ContainmentIsPrefix | src/coroutine/structuredcooperation/PendingCoroutineRunSql.ts:129-132 | On the lineages of a reachable log the set containment of the queries is the prefix order, and containment with one id more means direct child |
| Safety.CancellationReachesSubtree | src/coroutine/eventloop/strategy/strategyBuilders.ts:21-26 | A run sees a cancellation exactly if its own scope or one of its ancestors was cancelled |
| Workers.TraceKeepsSystem | src/coroutine/structuredcooperation/PendingCoroutineRunSql.ts:206-275 | The whole invariant (structure, automaton, windows, awaited children, exclusive locks, what each worker knows, flags earned) holds in every state of every trace |
| Workers.ReadyMeansResumable | src/coroutine/structuredcooperation/PendingCoroutineRunSql.ts:206-275 | On a reachable log a run the query calls ready is unfinished, has no open child, and if asked to roll back has begun to |
| Workers.ReadyMeansQuiet | src/coroutine/structuredcooperation/PendingCoroutineRunSql.ts:206-275 | Readiness, with rollback requests in the latest step or without, implies that every started child is terminal |
| Workers.OpenChildBlocks | src/coroutine/structuredcooperation/PendingCoroutineRunSql.ts:171-185 | An open child is in child_seens of its parent, unterminated, and no rollback request lies in the same window: neither branch of the query can let the parent resume |
| Workers.OthersKeepResumable | src/coroutine/structuredcooperation/MessageEventRepository.ts:412-448 | While a worker holds a run, no transaction of anybody else writes an own row of it, starts a child under it, or asks it to roll back |
| Workers.WriteIsAllowed | src/coroutine/EventLoop.ts:569-676 | A write decided on the second read's view is a legal transition of the log as it is at commit |
| Workers.UnfinishedIsNotFinished | src/coroutine/structuredcooperation/PendingCoroutineRunSql.ts:56-85 | The three branches of candidate_seens admit only runs the log does not call finished |
| CooperationProofs.StepKeepsInv | src/coroutine/structuredcooperation/MessageEventRepository.ts:348-541 | Every transition of the protocol keeps every invariant of the log |
| CooperationProofs.StepKeepsOpenChildrenAwaited | src/coroutine/structuredcooperation/PendingCoroutineRunSql.ts:101-147 | The cooperation invariant is inductive: each open child stays awaited by exactly its window |
| CooperationProofs.StepKeepsAskedRunsAtRest | src/coroutine/structuredcooperation/MessageEventRepository.ts:99-156 | A run asked to roll back that has not begun to is committed or never suspended, whichever way the request was made |
| CooperationProofs.StepKeepsWindowsUnmixed | src/coroutine/structuredcooperation/MessageEventRepository.ts:268-299 | No step window ever holds both an emission and a rollback request |
| StructureProofs.StepKeepsStructure | src/coroutine/structuredcooperation/MessageEventRepository.ts:359-487 | Lineages stay a tree, one SEEN per lineage and per (coroutine, message), runs hang under the lineage that emitted their message |
| AutomatonProofs.StepKeepsAutomaton | src/coroutine/structuredcooperation/MessageEventRepository.ts:412-487 | No transaction moves any run outside its automaton |
| AutomatonProofs.StateDescribesLog | src/coroutine/structuredcooperation/SettledFlag.ts:25-37 | The state of the automaton and the EXISTS tests over the log say the same about a run |
| EventLog.Stamp | src/coroutine/structuredcooperation/MessageEventRepository.ts:23-31 | The stamp is not before the clock, later than every row of the lineage, and never later than needed |
| Windows.GuardedRowsComeLater | src/coroutine/structuredcooperation/MessageEventRepository.ts:23-31 | For clocks that stall or run backwards: every row but SEEN and the ROLLING_BACK of a reconcile pass is strictly later than all earlier rows of its lineage, the ROLLING_BACK a worker writes included; only the requests of one statement may share a stamp |
| Windows.WindowsPartitionEmissions | src/coroutine/structuredcooperation/PendingCoroutineRunSql.ts:101-118 | Every emission and every rollback request of a run lies in the window of exactly one SUSPENDED |
| Windows.EachMessageIsAskedOnce | src/coroutine/structuredcooperation/MessageEventRepository.ts:258-299 | In every reachable log no two EMITTED and no two ROLLBACK_EMITTED rows carry the same message |
| RunRows.RowsAreMostRecentFirst | src/coroutine/structuredcooperation/PendingCoroutineRunSql.ts:378-394 | The run's suspensions read off the log are strictly ordered by created_at, latest first, as the query selects them |
| StandardStrategy.ForwardResumeWaitsForAllHandlers | src/coroutine/eventloop/strategy/strategyBuilders.ts:92-132 | Whenever a run resumes forward, every registered handler of every message in the window it leaves has a terminal run, although the inner EXISTS is not tied to the outer row; or some candidate of its coroutine, not necessarily this run, is cancelled |
| StandardStrategy.ResumeIsDecidedByTheWholeCoroutine | src/coroutine/eventloop/strategy/strategyBuilders.ts:114-131 | On every reachable log, exactly: a run that emitted passes the test if and only if every candidate of its coroutine has every registered handler of every emission in its latest step started |
| Scenario.OneRunHoldsBackAnother | src/coroutine/eventloop/strategy/strategyBuilders.ts:114-131 | A saga trace reaches a state in which every registered handler of everything a run waits for has finished and its children allow it to resume, and yet no standard strategy calls it ready: another run of its coroutine waits for a handler |
| StandardStrategy.ReadyMeansRollbacksFinished | src/coroutine/structuredcooperation/PendingCoroutineRunSql.ts:243-273 | A ready run on the rollback path, cancelled or not: every registered handler of a message requested in the latest step has rolled back or failed to |
| ReadyRuns.ReadyForAnyStrategy | src/coroutine/structuredcooperation/PendingCoroutineRunSql.ts:206-275 | For any strategy, on every reachable log, exactly: a run is ready if and only if it is unfinished and not stamped, the strategy lets it resume or gives up, and its children are over: where its latest step made rollback requests every started child that rolls back is ROLLED_BACK or ROLLBACK_FAILED, otherwise every started child is terminal |
| ReadyRuns.ReadyIffInTrace | src/coroutine/structuredcooperation/PendingCoroutineRunSql.ts:187-275 | In every state of every trace, under the standard strategy, exactly: a run whose latest step made rollback requests is ready if and only if, besides, every registered handler of every request in the latest step of every unfinished run of its coroutine rolls back; one that emitted, if and only if every such handler of an emission has started, or the scope of an unfinished run of the coroutine or one above it is cancelled |
| AskedScenario.FailedChildIsReported | src/coroutine/structuredcooperation/PendingCoroutineRunSql.ts:187-199 | A saga trace: a rolling run asks its child to roll back, the child is started and fails to, and the run resumes, is told, and writes its failure handler's row |
| Cancellation.CancelledRunRollsBack | src/coroutine/continuation/CooperationContinuation.ts:200-222 | Along every saga trace: a run going forward whose scope, or one above it, was cancelled before its second read writes ROLLING_BACK and nothing else; and if its own code does not throw, it writes ROLLING_BACK only if a request is on the log |
| Cancellation.CancelledScopeStandsStill | src/coroutine/eventloop/strategy/EventLoopStrategy.ts:67-85 | From the moment a scope is cancelled, no run at or below it that nobody is resuming just then, and none that starts later, executes another step or commits: its forward rows and its COMMITTED stay what they are, in every later state |
| Cancellation.CancelledRunWaitsForChildrenOnly | src/coroutine/structuredcooperation/PendingCoroutineRunSql.ts:211-242 | A cancelled candidate on the forward path is ready exactly if its started children are over, whatever handlers have not started |
| Stranding.AskingStrandsIff | src/coroutine/structuredcooperation/PendingCoroutineRunSql.ts:243-261 | A rollback request strands the run that writes it exactly if a registered handler of the message has not started by then: the run is rolling back, and waits for a handler that has no run |
| Stranding.StrandedForEver | src/coroutine/structuredcooperation/PendingCoroutineRunSql.ts:243-273 | Along every saga trace: a stranded run stays so in every later state; no worker ever writes about it again, its rollback does not end, and its SEEN is not stamped if it was not |
| Stranding.StrandedHoldsBackItsCoroutine | src/coroutine/eventloop/strategy/strategyBuilders.ts:114-131 | Along every saga trace: from then on, unless its SEEN was stamped at that time, no second read, of whatever run of its coroutine, finds a run ready whose latest step made rollback requests, nor the stranded run itself |
| Stranding.OnlyCancellationStrands | src/coroutine/eventloop/strategy/strategyBuilders.ts:92-132 | In no state of any saga trace is a run stranded unless a cancellation request is on the log |
| Cancellation.HonestChecks | src/coroutine/eventloop/strategy/strategyBuilders.ts:21-26 | Checks that answer what the log says at the second read, or fail to find out, are admitted by the theorems above |
| Cancellation.NothingCancelledIsNoDeadlines | src/coroutine/eventloop/strategy/EventLoopStrategy.ts:67-85 | So is every saga trace in which nothing is cancelled and no check gives up |
| Cancellation.GivingUpTick | src/coroutine/continuation/CooperationContinuation.ts:200-222 | A forward tick that gives up before or after its step, or cannot find out, writes ROLLING_BACK or nothing, whatever user code did |
| Cancellation.CarryingOnTick | src/coroutine/continuation/CooperationContinuation.ts:200-222 | With user code that returns and nothing to give up for, a forward tick never starts a rollback |
| SettledFlag.HiddenRunsAreRollingBack | src/coroutine/structuredcooperation/MessageEventRepository.ts:214-238 | In every reachable state a SEEN stamped settled that the log calls unfinished is rolling back without rollback terminal |
| SettledFlag.UnsettleClearsHiddenRuns | src/coroutine/structuredcooperation/MessageEventRepository.ts:512-529 | A reconcile pass clears exactly the hidden runs of its coroutine that nobody has locked, and stamps nothing |
| SettledFlag.FilterLosesNothing | src/coroutine/structuredcooperation/PendingCoroutineRunSql.ts:50-54 | After an uncontended pass the candidates with and without the settled_at filter are the same set |
| SettledFlag.FilterHidesOnlyStaleRollbacks | src/coroutine/structuredcooperation/PendingCoroutineRunSql.ts:50-85 | Between passes the filter hides exactly the hidden runs, never a run in forward execution |
| SettledFlag.FinishedIsNoCandidate | src/coroutine/structuredcooperation/SettledFlag.ts:22-37 | What repair takes for finished is never a candidate on a reachable log |
| SettledFlag.RepairReachesTruth | src/coroutine/structuredcooperation/SettledFlag.ts:38-47 | Stamping and then clearing arrives at the truth of the log from any flags, and the second statement corrects exactly the wrong stamps |
| Repository.MessageEventTable.RepairSettledFlags | src/coroutine/structuredcooperation/SettledFlag.ts:18-50 | Afterwards every SEEN is stamped exactly if the log calls it finished; the counts are the numbers of rows corrected, zero on a second run |
| Repository.MessageEventTable.InsertGlobalEmittedEvent | src/coroutine/structuredcooperation/MessageEventRepository.ts:45-66 | Appends one EMITTED on a fresh root: a legal launch |
| Repository.MessageEventTable.InsertScopedEmittedEvent | src/coroutine/structuredcooperation/MessageEventRepository.ts:68-97 | Appends one EMITTED of the run, later than every row of its lineage |
| Repository.MessageEventTable.InsertRollbackEmittedEvent | src/coroutine/structuredcooperation/MessageEventRepository.ts:99-156 | Inserts a request exactly if the protocol allows one for this root, and then exactly that one; otherwise changes nothing |
| Repository.MessageEventTable.InsertCancellationRequestedEvent | src/coroutine/structuredcooperation/MessageEventRepository.ts:158-196 | Inserts exactly for a known lineage that has no request yet; otherwise changes nothing |
| Repository.MessageEventTable.InsertMessageEvent | src/coroutine/structuredcooperation/MessageEventRepository.ts:198-252 | Appends the row and, unless the run's SEEN is locked, stamps or clears that SEEN and no other |
| Repository.FlagUpdateHitsOwnSeen | src/coroutine/structuredcooperation/MessageEventRepository.ts:226-235 | Addressing the SEEN by coroutine and message hits the run's own SEEN and nothing else |
| Repository.MessageEventTable.InsertRollbackEmittedEventsForStep | src/coroutine/structuredcooperation/MessageEventRepository.ts:258-315 | One request for every emission of the window that the given SUSPENDED closed, and for nothing else; each of them legal |
| Repository.StepInsertsHaveWorkShape | src/coroutine/structuredcooperation/MessageEventRepository.ts:68-97 | The guarded inserts of one step, for any clock, form a commit the protocol allows |
| Repository.LaunchedInOrder | src/coroutine/structuredcooperation/MessageEventRepository.ts:68-97 | Launches of one step get strictly increasing stamps and distinct messages, whatever the clock does |
| Repository.LaunchedByStep | src/coroutine/structuredcooperation/MessageEventRepository.ts:68-97 | Each launch of a step carries the step's name and is not stamped before its clock |
| Repository.RequestInsertsHaveWorkShape | src/coroutine/structuredcooperation/MessageEventRepository.ts:268-299 | The requests of one child-rollback step and the SUSPENDED behind them form a commit the protocol allows |
| Repository.MessageEventTable.InsertMissingSeens | src/coroutine/structuredcooperation/MessageEventRepository.ts:359-465 | The SEEN half of a pass is a sequence of legal starts of eligible emissions that respects locks; whatever eligible, unlocked emission the protocol lets this coroutine start on the snapshot has its SEEN afterwards |
| Repository.MessageEventTable.InsertMissingRollingBacks | src/coroutine/structuredcooperation/MessageEventRepository.ts:412-487 | The ROLLING_BACK half is a sequence of legal rollback starts for eligible requests that respects locks; whatever eligible, unlocked request the protocol lets this coroutine answer on the snapshot has its ROLLING_BACK afterwards |
| Repository.MessageEventTable.StartContinuations | src/coroutine/structuredcooperation/MessageEventRepository.ts:348-541 | One reconcile pass: legal transitions, as many as it reports, for startable emissions and requests on its topics only; of those, everything the protocol lets this coroutine start on the old log has started, the locked left out; exactly the unlocked stale stamps are cleared |
| ReconcileRuns.PassIsARun | src/coroutine/structuredcooperation/MessageEventRepository.ts:348-541 | A pass as that method describes it, made while workers hold the locks it skips, is a run of enabled worker-level actions: its starts one by one and one unsettle, ending in the same log with the same flags, so every theorem about traces covers it |
| ReconcileRuns.StartContinuationsRun | src/coroutine/structuredcooperation/MessageEventRepository.ts:348-541 | The method itself, called on the table the workers see with the locks they hold: it makes a run of enabled actions, as many as it reports and one unsettle, and leaves exactly the table of the state that run ends in |
| Repository.BothUnsettlesTogether | src/coroutine/structuredcooperation/MessageEventRepository.ts:488-529 | The two unsettle statements together cover every SEEN whose rollback has begun and not ended, new or old |
| Continuation.CooperationContinuation.ResumeWith | src/coroutine/continuation/CooperationContinuation.ts:167-223 | Which single callback runs, with what arguments, what its outcome makes of the run, and that give-up checks before and after take precedence as the code has them |
| Continuation.CooperationContinuation.HandleFailuresOrResume | src/coroutine/continuation/CooperationContinuation.ts:231-275 | A child failure runs the handler with the iteration one higher and the step iteration as built; otherwise the step is invoked or rolled back |
| Continuation.CooperationContinuation.Resume | src/coroutine/continuation/CooperationContinuation.ts:294-306 | Past the last step nothing runs and the run succeeds; a NextStep out of bounds is a failure |
| Continuation.EndsAs | src/coroutine/continuation/CooperationContinuation.ts:200-223 | How a resumption ends, case by case: a check that gives up or cannot find out before the callback decides alone; what the callback throws stands whatever the check behind it says; a jump out of bounds is a failure; a rollback always goes on |
| Saga.ResumeRun | src/coroutine/EventLoop.ts:569-676 | The event loop's tick equals the specification of a tick, and makes exactly the call that specification names |
| Saga.CountStreak | src/coroutine/EventLoop.ts:485-507 | The stepIteration loop counts the uninterrupted latest normal suspensions of the next step |
| SagaProofs.StreakIsLongestRun | src/coroutine/EventLoop.ts:485-507 | stepIteration is the length of the longest run of the next step at the top of the normal suspensions; handler runs neither count nor interrupt |
| SagaProofs.PersistedSagaRefinesLoop | src/coroutine/EventLoop.ts:485-547 | For any author code and any number of ticks: the same calls with the same iterations in the same order as an in-memory loop with Continue, Repeat and GoTo, committed at the same point |
| SagaProofs.TickFollowsLoop | src/coroutine/continuation/HappyPathContinuation.ts:27-92 | One tick runs the step the loop is at, with the loop's iteration, and stores a row that represents where the loop goes next |
| SagaProofs.HaltedLoopCommits | src/coroutine/EventLoop.ts:625-632 | A loop that has left its last step commits on its next tick and runs nothing |
| SagaProofs.RebuiltNextStepKeepsTarget | src/coroutine/EventLoop.ts:597-621 | The NextStep rebuilt from the stored position leads where the one written led, for every step and every NextStep |
| SagaProofs.ChildFailureGoesToCompletedStep | src/coroutine/continuation/CooperationContinuation.ts:175-190 | A forward tick that reports a child failure runs the handler of the completed step, one handler iteration on, with the target that step had chosen, and with the step iteration of the step that comes next: the longest run of that step on top of the suspensions without handler iteration, 0 if no step comes next |
| RollbackPlan.GrowPrefix | src/coroutine/continuation/RollbackPathContinuation.ts:55-59 | The loop ends, within the longest name, at the first prefix no step name starts with |
| RollbackPlan.GrowSuffix | src/coroutine/continuation/RollbackPathContinuation.ts:60-63 | The same for the suffix |
| RollbackPlan.FreshPrefix | src/coroutine/continuation/RollbackPathContinuation.ts:55-59 | The result is the shortest $-extension without clash |
| RollbackPlan.SelfNameInjective | src/coroutine/continuation/RollbackPathContinuation.ts:229-239 | A synthetic name determines step, iteration and handler run, however the steps are named |
| RollbackPlan.ChildIsNotSelf | src/coroutine/continuation/RollbackPathContinuation.ts:236-239 | A child-rollback name never equals a self-rollback name |
| RollbackPlan.IterationIndices | src/coroutine/continuation/RollbackPathContinuation.ts:219-234 | The counter loop numbers every execution by how often its step ran normally before |
| RollbackPlan.BuildRollbackSteps | src/coroutine/continuation/RollbackPathContinuation.ts:212-315 | The loops build the plan: per execution, latest first, child rollback and then own rollback |
| RollbackPlan.PlanNamesDistinctIff | src/coroutine/continuation/RollbackPathContinuation.ts:229-239 | Names of a plan are pairwise distinct exactly if no two executions share step, iteration and handler run |
| RollbackPlan.EngineNamesDistinctIff | src/coroutine/continuation/RollbackPathContinuation.ts:212-239 | For every history the engine can write: distinct exactly if no step suspended twice under one handler iteration |
| RunHistory.ForwardTicksWriteEngineHistory | src/coroutine/continuation/CooperationContinuation.ts:231-275 | Whatever failures are reported and whatever user code does, forward ticks write histories of exactly the kind the name theorems speak about |
| RunHistory.PersistentReportsKeepNamesDistinct | src/coroutine/continuation/RollbackPathContinuation.ts:212-239 | As long as a failure once reported stays reported, every forward tick keeps the names of the plan pairwise distinct |
| ForwardRuns.PersistentReportsKeepRunsOrderly | src/coroutine/continuation/RollbackPathContinuation.ts:212-239 | Composed over any number of forward ticks: with failure reports that persist, the rows of a run always have a plan with pairwise distinct names |
| ForwardRuns.CarriedIterationIsWritten | src/coroutine/continuation/CooperationContinuation.ts:231-275 | Four ticks of a two-step saga, one of them told of a failed child: a step, its handler, and twice the next step under the iteration the handler left behind |
| RollbackPlan.CarriedIterationCollides | src/coroutine/continuation/RollbackPathContinuation.ts:162-194 | The plan of that history has two entries of one name |
| RollbackPlan.HandlerDisciplineKeepsNamesDistinct | src/coroutine/continuation/RollbackPathContinuation.ts:212-239 | Histories in which only failure handlers carry an iteration have distinct names, with Repeat and GoTo in any pattern |
| RollbackPlan.RollbackRowsLeaveOriginals | src/coroutine/continuation/RollbackPathContinuation.ts:65-68 | Rollback suspensions in front of a history leave the rebuilt plan as it was |
| SagaProofs.PlanNamesAreSynthetic | src/coroutine/continuation/RollbackPathContinuation.ts:55-63 | No name of a plan is the name of a step, however the steps are named |
| SagaProofs.PlanCompensatesHistory | src/coroutine/continuation/RollbackPathContinuation.ts:212-315 | A plan rolls back the children of every recorded execution exactly once, and every execution recorded without handler iteration itself exactly once, latest first, the own rollback right after its children's, and nothing else |
| Compensation.InvocationsAreCompensatedIff | src/coroutine/continuation/RollbackPathContinuation.ts:269-313 | Whatever happened over any number of forward ticks: the own rollbacks of the plan are those of the recorded invocations not made under a handler iteration, in order; each invocation has its own rollback if and only if no tick invoked a step right behind a row that carries an iteration |
| Compensation.PersistentReportsCompensate | src/coroutine/continuation/RollbackPathContinuation.ts:269-313 | With failure reports that persist, the own rollbacks of the plan are exactly the invocations, in order: nothing invoked is left uncompensated and no handler run is taken for an invocation |
| Compensation.HandlerRunsAreNumbered | src/coroutine/continuation/CooperationContinuation.ts:231-253 | Over any number of forward ticks: handler runs in a row are numbered from 0, and whatever is invoked behind them is recorded under the last number |
| Compensation.InvocationIsNeverCompensated | src/coroutine/continuation/HappyPathContinuation.ts:75-84 | Three ticks, one of them told of a failed child, after which a really invoked step has no own rollback although no two names are equal and the rollback runs its whole plan and ends |
| RollbackEnds.CollidingRollbackNeverEnds | src/coroutine/continuation/RollbackPathContinuation.ts:162-194 | Two entries with one name: after any number of resumes, whatever is reported and whatever user code does, the rollback has not ended, stands at or before the second of them, and has run nothing behind it |
| RollbackEnds.RollbackEndsIff | src/coroutine/continuation/RollbackPathContinuation.ts:136-196 | For every history, every pattern of reported failures and every k: the rollback has ended after k resumes exactly if the names of its plan are distinct and enough resumes were clean |
| RollbackEnds.CleanRollbackEndsIff | src/coroutine/continuation/RollbackPathContinuation.ts:136-196 | With no failed child rollback reported, a rollback ends at all exactly if the names of its plan are distinct |
| RollbackEnds.CompleteRollbackIff | src/coroutine/continuation/RollbackPathContinuation.ts:136-196 | With failed child rollbacks a handler swallows: a rollback that ends has run its whole plan exactly if its first resume reported none; otherwise all but the first entry |
| RollbackEnds.StrandedRollback | src/coroutine/continuation/RollbackPathContinuation.ts:84-134 | A run that never suspended is ROLLED_BACK by its first rollback resume exactly if that reports no failed child rollback; otherwise it is left on the sentinel's row for ever |
| ForwardRuns.CarriedIterationNeverRollsBack | src/coroutine/continuation/RollbackPathContinuation.ts:162-194 | The four ticks above lead to a run whose rollback never ends, whatever is reported to it and whatever user code does |
| CollidingRuns.RolledBackRunsHaveDistinctNames | src/coroutine/continuation/RollbackPathContinuation.ts:162-194 | In every state of every saga trace a run that is ROLLED_BACK has a plan with pairwise distinct names |
| CollidingRuns.CollidingRunNeverRollsBack | src/coroutine/continuation/RollbackPathContinuation.ts:162-194 | A rolling run with two entries of one name stays without ROLLED_BACK in every later state of every saga trace |
| CarriedScenario.VanishedReportStrandsARun | src/coroutine/structuredcooperation/PendingCoroutineRunSql.ts:358-369 | A saga trace that reaches such a run: another run's failed child is reported to it once, the other run ends and the report vanishes, its step runs again under the iteration the handler left; no trace that continues this one has it ROLLED_BACK |
| SagaProofs.RollbackRunsThePlan | src/coroutine/continuation/RollbackPathContinuation.ts:136-196 | With distinct names and no failed child rollback, resume k has run exactly the first k entries, and ROLLED_BACK is written on resume number plan length plus one |
| ForwardRuns.PersistentReportsRollBack | src/coroutine/continuation/RollbackPathContinuation.ts:136-196 | The same with nothing assumed of names, for whatever forward ticks wrote under failure reports that persist |
| SagaProofs.SwallowedFailureSkipsFirstEntry | src/coroutine/continuation/CooperationContinuation.ts:176-191 | A run told of a failed child rollback once, at its first rollback resume, is ROLLED_BACK after three resumes without ever asking the children of its only step |
| RunHistory.RollingTick | src/coroutine/continuation/RollbackPathContinuation.ts:125-196 | From any rows a run can have: a tick executes the entry the rollback stands before, or handles a failure at the entry before, or ends behind the last; never anything else |
| RunHistory.RollingCallIs | src/coroutine/continuation/RollbackPathContinuation.ts:125-196 | What a rolling run calls and records: the rollback of exactly the entry it stands before, under the handler iteration of its latest rollback row; nothing behind the last; told of a failed child, the failure handler of the entry before, one iteration on, with step iteration 0 |
| RunHistory.RolledBackMeansDone | src/coroutine/continuation/RollbackPathContinuation.ts:169-182 | ROLLED_BACK is written only behind the last entry and only by a tick that was told of no failed child rollback |
| RunHistory.PlanOfIsPlanFor | src/coroutine/continuation/RollbackPathContinuation.ts:65-77 | The plan rebuilt on every tick from all rows is the plan of the forward rows |
| TreeTheorems.WholeTreeIsRolledBack | src/coroutine/EventLoop.ts:438-466 | If a run is ROLLED_BACK, so is every run reached from it along forward emissions, at any depth, as long as no candidate of a coroutine on the way had a failed child rollback when the run on the way first resumed in rollback, or that run's latest step emitted nothing |
| TreeTheorems.EverythingAskedIff | src/coroutine/structuredcooperation/PendingCoroutineRunSql.ts:358-369 | A ROLLED_BACK run has asked every emission of its forward path exactly if no candidate of its coroutine had a failed child rollback when the run first resumed in rollback, or its latest step emitted nothing; there always is such a first resume |
| Scenario.AnotherRunsFailureLeavesAChild | src/coroutine/structuredcooperation/PendingCoroutineRunSql.ts:358-369 | A saga trace, with every read, lock and write, in which that happens: a run ends ROLLED_BACK while the child of its forward path is COMMITTED, was never asked and never rolled back, because a child of another run of the coroutine had failed |
| RunLives.TraceIsLife | src/coroutine/EventLoop.ts:569-676 | Every run of every saga trace lives a life of its own: no action of anybody but its writer touches its rows, COMMITTED or rollback terminal; its writer has read all of them, and adds at most one row, a step's going forward, in rollback an entry's or handler's as the plan of its forward rows says, or its end |
| RollbackStart.FirstResumeDecides | src/coroutine/continuation/CooperationContinuation.ts:176-191 | In every such life the first resume in rollback decides how the rollback starts: with a failure handler's row exactly if it was told of a failed child rollback |
| RollbackStart.StartStaysAlong | src/coroutine/structuredcooperation/PendingCoroutineRunSql.ts:378-394 | In every such life how a rollback started, and how it ended, is never changed by any later action of anybody |
| TreeTheorems.AskedRunsAreRolledBack | src/coroutine/structuredcooperation/PendingCoroutineRunSql.ts:171-199 | Every run of every message a ROLLED_BACK run asked is itself ROLLED_BACK |
| TreeTheorems.EveryEmissionAskedExactlyOnce | src/coroutine/structuredcooperation/MessageEventRepository.ts:258-315 | A complete rollback has written exactly one ROLLBACK_EMITTED for every emission of the forward path |
| TreeFinality.FailedChildRollbackIsFinal | src/coroutine/structuredcooperation/PendingCoroutineRunSql.ts:171-185 | Along every saga trace: once a child's ROLLBACK_FAILED is on the log, no later write of its parent is COMMITTED or ROLLED_BACK, and each suspension carries a handler iteration |
| TreeFinality.HandlerIsLeftOnlyByThrowing | src/coroutine/structuredcooperation/PendingCoroutineRunSql.ts:171-185 | Along every saga trace: once a child has begun to roll back, every later write of a parent that is not rolling back is a failure handler's, one iteration on, or starts the rollback |
| TreeFinality.ReportsArePermanent | src/coroutine/structuredcooperation/PendingCoroutineRunSql.ts:358-369 | Along every saga trace: a child's rollback, and its failure, is in the view of every later write of its parent: no child begins or ends a rollback between its parent's second read and its write |
| RestingChildren.ReopenedInTrace | src/coroutine/structuredcooperation/MessageEventRepository.ts:412-448 | In every reachable state a run that is COMMITTED and rolling back has been asked to |
| TreeProofs.TraceKeepsTree | src/coroutine/structuredcooperation/PendingCoroutineRunSql.ts:243-273 | In every state of every saga trace: the rows of every run are sound, the entries behind its position are asked, requests outside the latest step are answered, workers know their run's answers |
| TreeRollback.AskedMessageStartsNoRun | src/coroutine/structuredcooperation/MessageEventRepository.ts:382-407 | No run ever starts for a message that has been asked to roll back by its emitter |
| TreeProofs.RereadKnows | src/coroutine/structuredcooperation/PendingCoroutineRunSql.ts:243-273 | The second read guarantees that everything the run has ever asked is answered, not only what it asked in the latest step |
| Gates.Tick | src/coroutine/EventLoop.ts:146-268 | The tick asks, reports and re-arms in the order of the state machine, whatever its awaits bring |
| Gates.TickIsATrace | src/coroutine/EventLoop.ts:146-268 | One tick is a stretch of a trace of the machine: it starts, the notifications that were awaited arrive, each part that started ends as it was said to, and the machine is idle again |
| Gates.PartStartsIff | src/coroutine/ReconcileGate.ts:77-153 | Exactly when a tick reconciles, and when it drains: the gate is off; a notification has arrived since it was last asked; this reconcile inserted rows; fewer than the quiet number of passes were done since a signal was found, rows were inserted, runs resumed, or a pass failed; or the sweep, one interval after the last pass done, is due |
| Gates.InsertedRowsAreDrained | src/coroutine/ReconcileGate.ts:96-107 | Rows a reconcile inserts are drained in the same tick, and should that not complete, by every tick that asks until a drain that started then or later has completed |
| Gates.NoNotificationIsLost | src/coroutine/ReconcileGate.ts:72-131 | A notification landing anywhere, mid-pass too: every tick reconciles until a reconcile started after it has succeeded, and every tick that gets that far drains until a drain started after it has completed |
| Gates.FailuresAreRetried | src/coroutine/ReconcileGate.ts:110-153 | A failed pass is retried by the next tick, and a failed reconcile re-arms the drain as well |
| Gates.SafetyNetHolds | src/coroutine/ReconcileGate.ts:155-173 | A tick one interval after the last success, or after creation for any jitter, reconciles and drains |
| Gates.IdleWorkerGoesQuiet | src/coroutine/ReconcileGate.ts:31-43 | With no signal, insert, resume, failure or sweep, however many ticks: at most three reconciles and one drain |
| Ticker.AtMostOneTickRuns | src/coroutine/EventLoop.ts:290-314 | In every interleaving of timer, triggers, tick ends, continuations and close at most one tick runs |
| Ticker.NoTickStartsAfterClose | src/coroutine/EventLoop.ts:314-350 | A tick starts exactly where the permit allows one, and never after close |
| Ticker.CoalescedTriggerIsNotLost | src/coroutine/EventLoop.ts:330-341 | While open, a trigger no tick has answered leaves the gate dirty, and a timer or a loop that awaits a tick; the next timer callback then starts one unless one runs or the application shuts down |
| Ticker.AnOpenTickerGoesOn | src/coroutine/EventLoop.ts:290-341 | An open ticker never stands still: running ticks can end, the loop then goes on and arms the timer, and the timer fires once no reaction is pending and starts a tick or is armed again |
| Ticker.IdleTickerAwaitsNothing | src/coroutine/EventLoop.ts:319-365 | Once every tick has ended and every reaction has run, inFlight is empty: close waits for nothing |
| Ticker.CloseFindsTheRunningTick | src/coroutine/EventLoop.ts:343-365 | Where triggers are dispatched by timers, in every interleaving and every state inFlight names the running tick: close always finds it |
| Ticker.CloseFindsIffNonePending | src/coroutine/EventLoop.ts:330-365 | With triggers from microtasks too: once the reactions of earlier ticks have run, inFlight names the running tick exactly if none of them was pending when that tick was started |
| Ticker.MicrotaskTriggerCanBeMissed | src/coroutine/EventLoop.ts:319-341 | A trigger called from a microtask between the end of a tick and its loop's continuation, after which close waits for nothing although a tick runs |
| CooperationFailures.ConvertThrowable | src/coroutine/structuredcooperation/CooperationFailure.ts:60-96 | The recursive conversion with its loop equals the specification: cause first, then suppressed, in order |
| CooperationFailures.OtherErrorsAreWritten | src/coroutine/structuredcooperation/CooperationFailure.ts:60-96 | Any error that is no CooperationException is written under its name and this service's source, with its stack and its message; read back, its message stands behind the heading |
| CooperationFailures.CausesAreWrittenInOrder | src/coroutine/structuredcooperation/CooperationFailure.ts:60-96 | The causes of a written error are its cause, then what it suppressed, in order |
| CooperationFailures.SplitCauses | src/coroutine/structuredcooperation/CooperationFailure.ts:122-137 | Splitting causes into cause and suppressed loses and reorders nothing |
| CooperationFailures.StripsOwnHeading | src/coroutine/structuredcooperation/CooperationFailure.ts:98-101 | Searching the heading anywhere in the message still strips exactly the heading that was put in front |
| CooperationFailures.RoundTripIff | src/coroutine/structuredcooperation/CooperationFailure.ts:60-112 | To an exception and back is the identity exactly for trees without blank message, at any depth |
| CooperationFailures.FurtherHopsChangeNothing | src/coroutine/structuredcooperation/CooperationFailure.ts:60-112 | After the first hop any number of hops through any services changes nothing |
| CooperationFailures.MessageTells | src/coroutine/structuredcooperation/CooperationFailure.ts:129 | From the message of an exception its source, kind and text can be told, if no source holds a closing bracket and no kind a colon |
| CooperationFailures.BlankIffTrimmedAway | src/coroutine/structuredcooperation/CooperationFailure.ts:129 | A message counts as blank exactly if trimming it leaves nothing |
| CooperationFailures.EqualsStructurallyIff | src/coroutine/structuredcooperation/CooperationFailure.ts:140-148 | Exceptions are structurally equal exactly if their failures agree up to stacks and blank messages |
| RollbackFailures.FailedRollbackKeepsEverything | src/coroutine/eventloop/RollbackState.ts:38-60 | The tree written by a failed rollback has every child failure as a direct cause, in order; a path of cause indices leads to an exception structurally equal to the original cause; and there is one cause more exactly if no such path led there before |
| RollbackFailures.ContainsIff | src/coroutine/eventloop/RollbackState.ts:100-112 | The recursive search succeeds exactly if some path of cause indices leads to a structurally equal exception |
| RollbackFailures.RollingTreeSaysWhere | src/coroutine/eventloop/RollbackState.ts:38-60 | The tree is a ChildRollbackFailedException of this service whose message names the step the run was suspended in |
| RollbackFailures.ForwardTreeSaysWhere | src/coroutine/eventloop/RollbackState.ts:73-89 | So is the one written going forward, with a ChildRolledBackException as its last cause |
| RollbackFailures.CausesDoNotMultiply | src/coroutine/eventloop/RollbackState.ts:50-55 | A parent that fails for the same reason adds nothing to the tree |
| RollbackFailures.FailedForwardKeepsEverything | src/coroutine/eventloop/RollbackState.ts:73-89 | Going forward: the failed rollbacks come first, and all the failures that started it are below the last cause |
| RollbackFailures.WrittenAndReadBack | src/coroutine/structuredcooperation/CooperationFailure.ts:60-112 | Writing an exception read from the log and reading it again gives the same exception |
| ContextMap.Run | src/coroutine/context/CooperationContextMap.ts:79-155 | Any sequence of get, minus and plus on any of the contexts made so far gives what plain immutable maps give: caching is invisible, and contexts sharing text never affect each other |
| ContextMap.UpdateLaws | src/coroutine/context/CooperationContextMap.ts:97-155 | After minus a key is gone; after plus it is found as the new element, or as what the element there makes of the new one; under other names nothing changes; where the lookup throws both do |
| ContextMap.RightBiasedPlus | src/coroutine/context/CooperationContextMap.ts:97-105 | Where the later element wins, plus followed by get gives the element that was put there |
| ContextMap.LookupLaws | src/coroutine/context/CooperationContextMap.ts:79-95 | A lookup misses exactly where the name is absent, throws exactly where a mapped key cannot revive the text, and otherwise finds the element that was put there or what the text revives to |
| ContextMap.EarlierStays | src/coroutine/context/CooperationContextMap.ts:97-155 | Whatever operations follow, contexts made before and lookups answered before stay as they are |
| ContextMap.NextOperations | src/coroutine/context/CooperationContextMap.ts:79-155 | At any point a lookup is answered from the context it is made on, and plus and minus add a context of their own |
| ContextMap.CooperationContextMap.Get | src/coroutine/context/CooperationContextMap.ts:79-95 | The lookup of the plain map; the cache entry it leaves does not change what the context stands for |
| ContextMap.CooperationContextMap.Minus | src/coroutine/context/CooperationContextMap.ts:146-155 | The plain map without the key: this very context if it was absent, else one on maps of its own |
| ContextMap.CooperationContextMap.Plus | src/coroutine/context/CooperationContextMap.ts:97-105 | The plain map with the element, combined with the one already there; shared text is not written |
| ContextMap.CooperationContextMap.Fold | src/coroutine/context/CooperationContextMap.ts:164-181 | A left fold over one element per name in ascending order of names, determined by the contents alone |
| ContextMap.OneListOnly | src/coroutine/context/CooperationContextMap.ts:176-181 | There is only one ascending list of the names, so fold cannot depend on what has been cached |
| ContextMap.CooperationContextMap.ElementsByName | src/coroutine/context/CooperationContextMap.ts:165-176 | Text wins over a cached element of the same name |

## Left out

- Workers.Trace: `fetchPendingCoroutineRun` is two separate actions, Pick with Lock and Reread, instead of one method; the
  selection order (ORDER BY, LIMIT 1) is arbitrary, so the theorems hold for any order.
- SagaTrace does not model rows committed by other transactions but not yet visible to a statement's max(created_at); a
  run's own rows are written under its row lock, so only cancellation requests could be missed.
- Repository.MessageEventTable.StartContinuations: one pass is atomic; concurrent passes against a stale snapshot are not
  modelled, nor are the joins with message topics (`onTopic`) and the strategy's start test (`startable`), which are
  parameters.
- Repository.MessageEventTable.InsertRollbackEmittedEvent: requests aimed at scopes below a root are not modelled; the
  message lookup is unique only at roots.
- TreeTheorems.WholeTreeIsRolledBack: emissions made by rollback callbacks and failure handlers of the rollback are not
  part of the forward path; a run of such a message is not claimed to be rolled back.
- Scenario.AnotherRunsFailureLeavesAChild: the step column of COMMITTED, ROLLING_BACK, ROLLED_BACK and ROLLBACK_FAILED rows is
  not determined by the tick; any name may stand there.
- SagaTrace: the strategy's deadlines do not pass, at readiness; give-up decisions inside a tick are arbitrary, so they may
  be those of deadlines.  Cancellation.NoDeadlines restricts them to what a cancellation request explains.
- Cancellation.CancelledScopeStandsStill: a run that somebody has read and locked when the request is written may finish
  that one tick, if both its checks come before the request.
- The last row of a lineage on equal created_at is any of them, as the database may choose.
- latest_suspended is taken per lineage; the query takes it per message, which is the same on reachable logs.
- launchOnGlobalScope inside a step is a launch of its own; return values, join results and message payloads are left out.
- Deadlines and time-based wake-ups (Sleep) appear only as arbitrary strategies; backoff after infrastructure failures and
  the drain loop inside one tick are left out.
- Postgres itself, NOTIFY delivery, migrations, clock calibration, logging and SQL text assembly.
- ContextMap.CooperationContextMap.Plus: merging two maps that both hold cached keys is left out, as is the iteration
  order of equal names under several keys; one key per name is used.  Names are ordered by character, which for
  characters outside the basic plane differs from UTF-16 order.
- CooperationFailures.ConvertThrowable: parsing a V8 stack text into frames is left out; an error's frames are given.
  Errors whose causes form a cycle are not modelled.
- Ticker.PeriodicTick.Close: the bounded wait itself and its warning are left out.
- No termination claim is made for user loops or for failure handlers that keep handling.
