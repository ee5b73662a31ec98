# A verified model of the agent gateway's coordination cores

The gateway coordinates paid jobs: it plans and posts them, lets validators commit and reveal votes on their results,
watches agents for failures and anomalies, delivers energy telemetry to an oracle contract, assigns agents to steps, and
keeps indexes and reports. Its state machines, queues and sliding windows live in ordinary in-memory structures. This
project models them in Dafny 4.11, in the form the code has (classes with the mutable fields, loops over the
collections), and proves what they keep over every run. `dafny verify dfyconfig.toml` checks everything.

## How it is organised

| file | component |
|---|---|
| `TaskGraph.dfy`, `JobPlanner.dfy`, `JobPlannerSafety.dfy`, `JobPlannerProgress.dfy`, `JobPlannerOverlap.dfy`, `JobPlannerSchedules.dfy` | cycle detection, plans and the job index; invariants of every run; progress to completion; operations that overlap in time or come twice; their parts under the locks |
| `PlanLock.dfy` | the per-plan lock, and the serialisability it provides |
| `ValidationStore.dfy`, `CommitReveal.dfy`, `ValidatorGateway.dfy` | the persisted votes; the commit/reveal protocol with crashes; the handlers in imperative form |
| `SlidingWindow.dfy`, `Quarantine.dfy`, `CircuitBreaker.dfy`, `AnomalyEscalation.dfy` | lazily pruned windows, each against the full history |
| `NonceLog.dfy`, `EnergyOracle.dfy`, `TelemetryOutbox.dfy` | nonce allocation, retries, and the outbox with an interleaved producer |
| `AgentHealth.dfy`, `AgentRegistry.dfy` | what makes an agent available, over its whole life; registrations, replacement search, step preparation, watchdog |
| `Grouping.dfy`, `OpportunityBacktest.dfy`, `DeliverableStore.dfy` | aggregation by key, and the two reports built on it |
| `OpportunityCache.dfy`, `Migrations.dfy`, `ConfigMerge.dfy` | bounded cache and index, crash-safe migrations, recursive merge |
| `Collections.dfy`, `Sorting.dfy` | shared vocabulary; the stable sort of the two runtimes |

Two styles are used. Where a contract speaks of history (quarantine, breaker, anomalies, nonces, outbox, registry,
cache), a class holds the code's own fields next to ghost logs of everything that happened, and each method's contract
is a statement about those logs. Where several handlers interact over time (planner, lock, commit/reveal, migrations),
pure step functions define a transition system; lemmas range over all its runs, and methods written like the code are
proved equal to the step functions.

## What is assumed

- Clocks are monotone and are parameters; a handler that reads the clock several times has several time parameters, also
  where no other handler can run between two readings.
- `postJob` returns fresh job ids and the chain reports each job at most once, after its posting has been indexed (the
  completion handler drops a report of a job it cannot find, `agent-gateway/jobPlanner.ts:719-722`). The planner does not
  enforce "at most once" itself: saving a plan puts the index entry of a reported job back
  (`agent-gateway/jobPlanner.ts:265-276`). A second report changes nothing if and only if it repeats the recorded outcome;
  otherwise it overwrites the task and may turn the status of its plan (`JobPlannerOverlap.SecondReport`).
- The bodies that change one plan run under its lock, so the planner's runs are made of whole operations:
  `PlanLock.LockSerialises` is why that is enough for one plan, and `JobPlannerSchedules.SchedulesAreSerial` why it is for
  many, whose operations interleave part by part. A completion looks its job up before it takes the lock, and would find
  the same after (`JobPlannerOverlap.EarlierLookupStillHolds`).
- The commitment hash is any function of the job and the vote (the job's nonce is a function of the job), collision-free
  where a lemma says so, and never empty; the chain keeps the first commitment per job and validator and drops none; writes
  to the store are reliable.
- The outbox starts with its queue loaded and delivers through the contract. A receipt means success. Delivery on chain is
  at least once: a submission may have reached the chain although its confirmation was lost, and then it is sent again.
- Database transactions are atomic and isolated. (SQLite's driver commits some schema statements on its own, which this
  model does not describe.)
- `localeCompare` orders strings by some strict weak order; library sorts are stable.

## What the proofs found

- A quarantine threshold below one does not quarantine everybody, as the definition would: the answer meets the definition
  if and only if the threshold is positive or a failure is on record (`Quarantine.AnswerIsTheDefinition`; a witness is
  `Quarantine.ZeroThresholdSparesTheUnreported`).
- A vote is written to the store only after its commitment is on the chain. A commitment on the chain can ever be revealed
  without overrides if and only if its vote is remembered, stored, or with a handler that has yet to record it
  (`CommitReveal.RevealableUnlessOrphaned`); at a crash the store alone decides (`CommitReveal.RevealableIffStored`). A
  transaction that outlives its handler orphans its commitment whenever it is mined
  (`CommitReveal.AbandonedCommitmentsAreOrphaned`). Runs that lose a vote are `CommitReveal.CommitmentsCanBeOrphaned` and,
  with a retry that is overtaken by the old transaction, `CommitReveal.RetriesCanBeOvertaken`. A caller who chose the salt
  can still reveal with overrides.
- The recovery drill never ends a pause; the call that would is reached only after the pause has run out
  (`CircuitBreaker.ValidationBreaker.FinishDrill`). Ending a pause right at its deadline can store a later deadline, by the
  gap between two readings of the clock, but no answer ever shows it (`CircuitBreaker.ValidationBreaker.Resume`).
- The cooldown between two alerts of one agent is kept in every run if and only if it is at most the window plus one
  millisecond: a report between the two can drop the entry that remembers the first
  (`AnomalyEscalation.CooldownHoldsUpToTheWindow`; a witness is `AnomalyEscalation.ReportForgetsTheAlert`).
- The planner's branch for a stale index entry is never taken (`JobPlannerSafety.IndexedJobsAreReportable`), and no
  successful completion leaves an unfinished plan without anything posted or launched (`JobPlannerProgress.CompletionNeverStalls`).
- The four passes of the replacement search are one: each pass that finds anything finds the head of the sorted list. At one
  instant all unavailable ids get the same replacement, and a preparation that fails has changed no parameter
  (`AgentRegistry.OneInstantSubstitutes`). The code reads the clock for each id. With readings that do not run backwards, a
  preparation, failing or not, leaves the parameters alone if and only if no agent key names an agent that was found down
  (`AgentRegistry.UntouchedUnlessFoundDown`); when an agent times out between two ids a failing preparation does leave
  parameters rewritten (`AgentRegistry.AgentTimesOutMidway`).
- The anomaly threshold and window, meant to be positive integers, are nought for a fraction between nought and one in the
  environment (`AnomalyEscalation.PositiveUnlessFraction`).
- A forecast file longer than the limit, which may have been lowered between two starts, can make recording evict the
  forecast just recorded while the index keeps it; this happens if and only if the job sits among the entries that trimming
  cuts off (`OpportunityCache.NewestSurvivesUnlessCutOff`; a witness is `OpportunityCache.LoweredLimitLosesNewest`).
- Of migrations under one version only the first is applied, and the run still finishes. A finished list has been applied in
  full if and only if its versions are distinct (`Migrations.CompleteExactlyWhenDistinct`; a witness is
  `Migrations.RepeatedVersionIsSkipped`). Concurrent runs are safe, because the version's primary key rolls back the slower one.
- The energy percentage of the backtest leaves zero readings out of its sum but counts them in its divisor. It is the mean
  of the relative errors if and only if no metered reading is zero or all relative errors are nought
  (`OpportunityBacktest.PercentageIsMeanUnlessZeroReadings`; a witness is `OpportunityBacktest.ZeroReadingHalvesThePercentage`).

## Model

| member | source | states |
|---|---|---|
| `TaskGraph.AssertNoCycles` | agent-gateway/jobPlanner.ts:278-304 | terminates on every task list and returns normally exactly when the dependency graph is acyclic; the order of entry into `visited` is then a dependency order, and otherwise the named task lies on a real cycle |
| `TaskGraph.CycleSearch.Visit` | agent-gateway/jobPlanner.ts:285-299 | a visit extends the dependency order with the node, leaving the stack as it was, or stops with a stack that shows a cycle |
| `TaskGraph.OrderedIsAcyclic` | agent-gateway/jobPlanner.ts:278-304 | a dependency order of all tasks rules out every cycle |
| `TaskGraph.RevisitShowsCycle` | agent-gateway/jobPlanner.ts:286-288 | meeting a name on the stack means that the stack from there on is a cycle |
| `PlanLock.AsyncLock.TryOrWait` | agent-gateway/jobPlanner.ts:103-115 | takes a free lock, otherwise joins the end of the queue |
| `PlanLock.AsyncLock.ReleaseLock` | agent-gateway/jobPlanner.ts:117-123 | hands the lock to the first waiter, or frees it when nobody waits |
| `PlanLock.ActorHoldsLock` | agent-gateway/jobPlanner.ts:215-230 | whoever may act is the only granted client that has not let go, and waits nowhere |
| `PlanLock.LockSerialises` | agent-gateway/jobPlanner.ts:99-124 | over every interleaving: grants follow request order, nobody waiting is lost, a non-empty queue means the lock is held, there is at most one holder, and the shared state is that of whole bodies run one after the other in that order |
| `JobPlanner.Planner.ReindexPlan` | agent-gateway/jobPlanner.ts:232-243 | drops the plan's old entries and adds one for every task with a job, leaving other plans' entries alone |
| `JobPlanner.Planner.SavePlan` | agent-gateway/jobPlanner.ts:265-276 | stores the plan and reindexes it |
| `JobPlanner.Planner.DependenciesSatisfied` | agent-gateway/jobPlanner.ts:306-320 | answers whether every dependency exists, is completed and did not fail |
| `JobPlanner.Planner.SelectReady` | agent-gateway/jobPlanner.ts:625-632 | the pending, allowed tasks with met dependencies, in plan order; no more than the maximum, and one is missing only when the maximum is reached by earlier ones |
| `JobPlanner.Planner.CreateJobPlan` | agent-gateway/jobPlanner.ts:423-512 | creates the plan exactly when the id is new and the definition is good (non-empty, distinct ids, no self-dependency, known dependencies, acyclic); every rejection names a real witness and changes nothing |
| `JobPlanner.Planner.PostTasks` | agent-gateway/jobPlanner.ts:529-571 | each posting that succeeds marks its task and indexes its job; one that throws only counts an attempt |
| `JobPlanner.Planner.LaunchJobPlan` | agent-gateway/jobPlanner.ts:573-690 | a launch of a draft or active plan tries no more tasks than the maximum, fewer only when no other can be tried, and none before an earlier one that could be; each tried task was pending, allowed and had met dependencies, gets its reply in turn and is listed as launched or as skipped, every other task stays as it was, and the pending ones are listed; any other plan is refused or ignored |
| `JobPlanner.LaunchLosesNoTask` | agent-gateway/jobPlanner.ts:636-687 | what was pending before a launch has been launched or is pending after it |
| `JobPlanner.PendingIdsArePending` | agent-gateway/jobPlanner.ts:684-686 | the ids listed as pending are those of the pending tasks |
| `JobPlanner.PendingInOrder` | agent-gateway/jobPlanner.ts:684-686 | they are listed in plan order, each as often as it occurs |
| `JobPlanner.Planner.ReportCompletion` | agent-gateway/jobPlanner.ts:725-822 | the whole new state after a completion under the lock, and that a resume is asked for exactly when the plan is active with a task ready |
| `JobPlanner.AppendHistory` | agent-gateway/jobPlanner.ts:179-184 | appending keeps the last entries up to the limit |
| `JobPlanner.HistoryIsSuffix` | agent-gateway/jobPlanner.ts:179-184 | after any number of appends the history is the last `limit` of all entries ever appended |
| `JobPlannerSafety.NewPlanOk` | agent-gateway/jobPlanner.ts:440-491 | a created plan is well formed, with ranks that fall along dependencies |
| `JobPlannerSafety.SavedIsExact` | agent-gateway/jobPlanner.ts:232-276 | after every save the index holds exactly the job ids of the stored plans' tasks |
| `JobPlannerSafety.LaunchKeepsPlanOk` | agent-gateway/jobPlanner.ts:606-680 | launching keeps a plan well formed |
| `JobPlannerSafety.CompletionKeepsPlanOk` | agent-gateway/jobPlanner.ts:733-822 | a completion keeps a plan well formed and its status true to its tasks |
| `JobPlannerSafety.LaunchRecordsPostings` | agent-gateway/jobPlanner.ts:529-545 | the record of postings stays exactly the tasks that are no longer pending |
| `JobPlannerSafety.NewPostingInOrder` | agent-gateway/jobPlanner.ts:625-640 | every new posting comes after the postings of all dependencies of its task |
| `JobPlannerSafety.IndexedJobsAreReportable` | agent-gateway/jobPlanner.ts:719-732 | an index entry always leads to a task with that job, posted if the job was not reported yet |
| `JobPlannerSafety.StepKeepsInv` | agent-gateway/jobPlanner.ts:423-830 | creating, launching and completing keep the planner's whole invariant |
| `JobPlannerSafety.ReachableStatesAreSafe` | agent-gateway/jobPlanner.ts:232-276 | in every reachable state: tasks that are not pending have all dependencies completed successfully, a plan is failed iff some task failed and completed iff all are, the index is exact, and each task is posted at most once, after its dependencies |
| `JobPlannerSafety.NothingIsPostedAfterFailure` | agent-gateway/jobPlanner.ts:593-598 | once a plan has failed it stays failed, and no later run posts any of its tasks |
| `JobPlannerProgress.WalkToReady` | agent-gateway/jobPlanner.ts:306-320 | following unmet dependencies from any pending task ends at a task that can be posted |
| `JobPlannerProgress.NoDeadlock` | agent-gateway/jobPlanner.ts:306-320 | an unfinished plan with nothing posted and nothing failed has a task for the next unrestricted launch |
| `JobPlannerProgress.CompletionNeverStalls` | agent-gateway/jobPlanner.ts:787-830 | a success that leaves nothing posted and nothing failed completes its plan or resumes it |
| `JobPlannerProgress.HandledSuccessLeavesWork` | agent-gateway/jobPlanner.ts:713-830 | a success handled while posting works leaves its plan completed, or with a posted task whose completion calls the handler again |
| `JobPlannerProgress.HandlerIsARun` | agent-gateway/jobPlanner.ts:713-830 | the whole handler, resuming launch included, is a legal run of completions and launches, so every invariant holds after it |
| `JobPlannerProgress.UnfinishedPlansAdvance` | agent-gateway/jobPlanner.ts:573-830 | in every reachable state an unfinished plan without failures has a legal event that advances it |
| `JobPlannerProgress.AdvanceDecreases` | agent-gateway/jobPlanner.ts:573-830 | every launch that posts something and every success decreases twice the pending plus the posted tasks |
| `JobPlannerProgress.CompletionIsReachable` | agent-gateway/jobPlanner.ts:573-830 | from every reachable state, with any other plans around, an unfailed plan is completed by some legal run of at most twice its pending plus its posted tasks |
| `JobPlannerProgress.OnlyFailuresSetBack` | agent-gateway/jobPlanner.ts:573-830 | every legal event other than a failed job of the plan keeps it unfailed and adds nothing to that measure |
| `JobPlannerProgress.AdvancesAreBounded` | agent-gateway/jobPlanner.ts:573-830 | along every run in which no job of the plan fails, at most two events a task advance it, whatever happens between them |
| `JobPlannerProgress.MaximalRunsComplete` | agent-gateway/jobPlanner.ts:573-830 | the plan's own view: sequences of launches and successes take at most two steps a task, and one can go no further exactly when the plan is completed |
| `JobPlannerOverlap.EarlierLookupStillHolds` | agent-gateway/jobPlanner.ts:719-726 | what a completion looked up before taking the lock is what it would look up after, whatever ran in between |
| `JobPlannerOverlap.DifferentPlansCommute` | agent-gateway/jobPlanner.ts:215-230 | whole launches and completions of different plans commute, index included |
| `JobPlannerOverlap.SecondReport` | agent-gateway/jobPlanner.ts:719-822 | a job reported again is found again; the second report changes nothing if and only if it repeats the recorded outcome, and otherwise exactly its task and, by the rules of a first report, its plan's status |
| `JobPlannerSchedules.PartsAreTheOperation` | agent-gateway/jobPlanner.ts:529-822 | undisturbed, the parts of a creation, launch or completion (changes in place, index entries written and dropped, saves) do what the operation does |
| `JobPlannerSchedules.PartsCommute` | agent-gateway/jobPlanner.ts:232-276 | two parts on different plans about different jobs commute, saves with their reindexing included |
| `JobPlannerSchedules.ScheduledJobsAreApart` | agent-gateway/jobPlanner.ts:529-545 | in every schedule parts on different plans are about different jobs |
| `JobPlannerSchedules.SchedulesAreSerial` | agent-gateway/jobPlanner.ts:215-276 | however the parts of any number of operations interleave, as long as the locks keep operations on one plan apart, plans and index end up as if the operations had run one after the other |
| `ValidationStore.WritingTwice` | agent-gateway/validationStore.ts:104-155 | applying the same update twice stores what applying it once stores |
| `ValidationStore.UpdateIsStored` | agent-gateway/validationStore.ts:104-155 | field by field: what an update gives is stored, what it does not give is as it was or empty in a new record, metadata are merged, and no other record changes |
| `ValidationStore.OnlyVotesChangeVotes` | agent-gateway/validationStore.ts:104-195 | an update without a vote changes no stored vote and creates no record |
| `ValidationStore.NormalisedIsCanonical` | agent-gateway/utils.ts:548-555 | normalised salts are canonical, and the canonical salts are exactly the fixed points |
| `ValidationStore.PrefixIsOptional` | agent-gateway/utils.ts:548-555 | with or without the prefix, 64 hexadecimal digits are taken in lower case, and any other number of them is refused |
| `CommitReveal.StepKeepsInv` | agent-gateway/validator.ts:902-1371 | every step, crashes included, keeps every remembered and stored vote opening the chain's commitment |
| `CommitReveal.RevealsOpenCommitments` | agent-gateway/utils.ts:619-669 | over any run of commits, persists, crashes, rehydrations and reveals, with transactions that are mined after their handler died or gave up, every reveal sent without overrides opens the one commitment that the chain holds |
| `CommitReveal.RevealsAgree` | agent-gateway/validator.ts:902-987 | whichever of the two paths committed and revealed, all reveals for one job and validator carry the same vote |
| `CommitReveal.StoredVotesStay` | agent-gateway/validationStore.ts:157-195 | a stored vote is never lost or replaced |
| `CommitReveal.StoredVotesCanBeRevealed` | agent-gateway/validator.ts:632-674 | after a crash at any later moment both reveal paths still send exactly the stored vote, unless the record already has a reveal transaction, which is exactly when a new assignment counts as revealed |
| `CommitReveal.OrphansAreNeverRevealed` | agent-gateway/utils.ts:628-655 | a commitment whose vote is nowhere in the gateway stays so, and no later run sends a reveal of it without overrides |
| `CommitReveal.RevealableUnlessOrphaned` | agent-gateway/utils.ts:582-669 | in every reachable state, whenever it was mined: a commitment on the chain can be revealed without overrides in some later run if and only if it is not orphaned |
| `CommitReveal.RevealableIffStored` | agent-gateway/validator.ts:902-987 | a commitment that is on the chain at a crash can be revealed without overrides in some later run if and only if its vote had reached the store |
| `CommitReveal.AbandonedCommitmentsAreOrphaned` | agent-gateway/utils.ts:582-617 | a transaction sent before a crash or a lost receipt and mined after it orphans its commitment |
| `CommitReveal.NobodyWaitsAfterwards` | agent-gateway/utils.ts:582-617 | a crash or a failed wait leaves every transaction that is sent and not yet mined without its handler, so that it orphans its commitment if it is mined first |
| `CommitReveal.RevealsRememberTheVote` | agent-gateway/utils.ts:628-655 | a reveal by either path keeps the vote that it looked up |
| `CommitReveal.JobDoneForgetsTheAssignment` | agent-gateway/validator.ts:1335-1371 | the end of a job drops its assignment, adds metadata to its record, and changes nothing else |
| `CommitReveal.HousekeepingSteps` | agent-gateway/validator.ts:1373-1466 | a cleanup forgets the remembered votes of its job, a dispute sets that of its record, and neither changes anything else |
| `CommitReveal.RetriesCanBeOvertaken` | agent-gateway/utils.ts:582-617 | a witness: send, crash, retry with a new salt; the old transaction is mined first, the new one is refused, and neither vote is kept |
| `CommitReveal.CommitmentsCanBeOrphaned` | agent-gateway/utils.ts:582-617 | a witness: the process dies between the transaction and the write, and the commitment is orphaned |
| `CommitReveal.OverridesMustAgree` | agent-gateway/utils.ts:619-669 | a reveal with overrides opens the commitment if and only if the overrides repeat the committed vote |
| `CommitReveal.FailedCommitsRetry` | agent-gateway/validator.ts:1192-1214 | in every state, a commit that gives up, loses its receipt or is refused leaves its assignment failed and idle with the attempts it has used and the votes as they were; it can begin again, with a new transaction, if and only if attempts are left |
| `CommitReveal.AttemptsAreBounded` | agent-gateway/validator.ts:1035-1071 | in every run no assignment begins more often than the limit |
| `CommitReveal.ValidatorRoundCompletes` | agent-gateway/validator.ts:902-1190 | the validator path, undisturbed, is a legal run: the vote committed is the vote revealed, and record, assignment and chain end up saying so |
| `CommitReveal.HelperRoundCompletes` | agent-gateway/utils.ts:557-669 | the same through the endpoints, where a salt that the caller gives is used in canonical form |
| `ValidatorGateway.Gateway.RememberCommit` | agent-gateway/utils.ts:586-588 | from here on the endpoint answers with this vote, and every remembered vote still opens the chain's commitment |
| `ValidatorGateway.Gateway.PersistCommit` | agent-gateway/utils.ts:602-617 | from here on the endpoint answers with this vote after a crash, and what it answers for any other key is unchanged |
| `ValidatorGateway.Gateway.LookUpVote` | agent-gateway/utils.ts:619-655 | without overrides there is a vote exactly when one is remembered or stored, and it opens the chain's commitment |
| `ValidatorGateway.Gateway.ConfirmHelperReveal` | agent-gateway/utils.ts:656-669 | memory forgets the vote, the store keeps every vote and marks this one as revealed |
| `ValidatorGateway.Gateway.SelectValidator` | agent-gateway/validator.ts:1245-1314 | a known assignment stays; a new one takes over the stored vote as committed, or as revealed if the record has a reveal transaction, and then never commits again |
| `ValidatorGateway.Gateway.BeginCommit` | agent-gateway/validator.ts:1035-1071 | begins if and only if the assignment is known, idle, neither committed nor revealed, and has attempts left; it is then evaluating, busy and one attempt up |
| `ValidatorGateway.Gateway.FinishCommit` | agent-gateway/validator.ts:1151-1190 | the vote survives a crash from here on, and an assignment still attached will reveal exactly it and never commits again |
| `ValidatorGateway.Gateway.RevealValidation` | agent-gateway/validator.ts:902-987 | the vote sent opens the chain's commitment; there is none exactly when the assignment is gone, revealed or without a vote |
| `ValidatorGateway.Gateway.ConfirmReveal` | agent-gateway/validator.ts:902-987 | an assignment still attached is not revealed again, and every stored vote stays |
| `ValidatorGateway.Gateway.FailCommit` | agent-gateway/validator.ts:1192-1243 | its own assignment is failed and idle and keeps its attempts and its vote; nothing else changes |
| `ValidatorGateway.Gateway.RecordDispute` | agent-gateway/validator.ts:1373-1466 | sets, clears or keeps the dispute of its record and touches no vote and no other record |
| `ValidatorGateway.Gateway.DetachAssignment` | agent-gateway/validator.ts:1335-1371 | drops this assignment and no other, stores the metadata it is given, and loses or changes no stored vote |
| `ValidatorGateway.Gateway.CleanupJob` | agent-gateway/utils.ts:225-241 | forgets the remembered votes of this job and of no other; the endpoint answers as before for other jobs and for every stored vote |
| `SlidingWindow.PruneTwice` | agent-gateway/security.ts:64-66 | an earlier, looser pruning is invisible to a later, tighter one |
| `SlidingWindow.PruneAgrees` | agent-gateway/security.ts:64-66 | pruning at any moment up to now leaves every window still to come equal to that of the full history |
| `Quarantine.AnswerIsTheDefinition` | agent-gateway/security.ts:116-129 | the answer given equals the simple definition exactly when the threshold is positive or a failure is on record |
| `Quarantine.ZeroThresholdSparesTheUnreported` | agent-gateway/security.ts:17-18 | a witness: with a threshold of zero, an agent nobody reported should be quarantined and is not |
| `Quarantine.QuarantineManager.RecordFailure` | agent-gateway/security.ts:68-87 | the stored history has as many entries as there are recent failures, and the agent is flagged if and only if it was or they reach the threshold |
| `Quarantine.QuarantineManager.RecordSuccess` | agent-gateway/security.ts:89-103 | a success resets the agent and touches no other |
| `Quarantine.QuarantineManager.ReleaseAgent` | agent-gateway/security.ts:105-114 | a release resets a known agent and does nothing to an unknown one |
| `Quarantine.QuarantineManager.IsQuarantined` | agent-gateway/security.ts:116-129 | after any sequence of reports, prunings, queries and restarts: true iff the failures since the last reset that are at most the window old number at least the threshold |
| `Quarantine.QuarantineManager.Restart` | agent-gateway/security.ts:26-41 | reading the saved file back, without the prunings that were not saved, changes no later answer |
| `CircuitBreaker.ValidationBreaker.ComputeStats` | agent-gateway/validator.ts:184-205 | the statistics of the pruned window are those of the full history restricted to the last window |
| `CircuitBreaker.StatsAreOfWindow` | agent-gateway/validator.ts:184-205 | they are the size of the window and its share of failures |
| `CircuitBreaker.AlarmInCounts` | agent-gateway/validator.ts:346-351 | a window alarms if and only if it has enough outcomes and its failures reach the rate, in counts |
| `CircuitBreaker.RecoveryInCounts` | agent-gateway/validator.ts:357-361 | a window has recovered if and only if it has half as many outcomes and its failures are at most half the rate or one in twenty, in counts |
| `CircuitBreaker.ConfiguredKeepsWhatIsAllowed` | agent-gateway/validator.ts:139-154 | the settings are clamped, and exactly those within the bounds are taken over unchanged |
| `CircuitBreaker.ValidationBreaker.IsPaused` | agent-gateway/validator.ts:180-182 | the single deadline answers for the whole history of pauses |
| `CircuitBreaker.ValidationBreaker.RecordOutcome` | agent-gateway/validator.ts:329-378 | a pause starts exactly on a failure outside a pause with enough samples and a high enough rate; a pause ends early exactly on recovery, at the deadline it stores or the old one if that comes first; nothing else changes the pauses |
| `CircuitBreaker.ValidationBreaker.TriggerPause` | agent-gateway/validator.ts:294-327 | the new pause starts now, lasts the configured length and is justified by the outcome just recorded |
| `CircuitBreaker.ValidationBreaker.Resume` | agent-gateway/validator.ts:231-260 | with separate readings for the test and for the deadline it stores: ends the running pause at the earlier of that and the old deadline, so it never extends one, and does nothing outside a pause |
| `CircuitBreaker.ValidationBreaker.StartDrill` | agent-gateway/validator.ts:262-275 | the drill's statistics are those of the last window of the full history |
| `CircuitBreaker.ValidationBreaker.FinishDrill` | agent-gateway/validator.ts:276-292 | whatever happened while it was suspended, the drill changes neither the pauses nor the deadline, and repeats exactly while the pause lasts |
| `CircuitBreaker.PausesAreJustified` | agent-gateway/validator.ts:294-378 | in every run each pause began on a failure that completed an alarming window, after all earlier pauses, and lasts no longer than configured |
| `CircuitBreaker.PausesAreDisjoint` | agent-gateway/validator.ts:294-302 | no instant lies in two pauses, and every pause starts outside all earlier ones |
| `AnomalyEscalation.AnomalyFits` | agent-gateway/telemetry.ts:588-607 | escalation takes a full window and at least the spacing since the last alert; a full window without escalation is within the cooldown |
| `AnomalyEscalation.RefreshFits` | agent-gateway/telemetry.ts:288-296 | forgetting an entry whose window is empty forgets only alerts older than the window |
| `AnomalyEscalation.AlertsStretch` | agent-gateway/telemetry.ts:591-607 | any n + 1 alerts of one agent stretch over at least n times min(cooldown, window + 1) |
| `AnomalyEscalation.EscalationsAreSpaced` | agent-gateway/telemetry.ts:571-607 | in every run any two escalations of one agent are at least min(cooldown, window + 1) apart, times the escalations from one to the other |
| `AnomalyEscalation.CooldownHoldsUpToTheWindow` | agent-gateway/telemetry.ts:288-296 | the alerts of an agent keep the cooldown in every run of anomalies and reports if and only if it is at most the window plus one |
| `AnomalyEscalation.ReportForgetsTheAlert` | agent-gateway/telemetry.ts:999-1031 | a witness: a report between two full windows forgets the alert, and the next one comes a window and a millisecond after it |
| `AnomalyEscalation.AnomalyMonitor.HandleAnomalies` | agent-gateway/telemetry.ts:560-607 | logs the anomaly and takes the right decision in terms of the agent's full history, in every run, with the agent's new entry and no other changed |
| `AnomalyEscalation.AnomalyMonitor.Report` | agent-gateway/telemetry.ts:999-1031 | reports exactly the asked-for agents with recent anomalies, with the count over their full history, and remembers exactly those with recent anomalies, every entry refreshed |
| `AnomalyEscalation.PositiveUnlessFraction` | agent-gateway/telemetry.ts:167-172 | what is meant to be a positive integer is one if and only if the number given is not a fraction between nought and one |
| `AnomalyEscalation.ConfiguredKeepsWhatIsAllowed` | agent-gateway/telemetry.ts:174-185 | positive settings are taken over unchanged, and without any the threshold is three in fifteen minutes |
| `NonceLog.RetriesReuseTheNonce` | agent-gateway/operator.ts:164-181 | with no commit or invalidation between, all attempts sign with the same nonce, even across refreshes |
| `NonceLog.CommitsAreConsecutive` | agent-gateway/operator.ts:283-287 | a user's successive commits carry consecutive nonces between invalidations |
| `NonceLog.CommitsIncrease` | agent-gateway/operator.ts:266-293 | they strictly increase over the whole run if the chain's counter never lags a confirmed submission |
| `EnergyOracle.EnergyOracleOperator.ReserveNonce` | agent-gateway/operator.ts:266-281 | a pending nonce is reused; otherwise it is one more than the cached nonce, and that is read from the contract first when there is none |
| `EnergyOracle.EnergyOracleOperator.CommitNonce` | agent-gateway/operator.ts:283-287 | caches the nonce and clears the pending one |
| `EnergyOracle.EnergyOracleOperator.InvalidateNonce` | agent-gateway/operator.ts:289-293 | forgets both nonces of the user and of nobody else |
| `EnergyOracle.EnergyOracleOperator.Refresh` | agent-gateway/operator.ts:132-140 | drops all pending nonces and no cached one |
| `EnergyOracle.EnergyOracleOperator.SubmitAttestation` | agent-gateway/operator.ts:183-243 | commits exactly one nonce when the attempt succeeds, and none otherwise |
| `EnergyOracle.EnergyOracleOperator.TryOnce` | agent-gateway/operator.ts:166-177 | one attempt: after a rejected signature both nonces of the user are dropped, after a network failure every pending one, and otherwise neither |
| `EnergyOracle.RetriesTellTheStory` | agent-gateway/operator.ts:164-181 | what any attempts sign with and how each failure is answered: the same nonce until a signature is rejected, then one more than what the contract says next; an invalidation after each rejected signature and before any further signing, a refresh after each network failure, and nothing else |
| `EnergyOracle.EnergyOracleOperator.SubmitWithRetry` | agent-gateway/operator.ts:164-181 | acknowledges iff some attempt within the limit succeeds, stops at the first, commits once and last, and what it adds to the log is that story of its attempts |
| `EnergyOracle.EnergyOracleOperator.Submit` | agent-gateway/operator.ts:142-162 | processes exactly the prefix before the first attestable sample that used up its attempts |
| `TelemetryOutbox.Outbox.PublishEnergySample` | agent-gateway/telemetry.ts:1300-1304 | appends the sample, whatever flush is in flight |
| `TelemetryOutbox.Outbox.BeginFlush` | agent-gateway/telemetry.ts:1306-1312 | starts a flush of a snapshot of the queue iff none is active and the queue is not empty |
| `TelemetryOutbox.Outbox.SubmitNext` | agent-gateway/operator.ts:142-162 | acknowledges the next sample of the snapshot, skips it when it has no valid attestation, or ends the submission |
| `TelemetryOutbox.Outbox.DropProcessed` | agent-gateway/telemetry.ts:1313-1318 | drains exactly what was processed from the head, although publishers may have appended meanwhile |
| `TelemetryOutbox.Outbox.EndFlush` | agent-gateway/telemetry.ts:1322-1325 | no flush is active afterwards, and what has been acknowledged is exactly what was drained with a valid attestation |
| `TelemetryOutbox.OutboxStory` | agent-gateway/telemetry.ts:1300-1326 | at any point of any interleaving: published = drained + queue in order, at most one flush is active, what is left of its snapshot is a prefix of the queue, and the acknowledged submissions are the handled samples with a valid attestation, each once and in order |
| `AgentRegistry.MatchingIsByName` | orchestrator/agents.py:328-333 | both branches of the capability match say that some capability of the agent has that name |
| `AgentRegistry.FindReplacement` | orchestrator/agents.py:293-326 | returns the earliest registered available candidate with the lexicographically greatest capability match, region match and stake, or nothing exactly when no candidate is available |
| `AgentRegistry.ReplacementIsPreferred` | orchestrator/agents.py:305-326 | against any available agent: a wanted capability comes first, a wanted region second, the stake last |
| `AgentRegistry.RegionIsFirstGiven` | orchestrator/agents.py:247-254 | the wanted region is the first that the three keys give |
| `AgentRegistry.ExclusionIsMoot` | orchestrator/agents.py:302-303 | excluding the agent being replaced changes nothing, as it is unavailable |
| `AgentRegistry.Registry.EnsureAssignment` | orchestrator/agents.py:270-291 | keeps an agent that is in service, replaces any other by one that is, and fails exactly when none is; in service is defined by the log of status changes, heartbeats and watchdog passes since registration |
| `AgentRegistry.AssignedAreUp` | orchestrator/agents.py:276-291 | every assigned agent is available and every available agent keeps its assignment |
| `AgentRegistry.Registry.PrepareStep` | orchestrator/agents.py:237-265 | resolves the ids in turn, each at its own reading of the clock, up to the first that nobody is available for, rewriting the parameters on the way; every agent it resolves to is in service at its reading |
| `AgentRegistry.OneInstantSubstitutes` | orchestrator/agents.py:256-265 | at one instant the rewrites are a simultaneous substitution for all unavailable ids, and a preparation that fails has rewritten nothing |
| `AgentRegistry.UntouchedUnlessFoundDown` | orchestrator/agents.py:237-265 | with readings that do not run backwards, a preparation that stopped anywhere leaves the parameters alone if and only if no agent key names an agent that was found down |
| `AgentRegistry.KeyAfterRewrites` | orchestrator/agents.py:342-355 | when no replaced agent is chosen again, a key changes exactly if it is an agent key whose agent was replaced |
| `AgentRegistry.AgentTimesOutMidway` | orchestrator/agents.py:256-265 | a witness that it takes one instant: an agent times out between two ids and a failing preparation leaves parameters rewritten |
| `AgentRegistry.RewriteIsSubstitution` | orchestrator/agents.py:342-355 | rewriting one more agent extends the simultaneous substitution, since no replacement is itself replaced |
| `AgentRegistry.Step.RewriteParams` | orchestrator/agents.py:342-355 | changes the agent keys that hold the old id and nothing else |
| `AgentRegistry.Registry.WatchdogPass` | orchestrator/agents.py:374-394 | sets exactly the agents offline, other than suspended ones, whose heartbeat is too old, and changes nothing else |
| `AgentHealth.WatchdogKeepsAvailability` | orchestrator/agents.py:335-394 | the watchdog changes nobody's availability, then or later |
| `AgentRegistry.Registry.RecordHeartbeat` | orchestrator/agents.py:190-213 | accepted iff the agent is known and authorised; its heartbeat is then now, it is active unless suspended, its capabilities are replaced if any are given, and no other agent changes |
| `AgentRegistry.Registry.Register` | orchestrator/agents.py:123-144 | a new agent is active and without a heartbeat; a known id is refused |
| `AgentRegistry.Registry.Update` | orchestrator/agents.py:146-179 | changes exactly the fields that are given, an empty region not counting, of a known agent and of no other |
| `AgentRegistry.Registry.Deregister` | orchestrator/agents.py:181-188 | forgets this agent and no other |
| `AgentHealth.HeartbeatRevives` | orchestrator/agents.py:201-205 | after a heartbeat an agent is available iff it is not suspended and the timeout has not passed |
| `AgentHealth.RecordTellsTheLife` | orchestrator/agents.py:335-340 | after any registration, status changes, heartbeats and watchdog passes: the record shows the agent available if and only if the operator has not suspended it and it is active without ever having sent a heartbeat, or its last heartbeat is within the timeout and the operator has not set it offline since |
| `AgentHealth.BeatReflects` | orchestrator/agents.py:201-207 | an accepted heartbeat keeps the record in line with the log |
| `AgentHealth.CheckReflects` | orchestrator/agents.py:374-394 | a watchdog pass keeps the record in line with the log |
| `AgentHealth.EditReflects` | orchestrator/agents.py:146-179 | an update keeps the record in line with the log |
| `Sorting.SortSorts` | orchestrator/agents.py:311 | the sorted list is ordered and has the same elements |
| `Sorting.SortHead` | orchestrator/agents.py:311 | its head is the earliest of the best elements |
| `Collections.LowerMeetsUpToCase` | agent-gateway/deliverableStore.ts:329-331 | lower-casing identifies strings that differ in the case of letters, and no others |
| `Grouping.GroupsPartition` | agent-gateway/deliverableStore.ts:505-530 | insertion-ordered grouping: each key has one group, holding exactly its entries in order |
| `Grouping.GroupingConserves` | agent-gateway/deliverableStore.ts:505-530 | grouping loses nothing and duplicates nothing |
| `OpportunityBacktest.UpdateStats` | agent-gateway/opportunityBacktest.ts:178-234 | adds to the totals exactly what the record stands for |
| `OpportunityBacktest.NetErrorsAddUp` | agent-gateway/opportunityBacktest.ts:380-436 | a forecast whose net is its reward less its energy has, against an outcome with both readings, a net error that is its reward error less its energy error |
| `OpportunityBacktest.NetWithoutReading` | agent-gateway/opportunityBacktest.ts:388-391 | without an energy reading the net is the reward, and there is no energy error |
| `OpportunityBacktest.PerfectForecast` | agent-gateway/opportunityBacktest.ts:393-436 | a forecast that repeats the outcome has all errors nought, the agent matched and the success predicted, for every threshold above nought and at most one |
| `OpportunityBacktest.ProjectionsMoveTheirErrors` | agent-gateway/opportunityBacktest.ts:423-434 | a projection that is moved moves its own error by as much and changes nothing else of the record |
| `OpportunityBacktest.RelativeErrorIsAShare` | agent-gateway/opportunityBacktest.ts:434-435 | the relative error times the reading is the error, and there is one if and only if the reading is not zero |
| `OpportunityBacktest.AgentsMatchUpToCase` | agent-gateway/opportunityBacktest.ts:410-414 | matched if and only if both addresses are given and differ in the case of letters at most |
| `OpportunityBacktest.PredictionsAndCategory` | agent-gateway/opportunityBacktest.ts:397-420 | a success is predicted from the threshold on, the category of the outcome wins, and the rest is what the forecast says |
| `OpportunityBacktest.MetricsAreMeans` | agent-gateway/opportunityBacktest.ts:236-277 | each of the ten metrics is the mean of its values, one a record that has one; a missing score or confidence and a share of a zero reading count as nought |
| `OpportunityBacktest.PercentageIsRelativeError` | agent-gateway/opportunityBacktest.ts:41-52 | the percentage added is the magnitude of the relative error that the record reports |
| `OpportunityBacktest.PercentageIsMeanUnlessZeroReadings` | agent-gateway/opportunityBacktest.ts:257-258 | energyMAPE is the mean of the relative errors if and only if no metered reading is zero, or there are relative errors and all are nought |
| `OpportunityBacktest.ZeroReadingHalvesThePercentage` | agent-gateway/opportunityBacktest.ts:213-224 | a witness: two evaluated forecasts, one with a zero reading, are reported with half the relative error |
| `OpportunityBacktest.SumsAreBounded` | agent-gateway/opportunityBacktest.ts:178-234 | for every record sequence the totals meet their bounds, and the reward errors the Cauchy-Schwarz inequality |
| `OpportunityBacktest.RatesAreProbabilities` | agent-gateway/opportunityBacktest.ts:236-277 | match rate, accuracy, Brier score and mean confidence lie in [0, 1] |
| `OpportunityBacktest.MeanErrorBelowRms` | agent-gateway/opportunityBacktest.ts:248-255 | the mean absolute reward error never exceeds the root mean square error |
| `OpportunityBacktest.SegmentMap.Update` | agent-gateway/opportunityBacktest.ts:279-299 | adds the record to its segment, in place or as a new one, and labels a segment that has no label |
| `OpportunityBacktest.SegmentsAreGroups` | agent-gateway/opportunityBacktest.ts:279-299 | the accumulated segments are the groups of the records, each summed and labelled on its own |
| `OpportunityBacktest.LabelIsFirstGiven` | agent-gateway/opportunityBacktest.ts:286-288 | a segment's label is the first non-empty one among its records |
| `OpportunityBacktest.AgentsAndCategoriesAreNamed` | agent-gateway/opportunityBacktest.ts:533-550 | an agent is keyed by its address and named by its label, else its ENS name, else its address; a record without a category is uncategorized |
| `OpportunityBacktest.SegmentsAddUp` | agent-gateway/opportunityBacktest.ts:533-550 | the segments of a dimension add up, field by field, to the records that have a key in it |
| `OpportunityBacktest.CategoriesCoverEverything` | agent-gateway/opportunityBacktest.ts:544-550 | the category segments add up to the overall totals |
| `OpportunityBacktest.StatusesPartition` | agent-gateway/opportunityBacktest.ts:509-528 | the five statuses partition the forecasts |
| `OpportunityBacktest.IndexOutcomes` | agent-gateway/opportunityBacktest.ts:486-489 | the index maps each job to its last outcome |
| `OpportunityBacktest.LatestIsLast` | agent-gateway/opportunityBacktest.ts:486-489 | the outcome of a job is the one that no later one replaces |
| `OpportunityBacktest.FilterDropsTheOlder` | agent-gateway/opportunityBacktest.ts:473-479 | dropped are exactly the forecasts stored before the instant asked for, and the others keep their order |
| `OpportunityBacktest.Build` | agent-gateway/opportunityBacktest.ts:467-569 | the report accounts for every forecast in its counters, totals and segments, and fails exactly when some evaluation does |
| `OpportunityBacktest.SortedAddUp` | agent-gateway/opportunityBacktest.ts:438-452 | ordering the segments does not change what they add up to |
| `OpportunityBacktest.ReportsAreConsistent` | agent-gateway/opportunityBacktest.ts:553-568 | in every report the counts partition, the category segments sum to the whole, the segments are the ordered groups of the records, and the rates are probabilities |
| `DeliverableStore.SelectsLatest` | agent-gateway/deliverableStore.ts:319-349 | selects the latest matching records, latest first, no more than the limit, leaving out none that is later and none at all while there is room |
| `DeliverableStore.MatchingIsByJobAndAgent` | agent-gateway/deliverableStore.ts:325-333 | a record matches iff it is of the job asked for, if any, and of the agent asked for, if any, whatever the case of its address |
| `DeliverableStore.Accumulators.AppendContribution` | agent-gateway/deliverableStore.ts:505-556 | adds the contribution and its non-empty attributes to the accumulator of its normalised address |
| `DeliverableStore.AccumulatorsAreGroups` | agent-gateway/deliverableStore.ts:505-556 | the accumulators are the groups of the emitted entries by normalised address |
| `DeliverableStore.EntriesTellTheDeliverables` | agent-gateway/deliverableStore.ts:558-604 | the entries say exactly what the selected deliverables say of their agents and contributors, and there are as many as there is to say |
| `DeliverableStore.TrimCutsTheEnds` | agent-gateway/deliverableStore.ts:519-521 | trimming a name cuts the white space off both ends and nothing else |
| `DeliverableStore.SummaryOfGroup` | agent-gateway/deliverableStore.ts:607-625 | a summary has exactly its group's contributions and attributes, and its first and last timestamps are the group's minimum and maximum |
| `DeliverableStore.ListSummaries` | agent-gateway/deliverableStore.ts:558-630 | the summaries together hold every primary and contributor entry of the selected deliverables exactly once, one summary a contributor, latest contributor first |
| `OpportunityCache.Cache.EnsureLoaded` | agent-gateway/opportunities.ts:53-61 | loading makes the index exactly the map of the cache |
| `OpportunityCache.Cache.Record` | agent-gateway/opportunities.ts:63-93 | from a healthy state: unique jobs, at most the limit, the newest forecast present, the file equal to the cache; from any loaded file with one entry a job the state becomes healthy exactly when the job is not cut off |
| `OpportunityCache.RecordingKeepsGood` | agent-gateway/opportunities.ts:70-91 | within the limit, recording keeps the index exactly the map of the cache and the newest forecast in it |
| `OpportunityCache.RecordingIsRepresented` | agent-gateway/opportunities.ts:70-91 | the cache is the last jobs to be inserted, in insertion order despite refreshes in place, each with its latest forecast |
| `OpportunityCache.NewestSurvivesUnlessCutOff` | agent-gateway/opportunities.ts:82-91 | from files of any length: the newest forecast survives, and the index is exact, if and only if the job does not sit among the entries cut off |
| `OpportunityCache.LoweredLimitLosesNewest` | agent-gateway/opportunities.ts:82-91 | a witness: with the limit lowered to one, refreshing the older of two jobs evicts it while the index keeps it |
| `OpportunityCache.Cache.Get` | agent-gateway/opportunities.ts:107-113 | the latest forecast of a job if it is among the last jobs to be inserted, else nothing |
| `OpportunityCache.Cache.List` | agent-gateway/opportunities.ts:95-105 | the newest records, newest first, cut to a positive limit |
| `OpportunityCache.Cache.Clear` | agent-gateway/opportunities.ts:115-119 | forgets the memory and nothing that is in the file |
| `Migrations.Database.Apply` | backend/database.py:123-128 | an upgrade and its version are committed together or not at all |
| `Migrations.Database.RunMigrations` | backend/database.py:115-128 | for every list, after any run, finished, failed or cut short: the applied versions are a prefix of the list's first occurrences and the schema is the fold over it; a finished run has applied all versions it knows, a failed one stops right before the upgrade that raises |
| `Migrations.AppliedIsAPrefix` | backend/database.py:100-128 | the same over every interleaving of concurrent and interrupted runs, each version applied at most once |
| `Migrations.AppliedOnlyGrows` | backend/database.py:115-128 | what is applied at any moment stays applied |
| `Migrations.FinishedRunsAgree` | backend/database.py:115-128 | whoever finishes the list leaves the schema of one uninterrupted run over its first occurrences |
| `Migrations.CompleteExactlyWhenDistinct` | backend/database.py:119-121 | a finished list has been applied in full if and only if its versions are distinct, and then the schema is the fold of all upgrades |
| `Migrations.RepeatedVersionIsSkipped` | backend/database.py:119-121 | a witness: the second migration under a used version is skipped, and the run finishes |
| `ConfigMerge.Copy` | config/__init__.py:21-26 | a copy has the same contents |
| `ConfigMerge.DeepMerge` | config/__init__.py:29-36 | computes the merge of two trees of any shape |
| `ConfigMerge.KeysAreTheUnion` | config/__init__.py:29-36 | the key set is the union, and the empty tree is neutral on both sides |
| `ConfigMerge.MergedAt` | config/__init__.py:29-36 | what the merge has at every path, in terms of what both trees have there |
| `ConfigMerge.OverrideWins` | config/__init__.py:29-36 | every value of the override that is not a dictionary wins at its path |
| `ConfigMerge.BaseSurvives` | config/__init__.py:29-36 | base values survive at paths the override does not reach |
| `ConfigMerge.MergeWithItself` | config/__init__.py:29-36 | merging a tree with itself changes nothing |
| `ConfigMerge.MergeTwice` | config/__init__.py:29-36 | applying the same override twice equals applying it once |
| `ConfigMerge.NetworkFileComesFirst` | config/__init__.py:55-64 | the file for the network, when one is named, comes before the general one |
| `ConfigMerge.FoundIsPreferred` | config/__init__.py:90-104 | what is loaded is the network file if it exists, else the general one if that exists |
| `ConfigMerge.LoadConfig` | config/__init__.py:80-106 | the first base file merged with the first profile file, and their sources in order; skipping the merge for an empty base makes no difference |

## Left out

- HTTP, gRPC and WebSocket routing, authentication, IPFS, signing, ENS look-ups, metrics, audit and trace records: plumbing
  over libraries that are not shown. `agent-gateway/stakeCoordinator.ts` and `agent-gateway/ensRegistrar.ts`: their outcomes are
  decided by contracts that are not part of this model.
- Planner: identifier normalisation, reading plans from disk, descriptions, tags and specs; the history is modelled by
  itself (`JobPlanner.AppendHistory`) and not as a field of the plan.
- JobPlanner.Planner.LaunchJobPlan: lists the skipped tasks without the texts of their errors, and the launched ones without
  their transaction hashes.
- JobPlanner.Planner.ReportCompletion: looks the job up and updates the plan in one step; `JobPlannerOverlap.EarlierLookupStillHolds`
  is why looking up earlier makes no difference.
- JobPlannerOverlap.DifferentPlansCommute: speaks of whole operations; `JobPlannerSchedules.SchedulesAreSerial` is about
  their parts.
- JobPlannerProgress.MaximalRunsComplete: the view of one plan, without the index and other plans;
  `JobPlannerProgress.CompletionIsReachable` and `JobPlannerProgress.AdvancesAreBounded` are about the whole planner.
- Planner and outbox: crashes between a send and the following save, from which the code claims no recovery.
- Commit/reveal: failed stake checks and the guard against a paused flow appear only as an assignment that fails; fields of a
  stored record other than vote, commitment, transactions, metadata and dispute; work on an assignment that was detached while
  its commit was in flight is in the runs, but one commit per assignment is not claimed for it.
- ValidationStore.WritingTwice: speaks of stored contents and not of the modification time, which each write sets anew.
- Quarantine: the report listing; the log actions around it.
- Settings of the breaker and the cooldown of the anomaly alerts: environment values that are not numbers.
- AnomalyEscalation.AnomalyMonitor.Report: shows agents and counts, not the other fields of a snapshot or their order; the call
  that records an escalation as an agent failure and the notification are not modelled.
- Outbox: the HTTP delivery path, persisting the queue, the race in `loadQueue` before loading finishes, and an error thrown in
  the middle of a batch by code other than a submission.
- Operator: attestation contents; a sample is known by its user and whether its job id is a number. Concurrent submissions by
  one operator do not occur on this path, as at most one flush is active.
- AgentRegistry.Registry.PrepareStep: one reading of the clock serves all candidates looked at for one id; log lines.
- AgentRegistry.Registry.RecordHeartbeat: the router that a heartbeat may carry and the time of the update.
- AgentRegistry.Registry.Update: owner, security and router of an agent, its secret, and the time of the update.
- Registry: the file, secrets (an authorised flag), lag fields, listings, log lines.
- OpportunityBacktest.Build: segments are shown with their totals, from which `Summarise` gives their metrics; notes and
  latencies; the clock is read once for the whole report, and accumulators are values, so aliasing between them is not captured.
- OpportunityBacktest.MeanErrorBelowRms: the root is any non-negative number whose square is the mean square.
- Backtest: float rounding (the model uses reals) and reading the outcome dataset.
- DeliverableStore.Accumulators.AppendContribution: metadata, and the running first and last timestamps, which the final loop
  always overwrites because no accumulator is empty.
- DeliverableStore.ListSummaries: the limit of a query is a whole number; attribute sets are sets and not sorted lists.
- Deliverables: cloning and payload references.
- Forecast cache: errors of the file system; the limit is a whole number of at least one.
- Migrations: drivers, the version table's own creation, schema statements that SQLite commits by itself.
- ConfigMerge.Copy: works on values, so that a copy shares no structure with its original is not captured.
- ConfigMerge.DeepMerge: works on values, so that the result shares no structure with its inputs is not captured, nor is key order.
- Configuration: parsing JSON and resolving the profile's name to a directory.
