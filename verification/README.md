# Arcanum, verified core

Arcanum is a task agent: sources are polled for tasks, changed tasks become jobs in a Postgres-backed queue, workers
lease and run the jobs, a control loop recovers what got stuck, and an agent layer learns from outcomes and arbitrates
between signals. This project models the parts of it whose correctness spans many calls, and proves what they promise.

- **The job queue** (`Jobs`, `JobRuns`, `JobSafety`, `JobLeases`, `JobOrder`, `JobQueue`, `JobWorker`). Each SQL
  statement is one atomic step, given by the rows its WHERE clause selects and the values its SET clause writes; the
  partial unique index on the dedupe key can refuse any of them. A run is any interleaving of steps by workers,
  heartbeats, control loops and operators under one non-decreasing clock, in microseconds. Every job has a history in
  a run, and the theorems say what rows, histories and times have to do with each other in all runs. `JobQueue.Queue`
  is the queue as a class over the table; a ghost field holds its run, so the theorems hold of it.
- **JSON recovery** (`JsonGrammar`, `JsonRecovery`, `JsonTheorems`). The grammar of RFC 8259 (sections 2 to 7) as syntax
  trees with their texts, the sanitizing pipeline as code, and the proof that a JSON object or array comes out unharmed.
- **Signal arbitration** (`Filters`, `Arbitration`), over the reals.
- **Action memory** (`ActionMemory`, `Hierarchy`, `HierarchyMeaning`, `ContextMemory`, `ContextListing`), over the
  reals; a square root is any function that is non-negative and squares back on the non-negative reals.
- **Smaller cores**: the guardrails' duplicate check (`Guardrails`), change detection (`ChangeDetector`,
  `Interruptions`), the canonical form behind the content hash (`ContentHash`), and the merging of actuation proposals
  (`Actuation`).

Where the code and its own words disagree, the model follows the code:

- A failed lease renewal ends the heartbeat, though the comment beside it says that it waits for the next tick
  (internal/worker/runner.go:72-80). `JobWorker.OneErrorCostsTheLease` shows a run in which that loses the job to
  another worker, `JobWorker.FirstErrorDecides` says exactly when it does.
- Exploration isolation drops every exploration signal once a directional stability or calibration signal is present,
  not only the contradicting ones (internal/agent/arbitration/resolver.go:126-153).
  `Arbitration.AgreeingExplorationIsDropped` shows what that does, `Arbitration.IsolatedAsDocumentedIff` and
  `Arbitration.StandingAsDocumentedIff` say exactly when it matters, and `Arbitration.DocumentedIsSubsumed` that the
  documented rule would have no effect at all.
- The exact contextual match compares four dimensions, not the five its comment names: the job type is ignored
  (internal/agent/actionmemory/context_feedback.go:34-38). `ContextListing.ListingDecides` shows a table for which the
  order among equal totals decides between "prefer" and "avoid", `ContextListing.TieAtTheCut` one for which it decides
  between an exact answer and none. `ContextListing.AnswerIsDeterminedIff` says exactly when the order matters, and
  `ContextMemory.SampleCountsThePointIff` when an exact answer speaks for all job types.
- A manual retry keeps the attempt counter, so the counter can pass the attempt limit: `JobSafety.RetryPassesTheLimit`
  shows a run, `JobSafety.LimitPassedIff` says exactly when, `JobSafety.Ledger` gives the bound that does hold.

A gap rather than a contradiction: a detection that fails halfway is not always made up for by repeating it
(internal/source/detector.go:50-112). `ChangeDetector.RepeatingMakesUpIff` says so of one detection; over whole runs
`Interruptions` says exactly when the stored hash, or one stored before, has no snapshot, when a snapshot is taken
twice, and when the last snapshot is not of the stored hash.

## Model

| member | source | states |
|---|---|---|
| `JobRuns.Reachable` | internal/jobs/queue.go:128-509 | in every reachable state every row satisfies the ledger, ownership and timing invariants against its own history, and the dedupe index holds |
| `JobSafety.OnlyEnqueueAndRetryCollide` | internal/jobs/queue.go:122-134 | no statement except an enqueue or a manual retry can ever be refused by the unique index |
| `JobSafety.EnqueueCollidesIff` | internal/jobs/queue.go:122-149 | an enqueue of a known type is turned away exactly when an active job holds its key |
| `JobSafety.RetryCollidesIff` | internal/jobs/queue.go:436-450 | a manual retry is refused exactly when another active job holds the dead-lettered job's key |
| `JobSafety.DedupeHolds` | internal/db/migrations/000004_create_processing_jobs.up.sql:18-21 | in every reachable state at most one job per dedupe key is neither succeeded nor dead-lettered |
| `JobSafety.HolderMeaning` | internal/jobs/queue.go:209-216 | the holder by a history is the worker of a grant after which the job was neither granted again, completed, failed nor reclaimed |
| `JobSafety.OnlyTheHolderActs` | internal/jobs/queue.go:212-227 | in every run a renewal, completion or failure takes effect if and only if its worker is the holder by the history, and otherwise changes no row at all |
| `JobSafety.StaleWorkerIsHarmless` | internal/jobs/queue.go:234-275 | a worker whose job was last granted to a different worker cannot change the table |
| `JobSafety.SucceededIsFinal` | internal/jobs/queue.go:212-227 | a succeeded row is the same in every continuation of the run |
| `JobSafety.Ledger` | internal/jobs/queue.go:242-259 | leases = failures + completions + reclaims + (1 if leased now); the attempt counter is the number of failures; at most one completion; leases stay within the attempt limit plus manual retries plus reclaims |
| `JobSafety.DeadExactlyAtLastAttempt` | internal/jobs/queue.go:244-254 | without a manual retry a failure dead-letters the job if and only if it is its max_attempts-th |
| `JobSafety.RetryPassesTheLimit` | internal/jobs/queue.go:438-442 | a run in which a manual retry lets the attempt counter exceed the limit |
| `JobSafety.LimitPassedIff` | internal/jobs/queue.go:242-259 | in every run the counter is past the limit if and only if failures have dead-lettered the job at least twice; from the first such failure on it is one less than the limit plus their number, which manual retries plus one bound; before, it is below the limit |
| `JobSafety.BackoffRespected` | internal/jobs/queue.go:251-254 | after the n-th failure that schedules a retry, no lease of the job is granted for 30·n² seconds, whatever else happens |
| `JobSafety.FailuresAreSpreadOut` | internal/jobs/queue.go:251-254 | in every run the k-th failure, for k up to the attempt limit, comes at least 5(k−1)k(2k−1) seconds after the first |
| `JobSafety.BurialTakesTime` | internal/jobs/queue.go:242-259 | a job never retried by hand is dead-lettered by a failure no earlier than 5(m−1)m(2m−1) seconds after its first failure |
| `JobLeases.ReclaimTakesSilentLeases` | internal/jobs/queue.go:354-368 | a reclaim takes a job if and only if somebody holds it and has neither leased nor renewed it for more than the lease duration |
| `JobLeases.HeartbeatProtects` | internal/jobs/queue.go:17-20 | if after every grant or renewal the holder shows life within the lease duration, no reclaim in the run ever takes the job |
| `JobLeases.TimelyWorkerIsHeard` | internal/worker/runner.go:57-116 | such a worker is still the holder until it completes or fails the job itself: its next statement takes effect |
| `JobLeases.NoSecondWorkerMeanwhile` | internal/worker/runner.go:57-116 | between two grants of a job kept alive, the first worker itself completed or failed it |
| `JobLeases.GrantLasts` | internal/jobs/queue.go:165-184 | once granted to a worker, a job is still held by it, or was reclaimed, or was completed or failed by that same worker |
| `JobLeases.ScanLeavesNothingOverdue` | internal/control/loop.go:116-121 | after a scan that began at T, however other steps interleave, no lease expired before T and no retry due by T is left |
| `JobLeases.QueuedIsLeasable` | internal/jobs/queue.go:176-179 | in every reachable state a queued job can be leased at once: its schedule never lies in the future |
| `JobLeases.JobTypesAreKnown` | internal/jobs/queue.go:96-102 | every job in the table is of a known type |
| `JobLeases.NothingIsBuried` | internal/control/loop.go:189-195 | given all known types, the scan's last step never changes the table |
| `JobOrder.RowHasOrigin` | internal/jobs/queue.go:94-134 | in every reachable state every row was inserted by an enqueue statement of the run and carries its task, type, priority, key and time, and its attempt limit or 3 |
| `JobOrder.OriginKept` | internal/jobs/queue.go:122-134 | those columns never change |
| `JobOrder.GrantsGoInOrder` | internal/jobs/queue.go:175-183 | in every run, when a job is granted, no unlocked queued job of a wanted type was enqueued with a higher priority, or with the same priority earlier |
| `JobQueue.BestCandidate` | internal/jobs/queue.go:175-183 | a queued, due, wanted, unlocked job such that every such job has no higher priority, and with the same priority was created no earlier; none only if there is none |
| `JobQueue.UpdateAll` | internal/jobs/queue.go:356-368 | a bulk update rewrites exactly the selected rows and counts them |
| `JobQueue.HoldsKey` | internal/jobs/queue.go:128-134 | finds out whether an active row holds a dedupe key |
| `JobQueue.Queue.Enqueue` | internal/jobs/queue.go:94-163 | unknown type, deduplicated or inserted, each under exactly its condition, and every column of the new row |
| `JobQueue.Queue.Lease` | internal/jobs/queue.go:165-207 | grants the job of highest priority, among equals of earliest creation, that is queued, due, wanted and unlocked, for five minutes, or changes nothing when there is none; every column of the row |
| `JobQueue.Queue.Complete` | internal/jobs/queue.go:209-232 | takes effect if and only if the caller holds the job by its history; then that row alone becomes succeeded and unowned, every other column but the update time as before |
| `JobQueue.Queue.Fail` | internal/jobs/queue.go:234-311 | the same guard; the reported attempt count, status and schedule, with a delay of 30·n² seconds, and every column of the new row |
| `JobQueue.Queue.RenewLease` | internal/jobs/queue.go:313-347 | true if and only if the caller holds the job; then the lease runs five minutes from now and nothing else but the update time changes |
| `JobQueue.Queue.ReclaimExpiredLeases` | internal/jobs/queue.go:349-397 | exactly the leases that expired before now are taken back, every column given; the count is that of the rows taken |
| `JobQueue.Queue.RequeueScheduledRetries` | internal/jobs/queue.go:399-411 | exactly the due retries are queued, every column given; the count is that of the rows queued |
| `JobQueue.Queue.FailUnknownJobTypes` | internal/jobs/queue.go:494-537 | exactly the queued jobs of unlisted types are dead-lettered, every column given |
| `JobQueue.Queue.Retry` | internal/jobs/queue.go:433-458 | no such row, key taken or retried, each under exactly its condition; the attempt counter is kept and the schedule cleared |
| `JobQueue.Scan` | internal/control/loop.go:115-121 | the three maintenance steps in order, with nobody else at work, leave nothing overdue |
| `JobWorker.Heartbeat` | internal/worker/runner.go:61-116 | renews at each due tick up to the first answer that is not a renewal; cancels the job if and only if that answer is lost ownership |
| `JobWorker.RenewsEveryMinute` | internal/worker/runner.go:61-71 | with every answer a renewal, one renewal for every full minute that passes before the work ends |
| `JobWorker.SteadyHeartbeatKeepsAlive` | internal/worker/runner.go:19-22 | in every run in which workers send a renewal at each 60 s tick, late by no more than fits into the lease, until they send their result, the lease is kept alive: never more than the lease duration between two signs of life |
| `JobWorker.SteadyNeverLosesOwnership` | internal/worker/runner.go:81-107 | in such a run no renewal of a worker that still has the job is answered with lost ownership, and its result takes effect |
| `JobWorker.ReclaimAfterRenewals` | internal/worker/runner.go:65-71 | while nothing has ended a lease, a reclaim takes the job if and only if it comes more than the lease duration after the latest renewal its worker sent, or after the grant if none was, whenever they were sent |
| `JobWorker.ReclaimAfterTicks` | internal/worker/runner.go:65-71 | the same for renewals at exactly the first n ticks: more than the lease duration after the n-th tick |
| `JobWorker.FirstErrorDecides` | internal/worker/runner.go:72-80 | a first transient error at tick e ends the heartbeat after e renewals, whenever they were sent (the failed one may have taken effect as well); from then on a reclaim takes the job if and only if it comes more than the lease duration after the last of them |
| `JobWorker.OneErrorCostsTheLease` | internal/worker/runner.go:72-80 | a run with one transient error, and none at any later tick, in which the job is reclaimed and granted to another worker during the work, and the first worker's completion changes nothing |
| `JsonRecovery.StripReasoningPrefix` | benchmarks/ollama_bench.py:536-546 | the loop cuts everything before the first bracket |
| `JsonRecovery.ScanForClose` | benchmarks/ollama_bench.py:558-584 | the scanner's loop finds where the automaton stops |
| `JsonRecovery.ExtractFirstJsonObject` | benchmarks/ollama_bench.py:549-584 | the code computes the extraction the theorems are about |
| `JsonRecovery.SanitizeJson` | benchmarks/ollama_bench.py:587-607 | the code computes the text and the list of steps the theorems are about |
| `JsonRecovery.SpacesAre` | benchmarks/ollama_bench.py:530-532 | the white space the stripping takes, by code point |
| `JsonTheorems.ScanValue` | benchmarks/ollama_bench.py:564-584 | any JSON value inside the outer bracket leaves depth, string and escape state unchanged |
| `JsonTheorems.ScanStopsAtEnd` | benchmarks/ollama_bench.py:564-584 | the scan of a JSON object or array stops at its last character, whatever follows |
| `JsonTheorems.SanitizeRecoversValue` | benchmarks/ollama_bench.py:536-607 | for every JSON object or array, every prefix without a bracket and every suffix, with no code fence, the result is exactly the value, and the reported steps are exactly those that had something to do |
| `JsonTheorems.SanitizeUnwrapsFence` | benchmarks/ollama_bench.py:528-533 | a JSON object or array in a code fence, tagged or not, is recovered whatever surrounds the fence, short of an earlier fence or one inside the value |
| `Arbitration.SortIsStable` | internal/agent/arbitration/resolver.go:115-124 | the sort orders by type and recommendation, keeps every signal and keeps equal keys in place |
| `Arbitration.ApplyExplorationIsolation` | internal/agent/arbitration/resolver.go:126-159 | all exploration signals and only they are dropped, if and only if a blocker is present |
| `Arbitration.ApplyConfidenceSuppression` | internal/agent/arbitration/resolver.go:161-184 | all learning signals and only they are dropped, if and only if the confidence is low |
| `Arbitration.ApplyHardOverride` | internal/agent/arbitration/resolver.go:186-229 | exactly the directional signals contradicted from above are dropped |
| `Arbitration.ResolveSignals` | internal/agent/arbitration/resolver.go:17-113 | applied plus suppressed signals are the input as a multiset, each suppressed one under its rule; the applied ones and whether they are neutralized follow from the highest-priority directional type among the counted input signals; the adjustment is their sum, or seven tenths of it when that type is divided; the winner is the first applied signal and of the highest priority; the rules that had an effect; the reason |
| `Arbitration.ScoreIsDamped` | internal/agent/arbitration/resolver.go:252-264 | in a conflict the score is seven tenths of the sum: of the same sign and closer to zero unless that is zero; otherwise it is the sum |
| `Arbitration.CountedMeans` | internal/agent/arbitration/priority.go:28-39 | which signals count: none of exploration beside a directional stability or calibration signal, and below a confidence of 0.4 none of the three learning types |
| `Arbitration.PriorityOrder` | internal/agent/arbitration/priority.go:5-26 | the priorities from stability down to exploration |
| `Arbitration.SortedOrder` | internal/agent/arbitration/resolver.go:115-124 | higher priorities first, and within a type avoid before prefer before neutral |
| `Arbitration.DividedTopIsNeutralized` | internal/agent/arbitration/resolver.go:189-264 | if the highest-priority directional type pulls both ways, exactly its signals and the neutral ones remain, in conflict |
| `Arbitration.UnitedTopWins` | internal/agent/arbitration/resolver.go:189-264 | otherwise exactly the neutral signals and those agreeing with it, no lower than the first dissenter, remain; no dissenter survives |
| `Arbitration.NeutralizedIff` | internal/agent/arbitration/resolver.go:237-264 | neutralization happens if and only if the highest-priority directional type contains both directions |
| `Arbitration.InputDecides` | internal/agent/arbitration/resolver.go:39-83 | the signals left standing, and whether they conflict, told from the multiset of counted input signals: all of them when none is directional, the top type and the neutral ones when it is divided, those agreeing with it when it is not |
| `Arbitration.AllNeutral` | internal/agent/arbitration/resolver.go:186-250 | without a directional signal nothing is overridden and nothing conflicts |
| `Arbitration.IsolatedAsDocumentedIff` | internal/agent/arbitration/resolver.go:126-159 | isolation drops just the contradicting exploration signals if and only if there is no directional blocker or every exploration signal contradicts one |
| `Arbitration.DocumentedIsSubsumed` | internal/agent/arbitration/resolver.go:126-229 | dropping only the contradicting exploration signals leaves, after the hard override, what no isolation would leave |
| `Arbitration.StandingAsDocumentedIff` | internal/agent/arbitration/resolver.go:126-229 | the signals left standing are those the documented rule would leave if and only if there is no directional blocker or the hard override suppresses every exploration signal |
| `Arbitration.AgreeingExplorationIsDropped` | internal/agent/arbitration/resolver.go:143-153 | an exploration signal that agrees with a directional stability signal is dropped where the documented rule would apply it, and the score loses its adjustment |
| `Arbitration.ScoreDependsOnCounted` | internal/agent/arbitration/resolver.go:39-66 | the final adjustment depends only on the multiset of signals neither suppression rule drops |
| `Arbitration.OrderIsIrrelevant` | internal/agent/arbitration/resolver.go:16-17 | the final adjustment is the same for every permutation of the input |
| `Arbitration.LearningIsSilenced` | internal/agent/arbitration/priority.go:28-33 | with low confidence, inputs that differ only in learning signals score alike |
| `Arbitration.ExplorationIsSilenced` | internal/agent/arbitration/priority.go:35-39 | with a directional stability or calibration signal, inputs that differ only in exploration signals score alike |
| `ActionMemory.AvoidAndPreferExclusive` | internal/agent/actionmemory/feedback.go:49-58 | on counters that add up, the avoid and the prefer condition never both hold |
| `ActionMemory.RecommendSays` | internal/agent/actionmemory/feedback.go:49-58 | by whole counts: insufficient below 5 runs, else avoid when at least half failed, else prefer when at least seven tenths succeeded, else neutral |
| `ActionMemory.RecencyTable` | internal/agent/actionmemory/weighted.go:35-65 | which weight goes with which age of the evidence |
| `ActionMemory.SampleSteps` | internal/agent/actionmemory/weighted.go:75-90 | the weight of a sample rises in equal steps from 3 runs to 5 and from 5 to 10 |
| `ActionMemory.ConfidenceMonotone` | internal/agent/actionmemory/weighted.go:35-95 | more runs and later evidence never lower the confidence |
| `Hierarchy.RecordAggregator.AddProvider` | internal/agent/actionmemory/hierarchy.go:115-123 | adds the counters and keeps the later time |
| `Hierarchy.RecordAggregator.AddContext` | internal/agent/actionmemory/hierarchy.go:125-133 | adds the counters and keeps the later time |
| `Hierarchy.GatherL0` | internal/agent/actionmemory/hierarchy.go:227-261 | the first exact record, provider records first |
| `Hierarchy.GatherL1` | internal/agent/actionmemory/hierarchy.go:265-289 | the sum of all records of the action, goal and failure bucket |
| `Hierarchy.GatherL2` | internal/agent/actionmemory/hierarchy.go:293-316 | the sum of all records of the action and goal |
| `Hierarchy.GatherHierarchicalCandidates` | internal/agent/actionmemory/hierarchy.go:189-223 | the candidates of the four levels, most specific first |
| `Hierarchy.ResolveHierarchicalFeedback` | internal/agent/actionmemory/hierarchy.go:363-388 | the fold over the actionable candidates, or nothing |
| `Hierarchy.GeneralLevelsAreSurer` | internal/agent/actionmemory/hierarchy.go:115-316 | for non-negative counts, an exact candidate implies a reduced one, a reduced one a generalized one, and confidence grows with generality |
| `Hierarchy.AgreeingGeneralWins` | internal/agent/actionmemory/hierarchy.go:396-415 | among agreeing candidates of growing confidence the fold always ends with the most general |
| `Hierarchy.MostGeneralLocalOrGlobal` | internal/agent/actionmemory/hierarchy.go:363-415 | when the actionable local levels agree, the pick is the most general of them unless the global one is actionable and preferred to it |
| `Hierarchy.PickWithGlobal` | internal/agent/actionmemory/hierarchy.go:363-388 | the pick is the best of the actionable local levels, unless the global feedback is actionable and preferred to it or there is no such level |
| `Hierarchy.LastDissenterOrLast` | internal/agent/actionmemory/hierarchy.go:396-415 | with ascending confidences and two recommendations the fold ends at the last dissenter if that had won its own round and nothing later scores higher, and else at the most general candidate |
| `Hierarchy.ThreeLevels` | internal/agent/actionmemory/hierarchy.go:396-415 | the pick among an exact, a reduced and a generalized candidate, from their recommendations and scores alone |
| `Hierarchy.CircularIff` | internal/agent/actionmemory/hierarchy.go:396-415 | the preference among three levels runs in a circle if and only if the outer two agree against the middle one and the scores fall |
| `Hierarchy.CircularPreference` | internal/agent/actionmemory/hierarchy.go:189-415 | three records that lead to such a circle, so that another order of comparison would pick the opposite recommendation |
| `Hierarchy.PickFromRecords` | internal/agent/actionmemory/hierarchy.go:189-415 | for all records with non-negative counts, whether or not the local levels agree, the pick told from the recommendations and scores of the actionable levels and the global feedback |
| `HierarchyMeaning.PickMeans` | internal/agent/actionmemory/hierarchy.go:189-415 | for all records with non-negative counts there is a pick if and only if the runs of the exact record, of the action, goal and failure bucket, or of the action and goal call for prefer or avoid, or the global feedback says so; the pick says what the runs of its own level call for, with their number and rates, or repeats the global feedback |
| `HierarchyMeaning.ExactLevelTells` | internal/agent/actionmemory/hierarchy.go:227-261 | the exact candidate tells the runs of the first provider record that matches all six dimensions, or else of the first context record that matches four |
| `HierarchyMeaning.PooledLevelsTell` | internal/agent/actionmemory/hierarchy.go:265-316 | the reduced and the generalized candidate tell the runs of all matching records |
| `HierarchyMeaning.GlobalLevelRepeats` | internal/agent/actionmemory/hierarchy.go:319-349 | the global candidate repeats recommendation, sample size and rates of the global feedback, without a bonus |
| `HierarchyMeaning.ConfidenceSquares` | internal/agent/actionmemory/weighted.go:92-95 | the confidence is the geometric mean of the two weights |
| `HierarchyMeaning.PreferenceMeans` | internal/agent/actionmemory/hierarchy.go:396-415 | of two candidates that recommend the same with confidences at most 0.05 apart the more general one is preferred, and else the one with the higher score |
| `ContextMemory.Store.UpdateContext` | internal/agent/actionmemory/context_store.go:13-40 | after every update each row counts the logged outcomes of its key by status, the counts add up to the total and the rates are the quotients |
| `ContextMemory.ResolveContextualFeedback` | internal/agent/actionmemory/context_feedback.go:33-76 | the feedback of the first record that matches all but the job type, else that of the sums over the action and goal, else nothing: rates, sample size, recommendation and update time |
| `ContextMemory.SumsCountTheLog` | internal/agent/actionmemory/context_feedback.go:47-57 | in every reachable store, whatever order the table is listed in, a sum over the matching records is the number of logged outcomes of their keys |
| `ContextMemory.PartialAnswersFromLogIff` | internal/agent/actionmemory/context_feedback.go:47-76 | the partial answer, recommendation included, is the one the logged outcomes of the action and goal call for, if and only if the listing's limit cuts off no record of them |
| `ContextMemory.PartialAnswerTells` | internal/agent/actionmemory/context_feedback.go:47-73 | unless the limit cuts off a record of the action and goal, the partial answer gives the logged runs of them, the rates of their successes and failures, and the recommendation these counts call for; none exactly when nothing was logged |
| `ContextMemory.ExactAnswerTells` | internal/agent/actionmemory/context_feedback.go:34-45 | the same of an exact answer, from the logged outcomes of one key with the action, goal and buckets asked for |
| `ContextListing.CanAnswerIff` | internal/agent/actionmemory/context_store.go:42-69 | some listing makes the exact match answer with a given row if and only if the row has the greatest total among the matching ones and fewer rows than the limit have a greater one |
| `ContextListing.ExactIsDeterminedIff` | internal/agent/actionmemory/context_feedback.go:34-45 | among exact answers the sample size is the same for every listing; the recommendation is too if and only if the matching rows of greatest total that can be listed agree on it |
| `ContextListing.MatchIff` | internal/agent/actionmemory/context_store.go:42-69 | some listing shows a matching row if and only if fewer rows than the limit have a greater total than the foremost; every listing does if and only if fewer non-matching rows than the limit have at least that total |
| `ContextListing.AnswerIsDeterminedIff` | internal/agent/actionmemory/context_feedback.go:33-76 | in every reachable store the whole answer is the same for every listing if and only if, where an exact match is possible, it is certain and the foremost rows agree, and where it is not, the rows tied at the limit add the same to the partial sums |
| `ContextListing.TieAtTheCut` | internal/agent/actionmemory/context_store.go:42-69 | a store with a single matching row, tied with 10000 others, for which one listing gives an exact answer and another none at all |
| `ContextListing.AnyOrderIsDeterminedIff` | internal/agent/actionmemory/context_feedback.go:34-45 | over listings in any order, sample size and recommendation are determined if and only if all matching rows agree on both |
| `ContextMemory.SampleCountsThePointIff` | internal/agent/actionmemory/context_feedback.go:34-45 | the exact sample size is the number of logged outcomes of the four dimensions if and only if they all are of one job type |
| `ContextListing.ListingDecides` | internal/agent/actionmemory/context_feedback.go:34-45 | for any two job types at one point, a log for which one listing answers prefer and another avoid |
| `Guardrails.MapAnswersLikeLog` | internal/agent/actions/guardrails.go:136-153 | a map that has forgotten only idle keys answers as the full log would |
| `Guardrails.SameKeyIff` | internal/agent/actions/guardrails.go:181-192 | actions of the known kinds share a dedupe key if and only if they are of one kind and have the same job_id (retries), the same source_task_id (resyncs) or the same id (recommendations) |
| `Guardrails.Guardrails.RecordExecution` | internal/agent/actions/guardrails.go:126-132 | logs the execution under the action's key and keeps the map in agreement with the log |
| `Guardrails.Guardrails.IsRecentDuplicate` | internal/agent/actions/guardrails.go:134-153 | true if and only if some execution of the key in the whole log lies less than two minutes back, although idle entries are pruned |
| `Guardrails.Prune` | internal/agent/actions/guardrails.go:140-146 | drops exactly the entries older than the window |
| `ChangeDetector.ChangeDetector.Detect` | internal/source/detector.go:34-116 | new, changed or unchanged exactly as the stored hash says, which is that of the first attempt or of the latest that ran to its end; an error exactly when a statement fails on the way; the state is that of the attempts made |
| `ChangeDetector.NextVersion` | internal/source/detector.go:91-97 | one more than the greatest version of the task |
| `ChangeDetector.SnapshotsTellChanges` | internal/source/detector.go:80-115 | in every state reached without failures a task's snapshots are its detected hashes without immediate repetitions, versions are 1 to n, neighbouring hashes differ, and the stored hash is that of the last snapshot and of the last detection |
| `ChangeDetector.RepeatingMakesUpIff` | internal/source/detector.go:67-112 | repeating an interrupted detection leaves the state of an uninterrupted one if and only if it did not stop after the upsert of a new task or after the snapshot of a changed one |
| `Interruptions.SnapshotsAreTaken` | internal/source/detector.go:67-112 | in every run of detections, any of them interrupted, the snapshots of a task are those its own attempts take, versions 1 to n |
| `Interruptions.LostSnapshotIff` | internal/source/detector.go:67-112 | in every such run a stored hash is in no snapshot of its task if and only if the first attempt ended with the upsert and no attempt with another hash has run to its end since |
| `Interruptions.ForgottenIff` | internal/source/detector.go:67-112 | in every such run some hash that was once stored has no snapshot at the end if and only if the first attempt ended with the upsert and none came back to its hash after another was stored |
| `Interruptions.LastSnapshotIff` | internal/source/detector.go:99-112 | in every such run the last snapshot is not of the stored hash if and only if a later attempt took it without storing the hash and nothing since has taken another |
| `Interruptions.RepeatedSnapshotIff` | internal/source/detector.go:91-112 | in every such run two neighbouring snapshots have the same hash if and only if an attempt got beyond its upsert with the hash of a snapshot left so before it |
| `Interruptions.InterruptionsShow` | internal/source/detector.go:67-112 | runs in which a stored hash is forgotten although nothing is lost in the end, a snapshot is left ahead of the stored hash, and one is taken twice |
| `Interruptions.LostStaysUnnoticed` | internal/source/detector.go:84-86 | detecting that hash again changes nothing and the snapshot stays lost |
| `ContentHash.SortedUnique` | internal/source/hasher.go:29-31 | two sorted sequences of strings with the same elements are equal |
| `ContentHash.CanonicalKeeps` | internal/source/hasher.go:21-48 | the hashed record holds the fields of the task, its labels sorted and the whole second of its due date |
| `ContentHash.SameRecordIff` | internal/source/hasher.go:21-48 | two tasks give the same hashed record if and only if they agree on every field, labels as multisets and due dates to the second |
| `Actuation.CollectProposals` | internal/agent/actuation/rules.go:12-116 | a proposal is made if and only if its action type is one that a signal of at least 0.1, or a risk above 0.7, calls for, with the source, confidence and priority of that rule, raised by 0.2 within the unit interval below a net utility of 0.4 |
| `Actuation.DeduplicateProposals` | internal/agent/actuation/rules.go:131-157 | one proposal per proposed type, the first of greatest priority, in type order; the cap drops none |
| `Actuation.EvaluateRules` | internal/agent/actuation/rules.go:9-120 | which of the seven action types are decided, each by its signals and risks; every decision is one the inputs call for and none of its type has a higher priority |
| `Actuation.MergeUnique` | internal/agent/actuation/rules.go:142-150 | the merge is determined by the proposals, so the order of iterating the map cannot show |
| `Actuation.RankIsAlphabetical` | internal/agent/actuation/rules.go:147-150 | the order of the types is that of their names |
| `Actuation.LowUtilityOnlyEscalates` | internal/agent/actuation/rules.go:87-94 | with strengths in [0,1], low net utility changes no decided type and lowers no surviving priority |

## Left out

- HTTP, messaging, database access, metrics, audit records, log texts and command-line entry points.
- Database errors in the queue: a step either happens or does not; a failed statement is one that did not happen.
- Deleting source tasks, which would delete their jobs.
- The clock of a statement is read at the statement itself; in the code it is read just before.
- Running the processors, and the proposals and runs a worker inserts beside the queue
  (internal/worker/runner.go:118-223).
- The heartbeat as a goroutine: `JobWorker` has its loop, and its renewals as steps of the queue's runs.
- QueueStats and GetJob: plain queries.
- SHA-256 and JSON marshalling: the content hash stands for the record it is taken of.
- Rounding of floating-point numbers.
- ChangeDetector.ChangeDetector.Detect: no other detection runs between its statements; the id of the snapshot is not
  returned.
- Guardrails.Guardrails.RecordExecution: action parameters are texts; the printing of other values is left out.
- Arbitration.ResolveSignals: leaves out the path signature, the copy of the raw signals and the texts that explain a
  suppression.
- Actuation.CollectProposals: leaves out the reason texts, which type and source determine; signal types without a
  rule are one type.
- ContentHash.SameRecordIff: formatting a due date as text is taken to be one-to-one on seconds.
- ResolveWeightedFeedback, the blending of contextual and global feedback, vector-adjusted actuation and benchmark
  scoring.
