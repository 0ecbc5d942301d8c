# A verified model of the distributed task scheduler

The system accepts jobs that are DAGs of tasks, stores them in PostgreSQL, publishes them to Redis, lets a
script inside Redis release each task when its last parent succeeds, and pushes released tasks to workers.
This project models its core in Dafny and proves what its parts promise together:

* **Two cycle checkers** (`KahnValidator`, `DagBuilder`): Kahn's algorithm of the command line tool and the
  three-colour search of the C++ client are both proved sound and complete against one definition of a cycle
  (`Graph`), hence against each other.
* **The DAG engine** (`RedisStore`, `DagEngine`, `EngineInvariant`, `MidScript`, `EngineTheorems`): any number of
  jobs whose pipeline commands, script calls, repeated reports and retries interleave. The state is a closed form of the
  past; triggering happens exactly once and in dependency order; unfinished acyclic jobs always have work.
* **Submission** (`PostgresStore`, `CommittedBatches`, `BatchAcceptance`, `JsonText`, `JsonGrammar`, `Submitter`,
  `Flusher`, `FlusherThreads`, `SubmissionTheorems`): queue, batch transaction with the constraints of `init.sql`, and
  pipeline. Which batches commit is an exact condition; the two stores agree; every item of a committed batch is
  published; idempotency keys are used once; an accepted request finishes.
* **Failure handling** (`TaskRepository`, `TaskRetries`, `SchedulerService`): a task gets exactly the retries its limit
  allows, and its work is bounded.
* **Scheduling** (`WorkerManager`, `SchedulerLoop`, `SchedulerDeliveries`, `DbBatcher`, `ThreadPool`): load balance, the
  consumer group, the in-flight counter, the way of every entry from the stream to a thread, the write-behind batcher and
  the pool.
* **The archived lock-free queue** (`MpmcQueue`, `MpmcRefinement`, `MpmcProgress`, `HazardPointers`, `HazardTheorems`,
  `HazardProgress`, `Reclamation`, `HazardScenarios`, `HazardNecessity`): every atomic access, and every store of the
  hazard slots, is a step of one of any number of threads. The queue refines a FIFO sequence and is lock-free. Hazard
  pointers keep dequeuers off freed nodes, no node is lost, and freeing is invisible, each under an exact condition that
  some histories of the code violate.

`dafny verify dfyconfig.toml` checks everything.

## Reading guide

Sequential code that changes state is written as methods and classes (`Validate`, `DagBuilder`, `Redis`,
`TaskSubmitter`, `FlushDBBatch`, `TaskRepository`, `SchedulerService`, `WorkerManager`, `DbBatcher`, `ThreadPool`) proved
against functions of the old state; the theorems are about those functions. Concurrent behaviour is a
transition system: a state value, the possible steps, an invariant, and theorems over all runs.
`HIncrBy`, `SMembers` and the like stand for Redis commands; the script method runs as one step because
Redis executes it atomically, pipeline commands are separate steps because a pipeline is not a transaction.

Findings where the code differs from what one would expect or from its documentation, with the lemma that
exhibits each and, where the code sometimes does meet the expectation, the one that says exactly when:

* A Redis pipeline is not a transaction. A root may be dispatched and completed after its own XADD and before
  the HSET of its child; then the child's counter ends one too high and the job never finishes
  (`OvertakingLosesTheChild`; condition: `QuietJobIsFinishedIff`, `ErrorsIffOvertaken`).
* The validators accept repeated edges and any parameters and numbers; the primary key of `task_edge` and the column
  types do not, and one such request aborts the whole batch with all other jobs in it (`RepeatedEdgeAborts`,
  `EmptyParametersAbort`; condition: `ValidatedRequestCommitsIff`, `BatchCommitsIff`).
* The in-flight counter is exact only without exceptions and early stops; afterwards it stays too high
  (`ExceptionLeaks`; condition: `InflightExact`, `LeaksStay`).
* README.md:232 says that entries are acknowledged after the worker reports SUCCESS or FAILED; the code
  (src/scheduler/src/scheduler_loop.cpp:378-387) acknowledges when the worker has accepted the call
  (`AcknowledgedBeforeReport`; condition: `NoEntryLost`).
* The task named by the builder's cycle error leads to a cycle and need not be on it (`NamedTaskOffCycle`; condition:
  `OnCycleIff`). The builder accepts a task with the empty id, the Kahn validator does not (`BuildProto`).
* Appending a hazard slot is two stores, and walks do not take the mutex: a walk between the two misses all older
  slots (`CutWalkFreesNodeInUse`; condition: `SafeIffHarmless`, and `LockedWalksAreSafe` for walks that keep out of
  appends).
* `enqueue` takes no hazard pointer, so an enqueuer that fell behind the head can touch a freed node
  (`LateEnqueuer`; condition: `EnqueuerFaultsIff`).
* The report handler takes the job id on trust (`ForeignReportStrandsChildren`; condition: `ReportReachesChildrenIff`).
* `UpdateTaskToRunning` can answer true although its commit failed.

## Model

| member | source | states |
|---|---|---|
| Graph.ParentClosedSetHasCycle | src/dts-cli/pkg/dag/validator.go:72-76 | In a finite non-empty set in which every node has a parent inside the set there is a cycle, and it stays inside the set: what a stuck sort means |
| Graph.AcyclicIffSourcesEverywhere | src/dts-cli/pkg/dag/validator.go:72-76 | A graph has no cyclic path if and only if every non-empty set of nodes has a member without a parent in it |
| Graph.OrderedGraphIsAcyclic | src/dts-cli/pkg/dag/validator.go:56-78 | A parents-first order of all children rules out every cycle, of any length |
| Graph.RenamingKeepsAcyclicity | src/api-server/src/task_submitter.cpp:404-408 | Replacing natural ids by distinct UUIDs neither creates nor removes a cycle |
| Graph.OnCycleIff | src/client/src/dag_builder.cpp:125-131 | A task lies on a cycle, wherever the cycle is started, if and only if one of its children leads back to it |
| Requests.InDegreeCountsParents | src/api-server/src/task_submitter.cpp:231-244 | Without repeated edges the dependency count of a task is the number of its different parents |
| Requests.DistinctIdsIffFullCount | src/dts-cli/pkg/dag/validator.go:72-75 | The number of different ids equals the number of tasks exactly if no id repeats, which is why the final count comparison also detects repeated ids |
| KahnValidator.PopKeepsInvariant | src/dts-cli/pkg/dag/validator.go:57-61 | Popping a node keeps the sorting invariant, with the decrements of its neighbours still owed |
| KahnValidator.DecrementKeepsInvariant | src/dts-cli/pkg/dag/validator.go:64-69 | Each single decrement keeps the invariant in the middle of the inner loop, also with repeated edges |
| KahnValidator.FinalStateDecides | src/dts-cli/pkg/dag/validator.go:72-78 | Once the queue is empty, all nodes have been processed if and only if the graph is acyclic; otherwise every node left over waits for another one left over |
| KahnValidator.BuildGraph | src/dts-cli/pkg/dag/validator.go:31-45 | Adjacency lists and indegrees describe exactly the edges; the first edge with an unknown end is reported, parent before child |
| KahnValidator.Sort | src/dts-cli/pkg/dag/validator.go:47-70 | For any map iteration order the queue loop ends, processes no node twice, and its count equals the number of nodes if and only if the graph is acyclic |
| KahnValidator.Validate | src/dts-cli/pkg/dag/validator.go:13-79 | Accepts if and only if all ids are non-empty and distinct, every end of an edge exists and no path is a cycle; each error kind if and only if its check is the first to fail; the processed count in the message is that of a maximal sorted part |
| DagBuilding.DagBuilder.AddTask | src/client/src/dag_builder.cpp:18-43 | A repeated id is refused and changes nothing; otherwise exactly that task is added |
| DagBuilding.DagBuilder.AddDependency | src/client/src/dag_builder.cpp:46-59 | Self-dependencies and unknown ends are refused in this order and change nothing; otherwise exactly that edge is appended |
| DagBuilding.EnterNode | src/client/src/dag_builder.cpp:122-122 | Turning a white node gray keeps the colouring invariant (gray nodes form a path) and uses up a white node |
| DagBuilding.LeaveNode | src/client/src/dag_builder.cpp:141-142 | Turning a node black after all its children keeps the invariant: black nodes are in reverse topological order |
| DagBuilding.DagBuilder.HasCycleDFS | src/client/src/dag_builder.cpp:119-143 | Terminates; true only if the stack reaches a cycle, false only if everything reachable is finished |
| DagBuilding.DagBuilder.ValidateCycle | src/client/src/dag_builder.cpp:89-117 | Throws if and only if the edges contain a cycle, for every builder state; the task named is the first one, in the order of the ids, that leads to a cycle |
| DagBuilding.AtMostIsLexicographic | src/client/src/dag_builder.cpp:107-110 | The order of the ids is lexicographic: a beginning comes first, otherwise the first difference decides |
| DagBuilding.NamedTaskOffCycle | src/client/src/dag_builder.cpp:107-115 | A builder filled by its own methods whose error names a task that is on no cycle |
| DagBuilding.DagBuilder.BuildProto | src/client/src/dag_builder.cpp:62-87 | Succeeds exactly on acyclic graphs; the request holds exactly the added tasks and edges and is accepted by the Kahn validator if and only if no task has the empty id |
| RedisStore.VisitAllEffect | src/common/include/redis/scripts/complete_task.hpp:32-68 | The script loop in any order: each counter of a visited child drops by one and its field disappears when that releases the child, each released child gets one stream entry, and the error stream grows by exactly one entry for each child whose counter was not positive or that lacks metadata, naming it, in the order of the visits |
| RedisStore.Redis.RunCompletionScript | src/common/include/redis/scripts/complete_task.hpp:21-77 | The imperative Lua loop computes that effect on the members of the children set in some order, deletes the set, returns the number of pushed entries, and does nothing on an empty set |
| EngineInvariant.RepeatedSuccessDoesNothing | src/common/include/redis/scripts/complete_task.hpp:21-28 | A repeated success report leaves the whole engine state unchanged |
| EngineInvariant.FirstReportSeesAllChildren | src/common/include/redis/scripts/complete_task.hpp:21-33 | The first report of a task finds exactly its children in the set |
| EngineInvariant.CommandKeepsForm | src/api-server/src/task_submitter.cpp:318-381 | Any single pipeline command, at any point of the pipeline, keeps the closed form of the keys of every task |
| EngineInvariant.CompletionKeepsForm | src/common/include/redis/scripts/complete_task.hpp:32-74 | One script call keeps the closed form, including counters that went negative because HSET had not come yet |
| MidScript.CounterMidScript | src/common/include/redis/scripts/complete_task.hpp:32-71 | In the middle of a script run, after any number of visits: the counter of every initialised task of every job equals the number of parents whose children set still holds it and that have not visited it, plus the completions that came too early |
| EngineInvariant.ErrorsExactlyForOvertaken | src/common/include/redis/scripts/complete_task.hpp:60-67 | A first report writes an error entry exactly if it arrives before the counter of some child was written; missing metadata never happens |
| EngineInvariant.StepKeepsInv | src/common/include/redis/scripts/complete_task.hpp:21-77 | Every submit, pipeline command, success report and retry, of any number of interleaved jobs, keeps the engine invariant |
| EngineTheorems.RunsKeepInv | src/common/include/redis/scripts/complete_task.hpp:21-77 | The invariant holds in every state of every run |
| EngineTheorems.ClosedFormOfSuccesses | src/common/include/redis/scripts/complete_task.hpp:32-74 | In every run, for every task of a published job that missed no completion: its children set is empty iff it succeeded or has none, its counter is its number of unfinished parents and absent at zero, and the script has pushed it exactly once if all of its parents succeeded and otherwise never |
| EngineTheorems.OrderDoesNotMatter | src/common/include/redis/scripts/complete_task.hpp:21-77 | Two runs with the same jobs, pipeline progress, early completions and set of successes have the same children sets, counters and script entries, whatever the order and repetition of the reports |
| EngineTheorems.SuccessesAreTopological | src/common/include/redis/scripts/complete_task.hpp:46-54 | In every run the first success reports arrive in a topological order of every job, also when pipelines are interrupted |
| EngineTheorems.TriggeredByLastParent | src/common/include/redis/scripts/complete_task.hpp:37-54 | A script entry for a task is added by exactly one report: the first one of its last parent, provided its counter exists and no completion came too early |
| EngineTheorems.ErrorsIffOvertaken | src/common/include/redis/scripts/complete_task.hpp:60-67 | A run has an empty error stream if and only if no first report overtook a counter: NEGATIVE_DEPS is unreachable under exactly this condition, MISSING_META always |
| EngineTheorems.DrainedJobsAreNotOvertaken | src/api-server/src/task_submitter.cpp:153-158 | Reports for jobs whose pipeline has been executed completely never overtake anything |
| EngineTheorems.LostForever | src/common/include/redis/scripts/complete_task.hpp:36-67 | A task that missed a completion is never pushed and never succeeds, in any continuation |
| EngineTheorems.OvertakingLosesTheChild | src/api-server/src/task_submitter.cpp:366-380 | A concrete run of two tasks and one edge in which the root completes between its own XADD and the HSET of its child: the job goes quiet unfinished |
| EngineTheorems.DeadlockFree | src/common/include/redis/scripts/complete_task.hpp:21-77 | Every reachable state of a published acyclic job that is unfinished and lost no completion has a task that is pushed and not yet reported |
| EngineTheorems.QuietJobIsFinishedIff | src/common/include/redis/scripts/complete_task.hpp:21-77 | Once all pushed tasks of a published job have been reported, it is finished if and only if its graph is acyclic and no completion overtook its pipeline |
| EngineTheorems.EveryReportIsProgress | src/common/include/redis/scripts/complete_task.hpp:21-77 | Whichever ready task of a healthy job reports next, with its children listed in any order, the job stays healthy with one unfinished task less |
| EngineTheorems.RunsToCompletion | src/common/include/redis/scripts/complete_task.hpp:21-77 | From every such state a run of success reports, one for each unfinished task, finishes the job |
| PostgresStore.FlushDBBatch | src/api-server/src/task_submitter.cpp:183-296 | The three-phase loop computes the transaction: all job rows with conflicts dropped, all task rows, all edge rows, aborting on the first violated constraint or column type; on success each item has its roots appended as entry tasks |
| CommittedBatches.CommittedMeans | src/api-server/src/task_submitter.cpp:141-142 | If a batch commits, every item is stored completely, all its tasks under new UUIDs and all its edges, and no older task changed |
| CommittedBatches.CommittedJobs | src/api-server/src/task_submitter.cpp:213-218 | If a batch commits, every item with tasks owns the row of its idempotency key |
| JsonGrammar.IsJsonIffPrinted | init.sql:58-58 | The texts taken as jsonb are exactly the printed forms of the trees of the JSON grammar, with any white space, spelling of numbers and escapes, except escapes for NUL and for half of a surrogate pair |
| BatchAcceptance.JobsCommitIff | src/api-server/src/task_submitter.cpp:202-218 | With fresh ids the job rows go in if and only if every key is a text PostgreSQL stores; an item has its own row exactly if its key was new |
| BatchAcceptance.ItemTasksCommitIff | src/api-server/src/task_submitter.cpp:239-264 | The task rows of an item go in if and only if its job row exists, its natural ids are distinct and every text, parameter and number fits its column |
| BatchAcceptance.ItemEdgesCommitIff | src/api-server/src/task_submitter.cpp:285-290 | The edge rows of an item go in if and only if all ends are known and no edge repeats |
| BatchAcceptance.BatchCommitsIff | src/api-server/src/task_submitter.cpp:183-296 | A batch commits if and only if every request in it has values that fit their columns, distinct task ids, no repeated edge, no unknown end and, unless it is empty, an idempotency key used neither before nor earlier in the batch; one bad request aborts all |
| BatchAcceptance.ValidatedRequestCommitsIff | src/api-server/src/task_submitter.cpp:141-142 | A request the validator accepts commits on its own exactly if its key is new, its values fit their columns and it repeats no edge |
| BatchAcceptance.RepeatedEdgeAborts | init.sql:115-115 | An accepted request with a repeated edge aborts, and commits without the repetition |
| BatchAcceptance.EmptyParametersAbort | init.sql:58-58 | An accepted request with empty parameters aborts |
| BatchAcceptance.FlushKeepsIntegrity | init.sql:76-79 | The foreign keys assumed of the tables hold again after every commit |
| Submitter.AppendDagToPipeline | src/api-server/src/task_submitter.cpp:302-387 | Appends exactly what is sent for a job: an SADD for each edge and one lifetime for each children set, then for each task its metadata and its counter or stream entry, then the lifetime of the counters; fails exactly on an edge with an unknown end |
| Submitter.WireMeansPipeline | src/api-server/src/task_submitter.cpp:329-381 | What is sent for a job means exactly the pipeline the engine theorems are about |
| Submitter.TaskSubmitter.SubmitDagAsync | src/api-server/src/task_submitter.cpp:393-438 | A full queue refuses and changes nothing; otherwise the request is queued last, its tasks mapped one-to-one to the generated UUIDs |
| Submitter.TaskSubmitter.ProcessBatch | src/api-server/src/task_submitter.cpp:133-177 | After a commit the commands sent are cut into one part for each item, in the order of the batch, and each part is what its job needs and means exactly its pipeline; a pipeline that breaks off has sent the first commands of that; a failing transaction publishes nothing, and changes nothing unless only the answer to its commit was lost |
| Submitter.WireHasLifetimes | src/api-server/src/task_submitter.cpp:329-385 | Every children set gets exactly one lifetime, right behind a command that adds to it, the counters get one at the very end if there are edges, and the metadata of every task is sent |
| Flusher.FlusherLoop | src/api-server/src/task_submitter.cpp:93-127 | Each turn that finds something makes one batch of exactly what arrived in it, with its answers of the services, and what was sent is one part for each such turn, complete if it committed and Redis did not fail; every received item is in one batch, in order, or still waits; the loop ends exactly when it finds the flag down, at its test or with nothing to do |
| FlusherThreads.ThreadsConserveItems | src/api-server/include/task_submitter.hpp:58-65 | For any number of flusher threads: what was received is the batches taken, in order, and the queue; each batch taken is in the hand of one thread or was processed exactly once; the database is what the processed batches make it |
| FlusherThreads.ReceivedIsArrived | src/api-server/include/task_submitter.hpp:58-65 | In every run, what was received is what the arrivals brought, in their order |
| FlusherThreads.IdempotencyOfThreads | src/api-server/include/task_submitter.hpp:58-65 | At most one non-empty job per idempotency key commits, whatever the threads do |
| SubmissionTheorems.CommittedJobIsWellFormed | init.sql:75-79 | What PostgreSQL lets through meets the assumptions of the engine: distinct new tasks, distinct edges within the job |
| SubmissionTheorems.PostgresAgreesWithRedis | src/api-server/src/task_submitter.cpp:231-266 | For every task of every committed item: the row is PENDING iff the pipeline pushes the task, WAITING_DEPS iff it writes a counter, and pending_dependencies, the counter and the number of parents are the same number |
| SubmissionTheorems.EntryTasksAreRoots | src/api-server/src/task_submitter.cpp:246-249 | What is recorded in an item: behind the entry tasks it had, the UUIDs of the tasks without parents, each once and in the order of the request; nothing else changes |
| SubmissionTheorems.IdempotencyOverAllBatches | src/api-server/src/task_submitter.cpp:213-266 | Over any sequence of batches at most one non-empty job per idempotency key ever commits |
| SubmissionTheorems.AcceptedRequestFinishes | src/api-server/src/task_submitter.cpp:141-158 | End to end: an accepted request that committed and was published, with all pushed tasks reported and no error entry, is finished |
| TaskRepositories.TaskRepository.HandleTaskFailure | src/scheduler/src/task_repository.cpp:27-81 | Says retry, counts it and resets the row exactly if the count is below the limit; otherwise marks the task FAILED; an exception changes nothing unless only the answer to the commit was lost |
| TaskRepositories.TaskRepository.ReportFailures | src/scheduler/src/task_repository.cpp:27-81 | Of any sequence of failure reports exactly the first effective ones, as many as the limit leaves, are answered with retry (if the answer arrives) and leave the row PENDING without worker and counted; each later one leaves it FAILED with the count at the limit |
| TaskRepositories.ClaimedOnce | src/scheduler/src/task_repository.cpp:168-187 | Of two claims of a waiting task only the first changes the row |
| TaskRepositories.ClaimIsUndone | src/scheduler/src/task_repository.cpp:209-222 | The death of the worker, and a revert, put the table back to what it was before the claim; the death of another worker leaves the claim alone (workers without other running tasks) |
| TaskRepositories.TaskRepository.UpdateTaskToRunning | src/scheduler/src/task_repository.cpp:168-187 | Only a PENDING row becomes RUNNING; a failing commit can answer true without effect |
| TaskRepositories.TaskRepository.RequeueOrphanedTasks | src/scheduler/src/task_repository.cpp:209-222 | Exactly the RUNNING rows of the dead worker go back to PENDING, and their number is returned |
| TaskRetries.RetriesAreExact | src/scheduler/src/task_repository.cpp:27-81 | In every history, whatever else happens to the rows, the retry count of a task is the number of its failure reports up to its limit |
| TaskRetries.FailureDecides | src/scheduler/src/task_repository.cpp:45-66 | With m earlier reports of the task: below the limit a report leaves the row PENDING without worker with count m + 1 and grants one retry, at the limit it leaves it FAILED and grants none |
| TaskRetries.LimitsAreSubmitted | src/api-server/src/task_submitter.cpp:239-264 | The limit of a task is in every later state the one it was submitted with |
| SchedulerServices.SchedulerService.UpdateTaskStatus | src/scheduler/src/scheduler_service_impl.cpp:144-242 | What a report changes in Redis, in the batcher and in the rows, in each branch and for each failure of the services; a failure report pushes exactly one entry if the count is below the limit and no service fails, and otherwise none |
| SchedulerServices.HandlerIsEvents | src/scheduler/src/scheduler_service_impl.cpp:144-242 | Every call about a pushed task that carries the job id of the task is a run of at most two events of the bounded system, and leaves no granted retry owed |
| SchedulerServices.ForeignReportStrandsChildren | src/scheduler/src/scheduler_service_impl.cpp:164-181 | A success report with a foreign job id uses up the children set of the task and touches no counter of its own job |
| SchedulerServices.ReportReachesChildrenIff | src/scheduler/src/scheduler_service_impl.cpp:164-181 | For a task that still has children, each of their counters in its own job drops by one if and only if the report carries the id of that job |
| TaskRetries.EventKeepsInv | src/scheduler/src/scheduler_service_impl.cpp:209-236 | Granted retries are conserved by every event: pushed, owed or dropped |
| TaskRetries.BoundedWork | src/scheduler/src/task_repository.cpp:27-81 | In every history retry_count is at most max_retry, and the stream entries of a task are one for its release plus one for each granted retry not dropped, at most 1 + max_retry |
| WorkerManagement.SortByLoad | src/scheduler/src/worker_manager.cpp:92-96 | A permutation in ascending order of load |
| WorkerManagement.WorkerManager.GetAvailableWorkersSorted | src/scheduler/src/worker_manager.cpp:67-99 | Exactly the workers whose heartbeat is recent enough, each once, least loaded first, as they are in the table |
| WorkerManagement.WorkerManager.PruneDeadWorkers | src/scheduler/src/worker_manager.cpp:101-127 | Removes exactly the timed-out workers and returns each of them once |
| WorkerManagement.DispatchBatch | src/scheduler/src/scheduler_loop.cpp:157-208 | Every valid entry goes to the next worker in turn, starting with the least loaded; invalid ones do not use up a turn; booked loads grow by each share |
| WorkerManagement.RescueOne | src/scheduler/src/scheduler_loop.cpp:299-317 | A rescued entry is booked on a least loaded worker |
| WorkerManagement.BookOne | src/scheduler/src/scheduler_loop.cpp:196-200 | One more task in the round is one more booked on the worker whose turn it is, and on no other |
| WorkerManagement.RoundKeepsSpread | src/scheduler/src/scheduler_loop.cpp:193-200 | One batch of any size never widens the load spread beyond max(1, spread), for any order among ties |
| WorkerManagement.LoadStaysBalanced | README.md:226-226 | Over any run of batches and rescues on a fixed set of live workers without heartbeats the spread stays within max(initial spread, 1) |
| WorkerManagement.RunRounds | src/scheduler/src/scheduler_loop.cpp:157-208 | The manager itself, driven through any sequence of batches and rescues while all workers are live: the booked loads of any two workers differ by at most max(initial spread, 1) |
| SchedulerLoops.StepKeepsGroup | src/scheduler/src/scheduler_loop.cpp:112-388 | Each step of the loop, the pool threads or another scheduler keeps entries unread, pending or acknowledged, and acknowledges a well-formed one only once accepted |
| SchedulerLoops.StepKeepsCounter | src/scheduler/src/scheduler_loop.cpp:121-154 | Each step keeps the counter equal to the deliveries in the batch, in the pool queue and on pool threads, plus those leaked |
| SchedulerLoops.InflightBounded | src/scheduler/src/scheduler_loop.cpp:121-154 | The in-flight counter stays within 0 and 2000 + 50 + 20 in every interleaving |
| SchedulerLoops.InflightExact | src/scheduler/src/scheduler_loop.cpp:153-208 | In runs without exceptions and early stops the counter is exactly the number of deliveries not settled |
| SchedulerLoops.LeaksStay | src/scheduler/src/scheduler_loop.cpp:160-213 | After an exception or early stop inside a batch the counter is too high in every later state |
| SchedulerLoops.ExceptionLeaks | src/scheduler/src/scheduler_loop.cpp:210-213 | A run in which an exception leaves the counter at one with nothing in flight |
| SchedulerLoops.NoEntryLost | src/scheduler/src/scheduler_loop.cpp:159-208 | An entry once delivered is pending or acknowledged for ever, acknowledged only after an accepted RunTask call unless malformed, never un-acknowledged, and claimable while pending |
| SchedulerLoops.AcknowledgedBeforeReport | src/scheduler/src/scheduler_loop.cpp:378-387 | A run in which an entry is acknowledged although no worker has reported on it |
| SchedulerDeliveries.DeliveriesConserved | src/scheduler/src/scheduler_loop.cpp:145-208 | At every moment of every run and for each entry: the deliveries to this loop by reads and claims are as many as there are in the batch, in the queue and on threads plus those skipped, without worker, settled and leaked |
| SchedulerDeliveries.DispatchedInOrder | src/scheduler/src/scheduler_loop.cpp:159-208 | Without interrupted batches, the well-formed entries delivered are, in the order of delivery, those put on the queue, or in a rescue without worker left for the next one, and those still in the batch |
| SchedulerDeliveries.StartedInOrder | src/scheduler/src/scheduler_loop.cpp:203-207 | The threads start exactly the entries put on the queue, in this order |
| SchedulerDeliveries.StreamIsReadInOrder | src/scheduler/src/scheduler_loop.cpp:145-148 | The stream is read in the order of arrival and nothing in it is skipped |
| SchedulerDeliveries.EverythingCanSettle | src/scheduler/src/scheduler_loop.cpp:159-388 | From every reachable state a run empties batch, queue and threads, acknowledges every entry whose call was still to come or to be acknowledged, and takes the counter down to what had leaked |
| DbBatching.DbBatcher.FillBatch | src/scheduler/src/db_batcher.cpp:67-70 | Takes the longest prefix of the queue up to 1000 items, in order |
| DbBatching.DbBatcher.RunLoop | src/scheduler/src/db_batcher.cpp:48-80 | For every schedule of producers and stop, before each loop test and before each lock: terminates after the stop, leaves the queue empty, and has handed over exactly the added updates in order in batches of 1 to 1000 |
| DbBatching.DrainedAfterStop | src/scheduler/src/db_batcher.cpp:52-63 | If nothing is added after the stop, every update ever added was handed to exactly one flush |
| ThreadPools.ThreadPool.Fetch | src/common/include/thread_pool.h:70-81 | Takes the oldest task; tells the thread to exit only on a stopped, empty pool |
| ThreadPools.StepKeepsInv | src/common/include/thread_pool.h:65-103 | Every enqueue, fetch, finish and stop, of any number of threads, keeps accepted = started + queued with each started task on one thread or finished |
| ThreadPools.JoinedPoolIsDrained | src/common/include/thread_pool.h:111-124 | When all n >= 1 threads have exited, exactly the accepted tasks have been executed |
| ThreadPools.FinishedOnce | src/common/include/thread_pool.h:94-94 | No task is finished twice |
| ThreadPools.StartsInOrder | src/common/include/thread_pool.h:79-81 | Tasks start in the order they were accepted, at every moment of every run |
| ThreadPools.AcceptedUntilStop | src/common/include/thread_pool.h:152-171 | Exactly the tasks handed in before the first stop request are accepted, in this order |
| ThreadPools.EverythingCanFinish | src/common/include/thread_pool.h:65-103 | As long as one thread is left, everything accepted can be finished, and the thread can then leave a stopped pool |
| ThreadPools.EmptyForGood | src/common/include/thread_pool.h:76-77 | Once a thread has exited nothing is ever queued or accepted again |
| MpmcQueue.LinkKeepsInv | drop/mpmc_queue.hpp:57-61 | A successful link happens at the last node, which is the tail, and keeps the chain intact for all threads |
| MpmcQueue.SwingKeepsInv | drop/mpmc_queue.hpp:62-73 | Swinging the tail, also on behalf of another thread, keeps it within one of the last node |
| MpmcQueue.PopKeepsInv | drop/mpmc_queue.hpp:113-118 | Moving the head on keeps it behind the tail |
| MpmcQueue.StepKeepsInv | drop/mpmc_queue.hpp:48-132 | Every atomic step of every thread keeps the queue invariant, local variables of all threads included |
| MpmcRefinement.StepRefines | drop/mpmc_queue.hpp:48-132 | Each step is an abstract enqueue, a dequeue of the oldest element, the observation of an empty queue while it is empty, or nothing |
| MpmcRefinement.FifoOrder | drop/mpmc_queue.hpp:48-132 | At every moment of every run the values enqueued so far are those dequeued so far, in the same order, followed by the contents |
| MpmcRefinement.FalseMeansEmpty | drop/mpmc_queue.hpp:92-106 | A dequeue returning false saw the queue empty at a moment inside its own call |
| MpmcRefinement.TrueReturnsOldest | drop/mpmc_queue.hpp:80-128 | A dequeue returning true was started once, one step of its own took exactly the returned value from the front, and none of its other steps changed the queue |
| MpmcRefinement.EnqueueTookEffect | drop/mpmc_queue.hpp:48-66 | An enqueue about to return was started with some value, one step of its own appended exactly this value, and none of its other steps changed the queue |
| MpmcRefinement.EndsStayClose | drop/mpmc_queue.hpp:48-132 | In every state the head is not beyond the tail and the tail lags the last node by at most one |
| MpmcProgress.OperationsEnd | drop/mpmc_queue.hpp:48-132 | From every state of the queue an operation, wherever it stands, ends after at most 32 steps of its own in which the other threads link, unlink and swing nothing, and can always take its next step until then |
| MpmcProgress.RetriesMeanProgress | drop/mpmc_queue.hpp:48-132 | Lock freedom: whoever takes more than 32 steps of one operation without a spurious failure has seen another thread link, unlink or swing |
| MpmcProgress.DequeueAnswers | drop/mpmc_queue.hpp:80-128 | A dequeue the others let do so, from wherever it has not yet seen an empty queue, takes and returns the oldest value, and says empty exactly if there is none |
| MpmcProgress.EnqueueAppends | drop/mpmc_queue.hpp:45-75 | An enqueue the others let do so puts its value behind everything it found, also from a lagging tail, and leaves the tail at the last node |
| MpmcProgress.FinishAlone | drop/mpmc_queue.hpp:48-132 | Every operation can be run to its end by its own thread alone |
| HazardPointers.SlotEventKeepsInv | drop/hazard_pointer.hpp:115-145 | Every single store of acquiring, appending and releasing a slot keeps the invariant: each thread owns its slots, and only the newest slot, while its publisher holds the mutex, can miss its next_ |
| HazardPointers.MoverKeepsGuard | drop/mpmc_queue.hpp:85-99 | Checking the head again after storing the hazard turns the stored pointer into a guard that no walk has passed |
| HazardPointers.ReclaimerKeepsInv | drop/hazard_pointer.hpp:147-190 | Each comparison, each step along next_, each decision and each deletion of the reclaimer keeps the invariant, unless it cuts a walk short that looks for a node in use |
| HazardPointers.EventKeepsInv | drop/hazard_pointer.hpp:115-190 | Every event, of queue threads or reclaimer, keeps the invariant unless it is such a harmful cut |
| HazardTheorems.NoDequeuerReadsFreedNode | drop/mpmc_queue.hpp:93-118 | In no history without a harmful cut is a dequeue about to read next of the head or data of the first node from a freed node |
| HazardTheorems.HarmfulCutIsFatal | drop/hazard_pointer.hpp:132-133 | After every harmful cut a continuation without further ones lets a dequeue read a freed node |
| HazardTheorems.SafeIffHarmless | drop/hazard_pointer.hpp:132-157 | An event is safe in every continuation without harmful cuts if and only if it is not itself a harmful cut: a walk reaching a slot whose next_ is not stored yet while a dequeue relies on the node it looks for |
| HazardTheorems.OnlyAppendsCutWalks | drop/hazard_pointer.hpp:131-133 | Only between the two stores that append a slot, at the newest slot, can a walk be cut |
| HazardTheorems.LockedWalksAreSafe | drop/hazard_pointer.hpp:115-157 | A history in which no walk follows next_ while the list mutex is held has no harmful cut, and in it no dequeue reads a freed node |
| HazardTheorems.FreedOnceAndUnreachable | drop/hazard_pointer.hpp:189-189 | A node is freed at most once, and only after the head has passed it |
| HazardTheorems.NoNodeLeaks | drop/mpmc_queue.hpp:120-125 | In every such history each node the head has passed is held by the one dequeue that unlinked it, retired, about to be freed, or freed |
| HazardProgress.ReclaimerDecides | drop/hazard_pointer.hpp:147-190 | When every slot is linked, a complete walk for a retired node leads to its deletion if and only if no slot holds the node |
| HazardProgress.EverythingCanBeReclaimed | drop/hazard_pointer.hpp:174-190 | Once no dequeue is running, every node the head has ever passed can be freed: slots that were given back protect nothing |
| HazardProgress.DequeueCanEnd | drop/hazard_pointer.hpp:115-145 | A thread inside a dequeue, wherever it stands in acquiring, running or releasing, can end it by itself within 42 events if no other thread holds the list mutex |
| HazardProgress.MutexIsGivenBack | drop/hazard_pointer.hpp:126-135 | The owner of the list mutex can always give it back with its next store |
| HazardNecessity.CutWalkFreesNodeInUse | drop/hazard_pointer.hpp:128-157 | A complete history from the start, in which freed nodes are gone and acquire behaves as if alone: one harmful cut frees the node a dequeue protects, and its next step touches it |
| Reclamation.OnlyLateEnqueuersFault | drop/mpmc_queue.hpp:52-61 | The only threads that can touch a freed node are enqueuers whose node the head has passed |
| Reclamation.ErasedIsReal | drop/hazard_pointer.hpp:189-189 | Conversely, erasing the freed nodes from a history in which nobody touches one gives a history that really happens, with the same harmful cuts |
| Reclamation.FreedIsGone | drop/hazard_pointer.hpp:189-189 | As long as nobody touches a freed node, every freed node has lost its fields |
| Reclamation.RealHistoryLifts | drop/hazard_pointer.hpp:189-189 | A history in which freed nodes are gone and nobody touches one is the erasure of one in which freeing changes nothing |
| Reclamation.ReclaimerIsInvisible | drop/hazard_pointer.hpp:174-190 | Histories in which freed nodes are gone, no cut is harmful and enqueuers only access nodes the head has not passed touch no freed node and end in the queue of a run of the queue alone, so the queue theorems hold for them |
| HazardNecessity.LateEnqueuer | drop/mpmc_queue.hpp:52-61 | For every position behind the head there is a history in which freed nodes are gone, nobody has touched one, no cut is harmful, and an enqueuer holding the node there touches it, freed, in its next step |
| HazardNecessity.EnqueuerFaultsIff | drop/mpmc_queue.hpp:52-61 | With its node at position p and the head at h, some history without harmful cuts makes an enqueuer touch a freed node if and only if p < h |

## Left out

Assumptions of the model:

- Keys in Redis do not expire (the source sets 24 hours), so metadata once written stays; the commands that set the lifetimes are sent and have no meaning for the engine.
- Transactions of PostgreSQL are serialisable, and each takes effect at one moment between its begin and its commit.
- The UUID generator never repeats a value; node addresses of the lock-free queue are not reused.
- SUCCESS and failure reports concern tasks that were pushed to the stream and carry the job id of the task; a report with a foreign job id is outside the engine's run.
- SMEMBERS and map iteration return any order; std::sort is some sorted permutation, given by insertion.
- Rows of one COPY or INSERT .. SELECT go in one after the other in batch order; limits of the server itself (size of an index entry, depth of a JSON value and size of its numbers) and connection loss, with the answer to a commit lost or not, are the parameters `dbUp`, `redis` (of the submitter) and `db`; failures of Redis are `redis`, `scriptRuns`, `pushWorks`.
- Clock readings, heartbeat age, the idle time of pending entries and the rescue interval are parameters or free choices of the step.

Parts and aspects not modelled:

- gRPC, HTTP, coroutines, metrics, logging, signals, configuration, YAML, protobuf conversion and the main functions.
- Aggregation of job status and the V2 design, which has no code.
- Terminal states of a task row: RevertTaskToPending and HandleTaskFailure have no guard on the state, so nothing is claimed about leaving SUCCESS or FAILED.
- The submitter's queue at shutdown: `FlusherLoop` states what may remain, it does not claim a drain.
- What FlushBatch of the batcher does with a batch whose transaction fails: the batch is lost there, the theorems end with handing it over.
- Waking up: notify and wait are free scheduling choices, so no liveness of waiting threads is claimed.
- Mutation of a task through the reference that AddTask returns.
- The scheduler loop, the pool's threads, the lock-free queue and the hazard pointer domain are transition systems on values instead of objects updated in place: their steps interleave inside one operation, which a method body cannot express; aliasing between the objects is therefore not captured.
- In `SchedulerLoops` XREADGROUP, XCLAIM and XACK of a malformed entry are merged with the counter update that follows on the same thread; XAUTOCLAIM-like races between schedulers appear as free claims of pending entries.
- SchedulerServices.HandlerIsEvents: assumes that a success report carries the job id of its task, because the handler does not check it; `ForeignReportStrandsChildren` says what happens otherwise.
- HazardTheorems.NoDequeuerReadsFreedNode: covers histories without a harmful cut, because the code breaks it after one; it covers the two dereferences of dequeue, those of enqueue are the subject of `Reclamation` and `HazardNecessity`.
- Weak memory orders (every access is one sequentially consistent step), RegisterThread, UnregisterThread, the thread-local and global retired lists and their thresholds (one set of retired nodes), and the path in which RetirePointer calls Scan while it holds the lock Scan takes.
- The loop of acquire that looks for a free slot is one step that may take any slot free at that moment or append one; `release_hazard_pointer(h)` is read as `h.release()` and `TestObject` as the node type.
