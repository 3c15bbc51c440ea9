# A verified model of the operations backend

Dafny modules for the parts of the backend that are algorithms or protocols, and proofs about them.
Tables are maps or sequences, clocks and generated identifiers are parameters. A transaction that locks
what it reads is one step. Where the program checks without a lock and writes later, the two are separate
steps of interleaved transactions (`EventWriters`, `FreezeRaces`, `OverrideRaces`, `ContextAssembly`), or
the write acts on whatever status was read before (rollback and recovery in `Approvals`, cancellation in
`SophiaTurns`). Where the program loops over or
updates state, the model does so too, in methods proved against specification functions; the theorems are
about those functions and about whole runs.

`dafny verify dfyconfig.toml` checks everything.

| file | part of the backend |
|---|---|
| `TaskDag.dfy`, `Sorting.dfy`, `ResearchGraph.dfy` | research task graph: level-batched topological sort, cycle check, unblocking |
| `RollUp.dfy`, `ResearchTasks.dfy` | task state machine, token roll-up, event log, finishing a job |
| `SophiaTurns.dfy` | conversation turns and the counters of their sessions |
| `EventWriters.dfy`, `EventPaging.dfy`, `EventStore.dfy` | event store: interleaved writers under advisory locks, a reader paging by cursor |
| `ContextWindow.dfy` | bounded context window and its truncation strategies |
| `ContextCache.dfy`, `ContextAssembly.dfy` | bounded cache in front of idempotent snapshots, with sessions that commit or roll back |
| `IsoTime.dfy`, `BusinessEvidence.dfy` | order-insensitive receiver of business snapshots |
| `SourceCommands.dfy` | outbox of source commands, with passes that are lost before their commit and writers between them |
| `RateLimits.dfy` | fixed-window request budgets |
| `FreezeLog.dfy`, `FreezeRaces.dfy` | freezes and kill switches as an event log, the freeze gate; the same with overlapping transactions |
| `Approvals.dfy`, `OverrideRaces.dfy` | approvals, paused workflows and all their writers; overrides in overlapping transactions |
| `Policies.dfy` | policy versions and evaluation |
| `Retries.dfy` | capped exponential backoff |

Where the code and its documentation disagree the model follows the code. The places, each with its
exact condition proved below:

- `_validate_spec` and `topological_order` count an edge listed twice as a cycle (`ResearchGraph.SortSucceedsIffAcyclic`).
- `start` also takes failed tasks and is not counted as a retry (`ResearchTasks.RerunsAgainstRetryCount`).
- `retry` also takes pending tasks, because their transition table allows it (`ResearchTasks.RetryCountIffNeverPending`).
- A turn that is completed while a session is being cancelled ends cancelled, and stays on the counters (`SophiaTurns.SessionAccounting`, `SophiaTurns.FinalUnlessOldCopy`).
- `complete` also takes a conversation turn that still awaits its approval (`SophiaTurns.ApprovalSkippedIffCompletedAwaiting`).
- `truncate_oldest` drops by priority first (`ContextWindow.OldestIffPriorityFollowsAge`).
- `assemble` reads the cache before anything else and fills it before its session commits (`ContextAssembly.CallerBudgetIff`, `ContextAssembly.RollbackAgreesIffSafe`).
- A snapshot does not keep the creation times of its items (`ContextAssembly.RestoreIsStrip`).
- A delivery of a known partition and revision with a later observation time is a duplicate (`BusinessEvidence.ConfluentIffOrderFree`).
- The thirty attempts of a source command bound the posts of committed passes only (`SourceCommands.PostsAreBounded`).
- `is_frozen` ignores the order of activation and deactivation, and `deactivate` never raises (`FreezeLog.AgreesIffNoReuse`, `FreezeLog.DeactivateNeverRaises`); its three SELECTs need not agree with any one log (`FreezeRaces.AnswerIsOfAMomentIff`).
- `activate` is a no-op on a frozen scope, and an override idempotent on its key, only while calls do not overlap (`FreezeRaces.OneLiveThroughoutIffRaceFree`, `OverrideRaces.KeyIsUsedOnceIffRaceFree`).
- An override or an expiry leaves the workflow paused, for good unless an AI tool asks for another approval or the workflow is moved around the gate (`Approvals.CanResumeIffResolvable`, `Approvals.AiGateCanResumeIffInTime`).
- `resume`, checkpoint recovery, rollback and snapshots ignore open approvals, and the AI gate opens one without pausing the workflow (`Approvals.RunIsCoupledIffSafe`).
- A rejecting rollback rejects settled approvals too (`Approvals.FinalUnlessRolledBack`).
- The evaluator is written for snapshots and given rows: a policy that inherits from an active one makes every evaluation raise TypeError, before any audit record; and on snapshots a winner with an escalation chain does (`Policies.RowsCrashIffSomeHeir`, `Policies.SnapshotsCrashIffChain`, `FreezeLog.EnforcedIff`).
- The list of active policies is read without an order, which decides ties (`Policies.WinnerIsOrderFreeIffNoTie`).
- An event with an empty id cannot serve as a cursor (`EventPaging.CursorIsPosition`).

## Model

| member | source | states |
|---|---|---|
| ResearchGraph.TopologicalOrder | backend/research/graph.py:99-160 | the outcome of the level-batched sort: it succeeds exactly when every visited task's dependents are in the job and Kahn's fixpoint is the whole job; then the flat order, the levels and the tie-breaking by index are pinned down |
| ResearchGraph.CountEdges | backend/research/graph.py:111-117 | adjacency holds each dependent once while the in-degree counts every listed edge |
| ResearchGraph.Visit | backend/research/graph.py:136-147 | popping one task releases exactly the dependents whose last upstream it was, in index order; a dependent outside the job is the KeyError |
| ResearchGraph.RunLevel | backend/research/graph.py:130-149 | one pass of the outer loop visits exactly the tasks queued when it began |
| ResearchGraph.RunLevels | backend/research/graph.py:126-149 | the whole loop, level after level: the levels are Kahn's stages and the flat order is their concatenation |
| ResearchGraph.SortSucceedsIffAcyclic | backend/research/graph.py:99-160 | for any edge list at all: the sort succeeds if and only if the edges stay inside the job, are listed once and form no cycle |
| ResearchGraph.SortFailsIffCyclic | backend/research/graph.py:151-154 | on the tables the constraints allow, the sort raises if and only if there is a cycle |
| TaskDag.CycleNeverReady | backend/research/graph.py:119-147 | a task on a cycle never reaches in-degree 0, however many levels are run |
| TaskDag.LongPathHasCycle | backend/research/graph.py:151-154 | pigeonhole: a backward walk longer than the job contains a cycle |
| TaskDag.VisitsAllIffAcyclic | backend/research/graph.py:119-154 | both directions of cycle detection for the set of tasks Kahn's algorithm visits |
| TaskDag.LevelIsLongestPath | backend/research/graph.py:130-149 | a task is released by level k exactly when the longest dependency path ending at it has length k |
| TaskDag.LevelIsIndependent | backend/research/graph.py:130-149 | no dependency path joins two tasks of one level |
| ResearchGraph.LevelsAreDepths | backend/research/graph.py:130-149 | in a successful result every task is in exactly the level that is its depth |
| ResearchGraph.OrderIsPermutation | backend/research/graph.py:127-139 | the flat result lists the index of every task once |
| ResearchGraph.LevelsHoldTheFlatOrder | backend/research/graph.py:130-149 | the levels one after the other hold exactly the indices of the flat order |
| ResearchGraph.OrderRespectsEdges | backend/research/graph.py:130-147 | every upstream stands before its downstream in the flat order |
| ResearchGraph.OrderIsDeterministic | backend/research/graph.py:119-147 | with distinct task indices two successful runs give the same flat order, whatever the order in which rows and sets are listed |
| ResearchGraph.ValidateSpec | backend/research/graph.py:181-214 | the in-memory check accepts exactly distinct indices with an edge list that has no repeats and no cycle, whatever order its sets are iterated in |
| ResearchGraph.CountVisited | backend/research/graph.py:199-211 | the check's own loop visits Kahn's fixpoint for every iteration order |
| ResearchGraph.ValidationMatchesSort | backend/research/graph.py:151-154 | the check before writing and the sort after writing accept the same edge lists |
| ResearchGraph.DuplicateEdgeIsRejected | backend/research/graph.py:193-214 | an acyclic list with one edge twice is reported as a cycle, because degrees count edges and neighbours are a set |
| ResearchGraph.IsUnblocked | backend/research/graph.py:162-175 | true exactly when every upstream exists and is completed |
| ResearchGraph.LevelsRunInOrder | backend/research/graph.py:162-175 | once the earlier levels are completed every task of the next level is unblocked |
| ResearchGraph.AcyclicJobNeverStuck | backend/research/graph.py:162-175 | an acyclic job with an incomplete task has an incomplete unblocked one |
| ResearchTasks.TaskRuntime.CreateTask | backend/research/task.py:69-94 | new tables equal the specification step: idempotent on a non-empty task key, otherwise the constraints decide |
| ResearchTasks.TaskRuntime.StartTask | backend/research/task.py:96-119 | new tables and answer of `start`, also for failed tasks |
| ResearchTasks.TaskRuntime.CompleteTask | backend/research/task.py:121-165 | row, job counters and event of `complete` change together |
| ResearchTasks.TaskRuntime.FailTask | backend/research/task.py:167-191 | new tables and answer of `fail` |
| ResearchTasks.TaskRuntime.RetryTask | backend/research/task.py:193-225 | new tables and answer of `retry`, whose budget check comes before the status check |
| ResearchTasks.TaskRuntime.CancelTask | backend/research/task.py:227-249 | new tables and answer of `cancel` |
| ResearchTasks.TaskRuntime.SkipTask | backend/research/task.py:251-273 | new tables and answer of `skip` |
| ResearchTasks.StepKeepsInv | backend/research/task.py:37-60 | every operation, taken or refused, keeps rows, job counters and event log in step |
| ResearchTasks.Accounting | backend/research/task.py:121-165 | after any operations: tokens_used is the sum over completed tasks and over completion events, the completed count is their number, retry_count is the number of retried events and within max_retries |
| RollUp.FinishAddsOnce | backend/research/task.py:142-152 | finishing one row adds exactly its tokens, and one, to its owner and nothing elsewhere |
| ResearchTasks.RetryCountIffNeverPending | backend/research/task.py:193-225 | over any run from empty tables, retry_count is the number of failed runs that retry restarted if and only if retry never hit the task while it was pending |
| ResearchTasks.RerunsAgainstRetryCount | backend/research/task.py:96-119 | counted on the row's own changes: it leaves pending for running at most once, and its changes from failed to running compare with retry_count exactly as starts of the failed task compare with retries of the pending one |
| ResearchTasks.PendingCanBeRetried | backend/research/task.py:205-212 | from empty tables: create and retry, and retry_count is 1 although nothing failed |
| ResearchTasks.NoRetriesManyRuns | backend/research/task.py:53-56 | a task with max_retries 0 can go from failed to running any number of times, with retry_count 0 |
| ResearchTasks.FinalStays | backend/research/task.py:57-60 | completed, cancelled and skipped rows never change |
| ResearchTasks.UnblockedStays | backend/research/graph.py:162-175 | unblocked never reverts under any task operations |
| ResearchTasks.DeadUpstreamBlocks | backend/research/graph.py:171-174 | a cancelled or skipped upstream blocks its dependents for ever |
| ResearchTasks.FinishableIffNoneDead | backend/research/task.py:37-60 | a schedule that starts only unblocked tasks and completes an acyclic job exists if and only if none of its tasks is cancelled or skipped |
| EventWriters.StepKeepsInv | backend/events/store.py:37-81 | every statement of every interleaved transaction keeps the channel numbering |
| EventWriters.InsertFailsOnlyOnEventId | backend/events/store.py:69-72 | an insert meets a conflicting row, committed or not, only over its event_id, never over (channel, seq_num) |
| EventStore.ChannelsAreNumbered | backend/events/store.py:43-56 | under every interleaving the committed numbers of every channel are 1..n in commit order |
| EventStore.PagingIsExact | backend/events/store.py:83-136 | at every moment of every run a reader has a prefix of the channel's log, its next page continues it, has_more is exact and progress is made |
| EventStore.NothingAppearsBehind | backend/events/store.py:108-117 | later commits only append to a channel |
| EventStore.EventStore.Append | backend/events/store.py:37-81 | the transaction gets the next number of the channel, or is refused exactly when the id is visible |
| EventStore.EventStore.FetchAfter | backend/events/store.py:83-136 | the page after the named event, or from the start |
| EventStore.AppendRuns | backend/events/store.py:43-72 | the three statements of append in sequence compute the state that the method's contract names |
| EventPaging.PageIsNext | backend/events/store.py:108-120 | one page is the next `limit` events with an exact has_more |
| EventPaging.CursorIsPosition | backend/events/store.py:95-106 | an event id resolves to its position if and only if it is not the empty string |
| EventPaging.EmptyIdRestarts | backend/events/store.py:95-106 | an event with an empty id as cursor makes the reader start over |
| ContextWindow.Build | backend/context/window.py:40-88 | the window, or the overflow error, for every input |
| ContextWindow.Truncate | backend/context/window.py:90-132 | drops the shortest prefix of the candidate order that makes the rest fit, or everything |
| ContextWindow.WindowConserves | backend/context/window.py:80-88 | kept plus dropped is a permutation of the sliced input, every protected item is kept, the result is sorted |
| ContextWindow.WindowIsStable | backend/context/window.py:126-132 | items with equal keys keep the order of concatenation |
| ContextWindow.LowestPriorityGoesFirst | backend/context/window.py:106-108 | truncate_lowest_priority never keeps an unprotected item less important than a dropped one |
| ContextWindow.LargestIsOptimal | backend/context/window.py:109-124 | for all integer token counts: no smaller set of unprotected items would have been enough |
| ContextWindow.LargestFitsIffPossible | backend/context/window.py:109-124 | truncate_largest meets the budget if and only if some choice of unprotected items would |
| ContextWindow.FitsIffProtectedFit | backend/context/window.py:115-124 | with non-negative token counts any truncating strategy fits if and only if the protected items do |
| ContextWindow.OldestDropsByPriority | backend/context/window.py:103-105 | truncate_oldest drops by importance first and by age only among equals |
| ContextWindow.OldestIffPriorityFollowsAge | backend/context/window.py:103-105 | for any input and policy with positive token counts: build never drops an item younger than an unprotected one it keeps, under every budget, if and only if no unprotected item of the input is more important and younger than another |
| ContextWindow.OldestDropsTheNewest | backend/context/window.py:103-105 | an input on which truncate_oldest drops the newer item |
| Sorting.SortIsSorted | backend/context/window.py:64 | the sort sorts and permutes |
| Sorting.SortIsStable | backend/context/window.py:64 | and is stable |
| Sorting.StableSortIsUnique | backend/context/window.py:131 | a stable sort is determined by its input |
| ContextCache.ContextCache.SetEntry | backend/context/cache.py:45-66 | the store after set, over the dictionary with its insertion order |
| ContextCache.ContextCache.GetEntry | backend/context/cache.py:68-76 | the answer of get, and the removal of an expired entry |
| ContextCache.ContextCache.InvalidateEntry | backend/context/cache.py:78-80 | removes that entry only |
| ContextCache.ContextCache.ClearAll | backend/context/cache.py:82-84 | empties the store |
| ContextCache.SetKeepsDict | backend/context/cache.py:45-66 | a set stores the entry, keeps every other entry that stays unchanged and never exceeds max_size |
| ContextCache.SetEvictsFrontOnly | backend/context/cache.py:52-58 | another key disappears if and only if a new key meets a full store and it is at the front |
| ContextCache.HistoryInvariant | backend/context/cache.py:36-43 | after any history the store is bounded and its keys stand in the order of their last set |
| ContextCache.EvictsOldestSet | backend/context/cache.py:55-58 | what is evicted is the key whose last set is oldest, in terms of the history alone |
| ContextCache.ServedUntilItExpires | backend/context/cache.py:68-76 | get answers with the result set last, exactly as long as its time to live says, while the key is neither evicted nor removed |
| ContextAssembly.ContextAssembler.Assemble | backend/context/assembler.py:68-136 | answer and new state of `assemble`, from the cache, from the table or from the insert on: hit, overflow, guardrail failure, existing snapshot, waiting insert, constraint error, new snapshot |
| ContextAssembly.ContextAssembler.Create | backend/context/snapshot.py:33-101 | idempotent on the assembly key: the look, and an insert that waits for an uncommitted row of the same key and fails if one has been committed since the look |
| ContextAssembly.RestoreIsStrip | backend/context/snapshot.py:117-152 | a persisted window is restored unchanged but for the creation times of its items |
| ContextAssembly.Filter | backend/context/assembler.py:91-97 | exactly the items of the allowed layers, in order |
| ContextAssembly.OnlyTheBudgetCanFail | backend/context/guardrails.py:50-82 | on what assemble builds, the layer check cannot fail and the guardrail fails if and only if the window is over budget |
| ContextAssembly.AssembleKeepsAll | backend/context/assembler.py:80-136 | one call keeps cache and table in agreement and returns the row of its key, within the row's budget |
| ContextAssembly.ConflictIffOvertaken | backend/context/snapshot.py:43-93 | a call ends in the constraint error if and only if it found nothing in the table, has built a window, and another session has committed the key since |
| ContextAssembly.ConflictIsReachable | backend/context/snapshot.py:43-93 | from the empty process: an insert waits for another session's row, which is committed, and fails |
| ContextAssembly.CallerBudgetIff | backend/context/assembler.py:80-90 | a result is within the caller's own budget if and only if the key is new or its row happens to fit |
| ContextAssembly.OverBudgetHitIsReachable | backend/context/assembler.py:80-90 | from the empty process: two calls for one key, the second served over its own budget |
| ContextAssembly.RollbackAgreesIffSafe | backend/context/assembler.py:131-136 | a rollback keeps cache and table in agreement if and only if none of the rows it takes back is cached |
| ContextAssembly.UnsafeRollbackIsReachable | backend/context/assembler.py:126-136 | from the empty process: one call and a rollback, and the cache holds a snapshot that no row has |
| ContextAssembly.UnsafeRollbackServesAGhost | backend/context/assembler.py:80-90 | after an unsafe rollback every call until expiry returns a snapshot no row has |
| ContextAssembly.ResultsShowTheRow | backend/context/assembler.py:80-136 | over any run of interleaved sessions, expiry and eviction: every result handed out for a key still shows its row at any later time, unless that row was rolled back |
| ContextAssembly.SameKeySameWindow | backend/context/snapshot.py:43-45 | two callers of one key get the same snapshot |
| ContextAssembly.CommittedStays | backend/context/snapshot.py:79-93 | a committed row never changes |
| IsoTime.IsoOrderIsTimeOrder | backend/services/business_evidence.py:200 | string order on UTC isoformat, with its optional fraction, is time order |
| BusinessEvidence.LeadRow.ReceiveBusiness | backend/services/business_evidence.py:203-264 | answer and new lead of one delivery; a refusal changes nothing |
| BusinessEvidence.LatestEvidenceWins | backend/services/business_evidence.py:237-246 | under the condition, every order with every repetition and every arrival time, the clock being read twice, ends in the latest evidence |
| BusinessEvidence.ConfluentIffOrderFree | backend/services/business_evidence.py:217-264 | for any deliveries about one property within the receipt budget: every order, repetition and acceptable arrival time ends in the latest evidence if and only if the latest observations agree on the revision and one of them is the first under its partition and revision within a week and a minute, as long as retention can hold a receipt |
| BusinessEvidence.TheMoment | backend/services/business_evidence.py:200-222 | there is a moment at which all that can mask a latest observation is acceptable, and a run before it that delivers all the rest and leaves no receipt |
| BusinessEvidence.TwoOrdersDiffer | backend/services/business_evidence.py:226-229 | two observations of one snapshot in one partition: either order keeps the one that came first |
| BusinessEvidence.OrderMatters | backend/services/business_evidence.py:226-229 | there are two such deliveries for a new lead, and their two orders end in different evidence |
| BusinessEvidence.OneTimePerRevisionIsOrderFree | backend/services/business_evidence.py:217-239 | the documented assumptions imply that condition |
| BusinessEvidence.SomeDeliveryQualifies | backend/services/business_evidence.py:203-236 | the conditions of the confluence theorem can be met |
| BusinessEvidence.BudgetSuffices | backend/services/business_evidence.py:230-231 | within the receipt budget the budget check never refuses |
| BusinessEvidence.ReceiptsOfTheWeek | backend/services/business_evidence.py:217-222 | an accepted delivery leaves its own receipt and exactly those not older than a week at the second reading of the clock |
| BusinessEvidence.ReceiptBudgetHolds | backend/services/business_evidence.py:230-231 | in every run, whatever is delivered, a lead holds at most 5000 receipts |
| SourceCommands.RecoverLead | backend/services/source_commands.py:196-250 | the loop over a lead's commands changes them in place to the pointwise specification and posts at most one payload |
| SourceCommands.SettledMeaning | backend/services/source_commands.py:200-250 | what a pass may do to one command: nothing if settled, never exceed the attempts, apply exactly when it was posted and its own receipt came back, post nothing older than a day |
| SourceCommands.OnePostPerPass | backend/services/source_commands.py:213-215 | at most one payload of a lead is posted in a pass |
| SourceCommands.PassMakesProgress | backend/services/source_commands.py:196-250 | a committed pass over a lead with a pending command strictly decreases the attempts left |
| SourceCommands.PendingDrains | backend/services/source_commands.py:196-250 | however the source answers and whatever passes are lost, as many committed passes as the measure says leave nothing pending |
| SourceCommands.PostsAreBounded | backend/services/source_commands.py:207-253 | committed passes post a command at most thirty times, as its attempts say; all further posts were made by passes that were lost before their commit |
| SourceCommands.PostsReachTheBound | backend/services/source_commands.py:213-253 | for any number of lost passes a run that posts a new command exactly thirty times more than that |
| SourceCommands.PostsAreDue | backend/services/source_commands.py:200-212 | committed or lost, no pass posts a command that is settled, a day old, attempted thirty times or bound for elsewhere |
| SourceCommands.PostsAreBoundedThroughout | backend/services/source_commands.py:173-253 | over every interleaving of recovery with staging, deletion and other writes: posts of a command in committed passes are its attempts, thirty at most, and all further posts are those of lost passes |
| SourceCommands.AppliedWasPersisted | backend/services/source_commands.py:234-243 | against an honest source whatever is applied here was persisted there |
| SourceCommands.SourceLead.StageCommand | backend/services/source_commands.py:104-170 | answer and new commands of staging, in the order of its checks |
| SourceCommands.RunKeepsOutbox | backend/services/source_commands.py:148-170 | over any staging and recovery, each with its own destination, committed or lost: distinct ids, at most 100 commands, at most 30 attempts, applied only with a matching receipt, nothing else of a command changes |
| SourceCommands.RestagingChangesNothing | backend/services/source_commands.py:150-154 | re-staging an accepted command for its destination changes nothing, however much was staged and recovered since, and wherever that was sent |
| SourceCommands.LeadTable.RecoverCommands | backend/services/source_commands.py:173-253 | one query, then lead after lead read again under its lock, with other writers before each and passes that may be lost: the run of the state machine, which raises exactly when a lead of the queue is gone |
| SourceCommands.ProgressIffHeadIsServed | backend/services/source_commands.py:193-253 | the recovery of the head of the queue uses up attempts if and only if the lead is still there and its pass commits; otherwise it changes no lead and ends the call |
| SourceCommands.OneDeletionOneRaise | backend/services/source_commands.py:48-69 | a lead deleted between the query and its lock makes that one call raise; the next query leaves it out and goes on with the others |
| SourceCommands.BooksBalance | backend/services/source_commands.py:173-253 | over every interleaving with staging, deleting and other writes: committed passes are paid for by attempts left or staged, raises by deletions, and calls by commits, raises and losses |
| SourceCommands.IdleIffDrained | backend/services/source_commands.py:176-192 | a query comes back empty if and only if nothing is pending on a lead that is there |
| SourceCommands.OutboxDrains | backend/services/source_commands.py:173-262 | calls that find work are bounded by attempts left, stagings, deletions and lost passes, and enough committed passes leave nothing pending |
| RateLimits.Redis.Eval | backend/security/rate_limits.py:22-28 | INCR with EXPIRE on 1, tied to the trace of hits |
| RateLimits.Redis.Dispatch | backend/security/request_limits.py:13-45 | which requests are counted, passed, limited, or refused because Redis does not answer |
| RateLimits.Redis.EnforceLoginBudget | backend/security/rate_limits.py:48-70 | both counters are charged; passes exactly when both are within budget |
| RateLimits.Redis.EnforceProviderBudget | backend/security/rate_limits.py:79-99 | passes exactly when the shared counter is within budget |
| RateLimits.AtMostTwicePerLifetime | backend/security/rate_limits.py:17-28 | in any trace, any half-open interval of one lifetime admits at most twice the limit of a key less one |
| RateLimits.LifetimeBoundIsReached | backend/security/rate_limits.py:17-28 | for every key and limit a trace that reaches that bound |
| RateLimits.BucketBound | backend/security/request_limits.py:27-40 | a bucket admits at most its limit: its counter outlives every request of the bucket, even with clocks 30 s apart |
| RateLimits.AtMostTwicePerMinute | backend/security/request_limits.py:15-40 | any minute admits at most twice the limit of a path from one host |
| RateLimits.TwiceIsReached | backend/security/request_limits.py:27-34 | a trace that admits exactly twice the limit, so the bound is sharp |
| FreezeLog.FreezeRuntime.CheckFrozen | backend/governance/freeze.py:124-152 | the loops of is_frozen decide kill switch or live freeze |
| FreezeLog.FreezeRuntime.GetSpec | backend/governance/freeze.py:154-172 | finds the latest live freeze, exactly when there is one |
| FreezeLog.FreezeRuntime.ActivateFreeze | backend/governance/freeze.py:33-74 | what is appended and answered; the fallback is taken only on a kill-switched scope without a live freeze |
| FreezeLog.FreezeRuntime.DeactivateFreeze | backend/governance/freeze.py:76-93 | appends unless a freeze event of the key is marked as a kill switch |
| FreezeLog.FreezeRuntime.TriggerKillSwitch | backend/governance/freeze.py:95-122 | appends the kill switch |
| FreezeLog.FreezeRuntime.CheckFreeze | backend/governance/engine.py:77-120 | global first, then the scope |
| FreezeLog.FreezeRuntime.EnforceAction | backend/governance/engine.py:146-233 | freeze gate, then the evaluation of the active rows, whose KeyError or TypeError comes before the audit record, then denial exactly of what they forbid |
| FreezeLog.EnforcedIff | backend/governance/engine.py:139-233 | on an open scope: TypeError for every action if and only if a latest active policy inherits from an active key, without an audit record; otherwise denied if and only if a policy that hits the action forbids it and none is without a rank |
| FreezeLog.HeirStopsEnforcement | backend/governance/engine.py:139-144 | from the empty tables: two policies are created, one inheriting, and every action on every scope raises TypeError and leaves no audit record |
| FreezeLog.AtMostOneLive | backend/governance/freeze.py:41-66 | while operations do not overlap, a scope has at most one live freeze key in every reachable log |
| FreezeRaces.StepKeepsInv | backend/governance/freeze.py:41-66 | with the three SELECTs of the check and the append as statements of interleaved transactions: the freezes that the check behind an activation could see have ended by now |
| FreezeRaces.OneLiveThroughoutIffRaceFree | backend/governance/freeze.py:41-66 | over every interleaving a scope has at most one live freeze at every moment if and only if no freeze of it is committed between the first SELECT behind another and the commit of that other while both stand |
| FreezeRaces.AnswerIsOfAMomentIff | backend/governance/freeze.py:124-152 | the answer of is_frozen is that of some log committed during its three SELECTs if and only if it is frozen or the scope was open at some moment of them; a wrong one takes a freeze or kill switch committed meanwhile |
| FreezeRaces.OpenAnswerNeverTrue | backend/governance/freeze.py:131-152 | from the empty log: a freeze is ended and a kill switch thrown between the SELECTs, and the answer is open although every committed log was frozen |
| FreezeRaces.TwoSessionsFreezeTwice | backend/governance/freeze.py:41-66 | from the empty log: two transactions leave two live freezes of one scope |
| FreezeLog.KillIsForever | backend/governance/freeze.py:138-140 | once a kill switch is recorded its scope, or every scope for the global one, stays closed under all operations |
| FreezeLog.DeactivateNeverRaises | backend/governance/freeze.py:82-93 | in every reachable log deactivate appends, for kill-switch keys too |
| FreezeLog.ActivationTakesEffectIff | backend/governance/freeze.py:55-74 | activating on an open scope freezes it if and only if the key was never deactivated |
| FreezeLog.AgreesIffNoReuse | backend/governance/freeze.py:124-152 | is_frozen gives the documented, ordered answer throughout a run if and only if no key is activated again after being deactivated |
| FreezeLog.ReuseIsReachable | backend/governance/freeze.py:124-152 | from the empty log: freeze, end, the same key again, and the scope is open where the documentation says frozen |
| FreezeLog.FrozenIsFrozenInOrder | backend/governance/freeze.py:124-152 | what is_frozen calls frozen is frozen in the ordered reading |
| Approvals.ApprovalTables.RequestApproval | backend/workflows/approvals.py:47-104 | answer and new tables of request_approval |
| Approvals.ApprovalTables.ResolveApproval | backend/workflows/approvals.py:106-161 | answer and new tables of resolve; never at or past either deadline |
| Approvals.ApprovalTables.HasPendingApproval | backend/workflows/approvals.py:163-166 | true exactly when an approval of the workflow is pending or escalated |
| Approvals.ApprovalTables.EscalateApproval | backend/approvals/escalation.py:50-85 | only pending approvals escalate |
| Approvals.ApprovalTables.ApplyOverride | backend/governance/override.py:31-101 | while calls do not overlap, a used key answers its first record and changes nothing |
| Approvals.ApprovalTables.EscalateStep | backend/governance/escalation.py:31-68 | pending and escalated approvals escalate |
| Approvals.ApprovalTables.RequestForTool | backend/ai/gate.py:72-86 | a pending approval on any workflow, whatever its status; only the constraints refuse |
| Approvals.ApprovalTables.ResolveForTool | backend/ai/gate.py:114-129 | settles an open approval; no deadline is looked at and the workflow stays as it is |
| Approvals.ApprovalTables.RollbackOnRejection | backend/workflows/approval_orchestrator.py:164-188 | rejects the approval whatever its status and cancels the workflow unless it saw that it had ended |
| OverrideRaces.StepKeepsInv | backend/governance/override.py:43-93 | with the look for the key and the locked change as two statements of interleaved transactions, beside every other writer: what each transaction relies on stays true |
| OverrideRaces.ApprovalIsOverriddenOnce | backend/governance/override.py:55-64 | over every interleaving the row lock lets each approval be overridden at most once |
| OverrideRaces.KeyIsUsedOnceIffRaceFree | backend/governance/override.py:43-53 | over every interleaving a key is used at most once if and only if no use of it is committed between the look for it and the commit of another use |
| OverrideRaces.TwoSessionsUseOneKey | backend/governance/override.py:43-93 | from the empty tables: two transactions apply one key to two approvals |
| Approvals.ApprovalTables.ExpirePending | backend/approvals/expiry.py:42-106 | the sweep equals the expiry steps of its candidates, and reports them |
| Approvals.SweepIsExact | backend/approvals/expiry.py:49-60 | exactly the approvals open and overdue at the query become expired |
| Approvals.CoupledIffSafe | backend/workflows/approvals.py:59-92 | one open approval per workflow, only while paused: kept by every operation of the workflow gate, expiry, both escalations and the override; by the AI gate's request if and only if the workflow is paused without an open approval; by every other writer of workflows, even one that acts on a status it read earlier without a lock, if and only if it leaves no open approval on a paused workflow it moves |
| Approvals.RunIsCoupledIffSafe | backend/workflows/approvals.py:47-161 | over runs of all writers of approvals and workflows: coupled at every moment if and only if every operation was safe at its moment |
| Approvals.GateRunsStayCoupled | backend/workflows/approvals.py:47-161 | runs of the workflow gate, expiry, escalations, override, resolutions of the AI gate and starts keep it |
| Approvals.SameTypeCheckNeverFails | backend/workflows/approvals.py:69-75 | in a coupled state the check for a pending approval of the same type cannot fail |
| Approvals.AiApprovalTripsTheCheck | backend/ai/gate.py:77-86 | from the empty tables: the AI gate leaves a pending approval on an active workflow, and the check fails |
| Approvals.ResumeBreaksTheGate | backend/workflows/runtime.py:121-134 | after a resume behind the gate a workflow can have two open approvals |
| Approvals.ResumedAndOverridden | backend/workflows/runtime.py:121-134 | from the empty tables: a resumed workflow with an open approval, and an overridden one that stays paused without any |
| Approvals.FinalUnlessRolledBack | backend/workflows/approval_orchestrator.py:176-183 | over runs of all writers a settled approval changes if and only if a rejecting rollback reaches it and it was not rejected |
| Approvals.ApprovedCanBeRejected | backend/workflows/approval_orchestrator.py:176-183 | from the empty tables: an approval that the gate approved ends rejected |
| Approvals.NeverResolvedAtItsDeadline | backend/workflows/approvals.py:124-130 | whenever resolve of the workflow gate changes anything, both deadlines are still ahead |
| Approvals.SettledOnceIffNotRolledBack | backend/workflows/approvals.py:132-137 | over runs of all writers from the empty tables the journal replays to the table, and an approval is settled at most once if and only if no rejecting rollback reached it settled |
| Approvals.ReactivationsAreApprovalsOrBypasses | backend/workflows/approvals.py:139-145 | over runs of all writers, paused-to-active steps are as many as approving resolutions of the workflow gate and the moves of runtime, recovery and snapshots that go around it |
| Approvals.CanResumeIffResolvable | backend/workflows/approvals.py:120-130 | through the workflow gate, expiry, escalations and override a paused workflow can become active again if and only if it has an open approval and neither deadline has passed |
| Approvals.AiGateCanResumeIffInTime | backend/ai/gate.py:77-129 | with the AI gate beside them it can, from every state that any writers have led to, if and only if the workflow's own deadline has not passed |
| Approvals.OverrideStrandsTheWorkflow | backend/governance/override.py:71-76 | after an override, or an expiry, no operation of the workflow gate, expiry, escalation or override ever resumes the workflow |
| Policies.FindMatching | backend/governance/evaluator.py:152-180 | latest active version per key, inherited patterns, and the match; the TypeError of a row that inherits |
| Policies.Evaluate | backend/governance/evaluator.py:95-150 | on rows or snapshots: no match, the first policy of the highest rank, the KeyError of an unranked classification, or the TypeError of rows that inherit and of a snapshot winner with a chain |
| Policies.ClassifyAction | backend/governance/evaluator.py:182-192 | the same verdict without the winner, so without looking at its chain |
| Policies.EvaluationIsVerdict | backend/governance/evaluator.py:109-122 | where no TypeError is raised, both evaluations give the most restrictive hit among the latest versions |
| Policies.RowsCrashIffSomeHeir | backend/governance/evaluator.py:169-180 | on rows, which is what the callers pass, both evaluations raise TypeError for every action if and only if some latest active policy inherits from an active key |
| Policies.SnapshotsCrashIffChain | backend/governance/evaluator.py:126-133 | on snapshots evaluate raises TypeError if and only if there is a winner and it has an escalation chain; classify_action never does |
| Policies.CrashIsOrderFreeIffTopsAgree | backend/governance/evaluator.py:121-133 | on snapshots even whether evaluate raises depends on the order of the list, unless the policies of the highest rank all have a chain or all have none |
| Policies.HeirIsReachable | backend/governance/evaluator.py:176-177 | from the empty table: two creates after which evaluation raises on rows for every action |
| Policies.ChainIsReachable | backend/governance/evaluator.py:126-133 | from the empty table: one create whose snapshot raises for what it matches, although its row does not |
| Policies.MostRestrictiveWins | backend/governance/evaluator.py:35-40 | forbidden beats privileged beats restricted beats safe; a hit without a rank is an error |
| Policies.ClassificationIsOrderFree | backend/governance/evaluator.py:109-122 | what classify_action answers, errors included, does not depend on the order of the list, on rows or snapshots |
| Policies.VerdictIsOrderFree | backend/governance/evaluator.py:109-122 | the same for evaluate on rows, and on snapshots where it answers at all |
| Policies.AddingNeverRelaxes | backend/governance/evaluator.py:169-180 | an active policy under a new key never makes an action less restricted, on rows or snapshots, even when others inherit from it |
| Policies.AddingBreaksRowsIff | backend/governance/evaluator.py:169-180 | on rows it turns every answer into TypeError if and only if it inherits from an active key or a latest active policy already names its key |
| Policies.WinnerIsOrderFreeIffNoTie | backend/governance/evaluator.py:121-150 | the winner is independent of the order of the list, rows or snapshots, if and only if no two keys tie for the highest rank |
| Policies.TieIsReachable | backend/governance/evaluator.py:121-150 | from the empty table: two created policies that match, and the winner depends on the order of the rows |
| Policies.PolicyRuntime.CreatePolicy | backend/governance/policy.py:40-95 | refused while a version is active, otherwise the next version |
| Policies.PolicyRuntime.SupersedePolicy | backend/governance/policy.py:97-138 | the active version gives way to its successor |
| Policies.PolicyRuntime.ArchivePolicy | backend/governance/policy.py:140-154 | the active version is archived |
| Policies.VersionsAreConsecutive | backend/governance/policy.py:67-68 | versions of every key are 1..n in row order, with at most one active, which is n |
| Policies.ReachableClassificationIsOrderFree | backend/governance/evaluator.py:163-167 | on every reachable table what evaluate makes of an action, errors included, is independent of row order up to the winner |
| SophiaTurns.SophiaTurnRuntime.StartTurn | backend/sophia/turn.py:52-86 | answer and new tables of start: known key, freeze gate, constraints |
| SophiaTurns.SophiaTurnRuntime.CompleteTurn | backend/sophia/turn.py:88-147 | turn and session counters of complete change together |
| SophiaTurns.SophiaTurnRuntime.MoveTurn | backend/sophia/turn.py:149-271 | answer and new tables of the guarded status changes |
| SophiaTurns.SophiaTurnRuntime.CancelSeenTurn | backend/sophia/cancellation.py:52-63 | the turn of a cancelled session: guarded by the status read before the lock, written over whatever the turn is by then |
| SophiaTurns.SessionAccounting | backend/sophia/turn.py:126-131 | over any operations a session's counters exceed the sum and the number of its completed turns by exactly the turns that were completed and then cancelled on an old copy; they are right if and only if there is none |
| RollUp.UnfinishTakesAway | backend/sophia/turn.py:126-131 | a finished row that loses its entry takes away exactly what it added |
| SophiaTurns.CompletedCanBeCancelled | backend/sophia/cancellation.py:52-63 | from empty tables: a turn completed between the two reads of a cancellation ends cancelled and stays on the counters |
| SophiaTurns.FinalUnlessOldCopy | backend/sophia/turn.py:102-111 | a completed, cancelled or failed turn changes if and only if a cancellation of an old copy reaches it and it was not cancelled |
| SophiaTurns.InterruptedUntilCancelled | backend/sophia/turn.py:220-247 | an interrupted turn changes if and only if it is cancelled, on whatever copy |
| SophiaTurns.ApprovalSkippedIffCompletedAwaiting | backend/sophia/turn.py:102-111 | over any operations, a completed turn was resumed as often as it waited for an approval if and only if complete never reached it while it waited |
| SophiaTurns.ApprovalCanBeSkipped | backend/sophia/turn.py:102-111 | from empty tables: a turn that waits for its approval is completed without it |
| SophiaTurns.StartIsIdempotent | backend/sophia/turn.py:56-59 | the same turn key answers the first turn for ever and changes nothing |
| Retries.RecordKeepsTheAnnouncement | backend/workflows/retries.py:42-94 | record_failure schedules what compute_next_retry announced, and both fail exactly when can_retry says so |
| Retries.ExactlyMaxRetries | backend/workflows/retries.py:61-90 | from a fresh state exactly max_retries failures are accepted |
| Retries.DelaysAreMonotone | backend/workflows/retries.py:77-83 | delays never shrink for a base that is not negative and never exceed the cap |
| Retries.TotalIsBounded | backend/workflows/retries.py:50-56 | the total is at most n * cap and at most base * (2^n - 1) |
| Retries.TotalIsExactBelowCap | backend/workflows/retries.py:50-56 | the second bound is reached if and only if the cap is not |

## Left out

- Routes, middleware wiring, HTTP calls, websockets, logging, audit and notification records, and the frontend: input and output.
- SQL text and 32-bit columns: tables are unbounded; the constraints that matter are stated.
- Hashes, HMAC and generated ids are taken to be injective; `fnmatch` is an arbitrary predicate on patterns.
- Timestamps without a time zone, which the columns cannot hold, and the error they raise in comparisons.
- `build` of the task graph and its idempotency on task keys: a plain insertion loop after the check that is modelled.
- How long a waiting statement waits, and deadlocks between sessions that lock several channels; a statement that must wait is not enabled.
- A negative page limit, which the database refuses.
- EventStore.EventStore.Append: the method covers the case in which nothing makes a statement wait; every interleaving is covered by EventWriters.StepKeepsInv.
- The provenance map of a snapshot, and snapshot retention: functions of the window already modelled.
- The field checks of `validate_snapshot`: one flag says whether they pass; its timestamp window and output are modelled.
- BusinessEvidence.ConfluentIffOrderFree: not for observations of the year 1, for which the date a week before need not exist.
- The shape checks of `stage_operation` and the transport settings in `destination`: flat checklists.
- Two processes that recover commands at once; the model has the one loop that the application starts, beside any number of other writers.
- Redis failing in the middle of its script; a counter that was charged and not answered only makes limits stricter.
- Rollback of the governance events appended by a call that raises, which depends on the caller.
- Elsewhere than in the cancellation of a session, a row read under its lock is taken to be the row of the table; no other caller here reads a turn or task first and keeps it.
- Overlapping changes of one policy, which read the active version without a lock, and overlapping creations under one task or turn key: single steps here, beside the unique constraints they would meet.
- The steps of an escalation chain, taken to be well formed, and the merged rules of an inherited policy, which only the approval type reads.
- Approval routing, quorum, delegation and the approval type inferred for a winner: lookups on the winning policy.
- Status tables of jobs, plans, sessions and AI executions, delivery checklists, scoring and sanitising: no property beyond case analysis.
- The AI executions behind the AI gate: its request and its resolution are taken when the execution is in the status they need, as they roll back otherwise.
- FreezeLog.AtMostOneLive: for operations that do not overlap; FreezeRaces.OneLiveThroughoutIffRaceFree covers those that do.
- Approvals.ApprovalTables.ApplyOverride: for calls that do not overlap; OverrideRaces.KeyIsUsedOnceIffRaceFree covers those that do.
- Pauses, resumes and notifications of `workflows/approval_orchestrator.py`, which call the gate and the runtime; its rejecting rollback is modelled.
- `workflows/assertions.py` is not part of this model.
