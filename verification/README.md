# FamilyGraph concurrency and convergence models

Dafny models of the parts of FamilyGraph whose correctness depends on interleavings, failures or
long histories: the durable capacity counters and their lock order, the inference gate of the
embedding service, the agent sidecar (slot scheduler, run lifecycle, event buffer, send queue,
policy guard, redaction, retry budget), the lexical n-gram index, and the insert-only demo seed.
`dafny verify dfyconfig.toml` checks everything.

## How to read it

- **Capacity counters** (`RowLocks`, `Capacity`, `CapacitySafety`, `CapacityHistory`,
  `CapacityProgress`, `CapacityGrants`, `CapacityRecovery`, `TenantCounters`, `ControlPlane`). A
  transaction is a program of statements under READ COMMITTED: a statement that needs a row lock is
  one step, enabled only while nobody else holds the row; an `UPDATE ... WHERE` tests its condition
  when it gets the row; writes are private until commit; a transaction can die at any point before it.
  `Config` says which counter rows a tenant's lease occupies and in which order, so the one-level and
  the two-level deployments are instances of one machine. Safety, exactly-once history, progress, what
  leases grant and what recovery takes back are proved for every number of transactions and every
  schedule.
- **What the locks buy** (`CounterAcquire`, `CountingSubquery`, `MultiDimension`,
  `MultiDimensionRuns`, `UnconditionalRelease`, `RunRace`). The lock-free variants over-grant, with the
  exact condition; the multi-dimension acquire is all-or-nothing; compare-and-set races have exactly
  one winner.
- **Lock order** (`LockPrograms`, `LockGraph`). Two lock programs can deadlock exactly if they
  cross. The seen-pruned walk of the static report equals full inlining within its depth limit, and a
  report without violations is a deadlock-freedom proof.
- **Inference gate** (`Gate`, `GateRuns`). The class has one method per critical section; the run
  lemmas interleave any number of calls.
- **Sidecar** (`Slots`, `SlotRuns`, `Lifecycle`, `Flusher`, `Delivery`, `CodePoints`, `EventBuffer`,
  `StreamReading`, `EventReports`, `PolicyGuard`, `Redaction`, `RetryBudget`). Asynchronous code is cut
  at its awaits: a class method or a step is the code between two of them.
- **Index and seed** (`NGramIndex`, `SeedManifest`, `SeedLookup`, `Seed`).

Where the source updates an object in place, a class has its fields and methods. Each method is proved
equal to a specification function, which the lemmas about whole runs use, and says what its caller
may rely on.

## Findings

Statements about the code that fail, each with the condition under which they hold:

- A lock-free read-then-write acquire grants more than the capacity exactly if more workers than free
  units take part (`CounterAcquire.NaiveOvergrantsIff`). Counting in-flight rows instead of a counter
  exceeds it exactly if the capacity is positive and smaller than both the number of workers and the
  number of candidate rows (`CountingSubquery.SubqueryExceedsIff`).
- The release worker that gives back without having acquired leaks no unit
  (`UnconditionalRelease.CountersReturnToZero`) but can let in too many: a row is held by more workers
  than it has units, in some schedule, exactly if it has a unit and at least two workers more than
  units ask for it (`UnconditionalRelease.OvergrantsIff`). Giving back only after a grant never does.
- An acquire that passes its capacity check still rolls back if it lists a dimension more often than
  the row has units: it commits exactly if every listed row has room for all its entries
  (`MultiDimension.CounterTable.TryAcquire`).
- A settle whose single update visits the tenant row before the global row can deadlock with a lease
  (`ControlPlane.DeadlockFreeIffGlobalFirst`).
- The lock report is exact on all call graphs with chains of at most `h` calls exactly if `h` is at most
  ten (`LockGraph.ExactIffWithinDepth`).
- Executing runs and slot entries agree exactly as long as no lease repeats the id of an executing run
  (`SlotRuns.TrackedIffFreshIds`). Otherwise a kind can run beyond its budget exactly if it has a slot
  and, for assistants, a second slot of either kind exists (`SlotRuns.OverrunIff`).
- A cancel or a lost lease does not stop the settle of a run that is still fetching its context, is
  being refused, or is flushing after the check; anywhere else it does
  (`Lifecycle.StoppedRunSettlesIff`). After one settle request a second follows exactly while the first
  is unanswered outside the handler and no mark is set (`Lifecycle.SecondSettleIff`).
- A non-empty secret is removed from every text by every list that names it exactly if it does not
  overlap the mark "[REDACTED]" (`Redaction.RemovedByEveryListIff`); without brackets, exactly if
  "REDACTED" does not contain it (`Redaction.SecretRemovedIff`).
- The n-gram index agrees with substring search exactly on one-character queries
  (`NGramIndex.AgreeIffOneCharacter`, `NGramIndex.Search`).
- Being out of time stays final for every client of a retry budget exactly if the clock, once past the
  start, never falls back (`RetryBudget.SticksIffClockKeepsUp`).

## Model

| member | source | states |
|---|---|---|
| CapacitySafety.QuotaAndConservation | scripts/migration-proof/pg_capacity_concurrency.py:86-125 | over every schedule with crashes, each counter row's committed `active` is the number of in-flight attempts charged to it, its capacity never changes, and a row that leases compare is never above capacity |
| CapacitySafety.StepKeeps | scripts/migration-proof/pg_fault_injection.py:133-144 | every statement, commit, crash and clock tick keeps locks consistent with what each program must hold, conservation and quota |
| CapacitySafety.ReturnFindsPositive | scripts/migration-proof/pg_control_proof.py:51-59 | the `active > 0` guard of a return never drops a decrement |
| CapacitySafety.PublishCounts | scripts/migration-proof/pg_fault_injection.py:209-218 | a commit of a lease, settle or recovery moves each counter by exactly what it moves the in-flight count |
| CapacitySafety.InUseReturned | scripts/migration-proof/pg_fault_injection.py:209-218 | ending a list of in-flight attempts lowers the in-flight count by the length of the list |
| CapacityHistory.LeasedAndReturnedOnce | scripts/migration-proof/pg_fault_injection.py:126-153 | an attempt leaves `reserved` iff exactly one transaction reports leasing it, and ends iff exactly one settle or recovery reports returning it |
| CapacityHistory.WinnerIsRecorded | scripts/migration-proof/pg_control_proof.py:51-59 | a successful settle named the recorded owner, a granted lease stands under its worker, its tenant and its time to live, and settled and recovered rows never overwrite each other |
| CapacityHistory.LateSettleChangesNothing | scripts/migration-proof/pg_fault_injection.py:133-153 | in every reachable state a second, wrong-owner or too late settle is not blocked, ends without a row, and leaves tables, locks and all other transactions as they were |
| CapacityGrants.RefusedForCause | scripts/migration-proof/pg_capacity_concurrency.py:91-113 | in every reachable state a lease ends as full only if a counter it compares has all its units in flight, as no-counter only if one is missing, as no-candidate only if every reserved row of the tenant is locked by others; a settle ends without a row only if it is not due |
| CapacityGrants.LeasesGrantExactly | scripts/migration-proof/pg_capacity_concurrency.py:86-125 | leases of any tenants, any schedule without crash: once all are done, a tenant with its own counter has been granted exactly the least of its leases, free units and reserved rows |
| CapacityRecovery.OnlyExpiredTakenBack | scripts/migration-proof/pg_fault_injection.py:209-216 | an attempt becomes `unknown` only through a recovery of its tenant, while in flight, not applied and past the end of its lease |
| CapacityRecovery.RecoveryIsComplete | scripts/migration-proof/pg_fault_injection.py:209-216 | whatever goes on beside it, every attempt that had run out when a recovery began has ended when it commits |
| CapacityProgress.DeadlockFree | scripts/migration-proof/pg_capacity_concurrency.py:229-274 | with counters requested in ascending order and SKIP LOCKED for candidates, some unfinished transaction can always step |
| CapacityProgress.SchedulesAreFinite | scripts/migration-proof/pg_capacity_concurrency.py:86-125 | no schedule executes more statements than a measure of the initial state |
| CapacityProgress.MaximalRunsFinish | scripts/migration-proof/pg_capacity_concurrency.py:229-274 | a schedule that cannot be extended has finished every transaction |
| TenantCounters.TenantQuota | scripts/migration-proof/pg_fault_injection.py:126-153 | leases, duplicate or late settles, recoveries and crashes before commit keep each tenant's counter equal to its in-flight attempts and within capacity |
| TenantCounters.TenantRunsFinish | scripts/migration-proof/pg_fault_injection.py:201-218 | leases mixed with settles and recoveries never deadlock |
| TenantCounters.TenantGrantsExactly | scripts/migration-proof/pg_capacity_concurrency.py:86-125 | with one counter per tenant, concurrent leases grant exactly the least of leases, capacity minus in flight, and reserved rows |
| RowLocks.SomeoneRuns | scripts/migration-proof/pg_deadlock_probe.py:43-81 | if every request ranks above what its transaction holds, behind every waiter stands a holder that can go on |
| ControlPlane.GlobalIsSumOfTenants | scripts/migration-proof/pg_control_proof.py:33-59 | over every schedule global `active` = sum of tenant `active` = in-flight attempts, although leases never compare the global capacity |
| ControlPlane.TenantsGrantExactly | scripts/migration-proof/pg_control_proof.py:33-49 | with global and tenant rows, each tenant still gets exactly the least of its leases, free units and rows |
| ControlPlane.DeadlockFreeIffGlobalFirst | scripts/migration-proof/pg_control_proof.py:33-59 | no reachable state is stuck exactly if the settle's update takes the global row first |
| ControlPlane.GlobalFirstNeverStuck | scripts/migration-proof/pg_control_proof.py:33-59 | with global before tenant on both sides no reachable state is stuck |
| ControlPlane.CrossingReached | scripts/migration-proof/pg_control_proof.py:51-59 | with the tenant row first, four statements lead from a legal start to the crossed state |
| ControlPlane.CrossedIsStuck | scripts/migration-proof/pg_control_proof.py:51-59 | in the crossed state nobody can step |
| CounterAcquire.LockedGrantsExactly | scripts/migration-proof/multitenant_matrix.py:109-128 | once all workers are done, the locked acquire has granted exactly min(n, capacity - active), and never more on the way |
| CounterAcquire.NaiveGrantsEverybody | scripts/migration-proof/multitenant_matrix.py:142-161 | for every capacity with a free unit and every n the lock-free form has a schedule that grants all n |
| CounterAcquire.NaiveOvergrantsIff | scripts/migration-proof/multitenant_matrix.py:142-161 | some schedule exceeds the capacity exactly if a unit is free and more workers than free units take part |
| CounterAcquire.WritersAloneAndDone | scripts/migration-proof/multitenant_matrix.py:109-161 | either form: at most one worker between its UPDATE and its commit, at most three steps for each worker, and never all waiting |
| CountingSubquery.SubqueryLeasesEverybody | scripts/migration-proof/pg_capacity_concurrency.py:128-160 | counting in-flight rows without the counter lock, on any positive capacity some schedule leases to any m of the workers for which there are rows |
| CountingSubquery.SubqueryExceedsIff | scripts/migration-proof/pg_capacity_concurrency.py:128-160 | some schedule puts more rows in flight than the capacity exactly if the capacity is positive and below both the number of workers and the number of rows |
| CountingSubquery.ClaimsAreDistinct | scripts/migration-proof/pg_capacity_concurrency.py:128-160 | SKIP LOCKED: no two workers ever claim the same candidate, nobody waits, and every schedule ends |
| RunRace.ExactlyOneWinner | scripts/migration-proof/pg_fault_injection.py:156-198 | any number of settles and cancels: the status is terminal iff exactly one has won and is its own, and once nobody is active there is a winner iff some racer did not crash |
| RunRace.SomebodyMoves | scripts/migration-proof/multitenant_matrix.py:338-355 | while a racer is active some racer can go on |
| RunRace.RacesEnd | scripts/migration-proof/multitenant_matrix.py:338-355 | no schedule has more than two steps for each racer |
| LockPrograms.DeadlockIffCross | scripts/migration-proof/pg_deadlock_probe.py:43-81 | two lock programs reach a stuck state exactly if each can hold a row that the other requests next |
| LockPrograms.ClimbingNeverStuck | scripts/migration-proof/pg_deadlock_probe.py:60-81 | any number of programs whose requests climb in rank never get stuck |
| LockPrograms.LocksKeptToCommit | scripts/migration-proof/pg_deadlock_probe.py:43-57 | a step adds the lock it asks for to those held, nobody else's locks change, and only the commit, with all locks of the program held, gives them up |
| LockPrograms.ReversedPairDeadlocks | scripts/migration-proof/pg_deadlock_probe.py:63-69 | the reversed pair reaches a stuck state, and the pair in one order never does |
| LockGraph.WalkIsInlining | scripts/migration-proof/build_lock_order_graph.py:181-216 | with no chain over ten calls the seen-pruned walk yields the first occurrences of the fully inlined lock sequence, without duplicates |
| LockGraph.ExactIffWithinDepth | scripts/migration-proof/build_lock_order_graph.py:194-195 | the walk is exact on every graph whose chains have at most h calls iff h is at most ten; beyond that a chain of eleven calls hides a lock |
| LockGraph.ViolatesIffInversion | scripts/migration-proof/build_lock_order_graph.py:240-242 | the adjacent-pair test fires exactly if some earlier row lock ranks above a later one |
| LockGraph.CleanReportNeverDeadlocks | scripts/migration-proof/build_lock_order_graph.py:220-255 | transactions whose entries are reported clean can never all be stuck |
| LockGraph.LockWalk.Dfs | scripts/migration-proof/build_lock_order_graph.py:181-216 | the recursion over mutable `seen` and `seq` computes the specified walk |
| LockGraph.LockWalk.Report | scripts/migration-proof/build_lock_order_graph.py:234-242 | one entry's sequence is the first occurrences of its inlining, and the flag says whether two row locks stand in the wrong order |
| MultiDimension.CounterTable.TryAcquire | scripts/migration-proof/multitenant_acceptance.py:47-106 | refused iff some listed row is full; commits iff every listed row has room for all its entries in the list, and then each gets as many; otherwise the CHECK rolls it back, which a list without repeats never meets |
| MultiDimension.CounterTable.Release | scripts/migration-proof/multitenant_acceptance.py:109-115 | takes one from every existing listed row that is positive |
| MultiDimension.RaiseAllCounts | scripts/migration-proof/multitenant_acceptance.py:100-105 | an acquire adds to each row the number of times it is listed |
| MultiDimension.ReleaseUndoesAcquire | scripts/migration-proof/multitenant_acceptance.py:109-115 | release after acquire restores every counter |
| MultiDimensionRuns.AcquireIsAllOrNothing | scripts/migration-proof/multitenant_acceptance.py:139-145 | under every interleaving an acquire shows as one change of all its rows, at a moment when all of them have room, or not at all |
| MultiDimensionRuns.AlwaysBounded | scripts/migration-proof/multitenant_acceptance.py:171-193 | rows stay within 0..capacity over every interleaving and crash, with conditional and unconditional releases, and no row or capacity changes |
| MultiDimensionRuns.ConditionalReleaseKeepsQuota | scripts/migration-proof/multitenant_acceptance.py:118-146 | workers that hold what they were granted, or give it back after a grant: at all times holders of a row = `active` <= capacity |
| UnconditionalRelease.CountersReturnToZero | scripts/migration-proof/multitenant_acceptance.py:171-207 | with the release as it is, and with a conditional one: over every schedule no counter exceeds the number of holders of its row, so all are zero once nobody holds |
| UnconditionalRelease.OvergrantNeedsTwoMore | scripts/migration-proof/multitenant_acceptance.py:171-193 | for any lists of rows: holders of a row exceed its capacity only if it is positive and at least capacity + 2 workers list the row |
| UnconditionalRelease.OvergrantsIff | scripts/migration-proof/multitenant_acceptance.py:171-193 | for workers of one row each, over any rows, capacities and numbers of workers: some schedule overgrants a row iff the release is unconditional, the row has a unit, and at least capacity + 2 workers ask for it |
| MultiDimensionRuns.FixedOrderNeverStuck | scripts/migration-proof/multitenant_acceptance.py:126-136 | workers that list dimensions in the frozen order never all wait |
| MultiDimensionRuns.RunsFinish | scripts/migration-proof/multitenant_acceptance.py:126-193 | in the frozen order every schedule is bounded and one that cannot be extended has finished every worker |
| Gate.InferenceGate.Arrive | embedding/app/gate.py:182-230 | an arrival is counted in exactly one place (inside, waiting, queue-full, timed out) unless its priority is neither online nor background; it enters at once if a slot is free and nobody waits, enters past no waiter of as good a priority, and is queue-full exactly at the limit with a reason to wait |
| Gate.InferenceGate.Wake | embedding/app/gate.py:202-230 | one turn of the wait loop: the call enters iff a slot is free and no better ticket waits; else it times out iff the deadline has passed, leaves the queue and is counted; else it goes on waiting with nothing changed |
| Gate.InferenceGate.Release | embedding/app/gate.py:232-240 | active + completed is unchanged and one more call is completed; afterwards the best waiter, if any, enters on its next turn, deadline passed or not |
| Gate.InferenceGate.Best | embedding/app/gate.py:206-209 | the waiter with the least (priority, ticket) |
| Gate.InferenceGate.RecountWaitingLocked | embedding/app/gate.py:170-178 | the two waiting metrics are the numbers of online and other tickets |
| Gate.InferenceGate.Create | embedding/app/gate.py:119-145 | a gate exists exactly for a valid configuration |
| GateRuns.SafetyAndAccounting | embedding/app/gate.py:182-262 | in every reachable state active = calls inside the body <= observed maximum <= limit, waiting <= queue limit, and arrivals = active + completed + waiting + queue-full + timed-out |
| GateRuns.AdmissionInOrder | embedding/app/gate.py:184-217 | no step, fast path included, admits a call while one with smaller (priority, arrival) goes on waiting, or beyond the limit |
| GateRuns.NoOvertaking | embedding/app/gate.py:182-230 | over whole runs no call has entered ahead of a still waiting earlier call of the same or a better priority |
| GateRuns.FreeSlotAdmitsBest | embedding/app/gate.py:202-217 | with a free slot and a queue some waiting call enters on its next turn, deadline passed or not |
| GateRuns.RefusalHasCause | embedding/app/gate.py:193-229 | queue-full only at the queue limit with a reason to wait; timeout only if all slots are busy or a better call waits |
| GateRuns.DeadlineEndsWait | embedding/app/gate.py:202-229 | in every reachable state every waiting call can take its turn, and no turn and no arrival after the deadline leaves its call waiting |
| GateRuns.ObservedMaximumIsPeak | embedding/app/gate.py:186-217 | the observed maximum is the highest number of calls inside at any time of the run |
| Slots.SidecarWorker.InFlight | agent/src/worker.ts:100-106 | the number of entries of one kind |
| Slots.SidecarWorker.BeginLease | agent/src/worker.ts:179-191 | a reservation is made iff the kind is enabled and has a free slot, before anything is awaited |
| Slots.SidecarWorker.EndLease | agent/src/worker.ts:193-219 | the reservation is gone, a leased run has its entry, every other key keeps its entry, no kind occupies more slots than before, and no budget shrinks |
| Slots.SidecarWorker.Finish | agent/src/worker.ts:230-235 | the finished run has no entry under its id; another run's entry under that id and every other key's entry are unchanged |
| SlotRuns.SlotsStayWithinBudget | agent/src/worker.ts:179-237 | under every interleaving entries per kind stay within budget, reservations are exactly the unanswered requests, no finished run keeps an entry, and the steward budget never decreases |
| SlotRuns.RolesAreKept | agent/src/worker.ts:179-191 | a sidecar of one role never requests or runs the other kind; one of both can lease either |
| SlotRuns.StewardBudgetIsHighest | agent/src/worker.ts:264-279 | over every run the steward budget is the highest of its configured value and every limit the server sent with a steward lease |
| SlotRuns.TrackedIffFreshIds | agent/src/worker.ts:218-235 | every executing run holds its own entry throughout exactly if no lease repeats the id of an executing run |
| SlotRuns.FreshIdsFitBudget | agent/src/worker.ts:100-113 | with such leases the executing runs of a kind fit its budget in every state |
| SlotRuns.RepeatedIdOverruns | agent/src/worker.ts:218-219 | leasing one id over and over starts any number of assistants on any budget of two or more, and any number of stewards on any budget |
| SlotRuns.OverrunIff | agent/src/worker.ts:100-113 | for every configuration and kind: some run has more executing runs of the kind than its budget iff the kind is enabled with a slot and, for assistants, a second assistant or steward slot exists |
| Lifecycle.SettledAtMostTwice | agent/src/worker.ts:523-656 | for every order of events at most two settle requests, none after an acknowledged one, the second only a failure, and success only if once earned |
| Lifecycle.SuccessIffEarned | agent/src/worker.ts:529-605 | after the prompt the run reports success with a text exactly if its history earns it: no mark or block, every provider error followed by a `stop`, and the last answer that non-empty text |
| Lifecycle.FailureExplained | agent/src/worker.ts:532-590 | after the prompt the run reports nothing iff it was marked, else the first policy block, else an unresolved provider error, else the lack of an answer, exactly as the history shows |
| Lifecycle.HandlerReports | agent/src/worker.ts:606-656 | for every reachable run a failure that escapes is reported as the class of the first block if a block reached the slot, never as a sidecar error; else under its own code; and not at all after a mark or the server's cancellation |
| Lifecycle.ContextDecides | agent/src/worker.ts:376-404 | a prompt can follow the context iff it is valid, not cancelled and allowed; a cancelled one ends silently, a refused one is settled as refused by policy |
| Lifecycle.EveryRunEnds | agent/src/worker.ts:523-656 | no run awaits more than seven times, and one that is not over awaits something |
| Lifecycle.HistoryGrows | agent/src/worker.ts:440-527 | from the prompt to the end, marks and session events can come in any order and number |
| Lifecycle.StoppedRunNeverSettles | agent/src/worker.ts:529-530 | lease loss or cancel set by the check after the prompt rules out every settle request |
| Lifecycle.CanStillSettleIff | agent/src/worker.ts:523-685 | for every state, some continuation sends another settle request exactly in the stated phases: marks are read only from the prompt's set-up to the check after it, and in the handler |
| Lifecycle.StoppedRunSettlesIff | agent/src/worker.ts:529-685 | a reachable stopped run may yet settle exactly while it fetches its context, is being refused, or flushes after the check; and not once an await outside the prompt has failed |
| Lifecycle.SecondSettleIff | agent/src/worker.ts:594-656 | with one settle request sent, a second can follow iff the first is unanswered outside the handler and no mark is set; its failure sends one iff it is not the server's cancellation either |
| Lifecycle.LostAnswerSettlesTwice | agent/src/worker.ts:594-656 | from the start of a run: an applied success whose answer is lost is followed by a failed settle |
| Lifecycle.LateCancelStillSettles | agent/src/worker.ts:529-601 | from the start of a run: a cancel after the check does not stop the settle |
| Lifecycle.RefusalIgnoresLostLease | agent/src/worker.ts:664-685 | a policy refusal settles although the lease was lost during the context fetch |
| Flusher.EventFlusher.Pump | agent/src/worker.ts:700-719 | a running pump is joined; otherwise at most a batch from the head of the queue goes into flight, and in-flight ++ queued stays the same |
| Flusher.EventFlusher.Tick | agent/src/worker.ts:718-721 | the drained events go behind what is left, and an idle pump starts iff there is anything |
| Flusher.EventFlusher.AppendSucceeded | agent/src/worker.ts:702-706 | what is left is what was left before less the acknowledged batch at its head |
| Flusher.EventFlusher.AppendFailed | agent/src/worker.ts:707-712 | the queue becomes what was in flight followed by what was queued: nothing lost, nothing overtaken |
| Flusher.EventFlusher.PumpClosed | agent/src/worker.ts:715-739 | keeps in-flight ++ queued; a waiting `flushAll` returns only with nothing left and throws iff the pump failed after an earlier failure |
| Flusher.EventFlusher.FlushAll | agent/src/worker.ts:723-727 | the drained events go behind everything left; it returns at once iff nothing is left and no pump runs, otherwise a pump is running |
| Delivery.OrderedLossless | agent/src/worker.ts:687-740 | acknowledged ++ in-flight ++ queued is everything drained, the server's stream is a prefix of it that contains all acknowledged, and no append, late duplicates included, is out of sequence |
| Delivery.ReturnMeansDelivered | agent/src/worker.ts:723-739 | a normal return of `flushAll` means that the server has every event exactly once |
| Delivery.ThrowNeedsFailures | agent/src/worker.ts:729-737 | `flushAll` throws only after two failures, or one when it joined a pump that had failed |
| Delivery.SecondFailureThrows | agent/src/worker.ts:729-737 | a waiting `flushAll` tries again after a first failure and throws after a second one, with nothing removed from the queue |
| Delivery.ServerSees | backend/app/services/agent_events.py:262-320 | an append whose answer is lost, or that arrives late, is applied on the server exactly if it arrives, and its whole batch is then in the stream |
| Delivery.FlushAllReturns | agent/src/worker.ts:723-739 | from any state of a waiting `flushAll` with a failure to spare, a run without failures ends in its return |
| Delivery.StretchAccepted | backend/app/services/agent_events.py:262-320 | the server accepts any stretch of the stream that starts inside what it has, and ends with the longer of the two |
| CodePoints.FragmentsBounded | agent/src/events.ts:643-648 | fragments have between one and 2000 code points, surrogate pairs counted once |
| CodePoints.FragmentsJoin | agent/src/events.ts:643-648 | fragments in order make up the text |
| CodePoints.WholeSplits | agent/src/events.ts:643-648 | cutting between two code points of a text leaves the code points of both parts as they were |
| CodePoints.PointsAreScalars | agent/src/events.ts:643-648 | a well-formed UTF-16 text is cut into exactly its Unicode scalar values, each kept whole |
| CodePoints.PairsAreSupplementary | agent/src/events.ts:643-648 | two units make one code point iff they encode a scalar value from U+10000 on |
| EventBuffer.RunEventBuffer.OnSessionEvent | agent/src/events.ts:470-616 | one broadcast appends exactly the specified events: what was queued stays, the new ones are numbered on without a gap, held-back prose stays below 2000 units, and a silent run queues no message |
| EventBuffer.RunEventBuffer.FlushProse | agent/src/events.ts:634-649 | held-back prose becomes numbered fragments, or is dropped by a run that publishes none |
| EventBuffer.RunEventBuffer.Drain | agent/src/events.ts:618-622 | returns everything queued after flushing prose, and leaves the queue empty |
| StreamReading.DrainedShowsDirectView | agent/src/events.ts:470-622 | after any feeds and drains ending in a drain, a reader sees what one event per received delta would have shown, now and at every other event, and the numbers are consecutive from the start number, or from 1 if that is negative |
| StreamReading.RemainderStaysSmall | agent/src/events.ts:502-511 | held-back prose is below 2000 units after every event |
| StreamReading.FragmentsStaySmall | agent/src/events.ts:634-649 | no run ever produces an empty fragment or one over 2000 code points |
| StreamReading.SilentRunFilters | agent/src/events.ts:543-550 | a run that publishes no conversation produces exactly the reference stream without its message-class events, and none of that class is left |
| StreamReading.CitationsConserved | agent/src/events.ts:471-476 | each collected citation travels with exactly one assistant message, in order, or is still held |
| StreamReading.AnswersTakeCitations | agent/src/events.ts:568-573 | after any feeds and drains the held citations are those collected since the last published answer |
| StreamReading.DeliveredStreamShowsDirectView | agent/src/worker.ts:516-527 | buffer and send queue together: once `flushAll` has returned, the server's stream shows what one event per delta would have shown |
| EventReports.ReportsWhatHappened | agent/src/events.ts:470-616 | for every session, drained at any times: the reported starts, ends, answers, resets and tool calls are exactly those of the session, in order and with their data, and a compaction is reported iff one took time after the agent had started |
| PolicyGuard.RunGuard.Record | agent/src/policy.ts:505-523 | stored occurrences + dropped grow by exactly one, and a log that summed up any list of raised keys sums up that list and this key |
| PolicyGuard.RunGuard.BeforeProviderRequest | agent/src/policy.ts:597-656 | a blocked run throws its code and changes nothing; otherwise a forbidden provider, else a secret, else masked data decides the code, and a payload without these passes; the block fires `onBlock` once |
| PolicyGuard.BlockIsSticky | agent/src/policy.ts:525-558 | over any calls the block code is the class of the first violation, never changes, and `onBlock` fires once with it or not at all |
| PolicyGuard.PassesIffClean | agent/src/policy.ts:597-656 | a payload passes exactly if no violation was raised before and it shows none itself |
| PolicyGuard.BlockNamesClass | agent/src/policy.ts:525-558 | over any calls the run is blocked iff a violation was raised, under the class of the first one |
| PolicyGuard.PayloadRaises | agent/src/policy.ts:597-656 | a payload raises exactly the violations and notices it shows, in the order of the checks |
| PolicyGuard.ListsAreRaised | agent/src/policy.ts:525-560 | violations and notices are listed as they were raised, in order |
| PolicyGuard.ActionsTell | agent/src/policy.ts:525-590 | an incident's action is block for a violation, sanitize for a redaction, notice otherwise |
| PolicyGuard.DiagnosticsSummarize | agent/src/policy.ts:505-523 | the incidents are the first 64 distinct keys raised, in order, each counted exactly, and stored occurrences + dropped = total |
| Redaction.RedactString | agent/src/policy.ts:234-240 | the loop over the secrets computes the specified replacement |
| Redaction.RemovedByEveryListIff | agent/src/policy.ts:234-240 | a non-empty secret is removed from every text by every list that names it iff it does not overlap "[REDACTED]": neither contains the other, and no proper part at one end of it is the other end of the mark |
| Redaction.SecretRemovedIff | agent/src/policy.ts:234-240 | for each list on its own: a non-empty bracket-free secret in it is removed from every text iff "REDACTED" does not contain it |
| Redaction.NothingNew | agent/src/policy.ts:237 | no replacement of any secret creates a new occurrence of one that does not overlap the mark |
| Redaction.TreeIsClean | agent/src/policy.ts:233-250 | no string value of the resulting tree contains a listed secret that does not overlap the mark |
| Redaction.TreeKeepsShape | agent/src/policy.ts:241-249 | keys, array lengths and scalars are kept; only text and the values of credential keys change |
| Redaction.TreeIsStable | agent/src/policy.ts:233-250 | if no listed non-empty secret overlaps the mark, a second pass changes nothing |
| Redaction.TextAtPath | agent/src/policy.ts:233-250 | every string that no credential key hides comes out at its own path as the string method computes it, and unchanged if no secret stands in it |
| Redaction.HarmlessUnchanged | agent/src/policy.ts:233-250 | a tree with no credential key and no secret is returned as it is |
| Redaction.ReplacesLeftmost | agent/src/policy.ts:237 | replacing keeps what stands before the first occurrence, puts the mark in its place, and treats the rest the same way |
| RetryBudget.RunRetryBudget.Fetch | agent/src/retry-budget.ts:120-133 | a request reaches the inner transport exactly if it is charged, within the limit, and never when refused |
| RetryBudget.AttemptsBounded | agent/src/retry-budget.ts:4-25 | attempts of n turns stay within the run's limit and n(R+1)(S+1), for any replies and clock |
| RetryBudget.OutageCost | agent/src/retry-budget.ts:4-16 | an outage of n turns costs exactly min(limit, n(R+1)(S+1)) attempts |
| RetryBudget.TurnCosts | agent/src/retry-budget.ts:4-25 | for any replies, while there is time: a turn sends attempts until one does not fail transiently, at most (R+1)(S+1), and is answered by the last, unless the run's limit refuses first |
| RetryBudget.RefusalEndsTurn | agent/src/retry-budget.ts:110-117 | the transport is called once per attempt sent, and once more exactly if the turn ends with a refusal: neither loop retries one |
| RetryBudget.RefusalIsPermanent | agent/src/retry-budget.ts:93-97 | an attempts refusal is permanent, an elapsed refusal under a non-decreasing clock |
| RetryBudget.SticksIffClockKeepsUp | agent/src/retry-budget.ts:93-97 | for every clock and start: a new client once refused for time stays refused, whatever its limits and replies, iff the clock past the start never falls back |
| RetryBudget.AlwaysSticksIffMonotone | agent/src/retry-budget.ts:93-97 | the same for every start iff the clock never goes back |
| RetryBudget.ClockBackReopens | agent/src/retry-budget.ts:95 | for every such fall there are active limits under which the later call goes through |
| NGramIndex.BuildIndex | scripts/migration-proof/lexical_four_way_compare.py:77-81 | a document is posted under exactly its 1-, 2- and 3-grams |
| NGramIndex.Search | scripts/migration-proof/lexical_four_way_compare.py:72-91 | for an idempotent normaliser the hits are exactly the documents that share a character with the query; for texts in normal form they contain every substring match, and are exactly those for a one-character query |
| NGramIndex.IndexMissesNothing | scripts/migration-proof/lexical_four_way_compare.py:52-54 | the hits contain every substring match of a non-empty query |
| NGramIndex.AgreeIffOneCharacter | scripts/migration-proof/lexical_four_way_compare.py:52-91 | index and substring search agree on every corpus exactly for one-character queries |
| SeedLookup.AllPeople | backend/app/dev_seed.py:659-666 | everybody on the rosters exactly once, each as the first entry of that name |
| SeedLookup.EnsureUsers | backend/app/dev_seed.py:668-678 | every name resolves to its oldest live user or a new one with the listed gender, old rows stay, and nothing is added if all are there |
| SeedLookup.EnsureLinkedSpaces | backend/app/dev_seed.py:680-702 | every space name resolves; a new space belongs to the pair's administrator, a new household hangs below its lineage; old rows stay as they are |
| Seed.EnsureMembers | backend/app/dev_seed.py:704-726 | every roster is enrolled, each new member is on the roster of its space and administrator iff the pair names him, memberships stay unique, and nothing is added if all are there |
| Seed.EnsureEdges | backend/app/dev_seed.py:733-759 | every entry without a live edge gets one in its own direction, with the global fact that the elder is the parent, or the spouses are; every new edge and fact is that of an entry; at most one live edge per pair |
| Seed.EnsureSiblings | backend/app/dev_seed.py:761-785 | every sibling pair has a global fact in one direction, and every new fact is that of a pair |
| Seed.SeedFamily | backend/app/dev_seed.py:632-787 | from any database: old rows unchanged, manifest satisfied, uniqueness kept, and every new user, space, member, edge and fact the one that an entry of the manifest calls for; or rolled back on a refusal; a satisfied database is left exactly as it is |
| Seed.SeedTwice | backend/app/dev_seed.py:434-483 | a second run inserts nothing |

## Left out

- SecretRemovedIff: for one given list the exact condition is for secrets without brackets; for the others it is given over all lists (`RemovedByEveryListIff`), since in one list another secret may happen to remove what the mark would rebuild.
- TreeIsStable: stated for lists in which no secret overlaps the mark; whether another list is stable depends on the order and interplay of its secrets and is not characterised.
- CleanReportNeverDeadlocks: works on lock types, as the report does; two rows of one type are one lock here, and whether the report sees every lock of the code is not modelled.
- DeadlockFreeIffGlobalFirst: the order in which one `UPDATE ... WHERE scope IN (...)` locks its rows is a parameter, since SQL does not fix it; which initial states can get stuck under the other order is not characterised.
- TenantQuota: recovery takes one tenant's expired attempts in id order, as the single-scope script does for its one scope; a recovery that spans tenants in one transaction is not modelled.
- TrackedIffFreshIds: the lease queue that hands out run ids is not modelled, so freshness of ids is a condition on the replies.
- Search: Unicode normalisation is a parameter, of which only idempotence is used; recall against substring search is stated for texts already in normal form.
- SeedFamily: the fact service is a contract (adds the fact, or refuses a self-fact or a cycle); disclosure settings, accounts and family views of new users are not modelled, and sibling facts are not part of what counts as written, as in the source.
- OnSessionEvent: producer timing, context references and the tool-name table are not modelled; whether compaction time was spent is.
- BeforeProviderRequest: the detectors for secrets, masked data, wording and personal data are inputs; the redaction of the payload that passes is modelled apart, in `Redaction`.
- TreeKeepsShape: the credential-key pattern is a parameter, and the special key `__proto__` is not modelled.
- SettledAtMostTwice: what a run context contains is reduced to valid or not, cancelled or not, allowed or not.
- AttemptsBounded: the two retry loops are those the budget's documentation describes; backoff delays and abort are not modelled.
- SQL isolation levels other than READ COMMITTED, serialization failures, deadlock detection by the server, and index or constraint errors other than the CHECK on `ma_counters`: transactions that the server aborts are crashes here.
- The order of rows under FOR UPDATE SKIP LOCKED is by id; gaps and concurrent inserts of attempts are not modelled.
- HTTP, ONNX, threads as such, the agent SDK, routes, migrations, containers and the web front ends.
- The duplicate-tolerant `append_event` of the control proof: a single insert-or-ignore.
- Configuration range checks other than the gate's, wire-name tables, prompts and metrics summaries: finite or single-branch.
