# Undelete, verified

Undelete is a Telegram Business bot: it saves the messages of the chats a connection
reaches, tells the holder what was deleted, and erases everything on `/delete_my_data`.
This project models its hard parts in Dafny and proves what its code and its comments
promise about them. `dafny verify dfyconfig.toml` checks everything.

Three layers recur. The effect of each statement or critical section is a function on
values. Classes hold the mutable state of the original and are proved, method by method,
against those functions. Transition systems interleave the same functions over arbitrary
runs, and the theorems are about every run.

| files | what they model |
|---|---|
| `ConnectionCache`, `BusinessService` | the LRU and TTL cache with its disabled owners, and the chain cache, table, Telegram API |
| `TenantGuard`, `TenantData`, `ErasureSystem`, `ErasureRace` | the per-tenant exclusion, and the whole bot as threads interleaving single effects: resolutions, saves, deletion marks, fetch batches, outbox cycles, retention, code requests, erasures, crashes |
| `ErasureRequests`, `Erasure` | the confirmation codes, and the resumable sequence of erasure steps |
| `Outbox`, `OutboxWorker`, `OutboxRuns` | the leased job queue, one delivery, and any number of workers |
| `Dispatcher`, `DispatchRuns`, `Poller`, `PollerRuns` | the two-pass submission over bounded shard queues, the getUpdates offset, and whole runs of fetch, dispatch and acknowledgement |
| `Quotas`, `QuotaRuns` | the tenant ledgers, and admissions interleaved with unlocked resyncs |
| `Keyset`, `MediaPurge`, `MediaPurger`, `MediaSweeps` | retention over catalogue and disk, its bounded loops, its sweeps over successive runs |
| `FileTree`, `MediaErasure` | the storage tree, removal by path, the erasure of a tenant's media |
| `MediaAlerts`, `TextSplit` | the outbox entries of a deletion, and the splitting of texts into messages |

## Results worth reading first

- **An erased tenant stays erased** (`ErasureSystem.ErasedStaysErased`). In every
  interleaving, crashes and stale reads included, once a confirmation completed: no
  message, chat label, outbox row, media row or file of the tenant exists and no alert of
  it is sent, for as long as no enabled upsert or store of that holder runs after its rows
  were disabled. The exception is real: `ErasureRace.AnEnabledStoreInFlightRevivesTheTenant`
  is a concrete run in which an update read before the erasure is published after it, and
  the next message is saved although every row of the tenant is still disabled.
- **The poller can pass an update no worker received.** When the context is cancelled in
  the first submission pass, only the slots from the current one on are marked; an update
  deferred earlier keeps a nil error. `Poller.OffsetSkipsIffAbortedOverADeferral` proves
  that this branch is exactly when the offset skips an update, and
  `Poller.OffsetCanSkipAnUpdate` is a concrete run of 34 updates that takes it. The
  comment on `Dispatch` says otherwise; the model follows the code. Over a whole run of
  any number of batches that branch of the last Dispatch is still the only way
  (`PollerRuns.NothingIsSkipped`).
- **A repair can orphan a thumbnail.** No purge step turns a referenced file into an
  unreferenced one, except the requeue or write-off of a row whose file is missing while
  its thumbnail is not (`MediaPurge.StepsOrphanOnlyThumbnails`, both directions, with a
  concrete case). Nothing writes thumbnails today.
- **Interrupted purges converge** (`MediaPurge.InterruptedRunsConverge`): from a catalogue
  without thumbnails, any sequence of single effects at one instant, cut anywhere and any
  number of times, followed by one pass, arrives where one uninterrupted pass would have.
  No catalogue has a thumbnail today: the fetcher never sets one
  (`bot/internal/media/fetch/fetch.go:225-229`). With thumbnails it is false: an expired row
  repaired before the retention phase reached it loses its thumbnail to the grace period
  (`MediaPurge.ARepairOutOfPhaseDiverges`), exactly as `MediaPurge.WhenOutOfPhaseDiverges`
  says; a run takes that step when the retention phase stops at its bound.
- **A file that arrives late does not travel** (`MediaAlerts.EveryStoredFileTravelsOnce`).
  The entry of an album is made by the first processing of the deletion that finds any of
  its files; one downloaded after that is in no entry, however often the deletion is
  processed again.
- **An erasure touches one tenant** (`Erasure.ConfirmationTouchesOneTenant`,
  `ErasureSystem.EachEventTouchesOneTenant`): wherever it stops, and in every interleaving,
  every row, file and connection of every other tenant is there after it exactly if it was
  before.
- **The steps are the chain** (`ErasureSystem.UndisturbedResolutionIsTheChain`): the
  resolution the concurrent system interleaves step by step is, left alone, the sequential
  one proved of the in-place cache.
- **A source outage fails open for unseeded ledgers only**
  (`Quotas.AnOutageFailsOpenOnlyUnseeded`): the package comment says the tracker fails
  open; a tenant already seeded at its limit is refused.

## Model

| member | source | states |
|---|---|---|
| ConnectionCache.Cache.LookupEntry | bot/internal/business/cache.go:116-131 | the in-place map and list answer and change exactly as the most-recent-first sequence does; an expired entry is dropped on the way |
| ConnectionCache.Cache.PutEntry | bot/internal/business/cache.go:202-222 | a put overwrites or inserts at the front and evicts at most the last entry; map and list stay in bijection |
| ConnectionCache.Cache.Trim | bot/internal/business/cache.go:216-221 | one eviction restores the bound and unlinks the entry from the map too |
| ConnectionCache.Cache.Remove | bot/internal/business/cache.go:258-262 | an entry leaves the map and the list together, the rest keeping their order |
| ConnectionCache.Cache.StoreConnection | bot/internal/business/cache.go:144-154 | a published connection sets or clears the mark of its whole owner, then is put |
| ConnectionCache.Cache.StoreFromDB | bot/internal/business/cache.go:171-188 | a row read from the table never overwrites a disabled entry, and is downgraded for a marked owner |
| ConnectionCache.Cache.StoreUnknown | bot/internal/business/cache.go:191-193 | an unknown connection is memoised |
| ConnectionCache.Cache.StoreRefused | bot/internal/business/cache.go:198-200 | a refused holder is memoised |
| ConnectionCache.Cache.DisableOwnerEntries | bot/internal/business/cache.go:235-246 | every cached connection of the owner is patched in place and the owner is marked, in any map order |
| ConnectionCache.RunWellFormed | bot/internal/business/cache.go:202-262 | over any operations: distinct ids, at most max entries |
| ConnectionCache.MarksOfAStep | bot/internal/business/cache.go:144-246 | an owner is marked by its disable or a disabled store, and unmarked by an enabled store of its own only |
| ConnectionCache.OnlyThatOwnerIsDisabled | bot/internal/business/cache.go:235-246 | a disable turns what is answered of that owner's connections from enabled to disabled and changes no other answer |
| ConnectionCache.WhatAReadMemoises | bot/internal/business/cache.go:171-188 | a row read is served as it is within the TTL, disabled if its owner is marked, and never over a cached disabled entry |
| ConnectionCache.DisabledOwnerNeverResolvesEnabled | bot/internal/business/cache.go:116-246 | after a disable, over any later operations but an enabled store of that owner, no lookup returns an enabled connection of it, stale reads included |
| ConnectionCache.ReconnectResolvesEnabled | bot/internal/business/cache.go:144-154 | the exception is needed: an enabled store is served at once |
| ConnectionCache.HitIsLastPutAndFresh | bot/internal/business/cache.go:116-131 | a hit is the last verdict put for that id, as disables patched it since, and is younger than the TTL |
| ConnectionCache.ListIsSortedByLastUse | bot/internal/business/cache.go:116-222 | after any history the list is sorted by last use |
| ConnectionCache.EvictsTheLeastRecentlyUsed | bot/internal/business/cache.go:209-222 | a put of a new id into a full cache drops exactly the entry used longest ago |
| ConnectionCache.RetainedWhileFewOthersAreUsed | bot/internal/business/cache.go:202-222 | an entry is not lost before its TTL while fewer than max other ids are touched |
| BusinessService.UpsertKeepsOwners | bot/internal/business/service.go:437-483 | a report is taken exactly if it is complete, its holder admitted and the connection new or already theirs; it then rewrites that one row; no row ever changes owner and no user its id |
| BusinessService.DisableRowsDisablesOneHolder | bot/internal/business/service.go:302-318 | a disable turns off the connections of that holder, otherwise as they were, and changes nobody else's |
| BusinessService.WhatAResolutionAnswers | bot/internal/business/service.go:176-264 | who answers and what: a live cache entry, else the row as it is, else what Telegram reports of that very id; holders off the allowlist are refused whoever answers |
| BusinessService.Service.Resolve | bot/internal/business/service.go:176-264 | the chain over the in-place cache has exactly the effects and the answer of the specified chain |
| BusinessService.Service.ResolveThroughApi | bot/internal/business/service.go:222-264 | the last resort: unknown ids and refused holders are memoised, other failures are not |
| BusinessService.Service.HandleBusinessConnection | bot/internal/business/service.go:365-394 | an update upserts, then publishes what it upserted |
| BusinessService.Service.DisableOwner | bot/internal/business/service.go:302-318 | the table first, then the cache; a failed update leaves both alone; the count is that of the enabled rows |
| BusinessService.ResolutionFollowsTheTable | bot/internal/business/service.go:176-264 | whatever path answers names that very id, of an admitted holder, with the owner the table has always had for it |
| BusinessService.DisabledOwnerResolvesDisabled | bot/internal/business/service.go:176-318 | after a disable only an enabled report of that holder makes a resolution answer enabled |
| TenantGuard.Guard.ForTenant | bot/internal/tenantexcl/guard.go:59-71 | one lock per tenant, created once, changing nobody's holdings |
| TenantGuard.Guard.Shared | bot/internal/tenantexcl/guard.go:77-105 | an attempt is cancelled exactly if its context ended, waits exactly while a writer holds the lock, and otherwise adds a reader of that tenant only; cancelled or waiting it takes nothing |
| TenantGuard.Guard.Exclusive | bot/internal/tenantexcl/guard.go:77-114 | the same for the writer, whom any holder makes wait |
| TenantGuard.Guard.Release | bot/internal/tenantexcl/guard.go:77-96 | a release gives back that side of that tenant's lock |
| ErasureSystem.NextKeepsInv | bot/internal/app/handler.go:394-566 | every step of every thread, crash and retention keep the invariant tying locks, phases, table, cache, requests and data |
| ErasureSystem.RunInv | bot/internal/erasure/erasure.go:315-403 | the invariant holds in every reachable state |
| ErasureSystem.ErasureRunsAlone | bot/internal/tenantexcl/guard.go:98-114 | while an erasure of a tenant runs, no unit of that tenant and no second erasure does |
| ErasureSystem.NoLockIsLeaked | bot/internal/tenantexcl/guard.go:77-96 | once every thread is idle every lock is free, abandoned acquisitions included |
| ErasureSystem.WritesStayInTheirTenant | bot/internal/app/handler.go:520-566 | rows and files of a tenant appear only by a thread holding that tenant's shared lock, and never once it is erased |
| ErasureSystem.EachEventTouchesOneTenant | bot/internal/app/handler.go:394-566 | in every run an event does what it does to one tenant: for every other, each message, chat, alert, media row and file is there after exactly if it was before |
| ErasureSystem.WhatAUnitWrites | bot/internal/app/handler.go:520-566 | each unit writes just its row, alert or file, for the tenant whose lock it holds; only media rows are fetched and only queued alerts delivered |
| ErasureSystem.WhatAnIssueWrites | bot/internal/erasure/erasure.go:278-301 | an issued code is the only pending one, for ten minutes, unless its hash is spent |
| ErasureSystem.WhatAStageWrites | bot/internal/erasure/erasure.go:363-403 | each stage of an erasure takes away its own part and goes on to the next; an error releases the lock |
| ErasureSystem.WhatAResolutionLeadsTo | bot/internal/app/handler.go:394-430 | a message is saved only under a connection enabled and within the quota, resolved twice; a deletion is handled either way |
| ErasureSystem.WhatACancelledWaitLeaves | bot/internal/tenantexcl/guard.go:77-96 | a cancelled wait leaves an acquisition that goes through and is released at once |
| ErasureSystem.UndisturbedResolutionIsTheChain | bot/internal/business/service.go:176-264 | a resolution whose steps nobody interleaves with does exactly what the whole chain is specified to do: same tables, cache and outcome |
| ErasureSystem.UnitStepOk | bot/internal/media/fetch/fetch.go:121-233 | the units under the shared lock (save, catalogue, mark, fetch, deliver, purge) keep the invariant and every other thread's facts |
| ErasureSystem.IssueStep | bot/internal/erasure/erasure.go:278-300 | so does issuing a code, under the shared lock |
| ErasureSystem.LookupStep | bot/internal/business/service.go:176-200 | a lookup by any thread, under a lock or not, keeps them too |
| ErasureSystem.MemoiseStep | bot/internal/business/cache.go:171-188 | so does the memoisation of a row read before a disable |
| ErasureSystem.CompletionLeavesOnlyTheReceipt | bot/internal/erasure/erasure.go:363-403 | on completion the tenant has no data, one completed and scrubbed request, and, absent a later enabled upsert or store, only disabled connections |
| ErasureSystem.ErasedStaysErased | bot/internal/erasure/erasure.go:315-403 | over every run: no data, no enabled connection and no alert of the tenant after its completed erasure, until an enabled upsert or store |
| ErasureRace.AnEnabledStoreInFlightRevivesTheTenant | bot/internal/business/service.go:365-376 | a concrete run of 21 steps in which an enabled store of an update read earlier brings an erased tenant back, its rows still disabled |
| ErasureRequests.Repository.IssueCode | bot/internal/erasure/repository.go:42-66 | a new code replaces the pending one or is added; a spent hash is refused |
| ErasureRequests.Repository.ClaimCode | bot/internal/erasure/repository.go:79-130 | unknown, expired, granted, resumable and completed are told apart, and only a grant writes |
| ErasureRequests.CompletionIsFinal | bot/internal/erasure/repository.go:144-160 | completion happens once: over any later operations the completed row is exactly as it was, or gone |
| ErasureRequests.CompletedAreScrubbed | bot/internal/erasure/repository.go:144-160 | in every run a completed row names neither user nor connection and has its date, and no other row has one |
| ErasureRequests.Repository.DeleteOtherCodes | bot/internal/erasure/repository.go:167-184 | every other row of the tenant goes, with the right count |
| ErasureRequests.AFreshCodeReplacesThePending | bot/internal/erasure/repository.go:42-66 | after an issue the rows are the ones not pending and the new one, good for ten minutes; only a spent hash is refused |
| ErasureRequests.WhatAClaimDoes | bot/internal/erasure/repository.go:79-130 | granted exactly while pending and before its end, which spends it; nothing else is ever written |
| ErasureRequests.RunKeepsUnique | bot/internal/erasure/repository.go:42-184 | over every run at most one code is pending and hashes are distinct |
| ErasureRequests.PendingIsTheLastIssued | bot/internal/erasure/repository.go:42-66 | the pending code is always the last one handed out |
| ErasureRequests.GrantIsLastIssuedAndUnexpired | bot/internal/erasure/repository.go:79-130 | a grant goes to the last code handed out, inside its window |
| ErasureRequests.SpentStaysSpent | bot/internal/erasure/repository.go:79-160 | a granted code is never pending again |
| ErasureRequests.GrantedAtMostOnce | bot/internal/erasure/repository.go:79-130 | with fresh codes, no code is granted twice, whatever is submitted |
| ErasureRequests.DeleteOthersLeavesOne | bot/internal/erasure/repository.go:167-184 | what remains is exactly the row of the code confirmed |
| Erasure.Service.Erase | bot/internal/erasure/erasure.go:363-403 | the steps run in order and stop at the first failure, leaving exactly their prefix, store by store; a failing media step leaves the files and the rows it had not come to; no row or file of another tenant goes |
| Erasure.ConfirmationTouchesOneTenant | bot/internal/erasure/erasure.go:315-403 | whatever its outcome and wherever it stops, a confirmation leaves every message, chat, alert, media row, file and connection of every other tenant; once through nothing of its own is left |
| Erasure.AnswerOfAConfirmation | bot/internal/erasure/erasure.go:315-358 | unknown, expired, erased or already erased, as the row of the code says |
| Erasure.Service.Confirm | bot/internal/erasure/erasure.go:315-358 | a confirmation over the in-place stores is the specified one, and leaves the data and the connections of every other tenant as they were |
| Erasure.StepsShape | bot/internal/erasure/erasure.go:363-403 | after any number of steps: connections disabled first, then no alert, no media row or file, no message or chat, no other request of the tenant, then the scrubbed receipt, everything of the others untouched |
| Erasure.CleanRunIsDone | bot/internal/erasure/erasure.go:315-403 | an uninterrupted run from anywhere in an erasure finishes it: nothing of the tenant, everything of the others, one receipt |
| Erasure.ResubmittedStaysUnderway | bot/internal/erasure/erasure.go:278-358 | any number of interrupted resubmissions, with codes issued or tried in vain and data captured in between, stay resumable |
| Erasure.ResumedErasureEndsLikeACleanOne | bot/internal/erasure/erasure.go:278-403 | however often it was interrupted, and whatever was issued, tried or captured in between, the run that goes through ends where one uninterrupted run ends, even past the window of the code |
| Erasure.ReplayChangesNothing | bot/internal/erasure/erasure.go:315-358 | replaying a finished code deletes nothing again |
| Outbox.Repository.Insert | bot/internal/outbox/repository.go:57-72 | the anti-duplicate key stays unique; a taken key inserts nothing |
| Outbox.Repository.Claim | bot/internal/outbox/repository.go:91-152 | the row claimed is the first due one, in order, that no earlier chunk holds back; none is missed when it answers none |
| OutboxRuns.SentIsFinal | bot/internal/outbox/repository.go:156-166 | an acknowledgement as sent within its lease is final: in every later state of every run the row is as it left it, or gone |
| OutboxRuns.RetryWaits | bot/internal/outbox/repository.go:171-183 | a retried row waits unchanged, one attempt spent, until its delay is over; what first changes it then is a claim |
| OutboxRuns.FailedResweeps | bot/internal/outbox/repository.go:190-202 | a failed row holds back no chunk from then on, rests six hours unchanged, and is taken up again by a claim that restarts its attempts |
| Outbox.Repository.DeleteTenant | bot/internal/outbox/repository.go:258-272 | empties the tenant's outbox and counts it |
| Outbox.Repository.PurgeExpired | bot/internal/outbox/repository.go:274-295 | exactly the old sent and failed rows go, counted |
| Outbox.TheLongestOverdueGoesFirst | bot/internal/outbox/repository.go:91-152 | of the rows that may go, unsent, due, unleased, earlier chunks sent or failed, the one overdue the longest is taken |
| Outbox.WhatRetentionTakes | bot/internal/outbox/repository.go:274-295 | exactly the sent and failed rows inserted before the cutoff |
| Outbox.NoAlertIsStuck | bot/internal/outbox/repository.go:91-152 | once its deadlines passed, the lowest unsent chunk of a message is claimable in any table |
| OutboxRuns.ChunksGoInOrder | bot/internal/outbox/repository.go:91-152 | in every reachable state a chunk on its way or sent was claimed when every earlier chunk of its message was sent or failed; an earlier one in the fast lane now was inserted since, or failed and was swept up again since |
| OutboxWorker.DeliveryIsNeverLost | bot/internal/outbox/worker.go:238-341 | a media alert whose text goes out is acknowledged as sent on any attempt exactly if its files went out or its upload ended in unsupported, missing, too large, unsafe path or a 4xx but 429; any other error keeps the files for a retry |
| OutboxWorker.ErrorsAreSortedOut | bot/internal/outbox/worker.go:163-221 | a 4xx but 429, or the tenth attempt, fails; other errors are retried after 1, 2, ... 256 seconds, a 429 after the delay it names, a day at most; a shutdown leaves the lease |
| OutboxWorker.RetriesStayInTheFastLane | bot/internal/outbox/worker.go:190-221 | at most nine retries, of 2^attempts seconds unless the server throttles |
| OutboxWorker.Worker.ProcessOne | bot/internal/outbox/worker.go:123-221 | one cycle changes the claimed row only, as the result of the delivery decides |
| OutboxRuns.NextKeepsInv | bot/internal/outbox/repository.go:91-202 | claims, sends, acknowledgements, insertions, retention and erasure keep the queue's invariant |
| OutboxRuns.WhatEventsDo | bot/internal/outbox/repository.go:57-72 | an insertion leaves a row of its key, at once due; an erasure leaves none; retention takes old settled rows; nothing else but a claim or an acknowledgement changes the table |
| OutboxRuns.EveryReachableRow | bot/internal/outbox/worker.go:190-221 | sent only after a send succeeded, processing exactly with a lease, at most ten attempts, at most 511 seconds waited in an unthrottled fast lane |
| OutboxRuns.UnsentLeavesOnlyByErasureOrRetention | bot/internal/outbox/repository.go:258-295 | an unsent row leaves only by the tenant's erasure, or by retention once failed |
| OutboxRuns.AttemptsRestartOnlyFromFailed | bot/internal/outbox/repository.go:91-152 | attempts go back only when a failed row is claimed, and then to zero |
| OutboxRuns.LeaseIsExclusive | bot/internal/outbox/repository.go:91-152 | until a lease ends or its own worker acknowledges, the row stays as the claim left it and no claim takes it |
| OutboxRuns.StaleAcknowledgementChangesNothing | bot/internal/outbox/repository.go:305-313 | over every run an acknowledgement under a superseded lease changes nothing |
| OutboxRuns.EachLeaseIsAcknowledgedOnce | bot/internal/outbox/repository.go:156-202 | of two acknowledgements under one lease at most one has an effect |
| OutboxRuns.NoReachableAlertIsStuck | bot/internal/outbox/repository.go:91-152 | in every reachable state with its deadlines passed, an idle worker can claim the lowest unsent chunk |
| Dispatcher.NextKeepsInv | bot/internal/telegram/shard.go:149-282 | every step of submission, collection and workers, cancellations included, keeps the invariant on order, submission and slots |
| Dispatcher.PartitionsAreChatsAndConnections | bot/internal/telegram/shard.go:31-61 | two updates share a partition exactly if they are updates of one connection, messages, edits or deletions of one chat, or one unknown update |
| DispatchRuns.ShardsTakeAPrefixInOrder | bot/internal/telegram/shard.go:149-254 | what a worker took is always a prefix, in order, of the batch restricted to its shard |
| DispatchRuns.EachUpdateIsTakenOnce | bot/internal/telegram/shard.go:149-254 | no update is taken twice, by one worker or two |
| DispatchRuns.DeletionNeverOvertakesItsSave | bot/internal/telegram/shard.go:31-70 | of two updates of one chat in a batch the second is handled only once the first has been |
| DispatchRuns.NeverDeadlocks | bot/internal/telegram/shard.go:198-282 | until Dispatch returns some step other than a cancellation is possible, the bounded queues notwithstanding |
| DispatchRuns.EveryDispatchIsBounded | bot/internal/telegram/shard.go:198-282 | a run on n updates has at most 5n + 5 steps besides cancellations |
| DispatchRuns.UncancelledDispatchReportsEveryHandler | bot/internal/telegram/shard.go:177-254 | uncancelled, slot i is what the handler of update i returned, and every queue and worker is left idle |
| DispatchRuns.SlotsNeverLie | bot/internal/telegram/shard.go:259-282 | after any cancellation a slot is a true result, a context error of a submitted update, the mark of one never submitted, or nil for one deferred before a first-pass abort |
| Poller.Poller.Acknowledge | bot/internal/telegram/poller.go:175-196 | the loop moves the offset past the slots before the first unsubmitted one, handler errors included |
| Poller.OffsetPassesExactly | bot/internal/telegram/poller.go:175-196 | an update is passed exactly if nothing up to it is marked unsubmitted, and the offset never goes back |
| Poller.UncancelledBatchIsPassed | bot/internal/telegram/poller.go:160-196 | an uncancelled batch is always passed entirely, whatever the handlers returned |
| Poller.OffsetSkipsIffAbortedOverADeferral | bot/internal/telegram/shard.go:213-250 | the offset passes an update no worker will see exactly if the first pass was aborted with an update deferred |
| Poller.OffsetCanSkipAnUpdate | bot/internal/telegram/shard.go:226-231 | a concrete run that does so |
| PollerRuns.NothingIsSkipped | bot/internal/telegram/poller.go:125-198 | over a whole run, however many batches, every update the final offset passes was received, exactly unless the last Dispatch was aborted in its first pass over a deferral |
| PollerRuns.RoundsAreConsecutive | bot/internal/telegram/poller.go:160-196 | each turn fetches from exactly where the one before stopped |
| PollerRuns.HandledByOneTurn | bot/internal/telegram/poller.go:160-196 | no update is started by two turns |
| PollerRuns.PartitionsAreSequential | bot/internal/telegram/poller.go:24-44 | over a whole run, of two updates of one partition the second starts only once the first was handled, in its own turn or an earlier one |
| PollerRuns.DeletionFollowsItsSave | bot/internal/telegram/poller.go:24-44 | so a deletion never overtakes its save, across any number of batches |
| PollerRuns.ConnectionsAreSequential | bot/internal/telegram/shard.go:42-61 | of two updates of one connection the second starts only once the first was handled, across any number of batches |
| PollerRuns.ChatsAreSequential | bot/internal/telegram/shard.go:31-61 | and so for any two messages, edits or deletions of one chat |
| Quotas.ThresholdIsThePercentage | bot/internal/quotas/quotas.go:179-182 | the threshold is the rounded-down percentage and no product overflows 64 bits |
| Quotas.PruneBefore | bot/internal/quotas/quotas.go:550-564 | in place: the kept stamps are those after the cutoff, in order, and the freed tail is zeroed |
| Quotas.Tracker.EvictOldest | bot/internal/quotas/quotas.go:513-523 | drops one least recently seen tenant |
| Quotas.Tracker.Touch | bot/internal/quotas/quotas.go:493-508 | the ledger is there, at most one other was evicted for it, never more than 4096 |
| Quotas.AfterAResyncTheSourceDecides | bot/internal/quotas/quotas.go:447-489 | after a reading a unit is allowed exactly if the reading is under the limit, a memoised refusal survives exactly if it is not, a warning re-arms exactly if it is under the threshold, and the rate window is untouched |
| Quotas.TheLastResyncStands | bot/internal/quotas/quotas.go:447-489 | of two readings the later one's counts stand, and a block or warning must survive both; a failed one changes nothing |
| Quotas.Tracker.AdmitVolume | bot/internal/quotas/quotas.go:363-408 | one admission alone: seeding, decision, re-verification, on its own ledger only |
| Quotas.Tracker.AdmitCapture | bot/internal/quotas/quotas.go:265-283 | refused for the rate exactly if the cap or more of the tenant's captures lie in the last 60 seconds; rate before volume, and a refused volume keeps the rate spent |
| Quotas.EachQuotaHasItsLimit | bot/internal/quotas/quotas.go:363-408 | messages, files and bytes each under their own limit, by the ledger or by what the source then reads |
| Quotas.AnAdmittedUnitIsCounted | bot/internal/quotas/quotas.go:413-440 | a unit is counted once in its own kind and nothing else changes; it warns exactly on reaching the percentage of the limit, once |
| Quotas.AFreshRefusalIsMemoised | bot/internal/quotas/quotas.go:386-408 | a fresh refusal always warns and holds for a minute |
| Quotas.ALookChangesOneLedger | bot/internal/quotas/quotas.go:493-523 | a new tenant starts empty and unseeded, and only among 4096 others takes the place of the one seen longest ago |
| Quotas.AnOutageFailsOpenOnlyUnseeded | bot/internal/quotas/quotas.go:363-408 | with the source down, admission is allowed exactly if the ledger is unseeded or under its limit |
| Quotas.TheDeadlineReadmits | bot/internal/quotas/quotas.go:386-407 | before its deadline a refusal is memoised; from it on the source alone decides |
| QuotaRuns.SeededCountsStayBounded | bot/internal/quotas/quotas.go:363-523 | over every interleaving a seeded count exceeds neither its limit nor what the last resync read, whichever is larger, and ledgers stay bounded |
| QuotaRuns.EveryRefusalIsAtTheLimit | bot/internal/quotas/quotas.go:363-440 | a volume is refused only by a seeded ledger at its limit, and counted once when allowed |
| QuotaRuns.CapturesNeverExceedTheRate | bot/internal/quotas/quotas.go:265-283 | over every interleaving in which this tenant's rate checks run in the order of their instants, its captures `cap` places apart are a minute apart, and the pruned list is the last minute of the history |
| QuotaRuns.AWindowHoldsAtMostTheCap | bot/internal/quotas/quotas.go:265-283 | hence in every reachable state no minute, wherever it starts, holds more of the captures of a tenant's ledger than its cap |
| QuotaRuns.TheRateCheckIsExact | bot/internal/quotas/quotas.go:265-283 | over every interleaving a capture is let through exactly if fewer than the cap of the tenant's captures lie in the 60 seconds up to it |
| QuotaRuns.WhatAStepCounts | bot/internal/quotas/quotas.go:265-440 | an allowed message or file is counted once in its own count, stored bytes as they are, and a look or a rate check nothing |
| QuotaRuns.OneWarningPerCrossing | bot/internal/quotas/quotas.go:413-489 | between two threshold warnings there is a resync under the threshold, or an eviction |
| Keyset.ListPage | bot/internal/media/repository.go:482-567 | the bounded page after a cursor: lowest ids first, nothing skipped |
| Keyset.PageGoesOn | bot/internal/media/repository.go:507-536 | the next page repeats and skips nothing, whatever the visit changed behind the cursor |
| MediaPurge.WithinRetention | bot/internal/media/purge/purge.go:722-797 | within its days of retention a stored row whose file is on disk is unchanged, and one whose file is gone ends pending, without file or thumbnail, its capture time kept |
| MediaPurge.PastRetention | bot/internal/media/purge/purge.go:608-664 | past them it ends purged, unless what is at its path is not a regular file |
| MediaPurge.RowsWithoutFile | bot/internal/media/purge/purge.go:670-708 | a pending row goes past its retention or after 48 hours, a purged one past its retention and a week after its purge; otherwise each is left alone |
| MediaPurge.FilesOfAPass | bot/internal/media/purge/purge.go:814-994 | a regular file is left exactly if no expired row takes it and a row that is left names it or it is less than a day old |
| MediaPurge.APassRepairs | bot/internal/media/purge/purge.go:355-372 | after a pass every stored row finds something at its path, and every file left is referenced, young or refused |
| MediaPurge.PassIsIdempotent | bot/internal/media/purge/purge.go:355-372 | a second pass at the same instant does nothing |
| MediaPurge.StepsOrphanOnlyThumbnails | bot/internal/media/purge/purge.go:608-797 | a single effect turns a referenced file into an unreferenced one exactly when it repairs a row whose thumbnail is still there and named by no other |
| MediaPurge.ARepairCanOrphanAThumbnail | bot/internal/media/purge/purge.go:766-784 | that case, concretely |
| MediaPurge.InterruptedRunsOrphanNothing | bot/internal/media/purge/purge.go:596-797 | over runs cut anywhere, from a catalogue without thumbnails, no referenced file becomes unreferenced |
| MediaPurge.InterruptedRunsConverge | bot/internal/media/purge/purge.go:355-372 | from a catalogue without thumbnails, any interrupted run at one instant, rerun, arrives where one uninterrupted pass does |
| MediaPurge.OutOfPhaseDiverges | bot/internal/media/purge/purge.go:766-784 | with thumbnails, one repair of an expired row whose thumbnail is on disk changes where the pass arrives exactly if that pass then keeps the thumbnail |
| MediaPurge.WhenOutOfPhaseDiverges | bot/internal/media/purge/purge.go:766-784 | read off the state before the pass: exactly if no expired row unlinks the thumbnail, and it is young or named by a row that keeps its own file |
| MediaPurge.AloneItDivergesWhileYoung | bot/internal/media/purge/purge.go:766-784 | with a thumbnail no other row names, exactly while it is within its grace |
| MediaPurge.ARepairOutOfPhaseDiverges | bot/internal/media/purge/purge.go:355-372 | that case, concretely |
| MediaPurge.RetentionFirstPutsRepairsInPhase | bot/internal/media/purge/purge.go:355-372 | after two phases that reached no bound, and any repairs since, no repair diverges: the order of the phases protects convergence even with thumbnails |
| MediaPurger.Purger.RemoveFiles | bot/internal/media/purge/purge.go:1003-1022 | file then thumbnail, a refusal on either reported |
| MediaPurger.Purger.PurgeExpired | bot/internal/media/purge/purge.go:608-664 | uncapped, one visit per expired row in id order, refused rows skipped but left; capped, five thousand visits |
| MediaPurger.Purger.DeleteWhere | bot/internal/media/purge/purge.go:679-706 | batches of the lowest ids go until a short one, so none is left, or until the bound, after five thousand |
| MediaPurger.Purger.PurgeRows | bot/internal/media/purge/purge.go:670-708 | only stale pending and long-purged rows go, and all of them unless capped |
| MediaPurger.Purger.ReconcileRows | bot/internal/media/purge/purge.go:722-797 | one run is one page of at most a thousand stored rows from the cursor, each repaired by age if its file is missing |
| MediaPurger.Purger.SweepBatch | bot/internal/media/purge/purge.go:950-994 | of a batch exactly the unreferenced files past their grace go |
| MediaPurger.Purger.ReconcileDisk | bot/internal/media/purge/purge.go:814-940 | files are examined once, in order, past the cursor; complete runs start over, others resume after the last one examined |
| MediaPurger.Purger.RunTenant | bot/internal/media/purge/purge.go:355-372 | the four phases in their order, each over what it came to, whatever bound stops it; from both cursors at the start and no bound reached a pass; with fewer than a thousand rows and files and walks of 200000 entries, folders included, no bound is reached |
| MediaSweeps.StableRowsAreInspectedOnce | bot/internal/media/repository.go:507-536 | over a sweep of several runs, whatever else changes, a row stored throughout is inspected exactly once |
| MediaSweeps.SweepsAreBounded | bot/internal/media/purge/purge.go:722-797 | over n stable stored rows a sweep takes at most n/1000 + 1 runs |
| FileTree.EraseTree | bot/internal/media/purge/purge.go:529-585 | the recursive erasure leaves the specified residue, counts the files, and refuses something exactly if something is left |
| FileTree.FilesAreCounted | bot/internal/media/purge/purge.go:529-585 | the count is the number of paths with a regular file |
| FileTree.LeavesIffHoldsIrregular | bot/internal/media/purge/purge.go:529-585 | a node survives exactly if something irregular is at or below it |
| FileTree.ExactlyTheIrregularSurvives | bot/internal/media/purge/purge.go:522-585 | at every path: only irregular entries and the directories holding them survive, symlinks untouched |
| MediaErasure.Storage.RemoveRel | bot/internal/media/purge/saferemove.go:106-201 | removed, absent or refused, as the path and what is on it decide; only a removal changes the tree |
| MediaErasure.RemovalIsContained | bot/internal/media/purge/saferemove.go:97-139 | a removal is of one regular file under the tenant's own directory, through genuine directories, and moves nothing else |
| MediaErasure.FilesOfTheTenantAreRemovable | bot/internal/media/purge/saferemove.go:97-139 | every regular file below the tenant's directory is removed by its path |
| MediaErasure.UnlinkedAt | bot/internal/media/purge/saferemove.go:161-201 | what unlinking one path does to every other path |
| MediaErasure.Storage.EraseTenantTree | bot/internal/media/purge/purge.go:487-520 | succeeds exactly if the subtree is absent or a genuine directory holding nothing irregular; below it only what is irregular, and the directories that hold it, is left |
| MediaErasure.Storage.EraseTenant | bot/internal/media/purge/purge.go:413-466 | success means no row, no entry, and no row that named anything outside the subtree or irregular; rows go only once their files are gone; other tenants' paths never change; nothing refusable at the start means success |
| MediaAlerts.SelectAlbumAnchors | bot/internal/media/repository.go:347-375 | each album's anchor is its smallest message in the batch, whatever is on disk |
| MediaAlerts.GroupMedia | bot/internal/messages/media_alerts.go:112-151 | one group per album or lone-media message, holding all its files in order |
| MediaAlerts.Outbox.InsertTexts | bot/internal/messages/repository.go:199-230 | every text chunk has its slot and the counts are right, overwriting nothing |
| MediaAlerts.Outbox.EnqueueMedia | bot/internal/messages/media_alerts.go:62-88 | one entry per group on the chunk after its anchor's texts, overwriting nothing |
| MediaAlerts.Outbox.MarkDeleted | bot/internal/messages/repository.go:148-247 | a deletion inserts the text chunks and the entries due, and nothing else |
| MediaAlerts.ReplaysNeverDuplicate | bot/internal/messages/media_alerts.go:37-151 | over any replays, downloads changing between them, one entry at most per album or message, never on a text slot |
| MediaAlerts.EveryStoredFileTravelsOnce | bot/internal/messages/media_alerts.go:62-88 | after any processing, first or replayed, that finds a file on disk: its album or message has the one entry made by the first processing that found any of its files, in order; the file is in it exactly if it was on disk then, and in no other |
| MediaAlerts.AFileTravelsWithItsAlbum | bot/internal/messages/media_alerts.go:62-151 | its entry is right after the text chunks of the first message of its album, or of its own, and holds exactly the files of that album or message then on disk, by message and index |
| TextSplit.SplitTelegramText | bot/internal/telegram/alerts.go:536-558 | a greedy partition: no chunk over the limit but a single too wide code point, and each would overflow with the next one |
| TextSplit.ParagraphSegments | bot/internal/telegram/alerts.go:494-512 | the text cut exactly where blank-line separators end |
| TextSplit.SplitPolicyText | bot/internal/telegram/alerts.go:454-488 | a greedy partition cut after separators, or inside a paragraph too long for one message only |
| TextSplit.PartitionsJoin | bot/internal/telegram/alerts.go:446-453 | joining the chunks gives back the text |
| TextSplit.LabelsFit | bot/internal/telegram/alerts.go:115-121 | the last label is the widest, and takes at most 58 units below 2^63 messages |
| TextSplit.BuildPrivacyMessages | bot/internal/telegram/alerts.go:90-113 | the label loop ends; message k of n reads "Privacy policy (k/n)", a blank line and its chunk, within 4096 UTF-16 units; without labels the messages are the policy |
| TextSplit.UnitsAreUtf16 | bot/internal/telegram/alerts.go:514-534 | the units counted are those of the UTF-16 encoding, which decodes to the text |

## How the model reads the source

- Connection ids, code hashes, lease tokens, paths and ids are opaque tokens. Codes are
  assumed fresh and hashes injective where a theorem says so (`FreshCodes`).
- Each tenant transaction is one atomic step on that tenant's tables. The upsert of a user
  and of its connection is one step.
- Clocks, API answers, handler results, source readings, send results and random or map
  orders are inputs of the steps, and arbitrary.
- A `select` with several ready cases may take any of them. A blocked wait is a step that
  is not enabled.
- The poller assumes, as the Bot API promises, increasing update ids not below the offset,
  and, over a whole run, that a fetch leaves out none in between.
- The interrupted purges share one instant: a run and its rerun read the same clock.
- Widths of integers are unbounded except where a property is about them
  (`ThresholdIsThePercentage`, `BuildPrivacyMessages`).

## Left out

- TenantGuard.Guard.Shared: one attempt of a wait; that a waiting writer turns new readers away, and the acquisition a cancelled wait leaves behind, which releases at once, are scheduling, the latter a step of `ErasureSystem`.
- Erasure.ResumedErasureEndsLikeACleanOne: a reconnection between two submissions, which would enable rows again; `ErasureSystem` covers it.
- QuotaRuns.AWindowHoldsAtMostTheCap: an evicted ledger starts a new window, as in the original, so the count is of one ledger's captures.
- BusinessService.UpsertKeepsOwners: user and connection rows are written as one step, so a crash between the two statements is not modelled.
- MediaPurger.Purger.ReconcileDisk: the walk is a sequence of folders and files in lexical order; the agreement of that order with per-directory order is taken from the uniform layout.
- MediaPurger.Purger.PurgeExpired: dry runs, cancellation and query errors inside the loop; interruptions are the single effects of `MediaPurge`.
- MediaErasure.Storage.EraseTenant: cancellation and I/O errors, which return early like a refusal.
- FileTree.EraseTree: entries vanishing or swapped under the walk; the tree is a value the method takes apart, not shared directories.
- MediaAlerts.Outbox.MarkDeleted: payload texts, captions and the order of insertion ids; a message whose files are split between an album and none is excluded, as Telegram gives one group per message.
- Quotas.Tracker.AdmitVolume: run alone; the interleaved critical sections are in `QuotaRuns`, where the rate list is a sequence rather than a shared backing array.
- TextSplit.SplitTelegramText: invalid UTF-8, which the original would replace; a text is its code points.
- ErasureSystem.ErasedStaysErased: one direction; the other is the concrete run of `ErasureRace`, since an enabled upsert alone need not be followed by a message.
- The statuses of media rows inside `ErasureSystem`: there a media row exists or not; its statuses are in `MediaPurge`.
- The instance lock: it has an unavoidable detection window on a lost session.
- HTTP, multipart upload, JSON, health, metrics and logging: plumbing over libraries.
- PostgreSQL, row level security and migrations: per-tenant tables stand for them.
- SHA-256, random codes, FNV-1a and system calls: injective or arbitrary functions, fresh tokens, a file tree.
- Configuration, allowlist and command parsing, display names, media extraction: each body states its own result.
- The byte accounting of the fetch loop beyond `AddMediaBytes`: bounded by one batch, as its comment says.
- Fairness: that some step is possible is proved, not which one the scheduler takes.
