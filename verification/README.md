# A verified model of the DynamoDB-Sage job pipeline

DynamoDB-Sage is a gateway that lets language-model agents work on DynamoDB tables. Operations that take long become
background jobs: a job travels through Kafka (or an in-process queue), a handler claims a row for it in a SQLite
ledger, runs it, and writes the result into the row or deletes the claim, while a sweeper deletes claims older than
600 seconds. This project models that pipeline and the algorithms around it in Dafny and proves what holds of them for
every input, every interleaving and every answer of the services they depend on.

| file | what it models |
|---|---|
| Ledger, Store | the ledger table as a value, and the store's methods on it |
| JobProtocol | deliveries, executors, the sweeper, crashes and the clock as one transition system |
| HeavyOps, HandlerRefinement | the job handlers, the retry loop around them, and their place in the protocol |
| Retry, Consumer | the Kafka consumer: retries, dead letters, offset marking |
| Offsets | what marking a message as consumed says about its job |
| Cascade, Notifications, DeadLetters | which messages cause which, the notification and dead-letter handlers |
| BatchWrite, BatchGet | batch writes and reads, in chunks, against an adversarial service |
| SizeEstimate | the size estimate of items and the batch size check |
| StoreWriter, WorkerPool | the serialised store writer and the in-process worker pool, in every interleaving |
| RiskGate, JobDispatch | from risk findings to a call that is warned about, run or queued, and what the worker runs for it |
| Chunker, ChatLoop, TableDefinition | the text chunker, the chat's tool loop, deriving a table definition |
| Text, Outcomes | shared string operations and result types |

`dafny verify dfyconfig.toml` checks everything.

## Where the code differs from its documentation

- `development-plan.md:79-82` promises no double execution of a job (line 82). The ledger rows carry no owner, and the completing
  update does not look at the result it replaces (`server/store.go:296`). Mutual exclusion therefore holds only while
  no handler outlives the sweeper's limit (`JobProtocol.MutualExclusion`); a handler that takes 601 seconds can share
  its job with a second one, and a final answer can change (`JobProtocol.OverrunBreaksExclusion`). The exact condition
  under which an answer can no longer change is `JobProtocol.FinalAnswerStableIff`.
- The same line promises no job without an execution. A handler that finds a row acknowledges the message
  (`server/handlers.go:1623-1625`), so when an earlier attempt failed and its claim could not be deleted, the message is
  acknowledged although nothing succeeded. The same happens to a redelivery that finds the claim of a handler that
  died, the crash of line 79: the job is not executed at all unless somebody submits it again after the sweep.
  `HeavyOps.FalseAcknowledgementIff` gives the exact condition from any ledger; `Offsets.AcknowledgedInVain` and
  `Offsets.RedeliveredAfterCrash` are such cases.
- Line 80 says that offsets are marked only after a durable apply or durable dead-lettering. For a heavy operation that
  is false exactly when a claim without a result is met, whether an earlier delivery or an earlier attempt left it, or
  when no attempt can succeed, or the payload is rejected, while the dead-letter topic cannot be reached
  (`internal/kafka/consumer.go:113-116`). `Offsets.MarkedInVainIff` states this from any ledger and in terms of the
  surroundings alone; `Offsets.DroppedInVain` is a case of the second kind. Messages on unregistered topics are marked
  too (`internal/kafka/consumer.go:96-100`).
- The dead-letter handler asserts that a table name is text without checking, and a payload that fails on exactly that
  is sent to it. `DeadLetters.HeavyOpPanicsIff` and `DeadLetters.NotificationPanicsIff` say which messages bring it down
  in the end, and `DeadLetters.UntextualPanics` names one. Since the letter is never marked, restarting does not help
  (`DeadLetters.RestartForEver`). Its branch for dead-lettered notifications is never taken for
  one (`DeadLetters.DeadNotificationHasNoJob`).
- The chunker's settings are not checked (`internal/engine/config.go:159-164`). An overlap larger than the chunk size
  makes any longer text panic, and since an unset overlap becomes 50, so does a chunk size below 50 alone
  (`Chunker.UnsetOverlapPanicsIff`). A negative overlap loses words. `Chunker.WindowsReassembleIff` gives the exact
  condition for losing none.
- `batch_get_items` removes duplicate keys by their JSON text. If two texts stand for one key, the service refuses them
  in one chunk, and in two chunks their item is returned twice. The only such texts known to survive the decoding are
  numeric keys written 0 and -0, provided that the service takes them for one number. `BatchGet.ItemsComeOnceIff` gives
  the exact condition on the request, and `BatchGet.ItemReturnedTwice` a request of 26 keys.
- The analysis of a batch delete always appends its size text, even an empty one (`internal/risk/analyzer.go:278`), so
  its level is at least medium for a harmless request. The call passes all the same, because the gate looks at the
  joined text (`RiskGate.CheckRisk`). Two empty reasons would join to a text that is not empty
  (`RiskGate.JoinEmptyIff`).
- Start runs in a goroutine of its own (`server/server.go:454`), so Shutdown can report done over a waiting job when no
  worker exists yet (`WorkerPool.EarlyShutdownLosesSight`).
- A table with local indexes but no HASH entry in its key schema gets an index on an attribute that is not defined
  (`TableDefinition.DefinesWhatItUsesIff`, `TableDefinition.HashKeyLeftUndefined`).

## Model

| member | source | states |
|---|---|---|
| `LedgerStore.Store.AddProcessedOp` | server/store.go:273-293 | a claim is won exactly if it is written and no row existed; a row that exists is left alone |
| `LedgerStore.Store.UpdateProcessedOpResult` | server/store.go:294-312 | completing replaces the row's result whatever it was, keeps its age, and never creates a row |
| `LedgerStore.Store.DeleteClaimedOp` | server/store.go:314-332 | a release deletes the row exactly if its result is still empty |
| `LedgerStore.Store.DeleteStaleClaimedOps` | server/store.go:334-352 | a sweep deletes exactly the unresolved claims with created_at + 600 before now, whatever the order, and counts them |
| `LedgerStore.Store.GetProcessedOpResult` | server/store.go:354-371 | a missing row reads as an empty result |
| `LedgerStore.Store.GetJobResult` | server/handlers.go:1219-1232 | a final answer is given exactly for a completed row whose text decodes, and is its result; a text that does not decode is an error; a missing job reads as pending |
| `JobProtocol.RunWellFormed` | server/store.go:273-352 | in every run each row has at most one author, executors are numbered once, and an author's row is as old as its claim |
| `JobProtocol.LedgerConservation` | server/store.go:273-352 | over every run, rows before plus claims won = releases that took effect + sweeps of the row + rows after |
| `JobProtocol.ExecutionsAreClaims` | server/handlers.go:1619-1628 | a job is executed exactly as often as its claim is won |
| `JobProtocol.ExecutionsBounded` | server/handlers.go:1612-1645 | executions of a job never exceed one plus its effective releases and sweeps |
| `JobProtocol.CompletedAbsorbs` | server/store.go:314-352 | a completed job stays completed, is never claimed, released, swept or started again |
| `JobProtocol.ExclusiveForStep` | server/store.go:273-352 | only a sweep of a live claim can make a live executor lose its claim |
| `JobProtocol.StaleIsOverdue` | server/store.go:334-336 | rounding to seconds spares every claim up to 600 s and none from 601 s on |
| `JobProtocol.SweepLimit` | server/server.go:180-181 | in nanoseconds: a claim of up to 600 s survives the sweep, one of at least 601 s does not |
| `JobProtocol.MutualExclusion` | server/server.go:163-189 | if no executor outlives 600 s, every live executor owns its claim and no two share a job, in every reachable state |
| `JobProtocol.WritersMeetTheirOwnClaim` | server/handlers.go:1630-1641 | under that assumption every release and completion meets the writer's own unresolved claim |
| `JobProtocol.ResultWrittenOnce` | server/handlers.go:1647-1653 | under that assumption a result is written exactly once for each job that becomes completed |
| `JobProtocol.QuietResultStable` | server/store.go:273-352 | with no live executor of the job its completed row is the same in every later state, whatever the timing |
| `JobProtocol.FinalAnswerStable` | server/handlers.go:1219-1232 | a final answer given while the assumption held is given unchanged in every later state, even if it fails later |
| `JobProtocol.DisownedNeedsLateSweep` | server/server.go:180-189 | a live executor without its claim implies an earlier sweep of a live claim older than 600 s |
| `JobProtocol.OverlapNeedsLateSweep` | server/server.go:180-189 | two live executors of one job imply such a sweep |
| `JobProtocol.ExclusiveThroughoutIff` | server/server.go:163-189 | over any run and any timing, every live executor owns its claim in every state if and only if no action sweeps the claim of a live executor older than 600 s |
| `JobProtocol.SweepLosesExclusionIff` | server/store.go:334-336 | from any exclusive state, a sweep and another delivery give two live executors if and only if the first is live and its claim is past the sweeper's limit |
| `JobProtocol.OverrunBreaksExclusion` | server/store.go:294-297 | a concrete run in which an overrun of one second yields two executors and a final answer that changes |
| `JobProtocol.FinalAnswerStableIff` | server/store.go:294-297 | with no timing assumption, a final answer can never change if and only if no live executor can still write another |
| `Retry.TotalDelayBound` | internal/kafka/consumer.go:136-142 | the waits add up to at most one maximal backoff each |
| `Retry.WaitsGrow` | internal/kafka/consumer.go:137-140 | the first wait is the initial backoff, each later one the multiplier times the one before, up to the cap |
| `Retry.DoublingWaits` | internal/kafka/consumer.go:137-140 | doubling from 100 under a cap of 1000 waits 100, 200, 400, 800, 1000 |
| `Retry.StopsUnique` | internal/kafka/consumer.go:129-149 | the handler's answers determine how often it is called and how the loop ends |
| `Retry.ProcessWithRetry` | internal/kafka/consumer.go:129-149 | success exactly if one of the first MaxRetries + 1 calls succeeds; it stops there; total backoff at most MaxRetries * MaxBackoff |
| `HeavyOps.ProcessHeavyOp` | server/handlers.go:1612-1645 | answer, notifications and ledger effect of a call for every payload, ledger state and pattern of write failures, in terms of these: exactly one notification unless the claim is not written or lost |
| `HeavyOps.ProcessHeavyOpForQueue` | server/handlers.go:1663-1698 | the queue's handler has the same effect on the ledger and the same answer |
| `HeavyOps.RetryHeavyOp` | internal/kafka/consumer.go:129-149 | the retry loop run on the store stops as the abstract loop does and notifies once for each rejected or executed attempt: for every attempt, when the payload is rejected or a fresh job's writes all succeed |
| `HeavyOps.StoppedIsStops` | internal/kafka/consumer.go:129-149 | the loop on the store and the abstract loop over the handler's answers stop alike |
| `HeavyOps.ClaimLingers` | server/handlers.go:1632-1636 | a claim that could not be deleted is found by every later attempt of the loop |
| `HeavyOps.WhoLeftTheClaim` | server/handlers.go:1619-1636 | a row found during failing attempts was left by one of them whose claim could not be deleted |
| `HeavyOps.AcknowledgedIffExecuted` | server/handlers.go:1612-1645 | with all ledger writes succeeding, a fresh job is acknowledged exactly if one of at most MaxRetries + 1 executions succeeds: the last one, the only success, recorded; otherwise no row remains |
| `HeavyOps.UnparseableNeverRuns` | server/handlers.go:1613-1617 | a payload that does not parse is never executed and leaves the ledger alone on every retry |
| `HeavyOps.FalseAcknowledgementIff` | server/handlers.go:1623-1636 | from any ledger, a message is acknowledged without any success if and only if a row was there and some attempt reached the ledger, or a failed execution left its claim behind and a later attempt reached the ledger |
| `HeavyOps.RowStays` | server/handlers.go:1619-1625 | a row that is there before the first attempt is left alone by every attempt |
| `HandlerRefinement.HandlerRefinesProtocol` | server/handlers.go:1612-1645 | an undisturbed handler call is a legal run of the protocol with the same ledger effect, leaves no executor, and starts as many as it claims |
| `Consumer.ConsumerSession.Consume` | internal/kafka/consumer.go:91-124 | a message has its fate by registration, handler calls and dead-letter send; it is marked once; its letter carries its key, value, topic and the limit; completion is reported for handled and dead-lettered ones only |
| `Consumer.ConsumerSession.ConsumeClaim` | internal/kafka/consumer.go:78-127 | every pulled message is marked once, in order, with exactly one of four fates; the k-th letter is that of the k-th dead-lettered message, the k-th completed key that of the k-th handled or dead-lettered one; a failed dead-letter send is the last and ends the loop |
| `Offsets.MarkedInVainIff` | internal/kafka/consumer.go:103-124 | from any ledger, a heavy operation's message is marked with neither a successful execution nor a dead letter if and only if the job is not completed and a claim is met (a dead delivery's or an attempt's own), or nothing can succeed (or the payload is rejected) while the dead-letter topic is down |
| `Offsets.GivesUpIff` | internal/kafka/consumer.go:129-149 | from any ledger, the loop gives up exactly if it never reaches the ledger to find the row that is there, or, without one, if the operation fails whenever it may run and no claim lingers |
| `Offsets.FateOfHeavyOp` | internal/kafka/consumer.go:103-124 | the fate under which the consumer marks the message is the one the loop on the ledger determines |
| `Offsets.RedeliveredAfterCrash` | server/handlers.go:1623-1625 | a concrete run: a claim, a crash, and a redelivery that acknowledges a job nobody executes, with every write and execution willing |
| `Offsets.AcknowledgedInVain` | server/handlers.go:1623-1636 | concrete surroundings for every limit of at least 1: a failed execution, its claim not deleted, and the retry acknowledges |
| `Offsets.DroppedInVain` | internal/kafka/consumer.go:113-116 | concrete surroundings for every limit: every execution fails and so does the dead-letter send |
| `Cascade.RegisterHandlers` | server/kafka.go:44-46 | every configured topic has a handler; where topics coincide the later registration wins, so dead letters always reach their own |
| `Cascade.ConsumeHeavyOp` | internal/kafka/consumer.go:103-120 | a consumed heavy operation sends at most one notification a call, exactly one a call for a fresh job whose writes succeed, and a dead letter exactly if every call failed and the send works |
| `Cascade.ConsumedNotificationSends` | server/notification.go:25-42 | a consumed notification sends at most a dead letter, and none if its payload decodes |
| `Cascade.ConsumedDeadLetterSends` | server/kafka.go:57-64 | a consumed dead letter sends nothing: by what the handler proves of itself it has no error to answer with, unless it panics |
| `Cascade.SendingIsPaidFor` | server/kafka.go:44-64 | the ranking: a message's credit covers what it sends and the credit of what it sends |
| `Cascade.HeavyOpCascadeEnds` | server/kafka.go:44-64 | without redelivery one heavy operation causes at most 2 * (MaxRetries + 1) + 1 messages, in any order and with topics that may coincide |
| `Cascade.SoundCascadeEnds` | server/notification.go:25-42 | at most MaxRetries + 2 when the notification handler never fails |
| `Cascade.BoundIsAttained` | internal/kafka/consumer.go:103-119 | with distinct topics some cascade reaches the bound |
| `Notifications.Deduplicator.IsDuplicate` | server/notification.go:13-22 | a notification is dropped exactly while its key is stored, and an unstored key is stored with its moment |
| `Notifications.PassedAreApart` | server/notification.go:13-22 | over every history, two notifications with one key that are both passed on are at least 30 s apart |
| `Notifications.FreeAfterThirtySeconds` | server/notification.go:18-20 | a key whose timer fires when it is due is passed on again after exactly 30 s |
| `Notifications.FreedAfterWindow` | server/notification.go:18-20 | a stored key is not passed again before its window ends |
| `Notifications.ProcessNotification` | server/notification.go:25-42 | an undecodable payload fails and changes nothing; any other is passed on exactly if its key is not stored |
| `Notifications.NotificationRoundTrip` | internal/notification/notification.go:44-53 | a notification that the program sends decodes to its own table, operation, job and key |
| `DeadLetters.ProcessDLQ` | server/kafka.go:57-64 | the handler panics exactly for a table name that is not text; otherwise the report's own notification always decodes and is passed on under the letter's key, unless stored |
| `DeadLetters.HeavyOpPanicsIff` | server/kafka.go:79-86 | for every payload, ledger and environment, a heavy operation ends in a dead letter that panics if and only if its table name is not text and the dead-letter topic is up |
| `DeadLetters.NotificationPanicsIff` | server/kafka.go:79-86 | the same for the notifications topic, where the payload must also fail to decode as a notification |
| `DeadLetters.DeadNotificationHasNoJob` | server/kafka.go:79-93 | no dead letter from the notifications topic is reported under a job: the branch for it needs the decoding that failed |
| `DeadLetters.SentNotificationIsHandled` | server/notification.go:25-30 | a notification that the program sends is handled at the first attempt and never dead-lettered |
| `DeadLetters.DeadNotificationIsReportedAsUnknown` | server/kafka.go:79-93 | as a letter from another topic it is reported with an unknown table and no job |
| `DeadLetters.DeadJobIsReported` | server/tools.go:437-448 | an enqueued call that names its table is accepted by the handler, and its dead letter is reported under its table and tool |
| `DeadLetters.OtherTableFields` | server/kafka.go:80-86 | without tableName a call is rejected; its letter is reported under TableName, or as unknown without that too |
| `DeadLetters.NotificationBranch` | server/kafka.go:88-93 | a payload that decodes only as a notification is reported under its own table, operation and job |
| `DeadLetters.SessionBlocksIff` | internal/kafka/consumer.go:106-113 | the letters that a consumer session wrote block the dead-letter topic if and only if the payload of one of their messages has a table name that is not text |
| `DeadLetters.UntextualPanics` | server/kafka.go:80-81 | a concrete payload that is rejected on every attempt and then panics |
| `DeadLetters.ConsumeLetters` | internal/kafka/consumer.go:78-127 | one life of the process marks the letters before the first that panics, and crashes exactly if there is one |
| `DeadLetters.RestartForEver` | internal/kafka/consumer.go:121-124 | however often the process restarts and whatever was committed, the first letter that panics is never marked and none behind it is reached; without one all are handled |
| `DeadLetters.HeavyOpsBlockIff` | server/handlers.go:1613-1617 | the letters of any heavy operations block the topic if and only if one of the operations has a table name that is not text |
| `SizeEstimate.TakeKey` | internal/engine/guardrails.go:234-240 | the size of a map is the same whichever key is visited first |
| `SizeEstimate.CalculateSize` | internal/engine/guardrails.go:261-298 | the recursive estimate, over maps in whatever order, is the order-free size; text, number and binary leaves count their length, booleans and nulls one |
| `SizeEstimate.GetEstimatedSize` | internal/engine/guardrails.go:234-240 | the same for a whole item |
| `SizeEstimate.WalkAddsUp` | internal/engine/guardrails.go:261-298 | the keys and leaves met by any walk, with a new order at every level, have the estimate as their total length |
| `SizeEstimate.WalkExists` | internal/engine/guardrails.go:261-298 | every value has such a walk |
| `SizeEstimate.SizeIsAdditive` | internal/engine/guardrails.go:234-240 | the estimate of disjoint field sets put together is the sum |
| `SizeEstimate.ValidateBatchSize` | internal/engine/guardrails.go:211-232 | an item over 409600 bytes is reported before any total over 16777216 |
| `SizeEstimate.LimitIsExact` | internal/engine/guardrails.go:221-223 | an item or key of 409600 bytes fits, one of 409601 does not |
| `SizeEstimate.BatchErrorUnreachableIff` | internal/engine/guardrails.go:211-232 | the 16 MB error cannot occur for any batch of n requests if and only if n is at most 40 |
| `BatchWrite.DistinctLookup` | server/handlers.go:421-430 | after writes with distinct keys each key holds what its own write says, all others what they held |
| `BatchWrite.OrderDoesNotMatter` | server/handlers.go:437-462 | the same writes with distinct keys give the same table in any order |
| `BatchWrite.RequestRefines` | server/handlers.go:437-462 | what was processed over several calls equals applying, in request order, the writes not finally left |
| `BatchWrite.DynamoTable.BatchWriteItem` | server/handlers.go:438-440 | the service: applies any part of a request, reports exactly the rest, or fails having applied any part |
| `BatchWrite.WriteChunk` | server/handlers.go:437-462 | a chunk ends after at most three calls with the sequential result of the writes not left, counted exactly; on an error some run of its writes happened |
| `BatchWrite.WriteAll` | server/handlers.go:417-463 | the whole list ends as the sequential application of the accepted writes not finally left, with one to three calls for each 25; it fails exactly for a service error or a write over 409600 bytes, never for the batch size |
| `BatchWrite.BatchPutItems` | server/handlers.go:375-482 | successes + unprocessed + failed = requested; with nothing unprocessed every key holds the last item put under it; a key of no item is never touched; rejected only for a disallowed or empty request, a service error or an item over 409600 bytes |
| `BatchWrite.BatchDeleteItems` | server/handlers.go:484-578 | counts conserve the keys; with nothing unprocessed every key is absent; other keys are never touched; a key that cannot be marshalled rejects the request before any write |
| `BatchWrite.AcceptedOrRefused` | server/handlers.go:393-416 | every item is either accepted or listed as failed |
| `BatchWrite.CleanRunRepairs` | server/handlers.go:421-463 | a clean run after any partial run of the same writes gives the table a clean run alone would have given |
| `BatchWrite.PartialRunsCompose` | server/handlers.go:421-463 | partial runs of the same writes, one after another, are one partial run |
| `BatchWrite.RedeliverPut` | server/handlers.go:421-463 | after any number of aborted or throttled runs, a run with nothing left over converges to one clean run: every key holds the last item put under it |
| `BatchWrite.RedeliverDelete` | server/handlers.go:524-569 | the same for deletions: every key is absent |
| `BatchGet.ReadService.BatchGetItem` | server/handlers.go:844-846 | the service: each key of a request is returned as the table has it, confirmed absent, or left unprocessed |
| `BatchGet.ReadChunk` | server/handlers.go:843-872 | at most three calls; each requested key is returned, absent or failed, and only a third call leaves keys failed |
| `BatchGet.DedupMeans` | server/handlers.go:807-820 | the kept key texts are the requested ones, each once |
| `BatchGet.BatchGetItems` | server/handlers.go:799-905 | over all chunks the deduplicated keys are, as a multiset, exactly the returned, absent and failed ones; items are the table's; keys of one chunk are different; rejected exactly for an empty request, a key that cannot be marshalled (before any call) or a service error |
| `BatchGet.EachKeyOnce` | server/handlers.go:822-888 | every key, as often as requested and not failed, is returned if the table has it and absent if not, whether or not it was requested twice |
| `BatchGet.NoItemTwiceIff` | server/handlers.go:827-873 | in one report no item comes twice if and only if no key of the table is requested more than once beyond its failures |
| `BatchGet.ItemsComeOnceIff` | server/handlers.go:807-873 | for a request: no report it can get returns an item twice if and only if no key of the table stands behind two of its texts, or two equal keys share a chunk and there is no report |
| `BatchGet.ItemReturnedTwice` | server/handlers.go:807-857 | a concrete request of 26 different texts, the first 0 and the last -0, for which a report returns an item twice |
| `StoreWriter.ExecuteWithRetry` | server/store.go:126-133 | one to ten tries, all but the last busy, stopping at the first that is not; nine busy outcomes leave the tenth to decide; n tries wait 25 * (n - 1) * n milliseconds |
| `StoreWriter.ChannelHoldsHundred` | server/store.go:116-119 | a waiting caller can enqueue exactly while fewer than a hundred operations are on the channel, and can always give up |
| `StoreWriter.StepInv` | server/store.go:121-167 | every step of a caller or the writer keeps the history in order and every caller's status true |
| `StoreWriter.WritesLinearise` | server/store.go:121-140 | in every interleaving the database sees a subsequence of the operations in the order the channel accepted them |
| `StoreWriter.TimedOutHasNoEffect` | server/store.go:150-164 | an operation whose caller timed out has no effect, then or later |
| `StoreWriter.AnswersAreTrue` | server/store.go:126-134 | an answered operation was tried one to ten times, replied to once with its last outcome, and is in the database exactly if that outcome says so |
| `StoreWriter.WriterNeverBlocks` | server/store.go:134-166 | with work to do the writer always has a step: sending a reply never waits |
| `StoreWriter.RealTimeOrder` | server/store.go:158-167 | an operation answered before another is called precedes it in the order of effect |
| `WorkerPool.StartWorkerPool` | server/server.go:446-455 | the pool has at least four workers and two for each processor, no more, and two buffer places for each worker |
| `WorkerPool.NextInv` | internal/queue/queue.go:35-69 | every step keeps submissions in order and running jobs on one worker each |
| `WorkerPool.EachJobInOnePlace` | internal/queue/queue.go:51-69 | in every reachable state each submitted job is exactly one of pending, running on one worker, finished |
| `WorkerPool.WhatIsEnabled` | internal/queue/queue.go:56-68 | in every reachable state the channel holds no more than the buffer; a job is accepted exactly while the pool is open and there is room; workers leave only a closed and empty channel |
| `WorkerPool.DequeueOrderIsSubmissionOrder` | internal/queue/queue.go:56-68 | jobs are taken in submission order, none skipped, none twice |
| `WorkerPool.ShutdownDrainsIff` | internal/queue/queue.go:35-49 | leaving by the done branch means drained if and only if a worker was started or nothing was waiting |
| `WorkerPool.ShutdownAfterStart` | internal/queue/queue.go:35-64 | if Start completed, the done branch means that every submitted job has finished, for good |
| `WorkerPool.EarlyShutdownLosesSight` | internal/queue/queue.go:35-49 | a concrete run with the exception |
| `RiskGate.EscalatedRiskLevel` | internal/risk/analyzer.go:818-828 | high exactly for two reasons or one that contains readonly or protectedTable, low exactly for none |
| `RiskGate.UnitsAreStartedPages` | internal/engine/guardrails.go:242-259 | writes are charged by started kilobytes, reads by started pages of four, one at least |
| `RiskGate.ScanPrice` | internal/risk/analyzer.go:586-593 | a scan costs 0.0625 millionths of a dollar a started page, nothing on provisioned tables |
| `RiskGate.AddingReasonNeverLowers` | internal/risk/analyzer.go:807-828 | a reason added anywhere lowers neither level; escalation never goes below the base level |
| `RiskGate.ProtectionIsHigh` | internal/risk/analyzer.go:543-556 | a protection finding among any others makes the level high |
| `RiskGate.JoinEmptyIff` | internal/risk/analyzer.go:278-284 | the joined text is empty exactly for no reason or a single empty one |
| `RiskGate.ValidateKeySchema` | internal/risk/analyzer.go:699-731 | no reason exactly if there are a hash key and a sort key and no hash key is hot |
| `RiskGate.ValidateAttributeDefinitions` | internal/risk/analyzer.go:733-749 | no reason exactly if every complete definition has the expected type and a name of at most 100 bytes |
| `RiskGate.ExpectedTypes` | internal/risk/analyzer.go:71-73 | exactly nine names have an expected type: four S, five N |
| `RiskGate.ValidateGsis` | internal/risk/analyzer.go:751-771 | no reason exactly for at most five indexes, none hot or projecting everything |
| `RiskGate.AnalyzeScan` | internal/risk/analyzer.go:217-253 | fails exactly with its table lookup; text empty exactly under both thresholds |
| `RiskGate.AnalyzeBatchDelete` | internal/risk/analyzer.go:255-285 | fails exactly with a key that cannot be marshalled or a failed read; text empty exactly for an unprotected table, few keys and a small total; the level is never low, and high for a protected table |
| `RiskGate.GetBatchFromDB` | internal/risk/analyzer.go:780-805 | the total is that of the items that came back, whatever the chunk size; it fails exactly if a request it makes fails |
| `RiskGate.FoundSizeIsExactIff` | internal/risk/analyzer.go:797-803 | the total never overstates the items' sizes and is exact if and only if every item came back |
| `RiskGate.CheckDeleteItemSize` | internal/risk/analyzer.go:647-664 | no text exactly if the total is within 16 MB |
| `RiskGate.AnalyzeBatchGet` | internal/risk/analyzer.go:287-333 | fails exactly if a key cannot be marshalled; text empty exactly under the count, size and capacity limits |
| `RiskGate.AnalyzeBatchPut` | internal/risk/analyzer.go:335-423 | text empty exactly for a clean batch within capacity and count; no items is a finding |
| `RiskGate.AnalyzeDelete` | internal/risk/analyzer.go:425-437 | text empty exactly for an unprotected table; level high for a protected one |
| `RiskGate.AnalyzeUpdateTable` | internal/risk/analyzer.go:439-482 | text empty exactly for an unprotected table and capacities within the limit |
| `RiskGate.AnalyzePutItem` | internal/risk/analyzer.go:484-541 | never fails; text empty exactly for a clean item that is not empty |
| `RiskGate.CheckUpdatedItemSize` | internal/risk/analyzer.go:595-618 | no text exactly if payload and updated item fit; fails only when the current item is looked up |
| `RiskGate.CheckExpressionComplexity` | internal/risk/analyzer.go:620-645 | no text exactly if some clause is used and commas plus clauses are within the depth |
| `RiskGate.ClausesAreSeen` | internal/risk/analyzer.go:627-631 | each clause is seen at the start and after a blank, and a comma adds an action |
| `RiskGate.NoClauseIsSeen` | internal/risk/analyzer.go:627-631 | a text without the clauses' first letters has none |
| `RiskGate.PaddedExpression` | internal/risk/analyzer.go:621 | white space around the expression never changes the finding |
| `RiskGate.AnalyzeUpdateItem` | internal/risk/analyzer.go:148-215 | fails exactly with one of its three lookups; text empty exactly if every check passes |
| `RiskGate.AnalyzeCreateTable` | internal/risk/analyzer.go:128-146 | never fails; text empty exactly if key schema, definitions and indexes are clean |
| `RiskGate.Analyze` | internal/risk/analyzer.go:87-116 | every analyzer fails exactly when a step of it does, has an empty text exactly for a clean request, a level of at least medium with any other text, and the high level for a protected table; arguments that do not parse fail it |
| `RiskGate.CheckRisk` | server/tools.go:506-523 | an unconfirmed call passes if and only if its analysis succeeds and finds nothing; a confirmed one always does |
| `RiskGate.CallTool` | server/tools.go:410-482 | a call reaches its handler or the queue exactly if it passes the gate; the four heavy tools are queued, on Kafka or in process as configured, and every other tool runs; ingest_document, which has no analyzer, needs no confirmation |
| `JobDispatch.ExecuteJobOp` | server/handlers.go:1700-1783 | one handler at most is called, the operation's own; success exactly if it answers without an error; unknown operations fail |
| `JobDispatch.QueuedIffExecutable` | server/tools.go:567-574 | a tool's calls are queued if and only if the worker has a case for the tool, and no two tools share one |
| `Chunker.FieldsOfJoin` | internal/rag/chunker.go:21-35 | splitting joined words gives the words back |
| `Chunker.SeparatorsSplit` | internal/rag/chunker.go:21 | tab, line feed, carriage return and blank separate words alike |
| `Chunker.VisibleCharactersJoin` | internal/rag/chunker.go:21 | printable ASCII characters do not separate |
| `Chunker.Chunker.Chunk` | internal/rag/chunker.go:20-41 | for all integer settings: exactly when it panics; otherwise the chunks are the windows of the text's words, as many as the loop's exit demands, and without overlaps they are all the words exactly if 0 <= Overlap < MaxTokens or one chunk is enough |
| `Chunker.Chunker.Slide` | internal/rag/chunker.go:26-40 | the loop ends for all settings, in a panic exactly for a negative size or an overlap above it that the text outruns, else with the successive windows |
| `Chunker.ChunkCountIsExact` | internal/rag/chunker.go:30-38 | the exit conditions determine the number of chunks |
| `Chunker.StopsInTimeMeans` | internal/rag/chunker.go:30-38 | every chunk but the last leaves words behind its overlap and has a next start; the last does not |
| `Chunker.WindowsMean` | internal/rag/chunker.go:30-35 | chunk k starts at word k * (MaxTokens - Overlap) and has 1 to MaxTokens words, fewer only at the end |
| `Chunker.ReassembleWindows` | internal/rag/chunker.go:30-39 | any number of windows, without their overlaps, are the words up to the end of the last |
| `Chunker.GapsLoseWords` | internal/rag/chunker.go:30-39 | with a negative overlap a text longer than one chunk loses words |
| `Chunker.WindowsReassembleIff` | internal/rag/chunker.go:30-39 | no word is lost if and only if 0 <= Overlap < MaxTokens or one chunk is enough |
| `Chunker.UnsetOverlapPanicsIff` | internal/engine/config.go:159-164 | with the overlap left to its default, a text with words panics exactly if the chunk size is negative, or below 50 (and not 0) with a text of more than 50 words |
| `ChatLoop.ConstructMessages` | internal/llm/client.go:93-135 | the two nested loops compute the message-by-message translation |
| `ChatLoop.PlainMessageIsSent` | internal/llm/client.go:122-131 | a message without tools is sent under its own role and text, or not at all if blank |
| `ChatLoop.ToolMessagesAreSent` | internal/llm/client.go:97-121 | text follows the calls of an assistant message; a user message with results loses its text |
| `ChatLoop.PlainHistoryIsPaired` | internal/llm/client.go:122-131 | a history of text only, blank messages dropped, is well formed |
| `ChatLoop.FetchToolResults` | server/chat.go:156-171 | one result a call, in order, under the call's own ID, an error marked as one |
| `ChatLoop.TurnTranslated` | internal/llm/client.go:97-121 | a turn appended to any messages is translated to an assistant message with these calls, names and arguments, followed at once by their results: same IDs, same order, each run's text and failure mark |
| `ChatLoop.TurnIsPaired` | server/chat.go:143-151 | appending a turn keeps a conversation well formed |
| `ChatLoop.GenerateChat` | server/chat.go:123-154 | at most ten model calls; every conversation sent is well formed and extends the one before by the turn asked for and its results; failure exactly on a model error |
| `TableDefinition.HashKeyIsAnEntry` | server/handlers.go:1495-1514 | the hash key is the name of a HASH entry, or empty exactly if there is none to name it |
| `TableDefinition.GetKeySchema` | server/handlers.go:1495-1514 | every entry in order under its own name, Hash for HASH and Range for anything else, and the last HASH entry's name |
| `TableDefinition.GetGsis` | server/handlers.go:1516-1543 | a global index has its partition key as Hash and its sort key, if any, as Range |
| `TableDefinition.GetLsis` | server/handlers.go:1545-1569 | a local index has the table's hash key as Hash and its own sort key as Range |
| `TableDefinition.ProvidedTypes` | server/handlers.go:923-928 | the first supplied type of an attribute counts |
| `TableDefinition.FirstTypeCounts` | server/handlers.go:924-938 | the type is that of the least index that supplies the name, S without one |
| `TableDefinition.CollectDefinitions` | server/handlers.go:930-960 | definitions for exactly the attributes named by keys and indexes, typed by the first supplied definition, else S |
| `TableDefinition.ListDefinitions` | server/handlers.go:964-967 | whatever the map order, the list has every definition and each name once |
| `TableDefinition.CreateTableInput` | server/handlers.go:908-967 | refused exactly for local indexes without a RANGE entry; otherwise key schemas and definitions are those of the request |
| `TableDefinition.DefinesWhatItUsesIff` | server/handlers.go:908-967 | the definitions name exactly the attributes used if and only if there are no local indexes, a HASH entry exists, or the empty name is defined anyway |
| `TableDefinition.HashKeyLeftUndefined` | server/handlers.go:908-967 | a concrete request that is not refused and whose local index uses an undefined attribute |

## Left out

- Network, SDKs and databases: AWS, Kafka brokers, SQLite, Qdrant and the model providers appear only as the answers they may give.
- Metrics, logs, audit trail, SSE and MCP fan-out, alerts, message wording, roles and the guest gate.
- `JobProtocol.MutualExclusion`: the 600 s bound on executors is assumed, since nothing in the code enforces it; what happens without it is proved separately.
- `JobProtocol.RunWellFormed`: the wall clock is taken to be monotonic, and the ledger's operation and table_name columns are not modelled.
- Liveness of jobs: a redelivery that comes before the sweep is acknowledged without running, so "every job runs in the end" is not true of the code and not claimed.
- `HeavyOps.AcknowledgedIffExecuted`: nobody else uses the job's row; interference is the subject of JobProtocol.
- `HandlerRefinement.HandlerRefinesProtocol`: relates one call run without interference to the protocol; interleaved calls exist in the protocol only.
- `HeavyOps.ProcessHeavyOp`: what the executed operation does is an outcome of its environment; that a panic in it leaves the claim is covered by the protocol's crash.
- `Retry.ProcessWithRetry`: the backoff is a real number whose conversion to a 64-bit duration is left arbitrary, so the bound holds for every conversion; rounding inside floating point is not modelled.
- `Consumer.ConsumerSession.ConsumeClaim`: a handler panic, rebalancing and the order of cancellation against pending messages are not modelled; the feed fixes what the select receives.
- `DeadLetters.ProcessDLQ`: field names match exactly, whereas Go's decoder ignores their case; a number stands for a 64-bit integer; the audit entry is left out.
- `DeadLetters.RestartForEver`: the letters of one partition, of a consumer group that has a committed offset there; without one a restarted consumer begins at the newest message (`internal/kafka/consumer.go:182`).
- `Offsets.MarkedInVainIff`: nobody else changes the job's row during the loop; what a handler still running does with a claim that was there counts as no execution.
- `Notifications.Deduplicator.IsDuplicate`: one atomic step, as the concurrent map's operation is.
- `BatchWrite.RedeliverPut`: password hashing is a fixed function (a salted hash would differ between runs), the change it makes to the argument in place is not modelled, and no other writer is active.
- `BatchWrite.DynamoTable.BatchWriteItem`: a throttled request that is an error counts as an error; consumed capacity is left out.
- `BatchGet.BatchGetItems`: the table is not written to during the read; scrubbing and rendering of the items are left out, as is the service's own limit on keys, which chunks of 25 never reach.
- The two statements of addNotification are not atomic under busy retries; the writer's operations are single statements.
- `RiskGate.Analyze`: parsing, marshalling, database lookups, schema and sensitive-field checks are inputs; costs and capacities are real numbers, without rounding or the range of 64-bit integers.
- `RiskGate.GetBatchFromDB`: the chunk size is positive, as the configuration's loader makes it (`internal/engine/config.go:125-127`).
- `JobDispatch.ExecuteJobOp`: the caller's role and the measuring around a job are left out; how each handler ends is its environment's choice.
- `RiskGate.CallTool`: the suggestions added to an answer and the handler's own result are left out.
- `Chunker.Chunker.Chunk`: settings so large that adding them overflows a 64-bit integer.
- `ChatLoop.GenerateChat`: streaming of tokens, the missing-client error and the tool definitions offered to the model are left out; a history without tool blocks meets its precondition.
- `TableDefinition.CreateTableInput`: index names, projections, throughput, billing mode and tags are left out.
- `StoreWriter.WritesLinearise`: a timeout is a choice a waiting caller may always make, so every timing is included; closing the store is left out.
- `WorkerPool.ShutdownAfterStart`: Shutdown's cancelled branch and submissions after closing, which panic, are left out.
- The front end, deployment files, scripts, vector search and the remaining tools.
