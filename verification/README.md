# Verification model of the Eventual runtime

Eventual runs durable workflows, tasks, transactions and entity streams on AWS. This project models the
parts of its runtime whose correctness is an argument over many steps, and proves what they promise:

| module | models |
|---|---|
| `EntityStore`, `Keys` | the versioned entity table with its conditional writes, and the composite keys |
| `Transactions` | one attempt of a transaction: read cache, write set, conditional items |
| `TransactionExecutor` | the mutable attempt, the commit with its deferred calls, the retry loop |
| `Serializability` | many transactions and plain writers interleaving on one table |
| `TaskWorker` | at-least-once deliveries of a task request: claim, handler, report, fallback, crashes |
| `Heartbeat` | the monitor that re-arms itself or times a task out |
| `Timers` | the two routes of a timer, and the schedule forwarder |
| `Paging`, `EventClient` | cursor paging over any database, and batch sending with nested retries |
| `GroupedItems`, `Orchestrator` | ordered groups with cascading failures, and batches of workflow messages |
| `WorkflowStart` | interleaved starts and completions of one execution id |
| `DeepEqual`, `HashCode` | structural equality and the 32-bit string hash |
| `Options`, `Arithmetic`, `Sequences` | a helper datatype, facts about division, occurrences in and concatenation of sequences |

The user's code (a transaction body, a task handler, a stream handler, the workflow executor) is arbitrary
throughout: a function of the replies it has received, or an outcome chosen freely. AWS services are
replaced by small specifications of their own: a conditional map update, any legal split of a scan, any
pattern of failed entries. Where the source mutates state, a class with the same fields does, its methods
are proved against specification functions, and the protocols are step machines over those functions.

## Hypotheses

- A transaction body awaits each call before it makes the next, and is deterministic in the replies it gets.
- Key parts contain no `|` and a sort part is not empty (type `Keys.Key`). `UncleanKeysCollide` shows why.
- `Serializable` assumes that no key is re-created after a delete and that puts raise versions.
  `RecreationBreaksSerializability` and `UnraisedVersionBreaksSerializability` give reachable runs that are not
  serializable without either, and `EveryCommitIsFaithfulIff` shows that version identity is exactly what the
  checks need.
- A transactional write or put that throws was not applied, except in `WorkflowStart`, where a create may be applied although
  its answer is lost.
- An expected version is compared with the version at the start of the transaction, and 0 skips that check.
- Monitor timers fire exactly once, H seconds to H seconds plus the slack after they were started.
- The queue client sends every workflow message in the message group of its execution
  (`packages/@eventual/aws-runtime/src/clients/execution-queue-client.ts:37`); `HandleBatch` needs it only for
  its last clause.
- DynamoDB refuses a start key that has not exactly the key attributes of the table or index (for an index, those
  of the table as well), and orders the rows by these attributes.
- Objects compared by `deepEqual` have distinct keys and hold no NaN.

## Where the code differs from its documentation

The model follows the code.

- The start of a long timer subtracts `timerQueueThresholdSeconds` from a time in milliseconds, so a schedule
  hands over less than two seconds early instead of fifteen minutes (`HandoverLead`). Absolute timers are
  still neither early nor lost (`NeverEarly`).
- `startTimer` is documented for timers of any length. A duration above 15 minutes is never delivered, because
  the forwarder counts the whole duration again (`DurationDeliveredIff`). A task with a longer heartbeat is
  therefore never checked, and the theorems of `Heartbeat` do not apply to it.
- The fallback handler takes any JSON error message for a fallback request. A crash that leaves other JSON loses
  the completion of its task (`EndedDeliveriesAreAccountedForIff`, `JsonCrashLosesTask`).
- The token of a full page keeps, of its last item, the attributes named in `keys`. An entity scan or query with
  `select` that leaves out a key attribute, and an entity index query, whose `keys` are those of the index alone
  (`packages/@eventual/aws-runtime/src/stores/entity-store.ts:237-239`), give tokens that are refused
  (`PagesRefineScanIff`, `SelectedAttributesAndIndexKeysAreRefused`).
- A plain delete swallows every error but a failed condition, and returns as if it had deleted (`Remove`).
- A failed retry is retried again by the request around it, so a budget of a attempts means up to 2^a - 1
  requests (`RequestsBounded`, `RequestsBoundIsMet`).
- A log flush that fails after a task declared itself async is reported as a failure of the task: the promise
  is returned, not awaited, inside the `try` of the handler.
- An execution that is updated before it is created can never be started (`CompletedFirstBlocksStarts`), and
  only hashes of inputs are compared (`DifferentInputsMayCollide`).
- A transactional delete of an absent key never commits: its condition compares with 0 literally
  (`ConditionComparesVersions`).

## Model

| member | source | states |
|---|---|---|
| `Serializability.Serializable` | packages/@eventual/core-runtime/src/transaction-executor.ts:140-404 | For every interleaving of transactions and plain writes, with every first read free to return any committed version of its key, the final store, all outputs and all buffered effects are those of the committed entries run alone, one at a time, in commit order, provided no key is re-created after a delete and puts raise versions |
| `Serializability.CommitIsAtomic` | packages/@eventual/core-runtime/src/transaction-executor.ts:258-303 | A commit whose items pass on the present store is the body run alone on that store, in output, effects and writes, whatever its reads were, if no past record shares its version with a different present one and its puts raise versions |
| `Serializability.EveryCommitIsFaithfulIff` | packages/@eventual/core-runtime/src/transaction-executor.ts:267-303 | The version checks catch every stale read of every body if and only if no past record shares its version with a different present one |
| `Serializability.StaleReadSlipsThrough` | packages/@eventual/core-runtime/src/transaction-executor.ts:267-303 | For each past record that breaks that condition, a body that commits with an output it would not have had alone |
| `Serializability.RunKeepsInvariant` | packages/@eventual/core-runtime/src/transaction-executor.ts:140-404 | In every reachable state the log links the history, each running attempt is where its body would be alone on any store agreeing with its reads, and the store is the serial result |
| `Serializability.VersionNamesOneRecord` | packages/@eventual/aws-runtime/src/stores/entity-store.ts:447-483 | Over every history in which puts raise versions and no key is re-created, a version of a key (0 for absent) names one record for ever |
| `Serializability.CommitRaisesByOne` | packages/@eventual/aws-runtime/src/stores/entity-store.ts:447-483 | One commit leaves a key alone, removes it, or raises its version by exactly one |
| `Serializability.VersionsGrow` | packages/@eventual/aws-runtime/src/stores/entity-store.ts:447-483 | Between two stores of such a history a key is the same record, or its version is strictly higher in the later one |
| `Serializability.RecreationBreaksSerializability` | packages/@eventual/aws-runtime/src/stores/entity-store.ts:449-483 | For any store and key at version 1: a run in which the key is deleted and put again between the read and the commit of a transaction, where every put raises its version, and whose log has no serial equivalent |
| `Serializability.UnraisedVersionBreaksSerializability` | packages/@eventual/aws-runtime/src/stores/entity-store.ts:480-483 | The same for any key that is put with `incrementVersion: false` in between, in a run that re-creates no key |
| `Serializability.StaleRunIsNotSerial` | packages/@eventual/core-runtime/src/transaction-executor.ts:267-303 | Whenever plain writes leave another record at the version a transaction read, its commit passes, and the reachable run that results has no serial equivalent |
| `Serializability.AloneIs` | packages/@eventual/core-runtime/src/transaction-executor.ts:258-262 | A body that has returned stays returned: what it returns, buffers and leaves when it is run alone is unique |
| `Transactions.CacheRefinesPrivateCopy` | packages/@eventual/core-runtime/src/transaction-executor.ts:159-247 | Every run through the read cache and write set gives its body the same replies as the body alone on a private copy of the store its reads agree with, and the cache mirrors that copy key by key |
| `Transactions.StepMirrors` | packages/@eventual/core-runtime/src/transaction-executor.ts:159-247 | One call keeps cache and private copy in step and gets the same reply from both |
| `Transactions.ItemsCarryLastMutations` | packages/@eventual/core-runtime/src/transaction-executor.ts:267-303 | The items are exactly one per distinct key the body used, each with the last mutation that was not refused, or a bare check, and the version of the first read |
| `Transactions.ItemsProducePrivateCopyIff` | packages/@eventual/core-runtime/src/transaction-executor.ts:267-303 | Committing the items turns the store the attempt ran on into the private copy if and only if every surviving put raises its version |
| `Transactions.CacheHoldsUsedKeys` | packages/@eventual/core-runtime/src/transaction-executor.ts:376-404 | The cache holds exactly the keys the body used, each with the version of its first read |
| `Transactions.CacheHoldsLastMutation` | packages/@eventual/core-runtime/src/transaction-executor.ts:197-218 | The write set holds for each key the last put or delete that was not refused |
| `Transactions.RepliesAre` | packages/@eventual/core-runtime/src/transaction-executor.ts:159-255 | Every reply of every attempt: a read shows the last accepted mutation of its key, or else its first read; a mutation is refused or accepted by the expected version and the first read; an accepted put reports the version after that |
| `Transactions.MutationRefusedIff` | packages/@eventual/core-runtime/src/transaction-executor.ts:187-195 | A put or delete is refused if and only if it expects a version other than 0 and other than that of the first read of its key |
| `Transactions.AcceptedMutationsExpectedCurrent` | packages/@eventual/core-runtime/src/transaction-executor.ts:187-195 | In an attempt whose items pass on a store, every accepted mutation expected nothing, or 0, or the version on that store |
| `Transactions.BufferHoldsBufferedCalls` | packages/@eventual/core-runtime/src/transaction-executor.ts:248-250 | The buffer holds each buffered call at its place among the buffered calls, and nothing else |
| `Transactions.ReportedVersionIsStoredIff` | packages/@eventual/core-runtime/src/transaction-executor.ts:199-207 | Whenever the items commit, on any store, the version a surviving put reported is the version then stored if and only if that put raises it |
| `Transactions.PassingItemsShowVersions` | packages/@eventual/core-runtime/src/transaction-executor.ts:292-301 | Items that pass show every key still at the version it was first read at |
| `TransactionExecutor.TransactionAttempt.ResolveEntity` | packages/@eventual/core-runtime/src/transaction-executor.ts:376-404 | Through maps indexed by serialized keys: the first use of a key reads the store, later uses return the cached state |
| `TransactionExecutor.TransactionAttempt.ExecuteMutation` | packages/@eventual/core-runtime/src/transaction-executor.ts:163-219 | A put or delete resolves its key, refuses a wrong non-zero expected version, and otherwise replaces the mutation and the cached state of that key only |
| `TransactionExecutor.TransactionAttempt.ExecuteCall` | packages/@eventual/core-runtime/src/transaction-executor.ts:156-255 | Each kind of call changes the attempt and replies as the specification of an attempt says |
| `TransactionExecutor.TransactionAttempt.TransactionItems` | packages/@eventual/core-runtime/src/transaction-executor.ts:267-303 | The item list of the attempt, in insertion order of the retrieved keys |
| `TransactionExecutor.Executor.RunBody` | packages/@eventual/core-runtime/src/transaction-executor.ts:258-262 | The user function goes to its end against a fresh attempt, whenever it has an end with the replies it gets |
| `TransactionExecutor.Executor.RunEffects` | packages/@eventual/core-runtime/src/transaction-executor.ts:360-364 | Every buffered call is made once, each at its own position, in order |
| `TransactionExecutor.Executor.CommitItems` | packages/@eventual/core-runtime/src/transaction-executor.ts:307-354 | No items, no request; otherwise all are written or none, and a cancelled or conflicting write can be retried while any other error cannot |
| `TransactionExecutor.Executor.ExecuteTransactionOnce` | packages/@eventual/core-runtime/src/transaction-executor.ts:140-366 | A completed attempt writes its items once and then runs its buffered calls; any other leaves no trace |
| `TransactionExecutor.Executor.Execute` | packages/@eventual/core-runtime/src/transaction-executor.ts:108-138 | At most retries + 1 attempts; every one but the last returned and met a conflict, a cancellation or a failed condition, and so did the last only if no retries were left. Resolved with the output exactly if the last attempt returned it and had nothing to write or could write; a throw fails with its error. A resolved result has its items written once and then each buffered call made once in order; otherwise nothing was written and no call made |
| `TransactionExecutor.CompletedAttemptIsAtomic` | packages/@eventual/core-runtime/src/transaction-executor.ts:140-366 | Under those two conditions a completed attempt is its body run alone on the store its commit found |
| `EntityStore.EntityTable.Put` | packages/@eventual/aws-runtime/src/stores/entity-store.ts:125-153 | A put under its condition stores the value with the raised version and returns it; an unexpected version changes nothing |
| `EntityStore.EntityTable.Remove` | packages/@eventual/aws-runtime/src/stores/entity-store.ts:155-199 | A failed condition is reported and removes nothing; any other error of the service is swallowed, so an ordinary return means that the key is gone exactly if the service was up or the key was not there |
| `EntityStore.EntityTable.TransactWrite` | packages/@eventual/aws-runtime/src/stores/entity-store.ts:337-413 | All conditions are checked against one state and all items apply, or none does; exactly which requests end written, cancelled (for a condition or for any other reason), conflicting and rejected |
| `EntityStore.ConditionComparesVersions` | packages/@eventual/aws-runtime/src/stores/entity-store.ts:361-384 | On a store without version-0 records, put and check conditions hold exactly if the current version is the expected one, absent counting as 0; a delete condition never holds of an absent record |
| `EntityStore.ApplyAllAt` | packages/@eventual/aws-runtime/src/stores/entity-store.ts:343-386 | Items on distinct keys act each on the store they were checked against |
| `Keys.DecodeInvertsEncodeIff` | packages/@eventual/core-runtime/src/utils.ts:129-139 | Decoding gives back what was encoded if and only if no part contains the separator and a sort part is not empty |
| `Keys.EncodingInjective` | packages/@eventual/core-runtime/src/utils.ts:129-134 | Two such keys with one encoding are the same key |
| `Keys.UncleanKeysCollide` | packages/@eventual/core-runtime/src/utils.ts:129-134 | Two different keys with the separator in their parts share an encoding |
| `TaskWorker.HandlerRunsOncePerClaim` | packages/@eventual/core-runtime/src/handlers/task-worker.ts:126-134 | In every interleaving of deliveries no two handler runs are for one execution, sequence number and retry |
| `TaskWorker.EndedDeliveriesAreAccountedForIff` | packages/@eventual/core-runtime/src/handlers/task-worker.ts:126-319 | In every interleaving, and wherever invocations crash, a delivery that has ended was refused a claim that another one holds, or declared itself async, or has itself submitted a completion event of its own execution and sequence number, if and only if its invocation did not die with an error message that is itself JSON before any of these |
| `TaskWorker.SucceededIffHandlerReturned` | packages/@eventual/core-runtime/src/handlers/task-worker.ts:247-273 | In every run, an ended delivery has a success of its own in the queue, from its worker or its fallback, if and only if its handler returned a value and its invocation did not die with the event unsubmitted; one whose handler threw, declared the task async, or is missing, never has |
| `TaskWorker.JsonCrashIsNeverRepaired` | packages/@eventual/aws-runtime/src/handlers/task-fallback-handler.ts:20-36 | After such a crash the delivery is never refused, never async and never has an entry in the queue, however the run goes on: the fallback handler throws on the message |
| `TaskWorker.JsonCrashLosesTask` | packages/@eventual/aws-runtime/src/handlers/task-fallback-handler.ts:20-36 | A concrete such run, of a request without heartbeat: the attempt stays claimed and the queue stays empty |
| `TaskWorker.DeliveriesEnd` | packages/@eventual/core-runtime/src/handlers/task-worker.ts:95-322 | A delivery can always go on until it has ended, and every step brings its end closer |
| `TaskWorker.InvocationIsItsSteps` | packages/@eventual/core-runtime/src/handlers/task-worker.ts:126-173 | An invocation nobody interrupts leaves what its steps in sequence leave |
| `TaskWorker.RunInvariant` | packages/@eventual/aws-runtime/src/stores/task-store.ts:25-64 | In every reachable state each claim has exactly one winner, the handler ran once at most for each winner, and every pending or submitted event is of its own execution and sequence number |
| `TaskWorker.ClaimTakesOneAttempt` | packages/@eventual/aws-runtime/src/stores/task-store.ts:32-47 | A claim takes its own execution, sequence number and retry, and no other |
| `TaskWorker.TaskStore.Claim` | packages/@eventual/aws-runtime/src/stores/task-store.ts:25-64 | The claim succeeds exactly if this retry was not claimed, and changes that claim only |
| `TaskWorker.TaskStore.Heartbeat` | packages/@eventual/aws-runtime/src/stores/task-store.ts:66-89 | Sets the heartbeat time, creating the record if need be, and tells whether the task is cancelled |
| `TaskWorker.TaskStore.Cancel` | packages/@eventual/aws-runtime/src/stores/task-store.ts:91-107 | Marks the task cancelled, creating the record if need be |
| `TaskWorker.Worker.HandleRequest` | packages/@eventual/core-runtime/src/handlers/task-worker.ts:95-322 | For every combination of failures, case by case: the claim taken, the handler and monitor started, a success submitted for a value and a failure for a throw or a missing task, nothing for an async result, and the fallback request; the handler runs only for a new winner |
| `TaskWorker.Worker.HandleFallback` | packages/@eventual/core-runtime/src/handlers/task-fallback-handler.ts:65-83 | A fallback request or a plain error message gets an event into the queue; other JSON makes the handler throw |
| `Heartbeat.SilenceIsDetected` | packages/@eventual/core-runtime/src/handlers/timer-handler.ts:57-114 | Once time is past claim + H + slack without a heartbeat, or last heartbeat + 2H + slack, the claim has timed out, by then |
| `Heartbeat.LiveTaskNeverTimesOut` | packages/@eventual/core-runtime/src/handlers/timer-handler.ts:66-95 | If the first heartbeat comes earlier than H after every claim before it, each later one at most H after the one before, and the run ends while the next one is not yet overdue, no timeout has been submitted |
| `Heartbeat.HandlerFollowsCheck` | packages/@eventual/core-runtime/src/handlers/timer-handler.ts:66-95 | What the handler does to the timeouts and monitors of a task is the check step of the runs |
| `Heartbeat.MonitorsAreConserved` | packages/@eventual/core-runtime/src/handlers/timer-handler.ts:87-95 | In every run a claim has exactly one running monitor, or one timeout and no monitor |
| `Heartbeat.TimerHandler.HandleMonitor` | packages/@eventual/core-runtime/src/handlers/timer-handler.ts:57-95 | A timeout event if no heartbeat is on record or the last one is more than H ago, and otherwise a new monitor for the same execution, sequence number and H |
| `Timers.NeverEarly` | packages/@eventual/aws-runtime/src/clients/timer-client.ts:97-170 | For every absolute time, threshold up to 15 minutes and forwarder start at or after the scheduled instant, on either route, the message is accepted, never visible before its time, and less than a second after it unless it was sent too late |
| `Timers.SentThenVisible` | packages/@eventual/aws-runtime/src/clients/timer-client.ts:227-239 | Rounding up to whole seconds: on time to the second, or at once if already late |
| `Timers.HandoverLead` | packages/@eventual/aws-runtime/src/clients/timer-client.ts:114-122 | The schedule fires the threshold in milliseconds, not seconds, before the time: less than two seconds at the default |
| `Timers.DurationDeliveredIff` | packages/@eventual/aws-runtime/src/clients/timer-client.ts:68-72 | A duration timer is delivered if and only if it is no longer than 15 minutes |
| `Timers.AbsoluteRefusedIff` | packages/@eventual/aws-runtime/src/clients/timer-client.ts:114-169 | An absolute timer is refused exactly when the threshold or a forwarder that is too early leaves more than the queue can hold |
| `Timers.TimerClient.StartShortTimer` | packages/@eventual/aws-runtime/src/clients/timer-client.ts:62-83 | A timer above 15 minutes is refused with nothing sent; any other is sent once, and becomes visible at its time or less than a second later, at once if it is late, or after its duration |
| `Timers.TimerClient.StartTimer` | packages/@eventual/aws-runtime/src/clients/timer-client.ts:97-170 | Above the threshold a schedule is made, unless one of that name is there, that fires on a whole second, ahead of the time the timer is for by the threshold in milliseconds and less than a second more; otherwise the short timer is started |
| `Timers.TimerClient.ClearSchedule` | packages/@eventual/aws-runtime/src/clients/timer-client.ts:180-201 | Removes the schedule; a missing one is no error |
| `Timers.TimerClient.Forward` | packages/@eventual/core-runtime/src/handlers/schedule-forwarder.ts:60-74 | The message is sent and only then the schedule removed; a refused message leaves the schedule. Forwarding a schedule made for an absolute time, at any clock from its firing up to that time, leaves a message visible at that time or less than a second later |
| `Paging.PagesRefineScanIff` | packages/@eventual/aws-runtime/src/utils.ts:101-183 | At every page size, following the tokens from the start concatenates to the whole filtered sequence, in n / pageSize + 1 pages, each with a token holding exactly pageSize items, if and only if, of the attributes that come back with each row, `keys` names exactly the key attributes of the table or index |
| `Paging.PagesNeverMislead` | packages/@eventual/aws-runtime/src/utils.ts:101-183 | Whatever the keys, the pages are those, or a token is refused |
| `Paging.SelectedAttributesAndIndexKeysAreRefused` | packages/@eventual/aws-runtime/src/utils.ts:163-171 | A scan that selects attributes without the key, and a query that names only the keys of its index, cannot be continued |
| `Paging.Table.ScanOrQueryPage` | packages/@eventual/aws-runtime/src/utils.ts:132-183 | For every legal splitting, filtering and projection by the database one page is the next pageSize items, with the token cut out of the last one, or all that is left without a token; a start key that is none is refused |
| `Paging.FilteredPositions` | packages/@eventual/aws-runtime/src/utils.ts:147-150 | The filtered rows are exactly those that the filter keeps, in their order |
| `Paging.ResponseMovesPage` | packages/@eventual/aws-runtime/src/utils.ts:147-182 | What one response does to the page that is being read: it fills it, ends it, or leaves a shorter page and moves strictly forward |
| `Paging.LegalAdvances` | packages/@eventual/aws-runtime/src/utils.ts:147-182 | A legal response is a stretch of the matches, and its key leaves exactly the matches after it |
| `Paging.MatchingAfterMatch` | packages/@eventual/aws-runtime/src/utils.ts:163-171 | A token that names the key continues with the match after the one it was cut out of |
| `Paging.TokenIsKeyIff` | packages/@eventual/aws-runtime/src/utils.ts:165-171 | The token is a start key if and only if `keys` picks exactly the key attributes from the returned item, and then it is the key of its row |
| `EventClient.NormalReturnAcknowledgesAll` | packages/@eventual/aws-runtime/src/clients/event-client.ts:63-119 | A batch that returns normally has had every event acknowledged, as often as it occurs in the batch |
| `EventClient.RequestsBounded` | packages/@eventual/aws-runtime/src/clients/event-client.ts:63-119 | A batch with a attempts makes at most 2^a - 1 requests, and at least a before it gives up |
| `EventClient.RequestsBoundIsMet` | packages/@eventual/aws-runtime/src/clients/event-client.ts:95-104 | A service that refuses every entry is asked exactly 2^a - 1 times |
| `EventClient.AcknowledgementsGrow` | packages/@eventual/aws-runtime/src/clients/event-client.ts:63-119 | No retry ever loses an acknowledgement |
| `EventClient.EventBridge.EmitBatch` | packages/@eventual/aws-runtime/src/clients/event-client.ts:63-119 | The mutating recursion ends, and does what the emission function says; its first request carries the batch, one that throws is followed by the same batch and one that reports failures by exactly those entries while attempts remain, and no request carries anything else |
| `EventClient.SelectedPositions` | packages/@eventual/aws-runtime/src/clients/event-client.ts:95-99 | The entries selected from a batch are those at the positions with that flag: all of them, in order, and no other |
| `EventClient.EmitEventsAcknowledges` | packages/@eventual/aws-runtime/src/clients/event-client.ts:52-61 | n events cost at most 7 * ceil(n / 10) requests, and are all acknowledged if the call resolves |
| `EventClient.ChunksPartition` | packages/@eventual/aws-runtime/src/utils.ts:200-210 | ceil(n / size) chunks of 1 to size items that concatenate to the input, only the first of them short |
| `GroupedItems.InterleavingDoesNotMatter` | packages/@eventual/core-runtime/src/utils.ts:71-100 | However the groups interleave, the results of each one are those of its own calls in sequence: fulfilled a prefix, rejected all the rest from the first failure on |
| `GroupedItems.EveryItemSettlesOnce` | packages/@eventual/core-runtime/src/utils.ts:52-104 | In the end every input item is at its place in exactly one of fulfilled and rejected of its group |
| `GroupedItems.FailedIdsAreSuffixes` | packages/@eventual/core-runtime/src/handlers/entity-stream-worker.ts:45-64 | The ids reported are those of the items from the first failure of their key on, in whatever order the groups are listed |
| `GroupedItems.StreamHandler.HandleGroup` | packages/@eventual/core-runtime/src/utils.ts:73-98 | The handler sees the items of a group in order and none after the first failure; the results are settled accordingly |
| `GroupedItems.StreamHandler.Handle` | packages/@eventual/core-runtime/src/handlers/entity-stream-worker.ts:51-57 | A handler that returns false has failed |
| `GroupedItems.CollectGroups` | packages/@eventual/core-runtime/src/utils.ts:65-69 | The map of groups: one entry for each key that occurs, with its items in input order |
| `GroupedItems.GroupByGroups` | packages/@eventual/core-runtime/src/utils.ts:106-117 | The fold of groupBy gives that same map |
| `GroupedItems.MemberAtPlace` | packages/@eventual/core-runtime/src/utils.ts:65-69 | Every item is in its group, at the place given by the items of its key before it |
| `GroupedItems.PlacesGrow` | packages/@eventual/core-runtime/src/utils.ts:65-69 | Places follow input order, and no two items share one |
| `Orchestrator.RunExecutions` | packages/@eventual/core-runtime/src/handlers/orchestrator.ts:631-682 | Each valid execution of the batch is orchestrated once with all its events in message order and is in exactly one of succeeded and failed by its own outcome; an invalid id fails; text that does not parse stops the batch before anything is orchestrated |
| `Orchestrator.GroupKeepsEvents` | packages/@eventual/core-runtime/src/handlers/orchestrator.ts:642-656 | Grouping and flattening keeps the events of an execution in message order |
| `Orchestrator.EventStandsAt` | packages/@eventual/core-runtime/src/handlers/orchestrator.ts:644-656 | Each event of each message stands in the events of its execution right after those of the earlier messages, as it came or parsed from its text, and messages of other executions add nothing |
| `Orchestrator.ExecutionIdHasTwoParts` | packages/@eventual/core-runtime/src/workflow/execution.ts:3-9 | An execution id is its workflow name, one slash and a rest without slashes |
| `Orchestrator.TwoPartsAreExecutionId` | packages/@eventual/core-runtime/src/workflow/execution.ts:3-16 | And every name and rest without slashes make an execution id with that workflow name |
| `Orchestrator.HandleBatch` | packages/@eventual/aws-runtime/src/handlers/orchestrator.ts:56-77 | The messages reported are, as often as they occur, exactly those whose execution is invalid or failed; the handler throws exactly for a missing group, malformed text or a failed log flush |
| `Orchestrator.FailedMessagesAreReported` | packages/@eventual/aws-runtime/src/handlers/orchestrator.ts:65-70 | Every message of a failed group is reported as often as it is in the batch, and no other |
| `WorkflowStart.StartsAtMostOnce` | packages/@eventual/core-runtime/src/clients/workflow-client.ts:88-139 | However the calls for one execution id interleave, the start event goes out at most once, at most one caller is told that it started the execution, and the event is that caller's |
| `WorkflowStart.AlreadyRunningHasSameHash` | packages/@eventual/core-runtime/src/clients/workflow-client.ts:112-124 | In every run, a caller told that the execution is already running and the one who started it both brought no input, or both brought texts with one 32-bit polynomial hash |
| `WorkflowStart.SecondCallIsAlreadyRunningIff` | packages/@eventual/core-runtime/src/clients/workflow-client.ts:112-124 | Of any two calls, one after the other, the second is told that its execution is already running if neither brought an input or the hashes of their texts agree, and ends in an error in every other case |
| `WorkflowStart.DifferentInputsMayCollide` | packages/@eventual/core-runtime/src/clients/workflow-client.ts:69-72 | Two different inputs for which a run tells the second caller so |
| `WorkflowStart.EndTimeIsFirst` | packages/@eventual/aws-runtime/src/stores/execution-store.ts:110-119 | The end time is that of the first completion, whatever follows |
| `WorkflowStart.StatusIsLast` | packages/@eventual/aws-runtime/src/stores/execution-store.ts:122-142 | The status, with its error, is that of the last completion |
| `WorkflowStart.RecordIsNeverOverwritten` | packages/@eventual/aws-runtime/src/stores/execution-store.ts:55-157 | Between any two moments of any run a record keeps its origin, its input hash and any end time it has |
| `WorkflowStart.RecordHasStartEventIff` | packages/@eventual/aws-runtime/src/stores/execution-store.ts:107-157 | The record that is there was made by a start whose event went out if and only if no update came before it |
| `WorkflowStart.CompletedFirstBlocksStarts` | packages/@eventual/aws-runtime/src/stores/execution-store.ts:142-156 | After such an update no call ever starts the execution or finds it running |
| `WorkflowStart.CallIsFiveSteps` | packages/@eventual/core-runtime/src/clients/workflow-client.ts:109-132 | A call nobody interferes with leaves what its five steps in sequence leave |
| `WorkflowStart.WorkflowClient.StartExecution` | packages/@eventual/core-runtime/src/clients/workflow-client.ts:62-139 | For every combination of failures: the record afterwards with its hash and start event, and exactly when the caller is told that it started the execution, or that it is already running |
| `WorkflowStart.ExecutionStore.Create` | packages/@eventual/aws-runtime/src/stores/execution-store.ts:55-105 | Creates the record only if there is none |
| `WorkflowStart.ExecutionStore.Update` | packages/@eventual/aws-runtime/src/stores/execution-store.ts:107-157 | Sets status and result or error, keeps an end time that is there, drops the start event, and cannot return a record that was never created |
| `DeepEqual.EqualIffSameCanon` | packages/@eventual/core-runtime/src/utils.ts:262-304 | deepEqual holds exactly if both trees are identical once undefined entries are dropped and entry order is forgotten, at every depth |
| `DeepEqual.EqualityIsAnEquivalence` | packages/@eventual/core-runtime/src/utils.ts:262-304 | deepEqual is reflexive, symmetric and transitive |
| `HashCode.Hash` | packages/@eventual/core-runtime/src/utils.ts:230-238 | The loop yields ToInt32 of the sum of c_i * 31^(n-1-i), for strings of any length |
| `HashCode.HashOfConcatenation` | packages/@eventual/core-runtime/src/utils.ts:230-238 | The hash of s + t is ToInt32 of hash(s) times 31 to the length of t, plus hash(t) |

## Left out

- Workflow replay, the workflow executor and the local stores: `runExecutions` calls an arbitrary executor.
- Concurrent calls inside one transaction body: two reads of a key in flight could overwrite each other's cache entry.
- A transaction body that catches a failed store read, and unknown entity names: both only throw into the body.
- Attribute-level updates, index attributes and the 100-item limit of a transactional write: a value is one string.
- The reasons of a cancelled transactional write and the `failedItems` made of them: the executor drops them.
- Retry delays of the event client, including their combination with `&`: nothing is claimed about time there.
- Schema validation of events: it throws before the first request.
- Page tokens as base64 JSON, responses without `Items`, and page sizes below 1, which DynamoDB refuses.
- Batch streams, whose handler names the failed items itself.
- Reports to a parent workflow, task tokens and `sendHeartbeat` on an execution that is over: they add one branch each.
- A fallback invocation that itself fails for other reasons: the model lets it wait until it succeeds.
- A monitor goes on after its task has completed; the model does the same, and says nothing about completion.
- Schedule names with their sanitising, fractional durations, and the dead-letter queue of the scheduler.
- The order in which an object lists its groups: the proofs hold for every order.
- AWS SDK calls, metrics, logging, CDK constructs, the CLI, HTTP routing and bundling.
- TransactionExecutor.Executor.Execute: assumes, like `RunBody` and `ExecuteTransactionOnce`, that the body stops with the replies it gets; an attempt whose body does not never ends.
