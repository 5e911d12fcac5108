# A verified model of the User service

The service keeps users in an SQL table, copies of them in a Redis cache with a 30-minute life (optionally read through a
replica), and announces additions and deletions on Kafka, RabbitMQ or Pub/Sub. Its difficult behaviour comes from how a few
small pieces compose. This project models those pieces in Dafny and proves what they keep, over all inputs and all runs.

`dafny verify dfyconfig.toml` checks the whole project.

## How it is built

**The store.** `Database` is the table: the statements as a class that changes it, and specification functions that say what
each statement does for every argument and every way it can fail. `StoreMachine` splits each use case into its database step
and its cache step and lets any number of them interleave; faults, lost cache calls, time and the replica's progress are part
of the events, so that "every run" is "every sequence of events". `UseCases` holds the use cases as methods over real mutable
objects, each proved equal to its little program in the machine run without interruption. On the machine:

- `CallLaws` says of each call on its own who gets which reply, and what table and cache hold afterwards.
- `Staleness` bounds how old a served record can be, with every cache call free to fail and any interleaving, and shows that a
  record anywhere is one version the row really had. `Witnesses.WindowIsReached` shows the bound is tight.
- `Scripts` shows that in every run, with no restriction at all, the table and every write are decided by what the database
  sees: no cache, replica, read or delivery changes them.
- `Coherence` and `Transparency` take the calm setting (no replica, cache calls work, no database answer is lost, operations
  on one id do not overlap) and prove a refinement: the service with a cache, the service without one, and the service with
  any extra deliveries of user_created and user_deleted answer every read alike, too, unless the database refuses it.
  `AnsweredReads` ties every answer of such a run to one instant of the call that gave it.
- `ReplicaFreshness` drops the restriction on the replica: a served record is then as old as the two delays at most, whatever
  the life of a key.
- `Overlaps` drops the restriction on overlap and says exactly when a cache entry is right.
- `Witnesses` has a run for each of the four restrictions that goes wrong when it alone is dropped.

**Delivery.** `Retry` holds the two retry loops and `RetryLaws` their trace and backoff laws; `BackoffTraces` says
what the laws mean for the sleeps a policy's loop really takes. `KafkaDelivery` is one partition under one group with
cumulative commits, and characterises loss exactly; `KafkaConsumer` is the loop, proved to take those steps, and `KafkaLoop`
says what a whole run of it makes of the log. `Settlement`, `SettlingConsumers` and `RabbitLoop` do the same for Pub/Sub and
RabbitMQ. `Errors` and `Handlers` close the chain from a message body to its acknowledgement and its effect on the cache.
`Singleflight` is the shared group, and `SharedReads` puts it in front of the store.

**Arithmetic and transformations.** `Pagination`, `Dialect`, `Statements` and `StatementTexts` (placeholders, what they bind,
and the texts read back), `Headers` (claims across the Kafka hop), `MQConfig` (the configuration merge) and
`TopicConsumers` (from a topic's settings as written to what becomes of its messages).

Code that changes state is a class or a method with loops, proved against a specification function; the laws are lemmas about
those functions.

## Where the code and its documentation disagree

The model follows the code.

- The repository's README (lines 127-132) says `IsRetryable` treats everything except `INTERNAL_ERROR` and foreign errors as
  retryable. The code does the opposite: exactly those are retryable (`Errors.OutermostDecides`).
- `WithRetry`'s comment promises sleeps clamped to `MaxInterval`. The first sleep is not clamped, and without exponential
  backoff none is (`RetryLaws.SleepsWithinCap` says exactly which are). And the clamp comes after a conversion that Go leaves
  to the machine when the product does not fit 64 bits: the sleep can then be negative, which is no sleep
  (`BackoffTraces.SleepsArePositiveExactly` says exactly for which policies, attempts included, that is excluded;
  `OverflowRetriesAtOnce` is an example).
- The Kafka loop's comments promise that an unsettled message is redelivered after a restart. That holds exactly until the
  session's next commit, which passes over it for good (`KafkaDelivery.RedeliveredUntilNextCommit`, `LossExactly`,
  `RedeliveryPromiseFails`).
- `ProcessUserCreated` calls re-reading and re-caching safe to repeat. It is when it does not overlap a write to the same user
  (`Transparency.RedeliveryIsInvisible`); when it does, the cache can be left wrong with every call succeeding
  (`Witnesses.OverlapIsNotSafe`), namely exactly when the last record stored was no longer the row
  (`Overlaps.EntryIsRightExactly`), that is, when the row moved between the two steps of the operation that stored it
  (`EntryIsRightUnlessRowMoved`).
- The handlers promise redelivery per the topic's policy for retryable failures. No error their use cases can return is
  retryable, so every delivery is acknowledged at its first attempt, even when the database was down
  (`Handlers.EveryDeliveryIsAckedAtOnce`).

## Model

| member | source | states |
|---|---|---|
| `Errors.WrappingIsTransparent` | pkg/errors/errors.go:105-129 | Any tower of `%w` wraps leaves code and retry decision unchanged |
| `Errors.FirstAppOnChain` | pkg/errors/errors.go:109-110 | What errors.As finds is the first AppError of the unwrap chain, found by a search from the outside in |
| `Errors.OutermostDecides` | pkg/errors/errors.go:105-129 | The outermost AppError alone decides: retryable exactly when there is none or its code is Internal or none of the taxonomy's; causes it wraps are never consulted |
| `Errors.TextReadsTheChain` | pkg/errors/errors.go:41-46 | An error's text is the labels along its unwrap chain, outermost first, joined with ": " |
| `Errors.ConstructorsShowThrough` | pkg/errors/errors.go:55-77 | What each constructor's error says, and the code it keeps under any tower of wraps |
| `Database.DbReadWriter.AddUser` | internal/repository/database/add_user_sql.go:12-33 | The new table and the error for every argument and fault; nil if and only if the statement is served and no row has the id, the username or the email, and DuplicateKey otherwise when served |
| `Database.DbReadWriter.UpdateUser` | internal/repository/database/update_user_sql.go:12-47 | The same for an update: password and created_at stay, seven columns and updated_at change; DuplicateKey if and only if another row has the username or the email, NotFound for a missing row or, from a driver that counts changed rows, an unchanged one |
| `Database.DbReadWriter.DeleteUser` | internal/repository/database/delete_user_sql.go:11-30 | The row goes unless the statement is refused; nil if and only if it was there and the answer arrives, NotFound when served without it |
| `Database.DbReadWriter.GetUserByID` | internal/repository/database/get_user_by_id_sql.go:14-33 | The row if and only if the read is served and there is one; NotFound when served, a data access error when not |
| `StoreMachine.RunKeepsTableValid` | migrations/mysql/000001_create_users_table.up.sql:13-15 | Keys stay unique through every run |
| `Staleness.RunKeepsBacked` | internal/usecase/user_usecase.go:41-63 | Invariant of every run: each cached, replicated, in-transit, pending or returned record is backed by one version of its row recent enough for where the record is |
| `Staleness.ServedWithinWindow` | internal/usecase/get_by_id_user.go:15-34 | Whatever GetByID returns, the row held it, on the public columns, less than TTL plus the run's longest delay (plus the replica's lag) earlier |
| `Staleness.DeletedIsForgotten` | internal/repository/cache/user.go:9 | A user deleted and not re-added is never served once that window has passed |
| `Staleness.EveryRecordWasARow` | internal/usecase/process_user_created.go:17-29 | In every run, whatever its delays, no record mixes two versions of its row |
| `Coherence.CalmRunsAreCoherent` | internal/usecase/update_user.go:22-26 | In every calm run, with or without a replica, each entry of the master cache equals its row on the public columns, except while an operation on that very id is between its two steps |
| `Coherence.GetByIDAnswersAsTheTable` | internal/usecase/get_by_id_user.go:18-33 | In a calm run the step that fixes GetByID's answer, hit or read, tells what the table holds at that instant: the row, or NotFound if there is none; only a read not served answers DataAccess |
| `AnsweredReads.AnsweredReadsToldTheTable` | internal/usecase/get_by_id_user.go:15-34 | Every answer of GetByID in a calm run, to the end of the run, is the row or the NotFound of one instant of the call itself, or the DataAccess of its own refused read |
| `AnsweredReads.ReadsAreTruthful` | internal/usecase/process_user_created.go:20-23 | In every run, whatever fails and overlaps, a ProcessUserCreated that answers and a GetByID that fails tell what one read of their own found: Ok only of a row, NotFound only of none, DataAccess only of a database that did not serve it |
| `ReplicaFreshness.CalmRunsAreKnown` | internal/repository/repository.go:101-109 | Invariant of runs calm but for the replica: what the replica holds, or is about to, is the row, or a pending operation or a later write on its way knows better |
| `ReplicaFreshness.CalmReadsAreFresh` | internal/repository/repository.go:101-109 | In such runs what GetByID returned was the row at most the two delays before, and at that very moment when there is no replica |
| `Scripts.RunIsItsScript` | internal/usecase/update_user.go:22-26 | In every run, whatever fails and overlaps, table and writes are those of the run's database events on a store wired in any other way |
| `Scripts.WritesIgnoreReaders` | internal/usecase/process_user_created.go:17-29 | In every run, leaving out any deliveries and reads gives the same table and the same writes with the same replies, step by step |
| `Scripts.WritesIgnoreTheCache` | internal/usecase/user_usecase.go:41-63 | In every run, any other wiring of cache and replica gives the same table and the same writes |
| `Transparency.RunsStayAlike` | internal/usecase/process_user_created.go:17-29 | Simulation: a calm run with extra deliveries and one without, on differently wired caches, stay in lockstep on table and replies; a GetByID can differ only by the failure of its own read |
| `Transparency.RedeliveryIsInvisible` | internal/usecase/process_user_deleted.go:9-19 | Duplicate, late and reordered deliveries anywhere in a calm run change neither the table, nor any write, nor the public answer of any GetByID that the database did not refuse |
| `Transparency.CacheIsInvisible` | internal/usecase/get_by_id_user.go:12-34 | Refinement: in calm runs the service with a cache and the one wired without give the same table, writes and public GetByID answers, refused reads apart |
| `Overlaps.EntryIsDecided` | internal/usecase/process_user_created.go:20-25 | Invariant for every interleaving: under a cached id a write still has its cache step to come, or the last store decides whether the entry is right |
| `Overlaps.EntryIsRightExactly` | internal/usecase/process_user_created.go:10-16 | With working calls and any overlap, once no write on the id awaits its cache step the entry equals its row if and only if the last record stored under it was still the row |
| `Overlaps.StoreHasItsStep` | internal/usecase/user_usecase.go:41-50 | Whatever fails, each record about to be stored was the row right after a database step of its own operation |
| `Overlaps.EntryIsRightUnlessRowMoved` | internal/usecase/process_user_created.go:20-25 | The overlap itself: the entry is right if and only if the row did not move between the database step and the cache step of the operation that stored it last |
| `Overlaps.CalmStoresPutTheRow` | internal/usecase/process_user_created.go:10-16 | Without overlap every store puts the row |
| `Witnesses.OverlapIsNotSafe` | internal/usecase/process_user_created.go:20-25 | Any update of a public column overlapped by a user_created delivery can leave the old record live in the cache, every cache call working and every answer arriving |
| `Witnesses.LostAnswerLeavesTheEntry` | internal/usecase/delete_user.go:17-21 | A delete carried out but reported as failed leaves the deleted user live in the cache, nothing overlapping and every cache call working |
| `Witnesses.FailedCacheWriteLeavesTheEntry` | internal/usecase/user_usecase.go:41-50 | An update whose cache write fails leaves the old record live in the cache, nothing overlapping and every answer arriving |
| `Witnesses.ReplicaLagsBehind` | internal/repository/repository.go:101-109 | In a run that is calm otherwise the replica still shows the old record after an update |
| `Witnesses.WindowIsReached` | internal/repository/cache/user.go:9 | The staleness bound is tight: for every delay, and with a replica for every lag, some run serves a deleted user in the last second of the window |
| `UseCases.CallSpecByStep` | internal/usecase/get_by_id_user.go:15-34 | A call's effect is its first step, its read if it missed, and its cache step, in that order |
| `UseCases.UninterruptedCall` | internal/usecase/add_user.go:26-30 | For all six calls, the effect as a whole equals the step machine's run of the call on its own |
| `UseCases.CacheReadWriter.GetUser` | internal/repository/cache/get_user_cache.go:14-27 | A hit exactly for a present, reachable, unexpired key; every other case is an error |
| `UseCases.CacheReadWriter.SetUser` | internal/repository/cache/set_user_cache.go:12-24 | Overwrites the key and restarts its 30 minutes, or fails and changes nothing |
| `UseCases.CacheReadWriter.DeleteUser` | internal/repository/cache/delete_user_cache.go:11-16 | Removes the key, or fails and changes nothing |
| `UseCases.UserUseCase.SetCacheWithBestEffort` | internal/usecase/user_usecase.go:41-50 | Changes the cache if there is one and it works; never fails the call |
| `UseCases.UserUseCase.DeleteCacheWithBestEffort` | internal/usecase/user_usecase.go:54-63 | The same for eviction |
| `UseCases.UserUseCase.GetByID` | internal/usecase/get_by_id_user.go:15-34 | Table untouched, cache and reply as the call's specification, replica before master |
| `UseCases.UserUseCase.Add` | internal/usecase/add_user.go:15-46 | Fills in a missing id in place, refuses an invalid user before touching anything, publishes exactly when the insert succeeded, and ignores cache and publisher failures |
| `UseCases.UserUseCase.Update` | internal/usecase/update_user.go:15-30 | Refuses an invalid user before touching anything; otherwise table, cache and reply as specified |
| `UseCases.UserUseCase.Delete` | internal/usecase/delete_user.go:14-32 | Table, cache and reply as specified; publishes exactly when the delete succeeded |
| `UseCases.UserUseCase.ProcessUserCreated` | internal/usecase/process_user_created.go:17-29 | Re-reads the row and re-caches it; the table is untouched |
| `UseCases.UserUseCase.ProcessUserDeleted` | internal/usecase/process_user_deleted.go:12-19 | Evicts; never fails |
| `CallLaws.AddExactly` | internal/usecase/add_user.go:15-30 | Add is nil if and only if the insert is served and no row has the id, the username or the email; DuplicateKey and DataAccess exactly otherwise; what table and cache hold afterwards |
| `CallLaws.UpdateExactly` | internal/usecase/update_user.go:15-30 | The same for Update against the other rows: NotFound if and only if the row is missing or, where the driver counts changed rows, already as requested at the clock's resolution |
| `CallLaws.DeleteExactly` | internal/usecase/delete_user.go:14-21 | The same for Delete: NotFound if and only if served and the row missing; a success alone evicts |
| `CallLaws.GetByIDExactly` | internal/usecase/get_by_id_user.go:15-34 | A live reachable key is answered without the database; on a miss NotFound if and only if served and the row missing, DataAccess if and only if not served, else the row, then cached for its full life |
| `CallLaws.ProcessUserCreatedExactly` | internal/usecase/process_user_created.go:17-29 | The same codes for user_created; the row as it is now is cached for its full life |
| `CallLaws.ProcessUserDeletedExactly` | internal/usecase/process_user_deleted.go:12-19 | user_deleted is never an error, leaves the table alone, and evicts that one key from a cache that takes the call |
| `CallLaws.FailuresNameTheUser` | internal/repository/database/get_user_by_id_sql.go:26-28 | A missing user's error is NotFound with the id under the use case's name, for all four calls that can miss it; a duplicate id is named too |
| `CallLaws.WrittenIsReadForHalfAnHour` | internal/repository/cache/user.go:9 | After a successful add or update GetByID returns what was written without the database for exactly 1800 seconds |
| `CallLaws.EvictedIsReadAgain` | internal/usecase/get_by_id_user.go:18-33 | A key evicted under memory pressure costs the next GetByID one read, and nothing else |
| `CallLaws.RepeatedUpdate` | internal/usecase/update_user.go:15-30 | The same update again within the same second changes nothing; a driver that counts matched rows answers nil, one that counts changed rows answers NotFound |
| `CallLaws.DeleteUndoesAdd` | internal/usecase/delete_user.go:14-32 | Deleting what was just added restores the table, and a working cache forgets the user |
| `Singleflight.KeysAreInjective` | internal/endpoint/user_endpoint.go:154-186 | For all strings, a well-typed request shares its key with another exactly when it is the same request to the same endpoint |
| `Singleflight.Group.Enter` | internal/endpoint/endpoint.go:26-33 | A caller leads exactly when no call with its key is in flight, otherwise joins |
| `Singleflight.Group.Finish` | internal/endpoint/endpoint.go:29-32 | The run's result goes to every caller waiting under the key, and to nobody else |
| `Singleflight.CallersGetTheirOwn` | internal/endpoint/endpoint.go:20-34 | In every interleaving each well-typed caller gets what its own endpoint answered to an equal request, in an execution that began no later than the caller entered and ended no earlier: it leads one or joins, and a joiner starts none |
| `Singleflight.IllTypedAreRefused` | internal/endpoint/user_endpoint.go:130-149 | A caller with a request of the wrong type is told so and never given an answer |
| `Singleflight.OneExecutionPerKey` | internal/endpoint/endpoint.go:22-25 | At most one execution per key at any time, and no caller waits without one |
| `SharedReads.JoinersGetFreshRecords` | internal/endpoint/endpoint.go:22-25 | Leader or joiner, a caller of GetByID gets the answer for its own id, and a record its row held within the staleness window of the caller's own return |
| `Retry.WithRetry` | pkg/messaging/retry.go:17-65 | The loop's result and its whole trace of checks, calls and sleeps, for every policy, environment and machine conversion of overflowing products, equal the specification's |
| `Retry.Do` | pkg/retry/retry.go:20-48 | The same for the fixed-delay helper |
| `RetryLaws.LoopIsCut` | pkg/messaging/retry.go:37-64 | The trace is the undisturbed check-call-sleep rhythm cut right after its first decisive act, which also gives the result |
| `RetryLaws.WithRetryLaw` | pkg/messaging/retry.go:31-64 | At most max(1, MaxRetries + 1) calls, nothing after a success or an observed cancellation, every sleep of the right length, nil exactly when the last act is a call that succeeded |
| `RetryLaws.ExhaustionReportsLastError` | pkg/messaging/retry.go:47-64 | Uncancelled exhaustion makes MaxRetries + 1 calls, one when that is below one or wraps, sleeps once less and returns the last error |
| `RetryLaws.DoLaw` | pkg/retry/retry.go:20-48 | At most max(1, MaxAttempts) calls, exactly so many on uncancelled exhaustion, every sleep the configured delay or 200 ms, nil exactly when the last act is a call that succeeded |
| `RetryLaws.FixedBackoffIsDo` | pkg/retry/retry.go:20-48 | Without exponential backoff both helpers give the same trace and result in every environment |
| `RetryLaws.SleepsWithinCap` | pkg/messaging/retry.go:57-62 | An interval respects MaxInterval if and only if it is a later exponential one or the first interval already does |
| `RetryLaws.TotalSleepBound` | pkg/messaging/retry.go:51-62 | n attempts sleep at most the first interval plus n - 2 caps, overflow or not |
| `RetryLaws.NoOverflow` | pkg/messaging/retry.go:58 | When backoff is fixed, growth is too slow to move an interval, or first interval and cap times the multiplier both fit 64 bits, no product ever leaves 64 bits and every interval is positive |
| `RetryLaws.GuardIsExact` | pkg/messaging/retry.go:57-62 | Over any number of attempts, that guard is the exact condition for positive intervals on every machine |
| `BackoffTraces.SleepsArePositiveExactly` | pkg/messaging/retry.go:31-62 | No sleep of any trace of a policy is negative, on any machine, if and only if backoff is fixed or none of the first Attempts - 2 intervals times the multiplier leaves 64 bits |
| `BackoffTraces.SleepsNeverShrinkExactly` | pkg/messaging/retry.go:31-62 | No trace of a policy shortens a sleep if and only if it sleeps once at most, backoff is fixed, or it is safe in that sense and its first sleep is within the cap |
| `BackoffTraces.CapIsReachedExactly` | pkg/messaging/retry.go:31-62 | With a multiplier of at least 2 and the first interval doubled k times at least the cap, every sleep from the k-th on is the cap if and only if there is none or the policy is safe |
| `BackoffTraces.NextSleepExactly` | pkg/messaging/retry.go:57-62 | In every trace and on every machine a sleep is the one before it times the multiplier, rounded down, or MaxInterval where that is less |
| `BackoffTraces.SleepsInClosedForm` | pkg/messaging/retry.go:57-62 | With a whole multiplier m the i-th sleep of a safe policy is min(first * m^i, cap), for every i >= 1, and each is taken when every attempt fails |
| `BackoffTraces.DefaultSleeps` | pkg/messaging/messaging.go:53-65 | The default policy, and the one with nothing set but five retries: six calls, after sleeps of 2, 4, 8, 16 and 30 seconds |
| `BackoffTraces.GuardIsSafe` | pkg/messaging/retry.go:57-62 | The closed-form guard is enough for every number of attempts |
| `BackoffTraces.OverflowRetriesAtOnce` | pkg/messaging/retry.go:58 | A policy with two retries whose second sleep is negative on a machine that converts like amd64, so that the retry is immediate |
| `BackoffTraces.OneRetryIsSafe` | pkg/messaging/retry.go:47-58 | With one retry the same policy fails the guard and still sleeps as it should |
| `BackoffTraces.FirstSleepExceedsTheCap` | pkg/messaging/retry.go:18-25 | A policy whose first sleep is twice MaxInterval, and its second MaxInterval |
| `KafkaDelivery.RunsAreAccounted` | pkg/messaging/kafka/consumer.go:76-122 | Invariant of every run: each offset is settled, overtaken, skipped in this session, in hand, or still to be fetched |
| `KafkaDelivery.StoryIsTheRun` | pkg/messaging/kafka/consumer.go:107-121 | The machine's account of skipped and overtaken offsets is what the events of the run say |
| `KafkaDelivery.LossExactly` | pkg/messaging/kafka/consumer.go:107-121 | An offset below the mark is lost if and only if it was never settled and some session left it unsettled and then committed a higher one |
| `KafkaDelivery.LossIsForever` | pkg/messaging/kafka/consumer.go:120-121 | No continuation of the run, restarts included, brings a lost offset back |
| `KafkaDelivery.NothingLostWithDLQ` | pkg/messaging/kafka/consumer.go:107-119 | With a dead-letter topic that takes every write nothing is ever lost |
| `KafkaDelivery.RedeliveredUntilNextCommit` | pkg/messaging/kafka/consumer.go:116-121 | A skipped offset is fetched again after a restart if and only if nothing was committed in between |
| `KafkaDelivery.RestartRefetches` | pkg/messaging/kafka/consumer.go:76-85 | A new session fetches the first message not committed over, and nothing settled is undone |
| `KafkaDelivery.RedeliveryPromiseFails` | pkg/messaging/kafka/consumer.go:120-121 | A concrete run after which offset 0 is lost whatever follows |
| `KafkaConsumer.Consumer.Produce` | pkg/messaging/kafka/kafka.go:52-65 | A message arrives at the end of the log; everything accounted for stays so |
| `KafkaConsumer.Consumer.Commit` | pkg/messaging/kafka/consumer.go:102-105 | Moves the committed mark past the message in hand, or leaves it when the commit fails |
| `KafkaConsumer.Consumer.DeadLetter` | pkg/messaging/kafka/consumer.go:107-119 | Appends one letter with the message's value, its rebuilt headers and the newest error, then commits; a failing write leaves the offset |
| `KafkaConsumer.Consumer.HandleOne` | pkg/messaging/kafka/consumer.go:93-121 | One message takes exactly the machine's steps for its retry result; dead letters and dead offsets keep standing for each other, one letter per dead-lettering |
| `KafkaConsumer.Consumer.ConsumeLoop` | pkg/messaging/kafka/consumer.go:72-123 | While messages keep arriving the loop takes exactly the machine's steps, turn by turn, until it is stopped or cancelled |
| `KafkaConsumer.DeadLetterReadsBack` | pkg/messaging/kafka/consumer.go:107-112 | A dead letter reads back as the message's value and headers with the newest error, whatever order the map was ranged over |
| `KafkaConsumer.TurnFate` | pkg/messaging/kafka/consumer.go:98-121 | What a turn makes of its message and of the mark: handled, dead-lettered or skipped, and the mark moves past it and all skipped ones exactly when it was settled and the commit worked |
| `KafkaLoop.LoopFate` | pkg/messaging/kafka/consumer.go:72-123 | The whole loop, over every sequence of turns: messages are fetched in the order of the log, each ends handled or dead-lettered as its own turn says, the mark is past the last one settled whose commit worked; a failed fetch costs nothing, a stop or a cancelled fetch ends it |
| `KafkaLoop.OffsetsAreTheTurns` | pkg/messaging/kafka/consumer.go:93-119 | Which offsets those are: one per turn that succeeds, or is dead-lettered, at the number of messages fetched before it |
| `KafkaLoop.MarkIsTheLast` | pkg/messaging/kafka/consumer.go:102-116 | The mark is past the last turn that was settled and committed, whatever failed before it |
| `Settlement.RunsConserve` | pkg/messaging/pubsub/consumer.go:84-102 | Conservation in every run: each published message is in exactly one place, and left the queue only handled, dead-lettered or dropped |
| `Settlement.PubSubLosesNothing` | pkg/messaging/pubsub/consumer.go:84-102 | On Pub/Sub nothing is lost, through crashes, lost acks and failing dead-letter publishes |
| `Settlement.AckedOnlyWhenSafe` | pkg/messaging/pubsub/consumer.go:88-97 | An ack settles a message only after a nil handler result or a successful dead-letter publish |
| `Settlement.CrashIsRedelivered` | pkg/messaging/pubsub/consumer.go:84-102 | In every run a new message reaches the handler, and one in hand when its consumer dies reaches it again with everything else as it was |
| `Settlement.DropsExactlyWithoutExchange` | pkg/messaging/rabbitmq/consumer.go:113-119 | A message can be dropped if and only if the broker is RabbitMQ and the queue has no dead-letter exchange |
| `SettlingConsumers.PubSubConsumer.OnMessage` | pkg/messaging/pubsub/consumer.go:84-102 | The callback takes exactly the machine's steps on the real queue: it acks iff the handler succeeded or the dead letter went out, and whatever was acked is handled or dead-lettered |
| `SettlingConsumers.PubSubFate` | pkg/messaging/pubsub/consumer.go:88-101 | Where the message ends: settled if handled or dead-lettered and the ack arrives, otherwise pending again |
| `SettlingConsumers.RabbitMQConsumer.HandleOne` | pkg/messaging/rabbitmq/consumer.go:104-119 | A message from the queue is settled once: acked on success, nacked without requeue otherwise; acked messages are handled, routed ones dead |
| `SettlingConsumers.RabbitMQConsumer.ConsumeLoop` | pkg/messaging/rabbitmq/consumer.go:83-122 | While messages keep being published the loop takes exactly the machine's steps until the context ends or the channel closes |
| `SettlingConsumers.RabbitFate` | pkg/messaging/rabbitmq/consumer.go:108-119 | Where the message ends: handled, dead-lettered or dropped, and settled iff the answer arrives |
| `RabbitLoop.LoopFate` | pkg/messaging/rabbitmq/consumer.go:83-122 | The whole loop up to cancellation or the closed channel: exactly the deliveries whose handler succeeds are handled, exactly those whose nack arrives are dead-lettered or, without the exchange, dropped |
| `SettlingConsumers.CancelledBeforeHandling` | pkg/messaging/rabbitmq/consumer.go:104-119 | A delivery taken after cancellation never reaches its handler: dead-lettered or dropped on RabbitMQ; on Pub/Sub kept, unless a dead-letter publish still works |
| `Handlers.RetriedExactlyWhenTransient` | internal/delivery/messaging/user_created_consumer.go:39-75 | A delivery is asked for again if and only if its body decodes and the failure reported has no terminal code outermost on its unwrap chain, however it is wrapped |
| `Handlers.UseCaseErrorsAreTerminal` | internal/repository/database/get_user_by_id_sql.go:26-32 | No error either consumer use case can return is retryable, in any state of the store |
| `Handlers.EveryDeliveryIsAckedAtOnce` | internal/delivery/messaging/user_deleted_consumer.go:33-69 | Uncancelled, every delivery of either topic calls its handler once and ends with nil, whatever the database and the cache do |
| `Handlers.DeletionReachesTheCache` | internal/delivery/messaging/user_deleted_consumer.go:51-68 | A user_deleted delivery evicts that one key from a cache that takes the call, touches nothing else, and its endpoint reports nothing |
| `Handlers.CreationReachesTheCache` | internal/delivery/messaging/user_created_consumer.go:57-74 | A user_created delivery whose row is read leaves exactly that row under its id for its full life; otherwise it touches nothing and its endpoint reports NotFound or DataAccess |
| `Handlers.UserConsumer.Handle` | internal/delivery/messaging/user_deleted_consumer.go:33-69 | One delivery on the real use cases: whether it is asked for again, and what it leaves in the cache; a body that does not decode leaves everything |
| `Handlers.OneAttemptIsEnough` | internal/delivery/messaging/user_deleted_consumer.go:51-68 | Uncancelled and with a cache that takes the call, the one attempt of a delivery evicts the deleted user, or caches the created one |
| `Handlers.KafkaHandles` | internal/delivery/messaging/user_created_consumer.go:57-74 | On Kafka such a message ends handled, nothing is dead-lettered or skipped, and the mark passes it if the commit works |
| `Handlers.PubSubHandles` | internal/delivery/messaging/user_created_consumer.go:57-74 | On Pub/Sub it ends handled and, if the ack arrives, settled |
| `Handlers.RabbitMQHandles` | internal/delivery/messaging/user_deleted_consumer.go:51-68 | On RabbitMQ the same, and nothing is dropped |
| `Headers.ToMetadata` | pkg/claims/claims.go:46-61 | The map holds exactly the non-empty claims |
| `Headers.KeysOnTheWire` | pkg/claims/claims.go:46-61 | The four names the claims travel under |
| `Headers.Overlay` | internal/repository/mq/publish_user_created.go:27-31 | Claims win over trace headers, in any iteration order |
| `Headers.AppendHeaders` | pkg/messaging/kafka/kafka.go:58-60 | The header list is the map's entries in iteration order |
| `Headers.RebuildHeaders` | pkg/messaging/kafka/consumer.go:93-96 | The rebuilt map: a later header wins over an earlier one of the same key |
| `Headers.ListingRoundTrip` | pkg/messaging/kafka/consumer.go:93-96 | Listing a map in any order and rebuilding it gives the map back |
| `Headers.DeadLetterCarriesNewestError` | pkg/messaging/kafka/consumer.go:108-112 | A dead letter reads back as the delivery's headers with x-error set to the newest error |
| `Headers.ClaimsSurviveExactly` | pkg/claims/claims.go:46-72 | The consumer reads the publisher's claims if and only if the trace puts nothing under the key of an empty claim |
| `Headers.ClaimsAcrossTheHop` | internal/repository/mq/publish_user_created.go:27-31 | The four loops composed: claims survive over every disjoint trace map and every iteration order |
| `Pagination.CountPages` | pkg/util/pagination.go:45-48 | The page count is the ceiling, stated by its defining inequalities |
| `Pagination.CeilingIsUnique` | pkg/util/pagination.go:45-48 | No other page count satisfies them |
| `Pagination.Validate` | internal/domain/pagination.go:22-29 | Normalises in place, 1 and 10 for what is below 1 and 100 for a larger size; the nil request is the only error |
| `Pagination.GetAllUsersPaginated` | internal/repository/database/get_all_users_paginated_sql.go:12-52 | The page's rows in order and the total, or a data access error and nothing |
| `Pagination.GetAllPaginated` | internal/usecase/get_all_users_paginated.go:14-31 | The metadata names the page that was queried with its total and page count, and the items are that page; a request with nothing set gets the first ten rows |
| `Pagination.PagesPartition` | internal/repository/database/get_all_users_paginated_sql.go:16-30 | Pages 1 to TotalPages joined are the whole listing, for every requested size |
| `Pagination.PageSizes` | internal/repository/database/get_all_users_paginated_sql.go:16-30 | Every page but the last is full, the last is not empty, later ones are |
| `Pagination.OffsetFits` | internal/repository/database/get_all_users_paginated_sql.go:16 | For every int32 request the offset is at most (2^31 - 2) * 100, far inside 64 bits; the largest request attains it |
| `Pagination.TotalPagesFitsExactly` | internal/delivery/grpc/grpc_get_all_users_paginated.go:34 | The int32 conversion of the page count is exact if and only if TotalItems is at most pageSize * (2^31 - 1) |
| `Dialect.ParseItoa` | internal/repository/database/dialect.go:28-33 | The decimal rendering in a placeholder reads back as the number |
| `Dialect.Args` | internal/repository/database/dialect.go:36-42 | The loop's text is the comma-joined placeholders start to start + count - 1 |
| `Dialect.NumberedReadsBack` | internal/repository/database/dialect.go:28-33 | PostgreSQL reads from the text exactly the numbers the statement was written with |
| `Dialect.OrderedCounts` | internal/repository/database/dialect.go:28-33 | MySQL counts placeholders from left to right, whatever their numbers |
| `Dialect.DialectsAgreeExactly` | internal/repository/database/dialect.go:1-7 | Both drivers bind alike if and only if the statement numbers its placeholders 1, 2, 3, ... in text order |
| `Dialect.ArgsReadBack` | internal/repository/database/dialect.go:36-42 | args(start, count) split and parsed gives start to start + count - 1 |
| `Statements.BindsInOrder` | internal/repository/database/dialect.go:26-42 | Under either driver a statement so numbered binds its arguments in order |
| `Statements.InsertWritesTheUser` | internal/repository/database/add_user_sql.go:16-24 | Under either driver, the one row holding in each column the statement names the value bound there, NOW() in the last two, is the row that the table specification inserts |
| `Statements.UpdateWritesTheUser` | internal/repository/database/update_user_sql.go:16-31 | Under either driver, the column named in WHERE selects the user's row, and the one row with the bound values in the columns named and the old ones elsewhere is the specification's |
| `Statements.PagedSelectBinds` | internal/repository/database/get_all_users_paginated_sql.go:24-30 | The rows cut out by the values bound to LIMIT and OFFSET are the requested page |
| `Statements.SearchBinds` | internal/repository/database/search_users_sql.go:16-23 | The pattern is bound to the columns username, email and full_name |
| `Statements.LookupBinds` | internal/repository/database/get_user_by_id_sql.go:18-21 | The column named in WHERE picks exactly the rows with the id, for select and delete |
| `StatementTexts.InsertReadsBack` | internal/repository/database/add_user_sql.go:16-19 | Under either driver the names in the rendered INSERT are the table and the eleven columns in the order of their values |
| `StatementTexts.UpdateReadsBack` | internal/repository/database/update_user_sql.go:16-25 | Under either driver the rendered UPDATE gives username the first parameter, and so on to id, the eighth |
| `StatementTexts.UpdateNamesTheTable` | internal/repository/database/update_user_sql.go:16-17 | The rendered UPDATE is of the table users |
| `StatementTexts.LookupsReadBack` | internal/repository/database/search_users_sql.go:16-20 | The same for the search's three patterns and for the lookup by id |
| `StatementTexts.PagedSelectText` | internal/repository/database/get_all_users_paginated_sql.go:24-30 | The end of the rendered paged select: LIMIT is followed by the first parameter, OFFSET by the second, under either driver |
| `StatementTexts.NamesAreDistinct` | migrations/mysql/000001_create_users_table.up.sql:1-12 | No two columns share a name |
| `MQConfig.FirstNonEmpty` | internal/config/mq.go:208-215 | Empty if all values are; otherwise some value with only empty ones before it |
| `MQConfig.ResolveOne` | internal/config/mq.go:136-201 | Every field by itself is the topic's own value if set, else the general one, else the default; other brokers' blocks are untouched |
| `MQConfig.Resolve` | internal/config/mq.go:134-206 | One merged entry per topic, for every iteration order |
| `MQConfig.ResolveIgnoresOrder` | internal/config/mq.go:134-206 | The result is the same whatever the order |
| `MQConfig.FallbacksUnused` | internal/repository/mq/dynamic_consumer.go:20-28 | From non-negative settings none of the retry loop's fallbacks is reached: the topic's own intervals are used exactly when they fit, its retries are one less than the attempts, and its multiplier is kept exactly when above 1 |
| `TopicConsumers.BuildConsumer` | internal/repository/mq/dynamic_consumer.go:19-66 | The consumer of the topic's own broker, queue and group, with each of the topic's settings in its place; an unknown broker is an error |
| `TopicConsumers.FailingTopic` | internal/repository/mq/dynamic_consumer.go:20-28 | From the settings as written, topic over general over default: a handler that keeps failing is called retries + 1 times, the first sleep is the initial interval, fixed backoff repeats it, and exponential backoff stays within the maximum |
| `TopicConsumers.GrowingTopic` | internal/repository/mq/dynamic_consumer.go:20-28 | On a topic whose settings as written ask for exponential backoff, in every trace and on every machine, each sleep is the one before it times the multiplier as written (2 if that is at most 1), rounded down, or the maximum as written where that is less |
| `TopicConsumers.KafkaTopicFate` | internal/repository/mq/dynamic_consumer.go:20-37 | In every run of the topic's Kafka consumer a message is dead-lettered if and only if it fails for good, the settings as written dead-letter, and the write works |
| `TopicConsumers.PubSubTopicFate` | internal/repository/mq/dynamic_consumer.go:54-61 | The same on Pub/Sub, where a message that fails otherwise is pending again |

## Left out

- CacheIsInvisible: an operation's reply is compared once both runs have given it, and calm runs only are compared on reads.
- EntryIsRightExactly: cache calls that fail and lost database answers are excluded; the witnesses show what they do.
- NoOverflow: the multiplier is an exact real number, where the service uses a float64, so products near a limit may round over it; a NaN multiplier is not modelled.
- GetAllUsersPaginated: rows come in one fixed total order and count and select see the same table; ties under ORDER BY created_at and writes between the two statements are not modelled.
- EveryDeliveryIsAckedAtOnce: a context cancelled before the first attempt is excluded; `CancelledBeforeHandling` says what happens then.
- OneAttemptIsEnough: a context cancelled before the attempt is excluded here too; what a cache that refuses the call keeps is in `DeletionReachesTheCache` and `CreationReachesTheCache`.
- SleepsInClosedForm: whole multipliers of safe policies; `NextSleepExactly` covers every multiplier, one sleep at a time.
- Validation and publishing are part of the use-case methods but not of the step machine, where a publish would touch nothing that is read back; validation and id generation are answers of the environment.
- Cache keys are ids: the fixed "user:" prefix does not change which keys are equal. Marshalling is a faithful copy.
- SQL is modelled with exact string equality; collation, truncation and column lengths are not modelled.
- GetAll and Search beyond the binding of the search pattern, which add only a second row loop.
- Kafka: one partition and one reader at a time. A rebalance is a restart that finds the loop with no message in hand, or abandons the one it has; commits from a session that lost its partition, compaction and several partitions per reader are not modelled.
- RabbitMQ's rendering of non-string header values, queue and exchange declaration, and Pub/Sub attributes on a dead letter, which the service passes on unchanged.
- Singleflight's own source is not part of this model; its contract is the step rules. Panics and callers sharing one result by pointer are not modelled.
- Errors with several causes (errors.Join, several %w verbs), which the service does not build.
- Starting and stopping consumers (internal/server/consumers_wiring.go) and building and closing publishers (internal/repository/mq/dynamic_publisher.go), repository assembly and its Close: easy loops.
- The circuit breaker, JWT and struct validation, UUIDs, configuration loading, broker and Redis clients, TLS: libraries whose source is not part of this model.
- gRPC and HTTP delivery, mapping to and from protobuf, logging, telemetry, clearing the whole cache: plumbing.
