# kafkaman in Dafny

A model of kafkaman's durable pipeline and proofs of what it promises: a producer's
committed state reaches a consumer's cache through a Postgres outbox, Kafka, a
received table and a guarded cache upsert, despite retries, duplicate publishes,
expired leases, crashes, redrives and topic rebuilds.

The project has three layers.

- **Protocols.** `SendProtocol` and `ReceiveProtocol` are state machines whose steps
  are single SQL statements, broker appends and crashes, interleaved in any order.
  `SendInvariant` and `ReceiveInvariant` say what every step keeps; `SendTheorems`,
  `ReceiveTheorems`, `HandlerRuns`, `RetryBudget`, `FailureFate`, `SkipBreaker` and
  `EndToEnd` say what that means for whole runs.
- **Tables and loops.** `OutboxTable`, `Relay`, `Resync`, `EntityCache`,
  `Dispatcher`, `Ingester`, `Roles` and `Migrations` are the same operations in the
  code's own imperative form, each proved against the protocol's functions or an
  order-free specification. `OutboxSteps` shows that the outbox table's transactions
  are runs of the send protocol, each naming the state it reaches in full, so that
  calls with fresh ids chain; `RelaySteps` shows it of whole relay cycles.
- **Self-contained pieces.** Canonical JSON and the hash preimage (`Json`,
  `CanonicalJson`, `Idempotency`, `Hex`), the wire round trip (`HeaderNames`,
  `Wire`), `tracestate` and `traceparent` (`Text`, `Tracestate`), the generated
  changelog (`VersionOrder`, `Changelog`), the success sampler (`Lifecycle`) and the panic breaker
  (`PanicBreaker`).

`dafny verify dfyconfig.toml` checks everything.

## What the model takes as given

- Each SQL statement is one atomic step. `SKIP LOCKED` with `LIMIT` is an arbitrary
  set of eligible rows in the protocols, and the first page of the rows nobody has
  locked in the tables. The enqueue's supersede reaches an arbitrary subset of the
  entity's pending rows, because a fixed snapshot may miss some.
- Message ids, claim ids and idempotency keys are fresh; the advisory lock key of an
  entity is an arbitrary function, so two entities may share one.
- A worker publishes only while its claim generation is current on the row. Live
  writers commit their state change and its enqueue in one transaction, and a repair
  loads under the lock it enqueues under. One entity stays on one partition.
- Between the marks of a relay cycle other workers may do anything to the table except
  give this claim generation a row or change one it still holds. Every step of the
  protocol keeps to that: `SendTheorems.HeldRowsUntouched`.
- Only where a result says that errors resume does consumption go back to the committed
  offset after a transient consume error. The code calls `recv` again with no visible
  seek (crates/kafkaman-rdkafka/src/consumer.rs:527-540), and
  `ReceiveTheorems.NoLossNeedsResume` shows a record is lost without one. Convergence,
  effectively-once dispatch and the retry budget do not depend on it.
- A retry policy has at least one attempt, as configuration validation demands
  (crates/kafkaman-config/src/retry.rs:102-107), and the breaker limits are positive.
- UUID and timestamp codecs undo themselves, and SHA-256 is a function given from
  outside.
- Times, attempts and offsets are unbounded integers; the sampler's u64 is explicit.

## Where a promise has a limit

- *The newest visible outbox row carries the committed state* fails once retention
  has deleted the newest row and an older Superseded one remains:
  `SendWitness.SweepLeavesOlderRow` is such a run, and
  `SendTheorems.PurgeKeepsNewestExactly` says which sweeps keep it. What a consumer
  sees is not affected: the newest message is then already in the log.
- *Attempts never exceed the policy's budget plus the redrives* fails when a failure
  is recorded after its claim transaction was lost: `RetryBudget.FallbackOverruns` is
  such a run. `RetryBudget.HarmlessExactly` says which runs are safe from it,
  `RetryBudget.AttemptsStayInBudget` that the bound holds in those,
  and `ReceivedRows.AttemptsBounded` what late records can add.

## Model

| member | source | states |
|---|---|---|
| `EndToEnd.Converges` | crates/kafkaman-sqlx/src/dispatch.rs:513-557 | In every interleaving of enqueue, repair, claim, publish, mark, purge, ingest, consume-error, dispatch, failure, crash and redrive steps, an entity with nothing pending or in flight, its records received and its received rows processed is cached exactly when the producer has it, with its committed payload, whatever became of other entities and of quarantined records |
| `EndToEnd.DrainedConverges` | crates/kafkaman-rdkafka/src/consumer.rs:283-479 | When errors resume, acknowledging the whole log with nothing quarantined and every row processed makes the cache exactly the producer's committed state |
| `EndToEnd.NewestReceived` | crates/kafkaman-rdkafka/src/consumer.rs:283-403 | Once an entity is settled, its newest accepted message is a received row at a record of its own partition |
| `EndToEnd.NeverQuarantined` | crates/kafkaman-rdkafka/src/consumer.rs:355-393 | A record this producer published never conflicts or fails to decode, so in every run without ingest panics nothing is quarantined and the breaker never trips |
| `SendInvariant.StepInv` | crates/kafkaman-sqlx/src/outbox_claim.rs:27-120 | Every step of writers, repairs, relays and sweeps keeps the send invariant: unique orders, one row in flight, log order, locks held to commit, domain mirrored by the newest message |
| `SendTheorems.LogNeverDecreases` | crates/kafkaman-sqlx/src/outbox_claim.rs:39-88 | One entity's broker records never decrease in enqueue order in any reachable state |
| `SendTheorems.VisibleInOrder` | crates/kafkaman-sqlx/src/outbox_enqueue.rs:157-181 | What a commit makes claimable is newer than every accepted row of its entity that was ever visible |
| `SendTheorems.NewestNeverLost` | crates/kafkaman-sqlx/src/outbox_claim.rs:183-217 | At most one in-flight row per entity, every Superseded row is behind a newer accepted message, and the newest accepted message is live or already in the log |
| `SendTheorems.PurgeRemovesNothingClaimable` | crates/kafkaman-sqlx/src/outbox_purge.rs:32-83 | Whatever a sweep may delete is claimable in no continuation of the run |
| `SendTheorems.NewestCarriesCommitted` | crates/kafkaman-sqlx/src/resync.rs:54-72 | Whichever side waited on the lock, the newest accepted message carries the committed state, and it is the newest visible row exactly while retention has not deleted it |
| `SendTheorems.RepairNeverOverwrites` | crates/kafkaman-sqlx/src/resync.rs:154-186 | In every run without sweeps the newest visible accepted row carries the entity's committed state |
| `SendTheorems.PurgeKeepsNewestExactly` | crates/kafkaman-sqlx/src/outbox_purge.rs:47-62 | After any sweep the newest visible row of an entity is still its newest message if and only if the sweep spared that row or left no accepted row of the entity; what is visible instead carries the committed state exactly when its payload is the same |
| `SendTheorems.HeldRowsUntouched` | crates/kafkaman-sqlx/src/outbox_mark.rs:16-89 | A row a claim generation holds after any step it held before, and the row is unchanged |
| `SendTheorems.OnlyDueRowsTaken` | crates/kafkaman-sqlx/src/outbox_claim.rs:43-60 | A row goes into flight or changes hands only by a claim, and only if it was Pending with its attempt time reached or its lease had run out |
| `SendWitness.SweepLeavesOlderRow` | crates/kafkaman-sqlx/src/outbox_purge.rs:47-62 | A concrete reachable state whose newest visible row says "a" while the committed state is "b" |
| `SendTheorems.LostClaimStaysLost` | crates/kafkaman-sqlx/src/outbox_mark.rs:16-89 | Once a claim generation lost a row it never holds it again, so its late mark changes nothing in any continuation |
| `SendTheorems.QuiescentLog` | crates/kafkaman-worker/src/relay.rs:88-201 | With nothing of an entity pending or in flight, its committed state is in the log and nothing of it in the log is newer |
| `OutboxRows.ClaimOneInFlight` | crates/kafkaman-sqlx/src/outbox_claim.rs:39-88 | Claiming any set of candidates leaves at most one row per entity in flight, older than everything still pending |
| `OutboxRows.ClaimLeavesAlone` | crates/kafkaman-sqlx/src/outbox_claim.rs:43-60 | Whatever candidates a claim settles on, a Publishing row whose lease has not run out stays exactly as it is, and no Pending row whose attempt time lies ahead goes into flight |
| `OutboxRows.PurgeLeavesAlone` | crates/kafkaman-sqlx/src/outbox_purge.rs:47-62 | A sweep deletes no live row, none from the cutoff on, and a Failed one only on request; what stays is unchanged |
| `OutboxTable.Outbox.Enqueue` | crates/kafkaman-sqlx/src/outbox_enqueue.rs:84-181 | A used message id is a duplicate and changes no row; a missing identity keeps exactly a Failed audit row; otherwise accepted, and the new row is the entity's only pending one and ahead of all rows |
| `OutboxTable.Outbox.CollapseStalePending` | crates/kafkaman-sqlx/src/outbox_claim.rs:153-217 | Supersedes exactly what the first page of due, newest pending rows overtook |
| `OutboxTable.Outbox.ClaimBatch` | crates/kafkaman-sqlx/src/outbox_claim.rs:27-120 | Collapses behind the first page of due newest rows, then claims the first page of claimable unlocked rows: in strictly increasing enqueue order, one per entity, all held by the new claim, predecessors superseded. Live leases and rows not yet due are left alone, and a row whose lease ran out is missed only when the page is full of earlier rows |
| `OutboxTable.Outbox.MarkPublished` | crates/kafkaman-sqlx/src/outbox_mark.rs:16-45 | Moves the row only for the claim generation that holds it; the outcome tells a lost claim from a deleted row |
| `OutboxTable.Outbox.MarkPublishFailed` | crates/kafkaman-sqlx/src/outbox_mark.rs:48-89 | Returns the row to Pending with its retry time only for the generation that holds it |
| `OutboxTable.Outbox.PurgeOnce` | crates/kafkaman-sqlx/src/outbox_purge.rs:32-83 | Deletes exactly the oldest page of terminal unlocked rows from before the cutoff and counts them; an old terminal row is left only when the batch is full of rows no younger |
| `OutboxTable.ClaimableApart` | crates/kafkaman-sqlx/src/outbox_claim.rs:43-60 | Two claimable rows are never of one entity |
| `OutboxSteps.ClaimBatchIsSteps` | crates/kafkaman-sqlx/src/outbox_claim.rs:34-88 | The table's claim is a collapse step and a claim step of the protocol, reaching exactly the claimed rows and the issued claim |
| `OutboxSteps.EnqueueIsSteps` | crates/kafkaman-sqlx/src/outbox_enqueue.rs:157-181 | The table's enqueue at any time is one writer's whole protocol transaction: rows, sequence, domain, minted and newest message are exactly its |
| `OutboxSteps.RepairIsSteps` | crates/kafkaman-sqlx/src/resync.rs:154-180 | What a repair commits for one key is a whole protocol transaction that loads under the lock and leaves the committed state alone |
| `OutboxSteps.AuditIsSteps` | crates/kafkaman-sqlx/src/outbox_enqueue.rs:140-153 | The audit row of a refused enqueue is a protocol transaction of its own |
| `OutboxSteps.PublishedIsStep` | crates/kafkaman-sqlx/src/outbox_mark.rs:16-45 | Marking an acknowledged publish is one protocol step, whether or not the claim still holds the row |
| `OutboxSteps.FailedIsStep` | crates/kafkaman-sqlx/src/outbox_mark.rs:48-89 | Marking a failed publish is one protocol step |
| `OutboxSteps.PurgeIsStep` | crates/kafkaman-sqlx/src/outbox_purge.rs:47-62 | The table's sweep is one protocol step that changes the rows and nothing else |
| `RelaySteps.RelayIsSteps` | crates/kafkaman-worker/src/relay.rs:88-201 | With any protocol steps of others between a publish and its mark, and the claim current at each publish, what a relay cycle leaves in the table is the rows of a reachable protocol state |
| `RelaySteps.RelayedLog` | crates/kafkaman-worker/src/relay.rs:88-118 | Each record that reached the log, acknowledged or not, follows what its partition held at its publish and stays there |
| `RelaySteps.AloneTurns` | crates/kafkaman-worker/src/relay.rs:88-201 | Undisturbed, the claim is current on every row at its turn, so the whole cycle is a protocol run |
| `RelaySteps.AloneLog` | crates/kafkaman-worker/src/relay.rs:88-118 | Undisturbed, each partition gains exactly the records the cycle sent there, in order |
| `Relay.RelayOnce` | crates/kafkaman-worker/src/relay.rs:44-204 | Claims exactly the first page of claimable unlocked rows, publishes them in strictly increasing enqueue order and marks each after whatever other workers did to any row; the table and the counts end exactly there, or at the first mark that errs. Every row it got to is counted once and is no longer in flight under the claim |
| `Relay.WorkedReleases` | crates/kafkaman-worker/src/relay.rs:88-201 | Whatever others do to any row of the batch at any time, no row the cycle got to stays in flight under its claim, and what the claim still holds is untouched |
| `Relay.AloneExactly` | crates/kafkaman-worker/src/relay.rs:88-201 | Undisturbed, each row worked on is Published if acknowledged and else Pending at its retry time, no other row changes, and none is stale or missing |
| `Relay.SentInOrder` | crates/kafkaman-worker/src/relay.rs:88-118 | Whatever subset of a batch reaches the log, its records are in strictly increasing enqueue order |
| `Relay.SentExactly` | crates/kafkaman-worker/src/relay.rs:88-118 | What reached the log is exactly the records of the publishes that were acknowledged or reached it without |
| `Relay.WorkedConserves` | crates/kafkaman-worker/src/relay.rs:83-204 | Published, failed, stale and missing always sum to the rows processed |
| `Relay.WorkedCounts` | crates/kafkaman-worker/src/relay.rs:83-204 | Each count is of the rows with its fate when their mark came: held and acknowledged, held and failed, lost to another claim, deleted |
| `Resync.Resync` | crates/kafkaman-sqlx/src/resync.rs:110-191 | The committed keys are exactly the pages' keys up to where the run ended, strictly increasing and after the cursor, and it ended for exactly one reason: an empty page, a failed callback, an invalid page or the first key that could not be repaired. The table holds their repairs and nothing else; each is reported once with exact counts, and each found entity's current state is its only pending row |
| `Resync.RepairKey` | crates/kafkaman-sqlx/src/resync.rs:154-180 | One key's transaction succeeds exactly when the load works and finds nothing, or finds this entity with an identity and an unused id; each error has its own cause and rolls back |
| `Resync.KeyErrorExactly` | crates/kafkaman-sqlx/src/resync.rs:154-180 | Nothing stops a key exactly when its entity is gone or found under that key with an identity and an unused id; each error has exactly its cause |
| `StringOrder.LessExactly` | crates/kafkaman-sqlx/src/resync.rs:146-153 | One key is before another exactly when it ends or has the smaller character where they first differ |
| `StringOrder.IsIncreasing` | crates/kafkaman-sqlx/src/resync.rs:146-153 | Checking neighbours decides whether a whole page is strictly increasing |
| `EntityCache.CacheTable.UpsertFromReceived` | crates/kafkaman-sqlx/src/dispatch_cache.rs:42-91 | The guarded insert followed by classification is the one guarded upsert per entity, and an origin mismatch leaves the cache alone |
| `EntityCache.CacheTable.ClassifySkipped` | crates/kafkaman-sqlx/src/dispatch_cache.rs:116-178 | Nothing written means ignored, migrated to the declared topic, or an origin mismatch |
| `EntityCache.CacheEndsAtBest` | crates/kafkaman-sqlx/src/dispatch_cache.rs:42-178 | Applying declared-topic rows and stragglers of one retired topic never fails and ends at the greatest declared offset if any was seen, else the greatest retired one |
| `EntityCache.OrderIndependent` | crates/kafkaman-sqlx/src/dispatch_cache.rs:116-178 | Any order and any repeats of the same rows end in the same cache row |
| `EntityCache.UpsertKeepsBest` | crates/kafkaman-sqlx/src/dispatch_cache.rs:42-91 | One upsert never moves the cache backwards |
| `EntityCache.RepartitionAlwaysFails` | crates/kafkaman-sqlx/src/dispatch_cache.rs:116-178 | A partition change within one topic always fails |
| `ReceivedRows.HistoryIsNewestFailures` | crates/kafkaman-sqlx/src/received_rows.rs:209-234 | After any failures, redrives and clears the stored errors are exactly the newest failures since the last clear, in order, and the denormalised columns are its last entry or both absent |
| `ReceivedRows.RedriveFiltersLatestFailure` | crates/kafkaman-sqlx/src/replay.rs:288-313 | A kind- or time-filtered redrive picks rows by their true latest failure |
| `ReceivedRows.AttemptsBounded` | crates/kafkaman-sqlx/src/retry_backoff.rs:54-65 | Attempts stay within the budget plus history-preserving redrives since the last clear plus failures recorded against a count the row had moved on from |
| `ReceivedRows.StuckSplitIsCoalesce` | crates/kafkaman-sqlx/src/operability.rs:551-576 | The index-friendly predicate selects exactly the non-terminal rows with COALESCE(next_attempt_at, created_at) at or before the cutoff |
| `ReceivedRows.DueExactly` | crates/kafkaman-sqlx/src/received_rows.rs:27-58 | After any life a row is due exactly when it is open with no next attempt ahead, so every stuck row is claimable |
| `RetryBudget.AttemptsStayInBudget` | crates/kafkaman-sqlx/src/retry_backoff.rs:54-65 | In every run whose late records on a row are harmless, its attempts never exceed max_attempts plus its own history-preserving redrives since its last clear, and while open it has an attempt left |
| `RetryBudget.InClaimIsHarmless` | crates/kafkaman-sqlx/src/dispatch_failure.rs:105-148 | A run whose failures on a row are all recorded in their claim transactions is harmless to it |
| `RetryBudget.OverrunExactly` | crates/kafkaman-sqlx/src/dispatch_failure.rs:105-148 | A late record is harmless, that is exhausts the row or leaves an attempt, if and only if no dispatch that may follow takes the row past its budget |
| `RetryBudget.HarmlessExactly` | crates/kafkaman-sqlx/src/dispatch_failure.rs:105-148 | All late records of a run on a row are harmless if and only if at no point of the run one more dispatch could take the row past its budget |
| `RetryBudget.FallbackOverruns` | crates/kafkaman-sqlx/src/dispatch_failure.rs:105-148 | A concrete run of the protocol in which a late record takes a row to three attempts of a budget of two |
| `RetryBudget.FailuresFinite` | crates/kafkaman-sqlx/src/retry_backoff.rs:54-65 | In every run harmless to a row the failures recorded on it are at most max_attempts once and again per clear of it, plus one per history-preserving redrive of it |
| `RetryBudget.DispatchesFinite` | crates/kafkaman-sqlx/src/retry_backoff.rs:54-65 | So are its dispatches that keep their transaction, and strictly fewer while it is neither Processed nor Failed |
| `RetryBudget.DispatchRecords` | crates/kafkaman-sqlx/src/dispatch.rs:223-320 | A dispatch records a failure exactly when it neither processes its row nor loses its transaction |
| `FailureFate.FateExactly` | crates/kafkaman-sqlx/src/retry_backoff.rs:54-65 | A dispatch that records a failure leaves its row Failed if and only if the fault is an origin mismatch or an unusable entity key or the row has now used max_attempts attempts, and else Retryable at its retry time; the newest entry says when, what and in whose code |
| `FailureFate.LateFateExactly` | crates/kafkaman-sqlx/src/dispatch_failure.rs:105-148 | A late record gives the row up by the count its claim saw, and adds one attempt |
| `FailureFate.GivesUpOnlyWhenSpent` | crates/kafkaman-sqlx/src/retry_backoff.rs:54-65 | In every run without a late record or a hopeless fault on a row, a Failed row has used all its attempts |
| `ReceiveInvariant.StepCore` | crates/kafkaman-sqlx/src/dispatch.rs:223-320 | Every step of the receive protocol, consume errors that do not resume included, keeps what holds of the tables: unique keys, rows decoded from their positions, effects once, cache derived from and covering processed rows |
| `ReceiveInvariant.StepInv` | crates/kafkaman-rdkafka/src/consumer.rs:283-479 | Every step whose errors resume also keeps what the committed offsets and the consumer's position owe to the tables |
| `ReceiveTheorems.StoredOnce` | crates/kafkaman-sqlx/src/received_storage.rs:44-137 | In every run no two received rows share an idempotency key, and each is the record at its own position, decoded |
| `ReceiveTheorems.IngestDurable` | crates/kafkaman-rdkafka/src/consumer.rs:283-479 | When errors resume, every record below the committed offset has a received row with its key or a quarantine row at its position, keys are unique, and a breaker trip leaves its record diagnosed and unacknowledged |
| `ReceiveTheorems.NoLossNeedsResume` | crates/kafkaman-rdkafka/src/consumer.rs:527-540 | After a transient error, storing and acknowledging the next record leaves the failed one accounted for if and only if consumption resumed from the committed offset |
| `ReceiveTheorems.RestartReadsOn` | crates/kafkaman-rdkafka/src/consumer.rs:283-403 | After a restart the next ingest is of the first unacknowledged record, whatever stopped the consumer |
| `SkipBreaker.TripsExactly` | crates/kafkaman-rdkafka/src/consumer.rs:355-466 | In every run an ingest trips the breaker if and only if it ends max_skips skipped records in a row since the last restart; a stored or duplicate record starts the count again |
| `SkipBreaker.StreakExactly` | crates/kafkaman-rdkafka/src/consumer.rs:418-466 | The streak reaches n exactly when the last n records were all skipped |
| `ReceiveTheorems.EffectivelyOnce` | crates/kafkaman-sqlx/src/dispatch.rs:513-557 | In every state of every run handler effects belong to processed rows, at most once per position, and the cache is never at a row without its post-upsert handler's effects unless the pre-hook skipped it |
| `HandlerRuns.HandlersExactly` | crates/kafkaman-sqlx/src/dispatch.rs:513-557 | A committed dispatch leaves the hook's effects if registered, and the post-upsert handler's if and only if that is registered, not skipped, and the commit moved the cache to this very record |
| `HandlerRuns.HandlersRunForward` | crates/kafkaman-sqlx/src/dispatch.rs:513-557 | In every run the post-upsert handler sees one entity's records in increasing offset, whatever the order of dispatches, retries and redrives |
| `ReceiveTheorems.DispatchAllOrNothing` | crates/kafkaman-sqlx/src/dispatch.rs:223-320 | A dispatch commits its effects, the upsert and the processed mark together, or changes neither effects nor cache and records at most one failure on its row |
| `ReceiveTheorems.EffectsCommitWithTheMark` | crates/kafkaman-sqlx/src/dispatch.rs:223-320 | No step other than the commit that marks a row Processed changes effects or cache |
| `ReceiveTheorems.TerminalExactlyHopeless` | crates/kafkaman-sqlx/src/dispatch_failure.rs:56-103 | A bookkeeping failure is terminal if and only if no retry against the same tables can succeed |
| `ReceiveTheorems.StepIsLifeEvent` | crates/kafkaman-sqlx/src/received_rows.rs:61-169 | Whatever a step does to a stored row is one allowed event of its life, in-claim failures with the row's own attempt count |
| `ReceiveTheorems.ProcessedIsFinal` | crates/kafkaman-sqlx/src/replay.rs:288-313 | A processed row never changes again in any continuation |
| `ReceiveTheorems.RowsCarryTheirHistory` | crates/kafkaman-sqlx/src/received_rows.rs:209-234 | In every state of every run each row's error history has the bounded length, its last entry is what the columns say, and its schedule matches its status |
| `Dispatcher.Dispatcher.ClaimReceivedRow` | crates/kafkaman-sqlx/src/received_rows.rs:27-58 | The oldest due unlocked row, or none exactly when there is none |
| `Dispatcher.Dispatcher.MarkReceivedProcessed` | crates/kafkaman-sqlx/src/received_rows.rs:61-91 | Only an open row is marked, and the outcome tells stale from missing |
| `Dispatcher.Dispatcher.RecordReceivedFailure` | crates/kafkaman-sqlx/src/received_rows.rs:126-234 | The statement's exhaustion, schedule and trimmed history are the specified record of the failure |
| `Dispatcher.Dispatcher.ConvergeAndDispatch` | crates/kafkaman-sqlx/src/dispatch.rs:513-557 | Handlers, upsert and mark in place converge the tables as specified, or report exactly the specified fault |
| `Dispatcher.Dispatcher.UnwindAndRecord` | crates/kafkaman-sqlx/src/dispatch.rs:665-694 | The failure is recorded on its row in the claim transaction or, when that is lost and others may have been at the row, on a fresh connection; the outcome is that record's, or none when there is no connection |
| `Dispatcher.Dispatcher.DispatchOnce` | crates/kafkaman-sqlx/src/dispatch.rs:134-320 | With handlers that write before failing, the savepoint makes one cycle equal the protocol's dispatch of the claimed row, followed by the late record when its transaction is lost; a failure counts exactly when its record updated the row, and a panicked row is named exactly when its handler panicked |
| `Dispatcher.FinishedIsSteps` | crates/kafkaman-sqlx/src/dispatch_failure.rs:105-148 | Such a cycle is the protocol's dispatch step and, after a lost transaction and whatever others do, the step that records or drops the failure |
| `Dispatcher.Dispatcher.RedriveReceived` | crates/kafkaman-sqlx/src/replay.rs:213-331 | Moves exactly the first page of matching unlocked Failed rows back to Pending: none left out failed before one that was taken, the older row going first |
| `Ingester.Ingester.ConflictOutcome` | crates/kafkaman-sqlx/src/received_storage.rs:140-178 | Reading the conflicting rows in any order classifies the conflict as the constraints do |
| `Ingester.Ingester.InsertReceived` | crates/kafkaman-sqlx/src/received_storage.rs:44-137 | Inserts exactly when neither the message id nor the key is stored |
| `Ingester.Ingester.Quarantine` | crates/kafkaman-rdkafka/src/consumer.rs:418-466 | The diagnosis is stored, then the breaker asked, then the offset committed |
| `Ingester.Ingester.IngestOnce` | crates/kafkaman-rdkafka/src/consumer.rs:247-403 | Leaves the tables as the protocol's ingest does, counts the record as inserted, duplicate or skipped as it was, and trips if and only if the last max_skips records it was given were all skipped, committing the offset otherwise |
| `Json.SameNorm` | crates/kafkaman-core/src/idempotency.rs:256-270 | Values equal up to object key order have one normal form |
| `Json.NormSame` | crates/kafkaman-core/src/idempotency.rs:256-270 | Values with one normal form are equal up to object key order |
| `Json.NumberCharExactly` | crates/kafkaman-core/src/idempotency.rs:235-273 | A number is written with digits, signs, point and exponent only |
| `CanonicalJson.ReadWrite` | crates/kafkaman-core/src/idempotency.rs:235-273 | A reader recovers every value from its text, whatever follows it |
| `Idempotency.WriteCanonicalJson` | crates/kafkaman-core/src/idempotency.rs:235-273 | The recursive writer with its sorting appends exactly the canonical text |
| `Idempotency.CanonicalIsFaithful` | crates/kafkaman-core/src/idempotency.rs:227-273 | Canonical texts are equal if and only if the values are the same up to key order, and the text reads back to the normal form |
| `Idempotency.WriteNoNul` | crates/kafkaman-core/src/idempotency.rs:235-273 | No NUL appears in written text |
| `Idempotency.PreimageInjective` | crates/kafkaman-core/src/idempotency.rs:127-151 | Two preimages are equal if and only if namespace and source are, for all namespaces |
| `Idempotency.IdentitiesAgree` | crates/kafkaman-core/src/idempotency.rs:127-180 | Under a collision-free digest identities agree exactly with namespace and source, and a bare string agrees with nothing but itself under the string namespace |
| `Idempotency.WhitespaceExactly` | crates/kafkaman-core/src/idempotency.rs:127-180 | What counts as blank is the twenty-five code points of Unicode White_Space |
| `Hex.ToHex` | crates/kafkaman-core/src/idempotency.rs:58-65 | Two lowercase digits per byte, high nibble first |
| `Hex.FromHex` | crates/kafkaman-core/src/idempotency.rs:26-52 | Exactly 64-digit texts of either case decode |
| `Hex.NibbleExactly` | crates/kafkaman-core/src/idempotency.rs:26-52 | A digit's value is its place among the sixteen, in either case, and nothing else is a digit |
| `Hex.DecodeEncode` | crates/kafkaman-core/src/idempotency.rs:26-65 | Every 32-byte key survives the trip through its text |
| `Hex.EncodeDecode` | crates/kafkaman-core/src/idempotency.rs:26-65 | Every accepted text comes back in lowercase |
| `HeaderNames.ReservedAlike` | crates/kafkaman-core/src/message.rs:65-74 | Enqueue and ingest draw the reserved namespace alike under any casing, and trace keys lie outside it |
| `HeaderNames.FoldsLettersOnly` | crates/kafkaman-core/src/message.rs:65-74 | Folding moves the upper-case ASCII letters to their lower-case ones and changes nothing else |
| `Wire.RecordHeadersOf` | crates/kafkaman-rdkafka/src/ingest_record.rs:194-251 | The one-pass loop sorts headers into the three namespaces |
| `Wire.ReservedIsFirst` | crates/kafkaman-rdkafka/src/ingest_record.rs:213-244 | A reserved lookup finds the first value under any casing, so no later header overrides it |
| `Wire.UserIsLast` | crates/kafkaman-rdkafka/src/ingest_record.rs:213-244 | A user header is the last value under exactly its key, and never a reserved or trace key |
| `Wire.EnqueuedExactly` | crates/kafkaman-sqlx/src/outbox_enqueue.rs:84-153 | Refused exactly for a reserved header or a missing identity; what is stored is the envelope, with the entity under its own header exactly when the record is not routed by it |
| `Wire.PublishHeaders` | crates/kafkaman-rdkafka/src/publisher.rs:67-112 | Publishes every stored header but the trace keys exactly once, then the managed ones |
| `Wire.IngestRefusesExactly` | crates/kafkaman-rdkafka/src/ingest_record.rs:96-160 | A record is accepted exactly with the declared topic, a decodable payload, a hexadecimal key and managed headers that parse, judging the first header under any casing |
| `Wire.RoundTrip` | crates/kafkaman-rdkafka/src/ingest_record.rs:96-160 | For every accepted envelope, publish then ingest yields the same ids, time, identity and payload and exactly the original headers minus the trace keys, and the published trace |
| `Tracestate.Sanitize` | crates/kafkaman-core/src/trace.rs:209-242 | The member loop computes the specified normal form |
| `Tracestate.SanitizedIsSound` | crates/kafkaman-core/src/trace.rs:209-287 | An accepted value is the input's own members in order, all of them or the first 32, each grammatical under section 3.3 of the W3C Trace Context Recommendation with a non-blank last character, keys distinct |
| `Tracestate.CharactersExactly` | crates/kafkaman-core/src/trace.rs:245-287 | The grammar's characters by code point: lower-case letters, digits, and printable ASCII but comma and equals |
| `Text.TrimExactly` | crates/kafkaman-core/src/trace.rs:209-242 | Trimming a member cuts the spaces and tabs at both ends, all of them and nothing else |
| `Tracestate.RefusedExactly` | crates/kafkaman-core/src/trace.rs:209-287 | Refused exactly when too long, empty, ungrammatical anywhere or repeating a key anywhere |
| `Tracestate.SanitizeIdempotent` | crates/kafkaman-core/src/trace.rs:209-242 | An accepted value re-sanitises to itself |
| `Tracestate.KeyIsGrammar` | crates/kafkaman-core/src/trace.rs:245-268 | The key check is the grammar's simple or multi-tenant key |
| `Tracestate.IsWellFormedTraceparent` | crates/kafkaman-core/src/trace.rs:113-149 | Accepts exactly four valid fields and, for versions other than 00, up to twelve non-empty appended ones |
| `Tracestate.HexFieldExactly` | crates/kafkaman-core/src/trace.rs:113-149 | A field is lower-case hexadecimal of its length, and zero only if every digit is |
| `Tracestate.Version00Layout` | crates/kafkaman-core/src/trace.rs:113-149 | A version 00 value is accepted exactly in the closed 55-character form |
| `Changelog.Band` | crates/kafkaman-sqlx/src/generated_changelog.rs:123-143 | The band is the digest's first five bytes, below 2^40 |
| `VersionOrder.AssertOrder` | crates/kafkaman-sqlx/src/changelog.rs:12-31 | Accepts exactly strictly ascending versions and names the first that breaks the order, apart if it is a repeat |
| `Changelog.Build` | crates/kafkaman-sqlx/src/generated_changelog.rs:213-247 | Two tables sharing a band always collide; otherwise the result is the one ascending changelog of the set of tables, and the order check never fails |
| `Changelog.ChangelogUnique` | crates/kafkaman-sqlx/src/generated_changelog.rs:213-247 | One set of tables has one changelog, whatever order they came in |
| `Changelog.ChangelogVersions` | crates/kafkaman-sqlx/src/generated_changelog.rs:145-155 | It starts at version 1, stays below 2^51, and every version names its table's band |
| `Changelog.CreateBeforeUpgrade` | crates/kafkaman-sqlx/src/generated_changelog.rs:157-180 | In every changelog a table is created at version 1000 + 1024 * band, and an outbox upgraded at the next version and later in the list |
| `Roles.RoleRegistry.Declare` | crates/kafkaman-sqlx/src/roles.rs:127-184 | Accepted exactly when compatible with everything accepted before; a refusal names the conflict and changes nothing |
| `Roles.DeclareAll` | crates/kafkaman-sqlx/src/roles.rs:127-184 | Declares one after the other on one registry and stops at the first refusal |
| `Roles.DeclaredExactly` | crates/kafkaman-sqlx/src/roles.rs:127-184 | A sequence is accepted exactly when its declarations are pairwise compatible, counting repeats, and the registry then says of each type exactly what was declared |
| `Roles.ReflectsUnique` | crates/kafkaman-sqlx/src/roles.rs:100-184 | What was declared determines the registry |
| `Roles.Schema` | crates/kafkaman-sqlx/src/roles.rs:222-244 | Declarations give the changelog of exactly the tables they need, or the band collision |
| `Roles.OrderIndependent` | crates/kafkaman-sqlx/src/roles.rs:237-244 | Declaring in another order is refused alike or gives the same registry, collides alike and gives one changelog |
| `Migrations.History.DryRun` | crates/kafkaman-sqlx/src/migration_runner.rs:95-178 | Refuses exactly a disordered changelog, naming where its order breaks; otherwise reports every changeset's fate, drifted ones included, and changes nothing |
| `Migrations.History.Migrate` | crates/kafkaman-sqlx/src/migration_runner.rs:68-244 | Succeeds exactly when the changelog is ordered and the preview lists nothing that stops a run, with the preview's report read as applied; otherwise fails at the first such changeset with the earlier steps kept |
| `Migrations.StopsExactly` | crates/kafkaman-sqlx/src/migration_runner.rs:181-244 | A run stops at an active changeset applied with another checksum, or not applied and not building, and says which |
| `Migrations.PreviewedExactly` | crates/kafkaman-sqlx/src/migration_runner.rs:95-178 | A changeset is kept out exactly when it names contexts and none is active, and else is pending, applied or drifted by its history row |
| `Migrations.SecondRunAppliesNothing` | crates/kafkaman-sqlx/src/migration_runner.rs:181-244 | After a run that got through, a second one only skips and changes no history |
| `Lifecycle.LifecycleSampler.Take` | crates/kafkaman-core/src/lifecycle.rs:112-131 | Emits exactly what is newly owed, saturating only past u64 |
| `Lifecycle.TakeAll` | crates/kafkaman-core/src/lifecycle.rs:112-131 | Every way of splitting N successes into batches emits floor(N * numerator / 1000000), never ahead of the rate and never a whole event behind |
| `Lifecycle.NumeratorNearRate` | crates/kafkaman-core/src/lifecycle.rs:57-66 | Sampled exactly for a positive rate of per-message events, within half a millionth of the requested rate, except that a smaller rate samples one in a million and none exceeds all |
| `PanicBreaker.RunDispatcher` | crates/kafkaman-worker/src/dispatcher.rs:40-130 | Stops at the first cycle after which the distinct rows that panicked since the last non-panicking claim reach the limit, and only there |
| `PanicBreaker.StreakOn` | crates/kafkaman-worker/src/dispatcher.rs:77-112 | Idle and errored cycles never change the streak and a non-panicking claim clears it |
| `PanicBreaker.OnePoisonRowNeverTrips` | crates/kafkaman-worker/src/dispatcher.rs:173-186 | A single poison row never brings the streak past one, however often it is retried |

## Left out

- Retry backoff and jitter (crates/kafkaman-sqlx/src/retry_backoff.rs:78-110): floating-point arithmetic over the policy; the retry time is an input of the model.
- MVCC behaviour inside one statement, and a worker publishing after it lost its lease: outside what the statements can fence.
- Savepoints nested by an enqueue inside a caller's transaction: a transaction of the send protocol commits or aborts as a whole.
- Outbox rows without an entity key: enqueue always sets one.
- Log compaction and deletions: a log only grows, and a missing entity makes no tombstone.
- Statements of one transaction on the receive side are merged: claim, savepoint, handlers, upsert, mark and commit are one protocol step, taken apart only in `Dispatcher`.
- Roles.RoleRegistry.Declare: a descriptor's topic settings beyond its topic are not modelled, so which declaration's settings are kept is not stated.
- Migrations.History.DryRun: preview texts, replay estimates and a preview that cannot be rendered are not modelled; every pending changeset previews as WouldApply.
- Migrations.History.Migrate: the advisory lock, the pool size check and failing DDL statements other than a changeset that does not build are not modelled.
- An enqueue whose message id is already used: only the table has it; in the protocol ids are fresh.
- Relay.RelayOnce: the sampling of success events is not modelled here, only in `Lifecycle`.
- Wire.RoundTrip: the fallback from the publishing span's trace context to the stored one is taken as already resolved, and the payload's own serialisation is assumed to decode.
- Idempotency.IdentitiesAgree: the digest is any collision-free function of the preimage text, not SHA-256 over its UTF-8 bytes.
- Lifecycle.NumeratorNearRate: the rate is a real number, so the rounding of a binary float before scaling is not modelled.
- 32-bit overflow of the attempts column: attempts are unbounded.
- Axum routes, admin and DLQ views, OpenTelemetry, configuration parsing, topic convergence, DDL text and index names: plumbing or string templates without protocol state.
