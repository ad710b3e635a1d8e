# idmMw, modelled and verified in Dafny

idmMw is a middleware between an identity-management system and the systems it manages. Webhooks announce changes;
the middleware delivers each change to a connector, once, with retries, a dead-letter queue and, optionally, Kafka in
between. This project models the parts of it that carry state, time or text formats, and proves what they promise.

`dafny verify dfyconfig.toml` checks everything.

## What is modelled

* **Delivery** (`Events`, `Idempotency`, `Dlq`, `DlqLease`, `Delivery*`, `Handlers`). The protocol is a step machine:
  webhook handlers, queue workers and operator retries run interleaved, each awaited call is one step, and the
  scheduler, the connector, the database and the queue choose freely. `Handlers` holds the same handlers as code;
  while one awaits, the others take any steps, and together they make a run of that machine. `DlqLease` follows one
  dead letter through any number of overlapping retries, and `DeliveryLease` shows that every dead letter of every
  delivery run does so. Theorems about runs that may fail name the failing step: `Occurs` says that a run contains it.
* **Encryption and rotation** (`Encryption`, `EncryptionStart`, `Rotation`, `RotationHistory`). Row-by-row re-encryption
  that may fail at any write and be rerun, and the startup gate with every history of processes that pass it. Encryption
  is ideal: a cell carries its key id and its plaintext.
* **Caches and windows** (`Registry`, `LogBuffer`, `Metrics`, `Saml`). Each is proved against the simple thing it
  stands for: the current table, a filter of the whole log, the whole history, a set that is never pruned.
* **Printers and trees** (`Json`, `Canonical`, `Redaction`, `Shell`, `Sql`). Text is read back by a JSON parser, a
  shell lexer and an SQL lexer written here from the standards.
* **Arithmetic** (`Ip`, `Retry`). IPv4 masks on 32-bit words; capped backoff with jitter.

Assumptions: `setIfNotExists` is one atomic step; HMAC texts are injective in key id and source; the clock never goes
back; a step reads the clock once unless two readings are named as parameters; a poll reads count and latest stamp at
one moment, except in `Registry.TornVersionUnseenIff`. A call that throws may still have changed the target; only
reported success counts as delivery. Time, randomness, connector outcomes, secret-key patterns, the locale comparator,
`Number(text)` and signature checks are parameters.

## What turned out not to hold

* `src/inbound/webhooks/webhook.service.ts:46` joins target name and event id with a colon. README.md:140-142 of the
  repository puts the target into the id so that systems do not collide; `Events.TargetsCollideIff` says when they do,
  `Events.RuleCollideIff` when they still do under that rule, and `Events.CollisionExample` gives such a pair.
* Handlers exclude each other only if all instances share one active key (`DeliveryLimits.ExclusionIffSharedActiveKey`).
* A key given up need not mean that nothing happened: a gauge count that throws releases the key of an event already
  dead-lettered, a status message that cannot be sent the key of an event reported delivered. Exactly then:
  `DeliveryRelease.ReleasedHasEffectIff`.
* A consumed message can vanish: the worker swallows a dead letter that cannot be inserted, while the sender was told
  the event was processed and its repeat is refused (`DeliveryWorkers.ConsumedMessageIsLost`). Exactly then:
  `DeliveryWorkers.ConsumedMessageIsAccountedIff`.
* A failed event need not free its key: the store swallows the error of a deletion, and the sender's repeat is then
  answered as a duplicate (`DeliveryRelease.FailedDeletionBlocksRepeat`). Exactly then: `GivenUpKeyStaysIff`.
* `skip`, `resolve` and `markRetryFailed` are not fenced, and a retry message carries no lease. A late holder, a failing
  count, a skip of a held item or a message delivered twice reopens a finished item (`DlqLease`, `DeliveryRedelivery`).
  Exactly then: `DlqLease.LeavesTerminalIff`, `DeliveryLease.FinishedItemReopensIff`.
* The key of a failed rotation attempt is recorded nowhere (`RotationHistory.FailedAttemptKeyUnrecorded`). The recorded
  keys suffice exactly as `RotationHistory.OneAttemptSufficesIff` and `RecordedKeysSufficeIff` say.
* The startup gate looks at the stored data once: a process that started without encryption before the record was
  inserted goes on storing clear text (`EncryptionStart.OldWriterLeavesClear`). Exactly then:
  `EncryptionStart.RecordedMeansSealedIff`.
* The registry misses writes with a repeated stamp (`Registry.WriteGoesUnseenIff`, `HistoryGoesUnseenIff`), a write
  between the two reads of a reload until the next write (`MissedWriteStaysMissed`, `WriteIsHarmlessIff`), a table that
  returns to the remembered one after a failing second read (`FailedSecondReadFoolsIff`), and writes between the two
  queries of one version (`TornVersionUnseenIff`).
* Editing a configuration loses secrets inside arrays outside secret keys (`Redaction.EditRoundTripIff`), and inside
  objects that the edit leaves out (`Redaction.NestedSecretSurvivesIff`).
* The canonical text depends on key order when the comparator ties two different keys (`Canonical.CanonicalIffSeparates`),
  in JavaScript two that are no array indices (`Canonical.ListedCanonicalIff`).
* A SAML id that expires between the two clock readings of one lookup is answered as unused (`Saml.AnswerAgreesIff`,
  `Saml.PruningIsInvisibleIff`).

## Model

Not listed are small lemmas that write constants, defaults, accepted characters and single records out in full, for
instance `Dlq.WritesLeave`, `LogBuffer.LevelNames`, `Retry.DefaultsApply` or `Json.EscapesAre`.

| member | source | states |
|---|---|---|
| `DeliveryExclusion.MutualExclusion` | src/inbound/webhooks/webhook.service.ts:46-88 | In every interleaving, with one shared active key and every handler ending within the 3600 s lifetime of its key, at most one handler per idempotency key is past the lock, and the key of each such handler is live in the store |
| `DeliveryExclusion.AcceptedOncePerHour` | src/inbound/webhooks/webhook.service.ts:48-50 | Two handlers that both kept the key of one source took it at least 3600 s apart |
| `DeliveryExclusion.StepKeepsInv` | src/core/idempotency/idempotency.service.ts:26-51 | Every step of any handler, worker or operator keeps the ownership of stored keys, although `release` is not owner-checked and lookup and write are separate steps |
| `DeliveryExclusion.ReleaseSparesOthers` | src/core/idempotency/idempotency.service.ts:48-51 | The unfenced release of one handler never deletes the live key of another |
| `DeliveryLookups.LiveTextRefuses` | src/core/idempotency/idempotency.service.ts:26-46 | In every run: while any candidate text of its source is live, under the active key or any other key of the ring, a webhook never takes its key, and ends refused as a duplicate, or failed |
| `DeliveryLookups.FreeTextIsTaken` | src/core/idempotency/idempotency.service.ts:26-46 | A webhook that finds none of these texts live, and none of whose calls throws, takes its key after one lookup of each candidate, if there are several, and the write |
| `DeliveryLookups.EndsByThrowIff` | src/core/idempotency/idempotency.service.ts:29-46 | In every run, a webhook ends failed if and only if one of its lookups threw, and answered as a duplicate without a live text if and only if its write threw |
| `DeliveryLimits.ExclusionIffSharedActiveKey` | src/security/encryption.service.ts:174-188 | A deployment excludes concurrent handling of one key in every timely run if and only if all its instances write under the same active key; otherwise a run with two handlers past the lock exists |
| `DeliveryEvidence.NoAcceptedWriteIsLost` | src/inbound/webhooks/webhook.service.ts:68-87 | In every run, a write handler that took its key and ended either kept it and left its own connector success, queued message or dead letter of that very event, or gave it up and deleted every candidate text except exactly those whose deletion threw |
| `DeliveryWorkers.ConsumedMessagesAreAccounted` | src/kafka/kafka-consumer.service.ts:70-121 | In every run where no policy read and no insert of a dead letter throws, each message a worker consumed ends as a connector success or as a dead letter of its event |
| `DeliveryWorkers.ConsumedMessageIsAccountedIff` | src/kafka/kafka-consumer.service.ts:70-121 | In every run, a worker that ended has left a connector success or a dead letter of its event if and only if neither its own policy read nor its own insert threw; never both, and its end tells which |
| `DeliveryWorkers.ConsumedMessageIsLost` | src/core/processing.service.ts:79-99 | A reachable state: the webhook was answered as processed, its message was consumed, no connector was called, there is no dead letter, and the repeat is answered as a duplicate |
| `DeliveryWebhooks.ProcessedWriteIsAccountedIff` | src/core/processing.service.ts:68-100 | In every run, a write processed at once that took its key and ended has left a connector success or a dead letter if and only if neither its policy read nor its insert threw; nothing of it is queued |
| `DeliveryWebhooks.ProcessedWriteGivesUpIff` | src/inbound/webhooks/webhook.service.ts:68-87 | It gave its key up if and only if its policy read or insert threw, or it failed after its effect |
| `DeliveryWebhooks.QueuedWriteOnlyQueues` | src/outbound/dispatcher.service.ts:54-68 | In every run, a write to be queued calls no connector and leaves no dead letter; having its key it ends queued, with its message on the topic, if and only if the queue is enabled and the send did not throw, and otherwise gives the key up |
| `DeliveryWebhooks.ReadIsAnsweredIff` | src/core/processing.service.ts:152-212 | In every run, a read that took its key and ended was answered if and only if it found its connector and the connector answered, a native read even with a refusal; it leaves no dead letter and no message |
| `DeliveryWebhooks.OnlyQueuesAnnounce` | src/outbound/dispatcher.service.ts:66-103 | In every run, a webhook sends a status message only as a write processed at once while the queue is enabled, and an operator never does: without the queue no failing message releases a key |
| `DeliveryCalls.CallsFollowPolicy` | src/core/processing.service.ts:117-150 | In every run and for every kind of handler: all calls before the last threw; past calling, the last one answered or was the one after as many retries as the policy read at the lookup allows; without a lookup there is no call but the one of a read |
| `DeliveryDeadLetters.DeadLetterIsItsAuthors` | src/core/processing.service.ts:79-90 | In every run, each dead letter was created pending and unclaimed, with the event of its author and the retry count its author read |
| `DeliveryDeadLetters.OneDeadLetterEach` | src/core/processing.service.ts:79-99 | In every run, no handler leaves two dead letters |
| `DeliveryRetries.RetryEndsIff` | src/admin/admin.service.ts:187-219 | In every run, the end of every retry of a dead letter: unclaimed, stranded, handed over, delivered or pending again, each exactly on the stated failures |
| `DeliveryRetries.HandedOverIffSent` | src/admin/admin.service.ts:196-209 | In every run, the retry message of an operator is on the topic if and only if that retry ended handed over; it then had no connector success |
| `DeliveryEvidence.ResolvedItemsWereDelivered` | src/core/processing.service.ts:102-115 | In every run, a dead letter marked resolved belongs to an event some connector call accepted |
| `DeliveryEvidence.StepKeepsInv` | src/core/processing.service.ts:68-100 | Every step keeps the link between where a handler stands and the evidence it has left so far |
| `Delivery.StepGrows` | src/outbound/dispatcher.service.ts:41-103 | No step ever takes back a connector call, a queued message, or the author and event of a dead letter |
| `DeliveryDuplicates.DuplicatesAreJustified` | src/inbound/webhooks/webhook.service.ts:52-55 | From an empty store, a webhook is answered as a duplicate only while another handler of the same source is past the lock, or kept the key less than 3600 s ago with its outcome on record, or gave up less than 3600 s ago in a run where the deletion of that key threw; no sharing of keys is assumed |
| `DeliveryDuplicates.GivenUpKeyStaysIff` | src/core/idempotency/stores/pg-idempotency.store.ts:47-51 | In timely runs with one shared active key, and within the hour, a key given up is still stored on that handler's account if and only if deleting it threw, an error the store swallows |
| `DeliveryDuplicates.RunKeepsRowsOwned` | src/core/idempotency/idempotency.service.ts:38-50 | In every run each stored key was written by a handler that has not given it back |
| `DeliveryDuplicates.StoredKeyLastsAnHour` | src/inbound/webhooks/webhook.service.ts:48-50 | In every run from an empty store, each stored text is that of the source of a handler under the active key of its instance, and expires 3600000 ms after that handler took it |
| `DeliveryRelease.ReleasedMeansNothingRecorded` | src/inbound/webhooks/webhook.service.ts:84-86 | In a run with no failing count or announcement of that handler after its effect, a handler that gives its key up has neither a call reported successful nor a dead letter |
| `DeliveryRelease.ReleasedHasEffectIff` | src/inbound/webhooks/webhook.service.ts:84-86 | In every run, a handler that gives its key up has a call reported successful, a dead letter or a queued message if and only if one of its own gauge counts, success announcements or durable-failure announcements threw |
| `DeliveryRelease.KeptKeyHasOutcomeIff` | src/inbound/webhooks/webhook.service.ts:68-87 | In every run, the key a write handler took and still holds at its end stands for an outcome if and only if its deletion did not throw or the handler failed after its effect |
| `DeliveryRelease.FailedDeletionBlocksRepeat` | src/core/idempotency/stores/pg-idempotency.store.ts:47-51 | A deletion that throws leaves an event undone and its repeat answered as a duplicate (a reachable state) |
| `DeliveryRelease.FailedCountReleasesDeadLetter` | src/core/processing.service.ts:85-99 | Without that condition it fails: a count that throws after the insert releases the key of an event already among the dead letters (a reachable state) |
| `DeliveryRelease.FailedSendReleasesDelivery` | src/outbound/dispatcher.service.ts:66-103 | Likewise a status message that cannot be sent releases the key of an event already delivered (a reachable state) |
| `Handlers.Instance.ProcessWebhook` | src/inbound/webhooks/webhook.service.ts:42-88 | Whatever everyone else does during its awaits, a new handler extends one run of the machine from arrival to an end, and its answer tells which kind of end |
| `Handlers.Instance.CheckAndLock` | src/core/idempotency/idempotency.service.ts:26-46 | The lookups of every candidate in turn and the write extend the run with others moving in between, so that the lookup theorems above hold of it; locked, refused and throwing ends are told apart |
| `Handlers.Instance.Release` | src/core/idempotency/idempotency.service.ts:48-51 | All candidate texts of the source are deleted, in any order and with others moving in between, except exactly those whose deletion throws |
| `Handlers.Instance.Dispatch` | src/outbound/dispatcher.service.ts:41-103 | A return leaves the handler ended as queued or delivered; a durable error as dead-lettered; any other error at the release |
| `Handlers.Instance.Process` | src/core/processing.service.ts:68-100 | Extends the run; the reported verdict is the one the dispatcher announces |
| `Handlers.Instance.ProcessRetry` | src/core/processing.service.ts:102-115 | Extends the run, including the catch path taken when the count after `resolve` throws |
| `Handlers.Instance.ExecuteWithRetry` | src/core/processing.service.ts:117-150 | The calls extend the run, so that the policy theorem above holds of it; only a throw is retried, a refusal counts as failure at once |
| `Handlers.Instance.ProcessWithResult` | src/core/processing.service.ts:152-212 | A read either ends the handler as answered or leads to the release |
| `Handlers.Instance.Add` | src/core/dlq/dlq.service.ts:29-44 | The insert and the count that follows it extend the run; only both together are durable acceptance |
| `Handlers.Instance.Claim` | src/core/dlq/dlq.service.ts:46-83 | The claiming update and its count extend the run; a claim won, a claim refused and a throw are told apart |
| `Handlers.Instance.Resolve` | src/core/dlq/dlq.service.ts:93-99 | The update and its count extend the run; either throwing leads to the failure path |
| `Handlers.Instance.MarkRetryFailed` | src/core/dlq/dlq.service.ts:101-112 | The failure path extends the run to its announcement whether or not the write throws |
| `Handlers.Instance.EachMessage` | src/kafka/kafka-consumer.service.ts:70-121 | Consuming a message of either topic brings up a new handler that extends the run to an end; errors of processing and of the status message are swallowed |
| `Handlers.Instance.Retry` | src/admin/admin.service.ts:159-166 | A new handler claims the item and repeats its event, which extends the run, and each of its three outcomes fixes how it ended |
| `Handlers.Instance.RetryItem` | src/admin/admin.service.ts:187-219 | A claimed item is handed to the queue or its event repeated here, and the outcome fixes how the handler ended |
| `Handlers.Instance.RetryMany` | src/admin/admin.service.ts:154-171 | Each listed item gets a new handler of its own and is counted in exactly the figure of its outcome, and each handler still stands so at the end; `errors` lists the items that threw, in order |
| `Handlers.Instance.Await` | src/inbound/webhooks/webhook.service.ts:42-88 | While a handler awaits, everyone else takes any steps of the machine; the handler itself stays where it is |
| `Handlers.Instance.AcceptedWriteLeavesMark` | src/inbound/webhooks/webhook.service.ts:68-87 | A write answered as processed, or ended as a durable failure, has its own connector success, queued message or dead letter, whatever ran beside it |
| `Idempotency.LazyExpiryIsEagerExpiry` | src/core/idempotency/stores/pg-idempotency.store.ts:9-51 | Every sequence of lookups, writes and deletions at non-decreasing times is answered as by a set that drops entries the instant they expire |
| `Idempotency.StepsAgree` | src/core/idempotency/stores/pg-idempotency.store.ts:17-45 | One operation answers alike on both and keeps them in agreement, although pruning lags |
| `Idempotency.PgIdempotencyStore.Exists` | src/core/idempotency/stores/pg-idempotency.store.ts:9-15 | True exactly for a row that has not expired |
| `Idempotency.PgIdempotencyStore.SetIfNotExists` | src/core/idempotency/stores/pg-idempotency.store.ts:17-45 | A failed transaction changes nothing and answers false; otherwise the row is taken unless a live one is there, and long-expired rows go |
| `Idempotency.PgIdempotencyStore.Delete` | src/core/idempotency/stores/pg-idempotency.store.ts:47-51 | Exactly this row goes; when the statement throws, nothing changes and no error is passed on |
| `Idempotency.WriteTakesIff` | src/core/idempotency/stores/pg-idempotency.store.ts:17-45 | What one write does to the table: a live row refuses it and nothing changes; otherwise the row is there with its expiry, and exactly the rows expired for more than 60000 ms are gone |
| `Idempotency.OrderedIsPermutation` | src/security/encryption.service.ts:174-188 | The candidate order is a permutation of the key ring with the active key first |
| `Idempotency.CandidateIff` | src/security/encryption.service.ts:174-188 | A stored text is a candidate of a source exactly when it is that source under a key of the ring |
| `Idempotency.IdempotencyService.CheckAndLock` | src/core/idempotency/idempotency.service.ts:26-46 | The loop over candidates and the final write compute the specified outcome on the store |
| `Idempotency.IdempotencyService.Release` | src/core/idempotency/idempotency.service.ts:48-51 | The loop deletes exactly the candidates of the source whose deletion does not throw |
| `Idempotency.LockOutlivesActiveKey` | src/core/idempotency/idempotency.service.ts:29-45 | A live lock under some key refuses every later check by any service whose ring still holds that key |
| `Idempotency.DeduplicationSurvivesKeyChange` | src/core/idempotency/idempotency.service.ts:26-46 | From a first successful lock until expiry or release, every service that kept the locking key answers false, whichever key is active there |
| `Idempotency.SecondServiceSeesLockIff` | src/security/encryption.service.ts:174-188 | A second service sees a fresh lock if and only if the locking text is among its own candidates |
| `Idempotency.ReleaseFreesSource` | src/core/idempotency/idempotency.service.ts:48-51 | Services that share their keys, HMAC mode or plain, can lock a source once one of them has released it without an error; rows of other sources are untouched |
| `Idempotency.ReleaseFreesSourceIff` | src/core/idempotency/idempotency.service.ts:48-51 | For any two services and any failing deletions: the source can be locked after a release if and only if no live text the second service looks at survives it |
| `Idempotency.LockTaken` | src/core/idempotency/idempotency.service.ts:38-46 | A successful lock stores the active-key text with its expiry |
| `Events.TargetsCollideIff` | src/inbound/webhooks/webhook.service.ts:46 | Two different target systems can share an idempotency key under event ids the webhook accepts if and only if one name is the other continued after a colon |
| `Events.RuleCollideIff` | README.md:140-142 | Even among event ids that end in their target, as the documentation asks, two targets can share a key if and only if one name is the other continued after a colon and also ends in it |
| `Events.KeyIdentifiesEventId` | src/inbound/webhooks/webhook.service.ts:46 | Within one target system equal keys mean equal event ids |
| `Events.CollisionExample` | src/inbound/webhooks/webhook.service.ts:46 | Two concrete events, each with an id that names its target, with the same key |
| `DlqLease.EveryRunKeepsLease` | src/core/dlq/dlq.service.ts:46-112 | In every run from a new row: lock columns are set exactly while retrying, the retry count is the initial one plus the successful claims, and claims with no release between them are more than a lease apart |
| `DlqLease.StepKeepsInv` | src/core/dlq/dlq.service.ts:46-112 | Each write keeps these facts, however retries interleave and outlive their lease |
| `DlqLease.LeaseOverEveryRun` | src/core/dlq/dlq.service.ts:46-83 | The same from every state that satisfies them |
| `DlqLease.FinishedStaysFinished` | src/core/processing.service.ts:102-115 | When writers finish inside their lease, nobody skips a held item, counting works and each retry message is handled once, while its claim stands, skipped and resolved items stay finished and no claim is released twice |
| `DlqLease.TerminalIsFinal` | src/core/processing.service.ts:102-115 | The same from every state with a sole owner |
| `DlqLease.LeavesTerminalIff` | src/core/dlq/dlq.service.ts:101-112 | A write moves an item out of skipped or resolved if and only if it is `markRetryFailed` of a handler on its failure path, be it the claimant or the worker of a message whose claim is long over |
| `DlqLease.FailedCountReopensResolved` | src/core/processing.service.ts:105-114 | A count that throws after `resolve` turns a resolved item pending |
| `DlqLease.LateWriterReopensResolved` | src/core/dlq/dlq.service.ts:101-112 | A holder that outlives its lease turns the successor's resolved item pending |
| `DlqLease.SkipOfHeldItemIsLost` | src/core/dlq/dlq.service.ts:85-91 | A skip of a held item is undone by its holder |
| `DlqLease.RedeliveryReopensResolved` | src/kafka/kafka-consumer.service.ts:79-84 | A retry message delivered again after its claim was released turns a resolved item pending and releases the claim twice |
| `DeliveryLease.StepSimulated` | src/core/processing.service.ts:102-115 | Seen from one dead letter, every step of the delivery machine is a step of the lease machine |
| `DeliveryLease.ItemFollowsLease` | src/core/dlq/dlq.service.ts:46-112 | Every run of the delivery machine is, for every dead letter it creates, a run of the lease machine from the row as created, with exactly the claims, releases and skips of that run in their order |
| `DeliveryLease.ItemsKeepLease` | src/core/dlq/dlq.service.ts:46-83 | In every delivery run with a fixed lease, every dead letter is the row as created with the run's own writes replayed on it; its lock columns are set exactly while the last of those writes is a claim; its retry count is the one at creation plus the claims; and two claims with no release between them are more than a lease apart |
| `DeliveryLease.RunReplays` | src/core/dlq/dlq.service.ts:46-112 | The log read off a run is complete: replaying it on a dead letter gives the dead letter at the end |
| `DeliveryLease.ClaimsAreReleasedOnce` | src/core/processing.service.ts:102-115 | In delivery runs with the four disciplines above, no claim of a dead letter is released twice |
| `DeliveryLease.FinishedItemsStayFinished` | src/core/processing.service.ts:102-115 | In delivery runs with the four disciplines above, every dead letter once skipped or resolved stays so |
| `DeliveryLease.FinishedItemReopensIff` | src/core/processing.service.ts:109-114 | In every delivery run, disciplined or not, a finished dead letter is reopened if and only if some retry of it takes its failure path to the end |
| `DeliveryRedelivery.RedeliveryReopensResolved` | src/kafka/kafka-consumer.service.ts:79-84 | A delivery run with no failure, no skip and no time passing delivers a dead letter; consuming its retry message once more turns it pending again |
| `Dlq.DlqService.Retry` | src/core/dlq/dlq.service.ts:46-83 | Claims if and only if the row is neither skipped nor resolved nor under a live lease; then the status, the two lock columns and the retry count change as stated and no other column or row |
| `Dlq.DlqService.Add` | src/core/dlq/dlq.service.ts:29-44 | Inserts a pending row with the given retry count; a failing insert changes nothing |
| `Dlq.DlqService.Skip` | src/core/dlq/dlq.service.ts:85-91 | Marks any existing row skipped without a condition on its lock |
| `Dlq.DlqService.Resolve` | src/core/dlq/dlq.service.ts:93-99 | Marks any existing row resolved without a condition on its lock |
| `Dlq.DlqService.MarkRetryFailed` | src/core/dlq/dlq.service.ts:101-112 | Marks any existing row pending with the error given and empty lock columns, without a condition on its lock; event, retry count and the other rows stay |
| `Dlq.DlqService.UpdateMetrics` | src/core/dlq/dlq.service.ts:114-124 | The gauges equal the row counts, or stay as they were when counting throws |
| `Dlq.GaugesCoverTable` | src/core/dlq/dlq.service.ts:114-124 | The four status counts add up to the number of rows |
| `Encryption.StoreThenRead` | src/database/json.helper.ts:16-33 | A stored value reads back in another process if and only if it was stored in clear or under a key that process holds |
| `Encryption.StartupGate.ValidateEncryptionState` | src/database/prisma.service.ts:37-86 | Exactly when a process starts, condition by condition: without a record only over four empty tables, never without encryption on an enabled record, never with a recorded key missing; the record is inserted only on an empty database |
| `Encryption.AdmittedWritersAgree` | src/database/prisma.service.ts:37-86 | Outside rotation mode every admitted process encrypts under the recorded key, and holds it |
| `EncryptionStart.RecordedMeansSealedIff` | src/database/prisma.service.ts:37-86 | Over every history of starts, stops and writes from an empty database: once there is a record, every stored column is sealed if and only if no process without encryption has written since, and sealed under the recorded key if and only if moreover none in rotation mode wrote under another key |
| `EncryptionStart.RunningHoldsRecordedKey` | src/database/prisma.service.ts:56-75 | In every such history and every mode, each running process with encryption holds the recorded key, and outside rotation mode writes under it |
| `EncryptionStart.EveryColumnOpens` | src/database/json.helper.ts:16-33 | So every stored column opens in every running process with encryption, unless such a process lapsed or one in rotation mode wrote under another key |
| `EncryptionStart.OldWriterLeavesClear` | src/database/prisma.service.ts:37-55 | A reachable history: a process started without encryption goes on writing clear text after another has inserted the record |
| `RotationHistory.PlaintextSurvives` | src/security/encryption-rotation.service.ts:135-191 | After any history of attempts that stop anywhere, reruns, and ordinary writes between them, every value keeps its plaintext |
| `RotationHistory.KeysStayAccounted` | src/security/encryption-rotation.service.ts:206-250 | Every stored key id is the active one, a recorded previous one, or one that an attempt or an ordinary write has used since the last completed rotation |
| `RotationHistory.EverythingStillDecrypts` | src/security/encryption-rotation.service.ts:26-58 | A process holding those keys reads every original value unchanged |
| `RotationHistory.ActiveKeyMovesLast` | src/security/encryption-rotation.service.ts:26-58 | The recorded active key changes exactly when an attempt finishes, and by then all rows the attempt found in the three tables carry it |
| `RotationHistory.RerunReachesSameState` | src/security/encryption-rotation.service.ts:26-58 | After any incomplete attempts, towards whichever keys, completing reaches the state of one uninterrupted rotation |
| `RotationHistory.FullRewriteIsUniform` | src/security/encryption-rotation.service.ts:135-191 | A full pass leaves every encrypted column under the new key |
| `RotationHistory.FailedAttemptKeyUnrecorded` | src/security/encryption-rotation.service.ts:206-222 | The key of a failed attempt is in neither `activeKeyId` nor `previousKeyIds`: a concrete state |
| `RotationHistory.OneAttemptSufficesIff` | src/security/encryption-rotation.service.ts:206-222 | After an attempt, `activeKeyId` and `previousKeyIds` still open everything if and only if it finished, rewrote nothing, or went to a key recorded before |
| `RotationHistory.RecordedKeysSufficeIff` | src/security/encryption-rotation.service.ts:206-250 | After any history of attempts and writes they do if and only if every attempt or writer whose rows are not all rewritten later used a key recorded at the end |
| `RotationHistory.StoredKeysAreShown` | src/security/encryption-rotation.service.ts:135-191 | The stored key ids are exactly those of writes not rewritten later and of old rows no pass has reached |
| `Rotation.PreviousKeyIdsIdempotent` | src/security/encryption-rotation.service.ts:243-250 | Marking a rotation again records the same list of previous keys |
| `Rotation.EncryptionRotationService.RotateToActiveKey` | src/security/encryption-rotation.service.ts:26-58 | Each refusal exactly on its condition, the busy one from the three counts read; refusals change nothing; every other end is one of the possible attempts on the tables and leaves the record as stated; without failing writes it completes |
| `Rotation.EncryptionRotationService.RotateAuditLogs` | src/security/encryption-rotation.service.ts:135-157 | Stops after some prefix of rows; that prefix carries the new key, the rest is as before |
| `Rotation.EncryptionRotationService.RotateDlqItems` | src/security/encryption-rotation.service.ts:159-174 | The same for dead letters |
| `Rotation.EncryptionRotationService.RotateTargetSystems` | src/security/encryption-rotation.service.ts:176-191 | The same for target systems |
| `Rotation.EncryptionRotationService.MarkRotation` | src/security/encryption-rotation.service.ts:206-222 | Records the status and the previous keys, or nothing when the write fails |
| `Rotation.EncryptionRotationService.CompleteRotation` | src/security/encryption-rotation.service.ts:224-241 | Records the new active key and the previous keys, or nothing when the write fails |
| `Rotation.AttemptRecord` | src/security/encryption-rotation.service.ts:206-241 | What an attempt leaves in the record: once begun, the replaced key heads the previous keys, which are kept, each once; the active key is the new one only when it finished |
| `Canonical.CanonicalText` | src/security/integration-auth.service.ts:172-188 | For a comparator that ties no two different keys, two values print alike if and only if they are equal up to object key order |
| `Canonical.CanonicalIffSeparates` | src/security/integration-auth.service.ts:172-188 | With keys listed in any order, the text is independent of that order if and only if the comparator ties no two different keys |
| `Canonical.ListedCanonicalIff` | src/security/integration-auth.service.ts:172-188 | With keys listed as JavaScript does, array indices first and ascending, it is independent of the order of the others if and only if the comparator ties no two different keys that are both no array index |
| `Canonical.ListedCanonicalText` | src/security/integration-auth.service.ts:172-188 | Under such a comparator two values so listed print alike if and only if they are equal up to object key order |
| `Canonical.IndexIff` | src/security/integration-auth.service.ts:172-188 | The keys JavaScript lists first are exactly the numerals without leading zeros below 2^32 - 1 |
| `Canonical.EqualTextIsSame` | src/security/integration-auth.service.ts:172-188 | Equal texts mean equal values up to key order, whatever the comparator |
| `Canonical.TextParsesBack` | src/security/integration-auth.service.ts:172-188 | A JSON parser recovers the canonical value from the text followed by anything that cannot extend its last token |
| `Canonical.StableIsPrintOfCanon` | src/security/integration-auth.service.ts:172-188 | Rendering then sorting is printing the sorted value |
| `Canonical.SortedUnique` | src/security/integration-auth.service.ts:181-184 | A sorted list without ties is determined by its elements |
| `Json.ParsePrint` | src/security/integration-auth.service.ts:172-188 | Parsing a printed value gives the value and the untouched rest; the parser reads the grammar of RFC 8259 without white space |
| `Json.PrintInjective` | src/security/integration-auth.service.ts:172-188 | Different finite values have different texts |
| `Json.NumberForms` | src/security/integration-auth.service.ts:172-188 | Every form of section 6 of RFC 8259 is a number text |
| `Redaction.EditRoundTripIff` | src/security/secret-redaction.ts:21-72 | Saving a configuration as shown, secrets masked, changes nothing if and only if no array outside the secrets contains a secret |
| `Redaction.MergeConfigPreservingSecrets` | src/security/secret-redaction.ts:38-72 | The assigning loop computes the order-independent description of the merge, entry by entry |
| `Redaction.MergeTwice` | src/security/secret-redaction.ts:38-72 | Merging the merged result again changes nothing |
| `Redaction.SecretsSurviveEdit` | src/security/secret-redaction.ts:38-72 | At the level of the two objects merged, a secret keeps its value unless a new, unmasked one is supplied |
| `Redaction.PlainKeyAfterEdit` | src/security/secret-redaction.ts:38-72 | Under a key that is no secret the value given replaces the old one, unless both are objects: these are merged in turn |
| `Redaction.NestedSecretAfterEdit` | src/security/secret-redaction.ts:38-72 | At any depth of nested objects: the secret is gone unless every object around it is still given as an object; then a new, unmasked value replaces it, and otherwise it stays |
| `Redaction.NestedSecretSurvivesIff` | src/security/secret-redaction.ts:38-72 | So it survives unchanged if and only if those objects are given and no new value is |
| `Redaction.RedactHides` | src/security/secret-redaction.ts:21-36 | Nothing secret is left unmasked, and the value is unchanged if and only if nothing was to hide |
| `Redaction.RedactIdempotent` | src/security/secret-redaction.ts:21-36 | Redacting twice is redacting once |
| `Registry.EqualVersionMeansEqualRows` | src/connectors/connector.registry.ts:267-275 | Over creates, updates and deletes with strictly later stamps, equal count and latest stamp mean equal tables |
| `Registry.EveryPollIsCurrent` | src/connectors/connector.registry.ts:255-265 | After any history of writes, polls and forced reloads, failing ones included, with no reload disturbed between its two reads, a poll that can read leaves the connector map equal to the allowed statics overlaid by the enabled rows of known type of the table at some moment of that poll: of the current table, if no write falls into the poll |
| `Registry.MissedWriteStaysMissed` | src/connectors/connector.registry.ts:161-189 | After a reload with one write between its reads no further poll changes the map until the next write or forced reload; the map is right if and only if that write created or deleted an unusable row, or kept a row unusable or its name, type and configuration |
| `Registry.EqualStampsGoUnseen` | src/connectors/connector.registry.ts:267-275 | Two updates with one stamp go unseen: a concrete pair of tables |
| `Registry.WriteGoesUnseenIff` | src/connectors/connector.registry.ts:267-275 | With stamps that may repeat, a single write goes unseen if and only if it is an update that carries the latest stamp of the table |
| `Registry.HistoryGoesUnseenIff` | src/connectors/connector.registry.ts:267-275 | A whole history goes unseen if and only if it leaves as many rows, none later than the latest stamp, and a surviving new row written with that very stamp |
| `Registry.EventKeepsGood` | src/connectors/connector.registry.ts:255-265 | Every write or poll, failing or disturbed, keeps the map equal to the table it was built from and the version equal to that of the table it was read from |
| `Registry.PollIsCurrentIff` | src/connectors/connector.registry.ts:255-265 | A poll that can read leaves the map as of its reading of the rows if and only if it is a forced reload, the table differs from the one whose version is remembered, or the table in the map resolves alike |
| `Registry.WriteIsHarmlessIff` | src/connectors/connector.registry.ts:161-189 | A create, update or delete leaves every name resolved as before if and only if it touches no usable row, or keeps name, type and configuration of one |
| `Registry.NextDifferenceRepairs` | src/connectors/connector.registry.ts:255-265 | A forced reload, or the next poll that can read once the table differs from the one remembered, repairs the map |
| `Registry.FailedSecondReadFoolsIff` | src/connectors/connector.registry.ts:161-195 | When only the second read of a reload fails, a later poll is fooled if and only if it is not forced, the table is back to the one remembered and resolves some name differently |
| `Registry.ProxyPayload` | src/connectors/connector.registry.ts:288-311 | The configuration of the row replaces the one of the caller; every other field of the payload passes unchanged |
| `Registry.VersionUnique` | src/connectors/connector.registry.ts:267-275 | A table has one version |
| `Registry.TornVersionUnseenIff` | src/connectors/connector.registry.ts:267-275 | When count and latest stamp are read from two different tables, the version equals the one remembered if and only if as many rows were counted and only remembered rows, the latest among them, were stamped |
| `Registry.TornVersionExample` | src/connectors/connector.registry.ts:267-275 | A deletion and a creation between the two queries that go unseen |
| `Registry.ConnectorRegistry.ReloadInternal` | src/connectors/connector.registry.ts:161-195 | The map becomes the allowed statics overlaid by the enabled rows of known type, and the version the one read afterwards; a failing read of the rows changes nothing |
| `Registry.ConnectorRegistry.ReloadIfChanged` | src/connectors/connector.registry.ts:255-265 | A poll of such a history: reloads exactly when a version was read that differs from the last one seen |
| `Registry.ConnectorRegistry.AllowedStatics` | src/connectors/connector.registry.ts:161-170 | Static connectors are kept exactly when the allow list names them |
| `Registry.ReflectsIff` | src/connectors/connector.registry.ts:161-189 | When the map is right, spelled out: each enabled row of known type has its proxy, and any other name its static connector if that is known and allowed, or nothing |
| `LogBuffer.ChunkingIndependent` | src/diagnostics/log-buffer.ts:245-273 | However a text is cut into chunks, the records are its non-blank complete lines in order and the rest is pending |
| `LogBuffer.ResumeFromPending` | src/diagnostics/log-buffer.ts:245-273 | The same with text pending from earlier writes |
| `LogBuffer.SplitResumes` | src/diagnostics/log-buffer.ts:245-273 | Splitting a text resumes from the unfinished tail of any prefix |
| `LogBuffer.SplitIsLines` | src/diagnostics/log-buffer.ts:245-273 | Splitting at newlines yields the complete lines and, as the last part, the unfinished one |
| `LogBuffer.LogBufferStream.Write` | src/diagnostics/log-buffer.ts:245-273 | One write appends the records of the completed lines and keeps the tail |
| `LogBuffer.RuntimeLogBuffer.Append` | src/diagnostics/log-buffer.ts:89-94 | Keeps the last 10000 events; ids stay strictly increasing and below the next one |
| `LogBuffer.RuntimeLogBuffer.Clear` | src/diagnostics/log-buffer.ts:96-113 | Empties the buffer and restarts ids, or removes exactly one target's events and returns their number |
| `LogBuffer.RuntimeLogBuffer.RemoveTarget` | src/diagnostics/log-buffer.ts:104-112 | The backward in-place loop is a filter |
| `LogBuffer.RuntimeLogBuffer.Query` | src/diagnostics/log-buffer.ts:115-134 | The last min(limit, matches) matching events in time order |
| `LogBuffer.LimitIs` | src/diagnostics/log-buffer.ts:157-161 | A limit counts by its whole part, kept between 1 and 2000; without a number it is 200 |
| `LogBuffer.KeepLastComposes` | src/diagnostics/log-buffer.ts:89-94 | Trimming early or late keeps the same events |
| `Metrics.MetricsService.RecordEvent` | src/metrics/metrics.service.ts:92-100 | The window holds exactly the samples of the whole history no older than five minutes; counter and gauge follow |
| `Metrics.MetricsService.RefreshProcessedWindow` | src/metrics/metrics.service.ts:123-150 | Popping from the front is filtering the whole history; the gauge tallies the window |
| `Metrics.MetricsService.ProcessedLast5Minutes` | src/metrics/metrics.service.ts:102-121 | The figures are exactly the counts of the window |
| `Metrics.MetricsService.FilteredProcessedLast5Minutes` | src/admin/admin.service.ts:238-256 | The restricted figures are exactly the counts of the allowed targets' samples |
| `Metrics.Aggregate` | src/admin/admin.service.ts:238-256 | Adding up per-target counts gives the figures recomputed from the samples of allowed targets alone |
| `Metrics.RecentPartIsFilter` | src/metrics/metrics.service.ts:123-130 | With a clock that never goes back, dropping an old front leaves the filter of the history |
| `Metrics.TotalsAgree` | src/metrics/metrics.service.ts:102-121 | The total is the sum over statuses and the double sum over targets and statuses |
| `Metrics.TallyIsUnique` | src/metrics/metrics.service.ts:102-121 | Two computations that tally the same samples agree in every figure |
| `Ip.AddressIsBase256` | src/security/ip-utils.ts:17-33 | The signed shifts add up to the base-256 value of the four parts |
| `Ip.OctetIff` | src/security/ip-utils.ts:17-24 | A part of an address is a decimal numeral without leading zeros of a number below 256 |
| `Ip.AddressInjective` | src/security/ip-utils.ts:17-33 | Different address texts have different numbers |
| `Ip.MaskTestIff` | src/security/ip-utils.ts:45-46 | For every prefix 0 to 32 the mask test holds if and only if the addresses agree above the lowest 32 - prefix binary digits |
| `Ip.AboveIsDivision` | src/security/ip-utils.ts:45-46 | Agreement above k digits is agreement after division by two to the k |
| `Ip.CidrMatchIff` | src/security/ip-utils.ts:35-47 | A textual block matches exactly the addresses that share its prefix (section 3.1 of RFC 4632) |
| `Ip.ShorterPrefixAgrees` | src/security/ip-utils.ts:45-46 | A match at a prefix is a match at every shorter one |
| `Ip.WideningKeepsAllowed` | src/security/ip-utils.ts:49-68 | Replacing an entry by the same block with a shorter prefix takes nobody off the list |
| `Ip.EmptyPrefixMatchesAll` | src/security/ip-utils.ts:35-39 | An entry with an empty prefix text matches every IPv4 address |
| `Ip.PrivateIffInRange` | src/security/ip-utils.ts:70-94 | A host is private or local if and only if it is localhost, ::1 or an address in the stated intervals (section 3 of RFC 1918) |
| `Retry.Execute` | src/core/retry/retry.service.ts:21-46 | At most maxRetries + 1 calls, stopping at the first that does not throw; the sleeps are the delays of the attempts |
| `Retry.DelayBounds` | src/core/retry/retry.service.ts:48-53 | A jittered delay lies between half the cap and one less than the cap |
| `Retry.CapGrows` | src/core/retry/retry.service.ts:48-53 | Unjittered delays never decrease and stay under the maximum |
| `Retry.CapDoubles` | src/core/retry/retry.service.ts:48-53 | The first cap is the base delay, and each further one twice the one before, up to the maximum |
| `Retry.DelayFollowsDraw` | src/core/retry/retry.service.ts:48-53 | With jitter the delay is the whole part of the share of the cap that the draw gives, between a half and all of it; without, it is the cap |
| `Retry.TotalSleepBound` | src/core/retry/retry.service.ts:21-53 | The sleeps of one run stay under both bounds, whatever the draws |
| `Retry.PolicySleepBound` | src/core/retry/retry.service.ts:21-53 | For every policy the service can return, total sleep is at most min(base * (2^maxRetries - 1), maxRetries * maxDelay) |
| `Retry.ForTarget` | src/core/retry/retry-policy.service.ts:27-73 | Every returned policy has positive retries and delays |
| `Retry.ConfiguredFieldIsUsed` | src/core/retry/retry-policy.service.ts:46-73 | Configuring one field with a positive integer sets that field and no other |
| `Retry.OtherValuesFallBack` | src/core/retry/retry-policy.service.ts:27-73 | Any other value leaves the default of that field |
| `Shell.ArgReadsBack` | src/connectors/implementations/linux-connector/linux-connector.service.ts:1005-1007 | Quoting keeps a value one word, unchanged, for every text without NUL (sections 2.2.1, 2.2.2 and 2.3 of the Shell Command Language, IEEE Std 1003.1) |
| `Shell.UserAddReadsBack` | src/connectors/implementations/linux-connector/linux-connector.service.ts:709-730 | The command reads as exactly the intended arguments, for every home, shell and login without NUL; the group argument splits back on commas |
| `Shell.UserModifyCommand` | src/connectors/implementations/linux-connector/linux-connector.service.ts:732-748 | The pushed parts read as exactly the intended arguments; invalid groups throw |
| `Shell.StringArray` | src/connectors/implementations/linux-connector/linux-connector.service.ts:940-959 | First occurrences, in their order, of the non-blank strings of all given values, each once |
| `Shell.GroupsStayApart` | src/connectors/implementations/linux-connector/linux-connector.service.ts:915-938 | Valid group names joined by commas split back into the same list |
| `Shell.RequestedIff` | src/connectors/implementations/linux-connector/linux-connector.service.ts:900-938 | The groups asked for are exactly the defaults and the names sent, or the mapped ones in place of the second list, trimmed and not blank |
| `Shell.GroupsRefusedIff` | src/connectors/implementations/linux-connector/linux-connector.service.ts:915-938 | A command is refused if and only if some group asked for is not a letter or underscore followed by at most 31 letters, digits, underscores and dashes |
| `Shell.JoinedReadsBack` | src/connectors/implementations/linux-connector/linux-connector.service.ts:721-730 | Parts joined by spaces read as the words of the parts, in order |
| `Sql.IdentReadsBack` | src/connectors/implementations/postgres-role-connector/postgres-role-connector.service.ts:805-807 | A quoted identifier reads back as that name if and only if it is neither empty nor contains NUL |
| `Sql.LiteralReadsBack` | src/connectors/implementations/postgres-role-connector/postgres-role-connector.service.ts:809-811 | A quoted literal reads back as that text if and only if it contains no NUL |
| `Sql.PermissionScopeValue` | src/connectors/implementations/postgres-role-connector/postgres-role-connector.service.ts:695-717 | Accepts a text if and only if it is the text of some valid scope, and returns it unchanged |
| `Sql.PermissionScope` | src/connectors/implementations/postgres-role-connector/postgres-role-connector.service.ts:719-741 | Emits the clause of the one scope the text stands for |
| `Sql.ScopeTextInjective` | src/connectors/implementations/postgres-role-connector/postgres-role-connector.service.ts:695-717 | Different scopes have different texts |
| `Sql.ClauseReadsBack` | src/connectors/implementations/postgres-role-connector/postgres-role-connector.service.ts:719-741 | The clause names exactly the schema and object of the scope |
| `Sql.StatementReadsBack` | src/connectors/implementations/postgres-role-connector/postgres-role-connector.service.ts:473-484 | A permission statement reads as the action, the permission's words, the scope and the login, nothing else |
| `Sql.CreateRoleReadsBack` | src/connectors/implementations/postgres-role-connector/postgres-role-connector.service.ts:278-280 | The statement that creates a role reads as the given login, option and password, or as nothing when the password contains NUL |
| `Sql.PermissionKeyInjective` | src/connectors/implementations/postgres-role-connector/postgres-role-connector.service.ts:650-678 | Comparing allow-list keys is comparing action, permission and scope |
| `Sql.LexParts` | src/connectors/implementations/postgres-role-connector/postgres-role-connector.service.ts:481-483 | Text behind a space or a dot never changes how the text before it reads |
| `Saml.PruningIsInvisible` | src/auth/saml-auth.service.ts:57-114 | Over every sequence of calls at non-decreasing times in which no id expires between the two clock readings of a lookup, the pruned record answers as a set that is never pruned |
| `Saml.PruningIsInvisibleIff` | src/auth/saml-auth.service.ts:57-114 | A whole sequence of calls is answered so if and only if no id consumed by then expires between the two clock readings of a lookup |
| `Saml.AnswerAgreesIff` | src/auth/saml-auth.service.ts:57-61 | One answer differs if and only if a consumed id expires between the two clock readings of a lookup |
| `Saml.ConsumedOnce` | src/auth/saml-auth.service.ts:57-70 | After a removal that succeeds, every later lookup of the same key string finds nothing |
| `Saml.IdTextsIff` | src/auth/saml-auth.service.ts:72-107 | A key text carries a given signed id if and only if it is that id's text, alone or followed by a dot and anything |
| `Saml.TickBetweenReadings` | src/auth/saml-auth.service.ts:57-61 | A concrete sequence in which the clock passes the expiry between the readings |
| `Saml.SignedSamlRequestCacheProvider.GetAsync` | src/auth/saml-auth.service.ts:57-61 | Computes the specified answer and record |
| `Saml.SignedSamlRequestCacheProvider.RemoveAsync` | src/auth/saml-auth.service.ts:63-70 | Computes the specified answer and record |
| `Saml.SignedSamlRequestCacheProvider.Prune` | src/auth/saml-auth.service.ts:109-114 | The deleting loop keeps exactly the entries that have not expired |

## Left out

- Connector requests, HTTP, SSH and SQL execution, RBAC, DTO validation, health, swagger, logging transports and user interfaces: plumbing.
- Cryptography (AES-GCM, HMAC, SHA-256, random bytes) and the loading and caching of the key ring: ideal encryption, injective HMAC, a given ring.
- Process crashes in the delivery protocol: a handler always gets an answer to each awaited call. Crashes during rotation are covered, as writes that fail.
- An undecodable queue message, and errors of `delete` in the Redis store, which are not swallowed: both are taken not to occur.
- Native read operations (`getSchema`, `sync`): what they return; they are told from `execute` by a flag of the step.
- EncryptionStart.RecordedMeansSealedIff: the four counts and the insert of the record are one step, and so no other process writes between them.
- Rotation.EncryptionRotationService.RotateToActiveKey: the Kafka lag is given as one number, and the three checks see one moment.
- `lockedAt` of an idempotency row: written, never read.
- Kafka delivery order, offsets and liveness: topics are logs from which any message may be consumed any number of times.
- Handlers.Instance.Retry: the lookup of the row by id and the last gauge update of a single retry.
- Handlers.Instance.Process: log lines and the event metrics it records on the way are not part of the machine's state.
- Registry.EveryPollIsCurrent: two polls that overlap, so that one compares a version it read before the other reloaded; writes between the two queries of one version.
- RotationHistory.PlaintextSurvives: writes during a pass; a configuration updated between `findMany` and its own rewrite is overwritten with the old value.
- RotationHistory.ActiveKeyMovesLast: rows inserted after `findMany` of their table; they keep the key of their writer when the attempt finishes.
- Handlers.Instance.RetryMany: the query that selects the items and the final gauge update are not modelled; items are given.
- Metrics.MetricsService.FilteredProcessedLast5Minutes: target names that are members of `Object.prototype` are not modelled; a map has any string as key.
- LinuxHost.metadata: an encrypted column the rotation loops do not visit.
- A missing encryption-state table and the differences between the two database flavours: values are stored as such.
- Retry.Execute: timers beyond 2^31 ms and floating-point rounding; jitter is exact real arithmetic.
- Json.ParsePrint: negative zero, NaN and lone surrogates; a character is a Unicode scalar value, a number its literal text.
- Redaction: `__proto__` as a key, and own properties that are not JSON.
- LogBuffer.RuntimeLogBuffer.Query: lower-casing outside ASCII and the other fields of a record.
- LogBuffer.ChunkingIndependent: chunks are texts; a UTF-8 sequence cut between two chunks is not modelled.
- Shell.UserAddReadsBack: the commands for delete, lock, unlock and lookup, group mapping and password input; mapped group names are given.
- Sql.StatementReadsBack: names longer than 63 bytes, newline-joined literals and comments; the lexer refuses characters these statements do not use.
- Ip.PrivateIffInRange: the host name is given in lower case; IPv6 other than ::1 and the mapped prefix.
- The Redis idempotency store: only the semantics it asks for, as the eager set in `Idempotency`.
- The rest of SAML, OIDC and cookies: library calls.
