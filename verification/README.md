# A verified model of the multichannel message service

The service keeps four tables (messages, idempotency keys, outbox items, event outbox) and changes
them only in transactions: `POST /outbound`, the inbound webhooks, the delivery-status webhooks, the
two background drains and the reaper of expired keys. Requests to `/outbound` also pass two token
buckets held in Redis. This project models those transactions with their branches, error paths and
constants, and proves what holds over every run of them.

`dafny verify dfyconfig.toml` checks everything.

## How the model is laid out

| module | what it holds |
|---|---|
| `TokenBucket` | the arithmetic of the Redis script over `real`, and its laws over whole runs of checks |
| `RateLimiter` | the limiter object, the Redis server, the remembered script digest, the one reload-and-retry |
| `Conversation` | `provider:thread_id` names and the conversation ids derived from them |
| `Store`, `StoreEdits` | the tables, the store invariant `Inv`, and what each kind of edit does to it |
| `Runtime` | the session around a request: commit on return, roll back on an exception |
| `Outbound`, `OutboundHandler` | `POST /outbound` as a transaction, and the handler proved to compute it |
| `Inbound` | provider webhooks: duplicates, insertion, batches |
| `DeliveryStatus` | status maps, the status log, Meta batches |
| `Batches` | the claim query and the loop over claimed rows that the two drains share |
| `OutboxDrain`, `EventDrain` | the two drains: claim order, outcomes, backoff, progress |
| `Publication` | any number of event drains at once, with row locks, commits, aborts and lost replies |
| `ConcurrentClaims`, `ClaimRefinement` | any number of concurrent requests with one key, statement by statement |
| `GateTrace`, `Overlap` | the two rate gates with any number of overlapping requests: the trace of script runs, its bounds, its accounts |
| `Deployment` | the process whose handlers, drains and reaper perform the steps of those runs |
| `Service`, `KeyRuns`, `Admission`, `DispatchRuns`, `PublishRuns` | serial runs of the whole service and what holds over them |

Handlers, workers, the limiter and the sessions are classes and methods that change state in the
order the source does; each is proved equal to a function of the old state, and the laws are proved
about those functions. Rows of messages, items and events are never deleted by the modelled code, so
those tables are sequences and a row's id is its position.

What the outside world does is a parameter: clock readings, the answers of the consent and audit
services, which Redis commands or replies get lost, which rows a query returns where its order
leaves a choice, whether dispatching or publishing a row succeeds, and whether a drain commits.

`Inv` says: external ids are unique; every key row names an outgoing message of its own actor, no two
the same one; every outgoing message has exactly one outbox item and one queued event, every incoming
one exactly one received event and no item; no row is left claimed; an item is dead exactly when its
eight attempts are used up; conversation ids are the derived ones; and every message's status is the
one that its log of status events replays to.

## Findings

- **Expired keys under concurrency.** After deleting an expired row, `enqueue_outbound` claims again
  and does not look at a row that this second claim finds (`outbound.py:124-127`). Two requests that
  both read the expired row can both be accepted; `ConcurrentClaims.ExpiredKeyAdmitsTwo` is the
  schedule. `IdempotentIffNoExpiry` is the exact condition, for any crowd and any window: the key lets
  two requests through in some schedule exactly when a row for it can expire within the window (the
  one that stands, or else one inserted a day before its end) and two of the requests are for different
  messages not yet stored. Retries of one body, which repeat the external id, are stopped in any case
  (`AcceptedExternalsDiffer`).
- **A lost reply costs a token, and can turn a permission into a denial.** When the script ran but its
  reply was lost, the retry runs it again. `RateLimiter.ChargeIsExact` says what an answered check takes
  from its bucket: what its answer says, unless the first reply was lost while a token was there. Then
  two tokens pay for one permission if there were two, and the one token pays for a 429 if there were
  fewer; `LostReplyDenies` is the second case.
- **A denied check that reads an earlier clock lets later checks through**, because it still writes
  `ts = now`. It leaves no trace in any later answer exactly when it does not read the clock behind the
  bucket's timestamp or the bucket is full (`TokenBucket.DeniedIsTransparentIff`; `ClockStepBackRefills`
  is a witness).
- **Checks that overlap can let more through than their window allows.** The caller reads the clock
  before its script reaches Redis, so a late check rewinds the bucket: with a limit of one a minute two
  requests pass at one instant (`Overlap.LateCheckLetsTwoBy`). The bound of the window holds for all
  requests that reach Redis in the order of their readings (`OverlappingBound`), as checks that do not
  overlap do (`SeparateChecksAreInOrder`), and that order is exactly what the bound needs: it holds in
  every segment, for all limits and buckets, precisely then (`TokenBucket.OrderIsExact`). For any other
  order the price is its forward drift: a stretch of seconds covers it exactly when it is at least as
  long as the drift (`TokenBucket.DriftIsExact`).
- **The event drain has head-of-line blocking.** Failed rows keep their place. With no row joining
  ahead, a healthy pending row is reached within some bound exactly when fewer than a batch of the rows
  that may be claimed no later than it, rows created at the same instant included, fail for ever
  (`EventDrain.ProgressIffFewFail`). The dispatch drain moves failures back and has no such condition.
- **`events_applied` also counts deliveries to unknown ids**, which change nothing
  (`DeliveryStatus.AppliedIsLoggedPlusUnknown`).
- **The dispatch drain's claim query may not be accepted at all.** It locks with FOR UPDATE while
  `joinedload` joins the message by a LEFT OUTER JOIN, and PostgreSQL refuses FOR UPDATE on the nullable
  side of an outer join (`outbox_drain.py:64-77`). Every theorem about the dispatch drain assumes that
  the query is accepted.
- Comments that differ from the code, where the model follows the code: the 429 branch is said to roll
  back the transaction's writes, but a deleted expired row stays deleted, so the store is as before
  exactly when no row stood for the key (`outbound.py:222-228`, `Outbound.BlockedDropsRow`); a read
  receipt is said to mark the most recent dispatched message, but the query takes any outgoing message
  of the thread, and logs a "delivered" event without setting the status (`delivery_status.py:314-343`).

## Model

Paths are relative to the repository root.

| member | source | states |
|---|---|---|
| `TokenBucket.TokensStayInRange` | src/multichannel/services/rate_limit.py:42-60 | after any checks, under any clock, the bucket holds between 0 and capacity tokens and its timestamp is the last check's |
| `TokenBucket.SegmentBound` | src/multichannel/services/rate_limit.py:42-60 | in every contiguous segment of checks, under any clock, at most capacity plus refill times the forward drift of the clock are allowed |
| `TokenBucket.WindowBound` | src/multichannel/services/rate_limit.py:42-60 | with a nondecreasing clock the segment's bound is capacity plus refill times its duration |
| `TokenBucket.WindowCount` | src/multichannel/services/rate_limit.py:42-60 | with a nondecreasing clock the checks allowed between any two instants number at most capacity plus refill times their distance |
| `TokenBucket.BoundIsReached` | src/multichannel/services/rate_limit.py:42-60 | for every sequence of instants some limit makes the segment bound exact |
| `TokenBucket.DriftIsExact` | src/multichannel/services/rate_limit.py:42-60 | capacity plus refill for a stretch of seconds covers the checks at given instants, for every limit and bucket, if and only if the stretch is at least the forward drift |
| `TokenBucket.OrderIsExact` | src/multichannel/services/rate_limit.py:42-60 | the bound by the time spanned holds in every segment, for every limit and bucket, if and only if the clock never goes back |
| `TokenBucket.GreedyIsOptimal` | src/multichannel/services/rate_limit.py:47-58 | after every prefix, under any clock, the script has allowed at least as many calls as any policy that shares the bucket's rules but may decline or stay away |
| `TokenBucket.LazyIsEager` | src/multichannel/services/rate_limit.py:47-48 | over a nondecreasing run, refilling and writing back at any further instants changes no answer |
| `TokenBucket.DeniedChecksAreTransparent` | src/multichannel/services/rate_limit.py:47-60 | with a nondecreasing clock, removing any denied checks from a run changes no other answer |
| `TokenBucket.DeniedIsTransparentIff` | src/multichannel/services/rate_limit.py:47-60 | a denied check leaves all later answers as they were if and only if it does not read the clock behind the bucket's timestamp or the bucket is full; otherwise a check at that timestamp already differs |
| `TokenBucket.ClockStepBackRefills` | src/multichannel/services/rate_limit.py:47-60 | the witness: a denied check that reads an earlier clock lets a later check pass |
| `TokenBucket.RetryAfterIsExact` | src/multichannel/services/rate_limit.py:52-60 | after a denial, with only denials in between, a check is allowed if and only if the announced delay has passed (and the capacity is at least one) |
| `TokenBucket.RetryAfterHeader` | src/multichannel/api/v1/outbound.py:205-232 | at refill n/60 the rounded-up delay of a denial lies between 1 and ceil(60/n) seconds |
| `TokenBucket.ExpiryIsInvisible` | src/multichannel/services/rate_limit.py:60-63 | dropping any idle hashes after their expiry time gives the same answers as never dropping one, under any clock |
| `TokenBucket.LifetimeIsTwoMinutes` | src/multichannel/services/rate_limit.py:63 | a per-minute limit's hash lives for 120 seconds after its last check, whatever the limit |
| `RateLimiter.Redis.ScriptLoad` | src/multichannel/services/rate_limit.py:76-79 | a load that reaches the server caches the script; the digest comes back only if the reply does |
| `RateLimiter.Redis.EvalSha` | src/multichannel/services/rate_limit.py:38-65 | the script's statements compute the bucket's next state and answer; nothing changes if the script is missing or the command is lost |
| `RateLimiter.Limiter.EnsureLoaded` | src/multichannel/services/rate_limit.py:76-79 | the script is loaded only when no digest is remembered, and a failed load leaves none |
| `RateLimiter.Limiter.TryTake` | src/multichannel/services/rate_limit.py:81-108 | the check, with its reload and single retry, moves client and server as the transaction-level function says |
| `RateLimiter.CheckIsFewRuns` | src/multichannel/services/rate_limit.py:94-107 | a check is at most two script runs at one instant on its own key; the answer is the last run's; an answered check ran twice if and only if the first reply was lost |
| `RateLimiter.ChargeIsExact` | src/multichannel/services/rate_limit.py:94-107 | an answered check takes from its bucket what its answer says if and only if not (first reply lost and a token there); it takes two for one permission iff two were there, and one for a denial iff one but not two |
| `RateLimiter.LostReplyDenies` | src/multichannel/services/rate_limit.py:94-107 | the witness: the only token is taken, the reply is lost, and the retry is denied |
| `RateLimiter.LimiterCheckPays` | src/multichannel/services/rate_limit.py:81-108 | whatever is lost on the way, the bucket is untouched and nothing allowed, or it paid at least for the answer given |
| `RateLimiter.AnswerIsOneRun` | src/multichannel/services/rate_limit.py:107-108 | every answer, retries included, is one the script gives for some bucket that is not negative |
| `RateLimiter.ScriptLossIsInvisible` | src/multichannel/services/rate_limit.py:100-106 | with all commands answered, losing the cached script at any point before the reload changes neither answer nor buckets |
| `RateLimiter.AnsweredExactlyWhen` | src/multichannel/services/rate_limit.py:94-108 | a check answers if and only if the first evaluation found the script and was answered, or reload and retry were; the first reply is lost exactly when that evaluation ran unanswered |
| `RateLimiter.Burst` | src/multichannel/services/rate_limit.py:42-58 | with a limit of n a minute and all commands answered, the first n checks of a new key at one instant pass and no other does |
| `Conversation.JoinIsInjective` | src/multichannel/lib/conversation_id.py:13 | joining with a colon is injective when the first parts contain none, whatever the second parts hold |
| `Conversation.ConversationIdentifiesThread` | src/multichannel/lib/conversation_id.py:10-13 | two threads get one conversation id if and only if provider and thread id agree |
| `Conversation.ConversationNames` | src/multichannel/lib/conversation_id.py:10-13 | the name hashed for each provider is its own name, one colon and the thread id; without a thread the id is random |
| `Store.FindMessage` | src/multichannel/api/v1/delivery_status.py:43-51 | a lookup finds a row with the two columns if there is one, and otherwise there is none |
| `Store.AtMostOneMatch` | src/multichannel/api/v1/delivery_status.py:43-51 | under the unique constraint a row matches a lookup if and only if it is the row found, so the query never sees two |
| `Store.Threading` | src/multichannel/models/message.py:78-83 | under the invariant, two threaded messages share a conversation if and only if provider and thread agree, and a threadless message shares its own with none |
| `StoreEdits.AddMessageKeepsInv` | src/multichannel/api/v1/outbound.py:240-280 | a new external id with its announcement, its item if it goes out, and its derived conversation keeps the whole invariant |
| `StoreEdits.UpdateMessageKeepsInv` | src/multichannel/api/v1/delivery_status.py:103-107 | a status change that is logged, or a read receipt that leaves the status alone, keeps the whole invariant |
| `StoreEdits.ReplayIgnoresDelivery` | src/multichannel/services/event_outbox_drain.py:52-66 | delivering events changes nothing that the status log replays to |
| `Runtime.Session.Close` | src/multichannel/runtime.py:42-50 | the handler's writes become the committed store, or the committed store is as before if it raised |
| `Outbound.BadRequestExactlyWhen` | src/multichannel/api/v1/outbound.py:104-116 | each 400 code is answered if and only if its own condition on the request's fields holds and none before it does; there are no other codes |
| `Outbound.ReplayedExactlyWhen` | src/multichannel/api/v1/outbound.py:119-151 | 200 and 422 are answered if and only if the request is well-formed and its key has a row not yet expired, by whether the fingerprints agree |
| `Outbound.ConsentRevokedExactlyWhen` | src/multichannel/api/v1/outbound.py:157-188 | 409 is answered if and only if a well-formed request with a free key and a recipient needs consent, it is revoked, and the denial was recorded |
| `Outbound.GatesWrittenOut` | src/multichannel/api/v1/outbound.py:72-77 | actor gate first, then the provider's, each with its Redis key, its own setting per minute and a sixtieth of it per second; off means everything passes |
| `Outbound.RateLimitedExactlyWhen` | src/multichannel/api/v1/outbound.py:205-238 | 429 is answered if and only if a request that may be sent is blocked by a gate and the denial recorded; scope and delay are that gate's and the header rounds the delay up |
| `Outbound.LimiterAskedExactlyWhen` | src/multichannel/api/v1/outbound.py:192-207 | the limiter changes only by the two gates, asked exactly for well-formed requests with a free key that may be sent |
| `Outbound.AcceptedExactlyWhen` | src/multichannel/api/v1/outbound.py:104-290 | 202 if and only if the fields of the envelope, the key, the recipient and the consent or its recorded override are right, both gates pass, the external id is new and the final audit succeeds |
| `Outbound.AcceptedAddsOneMessage` | src/multichannel/api/v1/outbound.py:240-290 | a 202 adds exactly one queued message with the request's fields, one item, one event, and (with a key) a key row naming it where no live row stood |
| `Outbound.RefusalLeavesNoTrace` | src/multichannel/api/v1/outbound.py:96-238 | any other answer leaves the store as it was, except that a 429 removes the caller's key row, which had expired if there was one; replays, conflicts, 400 and 409 consume no token |
| `Outbound.BlockedDropsRow` | src/multichannel/api/v1/outbound.py:222-228 | a 429 leaves the store as it was if and only if the request had no key or no row stood for it |
| `Outbound.LiveKeyAnswers` | src/multichannel/api/v1/outbound.py:119-151 | a live key is answered 200 with its message for the same body and 422 for another, and nothing moves |
| `Outbound.HandleKeepsInv` | src/multichannel/api/v1/outbound.py:81-290 | every committed or rolled-back request keeps the store invariant |
| `OutboundHandler.ClaimKey` | src/multichannel/lib/idempotency.py:21-56 | an existing row is returned untouched; otherwise a row for 24 hours without a message is inserted, or, if the unique index is taken, everything is rolled back and the committed row, if any, is returned as not new |
| `OutboundHandler.ClaimStage` | src/multichannel/api/v1/outbound.py:118-155 | the claim, expiry, conflict and replay branches end as the transaction's claim stage does |
| `OutboundHandler.GateLoop` | src/multichannel/api/v1/outbound.py:192-208 | the loop checks the actor's and then the provider's bucket and stops at the first that does not let it through |
| `OutboundHandler.PersistStage` | src/multichannel/api/v1/outbound.py:240-280 | message, key link, item and event are written together, or none when the external id is taken |
| `OutboundHandler.EnqueueOutbound` | src/multichannel/api/v1/outbound.py:81-290 | for every request and environment the handler's answer, limiter and raise-or-return are those of the transaction, and so is its session whenever it returns |
| `OutboundHandler.PostOutbound` | src/multichannel/runtime.py:42-50 | behind the session the committed store moves by exactly that transaction or not at all |
| `OutboundHandler.ReapExpired` | src/multichannel/api/v1/outbound.py:65-69 | exactly the rows that have expired by now go, and the others stay as they are |
| `Inbound.BatchIsUnion` | src/multichannel/api/v1/webhooks.py:123-132 | after any list the ids are the union, one message and one received event appear per distinct new id, and nothing else changes |
| `Inbound.FirstArrivalWins` | src/multichannel/api/v1/webhooks.py:60-91 | of several list elements with one new id the first is stored, with its own fields |
| `Inbound.RedeliveryChangesNothing` | src/multichannel/api/v1/webhooks.py:60-61 | redelivering a committed batch in any order, with repeats or omissions, changes nothing |
| `Inbound.OrderDoesNotMatter` | src/multichannel/api/v1/webhooks.py:125-132 | two orders of a list give the same ids and the same numbers of rows |
| `Inbound.InsertAllKeepsInv` | src/multichannel/api/v1/webhooks.py:62-81 | a batch keeps the store invariant |
| `Inbound.InsertInbound` | src/multichannel/api/v1/webhooks.py:40-91 | a known id changes nothing; a new one adds its message and event, and is reported unless the audit raises |
| `Inbound.AuditedExactlyWhen` | src/multichannel/api/v1/webhooks.py:82-90 | a batch gets through if and only if every first arrival of a new id is audited |
| `Inbound.MetaWebhook` | src/multichannel/api/v1/webhooks.py:123-132 | error if and only if some first arrival of a new id is not audited, and then the database is as before; otherwise the ids are the union, each new id has the row and event of its first arrival, and the reply counts them |
| `Inbound.SingleWebhook` | src/multichannel/api/v1/webhooks.py:106-109 | only the reply "received" changes the database, by exactly the arrival's row and event; a known id is a duplicate, and an audit that raises leaves no trace |
| `DeliveryStatus.PostmarkStatus` | src/multichannel/api/v1/delivery_status.py:127-133 | exactly the five record types set a status, only "Bounce" bounced and only "SpamComplaint" failed, and none is logged as "read" |
| `DeliveryStatus.SignalwireStatus` | src/multichannel/api/v1/delivery_status.py:192-197 | exactly the four provider statuses set a status, each its own, and none is logged as "read" |
| `DeliveryStatus.ApplyMeaning` | src/multichannel/api/v1/delivery_status.py:85-121 | a report changes the one message it matches and no other, sets what it says, and logs exactly one event, or changes nothing |
| `DeliveryStatus.ApplyKeepsInv` | src/multichannel/api/v1/delivery_status.py:95-107 | a report keeps the store invariant, in particular that statuses replay from the log |
| `DeliveryStatus.MetaAllKeeps` | src/multichannel/api/v1/delivery_status.py:299-343 | a Meta batch keeps the invariant, touches only status fields, clears no delivery time and only appends to the log |
| `DeliveryStatus.MetaBatchMeaning` | src/multichannel/api/v1/delivery_status.py:299-343 | exactly the messages some delivery names become delivered with a time; other statuses and times stay; a message no update is about is unchanged |
| `DeliveryStatus.LastUpdateWins` | src/multichannel/api/v1/delivery_status.py:299-343 | the delivery time is that of the last delivery to the message; the detail is cleared by the last update if it is a delivery and is its watermark if it is a read receipt |
| `DeliveryStatus.MetaStepEvents` | src/multichannel/api/v1/delivery_status.py:302-342 | an update logs exactly one event, "delivered" or "read" with its watermark, or none if it names no known message |
| `DeliveryStatus.ReadReachesNewest` | src/multichannel/api/v1/delivery_status.py:321-332 | a read receipt reaches an outgoing message of its provider and thread than which none is newer, and none only if there is none |
| `DeliveryStatus.AppliedIsLoggedPlusUnknown` | src/multichannel/api/v1/delivery_status.py:298-344 | the reported count equals the events the batch logged plus its deliveries to unknown ids |
| `DeliveryStatus.NewestIgnoresStatus` | src/multichannel/api/v1/delivery_status.py:321-332 | the newest-in-thread query gives the same answers anywhere inside a batch |
| `DeliveryStatus.PayloadUpdatesMeaning` | src/multichannel/api/v1/delivery_status.py:243-275 | an update is extracted if and only if some element of some entry reports it |
| `DeliveryStatus.PayloadsJoin` | src/multichannel/api/v1/delivery_status.py:248-249 | extraction maps joined payloads to joined lists |
| `DeliveryStatus.EntryIsItsElements` | src/multichannel/api/v1/delivery_status.py:253-274 | and joined entries too, down to one element: its deliveries in order, each once, then its read receipt |
| `DeliveryStatus.ExtractStatusEvents` | src/multichannel/api/v1/delivery_status.py:243-275 | the nested loops list the updates entry by entry, deliveries of an element before its read receipt |
| `DeliveryStatus.ApplyStatus` | src/multichannel/api/v1/delivery_status.py:85-121 | the field-by-field update is the report's transaction; an unknown id is answered so, an audit that raises is an error |
| `DeliveryStatus.PostmarkWebhook` | src/multichannel/api/v1/delivery_status.py:157-179 | the reply is fixed by record type, time, lookup and audit; only "updated" changes the database, by exactly the status of the map, the description, the time if delivered and readable, and one event |
| `DeliveryStatus.SignalwireWebhook` | src/multichannel/api/v1/delivery_status.py:215-233 | the reply is fixed by status, lookup and audit; only "updated" changes the database, by exactly the status of the map, the description, the clock's time if delivered, and one event |
| `DeliveryStatus.MetaStatus` | src/multichannel/api/v1/delivery_status.py:278-344 | 404 exactly for the two other providers; error exactly if a delivery to a known message is not audited; both leave the database as before, and otherwise the count is determined by the batch and the opening store |
| `Batches.BatchExists` | src/multichannel/services/outbox_drain.py:64-77 | a claim query with a total order and a limit has an answer for every table, here and in the event drain |
| `Batches.DrainedRows` | src/multichannel/services/outbox_drain.py:51-62 | in both drains each claimed row is settled once, from the state in which it was claimed, and no other row changes |
| `OutboxDrain.Worker.MarkRetry` | src/multichannel/services/outbox_drain.py:79-93 | a failure counts one attempt and keeps its error; at eight attempts the row is dead, and otherwise due exactly 2^attempts seconds after the failure |
| `OutboxDrain.Worker.DrainOnce` | src/multichannel/services/outbox_drain.py:47-62 | the loop settles the batch in one transaction; without the commit the table is as before |
| `OutboxDrain.WaitingIsPaidFor` | src/multichannel/services/outbox_drain.py:64-93 | while a due row waits, committed drains times batch size is at most the rows at or before it plus the later ties |
| `OutboxDrain.NoStarvation` | src/multichannel/services/outbox_drain.py:47-93 | whatever succeeds, fails, aborts or is enqueued, a due row with r rows at or before it is claimed within floor((r + ties) / batch) + 1 committed drains |
| `OutboxDrain.TiesAreSimultaneous` | src/multichannel/services/outbox_drain.py:73 | a later request ties with a due row only if both were created and queued at one and the same instant |
| `OutboxDrain.QueryWrittenOut` | src/multichannel/services/outbox_drain.py:65-77 | a claim is exactly a list of pending rows due by now, by due time and then creation, no longer than the batch, that leaves no earlier one out |
| `OutboxDrain.SettleWrittenOut` | src/multichannel/services/outbox_drain.py:51-62 | a sent row is done without error; a refused one has one more attempt and is due 2^attempts seconds later, or dead at eight |
| `OutboxDrain.CapNeverBinds` | src/multichannel/services/outbox_drain.py:17-18 | every backoff a pending row can get is the plain power of two |
| `OutboxDrain.DueDates` | src/multichannel/services/outbox_drain.py:79-93 | over any run a fresh row's attempts are its refusals; pending after k of them it is due exactly 2^k seconds after the last; it is dead exactly after eight |
| `OutboxDrain.RetrySchedule` | src/multichannel/services/outbox_drain.py:79-93 | over any run a pending row has at most 7 failures and with k of them is due no earlier than t0 + 2^(k+1) - 2; no row dies before t0 + 254 s, and then with 8 attempts |
| `OutboxDrain.FinalRowsStay` | src/multichannel/services/outbox_drain.py:69-72 | done and dead rows never change |
| `OutboxDrain.AttemptsAreBounded` | src/multichannel/services/outbox_drain.py:79-93 | committed dispatch attempts plus the attempts still left never exceed the opening budget plus eight per enqueued row |
| `OutboxDrain.DrainKeepsInv` | src/multichannel/services/outbox_drain.py:51-62 | a committed drain keeps the store invariant, in particular leaves no row claimed |
| `EventDrain.Stream.Publish` | src/multichannel/services/event_outbox_drain.py:54-57 | a call that raises may or may not have appended |
| `EventDrain.QueryWrittenOut` | src/multichannel/services/event_outbox_drain.py:68-76 | a claim is exactly a list of pending rows by creation time, no longer than the batch, that leaves no earlier one out |
| `EventDrain.AppendedAreAttempted` | src/multichannel/services/event_outbox_drain.py:52-57 | the stream gets exactly the rows whose publication was not rejected, in the order of the batch |
| `EventDrain.Worker.PublishRow` | src/multichannel/services/event_outbox_drain.py:52-66 | a published row is done with its time, any other stays pending, and the stream got the event unless it was rejected |
| `EventDrain.Worker.DrainOnce` | src/multichannel/services/event_outbox_drain.py:48-66 | the loop settles the batch in one transaction; a drain may die after any row, and then the rows roll back and the stream keeps what it got |
| `EventDrain.Progress` | src/multichannel/services/event_outbox_drain.py:68-76 | with s rows at or before it failing for ever and s below the batch size, a healthy row with h healthy ones at or before it is done within floor(h / (batch - s)) + 1 committed drains, rows that join ahead meanwhile included in s and h |
| `EventDrain.HeadOfLineBlocking` | src/multichannel/services/event_outbox_drain.py:57-58 | a batch of rows failing for ever at the head keeps every later row unchanged in every run |
| `EventDrain.ProgressIffFewFail` | src/multichannel/services/event_outbox_drain.py:68-76 | with no row joining ahead, a bound on the drains until a healthy pending row is done exists if and only if fewer than a batch of the rows at or before it, ties included, fail for ever |
| `EventDrain.DrainsNeeded` | src/multichannel/services/event_outbox_drain.py:48-76 | without failures n pending rows are all published after d drains if and only if d times the batch size is at least n |
| `EventDrain.PublishedInOrder` | src/multichannel/services/event_outbox_drain.py:68-76 | without failures the stream gets the pending rows in creation order, each once, as many as left the pending state |
| `EventDrain.DrainKeepsInv` | src/multichannel/services/event_outbox_drain.py:52-66 | a committed drain keeps the store invariant |
| `Publication.NextKeepsLocks` | src/multichannel/services/event_outbox_drain.py:74 | under any interleaving every drain in flight holds pending rows and no two hold the same one |
| `Publication.PublicationAccounting` | src/multichannel/services/event_outbox_drain.py:48-76 | each row's count in the stream is 1 if done, plus aborts after publishing it, plus appends that then raised, plus confirmed publications in flight |
| `Publication.DoneMeansPublished` | src/multichannel/services/event_outbox_drain.py:53-66 | a done row is in the stream, and exactly once if and only if no abort and no ambiguous failure hit it |
| `Publication.SoloDrainIsAtomic` | src/multichannel/services/event_outbox_drain.py:48-66 | the interleaved steps of one undisturbed drain add up to the worker's transaction |
| `ConcurrentClaims.ConcurrentIdempotency` | src/multichannel/lib/idempotency.py:21-56 | while no row for the key can expire, under any interleaving at most one request is accepted (none if the key was taken), replays return its message to the same body, and 422 goes to other bodies only |
| `ConcurrentClaims.AcceptedExternalsDiffer` | src/multichannel/models/message.py:46-52 | with or without expiry, two accepted requests never carry one external id |
| `ConcurrentClaims.ExpiredKeyAdmitsTwo` | src/multichannel/api/v1/outbound.py:124-127 | a schedule by which any two requests for different new messages that read one expired row are both accepted |
| `ConcurrentClaims.LosesSecondClaim` | src/multichannel/api/v1/outbound.py:124-153 | a request whose second insert fails on the index rolls back, finds the winner's row, does not examine it, and is accepted without a key |
| `ConcurrentClaims.NextDayAdmitsTwo` | src/multichannel/lib/idempotency.py:36-43 | a schedule by which two requests for different new messages are both accepted a day apart when no row stood |
| `ConcurrentClaims.FewMessagesFewAccepted` | src/multichannel/models/message.py:46-52 | requests that do not bring two different new messages are never both accepted, whatever expires |
| `ConcurrentClaims.IdempotentIffNoExpiry` | src/multichannel/api/v1/outbound.py:118-153 | for any crowd and any window, every interleaving accepts at most one request if and only if no row for the key can expire within the window, or no two requests are for different messages not yet stored |
| `ClaimRefinement.SoloRequestIsClaim` | src/multichannel/api/v1/outbound.py:118-155 | without concurrency the interleaved statements end as the serial claim stage does, with the same row or answer |
| `ClaimRefinement.SoloRequestIsTransaction` | src/multichannel/api/v1/outbound.py:118-290 | without concurrency a whole request with a key ends with the serial transaction's answer and the row for its key that the transaction commits |
| `Service.ApplyKeepsInv` | src/multichannel/runtime.py:42-50 | each committed step of requests, webhooks, status reports, drains and the reaper keeps the store invariant |
| `Service.ReachableStoresAreSound` | src/multichannel/runtime.py:42-50 | the invariant holds after every prefix of every run |
| `Service.ReachableStoresMakeSense` | src/multichannel/api/v1/delivery_status.py:43-121 | in every store reachable from the empty one: lookups match at most one row, threads are conversations, and statuses replay from the log |
| `Service.MessagesEndureRuns` | src/multichannel/api/v1/delivery_status.py:103-106 | over any run no message disappears or changes identity and no delivery time is cleared |
| `Deployment.Process.Perform` | src/multichannel/runtime.py:42-50 | each step of the service's runs is what the handler, drain or reaper behind it does to database, limiter and stream |
| `Deployment.Process.Serve` | src/multichannel/runtime.py:42-50 | performing the steps of a run one after the other reaches exactly the world that the run's theorems speak of |
| `KeyRuns.AcceptanceWritesRow` | src/multichannel/lib/idempotency.py:36-43 | an accepted request with a key leaves a row for its body and message, claimed during its own step, valid for a day |
| `KeyRuns.ExpirySpacing` | src/multichannel/lib/idempotency.py:36-43 | in any serial run two 202s for one actor and key have claim times at least 24 hours apart |
| `KeyRuns.StableReplay` | src/multichannel/api/v1/outbound.py:119-153 | in between, every well-formed request with that key changes nothing and gets the accepted message's id, or 422 for another body |
| `GateTrace.GateKeysDiffer` | src/multichannel/api/v1/outbound.py:193-204 | two gates share a Redis key if and only if they are the same gate |
| `GateTrace.WindowTakes` | src/multichannel/services/rate_limit.py:42-60 | runs on a gate that reach Redis in clock order take no more tokens in a window than the limit and the window's refill |
| `Overlap.EndIsTraced` | src/multichannel/services/rate_limit.py:18-21 | under any interleaving of overlapping requests, each gate's bucket and answers are those of the script over the gate's runs in server order |
| `Overlap.OverlappingBound` | src/multichannel/api/v1/outbound.py:192-238 | under any interleaving and any losses, if a gate's runs reach Redis in clock order, the requests that pass it in a window, hence the accepted ones, number at most n plus n/60 per second |
| `Overlap.OverlappingDrift` | src/multichannel/api/v1/outbound.py:192-238 | in whatever order they reach Redis, all accepted requests are within n plus n/60 times the forward drift of that order |
| `Overlap.SeparateChecksAreInOrder` | src/multichannel/api/v1/outbound.py:205-207 | requests that overlap while their checks do not reach Redis in clock order |
| `Overlap.LateCheckLetsTwoBy` | src/multichannel/services/rate_limit.py:92-99 | the witness that the order is needed: with one token a minute, a check that reaches Redis late lets two requests pass at one instant |
| `Overlap.GatesConserve` | src/multichannel/api/v1/outbound.py:193-208 | under any interleaving, permissions in the actor gates' trace equal permissions and denials in the provider gates' trace plus the requests that broke or are under way at the provider gate; provider permissions equal accepted requests plus those that failed after both gates |
| `Overlap.TokensAreTraced` | src/multichannel/services/rate_limit.py:94-107 | every token a gate gave out let exactly one request by, or its reply was lost |
| `Admission.SoloCheck` | src/multichannel/services/rate_limit.py:81-108 | the interleaved steps of one uninterrupted check are the limiter's check, with reload and retry |
| `Admission.SerialIsOverlapping` | src/multichannel/api/v1/outbound.py:192-238 | a serial run of the service is an overlapping run with the same buckets, acceptances and check times, in clock order |
| `Admission.AdmissionBound` | src/multichannel/api/v1/outbound.py:192-238 | the serial corollary: accepted requests whose check falls in a window number at most n plus n/60 per second of it, for each provider and for each actor |
| `Overlap.DenialsAnnounce` | src/multichannel/api/v1/outbound.py:205-232 | under any interleaving no bucket ever owes a token, and every denial's rounded delay lies between 1 and ceil(60/n), n being its gate's limit |
| `Admission.BucketsStayNonNegative` | src/multichannel/services/rate_limit.py:42-60 | at every point of a serial run no bucket owes a token |
| `Admission.RateLimitedHeader` | src/multichannel/api/v1/outbound.py:205-232 | the Retry-After header of every 429 of a serial run lies between 1 and ceil(60/n), n being the limit of the gate that refused |
| `Admission.GateAccounting` | src/multichannel/api/v1/outbound.py:193-208 | the serial corollary, read off the trace of answers: actor permissions equal provider permissions, provider denials and requests whose provider check raised; acceptances are among the provider permissions |
| `Admission.ActorBurst` | src/multichannel/api/v1/outbound.py:193-208 | of requests of a new actor at one instant the actor's gate blocks exactly those after the first n, n being its setting |
| `Admission.ProviderBurst` | src/multichannel/api/v1/outbound.py:72-77 | of requests for an unused provider at one instant, from new actors, exactly the first n pass both gates, n being that provider's own setting |
| `DispatchRuns.TableRunIsValid` | src/multichannel/api/v1/outbound.py:262-267 | in every serial run of the service the outbox table goes through a run of the drain's own model, with the same final table |
| `DispatchRuns.NoStarvationInService` | src/multichannel/services/outbox_drain.py:47-93 | a due item is claimed within the bound while the rest of the service goes on |
| `DispatchRuns.RetryScheduleInService` | src/multichannel/services/outbox_drain.py:79-93 | the item of an accepted request keeps the retry schedule measured from the moment it was queued, over the rest of the run |
| `DispatchRuns.DueDatesInService` | src/multichannel/services/outbox_drain.py:79-93 | over the rest of the run, the item of an accepted request is due when it was queued, and after k refusals exactly 2^k seconds after the last |
| `PublishRuns.TableRunIsValid` | src/multichannel/services/event_outbox_drain.py:48-76 | in every run of the service the event table goes through a run of the drain's own model, with the same final table |
| `PublishRuns.ProgressInService` | src/multichannel/services/event_outbox_drain.py:68-76 | a healthy event is published within the bound while the rest of the service goes on, rows that join ahead of it included |
| `PublishRuns.JoinersTie` | src/multichannel/services/event_outbox_drain.py:72 | in a serial run a row joins ahead of an earlier one only by being created at one and the same instant |

## Left out

- OutboundHandler.ClaimStage: no other transaction comes in between, so the unique index is never taken; `ConcurrentClaims` has the stage with interruptions.
- OutboxDrain.NoStarvation: one worker and atomic enqueues; with several workers skipping each other's locked rows only the event drain is modelled (`Publication`).
- Publication.PublicationAccounting: a claim may take any unlocked pending rows, in any order and number, which covers the ordered and limited query.
- EventDrain.PublishedInOrder: order is by creation time and leaves rows created at one instant in either order, as the query does.
- Inbound.MetaWebhook: two concurrent webhooks with one id are not interleaved; the unique constraint would fail the second with an error.
- RateLimiter.LimiterCheckPays: the `mc:ratelimit:` prefix of the Redis keys and the number-to-string conversions are not modelled; expiry of idle hashes is not part of the limiter's state because `TokenBucket.ExpiryIsInvisible` shows it changes no answer.
- Overlap.OverlappingBound: assumes that a gate's runs reach Redis in the order of their clock readings; without that it is false (`LateCheckLetsTwoBy`), and `OverlappingDrift` and `TokenBucket.DriftIsExact` say what holds.
- Float rounding: instants, tokens and delays are `real`.
- Rate limits of zero or less per minute, where the source divides by zero or refuses everything.
- SHA-256, HMAC and UUID internals: digests and name-based ids are taken to be collision-free, random ids fresh; the signature checks in front of the webhooks are left out.
- PostgreSQL itself: read-committed visibility, unique-index waiting and SKIP LOCKED are assumed.
- A DELETE that matches no row only warns in SQLAlchemy; the model goes on accordingly.
- Column length limits, and the types of malformed JSON values inside webhook payloads.
- Provider senders, `dispatch.py` (the drain's call is still a placeholder, so its outcome is arbitrary), and the consent, audit and stream clients, which are oracles that answer or raise.
- The provider parsers and the sidecar: field picking; the parsed list is an input.
- FastAPI routing, authentication headers, pydantic validation, CloudEvent JSON, logging, settings, migrations and the read routes of `messages.py`.
- The endless `run` loops, their stop flag and their pauses: a run of drains is any sequence of drain steps.
