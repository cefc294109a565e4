# EuroLedger payment protocol: model and proofs

This project models the database-backed payment protocol of the EuroLedger
backend and the WooCommerce receiver at its far end, and proves what holds over
every run of all processes together. `dafny verify dfyconfig.toml` checks it.

**The world.** The committed tables (payment intents, endpoints, deliveries), the
creation calls in flight, the counters of the workers, the orders of the shops and
a log of everything ever sent form one state (`World.World`). An event is one
service call, committed or rolled back, or one stage of a creation call, which is
split into first lookup, insert and second lookup. `World.Exec` runs any sequence
of events, and its contract says that every run keeps the invariant `WorldOk`.
Beside the rows an observer keeps notes that no code reads: for each delivery the endpoint it was made for, its
attempts since creation or the last manual retry, and the log entry that accepted
it; for each settled intent the endpoints its event went to.

**Form.** Services that assign rows are methods over a database session
(`Database.Session`), a delivery row, an order and the three workers, each a class
with the fields of the source. Every such method is proved equal to a function on
the tables, with its loop where the source has one, and the properties are proved
about those functions and about runs of them. Pure code is functions. The lemmas
about an operation speak of the columns of the tables, the entries of the send log,
the fields of a transaction or the characters of a text, and not of the function
the operation is specified by.

**The ledger server** (`SyncFacts`) answers from an append-only history in ledger
order: upwards from the requested ledger, downwards from the newest entry without a
cursor, with a marker exactly when there is more. It answers the requests that are
really sent (`XrplSync.Requests`), so a wrong bound, direction or marker would lose
the results. It may fail, page as it likes and show more between two pages. The scans of the worker are events of a run
(`SyncRuns`), so between two of them the other processes do whatever a run can do.

**Results that a reader may not expect**

- A cycle that moves the cursor misses nothing exactly when what it saw ends with a
  whole ledger (`SyncFacts.AdvanceIsExact`). If it ends inside one, the rest of that
  ledger is lost (`SyncResults.OpenLedgerIsLost`, with a concrete run in
  `SyncResults.HalfLedgerIsMissed`).
- A payment confirmed in a cycle that does not move the cursor, because another
  payment failed or the worker died, blocks the cursor for ever
  (`SyncRuns.ConfirmedAheadOfCursorStalls`), and so does any other payment that can
  no longer be accepted (`SyncRuns.HopelessPaymentStalls`).
- docs/merchant-webhooks.md:200-209 says that failing requests are retried and in
  the end discarded. The code catches only TimeoutError, URLError and OSError
  (backend/app/services/webhook_delivery.py:161); any other exception rolls the
  whole batch back. The model follows the code: `Fairness.CommitsIffNotPoisoned` is
  the exact condition, `Cases.ExceptionIsNotAFailedAttempt` a concrete run and
  `Fairness.PoisonedHeadStallsTheQueue` the consequence.
- The expirer's bound must count creation calls in flight
  (`ExpiryFairness.DueIntentLeavesPending`): a slow call may insert a row that is
  already due (`Cases.CallInFlightComesFirst`). Without such calls the plain bound
  holds (`ExpiryFairness.PlainBoundWithNothingInFlight`).
- Decoding a cursor whose time is outside the calendar in UTC raises an exception
  that the decoder does not turn into its own error, and only then
  (`Cursors.OverflowsOutsideTheCalendar`).

**Assumptions.** A strictly increasing clock in microseconds; one webhook worker, one
expirer and one ledger worker; `max_attempts` and the limits fixed and at least 1;
a shop links an order to an intent once and only these handlers write its status
(`World.ShopAction`, plugin-woocommerce/euroledger-xrpl-gateway/includes/class-euroledger-xrpl-gateway.php:659);
uuids drawn by the database come from an oracle, and a repeated one is an integrity error.

## Model

Specification functions that only compute have no row of their own; the member
named is the method proved equal to them or the lemma about them.

| member | source | states |
|---|---|---|
| `PaymentIntents.ConfirmPaymentIntent` | backend/app/services/payment_intents.py:207-232 | the method leaves the committed rows and the reply of the confirmation: a pending intent settled, its deliveries in the same commit, anything else refused with no row changed |
| `PaymentIntents.CancelPaymentIntent` | backend/app/services/payment_intents.py:235-280 | the same for a cancellation, with its two replies for an intent already cancelled |
| `PaymentIntents.ConfirmReplies` | backend/app/services/payment_intents.py:207-232 | the reply by the columns: refused unless pending, changed iff the ids of all its deliveries are fresh, else an integrity error; it settles status and hash of this row and no other |
| `PaymentIntents.CancelReplies` | backend/app/services/payment_intents.py:235-280 | the reply by the columns: absorbed or a conflict when cancelled, refused when confirmed or expired, changed iff the ids are fresh; it settles status, time and reason of this row and no other |
| `Steps.ConfirmEvent` | backend/app/api/routes/payment_intents.py:359-392 | a confirmation reaches only the intent of the merchant who asks, changes it iff it is pending and the ids are fresh, and no delivery that was there |
| `Steps.CancelEvent` | backend/app/api/routes/payment_intents.py:401-434 | the same for a cancellation |
| `Store.TerminateSucceedsIff` | backend/app/services/payment_intents.py:220-232 | a transition fails iff an id that one of its deliveries needs is missing, repeated or taken; it adds the deliveries with those ids and no others |
| `Store.TerminateQueues` | backend/app/services/webhook_events.py:63-105 | each new delivery, column by column: for an enabled endpoint of the merchant, waiting, unattempted, due from the event on, and telling the settled row |
| `PaymentIntents.ExpirePendingPaymentIntents` | backend/app/services/payment_intents.py:283-321 | the loop with its counter leaves the rows of the expiry of the first `limit` due intents, or none when an exception or the commit undoes them |
| `Database.Session.EnqueueDeliveries` | backend/app/services/webhook_events.py:63-105 | the loop adds to the session exactly one delivery for each listed endpoint, or reports the failed flush |
| `Store.EndpointsInOrder` | backend/app/repositories/webhook_endpoints.py:43-57 | the fan-out addresses each enabled endpoint of the merchant, once, strictly by creation and then id |
| `Steps.EndpointEvents` | backend/app/api/routes/webhook_endpoints.py:126-188 | what adding, changing and deleting an endpoint write: only this endpoint, never an intent, and a deletion unlinks exactly the deliveries of the endpoint |
| `Store.TerminateFacts` | backend/app/services/payment_intents.py:220-232 | a terminal transition keeps every invariant of the tables, changes no settled row, and adds for the intent one delivery per enabled endpoint and nothing else |
| `IntentFacts.ConfirmFacts` | backend/app/services/payment_intents.py:207-232 | what a confirmation writes: status, hash, one faithful delivery per enabled endpoint; otherwise nothing at all |
| `IntentFacts.CancelFacts` | backend/app/services/payment_intents.py:235-280 | what a cancellation writes: status, time, reason and its fan-out; otherwise nothing at all |
| `IntentFacts.CancellationIsIdempotent` | backend/app/services/payment_intents.py:242-251 | in any later state of the database the same cancellation is absorbed and one with another reason is refused, both without a change |
| `Results.LifecycleHolds` | backend/app/domain/payment_status.py:9-29 | on every run: a hash iff confirmed, a cancellation time iff cancelled, a reason only when cancelled, a key iff a fingerprint; the order of an intent never changes and a settled intent changes in nothing |
| `Results.PendingIntentsHaveNoDelivery` | backend/app/services/payment_intents.py:220-232 | on every run a delivery belongs to a settled intent |
| `Results.OutboxIsExact` | backend/app/services/webhook_events.py:34-105 | on every run, for ever after the event that settled an intent: exactly one delivery per endpoint the merchant had enabled just before, and event type, id, merchant, reference, amount, currency, status, description, destination, hash and times of its payload are the columns the intent has now |
| `Results.NewDeliveriesAreQueued` | backend/app/services/webhook_events.py:78-105 | on every run a delivery is created waiting, with no attempts, due from the moment of its event, for an endpoint enabled just then |
| `World.NextFansSettled` | backend/app/services/webhook_events.py:70-97 | whichever process settles an intent, its event goes to the endpoints enabled just before |
| `Creation.CreatePaymentIntent` | backend/app/services/payment_intents.py:106-178 | one whole call, with whatever other calls commit before its insert and before its second lookup |
| `Creation.InsertCreatesIff` | backend/app/services/payment_intents.py:149-178 | an insert creates its row iff no row has its merchant and key, none its id and none its reference; the row has every column the call asked for, and otherwise nothing changes |
| `Creation.LookupMissesIff` | backend/app/services/payment_intents.py:82-132 | a lookup goes on iff no row has its merchant and key; else the fingerprint of that row decides between its return and the conflict |
| `Creation.WholeCallReplies` | backend/app/services/payment_intents.py:106-178 | the other ends of a call: what a row with its key says at the first or, after a refused insert, at the second lookup; it raises iff it has no key or no row has it |
| `Results.InsertOnRunsCreatesIff` | backend/app/services/payment_intents.py:149-178 | on every run the insert of a call succeeds iff the three constraints have room for its row, which is then in the table |
| `Results.LookupOnRuns` | backend/app/services/payment_intents.py:82-132 | on every run a lookup answers by the row with the merchant and key of the call, and iff there is none the first goes on to the insert and the second raises |
| `Results.CallsBegin` | backend/app/services/payment_intents.py:106-118 | on every run a creation call starts with its lookup when it has a key and with its insert when it has none |
| `Creation.ByKey` | backend/app/repositories/payment_intents.py:43-50 | the lookup finds the row of the merchant with the key, and only that |
| `Creation.LookupFacts` | backend/app/services/payment_intents.py:82-103 | a lookup tells what the rows say, and after a collision on the key it always finds the row |
| `Creation.InsertFacts` | backend/app/services/payment_intents.py:149-178 | seen from all calls in flight, an insert keeps keys and references unique, keeps what other calls have learned true, and creates the row of this call or none |
| `Creation.KeysAreScoped` | backend/app/models/payment_intent.py:27-33 | what one merchant does under a key leaves the same key of any other merchant alone |
| `Creation.AnswersAgree` | backend/app/services/payment_intents.py:118-132 | any two answers to one key of one merchant are the same intent, for the same order, and at most one of them reports it created |
| `Creation.AnswersMatchTheOrder` | backend/app/services/payment_intents.py:134-147 | whoever made it, the intent a call is given is worth exactly the amount it asked for, in its currency, with its description and destination |
| `Results.CreationIsIdempotent` | backend/app/services/payment_intents.py:106-178 | on every run and every interleaving of calls: one intent per merchant and key, made by exactly one call; equal orders get it, a conflict is answered only to a different order |
| `Results.CreationReturnsTheOrder` | backend/app/services/payment_intents.py:134-178 | on every run and every interleaving the intent a call returns is the one its payload describes |
| `Results.CollisionFindsTheRow` | backend/app/services/payment_intents.py:154-173 | on every run the lookup after a key collision does not raise |
| `Fingerprint.FingerprintIsCanonical` | backend/app/domain/idempotency.py:12-39 | two accepted payloads have the same canonical text iff they agree on amount, upper-cased currency, description, destination and lifetime |
| `Fingerprint.AcceptedIff` | backend/app/schemas/payment_intent.py:9-32 | a payload is accepted iff it orders a positive whole number of cents and its texts and lifetime have their sizes |
| `Fingerprint.CanonicalTemplate` | backend/app/domain/idempotency.py:20-36 | the canonical text, literally, of an order whose texts need no escapes: sorted keys, no padding, null for what is missing |
| `Fingerprint.AmountTextSpells` | backend/app/domain/idempotency.py:12-17 | the amount text without its point spells the cents, and the point stands before the last two digits |
| `Common.UpperPointwise` | backend/app/domain/idempotency.py:25 | upper-casing turns each of the 26 small letters into its capital and keeps every other character |
| `Json.UnquoteQuoted` | backend/app/domain/idempotency.py:27-36 | a JSON string written with ASCII escapes (section 7 of RFC 8259) reads back as the text, whatever follows it |
| `Json.QuoteIsPrefixFree` | backend/app/domain/idempotency.py:27-36 | two quoted texts followed by anything are equal only piece by piece |
| `Json.EscapedIsAscii` | backend/app/domain/idempotency.py:27-36 | the escaped text is printable ASCII |
| `Json.EscapeForms` | backend/app/domain/idempotency.py:27-36 | plain characters stay, seven have a short escape, all others the form with lower-case hex digits |
| `Json.PlainQuote` | backend/app/domain/idempotency.py:27-36 | a text of plain characters is quoted as it stands |
| `WebhookDelivery.DeliveryRow.Deliver` | backend/app/services/webhook_delivery.py:115-199 | the fields of the row after one attempt, for a missing or disabled endpoint, each kind of answer and each handled error |
| `WebhookDelivery.DeliveryRow.MarkDiscarded` | backend/app/services/webhook_delivery.py:103-112 | the row is closed and its attempts stay as they were |
| `WebhookDelivery.RetryWebhookDelivery` | backend/app/services/webhook_deliveries.py:14-38 | the committed rows after a manual retry, and the conflict on a delivered row |
| `Steps.RetryEvent` | backend/app/api/routes/webhook_deliveries.py:105-131 | a retry reaches only a delivery of the merchant who asks, and reopens it iff it is not delivered |
| `WebhookDelivery.ProcessDueWebhookDeliveries` | backend/app/services/webhook_delivery.py:202-244 | the loop over the due batch commits all its rows with counters that match, or leaves every row as it was while what was sent stays sent |
| `WebhookDelivery.DueBatchIsFirst` | backend/app/repositories/webhook_deliveries.py:18-44 | the batch holds waiting or failed deliveries whose time has come, strictly by next attempt, creation and id, and leaves one out only when it is full and only behind all it takes |
| `DeliveryFacts.DelaysDouble` | backend/app/services/webhook_delivery.py:37-47 | the wait is 60 seconds after the first attempt and doubles up to an hour |
| `DeliveryFacts.DelaysGrowToAnHour` | backend/app/services/webhook_delivery.py:37-47 | single waits are monotone and lie between 60 and 3600 seconds |
| `DeliveryFacts.SpacedAttemptsSpan` | backend/app/services/webhook_delivery.py:37-47 | attempts that keep their waits: attempt k is at least 60*(2^(k-1)-1) seconds after the first up to k = 7, and 3780+3600*(k-7) seconds beyond |
| `DeliveryFacts.AttemptKeepsSchedule` | backend/app/services/webhook_delivery.py:150-199 | an attempt on a due row keeps the schedule: count, spacing, and a next time iff the row stays open |
| `DeliveryFacts.RetryFacts` | backend/app/services/webhook_deliveries.py:20-38 | a manual retry keeps every schedule and receipt and touches one row |
| `DeliveryLog.RetryReopens` | backend/app/services/webhook_deliveries.py:20-38 | the retried row is due at once with all its attempts ahead; a delivered row is refused |
| `DeliveryLog.CommittedCycleByRow` | backend/app/services/webhook_delivery.py:115-244 | on every run, row by row of a committed batch in queue order: with an endpoint that is in the table and enabled, one entry of the send log with its payload and address, and the row is delivered iff accepted, discarded iff refused on the last attempt, else failed until the backoff has passed; without one it is discarded unsent |
| `DeliveryLog.EveryPostIsAllowed` | backend/app/services/webhook_delivery.py:132-138 | on every run, whatever a cycle sends, committed or not, goes to the address of an endpoint enabled at that moment, for a due delivery linked to it, with its payload |
| `DeliveryLog.BatchCounts` | backend/app/services/webhook_delivery.py:217-244 | after any number of turns each counter of the batch is the number of its rows now in that state |
| `Results.AttemptsAreBounded` | backend/app/services/webhook_delivery.py:150-199 | on every run: at most max_attempts attempts; a row is open iff it has a next time, and then it has attempts left |
| `Results.AttemptsAreSpaced` | backend/app/services/webhook_delivery.py:37-47 | on every run the committed attempts since creation or the last manual retry keep the whole backoff |
| `Quiet.RunsGoQuiet` | backend/app/services/webhook_delivery.py:166-199 | every handled delivery uses up one attempt of the budget, so without new events and manual retries only finitely many more are handled |
| `Fairness.DueDeliveryIsServed` | backend/app/repositories/webhook_deliveries.py:24-42 | on every run a due delivery with r open ones ahead is handled, or is itself manually retried, within r/limit + 1 committed cycles, whatever else happens |
| `Fairness.CommitsIffNotPoisoned` | backend/app/services/webhook_delivery.py:154-161 | a cycle commits iff no POST of its batch ends in an exception other than the three that are handled, and the database takes the commit |
| `Cases.ExceptionIsNotAFailedAttempt` | backend/app/services/webhook_delivery.py:154-176 | a concrete run from the empty database: the one POST of a cycle raises another exception; it was sent, yet no attempt is counted, no retry put off and no row changed |
| `Fairness.PoisonedHeadStallsTheQueue` | backend/app/commands/webhook_worker.py:109-127 | on every run, whatever the other processes do: while the first POST of each cycle raises such an exception, and the delivery at the head and its endpoint are left alone, no cycle commits and that delivery stays at the head |
| `Workers.HookWorker.RunOnce` | backend/app/commands/webhook_worker.py:95-138 | a cycle leaves the rows, the outside world and all six counters of its specification: commit and count, or roll back and count a failed cycle |
| `Workers.HookWorker.MarkCycleSucceeded` | backend/app/repositories/webhook_delivery_worker_states.py:62-82 | the success mark adds each figure of the batch to its own total |
| `Workers.HookWorker.MarkCycleFailed` | backend/app/repositories/webhook_delivery_worker_states.py:85-99 | the failure mark counts a failed cycle and nothing else |
| `World.HookCycleFacts` | backend/app/commands/webhook_worker.py:95-138 | a cycle keeps every invariant; an aborted one changes no row, a committed one exactly the rows of its batch |
| `ExpiryFairness.CycleExpiresTheEarliest` | backend/app/repositories/payment_intents.py:90-103 | on every run a committed cycle expires min(limit, due) of the pending intents whose time has come, ahead of all others by (expires_at, id), changes only their status, and touches no other row |
| `ExpiryFairness.CycleCommitsIff` | backend/app/commands/payment_intent_expirer.py:78-114 | a cycle commits iff the ids of all deliveries of its batch are fresh and the database takes the commit; it counts its intents and one success, or one failed cycle, or nothing when killed |
| `ExpiryFairness.DueIntentLeavesPending` | backend/app/services/payment_intents.py:283-321 | on every run a due intent leaves pending within r/limit + 1 committed cycles, where r counts the pending intents ahead and the creation calls in flight that can still come ahead |
| `ExpiryFairness.PlainBoundWithNothingInFlight` | backend/app/services/payment_intents.py:283-321 | with no such call in flight the bound counts only the pending intents ahead |
| `Cases.CallInFlightComesFirst` | backend/app/services/payment_intents.py:134-153 | a concrete run from the empty database: limit one, a due intent with none ahead, and after a committed cycle it is still pending, because a slow call inserted an earlier one |
| `ExpiryFairness.CallQueue` | backend/app/schemas/payment_intent.py:28-32 | a creation call begun after an intent fell due cannot come ahead of it, as it asks for at least 60 seconds |
| `Workers.ExpiryWorker.RunOnce` | backend/app/commands/payment_intent_expirer.py:78-114 | a cycle leaves the rows and the counters of its specification |
| `World.ExpiryCycleFacts` | backend/app/commands/payment_intent_expirer.py:78-114 | a cycle keeps every invariant, expires the batch or nothing, and counts what it expired |
| `Results.CountersAddUp` | backend/app/repositories/webhook_delivery_worker_states.py:62-82 | on every run processed = delivered + failed + discarded, and no total exceeds the rows it counts |
| `Results.CountersAreExact` | backend/app/repositories/payment_intent_expirer_states.py:61-75 | on every run in which each committed batch was marked, the totals equal the numbers of delivered and of expired rows |
| `DeliveryLog.MarkedCycleCounts` | backend/app/commands/webhook_worker.py:129-136 | on every run a marked cycle adds to each total the number of rows it left in that state, and one success |
| `SyncResults.FinishedCycleBooks` | backend/app/repositories/worker_states.py:73-118 | a finished cycle adds what it fetched, the number of intents it confirmed, and one success iff nothing failed, else one failure |
| `SyncResults.EveryEndingCounts` | backend/app/workers/xrpl_sync.py:72-143 | what each way of ending adds to the successes, the failures and the transactions fetched, and when the cursor may move |
| `SyncResults.FetchedCoversBooked` | backend/app/repositories/worker_states.py:73-118 | on every run fetched >= processed + skipped + failed, with equality iff no cycle raised after a fetch that returned something |
| `Receiver.WooOrder.HandleWebhook` | plugin-woocommerce/euroledger-xrpl-gateway/includes/class-euroledger-xrpl-webhook-receiver.php:93-125 | the order after a webhook of each type |
| `Receiver.WooOrder.ConfirmedWebhook` | plugin-woocommerce/euroledger-xrpl-gateway/includes/class-euroledger-xrpl-webhook-receiver.php:136-197 | the order after a confirmation: status and transaction hash of the intent stored, moved to processing only from on-hold |
| `Receiver.WooOrder.TerminalWebhook` | plugin-woocommerce/euroledger-xrpl-gateway/includes/class-euroledger-xrpl-webhook-receiver.php:245-310 | the order after an expiry or a cancellation: status of the intent stored, moved to cancelled only from on-hold, a note only for a new status |
| `Receiver.RepeatsAreAbsorbed` | plugin-woocommerce/euroledger-xrpl-gateway/includes/class-euroledger-xrpl-webhook-receiver.php:162-179 | any number of repetitions of a webhook leaves the order as the first left it, notes included |
| `Receiver.HandleMovesOnlyOnHold` | plugin-woocommerce/euroledger-xrpl-gateway/includes/class-euroledger-xrpl-webhook-receiver.php:277-297 | an order on hold gets the outcome of the intent; any other keeps its status |
| `Receiver.HandleNotes` | plugin-woocommerce/euroledger-xrpl-gateway/includes/class-euroledger-xrpl-webhook-receiver.php:277-297 | a note is left for a move, and for a final status that was not stored yet; the stored hash changes only to the hash of a confirmation |
| `Steps.PostReaches` | backend/app/services/webhook_delivery.py:70-100 | a shop without the order answers 404; a POST changes no order but the one it is about, and that only by the handler of a shop that accepts it |
| `Steps.CheckoutLinks` | plugin-woocommerce/euroledger-xrpl-gateway/includes/class-euroledger-xrpl-gateway.php:655-664 | a checkout links an order on hold, once for an intent and a shop |
| `Steps.RedeliveryHandles` | plugin-woocommerce/euroledger-xrpl-gateway/includes/class-euroledger-xrpl-webhook-receiver.php:49-125 | a shop that handles a sent webhook again changes the order it is about and nothing else |
| `WebhookDelivery.Wire.PostWebhook` | backend/app/services/webhook_delivery.py:70-100 | a POST is logged with what was sent and answered; a shop answers 2xx only after running its handler |
| `DeliveryFacts.TransmitFacts` | plugin-woocommerce/euroledger-xrpl-gateway/includes/class-euroledger-xrpl-webhook-receiver.php:162-179 | a POST of a truthful payload keeps orders and intents in agreement |
| `Results.OrdersAgree` | plugin-woocommerce/euroledger-xrpl-gateway/includes/class-euroledger-xrpl-webhook-receiver.php:136-310 | on every run, with repeated, late, reordered and rolled-back deliveries: processing only for a confirmed intent, cancelled only for an expired or cancelled one, with its status and hash stored and exactly one note, and an order off hold never moves again |
| `Results.DeliveredMeansSettled` | backend/app/services/webhook_delivery.py:178-184 | on every run a delivered row was accepted with its own payload, and where a shop accepted it the order has the outcome of the intent |
| `XrplPayments.ProcessCandidateTransaction` | backend/app/workers/xrpl_payments.py:21-31 | the committed rows and the verdict on one transaction: processed, skipped or failed |
| `XrplPayments.ValidateAndConfirmDetectedPayment` | backend/app/services/payment_intents.py:324-347 | the committed rows and the reply for a detected payment |
| `XrplPayments.ByReference` | backend/app/repositories/payment_intents.py:38-40 | the row with a reference, in any merchant |
| `XrplPayments.ReferenceIsFirstData` | backend/app/xrpl/transactions.py:29-39 | the reference is the text of the first memo that carries data, and there is none when that memo cannot be decoded |
| `XrplPayments.ParsedFacts` | backend/app/schemas/payment_intent.py:57-71 | what parses has passed the schema: at most two decimals, a hash |
| `XrplPayments.ProcessedIffPaid` | backend/app/domain/payment_validation.py:12-40 | read from the fields of the transaction: it confirms an intent iff that is pending, the first memo with data names it, drops worth exactly its XRP or a token of its currency and exactly its amount go to its destination, a hash is there, and the ids of the deliveries are fresh |
| `XrplPayments.ProcessedWrites` | backend/app/services/payment_intents.py:207-232 | a processed transaction changes the status and the hash of the intent, to its own hash, and no other row |
| `XrplPayments.SkippedIff` | backend/app/workers/xrpl_payments.py:21-31 | a transaction is skipped iff it is no payment or lacks a readable memo, a complete amount, a destination or a hash; only a processed one changes anything |
| `XrplPayments.DetectIff` | backend/app/services/payment_intents.py:324-347 | a detected payment confirms an intent iff it is pending and reference, amount, currency and destination agree and the ids are fresh; it is not found iff no row has its reference |
| `Steps.DetectEvent` | backend/app/api/routes/payment_intents.py:286-312 | a detected payment reaches the tables iff it passes the schema and matches the pending intent with its reference |
| `XrplPayments.AmountIsWorth` | backend/app/xrpl/transactions.py:42-60 | an amount read from drops or from a token passes the schema with c cents of a currency iff the field is worth that |
| `XrplPayments.DropsPayExactly` | backend/app/xrpl/transactions.py:93-94 | a payment of whole drops confirms an intent of c cents only when it is 10000*c drops |
| `Money.GateIsExact` | backend/app/domain/payment_validation.py:8-9 | behind the two-decimal gate quantisation is exact |
| `Money.GatedCentsDecide` | backend/app/domain/payment_validation.py:23-24 | gated amounts quantise alike iff they are the same number |
| `Money.DropsMatchCents` | backend/app/xrpl/transactions.py:93-94 | whole drops pass the gate as c cents iff they are 10000*c |
| `Money.UngatedDropsRound` | backend/app/schemas/payment_intent.py:57-61 | without the gate 14999 drops would pay one cent |
| `Money.CentsAreNearest` | backend/app/domain/payment_validation.py:8-9 | quantisation gives the nearest cents, and the even ones of two equally near |
| `XrplSync.Payloads` | backend/app/xrpl/account_transactions.py:46-48 | the transactions of a page, or an exception iff one entry has no payload or an unreadable ledger index |
| `XrplSync.PayloadByFields` | backend/app/xrpl/account_transactions.py:61-87 | when an entry is refused, and from which of its fields the transaction, its hash and its ledger index come |
| `XrplSync.FetchAccountTransactions` | backend/app/xrpl/account_transactions.py:24-58 | the marker loop returns the pages joined, or fails as a whole, and sends a request with the same bounds and the marker of the page before it each time |
| `XrplSync.RequestsFollowMarkers` | backend/app/xrpl/account_transactions.py:24-56 | one request more than there are pages to go on from, all with one bound, direction and limit, each with the marker of the page before it |
| `XrplSync.ExtractMaxLedgerIndex` | backend/app/workers/xrpl_sync.py:31-43 | the largest ledger index of the batch, none iff no transaction carries one |
| `XrplSync.ScanXrplTransactions` | backend/app/workers/xrpl_scanner.py:23-59 | the loop books every transaction, in order, while other processes commit in between |
| `XrplSync.EverythingIsBooked` | backend/app/workers/xrpl_scanner.py:33-51 | processed, skipped and failed add up; failed is zero iff no verdict was a failure; the confirmed intents are those of the processed verdicts |
| `XrplSync.SyncWorker.Synchronize` | backend/app/workers/xrpl_sync.py:55-143 | a cycle leaves cursor, six totals and rows of its specification for every way it can end, and asks from just above the cursor |
| `XrplSync.SyncWorker.MarkCycleSucceeded` | backend/app/repositories/worker_states.py:73-93 | the success mark adds the figures of the scan |
| `XrplSync.SyncWorker.MarkCycleFailed` | backend/app/repositories/worker_states.py:96-118 | the failure mark adds the figures of the scan |
| `SyncFacts.FetchIsExact` | backend/app/xrpl/account_transactions.py:24-58 | from a server that honours the very requests it is sent a fetch returns exactly the visible entries above the cursor, each once, upwards after a cursor and newest first without one |
| `SyncFacts.CursorStep` | backend/app/workers/xrpl_sync.py:93-100 | a cycle leaves the cursor, or its batch was clean and the cursor rises to the ledger of the last entry seen |
| `SyncFacts.AdvanceIsExact` | backend/app/workers/xrpl_sync.py:91-98 | a cycle has fetched and cleared everything its cursor passes iff what it saw ends with a whole ledger |
| `SyncFacts.WholeLedgersClose` | backend/app/workers/xrpl_sync.py:91-98 | a server that shows whole ledgers only meets that condition in every cycle |
| `SyncFacts.NothingIsMissed` | backend/app/workers/xrpl_sync.py:72-110 | on every run whose advancing cycles end with whole ledgers: whatever lies at or below the cursor was fetched, and confirmed or skipped, in one cycle without a failure |
| `SyncResults.CursorNeverMovesBack` | backend/app/workers/xrpl_sync.py:72-100 | on every run the cursor never decreases |
| `SyncResults.FinishedCycleAdvances` | backend/app/workers/xrpl_sync.py:93-100 | a finished cycle moves the cursor iff it fetched something and nothing failed |
| `SyncResults.HopelessFails` | backend/app/domain/payment_validation.py:16-40 | a payment whose parse raises, or whose intent is settled or wants another amount, currency or destination, is booked as failed and changes nothing |
| `SyncResults.HopelessPersists` | backend/app/domain/payment_validation.py:16-40 | nothing that any process does makes such a payment acceptable |
| `SyncResults.FailuresHaveThreeCauses` | backend/app/workers/xrpl_payments.py:21-31 | a payment fails iff it is of that kind, or no intent has its reference yet, or a delivery of its confirmation draws an id that is missing or taken |
| `SyncResults.ProcessedConfirms` | backend/app/workers/xrpl_scanner.py:34-51 | a processed payment confirms the pending intent it pays, with its hash |
| `SyncRuns.EachPaymentConfirmsOnce` | backend/app/workers/xrpl_scanner.py:33-51 | on every run, over all scans, re-scans included, no intent and no transaction is booked as processed twice |
| `SyncRuns.ConfirmedHashesDiffer` | backend/app/services/payment_intents.py:343-347 | on every run, when a hash names one transaction, the intents the scanner confirmed have different hashes |
| `SyncRuns.PassedPaymentsAreConfirmed` | backend/app/workers/xrpl_sync.py:72-110 | end to end, on every run: for every parsing payment at or below the cursor the database has an intent it pays, confirmed with its hash |
| `SyncRuns.ConfirmedAheadOfCursorStalls` | backend/app/workers/xrpl_sync.py:93-120 | on every run: once a cycle has confirmed a payment without moving the cursor, by a mixed batch or a crash, each later cycle that lives to report counts a failure and none a success, and the cursor stays for ever |
| `SyncRuns.HopelessPaymentStalls` | backend/app/workers/xrpl_sync.py:93-120 | the same for any visible payment above the cursor that cannot be accepted any more, confirmed or not |
| `SyncResults.BehindTheCursorIsNotFetched` | backend/app/workers/xrpl_sync.py:74-76 | what lies at or below the cursor is outside everything that any later cycle fetches |
| `SyncResults.OpenLedgerIsLost` | backend/app/workers/xrpl_sync.py:91-98 | when a cycle moves the cursor and ends inside a ledger, every further entry of that ledger is at the cursor, and neither that cycle nor any later one fetches it |
| `SyncResults.HalfLedgerIsMissed` | backend/app/workers/xrpl_sync.py:91-98 | a concrete run: of two entries of one ledger a clean cycle sees the first, and the cursor passes the second unseen |
| `SyncRuns.RunsInterleave` | backend/app/workers/xrpl_scanner.py:33-39 | when the scans are events of a run, in order, the rows each one sees evolve from those every earlier one wrote, references are unique, and the final rows come after all of them |
| `Ranking.Sorted` | backend/app/repositories/payment_intents.py:83-85 | ORDER BY: every key once, in strict order |
| `Ranking.First` | backend/app/repositories/payment_intents.py:83-86 | ORDER BY and LIMIT: the least keys, in order |
| `Ranking.SortedAfter` | backend/app/repositories/payment_intents.py:73-82 | the keyset predicate continues a listing exactly behind the row it names |
| `ListingFacts.PageIsFirst` | backend/app/repositories/payment_intents.py:83-87 | a page is the first `limit` rows of the filtered and sorted table, and has_more tells exactly whether there are others |
| `ListingFacts.PagesShowWhatIsAsked` | backend/app/repositories/payment_intents.py:60-87 | every row of a page is a row of the table, of the merchant, with the asked status and upper-cased reference and within both dates, newest first; without a limit every such row is there |
| `ListingFacts.TraversalsShowWhatIsAsked` | backend/app/services/payment_intent_listing.py:68-96 | the same of every row of a traversal, in the table its page was read from |
| `ListingFacts.ExportsShowWhatIsAsked` | backend/app/services/payment_intent_csv_export.py:161-206 | the same of every row of an export |
| `ListingFacts.ExportIsWhatIsAsked` | backend/app/services/payment_intent_csv_export.py:161-206 | an export with room for the table holds exactly the rows that meet the five conditions |
| `ListingFacts.RangeIsChecked` | backend/app/services/payment_intent_listing.py:41-60 | a listing is refused iff its dates are the wrong way round |
| `ListingFacts.CursorContinues` | backend/app/services/payment_intent_listing.py:81-91 | a query from the cursor of a listed row returns what follows that row |
| `ListingFacts.PagesAreTheList` | backend/app/services/payment_intent_listing.py:68-96 | on a table at rest n pages are the first n*limit rows of the filtered and sorted table, each once, and the last cursor comes exactly at its end |
| `ListingFacts.TraversalUnderChange` | backend/app/services/payment_intent_listing.py:68-96 | while rows are inserted, settled or removed between the pages: strictly onwards, no repetition, and a complete traversal holds every row that matched throughout |
| `ListingFacts.NoIntentIsLost` | backend/app/services/payment_intent_listing.py:68-96 | with no status filter a complete traversal lists every intent that matched at its start, whatever the processes did meanwhile |
| `ListingTexts.PositionRoundTrip` | backend/app/services/payment_intent_listing.py:81-91 | the position of a page has a text whenever its instant is in the calendar, and the text gives it back |
| `ListingTexts.TextPagesAreTheList` | backend/app/services/payment_intent_listing.py:41-96 | pages linked by the texts of their cursors, on a table at rest: the first n*limit rows of the filtered and sorted table, each once, the last page exactly at its end |
| `ListingTexts.TextTraversalUnderChange` | backend/app/services/payment_intent_listing.py:41-96 | the same pages while the table changes: strictly onwards, and a complete traversal holds every row that matched throughout |
| `Listing.StreamPaymentIntentsCsv` | backend/app/services/payment_intent_csv_export.py:140-206 | the batching loops yield the byte-order mark, the header and the stream of rows, or refuse the filter before anything is sent; they terminate |
| `ListingFacts.StreamIsTheList` | backend/app/services/payment_intent_csv_export.py:161-206 | the stream is the first max_rows rows of the filtered and sorted table, for every table and every batch size |
| `Base64.RoundTrip` | backend/app/domain/payment_intent_pagination.py:40-55 | URL-safe base64 with padding (section 5 of RFC 4648) decodes to the bytes it was made from |
| `Base64.EncodedIsUrlSafe` | backend/app/domain/payment_intent_pagination.py:40-42 | the text uses only the URL-safe alphabet and padding, in groups of four |
| `Base64.EncodeSpells` | backend/app/domain/payment_intent_pagination.py:40-42 | three bytes are a number of 24 bits and four symbols its digits to the base 64; a shorter last group counts as followed by zeros and is padded |
| `Base64.DecodesIff` | backend/app/domain/payment_intent_pagination.py:50-55 | exactly the well-padded texts over the alphabet, with + and / beside - and _, decode |
| `Json.ShortEscapesRead` | backend/app/domain/payment_intent_pagination.py:56-58 | the short escapes that are read are those that are written, and the escaped slash |
| `Json.RawCharacters` | backend/app/domain/payment_intent_pagination.py:56-58 | an unescaped character stands for itself, and a control character must be escaped |
| `Cursors.UtcKeepsInstant` | backend/app/domain/payment_intent_pagination.py:18-22 | conversion to UTC keeps the instant, over day, month, leap-day and year boundaries |
| `Cursors.IsoRoundTrip` | backend/app/domain/payment_intent_pagination.py:28-31 | a UTC time written in ISO format reads back field by field |
| `Cursors.IsoReads` | backend/app/domain/payment_intent_pagination.py:65-72 | an ISO text with any offset, east or west, is read field by field, and refused iff the fields are no date, time and offset |
| `Cursors.MonthLengths` | backend/app/domain/payment_intent_pagination.py:18-22 | the lengths of the months and the leap years |
| `Cursors.DocumentTemplate` | backend/app/domain/payment_intent_pagination.py:28-39 | the canonical document, literally |
| `Cursors.DocumentDecides` | backend/app/domain/payment_intent_pagination.py:50-86 | decoding a canonical document: rejected iff the id is empty or the fields are no time, else the id and the instant in UTC, or the overflow |
| `Cursors.ForeignTextsAreRejected` | backend/app/domain/payment_intent_pagination.py:50-86 | a text that is not padded base64 is rejected |
| `Cursors.EncodesWithinTheCalendar` | backend/app/domain/payment_intent_pagination.py:25-43 | encoding fails iff the instant lies outside the years 1 to 9999 |
| `Cursors.CursorRoundTrip` | backend/app/domain/payment_intent_pagination.py:25-75 | decoding an encoded cursor with an id gives the same id and the same instant, in UTC |
| `Cursors.OverflowsOutsideTheCalendar` | backend/app/domain/payment_intent_pagination.py:65-86 | decoding a canonical document with an id raises an exception other than the error of the API iff its time falls outside the years 1 to 9999 in UTC |
| `Cursors.FirstHourOverflows` | backend/app/domain/payment_intent_pagination.py:65-86 | a concrete text of that kind: midnight of the first of January of the year 1, an hour east of UTC |
| `Cursors.TextsIdentifyCursors` | backend/app/domain/payment_intent_pagination.py:25-43 | two cursors have one text iff they have one instant and one id |

## Left out

- SHA-256, HMAC signatures and endpoint secrets: a fingerprint is represented by its canonical text, taking the digest as injective; signatures are not checked.
- HTTP, JSON-RPC, routes, authentication, merchants: a POST ends in an answer, a handled error or another exception; a request reaches a service with its merchant.
- Row locks and interleaving inside a service call: confirm, cancel, retry and the two worker batches are atomic steps; only creation is split, as only it has a protocol for the race. What two unlocked confirmations at the same instant would do is not claimed.
- Deletion of merchants and of intents, and the cascades of foreign keys other than the endpoint of a delivery being set to null.
- Cycle start marks, last error texts, response status and body, updated_at: they carry no protocol state.
- `XrplPayments.ParsedFacts`: memo data is given decoded or undecodable; hexadecimal and UTF-8 decoding, and the shapes that make the parser raise a type error, are not modelled.
- Decimal arithmetic has no context: the precision limits and the exponent texts of Python's decimal are outside the amounts a ledger holds.
- Upper-casing and lookups treat only ASCII letters as having case.
- Identifiers are integers and are compared as such; the collation of uuid texts is any total order.
- `XrplSync.ScanXrplTransactions`: after an integrity error the scanner goes on with a session it has not rolled back (backend/app/workers/xrpl_scanner.py:45-48), so the rest of the batch fails and the cycle ends in its outer handler; the model rolls back and goes on.
- `Receiver.WooOrder.ConfirmedWebhook`: the metadata kept are the status and the hash of the intent; delivery id, timestamp, event name, reference and confirmation time are not modelled.
- `Receiver.WooOrder.TerminalWebhook`: the metadata kept is the status of the intent; delivery id, timestamp, event name, reference and the time and reason of the end are not modelled.
- `ListingTexts.TextPagesAreTheList`: how a column shows an instant and an id is a parameter, which loses nothing (`ListingTexts.ColumnsExist`).
- `Cursors.CursorRoundTrip`: the decoder is modelled on canonical documents (two fields in order, the extended ISO format with an offset); other JSON or ISO texts that Python accepts are the outcome OtherDocument.
- `Json.UnquoteQuoted`: texts are sequences of Unicode scalar values; lone surrogates are not representable.
- `Listing.StreamPaymentIntentsCsv`: the rendering of a row, its quoting and its date format are not modelled; a line stands for its row.
- The empty account name of the fetch is one more way for it to fail (`XrplSync.Refused`); calling the server forever is excluded, since a server that stops answering fails the fetch.
- Prometheus collectors, health classification, dashboards, the order screens of the plugin, webhook types it ignores, and its own signature and payload errors.
- The polling loops, signal handlers and argument parsing of the commands.
