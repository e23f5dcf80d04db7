# GoVibe transactional core, modelled and proved in Dafny

This project models the parts of GoVibe whose correctness spans several
transactions: checkout inventory and ticket issuance, table holds, payment
intents with their webhooks, tickets and admission scans, refresh-token rotation,
the outbox, ticket references, and redaction.

Each part comes in four layers.

- A **specification**: rows as datatypes, every transaction a function from tables
  to tables and a result (`Store`, `Holds`, `Payments`, `Admissions`, `Sessions`,
  `Outbox`, `Base32`, `Redaction`), and a step machine (`Next`, `Run`) whose steps are
  the transactions. Where the code reads outside its transaction, the read, the
  decision and the write are separate steps that anything may interleave with.
- The **code's own form**: classes whose methods overwrite rows in the order the
  services do, loops included, each proved to compute its specification
  (`Database`, `TableService`, `PaymentService`, `AdmissionService`, `SessionService`,
  `OutboxService`, and the methods in `Base32` and `Redaction`).
- The **outcomes**: for each request, over plain rows and constants, exactly when it is
  accepted, why it is refused otherwise, and every field it writes, so that a
  specification that takes a wrong branch or swaps two values contradicts one of them
  (`TicketOwners`, `CheckoutOutcomes`, `HoldOutcomes`, `PaymentOutcomes`, `ScanOutcomes`,
  `SessionOutcomes`, `OutboxSchedule`).
- The **results**: what holds of every run of the machine (`Inventory`, `Issuance`,
  `TicketOwners`, `ReleaseRace`, `Checkout`, `Ledger`, `HoldProofs`, `HoldAudits`,
  `HoldReaders`, `PaymentProofs`, `PaymentTerminal`, `EndToEnd`, `Sessions`, `Outbox`,
  `OutboxProofs`, `RedactionProofs`).

`Totals` (sums over rows), `Powers` and `Wrappers` are shared. Check everything with
`dafny verify dfyconfig.toml`.

## How the system is read

- A Serializable transaction, or one that locks every row it goes on to write before
  it reads it, is one step; one that throws leaves the tables as they were. At the
  default isolation level three transactions read first and write by id later:
  releasing a reservation, retrying an initiation, and reading one's own table
  reservation. They are split, and anything may commit in between. So are scans,
  token rotations, webhook deliveries, outbox batches and the attempts of an issuance,
  which span several transactions.
- Rows are sequences and an id is the insertion index, so ids are fresh. Hashes are
  injective: a request, a payload or a token stands for its hash. A provider
  reference is cut from the idempotency-key hash alone, so two buyers can collide
  on it; the model keeps that and answers with the unique violation.
- The database clock is a variable that only moves forward. The clock of the
  application process is a parameter of each request and may disagree with it: expiry
  stamps and leases use the latter, live sums and claims the former. A transaction
  sees the database clock of its start: a release keeps it from its read, and a step
  that counts a bucket may run on a clock that lies behind, as when it waited for the
  bucket lock.
- `floor(capacity * 0.05)` is `capacity / 20`. The double nearest to 0.05 is slightly
  above it, and a capacity that is no multiple of 20 stays a twentieth or more below
  the next whole number, far beyond rounding for any database integer.
- A provider's answer, the facts of an event row at a scan, which rows others have
  locked, and what the database does to an attempt are inputs of the step.

## Where the code does not give what one might expect

In brackets, the concrete run that shows it and the exact condition under which the
property does hold.

- Issuance checks only that the reservation is HELD. A hold that lapsed and was
  sold again still issues, so one seat is sold twice (`LateIssueOversells`). Sold plus
  live holds stays within capacity exactly when each issuance is in time or has room
  (`NoOversellIff`).
- Release reads its row without a lock and later writes EXPIRED by id. An issuance in
  between is overwritten, and what is sold is no longer what is CONSUMED
  (`ReleaseOverwritesConsumed`, `TicketsConservedIff`, `ConsumedForeverIff`). Tickets,
  the sold count and the capacity bound survive (`NeverIssuedTwice`, `NoOversellIff`).
- Release counts before it expires the row, so the cache can stay too high
  (`ReleaseTooEarlyMiscounts`, `ReleaseExactIff`). So it can when a counted hold lapses
  while a sweep, a reconciliation or an issuance is under way (`CountedExactIff`). It
  never undercounts.
- `markInitiated`, `markFailed` and `markRetryPending` are unguarded. A late initiation
  answer, or a second retry, undoes a verification (`LateAnswerVerifiesTwice`,
  `SecondRetryUndoesVerification`). A terminal intent is fixed exactly when no
  initiation of it is in flight (`TerminalFixedIffQuiescent`).
- Reading one's own table reservation takes no lock. Two readers can log one expiry
  twice (`ReadersLogExpiryTwice`, `TrailAddsUpIff`), and a reader can free a table that
  was held meanwhile (`ReaderFreesHeldTable`, `ReadersKeepCoherentIff`). Mutual exclusion
  of holds survives all of it (`HoldsExcludeEachOther`).
- A scan looks at the event, its organizer and the scanner in its first half only; the
  second checks nothing but that the ticket is still ISSUED with the same token. An
  event withdrawn in between still lets the ticket in (`ScanAcceptsIff`).
- Replay of a refresh token is seen one generation back and no further
  (`OldestTokenIsOnlyRefused`, `ReplaySeenOneGenerationBack`).
- A worker that outlives its lease writes its stale retry count over the row and can
  revive a dead letter (`StaleWorkerRevivesDeadLetter`, `DeadForeverIff`, `CountKeptIff`).
- A value that is only a bearer mark and spaces is not replaced, because the string
  is trimmed first (`BareBearerIsNotWithheld`, `WithheldExactly`).

The table below lists the results and the methods with loops or several branches. The
remaining row methods of the classes are proved against the same specifications.

## Model

| member | source | states |
|---|---|---|
| `Inventory.CachedShortcutRefinesLiveSum` | src/modules/inventory/application/use-cases/reserve-inventory.use-case.ts:82-100 | with a cache that does not undercount, every request the code accepts fits the live sum, and up to max(floor(0.05 capacity), 50) tickets the two decisions agree |
| `Inventory.ShortcutDisagreesExactly` | src/modules/inventory/application/use-cases/reserve-inventory.use-case.ts:82-100 | the exact requests the shortcut refuses although the live sum would allow them, and that there are no others |
| `Inventory.CacheAlwaysCovers` | src/modules/inventory/infrastructure/repositories/prisma-reservation.repository.ts:58-73 | in every run the cached count is at least the live sum of every bucket, now and at every later time |
| `Inventory.ReleaseExactIff` | src/modules/inventory/application/use-cases/release-expired-reservation.use-case.ts:66-81 | release counts before it expires the row, on the clock its transaction began with; the cache is exact at commit if and only if every row it counted is still live and is not the row it expires |
| `ReleaseRace.ReleaseTooEarlyMiscounts` | src/modules/inventory/application/use-cases/release-expired-reservation.use-case.ts:37-54 | a caller ahead of the database leaves the cache one seat too high: a concrete run |
| `Inventory.ReconcileExact` | src/modules/inventory/application/use-cases/reconcile-inventory-drift.use-case.ts:50-63 | on the clock of its transaction the cache then equals the live sum; it reports no correction exactly when nothing changed |
| `Inventory.SweepExact` | src/modules/inventory/application/use-cases/sweep-expired-reservations.use-case.ts:53-122 | after a whole batch each touched bucket is exact, on the clock of the batch, however often it was hit; its live sum and sold count did not move, and every other bucket is as it was |
| `Inventory.IssueExact` | src/modules/tickets/application/use-cases/issue-tickets.use-case.ts:131-154 | issuing leaves its bucket exact on its clock, moves exactly the quantity to sold and touches no other bucket |
| `Inventory.CountedExactIff` | src/modules/inventory/infrastructure/repositories/prisma-reservation.repository.ts:58-73 | a reconciliation, a sweep or an issuance that waited for a lock leaves the cache of each bucket it counted exact at commit if and only if no row it counted has lapsed since it began |
| `Inventory.IssueWithinCapacityIff` | src/modules/tickets/application/use-cases/issue-tickets.use-case.ts:131-154 | from a state within capacity an issuance stays within capacity if and only if its hold is unexpired or the bucket has room for it besides |
| `Inventory.NoOversellIff` | src/modules/inventory/application/use-cases/reserve-inventory.use-case.ts:82-122 | for every run from an empty store, sold plus live holds never exceeds capacity at any point if and only if each issuance was covered in that sense |
| `Inventory.TimelyIssuesNeverOversell` | src/modules/tickets/application/use-cases/issue-tickets.use-case.ts:246-248 | so runs that issue before the hold expires never oversell |
| `Inventory.LateIssueOversells` | src/modules/tickets/application/use-cases/issue-tickets.use-case.ts:246-248 | issuance looks at HELD only: a concrete run that sells one seat twice |
| `Issuance.TicketsConservedIff` | src/modules/tickets/application/use-cases/issue-tickets.use-case.ts:93-156 | for every run from an empty store: at every point, per bucket, sold = quantity of CONSUMED reservations = tickets, and a reservation is issued once if consumed and never otherwise, if and only if no release commits on a row consumed since it read it |
| `Issuance.StepKeepsInvIff` | src/modules/inventory/application/use-cases/release-expired-reservation.use-case.ts:72-76 | the exact step that breaks conservation |
| `Issuance.NeverIssuedTwice` | src/modules/tickets/application/use-cases/issue-tickets.use-case.ts:246-248 | in every run, whatever releases interleave, sold is the number of tickets and each reservation is issued at most once, after which it is never HELD again |
| `Issuance.ConsumedForeverIff` | src/modules/inventory/application/use-cases/release-expired-reservation.use-case.ts:72-76 | a consumed row stays as it is through a whole run if and only if no release commits on it |
| `ReleaseRace.ReleaseOverwritesConsumed` | src/modules/inventory/application/use-cases/release-expired-reservation.use-case.ts:40-76 | an issuance between a release's read and its write: one ticket sold, no reservation CONSUMED |
| `Issuance.AttemptsStopAtFirst` | src/shared/tickets/ticket-reference-allocator.service.ts:30-57 | the retry loop answers with its first attempt that is not retried, or fails after the fifth |
| `Issuance.WholeBatchOrNothing` | src/modules/tickets/application/use-cases/issue-tickets.use-case.ts:64-71 | whatever others commit before and between the five attempts, the call issues one complete batch of one attempt, or adds nothing to what they did |
| `Issuance.GivesUpAfterFive` | src/shared/tickets/ticket-reference-allocator.service.ts:30-57 | it gives up exactly when all five attempts were retried |
| `CheckoutOutcomes.AttemptDecides` | src/shared/tickets/ticket-reference-allocator.service.ts:30-57 | the first attempt, of at most five, that neither a unique conflict nor a known database error ends decides the call; any other database error ends it at once |
| `TicketOwners.TicketsBelongToBuyers` | src/modules/tickets/application/use-cases/issue-tickets.use-case.ts:113-129 | in every run each ticket names an existing order, belongs to the user of that order, who made the reservation it came from, and has that reservation's bucket; serials and public references are unique; an order has no tickets or exactly as many as its reservation holds |
| `TicketOwners.TicketsNeverChange` | src/modules/tickets/application/use-cases/issue-tickets.use-case.ts:113-129 | no run removes a ticket or hands it to somebody else |
| `TicketOwners.IssuedTicketsAreTheBuyers` | src/modules/tickets/application/use-cases/issue-tickets.use-case.ts:113-129 | each ticket an issuance adds names the order issued, belongs to its user, and has its event, the reservation's ticket type and its own reference; older tickets stay |
| `TicketOwners.IssuesIff` | src/modules/tickets/application/use-cases/issue-tickets.use-case.ts:200-250 | an order issues if and only if it is PAID, its reservation is HELD and as large as the batch, its bucket exists and no reference is taken or drawn twice |
| `TicketOwners.IssueRefusal` | src/modules/tickets/application/use-cases/issue-tickets.use-case.ts:200-250 | the reason of every refusal, which writes nothing |
| `TicketOwners.IssueWritesOneOfEach` | src/modules/tickets/application/use-cases/issue-tickets.use-case.ts:131-174 | exactly one reservation becomes CONSUMED and one order FULFILLED, one audit is written, and capacities stay |
| `CheckoutOutcomes.CountedUntilExpiry` | src/modules/inventory/infrastructure/repositories/prisma-reservation.repository.ts:58-73 | a row counts against its bucket while HELD and strictly before its expiry, and is stale from that instant on |
| `CheckoutOutcomes.ReserveAcceptsIff` | src/modules/inventory/application/use-cases/reserve-inventory.use-case.ts:54-100 | with a cache that covers, a request is accepted if and only if it is positive and fits the live sum, and besides fits the cached count or meets a bucket with at most 50 tickets or a twentieth left |
| `CheckoutOutcomes.ReserveWrites` | src/modules/inventory/application/use-cases/reserve-inventory.use-case.ts:102-122 | the new HELD row with its expiry ttl seconds ahead, and the new count of its bucket; all other buckets stay |
| `CheckoutOutcomes.ReleaseBeginsIff` | src/modules/inventory/application/use-cases/release-expired-reservation.use-case.ts:37-54 | a release goes ahead if and only if its row is HELD and expired on the caller's clock |
| `CheckoutOutcomes.ReleaseWrites` | src/modules/inventory/application/use-cases/release-expired-reservation.use-case.ts:56-81 | its commit expires that one row, whatever it has become, stores the count taken before, and touches nothing else |
| `CheckoutOutcomes.SweepWrites` | src/modules/inventory/application/use-cases/sweep-expired-reservations.use-case.ts:56-122 | a sweep expires the rows it claimed and no others, logs each once, and fails as a whole if one has no bucket |
| `CheckoutOutcomes.ReconcileWrites` | src/modules/inventory/application/use-cases/reconcile-inventory-drift.use-case.ts:36-72 | only the count of the bucket asked for may change, and it is reported as corrected exactly if it does |
| `Checkout.OrdersMatchRecords` | src/modules/orders/application/use-cases/create-order.use-case.ts:82-182 | in every committed state each (actor, key) has one record, its response names an existing order of that actor, and each order comes from a record |
| `Checkout.RecordsSurvive` | src/modules/idempotency/infrastructure/repositories/prisma-idempotency.repository.ts:49-106 | no run drops or rewrites a record or an order's owner and reservation |
| `Checkout.ReplayAnswersRecord` | src/modules/orders/application/use-cases/create-order.use-case.ts:101-152 | a taken key never changes anything; it is answered exactly when payload and live reservation match, with the recorded order; another payload is a conflict |
| `Checkout.ReplayAfterAnyRun` | src/modules/orders/application/use-cases/create-order.use-case.ts:144-152 | an accepted request repeated after any run gets its first order, if and only if its reservation is still live, and creates nothing |
| `CheckoutOutcomes.FirstOrderIff` | src/modules/orders/application/use-cases/create-order.use-case.ts:118-142 | a first request is accepted if and only if the reservation is the actor's own, HELD and unexpired, and checkout is allowed |
| `CheckoutOutcomes.FirstOrderWrites` | src/modules/orders/application/use-cases/create-order.use-case.ts:154-182 | the order copies the request, belongs to the actor and names the reservation's event; the response is recorded under the key; nothing else changes |
| `CheckoutOutcomes.OrderRefusal` | src/modules/orders/application/use-cases/create-order.use-case.ts:101-142 | the reason of every refusal, which writes nothing |
| `Ledger.OneCreditPerSuccess` | src/modules/payments/application/use-cases/verify-payment.use-case.ts:89-148 | in every run a payment has exactly one CREDIT, of its amount and its order's currency, if it is SUCCESS, and none otherwise |
| `Ledger.CreditsEqualSuccesses` | src/modules/payments/application/use-cases/verify-payment.use-case.ts:134-148 | per currency the credits add up to the successful payments |
| `CheckoutOutcomes.PaymentVerifiedIff` | src/modules/payments/application/use-cases/verify-payment.use-case.ts:77-124 | a payment is booked if and only if currency, amount and announced success agree and it is neither SUCCESS, REVERSED nor REFUNDED |
| `CheckoutOutcomes.PaymentRefusal` | src/modules/payments/application/use-cases/verify-payment.use-case.ts:77-124 | the reason of every refusal, which writes nothing |
| `CheckoutOutcomes.PaymentVerifiedWrites` | src/modules/payments/application/use-cases/verify-payment.use-case.ts:126-238 | payment and order status for each of the five provider statuses, and a credit entry exactly for success |
| `CheckoutOutcomes.EveryPaymentIsOne` | src/modules/payments/application/use-cases/verify-payment.use-case.ts:91-99 | in every run a provider reference stands for one payment at most |
| `Database.CheckoutTables.ReserveInventory` | src/modules/inventory/application/use-cases/reserve-inventory.use-case.ts:53-164 | the row-by-row transaction computes the specification, result and every table |
| `Database.CheckoutTables.ReleaseExpiredReservation` | src/modules/inventory/application/use-cases/release-expired-reservation.use-case.ts:34-89 | the unlocked read, then whatever others commit, then the writes under the bucket lock |
| `Database.CheckoutTables.ClaimExpiredHeldReservations` | src/modules/inventory/infrastructure/repositories/prisma-reservation.repository.ts:28-56 | the claim holds expired HELD rows no other transaction has locked, earliest first; nothing earlier is left over, and it is short only when none is left at all |
| `Database.CheckoutTables.SweepExpiredReservations` | src/modules/inventory/application/use-cases/sweep-expired-reservations.use-case.ts:56-122 | the loop that recounts after every row ends where the one-pass specification does |
| `Database.CheckoutTables.CreateCheckoutOrder` | src/modules/orders/application/use-cases/create-order.use-case.ts:67-217 | the claim, checks, insert and stored response compute the specification; errors leave no trace |
| `Database.CheckoutTables.VerifyProviderPayment` | src/modules/payments/application/use-cases/verify-payment.use-case.ts:72-200 | payment, order and ledger rows after the call, for every provider status |
| `Database.CheckoutTables.IssueWithReferences` | src/modules/tickets/application/use-cases/issue-tickets.use-case.ts:86-199 | insert loop, then reservation, cache, sold count and order: all or nothing |
| `Database.CheckoutTables.AllocateBatch` | src/shared/tickets/ticket-reference-allocator.service.ts:24-58 | the attempt loop computes the recursive specification, with other requests committing before each attempt |
| `Database.CheckoutTables.IssueTickets` | src/modules/tickets/application/use-cases/issue-tickets.use-case.ts:64-84 | quantity read in a transaction of its own, then the attempts, others in between |
| `HoldProofs.ExpireThenCountPartitions` | src/modules/tables/application/table-reservations.service.ts:166-184 | after expiring stale rows, no row of the table is active exactly when none is HELD |
| `HoldProofs.HoldsExcludeEachOther` | src/modules/tables/application/table-reservations.service.ts:166-208 | at most one HELD row per table in every reachable state, for arbitrary clock readings and with unlocked reads of reservations interleaved step by step |
| `HoldProofs.TableStateCoherent` | src/modules/tables/application/table-reservations.service.ts:523-578 | over serial runs on a monotone clock an unexpired hold forces the table HELD with its expiry, and a HELD table is backed by a HELD row with that expiry |
| `HoldAudits.AuditTrailAddsUp` | src/modules/tables/application/table-reservations.service.ts:399-414 | over serial runs each hold has one created audit, one expired audit exactly if it expired, and per table created minus expired is the number of HELD rows |
| `HoldAudits.AvailabilityTables` | src/modules/tables/application/tables.service.ts:370-378 | after an availability read each table of the event is HELD exactly when it has an active hold, until the last of them ends, and otherwise AVAILABLE again or what it was; other tables are untouched |
| `HoldAudits.AvailabilityHold` | src/modules/tables/application/tables.service.ts:370-378 | each stale hold of the event is EXPIRED with exactly one expiry audit; every other hold and its audits are untouched |
| `HoldAudits.HoldReplay` | src/modules/tables/application/table-reservations.service.ts:122-164 | an accepted hold request repeated after any run returns the first reservation, adds no row, and is refused exactly when the table can no longer be held |
| `HoldOutcomes.FreshHoldIff` | src/modules/tables/application/table-reservations.service.ts:89-181 | a first request is accepted if and only if it has a key, the table exists and is the event's, the event may be held, the table is not UNAVAILABLE, and no HELD row of it is unexpired |
| `HoldOutcomes.UsedKeyIff` | src/modules/tables/application/table-reservations.service.ts:122-164 | a used key is answered, with its reservation, if and only if table and event may still be held and it was used for them |
| `HoldOutcomes.HoldRefusal` | src/modules/tables/application/table-reservations.service.ts:94-184 | the reason of every refusal, which changes no table and no hold and is logged |
| `HoldOutcomes.FreshHoldWrites` | src/modules/tables/application/table-reservations.service.ts:186-271 | the new hold, its end, the table's status until then; stale holds of that table expire and nothing else changes |
| `HoldOutcomes.OwnHoldIff` | src/modules/tables/application/table-reservations.service.ts:321-346 | who may read a reservation, and the reason of a refusal |
| `HoldOutcomes.OwnHoldWrites` | src/modules/tables/application/table-reservations.service.ts:331-346 | the table gets its right status and expiry; the table's stale holds expire if and only if the one asked for is stale |
| `HoldOutcomes.UpdateStatusIff` | src/modules/tables/application/tables.service.ts:247-330 | a manager's update is accepted if and only if it does not set HELD, does not open a table whose place is out of use, and nobody holds the table |
| `HoldOutcomes.UpdateStatusWrites` | src/modules/tables/application/tables.service.ts:247-330 | the table has the status asked for and no expiry; every refusal with its reason, writing nothing |
| `HoldOutcomes.CreateTableWrites` | src/modules/tables/application/tables.service.ts:153-236 | which status a new table gets, for each wanted status and state of its place |
| `HoldReaders.TrailAddsUpIff` | src/modules/tables/application/table-reservations.service.ts:313-363 | for every interleaving of readers that take no lock, the audit trail adds up at every point if and only if each of them commits on rows that are still HELD |
| `HoldReaders.ReadersKeepCoherentIff` | src/modules/tables/application/table-reservations.service.ts:523-578 | for every interleaving of such readers, on any clocks of theirs, the derived state of every table is coherent at every point if and only if each commit leaves its table fitting the holds it leaves HELD |
| `HoldReaders.GetOwnedIsRun` | src/modules/tables/application/table-reservations.service.ts:313-366 | the reads, the decision and the commit of a reader, with no one in between, are the request as one step |
| `HoldReaders.ReadersLogExpiryTwice` | src/modules/tables/application/table-reservations.service.ts:381-414 | two reads of one lapsed hold both log its expiry: a run from empty tables that the row locks permit |
| `HoldReaders.ReaderFreesHeldTable` | src/modules/tables/application/table-reservations.service.ts:340-363 | a read of an EXPIRED reservation frees a table held meanwhile: a run from empty tables that the row locks permit |
| `TableService.EventTables.ExpireStaleHolds` | src/modules/tables/application/table-reservations.service.ts:368-415 | mark, reconcile, log: the whole new state |
| `TableService.EventTables.CountActiveHolds` | src/modules/tables/infrastructure/table-reservations.repository.ts:164-180 | counts exactly the active holds |
| `TableService.EventTables.CreateTableHold` | src/modules/tables/application/table-reservations.service.ts:64-311 | replay, conflict, refusal and placement, with a refused transaction rolled back before its audit |
| `TableService.EventTables.ReadAvailability` | src/modules/tables/application/tables.service.ts:332-400 | the loop over the locked tables of the event, and the status shown for each |
| `PaymentProofs.VerifiedMeansMatched` | src/modules/payments/application/payment-verification.service.ts:316-547 | in every reachable state a VERIFIED intent carries the provider's amount and currency equal to its own, a verification time and no failure, whatever deliveries led there |
| `PaymentProofs.SettledEventForever` | src/modules/payments/infrastructure/repositories/prisma-provider-webhook-event.repository.ts:70-95 | a stored webhook event leaves RECEIVED at most once: a settled row never changes |
| `PaymentProofs.DuplicateDeliveryOnlyLogs` | src/modules/payments/application/payment-verification.service.ts:234-262 | a delivery whose payload hash or event id is stored creates no event and only logs itself |
| `PaymentOutcomes.FirstDeliveryEnds` | src/modules/payments/application/payment-verification.service.ts:316-547 | a first supported delivery from the intent's provider, in any reachable state: an open intent ends VERIFIED if and only if reference, amount and currency match and the outcome is success, FAILED if and only if they match and it is failure, and is unchanged otherwise; the status of the event and the audits of each case |
| `PaymentOutcomes.UnaskedDeliveryEnds` | src/modules/payments/application/payment-verification.service.ts:155-207 | a delivery that is unsupported, names no known payment or comes from another provider moves no intent; how its event ends and what is logged |
| `PaymentOutcomes.RepeatedDeliveryEnds` | src/modules/payments/application/payment-verification.service.ts:234-262 | a delivery stored before, by payload or else by event id, adds one audit and nothing else |
| `PaymentOutcomes.BadSignatureEnds` | src/modules/payments/application/payment-verification.service.ts:639-665 | a bad signature leaves one REJECTED event per payload |
| `PaymentOutcomes.UsedKeyInitiates` | src/modules/payments/application/payments.service.ts:132-188 | a used key is a conflict for another payload, a retry after a failed initiation, and otherwise a logged replay |
| `PaymentOutcomes.FreshKeyInitiates` | src/modules/payments/application/payments.service.ts:190-222 | the new intent, field by field, unless its reference is taken |
| `PaymentOutcomes.CallWrites` | src/modules/payments/infrastructure/repositories/prisma-payment-intent.repository.ts:106-181 | what retry, acknowledged or lost initiation, and both failures write to the row, whatever they find |
| `PaymentTerminal.TerminalFixedIffQuiescent` | src/modules/payments/infrastructure/repositories/prisma-payment-intent.repository.ts:106-258 | a VERIFIED or FAILED intent of a reachable state keeps its row and its transition audits through every later run if and only if no initiation of it is in flight, a retry that has read it and not yet written included |
| `PaymentTerminal.QuiescentTerminalStays` | src/modules/payments/infrastructure/repositories/prisma-payment-intent.repository.ts:183-258 | the whole row stays equal and no transition audit is added, for any steps of any other request |
| `PaymentTerminal.ConfirmingDeliveryVerifies` | src/modules/payments/application/payment-verification.service.ts:378-385 | a first confirming delivery verifies an open intent from any reachable state, with one transition audit |
| `PaymentTerminal.LateAnswerVerifiesTwice` | src/modules/payments/infrastructure/repositories/prisma-payment-intent.repository.ts:126-157 | the unguarded write of a late initiation answer undoes a verification, which then happens twice: a concrete run |
| `PaymentTerminal.SecondRetryUndoesVerification` | src/modules/payments/infrastructure/repositories/prisma-payment-intent.repository.ts:106-124 | two retries read a failed intent; after one has led to VERIFIED the other writes INITIATION_PENDING over it: a concrete run |
| `PaymentService.DeliveredIsRun` | src/modules/payments/application/payment-verification.service.ts:126-232 | a delivery nothing interleaves with equals the run of its separate steps |
| `PaymentService.PaymentRows.ProcessEnvelope` | src/modules/payments/application/payment-verification.service.ts:126-409 | the handler, branch by branch, on the rows |
| `PaymentService.PaymentRows.ApplyTransition` | src/modules/payments/application/payment-verification.service.ts:411-547 | the guarded transition with its audits, or the audit of why not |
| `PaymentService.PaymentRows.ReadIntent` | src/modules/payments/application/payments.service.ts:132-222 | retry, replay, conflict or a new intent; the retry is left to write |
| `EndToEnd.AcceptedScansAreInjective` | src/modules/admissions/application/admissions.service.ts:38-203 | with preflight and use split, accepted scans lead to payment intents, different scans to different intents, and each completed scan has exactly one audit |
| `EndToEnd.AcceptedScanWasPaid` | src/modules/tickets/application/ticket-issuance.service.ts:55-72 | that intent was VERIFIED at the very step that issued the ticket |
| `EndToEnd.TicketWasVerified` | src/modules/tickets/application/ticket-issuance.service.ts:41-197 | every ticket of an intent was created by an issuance step that found it VERIFIED |
| `AdmissionService.DoorRows.IssueTicketFromVerifiedPayment` | src/modules/tickets/application/ticket-issuance.service.ts:41-243 | audits, replay and new ticket on the rows; a token collision rolls back |
| `ScanOutcomes.ScanAcceptsIff` | src/modules/admissions/application/admissions.service.ts:38-203 | with any requests of others between its halves, a scan is accepted if and only if at the first the ticket exists, the token is its own, its organizer is absent or the event's, the scanner owns it, the event asked for is absent or its own, it is ISSUED for a published event and neither it nor the event has ended, and at the second it is still ISSUED with that token |
| `ScanOutcomes.PreflightTells` | src/modules/admissions/application/admissions.service.ts:38-125 | the reason of every refusal, in the order of the checks |
| `ScanOutcomes.FinishTells` | src/modules/admissions/application/admissions.service.ts:127-197 | what the second half writes, and the reason when the ticket was used or changed in between |
| `ScanOutcomes.PaymentIssuesIff` | src/modules/tickets/application/ticket-issuance.service.ts:41-197 | a payment gets a ticket if and only if it is VERIFIED, its snapshot agrees, and it has one already or the token is free; the reason of every refusal |
| `ScanOutcomes.PaymentIssueWrites` | src/modules/tickets/application/ticket-issuance.service.ts:41-243 | the ticket, field by field, and the audits of every case |
| `AdmissionService.DoorRows.ScanTicket` | src/modules/admissions/application/admissions.service.ts:38-203 | alone, a scan accepts exactly an admissible ticket, uses exactly it, and adds one audit with the reason of a refusal |
| `Sessions.TokensAreSingleUse` | src/auth/session.service.ts:144-178 | for any interleaving of reads, swaps and revocations each token is rotated at most once in the whole run, and every session that is not ACTIVE has both hashes null |
| `Sessions.ActiveNeverReentered` | src/auth/session.service.ts:180-253 | REVOKED is final and EXPIRED never becomes ACTIVE again |
| `Sessions.LoserRevokesForGood` | src/auth/session.service.ts:168-171 | a rotation that loses the compare-and-set revokes its session whatever others do in between, and nothing brings it back |
| `Sessions.SwapLosesExactlyWhen` | src/auth/session.service.ts:144-171 | a rotation whose read allowed the swap loses the compare-and-set if and only if, since that read, its token was rotated by another or its session ended |
| `Sessions.ReplayDetectedExactly` | src/auth/session.service.ts:102-142 | the exact presentations that revoke a session |
| `Sessions.ReplaySeenOneGenerationBack` | src/auth/session.service.ts:135-138 | after any run, a spent token presented again revokes if and only if nothing was rotated in its session since; an older one is merely refused |
| `Sessions.OldestTokenIsOnlyRefused` | src/auth/session.service.ts:135-142 | after two rotations the first token is refused and changes nothing, the second revokes: a concrete run |
| `Sessions.VersionCountsRotations` | src/auth/session.service.ts:156-158 | the version of a session is its number of successful rotations |
| `SessionService.RotateIsRun` | src/auth/session.service.ts:94-178 | a rotation nothing interleaves with equals the run of its separate steps |
| `SessionService.AloneNeverLoses` | src/auth/session.service.ts:94-178 | alone, a rotation succeeds exactly for a current token on its device in time, and reports replay of a current token only for another device |
| `SessionOutcomes.PresentedTokenEnds` | src/auth/session.service.ts:94-178 | a token presented alone in any reachable state: which answer it gets and what is left in the row, for no session, another device, a lapsed session, a disabled user, a spent token and a current one, which is exchanged for thirty days |
| `SessionOutcomes.SwapWrites` | src/auth/session.service.ts:149-172 | the exchange takes place if and only if the token is still current in an ACTIVE session; every field it writes |
| `SessionService.SessionRows.RotateRefreshToken` | src/auth/session.service.ts:94-178 | the method, branch by branch, on the rows |
| `Outbox.ProcessedForever` | src/shared/outbox/outbox-claim.repository.ts:66-77 | under any interleaving a processed event stays processed and no later claim selects it |
| `Outbox.LiveRetriesBelowTen` | src/shared/outbox/outbox-claim.repository.ts:79-101 | under any interleaving a live event, and any claim in flight, has a retry count of at most nine |
| `Outbox.LeaseExcludes` | src/shared/outbox/outbox-claim.repository.ts:32-58 | while a lease lies ahead of the database clock and nobody settles the row, no further claim picks it up |
| `OutboxSchedule.NotClaimedBeforeItsTime` | src/shared/outbox/outbox-claim.repository.ts:87-98 | after the n-th failure of an event that stays alive, and until it is settled again, no claim selects it while the database clock is short of min(300, 2^min(n, 8)) seconds past the clock of the worker that settled it |
| `OutboxSchedule.SettlingWrites` | src/shared/outbox/outbox.processor.ts:33-58 | the row after each outcome: processed, retried at the scheduled time, or dead-lettered exactly if not retryable or at the tenth failure; which errors are retryable and the name each is stored under; the log agrees |
| `OutboxSchedule.ClaimWrites` | src/shared/outbox/outbox-claim.repository.ts:18-64 | a claim leases, for thirty seconds, exactly the live, due, unlocked rows with fewer than limit older ones |
| `Outbox.DeadForeverIff` | src/shared/outbox/outbox-claim.repository.ts:79-101 | a dead-lettered or processed event is not live again at any point of a run if and only if no step settles it with a retryable failure from a claim below the ninth retry while it is unprocessed |
| `Outbox.StaleWorkerRevivesDeadLetter` | src/shared/outbox/outbox-claim.repository.ts:79-101 | a worker that outlives its lease does so: a concrete run |
| `OutboxProofs.RetriesAreBounded` | src/shared/outbox/outbox-claim.repository.ts:79-101 | when no lease overlaps, an event fails exactly as often as its row says, at most ten times, and its failures put its next attempt off by at most 766 seconds in all, summed over its rows |
| `OutboxProofs.DeadLettersAreFinal` | src/shared/outbox/outbox-claim.repository.ts:79-101 | when no lease overlaps, an event once dead-lettered or processed is never live again |
| `OutboxProofs.CountKeptIff` | src/shared/outbox/outbox.processor.ts:48-58 | in every run, with any overlap of leases, a row's count equals its failures at every point if and only if every failure settled a current claim |
| `OutboxProofs.HandlingShrinksWork` | src/shared/outbox/outbox.processor.ts:33-58 | when no lease overlaps every handled row strictly shrinks the sum of 10 - retryCount over live events |
| `OutboxProofs.DispatchesAreBounded` | src/shared/outbox/outbox.processor.ts:28-58 | so the dispatches of a whole run are at most ten per event, less the work left |
| `OutboxService.OutboxRows.ClaimBatch` | src/shared/outbox/outbox-claim.repository.ts:18-64 | the oldest due unlocked rows up to the limit, leased, with the counts read |
| `OutboxService.OutboxRows.ProcessBatch` | src/shared/outbox/outbox.processor.ts:28-84 | the batch loop settles every claimed row, a failing one like the others |
| `OutboxService.BatchSettlesEachRow` | src/shared/outbox/outbox.processor.ts:33-58 | each claimed row is settled once from its own claim, and no other row changes |
| `OutboxService.SettleIsRun` | src/shared/outbox/outbox.processor.ts:33-58 | the settling of a batch is the run of one step per row |
| `Base32.EncodeBuffer` | src/shared/tickets/ticket-reference-generator.service.ts:14-35 | the accumulator loop, wrapping at 32 bits, computes the unpadded base32 of section 6 of RFC 4648 for every length |
| `Base32.RoundTrip` | src/shared/tickets/ticket-reference-generator.service.ts:14-35 | decoding an encoding returns the octets |
| `Base32.Injective` | src/shared/tickets/ticket-reference-generator.service.ts:14-35 | different octets, different texts |
| `Base32.EncodingsExactly` | src/shared/tickets/ticket-reference-generator.service.ts:14-35 | a text is an encoding if and only if it is canonical: letters of the alphabet, no whole letter too many, zero fill |
| `Base32.Encode` | src/shared/tickets/ticket-reference-generator.service.ts:14-35 | the text has ceil(8n/5) letters |
| `Base32.EncodedLetter` | src/shared/tickets/ticket-reference-generator.service.ts:14-35 | letter i is the standard alphabet's letter for bits 5i to 5i+4 of the octets, most significant first, zeros beyond the end |
| `Base32.ReferencesIdentifyDraws` | src/shared/tickets/ticket-reference-generator.service.ts:6-12 | serials and references are equal only for equal draws, have 20 and 13 characters, and are never each other |
| `Redaction.RedactUnknown` | src/modules/admin-support/admin-support-redaction.service.ts:78-112 | the recursion with its output loop computes the specification |
| `RedactionProofs.RedactedIsClean` | src/modules/admin-support/admin-support-redaction.service.ts:78-112 | at every depth the result has only kept keys and only harmless or replaced strings |
| `RedactionProofs.UnchangedExactlyWhenClean` | src/modules/admin-support/admin-support-redaction.service.ts:78-112 | redaction changes nothing if and only if the value is clean |
| `RedactionProofs.RedactingTwiceIsOnce` | src/modules/admin-support/admin-support-audit.service.ts:30-32 | redacting twice is redacting once |
| `RedactionProofs.SurvivesExactly` | src/modules/admin-support/admin-support-redaction.service.ts:78-112 | down any path the result holds the redaction of what the input holds, if and only if every key on the way is kept and the entry is not undefined |
| `RedactionProofs.SpellingDoesNotMatter` | src/modules/admin-support/admin-support-redaction.service.ts:114-124 | a key and its normal form get the same decision |
| `RedactionProofs.WithheldKeysExactly` | src/modules/admin-support/admin-support-redaction.service.ts:10-56 | exactly which keys are withheld: those spelled like one of the listed names and those with one of six words in them |
| `RedactionProofs.NormalizedByLetter` | src/modules/admin-support/admin-support-redaction.service.ts:114-124 | what a key is compared by: its letters in lower case and its digits, in order |
| `RedactionProofs.WithheldExactly` | src/modules/admin-support/admin-support-redaction.service.ts:126-154 | exactly which strings are replaced, by the marks, words and environment values they contain; trimming first hides nothing but a bearer mark at the very end |
| `RedactionProofs.BareBearerIsNotWithheld` | src/modules/admin-support/admin-support-redaction.service.ts:127-142 | a bearer mark with nothing after it is not replaced |

## Left out

- TableStateCoherent: serial runs on a monotone clock; what interleaved readers add is `ReadersKeepCoherentIff`.
- TrailAddsUpIff: a request that locks its table is one step. A reader that leaves the table row as it is could commit while such a request is under way at the default isolation level; the model puts it before or after.
- ReadersKeepCoherentIff: the same holds of it.
- HoldsExcludeEachOther: row locks forbid some of the interleavings it covers; the model allows them all.
- ReadIntent: the read and the insert of a new intent are one step. When another request inserts the key or the reference in between, the unique index rejects the second insert and nothing changes.
- RetriesAreBounded: assumes that no batch is claimed while a row in flight has outlived its lease; without it `CountKeptIff` and `DeadForeverIff` say what remains.
- SurvivesExactly: asks for distinct keys in each object, which every JavaScript object has; cyclic values, on which the code does not terminate, are not values of the model.
- WithheldExactly: lower-casing covers A to Z, the Kelvin sign and the dotted capital I, the only characters whose lower case has an ASCII letter; other letters outside ASCII are left as they are, which matters only for environment secrets that contain them.
- SweepExpiredReservations: the batch is an argument; which rows a claim may hold is `ClaimExpiredHeldReservations`.
- EncodeBuffer: words are integers below 2^32 with the wrap written out; shifts and masks are multiplication, division and remainder by powers of two.
- Audit and outbox payloads: audits keep kind and subject; the outbox rows appended beside them are not tied to the outbox part.
- The order of expiry audits within one call: rows are logged in insertion order, the repository sorts by expiry.
- Payments of the order flow are inserted by a step of the environment: no code of the repository creates one.
- Order statuses no modelled code writes (created, completed, expired, cancelled).
- Failure messages: failure code and message of an intent or event are one field.
- Whether an event may be held, paid for, checked out or shown, whether the place of a table is in use when it is held, launch control, organizer ownership, issuance snapshots: one boolean each.
- The unique-violation branch of hold creation and the recovery branch of ticket issuance: unreachable when each transaction is one step.
- Serialization failures and their retries, isolation anomalies, and the aborted state of a transaction after a unique violation.
- Provider adapters, signatures, timeouts, envelope parsing, token and hash computation, HTTP, controllers, events, caches, realtime, telemetry.
- Organizer, event and venue administration, refunds, fraud, notifications, offline sync: settled by reading one branch, or empty in the source.
