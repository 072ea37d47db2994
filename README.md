# Card authorization: a Dafny model

This project models the card-authorization core of a Hazelcast payments lab.
The same authorization rules are written twice there.

- **The synchronous path.** `TransactionEntryProcessor` runs on one entry of the `cards` map. It answers INVALID_CARD, DECLINED_BIG_TXN (over 5000), DECLINED_LOCKED, APPROVED or DECLINED_OVER_AUTH_LIMIT, in that priority order. On approval it credits the card.
- **The stream path.** The authorization job built by `AuthorizationPipelineSolution.createPipeline` runs four stages in order: a big-transaction check, a locked-card check for NEW transactions, a per-card stateful credit check (`CardState`) and a final approval. It emits every transaction keyed by card number. Approved ones go to the store as a `CardEntryProcessor` increment.

The model has these modules:

- `Transactions`: the transaction record and its status enum.
- `Cards`: the `Card` class with its setters, `addAuthorizedDollars` and `toString`.
- `Decimal`: the decimal text of an `int`.
- `Store`: the `cards` map, as a class holding a map from card number to card record.
- `SyncAuthorization`: `TransactionEntryProcessor`.
- `CardUpdate`: `CardEntryProcessor`.
- `StreamState`: `CardState`.
- `AuthorizationPipeline`: the stages, one event at a time through `Stages`. A run over a sequence of events is `Run`. It is also an imperative loop, `RunPipeline`, that keeps one `CardState` object per card number.
- `PipelineProperties` and `PathAgreement`: the properties of the job and how the two paths compare.

What is proved, in short:

- **Within limits.** The synchronous path keeps every card within its limit for any requests. The stream does so for events that do not arrive already APPROVED, while the job is the only writer of the cards. An event that arrives already APPROVED is credited with no limit check and can push its card over the limit.
- **Agreement.** Take events that arrive NEW on stored cards, with the job as the only writer. The stream then emits the synchronous statuses in order and leaves the same store.
- **Isolation.** In a run that does not fail the job, different cards never affect each other. A fault on one card stops the job for every card.
- **Ordering.** Of two transactions on one card (600 and 600 on limit 1000), the first is approved and the second declined.
- **Where the paths part ways:**
  - On an unknown card, the synchronous path answers INVALID_CARD. The stream instead fails the job by dereferencing the missing card, or declines the transaction as big when it is over 5000.
  - A synchronous approval on a card the job has already seeded leaves the job's cached numbers stale, because a card's state is seeded only once. The job then approves against the old numbers, and the store update adds the amount without a check. From 0 of 1000, the job approves 600, the synchronous path approves 100, and the job approves 400, which leaves 1100 stored.
  - An event arriving already APPROVED skips the locked-card and credit checks and is added to the store. The big-transaction check still applies to it.
  - A restart discards the per-card states. Replaying then credits the store a second time, or declines a transaction that was approved before.

A stream event for a card missing from the store would be expected to get INVALID_CARD, as on the synchronous path. The code instead fails the job: in the locked-card stage `card.getLocked()` runs on the null that the lookup gives for a missing card. `CardState` would also throw when it cannot seed itself, but in the job that throw is never reached. A NEW transaction whose card is missing has already failed at the locked-card check. `Stages` never fails at the credit check, and the matching branch of `ProcessEvent` is proved unreachable, so no run ends in `CreditCheckFailed`. An APPROVED event for a missing card skips both checks and fails at the store update instead. This model follows the code and records these failures as the faults of a run. `PathAgreement.UnknownCardDisagreement` states the difference.

## Model

| member | source | states |
|---|---|---|
| Transactions.Name | common/src/main/java/hazelcast/platform/labs/payments/domain/TransactionEntryProcessor.java:26-39 | `Status.name()`, the response body: a non-empty identifier of capitals and underscores (that it identifies the status is `NameRoundTrip` and `NameInjective`) |
| Transactions.NameRoundTrip | common/src/main/java/hazelcast/platform/labs/payments/domain/TransactionEntryProcessor.java:26-39 | the response text of every status reads back as that status, so the synchronous response identifies the outcome |
| Transactions.NameInjective | common/src/main/java/hazelcast/platform/labs/payments/domain/TransactionEntryProcessor.java:26-39 | no two statuses share a response text |
| Cards.Credited | common/src/main/java/hazelcast/platform/labs/payments/domain/Card.java:38-40 | crediting a card sets its authorized dollars to the old value plus the amount and keeps card number, lock flag and credit limit |
| Cards.CreditedTwice | common/src/main/java/hazelcast/platform/labs/payments/domain/Card.java:38-40 | two credits in a row equal one credit of the sum |
| Cards.Card.SetCardNumber | common/src/main/java/hazelcast/platform/labs/payments/domain/Card.java:18-20 | the card number becomes the given value and no other field changes |
| Cards.Card.SetCreditLimitDollars | common/src/main/java/hazelcast/platform/labs/payments/domain/Card.java:26-28 | the credit limit becomes the given value and no other field changes |
| Cards.Card.SetAuthorizedDollars | common/src/main/java/hazelcast/platform/labs/payments/domain/Card.java:34-36 | the authorized dollars become the given value and no other field changes |
| Cards.Card.SetLocked | common/src/main/java/hazelcast/platform/labs/payments/domain/Card.java:46-48 | the lock flag becomes the given value and no other field changes |
| Cards.Card.AddAuthorizedDollars | common/src/main/java/hazelcast/platform/labs/payments/domain/Card.java:38-40 | authorized dollars grow by exactly the amount, in place; the other three fields keep their values |
| Cards.Card.ToString | common/src/main/java/hazelcast/platform/labs/payments/domain/Card.java:50-58 | `toString()` opens with `Card{cardNumber='`, the card number and `', locked=`, and ends with `}`; that it reads back as the card is `ToStringRoundTrip` |
| Cards.CardTextShape | common/src/main/java/hazelcast/platform/labs/payments/domain/Card.java:50-58 | the same opening and closing for the text of any card record |
| Cards.CardTextRoundTrip | common/src/main/java/hazelcast/platform/labs/payments/domain/Card.java:50-58 | the text `Card{cardNumber='<n>', locked=<b>, creditLimitDollars=<l>, authorizedDollars=<a>}` of a record whose number holds no quote reads back as exactly that record, negative numbers included |
| Cards.ToStringRoundTrip | common/src/main/java/hazelcast/platform/labs/payments/domain/Card.java:50-58 | the same for a `Card` object: its `toString` text reads back as its current four fields |
| Decimal.ReadIntOfIntToString | common/src/main/java/hazelcast/platform/labs/payments/domain/Card.java:55-56 | the decimal text Java gives an `int` inside `toString` (minus sign, digits, no leading zero) reads back as the integer, for every integer |
| Store.Lookup | payment-pipelines/src/main/java/hazelcast/platform/labs/payments/CardState.java:31-32 | a lookup in the cards map finds a card exactly when the key is stored, and then it is the stored card |
| SyncAuthorization.Decision | common/src/main/java/hazelcast/platform/labs/payments/domain/TransactionEntryProcessor.java:24-40 | each outcome holds exactly when its check is the first to fire: no card gives INVALID_CARD; over 5000 gives DECLINED_BIG_TXN, locked or not; a locked card gives DECLINED_LOCKED; APPROVED exactly when authorized plus amount is within the limit; otherwise DECLINED_OVER_AUTH_LIMIT; never NEW |
| SyncAuthorization.Authorize | common/src/main/java/hazelcast/platform/labs/payments/domain/TransactionEntryProcessor.java:34-39 | the status is the decision on the stored card; APPROVED writes the card credited by the amount and nothing else; every other outcome, INVALID_CARD included, writes nothing and creates no card |
| SyncAuthorization.AuthorizeAll | authorization-service/src/main/java/hazelcast/platform/labs/payments/AuthorizationServiceController.java:28-31 | requests answered one after another, each against the store the previous left: one status per request, and no card is ever added or removed |
| SyncAuthorization.AuthorizeKeepsWithinLimits | common/src/main/java/hazelcast/platform/labs/payments/domain/TransactionEntryProcessor.java:34-37 | after any single authorization every stored card is still within its credit limit, if it was before |
| SyncAuthorization.AuthorizeAllKeepsWithinLimits | authorization-service/src/main/java/hazelcast/platform/labs/payments/AuthorizationServiceController.java:28-31 | any sequence of synchronous requests keeps every card within its limit |
| SyncAuthorization.AuthorizeAllKeepsNonNegative | authorization-service/src/main/java/hazelcast/platform/labs/payments/AuthorizationServiceController.java:28-31 | any sequence of requests with non-negative amounts keeps authorized dollars non-negative |
| SyncAuthorization.NegativeAmountApproved | common/src/main/java/hazelcast/platform/labs/payments/domain/TransactionEntryProcessor.java:34-37 | no check on the sign of the amount: -100 on a card at 0 of 1000 is approved and leaves -100 authorized |
| SyncAuthorization.DecisionExamples | common/src/main/java/hazelcast/platform/labs/payments/domain/TransactionEntryProcessor.java:24-40 | worked cases: 400+500 on limit 1000 approved and written as 900; 400+700 declined over limit; 6000 declined as big on an unlocked and on a locked over-limit card; a locked card declined; an unknown card invalid |
| SyncAuthorization.TransactionEntryProcessor.Process | common/src/main/java/hazelcast/platform/labs/payments/domain/TransactionEntryProcessor.java:23-41 | `process(entry)` returns the name of the decision and leaves the store exactly as `Authorize` says, by reading the card, crediting it in place and writing it back on approval only |
| CardUpdate.Increment | common/src/main/java/hazelcast/platform/labs/payments/domain/CardEntryProcessor.java:21-23 | the chosen card gains exactly the amount, its other fields and every other card are unchanged, no card is added or removed |
| CardUpdate.IncrementTwice | common/src/main/java/hazelcast/platform/labs/payments/domain/CardEntryProcessor.java:22 | the increment is not idempotent: delivering it twice adds twice the amount |
| CardUpdate.IncrementCanExceedLimit | common/src/main/java/hazelcast/platform/labs/payments/domain/CardEntryProcessor.java:22-24 | the increment is unconditional: 200 on a card at 900 of 1000 leaves it over its limit |
| CardUpdate.CardEntryProcessor.Process | common/src/main/java/hazelcast/platform/labs/payments/domain/CardEntryProcessor.java:20-25 | on a present entry, the store becomes `Increment` of the old store, and the answer is true exactly when the new authorized dollars are within the limit |
| StreamState.SeedFrom | payment-pipelines/src/main/java/hazelcast/platform/labs/payments/CardState.java:29-38 | an unseeded state (limit -1) takes both numbers from the stored card and fails with the message "Could not retrieve credit limit for <card>" when there is none; a seeded state is used as it is |
| StreamState.CheckCredit | payment-pipelines/src/main/java/hazelcast/platform/labs/payments/CardState.java:28-48 | fails exactly when unseeded and the card is absent; the limit is the seeded one; within the limit the cached authorized grows by the amount, stays within the limit, and the transaction is returned unchanged; otherwise the state keeps the seeded numbers and only the status becomes DECLINED_OVER_AUTH_LIMIT |
| StreamState.SeededIgnoresStore | payment-pipelines/src/main/java/hazelcast/platform/labs/payments/CardState.java:29-38 | once seeded, the check gives the same result whatever the store holds |
| StreamState.CardState.constructor | payment-pipelines/src/main/java/hazelcast/platform/labs/payments/CardState.java:22-23 | a new state holds -1 in both fields |
| StreamState.CardState.CheckCreditLimit | payment-pipelines/src/main/java/hazelcast/platform/labs/payments/CardState.java:28-48 | updates the two fields in place to the state `CheckCredit` gives and returns its transaction, or returns the failure and leaves the fields as they were |
| AuthorizationPipeline.BigTxnStage | payment-pipelines/src/main/java/hazelcast/platform/labs/payments/solution/AuthorizationPipelineSolution.java:93-97 | the status becomes DECLINED_BIG_TXN exactly when the amount is over 5000 (or already was); at most 5000 the transaction is unchanged; no other field changes |
| AuthorizationPipeline.LockedStage | payment-pipelines/src/main/java/hazelcast/platform/labs/payments/solution/AuthorizationPipelineSolution.java:104-111 | the job fails exactly on a NEW transaction with no card; the status changes exactly when it is NEW and the card locked, and then to DECLINED_LOCKED; a DECLINED_BIG_TXN on a locked card stays as it is |
| AuthorizationPipeline.StatefulStage | payment-pipelines/src/main/java/hazelcast/platform/labs/payments/solution/AuthorizationPipelineSolution.java:130-135 | a transaction that is not NEW passes through with the card state untouched; a NEW one gets the credit check, and the check failing fails the job |
| AuthorizationPipeline.FinalApproval | payment-pipelines/src/main/java/hazelcast/platform/labs/payments/solution/AuthorizationPipelineSolution.java:140-143 | no transaction is NEW afterwards: a NEW one becomes APPROVED, any other is unchanged |
| AuthorizationPipeline.StateFor | payment-pipelines/src/main/java/hazelcast/platform/labs/payments/solution/AuthorizationPipelineSolution.java:130-132 | each card number has its own state, and a card seen for the first time starts from a new unseeded CardState |
| AuthorizationPipeline.Stages | payment-pipelines/src/main/java/hazelcast/platform/labs/payments/solution/AuthorizationPipelineSolution.java:93-162 | one event through all stages and both sinks: it fails exactly on a card missing from the store for a NEW or already-APPROVED event of at most 5000; the emitted transaction is the input with its final, never NEW, status; exactly an APPROVED result adds the amount to its card, through `Increment`; a transaction declined as big, declined as locked or arriving already decided leaves the card state as it was; a NEW transaction of at most 5000 on a stored unlocked card succeeds, with the card state the credit check gives |
| AuthorizationPipeline.Step | payment-pipelines/src/main/java/hazelcast/platform/labs/payments/solution/AuthorizationPipelineSolution.java:104-162 | one event keyed by its card number: the stages run with that card's kept state, and the new state, store and output are kept; what this means is `StepKeyed` |
| AuthorizationPipeline.StepKeyed | payment-pipelines/src/main/java/hazelcast/platform/labs/payments/solution/AuthorizationPipelineSolution.java:104-162 | a step fails exactly when the stages find the card missing; otherwise it replaces the state of the event's card number alone, appends exactly one output keyed by that number, and neither adds nor removes a stored card |
| AuthorizationPipeline.StagesDecide | payment-pipelines/src/main/java/hazelcast/platform/labs/payments/solution/AuthorizationPipelineSolution.java:93-143 | the emitted status on a stored card: DECLINED_BIG_TXN over 5000, whatever the status; for a NEW event, DECLINED_LOCKED on a locked card; otherwise APPROVED exactly when the numbers of the card's state, seeded from the store on its first event, leave room for the amount, and DECLINED_OVER_AUTH_LIMIT when they do not |
| AuthorizationPipeline.Run | payment-pipelines/src/main/java/hazelcast/platform/labs/payments/solution/AuthorizationPipelineSolution.java:78-162 | the events in arrival order until they run out or one fails the job, which then stops; its outputs, store and states are stated by `PipelineProperties.RunEmitted`, `RunAccounted`, `RunCoherent` and `RunIsolated` |
| AuthorizationPipeline.ProcessEvent | payment-pipelines/src/main/java/hazelcast/platform/labs/payments/solution/AuthorizationPipelineSolution.java:93-162 | the stages applied to one event over the CardState object and the store, in place, end in the state, store and transaction `Stages` gives, or in its fault with the store and the card state untouched |
| AuthorizationPipeline.RunPipeline | payment-pipelines/src/main/java/hazelcast/platform/labs/payments/solution/AuthorizationPipelineSolution.java:60-162 | the loop over events with one CardState object per card number, created on the card's first event, emits, writes and fails exactly as `Run` from a fresh state map says |
| PipelineProperties.RunEmitted | payment-pipelines/src/main/java/hazelcast/platform/labs/payments/solution/AuthorizationPipelineSolution.java:153-156 | the outputs so far are kept; without a fault there is exactly one output per event, in order, keyed by the event's card number, equal to the event except for its status, and never NEW |
| PipelineProperties.RunAccounted | payment-pipelines/src/main/java/hazelcast/platform/labs/payments/solution/AuthorizationPipelineSolution.java:162 | after any run every card in the store holds exactly its starting numbers plus the amounts of the APPROVED outputs for it, and no card is added |
| PipelineProperties.RunFromStartAccounted | payment-pipelines/src/main/java/hazelcast/platform/labs/payments/solution/AuthorizationPipelineSolution.java:162 | the same for a run from a (re)start against a given store |
| PipelineProperties.RunCoherent | payment-pipelines/src/main/java/hazelcast/platform/labs/payments/solution/AuthorizationPipelineSolution.java:130-135 | with the job the only writer and no event arriving APPROVED, every seeded card state equals the stored card's numbers after the run |
| PipelineProperties.RunKeepsWithinLimits | payment-pipelines/src/main/java/hazelcast/platform/labs/payments/solution/AuthorizationPipelineSolution.java:130-143 | events not arriving already APPROVED keep every stored card within its limit when the states agree with the store |
| PipelineProperties.StagesOnCard | payment-pipelines/src/main/java/hazelcast/platform/labs/payments/solution/AuthorizationPipelineSolution.java:104-135 | the stages read and write only the transaction's own card |
| PipelineProperties.RunIsolated | payment-pipelines/src/main/java/hazelcast/platform/labs/payments/solution/AuthorizationPipelineSolution.java:119-135 | in a run that does not fail the job, different cards never affect each other: one card's state, stored card and outputs are those of a run of that card's events alone |
| PathAgreement.StepAgreesWithSync | payment-pipelines/src/main/java/hazelcast/platform/labs/payments/solution/AuthorizationPipelineSolution.java:93-162 | for a NEW transaction on a stored card with the cache agreeing with the store, the stream emits the status `TransactionEntryProcessor.process` returns and writes the same store, and the cache keeps agreeing |
| PathAgreement.FreshStateAgreesWithSync | payment-pipelines/src/main/java/hazelcast/platform/labs/payments/solution/AuthorizationPipelineSolution.java:93-162 | the same for the first event of a card after a (re)start |
| PathAgreement.RunAgreesWithSync | payment-pipelines/src/main/java/hazelcast/platform/labs/payments/solution/AuthorizationPipelineSolution.java:93-162 | over a whole run of NEW events on stored cards the stream does not fail, emits the synchronous statuses in order and leaves the store the synchronous path leaves |
| PathAgreement.RunWithinLimitsFromStart | payment-pipelines/src/main/java/hazelcast/platform/labs/payments/solution/AuthorizationPipelineSolution.java:93-162 | from a (re)start on a store within limits, NEW events on stored cards keep every card within its limit |
| PathAgreement.UnknownCardDisagreement | payment-pipelines/src/main/java/hazelcast/platform/labs/payments/solution/AuthorizationPipelineSolution.java:104-111 | on an unknown card the paths disagree: the synchronous one answers INVALID_CARD and writes nothing; the stream fails the job on the missing card at 5000 or less and emits DECLINED_BIG_TXN above |
| PathAgreement.PreApprovedSkipsChecks | payment-pipelines/src/main/java/hazelcast/platform/labs/payments/solution/AuthorizationPipelineSolution.java:104-162 | an event arriving APPROVED skips the locked and credit checks, is emitted as it came and is added to its card in the store |
| PathAgreement.BigTxnOnLockedCard | payment-pipelines/src/main/java/hazelcast/platform/labs/payments/solution/AuthorizationPipelineSolution.java:93-111 | a NEW transaction over 5000 on a locked card is emitted as DECLINED_BIG_TXN and writes nothing |
| PathAgreement.SameCardOrdering | payment-pipelines/src/main/java/hazelcast/platform/labs/payments/solution/AuthorizationPipelineSolution.java:130-143 | two transactions on one card that fit its limit one at a time but not together: the first is APPROVED, the second DECLINED_OVER_AUTH_LIMIT, and the store holds the first amount only |
| PathAgreement.OrderingExample | payment-pipelines/src/main/java/hazelcast/platform/labs/payments/solution/AuthorizationPipelineSolution.java:130-143 | limit 1000, nothing authorized, two 600 transactions: APPROVED then DECLINED_OVER_AUTH_LIMIT, and 600 stored |
| PathAgreement.SyncWriteThenStreamOverLimit | payment-pipelines/src/main/java/hazelcast/platform/labs/payments/CardState.java:28-44 | with both paths writing one card, limit 1000: the job approves 600 and caches 600; the synchronous path approves 100 and stores 700; the job, from its stale cache, approves 400, and the store ends at 1100 |
| PathAgreement.ReplayAfterRestart | payment-pipelines/src/main/java/hazelcast/platform/labs/payments/solution/AuthorizationPipelineSolution.java:123-128 | replaying events after a restart that discards the card states credits each card with the approvals of both runs |
| PathAgreement.ReplayCountsTwice | payment-pipelines/src/main/java/hazelcast/platform/labs/payments/solution/AuthorizationPipelineSolution.java:162 | a 400 transaction, approved, then replayed after a restart is approved again and the store holds 800 |
| PathAgreement.ReplayDeclinesApproved | payment-pipelines/src/main/java/hazelcast/platform/labs/payments/solution/AuthorizationPipelineSolution.java:123-128 | a 600 transaction approved before a restart is declined over the limit when replayed, and the store keeps 600 |

## Left out

- Kafka source and sink, connection properties and the job's bootstrap (`main`, argument check, job submission): I/O. The stream is a sequence of events; the job's output is the sequence of (card number, transaction) pairs.
- JSON parsing and formatting with Jackson: a foreign library. A parsed event is a `Transaction` value with any status; its JSON text is not modelled.
- `Card.fake`: random test data.
- The getters of `Card`: they are plain reads of the fields in the model.
- `AuthorizationServiceController`: web and client wiring. Its call to `executeOnKey` is `TransactionEntryProcessor.Process` on the store.
- Transaction.java is not part of this model. `Transaction` is a datatype whose fields are the ones the processors read and write.
- Partitioning, parallel workers, snapshots and the atomicity of `executeOnKey`: these are concurrency and are not modelled. Events run one at a time in arrival order, as keying by card number and order preservation give for each card. Each entry-processor call is one method on the store.
- In-place mutation of the shared `Transaction` object by the stages: every stage returns a new transaction value. The one emitted is the same as the object the Java stages hand on.
- A restart is a new run against the store as the previous run left it, with no per-card state. Restoring a snapshot is not modelled.
- What the stages did before an event failed the job is not kept. On a fault the run stops at the job state before that event.
- The global `Hazelcast.getAllHazelcastInstances()` lookup in `CardState`: the store contents are a parameter of the credit check.
- Java 32-bit `int` overflow in `authorized + amount`: integers are unbounded. The model does not wrap around.
- A null card number on an incoming transaction is not modelled. Card numbers are strings.
- Cards.CardTextRoundTrip: requires a card number without a quote character. The text is unambiguous for every card, since after the number it has a fixed shape that could be read from the right. The reader modelled here reads from the left and stops at the first quote, and the card numbers the system generates are 19-character credit-card numbers in groups of digits (`Card.java:63-65`), which hold no quote.
- Cards.ToStringRoundTrip: the same requirement, for the same reason: it is `CardTextRoundTrip` on the card's current fields.
- SyncAuthorization.AuthorizeAllKeepsNonNegative: requires non-negative amounts. The code never checks the sign of an amount, on either path, so a negative request is approved and can push authorized dollars below zero (`SyncAuthorization.NegativeAmountApproved`). Non-negative authorized dollars hold only while callers send non-negative amounts.
- CardUpdate.CardEntryProcessor.Process: requires the entry to hold a card, since `process` has no null check. In the job this case is the fault `NullCardInStoreUpdate`.
