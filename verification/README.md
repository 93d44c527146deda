# Partner order delivery: a verified model

An order system passes partner events (CREATE, CHANGE, CANCEL of an order) to sellers over HTTP. Several
instances of the partner integration share one database and may crash, stall, lose responses and see
records again at any point; the source of the events and the seller keep books of their own. This project
models the parts whose correctness depends on each other and proves what they guarantee together.

**Inbox delivery.** `DeliveryProtocol` is one global state (inbox rows, permits, retry admissions, the
delivery ledger, offsets, workers of all instances, HTTP requests in flight, the seller's ledger, the
database clock) and 23 kinds of atomic steps. A transaction is one step, except the recording transaction,
which locks its row, reads the ledger and writes it in three, because only the row is locked. The invariant
is in `DeliveryInvariant`, its proof step by step in `DeliverySteps`, what follows for every run in
`DeliveryTheorems`, what a claim may take and how long a row waits in `ClaimTheorems`, what becomes of one row over
a run in `RowHistories`, what leases and permits are worth in `LeaseTheorems` and `LateRenewals`, when the seller
answers 409 in `ConflictRuns` and when its answer is lost in `LostAnswers`, that nothing ever gets stuck in
`DeliveryProgress` and `DrainRuns`, and when the end-state checker accepts a settled run in `QuiescentRuns`.

**Instances.** `InboxRepository`, `Processor`, `LeaseKeeper`, `WorkerDispatcher`, `WorkerExecutor`,
`PartnerListener`, `SellerLedger`, `AsyncPendingQueue`, `AdmissionPolicy`, `RollingWindowBudget`,
`CompletionRelay`, `Obligations` and `Orders` are the objects of the program as classes. Each method is proved
against a function of the state before, and what that function tells and writes is said once more without it: column
by column and outcome by outcome in `TableWrites`, `SellerLemmas` and `AcceptanceTheorems`, for the others beside
their classes. `RepositoryRefinement`, `DispatchRuns`, `ClaimedRuns` and
`CompletionRelay` prove that what those functions do to the tables is what runs of the protocols do.

**Budgets and their measures.** `Sweep` and `WindowPeak` prove the offline sweeps of the isolation checker
against their definitions; `Binary64` derives the one rounding that matters to them. `AdmissionPolicy` and
`RetryBudgetMeasured` prove that what the program admits is measured as within its limits.

**Source and completions.** `OrderSource` is the source's state machine, `CompletionProtocol` the way a
delivery is reported back to a source with or without a quota, `QuotaTheorems` the per-seller quota. `EndToEnd`
joins source and delivery: the seller applies to every order a prefix of the requests the source made for it, which
`OrderContents` proves to say what its users asked for, and once all are delivered both ends hold the same order.
`ReportedDelivery` joins delivery and completion: a closed obligation means that the seller applied its event.

## What is assumed

- An event id stands for one payload, and no two events of an order carry the same sequence; sequences start
  at 1 (`Domain.WellNumbered`). `EndToEnd.SourceFeedsProtocol` proves this of every event the source makes.
- The database clock never goes back. It may advance between two statements of one transaction, so a claim
  takes six readings (`InboxTables.ClaimClock`).
- MySQL fixes `NOW()` when a statement starts, so a statement that waits for a row lock is judged at an older
  reading than the row it then finds. Renewals, locks, completions and give backs may be judged at any earlier
  reading, and so may the permits of a claim. The statement that takes a row skips locked rows, so it never waits.
- Permit count, retry budget and capacity limits are the same on every instance.
- The two statements that renew one claim are one step; `LeaseKeeper` runs them without a transaction, and
  the permit bound needs the pair.
- The cache of sellers whose permits exist may be wrong: a claim with a cached seller sees the permits as they are.
  Liveness is stated for claims that look.
- A tracked event reaches the partner only after the source has opened its obligation
  (`ReportedDelivery.CanStep`); both are written in one source transaction.

## What turned out false

- `max_in_window` subtracts 1e-9 from `t + window` in binary64 to leave the far end of the window out. For
  `t + window` above 2^24 the subtraction is lost to rounding, so with a clock in epoch milliseconds the
  window counts both ends and an honest history (a full budget at `t`, one more at `t + window`) is measured
  as over budget. `WindowPeak.FaithfulExactlyOnSmallClocks` says exactly when the measure agrees.
- The limit of 200 unfinished operations bounds what the database counts. With a retention period for sent
  outbox rows, requests deleted before their delivery are no longer counted, and any number can be unfinished at
  once. `OrderTheorems.LimitHoldsExactlyWithoutRetention` says so in both directions.
- The per-seller quota is conserved exactly when no order has more than three operations (or the quota is
  too small to accept any order): a fourth delivery returns a share that was never reserved, which the
  clamp at 0 hides. `QuotaTheorems.QuotaIsConservedExactly`.
- A lost claim does not always stay lost, and permits do not always bound the running claims: a renewal that
  waited for the row lock of a recording transaction extends a lease that has meanwhile run out, even when its
  permit slot has gone to another claim. `LeaseTheorems.TokenNeverHoldsAgain` and
  `LeaseTheorems.ClaimsStandOnTheirSlots` say that nothing else breaks either guarantee, over every run, and
  `LateRenewals.OverbookingIsReachable` is a run that does. No delivery is recorded twice or out of order
  because of it.
- The slot of an operation is not always released: when the pool refuses a claimed row and giving it back
  fails, the exception leaves the pass before the release (`WorkerPool.WorkerDispatcher.DispatchInbox`). A stop
  alone does not get there, because passes and stops exclude each other and a stopped dispatcher makes no pass; it
  takes a start after a stop, which finds the old pool still shut down. `WorkerExecutor.SubmitIsAccepted` and
  `WorkerExecutor.NothingIsStuck` say so of every run, and `WorkerExecutor.RestartCanStrand` is such a run.
- A retry after a lost response is not always answered 200: over a run some answer is 409 exactly when some
  decision skipped the idempotency key of an event already applied. Order and at-most-once survive that.
  `ConflictRuns.ConflictExactlyWhenKeyIgnored`, with runs that get there in `ConflictRuns.ConflictIsReachable`.

## Model

| member | source | states |
|---|---|---|
| DeliverySteps.StepKeepsInv | partner-integration-service/src/main/java/com/ordersystem/partner/processing/PartnerOrderProcessor.java:54-97 | every step of every instance, of the seller, of time and of the janitor keeps the whole invariant, whatever the interleaving |
| DeliveryTheorems.SellerIsNeverAheadByTwo | partner-integration-service/src/main/java/com/ordersystem/partner/processing/PartnerOrderProcessor.java:68-93 | in every run, under any mix of fault policies, the seller's last sequence of an order is the internal one or one more; the seller applied 1..n of every order in that order, and no event twice |
| ConflictRuns.ForgetfulSellerConflicts | experiments/mock-partner-api/server.py:190-199 | a seller that skips the idempotency key answers 409 exactly when the request is not the next of its order, in particular to every copy of an applied event |
| ConflictRuns.ConflictExactlyWhenKeyIgnored | experiments/mock-partner-api/server.py:188-204 | over every run and any fault policies, some request is answered 409 if and only if some decision disregarded the key of an event already applied |
| ConflictRuns.ConflictIsReachable | partner-integration-service/src/main/java/com/ordersystem/partner/processing/PartnerOrderProcessor.java:54-97 | without the inbox, from every reachable state with an order that can move on, a redelivered record leads to such a 409 |
| ConflictRuns.ConflictIsReachableFromInbox | partner-integration-service/src/main/java/com/ordersystem/partner/dispatch/WorkerDispatcher.java:117-160 | with the inbox, from every reachable state with a row to deliver, a worker that dies after its call and the next claim lead to such a 409 |
| LeaseTheorems.TokenNeverHoldsAgain | partner-integration-service/src/main/java/com/ordersystem/partner/inbox/InboxRepository.java:183-221 | in every run, a token that has once stopped holding never holds again, through renewals, reclaims, purge and replay of the event, if and only if no renewal that waited for the row lock found its lease run out and was judged at an older reading at which it had not |
| LeaseTheorems.ClaimsStandOnTheirSlots | partner-integration-service/src/main/java/com/ordersystem/partner/inbox/InboxRepository.java:141-196 | in every state of a run, across all instances, each running claim stands on the permit slot that carries its token, if and only if no such renewal came after the slot was given away |
| DeliveryTheorems.EventsOnlyProgress | partner-integration-service/src/main/java/com/ordersystem/partner/inbox/InboxRepository.java:141-168 | a row's generation never falls, the ledger is never rewritten, a row disappears only when delivered, and a purged row never comes back |
| DeliveryTheorems.NoStaleOwnerRecords | partner-integration-service/src/main/java/com/ordersystem/partner/inbox/InboxRepository.java:198-213 | a delivery is recorded only under the newest token of its row |
| DeliveryTheorems.InboxAgreesWithLedger | partner-integration-service/src/main/java/com/ordersystem/partner/inbox/InboxRepository.java:66-93 | a DONE row is in the ledger; any other row is not, and its sequence lies above the last delivered one, so none is stranded; ledger sequences of an order are exactly 1..last |
| LeaseTheorems.PermitsBoundRunningClaims | partner-integration-service/src/main/java/com/ordersystem/partner/inbox/InboxRepository.java:141-168 | in every run without such a renewal the running claims of a seller stand on distinct slots, so there are never more of them than its permits |
| LateRenewals.OverbookingIsReachable | partner-integration-service/src/main/java/com/ordersystem/partner/inbox/InboxRepository.java:183-206 | from the empty tables on, a recording transaction that holds its row past the lease lets a second claim take the only permit, and the renewal that waited for the row then makes two running claims of one |
| LateRenewals.SomeRunOverbooks | partner-integration-service/src/main/java/com/ordersystem/partner/inbox/InboxRepository.java:183-196 | so in some valid configuration some run breaks both guarantees: a lost token holds again, and a seller has more running claims than permits |
| DeliveryTheorems.ReleaseFreesOnlyItsOwn | partner-integration-service/src/main/java/com/ordersystem/partner/inbox/InboxRepository.java:215-227 | releasing or giving back one token never frees the slot of another claim that holds |
| DeliveryTheorems.NothingAcknowledgedIsLost | partner-integration-service/src/main/java/com/ordersystem/partner/kafka/PartnerListener.java:82-110 | every offset below the committed one is stored or delivered |
| DeliveryTheorems.RowsStayWithinCapacity | partner-integration-service/src/main/java/com/ordersystem/partner/inbox/InboxRepository.java:86-89 | pending and retained rows never exceed their limits, through any mix of store, claim, complete and purge |
| DeliveryTheorems.RetryBudgetHoldsAcrossInstances | partner-integration-service/src/main/java/com/ordersystem/partner/inbox/InboxRepository.java:156-161 | over everything ever admitted no window of a seller's retries exceeds the budget, although time passes between count and insert and old admissions are deleted |
| BudgetLemmas.PurgeKeepsBudget | partner-integration-service/src/main/java/com/ordersystem/partner/inbox/InboxRepository.java:244-246 | deleting admissions ten windows old changes no count that any later claim can make |
| SellerLemmas.ConflictNeedsForgottenKey | experiments/mock-partner-api/server.py:190-203 | a request that passed the predecessor check carries an applied event or the seller's next one, so it is answered 503 by the fault policy, 409 only when the key of an applied event is skipped, and 200 otherwise; it is applied exactly when it is not yet and no failure is injected, and its answer is lost exactly when the policy drops it on a first arrival that is answered 200 |
| SellerLemmas.AnswerTells | experiments/mock-partner-api/server.py:188-204 | of any request whatever, kept to the protocol or not: 503, 409 and 200 each exactly by count, key, payload and place, and applied exactly when a 200 is not told by the key |
| SellerLemmas.EffectTells | experiments/mock-partner-api/server.py:199-204 | an applied request is in the effects under its id, the last of the log and the latest of its order, and nothing else changes in the books |
| LostAnswers.AtMostOneAnswerIsLost | experiments/mock-partner-api/server.py:190-212 | in every run, under any mix of fault policies and however often an event is sent, a lost answer is a 200, and no two requests of one event have theirs lost |
| IntakeLemmas.StoreAllIsExact | partner-integration-service/src/main/java/com/ordersystem/partner/inbox/InboxRepository.java:58-93 | a poll inserts exactly its distinct events that are neither stored nor delivered, as fresh rows, or nothing; no existing row changes |
| TableWrites.PollIsRefusedExactly | partner-integration-service/src/main/java/com/ordersystem/partner/inbox/InboxRepository.java:66-93 | a poll is refused exactly when its events that are neither stored nor delivered are one too many for the open rows or for all rows; otherwise each gets the row of its first record in the poll, pending, untried, with its partition, offset and time of arrival |
| DeliveryProgress.SettledRowIsClaimed | partner-integration-service/src/main/java/com/ordersystem/partner/inbox/InboxRepository.java:141-168 | once leases, retry times and the retry window have passed, and no open transaction has the row locked, the next row of an order is claimed if and only if it was never tried or the retry budget is positive |
| DeliveryProgress.InboxNeverSticks | partner-integration-service/src/main/java/com/ordersystem/partner/inbox/InboxRepository.java:105-134 | from every reachable state with an open row whose predecessors are stored or delivered, after the transaction that may have it locked has ended, some row of its order is offered by the ready query to whoever asks late enough, and claimed |
| DeliveryProgress.RecordingClosesOneRow | partner-integration-service/src/main/java/com/ordersystem/partner/inbox/InboxRepository.java:208-213 | recording a delivery always succeeds on a locked row and lowers the number of open rows by exactly one |
| DeliveryProgress.ListedExactlyWhenClaimable | partner-integration-service/src/main/java/com/ordersystem/partner/inbox/InboxRepository.java:114-121 | in every reachable state, a row may be listed by the query if and only if its seller is not skipped and a claim at that moment would be granted or meet a spent retry budget |
| DrainRuns.EverythingStoredCanBeDelivered | partner-integration-service/src/main/java/com/ordersystem/partner/dispatch/WorkerDispatcher.java:117-160 | from every reachable state, and under every fault policy that honours keys, however many failures it injects and whether or not it drops first answers, some continuation whose every claim takes a row that an answer of the query lists delivers every row whose predecessors are stored or delivered, and closes as many rows as it records deliveries |
| EffectChecker.Check | experiments/checker.py:8-62 | the checker reports no finding exactly when effects, ledger, per-order sequences and both final order tables match the expected input |
| EffectChecker.AcceptedRunsAgree | experiments/checker.py:8-62 | in an accepted run each planned event is in the effects and in the ledger once and nothing else is, the effects of each order are in sequence, no answer was 409, both order tables hold exactly the last planned operation of each planned order, and every compared column of every row is the same in any two accepted runs of one plan |
| QuiescentRuns.QuiescentRunIsAccepted | experiments/checker.py:8-62 | a run whose records are all acknowledged and whose rows are all done is accepted by the checker if and only if no decision of the seller disregarded the key of an applied event |
| InboxStore.NewRows | partner-integration-service/src/main/java/com/ordersystem/partner/inbox/InboxRepository.java:71-84 | the loop over a poll gathers one row per event that is neither stored, nor delivered, nor repeated inside the poll |
| InboxStore.InboxRepository.StoreAll | partner-integration-service/src/main/java/com/ordersystem/partner/inbox/InboxRepository.java:66-93 | the inbox becomes the specified one, or the whole poll is refused when its new rows do not fit |
| InboxStore.InboxRepository.EnsurePermits | partner-integration-service/src/main/java/com/ordersystem/partner/inbox/InboxRepository.java:170-176 | missing permits are created free, existing ones stay as they are, and a remembered seller is not looked at again |
| InboxStore.FindFree | partner-integration-service/src/main/java/com/ordersystem/partner/inbox/InboxRepository.java:144-148 | the slot taken is the free one with the lowest number, and none only when all are held |
| InboxStore.InboxRepository.Claim | partner-integration-service/src/main/java/com/ordersystem/partner/inbox/InboxRepository.java:141-168 | the answer and every table are those of the specified claim; `ClaimTheorems.AnswersTell` says what each answer means and `TableWrites.ClaimWrites` what is written |
| ClaimTheorems.AnswersTell | partner-integration-service/src/main/java/com/ordersystem/partner/inbox/InboxRepository.java:141-168 | each of the four answers says exactly what the claim found: full when every slot there is is held under a lease that reaches the reading; taken when the row is not there, locked, not the next of its order, pending before its retry time, or under way in a lease that reaches the reading; over budget when a tried row meets a spent window; claimed otherwise |
| TableWrites.ClaimWrites | partner-integration-service/src/main/java/com/ordersystem/partner/inbox/InboxRepository.java:141-168 | only a granted claim writes: token, attempt and full lease of the row, the lowest free slot under its own full lease, and one admission exactly for a row that was tried before; any other answer leaves nothing but permits that did not exist |
| TableWrites.PermitsAreEnsured | partner-integration-service/src/main/java/com/ordersystem/partner/inbox/InboxRepository.java:170-176 | the slots from 1 to the count exist, those that did not are free, and no other slot appears or changes |
| ClaimTheorems.LiveClaimIsNotTaken | partner-integration-service/src/main/java/com/ordersystem/partner/inbox/InboxRepository.java:141-168 | in no run does a claim take a row that another transaction has locked, that is pending before its retry time, or whose token holds at the reading of the row statement |
| ClaimTheorems.RetryTimeIsWaitedFor | partner-integration-service/src/main/java/com/ordersystem/partner/inbox/InboxRepository.java:216-221 | in every run a row that a failed attempt has given back stays as it was given back, through redelivery, stale owners, renewals and purges, and its next claim is granted to nobody before the retry time |
| RowHistories.ClaimHoldsForItsLease | partner-integration-service/src/main/java/com/ordersystem/partner/inbox/InboxRepository.java:164-206 | in every run a granted claim that nobody renews holds for exactly its full lease, unless its own worker finishes it or gives it back, and until then nobody else is granted the row within that lease |
| RowHistories.EveryRetryIsAdmitted | partner-integration-service/src/main/java/com/ordersystem/partner/inbox/InboxRepository.java:154-166 | in every run each row holds the event the topic has at its partition and offset, has been claimed as often as its generation says, and has spent one admission of the retry budget for every claim but the first |
| DeliveryTheorems.BudgetCountsEveryAdmission | partner-integration-service/src/main/java/com/ordersystem/partner/inbox/InboxRepository.java:157-160 | in every run what a claim counts in the table is everything ever admitted in its window, although old admissions are deleted: a refusal for the budget is right, not only safe |
| InboxStore.InboxRepository.Renew | partner-integration-service/src/main/java/com/ordersystem/partner/inbox/InboxRepository.java:183-196 | leases of valid claims are extended one after the other, and the claims returned are those that were not |
| InboxStore.InboxRepository.StillHolds | partner-integration-service/src/main/java/com/ordersystem/partner/inbox/InboxRepository.java:202-206 | true exactly when owner and generation match and the row is claimed under a lease that reaches the reading |
| InboxStore.InboxRepository.Complete | partner-integration-service/src/main/java/com/ordersystem/partner/inbox/InboxRepository.java:209-213 | the named row is done and its own permit free; another owner's row and permit are untouched |
| TableWrites.CompletionWrites | partner-integration-service/src/main/java/com/ordersystem/partner/inbox/InboxRepository.java:209-213 | the row that carries the token is done at the given time, without owner or lease, the rest of it as it was; no other row changes |
| RowHistories.DoneRowsAreKept | partner-integration-service/src/main/java/com/ordersystem/partner/inbox/InboxRepository.java:209-242 | in every run a recorded delivery leaves its row done at the time of the recording, and the row stays exactly so until a purge whose cutoff lies after that time |
| InboxStore.InboxRepository.GiveBack | partner-integration-service/src/main/java/com/ordersystem/partner/inbox/InboxRepository.java:216-221 | the row returns to pending only under a token that holds; the permit is freed only if it is this claim's |
| TableWrites.GiveBackWrites | partner-integration-service/src/main/java/com/ordersystem/partner/inbox/InboxRepository.java:216-221 | the row that carries the token, under way and in its lease, waits until the given time, without owner or lease, with its attempts and generation; no other row changes |
| InboxStore.InboxRepository.Release | partner-integration-service/src/main/java/com/ordersystem/partner/inbox/InboxRepository.java:224-227 | a permit is freed only while this very claim holds it |
| TableWrites.ReleaseWrites | partner-integration-service/src/main/java/com/ordersystem/partner/inbox/InboxRepository.java:224-227 | the slot that carries owner, event and generation of the token is emptied and keeps its generation; no other slot changes |
| InboxStore.InboxRepository.DeleteDoneBefore | partner-integration-service/src/main/java/com/ordersystem/partner/inbox/InboxRepository.java:240-242 | what leaves are completed rows from before the cutoff and nothing else, never more than the limit, and stopping short of the limit means that no scanned row of that kind is left |
| RepositoryRefinement.PollIsARun | partner-integration-service/src/main/java/com/ordersystem/partner/kafka/PartnerListener.java:82-110 | a poll through the listener is a run of the protocol: it ends with its events stored or delivered, its cursors moved and its offsets committed, or with everything as it was |
| RepositoryRefinement.ClaimIsTheStep | partner-integration-service/src/main/java/com/ordersystem/partner/inbox/InboxRepository.java:141-168 | the claim step writes the tables as the repository does, issues exactly the token it returns, and starts a worker only for a granted claim |
| RepositoryRefinement.RenewIsARun | partner-integration-service/src/main/java/com/ordersystem/partner/inbox/InboxRepository.java:183-196 | a renewal pass over any claims is a run of protocol steps, one per claim |
| RepositoryRefinement.RenewalIsExact | partner-integration-service/src/main/java/com/ordersystem/partner/inbox/InboxRepository.java:178-196 | with one claim per event, exactly the claims that did not hold when looked at are lost, and every other lease is extended by the full term |
| RepositoryRefinement.PermitsFollow | partner-integration-service/src/main/java/com/ordersystem/partner/inbox/InboxRepository.java:183-196 | and the permit of each of those claims is extended by the full term of its own statement, and of no other |
| RepositoryRefinement.PurgeIsTheStep | partner-integration-service/src/main/java/com/ordersystem/partner/inbox/InboxRepository.java:238-242 | from every reachable state, what the repository deletes is a purge step of the protocol, and every event it deletes is in the ledger |
| ReadyRows.EverySellerIsListed | partner-integration-service/src/main/java/com/ordersystem/partner/inbox/InboxRepository.java:99-121 | if eligible sellers times permits fit the limit, every eligible seller has a row in the list that none of its ready rows is older than |
| ReadyRows.ListedInOrder | partner-integration-service/src/main/java/com/ordersystem/partner/inbox/InboxRepository.java:114-121 | an answer is in the order of arrival, then offset, and lists no row twice |
| ReadyRows.UnlistedHasReason | partner-integration-service/src/main/java/com/ordersystem/partner/inbox/InboxRepository.java:114-121 | a row open to a claim is left out for two reasons only: the answer is as long as the limit, or holds as many rows of its seller as one seller may have, and none of those arrived after it |
| ReadyRows.ListIsFair | partner-integration-service/src/main/java/com/ordersystem/partner/inbox/InboxRepository.java:114-121 | no seller takes more than its permits of the list |
| ReadyRows.ListedIsClaimable | partner-integration-service/src/main/java/com/ordersystem/partner/inbox/InboxRepository.java:114-121 | a listed row, claimed while nothing moves, finds a free permit and is ready: only the retry budget can still refuse it |
| ReadyRows.CandidateExactlyWhenClaimable | partner-integration-service/src/main/java/com/ordersystem/partner/inbox/InboxRepository.java:114-121 | while nothing moves, the rows the query may list are exactly those of unskipped sellers whose claim would be granted or meet a spent retry budget |
| ReadyRows.FindReady | partner-integration-service/src/main/java/com/ordersystem/partner/inbox/InboxRepository.java:99-133 | each row becomes a task whose attempts and failures are the row's attempts and generation; on an answer of the query there are no more tasks than the limit, each of a row open to a claim |
| ReadyRows.QueryHasAnswer | partner-integration-service/src/main/java/com/ordersystem/partner/inbox/InboxRepository.java:114-121 | whatever the tables hold, some list satisfies the ranking per seller, the overall order and the limit of the query together |
| Processor.PartnerOrderRepository.RecordDelivery | partner-integration-service/src/main/java/com/ordersystem/partner/processing/PartnerOrderRepository.java:30-36 | effect and order row are written together, unless a unique key of the ledger is taken |
| Processor.PartnerOrderProcessor.Process | partner-integration-service/src/main/java/com/ordersystem/partner/processing/PartnerOrderProcessor.java:54-97 | the seller is called only for the next undelivered operation; what is recorded is decided on the tables as they are after the call; a report is written exactly when a delivery is recorded |
| TableWrites.ProcessingTells | partner-integration-service/src/main/java/com/ordersystem/partner/processing/PartnerOrderProcessor.java:54-74 | the seller is called exactly for an undelivered event that is next in its order; a delivered one completes its claim if that is under way and in its lease, and gives up the permit in both cases; a deferred one and a failed call write nothing |
| TableWrites.RecordingTells | partner-integration-service/src/main/java/com/ordersystem/partner/processing/PartnerOrderProcessor.java:75-95 | each of the five ways the recording ends is told exactly by the token, the ledger, the order row and the unique keys |
| TableWrites.RecordingWrites | partner-integration-service/src/main/java/com/ordersystem/partner/processing/PartnerOrderProcessor.java:75-95 | a failing recording writes nothing, a delivery recorded by another completes the claim only, and a new one writes effect and order row with it |
| ClaimedRuns.NoCallIsARun | partner-integration-service/src/main/java/com/ordersystem/partner/processing/PartnerOrderProcessor.java:54-71 | a claimed event that is delivered already, or whose predecessor is not, is a run of the protocol from the check to a completed or given back row, or one left to its lease when giving back fails, with the tables of the dispatcher's method |
| ClaimedRuns.CallStartsARun | partner-integration-service/src/main/java/com/ordersystem/partner/processing/PartnerOrderProcessor.java:54-74 | otherwise a run leads to the request on its way, with no table written |
| ClaimedRuns.FailedCallIsARun | partner-integration-service/src/main/java/com/ordersystem/partner/dispatch/WorkerDispatcher.java:196-208 | whatever others did meanwhile, a failed call goes on as a run that ends with the row given back if the token holds, or left to its lease if giving back fails as well |
| ClaimedRuns.RecordingIsARun | partner-integration-service/src/main/java/com/ordersystem/partner/processing/PartnerOrderProcessor.java:75-95 | undisturbed, the recording transaction is a run of lock, read and commit steps with the tables and the outcome of the method |
| ClaimedRuns.AcceptedCallIsARun | partner-integration-service/src/main/java/com/ordersystem/partner/dispatch/WorkerDispatcher.java:191-214 | an answer 200 goes on as a run that records the delivery, or ends stale, or gives the row back, or fails at that too, with the tables of the dispatcher's method |
| SellerLedgers.SellerLedger.Arrive | experiments/mock-partner-api/server.py:170-182 | a request with a foreign idempotency key is refused with 400 unseen; any other is counted and logged before it is decided |
| SellerLemmas.ArrivalTells | experiments/mock-partner-api/server.py:177-182 | an arrival counts its key once more, is logged without a status, and touches no book |
| SellerLedgers.SellerLedger.Decide | experiments/mock-partner-api/server.py:188-212 | status, dropped response and the new ledger are those of the specified decision; what they mean is in `SellerLemmas` and `LostAnswers` |
| SellerLedgers.RepeatedRequestAppliesNothing | experiments/mock-partner-api/server.py:170-212 | once an event is applied it stays in the log as often as it was through any arrivals and decisions under any policies, and whatever copy of its request is decided then leaves the books alone and is answered 503, 200, or 409 by a seller that skips the key |
| LeaseKeeping.LeaseKeeper.Untrack | partner-integration-service/src/main/java/com/ordersystem/partner/inbox/LeaseKeeper.java:48-50 | only this very claim is dropped; a newer one of the same event stays |
| LeaseKeeping.LeaseKeeper.Renew | partner-integration-service/src/main/java/com/ordersystem/partner/inbox/LeaseKeeper.java:56-68 | after a pass the running claims are those other threads left, without the lost ones |
| LeaseKeeping.OnlyLostClaimsAreDropped | partner-integration-service/src/main/java/com/ordersystem/partner/inbox/LeaseKeeper.java:56-68 | a running claim stays exactly if it held at its turn, and a claim tracked meanwhile always stays |
| WorkerPool.WorkerDispatcher.RunClaimed | partner-integration-service/src/main/java/com/ordersystem/partner/dispatch/WorkerDispatcher.java:191-214 | for every outcome all tables are the stated ones: delivered and already delivered complete the row, failures give it back under the token unless that fails too, a stale owner writes nothing; the admission is released once and the renewal stops |
| TableWrites.RunEnds | partner-integration-service/src/main/java/com/ordersystem/partner/dispatch/WorkerDispatcher.java:191-214 | a deferral, a failed call and a recording that fails over the ledger give row and permit back, unless that fails too; any other outcome leaves the tables as the processing left them |
| WorkerPool.WorkerDispatcher.Dispatch | partner-integration-service/src/main/java/com/ordersystem/partner/dispatch/WorkerDispatcher.java:122-159 | a candidate is handed over exactly when it is admitted and claimed and the pool is not stopping; tables and permit cache are stated for every way out, a pool that refuses leaves the claim's attempt, generation and retry admission spent, and if giving back then fails the pass ends with the operation still admitted |
| DispatchRuns.RefusalIsARun | partner-integration-service/src/main/java/com/ordersystem/partner/dispatch/WorkerDispatcher.java:153-158 | a claimed row whose task the pool refuses is given back by a run of the protocol, or left to its lease when that fails |
| DispatchRuns.DispatchIsARun | partner-integration-service/src/main/java/com/ordersystem/partner/dispatch/WorkerDispatcher.java:122-159 | from every state of the protocol, a candidate's whole way through the dispatcher is a run that ends with the tables of the method, and with a worker at the event exactly when it was handed over |
| WorkerPool.WorkerDispatcher.DispatchInbox | partner-integration-service/src/main/java/com/ordersystem/partner/dispatch/WorkerDispatcher.java:117-160 | a pass looks at no more than four candidates per free worker and at none without a free worker; exactly what it handed over, all of idle orders, joins the running operations, besides at most one that a failing give back left behind while the pool was stopping |
| WorkerPool.WorkerDispatcher.DispatchOnce | partner-integration-service/src/main/java/com/ordersystem/partner/dispatch/WorkerDispatcher.java:91-99 | a stopped dispatcher does nothing; a running one that was not started again after a stop makes a pass that no refusal can end |
| Listening.PartnerListener.ReceiveBatch | partner-integration-service/src/main/java/com/ordersystem/partner/kafka/PartnerListener.java:82-110 | a poll is acknowledged only when all its events are stored or delivered and capacity holds; a malformed record or a full inbox changes no table |
| Listening.AdvancedIsBehindAll | partner-integration-service/src/main/java/com/ordersystem/partner/kafka/PartnerListener.java:85-91 | the received offset of a partition is the first behind everything seen of it, however records and partitions are mixed, and never goes back |
| Sweep.MaxOverlap | experiments/isolation/check.py:40-51 | the result is the maximum over all instants of the number of half-open intervals open there |
| Sweep.TimeAbove | experiments/isolation/check.py:54-62 | the result is the number of integer instants at which more than the limit are open |
| WindowPeak.MaxInWindow | experiments/isolation/check.py:65-71 | the result is the most times any position of the window counts, the window's end being computed and rounded as in binary64 |
| WindowPeak.SmallClockIsExact | experiments/isolation/check.py:65-71 | up to a clock of 2^24 ms the result is within the budget exactly when every half-open window is |
| WindowPeak.FaithfulExactlyOnSmallClocks | experiments/isolation/check.py:69-69 | on clocks that end a window before 2^53 every honest history is measured as within budget if and only if the clock has not passed 2^24 ms, or not a whole window, or nothing is admitted |
| WindowPeak.MeasuredOverBudget | experiments/isolation/check.py:69-69 | the honest history that is measured as over budget on a later clock |
| Binary64.LostAbove | experiments/isolation/check.py:69-69 | for 2^24 < n <= 2^53 the float nearest to n - 1e-9 is n, and no other number is |
| Binary64.KeptBelow | experiments/isolation/check.py:69-69 | for n <= 2^24 every nearest float to n - 1e-9 lies below n, by at most 1 |
| Binary64.EndIsLastCounted | experiments/isolation/check.py:69-69 | so an arrival at the window's end is counted exactly above 2^24 |
| Binary64.EpsilonIsNearest | experiments/isolation/check.py:69-69 | the double that 1e-9 is written for is the float nearest to it |
| RetryBudgetMeasured.HistoryIsWithinBudget | partner-integration-service/src/main/java/com/ordersystem/partner/inbox/InboxRepository.java:156-161 | whatever a run of the protocol admitted is within budget in every half-open window |
| RetryBudgetMeasured.RunPassesTheMeasure | experiments/isolation/check.py:65-71 | so the measure of a run is within budget on every clock that the measure treats exactly |
| RetryBudgetMeasured.RunPassesAShorterMeasure | experiments/isolation/check.py:65-71 | and on any clock when measured with a window one millisecond shorter |
| RollingBudget.RollingWindowBudget.TryAcquire | partner-integration-service/src/main/java/com/ordersystem/partner/dispatch/RollingWindowBudget.java:19-25 | grants exactly when fewer than the limit of all earlier grants of the key lie in the window, although expired ones are dropped |
| RollingBudget.PruningIsExact | partner-integration-service/src/main/java/com/ordersystem/partner/dispatch/RollingWindowBudget.java:21-21 | what is left after pruning is exactly what the window of the whole history holds |
| RollingBudget.GrantKeepsBudget | partner-integration-service/src/main/java/com/ordersystem/partner/dispatch/RollingWindowBudget.java:22-23 | a grant that finds room leaves every window of the whole history within the limit |
| AdmissionControl.AdmissionPolicy.TryAdmit | partner-integration-service/src/main/java/com/ordersystem/partner/dispatch/AdmissionPolicy.java:58-74 | the answer is the one told from the trace of earlier admissions and releases; a refusal changes nothing, so only an admission spends retry budget |
| AdmissionControl.AnswerTells | partner-integration-service/src/main/java/com/ordersystem/partner/dispatch/AdmissionPolicy.java:58-74 | each of the seven answers is told exactly by the operations running, the events finished, the clock and the retries admitted in the window |
| AdmissionControl.AdmissionPolicy.MarkFinished | partner-integration-service/src/main/java/com/ordersystem/partner/dispatch/AdmissionPolicy.java:76-79 | the finished events are remembered each once, oldest dropped first |
| AdmissionControl.AdmissionPolicy.Release | partner-integration-service/src/main/java/com/ordersystem/partner/dispatch/AdmissionPolicy.java:81-85 | active count, key set and seller counts stay those of the trace |
| AdmissionControl.FinishedIsRemembered | partner-integration-service/src/main/java/com/ordersystem/partner/dispatch/AdmissionPolicy.java:76-79 | a finished event is refused until as many others as the limit have finished |
| AdmissionControl.LatestAreRemembered | partner-integration-service/src/main/java/com/ordersystem/partner/dispatch/AdmissionPolicy.java:76-79 | of distinct events that finish one after another exactly the latest are remembered, as many as the limit |
| AdmissionControl.RepeatedKeepsItsPlace | partner-integration-service/src/main/java/com/ordersystem/partner/dispatch/AdmissionPolicy.java:76-79 | an event that finishes again keeps its place |
| AdmissionControl.PolicyPassesTheSweep | experiments/isolation/check.py:40-51 | every trace of the policy, as intervals, peaks at no more than the workers in total, one per order, and the cap per seller whose admissions were capped |
| AdmissionControl.PolicyKeepsRetryBudget | partner-integration-service/src/main/java/com/ordersystem/partner/dispatch/AdmissionPolicy.java:69-70 | admitted retries of a seller are within the budget in every window of the whole trace, and measured so on any clock with a window one millisecond shorter |
| WorkerExecutor.SubmitIsAccepted | partner-integration-service/src/main/java/com/ordersystem/partner/dispatch/WorkerDispatcher.java:91-180 | over every interleaving of passes, hand-overs, threads, releases, stops and starts, a pool of as many threads and queue places as workers accepts an admitted operation if and only if it is not stopping, and that is if and only if the dispatcher was never started again after a stop |
| WorkerExecutor.NothingIsStuck | partner-integration-service/src/main/java/com/ordersystem/partner/dispatch/WorkerDispatcher.java:117-180 | without such a restart every admitted operation is in the hands of a pass, in the pool or released, in every state |
| WorkerExecutor.RestartCanStrand | partner-integration-service/src/main/java/com/ordersystem/partner/dispatch/WorkerDispatcher.java:153-180 | stop, start and one pass leave an operation admitted that nobody runs or releases |
| WorkerExecutor.PoolHoldsAdmittedOnly | partner-integration-service/src/main/java/com/ordersystem/partner/dispatch/WorkerDispatcher.java:190-214 | in every state the queue and the unreleased tasks are admitted operations, each once |
| WorkerExecutor.TaskExecutor.Execute | partner-integration-service/src/main/java/com/ordersystem/partner/dispatch/WorkerDispatcher.java:77-78 | a thread is started, else the task is queued, else it is refused, and nothing else changes |
| WorkerExecutor.QueueMovesOn | partner-integration-service/src/main/java/com/ordersystem/partner/dispatch/WorkerDispatcher.java:77-78 | in every run, whenever a task is queued there are as many threads as workers, the queue is within its size, and any of the threads can come to take the head |
| AsyncQueue.QueueIsExact | partner-integration-service/src/main/java/com/ordersystem/partner/dispatch/AsyncPendingQueue.java:25-56 | an order's queue is its arrivals in order, without those completed as its head and those whose partition was revoked since |
| AsyncQueue.CurrentUntilRevoked | partner-integration-service/src/main/java/com/ordersystem/partner/dispatch/AsyncPendingQueue.java:44-49 | a task is current exactly when its partition was not revoked since it arrived |
| AsyncQueue.QueuedIsCurrent | partner-integration-service/src/main/java/com/ordersystem/partner/dispatch/AsyncPendingQueue.java:48-56 | every queued task is current |
| AsyncQueue.AsyncPendingQueue.Add | partner-integration-service/src/main/java/com/ordersystem/partner/dispatch/AsyncPendingQueue.java:25-28 | the map follows the history: the task joins its order's queue under the current generation |
| AsyncQueue.AsyncPendingQueue.Heads | partner-integration-service/src/main/java/com/ordersystem/partner/dispatch/AsyncPendingQueue.java:30-34 | exactly the head of every order, one each, the order whose present queue began first in front |
| AsyncQueue.AsyncPendingQueue.Complete | partner-integration-service/src/main/java/com/ordersystem/partner/dispatch/AsyncPendingQueue.java:36-41 | only the head leaves, and no empty queue stays |
| AsyncQueue.AsyncPendingQueue.IsCurrent | partner-integration-service/src/main/java/com/ordersystem/partner/dispatch/AsyncPendingQueue.java:44-46 | true exactly when the task's partition was not revoked since it arrived |
| AsyncQueue.AsyncPendingQueue.Revoke | partner-integration-service/src/main/java/com/ordersystem/partner/dispatch/AsyncPendingQueue.java:48-56 | exactly the tasks of the revoked partitions leave, and no empty queue stays |
| Obligations.DeliveryObligations.Accept | order-service/src/main/java/com/ordersystem/order_service/delivery/DeliveryObligations.java:50-75 | answer, obligation, reserved quota and outbox row are the specified ones, together or not at all |
| AcceptanceTheorems.AnswerTells | order-service/src/main/java/com/ordersystem/order_service/delivery/DeliveryObligations.java:50-75 | an operation asked for again gets its first acceptance, a first operation is refused exactly when three more do not fit the quota, a later one exactly when the seller's order has no accepted first one |
| AcceptanceTheorems.RefusalOpensNothing | order-service/src/main/java/com/ordersystem/order_service/delivery/DeliveryObligations.java:53-62 | a refusal opens no obligation, reserves nothing and writes no request |
| AcceptanceTheorems.OutboxMirrorsTheBook | order-service/src/main/java/com/ordersystem/order_service/delivery/DeliveryObligations.java:63-75 | after any requests and reports the outbox holds exactly one request per accepted operation, the operation's own values dated with its acceptance |
| AcceptanceTheorems.AcceptanceIsFinal | order-service/src/main/java/com/ordersystem/order_service/delivery/DeliveryObligations.java:50-52 | an accepted operation is answered with the time of its acceptance for ever after, whatever is asked and reported in between and whatever becomes of the quota |
| Obligations.DeliveryObligations.Resolve | order-service/src/main/java/com/ordersystem/order_service/delivery/DeliveryObligations.java:78-83 | an open obligation is closed and returns one share; any later report changes nothing |
| AcceptanceTheorems.FirstReportCloses | order-service/src/main/java/com/ordersystem/order_service/delivery/DeliveryObligations.java:78-83 | the first report of an open operation closes it at its time, and no later one moves that time |
| QuotaTheorems.RunIsBalanced | order-service/src/main/java/com/ordersystem/order_service/delivery/DeliveryObligations.java:50-83 | with at most three operations per order, used is three per accepted order less the resolved ones, and unresolved <= used <= quota, under any repetition |
| QuotaTheorems.QuotaIsConservedExactly | order-service/src/main/java/com/ordersystem/order_service/delivery/DeliveryObligations.java:31-83 | that holds for every run if and only if no acceptable order has more than three operations or the quota fits none |
| QuotaTheorems.FourthOperationBreaks | order-service/src/main/java/com/ordersystem/order_service/delivery/DeliveryObligations.java:81-81 | the run of four operations of one order after which the books no longer balance |
| CompletionTheorems.ReportsAreNeverLost | partner-integration-service/src/main/java/com/ordersystem/partner/completion/CompletionRelay.java:47-77 | a recorded delivery keeps an unsent report until the broker has one, whoever relays it and however often; nothing else is reported |
| CompletionTheorems.ClosedOnceAfterDelivery | order-service/src/main/java/com/ordersystem/order_service/delivery/CompletionListener.java:56-61 | each obligation is closed at most once, and only if its event is in the ledger |
| CompletionTheorems.ChannelConservesQuota | order-service/src/main/java/com/ordersystem/order_service/delivery/DeliveryObligations.java:50-83 | with a quota and at most three operations per order the books balance in every state of the channel, with replays, crashes and repeated reports; without a quota nothing is ever reserved |
| CompletionTheorems.CommittedIsClosed | order-service/src/main/java/com/ordersystem/order_service/delivery/CompletionListener.java:59-60 | nothing below a committed offset is still open |
| CompletionTheorems.QuietIsSettled | order-service/src/main/java/com/ordersystem/order_service/delivery/CompletionListener.java:54-61 | once all is relayed and consumed, exactly the delivered obligations are closed |
| CompletionTheorems.EveryDeliveryCanBeClosed | partner-integration-service/src/main/java/com/ordersystem/partner/completion/CompletionRelay.java:53-55 | from every reachable state one live instance and the source suffice to close the obligation of a recorded delivery |
| CompletionRelay.CompletionOutbox.Record | partner-integration-service/src/main/java/com/ordersystem/partner/completion/CompletionOutbox.java:33-43 | one unsent report per event, owned by the writer; a report that exists stays as it is |
| CompletionRelay.RecordIsTheStep | partner-integration-service/src/main/java/com/ordersystem/partner/completion/CompletionOutbox.java:33-43 | with reporting on it is the reporting half of the protocol's delivery step, with reporting off nothing |
| CompletionRelay.RecordTells | partner-integration-service/src/main/java/com/ordersystem/partner/completion/CompletionOutbox.java:33-43 | a new report names event and seller, is dated with the delivery and unsent; an earlier one of the event and all others stay |
| CompletionRelay.RelayReads | partner-integration-service/src/main/java/com/ordersystem/partner/completion/CompletionRelay.java:53-72 | what a relay reads is unsent and its own or more than ten seconds old, and a report is deleted only when it was sent more than a minute ago |
| CompletionRelay.RelayMayRead | partner-integration-service/src/main/java/com/ordersystem/partner/completion/CompletionRelay.java:53-72 | and every such report may be read, and every such report deleted |
| CompletionRelay.Relay.Pass | partner-integration-service/src/main/java/com/ordersystem/partner/completion/CompletionRelay.java:48-77 | rows are marked, and old ones deleted, only after every send of the batch was acknowledged |
| CompletionRelay.AppendedTells | partner-integration-service/src/main/java/com/ordersystem/partner/completion/CompletionRelay.java:56-62 | each attempt that is not refused appends its own report to its partition, in turn, and nothing else |
| CompletionRelay.MarkedTells | partner-integration-service/src/main/java/com/ordersystem/partner/completion/CompletionRelay.java:63-68 | the reports of the pass get its time and no other report changes |
| CompletionRelay.PassIsARun | partner-integration-service/src/main/java/com/ordersystem/partner/completion/CompletionRelay.java:48-69 | a pass is a run of the protocol: select, send, then mark or drop |
| CompletionRelay.CompletionListener.ReceiveBatch | order-service/src/main/java/com/ordersystem/order_service/delivery/CompletionListener.java:56-61 | the whole batch is resolved before it is acknowledged |
| Orders.Order.TransitionTo | order-service/src/main/java/com/ordersystem/order_service/entity/Order.java:83-89 | only a pending order moves |
| Orders.OrderService.CountUnfinishedBusiness | order-service/src/main/java/com/ordersystem/order_service/outbox/OutboxEventRepository.java:12-13 | pending orders plus requests in the outbox that are not in the ledger |
| Orders.OrderService.CreateWithOutbox | order-service/src/main/java/com/ordersystem/order_service/service/OrderService.java:67-82 | order and announcement are saved together, exactly when both limits leave room |
| Orders.OrderService.EnqueuePartner | order-service/src/main/java/com/ordersystem/order_service/service/OrderService.java:122-144 | a failed capacity check leaves status, sequence and tables unchanged; otherwise the next number is taken and written |
| Orders.OrderService.Mutate | order-service/src/main/java/com/ordersystem/order_service/service/OrderService.java:112-120 | succeeds exactly on a confirmed order the partner knows of, with room, otherwise rolls back entirely; the new row and request are the specified ones, and `OrderContents.RequestsSayWhatWasAsked` says what they carry |
| Orders.OrderService.HandleStockUpdated | order-service/src/main/java/com/ordersystem/order_service/service/OrderConsumer.java:22-38 | a pending order is confirmed with its CREATE enqueued, or neither; a missing, repeated or late result changes nothing |
| Orders.OrderService.HandleStockUpdateFailed | order-service/src/main/java/com/ordersystem/order_service/service/OrderConsumer.java:40-55 | only a pending order is cancelled |
| OrderTheorems.RequestsAreNumbered | order-service/src/main/java/com/ordersystem/order_service/entity/Order.java:60-89 | the requests of an order are numbered 1..n without gaps and spell nothing, or CREATE CHANGE*, with a final CANCEL exactly when a known order was cancelled |
| OrderTheorems.SourceIsWellNumbered | order-service/src/main/java/com/ordersystem/order_service/service/OrderService.java:132-144 | the events of every run of the source have unique ids and places and valid values |
| OrderContents.RequestsSayWhatWasAsked | order-service/src/main/java/com/ordersystem/order_service/service/OrderService.java:112-144 | in every run the requests of an order are, word for word, what its creation, its stock result and the user's mutations amount to: a CREATE carries what was ordered, a CHANGE what its user named, a CANCEL what was agreed last, with seller and run of the order; and the order's row follows the same account, status included |
| OrderContents.LastRequestIsTheOrder | order-service/src/main/java/com/ordersystem/order_service/service/OrderService.java:112-144 | in every run the last request of an order carries the quantity, price, seller, run and number of its present row, and is a CANCEL exactly when the order is cancelled |
| OrderContents.NothingLeavesUnsent | order-service/src/main/java/com/ordersystem/order_service/service/OrderService.java:67-82 | every request and every announcement is in the outbox with the step that makes it, and stays there unsent through every run until the relay has marked it |
| OrderContents.OutboxStaysWithinLimit | order-service/src/main/java/com/ordersystem/order_service/service/OrderService.java:127-130 | in every run the outbox keeps to 2000 rows, sent ones included |
| OrderTheorems.CountedStaysWithinLimit | order-service/src/main/java/com/ordersystem/order_service/service/OrderService.java:122-135 | the counted unfinished work never exceeds 200, and misses exactly the requests whose rows were deleted undelivered |
| OrderTheorems.UnfinishedStaysWithinLimit | order-service/src/main/java/com/ordersystem/order_service/service/OrderService.java:67-82 | while rows are kept until delivery, pending orders plus undelivered requests never exceed 200 |
| OrderTheorems.LimitHoldsExactlyWithoutRetention | order-service/src/main/java/com/ordersystem/order_service/outbox/OutboxRelay.java:84-89 | the 200 bound on real unfinished work holds in every run if and only if no retention period is set |
| EndToEnd.SourceFeedsProtocol | order-service/src/main/java/com/ordersystem/order_service/service/OrderService.java:132-144 | what the delivery protocol takes for granted of its events holds for every run of the source |
| EndToEnd.SellerAppliesAPrefix | partner-integration-service/src/main/java/com/ordersystem/partner/processing/PartnerOrderProcessor.java:67-93 | whatever happens at the source and on the way, the seller applies to each order a prefix of the source's requests, in their order |
| EndToEnd.BothEndsAgree | order-service/src/main/java/com/ordersystem/order_service/service/OrderService.java:112-144 | once every request of an order is delivered, the partner's row and the seller's row of it both hold the quantity, price, number and last operation of the source's order, whatever its users did |
| ReportedDelivery.BothProtocolsRun | partner-integration-service/src/main/java/com/ordersystem/partner/processing/PartnerOrderProcessor.java:75-95 | with recordings that also write their reports, the partner's half is always a run of the delivery protocol, the channel's half a run of the completion protocol, and both hold the same ledger |
| ReportedDelivery.EveryDeliveryRunIsReported | partner-integration-service/src/main/java/com/ordersystem/partner/completion/CompletionOutbox.java:32-43 | every run of the delivery protocol over accepted events is the partner's half of such a run |
| ReportedDelivery.ClosedMeansApplied | order-service/src/main/java/com/ordersystem/order_service/delivery/CompletionListener.java:56-61 | an obligation that the source has closed stands for exactly one application of its own event at the seller |

## Left out

- Kafka, Spring, JDBC, HTTP, JSON and the circuit breaker as programs: their faults appear as steps (a partition read again from an older offset, a transaction that rolls back, a request that arrives late or whose answer is lost, a refusal by the breaker), their inner workings do not.
- What the seller writes to SQLite: the theorems speak of the books its decisions are taken on, so they say nothing about a seller that restarts from its file.
- How many HTTP requests a seller sees at once: the permit theorems count running claims in the database, and a worker whose lease is gone may still be waiting for its answer.
- The asynchronous dispatcher's loop over heads: the queue itself is proved exact, but nothing is claimed about a head that completes between being listed and being admitted.
- The retry topic, the bucket and parallel-consumer modes, `RetryLane` and `RetryAdmission`: their ordering rests on the ledger guard, which the protocol covers in its claimless form.
- Circuit-breaker permissions: their balance is not modelled.
- `RetryBackoff`, notification and inventory services, tracing, metrics, configuration, experiment runners: they would only add easy members.
- The direct-publish path of order creation, used when the outbox is off: it has no capacity check to prove anything about.
- Which claims an instance renews: the protocol lets any issued token be renewed at any time, which includes what the lease keeper does.
- Slots numbered above the permit count: with the same limit on every instance none exist, so a claim looks at slots 1 to the count.
- EffectChecker.Check: reports one finding per mismatching row where the script reports one per field, so only emptiness of the findings agrees.
- ReadyRows.FindReady: which of the possible answers the database gives is a parameter; `Answers` says what they may be, ties included.
- InboxStore.InboxRepository.DeleteDoneBefore: the order in which the database scans the rows is a parameter; it decides which old rows fall under the limit.
- WindowPeak.FaithfulExactlyOnSmallClocks: clocks whose windows end beyond 2^53 are left open; integers there are no longer floats of their own.
- WindowPeak.MaxInWindow: says nothing of times below 0 or of windows that end beyond 2^53.
- A worker that is shut down in the middle of a task: the pool stops taking tasks, and what it has taken runs to its end or dies with the instance.
- `markDone` and `scheduleRetry` of the inbox: writes without a token, made only for deliveries that carry no claim.
- The listener that stores one record at a time: a poll of one record.
- Prices are real numbers and identifiers integers that are only compared; formats, lengths and finiteness of values are not modelled.
- The routing key, padding and schema version of an event: nothing decides on them.
- Obligation backlog and its gauges: read-only reporting.
