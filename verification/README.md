# A verified model of the library's distributed borrowing system

The library lends books across three bounded contexts: Catalog (books and the borrow operations), Lending
(loans) and Patron. They share one PostgreSQL database and one session factory, but each owns its tables and
no transaction writes the tables of two of them. A book is reserved under a semantic lock, Lending reacts
with a tentative loan, Catalog confirms the borrow or Lending cancels the loan; the contexts are tied together
only by outbox events that may be redelivered, delayed and interleaved. Around that saga stand the machines
that make it safe to run: optimistic locking and a per-patron fence, idempotency receipts, a lease inbox,
bounded retries, a reservation reaper, a zero-downtime rebuild of the search index, a generation-fenced cache,
keyset pages and a circuit breaker.

This project states what those machines promise and proves it for every run, every interleaving and every
input. `dafny verify dfyconfig.toml` checks all of it.

## How it is built

| file | what it holds |
|---|---|
| Shared | identities, events, errors, results |
| Catalog, Lending, Patrons | the aggregates: transition functions with their laws, and the mutable entities proved against them |
| Saga | the step system: every command and worker transaction, with the log, over the tables of all three contexts |
| SagaSafety, SagaSteps, SagaTheorems | the inductive invariant and its preservation by each transaction |
| SagaEvolution, SagaQuiescence, SagaDraining, SagaConservation, SagaRuns | what never comes back, agreement at rest, termination, balance, and the theorems over whole runs |
| SagaCommands, SagaAdmission | what each transaction demands and leaves, read off the rows; who may borrow, and what a suspension does to every run |
| SagaReplay | the outbox alone determines every book and loan row |
| SagaAgreement | agreement at rest without any delivery order: the schedules that reach it, exactly |
| SagaDelivery | the saga fed by consumer groups: why first handling is ordered |
| Workflow | the command and event handlers as imperative code over the stores, with the kept answers of client commands; each equal to saga steps |
| Retries | client commands sent twice under one idempotency key |
| Transactions, TransactionProofs, TransactionAdmission, TransactionRows | the same commands split into load, lock, read and commit, interleaved; they refine the saga |
| UnitOfWork, Receipts | identity map, outbox staging, atomic commit; idempotent commands |
| Reaper | expiry batches and the drain loop |
| Reindex, ReindexProofs, ReindexStraddle, ReindexConvergence, ReindexScan | the rebuild protocol with dual writes, its invariant, exactly which schedules go wrong, when none does, and its sequential pieces |
| Cache | readers, writers and generation increments sent, landed and answered one at a time; which calls are fresh, exactly |
| Inbox, Dispatch, KafkaRetry | leases and tokens, the dispatcher, the retry loop and committed offsets |
| CircuitBreaker | the sliding window and the trip rule against a history |
| Paging, PagingChanges | pages that follow a cursor, over still and over changing tables |

A protocol is a state, a set of steps with guards, and lemmas about every run. A class is proved against
functions of its old state, and the laws are lemmas about those functions: what each accepts, refuses, leaves and
announces is also stated on the fields themselves, and over whole runs. Times are integers (microseconds for
the domain, milliseconds for the rebuild) or reals where durations are added up.

## What turned out not to hold, and exactly when it does

- **Rebuild.** The comments promise that the delete marker prevents resurrection during an alias rebuild.
  It does not when a partition moves, inside the one-second window, from a consumer that already mirrors
  into the new index to one still using an older target list: the delete then misses the new index, whose
  copy of the row survives the swap (`ReindexConvergence.HandOverCanResurrect`). Behind the swapped alias an
  acknowledged row is wrong if and only if the row had been mirrored into the new index and its delete was
  acknowledged although none of its writes had reached that index (`ReindexStraddle.RebuildIsExact`); such a
  delete was always handled with a target list from before the registration (`StraddlingIsUnmirrored`). All rows
  are right if no row changes hands in that window (`ReindexConvergence.RebuildConverges`). Any grace period of
  at least the window is allowed.
- **Pages.** The cursor carries `title.lower()` as Python computes it, while the database orders by its own
  `lower()`. Where they disagree rows can be skipped or repeated (`PagingProofs.DisagreementSkipsARow`). Every walk
  is right if and only if each row's cursor divides the other rows as the row itself does, over a table that
  stands still (`PagingIsExact`) and over one that changes between pages (`PagingChanges.ChangesAreExact`).
- **Cache.** A failed generation increment guards readers of its own process only
  (`CacheExactness.FailedBumpIsLocal`), and not even those while an earlier increment of the process has landed and
  its answer is still on the way: that answer makes the process take itself for safe
  (`CacheExactness.RecoveryCanOvertake`). No later call of a process can miss a write if and only if nothing older is
  stored or about to be stored under the current generation, or the process knows itself unsafe and is owed no
  such answer (`CacheExactness.ProtectionIsExact`).
- **Inbox.** The constructor accepts any lease of at least one second; executions never overlap if and only if
  the lease is longer than the processing bound (`NoOverlap`, `ShortLeaseOverlaps`). The shipped values satisfy it.
- **Agreement at rest** can fail when a completion is handled before its creation
  (`SagaRuns.UnorderedDeliveryCanDisagree`); safety cannot. In whatever order events were handled, the contexts agree
  at rest if and only if for every loan that was lent out and completed some return ran after the confirmation that
  lent the book (`SagaAgreement.AgreementIsExact`). Keyed partitions and settled prefixes give that order, through
  crashes and rebalances (`SagaDelivery.DeliveryIsOrdered`), so the deployed system agrees (`DeliveredAgreement`).
- **Dead letters.** Only a consumer that retries forever keeps durable transitions off the dead-letter topic whatever
  happens, as the workflow consumer does. On any other, such as the notification consumer, a durable transition is
  parked if and only if no invocation succeeded, the last one timed out and the parking got through: the timeout cancels the message
  from outside, past the place that marks its errors as durable (`Dispatch.DurableParkedExactly`,
  `Dispatch.HangingDurableIsParked`).
- **Circuit breaker.** A limit of zero half-open calls still admits one probe when the circuit half-opens
  (`CircuitBreaker.ZeroLimitAdmitsOneProbe`); for every limit of at least one the probes in flight stay within it
  (`CircuitBreaker.Breaker.Acquire`). A failure divides by zero exactly if it is counted, found the circuit closed,
  stays below the consecutive threshold, and meets a window that is empty and has no positive minimum
  (`CircuitBreaker.Breaker.HandleFailure`, `CircuitBreaker.ZeroMinimumDivides`).
- **Unit of work.** A failed commit rolls the session back but keeps the changed ids and the bumped versions in
  memory, so a second commit of the same unit publishes events without their rows (`UnitOfWork.CommitAfterFailure`).
  No handler commits twice in one unit; the interface allows it. Where every change bumped its version, a successful
  commit leaves each announced row in the table if and only if no commit of the unit has failed since it was changed
  (`Whole` in `UnitOfWork.UnitOfWork.Commit`).

## Model

| member | source | states |
|---|---|---|
| `Catalog.ReactKeepsShape` | src/domain/catalog/entities/catalog_book.py:122-176 | every transition of a valid book yields a valid book, moves only along AVAILABLE → RESERVED → BORROWED/AVAILABLE → AVAILABLE, and bumps the generation on reservations only |
| `Catalog.AcceptedExactly` | src/domain/catalog/entities/catalog_book.py:189-412 | for each message, on the fields of the book: when it is accepted, when it is a no-op, and which error it gets otherwise |
| `Catalog.AcceptedLeaves` | src/domain/catalog/entities/catalog_book.py:189-412 | every field of the book after an accepted message, and every field of the event it announces |
| `Catalog.RedeliveryIsIdempotent` | src/domain/catalog/entities/catalog_book.py:242-307 | a message applied once changes nothing when it is delivered again |
| `Catalog.SupersededClaimIsDeadForever` | src/domain/catalog/entities/catalog_book.py:414-435 | after any run of messages, a claim of an older generation can no longer change the book |
| `CatalogEntities.Book.FromRow` | src/domain/catalog/entities/catalog_book.py:71-120 | of a row with a valid shape, the hydrated object is the row, with no events pending |
| `CatalogEntities.Hydrate` | src/infrastructure/adapters/catalog/book_model.py:117-137 | loading a book succeeds exactly for rows whose status, dates and correlation belong together, spelled out field by field, and then gives that row; any other row raises |
| `CatalogEntities.Book.Reserve` | src/domain/catalog/entities/catalog_book.py:189-240 | in-place reservation: new state, one event and the answer are those of the transition; nothing changes on an error |
| `CatalogEntities.Book.ConfirmBorrow` | src/domain/catalog/entities/catalog_book.py:242-307 | in-place confirmation, with its no-op on exact redelivery and its stale and invalid-period errors |
| `CatalogEntities.Book.Release` | src/domain/catalog/entities/catalog_book.py:309-346 | in-place release, with its no-op when already released and its stale error |
| `CatalogEntities.Book.ReturnBook` | src/domain/catalog/entities/catalog_book.py:348-412 | in-place return, with its no-op, stale-completion and correlation errors |
| `Lending.ReactKeepsShape` | src/domain/lending/entities/loan.py:160-251 | a transition keeps the loan valid and its facts fixed, never shortens the due date, and reaches RETURNED or CANCELLED only by return or cancel |
| `Lending.AcceptedExactly` | src/domain/lending/entities/loan.py:160-251 | for each message, on the fields of the loan: when it is accepted, when it is a no-op, and which error it gets otherwise |
| `Lending.AcceptedLeaves` | src/domain/lending/entities/loan.py:160-251 | every field of the loan after an accepted message, an extension counted in days of 86,400 seconds, and every field of the event it announces, lateness included |
| `Lending.OpenedUnderTerms` | src/domain/lending/value_objects/borrowing_policy.py:16-24 | 5, 10 or 20 loans for 14, 21 or 30 days by tier, and every field of the loan and event opened under them |
| `Lending.TerminalIsAbsorbing` | src/domain/lending/entities/loan.py:160-209 | a returned or cancelled loan is unchanged by any run of messages |
| `Lending.RunKeepsFacts` | src/domain/lending/entities/loan.py:211-251 | over any run the claim and borrow time are fixed and the due date only moves forward |
| `Lending.DueDateAddsUp` | src/domain/lending/value_objects/lending_vo.py:74-95 | over any run a loan is due its term after borrowing plus the days of every extension granted, and nothing else |
| `LendingEntities.Hydrate` | src/domain/lending/entities/loan.py:62-97 | loading a loan succeeds exactly for rows whose status, return date, dates and generation belong together, spelled out field by field, and then gives that row |
| `LendingEntities.Loan.ReturnBook` | src/domain/lending/entities/loan.py:160-185 | in-place return with its no-op and its errors |
| `LendingEntities.Loan.Cancel` | src/domain/lending/entities/loan.py:187-209 | in-place cancellation with its no-op and its errors |
| `LendingEntities.Loan.MarkAsOverdue` | src/domain/lending/entities/loan.py:211-231 | in-place overdue mark with its errors |
| `LendingEntities.Loan.Extend` | src/domain/lending/entities/loan.py:233-251 | in-place extension of the due date with its errors |
| `Patrons.LimitNeverShrinks` | src/domain/patron/entities/patron.py:138-149 | no patron command lowers the number of loans Lending allows, nor touches the email |
| `Patrons.AcceptedExactly` | src/domain/patron/entities/patron.py:112-149 | for each command: when it is accepted, and which error it gets otherwise |
| `Patrons.AcceptedLeaves` | src/domain/patron/entities/patron.py:112-149 | after an accepted suspension the patron is suspended with exactly that reason, after a reinstatement not at all, after an upgrade on exactly that tier; nothing else changes; the event says the same |
| `Patrons.RunKeepsStanding` | src/domain/patron/entities/patron.py:112-149 | over any run of commands a patron has a reason on record exactly while suspended, and its tier and lending limit never fall |
| `PatronEntities.Patron.Suspend` | src/domain/patron/entities/patron.py:112-127 | in-place suspension with its reason and one event; refused when already suspended, then for an unusable reason |
| `PatronEntities.Patron.Reinstate` | src/domain/patron/entities/patron.py:129-136 | in-place reinstatement, the reason dropped and one event recorded; refused when not suspended |
| `PatronEntities.Patron.UpgradeTier` | src/domain/patron/entities/patron.py:138-149 | in-place upgrade, strictly upwards, announcing nothing |
| `Workflow.Stores.BorrowBook` | src/application/command_handlers/borrow_book.py:73-149 | a kept answer is replayed to the same request and refused to another one, changing nothing; otherwise book row, operation row, event and receipt are committed together, or an error and nothing; a success under a key is on file for exactly that request and no other answer is touched |
| `Workflow.Stores.ConfirmBookBorrow` | src/application/command_handlers/confirm_book_borrow.py:42-78 | book and operation row move together with one event; a no-op and every error leave all stores alone |
| `Workflow.Stores.ReleaseBookReservation` | src/application/command_handlers/release_book_reservation.py:37-73 | release of the exact reservation with its operation row, or nothing |
| `Workflow.Stores.ReturnBook` | src/application/command_handlers/return_book.py:48-95 | catalog return with its operation row, or nothing |
| `Workflow.Stores.CreateLoan` | src/application/command_handlers/create_loan.py:78-181 | replay lookup, admission checks in their order, insert with event; or the first error that applies |
| `Workflow.Stores.CancelLoan` | src/application/command_handlers/cancel_loan.py:42-92 | cancellation by exact correlation; missing and otherwise terminal loans are no-ops |
| `Workflow.Stores.ReturnLoan` | src/application/command_handlers/return_loan.py:50-102 | a kept answer is replayed to the same request and refused to another one, changing nothing; otherwise loan, event and receipt together (on a repeated return the receipt alone), or an error and nothing; a success under a key is on file for exactly that request and no other answer is touched |
| `Workflow.Stores.ExtendLoan` | src/application/command_handlers/extend_loan.py:47-93 | a kept answer is replayed to the same request and refused to another one, changing nothing; otherwise new due date, event and receipt together, or an error and nothing; a success under a key is on file for exactly that request and no other answer is touched |
| `Workflow.Stores.SuspendPatron` | src/application/command_handlers/suspend_patron.py:43-82 | a kept answer is replayed to the same request and refused to another one, changing nothing; otherwise suspended patron and receipt together, or an error and nothing; a success under a key is on file for exactly that request and no other answer is touched |
| `Workflow.Stores.UpgradePatronTier` | src/application/command_handlers/upgrade_patron_tier.py:44-83 | a kept answer is replayed to the same request and refused to another one, changing nothing; otherwise upgraded patron and receipt together, or an error and nothing; a success under a key is on file for exactly that request and no other answer is touched |
| `Retries.BorrowTwice` | src/application/command_handlers/borrow_book.py:82-88 | a successful borrow sent again under its key, whatever else the call says, answers the same value, another fingerprint is a conflict, and both leave the stores and the kept answers as the first call alone did |
| `Retries.ReturnTwice` | src/application/command_handlers/return_loan.py:56-69 | a successful return sent again under its key, whatever else the call says, answers the same value, another fingerprint is a conflict, and both leave the stores and the kept answers as the first call alone did |
| `Retries.ExtendTwice` | src/application/command_handlers/extend_loan.py:53-64 | a successful extension sent again under its key, whatever else the call says, answers the same value, another fingerprint is a conflict, and both leave the stores and the kept answers as the first call alone did |
| `Retries.SuspendTwice` | src/application/command_handlers/suspend_patron.py:52-58 | a successful suspension sent again under its key, whatever else the call says, answers the same value, another fingerprint is a conflict, and both leave the stores and the kept answers as the first call alone did |
| `Retries.UpgradeTwice` | src/application/command_handlers/upgrade_patron_tier.py:52-59 | a successful upgrade sent again under its key, whatever else the call says, answers the same value, another fingerprint is a conflict, and both leave the stores and the kept answers as the first call alone did |
| `Workflow.Stores.CreateLoanOnBookReserved` | src/application/event_handlers/create_loan_on_book_reserved.py:60-120 | one whole delivery: create, and on a business rejection compensate; it always ends acknowledged and keeps the saga invariant |
| `Workflow.Stores.ConfirmBorrowOnLoanCreated` | src/application/event_handlers/confirm_borrow_on_loan_created.py:46-76 | one whole delivery: confirm, and when stale cancel the tentative loan; always acknowledged, invariant kept |
| `Workflow.Stores.CancelLoanOnBookReleased` | src/application/event_handlers/cancel_loan_on_book_released.py:28-45 | one whole delivery: Lending-side compensation; always acknowledged, invariant kept |
| `Workflow.Stores.ReturnBookOnLoanCompleted` | src/application/event_handlers/return_book_on_loan_completed.py:30-47 | one whole delivery: catalog return, a stale completion included; always acknowledged, invariant kept |
| `SagaRuns.RunKeepsInv` | src/domain/catalog/entities/catalog_book.py:189-391 | the saga invariant holds in every state of every run: any event delivered at any time, any number of times, between any client commands |
| `SagaRuns.BorrowedBookHasItsLoan` | src/domain/catalog/entities/catalog_book.py:258-306 | a BORROWED book's current loan exists, matches its reservation, generation, patron and borrow time, is due no earlier than the book, and is not cancelled |
| `SagaRuns.BorrowedEventIsItsLoan` | src/domain/catalog/entities/catalog_book.py:295-306 | every CatalogBookBorrowed ever staged carries the title, address and borrow time of its loan and of the reservation it came from, and the due date of its LoanCreated |
| `SagaRuns.EventsNameTheirLoans` | src/domain/lending/entities/loan.py:160-251 | every other staged event about a loan names that loan's facts: completion time and lateness, cancellation, the due date it was overdue by, the dates an extension moved between |
| `SagaReplay.OutboxDeterminesRows` | src/infrastructure/adapters/catalog/catalog_unit_of_work.py:62-102 | in every reachable state the outbox alone, read by the events' own fields, gives every book row and every loan row, field for field, and no event that does not fit |
| `SagaAdmission.ReservedExactly` | src/application/command_handlers/borrow_book.py:92-121 | a reservation commits exactly for a known, eligible patron on a known, available book; the others get their error in this order |
| `SagaAdmission.ReservedLeaves` | src/application/command_handlers/borrow_book.py:113-144 | book, operation row and event of a new reservation, field by field; nothing else changes |
| `SagaAdmission.LentExactly` | src/application/command_handlers/create_loan.py:101-163 | a loan commits exactly when no rule stands in the way: the patron known under the address, not suspended, under the limit, the book not lent; otherwise the first broken rule is the answer |
| `SagaAdmission.LentLeaves` | src/application/command_handlers/create_loan.py:165-177 | loan, index entry and event of a new loan, field by field; nothing else changes |
| `SagaAdmission.ReplayedExactly` | src/application/command_handlers/create_loan.py:84-99 | a repeated reservation that has its loan is a no-op if every fact agrees, and a mismatch otherwise |
| `SagaAdmission.PatronStep` | src/application/command_handlers/suspend_patron.py:60-78 | a patron's row changes only by a committed command on that patron, and by exactly what the command says |
| `SagaAdmission.SuspensionHolds` | src/domain/patron/entities/patron.py:112-136 | over any run: after an accepted suspension and until a reinstatement the patron stays suspended for that reason, no loan is added for the patron, and every attempt at one is refused |
| `SagaCommands.OperationMovesExactly` | src/infrastructure/adapters/application_state/borrow_operation_repository.py:46-91 | an operation row moves only for its own reservation, patron and generation and from the one status that leads to the target; both errors, and nothing else changed |
| `SagaCommands.ConfirmedLeaves` | src/application/command_handlers/confirm_book_borrow.py:42-78 | what a committed confirmation found and left: book, operation row and event, field by field, and nothing else |
| `SagaCommands.ReleasedLeaves` | src/application/command_handlers/release_book_reservation.py:37-73 | the same for a release |
| `SagaCommands.ReturnedLeaves` | src/application/command_handlers/return_book.py:48-95 | the same for a catalog return |
| `SagaCommands.CancelledExactly` | src/application/command_handlers/cancel_loan.py:42-92 | a cancellation takes exactly the outstanding loan of exactly this reservation, and the expected one if one is named; no loan and ended loans are no-ops, anything else a mismatch |
| `SagaCommands.LoanCommandTouches` | src/infrastructure/adapters/lending/loan_command_repository.py:142-170 | a command on a loan touches that loan, its version and one event, or is refused for the loan's own reason |
| `SagaCommands.AnyDeliveryMayHappen` | src/application/event_handlers/create_loan_on_book_reserved.py:60-103 | in every state any logged workflow event may be handled again, whatever was handled before |
| `SagaRuns.ConfirmedLoanIsNeverCancelled` | src/application/command_handlers/cancel_loan.py:57-80 | once CatalogBookBorrowed is in the outbox its loan is not cancelled, then or ever after |
| `SagaRuns.DeadReservationStaysDead` | src/domain/catalog/entities/catalog_book.py:414-435 | a reservation that no longer holds its book never holds it again |
| `SagaRuns.NoPoisonEvent` | src/application/command_handlers/create_loan.py:224-258 | in every reachable state any delivery of any logged event commits, is a no-op, or raises exactly the error its handler absorbs; mismatch, invalid-period and operation errors are unreachable |
| `SagaRuns.ReaperNeverFails` | src/application/command_handlers/release_expired_reservations.py:55-97 | the reaper's release of a reserved book always commits together with its operation row |
| `SagaRuns.OperationAgreement` | src/infrastructure/adapters/application_state/borrow_operation_repository.py:46-91 | an operation row is RESERVED or BORROWED exactly while its reservation holds the book in that status, pruning of terminal rows included |
| `SagaAdmission.LimitsHold` | src/application/command_handlers/create_loan.py:101-177 | in every reachable state the loans neither returned nor cancelled number at most 5, 10 or 20 by the patron's current tier, and at most one per book |
| `SagaRuns.QuiescentAgreement` | src/application/event_handlers/confirm_borrow_on_loan_created.py:46-76 | with per-aggregate ordered first handling, once nothing is pending no book is RESERVED and both contexts name exactly the same book-loan pairs |
| `SagaRuns.UnorderedDeliveryCanDisagree` | src/application/event_handlers/return_book_on_loan_completed.py:30-47 | a reachable quiescent state in which they disagree: a completion handled before its creation is swallowed as stale |
| `SagaAgreement.AgreementIsExact` | src/application/event_handlers/return_book_on_loan_completed.py:30-47 | whatever the order of handling: at rest the contexts agree if and only if, for every loan lent out and completed, some return of it ran after the confirmation that lent the book |
| `SagaDelivery.DeliveryIsOrdered` | src/infrastructure/external/kafka_client.py:220-271 | every transaction a group member runs is one that per-aggregate order allows, over all crashes, restarts, rebalances and late commits of keyed partitions |
| `SagaDelivery.DeliveredAgreement` | src/application/event_handlers/confirm_borrow_on_loan_created.py:46-76 | so with nothing assumed about order, once nothing is pending no book is RESERVED and both contexts name the same book-loan pairs |
| `SagaQuiescence.QuiescenceImpliesAgreement` | src/domain/catalog/entities/catalog_book.py:242-391 | the ordered invariant alone gives agreement when nothing is pending |
| `SagaDraining.StepDrains` | src/application/event_handlers/create_loan_on_book_reserved.py:60-103 | handling a pending event changes nothing or lowers a weight in which a reservation outweighs what it can cause |
| `SagaDraining.Progress` | src/application/event_handlers/create_loan_on_book_reserved.py:60-120 | while anything is pending, a worker transaction that partition order allows makes progress |
| `SagaDraining.DrainRunsAreShort` | src/application/event_handlers/cancel_loan_on_book_released.py:28-40 | a run of workers on pending events has at most as many steps as the weight it started with |
| `SagaDraining.DrainReachesAgreement` | src/application/event_handlers/confirm_borrow_on_loan_created.py:46-76 | from every ordered state the workers can finish, and then both contexts agree |
| `SagaConservation.Conservation` | src/infrastructure/adapters/catalog/catalog_unit_of_work.py:62-102 | in every reachable state: generation = reservations; reservations = releases + borrows + held; borrows = returns + lent; outbox events of a book = its version, of a loan = its version + 1 |
| `SagaConservation.RunBalances` | src/domain/catalog/entities/catalog_book.py:188-391 | the same balance for every book and every loan at every point of every run |
| `TransactionProofs.CommitIsAtomic` | src/infrastructure/adapters/catalog/book_command_repository.py:99-143 | a version-guarded commit of a row loaded earlier does what the atomic transition would do now |
| `TransactionProofs.OnlyRacesBlock` | src/infrastructure/adapters/lending/loan_command_repository.py:142-170 | if the version has not moved, a loaded transaction can commit: only races stop it |
| `TransactionProofs.DbStepRefines` | src/application/command_handlers/create_loan.py:78-210 | each load, fence, count, re-read, profile read, commit or crash is invisible to the saga or is one of its atomic steps |
| `TransactionProofs.DbRunRefinesSaga` | src/infrastructure/adapters/lending/loan_unit_of_work.py:60-108 | every interleaving of split transactions reaches only states the atomic saga reaches |
| `TransactionAdmission.AdmissionIsFenced` | src/application/command_handlers/suspend_patron.py:60-78 | at statement level, a loan commits only for a patron who at that moment is known under the address, not suspended and under the limit of the current tier, on a book that is not lent; afterwards everybody is within the limit |
| `TransactionAdmission.CommittedSuspensionHolds` | src/application/command_handlers/suspend_patron.py:60-78 | at statement level, once a suspension commits and until another policy command on the patron does, no transaction, however far it had come, inserts a loan for the patron |
| `TransactionRows.VersionDeterminesRow` | src/infrastructure/adapters/catalog/book_command_repository.py:99-143 | over any interleaving, the same (id, version) of a book, loan or patron always holds the same contents, and versions never go back |
| `TransactionRows.NoTransitionIsLost` | src/infrastructure/adapters/lending/loan_command_repository.py:142-170 | no committed transition is lost: versions count the staged events |
| `TransactionRows.OutboxTellsEveryRow` | src/infrastructure/adapters/lending/loan_unit_of_work.py:60-108 | over any interleaving of loads and commits the outbox alone still gives every book and loan row |
| `UnitOfWork.PendingIsEachOnce` | src/infrastructure/adapters/catalog/catalog_unit_of_work.py:79-97 | staging publishes of each changed aggregate exactly what it recorded, in order, and of others nothing |
| `UnitOfWork.UnitOfWork.GetById` | src/infrastructure/adapters/catalog/book_command_repository.py:58-71 | the identity map: the same entity for the same id, read from the row once |
| `UnitOfWork.UnitOfWork.Update` | src/infrastructure/adapters/catalog/book_command_repository.py:99-143 | succeeds exactly when the row as this transaction sees it has the expected version; tells a missing row from a modified one |
| `UnitOfWork.UnitOfWork.StageDomainEvents` | src/infrastructure/adapters/catalog/catalog_unit_of_work.py:79-97 | the nested staging loop produces every pending event of every changed aggregate |
| `UnitOfWork.UnitOfWork.ClearCommittedEvents` | src/infrastructure/adapters/catalog/catalog_unit_of_work.py:99-102 | changed aggregates have no event left to publish; the others are untouched |
| `UnitOfWork.UnitOfWork.Commit` | src/infrastructure/adapters/catalog/catalog_unit_of_work.py:62-77 | rows, events and receipts together or not at all; refused exactly on a receipt conflict or server failure, each with its own error; nothing can be published twice; every announced row is in the table if no commit of the unit has failed since, and only then |
| `UnitOfWork.CommitAfterFailure` | src/infrastructure/adapters/catalog/catalog_unit_of_work.py:62-102 | for any changed entity: update, failed commit, second commit publishes its events while the row stays as it was |
| `UnitOfWork.LoseRace` | src/infrastructure/adapters/catalog/catalog_unit_of_work.py:62-77 | the loser of a race for an idempotency key loses its row update with its receipt |
| `Receipts.OneEffectPerKey` | src/application/command_handlers/borrow_book.py:80-145 | over all interleavings of retried requests exactly one effect per key is committed once there is a receipt, and none before |
| `Receipts.SuccessesAgree` | src/application/ports/idempotency.py:62-68 | all successes under one key carry the same fingerprint and the same response |
| `Receipts.TakenKeyMutatesNothing` | src/infrastructure/adapters/catalog/catalog_unit_of_work.py:62-77 | once a key is taken no request under it commits anything, and a different fingerprint is never answered |
| `Reaper.FindExpired` | src/infrastructure/adapters/catalog/book_command_repository.py:73-97 | a batch holds distinct books RESERVED before the cutoff and not locked, oldest first by time and id; it leaves none of them out below the limit, and none older at the limit |
| `Reaper.ReleaseExpiredReservations` | src/application/command_handlers/release_expired_reservations.py:48-97 | one batch releases exactly the books it counts, each RESERVED before now - ttl and not locked, with one event each; a book reserved later keeps its row; after a batch that is not full nothing is RESERVED from before but locked rows |
| `Reaper.ReleaseAllExpired` | scripts/run_reservation_reaper.py:35-45 | for every batch size the drain ends, has released only books RESERVED before now - ttl, each once and with one event, returns their number, and leaves none RESERVED from before but rows locked during its last batch |
| `ReindexConvergence.RebuildConverges` | scripts/reindex_read_models.py:96-169 | if no row changes consumer while a pre-registration target list may be in use, behind the swapped alias every acknowledged row is served at its latest version, or not at all if deleted |
| `ReindexStraddle.RebuildIsExact` | src/infrastructure/external/elasticsearch_client.py:256-317 | without that assumption: behind the swapped alias an acknowledged row is right if and only if the schedule did not mirror it and then acknowledge its delete with no write of the delete reaching the new index |
| `ReindexStraddle.StraddlingIsUnmirrored` | src/infrastructure/external/elasticsearch_client.py:301-317 | such a delete was handled with a target list looked up before the registration, and every write of it went to the old index |
| `ReindexConvergence.AliasNeverServesAPartialIndex` | scripts/reindex_read_models.py:116-148 | from the swap on, every live row that predates the scan is served, at least as new as when scanning began |
| `ReindexConvergence.HandOverCanResurrect` | src/infrastructure/external/elasticsearch_client.py:301-317 | a concrete run in which a row moves to a consumer with an older target list and its deleted document comes back for good |
| `ReindexProofs.RunKeepsInv` | scripts/reindex_read_models.py:96-169 | the rebuild invariant holds in every state of every run of updates, deletes, consumers, crashes, hand-overs, scan and swap |
| `ReindexScan.TargetCache.WriteTargets` | src/infrastructure/external/elasticsearch_client.py:301-317 | answers from the cache while it lasts, otherwise asks, and keeps the answer no longer than the window after asking |
| `ReindexScan.LookupIsABeginStep` | src/infrastructure/external/elasticsearch_client.py:301-317 | such a lookup is a step the protocol allows |
| `ReindexScan.BulkIndex` | src/infrastructure/external/elasticsearch_client.py:450-492 | every document but the broken ones is written, conflicts going to the newer; the broken ones are counted, and none is exactly when no document is broken |
| `ReindexScan.ScanTable` | scripts/reindex_read_models.py:116-143 | the keyset loop ends for every batch size, counts the rows, and equals one pass over the whole table |
| `ReindexScan.CopyAllIsComplete` | scripts/reindex_read_models.py:116-143 | that pass leaves each row at its version or something newer, and touches no other document |
| `CacheFreshness.ReadsAreFresh` | src/infrastructure/adapters/cache/cache_adapter.py:66-148 | once any increment has landed after a write, answered or not, sent to invalidate or to recover, every later get_or_set in any process returns something at least as new, and nothing uncommitted |
| `CacheFreshness.FailedBumpGuards` | src/infrastructure/adapters/cache/cache_adapter.py:173-216 | after a failed invalidation every later call of the writer's process is as new as the write, unless an earlier increment of it has landed and is still to be answered |
| `CacheExactness.ProtectionIsExact` | src/infrastructure/adapters/cache/cache_adapter.py:66-148 | from a state, no call that a process starts can miss a write if and only if nothing older is stored or about to be stored under the current generation, or the process knows itself unsafe and is owed no reply |
| `CacheExactness.FailedBumpIsLocal` | src/infrastructure/adapters/cache/cache_adapter.py:173-181 | a concrete run in which, after a failed invalidation, another process can still return the older value and the writer's own cannot |
| `CacheExactness.RecoveryCanOvertake` | src/infrastructure/adapters/cache/cache_adapter.py:192-216 | a concrete run in which the late answer to a recovery clears the unsafe mark of a later failed invalidation, and the writer's own process can miss its write |
| `CacheFreshness.NextKeepsInv` | src/infrastructure/adapters/cache/cache_adapter.py:66-148 | an entry stored under a generation was read after that generation was observed, whatever is interleaved |
| `Inbox.HandlerInbox.Claim` | src/infrastructure/adapters/events/delivery_store.py:194-274 | insert, reject on identity collision, skip when processed, busy under a live lease, otherwise take over with one attempt more |
| `Inbox.HandlerInbox.Complete` | src/infrastructure/adapters/events/delivery_store.py:276-299 | a completion takes effect exactly when the token still holds the unprocessed row |
| `Inbox.HandlerInbox.Fail` | src/infrastructure/adapters/events/delivery_store.py:301-328 | a failure takes effect exactly when the token still holds the unprocessed row |
| `InboxRuns.NoOverlap` | src/infrastructure/adapters/events/delivery_store.py:220-274 | if the lease outlasts the processing bound, two executions of one (event, handler) never overlap |
| `InboxRuns.ShortLeaseOverlaps` | src/infrastructure/adapters/events/delivery_store.py:184-192 | and only then: for every lease no longer than the bound there is a run with an overlap |
| `InboxRuns.DefaultsNeverOverlap` | src/infrastructure/external/kafka_client.py:31-35 | the shipped lease is safe for every processing timeout the Kafka client accepts |
| `InboxRuns.SettlingSucceeds` | src/infrastructure/adapters/events/delivery_store.py:276-328 | under that condition a running execution never finds its claim lost |
| `InboxRuns.CompletedOnce` | src/infrastructure/adapters/events/delivery_store.py:220-299 | whatever the lease: at most one completion per row succeeds, exactly the processed rows have one, and attempts equal claims granted |
| `InboxRuns.ProcessedIsAbsorbing` | src/infrastructure/adapters/events/delivery_store.py:259-260 | a processed row never changes again |
| `Dispatch.Deliver` | src/infrastructure/adapters/events/event_dispatcher.py:90-159 | one handler, with refused statements and lost replies of the inbox store: it runs exactly if its claim is granted and the grant arrives; its row records how it went; no failure is reported only if it is on record as done |
| `Dispatch.DispatchEvent` | src/infrastructure/adapters/events/event_dispatcher.py:68-167 | every handler gets its chance whatever the others do; those that ran are exactly those admitted whose grant arrived; a handler not reported as failed is on record as done, and conversely when every reply arrives |
| `Dispatch.ProcessMessage` | src/infrastructure/adapters/events/domain_event_consumer.py:88-145 | success means every handler is done; unrecoverable means an unknown contract that is safely quarantined; an error of a durable transition is durable, a timeout that cancels the message is not, and leaves the handlers after the cut untouched; what is on record as done stays so |
| `Dispatch.DurableParkedExactly` | src/infrastructure/external/kafka_client.py:297-344 | a durable transition is handled if and only if some invocation succeeds, and parked if and only if the consumer does not retry forever, none of the earlier invocations succeeded, the last one allowed timed out and the parking got through |
| `Dispatch.TransientParkedExactly` | src/infrastructure/external/kafka_client.py:297-344 | any other known event is handled if and only if some invocation succeeds; otherwise it is parked if the consumer does not retry forever and the parking gets through, and raised if not |
| `Dispatch.HangingDurableIsParked` | src/infrastructure/external/kafka_client.py:291-344 | for every accepted timeout: a durable transition that always hangs is parked by a consumer that does not retry forever, and raised by one that does |
| `Dispatch.UnsupportedParkedExactly` | src/infrastructure/adapters/events/domain_event_consumer.py:88-131 | an unknown contract is never handled; it is parked exactly when parking is delivered and either some invocation found it unrecoverable and parking is wanted, or none did and the last one timed out on a consumer that does not retry forever |
| `KafkaRetry.NewClient` | src/infrastructure/external/kafka_client.py:58-113 | accepts a configuration exactly when every check passes, the worst-case budget included |
| `KafkaRetry.BackoffDoubles` | src/infrastructure/external/kafka_client.py:98-103 | the wait doubles until the eleventh retry, never passes a minute, and stays as it is from then on |
| `KafkaRetry.ShippedSettingsFit` | src/infrastructure/external/kafka_client.py:51-57 | the default settings need 792 of their 900 seconds |
| `KafkaRetry.DeliveryFits` | src/infrastructure/external/kafka_client.py:94-113 | any delivery, however it goes, fits the budget held against max.poll.interval |
| `KafkaRetry.HandleWithRetry` | src/infrastructure/external/kafka_client.py:273-363 | stops at the first success or unrecoverable error or after the last retry; handled, parked or raised exactly as that last invocation demands, outcome by outcome; where nothing is unrecoverable or durable, handled exactly if some invocation succeeds; total time below max.poll.interval |
| `KafkaRetry.Partition.Consume` | src/infrastructure/external/kafka_client.py:220-271 | a worker's life: everything below the committed offset was handled or parked, wherever it dies; it raises exactly at a record that is neither, and never passes one |
| `KafkaRetry.CommittedPrefixIsSettled` | src/infrastructure/external/kafka_client.py:251-265 | the same over every history of crashes, restarts, rebalances and late commits of several members |
| `Outcomes.RecentIsSuffix` | src/infrastructure/adapters/resilience/circuit_breaker.py:226-230 | dropping from the left until an entry is recent leaves exactly the recent outcomes |
| `Outcomes.RecentAppends` | src/infrastructure/adapters/resilience/circuit_breaker.py:220-230 | pruning, recording and pruning again equals pruning the whole history |
| `Outcomes.TrailingExactly` | src/infrastructure/adapters/resilience/circuit_breaker.py:279-306 | the consecutive failures counted are all the failures at the end of the history, and no more |
| `CircuitBreaker.TripsExactly` | src/infrastructure/adapters/resilience/circuit_breaker.py:232-243 | the rate trips exactly when there are calls, enough of them, and the failed ones make up the threshold in percent |
| `CircuitBreaker.Breaker.PruneWindow` | src/infrastructure/adapters/resilience/circuit_breaker.py:226-230 | the window is exactly the outcomes since the last closing that lie within window_seconds |
| `CircuitBreaker.Breaker.RecordOutcome` | src/infrastructure/adapters/resilience/circuit_breaker.py:220-224 | the same after recording one more outcome |
| `CircuitBreaker.Breaker.WindowFailureRate` | src/infrastructure/adapters/resilience/circuit_breaker.py:232-243 | the failure rate of the recent history, none below minimum_calls |
| `CircuitBreaker.Breaker.HandleSuccess` | src/infrastructure/adapters/resilience/circuit_breaker.py:264-277 | closes a half-open circuit exactly at the success threshold and forgets the history then; resets the failure count when closed |
| `CircuitBreaker.Breaker.HandleFailure` | src/infrastructure/adapters/resilience/circuit_breaker.py:279-306 | opens a closed circuit exactly when consecutive failures since closing reach the threshold or a full enough window reaches the rate; re-opens a half-open one; excluded errors count for nothing; divides by zero exactly when counted, closed, below the threshold and the rate is undefined |
| `CircuitBreaker.Breaker.Acquire` | src/infrastructure/adapters/resilience/circuit_breaker.py:312-335 | admits exactly when closed, when the open timeout has passed, or while probe slots are free; probes in flight stay within the limit whenever it is at least one, and within one otherwise |
| `CircuitBreaker.Breaker.Reset` | src/infrastructure/adapters/resilience/circuit_breaker.py:447-454 | a fresh closed circuit with an empty history |
| `CircuitBreaker.ZeroLimitAdmitsOneProbe` | src/infrastructure/adapters/resilience/circuit_breaker.py:245-262 | a breaker with a limit of zero that admits a probe all the same |
| `CircuitBreaker.ZeroMinimumDivides` | src/infrastructure/adapters/resilience/circuit_breaker.py:232-243 | a breaker with a minimum of zero on which a failure divides by zero |
| `PagingProofs.WalkShowsEverythingOnce` | src/infrastructure/adapters/catalog/book_query_repository.py:328-353 | following next_cursor over an unchanging table shows the filtered table in order, each row once, and cannot go on past its end, if each cursor separates the rows as the database's order does |
| `PagingProofs.FinishedWalkListsTheTable` | src/infrastructure/adapters/catalog/book_query_repository.py:328-353 | under that condition a finished walk lists exactly the filtered rows, by lowered title and then id, in pages of exactly the limit but the last |
| `PagingProofs.KeysAreInOrder` | src/infrastructure/adapters/catalog/book_query_repository.py:328-353 | the keys compared are in one strict total order, by rank and then by id |
| `PagingProofs.PagingIsExact` | src/infrastructure/adapters/catalog/book_query_repository.py:328-353 | and only if: every walk of every page size is right exactly when each row's cursor separates the rows |
| `PagingProofs.DisagreementSkipsARow` | src/infrastructure/adapters/catalog/book_query_repository.py:346-352 | a concrete table where Python's lower() and the database's lower() disagree and a row is never shown |
| `PagingChanges.EachRowOnce` | src/infrastructure/adapters/catalog/book_query_repository.py:328-353 | with rows inserted and removed between pages nothing is shown twice or out of order, and every row present throughout is shown, if the cursor of each filtered row that occurs divides the others as the database's order does |
| `PagingChanges.ChangesAreExact` | src/infrastructure/adapters/catalog/book_query_repository.py:328-353 | and only if: over all tables drawn from a list of rows, all changes and all page sizes, every walk is orderly exactly when each row's cursor separates the others |

## Left out

Assumptions of the models:

- Saga: reservation and loan ids are fresh on creation; outbox rows are published only after their transaction commits.
- SagaQuiescence, SagaDraining: dead-letter replay that breaks per-aggregate order is outside these theorems and inside SagaAgreement. Redelivering a reservation after it was rejected is not claimed to be a no-op: it may create a loan that is then cancelled as stale.
- Transactions: Read Committed isolation is modelled as current reads of committed rows; a count at the limit marks the event rejected at once rather than when the exception is raised, which only allows more behaviour; receipts are modelled in Workflow and Receipts.
- SagaDelivery: the outbox relay delivers the log to each keyed partition in order and without gaps, and the route from key to partition stays fixed.
- Reindex: delete events carry the row version, ids are not inserted again after a delete, Elasticsearch keeps its delete markers for the job, and a write that its handler has given up on does not land later. A row has one delivery in flight, and a consumer that loses the row to another has stopped handling it when the row moves; the consumer group as such, in KafkaRetry, does not assume this. One job runs at a time, as the advisory lock ensures. Null-value Kafka tombstones carry no version and are not part of this model. The contents of the old index are not tracked, nor is what remains of the new one after an aborted job.
- Cache: the generation key is never evicted; a reply and the note a process makes of it are one step, as no await lies between them; an increment is never retried by the server; time to live and jitter only remove entries; the peer lock only decides who waits. A disabled Redis answers nothing and is not part of this model.
- InboxRuns: a handler is really stopped within the processing bound of its claim, on the database clock, and claim tokens are never reused.
- KafkaRetry: a handler and a parking really end at their timeouts.
- Receipts: receipts are not pruned. Pruning frees a key for a second effect.
- Paging: titles and ids do not change between pages; the loan listing has the same shape with descending time and is not modelled again. The Elasticsearch pages, fuzzy ranking and cross-backend cursor fallback are not part of this model.

Form of the models:

- The rebuild, the cache and the interleaved transactions are step systems rather than classes, because what matters in them happens between the awaits of many processes; ReindexScan has the sequential loop and cache of one process.
- UnitOfWork: entities are values in the identity map, so aliasing of one entity object by two holders is not captured; row locks between update and commit are taken for granted.
- Workflow: one call runs without interference; Transactions covers the interleavings and Receipts the races for a key. Responses are represented by one number each, and fingerprints are taken as distinct for distinct requests. The borrower directory's answer is an arbitrary flag in Saga, and patrons are looked up by id rather than by address.
- Workflow.Stores.CreateLoan: does not model the advisory lock and the re-read after it, because Transactions models them statement by statement; nor the shape check of the loans it reads, which every reachable loan passes.
- Workflow.Stores.SuspendPatron: does not model the fence, which Transactions has, nor the outbox row of the patron event, because no saga handler reads it; PatronEntities has the event.
- Workflow.Stores.UpgradePatronTier: does not model the fence, because Transactions has it.
- Reaper.ReleaseAllExpired: the clock stands still and no other transaction changes a book during the sweep; rows locked by others are arbitrary and differ from batch to batch.
- Saga.Reap: any reserved book may be reaped, because the age check only restricts it; Reaper has the check.
- Inbox.HandlerInbox.Claim: does not model two lost insert races in a row, which answer busy without any effect.
- Receipts.OneEffectPerKey: speaks of requests that carry an idempotency key; those without one commit as often as they are sent.

Not modelled, because it would only add easy members or is plumbing:

- Routes, command line, container, lifecycle, etcd, e-mail, loggers, metrics, health checks, registry of breakers.
- Spelling rules of ids, ISBNs, titles, authors and e-mail addresses, the wording of reasons of suspension (a reason is usable or not), reasons of cancellation and rejection, and the branch for an unknown membership tier.
- Patron registration, adding books, read-model documents, JSON and timestamp text, SHA-256 and base64, cursor envelopes.
- The LOST loan status, which no transition enters.
- Deferred outbox clean-up and retention other than pruning of terminal operation rows; event dispatch without an inbox.
- Context-manager and executor forms of the circuit breaker, cancellation of a running call, and any bound on probes across half-open episodes: the in-flight counter is reset on leaving HALF_OPEN.
- `set_reindex_target` replacing another operator's target, and deletion of old indices.
