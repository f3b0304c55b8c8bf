/** Identities, times, results and the domain events that tie the contexts together. */
module Shared {

  // Opaque identities: the source validates their spelling, the model only compares them.
  type BookId = nat
  type LoanId = nat
  type PatronId = nat
  type ReservationId = nat
  type Email = nat
  type Text = nat

  /** UTC instants, in microseconds. */
  type Time = int
  const DAY: int := 86_400_000_000

  datatype Option<+T> = None | Some(value: T)

  datatype Result<+T> = Ok(value: T) | Err(error: Error)

  datatype Error =
    // Catalog
    | BookNotFound
    | BookAlreadyBorrowed
    | StaleReservation
    | InvalidBorrowPeriod
    | StaleLoanCompletion
    | LoanCorrelationMismatch
    // Lending
    | LoanNotFound
    | LoanNotActive
    | LoanNotOverdue
    | CannotExtendOverdueLoan
    | InvalidLoanReturnDate
    | InvalidLoanDuration
    | InvalidLoanExtension
    | InvalidReservationGeneration
    | ReservationCorrelationMismatch
    | BookNotAvailable
    | PatronBorrowingLimitReached
    | PatronNotEligible
    // Patron
    | PatronNotFound
    | PatronAlreadySuspended
    | PatronNotSuspended
    | InvalidSuspensionReason
    | InvalidTierUpgrade
    // Application
    | BorrowerNotEligible
    | OperationNotFound
    | OperationTransitionRejected
    | ConcurrentModification
    | RowNotFound
    | IdempotencyConflict
    | ServerError
    | CorruptRow
    | InvalidArgument

  /** The stored answer to one idempotency key, and the fingerprint of the request it answered. */
  datatype Receipt = Receipt(fingerprint: int, response: int)

  /** The exact reservation a saga message talks about: identity, fence and parties. */
  datatype Claim = Claim(book: BookId, reservation: ReservationId, generation: nat, patron: PatronId)

  datatype Event =
    | BookReserved(claim: Claim, title: Text, email: Email, reservedAt: Time)
    | BookBorrowed(claim: Claim, loan: LoanId, title: Text, email: Email, borrowedAt: Time, dueDate: Time)
    | BookReleased(claim: Claim)
    | BookReturned(claim: Claim, loan: LoanId)
    | LoanCreated(claim: Claim, loan: LoanId, title: Text, email: Email, borrowedAt: Time, dueDate: Time)
    | LoanCompleted(claim: Claim, loan: LoanId, returnedAt: Time, wasOverdue: bool)
    | LoanCancelled(claim: Claim, loan: LoanId)
    | LoanOverdue(claim: Claim, loan: LoanId, dueDate: Time)
    | LoanExtended(claim: Claim, loan: LoanId, oldDueDate: Time, newDueDate: Time)
  {
    /** Staged with aggregate type "book"; every other event belongs to a loan. */
    predicate OfBook() {
      BookReserved? || BookBorrowed? || BookReleased? || BookReturned?
    }

    /** The four durable transition events that drive another context. */
    predicate IsWorkflow() {
      BookReserved? || BookReleased? || LoanCreated? || LoanCompleted?
    }

    /** The outbox key: events with the same key share one ordered partition. */
    function Aggregate(): (bool, nat) {
      if OfBook() then (true, claim.book) else (false, loan)
    }
  }

  /** What one aggregate transition did: a new state with its event, nothing, or an exception. */
  datatype Transition<+A> = Changed(next: A, event: Event) | Unchanged | Failed(error: Error)

  function Map<K, V>(m: map<K, V>, k: K): Option<V> {
    if k in m then Some(m[k]) else None
  }
}
