/**
 * The borrow saga as a step system. Catalog (books, operations), Lending (loans) and Patron own separate
 * tables of one database; every step below is one committed transaction, and none writes the tables of two
 * contexts. They are tied together only by the outbox log, whose events any worker may handle at any time,
 * any number of times.
 */
module Saga {
  import opened Shared
  import Catalog
  import Lending
  import Patrons

  datatype OpStatus = OpReserved | OpBorrowed | OpReleased | OpReturned

  /** A borrow_operations row; its key is the reservation id. */
  datatype Operation = Operation(book: BookId, patron: PatronId, generation: nat, status: OpStatus, loan: Option<LoanId>)

  datatype State = State(
    books: map<BookId, Catalog.BookState>,
    ops: map<ReservationId, Operation>,
    loans: map<LoanId, Lending.LoanState>,
    byReservation: map<ReservationId, LoanId>,  // the unique index on loans.reservation_id
    patrons: map<PatronId, Patrons.PatronState>,
    log: seq<Event>,                            // every outbox row ever staged, in commit order
    issued: map<ReservationId, Event>,          // history: the BookReserved event of each reservation
    created: map<LoanId, Event>,                // history: the LoanCreated event of each loan
    rejected: set<Event>,                       // BookReserved events some worker saw rejected by Lending
    stale: set<Event>,                          // LoanCreated events some worker saw rejected by Catalog
    handled: set<Event>)                        // workflow events some worker has finished

  /** How one command handler's transaction ends. */
  datatype TxResult = Committed(state: State) | NoChange | Raised(error: Error)

  // ---- Shared pieces of the Catalog transactions ----

  function MoveOperation(ops: map<ReservationId, Operation>, c: Claim, target: OpStatus, loan: Option<LoanId>)
    : Result<map<ReservationId, Operation>>
  {
    if target == OpReserved then Err(OperationTransitionRejected)
    else if c.reservation !in ops then Err(OperationNotFound)
    else
      var op := ops[c.reservation];
      var source := if target == OpReturned then OpBorrowed else OpReserved;
      if op.book != c.book || op.patron != c.patron || op.generation != c.generation || op.status != source then
        Err(OperationTransitionRejected)
      else
        Ok(ops[c.reservation := op.(status := target, loan := loan)])
  }

  /** Writes the changed book and its operation row, and stages the event, in one transaction. */
  function CommitBook(s: State, c: Claim, t: Transition<Catalog.BookState>, target: OpStatus, loan: Option<LoanId>)
    : TxResult
  {
    match t
    case Unchanged => NoChange
    case Failed(e) => Raised(e)
    case Changed(b, ev) =>
      match MoveOperation(s.ops, c, target, loan)
      case Err(e) => Raised(e)
      case Ok(ops) =>
        Committed(s.(books := s.books[c.book := b.(version := b.version + 1)], ops := ops, log := s.log + [ev]))
  }

  // ---- Command handlers ----

  /** `eligible` is what the borrower directory answered, at some moment before the book was loaded. */
  function BorrowBook(s: State, book: BookId, patron: PatronId, eligible: bool, now: Time, token: ReservationId): TxResult {
    if patron !in s.patrons || !eligible then Raised(BorrowerNotEligible)
    else if book !in s.books then Raised(BookNotFound)
    else
      match Catalog.Reserve(s.books[book], book, patron, s.patrons[patron].email, now, token)
      case Unchanged => NoChange
      case Failed(e) => Raised(e)
      case Changed(b, ev) =>
        Committed(s.(books := s.books[book := b.(version := b.version + 1)],
                     ops := s.ops[token := Operation(book, patron, b.generation, OpReserved, None)],
                     log := s.log + [ev],
                     issued := s.issued[token := ev]))
  }

  function ConfirmBookBorrow(s: State, c: Claim, loan: LoanId, borrowedAt: Time, dueDate: Time): TxResult
    requires c.book in s.books ==> s.books[c.book].Valid()
  {
    if c.book !in s.books then Raised(BookNotFound)
    else CommitBook(s, c, Catalog.ConfirmBorrow(s.books[c.book], c, loan, borrowedAt, dueDate), OpBorrowed, Some(loan))
  }

  function ReleaseReservation(s: State, c: Claim): TxResult {
    if c.book !in s.books then Raised(BookNotFound)
    else CommitBook(s, c, Catalog.Release(s.books[c.book], c), OpReleased, None)
  }

  function ReturnBook(s: State, c: Claim, loan: LoanId): TxResult {
    if c.book !in s.books then Raised(BookNotFound)
    else CommitBook(s, c, Catalog.ReturnBook(s.books[c.book], c, loan), OpReturned, Some(loan))
  }

  function OutstandingOf(loans: map<LoanId, Lending.LoanState>, p: PatronId): set<LoanId> {
    set l | l in loans && loans[l].claim.patron == p && loans[l].Outstanding()
  }

  predicate BookHasOutstandingLoan(loans: map<LoanId, Lending.LoanState>, b: BookId) {
    exists l :: l in loans && loans[l].claim.book == b && loans[l].Outstanding()
  }

  /** The idempotency lookup by reservation id, through the unique index. */
  function FindByReservation(s: State, r: ReservationId): Option<LoanId> {
    if r in s.byReservation && s.byReservation[r] in s.loans then Some(s.byReservation[r]) else None
  }

  predicate ExactReplay(e: Event, l: Lending.LoanState)
    requires e.BookReserved?
  {
    l.claim == e.claim && l.email == e.email && l.title == e.title && l.borrowedAt == e.reservedAt
  }

  /** The business rejections of a new loan, in the order the handler tests them. */
  function Admission(s: State, e: Event): Option<Error>
    requires e.BookReserved?
  {
    var p := e.claim.patron;
    if p !in s.patrons then Some(PatronNotEligible)
    else if s.patrons[p].email != e.email then Some(PatronNotEligible)
    else if s.patrons[p].suspended then Some(PatronNotEligible)
    else if |OutstandingOf(s.loans, p)| >= Lending.TermsFor(s.patrons[p].tier).maxOutstandingLoans then
      Some(PatronBorrowingLimitReached)
    else if BookHasOutstandingLoan(s.loans, e.claim.book) then Some(BookNotAvailable)
    else None
  }

  function CreateLoan(s: State, e: Event, l: LoanId): TxResult
    requires e.BookReserved?
  {
    match FindByReservation(s, e.claim.reservation)
    case Some(existing) =>
      if ExactReplay(e, s.loans[existing]) then NoChange else Raised(ReservationCorrelationMismatch)
    case None =>
      match Admission(s, e)
      case Some(err) => Raised(err)
      case None =>
        var days := Lending.TermsFor(s.patrons[e.claim.patron].tier).loanDurationDays;
        match Lending.CreateLoan(e.claim, l, e.email, e.title, days, e.reservedAt)
        case Unchanged => NoChange
        case Failed(err) => Raised(err)
        case Changed(loan, ev) =>
          Committed(s.(loans := s.loans[l := loan],
                       byReservation := s.byReservation[e.claim.reservation := l],
                       log := s.log + [ev],
                       created := s.created[l := ev]))
  }

  function CommitLoan(s: State, l: LoanId, t: Transition<Lending.LoanState>): TxResult {
    match t
    case Unchanged => NoChange
    case Failed(e) => Raised(e)
    case Changed(loan, ev) =>
      Committed(s.(loans := s.loans[l := loan.(version := loan.version + 1)], log := s.log + [ev]))
  }

  /** Compensation by exact correlation; a missing or otherwise terminal loan needs no change. */
  function CancelLoan(s: State, c: Claim, expected: Option<LoanId>): TxResult {
    match FindByReservation(s, c.reservation)
    case None => NoChange
    case Some(l) =>
      if s.loans[l].claim != c || (expected.Some? && expected.value != l) then Raised(ReservationCorrelationMismatch)
      else
        match CommitLoan(s, l, Lending.CancelLoan(s.loans[l], l))
        case Raised(LoanNotActive) => NoChange
        case r => r
  }

  /** Client or scheduler transition of one loan: return, extend or mark overdue. */
  function ChangeLoan(s: State, l: LoanId, cmd: Lending.LoanCommand): TxResult {
    if l !in s.loans then Raised(LoanNotFound)
    else CommitLoan(s, l, Lending.React(s.loans[l], l, cmd))
  }

  function ChangePatron(s: State, p: PatronId, cmd: Patrons.PatronCommand): TxResult {
    if p !in s.patrons then Raised(PatronNotFound)
    else
      match Patrons.React(s.patrons[p], cmd)
      case Err(e) => Raised(e)
      case Ok(n) => Committed(s.(patrons := s.patrons[p := n.(version := n.version + 1)]))
  }

  // ---- Steps ----

  datatype Step =
    // Clients, schedulers and operators
    | Borrow(book: BookId, patron: PatronId, eligible: bool, now: Time, token: ReservationId)
    | LoanChange(loan: LoanId, cmd: Lending.LoanCommand)
    | PatronChange(patron: PatronId, policy: Patrons.PatronCommand)
    | Reap(book: BookId)
    | PruneOperation(reservation: ReservationId)
    // Workers: each names the event it is handling
    | CreateTx(event: Event, newLoan: LoanId)
    | CompensateTx(event: Event)
    | ConfirmTx(event: Event)
    | CancelStaleTx(event: Event)
    | CancelReleasedTx(event: Event)
    | ReturnTx(event: Event)
  {
    predicate IsWorker() {
      CreateTx? || CompensateTx? || ConfirmTx? || CancelStaleTx? || CancelReleasedTx? || ReturnTx?
    }
  }

  predicate IsBusinessRejection(e: Error) {
    e == BookNotAvailable || e == PatronBorrowingLimitReached || e == PatronNotEligible
  }

  /**
   * What may happen next. Identities generated by the source are fresh. A worker may pick up any
   * logged event again at any time; the second transaction of a handler needs the outcome of its first.
   */
  predicate Enabled(s: State, st: Step) {
    match st
    case Borrow(_, _, _, _, token) => token !in s.issued
    case LoanChange(_, cmd) => !cmd.DoCancel?
    case PatronChange(_, _) => true
    case Reap(b) => b in s.books && s.books[b].status == Catalog.Reserved
    case PruneOperation(r) => r in s.ops && (s.ops[r].status == OpReleased || s.ops[r].status == OpReturned)
    case CreateTx(e, l) => e in s.log && e.BookReserved? && l !in s.created
    case CompensateTx(e) => e in s.rejected && e.BookReserved?
    case ConfirmTx(e) => e in s.log && e.LoanCreated?
    case CancelStaleTx(e) => e in s.stale && e.LoanCreated?
    case CancelReleasedTx(e) => e in s.log && e.BookReleased?
    case ReturnTx(e) => e in s.log && e.LoanCompleted?
  }

  function ClaimOf(b: Catalog.BookState, id: BookId): Claim
    requires b.reservationId.Some? && b.patronId.Some?
  {
    Claim(id, b.reservationId.value, b.generation, b.patronId.value)
  }

  /** Every stored book hydrates, as the source checks on each load. */
  predicate RowsValid(s: State) {
    forall b | b in s.books :: s.books[b].Valid()
  }

  /** The transaction of a step, as its command handler runs it. */
  function Tx(s: State, st: Step): TxResult
    requires Enabled(s, st)
    requires RowsValid(s)
  {
    match st
    case Borrow(b, p, eligible, now, token) => BorrowBook(s, b, p, eligible, now, token)
    case LoanChange(l, cmd) => ChangeLoan(s, l, cmd)
    case PatronChange(p, cmd) => ChangePatron(s, p, cmd)
    case Reap(b) => ReleaseReservation(s, ClaimOf(s.books[b], b))
    case PruneOperation(r) => Committed(s.(ops := s.ops - {r}))
    case CreateTx(e, l) => CreateLoan(s, e, l)
    case CompensateTx(e) => ReleaseReservation(s, e.claim)
    case ConfirmTx(e) => ConfirmBookBorrow(s, e.claim, e.loan, e.borrowedAt, e.dueDate)
    case CancelStaleTx(e) => CancelLoan(s, e.claim, Some(e.loan))
    case CancelReleasedTx(e) => CancelLoan(s, e.claim, None)
    case ReturnTx(e) => ReturnBook(s, e.claim, e.loan)
  }

  /** Errors the four event handlers swallow on purpose, acknowledging the event. */
  predicate Acknowledged(st: Step, err: Error) {
    || (st.CompensateTx? && err == StaleReservation)
    || (st.ReturnTx? && err == StaleLoanCompletion)
  }

  /** Errors that send a handler into its compensating second transaction. */
  predicate Diverted(st: Step, err: Error) {
    || (st.CreateTx? && IsBusinessRejection(err))
    || (st.ConfirmTx? && err == StaleReservation)
  }

  function Finish(s: State, st: Step): State {
    if st.IsWorker() then s.(handled := s.handled + {st.event}) else s
  }

  /** What the worker records once the transaction of its step has ended. */
  function After(s: State, st: Step, r: TxResult): State {
    match r
    case Committed(n) => Finish(n, st)
    case NoChange => Finish(s, st)
    case Raised(err) =>
      if Acknowledged(st, err) then Finish(s, st)
      else if !Diverted(st, err) then s  // the exception propagates: the event is redelivered
      else if st.CreateTx? then s.(rejected := s.rejected + {st.event})
      else s.(stale := s.stale + {st.event})
  }

  function Next(s: State, st: Step): State
    requires Enabled(s, st)
    requires RowsValid(s)
  {
    After(s, st, Tx(s, st))
  }
}
