/**
 * The inductive invariant of the saga under arbitrary reordering, duplication and delay of deliveries,
 * and what follows from it.
 */
module SagaSafety {
  import opened Shared
  import Catalog
  import Lending
  import opened Saga

  // ---- The invariant ----

  /** Some reservation with exactly these facts was made. */
  ghost predicate Issued(s: State, c: Claim) {
    c.reservation in s.issued && s.issued[c.reservation].claim == c
  }

  /** The reservation still holds its book, reserved or borrowed. Everything else is dead. */
  ghost predicate Live(s: State, c: Claim) {
    c.book in s.books && s.books[c.book].reservationId == Some(c.reservation) && s.books[c.book].Unavailable()
  }

  ghost predicate LiveAs(s: State, c: Claim, status: Catalog.BookStatus) {
    Live(s, c) && s.books[c.book].status == status
  }

  ghost predicate BorrowedWith(s: State, b: BookId, l: LoanId) {
    b in s.books && s.books[b].status == Catalog.Borrowed && s.books[b].currentLoanId == Some(l)
  }

  ghost predicate BookOk(s: State, id: BookId)
    requires id in s.books
  {
    var b := s.books[id];
    && b.Valid()
    && (b.reservationId.None? <==> b.generation == 0)
    && (b.reservationId.Some? ==>
          && b.patronId.Some? && b.email.Some?
          && Issued(s, ClaimOf(b, id))
          && s.issued[b.reservationId.value].BookReserved?
          && s.issued[b.reservationId.value].email == b.email.value
          && (b.reservedAt.Some? ==> s.issued[b.reservationId.value].reservedAt == b.reservedAt.value))
    && (b.currentLoanId.Some? ==>
          && b.currentLoanId.value in s.loans
          && s.loans[b.currentLoanId.value].claim == ClaimOf(b, id)
          && s.loans[b.currentLoanId.value].status != Lending.Cancelled
          && b.currentLoanId.value in s.created && s.created[b.currentLoanId.value].LoanCreated?
          && b.borrowedAt == Some(s.created[b.currentLoanId.value].borrowedAt)
          && b.returnDueDate == Some(s.created[b.currentLoanId.value].dueDate))
    && (b.lastCompletedLoanId.Some? ==>
          && b.lastCompletedLoanId.value in s.loans
          && s.loans[b.lastCompletedLoanId.value].claim.book == id
          && s.loans[b.lastCompletedLoanId.value].claim.generation <= b.generation)
    && (b.Unavailable() ==> b.reservationId.value in s.ops)
  }

  ghost predicate IssuedOk(s: State, r: ReservationId)
    requires r in s.issued
  {
    var e := s.issued[r];
    && e.BookReserved? && e.claim.reservation == r && e in s.log
    && e.claim.book in s.books
    && e.title == s.books[e.claim.book].title
    && 1 <= e.claim.generation <= s.books[e.claim.book].generation
    && (e.claim.generation == s.books[e.claim.book].generation ==> s.books[e.claim.book].reservationId == Some(r))
    && e.claim.patron in s.patrons && s.patrons[e.claim.patron].email == e.email
  }

  ghost predicate LoanOk(s: State, l: LoanId)
    requires l in s.loans
  {
    var loan := s.loans[l];
    && loan.Valid()
    && Issued(s, loan.claim) && s.issued[loan.claim.reservation].BookReserved?
    && ExactReplay(s.issued[loan.claim.reservation], loan)
    && Map(s.byReservation, loan.claim.reservation) == Some(l)
    && l in s.created && s.created[l].LoanCreated?
    && s.created[l].dueDate <= loan.dueDate
    && s.created[l] == LoanCreated(loan.claim, l, loan.title, loan.email, loan.borrowedAt, s.created[l].dueDate)
    && s.created[l] in s.log && s.created[l].dueDate > loan.borrowedAt
    && (loan.status == Lending.Returned ==> Lending.CompletionOf(l, loan) in s.log)
    && (loan.status == Lending.Cancelled ==> !LiveAs(s, loan.claim, Catalog.Reserved))
  }

  ghost predicate EventOk(s: State, e: Event) {
    match e
    case BookReserved(c, _, _, _) => c.reservation in s.issued && s.issued[c.reservation] == e
    case BookReleased(c) => Issued(s, c) && !Live(s, c)
    case BookBorrowed(c, l, title, email, at, due) =>
      && l in s.loans && s.loans[l].claim == c
      && l in s.created && s.created[l] == LoanCreated(c, l, title, email, at, due)
      && (s.loans[l].status == Lending.Returned || (BorrowedWith(s, c.book, l) && s.loans[l].status != Lending.Cancelled))
    case LoanCreated(_, l, _, _, _, _) => l in s.created && s.created[l] == e
    case LoanCompleted(_, l, _, _) =>
      l in s.loans && s.loans[l].status == Lending.Returned && s.loans[l].returnedAt.Some? && e == Lending.CompletionOf(l, s.loans[l])
    case BookReturned(c, l) => l in s.loans && s.loans[l].claim == c && s.loans[l].status == Lending.Returned
    case LoanCancelled(c, l) => l in s.loans && s.loans[l].claim == c && s.loans[l].status == Lending.Cancelled
    case LoanOverdue(c, l, due) =>
      l in s.loans && s.loans[l].claim == c && s.loans[l].status != Lending.Active && s.loans[l].dueDate == due
    case LoanExtended(c, l, before, after) =>
      && l in s.loans && s.loans[l].claim == c
      && l in s.created && s.created[l].LoanCreated? && s.created[l].dueDate <= before < after <= s.loans[l].dueDate
  }

  ghost predicate OperationOk(s: State, r: ReservationId)
    requires r in s.ops
  {
    var op := s.ops[r];
    && r in s.issued
    && s.issued[r].claim == Claim(op.book, r, op.generation, op.patron)
    && (op.status == OpReserved <==> LiveAs(s, s.issued[r].claim, Catalog.Reserved))
    && (op.status == OpBorrowed <==> LiveAs(s, s.issued[r].claim, Catalog.Borrowed))
    && (op.status == OpBorrowed ==> op.loan == s.books[op.book].currentLoanId)
    && (op.loan.Some? <==> op.status == OpBorrowed || op.status == OpReturned)
    && (op.loan.Some? ==> op.loan.value in s.loans && s.loans[op.loan.value].claim == s.issued[r].claim)
    && (op.status == OpReturned ==> s.loans[op.loan.value].status == Lending.Returned)
  }

  ghost predicate WorkersOk(s: State) {
    && (forall e | e in s.rejected :: e in s.log && e.BookReserved?)
    && (forall e | e in s.stale ::
          e in s.log && e.LoanCreated? && !LiveAs(s, e.claim, Catalog.Reserved) && !BorrowedWith(s, e.claim.book, e.loan))
  }

  ghost predicate IndexesOk(s: State) {
    && s.created.Keys == s.loans.Keys
    && (forall r {:trigger s.byReservation[r]} | r in s.byReservation ::
          s.byReservation[r] in s.loans && s.loans[s.byReservation[r]].claim.reservation == r)
  }

  ghost predicate OneLoanPerBook(s: State) {
    forall l, m | l in s.loans && m in s.loans && s.loans[l].Outstanding() && s.loans[m].Outstanding()
                  && s.loans[l].claim.book == s.loans[m].claim.book :: l == m
  }

  ghost predicate WithinLimits(s: State) {
    forall p | p in s.patrons ::
      |OutstandingOf(s.loans, p)| <= Lending.TermsFor(s.patrons[p].tier).maxOutstandingLoans
  }

  ghost predicate BooksOk(s: State) {
    forall b {:trigger BookOk(s, b)} | b in s.books :: BookOk(s, b)
  }

  ghost predicate HistoryOk(s: State) {
    forall r {:trigger IssuedOk(s, r)} | r in s.issued :: IssuedOk(s, r)
  }

  ghost predicate LoansOk(s: State) {
    forall l {:trigger LoanOk(s, l)} | l in s.loans :: LoanOk(s, l)
  }

  ghost predicate LogOk(s: State) {
    forall e {:trigger EventOk(s, e)} | e in s.log :: EventOk(s, e)
  }

  ghost predicate OperationsOk(s: State) {
    forall r {:trigger OperationOk(s, r)} | r in s.ops :: OperationOk(s, r)
  }

  ghost predicate Inv(s: State) {
    && IndexesOk(s)
    && BooksOk(s)
    && HistoryOk(s)
    && LoansOk(s)
    && LogOk(s)
    && OperationsOk(s)
    && WorkersOk(s)
    && OneLoanPerBook(s)
    && WithinLimits(s)
  }

  /** A library before its first borrow: any shelf of untouched books, any patrons. */
  ghost predicate Init(s: State) {
    && (forall b | b in s.books ::
          && s.books[b].Valid() && s.books[b].status == Catalog.Available && s.books[b].generation == 0
          && s.books[b].NoCorrelation() && s.books[b].lastCompletedLoanId == None && s.books[b].version == 0)
    && s.ops == map[] && s.loans == map[] && s.byReservation == map[] && s.log == []
    && s.issued == map[] && s.created == map[]
    && s.rejected == {} && s.stale == {} && s.handled == {}
  }

  lemma InitInv(s: State)
    requires Init(s)
    ensures Inv(s)
  {
    forall p | p in s.patrons
      ensures |OutstandingOf(s.loans, p)| <= Lending.TermsFor(s.patrons[p].tier).maxOutstandingLoans
    {
      assert OutstandingOf(s.loans, p) == {};
    }
  }
}
