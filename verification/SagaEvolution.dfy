/** How one step may change the saga: history grows, dead reservations stay dead, facts stay put. */
module SagaEvolution {
  import opened Shared
  import Catalog
  import Lending
  import opened Saga
  import opened SagaSafety
  import opened SagaSteps

  ghost predicate HistoryGrows(s: State, n: State) {
    && s.log <= n.log
    && (forall r | r in s.issued :: r in n.issued && n.issued[r] == s.issued[r])
    && (forall l | l in s.created :: l in n.created && n.created[l] == s.created[l])
    && (forall r | r in s.byReservation :: r in n.byReservation && n.byReservation[r] == s.byReservation[r])
  }

  ghost predicate LoansEvolve(s: State, n: State) {
    forall l {:trigger s.loans[l]} {:trigger n.loans[l]} | l in s.loans ::
      && l in n.loans && n.loans[l].claim == s.loans[l].claim && n.loans[l].dueDate >= s.loans[l].dueDate
      && (s.loans[l].Terminal() ==> n.loans[l] == s.loans[l])
  }

  ghost predicate NoResurrection(s: State, n: State) {
    forall c {:trigger Live(n, c)} {:trigger Live(s, c)} {:trigger LiveAs(n, c, Catalog.Reserved)} | Issued(s, c) ::
      && (Live(n, c) ==> Live(s, c))
      && (LiveAs(n, c, Catalog.Reserved) ==> LiveAs(s, c, Catalog.Reserved))
  }

  ghost predicate BorrowsEvolve(s: State, n: State) {
    forall b, l {:trigger BorrowedWith(s, b, l)} {:trigger BorrowedWith(n, b, l)} ::
      && (BorrowedWith(s, b, l) && !BorrowedWith(n, b, l) ==> l in n.loans && n.loans[l].status == Lending.Returned)
      && (BorrowedWith(n, b, l) && !BorrowedWith(s, b, l) ==>
            l in s.loans && s.loans[l].claim.book == b && LiveAs(s, s.loans[l].claim, Catalog.Reserved))
  }

  ghost predicate Evolves(s: State, n: State) {
    HistoryGrows(s, n) && LoansEvolve(s, n) && NoResurrection(s, n) && BorrowsEvolve(s, n)
  }

  lemma CommitBookEvolves(s: State, n: State, c: Claim, ev: Event)
    requires Inv(s) && CatalogCommit(s, n, c, ev)
    requires s.books[c.book].status == Catalog.Borrowed ==>
               n.books[c.book].status == Catalog.Available
               && forall l | BorrowedWith(s, c.book, l) :: l in s.loans && s.loans[l].status == Lending.Returned
    requires n.books[c.book].status == Catalog.Borrowed ==>
               forall l | BorrowedWith(n, c.book, l) :: l in s.loans && s.loans[l].claim == c
    ensures Evolves(s, n)
  {
  }

  lemma ReleaseEvolves(s: State, c: Claim)
    requires Inv(s) && ReleaseReservation(s, c).Committed?
    ensures Evolves(s, ReleaseReservation(s, c).state)
  {
    CommitBookEvolves(s, ReleaseReservation(s, c).state, c, BookReleased(c));
  }

  lemma ConfirmEvolves(s: State, e: Event)
    requires Inv(s) && RowsValid(s) && e in s.log && e.LoanCreated?
    requires ConfirmBookBorrow(s, e.claim, e.loan, e.borrowedAt, e.dueDate).Committed?
    ensures Evolves(s, ConfirmBookBorrow(s, e.claim, e.loan, e.borrowedAt, e.dueDate).state)
  {
    var n := ConfirmBookBorrow(s, e.claim, e.loan, e.borrowedAt, e.dueDate).state;
    LoggedClaim(s, e);
    CommitBookEvolves(s, n, e.claim, n.log[|s.log|]);
  }

  lemma ReturnEvolves(s: State, e: Event)
    requires Inv(s) && e in s.log && e.LoanCompleted? && ReturnBook(s, e.claim, e.loan).Committed?
    ensures Evolves(s, ReturnBook(s, e.claim, e.loan).state)
  {
    var n := ReturnBook(s, e.claim, e.loan).state;
    LoggedClaim(s, e);
    assert EventOk(s, e);
    CommitBookEvolves(s, n, e.claim, n.log[|s.log|]);
  }

  lemma BorrowEvolves(s: State, book: BookId, patron: PatronId, eligible: bool, now: Time, token: ReservationId)
    requires Inv(s) && token !in s.issued && BorrowBook(s, book, patron, eligible, now, token).Committed?
    ensures Evolves(s, BorrowBook(s, book, patron, eligible, now, token).state)
  {
  }

  lemma ChangeLoanEvolves(s: State, l: LoanId, cmd: Lending.LoanCommand)
    requires Inv(s) && ChangeLoan(s, l, cmd).Committed?
    ensures Evolves(s, ChangeLoan(s, l, cmd).state)
  {
    assert LoanOk(s, l);
    Lending.ReactKeepsShape(s.loans[l], l, cmd);
  }

  lemma CreateLoanEvolves(s: State, e: Event, l: LoanId)
    requires Inv(s) && e.BookReserved? && l !in s.created && CreateLoan(s, e, l).Committed?
    ensures Evolves(s, CreateLoan(s, e, l).state)
  {
    OpeningEvolves(s, CreateLoan(s, e, l).state, l, e);
  }

  lemma OpeningEvolves(s: State, n: State, l: LoanId, e: Event)
    requires IndexesOk(s) && Opening(s, n, l, e)
    ensures Evolves(s, n)
  {
  }

  lemma CancelEvolves(s: State, c: Claim, expected: Option<LoanId>)
    requires Inv(s) && CancelLoan(s, c, expected).Committed?
    ensures Evolves(s, CancelLoan(s, c, expected).state)
  {
    ChangeLoanEvolves(s, FindByReservation(s, c.reservation).value, Lending.DoCancel);
  }

  /** The aggregates, their history and the log are equal. */
  ghost predicate SameStores(s: State, n: State) {
    && n.books == s.books && n.loans == s.loans && n.byReservation == s.byReservation
    && n.log == s.log && n.issued == s.issued && n.created == s.created
  }

  lemma SameFactsEvolve(s: State, n: State)
    requires SameStores(s, n)
    ensures Evolves(s, n)
  {
  }

  lemma TxEvolves(s: State, st: Step)
    requires Inv(s) && RowsValid(s) && Enabled(s, st) && Tx(s, st).Committed?
    ensures Evolves(s, Tx(s, st).state)
  {
    match st {
      case Borrow(b, p, eligible, now, token) => BorrowEvolves(s, b, p, eligible, now, token);
      case LoanChange(l, cmd) => ChangeLoanEvolves(s, l, cmd);
      case PatronChange(p, cmd) => SameFactsEvolve(s, Tx(s, st).state);
      case Reap(b) => ReleaseEvolves(s, ClaimOf(s.books[b], b));
      case PruneOperation(r) => SameFactsEvolve(s, Tx(s, st).state);
      case CreateTx(e, l) => CreateLoanEvolves(s, e, l);
      case CompensateTx(e) => ReleaseEvolves(s, e.claim);
      case ConfirmTx(e) => ConfirmEvolves(s, e);
      case CancelStaleTx(e) => CancelEvolves(s, e.claim, Some(e.loan));
      case CancelReleasedTx(e) => CancelEvolves(s, e.claim, None);
      case ReturnTx(e) => ReturnEvolves(s, e);
    }
  }

  lemma FinishEvolves(s: State, n: State, st: Step)
    requires Evolves(s, n)
    ensures Evolves(s, Finish(n, st))
  {
  }

  /** Without a commit only the workers' bookkeeping moves. */
  lemma NoCommitNoFacts(s: State, st: Step, r: TxResult)
    requires !r.Committed?
    ensures SameStores(s, After(s, st, r))
  {
    if r.NoChange? || Acknowledged(st, r.error) {
      assert After(s, st, r) == Finish(s, st);
    } else if Diverted(st, r.error) {
    } else {
      assert After(s, st, r) == s;
    }
  }

  lemma NextEvolves(s: State, st: Step)
    requires Inv(s) && RowsValid(s) && Enabled(s, st)
    ensures Evolves(s, Next(s, st))
  {
    if Tx(s, st).Committed? {
      TxEvolves(s, st);
      FinishEvolves(s, Tx(s, st).state, st);
    } else {
      NoCommitNoFacts(s, st, Tx(s, st));
      SameFactsEvolve(s, Next(s, st));
    }
  }
}
