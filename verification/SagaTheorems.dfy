/** What holds in every run of the saga, under any order, duplication and delay of deliveries. */
module SagaTheorems {
  import opened Shared
  import Catalog
  import Lending
  import opened Saga
  import opened SagaSafety
  import opened SagaSteps

  /** The transaction commits, changes nothing, or fails in a way its handler is written for. */
  ghost predicate Expected(s: State, st: Step)
    requires Enabled(s, st) && RowsValid(s)
  {
    Tx(s, st).Raised? ==> Acknowledged(st, Tx(s, st).error) || Diverted(st, Tx(s, st).error)
  }

  // ---- One worker transaction at a time ----

  /** A replayed reservation always matches the loan it made, so lookup never reports a mismatch. */
  lemma CreateOutcome(s: State, e: Event, l: LoanId)
    requires Inv(s) && e in s.log && e.BookReserved?
    ensures CreateLoan(s, e, l).Raised? ==> IsBusinessRejection(CreateLoan(s, e, l).error)
  {
    assert EventOk(s, e) && IssuedOk(s, e.claim.reservation);
    match FindByReservation(s, e.claim.reservation) {
      case Some(existing) => assert LoanOk(s, existing);
      case None =>
    }
  }

  lemma CreateTxStep(s: State, st: Step)
    requires Inv(s) && RowsValid(s) && Enabled(s, st) && st.CreateTx?
    ensures Expected(s, st) && Inv(Next(s, st))
  {
    var e := st.event;
    CreateOutcome(s, e, st.newLoan);
    match CreateLoan(s, e, st.newLoan) {
      case Committed(n) =>
        CreateLoanKeepsInv(s, e, st.newLoan);
        FinishKeepsInv(n, st);
      case NoChange => FinishKeepsInv(s, st);
      case Raised(_) => DivertKeepsInv(s, e);
    }
  }

  lemma CompensateTxStep(s: State, st: Step)
    requires Inv(s) && RowsValid(s) && Enabled(s, st) && st.CompensateTx?
    ensures Expected(s, st) && Inv(Next(s, st))
  {
    var c := st.event.claim;
    LoggedClaim(s, st.event);
    FinishKeepsInv(s, st);
    if Catalog.Release(s.books[c.book], c).Changed? {
      ReleaseKeepsInv(s, c);
      FinishKeepsInv(Tx(s, st).state, st);
    }
  }

  lemma ReapStep(s: State, st: Step)
    requires Inv(s) && RowsValid(s) && Enabled(s, st) && st.Reap?
    ensures Tx(s, st).Committed? && Inv(Next(s, st))
  {
    assert BookOk(s, st.book);
    ReleaseKeepsInv(s, ClaimOf(s.books[st.book], st.book));
  }

  /** Confirming either borrows the book, finds it already borrowed for this loan, or proves the claim dead. */
  lemma ConfirmOutcome(s: State, e: Event)
    requires Inv(s) && RowsValid(s) && e in s.log && e.LoanCreated?
    ensures e.claim.book in s.books
    ensures var t := Catalog.ConfirmBorrow(s.books[e.claim.book], e.claim, e.loan, e.borrowedAt, e.dueDate);
            match t
            case Changed(_, _) => LiveAs(s, e.claim, Catalog.Reserved)
            case Unchanged => BorrowedWith(s, e.claim.book, e.loan)
            case Failed(err) =>
              err == StaleReservation && !LiveAs(s, e.claim, Catalog.Reserved) && !BorrowedWith(s, e.claim.book, e.loan)
  {
    LoggedClaim(s, e);
    assert BookOk(s, e.claim.book) && EventOk(s, e) && LoanOk(s, e.loan);
    assert IssuedOk(s, e.claim.reservation);
  }

  lemma ConfirmTxStep(s: State, st: Step)
    requires Inv(s) && RowsValid(s) && Enabled(s, st) && st.ConfirmTx?
    ensures Expected(s, st) && Inv(Next(s, st))
  {
    var e := st.event;
    ConfirmOutcome(s, e);
    match Catalog.ConfirmBorrow(s.books[e.claim.book], e.claim, e.loan, e.borrowedAt, e.dueDate) {
      case Changed(_, _) =>
        ConfirmKeepsInv(s, e);
        FinishKeepsInv(ConfirmBookBorrow(s, e.claim, e.loan, e.borrowedAt, e.dueDate).state, st);
      case Unchanged => FinishKeepsInv(s, st);
      case Failed(_) => DivertKeepsInv(s, e);
    }
  }

  lemma CancelKeepsInv(s: State, c: Claim, expected: Option<LoanId>)
    requires Inv(s) && Issued(s, c) && (expected.Some? ==> expected.value in s.loans && s.loans[expected.value].claim == c)
    requires forall l | l in s.loans && s.loans[l].claim == c && s.loans[l].Outstanding() :: !Live(s, c)
    ensures !CancelLoan(s, c, expected).Raised?
    ensures CancelLoan(s, c, expected).Committed? ==> Inv(CancelLoan(s, c, expected).state)
  {
    if expected.Some? {
      LookupIsComplete(s, expected.value);
    }
    match FindByReservation(s, c.reservation) {
      case None =>
      case Some(l) =>
        assert LoanOk(s, l);
        if s.loans[l].Outstanding() {
          ChangeLoanKeepsInv(s, l, Lending.DoCancel);
        }
    }
  }

  /** A borrowed book's reservation has exactly one loan, the current one. */
  lemma BorrowedLoanIsCurrent(s: State, l: LoanId)
    requires Inv(s) && l in s.loans && LiveAs(s, s.loans[l].claim, Catalog.Borrowed)
    ensures BorrowedWith(s, s.loans[l].claim.book, l)
  {
    var c := s.loans[l].claim;
    assert LoanOk(s, l) && BookOk(s, c.book);
    LookupIsComplete(s, l);
    LookupIsComplete(s, s.books[c.book].currentLoanId.value);
  }

  lemma CancelStaleTxStep(s: State, st: Step)
    requires Inv(s) && RowsValid(s) && Enabled(s, st) && st.CancelStaleTx?
    ensures Expected(s, st) && Inv(Next(s, st))
  {
    var e := st.event;
    LoggedClaim(s, e);
    forall l | l in s.loans && s.loans[l].claim == e.claim && s.loans[l].Outstanding()
      ensures !Live(s, e.claim)
    {
      LookupIsComplete(s, l);
      LookupIsComplete(s, e.loan);
      if LiveAs(s, e.claim, Catalog.Borrowed) {
        BorrowedLoanIsCurrent(s, l);
      }
    }
    CancelKeepsInv(s, e.claim, Some(e.loan));
    FinishKeepsInv(s, st);
    if Tx(s, st).Committed? {
      FinishKeepsInv(Tx(s, st).state, st);
    }
  }

  lemma CancelReleasedTxStep(s: State, st: Step)
    requires Inv(s) && RowsValid(s) && Enabled(s, st) && st.CancelReleasedTx?
    ensures Expected(s, st) && Inv(Next(s, st))
  {
    LoggedClaim(s, st.event);
    assert EventOk(s, st.event);
    CancelKeepsInv(s, st.event.claim, None);
    FinishKeepsInv(s, st);
    if Tx(s, st).Committed? {
      FinishKeepsInv(Tx(s, st).state, st);
    }
  }

  lemma ReturnOutcome(s: State, e: Event)
    requires Inv(s) && e in s.log && e.LoanCompleted?
    ensures e.claim.book in s.books
    ensures var t := Catalog.ReturnBook(s.books[e.claim.book], e.claim, e.loan);
            && (t.Changed? <==> BorrowedWith(s, e.claim.book, e.loan))
            && (t.Failed? ==> t.error == StaleLoanCompletion)
  {
    LoggedClaim(s, e);
    assert EventOk(s, e) && BookOk(s, e.claim.book) && LoanOk(s, e.loan) && IssuedOk(s, e.claim.reservation);
  }

  lemma ReturnTxStep(s: State, st: Step)
    requires Inv(s) && RowsValid(s) && Enabled(s, st) && st.ReturnTx?
    ensures Expected(s, st) && Inv(Next(s, st))
  {
    var e := st.event;
    ReturnOutcome(s, e);
    LoggedClaim(s, e);
    FinishKeepsInv(s, st);
    if Catalog.ReturnBook(s.books[e.claim.book], e.claim, e.loan).Changed? {
      assert EventOk(s, e);
      ReturnKeepsInv(s, e.claim, e.loan);
      FinishKeepsInv(Tx(s, st).state, st);
    }
  }

  // ---- All steps ----

  lemma NextKeepsInv(s: State, st: Step)
    requires Inv(s) && Enabled(s, st)
    ensures RowsValid(s) && Inv(Next(s, st))
    ensures st.IsWorker() ==> Expected(s, st)
  {
    InvImpliesRowsValid(s);
    match st {
      case Borrow(b, p, eligible, now, token) =>
        if Tx(s, st).Committed? { BorrowKeepsInv(s, b, p, eligible, now, token); }
      case LoanChange(l, cmd) =>
        if Tx(s, st).Committed? { ChangeLoanKeepsInv(s, l, cmd); }
      case PatronChange(p, cmd) =>
        if Tx(s, st).Committed? { ChangePatronKeepsInv(s, p, cmd); }
      case Reap(_) => ReapStep(s, st);
      case PruneOperation(r) => PruneKeepsInv(s, r);
      case CreateTx(_, _) => CreateTxStep(s, st);
      case CompensateTx(_) => CompensateTxStep(s, st);
      case ConfirmTx(_) => ConfirmTxStep(s, st);
      case CancelStaleTx(_) => CancelStaleTxStep(s, st);
      case CancelReleasedTx(_) => CancelReleasedTxStep(s, st);
      case ReturnTx(_) => ReturnTxStep(s, st);
    }
  }
}
