/** Every step of the saga keeps the invariant. */
module SagaSteps {
  import opened Shared
  import Catalog
  import Lending
  import Patrons
  import opened Saga
  import opened SagaSafety

  // ---- Frames: what a change elsewhere leaves alone ----

  lemma BookFrame(s: State, n: State, b: BookId)
    requires b in s.books && BookOk(s, b) && b in n.books && n.books[b] == s.books[b]
    requires forall r | r in s.issued :: r in n.issued && n.issued[r] == s.issued[r]
    requires forall l | l in s.created :: l in n.created && n.created[l] == s.created[l]
    requires forall l | l in s.loans :: l in n.loans && n.loans[l].claim == s.loans[l].claim
    requires forall r | r in s.ops :: r in n.ops
    requires s.books[b].currentLoanId.Some? ==> n.loans[s.books[b].currentLoanId.value].status != Lending.Cancelled
    ensures BookOk(n, b)
  {
  }

  lemma LoanFrame(s: State, n: State, l: LoanId)
    requires l in s.loans && LoanOk(s, l) && l in n.loans && n.loans[l] == s.loans[l]
    requires forall r | r in s.issued :: r in n.issued && n.issued[r] == s.issued[r]
    requires l in n.created && n.created[l] == s.created[l]
    requires Map(n.byReservation, s.loans[l].claim.reservation) == Some(l)
    requires forall e | e in s.log :: e in n.log
    requires LiveAs(n, s.loans[l].claim, Catalog.Reserved) ==> LiveAs(s, s.loans[l].claim, Catalog.Reserved)
    ensures LoanOk(n, l)
  {
  }

  // ---- Catalog transactions on the current reservation: confirm, release, return ----

  ghost predicate CatalogCommit(s: State, n: State, c: Claim, ev: Event)
  {
    && c.book in s.books && c.book in n.books && c.reservation in n.ops
    && n == s.(books := s.books[c.book := n.books[c.book]], ops := s.ops[c.reservation := n.ops[c.reservation]],
               log := s.log + [ev])
    && s.books[c.book].Matches(c)
    && n.books[c.book].Matches(c)
    && n.books[c.book].title == s.books[c.book].title
    && s.books[c.book].Unavailable()
    && n.books[c.book].status != Catalog.Reserved
  }

  lemma CatalogCommitBooks(s: State, n: State, c: Claim, ev: Event)
    requires BooksOk(s) && CatalogCommit(s, n, c, ev) && BookOk(n, c.book)
    ensures BooksOk(n)
  {
    forall b | b in n.books ensures BookOk(n, b) {
      if b != c.book {
        assert BookOk(s, b);
        BookFrame(s, n, b);
      }
    }
  }

  lemma CatalogCommitHistory(s: State, n: State, c: Claim, ev: Event)
    requires HistoryOk(s) && CatalogCommit(s, n, c, ev)
    ensures HistoryOk(n)
  {
    forall r | r in n.issued ensures IssuedOk(n, r) {
      assert IssuedOk(s, r);
    }
  }

  lemma LoansFrame(s: State, n: State)
    requires LoansOk(s)
    requires n.loans == s.loans && n.created == s.created && n.byReservation == s.byReservation
    requires forall r | r in s.issued :: r in n.issued && n.issued[r] == s.issued[r]
    requires forall e | e in s.log :: e in n.log
    requires forall c {:trigger LiveAs(n, c, Catalog.Reserved)} ::
      Issued(s, c) && LiveAs(n, c, Catalog.Reserved) ==> LiveAs(s, c, Catalog.Reserved)
    ensures LoansOk(n)
  {
    forall l | l in n.loans ensures LoanOk(n, l) {
      assert LoanOk(s, l);
      LoanFrame(s, n, l);
    }
  }

  lemma CatalogCommitLog(s: State, n: State, c: Claim, ev: Event)
    requires LogOk(s) && CatalogCommit(s, n, c, ev) && EventOk(n, ev)
    requires forall l | BorrowedWith(s, c.book, l) && l in s.loans :: s.loans[l].status == Lending.Returned
    ensures LogOk(n)
  {
    forall e | e in n.log ensures EventOk(n, e) {
      if e in s.log {
        assert EventOk(s, e);
        if e.BookBorrowed? && e.claim.book == c.book {
          assert s.loans[e.loan].status == Lending.Returned;
        }
      }
    }
  }

  lemma CatalogCommitOperations(s: State, n: State, c: Claim, ev: Event)
    requires OperationsOk(s) && HistoryOk(s) && CatalogCommit(s, n, c, ev) && OperationOk(n, c.reservation)
    ensures OperationsOk(n)
  {
    forall r | r in n.ops ensures OperationOk(n, r) {
      if r != c.reservation {
        assert OperationOk(s, r) && IssuedOk(s, r);
      }
    }
  }

  lemma CatalogCommitWorkers(s: State, n: State, c: Claim, ev: Event)
    requires WorkersOk(s) && CatalogCommit(s, n, c, ev)
    requires forall e | e in s.stale :: !BorrowedWith(n, e.claim.book, e.loan)
    ensures WorkersOk(n)
  {
  }

  lemma CatalogCommitInv(s: State, n: State, c: Claim, ev: Event)
    requires Inv(s) && CatalogCommit(s, n, c, ev)
    requires BookOk(n, c.book) && EventOk(n, ev) && OperationOk(n, c.reservation)
    requires forall l | BorrowedWith(s, c.book, l) && l in s.loans :: s.loans[l].status == Lending.Returned
    requires forall e | e in s.stale :: !BorrowedWith(n, e.claim.book, e.loan)
    ensures Inv(n)
  {
    CatalogCommitBooks(s, n, c, ev);
    CatalogCommitHistory(s, n, c, ev);
    LoansFrame(s, n);
    CatalogCommitLog(s, n, c, ev);
    CatalogCommitOperations(s, n, c, ev);
    CatalogCommitWorkers(s, n, c, ev);
  }

  /** The reservation of a logged saga event, as the stores know it. */
  lemma LoggedClaim(s: State, e: Event)
    requires Inv(s) && e in s.log && e.IsWorkflow()
    ensures Issued(s, e.claim) && e.claim.book in s.books
    ensures e.LoanCreated? || e.LoanCompleted? ==> e.loan in s.loans && s.loans[e.loan].claim == e.claim
  {
    assert EventOk(s, e);
    if e.LoanCreated? || e.LoanCompleted? {
      assert LoanOk(s, e.loan);
    }
    assert IssuedOk(s, e.claim.reservation);
  }

  /**
   * A held reservation is the only one its book matches, and its operation row is where it should be:
   * the guarded update of borrow_operations always finds its row.
   */
  lemma HeldOperation(s: State, c: Claim)
    requires Inv(s) && c.book in s.books && s.books[c.book].Matches(c) && s.books[c.book].Unavailable()
    ensures ClaimOf(s.books[c.book], c.book) == c && Issued(s, c) && c.reservation in s.ops
    ensures s.ops[c.reservation].book == c.book && s.ops[c.reservation].patron == c.patron
    ensures s.ops[c.reservation].generation == c.generation
    ensures s.ops[c.reservation].status == if s.books[c.book].status == Catalog.Reserved then OpReserved else OpBorrowed
  {
    assert BookOk(s, c.book);
    assert OperationOk(s, c.reservation);
  }

  lemma ReleaseKeepsInv(s: State, c: Claim)
    requires Inv(s) && RowsValid(s) && c.book in s.books && Catalog.Release(s.books[c.book], c).Changed?
    ensures ReleaseReservation(s, c).Committed? && Inv(ReleaseReservation(s, c).state)
  {
    HeldOperation(s, c);
    var n := ReleaseReservation(s, c).state;
    assert BookOk(s, c.book);
    assert OperationOk(s, c.reservation);
    CatalogCommitInv(s, n, c, BookReleased(c));
  }

  lemma ReturnKeepsInv(s: State, c: Claim, l: LoanId)
    requires Inv(s) && RowsValid(s) && c.book in s.books && Catalog.ReturnBook(s.books[c.book], c, l).Changed?
    requires l in s.loans && s.loans[l].status == Lending.Returned && s.loans[l].claim == c
    ensures ReturnBook(s, c, l).Committed? && Inv(ReturnBook(s, c, l).state)
  {
    HeldOperation(s, c);
    var n := ReturnBook(s, c, l).state;
    assert BookOk(s, c.book);
    assert OperationOk(s, c.reservation);
    CatalogCommitInv(s, n, c, BookReturned(c, l));
  }

  lemma ConfirmKeepsInv(s: State, e: Event)
    requires Inv(s) && RowsValid(s) && e in s.log && e.LoanCreated? && e.claim.book in s.books
    requires Catalog.ConfirmBorrow(s.books[e.claim.book], e.claim, e.loan, e.borrowedAt, e.dueDate).Changed?
    ensures ConfirmBookBorrow(s, e.claim, e.loan, e.borrowedAt, e.dueDate).Committed?
    ensures Inv(ConfirmBookBorrow(s, e.claim, e.loan, e.borrowedAt, e.dueDate).state)
  {
    var c := e.claim;
    HeldOperation(s, c);
    LoggedClaim(s, e);
    var r := ConfirmBookBorrow(s, c, e.loan, e.borrowedAt, e.dueDate);
    assert BookOk(s, c.book) && OperationOk(s, c.reservation) && LoanOk(s, e.loan) && EventOk(s, e);
    ConfirmationAnnounced(s, e);
    forall f | f in s.stale ensures !BorrowedWith(r.state, f.claim.book, f.loan) {
      assert EventOk(s, f);
    }
    CatalogCommitInv(s, r.state, c, r.state.log[|s.log|]);
  }

  /** A confirmation announces what the loan it lends to was created with. */
  lemma ConfirmationAnnounced(s: State, e: Event)
    requires Inv(s) && RowsValid(s) && e in s.log && e.LoanCreated? && e.claim.book in s.books
    requires Catalog.ConfirmBorrow(s.books[e.claim.book], e.claim, e.loan, e.borrowedAt, e.dueDate).Changed?
    ensures Catalog.ConfirmBorrow(s.books[e.claim.book], e.claim, e.loan, e.borrowedAt, e.dueDate).event ==
            BookBorrowed(e.claim, e.loan, e.title, e.email, e.borrowedAt, e.dueDate)
  {
    LoggedClaim(s, e);
    Catalog.AcceptedLeaves(s.books[e.claim.book], e.claim.book, Catalog.DoConfirm(e.claim, e.loan, e.borrowedAt, e.dueDate));
    assert BookOk(s, e.claim.book) && IssuedOk(s, e.claim.reservation) && EventOk(s, e) && LoanOk(s, e.loan);
  }

  // ---- A new reservation ----

  ghost predicate Reserving(s: State, n: State, c: Claim, ev: Event) {
    && c.book in s.books && c.book in n.books && c.reservation in n.ops && c.patron in s.patrons
    && c.reservation !in s.issued && ev.BookReserved? && ev.claim == c && ev.title == s.books[c.book].title
    && ev.email == s.patrons[c.patron].email
    && n == s.(books := s.books[c.book := n.books[c.book]], ops := s.ops[c.reservation := n.ops[c.reservation]],
               log := s.log + [ev], issued := s.issued[c.reservation := ev])
    && s.books[c.book].status == Catalog.Available && n.books[c.book].status == Catalog.Reserved
    && n.books[c.book].Matches(c)
    && c.generation == s.books[c.book].generation + 1
    && n.books[c.book].title == s.books[c.book].title
  }

  lemma ReservingBooks(s: State, n: State, c: Claim, ev: Event)
    requires BooksOk(s) && Reserving(s, n, c, ev) && BookOk(n, c.book)
    ensures BooksOk(n)
  {
    forall b | b in n.books ensures BookOk(n, b) {
      if b != c.book {
        assert BookOk(s, b);
        BookFrame(s, n, b);
      }
    }
  }

  lemma ReservingHistory(s: State, n: State, c: Claim, ev: Event)
    requires HistoryOk(s) && Reserving(s, n, c, ev)
    ensures HistoryOk(n)
  {
    forall r | r in n.issued ensures IssuedOk(n, r) {
      if r != c.reservation {
        assert IssuedOk(s, r);
      }
    }
  }

  lemma ReservingLog(s: State, n: State, c: Claim, ev: Event)
    requires LogOk(s) && Reserving(s, n, c, ev)
    ensures LogOk(n)
  {
    forall e | e in n.log ensures EventOk(n, e) {
      if e in s.log {
        assert EventOk(s, e);
      }
    }
  }

  lemma ReservingOperations(s: State, n: State, c: Claim, ev: Event)
    requires OperationsOk(s) && Reserving(s, n, c, ev) && OperationOk(n, c.reservation)
    ensures OperationsOk(n)
  {
    forall r | r in n.ops ensures OperationOk(n, r) {
      if r != c.reservation {
        assert OperationOk(s, r);
      }
    }
  }

  lemma ReservingWorkers(s: State, n: State, c: Claim, ev: Event)
    requires WorkersOk(s) && LogOk(s) && LoansOk(s) && IndexesOk(s) && Reserving(s, n, c, ev)
    ensures WorkersOk(n)
  {
    forall e | e in n.stale
      ensures !LiveAs(n, e.claim, Catalog.Reserved) && !BorrowedWith(n, e.claim.book, e.loan)
    {
      assert EventOk(s, e) && LoanOk(s, e.loan);
    }
  }

  lemma BorrowKeepsInv(s: State, book: BookId, patron: PatronId, eligible: bool, now: Time, token: ReservationId)
    requires Inv(s) && token !in s.issued
    requires BorrowBook(s, book, patron, eligible, now, token).Committed?
    ensures Inv(BorrowBook(s, book, patron, eligible, now, token).state)
  {
    var n := BorrowBook(s, book, patron, eligible, now, token).state;
    var c := Claim(book, token, n.books[book].generation, patron);
    var ev := n.issued[token];
    assert BookOk(s, book);
    assert Reserving(s, n, c, ev);
    assert BookOk(n, book);
    ReservingBooks(s, n, c, ev);
    ReservingHistory(s, n, c, ev);
    ReservingLog(s, n, c, ev);
    ReservingOperations(s, n, c, ev);
    ReservingWorkers(s, n, c, ev);
    LoansFrame(s, n);
  }

  // ---- A change of one loan's own state ----

  ghost predicate LoanCommit(s: State, n: State, l: LoanId, ev: Event) {
    && l in s.loans && l in n.loans
    && n == s.(loans := s.loans[l := n.loans[l]], log := s.log + [ev])
    && s.loans[l].Outstanding()
    && n.loans[l].claim == s.loans[l].claim && n.loans[l].dueDate >= s.loans[l].dueDate
    && (s.loans[l].status != Lending.Active ==> n.loans[l].dueDate == s.loans[l].dueDate && n.loans[l].status != Lending.Active)
  }

  lemma LoanCommitBooks(s: State, n: State, l: LoanId, ev: Event)
    requires BooksOk(s) && LoanCommit(s, n, l, ev)
    requires n.loans[l].status == Lending.Cancelled ==> !BorrowedWith(s, s.loans[l].claim.book, l)
    ensures BooksOk(n)
  {
    forall b | b in n.books ensures BookOk(n, b) {
      assert BookOk(s, b);
      BookFrame(s, n, b);
    }
  }

  lemma LoanCommitLoans(s: State, n: State, l: LoanId, ev: Event)
    requires LoansOk(s) && LoanCommit(s, n, l, ev) && LoanOk(n, l)
    ensures LoansOk(n)
  {
    forall k | k in n.loans ensures LoanOk(n, k) {
      if k != l {
        assert LoanOk(s, k);
        LoanFrame(s, n, k);
      }
    }
  }

  lemma LoanCommitLog(s: State, n: State, l: LoanId, ev: Event)
    requires LogOk(s) && LoanCommit(s, n, l, ev) && EventOk(n, ev)
    requires n.loans[l].status == Lending.Cancelled ==> !BorrowedWith(s, s.loans[l].claim.book, l)
    ensures LogOk(n)
  {
    forall e | e in n.log ensures EventOk(n, e) {
      if e in s.log {
        assert EventOk(s, e);
      }
    }
  }

  lemma LoanCommitRest(s: State, n: State, l: LoanId, ev: Event)
    requires HistoryOk(s) && OperationsOk(s) && WorkersOk(s) && OneLoanPerBook(s) && WithinLimits(s)
    requires LoanCommit(s, n, l, ev)
    ensures HistoryOk(n) && OperationsOk(n) && WorkersOk(n) && OneLoanPerBook(n) && WithinLimits(n)
  {
    forall r | r in n.issued ensures IssuedOk(n, r) { assert IssuedOk(s, r); }
    forall r | r in n.ops ensures OperationOk(n, r) { assert OperationOk(s, r); }
    forall p | p in n.patrons
      ensures |OutstandingOf(n.loans, p)| <= Lending.TermsFor(n.patrons[p].tier).maxOutstandingLoans
    {
      assert OutstandingOf(n.loans, p) <= OutstandingOf(s.loans, p);
      SubsetIsSmaller(OutstandingOf(n.loans, p), OutstandingOf(s.loans, p));
    }
  }

  lemma {:induction false} SubsetIsSmaller<T>(a: set<T>, b: set<T>)
    requires a <= b
    ensures |a| <= |b|
  {
    assert b == a + (b - a);
  }

  lemma LoanCommitInv(s: State, n: State, l: LoanId, ev: Event)
    requires Inv(s) && LoanCommit(s, n, l, ev) && LoanOk(n, l) && EventOk(n, ev)
    requires n.loans[l].status == Lending.Cancelled ==> !BorrowedWith(s, s.loans[l].claim.book, l)
    ensures Inv(n)
  {
    LoanCommitBooks(s, n, l, ev);
    LoanCommitLoans(s, n, l, ev);
    LoanCommitLog(s, n, l, ev);
    LoanCommitRest(s, n, l, ev);
  }

  lemma ChangeLoanKeepsInv(s: State, l: LoanId, cmd: Lending.LoanCommand)
    requires Inv(s) && l in s.loans && Lending.React(s.loans[l], l, cmd).Changed?
    requires cmd.DoCancel? ==> !Live(s, s.loans[l].claim)
    ensures Inv(ChangeLoan(s, l, cmd).state)
  {
    var n := ChangeLoan(s, l, cmd).state;
    var t := Lending.React(s.loans[l], l, cmd);
    assert LoanOk(s, l);
    Lending.ReactKeepsShape(s.loans[l], l, cmd);
    Lending.AcceptedLeaves(s.loans[l], l, cmd);
    if BorrowedWith(s, s.loans[l].claim.book, l) {
      assert BookOk(s, s.loans[l].claim.book);
    }
    assert n.loans[l].status == Lending.Returned ==> t.event == Lending.CompletionOf(l, n.loans[l]);
    LoanCommitInv(s, n, l, t.event);
  }

  // ---- A new loan ----

  ghost predicate Opening(s: State, n: State, l: LoanId, e: Event) {
    && l !in s.created && l in n.loans && l in n.created && e.BookReserved?
    && e.claim.reservation !in s.byReservation
    && n == s.(loans := s.loans[l := n.loans[l]], byReservation := s.byReservation[e.claim.reservation := l],
               log := s.log + [n.created[l]], created := s.created[l := n.created[l]])
    && n.created[l].LoanCreated? && n.created[l].loan == l
    && n.loans[l].claim == e.claim && n.loans[l].status == Lending.Active
  }

  lemma OpeningLoans(s: State, n: State, l: LoanId, e: Event)
    requires IndexesOk(s) && LoansOk(s) && Opening(s, n, l, e) && LoanOk(n, l)
    ensures LoansOk(n) && IndexesOk(n)
  {
    forall k | k in n.loans ensures LoanOk(n, k) {
      if k != l {
        assert LoanOk(s, k);
        LoanFrame(s, n, k);
      }
    }
  }

  lemma OpeningBooks(s: State, n: State, l: LoanId, e: Event)
    requires IndexesOk(s) && BooksOk(s) && Opening(s, n, l, e)
    ensures BooksOk(n)
  {
    forall b | b in n.books ensures BookOk(n, b) {
      assert BookOk(s, b);
      BookFrame(s, n, b);
    }
  }

  lemma OpeningRest(s: State, n: State, l: LoanId, e: Event)
    requires IndexesOk(s) && HistoryOk(s) && LogOk(s) && OperationsOk(s) && WorkersOk(s) && Opening(s, n, l, e)
    ensures HistoryOk(n) && LogOk(n) && OperationsOk(n) && WorkersOk(n)
  {
    forall r | r in n.issued ensures IssuedOk(n, r) { assert IssuedOk(s, r); }
    forall r | r in n.ops ensures OperationOk(n, r) { assert OperationOk(s, r); }
    forall f | f in n.log ensures EventOk(n, f) {
      if f in s.log { assert EventOk(s, f); }
    }
  }

  lemma OpeningLimits(s: State, n: State, l: LoanId, e: Event)
    requires IndexesOk(s) && OneLoanPerBook(s) && WithinLimits(s) && Opening(s, n, l, e)
    requires Admission(s, e).None?
    ensures WithinLimits(n)
  {
    forall p | p in n.patrons
      ensures |OutstandingOf(n.loans, p)| <= Lending.TermsFor(n.patrons[p].tier).maxOutstandingLoans
    {
      OutstandingAfter(s.loans, n.loans, l, p);
    }
  }

  lemma OutstandingAfter(loans: map<LoanId, Lending.LoanState>, more: map<LoanId, Lending.LoanState>, l: LoanId, p: PatronId)
    requires l !in loans && l in more && more == loans[l := more[l]] && more[l].Outstanding()
    ensures OutstandingOf(more, p) == OutstandingOf(loans, p) + if more[l].claim.patron == p then {l} else {}
  {
  }

  lemma OpeningUnique(s: State, n: State, l: LoanId, e: Event)
    requires IndexesOk(s) && OneLoanPerBook(s) && Opening(s, n, l, e)
    requires !BookHasOutstandingLoan(s.loans, e.claim.book)
    ensures OneLoanPerBook(n)
  {
  }

  /** A reservation without a loan in the index has no loan at all. */
  lemma LookupIsComplete(s: State, l: LoanId)
    requires Inv(s) && l in s.loans
    ensures FindByReservation(s, s.loans[l].claim.reservation) == Some(l)
  {
    assert LoanOk(s, l);
  }

  lemma CreateLoanKeepsInv(s: State, e: Event, l: LoanId)
    requires Inv(s) && e in s.log && e.BookReserved? && l !in s.created
    requires CreateLoan(s, e, l).Committed?
    ensures Inv(CreateLoan(s, e, l).state)
  {
    var n := CreateLoan(s, e, l).state;
    assert EventOk(s, e);
    assert IssuedOk(s, e.claim.reservation);
    assert LoanOk(n, l);
    OpeningLoans(s, n, l, e);
    OpeningBooks(s, n, l, e);
    OpeningRest(s, n, l, e);
    OpeningLimits(s, n, l, e);
    OpeningUnique(s, n, l, e);
  }

  // ---- Changes that touch neither aggregate of the saga ----

  /** Only patrons, terminal operation rows or worker bookkeeping differ. */
  ghost predicate SameFacts(s: State, n: State) {
    && n == s.(ops := n.ops, patrons := n.patrons, rejected := n.rejected, stale := n.stale, handled := n.handled)
    && n.patrons.Keys == s.patrons.Keys && (forall p | p in s.patrons :: n.patrons[p].email == s.patrons[p].email)
    && (forall r | r in n.ops :: r in s.ops && n.ops[r] == s.ops[r])
    && (forall r | r in s.ops && r !in n.ops :: s.ops[r].status == OpReleased || s.ops[r].status == OpReturned)
  }

  lemma SameFactsBooks(s: State, n: State)
    requires BooksOk(s) && OperationsOk(s) && SameFacts(s, n)
    ensures BooksOk(n)
  {
    forall b | b in n.books ensures BookOk(n, b) {
      assert BookOk(s, b);
      if s.books[b].Unavailable() {
        assert OperationOk(s, s.books[b].reservationId.value);
      }
    }
  }

  lemma SameFactsRest(s: State, n: State)
    requires HistoryOk(s) && OperationsOk(s) && LogOk(s) && SameFacts(s, n)
    ensures HistoryOk(n) && OperationsOk(n) && LogOk(n)
  {
    forall r | r in n.issued ensures IssuedOk(n, r) { assert IssuedOk(s, r); }
    forall r | r in n.ops ensures OperationOk(n, r) { assert OperationOk(s, r); }
    forall e | e in n.log ensures EventOk(n, e) { assert EventOk(s, e); }
  }

  lemma SameFactsInv(s: State, n: State)
    requires Inv(s) && SameFacts(s, n) && WorkersOk(n) && WithinLimits(n)
    ensures Inv(n)
  {
    SameFactsBooks(s, n);
    SameFactsRest(s, n);
    LoansFrame(s, n);
  }

  lemma ChangePatronKeepsInv(s: State, p: PatronId, cmd: Patrons.PatronCommand)
    requires Inv(s) && ChangePatron(s, p, cmd).Committed?
    ensures Inv(ChangePatron(s, p, cmd).state)
  {
    Patrons.LimitNeverShrinks(s.patrons[p], cmd);
    SameFactsInv(s, ChangePatron(s, p, cmd).state);
  }

  lemma PruneKeepsInv(s: State, r: ReservationId)
    requires Inv(s) && Enabled(s, PruneOperation(r))
    ensures Inv(s.(ops := s.ops - {r}))
  {
    SameFactsInv(s, s.(ops := s.ops - {r}));
  }

  lemma FinishKeepsInv(s: State, st: Step)
    requires Inv(s)
    ensures Inv(Finish(s, st))
  {
    SameFactsInv(s, Finish(s, st));
  }

  lemma DivertKeepsInv(s: State, e: Event)
    requires Inv(s) && e in s.log
    ensures e.BookReserved? ==> Inv(s.(rejected := s.rejected + {e}))
    ensures e.LoanCreated? && !LiveAs(s, e.claim, Catalog.Reserved) && !BorrowedWith(s, e.claim.book, e.loan) ==>
              Inv(s.(stale := s.stale + {e}))
  {
    if e.BookReserved? {
      SameFactsInv(s, s.(rejected := s.rejected + {e}));
    } else if e.LoanCreated? && !LiveAs(s, e.claim, Catalog.Reserved) && !BorrowedWith(s, e.claim.book, e.loan) {
      SameFactsInv(s, s.(stale := s.stale + {e}));
    }
  }

  lemma InvImpliesRowsValid(s: State)
    requires Inv(s)
    ensures RowsValid(s)
  {
    forall b | b in s.books ensures s.books[b].Valid() { assert BookOk(s, b); }
  }
}
