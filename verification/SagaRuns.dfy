/** The headline theorems, stated over whole runs from an untouched library. */
module SagaRuns {
  import opened Shared
  import Catalog
  import Lending
  import Patrons
  import opened Saga
  import opened SagaSafety
  import opened SagaSteps
  import opened SagaTheorems
  import opened SagaEvolution
  import opened SagaQuiescence

  /** One step of a run. */
  ghost predicate Steps(s: State, st: Step, n: State) {
    RowsValid(s) && Enabled(s, st) && n == Next(s, st)
  }

  ghost predicate Run(tr: seq<State>, steps: seq<Step>) {
    && |tr| == |steps| + 1
    && Init(tr[0])
    && forall i {:trigger steps[i]} | 0 <= i < |steps| :: Steps(tr[i], steps[i], tr[i + 1])
  }

  /** As Run, but each partition's events are first handled in order. */
  ghost predicate OrderedRun(tr: seq<State>, steps: seq<Step>) {
    && Run(tr, steps)
    && forall i {:trigger steps[i]} | 0 <= i < |steps| :: EnabledInOrder(tr[i], steps[i])
  }

  lemma {:induction false} RunKeepsInv(tr: seq<State>, steps: seq<Step>, i: nat)
    requires Run(tr, steps) && i <= |steps|
    ensures Inv(tr[i])
  {
    if i == 0 {
      InitInv(tr[0]);
    } else {
      RunKeepsInv(tr, steps, i - 1);
      NextKeepsInv(tr[i - 1], steps[i - 1]);
      assert tr[i] == Next(tr[i - 1], steps[i - 1]);
    }
  }

  lemma {:induction false} OrderedRunKeepsInv(tr: seq<State>, steps: seq<Step>, i: nat)
    requires OrderedRun(tr, steps) && i <= |steps|
    ensures OrderedInv(tr[i])
  {
    if i == 0 {
      InitInv(tr[0]);
    } else {
      OrderedRunKeepsInv(tr, steps, i - 1);
      NextKeepsOrderedInv(tr[i - 1], steps[i - 1]);
      assert tr[i] == Next(tr[i - 1], steps[i - 1]);
    }
  }

  /** A borrowed book's loan is real, is this reservation's, runs long enough and is not cancelled. */
  lemma BorrowedBookHasItsLoan(tr: seq<State>, steps: seq<Step>, i: nat, b: BookId)
    requires Run(tr, steps) && i <= |steps|
    requires b in tr[i].books && tr[i].books[b].status == Catalog.Borrowed
    ensures var s, book := tr[i], tr[i].books[b];
            && book.currentLoanId.Some? && book.currentLoanId.value in s.loans
            && var loan := s.loans[book.currentLoanId.value];
               && loan.claim.book == b && book.Matches(loan.claim)
               && book.borrowedAt == Some(loan.borrowedAt) && book.email == Some(loan.email)
               && book.returnDueDate.Some? && loan.borrowedAt < book.returnDueDate.value <= loan.dueDate
               && loan.status != Lending.Cancelled
  {
    RunKeepsInv(tr, steps, i);
    assert BookOk(tr[i], b);
    assert LoanOk(tr[i], tr[i].books[b].currentLoanId.value);
  }

  lemma {:induction false} LogOnlyGrows(tr: seq<State>, steps: seq<Step>, i: nat, j: nat)
    requires Run(tr, steps) && i <= j <= |steps|
    ensures tr[i].log <= tr[j].log
    ensures forall r | r in tr[i].issued :: r in tr[j].issued && tr[j].issued[r] == tr[i].issued[r]
    decreases j
  {
    hide Inv;
    hide Next;
    hide Tx;
    if i < j {
      LogOnlyGrows(tr, steps, i, j - 1);
      RunKeepsInv(tr, steps, j - 1);
      assert Steps(tr[j - 1], steps[j - 1], tr[j]);
      NextEvolves(tr[j - 1], steps[j - 1]);
    }
  }

  /** The definitive borrow fact is never retracted: its loan is not cancelled, then or later. */
  lemma ConfirmedLoanIsNeverCancelled(tr: seq<State>, steps: seq<Step>, i: nat, j: nat, e: Event)
    requires Run(tr, steps) && i <= j <= |steps|
    requires e in tr[i].log && e.BookBorrowed?
    ensures e.loan in tr[j].loans && tr[j].loans[e.loan].status != Lending.Cancelled
  {
    LogOnlyGrows(tr, steps, i, j);
    RunKeepsInv(tr, steps, j);
    assert EventOk(tr[j], e);
  }

  /**
   * A published borrow names what the borrower must be told: the title, address and time of its loan and of the
   * reservation it came from, and the due date its loan was created with.
   */
  lemma BorrowedEventIsItsLoan(tr: seq<State>, steps: seq<Step>, i: nat, e: Event)
    requires Run(tr, steps) && i <= |steps| && e in tr[i].log && e.BookBorrowed?
    ensures var s, r := tr[i], e.claim.reservation;
            && e.loan in s.loans && r in s.issued && s.issued[r].BookReserved? && s.issued[r] in s.log
            && e.claim == s.loans[e.loan].claim == s.issued[r].claim
            && e.title == s.loans[e.loan].title == s.issued[r].title
            && e.email == s.loans[e.loan].email == s.issued[r].email
            && e.borrowedAt == s.loans[e.loan].borrowedAt == s.issued[r].reservedAt
            && LoanCreated(e.claim, e.loan, e.title, e.email, e.borrowedAt, e.dueDate) in s.log
            && e.borrowedAt < e.dueDate <= s.loans[e.loan].dueDate
            && e.claim.patron in s.patrons && s.patrons[e.claim.patron].email == e.email
            && e.claim.book in s.books && s.books[e.claim.book].title == e.title
  {
    RunKeepsInv(tr, steps, i);
    assert EventOk(tr[i], e) && LoanOk(tr[i], e.loan) && IssuedOk(tr[i], e.claim.reservation);
  }

  /** Every other event about a loan is about that loan as it is, or as it was on the way there. */
  lemma EventsNameTheirLoans(tr: seq<State>, steps: seq<Step>, i: nat, e: Event)
    requires Run(tr, steps) && i <= |steps| && e in tr[i].log && !e.BookReserved? && !e.BookReleased? && !e.BookBorrowed?
    ensures e.loan in tr[i].loans
    ensures var loan := tr[i].loans[e.loan];
            && loan.claim == e.claim
            && match e
               case LoanCreated(_, _, title, email, at, due) =>
                 (title, email, at) == (loan.title, loan.email, loan.borrowedAt) && at < due <= loan.dueDate
               case LoanCompleted(_, _, at, late) =>
                 loan.status == Lending.Returned && loan.returnedAt == Some(at) && (late <==> loan.dueDate < at)
               case LoanCancelled(_, _) => loan.status == Lending.Cancelled
               case LoanOverdue(_, _, due) => loan.status != Lending.Active && loan.dueDate == due
               case LoanExtended(_, _, before, after) => loan.borrowedAt < before < after <= loan.dueDate
               case _ => loan.status == Lending.Returned
  {
    RunKeepsInv(tr, steps, i);
    assert EventOk(tr[i], e);
    assert LoanOk(tr[i], e.loan);
  }

  /** A reservation that no longer holds its book never holds it again. */
  lemma {:induction false} DeadReservationStaysDead(tr: seq<State>, steps: seq<Step>, i: nat, j: nat, c: Claim)
    requires Run(tr, steps) && i <= j <= |steps|
    requires Issued(tr[i], c) && !Live(tr[i], c)
    ensures Issued(tr[j], c) && !Live(tr[j], c)
    decreases j
  {
    if i < j {
      DeadReservationStaysDead(tr, steps, i, j - 1, c);
      RunKeepsInv(tr, steps, j - 1);
      NextEvolves(tr[j - 1], steps[j - 1]);
      assert tr[j] == Next(tr[j - 1], steps[j - 1]);
    }
  }

  /**
   * No logged saga event can poison a partition: whatever worker transaction is tried, in any reachable
   * state, it commits, changes nothing, or raises exactly the error its handler is written to absorb.
   */
  lemma NoPoisonEvent(tr: seq<State>, steps: seq<Step>, i: nat, st: Step)
    requires Run(tr, steps) && i <= |steps| && Enabled(tr[i], st) && st.IsWorker()
    ensures RowsValid(tr[i])
    ensures match Tx(tr[i], st)
            case Raised(StaleReservation) => st.ConfirmTx? || st.CompensateTx?
            case Raised(StaleLoanCompletion) => st.ReturnTx?
            case Raised(err) => st.CreateTx? && IsBusinessRejection(err)
            case _ => true
  {
    RunKeepsInv(tr, steps, i);
    NextKeepsInv(tr[i], st);
  }

  /** The reaper's release of a reserved book always commits, with its operation row. */
  lemma ReaperNeverFails(tr: seq<State>, steps: seq<Step>, i: nat, b: BookId)
    requires Run(tr, steps) && i <= |steps| && Enabled(tr[i], Reap(b))
    ensures RowsValid(tr[i]) && Tx(tr[i], Reap(b)).Committed?
  {
    RunKeepsInv(tr, steps, i);
    InvImpliesRowsValid(tr[i]);
    ReapStep(tr[i], Reap(b));
  }

  /**
   * The borrow_operations row of a reservation says RESERVED or BORROWED exactly while the reservation
   * holds its book in that status; only rows of dead reservations may have been pruned.
   */
  lemma OperationAgreement(tr: seq<State>, steps: seq<Step>, i: nat, r: ReservationId)
    requires Run(tr, steps) && i <= |steps| && r in tr[i].issued
    ensures var s, c := tr[i], tr[i].issued[r].claim;
            && (LiveAs(s, c, Catalog.Reserved) <==> r in s.ops && s.ops[r].status == OpReserved)
            && (LiveAs(s, c, Catalog.Borrowed) <==> r in s.ops && s.ops[r].status == OpBorrowed)
            && (r !in s.ops ==> !Live(s, c))
  {
    var s := tr[i];
    RunKeepsInv(tr, steps, i);
    assert IssuedOk(s, r) && BookOk(s, s.issued[r].claim.book);
    if r in s.ops {
      assert OperationOk(s, r);
    }
  }

  /** With ordered first handling, once nothing is pending both contexts agree. */
  lemma QuiescentAgreement(tr: seq<State>, steps: seq<Step>, i: nat)
    requires OrderedRun(tr, steps) && i <= |steps| && Quiescent(tr[i])
    ensures Agreement(tr[i])
  {
    OrderedRunKeepsInv(tr, steps, i);
    QuiescenceImpliesAgreement(tr[i]);
  }

  // ---- Why the order is needed ----

  // A run on one book and one patron: reserve, lend, give back, and see the completion before the creation.

  const DUE: Time := 100 + 14 * DAY
  const C: Claim := Claim(0, 7, 1, 0)
  const RESERVED_EVENT: Event := BookReserved(C, 0, 0, 100)
  const CREATED_EVENT: Event := LoanCreated(C, 1, 0, 0, 100, DUE)
  const COMPLETED_EVENT: Event := LoanCompleted(C, 1, 200, false)

  const ON_SHELF := Catalog.BookState(0, Catalog.Available, None, None, None, None, 0, None, None, None, None, 0)
  const ON_HOLD := Catalog.BookState(0, Catalog.Reserved, Some(100), None, None, Some(7), 1, Some(0), Some(0), None, None, 1)
  const ON_LOAN := Catalog.BookState(0, Catalog.Borrowed, None, Some(100), Some(DUE), Some(7), 1, Some(0), Some(0), Some(1), None, 2)
  const LENT := Lending.LoanState(C, 0, 0, 100, DUE, Lending.Active, None, 0)
  const GIVEN_BACK := Lending.LoanState(C, 0, 0, 100, DUE, Lending.Returned, Some(200), 1)

  const S0 := State(map[0 := ON_SHELF], map[], map[], map[], map[0 := Patrons.PatronState(0, Lending.Regular, false, None, 0)],
                    [], map[], map[], {}, {}, {})
  const S1 := S0.(books := map[0 := ON_HOLD], ops := map[7 := Operation(0, 0, 1, OpReserved, None)],
                  log := [RESERVED_EVENT], issued := map[7 := RESERVED_EVENT])
  const S2 := S1.(loans := map[1 := LENT], byReservation := map[7 := 1], log := [RESERVED_EVENT, CREATED_EVENT],
                  created := map[1 := CREATED_EVENT], handled := {RESERVED_EVENT})
  const S3 := S2.(loans := map[1 := GIVEN_BACK], log := [RESERVED_EVENT, CREATED_EVENT, COMPLETED_EVENT])
  const S4 := S3.(handled := {RESERVED_EVENT, COMPLETED_EVENT})
  const S5 := S4.(books := map[0 := ON_LOAN], ops := map[7 := Operation(0, 0, 1, OpBorrowed, Some(1))],
                  log := [RESERVED_EVENT, CREATED_EVENT, COMPLETED_EVENT, BookBorrowed(C, 1, 0, 0, 100, DUE)],
                  handled := {RESERVED_EVENT, COMPLETED_EVENT, CREATED_EVENT})

  /** Some run from an untouched library ends in this state. */
  ghost predicate Reachable(s: State) {
    exists tr, steps :: Run(tr, steps) && tr[|steps|] == s
  }

  lemma ReachableStep(s: State, st: Step, n: State)
    requires Reachable(s) && Steps(s, st, n)
    ensures Reachable(n)
  {
    hide Steps;
    hide Init;
    var tr, steps :| Run(tr, steps) && tr[|steps|] == s;
    var tr', steps' := tr + [n], steps + [st];
    forall i | 0 <= i < |steps'| ensures Steps(tr'[i], steps'[i], tr'[i + 1]) {
      if i < |steps| {
        assert Steps(tr[i], steps[i], tr[i + 1]);
      }
    }
    assert Run(tr', steps') && tr'[|steps'|] == n;
  }

  lemma HoldStep() ensures Reachable(S1) {
    assert Run([S0], []) && [S0][0] == S0;
    ReachableStep(S0, Borrow(0, 0, true, 100, 7), S1);
  }

  lemma LendStep() ensures Reachable(S2) {
    HoldStep();
    assert OutstandingOf(S1.loans, 0) == {};
    assert S2.log == S1.log + [CREATED_EVENT];
    ReachableStep(S1, CreateTx(RESERVED_EVENT, 1), S2);
  }

  lemma GiveBackStep() ensures Reachable(S3) {
    LendStep();
    assert S3.log == S2.log + [COMPLETED_EVENT];
    ReachableStep(S2, LoanChange(1, Lending.DoReturn(200)), S3);
  }

  lemma SwallowStep() ensures Reachable(S4) {
    GiveBackStep();
    ReachableStep(S3, ReturnTx(COMPLETED_EVENT), S4);
  }

  lemma LateConfirmTx() ensures ConfirmBookBorrow(S4, C, 1, 100, DUE) == Committed(S5.(handled := S4.handled)) {
    assert S5.log == S4.log + [BookBorrowed(C, 1, 0, 0, 100, DUE)];
  }

  lemma LateConfirmStep() ensures Reachable(S5) {
    SwallowStep();
    LateConfirmTx();
    hide ConfirmBookBorrow;
    hide Reachable;
    ReachableStep(S4, ConfirmTx(CREATED_EVENT), S5);
  }

  /** A completion handled before its creation is swallowed as stale, and the disagreement stays. */
  lemma UnorderedDeliveryCanDisagree()
    ensures exists s :: Reachable(s) && Quiescent(s) && !Agreement(s)
  {
    LateConfirmStep();
    assert BorrowedWith(S5, 0, 1) && !S5.loans[1].Outstanding();
  }
}
