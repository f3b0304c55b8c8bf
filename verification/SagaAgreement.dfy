/**
 * Agreement at rest without any delivery order: which schedules end in it, exactly. Nothing here assumes that events
 * are first handled in outbox order.
 */
module SagaAgreement {
  import opened Shared
  import Catalog
  import Lending
  import opened Saga
  import opened SagaSafety
  import opened SagaSteps
  import opened SagaEvolution
  import opened SagaQuiescence
  import opened SagaRuns

  // ---- What a handled event guarantees in whatever order it was handled ----

  ghost predicate LooselySettled(s: State, e: Event) {
    match e
    case BookReserved(c, _, _, _) => LiveAs(s, c, Catalog.Reserved) ==> c.reservation in s.byReservation
    case LoanCreated(c, l, _, _, _, _) =>
      && !LiveAs(s, c, Catalog.Reserved)
      && (l in s.loans && s.loans[l].Outstanding() ==> BorrowedWith(s, c.book, l))
    case _ => true
  }

  ghost predicate LooselyHandled(s: State) {
    && (forall e | e in s.handled :: e in s.log && e.IsWorkflow())
    && (forall e {:trigger LooselySettled(s, e)} | e in s.handled :: LooselySettled(s, e))
  }

  lemma LooselySettledIsStable(s: State, n: State, e: Event)
    requires Inv(s) && Evolves(s, n) && e in s.log && e.IsWorkflow() && LooselySettled(s, e)
    ensures LooselySettled(n, e)
  {
    LoggedClaim(s, e);
    assert EventOk(s, e);
    if e.LoanCreated? {
      assert LoanOk(s, e.loan);
    }
  }

  lemma FirstHandlingLooselySettles(s: State, st: Step)
    requires Inv(s) && RowsValid(s) && Enabled(s, st) && st.IsWorker()
    requires Tx(s, st).Raised? ==> Acknowledged(st, Tx(s, st).error)
    ensures LooselySettled(Next(s, st), st.event)
  {
    hide Next;
    hide Tx;
    hide Inv;
    match st {
      case CreateTx(_, _) => CreateTxSettles(s, st);
      case CompensateTx(_) => CompensateTxSettles(s, st);
      case ConfirmTx(_) => ConfirmTxSettles(s, st);
      case CancelStaleTx(_) => CancelStaleTxSettles(s, st);
      case CancelReleasedTx(_) =>
      case ReturnTx(_) =>
    }
  }

  lemma NextKeepsLooselyHandled(s: State, st: Step)
    requires Inv(s) && LooselyHandled(s) && RowsValid(s) && Enabled(s, st)
    ensures LooselyHandled(Next(s, st))
  {
    var n := Next(s, st);
    OneStepOfHistory(s, st);
    hide Tx;
    hide Next;
    hide LooselySettled;
    hide Inv;
    forall e | e in n.handled ensures e in n.log && e.IsWorkflow() && LooselySettled(n, e) {
      if e in s.handled {
        assert LooselySettled(s, e);
        LooselySettledIsStable(s, n, e);
      } else {
        WorkersHandleLoggedEvents(s, st);
        FirstHandlingLooselySettles(s, st);
      }
    }
  }

  lemma {:induction false} RunKeepsLooselyHandled(tr: seq<State>, steps: seq<Step>, i: nat)
    requires Run(tr, steps) && i <= |steps|
    ensures Inv(tr[i]) && LooselyHandled(tr[i])
  {
    RunKeepsInv(tr, steps, i);
    if i > 0 {
      RunKeepsLooselyHandled(tr, steps, i - 1);
      assert Steps(tr[i - 1], steps[i - 1], tr[i]);
      NextKeepsLooselyHandled(tr[i - 1], steps[i - 1]);
    }
  }

  // ---- The only way to disagree at rest ----

  /** A book that still holds a loan which Lending has long seen returned. */
  ghost predicate HoldsReturned(s: State, b: BookId, l: LoanId) {
    BorrowedWith(s, b, l) && l in s.loans && s.loans[l].status == Lending.Returned
  }

  lemma NothingReservedAtRest(s: State, b: BookId)
    requires Inv(s) && LooselyHandled(s) && Quiescent(s) && b in s.books
    ensures s.books[b].status != Catalog.Reserved
  {
    assert BookOk(s, b);
    if s.books[b].reservationId.Some? {
      var r := s.books[b].reservationId.value;
      assert IssuedOk(s, r);
      assert LooselySettled(s, s.issued[r]);
      if r in s.byReservation {
        assert LoanOk(s, s.byReservation[r]);
        assert LooselySettled(s, s.created[s.byReservation[r]]);
      }
    }
  }

  lemma PairAtRest(s: State, b: BookId, l: LoanId)
    requires Inv(s) && LooselyHandled(s) && Quiescent(s)
    ensures (BorrowedWith(s, b, l) <==> l in s.loans && s.loans[l].claim.book == b && s.loans[l].Outstanding()) <==>
            !HoldsReturned(s, b, l)
  {
    if l in s.loans {
      assert LoanOk(s, l);
      assert LooselySettled(s, s.created[l]);
    }
    if BorrowedWith(s, b, l) {
      assert BookOk(s, b);
    }
  }

  lemma DisagreementAtRest(s: State)
    requires Inv(s) && LooselyHandled(s) && Quiescent(s)
    ensures Agreement(s) <==> forall b, l :: !HoldsReturned(s, b, l)
  {
    forall b | b in s.books ensures s.books[b].status != Catalog.Reserved {
      NothingReservedAtRest(s, b);
    }
    forall b, l
      ensures (BorrowedWith(s, b, l) <==> l in s.loans && s.loans[l].claim.book == b && s.loans[l].Outstanding()) <==>
              !HoldsReturned(s, b, l)
    {
      PairAtRest(s, b, l);
    }
  }

  // ---- How a book comes to hold a loan, and how it stops ----

  ghost predicate WasLent(s: State, l: LoanId) {
    exists e :: e in s.log && e.BookBorrowed? && e.loan == l
  }

  /** Step i is the confirmation that lent the book out under this loan. */
  ghost predicate LendsAt(tr: seq<State>, steps: seq<Step>, i: nat, l: LoanId)
    requires Run(tr, steps) && i < |steps|
  {
    steps[i].ConfirmTx? && steps[i].event.loan == l
    && Steps(tr[i], steps[i], tr[i + 1]) && Tx(tr[i], steps[i]).Committed?
  }

  /** What one committed transaction does to lendings: a confirmation starts one, a return ends one, nothing else does. */
  ghost predicate Tracks(s: State, n: State, st: Step) {
    && (forall e | e in n.log && e !in s.log && e.BookBorrowed? :: st.ConfirmTx? && st.event.LoanCreated? && st.event.loan == e.loan)
    && (forall b, l {:trigger BorrowedWith(s, b, l)} {:trigger BorrowedWith(n, b, l)} ::
          && (BorrowedWith(s, b, l) && !BorrowedWith(n, b, l) ==> st.ReturnTx? && st.event.LoanCompleted? && st.event.loan == l)
          && (BorrowedWith(n, b, l) && !BorrowedWith(s, b, l) ==> WasLent(n, l)))
  }

  lemma SameBooksTrack(s: State, n: State, st: Step)
    requires n.books == s.books && |s.log| <= |n.log| && n.log[..|s.log|] == s.log
    requires forall i | |s.log| <= i < |n.log| :: !n.log[i].BookBorrowed?
    ensures Tracks(s, n, st)
  {
    forall e | e in n.log && e !in s.log ensures !e.BookBorrowed? {
      var i :| 0 <= i < |n.log| && n.log[i] == e;
      assert forall k | 0 <= k < |s.log| :: n.log[k] == s.log[k];
    }
  }

  lemma BorrowTracks(s: State, st: Step)
    requires st.Borrow? && BorrowBook(s, st.book, st.patron, st.eligible, st.now, st.token).Committed?
    ensures Tracks(s, BorrowBook(s, st.book, st.patron, st.eligible, st.now, st.token).state, st)
  {
  }

  lemma ReleaseTracks(s: State, c: Claim, st: Step)
    requires ReleaseReservation(s, c).Committed?
    ensures Tracks(s, ReleaseReservation(s, c).state, st)
  {
  }

  lemma ConfirmTracks(s: State, st: Step)
    requires st.ConfirmTx? && st.event.LoanCreated? && RowsValid(s)
    requires ConfirmBookBorrow(s, st.event.claim, st.event.loan, st.event.borrowedAt, st.event.dueDate).Committed?
    ensures Tracks(s, ConfirmBookBorrow(s, st.event.claim, st.event.loan, st.event.borrowedAt, st.event.dueDate).state, st)
  {
    var n := ConfirmBookBorrow(s, st.event.claim, st.event.loan, st.event.borrowedAt, st.event.dueDate).state;
    assert n.log[|s.log|] in n.log && n.log[|s.log|].BookBorrowed? && n.log[|s.log|].loan == st.event.loan;
    assert WasLent(n, st.event.loan);
  }

  lemma ReturnTracks(s: State, st: Step)
    requires st.ReturnTx? && st.event.LoanCompleted? && ReturnBook(s, st.event.claim, st.event.loan).Committed?
    ensures Tracks(s, ReturnBook(s, st.event.claim, st.event.loan).state, st)
  {
  }

  lemma LendingTxTracks(s: State, st: Step)
    requires RowsValid(s) && Enabled(s, st) && Tx(s, st).Committed?
    requires st.PatronChange? || st.PruneOperation? || st.CreateTx? || st.LoanChange? || st.CancelStaleTx? || st.CancelReleasedTx?
    ensures Tracks(s, Tx(s, st).state, st)
  {
    SameBooksTrack(s, Tx(s, st).state, st);
  }

  lemma TxTracks(s: State, st: Step)
    requires Inv(s) && RowsValid(s) && Enabled(s, st) && Tx(s, st).Committed?
    ensures Tracks(s, Tx(s, st).state, st)
  {
    hide Tracks;
    hide Inv;
    match st {
      case Borrow(_, _, _, _, _) => BorrowTracks(s, st);
      case Reap(b) => ReleaseTracks(s, ClaimOf(s.books[b], b), st);
      case CompensateTx(e) => ReleaseTracks(s, e.claim, st);
      case ConfirmTx(_) => ConfirmTracks(s, st);
      case ReturnTx(_) => ReturnTracks(s, st);
      case _ => LendingTxTracks(s, st);
    }
  }

  lemma FinishTracks(s: State, n: State, st: Step)
    requires Tracks(s, n, st)
    ensures Tracks(s, Finish(n, st), st)
  {
    assert Finish(n, st).log == n.log && Finish(n, st).books == n.books;
  }

  lemma NextTracks(s: State, st: Step)
    requires Inv(s) && RowsValid(s) && Enabled(s, st)
    ensures Tracks(s, Next(s, st), st)
    ensures !Tx(s, st).Committed? ==> Next(s, st).log == s.log
  {
    if Tx(s, st).Committed? {
      TxTracks(s, st);
      FinishTracks(s, Tx(s, st).state, st);
    } else {
      NoCommitNoFacts(s, st, Tx(s, st));
      SameBooksTrack(s, Next(s, st), st);
    }
    hide Tx;
    hide Inv;
  }

  lemma {:induction false} LendingIsAStep(tr: seq<State>, steps: seq<Step>, n: nat, e: Event) returns (i: nat)
    requires Run(tr, steps) && n <= |steps| && e in tr[n].log && e.BookBorrowed?
    ensures i < n && LendsAt(tr, steps, i, e.loan)
  {
    assert Init(tr[0]);
    assert Steps(tr[n - 1], steps[n - 1], tr[n]);
    if e in tr[n - 1].log {
      i := LendingIsAStep(tr, steps, n - 1, e);
    } else {
      i := n - 1;
      RunKeepsInv(tr, steps, n - 1);
      NextTracks(tr[n - 1], steps[n - 1]);
    }
  }

  /** Right after it the book holds the loan, and the reservation is no longer a mere lock. */
  lemma JustLent(tr: seq<State>, steps: seq<Step>, i: nat, l: LoanId)
    requires Run(tr, steps) && i < |steps| && LendsAt(tr, steps, i, l)
    ensures l in tr[i + 1].loans && Issued(tr[i + 1], tr[i + 1].loans[l].claim)
    ensures BorrowedWith(tr[i + 1], tr[i + 1].loans[l].claim.book, l)
    ensures !LiveAs(tr[i + 1], tr[i + 1].loans[l].claim, Catalog.Reserved)
  {
    var s, e := tr[i], steps[i].event;
    RunKeepsInv(tr, steps, i);
    LoggedClaim(s, e);
    assert EventOk(s, e) && LoanOk(s, l);
  }

  /** A loan's claim is settled, and its reservation no longer a mere lock: it cannot be lent out again. */
  ghost predicate OutOfTheLock(s: State, l: LoanId) {
    l in s.loans && Issued(s, s.loans[l].claim) && !LiveAs(s, s.loans[l].claim, Catalog.Reserved)
  }

  ghost predicate SameClaim(s: State, n: State, l: LoanId) {
    l in s.loans && l in n.loans && n.loans[l].claim == s.loans[l].claim
  }

  lemma NextStaysOut(s: State, st: Step, b: BookId, l: LoanId)
    requires Inv(s) && RowsValid(s) && Enabled(s, st) && OutOfTheLock(s, l)
    ensures OutOfTheLock(Next(s, st), l)
    ensures BorrowedWith(Next(s, st), b, l) ==> BorrowedWith(s, b, l)
    ensures SameClaim(s, Next(s, st), l)
  {
    NextEvolves(s, st);
    hide Next;
    hide Inv;
  }

  lemma {:induction false} NeverLentAgain(tr: seq<State>, steps: seq<Step>, j: nat, n: nat, b: BookId, l: LoanId)
    requires Run(tr, steps) && j <= n <= |steps| && OutOfTheLock(tr[j], l)
    ensures OutOfTheLock(tr[n], l) && SameClaim(tr[j], tr[n], l)
    ensures BorrowedWith(tr[n], b, l) ==> BorrowedWith(tr[j], b, l)
    decreases n
  {
    hide Inv;
    hide Next;
    hide BorrowedWith;
    if j < n {
      NeverLentAgain(tr, steps, j, n - 1, b, l);
      RunKeepsInv(tr, steps, n - 1);
      assert Steps(tr[n - 1], steps[n - 1], tr[n]);
      NextStaysOut(tr[n - 1], steps[n - 1], b, l);
    }
  }

  /** If the book held the loan and no longer does, its completion was delivered in between. */
  lemma {:induction false} TakenBack(tr: seq<State>, steps: seq<Step>, i: nat, n: nat, b: BookId, l: LoanId) returns (j: nat)
    requires Run(tr, steps) && i <= n <= |steps| && BorrowedWith(tr[i], b, l) && !BorrowedWith(tr[n], b, l)
    ensures i <= j < n && steps[j].ReturnTx? && steps[j].event.loan == l && steps[j].event in tr[j].log
    decreases n
  {
    hide Inv;
    hide Next;
    hide Tx;
    hide RowsValid;
    assert Steps(tr[n - 1], steps[n - 1], tr[n]);
    RunKeepsInv(tr, steps, n - 1);
    if BorrowedWith(tr[n - 1], b, l) {
      j := n - 1;
      NextTracks(tr[n - 1], steps[n - 1]);
    } else {
      j := TakenBack(tr, steps, i, n - 1, b, l);
    }
  }

  /** A loan has one completion event. */
  lemma OneCompletion(s: State, e: Event, f: Event)
    requires Inv(s) && e in s.log && f in s.log && e.LoanCompleted? && f.LoanCompleted? && e.loan == f.loan
    ensures e == f
  {
    assert EventOk(s, e) && EventOk(s, f);
  }

  // ---- The theorem ----

  /** Some delivery of this completion ran after the confirmation that lent the book out. */
  ghost predicate ReturnedAfterLending(tr: seq<State>, steps: seq<Step>, n: nat, completion: Event)
    requires Run(tr, steps) && n <= |steps| && completion.LoanCompleted?
  {
    exists i, j {:trigger LendsAt(tr, steps, i, completion.loan), steps[j]} | 0 <= i < j < n ::
      LendsAt(tr, steps, i, completion.loan) && steps[j] == ReturnTx(completion)
  }

  /** Every loan that was both lent out and completed had its completion delivered after the lending. */
  ghost predicate InTime(tr: seq<State>, steps: seq<Step>, n: nat)
    requires Run(tr, steps) && n <= |steps|
  {
    forall f {:trigger ReturnedAfterLending(tr, steps, n, f)} |
      f in tr[n].log && f.LoanCompleted? && WasLent(tr[n], f.loan) :: ReturnedAfterLending(tr, steps, n, f)
  }

  lemma LateReturnFreesTheBook(tr: seq<State>, steps: seq<Step>, n: nat, f: Event, b: BookId)
    requires Run(tr, steps) && n <= |steps| && f.LoanCompleted? && ReturnedAfterLending(tr, steps, n, f)
    ensures !BorrowedWith(tr[n], b, f.loan)
  {
    var i, j :| 0 <= i < j < n && LendsAt(tr, steps, i, f.loan) && steps[j] == ReturnTx(f);
    JustLent(tr, steps, i, f.loan);
    var home := tr[i + 1].loans[f.loan].claim.book;
    NeverLentAgain(tr, steps, i + 1, j + 1, b, f.loan);
    RunKeepsInv(tr, steps, j);
    assert Steps(tr[j], steps[j], tr[j + 1]);
    ReturnTxReturns(tr[j], steps[j]);
    CompletionNamesItsBook(tr[j], f);
    hide Inv;
    hide Next;
    hide Tx;
    NeverLentAgain(tr, steps, i + 1, j, b, f.loan);
    NeverLentAgain(tr, steps, j + 1, n, b, f.loan);
    if BorrowedWith(tr[n], b, f.loan) {
      OneBookPerLoan(tr, steps, i + 1, b, home, f.loan);
    }
  }

  lemma CompletionNamesItsBook(s: State, f: Event)
    requires Inv(s) && f in s.log && f.LoanCompleted?
    ensures f.loan in s.loans && f.claim == s.loans[f.loan].claim
  {
    assert EventOk(s, f);
  }

  lemma OneBookPerLoan(tr: seq<State>, steps: seq<Step>, i: nat, b: BookId, home: BookId, l: LoanId)
    requires Run(tr, steps) && i <= |steps| && BorrowedWith(tr[i], b, l) && BorrowedWith(tr[i], home, l)
    ensures b == home
  {
    RunKeepsInv(tr, steps, i);
    assert BookOk(tr[i], b) && BookOk(tr[i], home);
  }

  lemma InTimeFreesEveryBook(tr: seq<State>, steps: seq<Step>, n: nat, b: BookId, l: LoanId)
    requires Run(tr, steps) && n <= |steps| && InTime(tr, steps, n)
    ensures !HoldsReturned(tr[n], b, l)
  {
    if HoldsReturned(tr[n], b, l) {
      RunKeepsInv(tr, steps, n);
      assert LoanOk(tr[n], l);
      var f := Lending.CompletionOf(l, tr[n].loans[l]);
      BorrowedWasLent(tr, steps, n, b, l);
      assert ReturnedAfterLending(tr, steps, n, f);
      LateReturnFreesTheBook(tr, steps, n, f, b);
    }
  }

  /** A book that holds a loan got it by a confirmation that is in the log. */
  lemma {:induction false} BorrowedWasLent(tr: seq<State>, steps: seq<Step>, n: nat, b: BookId, l: LoanId)
    requires Run(tr, steps) && n <= |steps| && BorrowedWith(tr[n], b, l)
    ensures WasLent(tr[n], l)
  {
    if n > 0 {
      assert Steps(tr[n - 1], steps[n - 1], tr[n]);
      RunKeepsInv(tr, steps, n - 1);
      if BorrowedWith(tr[n - 1], b, l) {
        BorrowedWasLent(tr, steps, n - 1, b, l);
        NextEvolves(tr[n - 1], steps[n - 1]);
        var e :| e in tr[n - 1].log && e.BookBorrowed? && e.loan == l;
        assert e in tr[n].log;
      } else {
        NextTracks(tr[n - 1], steps[n - 1]);
      }
    }
  }

  lemma CompletedIsReturned(s: State, f: Event)
    requires Inv(s) && f in s.log && f.LoanCompleted?
    ensures f.loan in s.loans && s.loans[f.loan].status == Lending.Returned
  {
    assert EventOk(s, f);
  }

  lemma AgreementIsInTime(tr: seq<State>, steps: seq<Step>, n: nat, f: Event)
    requires Run(tr, steps) && n <= |steps| && f in tr[n].log && f.LoanCompleted? && WasLent(tr[n], f.loan)
    requires forall b :: !HoldsReturned(tr[n], b, f.loan)
    ensures ReturnedAfterLending(tr, steps, n, f)
  {
    RunKeepsInv(tr, steps, n);
    CompletedIsReturned(tr[n], f);
    hide Inv;
    hide Run;
    var e :| e in tr[n].log && e.BookBorrowed? && e.loan == f.loan;
    var i := LendingIsAStep(tr, steps, n, e);
    JustLent(tr, steps, i, f.loan);
    var b := tr[i + 1].loans[f.loan].claim.book;
    assert !HoldsReturned(tr[n], b, f.loan);
    var j := TakenBack(tr, steps, i + 1, n, b, f.loan);
    LogOnlyGrows(tr, steps, j, n);
    OneCompletion(tr[n], steps[j].event, f);
    assert LendsAt(tr, steps, i, f.loan) && steps[j] == ReturnTx(f);
  }

  /**
   * In whatever order the events were handled: once nothing is pending both contexts agree if and only if, for every
   * loan that was lent out and completed, some delivery of the completion ran after the confirmation that lent the
   * book out.
   */
  lemma AgreementIsExact(tr: seq<State>, steps: seq<Step>, n: nat)
    requires Run(tr, steps) && n <= |steps| && Quiescent(tr[n])
    ensures Agreement(tr[n]) <==> InTime(tr, steps, n)
  {
    RunKeepsLooselyHandled(tr, steps, n);
    DisagreementAtRest(tr[n]);
    if InTime(tr, steps, n) {
      forall b, l ensures !HoldsReturned(tr[n], b, l) {
        InTimeFreesEveryBook(tr, steps, n, b, l);
      }
    }
    if Agreement(tr[n]) {
      forall f | f in tr[n].log && f.LoanCompleted? && WasLent(tr[n], f.loan) ensures ReturnedAfterLending(tr, steps, n, f) {
        AgreementIsInTime(tr, steps, n, f);
      }
    }
  }
}
