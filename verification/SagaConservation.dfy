/** Conservation laws between the aggregates' counters and the events they staged in the outbox. */
module SagaConservation {
  import opened Shared
  import Catalog
  import Lending
  import opened Saga
  import opened SagaSafety
  import opened SagaEvolution
  import opened SagaRuns

  datatype Kind = Reserves | Releases | Borrows | Returns

  predicate IsKind(e: Event, k: Kind) {
    match k
    case Reserves => e.BookReserved?
    case Releases => e.BookReleased?
    case Borrows => e.BookBorrowed?
    case Returns => e.BookReturned?
  }

  /** How many events of this kind a book has staged. */
  function Tally(log: seq<Event>, b: BookId, k: Kind): nat {
    if log == [] then 0
    else Tally(log[..|log| - 1], b, k) + if IsKind(log[|log| - 1], k) && log[|log| - 1].claim.book == b then 1 else 0
  }

  /** How many events an aggregate has staged. */
  function Staged(log: seq<Event>, aggregate: (bool, nat)): nat {
    if log == [] then 0
    else Staged(log[..|log| - 1], aggregate) + if log[|log| - 1].Aggregate() == aggregate then 1 else 0
  }

  lemma Append(log: seq<Event>, e: Event)
    ensures forall b, k :: Tally(log + [e], b, k) == Tally(log, b, k) + if IsKind(e, k) && e.claim.book == b then 1 else 0
    ensures forall a :: Staged(log + [e], a) == Staged(log, a) + if e.Aggregate() == a then 1 else 0
  {
    assert (log + [e])[..|log|] == log;
  }

  ghost predicate BookBalanced(s: State, b: BookId)
    requires b in s.books
  {
    var book := s.books[b];
    && book.version == Staged(s.log, (true, b))
    && book.generation == Tally(s.log, b, Reserves)
    && Tally(s.log, b, Reserves) == Tally(s.log, b, Releases) + Tally(s.log, b, Borrows)
         + (if book.status == Catalog.Reserved then 1 else 0)
    && Tally(s.log, b, Borrows) == Tally(s.log, b, Returns) + (if book.status == Catalog.Borrowed then 1 else 0)
  }

  ghost predicate LoanBalanced(s: State, l: LoanId) {
    Staged(s.log, (false, l)) == if l in s.loans then s.loans[l].version + 1 else 0
  }

  ghost predicate Balanced(s: State) {
    && (forall b {:trigger BookBalanced(s, b)} | b in s.books :: BookBalanced(s, b))
    && (forall l {:trigger LoanBalanced(s, l)} :: LoanBalanced(s, l))
  }

  ghost predicate BookMoved(s: State, n: State, b: BookId, ev: Event) {
    && b in s.books && b in n.books && n.books == s.books[b := n.books[b]] && n.loans == s.loans
    && n.log == s.log + [ev] && ev.OfBook() && ev.claim.book == b
    && var old_, new_ := s.books[b], n.books[b];
       && new_.version == old_.version + 1
       && new_.generation == old_.generation + (if ev.BookReserved? then 1 else 0)
       && match ev
          case BookReserved(_, _, _, _) => old_.status == Catalog.Available && new_.status == Catalog.Reserved
          case BookBorrowed(_, _, _, _, _, _) => old_.status == Catalog.Reserved && new_.status == Catalog.Borrowed
          case BookReleased(_) => old_.status == Catalog.Reserved && new_.status == Catalog.Available
          case _ => old_.status == Catalog.Borrowed && new_.status == Catalog.Available
  }

  ghost predicate LoanMoved(s: State, n: State, l: LoanId, ev: Event) {
    && n.books == s.books && l in n.loans && n.loans == s.loans[l := n.loans[l]]
    && n.log == s.log + [ev] && !ev.OfBook() && ev.loan == l
    && n.loans[l].version == if l in s.loans then s.loans[l].version + 1 else 0
  }

  lemma BookMovedBalances(s: State, n: State, b: BookId, ev: Event)
    requires Balanced(s) && BookMoved(s, n, b, ev)
    ensures Balanced(n)
  {
    Append(s.log, ev);
    forall c | c in n.books ensures BookBalanced(n, c) {
      assert BookBalanced(s, c);
    }
    forall l ensures LoanBalanced(n, l) {
      assert LoanBalanced(s, l);
    }
  }

  lemma LoanMovedBalances(s: State, n: State, l: LoanId, ev: Event)
    requires Balanced(s) && LoanMoved(s, n, l, ev)
    ensures Balanced(n)
  {
    Append(s.log, ev);
    forall c | c in n.books ensures BookBalanced(n, c) {
      assert BookBalanced(s, c);
    }
    forall m ensures LoanBalanced(n, m) {
      assert LoanBalanced(s, m);
    }
  }

  lemma NothingMovedBalances(s: State, n: State)
    requires Balanced(s) && n.books == s.books && n.loans == s.loans && n.log == s.log
    ensures Balanced(n)
  {
    forall c | c in n.books ensures BookBalanced(n, c) {
      assert BookBalanced(s, c);
    }
    forall m ensures LoanBalanced(n, m) {
      assert LoanBalanced(s, m);
    }
  }

  // ---- Each transaction moves one book, one loan or neither, and stages one event for what it moved ----

  lemma BorrowBalances(s: State, book: BookId, patron: PatronId, eligible: bool, now: Time, token: ReservationId)
    requires Balanced(s) && BorrowBook(s, book, patron, eligible, now, token).Committed?
    ensures Balanced(BorrowBook(s, book, patron, eligible, now, token).state)
  {
    var n := BorrowBook(s, book, patron, eligible, now, token).state;
    BookMovedBalances(s, n, book, n.issued[token]);
  }

  lemma ReleaseBalances(s: State, c: Claim)
    requires Balanced(s) && ReleaseReservation(s, c).Committed?
    ensures Balanced(ReleaseReservation(s, c).state)
  {
    BookMovedBalances(s, ReleaseReservation(s, c).state, c.book, BookReleased(c));
  }

  lemma ReturnBalances(s: State, c: Claim, l: LoanId)
    requires Balanced(s) && ReturnBook(s, c, l).Committed?
    ensures Balanced(ReturnBook(s, c, l).state)
  {
    BookMovedBalances(s, ReturnBook(s, c, l).state, c.book, BookReturned(c, l));
  }

  lemma ConfirmBalances(s: State, c: Claim, l: LoanId, at: Time, due: Time)
    requires Balanced(s) && RowsValid(s) && ConfirmBookBorrow(s, c, l, at, due).Committed?
    ensures Balanced(ConfirmBookBorrow(s, c, l, at, due).state)
  {
    var n := ConfirmBookBorrow(s, c, l, at, due).state;
    BookMovedBalances(s, n, c.book, n.log[|s.log|]);
  }

  lemma ChangeLoanBalances(s: State, l: LoanId, cmd: Lending.LoanCommand)
    requires Balanced(s) && ChangeLoan(s, l, cmd).Committed?
    ensures Balanced(ChangeLoan(s, l, cmd).state)
  {
    LoanMovedBalances(s, ChangeLoan(s, l, cmd).state, l, Lending.React(s.loans[l], l, cmd).event);
  }

  lemma CancelBalances(s: State, c: Claim, expected: Option<LoanId>)
    requires Balanced(s) && CancelLoan(s, c, expected).Committed?
    ensures Balanced(CancelLoan(s, c, expected).state)
  {
    ChangeLoanBalances(s, FindByReservation(s, c.reservation).value, Lending.DoCancel);
  }

  lemma CreateLoanBalances(s: State, e: Event, l: LoanId)
    requires Balanced(s) && e.BookReserved? && l !in s.loans && CreateLoan(s, e, l).Committed?
    ensures Balanced(CreateLoan(s, e, l).state)
  {
    var n := CreateLoan(s, e, l).state;
    LoanMovedBalances(s, n, l, n.created[l]);
  }

  lemma TxKeepsBalance(s: State, st: Step)
    requires IndexesOk(s) && Balanced(s) && RowsValid(s) && Enabled(s, st) && Tx(s, st).Committed?
    ensures Balanced(Tx(s, st).state)
  {
    match st {
      case Borrow(b, p, eligible, now, token) => BorrowBalances(s, b, p, eligible, now, token);
      case LoanChange(l, cmd) => ChangeLoanBalances(s, l, cmd);
      case PatronChange(_, _) => NothingMovedBalances(s, Tx(s, st).state);
      case Reap(b) => ReleaseBalances(s, ClaimOf(s.books[b], b));
      case PruneOperation(_) => NothingMovedBalances(s, Tx(s, st).state);
      case CreateTx(e, l) => CreateLoanBalances(s, e, l);
      case CompensateTx(e) => ReleaseBalances(s, e.claim);
      case ConfirmTx(e) => ConfirmBalances(s, e.claim, e.loan, e.borrowedAt, e.dueDate);
      case CancelStaleTx(e) => CancelBalances(s, e.claim, Some(e.loan));
      case CancelReleasedTx(e) => CancelBalances(s, e.claim, None);
      case ReturnTx(e) => ReturnBalances(s, e.claim, e.loan);
    }
  }

  lemma NextKeepsBalance(s: State, st: Step)
    requires IndexesOk(s) && Balanced(s) && RowsValid(s) && Enabled(s, st)
    ensures Balanced(Next(s, st))
  {
    if Tx(s, st).Committed? {
      TxKeepsBalance(s, st);
      NothingMovedBalances(Tx(s, st).state, Next(s, st));
    } else {
      NoCommitNoFacts(s, st, Tx(s, st));
      NothingMovedBalances(s, Next(s, st));
    }
  }

  lemma {:induction false} RunBalances(tr: seq<State>, steps: seq<Step>, i: nat)
    requires Run(tr, steps) && i <= |steps|
    ensures Balanced(tr[i])
  {
    if i == 0 {
      forall b | b in tr[0].books ensures BookBalanced(tr[0], b) {}
      forall l ensures LoanBalanced(tr[0], l) {}
    } else {
      RunBalances(tr, steps, i - 1);
      RunKeepsInv(tr, steps, i - 1);
      assert Steps(tr[i - 1], steps[i - 1], tr[i]);
      NextKeepsBalance(tr[i - 1], steps[i - 1]);
    }
  }

  /** In every reachable state each book's and each loan's counters add up to its outbox events. */
  lemma Conservation(tr: seq<State>, steps: seq<Step>, i: nat, b: BookId, l: LoanId)
    requires Run(tr, steps) && i <= |steps| && b in tr[i].books && l in tr[i].loans
    ensures var s, book := tr[i], tr[i].books[b];
            && book.generation == Tally(s.log, b, Reserves)
            && Tally(s.log, b, Reserves) == Tally(s.log, b, Releases) + Tally(s.log, b, Borrows)
                 + (if book.status == Catalog.Reserved then 1 else 0)
            && Tally(s.log, b, Borrows) == Tally(s.log, b, Returns) + (if book.status == Catalog.Borrowed then 1 else 0)
            && Staged(s.log, (true, b)) == book.version
            && Staged(s.log, (false, l)) == s.loans[l].version + 1
  {
    RunBalances(tr, steps, i);
    assert BookBalanced(tr[i], b) && LoanBalanced(tr[i], l);
  }
}
