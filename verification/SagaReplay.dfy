/**
 * The outbox is the whole story: reading the events alone, from an untouched book or from nothing, gives every
 * book row and every loan row, field for field. What an event means is defined here by its own fields; nothing
 * refers to the transitions of the aggregates.
 */
module SagaReplay {
  import opened Shared
  import Catalog
  import Lending
  import opened Saga
  import opened SagaSafety
  import opened SagaSteps
  import opened SagaEvolution
  import opened SagaRuns

  // ---- What a reader of the outbox learns ----

  function Untouched(title: Text): Catalog.BookState {
    Catalog.BookState(title, Catalog.Available, None, None, None, None, 0, None, None, None, None, 0)
  }

  predicate HeldBy(b: Catalog.BookState, c: Claim) {
    b.reservationId == Some(c.reservation) && b.generation == c.generation && b.patronId == Some(c.patron)
  }

  /** The book after an event about it, or nothing if the event cannot come next. */
  function BookFollows(b: Catalog.BookState, e: Event): Option<Catalog.BookState> {
    match e
    case BookReserved(c, title, email, at) =>
      if b.status == Catalog.Available && title == b.title && c.generation == b.generation + 1 then
        Some(Catalog.BookState(title, Catalog.Reserved, Some(at), None, None, Some(c.reservation), c.generation, Some(c.patron),
                               Some(email), None, b.lastCompletedLoanId, b.version + 1))
      else None
    case BookBorrowed(c, l, title, email, at, due) =>
      if b.status == Catalog.Reserved && HeldBy(b, c) && title == b.title && b.email == Some(email) && b.reservedAt == Some(at)
         && at < due then
        Some(Catalog.BookState(title, Catalog.Borrowed, None, Some(at), Some(due), Some(c.reservation), c.generation,
                               Some(c.patron), Some(email), Some(l), b.lastCompletedLoanId, b.version + 1))
      else None
    case BookReleased(c) =>
      if b.status == Catalog.Reserved && HeldBy(b, c) then
        Some(Catalog.BookState(b.title, Catalog.Available, None, None, None, Some(c.reservation), c.generation, Some(c.patron),
                               b.email, None, b.lastCompletedLoanId, b.version + 1))
      else None
    case BookReturned(c, l) =>
      if b.status == Catalog.Borrowed && HeldBy(b, c) && b.currentLoanId == Some(l) then
        Some(Catalog.BookState(b.title, Catalog.Available, None, None, None, Some(c.reservation), c.generation, Some(c.patron),
                               b.email, None, Some(l), b.version + 1))
      else None
    case _ => Some(b)
  }

  function ReplayedBook(log: seq<Event>, id: BookId, title: Text): Option<Catalog.BookState> {
    if log == [] then Some(Untouched(title))
    else
      var before, e := ReplayedBook(log[..|log| - 1], id, title), log[|log| - 1];
      if before.Some? && e.OfBook() && e.claim.book == id then BookFollows(before.value, e) else before
  }

  /** The loan after an event about it; `None` inside is a loan that does not exist yet. */
  function LoanFollows(loan: Option<Lending.LoanState>, e: Event): Option<Option<Lending.LoanState>> {
    match (loan, e)
    case (None, LoanCreated(c, _, title, email, at, due)) =>
      if at < due then Some(Some(Lending.LoanState(c, email, title, at, due, Lending.Active, None, 0))) else None
    case (Some(l), LoanExtended(c, _, before, after)) =>
      if l.status == Lending.Active && l.claim == c && l.dueDate == before && before < after then
        Some(Some(Lending.LoanState(c, l.email, l.title, l.borrowedAt, after, Lending.Active, None, l.version + 1)))
      else None
    case (Some(l), LoanOverdue(c, _, due)) =>
      if l.status == Lending.Active && l.claim == c && l.dueDate == due then
        Some(Some(Lending.LoanState(c, l.email, l.title, l.borrowedAt, due, Lending.Overdue, None, l.version + 1)))
      else None
    case (Some(l), LoanCompleted(c, _, at, late)) =>
      if (l.status == Lending.Active || l.status == Lending.Overdue) && l.claim == c && l.borrowedAt <= at && late == (l.dueDate < at) then
        Some(Some(Lending.LoanState(c, l.email, l.title, l.borrowedAt, l.dueDate, Lending.Returned, Some(at), l.version + 1)))
      else None
    case (Some(l), LoanCancelled(c, _)) =>
      if (l.status == Lending.Active || l.status == Lending.Overdue) && l.claim == c then
        Some(Some(Lending.LoanState(c, l.email, l.title, l.borrowedAt, l.dueDate, Lending.Cancelled, None, l.version + 1)))
      else None
    case _ => None
  }

  function ReplayedLoan(log: seq<Event>, id: LoanId): Option<Option<Lending.LoanState>> {
    if log == [] then Some(None)
    else
      var before, e := ReplayedLoan(log[..|log| - 1], id), log[|log| - 1];
      if before.Some? && !e.OfBook() && e.loan == id then LoanFollows(before.value, e) else before
  }

  // ---- The rows are what the outbox says ----

  ghost predicate BookReplays(s: State, b: BookId)
    requires b in s.books
  {
    ReplayedBook(s.log, b, s.books[b].title) == Some(s.books[b])
  }

  ghost predicate LoanReplays(s: State, l: LoanId) {
    && ReplayedLoan(s.log, l) == Some(Map(s.loans, l))
    && (l in s.loans ==> s.loans[l].status != Lending.Lost)
  }

  ghost predicate Replays(s: State) {
    && (forall b {:trigger BookReplays(s, b)} | b in s.books :: BookReplays(s, b))
    && (forall l {:trigger LoanReplays(s, l)} :: LoanReplays(s, l))
  }

  lemma OneEventMore(log: seq<Event>, e: Event)
    ensures forall b, title :: ReplayedBook(log + [e], b, title) ==
              var before := ReplayedBook(log, b, title);
              if before.Some? && e.OfBook() && e.claim.book == b then BookFollows(before.value, e) else before
    ensures forall l :: ReplayedLoan(log + [e], l) ==
              var before := ReplayedLoan(log, l);
              if before.Some? && !e.OfBook() && e.loan == l then LoanFollows(before.value, e) else before
  {
    assert (log + [e])[..|log|] == log;
  }

  ghost predicate BookMoved(s: State, n: State, b: BookId, e: Event) {
    && b in s.books && b in n.books && n.books == s.books[b := n.books[b]] && n.loans == s.loans && n.log == s.log + [e]
    && n.books[b].title == s.books[b].title
    && e.OfBook() && e.claim.book == b && BookFollows(s.books[b], e) == Some(n.books[b])
  }

  ghost predicate LoanMoved(s: State, n: State, l: LoanId, e: Event) {
    && l in n.loans && n.loans == s.loans[l := n.loans[l]] && n.books == s.books && n.log == s.log + [e]
    && n.loans[l].status != Lending.Lost
    && !e.OfBook() && e.loan == l && LoanFollows(Map(s.loans, l), e) == Some(Some(n.loans[l]))
  }

  lemma BookMovedReplays(s: State, n: State, b: BookId, e: Event)
    requires Replays(s) && BookMoved(s, n, b, e)
    ensures Replays(n)
  {
    hide BookFollows;
    hide LoanFollows;
    OneEventMore(s.log, e);
    forall c | c in n.books ensures BookReplays(n, c) {
      assert BookReplays(s, c);
    }
    forall l ensures LoanReplays(n, l) {
      assert LoanReplays(s, l);
    }
  }

  lemma LoanMovedReplays(s: State, n: State, l: LoanId, e: Event)
    requires Replays(s) && LoanMoved(s, n, l, e)
    ensures Replays(n)
  {
    hide BookFollows;
    hide LoanFollows;
    OneEventMore(s.log, e);
    forall c | c in n.books ensures BookReplays(n, c) {
      assert BookReplays(s, c);
    }
    forall m ensures LoanReplays(n, m) {
      assert LoanReplays(s, m);
    }
  }

  lemma NothingMovedReplays(s: State, n: State)
    requires Replays(s) && n.books == s.books && n.loans == s.loans && n.log == s.log
    ensures Replays(n)
  {
    forall c | c in n.books ensures BookReplays(n, c) {
      assert BookReplays(s, c);
    }
    forall m ensures LoanReplays(n, m) {
      assert LoanReplays(s, m);
    }
  }

  // ---- Each transaction moves a row as its event says ----

  lemma BorrowReplays(s: State, book: BookId, patron: PatronId, eligible: bool, now: Time, token: ReservationId)
    requires Replays(s) && BorrowBook(s, book, patron, eligible, now, token).Committed?
    ensures Replays(BorrowBook(s, book, patron, eligible, now, token).state)
  {
    var n := BorrowBook(s, book, patron, eligible, now, token).state;
    BookMovedReplays(s, n, book, n.issued[token]);
  }

  lemma ReleaseReplays(s: State, c: Claim)
    requires Inv(s) && Replays(s) && ReleaseReservation(s, c).Committed?
    ensures Replays(ReleaseReservation(s, c).state)
  {
    assert BookOk(s, c.book);
    hide Inv;
    BookMovedReplays(s, ReleaseReservation(s, c).state, c.book, BookReleased(c));
  }

  lemma ReturnReplays(s: State, c: Claim, l: LoanId)
    requires Inv(s) && Replays(s) && ReturnBook(s, c, l).Committed?
    ensures Replays(ReturnBook(s, c, l).state)
  {
    assert BookOk(s, c.book);
    hide Inv;
    BookMovedReplays(s, ReturnBook(s, c, l).state, c.book, BookReturned(c, l));
  }

  lemma ConfirmReplays(s: State, e: Event)
    requires Inv(s) && RowsValid(s) && Replays(s) && e in s.log && e.LoanCreated?
    requires ConfirmBookBorrow(s, e.claim, e.loan, e.borrowedAt, e.dueDate).Committed?
    ensures Replays(ConfirmBookBorrow(s, e.claim, e.loan, e.borrowedAt, e.dueDate).state)
  {
    var n := ConfirmBookBorrow(s, e.claim, e.loan, e.borrowedAt, e.dueDate).state;
    ConfirmationAnnounced(s, e);
    assert BookOk(s, e.claim.book) && EventOk(s, e) && LoanOk(s, e.loan);
    hide Inv;
    BookMovedReplays(s, n, e.claim.book, BookBorrowed(e.claim, e.loan, e.title, e.email, e.borrowedAt, e.dueDate));
  }

  lemma ChangeLoanReplays(s: State, l: LoanId, cmd: Lending.LoanCommand)
    requires Inv(s) && Replays(s) && ChangeLoan(s, l, cmd).Committed?
    ensures Replays(ChangeLoan(s, l, cmd).state)
  {
    assert LoanOk(s, l) && LoanReplays(s, l);
    hide Inv;
    LoanFollowsCommand(s.loans[l], l, cmd);
    var n, e := ChangeLoan(s, l, cmd).state, Lending.React(s.loans[l], l, cmd).event;
    hide Lending.React;
    hide LoanFollows;
    hide Replays;
    LoanMovedReplays(s, n, l, e);
  }

  lemma LoanFollowsCommand(loan: Lending.LoanState, l: LoanId, cmd: Lending.LoanCommand)
    requires loan.Valid() && loan.status != Lending.Lost && Lending.React(loan, l, cmd).Changed?
    ensures var n, e := Lending.React(loan, l, cmd).next, Lending.React(loan, l, cmd).event;
            && !e.OfBook() && e.loan == l && n.status != Lending.Lost
            && LoanFollows(Some(loan), e) == Some(Some(n.(version := loan.version + 1)))
  {
    Lending.AcceptedExactly(loan, l, cmd);
    Lending.AcceptedLeaves(loan, l, cmd);
  }

  lemma CancelReplays(s: State, c: Claim, expected: Option<LoanId>)
    requires Inv(s) && Replays(s) && CancelLoan(s, c, expected).Committed?
    ensures Replays(CancelLoan(s, c, expected).state)
  {
    ChangeLoanReplays(s, FindByReservation(s, c.reservation).value, Lending.DoCancel);
  }

  lemma CreateLoanReplays(s: State, e: Event, l: LoanId)
    requires Replays(s) && e.BookReserved? && l !in s.loans && CreateLoan(s, e, l).Committed?
    ensures Replays(CreateLoan(s, e, l).state)
  {
    var n := CreateLoan(s, e, l).state;
    Lending.OpenedUnderTerms(e.claim, l, e.email, e.title, s.patrons[e.claim.patron].tier, e.reservedAt);
    LoanMovedReplays(s, n, l, n.created[l]);
  }

  lemma TxReplays(s: State, st: Step)
    requires Inv(s) && Replays(s) && RowsValid(s) && Enabled(s, st) && Tx(s, st).Committed?
    ensures Replays(Tx(s, st).state)
  {
    hide Replays;
    match st {
      case Borrow(b, p, eligible, now, token) => BorrowReplays(s, b, p, eligible, now, token);
      case LoanChange(l, cmd) => ChangeLoanReplays(s, l, cmd);
      case PatronChange(_, _) => NothingMovedReplays(s, Tx(s, st).state);
      case Reap(b) => ReleaseReplays(s, ClaimOf(s.books[b], b));
      case PruneOperation(_) => NothingMovedReplays(s, Tx(s, st).state);
      case CreateTx(e, l) => CreateLoanReplays(s, e, l);
      case CompensateTx(e) => ReleaseReplays(s, e.claim);
      case ConfirmTx(e) => ConfirmReplays(s, e);
      case CancelStaleTx(e) => CancelReplays(s, e.claim, Some(e.loan));
      case CancelReleasedTx(e) => CancelReplays(s, e.claim, None);
      case ReturnTx(e) => ReturnReplays(s, e.claim, e.loan);
    }
  }

  lemma NextReplays(s: State, st: Step)
    requires Inv(s) && Replays(s) && RowsValid(s) && Enabled(s, st)
    ensures Replays(Next(s, st))
  {
    hide Inv;
    hide Replays;
    if Tx(s, st).Committed? {
      TxReplays(s, st);
      NothingMovedReplays(Tx(s, st).state, Next(s, st));
    } else {
      NoCommitNoFacts(s, st, Tx(s, st));
      NothingMovedReplays(s, Next(s, st));
    }
  }

  lemma {:induction false} RunReplays(tr: seq<State>, steps: seq<Step>, i: nat)
    requires Run(tr, steps) && i <= |steps|
    ensures Replays(tr[i])
  {
    if i == 0 {
      forall b | b in tr[0].books ensures BookReplays(tr[0], b) {}
      forall l ensures LoanReplays(tr[0], l) {}
    } else {
      RunReplays(tr, steps, i - 1);
      RunKeepsInv(tr, steps, i - 1);
      assert Steps(tr[i - 1], steps[i - 1], tr[i]);
      hide Inv;
      hide Replays;
      NextReplays(tr[i - 1], steps[i - 1]);
    }
  }

  /**
   * In every reachable state the outbox alone gives every row: each book row is the untouched book under its title
   * followed by the events that name it, each loan row what its events say, and no event names a loan that is not there.
   */
  lemma OutboxDeterminesRows(tr: seq<State>, steps: seq<Step>, i: nat)
    requires Run(tr, steps) && i <= |steps|
    ensures forall b | b in tr[i].books :: ReplayedBook(tr[i].log, b, tr[i].books[b].title) == Some(tr[i].books[b])
    ensures forall l :: ReplayedLoan(tr[i].log, l) == Some(Map(tr[i].loans, l))
  {
    RunReplays(tr, steps, i);
    forall b | b in tr[i].books ensures ReplayedBook(tr[i].log, b, tr[i].books[b].title) == Some(tr[i].books[b]) {
      assert BookReplays(tr[i], b);
    }
    forall l ensures ReplayedLoan(tr[i].log, l) == Some(Map(tr[i].loans, l)) {
      assert LoanReplays(tr[i], l);
    }
  }
}
