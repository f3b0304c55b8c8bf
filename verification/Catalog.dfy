/** The Book aggregate: AVAILABLE, RESERVED (the saga's semantic lock) and BORROWED. */
module Catalog {
  import opened Shared

  datatype BookStatus = Available | Reserved | Borrowed

  datatype BookState = BookState(
    title: Text,
    status: BookStatus,
    reservedAt: Option<Time>,
    borrowedAt: Option<Time>,
    returnDueDate: Option<Time>,
    reservationId: Option<ReservationId>,
    generation: nat,
    patronId: Option<PatronId>,
    email: Option<Email>,
    currentLoanId: Option<LoanId>,
    lastCompletedLoanId: Option<LoanId>,
    version: nat)
  {
    predicate FullCorrelation() {
      reservationId.Some? && patronId.Some? && email.Some?
    }

    predicate NoCorrelation() {
      reservationId.None? && patronId.None? && email.None?
    }

    /** The shape checked when a book is constructed or hydrated from its row. */
    predicate Valid() {
      match status
      case Available =>
        && reservedAt.None? && borrowedAt.None? && returnDueDate.None? && currentLoanId.None?
        && (NoCorrelation() || FullCorrelation())
      case Reserved =>
        && FullCorrelation() && reservedAt.Some? && generation >= 1
        && borrowedAt.None? && returnDueDate.None? && currentLoanId.None?
      case Borrowed =>
        && FullCorrelation() && generation >= 1 && reservedAt.None?
        && currentLoanId.Some? && borrowedAt.Some? && returnDueDate.Some?
        && returnDueDate.value > borrowedAt.value
    }

    /** The book's latest reservation is exactly this one, whatever became of it. */
    predicate Matches(c: Claim) {
      reservationId == Some(c.reservation) && generation == c.generation && patronId == Some(c.patron)
    }

    predicate Unavailable() {
      status != Available
    }
  }

  function Reserve(b: BookState, id: BookId, patron: PatronId, email: Email, at: Time, token: ReservationId)
    : Transition<BookState>
  {
    if b.status != Available then Failed(BookAlreadyBorrowed)
    else
      var n := b.(status := Reserved, reservedAt := Some(at), borrowedAt := None, returnDueDate := None,
                  reservationId := Some(token), generation := b.generation + 1,
                  patronId := Some(patron), email := Some(email), currentLoanId := None);
      Changed(n, BookReserved(Claim(id, token, n.generation, patron), b.title, email, at))
  }

  function ConfirmBorrow(b: BookState, c: Claim, loan: LoanId, borrowedAt: Time, dueDate: Time)
    : Transition<BookState>
    requires b.Valid()
  {
    if !b.Matches(c) then Failed(StaleReservation)
    else if b.status == Borrowed && b.currentLoanId == Some(loan) then
      if b.borrowedAt != Some(borrowedAt) || b.returnDueDate != Some(dueDate) then Failed(StaleReservation)
      else Unchanged
    else if b.status != Reserved || b.currentLoanId.Some? then Failed(StaleReservation)
    else if dueDate <= borrowedAt then Failed(InvalidBorrowPeriod)
    else if b.reservedAt.Some? && borrowedAt < b.reservedAt.value then Failed(InvalidBorrowPeriod)
    else
      Changed(b.(status := Borrowed, reservedAt := None, currentLoanId := Some(loan),
                 borrowedAt := Some(borrowedAt), returnDueDate := Some(dueDate)),
              BookBorrowed(c, loan, b.title, b.email.value, borrowedAt, dueDate))
  }

  function Release(b: BookState, c: Claim): Transition<BookState> {
    if !b.Matches(c) then Failed(StaleReservation)
    else if b.status == Available then Unchanged
    else if b.status != Reserved then Failed(StaleReservation)
    else
      Changed(b.(status := Available, reservedAt := None, borrowedAt := None, returnDueDate := None),
              BookReleased(c))
  }

  function ReturnBook(b: BookState, c: Claim, loan: LoanId): Transition<BookState> {
    if b.status == Available && b.lastCompletedLoanId == Some(loan) then
      if b.generation > c.generation then Failed(StaleLoanCompletion)
      else if !b.Matches(c) then Failed(LoanCorrelationMismatch)
      else Unchanged
    else if b.status != Borrowed || b.currentLoanId != Some(loan) then Failed(StaleLoanCompletion)
    else if !b.Matches(c) then Failed(LoanCorrelationMismatch)
    else
      Changed(b.(status := Available, borrowedAt := None, returnDueDate := None, currentLoanId := None,
                 lastCompletedLoanId := Some(loan)),
              BookReturned(c, loan))
  }

  /** The four messages a book reacts to, as one alphabet. */
  datatype BookCommand =
    | DoReserve(patron: PatronId, email: Email, at: Time, token: ReservationId)
    | DoConfirm(claim: Claim, loan: LoanId, borrowedAt: Time, dueDate: Time)
    | DoRelease(claim: Claim)
    | DoReturn(claim: Claim, loan: LoanId)

  function React(b: BookState, id: BookId, cmd: BookCommand): Transition<BookState>
    requires b.Valid()
  {
    match cmd
    case DoReserve(p, m, at, t) => Reserve(b, id, p, m, at, t)
    case DoConfirm(c, l, at, due) => ConfirmBorrow(b, c, l, at, due)
    case DoRelease(c) => Release(b, c)
    case DoReturn(c, l) => ReturnBook(b, c, l)
  }

  /** The construction-time shape survives every transition, which the source never re-checks. */
  lemma ReactKeepsShape(b: BookState, id: BookId, cmd: BookCommand)
    requires b.Valid() && React(b, id, cmd).Changed?
    ensures var n := React(b, id, cmd).next;
            && n.Valid()
            && n.generation == b.generation + (if cmd.DoReserve? then 1 else 0)
            && n.version == b.version && n.title == b.title
            && match cmd
               case DoReserve(_, _, _, _) => b.status == Available && n.status == Reserved
               case DoConfirm(_, _, _, _) => b.status == Reserved && n.status == Borrowed
               case DoRelease(_) => b.status == Reserved && n.status == Available
               case DoReturn(_, _) => b.status == Borrowed && n.status == Available
  {
  }

  /** An exact redelivery of an applied message never changes the book a second time. */
  lemma RedeliveryIsIdempotent(b: BookState, id: BookId, cmd: BookCommand)
    requires b.Valid() && React(b, id, cmd).Changed?
    ensures var again := React(React(b, id, cmd).next, id, cmd);
            again == if cmd.DoReserve? then Failed(BookAlreadyBorrowed) else Unchanged
  {
  }

  /** Which messages a book accepts, and the answer each of the others gets. */
  lemma AcceptedExactly(b: BookState, id: BookId, cmd: BookCommand)
    requires b.Valid()
    ensures match cmd
            case DoReserve(_, _, _, _) =>
              if b.status == Available then React(b, id, cmd).Changed? else React(b, id, cmd) == Failed(BookAlreadyBorrowed)
            case DoConfirm(c, l, at, due) =>
              var t, mine := React(b, id, cmd),
                (b.reservationId, b.generation, b.patronId) == (Some(c.reservation), c.generation, Some(c.patron));
              && (t.Changed? <==> mine && b.status == Reserved && b.reservedAt.value <= at < due)
              && (t.Unchanged? <==> mine && b.status == Borrowed &&
                                    (b.currentLoanId, b.borrowedAt, b.returnDueDate) == (Some(l), Some(at), Some(due)))
              && (t == Failed(InvalidBorrowPeriod) <==> mine && b.status == Reserved && !(b.reservedAt.value <= at < due))
              && (t.Failed? ==> t.error == InvalidBorrowPeriod || t.error == StaleReservation)
            case DoRelease(c) =>
              var t, mine := React(b, id, cmd),
                (b.reservationId, b.generation, b.patronId) == (Some(c.reservation), c.generation, Some(c.patron));
              && (t.Changed? <==> mine && b.status == Reserved) && (t.Unchanged? <==> mine && b.status == Available)
              && (t.Failed? ==> t.error == StaleReservation)
            case DoReturn(c, l) =>
              var t, mine := React(b, id, cmd),
                (b.reservationId, b.generation, b.patronId) == (Some(c.reservation), c.generation, Some(c.patron));
              && (t.Changed? <==> mine && b.status == Borrowed && b.currentLoanId == Some(l))
              && (t.Unchanged? <==> mine && b.status == Available && b.lastCompletedLoanId == Some(l))
              && (t == Failed(LoanCorrelationMismatch) <==>
                    && !mine
                    && if b.status == Borrowed then b.currentLoanId == Some(l)
                       else b.status == Available && b.lastCompletedLoanId == Some(l) && b.generation <= c.generation)
              && (t.Failed? ==> t.error == LoanCorrelationMismatch || t.error == StaleLoanCompletion)
  {
  }

  /** What an accepted message leaves behind, field by field, and what it announces. */
  lemma AcceptedLeaves(b: BookState, id: BookId, cmd: BookCommand)
    requires b.Valid() && React(b, id, cmd).Changed?
    ensures var n, e := React(b, id, cmd).next, React(b, id, cmd).event;
            && n.title == b.title && n.version == b.version
            && (n.reservationId, n.generation, n.patronId, n.email) ==
                 (if cmd.DoReserve? then (Some(cmd.token), b.generation + 1, Some(cmd.patron), Some(cmd.email))
                  else (b.reservationId, b.generation, b.patronId, b.email))
            && n.reservedAt == (if cmd.DoReserve? then Some(cmd.at) else None)
            && (n.currentLoanId, n.borrowedAt, n.returnDueDate) ==
                 (if cmd.DoConfirm? then (Some(cmd.loan), Some(cmd.borrowedAt), Some(cmd.dueDate)) else (None, None, None))
            && n.lastCompletedLoanId == (if cmd.DoReturn? then Some(cmd.loan) else b.lastCompletedLoanId)
            && match cmd
               case DoReserve(p, m, at, token) =>
                 && e.BookReserved? && e.title == b.title && e.email == m && e.reservedAt == at
                 && (e.claim.book, e.claim.reservation, e.claim.generation, e.claim.patron) == (id, token, b.generation + 1, p)
               case DoConfirm(c, l, at, due) =>
                 && e.BookBorrowed? && e.claim == c && e.loan == l
                 && Some(e.email) == b.email && e.title == b.title && e.borrowedAt == at && e.dueDate == due
               case DoRelease(c) => e.BookReleased? && e.claim == c
               case DoReturn(c, l) => e.BookReturned? && e.claim == c && e.loan == l
  {
  }

  /** Any run of messages, skipping those that change nothing. */
  function Run(b: BookState, id: BookId, cmds: seq<BookCommand>): (r: BookState)
    requires b.Valid()
    ensures r.Valid()
    decreases |cmds|
  {
    if cmds == [] then b
    else
      var b' := Run(b, id, cmds[..|cmds| - 1]);
      match React(b', id, cmds[|cmds| - 1])
      case Changed(n, _) => n
      case _ => b'
  }

  /**
   * The generation fence over whole runs: once a book has moved past a claim's generation, no later
   * message carrying that claim can ever change it, whatever happened in between.
   */
  lemma {:induction false} SupersededClaimIsDeadForever(b: BookState, id: BookId, cmds: seq<BookCommand>, cmd: BookCommand)
    requires b.Valid() && !cmd.DoReserve? && cmd.claim.generation < b.generation
    ensures Run(b, id, cmds).generation >= b.generation
    ensures !React(Run(b, id, cmds), id, cmd).Changed?
    decreases |cmds|
  {
    if cmds != [] {
      SupersededClaimIsDeadForever(b, id, cmds[..|cmds| - 1], cmd);
      var b' := Run(b, id, cmds[..|cmds| - 1]);
      if React(b', id, cmds[|cmds| - 1]).Changed? {
        ReactKeepsShape(b', id, cmds[|cmds| - 1]);
      }
    }
  }
}

/** The mutable Book entity, proved against the transition functions above. */
module CatalogEntities {
  import opened Shared
  import opened Catalog

  /** The aggregate object: fields are assigned in place and events are collected for the outbox. */
  class Book {
    const id: BookId
    const title: Text
    var status: BookStatus
    var reservedAt: Option<Time>
    var borrowedAt: Option<Time>
    var returnDueDate: Option<Time>
    var reservationId: Option<ReservationId>
    var generation: nat
    var patronId: Option<PatronId>
    var email: Option<Email>
    var currentLoanId: Option<LoanId>
    var lastCompletedLoanId: Option<LoanId>
    var version: nat
    var events: seq<Event>

    function State(): BookState reads this {
      BookState(title, status, reservedAt, borrowedAt, returnDueDate, reservationId, generation,
                patronId, email, currentLoanId, lastCompletedLoanId, version)
    }

    /** The observable effect of one transition method. */
    ghost predicate Did(t: Transition<BookState>, was: BookState, log: seq<Event>, r: Result<bool>)
      reads this
    {
      match t
      case Changed(n, e) => State() == n && events == log + [e] && r == Ok(true)
      case Unchanged => State() == was && events == log && r == Ok(false)
      case Failed(err) => State() == was && events == log && r == Err(err)
    }

    constructor FromRow(id: BookId, row: BookState)
      requires row.Valid()
      ensures this.id == id && State() == row && events == []
    {
      this.id := id;
      title, status := row.title, row.status;
      reservedAt, borrowedAt, returnDueDate := row.reservedAt, row.borrowedAt, row.returnDueDate;
      reservationId, generation := row.reservationId, row.generation;
      patronId, email := row.patronId, row.email;
      currentLoanId, lastCompletedLoanId := row.currentLoanId, row.lastCompletedLoanId;
      version := row.version;
      events := [];
    }

    method Reserve(patron: PatronId, borrower: Email, at: Time, token: ReservationId) returns (r: Result<bool>)
      modifies this
      ensures Did(Catalog.Reserve(old(State()), id, patron, borrower, at, token), old(State()), old(events), r)
    {
      if status != Available {
        return Err(BookAlreadyBorrowed);
      }
      status := Reserved;
      reservedAt := Some(at);
      borrowedAt := None;
      returnDueDate := None;
      reservationId := Some(token);
      generation := generation + 1;
      patronId := Some(patron);
      email := Some(borrower);
      currentLoanId := None;
      events := events + [BookReserved(Claim(id, token, generation, patron), title, borrower, at)];
      return Ok(true);
    }

    method ConfirmBorrow(c: Claim, loan: LoanId, at: Time, due: Time) returns (r: Result<bool>)
      requires State().Valid()
      modifies this
      ensures Did(Catalog.ConfirmBorrow(old(State()), c, loan, at, due), old(State()), old(events), r)
    {
      if !State().Matches(c) {
        return Err(StaleReservation);
      }
      if status == Borrowed && currentLoanId == Some(loan) {
        if borrowedAt != Some(at) || returnDueDate != Some(due) {
          return Err(StaleReservation);
        }
        return Ok(false);
      }
      if status != Reserved || currentLoanId.Some? {
        return Err(StaleReservation);
      }
      if due <= at {
        return Err(InvalidBorrowPeriod);
      }
      if reservedAt.Some? && at < reservedAt.value {
        return Err(InvalidBorrowPeriod);
      }
      status := Borrowed;
      reservedAt := None;
      currentLoanId := Some(loan);
      borrowedAt := Some(at);
      returnDueDate := Some(due);
      events := events + [BookBorrowed(c, loan, title, email.value, at, due)];
      return Ok(true);
    }

    method Release(c: Claim) returns (r: Result<bool>)
      modifies this
      ensures Did(Catalog.Release(old(State()), c), old(State()), old(events), r)
    {
      if !State().Matches(c) {
        return Err(StaleReservation);
      }
      if status == Available {
        return Ok(false);
      }
      if status != Reserved {
        return Err(StaleReservation);
      }
      status := Available;
      reservedAt := None;
      borrowedAt := None;
      returnDueDate := None;
      events := events + [BookReleased(c)];
      return Ok(true);
    }

    method ReturnBook(c: Claim, loan: LoanId) returns (r: Result<bool>)
      modifies this
      ensures Did(Catalog.ReturnBook(old(State()), c, loan), old(State()), old(events), r)
    {
      if status == Available && lastCompletedLoanId == Some(loan) {
        if generation > c.generation {
          return Err(StaleLoanCompletion);
        }
        if !State().Matches(c) {
          return Err(LoanCorrelationMismatch);
        }
        return Ok(false);
      }
      if status != Borrowed || currentLoanId != Some(loan) {
        return Err(StaleLoanCompletion);
      }
      if !State().Matches(c) {
        return Err(LoanCorrelationMismatch);
      }
      status := Available;
      borrowedAt := None;
      returnDueDate := None;
      currentLoanId := None;
      lastCompletedLoanId := Some(loan);
      events := events + [BookReturned(c, loan)];
      return Ok(true);
    }
  }

  /** Loading a row checks its shape, and raises on one that no transition could have left. */
  method Hydrate(id: BookId, row: BookState) returns (r: Result<Book>)
    ensures if row.Valid() then r.Ok? && fresh(r.value) && r.value.id == id && r.value.State() == row && r.value.events == []
            else r == Err(CorruptRow)
    ensures r.Ok? <==>
              match row.status
              case Available =>
                && row.reservedAt == None && row.borrowedAt == None && row.returnDueDate == None && row.currentLoanId == None
                && (row.reservationId.Some? <==> row.patronId.Some?) && (row.patronId.Some? <==> row.email.Some?)
              case Reserved =>
                && row.reservationId.Some? && row.patronId.Some? && row.email.Some? && row.generation >= 1 && row.reservedAt.Some?
                && row.borrowedAt == None && row.returnDueDate == None && row.currentLoanId == None
              case Borrowed =>
                && row.reservationId.Some? && row.patronId.Some? && row.email.Some? && row.generation >= 1 && row.reservedAt == None
                && row.currentLoanId.Some? && row.borrowedAt.Some? && row.returnDueDate.Some?
                && row.borrowedAt.value < row.returnDueDate.value
  {
    if !row.Valid() {
      return Err(CorruptRow);
    }
    var book := new Book.FromRow(id, row);
    return Ok(book);
  }
}
