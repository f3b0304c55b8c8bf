/** What the saga's transactions on existing rows do, read off the rows: which commit, what they touch, and what they leave. */
module SagaCommands {
  import opened Shared
  import Catalog
  import Lending
  import opened Saga

  /** Nothing holds a delivery back: any logged workflow event may be handled at any time, again and again. */
  lemma AnyDeliveryMayHappen(s: State, e: Event, l: LoanId)
    requires e in s.log
    ensures e.BookReserved? && l !in s.created ==> Enabled(s, CreateTx(e, l))
    ensures e.LoanCreated? ==> Enabled(s, ConfirmTx(e))
    ensures e.BookReleased? ==> Enabled(s, CancelReleasedTx(e))
    ensures e.LoanCompleted? ==> Enabled(s, ReturnTx(e))
    ensures e in s.rejected && e.BookReserved? ==> Enabled(s, CompensateTx(e))
    ensures e in s.stale && e.LoanCreated? ==> Enabled(s, CancelStaleTx(e))
  {
  }

  /** An operation row moves only for its own reservation and from the one status that leads to the target. */
  lemma OperationMovesExactly(ops: map<ReservationId, Operation>, c: Claim, target: OpStatus, loan: Option<LoanId>)
    requires target != OpReserved
    ensures var r, at := MoveOperation(ops, c, target, loan), c.reservation;
            && (at !in ops ==> r == Err(OperationNotFound))
            && (at in ops ==>
                  var from := if target == OpReturned then OpBorrowed else OpReserved;
                  var mine := (ops[at].book, ops[at].patron, ops[at].generation, ops[at].status) == (c.book, c.patron, c.generation, from);
                  && (r.Ok? <==> mine) && (!mine ==> r == Err(OperationTransitionRejected))
                  && (mine ==>
                        && r.value.Keys == ops.Keys && (forall k | k in ops && k != at :: r.value[k] == ops[k])
                        && (r.value[at].book, r.value[at].patron, r.value[at].generation) == (c.book, c.patron, c.generation)
                        && r.value[at].status == target && r.value[at].loan == loan))
  {
  }

  /** One book, its own operation row and one event: nothing else moves with them. */
  ghost predicate OnlyBook(s: State, n: State, c: Claim) {
    && c.book in s.books && c.book in n.books && c.reservation in s.ops && c.reservation in n.ops
    && n.books == s.books[c.book := n.books[c.book]] && n.ops == s.ops[c.reservation := n.ops[c.reservation]]
    && n.loans == s.loans && n.patrons == s.patrons && n.byReservation == s.byReservation
    && |n.log| == |s.log| + 1 && s.log <= n.log && n.books[c.book].version == s.books[c.book].version + 1
  }

  /** A confirmation commits exactly for the reservation that holds the book; it lends it with its operation row. */
  lemma ConfirmedLeaves(s: State, c: Claim, l: LoanId, at: Time, due: Time)
    requires RowsValid(s) && ConfirmBookBorrow(s, c, l, at, due).Committed?
    ensures var n := ConfirmBookBorrow(s, c, l, at, due).state;
            && OnlyBook(s, n, c)
            && s.books[c.book].status == Catalog.Reserved && s.ops[c.reservation].status == OpReserved
            && n.books[c.book].status == Catalog.Borrowed && n.books[c.book].currentLoanId == Some(l)
            && n.books[c.book].borrowedAt == Some(at) && n.books[c.book].returnDueDate == Some(due)
            && n.ops[c.reservation].status == OpBorrowed && n.ops[c.reservation].loan == Some(l)
            && s.books[c.book].email.Some?
            && n.log[|s.log|] == BookBorrowed(c, l, s.books[c.book].title, s.books[c.book].email.value, at, due)
  {
    Catalog.AcceptedLeaves(s.books[c.book], c.book, Catalog.DoConfirm(c, l, at, due));
  }

  lemma ReleasedLeaves(s: State, c: Claim)
    requires RowsValid(s) && ReleaseReservation(s, c).Committed?
    ensures var n := ReleaseReservation(s, c).state;
            && OnlyBook(s, n, c)
            && s.books[c.book].status == Catalog.Reserved && s.ops[c.reservation].status == OpReserved
            && n.books[c.book].status == Catalog.Available && n.books[c.book].reservedAt == None
            && n.ops[c.reservation].status == OpReleased && n.ops[c.reservation].loan == None
            && n.log[|s.log|] == BookReleased(c)
  {
  }

  lemma ReturnedLeaves(s: State, c: Claim, l: LoanId)
    requires RowsValid(s) && ReturnBook(s, c, l).Committed?
    ensures var n := ReturnBook(s, c, l).state;
            && OnlyBook(s, n, c)
            && s.books[c.book].status == Catalog.Borrowed && s.books[c.book].currentLoanId == Some(l)
            && s.ops[c.reservation].status == OpBorrowed
            && n.books[c.book].status == Catalog.Available && n.books[c.book].currentLoanId == None
            && n.books[c.book].lastCompletedLoanId == Some(l)
            && n.ops[c.reservation].status == OpReturned && n.ops[c.reservation].loan == Some(l)
            && n.log[|s.log|] == BookReturned(c, l)
  {
  }

  /** The loan a cancellation finds, by its reservation. */
  predicate Found(s: State, c: Claim) {
    c.reservation in s.byReservation && s.byReservation[c.reservation] in s.loans
  }

  /** Only the loan of exactly this reservation, and the expected one if one is named, is cancelled, and only while it is outstanding. */
  lemma CancelledExactly(s: State, c: Claim, expected: Option<LoanId>)
    ensures !Found(s, c) ==> CancelLoan(s, c, expected) == NoChange
    ensures Found(s, c) ==>
              var id := s.byReservation[c.reservation];
              var loan := s.loans[id];
              CancelLoan(s, c, expected) ==
              if loan.claim != c || (expected != None && expected != Some(id)) then Raised(ReservationCorrelationMismatch)
              else if loan.status == Lending.Returned || loan.status == Lending.Cancelled then NoChange
              else
                Committed(s.(loans := s.loans[id := Lending.LoanState(loan.claim, loan.email, loan.title, loan.borrowedAt, loan.dueDate,
                                                                      Lending.Cancelled, loan.returnedAt, loan.version + 1)],
                             log := s.log + [LoanCancelled(c, id)]))
  {
  }

  /** A command on a loan touches that loan and the log, or is refused for the loan's own reason. */
  lemma LoanCommandTouches(s: State, l: LoanId, cmd: Lending.LoanCommand)
    ensures l !in s.loans ==> ChangeLoan(s, l, cmd) == Raised(LoanNotFound)
    ensures l in s.loans ==>
              match ChangeLoan(s, l, cmd)
              case Committed(n) =>
                && l in n.loans && n == s.(loans := s.loans[l := n.loans[l]], log := n.log)
                && |n.log| == |s.log| + 1 && s.log <= n.log && n.loans[l].version == s.loans[l].version + 1
                && Lending.React(s.loans[l], l, cmd) == Changed(n.loans[l].(version := s.loans[l].version), n.log[|s.log|])
              case NoChange => Lending.React(s.loans[l], l, cmd) == Unchanged
              case Raised(e) => Lending.React(s.loans[l], l, cmd) == Failed(e)
  {
    if l in s.loans && Lending.React(s.loans[l], l, cmd).Changed? {
      Lending.AcceptedLeaves(s.loans[l], l, cmd);
    }
  }
}
