/**
 * The command handlers and event handlers as the application runs them: load the entities, let them
 * change, write rows, operation and outbox in one commit, and catch the errors each handler expects.
 */
module Workflow {
  import opened Shared
  import Catalog
  import opened CatalogEntities
  import Lending
  import opened LendingEntities
  import Patrons
  import opened PatronEntities
  import opened Saga
  import opened SagaSafety
  import opened SagaTheorems

  /** What a complete delivery does: the handler's transaction and, if it is diverted, the compensating one. */
  ghost function Delivered(s: State, first: Step, second: Option<Step>): State
    requires Inv(s) && Enabled(s, first)
    requires second.Some? ==> DivertsTo(first, second.value)
  {
    NextKeepsInv(s, first);
    var n := Next(s, first);
    if second.Some? && Tx(s, first).Raised? && Diverted(first, Tx(s, first).error) then
      NextKeepsInv(n, second.value);
      Next(n, second.value)
    else n
  }

  ghost predicate DivertsTo(first: Step, second: Step) {
    || (first.CreateTx? && second == CompensateTx(first.event))
    || (first.ConfirmTx? && second == CancelStaleTx(first.event))
  }

  /** The commands whose answers are kept under an idempotency key. */
  datatype Scope = Borrowing | Returning | Extending | Suspending | Upgrading

  datatype Request = Request(key: Option<nat>, fingerprint: int)

  type Receipts = map<(Scope, nat), Receipt>

  predicate Kept(receipts: Receipts, scope: Scope, req: Request) {
    req.key.Some? && (scope, req.key.value) in receipts
  }

  /** The receipt a request leaves behind, if it carries a key. */
  function Filed(receipts: Receipts, scope: Scope, req: Request, response: int): Receipts {
    if req.key.Some? then receipts[(scope, req.key.value) := Receipt(req.fingerprint, response)] else receipts
  }

  /** A kept answer is for exactly the request it was given to. */
  function Replayed(receipts: Receipts, scope: Scope, req: Request): Result<int>
    requires Kept(receipts, scope, req)
  {
    var kept := receipts[(scope, req.key.value)];
    if kept.fingerprint == req.fingerprint then Ok(kept.response) else Err(IdempotencyConflict)
  }

  lemma InvImpliesLoanValid(s: State, l: LoanId)
    requires Inv(s) && l in s.loans
    ensures s.loans[l].Valid()
  {
    assert LoanOk(s, l);
  }

  /** How the first transaction of each diverting handler leaves the stores. */
  lemma CreateSettles(s: State, e: Event, newId: LoanId)
    requires Inv(s) && Enabled(s, CreateTx(e, newId))
    ensures RowsValid(s) && Inv(Next(s, CreateTx(e, newId)))
    ensures Tx(s, CreateTx(e, newId)) == Saga.CreateLoan(s, e, newId)
    ensures match Saga.CreateLoan(s, e, newId)
            case Committed(n) => Next(s, CreateTx(e, newId)) == n.(handled := n.handled + {e})
            case NoChange => Next(s, CreateTx(e, newId)) == s.(handled := s.handled + {e})
            case Raised(err) => IsBusinessRejection(err) && Next(s, CreateTx(e, newId)) == s.(rejected := s.rejected + {e})
  {
    NextKeepsInv(s, CreateTx(e, newId));
    hide Inv;
    hide Saga.CreateLoan;
  }

  lemma ConfirmSettles(s: State, e: Event)
    requires Inv(s) && Enabled(s, ConfirmTx(e))
    ensures RowsValid(s) && Inv(Next(s, ConfirmTx(e)))
    ensures e.claim.book in s.books ==> s.books[e.claim.book].Valid()
    ensures Tx(s, ConfirmTx(e)) == Saga.ConfirmBookBorrow(s, e.claim, e.loan, e.borrowedAt, e.dueDate)
    ensures match Tx(s, ConfirmTx(e))
            case Committed(n) => Next(s, ConfirmTx(e)) == n.(handled := n.handled + {e})
            case NoChange => Next(s, ConfirmTx(e)) == s.(handled := s.handled + {e})
            case Raised(err) => err == StaleReservation && Next(s, ConfirmTx(e)) == s.(stale := s.stale + {e})
  {
    NextKeepsInv(s, ConfirmTx(e));
    hide Inv;
    hide Saga.ConfirmBookBorrow;
  }

  /** The tables of the contexts, the outbox, the kept answers, and the history the proofs talk about. */
  class Stores {
    var books: map<BookId, Catalog.BookState>
    var ops: map<ReservationId, Operation>
    var loans: map<LoanId, Lending.LoanState>
    var byReservation: map<ReservationId, LoanId>
    var patrons: map<PatronId, Patrons.PatronState>
    var log: seq<Event>
    var receipts: Receipts
    ghost var issued: map<ReservationId, Event>
    ghost var created: map<LoanId, Event>
    ghost var rejected: set<Event>
    ghost var stale: set<Event>
    ghost var handled: set<Event>

    ghost function View(): State reads this {
      State(books, ops, loans, byReservation, patrons, log, issued, created, rejected, stale, handled)
    }

    /** The stores and the handler's answer are those of this transaction. */
    ghost predicate Ran(t: TxResult, was: State, r: Result<bool>) reads this {
      match t
      case Committed(n) => View() == n && r == Ok(true)
      case NoChange => View() == was && r == Ok(false)
      case Raised(e) => View() == was && r == Err(e)
    }

    /** Loading this book does not raise. */
    ghost predicate BookLoads(b: BookId) reads this {
      b in books ==> books[b].Valid()
    }

    ghost predicate LoanLoads(l: LoanId) reads this {
      l in loans ==> loans[l].Valid()
    }

    ghost predicate ReservedLoanLoads(r: ReservationId) reads this {
      r in byReservation ==> LoanLoads(byReservation[r])
    }

    /**
     * The client's view of a command: a kept answer is replayed, or refused for another request, and changes nothing;
     * otherwise the transaction runs, and its answer is kept in the same commit.
     */
    ghost predicate Answered(scope: Scope, req: Request, t: TxResult, response: int, was: State, kept: Receipts, r: Result<int>)
      reads this
    {
      if Kept(kept, scope, req) then View() == was && receipts == kept && r == Replayed(kept, scope, req)
      else
        match t
        case Committed(n) => View() == n && receipts == Filed(kept, scope, req, response) && r == Ok(response)
        case NoChange => View() == was && receipts == Filed(kept, scope, req, response) && r == Ok(response)
        case Raised(e) => View() == was && receipts == kept && r == Err(e)
    }

    /** A request whose key already has an answer gets that answer, if it is the same request, and changes nothing. */
    ghost predicate Recalls(scope: Scope, req: Request, was: State, kept: Receipts, r: Result<int>) reads this {
      req.key.Some? && (scope, req.key.value) in kept ==>
        && View() == was && receipts == kept
        && r == if kept[(scope, req.key.value)].fingerprint == req.fingerprint then Ok(kept[(scope, req.key.value)].response)
                else Err(IdempotencyConflict)
    }

    /** A success under a key is on file under that key, for that request; no other answer is touched, and no failure filed. */
    ghost predicate Remembers(scope: Scope, req: Request, kept: Receipts, r: Result<int>) reads this {
      && (req.key.Some? && r.Ok? ==>
            (scope, req.key.value) in receipts && receipts[(scope, req.key.value)] == Receipt(req.fingerprint, r.value))
      && (forall k | req.key.None? || k != (scope, req.key.value) :: Map(receipts, k) == Map(kept, k))
      && (r.Err? || req.key.None? ==> receipts == kept)
    }

    // ---- Catalog commands ----

    method BorrowBook(req: Request, book: BookId, patron: PatronId, now: Time, token: ReservationId) returns (r: Result<int>)
      modifies this`books, this`ops, this`log, this`issued, this`receipts
      ensures Recalls(Borrowing, req, old(View()), old(receipts), r)
      ensures Remembers(Borrowing, req, old(receipts), r)
      ensures old(BookLoads(book)) ==>
                var s := old(View());
                var eligible := patron in s.patrons && !s.patrons[patron].suspended;
                Answered(Borrowing, req, Saga.BorrowBook(s, book, patron, eligible, now, token), token, s, old(receipts), r)
      ensures !old(BookLoads(book)) ==> View() == old(View()) && receipts == old(receipts)
      ensures !old(BookLoads(book)) && r.Ok? ==> old(Kept(receipts, Borrowing, req))
    {
      if Kept(receipts, Borrowing, req) {
        return Replayed(receipts, Borrowing, req);
      }
      var done := ReserveBook(book, patron, now, token);
      if done.Err? {
        return Err(done.error);
      }
      receipts := Filed(receipts, Borrowing, req, token);
      return Ok(token);
    }

    method ReserveBook(book: BookId, patron: PatronId, now: Time, token: ReservationId) returns (r: Result<bool>)
      modifies this`books, this`ops, this`log, this`issued
      ensures old(BookLoads(book)) ==>
                var s := old(View());
                Ran(Saga.BorrowBook(s, book, patron, patron in s.patrons && !s.patrons[patron].suspended, now, token), s, r)
      ensures !old(BookLoads(book)) ==> View() == old(View()) && r.Err?
    {
      if patron !in patrons || patrons[patron].suspended {
        return Err(BorrowerNotEligible);
      }
      if book !in books {
        return Err(BookNotFound);
      }
      var loaded := CatalogEntities.Hydrate(book, books[book]);
      if loaded.Err? {
        return Err(loaded.error);
      }
      var entity := loaded.value;
      r := entity.Reserve(patron, patrons[patron].email, now, token);
      if r.Ok? {
        books := books[book := entity.State().(version := entity.version + 1)];
        ops := ops[token := Operation(book, patron, entity.generation, OpReserved, None)];
        log := log + entity.events;
        issued := issued[token := entity.events[0]];
      }
    }

    /** Optimistically guarded row update, operation transition and outbox staging, all or nothing. */
    method SaveBook(entity: Book, c: Claim, target: OpStatus, loan: Option<LoanId>) returns (r: Result<bool>)
      requires entity.id == c.book && |entity.events| == 1
      modifies this`books, this`ops, this`log
      ensures Ran(CommitBook(old(View()), c, Changed(entity.State(), entity.events[0]), target, loan), old(View()), r)
    {
      match MoveOperation(ops, c, target, loan) {
        case Err(e) => r := Err(e);
        case Ok(moved) =>
          books := books[c.book := entity.State().(version := entity.version + 1)];
          ops := moved;
          log := log + entity.events;
          r := Ok(true);
      }
    }

    method ConfirmBookBorrow(c: Claim, loan: LoanId, at: Time, due: Time) returns (r: Result<bool>)
      modifies this`books, this`ops, this`log
      ensures old(BookLoads(c.book)) ==> Ran(Saga.ConfirmBookBorrow(old(View()), c, loan, at, due), old(View()), r)
      ensures !old(BookLoads(c.book)) ==> View() == old(View()) && r == Err(CorruptRow)
    {
      if c.book !in books {
        return Err(BookNotFound);
      }
      var loaded := CatalogEntities.Hydrate(c.book, books[c.book]);
      if loaded.Err? {
        return Err(loaded.error);
      }
      var entity := loaded.value;
      r := entity.ConfirmBorrow(c, loan, at, due);
      if r == Ok(true) {
        r := SaveBook(entity, c, OpBorrowed, Some(loan));
      }
    }

    method ReleaseBookReservation(c: Claim) returns (r: Result<bool>)
      modifies this`books, this`ops, this`log
      ensures old(BookLoads(c.book)) ==> Ran(ReleaseReservation(old(View()), c), old(View()), r)
      ensures !old(BookLoads(c.book)) ==> View() == old(View()) && r == Err(CorruptRow)
    {
      if c.book !in books {
        return Err(BookNotFound);
      }
      var loaded := CatalogEntities.Hydrate(c.book, books[c.book]);
      if loaded.Err? {
        return Err(loaded.error);
      }
      var entity := loaded.value;
      r := entity.Release(c);
      if r == Ok(true) {
        r := SaveBook(entity, c, OpReleased, None);
      }
    }

    method ReturnBook(c: Claim, loan: LoanId) returns (r: Result<bool>)
      modifies this`books, this`ops, this`log
      ensures old(BookLoads(c.book)) ==> Ran(Saga.ReturnBook(old(View()), c, loan), old(View()), r)
      ensures !old(BookLoads(c.book)) ==> View() == old(View()) && r == Err(CorruptRow)
    {
      if c.book !in books {
        return Err(BookNotFound);
      }
      var loaded := CatalogEntities.Hydrate(c.book, books[c.book]);
      if loaded.Err? {
        return Err(loaded.error);
      }
      var entity := loaded.value;
      r := entity.ReturnBook(c, loan);
      if r == Ok(true) {
        r := SaveBook(entity, c, OpReturned, Some(loan));
      }
    }

    // ---- Lending commands ----

    method CreateLoan(e: Event, newId: LoanId) returns (r: Result<bool>)
      requires e.BookReserved?
      modifies this`loans, this`byReservation, this`log, this`created
      ensures Ran(Saga.CreateLoan(old(View()), e, newId), old(View()), r)
    {
      var c := e.claim;
      if c.reservation in byReservation && byReservation[c.reservation] in loans {
        var existing := loans[byReservation[c.reservation]];
        if ExactReplay(e, existing) {
          return Ok(false);
        }
        return Err(ReservationCorrelationMismatch);
      }
      // The patron's fence is taken here; see Transactions for what happens between these reads.
      var outstanding := |OutstandingOf(loans, c.patron)|;
      if c.patron !in patrons {
        return Err(PatronNotEligible);
      }
      var borrower := patrons[c.patron];
      if borrower.email != e.email {
        return Err(PatronNotEligible);
      }
      if borrower.suspended {
        return Err(PatronNotEligible);
      }
      var terms := Lending.TermsFor(borrower.tier);
      if outstanding >= terms.maxOutstandingLoans {
        return Err(PatronBorrowingLimitReached);
      }
      if BookHasOutstandingLoan(loans, c.book) {
        return Err(BookNotAvailable);
      }
      match Lending.CreateLoan(c, newId, e.email, e.title, terms.loanDurationDays, e.reservedAt) {
        case Unchanged => r := Ok(false);
        case Failed(err) => r := Err(err);
        case Changed(loan, ev) =>
          loans := loans[newId := loan];
          byReservation := byReservation[c.reservation := newId];
          log := log + [ev];
          created := created[newId := ev];
          r := Ok(true);
      }
    }

    method SaveLoan(entity: Loan)
      requires |entity.events| == 1
      modifies this`loans, this`log
      ensures Ran(CommitLoan(old(View()), entity.id, Changed(entity.State(), entity.events[0])), old(View()), Ok(true))
    {
      loans := loans[entity.id := entity.State().(version := entity.version + 1)];
      log := log + entity.events;
    }

    method CancelLoan(c: Claim, expected: Option<LoanId>) returns (r: Result<bool>)
      modifies this`loans, this`log
      ensures old(ReservedLoanLoads(c.reservation)) ==> Ran(Saga.CancelLoan(old(View()), c, expected), old(View()), r)
      ensures !old(ReservedLoanLoads(c.reservation)) ==> View() == old(View()) && r == Err(CorruptRow)
    {
      if c.reservation !in byReservation || byReservation[c.reservation] !in loans {
        return Ok(false);
      }
      var id := byReservation[c.reservation];
      var loaded := LendingEntities.Hydrate(id, loans[id]);
      if loaded.Err? {
        return Err(loaded.error);
      }
      if loans[id].claim != c || (expected.Some? && expected.value != id) {
        return Err(ReservationCorrelationMismatch);
      }
      var entity := loaded.value;
      r := entity.Cancel();
      if r == Err(LoanNotActive) {
        return Ok(false);
      }
      if r == Ok(true) {
        SaveLoan(entity);
      }
    }

    method ReturnLoan(req: Request, id: LoanId, now: Time) returns (r: Result<int>)
      modifies this`loans, this`log, this`receipts
      ensures Recalls(Returning, req, old(View()), old(receipts), r)
      ensures Remembers(Returning, req, old(receipts), r)
      ensures old(LoanLoads(id)) ==>
                Answered(Returning, req, ChangeLoan(old(View()), id, Lending.DoReturn(now)),
                         if id in loans && loans[id].returnedAt.Some? then loans[id].returnedAt.value else 0,
                         old(View()), old(receipts), r)
      ensures !old(LoanLoads(id)) ==> View() == old(View()) && receipts == old(receipts)
      ensures !old(LoanLoads(id)) && r.Ok? ==> old(Kept(receipts, Returning, req))
    {
      if Kept(receipts, Returning, req) {
        return Replayed(receipts, Returning, req);
      }
      var done := CompleteLoan(id, now);
      if done.Err? {
        return Err(done.error);
      }
      var returnedAt := if id in loans && loans[id].returnedAt.Some? then loans[id].returnedAt.value else 0;
      receipts := Filed(receipts, Returning, req, returnedAt);
      return Ok(returnedAt);
    }

    method CompleteLoan(id: LoanId, now: Time) returns (r: Result<bool>)
      modifies this`loans, this`log
      ensures old(LoanLoads(id)) ==> Ran(ChangeLoan(old(View()), id, Lending.DoReturn(now)), old(View()), r)
      ensures !old(LoanLoads(id)) ==> View() == old(View()) && r == Err(CorruptRow)
    {
      if id !in loans {
        return Err(LoanNotFound);
      }
      var loaded := LendingEntities.Hydrate(id, loans[id]);
      if loaded.Err? {
        return Err(loaded.error);
      }
      var entity := loaded.value;
      r := entity.ReturnBook(now);
      if r == Ok(true) {
        SaveLoan(entity);
      }
    }

    method ExtendLoan(req: Request, id: LoanId, days: int, now: Time) returns (r: Result<int>)
      modifies this`loans, this`log, this`receipts
      ensures Recalls(Extending, req, old(View()), old(receipts), r)
      ensures Remembers(Extending, req, old(receipts), r)
      ensures old(LoanLoads(id)) ==>
                Answered(Extending, req, ChangeLoan(old(View()), id, Lending.DoExtend(days, now)),
                         if id in loans then loans[id].dueDate else 0, old(View()), old(receipts), r)
      ensures !old(LoanLoads(id)) ==> View() == old(View()) && receipts == old(receipts)
      ensures !old(LoanLoads(id)) && r.Ok? ==> old(Kept(receipts, Extending, req))
    {
      if Kept(receipts, Extending, req) {
        return Replayed(receipts, Extending, req);
      }
      var done := ProlongLoan(id, days, now);
      if done.Err? {
        return Err(done.error);
      }
      var dueDate := if id in loans then loans[id].dueDate else 0;
      receipts := Filed(receipts, Extending, req, dueDate);
      return Ok(dueDate);
    }

    method ProlongLoan(id: LoanId, days: int, now: Time) returns (r: Result<bool>)
      modifies this`loans, this`log
      ensures old(LoanLoads(id)) ==> Ran(ChangeLoan(old(View()), id, Lending.DoExtend(days, now)), old(View()), r)
      ensures !old(LoanLoads(id)) ==> View() == old(View()) && r == Err(CorruptRow)
    {
      if id !in loans {
        return Err(LoanNotFound);
      }
      var loaded := LendingEntities.Hydrate(id, loans[id]);
      if loaded.Err? {
        return Err(loaded.error);
      }
      var entity := loaded.value;
      r := entity.Extend(days, now);
      if r == Ok(true) {
        SaveLoan(entity);
      }
    }

    // ---- Patron commands, under the patron's fence ----

    method SuspendPatron(req: Request, id: PatronId, reason: Option<Text>) returns (r: Result<int>)
      modifies this`patrons, this`receipts
      ensures Recalls(Suspending, req, old(View()), old(receipts), r)
      ensures Remembers(Suspending, req, old(receipts), r)
      ensures Answered(Suspending, req, ChangePatron(old(View()), id, Patrons.Suspend(reason)), id, old(View()), old(receipts), r)
    {
      if Kept(receipts, Suspending, req) {
        return Replayed(receipts, Suspending, req);
      }
      if id !in patrons {
        return Err(PatronNotFound);
      }
      var entity := new Patron.FromRow(patrons[id]);
      var done := entity.Suspend(reason);
      if done.Err? {
        return Err(done.error);
      }
      patrons := patrons[id := entity.State().(version := entity.version + 1)];
      receipts := Filed(receipts, Suspending, req, id);
      return Ok(id);
    }

    method UpgradePatronTier(req: Request, id: PatronId, tier: Lending.MembershipTier) returns (r: Result<int>)
      modifies this`patrons, this`receipts
      ensures Recalls(Upgrading, req, old(View()), old(receipts), r)
      ensures Remembers(Upgrading, req, old(receipts), r)
      ensures Answered(Upgrading, req, ChangePatron(old(View()), id, Patrons.UpgradeTier(tier)), id, old(View()), old(receipts), r)
    {
      if Kept(receipts, Upgrading, req) {
        return Replayed(receipts, Upgrading, req);
      }
      if id !in patrons {
        return Err(PatronNotFound);
      }
      var entity := new Patron.FromRow(patrons[id]);
      var done := entity.UpgradeTier(tier);
      if done.Err? {
        return Err(done.error);
      }
      patrons := patrons[id := entity.State().(version := entity.version + 1)];
      receipts := Filed(receipts, Upgrading, req, id);
      return Ok(id);
    }

    // ---- Event handlers: acknowledged is whether the event counts as handled ----

    method CreateLoanOnBookReserved(e: Event, newId: LoanId) returns (acknowledged: bool)
      requires Inv(View()) && Enabled(View(), CreateTx(e, newId))
      modifies this
      ensures acknowledged && Inv(View())
      ensures View() == Delivered(old(View()), CreateTx(e, newId), Some(CompensateTx(e)))
    {
      var refused := TryCreate(e, newId);
      if refused {
        Compensate(e);
      }
      acknowledged := true;
    }

    /** First transaction: create or replay the loan. */
    method TryCreate(e: Event, newId: LoanId) returns (refused: bool)
      requires Inv(View()) && Enabled(View(), CreateTx(e, newId))
      modifies this
      ensures Inv(View()) && RowsValid(old(View())) && View() == Next(old(View()), CreateTx(e, newId))
      ensures var t := Tx(old(View()), CreateTx(e, newId));
              if refused then t.Raised? && Diverted(CreateTx(e, newId), t.error) && e in rejected
              else !t.Raised? && e in handled
    {
      hide Inv;
      hide Next;
      hide Tx;
      hide Saga.CreateLoan;
      hide RowsValid;
      ghost var was := View();
      CreateSettles(was, e, newId);
      var r := CreateLoan(e, newId);
      refused := r.Err? && IsBusinessRejection(r.error);
      if refused {
        rejected := rejected + {e};
      } else {
        handled := handled + {e};
      }
    }

    /** Second transaction after a business rejection: release exactly this reservation, or find it gone. */
    method Compensate(e: Event)
      requires Inv(View()) && Enabled(View(), CompensateTx(e))
      modifies this
      ensures Inv(View()) && RowsValid(old(View())) && View() == Next(old(View()), CompensateTx(e))
      ensures e in handled
    {
      NextKeepsInv(View(), CompensateTx(e));
      var r := ReleaseBookReservation(e.claim);
      if r.Ok? || r.error == StaleReservation {
        handled := handled + {e};
      }
    }

    method ConfirmBorrowOnLoanCreated(e: Event) returns (acknowledged: bool)
      requires Inv(View()) && Enabled(View(), ConfirmTx(e))
      modifies this
      ensures acknowledged && Inv(View())
      ensures View() == Delivered(old(View()), ConfirmTx(e), Some(CancelStaleTx(e)))
    {
      var outdated := TryConfirm(e);
      if outdated {
        CancelTentativeLoan(e);
      }
      acknowledged := true;
    }

    method TryConfirm(e: Event) returns (outdated: bool)
      requires Inv(View()) && Enabled(View(), ConfirmTx(e))
      modifies this
      ensures Inv(View()) && RowsValid(old(View())) && View() == Next(old(View()), ConfirmTx(e))
      ensures var t := Tx(old(View()), ConfirmTx(e));
              if outdated then t == Raised(StaleReservation) && e in stale
              else !t.Raised? && e in handled
    {
      hide Inv;
      hide Next;
      hide Tx;
      hide Saga.ConfirmBookBorrow;
      hide RowsValid;
      ghost var was := View();
      ConfirmSettles(was, e);
      var r := ConfirmBookBorrow(e.claim, e.loan, e.borrowedAt, e.dueDate);
      outdated := r == Err(StaleReservation);
      if outdated {
        stale := stale + {e};
      } else {
        handled := handled + {e};
      }
    }

    method CancelTentativeLoan(e: Event)
      requires Inv(View()) && Enabled(View(), CancelStaleTx(e))
      modifies this
      ensures Inv(View()) && RowsValid(old(View())) && View() == Next(old(View()), CancelStaleTx(e))
      ensures e in handled
    {
      NextKeepsInv(View(), CancelStaleTx(e));
      if e.claim.reservation in byReservation && byReservation[e.claim.reservation] in loans {
        InvImpliesLoanValid(View(), byReservation[e.claim.reservation]);
      }
      var r := CancelLoan(e.claim, Some(e.loan));
      if r.Ok? {
        handled := handled + {e};
      }
    }

    method CancelLoanOnBookReleased(e: Event) returns (acknowledged: bool)
      requires Inv(View()) && Enabled(View(), CancelReleasedTx(e))
      modifies this
      ensures acknowledged && Inv(View())
      ensures View() == Delivered(old(View()), CancelReleasedTx(e), None)
    {
      NextKeepsInv(View(), CancelReleasedTx(e));
      if e.claim.reservation in byReservation && byReservation[e.claim.reservation] in loans {
        InvImpliesLoanValid(View(), byReservation[e.claim.reservation]);
      }
      var r := CancelLoan(e.claim, None);
      acknowledged := r.Ok?;
      if acknowledged {
        handled := handled + {e};
      }
    }

    method ReturnBookOnLoanCompleted(e: Event) returns (acknowledged: bool)
      requires Inv(View()) && Enabled(View(), ReturnTx(e))
      modifies this
      ensures acknowledged && Inv(View())
      ensures View() == Delivered(old(View()), ReturnTx(e), None)
    {
      NextKeepsInv(View(), ReturnTx(e));
      var r := ReturnBook(e.claim, e.loan);
      acknowledged := r.Ok? || r.error == StaleLoanCompletion;
      if acknowledged {
        handled := handled + {e};
      }
    }
  }
}
