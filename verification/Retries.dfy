/**
 * Retried client commands: a request that succeeded under an idempotency key may be sent again, with whatever else has
 * changed in the call. The retry answers as the first one did, another request under the key is refused, and either
 * way the stores and the kept answers are what the first call alone left, a state the saga allows.
 */
module Retries {
  import opened Shared
  import Lending
  import Patrons
  import opened Saga
  import opened SagaSafety
  import opened SagaTheorems
  import opened Workflow

  /** What a second request under the key is told after a first success. */
  function SecondAnswer(req: Request, again: Request, first: Result<int>): Result<int> {
    if again.fingerprint == req.fingerprint then first else Err(IdempotencyConflict)
  }

  method BorrowTwice(stores: Stores, req: Request, again: Request, book: BookId, patron: PatronId, now: Time, token: ReservationId,
                     other: BookId, another: PatronId, later: Time, second: ReservationId)
    returns (r: Result<int>, retried: Result<int>)
    requires req.key.Some? && again.key == req.key && Inv(stores.View()) && token !in stores.issued
    modifies stores
    ensures r.Ok? ==> retried == SecondAnswer(req, again, r)
    ensures r.Ok? ==>
              var s := old(stores.View());
              var eligible := patron in s.patrons && !s.patrons[patron].suspended;
              && stores.Answered(Borrowing, req, Saga.BorrowBook(s, book, patron, eligible, now, token), token, s, old(stores.receipts), r)
              && Inv(stores.View())
  {
    ghost var s := stores.View();
    ghost var eligible := patron in s.patrons && !s.patrons[patron].suspended;
    SagaStepKeepsInv(s, Borrow(book, patron, eligible, now, token));
    BookRowValid(s, book);
    hide Inv;
    r := stores.BorrowBook(req, book, patron, now, token);
    label once:
    retried := stores.BorrowBook(again, other, another, later, second);
    assert r.Ok? ==> stores.View() == old@once(stores.View()) && stores.receipts == old@once(stores.receipts);
  }

  method ReturnTwice(stores: Stores, req: Request, again: Request, id: LoanId, now: Time, other: LoanId, later: Time)
    returns (r: Result<int>, retried: Result<int>)
    requires req.key.Some? && again.key == req.key && Inv(stores.View())
    modifies stores
    ensures r.Ok? ==> retried == SecondAnswer(req, again, r)
    ensures r.Ok? ==>
              var s := old(stores.View());
              && stores.Answered(Returning, req, ChangeLoan(s, id, Lending.DoReturn(now)),
                                 if id in stores.loans && stores.loans[id].returnedAt.Some? then stores.loans[id].returnedAt.value else 0,
                                 s, old(stores.receipts), r)
              && Inv(stores.View())
  {
    ghost var s := stores.View();
    SagaStepKeepsInv(s, LoanChange(id, Lending.DoReturn(now)));
    LoanRowValid(s, id);
    hide Inv;
    r := stores.ReturnLoan(req, id, now);
    label once:
    retried := stores.ReturnLoan(again, other, later);
    assert r.Ok? ==> stores.View() == old@once(stores.View()) && stores.receipts == old@once(stores.receipts);
  }

  method ExtendTwice(stores: Stores, req: Request, again: Request, id: LoanId, days: int, now: Time, other: LoanId, more: int, later: Time)
    returns (r: Result<int>, retried: Result<int>)
    requires req.key.Some? && again.key == req.key && Inv(stores.View())
    modifies stores
    ensures r.Ok? ==> retried == SecondAnswer(req, again, r)
    ensures r.Ok? ==>
              var s := old(stores.View());
              && stores.Answered(Extending, req, ChangeLoan(s, id, Lending.DoExtend(days, now)),
                                 if id in stores.loans then stores.loans[id].dueDate else 0, s, old(stores.receipts), r)
              && Inv(stores.View())
  {
    ghost var s := stores.View();
    SagaStepKeepsInv(s, LoanChange(id, Lending.DoExtend(days, now)));
    LoanRowValid(s, id);
    hide Inv;
    r := stores.ExtendLoan(req, id, days, now);
    label once:
    retried := stores.ExtendLoan(again, other, more, later);
    assert r.Ok? ==> stores.View() == old@once(stores.View()) && stores.receipts == old@once(stores.receipts);
  }

  method SuspendTwice(stores: Stores, req: Request, again: Request, id: PatronId, reason: Option<Text>, other: PatronId, why: Option<Text>)
    returns (r: Result<int>, retried: Result<int>)
    requires req.key.Some? && again.key == req.key && Inv(stores.View())
    modifies stores
    ensures r.Ok? ==> retried == SecondAnswer(req, again, r)
    ensures r.Ok? ==>
              var s := old(stores.View());
              && stores.Answered(Suspending, req, ChangePatron(s, id, Patrons.Suspend(reason)), id, s, old(stores.receipts), r)
              && Inv(stores.View())
  {
    ghost var s := stores.View();
    SagaStepKeepsInv(s, PatronChange(id, Patrons.Suspend(reason)));
    hide Inv;
    r := stores.SuspendPatron(req, id, reason);
    label once:
    retried := stores.SuspendPatron(again, other, why);
    assert r.Ok? ==> stores.View() == old@once(stores.View()) && stores.receipts == old@once(stores.receipts);
  }

  method UpgradeTwice(stores: Stores, req: Request, again: Request, id: PatronId, tier: Lending.MembershipTier,
                      other: PatronId, further: Lending.MembershipTier)
    returns (r: Result<int>, retried: Result<int>)
    requires req.key.Some? && again.key == req.key && Inv(stores.View())
    modifies stores
    ensures r.Ok? ==> retried == SecondAnswer(req, again, r)
    ensures r.Ok? ==>
              var s := old(stores.View());
              && stores.Answered(Upgrading, req, ChangePatron(s, id, Patrons.UpgradeTier(tier)), id, s, old(stores.receipts), r)
              && Inv(stores.View())
  {
    ghost var s := stores.View();
    SagaStepKeepsInv(s, PatronChange(id, Patrons.UpgradeTier(tier)));
    hide Inv;
    r := stores.UpgradePatronTier(req, id, tier);
    label once:
    retried := stores.UpgradePatronTier(again, other, further);
    assert r.Ok? ==> stores.View() == old@once(stores.View()) && stores.receipts == old@once(stores.receipts);
  }

  // ---- What the saga's invariant gives these commands ----

  lemma SagaStepKeepsInv(s: State, st: Step)
    requires Inv(s) && Enabled(s, st) && !st.IsWorker()
    ensures RowsValid(s) && (Tx(s, st).Committed? ==> Inv(Tx(s, st).state))
  {
    NextKeepsInv(s, st);
    hide Inv;
  }

  lemma BookRowValid(s: State, b: BookId)
    requires Inv(s)
    ensures b in s.books ==> s.books[b].Valid()
  {
    assert b in s.books ==> BookOk(s, b);
  }

  lemma LoanRowValid(s: State, l: LoanId)
    requires Inv(s)
    ensures l in s.loans ==> s.loans[l].Valid()
  {
    assert l in s.loans ==> LoanOk(s, l);
  }
}
