/**
 * When each aggregate's events are first handled in outbox order, Catalog and Lending agree as soon as
 * nothing is pending; without that order they need not.
 */
module SagaQuiescence {
  import opened Shared
  import Catalog
  import Lending
  import opened Saga
  import opened SagaSafety
  import opened SagaSteps
  import opened SagaTheorems
  import opened SagaEvolution

  // ---- The delivery assumption ----

  /** Every earlier workflow event of the same aggregate has been handled: one keyed partition, consumed in order. */
  ghost predicate InOrder(s: State, e: Event) {
    exists i :: 0 <= i < |s.log| && s.log[i] == e && EarlierHandled(s, i)
  }

  ghost predicate EarlierHandled(s: State, i: nat)
    requires i < |s.log|
  {
    forall j | 0 <= j < i && s.log[j].IsWorkflow() && s.log[j].Aggregate() == s.log[i].Aggregate() :: s.log[j] in s.handled
  }

  /** Redeliveries stay unrestricted. */
  ghost predicate EnabledInOrder(s: State, st: Step) {
    Enabled(s, st) && (st.IsWorker() ==> st.event in s.handled || InOrder(s, st.event))
  }

  // ---- What a handled event guarantees from then on ----

  ghost predicate Settled(s: State, e: Event) {
    match e
    case BookReserved(c, _, _, _) => LiveAs(s, c, Catalog.Reserved) ==> c.reservation in s.byReservation
    case LoanCreated(c, l, _, _, _, _) =>
      && !LiveAs(s, c, Catalog.Reserved)
      && (l in s.loans && s.loans[l].Outstanding() ==> BorrowedWith(s, c.book, l))
    case LoanCompleted(c, l, _, _) =>
      l in s.created && s.created[l] in s.handled && !BorrowedWith(s, c.book, l)
    case _ => true
  }

  ghost predicate HandledOk(s: State) {
    && (forall e | e in s.handled :: e in s.log && e.IsWorkflow())
    && (forall e {:trigger Settled(s, e)} | e in s.handled :: Settled(s, e))
  }

  /** A loan's completion is staged after its creation. */
  ghost predicate OutboxOrder(s: State) {
    forall i {:trigger s.log[i]} | 0 <= i < |s.log| && s.log[i].LoanCompleted? ::
      s.log[i].loan in s.created && s.created[s.log[i].loan] in s.log[..i]
  }

  ghost predicate OrderedInv(s: State) {
    Inv(s) && HandledOk(s) && OutboxOrder(s)
  }

  /** Once settled, an event stays settled through any step. */
  lemma SettledIsStable(s: State, n: State, e: Event)
    requires Inv(s) && Evolves(s, n) && HandledOk(s) && s.handled <= n.handled
    requires e in s.handled
    ensures Settled(n, e)
  {
    assert Settled(s, e);
    LoggedClaim(s, e);
    assert EventOk(s, e);
    if e.LoanCreated? || e.LoanCompleted? {
      assert LoanOk(s, e.loan);
    }
    if e.LoanCompleted? {
      assert Settled(s, s.created[e.loan]);
    }
  }

  // ---- First handlings settle their event ----

  lemma CreateTxSettles(s: State, st: Step)
    requires Inv(s) && RowsValid(s) && Enabled(s, st) && st.CreateTx? && !Tx(s, st).Raised?
    ensures Settled(Next(s, st), st.event)
  {
  }

  lemma CompensateTxSettles(s: State, st: Step)
    requires Inv(s) && RowsValid(s) && Enabled(s, st) && st.CompensateTx?
    ensures Settled(Next(s, st), st.event)
  {
    var c := st.event.claim;
    CompensateTxStep(s, st);
    LoggedClaim(s, st.event);
    assert BookOk(s, c.book);
    if Catalog.Release(s.books[c.book], c).Changed? {
      HeldOperation(s, c);
    }
  }

  lemma ConfirmTxSettles(s: State, st: Step)
    requires Inv(s) && RowsValid(s) && Enabled(s, st) && st.ConfirmTx? && !Tx(s, st).Raised?
    ensures Settled(Next(s, st), st.event)
  {
    ConfirmOutcome(s, st.event);
  }

  lemma CancelStaleTxSettles(s: State, st: Step)
    requires Inv(s) && RowsValid(s) && Enabled(s, st) && st.CancelStaleTx?
    ensures Settled(Next(s, st), st.event)
  {
    var e := st.event;
    CancelStaleTxStep(s, st);
    LoggedClaim(s, e);
    LookupIsComplete(s, e.loan);
  }

  lemma ReturnTxSettles(s: State, st: Step)
    requires OrderedInv(s) && RowsValid(s) && EnabledInOrder(s, st) && st.ReturnTx?
    ensures Settled(Next(s, st), st.event)
  {
    ReturnTxReturns(s, st);
    CreationIsHandled(s, st.event);
    hide OrderedInv;
    hide EnabledInOrder;
  }

  /** Handled before, or handled in order now: either way the loan's creation has been handled. */
  lemma CreationIsHandled(s: State, e: Event)
    requires OrderedInv(s) && e in s.log && e.LoanCompleted? && (e in s.handled || InOrder(s, e))
    ensures e.loan in s.created && s.created[e.loan] in s.handled
  {
    if e in s.handled {
      assert Settled(s, e);
    } else {
      CreatedBeforeCompleted(s, e);
    }
  }

  lemma ReturnTxEnds(s: State, st: Step)
    requires RowsValid(s) && Enabled(s, st) && st.ReturnTx?
    ensures var t, n := Tx(s, st), Next(s, st);
            && t == ReturnBook(s, st.event.claim, st.event.loan)
            && n.created == s.created && s.handled <= n.handled
            && n.books == if t.Committed? then t.state.books else s.books
  {
  }

  /** After a completion was handled the book no longer holds that loan, and the created history is as it was. */
  lemma ReturnTxReturns(s: State, st: Step)
    requires Inv(s) && RowsValid(s) && Enabled(s, st) && st.ReturnTx?
    ensures var n := Next(s, st);
            !BorrowedWith(n, st.event.claim.book, st.event.loan) && n.created == s.created && s.handled <= n.handled
  {
    hide Inv;
    ReturnTxStep(s, st);
    ReturnOutcome(s, st.event);
    ReturnTxEnds(s, st);
    hide Next;
    hide Tx;
  }

  lemma CreatedBeforeCompleted(s: State, e: Event)
    requires Inv(s) && OutboxOrder(s) && InOrder(s, e) && e in s.log && e.LoanCompleted?
    ensures e.loan in s.created && s.created[e.loan] in s.handled
  {
    var i :| 0 <= i < |s.log| && s.log[i] == e && EarlierHandled(s, i);
    var c := s.created[e.loan];
    assert LoanOk(s, e.loan) by { assert EventOk(s, e); }
    var j :| 0 <= j < i && s.log[j] == c;
    assert s.log[j].IsWorkflow() && s.log[j].Aggregate() == s.log[i].Aggregate();
  }

  // ---- Every step keeps the ordered invariant ----

  /** What a step adds to the handled set, and when. */
  lemma HandledAfter(s: State, st: Step, r: TxResult)
    requires r.Committed? ==> r.state.handled == s.handled
    ensures s.handled <= After(s, st, r).handled
    ensures forall e | e in After(s, st, r).handled && e !in s.handled ::
              st.IsWorker() && e == st.event && (r.Raised? ==> Acknowledged(st, r.error))
  {
    if r.Raised? && !Acknowledged(st, r.error) {
      assert After(s, st, r).handled == s.handled;
    }
  }

  lemma TxKeepsHandled(s: State, st: Step)
    requires RowsValid(s) && Enabled(s, st) && Tx(s, st).Committed?
    ensures Tx(s, st).state.handled == s.handled
    ensures |Tx(s, st).state.log| <= |s.log| + 1
  {
  }

  lemma FirstHandlingSettles(s: State, st: Step)
    requires OrderedInv(s) && RowsValid(s) && EnabledInOrder(s, st) && st.IsWorker()
    requires Tx(s, st).Raised? ==> Acknowledged(st, Tx(s, st).error)
    ensures Settled(Next(s, st), st.event)
  {
    match st {
      case CreateTx(_, _) => CreateTxSettles(s, st);
      case CompensateTx(_) => CompensateTxSettles(s, st);
      case ConfirmTx(_) => ConfirmTxSettles(s, st);
      case CancelStaleTx(_) => CancelStaleTxSettles(s, st);
      case CancelReleasedTx(_) =>
      case ReturnTx(_) => ReturnTxSettles(s, st);
    }
  }

  lemma WorkersHandleLoggedEvents(s: State, st: Step)
    requires Inv(s) && Enabled(s, st) && st.IsWorker()
    ensures st.event in s.log && st.event.IsWorkflow()
  {
  }

  lemma OneStepOfHistory(s: State, st: Step)
    requires Inv(s) && RowsValid(s) && Enabled(s, st)
    ensures Evolves(s, Next(s, st)) && s.handled <= Next(s, st).handled && |Next(s, st).log| <= |s.log| + 1
    ensures forall e | e in Next(s, st).handled && e !in s.handled ::
              st.IsWorker() && e == st.event && (Tx(s, st).Raised? ==> Acknowledged(st, Tx(s, st).error))
  {
    NextEvolves(s, st);
    if Tx(s, st).Committed? {
      TxKeepsHandled(s, st);
    }
    var r := Tx(s, st);
    hide Inv;
    hide Evolves;
    hide Tx;
    hide Enabled;
    hide RowsValid;
    HandledAfter(s, st, r);
    LogAfter(s, st, r);
  }

  lemma LogAfter(s: State, st: Step, r: TxResult)
    requires r.Committed? ==> |r.state.log| <= |s.log| + 1
    ensures |After(s, st, r).log| <= |s.log| + 1
  {
    if r.Raised? && !Acknowledged(st, r.error) && !Diverted(st, r.error) {
      assert After(s, st, r) == s;
    }
  }

  lemma NextKeepsHandledOk(s: State, st: Step)
    requires OrderedInv(s) && RowsValid(s) && EnabledInOrder(s, st)
    ensures HandledOk(Next(s, st))
  {
    var n := Next(s, st);
    OneStepOfHistory(s, st);
    hide Tx;
    hide Next;
    hide Settled;
    hide Inv;
    forall e | e in n.handled ensures e in n.log && e.IsWorkflow() && Settled(n, e) {
      if e in s.handled {
        SettledIsStable(s, n, e);
      } else {
        WorkersHandleLoggedEvents(s, st);
        FirstHandlingSettles(s, st);
      }
    }
  }

  lemma OutboxOrderGrows(s: State, n: State)
    requires OutboxOrder(s) && Inv(n) && HistoryGrows(s, n) && |n.log| <= |s.log| + 1
    ensures OutboxOrder(n)
  {
    forall i | 0 <= i < |n.log| && n.log[i].LoanCompleted?
      ensures n.log[i].loan in n.created && n.created[n.log[i].loan] in n.log[..i]
    {
      if i < |s.log| {
        assert s.log[i] == n.log[i];
        assert n.log[..i] == s.log[..i];
      } else {
        var l := n.log[i].loan;
        assert EventOk(n, n.log[i]) && LoanOk(n, l);
        assert n.log == n.log[..i] + [n.log[i]];
      }
    }
  }

  lemma NextKeepsOrderedInv(s: State, st: Step)
    requires OrderedInv(s) && EnabledInOrder(s, st)
    ensures RowsValid(s) && OrderedInv(Next(s, st))
  {
    hide Inv;
    hide HandledOk;
    hide OutboxOrder;
    hide Next;
    NextKeepsInv(s, st);
    NextKeepsHandledOk(s, st);
    OneStepOfHistory(s, st);
    OutboxOrderGrows(s, Next(s, st));
  }

  // ---- Quiescent agreement ----

  /** No workflow event is pending. */
  ghost predicate Quiescent(s: State) {
    forall e | e in s.log && e.IsWorkflow() :: e in s.handled
  }

  /** No semantic lock is held, and both contexts name the same book-loan pairs. */
  ghost predicate Agreement(s: State) {
    && (forall b | b in s.books :: s.books[b].status != Catalog.Reserved)
    && (forall b, l {:trigger BorrowedWith(s, b, l)} ::
          BorrowedWith(s, b, l) <==> l in s.loans && s.loans[l].claim.book == b && s.loans[l].Outstanding())
  }

  lemma QuiescenceImpliesAgreement(s: State)
    requires OrderedInv(s) && Quiescent(s)
    ensures Agreement(s)
  {
    forall b | b in s.books ensures s.books[b].status != Catalog.Reserved {
      NoReservedBook(s, b);
    }
    forall b, l
      ensures BorrowedWith(s, b, l) <==> l in s.loans && s.loans[l].claim.book == b && s.loans[l].Outstanding()
    {
      BorrowedMeansOutstanding(s, b, l);
    }
  }

  lemma NoReservedBook(s: State, b: BookId)
    requires OrderedInv(s) && Quiescent(s) && b in s.books
    ensures s.books[b].status != Catalog.Reserved
  {
    assert BookOk(s, b);
    if s.books[b].reservationId.Some? {
      var r := s.books[b].reservationId.value;
      assert IssuedOk(s, r);
      assert Settled(s, s.issued[r]);
      if r in s.byReservation {
        assert LoanOk(s, s.byReservation[r]);
        assert Settled(s, s.created[s.byReservation[r]]);
      }
    }
  }

  lemma BorrowedMeansOutstanding(s: State, b: BookId, l: LoanId)
    requires OrderedInv(s) && Quiescent(s)
    ensures BorrowedWith(s, b, l) <==> l in s.loans && s.loans[l].claim.book == b && s.loans[l].Outstanding()
  {
    if l in s.loans {
      assert LoanOk(s, l);
      assert Settled(s, s.created[l]);
    }
    if BorrowedWith(s, b, l) {
      assert BookOk(s, b);
      if s.loans[l].status == Lending.Returned {
        assert Settled(s, Lending.CompletionOf(l, s.loans[l]));
      }
    }
  }
}
