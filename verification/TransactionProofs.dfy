/** The database level refines the saga: every finer step is an atomic saga step or changes nothing. */
module TransactionProofs {
  import opened Shared
  import Lending
  import Patrons
  import opened Saga
  import opened SagaSafety
  import opened SagaSteps
  import opened SagaTheorems
  import opened SagaEvolution
  import opened SagaRuns
  import opened SagaDraining
  import opened Transactions

  // ---- Saga transactions are tame ----

  lemma BookCommitTame(s: State, n: State, b: BookId)
    requires b in s.books && b in n.books && n.books == s.books[b := n.books[b]] && n.books[b].version > s.books[b].version
    requires n.loans == s.loans && n.patrons == s.patrons && n.byReservation == s.byReservation
    requires s.rejected <= n.rejected && s.log <= n.log
    ensures Tame(s, n, None)
  {
  }

  lemma LoanCommitTame(s: State, l: LoanId, cmd: Lending.LoanCommand)
    requires Inv(s) && ChangeLoan(s, l, cmd).Committed?
    ensures Tame(s, ChangeLoan(s, l, cmd).state, None)
  {
    var n := ChangeLoan(s, l, cmd).state;
    assert LoanOk(s, l);
    Lending.ReactKeepsShape(s.loans[l], l, cmd);
  }

  lemma OpeningTame(s: State, e: Event, l: LoanId)
    requires Inv(s) && e in s.log && e.BookReserved? && l !in s.created && CreateLoan(s, e, l).Committed?
    ensures Tame(s, CreateLoan(s, e, l).state, Some(e.claim.patron))
  {
    var n := CreateLoan(s, e, l).state;
    assert EventOk(s, e);
    forall p: PatronId | p != e.claim.patron
      ensures OutstandingOf(n.loans, p) <= OutstandingOf(s.loans, p)
    {
      OutstandingAfter(s.loans, n.loans, l, p);
    }
  }

  lemma ReleaseTame(s: State, c: Claim)
    requires ReleaseReservation(s, c).Committed?
    ensures Tame(s, ReleaseReservation(s, c).state, None)
  {
    BookCommitTame(s, ReleaseReservation(s, c).state, c.book);
  }

  lemma ConfirmTame(s: State, c: Claim, l: LoanId, at: Time, due: Time)
    requires RowsValid(s) && ConfirmBookBorrow(s, c, l, at, due).Committed?
    ensures Tame(s, ConfirmBookBorrow(s, c, l, at, due).state, None)
  {
    BookCommitTame(s, ConfirmBookBorrow(s, c, l, at, due).state, c.book);
  }

  lemma ReturnTame(s: State, c: Claim, l: LoanId)
    requires ReturnBook(s, c, l).Committed?
    ensures Tame(s, ReturnBook(s, c, l).state, None)
  {
    BookCommitTame(s, ReturnBook(s, c, l).state, c.book);
  }

  lemma BorrowTame(s: State, book: BookId, patron: PatronId, eligible: bool, now: Time, token: ReservationId)
    requires BorrowBook(s, book, patron, eligible, now, token).Committed?
    ensures Tame(s, BorrowBook(s, book, patron, eligible, now, token).state, None)
  {
    BookCommitTame(s, BorrowBook(s, book, patron, eligible, now, token).state, book);
  }

  lemma CancelTame(s: State, c: Claim, expected: Option<LoanId>)
    requires Inv(s) && CancelLoan(s, c, expected).Committed?
    ensures Tame(s, CancelLoan(s, c, expected).state, None)
  {
    LoanCommitTame(s, FindByReservation(s, c.reservation).value, Lending.DoCancel);
  }

  lemma PolicyTame(s: State, p: PatronId, cmd: Patrons.PatronCommand)
    requires ChangePatron(s, p, cmd).Committed?
    ensures Tame(s, ChangePatron(s, p, cmd).state, Some(p))
  {
  }

  lemma TxTame(s: State, st: Step)
    requires Inv(s) && RowsValid(s) && Enabled(s, st) && Tx(s, st).Committed?
    ensures Tame(s, Tx(s, st).state, Touched(st))
  {
    match st {
      case Borrow(b, p, eligible, now, token) => BorrowTame(s, b, p, eligible, now, token);
      case LoanChange(l, cmd) => LoanCommitTame(s, l, cmd);
      case PatronChange(p, cmd) => PolicyTame(s, p, cmd);
      case Reap(b) => ReleaseTame(s, ClaimOf(s.books[b], b));
      case PruneOperation(r) => MarksTame(s, Tx(s, st).state, None);
      case CreateTx(e, l) => OpeningTame(s, e, l);
      case CompensateTx(e) => ReleaseTame(s, e.claim);
      case ConfirmTx(e) => ConfirmTame(s, e.claim, e.loan, e.borrowedAt, e.dueDate);
      case CancelStaleTx(e) => CancelTame(s, e.claim, Some(e.loan));
      case CancelReleasedTx(e) => CancelTame(s, e.claim, None);
      case ReturnTx(e) => ReturnTame(s, e.claim, e.loan);
    }
  }

  lemma MarksTame(s: State, n: State, touched: Option<PatronId>)
    requires SameStores(s, n) && n.patrons == s.patrons && s.rejected <= n.rejected
    ensures Tame(s, n, touched)
  {
  }

  lemma AfterTame(s: State, st: Step, r: TxResult)
    requires r.Committed? ==> Tame(s, r.state, Touched(st))
    ensures Tame(s, After(s, st, r), Touched(st))
  {
    if r.Committed? {
      FinishTame(s, r.state, st);
    } else {
      NoCommitNoFacts(s, st, r);
      NoCommitMarks(s, st, r);
      MarksTame(s, After(s, st, r), Touched(st));
    }
  }

  lemma NoCommitMarks(s: State, st: Step, r: TxResult)
    requires !r.Committed?
    ensures s.rejected <= After(s, st, r).rejected && After(s, st, r).patrons == s.patrons
  {
    if r.Raised? && !Acknowledged(st, r.error) && !Diverted(st, r.error) {
      assert After(s, st, r) == s;
    }
  }

  lemma FinishTame(s: State, n: State, st: Step)
    requires Tame(s, n, Touched(st))
    ensures Tame(s, Finish(n, st), Touched(st))
  {
  }

  // ---- In-flight transactions survive everybody else's steps ----

  lemma PhaseStable(s: State, n: State, e: Event, phase: Phase, touched: Option<PatronId>)
    requires e.BookReserved? && PhaseOk(s, e, phase) && Tame(s, n, touched)
    requires e in s.log && EventOk(s, e) && touched != Some(e.claim.patron)
    ensures PhaseOk(n, e, phase)
  {
    SubsetIsSmaller(OutstandingOf(n.loans, e.claim.patron), OutstandingOf(s.loans, e.claim.patron));
  }

  lemma TxnStable(c: DbState, d: DbState, t: TxnId, touched: Option<PatronId>)
    requires DbInv(c) && t in c.txns && t in d.txns && d.txns[t] == c.txns[t]
    requires Tame(c.db, d.db, touched)
    requires forall p | p in c.fence && c.fence[p] == t :: p in d.fence && d.fence[p] == t
    requires touched.Some? ==> Map(c.fence, touched.value) != Some(t)
    ensures TxnOk(d, t)
  {
    assert TxnOk(c, t);
    match c.txns[t] {
      case OpenTxn(st, phase) =>
        assert EventOk(c.db, st.event);
        PhaseStable(c.db, d.db, st.event, phase, touched);
      case _ =>
    }
  }

  // ---- Commits are atomic ----

  lemma RebasedIsCurrent(db: State, txn: Txn)
    requires match txn
             case BookTxn(st, row) => ChangesBook(st) && BookRow(st) in db.books && db.books[BookRow(st)] == row
             case LoanTxn(_, l, row) => l in db.loans && db.loans[l] == row
             case PolicyTxn(_, p, profile) => profile.Some? ==> p in db.patrons && db.patrons[p] == profile.value
             case OpenTxn(_, _) => true
    ensures Rebased(db, txn) == db
  {
    match txn {
      case BookTxn(st, row) => assert db.books[BookRow(st) := row] == db.books;
      case LoanTxn(_, l, row) => assert db.loans[l := row] == db.loans;
      case PolicyTxn(_, p, profile) =>
        if profile.Some? { assert db.patrons[p := profile.value] == db.patrons; }
      case OpenTxn(_, _) =>
    }
  }

  /** The admission decided under the fence is still right when the loan is inserted. */
  lemma InsertIsAtomic(db: State, st: Step, tier: Lending.MembershipTier)
    requires Inv(db) && st.CreateTx? && st.event.BookReserved?
    requires PhaseOk(db, st.event, Admitted(tier)) && IndexesAccept(db, st.event)
    ensures InsertLoan(db, st, tier) == CreateLoan(db, st.event, st.newLoan)
  {
  }

  /** An unchanged version means an unchanged row: the late commit is the transaction run here and now. */
  lemma CommitIsAtomic(c: DbState, t: TxnId)
    requires DbInv(c) && RowsValid(c.db) && CanCommit(c, t)
    ensures CommitResult(c, t) == Tx(c.db, c.txns[t].st)
  {
    assert TxnOk(c, t);
    match c.txns[t] {
      case OpenTxn(st, phase) => InsertIsAtomic(c.db, st, phase.tier);
      case txn => RebasedIsCurrent(c.db, txn);
    }
  }

  /** Only a lost race, or a clash of generated identities, ever stops a loaded change. */
  lemma OnlyRacesBlock(c: DbState, t: TxnId)
    requires DbInv(c) && t in c.txns && !c.txns[t].OpenTxn? && VersionUnchanged(c.db, c.txns[t])
    requires Enabled(c.db, c.txns[t].st)
    ensures CanCommit(c, t)
  {
    assert TxnOk(c, t);
    RebasedIsCurrent(c.db, c.txns[t]);
    InvImpliesRowsValid(c.db);
  }

  // ---- Refinement ----

  /** The saga sees this finer step as one of its own, or not at all. */
  ghost predicate Refines(a: State, b: State) {
    a == b || exists st :: Steps(a, st, b)
  }

  lemma CommitRefines(c: DbState, t: TxnId)
    requires DbInv(c) && DbEnabled(c, Commit(t))
    ensures Refines(c.db, DbNext(c, Commit(t)).db)
  {
    InvImpliesRowsValid(c.db);
    CommitIsAtomic(c, t);
    assert Steps(c.db, c.txns[t].st, DbNext(c, Commit(t)).db);
  }

  /** A business rejection decided anywhere along the way is the rejection of the atomic transaction. */
  lemma RejectRefines(db: State, e: Event)
    requires Inv(db) && e in db.log && e.BookReserved?
    requires FindByReservation(db, e.claim.reservation).None? && Admission(db, e).Some?
    ensures Refines(db, Reject(db, e)) && Inv(Reject(db, e))
  {
    InvImpliesRowsValid(db);
    var l := FreshLoan(db.created);
    assert Steps(db, CreateTx(e, l), Reject(db, e));
    DivertKeepsInv(db, e);
  }

  /** Finding the reservation's loan ends the handler as a replay. */
  lemma ReplayRefines(db: State, e: Event, l: LoanId)
    requires Inv(db) && e in db.log && e.BookReserved? && FindByReservation(db, e.claim.reservation).Some?
    ensures CreateLoan(db, e, l) == NoChange
    ensures Refines(db, Finish(db, CreateTx(e, l))) && Inv(Finish(db, CreateTx(e, l)))
  {
    InvImpliesRowsValid(db);
    var k := FreshLoan(db.created);
    CreateOutcome(db, e, l);
    assert Steps(db, CreateTx(e, k), Finish(db, CreateTx(e, l)));
    FinishKeepsInv(db, CreateTx(e, l));
  }

  /** Only transaction t (if anyone) changed the database, and only its own entry and fences moved. */
  ghost predicate ActedAlone(c: DbState, d: DbState, t: TxnId, touched: Option<PatronId>) {
    && Tame(c.db, d.db, touched)
    && (touched.Some? ==> Map(c.fence, touched.value) == Some(t))
    && (forall u | u in d.txns && u != t :: u in c.txns && d.txns[u] == c.txns[u])
    && (forall u | u in c.txns && u != t :: u in d.txns)
    && (forall p | p in c.fence && c.fence[p] != t :: p in d.fence && d.fence[p] == c.fence[p])
    && (forall p | p in d.fence :: d.fence[p] == t || (p in c.fence && c.fence[p] == d.fence[p]))
    && (t !in d.txns ==> forall p | p in d.fence :: d.fence[p] != t)
  }

  lemma ActedAloneKeepsInv(c: DbState, d: DbState, t: TxnId, touched: Option<PatronId>)
    requires DbInv(c) && ActedAlone(c, d, t, touched) && Inv(d.db)
    requires t in d.txns ==> TxnOk(d, t)
    ensures DbInv(d)
  {
    forall u | u in d.txns ensures TxnOk(d, u) {
      if u != t {
        TxnStable(c, d, u, touched);
      }
    }
  }

  lemma EndActsAlone(c: DbState, t: TxnId, db: State, touched: Option<PatronId>)
    requires Tame(c.db, db, touched) && (touched.Some? ==> Map(c.fence, touched.value) == Some(t))
    ensures ActedAlone(c, End(c, t, db), t, touched)
  {
  }

  lemma BecomeActsAlone(c: DbState, t: TxnId, txn: Txn, db: State)
    requires Tame(c.db, db, None)
    ensures ActedAlone(c, Become(c, t, txn).(db := db), t, None)
  {
    hide Tame;
  }

  /** A reflexive or bookkeeping change of the database is tame for everyone. */
  lemma RejectTame(db: State, e: Event)
    ensures Tame(db, Reject(db, e), None) && Tame(db, db, None)
  {
    MarksTame(db, Reject(db, e), None);
    MarksTame(db, db, None);
  }

  lemma RefinedKeepsInv(a: State, b: State)
    requires Inv(a) && Refines(a, b)
    ensures Inv(b)
  {
    if a != b {
      var st :| Steps(a, st, b);
      NextKeepsInv(a, st);
    }
  }

  // ---- The ten kinds of finer step ----

  lemma ReadOnlyStep(c: DbState, cs: DbStep)
    requires DbInv(c) && DbEnabled(c, cs) && cs.ReadOnly?
    ensures Refines(c.db, DbNext(c, cs).db) && DbInv(DbNext(c, cs))
  {
    var st, d := cs.st, DbNext(c, cs);
    assert Steps(c.db, st, d.db);
    RefinedKeepsInv(c.db, d.db);
    ReadOnlyTame(c.db, st);
    forall u | u in d.txns ensures TxnOk(d, u) {
      TxnStable(c, d, u, None);
    }
  }

  lemma ReadOnlyTame(s: State, st: Step)
    requires Inv(s) && RowsValid(s) && Enabled(s, st)
    requires if st.CreateTx? then
               FindByReservation(s, st.event.claim.reservation).Some? || BookHasOutstandingLoan(s.loans, st.event.claim.book)
             else st.PruneOperation? || !Tx(s, st).Committed?
    ensures Tame(s, Next(s, st), None)
  {
    if st.PruneOperation? {
      MarksTame(s, Next(s, st), None);
    } else {
      NoCommitNoFacts(s, st, Tx(s, st));
      NoCommitMarks(s, st, Tx(s, st));
      MarksTame(s, Next(s, st), None);
    }
  }

  lemma LoadStep(c: DbState, cs: DbStep)
    requires DbInv(c) && DbEnabled(c, cs) && cs.Load?
    ensures DbNext(c, cs).db == c.db && DbInv(DbNext(c, cs))
  {
    var d := DbNext(c, cs);
    LoadedOk(c, cs);
    hide Enabled;
    hide Tx;
    RejectTame(c.db, BookReleased(Claim(0, 0, 0, 0)));
    BecomeActsAlone(c, cs.txn, d.txns[cs.txn], c.db);
    hide TxnOk;
    hide Inv;
    ActedAloneKeepsInv(c, d, cs.txn, None);
  }

  lemma LoadedOk(c: DbState, cs: DbStep)
    requires DbEnabled(c, cs) && cs.Load?
    ensures DbNext(c, cs).db == c.db && cs.txn in DbNext(c, cs).txns && TxnOk(DbNext(c, cs), cs.txn)
  {
  }

  lemma CommitStep(c: DbState, cs: DbStep)
    requires DbInv(c) && DbEnabled(c, cs) && cs.Commit?
    ensures Refines(c.db, DbNext(c, cs).db) && DbInv(DbNext(c, cs))
  {
    var t, d := cs.txn, DbNext(c, cs);
    var st := c.txns[t].st;
    CommitRefines(c, t);
    RefinedKeepsInv(c.db, d.db);
    InvImpliesRowsValid(c.db);
    CommitIsAtomic(c, t);
    assert TxnOk(c, t);
    if Tx(c.db, st).Committed? {
      TxTame(c.db, st);
    }
    AfterTame(c.db, st, Tx(c.db, st));
    EndActsAlone(c, t, d.db, Touched(st));
    ActedAloneKeepsInv(c, d, t, Touched(st));
  }

  lemma RollbackStep(c: DbState, cs: DbStep)
    requires DbInv(c) && DbEnabled(c, cs) && cs.Rollback?
    ensures DbNext(c, cs).db == c.db && DbInv(DbNext(c, cs))
  {
    RejectTame(c.db, BookReleased(Claim(0, 0, 0, 0)));
    EndActsAlone(c, cs.txn, c.db, None);
    ActedAloneKeepsInv(c, DbNext(c, cs), cs.txn, None);
  }

  lemma TakeFenceStep(c: DbState, cs: DbStep)
    requires DbInv(c) && DbEnabled(c, cs) && cs.TakeFence?
    ensures DbNext(c, cs).db == c.db && DbInv(DbNext(c, cs))
  {
    RejectTame(c.db, BookReleased(Claim(0, 0, 0, 0)));
    ActedAloneKeepsInv(c, DbNext(c, cs), cs.txn, None);
  }

  lemma ReadPolicyStep(c: DbState, cs: DbStep)
    requires DbInv(c) && DbEnabled(c, cs) && cs.ReadPolicy?
    ensures DbNext(c, cs).db == c.db && DbInv(DbNext(c, cs))
  {
    RejectTame(c.db, BookReleased(Claim(0, 0, 0, 0)));
    assert TxnOk(c, cs.txn);
    ActedAloneKeepsInv(c, DbNext(c, cs), cs.txn, None);
  }

  lemma CountStep(c: DbState, cs: DbStep)
    requires DbInv(c) && DbEnabled(c, cs) && cs.CountOutstanding?
    ensures Refines(c.db, DbNext(c, cs).db) && DbInv(DbNext(c, cs))
  {
    var t, d := cs.txn, DbNext(c, cs);
    var e := c.txns[t].st.event;
    assert TxnOk(c, t);
    RejectTame(c.db, e);
    if d.db != c.db {
      RejectRefines(c.db, e);
    }
    CountIsBound(c.db, e);
    assert TxnOk(d, t);
    BecomeActsAlone(c, t, d.txns[t], d.db);
    hide TxnOk;
    hide Inv;
    hide Reject;
    ActedAloneKeepsInv(c, d, t, None);
  }

  lemma CountIsBound(db: State, e: Event)
    requires IndexesOk(db) && e.BookReserved?
    ensures var n := |OutstandingOf(db.loans, e.claim.patron)|;
            && (AtLimit(db, e.claim.patron, n) && FindByReservation(db, e.claim.reservation).None? ==> LimitOk(Reject(db, e), e, n))
            && (!(AtLimit(db, e.claim.patron, n) && FindByReservation(db, e.claim.reservation).None?) ==> LimitOk(db, e, n))
  {
  }

  lemma LookAgainStep(c: DbState, cs: DbStep)
    requires DbInv(c) && DbEnabled(c, cs) && cs.LookAgain?
    ensures Refines(c.db, DbNext(c, cs).db) && DbInv(DbNext(c, cs))
  {
    var t, d := cs.txn, DbNext(c, cs);
    var st := c.txns[t].st;
    assert TxnOk(c, t);
    RejectTame(c.db, st.event);
    if FindByReservation(c.db, st.event.claim.reservation).Some? {
      ReplayRefines(c.db, st.event, st.newLoan);
      MarksTame(c.db, d.db, None);
      EndActsAlone(c, t, d.db, None);
    } else {
      assert TxnOk(d, t);
      BecomeActsAlone(c, t, d.txns[t], c.db);
    }
    hide TxnOk;
    hide Inv;
    ActedAloneKeepsInv(c, d, t, None);
  }

  /** The count taken under the fence still bounds the patron's loans when the profile is read. */
  lemma ReadProfileStep(c: DbState, cs: DbStep)
    requires DbInv(c) && DbEnabled(c, cs) && cs.ReadProfile?
    ensures Refines(c.db, DbNext(c, cs).db) && DbInv(DbNext(c, cs))
  {
    var t, d := cs.txn, DbNext(c, cs);
    var e := c.txns[t].st.event;
    assert TxnOk(c, t);
    RejectTame(c.db, e);
    if !Eligible(c.db, e) {
      RejectRefines(c.db, e);
      EndActsAlone(c, t, d.db, None);
    } else if AtLimit(c.db, e.claim.patron, c.txns[t].phase.count) {
      assert d.db == c.db by { assert c.db.rejected + {e} == c.db.rejected; }
      EndActsAlone(c, t, d.db, None);
    }
    ActedAloneKeepsInv(c, d, t, None);
  }

  lemma LookForBookStep(c: DbState, cs: DbStep)
    requires DbInv(c) && DbEnabled(c, cs) && cs.LookForBook?
    ensures Refines(c.db, DbNext(c, cs).db) && DbInv(DbNext(c, cs))
  {
    var t, d := cs.txn, DbNext(c, cs);
    var e := c.txns[t].st.event;
    assert TxnOk(c, t);
    RejectTame(c.db, e);
    if BookHasOutstandingLoan(c.db.loans, e.claim.book) {
      RejectRefines(c.db, e);
      EndActsAlone(c, t, d.db, None);
      ActedAloneKeepsInv(c, d, t, None);
    }
  }

  lemma DbStepRefines(c: DbState, cs: DbStep)
    requires DbInv(c) && DbEnabled(c, cs)
    ensures Refines(c.db, DbNext(c, cs).db) && DbInv(DbNext(c, cs))
  {
    match cs {
      case ReadOnly(_) => ReadOnlyStep(c, cs);
      case Load(_, _) => LoadStep(c, cs);
      case Commit(_) => CommitStep(c, cs);
      case Rollback(_) => RollbackStep(c, cs);
      case TakeFence(_, _) => TakeFenceStep(c, cs);
      case ReadPolicy(_) => ReadPolicyStep(c, cs);
      case CountOutstanding(_) => CountStep(c, cs);
      case LookAgain(_) => LookAgainStep(c, cs);
      case ReadProfile(_) => ReadProfileStep(c, cs);
      case LookForBook(_) => LookForBookStep(c, cs);
    }
  }

  // ---- Whole runs ----

  ghost predicate DbRun(tr: seq<DbState>, steps: seq<DbStep>) {
    && |tr| == |steps| + 1
    && Init(tr[0].db) && tr[0].txns == map[] && tr[0].fence == map[]
    && forall i {:trigger steps[i]} | 0 <= i < |steps| ::
         DbEnabled(tr[i], steps[i]) && tr[i + 1] == DbNext(tr[i], steps[i])
  }

  /**
   * Whatever the interleaving of loads, fences, statements, commits and crashes, the committed database
   * is one the atomic saga reaches; so every theorem about reachable saga states holds of it.
   */
  lemma {:induction false} DbRunRefinesSaga(tr: seq<DbState>, steps: seq<DbStep>, i: nat)
    requires DbRun(tr, steps) && i <= |steps|
    ensures DbInv(tr[i]) && Reachable(tr[i].db)
  {
    if i == 0 {
      InitInv(tr[0].db);
      assert Run([tr[0].db], []) && [tr[0].db][0] == tr[0].db;
    } else {
      DbRunRefinesSaga(tr, steps, i - 1);
      assert DbEnabled(tr[i - 1], steps[i - 1]) && tr[i] == DbNext(tr[i - 1], steps[i - 1]);
      DbStepRefines(tr[i - 1], steps[i - 1]);
      if tr[i].db != tr[i - 1].db {
        var st :| Steps(tr[i - 1].db, st, tr[i].db);
        ReachableStep(tr[i - 1].db, st, tr[i].db);
      }
    }
  }

  lemma AdmittedCommit(c: DbState, t: TxnId)
    requires DbInv(c) && CanCommit(c, t) && c.txns[t].OpenTxn?
    ensures var st := c.txns[t].st;
            && st.CreateTx? && st.event.BookReserved? && Eligible(c.db, st.event)
            && !AtLimit(c.db, st.event.claim.patron, |OutstandingOf(c.db.loans, st.event.claim.patron)|)
  {
    assert TxnOk(c, t);
  }
}
