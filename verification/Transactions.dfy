/**
 * The database level under the saga: commands load rows, think, and commit later behind an optimistic
 * version check; loan admission runs statement by statement behind the per-patron advisory fence.
 * Every interleaving of these finer steps is an interleaving of the saga's atomic transactions.
 */
module Transactions {
  import opened Shared
  import Catalog
  import Lending
  import Patrons
  import opened Saga
  import opened SagaSafety

  type TxnId = nat

  /** How far a loan-creating transaction has come. Everything from Fenced on holds the patron's fence. */
  datatype Phase =
    | Fenced
    | Counted(count: nat)
    | Relooked(count: nat)
    | Admitted(tier: Lending.MembershipTier)

  datatype Txn =
    | BookTxn(st: Step, snapshot: Catalog.BookState)
    | LoanTxn(st: Step, loan: LoanId, row: Lending.LoanState)
    | PolicyTxn(st: Step, patron: PatronId, profile: Option<Patrons.PatronState>)  // fenced from the start
    | OpenTxn(st: Step, phase: Phase)

  datatype DbState = DbState(db: State, txns: map<TxnId, Txn>, fence: map<PatronId, TxnId>)

  datatype DbStep =
    | ReadOnly(st: Step)                 // the loaded rows already decide: nothing to commit
    | Load(txn: TxnId, st: Step)         // the loaded rows call for a change
    | Commit(txn: TxnId)
    | Rollback(txn: TxnId)               // crash, lost version race, uniqueness conflict
    | TakeFence(txn: TxnId, st: Step)
    | ReadPolicy(txn: TxnId)
    | CountOutstanding(txn: TxnId)
    | LookAgain(txn: TxnId)
    | ReadProfile(txn: TxnId)
    | LookForBook(txn: TxnId)

  // ---- Which row a command loads ----

  predicate ChangesBook(st: Step) {
    st.Borrow? || st.Reap? || st.CompensateTx? || st.ConfirmTx? || st.ReturnTx?
  }

  predicate ChangesLoan(st: Step) {
    st.LoanChange? || st.CancelStaleTx? || st.CancelReleasedTx?
  }

  function BookRow(st: Step): BookId
    requires ChangesBook(st)
  {
    if st.Borrow? then st.book else if st.Reap? then st.book else st.event.claim.book
  }

  function LoanRow(db: State, st: Step): Option<LoanId>
    requires ChangesLoan(st)
  {
    if st.LoanChange? then (if st.loan in db.loans then Some(st.loan) else None)
    else FindByReservation(db, st.event.claim.reservation)
  }

  // ---- Commits ----

  /** The row a transaction writes comes from the entity it loaded; all else it touches is current. */
  function Rebased(db: State, txn: Txn): State {
    match txn
    case BookTxn(st, snapshot) => if ChangesBook(st) then db.(books := db.books[BookRow(st) := snapshot]) else db
    case LoanTxn(_, l, row) => db.(loans := db.loans[l := row])
    case PolicyTxn(_, p, profile) => if profile.Some? then db.(patrons := db.patrons[p := profile.value]) else db
    case OpenTxn(_, _) => db
  }

  /** UPDATE ... WHERE id = :id AND version = :expected finds its row. */
  predicate VersionUnchanged(db: State, txn: Txn) {
    match txn
    case BookTxn(st, snapshot) =>
      ChangesBook(st) && BookRow(st) in db.books && db.books[BookRow(st)].version == snapshot.version
    case LoanTxn(_, l, row) => l in db.loans && db.loans[l].version == row.version
    case PolicyTxn(_, p, profile) => p in db.patrons && profile.Some? && db.patrons[p].version == profile.value.version
    case OpenTxn(_, _) => true
  }

  /** The unique indexes on loans accept the new row. */
  predicate IndexesAccept(db: State, e: Event)
    requires e.BookReserved?
  {
    e.claim.reservation !in db.byReservation && !BookHasOutstandingLoan(db.loans, e.claim.book)
  }

  function InsertLoan(db: State, st: Step, tier: Lending.MembershipTier): TxResult
    requires st.CreateTx? && st.event.BookReserved?
  {
    var e := st.event;
    match Lending.CreateLoan(e.claim, st.newLoan, e.email, e.title, Lending.TermsFor(tier).loanDurationDays, e.reservedAt)
    case Unchanged => NoChange
    case Failed(err) => Raised(err)
    case Changed(loan, ev) =>
      Committed(db.(loans := db.loans[st.newLoan := loan],
                    byReservation := db.byReservation[e.claim.reservation := st.newLoan],
                    log := db.log + [ev], created := db.created[st.newLoan := ev]))
  }

  /** Identities generated by the source are fresh and loaded rows hydrate; beyond that only races can stop a commit. */
  predicate CanCommit(c: DbState, t: TxnId) {
    t in c.txns && VersionUnchanged(c.db, c.txns[t]) && Enabled(c.db, c.txns[t].st) &&
    match c.txns[t]
    case OpenTxn(st, phase) => st.CreateTx? && phase.Admitted? && IndexesAccept(c.db, st.event)
    case txn => RowsValid(Rebased(c.db, txn)) && Enabled(Rebased(c.db, txn), txn.st)
  }

  function CommitResult(c: DbState, t: TxnId): TxResult
    requires CanCommit(c, t)
  {
    match c.txns[t]
    case OpenTxn(st, phase) => InsertLoan(c.db, st, phase.tier)
    case txn => Tx(Rebased(c.db, txn), txn.st)
  }

  /** Ends a transaction; a fence it held is released with it. */
  function End(c: DbState, t: TxnId, db: State): DbState {
    DbState(db, c.txns - {t}, map p | p in c.fence && c.fence[p] != t :: c.fence[p])
  }

  function Become(c: DbState, t: TxnId, txn: Txn): DbState {
    c.(txns := c.txns[t := txn])
  }

  // ---- The finer step system ----

  predicate Opening(c: DbState, t: TxnId) {
    t in c.txns && c.txns[t].OpenTxn? && c.txns[t].st.CreateTx? && c.txns[t].st.event.BookReserved?
  }

  function Patron(st: Step): PatronId
    requires st.PatronChange? || (st.CreateTx? && st.event.BookReserved?)
  {
    if st.PatronChange? then st.patron else st.event.claim.patron
  }

  predicate DbEnabled(c: DbState, cs: DbStep) {
    match cs
    case ReadOnly(st) =>
      // For loan creation: the first lookup, or the reconciliation after a uniqueness conflict.
      && Enabled(c.db, st) && RowsValid(c.db) && !st.PatronChange?
      && if st.CreateTx? then
           FindByReservation(c.db, st.event.claim.reservation).Some? || BookHasOutstandingLoan(c.db.loans, st.event.claim.book)
         else st.PruneOperation? || !Tx(c.db, st).Committed?
    case Load(t, st) =>
      && t !in c.txns && Enabled(c.db, st) && RowsValid(c.db) && Tx(c.db, st).Committed?
      && ((ChangesBook(st) && BookRow(st) in c.db.books) || (ChangesLoan(st) && LoanRow(c.db, st).Some?))
    case Commit(t) => CanCommit(c, t)
    case Rollback(t) => t in c.txns
    case TakeFence(t, st) =>
      && t !in c.txns && Enabled(c.db, st) && (st.PatronChange? || st.CreateTx?) && Patron(st) !in c.fence
    case ReadPolicy(t) => t in c.txns && c.txns[t].PolicyTxn? && c.txns[t].patron in c.db.patrons && c.txns[t].profile.None?
    case CountOutstanding(t) => Opening(c, t) && c.txns[t].phase.Fenced?
    case LookAgain(t) => Opening(c, t) && c.txns[t].phase.Counted?
    case ReadProfile(t) => Opening(c, t) && c.txns[t].phase.Relooked?
    case LookForBook(t) => Opening(c, t) && c.txns[t].phase.Admitted?
  }

  predicate AtLimit(db: State, p: PatronId, count: nat) {
    p in db.patrons && count >= Lending.TermsFor(db.patrons[p].tier).maxOutstandingLoans
  }

  predicate Eligible(db: State, e: Event)
    requires e.BookReserved?
  {
    var p := e.claim.patron;
    p in db.patrons && db.patrons[p].email == e.email && !db.patrons[p].suspended
  }

  function Reject(db: State, e: Event): State {
    db.(rejected := db.rejected + {e})
  }

  function DbNext(c: DbState, cs: DbStep): DbState
    requires DbEnabled(c, cs)
  {
    match cs
    case ReadOnly(st) => c.(db := Next(c.db, st))
    case Load(t, st) =>
      if ChangesBook(st) then Become(c, t, BookTxn(st, c.db.books[BookRow(st)]))
      else Become(c, t, LoanTxn(st, LoanRow(c.db, st).value, c.db.loans[LoanRow(c.db, st).value]))
    case Commit(t) => End(c, t, After(c.db, c.txns[t].st, CommitResult(c, t)))
    case Rollback(t) => End(c, t, c.db)
    case TakeFence(t, st) =>
      DbState(c.db, c.txns[t := if st.PatronChange? then PolicyTxn(st, st.patron, None) else OpenTxn(st, Fenced)],
              c.fence[Patron(st) := t])
    case ReadPolicy(t) =>
      var txn := c.txns[t];
      Become(c, t, PolicyTxn(txn.st, txn.patron, Some(c.db.patrons[txn.patron])))
    case CountOutstanding(t) =>
      // A count at the limit already decides the outcome; the worker is free to compensate from here on.
      var st := c.txns[t].st;
      var n := |OutstandingOf(c.db.loans, Patron(st))|;
      var db := if AtLimit(c.db, Patron(st), n) && FindByReservation(c.db, st.event.claim.reservation).None?
                then Reject(c.db, st.event) else c.db;
      Become(c, t, OpenTxn(st, Counted(n))).(db := db)
    case LookAgain(t) =>
      var st := c.txns[t].st;
      if FindByReservation(c.db, st.event.claim.reservation).Some? then
        End(c, t, After(c.db, st, CreateLoan(c.db, st.event, st.newLoan)))
      else Become(c, t, OpenTxn(st, Relooked(c.txns[t].phase.count)))
    case ReadProfile(t) =>
      var st := c.txns[t].st;
      if !Eligible(c.db, st.event) || AtLimit(c.db, Patron(st), c.txns[t].phase.count) then
        End(c, t, Reject(c.db, st.event))
      else Become(c, t, OpenTxn(st, Admitted(c.db.patrons[Patron(st)].tier)))
    case LookForBook(t) =>
      if BookHasOutstandingLoan(c.db.loans, c.txns[t].st.event.claim.book) then
        End(c, t, Reject(c.db, c.txns[t].st.event))
      else c
  }

  // ---- What in-flight transactions may rely on ----

  ghost predicate LimitOk(db: State, e: Event, count: nat)
    requires e.BookReserved?
  {
    && |OutstandingOf(db.loans, e.claim.patron)| <= count
    && (AtLimit(db, e.claim.patron, count) ==> e in db.rejected || e.claim.reservation in db.byReservation)
  }

  ghost predicate PhaseOk(db: State, e: Event, phase: Phase)
    requires e.BookReserved?
  {
    match phase
    case Fenced => true
    case Counted(n) => LimitOk(db, e, n)
    case Relooked(n) => LimitOk(db, e, n) && e.claim.reservation !in db.byReservation
    case Admitted(tier) =>
      && Eligible(db, e) && tier == db.patrons[e.claim.patron].tier
      && |OutstandingOf(db.loans, e.claim.patron)| < Lending.TermsFor(tier).maxOutstandingLoans
      && e.claim.reservation !in db.byReservation
  }

  ghost predicate TxnOk(c: DbState, t: TxnId)
    requires t in c.txns
  {
    match c.txns[t]
    case BookTxn(st, row) =>
      && ChangesBook(st) && BookRow(st) in c.db.books
      && row.version <= c.db.books[BookRow(st)].version
      && (row.version == c.db.books[BookRow(st)].version ==> row == c.db.books[BookRow(st)])
    case LoanTxn(st, l, row) =>
      && ChangesLoan(st) && l in c.db.loans && row.version <= c.db.loans[l].version
      && (row.version == c.db.loans[l].version ==> row == c.db.loans[l])
    case PolicyTxn(st, p, profile) =>
      && st.PatronChange? && st.patron == p && Map(c.fence, p) == Some(t)
      && (profile.Some? ==> p in c.db.patrons && c.db.patrons[p] == profile.value)
    case OpenTxn(st, phase) =>
      && st.CreateTx? && st.event in c.db.log && st.event.BookReserved?
      && Map(c.fence, st.event.claim.patron) == Some(t)
      && PhaseOk(c.db, st.event, phase)
  }

  ghost predicate DbInv(c: DbState) {
    && Inv(c.db)
    && (forall t {:trigger TxnOk(c, t)} | t in c.txns :: TxnOk(c, t))
    && (forall p | p in c.fence :: c.fence[p] in c.txns)
  }

  // ---- A saga step as seen by the other transactions ----

  /** Rows change only with their version; a fenced patron is touched only under the fence. */
  ghost predicate Tame(s: State, n: State, touched: Option<PatronId>) {
    && (forall b | b in s.books :: b in n.books && (n.books[b] == s.books[b] || n.books[b].version > s.books[b].version))
    && (forall l | l in s.loans :: l in n.loans && (n.loans[l] == s.loans[l] || n.loans[l].version > s.loans[l].version))
    && (forall p | p in s.patrons :: p in n.patrons &&
          (n.patrons[p] == s.patrons[p] || (touched == Some(p) && n.patrons[p].version > s.patrons[p].version)))
    && n.patrons.Keys == s.patrons.Keys
    && (forall p: PatronId {:trigger OutstandingOf(n.loans, p)} | touched != Some(p) ::
          OutstandingOf(n.loans, p) <= OutstandingOf(s.loans, p))
    && (forall r | r in n.byReservation && r !in s.byReservation ::
          r in s.issued && touched == Some(s.issued[r].claim.patron))
    && (forall r | r in s.byReservation :: r in n.byReservation)
    && s.rejected <= n.rejected && s.log <= n.log
  }

  function Touched(st: Step): Option<PatronId> {
    if st.PatronChange? then Some(st.patron)
    else if st.CreateTx? && st.event.BookReserved? then Some(st.event.claim.patron)
    else None
  }
}
