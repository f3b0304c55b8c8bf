/**
 * Who may borrow: what a reservation and a loan need and what they leave, and what a suspension does to every run
 * until it is lifted, stated on the rows themselves.
 */
module SagaAdmission {
  import opened Shared
  import Catalog
  import Lending
  import Patrons
  import opened Saga
  import opened SagaSafety
  import opened SagaEvolution
  import opened SagaRuns

  // ---- A reservation ----

  /** A reservation is made for a known, eligible patron on a known, available book; the others are told why not. */
  lemma ReservedExactly(s: State, book: BookId, patron: PatronId, eligible: bool, now: Time, token: ReservationId)
    ensures BorrowBook(s, book, patron, eligible, now, token).Committed? <==>
              patron in s.patrons && eligible && book in s.books && s.books[book].status == Catalog.Available
    ensures !BorrowBook(s, book, patron, eligible, now, token).Committed? ==>
              BorrowBook(s, book, patron, eligible, now, token) ==
              Raised(if patron !in s.patrons || !eligible then BorrowerNotEligible
                     else if book !in s.books then BookNotFound else BookAlreadyBorrowed)
  {
  }

  /** It leaves the book held for the patron, an operation row for it and one event under the patron's address. */
  lemma ReservedLeaves(s: State, book: BookId, patron: PatronId, eligible: bool, now: Time, token: ReservationId)
    requires BorrowBook(s, book, patron, eligible, now, token).Committed?
    ensures var n := BorrowBook(s, book, patron, eligible, now, token).state;
            && book in s.books && patron in s.patrons && book in n.books && token in n.ops
            && var was, b, op := s.books[book], n.books[book], n.ops[token];
            && (b.status, b.reservationId, b.generation, b.patronId) == (Catalog.Reserved, Some(token), was.generation + 1, Some(patron))
            && (b.email, b.reservedAt, b.version) == (Some(s.patrons[patron].email), Some(now), was.version + 1)
            && (op.book, op.patron, op.generation, op.status, op.loan) == (book, patron, was.generation + 1, OpReserved, None)
            && n.log == s.log + [BookReserved(Claim(book, token, was.generation + 1, patron), was.title, s.patrons[patron].email, now)]
            && n.books == s.books[book := b] && n.ops == s.ops[token := op]
            && n.loans == s.loans && n.patrons == s.patrons && n.byReservation == s.byReservation
  {
  }

  // ---- A loan ----

  /** The loans that weigh on a patron: neither returned nor cancelled. */
  ghost function LoansOf(s: State, p: PatronId): set<LoanId> {
    set l | l in s.loans && s.loans[l].claim.patron == p && s.loans[l].status != Lending.Returned && s.loans[l].status != Lending.Cancelled
  }

  ghost predicate Lent(s: State, b: BookId) {
    exists l :: l in s.loans && s.loans[l].claim.book == b && s.loans[l].status != Lending.Returned && s.loans[l].status != Lending.Cancelled
  }

  /** How many loans each tier allows, and for how many days. */
  function Limit(tier: Lending.MembershipTier): nat {
    match tier case Regular => 5 case Premium => 10 case Researcher => 20
  }

  function Days(tier: Lending.MembershipTier): nat {
    match tier case Regular => 14 case Premium => 21 case Researcher => 30
  }

  predicate HasLoan(s: State, r: ReservationId) {
    r in s.byReservation && s.byReservation[r] in s.loans
  }

  /** The first rule the patron or the book breaks. */
  ghost function Obstacle(s: State, e: Event): Option<Error>
    requires e.BookReserved?
  {
    var p := e.claim.patron;
    if p !in s.patrons || s.patrons[p].email != e.email || s.patrons[p].suspended then Some(PatronNotEligible)
    else if |LoansOf(s, p)| >= Limit(s.patrons[p].tier) then Some(PatronBorrowingLimitReached)
    else if Lent(s, e.claim.book) then Some(BookNotAvailable)
    else None
  }

  /** A loan is made for a reservation without one, of a patron who is known under the address, not suspended and under the limit. */
  lemma LentExactly(s: State, e: Event, l: LoanId)
    requires e.BookReserved? && e.claim.generation >= 1 && !HasLoan(s, e.claim.reservation)
    ensures CreateLoan(s, e, l).Committed? <==> Obstacle(s, e).None?
    ensures !CreateLoan(s, e, l).Committed? ==> CreateLoan(s, e, l) == Raised(Obstacle(s, e).value)
  {
    assert OutstandingOf(s.loans, e.claim.patron) == LoansOf(s, e.claim.patron);
  }

  /** It leaves a loan under the patron's terms, its place in the index and one event. */
  lemma LentLeaves(s: State, e: Event, l: LoanId)
    requires e.BookReserved? && CreateLoan(s, e, l).Committed?
    ensures var n := CreateLoan(s, e, l).state;
            && e.claim.patron in s.patrons && l in n.loans
            && var loan, due := n.loans[l], e.reservedAt + Days(s.patrons[e.claim.patron].tier) * 86_400_000_000;
            && loan == Lending.LoanState(e.claim, e.email, e.title, e.reservedAt, due, Lending.Active, None, 0)
            && n.log == s.log + [LoanCreated(e.claim, l, e.title, e.email, e.reservedAt, due)]
            && n.loans == s.loans[l := loan] && n.byReservation == s.byReservation[e.claim.reservation := l]
            && n.books == s.books && n.ops == s.ops && n.patrons == s.patrons
  {
    Lending.OpenedUnderTerms(e.claim, l, e.email, e.title, s.patrons[e.claim.patron].tier, e.reservedAt);
  }

  /** A repeated reservation that has its loan changes nothing, if every fact still agrees. */
  lemma ReplayedExactly(s: State, e: Event, l: LoanId)
    requires e.BookReserved? && HasLoan(s, e.claim.reservation)
    ensures var loan := s.loans[s.byReservation[e.claim.reservation]];
            CreateLoan(s, e, l) ==
            if (loan.claim, loan.email, loan.title, loan.borrowedAt) == (e.claim, e.email, e.title, e.reservedAt) then NoChange
            else Raised(ReservationCorrelationMismatch)
  {
  }

  ghost predicate EachWithinLimit(s: State) {
    forall p | p in s.patrons :: |LoansOf(s, p)| <= Limit(s.patrons[p].tier)
  }

  /** In every reachable state each patron is within the limit of the current tier, and no book is lent twice. */
  lemma LimitsHold(tr: seq<State>, steps: seq<Step>, i: nat)
    requires Run(tr, steps) && i <= |steps|
    ensures EachWithinLimit(tr[i])
    ensures forall l, m | l in tr[i].loans && m in tr[i].loans && l != m && tr[i].loans[l].claim.book == tr[i].loans[m].claim.book ::
              tr[i].loans[l].status == Lending.Returned || tr[i].loans[l].status == Lending.Cancelled
              || tr[i].loans[m].status == Lending.Returned || tr[i].loans[m].status == Lending.Cancelled
  {
    RunKeepsInv(tr, steps, i);
    LimitsInvariant(tr[i]);
  }

  lemma LimitsInvariant(s: State)
    requires Inv(s)
    ensures EachWithinLimit(s)
  {
    forall p | p in s.patrons ensures |LoansOf(s, p)| <= Limit(s.patrons[p].tier) {
      assert OutstandingOf(s.loans, p) == LoansOf(s, p);
    }
  }

  // ---- What one step may do to a patron, and which steps add a loan ----

  /** Transactions on a book leave loans and patrons alone. */
  lemma CatalogFrame(s: State, st: Step)
    requires RowsValid(s) && Enabled(s, st) && Tx(s, st).Committed?
    requires st.Borrow? || st.Reap? || st.CompensateTx? || st.ConfirmTx? || st.ReturnTx? || st.PruneOperation?
    ensures Tx(s, st).state.loans == s.loans && Tx(s, st).state.patrons == s.patrons
  {
    hide Catalog.Reserve;
    hide Catalog.Release;
    hide Catalog.ConfirmBorrow;
    hide Catalog.ReturnBook;
    match st {
      case Borrow(_, _, _, _, _) =>
      case Reap(_) =>
      case CompensateTx(_) =>
      case ConfirmTx(_) =>
      case ReturnTx(_) =>
      case PruneOperation(_) =>
    }
  }

  /** Transactions on a loan add none and leave patrons alone. */
  lemma LendingFrame(s: State, st: Step)
    requires RowsValid(s) && Enabled(s, st) && Tx(s, st).Committed? && (st.LoanChange? || st.CancelStaleTx? || st.CancelReleasedTx?)
    ensures Tx(s, st).state.loans.Keys == s.loans.Keys && Tx(s, st).state.patrons == s.patrons
  {
    hide Lending.React;
    hide Lending.CancelLoan;
    match st {
      case LoanChange(_, _) =>
      case CancelStaleTx(_) =>
      case CancelReleasedTx(_) =>
    }
  }

  lemma PatronFrame(s: State, st: Step)
    requires RowsValid(s) && Enabled(s, st) && Tx(s, st).Committed? && st.PatronChange?
    ensures var n := Tx(s, st).state;
            && n.loans == s.loans && st.patron in s.patrons && n.patrons == s.patrons[st.patron := n.patrons[st.patron]]
            && n.patrons[st.patron].version == s.patrons[st.patron].version + 1
            && Patrons.React(s.patrons[st.patron], st.policy) == Ok(n.patrons[st.patron].(version := s.patrons[st.patron].version))
  {
    Patrons.AcceptedLeaves(s.patrons[st.patron], st.policy, Patrons.React(s.patrons[st.patron], st.policy).value);
  }

  lemma AfterFrame(s: State, st: Step, r: TxResult)
    ensures var n := if r.Committed? then r.state else s;
            After(s, st, r).loans == n.loans && After(s, st, r).patrons == n.patrons
  {
  }

  /** What a step leaves of loans and patrons is what its transaction left. */
  lemma StepFrame(s: State, st: Step)
    requires RowsValid(s) && Enabled(s, st)
    ensures var n := if Tx(s, st).Committed? then Tx(s, st).state else s;
            && Next(s, st).loans == n.loans && Next(s, st).patrons == n.patrons
            && (n.patrons != s.patrons ==> st.PatronChange?)
            && (n.loans.Keys != s.loans.Keys ==> st.CreateTx?)
  {
    AfterFrame(s, st, Tx(s, st));
    hide After;
    if Tx(s, st).Committed? && !st.PatronChange? && !st.CreateTx? {
      if st.LoanChange? || st.CancelStaleTx? || st.CancelReleasedTx? {
        LendingFrame(s, st);
      } else {
        CatalogFrame(s, st);
      }
    } else if Tx(s, st).Committed? && st.PatronChange? {
      PatronFrame(s, st);
    } else if st.CreateTx? {
      CreationFrame(s, st);
    }
  }

  lemma CreationFrame(s: State, st: Step)
    requires Enabled(s, st) && RowsValid(s) && st.CreateTx?
    ensures Tx(s, st) == CreateLoan(s, st.event, st.newLoan)
    ensures Tx(s, st).Committed? ==> Tx(s, st).state.patrons == s.patrons
  {
    if CreateLoan(s, st.event, st.newLoan).Committed? {
      LentLeaves(s, st.event, st.newLoan);
    }
  }

  /** A patron's row changes only by a command on that patron, and by what the command says. */
  lemma PatronStep(s: State, st: Step, p: PatronId)
    requires RowsValid(s) && Enabled(s, st) && p in s.patrons
    ensures p in Next(s, st).patrons
    ensures Next(s, st).patrons[p] != s.patrons[p] ==> st.PatronChange? && st.patron == p
    ensures st.PatronChange? && st.patron == p && Tx(s, st).Committed? ==>
              var was, now := s.patrons[p], Next(s, st).patrons[p];
              && now.email == was.email && now.version == was.version + 1
              && match st.policy
                 case Suspend(reason) => now.suspended && reason.Some? && now.reason == reason && now.tier == was.tier && !was.suspended
                 case Reinstate => !now.suspended && now.reason == None && now.tier == was.tier && was.suspended
                 case UpgradeTier(t) => now.tier == t && now.suspended == was.suspended && now.reason == was.reason
  {
    StepFrame(s, st);
    hide Next;
    if st.PatronChange? && Tx(s, st).Committed? {
      PatronFrame(s, st);
      hide Tx;
      if st.patron == p {
        Patrons.AcceptedExactly(s.patrons[p], st.policy);
        Patrons.AcceptedLeaves(s.patrons[p], st.policy, Patrons.React(s.patrons[p], st.policy).value);
      }
    }
  }

  /** A loan appears only by a reservation's transaction, for its patron, when nothing stands in the way. */
  lemma LoanStep(s: State, st: Step, l: LoanId)
    requires RowsValid(s) && Enabled(s, st) && l !in s.loans && l in Next(s, st).loans
    ensures st.CreateTx? && st.newLoan == l && Next(s, st).loans[l].claim == st.event.claim
    ensures st.event.claim.patron in s.patrons && !s.patrons[st.event.claim.patron].suspended
  {
    StepFrame(s, st);
    assert st.CreateTx?;
    CreationFrame(s, st);
    hide Next;
    hide Tx;
    CreatedFor(s, st.event, st.newLoan);
  }

  lemma CreatedFor(s: State, e: Event, l: LoanId)
    requires e.BookReserved? && CreateLoan(s, e, l).Committed?
    ensures e.claim.patron in s.patrons && !s.patrons[e.claim.patron].suspended
    ensures CreateLoan(s, e, l).state.loans.Keys == s.loans.Keys + {l} && CreateLoan(s, e, l).state.loans[l].claim == e.claim
  {
  }

  // ---- Suspension over whole runs ----

  ghost predicate NotLifted(steps: seq<Step>, p: PatronId, i: nat, j: nat)
    requires i <= j <= |steps|
  {
    forall k | i <= k < j :: steps[k] != PatronChange(p, Patrons.Reinstate)
  }

  lemma {:induction false} StaysSuspended(tr: seq<State>, steps: seq<Step>, i: nat, j: nat, p: PatronId)
    requires Run(tr, steps) && i <= j <= |steps| && p in tr[i].patrons && tr[i].patrons[p].suspended && NotLifted(steps, p, i, j)
    ensures p in tr[j].patrons && tr[j].patrons[p].suspended && tr[j].patrons[p].reason == tr[i].patrons[p].reason
    ensures forall l | l in tr[j].loans && l !in tr[i].loans :: tr[j].loans[l].claim.patron != p
    decreases j
  {
    if i < j {
      StaysSuspended(tr, steps, i, j - 1, p);
      var s, st := tr[j - 1], steps[j - 1];
      assert Steps(s, st, tr[j]);
      RunKeepsInv(tr, steps, j - 1);
      NextEvolves(s, st);
      PatronStep(s, st, p);
      hide Next;
      hide Tx;
      hide Inv;
      forall l | l in tr[j].loans && l !in tr[i].loans ensures tr[j].loans[l].claim.patron != p {
        if l !in s.loans {
          LoanStep(s, st, l);
        }
      }
    }
  }

  /**
   * After an accepted suspension and until it is lifted the patron stays suspended for the given reason, no loan is
   * added for the patron, and a worker that tries to make one is refused, whatever else happens and in whatever order.
   */
  lemma SuspensionHolds(tr: seq<State>, steps: seq<Step>, i: nat, j: nat, p: PatronId, reason: Option<Text>)
    requires Run(tr, steps) && i < j <= |steps| && NotLifted(steps, p, i, j)
    requires steps[i] == PatronChange(p, Patrons.Suspend(reason))
    requires p in tr[i].patrons && !tr[i].patrons[p].suspended && reason.Some?
    ensures p in tr[j].patrons && tr[j].patrons[p].suspended && tr[j].patrons[p].reason == reason
    ensures forall l | l in tr[j].loans && tr[j].loans[l].claim.patron == p :: l in tr[i].loans
    ensures forall e: Event, l: LoanId | e.BookReserved? && e.claim.patron == p && Enabled(tr[j], CreateTx(e, l)) && !HasLoan(tr[j], e.claim.reservation) ::
              CreateLoan(tr[j], e, l) == Raised(PatronNotEligible)
  {
    assert Steps(tr[i], steps[i], tr[i + 1]);
    RunKeepsInv(tr, steps, i);
    PatronStep(tr[i], steps[i], p);
    SuspendingAddsNoLoan(tr[i], steps[i]);
    StaysSuspended(tr, steps, i + 1, j, p);
    RunKeepsInv(tr, steps, j);
    forall e: Event, l: LoanId | e.BookReserved? && e.claim.patron == p && Enabled(tr[j], CreateTx(e, l)) && !HasLoan(tr[j], e.claim.reservation)
      ensures CreateLoan(tr[j], e, l) == Raised(PatronNotEligible)
    {
    }
  }

  lemma SuspendingAddsNoLoan(s: State, st: Step)
    requires RowsValid(s) && Enabled(s, st) && st.PatronChange?
    ensures Next(s, st).loans == s.loans
    ensures st.patron in s.patrons && !s.patrons[st.patron].suspended && st.policy.Suspend? && st.policy.reason.Some? ==>
              Tx(s, st).Committed?
  {
    if st.patron in s.patrons {
      Patrons.AcceptedExactly(s.patrons[st.patron], st.policy);
    }
  }
}
