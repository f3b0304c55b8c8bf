/** A suspension against interleaved statements: once it commits, no transaction already under way can slip a loan past it. */
module TransactionAdmission {
  import opened Shared
  import Patrons
  import opened Saga
  import opened SagaSteps
  import opened SagaRuns
  import opened SagaAdmission
  import opened Transactions
  import opened TransactionProofs

  /**
   * Borrowing admission at statement level: a loan is only ever committed for a patron who at that very moment is known
   * under the reservation's address, not suspended, and under the limit of the current tier, on a book that is not
   * lent; and afterwards every patron is within the limit.
   */
  lemma AdmissionIsFenced(tr: seq<DbState>, steps: seq<DbStep>, i: nat)
    requires DbRun(tr, steps) && i < |steps| && steps[i].Commit? && steps[i].txn in tr[i].txns
    requires tr[i].txns[steps[i].txn].OpenTxn?
    ensures var db, st := tr[i].db, tr[i].txns[steps[i].txn].st;
            && st.CreateTx? && st.event.BookReserved? && st.event.claim.patron in db.patrons
            && var p, profile := st.event.claim.patron, db.patrons[st.event.claim.patron];
               && profile.email == st.event.email && !profile.suspended
               && |LoansOf(db, p)| < Limit(profile.tier) && !Lent(db, st.event.claim.book)
    ensures EachWithinLimit(tr[i + 1].db)
  {
    DbRunRefinesSaga(tr, steps, i);
    DbRunRefinesSaga(tr, steps, i + 1);
    assert DbEnabled(tr[i], steps[i]);
    AdmittedCommit(tr[i], steps[i].txn);
    var db, st := tr[i].db, tr[i].txns[steps[i].txn].st;
    assert OutstandingOf(db.loans, st.event.claim.patron) == LoansOf(db, st.event.claim.patron);
    LimitsInvariant(tr[i + 1].db);
  }

  /** The commit of a policy command on this patron. */
  predicate CommitsPolicy(c: DbState, cs: DbStep, p: PatronId) {
    cs.Commit? && cs.txn in c.txns && c.txns[cs.txn].st.PatronChange? && c.txns[cs.txn].st.patron == p
  }

  /** The statement neither moves the patron, unless it commits a policy command, nor adds a loan while the patron is suspended. */
  ghost predicate Respects(c: DbState, cs: DbStep, n: DbState, p: PatronId)
    requires p in c.db.patrons
  {
    && p in n.db.patrons
    && (n.db.patrons[p] != c.db.patrons[p] ==> CommitsPolicy(c, cs, p))
    && (c.db.patrons[p].suspended ==> forall l | l in n.db.loans && l !in c.db.loans :: n.db.loans[l].claim.patron != p)
  }

  lemma SagaStepRespects(s: State, st: Step, p: PatronId)
    requires RowsValid(s) && Enabled(s, st) && p in s.patrons
    ensures p in Next(s, st).patrons && (Next(s, st).patrons[p] != s.patrons[p] ==> st.PatronChange? && st.patron == p)
    ensures s.patrons[p].suspended ==>
              forall l | l in Next(s, st).loans && l !in s.loans :: Next(s, st).loans[l].claim.patron != p
  {
    PatronStep(s, st, p);
    hide Next;
    forall l | l in Next(s, st).loans && l !in s.loans && s.patrons[p].suspended ensures Next(s, st).loans[l].claim.patron != p {
      LoanStep(s, st, l);
    }
  }

  lemma StatementRespects(c: DbState, cs: DbStep, p: PatronId)
    requires DbInv(c) && DbEnabled(c, cs) && p in c.db.patrons
    ensures Respects(c, cs, DbNext(c, cs), p)
  {
    match cs {
      case Commit(t) => CommitRespects(c, t, p);
      case ReadOnly(st) => ReadOnlyRespects(c, cs, p);
      case LookAgain(_) => LookAgainFrame(c, cs);
      case _ => OtherFrame(c, cs);
    }
    hide DbInv;
    hide DbNext;
    hide DbEnabled;
  }

  lemma ReadOnlyRespects(c: DbState, cs: DbStep, p: PatronId)
    requires DbEnabled(c, cs) && cs.ReadOnly? && p in c.db.patrons
    ensures Respects(c, cs, DbNext(c, cs), p)
  {
    SagaStepRespects(c.db, cs.st, p);
    hide Next;
    hide Tx;
  }

  lemma LookAgainFrame(c: DbState, cs: DbStep)
    requires DbEnabled(c, cs) && cs.LookAgain?
    ensures DbNext(c, cs).db.patrons == c.db.patrons && DbNext(c, cs).db.loans == c.db.loans
  {
    var st := c.txns[cs.txn].st;
    AfterFrame(c.db, st, CreateLoan(c.db, st.event, st.newLoan));
    hide After;
  }

  lemma OtherFrame(c: DbState, cs: DbStep)
    requires DbEnabled(c, cs) && !cs.Commit? && !cs.ReadOnly? && !cs.LookAgain?
    ensures DbNext(c, cs).db.patrons == c.db.patrons && DbNext(c, cs).db.loans == c.db.loans
  {
    hide Tx;
    hide AtLimit;
    hide Eligible;
  }

  lemma CommitRespects(c: DbState, t: TxnId, p: PatronId)
    requires DbInv(c) && DbEnabled(c, Commit(t)) && p in c.db.patrons
    ensures Respects(c, Commit(t), DbNext(c, Commit(t)), p)
  {
    InvImpliesRowsValid(c.db);
    CommitIsAtomic(c, t);
    hide CanCommit;
    hide CommitResult;
    hide DbInv;
    SagaStepRespects(c.db, c.txns[t].st, p);
  }

  ghost predicate NoPolicyCommits(tr: seq<DbState>, steps: seq<DbStep>, p: PatronId, i: nat, j: nat)
    requires |tr| == |steps| + 1 && i <= j <= |steps|
  {
    forall k | i <= k < j :: !CommitsPolicy(tr[k], steps[k], p)
  }

  lemma {:induction false} StaysFenced(tr: seq<DbState>, steps: seq<DbStep>, i: nat, j: nat, p: PatronId)
    requires DbRun(tr, steps) && i <= j <= |steps| && NoPolicyCommits(tr, steps, p, i, j)
    requires p in tr[i].db.patrons && tr[i].db.patrons[p].suspended
    ensures p in tr[j].db.patrons && tr[j].db.patrons[p] == tr[i].db.patrons[p]
    ensures forall l | l in tr[j].db.loans && l !in tr[i].db.loans :: tr[j].db.loans[l].claim.patron != p
    decreases j
  {
    hide DbInv;
    hide DbNext;
    hide DbEnabled;
    if i < j {
      StaysFenced(tr, steps, i, j - 1, p);
      DbRunRefinesSaga(tr, steps, j - 1);
      assert DbEnabled(tr[j - 1], steps[j - 1]) && tr[j] == DbNext(tr[j - 1], steps[j - 1]);
      StatementRespects(tr[j - 1], steps[j - 1], p);
      assert !CommitsPolicy(tr[j - 1], steps[j - 1], p);
      LoansStay(tr, steps, j - 1);
    }
  }

  /** Loans keep their claims from one statement to the next. */
  lemma LoansStay(tr: seq<DbState>, steps: seq<DbStep>, i: nat)
    requires DbRun(tr, steps) && i < |steps|
    ensures forall l | l in tr[i].db.loans :: l in tr[i + 1].db.loans && tr[i + 1].db.loans[l].claim == tr[i].db.loans[l].claim
  {
    hide DbNext;
    hide DbEnabled;
    DbRunRefinesSaga(tr, steps, i);
    assert DbEnabled(tr[i], steps[i]) && tr[i + 1] == DbNext(tr[i], steps[i]);
    DbStepRefines(tr[i], steps[i]);
    if tr[i].db != tr[i + 1].db {
      var st :| Steps(tr[i].db, st, tr[i + 1].db);
      SagaEvolution.NextEvolves(tr[i].db, st);
    }
  }

  /**
   * At statement level: once a suspension has committed and until another policy command on the patron does, the row
   * stays as the suspension left it and no loan is inserted for the patron, by whatever transaction was already loaded,
   * counted or admitted when the suspension came.
   */
  lemma CommittedSuspensionHolds(tr: seq<DbState>, steps: seq<DbStep>, i: nat, j: nat, p: PatronId, reason: Option<Text>)
    requires DbRun(tr, steps) && i < j <= |steps| && NoPolicyCommits(tr, steps, p, i + 1, j)
    requires CommitsPolicy(tr[i], steps[i], p) && tr[i].txns[steps[i].txn].st == PatronChange(p, Patrons.Suspend(reason))
    requires p in tr[i].db.patrons && !tr[i].db.patrons[p].suspended && reason.Some?
    ensures p in tr[j].db.patrons && tr[j].db.patrons[p].suspended && tr[j].db.patrons[p].reason == reason
    ensures forall l | l in tr[j].db.loans && tr[j].db.loans[l].claim.patron == p :: l in tr[i].db.loans
  {
    hide DbInv;
    hide DbNext;
    hide DbEnabled;
    DbRunRefinesSaga(tr, steps, i);
    assert DbEnabled(tr[i], steps[i]) && tr[i + 1] == DbNext(tr[i], steps[i]);
    SuspensionCommits(tr[i], steps[i].txn, p, reason);
    StaysFenced(tr, steps, i + 1, j, p);
  }

  lemma SuspensionCommits(c: DbState, t: TxnId, p: PatronId, reason: Option<Text>)
    requires DbInv(c) && DbEnabled(c, Commit(t)) && c.txns[t].st == PatronChange(p, Patrons.Suspend(reason))
    requires p in c.db.patrons && !c.db.patrons[p].suspended && reason.Some?
    ensures var n := DbNext(c, Commit(t)).db;
            p in n.patrons && n.patrons[p].suspended && n.patrons[p].reason == reason && n.loans == c.db.loans
  {
    InvImpliesRowsValid(c.db);
    CommitIsAtomic(c, t);
    hide CanCommit;
    hide CommitResult;
    hide DbInv;
    SuspendingAddsNoLoan(c.db, c.txns[t].st);
    PatronStep(c.db, c.txns[t].st, p);
  }
}
