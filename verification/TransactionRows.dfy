/** What the optimistic version column guarantees over whole runs of the finer step system. */
module TransactionRows {
  import opened Shared
  import opened Saga
  import opened SagaSafety
  import opened SagaRuns
  import opened SagaConservation
  import opened SagaReplay
  import opened Transactions
  import opened TransactionProofs

  /** A row keeps its contents, or gets a later version. */
  ghost predicate RowsAdvance(s: State, n: State) {
    && (forall b | b in s.books :: b in n.books && (n.books[b] == s.books[b] || n.books[b].version > s.books[b].version))
    && (forall l | l in s.loans :: l in n.loans && (n.loans[l] == s.loans[l] || n.loans[l].version > s.loans[l].version))
    && (forall p | p in s.patrons :: p in n.patrons && (n.patrons[p] == s.patrons[p] || n.patrons[p].version > s.patrons[p].version))
  }

  lemma RowsAdvanceTogether(a: State, b: State, c: State)
    requires RowsAdvance(a, b) && RowsAdvance(b, c)
    ensures RowsAdvance(a, c)
  {
  }

  lemma StepAdvances(a: State, b: State)
    requires Inv(a) && Refines(a, b)
    ensures RowsAdvance(a, b)
  {
    if a != b {
      var st :| Steps(a, st, b);
      NextAdvances(a, st);
    }
  }

  lemma NextAdvances(s: State, st: Step)
    requires Inv(s) && RowsValid(s) && Enabled(s, st)
    ensures RowsAdvance(s, Next(s, st))
  {
    if Tx(s, st).Committed? {
      TxTame(s, st);
    }
    AfterTame(s, st, Tx(s, st));
    hide After;
    hide Tx;
  }

  lemma {:induction false} RunAdvances(tr: seq<DbState>, steps: seq<DbStep>, i: nat, j: nat)
    requires DbRun(tr, steps) && i <= j <= |steps|
    ensures RowsAdvance(tr[i].db, tr[j].db)
    decreases j
  {
    if i < j {
      RunAdvances(tr, steps, i, j - 1);
      DbRunRefinesSaga(tr, steps, j - 1);
      assert DbEnabled(tr[j - 1], steps[j - 1]) && tr[j] == DbNext(tr[j - 1], steps[j - 1]);
      DbStepRefines(tr[j - 1], steps[j - 1]);
      StepAdvances(tr[j - 1].db, tr[j].db);
      RowsAdvanceTogether(tr[i].db, tr[j - 1].db, tr[j].db);
    }
  }

  /**
   * (id, version) determines the row: whenever in a run the same version of a book, loan or patron is seen, it holds
   * the same contents, and versions never go back.
   */
  lemma VersionDeterminesRow(tr: seq<DbState>, steps: seq<DbStep>, i: nat, j: nat)
    requires DbRun(tr, steps) && i <= j <= |steps|
    ensures forall b | b in tr[i].db.books ::
              && b in tr[j].db.books && tr[i].db.books[b].version <= tr[j].db.books[b].version
              && (tr[i].db.books[b].version == tr[j].db.books[b].version ==> tr[j].db.books[b] == tr[i].db.books[b])
    ensures forall l | l in tr[i].db.loans ::
              && l in tr[j].db.loans && tr[i].db.loans[l].version <= tr[j].db.loans[l].version
              && (tr[i].db.loans[l].version == tr[j].db.loans[l].version ==> tr[j].db.loans[l] == tr[i].db.loans[l])
    ensures forall p | p in tr[i].db.patrons ::
              && p in tr[j].db.patrons && tr[i].db.patrons[p].version <= tr[j].db.patrons[p].version
              && (tr[i].db.patrons[p].version == tr[j].db.patrons[p].version ==> tr[j].db.patrons[p] == tr[i].db.patrons[p])
  {
    RunAdvances(tr, steps, i, j);
  }

  /**
   * No committed transition is lost under any interleaving of loads and commits: a book's version counts its staged
   * events, and a loan's version and its creation do.
   */
  lemma NoTransitionIsLost(tr: seq<DbState>, steps: seq<DbStep>, i: nat)
    requires DbRun(tr, steps) && i <= |steps|
    ensures forall b | b in tr[i].db.books :: Staged(tr[i].db.log, (true, b)) == tr[i].db.books[b].version
    ensures forall l | l in tr[i].db.loans :: Staged(tr[i].db.log, (false, l)) == tr[i].db.loans[l].version + 1
  {
    DbRunRefinesSaga(tr, steps, i);
    var run, sched :| Run(run, sched) && run[|sched|] == tr[i].db;
    RunBalances(run, sched, |sched|);
    forall b | b in tr[i].db.books ensures Staged(tr[i].db.log, (true, b)) == tr[i].db.books[b].version {
      assert BookBalanced(tr[i].db, b);
    }
    forall l | l in tr[i].db.loans ensures Staged(tr[i].db.log, (false, l)) == tr[i].db.loans[l].version + 1 {
      assert LoanBalanced(tr[i].db, l);
    }
  }

  /** Under the same interleavings the outbox alone still gives every book row and every loan row, field for field. */
  lemma OutboxTellsEveryRow(tr: seq<DbState>, steps: seq<DbStep>, i: nat)
    requires DbRun(tr, steps) && i <= |steps|
    ensures forall b | b in tr[i].db.books :: ReplayedBook(tr[i].db.log, b, tr[i].db.books[b].title) == Some(tr[i].db.books[b])
    ensures forall l :: ReplayedLoan(tr[i].db.log, l) == Some(Map(tr[i].db.loans, l))
  {
    DbRunRefinesSaga(tr, steps, i);
    var run, sched :| Run(run, sched) && run[|sched|] == tr[i].db;
    OutboxDeterminesRows(run, sched, |sched|);
  }
}
