/**
 * Draining: with no new client commands or reaper steps, workers finish. A weighted count of pending
 * events falls with every transaction that changes anything, whichever worker runs it, and as long as
 * something is pending the next event of some partition can make progress.
 */
module SagaDraining {
  import opened Shared
  import opened Saga
  import opened SagaSafety
  import opened SagaSteps
  import opened SagaTheorems
  import opened SagaQuiescence

  /** How much work one pending event can still cause; a handled event causes none. */
  function EventWeight(e: Event, rejected: set<Event>, stale: set<Event>, handled: set<Event>): nat {
    if e in handled then 0
    else
      match e
      case BookReserved(_, _, _, _) => if e in rejected then 3 else 4
      case LoanCreated(_, _, _, _, _, _) => if e in stale then 1 else 2
      case BookReleased(_) => 1
      case LoanCompleted(_, _, _, _) => 1
      case _ => 0
  }

  function LogWeight(log: seq<Event>, rejected: set<Event>, stale: set<Event>, handled: set<Event>): nat {
    if log == [] then 0
    else LogWeight(log[..|log| - 1], rejected, stale, handled) + EventWeight(log[|log| - 1], rejected, stale, handled)
  }

  function Weight(s: State): nat {
    LogWeight(s.log, s.rejected, s.stale, s.handled)
  }

  /** Marks only grow, so no event gains weight, and the event at hand loses at least `drop`. */
  lemma {:induction false} WeightDrops(log: seq<Event>, rejected: set<Event>, stale: set<Event>, handled: set<Event>,
                                       rejected': set<Event>, stale': set<Event>, handled': set<Event>, e: Event, drop: nat)
    requires rejected <= rejected' && stale <= stale' && handled <= handled'
    requires EventWeight(e, rejected', stale', handled') + drop <= EventWeight(e, rejected, stale, handled)
    ensures LogWeight(log, rejected', stale', handled') <= LogWeight(log, rejected, stale, handled)
    ensures e in log ==> LogWeight(log, rejected', stale', handled') + drop <= LogWeight(log, rejected, stale, handled)
  {
    if log != [] {
      var init := log[..|log| - 1];
      assert log == init + [log[|log| - 1]];
      WeightDrops(init, rejected, stale, handled, rejected', stale', handled', e, drop);
    }
  }

  lemma AppendWeight(log: seq<Event>, ev: Event, rejected: set<Event>, stale: set<Event>, handled: set<Event>)
    ensures LogWeight(log + [ev], rejected, stale, handled)
         == LogWeight(log, rejected, stale, handled) + EventWeight(ev, rejected, stale, handled)
  {
    assert (log + [ev])[..|log|] == log;
  }

  /** The most work a committed worker transaction can add to the log. */
  lemma CommitAdds(s: State, st: Step)
    requires RowsValid(s) && Enabled(s, st) && st.IsWorker() && Tx(s, st).Committed?
    ensures var n := Tx(s, st).state;
            && n.rejected == s.rejected && n.stale == s.stale && n.handled == s.handled
            && exists ev :: n.log == s.log + [ev]
                 && (ev.IsWorkflow() ==> (st.CreateTx? && ev.LoanCreated?) || (st.CompensateTx? && ev.BookReleased?))
  {
    var n := Tx(s, st).state;
    assert n.log == s.log + [n.log[|s.log|]];
  }

  lemma HandlingOutweighs(log: seq<Event>, ev: Event, e: Event, rejected: set<Event>, stale: set<Event>, handled: set<Event>)
    requires e in log && e !in handled
    requires EventWeight(ev, rejected, stale, handled + {e}) < EventWeight(e, rejected, stale, handled)
    ensures LogWeight(log + [ev], rejected, stale, handled + {e}) < LogWeight(log, rejected, stale, handled)
  {
    AppendWeight(log, ev, rejected, stale, handled + {e});
    WeightDrops(log, rejected, stale, handled, rejected, stale, handled + {e}, e,
                EventWeight(e, rejected, stale, handled));
  }

  lemma CommitDrains(s: State, st: Step)
    requires WorkersOk(s) && RowsValid(s) && Enabled(s, st) && st.IsWorker() && st.event !in s.handled
    requires Tx(s, st).Committed?
    ensures Weight(Next(s, st)) < Weight(s)
  {
    var e, n := st.event, Tx(s, st).state;
    CommitAdds(s, st);
    var ev :| n.log == s.log + [ev] &&
              (ev.IsWorkflow() ==> (st.CreateTx? && ev.LoanCreated?) || (st.CompensateTx? && ev.BookReleased?));
    HandlingOutweighs(s.log, ev, e, s.rejected, s.stale, s.handled);
  }

  lemma MarkDrains(s: State, st: Step, r: TxResult)
    requires st.IsWorker() && st.event in s.log && st.event !in s.handled && !r.Committed?
    requires st.CreateTx? ==> st.event.BookReserved?
    requires st.ConfirmTx? ==> st.event.LoanCreated?
    requires st.event.IsWorkflow()
    ensures After(s, st, r) == s || Weight(After(s, st, r)) < Weight(s)
  {
    var e := st.event;
    if r.NoChange? || Acknowledged(st, r.error) {
      WeightDrops(s.log, s.rejected, s.stale, s.handled, s.rejected, s.stale, s.handled + {e}, e, 1);
    } else if Diverted(st, r.error) {
      if st.CreateTx? && e !in s.rejected {
        WeightDrops(s.log, s.rejected, s.stale, s.handled, s.rejected + {e}, s.stale, s.handled, e, 1);
      } else if st.ConfirmTx? && e !in s.stale {
        WeightDrops(s.log, s.rejected, s.stale, s.handled, s.rejected, s.stale + {e}, s.handled, e, 1);
      } else {
        assert s.rejected + {e} == s.rejected || s.stale + {e} == s.stale;
      }
    }
  }

  /** A worker transaction on a pending event changes nothing at all, or strictly lowers the weight. */
  lemma StepDrains(s: State, st: Step)
    requires Inv(s) && RowsValid(s) && Enabled(s, st) && st.IsWorker() && st.event !in s.handled
    ensures Next(s, st) == s || Weight(Next(s, st)) < Weight(s)
  {
    if Tx(s, st).Committed? {
      CommitDrains(s, st);
    } else {
      MarkDrains(s, st, Tx(s, st));
    }
  }

  // ---- Progress ----

  lemma FirstPending(s: State) returns (i: nat)
    requires !Quiescent(s)
    ensures i < |s.log| && s.log[i].IsWorkflow() && s.log[i] !in s.handled && EarlierHandled(s, i)
  {
    i := 0;
    while s.log[i] in s.handled || !s.log[i].IsWorkflow()
      invariant i < |s.log|
      invariant forall j | 0 <= j < i && s.log[j].IsWorkflow() :: s.log[j] in s.handled
      decreases |s.log| - i
    {
      i := i + 1;
      if i == |s.log| {
        forall e | e in s.log && e.IsWorkflow() ensures e in s.handled {
          var j :| 0 <= j < |s.log| && s.log[j] == e;
        }
        assert false;
      }
    }
  }

  lemma FreshLoan(m: map<LoanId, Event>) returns (l: LoanId)
    ensures l !in m
  {
    var keys := m.Keys;
    l := UpperBound(keys);
  }

  lemma {:induction false} UpperBound(ids: set<nat>) returns (bound: nat)
    ensures forall i | i in ids :: i < bound
  {
    if ids == {} {
      bound := 0;
    } else {
      var k :| k in ids;
      var rest := UpperBound(ids - {k});
      bound := if k < rest then rest else k + 1;
      forall i | i in ids ensures i < bound {
        assert i == k || i in ids - {k};
      }
    }
  }

  /** While anything is pending, some worker transaction allowed by partition order makes progress. */
  lemma Progress(s: State) returns (st: Step)
    requires OrderedInv(s) && !Quiescent(s)
    ensures EnabledInOrder(s, st) && st.IsWorker() && st.event !in s.handled
    ensures RowsValid(s) && Next(s, st) != s
  {
    var i := FirstPending(s);
    var e := s.log[i];
    InvImpliesRowsValid(s);
    assert InOrder(s, e);
    match e {
      case BookReserved(_, _, _, _) =>
        if e in s.rejected {
          st := CompensateTx(e);
        } else {
          var l := FreshLoan(s.created);
          st := CreateTx(e, l);
        }
      case BookReleased(_) => st := CancelReleasedTx(e);
      case LoanCreated(_, _, _, _, _, _) => st := if e in s.stale then CancelStaleTx(e) else ConfirmTx(e);
      case LoanCompleted(_, _, _, _) => st := ReturnTx(e);
    }
    NextKeepsInv(s, st);
    MarksMove(s, st);
  }

  /** An expected outcome leaves a mark that was not there. */
  lemma MarksMove(s: State, st: Step)
    requires RowsValid(s) && Enabled(s, st) && st.IsWorker() && st.event !in s.handled && Expected(s, st)
    requires st.CreateTx? ==> st.event !in s.rejected
    requires st.ConfirmTx? ==> st.event !in s.stale
    ensures Next(s, st) != s
  {
    var n := Next(s, st);
    assert st.event in n.handled || st.event in n.rejected || st.event in n.stale;
    if Tx(s, st).Raised? && Diverted(st, Tx(s, st).error) {
      assert if st.CreateTx? then st.event in n.rejected else st.event in n.stale;
    } else {
      assert st.event in n.handled;
    }
  }

  // ---- Runs of workers only ----

  /** The state after some workers' transactions, each allowed by partition order, on pending events. */
  ghost predicate DrainRun(s: State, steps: seq<Step>, t: State)
    decreases |steps|
  {
    if steps == [] then s == t
    else
      && EnabledInOrder(s, steps[0]) && steps[0].IsWorker() && steps[0].event !in s.handled && RowsValid(s)
      && Next(s, steps[0]) != s
      && DrainRun(Next(s, steps[0]), steps[1..], t)
  }

  /** Every drain run is short; it cannot go on forever. */
  lemma {:induction false} DrainRunsAreShort(s: State, steps: seq<Step>, t: State)
    requires OrderedInv(s) && DrainRun(s, steps, t)
    ensures OrderedInv(t) && |steps| + Weight(t) <= Weight(s)
    decreases |steps|
  {
    if steps != [] {
      NextKeepsOrderedInv(s, steps[0]);
      StepDrains(s, steps[0]);
      DrainRunsAreShort(Next(s, steps[0]), steps[1..], t);
    }
  }

  /** From every ordered state the workers can finish, and then both contexts agree. */
  lemma {:induction false} DrainReachesAgreement(s: State) returns (steps: seq<Step>, t: State)
    requires OrderedInv(s)
    ensures DrainRun(s, steps, t) && |steps| <= Weight(s)
    ensures Quiescent(t) && Agreement(t)
    decreases Weight(s)
  {
    if Quiescent(s) {
      steps, t := [], s;
      QuiescenceImpliesAgreement(s);
    } else {
      var st := Progress(s);
      NextKeepsOrderedInv(s, st);
      StepDrains(s, st);
      var rest, u := DrainReachesAgreement(Next(s, st));
      steps, t := [st] + rest, u;
      assert steps[1..] == rest;
    }
  }
}
