/** Which schedules straddle a delete: the cause behind the one way a rebuilt index can be wrong. */
module ReindexStraddle {
  import opened Shared
  import opened Reindex
  import opened ReindexProofs

  /** A consumer's write of the row's current change reaches the new index at step k. */
  predicate Reaches(s: State, st: Step, id: Id) {
    st == WriteTarget(id) || (st == WriteAlias(id) && Served(s.phase))
  }

  predicate HandlesDelete(s: State, id: Id) {
    Handled(s, id) < |Get(s.history, id)| && Current(s, id).Removed?
  }

  ghost predicate DeleteReached(run: seq<State>, sched: seq<Step>, k: nat, id: Id)
    requires Steps(run, sched) && k < |sched|
  {
    Reaches(run[k], sched[k], id) && HandlesDelete(run[k], id)
  }

  ghost predicate NoDeleteReached(run: seq<State>, sched: seq<Step>, i: nat, id: Id)
    requires Steps(run, sched) && i <= |sched|
  {
    forall k | 0 <= k < i :: !DeleteReached(run, sched, k, id)
  }

  ghost predicate Mirrored(sched: seq<Step>, i: nat, id: Id)
    requires i <= |sched|
  {
    exists a | 0 <= a < i :: sched[a] == WriteTarget(id)
  }

  /** The delete is acknowledged at step f, after the row was mirrored into the new index, and no write of it reached that. */
  ghost predicate StraddlesAt(run: seq<State>, sched: seq<Step>, f: nat, id: Id)
    requires Steps(run, sched) && f < |sched|
  {
    sched[f] == Finish(id) && HandlesDelete(run[f], id) && Mirrored(sched, f, id) && NoDeleteReached(run, sched, f, id)
  }

  /** The row's delete straddled the registration of the new index. */
  ghost predicate Straddles(run: seq<State>, sched: seq<Step>, i: nat, id: Id)
    requires Steps(run, sched) && i <= |sched|
  {
    exists f | 0 <= f < i :: StraddlesAt(run, sched, f, id)
  }

  // ---- What the index holds of a row, by which writes reached it ----

  /** Copied only by the scan, or only through the swapped alias: then a delete cannot be missed. */
  ghost predicate NotMirrored(v: View) {
    v.entry.Some? ==>
      && ScanBegan(v.phase)
      && (v.b == [] || Live(v.b) ||
          (Served(v.phase) && (v.flight.Some? && v.flight.value.aliasDone ==> Covers(v, v.n))))
  }

  lemma DeleteIsLast(h: seq<Change>, k: nat)
    requires History(h) && k < |h| && h[k].Removed?
    ensures k == |h| - 1
  {
    if k + 1 < |h| {
      VersionsGrow(h, k, k + 1);
    }
  }

  /** A row the scan copies was absent or alive when scanning began. */
  lemma CopiedWasAlive(v: View, k: nat)
    requires ViewOk(v) && ScanBegan(v.phase) && k < |v.h| && v.h[k].Put? && |v.b| <= k + 1
    ensures v.b == [] || Live(v.b)
  {
    if v.b != [] && !Live(v.b) {
      DeleteIsLast(v.h, |v.b| - 1);
    }
  }

  lemma AliasNotMirrored(v: View)
    requires ViewOk(v) && NotMirrored(v) && v.flight.Some? && v.n < |v.h|
    ensures NotMirrored(v.(flight := Some(v.flight.value.(aliasDone := true)),
                           entry := if Served(v.phase) then Accepted(v.entry, EntryOf(v.h[v.n])) else v.entry))
  {
    AcceptCovers(v, v.n);
  }

  lemma NextNotMirrored(s: State, st: Step, id: Id)
    requires Inv(s) && Enabled(s, st) && st != WriteTarget(id) && !Next(s, st).phase.Aborted?
    requires NotMirrored(ViewOf(s, id))
    ensures NotMirrored(ViewOf(Next(s, st), id))
  {
    var v := ViewOf(s, id);
    NextView(s, st, id);
    assert RowInv(s, id) && ViewOf(Next(s, st), id).phase == Next(s, st).phase;
    hide Next;
    hide ViewOk;
    if OfOneRow(st) {
      if st.id == id {
        TouchedNotMirrored(s, st);
      }
    } else if st.WriteRow? {
      assert RowOk(s, s.phase.pending[0]);
      if s.phase.pending[0].id == id {
        var k := RowChange(s, s.phase.pending[0]);
        CopiedWasAlive(v, k);
      }
    }
  }

  lemma TouchedNotMirrored(s: State, st: Step)
    requires Inv(s) && Enabled(s, st) && OfOneRow(st) && !st.WriteTarget?
    requires NotMirrored(ViewOf(s, st.id))
    ensures NotMirrored(ViewOf(Next(s, st), st.id))
  {
    NextView(s, st, st.id);
    assert RowInv(s, st.id);
    hide Next;
    match st {
      case WriteAlias(id) => AliasNotMirrored(ViewOf(s, id));
      case CommitChange(_, _) =>
      case Begin(_, _) =>
      case Finish(_) =>
      case Crash(_) =>
    }
  }

  lemma {:induction false} RunNotMirrored(run: seq<State>, sched: seq<Step>, i: nat, id: Id)
    requires Steps(run, sched) && Init(run[0]) && i <= |sched| && !Mirrored(sched, i, id) && !run[i].phase.Aborted?
    ensures NotMirrored(ViewOf(run[i], id))
  {
    if i > 0 {
      assert Taken(run, sched, i - 1);
      StaysAborted(run[i - 1], sched[i - 1]);
      RunNotMirrored(run, sched, i - 1, id);
      RunKeepsInv(run, sched, i - 1);
      NextNotMirrored(run[i - 1], sched[i - 1], id);
    }
  }

  lemma StaysAborted(s: State, st: Step)
    requires Enabled(s, st)
    ensures s.phase.Aborted? ==> Next(s, st).phase.Aborted?
    ensures s.straddled <= Next(s, st).straddled
  {
    NextView(s, st, 0);
    match st {
      case Finish(_) =>
      case _ => SameStraddled(s, st);
    }
  }

  lemma SameStraddled(s: State, st: Step)
    requires Enabled(s, st) && !st.Finish?
    ensures Next(s, st).straddled == s.straddled
  {
    forall id ensures id in Next(s, st).straddled <==> id in s.straddled {
      NextView(s, st, id);
    }
    hide Next;
    hide Enabled;
  }

  /** Acknowledging a delete that was never mirrored over leaves no document behind. */
  lemma FinishNotMirrored(v: View)
    requires ViewOk(v) && NotMirrored(v) && v.n < |v.h| && v.h[v.n].Removed? && v.flight.Some? && v.flight.value.aliasDone
    requires v.flight.value.mirror ==> v.flight.value.mirrorDone
    ensures v.entry.Some? ==> v.entry.value.document.None?
  {
    DeleteIsLast(v.h, v.n);
    if v.entry.Some? && v.entry.value.document.Some? {
      assert |v.b| <= v.n || (Served(v.phase) && Covers(v, v.n));
      DocumentIsLive(v, v.n);
    }
  }

  /** If no write of the delete reached the index, what it holds of the row is a document. */
  ghost predicate HoldsDocument(v: View) {
    v.entry.Some? ==> v.entry.value.document.Some?
  }

  lemma NextHoldsDocument(s: State, st: Step, id: Id)
    requires Inv(s) && Enabled(s, st) && !(Reaches(s, st, id) && HandlesDelete(s, id)) && HoldsDocument(ViewOf(s, id))
    ensures HoldsDocument(ViewOf(Next(s, st), id))
  {
    NextView(s, st, id);
    hide Next;
  }

  lemma {:induction false} RunHoldsDocument(run: seq<State>, sched: seq<Step>, i: nat, id: Id)
    requires Steps(run, sched) && Init(run[0]) && i <= |sched| && NoDeleteReached(run, sched, i, id)
    ensures HoldsDocument(ViewOf(run[i], id))
  {
    if i > 0 {
      assert Taken(run, sched, i - 1);
      assert !DeleteReached(run, sched, i - 1, id);
      RunHoldsDocument(run, sched, i - 1, id);
      RunKeepsInv(run, sched, i - 1);
      NextHoldsDocument(run[i - 1], sched[i - 1], id);
    }
  }

  lemma NextHoldsEntry(s: State, st: Step, id: Id)
    requires Enabled(s, st) && (id in s.index || st == WriteTarget(id))
    ensures id in Next(s, st).index
  {
    NextView(s, st, id);
    hide Next;
  }

  lemma {:induction false} RunHoldsEntry(run: seq<State>, sched: seq<Step>, i: nat, id: Id)
    requires Steps(run, sched) && i <= |sched| && Mirrored(sched, i, id)
    ensures id in run[i].index
  {
    assert Taken(run, sched, i - 1);
    if sched[i - 1] != WriteTarget(id) {
      RunHoldsEntry(run, sched, i - 1, id);
    }
    NextHoldsEntry(run[i - 1], sched[i - 1], id);
  }

  /** The delete is the row's last change and the index holds it. */
  ghost predicate DeleteHeld(v: View) {
    v.h != [] && !Live(v.h) && Covers(v, |v.h| - 1)
  }

  lemma DeleteJustHeld(s: State, st: Step, id: Id)
    requires Inv(s) && Enabled(s, st) && Reaches(s, st, id) && HandlesDelete(s, id)
    ensures DeleteHeld(ViewOf(Next(s, st), id))
  {
    var v := ViewOf(s, id);
    NextView(s, st, id);
    assert RowInv(s, id);
    hide Next;
    hide StreamOk;
    hide ScanOk;
    hide StraddleOk;
    DeleteIsLast(v.h, v.n);
    AcceptCovers(v, v.n);
  }

  /** Later writes and changes leave it there. */
  lemma HeldStays(v: View, w: View)
    requires DeleteHeld(v) && IdOk(v) && w.h == v.h
    requires w.entry == v.entry || exists k: nat | k < |v.h| :: w.entry == Accepted(v.entry, EntryOf(v.h[k]))
    ensures DeleteHeld(w)
  {
  }

  lemma NextDeleteHeld(s: State, st: Step, id: Id)
    requires Inv(s) && Enabled(s, st) && DeleteHeld(ViewOf(s, id))
    ensures DeleteHeld(ViewOf(Next(s, st), id))
  {
    var v, w := ViewOf(s, id), ViewOf(Next(s, st), id);
    NextView(s, st, id);
    assert RowInv(s, id);
    hide Next;
    hide StreamOk;
    hide ScanOk;
    hide StraddleOk;
    hide DeleteHeld;
    assert st.CommitChange? && st.id == id ==> Live(v.h) || v.h == [] by {
      assert Get(s.history, id) == v.h;
    }
    if st.CommitChange? && st.id == id {
      HeldIsDeleted(v);
    } else if st.WriteRow? && s.phase.pending[0].id == id {
      assert RowOk(s, s.phase.pending[0]);
      var k := RowChange(s, s.phase.pending[0]);
      assert w.entry == Accepted(v.entry, EntryOf(v.h[k]));
      HeldStays(v, w);
    } else {
      HeldStays(v, w);
    }
  }

  lemma HeldIsDeleted(v: View)
    requires DeleteHeld(v)
    ensures v.h != [] && !Live(v.h)
  {
  }

  lemma {:induction false} RunDeleteHeld(run: seq<State>, sched: seq<Step>, i: nat, id: Id)
    requires Steps(run, sched) && Init(run[0]) && i <= |sched| && !NoDeleteReached(run, sched, i, id)
    ensures DeleteHeld(ViewOf(run[i], id))
  {
    assert Taken(run, sched, i - 1);
    RunKeepsInv(run, sched, i - 1);
    hide Inv;
    hide Next;
    if DeleteReached(run, sched, i - 1, id) {
      DeleteJustHeld(run[i - 1], sched[i - 1], id);
    } else {
      var k :| 0 <= k < i && DeleteReached(run, sched, k, id);
      assert k < i - 1;
      RunDeleteHeld(run, sched, i - 1, id);
      NextDeleteHeld(run[i - 1], sched[i - 1], id);
    }
  }

  // ---- The flag and the schedule say the same ----

  /** The step that flags a row acknowledges its delete over a document. */
  lemma Flagging(s: State, st: Step, id: Id)
    requires Inv(s) && Enabled(s, st) && id in Next(s, st).straddled && id !in s.straddled
    ensures st == Finish(id) && HandlesDelete(s, id) && ServedDocument(s, id).Some?
  {
    NextView(s, st, id);
    hide Next;
  }

  lemma FlaggedNow(run: seq<State>, sched: seq<Step>, f: nat, id: Id)
    requires Steps(run, sched) && Init(run[0]) && f < |sched| && !run[f].phase.Aborted?
    requires id in run[f + 1].straddled && id !in run[f].straddled
    ensures StraddlesAt(run, sched, f, id)
  {
    var v := ViewOf(run[f], id);
    assert Taken(run, sched, f);
    RunKeepsInv(run, sched, f);
    Flagging(run[f], sched[f], id);
    assert RowInv(run[f], id);
    hide Next;
    hide Inv;
    if !Mirrored(sched, f, id) {
      RunNotMirrored(run, sched, f, id);
      FinishNotMirrored(v);
    }
    if !NoDeleteReached(run, sched, f, id) {
      RunDeleteHeld(run, sched, f, id);
      HeldIsNoDocument(v);
    }
  }

  lemma HeldIsNoDocument(v: View)
    requires IdOk(v) && DeleteHeld(v)
    ensures v.entry.Some? && v.entry.value.document.None?
  {
    CoveredIsLatest(v);
  }

  lemma FlaggedThen(run: seq<State>, sched: seq<Step>, f: nat, id: Id)
    requires Steps(run, sched) && Init(run[0]) && f < |sched| && StraddlesAt(run, sched, f, id)
    ensures id in run[f + 1].straddled && id in run[f].inFlight && !run[f].inFlight[id].mirror
  {
    assert Taken(run, sched, f);
    RunHoldsEntry(run, sched, f, id);
    RunHoldsDocument(run, sched, f, id);
    NextView(run[f], sched[f], id);
    RunKeepsInv(run, sched, f);
    assert RowInv(run[f], id);
    if run[f].inFlight[id].mirror {
      DocumentIsLive(ViewOf(run[f], id), Handled(run[f], id));
    }
  }

  lemma {:induction false} FlagsStay(run: seq<State>, sched: seq<Step>, i: nat, j: nat)
    requires Steps(run, sched) && i <= j <= |sched|
    ensures run[i].straddled <= run[j].straddled && (run[i].phase.Aborted? ==> run[j].phase.Aborted?)
    decreases j
  {
    if i < j {
      FlagsStay(run, sched, i, j - 1);
      assert Taken(run, sched, j - 1);
      StaysAborted(run[j - 1], sched[j - 1]);
    }
  }

  lemma {:induction false} FlagIsSchedule(run: seq<State>, sched: seq<Step>, i: nat, id: Id)
    requires Steps(run, sched) && Init(run[0]) && i <= |sched| && !run[i].phase.Aborted?
    ensures id in run[i].straddled <==> Straddles(run, sched, i, id)
  {
    if Straddles(run, sched, i, id) {
      var f :| 0 <= f < i && StraddlesAt(run, sched, f, id);
      FlaggedThen(run, sched, f, id);
      FlagsStay(run, sched, f + 1, i);
    } else if i > 0 && id in run[i].straddled {
      FlagsStay(run, sched, i - 1, i);
      if id in run[i - 1].straddled {
        FlagIsSchedule(run, sched, i - 1, id);
      } else {
        FlaggedNow(run, sched, i - 1, id);
      }
    }
  }

  /**
   * Behind the swapped alias an acknowledged row is right if and only if its delete did not straddle the registration:
   * it was not the case that the row had been mirrored into the new index and yet no write of its delete reached it
   * before the delete was acknowledged.
   */
  lemma RebuildIsExact(run: seq<State>, sched: seq<Step>, i: nat, id: Id)
    requires Steps(run, sched) && Init(run[0]) && i <= |sched|
    requires Served(run[i].phase) && Drained(run[i], id)
    ensures Right(run[i], id) <==> !Straddles(run, sched, i, id)
  {
    RunKeepsInv(run, sched, i);
    ServedIsExact(run[i], id);
    FlagIsSchedule(run, sched, i, id);
  }

  /** Such a delete was handled with a target list from before the registration. */
  lemma StraddlingIsUnmirrored(run: seq<State>, sched: seq<Step>, f: nat, id: Id)
    requires Steps(run, sched) && Init(run[0]) && f < |sched| && StraddlesAt(run, sched, f, id)
    ensures id in run[f].inFlight && !run[f].inFlight[id].mirror && run[f].inFlight[id].aliasDone
    ensures forall k | 0 <= k < f && sched[k] == WriteAlias(id) && HandlesDelete(run[k], id) :: !Served(run[k].phase)
  {
    assert Taken(run, sched, f);
    FlaggedThen(run, sched, f, id);
    forall k | 0 <= k < f && sched[k] == WriteAlias(id) && HandlesDelete(run[k], id) ensures !Served(run[k].phase) {
      assert !DeleteReached(run, sched, k, id);
    }
  }
}
