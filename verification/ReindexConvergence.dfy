/**
 * When the rebuild converges: if no partition changes hands while some consumer may still be using a target list
 * from before the registration, no delete straddles it, and every acknowledged row is served right. When one does
 * change hands in that window, a deleted row can come back for good.
 */
module ReindexConvergence {
  import opened Shared
  import opened Reindex
  import opened ReindexProofs

  /** A row moves to another consumer only when no target list predating the registration can still be in use. */
  ghost predicate Settled(s: State, st: Step) {
    st.Move? && s.phase.Registered? ==> s.phase.since + CACHE_WINDOW <= s.now
  }

  ghost predicate SettledRun(run: seq<State>, sched: seq<Step>)
    requires |run| == |sched| + 1
  {
    forall i | 0 <= i < |sched| :: Settled(run[i], sched[i])
  }

  /** This consumer's next look at the targets will include the registered index. */
  ghost predicate UpToDate(s: State, c: Consumer) {
    c in s.caches && !s.caches[c].mirror ==> s.caches[c].expires <= s.now
  }

  /** A consumer that has put a row into the new index keeps knowing about it. */
  ghost predicate OwnerOk(s: State, id: Id) {
    s.phase.Registered? && (id in s.index || (id in s.inFlight && s.inFlight[id].mirror)) ==>
      id in s.owner && UpToDate(s, s.owner[id])
  }

  /** A delete is handled without the new index only if that index knows nothing of the row. */
  ghost predicate DeleteOk(v: View) {
    !v.phase.Aborted? ==>
      && !v.straddled
      && (v.flight.Some? && !v.flight.value.mirror && v.entry.Some? && v.n < |v.h| && v.h[v.n].Removed? ==>
            Served(v.phase) && (v.flight.value.aliasDone ==> Covers(v, v.n)))
  }

  ghost predicate DeleteInv(s: State, id: Id) {
    DeleteOk(ViewOf(s, id))
  }

  ghost predicate SettledInv(s: State) {
    && Inv(s)
    && (forall id {:trigger OwnerOk(s, id)} :: OwnerOk(s, id))
    && (forall id {:trigger DeleteInv(s, id)} :: DeleteInv(s, id))
  }

  lemma OwnerOfOneRow(s: State, st: Step, id: Id)
    requires OwnerOk(s, id) && Enabled(s, st) && OfOneRow(st) && (st.Begin? ==> CacheOk(s, s.owner[st.id]))
    ensures OwnerOk(Next(s, st), id)
  {
    match st {
      case Begin(_, _) =>
      case WriteAlias(_) =>
      case WriteTarget(_) =>
      case Finish(_) =>
      case Crash(_) =>
      case CommitChange(_, _) =>
    }
  }

  lemma NextOwner(s: State, st: Step, id: Id)
    requires Inv(s) && OwnerOk(s, id) && Enabled(s, st) && Settled(s, st)
    ensures OwnerOk(Next(s, st), id)
  {
    if OfOneRow(st) {
      if st.Begin? {
        assert CacheOk(s, s.owner[st.id]);
      }
      OwnerOfOneRow(s, st, id);
    } else {
      match st {
        case Move(_, c) => assert CacheOk(s, c);
        case SetTarget => assert RowInv(s, id);
        case Tick(_) =>
        case Restart(_) =>
        case ReadBatch(_) | WriteRow | StartScan | CreateIndex | SwapAlias | ClearTarget | Abort =>
      }
    }
  }

  // ---- One row, one step ----

  lemma CommitDelete(v: View, c: Change)
    requires ViewOk(v) && DeleteOk(v)
    ensures DeleteOk(v.(h := v.h + [c]))
  {
  }

  lemma AliasDelete(v: View)
    requires ViewOk(v) && DeleteOk(v) && v.flight.Some? && v.n < |v.h|
    ensures DeleteOk(v.(flight := Some(v.flight.value.(aliasDone := true)),
                        entry := if Served(v.phase) then Accepted(v.entry, EntryOf(v.h[v.n])) else v.entry))
  {
    AcceptCovers(v, v.n);
  }

  lemma FinishDelete(v: View)
    requires ViewOk(v) && DeleteOk(v) && v.n < |v.h| && v.flight.Some? && v.flight.value.aliasDone
    requires v.flight.value.mirror ==> v.flight.value.mirrorDone
    ensures DeleteOk(v.(flight := None, n := v.n + 1,
                        straddled := v.straddled || (v.h[v.n].Removed? && v.entry.Some? && v.entry.value.document.Some?)))
  {
    if v.h[v.n].Removed? && v.entry.Some? && v.entry.value.document.Some? && Covers(v, v.n) {
      DocumentIsLive(v, v.n);
    }
  }

  /** The scan never copies a row whose delete is already being handled without the new index. */
  lemma CopyDelete(v: View, k: nat)
    requires ViewOk(v) && DeleteOk(v) && v.phase.Scanning? && k < |v.h| && v.h[k].Put? && |v.b| <= k + 1
    ensures DeleteOk(v.(entry := Accepted(v.entry, EntryOf(v.h[k]))))
  {
    if v.n < |v.h| && v.h[v.n].Removed? && v.n < k {
      VersionsGrow(v.h, v.n, k);
    }
  }

  lemma TouchedDelete(s: State, st: Step)
    requires Enabled(s, st) && OfOneRow(st)
    requires Inv(s) && RowInv(s, st.id) && OwnerOk(s, st.id) && DeleteInv(s, st.id)
    ensures DeleteInv(Next(s, st), st.id)
  {
    var v := ViewOf(s, st.id);
    NextView(s, st, st.id);
    hide Next;
    match st {
      case CommitChange(_, c) => CommitDelete(v, c);
      case Begin(id, _) => BeginDelete(s, id);
      case WriteAlias(_) => AliasDelete(v);
      case WriteTarget(_) =>
      case Finish(_) =>
        hide ViewOk;
        FinishDelete(v);
      case Crash(_) =>
    }
  }

  lemma ScannedDelete(s: State, id: Id)
    requires Enabled(s, WriteRow) && RowInv(s, id) && DeleteInv(s, id) && RowOk(s, s.phase.pending[0])
    ensures DeleteInv(Next(s, WriteRow), id)
  {
    NextView(s, WriteRow, id);
    hide Next;
    hide ViewOk;
    var row := s.phase.pending[0];
    if id == row.id {
      var k := RowChange(s, row);
      CopyDelete(ViewOf(s, id), k);
    }
  }

  lemma NextDelete(s: State, st: Step, id: Id)
    requires SettledInv(s) && Enabled(s, st)
    ensures DeleteInv(Next(s, st), id)
  {
    NextView(s, st, id);
    assert RowInv(s, id) && OwnerOk(s, id) && DeleteInv(s, id);
    hide Next;
    hide RowInv;
    if OfOneRow(st) {
      if st.id == id {
        TouchedDelete(s, st);
      }
    } else if st.WriteRow? {
      assert RowOk(s, s.phase.pending[0]);
      ScannedDelete(s, id);
    }
  }

  /** Without the new index a delivery begins only if the consumer is not up to date, or the index is being served. */
  lemma BeginDelete(s: State, id: Id)
    requires Inv(s) && OwnerOk(s, id) && id in s.owner && Handled(s, id) < |Get(s.history, id)|
    ensures Looked(s, id) || id !in s.index || Served(s.phase) || s.phase.Aborted?
  {
    assert CacheOk(s, s.owner[id]);
  }

  lemma NextKeepsSettledInv(s: State, st: Step)
    requires SettledInv(s) && Enabled(s, st) && Settled(s, st)
    ensures SettledInv(Next(s, st))
  {
    var t := Next(s, st);
    NextKeepsInv(s, st);
    hide Next;
    hide Inv;
    forall id {:trigger OwnerOk(t, id)} ensures OwnerOk(t, id) {
      assert OwnerOk(s, id);
      NextOwner(s, st, id);
    }
    forall id {:trigger DeleteInv(t, id)} ensures DeleteInv(t, id) {
      NextDelete(s, st, id);
    }
  }

  lemma {:induction false} RunKeepsSettledInv(run: seq<State>, sched: seq<Step>, i: nat)
    requires Steps(run, sched) && Init(run[0]) && SettledRun(run, sched) && i < |run|
    ensures SettledInv(run[i])
  {
    if i == 0 {
      InitInv(run[0]);
    } else {
      RunKeepsSettledInv(run, sched, i - 1);
      assert Taken(run, sched, i - 1);
      NextKeepsSettledInv(run[i - 1], sched[i - 1]);
    }
  }

  /** Convergence: behind the swapped alias every acknowledged row is served at its latest version, or not at all if deleted. */
  lemma RebuildConverges(run: seq<State>, sched: seq<Step>, i: nat, id: Id)
    requires Steps(run, sched) && Init(run[0]) && SettledRun(run, sched) && i < |run|
    requires Served(run[i].phase) && Drained(run[i], id)
    ensures Right(run[i], id)
  {
    RunKeepsSettledInv(run, sched, i);
    assert DeleteInv(run[i], id);
    ServedIsExact(run[i], id);
  }

  /** From the moment the alias points at the new index, no row that predates the scan is missing from it. */
  lemma AliasNeverServesAPartialIndex(run: seq<State>, sched: seq<Step>, i: nat, id: Id)
    requires Steps(run, sched) && Init(run[0]) && i < |run|
    requires Served(run[i].phase) && Live(Get(run[i].base, id)) && Live(Get(run[i].history, id))
    ensures ServedDocument(run[i], id).Some?
    ensures LiveVersion(Get(run[i].base, id)).value <= ServedDocument(run[i], id).value
  {
    RunKeepsInv(run, sched, i);
    ServedIsNeverPartial(run[i], id);
  }

  /** One row, not yet acknowledged, owned by consumer 7; consumer 8 looked the targets up just before the job started. */
  function BeforeTheJob(): State {
    State(0, CACHE_WINDOW, map[1 := [Put(0)]], map[], map[], map[8 := Cached(900, false)], map[1 := 7], map[], Idle, map[], {})
  }

  /** Consumer 7 knows the new index and mirrors the row into it; then the row is deleted and moves to consumer 8. */
  function HandOver(): seq<Step> {
    [CreateIndex, SetTarget, Begin(1, 0), WriteAlias(1)] + [WriteTarget(1), Finish(1), CommitChange(1, Removed(0)), Move(1, 8)]
  }

  /** Consumer 8 still uses the old target list for the delete; the scan then finds no row, and the alias is swapped. */
  function LateDelete(): seq<Step> {
    [Begin(1, 0), WriteAlias(1), Finish(1), Tick(CACHE_WINDOW)] + [StartScan, ReadBatch([]), SwapAlias]
  }

  ghost predicate Reaches(s: State, sched: seq<Step>, t: State)
    decreases |sched|
  {
    if sched == [] then s == t else Enabled(s, sched[0]) && Reaches(Next(s, sched[0]), sched[1..], t)
  }

  lemma {:induction false} ReachesTogether(s: State, first: seq<Step>, t: State, second: seq<Step>, u: State)
    requires Reaches(s, first, t) && Reaches(t, second, u)
    ensures Reaches(s, first + second, u)
    decreases |first|
  {
    if first == [] {
      assert first + second == second;
    } else {
      ReachesTogether(Next(s, first[0]), first[1..], t, second, u);
      assert (first + second)[1..] == first[1..] + second;
    }
  }

  lemma FourSteps(a: State, b: State, c: State, d: State, e: State, sched: seq<Step>)
    requires |sched| == 4
    requires Enabled(a, sched[0]) && Next(a, sched[0]) == b
    requires Enabled(b, sched[1]) && Next(b, sched[1]) == c
    requires Enabled(c, sched[2]) && Next(c, sched[2]) == d
    requires Enabled(d, sched[3]) && Next(d, sched[3]) == e
    ensures Reaches(a, sched, e)
  {
    hide Next;
    hide Enabled;
    assert Reaches(e, [], e);
    assert sched[3..] == [sched[3]] && sched[3..][1..] == [];
    assert Reaches(d, sched[3..], e);
    assert sched[2..][1..] == sched[3..];
    assert Reaches(c, sched[2..], e);
    assert sched[1..][1..] == sched[2..];
    assert Reaches(b, sched[1..], e);
  }

  /** The row is being handled: the alias written, the new index not yet. */
  function HalfMirrored(): State {
    BeforeTheJob().(phase := Registered(0), inFlight := map[1 := Delivery(true, true, false)],
                    caches := map[8 := Cached(900, false), 7 := Cached(0, true)])
  }

  function HandedOver(): State {
    HalfMirrored().(history := map[1 := [Put(0), Removed(0)]], handled := map[1 := 1], owner := map[1 := 8],
                    index := map[1 := Entry(1, Some(0))], inFlight := map[])
  }

  /** The delete is acknowledged and the grace period is over. */
  function Acknowledged(): State {
    HandedOver().(now := CACHE_WINDOW, handled := map[1 := 2], straddled := {1})
  }

  function Resurrected(): State {
    Acknowledged().(phase := Swapped, base := map[1 := [Put(0), Removed(0)]])
  }

  lemma MirroredPut()
    ensures Reaches(BeforeTheJob(), [CreateIndex, SetTarget, Begin(1, 0), WriteAlias(1)], HalfMirrored())
  {
    var s0 := BeforeTheJob();
    var s1 := s0.(phase := Created);
    var s2 := s1.(phase := Registered(0));
    var s3 := s2.(inFlight := map[1 := Delivery(true, false, false)], caches := map[8 := Cached(900, false), 7 := Cached(0, true)]);
    FourSteps(s0, s1, s2, s3, HalfMirrored(), [CreateIndex, SetTarget, Begin(1, 0), WriteAlias(1)]);
  }

  lemma DeletedAndMoved()
    ensures Reaches(HalfMirrored(), [WriteTarget(1), Finish(1), CommitChange(1, Removed(0)), Move(1, 8)], HandedOver())
  {
    var s0 := HalfMirrored();
    var s1 := s0.(inFlight := map[1 := Delivery(true, true, true)], index := map[1 := Entry(1, Some(0))]);
    var s2 := s1.(inFlight := map[], handled := map[1 := 1]);
    var s3 := s2.(history := map[1 := [Put(0), Removed(0)]]);
    assert Get(s2.history, 1) + [Removed(0)] == [Put(0), Removed(0)];
    FourSteps(s0, s1, s2, s3, HandedOver(), [WriteTarget(1), Finish(1), CommitChange(1, Removed(0)), Move(1, 8)]);
  }

  lemma StaleDelete()
    ensures Reaches(HandedOver(), [Begin(1, 0), WriteAlias(1), Finish(1), Tick(CACHE_WINDOW)], Acknowledged())
  {
    var s0 := HandedOver();
    var s1 := s0.(inFlight := map[1 := Delivery(false, false, false)]);
    var s2 := s0.(inFlight := map[1 := Delivery(false, true, false)]);
    var s3 := s0.(handled := map[1 := 2], straddled := {1});
    FourSteps(s0, s1, s2, s3, Acknowledged(), [Begin(1, 0), WriteAlias(1), Finish(1), Tick(CACHE_WINDOW)]);
  }

  lemma EmptyScan()
    ensures Reaches(Acknowledged(), [StartScan, ReadBatch([]), SwapAlias], Resurrected())
  {
    var s1 := Resurrected().(phase := Scanning(None, []));
    var s2 := Resurrected().(phase := Scanned);
    assert IsBatch(s1, None, []);
    assert Next(Acknowledged(), StartScan) == s1 && Next(s1, ReadBatch([])) == s2 && Next(s2, SwapAlias) == Resurrected();
    assert Reaches(s2, [SwapAlias], Resurrected());
    assert [ReadBatch([]), SwapAlias][1..] == [SwapAlias];
    assert Reaches(s1, [ReadBatch([]), SwapAlias], Resurrected());
    assert [StartScan, ReadBatch([]), SwapAlias][1..] == [ReadBatch([]), SwapAlias];
  }

  lemma ResurrectedIsWrong()
    ensures Served(Resurrected().phase) && (forall id :: Drained(Resurrected(), id)) && !Right(Resurrected(), 1)
  {
    var t := Resurrected();
    assert ServedDocument(t, 1) == Some(0) && !Live(Get(t.history, 1));
  }

  lemma BeforeTheJobIsInitial()
    ensures Init(BeforeTheJob())
  {
    assert Get(BeforeTheJob().history, 1) == [Put(0)];
  }

  /** A run of the unrestricted system after which the deleted row is back behind the alias, with nothing left to handle. */
  lemma HandOverCanResurrect()
    ensures Init(BeforeTheJob()) && Reaches(BeforeTheJob(), HandOver() + LateDelete(), Resurrected())
    ensures Served(Resurrected().phase) && (forall id :: Drained(Resurrected(), id)) && !Right(Resurrected(), 1)
  {
    hide Next;
    hide Enabled;
    hide Reaches;
    hide Init;
    hide Right;
    hide Drained;
    hide HandedOver;
    hide Resurrected;
    hide BeforeTheJob;
    hide HalfMirrored;
    hide Acknowledged;
    BeforeTheJobIsInitial();
    ResurrectedIsWrong();
    MirroredPut();
    DeletedAndMoved();
    StaleDelete();
    EmptyScan();
    ReachesTogether(BeforeTheJob(), [CreateIndex, SetTarget, Begin(1, 0), WriteAlias(1)], HalfMirrored(),
                    [WriteTarget(1), Finish(1), CommitChange(1, Removed(0)), Move(1, 8)], HandedOver());
    ReachesTogether(HandedOver(), [Begin(1, 0), WriteAlias(1), Finish(1), Tick(CACHE_WINDOW)], Acknowledged(),
                    [StartScan, ReadBatch([]), SwapAlias], Resurrected());
    ReachesTogether(BeforeTheJob(), HandOver(), HandedOver(), LateDelete(), Resurrected());
  }
}
