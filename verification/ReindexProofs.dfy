/** The protocol invariant of a rebuild, over every interleaving of the rebuild, the consumers and the table. */
module ReindexProofs {
  import opened Shared
  import opened Reindex

  /** Everything the protocol knows about one row. */
  datatype View = View(
    h: seq<Change>,
    b: seq<Change>,
    n: nat,
    flight: Option<Delivery>,
    entry: Option<Entry>,
    straddled: bool,
    phase: Phase,
    passed: bool)

  function ViewOf(s: State, id: Id): View {
    View(Get(s.history, id), Get(s.base, id), Handled(s, id), Map(s.inFlight, id), Map(s.index, id), id in s.straddled,
         s.phase, Passed(s.phase, id))
  }

  /** The scan has dealt with this id: read it and copied it, or read past it. */
  predicate Passed(p: Phase, id: Id) {
    if p.Scanning? then !After(p.lastId, id) && !Listed(p.pending, id) else true
  }

  predicate ScanBegan(p: Phase) {
    p.Scanning? || p.Scanned? || p.Swapped? || p.Cleared?
  }

  /** The new index holds change `k` of the row, or a later one. */
  predicate Covers(v: View, k: nat) {
    k < |v.h| && v.entry.Some? && v.entry.value.external >= EntryOf(v.h[k]).external
  }

  ghost predicate Known(h: seq<Change>, e: Entry) {
    exists k | 0 <= k < |h| :: EntryOf(h[k]) == e
  }

  ghost predicate IdOk(v: View) {
    && History(v.h)
    && v.n <= |v.h|
    && (v.flight.Some? ==> v.n < |v.h|)
    && (v.entry.Some? ==> Known(v.h, v.entry.value))
    && (v.flight.Some? && v.flight.value.mirrorDone ==> Covers(v, v.n))
    && (v.flight.Some? && v.flight.value.mirror ==> !v.phase.Idle? && !v.phase.Created?)
  }

  /** The consumers' part: everything committed since the scan began is mirrored, or lands behind the swapped alias. */
  ghost predicate StreamOk(v: View) {
    ScanBegan(v.phase) ==>
      && v.b <= v.h
      && (|v.b| < v.n ==> Covers(v, v.n - 1))
      && (v.flight.Some? && |v.b| <= v.n && !v.flight.value.mirror ==>
            Served(v.phase) && (v.flight.value.aliasDone ==> Covers(v, v.n)))
  }

  /** The scan's part: a row that was there when scanning began has been copied, unless it was deleted since. */
  ghost predicate ScanOk(v: View) {
    ScanBegan(v.phase) && v.passed && Live(v.b) ==> !Live(v.h) || Covers(v, |v.b| - 1)
  }

  ghost predicate StraddleOk(v: View) {
    v.straddled <==> v.h != [] && !Live(v.h) && v.n == |v.h| && v.entry.Some? && v.entry.value.document.Some?
  }

  ghost predicate ViewOk(v: View) {
    IdOk(v) && StreamOk(v) && ScanOk(v) && StraddleOk(v)
  }

  ghost predicate RowInv(s: State, id: Id) {
    ViewOk(ViewOf(s, id))
  }

  ghost predicate CacheOk(s: State, c: Consumer) {
    c in s.caches ==>
      && s.caches[c].expires <= s.now + CACHE_WINDOW
      && (s.phase.Idle? || s.phase.Created? ==> !s.caches[c].mirror)
      && (s.phase.Registered? && !s.caches[c].mirror ==> s.caches[c].expires <= s.phase.since + CACHE_WINDOW)
      && (HasTarget(s.phase) && !s.phase.Registered? && !s.caches[c].mirror ==> s.caches[c].expires <= s.now)
  }

  /** A row the scan read stands for a change no older than the row was when scanning began. */
  ghost predicate RowOk(s: State, row: Row) {
    var h := Get(s.history, row.id);
    exists k | 0 <= k < |h| :: h[k] == Put(row.version) && |Get(s.base, row.id)| <= k + 1
  }

  ghost predicate PendingOk(s: State) {
    && s.grace >= CACHE_WINDOW
    && (s.phase.Registered? ==> s.phase.since <= s.now)
    && (s.phase.Idle? || s.phase.Created? ==> s.index == map[])
    && (s.phase.Scanning? ==> forall i | 0 <= i < |s.phase.pending| :: RowOk(s, s.phase.pending[i]))
  }

  ghost predicate Inv(s: State) {
    && PendingOk(s)
    && (forall c {:trigger CacheOk(s, c)} :: CacheOk(s, c))
    && (forall id {:trigger RowInv(s, id)} :: RowInv(s, id))
  }

  // ---- Histories ----

  lemma {:induction false} VersionsGrow(h: seq<Change>, j: nat, k: nat)
    requires History(h) && j < k < |h|
    ensures EntryOf(h[j]).external < EntryOf(h[k]).external && h[j].Put?
    decreases k
  {
    assert Consecutive(h, k);
    if j + 1 < k {
      VersionsGrow(h, j, k - 1);
    }
  }

  lemma HistoryGrows(h: seq<Change>, c: Change)
    requires History(h) && Follows(h, c)
    ensures History(h + [c])
  {
    forall k | 0 <= k < |h| + 1 ensures Consecutive(h + [c], k) {
      assert k < |h| ==> Consecutive(h, k);
    }
  }

  lemma KnownGrows(h: seq<Change>, c: Change, e: Entry)
    requires Known(h, e)
    ensures Known(h + [c], e)
  {
    var k :| 0 <= k < |h| && EntryOf(h[k]) == e;
    assert (h + [c])[k] == h[k];
  }

  /** An entry that covers the last change is the last change. */
  lemma CoveredIsLatest(v: View)
    requires IdOk(v) && v.h != [] && Covers(v, |v.h| - 1)
    ensures v.entry.value == EntryOf(v.h[|v.h| - 1])
  {
    var k :| 0 <= k < |v.h| && EntryOf(v.h[k]) == v.entry.value;
    if k < |v.h| - 1 {
      VersionsGrow(v.h, k, |v.h| - 1);
    }
  }

  /** A document of a deleted row means the delete itself never reached the index. */
  lemma DocumentIsLive(v: View, k: nat)
    requires IdOk(v) && v.entry.Some? && v.entry.value.document.Some? && Covers(v, k)
    ensures v.h[k].Put?
  {
    var j :| 0 <= j < |v.h| && EntryOf(v.h[j]) == v.entry.value;
    if j < k {
      VersionsGrow(v.h, j, k);
    } else if k < j {
      VersionsGrow(v.h, k, j);
    }
  }

  // ---- One row, one step ----

  function Accepted(entry: Option<Entry>, e: Entry): Option<Entry> {
    if entry.Some? && entry.value.external > e.external then entry else Some(e)
  }

  lemma CommitView(v: View, c: Change)
    requires ViewOk(v) && Follows(v.h, c)
    ensures ViewOk(v.(h := v.h + [c]))
  {
    var w := v.(h := v.h + [c]);
    HistoryGrows(v.h, c);
    if v.entry.Some? {
      KnownGrows(v.h, c, v.entry.value);
    }
    assert forall k: nat | Covers(v, k) :: Covers(w, k);
    assert IdOk(w) && StreamOk(w) && ScanOk(w);
  }

  lemma BeginView(v: View, mirror: bool)
    requires ViewOk(v) && v.flight.None? && v.n < |v.h|
    requires mirror ==> !v.phase.Idle? && !v.phase.Created?
    requires ScanBegan(v.phase) && !mirror ==> Served(v.phase)
    ensures ViewOk(v.(flight := Some(Delivery(mirror, false, false))))
  {
  }

  /** An accepted or refused write leaves the index holding that change or a later one, and forgets nothing. */
  lemma AcceptCovers(v: View, k: nat)
    requires k < |v.h| && (v.entry.Some? ==> Known(v.h, v.entry.value))
    ensures var w := v.(entry := Accepted(v.entry, EntryOf(v.h[k])));
            && Covers(w, k) && Known(w.h, w.entry.value) && forall j: nat | Covers(v, j) :: Covers(w, j)
  {
  }

  lemma AliasView(v: View)
    requires ViewOk(v) && v.flight.Some? && v.n < |v.h|
    ensures ViewOk(v.(flight := Some(v.flight.value.(aliasDone := true)),
                      entry := if Served(v.phase) then Accepted(v.entry, EntryOf(v.h[v.n])) else v.entry))
  {
    AcceptCovers(v, v.n);
  }

  lemma TargetView(v: View)
    requires ViewOk(v) && v.flight.Some? && v.n < |v.h|
    ensures ViewOk(v.(flight := Some(v.flight.value.(mirrorDone := true)), entry := Accepted(v.entry, EntryOf(v.h[v.n]))))
  {
    AcceptCovers(v, v.n);
  }

  lemma FinishView(v: View)
    requires ViewOk(v) && v.n < |v.h| && v.flight.Some? && v.flight.value.aliasDone
    requires v.flight.value.mirror ==> v.flight.value.mirrorDone
    ensures ViewOk(v.(flight := None, n := v.n + 1,
                      straddled := v.straddled || (v.h[v.n].Removed? && v.entry.Some? && v.entry.value.document.Some?)))
  {
    if v.n + 1 < |v.h| {
      VersionsGrow(v.h, v.n, v.n + 1);
    }
  }

  lemma CrashView(v: View)
    requires ViewOk(v)
    ensures ViewOk(v.(flight := None))
  {
  }

  /** Creating, registering, swapping, clearing and giving up change nothing but the phase. */
  lemma PhaseView(v: View, p: Phase)
    requires ViewOk(v) && (p.Registered? || p.Swapped? || p.Cleared? || p.Aborted? || (p.Created? && v.phase.Idle?))
    requires ScanBegan(p) ==> ScanBegan(v.phase) && v.passed && (Served(v.phase) ==> Served(p))
    ensures ViewOk(v.(phase := p, passed := true))
  {
  }

  lemma StartScanView(v: View, p: Phase, passed: bool)
    requires ViewOk(v) && p.Scanning? && !passed
    ensures ViewOk(v.(phase := p, b := v.h, passed := passed))
  {
  }

  /** The scan moves on: it passes a row only if that row was not there to read, or has just been copied. */
  lemma ScanView(v: View, p: Phase, passed: bool)
    requires ViewOk(v) && v.phase.Scanning? && (p.Scanning? || p.Scanned?)
    requires passed ==> v.passed || !Live(v.h) || !Live(v.b) || Covers(v, |v.b| - 1)
    ensures ViewOk(v.(phase := p, passed := passed))
  {
  }

  /** The bulk write of one scanned row. */
  lemma CopyView(v: View, k: nat)
    requires ViewOk(v) && v.phase.Scanning? && k < |v.h| && v.h[k].Put? && |v.b| <= k + 1
    ensures var w := v.(entry := Accepted(v.entry, EntryOf(v.h[k])));
            ViewOk(w) && (Live(v.b) ==> Covers(w, |v.b| - 1))
  {
    var w := v.(entry := Accepted(v.entry, EntryOf(v.h[k])));
    AcceptCovers(v, k);
    assert IdOk(w) && StreamOk(w);
    if |v.b| > 0 && |v.b| - 1 < k {
      VersionsGrow(v.h, |v.b| - 1, k);
    }
    CopyStraddle(v, k);
  }

  /** A row the scan read was alive when scanning began or later, so its delete is mirrored. */
  lemma CopyStraddle(v: View, k: nat)
    requires ViewOk(v) && v.phase.Scanning? && k < |v.h| && v.h[k].Put? && |v.b| <= k + 1
    ensures StraddleOk(v.(entry := Accepted(v.entry, EntryOf(v.h[k]))))
  {
    if v.n == |v.h| && !Live(v.h) {
      CoveredIsLatest(v);
      VersionsGrow(v.h, k, |v.h| - 1);
    }
  }

  // ---- One step, every row ----

  /** What a step does to the view of a row. */
  ghost predicate ViewStep(s: State, st: Step, id: Id, v: View, w: View)
    requires Enabled(s, st)
  {
    match st
    case Tick(_) => w == v
    case Restart(_) => w == v
    case Move(_, _) => w == v
    case CommitChange(i, c) => w == if i == id then v.(h := v.h + [c]) else v
    case Begin(i, _) => w == if i == id then v.(flight := Some(Delivery(Looked(s, id), false, false))) else v
    case WriteAlias(i) =>
      i == id ==> v.flight.Some? && v.n < |v.h| &&
                  w == v.(flight := Some(v.flight.value.(aliasDone := true)),
                          entry := if Served(v.phase) then Accepted(v.entry, EntryOf(v.h[v.n])) else v.entry)
    case WriteTarget(i) =>
      i == id ==> v.flight.Some? && v.flight.value.mirror && v.n < |v.h| &&
                  w == v.(flight := Some(v.flight.value.(mirrorDone := true)), entry := Accepted(v.entry, EntryOf(v.h[v.n])))
    case Finish(i) =>
      i == id ==> v.flight.Some? && v.n < |v.h| &&
                  w == v.(flight := None, n := v.n + 1,
                          straddled := v.straddled || (v.h[v.n].Removed? && v.entry.Some? && v.entry.value.document.Some?))
    case Crash(i) => i == id ==> w == v.(flight := None)
    case StartScan => w == v.(phase := Scanning(None, []), b := v.h, passed := false)
    case ReadBatch(rows) =>
      w == v.(phase := if rows == [] then Scanned else Scanning(Some(rows[|rows| - 1].id), rows), passed := w.passed)
    case WriteRow =>
      var row := s.phase.pending[0];
      w == v.(entry := if row.id == id then Accepted(v.entry, EntryOf(Put(row.version))) else v.entry,
              phase := Scanning(s.phase.lastId, s.phase.pending[1..]), passed := w.passed)
    case CreateIndex => w == v.(phase := Created, passed := true)
    case SetTarget => w == v.(phase := Registered(s.now), passed := true)
    case SwapAlias => w == v.(phase := Swapped, passed := true)
    case ClearTarget => w == v.(phase := Cleared, passed := true)
    case Abort => w == v.(phase := Aborted, passed := true)
  }

  predicate OfOneRow(st: Step) {
    st.CommitChange? || st.Begin? || st.WriteAlias? || st.WriteTarget? || st.Finish? || st.Crash?
  }

  lemma NextViewOne(s: State, st: Step, id: Id)
    requires Enabled(s, st) && (st.CommitChange? || st.Begin? || st.Crash?)
    ensures ViewStep(s, st, id, ViewOf(s, id), ViewOf(Next(s, st), id))
    ensures st.id != id ==> ViewOf(Next(s, st), id) == ViewOf(s, id)
  {
    match st {
      case CommitChange(_, _) =>
      case Begin(_, _) =>
      case Crash(_) =>
    }
  }

  lemma NextViewWrite(s: State, st: Step, id: Id)
    requires Enabled(s, st) && (st.WriteAlias? || st.WriteTarget? || st.Finish?)
    ensures ViewStep(s, st, id, ViewOf(s, id), ViewOf(Next(s, st), id))
    ensures st.id != id ==> ViewOf(Next(s, st), id) == ViewOf(s, id)
  {
    match st {
      case WriteAlias(_) =>
      case WriteTarget(_) =>
      case Finish(_) =>
    }
  }

  lemma NextViewStart(s: State, id: Id)
    requires Enabled(s, StartScan)
    ensures ViewStep(s, StartScan, id, ViewOf(s, id), ViewOf(Next(s, StartScan), id))
  {
  }

  lemma NextViewRead(s: State, rows: seq<Row>, id: Id)
    requires Enabled(s, ReadBatch(rows))
    ensures ViewStep(s, ReadBatch(rows), id, ViewOf(s, id), ViewOf(Next(s, ReadBatch(rows)), id))
  {
    var p := if rows == [] then Scanned else Scanning(Some(rows[|rows| - 1].id), rows);
    assert Next(s, ReadBatch(rows)) == s.(phase := p);
    hide Next;
    hide Enabled;
    hide Get;
    hide Handled;
    hide Passed;
  }

  lemma NextViewCopy(s: State, id: Id)
    requires Enabled(s, WriteRow)
    ensures ViewStep(s, WriteRow, id, ViewOf(s, id), ViewOf(Next(s, WriteRow), id))
  {
  }

  lemma NextViewOther(s: State, st: Step, id: Id)
    requires Enabled(s, st) && !OfOneRow(st) && !st.StartScan? && !st.ReadBatch? && !st.WriteRow?
    ensures ViewStep(s, st, id, ViewOf(s, id), ViewOf(Next(s, st), id))
  {
    match st {
      case Tick(_) | Restart(_) | Move(_, _) =>
      case CreateIndex | SetTarget | SwapAlias | ClearTarget | Abort =>
    }
  }

  lemma NextView(s: State, st: Step, id: Id)
    requires Enabled(s, st)
    ensures ViewStep(s, st, id, ViewOf(s, id), ViewOf(Next(s, st), id))
    ensures OfOneRow(st) && st.id != id ==> ViewOf(Next(s, st), id) == ViewOf(s, id)
  {
    if st.CommitChange? || st.Begin? || st.Crash? {
      NextViewOne(s, st, id);
    } else if OfOneRow(st) {
      NextViewWrite(s, st, id);
    } else if st.StartScan? {
      NextViewStart(s, id);
    } else if st.ReadBatch? {
      NextViewRead(s, st.rows, id);
    } else if st.WriteRow? {
      NextViewCopy(s, id);
    } else {
      NextViewOther(s, st, id);
    }
    hide Next;
    hide ViewStep;
    hide ViewOf;
    hide Enabled;
  }

  lemma TouchedRow(s: State, st: Step)
    requires Inv(s) && Enabled(s, st) && OfOneRow(st)
    ensures RowInv(Next(s, st), st.id)
  {
    assert RowInv(s, st.id);
    NextView(s, st, st.id);
    hide Next;
    hide ViewOk;
    var v := ViewOf(s, st.id);
    match st {
      case CommitChange(id, c) => CommitView(v, c);
      case Begin(id, _) =>
        assert CacheOk(s, s.owner[id]);
        BeginView(v, Looked(s, id));
      case WriteAlias(_) => AliasView(v);
      case WriteTarget(_) => TargetView(v);
      case Finish(_) => FinishView(v);
      case Crash(_) => CrashView(v);
    }
  }

  /** A batch passes over no live row. */
  lemma ReadPast(s: State, rows: seq<Row>, id: Id)
    requires s.phase.Scanning? && s.phase.pending == [] && IsBatch(s, s.phase.lastId, rows)
    requires Passed(if rows == [] then Scanned else Scanning(Some(rows[|rows| - 1].id), rows), id)
    ensures Passed(s.phase, id) || !Live(Get(s.history, id))
  {
  }

  lemma ReadBatchRow(s: State, rows: seq<Row>, id: Id)
    requires RowInv(s, id) && Enabled(s, ReadBatch(rows))
    ensures RowInv(Next(s, ReadBatch(rows)), id)
  {
    var p := if rows == [] then Scanned else Scanning(Some(rows[|rows| - 1].id), rows);
    var v := ViewOf(s, id);
    assert ViewOf(Next(s, ReadBatch(rows)), id) == v.(phase := p, passed := Passed(p, id));
    hide ViewOk;
    hide Next;
    if Passed(p, id) {
      ReadPast(s, rows, id);
    }
    ScanView(v, p, Passed(p, id));
  }

  /** The change a row of the pending batch stands for. */
  lemma RowChange(s: State, row: Row) returns (k: nat)
    requires RowOk(s, row)
    ensures k < |Get(s.history, row.id)| && Get(s.history, row.id)[k] == Put(row.version) && |Get(s.base, row.id)| <= k + 1
  {
    k :| 0 <= k < |Get(s.history, row.id)| && Get(s.history, row.id)[k] == Put(row.version) && |Get(s.base, row.id)| <= k + 1;
  }

  lemma ScannedRow(s: State, id: Id)
    requires RowInv(s, id) && Enabled(s, WriteRow) && RowOk(s, s.phase.pending[0])
    ensures RowInv(Next(s, WriteRow), id)
  {
    var row, v, t := s.phase.pending[0], ViewOf(s, id), Next(s, WriteRow);
    NextView(s, WriteRow, id);
    hide ViewOk;
    hide Next;
    var passed := Passed(Scanning(s.phase.lastId, s.phase.pending[1..]), id);
    if id == row.id {
      var k := RowChange(s, row);
      CopyView(v, k);
      ScanView(v.(entry := Accepted(v.entry, EntryOf(v.h[k]))), Scanning(s.phase.lastId, s.phase.pending[1..]), passed);
    } else {
      if Listed(s.phase.pending, id) {
        var j :| 0 <= j < |s.phase.pending| && s.phase.pending[j].id == id;
        assert s.phase.pending[1..][j - 1].id == id;
      }
      ScanView(v, Scanning(s.phase.lastId, s.phase.pending[1..]), passed);
    }
  }

  lemma PhaseRow(s: State, st: Step, id: Id)
    requires RowInv(s, id) && Enabled(s, st)
    requires st.CreateIndex? || st.SetTarget? || st.SwapAlias? || st.ClearTarget? || st.Abort?
    ensures RowInv(Next(s, st), id)
  {
    hide ViewOk;
    NextView(s, st, id);
    hide Next;
    match st {
      case CreateIndex => PhaseView(ViewOf(s, id), Created);
      case SetTarget => PhaseView(ViewOf(s, id), Registered(s.now));
      case SwapAlias => PhaseView(ViewOf(s, id), Swapped);
      case ClearTarget => PhaseView(ViewOf(s, id), Cleared);
      case Abort => PhaseView(ViewOf(s, id), Aborted);
    }
  }

  lemma NextRow(s: State, st: Step, id: Id)
    requires Inv(s) && Enabled(s, st)
    ensures RowInv(Next(s, st), id)
  {
    NextView(s, st, id);
    hide Next;
    hide ViewOk;
    assert RowInv(s, id);
    if st.StartScan? {
      StartScanView(ViewOf(s, id), Scanning(None, []), false);
    } else if st.ReadBatch? {
      ReadBatchRow(s, st.rows, id);
    } else if st.WriteRow? {
      assert RowOk(s, s.phase.pending[0]);
      ScannedRow(s, id);
    } else if OfOneRow(st) {
      if st.id == id {
        TouchedRow(s, st);
      }
    } else if st.CreateIndex? || st.SetTarget? || st.SwapAlias? || st.ClearTarget? || st.Abort? {
      PhaseRow(s, st, id);
    }
  }

  lemma NextCacheScan(s: State, st: Step, c: Consumer)
    requires s.grace >= CACHE_WINDOW && CacheOk(s, c) && Enabled(s, st)
    requires st.StartScan? || st.ReadBatch? || st.WriteRow?
    ensures CacheOk(Next(s, st), c)
  {
    hide IsBatch;
    match st {
      case StartScan =>
      case ReadBatch(_) =>
      case WriteRow =>
    }
  }

  lemma NextCacheEnd(s: State, st: Step, c: Consumer)
    requires CacheOk(s, c) && Enabled(s, st) && (st.SwapAlias? || st.ClearTarget? || st.Abort?)
    ensures CacheOk(Next(s, st), c)
  {
    match st {
      case SwapAlias =>
      case ClearTarget =>
      case Abort =>
    }
  }

  lemma NextCache(s: State, st: Step, c: Consumer)
    requires s.grace >= CACHE_WINDOW && (s.phase.Registered? ==> s.phase.since <= s.now)
    requires CacheOk(s, c) && Enabled(s, st)
    ensures CacheOk(Next(s, st), c)
  {
    if st.Begin? {
    } else if st.Restart? {
    } else if st.Tick? {
    } else if st.SetTarget? || st.CreateIndex? {
    } else if st.StartScan? || st.ReadBatch? || st.WriteRow? {
      NextCacheScan(s, st, c);
    } else if st.SwapAlias? || st.ClearTarget? || st.Abort? {
      NextCacheEnd(s, st, c);
    } else {
      SameConsumers(s, st);
    }
  }

  lemma SameConsumers(s: State, st: Step)
    requires Enabled(s, st)
    requires st.CommitChange? || st.WriteAlias? || st.WriteTarget? || st.Finish? || st.Crash? || st.Move?
    ensures Next(s, st).caches == s.caches && Next(s, st).phase == s.phase && Next(s, st).now == s.now
  {
    match st {
      case CommitChange(_, _) =>
      case WriteAlias(_) =>
      case WriteTarget(_) =>
      case Finish(_) =>
      case Crash(_) =>
      case Move(_, _) =>
    }
  }

  lemma RowOkStays(s: State, t: State, row: Row)
    requires RowOk(s, row) && Get(s.history, row.id) <= Get(t.history, row.id) && Get(t.base, row.id) == Get(s.base, row.id)
    ensures RowOk(t, row)
  {
    var k := RowChange(s, row);
    assert Get(t.history, row.id)[k] == Get(s.history, row.id)[k];
  }

  lemma BatchOk(s: State, rows: seq<Row>)
    requires Inv(s) && Enabled(s, ReadBatch(rows))
    ensures forall i | 0 <= i < |rows| :: RowOk(s, rows[i])
  {
    forall i | 0 <= i < |rows| ensures RowOk(s, rows[i]) {
      assert RowInv(s, rows[i].id);
      var h := Get(s.history, rows[i].id);
      assert h[|h| - 1] == Put(rows[i].version);
    }
  }

  /** What a step leaves of the table's past. */
  lemma HistoriesGrow(s: State, st: Step, id: Id)
    requires Enabled(s, st)
    ensures Get(s.history, id) <= Get(Next(s, st).history, id)
    ensures Next(s, st).grace == s.grace && (!st.StartScan? ==> Next(s, st).base == s.base)
  {
    if st.CommitChange? {
      assert Get(Next(s, st).history, id) == if id == st.id then Get(s.history, id) + [st.change] else Get(s.history, id);
    } else if OfOneRow(st) {
      SameHistoryOne(s, st);
    } else if st.StartScan? || st.ReadBatch? || st.WriteRow? {
      SameHistoryScan(s, st);
    } else {
      SameHistoryOther(s, st);
    }
  }

  lemma SameHistoryOne(s: State, st: Step)
    requires Enabled(s, st) && OfOneRow(st) && !st.CommitChange?
    ensures Next(s, st).history == s.history && Next(s, st).grace == s.grace && Next(s, st).base == s.base
  {
    match st {
      case Begin(_, _) =>
      case WriteAlias(_) =>
      case WriteTarget(_) =>
      case Finish(_) =>
      case Crash(_) =>
    }
  }

  lemma SameHistoryScan(s: State, st: Step)
    requires Enabled(s, st) && (st.StartScan? || st.ReadBatch? || st.WriteRow?)
    ensures Next(s, st).history == s.history && Next(s, st).grace == s.grace && (!st.StartScan? ==> Next(s, st).base == s.base)
  {
    hide IsBatch;
    match st {
      case ReadBatch(_) =>
      case WriteRow =>
      case StartScan =>
    }
  }

  lemma SameHistoryOther(s: State, st: Step)
    requires Enabled(s, st) && !OfOneRow(st) && !st.StartScan? && !st.ReadBatch? && !st.WriteRow?
    ensures Next(s, st).history == s.history && Next(s, st).grace == s.grace && Next(s, st).base == s.base
  {
    match st {
      case SwapAlias | ClearTarget | Abort =>
      case CreateIndex | SetTarget =>
      case Tick(_) | Restart(_) | Move(_, _) =>
    }
  }

  lemma RegistrationIsPast(s: State, st: Step)
    requires Enabled(s, st) && (s.phase.Registered? ==> s.phase.since <= s.now)
    ensures Next(s, st).phase.Registered? ==> Next(s, st).phase.since <= Next(s, st).now
  {
    if st.CommitChange? || st.WriteAlias? || st.WriteTarget? || st.Finish? || st.Crash? || st.Move? {
      SameConsumers(s, st);
    } else if st.Begin? || st.Restart? || st.Tick? || st.SetTarget? {
      ClockAndPhase(s, st);
    }
  }

  lemma ClockAndPhase(s: State, st: Step)
    requires Enabled(s, st) && (st.Begin? || st.Restart? || st.Tick? || st.SetTarget?)
    ensures Next(s, st).now >= s.now && Next(s, st).phase == if st.SetTarget? then Registered(s.now) else s.phase
  {
    match st {
      case Begin(_, _) =>
      case Restart(_) =>
      case Tick(_) =>
      case SetTarget =>
    }
  }

  /** The rows a scan holds after a step are rows it held before, or rows it has just read. */
  lemma NextRows(s: State, st: Step, row: Row)
    requires Enabled(s, st) && Next(s, st).phase.Scanning? && row in Next(s, st).phase.pending
    ensures !st.StartScan?
    ensures if st.ReadBatch? then row in st.rows else s.phase.Scanning? && row in s.phase.pending
  {
    NextView(s, st, row.id);
    assert ViewOf(s, row.id).phase == s.phase && ViewOf(Next(s, st), row.id).phase == Next(s, st).phase;
    hide Next;
    hide ViewOf;
    hide Enabled;
  }

  /** The new index stays empty until it is a registered target. */
  lemma NothingMirroredEarly(s: State, st: Step)
    requires Inv(s) && Enabled(s, st)
    ensures Next(s, st).phase.Idle? || Next(s, st).phase.Created? ==> Next(s, st).index == map[]
  {
    match st {
      case WriteTarget(id) => assert RowInv(s, id);
      case WriteAlias(_) =>
      case WriteRow =>
      case CreateIndex =>
      case StartScan | ReadBatch(_) | SwapAlias | ClearTarget | Abort | SetTarget =>
      case Begin(_, _) | Restart(_) | Tick(_) =>
      case CommitChange(_, _) | Finish(_) | Crash(_) | Move(_, _) =>
    }
  }

  lemma NextPending(s: State, st: Step)
    requires Inv(s) && Enabled(s, st)
    ensures PendingOk(Next(s, st))
  {
    var t := Next(s, st);
    hide Next;
    NothingMirroredEarly(s, st);
    RegistrationIsPast(s, st);
    HistoriesGrow(s, st, 0);
    if t.phase.Scanning? {
      forall i | 0 <= i < |t.phase.pending| ensures RowOk(t, t.phase.pending[i]) {
        var row := t.phase.pending[i];
        NextRows(s, st, row);
        HistoriesGrow(s, st, row.id);
        if st.ReadBatch? {
          BatchOk(s, st.rows);
        }
        RowOkStays(s, t, row);
      }
    }
  }

  lemma NextKeepsInv(s: State, st: Step)
    requires Inv(s) && Enabled(s, st)
    ensures Inv(Next(s, st))
  {
    var t := Next(s, st);
    hide Next;
    NextPending(s, st);
    forall c {:trigger CacheOk(t, c)} ensures CacheOk(t, c) {
      assert CacheOk(s, c);
      NextCache(s, st, c);
    }
    forall id {:trigger RowInv(t, id)} ensures RowInv(t, id) {
      NextRow(s, st, id);
    }
  }

  lemma InitInv(s: State)
    requires Init(s)
    ensures Inv(s)
  {
    forall i {:trigger RowInv(s, i)} ensures RowInv(s, i) {
      assert History(Get(s.history, i)) && Handled(s, i) <= |Get(s.history, i)|;
    }
  }

  lemma {:induction false} RunKeepsInv(run: seq<State>, sched: seq<Step>, i: nat)
    requires Steps(run, sched) && Init(run[0]) && i < |run|
    ensures Inv(run[i])
  {
    if i == 0 {
      InitInv(run[0]);
    } else {
      RunKeepsInv(run, sched, i - 1);
      assert Taken(run, sched, i - 1);
      NextKeepsInv(run[i - 1], sched[i - 1]);
    }
  }

  // ---- What the invariant means once the alias serves the new index ----

  /** Every acknowledged row is right, unless it is a straddled delete. */
  lemma ServedIsExact(s: State, id: Id)
    requires Inv(s) && Served(s.phase) && Drained(s, id)
    ensures Right(s, id) <==> id !in s.straddled
  {
    var v := ViewOf(s, id);
    assert RowInv(s, id);
    if Live(v.h) {
      assert |v.b| == |v.h| ==> v.b == v.h;
      CoveredIsLatest(v);
    }
  }

  /** Searches never see a partial index: a live row that predates the scan is served, at least as new as it was then. */
  lemma ServedIsNeverPartial(s: State, id: Id)
    requires Inv(s) && Served(s.phase) && Live(Get(s.base, id)) && Live(Get(s.history, id))
    ensures ServedDocument(s, id).Some? && LiveVersion(Get(s.base, id)).value <= ServedDocument(s, id).value
  {
    var v := ViewOf(s, id);
    assert RowInv(s, id);
    var j :| 0 <= j < |v.h| && EntryOf(v.h[j]) == v.entry.value;
    if j < |v.h| - 1 {
      VersionsGrow(v.h, j, |v.h| - 1);
    }
  }
}
