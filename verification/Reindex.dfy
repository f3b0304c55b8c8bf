/**
 * Rebuilding a read model behind its alias while change-data-capture consumers keep writing.
 *
 * Only the new physical index is tracked: a write aimed at the alias reaches it once the alias has been swapped.
 * Documents are functions of (id, version), so a document is represented by its version. Times are milliseconds.
 */
module Reindex {
  import opened Shared

  type Id = int
  type Consumer = int

  const CACHE_WINDOW: int := 1000
  const BATCH_SIZE: nat := 500

  /** A committed change of one row; a delete event carries the version of the row it removed. */
  datatype Change = Put(version: nat) | Removed(version: nat)

  /** A document, or the delete marker Elasticsearch keeps, under its external version. */
  datatype Entry = Entry(external: nat, document: Option<nat>)

  function EntryOf(c: Change): Entry {
    match c
    case Put(v) => Entry(v + 1, Some(v))
    case Removed(v) => Entry(v + 2, None)
  }

  /** version_type=external_gte: an older write is a conflict, and every caller swallows conflicts. */
  function Accept(index: map<Id, Entry>, id: Id, e: Entry): map<Id, Entry> {
    if id in index && index[id].external > e.external then index else index[id := e]
  }

  datatype Row = Row(id: Id, version: nat)

  datatype Phase =
    | Idle
    | Created
    | Registered(since: Time)
    | Scanning(lastId: Option<Id>, pending: seq<Row>)
    | Scanned
    | Swapped
    | Cleared
    | Aborted

  /** One handling of a row's next unacknowledged change, with the targets it looked up. */
  datatype Delivery = Delivery(mirror: bool, aliasDone: bool, mirrorDone: bool)

  datatype Cached = Cached(expires: Time, mirror: bool)

  /**
   * `history` is the table with its past; `handled` counts acknowledged changes of a row; `base` remembers the
   * history when scanning began; `straddled` collects the rows whose delete was acknowledged while the new index
   * still held a document of theirs. It is bookkeeping for the proofs: ReindexStraddle shows it to be a fact about
   * which deliveries looked up their targets when.
   */
  datatype State = State(
    now: Time,
    grace: int,
    history: map<Id, seq<Change>>,
    handled: map<Id, nat>,
    inFlight: map<Id, Delivery>,
    caches: map<Consumer, Cached>,
    owner: map<Id, Consumer>,
    index: map<Id, Entry>,
    phase: Phase,
    base: map<Id, seq<Change>>,
    straddled: set<Id>)

  function Get(m: map<Id, seq<Change>>, id: Id): seq<Change> {
    if id in m then m[id] else []
  }

  function Handled(s: State, id: Id): nat {
    if id in s.handled then s.handled[id] else 0
  }

  predicate Live(h: seq<Change>) {
    h != [] && h[|h| - 1].Put?
  }

  function LiveVersion(h: seq<Change>): Option<nat> {
    if Live(h) then Some(h[|h| - 1].version) else None
  }

  /** Row versions grow, a delete ends the row's history, and ids are not inserted again. */
  predicate Follows(h: seq<Change>, c: Change) {
    match c
    case Put(v) => h == [] || (Live(h) && h[|h| - 1].version < v)
    case Removed(v) => Live(h) && h[|h| - 1].version == v
  }

  predicate HasTarget(p: Phase) {
    p.Registered? || p.Scanning? || p.Scanned? || p.Swapped?
  }

  predicate Served(p: Phase) {
    p.Swapped? || p.Cleared?
  }

  predicate After(last: Option<Id>, id: Id) {
    last.None? || last.value < id
  }

  /** SELECT ... WHERE id > last ORDER BY id LIMIT 500, over committed rows. */
  predicate IsBatch(s: State, last: Option<Id>, rows: seq<Row>) {
    && |rows| <= BATCH_SIZE
    && (forall i | 0 <= i < |rows| :: After(last, rows[i].id) && LiveVersion(Get(s.history, rows[i].id)) == Some(rows[i].version))
    && (forall i, j | 0 <= i < j < |rows| :: rows[i].id < rows[j].id)
    && (forall id | id in s.history && Live(s.history[id]) && After(last, id) ::
          Listed(rows, id) || (|rows| == BATCH_SIZE && rows[|rows| - 1].id < id))
  }

  predicate Listed(rows: seq<Row>, id: Id) {
    exists i | 0 <= i < |rows| :: rows[i].id == id
  }

  datatype Step =
    | Tick(elapsed: int)
    | CommitChange(id: Id, change: Change)
    | Begin(id: Id, expires: Time)
    | WriteAlias(id: Id)
    | WriteTarget(id: Id)
    | Finish(id: Id)
    | Crash(id: Id)
    | Restart(consumer: Consumer)
    | Move(id: Id, consumer: Consumer)
    | CreateIndex
    | SetTarget
    | StartScan
    | ReadBatch(rows: seq<Row>)
    | WriteRow
    | SwapAlias
    | ClearTarget
    | Abort

  /** The targets a consumer may use without asking Elasticsearch again. */
  predicate CacheHit(s: State, c: Consumer) {
    c in s.caches && s.caches[c].expires > s.now
  }

  predicate Enabled(s: State, st: Step) {
    match st
    case Tick(d) => d > 0
    case CommitChange(id, c) => Follows(Get(s.history, id), c)
    case Begin(id, expires) =>
      && id in s.owner && id !in s.inFlight && Handled(s, id) < |Get(s.history, id)|
      && expires <= s.now + CACHE_WINDOW
    case WriteAlias(id) => id in s.inFlight && Handled(s, id) < |Get(s.history, id)|
    case WriteTarget(id) => id in s.inFlight && s.inFlight[id].mirror && Handled(s, id) < |Get(s.history, id)|
    case Finish(id) =>
      && id in s.inFlight && s.inFlight[id].aliasDone && (s.inFlight[id].mirror ==> s.inFlight[id].mirrorDone)
      && Handled(s, id) < |Get(s.history, id)|
    case Crash(id) => id in s.inFlight
    case Restart(_) => true
    case Move(id, _) => id !in s.inFlight
    case CreateIndex => s.phase.Idle?
    case SetTarget => s.phase.Created?
    case StartScan => s.phase.Registered? && s.phase.since + s.grace <= s.now
    case ReadBatch(rows) => s.phase.Scanning? && s.phase.pending == [] && IsBatch(s, s.phase.lastId, rows)
    case WriteRow => s.phase.Scanning? && s.phase.pending != []
    case SwapAlias => s.phase.Scanned?
    case ClearTarget => s.phase.Swapped?
    case Abort => s.phase.Created? || s.phase.Registered? || s.phase.Scanning? || s.phase.Scanned?
  }

  /** The change a delivery of this row is handling. */
  function Current(s: State, id: Id): Change
    requires Handled(s, id) < |Get(s.history, id)|
  {
    Get(s.history, id)[Handled(s, id)]
  }

  function Looked(s: State, id: Id): bool
    requires id in s.owner
  {
    var c := s.owner[id];
    if CacheHit(s, c) then s.caches[c].mirror else HasTarget(s.phase)
  }

  function Next(s: State, st: Step): State
    requires Enabled(s, st)
  {
    match st
    case Tick(d) => s.(now := s.now + d)
    case CommitChange(id, c) => s.(history := s.history[id := Get(s.history, id) + [c]])
    case Begin(id, expires) =>
      var c := s.owner[id];
      s.(inFlight := s.inFlight[id := Delivery(Looked(s, id), false, false)],
         caches := if CacheHit(s, c) then s.caches else s.caches[c := Cached(expires, HasTarget(s.phase))])
    case WriteAlias(id) =>
      s.(inFlight := s.inFlight[id := s.inFlight[id].(aliasDone := true)],
         index := if Served(s.phase) then Accept(s.index, id, EntryOf(Current(s, id))) else s.index)
    case WriteTarget(id) =>
      s.(inFlight := s.inFlight[id := s.inFlight[id].(mirrorDone := true)],
         index := Accept(s.index, id, EntryOf(Current(s, id))))
    case Finish(id) =>
      var passedBy := Current(s, id).Removed? && id in s.index && s.index[id].document.Some?;
      s.(inFlight := s.inFlight - {id}, handled := s.handled[id := Handled(s, id) + 1],
         straddled := if passedBy then s.straddled + {id} else s.straddled)
    case Crash(id) => s.(inFlight := s.inFlight - {id})
    case Restart(c) => s.(caches := s.caches - {c})
    case Move(id, c) => s.(owner := s.owner[id := c])
    case CreateIndex => s.(phase := Created)
    case SetTarget => s.(phase := Registered(s.now))
    case StartScan => s.(phase := Scanning(None, []), base := s.history)
    case ReadBatch(rows) =>
      if rows == [] then s.(phase := Scanned) else s.(phase := Scanning(Some(rows[|rows| - 1].id), rows))
    case WriteRow =>
      var row := s.phase.pending[0];
      s.(index := Accept(s.index, row.id, EntryOf(Put(row.version))),
         phase := Scanning(s.phase.lastId, s.phase.pending[1..]))
    case SwapAlias => s.(phase := Swapped)
    case ClearTarget => s.(phase := Cleared)
    case Abort => s.(phase := Aborted)
  }

  /** The command line refuses a grace period shorter than the target-discovery cache window. */
  ghost predicate Init(s: State) {
    && s.grace >= CACHE_WINDOW && s.phase.Idle? && s.index == map[] && s.straddled == {}
    && s.inFlight == map[]
    && (forall id :: History(Get(s.history, id)))
    && (forall id :: Handled(s, id) <= |Get(s.history, id)|)
    && (forall c | c in s.caches :: !s.caches[c].mirror && s.caches[c].expires <= s.now + CACHE_WINDOW)
  }

  predicate Consecutive(h: seq<Change>, k: nat)
    requires k < |h|
  {
    if k == 0 then h[0].Put?
    else h[k - 1].Put? && if h[k].Put? then h[k - 1].version < h[k].version else h[k - 1].version == h[k].version
  }

  ghost predicate History(h: seq<Change>) {
    forall k {:trigger Consecutive(h, k)} | 0 <= k < |h| :: Consecutive(h, k)
  }

  ghost predicate Steps(run: seq<State>, sched: seq<Step>) {
    && |run| == |sched| + 1
    && forall i | 0 <= i < |sched| :: Taken(run, sched, i)
  }

  ghost predicate Taken(run: seq<State>, sched: seq<Step>, i: nat)
    requires |run| == |sched| + 1 && i < |sched|
  {
    Enabled(run[i], sched[i]) && run[i + 1] == Next(run[i], sched[i])
  }

  /** What a search by id through the alias would find. */
  function ServedDocument(s: State, id: Id): Option<nat> {
    if id in s.index then s.index[id].document else None
  }

  /** The served document is the live row at its latest version, and nothing is served for an absent row. */
  predicate Right(s: State, id: Id) {
    ServedDocument(s, id) == LiveVersion(Get(s.history, id))
  }

  predicate Drained(s: State, id: Id) {
    Handled(s, id) == |Get(s.history, id)|
  }
}
