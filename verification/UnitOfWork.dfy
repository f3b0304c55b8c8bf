/** The unit of work: an identity map over version-guarded rows, and a commit that stages each new event once. */
module UnitOfWork {
  import opened Shared

  type Id = nat
  type Key = nat
  type Contents = int

  datatype Row = Row(contents: Contents, version: nat)

  /** An aggregate held in memory, with the events it has recorded and not yet published. */
  datatype Entity = Entity(contents: Contents, version: nat, events: seq<Event>)

  datatype Outgoing = Outgoing(id: Id, event: Event)

  class Database {
    var rows: map<Id, Row>
    var outbox: seq<Outgoing>
    var receipts: map<Key, Receipt>

    constructor ()
      ensures rows == map[] && outbox == [] && receipts == map[]
    {
      rows, outbox, receipts := map[], [], map[];
    }
  }

  function Tagged(id: Id, events: seq<Event>): seq<Outgoing> {
    if events == [] then [] else Tagged(id, events[..|events| - 1]) + [Outgoing(id, events[|events| - 1])]
  }

  /** Everything the changed aggregates have recorded, aggregate by aggregate, in the order of recording. */
  function Pending(identity: map<Id, Entity>, dirty: seq<Id>): seq<Outgoing>
    requires forall id | id in dirty :: id in identity
  {
    if dirty == [] then []
    else
      var last := dirty[|dirty| - 1];
      Pending(identity, dirty[..|dirty| - 1]) + Tagged(last, identity[last].events)
  }

  function EventsOf(log: seq<Outgoing>, id: Id): seq<Event> {
    if log == [] then []
    else EventsOf(log[..|log| - 1], id) + if log[|log| - 1].id == id then [log[|log| - 1].event] else []
  }

  lemma {:induction false} EventsTogether(a: seq<Outgoing>, b: seq<Outgoing>, id: Id)
    ensures EventsOf(a + b, id) == EventsOf(a, id) + EventsOf(b, id)
    decreases |b|
  {
    if b == [] {
      assert a + b == a;
    } else {
      EventsTogether(a, b[..|b| - 1], id);
      assert (a + b)[..|a + b| - 1] == a + b[..|b| - 1];
    }
  }

  lemma {:induction false} TaggedEvents(id: Id, events: seq<Event>, other: Id)
    ensures EventsOf(Tagged(id, events), other) == if other == id then events else []
  {
    if events != [] {
      TaggedEvents(id, events[..|events| - 1], other);
      EventsTogether(Tagged(id, events[..|events| - 1]), [Outgoing(id, events[|events| - 1])], other);
      assert [Outgoing(id, events[|events| - 1])][..0] == [];
      assert EventsOf([Outgoing(id, events[|events| - 1])], other) == if other == id then [events[|events| - 1]] else [];
    }
  }

  /** A commit publishes, of each changed aggregate, exactly what it recorded, in order; of the others nothing. */
  lemma {:induction false} PendingIsEachOnce(identity: map<Id, Entity>, dirty: seq<Id>, id: Id)
    requires (forall i | i in dirty :: i in identity) && (forall i, j | 0 <= i < j < |dirty| :: dirty[i] != dirty[j])
    ensures EventsOf(Pending(identity, dirty), id) == if id in dirty then identity[id].events else []
  {
    if dirty != [] {
      var front, last := dirty[..|dirty| - 1], dirty[|dirty| - 1];
      PendingIsEachOnce(identity, front, id);
      EventsTogether(Pending(identity, front), Tagged(last, identity[last].events), id);
      TaggedEvents(last, identity[last].events, id);
      assert last !in front;
      assert id in dirty <==> id == last || id in front;
    }
  }

  function RowOf(e: Entity): Row {
    Row(e.contents, e.version)
  }

  class UnitOfWork {
    const db: Database
    var identity: map<Id, Entity>
    var dirty: seq<Id>
    /** Updates and receipts of the open transaction, invisible to others until the commit. */
    var writes: map<Id, Row>
    var receipts: map<Key, Receipt>

    constructor (db: Database)
      ensures this.db == db && Valid() && Whole() && identity == map[] && dirty == [] && writes == map[] && receipts == map[]
    {
      this.db := db;
      identity, dirty, writes, receipts := map[], [], map[], map[];
    }

    ghost predicate Valid()
      reads this
    {
      && (forall id | id in dirty :: id in identity)
      && (forall i, j | 0 <= i < j < |dirty| :: dirty[i] != dirty[j])
      && (forall id | id in writes :: id in dirty && writes[id] == Row(identity[id].contents, identity[id].version))
    }

    /** No commit has failed here: every changed aggregate still has its row update in the open transaction. */
    ghost predicate Whole()
      reads this
    {
      forall id | id in dirty :: id in writes
    }

    /** The changed aggregates are ahead of their committed rows, as they are until somebody else moves those. */
    ghost predicate Ahead()
      reads this, db
    {
      forall id | id in dirty && id in identity && id in db.rows :: db.rows[id].version < identity[id].version
    }

    /** The row as this transaction sees it. */
    function Seen(id: Id): Option<Row>
      reads this, db
    {
      if id in writes then Some(writes[id]) else Map(db.rows, id)
    }

    /** The same aggregate object for the same id, however often it is asked for. */
    method GetById(id: Id) returns (entity: Option<Entity>)
      requires Valid()
      modifies this`identity
      ensures Valid() && entity == Map(identity, id)
      ensures forall k | k != id :: Map(identity, k) == Map(old(identity), k)
      ensures if id in old(identity) then identity == old(identity)
              else if id in db.rows then entity == Some(Entity(db.rows[id].contents, db.rows[id].version, []))
              else entity == None
    {
      if id in identity {
        return Some(identity[id]);
      }
      if id in db.rows {
        identity := identity[id := Entity(db.rows[id].contents, db.rows[id].version, [])];
        return Some(identity[id]);
      }
      return None;
    }

    /** UPDATE ... WHERE version = expected; no row matched means it is gone, or was modified concurrently. */
    method Update(id: Id, changed: Entity) returns (r: Result<nat>)
      requires Valid()
      modifies this`identity, this`dirty, this`writes
      ensures Valid()
      ensures r == match old(Seen(id))
                   case None => Err(RowNotFound)
                   case Some(row) => if row.version == changed.version then Ok(changed.version + 1) else Err(ConcurrentModification)
      ensures old(Whole()) ==> Whole()
      ensures r.Err? ==> identity == old(identity) && dirty == old(dirty) && writes == old(writes)
      ensures r.Ok? ==>
                && identity == old(identity)[id := changed.(version := changed.version + 1)]
                && writes == old(writes)[id := Row(changed.contents, changed.version + 1)]
                && dirty == if id in old(dirty) then old(dirty) else old(dirty) + [id]
    {
      var row := if id in writes then Some(writes[id]) else Map(db.rows, id);
      if row.None? {
        return Err(RowNotFound);
      }
      if row.value.version != changed.version {
        return Err(ConcurrentModification);
      }
      identity := identity[id := changed.(version := changed.version + 1)];
      writes := writes[id := Row(changed.contents, changed.version + 1)];
      if id !in dirty {
        dirty := dirty + [id];
      }
      return Ok(changed.version + 1);
    }

    method AddReceipt(key: Key, receipt: Receipt)
      requires Valid()
      modifies this`receipts
      ensures Valid() && receipts == old(receipts)[key := receipt]
    {
      receipts := receipts[key := receipt];
    }

    method StageDomainEvents() returns (staged: seq<Outgoing>)
      requires Valid()
      ensures staged == Pending(identity, dirty)
    {
      staged := [];
      for i := 0 to |dirty|
        invariant staged == Pending(identity, dirty[..i])
      {
        var events := identity[dirty[i]].events;
        ghost var before := staged;
        for j := 0 to |events|
          invariant staged == before + Tagged(dirty[i], events[..j])
        {
          assert events[..j + 1][..j] == events[..j];
          staged := staged + [Outgoing(dirty[i], events[j])];
        }
        assert events[..|events|] == events;
        assert dirty[..i + 1][..i] == dirty[..i];
      }
      assert dirty[..|dirty|] == dirty;
    }

    method ClearCommittedEvents()
      requires Valid()
      modifies this`identity, this`dirty, this`writes
      ensures Valid() && dirty == [] && writes == map[] && identity.Keys == old(identity).Keys
      ensures forall id | id in identity ::
                identity[id] == if id in old(dirty) then old(identity)[id].(events := []) else old(identity)[id]
    {
      ghost var was := identity;
      var ids := dirty;
      for i := 0 to |ids|
        invariant identity.Keys == was.Keys
        invariant forall id | id in identity :: identity[id] == if id in ids[..i] then was[id].(events := []) else was[id]
      {
        assert ids[..i + 1] == ids[..i] + [ids[i]];
        identity := identity[ids[i] := identity[ids[i]].(events := [])];
      }
      assert ids[..|ids|] == ids;
      dirty, writes := [], map[];
    }

    /**
     * Rows, events and receipts together or not at all. The unique receipt index may refuse, and the server may fail;
     * then nothing is published and the recorded events are still there. After a commit none of them is left to be
     * published again.
     */
    method Commit(serverFails: bool) returns (r: Result<()>)
      requires Valid()
      modifies this, db
      ensures Valid()
      ensures r.Ok? <==> !serverFails && forall k | k in receipts :: k !in old(db.receipts)
      ensures r.Err? ==> r == Err(if serverFails then ServerError else IdempotencyConflict)
      ensures r.Ok? ==>
                && db.rows == old(db.rows + writes)
                && db.outbox == old(db.outbox) + Pending(old(identity), old(dirty))
                && db.receipts == old(db.receipts + receipts)
                && dirty == [] && Pending(identity, dirty) == []
                && (forall id | id in identity && id in old(dirty) :: identity[id].events == [])
      ensures r.Ok? && old(Whole()) ==>
                forall id | id in old(dirty) :: id in old(identity) && Map(db.rows, id) == Some(RowOf(old(identity)[id]))
      ensures r.Ok? && old(Ahead()) ==>
                (old(Whole()) <==>
                  forall id | id in old(dirty) :: id in old(identity) && Map(db.rows, id) == Some(RowOf(old(identity)[id])))
      ensures r.Err? ==> unchanged(db) && identity == old(identity) && dirty == old(dirty) && writes == map[]
      ensures receipts == old(receipts)
    {
      var staged := StageDomainEvents();
      if serverFails {
        writes := map[];
        return Err(ServerError);
      }
      if receipts.Keys * db.receipts.Keys != {} {
        assert exists k :: k in receipts.Keys * db.receipts.Keys;
        writes := map[];
        return Err(IdempotencyConflict);
      }
      assert forall k | k in receipts :: k in db.receipts ==> k in receipts.Keys * db.receipts.Keys;
      db.rows := db.rows + writes;
      db.outbox := db.outbox + staged;
      db.receipts := db.receipts + receipts;
      ClearCommittedEvents();
      return Ok(());
    }
  }

  /**
   * A second commit after a failed one in the same unit publishes the event without the row. No handler of the source
   * commits twice in one context; this is what the interface would allow.
   */
  method CommitAfterFailure(db: Database, id: Id, changed: Entity)
    requires id in db.rows && db.rows[id].version == changed.version && changed.events != []
    modifies db
    ensures db.rows == old(db.rows) && db.outbox == old(db.outbox) + Tagged(id, changed.events)
    ensures db.rows[id].version == changed.version
  {
    var unit := new UnitOfWork(db);
    hide Pending;
    hide Tagged;
    var updated := unit.Update(id, changed);
    assert unit.dirty == [id];
    var failed := unit.Commit(true);
    assert unit.dirty == [id] && unit.writes == map[] && unit.identity[id].events == changed.events;
    OnePending(unit.identity, id);
    var done := unit.Commit(false);
    assert db.rows == old(db.rows) + map[];
  }

  lemma OnePending(identity: map<Id, Entity>, id: Id)
    requires id in identity
    ensures Pending(identity, [id]) == Tagged(id, identity[id].events)
  {
    assert [id][..0] == [];
  }

  /** A request whose key is already taken loses its whole transaction, the row update included, to the unique index. */
  method LoseRace(db: Database, key: Key, id: Id, changed: Entity, late: Receipt) returns (r: Result<()>)
    requires key in db.receipts
    modifies db
    ensures r == Err(IdempotencyConflict) && unchanged(db)
  {
    var unit := new UnitOfWork(db);
    var updated := unit.Update(id, changed);
    unit.AddReceipt(key, late);
    hide Pending;
    r := unit.Commit(false);
  }
}
