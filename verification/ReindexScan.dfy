/** The sequential pieces of the rebuild: the target-discovery cache of one client, and the keyset scan loop. */
module ReindexScan {
  import opened Shared
  import opened Reindex

  /** One consumer's view of the targets, as its client caches it for one logical index. */
  class TargetCache {
    var cached: Option<Cached>

    constructor ()
      ensures cached == None
    {
      cached := None;
    }

    /**
     * Answers from the cache while it lasts, and otherwise asks Elasticsearch. `asked` is read before asking, so the
     * answer is kept for at most the cache window after the moment it was true.
     */
    method WriteTargets(asked: Time, registered: bool) returns (mirror: bool)
      modifies this
      ensures if old(cached).Some? && old(cached).value.expires > asked
              then mirror == old(cached).value.mirror && cached == old(cached)
              else mirror == registered && cached == Some(Cached(asked + CACHE_WINDOW, registered))
    {
      if cached.Some? && cached.value.expires > asked {
        return cached.value.mirror;
      }
      cached := Some(Cached(asked + CACHE_WINDOW, registered));
      return registered;
    }
  }

  /** Looking the targets up through the cache is a Begin step of the protocol, with an expiry it allows. */
  lemma LookupIsABeginStep(s: State, id: Id, asked: Time)
    requires id in s.owner && id !in s.inFlight && Handled(s, id) < |Get(s.history, id)| && asked <= s.now
    ensures Enabled(s, Begin(id, asked + CACHE_WINDOW))
    ensures !CacheHit(s, s.owner[id]) ==>
              Next(s, Begin(id, asked + CACHE_WINDOW)).caches[s.owner[id]] == Cached(asked + CACHE_WINDOW, HasTarget(s.phase))
  {
  }

  ghost predicate InIdOrder(rows: seq<Row>) {
    forall i, j | 0 <= i < j < |rows| :: rows[i].id < rows[j].id
  }

  /** The rows after the last id read, at most one batch of them. */
  function Batch(rows: seq<Row>, last: Option<Id>, limit: nat): seq<Row> {
    if rows == [] || limit == 0 then []
    else if After(last, rows[0].id) then [rows[0]] + Batch(rows[1..], last, limit - 1)
    else Batch(rows[1..], last, limit)
  }

  lemma {:induction false} BatchAfterAll(rows: seq<Row>, limit: nat, last: Option<Id>)
    requires forall i | 0 <= i < |rows| :: After(last, rows[i].id)
    ensures Batch(rows, last, limit) == if |rows| < limit then rows else rows[..limit]
  {
    if rows != [] && limit > 0 {
      assert forall i | 0 <= i < |rows| - 1 :: rows[1..][i] == rows[i + 1];
      BatchAfterAll(rows[1..], limit - 1, last);
      assert limit <= |rows| ==> [rows[0]] + rows[1..][..limit - 1] == rows[..limit];
    }
  }

  /** With n rows read, the last id read makes the next batch start at row n. */
  lemma {:induction false} BatchContinues(rows: seq<Row>, n: nat, limit: nat)
    requires InIdOrder(rows) && 0 < n <= |rows|
    ensures Batch(rows, Some(rows[n - 1].id), limit) == if |rows| - n < limit then rows[n..] else rows[n..n + limit]
  {
    var last := Some(rows[n - 1].id);
    if limit > 0 {
      assert !After(last, rows[0].id);
      if n == 1 {
        BatchAfterAll(rows[1..], limit, last);
      } else {
        BatchContinues(rows[1..], n - 1, limit);
        assert rows[1..][n - 1..] == rows[n..];
      }
    }
  }

  /** Every row of the list written in turn, each refused where something newer is. */
  function CopyAll(index: map<Id, Entry>, rows: seq<Row>): map<Id, Entry> {
    if rows == [] then index
    else Accept(CopyAll(index, rows[..|rows| - 1]), rows[|rows| - 1].id, EntryOf(Put(rows[|rows| - 1].version)))
  }

  /** The documents that can be written. */
  function Unbroken(documents: seq<Row>, broken: Id -> bool): seq<Row> {
    if documents == [] then []
    else
      var last := documents[|documents| - 1];
      Unbroken(documents[..|documents| - 1], broken) + if broken(last.id) then [] else [last]
  }

  lemma {:induction false} SoundIsUnbroken(documents: seq<Row>, broken: Id -> bool)
    ensures |Unbroken(documents, broken)| <= |documents|
    ensures |Unbroken(documents, broken)| == |documents| <==> Sound(documents, broken)
    ensures Sound(documents, broken) ==> Unbroken(documents, broken) == documents
    decreases |documents|
  {
    if documents != [] {
      var front, last := documents[..|documents| - 1], documents[|documents| - 1];
      SoundIsUnbroken(front, broken);
      assert front + [last] == documents;
      assert forall i | 0 <= i < |front| :: front[i] == documents[i];
      if Sound(documents, broken) {
        assert !broken(documents[|documents| - 1].id);
      } else if Sound(front, broken) {
        var i :| 0 <= i < |documents| && broken(documents[i].id);
        assert i < |front| ==> !broken(front[i].id);
      }
    }
  }

  lemma OneMoreDocument(index: map<Id, Entry>, documents: seq<Row>, i: nat, broken: Id -> bool)
    requires i < |documents|
    ensures var good, d := Unbroken(documents[..i], broken), documents[i];
            && Unbroken(documents[..i + 1], broken) == (if broken(d.id) then good else good + [d])
            && CopyAll(index, good + [d]) == Accept(CopyAll(index, good), d.id, EntryOf(Put(d.version)))
  {
    var good, d := Unbroken(documents[..i], broken), documents[i];
    assert documents[..i + 1][..i] == documents[..i];
    assert (good + [d])[..|good|] == good;
  }

  /** One bulk request; version conflicts are not errors, anything else aborts the rebuild. */
  method BulkIndex(index: map<Id, Entry>, documents: seq<Row>, broken: Id -> bool) returns (out: map<Id, Entry>, errors: nat)
    ensures out == CopyAll(index, Unbroken(documents, broken)) && errors == |documents| - |Unbroken(documents, broken)|
    ensures errors == 0 <==> Sound(documents, broken)
    ensures errors == 0 ==> out == CopyAll(index, documents)
  {
    out, errors := index, 0;
    for i := 0 to |documents|
      invariant out == CopyAll(index, Unbroken(documents[..i], broken)) && errors == i - |Unbroken(documents[..i], broken)|
    {
      OneMoreDocument(index, documents, i, broken);
      if broken(documents[i].id) {
        errors := errors + 1;
      } else {
        out := Accept(out, documents[i].id, EntryOf(Put(documents[i].version)));
      }
    }
    assert documents[..|documents|] == documents;
    SoundIsUnbroken(documents, broken);
  }

  function LastId(rows: seq<Row>, n: nat): Option<Id>
    requires n <= |rows|
  {
    if n == 0 then None else Some(rows[n - 1].id)
  }

  lemma BatchAt(rows: seq<Row>, n: nat, limit: nat)
    requires InIdOrder(rows) && n <= |rows| && limit >= 1
    ensures var batch := Batch(rows, LastId(rows, n), limit);
            n + |batch| <= |rows| && batch == rows[n..n + |batch|] && (batch == [] <==> n == |rows|)
            && (batch != [] ==> LastId(rows, n + |batch|) == Some(batch[|batch| - 1].id))
  {
    if n == 0 {
      BatchAfterAll(rows, limit, None);
    } else {
      BatchContinues(rows, n, limit);
    }
  }

  predicate Sound(rows: seq<Row>, broken: Id -> bool) {
    forall i | 0 <= i < |rows| :: !broken(rows[i].id)
  }

  /** The first n rows have been written, and none of them was broken. */
  ghost predicate Written(index: map<Id, Entry>, rows: seq<Row>, n: nat, out: map<Id, Entry>, broken: Id -> bool) {
    n <= |rows| && out == CopyAll(index, rows[..n]) && Sound(rows[..n], broken)
  }

  lemma NothingWritten(index: map<Id, Entry>, rows: seq<Row>, broken: Id -> bool)
    ensures Written(index, rows, 0, index, broken)
  {
  }

  lemma AllWritten(index: map<Id, Entry>, rows: seq<Row>, out: map<Id, Entry>, broken: Id -> bool)
    requires Written(index, rows, |rows|, out, broken)
    ensures out == CopyAll(index, rows) && Sound(rows, broken)
  {
    assert rows[..|rows|] == rows;
  }

  lemma OneBatchMore(index: map<Id, Entry>, rows: seq<Row>, n: nat, out: map<Id, Entry>, broken: Id -> bool, batch: seq<Row>)
    requires Written(index, rows, n, out, broken) && n + |batch| <= |rows| && batch == rows[n..n + |batch|]
    ensures Sound(batch, broken) ==> Written(index, rows, n + |batch|, CopyAll(out, batch), broken)
    ensures !Sound(batch, broken) ==> !Sound(rows, broken)
  {
    CopyTogether(index, rows[..n], batch);
    assert rows[..n] + batch == rows[..n + |batch|];
    SoundTogether(rows[..n], batch, rows[n + |batch|..], broken);
    assert rows[..n] + batch + rows[n + |batch|..] == rows;
    hide CopyAll;
    hide Sound;
  }

  lemma SoundTogether(a: seq<Row>, b: seq<Row>, c: seq<Row>, broken: Id -> bool)
    ensures Sound(a, broken) && Sound(b, broken) ==> Sound(a + b, broken)
    ensures !Sound(b, broken) ==> !Sound(a + b + c, broken)
  {
    if !Sound(b, broken) {
      var i :| 0 <= i < |b| && broken(b[i].id);
      assert (a + b + c)[|a| + i] == b[i];
    }
  }

  /**
   * The scan loop over a table that stands still: it ends for every batch size, reports the number of rows, and has
   * written each of them exactly as one pass over the whole table would; a broken document makes it give up.
   */
  method ScanTable(rows: seq<Row>, index: map<Id, Entry>, batchSize: nat, broken: Id -> bool)
    returns (r: Result<nat>, out: map<Id, Entry>)
    requires InIdOrder(rows) && batchSize >= 1
    ensures r.Ok? <==> Sound(rows, broken)
    ensures r.Ok? ==> r.value == |rows| && out == CopyAll(index, rows)
  {
    hide InIdOrder;
    hide Batch;
    hide LastId;
    hide Written;
    hide CopyAll;
    hide Sound;
    out := index;
    var total: nat := 0;
    var lastId: Option<Id> := None;
    NothingWritten(index, rows, broken);
    NothingRead(rows);
    while true
      invariant total <= |rows| && Written(index, rows, total, out, broken) && lastId == LastId(rows, total)
      decreases |rows| - total
    {
      BatchAt(rows, total, batchSize);
      var batch := Batch(rows, lastId, batchSize);
      if batch == [] {
        AllWritten(index, rows, out, broken);
        return Ok(total), out;
      }
      OneBatchMore(index, rows, total, out, broken, batch);
      var errors;
      out, errors := BulkIndex(out, batch, broken);
      if errors > 0 {
        return Err(InvalidArgument), out;
      }
      total := total + |batch|;
      lastId := Some(batch[|batch| - 1].id);
    }
  }

  lemma NothingRead(rows: seq<Row>)
    ensures LastId(rows, 0) == None
  {
  }

  lemma {:induction false} CopyTogether(index: map<Id, Entry>, a: seq<Row>, b: seq<Row>)
    ensures CopyAll(CopyAll(index, a), b) == CopyAll(index, a + b)
    decreases |b|
  {
    if b == [] {
      assert a + b == a;
    } else {
      CopyTogether(index, a, b[..|b| - 1]);
      assert (a + b)[..|a + b| - 1] == a + b[..|b| - 1];
    }
  }

  /** What the pass leaves: each row at its version or something newer, and no other document touched. */
  lemma {:induction false} CopyAllIsComplete(index: map<Id, Entry>, rows: seq<Row>)
    requires InIdOrder(rows)
    ensures forall i | 0 <= i < |rows| ::
              && rows[i].id in CopyAll(index, rows)
              && CopyAll(index, rows)[rows[i].id] ==
                   (if rows[i].id in index && index[rows[i].id].external > rows[i].version + 1 then index[rows[i].id]
                    else EntryOf(Put(rows[i].version)))
    ensures forall id | !Listed(rows, id) :: Map(CopyAll(index, rows), id) == Map(index, id)
  {
    if rows != [] {
      var front, last := rows[..|rows| - 1], rows[|rows| - 1];
      CopyAllIsComplete(index, front);
      assert !Listed(front, last.id);
      forall id | !Listed(rows, id) ensures !Listed(front, id) && id != last.id {
        assert forall i | 0 <= i < |front| :: front[i] == rows[i];
        assert rows[|rows| - 1].id == last.id;
      }
      forall i | 0 <= i < |rows|
        ensures rows[i].id in CopyAll(index, rows)
      {
        if i < |front| {
          assert front[i] == rows[i];
        }
      }
    }
  }
}
