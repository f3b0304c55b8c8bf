/** The reservation reaper: bounded batches of expired semantic locks, drained until a batch is not full. */
module Reaper {
  import opened Shared
  import Catalog
  import opened Saga
  import opened SagaSafety
  import opened SagaSteps
  import opened SagaTheorems
  import opened Workflow

  predicate IsExpired(b: Catalog.BookState, cutoff: Time) {
    b.status == Catalog.Reserved && b.reservedAt.Some? && b.reservedAt.value < cutoff
  }

  function Expired(books: map<BookId, Catalog.BookState>, cutoff: Time): set<BookId> {
    set b | b in books && IsExpired(books[b], cutoff)
  }

  /** The expired rows no other transaction holds: a batch skips the locked ones instead of waiting. */
  function Free(books: map<BookId, Catalog.BookState>, cutoff: Time, locked: set<BookId>): set<BookId> {
    Expired(books, cutoff) - locked
  }

  /** What releasing leaves of a reserved row. */
  function ReleasedRow(b: Catalog.BookState): Catalog.BookState {
    b.(status := Catalog.Available, reservedAt := None, borrowedAt := None, returnDueDate := None, version := b.version + 1)
  }

  /** Exactly these books were released; every other row is untouched. */
  ghost predicate Swept(was: map<BookId, Catalog.BookState>, now: map<BookId, Catalog.BookState>, ids: set<BookId>) {
    && now.Keys == was.Keys && ids <= was.Keys
    && forall b | b in was :: now[b] == if b in ids then ReleasedRow(was[b]) else was[b]
  }

  /** Exactly these books were released, each of them reserved before the deadline; every other row is as it was. */
  ghost predicate OverdueReleased(was: map<BookId, Catalog.BookState>, now: map<BookId, Catalog.BookState>, deadline: Time,
                                  ids: set<BookId>) {
    && now.Keys == was.Keys && ids <= was.Keys
    && (forall b | b in ids ::
          && was[b].status == Catalog.Reserved && was[b].reservedAt.Some? && was[b].reservedAt.value < deadline
          && now[b].status == Catalog.Available && now[b].reservedAt == None && now[b].version == was[b].version + 1
          && (now[b].title, now[b].reservationId, now[b].generation, now[b].patronId, now[b].email, now[b].lastCompletedLoanId) ==
             (was[b].title, was[b].reservationId, was[b].generation, was[b].patronId, was[b].email, was[b].lastCompletedLoanId)
          && (now[b].borrowedAt, now[b].returnDueDate, now[b].currentLoanId) == (None, None, was[b].currentLoanId))
    && (forall b | b in was && b !in ids :: now[b] == was[b])
  }

  /** Whatever is still reserved from before the deadline is among these rows. */
  ghost predicate OverdueOnly(books: map<BookId, Catalog.BookState>, deadline: Time, among: set<BookId>) {
    forall b | b in books && books[b].status == Catalog.Reserved && books[b].reservedAt.Some? && books[b].reservedAt.value < deadline ::
      b in among
  }

  /** ORDER BY reserved_at, id. */
  predicate Before(books: map<BookId, Catalog.BookState>, a: BookId, b: BookId)
    requires a in books && b in books
  {
    books[a].reservedAt.Some? && books[b].reservedAt.Some? &&
    (books[a].reservedAt.value < books[b].reservedAt.value || (books[a].reservedAt == books[b].reservedAt && a <= b))
  }

  lemma {:induction false} FirstExists(books: map<BookId, Catalog.BookState>, ids: set<BookId>) returns (first: BookId)
    requires ids != {} && forall b | b in ids :: b in books && books[b].reservedAt.Some?
    ensures first in ids && forall b | b in ids :: Before(books, first, b)
  {
    var candidate :| candidate in ids;
    var rest := ids - {candidate};
    if rest == {} {
      first := candidate;
      assert ids == {candidate};
    } else {
      var other := FirstExists(books, rest);
      first := if Before(books, candidate, other) then candidate else other;
      forall b | b in ids ensures Before(books, first, b) {
        assert b == candidate || b in rest;
      }
    }
  }

  lemma FreeRows(books: map<BookId, Catalog.BookState>, cutoff: Time, locked: set<BookId>)
    ensures forall b | b in Free(books, cutoff, locked) :: b in books && books[b].reservedAt.Some?
  {
  }

  /** Distinct rows reserved before the deadline and not locked, oldest first; none older is left out, and none at all below the limit. */
  ghost predicate OldestOverdue(books: map<BookId, Catalog.BookState>, deadline: Time, limit: nat, locked: set<BookId>, ids: seq<BookId>) {
    && |ids| <= limit
    && (forall i | 0 <= i < |ids| ::
          && ids[i] in books && ids[i] !in locked && books[ids[i]].status == Catalog.Reserved
          && books[ids[i]].reservedAt.Some? && books[ids[i]].reservedAt.value < deadline)
    && (forall i, j | 0 <= i < j < |ids| ::
          var a, b := books[ids[i]].reservedAt.value, books[ids[j]].reservedAt.value;
          a < b || (a == b && ids[i] < ids[j]))
    && (forall b | b in books && b !in locked && b !in ids && books[b].status == Catalog.Reserved
                   && books[b].reservedAt.Some? && books[b].reservedAt.value < deadline ::
          && |ids| == limit
          && forall i | 0 <= i < |ids| ::
               var a := books[ids[i]].reservedAt.value;
               a < books[b].reservedAt.value || (a == books[b].reservedAt.value && ids[i] < b))
  }

  lemma BatchIsOldest(books: map<BookId, Catalog.BookState>, cutoff: Time, limit: nat, locked: set<BookId>, ids: seq<BookId>)
    requires |ids| <= limit && (|ids| < limit ==> forall b | b in Free(books, cutoff, locked) :: b in ids)
    requires forall i | 0 <= i < |ids| :: ids[i] in books && ids[i] in Free(books, cutoff, locked)
    requires forall i, j | 0 <= i < j < |ids| :: ids[i] != ids[j] && Before(books, ids[i], ids[j])
    requires forall i, b | 0 <= i < |ids| && b in Free(books, cutoff, locked) && b !in ids :: Before(books, ids[i], b)
    ensures OldestOverdue(books, cutoff, limit, locked, ids)
  {
    forall b | b in books && b !in locked && b !in ids && books[b].status == Catalog.Reserved
               && books[b].reservedAt.Some? && books[b].reservedAt.value < cutoff
      ensures b in Free(books, cutoff, locked) && b !in ids
    {
    }
  }

  /** Selects one deterministic batch: the oldest expired reservations first, passing over locked rows. */
  method FindExpired(books: map<BookId, Catalog.BookState>, cutoff: Time, limit: nat, locked: set<BookId>)
    returns (ids: seq<BookId>)
    ensures |ids| == if |Free(books, cutoff, locked)| < limit then |Free(books, cutoff, locked)| else limit
    ensures forall i | 0 <= i < |ids| :: ids[i] in Free(books, cutoff, locked)
    ensures OldestOverdue(books, cutoff, limit, locked, ids)
    ensures forall i, j | 0 <= i < j < |ids| :: ids[i] != ids[j] && Before(books, ids[i], ids[j])
    ensures forall i, b | 0 <= i < |ids| && b in Free(books, cutoff, locked) && b !in ids :: Before(books, ids[i], b)
  {
    var rest := Free(books, cutoff, locked);
    FreeRows(books, cutoff, locked);
    hide Free;
    hide Before;
    ids := [];
    while rest != {} && |ids| < limit
      invariant rest <= Free(books, cutoff, locked) && |ids| <= limit
      invariant |ids| + |rest| == |Free(books, cutoff, locked)|
      invariant forall b :: b in Free(books, cutoff, locked) <==> b in rest || b in ids
      invariant forall i | 0 <= i < |ids| :: ids[i] in Free(books, cutoff, locked) && ids[i] !in rest
      invariant forall i, j | 0 <= i < j < |ids| :: ids[i] != ids[j] && Before(books, ids[i], ids[j])
      invariant forall i, b | 0 <= i < |ids| && b in rest :: Before(books, ids[i], b)
    {
      ghost var earliest := FirstExists(books, rest);
      var next :| next in rest && forall b | b in rest :: Before(books, next, b);
      ids := ids + [next];
      rest := rest - {next};
    }
    BatchIsOldest(books, cutoff, limit, locked, ids);
  }

  /** One release announced for each of these books, and nothing else. */
  ghost predicate Announces(was: seq<Event>, now: seq<Event>, ids: set<BookId>) {
    && was <= now && |now| == |was| + |ids|
    && (forall i | |was| <= i < |now| :: now[i].BookReleased? && now[i].claim.book in ids)
    && (forall i, j | |was| <= i < j < |now| :: now[i].claim.book != now[j].claim.book)
  }

  lemma AnnouncesNothing(log: seq<Event>)
    ensures Announces(log, log, {})
  {
  }

  lemma AnnouncesTogether(a: seq<Event>, b: seq<Event>, c: seq<Event>, first: set<BookId>, second: set<BookId>)
    requires Announces(a, b, first) && Announces(b, c, second) && first !! second
    ensures Announces(a, c, first + second)
  {
    forall i | |a| <= i < |c| ensures c[i].BookReleased? && c[i].claim.book in if i < |b| then first else second {
      assert i < |b| ==> c[i] == b[i];
    }
    forall i, j | |a| <= i < j < |c| ensures c[i].claim.book != c[j].claim.book {
      assert i < |b| ==> c[i] == b[i];
      assert j < |b| ==> c[j] == b[j];
    }
  }

  datatype Batch = Batch(releasedCount: nat, batchFull: bool)

  /** The reaper's own release never meets a stale claim or a missing operation row. */
  method ReleaseOne(stores: Stores, b: BookId) returns (changed: bool)
    requires Inv(stores.View()) && b in stores.books && stores.books[b].status == Catalog.Reserved
    modifies stores
    ensures changed && Inv(stores.View())
    ensures stores.books == old(stores.books)[b := ReleasedRow(old(stores.books[b]))]
    ensures stores.loans == old(stores.loans) && stores.patrons == old(stores.patrons)
    ensures Announces(old(stores.log), stores.log, {b})
  {
    InvImpliesRowsValid(stores.View());
    ReapStep(stores.View(), Reap(b));
    var r := stores.ReleaseBookReservation(ClaimOf(stores.books[b], b));
    changed := r == Ok(true);
  }

  /** One bounded batch, one commit. The ghost result names the books it released. */
  method ReleaseExpiredReservations(stores: Stores, now: Time, ttl: int, batchSize: int, locked: set<BookId>)
    returns (r: Result<Batch>, ghost ids: set<BookId>)
    requires Inv(stores.View())
    modifies stores
    ensures Inv(stores.View()) && stores.loans == old(stores.loans) && stores.patrons == old(stores.patrons)
    ensures ids !! locked && ReleasedOnly(old(stores.books), stores.books, now - ttl, ids)
    ensures OverdueReleased(old(stores.books), stores.books, now - ttl, ids) && Announces(old(stores.log), stores.log, ids)
    ensures r.Ok? && !r.value.batchFull ==> OverdueOnly(stores.books, now - ttl, locked)
    ensures r.Err? <==> ttl <= 0 || !(1 <= batchSize <= 1000)
    ensures r.Err? ==> unchanged(stores) && ids == {}
    ensures r.Ok? ==>
              && r.value.releasedCount == |ids|
              && (if r.value.batchFull then |ids| == batchSize else ids == Free(old(stores.books), now - ttl, locked))
  {
    ids := {};
    if ttl <= 0 || !(1 <= batchSize <= 1000) {
      return Err(InvalidArgument), {};
    }
    var expired := FindExpired(stores.books, now - ttl, batchSize, locked);
    var released;
    released, ids := ReleaseBatch(stores, expired);
    AllOrFull(expired, Free(old(stores.books), now - ttl, locked), ids);
    ReleasedOnRows(old(stores.books), stores.books, now - ttl, ids);
    LeftOnRows(old(stores.books), stores.books, now - ttl, ids, locked);
    return Ok(Batch(released, |expired| == batchSize)), ids;
  }

  /** One release more. */
  lemma SweptOneMore(a: map<BookId, Catalog.BookState>, b: map<BookId, Catalog.BookState>, ids: set<BookId>, next: BookId)
    requires Swept(a, b, ids) && next in a && next !in ids
    ensures Swept(a, b[next := ReleasedRow(b[next])], ids + {next})
  {
  }

  method ReleaseBatch(stores: Stores, batch: seq<BookId>) returns (released: nat, ghost ids: set<BookId>)
    requires Inv(stores.View())
    requires forall i | 0 <= i < |batch| :: batch[i] in stores.books && stores.books[batch[i]].status == Catalog.Reserved
    requires forall i, j | 0 <= i < j < |batch| :: batch[i] != batch[j]
    modifies stores
    ensures Inv(stores.View()) && stores.loans == old(stores.loans) && stores.patrons == old(stores.patrons)
    ensures released == |batch| == |ids| && forall b :: b in ids <==> b in batch
    ensures Swept(old(stores.books), stores.books, ids) && Announces(old(stores.log), stores.log, ids)
  {
    hide Announces;
    hide Inv;
    hide Swept;
    hide ReleasedRow;
    ids := {};
    released := 0;
    SweptNothing(stores.books);
    AnnouncesNothing(stores.log);
    for i := 0 to |batch|
      invariant Inv(stores.View()) && stores.loans == old(stores.loans) && stores.patrons == old(stores.patrons)
      invariant released == i == |ids|
      invariant forall b :: b in ids <==> b in batch[..i]
      invariant Swept(old(stores.books), stores.books, ids) && stores.books.Keys == old(stores.books.Keys)
      invariant forall j | i <= j < |batch| :: stores.books[batch[j]].status == Catalog.Reserved
      invariant Announces(old(stores.log), stores.log, ids)
    {
      ghost var before := stores.log;
      assert batch[i] !in ids && batch[..i + 1] == batch[..i] + [batch[i]];
      SweptOneMore(old(stores.books), stores.books, ids, batch[i]);
      var changed := ReleaseOne(stores, batch[i]);
      AnnouncesTogether(old(stores.log), before, stores.log, ids, {batch[i]});
      if changed {
        released := released + 1;
        ids := ids + {batch[i]};
      }
    }
    assert batch[..|batch|] == batch;
  }

  /** A batch shorter than the limit has taken everything. */
  lemma AllOrFull(batch: seq<BookId>, all: set<BookId>, done: set<BookId>)
    requires forall b :: b in done <==> b in batch
    requires forall b | b in batch :: b in all
    requires |done| == |batch|
    ensures |batch| == |all| ==> done == all
  {
    if |batch| == |all| && done != all {
      var missing :| missing in all && missing !in done;
      SubsetIsSmaller(done, all - {missing});
    }
  }

  /** What was released were expired reservations, and everything else is still as it was. */
  ghost predicate ReleasedOnly(was: map<BookId, Catalog.BookState>, now: map<BookId, Catalog.BookState>, cutoff: Time,
                               ids: set<BookId>) {
    ids <= Expired(was, cutoff) && Swept(was, now, ids)
  }

  /** Two sweeps in a row are one sweep of both sets, and each row swept leaves the set of expired ones. */
  lemma SweptTwice(a: map<BookId, Catalog.BookState>, b: map<BookId, Catalog.BookState>, c: map<BookId, Catalog.BookState>,
                   first: set<BookId>, second: set<BookId>, cutoff: Time)
    requires ReleasedOnly(a, b, cutoff, first) && ReleasedOnly(b, c, cutoff, second)
    ensures first !! second && ReleasedOnly(a, c, cutoff, first + second) && |first + second| == |first| + |second|
    ensures Expired(c, cutoff) == Expired(b, cutoff) - second
    ensures |Expired(c, cutoff)| == |Expired(b, cutoff)| - |second|
  {
    assert first !! second;
    assert Expired(c, cutoff) !! second && Expired(c, cutoff) + second == Expired(b, cutoff);
  }

  /** The same, read off the rows. */
  lemma ReleasedOnRows(was: map<BookId, Catalog.BookState>, now: map<BookId, Catalog.BookState>, cutoff: Time, ids: set<BookId>)
    requires ReleasedOnly(was, now, cutoff, ids)
    ensures OverdueReleased(was, now, cutoff, ids)
  {
  }

  lemma LeftOnRows(was: map<BookId, Catalog.BookState>, now: map<BookId, Catalog.BookState>, cutoff: Time, ids: set<BookId>,
                   locked: set<BookId>)
    requires ReleasedOnly(was, now, cutoff, ids)
    ensures Free(was, cutoff, locked) <= ids ==> OverdueOnly(now, cutoff, locked)
    ensures Expired(now, cutoff) <= locked ==> OverdueOnly(now, cutoff, locked)
  {
    forall b | b in now && b !in locked && now[b].status == Catalog.Reserved && now[b].reservedAt.Some? && now[b].reservedAt.value < cutoff
      ensures b in Free(was, cutoff, locked) && b !in ids && b in Expired(now, cutoff)
    {
    }
  }

  lemma ReleasedLeaves(was: map<BookId, Catalog.BookState>, now: map<BookId, Catalog.BookState>, cutoff: Time, ids: set<BookId>)
    requires ReleasedOnly(was, now, cutoff, ids)
    ensures Expired(now, cutoff) == Expired(was, cutoff) - ids
  {
  }

  lemma SweptNothing(a: map<BookId, Catalog.BookState>)
    ensures Swept(a, a, {}) && forall cutoff :: ReleasedOnly(a, a, cutoff, {})
  {
  }

  /**
   * Drains one sweep. `locked` names the rows other transactions hold while each batch runs. With the clock standing
   * still it ends for every batch size, having released expired reservations only, each once, and left nothing expired
   * behind but rows locked during its last batch; it reports how many it released.
   */
  method ReleaseAllExpired(stores: Stores, now: Time, ttl: int, batchSize: int, locked: nat -> set<BookId>)
    returns (r: Result<nat>, ghost ids: set<BookId>, ghost last: nat)
    requires Inv(stores.View())
    modifies stores
    ensures Inv(stores.View()) && stores.loans == old(stores.loans) && stores.patrons == old(stores.patrons)
    ensures r.Err? <==> ttl <= 0 || !(1 <= batchSize <= 1000)
    ensures r.Err? ==> stores.books == old(stores.books)
    ensures r.Ok? ==>
              && ReleasedOnly(old(stores.books), stores.books, now - ttl, ids) && r.value == |ids|
              && Expired(stores.books, now - ttl) == Expired(old(stores.books), now - ttl) - ids
              && Expired(stores.books, now - ttl) <= locked(last)
    ensures r.Ok? ==>
              && OverdueReleased(old(stores.books), stores.books, now - ttl, ids) && OverdueOnly(stores.books, now - ttl, locked(last))
              && Announces(old(stores.log), stores.log, ids)
  {
    hide Inv;
    hide ReleasedOnly;
    hide Expired;
    hide OverdueReleased;
    hide Announces;
    hide OverdueOnly;
    var cutoff := now - ttl;
    var released := 0;
    ids := {};
    last := 0;
    var i := 0;
    ghost var start := stores.books;
    ghost var logged := stores.log;
    SweptNothing(start);
    AnnouncesNothing(logged);
    while true
      invariant Inv(stores.View()) && stores.loans == old(stores.loans) && stores.patrons == old(stores.patrons)
      invariant released == |ids| && ReleasedOnly(start, stores.books, cutoff, ids) && Announces(logged, stores.log, ids)
      invariant ttl <= 0 || !(1 <= batchSize <= 1000) ==> stores.books == start
      decreases |Expired(stores.books, cutoff)|
    {
      ghost var before := stores.books;
      ghost var beforeLog := stores.log;
      var batch;
      ghost var some;
      batch, some := ReleaseExpiredReservations(stores, now, ttl, batchSize, locked(i));
      if batch.Err? {
        return Err(batch.error), ids, i;
      }
      SweptTwice(start, before, stores.books, ids, some, cutoff);
      AnnouncesTogether(logged, beforeLog, stores.log, ids, some);
      ids := ids + some;
      released := released + batch.value.releasedCount;
      if !batch.value.batchFull {
        ReleasedLeaves(start, stores.books, cutoff, ids);
        ReleasedOnRows(start, stores.books, cutoff, ids);
        LeftOnRows(start, stores.books, cutoff, ids, locked(i));
        return Ok(released), ids, i;
      }
      i := i + 1;
    }
  }
}
