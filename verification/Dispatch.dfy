/** Dispatching one event to its handlers through the inbox, and what the delivery layer makes of it. */
module Dispatch {
  import opened Shared
  import opened Inbox
  import opened KafkaRetry

  /** How a statement against the inbox store goes: it takes effect and says so, it is refused, or its reply is lost. */
  datatype Reply = Arrives | Refused | ReplyLost

  /** What the world does to one handler: its claim, its work, and the record of how that went. */
  datatype Turn = Turn(claim: Reply, works: bool, record: Reply)

  /** This very delivery is on record as done; another payload under the same event id is a collision. */
  predicate IsProcessed(rows: Rows, key: Key, identity: Identity) {
    key in rows && rows[key].identity == identity && rows[key].status.Processed?
  }

  /** The inbox would let the handler run: its row is new, failed, or under an expired lease. */
  predicate Admits(rows: Rows, key: Key, identity: Identity, now: Time) {
    key in rows ==>
      var row := rows[key];
      && row.identity == identity && !row.status.Processed?
      && (row.status.Processing? && row.leaseUntil.Some? ==> row.leaseUntil.value <= now)
  }

  function Attempts(rows: Rows, key: Key): nat {
    if key in rows then rows[key].attempts else 0
  }

  /** What one turn leaves of a subscribed handler's row. */
  ghost predicate Dispatched(was: Rows, rows: Rows, key: Key, identity: Identity, now: Time, turn: Turn) {
    if !Admits(was, key, identity, now) || turn.claim.Refused? then
      Map(rows, key) == Map(was, key)
    else
      && key in rows && rows[key].identity == identity && rows[key].attempts == Attempts(was, key) + 1
      && rows[key].status ==
           (if turn.claim.ReplyLost? || turn.record.Refused? then Processing
            else if turn.works then RowStatus.Processed else RowStatus.Failed)
      && (!rows[key].status.Processing? ==> rows[key].token.None? && rows[key].leaseUntil.None?)
  }

  ghost predicate Distinct(handlers: seq<Key>) {
    forall i, j | 0 <= i < j < |handlers| :: handlers[i] != handlers[j]
  }

  /**
   * One handler: claim, run, and record how it went. It reports no failure only if it is on record as done, and, when
   * every reply arrives, exactly then.
   */
  method Deliver(inbox: HandlerInbox, key: Key, identity: Identity, token: Token, now: Time, turn: Turn)
    returns (failed: bool, ran: bool)
    modifies inbox
    ensures Dispatched(old(inbox.rows), inbox.rows, key, identity, now, turn)
    ensures forall k | k != key :: Map(inbox.rows, k) == Map(old(inbox.rows), k)
    ensures ran <==> turn.claim.Arrives? && Admits(old(inbox.rows), key, identity, now)
    ensures !failed ==> IsProcessed(inbox.rows, key, identity)
    ensures turn.claim.Arrives? && turn.record.Arrives? ==> failed == !IsProcessed(inbox.rows, key, identity)
  {
    if turn.claim.Refused? {
      return true, false;
    }
    var claim := inbox.Claim(key, identity, token, now);
    if turn.claim.ReplyLost? {
      return true, false;
    }
    if claim == AlreadyProcessed {
      return false, false;
    }
    if claim != Claimed {
      return true, false;
    }
    ran, failed := true, true;
    if !turn.record.Refused? {
      if turn.works {
        var completed := inbox.Complete(key, token);
        failed := !(completed && turn.record.Arrives?);
      } else {
        var recorded := inbox.Fail(key, token);
      }
    }
  }

  /**
   * Every subscribed handler gets its chance, whatever the others do; one that was processed before does not run
   * again; and a dispatch without failures acknowledges nothing that is still owed.
   */
  method DispatchEvent(inbox: HandlerInbox, handlers: seq<Key>, identity: Identity, token: nat -> Token, now: Time,
                       turn: Key -> Turn)
    returns (failures: seq<Key>, ran: seq<Key>)
    requires Distinct(handlers)
    modifies inbox
    ensures forall h | h in handlers :: Dispatched(old(inbox.rows), inbox.rows, h, identity, now, turn(h))
    ensures forall k | k !in handlers :: Map(inbox.rows, k) == Map(old(inbox.rows), k)
    ensures forall h | h in handlers && h !in failures :: IsProcessed(inbox.rows, h, identity)
    ensures forall h | h in failures :: h in handlers &&
              (turn(h).claim.Arrives? && turn(h).record.Arrives? ==> !IsProcessed(inbox.rows, h, identity))
    ensures forall h :: h in ran <==> h in handlers && turn(h).claim.Arrives? && Admits(old(inbox.rows), h, identity, now)
    ensures Distinct(ran)
  {
    hide Dispatched;
    hide Admits;
    hide IsProcessed;
    failures, ran := [], [];
    ghost var was := inbox.rows;
    for i := 0 to |handlers|
      invariant forall h | h in handlers[..i] :: Dispatched(was, inbox.rows, h, identity, now, turn(h))
      invariant forall k | k !in handlers[..i] :: Map(inbox.rows, k) == Map(was, k)
      invariant forall h | h in handlers[..i] && h !in failures :: IsProcessed(inbox.rows, h, identity)
      invariant forall h | h in failures :: h in handlers[..i] &&
                  (turn(h).claim.Arrives? && turn(h).record.Arrives? ==> !IsProcessed(inbox.rows, h, identity))
      invariant forall h :: h in ran <==> h in handlers[..i] && turn(h).claim.Arrives? && Admits(was, h, identity, now)
      invariant Distinct(ran)
    {
      var h := handlers[i];
      ghost var before := inbox.rows;
      assert handlers[..i + 1] == handlers[..i] + [h] && h !in handlers[..i];
      var failed, admitted := Deliver(inbox, h, identity, token(i), now, turn(h));
      OthersKeep(was, before, inbox.rows, h, handlers[..i], identity, now, turn);
      if failed {
        failures := failures + [h];
      }
      if admitted {
        ran := ran + [h];
      }
    }
    assert handlers[..|handlers|] == handlers;
  }

  /** Delivering to one handler settles its own row and leaves what was said of the others true. */
  lemma OthersKeep(was: Rows, before: Rows, after: Rows, key: Key, others: seq<Key>, identity: Identity, now: Time,
                   turn: Key -> Turn)
    requires key !in others && Map(before, key) == Map(was, key)
    requires Dispatched(before, after, key, identity, now, turn(key))
    requires forall k | k != key :: Map(after, k) == Map(before, k)
    requires forall h | h in others :: Dispatched(was, before, h, identity, now, turn(h))
    ensures Dispatched(was, after, key, identity, now, turn(key))
    ensures Admits(was, key, identity, now) == Admits(before, key, identity, now)
    ensures forall h | h in others :: Dispatched(was, after, h, identity, now, turn(h))
    ensures forall h | h != key :: IsProcessed(after, h, identity) == IsProcessed(before, h, identity)
  {
    forall h | h in others ensures Dispatched(was, after, h, identity, now, turn(h)) {
      assert Map(after, h) == Map(before, h);
    }
    forall h | h != key ensures IsProcessed(after, h, identity) == IsProcessed(before, h, identity) {
      assert Map(after, h) == Map(before, h);
    }
  }

  /** What is on record as done stays so, whatever happens to the handlers. */
  ghost predicate DoneStays(was: Rows, rows: Rows, identity: Identity) {
    forall k | IsProcessed(was, k, identity) :: IsProcessed(rows, k, identity)
  }

  lemma DispatchingKeepsDone(was: Rows, rows: Rows, handlers: seq<Key>, identity: Identity, now: Time, turn: Key -> Turn)
    requires forall h | h in handlers :: Dispatched(was, rows, h, identity, now, turn(h))
    requires forall k | k !in handlers :: Map(rows, k) == Map(was, k)
    ensures DoneStays(was, rows, identity)
  {
    forall k | IsProcessed(was, k, identity) ensures IsProcessed(rows, k, identity) {
      assert Map(rows, k) == Map(was, k);
    }
  }

  /** One outbox message: nothing to do, an event contract this version does not know, or an event to dispatch. */
  datatype Message = Tombstone | Unsupported(quarantines: bool, stored: bool) | Known(durable: bool)

  /** The ways one invocation for a message can end. */
  predicate Possible(m: Message, o: Outcome) {
    match m
    case Tombstone => o.Succeeds?
    case Unsupported(quarantines, _) => o.Unrecoverable? || (quarantines && (o.DurableFailure? || o.TimedOut?))
    case Known(true) => o.Succeeds? || o.DurableFailure? || o.TimedOut?
    case Known(false) => o.Succeeds? || o.TransientFailure? || o.TimedOut?
  }

  /** The timeout strikes while this handler is served, before or after its claim. */
  datatype Cut = Cut(handler: nat, claimed: bool)

  /**
   * Success means every handler is on record as done; unrecoverable means the contract is unknown and, if there is a
   * quarantine, safely stored there. An error of a durable transition is wrapped as durable, but a timeout cancels
   * the message from outside and is not: the handlers before the cut keep their records, those after it are untouched.
   */
  method ProcessMessage(inbox: HandlerInbox, m: Message, handlers: seq<Key>, identity: Identity, token: nat -> Token, now: Time,
                        turn: Key -> Turn, cut: Option<Cut>) returns (o: Outcome)
    requires Distinct(handlers) && (cut.Some? && m.Known? ==> cut.value.handler < |handlers|)
    modifies inbox
    ensures Possible(m, o)
    ensures o.TimedOut? <==> cut.Some? && (m.Known? || (m.Unsupported? && m.quarantines))
    ensures o.Succeeds? && m.Known? ==> forall h | h in handlers :: IsProcessed(inbox.rows, h, identity)
    ensures m.Known? && cut.None? && (forall h | h in handlers :: turn(h).claim.Arrives? && turn(h).record.Arrives?) ==>
              (o.Succeeds? <==> forall h | h in handlers :: IsProcessed(inbox.rows, h, identity))
    ensures o.Unrecoverable? <==> m.Unsupported? && (m.quarantines ==> cut.None? && m.stored)
    ensures !m.Known? ==> inbox.rows == old(inbox.rows)
    ensures DoneStays(old(inbox.rows), inbox.rows, identity)
    ensures m.Known? && cut.Some? ==>
              && (forall i | 0 <= i < cut.value.handler ::
                    Dispatched(old(inbox.rows), inbox.rows, handlers[i], identity, now, turn(handlers[i])))
              && Dispatched(old(inbox.rows), inbox.rows, handlers[cut.value.handler], identity, now,
                            Turn(if cut.value.claimed then ReplyLost else Refused, false, Refused))
              && (forall k | k !in handlers[..cut.value.handler + 1] :: Map(inbox.rows, k) == Map(old(inbox.rows), k))
  {
    match m {
      case Tombstone =>
        return Succeeds;
      case Unsupported(quarantines, stored) =>
        if quarantines && cut.Some? {
          return TimedOut;
        }
        if quarantines && !stored {
          return DurableFailure;
        }
        return Unrecoverable;
      case Known(durable) =>
        if cut.Some? {
          DispatchUntil(inbox, handlers, identity, token, now, turn, cut.value);
          return TimedOut;
        }
        var failures, ran := DispatchEvent(inbox, handlers, identity, token, now, turn);
        DispatchingKeepsDone(old(inbox.rows), inbox.rows, handlers, identity, now, turn);
        if failures == [] {
          assert forall h | h in handlers :: h !in failures;
          return Succeeds;
        }
        var owed := failures[0];
        assert owed in failures;
        return if durable then DurableFailure else TransientFailure;
    }
  }

  /** A dispatch cancelled at the cut: the claim of the handler being served may have been granted or not. */
  method DispatchUntil(inbox: HandlerInbox, handlers: seq<Key>, identity: Identity, token: nat -> Token, now: Time,
                       turn: Key -> Turn, cut: Cut)
    requires Distinct(handlers) && cut.handler < |handlers|
    modifies inbox
    ensures forall i | 0 <= i < cut.handler :: Dispatched(old(inbox.rows), inbox.rows, handlers[i], identity, now, turn(handlers[i]))
    ensures Dispatched(old(inbox.rows), inbox.rows, handlers[cut.handler], identity, now,
                       Turn(if cut.claimed then ReplyLost else Refused, false, Refused))
    ensures forall k | k !in handlers[..cut.handler + 1] :: Map(inbox.rows, k) == Map(old(inbox.rows), k)
    ensures DoneStays(old(inbox.rows), inbox.rows, identity)
  {
    var failures, ran := DispatchEvent(inbox, handlers[..cut.handler], identity, token, now, turn);
    ghost var before := inbox.rows;
    DispatchingKeepsDone(old(inbox.rows), before, handlers[..cut.handler], identity, now, turn);
    assert handlers[..cut.handler + 1] == handlers[..cut.handler] + [handlers[cut.handler]];
    if cut.claimed {
      var claim := inbox.Claim(handlers[cut.handler], identity, token(cut.handler), now);
    }
    forall i | 0 <= i < cut.handler ensures Dispatched(old(inbox.rows), inbox.rows, handlers[i], identity, now, turn(handlers[i])) {
      assert handlers[i] in handlers[..cut.handler] && Map(inbox.rows, handlers[i]) == Map(before, handlers[i]);
    }
  }

  // ---- What ends on the dead-letter topic ----

  /** Every invocation for the record is one that its message allows. */
  ghost predicate Delivers(w: World, m: Message) {
    forall k: nat :: Possible(m, w.attempts(k).outcome)
  }

  /**
   * A durable transition is parked if and only if the consumer does not retry forever, no invocation succeeded, the
   * last one allowed timed out, and the parking got through. On the workflow consumer, which retries forever, it never
   * is. It is handled if and only if some invocation succeeded.
   */
  lemma DurableParkedExactly(c: Config, w: World, retryForever: bool, parkUnrecoverable: bool)
    requires Delivers(w, Known(true))
    ensures Verdict(c, w, retryForever, parkUnrecoverable).Handled? <==>
              exists k | 0 <= k <= c.maxRetries :: w.attempts(k).outcome.Succeeds?
    ensures Verdict(c, w, retryForever, parkUnrecoverable).Parked? <==>
              && !retryForever && w.attempts(c.maxRetries).outcome.TimedOut? && w.parking.delivered
              && forall k | 0 <= k < c.maxRetries :: !w.attempts(k).outcome.Succeeds?
  {
    var last := LastCall(w, c.maxRetries, 0);
    assert Possible(Known(true), w.attempts(last).outcome);
    forall k | 0 <= k < last ensures !w.attempts(k).outcome.Succeeds? {
      assert !Final(w.attempts(k).outcome);
    }
  }

  /**
   * Any other known event is handled if and only if some invocation succeeded. If none did it is parked, provided the
   * consumer does not retry forever and the parking gets through, and raised otherwise.
   */
  lemma TransientParkedExactly(c: Config, w: World, retryForever: bool, parkUnrecoverable: bool)
    requires Delivers(w, Known(false))
    ensures Verdict(c, w, retryForever, parkUnrecoverable).Handled? <==>
              exists k | 0 <= k <= c.maxRetries :: w.attempts(k).outcome.Succeeds?
    ensures Verdict(c, w, retryForever, parkUnrecoverable).Parked? <==>
              !retryForever && w.parking.delivered && forall k | 0 <= k <= c.maxRetries :: !w.attempts(k).outcome.Succeeds?
  {
    var last := LastCall(w, c.maxRetries, 0);
    assert Possible(Known(false), w.attempts(last).outcome);
    forall k | 0 <= k < last ensures !w.attempts(k).outcome.Succeeds? {
      assert !Final(w.attempts(k).outcome);
    }
    assert last < c.maxRetries ==> Final(w.attempts(last).outcome);
  }

  /** Every invocation runs into its timeout. */
  function Hanging(c: Config): World {
    World((_: nat) => Attempt(TimedOut, c.timeout), Parking(true, 0.0))
  }

  /** A durable transition that always times out is parked by a consumer that does not retry forever. */
  lemma HangingDurableIsParked(c: Config, parkUnrecoverable: bool)
    requires c.timeout > 0.0
    ensures Bounded(Hanging(c), c) && Delivers(Hanging(c), Known(true))
    ensures Verdict(c, Hanging(c), false, parkUnrecoverable) == Parked
    ensures Verdict(c, Hanging(c), true, parkUnrecoverable) == Raised
  {
    assert Hanging(c).attempts(LastCall(Hanging(c), c.maxRetries, 0)).outcome == TimedOut;
  }

  /**
   * An unknown contract is never handled. Once some invocation found it unrecoverable, and had it safely quarantined
   * if there is a quarantine, it is parked exactly if that is wanted; otherwise exactly if the last invocation timed
   * out on a consumer that does not retry forever.
   */
  lemma UnsupportedParkedExactly(c: Config, w: World, retryForever: bool, parkUnrecoverable: bool, quarantines: bool, stored: bool)
    requires Delivers(w, Unsupported(quarantines, stored))
    ensures !Verdict(c, w, retryForever, parkUnrecoverable).Handled?
    ensures Verdict(c, w, retryForever, parkUnrecoverable).Parked? <==>
              && w.parking.delivered
              && if exists k | 0 <= k <= c.maxRetries :: w.attempts(k).outcome.Unrecoverable? then parkUnrecoverable
                 else !retryForever && w.attempts(c.maxRetries).outcome.TimedOut?
  {
    var last := LastCall(w, c.maxRetries, 0);
    assert Possible(Unsupported(quarantines, stored), w.attempts(last).outcome);
    forall k | 0 <= k < last ensures !w.attempts(k).outcome.Unrecoverable? {
      assert !Final(w.attempts(k).outcome);
    }
  }
}
