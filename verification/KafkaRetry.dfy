/** The consumer's bounded retry loop, the poll budget its constructor checks, and what a committed offset means. */
module KafkaRetry {
  import opened Shared

  const MAX_PROCESSING_TIMEOUT: real := 240.0
  const PARK_TIMEOUT: real := 60.0
  const MAX_BACKOFF: real := 60.0

  datatype Config = Config(maxRetries: nat, backoff: real, maxPollMs: int, timeout: real)

  function Pow2(n: nat): nat {
    if n == 0 then 1 else 2 * Pow2(n - 1)
  }

  /** min(backoff * 2 ** min(attempt, 10), 60) */
  function Delay(backoff: real, attempt: nat): real {
    var grown := backoff * Pow2(if attempt < 10 then attempt else 10) as real;
    if grown < MAX_BACKOFF then grown else MAX_BACKOFF
  }

  /** All the sleeping that `retries` retries can do. */
  function Delays(backoff: real, retries: nat): real {
    if retries == 0 then 0.0 else Delays(backoff, retries - 1) + Delay(backoff, retries - 1)
  }

  /** Time `calls` invocations may take. */
  function Work(timeout: real, calls: nat): real {
    timeout * calls as real
  }

  function Budget(c: Config): real {
    Work(c.timeout, c.maxRetries + 1) + Delays(c.backoff, c.maxRetries) + PARK_TIMEOUT + 5.0
  }

  predicate Acceptable(maxRetries: int, backoff: real, maxPollMs: int, timeout: real) {
    && maxRetries >= 0 && backoff >= 0.0 && maxPollMs >= 1000
    && 0.0 < timeout <= MAX_PROCESSING_TIMEOUT
    && Budget(Config(maxRetries, backoff, maxPollMs, timeout)) * 1000.0 < maxPollMs as real
  }

  /** The constructor's checks, with the generator sum as the loop it is. */
  method NewClient(maxRetries: int, backoff: real, maxPollMs: int, timeout: real) returns (r: Result<Config>)
    ensures r.Ok? <==> Acceptable(maxRetries, backoff, maxPollMs, timeout)
    ensures r.Ok? ==> r.value == Config(maxRetries, backoff, maxPollMs, timeout)
  {
    if maxRetries < 0 || backoff < 0.0 || maxPollMs < 1000 || timeout <= 0.0 || timeout > MAX_PROCESSING_TIMEOUT {
      return Err(InvalidArgument);
    }
    var delays := 0.0;
    for attempt := 0 to maxRetries
      invariant delays == Delays(backoff, attempt)
    {
      delays := delays + Delay(backoff, attempt);
    }
    var budget := timeout * (maxRetries + 1) as real + delays + PARK_TIMEOUT + 5.0;
    if budget * 1000.0 >= maxPollMs as real {
      return Err(InvalidArgument);
    }
    return Ok(Config(maxRetries, backoff, maxPollMs, timeout));
  }

  /**
   * How one invocation of the handler ends. A timeout cancels it from outside, so whatever error the handler would
   * have wrapped never appears: the loop sees a bare timeout.
   */
  datatype Outcome = Succeeds | Unrecoverable | DurableFailure | TransientFailure | TimedOut

  datatype Attempt = Attempt(outcome: Outcome, duration: real)

  datatype Parking = Parking(delivered: bool, duration: real)

  /** What becomes of one record: settled (and its offset committed), or raised out of the worker. */
  datatype Disposition = Handled | Parked | Raised

  /** What the outside world does during one delivery of one record. */
  datatype World = World(attempts: nat -> Attempt, parking: Parking)

  /** wait_for bounds every invocation and every parking. */
  ghost predicate Bounded(w: World, c: Config) {
    && (forall k: nat :: 0.0 <= w.attempts(k).duration <= c.timeout)
    && 0.0 <= w.parking.duration <= PARK_TIMEOUT
  }

  predicate Final(o: Outcome) {
    o.Succeeds? || o.Unrecoverable?
  }

  predicate Parks(o: Outcome, retryForever: bool, parkUnrecoverable: bool) {
    match o
    case Succeeds => false
    case Unrecoverable => parkUnrecoverable
    case DurableFailure => false
    case TransientFailure => !retryForever
    case TimedOut => !retryForever
  }

  /** The invocation that decides: the first final one from k on, or the one that uses up the retries. */
  function LastCall(w: World, maxRetries: nat, k: nat): (last: nat)
    requires k <= maxRetries
    ensures k <= last <= maxRetries && (last < maxRetries ==> Final(w.attempts(last).outcome))
    ensures forall j | k <= j < last :: !Final(w.attempts(j).outcome)
    decreases maxRetries - k
  {
    if Final(w.attempts(k).outcome) || k == maxRetries then k else LastCall(w, maxRetries, k + 1)
  }

  /** What becomes of a record, by the last invocation alone. */
  function Verdict(c: Config, w: World, retryForever: bool, parkUnrecoverable: bool): Disposition {
    var last := w.attempts(LastCall(w, c.maxRetries, 0)).outcome;
    if last.Succeeds? then Handled
    else if Parks(last, retryForever, parkUnrecoverable) && w.parking.delivered then Parked
    else Raised
  }

  /** Nothing but the first final invocation, or the last one allowed, can be the last. */
  lemma {:induction false} LastCallIsUnique(w: World, maxRetries: nat, k: nat, last: nat)
    requires k <= last <= maxRetries && (forall j | k <= j < last :: !Final(w.attempts(j).outcome))
    requires last == maxRetries || Final(w.attempts(last).outcome)
    ensures LastCall(w, maxRetries, k) == last
    decreases maxRetries - k
  {
    if k < last {
      LastCallIsUnique(w, maxRetries, k + 1, last);
    }
  }

  /** The handler only ever succeeds, fails in passing or hangs: nothing about it is unrecoverable or durable. */
  predicate NothingDurable(w: World, maxRetries: nat) {
    forall k | 0 <= k <= maxRetries ::
      w.attempts(k).outcome.Succeeds? || w.attempts(k).outcome.TransientFailure? || w.attempts(k).outcome.TimedOut?
  }

  /** Time spent before and in the first `calls` invocations. */
  function Spent(w: World, c: Config, calls: nat): real {
    if calls == 0 then 0.0
    else Spent(w, c, calls - 1) + (if calls == 1 then 0.0 else Delay(c.backoff, calls - 2)) + w.attempts(calls - 1).duration
  }

  lemma {:induction false} SpentIsBounded(w: World, c: Config, calls: nat)
    requires Bounded(w, c) && calls >= 1
    ensures Spent(w, c, calls) <= Work(c.timeout, calls) + Delays(c.backoff, calls - 1)
  {
    if calls > 1 {
      SpentIsBounded(w, c, calls - 1);
      assert c.timeout * calls as real == c.timeout * (calls - 1) as real + c.timeout;
    } else {
      assert Spent(w, c, 0) == 0.0;
    }
  }

  lemma {:induction false} DelaysGrow(backoff: real, few: nat, many: nat)
    requires backoff >= 0.0 && few <= many
    ensures Delays(backoff, few) <= Delays(backoff, many)
    decreases many
  {
    if few < many {
      DelaysGrow(backoff, few, many - 1);
      DelayIsPositive(backoff, many - 1);
    }
  }

  lemma DelayIsPositive(backoff: real, attempt: nat)
    requires backoff >= 0.0
    ensures 0.0 <= Delay(backoff, attempt) <= MAX_BACKOFF
  {
  }

  /** The wait doubles from one retry to the next until the eleventh, never passes a minute, and stays as it is from then on. */
  lemma BackoffDoubles(backoff: real, attempt: nat)
    requires backoff >= 0.0
    ensures Delay(backoff, 0) == if backoff < 60.0 then backoff else 60.0
    ensures attempt < 10 ==>
              Delay(backoff, attempt + 1) == if 2.0 * Delay(backoff, attempt) < 60.0 then 2.0 * Delay(backoff, attempt) else 60.0
    ensures attempt >= 10 ==> Delay(backoff, attempt) == Delay(backoff, 10)
  {
    assert Pow2(0) == 1;
    if attempt < 10 {
      assert Pow2(attempt + 1) == 2 * Pow2(attempt);
      TwiceAsLong(backoff, Pow2(attempt));
    }
    hide Pow2;
  }

  lemma TwiceAsLong(backoff: real, n: nat)
    ensures backoff * (2 * n) as real == 2.0 * (backoff * n as real)
  {
    var r := n as real;
    assert (2 * n) as real == 2.0 * r;
    assert backoff * (2.0 * r) == 2.0 * (backoff * r);
  }

  /** The shipped settings, three retries from one second within three minutes each, need 792 of their 900 seconds. */
  lemma ShippedSettingsFit()
    ensures Budget(Config(3, 1.0, 900_000, 180.0)) == 792.0 && Acceptable(3, 1.0, 900_000, 180.0)
  {
    BackoffDoubles(1.0, 0);
    BackoffDoubles(1.0, 1);
    assert Delays(1.0, 0) == 0.0;
    assert Delays(1.0, 1) == 1.0;
    assert Delays(1.0, 2) == 3.0;
    assert Delays(1.0, 3) == 7.0;
    assert Work(180.0, 4) == 720.0;
  }

  /** Any delivery fits the budget, however its invocations and its parking go. */
  lemma DeliveryFits(w: World, c: Config, calls: nat)
    requires Bounded(w, c) && c.backoff >= 0.0 && c.timeout > 0.0 && 1 <= calls <= c.maxRetries + 1
    ensures Spent(w, c, calls) + w.parking.duration + 5.0 <= Budget(c)
  {
    hide Work;
    hide Delays;
    SpentIsBounded(w, c, calls);
    DelaysGrow(c.backoff, calls - 1, c.maxRetries);
    MoreCallsCostMore(c.timeout, calls, c.maxRetries + 1);
  }

  lemma {:induction false} MoreCallsCostMore(timeout: real, few: nat, many: nat)
    requires timeout > 0.0 && few <= many
    ensures Work(timeout, few) <= Work(timeout, many)
    decreases many
  {
    if few < many {
      MoreCallsCostMore(timeout, few, many - 1);
      assert timeout * many as real == timeout * (many - 1) as real + timeout;
    }
  }

  /**
   * Invokes the handler until it succeeds, finds the record unrecoverable, or the retries are used up, and always
   * ends within the budget the constructor held against max.poll.interval.
   */
  method HandleWithRetry(c: Config, w: World, retryForever: bool, parkUnrecoverable: bool)
    returns (d: Disposition, calls: nat, ghost elapsed: real)
    requires Acceptable(c.maxRetries, c.backoff, c.maxPollMs, c.timeout) && Bounded(w, c)
    ensures 1 <= calls <= c.maxRetries + 1
    ensures forall k | 0 <= k < calls - 1 :: !w.attempts(k).outcome.Succeeds? && !w.attempts(k).outcome.Unrecoverable?
    ensures calls <= c.maxRetries ==> w.attempts(calls - 1).outcome.Succeeds? || w.attempts(calls - 1).outcome.Unrecoverable?
    ensures d.Handled? <==> w.attempts(calls - 1).outcome.Succeeds?
    ensures d.Parked? <==>
              && w.parking.delivered
              && match w.attempts(calls - 1).outcome
                 case Succeeds => false
                 case Unrecoverable => parkUnrecoverable
                 case DurableFailure => false
                 case TransientFailure => !retryForever
                 case TimedOut => !retryForever
    ensures NothingDurable(w, c.maxRetries) ==>
              && (d.Handled? <==> exists k | 0 <= k <= c.maxRetries :: w.attempts(k).outcome.Succeeds?)
              && (d.Parked? <==>
                    !retryForever && w.parking.delivered && forall k | 0 <= k <= c.maxRetries :: !w.attempts(k).outcome.Succeeds?)
    ensures calls - 1 == LastCall(w, c.maxRetries, 0) && d == Verdict(c, w, retryForever, parkUnrecoverable)
    ensures elapsed * 1000.0 < c.maxPollMs as real
    ensures elapsed == Spent(w, c, calls) +
                       (match w.attempts(calls - 1).outcome
                        case Succeeds => 0.0
                        case Unrecoverable => if parkUnrecoverable then w.parking.duration else 0.0
                        case DurableFailure => 0.0
                        case _ => if retryForever then 0.0 else w.parking.duration)
  {
    var attempt: nat := 0;
    elapsed := 0.0;
    while true
      invariant attempt <= c.maxRetries
      invariant forall k | 0 <= k < attempt :: !Final(w.attempts(k).outcome)
      invariant elapsed == Spent(w, c, attempt) + if attempt == 0 then 0.0 else Delay(c.backoff, attempt - 1)
      decreases c.maxRetries - attempt
    {
      calls := attempt + 1;
      DeliveryFits(w, c, calls);
      if attempt == c.maxRetries || Final(w.attempts(attempt).outcome) {
        LastCallIsUnique(w, c.maxRetries, 0, attempt);
      }
      var result := w.attempts(attempt);
      elapsed := elapsed + result.duration;
      match result.outcome {
        case Succeeds =>
          return Handled, calls, elapsed;
        case Unrecoverable =>
          if !parkUnrecoverable {
            return Raised, calls, elapsed;
          }
          elapsed := elapsed + w.parking.duration;
          return if w.parking.delivered then Parked else Raised, calls, elapsed;
        case _ =>
          var durable := retryForever || result.outcome.DurableFailure?;
          if attempt < c.maxRetries {
            elapsed := elapsed + Delay(c.backoff, attempt);
          } else if durable {
            return Raised, calls, elapsed;
          } else {
            elapsed := elapsed + w.parking.duration;
            return if w.parking.delivered then Parked else Raised, calls, elapsed;
          }
          attempt := attempt + 1;
      }
    }
  }

  /** One partition as the broker keeps it, and what has become of its records so far. */
  class Partition {
    var committed: nat
    ghost var settled: set<nat>

    constructor ()
      ensures committed == 0 && settled == {} && Valid()
    {
      committed, settled := 0, {};
    }

    /** Every record below the committed offset was handled or parked. */
    ghost predicate Valid()
      reads this
    {
      forall o | 0 <= o < committed :: o in settled
    }

    /**
     * One life of a worker: it starts at the committed offset and consumes until a record raises, the process dies
     * (before or after the commit of record `death`), or the log ends.
     */
    method Consume(log: nat, c: Config, world: nat -> World, retryForever: bool, parkUnrecoverable: bool,
                   death: Option<nat>, beforeCommit: bool)
      returns (raised: bool)
      requires Valid() && committed <= log
      requires Acceptable(c.maxRetries, c.backoff, c.maxPollMs, c.timeout) && forall o: nat :: Bounded(world(o), c)
      modifies this
      ensures Valid() && old(committed) <= committed <= log && old(settled) <= settled
      ensures forall o | o in settled && o !in old(settled) :: old(committed) <= o <= committed
      ensures forall o | old(committed) <= o < committed :: !Verdict(c, world(o), retryForever, parkUnrecoverable).Raised?
      ensures raised ==> committed < log && Verdict(c, world(committed), retryForever, parkUnrecoverable).Raised?
      ensures !raised && committed < log ==>
                death.Some? && if beforeCommit then death.value == committed && committed in settled else death.value + 1 == committed
      ensures death.Some? && death.value in settled && death.value !in old(settled) ==>
                committed == death.value + if beforeCommit then 0 else 1
    {
      var position := committed;
      hide Verdict;
      while position < log
        invariant Valid() && position == committed && old(committed) <= committed <= log && old(settled) <= settled
        invariant forall o | o in settled && o !in old(settled) :: old(committed) <= o < committed
        invariant death.Some? ==> !(old(committed) <= death.value < committed)
        invariant forall o | old(committed) <= o < committed :: !Verdict(c, world(o), retryForever, parkUnrecoverable).Raised?
      {
        var d, calls;
        ghost var elapsed;
        d, calls, elapsed := HandleWithRetry(c, world(position), retryForever, parkUnrecoverable);
        if d.Raised? {
          return true;
        }
        settled := settled + {position};
        if death == Some(position) && beforeCommit {
          return false;
        }
        committed := position + 1;
        if death == Some(position) {
          return false;
        }
        position := position + 1;
      }
      return false;
    }
  }

  /** A member of the consumer group, by the offset it will handle next. */
  datatype Group = Group(committed: nat, positions: map<int, nat>, settled: set<nat>)

  /** Rebalances restart a member at the committed offset; a member that lost the partition may still be at work. */
  datatype GroupStep =
    | Join(member: int)
    | Settle(member: int)
    | Commit(member: int)
    | Leave(member: int)

  predicate GroupEnabled(g: Group, st: GroupStep) {
    match st
    case Join(_) => true
    case Settle(m) => m in g.positions
    case Commit(m) => m in g.positions && g.positions[m] in g.settled
    case Leave(m) => m in g.positions
  }

  function GroupNext(g: Group, st: GroupStep): Group
    requires GroupEnabled(g, st)
  {
    match st
    case Join(m) => g.(positions := g.positions[m := g.committed])
    case Settle(m) => g.(settled := g.settled + {g.positions[m]})
    case Commit(m) => g.(committed := g.positions[m] + 1, positions := g.positions[m := g.positions[m] + 1])
    case Leave(m) => g.(positions := g.positions - {m})
  }

  predicate Prefix(settled: set<nat>, offset: nat) {
    forall o | 0 <= o < offset :: o in settled
  }

  ghost predicate GroupInv(g: Group) {
    Prefix(g.settled, g.committed) && forall m | m in g.positions :: Prefix(g.settled, g.positions[m])
  }

  lemma GroupNextKeepsInv(g: Group, st: GroupStep)
    requires GroupInv(g) && GroupEnabled(g, st)
    ensures GroupInv(GroupNext(g, st)) && g.settled <= GroupNext(g, st).settled
  {
    var h := GroupNext(g, st);
    assert forall offset: nat :: Prefix(g.settled, offset) ==> Prefix(h.settled, offset);
    if st.Commit? {
      assert Prefix(g.settled, g.positions[st.member]);
      assert Prefix(h.settled, h.committed);
    }
  }

  ghost predicate GroupSteps(run: seq<Group>, sched: seq<GroupStep>) {
    && |run| == |sched| + 1
    && forall i {:trigger sched[i]} | 0 <= i < |sched| :: GroupEnabled(run[i], sched[i]) && run[i + 1] == GroupNext(run[i], sched[i])
  }

  /** Over every history of crashes, restarts and rebalances: nothing below the committed offset was skipped. */
  lemma {:induction false} CommittedPrefixIsSettled(run: seq<Group>, sched: seq<GroupStep>, i: nat)
    requires GroupSteps(run, sched) && run[0] == Group(0, map[], {}) && i < |run|
    ensures GroupInv(run[i])
  {
    if i > 0 {
      CommittedPrefixIsSettled(run, sched, i - 1);
      GroupNextKeepsInv(run[i - 1], sched[i - 1]);
    }
  }
}
