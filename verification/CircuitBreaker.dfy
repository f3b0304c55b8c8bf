/** Outcome histories: what a sliding window and a run of consecutive failures mean. */
module Outcomes {
  datatype Outcome = Outcome(at: real, failed: bool)

  function Recent(h: seq<Outcome>, cutoff: real): seq<Outcome> {
    if h == [] then [] else if h[0].at < cutoff then Recent(h[1..], cutoff) else [h[0]] + Recent(h[1..], cutoff)
  }

  function Failures(h: seq<Outcome>): nat {
    if h == [] then 0 else Failures(h[1..]) + if h[0].failed then 1 else 0
  }

  /** Consecutive failures at the end. */
  function Trailing(h: seq<Outcome>): nat {
    if h == [] || !h[|h| - 1].failed then 0 else 1 + Trailing(h[..|h| - 1])
  }

  ghost predicate InOrder(h: seq<Outcome>) {
    forall i, j | 0 <= i < j < |h| :: h[i].at <= h[j].at
  }

  lemma {:induction false} RecentIsAll(h: seq<Outcome>, cutoff: real)
    requires forall i | 0 <= i < |h| :: h[i].at >= cutoff
    ensures Recent(h, cutoff) == h
  {
    if h != [] {
      RecentIsAll(h[1..], cutoff);
    }
  }

  lemma {:induction false} RecentIsNone(h: seq<Outcome>, cutoff: real)
    requires forall i | 0 <= i < |h| :: h[i].at < cutoff
    ensures Recent(h, cutoff) == []
  {
    if h != [] {
      RecentIsNone(h[1..], cutoff);
    }
  }

  lemma {:induction false} RecentJoins(a: seq<Outcome>, b: seq<Outcome>, cutoff: real)
    ensures Recent(a + b, cutoff) == Recent(a, cutoff) + Recent(b, cutoff)
  {
    if a == [] {
      assert a + b == b;
    } else {
      assert (a + b)[1..] == a[1..] + b;
      RecentJoins(a[1..], b, cutoff);
    }
  }

  /** What a pruned window forgot, a later cutoff would have dropped as well. */
  lemma {:induction false} RecentTwice(h: seq<Outcome>, early: real, late: real)
    requires early <= late
    ensures Recent(Recent(h, early), late) == Recent(h, late)
  {
    if h != [] {
      RecentTwice(h[1..], early, late);
      if h[0].at >= early {
        assert Recent(h, early)[1..] == Recent(h[1..], early);
      }
    }
  }

  /** In order of time, the recent outcomes are a suffix: dropping from the left until one is recent finds them all. */
  lemma RecentIsSuffix(h: seq<Outcome>, k: nat, cutoff: real)
    requires InOrder(h) && k <= |h| && (forall i | 0 <= i < k :: h[i].at < cutoff) && (k < |h| ==> h[k].at >= cutoff)
    ensures Recent(h, cutoff) == h[k..]
  {
    RecentIsNone(h[..k], cutoff);
    RecentIsAll(h[k..], cutoff);
    RecentJoins(h[..k], h[k..], cutoff);
    assert h[..k] + h[k..] == h;
  }

  lemma {:induction false} RecentInOrder(h: seq<Outcome>, cutoff: real)
    requires InOrder(h)
    ensures InOrder(Recent(h, cutoff)) && forall o | o in Recent(h, cutoff) :: o in h
  {
    if h != [] {
      RecentInOrder(h[1..], cutoff);
    }
  }

  /** Recording an outcome in a pruned window and pruning again is pruning the whole history. */
  lemma RecentAppends(h: seq<Outcome>, w: seq<Outcome>, o: Outcome, cutoff: real)
    requires InOrder(h) && InOrder(w) && (forall x | x in h :: x.at <= o.at) && (forall x | x in w :: x in h)
    requires Recent(w, cutoff) == Recent(h, cutoff)
    ensures InOrder(h + [o]) && InOrder(w + [o]) && Recent(w + [o], cutoff) == Recent(h + [o], cutoff)
  {
    RecentJoins(w, [o], cutoff);
    RecentJoins(h, [o], cutoff);
    assert forall i | 0 <= i < |h| :: h[i] in h;
    assert forall i | 0 <= i < |w| :: w[i] in w;
  }

  method CountFailures(w: seq<Outcome>) returns (failures: nat)
    ensures failures == Failures(w)
  {
    failures := 0;
    for i := 0 to |w|
      invariant failures == Failures(w[..i])
    {
      assert w[..i + 1] == w[..i] + [w[i]];
      FailuresJoin(w[..i], [w[i]]);
      if w[i].failed {
        failures := failures + 1;
      }
    }
    assert w[..|w|] == w;
  }

  lemma {:induction false} FailuresJoin(a: seq<Outcome>, b: seq<Outcome>)
    ensures Failures(a + b) == Failures(a) + Failures(b)
  {
    if a == [] {
      assert a + b == b;
    } else {
      assert (a + b)[1..] == a[1..] + b;
      FailuresJoin(a[1..], b);
    }
  }

  /** The failed entries. */
  ghost function FailedOnes(h: seq<Outcome>): set<int> {
    set i | 0 <= i < |h| && h[i].failed
  }

  lemma {:induction false} FailuresAreCounted(h: seq<Outcome>)
    ensures Failures(h) == |FailedOnes(h)|
    decreases |h|
  {
    if h == [] {
      assert FailedOnes(h) == {};
    } else {
      var front, last := h[..|h| - 1], h[|h| - 1];
      FailuresAreCounted(front);
      FailuresJoin(front, [last]);
      assert front + [last] == h;
      assert Failures([last]) == if last.failed then 1 else 0;
      OneMoreFailed(front, last);
      hide Failures;
      hide FailedOnes;
    }
  }

  lemma OneMoreFailed(front: seq<Outcome>, last: Outcome)
    ensures FailedOnes(front + [last]) == FailedOnes(front) + (if last.failed then {|front|} else {})
    ensures |FailedOnes(front + [last])| == |FailedOnes(front)| + if last.failed then 1 else 0
  {
    var more := front + [last];
    forall i ensures i in FailedOnes(more) <==> i in FailedOnes(front) + if last.failed then {|front|} else {} {
      if 0 <= i < |front| {
        assert more[i] == front[i];
      }
    }
  }

  /** The run of failures at the end is all failures, and as long as it can be. */
  lemma {:induction false} TrailingExactly(h: seq<Outcome>)
    ensures Trailing(h) <= |h|
    ensures forall i | |h| - Trailing(h) <= i < |h| :: h[i].failed
    ensures Trailing(h) < |h| ==> !h[|h| - Trailing(h) - 1].failed
    decreases |h|
  {
    if h != [] && h[|h| - 1].failed {
      var front := h[..|h| - 1];
      TrailingExactly(front);
      assert forall i | 0 <= i < |front| :: front[i] == h[i];
    }
  }
}

/** The circuit breaker against the history of outcomes since it last closed. */
module CircuitBreaker {
  import opened Shared
  import opened Outcomes

  datatype CircuitState = Closed | Open | HalfOpen

  /** Below minimum_calls there is no rate; with minimum_calls at or below zero an empty window divides by zero. */
  datatype Rate = TooFew | Percent(value: real) | DivisionByZero

  function FailureRate(w: seq<Outcome>, minimumCalls: int): Rate {
    if |w| < minimumCalls then TooFew
    else if w == [] then DivisionByZero
    else Percent(Failures(w) as real / |w| as real * 100.0)
  }

  predicate Trips(r: Rate, threshold: real) {
    r.Percent? && r.value >= threshold
  }

  /** The rate trips exactly when there are calls, enough of them, and the failed ones make up the threshold in percent. */
  lemma TripsExactly(w: seq<Outcome>, minimumCalls: int, threshold: real)
    ensures Trips(FailureRate(w, minimumCalls), threshold) <==>
              |w| >= 1 && |w| >= minimumCalls && |FailedOnes(w)| as real * 100.0 >= threshold * |w| as real
  {
    FailuresAreCounted(w);
    if |w| >= 1 {
      ShareInPercent(Failures(w) as real, |w| as real, threshold);
    }
  }

  lemma ShareInPercent(part: real, whole: real, threshold: real)
    requires whole > 0.0
    ensures part / whole * 100.0 >= threshold <==> part * 100.0 >= threshold * whole
  {
    var share := part / whole;
    assert share * whole == part;
    if share * 100.0 >= threshold {
      assert (share * 100.0 - threshold) * whole >= 0.0;
    } else {
      assert (threshold - share * 100.0) * whole > 0.0;
    }
  }

  class Breaker {
    const failureThreshold: int
    const successThreshold: int
    const timeout: real
    const failureRateThreshold: real
    const windowSeconds: real
    const minimumCalls: int
    const halfOpenMaxCalls: int

    var state: CircuitState
    var failureCount: nat
    var successCount: nat
    var lastFailure: Option<real>
    var window: seq<Outcome>
    var inFlight: nat

    /** Every counted outcome since the circuit last closed (or was reset), oldest first. */
    ghost var history: seq<Outcome>
    /** The latest monotonic reading, and the cutoff the window was last pruned to. */
    ghost var clock: Option<real>
    ghost var cutoff: Option<real>

    /** The window is exactly the part of the history after the last cutoff. */
    ghost predicate WindowOk()
      reads this`history, this`clock, this`cutoff, this`window
    {
      && InOrder(history)
      && (history != [] ==> clock.Some? && history[|history| - 1].at <= clock.value)
      && (cutoff.Some? ==> clock.Some? && cutoff.value <= clock.value - windowSeconds)
      && window == (if cutoff.Some? then Recent(history, cutoff.value) else history)
    }

    ghost predicate CountersOk()
      reads this
    {
      && (state.Closed? ==> failureCount == Trailing(history) && (failureCount == 0 || failureCount < failureThreshold))
      && (state.HalfOpen? ==> successCount == 0 || successCount < successThreshold)
      && (state.HalfOpen? ==> inFlight <= 1 || inFlight <= halfOpenMaxCalls)
      && (!state.HalfOpen? ==> inFlight == 0)
    }

    ghost predicate Valid()
      reads this
    {
      WindowOk() && CountersOk()
    }

    constructor (failureThreshold: int, successThreshold: int, timeout: real, failureRateThreshold: real,
                 windowSeconds: real, minimumCalls: int, halfOpenMaxCalls: int)
      ensures Valid() && state == Closed && history == [] && clock == None && lastFailure == None
      ensures this.failureThreshold == failureThreshold && this.successThreshold == successThreshold && this.timeout == timeout
      ensures this.failureRateThreshold == failureRateThreshold && this.windowSeconds == windowSeconds
      ensures this.minimumCalls == minimumCalls && this.halfOpenMaxCalls == halfOpenMaxCalls
    {
      this.failureThreshold, this.successThreshold, this.timeout := failureThreshold, successThreshold, timeout;
      this.failureRateThreshold, this.windowSeconds := failureRateThreshold, windowSeconds;
      this.minimumCalls, this.halfOpenMaxCalls := minimumCalls, halfOpenMaxCalls;
      state, failureCount, successCount, lastFailure, window, inFlight := Closed, 0, 0, None, [], 0;
      history, clock, cutoff := [], None, None;
    }

    /** The monotonic clock does not run backwards. */
    ghost predicate Later(now: real)
      reads this`clock
    {
      clock.Some? ==> clock.value <= now
    }

    /** Drops expired entries from the left; in order of time that leaves exactly the recent ones. */
    method DropExpired(bound: real)
      requires InOrder(window)
      modifies this`window
      ensures window == Recent(old(window), bound)
    {
      ghost var was := window;
      ghost var k := 0;
      while window != [] && window[0].at < bound
        invariant k <= |was| && window == was[k..]
        invariant forall i | 0 <= i < k :: was[i].at < bound
        decreases |window|
      {
        window := window[1..];
        k := k + 1;
      }
      RecentIsSuffix(was, k, bound);
    }

    lemma WindowLater(bound: real)
      requires WindowOk() && (cutoff.Some? ==> cutoff.value <= bound)
      ensures InOrder(window) && Recent(window, bound) == Recent(history, bound)
      ensures forall o | o in window :: o in history
    {
      if cutoff.Some? {
        RecentInOrder(history, cutoff.value);
        RecentTwice(history, cutoff.value, bound);
      }
    }

    lemma NowIsLast(now: real)
      requires WindowOk() && Later(now)
      ensures forall o | o in history :: o.at <= now
    {
      forall o | o in history ensures o.at <= now {
        var i :| 0 <= i < |history| && history[i] == o;
      }
    }

    method PruneWindow(now: real)
      requires WindowOk() && Later(now)
      modifies this`window, this`clock, this`cutoff
      ensures WindowOk() && clock == Some(now) && window == Recent(history, now - windowSeconds)
      ensures cutoff == Some(now - windowSeconds)
    {
      WindowLater(now - windowSeconds);
      DropExpired(now - windowSeconds);
      clock, cutoff := Some(now), Some(now - windowSeconds);
    }

    /** Whatever was pruned before, the window is again exactly the recent part of the whole history. */
    method RecordOutcome(failed: bool, now: real)
      requires WindowOk() && Later(now)
      modifies this`window, this`history, this`clock, this`cutoff
      ensures history == old(history) + [Outcome(now, failed)] && InOrder(history)
      ensures clock == Some(now) && cutoff == Some(now - windowSeconds)
      ensures WindowOk() && window == Recent(history, now - windowSeconds)
    {
      hide Recent;
      NowIsLast(now);
      WindowLater(now - windowSeconds);
      RecentAppends(history, window, Outcome(now, failed), now - windowSeconds);
      window := window + [Outcome(now, failed)];
      history := history + [Outcome(now, failed)];
      DropExpired(now - windowSeconds);
      clock, cutoff := Some(now), Some(now - windowSeconds);
    }

    method WindowFailureRate(now: real) returns (rate: Rate)
      requires WindowOk() && Later(now)
      modifies this`window, this`clock, this`cutoff
      ensures WindowOk() && clock == Some(now) && window == Recent(history, now - windowSeconds)
      ensures cutoff == Some(now - windowSeconds)
      ensures rate == FailureRate(Recent(history, now - windowSeconds), minimumCalls)
    {
      PruneWindow(now);
      var total := |window|;
      if total < minimumCalls {
        return TooFew;
      }
      var failures := CountFailures(window);
      if total == 0 {
        return DivisionByZero;
      }
      return Percent(failures as real / total as real * 100.0);
    }

    ghost predicate ReleasedProbe(before: nat, isProbe: bool, after: nat) {
      after == if isProbe && before > 0 then before - 1 else before
    }

    method ReleaseProbe(isProbe: bool)
      modifies this`inFlight
      ensures ReleasedProbe(old(inFlight), isProbe, inFlight)
    {
      if isProbe && inFlight > 0 {
        inFlight := inFlight - 1;
      }
    }

    /** A success closes a half-open circuit exactly at the success threshold, and clears a closed one's failure count. */
    method HandleSuccess(isProbe: bool, now: real)
      requires Valid() && Later(now)
      modifies this
      ensures Valid() && clock == Some(now) && lastFailure == old(lastFailure)
      ensures state == if old(state) == HalfOpen && old(successCount) + 1 >= successThreshold then Closed else old(state)
      ensures history == if old(state) == HalfOpen && state == Closed then [] else old(history) + [Outcome(now, false)]
      ensures window == Recent(history, now - windowSeconds)
      ensures failureCount == if state == Closed then 0 else old(failureCount)
      ensures successCount == if state == HalfOpen then old(successCount) + 1
                              else if old(state) == HalfOpen then 0 else old(successCount)
      ensures state == Closed || ReleasedProbe(old(inFlight), isProbe, inFlight)
    {
      RecordOutcome(false, now);
      ReleaseProbe(isProbe);
      if state == HalfOpen {
        successCount := successCount + 1;
        if successCount >= successThreshold {
          state, window, inFlight := Closed, [], 0;
          history := [];
          failureCount, successCount := 0, 0;
        }
      } else if state == Closed {
        failureCount := 0;
      }
    }

    /**
     * A counted failure opens a closed circuit exactly when the consecutive failures since it closed reach the
     * threshold, or a full enough window reaches the failure rate; it always re-opens a half-open one. `later` is
     * the second clock reading, taken when the rate is computed.
     */
    method HandleFailure(excluded: bool, isProbe: bool, now: real, later: real, wall: real) returns (divided: bool)
      requires Valid() && Later(now) && now <= later
      modifies this
      ensures Valid()
      ensures excluded ==>
                && !divided && state == old(state) && history == old(history) && window == old(window)
                && failureCount == old(failureCount) && successCount == old(successCount) && lastFailure == old(lastFailure)
                && ReleasedProbe(old(inFlight), isProbe, inFlight)
      ensures !excluded ==>
                && history == old(history) + [Outcome(now, true)]
                && lastFailure == Some(wall) && failureCount == old(failureCount) + 1
      ensures !excluded && old(state) == Closed ==>
                (state == Open <==>
                  || Trailing(history) >= failureThreshold
                  || Trips(FailureRate(Recent(history, later - windowSeconds), minimumCalls), failureRateThreshold))
      ensures !excluded && old(state) == Closed && state != Open ==> state == Closed
      ensures !excluded && old(state) != Closed ==> state == Open
      ensures divided <==>
                && !excluded && old(state) == Closed && Trailing(history) < failureThreshold
                && FailureRate(Recent(history, later - windowSeconds), minimumCalls).DivisionByZero?
      ensures !excluded ==> successCount == if old(state) == HalfOpen then 0 else old(successCount)
      ensures !excluded ==> cutoff == Some(now - windowSeconds) || cutoff == Some(later - windowSeconds)
      ensures state == Open ==> inFlight == 0
    {
      if excluded {
        ReleaseProbe(isProbe);
        return false;
      }
      divided := CountedFailure(isProbe, now, later, wall);
    }

    method CountedFailure(isProbe: bool, now: real, later: real, wall: real) returns (divided: bool)
      requires Valid() && Later(now) && now <= later
      modifies this
      ensures Valid() && history == old(history) + [Outcome(now, true)]
      ensures lastFailure == Some(wall) && failureCount == old(failureCount) + 1
      ensures old(state) == Closed ==>
                && (state == Open || state == Closed)
                && (state == Open <==>
                     || Trailing(history) >= failureThreshold
                     || Trips(FailureRate(Recent(history, later - windowSeconds), minimumCalls), failureRateThreshold))
      ensures old(state) != Closed ==> state == Open
      ensures divided <==>
                && old(state) == Closed && Trailing(history) < failureThreshold
                && FailureRate(Recent(history, later - windowSeconds), minimumCalls).DivisionByZero?
      ensures successCount == if old(state) == HalfOpen then 0 else old(successCount)
      ensures cutoff == Some(now - windowSeconds) || cutoff == Some(later - windowSeconds)
    {
      hide WindowOk;
      hide Recent;
      hide Trailing;
      hide FailureRate;
      hide Trips;
      CountFailure(isProbe, now, wall);
      divided := false;
      if state == HalfOpen {
        state, inFlight, successCount := Open, 0, 0;
      } else if state == Closed {
        divided := TripIfDue(later);
      }
    }

    method CountFailure(isProbe: bool, now: real, wall: real)
      requires Valid() && Later(now)
      modifies this`window, this`history, this`clock, this`cutoff, this`inFlight, this`lastFailure, this`failureCount
      ensures WindowOk() && clock == Some(now) && cutoff == Some(now - windowSeconds)
      ensures history == old(history) + [Outcome(now, true)]
      ensures failureCount == old(failureCount) + 1 && Trailing(history) == Trailing(old(history)) + 1
      ensures lastFailure == Some(wall) && (old(inFlight) == 0 ==> inFlight == 0) && inFlight <= old(inFlight)
    {
      RecordOutcome(true, now);
      assert history[..|history| - 1] == old(history);
      ReleaseProbe(isProbe);
      lastFailure := Some(wall);
      failureCount := failureCount + 1;
    }

    method TripIfDue(later: real) returns (divided: bool)
      requires WindowOk() && Later(later) && state == Closed && failureCount == Trailing(history) && inFlight == 0
      modifies this`window, this`clock, this`cutoff, this`state
      ensures Valid() && (state == Open || state == Closed) && (cutoff == old(cutoff) || cutoff == Some(later - windowSeconds))
      ensures state == Open <==>
                || Trailing(history) >= failureThreshold
                || Trips(FailureRate(Recent(history, later - windowSeconds), minimumCalls), failureRateThreshold)
      ensures divided <==>
                && Trailing(history) < failureThreshold
                && FailureRate(Recent(history, later - windowSeconds), minimumCalls).DivisionByZero?
    {
      divided := false;
      if failureCount >= failureThreshold {
        state := Open;
      } else {
        var rate := WindowFailureRate(later);
        if rate.DivisionByZero? {
          return true;
        }
        if Trips(rate, failureRateThreshold) {
          state := Open;
        }
      }
    }

    /** A call is admitted unless the circuit is open and not yet due, or every probe slot is taken. */
    method Acquire(wall: real) returns (allowed: bool, isProbe: bool)
      requires Valid()
      modifies this`state, this`successCount, this`inFlight
      ensures Valid()
      ensures allowed <==> match old(state)
                           case Closed => true
                           case Open => lastFailure.None? || wall - lastFailure.value >= timeout
                           case HalfOpen => old(inFlight) < halfOpenMaxCalls
      ensures isProbe <==> allowed && old(state) != Closed
      ensures state == if old(state) == Open && allowed then HalfOpen else old(state)
      ensures successCount == if old(state) == Open && allowed then 0 else old(successCount)
      ensures inFlight == if isProbe then old(inFlight) + 1 else old(inFlight)
      ensures inFlight <= if halfOpenMaxCalls >= 1 then halfOpenMaxCalls else 1
    {
      if state == Closed {
        return true, false;
      }
      if state == Open {
        if lastFailure.None? || wall - lastFailure.value >= timeout {
          state, successCount, inFlight := HalfOpen, 0, 1;
          return true, true;
        }
        return false, false;
      }
      if inFlight < halfOpenMaxCalls {
        inFlight := inFlight + 1;
        return true, true;
      }
      return false, false;
    }

    method Reset()
      requires Valid()
      modifies this
      ensures Valid() && state == Closed && history == [] && window == []
      ensures failureCount == 0 && successCount == 0 && inFlight == 0 && lastFailure == None && clock == old(clock)
    {
      state, failureCount, successCount, lastFailure, window, inFlight := Closed, 0, 0, None, [], 0;
      history := [];
    }
  }

  /** With a limit of zero, one probe is admitted all the same when the circuit half-opens. */
  method ZeroLimitAdmitsOneProbe() returns (b: Breaker, allowed: bool)
    ensures b.Valid() && b.halfOpenMaxCalls == 0 && allowed && b.state == HalfOpen && b.inFlight == 1
  {
    b := new Breaker(1, 1, 30.0, 50.0, 60.0, 10, 0);
    var divided := b.HandleFailure(false, false, 0.0, 0.0, 0.0);
    assert b.history == [Outcome(0.0, true)] && b.history[..0] == [];
    assert Trailing(b.history) == 1;
    var isProbe;
    allowed, isProbe := b.Acquire(30.0);
  }

  /** With a minimum of zero, a failure that leaves the window before the rate is computed divides by zero. */
  method ZeroMinimumDivides() returns (b: Breaker, divided: bool)
    ensures b.Valid() && b.minimumCalls == 0 && divided && b.state == Closed
  {
    b := new Breaker(2, 1, 30.0, 50.0, 1.0, 0, 1);
    divided := b.HandleFailure(false, false, 0.0, 2.0, 0.0);
    assert b.history == [Outcome(0.0, true)] && b.history[..0] == [] && b.history[1..] == [];
    assert Trailing(b.history) == 1 && Recent(b.history, 1.0) == [];
  }
}
