/** The lease-based handler inbox: one row per (event, handler), claimed with a fresh token under the database clock. */
module Inbox {
  import opened Shared

  type Key = int
  type Token = int
  type Identity = int

  /** The longest a message may be processed, and the default lease of a claim, in seconds. */
  const MAX_PROCESSING: int := 240
  const DEFAULT_LEASE: int := 300

  datatype RowStatus = Processing | Processed | Failed

  datatype Row = Row(identity: Identity, status: RowStatus, attempts: nat, token: Option<Token>, leaseUntil: Option<Time>)

  datatype Claim = Claimed | Busy | AlreadyProcessed | Collision

  type Rows = map<Key, Row>

  function ClaimRow(rows: Rows, key: Key, identity: Identity, token: Token, now: Time, lease: int): (Rows, Claim) {
    if key !in rows then
      (rows[key := Row(identity, Processing, 1, Some(token), Some(now + lease))], Claimed)
    else
      var row := rows[key];
      if row.identity != identity then
        (rows, Collision)
      else if row.status.Processed? then
        (rows, AlreadyProcessed)
      else if row.status.Processing? && row.leaseUntil.Some? && row.leaseUntil.value > now then
        (rows, Busy)
      else
        (rows[key := Row(identity, Processing, row.attempts + 1, Some(token), Some(now + lease))], Claimed)
  }

  /** The claim is still this token's: the guard of both completion statements. */
  predicate Holds(rows: Rows, key: Key, token: Token) {
    key in rows && rows[key].token == Some(token) && !rows[key].status.Processed?
  }

  /** complete and fail: a guarded update, and an error when it matches no row. */
  function Settle(rows: Rows, key: Key, token: Token, outcome: RowStatus): (Rows, bool) {
    if Holds(rows, key, token) then
      (rows[key := rows[key].(status := outcome, token := None, leaseUntil := None)], true)
    else
      (rows, false)
  }

  class HandlerInbox {
    var rows: Rows
    const lease: int

    constructor (leaseSeconds: int)
      requires leaseSeconds >= 1
      ensures rows == map[] && lease == leaseSeconds
    {
      rows := map[];
      lease := leaseSeconds;
    }

    method Claim(key: Key, identity: Identity, token: Token, now: Time) returns (r: Claim)
      modifies this
      ensures (rows, r) == ClaimRow(old(rows), key, identity, token, now, lease)
    {
      if key !in rows {
        rows := rows[key := Row(identity, Processing, 1, Some(token), Some(now + lease))];
        return Claimed;
      }
      var row := rows[key];
      if row.identity != identity {
        return Collision;
      }
      if row.status == Processed {
        return AlreadyProcessed;
      }
      if row.status == Processing && row.leaseUntil.Some? && row.leaseUntil.value > now {
        return Busy;
      }
      rows := rows[key := row.(status := Processing, attempts := row.attempts + 1, token := Some(token),
                               leaseUntil := Some(now + lease))];
      return Claimed;
    }

    method Complete(key: Key, token: Token) returns (ok: bool)
      modifies this
      ensures (rows, ok) == Settle(old(rows), key, token, Processed)
    {
      ok := Holds(rows, key, token);
      if ok {
        rows := rows[key := rows[key].(status := Processed, token := None, leaseUntil := None)];
      }
    }

    method Fail(key: Key, token: Token) returns (ok: bool)
      modifies this
      ensures (rows, ok) == Settle(old(rows), key, token, RowStatus.Failed)
    {
      ok := Holds(rows, key, token);
      if ok {
        rows := rows[key := rows[key].(status := RowStatus.Failed, token := None, leaseUntil := None)];
      }
    }
  }
}

/** Any number of consumers over one inbox. An execution runs from its claim until it settles or its process dies. */
module InboxRuns {
  import opened Shared
  import opened Inbox

  datatype Execution = Execution(key: Key, since: Time)

  /** `granted` and `completed` count claims granted and completions that succeeded; `issued` holds every token ever used. */
  datatype State = State(
    now: Time,
    lease: int,
    processing: int,
    rows: Rows,
    running: map<Token, Execution>,
    issued: set<Token>,
    granted: map<Key, nat>,
    completed: map<Key, nat>)

  datatype Step =
    | Tick(elapsed: int)
    | Claim(key: Key, identity: Identity, token: Token)
    | Complete(token: Token)
    | Fail(token: Token)
    | Die(token: Token)

  function Count(m: map<Key, nat>, key: Key): nat {
    if key in m then m[key] else 0
  }

  /** Tokens are fresh, and no execution outlives the processing bound. */
  predicate Enabled(s: State, st: Step) {
    match st
    case Tick(d) => d > 0 && forall t | t in s.running :: s.now + d <= s.running[t].since + s.processing
    case Claim(_, _, token) => token !in s.issued
    case Complete(token) => token in s.running
    case Fail(token) => token in s.running
    case Die(token) => token in s.running
  }

  function Next(s: State, st: Step): State
    requires Enabled(s, st)
  {
    match st
    case Tick(d) => s.(now := s.now + d)
    case Claim(key, identity, token) =>
      var (rows, r) := ClaimRow(s.rows, key, identity, token, s.now, s.lease);
      if r.Claimed? then
        s.(rows := rows, running := s.running[token := Execution(key, s.now)], issued := s.issued + {token},
           granted := s.granted[key := Count(s.granted, key) + 1])
      else
        s.(issued := s.issued + {token})
    case Complete(token) =>
      var key := s.running[token].key;
      var (rows, ok) := Settle(s.rows, key, token, Processed);
      s.(rows := rows, running := s.running - {token},
         completed := if ok then s.completed[key := Count(s.completed, key) + 1] else s.completed)
    case Fail(token) =>
      s.(rows := Settle(s.rows, s.running[token].key, token, RowStatus.Failed).0, running := s.running - {token})
    case Die(token) => s.(running := s.running - {token})
  }

  ghost predicate Init(s: State) {
    s.rows == map[] && s.running == map[] && s.granted == map[] && s.completed == map[] && s.lease >= 1
  }

  /** Attempts count claims, and a row is processed by exactly one completion. */
  ghost predicate RowOk(s: State, key: Key) {
    && (key !in s.rows ==> Count(s.granted, key) == 0 && Count(s.completed, key) == 0)
    && (key in s.rows ==>
          var row := s.rows[key];
          && row.attempts == Count(s.granted, key)
          && Count(s.completed, key) == (if row.status.Processed? then 1 else 0)
          && (row.token.Some? ==> row.token.value in s.issued)
          && (row.status.Processing? ==> row.token.Some? && row.leaseUntil.Some?)
          && (row.token.Some? ==> row.status.Processing?))
  }

  ghost predicate Inv(s: State) {
    && s.lease >= 1 && (forall t | t in s.running :: t in s.issued)
    && (forall key {:trigger RowOk(s, key)} :: RowOk(s, key))
  }

  /** A running execution still holds its row's claim, and the lease outlasts it. */
  ghost predicate LeaseOk(s: State, t: Token) {
    t in s.running ==>
      && s.running[t].since <= s.now <= s.running[t].since + s.processing
      && s.running[t].key in s.rows
      && s.rows[s.running[t].key].status.Processing?
      && s.rows[s.running[t].key].token == Some(t)
      && s.rows[s.running[t].key].leaseUntil == Some(s.running[t].since + s.lease)
  }

  ghost predicate LeaseInv(s: State) {
    Inv(s) && 0 <= s.processing < s.lease && forall t {:trigger LeaseOk(s, t)} :: LeaseOk(s, t)
  }

  lemma NextRow(s: State, st: Step, key: Key)
    requires Inv(s) && Enabled(s, st)
    ensures RowOk(Next(s, st), key)
  {
    assert RowOk(s, key);
  }

  lemma NextKeepsInv(s: State, st: Step)
    requires Inv(s) && Enabled(s, st)
    ensures Inv(Next(s, st))
  {
    forall key {:trigger RowOk(Next(s, st), key)} ensures RowOk(Next(s, st), key) {
      NextRow(s, st, key);
    }
  }

  lemma NextLease(s: State, st: Step, t: Token)
    requires LeaseInv(s) && Enabled(s, st)
    ensures LeaseOk(Next(s, st), t)
  {
    assert LeaseOk(s, t);
    match st {
      case Complete(u) => assert LeaseOk(s, u);
      case Fail(u) => assert LeaseOk(s, u);
      case Claim(_, _, _) =>
      case Tick(_) =>
      case Die(_) =>
    }
  }

  lemma NextKeepsLeaseInv(s: State, st: Step)
    requires LeaseInv(s) && Enabled(s, st)
    ensures LeaseInv(Next(s, st))
  {
    NextKeepsInv(s, st);
    forall t {:trigger LeaseOk(Next(s, st), t)} ensures LeaseOk(Next(s, st), t) {
      NextLease(s, st, t);
    }
  }

  ghost predicate Steps(run: seq<State>, sched: seq<Step>) {
    && |run| == |sched| + 1
    && forall i | 0 <= i < |sched| :: Taken(run, sched, i)
  }

  ghost predicate Taken(run: seq<State>, sched: seq<Step>, i: nat)
    requires |run| == |sched| + 1 && i < |sched|
  {
    Enabled(run[i], sched[i]) && run[i + 1] == Next(run[i], sched[i])
  }

  lemma {:induction false} RunKeepsInv(run: seq<State>, sched: seq<Step>, i: nat)
    requires Steps(run, sched) && Init(run[0]) && i < |run|
    ensures Inv(run[i])
    ensures 0 <= run[0].processing < run[0].lease ==> LeaseInv(run[i])
  {
    if i > 0 {
      RunKeepsInv(run, sched, i - 1);
      assert Taken(run, sched, i - 1);
      NextKeepsInv(run[i - 1], sched[i - 1]);
      if 0 <= run[0].processing < run[0].lease {
        NextKeepsLeaseInv(run[i - 1], sched[i - 1]);
      }
    }
  }

  /** Two executions of the same (event, handler). */
  ghost predicate Overlap(s: State) {
    exists t, u | t in s.running && u in s.running :: t != u && s.running[t].key == s.running[u].key
  }

  /** If the lease outlasts the processing bound, executions of one (event, handler) never overlap. */
  lemma NoOverlap(run: seq<State>, sched: seq<Step>, i: nat)
    requires Steps(run, sched) && Init(run[0]) && i < |run| && 0 <= run[0].processing < run[0].lease
    ensures !Overlap(run[i])
  {
    RunKeepsInv(run, sched, i);
    forall t, u | t in run[i].running && u in run[i].running && run[i].running[t].key == run[i].running[u].key ensures t == u {
      assert LeaseOk(run[i], t) && LeaseOk(run[i], u);
    }
  }

  /** And only then: with a lease no longer than the bound, a second consumer can join the first. */
  lemma ShortLeaseOverlaps(lease: int, processing: int) returns (run: seq<State>, sched: seq<Step>)
    requires 1 <= lease <= processing
    ensures Steps(run, sched) && Init(run[0]) && run[0].lease == lease && run[0].processing == processing
    ensures Overlap(run[|run| - 1])
  {
    var s0 := State(0, lease, processing, map[], map[], {}, map[], map[]);
    sched := [Step.Claim(1, 0, 1), Tick(lease), Step.Claim(1, 0, 2)];
    var s1 := Next(s0, sched[0]);
    var s2 := Next(s1, sched[1]);
    run := [s0, s1, s2, Next(s2, sched[2])];
    assert 1 in run[3].running && 2 in run[3].running;
  }

  /** Under the same condition a running execution never finds its claim lost. */
  lemma SettlingSucceeds(run: seq<State>, sched: seq<Step>, i: nat, t: Token)
    requires Steps(run, sched) && Init(run[0]) && i < |run| && 0 <= run[0].processing < run[0].lease
    requires t in run[i].running
    ensures Holds(run[i].rows, run[i].running[t].key, t)
  {
    RunKeepsInv(run, sched, i);
    assert LeaseOk(run[i], t);
  }

  /** Whatever the lease: at most one completion per row ever succeeds, and attempts equal claims granted. */
  lemma CompletedOnce(run: seq<State>, sched: seq<Step>, i: nat, key: Key)
    requires Steps(run, sched) && Init(run[0]) && i < |run|
    ensures Count(run[i].completed, key) <= 1
    ensures Count(run[i].completed, key) == 1 <==> key in run[i].rows && run[i].rows[key].status.Processed?
    ensures Count(run[i].granted, key) == if key in run[i].rows then run[i].rows[key].attempts else 0
  {
    RunKeepsInv(run, sched, i);
    assert RowOk(run[i], key);
  }

  /** A processed row never changes again. */
  lemma {:induction false} ProcessedIsAbsorbing(run: seq<State>, sched: seq<Step>, i: nat, j: nat, key: Key)
    requires Steps(run, sched) && Init(run[0]) && i <= j < |run|
    requires key in run[i].rows && run[i].rows[key].status.Processed?
    ensures key in run[j].rows && run[j].rows[key] == run[i].rows[key]
    decreases j
  {
    if i < j {
      ProcessedIsAbsorbing(run, sched, i, j - 1, key);
      assert Taken(run, sched, j - 1);
      RunKeepsInv(run, sched, j - 1);
      assert RowOk(run[j - 1], key);
    }
  }

  /** With the shipped lease, no processing timeout the Kafka client accepts can make two executions meet. */
  lemma DefaultsNeverOverlap(run: seq<State>, sched: seq<Step>, i: nat)
    requires Steps(run, sched) && Init(run[0]) && i < |run|
    requires run[0].lease == DEFAULT_LEASE && 0 <= run[0].processing <= MAX_PROCESSING
    ensures !Overlap(run[i])
  {
    NoOverlap(run, sched, i);
  }
}
