/**
 * Why first handling is ordered: the outbox log is routed into keyed partitions, each consumed by a group whose
 * members start at the committed offset and settle one record after another. The order the saga's theorems about
 * rest and draining assume is then a theorem.
 */
module SagaDelivery {
  import opened Shared
  import opened KafkaRetry
  import opened Saga
  import opened SagaSafety
  import opened SagaQuiescence

  type Aggregate = (bool, nat)
  type PartitionId = int
  type Route = Aggregate -> PartitionId

  /** One partition's records: the events whose key is routed to it, in outbox order. */
  function Records(log: seq<Event>, route: Route, q: PartitionId): seq<Event> {
    if log == [] then []
    else Records(log[..|log| - 1], route, q) + if route(log[|log| - 1].Aggregate()) == q then [log[|log| - 1]] else []
  }

  /** Where log entry i lies in its partition. */
  function OffsetOf(log: seq<Event>, route: Route, i: nat): nat
    requires i < |log|
  {
    |Records(log[..i], route, route(log[i].Aggregate()))|
  }

  lemma {:induction false} RecordsGrow(log: seq<Event>, more: seq<Event>, route: Route, q: PartitionId)
    requires log <= more
    ensures Records(log, route, q) <= Records(more, route, q)
    decreases |more|
  {
    if |log| < |more| {
      assert log <= more[..|more| - 1];
      RecordsGrow(log, more[..|more| - 1], route, q);
    } else {
      assert log == more;
    }
  }

  lemma RecordAt(log: seq<Event>, route: Route, i: nat)
    requires i < |log|
    ensures var q := route(log[i].Aggregate());
            OffsetOf(log, route, i) < |Records(log, route, q)| && Records(log, route, q)[OffsetOf(log, route, i)] == log[i]
  {
    var q := route(log[i].Aggregate());
    assert log[..i + 1][..i] == log[..i] && log[..i + 1][i] == log[i];
    assert Records(log[..i + 1], route, q) == Records(log[..i], route, q) + [log[i]];
    RecordsGrow(log[..i + 1], log, route, q);
  }

  /** Earlier in the log is earlier in the partition. */
  lemma OffsetsGrow(log: seq<Event>, route: Route, j: nat, i: nat)
    requires j < i < |log| && route(log[j].Aggregate()) == route(log[i].Aggregate())
    ensures OffsetOf(log, route, j) < OffsetOf(log, route, i)
  {
    RecordAt(log[..i], route, j);
    assert log[..i][..j] == log[..j];
  }

  lemma {:induction false} IndexOf(log: seq<Event>, route: Route, q: PartitionId, o: nat) returns (i: nat)
    requires o < |Records(log, route, q)|
    ensures i < |log| && log[i] == Records(log, route, q)[o] && route(log[i].Aggregate()) == q && OffsetOf(log, route, i) == o
    decreases |log|
  {
    var front := log[..|log| - 1];
    if o < |Records(front, route, q)| {
      i := IndexOf(front, route, q, o);
      assert front[..i] == log[..i];
    } else {
      i := |log| - 1;
    }
  }

  // ---- The saga with its delivery ----

  datatype World = World(saga: State, groups: map<PartitionId, Group>)

  datatype WorldStep =
    | Client(st: Step)                                      // commands, schedulers, the reaper, pruning
    | Work(q: PartitionId, member: int, st: Step)           // a member runs one transaction for the record it is at
    | Broker(q: PartitionId, change: GroupStep)             // settle, commit, join, leave

  function GroupOf(w: World, q: PartitionId): Group {
    if q in w.groups then w.groups[q] else Group(0, map[], {})
  }

  /** The record a member will handle next. */
  predicate IsAt(w: World, route: Route, q: PartitionId, member: int, e: Event) {
    var g, records := GroupOf(w, q), Records(w.saga.log, route, q);
    member in g.positions && g.positions[member] < |records| && records[g.positions[member]] == e
  }

  /** A workflow record is settled only by being handled: the durable consumer parks none of them. */
  predicate SettlesHandled(w: World, route: Route, q: PartitionId, change: GroupStep) {
    var g, records := GroupOf(w, q), Records(w.saga.log, route, q);
    change.Settle? && change.member in g.positions ==>
      && g.positions[change.member] < |records|
      && (records[g.positions[change.member]].IsWorkflow() ==> records[g.positions[change.member]] in w.saga.handled)
  }

  ghost predicate WorldEnabled(w: World, route: Route, ws: WorldStep) {
    RowsValid(w.saga) &&
    match ws
    case Client(st) => !st.IsWorker() && Enabled(w.saga, st)
    case Work(q, member, st) => st.IsWorker() && Enabled(w.saga, st) && IsAt(w, route, q, member, st.event)
    case Broker(q, change) => GroupEnabled(GroupOf(w, q), change) && SettlesHandled(w, route, q, change)
  }

  ghost function WorldNext(w: World, route: Route, ws: WorldStep): World
    requires WorldEnabled(w, route, ws)
  {
    match ws
    case Client(st) => w.(saga := Next(w.saga, st))
    case Work(_, _, st) => w.(saga := Next(w.saga, st))
    case Broker(q, change) => w.(groups := w.groups[q := GroupNext(GroupOf(w, q), change)])
  }

  /** Every settled workflow record has been handled. */
  ghost predicate SettledOk(log: seq<Event>, handled: set<Event>, route: Route, q: PartitionId, g: Group) {
    && GroupInv(g)
    && forall o | o in g.settled ::
         o < |Records(log, route, q)| && (Records(log, route, q)[o].IsWorkflow() ==> Records(log, route, q)[o] in handled)
  }

  ghost predicate PartitionOk(w: World, route: Route, q: PartitionId) {
    SettledOk(w.saga.log, w.saga.handled, route, q, GroupOf(w, q))
  }

  ghost predicate WorldInv(w: World, route: Route) {
    OrderedInv(w.saga) && forall q {:trigger PartitionOk(w, route, q)} :: PartitionOk(w, route, q)
  }

  /** Whatever a member is handling, everything earlier under the same key has been handled. */
  lemma WorkIsInOrder(w: World, route: Route, q: PartitionId, member: int, e: Event)
    requires PartitionOk(w, route, q) && IsAt(w, route, q, member, e)
    ensures InOrder(w.saga, e)
  {
    var log, g := w.saga.log, GroupOf(w, q);
    var i := IndexOf(log, route, q, g.positions[member]);
    forall j | 0 <= j < i && log[j].IsWorkflow() && log[j].Aggregate() == log[i].Aggregate() ensures log[j] in w.saga.handled {
      OffsetsGrow(log, route, j, i);
      RecordAt(log, route, j);
      assert OffsetOf(log, route, j) in g.settled;
    }
    assert EarlierHandled(w.saga, i);
  }

  lemma SagaStepKeepsPartition(s: State, n: State, route: Route, q: PartitionId, g: Group)
    requires SettledOk(s.log, s.handled, route, q, g) && s.log <= n.log && s.handled <= n.handled
    ensures SettledOk(n.log, n.handled, route, q, g)
  {
    RecordsGrow(s.log, n.log, route, q);
  }

  lemma BrokerKeepsPartition(w: World, route: Route, q: PartitionId, change: GroupStep)
    requires PartitionOk(w, route, q) && GroupEnabled(GroupOf(w, q), change) && SettlesHandled(w, route, q, change)
    ensures SettledOk(w.saga.log, w.saga.handled, route, q, GroupNext(GroupOf(w, q), change))
  {
    GroupNextKeepsInv(GroupOf(w, q), change);
  }

  lemma WorldNextKeepsInv(w: World, route: Route, ws: WorldStep)
    requires WorldInv(w, route) && WorldEnabled(w, route, ws)
    ensures WorldInv(WorldNext(w, route, ws), route)
  {
    var n := WorldNext(w, route, ws);
    hide OrderedInv;
    hide Next;
    hide SettledOk;
    match ws {
      case Client(st) => SagaStepKeepsWorld(w, route, st);
      case Work(q, member, st) =>
        assert PartitionOk(w, route, q);
        WorkIsInOrder(w, route, q, member, st.event);
        SagaStepKeepsWorld(w, route, st);
      case Broker(q, change) =>
        forall p {:trigger PartitionOk(n, route, p)} ensures PartitionOk(n, route, p) {
          assert PartitionOk(w, route, p);
          if p == q {
            BrokerKeepsPartition(w, route, q, change);
          }
        }
    }
  }

  lemma SagaStepKeepsWorld(w: World, route: Route, st: Step)
    requires WorldInv(w, route) && EnabledInOrder(w.saga, st)
    ensures RowsValid(w.saga) && WorldInv(w.(saga := Next(w.saga, st)), route)
  {
    NextKeepsOrderedInv(w.saga, st);
    OneStepOfHistory(w.saga, st);
    var n := w.(saga := Next(w.saga, st));
    hide Next;
    hide Inv;
    hide SettledOk;
    forall q {:trigger PartitionOk(n, route, q)} ensures PartitionOk(n, route, q) {
      assert PartitionOk(w, route, q);
      SagaStepKeepsPartition(w.saga, n.saga, route, q, GroupOf(w, q));
    }
  }

  ghost predicate WorldRun(tr: seq<World>, route: Route, steps: seq<WorldStep>) {
    && |tr| == |steps| + 1
    && Init(tr[0].saga) && tr[0].groups == map[]
    && forall i | 0 <= i < |steps| :: Took(tr, route, steps, i)
  }

  ghost predicate Took(tr: seq<World>, route: Route, steps: seq<WorldStep>, i: nat)
    requires |tr| == |steps| + 1 && i < |steps|
  {
    WorldEnabled(tr[i], route, steps[i]) && tr[i + 1] == WorldNext(tr[i], route, steps[i])
  }

  lemma {:induction false} WorldRunKeepsInv(tr: seq<World>, route: Route, steps: seq<WorldStep>, i: nat)
    requires WorldRun(tr, route, steps) && i <= |steps|
    ensures WorldInv(tr[i], route)
  {
    if i == 0 {
      InitInv(tr[0].saga);
      forall q {:trigger PartitionOk(tr[0], route, q)} ensures PartitionOk(tr[0], route, q) {}
    } else {
      WorldRunKeepsInv(tr, route, steps, i - 1);
      assert Took(tr, route, steps, i - 1);
      WorldNextKeepsInv(tr[i - 1], route, steps[i - 1]);
    }
  }

  /** Each transaction a group member runs is one that per-key order allows, over all crashes, restarts and rebalances. */
  lemma DeliveryIsOrdered(tr: seq<World>, route: Route, steps: seq<WorldStep>, i: nat)
    requires WorldRun(tr, route, steps) && i < |steps| && steps[i].Work?
    ensures EnabledInOrder(tr[i].saga, steps[i].st)
  {
    WorldRunKeepsInv(tr, route, steps, i);
    assert Took(tr, route, steps, i);
    assert PartitionOk(tr[i], route, steps[i].q);
    WorkIsInOrder(tr[i], route, steps[i].q, steps[i].member, steps[i].st.event);
  }

  /** So, with nothing assumed about order, once nothing is pending both contexts agree. */
  lemma DeliveredAgreement(tr: seq<World>, route: Route, steps: seq<WorldStep>, i: nat)
    requires WorldRun(tr, route, steps) && i <= |steps| && Quiescent(tr[i].saga)
    ensures Agreement(tr[i].saga)
  {
    WorldRunKeepsInv(tr, route, steps, i);
    QuiescenceImpliesAgreement(tr[i].saga);
  }
}
