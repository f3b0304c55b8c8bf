/**
 * Command receipts: retried and concurrent requests that carry an idempotency key, each run as look up, decide,
 * and commit the effect together with its receipt under a unique (scope, key).
 */
module Receipts {
  import opened Shared

  type Key = int
  type Fingerprint = int
  type Response = int
  type Attempt = int

  datatype Request = Request(key: Option<Key>, fingerprint: Fingerprint)

  /** Where one attempt stands. `Working` looked and found no receipt. */
  datatype Pc = Begun | Working | Replayed(response: Response) | Executed(response: Response) | Conflicted | Aborted

  datatype Try = Try(request: Request, pc: Pc)

  datatype Effect = Effect(request: Request, response: Response)

  /** `effects` is everything ever committed, oldest first; receipts are not pruned. */
  datatype State = State(receipts: map<Key, Receipt>, effects: seq<Effect>, tries: map<Attempt, Try>)

  datatype Step =
    | Arrive(a: Attempt, request: Request)
    | LookUp(a: Attempt)
    | Commit(a: Attempt, response: Response)
    | Fail(a: Attempt)

  predicate Enabled(s: State, st: Step) {
    match st
    case Arrive(a, _) => a !in s.tries
    case LookUp(a) => a in s.tries && s.tries[a].pc.Begun?
    case Commit(a, _) => a in s.tries && s.tries[a].pc.Working?
    case Fail(a) => a in s.tries && (s.tries[a].pc.Begun? || s.tries[a].pc.Working?)
  }

  /** A receipt answers the request if the fingerprints match, and refuses it otherwise. */
  function Lookup(s: State, r: Request): Pc {
    if r.key.None? || r.key.value !in s.receipts then Working
    else if s.receipts[r.key.value].fingerprint == r.fingerprint then Replayed(s.receipts[r.key.value].response)
    else Conflicted
  }

  /** The unique constraint on command_receipts refuses the whole transaction. */
  predicate Loses(s: State, r: Request) {
    r.key.Some? && r.key.value in s.receipts
  }

  function At(s: State, a: Attempt, pc: Pc): State
    requires a in s.tries
  {
    s.(tries := s.tries[a := s.tries[a].(pc := pc)])
  }

  function Next(s: State, st: Step): State
    requires Enabled(s, st)
  {
    match st
    case Arrive(a, r) => s.(tries := s.tries[a := Try(r, Begun)])
    case LookUp(a) => At(s, a, Lookup(s, s.tries[a].request))
    case Commit(a, response) =>
      var r := s.tries[a].request;
      if Loses(s, r) then At(s, a, Conflicted)
      else
        At(s.(effects := s.effects + [Effect(r, response)],
              receipts := if r.key.Some? then s.receipts[r.key.value := Receipt(r.fingerprint, response)] else s.receipts),
           a, Executed(response))
    case Fail(a) => At(s, a, Aborted)
  }

  ghost predicate Init(s: State) {
    s.receipts == map[] && s.effects == [] && s.tries == map[]
  }

  ghost predicate Steps(run: seq<State>, sched: seq<Step>) {
    && |run| == |sched| + 1
    && forall i | 0 <= i < |sched| :: Taken(run, sched, i)
  }

  ghost predicate Taken(run: seq<State>, sched: seq<Step>, i: nat)
    requires |run| == |sched| + 1 && i < |sched|
  {
    Enabled(run[i], sched[i]) && run[i + 1] == Next(run[i], sched[i])
  }

  /** How many committed transactions carried this key. */
  function Effects(effects: seq<Effect>, key: Key): nat {
    if effects == [] then 0
    else Effects(effects[..|effects| - 1], key) + if effects[|effects| - 1].request.key == Some(key) then 1 else 0
  }

  lemma EffectsMore(effects: seq<Effect>, e: Effect, key: Key)
    ensures Effects(effects + [e], key) == Effects(effects, key) + if e.request.key == Some(key) then 1 else 0
  {
    assert (effects + [e])[..|effects|] == effects;
  }

  ghost predicate KeyOk(s: State, key: Key) {
    && Effects(s.effects, key) == (if key in s.receipts then 1 else 0)
    && forall e | e in s.effects && e.request.key == Some(key) ::
         key in s.receipts && s.receipts[key] == Receipt(e.request.fingerprint, e.response)
  }

  /** Whoever was answered under a key was answered with what is stored under it, for the same request. */
  ghost predicate TryOk(s: State, a: Attempt) {
    a in s.tries && s.tries[a].request.key.Some? && (s.tries[a].pc.Replayed? || s.tries[a].pc.Executed?) ==>
      var key := s.tries[a].request.key.value;
      key in s.receipts && s.receipts[key] == Receipt(s.tries[a].request.fingerprint, s.tries[a].pc.response)
  }

  ghost predicate Inv(s: State) {
    && (forall key {:trigger KeyOk(s, key)} :: KeyOk(s, key))
    && (forall a {:trigger TryOk(s, a)} :: TryOk(s, a))
  }

  lemma NextKey(s: State, st: Step, key: Key)
    requires KeyOk(s, key) && Enabled(s, st)
    ensures KeyOk(Next(s, st), key)
  {
    if st.Commit? {
      EffectsMore(s.effects, Effect(s.tries[st.a].request, st.response), key);
    }
  }

  lemma NextTry(s: State, st: Step, a: Attempt)
    requires TryOk(s, a) && Enabled(s, st)
    ensures TryOk(Next(s, st), a)
  {
  }

  /** A stored receipt is never replaced. */
  lemma NextReceipt(s: State, st: Step, key: Key)
    requires Enabled(s, st) && key in s.receipts
    ensures key in Next(s, st).receipts && Next(s, st).receipts[key] == s.receipts[key]
  {
  }

  lemma {:induction false} RunKeepsInv(run: seq<State>, sched: seq<Step>, i: nat)
    requires Steps(run, sched) && Init(run[0]) && i < |run|
    ensures Inv(run[i])
  {
    if i > 0 {
      RunKeepsInv(run, sched, i - 1);
      assert Taken(run, sched, i - 1);
      forall key {:trigger KeyOk(run[i], key)} ensures KeyOk(run[i], key) {
        assert KeyOk(run[i - 1], key);
        NextKey(run[i - 1], sched[i - 1], key);
      }
      forall a {:trigger TryOk(run[i], a)} ensures TryOk(run[i], a) {
        assert TryOk(run[i - 1], a);
        NextTry(run[i - 1], sched[i - 1], a);
      }
    }
  }

  /** At most one transaction per key ever commits its effect, and exactly one has if there is a receipt. */
  lemma OneEffectPerKey(run: seq<State>, sched: seq<Step>, i: nat, key: Key)
    requires Steps(run, sched) && Init(run[0]) && i < |run|
    ensures Effects(run[i].effects, key) == if key in run[i].receipts then 1 else 0
    ensures forall e | e in run[i].effects && e.request.key == Some(key) ::
              key in run[i].receipts && run[i].receipts[key] == Receipt(e.request.fingerprint, e.response)
  {
    RunKeepsInv(run, sched, i);
    assert KeyOk(run[i], key);
  }

  /** All successes under one key, at whatever time and however many, carry the same fingerprint and the same response. */
  lemma {:induction false} SuccessesAgree(run: seq<State>, sched: seq<Step>, i: nat, j: nat, a: Attempt, b: Attempt)
    requires Steps(run, sched) && Init(run[0]) && i <= j < |run| && a in run[i].tries && b in run[j].tries
    requires run[i].tries[a].request.key.Some? && run[j].tries[b].request.key == run[i].tries[a].request.key
    requires run[i].tries[a].pc.Replayed? || run[i].tries[a].pc.Executed?
    requires run[j].tries[b].pc.Replayed? || run[j].tries[b].pc.Executed?
    ensures run[i].tries[a].pc.response == run[j].tries[b].pc.response
    ensures run[i].tries[a].request.fingerprint == run[j].tries[b].request.fingerprint
  {
    RunKeepsInv(run, sched, i);
    RunKeepsInv(run, sched, j);
    assert TryOk(run[i], a) && TryOk(run[j], b);
    ReceiptsStay(run, sched, i, j, run[i].tries[a].request.key.value);
  }

  lemma {:induction false} ReceiptsStay(run: seq<State>, sched: seq<Step>, i: nat, j: nat, key: Key)
    requires Steps(run, sched) && i <= j < |run| && key in run[i].receipts
    ensures key in run[j].receipts && run[j].receipts[key] == run[i].receipts[key]
    decreases j
  {
    if i < j {
      ReceiptsStay(run, sched, i, j - 1, key);
      assert Taken(run, sched, j - 1);
      NextReceipt(run[j - 1], sched[j - 1], key);
    }
  }

  /** Once a key is taken, no other request under it, and no repetition of the same one, changes anything but its own outcome. */
  lemma TakenKeyMutatesNothing(s: State, st: Step)
    requires Enabled(s, st) && !st.Arrive? && Loses(s, s.tries[st.a].request)
    ensures Next(s, st).effects == s.effects && Next(s, st).receipts == s.receipts
    ensures !Next(s, st).tries[st.a].pc.Executed?
    ensures Next(s, st).tries[st.a].pc.Replayed? ==>
              s.receipts[s.tries[st.a].request.key.value].fingerprint == s.tries[st.a].request.fingerprint
  {
  }
}
