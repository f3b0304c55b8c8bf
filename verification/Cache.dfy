/**
 * The generation-fenced cache: one key, any number of processes, readers and writers, interleaved freely.
 *
 * A value is represented by the database version it was computed from. `births[g]` remembers the database version
 * at the moment the shared counter reached generation g, so |births| - 1 is the counter itself. An increment travels:
 * it is sent, lands on the server (or not), and is answered (or lost), each at its own time.
 */
module Cache {
  import opened Shared

  type Process = int
  type Reader = int
  type BumpId = int
  type Version = nat

  /** Where a get_or_set call stands, between two of its awaits. */
  datatype Pc =
    | Recover
    | Recovering(b: BumpId)
    | ReadGeneration
    | Lookup(g: nat)
    | ReadAgain
    | LookupAgain(g: nat)
    | Fetch(g: nat)
    | Recheck(g: nat, v: Version)
    | FetchAgain(g: nat)
    | Store(g: nat, v: Version)
    | Bypass
    | Done(v: Version)

  datatype Call = Call(process: Process, pc: Pc)

  /** An increment under way for a process: after a write, or to recover; on a reader's path or in the background. */
  datatype Bump = Bump(process: Process, recovery: bool, landed: bool, unanswered: bool, reader: Option<Reader>)

  datatype State = State(
    db: Version,
    births: seq<Version>,
    entries: map<nat, Version>,
    unsafe: set<Process>,
    bumps: map<BumpId, Bump>,
    calls: map<Reader, Call>)

  datatype Step =
    | Commit
    | Send(b: BumpId, p: Process, recovery: bool)
    | Land(b: BumpId)      // INCR takes effect on the server
    | Succeed(b: BumpId)   // its reply arrives, and the process takes itself for safe
    | Lose(b: BumpId)      // its reply is lost; a writer's process marks itself unsafe
    | Evict(g: nat)
    | Start(r: Reader, p: Process)
    | AlreadySafe(r: Reader)
    | RecoverSend(r: Reader, b: BumpId)
    | RecoverOk(r: Reader)
    | RecoverLost(r: Reader)
    | Generation(r: Reader)
    | NoGeneration(r: Reader)
    | Hit(r: Reader)
    | Miss(r: Reader)
    | Factory(r: Reader)
    | Put(r: Reader, stored: bool)

  function Current(s: State): nat {
    if s.births == [] then 0 else |s.births| - 1
  }

  predicate Enabled(s: State, st: Step) {
    match st
    case Commit => true
    case Send(b, p, recovery) => b !in s.bumps && (recovery ==> p in s.unsafe)
    case Land(b) => b in s.bumps && !s.bumps[b].landed
    case Succeed(b) => b in s.bumps && s.bumps[b].landed && s.bumps[b].unanswered && s.bumps[b].reader.None?
    case Lose(b) => b in s.bumps && s.bumps[b].unanswered && s.bumps[b].reader.None?
    case Evict(_) => true
    case Start(r, _) => r !in s.calls
    case AlreadySafe(r) => r in s.calls && s.calls[r].pc.Recover? && s.calls[r].process !in s.unsafe
    case RecoverSend(r, b) => r in s.calls && s.calls[r].pc.Recover? && s.calls[r].process in s.unsafe && b !in s.bumps
    case RecoverOk(r) => AwaitsReply(s, r) && s.bumps[s.calls[r].pc.b].landed
    case RecoverLost(r) => AwaitsReply(s, r)
    case Generation(r) => r in s.calls && (s.calls[r].pc.ReadGeneration? || s.calls[r].pc.ReadAgain? || s.calls[r].pc.Recheck?)
    case NoGeneration(r) => r in s.calls && (s.calls[r].pc.ReadGeneration? || s.calls[r].pc.ReadAgain? || s.calls[r].pc.Recheck?)
    case Hit(r) => r in s.calls && (s.calls[r].pc.Lookup? || s.calls[r].pc.LookupAgain?) && s.calls[r].pc.g in s.entries
    case Miss(r) => r in s.calls && (s.calls[r].pc.Lookup? || s.calls[r].pc.LookupAgain?)
    case Factory(r) => r in s.calls && (s.calls[r].pc.Bypass? || s.calls[r].pc.Fetch? || s.calls[r].pc.FetchAgain?)
    case Put(r, _) => r in s.calls && s.calls[r].pc.Store?
  }

  predicate AwaitsReply(s: State, r: Reader) {
    r in s.calls && s.calls[r].pc.Recovering? && s.calls[r].pc.b in s.bumps && s.bumps[s.calls[r].pc.b].unanswered
  }

  function GoTo(s: State, r: Reader, pc: Pc): State
    requires r in s.calls
  {
    s.(calls := s.calls[r := s.calls[r].(pc := pc)])
  }

  function Answered(s: State, b: BumpId): State
    requires b in s.bumps
  {
    s.(bumps := s.bumps[b := s.bumps[b].(unanswered := false)])
  }

  function Next(s: State, st: Step): State
    requires Enabled(s, st)
  {
    match st
    case Commit => s.(db := s.db + 1)
    case Send(b, p, recovery) => s.(bumps := s.bumps[b := Bump(p, recovery, false, true, None)])
    case Land(b) => s.(births := s.births + [s.db], bumps := s.bumps[b := s.bumps[b].(landed := true)])
    case Succeed(b) => Answered(s, b).(unsafe := s.unsafe - {s.bumps[b].process})
    case Lose(b) => Answered(s, b).(unsafe := if s.bumps[b].recovery then s.unsafe else s.unsafe + {s.bumps[b].process})
    case Evict(g) => s.(entries := s.entries - {g})
    case Start(r, p) => s.(calls := s.calls[r := Call(p, if p in s.unsafe then Recover else ReadGeneration)])
    case AlreadySafe(r) => GoTo(s, r, ReadGeneration)
    case RecoverSend(r, b) =>
      GoTo(s.(bumps := s.bumps[b := Bump(s.calls[r].process, true, false, true, Some(r))]), r, Recovering(b))
    case RecoverOk(r) =>
      GoTo(Answered(s, s.calls[r].pc.b).(unsafe := s.unsafe - {s.calls[r].process}), r, ReadGeneration)
    case RecoverLost(r) => GoTo(Answered(s, s.calls[r].pc.b), r, Bypass)
    case Generation(r) =>
      var pc := s.calls[r].pc;
      var g := Current(s);
      GoTo(s, r, if pc.ReadGeneration? then Lookup(g)
                 else if pc.ReadAgain? then LookupAgain(g)
                 else if pc.g == g then Store(g, pc.v) else FetchAgain(g))
    case NoGeneration(r) =>
      var pc := s.calls[r].pc;
      GoTo(s, r, if pc.Recheck? then Done(pc.v) else Bypass)
    case Hit(r) => GoTo(s, r, Done(s.entries[s.calls[r].pc.g]))
    case Miss(r) =>
      var pc := s.calls[r].pc;
      GoTo(s, r, if pc.Lookup? then ReadAgain else Fetch(pc.g))
    case Factory(r) =>
      var pc := s.calls[r].pc;
      GoTo(s, r, if pc.Bypass? then Done(s.db) else if pc.Fetch? then Recheck(pc.g, s.db) else Store(pc.g, s.db))
    case Put(r, stored) =>
      var pc := s.calls[r].pc;
      GoTo(if stored then s.(entries := s.entries[pc.g := pc.v]) else s, r, Done(pc.v))
  }

  ghost predicate Init(s: State) {
    s.births == [0] && s.entries == map[] && s.unsafe == {} && s.bumps == map[] && s.calls == map[]
  }

  ghost predicate Steps(run: seq<State>, sched: seq<Step>) {
    && |run| == |sched| + 1
    && forall i | 0 <= i < |sched| :: Taken(run, sched, i)
  }

  ghost predicate Taken(run: seq<State>, sched: seq<Step>, i: nat)
    requires |run| == |sched| + 1 && i < |sched|
  {
    Enabled(run[i], sched[i]) && run[i + 1] == Next(run[i], sched[i])
  }

  /** The steps lead from one state to another. */
  ghost predicate Leads(s: State, sched: seq<Step>, t: State)
    decreases |sched|
  {
    if sched == [] then s == t else Enabled(s, sched[0]) && Leads(Next(s, sched[0]), sched[1..], t)
  }
}

/** Which calls cannot return anything older than a given write, exactly. */
module CacheFreshness {
  import opened Shared
  import opened Cache

  ghost predicate BirthsOk(s: State) {
    && s.births != []
    && (forall i, j | 0 <= i <= j < |s.births| :: s.births[i] <= s.births[j])
    && s.births[|s.births| - 1] <= s.db
  }

  /** An entry stored under a generation was read after that generation was observed. */
  ghost predicate EntryOk(s: State, g: nat) {
    g in s.entries ==> g < |s.births| && s.births[g] <= s.entries[g] <= s.db
  }

  ghost predicate CallOk(s: State, r: Reader) {
    r in s.calls ==>
      match s.calls[r].pc
      case Recovering(b) => b in s.bumps && s.bumps[b].reader == Some(r) && s.bumps[b].process == s.calls[r].process
      case Lookup(g) => g < |s.births|
      case LookupAgain(g) => g < |s.births|
      case Fetch(g) => g < |s.births|
      case FetchAgain(g) => g < |s.births|
      case Recheck(g, v) => g < |s.births| && s.births[g] <= v <= s.db
      case Store(g, v) => g < |s.births| && s.births[g] <= v <= s.db
      case Done(v) => v <= s.db
      case _ => true
  }

  /** An unanswered increment on a reader's path has its reader waiting for it. */
  ghost predicate BumpOk(s: State, b: BumpId) {
    b in s.bumps && s.bumps[b].reader.Some? && s.bumps[b].unanswered ==>
      s.bumps[b].reader.value in s.calls && s.calls[s.bumps[b].reader.value].pc == Recovering(b)
  }

  ghost predicate Inv(s: State) {
    && BirthsOk(s)
    && (forall g {:trigger EntryOk(s, g)} :: EntryOk(s, g))
    && (forall r {:trigger CallOk(s, r)} :: CallOk(s, r))
    && (forall b {:trigger BumpOk(s, b)} :: BumpOk(s, b))
  }

  predicate OfCall(st: Step) {
    !(st.Commit? || st.Send? || st.Land? || st.Succeed? || st.Lose? || st.Evict?)
  }

  /** Generations are only added. */
  lemma NextGrows(s: State, st: Step)
    requires BirthsOk(s) && Enabled(s, st)
    ensures BirthsOk(Next(s, st)) && s.births <= Next(s, st).births && s.db <= Next(s, st).db
    ensures !st.Land? ==> Next(s, st).births == s.births
  {
    match st {
      case Land(_) => assert Next(s, st).births == s.births + [s.db];
      case Commit =>
      case RecoverSend(_, _) =>
      case RecoverOk(_) =>
      case RecoverLost(_) =>
      case Put(_, _) =>
      case _ => assert Next(s, st).births == s.births && Next(s, st).db == s.db;
    }
  }

  /** Nobody else's step moves a call. */
  lemma NextOthers(s: State, st: Step, r: Reader)
    requires Enabled(s, st) && (OfCall(st) ==> st.r != r)
    ensures r in Next(s, st).calls <==> r in s.calls
    ensures r in s.calls ==> Next(s, st).calls[r] == s.calls[r]
  {
    match st {
      case RecoverSend(_, _) =>
      case RecoverOk(_) =>
      case RecoverLost(_) =>
      case Put(_, _) =>
      case _ =>
    }
  }

  /** Increments keep their process and their reader. */
  lemma NextBumps(s: State, st: Step, b: BumpId)
    requires Enabled(s, st) && b in s.bumps
    ensures b in Next(s, st).bumps && Next(s, st).bumps[b].process == s.bumps[b].process
    ensures Next(s, st).bumps[b].reader == s.bumps[b].reader
    ensures Next(s, st).bumps[b].unanswered ==> s.bumps[b].unanswered
    ensures Next(s, st).bumps[b].landed == (s.bumps[b].landed || st == Land(b))
  {
    match st {
      case RecoverSend(_, _) =>
      case RecoverOk(_) =>
      case RecoverLost(_) =>
      case Put(_, _) =>
      case _ =>
    }
  }

  lemma NextCall(s: State, st: Step, r: Reader)
    requires Inv(s) && Enabled(s, st)
    ensures CallOk(Next(s, st), r)
  {
    NextGrows(s, st);
    assert CallOk(s, r);
    if OfCall(st) && st.r == r {
      MovingCall(s, st);
    } else {
      NextOthers(s, st, r);
      if r in s.calls && s.calls[r].pc.Recovering? {
        NextBumps(s, st, s.calls[r].pc.b);
      }
      hide Next;
      hide Enabled;
    }
  }

  lemma MovingCall(s: State, st: Step)
    requires Inv(s) && Enabled(s, st) && OfCall(st)
    ensures CallOk(Next(s, st), st.r)
  {
    assert CallOk(s, st.r);
    match st {
      case Start(_, _) =>
      case AlreadySafe(_) =>
      case RecoverSend(_, _) =>
      case RecoverOk(_) =>
      case RecoverLost(_) =>
      case Hit(r) => assert EntryOk(s, s.calls[r].pc.g);
      case Generation(_) =>
      case NoGeneration(_) =>
      case Miss(_) =>
      case Factory(_) =>
      case Put(_, _) =>
    }
  }

  lemma NextEntry(s: State, st: Step, g: nat)
    requires Inv(s) && Enabled(s, st)
    ensures EntryOk(Next(s, st), g)
  {
    NextGrows(s, st);
    assert EntryOk(s, g);
    match st {
      case Put(r, _) => assert CallOk(s, r);
      case Evict(_) =>
      case RecoverSend(_, _) =>
      case RecoverOk(_) =>
      case RecoverLost(_) =>
      case _ => assert Next(s, st).entries == s.entries;
    }
  }

  lemma NextBump(s: State, st: Step, b: BumpId)
    requires Inv(s) && Enabled(s, st)
    ensures BumpOk(Next(s, st), b)
  {
    assert BumpOk(s, b);
    if b in s.bumps {
      NextBumps(s, st, b);
      if s.bumps[b].reader.Some? && s.bumps[b].unanswered {
        var r := s.bumps[b].reader.value;
        assert CallOk(s, r);
        if OfCall(st) && st.r == r {
          AnsweredReader(s, st, b);
        } else {
          NextOthers(s, st, r);
          hide Next;
          hide Enabled;
        }
      }
    } else {
      NewBump(s, st, b);
    }
  }

  lemma AnsweredReader(s: State, st: Step, b: BumpId)
    requires Enabled(s, st) && OfCall(st) && st.r in s.calls && b in s.bumps && s.calls[st.r].pc == Recovering(b)
    ensures !Next(s, st).bumps[b].unanswered
  {
  }

  lemma NewBump(s: State, st: Step, b: BumpId)
    requires Enabled(s, st) && b !in s.bumps
    ensures b in Next(s, st).bumps ==> BumpOk(Next(s, st), b)
  {
    match st {
      case Send(_, _, _) =>
      case RecoverSend(_, _) =>
      case RecoverOk(_) =>
      case RecoverLost(_) =>
      case Put(_, _) =>
      case _ =>
    }
  }

  lemma NextKeepsInv(s: State, st: Step)
    requires Inv(s) && Enabled(s, st)
    ensures Inv(Next(s, st))
  {
    var t := Next(s, st);
    NextGrows(s, st);
    hide Next;
    forall g {:trigger EntryOk(t, g)} ensures EntryOk(t, g) {
      NextEntry(s, st, g);
    }
    forall r {:trigger CallOk(t, r)} ensures CallOk(t, r) {
      NextCall(s, st, r);
    }
    forall b {:trigger BumpOk(t, b)} ensures BumpOk(t, b) {
      NextBump(s, st, b);
    }
  }

  lemma {:induction false} RunKeepsInv(run: seq<State>, sched: seq<Step>, i: nat)
    requires Steps(run, sched) && Init(run[0]) && i < |run|
    ensures Inv(run[i])
  {
    if i > 0 {
      RunKeepsInv(run, sched, i - 1);
      assert Taken(run, sched, i - 1);
      NextKeepsInv(run[i - 1], sched[i - 1]);
    }
  }

  // ---- What protects a call from a write ----

  /** A value older than w is on its way into generation g. */
  predicate HoldsOld(s: State, r: Reader, g: nat, w: Version) {
    r in s.calls && (s.calls[r].pc.Store? || s.calls[r].pc.Recheck?) && s.calls[r].pc.g == g && s.calls[r].pc.v < w
  }

  /** Nothing older than w is stored, or about to be stored, under generation g. */
  ghost predicate Clean(s: State, g: nat, w: Version) {
    && (g in s.entries ==> w <= s.entries[g])
    && forall r {:trigger HoldsOld(s, r, g, w)} :: !HoldsOld(s, r, g, w)
  }

  /** A reply that could make the process take itself for safe on the strength of an increment already made. */
  predicate StaleReply(s: State, p: Process, b: BumpId) {
    b in s.bumps && s.bumps[b].process == p && s.bumps[b].landed && s.bumps[b].unanswered
  }

  /** The process knows itself unsafe, and only an increment yet to be made can tell it otherwise. */
  ghost predicate Guarded(s: State, p: Process) {
    p in s.unsafe && forall b {:trigger StaleReply(s, p, b)} :: !StaleReply(s, p, b)
  }

  /** A call that process p starts now is protected from missing w. */
  ghost predicate Protected(s: State, p: Process, w: Version) {
    Clean(s, Current(s), w) || Guarded(s, p)
  }

  ghost predicate Fresh(s: State, r: Reader, w: Version) {
    r in s.calls &&
    match s.calls[r].pc
    case Recover => Protected(s, s.calls[r].process, w)
    case Recovering(_) => Protected(s, s.calls[r].process, w)
    case ReadGeneration => Clean(s, Current(s), w)
    case ReadAgain => Clean(s, Current(s), w)
    case Lookup(g) => Clean(s, g, w) && Clean(s, Current(s), w)
    case LookupAgain(g) => Clean(s, g, w)
    case Recheck(_, v) => w <= v
    case Store(_, v) => w <= v
    case Done(v) => w <= v
    case _ => true
  }

  /** Whatever is put on its way after w was committed is at least as new. */
  lemma NextHoldsOld(s: State, st: Step, r: Reader, g: nat, w: Version)
    requires Inv(s) && Enabled(s, st) && w <= s.db && !HoldsOld(s, r, g, w)
    ensures !HoldsOld(Next(s, st), r, g, w)
  {
    if OfCall(st) && st.r == r {
      match st {
        case Start(_, _) =>
        case AlreadySafe(_) =>
        case RecoverSend(_, _) =>
        case RecoverOk(_) =>
        case RecoverLost(_) =>
        case Hit(_) =>
        case Generation(_) =>
        case NoGeneration(_) =>
        case Miss(_) =>
        case Factory(_) =>
        case Put(_, _) =>
      }
    } else {
      NextOthers(s, st, r);
      hide Next;
      hide Enabled;
    }
  }

  lemma NextStored(s: State, st: Step, g: nat)
    requires Enabled(s, st)
    ensures g in Next(s, st).entries ==>
              || (g in s.entries && Next(s, st).entries[g] == s.entries[g])
              || (st.Put? && s.calls[st.r].pc.g == g && Next(s, st).entries[g] == s.calls[st.r].pc.v)
  {
    match st {
      case Put(_, _) =>
      case Evict(_) =>
      case RecoverSend(_, _) =>
      case RecoverOk(_) =>
      case RecoverLost(_) =>
      case _ => assert Next(s, st).entries == s.entries;
    }
  }

  lemma NextClean(s: State, st: Step, g: nat, w: Version)
    requires Inv(s) && Enabled(s, st) && w <= s.db && Clean(s, g, w)
    ensures Clean(Next(s, st), g, w)
  {
    NextStored(s, st, g);
    if st.Put? {
      assert !HoldsOld(s, st.r, g, w);
    }
    forall r {:trigger HoldsOld(Next(s, st), r, g, w)} ensures !HoldsOld(Next(s, st), r, g, w) {
      assert !HoldsOld(s, r, g, w);
      NextHoldsOld(s, st, r, g, w);
    }
    hide Next;
  }

  /** A new generation is born clean. */
  lemma BornClean(s: State, w: Version)
    requires Inv(s)
    ensures Clean(s, |s.births|, w)
  {
    assert EntryOk(s, |s.births|);
    forall r {:trigger HoldsOld(s, r, |s.births|, w)} ensures !HoldsOld(s, r, |s.births|, w) {
      assert CallOk(s, r);
    }
  }

  lemma NextCurrentClean(s: State, st: Step, w: Version)
    requires Inv(s) && Enabled(s, st) && w <= s.db && (Clean(s, Current(s), w) || st.Land?)
    ensures Clean(Next(s, st), Current(Next(s, st)), w)
  {
    NextGrows(s, st);
    if st.Land? {
      BornClean(s, w);
      NextClean(s, st, |s.births|, w);
    } else {
      NextClean(s, st, Current(s), w);
    }
    hide Clean;
  }

  /** A guarded process stays guarded until an increment lands, whatever replies arrive. */
  lemma NextGuarded(s: State, st: Step, p: Process)
    requires Inv(s) && Enabled(s, st) && Guarded(s, p) && !st.Land?
    ensures Guarded(Next(s, st), p)
  {
    var t := Next(s, st);
    forall b {:trigger StaleReply(t, p, b)} ensures !StaleReply(t, p, b) {
      assert !StaleReply(s, p, b);
      if b in s.bumps {
        NextBumps(s, st, b);
      } else {
        NewBumpIsUnlanded(s, st, b);
      }
    }
    UnsafeUntilReply(s, st, p);
    hide Next;
  }

  lemma NewBumpIsUnlanded(s: State, st: Step, b: BumpId)
    requires Enabled(s, st) && b !in s.bumps
    ensures b in Next(s, st).bumps ==> !Next(s, st).bumps[b].landed
  {
    match st {
      case Send(_, _, _) =>
      case RecoverSend(_, _) =>
      case RecoverOk(_) =>
      case RecoverLost(_) =>
      case Put(_, _) =>
      case _ =>
    }
  }

  lemma UnsafeUntilReply(s: State, st: Step, p: Process)
    requires Inv(s) && Enabled(s, st) && Guarded(s, p)
    ensures p in Next(s, st).unsafe
  {
    match st {
      case Succeed(b) => assert !StaleReply(s, p, b);
      case RecoverOk(r) =>
        assert CallOk(s, r) && !StaleReply(s, p, s.calls[r].pc.b);
      case Lose(_) =>
      case RecoverSend(_, _) =>
      case RecoverLost(_) =>
      case Put(_, _) =>
      case _ => assert Next(s, st).unsafe == s.unsafe;
    }
  }

  lemma NextProtected(s: State, st: Step, p: Process, w: Version)
    requires Inv(s) && Enabled(s, st) && w <= s.db && Protected(s, p, w)
    ensures Protected(Next(s, st), p, w)
  {
    if Clean(s, Current(s), w) || st.Land? {
      NextCurrentClean(s, st, w);
    } else {
      NextGuarded(s, st, p);
    }
    hide Next;
    hide Clean;
    hide Guarded;
  }

  lemma NextFresh(s: State, st: Step, r: Reader, w: Version)
    requires Inv(s) && Enabled(s, st) && w <= s.db && Fresh(s, r, w)
    ensures Fresh(Next(s, st), r, w)
  {
    if OfCall(st) && st.r == r {
      MovingFresh(s, st, w);
    } else {
      NextOthers(s, st, r);
      IdleFresh(s, st, r, w);
    }
  }

  lemma IdleFresh(s: State, st: Step, r: Reader, w: Version)
    requires Inv(s) && Enabled(s, st) && w <= s.db && Fresh(s, r, w)
    requires r in Next(s, st).calls && Next(s, st).calls[r] == s.calls[r]
    ensures Fresh(Next(s, st), r, w)
  {
    hide Next;
    hide Enabled;
    hide Clean;
    hide Protected;
    match s.calls[r].pc {
      case Recover => NextProtected(s, st, s.calls[r].process, w);
      case Recovering(_) => NextProtected(s, st, s.calls[r].process, w);
      case ReadGeneration => NextCurrentClean(s, st, w);
      case ReadAgain => NextCurrentClean(s, st, w);
      case Lookup(g) => NextClean(s, st, g, w); NextCurrentClean(s, st, w);
      case LookupAgain(g) => NextClean(s, st, g, w);
      case _ =>
    }
  }

  /** Told safe by a reply, a protected process is protected by the generation itself. */
  lemma ReplyMeansClean(s: State, p: Process, w: Version)
    requires Protected(s, p, w) && (p !in s.unsafe || exists b :: StaleReply(s, p, b))
    ensures Clean(s, Current(s), w)
  {
  }

  lemma MovingFresh(s: State, st: Step, w: Version)
    requires Inv(s) && Enabled(s, st) && OfCall(st) && w <= s.db && Fresh(s, st.r, w)
    ensures Fresh(Next(s, st), st.r, w)
  {
    var r := st.r;
    assert CallOk(s, r);
    match st {
      case AlreadySafe(_) =>
        ReplyMeansClean(s, s.calls[r].process, w);
        NextCurrentClean(s, st, w);
      case RecoverSend(_, _) => NextProtected(s, st, s.calls[r].process, w);
      case RecoverOk(_) =>
        assert StaleReply(s, s.calls[r].process, s.calls[r].pc.b);
        ReplyMeansClean(s, s.calls[r].process, w);
        NextCurrentClean(s, st, w);
      case RecoverLost(_) =>
      case Hit(_) =>
      case Generation(_) =>
        if !s.calls[r].pc.Recheck? {
          NextCurrentClean(s, st, w);
        }
      case NoGeneration(_) =>
      case Miss(_) =>
        if s.calls[r].pc.Lookup? {
          NextCurrentClean(s, st, w);
        }
      case Factory(_) =>
      case Put(_, _) =>
    }
  }

  // ---- Whole runs ----

  lemma StartIsFresh(s: State, r: Reader, p: Process, w: Version)
    requires Inv(s) && Enabled(s, Start(r, p)) && w <= s.db && Protected(s, p, w)
    ensures Fresh(Next(s, Start(r, p)), r, w)
  {
    NextProtected(s, Start(r, p), p, w);
    if p !in s.unsafe {
      ReplyMeansClean(s, p, w);
      NextCurrentClean(s, Start(r, p), w);
    }
  }

  lemma {:induction false} RunIsFresh(run: seq<State>, sched: seq<Step>, i: nat, j: nat, r: Reader, w: Version)
    requires Steps(run, sched) && Init(run[0]) && i <= j < |run| && w <= run[i].db && Fresh(run[i], r, w)
    ensures Fresh(run[j], r, w) && w <= run[j].db
    decreases j
  {
    if i < j {
      RunIsFresh(run, sched, i, j - 1, r, w);
      assert Taken(run, sched, j - 1);
      RunKeepsInv(run, sched, j - 1);
      NextFresh(run[j - 1], sched[j - 1], r, w);
      NextGrows(run[j - 1], sched[j - 1]);
    }
  }

  lemma {:induction false} RunIsProtected(run: seq<State>, sched: seq<Step>, i: nat, j: nat, p: Process, w: Version)
    requires Steps(run, sched) && Init(run[0]) && i <= j < |run| && w <= run[i].db && Protected(run[i], p, w)
    ensures Protected(run[j], p, w) && w <= run[j].db
    decreases j
  {
    if i < j {
      RunIsProtected(run, sched, i, j - 1, p, w);
      assert Taken(run, sched, j - 1);
      RunKeepsInv(run, sched, j - 1);
      NextProtected(run[j - 1], sched[j - 1], p, w);
      NextGrows(run[j - 1], sched[j - 1]);
    }
  }

  /** Protected once, protected for every call that starts later; none returns an uncommitted version either. */
  lemma ProtectedReadsAreFresh(run: seq<State>, sched: seq<Step>, i: nat, start: nat, end: nat, r: Reader, p: Process, w: Version)
    requires Steps(run, sched) && Init(run[0]) && i <= start < |sched| && start < end < |run|
    requires w <= run[i].db && Protected(run[i], p, w)
    requires sched[start] == Start(r, p) && r in run[end].calls && run[end].calls[r].pc.Done?
    ensures w <= run[end].calls[r].pc.v <= run[end].db
  {
    assert Taken(run, sched, start);
    RunIsProtected(run, sched, i, start, p, w);
    RunKeepsInv(run, sched, start);
    StartIsFresh(run[start], r, p, w);
    NextGrows(run[start], sched[start]);
    RunIsFresh(run, sched, start + 1, end, r, w);
    RunKeepsInv(run, sched, end);
    assert CallOk(run[end], r);
  }

  /**
   * Freshness: once any increment has landed after a write, whether its reply came back or was lost, and whether it
   * was sent to invalidate or to recover, every get_or_set that starts later in any process returns something at
   * least as new as that write.
   */
  lemma ReadsAreFresh(run: seq<State>, sched: seq<Step>, fence: nat, start: nat, end: nat, r: Reader, p: Process)
    requires Steps(run, sched) && Init(run[0]) && fence < start < |sched| && start < end < |run|
    requires sched[fence].Land?
    requires sched[start] == Start(r, p) && r in run[end].calls && run[end].calls[r].pc.Done?
    ensures run[fence].db <= run[end].calls[r].pc.v <= run[end].db
  {
    assert Taken(run, sched, fence);
    RunKeepsInv(run, sched, fence);
    NextCurrentClean(run[fence], sched[fence], run[fence].db);
    ProtectedReadsAreFresh(run, sched, fence + 1, start, end, r, p, run[fence].db);
  }

  /**
   * After an invalidation whose reply was lost, the writer's own process is protected as well, provided no other
   * increment of that process has landed and is still to be answered.
   */
  lemma FailedBumpGuards(run: seq<State>, sched: seq<Step>, fence: nat, start: nat, end: nat, r: Reader, p: Process)
    requires Steps(run, sched) && Init(run[0]) && fence < start < |sched| && start < end < |run|
    requires sched[fence].Lose? && sched[fence].b in run[fence].bumps
    requires run[fence].bumps[sched[fence].b].process == p && !run[fence].bumps[sched[fence].b].recovery
    requires forall b | b != sched[fence].b :: !StaleReply(run[fence], p, b)
    requires sched[start] == Start(r, p) && r in run[end].calls && run[end].calls[r].pc.Done?
    ensures run[fence].db <= run[end].calls[r].pc.v <= run[end].db
  {
    assert Taken(run, sched, fence);
    forall b {:trigger StaleReply(run[fence + 1], p, b)} ensures !StaleReply(run[fence + 1], p, b) {
      assert b != sched[fence].b ==> !StaleReply(run[fence], p, b);
    }
    assert Guarded(run[fence + 1], p);
    ProtectedReadsAreFresh(run, sched, fence + 1, start, end, r, p, run[fence].db);
  }
}

/** And only those: an unprotected call can return something older. */
module CacheExactness {
  import opened Shared
  import opened Cache
  import opened CacheFreshness

  lemma {:induction false} LeadsTogether(s: State, first: seq<Step>, t: State, second: seq<Step>, u: State)
    requires Leads(s, first, t) && Leads(t, second, u)
    ensures Leads(s, first + second, u)
    decreases |first|
  {
    if first == [] {
      assert first + second == second;
    } else {
      LeadsTogether(Next(s, first[0]), first[1..], t, second, u);
      assert (first + second)[1..] == first[1..] + second;
    }
  }

  lemma OneStep(s: State, st: Step)
    requires Enabled(s, st)
    ensures Leads(s, [st], Next(s, st))
  {
    assert [st][1..] == [];
    assert Leads(Next(s, st), [], Next(s, st));
  }

  lemma Append(s: State, sched: seq<Step>, t: State, st: Step)
    requires Leads(s, sched, t) && Enabled(t, st)
    ensures Leads(s, sched + [st], Next(t, st))
  {
    OneStep(t, st);
    LeadsTogether(s, sched, t, [st], Next(t, st));
  }

  lemma {:induction false} LeadsKeepsFresh(s: State, sched: seq<Step>, t: State, r: Reader, w: Version)
    requires Inv(s) && w <= s.db && Fresh(s, r, w) && Leads(s, sched, t)
    ensures Fresh(t, r, w)
    decreases |sched|
  {
    if sched != [] {
      NextKeepsInv(s, sched[0]);
      NextGrows(s, sched[0]);
      NextFresh(s, sched[0], r, w);
      LeadsKeepsFresh(Next(s, sched[0]), sched[1..], t, r, w);
    }
  }

  /** However things go on from here, a call that p starts now returns w or newer. */
  ghost predicate NeverStale(s: State, p: Process, w: Version) {
    forall sched, t, r | |sched| > 0 && sched[0] == Start(r, p) && Leads(s, sched, t) && r in t.calls && t.calls[r].pc.Done? ::
      w <= t.calls[r].pc.v
  }

  /** The reader sees an old entry of the current generation. */
  lemma ReadOldEntry(s: State, r: Reader, w: Version) returns (sched: seq<Step>, t: State)
    requires s.births != [] && r in s.calls && s.calls[r].pc.ReadGeneration? && Current(s) in s.entries && s.entries[Current(s)] < w
    ensures Leads(s, sched, t) && r in t.calls && t.calls[r].pc.Done? && t.calls[r].pc.v < w
  {
    var s1 := Next(s, Generation(r));
    OneStep(s, Generation(r));
    Append(s, [Generation(r)], s1, Hit(r));
    sched, t := [Generation(r)] + [Hit(r)], Next(s1, Hit(r));
  }

  /** Another call about to store an old value under the current generation does so first. */
  lemma StoreOldValue(s: State, o: Reader, w: Version) returns (sched: seq<Step>, t: State)
    requires HoldsOld(s, o, Current(s), w)
    ensures Leads(s, sched, t) && t.births == s.births && Current(t) in t.entries && t.entries[Current(t)] < w
    ensures forall r | r in s.calls && r != o :: r in t.calls && t.calls[r] == s.calls[r]
  {
    if s.calls[o].pc.Store? {
      OneStep(s, Put(o, true));
      sched, t := [Put(o, true)], Next(s, Put(o, true));
    } else {
      var s1 := Next(s, Generation(o));
      OneStep(s, Generation(o));
      Append(s, [Generation(o)], s1, Put(o, true));
      sched, t := [Generation(o)] + [Put(o, true)], Next(s1, Put(o, true));
    }
  }

  lemma ReadGenerationIsStale(s: State, r: Reader, w: Version) returns (sched: seq<Step>, t: State)
    requires Inv(s) && r in s.calls && s.calls[r].pc.ReadGeneration? && !Clean(s, Current(s), w)
    ensures Leads(s, sched, t) && r in t.calls && t.calls[r].pc.Done? && t.calls[r].pc.v < w
  {
    if Current(s) in s.entries && s.entries[Current(s)] < w {
      sched, t := ReadOldEntry(s, r, w);
    } else {
      var o :| HoldsOld(s, o, Current(s), w);
      var first, m := StoreOldValue(s, o, w);
      var second;
      second, t := ReadOldEntry(m, r, w);
      LeadsTogether(s, first, m, second, t);
      sched := first + second;
    }
  }

  /** A stale reply makes the process take itself for safe; the current generation is as it was. */
  lemma TakeStaleReply(s: State, p: Process, b: BumpId) returns (st: Step)
    requires Inv(s) && StaleReply(s, p, b)
    ensures Enabled(s, st) && p !in Next(s, st).unsafe && Next(s, st).births == s.births && Next(s, st).entries == s.entries
    ensures forall r | r in s.calls && !s.calls[r].pc.Recovering? :: r in Next(s, st).calls && Next(s, st).calls[r] == s.calls[r]
  {
    if s.bumps[b].reader.None? {
      st := Succeed(b);
    } else {
      assert BumpOk(s, b) && CallOk(s, s.bumps[b].reader.value);
      st := RecoverOk(s.bumps[b].reader.value);
    }
  }

  lemma StillUnclean(s: State, t: State, g: nat, w: Version)
    requires !Clean(s, g, w) && t.entries == s.entries
    requires forall r | r in s.calls && !s.calls[r].pc.Recovering? :: r in t.calls && t.calls[r] == s.calls[r]
    ensures !Clean(t, g, w)
  {
    if g !in s.entries || w <= s.entries[g] {
      var o :| HoldsOld(s, o, g, w);
      assert HoldsOld(t, o, g, w);
    }
  }

  lemma {:induction false} FreshReader(ids: set<Reader>) returns (r: Reader)
    ensures forall i | i in ids :: i < r
    decreases |ids|
  {
    if i :| i in ids {
      var rest := FreshReader(ids - {i});
      r := if i < rest then rest else i + 1;
      assert forall j | j in ids :: j == i || j in ids - {i};
    } else {
      r := 0;
    }
  }

  lemma UnprotectedIsStale(s: State, p: Process, w: Version) returns (sched: seq<Step>, t: State, r: Reader)
    requires Inv(s) && !Protected(s, p, w)
    ensures |sched| > 0 && sched[0] == Start(r, p) && Leads(s, sched, t)
    ensures r in t.calls && t.calls[r].pc.Done? && t.calls[r].pc.v < w
  {
    r := FreshReader(s.calls.Keys);
    assert r !in s.calls;
    var s1 := Next(s, Start(r, p));
    OneStep(s, Start(r, p));
    NextKeepsInv(s, Start(r, p));
    StillUnclean(s, s1, Current(s), w);
    var rest, prefix := [], [Start(r, p)];
    var m := s1;
    if p in s.unsafe {
      var b :| StaleReply(s, p, b);
      assert StaleReply(s1, p, b);
      var st := TakeStaleReply(s1, p, b);
      Append(s, prefix, s1, st);
      NextKeepsInv(s1, st);
      var s2 := Next(s1, st);
      StillUnclean(s1, s2, Current(s), w);
      Append(s, prefix + [st], s2, AlreadySafe(r));
      NextKeepsInv(s2, AlreadySafe(r));
      m := Next(s2, AlreadySafe(r));
      prefix := prefix + [st] + [AlreadySafe(r)];
      StillUncleanForOthers(s2, m, r, Current(s), w);
    }
    rest, t := ReadGenerationIsStale(m, r, w);
    LeadsTogether(s, prefix, m, rest, t);
    sched := prefix + rest;
  }

  lemma StillUncleanForOthers(s: State, t: State, r: Reader, g: nat, w: Version)
    requires !Clean(s, g, w) && t.entries == s.entries && r in s.calls && s.calls[r].pc.Recover?
    requires forall o | o in s.calls && o != r :: o in t.calls && t.calls[o] == s.calls[o]
    ensures !Clean(t, g, w)
  {
    if g !in s.entries || w <= s.entries[g] {
      var o :| HoldsOld(s, o, g, w);
      assert HoldsOld(t, o, g, w);
    }
  }

  /**
   * Exactly: from a reachable state no call that process p starts can miss the write w if and only if nothing older
   * than w is stored or about to be stored under the current generation, or the process knows itself unsafe and no
   * increment of its own has landed and is still to be answered.
   */
  lemma ProtectionIsExact(s: State, p: Process, w: Version)
    requires Inv(s) && w <= s.db
    ensures Protected(s, p, w) <==> NeverStale(s, p, w)
  {
    if Protected(s, p, w) {
      forall sched, t, r | |sched| > 0 && sched[0] == Start(r, p) && Leads(s, sched, t) && r in t.calls && t.calls[r].pc.Done?
        ensures w <= t.calls[r].pc.v
      {
        StartIsFresh(s, r, p, w);
        NextKeepsInv(s, Start(r, p));
        NextGrows(s, Start(r, p));
        LeadsKeepsFresh(Next(s, Start(r, p)), sched[1..], t, r, w);
      }
    } else {
      var sched, t, r := UnprotectedIsStale(s, p, w);
    }
  }

  // ---- Two protections one might expect ----

  /** One call fills the cache under the current generation. */
  function Fill(r: Reader, p: Process): seq<Step> {
    [Start(r, p), Generation(r), Miss(r), Generation(r)] + [Miss(r), Factory(r), Generation(r), Put(r, true)]
  }

  lemma FourSteps(a: State, b: State, c: State, d: State, e: State, sched: seq<Step>)
    requires |sched| == 4
    requires Enabled(a, sched[0]) && Next(a, sched[0]) == b
    requires Enabled(b, sched[1]) && Next(b, sched[1]) == c
    requires Enabled(c, sched[2]) && Next(c, sched[2]) == d
    requires Enabled(d, sched[3]) && Next(d, sched[3]) == e
    ensures Leads(a, sched, e)
  {
    hide Next;
    hide Enabled;
    assert Leads(e, [], e);
    assert sched[3..][1..] == [] && sched[2..][1..] == sched[3..] && sched[1..][1..] == sched[2..];
    assert Leads(d, sched[3..], e);
    assert Leads(c, sched[2..], e);
    assert Leads(b, sched[1..], e);
  }

  function At(s: State, r: Reader, p: Process, pc: Pc): State {
    s.(calls := s.calls[r := Call(p, pc)])
  }

  function Filled(s: State, r: Reader, p: Process): State {
    At(s, r, p, Done(s.db)).(entries := s.entries[Current(s) := s.db])
  }

  lemma FillMisses(s: State, r: Reader, p: Process)
    requires r !in s.calls && p !in s.unsafe
    ensures Leads(s, [Start(r, p), Generation(r), Miss(r), Generation(r)], At(s, r, p, LookupAgain(Current(s))))
  {
    var g := Current(s);
    FourSteps(s, At(s, r, p, ReadGeneration), At(s, r, p, Lookup(g)), At(s, r, p, ReadAgain), At(s, r, p, LookupAgain(g)),
              [Start(r, p), Generation(r), Miss(r), Generation(r)]);
  }

  lemma FetchRechecks(s: State, r: Reader, p: Process)
    ensures var looked, fetched := At(s, r, p, LookupAgain(Current(s))), At(s, r, p, Fetch(Current(s)));
            && Enabled(looked, Miss(r)) && Next(looked, Miss(r)) == fetched
            && Enabled(fetched, Factory(r)) && Next(fetched, Factory(r)) == At(s, r, p, Recheck(Current(s), s.db))
  {
  }

  lemma RecheckStores(s: State, r: Reader, p: Process)
    ensures var checked, last := At(s, r, p, Recheck(Current(s), s.db)), At(s, r, p, Store(Current(s), s.db));
            && Enabled(checked, Generation(r)) && Next(checked, Generation(r)) == last
            && Enabled(last, Put(r, true)) && Next(last, Put(r, true)) == Filled(s, r, p)
  {
  }

  lemma FillStores(s: State, r: Reader, p: Process)
    ensures Leads(At(s, r, p, LookupAgain(Current(s))), [Miss(r), Factory(r), Generation(r), Put(r, true)], Filled(s, r, p))
  {
    var g := Current(s);
    var last := At(s, r, p, Store(g, s.db));
    FetchRechecks(s, r, p);
    RecheckStores(s, r, p);
    hide At;
    hide Filled;
    hide Next;
    hide Enabled;
    FourSteps(At(s, r, p, LookupAgain(g)), At(s, r, p, Fetch(g)), At(s, r, p, Recheck(g, s.db)), last, Filled(s, r, p),
              [Miss(r), Factory(r), Generation(r), Put(r, true)]);
  }

  lemma FillLeads(s: State, r: Reader, p: Process)
    requires r !in s.calls && p !in s.unsafe
    ensures Leads(s, Fill(r, p), Filled(s, r, p))
  {
    hide Leads;
    hide Next;
    hide Enabled;
    hide At;
    hide Filled;
    FillMisses(s, r, p);
    FillStores(s, r, p);
    LeadsTogether(s, [Start(r, p), Generation(r), Miss(r), Generation(r)], At(s, r, p, LookupAgain(Current(s))),
                  [Miss(r), Factory(r), Generation(r), Put(r, true)], Filled(s, r, p));
  }

  const EMPTY: State := State(0, [0], map[], {}, map[], map[])

  /** Process 2 has filled the cache; process 1 commits, and the reply to its invalidation is lost. */
  const LOST: State := State(1, [0], map[0 := 0], {1}, map[1 := Bump(1, false, false, false, None)], map[0 := Call(2, Done(0))])

  lemma LostLeads()
    ensures Leads(EMPTY, Fill(0, 2) + ([Commit] + [Send(1, 1, false)] + [Lose(1)]), LOST)
  {
    FillLeads(EMPTY, 0, 2);
    var s := Filled(EMPTY, 0, 2);
    var s1 := s.(db := 1);
    var s2 := s1.(bumps := map[1 := Bump(1, false, false, true, None)]);
    OneStep(s, Commit);
    Append(s, [Commit], s1, Send(1, 1, false));
    Append(s, [Commit] + [Send(1, 1, false)], s2, Lose(1));
    assert Next(s2, Lose(1)) == LOST;
    LeadsTogether(EMPTY, Fill(0, 2), s, [Commit] + [Send(1, 1, false)] + [Lose(1)], LOST);
  }

  /** A failed invalidation protects only its own process: another one can still miss the write. */
  lemma FailedBumpIsLocal() returns (sched: seq<Step>)
    ensures Init(EMPTY) && Leads(EMPTY, sched, LOST)
    ensures sched == Fill(0, 2) + ([Commit] + [Send(1, 1, false)] + [Lose(1)])
    ensures !NeverStale(LOST, 2, 1) && NeverStale(LOST, 1, 1)
  {
    hide Leads;
    sched := Fill(0, 2) + ([Commit] + [Send(1, 1, false)] + [Lose(1)]);
    LostLeads();
    LeadsKeepsInv(EMPTY, sched, LOST);
    ProtectionIsExact(LOST, 2, 1);
    ProtectionIsExact(LOST, 1, 1);
    assert Guarded(LOST, 1) && !Clean(LOST, 0, 1) && !Guarded(LOST, 2);
  }

  lemma {:induction false} LeadsKeepsInv(s: State, sched: seq<Step>, t: State)
    requires Inv(s) && Leads(s, sched, t)
    ensures Inv(t)
    decreases |sched|
  {
    if sched != [] {
      NextKeepsInv(s, sched[0]);
      LeadsKeepsInv(Next(s, sched[0]), sched[1..], t);
    }
  }

  /** Process 1 lost a reply and is recovering: its increment has landed, and its reply is on the way. */
  const RECOVERING: State :=
    State(0, [0, 0], map[], {1},
          map[1 := Bump(1, false, false, false, None), 2 := Bump(1, true, true, true, None)], map[])

  /** Then process 2 fills the new generation, process 1 commits, and that invalidation fails too. */
  const OVERTAKEN: State :=
    State(1, [0, 0], map[1 := 0], {1},
          map[1 := Bump(1, false, false, false, None), 2 := Bump(1, true, true, true, None), 3 := Bump(1, false, false, false, None)],
          map[0 := Call(2, Done(0))])

  lemma RecoveringLeads()
    ensures Leads(EMPTY, [Send(1, 1, false), Lose(1), Send(2, 1, true), Land(2)], RECOVERING)
  {
    var s1 := EMPTY.(bumps := map[1 := Bump(1, false, false, true, None)]);
    var s2 := EMPTY.(unsafe := {1}, bumps := map[1 := Bump(1, false, false, false, None)]);
    var s3 := s2.(bumps := s2.bumps[2 := Bump(1, true, false, true, None)]);
    FourSteps(EMPTY, s1, s2, s3, RECOVERING, [Send(1, 1, false), Lose(1), Send(2, 1, true), Land(2)]);
  }

  lemma OvertakenLeads()
    ensures Leads(RECOVERING, Fill(0, 2) + ([Commit] + [Send(3, 1, false)] + [Lose(3)]), OVERTAKEN)
  {
    FillLeads(RECOVERING, 0, 2);
    var s := Filled(RECOVERING, 0, 2);
    var s1 := s.(db := 1);
    var s2 := s1.(bumps := s1.bumps[3 := Bump(1, false, false, true, None)]);
    OneStep(s, Commit);
    Append(s, [Commit], s1, Send(3, 1, false));
    Append(s, [Commit] + [Send(3, 1, false)], s2, Lose(3));
    assert Next(s2, Lose(3)) == OVERTAKEN;
    LeadsTogether(RECOVERING, Fill(0, 2), s, [Commit] + [Send(3, 1, false)] + [Lose(3)], OVERTAKEN);
  }

  /**
   * A recovery can undo even that: the reply to an increment made before the write arrives after the failed
   * invalidation of the write, the process takes itself for safe, and its own readers can miss what it wrote.
   */
  lemma RecoveryCanOvertake() returns (sched: seq<Step>)
    ensures Init(EMPTY) && Leads(EMPTY, sched, OVERTAKEN)
    ensures sched == [Send(1, 1, false), Lose(1), Send(2, 1, true), Land(2)] +
                     (Fill(0, 2) + ([Commit] + [Send(3, 1, false)] + [Lose(3)]))
    ensures !NeverStale(OVERTAKEN, 1, 1)
  {
    hide Leads;
    RecoveringLeads();
    OvertakenLeads();
    sched := [Send(1, 1, false), Lose(1), Send(2, 1, true), Land(2)] + (Fill(0, 2) + ([Commit] + [Send(3, 1, false)] + [Lose(3)]));
    LeadsTogether(EMPTY, [Send(1, 1, false), Lose(1), Send(2, 1, true), Land(2)], RECOVERING,
                  Fill(0, 2) + ([Commit] + [Send(3, 1, false)] + [Lose(3)]), OVERTAKEN);
    LeadsKeepsInv(EMPTY, sched, OVERTAKEN);
    ProtectionIsExact(OVERTAKEN, 1, 1);
    assert StaleReply(OVERTAKEN, 1, 2) && !Clean(OVERTAKEN, 1, 1);
  }
}
