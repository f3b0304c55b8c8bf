/** The Patron aggregate as far as borrowing eligibility depends on it. */
module Patrons {
  import opened Shared
  import opened Lending

  /** A suspended patron has a reason on record, and only a suspended one. */
  datatype PatronState = PatronState(email: Email, tier: MembershipTier, suspended: bool, reason: Option<Text>, version: nat)

  function Rank(t: MembershipTier): nat {
    match t
    case Regular => 0
    case Premium => 1
    case Researcher => 2
  }

  /** A suspension with no usable reason (blank, or too long once normalised) carries none. */
  datatype PatronCommand = Suspend(reason: Option<Text>) | Reinstate | UpgradeTier(newTier: MembershipTier)

  datatype PatronEvent = PatronSuspended(reason: Text) | PatronReinstated

  function React(p: PatronState, cmd: PatronCommand): Result<PatronState> {
    match cmd
    case Suspend(reason) =>
      if p.suspended then Err(PatronAlreadySuspended)
      else if reason.None? then Err(InvalidSuspensionReason)
      else Ok(p.(suspended := true, reason := reason))
    case Reinstate => if !p.suspended then Err(PatronNotSuspended) else Ok(p.(suspended := false, reason := None))
    case UpgradeTier(t) => if Rank(t) <= Rank(p.tier) then Err(InvalidTierUpgrade) else Ok(p.(tier := t))
  }

  /** What an accepted command announces; tier changes are read, not announced. */
  function Announced(p: PatronState, cmd: PatronCommand): seq<PatronEvent>
    requires React(p, cmd).Ok?
  {
    match cmd
    case Suspend(reason) => [PatronSuspended(reason.value)]
    case Reinstate => [PatronReinstated]
    case UpgradeTier(_) => []
  }

  /** Which commands a patron accepts, and the answer each of the others gets. */
  lemma AcceptedExactly(p: PatronState, cmd: PatronCommand)
    ensures match cmd
            case Suspend(reason) =>
              && (React(p, cmd).Ok? <==> !p.suspended && reason.Some?)
              && (React(p, cmd).Err? ==> React(p, cmd).error == if p.suspended then PatronAlreadySuspended else InvalidSuspensionReason)
            case Reinstate => React(p, cmd).Ok? == p.suspended && (React(p, cmd).Err? ==> React(p, cmd).error == PatronNotSuspended)
            case UpgradeTier(t) =>
              && (React(p, cmd).Ok? <==> (p.tier == Regular && t != Regular) || (p.tier == Premium && t == Researcher))
              && (React(p, cmd).Err? ==> React(p, cmd).error == InvalidTierUpgrade)
  {
  }

  /** What an accepted command leaves behind, field by field, and what it announces. */
  lemma AcceptedLeaves(p: PatronState, cmd: PatronCommand, n: PatronState)
    requires React(p, cmd) == Ok(n)
    ensures n.email == p.email && n.version == p.version
    ensures match cmd
            case Suspend(reason) =>
              n.suspended && reason.Some? && n.reason == reason && n.tier == p.tier && Announced(p, cmd) == [PatronSuspended(reason.value)]
            case Reinstate => !n.suspended && n.reason == None && n.tier == p.tier && Announced(p, cmd) == [PatronReinstated]
            case UpgradeTier(t) => n.tier == t && n.suspended == p.suspended && n.reason == p.reason && Announced(p, cmd) == []
  {
  }

  function Run(p: PatronState, cmds: seq<PatronCommand>): PatronState
    decreases |cmds|
  {
    if cmds == [] then p
    else
      var before := Run(p, cmds[..|cmds| - 1]);
      match React(before, cmds[|cmds| - 1])
      case Ok(n) => n
      case Err(_) => before
  }

  /** Over any run a patron has a reason on record exactly while suspended, and its rank and limit never fall. */
  lemma {:induction false} RunKeepsStanding(p: PatronState, cmds: seq<PatronCommand>)
    requires p.suspended <==> p.reason.Some?
    ensures Run(p, cmds).suspended <==> Run(p, cmds).reason.Some?
    ensures Rank(p.tier) <= Rank(Run(p, cmds).tier) && Run(p, cmds).email == p.email
    ensures TermsFor(p.tier).maxOutstandingLoans <= TermsFor(Run(p, cmds).tier).maxOutstandingLoans
    decreases |cmds|
  {
    if cmds != [] {
      RunKeepsStanding(p, cmds[..|cmds| - 1]);
    }
  }

  /** No patron command ever lowers the number of loans Lending allows. */
  lemma LimitNeverShrinks(p: PatronState, cmd: PatronCommand)
    requires React(p, cmd).Ok?
    ensures TermsFor(p.tier).maxOutstandingLoans <= TermsFor(React(p, cmd).value.tier).maxOutstandingLoans
    ensures React(p, cmd).value.email == p.email && React(p, cmd).value.version == p.version
  {
  }
}

/** The mutable Patron entity, proved against the transition function above. */
module PatronEntities {
  import opened Shared
  import opened Lending
  import opened Patrons

  class Patron {
    const email: Email
    var tier: MembershipTier
    var suspended: bool
    var reason: Option<Text>
    var version: nat
    var events: seq<PatronEvent>

    function State(): PatronState reads this {
      PatronState(email, tier, suspended, reason, version)
    }

    ghost predicate Did(cmd: PatronCommand, was: PatronState, log: seq<PatronEvent>, r: Result<bool>)
      reads this
    {
      match Patrons.React(was, cmd)
      case Ok(n) => State() == n && events == log + Announced(was, cmd) && r == Ok(true)
      case Err(e) => State() == was && events == log && r == Err(e)
    }

    constructor FromRow(row: PatronState)
      ensures State() == row && events == []
    {
      email, tier, suspended, reason, version := row.email, row.tier, row.suspended, row.reason, row.version;
      events := [];
    }

    method Suspend(why: Option<Text>) returns (r: Result<bool>)
      modifies this
      ensures Did(PatronCommand.Suspend(why), old(State()), old(events), r)
    {
      if suspended {
        return Err(PatronAlreadySuspended);
      }
      if why.None? {
        return Err(InvalidSuspensionReason);
      }
      suspended, reason := true, why;
      events := events + [PatronSuspended(why.value)];
      return Ok(true);
    }

    method Reinstate() returns (r: Result<bool>)
      modifies this
      ensures Did(PatronCommand.Reinstate, old(State()), old(events), r)
    {
      if !suspended {
        return Err(PatronNotSuspended);
      }
      suspended, reason := false, None;
      events := events + [PatronReinstated];
      return Ok(true);
    }

    method UpgradeTier(newTier: MembershipTier) returns (r: Result<bool>)
      modifies this
      ensures Did(PatronCommand.UpgradeTier(newTier), old(State()), old(events), r)
    {
      if Rank(newTier) <= Rank(tier) {
        return Err(InvalidTierUpgrade);
      }
      tier := newTier;
      return Ok(true);
    }
  }
}
