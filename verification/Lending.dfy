/** The Loan aggregate, Lending's borrowing policy and the due-date arithmetic. */
module Lending {
  import opened Shared

  datatype LoanStatus = Active | Returned | Overdue | Lost | Cancelled

  datatype LoanState = LoanState(
    claim: Claim,
    email: Email,
    title: Text,
    borrowedAt: Time,
    dueDate: Time,
    status: LoanStatus,
    returnedAt: Option<Time>,
    version: nat)
  {
    /** The shape checked when a loan is constructed or hydrated from its row. */
    predicate Valid() {
      && claim.generation >= 1
      && borrowedAt < dueDate
      && (status == Returned <==> returnedAt.Some?)
      && (returnedAt.Some? ==> borrowedAt <= returnedAt.value)
    }

    predicate Terminal() {
      status == Returned || status == Cancelled
    }

    /** Occupies the patron's limit and the one-outstanding-loan-per-book index. */
    predicate Outstanding() {
      !Terminal()
    }
  }

  datatype MembershipTier = Regular | Premium | Researcher

  datatype BorrowingTerms = BorrowingTerms(maxOutstandingLoans: nat, loanDurationDays: nat)

  function TermsFor(tier: MembershipTier): BorrowingTerms {
    match tier
    case Regular => BorrowingTerms(5, 14)
    case Premium => BorrowingTerms(10, 21)
    case Researcher => BorrowingTerms(20, 30)
  }

  function DaysAfter(t: Time, days: int): Time {
    t + days * DAY
  }

  predicate OverdueAsOf(dueDate: Time, now: Time) {
    now > dueDate
  }

  function CreateLoan(c: Claim, loan: LoanId, email: Email, title: Text, days: int, borrowedAt: Time): Transition<LoanState> {
    if c.generation < 1 then Failed(InvalidReservationGeneration)
    else if days <= 0 then Failed(InvalidLoanDuration)
    else
      var n := LoanState(c, email, title, borrowedAt, DaysAfter(borrowedAt, days), Active, None, 0);
      Changed(n, LoanCreated(c, loan, title, email, borrowedAt, n.dueDate))
  }

  function CompletionOf(id: LoanId, l: LoanState): Event
    requires l.returnedAt.Some?
  {
    LoanCompleted(l.claim, id, l.returnedAt.value, OverdueAsOf(l.dueDate, l.returnedAt.value))
  }

  function ReturnLoan(l: LoanState, id: LoanId, at: Time): Transition<LoanState> {
    if l.status == Returned then Unchanged
    else if l.status == Cancelled then Failed(LoanNotActive)
    else if at < l.borrowedAt then Failed(InvalidLoanReturnDate)
    else
      var n := l.(status := Returned, returnedAt := Some(at));
      Changed(n, CompletionOf(id, n))
  }

  function CancelLoan(l: LoanState, id: LoanId): Transition<LoanState> {
    if l.status == Cancelled then Unchanged
    else if l.status == Returned then Failed(LoanNotActive)
    else Changed(l.(status := Cancelled), LoanCancelled(l.claim, id))
  }

  function MarkOverdue(l: LoanState, id: LoanId, now: Time): Transition<LoanState> {
    if l.status != Active then Failed(LoanNotActive)
    else if !OverdueAsOf(l.dueDate, now) then Failed(LoanNotOverdue)
    else Changed(l.(status := Overdue), LoanOverdue(l.claim, id, l.dueDate))
  }

  function ExtendLoan(l: LoanState, id: LoanId, days: int, now: Time): Transition<LoanState> {
    if l.status != Active then Failed(LoanNotActive)
    else if OverdueAsOf(l.dueDate, now) then Failed(CannotExtendOverdueLoan)
    else if days <= 0 then Failed(InvalidLoanExtension)
    else
      var n := l.(dueDate := DaysAfter(l.dueDate, days));
      Changed(n, LoanExtended(l.claim, id, l.dueDate, n.dueDate))
  }

  datatype LoanCommand = DoReturn(at: Time) | DoCancel | DoOverdue(now: Time) | DoExtend(days: int, now: Time)

  function React(l: LoanState, id: LoanId, cmd: LoanCommand): Transition<LoanState> {
    match cmd
    case DoReturn(at) => ReturnLoan(l, id, at)
    case DoCancel => CancelLoan(l, id)
    case DoOverdue(now) => MarkOverdue(l, id, now)
    case DoExtend(days, now) => ExtendLoan(l, id, days, now)
  }

  lemma ReactKeepsShape(l: LoanState, id: LoanId, cmd: LoanCommand)
    requires l.Valid() && React(l, id, cmd).Changed?
    ensures var n := React(l, id, cmd).next;
            && n.Valid() && !l.Terminal()
            && n.claim == l.claim && n.email == l.email && n.title == l.title && n.borrowedAt == l.borrowedAt
            && n.dueDate >= l.dueDate && n.version == l.version
            && (n.status == Returned <==> cmd.DoReturn?)
            && (n.status == Cancelled <==> cmd.DoCancel?)
  {
  }

  /** Which messages a loan accepts, and the answer each of the others gets. */
  lemma AcceptedExactly(l: LoanState, id: LoanId, cmd: LoanCommand)
    ensures var t := React(l, id, cmd);
            match cmd
            case DoReturn(at) =>
              && (t.Changed? <==> l.status != Returned && l.status != Cancelled && l.borrowedAt <= at)
              && (t.Unchanged? <==> l.status == Returned)
              && (t.Failed? ==> t.error == if l.status == Cancelled then LoanNotActive else InvalidLoanReturnDate)
            case DoCancel =>
              && (t.Changed? <==> l.status != Returned && l.status != Cancelled)
              && (t.Unchanged? <==> l.status == Cancelled)
              && (t.Failed? ==> t.error == LoanNotActive)
            case DoOverdue(now) =>
              && (t.Changed? <==> l.status == Active && l.dueDate < now) && !t.Unchanged?
              && (t.Failed? ==> t.error == if l.status == Active then LoanNotOverdue else LoanNotActive)
            case DoExtend(days, now) =>
              && (t.Changed? <==> l.status == Active && now <= l.dueDate && days >= 1) && !t.Unchanged?
              && (t.Failed? ==>
                    t.error == if l.status != Active then LoanNotActive
                               else if l.dueDate < now then CannotExtendOverdueLoan else InvalidLoanExtension)
  {
  }

  /** What an accepted message leaves behind, field by field, and what it announces; a day has 86,400 seconds. */
  lemma AcceptedLeaves(l: LoanState, id: LoanId, cmd: LoanCommand)
    requires React(l, id, cmd).Changed?
    ensures var n, e := React(l, id, cmd).next, React(l, id, cmd).event;
            && (n.claim, n.email, n.title, n.borrowedAt, n.version) == (l.claim, l.email, l.title, l.borrowedAt, l.version)
            && e.claim == l.claim && !e.OfBook() && e.loan == id
            && match cmd
               case DoReturn(at) =>
                 && n.status == Returned && n.returnedAt == Some(at) && n.dueDate == l.dueDate
                 && e.LoanCompleted? && e.returnedAt == at && (e.wasOverdue <==> l.dueDate < at)
               case DoCancel =>
                 n.status == Cancelled && n.returnedAt == l.returnedAt && n.dueDate == l.dueDate && e.LoanCancelled?
               case DoOverdue(_) =>
                 && n.status == Overdue && n.returnedAt == l.returnedAt && n.dueDate == l.dueDate
                 && e.LoanOverdue? && e.dueDate == l.dueDate
               case DoExtend(days, _) =>
                 && n.status == Active && n.returnedAt == l.returnedAt && n.dueDate == l.dueDate + days * 86_400_000_000
                 && e.LoanExtended? && e.oldDueDate == l.dueDate && e.newDueDate == n.dueDate
  {
  }

  /** Lending's terms, and what opening a loan under them leaves and announces. */
  lemma OpenedUnderTerms(c: Claim, id: LoanId, email: Email, title: Text, tier: MembershipTier, at: Time)
    ensures (TermsFor(tier).maxOutstandingLoans, TermsFor(tier).loanDurationDays) ==
            match tier case Regular => (5, 14) case Premium => (10, 21) case Researcher => (20, 30)
    ensures var t := CreateLoan(c, id, email, title, TermsFor(tier).loanDurationDays, at);
            && (t.Changed? <==> c.generation >= 1) && (!t.Changed? ==> t == Failed(InvalidReservationGeneration))
            && (t.Changed? ==>
                  && (t.next.claim, t.next.email, t.next.title, t.next.borrowedAt) == (c, email, title, at)
                  && t.next.dueDate == at + (match tier case Regular => 14 case Premium => 21 case Researcher => 30) * 86_400_000_000
                  && t.next.status == Active && t.next.returnedAt == None && t.next.version == 0
                  && t.event.LoanCreated? && t.event.claim == c && t.event.loan == id && t.event.title == title
                  && t.event.email == email && t.event.borrowedAt == at && t.event.dueDate == t.next.dueDate)
  {
  }

  function Run(l: LoanState, id: LoanId, cmds: seq<LoanCommand>): LoanState
    decreases |cmds|
  {
    if cmds == [] then l
    else
      var l' := Run(l, id, cmds[..|cmds| - 1]);
      match React(l', id, cmds[|cmds| - 1])
      case Changed(n, _) => n
      case _ => l'
  }

  /** RETURNED and CANCELLED are absorbing: a terminal loan answers every message without changing. */
  lemma {:induction false} TerminalIsAbsorbing(l: LoanState, id: LoanId, cmds: seq<LoanCommand>)
    requires l.Terminal()
    ensures Run(l, id, cmds) == l
    decreases |cmds|
  {
    if cmds != [] {
      TerminalIsAbsorbing(l, id, cmds[..|cmds| - 1]);
    }
  }

  /** Over any run the identity facts are immutable and the due date only moves forward. */
  lemma {:induction false} RunKeepsFacts(l: LoanState, id: LoanId, cmds: seq<LoanCommand>)
    requires l.Valid()
    ensures var n := Run(l, id, cmds);
            n.Valid() && n.claim == l.claim && n.borrowedAt == l.borrowedAt && n.dueDate >= l.dueDate
    decreases |cmds|
  {
    if cmds != [] {
      RunKeepsFacts(l, id, cmds[..|cmds| - 1]);
      var l' := Run(l, id, cmds[..|cmds| - 1]);
      if React(l', id, cmds[|cmds| - 1]).Changed? {
        ReactKeepsShape(l', id, cmds[|cmds| - 1]);
      }
    }
  }

  /** The days added by the extensions of a run that went through. */
  function ExtensionDays(l: LoanState, id: LoanId, cmds: seq<LoanCommand>): int
    decreases |cmds|
  {
    if cmds == [] then 0
    else
      var front, last := cmds[..|cmds| - 1], cmds[|cmds| - 1];
      ExtensionDays(l, id, front) + if last.DoExtend? && React(Run(l, id, front), id, last).Changed? then last.days else 0
  }

  /** A loan is due its term after it was borrowed, plus every extension granted, and nothing else. */
  lemma {:induction false} DueDateAddsUp(c: Claim, id: LoanId, email: Email, title: Text, days: int, borrowedAt: Time,
                                         cmds: seq<LoanCommand>)
    requires CreateLoan(c, id, email, title, days, borrowedAt).Changed?
    ensures var l := CreateLoan(c, id, email, title, days, borrowedAt).next;
            && Run(l, id, cmds).dueDate == borrowedAt + (days + ExtensionDays(l, id, cmds)) * 86_400_000_000
            && Run(l, id, cmds).borrowedAt == borrowedAt && ExtensionDays(l, id, cmds) >= 0
    decreases |cmds|
  {
    if cmds != [] {
      DueDateAddsUp(c, id, email, title, days, borrowedAt, cmds[..|cmds| - 1]);
    }
  }
}

/** The mutable Loan entity, proved against the transition functions above. */
module LendingEntities {
  import opened Shared
  import opened Lending

  class Loan {
    const id: LoanId
    const claim: Claim
    const email: Email
    const title: Text
    const borrowedAt: Time
    var dueDate: Time
    var status: LoanStatus
    var returnedAt: Option<Time>
    var version: nat
    var events: seq<Event>

    function State(): LoanState reads this {
      LoanState(claim, email, title, borrowedAt, dueDate, status, returnedAt, version)
    }

    ghost predicate Did(t: Transition<LoanState>, was: LoanState, log: seq<Event>, r: Result<bool>)
      reads this
    {
      match t
      case Changed(n, e) => State() == n && events == log + [e] && r == Ok(true)
      case Unchanged => State() == was && events == log && r == Ok(false)
      case Failed(err) => State() == was && events == log && r == Err(err)
    }

    constructor FromRow(id: LoanId, row: LoanState)
      requires row.Valid()
      ensures this.id == id && State() == row && events == []
    {
      this.id := id;
      claim, email, title, borrowedAt := row.claim, row.email, row.title, row.borrowedAt;
      dueDate, status, returnedAt, version := row.dueDate, row.status, row.returnedAt, row.version;
      events := [];
    }

    method ReturnBook(at: Time) returns (r: Result<bool>)
      modifies this
      ensures Did(ReturnLoan(old(State()), id, at), old(State()), old(events), r)
    {
      if status == Returned {
        return Ok(false);
      }
      if status == Cancelled {
        return Err(LoanNotActive);
      }
      if at < borrowedAt {
        return Err(InvalidLoanReturnDate);
      }
      status := Returned;
      returnedAt := Some(at);
      events := events + [LoanCompleted(claim, id, at, OverdueAsOf(dueDate, at))];
      return Ok(true);
    }

    method Cancel() returns (r: Result<bool>)
      modifies this
      ensures Did(CancelLoan(old(State()), id), old(State()), old(events), r)
    {
      if status == Cancelled {
        return Ok(false);
      }
      if status == Returned {
        return Err(LoanNotActive);
      }
      status := Cancelled;
      events := events + [LoanCancelled(claim, id)];
      return Ok(true);
    }

    method MarkAsOverdue(now: Time) returns (r: Result<bool>)
      modifies this
      ensures Did(MarkOverdue(old(State()), id, now), old(State()), old(events), r)
    {
      if status != Active {
        return Err(LoanNotActive);
      }
      if !OverdueAsOf(dueDate, now) {
        return Err(LoanNotOverdue);
      }
      status := Overdue;
      events := events + [LoanOverdue(claim, id, dueDate)];
      return Ok(true);
    }

    method Extend(days: int, now: Time) returns (r: Result<bool>)
      modifies this
      ensures Did(ExtendLoan(old(State()), id, days, now), old(State()), old(events), r)
    {
      if status != Active {
        return Err(LoanNotActive);
      }
      if OverdueAsOf(dueDate, now) {
        return Err(CannotExtendOverdueLoan);
      }
      if days <= 0 {
        return Err(InvalidLoanExtension);
      }
      var previous := dueDate;
      dueDate := DaysAfter(dueDate, days);
      events := events + [LoanExtended(claim, id, previous, dueDate)];
      return Ok(true);
    }
  }

  /** Loading a row checks its shape, and raises on one that no transition could have left. */
  method Hydrate(id: LoanId, row: LoanState) returns (r: Result<Loan>)
    ensures if row.Valid() then r.Ok? && fresh(r.value) && r.value.id == id && r.value.State() == row && r.value.events == []
            else r == Err(CorruptRow)
    ensures r.Ok? <==>
              && row.claim.generation >= 1 && row.borrowedAt < row.dueDate
              && (row.status == Returned <==> row.returnedAt.Some?)
              && (row.returnedAt.Some? ==> row.borrowedAt <= row.returnedAt.value)
  {
    if !row.Valid() {
      return Err(CorruptRow);
    }
    var loan := new Loan.FromRow(id, row);
    return Ok(loan);
  }
}
