/**
 Allocating contributions to activities, moving allocations between activities, and attributing
 every allocation to the activity's aid lines. Each function is one transaction: a refused one
 yields an error and leaves no trace.
 */
module FundLedger {
  import opened Options
  import opened Strings
  import opened Texts
  import opened Pouring
  import opened AllocationFill
  import opened RosterFill
  import opened ContributionLedger

  datatype ProgramFund = ZakatProgram | InfakProgram | SedekahProgram | OtherProgram

  datatype Activity = Activity(program: ProgramFund, currency: Currency, roster: Roster, version: nat, updatedAt: nat)

  datatype AllocationStatus = Active | Reallocated

  /** `fund` is absent when the stored text names no known fund. */
  datatype Allocation = Allocation(
    contributionId: Text, activityId: Text, currency: Currency, amount: nat, fund: Option<FundType>, purpose: string,
    status: AllocationStatus, allocatedAt: nat, contributionVersion: nat, version: nat, updatedAt: nat)

  datatype ShareStatus = Held | Reversed

  datatype Share = Share(
    allocationId: nat, contributionId: Text, activityId: Text, aidLineId: Text, beneficiaryId: Text, asnaf: string,
    amount: nat, approved: nat, fillSequence: nat, status: ShareStatus, createdAt: nat, updatedAt: nat)

  datatype AllocationAction = Allocate | ReallocateOut | ReallocateIn

  datatype AllocationEntry = AllocationEntry(
    allocationId: nat, contributionId: Text, activityId: Text, version: nat, contributionVersion: nat,
    action: AllocationAction, toStatus: AllocationStatus, amount: nat, occurredAt: nat)

  datatype Decision = Decision(
    sourceActivityId: Text, targetActivityId: Text, sourceAllocationId: nat, targetAllocationId: nat, contributionId: Text,
    amount: nat, fund: FundType, purpose: string, sourceActivityVersion: nat, targetActivityVersion: nat,
    sourceAllocationVersion: nat, occurredAt: nat)

  /** The tables. A row of `allocations`, `shares`, `log` and `decisions` is named by its position. */
  datatype Ledger = Ledger(
    contributions: Store, activities: map<Text, Activity>, allocations: seq<Allocation>, shares: seq<Share>,
    log: seq<AllocationEntry>, decisions: seq<Decision>)

  datatype FundError =
    | InvalidAmount | NoContribution | NoActivity | NoAllocation | StaleVersion | NotEndorsed | CurrencyMismatch
    | UnknownFund | FundMismatch | FundNotSpendable | PurposeMismatch | OverLimit
    | SameActivity | WrongActivity | NotActive | OverMovable | AvailabilityUnclear | NothingAvailable | OverAvailable | OverSource

  // ----- Terms

  /** The fund an officer restates; `Restated(None)` when the text given names no known fund. */
  datatype FundRequest = Unstated | Restated(fund: Option<FundType>)

  datatype Terms = Terms(fund: FundType, purpose: string)

  function SpendableBy(program: ProgramFund): set<FundType>
  {
    match program
    case ZakatProgram => {Zakat, Fitrah}
    case InfakProgram => {InfakSedekah}
    case SedekahProgram => {InfakSedekah}
    case OtherProgram => {Kurban, Dskl}
  }

  /** Fund and purpose are the contribution's; a request may restate them but not change them. */
  function AllocationTerms(c: Contribution, program: ProgramFund, request: FundRequest, requestedPurpose: string): Result<Terms, FundError>
  {
    var (own, asked) := (Trim(c.purpose), Trim(requestedPurpose));
    if c.fund.None? then Err(UnknownFund)
    else if request.Restated? && request.fund != c.fund then Err(FundMismatch)
    else if c.fund.value !in SpendableBy(program) then Err(FundNotSpendable)
    else if asked != "" && own != "" && LowerCase(asked) != LowerCase(own) then Err(PurposeMismatch)
    else Ok(Terms(c.fund.value, if own != "" then own else asked))
  }

  // ----- Balances

  function RefundSum(refunds: seq<Refund>, status: RefundStatus): nat
  {
    if refunds == [] then 0
    else
      var last := refunds[|refunds| - 1];
      RefundSum(refunds[..|refunds| - 1], status) + (if last.status == status then last.amount else 0)
  }

  /** Everything of a contribution that active allocations hold. */
  function AllocatedTo(allocations: seq<Allocation>, contribution: Text): nat
  {
    if allocations == [] then 0
    else
      var last := allocations[|allocations| - 1];
      AllocatedTo(allocations[..|allocations| - 1], contribution) +
      (if last.status == Active && last.contributionId == contribution then last.amount else 0)
  }

  function AllocatableRemainder(total: nat, committed: nat, paid: nat, decided: nat): nat
  {
    Monus(Monus(total, paid), committed + decided)
  }

  datatype Balance = Balance(held: nat, unallocated: nat, shortfall: nat)

  /** A rejected contribution backs nothing. */
  function BalanceOf(r: CollectionRecord, held: nat): Balance
  {
    var total := if r.contribution.status == Rejected then 0 else r.contribution.amount;
    var paid := RefundSum(r.refunds, Paid);
    Balance(held, AllocatableRemainder(total, held, paid, RefundSum(r.refunds, Decided)), Monus(held, Monus(total, paid)))
  }

  // ----- Attribution

  /** How much of each aid line of an activity is taken. */
  function TakenIn(shares: seq<Share>, activity: Text): map<Text, nat>
  {
    if shares == [] then map[]
    else
      var s, before := shares[|shares| - 1], TakenIn(shares[..|shares| - 1], activity);
      if s.status == Held && s.activityId == activity then before[s.aidLineId := TakenOn(before, s.aidLineId) + s.amount] else before
  }

  /** Whose money a fill attributes. */
  datatype Owner = Owner(allocationId: nat, contributionId: Text, activityId: Text)

  function ShareRow(f: FillShare, owner: Owner, now: nat): Share
  {
    Share(owner.allocationId, owner.contributionId, owner.activityId, f.aidLineId, f.beneficiaryId, f.asnaf,
          f.share, f.approved, f.fillSequence, Held, now, now)
  }

  function ShareRows(fs: seq<FillShare>, owner: Owner, now: nat): seq<Share>
  {
    seq(|fs|, i requires 0 <= i < |fs| => ShareRow(fs[i], owner, now))
  }

  function FillFor(shares: seq<Share>, roster: Roster, activity: Text, fund: FundType, amount: nat): FillResult
  {
    Fill(amount, TargetsOf(roster, TakenIn(shares, activity)), fund)
  }

  function Attributed(shares: seq<Share>, roster: Roster, owner: Owner, fund: FundType, amount: nat, now: nat): seq<Share>
  {
    shares + ShareRows(FillFor(shares, roster, owner.activityId, fund, amount).shares, owner, now)
  }

  function ReversedRow(s: Share, allocation: nat, now: nat): Share
  {
    if s.allocationId == allocation && s.status == Held then s.(status := Reversed, updatedAt := now) else s
  }

  /** Shares are marked, never deleted. */
  function ReversedOf(shares: seq<Share>, allocation: nat, now: nat): seq<Share>
  {
    seq(|shares|, i requires 0 <= i < |shares| => ReversedRow(shares[i], allocation, now))
  }

  // ----- Placing money with an activity

  /** Every allocation stands with a known activity and contribution. */
  predicate Linked(l: Ledger)
  {
    forall i | 0 <= i < |l.allocations| ::
      l.allocations[i].activityId in l.activities && l.allocations[i].contributionId in l.contributions
  }

  function OwnerOf(row: Allocation, id: nat): Owner { Owner(id, row.contributionId, row.activityId) }

  /** Attributes an amount of one allocation to its activity's aid lines. */
  function WithShares(l: Ledger, id: nat, fund: FundType, amount: nat, now: nat): Ledger
    requires id < |l.allocations| && l.allocations[id].activityId in l.activities
  {
    var row := l.allocations[id];
    l.(shares := Attributed(l.shares, l.activities[row.activityId].roster, OwnerOf(row, id), fund, amount, now))
  }

  /** A new allocation with its history row. */
  function Entered(l: Ledger, contribution: Text, activity: Text, amount: nat, terms: Terms, action: AllocationAction, now: nat): Ledger
    requires contribution in l.contributions
  {
    var c := l.contributions[contribution].contribution;
    var row := Allocation(contribution, activity, c.currency, amount, Some(terms.fund), terms.purpose, Active, now, c.version, 1, now);
    l.(allocations := l.allocations + [row],
       log := l.log + [AllocationEntry(|l.allocations|, contribution, activity, 1, c.version, action, Active, amount, now)])
  }

  /** A new allocation with its history row and its shares. */
  function Placed(l: Ledger, contribution: Text, activity: Text, amount: nat, terms: Terms, action: AllocationAction, now: nat): Ledger
    requires contribution in l.contributions && activity in l.activities
  {
    WithShares(Entered(l, contribution, activity, amount, terms, action, now), |l.allocations|, terms.fund, amount, now)
  }

  function Touched(l: Ledger, activity: Text, bump: nat, now: nat): Ledger
    requires activity in l.activities
  {
    var row := l.activities[activity];
    l.(activities := l.activities[activity := row.(version := row.version + bump, updatedAt := now)])
  }

  datatype AllocateRequest = AllocateRequest(
    contributionId: Text, activityId: Text, amount: nat, fund: FundRequest, purpose: string, expectedVersion: int)

  /** Why an allocation is refused, or the terms on which it is made. */
  function AllocateGuard(l: Ledger, q: AllocateRequest): Result<Terms, FundError>
  {
    if q.amount == 0 then Err(InvalidAmount)
    else if q.contributionId !in l.contributions then Err(NoContribution)
    else
      var r := l.contributions[q.contributionId];
      if r.contribution.version != q.expectedVersion then Err(StaleVersion)
      else if r.contribution.status != Endorsed then Err(NotEndorsed)
      else if q.activityId !in l.activities then Err(NoActivity)
      else if r.contribution.currency != l.activities[q.activityId].currency then Err(CurrencyMismatch)
      else
        var terms := AllocationTerms(r.contribution, l.activities[q.activityId].program, q.fund, q.purpose);
        if terms.Err? then terms
        else if q.amount > AllocatableRemainder(r.contribution.amount, AllocatedTo(l.allocations, q.contributionId),
                                                RefundSum(r.refunds, Paid), RefundSum(r.refunds, Decided)) then Err(OverLimit)
        else terms
  }

  function Allocated(l: Ledger, q: AllocateRequest, now: nat): Result<Ledger, FundError>
  {
    match AllocateGuard(l, q)
    case Err(e) => Err(e)
    case Ok(terms) => Ok(Touched(Placed(l, q.contributionId, q.activityId, q.amount, terms, Allocate, now), q.activityId, 0, now))
  }

  // ----- Moving money to another activity

  /** What the source activity's accountability says may be moved. */
  datatype Availability = Unclear | NoneLeft | Available(amount: nat)

  datatype ReallocateRequest = ReallocateRequest(
    sourceActivityId: Text, targetActivityId: Text, sourceAllocationId: nat, amount: nat, fund: FundRequest, purpose: string,
    expectedSourceVersion: int, expectedTargetVersion: Option<int>)

  /** The source allocation after part or all of it moved out, its shares undone. */
  function Withdrawn(l: Ledger, source: nat, amount: nat, now: nat): Ledger
    requires source < |l.allocations| && amount <= l.allocations[source].amount
    requires l.allocations[source].contributionId in l.contributions
  {
    var row := l.allocations[source];
    var status := if row.amount == amount then Reallocated else Active;
    l.(allocations := l.allocations[source := row.(amount := row.amount - amount, status := status, version := row.version + 1, updatedAt := now)],
       log := l.log + [AllocationEntry(source, row.contributionId, row.activityId, row.version + 1,
                                       l.contributions[row.contributionId].contribution.version, ReallocateOut, status, amount, now)],
       shares := ReversedOf(l.shares, source, now))
  }

  function FundOf(row: Allocation, fallback: FundType): FundType
  {
    if row.fund.Some? then row.fund.value else fallback
  }

  /**
   What stays behind is filled again, as if the smaller allocation had been made in the first place;
   when nothing stays, there is nothing to fill.
   */
  function TakenOut(l: Ledger, source: nat, amount: nat, fallback: FundType, now: nat): Ledger
    requires source < |l.allocations| && amount <= l.allocations[source].amount
    requires l.allocations[source].activityId in l.activities && l.allocations[source].contributionId in l.contributions
  {
    WithShares(Withdrawn(l, source, amount, now), source, FundOf(l.allocations[source], fallback), l.allocations[source].amount - amount, now)
  }

  function ReallocateGuard(l: Ledger, q: ReallocateRequest, availability: Availability): Result<Terms, FundError>
  {
    if q.amount == 0 then Err(InvalidAmount)
    else if q.sourceActivityId == q.targetActivityId then Err(SameActivity)
    else if q.sourceActivityId !in l.activities || q.targetActivityId !in l.activities then Err(NoActivity)
    else
      var source, target := l.activities[q.sourceActivityId], l.activities[q.targetActivityId];
      if source.version != q.expectedSourceVersion then Err(StaleVersion)
      else if q.expectedTargetVersion.Some? && target.version != q.expectedTargetVersion.value then Err(StaleVersion)
      else if source.currency != target.currency then Err(CurrencyMismatch)
      else if q.sourceAllocationId >= |l.allocations| then Err(NoAllocation)
      else
        var row := l.allocations[q.sourceAllocationId];
        if row.activityId != q.sourceActivityId then Err(WrongActivity)
        else if row.status != Active then Err(NotActive)
        else if row.contributionId !in l.contributions then Err(NoContribution)
        else MoveGuard(q, l.contributions[row.contributionId], row, target.program, availability)
  }

  /** The second half: the contribution still backs the move, and the source can spare it. */
  function MoveGuard(q: ReallocateRequest, r: CollectionRecord, row: Allocation, program: ProgramFund, availability: Availability): Result<Terms, FundError>
  {
    if r.contribution.status != Endorsed then Err(NotEndorsed)
    else if q.amount > Monus(Monus(r.contribution.amount, RefundSum(r.refunds, Paid)), RefundSum(r.refunds, Decided)) then Err(OverMovable)
    else
      var terms := AllocationTerms(r.contribution, program, q.fund, q.purpose);
      if terms.Err? then terms
      else if availability.Unclear? then Err(AvailabilityUnclear)
      else if availability.NoneLeft? || availability.amount == 0 then Err(NothingAvailable)
      else if q.amount > availability.amount then Err(OverAvailable)
      else if q.amount > row.amount then Err(OverSource)
      else terms
  }

  function DecisionOf(l: Ledger, q: ReallocateRequest, terms: Terms, now: nat): Decision
    requires q.sourceAllocationId < |l.allocations| && q.sourceActivityId in l.activities && q.targetActivityId in l.activities
  {
    var row := l.allocations[q.sourceAllocationId];
    Decision(q.sourceActivityId, q.targetActivityId, q.sourceAllocationId, |l.allocations|, row.contributionId, q.amount, terms.fund, terms.purpose,
             l.activities[q.sourceActivityId].version + 1, l.activities[q.targetActivityId].version + 1, row.version + 1, now)
  }

  /** The money leaves the source allocation and arrives as a new one. */
  function Exchanged(l: Ledger, q: ReallocateRequest, terms: Terms, now: nat): Ledger
    requires q.sourceAllocationId < |l.allocations| && q.amount <= l.allocations[q.sourceAllocationId].amount
    requires l.allocations[q.sourceAllocationId].activityId in l.activities && q.targetActivityId in l.activities
    requires l.allocations[q.sourceAllocationId].contributionId in l.contributions
  {
    var out := TakenOut(l, q.sourceAllocationId, q.amount, terms.fund, now);
    Placed(out, l.allocations[q.sourceAllocationId].contributionId, q.targetActivityId, q.amount, terms, ReallocateIn, now)
  }

  /** A decision on record, and both activities' versions bumped. */
  function Recorded(l: Ledger, d: Decision, now: nat): Ledger
    requires d.sourceActivityId in l.activities && d.targetActivityId in l.activities
  {
    Touched(Touched(l.(decisions := l.decisions + [d]), d.sourceActivityId, 1, now), d.targetActivityId, 1, now)
  }

  function Moved(l: Ledger, q: ReallocateRequest, terms: Terms, now: nat): Ledger
    requires q.sourceAllocationId < |l.allocations| && q.amount <= l.allocations[q.sourceAllocationId].amount
    requires l.allocations[q.sourceAllocationId].activityId == q.sourceActivityId && q.sourceActivityId in l.activities
    requires l.allocations[q.sourceAllocationId].contributionId in l.contributions && q.targetActivityId in l.activities
  {
    Recorded(Exchanged(l, q, terms, now), DecisionOf(l, q, terms, now), now)
  }

  function MovedBetween(l: Ledger, q: ReallocateRequest, availability: Availability, now: nat): Result<Ledger, FundError>
  {
    match ReallocateGuard(l, q, availability)
    case Err(e) => Err(e)
    case Ok(terms) => Ok(Moved(l, q, terms, now))
  }

  // ----- Attributing what has no shares yet

  predicate HasShares(shares: seq<Share>, allocation: nat)
  {
    exists s | s in shares :: s.allocationId == allocation && s.status == Held
  }

  /** Position of an allocation's first history row; one past the end when it has none. */
  function FirstLogged(log: seq<AllocationEntry>, allocation: nat): (first: nat)
    ensures first <= |log|
  {
    if log == [] then 0
    else if log[0].allocationId == allocation then 0
    else 1 + FirstLogged(log[1..], allocation)
  }

  /** Oldest first within each activity. */
  predicate RecordedBefore(l: Ledger, i: nat, j: nat)
    requires i < |l.allocations| && j < |l.allocations|
  {
    var (a, b) := (l.allocations[i], l.allocations[j]);
    if a.activityId != b.activityId then Less(a.activityId, b.activityId)
    else if FirstLogged(l.log, i) != FirstLogged(l.log, j) then FirstLogged(l.log, i) < FirstLogged(l.log, j)
    else if a.allocatedAt != b.allocatedAt then a.allocatedAt < b.allocatedAt
    else i < j
  }

  predicate IsCandidate(l: Ledger, i: nat)
  {
    i < |l.allocations| && l.allocations[i].status == Active && !HasShares(l.shares, i)
  }

  predicate AllBelow(cs: seq<nat>, n: nat)
  {
    forall k | 0 <= k < |cs| :: cs[k] < n
  }

  function InsertCandidate(l: Ledger, i: nat, cs: seq<nat>): (r: seq<nat>)
    requires i < |l.allocations| && AllBelow(cs, |l.allocations|)
    ensures AllBelow(r, |l.allocations|) && |r| == |cs| + 1
  {
    if cs == [] then [i]
    else if RecordedBefore(l, cs[0], i) then [cs[0]] + InsertCandidate(l, i, cs[1..])
    else [i] + cs
  }

  /** The active allocations without shares among the first `n`, in recording order. */
  function CandidatesOf(l: Ledger, n: nat): (cs: seq<nat>)
    requires n <= |l.allocations|
    ensures AllBelow(cs, |l.allocations|)
  {
    if n == 0 then []
    else if IsCandidate(l, n - 1) then InsertCandidate(l, n - 1, CandidatesOf(l, n - 1))
    else CandidatesOf(l, n - 1)
  }

  datatype BackfillState = Attributing | Unattributable | Empty | UnknownFundType

  datatype BackfillOutcome = BackfillOutcome(
    allocationId: nat, activityId: Text, state: BackfillState, shareCount: nat, attributed: nat, unassigned: nat)

  datatype BackfillReport = BackfillReport(candidates: nat, outcomes: seq<BackfillOutcome>)

  function FilledTotal(fs: seq<FillShare>): nat
  {
    if fs == [] then 0 else FilledTotal(fs[..|fs| - 1]) + fs[|fs| - 1].share
  }

  function OutcomeOf(l: Ledger, shares: seq<Share>, i: nat): BackfillOutcome
    requires Linked(l) && i < |l.allocations|
  {
    var row := l.allocations[i];
    if row.amount == 0 then BackfillOutcome(i, row.activityId, Empty, 0, 0, row.amount)
    else if row.fund.None? then BackfillOutcome(i, row.activityId, UnknownFundType, 0, 0, row.amount)
    else
      var filled := FillFor(shares, l.activities[row.activityId].roster, row.activityId, row.fund.value, row.amount);
      BackfillOutcome(i, row.activityId, if |filled.shares| > 0 then Attributing else Unattributable,
                      |filled.shares|, FilledTotal(filled.shares), filled.unassigned)
  }

  function SharesAfterCandidate(l: Ledger, shares: seq<Share>, i: nat, now: nat): seq<Share>
    requires Linked(l) && i < |l.allocations|
  {
    var row := l.allocations[i];
    if row.amount == 0 || row.fund.None? then shares
    else Attributed(shares, l.activities[row.activityId].roster, OwnerOf(row, i), row.fund.value, row.amount, now)
  }

  function BackfilledShares(l: Ledger, cs: seq<nat>, now: nat): seq<Share>
    requires Linked(l) && AllBelow(cs, |l.allocations|)
  {
    if cs == [] then l.shares
    else SharesAfterCandidate(l, BackfilledShares(l, cs[..|cs| - 1], now), cs[|cs| - 1], now)
  }

  function BackfillOutcomes(l: Ledger, cs: seq<nat>, now: nat): seq<BackfillOutcome>
    requires Linked(l) && AllBelow(cs, |l.allocations|)
  {
    if cs == [] then []
    else
      var front := cs[..|cs| - 1];
      BackfillOutcomes(l, front, now) + [OutcomeOf(l, BackfilledShares(l, front, now), cs[|cs| - 1])]
  }

  function Backfilled(l: Ledger, now: nat): Ledger
    requires Linked(l)
  {
    l.(shares := BackfilledShares(l, CandidatesOf(l, |l.allocations|), now))
  }

  function ReportOf(l: Ledger, now: nat): BackfillReport
    requires Linked(l)
  {
    var cs := CandidatesOf(l, |l.allocations|);
    BackfillReport(|cs|, BackfillOutcomes(l, cs, now))
  }
}
