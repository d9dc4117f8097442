/**
 When money may be allocated or moved, and what a success changes, said of ledger and request alone.
 */
module FundGuards {
  import opened Options
  import opened Strings
  import opened Texts
  import opened AllocationFill
  import opened ContributionLedger
  import opened ContributionRules
  import opened FundLedger
  import opened FundHistory

  // ----- Terms

  /** Zakat programs spend zakat, infak and sedekah programs infak and sedekah, the others kurban and other religious funds. */
  predicate Serves(program: ProgramFund, fund: FundType)
  {
    match fund
    case Zakat => program == ZakatProgram
    case Fitrah => program == ZakatProgram
    case InfakSedekah => program == InfakProgram || program == SedekahProgram
    case Kurban => program == OtherProgram
    case Dskl => program == OtherProgram
  }

  /** A purpose may be left out, or restated in any case and spacing at its ends. */
  predicate SamePurpose(own: string, asked: string)
  {
    Blank(own) || Blank(asked) || LowerCase(Trim(own)) == LowerCase(Trim(asked))
  }

  /** The fund is known, not changed and one the program may spend; the purpose is not changed. */
  predicate TermsAgree(c: Contribution, program: ProgramFund, request: FundRequest, asked: string)
  {
    c.fund.Some? && (request.Unstated? || request.fund == c.fund) && Serves(program, c.fund.value) && SamePurpose(c.purpose, asked)
  }

  /** The terms are the contribution's own; a purpose it does not state is the one asked for. */
  predicate TermsOf(c: Contribution, asked: string, fund: FundType, purpose: string)
  {
    c.fund == Some(fund) && purpose == if Blank(c.purpose) then Trim(asked) else Trim(c.purpose)
  }

  lemma {:induction false} TermsExactlyWhen(c: Contribution, program: ProgramFund, request: FundRequest, asked: string)
    ensures AllocationTerms(c, program, request, asked).Ok? <==> TermsAgree(c, program, request, asked)
    ensures AllocationTerms(c, program, request, asked).Ok? ==>
      TermsOf(c, asked, AllocationTerms(c, program, request, asked).value.fund, AllocationTerms(c, program, request, asked).value.purpose)
  {
    TrimIsTight(c.purpose);
    TrimIsTight(asked);
  }

  // ----- Allocating

  /** Everything allocated, promised or paid back and asked for is within the amount of an endorsed contribution of the activity's currency. */
  predicate MayAllocate(l: Ledger, q: AllocateRequest)
  {
    q.amount > 0 && q.contributionId in l.contributions && q.activityId in l.activities &&
    var r, activity := l.contributions[q.contributionId], l.activities[q.activityId];
    r.contribution.version == q.expectedVersion && r.contribution.status == Endorsed && r.contribution.currency == activity.currency &&
    TermsAgree(r.contribution, activity.program, q.fund, q.purpose) &&
    AllocatedTo(l.allocations, q.contributionId) + Refunded(r) + q.amount <= r.contribution.amount
  }

  lemma {:induction false} AllocatedExactlyWhen(l: Ledger, q: AllocateRequest, now: nat)
    ensures Allocated(l, q, now).Ok? <==> MayAllocate(l, q)
  {
    if q.contributionId in l.contributions && q.activityId in l.activities {
      TermsExactlyWhen(l.contributions[q.contributionId].contribution, l.activities[q.activityId].program, q.fund, q.purpose);
    }
  }

  /** One row more of the amount asked for, on the contribution's terms, with its history entry; no other row changes. */
  predicate AllocationIsMade(l: Ledger, end: Ledger, contribution: Text, activity: Text, amount: nat, asked: string, action: AllocationAction, now: nat)
    requires contribution in l.contributions
  {
    var n, c := |l.allocations|, l.contributions[contribution].contribution;
    |end.allocations| == n + 1 && RowIsMade(end.allocations[n], c, contribution, activity, amount, asked, now) &&
    end.log != [] && EntryIsMade(end.log[|end.log| - 1], n, c, contribution, activity, amount, action, now) &&
    end.contributions == l.contributions
  }

  predicate RowIsMade(row: Allocation, c: Contribution, contribution: Text, activity: Text, amount: nat, asked: string, now: nat)
  {
    row.contributionId == contribution && row.activityId == activity && row.amount == amount && row.currency == c.currency &&
    row.fund == c.fund && row.purpose == (if Blank(c.purpose) then Trim(asked) else Trim(c.purpose)) && row.status == Active &&
    row.contributionVersion == c.version && row.version == 1 && row.allocatedAt == now
  }

  predicate EntryIsMade(e: AllocationEntry, id: nat, c: Contribution, contribution: Text, activity: Text, amount: nat, action: AllocationAction, now: nat)
  {
    e.allocationId == id && e.contributionId == contribution && e.activityId == activity && e.amount == amount && e.action == action &&
    e.toStatus == Active && e.version == 1 && e.contributionVersion == c.version && e.occurredAt == now
  }

  lemma {:induction false} AllocatedChanges(l: Ledger, q: AllocateRequest, now: nat)
    requires Allocated(l, q, now).Ok?
    ensures q.contributionId in l.contributions
    ensures var end := Allocated(l, q, now).value;
      AllocationIsMade(l, end, q.contributionId, q.activityId, q.amount, q.purpose, Allocate, now) &&
      end.allocations[..|l.allocations|] == l.allocations && end.log[..|end.log| - 1] == l.log &&
      l.shares <= end.shares && end.decisions == l.decisions
  {
    AllocatedExactlyWhen(l, q, now);
    TermsExactlyWhen(l.contributions[q.contributionId].contribution, l.activities[q.activityId].program, q.fund, q.purpose);
  }

  // ----- Moving

  /** The activity can spare the amount, the allocation holds it, and the contribution still stands for it beside its refunds. */
  predicate CoversMove(q: ReallocateRequest, r: CollectionRecord, row: Allocation, availability: Availability)
  {
    availability.Available? && q.amount <= availability.amount && q.amount <= row.amount && q.amount + Refunded(r) <= r.contribution.amount
  }

  predicate ActivitiesAgree(l: Ledger, q: ReallocateRequest)
  {
    q.sourceActivityId in l.activities && q.targetActivityId in l.activities && q.sourceActivityId != q.targetActivityId &&
    var source, target := l.activities[q.sourceActivityId], l.activities[q.targetActivityId];
    source.version == q.expectedSourceVersion && (q.expectedTargetVersion.Some? ==> target.version == q.expectedTargetVersion.value) &&
    source.currency == target.currency
  }

  predicate MayMove(l: Ledger, q: ReallocateRequest, availability: Availability)
  {
    q.amount > 0 && ActivitiesAgree(l, q) && q.sourceAllocationId < |l.allocations| &&
    var row := l.allocations[q.sourceAllocationId];
    row.activityId == q.sourceActivityId && row.status == Active && row.contributionId in l.contributions &&
    var r := l.contributions[row.contributionId];
    r.contribution.status == Endorsed && TermsAgree(r.contribution, l.activities[q.targetActivityId].program, q.fund, q.purpose) &&
    CoversMove(q, r, row, availability)
  }

  lemma {:induction false} MoveGuardExactlyWhen(q: ReallocateRequest, r: CollectionRecord, row: Allocation, program: ProgramFund, availability: Availability)
    requires q.amount > 0
    ensures MoveGuard(q, r, row, program, availability).Ok? <==>
      r.contribution.status == Endorsed && TermsAgree(r.contribution, program, q.fund, q.purpose) && CoversMove(q, r, row, availability)
  {
    TermsExactlyWhen(r.contribution, program, q.fund, q.purpose);
  }

  lemma {:induction false} ReallocateGuardExactlyWhen(l: Ledger, q: ReallocateRequest, availability: Availability)
    ensures ReallocateGuard(l, q, availability).Ok? <==> MayMove(l, q, availability)
  {
    if q.amount > 0 && q.targetActivityId in l.activities && q.sourceAllocationId < |l.allocations| {
      var row := l.allocations[q.sourceAllocationId];
      if row.contributionId in l.contributions {
        MoveGuardExactlyWhen(q, l.contributions[row.contributionId], row, l.activities[q.targetActivityId].program, availability);
      }
    }
  }

  /** A move succeeds exactly when it may. */
  lemma {:induction false} MovedExactlyWhen(l: Ledger, q: ReallocateRequest, availability: Availability, now: nat)
    ensures MovedBetween(l, q, availability, now).Ok? <==> MayMove(l, q, availability)
  {
    ReallocateGuardExactlyWhen(l, q, availability);
  }

  /** The source row is less by the amount, and closed when nothing stays; no other row of before changes. */
  predicate SourceIsReduced(l: Ledger, end: Ledger, source: nat, amount: nat)
    requires source < |l.allocations|
  {
    |l.allocations| <= |end.allocations| &&
    var before, after := l.allocations[source], end.allocations[source];
    after.amount + amount == before.amount && (after.status == Reallocated <==> after.amount == 0) && after.version == before.version + 1 &&
    after.contributionId == before.contributionId && after.activityId == before.activityId && after.fund == before.fund &&
    forall i | 0 <= i < |l.allocations| && i != source :: end.allocations[i] == l.allocations[i]
  }

  /** The decision names both sides, what moved, and the versions it made. */
  predicate DecisionIsMade(l: Ledger, end: Ledger, q: ReallocateRequest, now: nat)
    requires q.sourceAllocationId < |l.allocations| && q.sourceActivityId in end.activities && q.targetActivityId in end.activities
  {
    |end.decisions| == |l.decisions| + 1 && end.decisions[..|l.decisions|] == l.decisions && |end.allocations| == |l.allocations| + 1 &&
    var d := end.decisions[|l.decisions|];
    d.sourceActivityId == q.sourceActivityId && d.targetActivityId == q.targetActivityId &&
    d.sourceAllocationId == q.sourceAllocationId && d.targetAllocationId == |l.allocations| &&
    d.contributionId == l.allocations[q.sourceAllocationId].contributionId && d.amount == q.amount && d.occurredAt == now &&
    Some(d.fund) == end.allocations[|l.allocations|].fund && d.purpose == end.allocations[|l.allocations|].purpose &&
    d.sourceActivityVersion == end.activities[q.sourceActivityId].version && d.targetActivityVersion == end.activities[q.targetActivityId].version &&
    d.sourceAllocationVersion == end.allocations[q.sourceAllocationId].version
  }

  predicate BothAreBumped(l: Ledger, end: Ledger, source: Text, target: Text)
  {
    end.activities.Keys == l.activities.Keys &&
    forall a | a in l.activities ::
      end.activities[a].version == (if a == source || a == target then l.activities[a].version + 1 else l.activities[a].version) &&
      end.activities[a].roster == l.activities[a].roster && end.activities[a].program == l.activities[a].program
  }

  lemma {:induction false} RowsAreMade(l: Ledger, q: ReallocateRequest, terms: Terms, now: nat) returns (rows: Ledger)
    requires q.sourceAllocationId < |l.allocations| && q.amount <= l.allocations[q.sourceAllocationId].amount
    requires l.allocations[q.sourceAllocationId].contributionId in l.contributions && q.targetActivityId in l.activities
    requires var c := l.contributions[l.allocations[q.sourceAllocationId].contributionId].contribution;
      TermsOf(c, q.purpose, terms.fund, terms.purpose)
    ensures var contribution := l.allocations[q.sourceAllocationId].contributionId;
      rows == Entered(Withdrawn(l, q.sourceAllocationId, q.amount, now), contribution, q.targetActivityId, q.amount, terms, ReallocateIn, now) &&
      SourceIsReduced(l, rows, q.sourceAllocationId, q.amount) &&
      AllocationIsMade(l, rows, contribution, q.targetActivityId, q.amount, q.purpose, ReallocateIn, now)
  {
    var out := Withdrawn(l, q.sourceAllocationId, q.amount, now);
    rows := Entered(out, l.allocations[q.sourceAllocationId].contributionId, q.targetActivityId, q.amount, terms, ReallocateIn, now);
    assert forall i | 0 <= i < |l.allocations| :: rows.allocations[i] == out.allocations[i];
  }

  lemma {:induction false} MovedSource(l: Ledger, q: ReallocateRequest, availability: Availability, now: nat)
    requires Linked(l) && MovedBetween(l, q, availability, now).Ok?
    ensures q.sourceAllocationId < |l.allocations| && l.allocations[q.sourceAllocationId].contributionId in l.contributions
    ensures var end, contribution := MovedBetween(l, q, availability, now).value, l.allocations[q.sourceAllocationId].contributionId;
      SourceIsReduced(l, end, q.sourceAllocationId, q.amount) &&
      AllocationIsMade(l, end, contribution, q.targetActivityId, q.amount, q.purpose, ReallocateIn, now)
  {
    var contribution := l.allocations[q.sourceAllocationId].contributionId;
    var terms := ReallocateGuard(l, q, availability).value;
    MovedRows(l, q, terms, now);
    TermsExactlyWhen(l.contributions[contribution].contribution, l.activities[q.targetActivityId].program, q.fund, q.purpose);
    var rows := RowsAreMade(l, q, terms, now);
  }

  lemma {:induction false} MovedLog(l: Ledger, q: ReallocateRequest, terms: Terms, now: nat)
    requires Linked(l) && q.sourceAllocationId < |l.allocations| && q.amount <= l.allocations[q.sourceAllocationId].amount
    requires l.allocations[q.sourceAllocationId].activityId == q.sourceActivityId && q.targetActivityId in l.activities
    ensures var end, n := Moved(l, q, terms, now), |l.log|;
      |end.log| == n + 2 && end.log[..n] == l.log && end.log[n].allocationId == q.sourceAllocationId &&
      end.log[n].action == ReallocateOut && end.log[n].amount == q.amount && end.log[n].activityId == q.sourceActivityId
  {
    MovedRows(l, q, terms, now);
  }

  lemma {:induction false} RecordedBumps(l: Ledger, d: Decision, now: nat)
    requires d.sourceActivityId in l.activities && d.targetActivityId in l.activities && d.sourceActivityId != d.targetActivityId
    ensures var end := Recorded(l, d, now);
      BothAreBumped(l, end, d.sourceActivityId, d.targetActivityId) && end.decisions == l.decisions + [d] && end.allocations == l.allocations
  {
  }

  lemma {:induction false} MovedDecision(l: Ledger, q: ReallocateRequest, terms: Terms, now: nat)
    requires Linked(l) && q.sourceAllocationId < |l.allocations| && q.amount <= l.allocations[q.sourceAllocationId].amount
    requires l.allocations[q.sourceAllocationId].activityId == q.sourceActivityId && q.targetActivityId in l.activities
    requires q.sourceActivityId != q.targetActivityId
    ensures var end := Moved(l, q, terms, now);
      BothAreBumped(l, end, q.sourceActivityId, q.targetActivityId) &&
      q.sourceActivityId in end.activities && q.targetActivityId in end.activities && DecisionIsMade(l, end, q, now)
  {
    var d, exchanged := DecisionOf(l, q, terms, now), Exchanged(l, q, terms, now);
    assert exchanged.activities == l.activities && exchanged.decisions == l.decisions;
    RecordedBumps(exchanged, d, now);
    MovedRows(l, q, terms, now);
  }

  /** A successful move: what it took, what it made, what it logged and what it put on record. */
  lemma {:induction false} MovedChanges(l: Ledger, q: ReallocateRequest, availability: Availability, now: nat)
    requires Linked(l) && MovedBetween(l, q, availability, now).Ok?
    ensures q.sourceAllocationId < |l.allocations| && l.allocations[q.sourceAllocationId].contributionId in l.contributions
    ensures var end, n := MovedBetween(l, q, availability, now).value, |l.log|;
      SourceIsReduced(l, end, q.sourceAllocationId, q.amount) &&
      AllocationIsMade(l, end, l.allocations[q.sourceAllocationId].contributionId, q.targetActivityId, q.amount, q.purpose, ReallocateIn, now) &&
      |end.log| == n + 2 && end.log[..n] == l.log && end.log[n].allocationId == q.sourceAllocationId &&
      end.log[n].action == ReallocateOut && end.log[n].amount == q.amount &&
      BothAreBumped(l, end, q.sourceActivityId, q.targetActivityId) &&
      q.sourceActivityId in end.activities && q.targetActivityId in end.activities && DecisionIsMade(l, end, q, now)
  {
    var terms := ReallocateGuard(l, q, availability).value;
    MovedSource(l, q, availability, now);
    MovedLog(l, q, terms, now);
    MovedDecision(l, q, terms, now);
  }

  // ----- Refusals

  predicate AllocateRefusalHolds(l: Ledger, q: AllocateRequest, e: FundError)
  {
    if e == InvalidAmount then q.amount == 0
    else if e == NoContribution then q.contributionId !in l.contributions
    else if e == NoActivity then q.activityId !in l.activities
    else if e == StaleVersion then q.contributionId in l.contributions && l.contributions[q.contributionId].contribution.version != q.expectedVersion
    else if e == NotEndorsed then q.contributionId in l.contributions && l.contributions[q.contributionId].contribution.status != Endorsed
    else if e == CurrencyMismatch then q.contributionId in l.contributions && q.activityId in l.activities && l.contributions[q.contributionId].contribution.currency != l.activities[q.activityId].currency
    else if e == OverLimit then q.contributionId in l.contributions && ExceedsAmount(l, q)
    else q.contributionId in l.contributions && q.activityId in l.activities && TermsRefusalIsSo(l.contributions[q.contributionId].contribution, l.activities[q.activityId].program, q.fund, q.purpose, e)
  }

  predicate ExceedsAmount(l: Ledger, q: AllocateRequest)
    requires q.contributionId in l.contributions
  {
    var r := l.contributions[q.contributionId];
    AllocatedTo(l.allocations, q.contributionId) + Refunded(r) + q.amount > r.contribution.amount
  }

  /** Each refusal names something that is so. */
  lemma {:induction false} AllocateRefusalIsSo(l: Ledger, q: AllocateRequest)
    requires AllocateGuard(l, q).Err?
    ensures AllocateRefusalHolds(l, q, AllocateGuard(l, q).error)
  {
    if q.contributionId in l.contributions && q.activityId in l.activities {
      TermsRefusal(l.contributions[q.contributionId].contribution, l.activities[q.activityId].program, q.fund, q.purpose);
    }
  }

  predicate TermsRefusalIsSo(c: Contribution, program: ProgramFund, request: FundRequest, asked: string, e: FundError)
  {
    if e == UnknownFund then c.fund.None?
    else if e == FundMismatch then request.Restated? && request.fund != c.fund
    else if e == FundNotSpendable then c.fund.Some? && !Serves(program, c.fund.value)
    else if e == PurposeMismatch then !SamePurpose(c.purpose, asked)
    else false
  }

  lemma {:induction false} TermsRefusal(c: Contribution, program: ProgramFund, request: FundRequest, asked: string)
    ensures AllocationTerms(c, program, request, asked).Err? ==> TermsRefusalIsSo(c, program, request, asked, AllocationTerms(c, program, request, asked).error)
  {
    TrimIsTight(c.purpose);
    TrimIsTight(asked);
  }

  predicate VersionsDiffer(l: Ledger, q: ReallocateRequest)
    requires q.sourceActivityId in l.activities && q.targetActivityId in l.activities
  {
    l.activities[q.sourceActivityId].version != q.expectedSourceVersion ||
    (q.expectedTargetVersion.Some? && l.activities[q.targetActivityId].version != q.expectedTargetVersion.value)
  }

  predicate MoveRefusalHolds(l: Ledger, q: ReallocateRequest, availability: Availability, e: FundError)
  {
    if e == InvalidAmount then q.amount == 0
    else if e == SameActivity then q.sourceActivityId == q.targetActivityId
    else if e == NoActivity then q.sourceActivityId !in l.activities || q.targetActivityId !in l.activities
    else if e == NoAllocation then q.sourceAllocationId >= |l.allocations|
    else if e == StaleVersion then q.sourceActivityId in l.activities && q.targetActivityId in l.activities && VersionsDiffer(l, q)
    else if e == CurrencyMismatch then q.sourceActivityId in l.activities && q.targetActivityId in l.activities && l.activities[q.sourceActivityId].currency != l.activities[q.targetActivityId].currency
    else q.sourceAllocationId < |l.allocations| && q.targetActivityId in l.activities && RowRefusalHolds(l, q, availability, e)
  }

  predicate RowRefusalHolds(l: Ledger, q: ReallocateRequest, availability: Availability, e: FundError)
    requires q.sourceAllocationId < |l.allocations| && q.targetActivityId in l.activities
  {
    var row := l.allocations[q.sourceAllocationId];
    if e == WrongActivity then row.activityId != q.sourceActivityId
    else if e == NotActive then row.status != Active
    else if e == NoContribution then row.contributionId !in l.contributions
    else row.contributionId in l.contributions && CoverRefusalHolds(q, l.contributions[row.contributionId], row, l.activities[q.targetActivityId].program, availability, e)
  }

  predicate CoverRefusalHolds(q: ReallocateRequest, r: CollectionRecord, row: Allocation, program: ProgramFund, availability: Availability, e: FundError)
  {
    if e == NotEndorsed then r.contribution.status != Endorsed
    else if e == OverMovable then q.amount + Refunded(r) > r.contribution.amount
    else if e == AvailabilityUnclear then availability == Unclear
    else if e == NothingAvailable then availability == NoneLeft || availability == Available(0)
    else if e == OverAvailable then availability.Available? && q.amount > availability.amount
    else if e == OverSource then q.amount > row.amount
    else TermsRefusalIsSo(r.contribution, program, q.fund, q.purpose, e)
  }

  lemma {:induction false} MoveGuardRefusal(q: ReallocateRequest, r: CollectionRecord, row: Allocation, program: ProgramFund, availability: Availability)
    ensures var outcome := MoveGuard(q, r, row, program, availability);
      outcome.Err? ==> CoverRefusalHolds(q, r, row, program, availability, outcome.error)
    ensures var outcome := MoveGuard(q, r, row, program, availability);
      outcome.Err? ==> outcome.error !in {InvalidAmount, SameActivity, NoActivity, NoAllocation, StaleVersion, CurrencyMismatch, WrongActivity, NotActive, NoContribution}
  {
    TermsRefusal(r.contribution, program, q.fund, q.purpose);
  }

  lemma {:induction false} MoveRefusalIsSo(l: Ledger, q: ReallocateRequest, availability: Availability)
    requires ReallocateGuard(l, q, availability).Err?
    ensures MoveRefusalHolds(l, q, availability, ReallocateGuard(l, q, availability).error)
  {
    if q.targetActivityId in l.activities && q.sourceAllocationId < |l.allocations| {
      var row := l.allocations[q.sourceAllocationId];
      if row.contributionId in l.contributions {
        MoveGuardRefusal(q, l.contributions[row.contributionId], row, l.activities[q.targetActivityId].program, availability);
      }
    }
  }

  // ----- Balances

  /** What is held, free and missing of a contribution: nothing is free beyond its amount, and something is missing only when more is held than it stands for. */
  lemma {:induction false} BalanceTells(r: CollectionRecord, held: nat)
    ensures var b := BalanceOf(r, held);
      var total := if r.contribution.status == Rejected then 0 else r.contribution.amount;
      b.held == held &&
      (if held + Refunded(r) <= total then b.unallocated + held + Refunded(r) == total else b.unallocated == 0) &&
      (if held + RefundSum(r.refunds, Paid) <= total then b.shortfall == 0
       else if RefundSum(r.refunds, Paid) <= total then b.shortfall + total == held + RefundSum(r.refunds, Paid)
       else b.shortfall == held)
  {
  }
}
