/**
 The fund ledger as the service keeps it. Each public method is one transaction over the tables: it
 checks its guards in order, writes the rows, and when it refuses leaves everything as it was.
 */
module FundBook {
  import opened Options
  import opened Texts
  import opened AllocationFill
  import opened RosterFill
  import opened ContributionLedger
  import opened ContributionStore
  import opened FundLedger

  class Book {
    const contributions: ContributionTable
    var activities: map<Text, Activity>
    var allocations: seq<Allocation>
    var shares: seq<Share>
    var log: seq<AllocationEntry>
    var decisions: seq<Decision>

    constructor (contributions: ContributionTable, activities: map<Text, Activity>)
      ensures this.contributions == contributions
      ensures Snapshot() == Ledger(contributions.records, activities, [], [], [], [])
    {
      this.contributions := contributions;
      this.activities := activities;
      allocations, shares, log, decisions := [], [], [], [];
    }

    /** All tables at once. */
    function Snapshot(): Ledger
      reads this, contributions
    {
      Ledger(contributions.records, activities, allocations, shares, log, decisions)
    }

    // ----- Attribution

    /** Adds up what each aid line of an activity has taken. */
    method TakenByLine(activityId: Text) returns (taken: map<Text, nat>)
      ensures taken == TakenIn(shares, activityId)
    {
      taken := map[];
      for i := 0 to |shares|
        invariant taken == TakenIn(shares[..i], activityId)
      {
        assert shares[..i + 1][..i] == shares[..i];
        var s := shares[i];
        if s.status == Held && s.activityId == activityId {
          taken := taken[s.aidLineId := TakenOn(taken, s.aidLineId) + s.amount];
        }
      }
      assert shares[..|shares|] == shares;
    }

    /** Attributes one allocation to the activity's aid lines. */
    method RecordBeneficiaryShares(owner: Owner, fund: FundType, amount: nat, now: nat) returns (result: FillResult)
      requires owner.activityId in activities
      modifies this`shares
      ensures result == FillFor(old(shares), activities[owner.activityId].roster, owner.activityId, fund, amount)
      ensures shares == Attributed(old(shares), activities[owner.activityId].roster, owner, fund, amount, now)
    {
      var roster := activities[owner.activityId].roster;
      var taken := TakenByLine(owner.activityId);
      result := FillAllocation(amount, FillTargetsFrom(roster.lines, roster.asnafOf, taken), fund);
      ghost var before := shares;
      for i := 0 to |result.shares|
        invariant shares == before + ShareRows(result.shares[..i], owner, now)
      {
        RowsSnoc(before, result.shares, i, owner, now);
        shares := shares + [ShareRow(result.shares[i], owner, now)];
      }
      assert result.shares[..|result.shares|] == result.shares;
    }

    /** Marks an allocation's shares as reversed. */
    method ReverseBeneficiaryShares(allocationId: nat, now: nat)
      modifies this`shares
      ensures shares == ReversedOf(old(shares), allocationId, now)
    {
      for i := 0 to |shares|
        invariant |shares| == |old(shares)|
        invariant forall k | 0 <= k < i :: shares[k] == ReversedRow(old(shares)[k], allocationId, now)
        invariant forall k | i <= k < |shares| :: shares[k] == old(shares)[k]
      {
        if shares[i].allocationId == allocationId && shares[i].status == Held {
          shares := shares[i := shares[i].(status := Reversed, updatedAt := now)];
        }
      }
    }

    // ----- Totals

    method AllocatedTotal(contributionId: Text) returns (total: nat)
      ensures total == AllocatedTo(allocations, contributionId)
    {
      total := 0;
      for i := 0 to |allocations|
        invariant total == AllocatedTo(allocations[..i], contributionId)
      {
        assert allocations[..i + 1][..i] == allocations[..i];
        if allocations[i].status == Active && allocations[i].contributionId == contributionId {
          total := total + allocations[i].amount;
        }
      }
      assert allocations[..|allocations|] == allocations;
    }

    static method RefundTotals(refunds: seq<Refund>) returns (paid: nat, decided: nat)
      ensures paid == RefundSum(refunds, Paid) && decided == RefundSum(refunds, Decided)
    {
      paid, decided := 0, 0;
      for i := 0 to |refunds|
        invariant paid == RefundSum(refunds[..i], Paid) && decided == RefundSum(refunds[..i], Decided)
      {
        assert refunds[..i + 1][..i] == refunds[..i];
        match refunds[i].status {
          case Paid => paid := paid + refunds[i].amount;
          case Decided => decided := decided + refunds[i].amount;
        }
      }
      assert refunds[..|refunds|] == refunds;
    }

    // ----- Allocating

    /** Inserts an allocation and its history row. */
    method Enter(contributionId: Text, activityId: Text, amount: nat, terms: Terms, action: AllocationAction, now: nat) returns (id: nat)
      requires contributionId in contributions.records
      modifies this`allocations, this`log
      ensures id == old(|allocations|)
      ensures Snapshot() == Entered(old(Snapshot()), contributionId, activityId, amount, terms, action, now)
    {
      var c := contributions.records[contributionId].contribution;
      id := |allocations|;
      allocations := allocations +
        [Allocation(contributionId, activityId, c.currency, amount, Some(terms.fund), terms.purpose, Active, now, c.version, 1, now)];
      log := log + [AllocationEntry(id, contributionId, activityId, 1, c.version, action, Active, amount, now)];
    }

    /** Inserts an allocation, its history row and its shares. */
    method Place(contributionId: Text, activityId: Text, amount: nat, terms: Terms, action: AllocationAction, now: nat) returns (id: nat)
      requires contributionId in contributions.records && activityId in activities
      modifies this`allocations, this`log, this`shares
      ensures id == old(|allocations|)
      ensures Snapshot() == Placed(old(Snapshot()), contributionId, activityId, amount, terms, action, now)
    {
      id := Enter(contributionId, activityId, amount, terms, action, now);
      var _ := RecordBeneficiaryShares(Owner(id, contributionId, activityId), terms.fund, amount, now);
    }

    method Touch(activityId: Text, bump: nat, now: nat)
      requires activityId in activities
      modifies this`activities
      ensures Snapshot() == Touched(old(Snapshot()), activityId, bump, now)
    {
      var row := activities[activityId];
      activities := activities[activityId := row.(version := row.version + bump, updatedAt := now)];
    }

    /** Checks an allocation against the contribution, the activity and what is left to allocate. */
    method CheckAllocate(q: AllocateRequest) returns (terms: Result<Terms, FundError>)
      ensures terms == AllocateGuard(Snapshot(), q)
    {
      if q.amount == 0 { return Err(InvalidAmount); }
      if q.contributionId !in contributions.records { return Err(NoContribution); }
      var r := contributions.records[q.contributionId];
      if r.contribution.version != q.expectedVersion { return Err(StaleVersion); }
      if r.contribution.status != Endorsed { return Err(NotEndorsed); }
      if q.activityId !in activities { return Err(NoActivity); }
      var activity := activities[q.activityId];
      if r.contribution.currency != activity.currency { return Err(CurrencyMismatch); }
      terms := AllocationTerms(r.contribution, activity.program, q.fund, q.purpose);
      if terms.Err? { return; }
      var allocatedBefore := AllocatedTotal(q.contributionId);
      var paid, decided := RefundTotals(r.refunds);
      if q.amount > AllocatableRemainder(r.contribution.amount, allocatedBefore, paid, decided) { return Err(OverLimit); }
    }

    method AllocateContribution(q: AllocateRequest, now: nat) returns (outcome: Result<nat, FundError>)
      modifies this
      ensures match Allocated(old(Snapshot()), q, now)
        case Ok(l) => outcome == Ok(old(|allocations|)) && Snapshot() == l
        case Err(e) => outcome == Err(e) && Snapshot() == old(Snapshot())
    {
      var checked := CheckAllocate(q);
      if checked.Err? { return Err(checked.error); }
      var terms := checked.value;
      var id := Place(q.contributionId, q.activityId, q.amount, terms, Allocate, now);
      Touch(q.activityId, 0, now);
      return Ok(id);
    }

    // ----- Moving

    /** Checks a move: both activities, the source allocation, the contribution and what may be moved. */
    method CheckReallocate(q: ReallocateRequest, availability: Availability) returns (terms: Result<Terms, FundError>)
      ensures terms == ReallocateGuard(Snapshot(), q, availability)
    {
      if q.amount == 0 { return Err(InvalidAmount); }
      if q.sourceActivityId == q.targetActivityId { return Err(SameActivity); }
      if q.sourceActivityId !in activities || q.targetActivityId !in activities { return Err(NoActivity); }
      var source, target := activities[q.sourceActivityId], activities[q.targetActivityId];
      if source.version != q.expectedSourceVersion { return Err(StaleVersion); }
      if q.expectedTargetVersion.Some? && target.version != q.expectedTargetVersion.value { return Err(StaleVersion); }
      if source.currency != target.currency { return Err(CurrencyMismatch); }
      if q.sourceAllocationId >= |allocations| { return Err(NoAllocation); }
      var row := allocations[q.sourceAllocationId];
      if row.activityId != q.sourceActivityId { return Err(WrongActivity); }
      if row.status != Active { return Err(NotActive); }
      if row.contributionId !in contributions.records { return Err(NoContribution); }
      terms := CheckMove(q, contributions.records[row.contributionId], row, target.program, availability);
    }

    static method CheckMove(q: ReallocateRequest, r: CollectionRecord, row: Allocation, program: ProgramFund, availability: Availability) returns (terms: Result<Terms, FundError>)
      ensures terms == MoveGuard(q, r, row, program, availability)
    {
      if r.contribution.status != Endorsed { return Err(NotEndorsed); }
      var paid, decided := RefundTotals(r.refunds);
      var net := if r.contribution.amount > paid then r.contribution.amount - paid else 0;
      var movable := if net > decided then net - decided else 0;
      if q.amount > movable { return Err(OverMovable); }
      terms := AllocationTerms(r.contribution, program, q.fund, q.purpose);
      if terms.Err? { return; }
      if availability.Unclear? { return Err(AvailabilityUnclear); }
      if availability.NoneLeft? || availability.amount <= 0 { return Err(NothingAvailable); }
      if q.amount > availability.amount { return Err(OverAvailable); }
      if q.amount > row.amount { return Err(OverSource); }
    }

    /** Reduces the source allocation, undoes its shares, and fills again what stays. */
    method TakeOut(source: nat, amount: nat, fallback: FundType, now: nat)
      requires source < |allocations| && amount <= allocations[source].amount
      requires allocations[source].activityId in activities && allocations[source].contributionId in contributions.records
      modifies this`allocations, this`log, this`shares
      ensures Snapshot() == TakenOut(old(Snapshot()), source, amount, fallback, now)
    {
      var row := allocations[source];
      var status := if amount == row.amount then Reallocated else Active;
      var left := row.amount - amount;
      allocations := allocations[source := row.(amount := left, status := status, version := row.version + 1, updatedAt := now)];
      var c := contributions.records[row.contributionId].contribution;
      log := log + [AllocationEntry(source, row.contributionId, row.activityId, row.version + 1, c.version, ReallocateOut, status, amount, now)];
      ReverseBeneficiaryShares(source, now);
      if left > 0 {
        var fund := if row.fund.Some? then row.fund.value else fallback;
        var _ := RecordBeneficiaryShares(Owner(source, row.contributionId, row.activityId), fund, left, now);
      } else {
        NothingToAttribute(shares, activities[row.activityId].roster, Owner(source, row.contributionId, row.activityId), FundOf(row, fallback), now);
      }
    }

    /** Takes the money out of the source and places it with the target. */
    method Exchange(q: ReallocateRequest, terms: Terms, now: nat) returns (id: nat)
      requires q.sourceAllocationId < |allocations| && q.amount <= allocations[q.sourceAllocationId].amount
      requires allocations[q.sourceAllocationId].activityId in activities && q.targetActivityId in activities
      requires allocations[q.sourceAllocationId].contributionId in contributions.records
      modifies this`allocations, this`log, this`shares
      ensures id == old(|allocations|)
      ensures Snapshot() == Exchanged(old(Snapshot()), q, terms, now)
    {
      var contributionId := allocations[q.sourceAllocationId].contributionId;
      TakeOut(q.sourceAllocationId, q.amount, terms.fund, now);
      id := Place(contributionId, q.targetActivityId, q.amount, terms, ReallocateIn, now);
    }

    method RecordDecision(d: Decision, now: nat)
      requires d.sourceActivityId in activities && d.targetActivityId in activities
      modifies this`decisions, this`activities
      ensures Snapshot() == Recorded(old(Snapshot()), d, now)
    {
      decisions := decisions + [d];
      Touch(d.sourceActivityId, 1, now);
      Touch(d.targetActivityId, 1, now);
    }

    /** Moves the money, records the decision, and bumps both activities. */
    method CarryOut(q: ReallocateRequest, terms: Terms, now: nat) returns (id: nat)
      requires q.sourceAllocationId < |allocations| && q.amount <= allocations[q.sourceAllocationId].amount
      requires allocations[q.sourceAllocationId].activityId == q.sourceActivityId && q.sourceActivityId in activities
      requires allocations[q.sourceAllocationId].contributionId in contributions.records && q.targetActivityId in activities
      modifies this
      ensures id == old(|allocations|)
      ensures Snapshot() == Moved(old(Snapshot()), q, terms, now)
    {
      var source := allocations[q.sourceAllocationId];
      var decision := Decision(
        q.sourceActivityId, q.targetActivityId, q.sourceAllocationId, |allocations|, source.contributionId, q.amount, terms.fund, terms.purpose,
        activities[q.sourceActivityId].version + 1, activities[q.targetActivityId].version + 1, source.version + 1, now);
      assert decision == DecisionOf(old(Snapshot()), q, terms, now);
      id := Exchange(q, terms, now);
      ghost var exchanged := Snapshot();
      RecordDecision(decision, now);
      assert Snapshot() == Recorded(exchanged, decision, now);
    }

    method ReallocateAllocation(q: ReallocateRequest, availability: Availability, now: nat) returns (outcome: Result<nat, FundError>)
      requires Linked(Snapshot())
      modifies this
      ensures match MovedBetween(old(Snapshot()), q, availability, now)
        case Ok(l) => outcome == Ok(old(|allocations|)) && Snapshot() == l
        case Err(e) => outcome == Err(e) && Snapshot() == old(Snapshot())
    {
      var checked := CheckReallocate(q, availability);
      if checked.Err? { return Err(checked.error); }
      var id := CarryOut(q, checked.value, now);
      return Ok(id);
    }

    // ----- Backfilling

    method BackfillBeneficiaryShares(apply: bool, now: nat) returns (report: BackfillReport)
      requires Linked(Snapshot())
      modifies this`shares
      ensures report == ReportOf(old(Snapshot()), now)
      ensures Snapshot() == if apply then Backfilled(old(Snapshot()), now) else old(Snapshot())
    {
      ghost var l := Snapshot();
      var before, candidates := shares, CandidatesOf(Snapshot(), |allocations|);
      var outcomes: seq<BackfillOutcome> := [];
      for i := 0 to |candidates|
        invariant AllBelow(candidates[..i], |allocations|)
        invariant shares == BackfilledShares(l, candidates[..i], now)
        invariant outcomes == BackfillOutcomes(l, candidates[..i], now)
      {
        BackfillOneMore(l, candidates, i, now);
        var id := candidates[i];
        var row := allocations[id];
        if row.amount == 0 {
          outcomes := outcomes + [BackfillOutcome(id, row.activityId, Empty, 0, 0, row.amount)];
        } else if row.fund.None? {
          outcomes := outcomes + [BackfillOutcome(id, row.activityId, UnknownFundType, 0, 0, row.amount)];
        } else {
          var filled := RecordBeneficiaryShares(Owner(id, row.contributionId, row.activityId), row.fund.value, row.amount, now);
          var attributed := TotalShares(filled.shares);
          var state := if |filled.shares| > 0 then Attributing else Unattributable;
          outcomes := outcomes + [BackfillOutcome(id, row.activityId, state, |filled.shares|, attributed, filled.unassigned)];
        }
      }
      assert candidates[..|candidates|] == candidates;
      report := BackfillReport(|candidates|, outcomes);
      if !apply { shares := before; }
    }

    static method TotalShares(fs: seq<FillShare>) returns (total: nat)
      ensures total == FilledTotal(fs)
    {
      total := 0;
      for i := 0 to |fs|
        invariant total == FilledTotal(fs[..i])
      {
        assert fs[..i + 1][..i] == fs[..i];
        total := total + fs[i].share;
      }
      assert fs[..|fs|] == fs;
    }
  }

  lemma {:induction false} RowsSnoc(before: seq<Share>, fs: seq<FillShare>, i: nat, owner: Owner, now: nat)
    requires i < |fs|
    ensures before + ShareRows(fs[..i + 1], owner, now) == before + ShareRows(fs[..i], owner, now) + [ShareRow(fs[i], owner, now)]
  {
  }

  /** Filling nothing writes no share. */
  lemma {:induction false} NothingToAttribute(shares: seq<Share>, roster: Roster, owner: Owner, fund: FundType, now: nat)
    ensures Attributed(shares, roster, owner, fund, 0, now) == shares
  {
    assert FillFor(shares, roster, owner.activityId, fund, 0).shares == [];
  }

  lemma {:induction false} BackfillOneMore(l: Ledger, cs: seq<nat>, i: nat, now: nat)
    requires Linked(l) && AllBelow(cs, |l.allocations|) && i < |cs|
    ensures AllBelow(cs[..i], |l.allocations|) && AllBelow(cs[..i + 1], |l.allocations|)
    ensures BackfilledShares(l, cs[..i + 1], now) == SharesAfterCandidate(l, BackfilledShares(l, cs[..i], now), cs[i], now)
    ensures BackfillOutcomes(l, cs[..i + 1], now) ==
      BackfillOutcomes(l, cs[..i], now) + [OutcomeOf(l, BackfilledShares(l, cs[..i], now), cs[i])]
  {
    assert cs[..i + 1][..i] == cs[..i];
  }
}
