/**
 What every run keeps of the share table: no aid line holds more than its approved value and no
 allocation has more attributed than it holds.
 */
module FundBounds {
  import opened Texts
  import opened AllocationFill
  import opened RosterFill
  import opened FundLedger
  import opened FundShares

  // ----- Lines stay within their approved value

  /** A line without a value may hold nothing. */
  function CapOf(line: RosterLine): nat { if line.valueIdr.Some? then line.valueIdr.value else 0 }

  predicate LineWithin(shares: seq<Share>, activity: Text, line: RosterLine)
  {
    HeldOf(shares, OfLine(activity, line.id)) <= CapOf(line)
  }

  predicate RosterWithin(shares: seq<Share>, activity: Text, roster: Roster)
  {
    forall k | 0 <= k < |roster.lines| :: LineWithin(shares, activity, roster.lines[k])
  }

  predicate AllWithin(shares: seq<Share>, activities: map<Text, Activity>)
  {
    forall a | a in activities :: DistinctRoster(activities[a].roster) && RosterWithin(shares, a, activities[a].roster)
  }

  lemma {:induction false} LineStaysWithin(shares: seq<Share>, roster: Roster, k: nat, owner: Owner, fund: FundType, amount: nat, now: nat)
    requires DistinctRoster(roster) && k < |roster.lines| && LineWithin(shares, owner.activityId, roster.lines[k])
    ensures LineWithin(Attributed(shares, roster, owner, fund, amount, now), owner.activityId, roster.lines[k])
  {
    var line := roster.lines[k];
    AttributedHeld(shares, roster, owner, fund, amount, now, OfLine(owner.activityId, line.id));
    FillStaysWithinApproved(roster, fund, TakenIn(shares, owner.activityId), amount, k);
    TakenIsHeld(shares, owner.activityId, line.id);
  }

  lemma {:induction false} AttributingStaysWithin(shares: seq<Share>, activities: map<Text, Activity>, owner: Owner, fund: FundType, amount: nat, now: nat)
    requires owner.activityId in activities && AllWithin(shares, activities)
    ensures AllWithin(Attributed(shares, activities[owner.activityId].roster, owner, fund, amount, now), activities)
  {
    var own := activities[owner.activityId].roster;
    var after := Attributed(shares, own, owner, fund, amount, now);
    forall a, k | a in activities && 0 <= k < |activities[a].roster.lines|
      ensures LineWithin(after, a, activities[a].roster.lines[k])
    {
      assert LineWithin(shares, a, activities[a].roster.lines[k]);
      if a == owner.activityId {
        LineStaysWithin(shares, own, k, owner, fund, amount, now);
      } else {
        AttributedHeld(shares, own, owner, fund, amount, now, OfLine(a, activities[a].roster.lines[k].id));
      }
    }
  }

  lemma {:induction false} ReversingStaysWithin(shares: seq<Share>, activities: map<Text, Activity>, allocation: nat, now: nat)
    requires AllWithin(shares, activities)
    ensures AllWithin(ReversedOf(shares, allocation, now), activities)
  {
    forall a, k | a in activities && 0 <= k < |activities[a].roster.lines|
      ensures LineWithin(ReversedOf(shares, allocation, now), a, activities[a].roster.lines[k])
    {
      var line := activities[a].roster.lines[k];
      assert LineWithin(shares, a, line);
      ReversedHeld(shares, allocation, now, OfLine(a, line.id));
    }
  }

  // ----- Shares name existing allocations, and never more than those hold

  predicate ShareLinked(s: Share, allocations: seq<Allocation>)
  {
    s.allocationId < |allocations| && s.activityId == allocations[s.allocationId].activityId &&
    s.contributionId == allocations[s.allocationId].contributionId
  }

  predicate SharesLinked(shares: seq<Share>, allocations: seq<Allocation>)
  {
    forall k | 0 <= k < |shares| :: ShareLinked(shares[k], allocations)
  }

  predicate Covered(shares: seq<Share>, allocations: seq<Allocation>, i: nat)
    requires i < |allocations|
  {
    HeldOf(shares, OfAllocation(i)) <= allocations[i].amount
  }

  predicate AllCovered(shares: seq<Share>, allocations: seq<Allocation>)
  {
    forall i | 0 <= i < |allocations| :: Covered(shares, allocations, i)
  }

  lemma {:induction false} NothingHeldBeyond(shares: seq<Share>, allocations: seq<Allocation>, id: nat)
    requires SharesLinked(shares, allocations) && id >= |allocations|
    ensures HeldOf(shares, OfAllocation(id)) == 0
  {
    if shares != [] {
      assert ShareLinked(shares[|shares| - 1], allocations);
      NothingHeldBeyond(shares[..|shares| - 1], allocations, id);
    }
  }

  lemma {:induction false} NoCreditsBeyond(shares: seq<Share>, allocations: seq<Allocation>, id: nat)
    requires SharesLinked(shares, allocations) && id >= |allocations|
    ensures CreditsHeld(shares, id) == []
  {
    if shares != [] {
      assert ShareLinked(shares[|shares| - 1], allocations);
      NoCreditsBeyond(shares[..|shares| - 1], allocations, id);
    }
  }

  /** Attributing at most what an allocation holds, when it had nothing attributed, keeps it covered. */
  lemma {:induction false} AttributingKeepsCover(shares: seq<Share>, allocations: seq<Allocation>, roster: Roster, owner: Owner, fund: FundType, amount: nat, now: nat)
    requires AllCovered(shares, allocations) && DistinctRoster(roster) && owner.allocationId < |allocations|
    requires HeldOf(shares, OfAllocation(owner.allocationId)) == 0 && amount <= allocations[owner.allocationId].amount
    ensures AllCovered(Attributed(shares, roster, owner, fund, amount, now), allocations)
  {
    forall i | 0 <= i < |allocations| ensures Covered(Attributed(shares, roster, owner, fund, amount, now), allocations, i) {
      assert Covered(shares, allocations, i);
      AttributedHeld(shares, roster, owner, fund, amount, now, OfAllocation(i));
      SharesTotal(roster, fund, TakenIn(shares, owner.activityId), amount);
    }
  }

  lemma {:induction false} ReversingKeepsCover(shares: seq<Share>, allocations: seq<Allocation>, allocation: nat, now: nat)
    requires AllCovered(shares, allocations)
    ensures AllCovered(ReversedOf(shares, allocation, now), allocations)
    ensures HeldOf(ReversedOf(shares, allocation, now), OfAllocation(allocation)) == 0
  {
    forall i | 0 <= i < |allocations| ensures Covered(ReversedOf(shares, allocation, now), allocations, i) {
      assert Covered(shares, allocations, i);
      ReversedHeld(shares, allocation, now, OfAllocation(i));
    }
    ReversedHeld(shares, allocation, now, OfAllocation(allocation));
  }

  // ----- Changing one allocation, or adding one

  lemma {:induction false} CoverSurvivesUpdate(shares: seq<Share>, allocations: seq<Allocation>, i: nat, row: Allocation)
    requires AllCovered(shares, allocations) && i < |allocations| && HeldOf(shares, OfAllocation(i)) == 0
    ensures AllCovered(shares, allocations[i := row])
  {
    var updated := allocations[i := row];
    forall j | 0 <= j < |updated| ensures Covered(shares, updated, j) {
      assert Covered(shares, allocations, j);
    }
  }

  lemma {:induction false} CoverSurvivesAppend(shares: seq<Share>, allocations: seq<Allocation>, row: Allocation)
    requires AllCovered(shares, allocations) && SharesLinked(shares, allocations)
    ensures AllCovered(shares, allocations + [row]) && HeldOf(shares, OfAllocation(|allocations|)) == 0
  {
    NothingHeldBeyond(shares, allocations, |allocations|);
    forall j | 0 <= j < |allocations + [row]| ensures Covered(shares, allocations + [row], j) {
      if j < |allocations| { assert Covered(shares, allocations, j); }
    }
  }

  // ----- The share table as a whole

  /** Share table, allocations and activities fit together. */
  predicate Fits(shares: seq<Share>, allocations: seq<Allocation>, activities: map<Text, Activity>)
  {
    SharesLinked(shares, allocations) && AllCovered(shares, allocations) && AllWithin(shares, activities)
  }

  lemma {:induction false} AttributingFits(
      shares: seq<Share>, allocations: seq<Allocation>, activities: map<Text, Activity>, owner: Owner, fund: FundType, amount: nat, now: nat)
    requires Fits(shares, allocations, activities) && owner.activityId in activities && owner.allocationId < |allocations|
    requires allocations[owner.allocationId].activityId == owner.activityId && allocations[owner.allocationId].contributionId == owner.contributionId
    requires HeldOf(shares, OfAllocation(owner.allocationId)) == 0 && amount <= allocations[owner.allocationId].amount
    ensures Fits(Attributed(shares, activities[owner.activityId].roster, owner, fund, amount, now), allocations, activities)
  {
    var roster := activities[owner.activityId].roster;
    AttributingStaysWithin(shares, activities, owner, fund, amount, now);
    AttributingKeepsCover(shares, allocations, roster, owner, fund, amount, now);
  }

  lemma {:induction false} ReversingFits(shares: seq<Share>, allocations: seq<Allocation>, activities: map<Text, Activity>, allocation: nat, row: Allocation, now: nat)
    requires Fits(shares, allocations, activities) && allocation < |allocations|
    requires row.activityId == allocations[allocation].activityId && row.contributionId == allocations[allocation].contributionId
    ensures Fits(ReversedOf(shares, allocation, now), allocations[allocation := row], activities)
    ensures HeldOf(ReversedOf(shares, allocation, now), OfAllocation(allocation)) == 0
  {
    var undone := ReversedOf(shares, allocation, now);
    ReversingStaysWithin(shares, activities, allocation, now);
    ReversingKeepsCover(shares, allocations, allocation, now);
    CoverSurvivesUpdate(undone, allocations, allocation, row);
  }

  lemma {:induction false} AppendingFits(shares: seq<Share>, allocations: seq<Allocation>, activities: map<Text, Activity>, row: Allocation)
    requires Fits(shares, allocations, activities)
    ensures Fits(shares, allocations + [row], activities) && HeldOf(shares, OfAllocation(|allocations|)) == 0
  {
    CoverSurvivesAppend(shares, allocations, row);
  }
}
