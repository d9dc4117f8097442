/**
 Runs of the fund ledger: every interleaving of ledger steps on contributions, allocations, moves
 and backfills, over fixed rosters.
 */
module FundRuns {
  import opened Options
  import opened Texts
  import opened AllocationFill
  import opened RosterFill
  import opened ContributionLedger
  import opened FundLedger
  import opened FundShares
  import opened FundBounds

  datatype FundTransaction =
    | Contribute(transaction: Transaction)
    | AllocateTo(allocate: AllocateRequest, now: nat)
    | Move(move: ReallocateRequest, availability: Availability, now: nat)
    | Backfill(now: nat)

  /** A refused transaction leaves the ledger as it was. */
  function Settled(l: Ledger, outcome: Result<Ledger, FundError>): Ledger
  {
    if outcome.Ok? then outcome.value else l
  }

  function Next(l: Ledger, t: FundTransaction): Ledger
    requires Linked(l)
  {
    match t
    case Contribute(transaction) => l.(contributions := After(l.contributions, transaction))
    case AllocateTo(q, now) => Settled(l, Allocated(l, q, now))
    case Move(q, availability, now) => Settled(l, MovedBetween(l, q, availability, now))
    case Backfill(now) => Backfilled(l, now)
  }

  function RunFrom(l: Ledger, ts: seq<FundTransaction>): (end: Ledger)
    requires Linked(l)
    ensures Linked(end)
  {
    if ts == [] then l
    else
      var before := RunFrom(l, ts[..|ts| - 1]);
      NextIsLinked(before, ts[|ts| - 1]);
      Next(before, ts[|ts| - 1])
  }

  // ----- Links

  lemma {:induction false} PlacedIsLinked(l: Ledger, contribution: Text, activity: Text, amount: nat, terms: Terms, action: AllocationAction, now: nat)
    requires Linked(l) && contribution in l.contributions && activity in l.activities
    ensures Linked(Placed(l, contribution, activity, amount, terms, action, now))
  {
  }

  lemma {:induction false} TakenOutIsLinked(l: Ledger, source: nat, amount: nat, fallback: FundType, now: nat)
    requires Linked(l) && source < |l.allocations| && amount <= l.allocations[source].amount
    ensures Linked(TakenOut(l, source, amount, fallback, now))
  {
  }

  lemma {:induction false} MovedIsLinked(l: Ledger, q: ReallocateRequest, terms: Terms, now: nat)
    requires Linked(l) && q.sourceAllocationId < |l.allocations| && q.amount <= l.allocations[q.sourceAllocationId].amount
    requires l.allocations[q.sourceAllocationId].activityId == q.sourceActivityId && q.targetActivityId in l.activities
    ensures Linked(Moved(l, q, terms, now))
  {
    var out := TakenOut(l, q.sourceAllocationId, q.amount, terms.fund, now);
    TakenOutIsLinked(l, q.sourceAllocationId, q.amount, terms.fund, now);
    PlacedIsLinked(out, l.allocations[q.sourceAllocationId].contributionId, q.targetActivityId, q.amount, terms, ReallocateIn, now);
  }

  lemma {:induction false} MovedBetweenIsLinked(l: Ledger, q: ReallocateRequest, availability: Availability, now: nat)
    requires Linked(l)
    ensures Linked(Settled(l, MovedBetween(l, q, availability, now)))
  {
    if MovedBetween(l, q, availability, now).Ok? { MovedIsLinked(l, q, ReallocateGuard(l, q, availability).value, now); }
  }

  lemma {:induction false} AllocatedIsLinked(l: Ledger, q: AllocateRequest, now: nat)
    requires Linked(l)
    ensures Linked(Settled(l, Allocated(l, q, now)))
  {
    if Allocated(l, q, now).Ok? {
      PlacedIsLinked(l, q.contributionId, q.activityId, q.amount, AllocateGuard(l, q).value, Allocate, now);
    }
  }

  lemma {:induction false} ContributedIsLinked(l: Ledger, transaction: Transaction)
    requires Linked(l)
    ensures Linked(l.(contributions := After(l.contributions, transaction)))
  {
    assert forall id | id in l.contributions :: id in After(l.contributions, transaction);
  }

  lemma {:induction false} NextIsLinked(l: Ledger, t: FundTransaction)
    requires Linked(l)
    ensures Linked(Next(l, t))
  {
    match t
    case Contribute(transaction) => ContributedIsLinked(l, transaction);
    case AllocateTo(q, now) => AllocatedIsLinked(l, q, now);
    case Move(q, availability, now) => MovedBetweenIsLinked(l, q, availability, now);
    case Backfill(now) =>
  }

  // ----- Bounds

  predicate Sound(l: Ledger)
  {
    Linked(l) && Fits(l.shares, l.allocations, l.activities)
  }

  lemma {:induction false} TouchedIsSound(l: Ledger, activity: Text, bump: nat, now: nat)
    requires Sound(l) && activity in l.activities
    ensures Sound(Touched(l, activity, bump, now))
  {
    var activities := Touched(l, activity, bump, now).activities;
    forall a | a in activities ensures DistinctRoster(activities[a].roster) && RosterWithin(l.shares, a, activities[a].roster) {
      assert activities[a].roster == l.activities[a].roster;
    }
  }

  lemma {:induction false} SharingIsSound(l: Ledger, id: nat, fund: FundType, amount: nat, now: nat)
    requires Sound(l) && id < |l.allocations| && amount <= l.allocations[id].amount && HeldOf(l.shares, OfAllocation(id)) == 0
    ensures Sound(WithShares(l, id, fund, amount, now))
  {
    AttributingFits(l.shares, l.allocations, l.activities, OwnerOf(l.allocations[id], id), fund, amount, now);
  }

  lemma {:induction false} EnteredIsSound(l: Ledger, contribution: Text, activity: Text, amount: nat, terms: Terms, action: AllocationAction, now: nat)
    requires Sound(l) && contribution in l.contributions && activity in l.activities
    ensures var entered := Entered(l, contribution, activity, amount, terms, action, now);
      Sound(entered) && HeldOf(entered.shares, OfAllocation(|l.allocations|)) == 0
  {
    AppendingFits(l.shares, l.allocations, l.activities, Entered(l, contribution, activity, amount, terms, action, now).allocations[|l.allocations|]);
  }

  lemma {:induction false} PlacedIsSound(l: Ledger, contribution: Text, activity: Text, amount: nat, terms: Terms, action: AllocationAction, now: nat)
    requires Sound(l) && contribution in l.contributions && activity in l.activities
    ensures Sound(Placed(l, contribution, activity, amount, terms, action, now))
  {
    EnteredIsSound(l, contribution, activity, amount, terms, action, now);
    SharingIsSound(Entered(l, contribution, activity, amount, terms, action, now), |l.allocations|, terms.fund, amount, now);
  }

  lemma {:induction false} WithdrawnIsSound(l: Ledger, source: nat, amount: nat, now: nat) returns (out: Ledger)
    requires Sound(l) && source < |l.allocations| && amount <= l.allocations[source].amount
    ensures out == Withdrawn(l, source, amount, now) && Sound(out) && HeldOf(out.shares, OfAllocation(source)) == 0
    ensures source < |out.allocations| && out.allocations[source].amount == l.allocations[source].amount - amount
  {
    out := Withdrawn(l, source, amount, now);
    ReversingFits(l.shares, l.allocations, l.activities, source, out.allocations[source], now);
  }

  lemma {:induction false} TakenOutIsSound(l: Ledger, source: nat, amount: nat, fallback: FundType, now: nat)
    requires Sound(l) && source < |l.allocations| && amount <= l.allocations[source].amount
    ensures Sound(TakenOut(l, source, amount, fallback, now))
  {
    var out := WithdrawnIsSound(l, source, amount, now);
    SharingIsSound(out, source, FundOf(l.allocations[source], fallback), out.allocations[source].amount, now);
  }

  lemma {:induction false} RecordedIsSound(l: Ledger, d: Decision, now: nat)
    requires Sound(l) && d.sourceActivityId in l.activities && d.targetActivityId in l.activities
    ensures Sound(Recorded(l, d, now))
  {
    var decided := l.(decisions := l.decisions + [d]);
    TouchedIsSound(decided, d.sourceActivityId, 1, now);
    TouchedIsSound(Touched(decided, d.sourceActivityId, 1, now), d.targetActivityId, 1, now);
  }

  lemma {:induction false} MovedIsSound(l: Ledger, q: ReallocateRequest, terms: Terms, now: nat)
    requires Sound(l) && q.sourceAllocationId < |l.allocations| && q.amount <= l.allocations[q.sourceAllocationId].amount
    requires l.allocations[q.sourceAllocationId].activityId == q.sourceActivityId && q.targetActivityId in l.activities
    ensures Sound(Moved(l, q, terms, now))
  {
    var contribution := l.allocations[q.sourceAllocationId].contributionId;
    TakenOutIsSound(l, q.sourceAllocationId, q.amount, terms.fund, now);
    PlacedIsSound(TakenOut(l, q.sourceAllocationId, q.amount, terms.fund, now), contribution, q.targetActivityId, q.amount, terms, ReallocateIn, now);
    RecordedIsSound(Exchanged(l, q, terms, now), DecisionOf(l, q, terms, now), now);
  }

  // ----- Backfilling

  /** No candidate occurs twice. */
  predicate Distinct(cs: seq<nat>)
  {
    forall i, j :: 0 <= i < j < |cs| ==> cs[i] != cs[j]
  }

  lemma {:induction false} InsertMembers(l: Ledger, i: nat, cs: seq<nat>, c: nat)
    requires i < |l.allocations| && AllBelow(cs, |l.allocations|)
    ensures c in InsertCandidate(l, i, cs) <==> c == i || c in cs
  {
    if cs != [] && RecordedBefore(l, cs[0], i) {
      InsertMembers(l, i, cs[1..], c);
      assert cs == [cs[0]] + cs[1..];
    }
  }

  lemma {:induction false} InsertIsDistinct(l: Ledger, i: nat, cs: seq<nat>)
    requires i < |l.allocations| && AllBelow(cs, |l.allocations|) && Distinct(cs) && i !in cs
    ensures Distinct(InsertCandidate(l, i, cs))
  {
    if cs != [] && RecordedBefore(l, cs[0], i) {
      InsertIsDistinct(l, i, cs[1..]);
      InsertMembers(l, i, cs[1..], cs[0]);
    }
  }

  lemma {:induction false} CandidateMembers(l: Ledger, n: nat, c: nat)
    requires n <= |l.allocations|
    ensures c in CandidatesOf(l, n) <==> c < n && IsCandidate(l, c)
  {
    if n > 0 {
      CandidateMembers(l, n - 1, c);
      if IsCandidate(l, n - 1) { InsertMembers(l, n - 1, CandidatesOf(l, n - 1), c); }
    }
  }

  lemma {:induction false} CandidatesAreDistinct(l: Ledger, n: nat)
    requires n <= |l.allocations|
    ensures Distinct(CandidatesOf(l, n))
  {
    if n > 0 {
      CandidatesAreDistinct(l, n - 1);
      CandidateMembers(l, n - 1, n - 1);
      if IsCandidate(l, n - 1) { InsertIsDistinct(l, n - 1, CandidatesOf(l, n - 1)); }
    }
  }

  /** Every listed allocation has nothing attributed yet. */
  predicate Unattributed(shares: seq<Share>, cs: seq<nat>)
  {
    forall k | 0 <= k < |cs| :: HeldOf(shares, OfAllocation(cs[k])) == 0
  }

  lemma {:induction false} CandidatesAreUnattributed(l: Ledger)
    ensures Unattributed(l.shares, CandidatesOf(l, |l.allocations|))
  {
    var cs := CandidatesOf(l, |l.allocations|);
    forall k | 0 <= k < |cs| ensures HeldOf(l.shares, OfAllocation(cs[k])) == 0 {
      CandidateMembers(l, |l.allocations|, cs[k]);
      NoCreditsNoShares(l.shares, cs[k]);
      CreditsAddUp(l.shares, cs[k]);
    }
  }

  lemma {:induction false} CandidateTouchesOnlyItself(l: Ledger, shares: seq<Share>, i: nat, now: nat, other: nat)
    requires Linked(l) && i < |l.allocations| && other != i
    ensures CreditsHeld(SharesAfterCandidate(l, shares, i, now), other) == CreditsHeld(shares, other)
  {
    var row := l.allocations[i];
    if row.amount != 0 && row.fund.Some? {
      AttributedCredits(shares, l.activities[row.activityId].roster, OwnerOf(row, i), row.fund.value, row.amount, now, other);
    }
  }

  /** Allocations not among the candidates keep their shares. */
  lemma {:induction false} BackfillTouchesOnly(l: Ledger, cs: seq<nat>, now: nat, other: nat)
    requires Linked(l) && AllBelow(cs, |l.allocations|) && other !in cs
    ensures CreditsHeld(BackfilledShares(l, cs, now), other) == CreditsHeld(l.shares, other)
  {
    if cs != [] {
      var front := cs[..|cs| - 1];
      BackfillTouchesOnly(l, front, now, other);
      CandidateTouchesOnlyItself(l, BackfilledShares(l, front, now), cs[|cs| - 1], now, other);
    }
  }

  lemma {:induction false} CandidateFits(l: Ledger, shares: seq<Share>, i: nat, now: nat)
    requires Linked(l) && Fits(shares, l.allocations, l.activities) && i < |l.allocations| && HeldOf(shares, OfAllocation(i)) == 0
    ensures Fits(SharesAfterCandidate(l, shares, i, now), l.allocations, l.activities)
  {
    var row := l.allocations[i];
    if row.amount != 0 && row.fund.Some? {
      AttributingFits(shares, l.allocations, l.activities, OwnerOf(row, i), row.fund.value, row.amount, now);
    }
  }

  lemma {:induction false} BackfillFits(l: Ledger, cs: seq<nat>, now: nat)
    requires Sound(l) && AllBelow(cs, |l.allocations|) && Distinct(cs) && Unattributed(l.shares, cs)
    ensures Fits(BackfilledShares(l, cs, now), l.allocations, l.activities)
  {
    if cs != [] {
      var front, i := cs[..|cs| - 1], cs[|cs| - 1];
      BackfillFits(l, front, now);
      BackfillTouchesOnly(l, front, now, i);
      CreditsAddUp(l.shares, i);
      CreditsAddUp(BackfilledShares(l, front, now), i);
      CandidateFits(l, BackfilledShares(l, front, now), i, now);
    }
  }

  lemma {:induction false} BackfilledIsSound(l: Ledger, now: nat)
    requires Sound(l)
    ensures Sound(Backfilled(l, now))
  {
    CandidatesAreDistinct(l, |l.allocations|);
    CandidatesAreUnattributed(l);
    BackfillFits(l, CandidatesOf(l, |l.allocations|), now);
  }

  // ----- Whole runs

  lemma {:induction false} AllocatedIsSound(l: Ledger, q: AllocateRequest, now: nat)
    requires Sound(l)
    ensures Sound(Settled(l, Allocated(l, q, now)))
  {
    if Allocated(l, q, now).Ok? {
      var terms := AllocateGuard(l, q).value;
      PlacedIsSound(l, q.contributionId, q.activityId, q.amount, terms, Allocate, now);
      TouchedIsSound(Placed(l, q.contributionId, q.activityId, q.amount, terms, Allocate, now), q.activityId, 0, now);
    }
  }

  lemma {:induction false} MovedBetweenIsSound(l: Ledger, q: ReallocateRequest, availability: Availability, now: nat)
    requires Sound(l)
    ensures Sound(Settled(l, MovedBetween(l, q, availability, now)))
  {
    if MovedBetween(l, q, availability, now).Ok? { MovedIsSound(l, q, ReallocateGuard(l, q, availability).value, now); }
  }

  lemma {:induction false} NextIsSound(l: Ledger, t: FundTransaction)
    requires Sound(l)
    ensures Sound(Next(l, t))
  {
    match t
    case Contribute(transaction) => ContributedIsLinked(l, transaction);
    case AllocateTo(q, now) => AllocatedIsSound(l, q, now);
    case Move(q, availability, now) => MovedBetweenIsSound(l, q, availability, now);
    case Backfill(now) => BackfilledIsSound(l, now);
  }

  lemma {:induction false} RunIsSound(l: Ledger, ts: seq<FundTransaction>)
    requires Sound(l)
    ensures Sound(RunFrom(l, ts))
  {
    if ts != [] {
      RunIsSound(l, ts[..|ts| - 1]);
      NextIsSound(RunFrom(l, ts[..|ts| - 1]), ts[|ts| - 1]);
    }
  }

  /**
   After every run, no aid line of an activity holds more than its approved value, a line without a
   value holds nothing, and no allocation has more attributed than it holds.
   */
  lemma {:induction false} SharesStayWithinBounds(l: Ledger, ts: seq<FundTransaction>)
    requires Sound(l)
    ensures var end := RunFrom(l, ts);
      (forall a, k | a in end.activities && 0 <= k < |end.activities[a].roster.lines| ::
         HeldOf(end.shares, OfLine(a, end.activities[a].roster.lines[k].id)) <= CapOf(end.activities[a].roster.lines[k])) &&
      (forall i | 0 <= i < |end.allocations| :: HeldOf(end.shares, OfAllocation(i)) <= end.allocations[i].amount)
  {
    RunIsSound(l, ts);
    var end := RunFrom(l, ts);
    forall a, k | a in end.activities && 0 <= k < |end.activities[a].roster.lines|
      ensures HeldOf(end.shares, OfLine(a, end.activities[a].roster.lines[k].id)) <= CapOf(end.activities[a].roster.lines[k])
    {
      assert LineWithin(end.shares, a, end.activities[a].roster.lines[k]);
    }
    forall i | 0 <= i < |end.allocations| ensures HeldOf(end.shares, OfAllocation(i)) <= end.allocations[i].amount {
      assert Covered(end.shares, end.allocations, i);
    }
  }

  /** Runs may start with any activities on distinct rosters and nothing else. */
  lemma {:induction false} EmptyIsSound(activities: map<Text, Activity>)
    requires forall a | a in activities :: DistinctRoster(activities[a].roster)
    ensures Sound(Ledger(map[], activities, [], [], [], []))
  {
    forall a | a in activities ensures RosterWithin([], a, activities[a].roster) {
      forall k | 0 <= k < |activities[a].roster.lines| ensures LineWithin([], a, activities[a].roster.lines[k]) {
      }
    }
  }
}
