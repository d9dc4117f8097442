/**
 Undoing and refilling an attribution. As long as no other attribution of its activity is reversed,
 an allocation's shares are at every moment its first shares cut off at what it still holds,
 whatever later allocations, moves into the activity and backfills did.
 */
module FundRefill {
  import opened Options
  import opened Texts
  import opened AllocationFill
  import opened AllocationFillLaws
  import opened QueueFill
  import opened RosterFill
  import opened ContributionLedger
  import opened FundLedger
  import opened FundShares
  import opened FundBounds
  import opened FundRuns
  import opened FundHistory

  /** One allocation and the fill it first received: its activity's roster, its fund, and what was taken then. */
  datatype Origin = Origin(id: nat, activity: Text, roster: Roster, fund: FundType, before: map<Text, nat>)

  function FirstShares(o: Origin, amount: nat): seq<Credit>
  {
    SharesOf(o.roster, o.fund, o.before, amount)
  }

  /** What others hold on a line is at least what was taken at the first fill. */
  predicate OthersHold(shares: seq<Share>, o: Origin, line: Text)
  {
    TakenOn(o.before, line) + HeldOf(shares, OfLineBy(o.activity, line, o.id)) <= HeldOf(shares, OfLine(o.activity, line))
  }

  /** The allocation's shares are those of its first fill, for what it holds now. */
  predicate Stands(shares: seq<Share>, o: Origin, amount: nat)
  {
    CreditsHeld(shares, o.id) == FirstShares(o, amount) &&
    forall k | 0 <= k < |o.roster.lines| :: OthersHold(shares, o, o.roster.lines[k].id)
  }

  lemma {:induction false} OtherFillKeeps(shares: seq<Share>, o: Origin, amount: nat, roster: Roster, owner: Owner, fund: FundType, other: nat, now: nat)
    requires Stands(shares, o, amount) && owner.allocationId != o.id
    ensures Stands(Attributed(shares, roster, owner, fund, other, now), o, amount)
  {
    var after := Attributed(shares, roster, owner, fund, other, now);
    AttributedCredits(shares, roster, owner, fund, other, now, o.id);
    forall k | 0 <= k < |o.roster.lines| ensures OthersHold(after, o, o.roster.lines[k].id) {
      var line := o.roster.lines[k].id;
      assert OthersHold(shares, o, line);
      AttributedHeld(shares, roster, owner, fund, other, now, OfLine(o.activity, line));
      AttributedHeld(shares, roster, owner, fund, other, now, OfLineBy(o.activity, line, o.id));
    }
  }

  /** What a line of the roster holds beside the allocation's own shares leaves room for them. */
  lemma {:induction false} RoomBeside(shares: seq<Share>, allocations: seq<Allocation>, o: Origin, amount: nat, k: nat)
    requires Stands(shares, o, amount) && RosterWithin(shares, o.activity, o.roster) && k < |o.roster.lines|
    requires SharesLinked(shares, allocations) && o.id < |allocations| && allocations[o.id].activityId == o.activity
    ensures var line := o.roster.lines[k];
      GivenTo(o.roster, o.fund, o.before, amount, line.id) == HeldOf(shares, OfLineBy(o.activity, line.id, o.id)) &&
      HeldOf(shares, OfLine(o.activity, line.id)) <= CapOf(line)
  {
    var line := o.roster.lines[k];
    assert LineWithin(shares, o.activity, line);
    forall i | 0 <= i < |shares| && shares[i].allocationId == o.id ensures shares[i].activityId == o.activity {
      assert ShareLinked(shares[i], allocations);
    }
    CreditsForLine(shares, o.id, o.activity, line.id);
  }

  lemma {:induction false} UndoneHeld(shares: seq<Share>, o: Origin, now: nat, line: Text)
    ensures TakenOn(TakenIn(ReversedOf(shares, o.id, now), o.activity), line) + HeldOf(shares, OfLineBy(o.activity, line, o.id))
      == HeldOf(shares, OfLine(o.activity, line))
  {
    TakenIsHeld(ReversedOf(shares, o.id, now), o.activity, line);
    ReversedHeld(shares, o.id, now, OfLine(o.activity, line));
  }

  /** Refilling after the allocation's own reversal. */
  lemma {:induction false} RefillGivesFirstShares(shares: seq<Share>, allocations: seq<Allocation>, o: Origin, amount: nat, less: nat, now: nat)
    requires Stands(shares, o, amount) && RosterWithin(shares, o.activity, o.roster) && DistinctRoster(o.roster) && less <= amount
    requires SharesLinked(shares, allocations) && o.id < |allocations| && allocations[o.id].activityId == o.activity
    ensures NewCredits(ReversedOf(shares, o.id, now), o.roster, o.activity, o.fund, less) == CutOff(FirstShares(o, amount), less)
  {
    var taken := TakenIn(ReversedOf(shares, o.id, now), o.activity);
    forall k | 0 <= k < |o.roster.lines|
      ensures TakenOn(o.before, o.roster.lines[k].id) <= TakenOn(taken, o.roster.lines[k].id)
      ensures o.roster.lines[k].valueIdr.Some? ==>
        TakenOn(taken, o.roster.lines[k].id) + GivenTo(o.roster, o.fund, o.before, amount, o.roster.lines[k].id) <= o.roster.lines[k].valueIdr.value
    {
      assert OthersHold(shares, o, o.roster.lines[k].id);
      UndoneHeld(shares, o, now, o.roster.lines[k].id);
      RoomBeside(shares, allocations, o, amount, k);
    }
    RefillGivesCutOff(o.roster, o.fund, o.before, amount, taken, less);
  }

  /** The first fill itself, cut off: filling less in the first place would have given the same. */
  lemma {:induction false} FirstSharesCutOff(shares: seq<Share>, allocations: seq<Allocation>, o: Origin, amount: nat, less: nat)
    requires Stands(shares, o, amount) && RosterWithin(shares, o.activity, o.roster) && DistinctRoster(o.roster) && less <= amount
    requires SharesLinked(shares, allocations) && o.id < |allocations| && allocations[o.id].activityId == o.activity
    ensures FirstShares(o, less) == CutOff(FirstShares(o, amount), less)
  {
    forall k | 0 <= k < |o.roster.lines| && o.roster.lines[k].valueIdr.Some?
      ensures TakenOn(o.before, o.roster.lines[k].id) + GivenTo(o.roster, o.fund, o.before, amount, o.roster.lines[k].id) <= o.roster.lines[k].valueIdr.value
    {
      assert OthersHold(shares, o, o.roster.lines[k].id);
      RoomBeside(shares, allocations, o, amount, k);
    }
    RefillGivesCutOff(o.roster, o.fund, o.before, amount, o.before, less);
  }

  /** After its own reversal the allocation stands with nothing. */
  lemma {:induction false} UndoneStands(shares: seq<Share>, o: Origin, amount: nat, now: nat, k: nat)
    requires Stands(shares, o, amount) && k < |o.roster.lines|
    ensures OthersHold(ReversedOf(shares, o.id, now), o, o.roster.lines[k].id)
  {
    var line := o.roster.lines[k].id;
    assert OthersHold(shares, o, line);
    ReversedHeld(shares, o.id, now, OfLine(o.activity, line));
    ReversedHeld(shares, o.id, now, OfLineBy(o.activity, line, o.id));
  }

  lemma {:induction false} OwnRefillHeld(undone: seq<Share>, o: Origin, owner: Owner, less: nat, now: nat, line: Text)
    requires owner.allocationId == o.id && owner.activityId == o.activity && OthersHold(undone, o, line)
    ensures OthersHold(Attributed(undone, o.roster, owner, o.fund, less, now), o, line)
  {
    AttributedHeld(undone, o.roster, owner, o.fund, less, now, OfLine(o.activity, line));
    AttributedHeld(undone, o.roster, owner, o.fund, less, now, OfLineBy(o.activity, line, o.id));
  }

  /** Undone and about to be filled again: the next fill gives the first shares for `less`. */
  predicate Ready(undone: seq<Share>, o: Origin, less: nat)
  {
    CreditsHeld(undone, o.id) == [] && NewCredits(undone, o.roster, o.activity, o.fund, less) == FirstShares(o, less) &&
    forall k | 0 <= k < |o.roster.lines| :: OthersHold(undone, o, o.roster.lines[k].id)
  }

  lemma {:induction false} ReversalReadies(shares: seq<Share>, allocations: seq<Allocation>, o: Origin, amount: nat, less: nat, now: nat)
    requires Stands(shares, o, amount) && RosterWithin(shares, o.activity, o.roster) && DistinctRoster(o.roster) && less <= amount
    requires SharesLinked(shares, allocations) && o.id < |allocations| && allocations[o.id].activityId == o.activity
    ensures Ready(ReversedOf(shares, o.id, now), o, less)
  {
    RefillGivesFirstShares(shares, allocations, o, amount, less, now);
    FirstSharesCutOff(shares, allocations, o, amount, less);
    ReversedCredits(shares, o.id, now, o.id);
    forall k | 0 <= k < |o.roster.lines| ensures OthersHold(ReversedOf(shares, o.id, now), o, o.roster.lines[k].id) {
      UndoneStands(shares, o, amount, now, k);
    }
  }

  lemma {:induction false} RefillStands(undone: seq<Share>, o: Origin, owner: Owner, less: nat, now: nat)
    requires Ready(undone, o, less) && owner.allocationId == o.id && owner.activityId == o.activity
    ensures Stands(Attributed(undone, o.roster, owner, o.fund, less, now), o, less)
  {
    var after := Attributed(undone, o.roster, owner, o.fund, less, now);
    AttributedCredits(undone, o.roster, owner, o.fund, less, now, o.id);
    forall k | 0 <= k < |o.roster.lines| ensures OthersHold(after, o, o.roster.lines[k].id) {
      OwnRefillHeld(undone, o, owner, less, now, o.roster.lines[k].id);
    }
  }

  // ----- Reversals elsewhere

  lemma {:induction false} NothingElsewhere(shares: seq<Share>, allocations: seq<Allocation>, activity: Text, line: Text, other: nat)
    requires SharesLinked(shares, allocations) && other < |allocations| && allocations[other].activityId != activity
    ensures HeldOf(shares, OfLineBy(activity, line, other)) == 0
  {
    if shares != [] {
      assert ShareLinked(shares[|shares| - 1], allocations);
      NothingElsewhere(shares[..|shares| - 1], allocations, activity, line, other);
    }
  }

  lemma {:induction false} ReversalElsewhereKeeps(shares: seq<Share>, allocations: seq<Allocation>, o: Origin, amount: nat, other: nat, now: nat)
    requires Stands(shares, o, amount) && SharesLinked(shares, allocations)
    requires other < |allocations| && other != o.id && allocations[other].activityId != o.activity
    ensures Stands(ReversedOf(shares, other, now), o, amount)
  {
    ReversedCredits(shares, other, now, o.id);
    forall k | 0 <= k < |o.roster.lines| ensures OthersHold(ReversedOf(shares, other, now), o, o.roster.lines[k].id) {
      var line := o.roster.lines[k].id;
      assert OthersHold(shares, o, line);
      NothingElsewhere(shares, allocations, o.activity, line, other);
      ReversedHeld(shares, other, now, OfLine(o.activity, line));
      ReversedHeld(shares, other, now, OfLineBy(o.activity, line, o.id));
    }
  }

  // ----- Steps and runs

  /** The tracked allocation as the ledger has it. */
  predicate Tracked(l: Ledger, o: Origin)
  {
    Sound(l) && o.id < |l.allocations| && o.activity in l.activities && l.activities[o.activity].roster == o.roster &&
    l.allocations[o.id].activityId == o.activity && l.allocations[o.id].fund == Some(o.fund) &&
    Stands(l.shares, o, l.allocations[o.id].amount)
  }

  /** The transaction reverses no attribution of the activity but that of allocation `id`. */
  predicate Spares(t: FundTransaction, activity: Text, id: nat)
  {
    t.Move? && t.move.sourceActivityId == activity ==> t.move.sourceAllocationId == id
  }

  lemma {:induction false} SharingKeepsTrack(l: Ledger, o: Origin, id: nat, fund: FundType, amount: nat, now: nat)
    requires Tracked(l, o) && id < |l.allocations| && id != o.id
    requires Sound(WithShares(l, id, fund, amount, now))
    ensures Tracked(WithShares(l, id, fund, amount, now), o)
  {
    var row := l.allocations[id];
    OtherFillKeeps(l.shares, o, l.allocations[o.id].amount, l.activities[row.activityId].roster, OwnerOf(row, id), fund, amount, now);
  }

  lemma {:induction false} EnteredKeepsTrack(l: Ledger, o: Origin, contribution: Text, activity: Text, amount: nat, terms: Terms, action: AllocationAction, now: nat)
    requires Tracked(l, o) && contribution in l.contributions && activity in l.activities
    ensures Tracked(Entered(l, contribution, activity, amount, terms, action, now), o)
  {
    EnteredIsSound(l, contribution, activity, amount, terms, action, now);
  }

  lemma {:induction false} PlacedKeepsTrack(l: Ledger, o: Origin, contribution: Text, activity: Text, amount: nat, terms: Terms, action: AllocationAction, now: nat)
    requires Tracked(l, o) && contribution in l.contributions && activity in l.activities
    ensures Tracked(Placed(l, contribution, activity, amount, terms, action, now), o)
  {
    var entered := Entered(l, contribution, activity, amount, terms, action, now);
    EnteredKeepsTrack(l, o, contribution, activity, amount, terms, action, now);
    PlacedIsSound(l, contribution, activity, amount, terms, action, now);
    SharingKeepsTrack(entered, o, |l.allocations|, terms.fund, amount, now);
  }

  lemma {:induction false} TouchedKeepsTrack(l: Ledger, o: Origin, activity: Text, bump: nat, now: nat)
    requires Tracked(l, o) && activity in l.activities
    ensures Tracked(Touched(l, activity, bump, now), o)
  {
    TouchedIsSound(l, activity, bump, now);
  }

  lemma {:induction false} TrackedFacts(l: Ledger, o: Origin)
    requires Tracked(l, o)
    ensures RosterWithin(l.shares, o.activity, o.roster) && DistinctRoster(o.roster) && SharesLinked(l.shares, l.allocations)
  {
  }

  lemma {:induction false} OwnWithdrawnReadies(l: Ledger, o: Origin, amount: nat, now: nat)
    requires o.id < |l.allocations| && l.allocations[o.id].activityId == o.activity && amount <= l.allocations[o.id].amount
    requires l.allocations[o.id].contributionId in l.contributions && Stands(l.shares, o, l.allocations[o.id].amount)
    requires RosterWithin(l.shares, o.activity, o.roster) && DistinctRoster(o.roster) && SharesLinked(l.shares, l.allocations)
    ensures Ready(Withdrawn(l, o.id, amount, now).shares, o, l.allocations[o.id].amount - amount)
  {
    var held: nat := l.allocations[o.id].amount;
    ReversalReadies(l.shares, l.allocations, o, held, held - amount, now);
  }

  /** The tracked allocation after its own reversal, ready to be filled with what is left. */
  predicate Emptied(out: Ledger, o: Origin, left: nat)
  {
    o.id < |out.allocations| && out.allocations[o.id].amount == left && out.allocations[o.id].fund == Some(o.fund) &&
    out.allocations[o.id].activityId == o.activity && o.activity in out.activities && out.activities[o.activity].roster == o.roster &&
    Ready(out.shares, o, left)
  }

  lemma {:induction false} OwnWithdrawnIsEmptied(l: Ledger, o: Origin, amount: nat, now: nat) returns (out: Ledger)
    requires Tracked(l, o) && amount <= l.allocations[o.id].amount
    ensures out == Withdrawn(l, o.id, amount, now) && Emptied(out, o, l.allocations[o.id].amount - amount)
  {
    TrackedFacts(l, o);
    OwnWithdrawnReadies(l, o, amount, now);
    out := Withdrawn(l, o.id, amount, now);
  }

  lemma {:induction false} OwnRefillKeepsTrack(out: Ledger, o: Origin, left: nat, now: nat)
    requires Emptied(out, o, left) && Sound(WithShares(out, o.id, o.fund, left, now))
    ensures Tracked(WithShares(out, o.id, o.fund, left, now), o)
  {
    RefillStands(out.shares, o, OwnerOf(out.allocations[o.id], o.id), left, now);
  }

  lemma {:induction false} OwnWithdrawalKeepsTrack(l: Ledger, o: Origin, amount: nat, fallback: FundType, now: nat)
    requires Tracked(l, o) && amount <= l.allocations[o.id].amount
    ensures Tracked(TakenOut(l, o.id, amount, fallback, now), o)
  {
    var out := OwnWithdrawnIsEmptied(l, o, amount, now);
    var left := l.allocations[o.id].amount - amount;
    assert TakenOut(l, o.id, amount, fallback, now) == WithShares(out, o.id, o.fund, left, now);
    TakenOutIsSound(l, o.id, amount, fallback, now);
    OwnRefillKeepsTrack(out, o, left, now);
  }

  lemma {:induction false} WithdrawnElsewhereKeepsTrack(l: Ledger, o: Origin, source: nat, amount: nat, now: nat)
    requires Tracked(l, o) && source < |l.allocations| && amount <= l.allocations[source].amount
    requires l.allocations[source].activityId != o.activity
    ensures Tracked(Withdrawn(l, source, amount, now), o)
  {
    var out := WithdrawnIsSound(l, source, amount, now);
    ReversalElsewhereKeeps(l.shares, l.allocations, o, l.allocations[o.id].amount, source, now);
  }

  lemma {:induction false} WithdrawalElsewhereKeepsTrack(l: Ledger, o: Origin, source: nat, amount: nat, fallback: FundType, now: nat)
    requires Tracked(l, o) && source < |l.allocations| && amount <= l.allocations[source].amount
    requires l.allocations[source].activityId != o.activity
    ensures Tracked(TakenOut(l, source, amount, fallback, now), o)
  {
    var row := l.allocations[source];
    WithdrawnElsewhereKeepsTrack(l, o, source, amount, now);
    TakenOutIsSound(l, source, amount, fallback, now);
    SharingKeepsTrack(Withdrawn(l, source, amount, now), o, source, FundOf(row, fallback), row.amount - amount, now);
  }

  lemma {:induction false} RecordedKeepsTrack(l: Ledger, o: Origin, d: Decision, now: nat)
    requires Tracked(l, o) && d.sourceActivityId in l.activities && d.targetActivityId in l.activities
    ensures Tracked(Recorded(l, d, now), o)
  {
    var decided := l.(decisions := l.decisions + [d]);
    assert Tracked(decided, o);
    TouchedKeepsTrack(decided, o, d.sourceActivityId, 1, now);
    TouchedKeepsTrack(Touched(decided, d.sourceActivityId, 1, now), o, d.targetActivityId, 1, now);
  }

  lemma {:induction false} MovedKeepsTrack(l: Ledger, o: Origin, q: ReallocateRequest, terms: Terms, now: nat)
    requires Tracked(l, o) && q.sourceAllocationId < |l.allocations| && q.amount <= l.allocations[q.sourceAllocationId].amount
    requires l.allocations[q.sourceAllocationId].activityId == q.sourceActivityId && q.targetActivityId in l.activities
    requires q.sourceActivityId == o.activity ==> q.sourceAllocationId == o.id
    ensures Tracked(Moved(l, q, terms, now), o)
  {
    var contribution := l.allocations[q.sourceAllocationId].contributionId;
    if q.sourceAllocationId == o.id {
      OwnWithdrawalKeepsTrack(l, o, q.amount, terms.fund, now);
    } else {
      WithdrawalElsewhereKeepsTrack(l, o, q.sourceAllocationId, q.amount, terms.fund, now);
    }
    PlacedKeepsTrack(TakenOut(l, q.sourceAllocationId, q.amount, terms.fund, now), o, contribution, q.targetActivityId, q.amount, terms, ReallocateIn, now);
    RecordedKeepsTrack(Exchanged(l, q, terms, now), o, DecisionOf(l, q, terms, now), now);
  }

  // ----- Backfills

  lemma {:induction false} NothingStaysNothing(shares: seq<Share>, allocations: seq<Allocation>, o: Origin, amount: nat)
    requires Stands(shares, o, amount) && RosterWithin(shares, o.activity, o.roster) && DistinctRoster(o.roster)
    requires SharesLinked(shares, allocations) && o.id < |allocations| && allocations[o.id].activityId == o.activity
    requires CreditsHeld(shares, o.id) == []
    ensures NewCredits(shares, o.roster, o.activity, o.fund, amount) == []
  {
    var taken := TakenIn(shares, o.activity);
    forall k | 0 <= k < |o.roster.lines|
      ensures TakenOn(o.before, o.roster.lines[k].id) <= TakenOn(taken, o.roster.lines[k].id)
      ensures o.roster.lines[k].valueIdr.Some? ==>
        TakenOn(taken, o.roster.lines[k].id) + GivenTo(o.roster, o.fund, o.before, amount, o.roster.lines[k].id) <= o.roster.lines[k].valueIdr.value
    {
      assert OthersHold(shares, o, o.roster.lines[k].id);
      TakenIsHeld(shares, o.activity, o.roster.lines[k].id);
      RoomBeside(shares, allocations, o, amount, k);
    }
    RefillGivesCutOff(o.roster, o.fund, o.before, amount, taken, amount);
  }

  /** Filling an allocation again that stands with nothing gives nothing. */
  lemma {:induction false} OwnBackfillKeeps(shares: seq<Share>, allocations: seq<Allocation>, o: Origin, amount: nat, owner: Owner, now: nat)
    requires Stands(shares, o, amount) && RosterWithin(shares, o.activity, o.roster) && DistinctRoster(o.roster)
    requires SharesLinked(shares, allocations) && o.id < |allocations| && allocations[o.id].activityId == o.activity
    requires CreditsHeld(shares, o.id) == [] && owner.allocationId == o.id && owner.activityId == o.activity
    ensures Stands(Attributed(shares, o.roster, owner, o.fund, amount, now), o, amount)
  {
    var after := Attributed(shares, o.roster, owner, o.fund, amount, now);
    NothingStaysNothing(shares, allocations, o, amount);
    AttributedCredits(shares, o.roster, owner, o.fund, amount, now, o.id);
    forall k | 0 <= k < |o.roster.lines| ensures OthersHold(after, o, o.roster.lines[k].id) {
      var line := o.roster.lines[k].id;
      assert OthersHold(shares, o, line);
      OwnRefillHeld(shares, o, owner, amount, now, line);
    }
  }

  lemma {:induction false} CandidateKeepsStand(l: Ledger, shares: seq<Share>, o: Origin, i: nat, now: nat)
    requires Tracked(l, o) && Fits(shares, l.allocations, l.activities) && i < |l.allocations|
    requires Stands(shares, o, l.allocations[o.id].amount) && (i == o.id ==> CreditsHeld(shares, o.id) == [])
    ensures Stands(SharesAfterCandidate(l, shares, i, now), o, l.allocations[o.id].amount)
  {
    var row := l.allocations[i];
    if row.amount != 0 && row.fund.Some? {
      if i == o.id {
        OwnBackfillKeeps(shares, l.allocations, o, row.amount, OwnerOf(row, i), now);
      } else {
        OtherFillKeeps(shares, o, l.allocations[o.id].amount, l.activities[row.activityId].roster, OwnerOf(row, i), row.fund.value, row.amount, now);
      }
    }
  }

  lemma {:induction false} BackfillKeepsStand(l: Ledger, o: Origin, cs: seq<nat>, now: nat)
    requires Tracked(l, o) && AllBelow(cs, |l.allocations|) && Distinct(cs) && Unattributed(l.shares, cs)
    requires forall k | 0 <= k < |cs| :: IsCandidate(l, cs[k])
    ensures Stands(BackfilledShares(l, cs, now), o, l.allocations[o.id].amount)
  {
    if cs != [] {
      var front, i := cs[..|cs| - 1], cs[|cs| - 1];
      BackfillKeepsStand(l, o, front, now);
      BackfillFits(l, front, now);
      if i == o.id {
        BackfillTouchesOnly(l, front, now, i);
        NoCreditsNoShares(l.shares, i);
      }
      CandidateKeepsStand(l, BackfilledShares(l, front, now), o, i, now);
    }
  }

  lemma {:induction false} BackfillKeepsTrack(l: Ledger, o: Origin, now: nat)
    requires Tracked(l, o)
    ensures Tracked(Backfilled(l, now), o)
  {
    var cs := CandidatesOf(l, |l.allocations|);
    CandidatesAreDistinct(l, |l.allocations|);
    CandidatesAreUnattributed(l);
    forall k | 0 <= k < |cs| ensures IsCandidate(l, cs[k]) { CandidateMembers(l, |l.allocations|, cs[k]); }
    BackfillKeepsStand(l, o, cs, now);
    BackfilledIsSound(l, now);
  }

  // ----- Whole runs

  lemma {:induction false} AllocatedKeepsTrack(l: Ledger, o: Origin, q: AllocateRequest, now: nat)
    requires Tracked(l, o)
    ensures Tracked(Settled(l, Allocated(l, q, now)), o)
  {
    if Allocated(l, q, now).Ok? {
      var terms := AllocateGuard(l, q).value;
      PlacedKeepsTrack(l, o, q.contributionId, q.activityId, q.amount, terms, Allocate, now);
      TouchedKeepsTrack(Placed(l, q.contributionId, q.activityId, q.amount, terms, Allocate, now), o, q.activityId, 0, now);
    }
  }

  lemma {:induction false} MoveKeepsTrack(l: Ledger, o: Origin, q: ReallocateRequest, availability: Availability, now: nat)
    requires Tracked(l, o) && (q.sourceActivityId == o.activity ==> q.sourceAllocationId == o.id)
    ensures Tracked(Settled(l, MovedBetween(l, q, availability, now)), o)
  {
    if MovedBetween(l, q, availability, now).Ok? { MovedKeepsTrack(l, o, q, ReallocateGuard(l, q, availability).value, now); }
  }

  lemma {:induction false} ContributedKeepsTrack(l: Ledger, o: Origin, transaction: Transaction)
    requires Tracked(l, o)
    ensures Tracked(l.(contributions := After(l.contributions, transaction)), o)
  {
    ContributedIsLinked(l, transaction);
  }

  lemma {:induction false} RunKeepsTrack(l: Ledger, o: Origin, ts: seq<FundTransaction>)
    requires Tracked(l, o) && forall i | 0 <= i < |ts| :: Spares(ts[i], o.activity, o.id)
    ensures Tracked(RunFrom(l, ts), o)
  {
    if ts != [] {
      var before, t := RunFrom(l, ts[..|ts| - 1]), ts[|ts| - 1];
      RunKeepsTrack(l, o, ts[..|ts| - 1]);
      match t
      case Contribute(transaction) => ContributedKeepsTrack(before, o, transaction);
      case AllocateTo(q, now) => AllocatedKeepsTrack(before, o, q, now);
      case Move(q, availability, now) => MoveKeepsTrack(before, o, q, availability, now);
      case Backfill(now) => BackfillKeepsTrack(before, o, now);
    }
  }

  // ----- The first fill

  lemma {:induction false} FirstFillStands(shares: seq<Share>, o: Origin, owner: Owner, amount: nat, now: nat)
    requires owner.allocationId == o.id && owner.activityId == o.activity && o.before == TakenIn(shares, o.activity)
    requires CreditsHeld(shares, o.id) == [] && HeldOf(shares, OfAllocation(o.id)) == 0
    ensures Stands(Attributed(shares, o.roster, owner, o.fund, amount, now), o, amount)
  {
    var after := Attributed(shares, o.roster, owner, o.fund, amount, now);
    AttributedCredits(shares, o.roster, owner, o.fund, amount, now, o.id);
    forall k | 0 <= k < |o.roster.lines| ensures OthersHold(after, o, o.roster.lines[k].id) {
      var line := o.roster.lines[k].id;
      TakenIsHeld(shares, o.activity, line);
      LineByWithin(shares, o.activity, line, o.id);
      OwnRefillHeld(shares, o, owner, amount, now, line);
    }
  }

  lemma {:induction false} LineByWithin(shares: seq<Share>, activity: Text, line: Text, allocation: nat)
    ensures HeldOf(shares, OfLineBy(activity, line, allocation)) <= HeldOf(shares, OfAllocation(allocation))
  {
    if shares != [] { LineByWithin(shares[..|shares| - 1], activity, line, allocation); }
  }

  lemma {:induction false} PlacedIsTracked(l: Ledger, o: Origin, contribution: Text, amount: nat, terms: Terms, action: AllocationAction, now: nat)
    requires Sound(l) && contribution in l.contributions && o.activity in l.activities
    requires o == Origin(|l.allocations|, o.activity, l.activities[o.activity].roster, terms.fund, TakenIn(l.shares, o.activity))
    ensures Tracked(Placed(l, contribution, o.activity, amount, terms, action, now), o)
  {
    PlacedIsSound(l, contribution, o.activity, amount, terms, action, now);
    NoCreditsBeyond(l.shares, l.allocations, o.id);
    NothingHeldBeyond(l.shares, l.allocations, o.id);
    FirstFillStands(l.shares, o, Owner(o.id, contribution, o.activity), amount, now);
  }

  lemma {:induction false} AllocatedIsTracked(l: Ledger, q: AllocateRequest, now: nat) returns (o: Origin)
    requires Sound(l) && Allocated(l, q, now).Ok?
    ensures Tracked(Allocated(l, q, now).value, o) && o.id == |l.allocations|
  {
    var terms := AllocateGuard(l, q).value;
    o := Origin(|l.allocations|, q.activityId, l.activities[q.activityId].roster, terms.fund, TakenIn(l.shares, q.activityId));
    PlacedIsTracked(l, o, q.contributionId, q.amount, terms, Allocate, now);
    TouchedKeepsTrack(Placed(l, q.contributionId, q.activityId, q.amount, terms, Allocate, now), o, q.activityId, 0, now);
  }

  /** The allocation a move creates. */
  lemma {:induction false} MoveTargetIsTracked(l: Ledger, q: ReallocateRequest, terms: Terms, now: nat) returns (o: Origin)
    requires Sound(l) && q.sourceAllocationId < |l.allocations| && q.amount <= l.allocations[q.sourceAllocationId].amount
    requires l.allocations[q.sourceAllocationId].activityId == q.sourceActivityId && q.targetActivityId in l.activities
    ensures Tracked(Moved(l, q, terms, now), o) && o.id == |l.allocations|
  {
    var out := TakenOut(l, q.sourceAllocationId, q.amount, terms.fund, now);
    TakenOutIsSound(l, q.sourceAllocationId, q.amount, terms.fund, now);
    o := Origin(|l.allocations|, q.targetActivityId, out.activities[q.targetActivityId].roster, terms.fund, TakenIn(out.shares, q.targetActivityId));
    PlacedIsTracked(out, o, l.allocations[q.sourceAllocationId].contributionId, q.amount, terms, ReallocateIn, now);
    RecordedKeepsTrack(Exchanged(l, q, terms, now), o, DecisionOf(l, q, terms, now), now);
  }

  lemma {:induction false} RefilledIsTracked(l: Ledger, source: nat, amount: nat, fallback: FundType, now: nat) returns (o: Origin)
    requires Sound(l) && source < |l.allocations| && amount <= l.allocations[source].amount && l.allocations[source].fund.Some?
    ensures Tracked(TakenOut(l, source, amount, fallback, now), o) && o.id == source
  {
    var row := l.allocations[source];
    var out := WithdrawnIsSound(l, source, amount, now);
    o := Origin(source, row.activityId, l.activities[row.activityId].roster, row.fund.value, TakenIn(out.shares, row.activityId));
    ReversedCredits(l.shares, source, now, source);
    FirstFillStands(out.shares, o, OwnerOf(out.allocations[source], source), row.amount - amount, now);
    TakenOutIsSound(l, source, amount, fallback, now);
  }

  /** What stays of an allocation that a move takes from: it is undone and filled anew. */
  lemma {:induction false} MoveSourceIsTracked(l: Ledger, q: ReallocateRequest, terms: Terms, now: nat) returns (o: Origin)
    requires Sound(l) && q.sourceAllocationId < |l.allocations| && q.amount <= l.allocations[q.sourceAllocationId].amount
    requires l.allocations[q.sourceAllocationId].activityId == q.sourceActivityId && q.targetActivityId in l.activities
    requires l.allocations[q.sourceAllocationId].fund.Some?
    ensures Tracked(Moved(l, q, terms, now), o) && o.id == q.sourceAllocationId
  {
    var contribution := l.allocations[q.sourceAllocationId].contributionId;
    o := RefilledIsTracked(l, q.sourceAllocationId, q.amount, terms.fund, now);
    PlacedKeepsTrack(TakenOut(l, q.sourceAllocationId, q.amount, terms.fund, now), o, contribution, q.targetActivityId, q.amount, terms, ReallocateIn, now);
    RecordedKeepsTrack(Exchanged(l, q, terms, now), o, DecisionOf(l, q, terms, now), now);
  }

  /** A candidate visited now stands with what it receives, nothing when it holds nothing. */
  lemma {:induction false} CandidateStands(l: Ledger, shares: seq<Share>, o: Origin, now: nat)
    requires Linked(l) && o.id < |l.allocations| && l.allocations[o.id].fund == Some(o.fund) && l.allocations[o.id].activityId == o.activity
    requires l.activities[o.activity].roster == o.roster && o.before == TakenIn(shares, o.activity) && CreditsHeld(shares, o.id) == []
    ensures Stands(SharesAfterCandidate(l, shares, o.id, now), o, l.allocations[o.id].amount)
  {
    var row := l.allocations[o.id];
    CreditsAddUp(shares, o.id);
    FirstFillStands(shares, o, OwnerOf(row, o.id), row.amount, now);
    assert row.amount == 0 ==> Attributed(shares, o.roster, OwnerOf(row, o.id), o.fund, 0, now) == shares;
  }

  /** A candidate of a backfill receives its first shares when its turn comes, and keeps them to the end. */
  lemma {:induction false} BackfillFills(l: Ledger, cs: seq<nat>, now: nat, id: nat) returns (o: Origin)
    requires Linked(l) && AllBelow(cs, |l.allocations|) && Distinct(cs) && id in cs
    requires CreditsHeld(l.shares, id) == [] && l.allocations[id].fund.Some?
    ensures o.id == id && o.activity == l.allocations[id].activityId && o.roster == l.activities[o.activity].roster
    ensures Some(o.fund) == l.allocations[id].fund && Stands(BackfilledShares(l, cs, now), o, l.allocations[id].amount)
  {
    var front, i := cs[..|cs| - 1], cs[|cs| - 1];
    var shares, row := BackfilledShares(l, front, now), l.allocations[i];
    if i == id {
      BackfillTouchesOnly(l, front, now, id);
      o := Origin(id, row.activityId, l.activities[row.activityId].roster, row.fund.value, TakenIn(shares, row.activityId));
      CandidateStands(l, shares, o, now);
    } else {
      o := BackfillFills(l, front, now, id);
      if row.amount != 0 && row.fund.Some? {
        OtherFillKeeps(shares, o, l.allocations[id].amount, l.activities[row.activityId].roster, OwnerOf(row, i), row.fund.value, row.amount, now);
      }
    }
  }

  lemma {:induction false} BackfilledIsTracked(l: Ledger, now: nat, id: nat) returns (o: Origin)
    requires Sound(l) && IsCandidate(l, id) && l.allocations[id].fund.Some?
    ensures Tracked(Backfilled(l, now), o) && o.id == id
  {
    CandidatesAreDistinct(l, |l.allocations|);
    CandidateMembers(l, |l.allocations|, id);
    NoCreditsNoShares(l.shares, id);
    o := BackfillFills(l, CandidatesOf(l, |l.allocations|), now, id);
    BackfilledIsSound(l, now);
  }

  /** A move fills the allocation it makes and what stays of the one it takes from. */
  predicate MoveFills(l: Ledger, q: ReallocateRequest, availability: Availability, now: nat, id: nat): (fills: bool)
    requires Linked(l)
    ensures fills ==> MovedBetween(l, q, availability, now).Ok? && id < |MovedBetween(l, q, availability, now).value.allocations|
  {
    MovedBetween(l, q, availability, now).Ok? &&
    (id == |l.allocations| || (id == q.sourceAllocationId && l.allocations[id].fund.Some?))
  }

  lemma {:induction false} MoveFilledIsTracked(l: Ledger, q: ReallocateRequest, availability: Availability, now: nat, id: nat) returns (o: Origin)
    requires Sound(l) && MoveFills(l, q, availability, now, id)
    ensures Tracked(MovedBetween(l, q, availability, now).value, o) && o.id == id
  {
    var terms := ReallocateGuard(l, q, availability).value;
    if id == |l.allocations| {
      o := MoveTargetIsTracked(l, q, terms, now);
    } else {
      o := MoveSourceIsTracked(l, q, terms, now);
    }
  }

  /**
   The transaction fills allocation `id` from nothing: it makes it, by a request or as the target
   of a move, backfills it, or takes from it and fills what stays.
   */
  predicate FillsFromNothing(l: Ledger, t: FundTransaction, id: nat): (fills: bool)
    requires Linked(l)
    ensures fills ==> id < |RunFrom(l, [t]).allocations|
  {
    assert RunFrom(l, []) == l;
    match t
    case Contribute(_) => false
    case AllocateTo(q, now) => Allocated(l, q, now).Ok? && id == |l.allocations|
    case Move(q, availability, now) => MoveFills(l, q, availability, now, id)
    case Backfill(now) => IsCandidate(l, id) && l.allocations[id].fund.Some?
  }

  lemma {:induction false} FilledIsTracked(l: Ledger, t: FundTransaction, id: nat) returns (o: Origin)
    requires Sound(l) && FillsFromNothing(l, t, id)
    ensures Tracked(Next(l, t), o) && o.id == id
  {
    match t
    case AllocateTo(q, now) => o := AllocatedIsTracked(l, q, now);
    case Move(q, availability, now) => o := MoveFilledIsTracked(l, q, availability, now, id);
    case Backfill(now) => o := BackfilledIsTracked(l, now, id);
  }

  /**
   An allocation is filled, and any transactions follow that reverse no other attribution of its
   activity; money may move out of it any number of times. At the end its shares are the shares it
   first received, cut off at what it still holds.
   */
  lemma {:induction false} SharesAreFirstSharesCutOff(l: Ledger, t: FundTransaction, id: nat, ts: seq<FundTransaction>)
    requires Sound(l) && FillsFromNothing(l, t, id)
    requires forall i | 0 <= i < |ts| :: Spares(ts[i], RunFrom(l, [t]).allocations[id].activityId, id)
    ensures var first := RunFrom(l, [t]);
      var end := RunFrom(first, ts);
      id < |end.allocations| && end.allocations[id].amount <= first.allocations[id].amount &&
      CreditsHeld(end.shares, id) == CutOff(CreditsHeld(first.shares, id), end.allocations[id].amount)
  {
    assert RunFrom(l, []) == l;
    var first := RunFrom(l, [t]);
    var o := FilledIsTracked(l, t, id);
    RunKeepsTrack(first, o, ts);
    RunOnlyReduces(first, ts, id);
    TrackedCutOff(first, RunFrom(first, ts), o);
  }

  lemma {:induction false} TrackedCutOff(first: Ledger, end: Ledger, o: Origin)
    requires Tracked(first, o) && Tracked(end, o) && end.allocations[o.id].amount <= first.allocations[o.id].amount
    ensures CreditsHeld(end.shares, o.id) == CutOff(CreditsHeld(first.shares, o.id), end.allocations[o.id].amount)
  {
    FirstSharesCutOff(first.shares, first.allocations, o, first.allocations[o.id].amount, end.allocations[o.id].amount);
  }

  /** No transaction adds to an existing allocation. */
  lemma {:induction false} RunOnlyReduces(l: Ledger, ts: seq<FundTransaction>, id: nat)
    requires Linked(l) && id < |l.allocations|
    ensures id < |RunFrom(l, ts).allocations| && RunFrom(l, ts).allocations[id].amount <= l.allocations[id].amount
  {
    if ts != [] {
      var before, t := RunFrom(l, ts[..|ts| - 1]), ts[|ts| - 1];
      RunOnlyReduces(l, ts[..|ts| - 1], id);
      NextOnlyReduces(before, t, id);
    }
  }

  lemma {:induction false} NextOnlyReduces(l: Ledger, t: FundTransaction, id: nat)
    requires Linked(l) && id < |l.allocations|
    ensures id < |Next(l, t).allocations| && Next(l, t).allocations[id].amount <= l.allocations[id].amount
  {
    match t
    case Contribute(transaction) =>
    case AllocateTo(q, now) =>
    case Move(q, availability, now) =>
      if MovedBetween(l, q, availability, now).Ok? { MovedRows(l, q, ReallocateGuard(l, q, availability).value, now); }
    case Backfill(now) =>
  }
}
