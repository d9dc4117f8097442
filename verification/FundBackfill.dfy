/** The backfill of allocations without shares: running it a second time writes nothing. */
module FundBackfill {
  import opened Texts
  import opened AllocationFill
  import opened AllocationFillLaws
  import opened RosterFill
  import opened FundLedger
  import opened FundShares
  import opened FundBounds
  import opened FundRuns

  // ----- A fill that found no room finds none later

  /** Every line holds at least as much in `after` as in `before`. */
  predicate HoldsMore(before: seq<Share>, after: seq<Share>, activity: Text, roster: Roster)
  {
    forall k | 0 <= k < |roster.lines| ::
      HeldOf(before, OfLine(activity, roster.lines[k].id)) <= HeldOf(after, OfLine(activity, roster.lines[k].id))
  }

  lemma {:induction false} NoRoomStaysNoRoom(before: seq<Share>, after: seq<Share>, activity: Text, roster: Roster, fund: FundType, amount: nat)
    requires DistinctRoster(roster) && HoldsMore(before, after, activity, roster) && RosterWithin(after, activity, roster)
    requires NewCredits(before, roster, activity, fund, amount) == []
    ensures NewCredits(after, roster, activity, fund, amount) == []
  {
    var (then_, now) := (TakenIn(before, activity), TakenIn(after, activity));
    forall k | 0 <= k < |roster.lines|
      ensures TakenOn(then_, roster.lines[k].id) <= TakenOn(now, roster.lines[k].id)
      ensures roster.lines[k].valueIdr.Some? ==>
        TakenOn(now, roster.lines[k].id) + GivenTo(roster, fund, then_, amount, roster.lines[k].id) <= roster.lines[k].valueIdr.value
    {
      TakenIsHeld(before, activity, roster.lines[k].id);
      TakenIsHeld(after, activity, roster.lines[k].id);
      assert LineWithin(after, activity, roster.lines[k]);
    }
    RefillGivesCutOff(roster, fund, then_, amount, now, amount);
  }

  // ----- The table only grows

  /** What the first `k` candidates wrote stands in front of what all of them wrote. */
  lemma {:induction false} BackfillExtends(l: Ledger, cs: seq<nat>, k: nat, now: nat)
    requires Linked(l) && AllBelow(cs, |l.allocations|) && k <= |cs|
    ensures AllBelow(cs[..k], |l.allocations|) && BackfilledShares(l, cs[..k], now) <= BackfilledShares(l, cs, now)
  {
    if k == |cs| {
      assert cs[..k] == cs;
    } else {
      var n := |cs| - 1;
      BackfillExtends(l, cs[..n], k, now);
      assert cs[..n][..k] == cs[..k];
      var (some, most, all) := (BackfilledShares(l, cs[..k], now), BackfilledShares(l, cs[..n], now), BackfilledShares(l, cs, now));
    }
  }

  lemma {:induction false} ExtendingHoldsMore(before: seq<Share>, after: seq<Share>, p: Pick)
    requires before <= after
    ensures HeldOf(before, p) <= HeldOf(after, p)
  {
    assert after == before + after[|before|..];
    HeldConcat(before, after[|before|..], p);
  }

  lemma {:induction false} ExtendingKeepsCredits(before: seq<Share>, after: seq<Share>, id: nat)
    requires before <= after && CreditsHeld(after, id) == []
    ensures CreditsHeld(before, id) == []
  {
    assert after == before + after[|before|..];
    CreditsHeldConcat(before, after[|before|..], id);
  }

  // ----- Whoever is still a candidate afterwards found no room

  /** The fill of allocation `i`, seen from a share table. */
  function OwnCredits(l: Ledger, shares: seq<Share>, i: nat): seq<Credit>
    requires Linked(l) && i < |l.allocations|
  {
    var row := l.allocations[i];
    if row.amount == 0 || row.fund.None? then []
    else NewCredits(shares, l.activities[row.activityId].roster, row.activityId, row.fund.value, row.amount)
  }

  lemma {:induction false} CandidateGains(l: Ledger, shares: seq<Share>, i: nat, now: nat)
    requires Linked(l) && i < |l.allocations|
    ensures CreditsHeld(SharesAfterCandidate(l, shares, i, now), i) == CreditsHeld(shares, i) + OwnCredits(l, shares, i)
  {
    var row := l.allocations[i];
    if row.amount == 0 || row.fund.None? {
    } else {
      AttributedCredits(shares, l.activities[row.activityId].roster, OwnerOf(row, i), row.fund.value, row.amount, now, i);
    }
  }

  lemma {:induction false} LeftOutFoundNoRoom(l: Ledger, cs: seq<nat>, k: nat, now: nat)
    requires Linked(l) && AllBelow(cs, |l.allocations|) && k < |cs| && CreditsHeld(BackfilledShares(l, cs, now), cs[k]) == []
    ensures AllBelow(cs[..k], |l.allocations|) && OwnCredits(l, BackfilledShares(l, cs[..k], now), cs[k]) == []
  {
    BackfillExtends(l, cs, k, now);
    BackfillExtends(l, cs, k + 1, now);
    assert cs[..k + 1][..k] == cs[..k];
    var before, after := BackfilledShares(l, cs[..k], now), BackfilledShares(l, cs[..k + 1], now);
    ExtendingKeepsCredits(after, BackfilledShares(l, cs, now), cs[k]);
    CandidateGains(l, before, cs[k], now);
  }

  lemma {:induction false} StillNoRoom(l: Ledger, before: seq<Share>, after: seq<Share>, i: nat)
    requires Linked(l) && i < |l.allocations| && before <= after && AllWithin(after, l.activities) && OwnCredits(l, before, i) == []
    ensures OwnCredits(l, after, i) == []
  {
    var row := l.allocations[i];
    if row.amount != 0 && row.fund.Some? {
      var roster := l.activities[row.activityId].roster;
      forall k | 0 <= k < |roster.lines|
        ensures HeldOf(before, OfLine(row.activityId, roster.lines[k].id)) <= HeldOf(after, OfLine(row.activityId, roster.lines[k].id))
      {
        ExtendingHoldsMore(before, after, OfLine(row.activityId, roster.lines[k].id));
      }
      NoRoomStaysNoRoom(before, after, row.activityId, roster, row.fund.value, row.amount);
    }
  }

  // ----- The second pass

  lemma {:induction false} PassWritesNothing(l: Ledger, cs: seq<nat>, now: nat)
    requires Linked(l) && AllBelow(cs, |l.allocations|)
    requires forall k | 0 <= k < |cs| :: OwnCredits(l, l.shares, cs[k]) == []
    ensures BackfilledShares(l, cs, now) == l.shares && |BackfillOutcomes(l, cs, now)| == |cs|
    ensures forall k | 0 <= k < |cs| :: BackfillOutcomes(l, cs, now)[k].shareCount == 0
  {
    if cs != [] {
      var front := cs[..|cs| - 1];
      PassWritesNothing(l, front, now);
    }
  }

  lemma {:induction false} StillCandidate(l: Ledger, now: nat, i: nat)
    requires Sound(l) && IsCandidate(Backfilled(l, now), i)
    ensures OwnCredits(l, Backfilled(l, now).shares, i) == []
  {
    var cs, after := CandidatesOf(l, |l.allocations|), Backfilled(l, now);
    NoCreditsNoShares(after.shares, i);
    BackfillExtends(l, cs, 0, now);
    assert cs[..0] == [];
    ExtendingKeepsCredits(l.shares, after.shares, i);
    NoCreditsNoShares(l.shares, i);
    CandidateMembers(l, |l.allocations|, i);
    var k: nat :| k < |cs| && cs[k] == i;
    LeftOutFoundNoRoom(l, cs, k, now);
    BackfillExtends(l, cs, k, now);
    BackfilledIsSound(l, now);
    StillNoRoom(l, BackfilledShares(l, cs[..k], now), after.shares, i);
  }

  /** A second backfill, at any later time, writes no share: the ledger is unchanged and its report counts none. */
  lemma {:induction false} SecondBackfillWritesNothing(l: Ledger, now: nat, later: nat)
    requires Sound(l)
    ensures var once := Backfilled(l, now);
      Linked(once) && Backfilled(once, later) == once &&
      |ReportOf(once, later).outcomes| == ReportOf(once, later).candidates &&
      forall k | 0 <= k < |ReportOf(once, later).outcomes| :: ReportOf(once, later).outcomes[k].shareCount == 0
  {
    var once := Backfilled(l, now);
    var cs := CandidatesOf(once, |once.allocations|);
    forall k | 0 <= k < |cs| ensures OwnCredits(once, once.shares, cs[k]) == [] {
      CandidateMembers(once, |once.allocations|, cs[k]);
      StillCandidate(l, now, cs[k]);
    }
    PassWritesNothing(once, cs, later);
  }
}
