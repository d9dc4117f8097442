/**
 What a share says, after every run: whose money it is, of which line, for whom, and that its owner may
 receive it. And what a backfill reports of each allocation without shares.
 */
module FundShareRules {
  import opened Options
  import opened Strings
  import opened Texts
  import opened AllocationFill
  import opened AllocationFillLaws
  import opened AllocationFillMeaning
  import opened RosterFill
  import opened FundLedger
  import opened FundRuns
  import FundShares

  // ----- One share

  /** The asnaf on record for a recipient, as it is compared. */
  function AsnafOn(roster: Roster, beneficiary: Text): string
  {
    if beneficiary in roster.asnafOf then UpperCase(Trim(roster.asnafOf[beneficiary])) else ""
  }

  /** A part of the line's approved value, for its recipient, who is no amil; zakat goes to the eight asnaf only. */
  predicate TellsLineOf(s: Share, roster: Roster, fund: Option<FundType>)
  {
    exists k | 0 <= k < |roster.lines| ::
      s.aidLineId == roster.lines[k].id && s.beneficiaryId == roster.lines[k].beneficiaryId &&
      roster.lines[k].valueIdr == Some(s.approved) && 0 < s.amount <= s.approved && AsnafOn(roster, s.beneficiaryId) != "AMIL" &&
      (fund.Some? && IsZakat(fund.value) ==> Turn(AsnafOn(roster, s.beneficiaryId)) < 8)
  }

  /** It is of its allocation's contribution and activity. */
  predicate TellsAllocation(s: Share, allocations: seq<Allocation>)
  {
    s.allocationId < |allocations| && s.contributionId == allocations[s.allocationId].contributionId && s.activityId == allocations[s.allocationId].activityId
  }

  predicate ShareTells(s: Share, allocations: seq<Allocation>, activities: map<Text, Activity>)
  {
    TellsAllocation(s, allocations) && s.activityId in activities && TellsLineOf(s, activities[s.activityId].roster, allocations[s.allocationId].fund)
  }

  predicate SharesTell(l: Ledger)
  {
    forall i | 0 <= i < |l.shares| :: ShareTells(l.shares[i], l.allocations, l.activities)
  }

  // ----- What a fill writes

  lemma {:induction false} TargetAsnaf(line: RosterLine, roster: Roster, taken: map<Text, nat>)
    ensures var t := FillTargetOf(line, roster.asnafOf, taken);
      Named(t) == AsnafOn(roster, line.beneficiaryId) && t.aidLineId == line.id && t.beneficiaryId == line.beneficiaryId && t.approved == line.valueIdr
  {
    if line.beneficiaryId !in roster.asnafOf { assert UpperCase(Trim("")) == ""; }
  }

  lemma {:induction false} FillTellsLine(shares: seq<Share>, roster: Roster, owner: Owner, fund: FundType, amount: nat, now: nat, k: nat)
    requires k < |FillFor(shares, roster, owner.activityId, fund, amount).shares|
    ensures TellsLineOf(ShareRow(FillFor(shares, roster, owner.activityId, fund, amount).shares[k], owner, now), roster, Some(fund))
  {
    var taken := TakenIn(shares, owner.activityId);
    var t := SharesTellTargets(amount, TargetsOf(roster, taken), fund, k);
    var i :| 0 <= i < |roster.lines| && TargetsOf(roster, taken)[i] == t;
    TargetAsnaf(roster.lines[i], roster, taken);
    var s := FillFor(shares, roster, owner.activityId, fund, amount).shares[k];
    assert Tells(s, t, fund, k);
    assert ShareRow(s, owner, now).aidLineId == roster.lines[i].id;
  }

  lemma {:induction false} WithSharesTells(l: Ledger, id: nat, fund: FundType, amount: nat, now: nat)
    requires SharesTell(l) && id < |l.allocations| && l.allocations[id].activityId in l.activities
    requires l.allocations[id].fund.Some? ==> l.allocations[id].fund.value == fund
    ensures SharesTell(WithShares(l, id, fund, amount, now))
  {
    var row, n := l.allocations[id], |l.shares|;
    var roster, end := l.activities[row.activityId].roster, WithShares(l, id, fund, amount, now);
    forall i | 0 <= i < |end.shares| ensures ShareTells(end.shares[i], end.allocations, end.activities) {
      if i < n {
        assert end.shares[i] == l.shares[i];
      } else {
        FillTellsLine(l.shares, roster, OwnerOf(row, id), fund, amount, now, i - n);
        assert end.shares[i] == ShareRow(FillFor(l.shares, roster, row.activityId, fund, amount).shares[i - n], OwnerOf(row, id), now);
      }
    }
  }

  // ----- Everything else leaves what shares say

  /** No allocation changes its contribution, activity or fund, and no activity its roster. */
  predicate KeepsTerms(before: Ledger, after: Ledger)
  {
    |before.allocations| <= |after.allocations| &&
    (forall i | 0 <= i < |before.allocations| ::
       after.allocations[i].contributionId == before.allocations[i].contributionId && after.allocations[i].activityId == before.allocations[i].activityId &&
       after.allocations[i].fund == before.allocations[i].fund) &&
    forall a | a in before.activities :: a in after.activities && after.activities[a].roster == before.activities[a].roster
  }

  /** Shares are the same but for their marks. */
  predicate OnlyMarked(before: seq<Share>, after: seq<Share>)
  {
    |before| == |after| &&
    forall i | 0 <= i < |before| :: after[i] == before[i].(status := after[i].status, updatedAt := after[i].updatedAt)
  }

  lemma {:induction false} MarkedStillTell(before: Ledger, after: Ledger)
    requires SharesTell(before) && KeepsTerms(before, after) && OnlyMarked(before.shares, after.shares)
    ensures SharesTell(after)
  {
    forall i | 0 <= i < |after.shares| ensures ShareTells(after.shares[i], after.allocations, after.activities) {
      var s, was := after.shares[i], before.shares[i];
      assert ShareTells(was, before.allocations, before.activities);
      MarkedTells(was, s, before.activities[was.activityId].roster, before.allocations[was.allocationId].fund);
    }
  }

  lemma {:induction false} MarkedTells(was: Share, s: Share, roster: Roster, fund: Option<FundType>)
    requires TellsLineOf(was, roster, fund) && s == was.(status := s.status, updatedAt := s.updatedAt)
    ensures TellsLineOf(s, roster, fund)
  {
  }

  lemma {:induction false} PlacedTells(l: Ledger, contribution: Text, activity: Text, amount: nat, terms: Terms, action: AllocationAction, now: nat)
    requires SharesTell(l) && contribution in l.contributions && activity in l.activities
    ensures SharesTell(Placed(l, contribution, activity, amount, terms, action, now))
  {
    var entered := Entered(l, contribution, activity, amount, terms, action, now);
    assert KeepsTerms(l, entered) && OnlyMarked(l.shares, entered.shares);
    MarkedStillTell(l, entered);
    WithSharesTells(entered, |l.allocations|, terms.fund, amount, now);
  }

  lemma {:induction false} WithdrawnTells(l: Ledger, source: nat, amount: nat, now: nat)
    requires SharesTell(l) && source < |l.allocations| && amount <= l.allocations[source].amount && l.allocations[source].contributionId in l.contributions
    ensures SharesTell(Withdrawn(l, source, amount, now))
  {
    var out := Withdrawn(l, source, amount, now);
    assert KeepsTerms(l, out) && OnlyMarked(l.shares, out.shares);
    MarkedStillTell(l, out);
  }

  lemma {:induction false} TakenOutTells(l: Ledger, source: nat, amount: nat, fallback: FundType, now: nat)
    requires SharesTell(l) && source < |l.allocations| && amount <= l.allocations[source].amount
    requires l.allocations[source].activityId in l.activities && l.allocations[source].contributionId in l.contributions
    ensures SharesTell(TakenOut(l, source, amount, fallback, now))
  {
    var out := Withdrawn(l, source, amount, now);
    WithdrawnTells(l, source, amount, now);
    WithSharesTells(out, source, FundOf(l.allocations[source], fallback), l.allocations[source].amount - amount, now);
  }

  lemma {:induction false} TouchedTells(l: Ledger, activity: Text, bump: nat, now: nat)
    requires SharesTell(l) && activity in l.activities
    ensures SharesTell(Touched(l, activity, bump, now))
  {
    var end := Touched(l, activity, bump, now);
    assert KeepsTerms(l, end) && OnlyMarked(l.shares, end.shares);
    MarkedStillTell(l, end);
  }

  lemma {:induction false} RecordedTells(l: Ledger, d: Decision, now: nat)
    requires SharesTell(l) && d.sourceActivityId in l.activities && d.targetActivityId in l.activities
    ensures SharesTell(Recorded(l, d, now))
  {
    var decided := l.(decisions := l.decisions + [d]);
    assert SharesTell(decided);
    TouchedTells(decided, d.sourceActivityId, 1, now);
    TouchedTells(Touched(decided, d.sourceActivityId, 1, now), d.targetActivityId, 1, now);
  }

  lemma {:induction false} MovedTells(l: Ledger, q: ReallocateRequest, terms: Terms, now: nat)
    requires Linked(l) && SharesTell(l) && q.sourceAllocationId < |l.allocations| && q.amount <= l.allocations[q.sourceAllocationId].amount
    requires l.allocations[q.sourceAllocationId].activityId == q.sourceActivityId && q.targetActivityId in l.activities
    ensures SharesTell(Moved(l, q, terms, now))
  {
    var row := l.allocations[q.sourceAllocationId];
    TakenOutTells(l, q.sourceAllocationId, q.amount, terms.fund, now);
    var out := TakenOut(l, q.sourceAllocationId, q.amount, terms.fund, now);
    PlacedTells(out, row.contributionId, q.targetActivityId, q.amount, terms, ReallocateIn, now);
    RecordedTells(Exchanged(l, q, terms, now), DecisionOf(l, q, terms, now), now);
  }

  lemma {:induction false} CandidateTells(l: Ledger, shares: seq<Share>, i: nat, now: nat)
    requires Linked(l) && i < |l.allocations| && SharesTell(l.(shares := shares))
    ensures SharesTell(l.(shares := SharesAfterCandidate(l, shares, i, now)))
  {
    var row, given := l.allocations[i], l.(shares := shares);
    if row.amount != 0 && row.fund.Some? { WithSharesTells(given, i, row.fund.value, row.amount, now); }
  }

  lemma {:induction false} BackfillTells(l: Ledger, cs: seq<nat>, now: nat)
    requires Linked(l) && AllBelow(cs, |l.allocations|) && SharesTell(l)
    ensures SharesTell(l.(shares := BackfilledShares(l, cs, now)))
  {
    if cs == [] {
      assert l.(shares := l.shares) == l;
    } else {
      BackfillTells(l, cs[..|cs| - 1], now);
      CandidateTells(l, BackfilledShares(l, cs[..|cs| - 1], now), cs[|cs| - 1], now);
    }
  }

  lemma {:induction false} AllocatedTells(l: Ledger, q: AllocateRequest, now: nat)
    requires SharesTell(l) && Allocated(l, q, now).Ok?
    ensures SharesTell(Allocated(l, q, now).value)
  {
    var terms := AllocateGuard(l, q).value;
    PlacedTells(l, q.contributionId, q.activityId, q.amount, terms, Allocate, now);
    TouchedTells(Placed(l, q.contributionId, q.activityId, q.amount, terms, Allocate, now), q.activityId, 0, now);
  }

  lemma {:induction false} NextTells(l: Ledger, t: FundTransaction)
    requires Linked(l) && SharesTell(l)
    ensures SharesTell(Next(l, t))
  {
    match t
    case Contribute(transaction) =>
      assert KeepsTerms(l, Next(l, t)) && OnlyMarked(l.shares, Next(l, t).shares);
      MarkedStillTell(l, Next(l, t));
    case AllocateTo(q, now) => if Allocated(l, q, now).Ok? { AllocatedTells(l, q, now); }
    case Move(q, availability, now) =>
      if MovedBetween(l, q, availability, now).Ok? { MovedTells(l, q, ReallocateGuard(l, q, availability).value, now); }
    case Backfill(now) => BackfillTells(l, CandidatesOf(l, |l.allocations|), now);
  }

  /** After every run each share is a positive part of the approved value of a line of its allocation's activity, for a recipient who may have it. */
  lemma {:induction false} RunSharesTell(l: Ledger, ts: seq<FundTransaction>)
    requires Linked(l) && SharesTell(l)
    ensures SharesTell(RunFrom(l, ts))
  {
    if ts != [] {
      RunSharesTell(l, ts[..|ts| - 1]);
      NextTells(RunFrom(l, ts[..|ts| - 1]), ts[|ts| - 1]);
    }
  }

  // ----- The backfill

  /** Looked at are exactly the active allocations of which no share is held. */
  lemma {:induction false} CandidatesTell(l: Ledger, i: nat)
    ensures i in CandidatesOf(l, |l.allocations|) <==>
      i < |l.allocations| && l.allocations[i].status == Active && forall k | 0 <= k < |l.shares| && l.shares[k].allocationId == i :: l.shares[k].status != Held
  {
    CandidateMembers(l, |l.allocations|, i);
  }

  lemma {:induction false} FilledIsCredited(fs: seq<FillShare>)
    ensures FilledTotal(fs) == Total(CreditsOf(fs))
  {
    if fs != [] {
      var front, f := fs[..|fs| - 1], fs[|fs| - 1];
      FilledIsCredited(front);
      assert fs == front + [f];
      FundShares.CreditsSnoc(front, f);
      FundShares.TotalSnoc(CreditsOf(front), Credit(f.aidLineId, f.share));
    }
  }

  lemma {:induction false} FilledTogether(fs: seq<FillShare>)
    requires forall k | 0 <= k < |fs| :: fs[k].share > 0
    ensures FilledTotal(fs) > 0 <==> |fs| > 0
  {
    if fs != [] { FilledTogether(fs[..|fs| - 1]); }
  }

  /** A report tells why nothing was attributed, and otherwise accounts for the whole amount. */
  predicate OutcomeTells(o: BackfillOutcome, row: Allocation)
  {
    o.activityId == row.activityId && o.attributed + o.unassigned == row.amount && (o.shareCount > 0 <==> o.attributed > 0) &&
    match o.state
    case Empty => row.amount == 0
    case UnknownFundType => row.amount > 0 && row.fund.None? && o.attributed == 0
    case Unattributable => row.amount > 0 && row.fund.Some? && o.attributed == 0
    case Attributing => row.amount > 0 && row.fund.Some? && o.attributed > 0
  }

  lemma {:induction false} OneOutcomeTells(l: Ledger, shares: seq<Share>, i: nat, now: nat)
    requires Linked(l) && i < |l.allocations|
    ensures var o, after := OutcomeOf(l, shares, i), SharesAfterCandidate(l, shares, i, now);
      o.allocationId == i && OutcomeTells(o, l.allocations[i]) && shares <= after && |after| == |shares| + o.shareCount &&
      FundShares.HeldOf(after, FundShares.OfAllocation(i)) == FundShares.HeldOf(shares, FundShares.OfAllocation(i)) + o.attributed
  {
    var row := l.allocations[i];
    if row.amount > 0 && row.fund.Some? {
      var roster := l.activities[row.activityId].roster;
      var targets := TargetsOf(roster, TakenIn(shares, row.activityId));
      var filled := Fill(row.amount, targets, row.fund.value);
      forall k | 0 <= k < |filled.shares| ensures filled.shares[k].share > 0 {
        var t := SharesTellTargets(row.amount, targets, row.fund.value, k);
      }
      FilledTogether(filled.shares);
      FilledIsCredited(filled.shares);
      FillIsExact(row.amount, targets, row.fund.value);
      FundShares.AttributedHeld(shares, roster, OwnerOf(row, i), row.fund.value, row.amount, now, FundShares.OfAllocation(i));
    }
  }

  lemma {:induction false} OneOutcomeEach(l: Ledger, cs: seq<nat>, now: nat)
    requires Linked(l) && AllBelow(cs, |l.allocations|)
    ensures |BackfillOutcomes(l, cs, now)| == |cs|
  {
    if cs != [] { OneOutcomeEach(l, cs[..|cs| - 1], now); }
  }

  /** The report has one outcome for each candidate, in the same order, each telling what was written for it. */
  lemma {:induction false} ReportTells(l: Ledger, cs: seq<nat>, now: nat, k: nat)
    requires Linked(l) && AllBelow(cs, |l.allocations|) && k < |cs|
    ensures |BackfillOutcomes(l, cs, now)| == |cs|
    ensures BackfillOutcomes(l, cs, now)[k].allocationId == cs[k] && OutcomeTells(BackfillOutcomes(l, cs, now)[k], l.allocations[cs[k]])
  {
    var n := |cs| - 1;
    OneOutcomeEach(l, cs, now);
    OneOutcomeEach(l, cs[..n], now);
    if k < n {
      ReportTells(l, cs[..n], now, k);
    } else {
      OneOutcomeTells(l, BackfilledShares(l, cs[..n], now), cs[n], now);
    }
  }
}
