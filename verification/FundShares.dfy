/** Sums over the share table, and how attributing and reversing change them. */
module FundShares {
  import opened Options
  import opened Texts
  import opened AllocationFill
  import opened AllocationFillLaws
  import opened RosterFill
  import opened FundLedger

  /** Which held shares a sum is about. */
  datatype Pick =
    | OfLine(activity: Text, line: Text)
    | OfAllocation(allocation: nat)
    | OfLineBy(activity: Text, line: Text, allocation: nat)

  predicate Picked(s: Share, p: Pick)
  {
    s.status == Held &&
    match p
    case OfLine(activity, line) => s.activityId == activity && s.aidLineId == line
    case OfAllocation(allocation) => s.allocationId == allocation
    case OfLineBy(activity, line, allocation) => s.activityId == activity && s.aidLineId == line && s.allocationId == allocation
  }

  function HeldOf(shares: seq<Share>, p: Pick): nat
  {
    if shares == [] then 0
    else
      var last := shares[|shares| - 1];
      HeldOf(shares[..|shares| - 1], p) + (if Picked(last, p) then last.amount else 0)
  }

  /** What an allocation gives today, line by line in filling order. */
  function CreditsHeld(shares: seq<Share>, allocation: nat): seq<Credit>
  {
    if shares == [] then []
    else
      var last, front := shares[|shares| - 1], CreditsHeld(shares[..|shares| - 1], allocation);
      if Picked(last, OfAllocation(allocation)) then front + [Credit(last.aidLineId, last.amount)] else front
  }

  lemma {:induction false} HeldConcat(xs: seq<Share>, ys: seq<Share>, p: Pick)
    ensures HeldOf(xs + ys, p) == HeldOf(xs, p) + HeldOf(ys, p)
  {
    if ys == [] {
      assert xs + ys == xs;
    } else {
      var front, last := ys[..|ys| - 1], ys[|ys| - 1];
      assert xs + ys == (xs + front) + [last];
      HeldConcat(xs, front, p);
    }
  }

  lemma {:induction false} CreditsHeldConcat(xs: seq<Share>, ys: seq<Share>, allocation: nat)
    ensures CreditsHeld(xs + ys, allocation) == CreditsHeld(xs, allocation) + CreditsHeld(ys, allocation)
  {
    if ys == [] {
      assert xs + ys == xs;
    } else {
      var front, last := ys[..|ys| - 1], ys[|ys| - 1];
      assert xs + ys == (xs + front) + [last];
      CreditsHeldConcat(xs, front, allocation);
    }
  }

  lemma {:induction false} TakenIsHeld(shares: seq<Share>, activity: Text, line: Text)
    ensures TakenOn(TakenIn(shares, activity), line) == HeldOf(shares, OfLine(activity, line))
  {
    if shares != [] { TakenIsHeld(shares[..|shares| - 1], activity, line); }
  }

  // ----- Rows written by a fill

  lemma {:induction false} CreditsSnoc(fs: seq<FillShare>, f: FillShare)
    ensures CreditsOf(fs + [f]) == CreditsOf(fs) + [Credit(f.aidLineId, f.share)]
  {
    if fs == [] {
      assert fs + [f] == [f];
    } else {
      assert (fs + [f])[1..] == fs[1..] + [f];
      CreditsSnoc(fs[1..], f);
    }
  }

  lemma {:induction false} TotalSnoc(cs: seq<Credit>, c: Credit)
    ensures Total(cs + [c]) == Total(cs) + c.amount
    ensures forall line :: TotalFor(cs + [c], line) == TotalFor(cs, line) + (if c.aidLineId == line then c.amount else 0)
  {
    if cs == [] {
      assert cs + [c] == [c];
    } else {
      assert (cs + [c])[1..] == cs[1..] + [c];
      TotalSnoc(cs[1..], c);
    }
  }

  /** What the picked part of freshly written rows adds up to. */
  function PickedTotal(credits: seq<Credit>, owner: Owner, p: Pick): nat
  {
    match p
    case OfLine(activity, line) => if activity == owner.activityId then TotalFor(credits, line) else 0
    case OfAllocation(allocation) => if allocation == owner.allocationId then Total(credits) else 0
    case OfLineBy(activity, line, allocation) =>
      if activity == owner.activityId && allocation == owner.allocationId then TotalFor(credits, line) else 0
  }

  lemma {:induction false} RowsHeld(fs: seq<FillShare>, owner: Owner, now: nat, p: Pick)
    ensures HeldOf(ShareRows(fs, owner, now), p) == PickedTotal(CreditsOf(fs), owner, p)
  {
    if fs != [] {
      var front, f := fs[..|fs| - 1], fs[|fs| - 1];
      RowsHeld(front, owner, now, p);
      assert ShareRows(fs, owner, now) == ShareRows(front, owner, now) + [ShareRow(f, owner, now)];
      assert fs == front + [f];
      CreditsSnoc(front, f);
      TotalSnoc(CreditsOf(front), Credit(f.aidLineId, f.share));
    }
  }

  lemma {:induction false} RowsCredits(fs: seq<FillShare>, owner: Owner, now: nat, allocation: nat)
    ensures CreditsHeld(ShareRows(fs, owner, now), allocation) == if allocation == owner.allocationId then CreditsOf(fs) else []
  {
    if fs != [] {
      var front, f := fs[..|fs| - 1], fs[|fs| - 1];
      RowsCredits(front, owner, now, allocation);
      assert ShareRows(fs, owner, now) == ShareRows(front, owner, now) + [ShareRow(f, owner, now)];
      assert fs == front + [f];
      CreditsSnoc(front, f);
    }
  }

  /** The shares a fill writes, as a list of credits. */
  function NewCredits(shares: seq<Share>, roster: Roster, activity: Text, fund: FundType, amount: nat): seq<Credit>
  {
    SharesOf(roster, fund, TakenIn(shares, activity), amount)
  }

  lemma {:induction false} AttributedHeld(shares: seq<Share>, roster: Roster, owner: Owner, fund: FundType, amount: nat, now: nat, p: Pick)
    ensures HeldOf(Attributed(shares, roster, owner, fund, amount, now), p) ==
      HeldOf(shares, p) + PickedTotal(NewCredits(shares, roster, owner.activityId, fund, amount), owner, p)
  {
    var fs := FillFor(shares, roster, owner.activityId, fund, amount).shares;
    RowsHeld(fs, owner, now, p);
    HeldConcat(shares, ShareRows(fs, owner, now), p);
  }

  lemma {:induction false} AttributedCredits(shares: seq<Share>, roster: Roster, owner: Owner, fund: FundType, amount: nat, now: nat, allocation: nat)
    ensures CreditsHeld(Attributed(shares, roster, owner, fund, amount, now), allocation) ==
      if allocation == owner.allocationId then CreditsHeld(shares, allocation) + NewCredits(shares, roster, owner.activityId, fund, amount)
      else CreditsHeld(shares, allocation)
  {
    var fs := FillFor(shares, roster, owner.activityId, fund, amount).shares;
    RowsCredits(fs, owner, now, allocation);
    CreditsHeldConcat(shares, ShareRows(fs, owner, now), allocation);
  }

  // ----- Reversing

  /** The part of a pick that belongs to one allocation. */
  function ByAllocation(p: Pick, allocation: nat): Option<Pick>
  {
    match p
    case OfLine(activity, line) => Some(OfLineBy(activity, line, allocation))
    case OfAllocation(id) => if id == allocation then Some(p) else None
    case OfLineBy(activity, line, id) => if id == allocation then Some(p) else None
  }

  function HeldBy(shares: seq<Share>, p: Option<Pick>): nat
  {
    if p.Some? then HeldOf(shares, p.value) else 0
  }

  lemma {:induction false} ReversedHeld(shares: seq<Share>, allocation: nat, now: nat, p: Pick)
    ensures HeldOf(ReversedOf(shares, allocation, now), p) + HeldBy(shares, ByAllocation(p, allocation)) == HeldOf(shares, p)
  {
    if shares != [] {
      var front, s := shares[..|shares| - 1], shares[|shares| - 1];
      ReversedHeld(front, allocation, now, p);
      assert ReversedOf(shares, allocation, now) == ReversedOf(front, allocation, now) + [ReversedRow(s, allocation, now)];
    }
  }

  lemma {:induction false} ReversedCredits(shares: seq<Share>, allocation: nat, now: nat, other: nat)
    ensures CreditsHeld(ReversedOf(shares, allocation, now), other) == if other == allocation then [] else CreditsHeld(shares, other)
  {
    if shares != [] {
      var front, s := shares[..|shares| - 1], shares[|shares| - 1];
      ReversedCredits(front, allocation, now, other);
      assert ReversedOf(shares, allocation, now) == ReversedOf(front, allocation, now) + [ReversedRow(s, allocation, now)];
    }
  }

  // ----- Credits and sums

  lemma {:induction false} CreditsAddUp(shares: seq<Share>, allocation: nat)
    ensures Total(CreditsHeld(shares, allocation)) == HeldOf(shares, OfAllocation(allocation))
  {
    if shares != [] {
      var s := shares[|shares| - 1];
      CreditsAddUp(shares[..|shares| - 1], allocation);
      TotalSnoc(CreditsHeld(shares[..|shares| - 1], allocation), Credit(s.aidLineId, s.amount));
    }
  }

  lemma {:induction false} CreditsForLine(shares: seq<Share>, allocation: nat, activity: Text, line: Text)
    requires forall i | 0 <= i < |shares| && shares[i].allocationId == allocation :: shares[i].activityId == activity
    ensures TotalFor(CreditsHeld(shares, allocation), line) == HeldOf(shares, OfLineBy(activity, line, allocation))
  {
    if shares != [] {
      var s := shares[|shares| - 1];
      CreditsForLine(shares[..|shares| - 1], allocation, activity, line);
      TotalSnoc(CreditsHeld(shares[..|shares| - 1], allocation), Credit(s.aidLineId, s.amount));
    }
  }

  lemma {:induction false} NoCreditsNoShares(shares: seq<Share>, allocation: nat)
    ensures CreditsHeld(shares, allocation) == [] <==> !HasShares(shares, allocation)
  {
    if shares != [] {
      var front, s := shares[..|shares| - 1], shares[|shares| - 1];
      NoCreditsNoShares(front, allocation);
      assert shares == front + [s];
    }
  }
}
