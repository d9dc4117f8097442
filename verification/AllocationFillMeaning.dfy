/**
 What a fill does, said of the fields of its targets alone: who is never filled and why, who comes
 first, how much each may receive, and what a share says of its line.
 */
module AllocationFillMeaning {
  import opened Options
  import opened Strings
  import opened Texts
  import opened Sequences
  import opened AllocationFill
  import opened AllocationFillLaws

  // ----- Asnaf by name

  /** An asnaf as it is compared: without space around it, in upper case. */
  function Named(t: FillTarget): string { UpperCase(Trim(t.asnaf)) }

  /** The turn of each named asnaf, and the last turn for every other. */
  function Turn(name: string): nat
  {
    if name == "FAKIR" then 0
    else if name == "MISKIN" then 1
    else if name == "AMIL" then 2
    else if name == "MUALAF" then 3
    else if name == "RIQAB" then 4
    else if name == "GHARIM" then 5
    else if name == "FISABILILLAH" then 6
    else if name == "IBNU_SABIL" then 7
    else 8
  }

  predicate IsZakat(fund: FundType) { fund == Zakat || fund == Fitrah }

  /** Amil are paid elsewhere, zakat reaches the eight asnaf only, and a line needs a value. */
  predicate MayReceive(t: FillTarget, fund: FundType)
  {
    Named(t) != "AMIL" && (IsZakat(fund) ==> Turn(Named(t)) < 8) && t.approved.Some?
  }

  function RoomLeft(t: FillTarget): nat
    requires t.approved.Some?
  {
    if t.approved.value > t.taken then t.approved.value - t.taken else 0
  }

  predicate Earlier(a: FillTarget, b: FillTarget)
  {
    Turn(Named(a)) < Turn(Named(b)) || (Turn(Named(a)) == Turn(Named(b)) && Less(a.aidLineId, b.aidLineId))
  }

  // ----- The classifiers of the fill read these fields

  lemma {:induction false} UpperKeepsTight(s: string)
    requires Tight(s)
    ensures Tight(UpperCase(s)) && UpperCase(UpperCase(s)) == UpperCase(s)
  {
  }

  lemma {:induction false} NormalizeTwice(raw: string)
    ensures NormalizeAsnaf(NormalizeAsnaf(raw)) == NormalizeAsnaf(raw)
  {
    TrimIsTight(raw);
    UpperKeepsTight(Trim(raw));
    TrimIsTight(UpperCase(Trim(raw)));
  }

  lemma {:induction false} PriorityIsTurn(name: string)
    ensures PriorityFrom(name, 0) == Turn(name)
  {
    assert PriorityFrom(name, 8) == 8;
    assert PriorityFrom(name, 7) == if name == "IBNU_SABIL" then 7 else 8;
    assert PriorityFrom(name, 6) == if name == "FISABILILLAH" then 6 else PriorityFrom(name, 7);
    assert PriorityFrom(name, 5) == if name == "GHARIM" then 5 else PriorityFrom(name, 6);
    assert PriorityFrom(name, 4) == if name == "RIQAB" then 4 else PriorityFrom(name, 5);
    assert PriorityFrom(name, 3) == if name == "MUALAF" then 3 else PriorityFrom(name, 4);
    assert PriorityFrom(name, 2) == if name == "AMIL" then 2 else PriorityFrom(name, 3);
    assert PriorityFrom(name, 1) == if name == "MISKIN" then 1 else PriorityFrom(name, 2);
    assert PriorityFrom(name, 0) == if name == "FAKIR" then 0 else PriorityFrom(name, 1);
  }

  lemma {:induction false} RankIsTurn(raw: string)
    ensures AsnafRank(raw) == Turn(UpperCase(Trim(raw))) && AsnafRank(NormalizeAsnaf(raw)) == AsnafRank(raw)
  {
    NormalizeTwice(raw);
    PriorityIsTurn(NormalizeAsnaf(raw));
  }

  lemma {:induction false} ExcludedUnlessMayReceive(t: FillTarget, fund: FundType)
    ensures ExclusionOf(t, fund).None? <==> MayReceive(t, fund)
    ensures ExclusionOf(t, fund) == (
      if Named(t) == "AMIL" then Some(AmilHeldSeparately)
      else if IsZakat(fund) && Turn(Named(t)) == 8 then Some(FundTypeIneligible)
      else if t.approved.None? then Some(Unvalued)
      else None)
  {
    RankIsTurn(t.asnaf);
  }

  // ----- Who receives nothing

  /** Whoever may not receive gets nothing, whatever the amount and the other targets. */
  lemma {:induction false} NoneForTheOthers(amount: nat, targets: seq<FillTarget>, fund: FundType, line: Text)
    requires forall t | t in targets && t.aidLineId == line ::
      UpperCase(Trim(t.asnaf)) == "AMIL" || (IsZakat(fund) && Turn(UpperCase(Trim(t.asnaf))) == 8) || t.approved.None?
    ensures FilledFor(amount, targets, fund, line) == 0
  {
    forall t | t in targets && t.aidLineId == line ensures ExclusionOf(t, fund).Some? { ExcludedUnlessMayReceive(t, fund); }
    ExcludedGetNothing(amount, targets, fund, line);
  }

  /** An exclusion as it is noted: who, and the first reason that applies. */
  predicate Notes(e: FillExclusion, t: FillTarget, fund: FundType)
  {
    e.aidLineId == t.aidLineId && e.beneficiaryId == t.beneficiaryId && e.asnaf == t.asnaf && !MayReceive(t, fund) &&
    match e.reason
    case AmilHeldSeparately => Named(t) == "AMIL"
    case FundTypeIneligible => Named(t) != "AMIL" && IsZakat(fund) && Turn(Named(t)) == 8
    case Unvalued => Named(t) != "AMIL" && !(IsZakat(fund) && Turn(Named(t)) == 8) && t.approved.None?
  }

  /** The targets that may not receive, in their order. */
  function Unreached(ts: seq<FillTarget>, fund: FundType): seq<FillTarget> { Filter(ts, (t: FillTarget) => !MayReceive(t, fund)) }

  /** Exactly these are noted, in the same order, each with its reason. */
  lemma {:induction false} ExclusionsAreNoted(ts: seq<FillTarget>, fund: FundType)
    ensures |ExclusionsOf(ts, fund)| == |Unreached(ts, fund)|
    ensures forall k | 0 <= k < |ExclusionsOf(ts, fund)| :: Notes(ExclusionsOf(ts, fund)[k], Unreached(ts, fund)[k], fund)
  {
    if ts != [] {
      ExclusionsAreNoted(ts[..|ts| - 1], fund);
      ExcludedUnlessMayReceive(ts[|ts| - 1], fund);
    }
  }

  // ----- What a share says

  /** A share of its target: what it adds, where the line then stands, and its place in the sequence. */
  predicate Tells(s: FillShare, t: FillTarget, fund: FundType, place: nat)
  {
    s.aidLineId == t.aidLineId && s.beneficiaryId == t.beneficiaryId && s.asnaf == t.asnaf && t.approved == Some(s.approved) &&
    MayReceive(t, fund) && 0 < s.share && s.allocatedAfter == t.taken + s.share && s.allocatedAfter + s.remainingAfter == s.approved &&
    (s.isFull <==> s.remainingAfter == 0) && s.fillSequence == place + 1
  }

  predicate TellsLine(s: FillShare, line: EligibleLine, place: nat)
  {
    s.aidLineId == line.aidLineId && s.beneficiaryId == line.beneficiaryId && s.asnaf == line.asnaf && s.approved == line.approved &&
    0 < s.share && s.allocatedAfter == line.taken + s.share && s.allocatedAfter + s.remainingAfter == s.approved &&
    (s.isFull <==> s.remainingAfter == 0) && s.fillSequence == place + 1
  }

  lemma {:induction false} SharesTellLines(order: seq<EligibleLine>, remaining: nat, filled: nat, k: nat) returns (line: EligibleLine)
    requires k < |FillInOrder(order, remaining, filled)|
    ensures line in order && TellsLine(FillInOrder(order, remaining, filled)[k], line, filled + k)
    decreases |order|
  {
    var x, rest := order[0], order[1..];
    assert order == [x] + rest;
    if RoomOf(x) == 0 {
      line := SharesTellLines(rest, remaining, filled, k);
    } else if k == 0 {
      line := x;
    } else {
      line := SharesTellLines(rest, remaining - Min(remaining, RoomOf(x)), filled + 1, k - 1);
    }
  }

  /** Every share is a positive part of the room of a target that may receive, and says where that leaves the line. */
  lemma {:induction false} SharesTellTargets(amount: nat, targets: seq<FillTarget>, fund: FundType, k: nat) returns (t: FillTarget)
    requires k < |Fill(amount, targets, fund).shares|
    ensures t in targets && Tells(Fill(amount, targets, fund).shares[k], t, fund, k)
  {
    var line := SharesTellLines(FillOrder(targets, fund), amount, 0, k);
    SortKeepsLines(EligibleOf(targets, fund));
    assert line in multiset(EligibleOf(targets, fund));
    EligibleMembers(targets, fund, line);
    var i :| 0 <= i < |targets| && ExclusionOf(targets[i], fund).None? && EligibleLineOf(targets[i]) == line;
    t := targets[i];
    ExcludedUnlessMayReceive(t, fund);
  }

  // ----- Who receives how much

  /** While money stays unassigned, every target that may receive is full. */
  lemma {:induction false} UnassignedLeavesNoRoom(amount: nat, targets: seq<FillTarget>, fund: FundType, t: FillTarget)
    requires DistinctTargets(targets) && t in targets && MayReceive(t, fund)
    requires Fill(amount, targets, fund).unassigned > 0
    ensures FilledFor(amount, targets, fund, t.aidLineId) == RoomLeft(t)
  {
    ExcludedUnlessMayReceive(t, fund);
    UnassignedMeansFull(amount, targets, fund, t);
  }

  /** Of two targets that may receive, the later gets nothing until the earlier is full. */
  lemma {:induction false} EarlierIsFilledFirst(amount: nat, targets: seq<FillTarget>, fund: FundType, a: FillTarget, b: FillTarget)
    requires DistinctTargets(targets) && a in targets && b in targets && MayReceive(a, fund) && MayReceive(b, fund) && Earlier(a, b)
    requires FilledFor(amount, targets, fund, b.aidLineId) > 0
    ensures FilledFor(amount, targets, fund, a.aidLineId) == RoomLeft(a)
  {
    ExcludedUnlessMayReceive(a, fund);
    ExcludedUnlessMayReceive(b, fund);
    RankIsTurn(a.asnaf);
    RankIsTurn(b.asnaf);
    FillIsGreedy(amount, targets, fund, a, b);
  }
}
