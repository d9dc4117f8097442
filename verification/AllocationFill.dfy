/**
 Attributing one allocation to an activity's aid lines: the eligible lines in order of asnaf
 priority and line id are filled one after the other, and what finds no room stays unassigned.
 */
module AllocationFill {
  import opened Options
  import opened Sequences
  import opened Strings
  import opened Texts
  import opened Pouring

  /** The kinds of fund a contribution may carry. */
  datatype FundType = Zakat | Fitrah | InfakSedekah | Kurban | Dskl

  const ASNAF_FILL_PRIORITY: seq<string> :=
    ["FAKIR", "MISKIN", "AMIL", "MUALAF", "RIQAB", "GHARIM", "FISABILILLAH", "IBNU_SABIL"]

  const AMIL_ASNAF := "AMIL"

  /** An aid line of a proposal; `valueIdr` is absent while a goods line has no valuation. */
  datatype RosterLine = RosterLine(id: Text, beneficiaryId: Text, valueIdr: Option<nat>)

  datatype FillTarget = FillTarget(aidLineId: Text, beneficiaryId: Text, asnaf: string, approved: Option<nat>, taken: nat)

  /** A target that may be filled, with its denominator known. */
  datatype EligibleLine = EligibleLine(aidLineId: Text, beneficiaryId: Text, asnaf: string, approved: nat, taken: nat)

  datatype FillShare = FillShare(
    aidLineId: Text, beneficiaryId: Text, asnaf: string, share: nat,
    approved: nat, allocatedAfter: nat, remainingAfter: nat, isFull: bool, fillSequence: nat)

  datatype ExclusionReason = Unvalued | AmilHeldSeparately | FundTypeIneligible

  datatype FillExclusion = FillExclusion(aidLineId: Text, beneficiaryId: Text, asnaf: string, reason: ExclusionReason)

  datatype FillResult = FillResult(shares: seq<FillShare>, unassigned: nat, exclusions: seq<FillExclusion>)

  // ----- Asnaf

  function NormalizeAsnaf(raw: string): string { UpperCase(Trim(raw)) }

  /** Position in the priority list; anything outside it comes last. */
  function PriorityFrom(asnaf: string, i: nat): (r: nat)
    requires i <= |ASNAF_FILL_PRIORITY|
    ensures i <= r <= |ASNAF_FILL_PRIORITY|
    decreases asnaf, |ASNAF_FILL_PRIORITY| - i
  {
    if i == |ASNAF_FILL_PRIORITY| || ASNAF_FILL_PRIORITY[i] == asnaf then i else PriorityFrom(asnaf, i + 1)
  }

  function AsnafRank(raw: string): nat { PriorityFrom(NormalizeAsnaf(raw), 0) }

  predicate IsFundTypeEligible(fund: FundType, asnaf: string)
  {
    (fund != Zakat && fund != Fitrah) || AsnafRank(asnaf) < |ASNAF_FILL_PRIORITY|
  }

  // ----- Which lines may be filled, and in which order

  /** Why a line is never filled, if it is not. */
  function ExclusionOf(t: FillTarget, fund: FundType): Option<ExclusionReason>
  {
    if NormalizeAsnaf(t.asnaf) == AMIL_ASNAF then Some(AmilHeldSeparately)
    else if !IsFundTypeEligible(fund, NormalizeAsnaf(t.asnaf)) then Some(FundTypeIneligible)
    else if t.approved.None? then Some(Unvalued)
    else None
  }

  function EligibleLineOf(t: FillTarget): EligibleLine
    requires t.approved.Some?
  {
    EligibleLine(t.aidLineId, t.beneficiaryId, t.asnaf, t.approved.value, t.taken)
  }

  function EligibleOf(ts: seq<FillTarget>, fund: FundType): seq<EligibleLine>
  {
    if ts == [] then []
    else
      var last, front := ts[|ts| - 1], EligibleOf(ts[..|ts| - 1], fund);
      if ExclusionOf(last, fund).None? then front + [EligibleLineOf(last)] else front
  }

  function ExclusionsOf(ts: seq<FillTarget>, fund: FundType): seq<FillExclusion>
  {
    if ts == [] then []
    else
      var last, front := ts[|ts| - 1], ExclusionsOf(ts[..|ts| - 1], fund);
      match ExclusionOf(last, fund)
      case Some(reason) => front + [FillExclusion(last.aidLineId, last.beneficiaryId, last.asnaf, reason)]
      case None => front
  }

  /** Filling order: asnaf priority first, then the line's id. */
  predicate Precedes(a: EligibleLine, b: EligibleLine)
  {
    AsnafRank(a.asnaf) < AsnafRank(b.asnaf) ||
    (AsnafRank(a.asnaf) == AsnafRank(b.asnaf) && Less(a.aidLineId, b.aidLineId))
  }

  function InsertLine(t: EligibleLine, ts: seq<EligibleLine>): seq<EligibleLine>
  {
    if ts == [] then [t]
    else if Precedes(ts[0], t) then [ts[0]] + InsertLine(t, ts[1..])
    else [t] + ts
  }

  /** The stable sort by filling order. */
  function SortLines(ts: seq<EligibleLine>): seq<EligibleLine>
  {
    if ts == [] then [] else InsertLine(ts[0], SortLines(ts[1..]))
  }

  function FillOrder(ts: seq<FillTarget>, fund: FundType): seq<EligibleLine>
  {
    SortLines(EligibleOf(ts, fund))
  }

  // ----- Filling the lines one after the other

  function RoomOf(t: EligibleLine): nat { Monus(t.approved, t.taken) }

  function ShareOf(t: EligibleLine, share: nat, sequence: nat): FillShare
    requires share <= RoomOf(t) && RoomOf(t) > 0
  {
    var after := t.taken + share;
    FillShare(t.aidLineId, t.beneficiaryId, t.asnaf, share, t.approved, after, t.approved - after, share == RoomOf(t), sequence)
  }

  function FillInOrder(order: seq<EligibleLine>, remaining: nat, filled: nat): seq<FillShare>
  {
    if order == [] || remaining == 0 then []
    else if RoomOf(order[0]) == 0 then FillInOrder(order[1..], remaining, filled)
    else
      var share := Min(remaining, RoomOf(order[0]));
      [ShareOf(order[0], share, filled + 1)] + FillInOrder(order[1..], remaining - share, filled + 1)
  }

  function UnassignedAfter(order: seq<EligibleLine>, remaining: nat): nat
  {
    if order == [] || remaining == 0 then remaining
    else UnassignedAfter(order[1..], remaining - Min(remaining, RoomOf(order[0])))
  }

  /** What filling an amount into an activity's lines yields. */
  function Fill(amount: nat, targets: seq<FillTarget>, fund: FundType): FillResult
  {
    var order := FillOrder(targets, fund);
    FillResult(FillInOrder(order, amount, 0), UnassignedAfter(order, amount), ExclusionsOf(targets, fund))
  }

  lemma {:induction false} Regroup<T>(xs: seq<T>, x: T, ys: seq<T>)
    ensures xs + ([x] + ys) == xs + [x] + ys
  {
  }

  lemma {:induction false} SortedOutOneMore(ts: seq<FillTarget>, i: nat, fund: FundType)
    requires i < |ts|
    ensures EligibleOf(ts[..i + 1], fund) ==
      if ExclusionOf(ts[i], fund).None? then EligibleOf(ts[..i], fund) + [EligibleLineOf(ts[i])] else EligibleOf(ts[..i], fund)
    ensures ExclusionsOf(ts[..i + 1], fund) ==
      match ExclusionOf(ts[i], fund)
      case Some(reason) => ExclusionsOf(ts[..i], fund) + [FillExclusion(ts[i].aidLineId, ts[i].beneficiaryId, ts[i].asnaf, reason)]
      case None => ExclusionsOf(ts[..i], fund)
  {
    assert ts[..i + 1][..i] == ts[..i];
  }

  lemma {:induction false} FilledOneMore(order: seq<EligibleLine>, j: nat, remaining: nat, filled: nat)
    requires j < |order| && remaining > 0
    ensures var share := Min(remaining, RoomOf(order[j]));
      UnassignedAfter(order[j..], remaining) == UnassignedAfter(order[j + 1..], remaining - share) &&
      FillInOrder(order[j..], remaining, filled) ==
        if RoomOf(order[j]) == 0 then FillInOrder(order[j + 1..], remaining, filled)
        else [ShareOf(order[j], share, filled + 1)] + FillInOrder(order[j + 1..], remaining - share, filled + 1)
  {
    assert order[j..][1..] == order[j + 1..];
  }

  function TakenOn(taken: map<Text, nat>, line: Text): nat { if line in taken then taken[line] else 0 }

  function FillTargetOf(line: RosterLine, asnafOf: map<Text, string>, taken: map<Text, nat>): FillTarget
  {
    FillTarget(line.id, line.beneficiaryId, if line.beneficiaryId in asnafOf then asnafOf[line.beneficiaryId] else "",
               line.valueIdr, TakenOn(taken, line.id))
  }

  /** An activity's aid lines as fill targets, with what earlier allocations have taken on each. */
  function FillTargetsFrom(lines: seq<RosterLine>, asnafOf: map<Text, string>, taken: map<Text, nat>): (ts: seq<FillTarget>)
    ensures |ts| == |lines| && forall i | 0 <= i < |lines| :: ts[i] == FillTargetOf(lines[i], asnafOf, taken)
  {
    seq(|lines|, i requires 0 <= i < |lines| => FillTargetOf(lines[i], asnafOf, taken))
  }

  /** First pass: which lines may be filled, and why the others may not. */
  method SortOut(targets: seq<FillTarget>, fund: FundType) returns (eligible: seq<EligibleLine>, exclusions: seq<FillExclusion>)
    ensures eligible == EligibleOf(targets, fund) && exclusions == ExclusionsOf(targets, fund)
  {
    exclusions, eligible := [], [];
    var i := 0;
    while i < |targets|
      invariant 0 <= i <= |targets|
      invariant exclusions == ExclusionsOf(targets[..i], fund)
      invariant eligible == EligibleOf(targets[..i], fund)
    {
      SortedOutOneMore(targets, i, fund);
      var target := targets[i];
      match ExclusionOf(target, fund) {
        case Some(reason) =>
          exclusions := exclusions + [FillExclusion(target.aidLineId, target.beneficiaryId, target.asnaf, reason)];
        case None =>
          eligible := eligible + [EligibleLineOf(target)];
      }
      i := i + 1;
    }
    assert targets[..i] == targets;
  }

  /** Second pass: walk along the ordered lines until the money is gone. */
  method FillLines(order: seq<EligibleLine>, amount: nat) returns (shares: seq<FillShare>, remaining: nat)
    ensures shares == FillInOrder(order, amount, 0) && remaining == UnassignedAfter(order, amount)
  {
    shares, remaining := [], amount;
    var j := 0;
    assert order[0..] == order;
    while j < |order|
      invariant 0 <= j <= |order|
      invariant shares + FillInOrder(order[j..], remaining, |shares|) == FillInOrder(order, amount, 0)
      invariant UnassignedAfter(order[j..], remaining) == UnassignedAfter(order, amount)
    {
      if remaining == 0 { break; }
      FilledOneMore(order, j, remaining, |shares|);
      var target := order[j];
      if target.taken < target.approved {
        var room := target.approved - target.taken;
        var share := if remaining < room then remaining else room;
        var entry := ShareOf(target, share, |shares| + 1);
        Regroup(shares, entry, FillInOrder(order[j + 1..], remaining - share, |shares| + 1));
        shares := shares + [entry];
        remaining := remaining - share;
      }
      j := j + 1;
    }
  }

  method FillAllocation(amount: nat, targets: seq<FillTarget>, fund: FundType) returns (r: FillResult)
    ensures r == Fill(amount, targets, fund)
  {
    var eligible, exclusions := SortOut(targets, fund);
    var order := SortLines(eligible);
    assert order == FillOrder(targets, fund);
    var shares, remaining := FillLines(order, amount);
    return FillResult(shares, remaining, exclusions);
  }
}
