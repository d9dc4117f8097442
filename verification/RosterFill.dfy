/**
 Successive fills of one activity. The roster of aid lines is fixed; what changes between fills is
 how much of each line is taken. Two fills in a row amount to one, no fill takes a line beyond its
 approved value, and refilling a smaller amount restores the earlier shares cut off at it.
 */
module RosterFill {
  import opened Options
  import opened Texts
  import opened Pouring
  import opened AllocationFill
  import opened AllocationFillLaws
  import opened QueueFill

  datatype Roster = Roster(lines: seq<RosterLine>, asnafOf: map<Text, string>)

  /** Aid line ids are unique, as the draft validator demands. */
  predicate DistinctRoster(roster: Roster)
  {
    forall i, j :: 0 <= i < j < |roster.lines| ==> roster.lines[i].id != roster.lines[j].id
  }

  function TargetsOf(roster: Roster, taken: map<Text, nat>): seq<FillTarget>
  {
    FillTargetsFrom(roster.lines, roster.asnafOf, taken)
  }

  function SharesOf(roster: Roster, fund: FundType, taken: map<Text, nat>, amount: nat): seq<Credit>
  {
    CreditsOf(Fill(amount, TargetsOf(roster, taken), fund).shares)
  }

  function UnassignedOf(roster: Roster, fund: FundType, taken: map<Text, nat>, amount: nat): nat
  {
    Fill(amount, TargetsOf(roster, taken), fund).unassigned
  }

  /** What a fill gives to one line. */
  function GivenTo(roster: Roster, fund: FundType, taken: map<Text, nat>, amount: nat, line: Text): nat
  {
    TotalFor(SharesOf(roster, fund, taken, amount), line)
  }

  // ----- The order of the lines does not depend on what is taken

  function Retaken(line: EligibleLine, taken: map<Text, nat>): EligibleLine
  {
    line.(taken := TakenOn(taken, line.aidLineId))
  }

  function RetakenAll(ts: seq<EligibleLine>, taken: map<Text, nat>): (r: seq<EligibleLine>)
    ensures |r| == |ts| && forall i | 0 <= i < |ts| :: r[i] == Retaken(ts[i], taken)
  {
    if ts == [] then [] else [Retaken(ts[0], taken)] + RetakenAll(ts[1..], taken)
  }

  lemma {:induction false} EligibleRetaken(ts: seq<FillTarget>, us: seq<FillTarget>, fund: FundType, taken: map<Text, nat>)
    requires |ts| == |us|
    requires forall i | 0 <= i < |ts| :: us[i] == ts[i].(taken := TakenOn(taken, ts[i].aidLineId))
    ensures EligibleOf(us, fund) == RetakenAll(EligibleOf(ts, fund), taken)
  {
    if ts != [] {
      var n := |ts| - 1;
      EligibleRetaken(ts[..n], us[..n], fund, taken);
      assert ExclusionOf(us[n], fund) == ExclusionOf(ts[n], fund);
    }
  }

  lemma {:induction false} InsertRetaken(t: EligibleLine, ts: seq<EligibleLine>, taken: map<Text, nat>)
    ensures InsertLine(Retaken(t, taken), RetakenAll(ts, taken)) == RetakenAll(InsertLine(t, ts), taken)
  {
    if ts != [] {
      var x, xs := ts[0], ts[1..];
      assert ts == [x] + xs;
      InsertRetaken(t, xs, taken);
    }
  }

  lemma {:induction false} SortRetaken(ts: seq<EligibleLine>, taken: map<Text, nat>)
    ensures SortLines(RetakenAll(ts, taken)) == RetakenAll(SortLines(ts), taken)
  {
    if ts != [] {
      SortRetaken(ts[1..], taken);
      InsertRetaken(ts[0], SortLines(ts[1..]), taken);
      assert RetakenAll(ts, taken)[1..] == RetakenAll(ts[1..], taken);
    }
  }

  /** The filling order of a roster, before anything is taken. */
  function Queue(roster: Roster, fund: FundType): seq<EligibleLine>
  {
    FillOrder(TargetsOf(roster, map[]), fund)
  }

  lemma {:induction false} QueueRetaken(roster: Roster, fund: FundType, taken: map<Text, nat>)
    ensures FillOrder(TargetsOf(roster, taken), fund) == RetakenAll(Queue(roster, fund), taken)
  {
    var ts, us := TargetsOf(roster, map[]), TargetsOf(roster, taken);
    EligibleRetaken(ts, us, fund, taken);
    SortRetaken(EligibleOf(ts, fund), taken);
  }

  lemma {:induction false} RetakenRooms(queue: seq<EligibleLine>, taken: map<Text, nat>)
    ensures Rooms(RetakenAll(queue, taken)) == RoomsLeft(queue, taken)
  {
  }

  lemma {:induction false} EntriesRetaken(queue: seq<EligibleLine>, taken: map<Text, nat>, amounts: seq<nat>)
    requires |queue| == |amounts|
    ensures Entries(RetakenAll(queue, taken), amounts) == Entries(queue, amounts)
  {
    if queue != [] {
      EntriesRetaken(queue[1..], taken, amounts[1..]);
      assert RetakenAll(queue, taken)[1..] == RetakenAll(queue[1..], taken);
    }
  }

  lemma {:induction false} RetakenPours(queue: seq<EligibleLine>, taken: map<Text, nat>, amount: nat)
    ensures CreditsOf(FillInOrder(RetakenAll(queue, taken), amount, 0)) == QueueShares(queue, taken, amount)
    ensures UnassignedAfter(RetakenAll(queue, taken), amount) == QueueLeaves(queue, taken, amount)
  {
    FillPours(RetakenAll(queue, taken), amount, 0);
    UnassignedIsRest(RetakenAll(queue, taken), amount);
    RetakenRooms(queue, taken);
    EntriesRetaken(queue, taken, Pour(RoomsLeft(queue, taken), amount));
  }

  /** Every fill of a roster pours into the same queue. */
  lemma {:induction false} FillsTheQueue(roster: Roster, fund: FundType, taken: map<Text, nat>, amount: nat)
    ensures SharesOf(roster, fund, taken, amount) == QueueShares(Queue(roster, fund), taken, amount)
    ensures UnassignedOf(roster, fund, taken, amount) == QueueLeaves(Queue(roster, fund), taken, amount)
  {
    QueueRetaken(roster, fund, taken);
    RetakenPours(Queue(roster, fund), taken, amount);
  }

  // ----- The queue and the roster name the same lines

  /** Each queued line stands on the roster with the same approved value. */
  predicate Queues(roster: Roster, queue: seq<EligibleLine>)
  {
    DistinctLines(queue) &&
    forall i | 0 <= i < |queue| :: OnRoster(roster, queue[i])
  }

  predicate OnRoster(roster: Roster, t: EligibleLine)
  {
    exists k | 0 <= k < |roster.lines| :: roster.lines[k].id == t.aidLineId && roster.lines[k].valueIdr == Some(t.approved)
  }

  lemma {:induction false} OfferedIsOnRoster(roster: Roster, fund: FundType, t: EligibleLine)
    requires Offers(TargetsOf(roster, map[]), fund, t)
    ensures OnRoster(roster, t)
  {
    var ts := TargetsOf(roster, map[]);
    var i :| 0 <= i < |ts| && ExclusionOf(ts[i], fund).None? && EligibleLineOf(ts[i]) == t;
    assert roster.lines[i].id == t.aidLineId;
  }

  lemma {:induction false} QueueMatches(roster: Roster, fund: FundType)
    requires DistinctRoster(roster)
    ensures Queues(roster, Queue(roster, fund))
  {
    FillOrderIsOrdered(TargetsOf(roster, map[]), fund);
    var queue := Queue(roster, fund);
    forall i | 0 <= i < |queue| ensures OnRoster(roster, queue[i]) { OfferedIsOnRoster(roster, fund, queue[i]); }
  }

  /** The queue every fill of this roster pours into; its shares and rest stand for the fill's. */
  lemma {:induction false} QueueOf(roster: Roster, fund: FundType) returns (queue: seq<EligibleLine>)
    requires DistinctRoster(roster)
    ensures Queues(roster, queue)
    ensures forall taken, amount :: SharesOf(roster, fund, taken, amount) == QueueShares(queue, taken, amount)
    ensures forall taken, amount :: UnassignedOf(roster, fund, taken, amount) == QueueLeaves(queue, taken, amount)
  {
    QueueMatches(roster, fund);
    queue := Queue(roster, fund);
    forall taken, amount
      ensures SharesOf(roster, fund, taken, amount) == QueueShares(queue, taken, amount)
      ensures UnassignedOf(roster, fund, taken, amount) == QueueLeaves(queue, taken, amount)
    {
      FillsTheQueue(roster, fund, taken, amount);
    }
  }

  // ----- Every fill stays within what was approved

  lemma {:induction false} QueueStaysWithin(roster: Roster, queue: seq<EligibleLine>, taken: map<Text, nat>, amount: nat, k: nat)
    requires DistinctRoster(roster) && Queues(roster, queue) && k < |roster.lines|
    ensures var line := roster.lines[k];
      match line.valueIdr
      case None => QueueGives(queue, taken, amount, line.id) == 0
      case Some(approved) => QueueGives(queue, taken, amount, line.id) <= Monus(approved, TakenOn(taken, line.id))
  {
    var line := roster.lines[k];
    if i :| 0 <= i < |queue| && queue[i].aidLineId == line.id {
      assert OnRoster(roster, queue[i]);
      GivesAt(queue, taken, amount, i);
    } else {
      GivesElsewhere(queue, taken, amount, line.id);
    }
  }

  /** A line never holds more than its approved value, and a line without a value never holds anything. */
  lemma {:induction false} FillStaysWithinApproved(roster: Roster, fund: FundType, taken: map<Text, nat>, amount: nat, k: nat)
    requires DistinctRoster(roster) && k < |roster.lines|
    ensures var line := roster.lines[k];
      match line.valueIdr
      case None => GivenTo(roster, fund, taken, amount, line.id) == 0
      case Some(approved) => GivenTo(roster, fund, taken, amount, line.id) <= Monus(approved, TakenOn(taken, line.id))
  {
    var queue := QueueOf(roster, fund);
    QueueStaysWithin(roster, queue, taken, amount, k);
  }

  /** The shares of a fill and its unassigned rest make up the amount. */
  lemma {:induction false} SharesTotal(roster: Roster, fund: FundType, taken: map<Text, nat>, amount: nat)
    requires DistinctRoster(roster)
    ensures Total(SharesOf(roster, fund, taken, amount)) + UnassignedOf(roster, fund, taken, amount) == amount
  {
    var queue := QueueOf(roster, fund);
    SharesMakeUpAmount(queue, taken, amount);
  }

  // ----- Two fills in a row

  /** What is taken after a fill, line by line. */
  predicate TakenAfter(roster: Roster, fund: FundType, before: map<Text, nat>, amount: nat, after: map<Text, nat>)
  {
    forall k | 0 <= k < |roster.lines| ::
      TakenOn(after, roster.lines[k].id) ==
      TakenOn(before, roster.lines[k].id) + GivenTo(roster, fund, before, amount, roster.lines[k].id)
  }

  /** Filling `a` and then `b` gives every line what filling `a + b` at once gives it, and leaves as much unassigned. */
  lemma {:induction false} FillsCompose(roster: Roster, fund: FundType, before: map<Text, nat>, a: nat, b: nat, between: map<Text, nat>, line: Text)
    requires DistinctRoster(roster) && TakenAfter(roster, fund, before, a, between)
    ensures GivenTo(roster, fund, before, a, line) + GivenTo(roster, fund, between, b, line) == GivenTo(roster, fund, before, a + b, line)
    ensures UnassignedOf(roster, fund, before, a) + UnassignedOf(roster, fund, between, b) == UnassignedOf(roster, fund, before, a + b)
  {
    var queue := QueueOf(roster, fund);
    QueueGivesCompose(queue, before, a, b, between, line);
    QueueLeavesCompose(queue, before, a, b, between);
  }

  // ----- Undoing a fill and filling less

  /**
   An allocation of `amount` was attributed when `before` was taken; `now` is what others hold on
   each line today, at least as much as then and never more than still fits beside the allocation's
   own shares. Reversing it and filling a smaller amount then gives its earlier shares, cut off.
   */
  lemma {:induction false} RefillGivesCutOff(roster: Roster, fund: FundType, before: map<Text, nat>, amount: nat, now: map<Text, nat>, less: nat)
    requires DistinctRoster(roster) && less <= amount
    requires forall k | 0 <= k < |roster.lines| :: TakenOn(before, roster.lines[k].id) <= TakenOn(now, roster.lines[k].id)
    requires forall k | 0 <= k < |roster.lines| && roster.lines[k].valueIdr.Some? ::
      TakenOn(now, roster.lines[k].id) + GivenTo(roster, fund, before, amount, roster.lines[k].id) <= roster.lines[k].valueIdr.value
    ensures SharesOf(roster, fund, now, less) == CutOff(SharesOf(roster, fund, before, amount), less)
  {
    var queue := QueueOf(roster, fund);
    QueueRefillIsCutOff(queue, before, amount, now, less);
  }
}
