/**
 Successive fills of one queue of lines. The queue is fixed; what changes between fills is how much
 of each line is taken.
 */
module QueueFill {
  import opened Sequences
  import opened Texts
  import opened Pouring
  import opened AllocationFill
  import opened AllocationFillLaws

  function RoomsLeft(queue: seq<EligibleLine>, taken: map<Text, nat>): (r: seq<nat>)
    ensures |r| == |queue|
    ensures forall i | 0 <= i < |queue| :: r[i] == Monus(queue[i].approved, TakenOn(taken, queue[i].aidLineId))
  {
    if queue == [] then []
    else [Monus(queue[0].approved, TakenOn(taken, queue[0].aidLineId))] + RoomsLeft(queue[1..], taken)
  }

  function QueueShares(queue: seq<EligibleLine>, taken: map<Text, nat>, amount: nat): seq<Credit>
  {
    Entries(queue, Pour(RoomsLeft(queue, taken), amount))
  }

  function QueueGives(queue: seq<EligibleLine>, taken: map<Text, nat>, amount: nat, line: Text): nat
  {
    TotalFor(QueueShares(queue, taken, amount), line)
  }

  function QueueLeaves(queue: seq<EligibleLine>, taken: map<Text, nat>, amount: nat): nat
  {
    Monus(amount, Sum(RoomsLeft(queue, taken)))
  }

  lemma {:induction false} GivesAt(queue: seq<EligibleLine>, taken: map<Text, nat>, amount: nat, i: nat)
    requires DistinctLines(queue) && i < |queue|
    ensures QueueGives(queue, taken, amount, queue[i].aidLineId) == Pour(RoomsLeft(queue, taken), amount)[i]
  {
    EntryFor(queue, Pour(RoomsLeft(queue, taken), amount), i);
  }

  lemma {:induction false} GivesElsewhere(queue: seq<EligibleLine>, taken: map<Text, nat>, amount: nat, line: Text)
    requires forall i | 0 <= i < |queue| :: queue[i].aidLineId != line
    ensures QueueGives(queue, taken, amount, line) == 0
  {
    EntriesElsewhere(queue, Pour(RoomsLeft(queue, taken), amount), line);
  }

  lemma {:induction false} SharesMakeUpAmount(queue: seq<EligibleLine>, taken: map<Text, nat>, amount: nat)
    ensures Total(QueueShares(queue, taken, amount)) + QueueLeaves(queue, taken, amount) == amount
  {
    var rooms := RoomsLeft(queue, taken);
    EntriesTotal(queue, Pour(rooms, amount));
    PourTotal(rooms, amount);
  }

  // ----- Two fills in a row

  predicate QueueTakenAfter(queue: seq<EligibleLine>, before: map<Text, nat>, amount: nat, after: map<Text, nat>)
  {
    forall i | 0 <= i < |queue| ::
      TakenOn(after, queue[i].aidLineId) == TakenOn(before, queue[i].aidLineId) + QueueGives(queue, before, amount, queue[i].aidLineId)
  }

  lemma {:induction false} RoomsAfter(queue: seq<EligibleLine>, before: map<Text, nat>, amount: nat, after: map<Text, nat>)
    requires DistinctLines(queue) && QueueTakenAfter(queue, before, amount, after)
    ensures RoomsLeft(queue, after) == LeftOver(RoomsLeft(queue, before), Pour(RoomsLeft(queue, before), amount))
  {
    var rooms := RoomsLeft(queue, before);
    forall i | 0 <= i < |queue| ensures RoomsLeft(queue, after)[i] == rooms[i] - Pour(rooms, amount)[i] {
      GivesAt(queue, before, amount, i);
    }
  }

  lemma {:induction false} QueueGivesCompose(queue: seq<EligibleLine>, before: map<Text, nat>, a: nat, b: nat, between: map<Text, nat>, line: Text)
    requires DistinctLines(queue) && QueueTakenAfter(queue, before, a, between)
    ensures QueueGives(queue, before, a, line) + QueueGives(queue, between, b, line) == QueueGives(queue, before, a + b, line)
  {
    RoomsAfter(queue, before, a, between);
    if i :| 0 <= i < |queue| && queue[i].aidLineId == line {
      GivesAt(queue, before, a, i);
      GivesAt(queue, between, b, i);
      GivesAt(queue, before, a + b, i);
      PourTwiceAt(RoomsLeft(queue, before), a, b, i);
    } else {
      GivesElsewhere(queue, before, a, line);
      GivesElsewhere(queue, between, b, line);
      GivesElsewhere(queue, before, a + b, line);
    }
  }

  lemma {:induction false} WholeRow(xs: seq<nat>)
    ensures xs[..|xs|] == xs
  {
  }

  lemma {:induction false} QueueLeavesCompose(queue: seq<EligibleLine>, before: map<Text, nat>, a: nat, b: nat, between: map<Text, nat>)
    requires DistinctLines(queue) && QueueTakenAfter(queue, before, a, between)
    ensures QueueLeaves(queue, before, a) + QueueLeaves(queue, between, b) == QueueLeaves(queue, before, a + b)
  {
    var rooms := RoomsLeft(queue, before);
    RoomsAfter(queue, before, a, between);
    PouredBefore(rooms, a, |rooms|);
    LeftBefore(rooms, Pour(rooms, a), |rooms|);
    WholeRow(rooms);
    WholeRow(Pour(rooms, a));
    WholeRow(LeftOver(rooms, Pour(rooms, a)));
  }

  // ----- Undoing a fill and filling less

  /** A list of shares cut off once an amount is used up. */
  function CutOff(credits: seq<Credit>, amount: nat): seq<Credit>
  {
    if credits == [] || amount == 0 then []
    else
      var kept := Min(credits[0].amount, amount);
      [Credit(credits[0].aidLineId, kept)] + CutOff(credits[1..], amount - kept)
  }

  lemma {:induction false} CutOffCons(c: Credit, credits: seq<Credit>, amount: nat)
    requires amount > 0
    ensures CutOff([c] + credits, amount) ==
      [Credit(c.aidLineId, Min(c.amount, amount))] + CutOff(credits, amount - Min(c.amount, amount))
  {
    assert ([c] + credits)[1..] == credits;
  }

  lemma {:induction false} EntriesCutOff(queue: seq<EligibleLine>, taken: seq<nat>, amount: nat)
    requires |queue| == |taken|
    ensures Entries(queue, Pour(taken, amount)) == CutOff(Entries(queue, taken), amount)
  {
    if amount == 0 {
      PourNothing(taken);
      EntriesOfNothing(queue, Pour(taken, 0));
    } else if queue != [] {
      EntriesCutOff(queue[1..], taken[1..], amount - Min(taken[0], amount));
      if taken[0] > 0 { CutOffCons(Credit(queue[0].aidLineId, taken[0]), Entries(queue[1..], taken[1..]), amount); }
    }
  }

  /** Others hold at least as much as before, and no more than still fits beside the fill's own shares. */
  predicate FitsBeside(queue: seq<EligibleLine>, before: map<Text, nat>, amount: nat, now: map<Text, nat>)
  {
    forall i | 0 <= i < |queue| ::
      TakenOn(before, queue[i].aidLineId) <= TakenOn(now, queue[i].aidLineId) &&
      TakenOn(now, queue[i].aidLineId) + QueueGives(queue, before, amount, queue[i].aidLineId) <= queue[i].approved
  }

  function TakenSince(queue: seq<EligibleLine>, before: map<Text, nat>, now: map<Text, nat>): (later: seq<nat>)
    ensures |later| == |queue|
    ensures forall i | 0 <= i < |queue| :: later[i] == Monus(TakenOn(now, queue[i].aidLineId), TakenOn(before, queue[i].aidLineId))
  {
    if queue == [] then []
    else [Monus(TakenOn(now, queue[0].aidLineId), TakenOn(before, queue[0].aidLineId))] + TakenSince(queue[1..], before, now)
  }

  lemma {:induction false} SinceFits(queue: seq<EligibleLine>, before: map<Text, nat>, amount: nat, now: map<Text, nat>)
    requires DistinctLines(queue) && FitsBeside(queue, before, amount, now)
    ensures forall i | 0 <= i < |queue| ::
      Pour(RoomsLeft(queue, before), amount)[i] + TakenSince(queue, before, now)[i] <= RoomsLeft(queue, before)[i]
    ensures forall i | 0 <= i < |queue| ::
      RoomsLeft(queue, now)[i] == RoomsLeft(queue, before)[i] - TakenSince(queue, before, now)[i]
  {
    forall i | 0 <= i < |queue|
      ensures Pour(RoomsLeft(queue, before), amount)[i] + TakenSince(queue, before, now)[i] <= RoomsLeft(queue, before)[i]
    {
      GivesAt(queue, before, amount, i);
    }
  }

  /** Reversing a fill and filling a smaller amount gives the earlier shares, cut off at that amount. */
  lemma {:induction false} QueueRefillIsCutOff(queue: seq<EligibleLine>, before: map<Text, nat>, amount: nat, now: map<Text, nat>, less: nat)
    requires DistinctLines(queue) && FitsBeside(queue, before, amount, now) && less <= amount
    ensures QueueShares(queue, now, less) == CutOff(QueueShares(queue, before, amount), less)
  {
    var rooms, later := RoomsLeft(queue, before), TakenSince(queue, before, now);
    SinceFits(queue, before, amount, now);
    RefillIsCutOff(rooms, amount, later, less);
    assert RoomsLeft(queue, now) == LeftOver(rooms, later);
    EntriesCutOff(queue, Pour(rooms, amount), less);
  }
}
