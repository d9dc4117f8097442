/** What the fill guarantees, for every amount and every list of lines with distinct ids. */
module AllocationFillLaws {
  import opened Sequences
  import opened Texts
  import opened Pouring
  import opened AllocationFill

  predicate DistinctTargets(ts: seq<FillTarget>)
  {
    forall i, j :: 0 <= i < j < |ts| ==> ts[i].aidLineId != ts[j].aidLineId
  }

  predicate DistinctLines(ts: seq<EligibleLine>)
  {
    forall i, j :: 0 <= i < j < |ts| ==> ts[i].aidLineId != ts[j].aidLineId
  }

  function Rooms(order: seq<EligibleLine>): (r: seq<nat>)
    ensures |r| == |order| && forall i | 0 <= i < |r| :: r[i] == RoomOf(order[i])
  {
    if order == [] then [] else [RoomOf(order[0])] + Rooms(order[1..])
  }

  /** An amount given to a line. */
  datatype Credit = Credit(aidLineId: Text, amount: nat)

  function CreditsOf(shares: seq<FillShare>): seq<Credit>
  {
    if shares == [] then [] else [Credit(shares[0].aidLineId, shares[0].share)] + CreditsOf(shares[1..])
  }

  function TotalFor(credits: seq<Credit>, line: Text): nat
  {
    if credits == [] then 0
    else (if credits[0].aidLineId == line then credits[0].amount else 0) + TotalFor(credits[1..], line)
  }

  function Total(credits: seq<Credit>): nat
  {
    if credits == [] then 0 else credits[0].amount + Total(credits[1..])
  }

  /** The positive amounts, each with its line, in filling order. */
  function Entries(order: seq<EligibleLine>, taken: seq<nat>): seq<Credit>
    requires |order| == |taken|
  {
    if order == [] then []
    else if taken[0] > 0 then [Credit(order[0].aidLineId, taken[0])] + Entries(order[1..], taken[1..])
    else Entries(order[1..], taken[1..])
  }

  /** What one fill gives to a line. */
  function FilledFor(amount: nat, targets: seq<FillTarget>, fund: FundType, line: Text): nat
  {
    TotalFor(CreditsOf(Fill(amount, targets, fund).shares), line)
  }

  // ----- The fill pours the amount into the ordered rooms

  lemma {:induction false} EntriesOfNothing(order: seq<EligibleLine>, taken: seq<nat>)
    requires |order| == |taken| && forall i | 0 <= i < |taken| :: taken[i] == 0
    ensures Entries(order, taken) == []
  {
    if order != [] { EntriesOfNothing(order[1..], taken[1..]); }
  }

  lemma {:induction false} CreditsCons(s: FillShare, shares: seq<FillShare>)
    ensures CreditsOf([s] + shares) == [Credit(s.aidLineId, s.share)] + CreditsOf(shares)
  {
    assert ([s] + shares)[1..] == shares;
  }

  lemma {:induction false} UnassignedIsRest(order: seq<EligibleLine>, amount: nat)
    ensures UnassignedAfter(order, amount) == Monus(amount, Sum(Rooms(order)))
    decreases |order|
  {
    if order != [] {
      assert Rooms(order)[1..] == Rooms(order[1..]);
      UnassignedIsRest(order[1..], amount - Min(amount, RoomOf(order[0])));
    }
  }

  lemma {:induction false} EntriesCons(order: seq<EligibleLine>, amount: nat)
    requires order != []
    ensures var share := Min(RoomOf(order[0]), amount);
      var rest := Entries(order[1..], Pour(Rooms(order[1..]), amount - share));
      Entries(order, Pour(Rooms(order), amount)) == if share > 0 then [Credit(order[0].aidLineId, share)] + rest else rest
  {
    assert Rooms(order)[1..] == Rooms(order[1..]);
  }

  lemma {:induction false} CreditsStep(order: seq<EligibleLine>, amount: nat, filled: nat)
    requires order != [] && amount > 0
    ensures var share := Min(RoomOf(order[0]), amount);
      CreditsOf(FillInOrder(order, amount, filled)) ==
        if share > 0 then [Credit(order[0].aidLineId, share)] + CreditsOf(FillInOrder(order[1..], amount - share, filled + 1))
        else CreditsOf(FillInOrder(order[1..], amount, filled))
  {
    var share := Min(RoomOf(order[0]), amount);
    if share > 0 {
      CreditsCons(ShareOf(order[0], share, filled + 1), FillInOrder(order[1..], amount - share, filled + 1));
    }
  }

  lemma {:induction false} FillPours(order: seq<EligibleLine>, amount: nat, filled: nat)
    ensures CreditsOf(FillInOrder(order, amount, filled)) == Entries(order, Pour(Rooms(order), amount))
    decreases |order|
  {
    if amount == 0 {
      PourNothing(Rooms(order));
      EntriesOfNothing(order, Pour(Rooms(order), 0));
    } else if order != [] {
      EntriesCons(order, amount);
      if RoomOf(order[0]) == 0 {
        FillPours(order[1..], amount, filled);
      } else {
        CreditsStep(order, amount, filled);
        FillPours(order[1..], amount - Min(RoomOf(order[0]), amount), filled + 1);
      }
    }
  }

  lemma {:induction false} EntriesElsewhere(order: seq<EligibleLine>, taken: seq<nat>, line: Text)
    requires |order| == |taken| && forall t | t in order :: t.aidLineId != line
    ensures TotalFor(Entries(order, taken), line) == 0
  {
    if order != [] {
      assert order[0] in order;
      var rest := Entries(order[1..], taken[1..]);
      EntriesElsewhere(order[1..], taken[1..], line);
      assert ([Credit(order[0].aidLineId, taken[0])] + rest)[1..] == rest;
    }
  }

  lemma {:induction false} EntryFor(order: seq<EligibleLine>, taken: seq<nat>, i: nat)
    requires |order| == |taken| && DistinctLines(order) && i < |order|
    ensures TotalFor(Entries(order, taken), order[i].aidLineId) == taken[i]
  {
    var rest := Entries(order[1..], taken[1..]);
    assert ([Credit(order[0].aidLineId, taken[0])] + rest)[1..] == rest;
    if i == 0 {
      EntriesElsewhere(order[1..], taken[1..], order[0].aidLineId);
    } else {
      EntryFor(order[1..], taken[1..], i - 1);
    }
  }

  lemma {:induction false} EntriesTotal(order: seq<EligibleLine>, taken: seq<nat>)
    requires |order| == |taken|
    ensures Total(Entries(order, taken)) == Sum(taken)
  {
    if order != [] {
      var rest := Entries(order[1..], taken[1..]);
      EntriesTotal(order[1..], taken[1..]);
      assert ([Credit(order[0].aidLineId, taken[0])] + rest)[1..] == rest;
    }
  }

  // ----- Filling order

  predicate Ordered(ts: seq<EligibleLine>)
  {
    forall i, j :: 0 <= i < j < |ts| ==> Precedes(ts[i], ts[j])
  }

  lemma {:induction false} PrecedesIsTransitive(a: EligibleLine, b: EligibleLine, c: EligibleLine)
    requires Precedes(a, b) && Precedes(b, c)
    ensures Precedes(a, c)
  {
    if AsnafRank(a.asnaf) == AsnafRank(b.asnaf) == AsnafRank(c.asnaf) {
      LessIsTransitive(a.aidLineId, b.aidLineId, c.aidLineId);
    }
  }

  lemma {:induction false} PrecedesIsAsymmetric(a: EligibleLine, b: EligibleLine)
    ensures Precedes(a, b) ==> !Precedes(b, a)
  {
    if Precedes(a, b) && Precedes(b, a) { PrecedesIsTransitive(a, b, a); }
    LessIsIrreflexive(a.aidLineId);
  }

  lemma {:induction false} PrecedesIsStrict(a: EligibleLine, b: EligibleLine)
    ensures !Precedes(a, a)
    ensures a.aidLineId != b.aidLineId ==> Precedes(a, b) || Precedes(b, a)
  {
    LessIsIrreflexive(a.aidLineId);
    LessIsTotal(a.aidLineId, b.aidLineId);
  }

  lemma {:induction false} InsertAdds(t: EligibleLine, ts: seq<EligibleLine>)
    ensures multiset(InsertLine(t, ts)) == multiset([t]) + multiset(ts)
  {
    if ts != [] {
      assert ts == [ts[0]] + ts[1..];
      if Precedes(ts[0], t) { InsertAdds(t, ts[1..]); }
    }
  }

  lemma {:induction false} SortKeepsLines(ts: seq<EligibleLine>)
    ensures multiset(SortLines(ts)) == multiset(ts)
  {
    if ts != [] {
      assert ts == [ts[0]] + ts[1..];
      SortKeepsLines(ts[1..]);
      InsertAdds(ts[0], SortLines(ts[1..]));
    }
  }

  lemma {:induction false} InsertKeepsOrder(t: EligibleLine, ts: seq<EligibleLine>)
    requires Ordered(ts) && forall o | o in ts :: o.aidLineId != t.aidLineId
    ensures Ordered(InsertLine(t, ts))
  {
    if ts != [] {
      if Precedes(ts[0], t) {
        InsertKeepsOrder(t, ts[1..]);
        var tail := InsertLine(t, ts[1..]);
        InsertAdds(t, ts[1..]);
        forall o | o in tail ensures Precedes(ts[0], o) { assert o in multiset(tail); }
      } else {
        PrecedesIsStrict(t, ts[0]);
        forall o | o in ts ensures Precedes(t, o) {
          if o != ts[0] { PrecedesIsTransitive(t, ts[0], o); }
        }
      }
    }
  }

  lemma {:induction false} SortOrders(ts: seq<EligibleLine>)
    requires DistinctLines(ts)
    ensures Ordered(SortLines(ts))
  {
    if ts != [] {
      SortOrders(ts[1..]);
      var sorted := SortLines(ts[1..]);
      SortKeepsLines(ts[1..]);
      forall o | o in sorted ensures o.aidLineId != ts[0].aidLineId { assert o in multiset(ts[1..]); }
      InsertKeepsOrder(ts[0], sorted);
    }
  }

  /** Some listed target may be filled and is this line. */
  predicate Offers(ts: seq<FillTarget>, fund: FundType, line: EligibleLine)
  {
    exists i | 0 <= i < |ts| :: ExclusionOf(ts[i], fund).None? && EligibleLineOf(ts[i]) == line
  }

  lemma {:induction false} OffersSnoc(ts: seq<FillTarget>, t: FillTarget, fund: FundType, line: EligibleLine)
    ensures Offers(ts + [t], fund, line) <==>
      Offers(ts, fund, line) || (ExclusionOf(t, fund).None? && EligibleLineOf(t) == line)
  {
    var all := ts + [t];
    if Offers(ts, fund, line) {
      var i :| 0 <= i < |ts| && ExclusionOf(ts[i], fund).None? && EligibleLineOf(ts[i]) == line;
      assert all[i] == ts[i];
    }
    assert all[|ts|] == t;
  }

  lemma {:induction false} EligibleMembers(ts: seq<FillTarget>, fund: FundType, line: EligibleLine)
    ensures line in EligibleOf(ts, fund) <==> Offers(ts, fund, line)
  {
    if ts != [] {
      var front, last := ts[..|ts| - 1], ts[|ts| - 1];
      EligibleMembers(front, fund, line);
      assert ts == front + [last];
      OffersSnoc(front, last, fund, line);
    }
  }

  lemma {:induction false} EligibleIsDistinct(ts: seq<FillTarget>, fund: FundType)
    requires DistinctTargets(ts)
    ensures DistinctLines(EligibleOf(ts, fund))
  {
    if ts != [] {
      var front := ts[..|ts| - 1];
      EligibleIsDistinct(front, fund);
      forall line | line in EligibleOf(front, fund) ensures line.aidLineId != ts[|ts| - 1].aidLineId {
        EligibleMembers(front, fund, line);
      }
    }
  }

  /** The filling order lists each eligible line once, by asnaf priority and then by id. */
  lemma {:induction false} FillOrderIsOrdered(ts: seq<FillTarget>, fund: FundType)
    requires DistinctTargets(ts)
    ensures Ordered(FillOrder(ts, fund)) && DistinctLines(FillOrder(ts, fund))
    ensures forall line :: line in FillOrder(ts, fund) <==> Offers(ts, fund, line)
  {
    var eligible := EligibleOf(ts, fund);
    EligibleIsDistinct(ts, fund);
    SortOrders(eligible);
    SortKeepsDistinct(eligible);
    SortKeepsLines(eligible);
    forall line ensures line in FillOrder(ts, fund) <==> Offers(ts, fund, line) {
      EligibleMembers(ts, fund, line);
      assert line in SortLines(eligible) <==> line in multiset(SortLines(eligible));
    }
  }

  lemma {:induction false} InsertKeepsDistinct(t: EligibleLine, ts: seq<EligibleLine>)
    requires DistinctLines([t] + ts)
    ensures DistinctLines(InsertLine(t, ts))
  {
    assert DistinctLines(ts) by {
      forall i, j | 0 <= i < j < |ts| ensures ts[i].aidLineId != ts[j].aidLineId {
        assert ([t] + ts)[i + 1] == ts[i] && ([t] + ts)[j + 1] == ts[j];
      }
    }
    forall o | o in ts ensures o.aidLineId != t.aidLineId {
      var i :| 0 <= i < |ts| && ts[i] == o;
      assert ([t] + ts)[0] == t && ([t] + ts)[i + 1] == o;
    }
    if ts != [] && Precedes(ts[0], t) {
      InsertKeepsDistinct(t, ts[1..]);
      var tail := InsertLine(t, ts[1..]);
      InsertAdds(t, ts[1..]);
      forall o | o in tail ensures o.aidLineId != ts[0].aidLineId { assert o in multiset(tail); }
    }
  }

  lemma {:induction false} SortKeepsDistinct(ts: seq<EligibleLine>)
    requires DistinctLines(ts)
    ensures DistinctLines(SortLines(ts))
  {
    if ts != [] {
      var sorted := SortLines(ts[1..]);
      SortKeepsLines(ts[1..]);
      SortKeepsDistinct(ts[1..]);
      forall o | o in sorted ensures o.aidLineId != ts[0].aidLineId { assert o in multiset(ts[1..]); }
      InsertKeepsDistinct(ts[0], sorted);
    }
  }

  lemma {:induction false} LinesOfOneId(ts: seq<EligibleLine>, line: EligibleLine)
    requires DistinctLines(ts)
    ensures multiset(ts)[line] == if line in ts then 1 else 0
  {
    if line in ts {
      var i :| 0 <= i < |ts| && ts[i] == line;
      assert ts == ts[..i] + [ts[i]] + ts[i + 1..];
      assert line !in ts[..i] && line !in ts[i + 1..];
    }
  }

  lemma {:induction false} OffersIgnoresOrder(ts: seq<FillTarget>, us: seq<FillTarget>, fund: FundType, line: EligibleLine)
    requires multiset(ts) == multiset(us) && Offers(ts, fund, line)
    ensures Offers(us, fund, line)
  {
    var i :| 0 <= i < |ts| && ExclusionOf(ts[i], fund).None? && EligibleLineOf(ts[i]) == line;
    assert ts[i] in multiset(us);
    var j :| 0 <= j < |us| && us[j] == ts[i];
  }

  lemma {:induction false} EligibleIgnoresOrder(ts: seq<FillTarget>, us: seq<FillTarget>, fund: FundType)
    requires DistinctTargets(ts) && DistinctTargets(us) && multiset(ts) == multiset(us)
    ensures multiset(EligibleOf(ts, fund)) == multiset(EligibleOf(us, fund))
  {
    EligibleIsDistinct(ts, fund);
    EligibleIsDistinct(us, fund);
    forall line ensures multiset(EligibleOf(ts, fund))[line] == multiset(EligibleOf(us, fund))[line] {
      EligibleMembers(ts, fund, line);
      EligibleMembers(us, fund, line);
      if Offers(ts, fund, line) { OffersIgnoresOrder(ts, us, fund, line); }
      if Offers(us, fund, line) { OffersIgnoresOrder(us, ts, fund, line); }
      LinesOfOneId(EligibleOf(ts, fund), line);
      LinesOfOneId(EligibleOf(us, fund), line);
    }
  }

  // ----- Main results about one fill

  /** Line by line, the fill gives what pouring the amount into the ordered rooms gives. */
  lemma {:induction false} FilledAt(amount: nat, targets: seq<FillTarget>, fund: FundType, i: nat)
    requires DistinctTargets(targets) && i < |FillOrder(targets, fund)|
    ensures FilledFor(amount, targets, fund, FillOrder(targets, fund)[i].aidLineId) == Pour(Rooms(FillOrder(targets, fund)), amount)[i]
  {
    var order := FillOrder(targets, fund);
    FillOrderIsOrdered(targets, fund);
    FillPours(order, amount, 0);
    EntryFor(order, Pour(Rooms(order), amount), i);
  }

  lemma {:induction false} FilledElsewhere(amount: nat, targets: seq<FillTarget>, fund: FundType, line: Text)
    requires forall t | t in FillOrder(targets, fund) :: t.aidLineId != line
    ensures FilledFor(amount, targets, fund, line) == 0
  {
    var order := FillOrder(targets, fund);
    FillPours(order, amount, 0);
    EntriesElsewhere(order, Pour(Rooms(order), amount), line);
  }

  lemma {:induction false} ListedIsOffered(ts: seq<FillTarget>, fund: FundType, t: FillTarget)
    requires t in ts && ExclusionOf(t, fund).None?
    ensures Offers(ts, fund, EligibleLineOf(t))
  {
    var i :| 0 <= i < |ts| && ts[i] == t;
  }

  lemma {:induction false} PlaceOf(ts: seq<FillTarget>, fund: FundType, t: FillTarget) returns (i: nat)
    requires DistinctTargets(ts) && t in ts && ExclusionOf(t, fund).None?
    ensures i < |FillOrder(ts, fund)| && FillOrder(ts, fund)[i] == EligibleLineOf(t)
  {
    FillOrderIsOrdered(ts, fund);
    ListedIsOffered(ts, fund, t);
    i :| 0 <= i < |FillOrder(ts, fund)| && FillOrder(ts, fund)[i] == EligibleLineOf(t);
  }

  /** Shares and the unassigned rest add up to the amount. */
  lemma {:induction false} FillIsExact(amount: nat, targets: seq<FillTarget>, fund: FundType)
    ensures var r := Fill(amount, targets, fund);
      Total(CreditsOf(r.shares)) + r.unassigned == amount
  {
    var order := FillOrder(targets, fund);
    FillPours(order, amount, 0);
    UnassignedIsRest(order, amount);
    EntriesTotal(order, Pour(Rooms(order), amount));
    PourTotal(Rooms(order), amount);
  }

  lemma {:induction false} PourFillsAll(rooms: seq<nat>, amount: nat, i: nat)
    requires i < |rooms| && amount >= Sum(rooms)
    ensures Pour(rooms, amount)[i] == rooms[i]
  {
    PourAt(rooms, amount, i);
    SumGrows(rooms, i, |rooms|);
    assert rooms[..|rooms|] == rooms;
  }

  /** Money stays unassigned only when every eligible line is full. */
  lemma {:induction false} UnassignedMeansFull(amount: nat, targets: seq<FillTarget>, fund: FundType, t: FillTarget)
    requires DistinctTargets(targets) && Fill(amount, targets, fund).unassigned > 0
    requires t in targets && ExclusionOf(t, fund).None?
    ensures FilledFor(amount, targets, fund, t.aidLineId) == RoomOf(EligibleLineOf(t))
  {
    var order := FillOrder(targets, fund);
    var i := PlaceOf(targets, fund, t);
    FilledAt(amount, targets, fund, i);
    UnassignedIsRest(order, amount);
    PourFillsAll(Rooms(order), amount, i);
  }

  /** Lines that may not be filled receive nothing, nor does any line that is not listed. */
  lemma {:induction false} ExcludedGetNothing(amount: nat, targets: seq<FillTarget>, fund: FundType, line: Text)
    requires forall t | t in targets && t.aidLineId == line :: ExclusionOf(t, fund).Some?
    ensures FilledFor(amount, targets, fund, line) == 0
  {
    SortKeepsLines(EligibleOf(targets, fund));
    forall t | t in FillOrder(targets, fund) ensures t.aidLineId != line {
      assert t in multiset(EligibleOf(targets, fund));
      EligibleMembers(targets, fund, t);
      var i :| 0 <= i < |targets| && ExclusionOf(targets[i], fund).None? && EligibleLineOf(targets[i]) == t;
    }
    FilledElsewhere(amount, targets, fund, line);
  }

  /** No line receives money while an eligible line before it has room. */
  lemma {:induction false} FillIsGreedy(amount: nat, targets: seq<FillTarget>, fund: FundType, first: FillTarget, second: FillTarget)
    requires DistinctTargets(targets) && first in targets && second in targets
    requires ExclusionOf(first, fund).None? && ExclusionOf(second, fund).None?
    requires Precedes(EligibleLineOf(first), EligibleLineOf(second))
    requires FilledFor(amount, targets, fund, second.aidLineId) > 0
    ensures FilledFor(amount, targets, fund, first.aidLineId) == RoomOf(EligibleLineOf(first))
  {
    var order := FillOrder(targets, fund);
    var i := PlaceOf(targets, fund, first);
    var j := PlaceOf(targets, fund, second);
    FilledAt(amount, targets, fund, i);
    FilledAt(amount, targets, fund, j);
    FillOrderIsOrdered(targets, fund);
    NotBefore(order, i, j);
    PourIsGreedy(Rooms(order), amount, i, j);
  }

  lemma {:induction false} NotBefore(order: seq<EligibleLine>, i: nat, j: nat)
    requires Ordered(order) && i < |order| && j < |order| && Precedes(order[i], order[j])
    ensures i < j
  {
    PrecedesIsStrict(order[i], order[j]);
    if j < i { PrecedesIsTransitive(order[i], order[j], order[i]); }
  }

  /** The order in which the lines are listed changes nothing but the order of the exclusions. */
  lemma {:induction false} FillIgnoresInputOrder(amount: nat, ts: seq<FillTarget>, us: seq<FillTarget>, fund: FundType)
    requires DistinctTargets(ts) && DistinctTargets(us) && multiset(ts) == multiset(us)
    ensures Fill(amount, ts, fund).shares == Fill(amount, us, fund).shares
    ensures Fill(amount, ts, fund).unassigned == Fill(amount, us, fund).unassigned
  {
    EligibleIgnoresOrder(ts, us, fund);
    FillOrderIsOrdered(ts, fund);
    FillOrderIsOrdered(us, fund);
    SortKeepsLines(EligibleOf(ts, fund));
    SortKeepsLines(EligibleOf(us, fund));
    forall a: EligibleLine, b: EligibleLine ensures Precedes(a, b) ==> !Precedes(b, a) { PrecedesIsAsymmetric(a, b); }
    OrderedAreEqual(FillOrder(ts, fund), FillOrder(us, fund), Precedes, Precedes);
  }
}
