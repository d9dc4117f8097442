/**
 The life of an approved proposal: realizations and revisions in any order. What was handed over stays
 with its holder, in its form and unit and within its right, whatever the revisions do; a revision that
 was within the floor when it was stored still is when it is decided; and closing the remainder counts
 everything that was recorded.
 */
module ProposalLife {
  import opened Options
  import opened Texts
  import opened Quantities
  import opened RevisionFloor
  import opened RemainderClosure
  import opened ProposalRealization
  import RevisionDelta

  datatype Step<Q> =
    | RecordItems(items: seq<Item<Q>>)
    | Propose(revised: seq<AidLine<Q>>, others: set<Text>)
    | Amend(revised: seq<AidLine<Q>>, others: set<Text>)
    | Drop
    | Approve

  function Settled<Q, E>(p: Proposal<Q>, outcome: Result<Proposal<Q>, E>): Proposal<Q>
  {
    if outcome.Ok? then outcome.value else p
  }

  /** A refused step leaves the proposal as it was. */
  function Next<Q(==)>(m: Arithmetic<Q>, p: Proposal<Q>, s: Step<Q>): Proposal<Q>
  {
    match s
    case RecordItems(items) => Settled(p, Recorded(m, p, items))
    case Propose(revised, others) => Settled(p, Proposed(m, p, revised, others))
    case Amend(revised, others) => Settled(p, Amended(m, p, revised, others))
    case Drop => Dropped(p)
    case Approve => Settled(p, Approved(m, p))
  }

  function RunFrom<Q(==)>(m: Arithmetic<Q>, p: Proposal<Q>, steps: seq<Step<Q>>): Proposal<Q>
  {
    if steps == [] then p else Next(m, RunFrom(m, p, steps[..|steps| - 1]), steps[|steps| - 1])
  }

  // ----- The invariant

  /** The line a record was made on is still there, with the record's holder, form and unit. */
  ghost predicate RecordStands<Q>(m: Arithmetic<Q>, lines: seq<AidLine<Q>>, r: Record<Q>)
  {
    match LineById(lines, r.what.aidLineId)
    case None => false
    case Some(line) =>
      line.beneficiaryId == r.beneficiaryId &&
      match line.value
      case Money(_, _) => PaidBy(r.what) > 0 && r.what.quantity.None? && r.unit.None?
      case Goods(unit, _, _) => r.what.amount.None? && DeliveredBy(m, r.what) > 0.0 && r.unit == Some(unit)
  }

  ghost predicate RecordsStand<Q>(m: Arithmetic<Q>, lines: seq<AidLine<Q>>, records: seq<Record<Q>>)
  {
    forall i | 0 <= i < |records| :: RecordStands(m, lines, records[i])
  }

  /** What a line's right covers of what it realized. */
  ghost predicate WithinRight<Q>(m: Arithmetic<Q>, lines: seq<AidLine<Q>>, rs: seq<Realization<Q>>, id: Text)
  {
    LineById(lines, id).Some? ==> Covered(m, LineById(lines, id).value, rs) && LineById(lines, id).value.id == id
  }

  /** A revision under way is within the floor, and whatever it changes is held back. */
  ghost predicate RevisionFits<Q(!new)>(m: Arithmetic<Q>, p: Proposal<Q>, revised: seq<AidLine<Q>>)
  {
    Floor(m, p.lines, revised, Realizations(p.records)) == Accepted &&
    forall id: Text :: id !in p.held ==> LineById(p.lines, id) == LineById(revised, id)
  }

  ghost predicate Stands<Q(!new)>(m: Arithmetic<Q>, p: Proposal<Q>)
  {
    ApprovedValuesSet(p.lines) && RecordsStand(m, p.lines, p.records) &&
    (forall id: Text :: WithinRight(m, p.lines, Realizations(p.records), id)) &&
    (p.revision.Some? ==> RevisionFits(m, p, p.revision.value))
  }

  // ----- Recording keeps it

  lemma {:induction false} FoundIsSet<Q>(lines: seq<AidLine<Q>>, id: Text)
    requires ApprovedValuesSet(lines) && LineById(lines, id).Some? && LineById(lines, id).value.value.Money?
    ensures GrantedIdr(LineById(lines, id).value) == ApprovedIdr(LineById(lines, id).value)
  {
    LineByIdFinds(lines, id);
  }

  lemma {:induction false} OneMore<Q>(m: Arithmetic<Q>, records: seq<Record<Q>>, r: Record<Q>, id: Text)
    ensures Realizations(records + [r]) == Realizations(records) + [r.what]
    ensures RealizedIdr(Realizations(records + [r]), id) ==
            RealizedIdr(Realizations(records), id) + if r.what.aidLineId == id then PaidBy(r.what) else 0
    ensures RealizedQuantity(m, Realizations(records + [r]), id) ==
            if r.what.aidLineId == id && r.what.quantity.Some? then m.add(RealizedQuantity(m, Realizations(records), id), r.what.quantity.value)
            else RealizedQuantity(m, Realizations(records), id)
  {
    assert Realizations(records + [r]) == Realizations(records) + [r.what];
  }

  /** A validated item that its line accepts: the record stands and the line stays within its right. */
  lemma {:induction false} ItemStands<Q(!new)>(m: Arithmetic<Q>, lines: seq<AidLine<Q>>, records: seq<Record<Q>>, raw: Item<Q>, item: Item<Q>) returns (r: Record<Q>)
    requires Exact(m) && Validated(m, raw) == Some(item) && WithItem(m, lines, records, item).Ok?
    ensures WithItem(m, lines, records, item) == Ok(records + [r]) && r.what.aidLineId == item.aidLineId
    ensures RecordStands(m, lines, r) && WithinRight(m, lines, Realizations(records + [r]), item.aidLineId)
  {
    var id := item.aidLineId;
    r := RecordOf(LineById(lines, id).value, item);
    LineByIdFinds(lines, id);
    OneMore(m, records, r, id);
    assert m.value(m.zero) == 0.0;
  }

  lemma {:induction false} RecordKeepsRights<Q(!new)>(m: Arithmetic<Q>, lines: seq<AidLine<Q>>, records: seq<Record<Q>>, r: Record<Q>, id: Text)
    requires WithinRight(m, lines, Realizations(records), id) && WithinRight(m, lines, Realizations(records + [r]), r.what.aidLineId)
    ensures WithinRight(m, lines, Realizations(records + [r]), id)
  {
    OneMore(m, records, r, id);
    LineByIdFinds(lines, id);
  }

  /** On a line that is not held back the floor under the revision stays where the right in force is. */
  lemma {:induction false} RecordKeepsCover<Q(!new)>(m: Arithmetic<Q>, p: Proposal<Q>, revised: seq<AidLine<Q>>, r: Record<Q>, id: Text)
    requires Exact(m) && ApprovedValuesSet(p.lines) && RevisionFits(m, p, revised) && r.what.aidLineId !in p.held
    requires RecordStands(m, p.lines, r) && WithinRight(m, p.lines, Realizations(p.records + [r]), r.what.aidLineId)
    ensures MoneyCovered(p.lines, revised, Realizations(p.records + [r]), id)
    ensures GoodsCovered(m, p.lines, revised, Realizations(p.records + [r]), id)
  {
    FloorAcceptsExactly(m, p.lines, revised, Realizations(p.records));
    assert MoneyCovered(p.lines, revised, Realizations(p.records), id) && GoodsCovered(m, p.lines, revised, Realizations(p.records), id);
    OneMore(m, p.records, r, id);
    if id == r.what.aidLineId {
      assert LineById(p.lines, id) == LineById(revised, id);
      if LineById(p.lines, id).value.value.Money? { FoundIsSet(p.lines, id); }
    }
  }

  lemma {:induction false} RecordKeepsFit<Q(!new)>(m: Arithmetic<Q>, p: Proposal<Q>, revised: seq<AidLine<Q>>, r: Record<Q>)
    requires Exact(m) && ApprovedValuesSet(p.lines) && RevisionFits(m, p, revised) && r.what.aidLineId !in p.held
    requires RecordStands(m, p.lines, r) && WithinRight(m, p.lines, Realizations(p.records + [r]), r.what.aidLineId)
    ensures RevisionFits(m, p.(records := p.records + [r]), revised)
  {
    forall id: Text
      ensures MoneyCovered(p.lines, revised, Realizations(p.records + [r]), id) && GoodsCovered(m, p.lines, revised, Realizations(p.records + [r]), id)
    {
      RecordKeepsCover(m, p, revised, r, id);
    }
    FloorAcceptsExactly(m, p.lines, revised, Realizations(p.records + [r]));
  }

  lemma {:induction false} RecordKeepsStanding<Q(!new)>(m: Arithmetic<Q>, p: Proposal<Q>, r: Record<Q>)
    requires Exact(m) && Stands(m, p) && r.what.aidLineId !in p.held
    requires RecordStands(m, p.lines, r) && WithinRight(m, p.lines, Realizations(p.records + [r]), r.what.aidLineId)
    ensures Stands(m, p.(records := p.records + [r]))
  {
    forall id: Text ensures WithinRight(m, p.lines, Realizations(p.records + [r]), id) {
      assert WithinRight(m, p.lines, Realizations(p.records), id);
      RecordKeepsRights(m, p.lines, p.records, r, id);
    }
    if p.revision.Some? { RecordKeepsFit(m, p, p.revision.value, r); }
  }

  lemma {:induction false} NotHeld<Q>(held: set<Text>, items: seq<Item<Q>>)
    requires items != [] && FirstHeld(held, items).None?
    ensures FirstHeld(held, items[..|items| - 1]).None? && items[|items| - 1].aidLineId !in held
  {
  }

  lemma {:induction false} ItemsKeepStanding<Q(!new)>(m: Arithmetic<Q>, p: Proposal<Q>, raws: seq<Item<Q>>, items: seq<Item<Q>>)
    requires Exact(m) && Stands(m, p) && ValidatedAll(m, raws) == Some(items) && FirstHeld(p.held, items).None?
    requires WithItems(m, p.lines, p.records, items).Ok?
    ensures Stands(m, p.(records := WithItems(m, p.lines, p.records, items).value))
  {
    if raws == [] {
      assert items == [];
    } else {
      var n := |raws| - 1;
      var front, item := ValidatedAll(m, raws[..n]).value, Validated(m, raws[n]).value;
      assert items == front + [item] && items[..|items| - 1] == front;
      NotHeld(p.held, items);
      ItemsKeepStanding(m, p, raws[..n], front);
      var before := p.(records := WithItems(m, p.lines, p.records, front).value);
      var r := ItemStands(m, p.lines, before.records, raws[n], item);
      RecordKeepsStanding(m, before, r);
    }
  }

  lemma {:induction false} RecordingKeepsStanding<Q(!new)>(m: Arithmetic<Q>, p: Proposal<Q>, items: seq<Item<Q>>)
    requires Exact(m) && Stands(m, p)
    ensures Stands(m, Settled(p, Recorded(m, p, items)))
  {
    if Recorded(m, p, items).Ok? { ItemsKeepStanding(m, p, items, ValidatedAll(m, items).value); }
  }

  // ----- Revising keeps it

  /** Lines that are not held back are the same in both versions. */
  lemma {:induction false} UnheldIsUnchanged<Q>(previous: seq<AidLine<Q>>, revised: seq<AidLine<Q>>, id: Text)
    requires id !in HeldLines(previous, revised)
    ensures LineById(previous, id) == LineById(revised, id)
  {
    LineByIdFinds(previous, id);
    LineByIdFinds(revised, id);
  }

  lemma {:induction false} StoringKeepsStanding<Q(!new)>(m: Arithmetic<Q>, p: Proposal<Q>, revised: seq<AidLine<Q>>, others: set<Text>)
    requires Exact(m) && Stands(m, p)
    ensures Stands(m, Settled(p, WithRevision(m, p, revised, others)))
  {
    if WithRevision(m, p, revised, others).Ok? {
      forall id: Text | id !in HeldLines(p.lines, revised) + others ensures LineById(p.lines, id) == LineById(revised, id) {
        UnheldIsUnchanged(p.lines, revised, id);
      }
    }
  }

  lemma {:induction false} ResolvedIsFound<Q>(lines: seq<AidLine<Q>>, id: Text)
    ensures LineById(ResolvedAll(lines), id) == (var line := LineById(lines, id); if line.None? then None else Some(Resolved(line.value)))
  {
    if lines != [] {
      var front := lines[..|lines| - 1];
      ResolvedIsFound(front, id);
      assert ResolvedAll(lines)[..|lines| - 1] == ResolvedAll(front);
    }
  }

  lemma {:induction false} ApprovedRecordStands<Q(!new)>(m: Arithmetic<Q>, p: Proposal<Q>, revised: seq<AidLine<Q>>, i: nat)
    requires Exact(m) && RecordsStand(m, p.lines, p.records) && i < |p.records|
    requires Floor(m, p.lines, revised, Realizations(p.records)) == Accepted
    ensures RecordStands(m, ResolvedAll(revised), p.records[i])
  {
    var rs, r := Realizations(p.records), p.records[i];
    var id := r.what.aidLineId;
    assert rs[i] == r.what && RecordStands(m, p.lines, r);
    FloorAcceptsExactly(m, p.lines, revised, rs);
    assert MoneyCovered(p.lines, revised, rs, id) && GoodsCovered(m, p.lines, revised, rs, id);
    PartOfRealized(m, rs, r.what);
    ResolvedIsFound(revised, id);
  }

  lemma {:induction false} ApprovedStaysWithinRight<Q(!new)>(m: Arithmetic<Q>, p: Proposal<Q>, revised: seq<AidLine<Q>>, id: Text)
    requires Exact(m) && Floor(m, p.lines, revised, Realizations(p.records)) == Accepted
    ensures WithinRight(m, ResolvedAll(revised), Realizations(p.records), id)
  {
    var rs := Realizations(p.records);
    FloorAcceptsExactly(m, p.lines, revised, rs);
    assert MoneyCovered(p.lines, revised, rs, id) && GoodsCovered(m, p.lines, revised, rs, id);
    ResolvedIsFound(revised, id);
    LineByIdFinds(revised, id);
    var line := LineById(revised, id);
    if line.Some? && line.value.value.Goods? { assert m.value(GrantedQuantity(line.value)) >= 0.0; }
  }

  lemma {:induction false} ApprovingKeepsStanding<Q(!new)>(m: Arithmetic<Q>, p: Proposal<Q>)
    requires Exact(m) && Stands(m, p)
    ensures Stands(m, Settled(p, Approved(m, p)))
  {
    if Approved(m, p).Ok? {
      var revised := p.revision.value;
      forall i | 0 <= i < |p.records| ensures RecordStands(m, ResolvedAll(revised), p.records[i]) { ApprovedRecordStands(m, p, revised, i); }
      forall id: Text ensures WithinRight(m, ResolvedAll(revised), Realizations(p.records), id) { ApprovedStaysWithinRight(m, p, revised, id); }
    }
  }

  lemma {:induction false} NextStands<Q(!new)>(m: Arithmetic<Q>, p: Proposal<Q>, s: Step<Q>)
    requires Exact(m) && Stands(m, p)
    ensures Stands(m, Next(m, p, s))
  {
    match s
    case RecordItems(items) => RecordingKeepsStanding(m, p, items);
    case Propose(revised, others) => StoringKeepsStanding(m, p, revised, others);
    case Amend(revised, others) => StoringKeepsStanding(m, p, revised, others);
    case Drop =>
    case Approve => ApprovingKeepsStanding(m, p);
  }

  /** A decided version nothing has been recorded against. */
  function Decided<Q>(lines: seq<AidLine<Q>>): Proposal<Q> { Proposal(lines, [], None, {}) }

  lemma {:induction false} DecidedStands<Q(!new)>(m: Arithmetic<Q>, lines: seq<AidLine<Q>>)
    requires Exact(m) && ApprovedValuesSet(lines)
    ensures Stands(m, Decided(lines))
  {
    var none: seq<Record<Q>> := [];
    assert Realizations(none) == [] && m.value(m.zero) == 0.0;
    forall id: Text ensures WithinRight(m, lines, Realizations(none), id) {
      LineByIdFinds(lines, id);
      var line := LineById(lines, id);
      if line.Some? && line.value.value.Goods? { assert m.value(GrantedQuantity(line.value)) >= 0.0; }
    }
  }

  /**
   After every run of realizations and revisions, each record's line is still there with the record's
   holder, form and unit, and no line realized more than its right.
   */
  lemma {:induction false} RunStands<Q(!new)>(m: Arithmetic<Q>, lines: seq<AidLine<Q>>, steps: seq<Step<Q>>)
    requires Exact(m) && ApprovedValuesSet(lines)
    ensures Stands(m, RunFrom(m, Decided(lines), steps))
  {
    if steps == [] {
      DecidedStands(m, lines);
    } else {
      RunStands(m, lines, steps[..|steps| - 1]);
      NextStands(m, RunFrom(m, Decided(lines), steps[..|steps| - 1]), steps[|steps| - 1]);
    }
  }

  // ----- What follows

  /** A stored revision is never found below the floor when it is decided: what it changes was held back meanwhile. */
  lemma {:induction false} DecisionFindsFloorKept<Q(!new)>(m: Arithmetic<Q>, lines: seq<AidLine<Q>>, steps: seq<Step<Q>>)
    requires Exact(m) && ApprovedValuesSet(lines) && RunFrom(m, Decided(lines), steps).revision.Some?
    ensures Approved(m, RunFrom(m, Decided(lines), steps)).Ok?
  {
    RunStands(m, lines, steps);
  }

  lemma {:induction false} OneFormPerLine<Q(!new)>(m: Arithmetic<Q>, lines: seq<AidLine<Q>>, records: seq<Record<Q>>, id: Text)
    requires Exact(m) && RecordsStand(m, lines, records)
    ensures RealizedIdr(Realizations(records), id) == 0 || m.value(RealizedQuantity(m, Realizations(records), id)) == 0.0
    ensures LineById(lines, id).Some? && LineById(lines, id).value.value.Money? ==> RealizedQuantity(m, Realizations(records), id) == m.zero
    ensures !(LineById(lines, id).Some? && LineById(lines, id).value.value.Money?) ==> RealizedIdr(Realizations(records), id) == 0
  {
    assert m.value(m.zero) == 0.0;
    if records != [] {
      var front, r := records[..|records| - 1], records[|records| - 1];
      assert RecordStands(m, lines, r);
      assert forall i | 0 <= i < |front| :: front[i] == records[i];
      OneFormPerLine(m, lines, front, id);
      assert front + [r] == records;
      OneMore(m, front, r, id);
    }
  }

  /** No run gives a line both money and goods. */
  lemma {:induction false} RunRealizesOneForm<Q(!new)>(m: Arithmetic<Q>, lines: seq<AidLine<Q>>, steps: seq<Step<Q>>, id: Text)
    requires Exact(m) && ApprovedValuesSet(lines)
    ensures var rs := Realizations(RunFrom(m, Decided(lines), steps).records);
            RealizedIdr(rs, id) == 0 || m.value(RealizedQuantity(m, rs, id)) == 0.0
  {
    RunStands(m, lines, steps);
    var end := RunFrom(m, Decided(lines), steps);
    OneFormPerLine(m, end.lines, end.records, id);
  }

  // ----- Closing after a run

  /** The goods recorded in a unit, on lines that are now of one kind of aid. */
  ghost function RecordedGoods<Q>(m: Arithmetic<Q>, lines: seq<AidLine<Q>>, records: seq<Record<Q>>, key: GoodsKey): real
  {
    if records == [] then 0.0
    else
      var r := records[|records| - 1];
      var line := LineById(lines, r.what.aidLineId);
      RecordedGoods(m, lines, records[..|records| - 1], key) +
      if r.unit == Some(key.1) && line.Some? && line.value.aidType == key.0 then DeliveredBy(m, r.what) else 0.0
  }

  lemma {:induction false} ReceivedIsRecorded<Q(!new)>(m: Arithmetic<Q>, lines: seq<AidLine<Q>>, records: seq<Record<Q>>, key: GoodsKey)
    requires RecordsStand(m, lines, records)
    ensures ReceivedGoods(m, lines, Realizations(records), key) == RecordedGoods(m, lines, records, key)
  {
    if records != [] {
      var front, r := records[..|records| - 1], records[|records| - 1];
      assert RecordStands(m, lines, r);
      assert forall i | 0 <= i < |front| :: front[i] == records[i];
      ReceivedIsRecorded(m, lines, front, key);
      assert Realizations(records)[..|records| - 1] == Realizations(front);
    }
  }

  lemma {:induction false} RecordsAreShown<Q(!new)>(m: Arithmetic<Q>, lines: seq<AidLine<Q>>, records: seq<Record<Q>>)
    requires RecordsStand(m, lines, records)
    ensures forall r | r in Realizations(records) :: IsShown(m, lines, r)
  {
    forall r | r in Realizations(records) ensures IsShown(m, lines, r) {
      var i :| 0 <= i < |records| && Realizations(records)[i] == r;
      assert RecordStands(m, lines, records[i]);
    }
  }

  /**
   Closing after any run shows everything recorded: all money, and all goods under the unit they were
   recorded in and the kind their line is of now. Each is counted once exactly when no such line is
   listed twice.
   */
  lemma {:induction false} ClosureCountsWhatWasRecorded<Q(!new)>(m: Arithmetic<Q>, lines: seq<AidLine<Q>>, steps: seq<Step<Q>>, key: GoodsKey)
    requires Exact(m) && ApprovedValuesSet(lines)
    ensures var end := RunFrom(m, Decided(lines), steps);
            var rs := Realizations(end.records);
            var c := ClosureOf(m, end.lines, rs);
            c.realizedIdr >= ReceivedIdr(rs) && (c.realizedIdr == ReceivedIdr(rs) <==> PaidListedOnce(end.lines, rs)) &&
            m.value(TotalsAt(m, c.goods, key).realized) >= RecordedGoods(m, end.lines, end.records, key) &&
            (m.value(TotalsAt(m, c.goods, key).realized) == RecordedGoods(m, end.lines, end.records, key) <==>
              DeliveredListedOnce(m, end.lines, rs, key))
  {
    RunStands(m, lines, steps);
    var end := RunFrom(m, Decided(lines), steps);
    RecordsAreShown(m, end.lines, end.records);
    PaymentsCountOnceExactlyWhenListedOnce(m, end.lines, Realizations(end.records));
    DeliveriesCountOnceExactlyWhenListedOnce(m, end.lines, Realizations(end.records), key);
    ReceivedIsRecorded(m, end.lines, end.records, key);
  }

  /** A delivery is totalled under the kind and unit it was recorded in exactly when its line is still of that kind. */
  lemma {:induction false} RecordedKindIsKeptExactlyWhen<Q(!new)>(m: Arithmetic<Q>, lines: seq<AidLine<Q>>, steps: seq<Step<Q>>, i: nat)
    requires Exact(m) && ApprovedValuesSet(lines) && i < |RunFrom(m, Decided(lines), steps).records|
    requires RunFrom(m, Decided(lines), steps).records[i].what.quantity.Some?
    ensures var end := RunFrom(m, Decided(lines), steps);
            var r := end.records[i];
            var line := LineById(end.lines, r.what.aidLineId);
            line.Some? && r.unit.Some? && (KeyOf(line.value) == Some((r.aidType, r.unit.value)) <==> line.value.aidType == r.aidType)
  {
    RunStands(m, lines, steps);
    var end := RunFrom(m, Decided(lines), steps);
    assert RecordStands(m, end.lines, end.records[i]);
  }

  // ----- Runs whose revisions list no line twice

  predicate ListsOnce<Q>(s: Step<Q>)
  {
    (s.Propose? ==> UniqueLines(s.revised)) && (s.Amend? ==> UniqueLines(s.revised))
  }

  lemma {:induction false} RunListsOnce<Q(!new)>(m: Arithmetic<Q>, lines: seq<AidLine<Q>>, steps: seq<Step<Q>>)
    requires UniqueLines(lines) && forall i | 0 <= i < |steps| :: ListsOnce(steps[i])
    ensures var end := RunFrom(m, Decided(lines), steps);
            UniqueLines(end.lines) && (end.revision.Some? ==> UniqueLines(end.revision.value))
  {
    if steps != [] {
      RunListsOnce(m, lines, steps[..|steps| - 1]);
      assert ListsOnce(steps[|steps| - 1]);
    }
  }

  /** Then closing after the run counts everything once, and every line and total is approved = realized + remainder. */
  lemma {:induction false} ClosureAfterRunBalances<Q(!new)>(m: Arithmetic<Q>, lines: seq<AidLine<Q>>, steps: seq<Step<Q>>)
    requires Exact(m) && ApprovedValuesSet(lines) && UniqueLines(lines) && forall i | 0 <= i < |steps| :: ListsOnce(steps[i])
    ensures var end := RunFrom(m, Decided(lines), steps);
            var rs := Realizations(end.records);
            var c := ClosureOf(m, end.lines, rs);
            |c.lines| == |end.lines| && (forall i | 0 <= i < |c.lines| :: Balanced(m, c.lines[i])) &&
            c.approvedIdr == c.realizedIdr + c.remainderIdr && c.realizedIdr == ReceivedIdr(rs) &&
            (forall key | key in c.goods :: GoodsBalance(m, c.goods[key])) &&
            forall key :: m.value(TotalsAt(m, c.goods, key).realized) == RecordedGoods(m, end.lines, end.records, key)
  {
    RunStands(m, lines, steps);
    RunListsOnce(m, lines, steps);
    var end := RunFrom(m, Decided(lines), steps);
    var rs := Realizations(end.records);
    RecordsAreShown(m, end.lines, end.records);
    forall i | 0 <= i < |end.lines| ensures Covered(m, end.lines[i], rs) {
      FoundByItsId(end.lines, i);
      assert WithinRight(m, end.lines, rs, end.lines[i].id);
    }
    CoveredClosureBalances(m, end.lines, rs);
    forall key ensures m.value(TotalsAt(m, ClosureOf(m, end.lines, rs).goods, key).realized) == RecordedGoods(m, end.lines, end.records, key) {
      UniqueCountsOnce(m, end.lines, rs, key);
      ClosureCountsWhatWasRecorded(m, lines, steps, key);
    }
    UniqueCountsOnce(m, end.lines, rs, ([], []));
    ClosureCountsWhatWasRecorded(m, lines, steps, ([], []));
  }

  // ----- Two runs

  lemma {:induction false} OneItemRecorded<Q>(m: Arithmetic<Q>, before: AidLine<Q>, item: Item<Q>, r: Record<Q>)
    requires Validated(m, item) == Some(item) && WithItem(m, [before], [], item) == Ok([r])
    ensures Recorded(m, Decided([before]), [item]) == Ok(Proposal([before], [r], None, {}))
  {
    var items := [item];
    assert items[..0] == [] && items[0] == item;
    assert ValidatedAll(m, items[..0]) == Some([]) && WithItems(m, [before], [], items[..0]) == Ok([]);
    assert ValidatedAll(m, items) == Some([] + [item]) && [] + [item] == items;
    assert FirstHeld({}, items).None?;
    assert WithItems(m, [before], [], items) == WithItem(m, [before], [], item);
  }

  lemma {:induction false} RunOfThree<Q>(m: Arithmetic<Q>, p: Proposal<Q>, a: Step<Q>, b: Step<Q>, c: Step<Q>)
    ensures RunFrom(m, p, [a, b, c]) == Next(m, Next(m, Next(m, p, a), b), c)
  {
    var steps := [a, b, c];
    assert steps[..2] == [a, b] && steps[..2][..1] == [a] && steps[..2][..1][..0] == [];
    assert RunFrom(m, p, steps[..2][..1]) == Next(m, p, a);
    assert RunFrom(m, p, steps[..2]) == Next(m, Next(m, p, a), b);
  }

  lemma {:induction false} ProposedAndApproved<Q(!new)>(m: Arithmetic<Q>, before: AidLine<Q>, r: Record<Q>, revised: seq<AidLine<Q>>)
    requires Floor(m, [before], revised, [r.what]) == Accepted
    ensures Next(m, Next(m, Proposal([before], [r], None, {}), Propose(revised, {})), Approve) == Proposal(ResolvedAll(revised), [r], None, {})
  {
    assert Realizations([r]) == [r.what];
  }

  lemma {:induction false} RecordedThenRevised<Q(!new)>(m: Arithmetic<Q>, before: AidLine<Q>, item: Item<Q>, r: Record<Q>, revised: seq<AidLine<Q>>)
    requires Validated(m, item) == Some(item) && WithItem(m, [before], [], item) == Ok([r])
    requires Floor(m, [before], revised, [r.what]) == Accepted
    ensures RunFrom(m, Decided([before]), [RecordItems([item]), Propose(revised, {}), Approve]) == Proposal(ResolvedAll(revised), [r], None, {})
  {
    RunOfThree(m, Decided([before]), RecordItems([item]), Propose(revised, {}), Approve);
    OneItemRecorded(m, before, item, r);
    assert Next(m, Decided([before]), RecordItems([item])) == Proposal([before], [r], None, {});
    ProposedAndApproved(m, before, r, revised);
  }

  /** A run in which a revision moves what was delivered to another kind of aid. */
  lemma {:induction false} RevisionCanMoveDelivery<Q(!new)>(m: Arithmetic<Q>, id: Text, holder: Text, unit: Text, kind: Text, other: Text, five: Q)
    returns (end: Proposal<Q>)
    requires Exact(m) && m.value(five) == 5.0 && kind != other && id != [] && holder != [] && unit != []
    ensures var (before, after) := (AidLine(id, holder, kind, Goods(unit, five, Some(five))), AidLine(id, holder, other, Goods(unit, five, Some(five))));
            var item := Item(id, holder, GoodsHandover, None, Some(five), Some(unit));
            var goods := ClosureOf(m, end.lines, Realizations(end.records)).goods;
            end == RunFrom(m, Decided([before]), [RecordItems([item]), Propose([after], {}), Approve]) &&
            |end.records| == 1 && end.records[0].aidType == kind && end.records[0].unit == Some(unit) &&
            (kind, unit) !in goods && (other, unit) in goods && m.value(goods[(other, unit)].realized) == 5.0
  {
    var before, after := AidLine(id, holder, kind, Goods(unit, five, Some(five))), AidLine(id, holder, other, Goods(unit, five, Some(five)));
    var item := Item(id, holder, GoodsHandover, None, Some(five), Some(unit));
    var r := Record(Realization(id, None, Some(five)), holder, Some(unit), kind);
    var none: seq<Record<Q>> := [];
    assert m.value(m.zero) == 0.0 && Realizations(none) == [] && Realizations([r]) == [r.what];
    ChangedKindMovesDelivery(m, id, holder, unit, kind, other, five);
    assert RecordOf(before, item) == r && none + [r] == [r];
    RecordedThenRevised(m, before, item, r, [after]);
    end := Proposal(ResolvedAll([after]), [r], None, {});
    assert ResolvedAll([after]) == [after];
  }

  /** A run in which a revision lists a paid line twice and the closure counts the payment twice. */
  lemma {:induction false} RevisionCanCountTwice<Q(!new)>(m: Arithmetic<Q>, id: Text, holder: Text) returns (end: Proposal<Q>)
    requires Exact(m) && id != [] && holder != []
    ensures var line: AidLine<Q> := AidLine(id, holder, [], Money(5, Some(5)));
            var item: Item<Q> := Item(id, holder, Cash, Some(5), None, None);
            end == RunFrom(m, Decided([line]), [RecordItems([item]), Propose([line, line], {}), Approve]) &&
            ReceivedIdr(Realizations(end.records)) == 5 && ClosureOf(m, end.lines, Realizations(end.records)).realizedIdr == 10
  {
    var line: AidLine<Q> := AidLine(id, holder, [], Money(5, Some(5)));
    var item: Item<Q> := Item(id, holder, Cash, Some(5), None, None);
    var r: Record<Q> := Record(Realization(id, Some(5), None), holder, None, []);
    var none: seq<Record<Q>> := [];
    assert Realizations(none) == [] && Realizations([r]) == [r.what];
    RelistedLineCountsTwice(m, id, holder);
    assert RecordOf(line, item) == r && none + [r] == [r];
    RecordedThenRevised(m, line, item, r, [line, line]);
    end := Proposal(ResolvedAll([line, line]), [r], None, {});
    assert ResolvedAll([line, line]) == [line, line];
  }

  // ----- The held lines among the delta's held ids

  function ViewsOf<Q>(view: RevisionDelta.Item -> AidLine<Q>, items: seq<RevisionDelta.Item>): seq<AidLine<Q>>
  {
    seq(|items|, i requires 0 <= i < |items| => view(items[i]))
  }

  lemma {:induction false} ViewsAreFound<Q>(view: RevisionDelta.Item -> AidLine<Q>, items: seq<RevisionDelta.Item>, id: Text)
    requires forall item: RevisionDelta.Item :: view(item).id == item.id
    ensures LineById(ViewsOf(view, items), id) ==
            (var item := RevisionDelta.ById(items, id); if item.None? then None else Some(view(item.value)))
  {
    if items != [] {
      ViewsAreFound(view, items[..|items| - 1], id);
      assert ViewsOf(view, items)[..|items| - 1] == ViewsOf(view, items[..|items| - 1]);
    }
  }

  /** However lines are read from the contents of records, a line held back here is among the ids the delta holds back. */
  lemma {:induction false} HeldLinesAreHeldIds<Q>(view: RevisionDelta.Item -> AidLine<Q>, previous: seq<RevisionDelta.Item>, revised: seq<RevisionDelta.Item>, id: Text)
    requires forall item: RevisionDelta.Item :: view(item).id == item.id
    requires forall a: RevisionDelta.Item, b: RevisionDelta.Item :: a.id == b.id && RevisionDelta.SameContent(a, b) ==> view(a) == view(b)
    requires id in HeldLines(ViewsOf(view, previous), ViewsOf(view, revised))
    ensures id in RevisionDelta.HeldIds(RevisionDelta.DeltaOf(previous, revised))
  {
    var d := RevisionDelta.DeltaOf(previous, revised);
    RevisionDelta.HeldIdsAreHeld(d, id);
    ViewsAreFound(view, previous, id);
    ViewsAreFound(view, revised, id);
    if i :| 0 <= i < |revised| && revised[i].id == id && LineById(ViewsOf(view, previous), id) != Some(view(revised[i])) {
      var item := revised[i];
      RevisionDelta.RevisedIsSorted(previous, revised, item);
      if RevisionDelta.ById(previous, id).Some? { RevisionDelta.ByIdFinds(previous, id); }
    } else {
      var i :| 0 <= i < |previous| && previous[i].id == id && LineById(ViewsOf(view, revised), id).None?;
      RevisionDelta.RemovedIsSorted(previous, revised, previous[i]);
    }
  }
}
