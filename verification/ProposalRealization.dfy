/**
 An approved proposal: aid handed over is recorded against its lines, and revisions replace the lines
 while what they change is held back. Each function is one transaction; a refused one leaves no trace.
 */
module ProposalRealization {
  import opened Options
  import opened Texts
  import opened Quantities
  import opened RevisionFloor

  datatype DisbursementMethod = BankTransfer | Cash | GoodsHandover

  /** One reported handover; what is missing or unreadable in the request is absent. */
  datatype Item<Q> = Item(aidLineId: Text, beneficiaryId: Text, mode: DisbursementMethod, amount: Option<nat>, quantity: Option<Q>, unit: Option<Text>)

  /** A stored realization; `aidType` is what the version it was recorded against says of its line. */
  datatype Record<Q> = Record(what: Realization<Q>, beneficiaryId: Text, unit: Option<Text>, aidType: Text)

  /** The version in force, everything recorded so far, the revision under way and the lines it holds back. */
  datatype Proposal<Q> = Proposal(lines: seq<AidLine<Q>>, records: seq<Record<Q>>, revision: Option<seq<AidLine<Q>>>, held: set<Text>)

  datatype RealizationError =
    | InvalidItem | HeldForRevision(id: Text) | NoLine(id: Text) | WrongRecipient(id: Text)
    | NeedsGoods(id: Text) | WrongUnit(id: Text) | NeedsMoney(id: Text) | OverRight(id: Text)

  datatype RevisionError = RevisionUnderWay | NoRevision | BelowFloor(verdict: Verdict)

  function Realizations<Q>(records: seq<Record<Q>>): seq<Realization<Q>>
  {
    seq(|records|, i requires 0 <= i < |records| => records[i].what)
  }

  // ----- Recording

  /** A handover needs a positive quantity and a unit, a payment a positive amount; a payment's goods are dropped. */
  function Validated<Q>(m: Arithmetic<Q>, item: Item<Q>): Option<Item<Q>>
  {
    if item.aidLineId == [] || item.beneficiaryId == [] then None
    else if item.mode.GoodsHandover? then
      if item.quantity.None? || m.compare(item.quantity.value, m.zero) <= 0 || item.unit.None? || item.unit.value == [] then None
      else Some(item.(amount := if item.amount == Some(0) then None else item.amount))
    else if item.amount.None? || item.amount.value == 0 then None
    else Some(item.(quantity := None, unit := None))
  }

  function ValidatedAll<Q>(m: Arithmetic<Q>, items: seq<Item<Q>>): Option<seq<Item<Q>>>
  {
    if items == [] then Some([])
    else
      var front, last := ValidatedAll(m, items[..|items| - 1]), Validated(m, items[|items| - 1]);
      if front.None? || last.None? then None else Some(front.value + [last.value])
  }

  /** The first line among the items that is held back. */
  function FirstHeld<Q>(held: set<Text>, items: seq<Item<Q>>): Option<Text>
  {
    if items == [] then None
    else
      var front, id := FirstHeld(held, items[..|items| - 1]), items[|items| - 1].aidLineId;
      if front.Some? then front else if id in held then Some(id) else None
  }

  function GoodsItemRefusal<Q>(m: Arithmetic<Q>, line: AidLine<Q>, realized: Q, item: Item<Q>): Option<RealizationError>
    requires line.value.Goods?
  {
    if !item.mode.GoodsHandover? || item.quantity.None? || item.unit.None? || item.unit.value == [] then Some(NeedsGoods(item.aidLineId))
    else if item.unit.value != line.value.unit then Some(WrongUnit(item.aidLineId))
    else if m.compare(m.add(realized, item.quantity.value), GrantedQuantity(line)) > 0 then Some(OverRight(item.aidLineId))
    else None
  }

  function MoneyItemRefusal<Q>(line: AidLine<Q>, realized: nat, item: Item<Q>): Option<RealizationError>
    requires line.value.Money?
  {
    if item.mode.GoodsHandover? || item.amount.None? then Some(NeedsMoney(item.aidLineId))
    else if realized + item.amount.value > ApprovedIdr(line) then Some(OverRight(item.aidLineId))
    else None
  }

  function ItemRefusal<Q>(m: Arithmetic<Q>, line: Option<AidLine<Q>>, paid: nat, delivered: Q, item: Item<Q>): Option<RealizationError>
  {
    if line.None? then Some(NoLine(item.aidLineId))
    else if line.value.beneficiaryId != item.beneficiaryId then Some(WrongRecipient(item.aidLineId))
    else if line.value.value.Goods? then GoodsItemRefusal(m, line.value, delivered, item)
    else MoneyItemRefusal(line.value, paid, item)
  }

  /** A money line keeps the amount alone, a goods line quantity and unit alone. */
  function RecordOf<Q>(line: AidLine<Q>, item: Item<Q>): Record<Q>
  {
    match line.value
    case Money(_, _) => Record(Realization(item.aidLineId, item.amount, None), item.beneficiaryId, None, line.aidType)
    case Goods(_, _, _) => Record(Realization(item.aidLineId, None, item.quantity), item.beneficiaryId, item.unit, line.aidType)
  }

  function WithItem<Q>(m: Arithmetic<Q>, lines: seq<AidLine<Q>>, records: seq<Record<Q>>, item: Item<Q>): Result<seq<Record<Q>>, RealizationError>
  {
    var line, rs := LineById(lines, item.aidLineId), Realizations(records);
    match ItemRefusal(m, line, RealizedIdr(rs, item.aidLineId), RealizedQuantity(m, rs, item.aidLineId), item)
    case Some(e) => Err(e)
    case None => Ok(records + [RecordOf(line.value, item)])
  }

  /** One item after the other, each against everything before it; the first refusal refuses all. */
  function WithItems<Q>(m: Arithmetic<Q>, lines: seq<AidLine<Q>>, records: seq<Record<Q>>, items: seq<Item<Q>>): Result<seq<Record<Q>>, RealizationError>
  {
    if items == [] then Ok(records)
    else
      var front := WithItems(m, lines, records, items[..|items| - 1]);
      if front.Err? then front else WithItem(m, lines, front.value, items[|items| - 1])
  }

  function Recorded<Q>(m: Arithmetic<Q>, p: Proposal<Q>, items: seq<Item<Q>>): Result<Proposal<Q>, RealizationError>
  {
    match ValidatedAll(m, items)
    case None => Err(InvalidItem)
    case Some(valid) =>
      match FirstHeld(p.held, valid)
      case Some(id) => Err(HeldForRevision(id))
      case None =>
        match WithItems(m, p.lines, p.records, valid)
        case Err(e) => Err(e)
        case Ok(records) => Ok(p.(records := records))
  }

  // ----- Revising

  /** The lines a revision adds, modifies or removes. */
  function HeldLines<Q(==)>(previous: seq<AidLine<Q>>, revised: seq<AidLine<Q>>): set<Text>
  {
    (set line | line in revised && LineById(previous, line.id) != Some(line) :: line.id) +
    (set line | line in previous && LineById(revised, line.id).None? :: line.id)
  }

  /** `others` are the lines that differ only in what is not modelled of them. */
  function WithRevision<Q(==)>(m: Arithmetic<Q>, p: Proposal<Q>, revised: seq<AidLine<Q>>, others: set<Text>): Result<Proposal<Q>, RevisionError>
  {
    var verdict := Floor(m, p.lines, revised, Realizations(p.records));
    if verdict.Refused? then Err(BelowFloor(verdict))
    else Ok(p.(revision := Some(revised), held := HeldLines(p.lines, revised) + others))
  }

  function Proposed<Q(==)>(m: Arithmetic<Q>, p: Proposal<Q>, revised: seq<AidLine<Q>>, others: set<Text>): Result<Proposal<Q>, RevisionError>
  {
    if p.revision.Some? then Err(RevisionUnderWay) else WithRevision(m, p, revised, others)
  }

  function Amended<Q(==)>(m: Arithmetic<Q>, p: Proposal<Q>, revised: seq<AidLine<Q>>, others: set<Text>): Result<Proposal<Q>, RevisionError>
  {
    if p.revision.None? then Err(NoRevision) else WithRevision(m, p, revised, others)
  }

  /** Withdrawn or rejected. */
  function Dropped<Q>(p: Proposal<Q>): Proposal<Q> { p.(revision := None, held := {}) }

  /** The approved value stands, or the requested one takes its place. */
  function Resolved<Q>(line: AidLine<Q>): AidLine<Q>
  {
    match line.value
    case Money(requested, _) => line.(value := Money(requested, Some(GrantedIdr(line))))
    case Goods(unit, requested, _) => line.(value := Goods(unit, requested, Some(GrantedQuantity(line))))
  }

  function ResolvedAll<Q>(lines: seq<AidLine<Q>>): seq<AidLine<Q>>
  {
    seq(|lines|, i requires 0 <= i < |lines| => Resolved(lines[i]))
  }

  function Approved<Q>(m: Arithmetic<Q>, p: Proposal<Q>): Result<Proposal<Q>, RevisionError>
  {
    if p.revision.None? then Err(NoRevision)
    else
      var verdict := Floor(m, p.lines, p.revision.value, Realizations(p.records));
      if verdict.Refused? then Err(BelowFloor(verdict)) else Ok(Proposal(ResolvedAll(p.revision.value), p.records, None, {}))
  }

  // ----- The stored proposal

  lemma {:induction false} ItemsStayRefused<Q>(m: Arithmetic<Q>, lines: seq<AidLine<Q>>, records: seq<Record<Q>>, items: seq<Item<Q>>, i: nat)
    requires i <= |items| && WithItems(m, lines, records, items[..i]).Err?
    ensures WithItems(m, lines, records, items) == WithItems(m, lines, records, items[..i])
    decreases |items| - i
  {
    if i < |items| {
      assert items[..i + 1][..i] == items[..i];
      ItemsStayRefused(m, lines, records, items, i + 1);
    } else {
      assert items[..i] == items;
    }
  }

  lemma {:induction false} InvalidStays<Q>(m: Arithmetic<Q>, items: seq<Item<Q>>, i: nat)
    requires i <= |items| && ValidatedAll(m, items[..i]).None?
    ensures ValidatedAll(m, items).None?
    decreases |items| - i
  {
    if i < |items| {
      assert items[..i + 1][..i] == items[..i];
      InvalidStays(m, items, i + 1);
    } else {
      assert items[..i] == items;
    }
  }

  lemma {:induction false} HeldStaysFirst<Q>(held: set<Text>, items: seq<Item<Q>>, i: nat)
    requires i <= |items| && FirstHeld(held, items[..i]).Some?
    ensures FirstHeld(held, items) == FirstHeld(held, items[..i])
    decreases |items| - i
  {
    if i < |items| {
      assert items[..i + 1][..i] == items[..i];
      HeldStaysFirst(held, items, i + 1);
    } else {
      assert items[..i] == items;
    }
  }

  method ValidateItems<Q>(m: Arithmetic<Q>, items: seq<Item<Q>>) returns (valid: Option<seq<Item<Q>>>)
    ensures valid == ValidatedAll(m, items)
  {
    var done: seq<Item<Q>> := [];
    for i := 0 to |items|
      invariant ValidatedAll(m, items[..i]) == Some(done)
    {
      assert items[..i + 1][..i] == items[..i];
      var item := Validated(m, items[i]);
      if item.None? {
        InvalidStays(m, items, i + 1);
        return None;
      }
      done := done + [item.value];
    }
    assert items[..|items|] == items;
    return Some(done);
  }

  method CheckHeld<Q>(held: set<Text>, items: seq<Item<Q>>) returns (first: Option<Text>)
    ensures first == FirstHeld(held, items)
  {
    for i := 0 to |items|
      invariant FirstHeld(held, items[..i]).None?
    {
      assert items[..i + 1][..i] == items[..i];
      if items[i].aidLineId in held {
        HeldStaysFirst(held, items, i + 1);
        return Some(items[i].aidLineId);
      }
    }
    assert items[..|items|] == items;
    return None;
  }

  /** What one more accepted item does to the running totals. */
  lemma {:induction false} TotalsWithItem<Q>(m: Arithmetic<Q>, line: AidLine<Q>, records: seq<Record<Q>>, item: Item<Q>, paid: nat, delivered: Q)
    requires paid == RealizedIdr(Realizations(records), item.aidLineId) && delivered == RealizedQuantity(m, Realizations(records), item.aidLineId)
    requires ItemRefusal(m, Some(line), paid, delivered, item).None?
    ensures var (before, after) := (Realizations(records), Realizations(records + [RecordOf(line, item)]));
      IdrTotals(after) == (if line.value.Money? then IdrTotals(before)[item.aidLineId := paid + item.amount.value] else IdrTotals(before)) &&
      QuantityTotals(m, after) ==
        (if line.value.Goods? then QuantityTotals(m, before)[item.aidLineId := m.add(delivered, item.quantity.value)] else QuantityTotals(m, before))
  {
    var before, r := Realizations(records), RecordOf(line, item).what;
    assert Realizations(records + [RecordOf(line, item)]) == before + [r];
    IdrTotalIsRealized(before, item.aidLineId);
    QuantityTotalIsRealized(m, before, item.aidLineId);
    assert IdrTotals(before + [r]) == WithIdr(IdrTotals(before), r);
    assert QuantityTotals(m, before + [r]) == WithQuantity(m, QuantityTotals(m, before), r);
  }

  class ProposalBook<Q(==)> {
    var lines: seq<AidLine<Q>>
    var records: seq<Record<Q>>
    var revision: Option<seq<AidLine<Q>>>
    var held: set<Text>

    ghost function State(): Proposal<Q>
      reads this
    {
      Proposal(lines, records, revision, held)
    }

    constructor (decided: seq<AidLine<Q>>)
      ensures State() == Proposal(decided, [], None, {})
    {
      lines, records, revision, held := decided, [], None, {};
    }

    /** Appends the items one by one against running totals, or gives the first refusal. */
    method AppendItems(m: Arithmetic<Q>, items: seq<Item<Q>>) returns (outcome: Result<seq<Record<Q>>, RealizationError>)
      ensures outcome == WithItems(m, lines, records, items)
    {
      var idr, quantity, _, _ := AccumulateRealizedPerLine(m, Realizations(records));
      var all := records;
      for i := 0 to |items|
        invariant WithItems(m, lines, records, items[..i]) == Ok(all)
        invariant idr == IdrTotals(Realizations(all)) && quantity == QuantityTotals(m, Realizations(all))
      {
        assert items[..i + 1][..i] == items[..i];
        var item, line := items[i], LineById(lines, items[i].aidLineId);
        IdrTotalIsRealized(Realizations(all), item.aidLineId);
        QuantityTotalIsRealized(m, Realizations(all), item.aidLineId);
        var paid := if item.aidLineId in idr then idr[item.aidLineId] else 0;
        var delivered := if item.aidLineId in quantity then quantity[item.aidLineId] else m.zero;
        var refusal := ItemRefusal(m, line, paid, delivered, item);
        if refusal.Some? {
          ItemsStayRefused(m, lines, records, items, i + 1);
          return Err(refusal.value);
        }
        TotalsWithItem(m, line.value, all, item, paid, delivered);
        if line.value.value.Goods? {
          quantity := quantity[item.aidLineId := m.add(delivered, item.quantity.value)];
        } else {
          idr := idr[item.aidLineId := paid + item.amount.value];
        }
        all := all + [RecordOf(line.value, item)];
      }
      assert items[..|items|] == items;
      return Ok(all);
    }

    method RecordRealizations(m: Arithmetic<Q>, items: seq<Item<Q>>) returns (refusal: Option<RealizationError>)
      modifies this
      ensures match Recorded(m, old(State()), items)
              case Ok(next) => refusal == None && State() == next
              case Err(e) => refusal == Some(e) && State() == old(State())
    {
      var valid := ValidateItems(m, items);
      if valid.None? { return Some(InvalidItem); }
      var first := CheckHeld(held, valid.value);
      if first.Some? { return Some(HeldForRevision(first.value)); }
      var outcome := AppendItems(m, valid.value);
      if outcome.Err? { return Some(outcome.error); }
      records := outcome.value;
      return None;
    }

    method StoreRevision(m: Arithmetic<Q>, revised: seq<AidLine<Q>>, others: set<Text>) returns (refusal: Option<RevisionError>)
      modifies this
      ensures match WithRevision(m, old(State()), revised, others)
              case Ok(next) => refusal == None && State() == next
              case Err(e) => refusal == Some(e) && State() == old(State())
    {
      var verdict := ValidateRevisionFloor(m, lines, revised, Realizations(records));
      if verdict.Refused? { return Some(BelowFloor(verdict)); }
      revision, held := Some(revised), HeldLines(lines, revised) + others;
      return None;
    }

    method ProposeRevision(m: Arithmetic<Q>, revised: seq<AidLine<Q>>, others: set<Text>) returns (refusal: Option<RevisionError>)
      modifies this
      ensures match Proposed(m, old(State()), revised, others)
              case Ok(next) => refusal == None && State() == next
              case Err(e) => refusal == Some(e) && State() == old(State())
    {
      if revision.Some? { return Some(RevisionUnderWay); }
      refusal := StoreRevision(m, revised, others);
    }

    method AmendRevision(m: Arithmetic<Q>, revised: seq<AidLine<Q>>, others: set<Text>) returns (refusal: Option<RevisionError>)
      modifies this
      ensures match Amended(m, old(State()), revised, others)
              case Ok(next) => refusal == None && State() == next
              case Err(e) => refusal == Some(e) && State() == old(State())
    {
      if revision.None? { return Some(NoRevision); }
      refusal := StoreRevision(m, revised, others);
    }

    method DropRevision()
      modifies this
      ensures State() == Dropped(old(State()))
    {
      revision, held := None, {};
    }

    method ApproveRevision(m: Arithmetic<Q>) returns (refusal: Option<RevisionError>)
      modifies this
      ensures match Approved(m, old(State()))
              case Ok(next) => refusal == None && State() == next
              case Err(e) => refusal == Some(e) && State() == old(State())
    {
      if revision.None? { return Some(NoRevision); }
      var verdict := ValidateRevisionFloor(m, lines, revision.value, Realizations(records));
      if verdict.Refused? { return Some(BelowFloor(verdict)); }
      lines, revision, held := ResolvedAll(revision.value), None, {};
      return None;
    }
  }
}
