/**
 When a realization is stored, which lines a revision holds back, when a revision goes through and what
 it leaves, and what a closure says of each line, all said of the fields of lines, items and records.
 */
module ProposalRules {
  import opened Options
  import opened Texts
  import opened Quantities
  import opened RevisionFloor
  import opened RemainderClosure
  import opened ProposalRealization

  // ----- Rights

  /** What a line may pay out: what was approved. */
  predicate PaysUpTo<Q>(line: AidLine<Q>, amount: nat)
  {
    line.value.Money? && if line.value.approvedIdr.Some? then amount <= line.value.approvedIdr.value else amount == 0
  }

  /** What a line may hand over: what was approved, or what was requested while nothing is approved. */
  ghost predicate GivesUpTo<Q>(m: Arithmetic<Q>, line: AidLine<Q>, quantity: real)
  {
    line.value.Goods? && quantity <= m.value(if line.value.approved.Some? then line.value.approved.value else line.value.requested)
  }

  // ----- One item

  /** A readable item: a handover of something in some unit, or a payment of something. */
  ghost predicate Readable<Q>(m: Arithmetic<Q>, item: Item<Q>)
  {
    item.aidLineId != [] && item.beneficiaryId != [] &&
    if item.mode == GoodsHandover then
      item.quantity.Some? && m.value(item.quantity.value) > 0.0 && item.unit.Some? && item.unit.value != []
    else item.amount.Some? && item.amount.value != 0
  }

  /** What is read of it: a payment carries no goods. */
  ghost predicate ReadAs<Q>(item: Item<Q>, read: Item<Q>)
  {
    read.aidLineId == item.aidLineId && read.beneficiaryId == item.beneficiaryId && read.mode == item.mode &&
    if item.mode == GoodsHandover then read.quantity == item.quantity && read.unit == item.unit
    else read.amount == item.amount && read.quantity.None? && read.unit.None?
  }

  lemma {:induction false} ValidatedExactlyWhen<Q(!new)>(m: Arithmetic<Q>, item: Item<Q>)
    requires Exact(m)
    ensures Validated(m, item).Some? <==> Readable(m, item)
    ensures Validated(m, item).Some? ==> ReadAs(item, Validated(m, item).value)
  {
    assert m.value(m.zero) == 0.0;
  }

  /** The item is of a line of its recipient, in the line's own form and unit, and within what the line may still give. */
  ghost predicate MayRecord<Q>(m: Arithmetic<Q>, lines: seq<AidLine<Q>>, rs: seq<Realization<Q>>, item: Item<Q>)
  {
    match LineById(lines, item.aidLineId)
    case None => false
    case Some(line) =>
      line.beneficiaryId == item.beneficiaryId &&
      if line.value.Money? then
        item.mode != GoodsHandover && item.amount.Some? && PaysUpTo(line, RealizedIdr(rs, item.aidLineId) + item.amount.value)
      else
        item.mode == GoodsHandover && item.quantity.Some? && item.unit.Some? && item.unit.value != [] && item.unit.value == line.value.unit &&
        GivesUpTo(m, line, m.value(RealizedQuantity(m, rs, item.aidLineId)) + m.value(item.quantity.value))
  }

  /** A record holds the item as its line's form calls for, under the aid type the line has. */
  ghost predicate IsRecordOf<Q>(r: Record<Q>, item: Item<Q>, line: AidLine<Q>)
  {
    r.what.aidLineId == item.aidLineId && r.beneficiaryId == item.beneficiaryId && r.aidType == line.aidType &&
    if line.value.Money? then r.what.amount == item.amount && r.what.quantity == None && r.unit == None
    else r.what.amount == None && r.what.quantity == item.quantity && r.unit == item.unit
  }

  lemma {:induction false} ItemExactlyWhen<Q(!new)>(m: Arithmetic<Q>, lines: seq<AidLine<Q>>, records: seq<Record<Q>>, item: Item<Q>)
    requires Exact(m)
    ensures WithItem(m, lines, records, item).Ok? <==> MayRecord(m, lines, Realizations(records), item)
    ensures WithItem(m, lines, records, item).Ok? ==>
      var after := WithItem(m, lines, records, item).value;
      |after| == |records| + 1 && after[..|records|] == records && IsRecordOf(after[|records|], item, LineById(lines, item.aidLineId).value)
  {
  }

  // ----- A batch

  /** The items are recorded one after the other on top of the records, each when its turn comes. */
  ghost predicate RecordsInTurn<Q>(m: Arithmetic<Q>, lines: seq<AidLine<Q>>, records: seq<Record<Q>>, items: seq<Item<Q>>, after: seq<Record<Q>>)
  {
    |after| == |records| + |items| && after[..|records|] == records &&
    forall i | 0 <= i < |items| ::
      MayRecord(m, lines, Realizations(after[..|records| + i]), items[i]) &&
      IsRecordOf(after[|records| + i], items[i], LineById(lines, items[i].aidLineId).value)
  }

  lemma {:induction false} OneMoreInTurn<Q(!new)>(
      m: Arithmetic<Q>, lines: seq<AidLine<Q>>, records: seq<Record<Q>>, items: seq<Item<Q>>, before: seq<Record<Q>>, item: Item<Q>, r: Record<Q>)
    requires RecordsInTurn(m, lines, records, items, before)
    requires MayRecord(m, lines, Realizations(before), item) && IsRecordOf(r, item, LineById(lines, item.aidLineId).value)
    ensures RecordsInTurn(m, lines, records, items + [item], before + [r])
  {
    var (all, after) := (items + [item], before + [r]);
    assert after[..|records|] == before[..|records|];
    forall i | 0 <= i < |all|
      ensures MayRecord(m, lines, Realizations(after[..|records| + i]), all[i]) &&
              IsRecordOf(after[|records| + i], all[i], LineById(lines, all[i].aidLineId).value)
    {
      assert after[..|records| + i] == before[..|records| + i];
      if i < |items| {
        assert all[i] == items[i] && after[|records| + i] == before[|records| + i];
      } else {
        assert before[..|before|] == before;
      }
    }
  }

  lemma {:induction false} ItemsInTurn<Q(!new)>(m: Arithmetic<Q>, lines: seq<AidLine<Q>>, records: seq<Record<Q>>, items: seq<Item<Q>>)
    requires Exact(m) && WithItems(m, lines, records, items).Ok?
    ensures RecordsInTurn(m, lines, records, items, WithItems(m, lines, records, items).value)
  {
    var after := WithItems(m, lines, records, items).value;
    if items != [] {
      var front, item := items[..|items| - 1], items[|items| - 1];
      var before := WithItems(m, lines, records, front).value;
      ItemsInTurn(m, lines, records, front);
      ItemExactlyWhen(m, lines, before, item);
      OneMoreInTurn(m, lines, records, front, before, item, after[|before|]);
      assert items == front + [item] && after == before + [after[|before|]];
    } else {
      assert after[..|records|] == records;
    }
  }

  lemma {:induction false} PrefixInTurn<Q(!new)>(m: Arithmetic<Q>, lines: seq<AidLine<Q>>, records: seq<Record<Q>>, items: seq<Item<Q>>, after: seq<Record<Q>>)
    requires items != [] && RecordsInTurn(m, lines, records, items, after)
    ensures RecordsInTurn(m, lines, records, items[..|items| - 1], after[..|after| - 1])
  {
    var front, prefix := items[..|items| - 1], after[..|after| - 1];
    assert prefix[..|records|] == after[..|records|];
    forall i | 0 <= i < |front|
      ensures MayRecord(m, lines, Realizations(prefix[..|records| + i]), front[i]) &&
              IsRecordOf(prefix[|records| + i], front[i], LineById(lines, front[i].aidLineId).value)
    {
      assert prefix[..|records| + i] == after[..|records| + i] && front[i] == items[i];
    }
  }

  lemma {:induction false} LastTurn<Q(!new)>(m: Arithmetic<Q>, lines: seq<AidLine<Q>>, records: seq<Record<Q>>, items: seq<Item<Q>>, after: seq<Record<Q>>)
    returns (item: Item<Q>, before: seq<Record<Q>>, r: Record<Q>)
    requires items != [] && RecordsInTurn(m, lines, records, items, after)
    ensures item == items[|items| - 1] && before == after[..|after| - 1] && after == before + [r]
    ensures MayRecord(m, lines, Realizations(before), item) && IsRecordOf(r, item, LineById(lines, item.aidLineId).value)
  {
    var n := |items| - 1;
    item, before, r := items[n], after[..|after| - 1], after[|after| - 1];
    assert after[..|records| + n] == before && after[|records| + n] == r;
  }

  /** When every item may be recorded in its turn, the batch goes through. */
  lemma {:induction false} InTurnGoesThrough<Q(!new)>(m: Arithmetic<Q>, lines: seq<AidLine<Q>>, records: seq<Record<Q>>, items: seq<Item<Q>>, after: seq<Record<Q>>)
    requires Exact(m) && RecordsInTurn(m, lines, records, items, after)
    ensures WithItems(m, lines, records, items) == Ok(after)
  {
    if items == [] {
      assert after[..|records|] == after;
    } else {
      var item, before, r := LastTurn(m, lines, records, items, after);
      PrefixInTurn(m, lines, records, items, after);
      InTurnGoesThrough(m, lines, records, items[..|items| - 1], before);
      LastInTurn(m, lines, before, item, r);
    }
  }

  lemma {:induction false} LastInTurn<Q(!new)>(m: Arithmetic<Q>, lines: seq<AidLine<Q>>, records: seq<Record<Q>>, item: Item<Q>, r: Record<Q>)
    requires Exact(m) && MayRecord(m, lines, Realizations(records), item) && IsRecordOf(r, item, LineById(lines, item.aidLineId).value)
    ensures WithItem(m, lines, records, item) == Ok(records + [r])
  {
    ItemExactlyWhen(m, lines, records, item);
  }

  lemma {:induction false} ValidatedAllExactlyWhen<Q(!new)>(m: Arithmetic<Q>, items: seq<Item<Q>>)
    requires Exact(m)
    ensures ValidatedAll(m, items).Some? <==> forall i | 0 <= i < |items| :: Readable(m, items[i])
    ensures ValidatedAll(m, items).Some? ==>
      |ValidatedAll(m, items).value| == |items| && forall i | 0 <= i < |items| :: ReadAs(items[i], ValidatedAll(m, items).value[i])
  {
    if items != [] {
      var n := |items| - 1;
      ValidatedAllExactlyWhen(m, items[..n]);
      ValidatedExactlyWhen(m, items[n]);
      assert forall i | 0 <= i < n :: items[..n][i] == items[i];
    }
  }

  lemma {:induction false} FirstHeldTells<Q>(held: set<Text>, items: seq<Item<Q>>)
    ensures FirstHeld(held, items).None? <==> forall i | 0 <= i < |items| :: items[i].aidLineId !in held
    ensures FirstHeld(held, items).Some? ==> FirstHeld(held, items).value in held
  {
    if items != [] {
      var n := |items| - 1;
      FirstHeldTells(held, items[..n]);
      assert forall i | 0 <= i < n :: items[..n][i] == items[i];
    }
  }

  lemma {:induction false} ReadRecordsTheSame<Q(!new)>(m: Arithmetic<Q>, lines: seq<AidLine<Q>>, rs: seq<Realization<Q>>, item: Item<Q>, read: Item<Q>, r: Record<Q>)
    requires ReadAs(item, read)
    ensures MayRecord(m, lines, rs, item) <==> MayRecord(m, lines, rs, read)
    ensures MayRecord(m, lines, rs, item) ==>
      var line := LineById(lines, item.aidLineId).value; IsRecordOf(r, item, line) <==> IsRecordOf(r, read, line)
  {
  }

  lemma {:induction false} InTurnAsRead<Q(!new)>(
      m: Arithmetic<Q>, lines: seq<AidLine<Q>>, records: seq<Record<Q>>, items: seq<Item<Q>>, read: seq<Item<Q>>, after: seq<Record<Q>>)
    requires |read| == |items| && forall i | 0 <= i < |items| :: ReadAs(items[i], read[i])
    ensures RecordsInTurn(m, lines, records, items, after) <==> RecordsInTurn(m, lines, records, read, after)
  {
    if |after| == |records| + |items| {
      forall i | 0 <= i < |items|
        ensures MayRecord(m, lines, Realizations(after[..|records| + i]), items[i]) <==> MayRecord(m, lines, Realizations(after[..|records| + i]), read[i])
        ensures MayRecord(m, lines, Realizations(after[..|records| + i]), items[i]) ==>
          var line := LineById(lines, items[i].aidLineId).value;
          IsRecordOf(after[|records| + i], items[i], line) <==> IsRecordOf(after[|records| + i], read[i], line)
      {
        ReadRecordsTheSame(m, lines, Realizations(after[..|records| + i]), items[i], read[i], after[|records| + i]);
      }
    }
  }

  /**
   A batch is stored exactly when every item can be read, none is on a line held back, and each may be
   recorded in its turn; then it is stored whole, and nothing else changes.
   */
  lemma {:induction false} BatchStoredExactlyWhen<Q(!new)>(m: Arithmetic<Q>, p: Proposal<Q>, items: seq<Item<Q>>, end: Proposal<Q>)
    requires Exact(m)
    ensures Recorded(m, p, items) == Ok(end) <==>
      (forall i | 0 <= i < |items| :: Readable(m, items[i]) && items[i].aidLineId !in p.held) &&
      end == p.(records := end.records) && RecordsInTurn(m, p.lines, p.records, items, end.records)
  {
    ValidatedAllExactlyWhen(m, items);
    if ValidatedAll(m, items).Some? {
      var read := ValidatedAll(m, items).value;
      FirstHeldTells(p.held, read);
      InTurnAsRead(m, p.lines, p.records, items, read, end.records);
      assert (forall i | 0 <= i < |items| :: items[i].aidLineId !in p.held) <==> FirstHeld(p.held, read).None? by {
        assert forall i | 0 <= i < |items| :: ReadAs(items[i], read[i]);
      }
      if WithItems(m, p.lines, p.records, read).Ok? { ItemsInTurn(m, p.lines, p.records, read); }
      if RecordsInTurn(m, p.lines, p.records, read, end.records) { InTurnGoesThrough(m, p.lines, p.records, read, end.records); }
    }
  }

  /** What a refusal says of the item it names. */
  ghost predicate ItemRefusalHolds<Q>(m: Arithmetic<Q>, lines: seq<AidLine<Q>>, rs: seq<Realization<Q>>, item: Item<Q>, e: RealizationError)
  {
    var line := LineById(lines, item.aidLineId);
    match e
    case InvalidItem => false
    case HeldForRevision(_) => false
    case NoLine(id) => id == item.aidLineId && line.None?
    case WrongRecipient(id) => id == item.aidLineId && line.Some? && line.value.beneficiaryId != item.beneficiaryId
    case NeedsGoods(id) =>
      id == item.aidLineId && line.Some? && line.value.value.Goods? &&
      (item.mode != GoodsHandover || item.quantity.None? || item.unit.None? || item.unit.value == [])
    case WrongUnit(id) => id == item.aidLineId && line.Some? && line.value.value.Goods? && item.unit.Some? && item.unit.value != line.value.value.unit
    case NeedsMoney(id) => id == item.aidLineId && line.Some? && line.value.value.Money? && (item.mode == GoodsHandover || item.amount.None?)
    case OverRight(id) => id == item.aidLineId && line.Some? && ExceedsRight(m, line.value, rs, item)
  }

  ghost predicate ExceedsRight<Q>(m: Arithmetic<Q>, line: AidLine<Q>, rs: seq<Realization<Q>>, item: Item<Q>)
  {
    if line.value.Money? then item.amount.Some? && !PaysUpTo(line, RealizedIdr(rs, item.aidLineId) + item.amount.value)
    else item.quantity.Some? && !GivesUpTo(m, line, m.value(RealizedQuantity(m, rs, item.aidLineId)) + m.value(item.quantity.value))
  }

  lemma {:induction false} ItemRefusalIsSo<Q(!new)>(m: Arithmetic<Q>, lines: seq<AidLine<Q>>, records: seq<Record<Q>>, item: Item<Q>)
    requires Exact(m) && WithItem(m, lines, records, item).Err?
    ensures ItemRefusalHolds(m, lines, Realizations(records), item, WithItem(m, lines, records, item).error)
  {
  }

  /** The first item that may not be recorded in its turn is the one refused, and for what is wrong with it. */
  lemma {:induction false} BatchRefusalIsSo<Q(!new)>(m: Arithmetic<Q>, lines: seq<AidLine<Q>>, records: seq<Record<Q>>, items: seq<Item<Q>>)
    returns (i: nat, before: seq<Record<Q>>)
    requires Exact(m) && WithItems(m, lines, records, items).Err?
    ensures i < |items| && RecordsInTurn(m, lines, records, items[..i], before)
    ensures ItemRefusalHolds(m, lines, Realizations(before), items[i], WithItems(m, lines, records, items).error)
  {
    var n := |items| - 1;
    var front := WithItems(m, lines, records, items[..n]);
    if front.Err? {
      i, before := BatchRefusalIsSo(m, lines, records, items[..n]);
      assert items[..n][..i] == items[..i];
    } else {
      i, before := n, front.value;
      ItemsInTurn(m, lines, records, items[..n]);
      ItemRefusalIsSo(m, lines, before, items[n]);
    }
  }

  /** A batch is refused for an item that cannot be read, for one on a line held back, or for the first that may not be recorded in its turn. */
  lemma {:induction false} RecordingRefusalIsSo<Q(!new)>(m: Arithmetic<Q>, p: Proposal<Q>, items: seq<Item<Q>>) returns (i: nat, read: Item<Q>, before: seq<Record<Q>>)
    requires Exact(m) && Recorded(m, p, items).Err?
    ensures i < |items|
    ensures var e := Recorded(m, p, items).error;
      if e.InvalidItem? then !Readable(m, items[i])
      else
        ReadAs(items[i], read) &&
        if e.HeldForRevision? then e.id == items[i].aidLineId && e.id in p.held
        else |before| == |p.records| + i && before[..|p.records|] == p.records && ItemRefusalHolds(m, p.lines, Realizations(before), read, e)
  {
    ValidatedAllExactlyWhen(m, items);
    var valid := ValidatedAll(m, items);
    before := p.records;
    if valid.None? {
      i :| 0 <= i < |items| && !Readable(m, items[i]);
      read := items[i];
    } else if FirstHeld(p.held, valid.value).Some? {
      HeldIsOnItem(p.held, valid.value);
      i :| 0 <= i < |valid.value| && valid.value[i].aidLineId == FirstHeld(p.held, valid.value).value;
      read := valid.value[i];
    } else {
      i, before := BatchRefusalIsSo(m, p.lines, p.records, valid.value);
      read := valid.value[i];
    }
  }

  lemma {:induction false} HeldIsOnItem<Q>(held: set<Text>, items: seq<Item<Q>>)
    requires FirstHeld(held, items).Some?
    ensures FirstHeld(held, items).value in held && exists i | 0 <= i < |items| :: items[i].aidLineId == FirstHeld(held, items).value
  {
    var n := |items| - 1;
    if FirstHeld(held, items[..n]).Some? {
      HeldIsOnItem(held, items[..n]);
      var i :| 0 <= i < n && items[..n][i].aidLineId == FirstHeld(held, items).value;
      assert items[i].aidLineId == FirstHeld(held, items).value;
    } else {
      assert items[n].aidLineId == FirstHeld(held, items).value;
    }
  }

  // ----- Lines held back

  /** With no id twice, exactly the lines that differ between the versions are held back. */
  lemma {:induction false} HeldExactlyWhen<Q>(previous: seq<AidLine<Q>>, revised: seq<AidLine<Q>>, id: Text)
    requires UniqueLines(previous) && UniqueLines(revised)
    ensures id in HeldLines(previous, revised) <==> LineById(previous, id) != LineById(revised, id)
  {
    LineByIdFinds(previous, id);
    LineByIdFinds(revised, id);
    if LineById(revised, id).Some? {
      var i :| 0 <= i < |revised| && revised[i] == LineById(revised, id).value;
      forall j | 0 <= j < |revised| && revised[j].id == id ensures revised[j] == LineById(revised, id).value {
        assert i == j;
      }
    }
    if LineById(previous, id).Some? { assert LineById(previous, id).value in previous; }
  }

  /** Looked up by an id that stands once, a line is that line. */
  lemma {:induction false} LookupTells<Q>(lines: seq<AidLine<Q>>, id: Text)
    ensures LineById(lines, id).None? <==> forall i | 0 <= i < |lines| :: lines[i].id != id
    ensures LineById(lines, id).Some? ==>
      exists i | 0 <= i < |lines| :: lines[i] == LineById(lines, id).value && lines[i].id == id && forall j | i < j < |lines| :: lines[j].id != id
  {
    if lines != [] {
      var n := |lines| - 1;
      LookupTells(lines[..n], id);
      assert forall i | 0 <= i < n :: lines[..n][i] == lines[i];
      if lines[n].id != id && LineById(lines[..n], id).Some? {
        var i :| 0 <= i < n && lines[..n][i] == LineById(lines[..n], id).value && lines[..n][i].id == id && forall j | i < j < n :: lines[..n][j].id != id;
        assert lines[i] == LineById(lines, id).value;
      }
    }
  }

  // ----- Revising

  /** Everything realized on a line of the version in force is covered by the revised line. */
  ghost predicate StillCovers<Q(!new)>(m: Arithmetic<Q>, lines: seq<AidLine<Q>>, revised: seq<AidLine<Q>>, rs: seq<Realization<Q>>, id: Text)
  {
    var before, after := LineById(lines, id), LineById(revised, id);
    (RealizedIdr(rs, id) > 0 ==>
      after.Some? && after.value.value.Money? && (before.Some? ==> after.value.beneficiaryId == before.value.beneficiaryId) &&
      RealizedIdr(rs, id) <= if after.value.value.approvedIdr.Some? then after.value.value.approvedIdr.value else after.value.value.requestedIdr) &&
    (m.value(RealizedQuantity(m, rs, id)) > 0.0 ==>
      after.Some? && (before.Some? ==> after.value.beneficiaryId == before.value.beneficiaryId) &&
      GivesUpTo(m, after.value, m.value(RealizedQuantity(m, rs, id))) &&
      (before.Some? && before.value.value.Goods? ==> after.value.value.unit == before.value.value.unit))
  }

  lemma {:induction false} FloorExactlyWhen<Q(!new)>(m: Arithmetic<Q>, lines: seq<AidLine<Q>>, revised: seq<AidLine<Q>>, rs: seq<Realization<Q>>)
    requires Exact(m)
    ensures Floor(m, lines, revised, rs) == Accepted <==> forall id: Text :: StillCovers(m, lines, revised, rs, id)
  {
    FloorAcceptsExactly(m, lines, revised, rs);
    forall id: Text
      ensures StillCovers(m, lines, revised, rs, id) <==> MoneyCovered(lines, revised, rs, id) && GoodsCovered(m, lines, revised, rs, id)
    {
    }
  }

  /** A revision is stored when no other is under way, one under way is replaced, and the one under way goes through, each exactly when it covers what is realized. */
  lemma {:induction false} RevisionsExactlyWhen<Q(!new)>(m: Arithmetic<Q>, p: Proposal<Q>, revised: seq<AidLine<Q>>, others: set<Text>)
    requires Exact(m)
    ensures Proposed(m, p, revised, others).Ok? <==> p.revision.None? && forall id: Text :: StillCovers(m, p.lines, revised, Realizations(p.records), id)
    ensures Amended(m, p, revised, others).Ok? <==> p.revision.Some? && forall id: Text :: StillCovers(m, p.lines, revised, Realizations(p.records), id)
    ensures Proposed(m, p, revised, others).Ok? ==>
      Proposed(m, p, revised, others).value == p.(revision := Some(revised), held := HeldLines(p.lines, revised) + others)
    ensures Amended(m, p, revised, others).Ok? ==>
      Amended(m, p, revised, others).value == p.(revision := Some(revised), held := HeldLines(p.lines, revised) + others)
  {
    FloorExactlyWhen(m, p.lines, revised, Realizations(p.records));
  }

  /** A line as a decision fixes it: all as revised, with the approved value set to itself or to what was requested. */
  ghost predicate IsFixed<Q>(line: AidLine<Q>, decided: AidLine<Q>)
  {
    decided.id == line.id && decided.beneficiaryId == line.beneficiaryId && decided.aidType == line.aidType &&
    match line.value
    case Money(requested, approved) => decided.value == Money(requested, Some(if approved.Some? then approved.value else requested))
    case Goods(unit, requested, approved) => decided.value == Goods(unit, requested, Some(if approved.Some? then approved.value else requested))
  }

  lemma {:induction false} ApprovedExactlyWhen<Q(!new)>(m: Arithmetic<Q>, p: Proposal<Q>)
    requires Exact(m)
    ensures Approved(m, p).Ok? <==>
      p.revision.Some? && forall id: Text :: StillCovers(m, p.lines, p.revision.value, Realizations(p.records), id)
    ensures Approved(m, p).Ok? ==>
      var end := Approved(m, p).value;
      |end.lines| == |p.revision.value| && (forall i | 0 <= i < |end.lines| :: IsFixed(p.revision.value[i], end.lines[i])) &&
      end.records == p.records && end.revision == None && end.held == {}
  {
    if p.revision.Some? { FloorExactlyWhen(m, p.lines, p.revision.value, Realizations(p.records)); }
  }

  // ----- Refused revisions

  /** What a refusal says of its line. */
  ghost predicate RefusalIsSo<Q>(m: Arithmetic<Q>, lines: seq<AidLine<Q>>, revised: seq<AidLine<Q>>, rs: seq<Realization<Q>>, id: Text, reason: Reason)
  {
    var before, after := LineById(lines, id), LineById(revised, id);
    var (paid, given) := (RealizedIdr(rs, id), m.value(RealizedQuantity(m, rs, id)));
    (paid > 0 || given > 0.0) &&
    match reason
    case LineDeleted => after.None?
    case HolderChanged => before.Some? && after.Some? && after.value.beneficiaryId != before.value.beneficiaryId
    case KindChanged => after.Some? && ((paid > 0 && after.value.value.Goods?) || (given > 0.0 && after.value.value.Money?))
    case UnitChanged => before.Some? && after.Some? && before.value.value.Goods? && after.value.value.Goods? && after.value.value.unit != before.value.value.unit
    case BelowRealized => after.Some? && FallsBelow(m, after.value, paid, given)
  }

  ghost predicate FallsBelow<Q>(m: Arithmetic<Q>, line: AidLine<Q>, paid: nat, given: real)
  {
    match line.value
    case Money(requested, approved) => paid > if approved.Some? then approved.value else requested
    case Goods(_, requested, approved) => given > m.value(if approved.Some? then approved.value else requested)
  }

  lemma {:induction false} MoneyRefusalIsSo<Q(!new)>(m: Arithmetic<Q>, lines: seq<AidLine<Q>>, revised: seq<AidLine<Q>>, rs: seq<Realization<Q>>, ids: seq<Text>)
    requires MoneyVerdict(lines, revised, rs, ids).Refused?
    ensures var v := MoneyVerdict(lines, revised, rs, ids); RefusalIsSo(m, lines, revised, rs, v.aidLineId, v.reason)
  {
    if MoneyVerdict(lines, revised, rs, ids[..|ids| - 1]).Refused? { MoneyRefusalIsSo(m, lines, revised, rs, ids[..|ids| - 1]); }
  }

  lemma {:induction false} GoodsRefusalIsSo<Q(!new)>(m: Arithmetic<Q>, lines: seq<AidLine<Q>>, revised: seq<AidLine<Q>>, rs: seq<Realization<Q>>, ids: seq<Text>)
    requires Exact(m) && GoodsVerdict(m, lines, revised, rs, ids).Refused?
    ensures var v := GoodsVerdict(m, lines, revised, rs, ids); RefusalIsSo(m, lines, revised, rs, v.aidLineId, v.reason)
  {
    assert m.value(m.zero) == 0.0;
    if GoodsVerdict(m, lines, revised, rs, ids[..|ids| - 1]).Refused? { GoodsRefusalIsSo(m, lines, revised, rs, ids[..|ids| - 1]); }
  }

  /** A refused revision names a line with something realized, and what is wrong with it. */
  lemma {:induction false} FloorRefusalIsSo<Q(!new)>(m: Arithmetic<Q>, lines: seq<AidLine<Q>>, revised: seq<AidLine<Q>>, rs: seq<Realization<Q>>)
    requires Exact(m) && Floor(m, lines, revised, rs).Refused?
    ensures var v := Floor(m, lines, revised, rs); RefusalIsSo(m, lines, revised, rs, v.aidLineId, v.reason)
  {
    if MoneyVerdict(lines, revised, rs, PaidLines(rs)).Refused? {
      MoneyRefusalIsSo(m, lines, revised, rs, PaidLines(rs));
    } else {
      GoodsRefusalIsSo(m, lines, revised, rs, DeliveredLines(rs));
    }
  }

  // ----- Closing

  /** An entry tells its line: approved, realized, and what of the one the other leaves. */
  ghost predicate EntryTells<Q>(m: Arithmetic<Q>, e: LineRemainder<Q>, line: AidLine<Q>, rs: seq<Realization<Q>>)
  {
    e.aidLineId == line.id && e.beneficiaryId == line.beneficiaryId && e.aidType == line.aidType &&
    match line.value
    case Money(_, approved) =>
      e.MoneyRemainder? && e.approved == (if approved.Some? then approved.value else 0) && e.realized == RealizedIdr(rs, line.id) &&
      (e.realized <= e.approved ==> e.realized + e.remainder == e.approved) && (e.realized > e.approved ==> e.remainder == 0)
    case Goods(unit, requested, approved) =>
      e.GoodsRemainder? && e.unit == unit && e.approvedGoods == (if approved.Some? then approved.value else requested) &&
      e.realizedGoods == RealizedQuantity(m, rs, line.id) &&
      var (granted, given, left) := (m.value(e.approvedGoods), m.value(e.realizedGoods), m.value(e.remainderGoods));
      (given <= granted ==> given + left == granted) && (given > granted ==> left == 0.0)
  }

  lemma {:induction false} ClosureTellsEachLine<Q(!new)>(m: Arithmetic<Q>, lines: seq<AidLine<Q>>, rs: seq<Realization<Q>>, i: nat)
    requires Exact(m) && i < |lines|
    ensures |ClosureOf(m, lines, rs).lines| == |lines| && EntryTells(m, ClosureOf(m, lines, rs).lines[i], lines[i], rs)
  {
    assert m.value(m.zero) == 0.0;
    var front := lines[..|lines| - 1];
    OneEntryPerLine(m, front, rs);
    if i < |front| { ClosureTellsEachLine(m, front, rs, i); }
  }

  /** What the entries of money lines, and of goods of a kind and unit, add up to. */
  function MoneySum<Q>(es: seq<LineRemainder<Q>>, of: LineRemainder<Q> -> nat): nat
  {
    if es == [] then 0 else MoneySum(es[..|es| - 1], of) + (if es[|es| - 1].MoneyRemainder? then of(es[|es| - 1]) else 0)
  }

  ghost function GoodsSum<Q>(m: Arithmetic<Q>, es: seq<LineRemainder<Q>>, key: GoodsKey, of: LineRemainder<Q> -> Q): real
  {
    if es == [] then 0.0
    else
      var e := es[|es| - 1];
      GoodsSum(m, es[..|es| - 1], key, of) + (if e.GoodsRemainder? && e.aidType == key.0 && e.unit == key.1 then m.value(of(e)) else 0.0)
  }

  function ApprovedOf<Q>(e: LineRemainder<Q>): nat { if e.MoneyRemainder? then e.approved else 0 }
  function RealizedOf<Q>(e: LineRemainder<Q>): nat { if e.MoneyRemainder? then e.realized else 0 }
  function LeftOf<Q>(e: LineRemainder<Q>): nat { if e.MoneyRemainder? then e.remainder else 0 }

  lemma {:induction false} MoneySnoc<Q>(es: seq<LineRemainder<Q>>, e: LineRemainder<Q>, of: LineRemainder<Q> -> nat)
    ensures MoneySum(es + [e], of) == MoneySum(es, of) + (if e.MoneyRemainder? then of(e) else 0)
  {
    assert (es + [e])[..|es|] == es;
  }

  /** The rupiah totals are the sums over the entries of money lines. */
  lemma {:induction false} MoneyTotalsAddUp<Q>(m: Arithmetic<Q>, lines: seq<AidLine<Q>>, rs: seq<Realization<Q>>)
    ensures var c := ClosureOf(m, lines, rs);
      c.approvedIdr == MoneySum(c.lines, ApprovedOf) && c.realizedIdr == MoneySum(c.lines, RealizedOf) && c.remainderIdr == MoneySum(c.lines, LeftOf)
  {
    if lines != [] {
      var line := lines[|lines| - 1];
      var front := ClosureOf(m, lines[..|lines| - 1], rs);
      var e := RemainderOf(m, line, RealizedIdr(rs, line.id), RealizedQuantity(m, rs, line.id));
      MoneyTotalsAddUp(m, lines[..|lines| - 1], rs);
      assert ClosureOf(m, lines, rs) == WithLine(m, front, e) && WithLine(m, front, e).lines == front.lines + [e];
      MoneySnoc(front.lines, e, ApprovedOf);
      MoneySnoc(front.lines, e, RealizedOf);
      MoneySnoc(front.lines, e, LeftOf);
    }
  }

  function GoodsApproved<Q>(m: Arithmetic<Q>): LineRemainder<Q> -> Q { (e: LineRemainder<Q>) => if e.GoodsRemainder? then e.approvedGoods else m.zero }
  function GoodsRealized<Q>(m: Arithmetic<Q>): LineRemainder<Q> -> Q { (e: LineRemainder<Q>) => if e.GoodsRemainder? then e.realizedGoods else m.zero }
  function GoodsLeft<Q>(m: Arithmetic<Q>): LineRemainder<Q> -> Q { (e: LineRemainder<Q>) => if e.GoodsRemainder? then e.remainderGoods else m.zero }

  /** The totals of a kind and unit are the sums over the entries of its lines. */
  lemma {:induction false} GoodsTotalsAddUp<Q(!new)>(m: Arithmetic<Q>, lines: seq<AidLine<Q>>, rs: seq<Realization<Q>>, key: GoodsKey)
    requires Exact(m)
    ensures var c := ClosureOf(m, lines, rs);
      var t := TotalsAt(m, c.goods, key);
      m.value(t.approved) == GoodsSum(m, c.lines, key, GoodsApproved(m)) && m.value(t.realized) == GoodsSum(m, c.lines, key, GoodsRealized(m)) &&
      m.value(t.remainder) == GoodsSum(m, c.lines, key, GoodsLeft(m))
  {
    assert m.value(m.zero) == 0.0;
    if lines != [] {
      var front := ClosureOf(m, lines[..|lines| - 1], rs);
      GoodsTotalsAddUp(m, lines[..|lines| - 1], rs, key);
      var c := ClosureOf(m, lines, rs);
      assert c.lines[..|c.lines| - 1] == front.lines;
    }
  }
}
