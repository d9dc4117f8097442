/**
 The floor under a revision: what recipients have already received may not be deleted, handed to
 someone else, switched between money and goods, or cut below the realized amount.
 */
module RevisionFloor {
  import opened Options
  import opened Texts
  import opened Quantities

  datatype AidValue<Q> =
    | Money(requestedIdr: nat, approvedIdr: Option<nat>)
    | Goods(unit: Text, requested: Q, approved: Option<Q>)

  datatype AidLine<Q> = AidLine(id: Text, beneficiaryId: Text, aidType: Text, value: AidValue<Q>)

  datatype Realization<Q> = Realization(aidLineId: Text, amount: Option<nat>, quantity: Option<Q>)

  datatype Reason = LineDeleted | HolderChanged | KindChanged | UnitChanged | BelowRealized

  datatype Verdict = Accepted | Refused(aidLineId: Text, reason: Reason)

  function LineById<Q>(lines: seq<AidLine<Q>>, id: Text): Option<AidLine<Q>>
  {
    if lines == [] then None
    else if lines[|lines| - 1].id == id then Some(lines[|lines| - 1])
    else LineById(lines[..|lines| - 1], id)
  }

  // ----- What has been realized

  function RealizedIdr<Q>(rs: seq<Realization<Q>>, id: Text): nat
  {
    if rs == [] then 0
    else
      var r := rs[|rs| - 1];
      RealizedIdr(rs[..|rs| - 1], id) + (if r.aidLineId == id && r.amount.Some? then r.amount.value else 0)
  }

  function RealizedQuantity<Q>(m: Arithmetic<Q>, rs: seq<Realization<Q>>, id: Text): Q
  {
    if rs == [] then m.zero
    else
      var r, before := rs[|rs| - 1], RealizedQuantity(m, rs[..|rs| - 1], id);
      if r.aidLineId == id && r.quantity.Some? then m.add(before, r.quantity.value) else before
  }

  /** The lines with a money realization, in order of first appearance. */
  function PaidLines<Q>(rs: seq<Realization<Q>>): seq<Text>
  {
    if rs == [] then []
    else
      var before, r := PaidLines(rs[..|rs| - 1]), rs[|rs| - 1];
      if r.amount.Some? && r.aidLineId !in before then before + [r.aidLineId] else before
  }

  function DeliveredLines<Q>(rs: seq<Realization<Q>>): seq<Text>
  {
    if rs == [] then []
    else
      var before, r := DeliveredLines(rs[..|rs| - 1]), rs[|rs| - 1];
      if r.quantity.Some? && r.aidLineId !in before then before + [r.aidLineId] else before
  }

  function WithIdr<Q>(idr: map<Text, nat>, r: Realization<Q>): map<Text, nat>
  {
    if r.amount.Some? then idr[r.aidLineId := (if r.aidLineId in idr then idr[r.aidLineId] else 0) + r.amount.value] else idr
  }

  function WithQuantity<Q>(m: Arithmetic<Q>, quantity: map<Text, Q>, r: Realization<Q>): map<Text, Q>
  {
    if r.quantity.Some? then quantity[r.aidLineId := m.add(if r.aidLineId in quantity then quantity[r.aidLineId] else m.zero, r.quantity.value)]
    else quantity
  }

  /** The running money totals after all of rs. */
  function IdrTotals<Q>(rs: seq<Realization<Q>>): map<Text, nat>
  {
    if rs == [] then map[] else WithIdr(IdrTotals(rs[..|rs| - 1]), rs[|rs| - 1])
  }

  function QuantityTotals<Q>(m: Arithmetic<Q>, rs: seq<Realization<Q>>): map<Text, Q>
  {
    if rs == [] then map[] else WithQuantity(m, QuantityTotals(m, rs[..|rs| - 1]), rs[|rs| - 1])
  }

  /** A running total exists for exactly the paid lines and is the sum of what they were paid. */
  lemma {:induction false} IdrTotalIsRealized<Q>(rs: seq<Realization<Q>>, id: Text)
    ensures id in IdrTotals(rs) <==> id in PaidLines(rs)
    ensures RealizedIdr(rs, id) == if id in IdrTotals(rs) then IdrTotals(rs)[id] else 0
  {
    if rs != [] {
      IdrTotalIsRealized(rs[..|rs| - 1], id);
      IdrTotalIsRealized(rs[..|rs| - 1], rs[|rs| - 1].aidLineId);
    }
  }

  lemma {:induction false} QuantityTotalIsRealized<Q>(m: Arithmetic<Q>, rs: seq<Realization<Q>>, id: Text)
    ensures id in QuantityTotals(m, rs) <==> id in DeliveredLines(rs)
    ensures RealizedQuantity(m, rs, id) == if id in QuantityTotals(m, rs) then QuantityTotals(m, rs)[id] else m.zero
  {
    if rs != [] {
      QuantityTotalIsRealized(m, rs[..|rs| - 1], id);
      QuantityTotalIsRealized(m, rs[..|rs| - 1], rs[|rs| - 1].aidLineId);
    }
  }

  /** What each line has been disbursed, in its own unit, and the lines in order of first appearance. */
  method AccumulateRealizedPerLine<Q>(m: Arithmetic<Q>, rs: seq<Realization<Q>>) returns (idr: map<Text, nat>, quantity: map<Text, Q>, paid: seq<Text>, delivered: seq<Text>)
    ensures idr == IdrTotals(rs) && paid == PaidLines(rs)
    ensures quantity == QuantityTotals(m, rs) && delivered == DeliveredLines(rs)
  {
    idr, quantity, paid, delivered := map[], map[], [], [];
    for i := 0 to |rs|
      invariant idr == IdrTotals(rs[..i]) && paid == PaidLines(rs[..i])
      invariant quantity == QuantityTotals(m, rs[..i]) && delivered == DeliveredLines(rs[..i])
    {
      var r := rs[i];
      assert rs[..i + 1][..i] == rs[..i];
      IdrTotalIsRealized(rs[..i], r.aidLineId);
      QuantityTotalIsRealized(m, rs[..i], r.aidLineId);
      if r.amount.Some? {
        if r.aidLineId !in idr { paid := paid + [r.aidLineId]; }
        idr := idr[r.aidLineId := (if r.aidLineId in idr then idr[r.aidLineId] else 0) + r.amount.value];
      }
      if r.quantity.Some? {
        if r.aidLineId !in quantity { delivered := delivered + [r.aidLineId]; }
        quantity := quantity[r.aidLineId := m.add(if r.aidLineId in quantity then quantity[r.aidLineId] else m.zero, r.quantity.value)];
      }
    }
    assert rs[..|rs|] == rs;
  }

  // ----- The checks

  /** What a line grants: the approved value, or the requested one while nothing is approved. */
  function GrantedIdr<Q>(line: AidLine<Q>): nat
    requires line.value.Money?
  {
    if line.value.approvedIdr.Some? then line.value.approvedIdr.value else line.value.requestedIdr
  }

  function GrantedQuantity<Q>(line: AidLine<Q>): Q
    requires line.value.Goods?
  {
    if line.value.approved.Some? then line.value.approved.value else line.value.requested
  }

  /** The money right a decision granted: nothing without a decision. */
  function ApprovedIdr<Q>(line: AidLine<Q>): nat
    requires line.value.Money?
  {
    if line.value.approvedIdr.Some? then line.value.approvedIdr.value else 0
  }

  function MoneyRefusal<Q>(previous: Option<AidLine<Q>>, revised: Option<AidLine<Q>>, realized: nat): Option<Reason>
  {
    if realized == 0 then None
    else if revised.None? then Some(LineDeleted)
    else if previous.Some? && revised.value.beneficiaryId != previous.value.beneficiaryId then Some(HolderChanged)
    else if !revised.value.value.Money? then Some(KindChanged)
    else if GrantedIdr(revised.value) < realized then Some(BelowRealized)
    else None
  }

  function GoodsRefusal<Q>(m: Arithmetic<Q>, previous: Option<AidLine<Q>>, revised: Option<AidLine<Q>>, realized: Q): Option<Reason>
  {
    if m.compare(realized, m.zero) <= 0 then None
    else if revised.None? then Some(LineDeleted)
    else if previous.Some? && revised.value.beneficiaryId != previous.value.beneficiaryId then Some(HolderChanged)
    else if !revised.value.value.Goods? then Some(KindChanged)
    else if previous.Some? && previous.value.value.Goods? && revised.value.value.unit != previous.value.value.unit then Some(UnitChanged)
    else if m.compare(GrantedQuantity(revised.value), realized) < 0 then Some(BelowRealized)
    else None
  }

  lemma {:induction false} LineByIdFinds<Q>(lines: seq<AidLine<Q>>, id: Text)
    ensures LineById(lines, id).Some? ==> LineById(lines, id).value in lines && LineById(lines, id).value.id == id
    ensures LineById(lines, id).None? ==> forall i | 0 <= i < |lines| :: lines[i].id != id
  {
    if lines != [] { LineByIdFinds(lines[..|lines| - 1], id); }
  }

  function MoneyCheck<Q>(previous: seq<AidLine<Q>>, revised: seq<AidLine<Q>>, rs: seq<Realization<Q>>, id: Text): Option<Reason>
  {
    MoneyRefusal(LineById(previous, id), LineById(revised, id), RealizedIdr(rs, id))
  }

  function GoodsCheck<Q>(m: Arithmetic<Q>, previous: seq<AidLine<Q>>, revised: seq<AidLine<Q>>, rs: seq<Realization<Q>>, id: Text): Option<Reason>
  {
    LineByIdFinds(revised, id);
    GoodsRefusal(m, LineById(previous, id), LineById(revised, id), RealizedQuantity(m, rs, id))
  }

  /** The first refusal among lines with money realized. */
  function MoneyVerdict<Q>(previous: seq<AidLine<Q>>, revised: seq<AidLine<Q>>, rs: seq<Realization<Q>>, ids: seq<Text>): Verdict
  {
    if ids == [] then Accepted
    else
      var before, id := MoneyVerdict(previous, revised, rs, ids[..|ids| - 1]), ids[|ids| - 1];
      if before.Refused? then before
      else
        match MoneyCheck(previous, revised, rs, id)
        case Some(reason) => Refused(id, reason)
        case None => Accepted
  }

  function GoodsVerdict<Q>(m: Arithmetic<Q>, previous: seq<AidLine<Q>>, revised: seq<AidLine<Q>>, rs: seq<Realization<Q>>, ids: seq<Text>): Verdict
  {
    if ids == [] then Accepted
    else
      var before, id := GoodsVerdict(m, previous, revised, rs, ids[..|ids| - 1]), ids[|ids| - 1];
      if before.Refused? then before
      else
        match GoodsCheck(m, previous, revised, rs, id)
        case Some(reason) => Refused(id, reason)
        case None => Accepted
  }

  /** Money first, then goods; the first refusal is the verdict. */
  function Floor<Q>(m: Arithmetic<Q>, previous: seq<AidLine<Q>>, revised: seq<AidLine<Q>>, rs: seq<Realization<Q>>): Verdict
  {
    var money := MoneyVerdict(previous, revised, rs, PaidLines(rs));
    if money.Refused? then money else GoodsVerdict(m, previous, revised, rs, DeliveredLines(rs))
  }

  lemma {:induction false} MoneyStaysRefused<Q>(previous: seq<AidLine<Q>>, revised: seq<AidLine<Q>>, rs: seq<Realization<Q>>, ids: seq<Text>, i: nat)
    requires i <= |ids| && MoneyVerdict(previous, revised, rs, ids[..i]).Refused?
    ensures MoneyVerdict(previous, revised, rs, ids) == MoneyVerdict(previous, revised, rs, ids[..i])
    decreases |ids| - i
  {
    if i < |ids| {
      assert ids[..i + 1][..i] == ids[..i];
      MoneyStaysRefused(previous, revised, rs, ids, i + 1);
    } else {
      assert ids[..i] == ids;
    }
  }

  lemma {:induction false} GoodsStaysRefused<Q>(m: Arithmetic<Q>, previous: seq<AidLine<Q>>, revised: seq<AidLine<Q>>, rs: seq<Realization<Q>>, ids: seq<Text>, i: nat)
    requires i <= |ids| && GoodsVerdict(m, previous, revised, rs, ids[..i]).Refused?
    ensures GoodsVerdict(m, previous, revised, rs, ids) == GoodsVerdict(m, previous, revised, rs, ids[..i])
    decreases |ids| - i
  {
    if i < |ids| {
      assert ids[..i + 1][..i] == ids[..i];
      GoodsStaysRefused(m, previous, revised, rs, ids, i + 1);
    } else {
      assert ids[..i] == ids;
    }
  }

  /** Checks the lines with money realized, one after the other. */
  method CheckMoney<Q>(previous: seq<AidLine<Q>>, revised: seq<AidLine<Q>>, ghost rs: seq<Realization<Q>>, idr: map<Text, nat>, paid: seq<Text>) returns (verdict: Verdict)
    requires idr == IdrTotals(rs) && paid == PaidLines(rs)
    ensures verdict == MoneyVerdict(previous, revised, rs, paid)
  {
    for i := 0 to |paid|
      invariant MoneyVerdict(previous, revised, rs, paid[..i]) == Accepted
    {
      assert paid[..i + 1][..i] == paid[..i] && paid[i] in paid;
      IdrTotalIsRealized(rs, paid[i]);
      var refusal := MoneyRefusal(LineById(previous, paid[i]), LineById(revised, paid[i]), idr[paid[i]]);
      if refusal.Some? {
        MoneyStaysRefused(previous, revised, rs, paid, i + 1);
        return Refused(paid[i], refusal.value);
      }
    }
    assert paid[..|paid|] == paid;
    return Accepted;
  }

  method CheckGoods<Q>(m: Arithmetic<Q>, previous: seq<AidLine<Q>>, revised: seq<AidLine<Q>>, ghost rs: seq<Realization<Q>>, quantity: map<Text, Q>, delivered: seq<Text>)
    returns (verdict: Verdict)
    requires quantity == QuantityTotals(m, rs) && delivered == DeliveredLines(rs)
    ensures verdict == GoodsVerdict(m, previous, revised, rs, delivered)
  {
    for i := 0 to |delivered|
      invariant GoodsVerdict(m, previous, revised, rs, delivered[..i]) == Accepted
    {
      assert delivered[..i + 1][..i] == delivered[..i] && delivered[i] in delivered;
      QuantityTotalIsRealized(m, rs, delivered[i]);
      LineByIdFinds(revised, delivered[i]);
      var refusal := GoodsRefusal(m, LineById(previous, delivered[i]), LineById(revised, delivered[i]), quantity[delivered[i]]);
      if refusal.Some? {
        GoodsStaysRefused(m, previous, revised, rs, delivered, i + 1);
        return Refused(delivered[i], refusal.value);
      }
    }
    assert delivered[..|delivered|] == delivered;
    return Accepted;
  }

  method ValidateRevisionFloor<Q>(m: Arithmetic<Q>, previous: seq<AidLine<Q>>, revised: seq<AidLine<Q>>, rs: seq<Realization<Q>>) returns (verdict: Verdict)
    ensures verdict == Floor(m, previous, revised, rs)
  {
    var idr, quantity, paid, delivered := AccumulateRealizedPerLine(m, rs);
    verdict := CheckMoney(previous, revised, rs, idr, paid);
    if verdict.Accepted? { verdict := CheckGoods(m, previous, revised, rs, quantity, delivered); }
  }

  // ----- What the floor accepts

  /** Same holder as before, if the line was there before. */
  predicate SameHolder<Q>(previous: Option<AidLine<Q>>, revised: AidLine<Q>)
  {
    previous.Some? ==> revised.beneficiaryId == previous.value.beneficiaryId
  }

  /** The money a line has paid out is still covered by the same holder's money line. */
  predicate MoneyCovered<Q>(previous: seq<AidLine<Q>>, revised: seq<AidLine<Q>>, rs: seq<Realization<Q>>, id: Text)
  {
    RealizedIdr(rs, id) > 0 ==>
      match LineById(revised, id)
      case None => false
      case Some(line) => SameHolder(LineById(previous, id), line) && line.value.Money? && RealizedIdr(rs, id) <= GrantedIdr(line)
  }

  /** The goods a line has handed over are still covered by the same holder's goods line in the same unit. */
  ghost predicate GoodsCovered<Q>(m: Arithmetic<Q>, previous: seq<AidLine<Q>>, revised: seq<AidLine<Q>>, rs: seq<Realization<Q>>, id: Text)
  {
    m.value(RealizedQuantity(m, rs, id)) > 0.0 ==>
      match LineById(revised, id)
      case None => false
      case Some(line) =>
        var before := LineById(previous, id);
        SameHolder(before, line) && line.value.Goods? && (before.Some? && before.value.value.Goods? ==> line.value.unit == before.value.value.unit) &&
        m.value(RealizedQuantity(m, rs, id)) <= m.value(GrantedQuantity(line))
  }

  lemma {:induction false} PaidIsListed<Q>(rs: seq<Realization<Q>>, id: Text)
    requires RealizedIdr(rs, id) > 0
    ensures id in PaidLines(rs)
  {
    var front := rs[..|rs| - 1];
    if RealizedIdr(front, id) > 0 { PaidIsListed(front, id); }
  }

  lemma {:induction false} DeliveredIsListed<Q(!new)>(m: Arithmetic<Q>, rs: seq<Realization<Q>>, id: Text)
    requires Exact(m)
    requires m.value(RealizedQuantity(m, rs, id)) > 0.0
    ensures id in DeliveredLines(rs)
  {
    var front := rs[..|rs| - 1];
    if m.value(RealizedQuantity(m, front, id)) > 0.0 { DeliveredIsListed(m, front, id); }
  }

  lemma {:induction false} MoneyCheckIsCover<Q>(previous: seq<AidLine<Q>>, revised: seq<AidLine<Q>>, rs: seq<Realization<Q>>, id: Text)
    ensures MoneyCheck(previous, revised, rs, id).None? <==> MoneyCovered(previous, revised, rs, id)
  {
  }

  lemma {:induction false} GoodsCheckIsCover<Q(!new)>(m: Arithmetic<Q>, previous: seq<AidLine<Q>>, revised: seq<AidLine<Q>>, rs: seq<Realization<Q>>, id: Text)
    requires Exact(m)
    ensures GoodsCheck(m, previous, revised, rs, id).None? <==> GoodsCovered(m, previous, revised, rs, id)
  {
    assert m.value(m.zero) == 0.0;
  }

  lemma {:induction false} MoneyVerdictChecksAll<Q>(previous: seq<AidLine<Q>>, revised: seq<AidLine<Q>>, rs: seq<Realization<Q>>, ids: seq<Text>)
    ensures MoneyVerdict(previous, revised, rs, ids) == Accepted <==> forall id | id in ids :: MoneyCheck(previous, revised, rs, id).None?
  {
    if ids != [] {
      MoneyVerdictChecksAll(previous, revised, rs, ids[..|ids| - 1]);
      assert ids == ids[..|ids| - 1] + [ids[|ids| - 1]];
    }
  }

  lemma {:induction false} GoodsVerdictOneMore<Q>(m: Arithmetic<Q>, previous: seq<AidLine<Q>>, revised: seq<AidLine<Q>>, rs: seq<Realization<Q>>, ids: seq<Text>)
    requires ids != []
    ensures GoodsVerdict(m, previous, revised, rs, ids) == Accepted <==>
            GoodsVerdict(m, previous, revised, rs, ids[..|ids| - 1]) == Accepted && GoodsCheck(m, previous, revised, rs, ids[|ids| - 1]).None?
  {
  }

  lemma {:induction false} GoodsVerdictChecksAll<Q>(m: Arithmetic<Q>, previous: seq<AidLine<Q>>, revised: seq<AidLine<Q>>, rs: seq<Realization<Q>>, ids: seq<Text>)
    ensures GoodsVerdict(m, previous, revised, rs, ids) == Accepted <==> forall id | id in ids :: GoodsCheck(m, previous, revised, rs, id).None?
  {
    if ids != [] {
      var front, last := ids[..|ids| - 1], ids[|ids| - 1];
      GoodsVerdictChecksAll(m, previous, revised, rs, front);
      GoodsVerdictOneMore(m, previous, revised, rs, ids);
      assert forall id :: id in ids <==> id in front || id == last by { assert ids == front + [last]; }
    }
  }

  /** The floor accepts exactly the revisions that keep every realized line's holder, kind and unit and cover its realized sum. */
  lemma {:induction false} FloorAcceptsExactly<Q(!new)>(m: Arithmetic<Q>, previous: seq<AidLine<Q>>, revised: seq<AidLine<Q>>, rs: seq<Realization<Q>>)
    requires Exact(m)
    ensures Floor(m, previous, revised, rs) == Accepted <==>
      forall id: Text :: MoneyCovered(previous, revised, rs, id) && GoodsCovered(m, previous, revised, rs, id)
  {
    MoneyVerdictChecksAll(previous, revised, rs, PaidLines(rs));
    GoodsVerdictChecksAll(m, previous, revised, rs, DeliveredLines(rs));
    forall id: Text
      ensures MoneyCheck(previous, revised, rs, id).None? <==> MoneyCovered(previous, revised, rs, id)
      ensures GoodsCheck(m, previous, revised, rs, id).None? <==> GoodsCovered(m, previous, revised, rs, id)
      ensures id !in PaidLines(rs) ==> MoneyCovered(previous, revised, rs, id)
      ensures id !in DeliveredLines(rs) ==> GoodsCovered(m, previous, revised, rs, id)
    {
      MoneyCheckIsCover(previous, revised, rs, id);
      GoodsCheckIsCover(m, previous, revised, rs, id);
      if RealizedIdr(rs, id) > 0 { PaidIsListed(rs, id); }
      if m.value(RealizedQuantity(m, rs, id)) > 0.0 { DeliveredIsListed(m, rs, id); }
    }
  }

  /** A line with both money and goods realized lets no revision pass, not even one that changes nothing. */
  lemma {:induction false} BothKindsBlockEveryRevision<Q(!new)>(m: Arithmetic<Q>, previous: seq<AidLine<Q>>, revised: seq<AidLine<Q>>, rs: seq<Realization<Q>>, id: Text)
    requires Exact(m)
    requires RealizedIdr(rs, id) > 0 && m.value(RealizedQuantity(m, rs, id)) > 0.0
    ensures Floor(m, previous, revised, rs).Refused?
  {
    FloorAcceptsExactly(m, previous, revised, rs);
    assert !(MoneyCovered(previous, revised, rs, id) && GoodsCovered(m, previous, revised, rs, id));
  }

  /** Such a line, and the revision that changes nothing. */
  lemma {:induction false} UnchangedRevisionIsRefused<Q(!new)>(m: Arithmetic<Q>, id: Text, some: Q)
    requires Exact(m) && m.value(some) > 0.0
    ensures var lines: seq<AidLine<Q>> := [AidLine(id, [], [], Money(5, Some(5)))];
            Floor(m, lines, lines, [Realization(id, Some(5), Some(some))]).Refused?
  {
    var lines: seq<AidLine<Q>> := [AidLine(id, [], [], Money(5, Some(5)))];
    var rs := [Realization(id, Some(5), Some(some))];
    assert rs[..0] == [] && m.value(m.zero) == 0.0;
    assert RealizedIdr(rs, id) == RealizedIdr(rs[..0], id) + 5 && RealizedQuantity(m, rs, id) == m.add(RealizedQuantity(m, rs[..0], id), some);
    BothKindsBlockEveryRevision(m, lines, lines, rs, id);
  }
}
