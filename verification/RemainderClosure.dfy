/**
 Closing a proposal on what is left: per aid line, in rupiah and per kind and unit of goods, what was
 approved, what was realized and what remains.
 */
module RemainderClosure {
  import opened Options
  import opened Texts
  import opened Quantities
  import opened RevisionFloor

  /** The kind and unit goods are totalled under. */
  type GoodsKey = (Text, Text)

  datatype LineRemainder<Q> =
    | MoneyRemainder(aidLineId: Text, beneficiaryId: Text, aidType: Text, approved: nat, realized: nat, remainder: nat)
    | GoodsRemainder(aidLineId: Text, beneficiaryId: Text, aidType: Text, unit: Text, approvedGoods: Q, realizedGoods: Q, remainderGoods: Q)

  datatype GoodsTotal<Q> = GoodsTotal(approved: Q, realized: Q, remainder: Q)

  datatype Closure<Q> = Closure(approvedIdr: nat, realizedIdr: nat, remainderIdr: nat, lines: seq<LineRemainder<Q>>, goods: map<GoodsKey, GoodsTotal<Q>>)

  function KeyOf<Q>(line: AidLine<Q>): Option<GoodsKey>
  {
    if line.value.Goods? then Some((line.aidType, line.value.unit)) else None
  }

  function TotalsAt<Q>(m: Arithmetic<Q>, goods: map<GoodsKey, GoodsTotal<Q>>, key: GoodsKey): GoodsTotal<Q>
  {
    if key in goods then goods[key] else GoodsTotal(m.zero, m.zero, m.zero)
  }

  function RemainderOf<Q>(m: Arithmetic<Q>, line: AidLine<Q>, paid: nat, delivered: Q): LineRemainder<Q>
  {
    match line.value
    case Money(_, _) =>
      var approved := ApprovedIdr(line);
      MoneyRemainder(line.id, line.beneficiaryId, line.aidType, approved, paid, if approved > paid then approved - paid else 0)
    case Goods(unit, _, _) =>
      var approved := GrantedQuantity(line);
      GoodsRemainder(line.id, line.beneficiaryId, line.aidType, unit, approved, delivered,
                     if m.compare(approved, delivered) > 0 then m.subtract(approved, delivered) else m.zero)
  }

  /** One line's remainder on top of the closure of the lines before it. */
  function WithLine<Q>(m: Arithmetic<Q>, c: Closure<Q>, remainder: LineRemainder<Q>): Closure<Q>
  {
    match remainder
    case MoneyRemainder(_, _, _, approved, realized, left) =>
      Closure(c.approvedIdr + approved, c.realizedIdr + realized, c.remainderIdr + left, c.lines + [remainder], c.goods)
    case GoodsRemainder(_, _, aidType, unit, approved, realized, left) =>
      var t := TotalsAt(m, c.goods, (aidType, unit));
      c.(lines := c.lines + [remainder],
         goods := c.goods[(aidType, unit) := GoodsTotal(m.add(t.approved, approved), m.add(t.realized, realized), m.add(t.remainder, left))])
  }

  function ClosureOf<Q>(m: Arithmetic<Q>, lines: seq<AidLine<Q>>, rs: seq<Realization<Q>>): Closure<Q>
  {
    if lines == [] then Closure(0, 0, 0, [], map[])
    else
      var line := lines[|lines| - 1];
      WithLine(m, ClosureOf(m, lines[..|lines| - 1], rs), RemainderOf(m, line, RealizedIdr(rs, line.id), RealizedQuantity(m, rs, line.id)))
  }

  method CalculateRemainderClosure<Q>(m: Arithmetic<Q>, lines: seq<AidLine<Q>>, rs: seq<Realization<Q>>) returns (c: Closure<Q>)
    ensures c == ClosureOf(m, lines, rs)
  {
    var idr, quantity, _, _ := AccumulateRealizedPerLine(m, rs);
    var remainders: seq<LineRemainder<Q>> := [];
    var approvedIdr, realizedIdr, remainderIdr := 0, 0, 0;
    var goods: map<GoodsKey, GoodsTotal<Q>> := map[];
    for i := 0 to |lines|
      invariant Closure(approvedIdr, realizedIdr, remainderIdr, remainders, goods) == ClosureOf(m, lines[..i], rs)
    {
      var line := lines[i];
      assert lines[..i + 1][..i] == lines[..i];
      IdrTotalIsRealized(rs, line.id);
      QuantityTotalIsRealized(m, rs, line.id);
      var remainder := RemainderOf(m, line, if line.id in idr then idr[line.id] else 0, if line.id in quantity then quantity[line.id] else m.zero);
      match remainder {
        case MoneyRemainder(_, _, _, approved, realized, left) =>
          approvedIdr, realizedIdr, remainderIdr := approvedIdr + approved, realizedIdr + realized, remainderIdr + left;
        case GoodsRemainder(_, _, aidType, unit, approved, realized, left) =>
          var t := TotalsAt(m, goods, (aidType, unit));
          goods := goods[(aidType, unit) := GoodsTotal(m.add(t.approved, approved), m.add(t.realized, realized), m.add(t.remainder, left))];
      }
      remainders := remainders + [remainder];
    }
    assert lines[..|lines|] == lines;
    c := Closure(approvedIdr, realizedIdr, remainderIdr, remainders, goods);
  }

  // ----- When a closure balances

  /** What a line realized does not exceed what it was granted. */
  ghost predicate Covered<Q>(m: Arithmetic<Q>, line: AidLine<Q>, rs: seq<Realization<Q>>)
  {
    match line.value
    case Money(_, _) => RealizedIdr(rs, line.id) <= ApprovedIdr(line)
    case Goods(_, _, _) => m.value(RealizedQuantity(m, rs, line.id)) <= m.value(GrantedQuantity(line))
  }

  ghost predicate Balanced<Q>(m: Arithmetic<Q>, remainder: LineRemainder<Q>)
  {
    match remainder
    case MoneyRemainder(_, _, _, approved, realized, left) => approved == realized + left
    case GoodsRemainder(_, _, _, _, approved, realized, left) => m.value(approved) == m.value(realized) + m.value(left)
  }

  ghost predicate GoodsBalance<Q>(m: Arithmetic<Q>, t: GoodsTotal<Q>)
  {
    m.value(t.approved) == m.value(t.realized) + m.value(t.remainder)
  }

  /** One entry per line, in order, each balanced exactly when its line is covered. */
  lemma {:induction false} LineBalancesExactlyWhenCovered<Q(!new)>(m: Arithmetic<Q>, lines: seq<AidLine<Q>>, rs: seq<Realization<Q>>, i: nat)
    requires Exact(m) && i < |lines|
    ensures |ClosureOf(m, lines, rs).lines| == |lines| && ClosureOf(m, lines, rs).lines[i].aidLineId == lines[i].id
    ensures Balanced(m, ClosureOf(m, lines, rs).lines[i]) <==> Covered(m, lines[i], rs)
  {
    assert m.value(m.zero) == 0.0;
    var front := lines[..|lines| - 1];
    if i < |front| {
      LineBalancesExactlyWhenCovered(m, front, rs, i);
    } else {
      OneEntryPerLine(m, front, rs);
    }
  }

  lemma {:induction false} OneEntryPerLine<Q>(m: Arithmetic<Q>, lines: seq<AidLine<Q>>, rs: seq<Realization<Q>>)
    ensures |ClosureOf(m, lines, rs).lines| == |lines|
  {
    if lines != [] { OneEntryPerLine(m, lines[..|lines| - 1], rs); }
  }

  ghost predicate MoneyLinesCovered<Q>(m: Arithmetic<Q>, lines: seq<AidLine<Q>>, rs: seq<Realization<Q>>)
  {
    forall i | 0 <= i < |lines| && lines[i].value.Money? :: Covered(m, lines[i], rs)
  }

  ghost predicate GoodsLinesCovered<Q>(m: Arithmetic<Q>, lines: seq<AidLine<Q>>, rs: seq<Realization<Q>>, key: GoodsKey)
  {
    forall i | 0 <= i < |lines| && KeyOf(lines[i]) == Some(key) :: Covered(m, lines[i], rs)
  }

  lemma {:induction false} CoveredSplits<Q>(m: Arithmetic<Q>, lines: seq<AidLine<Q>>, rs: seq<Realization<Q>>, key: GoodsKey)
    requires lines != []
    ensures MoneyLinesCovered(m, lines, rs) <==>
            MoneyLinesCovered(m, lines[..|lines| - 1], rs) && (lines[|lines| - 1].value.Money? ==> Covered(m, lines[|lines| - 1], rs))
    ensures GoodsLinesCovered(m, lines, rs, key) <==>
            GoodsLinesCovered(m, lines[..|lines| - 1], rs, key) && (KeyOf(lines[|lines| - 1]) == Some(key) ==> Covered(m, lines[|lines| - 1], rs))
  {
    var front := lines[..|lines| - 1];
    assert forall i | 0 <= i < |front| :: front[i] == lines[i];
  }

  /** The rupiah totals balance exactly when no money line realized more than it was approved. */
  lemma {:induction false} MoneyBalancesExactlyWhenCovered<Q>(m: Arithmetic<Q>, lines: seq<AidLine<Q>>, rs: seq<Realization<Q>>)
    ensures var c := ClosureOf(m, lines, rs);
            c.approvedIdr <= c.realizedIdr + c.remainderIdr &&
            (c.approvedIdr == c.realizedIdr + c.remainderIdr <==> MoneyLinesCovered(m, lines, rs))
  {
    if lines != [] {
      MoneyBalancesExactlyWhenCovered(m, lines[..|lines| - 1], rs);
      CoveredSplits(m, lines, rs, ([], []));
    }
  }

  /** The totals of one kind and unit balance exactly when none of its lines realized more than it was granted. */
  lemma {:induction false} GoodsBalanceExactlyWhenCovered<Q(!new)>(m: Arithmetic<Q>, lines: seq<AidLine<Q>>, rs: seq<Realization<Q>>, key: GoodsKey)
    requires Exact(m)
    ensures var t := TotalsAt(m, ClosureOf(m, lines, rs).goods, key);
            m.value(t.approved) <= m.value(t.realized) + m.value(t.remainder) &&
            (GoodsBalance(m, t) <==> GoodsLinesCovered(m, lines, rs, key))
  {
    assert m.value(m.zero) == 0.0;
    if lines != [] {
      GoodsBalanceExactlyWhenCovered(m, lines[..|lines| - 1], rs, key);
      CoveredSplits(m, lines, rs, key);
    }
  }

  // ----- How often a realization is counted

  function PaidBy<Q>(r: Realization<Q>): nat { if r.amount.Some? then r.amount.value else 0 }

  ghost function DeliveredBy<Q>(m: Arithmetic<Q>, r: Realization<Q>): real
  {
    if r.quantity.Some? then m.value(r.quantity.value) else 0.0
  }

  function ReceivedIdr<Q>(rs: seq<Realization<Q>>): nat
  {
    if rs == [] then 0 else ReceivedIdr(rs[..|rs| - 1]) + PaidBy(rs[|rs| - 1])
  }

  ghost function ShownGoods<Q>(m: Arithmetic<Q>, lines: seq<AidLine<Q>>, r: Realization<Q>, key: GoodsKey): real
  {
    var line := LineById(lines, r.aidLineId);
    if line.Some? && KeyOf(line.value) == Some(key) then DeliveredBy(m, r) else 0.0
  }

  /** All goods received under one kind and unit of the lines given, realization by realization. */
  ghost function ReceivedGoods<Q>(m: Arithmetic<Q>, lines: seq<AidLine<Q>>, rs: seq<Realization<Q>>, key: GoodsKey): real
  {
    if rs == [] then 0.0 else ReceivedGoods(m, lines, rs[..|rs| - 1], key) + ShownGoods(m, lines, rs[|rs| - 1], key)
  }

  /** How many money lines carry an id. */
  function MoneyCopies<Q>(lines: seq<AidLine<Q>>, id: Text): nat
  {
    if lines == [] then 0
    else
      var line := lines[|lines| - 1];
      MoneyCopies(lines[..|lines| - 1], id) + (if line.id == id && line.value.Money? then 1 else 0)
  }

  /** How many goods lines of one kind and unit carry an id. */
  function GoodsCopies<Q>(lines: seq<AidLine<Q>>, id: Text, key: GoodsKey): nat
  {
    if lines == [] then 0
    else
      var line := lines[|lines| - 1];
      GoodsCopies(lines[..|lines| - 1], id, key) + (if line.id == id && KeyOf(line) == Some(key) then 1 else 0)
  }

  /** What one realization adds to the realized total: its amount for every money line that carries its id. */
  function PaidOver<Q>(lines: seq<AidLine<Q>>, r: Realization<Q>): nat
  {
    if lines == [] then 0
    else
      var line := lines[|lines| - 1];
      PaidOver(lines[..|lines| - 1], r) + (if line.id == r.aidLineId && line.value.Money? then PaidBy(r) else 0)
  }

  ghost function DeliveredOver<Q>(m: Arithmetic<Q>, lines: seq<AidLine<Q>>, r: Realization<Q>, key: GoodsKey): real
  {
    if lines == [] then 0.0
    else
      var line := lines[|lines| - 1];
      DeliveredOver(m, lines[..|lines| - 1], r, key) + (if line.id == r.aidLineId && KeyOf(line) == Some(key) then DeliveredBy(m, r) else 0.0)
  }

  lemma {:induction false} PaidOverCopies<Q>(lines: seq<AidLine<Q>>, r: Realization<Q>)
    ensures MoneyCopies(lines, r.aidLineId) == 0 || PaidBy(r) == 0 ==> PaidOver(lines, r) == 0
    ensures MoneyCopies(lines, r.aidLineId) == 1 ==> PaidOver(lines, r) == PaidBy(r)
    ensures MoneyCopies(lines, r.aidLineId) > 1 ==> PaidOver(lines, r) >= PaidBy(r) + PaidBy(r)
  {
    if lines != [] { PaidOverCopies(lines[..|lines| - 1], r); }
  }

  lemma {:induction false} DeliveredOverCopies<Q>(m: Arithmetic<Q>, lines: seq<AidLine<Q>>, r: Realization<Q>, key: GoodsKey)
    requires DeliveredBy(m, r) >= 0.0
    ensures GoodsCopies(lines, r.aidLineId, key) == 0 || DeliveredBy(m, r) == 0.0 ==> DeliveredOver(m, lines, r, key) == 0.0
    ensures GoodsCopies(lines, r.aidLineId, key) == 1 ==> DeliveredOver(m, lines, r, key) == DeliveredBy(m, r)
    ensures GoodsCopies(lines, r.aidLineId, key) > 1 ==> DeliveredOver(m, lines, r, key) >= DeliveredBy(m, r) + DeliveredBy(m, r)
  {
    if lines != [] { DeliveredOverCopies(m, lines[..|lines| - 1], r, key); }
  }

  lemma {:induction false} OneMoreRealization<Q>(m: Arithmetic<Q>, lines: seq<AidLine<Q>>, rs: seq<Realization<Q>>)
    requires rs != []
    ensures ClosureOf(m, lines, rs).realizedIdr == ClosureOf(m, lines, rs[..|rs| - 1]).realizedIdr + PaidOver(lines, rs[|rs| - 1])
  {
    if lines != [] { OneMoreRealization(m, lines[..|lines| - 1], rs); }
  }

  lemma {:induction false} OneMoreDelivery<Q(!new)>(m: Arithmetic<Q>, lines: seq<AidLine<Q>>, rs: seq<Realization<Q>>, key: GoodsKey)
    requires Exact(m) && rs != []
    ensures m.value(TotalsAt(m, ClosureOf(m, lines, rs).goods, key).realized) ==
            m.value(TotalsAt(m, ClosureOf(m, lines, rs[..|rs| - 1]).goods, key).realized) + DeliveredOver(m, lines, rs[|rs| - 1], key)
  {
    assert m.value(m.zero) == 0.0;
    if lines != [] { OneMoreDelivery(m, lines[..|lines| - 1], rs, key); }
  }

  lemma {:induction false} NothingRealizedYet<Q(!new)>(m: Arithmetic<Q>, lines: seq<AidLine<Q>>, key: GoodsKey)
    requires Exact(m)
    ensures ClosureOf(m, lines, []).realizedIdr == 0 && m.value(TotalsAt(m, ClosureOf(m, lines, []).goods, key).realized) == 0.0
  {
    assert m.value(m.zero) == 0.0;
    if lines != [] { NothingRealizedYet(m, lines[..|lines| - 1], key); }
  }

  /** A realization whose money a money line of the closure shows, and whose goods a goods line shows. */
  ghost predicate IsShown<Q>(m: Arithmetic<Q>, lines: seq<AidLine<Q>>, r: Realization<Q>)
  {
    var line := LineById(lines, r.aidLineId);
    (PaidBy(r) > 0 ==> line.Some? && line.value.value.Money?) &&
    (DeliveredBy(m, r) > 0.0 ==> line.Some? && line.value.value.Goods?)
  }

  lemma {:induction false} FoundIsListed<Q>(lines: seq<AidLine<Q>>, id: Text, key: GoodsKey)
    ensures LineById(lines, id).Some? && LineById(lines, id).value.value.Money? ==> MoneyCopies(lines, id) >= 1
    ensures LineById(lines, id).Some? && KeyOf(LineById(lines, id).value) == Some(key) ==> GoodsCopies(lines, id, key) >= 1
  {
    if lines != [] { FoundIsListed(lines[..|lines| - 1], id, key); }
  }

  /** No paid line stands in the list more than once as a money line. */
  predicate PaidListedOnce<Q>(lines: seq<AidLine<Q>>, rs: seq<Realization<Q>>)
  {
    forall i | 0 <= i < |rs| && PaidBy(rs[i]) > 0 :: MoneyCopies(lines, rs[i].aidLineId) == 1
  }

  /** A delivered line stands under the kind and unit exactly once if it is found there, and otherwise not at all. */
  ghost predicate DeliveredListedOnce<Q>(m: Arithmetic<Q>, lines: seq<AidLine<Q>>, rs: seq<Realization<Q>>, key: GoodsKey)
  {
    forall i | 0 <= i < |rs| && DeliveredBy(m, rs[i]) > 0.0 :: ListedOnceUnder(lines, rs[i].aidLineId, key)
  }

  predicate ListedOnceUnder<Q>(lines: seq<AidLine<Q>>, id: Text, key: GoodsKey)
  {
    var line := LineById(lines, id);
    GoodsCopies(lines, id, key) == if line.Some? && KeyOf(line.value) == Some(key) then 1 else 0
  }

  lemma {:induction false} ListedOnceSplits<Q>(m: Arithmetic<Q>, lines: seq<AidLine<Q>>, rs: seq<Realization<Q>>, key: GoodsKey)
    requires rs != []
    ensures PaidListedOnce(lines, rs) <==>
            PaidListedOnce(lines, rs[..|rs| - 1]) && (PaidBy(rs[|rs| - 1]) > 0 ==> MoneyCopies(lines, rs[|rs| - 1].aidLineId) == 1)
    ensures DeliveredListedOnce(m, lines, rs, key) <==>
            DeliveredListedOnce(m, lines, rs[..|rs| - 1], key) &&
            (DeliveredBy(m, rs[|rs| - 1]) > 0.0 ==> ListedOnceUnder(lines, rs[|rs| - 1].aidLineId, key))
  {
    var front := rs[..|rs| - 1];
    assert forall i | 0 <= i < |front| :: front[i] == rs[i];
  }

  function CountedIdr<Q>(lines: seq<AidLine<Q>>, rs: seq<Realization<Q>>): nat
  {
    if rs == [] then 0 else CountedIdr(lines, rs[..|rs| - 1]) + PaidOver(lines, rs[|rs| - 1])
  }

  ghost function CountedGoods<Q>(m: Arithmetic<Q>, lines: seq<AidLine<Q>>, rs: seq<Realization<Q>>, key: GoodsKey): real
  {
    if rs == [] then 0.0 else CountedGoods(m, lines, rs[..|rs| - 1], key) + DeliveredOver(m, lines, rs[|rs| - 1], key)
  }

  lemma {:induction false} RealizedIsCounted<Q(!new)>(m: Arithmetic<Q>, lines: seq<AidLine<Q>>, rs: seq<Realization<Q>>, key: GoodsKey)
    requires Exact(m)
    ensures ClosureOf(m, lines, rs).realizedIdr == CountedIdr(lines, rs)
    ensures m.value(TotalsAt(m, ClosureOf(m, lines, rs).goods, key).realized) == CountedGoods(m, lines, rs, key)
  {
    if rs == [] {
      NothingRealizedYet(m, lines, key);
    } else {
      RealizedIsCounted(m, lines, rs[..|rs| - 1], key);
      OneMoreRealization(m, lines, rs);
      OneMoreDelivery(m, lines, rs, key);
    }
  }

  lemma {:induction false} PaidOnceWhenListedOnce<Q>(m: Arithmetic<Q>, lines: seq<AidLine<Q>>, r: Realization<Q>)
    requires IsShown(m, lines, r)
    ensures PaidOver(lines, r) >= PaidBy(r)
    ensures PaidOver(lines, r) == PaidBy(r) <==> (PaidBy(r) > 0 ==> MoneyCopies(lines, r.aidLineId) == 1)
  {
    FoundIsListed(lines, r.aidLineId, ([], []));
    PaidOverCopies(lines, r);
  }

  lemma {:induction false} DeliveredOnceWhenListedOnce<Q>(m: Arithmetic<Q>, lines: seq<AidLine<Q>>, r: Realization<Q>, key: GoodsKey)
    requires DeliveredBy(m, r) >= 0.0
    ensures DeliveredOver(m, lines, r, key) >= ShownGoods(m, lines, r, key)
    ensures DeliveredOver(m, lines, r, key) == ShownGoods(m, lines, r, key) <==>
            (DeliveredBy(m, r) > 0.0 ==> ListedOnceUnder(lines, r.aidLineId, key))
  {
    FoundIsListed(lines, r.aidLineId, key);
    DeliveredOverCopies(m, lines, r, key);
  }

  lemma {:induction false} CountedIdrIsReceived<Q>(m: Arithmetic<Q>, lines: seq<AidLine<Q>>, rs: seq<Realization<Q>>)
    requires forall r | r in rs :: IsShown(m, lines, r)
    ensures CountedIdr(lines, rs) >= ReceivedIdr(rs)
    ensures CountedIdr(lines, rs) == ReceivedIdr(rs) <==> PaidListedOnce(lines, rs)
  {
    if rs != [] {
      CountedIdrIsReceived(m, lines, rs[..|rs| - 1]);
      PaidOnceWhenListedOnce(m, lines, rs[|rs| - 1]);
      ListedOnceSplits(m, lines, rs, ([], []));
    }
  }

  lemma {:induction false} CountedGoodsAreReceived<Q(!new)>(m: Arithmetic<Q>, lines: seq<AidLine<Q>>, rs: seq<Realization<Q>>, key: GoodsKey)
    requires Exact(m)
    ensures CountedGoods(m, lines, rs, key) >= ReceivedGoods(m, lines, rs, key)
    ensures CountedGoods(m, lines, rs, key) == ReceivedGoods(m, lines, rs, key) <==> DeliveredListedOnce(m, lines, rs, key)
  {
    if rs != [] {
      CountedGoodsAreReceived(m, lines, rs[..|rs| - 1], key);
      DeliveredOnceWhenListedOnce(m, lines, rs[|rs| - 1], key);
      ListedOnceSplits(m, lines, rs, key);
    }
  }

  /** The closure shows all money received, and shows it once exactly when no paid line is listed twice. */
  lemma {:induction false} PaymentsCountOnceExactlyWhenListedOnce<Q(!new)>(m: Arithmetic<Q>, lines: seq<AidLine<Q>>, rs: seq<Realization<Q>>)
    requires Exact(m) && forall r | r in rs :: IsShown(m, lines, r)
    ensures ClosureOf(m, lines, rs).realizedIdr >= ReceivedIdr(rs)
    ensures ClosureOf(m, lines, rs).realizedIdr == ReceivedIdr(rs) <==> PaidListedOnce(lines, rs)
  {
    RealizedIsCounted(m, lines, rs, ([], []));
    CountedIdrIsReceived(m, lines, rs);
  }

  /** So with goods: those of a kind and unit are all shown, and once exactly when no delivered line is listed twice under it. */
  lemma {:induction false} DeliveriesCountOnceExactlyWhenListedOnce<Q(!new)>(m: Arithmetic<Q>, lines: seq<AidLine<Q>>, rs: seq<Realization<Q>>, key: GoodsKey)
    requires Exact(m)
    ensures m.value(TotalsAt(m, ClosureOf(m, lines, rs).goods, key).realized) >= ReceivedGoods(m, lines, rs, key)
    ensures m.value(TotalsAt(m, ClosureOf(m, lines, rs).goods, key).realized) == ReceivedGoods(m, lines, rs, key) <==>
            DeliveredListedOnce(m, lines, rs, key)
  {
    RealizedIsCounted(m, lines, rs, key);
    CountedGoodsAreReceived(m, lines, rs, key);
  }

  predicate UniqueLines<Q>(lines: seq<AidLine<Q>>)
  {
    forall i, j | 0 <= i < j < |lines| :: lines[i].id != lines[j].id
  }

  lemma {:induction false} LastIsNew<Q>(lines: seq<AidLine<Q>>)
    requires lines != [] && UniqueLines(lines)
    ensures UniqueLines(lines[..|lines| - 1]) && LineById(lines[..|lines| - 1], lines[|lines| - 1].id).None?
  {
    var front := lines[..|lines| - 1];
    LineByIdFinds(front, lines[|lines| - 1].id);
    assert forall i | 0 <= i < |front| :: front[i] == lines[i];
  }

  lemma {:induction false} UniqueIsListedOnce<Q>(lines: seq<AidLine<Q>>, id: Text, key: GoodsKey)
    requires UniqueLines(lines)
    ensures MoneyCopies(lines, id) == (var line := LineById(lines, id); if line.Some? && line.value.value.Money? then 1 else 0)
    ensures ListedOnceUnder(lines, id, key)
  {
    if lines != [] {
      LastIsNew(lines);
      UniqueIsListedOnce(lines[..|lines| - 1], id, key);
    }
  }

  lemma {:induction false} UniqueCountsOnce<Q(!new)>(m: Arithmetic<Q>, lines: seq<AidLine<Q>>, rs: seq<Realization<Q>>, key: GoodsKey)
    requires Exact(m) && UniqueLines(lines) && forall r | r in rs :: IsShown(m, lines, r)
    ensures PaidListedOnce(lines, rs) && DeliveredListedOnce(m, lines, rs, key)
  {
    forall i | 0 <= i < |rs|
      ensures PaidBy(rs[i]) > 0 ==> MoneyCopies(lines, rs[i].aidLineId) == 1
      ensures ListedOnceUnder(lines, rs[i].aidLineId, key)
    {
      assert IsShown(m, lines, rs[i]);
      UniqueIsListedOnce(lines, rs[i].aidLineId, key);
    }
  }

  // ----- Closing an accepted revision

  lemma {:induction false} PartOfRealized<Q(!new)>(m: Arithmetic<Q>, rs: seq<Realization<Q>>, r: Realization<Q>)
    requires Exact(m) && r in rs
    ensures PaidBy(r) <= RealizedIdr(rs, r.aidLineId)
    ensures DeliveredBy(m, r) <= m.value(RealizedQuantity(m, rs, r.aidLineId))
  {
    if r != rs[|rs| - 1] { PartOfRealized(m, rs[..|rs| - 1], r); }
  }

  lemma {:induction false} FoundByItsId<Q>(lines: seq<AidLine<Q>>, i: nat)
    requires UniqueLines(lines) && i < |lines|
    ensures LineById(lines, lines[i].id) == Some(lines[i])
  {
    if i < |lines| - 1 {
      LastIsNew(lines);
      FoundByItsId(lines[..|lines| - 1], i);
    }
  }

  predicate ApprovedValuesSet<Q>(lines: seq<AidLine<Q>>)
  {
    forall i | 0 <= i < |lines| && lines[i].value.Money? :: lines[i].value.approvedIdr.Some?
  }

  lemma {:induction false} AcceptedLinesAreCovered<Q(!new)>(m: Arithmetic<Q>, previous: seq<AidLine<Q>>, lines: seq<AidLine<Q>>, rs: seq<Realization<Q>>, i: nat)
    requires Exact(m) && UniqueLines(lines) && ApprovedValuesSet(lines) && i < |lines|
    requires Floor(m, previous, lines, rs) == Accepted
    ensures Covered(m, lines[i], rs)
  {
    FloorAcceptsExactly(m, previous, lines, rs);
    FoundByItsId(lines, i);
    assert MoneyCovered(previous, lines, rs, lines[i].id) && GoodsCovered(m, previous, lines, rs, lines[i].id);
    if lines[i].value.Goods? { assert m.value(GrantedQuantity(lines[i])) >= 0.0; }
  }

  lemma {:induction false} AcceptedRealizationsAreShown<Q(!new)>(m: Arithmetic<Q>, previous: seq<AidLine<Q>>, lines: seq<AidLine<Q>>, rs: seq<Realization<Q>>, r: Realization<Q>)
    requires Exact(m) && r in rs
    requires Floor(m, previous, lines, rs) == Accepted
    ensures IsShown(m, lines, r)
  {
    FloorAcceptsExactly(m, previous, lines, rs);
    PartOfRealized(m, rs, r);
    assert MoneyCovered(previous, lines, rs, r.aidLineId) && GoodsCovered(m, previous, lines, rs, r.aidLineId);
  }

  /** When every line is covered, every line and every rupiah and goods total is approved = realized + remainder. */
  lemma {:induction false} CoveredClosureBalances<Q(!new)>(m: Arithmetic<Q>, lines: seq<AidLine<Q>>, rs: seq<Realization<Q>>)
    requires Exact(m) && forall i | 0 <= i < |lines| :: Covered(m, lines[i], rs)
    ensures var c := ClosureOf(m, lines, rs);
            |c.lines| == |lines| && (forall i | 0 <= i < |lines| :: c.lines[i].aidLineId == lines[i].id && Balanced(m, c.lines[i])) &&
            c.approvedIdr == c.realizedIdr + c.remainderIdr &&
            forall key | key in c.goods :: GoodsBalance(m, c.goods[key])
  {
    var c := ClosureOf(m, lines, rs);
    OneEntryPerLine(m, lines, rs);
    forall i | 0 <= i < |lines| ensures c.lines[i].aidLineId == lines[i].id && Balanced(m, c.lines[i]) {
      LineBalancesExactlyWhenCovered(m, lines, rs, i);
    }
    MoneyBalancesExactlyWhenCovered(m, lines, rs);
    forall key | key in c.goods ensures GoodsBalance(m, c.goods[key]) {
      GoodsBalanceExactlyWhenCovered(m, lines, rs, key);
    }
  }

  /** On an accepted revision with its decisions taken, the closure balances. */
  lemma {:induction false} AcceptedClosureBalances<Q(!new)>(m: Arithmetic<Q>, previous: seq<AidLine<Q>>, lines: seq<AidLine<Q>>, rs: seq<Realization<Q>>)
    requires Exact(m) && UniqueLines(lines) && ApprovedValuesSet(lines)
    requires Floor(m, previous, lines, rs) == Accepted
    ensures var c := ClosureOf(m, lines, rs);
            |c.lines| == |lines| && (forall i | 0 <= i < |lines| :: c.lines[i].aidLineId == lines[i].id && Balanced(m, c.lines[i])) &&
            c.approvedIdr == c.realizedIdr + c.remainderIdr &&
            forall key | key in c.goods :: GoodsBalance(m, c.goods[key])
  {
    forall i | 0 <= i < |lines| ensures Covered(m, lines[i], rs) { AcceptedLinesAreCovered(m, previous, lines, rs, i); }
    CoveredClosureBalances(m, lines, rs);
  }

  /** On an accepted revision the closure shows all money and all goods received: no realization is dropped. */
  lemma {:induction false} AcceptedClosureDropsNothing<Q(!new)>(m: Arithmetic<Q>, previous: seq<AidLine<Q>>, lines: seq<AidLine<Q>>, rs: seq<Realization<Q>>, key: GoodsKey)
    requires Exact(m) && UniqueLines(lines)
    requires Floor(m, previous, lines, rs) == Accepted
    ensures forall r | r in rs :: IsShown(m, lines, r)
    ensures ClosureOf(m, lines, rs).realizedIdr == ReceivedIdr(rs)
    ensures m.value(TotalsAt(m, ClosureOf(m, lines, rs).goods, key).realized) == ReceivedGoods(m, lines, rs, key)
  {
    forall r | r in rs ensures IsShown(m, lines, r) { AcceptedRealizationsAreShown(m, previous, lines, rs, r); }
    UniqueCountsOnce(m, lines, rs, key);
    PaymentsCountOnceExactlyWhenListedOnce(m, lines, rs);
    DeliveriesCountOnceExactlyWhenListedOnce(m, lines, rs, key);
  }

  /**
   An accepted revision keeps the unit of a goods line with deliveries, so they stay under that unit; they
   stay under the same kind and unit exactly when the revision leaves the line's kind of aid alone.
   */
  lemma {:induction false} DeliveryKeepsItsUnit<Q(!new)>(m: Arithmetic<Q>, previous: seq<AidLine<Q>>, lines: seq<AidLine<Q>>, rs: seq<Realization<Q>>, r: Realization<Q>)
    requires Exact(m) && r in rs && DeliveredBy(m, r) > 0.0 && Floor(m, previous, lines, rs) == Accepted
    requires LineById(previous, r.aidLineId).Some? && LineById(previous, r.aidLineId).value.value.Goods?
    ensures LineById(lines, r.aidLineId).Some?
    ensures var (before, after) := (LineById(previous, r.aidLineId).value, LineById(lines, r.aidLineId).value);
            after.beneficiaryId == before.beneficiaryId &&
            KeyOf(after) == Some((after.aidType, before.value.unit)) &&
            (KeyOf(after) == KeyOf(before) <==> after.aidType == before.aidType)
  {
    FloorAcceptsExactly(m, previous, lines, rs);
    PartOfRealized(m, rs, r);
    assert GoodsCovered(m, previous, lines, rs, r.aidLineId);
  }

  lemma {:induction false} OneRealizationFloor<Q(!new)>(m: Arithmetic<Q>, before: AidLine<Q>, lines: seq<AidLine<Q>>, r: Realization<Q>)
    requires Exact(m) && r.aidLineId == before.id
    ensures Floor(m, [before], lines, [r]) == Accepted <==>
            MoneyCovered([before], lines, [r], before.id) && GoodsCovered(m, [before], lines, [r], before.id)
  {
    FloorAcceptsExactly(m, [before], lines, [r]);
    assert [r][..0] == [];
    forall id: Text | id != before.id ensures MoneyCovered([before], lines, [r], id) && GoodsCovered(m, [before], lines, [r], id) {
      assert RealizedIdr([r], id) == 0 && RealizedQuantity(m, [r], id) == m.zero && m.value(m.zero) == 0.0;
    }
  }

  /** The floor does not look at the kind of aid: a revision may move what was delivered to another total. */
  lemma {:induction false} ChangedKindMovesDelivery<Q(!new)>(m: Arithmetic<Q>, id: Text, holder: Text, unit: Text, kind: Text, other: Text, five: Q)
    requires Exact(m) && m.value(five) == 5.0 && kind != other
    ensures var before, after := AidLine(id, holder, kind, Goods(unit, five, Some(five))), AidLine(id, holder, other, Goods(unit, five, Some(five)));
            var rs := [Realization(id, None, Some(five))];
            var goods := ClosureOf(m, [after], rs).goods;
            Floor(m, [before], [after], rs) == Accepted && (kind, unit) !in goods &&
            (other, unit) in goods && m.value(goods[(other, unit)].realized) == 5.0
  {
    var before, after := AidLine(id, holder, kind, Goods(unit, five, Some(five))), AidLine(id, holder, other, Goods(unit, five, Some(five)));
    var r := Realization(id, None, Some(five));
    var rs := [r];
    assert rs[..0] == [] && [after][..0] == [] && m.value(m.zero) == 0.0;
    assert RealizedQuantity(m, rs, id) == m.add(m.zero, five) && RealizedIdr(rs, id) == RealizedIdr(rs[..0], id);
    OneRealizationFloor(m, before, [after], r);
    assert ClosureOf(m, [after], rs) == WithLine(m, ClosureOf(m, [], rs), RemainderOf(m, after, 0, m.add(m.zero, five)));
  }

  /** The floor looks up one line per id: a revision may list a paid line twice, and the closure then counts its payments twice. */
  lemma {:induction false} RelistedLineCountsTwice<Q(!new)>(m: Arithmetic<Q>, id: Text, holder: Text)
    requires Exact(m)
    ensures var line: AidLine<Q> := AidLine(id, holder, [], Money(5, Some(5)));
            var rs: seq<Realization<Q>> := [Realization(id, Some(5), None)];
            Floor(m, [line], [line, line], rs) == Accepted && ReceivedIdr(rs) == 5 && ClosureOf(m, [line, line], rs).realizedIdr == 10
  {
    var line: AidLine<Q> := AidLine(id, holder, [], Money(5, Some(5)));
    var r: Realization<Q> := Realization(id, Some(5), None);
    assert [r][..0] == [] && [line, line][..1] == [line] && [line][..0] == [] && m.value(m.zero) == 0.0;
    assert RealizedIdr([r], id) == RealizedIdr([r][..0], id) + 5 && RealizedQuantity(m, [r], id) == RealizedQuantity(m, [r][..0], id);
    OneRealizationFloor(m, line, [line, line], r);
    assert ClosureOf(m, [line], [r]) == WithLine(m, ClosureOf(m, [], [r]), RemainderOf(m, line, 5, m.zero));
    assert ClosureOf(m, [line, line], [r]) == WithLine(m, ClosureOf(m, [line], [r]), RemainderOf(m, line, 5, m.zero));
  }

  /** Without a decision the floor falls back on the requested amount and the closure on nothing, so an accepted revision can fail to balance. */
  lemma {:induction false} UndecidedLineNeedNotBalance<Q(!new)>(m: Arithmetic<Q>, id: Text)
    requires Exact(m)
    ensures var lines: seq<AidLine<Q>> := [AidLine(id, [], [], Money(10, None))];
            var rs: seq<Realization<Q>> := [Realization(id, Some(5), None)];
            Floor(m, lines, lines, rs) == Accepted && !MoneyLinesCovered(m, lines, rs) &&
            ClosureOf(m, lines, rs).approvedIdr != ClosureOf(m, lines, rs).realizedIdr + ClosureOf(m, lines, rs).remainderIdr
  {
    var lines: seq<AidLine<Q>> := [AidLine(id, [], [], Money(10, None))];
    var rs: seq<Realization<Q>> := [Realization(id, Some(5), None)];
    assert rs[..0] == [] && lines[..0] == [];
    FoundByItsId(lines, 0);
    assert RealizedIdr(rs, id) == 5 && m.value(m.zero) == 0.0;
    forall other: Text
      ensures MoneyCovered(lines, lines, rs, other) && GoodsCovered(m, lines, lines, rs, other)
    {
      assert RealizedQuantity(m, rs, other) == m.zero;
      assert RealizedIdr(rs, other) == if other == id then 5 else 0;
    }
    FloorAcceptsExactly(m, lines, lines, rs);
    MoneyBalancesExactlyWhenCovered(m, lines, rs);
    assert !Covered(m, lines[0], rs);
  }
}
