/**
 Totals per unit over a proposal's aid lines, and how a revision moves them: by what is added, less
 what is removed, plus the differences of what is modified.
 */
module RevisionTotals {
  import opened Sequences
  import opened Texts
  import opened ExactDecimal
  import opened RevisionDelta
  import opened AidMeasures

  /** A way to measure lines. */
  type Measurer = Item -> Measure

  predicate GoodMeasure(m: Measure) { m.amount.Some? ==> IsDecimal(m.amount.value) }

  /** Only content matters, up to key order, and amounts are exact. */
  ghost predicate Reads(measure: Measurer)
  {
    (forall a: Item :: GoodMeasure(measure(a))) &&
    (forall a: Item, b: Item :: HasText(a) && HasText(b) && SameContent(a, b) ==> measure(a) == measure(b))
  }

  lemma {:induction false} AidMeasureReads()
    ensures Reads(AidMeasure)
  {
    forall a: Item, b: Item | HasText(a) && HasText(b) && SameContent(a, b) ensures AidMeasure(a) == AidMeasure(b) {
      SameContentSameMeasure(a, b);
    }
  }

  function TotalOf(totals: map<Text, Text>, key: Text): Text { if key in totals then totals[key] else ZERO }

  ghost predicate GoodTotals(totals: map<Text, Text>) { forall k: Text :: IsDecimal(TotalOf(totals, k)) }

  function Counted(totals: map<Text, Text>, m: Measure): map<Text, Text>
    requires GoodMeasure(m) && IsDecimal(TotalOf(totals, m.key))
  {
    if m.amount.Some? then totals[m.key := Add(TotalOf(totals, m.key), m.amount.value)] else totals
  }

  /** What one line adds to one total. */
  ghost function Share(m: Measure, key: Text): real
    requires GoodMeasure(m)
  {
    if m.key == key && m.amount.Some? then Val(m.amount.value) else 0.0
  }

  ghost function SumOf(items: seq<Item>, measure: Measurer, key: Text): real
    requires Reads(measure)
  {
    if items == [] then 0.0 else SumOf(items[..|items| - 1], measure, key) + Share(measure(items[|items| - 1]), key)
  }

  lemma {:induction false} CountedAdds(totals: map<Text, Text>, m: Measure)
    requires GoodMeasure(m) && GoodTotals(totals)
    ensures GoodTotals(Counted(totals, m))
    ensures forall k: Text :: Val(TotalOf(Counted(totals, m), k)) == Val(TotalOf(totals, k)) + Share(m, k)
  {
    var after := Counted(totals, m);
    if m.amount.Some? { AddIsExact(TotalOf(totals, m.key), m.amount.value); }
    forall k: Text ensures IsDecimal(TotalOf(after, k)) && Val(TotalOf(after, k)) == Val(TotalOf(totals, k)) + Share(m, k) {
      if k != m.key { assert TotalOf(after, k) == TotalOf(totals, k); }
    }
  }

  /** The totals of the first `i` lines. */
  ghost predicate Accumulated(totals: map<Text, Text>, items: seq<Item>, measure: Measurer, i: nat)
    requires Reads(measure) && i <= |items|
  {
    GoodTotals(totals) && forall key: Text :: Val(TotalOf(totals, key)) == SumOf(items[..i], measure, key)
  }

  lemma {:induction false} AccumulatesOneMore(totals: map<Text, Text>, items: seq<Item>, measure: Measurer, i: nat)
    requires Reads(measure) && i < |items| && Accumulated(totals, items, measure, i)
    ensures Accumulated(Counted(totals, measure(items[i])), items, measure, i + 1)
  {
    assert items[..i + 1][..i] == items[..i];
    CountedAdds(totals, measure(items[i]));
  }

  /** The totals accumulated line by line are the exact sums. */
  method CalculateTotalsByUnit(items: seq<Item>) returns (totals: map<Text, Text>)
    ensures Reads(AidMeasure) && GoodTotals(totals)
    ensures forall key: Text :: Val(TotalOf(totals, key)) == SumOf(items, AidMeasure, key)
  {
    totals := map[];
    ZeroIsNormal();
    AidMeasureReads();
    ghost var measure: Measurer := AidMeasure;
    for i := 0 to |items|
      invariant Accumulated(totals, items, measure, i)
    {
      AccumulatesOneMore(totals, items, measure, i);
      var m := AidMeasure(items[i]);
      assert m == measure(items[i]);
      if m.amount.Some? { totals := totals[m.key := Add(TotalOf(totals, m.key), m.amount.value)]; }
    }
    assert items[..|items|] == items;
  }

  // ----- Sums do not depend on order

  lemma {:induction false} SumConcat(xs: seq<Item>, ys: seq<Item>, measure: Measurer, key: Text)
    requires Reads(measure)
    ensures SumOf(xs + ys, measure, key) == SumOf(xs, measure, key) + SumOf(ys, measure, key)
  {
    if ys == [] {
      assert xs + ys == xs;
    } else {
      SumConcat(xs, ys[..|ys| - 1], measure, key);
      assert (xs + ys)[..|xs + ys| - 1] == xs + ys[..|ys| - 1];
    }
  }

  lemma {:induction false} SumTakeOut(xs: seq<Item>, i: nat, measure: Measurer, key: Text)
    requires Reads(measure) && i < |xs|
    ensures SumOf(xs, measure, key) == SumOf(xs[..i] + xs[i + 1..], measure, key) + Share(measure(xs[i]), key)
  {
    assert xs == xs[..i] + [xs[i]] + xs[i + 1..];
    SumConcat(xs[..i] + [xs[i]], xs[i + 1..], measure, key);
    SumConcat(xs[..i], [xs[i]], measure, key);
    SumConcat(xs[..i], xs[i + 1..], measure, key);
  }

  /** Lists with unique ids and the same members have the same sum. */
  lemma {:induction false} SameMembersSameSum(xs: seq<Item>, ys: seq<Item>, measure: Measurer, key: Text)
    requires Reads(measure) && UniqueIds(xs) && UniqueIds(ys)
    requires (forall x | x in xs :: x in ys) && (forall y | y in ys :: y in xs)
    ensures SumOf(xs, measure, key) == SumOf(ys, measure, key)
  {
    BothEmptyOrNeither(xs, ys);
    if xs != [] {
      var front, x := xs[..|xs| - 1], xs[|xs| - 1];
      assert x in xs;
      var i: nat :| i < |ys| && ys[i] == x;
      var rest := ys[..i] + ys[i + 1..];
      SumTakeOut(ys, i, measure, key);
      WithoutOne(xs, ys, i);
      SameMembersSameSum(front, rest, measure, key);
    }
  }

  lemma {:induction false} StillInRest(xs: seq<Item>, ys: seq<Item>, i: nat, p: nat)
    requires UniqueIds(xs) && p < |xs| - 1 && i < |ys| && ys[i] == xs[|xs| - 1] && xs[p] in ys
    ensures xs[p] in ys[..i] + ys[i + 1..]
  {
    var rest := ys[..i] + ys[i + 1..];
    var q: nat :| q < |ys| && ys[q] == xs[p];
    assert q != i;
    assert rest[if q < i then q else q - 1] == xs[p];
  }

  lemma {:induction false} StillInFront(xs: seq<Item>, ys: seq<Item>, i: nat, q: nat)
    requires UniqueIds(ys) && xs != [] && i < |ys| && ys[i] == xs[|xs| - 1] && q < |ys| && q != i && ys[q] in xs
    ensures ys[q] in xs[..|xs| - 1]
  {
    var p: nat :| p < |xs| && xs[p] == ys[q];
    assert p != |xs| - 1;
    assert xs[..|xs| - 1][p] == ys[q];
  }

  lemma {:induction false} WithoutOne(xs: seq<Item>, ys: seq<Item>, i: nat)
    requires UniqueIds(xs) && UniqueIds(ys) && xs != [] && i < |ys| && ys[i] == xs[|xs| - 1]
    requires (forall x | x in xs :: x in ys) && (forall y | y in ys :: y in xs)
    ensures var (front, rest) := (xs[..|xs| - 1], ys[..i] + ys[i + 1..]);
      UniqueIds(front) && UniqueIds(rest) && (forall x | x in front :: x in rest) && (forall y | y in rest :: y in front)
  {
    var (front, rest) := (xs[..|xs| - 1], ys[..i] + ys[i + 1..]);
    forall x | x in front ensures x in rest {
      var p: nat :| p < |front| && front[p] == x;
      assert x == xs[p] && xs[p] in xs;
      StillInRest(xs, ys, i, p);
    }
    forall y | y in rest ensures y in front {
      var q: nat :| q < |rest| && rest[q] == y;
      var o: nat := if q < i then q else q + 1;
      assert ys[o] == y && ys[o] in ys;
      StillInFront(xs, ys, i, o);
    }
  }

  // ----- How a revision moves a total

  function Befores(changes: seq<Change>): (r: seq<Item>)
    ensures |r| == |changes|
  {
    seq(|changes|, i requires 0 <= i < |changes| => changes[i].before)
  }

  /** The earlier records of the ids the revision keeps, in the order of the revised version. */
  function Matched(previous: seq<Item>, revised: seq<Item>): seq<Item>
  {
    if revised == [] then []
    else
      var front, found := Matched(previous, revised[..|revised| - 1]), ById(previous, revised[|revised| - 1].id);
      if found.Some? then front + [found.value] else front
  }

  /** The same records, in their own order. */
  function Surviving(previous: seq<Item>, revised: seq<Item>): seq<Item>
  {
    if previous == [] then []
    else
      var front, item := Surviving(previous[..|previous| - 1], revised), previous[|previous| - 1];
      if ById(revised, item.id).Some? then front + [item] else front
  }

  lemma {:induction false} ChangeSums(changes: seq<Change>, c: Change, measure: Measurer, key: Text)
    requires Reads(measure)
    ensures SumOf(Afters(changes + [c]), measure, key) == SumOf(Afters(changes), measure, key) + Share(measure(c.after), key)
    ensures SumOf(Befores(changes + [c]), measure, key) == SumOf(Befores(changes), measure, key) + Share(measure(c.before), key)
  {
    assert Afters(changes + [c]) == Afters(changes) + [c.after];
    assert Befores(changes + [c]) == Befores(changes) + [c.before];
  }

  /** The revised total is what was added, what modified records became, and what did not change. */
  lemma {:induction false} RevisedSplits(previous: seq<Item>, revised: seq<Item>, measure: Measurer, key: Text)
    requires Reads(measure) && Printable(previous) && Printable(revised)
    ensures SumOf(revised, measure, key) ==
      SumOf(AddedIn(previous, revised), measure, key) + SumOf(Afters(ModifiedIn(previous, revised)), measure, key) +
      SumOf(UnchangedIn(previous, revised), measure, key)
    ensures SumOf(Matched(previous, revised), measure, key) ==
      SumOf(Befores(ModifiedIn(previous, revised)), measure, key) + SumOf(UnchangedIn(previous, revised), measure, key)
  {
    if revised != [] {
      var front, item := revised[..|revised| - 1], revised[|revised| - 1];
      RevisedSplits(previous, front, measure, key);
      ByIdFinds(previous, item.id);
      match ById(previous, item.id) {
        case None =>
        case Some(before) =>
          if SameContent(before, item) {
            assert HasText(before) && HasText(item);
          } else {
            ChangeSums(ModifiedIn(previous, front), Change(before, item), measure, key);
          }
      }
    }
  }

  lemma {:induction false} PreviousSplits(previous: seq<Item>, revised: seq<Item>, measure: Measurer, key: Text)
    requires Reads(measure)
    ensures SumOf(previous, measure, key) ==
      SumOf(RemovedFrom(previous, revised), measure, key) + SumOf(Surviving(previous, revised), measure, key)
  {
    if previous != [] {
      PreviousSplits(previous[..|previous| - 1], revised, measure, key);
    }
  }

  lemma {:induction false} MatchedMembers(previous: seq<Item>, revised: seq<Item>, x: Item)
    requires UniqueIds(previous)
    ensures x in Matched(previous, revised) <==> x in previous && Names(revised, x.id)
  {
    if revised != [] {
      var front, item := revised[..|revised| - 1], revised[|revised| - 1];
      MatchedMembers(previous, front, x);
      ByIdFinds(previous, item.id);
      if x in previous { ByIdIsUnique(previous, x); }
      NamesSnoc(front, item, x.id);
      assert revised == front + [item];
    }
  }

  lemma {:induction false} NamesSnoc(items: seq<Item>, item: Item, id: Text)
    ensures Names(items + [item], id) <==> Names(items, id) || item.id == id
  {
    var all := items + [item];
    assert all[|items|] == item;
    if i :| 0 <= i < |items| && items[i].id == id { assert all[i] == items[i]; }
  }

  lemma {:induction false} SurvivingMembers(previous: seq<Item>, revised: seq<Item>, x: Item)
    ensures x in Surviving(previous, revised) <==> x in previous && Names(revised, x.id)
  {
    NamesIsById(revised, x.id);
    if previous != [] {
      var front, item := previous[..|previous| - 1], previous[|previous| - 1];
      SurvivingMembers(front, revised, x);
      assert previous == front + [item];
    }
  }

  lemma {:induction false} SurvivingIsUnique(previous: seq<Item>, revised: seq<Item>)
    requires UniqueIds(previous)
    ensures UniqueIds(Surviving(previous, revised))
  {
    if previous != [] {
      var front, item := previous[..|previous| - 1], previous[|previous| - 1];
      SurvivingIsUnique(front, revised);
      var survivors := Surviving(front, revised);
      forall i | 0 <= i < |survivors| ensures survivors[i].id != item.id {
        SurvivingMembers(front, revised, survivors[i]);
        var j :| 0 <= j < |front| && front[j] == survivors[i];
        assert front[j] == previous[j];
      }
    }
  }

  lemma {:induction false} MatchedIsUnique(previous: seq<Item>, revised: seq<Item>)
    requires UniqueIds(previous) && UniqueIds(revised)
    ensures UniqueIds(Matched(previous, revised))
  {
    if revised != [] {
      var front, item := revised[..|revised| - 1], revised[|revised| - 1];
      MatchedIsUnique(previous, front);
      ByIdFinds(previous, item.id);
      var matched := Matched(previous, front);
      forall i | 0 <= i < |matched| ensures matched[i].id != item.id {
        MatchedMembers(previous, front, matched[i]);
        var j :| 0 <= j < |front| && front[j].id == matched[i].id;
        assert front[j] == revised[j];
      }
    }
  }

  /** Each total moves by exactly what is added, less what is removed, plus what modified records gain. */
  lemma {:induction false} TotalsMoveByDelta(previous: seq<Item>, revised: seq<Item>, measure: Measurer, key: Text)
    requires Reads(measure) && UniqueIds(previous) && UniqueIds(revised) && Printable(previous) && Printable(revised)
    ensures var d := DeltaOf(previous, revised);
      SumOf(revised, measure, key) == SumOf(previous, measure, key) + SumOf(d.added, measure, key) - SumOf(d.removed, measure, key) +
      (SumOf(Afters(d.modified), measure, key) - SumOf(Befores(d.modified), measure, key))
  {
    RevisedSplits(previous, revised, measure, key);
    PreviousSplits(previous, revised, measure, key);
    MatchedIsUnique(previous, revised);
    SurvivingIsUnique(previous, revised);
    var (matched, surviving) := (Matched(previous, revised), Surviving(previous, revised));
    forall x ensures x in matched <==> x in surviving {
      MatchedMembers(previous, revised, x);
      SurvivingMembers(previous, revised, x);
    }
    SameMembersSameSum(matched, surviving, measure, key);
  }

  /** So move the rupiah total and every goods total of a proposal. */
  lemma {:induction false} ProposalTotalsMoveByDelta(previous: seq<Item>, revised: seq<Item>, key: Text)
    requires UniqueIds(previous) && UniqueIds(revised) && Printable(previous) && Printable(revised)
    ensures Reads(AidMeasure)
    ensures var d := DeltaOf(previous, revised);
      SumOf(revised, AidMeasure, key) == SumOf(previous, AidMeasure, key) + SumOf(d.added, AidMeasure, key) - SumOf(d.removed, AidMeasure, key) +
      (SumOf(Afters(d.modified), AidMeasure, key) - SumOf(Befores(d.modified), AidMeasure, key))
  {
    AidMeasureReads();
    TotalsMoveByDelta(previous, revised, AidMeasure, key);
  }
}
