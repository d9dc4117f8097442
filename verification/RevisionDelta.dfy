/**
 What a revision changes. Records of the version in force and of its successor are matched by id and
 compared by canonical text; applying the resulting delta to the earlier version gives the later one,
 and totals move by exactly what the delta says.
 */
module RevisionDelta {
  import opened Options
  import opened Sequences
  import opened Texts
  import opened CanonicalJson
  import opened CanonicalJsonReader

  /** A record with its id and its whole content. */
  datatype Item = Item(id: Text, content: Value)

  datatype Change = Change(before: Item, after: Item)

  datatype Delta = Delta(added: seq<Item>, removed: seq<Item>, modified: seq<Change>, untouched: seq<Item>)

  /** A content that has a canonical text. */
  predicate HasText(item: Item) { WellFormed(item.content) && Canonical(item.content).Ok? }

  predicate Printable(items: seq<Item>) { forall i | 0 <= i < |items| :: HasText(items[i]) }

  predicate SameContent(a: Item, b: Item) { Canonical(a.content) == Canonical(b.content) }

  /** The record an id stands for; the last of several. */
  function ById(items: seq<Item>, id: Text): Option<Item>
  {
    if items == [] then None
    else if items[|items| - 1].id == id then Some(items[|items| - 1])
    else ById(items[..|items| - 1], id)
  }

  /** Content counts as the same exactly when it differs in nothing but the order of object keys. */
  lemma {:induction false} SameContentIgnoresKeyOrder(a: Item, b: Item)
    requires HasText(a) && HasText(b)
    ensures SameContent(a, b) <==> Equivalent(a.content, b.content)
  {
    CanonicalTextDecidesEquality(a.content, b.content);
  }

  // ----- The delta

  function AddedIn(previous: seq<Item>, revised: seq<Item>): seq<Item>
  {
    if revised == [] then []
    else
      var front, item := AddedIn(previous, revised[..|revised| - 1]), revised[|revised| - 1];
      if ById(previous, item.id).None? then front + [item] else front
  }

  function ModifiedIn(previous: seq<Item>, revised: seq<Item>): seq<Change>
  {
    if revised == [] then []
    else
      var front, item := ModifiedIn(previous, revised[..|revised| - 1]), revised[|revised| - 1];
      match ById(previous, item.id)
      case Some(before) => if SameContent(before, item) then front else front + [Change(before, item)]
      case None => front
  }

  function UnchangedIn(previous: seq<Item>, revised: seq<Item>): seq<Item>
  {
    if revised == [] then []
    else
      var front, item := UnchangedIn(previous, revised[..|revised| - 1]), revised[|revised| - 1];
      match ById(previous, item.id)
      case Some(before) => if SameContent(before, item) then front + [item] else front
      case None => front
  }

  function RemovedFrom(previous: seq<Item>, revised: seq<Item>): seq<Item>
  {
    if previous == [] then []
    else
      var front, item := RemovedFrom(previous[..|previous| - 1], revised), previous[|previous| - 1];
      if ById(revised, item.id).None? then front + [item] else front
  }

  function DeltaOf(previous: seq<Item>, revised: seq<Item>): Delta
  {
    Delta(AddedIn(previous, revised), RemovedFrom(previous, revised), ModifiedIn(previous, revised), UnchangedIn(previous, revised))
  }

  method IndexById(items: seq<Item>) returns (index: map<Text, Item>)
    ensures forall id :: id in index <==> ById(items, id).Some?
    ensures forall id | id in index :: ById(items, id) == Some(index[id])
  {
    index := map[];
    for i := 0 to |items|
      invariant forall id :: id in index <==> ById(items[..i], id).Some?
      invariant forall id | id in index :: ById(items[..i], id) == Some(index[id])
    {
      assert items[..i + 1][..i] == items[..i];
      index := index[items[i].id := items[i]];
    }
    assert items[..|items|] == items;
  }

  method DiffById(previous: seq<Item>, revised: seq<Item>) returns (delta: Delta)
    ensures delta == DeltaOf(previous, revised)
  {
    var previousById := IndexById(previous);
    var revisedById := IndexById(revised);
    var added: seq<Item>, modified: seq<Change>, untouched: seq<Item>, removed: seq<Item> := [], [], [], [];
    for i := 0 to |revised|
      invariant added == AddedIn(previous, revised[..i])
      invariant modified == ModifiedIn(previous, revised[..i])
      invariant untouched == UnchangedIn(previous, revised[..i])
    {
      assert revised[..i + 1][..i] == revised[..i];
      var item := revised[i];
      if item.id !in previousById {
        added := added + [item];
      } else if !SameContent(previousById[item.id], item) {
        modified := modified + [Change(previousById[item.id], item)];
      } else {
        untouched := untouched + [item];
      }
    }
    assert revised[..|revised|] == revised;
    for i := 0 to |previous|
      invariant removed == RemovedFrom(previous[..i], revised)
    {
      assert previous[..i + 1][..i] == previous[..i];
      if previous[i].id !in revisedById { removed := removed + [previous[i]]; }
    }
    assert previous[..|previous|] == previous;
    return Delta(added, removed, modified, untouched);
  }

  // ----- Ids

  predicate UniqueIds(items: seq<Item>)
  {
    forall i, j :: 0 <= i < j < |items| ==> items[i].id != items[j].id
  }

  lemma {:induction false} ByIdFinds(items: seq<Item>, id: Text)
    ensures ById(items, id).Some? ==> ById(items, id).value in items && ById(items, id).value.id == id
    ensures ById(items, id).None? ==> forall i | 0 <= i < |items| :: items[i].id != id
  {
    if items != [] { ByIdFinds(items[..|items| - 1], id); }
  }

  lemma {:induction false} ByIdIsUnique(items: seq<Item>, item: Item)
    requires UniqueIds(items) && item in items
    ensures ById(items, item.id) == Some(item)
  {
    var i :| 0 <= i < |items| && items[i] == item;
    ByIdFinds(items, item.id);
    if ById(items, item.id).Some? {
      var j :| 0 <= j < |items| && items[j] == ById(items, item.id).value;
      assert i == j;
    }
  }

  predicate InChanges(changes: seq<Change>, item: Item) { exists k | 0 <= k < |changes| :: changes[k].after == item }

  /** Where each record of the revised version went. */
  lemma {:induction false} RevisedIsSorted(previous: seq<Item>, revised: seq<Item>, item: Item)
    ensures item in AddedIn(previous, revised) <==> item in revised && ById(previous, item.id).None?
    ensures item in UnchangedIn(previous, revised) <==>
      item in revised && ById(previous, item.id).Some? && SameContent(ById(previous, item.id).value, item)
    ensures InChanges(ModifiedIn(previous, revised), item) <==>
      item in revised && ById(previous, item.id).Some? && !SameContent(ById(previous, item.id).value, item)
  {
    if revised != [] {
      var front, last := revised[..|revised| - 1], revised[|revised| - 1];
      RevisedIsSorted(previous, front, item);
      assert revised == front + [last];
      var changes := ModifiedIn(previous, front);
      if ById(previous, last.id).Some? && !SameContent(ById(previous, last.id).value, last) {
        ChangesSnoc(changes, Change(ById(previous, last.id).value, last), item);
      }
    }
  }

  lemma {:induction false} ChangesSnoc(changes: seq<Change>, c: Change, item: Item)
    ensures InChanges(changes + [c], item) <==> InChanges(changes, item) || c.after == item
  {
    var all := changes + [c];
    assert all[|changes|] == c;
    if k :| 0 <= k < |changes| && changes[k].after == item { assert all[k] == changes[k]; }
  }

  lemma {:induction false} RemovedIsSorted(previous: seq<Item>, revised: seq<Item>, item: Item)
    ensures item in RemovedFrom(previous, revised) <==> item in previous && ById(revised, item.id).None?
  {
    if previous != [] {
      var front, last := previous[..|previous| - 1], previous[|previous| - 1];
      RemovedIsSorted(front, revised, item);
      assert previous == front + [last];
    }
  }

  function Afters(changes: seq<Change>): (r: seq<Item>)
    ensures |r| == |changes|
  {
    seq(|changes|, i requires 0 <= i < |changes| => changes[i].after)
  }

  /** Each list of the delta keeps the order of the version it is taken from. */
  lemma {:induction false} DeltaIsInOrder(previous: seq<Item>, revised: seq<Item>)
    ensures var d := DeltaOf(previous, revised);
      d.added == Filter(revised, (x: Item) => ById(previous, x.id).None?) &&
      d.untouched == Filter(revised, (x: Item) => ById(previous, x.id).Some? && SameContent(ById(previous, x.id).value, x)) &&
      Afters(d.modified) == Filter(revised, (x: Item) => ById(previous, x.id).Some? && !SameContent(ById(previous, x.id).value, x)) &&
      d.removed == Filter(previous, (x: Item) => ById(revised, x.id).None?)
  {
    RevisedInOrder(previous, revised);
    RemovedInOrder(previous, revised);
  }

  lemma {:induction false} RevisedInOrder(previous: seq<Item>, revised: seq<Item>)
    ensures AddedIn(previous, revised) == Filter(revised, (x: Item) => ById(previous, x.id).None?)
    ensures UnchangedIn(previous, revised) ==
      Filter(revised, (x: Item) => ById(previous, x.id).Some? && SameContent(ById(previous, x.id).value, x))
    ensures Afters(ModifiedIn(previous, revised)) ==
      Filter(revised, (x: Item) => ById(previous, x.id).Some? && !SameContent(ById(previous, x.id).value, x))
  {
    if revised != [] {
      var front, item := revised[..|revised| - 1], revised[|revised| - 1];
      var changes := ModifiedIn(previous, front);
      RevisedInOrder(previous, front);
      if ById(previous, item.id).Some? {
        var c := Change(ById(previous, item.id).value, item);
        assert Afters(changes + [c]) == Afters(changes) + [item];
      }
    }
  }

  lemma {:induction false} RemovedInOrder(previous: seq<Item>, revised: seq<Item>)
    ensures RemovedFrom(previous, revised) == Filter(previous, (x: Item) => ById(revised, x.id).None?)
  {
    if previous != [] { RemovedInOrder(previous[..|previous| - 1], revised); }
  }

  // ----- Held and untouched ids

  predicate Names(items: seq<Item>, id: Text) { exists i | 0 <= i < |items| :: items[i].id == id }

  predicate ChangesId(changes: seq<Change>, id: Text) { exists k | 0 <= k < |changes| :: changes[k].after.id == id }

  function IdsOf(items: seq<Item>): seq<Text>
  {
    seq(|items|, i requires 0 <= i < |items| => items[i].id)
  }

  function AfterIds(changes: seq<Change>): seq<Text>
  {
    seq(|changes|, i requires 0 <= i < |changes| => changes[i].after.id)
  }

  /** Added, modified and removed records: withheld from realization until the revision is settled. */
  function HeldIds(d: Delta): seq<Text> { IdsOf(d.added) + AfterIds(d.modified) + IdsOf(d.removed) }

  function UntouchedIds(d: Delta): seq<Text> { IdsOf(d.untouched) }

  predicate Held(d: Delta, id: Text) { Names(d.added, id) || ChangesId(d.modified, id) || Names(d.removed, id) }

  lemma {:induction false} IdsAreNames(items: seq<Item>, id: Text)
    ensures id in IdsOf(items) <==> Names(items, id)
  {
    if i :| 0 <= i < |items| && items[i].id == id { assert IdsOf(items)[i] == id; }
  }

  lemma {:induction false} HeldIdsAreHeld(d: Delta, id: Text)
    ensures id in HeldIds(d) <==> Held(d, id)
  {
    IdsAreNames(d.added, id);
    IdsAreNames(d.removed, id);
    if k :| 0 <= k < |d.modified| && d.modified[k].after.id == id { assert AfterIds(d.modified)[k] == id; }
  }

  /** The ids withheld until the revision is settled, and those that keep following the approval in force, divide all ids between them. */
  lemma {:induction false} HeldAndUntouchedPartition(previous: seq<Item>, revised: seq<Item>, id: Text)
    requires UniqueIds(previous) && UniqueIds(revised)
    ensures var d := DeltaOf(previous, revised);
      (id in HeldIds(d) || id in UntouchedIds(d) <==> id in IdsOf(previous) || id in IdsOf(revised)) &&
      !(id in HeldIds(d) && id in UntouchedIds(d))
  {
    var d := DeltaOf(previous, revised);
    HeldIdsAreHeld(d, id);
    IdsAreNames(d.untouched, id);
    IdsAreNames(previous, id);
    IdsAreNames(revised, id);
    HeldIsWhat(previous, revised, id);
    UnchangedIsWhat(previous, revised, id);
    NamesIsById(previous, id);
    NamesIsById(revised, id);
  }

  lemma {:induction false} NamesIsById(items: seq<Item>, id: Text)
    ensures Names(items, id) <==> ById(items, id).Some?
  {
    ByIdFinds(items, id);
    if ById(items, id).Some? {
      var i :| 0 <= i < |items| && items[i] == ById(items, id).value;
    }
  }

  lemma {:induction false} UnchangedIsWhat(previous: seq<Item>, revised: seq<Item>, id: Text)
    requires UniqueIds(previous) && UniqueIds(revised)
    ensures Names(UnchangedIn(previous, revised), id) <==>
      ById(previous, id).Some? && ById(revised, id).Some? && SameContent(ById(previous, id).value, ById(revised, id).value)
  {
    var untouched := UnchangedIn(previous, revised);
    ByIdFinds(revised, id);
    if i :| 0 <= i < |untouched| && untouched[i].id == id {
      RevisedIsSorted(previous, revised, untouched[i]);
      ByIdIsUnique(revised, untouched[i]);
    }
    if ById(revised, id).Some? {
      RevisedIsSorted(previous, revised, ById(revised, id).value);
      if ById(revised, id).value in untouched {
        var i :| 0 <= i < |untouched| && untouched[i] == ById(revised, id).value;
      }
    }
  }

  lemma {:induction false} HeldIsWhat(previous: seq<Item>, revised: seq<Item>, id: Text)
    requires UniqueIds(previous) && UniqueIds(revised)
    ensures Held(DeltaOf(previous, revised), id) <==>
      match (ById(previous, id), ById(revised, id))
      case (None, None) => false
      case (Some(a), Some(b)) => !SameContent(a, b)
      case _ => true
  {
    AddedIsWhat(previous, revised, id);
    ModifiedIsWhat(previous, revised, id);
    RemovedIsWhat(previous, revised, id);
  }

  /** Held back is what only one version has, and what both have with contents that differ in more than key order. */
  lemma {:induction false} HeldBackExactlyWhen(previous: seq<Item>, revised: seq<Item>, id: Text)
    requires UniqueIds(previous) && UniqueIds(revised) && Printable(previous) && Printable(revised)
    ensures id in HeldIds(DeltaOf(previous, revised)) <==>
      (id in IdsOf(previous) && id !in IdsOf(revised)) || (id !in IdsOf(previous) && id in IdsOf(revised)) ||
      exists i, j | 0 <= i < |previous| && 0 <= j < |revised| ::
        previous[i].id == id == revised[j].id && !Equivalent(previous[i].content, revised[j].content)
  {
    var d, a, b := DeltaOf(previous, revised), ById(previous, id), ById(revised, id);
    HeldIdsAreHeld(d, id);
    HeldIsWhat(previous, revised, id);
    IdsAreNames(previous, id);
    IdsAreNames(revised, id);
    NamesIsById(previous, id);
    NamesIsById(revised, id);
    forall i, j | 0 <= i < |previous| && 0 <= j < |revised| && previous[i].id == id == revised[j].id
      ensures a == Some(previous[i]) && b == Some(revised[j]) && (SameContent(previous[i], revised[j]) <==> Equivalent(previous[i].content, revised[j].content))
    {
      ByIdIsUnique(previous, previous[i]);
      ByIdIsUnique(revised, revised[j]);
      SameContentIgnoresKeyOrder(previous[i], revised[j]);
    }
    if a.Some? && b.Some? {
      ByIdFinds(previous, id);
      ByIdFinds(revised, id);
      var i :| 0 <= i < |previous| && previous[i] == a.value;
      var j :| 0 <= j < |revised| && revised[j] == b.value;
      assert previous[i].id == id == revised[j].id;
    }
  }

  lemma {:induction false} AddedIsWhat(previous: seq<Item>, revised: seq<Item>, id: Text)
    ensures Names(AddedIn(previous, revised), id) <==> ById(previous, id).None? && ById(revised, id).Some?
  {
    var added := AddedIn(previous, revised);
    ByIdFinds(revised, id);
    if i :| 0 <= i < |added| && added[i].id == id { RevisedIsSorted(previous, revised, added[i]); }
    if ById(revised, id).Some? {
      RevisedIsSorted(previous, revised, ById(revised, id).value);
      if ById(revised, id).value in added {
        var i :| 0 <= i < |added| && added[i] == ById(revised, id).value;
      }
    }
  }

  lemma {:induction false} RemovedIsWhat(previous: seq<Item>, revised: seq<Item>, id: Text)
    ensures Names(RemovedFrom(previous, revised), id) <==> ById(previous, id).Some? && ById(revised, id).None?
  {
    var removed := RemovedFrom(previous, revised);
    ByIdFinds(previous, id);
    if i :| 0 <= i < |removed| && removed[i].id == id { RemovedIsSorted(previous, revised, removed[i]); }
    if ById(previous, id).Some? {
      RemovedIsSorted(previous, revised, ById(previous, id).value);
      if ById(previous, id).value in removed {
        var i :| 0 <= i < |removed| && removed[i] == ById(previous, id).value;
      }
    }
  }

  lemma {:induction false} ModifiedIsWhat(previous: seq<Item>, revised: seq<Item>, id: Text)
    requires UniqueIds(revised)
    ensures ChangesId(ModifiedIn(previous, revised), id) <==>
      ById(previous, id).Some? && ById(revised, id).Some? && !SameContent(ById(previous, id).value, ById(revised, id).value)
  {
    var changes := ModifiedIn(previous, revised);
    ByIdFinds(revised, id);
    if k :| 0 <= k < |changes| && changes[k].after.id == id {
      assert InChanges(changes, changes[k].after);
      RevisedIsSorted(previous, revised, changes[k].after);
      ByIdIsUnique(revised, changes[k].after);
    }
    if ById(revised, id).Some? { RevisedIsSorted(previous, revised, ById(revised, id).value); }
  }

  // ----- Applying a delta

  function ChangeOf(changes: seq<Change>, id: Text): Option<Item>
  {
    if changes == [] then None
    else if changes[|changes| - 1].after.id == id then Some(changes[|changes| - 1].after)
    else ChangeOf(changes[..|changes| - 1], id)
  }

  /** The earlier records without the removed, with the modified replaced. */
  function Kept(previous: seq<Item>, d: Delta): seq<Item>
  {
    if previous == [] then []
    else
      var front, item := Kept(previous[..|previous| - 1], d), previous[|previous| - 1];
      if Names(d.removed, item.id) then front
      else if ChangeOf(d.modified, item.id).Some? then front + [ChangeOf(d.modified, item.id).value]
      else front + [item]
  }

  function Applied(previous: seq<Item>, d: Delta): seq<Item> { Kept(previous, d) + d.added }

  lemma {:induction false} ChangeOfFinds(changes: seq<Change>, id: Text)
    ensures ChangeOf(changes, id).Some? <==> ChangesId(changes, id)
    ensures ChangeOf(changes, id).Some? ==> ChangeOf(changes, id).value.id == id && InChanges(changes, ChangeOf(changes, id).value)
  {
    if changes != [] {
      var front, c := changes[..|changes| - 1], changes[|changes| - 1];
      ChangeOfFinds(front, id);
      assert changes == front + [c];
      ChangesSnoc(front, c, if ChangeOf(changes, id).Some? then ChangeOf(changes, id).value else c.after);
      if k :| 0 <= k < |front| && front[k].after.id == id { assert changes[k].after.id == id; }
      assert changes[|front|] == c;
    }
  }

  lemma {:induction false} ByIdConcat(xs: seq<Item>, ys: seq<Item>, id: Text)
    ensures ById(xs + ys, id) == if ById(ys, id).Some? then ById(ys, id) else ById(xs, id)
  {
    if ys == [] {
      assert xs + ys == xs;
    } else {
      var front, last := ys[..|ys| - 1], ys[|ys| - 1];
      ByIdConcat(xs, front, id);
      assert xs + ys == (xs + front) + [last];
    }
  }

  lemma {:induction false} KeptById(previous: seq<Item>, d: Delta, id: Text)
    ensures ById(Kept(previous, d), id) ==
      if ById(previous, id).None? || Names(d.removed, id) then None
      else if ChangeOf(d.modified, id).Some? then ChangeOf(d.modified, id)
      else ById(previous, id)
  {
    if previous != [] {
      var front, item := previous[..|previous| - 1], previous[|previous| - 1];
      KeptById(front, d, id);
      ChangeOfFinds(d.modified, item.id);
    }
  }

  /** Looked up by id, the earlier version with its delta applied has exactly the revised records, each with the revised content. */
  lemma {:induction false} AppliedIsRevised(previous: seq<Item>, revised: seq<Item>, id: Text)
    requires UniqueIds(previous) && UniqueIds(revised)
    ensures match (ById(Applied(previous, DeltaOf(previous, revised)), id), ById(revised, id))
      case (Some(a), Some(b)) => SameContent(a, b)
      case (None, None) => true
      case _ => false
  {
    var d := DeltaOf(previous, revised);
    ByIdConcat(Kept(previous, d), d.added, id);
    KeptById(previous, d, id);
    AddedIsWhat(previous, revised, id);
    RemovedIsWhat(previous, revised, id);
    ModifiedIsWhat(previous, revised, id);
    ChangeOfFinds(d.modified, id);
    NamesIsById(d.added, id);
    ByIdFinds(d.added, id);
    if ById(d.added, id).Some? {
      RevisedIsSorted(previous, revised, ById(d.added, id).value);
      ByIdIsUnique(revised, ById(d.added, id).value);
    }
    if ChangeOf(d.modified, id).Some? {
      RevisedIsSorted(previous, revised, ChangeOf(d.modified, id).value);
      ByIdIsUnique(revised, ChangeOf(d.modified, id).value);
    }
  }

  /** No id occurs twice in the result, so nothing else is in it. */
  lemma {:induction false} AppliedHasUniqueIds(previous: seq<Item>, revised: seq<Item>)
    requires UniqueIds(previous) && UniqueIds(revised)
    ensures UniqueIds(Applied(previous, DeltaOf(previous, revised)))
  {
    var d := DeltaOf(previous, revised);
    KeptIsUnique(previous, d);
    AddedIsUnique(previous, revised);
    var kept := Kept(previous, d);
    forall i, j | 0 <= i < |kept| && 0 <= j < |d.added| ensures kept[i].id != d.added[j].id {
      RevisedIsSorted(previous, revised, d.added[j]);
      KeptNames(previous, d, kept[i].id);
      NamesIsById(previous, kept[i].id);
    }
  }

  lemma {:induction false} KeptNames(previous: seq<Item>, d: Delta, id: Text)
    ensures Names(Kept(previous, d), id) ==> Names(previous, id)
  {
    KeptById(previous, d, id);
    NamesIsById(Kept(previous, d), id);
    NamesIsById(previous, id);
  }

  lemma {:induction false} KeptIsUnique(previous: seq<Item>, d: Delta)
    requires UniqueIds(previous)
    ensures UniqueIds(Kept(previous, d))
  {
    if previous != [] {
      var front, item := previous[..|previous| - 1], previous[|previous| - 1];
      KeptIsUnique(front, d);
      ChangeOfFinds(d.modified, item.id);
      var kept := Kept(front, d);
      forall i | 0 <= i < |kept| ensures kept[i].id != item.id {
        KeptNames(front, d, kept[i].id);
        var j :| 0 <= j < |front| && front[j].id == kept[i].id;
        assert front[j] == previous[j];
      }
    }
  }

  lemma {:induction false} AddedIsUnique(previous: seq<Item>, revised: seq<Item>)
    requires UniqueIds(revised)
    ensures UniqueIds(AddedIn(previous, revised))
  {
    if revised != [] {
      var front, item := revised[..|revised| - 1], revised[|revised| - 1];
      AddedIsUnique(previous, front);
      var added := AddedIn(previous, front);
      forall i | 0 <= i < |added| ensures added[i].id != item.id {
        RevisedIsSorted(previous, front, added[i]);
        var j :| 0 <= j < |front| && front[j] == added[i];
        assert front[j] == revised[j];
      }
    }
  }
}
