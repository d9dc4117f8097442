/** Facts about numbers and lists that several parts rest on. */
module Sequences {

  function Min(a: int, b: int): int { if a < b then a else b }

  function Max(a: int, b: int): int { if a < b then b else a }

  lemma {:induction false} BothEmptyOrNeither<T>(xs: seq<T>, ys: seq<T>)
    requires (forall x | x in xs :: x in ys) && (forall y | y in ys :: y in xs)
    ensures xs == [] <==> ys == []
  {
    if xs != [] { assert xs[0] in ys; }
    if ys != [] { assert ys[0] in xs; }
  }

  /** The members that pass, in their order. */
  function Filter<T>(xs: seq<T>, passes: T -> bool): seq<T>
  {
    if xs == [] then []
    else
      var front, x := Filter(xs[..|xs| - 1], passes), xs[|xs| - 1];
      if passes(x) then front + [x] else front
  }

  // ----- Ordered lists

  predicate OrderedBy<T>(xs: seq<T>, before: (T, T) -> bool)
  {
    forall i, j :: 0 <= i < j < |xs| ==> before(xs[i], xs[j])
  }

  /** What comes strictly before never also comes after. */
  ghost predicate Excludes<T(!new)>(strictly: (T, T) -> bool, before: (T, T) -> bool)
  {
    forall a: T, b: T :: strictly(a, b) ==> !before(b, a)
  }

  lemma {:induction false} FirstIsBefore<T>(xs: seq<T>, before: (T, T) -> bool, i: nat)
    requires OrderedBy(xs, before) && i < |xs|
    ensures i == 0 || before(xs[0], xs[i])
  {
  }

  lemma {:induction false} SameFirst<T(!new)>(xs: seq<T>, ys: seq<T>, before: (T, T) -> bool, strictly: (T, T) -> bool)
    requires OrderedBy(xs, before) && OrderedBy(ys, strictly) && Excludes(strictly, before)
    requires multiset(xs) == multiset(ys) && xs != [] && ys != []
    ensures xs[0] == ys[0]
  {
    assert xs[0] in multiset(ys) && ys[0] in multiset(xs);
    var i :| 0 <= i < |ys| && ys[i] == xs[0];
    var j :| 0 <= j < |xs| && xs[j] == ys[0];
    FirstIsBefore(ys, strictly, i);
    FirstIsBefore(xs, before, j);
  }

  lemma {:induction false} TailIsOrdered<T>(xs: seq<T>, before: (T, T) -> bool)
    requires xs != [] && OrderedBy(xs, before)
    ensures OrderedBy(xs[1..], before) && multiset(xs[1..]) == multiset(xs) - multiset{xs[0]}
  {
    assert xs == [xs[0]] + xs[1..];
  }

  /** There is one strict order of a list. */
  lemma {:induction false} OrderedAreEqual<T(!new)>(xs: seq<T>, ys: seq<T>, before: (T, T) -> bool, strictly: (T, T) -> bool)
    requires OrderedBy(xs, before) && OrderedBy(ys, strictly) && Excludes(strictly, before)
    requires multiset(xs) == multiset(ys)
    ensures xs == ys
  {
    if xs == [] || ys == [] {
      assert |multiset(xs)| == |multiset(ys)|;
    } else {
      SameFirst(xs, ys, before, strictly);
      TailIsOrdered(xs, before);
      TailIsOrdered(ys, strictly);
      OrderedAreEqual(xs[1..], ys[1..], before, strictly);
      assert xs == [xs[0]] + xs[1..] && ys == [ys[0]] + ys[1..];
    }
  }
}
