/** Sorting by descending key. With distinct keys, any rearrangement of an ascending list sorts to its reverse. */
module Sorting {
  import opened Sequences

  function InsertDescending<T>(x: T, xs: seq<T>, key: T -> int): seq<T>
  {
    if xs == [] then [x]
    else if key(xs[0]) > key(x) then [xs[0]] + InsertDescending(x, xs[1..], key)
    else [x] + xs
  }

  /** The stable sort by descending key. */
  function SortDescending<T>(xs: seq<T>, key: T -> int): seq<T>
  {
    if xs == [] then [] else InsertDescending(xs[0], SortDescending(xs[1..], key), key)
  }

  lemma {:induction false} InsertAdds<T>(x: T, xs: seq<T>, key: T -> int)
    ensures multiset(InsertDescending(x, xs, key)) == multiset([x]) + multiset(xs)
  {
    if xs != [] {
      assert xs == [xs[0]] + xs[1..];
      if key(xs[0]) > key(x) { InsertAdds(x, xs[1..], key); }
    }
  }

  lemma {:induction false} SortKeepsItems<T>(xs: seq<T>, key: T -> int)
    ensures multiset(SortDescending(xs, key)) == multiset(xs)
  {
    if xs != [] {
      assert xs == [xs[0]] + xs[1..];
      SortKeepsItems(xs[1..], key);
      InsertAdds(xs[0], SortDescending(xs[1..], key), key);
    }
  }

  predicate Descending<T>(xs: seq<T>, key: T -> int)
  {
    forall i, j :: 0 <= i < j < |xs| ==> key(xs[i]) >= key(xs[j])
  }

  predicate DistinctKeys<T>(xs: seq<T>, key: T -> int)
  {
    forall i, j :: 0 <= i < j < |xs| ==> key(xs[i]) != key(xs[j])
  }

  predicate Ascending<T>(xs: seq<T>, key: T -> int)
  {
    forall i, j :: 0 <= i < j < |xs| ==> key(xs[i]) < key(xs[j])
  }

  function Reverse<T>(xs: seq<T>): (r: seq<T>)
    ensures |r| == |xs| && forall i | 0 <= i < |xs| :: r[i] == xs[|xs| - 1 - i]
  {
    if xs == [] then [] else [xs[|xs| - 1]] + Reverse(xs[..|xs| - 1])
  }

  lemma {:induction false} ReverseKeepsItems<T>(xs: seq<T>)
    ensures multiset(Reverse(xs)) == multiset(xs)
  {
    if xs != [] {
      assert xs == xs[..|xs| - 1] + [xs[|xs| - 1]];
      ReverseKeepsItems(xs[..|xs| - 1]);
    }
  }

  lemma {:induction false} InsertKeepsDescending<T>(x: T, xs: seq<T>, key: T -> int)
    requires Descending(xs, key)
    ensures Descending(InsertDescending(x, xs, key), key)
  {
    if xs != [] && key(xs[0]) > key(x) {
      var tail := InsertDescending(x, xs[1..], key);
      InsertKeepsDescending(x, xs[1..], key);
      InsertAdds(x, xs[1..], key);
      forall y | y in tail ensures key(xs[0]) >= key(y) { assert y in multiset(tail); }
    }
  }

  lemma {:induction false} SortIsDescending<T>(xs: seq<T>, key: T -> int)
    ensures Descending(SortDescending(xs, key), key)
  {
    if xs != [] {
      SortIsDescending(xs[1..], key);
      InsertKeepsDescending(xs[0], SortDescending(xs[1..], key), key);
    }
  }

  lemma {:induction false} SortsToReverse<T(!new)>(shuffled: seq<T>, xs: seq<T>, key: T -> int)
    requires Ascending(xs, key) && multiset(shuffled) == multiset(xs)
    ensures SortDescending(shuffled, key) == Reverse(xs)
  {
    SortIsDescending(shuffled, key);
    SortKeepsItems(shuffled, key);
    ReverseKeepsItems(xs);
    OrderedAreEqual(SortDescending(shuffled, key), Reverse(xs), (a, b) => key(a) >= key(b), (a, b) => key(a) > key(b));
  }
}
