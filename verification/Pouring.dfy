/**
 Pouring an amount into a row of rooms, the first room first. This is the arithmetic under every
 attribution of money to aid lines: what one pour leaves, what two pours add up to, and what is
 left of a pour when it is undone and a smaller one is made.
 */
module Pouring {
  import opened Sequences

  function Monus(a: nat, b: nat): nat { if a > b then a - b else 0 }

  function Sum(xs: seq<nat>): nat
  {
    if xs == [] then 0 else xs[0] + Sum(xs[1..])
  }

  function Pour(rooms: seq<nat>, amount: nat): (taken: seq<nat>)
    ensures |taken| == |rooms|
    ensures forall i | 0 <= i < |rooms| :: taken[i] <= rooms[i]
  {
    if rooms == [] then []
    else
      var share := Min(rooms[0], amount);
      [share] + Pour(rooms[1..], amount - share)
  }

  /** What is left of the rooms after taking some of each. */
  function LeftOver(rooms: seq<nat>, taken: seq<nat>): (left: seq<nat>)
    requires |taken| == |rooms| && forall i | 0 <= i < |rooms| :: taken[i] <= rooms[i]
    ensures |left| == |rooms| && forall i | 0 <= i < |rooms| :: left[i] == rooms[i] - taken[i]
  {
    if rooms == [] then [] else [rooms[0] - taken[0]] + LeftOver(rooms[1..], taken[1..])
  }

  function Plus(xs: seq<nat>, ys: seq<nat>): (zs: seq<nat>)
    requires |xs| == |ys|
    ensures |zs| == |xs| && forall i | 0 <= i < |xs| :: zs[i] == xs[i] + ys[i]
  {
    if xs == [] then [] else [xs[0] + ys[0]] + Plus(xs[1..], ys[1..])
  }

  lemma {:induction false} PourNothing(rooms: seq<nat>)
    ensures forall i | 0 <= i < |rooms| :: Pour(rooms, 0)[i] == 0
  {
    if rooms != [] { PourNothing(rooms[1..]); }
  }

  /** Nothing is lost: what was poured is what fits. */
  lemma {:induction false} PourTotal(rooms: seq<nat>, amount: nat)
    ensures Sum(Pour(rooms, amount)) == Min(amount, Sum(rooms))
  {
    if rooms != [] { PourTotal(rooms[1..], amount - Min(rooms[0], amount)); }
  }

  /** Each room gets exactly what the rooms before it could not hold, as far as it has space. */
  lemma {:induction false} PourAt(rooms: seq<nat>, amount: nat, i: nat)
    requires i < |rooms|
    ensures Pour(rooms, amount)[i] == Min(rooms[i], Monus(amount, Sum(rooms[..i])))
  {
    if i > 0 {
      PourAt(rooms[1..], amount - Min(rooms[0], amount), i - 1);
      assert rooms[..i][1..] == rooms[1..][..i - 1];
    }
  }

  /** No room gets anything while an earlier one has space left. */
  lemma {:induction false} PourIsGreedy(rooms: seq<nat>, amount: nat, i: nat, j: nat)
    requires i < j < |rooms| && Pour(rooms, amount)[j] > 0
    ensures Pour(rooms, amount)[i] == rooms[i]
  {
    PourAt(rooms, amount, i);
    PourAt(rooms, amount, j);
    SumGrows(rooms, i, j);
  }

  lemma {:induction false} SumGrows(xs: seq<nat>, i: nat, j: nat)
    requires i < j <= |xs|
    ensures Sum(xs[..i]) + xs[i] <= Sum(xs[..j])
  {
    if i == 0 {
      assert xs[..j][0] == xs[0] && xs[..0] == [];
    } else {
      SumGrows(xs[1..], i - 1, j - 1);
      assert xs[..i][1..] == xs[1..][..i - 1] && xs[..j][1..] == xs[1..][..j - 1];
    }
  }

  lemma {:induction false} SumSnoc(xs: seq<nat>, i: nat)
    requires i < |xs|
    ensures Sum(xs[..i + 1]) == Sum(xs[..i]) + xs[i]
  {
    if i == 0 {
      assert xs[..1] == [xs[0]] && xs[..0] == [];
    } else {
      SumSnoc(xs[1..], i - 1);
      assert xs[..i + 1][1..] == xs[1..][..i] && xs[..i][1..] == xs[1..][..i - 1];
    }
  }

  /** What one more room takes of an amount. */
  lemma {:induction false} OneMoreRoom(amount: nat, space: nat, room: nat)
    ensures Min(amount, space) + Min(room, Monus(amount, space)) == Min(amount, space + room)
  {
  }

  lemma {:induction false} PouredBefore(rooms: seq<nat>, amount: nat, i: nat)
    requires i <= |rooms|
    ensures Sum(Pour(rooms, amount)[..i]) == Min(amount, Sum(rooms[..i]))
  {
    if i > 0 {
      PouredBefore(rooms, amount, i - 1);
      PourAt(rooms, amount, i - 1);
      SumSnoc(rooms, i - 1);
      SumSnoc(Pour(rooms, amount), i - 1);
      OneMoreRoom(amount, Sum(rooms[..i - 1]), rooms[i - 1]);
    }
  }

  lemma {:induction false} LeftBefore(rooms: seq<nat>, taken: seq<nat>, i: nat)
    requires |taken| == |rooms| && forall k | 0 <= k < |rooms| :: taken[k] <= rooms[k]
    requires i <= |rooms|
    ensures Sum(LeftOver(rooms, taken)[..i]) == Sum(rooms[..i]) - Sum(taken[..i])
  {
    if i > 0 {
      LeftBefore(rooms, taken, i - 1);
      SumSnoc(rooms, i - 1);
      SumSnoc(taken, i - 1);
      SumSnoc(LeftOver(rooms, taken), i - 1);
    }
  }

  lemma {:induction false} PourTwiceAt(rooms: seq<nat>, a: nat, b: nat, i: nat)
    requires i < |rooms|
    ensures Pour(rooms, a)[i] + Pour(LeftOver(rooms, Pour(rooms, a)), b)[i] == Pour(rooms, a + b)[i]
  {
    PourAt(rooms, a, i);
    PourAt(rooms, a + b, i);
    PourAt(LeftOver(rooms, Pour(rooms, a)), b, i);
    PouredBefore(rooms, a, i);
    LeftBefore(rooms, Pour(rooms, a), i);
  }

  /** Two pours in a row fill the rooms like one pour of both amounts. */
  lemma {:induction false} PourTwice(rooms: seq<nat>, a: nat, b: nat)
    ensures Plus(Pour(rooms, a), Pour(LeftOver(rooms, Pour(rooms, a)), b)) == Pour(rooms, a + b)
  {
    var first := Pour(rooms, a);
    var left := LeftOver(rooms, first);
    forall i | 0 <= i < |rooms| ensures first[i] + Pour(left, b)[i] == Pour(rooms, a + b)[i] {
      PourTwiceAt(rooms, a, b, i);
    }
  }

  lemma {:induction false} FullBefore(rooms: seq<nat>, amount: nat, later: seq<nat>, i: nat)
    requires |later| == |rooms| && i <= |rooms|
    requires forall k | 0 <= k < |rooms| :: Pour(rooms, amount)[k] + later[k] <= rooms[k]
    ensures Sum(rooms[..i]) <= amount ==> Sum(later[..i]) == 0
    ensures Min(amount, Sum(rooms[..i])) + Sum(later[..i]) <= Sum(rooms[..i])
  {
    if i > 0 {
      FullBefore(rooms, amount, later, i - 1);
      PourAt(rooms, amount, i - 1);
      SumSnoc(rooms, i - 1);
      SumSnoc(later, i - 1);
    }
  }

  lemma {:induction false} RefillAt(rooms: seq<nat>, amount: nat, later: seq<nat>, less: nat, i: nat)
    requires less <= amount && |later| == |rooms| && i < |rooms|
    requires forall k | 0 <= k < |rooms| :: Pour(rooms, amount)[k] + later[k] <= rooms[k]
    requires forall k | 0 <= k < |rooms| :: later[k] <= rooms[k]
    ensures Pour(LeftOver(rooms, later), less)[i] == Pour(Pour(rooms, amount), less)[i]
  {
    PourAt(rooms, amount, i);
    PourAt(LeftOver(rooms, later), less, i);
    PourAt(Pour(rooms, amount), less, i);
    PouredBefore(rooms, amount, i);
    LeftBefore(rooms, later, i);
    FullBefore(rooms, amount, later, i);
  }

  /**
   Undoing a pour and pouring a smaller amount gives the first pour cut off at that amount, even
   when others have meanwhile taken (`later`) any of the space the first pour had left over.
   */
  lemma {:induction false} RefillIsCutOff(rooms: seq<nat>, amount: nat, later: seq<nat>, less: nat)
    requires less <= amount && |later| == |rooms|
    requires forall i | 0 <= i < |rooms| :: Pour(rooms, amount)[i] + later[i] <= rooms[i]
    ensures forall i | 0 <= i < |rooms| :: later[i] <= rooms[i]
    ensures Pour(LeftOver(rooms, later), less) == Pour(Pour(rooms, amount), less)
  {
    var full := Pour(rooms, amount);
    forall i | 0 <= i < |rooms| ensures later[i] <= rooms[i] { assert full[i] + later[i] <= rooms[i]; }
    var left := LeftOver(rooms, later);
    forall i | 0 <= i < |rooms| ensures Pour(left, less)[i] == Pour(full, less)[i] {
      RefillAt(rooms, amount, later, less, i);
    }
  }
}
