/** Decimal digits as text: the two directions between naturals and their shortest numeral. */
module Digits {
  import opened Texts

  const ZERO_DIGIT: CodeUnit := 0x30

  predicate IsDigit(c: CodeUnit) { 0x30 <= c <= 0x39 }

  predicate AllDigits(t: Text) { forall i {:trigger IsDigit(t[i])} | 0 <= i < |t| :: IsDigit(t[i]) }

  /** The numeral of a natural number, without leading zeros. */
  function DigitsOf(n: nat): (t: Text)
    ensures t != [] && AllDigits(t)
    ensures n > 0 ==> t[0] != ZERO_DIGIT
  {
    if n < 10 then [(0x30 + n) as CodeUnit] else DigitsOf(n / 10) + [(0x30 + n % 10) as CodeUnit]
  }

  /** The natural number a string of digits denotes; leading zeros do not count. */
  function ToNat(t: Text): nat
    requires AllDigits(t)
  {
    if t == [] then 0
    else
      assert IsDigit(t[|t| - 1]);
      ToNat(t[..|t| - 1]) * 10 + (t[|t| - 1] as int - 0x30)
  }

  lemma {:induction false} ToNatOfDigits(n: nat)
    ensures ToNat(DigitsOf(n)) == n
  {
    if n < 10 {
      assert DigitsOf(n)[..0] == [];
    } else {
      ToNatOfDigits(n / 10);
      assert DigitsOf(n)[..|DigitsOf(n)| - 1] == DigitsOf(n / 10);
    }
  }

  function Zeros(n: nat): (t: Text)
    ensures |t| == n && AllDigits(t) && forall i | 0 <= i < n :: t[i] == ZERO_DIGIT
  {
    seq(n, _ => ZERO_DIGIT)
  }

  function Pow10(n: nat): (p: nat)
    ensures p > 0
  {
    if n == 0 then 1 else 10 * Pow10(n - 1)
  }

  lemma {:induction false} ToNatSnoc(t: Text, c: CodeUnit)
    requires AllDigits(t) && IsDigit(c)
    ensures AllDigits(t + [c]) && ToNat(t + [c]) == ToNat(t) * 10 + (c as int - 0x30)
  {
    assert (t + [c])[..|t|] == t;
  }

  lemma {:induction false} TenfoldShift(a: nat, n: nat)
    ensures a * Pow10(n) * 10 == a * Pow10(n + 1)
  {
  }

  lemma {:induction false} ToNatConcat(a: Text, b: Text)
    requires AllDigits(a) && AllDigits(b)
    ensures AllDigits(a + b) && ToNat(a + b) == ToNat(a) * Pow10(|b|) + ToNat(b)
    decreases |b|
  {
    if b == [] {
      assert a + b == a;
    } else {
      var front, last := b[..|b| - 1], b[|b| - 1];
      assert IsDigit(last) && b == front + [last] && a + b == a + front + [last];
      ToNatConcat(a, front);
      ToNatSnoc(a + front, last);
      TenfoldShift(ToNat(a), |front|);
    }
  }

  lemma {:induction false} ToNatOfZeros(n: nat)
    ensures ToNat(Zeros(n)) == 0
  {
    if n > 0 {
      assert Zeros(n) == Zeros(n - 1) + [ZERO_DIGIT];
      ToNatSnoc(Zeros(n - 1), ZERO_DIGIT);
      ToNatOfZeros(n - 1);
    }
  }

  lemma {:induction false} ToNatBound(t: Text)
    requires AllDigits(t)
    ensures ToNat(t) < Pow10(|t|)
    decreases |t|
  {
    if t != [] {
      ToNatBound(t[..|t| - 1]);
      assert IsDigit(t[|t| - 1]);
    }
  }

  /** Digit strings of one length denote different numbers. */
  lemma {:induction false} SameLengthSameValue(a: Text, b: Text)
    requires AllDigits(a) && AllDigits(b) && |a| == |b| && ToNat(a) == ToNat(b)
    ensures a == b
    decreases |a|
  {
    if a != [] {
      var n := |a| - 1;
      assert IsDigit(a[n]) && IsDigit(b[n]);
      SameLengthSameValue(a[..n], b[..n]);
      assert a == a[..n] + [a[n]] && b == b[..n] + [b[n]];
    }
  }

  /** A numeral without a superfluous leading zero. */
  predicate IsShortest(t: Text)
  {
    t != [] && AllDigits(t) && (|t| == 1 || t[0] != ZERO_DIGIT)
  }

  lemma {:induction false} ShortestIsDigitsOf(t: Text)
    requires IsShortest(t)
    ensures t == DigitsOf(ToNat(t))
    decreases |t|
  {
    var n := |t| - 1;
    assert IsDigit(t[n]) && t == t[..n] + [t[n]];
    if n == 0 {
      assert t[..0] == [];
      assert ToNat(t) == t[0] as int - 0x30;
    } else {
      assert IsDigit(t[0]);
      ShortestIsDigitsOf(t[..n]);
      ShortestIsPositive(t[..n]);
      AppendDigit(ToNat(t[..n]), t[n]);
    }
  }

  lemma {:induction false} AppendDigit(front: nat, c: CodeUnit)
    requires front > 0 && IsDigit(c)
    ensures DigitsOf(front * 10 + (c as int - 0x30)) == DigitsOf(front) + [c]
  {
    var last := c as int - 0x30;
    assert (front * 10 + last) / 10 == front && (front * 10 + last) % 10 == last;
  }

  lemma {:induction false} ShortestIsPositive(t: Text)
    requires IsShortest(t) && t[0] != ZERO_DIGIT
    ensures ToNat(t) > 0
    decreases |t|
  {
    assert IsDigit(t[0]) && IsDigit(t[|t| - 1]);
    if |t| > 1 { ShortestIsPositive(t[..|t| - 1]); }
  }

  lemma {:induction false} LastDigitCounts(t: Text)
    requires AllDigits(t) && t != [] && t[|t| - 1] != ZERO_DIGIT
    ensures ToNat(t) % 10 != 0
  {
    assert IsDigit(t[|t| - 1]);
    EndsInDigit(ToNat(t[..|t| - 1]), t[|t| - 1] as int - 0x30);
  }

  lemma {:induction false} EndsInDigit(n: nat, d: int)
    requires 0 < d < 10
    ensures (n * 10 + d) % 10 == d
  {
  }
}
