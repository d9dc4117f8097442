/**
 Exact arithmetic on non-negative decimal strings, and its agreement with rational arithmetic.
 A decimal's meaning is the rational number it spells; results come in one normal form, so laws
 of arithmetic carry over to the texts themselves.
 */
module ExactDecimal {
  import opened Sequences
  import opened Texts
  import opened Digits

  const POINT: CodeUnit := 0x2E
  const ZERO: Text := [ZERO_DIGIT]

  function PointAt(s: Text): (i: nat)
    ensures i <= |s|
  {
    if s == [] || s[0] == POINT then 0 else PointAt(s[1..]) + 1
  }

  lemma {:induction false} PointIsFirst(s: Text)
    ensures forall k | 0 <= k < PointAt(s) :: s[k] != POINT
    ensures PointAt(s) < |s| ==> s[PointAt(s)] == POINT
  {
    if s != [] && s[0] != POINT { PointIsFirst(s[1..]); }
  }

  function Whole(s: Text): Text { s[..PointAt(s)] }

  function Fraction(s: Text): Text { if PointAt(s) < |s| then s[PointAt(s) + 1..] else [] }

  /** Digits, optionally followed by a point and more digits. */
  predicate IsDecimal(s: Text)
  {
    Whole(s) != [] && AllDigits(Whole(s)) && AllDigits(Fraction(s)) && (PointAt(s) < |s| ==> Fraction(s) != [])
  }

  /** Spelled out: digits at both ends, and between them at most one unit that is no digit, a point. */
  predicate DigitsAroundPoint(s: Text)
  {
    s != [] && IsDigit(s[0]) && IsDigit(s[|s| - 1]) && (forall i | 0 <= i < |s| :: IsDigit(s[i]) || s[i] == POINT) &&
    forall i, j | 0 <= i < j < |s| :: IsDigit(s[i]) || IsDigit(s[j])
  }

  lemma {:induction false} DecimalHasPoint(s: Text)
    requires IsDecimal(s)
    ensures DigitsAroundPoint(s)
  {
    var p := PointAt(s);
    PointIsFirst(s);
    forall i | 0 <= i < |s| ensures if i == p then s[i] == POINT else IsDigit(s[i]) {
      if i < p { assert s[i] == Whole(s)[i]; } else if i > p { assert s[i] == Fraction(s)[i - p - 1]; }
    }
    assert |Whole(s)| == p;
    assert p < |s| ==> |Fraction(s)| == |s| - p - 1;
  }

  lemma {:induction false} PointMakesDecimal(s: Text)
    requires DigitsAroundPoint(s)
    ensures IsDecimal(s)
  {
    var p := PointAt(s);
    PointIsFirst(s);
    assert p > 0 && |Whole(s)| == p;
    assert forall i | 0 <= i < p :: Whole(s)[i] == s[i];
    if p < |s| {
      assert !IsDigit(s[p]) && |Fraction(s)| == |s| - p - 1;
      forall i | 0 <= i < |Fraction(s)| ensures IsDigit(Fraction(s)[i]) { assert Fraction(s)[i] == s[i + p + 1]; }
    }
  }

  lemma {:induction false} DecimalExactlyWhen(s: Text)
    ensures IsDecimal(s) <==> DigitsAroundPoint(s)
  {
    if IsDecimal(s) { DecimalHasPoint(s); }
    if DigitsAroundPoint(s) { PointMakesDecimal(s); }
  }

  function PadEnd(t: Text, n: nat): Text
  {
    if |t| < n then t + Zeros(n - |t|) else t
  }

  function PadStart(t: Text, n: nat): Text
  {
    if |t| < n then Zeros(n - |t|) + t else t
  }

  function TrimZeros(t: Text): Text
  {
    if t != [] && t[|t| - 1] == ZERO_DIGIT then TrimZeros(t[..|t| - 1]) else t
  }

  /** The decimal's digits as one integer at a common scale. */
  function Scaled(s: Text, scale: nat): nat
    requires IsDecimal(s)
  {
    ToNat(Whole(s) + PadEnd(Fraction(s), scale))
  }

  function CommonScale(a: Text, b: Text): nat { Max(|Fraction(a)|, |Fraction(b)|) }

  function Compare(a: Text, b: Text): int
    requires IsDecimal(a) && IsDecimal(b)
  {
    var scale := CommonScale(a, b);
    if Scaled(a, scale) == Scaled(b, scale) then 0 else if Scaled(a, scale) < Scaled(b, scale) then -1 else 1
  }

  /** An integer written back at a scale, without trailing fractional zeros. */
  function Render(n: nat, scale: nat): Text
  {
    var digits := PadStart(DigitsOf(n), scale + 1);
    if scale == 0 then digits
    else
      var fraction := TrimZeros(digits[|digits| - scale..]);
      var whole := digits[..|digits| - scale];
      if fraction != [] then whole + [POINT] + fraction else whole
  }

  function Add(a: Text, b: Text): Text
    requires IsDecimal(a) && IsDecimal(b)
  {
    var scale := CommonScale(a, b);
    Render(Scaled(a, scale) + Scaled(b, scale), scale)
  }

  function Subtract(a: Text, b: Text): Text
    requires IsDecimal(a) && IsDecimal(b)
  {
    var scale := CommonScale(a, b);
    if Scaled(a, scale) <= Scaled(b, scale) then ZERO
    else Render(Scaled(a, scale) - Scaled(b, scale), scale)
  }

  // ----- Meaning

  /** The rational number n / 10^scale: n divided by ten, scale times. */
  function Ratio(n: nat, scale: nat): real
  {
    if scale == 0 then n as real else Ratio(n, scale - 1) / 10.0
  }

  /** The rational number a decimal spells. */
  function Val(s: Text): real
    requires IsDecimal(s)
  {
    Ratio(ToNat(Whole(s) + Fraction(s)), |Fraction(s)|)
  }

  /** The one spelling arithmetic produces: no superfluous zeros on either side. */
  predicate IsNormal(s: Text)
  {
    IsDecimal(s) && IsShortest(Whole(s)) && (Fraction(s) != [] ==> s[|s| - 1] != ZERO_DIGIT)
  }

  // ----- Arithmetic of ratios at one scale

  lemma {:induction false} RatioOfTenfold(n: nat, scale: nat)
    ensures Ratio(10 * n, scale + 1) == Ratio(n, scale)
  {
    if scale > 0 { RatioOfTenfold(n, scale - 1); }
  }

  lemma {:induction false} RatioShifts(n: nat, scale: nat, k: nat)
    ensures Ratio(n * Pow10(k), scale + k) == Ratio(n, scale)
  {
    if k > 0 {
      RatioShifts(n, scale, k - 1);
      RatioOfTenfold(n * Pow10(k - 1), scale + k - 1);
      assert 10 * (n * Pow10(k - 1)) == n * Pow10(k);
    }
  }

  lemma {:induction false} RatioOrder(m: nat, n: nat, scale: nat)
    ensures Ratio(m, scale) < Ratio(n, scale) <==> m < n
    ensures Ratio(m, scale) == Ratio(n, scale) <==> m == n
  {
    if scale > 0 { RatioOrder(m, n, scale - 1); }
  }

  lemma {:induction false} RatioSum(m: nat, n: nat, scale: nat)
    ensures Ratio(m + n, scale) == Ratio(m, scale) + Ratio(n, scale)
  {
    if scale > 0 { RatioSum(m, n, scale - 1); }
  }

  lemma {:induction false} RatioDifference(m: nat, n: nat, scale: nat)
    requires n <= m
    ensures Ratio(m - n, scale) == Ratio(m, scale) - Ratio(n, scale)
  {
    RatioSum(m - n, n, scale);
  }

  lemma {:induction false} ScaledShifts(s: Text, scale: nat)
    requires IsDecimal(s) && |Fraction(s)| <= scale
    ensures Scaled(s, scale) == ToNat(Whole(s) + Fraction(s)) * Pow10(scale - |Fraction(s)|)
  {
    var w, f := Whole(s), Fraction(s);
    var k := scale - |f|;
    assert w + PadEnd(f, scale) == (w + f) + Zeros(k);
    ToNatConcat(w + f, Zeros(k));
    ToNatOfZeros(k);
  }

  lemma {:induction false} ScaledIsValue(s: Text, scale: nat)
    requires IsDecimal(s) && |Fraction(s)| <= scale
    ensures Val(s) == Ratio(Scaled(s, scale), scale)
  {
    ScaledShifts(s, scale);
    RatioShifts(ToNat(Whole(s) + Fraction(s)), |Fraction(s)|, scale - |Fraction(s)|);
  }

  /** Comparison is the order of the rational values. */
  lemma {:induction false} CompareIsOrder(a: Text, b: Text)
    requires IsDecimal(a) && IsDecimal(b)
    ensures Compare(a, b) == if Val(a) < Val(b) then -1 else if Val(a) == Val(b) then 0 else 1
  {
    var scale := CommonScale(a, b);
    ScaledIsValue(a, scale);
    ScaledIsValue(b, scale);
    RatioOrder(Scaled(a, scale), Scaled(b, scale), scale);
  }

  // ----- What rendering writes

  lemma {:induction false} PointAfter(whole: Text, rest: Text)
    requires AllDigits(whole) && (rest == [] || rest[0] == POINT)
    ensures PointAt(whole + rest) == |whole|
  {
    if whole == [] {
      assert whole + rest == rest;
    } else {
      assert IsDigit(whole[0]);
      PointAfter(whole[1..], rest);
      assert (whole + rest)[1..] == whole[1..] + rest;
    }
  }

  lemma {:induction false} SpelledWithFraction(whole: Text, fraction: Text)
    requires IsShortest(whole) && AllDigits(fraction) && fraction != [] && fraction[|fraction| - 1] != ZERO_DIGIT
    ensures IsNormal(whole + [POINT] + fraction) && AllDigits(whole + fraction)
    ensures Val(whole + [POINT] + fraction) == Ratio(ToNat(whole + fraction), |fraction|)
  {
    var s := whole + [POINT] + fraction;
    PointAfter(whole, [POINT] + fraction);
    assert s == whole + ([POINT] + fraction);
    assert Whole(s) == whole && Fraction(s) == fraction;
  }

  lemma {:induction false} SpelledWhole(whole: Text)
    requires IsShortest(whole)
    ensures IsNormal(whole) && Val(whole) == Ratio(ToNat(whole), 0)
  {
    PointAfter(whole, []);
    assert whole + [] == whole;
    assert Whole(whole) == whole && Fraction(whole) == [];
  }

  lemma {:induction false} TrimmedTail(t: Text)
    requires AllDigits(t)
    ensures |TrimZeros(t)| <= |t| && t == TrimZeros(t) + Zeros(|t| - |TrimZeros(t)|)
    ensures AllDigits(TrimZeros(t)) && (TrimZeros(t) != [] ==> TrimZeros(t)[|TrimZeros(t)| - 1] != ZERO_DIGIT)
  {
    if t != [] && t[|t| - 1] == ZERO_DIGIT {
      var front := t[..|t| - 1];
      TrimmedTail(front);
      var k := |front| - |TrimZeros(front)|;
      assert Zeros(k + 1) == Zeros(k) + [ZERO_DIGIT];
      assert t == front + [ZERO_DIGIT];
    }
  }

  lemma {:induction false} PadStartKeepsValue(t: Text, n: nat)
    requires AllDigits(t)
    ensures AllDigits(PadStart(t, n)) && ToNat(PadStart(t, n)) == ToNat(t)
  {
    if |t| < n {
      ToNatConcat(Zeros(n - |t|), t);
      ToNatOfZeros(n - |t|);
    }
  }

  lemma {:induction false} PaddedNumeral(n: nat, scale: nat)
    ensures var digits := PadStart(DigitsOf(n), scale + 1);
      AllDigits(digits) && ToNat(digits) == n && |digits| > scale && IsShortest(digits[..|digits| - scale])
  {
    var digits := PadStart(DigitsOf(n), scale + 1);
    PadStartKeepsValue(DigitsOf(n), scale + 1);
    ToNatOfDigits(n);
  }

  lemma {:induction false} TrimmedRatio(whole: Text, tail: Text)
    requires AllDigits(whole) && AllDigits(tail)
    ensures AllDigits(whole + TrimZeros(tail)) && AllDigits(whole + tail)
    ensures Ratio(ToNat(whole + TrimZeros(tail)), |TrimZeros(tail)|) == Ratio(ToNat(whole + tail), |tail|)
  {
    TrimmedTail(tail);
    var fraction := TrimZeros(tail);
    var k := |tail| - |fraction|;
    assert whole + tail == (whole + fraction) + Zeros(k);
    ToNatConcat(whole + fraction, Zeros(k));
    ToNatOfZeros(k);
    RatioShifts(ToNat(whole + fraction), |fraction|, k);
  }

  function Spelled(whole: Text, fraction: Text): Text
  {
    if fraction == [] then whole else whole + [POINT] + fraction
  }

  /** What rendering puts before and after the point. */
  lemma {:induction false} NumeralParts(n: nat, scale: nat) returns (whole: Text, tail: Text)
    ensures Render(n, scale) == Spelled(whole, TrimZeros(tail)) && IsShortest(whole)
    ensures |tail| == scale && AllDigits(tail) && AllDigits(whole + tail) && ToNat(whole + tail) == n
  {
    var digits := PadStart(DigitsOf(n), scale + 1);
    PaddedNumeral(n, scale);
    whole, tail := digits[..|digits| - scale], digits[|digits| - scale..];
    assert digits == whole + tail;
    if scale == 0 { assert digits == whole; }
  }

  lemma {:induction false} SpelledIsNormal(whole: Text, fraction: Text)
    requires IsShortest(whole) && AllDigits(fraction) && (fraction != [] ==> fraction[|fraction| - 1] != ZERO_DIGIT)
    ensures AllDigits(whole + fraction)
    ensures IsNormal(Spelled(whole, fraction)) && Val(Spelled(whole, fraction)) == Ratio(ToNat(whole + fraction), |fraction|)
  {
    if fraction == [] {
      SpelledWhole(whole);
      assert whole + fraction == whole;
    } else {
      SpelledWithFraction(whole, fraction);
    }
  }

  /** Rendering spells the ratio, in normal form. */
  lemma {:induction false} RenderIsNormal(n: nat, scale: nat)
    ensures IsNormal(Render(n, scale)) && Val(Render(n, scale)) == Ratio(n, scale)
  {
    var whole, tail := NumeralParts(n, scale);
    TrimmedTail(tail);
    TrimmedRatio(whole, tail);
    SpelledIsNormal(whole, TrimZeros(tail));
  }

  // ----- Normal forms are unique

  lemma {:induction false} SpelledByParts(s: Text)
    requires IsDecimal(s)
    ensures s == Spelled(Whole(s), Fraction(s))
  {
    PointIsFirst(s);
  }

  lemma {:induction false} NoTrailingZero(t: Text, n: nat, k: nat)
    requires IsNormal(t) && k <= |Fraction(t)| && ToNat(Whole(t) + Fraction(t)) == n * Pow10(k)
    ensures k == 0
  {
    if k > 0 {
      SpelledByParts(t);
      LastDigitCounts(Whole(t) + Fraction(t));
      TenTimes(n, k);
    }
  }

  lemma {:induction false} TenTimes(n: nat, k: nat)
    requires k > 0
    ensures n * Pow10(k) % 10 == 0
  {
    var m := n * Pow10(k - 1);
    assert n * Pow10(k) == m * 10;
  }

  lemma {:induction false} SameDigitsSameText(s: Text, t: Text)
    requires IsNormal(s) && IsNormal(t)
    requires |Fraction(s)| == |Fraction(t)| && ToNat(Whole(s) + Fraction(s)) == ToNat(Whole(t) + Fraction(t))
    ensures s == t
  {
    var p := Pow10(|Fraction(s)|);
    ToNatConcat(Whole(s), Fraction(s));
    ToNatConcat(Whole(t), Fraction(t));
    ToNatBound(Fraction(s));
    ToNatBound(Fraction(t));
    QuotientIsUnique(ToNat(Whole(s)), ToNat(Fraction(s)), ToNat(Whole(t)), ToNat(Fraction(t)), p);
    SameLengthSameValue(Fraction(s), Fraction(t));
    ShortestIsDigitsOf(Whole(s));
    ShortestIsDigitsOf(Whole(t));
    SpelledByParts(s);
    SpelledByParts(t);
  }

  lemma {:induction false} QuotientIsUnique(a: nat, r: nat, b: nat, q: nat, p: nat)
    requires r < p && q < p && a * p + r == b * p + q
    ensures a == b && r == q
  {
    if a < b { AtLeastOneStep(a, b, p); }
    if b < a { AtLeastOneStep(b, a, p); }
  }

  lemma {:induction false} AtLeastOneStep(a: nat, b: nat, p: nat)
    requires a < b
    ensures a * p + p <= b * p
  {
    assert b * p == a * p + (b - a) * p;
    assert (b - a - 1) * p >= 0;
  }

  /** A value has exactly one normal spelling. */
  lemma {:induction false} NormalFormIsUnique(s: Text, t: Text)
    requires IsNormal(s) && IsNormal(t) && Val(s) == Val(t)
    ensures s == t
  {
    if |Fraction(s)| <= |Fraction(t)| { NormalFormIsUniqueOrdered(s, t); } else { NormalFormIsUniqueOrdered(t, s); }
  }

  lemma {:induction false} SameRatio(n: nat, scale: nat, k: nat, m: nat)
    requires Ratio(n, scale) == Ratio(m, scale + k)
    ensures m == n * Pow10(k)
  {
    RatioShifts(n, scale, k);
    RatioOrder(n * Pow10(k), m, scale + k);
  }

  lemma {:induction false} NormalFormIsUniqueOrdered(s: Text, t: Text)
    requires IsNormal(s) && IsNormal(t) && Val(s) == Val(t) && |Fraction(s)| <= |Fraction(t)|
    ensures s == t
  {
    var k := |Fraction(t)| - |Fraction(s)|;
    SameRatio(ToNat(Whole(s) + Fraction(s)), |Fraction(s)|, k, ToNat(Whole(t) + Fraction(t)));
    NoTrailingZero(t, ToNat(Whole(s) + Fraction(s)), k);
    SameDigitsSameText(s, t);
  }

  // ----- Main results

  /** A decimal as an integer at a scale. */
  lemma {:induction false} AtScale(s: Text, scale: nat) returns (n: nat)
    requires IsDecimal(s) && |Fraction(s)| <= scale
    ensures n == Scaled(s, scale) && Val(s) == Ratio(n, scale)
  {
    ScaledIsValue(s, scale);
    n := Scaled(s, scale);
  }

  lemma {:induction false} SumAtScale(m: nat, n: nat, scale: nat) returns (r: Text)
    ensures r == Render(m + n, scale) && IsNormal(r) && Val(r) == Ratio(m, scale) + Ratio(n, scale)
  {
    RenderIsNormal(m + n, scale);
    RatioSum(m, n, scale);
    r := Render(m + n, scale);
  }

  /** Addition is exact, and its result is in normal form. */
  lemma {:induction false} AddIsExact(a: Text, b: Text)
    requires IsDecimal(a) && IsDecimal(b)
    ensures IsNormal(Add(a, b)) && Val(Add(a, b)) == Val(a) + Val(b)
  {
    var scale := CommonScale(a, b);
    var m := AtScale(a, scale);
    var n := AtScale(b, scale);
    var r := SumAtScale(m, n, scale);
  }

  lemma {:induction false} ZeroIsNormal()
    ensures IsNormal(ZERO) && Val(ZERO) == 0.0
  {
    RenderIsNormal(0, 0);
    assert Render(0, 0) == ZERO;
  }

  lemma {:induction false} DifferenceAtScale(m: nat, n: nat, scale: nat) returns (r: Text)
    ensures r == if m <= n then ZERO else Render(m - n, scale)
    ensures IsNormal(r) && Val(r) == if Ratio(m, scale) <= Ratio(n, scale) then 0.0 else Ratio(m, scale) - Ratio(n, scale)
  {
    RatioOrder(n, m, scale);
    RatioOrder(m, n, scale);
    if m <= n {
      ZeroIsNormal();
      r := ZERO;
    } else {
      RenderIsNormal(m - n, scale);
      RatioDifference(m, n, scale);
      r := Render(m - n, scale);
    }
  }

  /** Subtraction is exact and stops at zero, and its result is in normal form. */
  lemma {:induction false} SubtractIsExact(a: Text, b: Text)
    requires IsDecimal(a) && IsDecimal(b)
    ensures IsNormal(Subtract(a, b))
    ensures Val(Subtract(a, b)) == if Val(a) <= Val(b) then 0.0 else Val(a) - Val(b)
  {
    var scale := CommonScale(a, b);
    var m := AtScale(a, scale);
    var n := AtScale(b, scale);
    var r := DifferenceAtScale(m, n, scale);
    assert Subtract(a, b) == r;
  }

  lemma {:induction false} AddIsCommutative(a: Text, b: Text)
    requires IsDecimal(a) && IsDecimal(b)
    ensures Add(a, b) == Add(b, a)
  {
    AddIsExact(a, b);
    AddIsExact(b, a);
    NormalFormIsUnique(Add(a, b), Add(b, a));
  }

  /** Sums do not depend on the order or grouping of their terms, not even in how they are written. */
  lemma {:induction false} AddIsCommutativeAndAssociative(a: Text, b: Text, c: Text)
    requires IsDecimal(a) && IsDecimal(b) && IsDecimal(c)
    ensures Add(a, b) == Add(b, a)
    ensures IsDecimal(Add(a, b)) && IsDecimal(Add(b, c)) && Add(Add(a, b), c) == Add(a, Add(b, c))
  {
    AddIsCommutative(a, b);
    AddIsExact(a, b);
    AddIsExact(b, c);
    AddIsExact(Add(a, b), c);
    AddIsExact(a, Add(b, c));
    NormalFormIsUnique(Add(Add(a, b), c), Add(a, Add(b, c)));
  }

  /** Adding back what was subtracted restores the amount, in its normal spelling. */
  lemma {:induction false} AddUndoesSubtract(a: Text, b: Text)
    requires IsDecimal(a) && IsDecimal(b) && Val(b) <= Val(a)
    ensures IsDecimal(Subtract(a, b)) && Add(Subtract(a, b), b) == Add(a, ZERO)
    ensures IsNormal(a) ==> Add(Subtract(a, b), b) == a
  {
    SubtractIsExact(a, b);
    AddIsExact(Subtract(a, b), b);
    ZeroIsNormal();
    AddIsExact(a, ZERO);
    NormalFormIsUnique(Add(Subtract(a, b), b), Add(a, ZERO));
    if IsNormal(a) { NormalFormIsUnique(Add(a, ZERO), a); }
  }
}
