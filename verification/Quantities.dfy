/**
 The arithmetic of goods quantities, as the rules above it need it: a zero, exact addition, truncated
 subtraction and comparison, each agreeing with the rational number a quantity stands for. Decimal
 strings are such quantities.
 */
module Quantities {
  import opened Texts
  import opened Digits
  import opened ExactDecimal

  datatype Arithmetic<!Q> = Arithmetic(zero: Q, add: (Q, Q) -> Q, subtract: (Q, Q) -> Q, compare: (Q, Q) -> int, value: Q -> real)

  ghost predicate Exact<Q(!new)>(m: Arithmetic<Q>)
  {
    m.value(m.zero) == 0.0 &&
    (forall a: Q :: m.value(a) >= 0.0) &&
    (forall a: Q, b: Q :: m.value(m.add(a, b)) == m.value(a) + m.value(b)) &&
    (forall a: Q, b: Q :: m.value(m.subtract(a, b)) == if m.value(a) <= m.value(b) then 0.0 else m.value(a) - m.value(b)) &&
    (forall a: Q, b: Q :: m.compare(a, b) == if m.value(a) < m.value(b) then -1 else if m.value(a) == m.value(b) then 0 else 1)
  }

  // ----- Decimal strings

  type Decimal = s: Text | IsDecimal(s) witness ZERO

  function AddDecimals(a: Decimal, b: Decimal): Decimal
  {
    AddIsExact(a, b);
    Add(a, b)
  }

  function SubtractDecimals(a: Decimal, b: Decimal): Decimal
  {
    SubtractIsExact(a, b);
    Subtract(a, b)
  }

  function CompareDecimals(a: Decimal, b: Decimal): int { Compare(a, b) }

  function ValueOf(a: Decimal): real { Val(a) }

  function DecimalArithmetic(): Arithmetic<Decimal>
  {
    Arithmetic<Decimal>.Arithmetic(ZERO, AddDecimals, SubtractDecimals, CompareDecimals, ValueOf)
  }

  lemma {:induction false} RatioIsNotNegative(n: nat, scale: nat)
    ensures Ratio(n, scale) >= 0.0
  {
    if scale > 0 { RatioIsNotNegative(n, scale - 1); }
  }

  lemma {:induction false} ValueIsNotNegative(a: Decimal)
    ensures Val(a) >= 0.0
  {
    RatioIsNotNegative(ToNat(Whole(a) + Fraction(a)), |Fraction(a)|);
  }

  /** Every law above holds of the decimal strings the service adds, subtracts and compares. */
  lemma {:induction false} DecimalsAreExact()
    ensures Exact(DecimalArithmetic())
  {
    var m := DecimalArithmetic();
    ZeroIsNormal();
    forall a: Decimal ensures m.value(a) >= 0.0 { ValueIsNotNegative(a); }
    forall a: Decimal, b: Decimal ensures m.value(m.add(a, b)) == m.value(a) + m.value(b) { AddIsExact(a, b); }
    forall a: Decimal, b: Decimal
      ensures m.value(m.subtract(a, b)) == if m.value(a) <= m.value(b) then 0.0 else m.value(a) - m.value(b)
    {
      SubtractIsExact(a, b);
    }
    forall a: Decimal, b: Decimal
      ensures m.compare(a, b) == if m.value(a) < m.value(b) then -1 else if m.value(a) == m.value(b) then 0 else 1
    {
      CompareIsOrder(a, b);
    }
  }
}
