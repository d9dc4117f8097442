/**
 What an aid line counts as: an amount, and the total it counts towards. The measure is read from the
 line's content and does not depend on the order of its keys.
 */
module AidMeasures {
  import opened Options
  import opened Texts
  import opened ExactDecimal
  import opened CanonicalJson
  import opened RevisionDelta

  /** What a line adds to which total; the amount is absent when it is no exact decimal. */
  datatype Measure = Measure(key: Text, amount: Option<Text>)

  function Ascii(s: string): Text
    requires forall i | 0 <= i < |s| :: s[i] < '~'
  {
    seq(|s|, i requires 0 <= i < |s| => s[i] as int as CodeUnit)
  }

  // ----- Reading a field

  /** The value under a key; of several, the last. */
  function Find(ms: seq<Member>, key: Text): Value
  {
    if ms == [] then Undefined
    else if ms[|ms| - 1].key == key then ms[|ms| - 1].value
    else Find(ms[..|ms| - 1], key)
  }

  function Field(v: Value, key: Text): Value { if v.Obj? then Find(v.members, key) else Undefined }

  /** The first of two values that is neither null nor missing. */
  function Either(a: Value, b: Value): Value { if a.Null? || a.Undefined? then b else a }

  function TextOr(v: Value, fallback: Text): Text { if v.Str? && v.str != [] then v.str else fallback }

  function Exact(v: Value): Option<Text> { if v.Str? && IsDecimal(v.str) then Some(v.str) else None }

  // ----- The measure

  predicate IsMoney(value: Value) { Field(value, Ascii("kind")) == Str(Ascii("MONEY")) }

  function AmountOf(value: Value): Value
  {
    if IsMoney(value) then Either(Field(value, Ascii("amountApprovedIdr")), Field(value, Ascii("amountRequestedIdr")))
    else Either(Field(value, Ascii("quantityApproved")), Field(value, Ascii("quantityRequested")))
  }

  function GoodsKey(aidType: Value, unit: Value): Text
  {
    TextOr(aidType, Ascii("Barang")) + Ascii(":") + TextOr(unit, Ascii("Item"))
  }

  function TotalKey(aidType: Value, value: Value): Text
  {
    if IsMoney(value) then Ascii("IDR") else GoodsKey(aidType, Field(value, Ascii("unit")))
  }

  function MeasureOf(line: Value): Measure
  {
    var value := Field(line, Ascii("value"));
    Measure(TotalKey(Field(line, Ascii("aidType")), value), Exact(AmountOf(value)))
  }

  function AidMeasure(item: Item): Measure { MeasureOf(item.content) }

  // ----- Key order does not matter

  lemma {:induction false} FindFinds(ms: seq<Member>, key: Text)
    ensures Find(ms, key) == Undefined || exists i | 0 <= i < |ms| :: ms[i].key == key && ms[i].value == Find(ms, key)
  {
    if ms != [] && ms[|ms| - 1].key != key {
      var front := ms[..|ms| - 1];
      FindFinds(front, key);
      if Find(front, key) != Undefined {
        var i :| 0 <= i < |front| && front[i].key == key && front[i].value == Find(front, key);
        assert ms[i] == front[i];
      }
    } else if ms != [] {
      assert ms[|ms| - 1].value == Find(ms, key);
    }
  }

  lemma {:induction false} FindsItsKey(ms: seq<Member>, i: nat)
    requires DistinctKeys(ms) && i < |ms|
    ensures Find(ms, ms[i].key) == ms[i].value
  {
    if i < |ms| - 1 { FindsItsKey(ms[..|ms| - 1], i); }
  }

  lemma {:induction false} FieldIsWellFormed(v: Value, key: Text)
    requires WellFormed(v)
    ensures WellFormed(Field(v, key))
  {
    if v.Obj? { FindFinds(v.members, key); }
  }

  /** A field that is there has an equal counterpart under the same key. */
  lemma {:induction false} FieldHasCounterpart(ms: seq<Member>, ns: seq<Member>, key: Text)
    requires WellFormed(Obj(ms)) && WellFormed(Obj(ns)) && Equivalent(Obj(ms), Obj(ns))
    ensures Find(ms, key) != Undefined ==> Equivalent(Find(ms, key), Find(ns, key))
  {
    FindFinds(ms, key);
    if Find(ms, key) != Undefined {
      var i :| 0 <= i < |ms| && ms[i].key == key && ms[i].value == Find(ms, key);
      assert HasCounterpart(ms[i], ns);
      var j :| 0 <= j < |ns| && ms[i].key == ns[j].key && Equivalent(ms[i].value, ns[j].value);
      FindsItsKey(ns, j);
    }
  }

  /** Values equal up to key order have, under every key, fields equal up to key order. */
  lemma {:induction false} FieldsAreAlike(a: Value, b: Value, key: Text)
    requires WellFormed(a) && WellFormed(b) && Equivalent(a, b)
    ensures Equivalent(Field(a, key), Field(b, key)) && WellFormed(Field(a, key)) && WellFormed(Field(b, key))
  {
    FieldIsWellFormed(a, key);
    FieldIsWellFormed(b, key);
    if a.Obj? && b.Obj? {
      EquivalentIffSameNormalForm(a, b);
      EquivalentIffSameNormalForm(b, a);
      FieldHasCounterpart(a.members, b.members, key);
      FieldHasCounterpart(b.members, a.members, key);
    }
  }

  lemma {:induction false} KindsAreAlike(a: Value, b: Value)
    requires WellFormed(a) && WellFormed(b) && Equivalent(a, b)
    ensures IsMoney(a) == IsMoney(b)
  {
    FieldsAreAlike(a, b, Ascii("kind"));
  }

  lemma {:induction false} AmountsAreAlike(a: Value, b: Value)
    requires WellFormed(a) && WellFormed(b) && Equivalent(a, b)
    ensures Exact(AmountOf(a)) == Exact(AmountOf(b))
  {
    KindsAreAlike(a, b);
    FieldsAreAlike(a, b, Ascii("amountApprovedIdr"));
    FieldsAreAlike(a, b, Ascii("amountRequestedIdr"));
    FieldsAreAlike(a, b, Ascii("quantityApproved"));
    FieldsAreAlike(a, b, Ascii("quantityRequested"));
  }

  lemma {:induction false} TextsAreAlike(a: Value, b: Value, fallback: Text)
    requires Equivalent(a, b)
    ensures TextOr(a, fallback) == TextOr(b, fallback)
  {
  }

  lemma {:induction false} KeysAreAlike(t: Value, u: Value, a: Value, b: Value)
    requires Equivalent(t, u) && WellFormed(a) && WellFormed(b) && Equivalent(a, b)
    ensures TotalKey(t, a) == TotalKey(u, b)
  {
    KindsAreAlike(a, b);
    FieldsAreAlike(a, b, Ascii("unit"));
    TextsAreAlike(t, u, Ascii("Barang"));
    TextsAreAlike(Field(a, Ascii("unit")), Field(b, Ascii("unit")), Ascii("Item"));
  }

  lemma {:induction false} MeasuresAreAlike(a: Value, b: Value)
    requires WellFormed(a) && WellFormed(b) && Equivalent(a, b)
    ensures MeasureOf(a) == MeasureOf(b)
  {
    FieldsAreAlike(a, b, Ascii("value"));
    FieldsAreAlike(a, b, Ascii("aidType"));
    var (v, w) := (Field(a, Ascii("value")), Field(b, Ascii("value")));
    KeysAreAlike(Field(a, Ascii("aidType")), Field(b, Ascii("aidType")), v, w);
    AmountsAreAlike(v, w);
  }

  /** Lines whose contents count as the same are measured the same. */
  lemma {:induction false} SameContentSameMeasure(a: Item, b: Item)
    requires HasText(a) && HasText(b) && SameContent(a, b)
    ensures AidMeasure(a) == AidMeasure(b)
  {
    SameContentIgnoresKeyOrder(a, b);
    MeasuresAreAlike(a.content, b.content);
  }

  // ----- What the measure is

  predicate Holds(v: Value, key: string, field: Value)
    requires forall i | 0 <= i < |key| :: key[i] < '~'
  {
    v.Obj? && DistinctKeys(v.members) && Member(Ascii(key), field) in v.members
  }

  predicate NullOrMissing(v: Value, key: string)
    requires forall i | 0 <= i < |key| :: key[i] < '~'
  {
    v.Obj? && (Holds(v, key, Null) || Holds(v, key, Undefined) || forall m | m in v.members :: m.key != Ascii(key))
  }

  /** The approved amount if there is one, else the requested. */
  predicate Amounts(v: Value, approvedKey: string, requestedKey: string, amount: Value)
    requires forall i | 0 <= i < |approvedKey| :: approvedKey[i] < '~'
    requires forall i | 0 <= i < |requestedKey| :: requestedKey[i] < '~'
  {
    (!amount.Null? && !amount.Undefined? && Holds(v, approvedKey, amount)) ||
    (NullOrMissing(v, approvedKey) && Holds(v, requestedKey, amount))
  }

  lemma {:induction false} HeldFieldIsFound(v: Value, key: string, field: Value)
    requires (forall i | 0 <= i < |key| :: key[i] < '~') && Holds(v, key, field)
    ensures Field(v, Ascii(key)) == field
  {
    var i :| 0 <= i < |v.members| && v.members[i] == Member(Ascii(key), field);
    FindsItsKey(v.members, i);
  }

  lemma {:induction false} MissingFieldIsNotFound(v: Value, key: string)
    requires (forall i | 0 <= i < |key| :: key[i] < '~') && NullOrMissing(v, key)
    ensures Field(v, Ascii(key)).Null? || Field(v, Ascii(key)).Undefined?
  {
    if Holds(v, key, Null) {
      HeldFieldIsFound(v, key, Null);
    } else if Holds(v, key, Undefined) {
      HeldFieldIsFound(v, key, Undefined);
    } else {
      FindFinds(v.members, Ascii(key));
    }
  }

  lemma {:induction false} AmountIsFound(v: Value, approvedKey: string, requestedKey: string, amount: Value)
    requires forall i | 0 <= i < |approvedKey| :: approvedKey[i] < '~'
    requires forall i | 0 <= i < |requestedKey| :: requestedKey[i] < '~'
    requires Amounts(v, approvedKey, requestedKey, amount)
    ensures Either(Field(v, Ascii(approvedKey)), Field(v, Ascii(requestedKey))) == amount
  {
    if !amount.Null? && !amount.Undefined? && Holds(v, approvedKey, amount) {
      HeldFieldIsFound(v, approvedKey, amount);
    } else {
      MissingFieldIsNotFound(v, approvedKey);
      HeldFieldIsFound(v, requestedKey, amount);
    }
  }

  /** A money line counts its approved, else its requested rupiah, towards one total. */
  lemma {:induction false} MoneyIsMeasured(line: Value, value: Value, amount: Value)
    requires Holds(line, "value", value) && Holds(value, "kind", Str(Ascii("MONEY")))
    requires Amounts(value, "amountApprovedIdr", "amountRequestedIdr", amount)
    ensures MeasureOf(line).key == Ascii("IDR")
    ensures MeasureOf(line).amount == if amount.Str? && IsDecimal(amount.str) then Some(amount.str) else None
  {
    HeldFieldIsFound(line, "value", value);
    HeldFieldIsFound(value, "kind", Str(Ascii("MONEY")));
    AmountIsFound(value, "amountApprovedIdr", "amountRequestedIdr", amount);
  }

  /** Any other line counts its approved, else its requested quantity, towards the total of its kind and unit. */
  lemma {:induction false} GoodsAreMeasured(line: Value, value: Value, kind: Value, aidType: Text, unit: Text, amount: Value)
    requires Holds(line, "value", value) && Holds(value, "kind", kind) && kind != Str(Ascii("MONEY"))
    requires Holds(line, "aidType", Str(aidType)) && Holds(value, "unit", Str(unit))
    requires Amounts(value, "quantityApproved", "quantityRequested", amount)
    ensures MeasureOf(line).key ==
      (if aidType == [] then Ascii("Barang") else aidType) + Ascii(":") + (if unit == [] then Ascii("Item") else unit)
    ensures MeasureOf(line).amount == if amount.Str? && IsDecimal(amount.str) then Some(amount.str) else None
  {
    HeldFieldIsFound(line, "value", value);
    HeldFieldIsFound(line, "aidType", Str(aidType));
    HeldFieldIsFound(value, "kind", kind);
    HeldFieldIsFound(value, "unit", Str(unit));
    AmountIsFound(value, "quantityApproved", "quantityRequested", amount);
  }
}
