/**
 Canonical snapshot text: the printer that revisions are compared with and certificates are
 committed to, a reader for the texts it prints, and the proof that two values print alike
 exactly when they differ in nothing but the order of object keys.
 */
module CanonicalJson {
  import opened Options
  import opened Sequences
  import opened Texts
  import opened Digits

  const MAX_SAFE_INTEGER: int := 0x1F_FFFF_FFFF_FFFF

  datatype SnapshotError = UndefinedField | RawBigInt | UnsafeNumber | UnsupportedType

  /** A runtime value. `Number` is an integral double, `Fractional` any other number (fractions, NaN, infinities). */
  datatype Value =
    | Null
    | Undefined
    | BigInteger(big: int)
    | Number(num: int)
    | Fractional
    | Bool(b: bool)
    | Str(str: Text)
    | Arr(items: seq<Value>)
    | Obj(members: seq<Member>)
    | Callable

  datatype Member = Member(key: Text, value: Value)

  predicate DistinctKeys(ms: seq<Member>)
  {
    forall i, j :: 0 <= i < j < |ms| ==> ms[i].key != ms[j].key
  }

  /** Objects hold each key once, at every depth. */
  predicate WellFormed(v: Value)
  {
    match v
    case Arr(items) => forall e | e in items :: WellFormed(e)
    case Obj(members) => DistinctKeys(members) && forall m | m in members :: WellFormed(m.value)
    case _ => true
  }

  /** Values a snapshot may hold, at every depth. */
  predicate Storable(v: Value)
  {
    match v
    case Number(n) => -MAX_SAFE_INTEGER <= n <= MAX_SAFE_INTEGER
    case Arr(items) => forall e | e in items :: Storable(e)
    case Obj(members) => forall m | m in members :: Storable(m.value)
    case Null | Bool(_) | Str(_) => true
    case _ => false
  }

  /** Equality that ignores the order in which an object's keys were written. */
  predicate Equivalent(a: Value, b: Value)
    decreases a, 1
  {
    match (a, b)
    case (Arr(xs), Arr(ys)) =>
      |xs| == |ys| && forall i | 0 <= i < |xs| :: Equivalent(xs[i], ys[i])
    case (Obj(ms), Obj(ns)) =>
      |ms| == |ns| && forall i | 0 <= i < |ms| :: HasCounterpart(ms[i], ns)
    case _ => a == b
  }

  predicate HasCounterpart(m: Member, ns: seq<Member>)
    decreases m, 0
  {
    exists j | 0 <= j < |ns| :: m.key == ns[j].key && Equivalent(m.value, ns[j].value)
  }

  // ----- Sorting an object's members by key

  function InsertMember(m: Member, ms: seq<Member>): (r: seq<Member>)
    ensures multiset(r) == multiset([m]) + multiset(ms)
  {
    if ms == [] then [m]
    else if Less(ms[0].key, m.key) then
      assert ms == [ms[0]] + ms[1..];
      [ms[0]] + InsertMember(m, ms[1..])
    else [m] + ms
  }

  function SortMembers(ms: seq<Member>): (r: seq<Member>)
    ensures multiset(r) == multiset(ms)
  {
    if ms == [] then []
    else
      assert ms == [ms[0]] + ms[1..];
      InsertMember(ms[0], SortMembers(ms[1..]))
  }

  // ----- The printer

  const QUOTE: CodeUnit := 0x22
  const BACKSLASH: CodeUnit := 0x5C
  const COMMA: CodeUnit := 0x2C
  const COLON: CodeUnit := 0x3A
  const OPEN_BRACKET: CodeUnit := 0x5B
  const CLOSE_BRACKET: CodeUnit := 0x5D
  const OPEN_BRACE: CodeUnit := 0x7B
  const CLOSE_BRACE: CodeUnit := 0x7D
  const MINUS: CodeUnit := 0x2D
  const NULL_TEXT: Text := [0x6E, 0x75, 0x6C, 0x6C]
  const TRUE_TEXT: Text := [0x74, 0x72, 0x75, 0x65]
  const FALSE_TEXT: Text := [0x66, 0x61, 0x6C, 0x73, 0x65]

  function NumberText(n: int): Text
  {
    if n < 0 then [MINUS] + DigitsOf(-n) else DigitsOf(n)
  }

  predicate IsLead(c: CodeUnit) { 0xD800 <= c <= 0xDBFF }
  predicate IsTrail(c: CodeUnit) { 0xDC00 <= c <= 0xDFFF }

  function HexDigit(d: int): CodeUnit
    requires 0 <= d < 16
  {
    (if d < 10 then 0x30 + d else 0x61 + d - 10) as CodeUnit
  }

  function UnicodeEscape(c: CodeUnit): Text
  {
    var n := c as int;
    [BACKSLASH, 0x75, HexDigit(n / 0x1000), HexDigit(n / 0x100 % 0x10), HexDigit(n / 0x10 % 0x10), HexDigit(n % 0x10)]
  }

  function EscapeUnit(c: CodeUnit): Text
  {
    if c == 0x08 then [BACKSLASH, 0x62]
    else if c == 0x09 then [BACKSLASH, 0x74]
    else if c == 0x0A then [BACKSLASH, 0x6E]
    else if c == 0x0C then [BACKSLASH, 0x66]
    else if c == 0x0D then [BACKSLASH, 0x72]
    else if c == QUOTE || c == BACKSLASH then [BACKSLASH, c]
    else if c < 0x20 || IsLead(c) || IsTrail(c) then UnicodeEscape(c)
    else [c]
  }

  /** A surrogate pair stays as it is; a surrogate on its own is escaped. */
  function EscapeText(s: Text): Text
  {
    if s == [] then []
    else if |s| >= 2 && IsLead(s[0]) && IsTrail(s[1]) then s[..2] + EscapeText(s[2..])
    else EscapeUnit(s[0]) + EscapeText(s[1..])
  }

  function Quoted(s: Text): Text
  {
    [QUOTE] + EscapeText(s) + [QUOTE]
  }

  /** `canonicalJson`: the text, or the first refusal met in printing order. */
  function Canonical(v: Value): Result<Text, SnapshotError>
    decreases v, 2, 0
  {
    match v
    case Null => Ok(NULL_TEXT)
    case Undefined => Err(UndefinedField)
    case BigInteger(_) => Err(RawBigInt)
    case Number(n) => if -MAX_SAFE_INTEGER <= n <= MAX_SAFE_INTEGER then Ok(NumberText(n)) else Err(UnsafeNumber)
    case Fractional => Err(UnsafeNumber)
    case Bool(b) => Ok(if b then TRUE_TEXT else FALSE_TEXT)
    case Str(s) => Ok(Quoted(s))
    case Arr(items) =>
      (match CanonicalItems(v, items)
       case Ok(t) => Ok([OPEN_BRACKET] + t + [CLOSE_BRACKET])
       case Err(e) => Err(e))
    case Obj(members) =>
      InSorted(members);
      (match CanonicalMembers(v, SortMembers(members))
       case Ok(t) => Ok([OPEN_BRACE] + t + [CLOSE_BRACE])
       case Err(e) => Err(e))
    case Callable => Err(UnsupportedType)
  }

  function CanonicalItems(context: Value, items: seq<Value>): Result<Text, SnapshotError>
    requires forall e | e in items :: e < context
    decreases context, 1, |items|
  {
    if items == [] then Ok([])
    else
      assert items[0] in items && forall e | e in items[1..] :: e in items;
      match Canonical(items[0])
      case Err(e) => Err(e)
      case Ok(head) =>
        match CanonicalItems(context, items[1..])
        case Err(e) => Err(e)
        case Ok(tail) => Ok(if |items| == 1 then head else head + [COMMA] + tail)
  }

  function CanonicalMembers(context: Value, ms: seq<Member>): Result<Text, SnapshotError>
    requires forall m | m in ms :: m.value < context
    decreases context, 1, |ms|
  {
    if ms == [] then Ok([])
    else
      match Canonical(ms[0].value)
      case Err(e) => Err(e)
      case Ok(text) =>
        match CanonicalMembers(context, ms[1..])
        case Err(e) => Err(e)
        case Ok(tail) =>
          var head := Quoted(ms[0].key) + [COLON] + text;
          Ok(if |ms| == 1 then head else head + [COMMA] + tail)
  }

  lemma {:induction false} InSorted(ms: seq<Member>)
    ensures forall m :: m in SortMembers(ms) <==> m in ms
  {
    assert forall m :: m in SortMembers(ms) <==> m in multiset(SortMembers(ms));
    assert forall m :: m in ms <==> m in multiset(ms);
  }

  // ----- The same text printed without sorting, and the value with every object sorted

  function Print(v: Value): Text
    requires Storable(v)
    decreases v, 1
  {
    match v
    case Null => NULL_TEXT
    case Number(n) => NumberText(n)
    case Bool(b) => if b then TRUE_TEXT else FALSE_TEXT
    case Str(s) => Quoted(s)
    case Arr(items) => [OPEN_BRACKET] + PrintItems(items) + [CLOSE_BRACKET]
    case Obj(members) => [OPEN_BRACE] + PrintMembers(members) + [CLOSE_BRACE]
  }

  function PrintItems(items: seq<Value>): Text
    requires forall e | e in items :: Storable(e)
    decreases items, 0
  {
    if items == [] then []
    else if |items| == 1 then Print(items[0])
    else Print(items[0]) + [COMMA] + PrintItems(items[1..])
  }

  function PrintMember(m: Member): Text
    requires Storable(m.value)
    decreases m, 1
  {
    Quoted(m.key) + [COLON] + Print(m.value)
  }

  function PrintMembers(ms: seq<Member>): Text
    requires forall m | m in ms :: Storable(m.value)
    decreases ms, 0
  {
    if ms == [] then []
    else if |ms| == 1 then PrintMember(ms[0])
    else PrintMember(ms[0]) + [COMMA] + PrintMembers(ms[1..])
  }

  function Normalize(v: Value): Value
    decreases v, 1
  {
    match v
    case Arr(items) => Arr(NormalizeItems(items))
    case Obj(members) => Obj(SortMembers(NormalizeMembers(members)))
    case _ => v
  }

  function NormalizeItems(items: seq<Value>): (r: seq<Value>)
    ensures |r| == |items| && forall i | 0 <= i < |r| :: r[i] == Normalize(items[i])
    decreases items, 0
  {
    if items == [] then [] else [Normalize(items[0])] + NormalizeItems(items[1..])
  }

  function NormalizeMembers(ms: seq<Member>): (r: seq<Member>)
    ensures |r| == |ms| && forall i | 0 <= i < |r| :: r[i] == Member(ms[i].key, Normalize(ms[i].value))
    decreases ms, 0
  {
    if ms == [] then [] else [Member(ms[0].key, Normalize(ms[0].value))] + NormalizeMembers(ms[1..])
  }

  lemma {:induction false} NormalizeInsert(m: Member, ms: seq<Member>)
    ensures NormalizeMembers(InsertMember(m, ms)) == InsertMember(Member(m.key, Normalize(m.value)), NormalizeMembers(ms))
  {
    if ms != [] && Less(ms[0].key, m.key) {
      NormalizeInsert(m, ms[1..]);
      assert NormalizeMembers(ms)[1..] == NormalizeMembers(ms[1..]);
    }
  }

  lemma {:induction false} NormalizeSorted(ms: seq<Member>)
    ensures NormalizeMembers(SortMembers(ms)) == SortMembers(NormalizeMembers(ms))
  {
    if ms != [] {
      NormalizeSorted(ms[1..]);
      NormalizeInsert(ms[0], SortMembers(ms[1..]));
      assert NormalizeMembers(ms)[1..] == NormalizeMembers(ms[1..]);
    }
  }

  lemma {:induction false} NormalizeKeepsStorable(v: Value)
    ensures Storable(Normalize(v)) == Storable(v)
    decreases v
  {
    match v
    case Arr(items) =>
      var ns := NormalizeItems(items);
      forall i | 0 <= i < |items| ensures Storable(ns[i]) == Storable(items[i]) { NormalizeKeepsStorable(items[i]); }
    case Obj(members) =>
      var ns := NormalizeMembers(members);
      forall i | 0 <= i < |members| ensures Storable(ns[i].value) == Storable(members[i].value) {
        NormalizeKeepsStorable(members[i].value);
      }
      InSorted(ns);
    case _ =>
  }

  /** The printer refuses exactly what a snapshot may not hold, and otherwise prints the sorted value. */
  lemma {:induction false} CanonicalPrintsNormalForm(v: Value)
    ensures Storable(v) ==> Storable(Normalize(v)) && Canonical(v) == Ok(Print(Normalize(v)))
    ensures !Storable(v) ==> Canonical(v).Err?
    decreases v, 2, 0
  {
    NormalizeKeepsStorable(v);
    match v
    case Arr(items) => CanonicalItemsPrinted(v, items);
    case Obj(members) =>
      InSorted(members);
      CanonicalMembersPrinted(v, SortMembers(members));
      NormalizeSorted(members);
    case _ =>
  }

  lemma {:induction false} CanonicalItemsPrinted(context: Value, items: seq<Value>)
    requires forall e | e in items :: e < context
    ensures (forall e | e in items :: Storable(e)) ==>
      (forall e | e in NormalizeItems(items) :: Storable(e)) &&
      CanonicalItems(context, items) == Ok(PrintItems(NormalizeItems(items)))
    ensures !(forall e | e in items :: Storable(e)) ==> CanonicalItems(context, items).Err?
    decreases context, 1, |items|
  {
    if items != [] {
      assert items[0] in items && forall e | e in items[1..] :: e in items;
      assert forall e | e in items :: e == items[0] || e in items[1..];
      CanonicalPrintsNormalForm(items[0]);
      CanonicalItemsPrinted(context, items[1..]);
      assert NormalizeItems(items)[1..] == NormalizeItems(items[1..]);
    }
  }

  lemma {:induction false} CanonicalMembersPrinted(context: Value, ms: seq<Member>)
    requires forall m | m in ms :: m.value < context
    ensures (forall m | m in ms :: Storable(m.value)) ==>
      (forall m | m in NormalizeMembers(ms) :: Storable(m.value)) &&
      CanonicalMembers(context, ms) == Ok(PrintMembers(NormalizeMembers(ms)))
    ensures !(forall m | m in ms :: Storable(m.value)) ==> CanonicalMembers(context, ms).Err?
    decreases context, 1, |ms|
  {
    if ms != [] {
      assert ms[0] in ms && forall m | m in ms[1..] :: m in ms;
      assert forall m | m in ms :: m == ms[0] || m in ms[1..];
      CanonicalPrintsNormalForm(ms[0].value);
      CanonicalMembersPrinted(context, ms[1..]);
      assert NormalizeMembers(ms)[1..] == NormalizeMembers(ms[1..]);
    }
  }

  // ----- Sorted members are determined by the set of members

  predicate SortedByKey(ms: seq<Member>)
  {
    forall i, j :: 0 <= i < j < |ms| ==> Less(ms[i].key, ms[j].key)
  }

  lemma {:induction false} InsertKeepsSorted(m: Member, ms: seq<Member>)
    requires SortedByKey(ms)
    requires forall o | o in ms :: o.key != m.key
    ensures SortedByKey(InsertMember(m, ms))
  {
    if ms != [] {
      if Less(ms[0].key, m.key) {
        InsertKeepsSorted(m, ms[1..]);
        var tail := InsertMember(m, ms[1..]);
        forall o | o in tail ensures Less(ms[0].key, o.key) {
          assert o in multiset(tail);
        }
      } else {
        LessIsTotal(m.key, ms[0].key);
        forall o | o in ms ensures Less(m.key, o.key) {
          if o != ms[0] { LessIsTransitive(m.key, ms[0].key, o.key); }
        }
      }
    }
  }

  lemma {:induction false} SortMembersSorts(ms: seq<Member>)
    requires DistinctKeys(ms)
    ensures SortedByKey(SortMembers(ms))
  {
    if ms != [] {
      SortMembersSorts(ms[1..]);
      InSorted(ms[1..]);
      InsertKeepsSorted(ms[0], SortMembers(ms[1..]));
    }
  }

  lemma {:induction false} SortedAreEqual(xs: seq<Member>, ys: seq<Member>)
    requires SortedByKey(xs) && SortedByKey(ys) && multiset(xs) == multiset(ys)
    ensures xs == ys
  {
    var before := (a: Member, b: Member) => Less(a.key, b.key);
    forall a: Member, b: Member ensures before(a, b) ==> !before(b, a) {
      if before(a, b) && before(b, a) { LessIsTransitive(a.key, b.key, a.key); }
      LessIsIrreflexive(a.key);
    }
    OrderedAreEqual(xs, ys, before, before);
  }

  /** A list of distinct members contained in a list that is no longer is a rearrangement of it. */
  lemma {:induction false} ContainedIsRearranged(xs: seq<Member>, ys: seq<Member>)
    requires DistinctKeys(xs) && |xs| == |ys|
    requires forall m | m in xs :: m in ys
    ensures multiset(xs) == multiset(ys)
  {
    if xs == [] {
    } else {
      assert xs[0] in xs;
      var j :| 0 <= j < |ys| && ys[j] == xs[0];
      var rest := ys[..j] + ys[j + 1..];
      assert ys == ys[..j] + [ys[j]] + ys[j + 1..];
      assert xs == [xs[0]] + xs[1..];
      forall m | m in xs[1..] ensures m in rest {
        assert m in xs && m.key != xs[0].key;
        var k :| 0 <= k < |ys| && ys[k] == m;
        assert k != j;
        assert if k < j then rest[k] == m else rest[k - 1] == m;
      }
      ContainedIsRearranged(xs[1..], rest);
    }
  }

  // ----- Equality up to key order is equality of normal forms

  lemma {:induction false} NormalizeKeepsDistinct(ms: seq<Member>)
    requires DistinctKeys(ms)
    ensures DistinctKeys(NormalizeMembers(ms))
  {
  }

  lemma {:induction false} EquivalentIffSameNormalForm(a: Value, b: Value)
    requires WellFormed(a) && WellFormed(b)
    ensures Equivalent(a, b) <==> Normalize(a) == Normalize(b)
    decreases a
  {
    match (a, b)
    case (Arr(xs), Arr(ys)) =>
      if |xs| == |ys| {
        forall i | 0 <= i < |xs| ensures Equivalent(xs[i], ys[i]) <==> Normalize(xs[i]) == Normalize(ys[i]) {
          EquivalentIffSameNormalForm(xs[i], ys[i]);
        }
        if Equivalent(a, b) { assert NormalizeItems(xs) == NormalizeItems(ys); }
        if Normalize(a) == Normalize(b) {
          forall i | 0 <= i < |xs| ensures Equivalent(xs[i], ys[i]) {
            assert NormalizeItems(xs)[i] == NormalizeItems(ys)[i];
          }
        }
      }
    case (Obj(ms), Obj(ns)) =>
      forall i, j | 0 <= i < |ms| && 0 <= j < |ns|
        ensures Equivalent(ms[i].value, ns[j].value) <==> Normalize(ms[i].value) == Normalize(ns[j].value)
      {
        EquivalentIffSameNormalForm(ms[i].value, ns[j].value);
      }
      if Equivalent(a, b) {
        forall i | 0 <= i < |ms| ensures Member(ms[i].key, Normalize(ms[i].value)) in NormalizeMembers(ns) {
          CounterpartNormalizesAlike(ms[i], ns);
        }
        EquivalentObjectsNormalizeAlike(ms, ns);
      }
      if Normalize(a) == Normalize(b) { NormalizedAlikeAreEquivalent(ms, ns); }
    case _ =>
  }

  lemma {:induction false} CounterpartNormalizesAlike(m: Member, ns: seq<Member>)
    requires HasCounterpart(m, ns)
    requires forall j | 0 <= j < |ns| :: Equivalent(m.value, ns[j].value) ==> Normalize(m.value) == Normalize(ns[j].value)
    ensures Member(m.key, Normalize(m.value)) in NormalizeMembers(ns)
  {
    var j :| 0 <= j < |ns| && m.key == ns[j].key && Equivalent(m.value, ns[j].value);
    assert NormalizeMembers(ns)[j] == Member(m.key, Normalize(m.value));
  }

  lemma {:induction false} EquivalentObjectsNormalizeAlike(ms: seq<Member>, ns: seq<Member>)
    requires DistinctKeys(ms) && DistinctKeys(ns) && |ms| == |ns|
    requires forall i | 0 <= i < |ms| :: Member(ms[i].key, Normalize(ms[i].value)) in NormalizeMembers(ns)
    ensures Normalize(Obj(ms)) == Normalize(Obj(ns))
  {
    var xs, ys := NormalizeMembers(ms), NormalizeMembers(ns);
    NormalizeKeepsDistinct(ms);
    NormalizeKeepsDistinct(ns);
    ContainedIsRearranged(xs, ys);
    SortMembersSorts(xs);
    SortMembersSorts(ys);
    SortedAreEqual(SortMembers(xs), SortMembers(ys));
  }

  lemma {:induction false} CounterpartOf(ms: seq<Member>, ns: seq<Member>, i: nat) returns (j: nat)
    requires Normalize(Obj(ms)) == Normalize(Obj(ns)) && i < |ms|
    ensures j < |ns| && ms[i].key == ns[j].key && Normalize(ms[i].value) == Normalize(ns[j].value)
  {
    var xs, ys := NormalizeMembers(ms), NormalizeMembers(ns);
    assert multiset(xs) == multiset(SortMembers(xs)) == multiset(ys);
    assert xs[i] in multiset(ys);
    j :| 0 <= j < |ys| && ys[j] == xs[i];
  }

  lemma {:induction false} NormalizedAlikeAreEquivalent(ms: seq<Member>, ns: seq<Member>)
    requires Normalize(Obj(ms)) == Normalize(Obj(ns))
    requires forall i, j | 0 <= i < |ms| && 0 <= j < |ns| ::
      Normalize(ms[i].value) == Normalize(ns[j].value) ==> Equivalent(ms[i].value, ns[j].value)
    ensures Equivalent(Obj(ms), Obj(ns))
  {
    assert |ms| == |ns| by {
      var xs, ys := NormalizeMembers(ms), NormalizeMembers(ns);
      assert |multiset(xs)| == |multiset(SortMembers(xs))| == |multiset(ys)|;
    }
    forall i | 0 <= i < |ms|
      ensures HasCounterpart(ms[i], ns)
    {
      var j := CounterpartOf(ms, ns, i);
    }
  }
}
