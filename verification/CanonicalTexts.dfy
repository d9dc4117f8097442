/**
 What canonical text looks like: keys in code-unit order, the shortest escapes, no control character
 and no surrogate without its partner; and which of several values it may not hold it refuses.
 */
module CanonicalTexts {
  import opened Options
  import opened Texts
  import opened Digits
  import opened CanonicalJson

  // ----- Order of keys

  predicate PartAt(a: Text, b: Text, k: nat)
  {
    k <= |a| && k < |b| && a[..k] == b[..k] && (k == |a| || a[k] < b[k])
  }

  /** One text comes before another if it is a proper prefix, or holds the smaller unit where they part. */
  lemma {:induction false} LessTells(a: Text, b: Text)
    ensures Less(a, b) <==> exists k: nat :: PartAt(a, b, k)
  {
    if a != [] && b != [] && a[0] == b[0] {
      LessTells(a[1..], b[1..]);
      if Less(a[1..], b[1..]) {
        var k: nat :| PartAt(a[1..], b[1..], k);
        assert a[..k + 1] == [a[0]] + a[1..][..k] && b[..k + 1] == [b[0]] + b[1..][..k];
        assert PartAt(a, b, k + 1);
      }
      if k: nat :| PartAt(a, b, k) {
        assert k > 0 && a[1..][..k - 1] == a[..k][1..] && b[1..][..k - 1] == b[..k][1..];
        assert PartAt(a[1..], b[1..], k - 1);
      }
    } else {
      if Less(a, b) { assert PartAt(a, b, 0); }
      if k: nat :| PartAt(a, b, k) { assert k > 0 ==> a[..k][0] == b[..k][0]; }
    }
  }

  // ----- Escapes

  predicate IsSurrogate(c: CodeUnit) { 0xD800 <= c <= 0xDFFF }

  const SHORT_ESCAPES: set<CodeUnit> := {0x08, 0x09, 0x0A, 0x0C, 0x0D, 0x22, 0x5C}

  /** As few units as JSON allows: one where a unit may stand for itself, two where it has a letter of its own, otherwise six in lower case. */
  lemma {:induction false} EscapesAreShort(c: CodeUnit)
    ensures EscapeUnit(c) == [c] <==> c >= 0x20 && c != 0x22 && c != 0x5C && !IsSurrogate(c)
    ensures |EscapeUnit(c)| == 2 <==> c in SHORT_ESCAPES
    ensures |EscapeUnit(c)| in {1, 2, 6}
    ensures |EscapeUnit(c)| == 6 ==> forall i | 2 <= i < 6 :: 0x30 <= EscapeUnit(c)[i] <= 0x39 || 0x61 <= EscapeUnit(c)[i] <= 0x66
  {
  }

  predicate Paired(t: Text, i: nat)
    requires i < |t|
  {
    (0xD800 <= t[i] <= 0xDBFF ==> i + 1 < |t| && 0xDC00 <= t[i + 1] <= 0xDFFF) &&
    (0xDC00 <= t[i] <= 0xDFFF ==> i > 0 && 0xD800 <= t[i - 1] <= 0xDBFF)
  }

  /** Text that stands for Unicode characters, none of them a control character. */
  predicate Clean(t: Text) { forall i | 0 <= i < |t| :: t[i] >= 0x20 && Paired(t, i) }

  /** Clean text without quotes and backslashes is not changed at all. */
  lemma {:induction false} CleanTextStays(s: Text)
    requires Clean(s) && QUOTE !in s && BACKSLASH !in s
    ensures EscapeText(s) == s
  {
    if s != [] {
      assert Paired(s, 0);
      var n := if IsLead(s[0]) then 2 else 1;
      assert s == s[..n] + s[n..];
      forall i | 0 <= i < |s| - n ensures s[n..][i] >= 0x20 && Paired(s[n..], i) {
        assert s[n..][i] == s[n + i] && Paired(s, n + i);
        if i == 0 && n == 2 { assert Paired(s, 1); }
        if i == 0 && n == 1 { assert !IsLead(s[0]); }
        assert i > 0 ==> s[n..][i - 1] == s[n + i - 1];
        assert i + 1 < |s| - n ==> s[n..][i + 1] == s[n + i + 1];
      }
      CleanTextStays(s[n..]);
    }
  }

  lemma {:induction false} CleanConcat(a: Text, b: Text)
    requires Clean(a) && Clean(b)
    ensures Clean(a + b)
  {
    var t := a + b;
    forall i | 0 <= i < |t| ensures t[i] >= 0x20 && Paired(t, i) {
      if i < |a| {
        assert Paired(a, i) && t[i] == a[i];
      } else {
        assert Paired(b, i - |a|) && t[i] == b[i - |a|];
        assert i > |a| ==> t[i - 1] == b[i - |a| - 1];
      }
    }
  }

  lemma {:induction false} PlainIsClean(t: Text)
    requires forall i | 0 <= i < |t| :: 0x20 <= t[i] < 0x7F
    ensures Clean(t)
  {
  }

  lemma {:induction false} EscapedUnitIsClean(c: CodeUnit)
    ensures Clean(EscapeUnit(c))
  {
    EscapesAreShort(c);
  }

  lemma {:induction false} EscapedIsClean(s: Text)
    ensures Clean(EscapeText(s))
  {
    if s == [] {
    } else if |s| >= 2 && IsLead(s[0]) && IsTrail(s[1]) {
      EscapedIsClean(s[2..]);
      assert Clean(s[..2]);
      CleanConcat(s[..2], EscapeText(s[2..]));
    } else {
      EscapedIsClean(s[1..]);
      EscapedUnitIsClean(s[0]);
      CleanConcat(EscapeUnit(s[0]), EscapeText(s[1..]));
    }
  }

  lemma {:induction false} EnclosedIsClean(open: CodeUnit, t: Text, close: CodeUnit)
    requires Clean(t) && 0x20 <= open < 0x7F && 0x20 <= close < 0x7F
    ensures Clean([open] + t + [close])
  {
    PlainIsClean([open]);
    PlainIsClean([close]);
    CleanConcat([open], t);
    CleanConcat([open] + t, [close]);
  }

  lemma {:induction false} JoinedIsClean(a: Text, separator: CodeUnit, b: Text)
    requires Clean(a) && Clean(b) && 0x20 <= separator < 0x7F
    ensures Clean(a + [separator] + b)
  {
    PlainIsClean([separator]);
    CleanConcat(a, [separator]);
    CleanConcat(a + [separator], b);
  }

  lemma {:induction false} NumberIsClean(n: int)
    ensures Clean(NumberText(n))
  {
    var digits := DigitsOf(if n < 0 then -n else n);
    forall i | 0 <= i < |digits| ensures 0x20 <= digits[i] < 0x7F { assert IsDigit(digits[i]); }
    PlainIsClean(digits);
    PlainIsClean([MINUS]);
    CleanConcat([MINUS], digits);
  }

  lemma {:induction false} PrintIsClean(v: Value)
    requires Storable(v)
    ensures Clean(Print(v))
    decreases v, 1
  {
    match v
    case Number(n) => NumberIsClean(n);
    case Str(s) =>
      EscapedIsClean(s);
      EnclosedIsClean(QUOTE, EscapeText(s), QUOTE);
    case Arr(items) =>
      ItemsAreClean(items);
      EnclosedIsClean(OPEN_BRACKET, PrintItems(items), CLOSE_BRACKET);
    case Obj(members) =>
      MembersAreClean(members);
      EnclosedIsClean(OPEN_BRACE, PrintMembers(members), CLOSE_BRACE);
    case _ =>
  }

  lemma {:induction false} ItemsAreClean(items: seq<Value>)
    requires forall e | e in items :: Storable(e)
    ensures Clean(PrintItems(items))
    decreases items, 0
  {
    if items != [] {
      PrintIsClean(items[0]);
      if |items| > 1 {
        ItemsAreClean(items[1..]);
        JoinedIsClean(Print(items[0]), COMMA, PrintItems(items[1..]));
      }
    }
  }

  lemma {:induction false} MemberIsClean(m: Member)
    requires Storable(m.value)
    ensures Clean(PrintMember(m))
    decreases m, 1
  {
    EscapedIsClean(m.key);
    EnclosedIsClean(QUOTE, EscapeText(m.key), QUOTE);
    PrintIsClean(m.value);
    JoinedIsClean(Quoted(m.key), COLON, Print(m.value));
  }

  lemma {:induction false} MembersAreClean(ms: seq<Member>)
    requires forall m | m in ms :: Storable(m.value)
    ensures Clean(PrintMembers(ms))
    decreases ms, 0
  {
    if ms != [] {
      MemberIsClean(ms[0]);
      if |ms| > 1 {
        MembersAreClean(ms[1..]);
        JoinedIsClean(PrintMember(ms[0]), COMMA, PrintMembers(ms[1..]));
      }
    }
  }

  /** Whatever strings a value holds, its canonical text is Unicode without control characters, so that every encoder writes the same bytes. */
  lemma {:induction false} CanonicalTextIsClean(v: Value)
    requires Canonical(v).Ok?
    ensures Clean(Canonical(v).value)
  {
    CanonicalPrintsNormalForm(v);
    PrintIsClean(Normalize(v));
  }

  // ----- Refusals

  /** The refusal of the first value met, in order of elements and of keys, that a snapshot may not hold. */
  predicate Refuses(v: Value, e: SnapshotError)
  {
    match v
    case Undefined => e == UndefinedField
    case BigInteger(_) => e == RawBigInt
    case Number(n) => e == UnsafeNumber && !(-0x1F_FFFF_FFFF_FFFF <= n <= 0x1F_FFFF_FFFF_FFFF)
    case Fractional => e == UnsafeNumber
    case Callable => e == UnsupportedType
    case Arr(items) => exists i | 0 <= i < |items| :: Refuses(items[i], e) && forall j | 0 <= j < i :: Storable(items[j])
    case Obj(ms) =>
      exists i | 0 <= i < |ms| :: Refuses(ms[i].value, e) && forall j | 0 <= j < |ms| && Less(ms[j].key, ms[i].key) :: Storable(ms[j].value)
    case Null | Bool(_) | Str(_) => false
  }

  lemma {:induction false} FirstItemRefused(context: Value, items: seq<Value>) returns (i: nat)
    requires forall e | e in items :: e < context
    requires CanonicalItems(context, items).Err?
    ensures i < |items| && Canonical(items[i]) == Err(CanonicalItems(context, items).error)
    ensures forall j | 0 <= j < i :: Canonical(items[j]).Ok?
  {
    assert items[0] in items && forall e | e in items[1..] :: e in items;
    if Canonical(items[0]).Err? {
      i := 0;
    } else {
      i := FirstItemRefused(context, items[1..]);
      assert forall j | 0 < j <= i :: items[j] == items[1..][j - 1];
      i := i + 1;
    }
  }

  lemma {:induction false} FirstMemberRefused(context: Value, ms: seq<Member>) returns (i: nat)
    requires forall m | m in ms :: m.value < context
    requires CanonicalMembers(context, ms).Err?
    ensures i < |ms| && Canonical(ms[i].value) == Err(CanonicalMembers(context, ms).error)
    ensures forall j | 0 <= j < i :: Canonical(ms[j].value).Ok?
  {
    assert ms[0] in ms && forall m | m in ms[1..] :: m in ms;
    if Canonical(ms[0].value).Err? {
      i := 0;
    } else {
      i := FirstMemberRefused(context, ms[1..]);
      assert forall j | 0 < j <= i :: ms[j] == ms[1..][j - 1];
      i := i + 1;
    }
  }

  lemma {:induction false} EarlierKeysComeFirst(sorted: seq<Member>, i: nat, m: Member)
    requires SortedByKey(sorted) && i < |sorted| && m in sorted && Less(m.key, sorted[i].key)
    ensures exists j | 0 <= j < i :: sorted[j] == m
  {
    var j :| 0 <= j < |sorted| && sorted[j] == m;
    if j > i { LessIsTransitive(m.key, sorted[i].key, m.key); }
    LessIsIrreflexive(m.key);
  }

  /** What a refusal says. */
  lemma {:induction false} RefusalIsFirst(v: Value)
    requires WellFormed(v) && Canonical(v).Err?
    ensures Refuses(v, Canonical(v).error)
    decreases v
  {
    match v
    case Arr(items) =>
      var i := FirstItemRefused(v, items);
      RefusalIsFirst(items[i]);
      forall j | 0 <= j < i ensures Storable(items[j]) { CanonicalPrintsNormalForm(items[j]); }
    case Obj(members) => MemberRefused(v, members);
    case _ =>
  }

  lemma {:induction false} MemberRefused(v: Value, ms: seq<Member>)
    requires v == Obj(ms) && WellFormed(v) && Canonical(v).Err?
    ensures Refuses(v, Canonical(v).error)
    decreases v, 0
  {
    InSorted(ms);
    SortMembersSorts(ms);
    var sorted := SortMembers(ms);
    var k := FirstMemberRefused(v, sorted);
    assert sorted[k] in ms;
    var i :| 0 <= i < |ms| && ms[i] == sorted[k];
    RefusalIsFirst(ms[i].value);
    forall j | 0 <= j < |ms| && Less(ms[j].key, ms[i].key) ensures Storable(ms[j].value) {
      assert ms[j] in sorted;
      EarlierKeysComeFirst(sorted, k, ms[j]);
      CanonicalPrintsNormalForm(ms[j].value);
    }
  }
}
