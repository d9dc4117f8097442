/**
 A reader for JSON text without white space, and the proof that canonical text reads back to the
 value it was printed from. Together with the printer this shows that equal canonical texts mean
 equal values, up to the order in which an object's keys were written.
 */
module CanonicalJsonReader {
  import opened Texts
  import opened Digits
  import opened CanonicalJson

  datatype Read<+T> = Failed | Found(value: T, rest: Text)

  function HexValue(c: CodeUnit): int
  {
    if IsDigit(c) then c as int - 0x30
    else if 0x61 <= c <= 0x66 then c as int - 0x61 + 10
    else if 0x41 <= c <= 0x46 then c as int - 0x41 + 10
    else -1
  }

  function Prepend(c: CodeUnit, r: Read<Text>): Read<Text>
  {
    match r
    case Failed => Failed
    case Found(s, rest) => Found([c] + s, rest)
  }

  /** The unit a one-letter escape stands for, or -1. */
  function ShortEscape(c: CodeUnit): int
  {
    if c == QUOTE || c == BACKSLASH || c == 0x2F then c as int
    else if c == 0x62 then 0x08
    else if c == 0x66 then 0x0C
    else if c == 0x6E then 0x0A
    else if c == 0x72 then 0x0D
    else if c == 0x74 then 0x09
    else -1
  }

  /** What follows an opening quote, up to and including the closing one. */
  function ReadString(t: Text): (r: Read<Text>)
    ensures r.Found? ==> |r.rest| < |t|
    decreases |t|
  {
    if t == [] || t[0] < 0x20 then Failed
    else if t[0] == QUOTE then Found([], t[1..])
    else if t[0] != BACKSLASH then Prepend(t[0], ReadString(t[1..]))
    else if |t| >= 2 && ShortEscape(t[1]) >= 0 then Prepend(ShortEscape(t[1]) as CodeUnit, ReadString(t[2..]))
    else if |t| >= 6 && t[1] == 0x75 && HexValue(t[2]) >= 0 && HexValue(t[3]) >= 0 && HexValue(t[4]) >= 0 && HexValue(t[5]) >= 0 then
      Prepend((HexValue(t[2]) * 0x1000 + HexValue(t[3]) * 0x100 + HexValue(t[4]) * 0x10 + HexValue(t[5])) as CodeUnit, ReadString(t[6..]))
    else Failed
  }

  function DigitPrefix(t: Text): (n: nat)
    ensures n <= |t| && AllDigits(t[..n]) && (n < |t| ==> !IsDigit(t[n]))
  {
    if t == [] || !IsDigit(t[0]) then 0
    else
      var k := DigitPrefix(t[1..]);
      assert t[..k + 1] == [t[0]] + t[1..][..k];
      k + 1
  }

  /** An unsigned integer without superfluous leading zeros. */
  function ReadNatural(t: Text): (r: Read<nat>)
    ensures r.Found? ==> |r.rest| < |t|
  {
    var n := DigitPrefix(t);
    if n == 0 || (n > 1 && t[0] == ZERO_DIGIT) then Failed else Found(ToNat(t[..n]), t[n..])
  }

  function ReadKeyword(keyword: Text, v: Value, t: Text): (r: Read<Value>)
    requires keyword != []
    ensures r.Found? ==> |r.rest| < |t|
  {
    if keyword <= t then Found(v, t[|keyword|..]) else Failed
  }

  function ReadNumber(t: Text): (r: Read<Value>)
    ensures r.Found? ==> |r.rest| < |t|
  {
    var negative := t != [] && t[0] == MINUS;
    match ReadNatural(if negative then t[1..] else t)
    case Failed => Failed
    case Found(n, rest) =>
      var magnitude: int := n;
      Found(Number(if negative then -magnitude else magnitude), rest)
  }

  function ReadValue(t: Text): (r: Read<Value>)
    ensures r.Found? ==> |r.rest| < |t|
    decreases |t|, 0
  {
    if t == [] then Failed
    else if t[0] == NULL_TEXT[0] then ReadKeyword(NULL_TEXT, Null, t)
    else if t[0] == TRUE_TEXT[0] then ReadKeyword(TRUE_TEXT, Bool(true), t)
    else if t[0] == FALSE_TEXT[0] then ReadKeyword(FALSE_TEXT, Bool(false), t)
    else if t[0] == QUOTE then
      (match ReadString(t[1..])
       case Failed => Failed
       case Found(s, rest) => Found(Str(s), rest))
    else if t[0] == OPEN_BRACKET then
      if |t| >= 2 && t[1] == CLOSE_BRACKET then Found(Arr([]), t[2..])
      else
        (match ReadItems(t[1..])
         case Failed => Failed
         case Found(items, rest) => Found(Arr(items), rest))
    else if t[0] == OPEN_BRACE then
      if |t| >= 2 && t[1] == CLOSE_BRACE then Found(Obj([]), t[2..])
      else
        (match ReadMembers(t[1..])
         case Failed => Failed
         case Found(members, rest) => Found(Obj(members), rest))
    else ReadNumber(t)
  }

  /** One or more values separated by commas, up to and including the closing bracket. */
  function ReadItems(t: Text): (r: Read<seq<Value>>)
    ensures r.Found? ==> |r.rest| < |t|
    decreases |t|, 1
  {
    match ReadValue(t)
    case Failed => Failed
    case Found(v, rest) =>
      if rest != [] && rest[0] == CLOSE_BRACKET then Found([v], rest[1..])
      else if rest != [] && rest[0] == COMMA then
        match ReadItems(rest[1..])
        case Failed => Failed
        case Found(vs, rest') => Found([v] + vs, rest')
      else Failed
  }

  function ReadMember(t: Text): (r: Read<Member>)
    ensures r.Found? ==> |r.rest| < |t|
    decreases |t|, 1
  {
    if t == [] || t[0] != QUOTE then Failed
    else
      match ReadString(t[1..])
      case Failed => Failed
      case Found(key, rest) =>
        if rest == [] || rest[0] != COLON then Failed
        else
          match ReadValue(rest[1..])
          case Failed => Failed
          case Found(v, rest') => Found(Member(key, v), rest')
  }

  /** One or more members separated by commas, up to and including the closing brace. */
  function ReadMembers(t: Text): (r: Read<seq<Member>>)
    ensures r.Found? ==> |r.rest| < |t|
    decreases |t|, 2
  {
    match ReadMember(t)
    case Failed => Failed
    case Found(m, rest) =>
      if rest != [] && rest[0] == CLOSE_BRACE then Found([m], rest[1..])
      else if rest != [] && rest[0] == COMMA then
        match ReadMembers(rest[1..])
        case Failed => Failed
        case Found(ms, rest') => Found([m] + ms, rest')
      else Failed
  }

  /** A whole text holding exactly one value. */
  function ReadText(t: Text): Read<Value>
  {
    match ReadValue(t)
    case Found(v, rest) => if rest == [] then Found(v, rest) else Failed
    case Failed => Failed
  }

  // ----- Strings read back

  lemma {:induction false} ReadEscapedUnit(c: CodeUnit, more: Text)
    ensures ReadString(EscapeUnit(c) + more) == Prepend(c, ReadString(more))
  {
    var t := EscapeUnit(c) + more;
    if |EscapeUnit(c)| == 1 {
      assert t[0] == c && t[1..] == more;
    } else if |EscapeUnit(c)| == 2 {
      assert t[0] == BACKSLASH && t[1] == EscapeUnit(c)[1] && t[2..] == more;
    } else {
      ReadUnicodeEscape(c, more);
    }
  }

  lemma {:induction false} HexDigitReadsBack(d: int)
    requires 0 <= d < 16
    ensures HexValue(HexDigit(d)) == d
  {
  }

  lemma {:induction false} HexSplit(n: int)
    requires 0 <= n < 0x1_0000
    ensures n / 0x1000 * 0x1000 + n / 0x100 % 0x10 * 0x100 + n / 0x10 % 0x10 * 0x10 + n % 0x10 == n
  {
    assert n / 0x100 == n / 0x10 / 0x10;
    assert n / 0x1000 == n / 0x100 / 0x10;
  }

  lemma {:induction false} ReadUnicodeEscape(c: CodeUnit, more: Text)
    ensures ReadString(UnicodeEscape(c) + more) == Prepend(c, ReadString(more))
  {
    var t := UnicodeEscape(c) + more;
    var n := c as int;
    assert t[0] == BACKSLASH && t[1] == 0x75 && t[6..] == more;
    HexDigitReadsBack(n / 0x1000);
    HexDigitReadsBack(n / 0x100 % 0x10);
    HexDigitReadsBack(n / 0x10 % 0x10);
    HexDigitReadsBack(n % 0x10);
    HexSplit(n);
    assert ReadString(t) == Prepend(n as CodeUnit, ReadString(t[6..]));
  }

  lemma {:induction false} ReadPlainUnit(c: CodeUnit, more: Text)
    requires c >= 0x20 && c != QUOTE && c != BACKSLASH
    ensures ReadString([c] + more) == Prepend(c, ReadString(more))
  {
    assert ([c] + more)[1..] == more;
  }

  lemma {:induction false} EscapedPair(s: Text, more: Text)
    requires |s| >= 2 && IsLead(s[0]) && IsTrail(s[1])
    ensures EscapeText(s) + more == [s[0]] + ([s[1]] + (EscapeText(s[2..]) + more))
  {
    assert EscapeText(s) == [s[0], s[1]] + EscapeText(s[2..]);
  }

  lemma {:induction false} EscapedUnit(s: Text, more: Text)
    requires s != [] && !(|s| >= 2 && IsLead(s[0]) && IsTrail(s[1]))
    ensures EscapeText(s) + more == EscapeUnit(s[0]) + (EscapeText(s[1..]) + more)
  {
  }

  lemma {:induction false} ReadEscapedText(s: Text, rest: Text)
    ensures ReadString(EscapeText(s) + ([QUOTE] + rest)) == Found(s, rest)
  {
    var more := [QUOTE] + rest;
    if s == [] {
      assert EscapeText(s) + more == more && more[1..] == rest;
    } else if |s| >= 2 && IsLead(s[0]) && IsTrail(s[1]) {
      var tail := EscapeText(s[2..]) + more;
      ReadEscapedText(s[2..], rest);
      ReadPlainUnit(s[1], tail);
      ReadPlainUnit(s[0], [s[1]] + tail);
      EscapedPair(s, more);
      assert [s[0]] + ([s[1]] + s[2..]) == s;
    } else {
      ReadEscapedText(s[1..], rest);
      ReadEscapedUnit(s[0], EscapeText(s[1..]) + more);
      EscapedUnit(s, more);
      assert [s[0]] + s[1..] == s;
    }
  }

  // ----- Numbers read back

  predicate EndsNumber(rest: Text) { rest == [] || !IsDigit(rest[0]) }

  lemma {:induction false} DigitPrefixOf(digits: Text, rest: Text)
    requires AllDigits(digits) && EndsNumber(rest)
    ensures DigitPrefix(digits + rest) == |digits|
  {
    if digits == [] {
      assert digits + rest == rest;
    } else {
      assert IsDigit(digits[0]);
      DigitPrefixOf(digits[1..], rest);
      assert (digits + rest)[1..] == digits[1..] + rest;
    }
  }

  lemma {:induction false} ReadDigits(n: nat, rest: Text)
    requires EndsNumber(rest)
    ensures ReadNatural(DigitsOf(n) + rest) == Found(n, rest)
  {
    var ds := DigitsOf(n);
    DigitPrefixOf(ds, rest);
    ToNatOfDigits(n);
    assert (ds + rest)[..|ds|] == ds && (ds + rest)[|ds|..] == rest;
    if n == 0 { assert |ds| == 1; }
  }

  lemma {:induction false} NumberStarts(n: int)
    ensures NumberText(n) != [] && (n < 0 ==> NumberText(n)[0] == MINUS) && (n >= 0 ==> IsDigit(NumberText(n)[0]))
  {
    if n >= 0 { assert IsDigit(DigitsOf(n)[0]); }
  }

  lemma {:induction false} ReadAfterMinus(n: int, tail: Text, rest: Text)
    requires n < 0 && ReadNatural(tail) == Found(-n, rest)
    ensures ReadNumber([MINUS] + tail) == Found(Number(n), rest)
  {
    assert ([MINUS] + tail)[1..] == tail;
  }

  lemma {:induction false} ReadUnsigned(n: int, t: Text, rest: Text)
    requires n >= 0 && ReadNatural(t) == Found(n, rest)
    requires t != [] && t[0] != MINUS
    ensures ReadNumber(t) == Found(Number(n), rest)
  {
  }

  lemma {:induction false} ReadPrintedNumber(n: int, rest: Text)
    requires EndsNumber(rest)
    ensures ReadNumber(NumberText(n) + rest) == Found(Number(n), rest)
  {
    if n < 0 {
      ReadDigits(-n, rest);
      ReadAfterMinus(n, DigitsOf(-n) + rest, rest);
      assert NumberText(n) + rest == [MINUS] + (DigitsOf(-n) + rest);
    } else {
      NumberStarts(n);
      ReadDigits(n, rest);
      ReadUnsigned(n, DigitsOf(n) + rest, rest);
    }
  }

  // ----- Values read back

  lemma {:induction false} ReadPrintedKeyword(keyword: Text, v: Value, rest: Text)
    requires keyword != []
    ensures ReadKeyword(keyword, v, keyword + rest) == Found(v, rest)
  {
    assert keyword <= keyword + rest && (keyword + rest)[|keyword|..] == rest;
  }

  lemma {:induction false} ReadAfterQuote(tail: Text, s: Text, rest: Text)
    requires ReadString(tail) == Found(s, rest)
    ensures ReadValue([QUOTE] + tail) == Found(Str(s), rest)
  {
    assert ([QUOTE] + tail)[1..] == tail;
  }

  lemma {:induction false} ReadAfterBracket(tail: Text, items: seq<Value>, rest: Text)
    requires tail != [] && tail[0] != CLOSE_BRACKET && ReadItems(tail) == Found(items, rest)
    ensures ReadValue([OPEN_BRACKET] + tail) == Found(Arr(items), rest)
  {
    assert ([OPEN_BRACKET] + tail)[1..] == tail;
  }

  lemma {:induction false} ReadAfterBrace(tail: Text, members: seq<Member>, rest: Text)
    requires tail != [] && tail[0] != CLOSE_BRACE && ReadMembers(tail) == Found(members, rest)
    ensures ReadValue([OPEN_BRACE] + tail) == Found(Obj(members), rest)
  {
    assert ([OPEN_BRACE] + tail)[1..] == tail;
  }

  lemma {:induction false} ReadEmpty(rest: Text)
    ensures ReadValue([OPEN_BRACKET, CLOSE_BRACKET] + rest) == Found(Arr([]), rest)
    ensures ReadValue([OPEN_BRACE, CLOSE_BRACE] + rest) == Found(Obj([]), rest)
  {
    assert ([OPEN_BRACKET, CLOSE_BRACKET] + rest)[2..] == rest;
    assert ([OPEN_BRACE, CLOSE_BRACE] + rest)[2..] == rest;
  }

  lemma {:induction false} Regroup(open: CodeUnit, body: Text, close: CodeUnit, rest: Text)
    ensures [open] + body + [close] + rest == [open] + (body + ([close] + rest))
    ensures body == [] ==> [open] + body + [close] + rest == [open, close] + rest
  {
  }

  lemma {:induction false} Reassociate(a: Text, separator: CodeUnit, b: Text, c: Text)
    ensures a + [separator] + b + c == a + ([separator] + (b + c))
  {
  }

  lemma {:induction false} PrintStarts(v: Value)
    requires Storable(v)
    ensures Print(v) != [] && Print(v)[0] != CLOSE_BRACKET
  {
    if v.Number? { NumberStarts(v.num); }
  }

  lemma {:induction false} ReadPrinted(v: Value, rest: Text)
    requires Storable(v) && EndsNumber(rest)
    ensures ReadValue(Print(v) + rest) == Found(v, rest)
    decreases v, 1
  {
    match v
    case Null => ReadPrintedKeyword(NULL_TEXT, v, rest);
    case Bool(b) => ReadPrintedKeyword(Print(v), v, rest);
    case Number(n) => ReadPrintedNumber(n, rest); NumberStarts(n);
    case Str(s) =>
      ReadEscapedText(s, rest);
      ReadAfterQuote(EscapeText(s) + ([QUOTE] + rest), s, rest);
      Regroup(QUOTE, EscapeText(s), QUOTE, rest);
    case Arr(items) =>
      Regroup(OPEN_BRACKET, PrintItems(items), CLOSE_BRACKET, rest);
      ReadEmpty(rest);
      if items != [] {
        ReadPrintedItems(items, rest);
        PrintStarts(items[0]);
        ReadAfterBracket(PrintItems(items) + ([CLOSE_BRACKET] + rest), items, rest);
      }
    case Obj(members) =>
      Regroup(OPEN_BRACE, PrintMembers(members), CLOSE_BRACE, rest);
      ReadEmpty(rest);
      if members != [] {
        ReadPrintedMembers(members, rest);
        ReadAfterBrace(PrintMembers(members) + ([CLOSE_BRACE] + rest), members, rest);
      }
  }

  lemma {:induction false} ReadLastItem(text: Text, v: Value, rest: Text)
    requires ReadValue(text + ([CLOSE_BRACKET] + rest)) == Found(v, [CLOSE_BRACKET] + rest)
    ensures ReadItems(text + ([CLOSE_BRACKET] + rest)) == Found([v], rest)
  {
    assert ([CLOSE_BRACKET] + rest)[1..] == rest;
  }

  lemma {:induction false} ReadNextItem(text: Text, v: Value, tail: Text, vs: seq<Value>, rest: Text)
    requires ReadValue(text + ([COMMA] + tail)) == Found(v, [COMMA] + tail)
    requires ReadItems(tail) == Found(vs, rest)
    ensures ReadItems(text + ([COMMA] + tail)) == Found([v] + vs, rest)
  {
    assert ([COMMA] + tail)[1..] == tail;
  }

  lemma {:induction false} ReadPrintedItems(items: seq<Value>, rest: Text)
    requires items != [] && forall e | e in items :: Storable(e)
    ensures ReadItems(PrintItems(items) + ([CLOSE_BRACKET] + rest)) == Found(items, rest)
    decreases items, 0
  {
    var after := [CLOSE_BRACKET] + rest;
    if |items| == 1 {
      ReadPrinted(items[0], after);
      ReadLastItem(Print(items[0]), items[0], rest);
      assert items == [items[0]];
    } else {
      var tail := PrintItems(items[1..]) + after;
      ReadPrinted(items[0], [COMMA] + tail);
      ReadPrintedItems(items[1..], rest);
      ReadNextItem(Print(items[0]), items[0], tail, items[1..], rest);
      Reassociate(Print(items[0]), COMMA, PrintItems(items[1..]), after);
      assert items == [items[0]] + items[1..];
    }
  }

  lemma {:induction false} ReadPrintedMember(m: Member, rest: Text)
    requires Storable(m.value) && EndsNumber(rest)
    ensures ReadMember(PrintMember(m) + rest) == Found(m, rest)
    decreases m, 1
  {
    var body := Print(m.value) + rest;
    ReadEscapedText(m.key, [COLON] + body);
    ReadPrinted(m.value, rest);
    ReadColon(m, EscapeText(m.key) + ([QUOTE] + ([COLON] + body)), body, rest);
    Regroup(QUOTE, EscapeText(m.key), QUOTE, [COLON] + body);
    Reassociate(Quoted(m.key), COLON, Print(m.value), rest);
  }

  lemma {:induction false} ReadColon(m: Member, tail: Text, body: Text, rest: Text)
    requires ReadString(tail) == Found(m.key, [COLON] + body) && ReadValue(body) == Found(m.value, rest)
    ensures ReadMember([QUOTE] + tail) == Found(m, rest)
  {
    assert ([QUOTE] + tail)[1..] == tail;
    assert ([COLON] + body)[1..] == body;
  }

  lemma {:induction false} ReadLastMember(text: Text, m: Member, rest: Text)
    requires ReadMember(text + ([CLOSE_BRACE] + rest)) == Found(m, [CLOSE_BRACE] + rest)
    ensures ReadMembers(text + ([CLOSE_BRACE] + rest)) == Found([m], rest)
  {
    assert ([CLOSE_BRACE] + rest)[1..] == rest;
  }

  lemma {:induction false} ReadNextMember(text: Text, m: Member, tail: Text, ms: seq<Member>, rest: Text)
    requires ReadMember(text + ([COMMA] + tail)) == Found(m, [COMMA] + tail)
    requires ReadMembers(tail) == Found(ms, rest)
    ensures ReadMembers(text + ([COMMA] + tail)) == Found([m] + ms, rest)
  {
    assert ([COMMA] + tail)[1..] == tail;
  }

  lemma {:induction false} ReadPrintedMembers(ms: seq<Member>, rest: Text)
    requires ms != [] && forall m | m in ms :: Storable(m.value)
    ensures ReadMembers(PrintMembers(ms) + ([CLOSE_BRACE] + rest)) == Found(ms, rest)
    decreases ms, 0
  {
    var after := [CLOSE_BRACE] + rest;
    if |ms| == 1 {
      ReadPrintedMember(ms[0], after);
      ReadLastMember(PrintMember(ms[0]), ms[0], rest);
      assert ms == [ms[0]];
    } else {
      var tail := PrintMembers(ms[1..]) + after;
      ReadPrintedMember(ms[0], [COMMA] + tail);
      ReadPrintedMembers(ms[1..], rest);
      ReadNextMember(PrintMember(ms[0]), ms[0], tail, ms[1..], rest);
      Reassociate(PrintMember(ms[0]), COMMA, PrintMembers(ms[1..]), after);
      assert ms == [ms[0]] + ms[1..];
    }
  }

  // ----- Main results

  /** Canonical text reads back to the printed value with every object sorted, and prints again to itself. */
  lemma {:induction false} CanonicalTextReadsBack(v: Value)
    requires WellFormed(v) && Canonical(v).Ok?
    ensures ReadText(Canonical(v).value).Found?
    ensures
      var w := ReadText(Canonical(v).value).value;
      Equivalent(v, w) && WellFormed(w) && Canonical(w) == Canonical(v)
  {
    CanonicalPrintsNormalForm(v);
    var w := Normalize(v);
    ReadPrinted(w, []);
    assert Print(w) + [] == Print(w);
    NormalizeIsIdempotent(v);
    EquivalentIffSameNormalForm(v, w);
    CanonicalPrintsNormalForm(w);
  }

  lemma {:induction false} NormalizeIsIdempotent(v: Value)
    requires WellFormed(v)
    ensures WellFormed(Normalize(v)) && Normalize(Normalize(v)) == Normalize(v)
    decreases v
  {
    match v
    case Arr(items) =>
      var ns := NormalizeItems(items);
      forall i | 0 <= i < |items| ensures WellFormed(ns[i]) && Normalize(ns[i]) == ns[i] { NormalizeIsIdempotent(items[i]); }
      assert NormalizeItems(ns) == ns;
    case Obj(members) =>
      var ns := NormalizeMembers(members);
      forall i | 0 <= i < |members| ensures WellFormed(ns[i].value) && Normalize(ns[i].value) == ns[i].value {
        NormalizeIsIdempotent(members[i].value);
      }
      SortedNormalMembersStay(ns);
      NormalizeKeepsDistinct(members);
      SortMembersSorts(ns);
      SortedKeysAreDistinct(SortMembers(ns));
      InSorted(ns);
    case _ =>
  }

  lemma {:induction false} SortedKeysAreDistinct(ms: seq<Member>)
    requires SortedByKey(ms)
    ensures DistinctKeys(ms)
  {
    forall i, j | 0 <= i < j < |ms| ensures ms[i].key != ms[j].key { LessIsIrreflexive(ms[i].key); }
  }

  lemma {:induction false} SortedStaysSorted(ms: seq<Member>)
    requires SortedByKey(ms)
    ensures SortMembers(ms) == ms
  {
    SortedKeysAreDistinct(ms);
    SortMembersSorts(ms);
    SortedAreEqual(SortMembers(ms), ms);
  }

  lemma {:induction false} SortedNormalMembersStay(ns: seq<Member>)
    requires DistinctKeys(ns) && forall i | 0 <= i < |ns| :: Normalize(ns[i].value) == ns[i].value
    ensures Normalize(Obj(SortMembers(ns))) == Obj(SortMembers(ns))
  {
    var sorted := SortMembers(ns);
    assert NormalizeMembers(ns) == ns;
    NormalizeSorted(ns);
    SortMembersSorts(ns);
    SortedStaysSorted(sorted);
  }

  /** Two values a snapshot may hold print alike exactly when only the order of object keys tells them apart. */
  lemma {:induction false} CanonicalTextDecidesEquality(a: Value, b: Value)
    requires WellFormed(a) && WellFormed(b) && Canonical(a).Ok? && Canonical(b).Ok?
    ensures Canonical(a) == Canonical(b) <==> Equivalent(a, b)
  {
    CanonicalPrintsNormalForm(a);
    CanonicalPrintsNormalForm(b);
    EquivalentIffSameNormalForm(a, b);
    ReadPrinted(Normalize(a), []);
    ReadPrinted(Normalize(b), []);
    assert Print(Normalize(a)) + [] == Print(Normalize(a));
    assert Print(Normalize(b)) + [] == Print(Normalize(b));
  }
}
