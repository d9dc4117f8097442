/** Trimming, upper case and lower case, over the ASCII characters. */
module Strings {

  predicate IsSpace(c: char) { c == ' ' || '\t' <= c <= '\r' }

  function TrimStart(s: string): string
  {
    if s != [] && IsSpace(s[0]) then TrimStart(s[1..]) else s
  }

  function TrimEnd(s: string): string
  {
    if s != [] && IsSpace(s[|s| - 1]) then TrimEnd(s[..|s| - 1]) else s
  }

  function Trim(s: string): string { TrimEnd(TrimStart(s)) }

  function Upper(c: char): char { if 'a' <= c <= 'z' then c - 'a' + 'A' else c }

  function Lower(c: char): char { if 'A' <= c <= 'Z' then c - 'A' + 'a' else c }

  function UpperCase(s: string): string { seq(|s|, i requires 0 <= i < |s| => Upper(s[i])) }

  function LowerCase(s: string): string { seq(|s|, i requires 0 <= i < |s| => Lower(s[i])) }

  /** Nothing but space. */
  predicate Blank(s: string) { forall i | 0 <= i < |s| :: IsSpace(s[i]) }

  /** No space at either end. */
  predicate Tight(s: string) { s == "" || (!IsSpace(s[0]) && !IsSpace(s[|s| - 1])) }

  lemma {:induction false} TrimStartStops(s: string)
    ensures TrimStart(s) == [] || !IsSpace(TrimStart(s)[0])
    ensures TrimStart(s) == [] <==> Blank(s)
  {
    if s != [] && IsSpace(s[0]) {
      TrimStartStops(s[1..]);
      assert Blank(s) <==> Blank(s[1..]) by { assert forall i | 0 <= i < |s| :: s[i] == if i == 0 then s[0] else s[1..][i - 1]; }
    }
  }

  lemma {:induction false} TrimEndStops(s: string)
    requires s != [] && !IsSpace(s[0])
    ensures TrimEnd(s) != [] && TrimEnd(s)[0] == s[0] && !IsSpace(TrimEnd(s)[|TrimEnd(s)| - 1])
  {
    if IsSpace(s[|s| - 1]) { TrimEndStops(s[..|s| - 1]); }
  }

  /** Trimming leaves no space at either end, nothing of a blank text, and a tight text as it is. */
  lemma {:induction false} TrimIsTight(s: string)
    ensures Tight(Trim(s)) && (Trim(s) == "" <==> Blank(s)) && (Tight(s) ==> Trim(s) == s)
  {
    TrimStartStops(s);
    if TrimStart(s) != [] { TrimEndStops(TrimStart(s)); }
  }

  /** Upper case and lower case tell the same texts apart. */
  lemma {:induction false} CasesFoldAlike(s: string, t: string)
    ensures UpperCase(s) == UpperCase(t) <==> LowerCase(s) == LowerCase(t)
  {
    if UpperCase(s) == UpperCase(t) {
      forall i | 0 <= i < |s| ensures Lower(s[i]) == Lower(t[i]) { assert UpperCase(s)[i] == UpperCase(t)[i]; }
    }
    if LowerCase(s) == LowerCase(t) {
      forall i | 0 <= i < |s| ensures Upper(s[i]) == Upper(t[i]) { assert LowerCase(s)[i] == LowerCase(t)[i]; }
    }
  }
}
