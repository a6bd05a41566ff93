/** The string operations the application relies on. A string is a sequence of
    characters; `Trim` strips what ECMAScript counts as white space. */
module Strings {

  predicate IsWhitespace(c: char) {
    || '\U{9}' <= c <= '\U{D}' || c == ' ' || c == '\U{A0}' || c == '\U{1680}'
    || '\U{2000}' <= c <= '\U{200A}' || c == '\U{2028}' || c == '\U{2029}'
    || c == '\U{202F}' || c == '\U{205F}' || c == '\U{3000}' || c == '\U{FEFF}'
  }

  function TrimStart(s: string): string {
    if s != "" && IsWhitespace(s[0]) then TrimStart(s[1..]) else s
  }

  function TrimEnd(s: string): string {
    if s != "" && IsWhitespace(s[|s| - 1]) then TrimEnd(s[..|s| - 1]) else s
  }

  function Trim(s: string): string { TrimEnd(TrimStart(s)) }

  /** Neither end is white space. */
  predicate Trimmed(s: string) {
    s != "" ==> !IsWhitespace(s[0]) && !IsWhitespace(s[|s| - 1])
  }

  lemma {:induction false} TrimStartTrims(s: string)
    ensures TrimStart(s) != "" ==> !IsWhitespace(TrimStart(s)[0])
  {
    if s != "" && IsWhitespace(s[0]) {
      TrimStartTrims(s[1..]);
    }
  }

  lemma {:induction false} TrimEndTrims(s: string)
    ensures TrimEnd(s) <= s
    ensures TrimEnd(s) != "" ==> !IsWhitespace(TrimEnd(s)[|TrimEnd(s)| - 1])
  {
    if s != "" && IsWhitespace(s[|s| - 1]) {
      TrimEndTrims(s[..|s| - 1]);
    }
  }

  /** `trim` leaves a string with no white space at either end, and leaves exactly
      such strings alone. */
  lemma TrimTrims(s: string)
    ensures Trimmed(Trim(s))
    ensures Trim(s) == s <==> Trimmed(s)
  {
    TrimStartTrims(s);
    TrimEndTrims(TrimStart(s));
    if Trimmed(s) {
      assert TrimStart(s) == s;
    }
  }

  predicate AllWhitespace(s: string) { forall i :: 0 <= i < |s| ==> IsWhitespace(s[i]) }

  lemma {:induction false} TrimStartPadded(before: string, s: string)
    requires AllWhitespace(before) && (s != "" ==> !IsWhitespace(s[0]))
    ensures TrimStart(before + s) == s
  {
    if before == "" {
      assert before + s == s;
    } else {
      assert (before + s)[1..] == before[1..] + s;
      TrimStartPadded(before[1..], s);
    }
  }

  lemma {:induction false} TrimEndPadded(s: string, after: string)
    requires AllWhitespace(after) && (s != "" ==> !IsWhitespace(s[|s| - 1]))
    ensures TrimEnd(s + after) == s
    decreases |after|
  {
    if after == "" {
      assert s + after == s;
    } else {
      assert (s + after)[..|s + after| - 1] == s + after[..|after| - 1];
      TrimEndPadded(s, after[..|after| - 1]);
    }
  }

  /** `trim` removes exactly the white space put around a trimmed string. */
  lemma TrimPadded(before: string, s: string, after: string)
    requires AllWhitespace(before) && AllWhitespace(after) && Trimmed(s) && s != ""
    ensures Trim(before + s + after) == s
  {
    assert before + s + after == before + (s + after);
    TrimStartPadded(before, s + after);
    TrimEndPadded(s, after);
  }

  predicate OccursAt(s: string, part: string, i: nat) {
    i + |part| <= |s| && s[i..i + |part|] == part
  }

  lemma OccursChar(s: string, part: string, i: nat, k: nat)
    requires OccursAt(s, part, i) && k < |part|
    ensures s[i + k] == part[k]
  {
    assert s[i..i + |part|][k] == s[i + k];
  }

  lemma OccursPart(s: string, part: string, i: nat, from: nat, to: nat)
    requires OccursAt(s, part, i) && from <= to <= |part|
    ensures part[from..to] == s[i + from..i + to]
  {
    var a, b := part[from..to], s[i + from..i + to];
    forall k | 0 <= k < to - from ensures a[k] == b[k] {
      OccursChar(s, part, i, from + k);
    }
  }

  /** `s.includes(part)`. */
  predicate Contains(s: string, part: string) {
    exists i :: 0 <= i <= |s| && OccursAt(s, part, i)
  }

  /** `s.endsWith(part)`. */
  predicate EndsWith(s: string, part: string) { |part| <= |s| && s[|s| - |part|..] == part }
}
