/** Keys of an AsyncAPI document: sanitised names, made unique by a number. */
module DocumentKeys {
  import opened Sequences
  import opened Strings
  import opened Decimals

  // -- Sanitising ------------------------------------------------------------------------

  predicate IsKeyChar(c: char) {
    'a' <= c <= 'z' || 'A' <= c <= 'Z' || '0' <= c <= '9' || c == '_' || c == '-'
  }

  /** `replace(/[^a-zA-Z0-9_-]+/g, "_")`: each longest run becomes one underscore. */
  function ReplaceOthers(s: string): string {
    if s == "" then ""
    else if IsKeyChar(s[|s| - 1]) then ReplaceOthers(s[..|s| - 1]) + [s[|s| - 1]]
    else if |s| > 1 && !IsKeyChar(s[|s| - 2]) then ReplaceOthers(s[..|s| - 1])
    else ReplaceOthers(s[..|s| - 1]) + "_"
  }

  /** `replace(/_+/g, "_")`. */
  function CollapseUnderscores(s: string): string {
    if s == "" then ""
    else if |s| > 1 && s[|s| - 1] == '_' && s[|s| - 2] == '_' then CollapseUnderscores(s[..|s| - 1])
    else CollapseUnderscores(s[..|s| - 1]) + [s[|s| - 1]]
  }

  /** `replace(/^_|_$/g, "")`. */
  function StripUnderscores(s: string): string {
    var rest := if s != "" && s[0] == '_' then s[1..] else s;
    if rest != "" && rest[|rest| - 1] == '_' then rest[..|rest| - 1] else rest
  }

  function SanitizeDocumentKey(value: string): string {
    var key := StripUnderscores(CollapseUnderscores(ReplaceOthers(Trim(value))));
    if key == "" then "unknown_event" else key
  }

  /** Key characters only, no underscore at either end, and never two in a row. */
  ghost predicate IsCleanKey(key: string) {
    && key != "" && key[0] != '_' && key[|key| - 1] != '_'
    && (forall i :: 0 <= i < |key| ==> IsKeyChar(key[i]))
    && NoDoubleUnderscore(key)
  }

  ghost predicate NoDoubleUnderscore(s: string) {
    forall i, j :: 0 <= i && j == i + 1 && j < |s| ==> !(s[i] == '_' && s[j] == '_')
  }

  predicate AllKeyChars(s: string) { forall i :: 0 <= i < |s| ==> IsKeyChar(s[i]) }

  lemma {:induction false} ReplacedIsKeyChars(s: string)
    ensures AllKeyChars(ReplaceOthers(s))
  {
    if s != "" {
      ReplacedIsKeyChars(s[..|s| - 1]);
    }
  }

  lemma {:induction false} CollapsedHasNoDoubles(s: string)
    requires AllKeyChars(s)
    ensures var t := CollapseUnderscores(s);
            && AllKeyChars(t) && NoDoubleUnderscore(t)
            && (t == "" <==> s == "") && (s != "" ==> t[|t| - 1] == s[|s| - 1])
  {
    if s != "" {
      CollapsedHasNoDoubles(s[..|s| - 1]);
    }
  }

  lemma PartHasNoDoubles(s: string, from: nat, to: nat)
    requires from <= to <= |s| && NoDoubleUnderscore(s) && AllKeyChars(s)
    ensures NoDoubleUnderscore(s[from..to]) && AllKeyChars(s[from..to])
  {
    forall i, j | 0 <= i && j == i + 1 && j < to - from ensures !(s[from..to][i] == '_' && s[from..to][j] == '_') {
      assert s[from..to][i] == s[from + i] && s[from..to][j] == s[from + j];
    }
  }

  lemma StrippedIsClean(t: string)
    requires AllKeyChars(t) && NoDoubleUnderscore(t)
    ensures StripUnderscores(t) != "" ==> IsCleanKey(StripUnderscores(t))
  {
    var from := if t != "" && t[0] == '_' then 1 else 0;
    var rest, key := t[from..], StripUnderscores(t);
    assert from == 1 && |t| > 1 ==> t[0] == '_' && t[1] == rest[0];
    assert |key| < |rest| && key != "" ==> rest[|rest| - 1] == '_' && rest[|rest| - 2] == key[|key| - 1];
    assert key == t[from..from + |key|];
    PartHasNoDoubles(t, from, from + |key|);
    PartHasNoDoubles(t, from, |t|);
    assert t[from..|t|] == rest;
  }

  /** Sanitised keys are clean, so none of them is a name like `__proto__`. */
  lemma SanitizedIsClean(value: string)
    ensures IsCleanKey(SanitizeDocumentKey(value))
  {
    ReplacedIsKeyChars(Trim(value));
    CollapsedHasNoDoubles(ReplaceOthers(Trim(value)));
    StrippedIsClean(CollapseUnderscores(ReplaceOthers(Trim(value))));
    UnknownEventIsClean();
  }

  lemma UnknownEventIsClean()
    ensures IsCleanKey("unknown_event")
  {
  }

  // -- What is kept --------------------------------------------------------------------------

  predicate IsWordChar(c: char) {
    'a' <= c <= 'z' || 'A' <= c <= 'Z' || '0' <= c <= '9' || c == '-'
  }

  predicate EndsInWord(s: string) { s != "" && IsWordChar(s[|s| - 1]) }

  /** The longest stretches of letters, digits and dashes, in order. */
  function Words(s: string): (words: seq<string>)
    ensures EndsInWord(s) ==> words != []
  {
    if s == "" then []
    else
      var init, last := s[..|s| - 1], s[|s| - 1];
      var before := Words(init);
      if !IsWordChar(last) then before
      else if EndsInWord(init) then before[..|before| - 1] + [before[|before| - 1] + [last]]
      else before + [[last]]
  }

  /** The words with one underscore between them. */
  function Underscored(words: seq<string>): string {
    if words == [] then ""
    else if |words| == 1 then words[0]
    else Underscored(words[..|words| - 1]) + "_" + words[|words| - 1]
  }

  lemma WordsAppend(s: string, c: char)
    ensures Words(s + [c]) ==
            (var before := Words(s);
             if !IsWordChar(c) then before
             else if EndsInWord(s) then before[..|before| - 1] + [before[|before| - 1] + [c]]
             else before + [[c]])
  {
    assert (s + [c])[..|s|] == s;
  }

  lemma {:induction false} ReplacingKeepsWords(s: string)
    ensures Words(ReplaceOthers(s)) == Words(s) && (EndsInWord(ReplaceOthers(s)) <==> EndsInWord(s))
  {
    if s != "" {
      var init, last := s[..|s| - 1], s[|s| - 1];
      ReplacingKeepsWords(init);
      WordsAppend(ReplaceOthers(init), if IsKeyChar(last) then last else '_');
    }
  }

  lemma {:induction false} CollapsingKeepsWords(s: string)
    ensures Words(CollapseUnderscores(s)) == Words(s) && (EndsInWord(CollapseUnderscores(s)) <==> EndsInWord(s))
  {
    if s != "" {
      var init, last := s[..|s| - 1], s[|s| - 1];
      CollapsingKeepsWords(init);
      WordsAppend(CollapseUnderscores(init), last);
    }
  }

  /** A character in front that is no part of a word changes nothing. */
  lemma {:induction false} WordsAfter(c: char, s: string)
    requires !IsWordChar(c)
    ensures Words([c] + s) == Words(s) && (EndsInWord([c] + s) <==> EndsInWord(s))
    decreases |s|
  {
    if s == "" {
      assert [c] + s == [c] && [c][..0] == "";
    } else {
      var init, last := s[..|s| - 1], s[|s| - 1];
      WordsAfter(c, init);
      assert [c] + s == ([c] + init) + [last];
      WordsAppend([c] + init, last);
      assert s == init + [last];
      WordsAppend(init, last);
    }
  }

  lemma StrippingKeepsWords(s: string)
    ensures Words(StripUnderscores(s)) == Words(s)
  {
    var rest := if s != "" && s[0] == '_' then s[1..] else s;
    if s != "" && s[0] == '_' {
      assert s == ['_'] + rest;
      WordsAfter('_', rest);
    }
  }

  lemma {:induction false} TrimStartKeepsWords(s: string)
    ensures Words(TrimStart(s)) == Words(s)
  {
    if s != "" && IsWhitespace(s[0]) {
      TrimStartKeepsWords(s[1..]);
      assert s == [s[0]] + s[1..];
      WordsAfter(s[0], s[1..]);
    }
  }

  lemma {:induction false} TrimEndKeepsWords(s: string)
    ensures Words(TrimEnd(s)) == Words(s)
  {
    if s != "" && IsWhitespace(s[|s| - 1]) {
      TrimEndKeepsWords(s[..|s| - 1]);
    }
  }

  /** What is left over of a key after its words. */
  function Rest(key: string): string { if key != "" && key[|key| - 1] == '_' then "_" else "" }

  /** The key up to here is its words and what is left over. */
  predicate InWords(key: string) { key == Underscored(Words(key)) + Rest(key) && Words(key) != [] }

  lemma UnderscoreComes(init: string)
    requires EndsInWord(init) && InWords(init)
    ensures InWords(init + ['_'])
  {
    WordsAppend(init, '_');
  }

  lemma WordGoesOn(init: string, last: char)
    requires EndsInWord(init) && IsWordChar(last) && InWords(init)
    ensures InWords(init + [last])
  {
    WordsAppend(init, last);
    LongerLastWord(Words(init), last);
  }

  lemma WordBegins(init: string, last: char)
    requires init != "" && init[|init| - 1] == '_' && IsWordChar(last) && InWords(init)
    ensures InWords(init + [last])
  {
    WordsAppend(init, last);
    OneMoreWord(Words(init), [last]);
  }

  lemma NextCharOfKey(init: string, last: char)
    requires init != "" && IsKeyChar(last) && IsKeyChar(init[|init| - 1]) && !(last == '_' && init[|init| - 1] == '_')
    requires InWords(init)
    ensures InWords(init + [last])
  {
    if last == '_' {
      UnderscoreComes(init);
    } else if EndsInWord(init) {
      WordGoesOn(init, last);
    } else {
      WordBegins(init, last);
    }
  }

  lemma OneMoreWord(words: seq<string>, word: string)
    requires words != []
    ensures Underscored(words + [word]) == Underscored(words) + "_" + word
  {
    assert (words + [word])[..|words|] == words;
  }

  /** The words of a clean key, put together again; a trailing underscore is left over. */
  lemma {:induction false} CleanIsUnderscored(key: string)
    requires AllKeyChars(key) && NoDoubleUnderscore(key) && (key != "" ==> key[0] != '_')
    ensures key != "" ==> InWords(key)
  {
    if key != "" {
      var init, last := key[..|key| - 1], key[|key| - 1];
      assert key == init + [last];
      if init == "" {
        WordsAppend("", last);
        assert Words(key) == [[last]];
      } else {
        PartHasNoDoubles(key, 0, |key| - 1);
        CleanIsUnderscored(init);
        NextCharOfKey(init, last);
      }
    }
  }

  lemma LongerLastWord(words: seq<string>, c: char)
    requires words != []
    ensures Underscored(words[..|words| - 1] + [words[|words| - 1] + [c]]) == Underscored(words) + [c]
  {
    var init, last := words[..|words| - 1], words[|words| - 1];
    assert (init + [last + [c]])[..|words| - 1] == init;
    Associative(Underscored(init) + "_", last, [c]);
  }

  /** A sanitised key is the words of the name with single underscores between them. */
  lemma SanitizedIsItsWords(value: string)
    ensures SanitizeDocumentKey(value) == if Words(value) == [] then "unknown_event" else Underscored(Words(value))
  {
    var replaced := ReplaceOthers(Trim(value));
    var collapsed := CollapseUnderscores(replaced);
    var key := StripUnderscores(collapsed);
    TrimStartKeepsWords(value);
    TrimEndKeepsWords(TrimStart(value));
    ReplacingKeepsWords(Trim(value));
    CollapsingKeepsWords(replaced);
    StrippingKeepsWords(collapsed);
    ReplacedIsKeyChars(Trim(value));
    CollapsedHasNoDoubles(replaced);
    StrippedIsClean(collapsed);
    if key != "" {
      CleanIsUnderscored(key);
    }
  }

  // -- Unique keys ---------------------------------------------------------------------------

  /** The `k`-th name tried: the base, then the base with `_2`, `_3`, … */
  function Candidate(base: string, k: nat): string
    requires k >= 1
  {
    if k == 1 then base else base + "_" + Numeral(k)
  }

  lemma CandidatesDiffer(base: string, j: nat, k: nat)
    requires 1 <= j && 1 <= k && Candidate(base, j) == Candidate(base, k)
    ensures j == k
  {
    if j > 1 && k > 1 {
      assert Candidate(base, j)[|base| + 1..] == Numeral(j);
      assert Candidate(base, k)[|base| + 1..] == Numeral(k);
      NumeralInjective(j, k);
    }
  }

  /** The first name from the `k`-th on that is not taken. It ends because every name
      tried uses up one of the finitely many taken ones. */
  function FirstFree(taken: set<string>, base: string, k: nat): (n: nat)
    requires k >= 1
    ensures n >= k
    decreases |taken|
  {
    if Candidate(base, k) !in taken then k else FirstFree(taken - {Candidate(base, k)}, base, k + 1)
  }

  function UniqueKey(taken: set<string>, base: string): string { Candidate(base, FirstFree(taken, base, 1)) }

  lemma {:induction false} FirstFreeIsFirst(taken: set<string>, base: string, k: nat)
    requires k >= 1
    ensures var n := FirstFree(taken, base, k);
            Candidate(base, n) !in taken && forall j :: k <= j < n ==> Candidate(base, j) in taken
    decreases |taken|
  {
    if Candidate(base, k) in taken {
      var n, rest := FirstFree(taken, base, k), taken - {Candidate(base, k)};
      FirstFreeIsFirst(rest, base, k + 1);
      if Candidate(base, n) == Candidate(base, k) {
        CandidatesDiffer(base, n, k);
      }
    }
  }

  /** The first unused one of base, base_2, base_3, … and the only name with no earlier
      unused one. */
  lemma UniqueKeyIsFirstUnused(taken: set<string>, base: string, n: nat)
    requires n >= 1
    ensures UniqueKey(taken, base) !in taken
    ensures UniqueKey(taken, base) == Candidate(base, n) <==>
            Candidate(base, n) !in taken && forall j :: 1 <= j < n ==> Candidate(base, j) in taken
  {
    var m := FirstFree(taken, base, 1);
    FirstFreeIsFirst(taken, base, 1);
    if Candidate(base, m) == Candidate(base, n) {
      CandidatesDiffer(base, m, n);
    }
  }

  /** At most one name per taken key is tried before a free one. */
  lemma {:induction false} FewTries(taken: set<string>, base: string, k: nat)
    requires k >= 1
    ensures FirstFree(taken, base, k) <= k + |taken|
    decreases |taken|
  {
    if Candidate(base, k) in taken {
      FewTries(taken - {Candidate(base, k)}, base, k + 1);
    }
  }

  /** `candidate in record` also sees the names every object inherits. */
  method CreateUniqueKey<T>(record: map<string, T>, inherited: set<string>, rawKey: string) returns (candidate: string)
    ensures candidate == UniqueKey(record.Keys + inherited, SanitizeDocumentKey(rawKey))
    ensures candidate !in record && candidate !in inherited
  {
    var baseKey := SanitizeDocumentKey(rawKey);
    candidate := baseKey;
    var index := 2;
    ghost var taken := record.Keys + inherited;
    ghost var left := taken;
    FirstFreeIsFirst(taken, baseKey, 1);
    while candidate in record || candidate in inherited
      invariant index >= 2 && candidate == Candidate(baseKey, index - 1)
      invariant left <= taken && FirstFree(left, baseKey, index - 1) == FirstFree(taken, baseKey, 1)
      invariant forall k :: k >= index - 1 && Candidate(baseKey, k) in taken ==> Candidate(baseKey, k) in left
      decreases |left|
    {
      forall k | k >= index && Candidate(baseKey, k) in left ensures Candidate(baseKey, k) != candidate {
        if Candidate(baseKey, k) == candidate {
          CandidatesDiffer(baseKey, k, index - 1);
        }
      }
      left := left - {candidate};
      candidate := baseKey + "_" + Numeral(index);
      index := index + 1;
    }
  }
}
