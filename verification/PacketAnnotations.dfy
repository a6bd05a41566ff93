/** Normal forms of the notes and tags that users attach to packets. */
module PacketAnnotations {
  import opened Sequences
  import opened Strings
  import opened Models

  const MAX_NOTE_LENGTH := 2000
  const MAX_TAG_LENGTH := 32
  const MAX_TAGS := 12

  /** `slice(0, n)`. */
  function Slice<T(!new)>(xs: seq<T>, n: nat): seq<T> { if |xs| <= n then xs else xs[..n] }

  function NormalizeNote(note: string): string { Slice(Trim(note), MAX_NOTE_LENGTH) }

  /** `replace(/\s+/g, "-")`: each run of white space becomes one dash. */
  function DashSpaces(s: string): string {
    if s == "" then ""
    else if !IsWhitespace(s[|s| - 1]) then DashSpaces(s[..|s| - 1]) + [s[|s| - 1]]
    else if |s| > 1 && IsWhitespace(s[|s| - 2]) then DashSpaces(s[..|s| - 1])
    else DashSpaces(s[..|s| - 1]) + "-"
  }

  function NormalizeTag(tag: string): string { Slice(DashSpaces(Trim(tag)), MAX_TAG_LENGTH) }

  /** The set of normalised tags in insertion order. */
  function SeenTags(tags: seq<string>): seq<string> {
    if tags == [] then []
    else
      var before, tag := SeenTags(tags[..|tags| - 1]), NormalizeTag(tags[|tags| - 1]);
      if tag == "" || tag in before then before else before + [tag]
  }

  function NormalizeTags(tags: seq<string>): seq<string> { Slice(SeenTags(tags), MAX_TAGS) }

  method NormalizeAnnotationTags(tags: seq<string>) returns (normalized: seq<string>)
    ensures normalized == NormalizeTags(tags)
  {
    var seenTags: seq<string> := [];
    for i := 0 to |tags|
      invariant seenTags == SeenTags(tags[..i])
    {
      assert tags[..i + 1][..i] == tags[..i];
      var normalizedTag := NormalizeTag(tags[i]);
      if normalizedTag != "" && normalizedTag !in seenTags {
        seenTags := seenTags + [normalizedTag];
      }
    }
    assert tags[..|tags|] == tags;
    normalized := Slice(seenTags, MAX_TAGS);
  }

  function Normalize(a: Annotations): Annotations {
    a.(note := NormalizeNote(a.note), tags := NormalizeTags(a.tags))
  }

  predicate HasPacketAnnotations(a: Annotations) {
    a.bookmarked || a.suspicious || |Trim(a.note)| > 0 || |a.tags| > 0
  }

  // -- Notes ---------------------------------------------------------------------------

  lemma {:induction false} TrimStartShortens(s: string)
    ensures |TrimStart(s)| <= |s| && (|TrimStart(s)| == |s| ==> TrimStart(s) == s)
  {
    if s != "" && IsWhitespace(s[0]) {
      TrimStartShortens(s[1..]);
    }
  }

  lemma TrimShortens(s: string)
    ensures |Trim(s)| <= |s| && (|Trim(s)| == |s| ==> Trim(s) == s)
  {
    TrimStartShortens(s);
    TrimEndTrims(TrimStart(s));
  }

  /** A note is kept as it is iff it is short enough and has no white space at its ends. */
  lemma NoteIsKeptIff(note: string)
    ensures NormalizeNote(note) == note <==> |note| <= MAX_NOTE_LENGTH && Trimmed(note)
  {
    TrimShortens(note);
    TrimTrims(note);
  }

  /** A normalised note is short and does not begin with white space; only the cut can
      leave white space at its end. */
  lemma NormalizedNote(note: string)
    ensures var n := NormalizeNote(note);
            && |n| <= MAX_NOTE_LENGTH && (n != "" ==> !IsWhitespace(n[0]))
            && (|Trim(note)| <= MAX_NOTE_LENGTH ==> Trimmed(n))
  {
    TrimTrims(note);
  }

  // -- Tags ----------------------------------------------------------------------------

  predicate HasNoSpaces(s: string) { forall i :: 0 <= i < |s| ==> !IsWhitespace(s[i]) }

  predicate IsCanonicalTag(tag: string) { tag != "" && |tag| <= MAX_TAG_LENGTH && HasNoSpaces(tag) }

  ghost predicate AreCanonicalTags(tags: seq<string>) {
    |tags| <= MAX_TAGS && NoDuplicates(tags) && forall tag :: tag in tags ==> IsCanonicalTag(tag)
  }

  lemma {:induction false} DashedHasNoSpaces(s: string)
    ensures HasNoSpaces(DashSpaces(s))
  {
    if s != "" {
      DashedHasNoSpaces(s[..|s| - 1]);
    }
  }

  lemma {:induction false} NoSpacesNoDashes(s: string)
    requires HasNoSpaces(s)
    ensures DashSpaces(s) == s
  {
    if s != "" {
      NoSpacesNoDashes(s[..|s| - 1]);
      assert s == s[..|s| - 1] + [s[|s| - 1]];
    }
  }

  lemma NormalizedTag(tag: string)
    ensures NormalizeTag(tag) != "" ==> IsCanonicalTag(NormalizeTag(tag))
    ensures IsCanonicalTag(tag) ==> NormalizeTag(tag) == tag
  {
    DashedHasNoSpaces(Trim(tag));
    if IsCanonicalTag(tag) {
      TrimTrims(tag);
      NoSpacesNoDashes(tag);
    }
  }

  lemma {:induction false} SeenTagsAreCanonical(tags: seq<string>)
    ensures NoDuplicates(SeenTags(tags)) && forall tag :: tag in SeenTags(tags) ==> IsCanonicalTag(tag)
  {
    if tags != [] {
      SeenTagsAreCanonical(tags[..|tags| - 1]);
      NormalizedTag(tags[|tags| - 1]);
    }
  }

  lemma {:induction false} CanonicalTagsAreSeen(tags: seq<string>)
    requires NoDuplicates(tags) && forall tag :: tag in tags ==> IsCanonicalTag(tag)
    ensures SeenTags(tags) == tags
  {
    if tags != [] {
      var init, last := tags[..|tags| - 1], tags[|tags| - 1];
      assert tags == init + [last];
      CanonicalTagsAreSeen(init);
      NormalizedTag(last);
      assert last in tags && tags[|tags| - 1] == last;
      assert forall i :: 0 <= i < |init| ==> init[i] == tags[i];
    }
  }

  lemma NormalizedTagsAreCanonical(tags: seq<string>)
    ensures AreCanonicalTags(NormalizeTags(tags))
  {
    SeenTagsAreCanonical(tags);
    assert forall tag :: tag in NormalizeTags(tags) ==> tag in SeenTags(tags);
  }

  /** Normalised tags are canonical, and canonical lists are exactly those kept. */
  lemma TagsAreKeptIff(tags: seq<string>)
    ensures AreCanonicalTags(NormalizeTags(tags))
    ensures NormalizeTags(tags) == tags <==> AreCanonicalTags(tags)
  {
    NormalizedTagsAreCanonical(tags);
    if AreCanonicalTags(tags) {
      CanonicalTagsAreSeen(tags);
      assert NormalizeTags(tags) == tags;
    }
  }

  // -- What normal forms are --------------------------------------------------------------

  /** A dash for the first of every run of white space, read from the left; `inSpace`
      says whether such a run is under way. */
  function Dashed(s: string, inSpace: bool): string {
    if s == "" then ""
    else if !IsWhitespace(s[0]) then [s[0]] + Dashed(s[1..], false)
    else (if inSpace then "" else "-") + Dashed(s[1..], true)
  }

  predicate EndsInSpace(s: string, inSpace: bool) {
    if s == "" then inSpace else IsWhitespace(s[|s| - 1])
  }

  lemma {:induction false} DashedAppend(s: string, c: char, inSpace: bool)
    ensures Dashed(s + [c], inSpace) ==
            Dashed(s, inSpace) + if !IsWhitespace(c) then [c] else if EndsInSpace(s, inSpace) then "" else "-"
  {
    var more := if !IsWhitespace(c) then [c] else if EndsInSpace(s, inSpace) then "" else "-";
    if s == "" {
      assert s + [c] == [c] && [c][1..] == "";
    } else {
      assert (s + [c])[1..] == s[1..] + [c];
      DashedAppend(s[1..], c, IsWhitespace(s[0]));
      Associative(if !IsWhitespace(s[0]) then [s[0]] else if inSpace then "" else "-",
                  Dashed(s[1..], IsWhitespace(s[0])), more);
    }
  }

  lemma {:induction false} DashSpacesIsDashed(s: string)
    ensures DashSpaces(s) == Dashed(s, false)
  {
    if s != "" {
      var init, last := s[..|s| - 1], s[|s| - 1];
      assert s == init + [last];
      DashSpacesIsDashed(init);
      DashedAppend(init, last, false);
    }
  }

  /** The tag without white space around it, with a dash for every run of it inside, cut
      at 32 characters. */
  lemma TagAnswers(tag: string)
    ensures var dashed := Dashed(Trim(tag), false);
            NormalizeTag(tag) == if |dashed| > 32 then dashed[..32] else dashed
  {
    DashSpacesIsDashed(Trim(tag));
  }

  ghost predicate IsNormalOf(tags: seq<string>, tag: string) {
    tag != "" && exists i :: 0 <= i < |tags| && NormalizeTag(tags[i]) == tag
  }

  lemma NormalsGrow(tags: seq<string>, last: string, tag: string)
    ensures IsNormalOf(tags + [last], tag) <==> IsNormalOf(tags, tag) || (tag != "" && tag == NormalizeTag(last))
  {
    var all := tags + [last];
    if IsNormalOf(tags, tag) {
      var i :| 0 <= i < |tags| && NormalizeTag(tags[i]) == tag;
      assert NormalizeTag(all[i]) == tag;
    }
    if IsNormalOf(all, tag) {
      var i :| 0 <= i < |all| && NormalizeTag(all[i]) == tag;
      if i < |tags| {
        assert NormalizeTag(tags[i]) == tag;
      }
    }
    assert all[|tags|] == last;
  }

  lemma {:induction false} SeenMembers(tags: seq<string>)
    ensures NoDuplicates(SeenTags(tags))
    ensures forall tag :: tag in SeenTags(tags) <==> IsNormalOf(tags, tag)
  {
    if tags != [] {
      var init, last := tags[..|tags| - 1], tags[|tags| - 1];
      assert tags == init + [last];
      SeenMembers(init);
      forall tag ensures tag in SeenTags(tags) <==> IsNormalOf(tags, tag) {
        NormalsGrow(init, last, tag);
      }
    }
  }

  /** Each normalised tag is the normal form of some tag, and those before it are exactly
      the other normal forms of the tags before that one. */
  lemma {:induction false} SeenInOrder(tags: seq<string>, k: nat) returns (i: nat)
    requires k < |SeenTags(tags)|
    ensures i < |tags| && NormalizeTag(tags[i]) == SeenTags(tags)[k]
    ensures SeenTags(tags[..i]) == SeenTags(tags)[..k]
  {
    var init := tags[..|tags| - 1];
    if k < |SeenTags(init)| {
      i := SeenInOrder(init, k);
      assert init[..i] == tags[..i];
    } else {
      i := |tags| - 1;
    }
  }

  /** The normalised tags are the first twelve different normal forms, in the order of
      their first occurrence; empty ones do not count. */
  lemma TagsAnswer(tags: seq<string>, k: nat) returns (i: nat)
    requires k < |NormalizeTags(tags)|
    ensures i < |tags| && NormalizeTag(tags[i]) == NormalizeTags(tags)[k]
    ensures forall tag :: tag in NormalizeTags(tags)[..k] <==> IsNormalOf(tags[..i], tag)
    ensures !IsNormalOf(tags[..i], NormalizeTags(tags)[k])
    ensures |NormalizeTags(tags)| == 12 || forall tag :: IsNormalOf(tags, tag) ==> tag in NormalizeTags(tags)
    ensures |NormalizeTags(tags)| <= 12
  {
    i := SeenInOrder(tags, k);
    SeenMembers(tags);
    SeenMembers(tags[..i]);
    assert NormalizeTags(tags)[..k] == SeenTags(tags)[..k];
    assert SeenTags(tags)[k] !in SeenTags(tags)[..k];
  }
}
