/** Masking secret values in text that is shown or stored. */
module Environment {
  import opened Sequences
  import opened Strings

  datatype Variable = Variable(isSecret: bool, key: string, value: string)

  const MASK := "****"

  // -- Split and join ----------------------------------------------------------------------

  /** `s.indexOf(part, from)`, when `part` occurs there or later. */
  function FirstFrom(s: string, part: string, from: nat): (i: Option<nat>)
    requires from <= |s|
    ensures i.Some? ==> from <= i.value && OccursAt(s, part, i.value)
    ensures forall j: nat :: from <= j <= |s| && (i.None? || j < i.value) ==> !OccursAt(s, part, j)
    decreases |s| - from
  {
    if OccursAt(s, part, from) then Some(from)
    else if from == |s| then None
    else FirstFrom(s, part, from + 1)
  }

  /** `s.split(separator)`. */
  function Split(s: string, separator: string): (pieces: seq<string>)
    requires separator != ""
    ensures pieces != []
    decreases |s|
  {
    match FirstFrom(s, separator, 0)
    case None => [s]
    case Some(i) => [s[..i]] + Split(s[i + |separator|..], separator)
  }

  /** `pieces.join(glue)`. */
  function Join(pieces: seq<string>, glue: string): string {
    if pieces == [] then ""
    else if |pieces| == 1 then pieces[0]
    else pieces[0] + glue + Join(pieces[1..], glue)
  }

  function Mask(s: string, secret: string): string
    requires secret != ""
  {
    Join(Split(s, secret), MASK)
  }

  // -- Redaction ------------------------------------------------------------------------------

  function MaskVariable(s: string, variable: Variable): string {
    if !variable.isSecret || variable.value == "" then s else Mask(s, variable.value)
  }

  function Redact(s: string, variables: seq<Variable>): string {
    if variables == [] then s
    else MaskVariable(Redact(s, variables[..|variables| - 1]), variables[|variables| - 1])
  }

  /** The variables of an environment; none when there is no environment. */
  method RedactEnvironmentSecrets(value: string, environment: Option<seq<Variable>>) returns (redactedValue: string)
    ensures redactedValue == Redact(value, if environment.Some? then environment.value else [])
  {
    redactedValue := value;
    var variables := if environment.Some? then environment.value else [];
    for i := 0 to |variables|
      invariant redactedValue == Redact(value, variables[..i])
    {
      assert variables[..i + 1][..i] == variables[..i];
      if !variables[i].isSecret || variables[i].value == "" {
        continue;
      }
      redactedValue := Join(Split(redactedValue, variables[i].value), MASK);
    }
    assert variables[..|variables|] == variables;
  }

  // -- Nothing safe survives ---------------------------------------------------------------------

  /** Masking with `****` cannot put such a value together again. */
  predicate Safe(secret: string) {
    secret != "" && secret[0] != '*' && secret[|secret| - 1] != '*' && !Contains(secret, MASK)
  }

  /** Where a value can stand in `a`, the mask and `b`: in `a`, in `b`, or so that an
      asterisk is its first or last character or the whole mask is part of it. */
  lemma WhereItOccurs(a: string, b: string, value: string, i: nat)
    requires value != "" && OccursAt(a + MASK + b, value, i)
    ensures || OccursAt(a, value, i) || (i >= |a| + 4 && OccursAt(b, value, i - |a| - 4))
            || value[0] == '*' || value[|value| - 1] == '*' || Contains(value, MASK)
  {
    var s, n := a + MASK + b, |value|;
    if i + n <= |a| {
      assert s[i..i + n] == a[i..i + n];
    } else if i >= |a| + 4 {
      var j := i - |a| - 4;
      assert s[i..i + n] == b[j..j + n];
    } else if i >= |a| {
      OccursChar(s, value, i, 0);
    } else if i + n <= |a| + 4 {
      OccursChar(s, value, i, n - 1);
    } else {
      OccursPart(s, value, i, |a| - i, |a| - i + 4);
      assert OccursAt(value, MASK, |a| - i);
    }
  }

  lemma GluedPiecesHide(a: string, b: string, secret: string)
    requires Safe(secret) && !Contains(a, secret) && !Contains(b, secret)
    ensures !Contains(a + MASK + b, secret)
  {
    if i :| 0 <= i <= |a + MASK + b| && OccursAt(a + MASK + b, secret, i) {
      WhereItOccurs(a, b, secret, i);
    }
  }

  lemma {:induction false} JoinedPiecesHide(pieces: seq<string>, secret: string)
    requires Safe(secret) && forall i :: 0 <= i < |pieces| ==> !Contains(pieces[i], secret)
    ensures !Contains(Join(pieces, MASK), secret)
  {
    if |pieces| > 1 {
      JoinedPiecesHide(pieces[1..], secret);
      GluedPiecesHide(pieces[0], Join(pieces[1..], MASK), secret);
    }
  }

  lemma ContainedInPart(s: string, from: nat, to: nat, secret: string)
    requires from <= to <= |s| && Contains(s[from..to], secret)
    ensures Contains(s, secret)
  {
    var i :| 0 <= i <= to - from && OccursAt(s[from..to], secret, i);
    var j := from + i;
    assert s[j..j + |secret|] == s[from..to][i..i + |secret|];
    assert OccursAt(s, secret, j);
  }

  lemma {:induction false} PiecesAreParts(s: string, separator: string, secret: string)
    requires separator != "" && !Contains(s, secret)
    ensures forall i :: 0 <= i < |Split(s, separator)| ==> !Contains(Split(s, separator)[i], secret)
    decreases |s|
  {
    match FirstFrom(s, separator, 0) {
      case None =>
      case Some(i) =>
        var rest := i + |separator|;
        if Contains(s[..i], secret) {
          assert s[..i] == s[0..i];
          ContainedInPart(s, 0, i, secret);
        }
        if Contains(s[rest..], secret) {
          assert s[rest..] == s[rest..|s|];
          ContainedInPart(s, rest, |s|, secret);
        }
        PiecesAreParts(s[rest..], separator, secret);
    }
  }

  lemma {:induction false} PiecesLackSeparator(s: string, separator: string)
    requires separator != ""
    ensures forall i :: 0 <= i < |Split(s, separator)| ==> !Contains(Split(s, separator)[i], separator)
    decreases |s|
  {
    match FirstFrom(s, separator, 0) {
      case None =>
      case Some(i) =>
        forall j | 0 <= j <= i ensures !OccursAt(s[..i], separator, j) {
          if OccursAt(s[..i], separator, j) {
            assert s[..i][j..j + |separator|] == s[j..j + |separator|];
            assert OccursAt(s, separator, j);
          }
        }
        PiecesLackSeparator(s[i + |separator|..], separator);
    }
  }

  lemma MaskHides(s: string, secret: string)
    requires Safe(secret)
    ensures !Contains(Mask(s, secret), secret)
  {
    PiecesLackSeparator(s, secret);
    JoinedPiecesHide(Split(s, secret), secret);
  }

  lemma MaskKeepsHidden(s: string, other: string, secret: string)
    requires Safe(secret) && other != "" && !Contains(s, secret)
    ensures !Contains(Mask(s, other), secret)
  {
    PiecesAreParts(s, other, secret);
    JoinedPiecesHide(Split(s, other), secret);
  }

  /** The values that must not be shown. */
  ghost predicate IsSecret(variables: seq<Variable>, value: string) {
    value != "" && exists v :: v in variables && v.isSecret && v.value == value
  }

  /** A safe secret never survives, whatever the other variables are, in whatever order
      they come, and however their values overlap or nest. */
  lemma {:induction false} SafeSecretsAreHidden(s: string, variables: seq<Variable>, secret: string)
    requires IsSecret(variables, secret) && Safe(secret)
    ensures !Contains(Redact(s, variables), secret)
    decreases |variables|
  {
    var init, last := variables[..|variables| - 1], variables[|variables| - 1];
    assert variables == init + [last];
    if last.isSecret && last.value == secret {
      MaskHides(Redact(s, init), secret);
    } else {
      var v :| v in variables && v.isSecret && v.value == secret;
      assert v in init;
      SafeSecretsAreHidden(s, init, secret);
      if last.isSecret && last.value != "" {
        MaskKeepsHidden(Redact(s, init), last.value, secret);
      }
    }
  }

  // -- Every unsafe value can survive ---------------------------------------------------------------

  lemma NoRoomFor(s: string, secret: string)
    requires secret != "" && |s| < |secret|
    ensures Split(s, secret) == [s]
  {
    assert FirstFrom(s, secret, 0).None?;
  }

  lemma MaskOne(before: string, secret: string, after: string)
    requires secret != "" && |after| < |secret|
    requires forall j :: 0 <= j < |before| ==> !OccursAt(before + secret + after, secret, j)
    ensures Mask(before + secret + after, secret) == before + MASK + after
  {
    var s, i := before + secret + after, |before|;
    assert OccursAt(s, secret, i);
    assert FirstFrom(s, secret, 0) == Some(i);
    assert s[i + |secret|..] == after && s[..i] == before;
    NoRoomFor(after, secret);
    assert Split(s, secret) == [before, after];
    assert Join([after], MASK) == after;
    assert [before, after][1..] == [after];
  }

  /** A text that masking turns into one that still shows the secret. */
  function Leaking(secret: string): string
    requires secret != ""
  {
    var n := |secret|;
    if secret[0] == '*' then secret + secret[1..]
    else if secret[n - 1] == '*' then secret[..n - 1] + secret
    else match FirstFrom(secret, MASK, 0)
      case None => secret
      case Some(i) => secret[..i] + secret + secret[i + 4..]
  }

  lemma LeaksWhenItBeginsWithAStar(secret: string)
    requires secret != "" && secret[0] == '*'
    ensures Contains(Mask(Leaking(secret), secret), secret)
  {
    assert "" + secret + secret[1..] == Leaking(secret);
    MaskOne("", secret, secret[1..]);
    var masked := "" + MASK + secret[1..];
    assert masked[3..] == secret;
    assert OccursAt(masked, secret, 3);
  }

  lemma EarlierMeansSameEnds(secret: string, j: nat)
    requires j < |secret| - 1 && OccursAt(secret[..|secret| - 1] + secret, secret, j)
    ensures secret[0] == secret[|secret| - 1]
  {
    var s, n := secret[..|secret| - 1] + secret, |secret|;
    OccursChar(s, secret, j, 0);
    OccursChar(s, secret, j, n - 1);
    assert s[j] == secret[j] == s[j + n - 1];
  }

  lemma LeaksWhenItEndsWithAStar(secret: string)
    requires secret != "" && secret[0] != '*' && secret[|secret| - 1] == '*'
    ensures Contains(Mask(Leaking(secret), secret), secret)
  {
    var n := |secret|;
    var before := secret[..n - 1];
    var s := before + secret + "";
    assert s == before + secret;
    if j :| 0 <= j < |before| && OccursAt(s, secret, j) {
      EarlierMeansSameEnds(secret, j);
    }
    MaskOne(before, secret, "");
    var masked := before + MASK + "";
    assert masked[0..n] == secret;
    assert OccursAt(masked, secret, 0);
  }

  lemma EarlierMeansEarlierMask(secret: string, x: string, y: string, j: nat)
    requires secret == x + MASK + y && j < |x| && OccursAt(x + secret + y, secret, j)
    ensures OccursAt(secret, MASK, j)
  {
    var s, i := x + secret + y, |x|;
    OccursPart(s, secret, j, i, i + 4);
    assert secret[i..i + 4] == MASK;
    assert s[j + i..j + i + 4] == secret[j..j + 4];
  }

  lemma LeaksWhenItHoldsTheMask(secret: string)
    requires secret != "" && secret[0] != '*' && secret[|secret| - 1] != '*' && Contains(secret, MASK)
    ensures Contains(Mask(Leaking(secret), secret), secret)
  {
    var i := FirstFrom(secret, MASK, 0).value;
    var x, y := secret[..i], secret[i + 4..];
    assert secret == x + MASK + y;
    if j :| 0 <= j < |x| && OccursAt(x + secret + y, secret, j) {
      EarlierMeansEarlierMask(secret, x, y, j);
    }
    MaskOne(x, secret, y);
    assert OccursAt(secret, secret, 0);
  }

  lemma UnsafeSecretsLeak(secret: string)
    requires secret != "" && !Safe(secret)
    ensures Contains(Mask(Leaking(secret), secret), secret)
  {
    if secret[0] == '*' {
      LeaksWhenItBeginsWithAStar(secret);
    } else if secret[|secret| - 1] == '*' {
      LeaksWhenItEndsWithAStar(secret);
    } else {
      LeaksWhenItHoldsTheMask(secret);
    }
  }

  // -- When redaction works ---------------------------------------------------------------------------

  ghost predicate Hides(s: string, variables: seq<Variable>) {
    forall secret :: IsSecret(variables, secret) ==> !Contains(Redact(s, variables), secret)
  }

  ghost predicate AllSafe(variables: seq<Variable>) {
    forall secret :: IsSecret(variables, secret) ==> Safe(secret)
  }

  /** A single secret is hidden in every text iff it neither begins nor ends with an
      asterisk nor contains the mask. */
  lemma OneSecretIsHiddenIffSafe(variable: Variable)
    requires variable.isSecret && variable.value != ""
    ensures (forall s :: Hides(s, [variable])) <==> Safe(variable.value)
  {
    var secret := variable.value;
    assert forall value :: IsSecret([variable], value) <==> value == secret;
    if Safe(secret) {
      forall s ensures Hides(s, [variable]) {
        SafeSecretsAreHidden(s, [variable], secret);
      }
    } else {
      var s := Leaking(secret);
      UnsafeSecretsLeak(secret);
      assert [variable][..0] == [];
      assert Redact(s, [variable]) == Mask(s, secret);
      assert !Hides(s, [variable]);
    }
  }

  /** Some of the variables, in order. */
  ghost predicate IsChoice(chosen: seq<Variable>, variables: seq<Variable>) {
    forall v :: v in chosen ==> v in variables
  }

  /** Redaction hides every secret in every text, in any order and for any choice of
      the variables, iff every secret is safe. In particular it does when no secret
      contains an asterisk. */
  lemma SecretsAreHiddenIffSafe(variables: seq<Variable>)
    ensures (forall s, chosen :: IsChoice(chosen, variables) ==> Hides(s, chosen)) <==> AllSafe(variables)
    ensures (forall v :: v in variables ==> '*' !in v.value) ==> AllSafe(variables)
  {
    if AllSafe(variables) {
      forall s, chosen, secret | IsChoice(chosen, variables) && IsSecret(chosen, secret)
        ensures !Contains(Redact(s, chosen), secret)
      {
        assert IsSecret(variables, secret);
        SafeSecretsAreHidden(s, chosen, secret);
      }
    }
    if secret :| IsSecret(variables, secret) && !Safe(secret) {
      var v :| v in variables && v.isSecret && v.value == secret;
      assert IsChoice([v], variables);
      OneSecretIsHiddenIffSafe(v);
    }
    forall secret | IsSecret(variables, secret) && '*' !in secret ensures Safe(secret) {
      NoStarNoMask(secret);
    }
  }

  lemma NoStarNoMask(secret: string)
    requires '*' !in secret && secret != ""
    ensures Safe(secret)
  {
    if i :| 0 <= i <= |secret| && OccursAt(secret, MASK, i) {
      OccursChar(secret, MASK, i, 0);
    }
  }

  // -- Text without secrets ------------------------------------------------------------------------------

  lemma MaskNothing(s: string, secret: string)
    requires secret != "" && !Contains(s, secret)
    ensures Mask(s, secret) == s
  {
  }

  /** Text that shows no secret is left alone. */
  lemma {:induction false} OtherTextIsKept(s: string, variables: seq<Variable>)
    requires forall secret :: IsSecret(variables, secret) ==> !Contains(s, secret)
    ensures Redact(s, variables) == s
  {
    if variables != [] {
      var init, last := variables[..|variables| - 1], variables[|variables| - 1];
      assert variables == init + [last];
      assert forall secret :: IsSecret(init, secret) ==> IsSecret(variables, secret);
      OtherTextIsKept(s, init);
      if last.isSecret && last.value != "" {
        assert last in variables && IsSecret(variables, last.value);
        MaskNothing(s, last.value);
      }
    }
  }

  // -- Everything else stays where it was ----------------------------------------------------------

  /** Every occurrence of the secret, from the left and not overlapping, becomes the mask;
      every other character stays. */
  function ReplaceAll(s: string, secret: string): string
    requires secret != ""
    decreases |s|
  {
    if s == "" then ""
    else if secret <= s then "****" + ReplaceAll(s[|secret|..], secret)
    else [s[0]] + ReplaceAll(s[1..], secret)
  }

  lemma PrefixIsOccurrence(s: string, secret: string)
    ensures secret <= s <==> OccursAt(s, secret, 0)
  {
  }

  lemma OccursInTail(s: string, secret: string, j: nat)
    requires s != "" && j > 0
    ensures OccursAt(s, secret, j) <==> OccursAt(s[1..], secret, j - 1)
  {
    if j + |secret| <= |s| {
      assert s[1..][j - 1..j - 1 + |secret|] == s[j..j + |secret|];
    }
  }

  ghost predicate NoneBefore(s: string, secret: string, i: nat) {
    forall j: nat :: j < i ==> !OccursAt(s, secret, j)
  }

  lemma NoneBeforeInTail(s: string, secret: string, i: nat)
    requires s != "" && i > 0 && NoneBefore(s, secret, i)
    ensures NoneBefore(s[1..], secret, i - 1) && !(secret <= s)
    ensures OccursAt(s[1..], secret, i - 1) <==> OccursAt(s, secret, i)
  {
    PrefixIsOccurrence(s, secret);
    OccursInTail(s, secret, i);
    forall j: nat | j < i - 1 ensures !OccursAt(s[1..], secret, j) {
      OccursInTail(s, secret, j + 1);
    }
  }

  lemma ReplaceNext(s: string, secret: string)
    requires secret != "" && s != "" && !(secret <= s)
    ensures ReplaceAll(s, secret) == [s[0]] + ReplaceAll(s[1..], secret)
  {
  }

  lemma ReplaceHere(s: string, secret: string)
    requires secret != "" && OccursAt(s, secret, 0)
    ensures ReplaceAll(s, secret) == "****" + ReplaceAll(s[|secret|..], secret)
  {
    PrefixIsOccurrence(s, secret);
  }

  lemma CutInTail(s: string, i: nat, n: nat, rest: string)
    requires 0 < i && i + n <= |s|
    ensures s[1..][i - 1 + n..] == s[i + n..]
    ensures [s[0]] + (s[1..][..i - 1] + rest) == s[..i] + rest
  {
    assert s[..i] == [s[0]] + s[1..][..i - 1];
    Associative([s[0]], s[1..][..i - 1], rest);
  }

  /** What stands before the first occurrence stays. */
  lemma {:induction false} StaysUpTo(s: string, secret: string, i: nat)
    requires secret != "" && OccursAt(s, secret, i) && NoneBefore(s, secret, i)
    ensures ReplaceAll(s, secret) == s[..i] + ("****" + ReplaceAll(s[i + |secret|..], secret))
    decreases i
  {
    if i == 0 {
      ReplaceHere(s, secret);
      assert s[..0] == "";
    } else {
      NoneBeforeInTail(s, secret, i);
      ReplaceNext(s, secret);
      StaysUpTo(s[1..], secret, i - 1);
      CutInTail(s, i, |secret|, "****" + ReplaceAll(s[i + |secret|..], secret));
    }
  }

  lemma {:induction false} AllStays(s: string, secret: string)
    requires secret != "" && NoneBefore(s, secret, |s| + 1)
    ensures ReplaceAll(s, secret) == s
    decreases |s|
  {
    if s != "" {
      NoneBeforeInTail(s, secret, |s| + 1);
      ReplaceNext(s, secret);
      AllStays(s[1..], secret);
    }
  }

  lemma JoinTwo(piece: string, pieces: seq<string>, glue: string)
    requires pieces != []
    ensures Join([piece] + pieces, glue) == piece + glue + Join(pieces, glue)
  {
    assert ([piece] + pieces)[1..] == pieces;
  }

  /** Splitting at the secret and joining with the mask is replacing it. */
  lemma {:induction false} MaskIsReplaceAll(s: string, secret: string)
    requires secret != ""
    ensures Mask(s, secret) == ReplaceAll(s, secret)
    decreases |s|
  {
    match FirstFrom(s, secret, 0) {
      case None => AllStays(s, secret);
      case Some(i) =>
        StaysUpTo(s, secret, i);
        MaskIsReplaceAll(s[i + |secret|..], secret);
        JoinTwo(s[..i], Split(s[i + |secret|..], secret), MASK);
        Associative(s[..i], MASK, ReplaceAll(s[i + |secret|..], secret));
    }
  }

  /** One variable after another, in their order. */
  function ReplaceInOrder(s: string, variables: seq<Variable>): string
    decreases |variables|
  {
    if variables == [] then s
    else if variables[0].isSecret && variables[0].value != "" then
      ReplaceInOrder(ReplaceAll(s, variables[0].value), variables[1..])
    else ReplaceInOrder(s, variables[1..])
  }

  lemma {:induction false} ReplaceInOrderAppend(s: string, variables: seq<Variable>, last: Variable)
    ensures ReplaceInOrder(s, variables + [last]) == ReplaceInOrder(ReplaceInOrder(s, variables), [last])
    decreases |variables|
  {
    if variables == [] {
      assert [] + [last] == [last];
    } else {
      assert (variables + [last])[1..] == variables[1..] + [last];
      if variables[0].isSecret && variables[0].value != "" {
        ReplaceInOrderAppend(ReplaceAll(s, variables[0].value), variables[1..], last);
      } else {
        ReplaceInOrderAppend(s, variables[1..], last);
      }
    }
  }

  /** Redaction replaces the secrets one after another and touches nothing else. */
  lemma {:induction false} RedactionReplacesInOrder(s: string, variables: seq<Variable>)
    ensures Redact(s, variables) == ReplaceInOrder(s, variables)
    decreases |variables|
  {
    if variables != [] {
      var init, last := variables[..|variables| - 1], variables[|variables| - 1];
      assert variables == init + [last];
      RedactionReplacesInOrder(s, init);
      ReplaceInOrderAppend(s, init, last);
      assert [last][1..] == [];
      if last.isSecret && last.value != "" {
        MaskIsReplaceAll(Redact(s, init), last.value);
      }
    }
  }
}
