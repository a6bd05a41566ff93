/** A sequence cut wherever its key changes. */
module Runs {
  import opened Sequences

  ghost predicate NonEmpty<T(!new)>(runs: seq<seq<T>>) { forall i :: 0 <= i < |runs| ==> runs[i] != [] }

  function Cut<T(!new), K(==)>(xs: seq<T>, key: T -> K): (runs: seq<seq<T>>)
    ensures NonEmpty(runs)
    ensures xs != [] ==> runs != [] && runs[0][0] == xs[0]
  {
    if xs == [] then []
    else
      var rest := Cut(xs[1..], key);
      if rest != [] && key(rest[0][0]) == key(xs[0]) then [[xs[0]] + rest[0]] + rest[1..] else [[xs[0]]] + rest
  }

  ghost predicate OneKey<T(!new), K>(xs: seq<T>, key: T -> K, k: K) { forall i :: 0 <= i < |xs| ==> key(xs[i]) == k }

  lemma {:induction false} FirstRun<T(!new), K>(xs: seq<T>, n: nat, key: T -> K)
    requires 0 < n <= |xs| && OneKey(xs[..n], key, key(xs[0]))
    requires n < |xs| ==> key(xs[n]) != key(xs[0])
    ensures Cut(xs, key) == [xs[..n]] + Cut(xs[n..], key)
    decreases n
  {
    var rest := xs[1..];
    if n == 1 {
      assert xs[..1] == [xs[0]];
    } else {
      assert rest[..n - 1] == xs[..n][1..] && rest[n - 1..] == xs[n..];
      assert xs[..n][1] == rest[0];
      FirstRun(rest, n - 1, key);
      assert xs[..n] == [xs[0]] + rest[..n - 1];
    }
  }

  /** Neighbouring runs have different keys. */
  ghost predicate KeysChange<T(!new), K>(runs: seq<seq<T>>, key: T -> K)
    requires NonEmpty(runs)
  {
    forall i, j :: 0 <= i && j == i + 1 && j < |runs| ==> key(runs[i][0]) != key(runs[j][0])
  }

  /** Pieces in order, each of one key, with a change of key at every cut. */
  ghost predicate IsMaximalCut<T(!new), K>(runs: seq<seq<T>>, xs: seq<T>, key: T -> K) {
    && NonEmpty(runs)
    && Flatten(runs) == xs
    && (forall i :: 0 <= i < |runs| ==> OneKey(runs[i], key, key(runs[i][0])))
    && KeysChange(runs, key)
  }

  lemma AddFront<T(!new), K>(x: T, rest: seq<seq<T>>, xs: seq<T>, key: T -> K)
    requires IsMaximalCut(rest, xs, key)
    ensures IsMaximalCut(
              if rest != [] && key(rest[0][0]) == key(x) then [[x] + rest[0]] + rest[1..] else [[x]] + rest,
              [x] + xs, key)
  {
    if rest != [] && key(rest[0][0]) == key(x) {
      var runs := [[x] + rest[0]] + rest[1..];
      assert runs[1..] == rest[1..];
      assert [x] + (rest[0] + Flatten(rest[1..])) == ([x] + rest[0]) + Flatten(rest[1..]);
      forall i, j | 0 <= i && j == i + 1 && j < |runs| ensures key(runs[i][0]) != key(runs[j][0]) {
        assert key(rest[i][0]) != key(rest[j][0]);
      }
    } else {
      var runs := [[x]] + rest;
      assert runs[1..] == rest;
      forall i, j | 0 <= i && j == i + 1 && j < |runs| ensures key(runs[i][0]) != key(runs[j][0]) {
        if i > 0 {
          assert key(rest[i - 1][0]) != key(rest[j - 1][0]);
        }
      }
    }
  }

  lemma {:induction false} CutIsMaximal<T(!new), K>(xs: seq<T>, key: T -> K)
    ensures IsMaximalCut(Cut(xs, key), xs, key)
  {
    if xs != [] {
      CutIsMaximal(xs[1..], key);
      AddFront(xs[0], Cut(xs[1..], key), xs[1..], key);
      assert xs == [xs[0]] + xs[1..];
    }
  }

  /** There is only one such cut. */
  lemma {:induction false} MaximalCutIsUnique<T(!new), K>(runs: seq<seq<T>>, xs: seq<T>, key: T -> K)
    requires IsMaximalCut(runs, xs, key)
    ensures runs == Cut(xs, key)
    decreases |runs|
  {
    if runs != [] {
      var n, rest := |runs[0]|, runs[1..];
      assert xs == runs[0] + Flatten(rest);
      assert xs[..n] == runs[0] && xs[n..] == Flatten(rest);
      if n < |xs| {
        assert rest != [] && rest[0] == runs[1];
        assert xs[n] == Flatten(rest)[0] == rest[0][0];
        assert key(runs[0][0]) != key(runs[1][0]);
      }
      FirstRun(xs, n, key);
      assert KeysChange(rest, key) by {
        forall i, j | 0 <= i && j == i + 1 && j < |rest| ensures key(rest[i][0]) != key(rest[j][0]) {
          assert key(runs[i + 1][0]) != key(runs[j + 1][0]);
        }
      }
      MaximalCutIsUnique(rest, xs[n..], key);
      assert runs == [runs[0]] + rest;
    }
  }

  /** `run` is a suffix of `grown`. */
  ghost predicate IsSuffix<T(!new)>(run: seq<T>, grown: seq<T>) {
    |run| <= |grown| && grown[|grown| - |run|..] == run
  }

  /** Putting more in front keeps every run; only the first one may grow, at its front. */
  lemma {:induction false} PrependKeepsRuns<T(!new), K>(xs: seq<T>, ys: seq<T>, key: T -> K)
    returns (front: seq<seq<T>>, grown: seq<T>)
    requires ys != []
    ensures Cut(xs + ys, key) == front + ([grown] + Cut(ys, key)[1..])
    ensures IsSuffix(Cut(ys, key)[0], grown)
  {
    if xs == [] {
      assert xs + ys == ys;
      front, grown := [], Cut(ys, key)[0];
    } else {
      assert (xs + ys)[1..] == xs[1..] + ys && (xs + ys)[0] == xs[0];
      front, grown := PrependKeepsRuns(xs[1..], ys, key);
      front, grown := OneMore(xs[0], xs[1..] + ys, front, grown, Cut(ys, key)[1..], Cut(ys, key)[0], key);
      assert [xs[0]] + (xs[1..] + ys) == xs + ys;
    }
  }

  lemma OneMore<T(!new), K>(
    x: T, xs: seq<T>, front: seq<seq<T>>, grown: seq<T>, back: seq<seq<T>>, run: seq<T>, key: T -> K)
    returns (front': seq<seq<T>>, grown': seq<T>)
    requires Cut(xs, key) == front + ([grown] + back) && IsSuffix(run, grown)
    ensures Cut([x] + xs, key) == front' + ([grown'] + back) && IsSuffix(run, grown')
  {
    var before, after := Cut(xs, key), Cut([x] + xs, key);
    assert ([x] + xs)[1..] == xs;
    if key(before[0][0]) != key(x) {
      front', grown' := [[x]] + front, grown;
    } else if front == [] {
      front', grown' := [], [x] + grown;
      assert grown'[|grown'| - |run|..] == grown[|grown| - |run|..];
    } else {
      front', grown' := [[x] + front[0]] + front[1..], grown;
    }
  }
}
