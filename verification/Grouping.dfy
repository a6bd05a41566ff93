/** Grouping items under keys in a JavaScript `Map`: keys come out in the order in
    which they first went in, and each group keeps the order of the items. */
module Grouping {
  import opened Sequences

  function KeysInOrder<T(!new), K(!new, ==)>(xs: seq<T>, key: T -> Option<K>): seq<K>
    decreases |xs|
  {
    if xs == [] then []
    else
      var before := KeysInOrder(xs[..|xs| - 1], key);
      match key(xs[|xs| - 1])
      case None => before
      case Some(k) => if k in before then before else before + [k]
  }

  function Members<T(!new), K(!new, ==)>(xs: seq<T>, key: T -> Option<K>, k: K): seq<T>
    decreases |xs|
  {
    if xs == [] then []
    else
      Members(xs[..|xs| - 1], key, k) + if key(xs[|xs| - 1]) == Some(k) then [xs[|xs| - 1]] else []
  }

  lemma {:induction false} KeysAreDistinct<T(!new), K(!new)>(xs: seq<T>, key: T -> Option<K>)
    ensures NoDuplicates(KeysInOrder(xs, key))
    decreases |xs|
  {
    if xs != [] {
      KeysAreDistinct(xs[..|xs| - 1], key);
    }
  }

  lemma {:induction false} KeysAreComplete<T(!new), K(!new)>(xs: seq<T>, key: T -> Option<K>)
    ensures forall k :: k in KeysInOrder(xs, key) <==> exists x :: x in xs && key(x) == Some(k)
    decreases |xs|
  {
    if xs != [] {
      var init, last := xs[..|xs| - 1], xs[|xs| - 1];
      assert xs == init + [last];
      KeysAreComplete(init, key);
      forall k ensures k in KeysInOrder(xs, key) <==> exists x :: x in xs && key(x) == Some(k) {
        if k in KeysInOrder(init, key) {
          var x :| x in init && key(x) == Some(k);
          assert x in xs;
        } else if key(last) == Some(k) {
          assert last in xs;
        }
      }
    }
  }

  lemma {:induction false} MembersHaveKey<T(!new), K(!new)>(xs: seq<T>, key: T -> Option<K>, k: K)
    ensures forall x :: x in Members(xs, key, k) <==> x in xs && key(x) == Some(k)
    decreases |xs|
  {
    if xs != [] {
      MembersHaveKey(xs[..|xs| - 1], key, k);
      assert xs == xs[..|xs| - 1] + [xs[|xs| - 1]];
    }
  }

  /** `groups.get(k) ?? []`. */
  function Get<K(==), T>(groups: map<K, seq<T>>, k: K): seq<T> { if k in groups then groups[k] else [] }

  /** Push onto the group of `k`, which is created when it is missing. */
  function Push<K(!new, ==), T(!new)>(groups: map<K, seq<T>>, k: K, x: T): (pushed: map<K, seq<T>>)
    ensures pushed.Keys == groups.Keys + {k}
  {
    groups[k := Get(groups, k) + [x]]
  }

  lemma GetPush<K(!new), T(!new)>(groups: map<K, seq<T>>, k: K, x: T, j: K)
    ensures Get(Push(groups, k, x), j) == if j == k then Get(groups, j) + [x] else Get(groups, j)
  {
  }

  /** The grouping loop: `groups.get(key) ?? []`, push, set. */
  method GroupBy<T(!new), K(!new, ==)>(xs: seq<T>, key: T -> Option<K>)
    returns (order: seq<K>, groups: map<K, seq<T>>)
    ensures order == KeysInOrder(xs, key)
    ensures forall k :: k in order <==> k in groups
    ensures forall k :: k in groups ==> groups[k] == Members(xs, key, k)
  {
    order, groups := [], map[];
    for i := 0 to |xs|
      invariant order == KeysInOrder(xs[..i], key)
      invariant forall k :: k in order <==> k in groups
      invariant forall k :: k in groups ==> groups[k] == Members(xs[..i], key, k)
      invariant forall k :: k !in groups ==> Members(xs[..i], key, k) == []
    {
      assert xs[..i + 1][..i] == xs[..i];
      match key(xs[i]) {
        case None =>
        case Some(k) =>
          if k !in groups {
            order := order + [k];
          }
          groups := groups[k := Get(groups, k) + [xs[i]]];
      }
    }
    assert xs[..|xs|] == xs;
  }

  // -- Renaming ----------------------------------------------------------------------

  ghost predicate InjectiveOn<A(!new), B(!new)>(f: A -> B, xs: seq<A>) {
    forall a, b :: a in xs && b in xs && f(a) == f(b) ==> a == b
  }

  ghost predicate KeysFollow<S(!new), T(!new), K(!new), L(!new)>(
    xs: seq<S>, f: S -> T, key: S -> Option<K>, key': T -> Option<L>, g: K -> L)
  {
    forall x :: x in xs ==>
      key'(f(x)) == match key(x) case None => None case Some(k) => Some(g(k))
  }

  lemma {:induction false} KeysInOrderMap<S(!new), T(!new), K(!new), L(!new)>(
    xs: seq<S>, f: S -> T, key: S -> Option<K>, key': T -> Option<L>, g: K -> L)
    requires KeysFollow(xs, f, key, key', g)
    requires InjectiveOn(g, KeysInOrder(xs, key))
    ensures KeysInOrder(Map(xs, f), key') == Map(KeysInOrder(xs, key), g)
    decreases |xs|
  {
    if xs != [] {
      var init, last := xs[..|xs| - 1], xs[|xs| - 1];
      assert xs == init + [last];
      MapAppend(init, [last], f);
      assert Map(xs, f)[..|xs| - 1] == Map(init, f) && Map(xs, f)[|xs| - 1] == f(last);
      var before := KeysInOrder(init, key);
      assert forall k :: k in before ==> k in KeysInOrder(xs, key);
      KeysInOrderMap(init, f, key, key', g);
      if key(last).Some? {
        var k := key(last).value;
        assert k in KeysInOrder(xs, key);
        MapMembers(before, g, k);
        MapAppend(before, [k], g);
      }
    }
  }

  lemma MapMembers<A(!new), B(!new)>(xs: seq<A>, g: A -> B, a: A)
    requires forall b :: b in xs && g(b) == g(a) ==> b == a
    ensures g(a) in Map(xs, g) <==> a in xs
  {
    if a in xs {
      var i :| 0 <= i < |xs| && xs[i] == a;
      assert Map(xs, g)[i] == g(a);
    }
  }

  lemma {:induction false} MembersMap<S(!new), T(!new), K(!new), L(!new)>(
    xs: seq<S>, f: S -> T, key: S -> Option<K>, key': T -> Option<L>, g: K -> L, k: K)
    requires KeysFollow(xs, f, key, key', g)
    requires forall x :: x in xs && key(x).Some? && g(key(x).value) == g(k) ==> key(x).value == k
    ensures Members(Map(xs, f), key', g(k)) == Map(Members(xs, key, k), f)
    decreases |xs|
  {
    if xs != [] {
      var init, last := xs[..|xs| - 1], xs[|xs| - 1];
      assert xs == init + [last];
      MapAppend(init, [last], f);
      assert Map(xs, f)[..|xs| - 1] == Map(init, f) && Map(xs, f)[|xs| - 1] == f(last);
      MembersMap(init, f, key, key', g, k);
      MapAppend(Members(init, key, k), if key(last) == Some(k) then [last] else [], f);
      assert last in xs;
    }
  }

  // -- Counting ----------------------------------------------------------------------

  function TotalMembers<T(!new), K(!new, ==)>(xs: seq<T>, key: T -> Option<K>, ks: seq<K>): nat {
    if ks == [] then 0 else |Members(xs, key, ks[0])| + TotalMembers(xs, key, ks[1..])
  }

  lemma {:induction false} TotalOfOneMore<T(!new), K(!new)>(xs: seq<T>, x: T, key: T -> Option<K>, ks: seq<K>)
    requires NoDuplicates(ks)
    ensures TotalMembers(xs + [x], key, ks)
            == TotalMembers(xs, key, ks) + if key(x).Some? && key(x).value in ks then 1 else 0
  {
    if ks != [] {
      assert (xs + [x])[..|xs|] == xs;
      TotalOfOneMore(xs, x, key, ks[1..]);
      assert ks[0] !in ks[1..];
    }
  }

  lemma {:induction false} TotalOfOneMoreKey<T(!new), K(!new)>(xs: seq<T>, key: T -> Option<K>, ks: seq<K>, k: K)
    ensures TotalMembers(xs, key, ks + [k]) == TotalMembers(xs, key, ks) + |Members(xs, key, k)|
  {
    if ks == [] {
      assert ([k])[1..] == [];
    } else {
      assert (ks + [k])[1..] == ks[1..] + [k];
      TotalOfOneMoreKey(xs, key, ks[1..], k);
    }
  }

  /** Every item is in exactly one group. */
  lemma {:induction false} EveryItemIsCountedOnce<T(!new), K(!new)>(xs: seq<T>, key: T -> Option<K>)
    requires forall x :: x in xs ==> key(x).Some?
    ensures TotalMembers(xs, key, KeysInOrder(xs, key)) == |xs|
    decreases |xs|
  {
    if xs != [] {
      var init, last := xs[..|xs| - 1], xs[|xs| - 1];
      assert xs == init + [last];
      var before, k := KeysInOrder(init, key), key(last).value;
      EveryItemIsCountedOnce(init, key);
      KeysAreDistinct(init, key);
      TotalOfOneMore(init, last, key, before);
      if k !in before {
        KeysAreComplete(init, key);
        MembersHaveKey(init, key, k);
        assert Members(init, key, k) == [] by {
          if Members(init, key, k) != [] {
            assert Members(init, key, k)[0] in Members(init, key, k);
          }
        }
        TotalOfOneMoreKey(xs, key, before, k);
      }
    }
  }

  // -- Groups within groups ------------------------------------------------------------

  lemma {:induction false} MembersAppend<T(!new), K(!new)>(xs: seq<T>, ys: seq<T>, key: T -> Option<K>, k: K)
    ensures Members(xs + ys, key, k) == Members(xs, key, k) + Members(ys, key, k)
    decreases |ys|
  {
    if ys == [] {
      assert xs + ys == xs;
    } else {
      var init, last := ys[..|ys| - 1], ys[|ys| - 1];
      assert (xs + ys)[..|xs + ys| - 1] == xs + init;
      MembersAppend(xs, init, key, k);
      Associative(Members(xs, key, k), Members(init, key, k), if key(last) == Some(k) then [last] else []);
    }
  }

  /** A finer key picks the same members out of a coarser group as out of everything. */
  lemma {:induction false} MembersOfMembers<T(!new), K(!new), C(!new)>(
    xs: seq<T>, key: T -> Option<K>, k: K, coarse: T -> Option<C>, c: C)
    requires forall x :: x in xs && key(x) == Some(k) ==> coarse(x) == Some(c)
    ensures Members(xs, key, k) == Members(Members(xs, coarse, c), key, k)
    decreases |xs|
  {
    if xs != [] {
      var init, last := xs[..|xs| - 1], xs[|xs| - 1];
      assert xs == init + [last];
      MembersOfMembers(init, key, k, coarse, c);
      OneMember(last, key, k);
      var more := if coarse(last) == Some(c) then [last] else [];
      MembersAppend(Members(init, coarse, c), more, key, k);
    }
  }

  lemma OneMember<T(!new), K(!new)>(x: T, key: T -> Option<K>, k: K)
    ensures Members([x], key, k) == if key(x) == Some(k) then [x] else []
  {
    assert [x][..0] == [];
    assert Members([x][..0], key, k) == [];
  }

  lemma {:induction false} AllAreMembers<T(!new), K(!new)>(xs: seq<T>, key: T -> Option<K>, k: K)
    requires forall x :: x in xs ==> key(x) == Some(k)
    ensures Members(xs, key, k) == xs
    decreases |xs|
  {
    if xs != [] {
      assert xs == xs[..|xs| - 1] + [xs[|xs| - 1]];
      AllAreMembers(xs[..|xs| - 1], key, k);
    }
  }

  lemma {:induction false} NoMembers<T(!new), K(!new)>(xs: seq<T>, key: T -> Option<K>, k: K)
    requires forall x :: x in xs ==> key(x) != Some(k)
    ensures Members(xs, key, k) == []
    decreases |xs|
  {
    if xs != [] {
      assert xs == xs[..|xs| - 1] + [xs[|xs| - 1]];
      NoMembers(xs[..|xs| - 1], key, k);
    }
  }

  /** Neighbours with one key are neighbours in its group. */
  lemma NeighboursStay<T(!new), K(!new)>(xs: seq<T>, key: T -> Option<K>, k: K, i: nat) returns (m: nat)
    requires i + 1 < |xs| && key(xs[i]) == Some(k) == key(xs[i + 1])
    ensures var group := Members(xs, key, k); m + 1 < |group| && group[m] == xs[i] && group[m + 1] == xs[i + 1]
  {
    var front, pair, back := xs[..i], [xs[i], xs[i + 1]], xs[i + 2..];
    assert xs == front + (pair + back);
    AllAreMembers(pair, key, k);
    MembersAppend(pair, back, key, k);
    MembersAppend(front, pair + back, key, k);
    m := |Members(front, key, k)|;
  }

  /** Where the last member of a group stands. */
  lemma {:induction false} LastMember<T(!new), K(!new)>(xs: seq<T>, key: T -> Option<K>, k: K) returns (i: nat)
    requires Members(xs, key, k) != []
    ensures var group := Members(xs, key, k); i < |xs| && xs[i] == group[|group| - 1]
    ensures forall x :: i < x < |xs| ==> key(xs[x]) != Some(k)
    decreases |xs|
  {
    if key(xs[|xs| - 1]) == Some(k) {
      i := |xs| - 1;
    } else {
      i := LastMember(xs[..|xs| - 1], key, k);
    }
  }

  /** Between two neighbours of a group there are no others of it. */
  lemma {:induction false} NothingBetween<T(!new), K(!new)>(xs: seq<T>, key: T -> Option<K>, k: K, m: nat)
    returns (i: nat, j: nat)
    requires m + 1 < |Members(xs, key, k)|
    ensures var group := Members(xs, key, k); i < j < |xs| && xs[i] == group[m] && xs[j] == group[m + 1]
    ensures forall x :: i < x < j ==> key(xs[x]) != Some(k)
    decreases |xs|
  {
    var init, group := xs[..|xs| - 1], Members(xs, key, k);
    if m + 1 < |Members(init, key, k)| {
      i, j := NothingBetween(init, key, k, m);
    } else {
      i := LastMember(init, key, k);
      j := |xs| - 1;
    }
  }

  /** Two members with no other between them are neighbours in their group. */
  lemma NeighboursAcross<T(!new), K(!new)>(xs: seq<T>, key: T -> Option<K>, k: K, i: nat, j: nat) returns (m: nat)
    requires i < j < |xs| && key(xs[i]) == Some(k) == key(xs[j])
    requires forall x :: i < x < j ==> key(xs[x]) != Some(k)
    ensures var group := Members(xs, key, k); m + 1 < |group| && group[m] == xs[i] && group[m + 1] == xs[j]
  {
    var front, back := xs[..i] + [xs[i]], [xs[j]] + xs[j + 1..];
    var between := xs[i + 1..j];
    assert xs == front + (between + back);
    NoMembers(between, key, k);
    MembersAppend(between, back, key, k);
    MembersAppend(front, between + back, key, k);
    MembersAppend(xs[..i], [xs[i]], key, k);
    MembersAppend([xs[j]], xs[j + 1..], key, k);
    OneMember(xs[i], key, k);
    OneMember(xs[j], key, k);
    m := |Members(xs[..i], key, k)|;
  }

  /** Where the first member of a group stands. */
  lemma {:induction false} FirstMember<T(!new), K(!new)>(xs: seq<T>, key: T -> Option<K>, k: K) returns (i: nat)
    requires Members(xs, key, k) != []
    ensures i < |xs| && xs[i] == Members(xs, key, k)[0] && key(xs[i]) == Some(k)
    ensures forall x :: 0 <= x < i ==> key(xs[x]) != Some(k)
    decreases |xs|
  {
    var init := xs[..|xs| - 1];
    if Members(init, key, k) != [] {
      i := FirstMember(init, key, k);
    } else {
      i := |xs| - 1;
      MembersHaveKey(init, key, k);
      forall x | 0 <= x < i ensures key(xs[x]) != Some(k) {
        assert xs[x] in init;
      }
    }
  }
}
