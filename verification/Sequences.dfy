/** Sequences the way the application uses JavaScript arrays: `filter`, `map`,
    and the stable `sort` by a numeric key. */
module Sequences {

  datatype Option<+T> = None | Some(value: T)

  function Filter<T(!new)>(xs: seq<T>, p: T -> bool): seq<T> {
    if xs == [] then [] else (if p(xs[0]) then [xs[0]] else []) + Filter(xs[1..], p)
  }

  lemma {:induction false} FilterMembers<T(!new)>(xs: seq<T>, p: T -> bool)
    ensures forall y :: y in Filter(xs, p) <==> y in xs && p(y)
  {
    if xs != [] {
      FilterMembers(xs[1..], p);
    }
  }

  function Map<S(!new), T(!new)>(xs: seq<S>, f: S -> T): (ys: seq<T>)
    ensures |ys| == |xs|
    ensures forall i :: 0 <= i < |xs| ==> ys[i] == f(xs[i])
  {
    if xs == [] then [] else [f(xs[0])] + Map(xs[1..], f)
  }

  function Flatten<T(!new)>(xss: seq<seq<T>>): seq<T> {
    if xss == [] then [] else xss[0] + Flatten(xss[1..])
  }

  ghost predicate NoDuplicates<T(!new)>(xs: seq<T>) {
    forall i, j :: 0 <= i < j < |xs| ==> xs[i] != xs[j]
  }

  lemma TakeOneMore<T(!new)>(xs: seq<T>, i: nat)
    requires i < |xs|
    ensures xs[..i + 1] == xs[..i] + [xs[i]]
  {
  }

  lemma Associative<T(!new)>(a: seq<T>, b: seq<T>, c: seq<T>)
    ensures (a + b) + c == a + (b + c)
  {
  }

  lemma {:induction false} FilterAppend<T(!new)>(xs: seq<T>, ys: seq<T>, p: T -> bool)
    ensures Filter(xs + ys, p) == Filter(xs, p) + Filter(ys, p)
  {
    if xs == [] {
      assert xs + ys == ys;
    } else {
      assert (xs + ys)[1..] == xs[1..] + ys;
      FilterAppend(xs[1..], ys, p);
      Associative(if p(xs[0]) then [xs[0]] else [], Filter(xs[1..], p), Filter(ys, p));
    }
  }

  lemma {:induction false} MapAppend<S(!new), T(!new)>(xs: seq<S>, ys: seq<S>, f: S -> T)
    ensures Map(xs + ys, f) == Map(xs, f) + Map(ys, f)
  {
    if xs == [] {
      assert xs + ys == ys;
    } else {
      assert (xs + ys)[1..] == xs[1..] + ys;
      MapAppend(xs[1..], ys, f);
      Associative([f(xs[0])], Map(xs[1..], f), Map(ys, f));
    }
  }

  lemma {:induction false} FilterMap<S(!new), T(!new)>(xs: seq<S>, f: S -> T, p: S -> bool, p': T -> bool)
    requires forall x :: x in xs ==> p'(f(x)) == p(x)
    ensures Filter(Map(xs, f), p') == Map(Filter(xs, p), f)
  {
    if xs != [] {
      FilterMap(xs[1..], f, p, p');
      assert Map(xs, f)[1..] == Map(xs[1..], f);
      MapAppend(if p(xs[0]) then [xs[0]] else [], Filter(xs[1..], p), f);
      assert xs[0] in xs;
    }
  }

  lemma {:induction false} FlattenAppend<T(!new)>(xss: seq<seq<T>>, yss: seq<seq<T>>)
    ensures Flatten(xss + yss) == Flatten(xss) + Flatten(yss)
  {
    if xss == [] {
      assert xss + yss == yss;
    } else {
      assert (xss + yss)[1..] == xss[1..] + yss;
      FlattenAppend(xss[1..], yss);
      Associative(xss[0], Flatten(xss[1..]), Flatten(yss));
    }
  }

  // -- Stable sort by a key, smallest key first ---------------------------------

  ghost predicate SortedBy<T(!new)>(xs: seq<T>, key: T -> real) {
    forall i, j :: 0 <= i < j < |xs| ==> key(xs[i]) <= key(xs[j])
  }

  lemma SortedCons<T(!new)>(x: T, xs: seq<T>, key: T -> real)
    requires SortedBy(xs, key)
    requires forall y :: y in xs ==> key(x) <= key(y)
    ensures SortedBy([x] + xs, key)
  {
    var ys := [x] + xs;
    forall i, j | 0 <= i < j < |ys| ensures key(ys[i]) <= key(ys[j]) {
      assert ys[j] == xs[j - 1] && xs[j - 1] in xs;
    }
  }

  lemma SortedTail<T(!new)>(xs: seq<T>, key: T -> real)
    requires xs != [] && SortedBy(xs, key)
    ensures SortedBy(xs[1..], key)
    ensures forall y :: y in xs[1..] ==> key(xs[0]) <= key(y)
  {
  }

  /** Puts `x` in front of the first element whose key is not smaller. */
  function Insert<T(!new)>(x: T, xs: seq<T>, key: T -> real): (ys: seq<T>)
    ensures |ys| == |xs| + 1
  {
    if xs == [] then [x]
    else if key(x) <= key(xs[0]) then [x] + xs
    else [xs[0]] + Insert(x, xs[1..], key)
  }

  /** `[...xs].sort((a, b) => key(a) - key(b))`: stable, as ECMAScript requires. */
  function Sort<T(!new)>(xs: seq<T>, key: T -> real): (ys: seq<T>)
    ensures |ys| == |xs|
  {
    if xs == [] then [] else Insert(xs[0], Sort(xs[1..], key), key)
  }

  lemma MultisetCons<T(!new)>(xs: seq<T>)
    requires xs != []
    ensures multiset(xs) == multiset{xs[0]} + multiset(xs[1..])
    ensures multiset(xs[1..]) == multiset(xs) - multiset{xs[0]}
  {
    assert xs == [xs[0]] + xs[1..];
  }

  lemma {:induction false} InsertPermutes<T(!new)>(x: T, xs: seq<T>, key: T -> real)
    ensures multiset(Insert(x, xs, key)) == multiset{x} + multiset(xs)
  {
    if xs != [] {
      MultisetCons(xs);
      InsertPermutes(x, xs[1..], key);
    }
  }

  lemma {:induction false} InsertSorts<T(!new)>(x: T, xs: seq<T>, key: T -> real)
    requires SortedBy(xs, key)
    ensures SortedBy(Insert(x, xs, key), key)
  {
    if xs == [] {
    } else if key(x) <= key(xs[0]) {
      SortedCons(x, xs, key);
    } else {
      SortedTail(xs, key);
      InsertSorts(x, xs[1..], key);
      InsertPermutes(x, xs[1..], key);
      forall y | y in Insert(x, xs[1..], key) ensures key(xs[0]) <= key(y) {
        assert y in multiset(Insert(x, xs[1..], key));
      }
      SortedCons(xs[0], Insert(x, xs[1..], key), key);
    }
  }

  lemma {:induction false} SortPermutes<T(!new)>(xs: seq<T>, key: T -> real)
    ensures multiset(Sort(xs, key)) == multiset(xs)
    ensures forall x :: x in Sort(xs, key) <==> x in xs
  {
    if xs != [] {
      SortPermutes(xs[1..], key);
      InsertPermutes(xs[0], Sort(xs[1..], key), key);
      MultisetCons(xs);
    }
    SameElements(Sort(xs, key), xs);
  }

  lemma {:induction false} SortSorts<T(!new)>(xs: seq<T>, key: T -> real)
    ensures SortedBy(Sort(xs, key), key)
  {
    if xs != [] {
      SortSorts(xs[1..], key);
      InsertSorts(xs[0], Sort(xs[1..], key), key);
    }
  }

  lemma SameElements<T(!new)>(xs: seq<T>, ys: seq<T>)
    requires multiset(xs) == multiset(ys)
    ensures |xs| == |ys|
    ensures forall x :: x in xs <==> x in ys
  {
    assert |multiset(xs)| == |multiset(ys)|;
    forall x ensures x in xs <==> x in ys {
      assert x in multiset(xs) <==> x in multiset(ys);
    }
  }

  /** The elements of `xs` whose key is `k`, in order. */
  function Bucket<T(!new)>(xs: seq<T>, key: T -> real, k: real): seq<T> {
    if xs == [] then []
    else (if key(xs[0]) == k then [xs[0]] else []) + Bucket(xs[1..], key, k)
  }

  ghost predicate SameBuckets<T(!new)>(xs: seq<T>, ys: seq<T>, key: T -> real) {
    forall k :: Bucket(xs, key, k) == Bucket(ys, key, k)
  }

  lemma {:induction false} BucketAppend<T(!new)>(xs: seq<T>, ys: seq<T>, key: T -> real, k: real)
    ensures Bucket(xs + ys, key, k) == Bucket(xs, key, k) + Bucket(ys, key, k)
  {
    if xs == [] {
      assert xs + ys == ys;
    } else {
      assert (xs + ys)[1..] == xs[1..] + ys;
      BucketAppend(xs[1..], ys, key, k);
      Associative(if key(xs[0]) == k then [xs[0]] else [], Bucket(xs[1..], key, k), Bucket(ys, key, k));
    }
  }

  lemma SwapWhenOneIsEmpty<T(!new)>(a: seq<T>, b: seq<T>, c: seq<T>)
    requires a == [] || b == []
    ensures a + (b + c) == b + (a + c)
  {
    if a == [] {
      assert a + (b + c) == b + c && a + c == c;
    } else {
      assert b + (a + c) == a + c && b + c == c;
    }
  }

  lemma {:induction false} InsertBucket<T(!new)>(x: T, xs: seq<T>, key: T -> real, k: real)
    requires SortedBy(xs, key)
    ensures Bucket(Insert(x, xs, key), key, k) == (if key(x) == k then [x] else []) + Bucket(xs, key, k)
  {
    if xs == [] {
    } else if key(x) <= key(xs[0]) {
      assert ([x] + xs)[1..] == xs;
    } else {
      SortedTail(xs, key);
      InsertBucket(x, xs[1..], key, k);
      var rest := Insert(x, xs[1..], key);
      assert ([xs[0]] + rest)[1..] == rest;
      SwapWhenOneIsEmpty(if key(x) == k then [x] else [], if key(xs[0]) == k then [xs[0]] else [],
                         Bucket(xs[1..], key, k));
    }
  }

  /** Sorting is stable: elements with equal keys keep their order. */
  lemma {:induction false} SortIsStable<T(!new)>(xs: seq<T>, key: T -> real)
    ensures SameBuckets(Sort(xs, key), xs, key)
  {
    if xs != [] {
      SortIsStable(xs[1..], key);
      SortSorts(xs[1..], key);
      forall k ensures Bucket(Sort(xs, key), key, k) == Bucket(xs, key, k) {
        InsertBucket(xs[0], Sort(xs[1..], key), key, k);
      }
    }
  }

  lemma {:induction false} BucketMember<T(!new)>(xs: seq<T>, key: T -> real, x: T)
    ensures x in Bucket(xs, key, key(x)) <==> x in xs
  {
    if xs != [] {
      BucketMember(xs[1..], key, x);
      assert xs == [xs[0]] + xs[1..];
    }
  }

  lemma {:induction false} BucketKeys<T(!new)>(xs: seq<T>, key: T -> real, k: real)
    ensures forall x :: x in Bucket(xs, key, k) ==> key(x) == k && x in xs
  {
    if xs != [] {
      BucketKeys(xs[1..], key, k);
    }
  }

  lemma SameBucketsSameMembers<T(!new)>(xs: seq<T>, ys: seq<T>, key: T -> real, x: T)
    requires SameBuckets(xs, ys, key) && x in xs
    ensures x in ys
  {
    BucketMember(xs, key, x);
    BucketMember(ys, key, x);
    assert Bucket(xs, key, key(x)) == Bucket(ys, key, key(x));
  }

  lemma EmptyBuckets<T(!new)>(ys: seq<T>, key: T -> real)
    requires forall k :: Bucket(ys, key, k) == []
    ensures ys == []
  {
    if |ys| > 0 {
      BucketMember(ys, key, ys[0]);
    }
  }

  /** A sorted sequence is determined by its buckets, so "sorted and stable"
      is a complete specification of `Sort`. */
  lemma {:induction false} SortedUnique<T(!new)>(xs: seq<T>, ys: seq<T>, key: T -> real)
    requires SortedBy(xs, key) && SortedBy(ys, key) && SameBuckets(xs, ys, key)
    ensures xs == ys
    decreases |xs| + |ys|
  {
    if xs == [] {
      EmptyBuckets(ys, key);
    } else if ys == [] {
      EmptyBuckets(xs, key);
    } else {
      SameBucketsSameMembers(xs, ys, key, xs[0]);
      SameBucketsSameMembers(ys, xs, key, ys[0]);
      assert key(xs[0]) == key(ys[0]);
      var k := key(xs[0]);
      assert Bucket(xs, key, k) == [xs[0]] + Bucket(xs[1..], key, k);
      assert Bucket(ys, key, k) == [ys[0]] + Bucket(ys[1..], key, k);
      assert xs[0] == Bucket(xs, key, k)[0] == Bucket(ys, key, k)[0] == ys[0];
      forall j ensures Bucket(xs[1..], key, j) == Bucket(ys[1..], key, j) {
        if j == k {
          assert Bucket(xs[1..], key, j) == Bucket(xs, key, j)[1..];
          assert Bucket(ys[1..], key, j) == Bucket(ys, key, j)[1..];
        } else {
          assert Bucket(xs, key, j) == Bucket(xs[1..], key, j);
          assert Bucket(ys, key, j) == Bucket(ys[1..], key, j);
        }
      }
      SortedUnique(xs[1..], ys[1..], key);
      assert xs == [xs[0]] + xs[1..] && ys == [ys[0]] + ys[1..];
    }
  }

  /** The result of `Sort` is the only sorted arrangement that keeps ties in order. */
  lemma SortSpec<T(!new)>(xs: seq<T>, ys: seq<T>, key: T -> real)
    requires SortedBy(ys, key) && SameBuckets(ys, xs, key)
    ensures ys == Sort(xs, key)
  {
    SortIsStable(xs, key);
    SortSorts(xs, key);
    forall k ensures Bucket(ys, key, k) == Bucket(Sort(xs, key), key, k) {
      assert Bucket(ys, key, k) == Bucket(xs, key, k);
      assert Bucket(Sort(xs, key), key, k) == Bucket(xs, key, k);
    }
    SortedUnique(ys, Sort(xs, key), key);
  }

  lemma SortSorted<T(!new)>(xs: seq<T>, key: T -> real)
    requires SortedBy(xs, key)
    ensures Sort(xs, key) == xs
  {
    SortSpec(xs, xs, key);
  }

  lemma {:induction false} BucketMap<S(!new), T(!new)>(xs: seq<S>, f: S -> T, key: S -> real, key': T -> real, k: real)
    requires forall x :: x in xs ==> key'(f(x)) == key(x)
    ensures Bucket(Map(xs, f), key', k) == Map(Bucket(xs, key, k), f)
  {
    if xs != [] {
      BucketMap(xs[1..], f, key, key', k);
      assert Map(xs, f)[1..] == Map(xs[1..], f);
      MapAppend(if key(xs[0]) == k then [xs[0]] else [], Bucket(xs[1..], key, k), f);
    }
  }

  /** Mapping commutes with sorting when it keeps the keys. */
  lemma SortMap<S(!new), T(!new)>(xs: seq<S>, f: S -> T, key: S -> real, key': T -> real)
    requires forall x :: x in xs ==> key'(f(x)) == key(x)
    ensures Sort(Map(xs, f), key') == Map(Sort(xs, key), f)
  {
    var ys := Sort(xs, key);
    SortPermutes(xs, key);
    SortSorts(xs, key);
    SortIsStable(xs, key);
    forall k ensures Bucket(Map(ys, f), key', k) == Bucket(Map(xs, f), key', k) {
      BucketMap(xs, f, key, key', k);
      BucketMap(ys, f, key, key', k);
      assert Bucket(ys, key, k) == Bucket(xs, key, k);
    }
    forall i, j | 0 <= i < j < |ys| ensures key'(Map(ys, f)[i]) <= key'(Map(ys, f)[j]) {
      assert ys[i] in ys && ys[j] in ys;
    }
    SortSpec(Map(xs, f), Map(ys, f), key');
  }

  /** Sorting twice in opposite directions is sorting once in the last direction:
      ties keep their original order both times. */
  lemma SortOfReverseSort<T(!new)>(xs: seq<T>, key: T -> real, opposite: T -> real)
    requires forall x :: x in xs ==> opposite(x) == -key(x)
    ensures Sort(Sort(xs, opposite), key) == Sort(xs, key)
  {
    var ys := Sort(xs, opposite);
    SortPermutes(xs, opposite);
    SortIsStable(xs, opposite);
    SortIsStable(ys, key);
    SortSorts(ys, key);
    forall k ensures Bucket(Sort(ys, key), key, k) == Bucket(xs, key, k) {
      assert Bucket(Sort(ys, key), key, k) == Bucket(ys, key, k);
      BucketOpposite(ys, key, opposite, k);
      BucketOpposite(xs, key, opposite, k);
      assert Bucket(ys, opposite, -k) == Bucket(xs, opposite, -k);
    }
    SortSpec(xs, Sort(ys, key), key);
  }

  lemma {:induction false} BucketOpposite<T(!new)>(xs: seq<T>, key: T -> real, opposite: T -> real, k: real)
    requires forall x :: x in xs ==> opposite(x) == -key(x)
    ensures Bucket(xs, key, k) == Bucket(xs, opposite, -k)
  {
    if xs != [] {
      BucketOpposite(xs[1..], key, opposite, k);
      assert xs[0] in xs;
    }
  }

  /** Elements with equal keys are equal. */
  ghost predicate KeyIdentifies<T(!new)>(xs: seq<T>, key: T -> real) {
    forall x, y :: x in xs && y in xs && key(x) == key(y) ==> x == y
  }

  lemma SameHead<T(!new)>(xs: seq<T>, ys: seq<T>, key: T -> real)
    requires SortedBy(xs, key) && SortedBy(ys, key) && multiset(xs) == multiset(ys)
    requires KeyIdentifies(xs, key) && xs != []
    ensures ys != [] && xs[0] == ys[0]
  {
    SameElements(xs, ys);
    SortedTail(xs, key);
    SortedTail(ys, key);
    assert xs[0] in ys && ys[0] in xs;
  }

  lemma TailsPermute<T(!new)>(xs: seq<T>, ys: seq<T>)
    requires xs != [] && ys != [] && xs[0] == ys[0] && multiset(xs) == multiset(ys)
    ensures multiset(xs[1..]) == multiset(ys[1..])
  {
    MultisetCons(xs);
    MultisetCons(ys);
  }

  lemma TailIdentifies<T(!new)>(xs: seq<T>, key: T -> real)
    requires KeyIdentifies(xs, key) && xs != []
    ensures KeyIdentifies(xs[1..], key)
  {
    assert forall x :: x in xs[1..] ==> x in xs;
  }

  lemma {:induction false} SortedPermutationUnique<T(!new)>(xs: seq<T>, ys: seq<T>, key: T -> real)
    requires SortedBy(xs, key) && SortedBy(ys, key) && multiset(xs) == multiset(ys)
    requires KeyIdentifies(xs, key)
    ensures xs == ys
  {
    if xs == [] {
      SameElements(xs, ys);
    } else {
      SameHead(xs, ys, key);
      SortedTail(xs, key);
      SortedTail(ys, key);
      TailsPermute(xs, ys);
      TailIdentifies(xs, key);
      SortedPermutationUnique(xs[1..], ys[1..], key);
      assert xs == [xs[0]] + xs[1..] && ys == [ys[0]] + ys[1..];
    }
  }

  /** When equal keys mean equal elements, sorting only looks at the contents. */
  lemma SortOfPermutation<T(!new)>(xs: seq<T>, ys: seq<T>, key: T -> real)
    requires multiset(xs) == multiset(ys) && KeyIdentifies(xs, key)
    ensures Sort(xs, key) == Sort(ys, key)
  {
    SortSorts(xs, key);
    SortSorts(ys, key);
    SortPermutes(xs, key);
    SortPermutes(ys, key);
    assert KeyIdentifies(Sort(xs, key), key);
    SortedPermutationUnique(Sort(xs, key), Sort(ys, key), key);
  }

  lemma MultisetMiddle<T(!new)>(front: seq<T>, x: T, back: seq<T>)
    ensures multiset(front + ([x] + back)) == multiset{x} + multiset(front + back)
  {
  }

  lemma Around<T(!new)>(ys: seq<T>, x: T) returns (front: seq<T>, back: seq<T>)
    requires x in ys
    ensures ys == front + ([x] + back)
  {
    var i :| 0 <= i < |ys| && ys[i] == x;
    front, back := ys[..i], ys[i + 1..];
  }

  lemma MapMiddle<S(!new), T(!new)>(front: seq<S>, x: S, back: seq<S>, f: S -> T)
    ensures multiset(Map(front + ([x] + back), f)) == multiset{f(x)} + multiset(Map(front + back, f))
  {
    MapAppend(front, back, f);
    MapAppend(front, [x] + back, f);
    MapAppend([x], back, f);
    MultisetMiddle(Map(front, f), f(x), Map(back, f));
    assert Map([x], f) == [f(x)];
  }

  /** Takes the first element of `xs` out of a permutation of `xs`. */
  lemma TakeOut<T(!new)>(xs: seq<T>, ys: seq<T>) returns (front: seq<T>, back: seq<T>)
    requires xs != [] && multiset(xs) == multiset(ys)
    ensures ys == front + ([xs[0]] + back) && multiset(xs[1..]) == multiset(front + back)
  {
    SameElements(xs, ys);
    front, back := Around(ys, xs[0]);
    MultisetMiddle(front, xs[0], back);
    MultisetCons(xs);
    assert multiset(front + back) == multiset(ys) - multiset{xs[0]};
  }

  lemma {:induction false} MapPermutes<S(!new), T(!new)>(xs: seq<S>, ys: seq<S>, f: S -> T)
    requires multiset(xs) == multiset(ys)
    ensures multiset(Map(xs, f)) == multiset(Map(ys, f))
  {
    if xs == [] {
      SameElements(xs, ys);
    } else {
      var front, back := TakeOut(xs, ys);
      MapPermutes(xs[1..], front + back, f);
      MapMiddle(front, xs[0], back, f);
      MapMiddle([], xs[0], xs[1..], f);
      assert xs == [] + ([xs[0]] + xs[1..]) && [] + xs[1..] == xs[1..];
    }
  }

  lemma {:induction false} CountedOnce<T(!new)>(xs: seq<T>, x: T)
    requires NoDuplicates(xs)
    ensures multiset(xs)[x] <= 1
  {
    if xs != [] {
      MultisetCons(xs);
      CountedOnce(xs[1..], x);
      assert x == xs[0] ==> x !in xs[1..];
    }
  }

  lemma CountedTwice<T(!new)>(xs: seq<T>, i: nat, j: nat)
    requires i < j < |xs| && xs[i] == xs[j]
    ensures multiset(xs)[xs[i]] >= 2
  {
    assert xs == (xs[..j] + [xs[j]]) + xs[j + 1..];
    assert xs[i] in xs[..j];
  }

  lemma NoDuplicatesIsContents<T(!new)>(xs: seq<T>, ys: seq<T>)
    requires multiset(xs) == multiset(ys) && NoDuplicates(xs)
    ensures NoDuplicates(ys)
  {
    forall i, j | 0 <= i < j < |ys| ensures ys[i] != ys[j] {
      CountedOnce(xs, ys[i]);
      if ys[i] == ys[j] {
        CountedTwice(ys, i, j);
      }
    }
  }

  // -- Sorting by two keys -------------------------------------------------------------

  lemma {:induction false} BucketIsSorted<T(!new)>(xs: seq<T>, key: T -> real, other: T -> real, k: real)
    requires SortedBy(xs, other)
    ensures SortedBy(Bucket(xs, key, k), other)
  {
    if xs != [] {
      SortedTail(xs, other);
      BucketIsSorted(xs[1..], key, other, k);
      BucketKeys(xs[1..], key, k);
      if key(xs[0]) == k {
        SortedCons(xs[0], Bucket(xs[1..], key, k), other);
      }
    }
  }

  lemma {:induction false} BucketKeepsOrder<T(!new)>(xs: seq<T>, key: T -> real, i: nat, j: nat)
    returns (a: nat, b: nat)
    requires i < j < |xs| && key(xs[i]) == key(xs[j])
    ensures var bucket := Bucket(xs, key, key(xs[i])); a < b < |bucket| && bucket[a] == xs[i] && bucket[b] == xs[j]
  {
    if i == 0 {
      a := 0;
      BucketMember(xs[1..], key, xs[j]);
      assert xs[1..][j - 1] == xs[j];
      var rest := Bucket(xs[1..], key, key(xs[0]));
      var c :| 0 <= c < |rest| && rest[c] == xs[j];
      b := c + 1;
    } else {
      a, b := BucketKeepsOrder(xs[1..], key, i - 1, j - 1);
      if key(xs[0]) == key(xs[i]) {
        a, b := a + 1, b + 1;
      }
    }
  }

  /** A stable sort by one key after a sort by another is a sort by the pair. */
  lemma SortByTwoKeys<T(!new)>(xs: seq<T>, first: T -> real, second: T -> real, i: nat, j: nat)
    requires i < j < |xs|
    ensures var ys := Sort(Sort(xs, second), first);
            first(ys[i]) < first(ys[j]) || (first(ys[i]) == first(ys[j]) && second(ys[i]) <= second(ys[j]))
  {
    var ys, zs := Sort(Sort(xs, second), first), Sort(xs, second);
    SortSorts(zs, first);
    if first(ys[i]) == first(ys[j]) {
      var k := first(ys[i]);
      SortIsStable(zs, first);
      SortSorts(xs, second);
      BucketIsSorted(zs, first, second, k);
      var a, b := BucketKeepsOrder(ys, first, i, j);
      assert Bucket(ys, first, k) == Bucket(zs, first, k);
    }
  }

  // -- Smallest and largest ------------------------------------------------------------

  /** `Math.min(...xs)`. */
  function Min(xs: seq<real>): (m: real)
    requires xs != []
    ensures m in xs && forall x :: x in xs ==> m <= x
  {
    if |xs| == 1 then xs[0]
    else
      var rest := Min(xs[1..]);
      assert xs == [xs[0]] + xs[1..];
      if xs[0] <= rest then xs[0] else rest
  }

  /** `Math.max(...xs)`. */
  function Max(xs: seq<real>): (m: real)
    requires xs != []
    ensures m in xs && forall x :: x in xs ==> x <= m
  {
    if |xs| == 1 then xs[0]
    else
      var rest := Max(xs[1..]);
      assert xs == [xs[0]] + xs[1..];
      if xs[0] >= rest then xs[0] else rest
  }
}
