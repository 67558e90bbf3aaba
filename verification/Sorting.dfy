/** Sorting by insertion, for any order; what it stands for in the source is a library sort. */
module Sorting {
  function Insert<T>(x: T, xs: seq<T>, le: (T, T) -> bool): seq<T> {
    if xs == [] || le(x, xs[0]) then [x] + xs else [xs[0]] + Insert(x, xs[1..], le)
  }

  function Sort<T>(xs: seq<T>, le: (T, T) -> bool): seq<T> {
    if xs == [] then [] else Insert(xs[0], Sort(xs[1..], le), le)
  }

  ghost predicate IsOrder<T(!new)>(le: (T, T) -> bool) {
    && (forall a, b :: le(a, b) || le(b, a))
    && (forall a, b, c :: le(a, b) && le(b, c) ==> le(a, c))
  }

  ghost predicate InOrder<T>(xs: seq<T>, le: (T, T) -> bool) {
    forall i: nat, j: nat :: i < j < |xs| ==> le(xs[i], xs[j])
  }

  lemma {:induction false} InsertKeeps<T>(x: T, xs: seq<T>, le: (T, T) -> bool)
    ensures multiset(Insert(x, xs, le)) == multiset{x} + multiset(xs)
  {
    if xs != [] && !le(x, xs[0]) {
      InsertKeeps(x, xs[1..], le);
      assert xs == [xs[0]] + xs[1..];
    }
  }

  lemma {:induction false} SortKeeps<T>(xs: seq<T>, le: (T, T) -> bool)
    ensures multiset(Sort(xs, le)) == multiset(xs)
  {
    if xs != [] {
      SortKeeps(xs[1..], le);
      InsertKeeps(xs[0], Sort(xs[1..], le), le);
      assert xs == [xs[0]] + xs[1..];
    }
  }

  lemma {:induction false} InsertOrders<T(!new)>(x: T, xs: seq<T>, le: (T, T) -> bool)
    requires IsOrder(le) && InOrder(xs, le)
    ensures InOrder(Insert(x, xs, le), le)
  {
    if xs != [] && !le(x, xs[0]) {
      var rest := Insert(x, xs[1..], le);
      InsertOrders(x, xs[1..], le);
      InsertKeeps(x, xs[1..], le);
      forall j: nat | j < |rest| ensures le(xs[0], rest[j]) {
        assert rest[j] in multiset(rest);
        assert rest[j] == x || rest[j] in xs[1..];
      }
    }
  }

  lemma {:induction false} SortOrders<T(!new)>(xs: seq<T>, le: (T, T) -> bool)
    requires IsOrder(le)
    ensures InOrder(Sort(xs, le), le)
  {
    if xs != [] {
      SortOrders(xs[1..], le);
      InsertOrders(xs[0], Sort(xs[1..], le), le);
    }
  }

  // ---- keys that are all different ----

  ghost predicate DistinctBy<T, K>(xs: seq<T>, key: T -> K) {
    forall i: nat, j: nat :: i < j < |xs| ==> key(xs[i]) != key(xs[j])
  }

  lemma Twice<T>(xs: seq<T>, i: nat, j: nat)
    requires i < j < |xs| && xs[i] == xs[j]
    ensures multiset(xs)[xs[i]] >= 2
  {
    assert xs == xs[..i] + ([xs[i]] + xs[i + 1..j]) + ([xs[j]] + xs[j + 1..]);
  }

  lemma Once<T, K>(xs: seq<T>, key: T -> K, k: nat)
    requires k < |xs| && DistinctBy(xs, key)
    ensures multiset(xs)[xs[k]] == 1
  {
    var rest := xs[..k] + xs[k + 1..];
    assert xs == xs[..k] + ([xs[k]] + xs[k + 1..]);
    assert multiset(xs) == multiset(rest) + multiset{xs[k]};
    forall l: nat | l < |rest| ensures rest[l] != xs[k] {
      var at := if l < k then l else l + 1;
      assert rest[l] == xs[at] && at != k;
      assert key(xs[at]) != key(xs[k]);
    }
    assert xs[k] !in rest;
  }

  lemma Apart<T, K>(xs: seq<T>, ys: seq<T>, key: T -> K, i: nat, j: nat)
    requires multiset(xs) == multiset(ys) && DistinctBy(xs, key) && i < j < |ys|
    ensures key(ys[i]) != key(ys[j])
  {
    assert ys[i] in multiset(xs) && ys[j] in multiset(xs);
    var k: nat :| k < |xs| && xs[k] == ys[i];
    var l: nat :| l < |xs| && xs[l] == ys[j];
    Once(xs, key, k);
    if ys[i] == ys[j] {
      Twice(ys, i, j);
    }
    assert k != l;
  }

  /** Elements of distinct keys, rearranged, still have distinct keys. */
  lemma StayDistinct<T, K>(xs: seq<T>, ys: seq<T>, key: T -> K)
    requires multiset(xs) == multiset(ys) && DistinctBy(xs, key)
    ensures DistinctBy(ys, key)
  {
    forall i: nat, j: nat | i < j < |ys| ensures key(ys[i]) != key(ys[j]) {
      Apart(xs, ys, key, i, j);
    }
  }

  /** and they are the same keys. */
  lemma SameKeys<T(!new), K(!new)>(xs: seq<T>, ys: seq<T>, key: T -> K, k: K)
    requires multiset(xs) == multiset(ys)
    ensures (exists x :: x in xs && key(x) == k) <==> exists y :: y in ys && key(y) == k
  {
    assert forall x :: x in xs <==> x in multiset(xs);
    assert forall y :: y in ys <==> y in multiset(ys);
  }
}
