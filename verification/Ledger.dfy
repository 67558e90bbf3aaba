/**
 Token counts in five columns, kept under keys: what a table of running sums holds, and
 that splitting entries over keys loses nothing.
 */
module Ledger {
  /** One past the largest 64-bit count. */
  const Limit := 0x1_0000_0000_0000_0000

  datatype Vec = Vec(input: nat, output: nat, creation: nat, read: nat, total: nat)

  const Zero := Vec(0, 0, 0, 0, 0)

  function Plus(a: Vec, b: Vec): Vec {
    Vec(a.input + b.input, a.output + b.output, a.creation + b.creation, a.read + b.read, a.total + b.total)
  }

  predicate Fits(v: Vec) {
    v.input < Limit && v.output < Limit && v.creation < Limit && v.read < Limit && v.total < Limit
  }

  predicate AtMost(a: Vec, b: Vec) {
    a.input <= b.input && a.output <= b.output && a.creation <= b.creation && a.read <= b.read && a.total <= b.total
  }

  /** Unchecked 64-bit arithmetic, column by column. */
  function Wrap(v: Vec): Vec {
    Vec(v.input % Limit, v.output % Limit, v.creation % Limit, v.read % Limit, v.total % Limit)
  }

  lemma WrapAgain(a: Vec, b: Vec)
    ensures Wrap(Plus(Wrap(a), b)) == Wrap(Plus(a, b))
  {
  }

  lemma WrapFits(v: Vec)
    requires Fits(v)
    ensures Wrap(v) == v
  {
  }

  lemma PlusMoves(a: Vec, b: Vec, c: Vec)
    ensures Plus(Plus(a, b), c) == Plus(a, Plus(b, c)) == Plus(Plus(a, c), b)
    ensures Plus(a, Zero) == a
  {
  }

  datatype Entry<K> = Entry(key: K, vec: Vec, cost: real)

  /** The first n entries, added up. */
  function SumTo<K>(es: seq<Entry<K>>, n: nat): Vec
    requires n <= |es|
  {
    if n == 0 then Zero else Plus(SumTo(es, n - 1), es[n - 1].vec)
  }

  function ForTo<K(==)>(es: seq<Entry<K>>, k: K, n: nat): Vec
    requires n <= |es|
  {
    if n == 0 then Zero
    else if es[n - 1].key == k then Plus(ForTo(es, k, n - 1), es[n - 1].vec) else ForTo(es, k, n - 1)
  }

  function CostTo<K(==)>(es: seq<Entry<K>>, k: K, n: nat): real
    requires n <= |es|
  {
    if n == 0 then 0.0 else CostTo(es, k, n - 1) + if es[n - 1].key == k then es[n - 1].cost else 0.0
  }

  function SumAll<K>(es: seq<Entry<K>>): Vec { SumTo(es, |es|) }

  /** The entries under one key, added up. */
  function SumFor<K(==)>(es: seq<Entry<K>>, k: K): Vec { ForTo(es, k, |es|) }

  function CostFor<K(==)>(es: seq<Entry<K>>, k: K): real { CostTo(es, k, |es|) }

  /** No tokens, or a cost for them. */
  predicate Priced<K>(e: Entry<K>) { e.vec.total == 0 || e.cost > 0.0 }

  lemma {:induction false} Before<K>(a: seq<Entry<K>>, b: seq<Entry<K>>, k: K, n: nat)
    requires n <= |a|
    ensures ForTo(a + b, k, n) == ForTo(a, k, n) && CostTo(a + b, k, n) == CostTo(a, k, n)
  {
    if 0 < n {
      Before(a, b, k, n - 1);
    }
  }

  lemma {:induction false} SumBefore<K>(a: seq<Entry<K>>, b: seq<Entry<K>>, n: nat)
    requires n <= |a|
    ensures SumTo(a + b, n) == SumTo(a, n)
  {
    if 0 < n {
      SumBefore(a, b, n - 1);
    }
  }

  lemma {:induction false} SumJoinTo<K>(a: seq<Entry<K>>, b: seq<Entry<K>>, n: nat)
    requires n <= |b|
    ensures SumTo(a + b, |a| + n) == Plus(SumAll(a), SumTo(b, n))
  {
    if n == 0 {
      SumBefore(a, b, |a|);
      PlusMoves(SumAll(a), Zero, Zero);
    } else {
      SumJoinTo(a, b, n - 1);
      assert (a + b)[|a| + n - 1] == b[n - 1];
      assert SumTo(a + b, |a| + n) == Plus(SumTo(a + b, |a| + n - 1), b[n - 1].vec);
      PlusMoves(SumAll(a), SumTo(b, n - 1), b[n - 1].vec);
    }
  }

  lemma SumJoin<K>(a: seq<Entry<K>>, b: seq<Entry<K>>)
    ensures SumAll(a + b) == Plus(SumAll(a), SumAll(b))
  {
    SumJoinTo(a, b, |b|);
  }

  lemma {:induction false} ForAtMostTo<K>(es: seq<Entry<K>>, k: K, n: nat)
    requires n <= |es|
    ensures AtMost(ForTo(es, k, n), SumTo(es, n))
  {
    if 0 < n {
      ForAtMostTo(es, k, n - 1);
    }
  }

  lemma ForAtMostAll<K>(es: seq<Entry<K>>, k: K)
    ensures AtMost(SumFor(es, k), SumAll(es))
  {
    ForAtMostTo(es, k, |es|);
  }

  lemma Regroup<T>(a: seq<T>, b: seq<T>, c: seq<T>)
    ensures a + (b + c) == (a + b) + c
  {
  }

  ghost predicate Occurs<K>(es: seq<Entry<K>>, k: K) { exists i: nat :: i < |es| && es[i].key == k }

  // ---- the table of running sums ----

  datatype Row = Row(vec: Vec, cost: real, complete: bool)

  function Put<K>(t: map<K, Row>, e: Entry<K>): map<K, Row> {
    var was := if e.key in t then t[e.key] else Row(Zero, 0.0, true);
    t[e.key := Row(Plus(was.vec, e.vec), was.cost + e.cost, was.complete && Priced(e))]
  }

  function TallyTo<K>(es: seq<Entry<K>>, n: nat): map<K, Row>
    requires n <= |es|
  {
    if n == 0 then map[] else Put(TallyTo(es, n - 1), es[n - 1])
  }

  function Tally<K>(es: seq<Entry<K>>): map<K, Row> { TallyTo(es, |es|) }

  lemma {:induction false} TallyBefore<K>(a: seq<Entry<K>>, b: seq<Entry<K>>, n: nat)
    requires n <= |a|
    ensures TallyTo(a + b, n) == TallyTo(a, n)
  {
    if 0 < n {
      TallyBefore(a, b, n - 1);
    }
  }

  lemma TallyPut<K>(es: seq<Entry<K>>, e: Entry<K>)
    ensures Tally(es + [e]) == Put(Tally(es), e)
  {
    TallyBefore(es, [e], |es|);
  }

  lemma {:induction false} TallyToIs<K>(es: seq<Entry<K>>, n: nat, k: K)
    requires n <= |es|
    ensures k in TallyTo(es, n) <==> exists i: nat :: i < n && es[i].key == k
    ensures k in TallyTo(es, n) ==>
              var r := TallyTo(es, n)[k];
              && r.vec == ForTo(es, k, n) && r.cost == CostTo(es, k, n)
              && (r.complete <==> forall i: nat :: i < n && es[i].key == k ==> Priced(es[i]))
    ensures k !in TallyTo(es, n) ==> ForTo(es, k, n) == Zero && CostTo(es, k, n) == 0.0
  {
    if 0 < n {
      TallyToIs(es, n - 1, k);
      assert es[n - 1].key == k ==> k in TallyTo(es, n);
    }
  }

  /** A row holds exactly the sums of its key's entries, and every key with an entry has
      one. */
  lemma TallyIs<K>(es: seq<Entry<K>>, k: K)
    ensures k in Tally(es) <==> Occurs(es, k)
    ensures k in Tally(es) ==>
              var r := Tally(es)[k];
              && r.vec == SumFor(es, k) && r.cost == CostFor(es, k)
              && (r.complete <==> forall i: nat :: i < |es| && es[i].key == k ==> Priced(es[i]))
    ensures k !in Tally(es) ==> SumFor(es, k) == Zero && CostFor(es, k) == 0.0
  {
    TallyToIs(es, |es|, k);
  }

  // ---- nothing is lost ----

  /** The first n entries whose key is among ks, added up. */
  function InTo<K(==)>(es: seq<Entry<K>>, ks: seq<K>, n: nat): Vec
    requires n <= |es|
  {
    if n == 0 then Zero
    else if es[n - 1].key in ks then Plus(InTo(es, ks, n - 1), es[n - 1].vec) else InTo(es, ks, n - 1)
  }

  /** The columns of the rows under the keys ks, added up. */
  function SumKeys<K(==)>(es: seq<Entry<K>>, ks: seq<K>): Vec {
    if ks == [] then Zero else Plus(SumKeys(es, ks[..|ks| - 1]), SumFor(es, ks[|ks| - 1]))
  }

  predicate Distinct<K(==)>(ks: seq<K>) {
    forall i: nat, j: nat :: i < j < |ks| ==> ks[i] != ks[j]
  }

  lemma {:induction false} InMore<K>(es: seq<Entry<K>>, init: seq<K>, k: K, ks: seq<K>, n: nat)
    requires n <= |es| && k !in init && ks == init + [k]
    ensures InTo(es, ks, n) == Plus(InTo(es, init, n), ForTo(es, k, n))
  {
    if n == 0 {
      PlusMoves(Zero, Zero, Zero);
    } else {
      var e := es[n - 1];
      InMore(es, init, k, ks, n - 1);
      assert InTo(es, ks, n) == if e.key in ks then Plus(InTo(es, ks, n - 1), e.vec) else InTo(es, ks, n - 1);
      assert InTo(es, init, n) == if e.key in init then Plus(InTo(es, init, n - 1), e.vec) else InTo(es, init, n - 1);
      assert ForTo(es, k, n) == if e.key == k then Plus(ForTo(es, k, n - 1), e.vec) else ForTo(es, k, n - 1);
      PlusMoves(InTo(es, init, n - 1), ForTo(es, k, n - 1), es[n - 1].vec);
    }
  }

  lemma {:induction false} InEnds<K>(es: seq<Entry<K>>, ks: seq<K>, n: nat)
    requires n <= |es|
    ensures ks == [] ==> InTo(es, ks, n) == Zero
    ensures (forall i: nat :: i < n ==> es[i].key in ks) ==> InTo(es, ks, n) == SumTo(es, n)
  {
    if 0 < n {
      InEnds(es, ks, n - 1);
    }
  }

  lemma {:induction false} SumKeysIn<K>(es: seq<Entry<K>>, ks: seq<K>)
    requires Distinct(ks)
    ensures SumKeys(es, ks) == InTo(es, ks, |es|)
  {
    if ks == [] {
      InEnds(es, ks, |es|);
    } else {
      var init, k := ks[..|ks| - 1], ks[|ks| - 1];
      assert ks == init + [k] && k !in init && Distinct(init);
      SumKeysIn(es, init);
      InMore(es, init, k, ks, |es|);
    }
  }

  /** The rows of distinct keys that between them cover every entry add up to all of it. */
  lemma NothingLost<K>(es: seq<Entry<K>>, ks: seq<K>)
    requires Distinct(ks) && forall k :: Occurs(es, k) ==> k in ks
    ensures SumKeys(es, ks) == SumAll(es)
  {
    forall i: nat | i < |es| ensures es[i].key in ks {
      assert Occurs(es, es[i].key);
    }
    SumKeysIn(es, ks);
    InEnds(es, ks, |es|);
  }
}
