/**
 The generational memo of per-field counts. Inserts go to the young map; when it is
 full it becomes the old one. A hit in the old map is copied forward.
 */
module TokenMemo {
  import opened Wrappers

  datatype Generations<K> = Generations(cap: nat, young: map<K, int>, aged: map<K, int>)

  datatype Op<K> = Lookup(key: K) | Store(key: K, n: int)

  function Insert<K>(g: Generations<K>, k: K, n: int): Generations<K> {
    if |g.young| >= g.cap then Generations(g.cap, map[k := n], g.young)
    else g.(young := g.young[k := n])
  }

  function Find<K>(g: Generations<K>, k: K): Option<int> {
    if k in g.young then Some(g.young[k])
    else if k in g.aged then Some(g.aged[k])
    else None
  }

  /** What an operation puts in the young map, if anything. */
  function Inserted<K>(g: Generations<K>, op: Op<K>): Option<int> {
    match op
    case Store(_, n) => Some(n)
    case Lookup(k) => if k in g.young then None else Find(g, k)
  }

  function Step<K>(g: Generations<K>, op: Op<K>): Generations<K> {
    match Inserted(g, op)
    case Some(n) => Insert(g, op.key, n)
    case None => g
  }

  function Run<K>(g: Generations<K>, ops: seq<Op<K>>): Generations<K>
    decreases ops
  {
    if ops == [] then g else Run(Step(g, ops[0]), ops[1..])
  }

  /** Insertions over a run. */
  function Insertions<K>(g: Generations<K>, ops: seq<Op<K>>): nat
    decreases ops
  {
    if ops == [] then 0
    else (if Inserted(g, ops[0]).Some? then 1 else 0) + Insertions(Step(g, ops[0]), ops[1..])
  }

  function Empty<K>(cap: nat): Generations<K> {
    Generations(cap, map[], map[])
  }

  // ---- the memo ----

  class Memo<K(==,!new)> {
    var cap: nat
    var young: map<K, int>
    var aged: map<K, int>

    constructor (capacity: nat)
      ensures View() == Empty(capacity)
    {
      cap, young, aged := capacity, map[], map[];
    }

    ghost function View(): Generations<K>
      reads this
    {
      Generations(cap, young, aged)
    }

    method InsertLocked(k: K, n: int)
      modifies this
      ensures View() == Insert(old(View()), k, n)
    {
      if |young| >= cap {
        aged := young;
        young := map[];
      }
      young := young[k := n];
    }

    method Lookup(k: K) returns (n: int, ok: bool)
      modifies this
      ensures View() == Step(old(View()), Op.Lookup(k))
      ensures Find(old(View()), k) == if ok then Some(n) else None
    {
      if k in young {
        return young[k], true;
      }
      if k in aged {
        n, ok := aged[k], true;
        InsertLocked(k, n);
        return;
      }
      return 0, false;
    }

    method Store(k: K, n: int)
      modifies this
      ensures View() == Step(old(View()), Op.Store(k, n))
    {
      InsertLocked(k, n);
    }

    /** The memoized count of one field. */
    method Estimate(k: K, count: K -> int) returns (n: int)
      requires Sound(View(), count)
      modifies this
      ensures n == count(k) && Sound(View(), count) && k in young
      ensures View() == var g := Step(old(View()), Op.Lookup(k));
                        if Find(old(View()), k).Some? then g else Step(g, Op.Store(k, n))
    {
      var ok;
      n, ok := Lookup(k);
      if !ok {
        n := count(k);
        Store(k, n);
      }
    }
  }

  // ---- over whole runs ----

  /** Every entry holds the uncached count. */
  ghost predicate Sound<K(!new)>(g: Generations<K>, count: K -> int) {
    && (forall k :: k in g.young ==> g.young[k] == count(k))
    && (forall k :: k in g.aged ==> g.aged[k] == count(k))
  }

  ghost predicate StoresCounts<K>(ops: seq<Op<K>>, count: K -> int) {
    forall i :: 0 <= i < |ops| && ops[i].Store? ==> ops[i].n == count(ops[i].key)
  }

  /** However lookups and stores interleave, a hit is always the uncached count. */
  lemma {:induction false} HitsAreExact<K(!new)>(g: Generations<K>, ops: seq<Op<K>>, count: K -> int, k: K)
    requires Sound(g, count) && StoresCounts(ops, count)
    ensures Sound(Run(g, ops), count)
    ensures Find(Run(g, ops), k) == None || Find(Run(g, ops), k) == Some(count(k))
    decreases ops
  {
    if ops != [] {
      HitsAreExact(Step(g, ops[0]), ops[1..], count, k);
    }
  }

  ghost predicate Bounded<K>(g: Generations<K>) {
    var most := if g.cap == 0 then 1 else g.cap;
    |g.young| <= most && |g.aged| <= most
  }

  /** At most two generations are held. */
  lemma {:induction false} SizeBounded<K>(g: Generations<K>, ops: seq<Op<K>>)
    requires Bounded(g)
    ensures Bounded(Run(g, ops)) && Run(g, ops).cap == g.cap
    ensures 0 < g.cap ==> |Run(g, ops).young| + |Run(g, ops).aged| <= 2 * g.cap
    decreases ops
  {
    if ops != [] {
      SizeBounded(Step(g, ops[0]), ops[1..]);
    }
  }

  /** A key just found or stored survives the next cap insertions, whatever they are. */
  lemma Survives<K>(g: Generations<K>, op: Op<K>, ops: seq<Op<K>>)
    requires op.Store? || Find(g, op.key).Some?
    requires Insertions(Step(g, op), ops) <= g.cap
    ensures Find(Run(Step(g, op), ops), op.key).Some?
  {
    SurvivesFrom(Step(g, op), op.key, ops, 0);
  }

  /** done insertions since the key was last put in, or found in, the young map. */
  lemma {:induction false} SurvivesFrom<K>(g: Generations<K>, k: K, ops: seq<Op<K>>, done: nat)
    requires k in g.young || (k in g.aged && |g.young| <= done)
    requires done + Insertions(g, ops) <= g.cap
    ensures Find(Run(g, ops), k).Some?
    decreases ops
  {
    if ops != [] {
      var more := if Inserted(g, ops[0]).Some? then 1 else 0;
      SurvivesFrom(Step(g, ops[0]), k, ops[1..], done + more);
    }
  }

  // ---- no longer than that ----

  /** Stores of m keys from first on. */
  function Stores(first: nat, m: nat): seq<Op<nat>>
    decreases m
  {
    if m == 0 then [] else [Store(first, 0)] + Stores(first + 1, m - 1)
  }

  lemma StoresOne(first: nat, m: nat)
    requires 0 < m
    ensures Stores(first, m)[0] == Store(first, 0) && Stores(first, m)[1..] == Stores(first + 1, m - 1)
  {
  }

  lemma OneIn(g: Generations<nat>, key: nat)
    requires |g.young| < g.cap && key !in g.young
    ensures var h := Step(g, Store(key, 0));
            && h.cap == g.cap && h.aged == g.aged && |h.young| == |g.young| + 1
            && h.young.Keys == g.young.Keys + {key}
  {
    var young := g.young[key := 0];
    assert young.Keys == g.young.Keys + {key};
    assert |young| == |young.Keys| && |g.young| == |g.young.Keys|;
  }

  /** While there is room, stores of new keys only fill the young map. */
  lemma {:induction false} Fills(g: Generations<nat>, first: nat, m: nat)
    requires |g.young| + m <= g.cap && forall k :: k in g.young ==> k < first
    ensures var h := Run(g, Stores(first, m));
            && h.cap == g.cap && h.aged == g.aged && |h.young| == |g.young| + m
            && forall k :: k in h.young <==> k in g.young || first <= k < first + m
    ensures Insertions(g, Stores(first, m)) == m
    decreases m
  {
    if 0 < m {
      StoresOne(first, m);
      var h := Step(g, Store(first, 0));
      OneIn(g, first);
      Fills(h, first + 1, m - 1);
      assert Run(g, Stores(first, m)) == Run(h, Stores(first + 1, m - 1));
    }
  }

  /** From a full young map, a cap's worth of new keys turns it over and fills it again. */
  lemma Refills(g: Generations<nat>, cap: nat, first: nat)
    requires 0 < cap == g.cap == |g.young|
    ensures var full := Run(g, Stores(first, cap));
            && full.cap == cap == |full.young| && forall k :: k in full.young <==> first <= k < first + cap
    ensures Insertions(g, Stores(first, cap)) == cap
  {
    StoresOne(first, cap);
    var h := Step(g, Store(first, 0));
    assert h == Generations(cap, map[first := 0], g.young);
    Fills(h, first + 1, cap - 1);
  }

  /** One more new key turns it over twice. */
  lemma TurnsTwice(g: Generations<nat>, cap: nat, first: nat, key: nat)
    requires 0 < cap == g.cap == |g.young| && key < first
    ensures var ops := Stores(first, cap) + [Store(first + cap, 0)];
            Insertions(g, ops) == cap + 1 && Find(Run(g, ops), key) == None
  {
    Refills(g, cap, first);
    Appended(g, Stores(first, cap), [Store(first + cap, 0)]);
    TurnsOnce(Run(g, Stores(first, cap)), first + cap, key);
  }

  lemma TurnsOnce(full: Generations<nat>, next: nat, key: nat)
    requires |full.young| == full.cap && key < next && key !in full.young
    ensures Insertions(full, [Store(next, 0)]) == 1 && Find(Run(full, [Store(next, 0)]), key) == None
  {
    var last: seq<Op<nat>> := [Store(next, 0)];
    assert last[1..] == [] && last[0] == Store(next, 0);
    assert Step(full, last[0]) == Generations(full.cap, map[next := 0], full.young);
  }

  lemma {:induction false} Appended<K>(g: Generations<K>, ops: seq<Op<K>>, more: seq<Op<K>>)
    ensures Run(g, ops + more) == Run(Run(g, ops), more)
    ensures Insertions(g, ops + more) == Insertions(g, ops) + Insertions(Run(g, ops), more)
    decreases ops
  {
    if ops == [] {
      assert ops + more == more;
    } else {
      assert (ops + more)[0] == ops[0] && (ops + more)[1..] == ops[1..] + more;
      Appended(Step(g, ops[0]), ops[1..], more);
    }
  }

  /** One insertion more than the cap can lose it, whatever the cap: a key stored last into
      a young map that is then full is gone after cap + 1 new ones. */
  lemma SurvivalIsTight(cap: nat)
    requires 0 < cap
    ensures var g := Step(Run(Empty<nat>(cap), Stores(0, cap - 1)), Store(cap - 1, 0));
            var ops := Stores(cap, cap) + [Store(cap + cap, 0)];
            && cap - 1 in g.young && Insertions(g, ops) == cap + 1 && Find(Run(g, ops), cap - 1) == None
  {
    var g := Step(Run(Empty<nat>(cap), Stores(0, cap - 1)), Store(cap - 1, 0));
    FilledUp(cap);
    TurnsTwice(g, cap, cap, cap - 1);
  }

  lemma FilledUp(cap: nat)
    requires 0 < cap
    ensures var g := Step(Run(Empty<nat>(cap), Stores(0, cap - 1)), Store(cap - 1, 0));
            g.cap == cap == |g.young| && cap - 1 in g.young
  {
    Fills(Empty<nat>(cap), 0, cap - 1);
    OneIn(Run(Empty<nat>(cap), Stores(0, cap - 1)), cap - 1);
  }
}
