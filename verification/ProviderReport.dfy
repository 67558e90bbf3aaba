/**
 Usage rows added up again for the report: one line for each source and model of a leg.
 The additions here are unchecked.
 */
module ProviderReport {
  import opened Ledger
  import opened UsageHistory
  import opened Wrappers
  import opened Texts
  import Sorting

  datatype Pair = Pair(source: string, model: string)

  /** rate is the cost of one token. */
  datatype ModelStats = ModelStats(key: Pair, leg: Leg, vec: Vec, cost: Option<real>, rate: Option<real>)

  datatype Accum = Accum(vec: Vec, cost: real, priced: bool)

  predicate Wanted(u: Usage, id: Leg, since: int, until: int) {
    u.leg == id && since <= u.key.date <= until
  }

  /** The rows of one leg, as entries of a ledger under source and model. */
  function Picked(rows: seq<Usage>, id: Leg, since: int, until: int, n: nat): seq<Entry<Pair>>
    requires n <= |rows|
  {
    if n == 0 then []
    else
      var u, rest := rows[n - 1], Picked(rows, id, since, until, n - 1);
      if Wanted(u, id, since, until) then rest + [PickedEntry(u)] else rest
  }

  function PickedEntry(u: Usage): Entry<Pair> {
    Entry(Pair(u.key.source, u.key.model), u.vec, if u.cost.Some? then u.cost.value else 0.0)
  }

  /** Those of them without a cost. */
  function Unpriced(rows: seq<Usage>, id: Leg, since: int, until: int, n: nat): seq<Entry<Pair>>
    requires n <= |rows|
  {
    if n == 0 then []
    else
      var u, rest := rows[n - 1], Unpriced(rows, id, since, until, n - 1);
      if Wanted(u, id, since, until) && u.cost.None? then rest + [PickedEntry(u)] else rest
  }

  function Pairs(out: seq<ModelStats>): seq<Pair> { seq(|out|, i requires 0 <= i < |out| => out[i].key) }

  /** One line for each key with an entry; its columns are the sums, modulo 2^64. */
  ghost predicate StatsOf(es: seq<Entry<Pair>>, out: seq<ModelStats>, id: Leg) {
    && Distinct(Pairs(out))
    && (forall k :: Occurs(es, k) <==> k in Pairs(out))
    && (forall i: nat :: i < |out| ==> out[i].leg == id && out[i].vec == Wrap(SumFor(es, out[i].key)))
  }

  /** A line has a cost when all its rows have one and there are tokens to spread it over;
      us are the entries without. */
  ghost predicate PricesOf(es: seq<Entry<Pair>>, us: seq<Entry<Pair>>, out: seq<ModelStats>) {
    forall i: nat :: i < |out| ==>
      && out[i].cost == (
           if !Occurs(us, out[i].key) && out[i].vec.total > 0 then Some(CostFor(es, out[i].key)) else None)
      && out[i].rate == if out[i].cost.Some? then Some(out[i].cost.value / out[i].vec.total as real) else None
  }

  ghost predicate Sums(m: map<Pair, Accum>, es: seq<Entry<Pair>>, us: seq<Entry<Pair>>) {
    && (forall k :: k in m ==> AccumIs(m[k], es, us, k))
    && (forall k :: Occurs(es, k) <==> k in m)
    && (forall k :: k !in m ==> AccumIs(Accum(Zero, 0.0, true), es, us, k))
  }

  ghost predicate AccumIs(a: Accum, es: seq<Entry<Pair>>, us: seq<Entry<Pair>>, k: Pair) {
    a.vec == Wrap(SumFor(es, k)) && a.cost == CostFor(es, k) && (a.priced <==> !Occurs(us, k))
  }

  /** One row more under its key. */
  function Added(a: Accum, u: Usage): Accum {
    Accum(Wrap(Plus(a.vec, u.vec)), if u.cost.Some? then a.cost + u.cost.value else a.cost, a.priced && u.cost.Some?)
  }

  lemma AccumMore(a: Accum, es: seq<Entry<Pair>>, us: seq<Entry<Pair>>, u: Usage, k: Pair)
    requires AccumIs(a, es, us, k)
    ensures var e := PickedEntry(u);
            AccumIs(if k == e.key then Added(a, u) else a, es + [e], if u.cost.None? then us + [e] else us, k)
  {
    var e := PickedEntry(u);
    var after := es + [e];
    Before(es, [e], k, |es|);
    assert after[|es|] == e;
    assert SumFor(after, k) == if k == e.key then Plus(SumFor(es, k), e.vec) else SumFor(es, k);
    assert CostFor(after, k) == CostFor(es, k) + if k == e.key then e.cost else 0.0;
    WrapAgain(SumFor(es, k), e.vec);
    OccursMore(us, e, k);
  }

  lemma SumsPut(m: map<Pair, Accum>, es: seq<Entry<Pair>>, us: seq<Entry<Pair>>, u: Usage)
    requires Sums(m, es, us)
    ensures var e := PickedEntry(u);
            Sums(m[e.key := Added(if e.key in m then m[e.key] else Accum(Zero, 0.0, true), u)], es + [e],
                 if u.cost.None? then us + [e] else us)
  {
    var e := PickedEntry(u);
    var n := m[e.key := Added(if e.key in m then m[e.key] else Accum(Zero, 0.0, true), u)];
    forall k
      ensures AccumIs(if k in n then n[k] else Accum(Zero, 0.0, true), es + [e],
                      if u.cost.None? then us + [e] else us, k)
      ensures Occurs(es + [e], k) <==> k in n {
      AccumMore(if k in m then m[k] else Accum(Zero, 0.0, true), es, us, u, k);
      OccursMore(es, e, k);
    }
  }

  lemma OccursMore(es: seq<Entry<Pair>>, e: Entry<Pair>, k: Pair)
    ensures Occurs(es + [e], k) <==> Occurs(es, k) || k == e.key
  {
    var after := es + [e];
    assert after[|es|] == e;
    if Occurs(es, k) {
      var j: nat :| j < |es| && es[j].key == k;
      assert after[j].key == k;
    }
  }

  method AggregateModels(rows: seq<Usage>, id: Leg, since: int, until: int) returns (out: seq<ModelStats>)
    ensures Reported(rows, id, since, until, out)
    ensures PricesOf(Picked(rows, id, since, until, |rows|), Unpriced(rows, id, since, until, |rows|), out)
    ensures Ascending(out)
  {
    var m: map<Pair, Accum> := map[];
    for i := 0 to |rows|
      invariant Sums(m, Picked(rows, id, since, until, i), Unpriced(rows, id, since, until, i))
    {
      var u := rows[i];
      if u.leg != id || u.key.date < since || u.key.date > until {
        continue;
      }
      SumsPut(m, Picked(rows, id, since, until, i), Unpriced(rows, id, since, until, i), u);
      var k := Pair(u.key.source, u.key.model);
      var a := if k in m then m[k] else Accum(Zero, 0.0, true);
      a := a.(vec := Wrap(Plus(a.vec, u.vec)));
      if u.cost.None? {
        a := a.(priced := false);
      } else {
        a := a.(cost := a.cost + u.cost.value);
      }
      m := m[k := a];
    }
    out := ListStats(m, id, Picked(rows, id, since, until, |rows|), Unpriced(rows, id, since, until, |rows|));
  }

  function LineOf(k: Pair, id: Leg, a: Accum): ModelStats {
    if a.priced && a.vec.total > 0 then ModelStats(k, id, a.vec, Some(a.cost), Some(a.cost / a.vec.total as real))
    else ModelStats(k, id, a.vec, None, None)
  }

  method ListStats(m: map<Pair, Accum>, id: Leg, ghost es: seq<Entry<Pair>>, ghost us: seq<Entry<Pair>>)
    returns (out: seq<ModelStats>)
    requires Sums(m, es, us)
    ensures StatsOf(es, out, id) && PricesOf(es, us, out) && Ascending(out)
  {
    out := [];
    var rest := m.Keys;
    while rest != {}
      invariant rest <= m.Keys
      invariant forall k :: k in m && k !in rest <==> k in Pairs(out)
      invariant Distinct(Pairs(out))
      invariant forall i: nat :: i < |out| ==> out[i].key in m && out[i] == LineOf(out[i].key, id, m[out[i].key])
    {
      var k :| k in rest;
      rest := rest - {k};
      assert Pairs(out + [LineOf(k, id, m[k])]) == Pairs(out) + [k];
      out := out + [LineOf(k, id, m[k])];
    }
    SortedLines(es, us, out, id);
    out := Sorting.Sort(out, NotAfter);
  }

  // ---- by model, then source ----

  predicate Below(a: Pair, b: Pair) {
    if a.model == b.model then Less(a.source, b.source) else Less(a.model, b.model)
  }

  predicate NotAfter(a: ModelStats, b: ModelStats) { !Below(b.key, a.key) }

  ghost predicate Ascending(out: seq<ModelStats>) {
    forall i: nat, j: nat :: i < j < |out| ==> Below(out[i].key, out[j].key)
  }

  lemma BelowIsTotal(a: Pair, b: Pair)
    ensures (if Below(a, b) then 1 else 0) + (if Below(b, a) then 1 else 0) + (if a == b then 1 else 0) == 1
  {
    LessIsTotal(a.source, b.source);
    LessIsTotal(a.model, b.model);
  }

  lemma BelowOn(a: Pair, b: Pair, c: Pair)
    requires Below(a, b) && Below(b, c)
    ensures Below(a, c)
  {
    LessIsTotal(a.model, b.model);
    LessIsTotal(a.model, c.model);
    if Less(a.source, b.source) && Less(b.source, c.source) {
      LessMoves(a.source, b.source, c.source);
    }
    if Less(a.model, b.model) && Less(b.model, c.model) {
      LessMoves(a.model, b.model, c.model);
    }
  }

  lemma NotAfterIsOrder()
    ensures Sorting.IsOrder(NotAfter)
  {
    forall a, b ensures NotAfter(a, b) || NotAfter(b, a) {
      BelowIsTotal(a.key, b.key);
    }
    forall a, b, c | NotAfter(a, b) && NotAfter(b, c) ensures NotAfter(a, c) {
      BelowIsTotal(a.key, b.key);
      BelowIsTotal(b.key, c.key);
      BelowIsTotal(c.key, a.key);
      if Below(a.key, b.key) && Below(b.key, c.key) {
        BelowOn(a.key, b.key, c.key);
      }
    }
  }

  function KeyOf(s: ModelStats): Pair { s.key }

  lemma PairsBy(out: seq<ModelStats>, k: Pair)
    ensures Distinct(Pairs(out)) <==> Sorting.DistinctBy(out, KeyOf)
    ensures k in Pairs(out) <==> exists s :: s in out && KeyOf(s) == k
  {
    assert |Pairs(out)| == |out| && forall i: nat :: i < |out| ==> Pairs(out)[i] == KeyOf(out[i]);
    if k in Pairs(out) {
      var i: nat :| i < |out| && Pairs(out)[i] == k;
      assert out[i] in out;
    }
  }

  lemma LinesSorted(list: seq<ModelStats>, out: seq<ModelStats>)
    requires multiset(list) == multiset(out) && Distinct(Pairs(list)) && Sorting.InOrder(out, NotAfter)
    ensures Distinct(Pairs(out)) && Ascending(out) && forall k :: k in Pairs(list) <==> k in Pairs(out)
  {
    forall k ensures k in Pairs(list) <==> k in Pairs(out) {
      PairsBy(list, k);
      PairsBy(out, k);
      Sorting.SameKeys(list, out, KeyOf, k);
    }
    PairsBy(list, Pair("", ""));
    PairsBy(out, Pair("", ""));
    Sorting.StayDistinct(list, out, KeyOf);
    forall i: nat, j: nat | i < j < |out| ensures Below(out[i].key, out[j].key) {
      BelowIsTotal(out[i].key, out[j].key);
      assert KeyOf(out[i]) != KeyOf(out[j]) && NotAfter(out[i], out[j]);
    }
  }

  /** Sorting keeps the lines and puts them in order. */
  lemma SortedLines(es: seq<Entry<Pair>>, us: seq<Entry<Pair>>, list: seq<ModelStats>, id: Leg)
    requires StatsOf(es, list, id) && PricesOf(es, us, list)
    ensures var out := Sorting.Sort(list, NotAfter); StatsOf(es, out, id) && PricesOf(es, us, out) && Ascending(out)
  {
    var out := Sorting.Sort(list, NotAfter);
    Sorting.SortKeeps(list, NotAfter);
    NotAfterIsOrder();
    Sorting.SortOrders(list, NotAfter);
    LinesSorted(list, out);
    forall i: nat | i < |out| ensures exists j: nat :: j < |list| && list[j] == out[i] {
      assert out[i] in multiset(list);
    }
  }

  function SumStats(out: seq<ModelStats>, n: nat): Vec
    requires n <= |out|
  {
    if n == 0 then Zero else Plus(SumStats(out, n - 1), out[n - 1].vec)
  }

  lemma LineIsExact(es: seq<Entry<Pair>>, out: seq<ModelStats>, id: Leg, i: nat)
    requires i < |out| && StatsOf(es, out, id) && Fits(SumAll(es))
    ensures out[i].vec == SumFor(es, out[i].key)
  {
    ForAtMostAll(es, out[i].key);
    WrapFits(SumFor(es, out[i].key));
  }

  lemma {:induction false} StatsAreKeys(es: seq<Entry<Pair>>, out: seq<ModelStats>, n: nat)
    requires n <= |out| && forall i: nat :: i < |out| ==> out[i].vec == SumFor(es, out[i].key)
    ensures SumStats(out, n) == SumKeys(es, Pairs(out)[..n])
  {
    if 0 < n {
      StatsAreKeys(es, out, n - 1);
      assert Pairs(out)[..n][..n - 1] == Pairs(out)[..n - 1];
    }
  }

  /** When the rows together fit 64 bits, no line wraps and nothing is lost. */
  lemma NoWrap(es: seq<Entry<Pair>>, out: seq<ModelStats>, id: Leg)
    requires StatsOf(es, out, id) && Fits(SumAll(es))
    ensures SumStats(out, |out|) == SumAll(es)
    ensures forall i: nat :: i < |out| ==> out[i].vec == SumFor(es, out[i].key)
  {
    forall i: nat | i < |out| ensures out[i].vec == SumFor(es, out[i].key) {
      LineIsExact(es, out, id, i);
    }
    StatsAreKeys(es, out, |out|);
    assert Pairs(out)[..|out|] == Pairs(out);
    NothingLost(es, Pairs(out));
  }

  function Four(a: Vec, c: Vec, d: Vec, u: Vec): Vec { Plus(Plus(a, c), Plus(d, u)) }

  lemma FourMore(a: Vec, c: Vec, d: Vec, u: Vec, leg: Leg, v: Vec)
    ensures Four(Plus(a, Share(leg, Anthropic, v)), Plus(c, Share(leg, Codex, v)),
                 Plus(d, Share(leg, DeepSeek, v)), Plus(u, Share(leg, Unknown, v))) == Plus(Four(a, c, d, u), v)
  {
  }

  lemma FourFit(a: Vec, c: Vec, d: Vec, u: Vec)
    requires Fits(Four(a, c, d, u))
    ensures Fits(a) && Fits(c) && Fits(d) && Fits(u)
  {
  }

  function Share(leg: Leg, id: Leg, v: Vec): Vec { if leg == id then v else Zero }

  function LegSum(rows: seq<Usage>, id: Leg, since: int, until: int, n: nat): Vec
    requires n <= |rows|
  {
    SumAll(Picked(rows, id, since, until, n))
  }

  lemma PickedOne(rows: seq<Usage>, id: Leg, since: int, until: int, n: nat)
    requires 0 < n <= |rows| && since <= rows[n - 1].key.date <= until
    ensures LegSum(rows, id, since, until, n) ==
            Plus(LegSum(rows, id, since, until, n - 1), Share(rows[n - 1].leg, id, rows[n - 1].vec))
  {
    var u, rest := rows[n - 1], Picked(rows, id, since, until, n - 1);
    PlusMoves(SumAll(rest), Zero, Zero);
    var e := PickedEntry(u);
    SumJoin(rest, [e]);
    assert SumTo([e], 1) == Plus(SumTo([e], 0), e.vec);
  }

  function LegTotals(rows: seq<Usage>, since: int, until: int, n: nat): Vec
    requires n <= |rows|
  {
    Four(LegSum(rows, Anthropic, since, until, n), LegSum(rows, Codex, since, until, n),
         LegSum(rows, DeepSeek, since, until, n), LegSum(rows, Unknown, since, until, n))
  }

  lemma LegsMore(rows: seq<Usage>, since: int, until: int, n: nat)
    requires 0 < n <= |rows| && since <= rows[n - 1].key.date <= until
    ensures LegTotals(rows, since, until, n) == Plus(LegTotals(rows, since, until, n - 1), rows[n - 1].vec)
  {
    PickedOne(rows, Anthropic, since, until, n);
    PickedOne(rows, Codex, since, until, n);
    PickedOne(rows, DeepSeek, since, until, n);
    PickedOne(rows, Unknown, since, until, n);
    var m := n - 1;
    FourMore(LegSum(rows, Anthropic, since, until, m), LegSum(rows, Codex, since, until, m),
             LegSum(rows, DeepSeek, since, until, m), LegSum(rows, Unknown, since, until, m), rows[m].leg, rows[m].vec);
  }

  lemma LegsNone(rows: seq<Usage>, since: int, until: int)
    ensures LegTotals(rows, since, until, 0) == Zero
  {
    LegNone(rows, Anthropic, since, until);
    LegNone(rows, Codex, since, until);
    LegNone(rows, DeepSeek, since, until);
    LegNone(rows, Unknown, since, until);
    PlusMoves(Zero, Zero, Zero);
  }

  lemma LegNone(rows: seq<Usage>, id: Leg, since: int, until: int)
    ensures LegSum(rows, id, since, until, 0) == Zero
  {
  }

  lemma {:induction false} LegsAddUp(rows: seq<Usage>, since: int, until: int, n: nat)
    requires n <= |rows| && forall i: nat :: i < |rows| ==> since <= rows[i].key.date <= until
    ensures LegTotals(rows, since, until, n) == SumRows(rows, n)
  {
    if n == 0 {
      LegsNone(rows, since, until);
    } else {
      LegsAddUp(rows, since, until, n - 1);
      LegsMore(rows, since, until, n);
    }
  }

  ghost predicate Reported(rows: seq<Usage>, id: Leg, since: int, until: int, out: seq<ModelStats>) {
    StatsOf(Picked(rows, id, since, until, |rows|), out, id)
  }

  lemma LegIsExact(rows: seq<Usage>, id: Leg, since: int, until: int, out: seq<ModelStats>)
    requires Reported(rows, id, since, until, out) && Fits(LegTotals(rows, since, until, |rows|))
    ensures Exact(rows, id, since, until, out)
  {
    LegFits(rows, id, since, until);
    NoWrap(Picked(rows, id, since, until, |rows|), out, id);
  }

  lemma LegFits(rows: seq<Usage>, id: Leg, since: int, until: int)
    requires Fits(LegTotals(rows, since, until, |rows|))
    ensures Fits(LegSum(rows, id, since, until, |rows|))
  {
    var n := |rows|;
    FourFit(LegSum(rows, Anthropic, since, until, n), LegSum(rows, Codex, since, until, n),
            LegSum(rows, DeepSeek, since, until, n), LegSum(rows, Unknown, since, until, n));
  }

  ghost predicate Exact(rows: seq<Usage>, id: Leg, since: int, until: int, out: seq<ModelStats>) {
    SumStats(out, |out|) == LegSum(rows, id, since, until, |rows|)
  }

  lemma FourExact(rows: seq<Usage>, since: int, until: int,
                  a: seq<ModelStats>, c: seq<ModelStats>, d: seq<ModelStats>, u: seq<ModelStats>)
    requires Exact(rows, Anthropic, since, until, a) && Exact(rows, Codex, since, until, c)
    requires Exact(rows, DeepSeek, since, until, d) && Exact(rows, Unknown, since, until, u)
    ensures Four(SumStats(a, |a|), SumStats(c, |c|), SumStats(d, |d|), SumStats(u, |u|)) ==
            LegTotals(rows, since, until, |rows|)
  {
  }

  lemma LegsOfRows(rows: seq<Usage>, since: int, until: int,
                   a: seq<ModelStats>, c: seq<ModelStats>, d: seq<ModelStats>, u: seq<ModelStats>)
    requires Fits(LegTotals(rows, since, until, |rows|))
    requires Reported(rows, Anthropic, since, until, a) && Reported(rows, Codex, since, until, c)
    requires Reported(rows, DeepSeek, since, until, d) && Reported(rows, Unknown, since, until, u)
    ensures Four(SumStats(a, |a|), SumStats(c, |c|), SumStats(d, |d|), SumStats(u, |u|)) ==
            LegTotals(rows, since, until, |rows|)
  {
    LegIsExact(rows, Anthropic, since, until, a);
    LegIsExact(rows, Codex, since, until, c);
    LegIsExact(rows, DeepSeek, since, until, d);
    LegIsExact(rows, Unknown, since, until, u);
    FourExact(rows, since, until, a, c, d, u);
  }

  /** From the report's totals to the four lists of lines and back: on every report the
      parser accepts, the unchecked additions never wrap and the three legs and the
      unattributed rest add up to the totals, column by column. */
  lemma LegsConserve(r: RawReport, h: Host, since: int, until: int, rows: seq<Usage>,
                     a: seq<ModelStats>, c: seq<ModelStats>, d: seq<ModelStats>, u: seq<ModelStats>)
    requires WellFormed(r, h, since, until) && RowsOf(ReportItems(r, h, since, until), rows, h)
    requires Reported(rows, Anthropic, since, until, a) && Reported(rows, Codex, since, until, c)
    requires Reported(rows, DeepSeek, since, until, d) && Reported(rows, Unknown, since, until, u)
    ensures Four(SumStats(a, |a|), SumStats(c, |c|), SumStats(d, |d|), SumStats(u, |u|)) == Vector(r.totals.value)
  {
    RowsAddUp(r, h, since, until, rows);
    LegsOfRows(rows, since, until, a, c, d, u);
  }

  lemma RowsAddUp(r: RawReport, h: Host, since: int, until: int, rows: seq<Usage>)
    requires WellFormed(r, h, since, until) && RowsOf(ReportItems(r, h, since, until), rows, h)
    ensures r.totals.Some? && Whole(r.totals.value)
    ensures LegTotals(rows, since, until, |rows|) == Vector(r.totals.value) &&
            Fits(LegTotals(rows, since, until, |rows|))
  {
    Conserved(r, h, since, until, rows);
    forall i: nat | i < |rows| ensures since <= rows[i].key.date <= until {
      RowsDated(r, h, since, until, rows, i);
    }
    LegsAddUp(rows, since, until, |rows|);
  }

  lemma {:induction false} PickedAtMost(rows: seq<Usage>, id: Leg, from: int, to: int, n: nat)
    requires n <= |rows|
    ensures AtMost(SumAll(Picked(rows, id, from, to, n)), SumRows(rows, n))
  {
    if 0 < n {
      PickedAtMost(rows, id, from, to, n - 1);
      var u, rest := rows[n - 1], Picked(rows, id, from, to, n - 1);
      var e := PickedEntry(u);
      SumJoin(rest, [e]);
      assert SumTo([e], 1) == Plus(SumTo([e], 0), e.vec);
    }
  }

  /** No line wraps, over these days or any others the report is asked for. */
  lemma LinesAreExact(r: RawReport, h: Host, since: int, until: int, rows: seq<Usage>,
                      id: Leg, from: int, to: int, out: seq<ModelStats>, i: nat)
    requires WellFormed(r, h, since, until) && RowsOf(ReportItems(r, h, since, until), rows, h)
    requires Reported(rows, id, from, to, out) && i < |out|
    ensures out[i].vec == SumFor(Picked(rows, id, from, to, |rows|), out[i].key)
  {
    RowsAddUp(r, h, since, until, rows);
    Conserved(r, h, since, until, rows);
    PickedAtMost(rows, id, from, to, |rows|);
    LineIsExact(Picked(rows, id, from, to, |rows|), out, id, i);
  }

  // ---- the lines against the rows ----

  /** The row belongs to the line of this source and model. */
  predicate Belongs(u: Usage, id: Leg, since: int, until: int, source: string, model: string) {
    u.leg == id && since <= u.key.date <= until && u.key.source == source && u.key.model == model
  }

  function Over(rows: seq<Usage>, id: Leg, since: int, until: int, source: string, model: string, n: nat): Vec
    requires n <= |rows|
  {
    if n == 0 then Zero
    else
      var sum := Over(rows, id, since, until, source, model, n - 1);
      if Belongs(rows[n - 1], id, since, until, source, model) then Plus(sum, rows[n - 1].vec) else sum
  }

  function CostOver(rows: seq<Usage>, id: Leg, since: int, until: int, source: string, model: string, n: nat): real
    requires n <= |rows|
  {
    if n == 0 then 0.0
    else
      var sum := CostOver(rows, id, since, until, source, model, n - 1);
      if Belongs(rows[n - 1], id, since, until, source, model) && rows[n - 1].cost.Some? then
        sum + rows[n - 1].cost.value
      else sum
  }

  /** Some row of the line, or some without a cost. */
  ghost predicate Any(rows: seq<Usage>, id: Leg, since: int, until: int, source: string, model: string, n: nat)
    requires n <= |rows|
  {
    exists i: nat :: i < n && Belongs(rows[i], id, since, until, source, model)
  }

  ghost predicate AnyUnpriced(rows: seq<Usage>, id: Leg, since: int, until: int, source: string, model: string, n: nat)
    requires n <= |rows|
  {
    exists i: nat :: i < n && Belongs(rows[i], id, since, until, source, model) && rows[i].cost.None?
  }

  lemma {:induction false} PickedIs(rows: seq<Usage>, id: Leg, since: int, until: int, k: Pair, n: nat)
    requires n <= |rows|
    ensures var es := Picked(rows, id, since, until, n);
            && SumFor(es, k) == Over(rows, id, since, until, k.source, k.model, n)
            && CostFor(es, k) == CostOver(rows, id, since, until, k.source, k.model, n)
            && (Occurs(es, k) <==> Any(rows, id, since, until, k.source, k.model, n))
  {
    if 0 < n {
      PickedIs(rows, id, since, until, k, n - 1);
      EntryMore(Picked(rows, id, since, until, n - 1), PickedEntry(rows[n - 1]), k);
    }
  }

  lemma EntryMore(es: seq<Entry<Pair>>, e: Entry<Pair>, k: Pair)
    ensures SumFor(es + [e], k) == if e.key == k then Plus(SumFor(es, k), e.vec) else SumFor(es, k)
    ensures CostFor(es + [e], k) == CostFor(es, k) + if e.key == k then e.cost else 0.0
    ensures Occurs(es + [e], k) <==> Occurs(es, k) || k == e.key
  {
    Before(es, [e], k, |es|);
    assert (es + [e])[|es|] == e;
    OccursMore(es, e, k);
  }

  lemma {:induction false} UnpricedIs(rows: seq<Usage>, id: Leg, since: int, until: int, k: Pair, n: nat)
    requires n <= |rows|
    ensures Occurs(Unpriced(rows, id, since, until, n), k) <==>
            AnyUnpriced(rows, id, since, until, k.source, k.model, n)
  {
    if 0 < n {
      UnpricedIs(rows, id, since, until, k, n - 1);
      OccursMore(Unpriced(rows, id, since, until, n - 1), PickedEntry(rows[n - 1]), k);
    }
  }

  /** A source and model have a line exactly when some row of the leg within the days asked
      for has them; the line holds the sums of those rows, and their cost when each has one
      and there are tokens to spread it over. */
  lemma LinesAreRows(rows: seq<Usage>, id: Leg, since: int, until: int, out: seq<ModelStats>,
                     source: string, model: string)
    requires Reported(rows, id, since, until, out)
    requires PricesOf(Picked(rows, id, since, until, |rows|), Unpriced(rows, id, since, until, |rows|), out)
    ensures (exists i: nat :: i < |out| && out[i].key == Pair(source, model)) <==>
            Any(rows, id, since, until, source, model, |rows|)
    ensures forall i: nat :: i < |out| && out[i].key == Pair(source, model) ==>
              && out[i].leg == id
              && out[i].vec == Wrap(Over(rows, id, since, until, source, model, |rows|))
              && out[i].cost == (
                   if AnyUnpriced(rows, id, since, until, source, model, |rows|) || out[i].vec.total == 0 then None
                   else Some(CostOver(rows, id, since, until, source, model, |rows|)))
              && (out[i].cost.Some? ==> out[i].rate == Some(out[i].cost.value / out[i].vec.total as real))
  {
    var k := Pair(source, model);
    PickedIs(rows, id, since, until, k, |rows|);
    UnpricedIs(rows, id, since, until, k, |rows|);
    assert forall i: nat :: i < |out| ==> Pairs(out)[i] == out[i].key;
    assert Occurs(Picked(rows, id, since, until, |rows|), k) <==> k in Pairs(out);
  }
}
