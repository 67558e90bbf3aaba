/**
 The daily usage report: decoded JSON in, one row for each day, source and model out.
 Every count is checked against the totals around it, and every sum against 64 bits.
 */
module UsageHistory {
  import opened Ledger
  import opened Spaces
  import opened Texts
  import Sorting
  import opened Wrappers

  type Word = n: nat | n < Limit

  datatype Leg = Anthropic | Codex | DeepSeek | Unknown

  /** Missing JSON fields are None. */
  datatype RawTotals = RawTotals(
    input: Option<Word>, output: Option<Word>, creation: Option<Word>, read: Option<Word>,
    total: Option<Word>, cost: Option<real>)

  datatype RawModel = RawModel(
    name: Option<string>,
    input: Option<Word>, output: Option<Word>, creation: Option<Word>, read: Option<Word>,
    cost: Option<real>)

  datatype RawAgent = RawAgent(agent: Option<string>, totals: RawTotals, modelsUsed: Option<seq<string>>,
      models: Option<seq<RawModel>>)

  datatype RawDay = RawDay(
    agent: Option<string>, period: Option<string>, totals: RawTotals,
    modelsUsed: Option<seq<string>>, agents: Option<seq<RawAgent>>)

  datatype RawReport = RawReport(daily: Option<seq<RawDay>>, totals: Option<RawTotals>)

  /** What the program takes from its libraries: a canonical UTC date as a day number,
      the largest finite cost, and the leg a model name suggests. */
  datatype Host = Host(dateOf: string -> Option<int>, maxCost: real, classify: string -> Leg)

  datatype Key = Key(date: int, source: string, model: string)

  datatype Usage = Usage(key: Key, leg: Leg, vec: Vec, cost: Option<real>)

  type Table = map<Key, Row>

  // ---- checked arithmetic ----

  function AddUint(a: Word, b: Word): (r: Option<Word>)
    ensures r == if a + b < Limit then Some(a + b) else None
  {
    if Limit - 1 - a < b then None else Some(a + b)
  }

  method SumTokens(values: seq<Word>) returns (r: Option<Word>)
    ensures r == if Total(values, |values|) < Limit then Some(Total(values, |values|)) else None
  {
    var total: Word := 0;
    for i := 0 to |values|
      invariant total == Total(values, i)
    {
      TotalGrows(values, i + 1, |values|);
      match AddUint(total, values[i]) {
        case None => return None;
        case Some(next) => total := next;
      }
    }
    return Some(total);
  }

  /** The first n values, added up. */
  function Total(values: seq<Word>, n: nat): nat
    requires n <= |values|
  {
    if n == 0 then 0 else Total(values, n - 1) + values[n - 1]
  }

  lemma {:induction false} TotalGrows(values: seq<Word>, i: nat, n: nat)
    requires i <= n <= |values|
    ensures Total(values, i) <= Total(values, n)
  {
    if i < n {
      TotalGrows(values, i, n - 1);
    }
  }

  lemma TotalOfFour(a: Word, b: Word, c: Word, d: Word)
    ensures Total([a, b, c, d], 4) == a + b + c + d
  {
    var four: seq<Word> := [a, b, c, d];
    assert Total(four, 0) == 0;
    assert Total(four, 1) == a;
    assert Total(four, 2) == a + b;
    assert Total(four, 3) == a + b + c;
  }

  function Columns(v: Vec): (r: seq<nat>)
    ensures |r| == 5 && r[0] == v.input && r[1] == v.output && r[2] == v.creation && r[3] == v.read && r[4] == v.total
  {
    [v.input, v.output, v.creation, v.read, v.total]
  }

  /** tokenVector.add, column by column. */
  method AddVector(v: Vec, other: Vec) returns (r: Option<Vec>)
    requires Fits(v) && Fits(other)
    ensures r == if Fits(Plus(v, other)) then Some(Plus(v, other)) else None
  {
    var values, addends := Columns(v), Columns(other);
    var sums: seq<Word> := [];
    for i := 0 to 5
      invariant |sums| == i
      invariant forall j: nat :: j < i ==> sums[j] == values[j] + addends[j]
    {
      assert values[i] + addends[i] == Columns(Plus(v, other))[i];
      match AddUint(values[i], addends[i]) {
        case None => return None;
        case Some(next) => sums := sums + [next];
      }
    }
    return Some(Vec(sums[0], sums[1], sums[2], sums[3], sums[4]));
  }

  // ---- what a well-formed report is ----

  function Vector(t: RawTotals): Vec
    requires t.input.Some? && t.output.Some? && t.creation.Some? && t.read.Some? && t.total.Some?
  {
    Vec(t.input.value, t.output.value, t.creation.value, t.read.value, t.total.value)
  }

  predicate Whole(t: RawTotals) {
    t.input.Some? && t.output.Some? && t.creation.Some? && t.read.Some? && t.total.Some? && t.cost.Some?
  }

  predicate TotalsOk(t: RawTotals, h: Host) {
    && Whole(t) && 0.0 <= t.cost.value <= h.maxCost
    && t.input.value + t.output.value + t.creation.value + t.read.value == t.total.value
  }

  predicate Named(m: RawModel, h: Host) {
    && m.name.Some? && Trim(m.name.value) != ""
    && m.input.Some? && m.output.Some? && m.creation.Some? && m.read.Some? && m.cost.Some?
  }

  function ModelVec(m: RawModel, h: Host): Vec
    requires Named(m, h)
  {
    Vec(m.input.value, m.output.value, m.creation.value, m.read.value,
        m.input.value + m.output.value + m.creation.value + m.read.value)
  }

  predicate ModelOk(m: RawModel, h: Host) {
    Named(m, h) && 0.0 <= m.cost.value <= h.maxCost && Fits(ModelVec(m, h))
  }

  /** The unchecked sum of the source; it cannot wrap once the breakdown was added. */
  function ModelTokenVector(m: RawModel, h: Host): (r: Vec)
    requires ModelOk(m, h)
    ensures r == ModelVec(m, h)
  {
    WrapFits(ModelVec(m, h));
    Wrap(ModelVec(m, h))
  }

  predicate NoCredit(es: seq<Entry<Key>>) { forall i: nat :: i < |es| ==> 0.0 <= es[i].cost }

  /** A breakdown as an entry of the ledger; one that is not well formed counts nothing. */
  function Item(date: int, source: string, m: RawModel, h: Host): Entry<Key> {
    if ModelOk(m, h) then Entry(Key(date, source, m.name.value), ModelVec(m, h), m.cost.value)
    else Entry(Key(date, source, ""), Zero, 0.0)
  }

  /** The first n breakdowns. */
  function Items(date: int, source: string, ms: seq<RawModel>, n: nat, h: Host): (r: seq<Entry<Key>>)
    requires n <= |ms|
    ensures NoCredit(r)
  {
    if n == 0 then [] else Items(date, source, ms, n - 1, h) + [Item(date, source, ms[n - 1], h)]
  }

  predicate Labelled(a: RawAgent, h: Host) {
    && a.agent.Some? && a.models.Some? && a.modelsUsed.Some? && TotalsOk(a.totals, h)
    && a.agent.value != "" && Trim(a.agent.value) == a.agent.value
  }

  function AgentItems(date: int, a: RawAgent, h: Host): (r: seq<Entry<Key>>)
    ensures NoCredit(r)
  {
    if Labelled(a, h) then Items(date, a.agent.value, a.models.value, |a.models.value|, h) else []
  }

  /** Every breakdown is complete and the breakdowns add up to the agent's totals. */
  ghost predicate AgentOk(date: int, a: RawAgent, h: Host) {
    && Labelled(a, h)
    && ModelsOk(a.models.value, |a.models.value|, h)
    && SumAll(AgentItems(date, a, h)) == Vector(a.totals)
  }

  function AgentsItems(date: int, agents: seq<RawAgent>, n: nat, h: Host): (r: seq<Entry<Key>>)
    requires n <= |agents|
    ensures NoCredit(r)
  {
    if n == 0 then [] else AgentsItems(date, agents, n - 1, h) + AgentItems(date, agents[n - 1], h)
  }

  predicate Dated(d: RawDay, h: Host, since: int, until: int) {
    && d.agent == Some("all") && d.period.Some? && d.agents.Some? && d.modelsUsed.Some? && TotalsOk(d.totals, h)
    && h.dateOf(d.period.value).Some? && since <= h.dateOf(d.period.value).value <= until
  }

  function DayItems(d: RawDay, h: Host, since: int, until: int): (r: seq<Entry<Key>>)
    ensures NoCredit(r)
  {
    if Dated(d, h, since, until) then
      AgentsItems(h.dateOf(d.period.value).value, d.agents.value, |d.agents.value|, h)
    else []
  }

  /** Every agent is well formed and the agents' breakdowns add up to the day's totals. */
  ghost predicate DayOk(d: RawDay, h: Host, since: int, until: int) {
    && Dated(d, h, since, until)
    && AgentsOk(h.dateOf(d.period.value).value, d.agents.value, |d.agents.value|, h)
    && SumAll(DayItems(d, h, since, until)) == Vector(d.totals)
  }

  function DaysItems(ds: seq<RawDay>, n: nat, h: Host, since: int, until: int): seq<Entry<Key>>
    requires n <= |ds|
  {
    if n == 0 then [] else DaysItems(ds, n - 1, h, since, until) + DayItems(ds[n - 1], h, since, until)
  }

  function ReportItems(r: RawReport, h: Host, since: int, until: int): seq<Entry<Key>> {
    if r.daily.None? then [] else DaysItems(r.daily.value, |r.daily.value|, h, since, until)
  }

  /** The costs of each row have a finite sum. */
  ghost predicate CostsFinite(es: seq<Entry<Key>>, h: Host) {
    forall k :: CostFor(es, k) <= h.maxCost
  }

  /** A report whose parts add up to its totals, in unbounded arithmetic. */
  ghost predicate WellFormed(r: RawReport, h: Host, since: int, until: int) {
    && r.daily.Some? && r.totals.Some? && TotalsOk(r.totals.value, h)
    && DaysOk(r.daily.value, |r.daily.value|, h, since, until)
    && SumAll(ReportItems(r, h, since, until)) == Vector(r.totals.value)
    && CostsFinite(ReportItems(r, h, since, until), h)
  }

  // ---- the checks never fire on a well-formed report ----

  /** Every row so far fits its 64-bit columns and has a finite cost. */
  ghost predicate Small(es: seq<Entry<Key>>, h: Host) {
    forall k :: Fits(SumFor(es, k)) && CostFor(es, k) <= h.maxCost
  }

  lemma {:induction false} ForGrows(a: seq<Entry<Key>>, b: seq<Entry<Key>>, k: Key, n: nat)
    requires NoCredit(b) && n <= |b|
    ensures AtMost(SumFor(a, k), ForTo(a + b, k, |a| + n)) && CostFor(a, k) <= CostTo(a + b, k, |a| + n)
  {
    if n == 0 {
      Before(a, b, k, |a|);
    } else {
      ForGrows(a, b, k, n - 1);
      assert (a + b)[|a| + n - 1] == b[n - 1];
    }
  }

  lemma SmallBefore(a: seq<Entry<Key>>, b: seq<Entry<Key>>, h: Host)
    requires NoCredit(b) && Small(a + b, h)
    ensures Small(a, h)
  {
    forall k ensures Fits(SumFor(a, k)) && CostFor(a, k) <= h.maxCost {
      ForGrows(a, b, k, |b|);
      assert |a + b| == |a| + |b| && Fits(SumFor(a + b, k)) && CostFor(a + b, k) <= h.maxCost;
    }
  }

  lemma SmallEnough(es: seq<Entry<Key>>, h: Host)
    requires Fits(SumAll(es)) && CostsFinite(es, h)
    ensures Small(es, h)
  {
    forall k ensures Fits(SumFor(es, k)) {
      ForAtMostAll(es, k);
    }
  }

  // ---- collecting ----

  method ValidateTotals(t: RawTotals, h: Host) returns (ok: bool)
    ensures ok == TotalsOk(t, h)
  {
    if t.input.None? || t.output.None? || t.creation.None? || t.read.None? || t.total.None? || t.cost.None? {
      return false;
    }
    if !(0.0 <= t.cost.value <= h.maxCost) {
      return false;
    }
    TotalOfFour(t.input.value, t.output.value, t.creation.value, t.read.value);
    var total := SumTokens([t.input.value, t.output.value, t.creation.value, t.read.value]);
    return total == Some(t.total.value);
  }

  lemma PutIs(es: seq<Entry<Key>>, e: Entry<Key>, k: Key)
    ensures Tally(es + [e]) == Put(Tally(es), e)
    ensures var r := Put(Tally(es), e); k in r ==> SumFor(es + [e], k) == r[k].vec && CostFor(es + [e], k) == r[k].cost
    ensures k != e.key ==> SumFor(es + [e], k) == SumFor(es, k) && CostFor(es + [e], k) == CostFor(es, k)
  {
    TallyPut(es, e);
    TallyIs(es + [e], k);
    Before(es, [e], k, |es|);
  }

  lemma RowFits(es: seq<Entry<Key>>, k: Key, h: Host)
    requires Small(es, h)
    ensures k in Tally(es) ==> Fits(Tally(es)[k].vec)
  {
    TallyIs(es, k);
  }

  lemma SmallPut(es: seq<Entry<Key>>, e: Entry<Key>, h: Host)
    requires Small(es, h)
    ensures var r := Put(Tally(es), e)[e.key]; Small(es + [e], h) <==> Fits(r.vec) && r.cost <= h.maxCost
  {
    PutIs(es, e, e.key);
    var r := Put(Tally(es), e)[e.key];
    if Fits(r.vec) && r.cost <= h.maxCost {
      forall k ensures Fits(SumFor(es + [e], k)) && CostFor(es + [e], k) <= h.maxCost {
        PutIs(es, e, k);
      }
    }
  }

  method AddToRow(row: Row, vec: Vec, cost: real, complete: bool, h: Host) returns (r: Option<Row>)
    requires Fits(row.vec) && Fits(vec)
    ensures var sum := Row(Plus(row.vec, vec), row.cost + cost, row.complete && complete);
            r == if Fits(sum.vec) && sum.cost <= h.maxCost then Some(sum) else None
  {
    var sum := AddVector(row.vec, vec);
    if sum.None? || row.cost + cost > h.maxCost {
      return None;
    }
    return Some(Row(sum.value, row.cost + cost, row.complete && complete));
  }

  /** es is what the table already holds. */
  method AddDailyModel(acc: Table, date: int, source: string, m: RawModel, h: Host, ghost es: seq<Entry<Key>>)
    returns (ok: bool, next: Table)
    requires acc == Tally(es) && Small(es, h)
    ensures ok <==> ModelOk(m, h) && Small(es + [Item(date, source, m, h)], h)
    ensures ok ==> next == Tally(es + [Item(date, source, m, h)])
  {
    next := acc;
    if m.name.None? || Trim(m.name.value) == "" || m.input.None? || m.output.None? || m.creation.None? ||
        m.read.None? || m.cost.None? {
      return false, next;
    }
    if !(0.0 <= m.cost.value <= h.maxCost) {
      return false, next;
    }
    TotalOfFour(m.input.value, m.output.value, m.creation.value, m.read.value);
    var total := SumTokens([m.input.value, m.output.value, m.creation.value, m.read.value]);
    if total.None? {
      return false, next;
    }
    var key := Key(date, source, m.name.value);
    var vec := Vec(m.input.value, m.output.value, m.creation.value, m.read.value, total.value);
    var complete := total.value == 0 || m.cost.value > 0.0;
    ghost var e := Item(date, source, m, h);
    assert e == Entry(key, vec, m.cost.value) && complete == Priced(e);
    SmallPut(es, e, h);
    TallyPut(es, e);
    RowFits(es, key, h);
    var row := if key in acc then acc[key] else Row(Zero, 0.0, true);
    var sum := AddToRow(row, vec, m.cost.value, complete, h);
    match sum {
      case None => return false, next;
      case Some(r) => return true, acc[key := r];
    }
  }

  /** When the whole passes the checks, so did every part on the way. */
  lemma PartFine(es: seq<Entry<Key>>, whole: seq<Entry<Key>>, part: seq<Entry<Key>>, rest: seq<Entry<Key>>, h: Host)
    requires NoCredit(rest) && whole == part + rest && Small(es + whole, h) && Fits(SumAll(whole))
    ensures Small(es + part, h) && Fits(SumAll(part))
  {
    SumJoin(part, rest);
    Regroup(es, part, rest);
    SmallBefore(es + part, rest, h);
  }

  /** The table and the vector so far, es being there before and done added since. */
  ghost predicate Going(t: Table, sum: Vec, es: seq<Entry<Key>>, done: seq<Entry<Key>>, h: Host) {
    t == Tally(es + done) && Small(es + done, h) && sum == SumAll(done) && Fits(sum)
  }

  lemma Begun(es: seq<Entry<Key>>, h: Host)
    requires Small(es, h)
    ensures Going(Tally(es), Zero, es, [], h)
  {
    assert es + [] == es;
  }

  lemma Carry(es: seq<Entry<Key>>, done: seq<Entry<Key>>, part: seq<Entry<Key>>)
    ensures es + (done + part) == (es + done) + part
    ensures SumAll(done + part) == Plus(SumAll(done), SumAll(part))
  {
    Regroup(es, done, part);
    SumJoin(done, part);
  }

  // ---- breakdowns of an agent ----

  function ItemsRest(date: int, source: string, ms: seq<RawModel>, i: nat, n: nat, h: Host): (r: seq<Entry<Key>>)
    requires i <= n <= |ms|
    ensures NoCredit(r)
  {
    if i == n then [] else ItemsRest(date, source, ms, i, n - 1, h) + [Item(date, source, ms[n - 1], h)]
  }

  lemma {:induction false} ItemsSplit(date: int, source: string, ms: seq<RawModel>, i: nat, n: nat, h: Host)
    requires i <= n <= |ms|
    ensures Items(date, source, ms, n, h) == Items(date, source, ms, i, h) + ItemsRest(date, source, ms, i, n, h)
  {
    if i < n {
      ItemsSplit(date, source, ms, i, n - 1, h);
      Regroup(Items(date, source, ms, i, h), ItemsRest(date, source, ms, i, n - 1, h),
          [Item(date, source, ms[n - 1], h)]);
    }
  }

  ghost predicate ModelsOk(ms: seq<RawModel>, n: nat, h: Host)
    requires n <= |ms|
  {
    forall i: nat :: i < n ==> ModelOk(ms[i], h)
  }

  lemma ModelsOkMore(ms: seq<RawModel>, n: nat, h: Host)
    requires n < |ms|
    ensures ModelsOk(ms, n + 1, h) <==> ModelsOk(ms, n, h) && ModelOk(ms[n], h)
  {
  }

  lemma ModelPart(date: int, source: string, ms: seq<RawModel>, i: nat, es: seq<Entry<Key>>, h: Host)
    requires i < |ms|
    requires var all := Items(date, source, ms, |ms|, h); Small(es + all, h) && Fits(SumAll(all))
    ensures var part := Items(date, source, ms, i + 1, h); Small(es + part, h) && Fits(SumAll(part))
  {
    ItemsSplit(date, source, ms, i + 1, |ms|, h);
    PartFine(es, Items(date, source, ms, |ms|, h), Items(date, source, ms, i + 1, h),
        ItemsRest(date, source, ms, i + 1, |ms|, h), h);
  }

  /** The breakdowns of one agent; sum is their vector. */
  method AddModels(acc: Table, date: int, source: string, ms: seq<RawModel>, h: Host, ghost es: seq<Entry<Key>>)
    returns (ok: bool, next: Table, sum: Vec)
    requires acc == Tally(es) && Small(es, h)
    ensures var all := Items(date, source, ms, |ms|, h);
            && (ok <==> ModelsOk(ms, |ms|, h) && Small(es + all, h) && Fits(SumAll(all)))
            && (ok ==> Going(next, sum, es, all, h))
  {
    next, sum := acc, Zero;
    Begun(es, h);
    for i := 0 to |ms|
      invariant ModelsOk(ms, i, h)
      invariant Going(next, sum, es, Items(date, source, ms, i, h), h)
    {
      ghost var done, e := Items(date, source, ms, i, h), Item(date, source, ms[i], h);
      Carry(es, done, [e]);
      SumOne(e);
      ModelsOkMore(ms, i, h);
      ghost var all := Items(date, source, ms, |ms|, h);
      if Small(es + all, h) && Fits(SumAll(all)) {
        ModelPart(date, source, ms, i, es, h);
      }
      ok, next := AddDailyModel(next, date, source, ms[i], h, es + done);
      if !ok {
        return;
      }
      var more := AddVector(sum, ModelTokenVector(ms[i], h));
      if more.None? {
        return false, next, sum;
      }
      sum := more.value;
    }
    ok := true;
  }

  method AddAgent(acc: Table, date: int, a: RawAgent, h: Host, ghost es: seq<Entry<Key>>)
    returns (ok: bool, next: Table)
    requires acc == Tally(es) && Small(es, h)
    ensures ok <==> AgentOk(date, a, h) && Small(es + AgentItems(date, a, h), h)
    ensures ok ==> next == Tally(es + AgentItems(date, a, h))
  {
    next := acc;
    if a.agent.None? || a.models.None? || a.modelsUsed.None? {
      return false, next;
    }
    ok := ValidateTotals(a.totals, h);
    if !ok || a.agent.value == "" || Trim(a.agent.value) != a.agent.value {
      return false, next;
    }
    var sum: Vec;
    ok, next, sum := AddModels(acc, date, a.agent.value, a.models.value, h, es);
    return ok && sum == Vector(a.totals), next;
  }

  lemma SumOne(e: Entry<Key>)
    ensures SumAll([e]) == e.vec
  {
    assert SumTo([e], 1) == Plus(SumTo([e], 0), e.vec);
  }

  // ---- agents of a day ----

  ghost predicate AgentsOk(date: int, agents: seq<RawAgent>, n: nat, h: Host)
    requires n <= |agents|
  {
    forall i: nat :: i < n ==> AgentOk(date, agents[i], h)
  }

  lemma AgentsOkMore(date: int, agents: seq<RawAgent>, n: nat, h: Host)
    requires n < |agents|
    ensures AgentsOk(date, agents, n + 1, h) <==> AgentsOk(date, agents, n, h) && AgentOk(date, agents[n], h)
  {
  }

  function AgentsRest(date: int, agents: seq<RawAgent>, i: nat, n: nat, h: Host): (r: seq<Entry<Key>>)
    requires i <= n <= |agents|
    ensures NoCredit(r)
  {
    if i == n then [] else AgentsRest(date, agents, i, n - 1, h) + AgentItems(date, agents[n - 1], h)
  }

  lemma {:induction false} AgentsSplit(date: int, agents: seq<RawAgent>, i: nat, n: nat, h: Host)
    requires i <= n <= |agents|
    ensures AgentsItems(date, agents, n, h) == AgentsItems(date, agents, i, h) + AgentsRest(date, agents, i, n, h)
  {
    if i < n {
      AgentsSplit(date, agents, i, n - 1, h);
      Regroup(AgentsItems(date, agents, i, h), AgentsRest(date, agents, i, n - 1, h),
          AgentItems(date, agents[n - 1], h));
    }
  }

  lemma AgentPart(date: int, agents: seq<RawAgent>, i: nat, es: seq<Entry<Key>>, h: Host)
    requires i < |agents|
    requires var all := AgentsItems(date, agents, |agents|, h); Small(es + all, h) && Fits(SumAll(all))
    ensures var part := AgentsItems(date, agents, i + 1, h);
            Small(es + part, h) && Fits(SumAll(part))
  {
    AgentsSplit(date, agents, i + 1, |agents|, h);
    PartFine(es, AgentsItems(date, agents, |agents|, h), AgentsItems(date, agents, i + 1, h),
        AgentsRest(date, agents, i + 1, |agents|, h), h);
  }

  /** The agents of one day; sum is their vector. */
  method AddAgents(acc: Table, date: int, agents: seq<RawAgent>, h: Host, ghost es: seq<Entry<Key>>)
    returns (ok: bool, next: Table, sum: Vec)
    requires acc == Tally(es) && Small(es, h)
    ensures var all := AgentsItems(date, agents, |agents|, h);
            && (ok <==> AgentsOk(date, agents, |agents|, h) && Small(es + all, h) && Fits(SumAll(all)))
            && (ok ==> Going(next, sum, es, all, h))
  {
    next, sum := acc, Zero;
    Begun(es, h);
    for i := 0 to |agents|
      invariant AgentsOk(date, agents, i, h)
      invariant Going(next, sum, es, AgentsItems(date, agents, i, h), h)
    {
      ghost var done := AgentsItems(date, agents, i, h);
      Carry(es, done, AgentItems(date, agents[i], h));
      AgentsOkMore(date, agents, i, h);
      ghost var all := AgentsItems(date, agents, |agents|, h);
      if Small(es + all, h) && Fits(SumAll(all)) {
        AgentPart(date, agents, i, es, h);
      }
      ok, next := AddAgent(next, date, agents[i], h, es + done);
      if !ok {
        return;
      }
      var more := AddVector(sum, Vector(agents[i].totals));
      if more.None? {
        return false, next, sum;
      }
      sum := more.value;
    }
    ok := true;
  }

  method AddDay(acc: Table, d: RawDay, h: Host, since: int, until: int, ghost es: seq<Entry<Key>>)
    returns (ok: bool, next: Table)
    requires acc == Tally(es) && Small(es, h)
    ensures ok <==> DayOk(d, h, since, until) && Small(es + DayItems(d, h, since, until), h)
    ensures ok ==> next == Tally(es + DayItems(d, h, since, until))
  {
    next := acc;
    if d.agent != Some("all") || d.period.None? || d.agents.None? || d.modelsUsed.None? {
      return false, next;
    }
    ok := ValidateTotals(d.totals, h);
    if !ok || h.dateOf(d.period.value).None? {
      return false, next;
    }
    var date, agents := h.dateOf(d.period.value).value, d.agents.value;
    if date < since || date > until {
      return false, next;
    }
    var sum: Vec;
    ok, next, sum := AddAgents(acc, date, agents, h, es);
    return ok && sum == Vector(d.totals), next;
  }

  // ---- days of the report ----

  ghost predicate DaysOk(ds: seq<RawDay>, n: nat, h: Host, since: int, until: int)
    requires n <= |ds|
  {
    forall i: nat :: i < n ==> DayOk(ds[i], h, since, until)
  }

  lemma DaysOkMore(ds: seq<RawDay>, n: nat, h: Host, since: int, until: int)
    requires n < |ds|
    ensures DaysOk(ds, n + 1, h, since, until) <==> DaysOk(ds, n, h, since, until) && DayOk(ds[n], h, since, until)
  {
  }

  function DaysRest(ds: seq<RawDay>, i: nat, n: nat, h: Host, since: int, until: int): (r: seq<Entry<Key>>)
    requires i <= n <= |ds|
    ensures NoCredit(r)
  {
    if i == n then [] else DaysRest(ds, i, n - 1, h, since, until) + DayItems(ds[n - 1], h, since, until)
  }

  lemma {:induction false} DaysSplit(ds: seq<RawDay>, i: nat, n: nat, h: Host, since: int, until: int)
    requires i <= n <= |ds|
    ensures DaysItems(ds, n, h, since, until) == DaysItems(ds, i, h, since, until) + DaysRest(ds, i, n, h, since, until)
  {
    if i < n {
      DaysSplit(ds, i, n - 1, h, since, until);
      Regroup(DaysItems(ds, i, h, since, until), DaysRest(ds, i, n - 1, h, since, until),
          DayItems(ds[n - 1], h, since, until));
    }
  }

  lemma DayPart(ds: seq<RawDay>, i: nat, h: Host, since: int, until: int)
    requires i < |ds|
    requires var all := DaysItems(ds, |ds|, h, since, until); Small([] + all, h) && Fits(SumAll(all))
    ensures var part := DaysItems(ds, i + 1, h, since, until);
            Small([] + part, h) && Fits(SumAll(part))
  {
    DaysSplit(ds, i + 1, |ds|, h, since, until);
    PartFine([], DaysItems(ds, |ds|, h, since, until), DaysItems(ds, i + 1, h, since, until),
        DaysRest(ds, i + 1, |ds|, h, since, until), h);
  }

  /** The days of the report; sum is their vector. */
  method AddDays(ds: seq<RawDay>, h: Host, since: int, until: int) returns (ok: bool, next: Table, sum: Vec)
    requires 0.0 <= h.maxCost
    ensures var all := DaysItems(ds, |ds|, h, since, until);
            && (ok <==> DaysOk(ds, |ds|, h, since, until) && Small([] + all, h) && Fits(SumAll(all)))
            && (ok ==> Going(next, sum, [], all, h))
  {
    next, sum := map[], Zero;
    Begun([], h);
    for i := 0 to |ds|
      invariant DaysOk(ds, i, h, since, until)
      invariant Going(next, sum, [], DaysItems(ds, i, h, since, until), h)
    {
      ghost var done := DaysItems(ds, i, h, since, until);
      Carry([], done, DayItems(ds[i], h, since, until));
      DaysOkMore(ds, i, h, since, until);
      ghost var all := DaysItems(ds, |ds|, h, since, until);
      if Small([] + all, h) && Fits(SumAll(all)) {
        DayPart(ds, i, h, since, until);
      }
      ok, next := AddDay(next, ds[i], h, since, until, [] + done);
      if !ok {
        return;
      }
      var more := AddVector(sum, Vector(ds[i].totals));
      if more.None? {
        return false, next, sum;
      }
      sum := more.value;
    }
    ok := true;
  }

  /** On a report that adds up, only a cost can still be refused. */
  lemma SmallIsFinite(es: seq<Entry<Key>>, h: Host)
    requires Fits(SumAll(es))
    ensures Small([] + es, h) <==> CostsFinite(es, h)
  {
    assert [] + es == es;
    if CostsFinite(es, h) {
      SmallEnough(es, h);
    } else {
      var k :| CostFor(es, k) > h.maxCost;
      assert !(Fits(SumFor(es, k)) && CostFor(es, k) <= h.maxCost);
    }
  }

  /** The table of parseDaily, or nothing: exactly the well-formed reports are accepted, so
      none of the overflow checks refuses a report that adds up. */
  method CollectDaily(r: RawReport, h: Host, since: int, until: int) returns (ok: bool, acc: Table)
    requires 0.0 <= h.maxCost
    ensures ok <==> WellFormed(r, h, since, until)
    ensures ok ==> acc == Tally(ReportItems(r, h, since, until))
  {
    acc := map[];
    if r.daily.None? || r.totals.None? {
      return false, acc;
    }
    ok := ValidateTotals(r.totals.value, h);
    if !ok {
      return false, acc;
    }
    var sum: Vec;
    ok, acc, sum := AddDays(r.daily.value, h, since, until);
    ghost var all := ReportItems(r, h, since, until);
    assert [] + all == all;
    if Fits(SumAll(all)) {
      SmallIsFinite(all, h);
    }
    return ok && sum == Vector(r.totals.value), acc;
  }

  // ---- the rows ----

  function Keys(rows: seq<Usage>): seq<Key> { seq(|rows|, i requires 0 <= i < |rows| => rows[i].key) }

  /** One row for each key with an entry, holding exactly its sums; a cost only when every
      breakdown of the row that used tokens has one. */
  ghost predicate RowsOf(es: seq<Entry<Key>>, rows: seq<Usage>, h: Host) {
    && Distinct(Keys(rows))
    && (forall k :: Occurs(es, k) <==> k in Keys(rows))
    && (forall i: nat :: i < |rows| ==> RowIs(es, rows[i], h))
  }

  /** Every entry of the key that used tokens has a cost. */
  predicate AllPriced(es: seq<Entry<Key>>, k: Key) {
    forall j: nat :: j < |es| && es[j].key == k ==> Priced(es[j])
  }

  ghost predicate RowIs(es: seq<Entry<Key>>, u: Usage, h: Host) {
    && u.vec == SumFor(es, u.key) && u.leg == h.classify(u.key.model)
    && u.cost == if AllPriced(es, u.key) then Some(CostFor(es, u.key)) else None
  }

  function RowOf(k: Key, r: Row, h: Host): Usage {
    Usage(k, h.classify(k.model), r.vec, if r.complete then Some(r.cost) else None)
  }

  // ---- by day, source and model ----

  predicate Below(a: Key, b: Key) {
    || a.date < b.date
    || (a.date == b.date && (Less(a.source, b.source) || (a.source == b.source && Less(a.model, b.model))))
  }

  lemma BelowIsTotal(a: Key, b: Key)
    ensures (if Below(a, b) then 1 else 0) + (if Below(b, a) then 1 else 0) + (if a == b then 1 else 0) == 1
  {
    LessIsTotal(a.source, b.source);
    LessIsTotal(a.model, b.model);
  }

  lemma BelowMoves(a: Key, b: Key, c: Key)
    requires !Below(b, a) && !Below(c, b)
    ensures !Below(c, a)
  {
    BelowIsTotal(a, b);
    BelowIsTotal(b, c);
    BelowIsTotal(c, a);
    if Below(a, b) && Below(b, c) {
      BelowOn(a, b, c);
    }
  }

  lemma BelowOn(a: Key, b: Key, c: Key)
    requires Below(a, b) && Below(b, c)
    ensures Below(a, c)
  {
    if Less(a.source, b.source) && Less(b.source, c.source) {
      LessMoves(a.source, b.source, c.source);
    }
    if Less(a.model, b.model) && Less(b.model, c.model) {
      LessMoves(a.model, b.model, c.model);
    }
  }

  predicate NotAfter(a: Usage, b: Usage) { !Below(b.key, a.key) }

  ghost predicate Ascending(rows: seq<Usage>) {
    forall i: nat, j: nat :: i < j < |rows| ==> Below(rows[i].key, rows[j].key)
  }

  function SortRows(rows: seq<Usage>): seq<Usage> { Sorting.Sort(rows, NotAfter) }

  lemma NotAfterIsOrder()
    ensures Sorting.IsOrder(NotAfter)
  {
    forall a, b ensures NotAfter(a, b) || NotAfter(b, a) {
      BelowIsTotal(a.key, b.key);
    }
    forall a, b, c | NotAfter(a, b) && NotAfter(b, c) ensures NotAfter(a, c) {
      BelowMoves(a.key, b.key, c.key);
    }
  }

  function KeyOf(u: Usage): Key { u.key }

  lemma KeysBy(rows: seq<Usage>, k: Key)
    ensures Distinct(Keys(rows)) <==> Sorting.DistinctBy(rows, KeyOf)
    ensures k in Keys(rows) <==> exists u :: u in rows && KeyOf(u) == k
  {
    assert |Keys(rows)| == |rows| && forall i: nat :: i < |rows| ==> Keys(rows)[i] == KeyOf(rows[i]);
    if k in Keys(rows) {
      var i: nat :| i < |rows| && Keys(rows)[i] == k;
      assert rows[i] in rows;
    }
  }

  /** Sorting keeps the rows and puts them in order. */
  lemma SortedRows(es: seq<Entry<Key>>, rows: seq<Usage>, h: Host)
    requires RowsOf(es, rows, h)
    ensures RowsOf(es, SortRows(rows), h) && Ascending(SortRows(rows))
  {
    var out := SortRows(rows);
    Sorting.SortKeeps(rows, NotAfter);
    NotAfterIsOrder();
    Sorting.SortOrders(rows, NotAfter);
    KeysSorted(rows, out);
    forall i: nat | i < |out| ensures RowIs(es, out[i], h) {
      assert out[i] in multiset(rows);
      var j: nat :| j < |rows| && rows[j] == out[i];
    }
  }

  lemma KeysSorted(rows: seq<Usage>, out: seq<Usage>)
    requires multiset(rows) == multiset(out) && Distinct(Keys(rows)) && Sorting.InOrder(out, NotAfter)
    ensures Distinct(Keys(out)) && Ascending(out) && forall k :: k in Keys(rows) <==> k in Keys(out)
  {
    forall k ensures k in Keys(rows) <==> k in Keys(out) {
      KeysBy(rows, k);
      KeysBy(out, k);
      Sorting.SameKeys(rows, out, KeyOf, k);
    }
    KeysBy(rows, Key(0, "", ""));
    KeysBy(out, Key(0, "", ""));
    Sorting.StayDistinct(rows, out, KeyOf);
    forall i: nat, j: nat | i < j < |out| ensures Below(out[i].key, out[j].key) {
      BelowIsTotal(out[i].key, out[j].key);
      assert KeyOf(out[i]) != KeyOf(out[j]) && NotAfter(out[i], out[j]);
    }
  }

  method ListRows(acc: Table, h: Host, ghost es: seq<Entry<Key>>) returns (rows: seq<Usage>)
    requires acc == Tally(es)
    ensures RowsOf(es, rows, h) && Ascending(rows)
  {
    rows := [];
    var rest := acc.Keys;
    while rest != {}
      invariant rest <= acc.Keys
      invariant forall k :: k in acc && k !in rest <==> k in Keys(rows)
      invariant Distinct(Keys(rows))
      invariant forall i: nat :: i < |rows| ==> rows[i].key in acc && rows[i] == RowOf(rows[i].key, acc[rows[i].key], h)
    {
      var k :| k in rest;
      rest := rest - {k};
      assert Keys(rows + [RowOf(k, acc[k], h)]) == Keys(rows) + [k];
      rows := rows + [RowOf(k, acc[k], h)];
    }
    forall i: nat | i < |rows| ensures RowIs(es, rows[i], h) {
      TallyIs(es, rows[i].key);
    }
    forall k ensures Occurs(es, k) <==> k in Keys(rows) {
      TallyIs(es, k);
    }
    SortedRows(es, rows, h);
    rows := SortRows(rows);
  }

  /** since and until bound the days asked for; the rows come by day, source and model. */
  method ParseDaily(r: RawReport, h: Host, since: int, until: int) returns (rows: Option<seq<Usage>>)
    requires 0.0 <= h.maxCost
    ensures rows.Some? <==> WellFormed(r, h, since, until)
    ensures rows.Some? ==> RowsOf(ReportItems(r, h, since, until), rows.value, h) && Ascending(rows.value)
  {
    var ok, acc := CollectDaily(r, h, since, until);
    if !ok {
      return None;
    }
    var list := ListRows(acc, h, ReportItems(r, h, since, until));
    return Some(list);
  }

  // ---- conservation ----

  function SumRows(rows: seq<Usage>, n: nat): Vec
    requires n <= |rows|
  {
    if n == 0 then Zero else Plus(SumRows(rows, n - 1), rows[n - 1].vec)
  }

  lemma {:induction false} RowsAreKeys(es: seq<Entry<Key>>, rows: seq<Usage>, h: Host, n: nat)
    requires n <= |rows| && RowsOf(es, rows, h)
    ensures SumRows(rows, n) == SumKeys(es, Keys(rows)[..n])
  {
    if 0 < n {
      RowsAreKeys(es, rows, h, n - 1);
      assert Keys(rows)[..n][..n - 1] == Keys(rows)[..n - 1];
      assert RowIs(es, rows[n - 1], h);
    }
  }

  /** Every column of the rows adds up to the report's own total. */
  lemma Conserved(r: RawReport, h: Host, since: int, until: int, rows: seq<Usage>)
    requires WellFormed(r, h, since, until) && RowsOf(ReportItems(r, h, since, until), rows, h)
    ensures SumRows(rows, |rows|) == Vector(r.totals.value)
  {
    var es := ReportItems(r, h, since, until);
    RowsAreKeys(es, rows, h, |rows|);
    assert Keys(rows)[..|rows|] == Keys(rows);
    NothingLost(es, Keys(rows));
  }

  predicate Between(es: seq<Entry<Key>>, since: int, until: int) {
    forall i: nat :: i < |es| ==> since <= es[i].key.date <= until
  }

  lemma {:induction false} ItemsDated(date: int, source: string, ms: seq<RawModel>, n: nat, h: Host)
    requires n <= |ms|
    ensures Between(Items(date, source, ms, n, h), date, date)
  {
    if 0 < n {
      ItemsDated(date, source, ms, n - 1, h);
    }
  }

  lemma {:induction false} AgentsDated(date: int, agents: seq<RawAgent>, n: nat, h: Host)
    requires n <= |agents|
    ensures Between(AgentsItems(date, agents, n, h), date, date)
  {
    if 0 < n {
      AgentsDated(date, agents, n - 1, h);
      var a := agents[n - 1];
      if Labelled(a, h) {
        ItemsDated(date, a.agent.value, a.models.value, |a.models.value|, h);
      }
    }
  }

  lemma {:induction false} DaysDated(ds: seq<RawDay>, n: nat, h: Host, since: int, until: int)
    requires n <= |ds|
    ensures Between(DaysItems(ds, n, h, since, until), since, until)
  {
    if 0 < n {
      DaysDated(ds, n - 1, h, since, until);
      var d := ds[n - 1];
      if Dated(d, h, since, until) {
        AgentsDated(h.dateOf(d.period.value).value, d.agents.value, |d.agents.value|, h);
      }
    }
  }

  /** No row is outside the days asked for. */
  lemma RowsDated(r: RawReport, h: Host, since: int, until: int, rows: seq<Usage>, i: nat)
    requires RowsOf(ReportItems(r, h, since, until), rows, h) && i < |rows|
    ensures since <= rows[i].key.date <= until
  {
    if r.daily.Some? {
      DaysDated(r.daily.value, |r.daily.value|, h, since, until);
    }
    assert rows[i].key == Keys(rows)[i];
    assert Occurs(ReportItems(r, h, since, until), rows[i].key);
  }
}
