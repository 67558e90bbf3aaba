/**
 The usage rows against the report as it came: which breakdowns a row is made of, and
 which reports are refused. Nothing here goes through the ledger's entries.
 */
module UsageRows {
  import opened Ledger
  import opened Spaces
  import opened UsageHistory
  import opened Wrappers

  // ---- the columns of the report ----

  /** The four categories and their sum. */
  datatype Column = Input | Output | Creation | Read | All

  function Num(o: Option<Word>): nat { if o.Some? then o.value else 0 }

  function InModel(c: Column, m: RawModel): nat {
    match c
    case Input => Num(m.input)
    case Output => Num(m.output)
    case Creation => Num(m.creation)
    case Read => Num(m.read)
    case All => Tokens(m)
  }

  function InTotals(c: Column, t: RawTotals): nat {
    match c
    case Input => Num(t.input)
    case Output => Num(t.output)
    case Creation => Num(t.creation)
    case Read => Num(t.read)
    case All => Num(t.total)
  }

  function InVec(c: Column, v: Vec): nat {
    match c
    case Input => v.input
    case Output => v.output
    case Creation => v.creation
    case Read => v.read
    case All => v.total
  }

  function Tokens(m: RawModel): nat { Num(m.input) + Num(m.output) + Num(m.creation) + Num(m.read) }

  function CostOf(m: RawModel): real { if m.cost.Some? then m.cost.value else 0.0 }

  // ---- the breakdowns of a row ----

  /** Among the first n, those of one name. */
  function OfName(ms: seq<RawModel>, model: string, n: nat): seq<RawModel>
    requires n <= |ms|
  {
    if n == 0 then []
    else OfName(ms, model, n - 1) + if ms[n - 1].name == Some(model) then [ms[n - 1]] else []
  }

  function OfAgent(a: RawAgent, k: Key): seq<RawModel> {
    if a.agent == Some(k.source) && a.models.Some? then OfName(a.models.value, k.model, |a.models.value|) else []
  }

  function OfAgents(agents: seq<RawAgent>, k: Key, n: nat): seq<RawModel>
    requires n <= |agents|
  {
    if n == 0 then [] else OfAgents(agents, k, n - 1) + OfAgent(agents[n - 1], k)
  }

  predicate IsDay(d: RawDay, h: Host, date: int) { d.period.Some? && h.dateOf(d.period.value) == Some(date) }

  function OfDay(d: RawDay, h: Host, k: Key): seq<RawModel> {
    if IsDay(d, h, k.date) && d.agents.Some? then OfAgents(d.agents.value, k, |d.agents.value|) else []
  }

  function OfDays(ds: seq<RawDay>, h: Host, k: Key, n: nat): seq<RawModel>
    requires n <= |ds|
  {
    if n == 0 then [] else OfDays(ds, h, k, n - 1) + OfDay(ds[n - 1], h, k)
  }

  /** The breakdowns with the name of the key, of agents with its source, on days with its
      date, in the order of the report. */
  function Breakdowns(r: RawReport, h: Host, k: Key): seq<RawModel> {
    if r.daily.Some? then OfDays(r.daily.value, h, k, |r.daily.value|) else []
  }

  function Amount(ms: seq<RawModel>, c: Column, n: nat): nat
    requires n <= |ms|
  {
    if n == 0 then 0 else Amount(ms, c, n - 1) + InModel(c, ms[n - 1])
  }

  function Cost(ms: seq<RawModel>, n: nat): real
    requires n <= |ms|
  {
    if n == 0 then 0.0 else Cost(ms, n - 1) + CostOf(ms[n - 1])
  }

  /** Every breakdown that used tokens has a cost. */
  predicate EachPriced(ms: seq<RawModel>) { forall i: nat :: i < |ms| ==> Tokens(ms[i]) == 0 || CostOf(ms[i]) > 0.0 }

  /** The row holds the sums of exactly these breakdowns. */
  predicate RowOfRaw(u: Usage, ms: seq<RawModel>, h: Host) {
    && (forall c: Column :: InVec(c, u.vec) == Amount(ms, c, |ms|))
    && u.leg == h.classify(u.key.model)
    && u.cost == if EachPriced(ms) then Some(Cost(ms, |ms|)) else None
  }

  // ---- entries and breakdowns ----

  lemma {:induction false} ForJoinTo(a: seq<Entry<Key>>, b: seq<Entry<Key>>, all: seq<Entry<Key>>, k: Key, n: nat)
    requires n <= |b| && all == a + b
    ensures ForTo(all, k, |a| + n) == Plus(SumFor(a, k), ForTo(b, k, n))
  {
    if n == 0 {
      Before(a, b, k, |a|);
      PlusMoves(SumFor(a, k), Zero, Zero);
    } else {
      ForJoinTo(a, b, all, k, n - 1);
      var m := |a| + n;
      assert all[m - 1] == b[n - 1];
      assert ForTo(all, k, m) ==
             if all[m - 1].key == k then Plus(ForTo(all, k, m - 1), all[m - 1].vec) else ForTo(all, k, m - 1);
      PlusMoves(SumFor(a, k), ForTo(b, k, n - 1), b[n - 1].vec);
    }
  }

  lemma {:induction false} CostJoinTo(a: seq<Entry<Key>>, b: seq<Entry<Key>>, all: seq<Entry<Key>>, k: Key, n: nat)
    requires n <= |b| && all == a + b
    ensures CostTo(all, k, |a| + n) == CostFor(a, k) + CostTo(b, k, n)
  {
    if n == 0 {
      Before(a, b, k, |a|);
    } else {
      CostJoinTo(a, b, all, k, n - 1);
      assert all[|a| + n - 1] == b[n - 1];
    }
  }

  lemma ForJoin(a: seq<Entry<Key>>, b: seq<Entry<Key>>, k: Key)
    ensures SumFor(a + b, k) == Plus(SumFor(a, k), SumFor(b, k)) && CostFor(a + b, k) == CostFor(a, k) + CostFor(b, k)
  {
    ForJoinTo(a, b, a + b, k, |b|);
    CostJoinTo(a, b, a + b, k, |b|);
  }

  lemma OccursJoin(a: seq<Entry<Key>>, b: seq<Entry<Key>>, k: Key)
    ensures Occurs(a + b, k) <==> Occurs(a, k) || Occurs(b, k)
    ensures AllPriced(a + b, k) <==> AllPriced(a, k) && AllPriced(b, k)
  {
    var all := a + b;
    forall i: nat | i < |a| ensures all[i] == a[i] {
    }
    forall i: nat | i < |b| ensures all[|a| + i] == b[i] {
    }
    forall i: nat | i < |all| ensures if i < |a| then all[i] == a[i] else all[i] == b[i - |a|] {
    }
  }

  lemma {:induction false} AmountBefore(a: seq<RawModel>, b: seq<RawModel>, c: Column, n: nat)
    requires n <= |a|
    ensures Amount(a + b, c, n) == Amount(a, c, n) && Cost(a + b, n) == Cost(a, n)
  {
    if 0 < n {
      AmountBefore(a, b, c, n - 1);
    }
  }

  lemma {:induction false} AmountJoin(a: seq<RawModel>, b: seq<RawModel>, c: Column, n: nat)
    requires n <= |b|
    ensures Amount(a + b, c, |a| + n) == Amount(a, c, |a|) + Amount(b, c, n)
    ensures Cost(a + b, |a| + n) == Cost(a, |a|) + Cost(b, n)
  {
    if n == 0 {
      AmountBefore(a, b, c, |a|);
    } else {
      AmountJoin(a, b, c, n - 1);
      assert (a + b)[|a| + n - 1] == b[n - 1];
    }
  }

  lemma PricedJoin(a: seq<RawModel>, b: seq<RawModel>)
    ensures EachPriced(a + b) <==> EachPriced(a) && EachPriced(b)
  {
    var all := a + b;
    forall i: nat | i < |a| ensures all[i] == a[i] {
    }
    forall i: nat | i < |b| ensures all[|a| + i] == b[i] {
    }
  }

  /** The entries under k are the breakdowns ms, column by column. */
  ghost predicate Match(es: seq<Entry<Key>>, k: Key, ms: seq<RawModel>) {
    && (forall c: Column :: InVec(c, SumFor(es, k)) == Amount(ms, c, |ms|))
    && CostFor(es, k) == Cost(ms, |ms|)
    && (AllPriced(es, k) <==> EachPriced(ms))
    && (Occurs(es, k) <==> ms != [])
  }

  lemma MatchNothing(es: seq<Entry<Key>>, k: Key)
    requires SumFor(es, k) == Zero && CostFor(es, k) == 0.0 && !Occurs(es, k)
    ensures Match(es, k, [])
  {
  }

  lemma MatchNone(k: Key)
    ensures Match([], k, [])
  {
    MatchNothing([], k);
  }

  lemma MatchJoin(a: seq<Entry<Key>>, b: seq<Entry<Key>>, k: Key, ms: seq<RawModel>, ns: seq<RawModel>)
    requires Match(a, k, ms) && Match(b, k, ns)
    ensures Match(a + b, k, ms + ns)
  {
    ForJoin(a, b, k);
    OccursJoin(a, b, k);
    PricedJoin(ms, ns);
    AmountJoin(ms, ns, Input, |ns|);
    forall c: Column ensures InVec(c, SumFor(a + b, k)) == Amount(ms + ns, c, |ms + ns|) {
      AmountJoin(ms, ns, c, |ns|);
    }
  }

  lemma SumAlone(es: seq<Entry<Key>>, k: Key)
    requires |es| == 1
    ensures SumFor(es, k) == if es[0].key == k then es[0].vec else Zero
  {
    var none := ForTo(es, k, 0);
    assert none == Zero;
    if es[0].key == k {
      assert ForTo(es, k, 1) == Plus(none, es[0].vec);
    } else {
      assert ForTo(es, k, 1) == none;
    }
  }

  lemma CostAlone(es: seq<Entry<Key>>, k: Key)
    requires |es| == 1
    ensures CostFor(es, k) == if es[0].key == k then es[0].cost else 0.0
  {
    assert CostTo(es, k, 0) == 0.0;
  }

  lemma KeyAlone(es: seq<Entry<Key>>, k: Key)
    requires |es| == 1
    ensures Occurs(es, k) <==> es[0].key == k
    ensures AllPriced(es, k) <==> (es[0].key == k ==> Priced(es[0]))
  {
  }

  lemma MatchHere(es: seq<Entry<Key>>, m: RawModel, ms: seq<RawModel>, k: Key)
    requires |es| == 1 && es[0].key == k && es[0].cost == CostOf(m) && ms == [m]
    requires forall c: Column :: InVec(c, es[0].vec) == InModel(c, m)
    ensures Match(es, k, ms)
  {
    SumAlone(es, k);
    CostAlone(es, k);
    KeyAlone(es, k);
    OneAmount(m);
    assert InVec(All, es[0].vec) == InModel(All, m);
    assert AllPriced(es, k) <==> EachPriced(ms);
  }

  lemma MatchElsewhere(es: seq<Entry<Key>>, k: Key)
    requires |es| == 1 && es[0].key != k
    ensures Match(es, k, [])
  {
    SumAlone(es, k);
    CostAlone(es, k);
    KeyAlone(es, k);
    MatchNothing(es, k);
  }

  lemma MatchOne(date: int, source: string, m: RawModel, h: Host, k: Key)
    requires ModelOk(m, h)
    ensures Match([Item(date, source, m, h)], k, if k == Key(date, source, m.name.value) then [m] else [])
  {
    var es := [Item(date, source, m, h)];
    if k == es[0].key {
      MatchHere(es, m, [m], k);
    } else {
      MatchElsewhere(es, k);
    }
  }

  lemma OneAmount(m: RawModel)
    ensures forall c: Column :: Amount([m], c, 1) == InModel(c, m)
    ensures Cost([m], 1) == CostOf(m)
  {
    var ms := [m];
    forall c: Column ensures Amount(ms, c, 1) == InModel(c, m) {
      assert Amount(ms, c, 0) == 0;
    }
    assert Cost(ms, 0) == 0.0;
  }

  lemma {:induction false} ModelsMatch(date: int, source: string, ms: seq<RawModel>, n: nat, h: Host, k: Key)
    requires n <= |ms| && ModelsOk(ms, |ms|, h)
    ensures Match(Items(date, source, ms, n, h), k,
                  if date == k.date && source == k.source then OfName(ms, k.model, n) else [])
  {
    if n == 0 {
      MatchNone(k);
    } else {
      ModelsMatch(date, source, ms, n - 1, h, k);
      MatchOne(date, source, ms[n - 1], h, k);
      var here := date == k.date && source == k.source;
      MatchJoin(Items(date, source, ms, n - 1, h), [Item(date, source, ms[n - 1], h)], k,
                if here then OfName(ms, k.model, n - 1) else [],
                if k == Key(date, source, ms[n - 1].name.value) then [ms[n - 1]] else []);
    }
  }

  lemma AgentMatch(date: int, a: RawAgent, h: Host, k: Key)
    requires AgentOk(date, a, h)
    ensures Match(AgentItems(date, a, h), k, if date == k.date then OfAgent(a, k) else [])
  {
    ModelsMatch(date, a.agent.value, a.models.value, |a.models.value|, h, k);
  }

  lemma {:induction false} AgentsMatch(date: int, agents: seq<RawAgent>, n: nat, h: Host, k: Key)
    requires n <= |agents| && forall i: nat :: i < n ==> AgentOk(date, agents[i], h)
    ensures Match(AgentsItems(date, agents, n, h), k, if date == k.date then OfAgents(agents, k, n) else [])
  {
    if n == 0 {
      MatchNone(k);
    } else {
      AgentsMatch(date, agents, n - 1, h, k);
      AgentMatch(date, agents[n - 1], h, k);
      MatchJoin(AgentsItems(date, agents, n - 1, h), AgentItems(date, agents[n - 1], h), k,
                if date == k.date then OfAgents(agents, k, n - 1) else [],
                if date == k.date then OfAgent(agents[n - 1], k) else []);
    }
  }

  lemma DayMatch(d: RawDay, h: Host, since: int, until: int, k: Key)
    requires DayOk(d, h, since, until)
    ensures Match(DayItems(d, h, since, until), k, OfDay(d, h, k))
  {
    AgentsMatch(h.dateOf(d.period.value).value, d.agents.value, |d.agents.value|, h, k);
  }

  lemma {:induction false} DaysMatch(ds: seq<RawDay>, n: nat, h: Host, since: int, until: int, k: Key)
    requires n <= |ds| && DaysOk(ds, n, h, since, until)
    ensures Match(DaysItems(ds, n, h, since, until), k, OfDays(ds, h, k, n))
  {
    if n == 0 {
      MatchNone(k);
    } else {
      DaysOkMore(ds, n - 1, h, since, until);
      DaysMatch(ds, n - 1, h, since, until, k);
      DayMatch(ds[n - 1], h, since, until, k);
      DaysMore(ds, n, h, since, until, k, DayItems(ds[n - 1], h, since, until), OfDay(ds[n - 1], h, k));
    }
  }

  lemma DaysMore(ds: seq<RawDay>, n: nat, h: Host, since: int, until: int, k: Key, more: seq<Entry<Key>>,
                 ms: seq<RawModel>)
    requires 0 < n <= |ds| && Match(DaysItems(ds, n - 1, h, since, until), k, OfDays(ds, h, k, n - 1))
    requires more == DayItems(ds[n - 1], h, since, until) && ms == OfDay(ds[n - 1], h, k) && Match(more, k, ms)
    ensures Match(DaysItems(ds, n, h, since, until), k, OfDays(ds, h, k, n))
  {
    MatchJoin(DaysItems(ds, n - 1, h, since, until), more, k, OfDays(ds, h, k, n - 1), ms);
  }

  // ---- what the rows are ----

  /** Every row holds the sums of the breakdowns of its day, source and model, its total is
      the sum of its categories, and its cost is theirs when each that used tokens has one. */
  lemma RowIsRaw(r: RawReport, h: Host, since: int, until: int, rows: seq<Usage>, i: nat)
    requires WellFormed(r, h, since, until) && RowsOf(ReportItems(r, h, since, until), rows, h) && i < |rows|
    ensures RowOfRaw(rows[i], Breakdowns(r, h, rows[i].key), h)
  {
    DaysMatch(r.daily.value, |r.daily.value|, h, since, until, rows[i].key);
    assert RowIs(ReportItems(r, h, since, until), rows[i], h);
  }

  /** Breakdown j of agent i of day d belongs to the row of the key. */
  predicate Belongs(r: RawReport, h: Host, k: Key, d: nat, i: nat, j: nat) {
    && r.daily.Some? && d < |r.daily.value| && IsDay(r.daily.value[d], h, k.date)
    && var agents := r.daily.value[d].agents;
       agents.Some? && i < |agents.value| && Of(agents.value[i], k, j)
  }

  /** Breakdown j of the agent has the key's name, and the agent its label. */
  predicate Of(a: RawAgent, k: Key, j: nat) {
    a.agent == Some(k.source) && a.models.Some? && j < |a.models.value| && a.models.value[j].name == Some(k.model)
  }

  lemma {:induction false} NamedIff(ms: seq<RawModel>, model: string, n: nat)
    requires n <= |ms|
    ensures OfName(ms, model, n) != [] <==> exists j: nat :: j < n && ms[j].name == Some(model)
  {
    if 0 < n {
      NamedIff(ms, model, n - 1);
    }
  }

  lemma AgentIff(a: RawAgent, k: Key)
    ensures OfAgent(a, k) != [] <==> exists j: nat :: Of(a, k, j)
  {
    if a.models.Some? {
      var ms := a.models.value;
      NamedIff(ms, k.model, |ms|);
      if j: nat :| j < |ms| && ms[j].name == Some(k.model) {
        assert a.agent == Some(k.source) ==> Of(a, k, j);
      }
    }
  }

  lemma {:induction false} AgentsIff(agents: seq<RawAgent>, k: Key, n: nat)
    requires n <= |agents|
    ensures OfAgents(agents, k, n) != [] <==> exists i: nat, j: nat :: i < n && Of(agents[i], k, j)
  {
    if 0 < n {
      AgentsIff(agents, k, n - 1);
      AgentIff(agents[n - 1], k);
    }
  }

  /** Where the n-th day's breakdowns come from. */
  lemma DaysAre(ds: seq<RawDay>, h: Host, k: Key, n: nat, before: seq<RawModel>, today: seq<RawModel>)
    requires 0 < n <= |ds| && before == OfDays(ds, h, k, n - 1) && today == OfDay(ds[n - 1], h, k)
    ensures OfDays(ds, h, k, n) == before + today
    ensures OfDays(ds, h, k, n) != [] <==> before != [] || today != []
  {
  }

  lemma {:induction false} DayCounts(ds: seq<RawDay>, h: Host, k: Key, n: nat, d: nat)
    requires d < n <= |ds| && OfDay(ds[d], h, k) != []
    ensures OfDays(ds, h, k, n) != []
  {
    DaysAre(ds, h, k, n, OfDays(ds, h, k, n - 1), OfDay(ds[n - 1], h, k));
    if d < n - 1 {
      DayCounts(ds, h, k, n - 1, d);
    }
  }

  lemma {:induction false} SomeDay(ds: seq<RawDay>, h: Host, k: Key, n: nat) returns (d: nat)
    requires n <= |ds| && OfDays(ds, h, k, n) != []
    ensures d < n && OfDay(ds[d], h, k) != []
  {
    DaysAre(ds, h, k, n, OfDays(ds, h, k, n - 1), OfDay(ds[n - 1], h, k));
    if OfDays(ds, h, k, n - 1) != [] {
      d := SomeDay(ds, h, k, n - 1);
    } else {
      d := n - 1;
    }
  }

  lemma ReportIff(r: RawReport, h: Host, k: Key)
    ensures Breakdowns(r, h, k) != [] <==> exists d: nat, i: nat, j: nat :: Belongs(r, h, k, d, i, j)
  {
    if r.daily.Some? {
      var ds := r.daily.value;
      if Breakdowns(r, h, k) != [] {
        var d := SomeDay(ds, h, k, |ds|);
        DayIff(r, h, k, d);
      }
      if d: nat, i: nat, j: nat :| Belongs(r, h, k, d, i, j) {
        DayIff(r, h, k, d);
        DayCounts(ds, h, k, |ds|, d);
      }
    }
  }

  lemma DayIff(r: RawReport, h: Host, k: Key, d: nat)
    requires r.daily.Some? && d < |r.daily.value|
    ensures OfDay(r.daily.value[d], h, k) != [] <==> exists i: nat, j: nat :: Belongs(r, h, k, d, i, j)
  {
    var day := r.daily.value[d];
    if day.agents.Some? {
      var agents := day.agents.value;
      AgentsIff(agents, k, |agents|);
      forall i: nat, j: nat | i < |agents| && IsDay(day, h, k.date)
        ensures Belongs(r, h, k, d, i, j) <==> Of(agents[i], k, j) {
      }
    }
  }

  /** There is a row of a day, source and model exactly when a day of that date has an agent
      of that label with a breakdown of that name; and never two. */
  lemma RowsAreRaw(r: RawReport, h: Host, since: int, until: int, rows: seq<Usage>, k: Key)
    requires WellFormed(r, h, since, until) && RowsOf(ReportItems(r, h, since, until), rows, h)
    ensures (exists i: nat :: i < |rows| && rows[i].key == k) <==>
            exists d: nat, i: nat, j: nat :: Belongs(r, h, k, d, i, j)
    ensures forall i: nat, j: nat :: i < j < |rows| ==> rows[i].key != rows[j].key
  {
    DaysMatch(r.daily.value, |r.daily.value|, h, since, until, k);
    ReportIff(r, h, k);
    assert forall i: nat :: i < |rows| ==> Keys(rows)[i] == rows[i].key;
    assert Occurs(ReportItems(r, h, since, until), k) <==> k in Keys(rows);
  }

  // ---- which reports are accepted ----

  function OfAllAgents(agents: seq<RawAgent>, c: Column, n: nat): nat
    requires n <= |agents|
  {
    if n == 0 then 0 else OfAllAgents(agents, c, n - 1) + InTotals(c, agents[n - 1].totals)
  }

  function OfAllDays(ds: seq<RawDay>, c: Column, n: nat): nat
    requires n <= |ds|
  {
    if n == 0 then 0 else OfAllDays(ds, c, n - 1) + InTotals(c, ds[n - 1].totals)
  }

  predicate ModelComplete(m: RawModel, h: Host) {
    && m.name.Some? && HasText(m.name.value) && m.cost.Some? && 0.0 <= m.cost.value <= h.maxCost
    && m.input.Some? && m.output.Some? && m.creation.Some? && m.read.Some?
  }

  predicate TotalsComplete(t: RawTotals, h: Host) {
    && t.input.Some? && t.output.Some? && t.creation.Some? && t.read.Some? && t.total.Some?
    && t.cost.Some? && 0.0 <= t.cost.value <= h.maxCost
    && InTotals(All, t) == InTotals(Input, t) + InTotals(Output, t) + InTotals(Creation, t) + InTotals(Read, t)
  }

  predicate Untrimmed(s: string) { s != "" && !IsSpace(s[0]) && !IsSpace(s[|s| - 1]) }

  /** The agent's totals are the sums of its breakdowns, and its label has no white space
      around it; */
  predicate AgentAddsUp(a: RawAgent, h: Host) {
    && TotalsComplete(a.totals, h) && a.models.Some? && a.modelsUsed.Some?
    && a.agent.Some? && Untrimmed(a.agent.value)
    && (forall j: nat :: j < |a.models.value| ==> ModelComplete(a.models.value[j], h))
    && forall c: Column :: InTotals(c, a.totals) == Amount(a.models.value, c, |a.models.value|)
  }

  /** the day's those of its agents; */
  ghost predicate DayAddsUp(d: RawDay, h: Host, since: int, until: int) {
    && TotalsComplete(d.totals, h) && d.agents.Some? && d.modelsUsed.Some? && d.agent == Some("all")
    && d.period.Some? && (exists date :: since <= date <= until && h.dateOf(d.period.value) == Some(date))
    && (forall i: nat :: i < |d.agents.value| ==> AgentAddsUp(d.agents.value[i], h))
    && forall c: Column :: InTotals(c, d.totals) == OfAllAgents(d.agents.value, c, |d.agents.value|)
  }

  /** and the report's those of its days. */
  ghost predicate AddsUp(r: RawReport, h: Host, since: int, until: int) {
    && r.daily.Some? && r.totals.Some? && TotalsComplete(r.totals.value, h)
    && (forall i: nat :: i < |r.daily.value| ==> DayAddsUp(r.daily.value[i], h, since, until))
    && (forall c: Column :: InTotals(c, r.totals.value) == OfAllDays(r.daily.value, c, |r.daily.value|))
    && forall k :: Cost(Breakdowns(r, h, k), |Breakdowns(r, h, k)|) <= h.maxCost
  }

  lemma SameVec(v: Vec, t: RawTotals)
    requires Whole(t)
    ensures v == Vector(t) <==> forall c: Column :: InVec(c, v) == InTotals(c, t)
  {
    if forall c: Column :: InVec(c, v) == InTotals(c, t) {
      assert InVec(Input, v) == InTotals(Input, t) && InVec(Output, v) == InTotals(Output, t);
      assert InVec(Creation, v) == InTotals(Creation, t) && InVec(Read, v) == InTotals(Read, t);
      assert InVec(All, v) == InTotals(All, t);
    }
  }

  lemma {:induction false} ModelsSum(date: int, source: string, ms: seq<RawModel>, n: nat, h: Host, c: Column)
    requires n <= |ms| && ModelsOk(ms, |ms|, h)
    ensures InVec(c, SumAll(Items(date, source, ms, n, h))) == Amount(ms, c, n)
  {
    if 0 < n {
      ModelsSum(date, source, ms, n - 1, h, c);
      var e := Item(date, source, ms[n - 1], h);
      SumJoin(Items(date, source, ms, n - 1, h), [e]);
      SumOne(e);
    }
  }

  lemma AmountGrows(ms: seq<RawModel>, c: Column, i: nat, n: nat)
    requires i < n <= |ms|
    ensures InModel(c, ms[i]) <= Amount(ms, c, n)
  {
  }

  /** A breakdown that is complete fits, when the sum of all of them is a count. */
  lemma ModelFits(ms: seq<RawModel>, i: nat, h: Host)
    requires i < |ms| && Amount(ms, All, |ms|) < Limit
    ensures ModelComplete(ms[i], h) <==> ModelOk(ms[i], h)
  {
    AmountGrows(ms, All, i, |ms|);
    if ms[i].name.Some? {
      TrimmedAway(ms[i].name.value);
    }
  }

  lemma UntrimmedIff(s: string)
    ensures s != "" && Trim(s) == s <==> Untrimmed(s)
  {
    TrimIs(s);
    var i: nat, j: nat :| Middle(s, i, j) && Trim(s) == s[i..j];
    assert s != "" && Trim(s) == s ==> i == 0 && j == |s|;
  }

  lemma TotalsIff(t: RawTotals, h: Host)
    ensures TotalsOk(t, h) <==> TotalsComplete(t, h)
  {
  }

  lemma AgentAccepted(date: int, a: RawAgent, h: Host)
    ensures AgentOk(date, a, h) <==> AgentAddsUp(a, h)
  {
    TotalsIff(a.totals, h);
    if a.agent.Some? {
      UntrimmedIff(a.agent.value);
    }
    if Labelled(a, h) {
      var ms := a.models.value;
      if AgentAddsUp(a, h) {
        assert InTotals(All, a.totals) == Amount(ms, All, |ms|);
      }
      if ModelsOk(ms, |ms|, h) {
        forall c: Column ensures InVec(c, SumAll(AgentItems(date, a, h))) == Amount(ms, c, |ms|) {
          ModelsSum(date, a.agent.value, ms, |ms|, h, c);
        }
        SameVec(SumAll(AgentItems(date, a, h)), a.totals);
        if AgentOk(date, a, h) {
          assert InTotals(All, a.totals) == Amount(ms, All, |ms|);
        }
      }
      if Amount(ms, All, |ms|) < Limit {
        forall i: nat | i < |ms| ensures ModelComplete(ms[i], h) <==> ModelOk(ms[i], h) {
          ModelFits(ms, i, h);
        }
      }
    }
  }

  lemma {:induction false} AgentsSum(date: int, agents: seq<RawAgent>, n: nat, h: Host, c: Column)
    requires n <= |agents| && AgentsOk(date, agents, n, h)
    ensures InVec(c, SumAll(AgentsItems(date, agents, n, h))) == OfAllAgents(agents, c, n)
  {
    if 0 < n {
      AgentsOkMore(date, agents, n - 1, h);
      AgentsSum(date, agents, n - 1, h, c);
      var part := AgentItems(date, agents[n - 1], h);
      SumJoin(AgentsItems(date, agents, n - 1, h), part);
      SameVec(SumAll(part), agents[n - 1].totals);
    }
  }

  lemma DayAccepted(d: RawDay, h: Host, since: int, until: int)
    ensures DayOk(d, h, since, until) <==> DayAddsUp(d, h, since, until)
  {
    TotalsIff(d.totals, h);
    if Dated(d, h, since, until) {
      var date, agents := h.dateOf(d.period.value).value, d.agents.value;
      forall i: nat | i < |agents| ensures AgentOk(date, agents[i], h) <==> AgentAddsUp(agents[i], h) {
        AgentAccepted(date, agents[i], h);
      }
      if AgentsOk(date, agents, |agents|, h) {
        forall c: Column
          ensures InVec(c, SumAll(DayItems(d, h, since, until))) == OfAllAgents(agents, c, |agents|) {
          AgentsSum(date, agents, |agents|, h, c);
        }
        SameVec(SumAll(DayItems(d, h, since, until)), d.totals);
      }
    }
  }

  lemma {:induction false} DaysSum(ds: seq<RawDay>, n: nat, h: Host, since: int, until: int, c: Column)
    requires n <= |ds| && DaysOk(ds, n, h, since, until)
    ensures InVec(c, SumAll(DaysItems(ds, n, h, since, until))) == OfAllDays(ds, c, n)
  {
    if 0 < n {
      DaysOkMore(ds, n - 1, h, since, until);
      DaysSum(ds, n - 1, h, since, until, c);
      var part := DayItems(ds[n - 1], h, since, until);
      SumJoin(DaysItems(ds, n - 1, h, since, until), part);
      SameVec(SumAll(part), ds[n - 1].totals);
    }
  }

  /** The reports accepted are exactly the complete ones whose agents, days and totals add
      up, column by column, and whose rows have a finite cost. */
  lemma AcceptedIff(r: RawReport, h: Host, since: int, until: int)
    ensures WellFormed(r, h, since, until) <==> AddsUp(r, h, since, until)
  {
    if r.daily.Some? && r.totals.Some? {
      var ds := r.daily.value;
      TotalsIff(r.totals.value, h);
      EachDayAccepted(ds, h, since, until);
      if TotalsOk(r.totals.value, h) && DaysOk(ds, |ds|, h, since, until) {
        ReportAccepted(r, h, since, until);
      }
    }
  }

  lemma EachDayAccepted(ds: seq<RawDay>, h: Host, since: int, until: int)
    ensures DaysOk(ds, |ds|, h, since, until) <==> forall i: nat :: i < |ds| ==> DayAddsUp(ds[i], h, since, until)
  {
    forall i: nat | i < |ds| ensures DayOk(ds[i], h, since, until) <==> DayAddsUp(ds[i], h, since, until) {
      DayAccepted(ds[i], h, since, until);
    }
  }

  lemma ReportAccepted(r: RawReport, h: Host, since: int, until: int)
    requires r.daily.Some? && r.totals.Some? && Whole(r.totals.value)
    requires DaysOk(r.daily.value, |r.daily.value|, h, since, until)
    ensures SumAll(ReportItems(r, h, since, until)) == Vector(r.totals.value) <==>
            forall c: Column :: InTotals(c, r.totals.value) == OfAllDays(r.daily.value, c, |r.daily.value|)
    ensures CostsFinite(ReportItems(r, h, since, until), h) <==>
            forall k :: Cost(Breakdowns(r, h, k), |Breakdowns(r, h, k)|) <= h.maxCost
  {
    var ds, es := r.daily.value, ReportItems(r, h, since, until);
    forall c: Column ensures InVec(c, SumAll(es)) == OfAllDays(ds, c, |ds|) {
      DaysSum(ds, |ds|, h, since, until, c);
    }
    SameVec(SumAll(es), r.totals.value);
    forall k ensures CostFor(es, k) == Cost(Breakdowns(r, h, k), |Breakdowns(r, h, k)|) {
      DaysMatch(ds, |ds|, h, since, until, k);
    }
  }
}
