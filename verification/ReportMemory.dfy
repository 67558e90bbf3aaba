/**
 The cache of provider reports and what each stored report carries forward from the one
 before: the last complete snapshot, and when each provider was last tried and last
 answered.
 */
module ReportMemory {
  import opened Wrappers

  const MaxEntries := 16

  datatype ReportedLeg = Anthropic | Codex | DeepSeek

  datatype Status = OK | Partial | Error

  datatype Snapshot = Snapshot(lastSuccess: Option<nat>, quota: Option<int>, history: Option<int>)

  /** One provider's section; quota and history stand for the measurements themselves. */
  datatype Provider = Provider(
    leg: ReportedLeg, status: Status, lastSuccess: Option<nat>, quota: Option<int>, history: Option<int>,
    errors: nat, lastComplete: Option<Snapshot>, discard: bool)

  datatype Report = Report(providers: seq<Provider>, ended: nat)

  datatype Memory = Memory(lastAttempt: nat, lastSuccess: Option<nat>)

  datatype Entry = Entry(report: Report, created: nat, memory: map<ReportedLeg, Memory>)

  type Cache = map<string, Entry>

  // ---- an attempt ----

  /** A provider's section as collected. */
  function Built(leg: ReportedLeg, ended: nat, quota: Option<int>, history: Option<int>, errors: nat): Provider {
    var status :=
      if quota.Some? && history.Some? && errors == 0 then OK
      else if quota.Some? || history.Some? then Partial
      else Error;
    Provider(leg, status, if status == Error then None else Some(ended), quota, history, errors, None, false)
  }

  function Marked(p: Provider): Provider {
    if p.leg != Codex then p
    else
      var q := p.(quota := None, lastComplete := None, discard := true, errors := p.errors + 1);
      if p.history.Some? then q.(status := Partial) else q.(status := Error, lastSuccess := None)
  }

  method MarkCodexUnavailable(r: Report) returns (m: Report)
    ensures m.ended == r.ended && |m.providers| == |r.providers|
    ensures forall i: nat :: i < |r.providers| ==> m.providers[i] == Marked(r.providers[i])
  {
    var ps := r.providers;
    for i := 0 to |ps|
      invariant |ps| == |r.providers|
      invariant forall j: nat :: j < |ps| ==> ps[j] == if j < i then Marked(r.providers[j]) else r.providers[j]
    {
      var p := ps[i];
      if p.leg != Codex {
        continue;
      }
      p := p.(quota := None, lastComplete := None, discard := true, errors := p.errors + 1);
      if p.history.Some? {
        p := p.(status := Partial);
      } else {
        p := p.(status := Error, lastSuccess := None);
      }
      ps := ps[i := p];
    }
    return r.(providers := ps);
  }

  /** One section for each leg, in order. */
  predicate Legs(r: Report) {
    |r.providers| == 3 && r.providers[0].leg == Anthropic && r.providers[1].leg == Codex &&
        r.providers[2].leg == DeepSeek
  }

  function Slot(leg: ReportedLeg): nat {
    match leg case Anthropic => 0 case Codex => 1 case DeepSeek => 2
  }

  function Section(r: Report, leg: ReportedLeg): Provider
    requires Legs(r)
  {
    r.providers[Slot(leg)]
  }

  /** A report as collected and perhaps marked, before anything is carried forward. */
  predicate Fresh(r: Report) {
    Legs(r) && forall i: nat :: i < 3 ==>
        r.providers[i].lastComplete == None && (r.providers[i].discard ==> r.providers[i].status != OK)
  }

  lemma CollectedIsFresh(ended: nat, a: Provider, c: Provider, d: Provider, marked: bool)
    requires exists q, h, e :: a == Built(Anthropic, ended, q, h, e)
    requires exists q, h, e :: c == Built(Codex, ended, q, h, e)
    requires exists q, h, e :: d == Built(DeepSeek, ended, q, h, e)
    ensures Fresh(Report(if marked then [Marked(a), Marked(c), Marked(d)] else [a, c, d], ended))
  {
  }

  // ---- storing it ----

  function Complete(p: Provider): Snapshot { Snapshot(p.lastSuccess, p.quota, p.history) }

  /** What section p takes over from the first n sections of the report before. */
  function Carried(p: Provider, olds: seq<Provider>, n: nat): (r: Provider)
    requires n <= |olds|
    ensures r == p.(lastComplete := r.lastComplete)
  {
    if n == 0 then p
    else
      var q, previous := Carried(p, olds, n - 1), olds[n - 1];
      if previous.leg != p.leg || (previous.status != OK && previous.lastComplete.None?) then q
      else q.(lastComplete := if previous.lastComplete.Some? then previous.lastComplete else Some(Complete(previous)))
  }

  function Kept(p: Provider, before: Option<Entry>): Provider {
    if before.None? || p.status == OK || p.discard then p
    else Carried(p, before.value.report.providers, |before.value.report.providers|)
  }

  function Recalled(p: Provider, ended: nat, before: Option<Entry>): Memory {
    var was := if before.Some? && p.leg in before.value.memory then before.value.memory[p.leg].lastSuccess else None;
    Memory(ended, if p.status != Error then Some(ended) else was)
  }

  function Find(c: Cache, key: string): Option<Entry> {
    if key in c then Some(c[key]) else None
  }

  function Stored(c: Cache, key: string, r: Report, now: nat): Entry
    requires Legs(r)
  {
    var before := Find(c, key);
    Entry(
      r.(providers := seq(3, i requires 0 <= i < 3 => Kept(r.providers[i], before))),
      now,
      map leg | leg in {Anthropic, Codex, DeepSeek} :: Recalled(Section(r, leg), r.ended, before))
  }

  ghost predicate Oldest(c: Cache, victim: string) {
    victim in c && forall k :: k in c ==> c[victim].created <= c[k].created
  }

  /** victim is the entry dropped to make room, when the cache is full; a key that is
      already there makes room as well. */
  function Store(c: Cache, key: string, r: Report, now: nat, victim: string): Cache
    requires Legs(r)
  {
    (if |c| >= MaxEntries then c - {victim} else c)[key := Stored(c, key, r, now)]
  }

  /** A clock that went back makes no entry older than new. */
  function Age(e: Entry, now: nat): nat {
    if now < e.created then 0 else now - e.created
  }

  class Handler {
    var cache: Cache
    const ttl: nat

    constructor (ttl: nat)
      ensures cache == map[] && this.ttl == ttl
    {
      cache := map[];
      this.ttl := ttl;
    }

    /** The entry a request is served from, if it is young enough. */
    method Cached(key: string, now: nat, allowExpired: bool) returns (e: Option<Entry>)
      ensures e.Some? <==> key in cache && (allowExpired || Age(cache[key], now) < ttl)
      ensures e.Some? ==> e.value == cache[key]
    {
      if key !in cache {
        return None;
      }
      var age: int := now - cache[key].created;
      if age < 0 {
        age := 0;
      }
      if !allowExpired && age >= ttl {
        return None;
      }
      return Some(cache[key]);
    }

    method Recall(r: Report, before: Option<Entry>) returns (memory: map<ReportedLeg, Memory>)
      requires Legs(r)
      ensures memory == map leg | leg in {Anthropic, Codex, DeepSeek} :: Recalled(Section(r, leg), r.ended, before)
    {
      memory := map[];
      for i := 0 to 3
        invariant forall leg :: leg in memory <==> Slot(leg) < i
        invariant forall leg :: leg in memory ==> memory[leg] == Recalled(Section(r, leg), r.ended, before)
      {
        var p := r.providers[i];
        var lastSuccess :=
          if before.Some? && p.leg in before.value.memory then before.value.memory[p.leg].lastSuccess else None;
        if p.status != Error {
          lastSuccess := Some(r.ended);
        }
        memory := memory[p.leg := Memory(r.ended, lastSuccess)];
      }
    }

    method CarryForward(r: Report, before: Option<Entry>) returns (ps: seq<Provider>)
      requires Legs(r)
      ensures ps == seq(3, i requires 0 <= i < 3 => Kept(r.providers[i], before))
    {
      ps := r.providers;
      if before.None? {
        return;
      }
      var olds := before.value.report.providers;
      for i := 0 to 3
        invariant |ps| == 3 && forall j: nat :: j < 3 ==>
                  ps[j] == if j < i then Kept(r.providers[j], before) else r.providers[j]
      {
        if ps[i].status == OK || ps[i].discard {
          continue;
        }
        var p := ps[i];
        for n := 0 to |olds|
          invariant p == Carried(r.providers[i], olds, n) && p.leg == r.providers[i].leg
        {
          var previous := olds[n];
          if previous.leg != p.leg || (previous.status != OK && previous.lastComplete.None?) {
            continue;
          }
          if previous.lastComplete.Some? {
            p := p.(lastComplete := previous.lastComplete);
            continue;
          }
          p := p.(lastComplete := Some(Snapshot(previous.lastSuccess, previous.quota, previous.history)));
        }
        ps := ps[i := p];
      }
    }

    method DropOldest() returns (victim: string)
      requires |cache| >= MaxEntries && "" !in cache
      modifies this`cache
      ensures Oldest(old(cache), victim) && cache == old(cache) - {victim}
    {
      victim := "";
      var oldest := 0;
      var rest := cache.Keys;
      while rest != {}
        invariant rest <= cache.Keys
        invariant victim == "" ==> rest == cache.Keys
        invariant victim != "" ==> victim in cache && oldest == cache[victim].created
        invariant victim != "" ==> forall k :: k in cache && k !in rest ==> oldest <= cache[k].created
      {
        var k :| k in rest;
        rest := rest - {k};
        if victim == "" || cache[k].created < oldest {
          victim, oldest := k, cache[k].created;
        }
      }
      cache := cache - {victim};
    }

    /** The locked section of storeAttempt; now is read before it. */
    method StoreAttempt(key: string, r: Report, now: nat) returns (e: Entry, ghost victim: string)
      requires Legs(r) && "" !in cache && key != ""
      modifies this`cache
      ensures |old(cache)| >= MaxEntries ==> Oldest(old(cache), victim)
      ensures cache == Store(old(cache), key, r, now, victim) && e == cache[key] && "" !in cache
    {
      var before := Find(cache, key);
      var memory := Recall(r, before);
      var ps := CarryForward(r, before);
      e := Entry(r.(providers := ps), now, memory);
      victim := "";
      if |cache| >= MaxEntries {
        victim := DropOldest();
      }
      cache := cache[key := e];
    }
  }

  // ---- what every run remembers ----

  datatype Action = Attempt(key: string, report: Report, now: nat, victim: string)

  /** history holds, for each key in the cache, the reports stored under it since it was
      last absent. */
  datatype System = System(cache: Cache, history: map<string, seq<Report>>)

  predicate Possible(s: System, a: Action) {
    Fresh(a.report) && (|s.cache| >= MaxEntries ==> a.victim in s.cache)
  }

  function Step(s: System, a: Action): System {
    if !Possible(s, a) then s
    else
      var was := if a.key in s.cache && a.key in s.history then s.history[a.key] else [];
      var rest := if |s.cache| >= MaxEntries then s.history - {a.victim} else s.history;
      System(Store(s.cache, a.key, a.report, a.now, a.victim), rest[a.key := was + [a.report]])
  }

  function Run(s: System, run: seq<Action>): System
    decreases run
  {
    if run == [] then s else Run(Step(s, run[0]), run[1..])
  }

  ghost predicate AllFresh(h: seq<Report>) { forall i: nat :: i < |h| ==> Fresh(h[i]) }

  /** The most recent complete measurement among the first n reports, unless a later one
      says to discard it. */
  ghost function LastComplete(h: seq<Report>, n: nat, leg: ReportedLeg): Option<Snapshot>
    requires n <= |h| && AllFresh(h)
  {
    if n == 0 then None
    else
      var p := Section(h[n - 1], leg);
      if p.status == OK then Some(Complete(p)) else if p.discard then None else LastComplete(h, n - 1, leg)
  }

  /** When the most recent of the first n reports that was not an error ended. */
  ghost function LastAnswer(h: seq<Report>, n: nat, leg: ReportedLeg): Option<nat>
    requires n <= |h| && AllFresh(h)
  {
    if n == 0 then None
    else if Section(h[n - 1], leg).status != Error then Some(h[n - 1].ended)
    else LastAnswer(h, n - 1, leg)
  }

  /** What an entry with this history says of one leg: its own last attempt, the retained
      snapshot, and the two times. */
  ghost predicate LegRemembers(e: Entry, h: seq<Report>, leg: ReportedLeg)
    requires h != [] && AllFresh(h) && Legs(e.report)
  {
    var p, last := Section(e.report, leg), Section(h[|h| - 1], leg);
    && p == last.(lastComplete := if last.status == OK then None else LastComplete(h, |h|, leg))
    && leg in e.memory && e.memory[leg] == Memory(h[|h| - 1].ended, LastAnswer(h, |h|, leg))
  }

  ghost predicate Remembers(e: Entry, h: seq<Report>) {
    h != [] && AllFresh(h) && Legs(e.report) && forall leg :: LegRemembers(e, h, leg)
  }

  ghost predicate Inv(s: System) {
    && |s.cache| <= MaxEntries
    && s.cache.Keys == s.history.Keys
    && forall k :: k in s.cache ==> Remembers(s.cache[k], s.history[k])
  }

  lemma {:induction false} LastBefore(h: seq<Report>, r: Report, n: nat, leg: ReportedLeg)
    requires n <= |h| && AllFresh(h) && AllFresh(h + [r])
    ensures LastComplete(h + [r], n, leg) == LastComplete(h, n, leg) &&
            LastAnswer(h + [r], n, leg) == LastAnswer(h, n, leg)
  {
    if 0 < n {
      LastBefore(h, r, n - 1, leg);
      assert (h + [r])[n - 1] == h[n - 1];
    }
  }

  lemma CarriedIs(p: Provider, r: Report)
    requires Legs(r) && p.lastComplete == None
    ensures var previous := Section(r, p.leg);
            Carried(p, r.providers, 3) ==
              p.(lastComplete := if previous.lastComplete.Some? then previous.lastComplete
                                 else if previous.status == OK then Some(Complete(previous)) else None)
  {
    var ps := r.providers;
    var taken := if Section(r, p.leg).lastComplete.Some? then Section(r, p.leg).lastComplete
                 else if Section(r, p.leg).status == OK then Some(Complete(Section(r, p.leg))) else None;
    assert Carried(p, ps, 0) == p;
    assert Carried(p, ps, 1) == if p.leg == Anthropic then p.(lastComplete := taken) else p;
    assert Carried(p, ps, 2) == if p.leg != DeepSeek then p.(lastComplete := taken) else p;
  }

  lemma StoredFirst(r: Report, now: nat, c: Cache, key: string)
    requires Fresh(r) && key !in c
    ensures Remembers(Stored(c, key, r, now), [r])
  {
    var e, h := Stored(c, key, r, now), [r];
    assert AllFresh(h) && h[0] == r;
    forall leg ensures LegRemembers(e, h, leg) {
      assert Section(e.report, leg) == Section(r, leg);
      assert LastComplete(h, 1, leg) == (
          if Section(r, leg).status == OK then Some(Complete(Section(r, leg))) else None);
      assert LastAnswer(h, 1, leg) == if Section(r, leg).status != Error then Some(r.ended) else None;
    }
  }

  lemma LegNext(r: Report, now: nat, c: Cache, key: string, h: seq<Report>, leg: ReportedLeg)
    requires Fresh(r) && key in c && h != [] && AllFresh(h) && AllFresh(h + [r])
    requires Legs(c[key].report) && LegRemembers(c[key], h, leg)
    ensures var e := Stored(c, key, r, now); Legs(e.report) && LegRemembers(e, h + [r], leg)
  {
    assert (h + [r])[|h|] == r;
    LastBefore(h, r, |h|, leg);
    CarriedIs(Section(r, leg), c[key].report);
  }

  lemma StoredNext(r: Report, now: nat, c: Cache, key: string, h: seq<Report>)
    requires Fresh(r) && key in c && Remembers(c[key], h)
    ensures Remembers(Stored(c, key, r, now), h + [r])
  {
    var e, g := Stored(c, key, r, now), h + [r];
    assert AllFresh(g) by {
      forall i: nat | i < |g| ensures Fresh(g[i]) {
        assert g[i] == if i < |h| then h[i] else r;
      }
    }
    assert g[|h|] == r;
    forall leg ensures LegRemembers(e, g, leg) {
      LegNext(r, now, c, key, h, leg);
    }
  }

  lemma StepStores(s: System, a: Action)
    requires Inv(s) && Possible(s, a)
    ensures var n := Step(s, a); a.key in n.cache && a.key in n.history && Remembers(n.cache[a.key], n.history[a.key])
  {
    if a.key in s.cache {
      StoredNext(a.report, a.now, s.cache, a.key, s.history[a.key]);
    } else {
      StoredFirst(a.report, a.now, s.cache, a.key);
      assert [] + [a.report] == [a.report];
    }
  }

  lemma StepKeeps(s: System, a: Action)
    requires Inv(s)
    ensures Inv(Step(s, a))
  {
    if Possible(s, a) {
      StepStores(s, a);
      StoreSize(s.cache, a.key, a.report, a.now, a.victim);
    }
  }

  lemma StoreSize(c: Cache, key: string, r: Report, now: nat, victim: string)
    requires Legs(r) && |c| <= MaxEntries && (|c| >= MaxEntries ==> victim in c)
    ensures |Store(c, key, r, now, victim)| <= MaxEntries
  {
    var rest := if |c| >= MaxEntries then c - {victim} else c;
    assert |c| == |c.Keys| && |rest| == |rest.Keys|;
    assert |c| >= MaxEntries ==> rest.Keys == c.Keys - {victim};
    var n := Store(c, key, r, now, victim);
    assert n.Keys == rest.Keys + {key};
    assert |n| == |n.Keys|;
  }

  /** After any run of stored attempts: at most 16 entries; and for each key still there,
      each provider's section is its last attempt with the most recent complete
      measurement since the last discard beside it, and its two times are the end of the
      last attempt and of the last one that was not an error. */
  lemma {:induction false} Memories(s: System, run: seq<Action>)
    requires Inv(s)
    ensures Inv(Run(s, run))
    decreases run
  {
    if run != [] {
      StepKeeps(s, run[0]);
      Memories(Step(s, run[0]), run[1..]);
    }
  }

  lemma FromEmpty(run: seq<Action>)
    ensures Inv(Run(System(map[], map[]), run))
  {
    Memories(System(map[], map[]), run);
  }

  // ---- who is evicted ----

  /** Attempts under other keys, none earlier than at, each dropping an oldest entry. */
  ghost predicate Later(c: Cache, run: seq<Action>, key: string, at: nat)
    decreases run
  {
    run != [] ==>
      && Legs(run[0].report) && run[0].key != key && at <= run[0].now
      && (|c| >= MaxEntries ==> Oldest(c, run[0].victim))
      && Later(Store(c, run[0].key, run[0].report, run[0].now, run[0].victim), run[1..], key, at)
  }

  ghost function StoreAll(c: Cache, run: seq<Action>, key: string, at: nat): Cache
    requires Later(c, run, key, at)
    decreases run
  {
    if run == [] then c
    else StoreAll(Store(c, run[0].key, run[0].report, run[0].now, run[0].victim), run[1..], key, at)
  }

  /** Every other entry is older, but for those in since. */
  ghost predicate Older(c: Cache, key: string, since: set<string>) {
    key in c && forall k :: k in c && k != key && k !in since ==> c[k].created < c[key].created
  }

  lemma NotOldest(c: Cache, key: string, since: set<string>)
    requires |c| >= MaxEntries && Older(c, key, since) && |since| + 1 < MaxEntries
    ensures !Oldest(c, key)
  {
    assert |c.Keys| == |c|;
    if c.Keys <= since + {key} {
      Subset(c.Keys, since + {key});
    }
    var k :| k in c && k !in since + {key};
    assert c[k].created < c[key].created;
  }

  lemma {:induction false} SurvivesFrom(c: Cache, run: seq<Action>, key: string, since: set<string>)
    requires |c| <= MaxEntries && Older(c, key, since) && key !in since && |since| + |run| < MaxEntries
    requires Later(c, run, key, c[key].created)
    ensures key in StoreAll(c, run, key, c[key].created) && StoreAll(c, run, key, c[key].created)[key] == c[key]
    decreases run
  {
    if run != [] {
      var a := run[0];
      if |c| >= MaxEntries {
        NotOldest(c, key, since);
      }
      StoreSize(c, a.key, a.report, a.now, a.victim);
      SurvivesFrom(Store(c, a.key, a.report, a.now, a.victim), run[1..], key, since + {a.key});
    }
  }

  lemma {:induction false} Subset(a: set<string>, b: set<string>)
    requires a <= b
    ensures |a| <= |b|
  {
    assert b == a + (b - a);
  }

  /** The other keys whose reports are not older. */
  ghost function NotOlder(c: Cache, key: string): set<string>
    requires key in c
  {
    set k | k in c && k != key && c[key].created <= c[k].created
  }

  /** A report outlives as many attempts under other keys as there is room beside it and
      those not older: the next 15, when it is the latest. */
  lemma Survives(c: Cache, run: seq<Action>, key: string)
    requires key in c && |c| <= MaxEntries && |NotOlder(c, key)| + |run| < MaxEntries
    requires Later(c, run, key, c[key].created)
    ensures key in StoreAll(c, run, key, c[key].created) && StoreAll(c, run, key, c[key].created)[key] == c[key]
  {
    SurvivesFrom(c, run, key, NotOlder(c, key));
  }

  // ---- refreshing ----

  /** An attempt under a key that is already there drops no report if and only if the cache
      is not full or the key's own report is the one chosen to go. */
  lemma RefreshKeeps(c: Cache, key: string, r: Report, now: nat, victim: string)
    requires Legs(r) && |c| <= MaxEntries && key in c && (|c| >= MaxEntries ==> Oldest(c, victim))
    ensures c.Keys <= Store(c, key, r, now, victim).Keys <==> |c| < MaxEntries || victim == key
  {
    var n := Store(c, key, r, now, victim);
    if |c| < MaxEntries || victim == key {
      assert n.Keys == c.Keys;
    } else {
      assert victim in c.Keys && victim !in n.Keys;
    }
  }

  function Stroke(n: nat): (s: string)
    ensures |s| == n
  {
    if n == 0 then "" else Stroke(n - 1) + "|"
  }

  /** n reports, each stored after the one before. */
  function Stack(r: Report, n: nat): Cache {
    if n == 0 then map[] else Stack(r, n - 1)[Stroke(n) := Entry(r, n, map[])]
  }

  lemma {:induction false} StackIs(r: Report, n: nat)
    ensures |Stack(r, n)| == n
    ensures forall k :: k in Stack(r, n) ==> 1 <= |k| <= n && Stack(r, n)[k].created == |k|
    ensures forall j: nat :: 1 <= j <= n ==> Stroke(j) in Stack(r, n)
  {
    if 0 < n {
      var c := Stack(r, n - 1);
      StackIs(r, n - 1);
      assert Stroke(n) !in c;
      assert Stack(r, n).Keys == c.Keys + {Stroke(n)};
      assert |Stack(r, n)| == |Stack(r, n).Keys| && |c| == |c.Keys|;
    }
  }

  lemma StoreKeys(c: Cache, key: string, r: Report, now: nat, victim: string)
    requires Legs(r)
    ensures Store(c, key, r, now, victim).Keys == (if |c| >= MaxEntries then c.Keys - {victim} else c.Keys) + {key}
  {
  }

  /** An input that loses one: in a full cache the second oldest report is refreshed, and
      the oldest goes. */
  lemma RefreshDrops(r: Report)
    requires Legs(r)
    ensures var c := Stack(r, MaxEntries);
            && |c| == MaxEntries && Stroke(2) in c && Stroke(1) in c && Oldest(c, Stroke(1))
            && Store(c, Stroke(2), r, MaxEntries + 1, Stroke(1)).Keys == c.Keys - {Stroke(1)}
  {
    var c := Stack(r, MaxEntries);
    StackIs(r, MaxEntries);
    StoreKeys(c, Stroke(2), r, MaxEntries + 1, Stroke(1));
    assert |Stroke(1)| == 1 && |Stroke(2)| == 2;
    assert c.Keys - {Stroke(1)} + {Stroke(2)} == c.Keys - {Stroke(1)};
  }
}
