/**
 What a stored report shows, measurement by measurement: which attempt a retained snapshot
 comes from, what its numbers are, and that a revoked account leaves none behind.
 */
module ReportLaws {
  import opened ReportMemory
  import opened Wrappers

  /** Of the first n attempts i succeeded in full, and none after it did or called for the
      snapshot to go. */
  ghost predicate LastOk(h: seq<Report>, n: nat, leg: ReportedLeg, i: nat)
    requires n <= |h| && AllFresh(h)
  {
    && i < n && Section(h[i], leg).status == OK
    && forall j: nat :: i < j < n ==> Section(h[j], leg).status != OK && !Section(h[j], leg).discard
  }

  /** Of the first n attempts i answered, and none after it did. */
  ghost predicate LastAnswered(h: seq<Report>, n: nat, leg: ReportedLeg, i: nat)
    requires n <= |h| && AllFresh(h)
  {
    i < n && Section(h[i], leg).status != Error && forall j: nat :: i < j < n ==> Section(h[j], leg).status == Error
  }

  lemma LastOkMore(h: seq<Report>, n: nat, leg: ReportedLeg, i: nat)
    requires 0 < n <= |h| && AllFresh(h)
    ensures LastOk(h, n, leg, i) <==>
            var p := Section(h[n - 1], leg);
            if p.status == OK then i == n - 1 else !p.discard && LastOk(h, n - 1, leg, i)
  {
  }

  /** The snapshot is there when such an attempt is, */
  lemma {:induction false} SomeLastOk(h: seq<Report>, n: nat, leg: ReportedLeg)
    requires n <= |h| && AllFresh(h)
    ensures LastComplete(h, n, leg).Some? <==> exists i: nat :: LastOk(h, n, leg, i)
  {
    if 0 < n {
      var m := n - 1;
      SomeLastOk(h, m, leg);
      LastOkMore(h, n, leg, n - 1);
      if i: nat :| LastOk(h, n, leg, i) {
        LastOkMore(h, n, leg, i);
      }
      if i: nat :| LastOk(h, m, leg, i) {
        LastOkMore(h, n, leg, i);
      }
    }
  }

  /** and is what it measured. */
  lemma {:induction false} LastOkIs(h: seq<Report>, n: nat, leg: ReportedLeg, i: nat)
    requires n <= |h| && AllFresh(h) && LastOk(h, n, leg, i)
    ensures var p := Section(h[i], leg); LastComplete(h, n, leg) == Some(Snapshot(p.lastSuccess, p.quota, p.history))
  {
    LastOkMore(h, n, leg, i);
    if Section(h[n - 1], leg).status != OK {
      LastOkIs(h, n - 1, leg, i);
    }
  }

  lemma {:induction false} LastAnsweredIs(h: seq<Report>, n: nat, leg: ReportedLeg)
    requires n <= |h| && AllFresh(h)
    ensures LastAnswer(h, n, leg).Some? <==> exists i: nat :: LastAnswered(h, n, leg, i)
    ensures forall i: nat :: LastAnswered(h, n, leg, i) ==> LastAnswer(h, n, leg) == Some(h[i].ended)
  {
    if 0 < n {
      LastAnsweredIs(h, n - 1, leg);
      forall i: nat
        ensures LastAnswered(h, n, leg, i) <==>
                if Section(h[n - 1], leg).status != Error then i == n - 1 else LastAnswered(h, n - 1, leg, i) {
      }
      if Section(h[n - 1], leg).status != Error {
        assert LastAnswered(h, n, leg, n - 1);
      } else if LastAnswer(h, n, leg).Some? {
        var i: nat :| LastAnswered(h, n - 1, leg, i);
        assert LastAnswered(h, n, leg, i);
      }
    }
  }

  /** After any run: a stored section shows its last attempt; it retains a snapshot exactly
      when that attempt was not ok itself but an earlier one was, with nothing discarded
      since; and the snapshot is of the last such attempt, number by number. */
  lemma SnapshotIs(run: seq<Action>, key: string, leg: ReportedLeg)
    requires key in Run(System(map[], map[]), run).cache
    ensures var s := Run(System(map[], map[]), run);
            && key in s.history && s.history[key] != [] && Legs(s.cache[key].report)
            && AllFresh(s.history[key])
            && var h := s.history[key];
               var p, last := Section(s.cache[key].report, leg), Section(h[|h| - 1], leg);
               && p.quota == last.quota && p.history == last.history && p.status == last.status
               && p.lastSuccess == last.lastSuccess && p.errors == last.errors
               && (p.lastComplete.Some? <==> last.status != OK && exists i: nat :: LastOk(h, |h|, leg, i))
               && forall i: nat :: LastOk(h, |h|, leg, i) && p.lastComplete.Some? ==>
                    var ok := Section(h[i], leg);
                    && p.lastComplete.value.quota == ok.quota
                    && p.lastComplete.value.history == ok.history
                    && p.lastComplete.value.lastSuccess == ok.lastSuccess
  {
    FromEmpty(run);
    var s := Run(System(map[], map[]), run);
    var h := s.history[key];
    assert Remembers(s.cache[key], h) && LegRemembers(s.cache[key], h, leg);
    SomeLastOk(h, |h|, leg);
    forall i: nat | LastOk(h, |h|, leg, i)
      ensures LastComplete(h, |h|, leg) ==
              Some(Snapshot(Section(h[i], leg).lastSuccess, Section(h[i], leg).quota, Section(h[i], leg).history)) {
      LastOkIs(h, |h|, leg, i);
    }
  }

  /** Its times: when the last attempt ended, and the last one that was not an error. */
  lemma TimesAre(run: seq<Action>, key: string, leg: ReportedLeg)
    requires key in Run(System(map[], map[]), run).cache
    ensures var s := Run(System(map[], map[]), run);
            && key in s.history && s.history[key] != [] && leg in s.cache[key].memory && AllFresh(s.history[key])
            && var h, m := s.history[key], s.cache[key].memory[leg];
               && m.lastAttempt == h[|h| - 1].ended
               && (m.lastSuccess.Some? <==> exists i: nat :: LastAnswered(h, |h|, leg, i))
               && forall i: nat :: LastAnswered(h, |h|, leg, i) ==> m.lastSuccess == Some(h[i].ended)
  {
    FromEmpty(run);
    var s := Run(System(map[], map[]), run);
    var h := s.history[key];
    assert Remembers(s.cache[key], h) && LegRemembers(s.cache[key], h, leg);
    LastAnsweredIs(h, |h|, leg);
  }

  // ---- what an ok attempt holds ----

  /** A section that is ok has all its measurements, and the time they ended. */
  predicate Measured(p: Provider, ended: nat) {
    p.status == OK ==> p.quota.Some? && p.history.Some? && p.lastSuccess == Some(ended) && p.errors == 0
  }

  predicate AllMeasured(h: seq<Report>) {
    forall i: nat :: i < |h| ==> Legs(h[i]) && forall leg :: Measured(Section(h[i], leg), h[i].ended)
  }

  /** So does every section as collected, marked or not; */
  lemma CollectedIsMeasured(leg: ReportedLeg, ended: nat, quota: Option<int>, history: Option<int>, errors: nat)
    ensures var p := Built(leg, ended, quota, history, errors);
            && Measured(p, ended) && Measured(Marked(p), ended)
            && (p.status == OK <==> quota.Some? && history.Some? && errors == 0)
            && (p.status == Error <==> quota.None? && history.None?)
            && p.quota == quota && p.history == history
  {
  }

  /** and so the snapshot retained is never a partial one. */
  lemma SnapshotIsWhole(run: seq<Action>, key: string, leg: ReportedLeg)
    requires var s := Run(System(map[], map[]), run);
             key in s.cache && (key in s.history ==> AllMeasured(s.history[key]))
    ensures var s := Run(System(map[], map[]), run);
            && Legs(s.cache[key].report)
            && var c := Section(s.cache[key].report, leg).lastComplete;
               c.Some? ==> c.value.quota.Some? && c.value.history.Some? && c.value.lastSuccess.Some?
  {
    SnapshotIs(run, key, leg);
    var s := Run(System(map[], map[]), run);
    var h := s.history[key];
    if Section(s.cache[key].report, leg).lastComplete.Some? {
      var i: nat :| LastOk(h, |h|, leg, i);
      assert Measured(Section(h[i], leg), h[i].ended);
    }
  }

  // ---- a revoked account ----

  /** m is r with the Codex quota given up. */
  predicate IsMarked(m: Report, r: Report) {
    m.ended == r.ended && |m.providers| == |r.providers| &&
        forall i: nat :: i < |r.providers| ==> m.providers[i] == Marked(r.providers[i])
  }

  /** Stored after the mark, the Codex section shows no quota, neither its own nor one
      retained from before, whatever the entry it replaces; its history and the other
      sections are as they would have been. */
  lemma RevokedIsForgotten(c: Cache, key: string, r: Report, m: Report, now: nat, victim: string)
    requires Fresh(r) && IsMarked(m, r)
    ensures Legs(m) && key in Store(c, key, m, now, victim)
    ensures var e, plain := Stored(c, key, m, now), Stored(c, key, r, now);
            && Store(c, key, m, now, victim)[key] == e
            && var p, q := Section(e.report, Codex), Section(r, Codex);
               && p.quota == None && p.lastComplete == None && p.history == q.history
               && p.status == (if q.history.Some? then Partial else Error)
               && (p.lastSuccess == if q.history.Some? then q.lastSuccess else None)
               && Section(e.report, Anthropic) == Section(plain.report, Anthropic)
               && Section(e.report, DeepSeek) == Section(plain.report, DeepSeek)
               && e.memory[Anthropic] == plain.memory[Anthropic] && e.memory[DeepSeek] == plain.memory[DeepSeek]
  {
    assert m.providers[0] == r.providers[0] && m.providers[2] == r.providers[2];
    assert m.providers[1] == Marked(r.providers[1]);
  }

  // ---- how long a report is served ----

  lemma {:induction false} StaysAsStored(s: System, run: seq<Action>, key: string)
    requires forall i: nat :: i < |run| ==> run[i].key != key
    ensures key in Run(s, run).cache ==> key in s.cache && Run(s, run).cache[key] == s.cache[key]
    decreases run
  {
    if run != [] {
      var rest := run[1..];
      assert forall i: nat :: i < |rest| ==> rest[i] == run[i + 1];
      StaysAsStored(Step(s, run[0]), rest, key);
    }
  }

  /** A report is kept, until it is dropped or replaced, as of the time it was stored: at any
      later time its age is what has passed since, and none on a clock gone back. */
  lemma {:induction false} AgesFromStore(s: System, a: Action, run: seq<Action>, now: nat)
    requires Possible(s, a) && forall i: nat :: i < |run| ==> run[i].key != a.key
    requires a.key in Run(Step(s, a), run).cache
    ensures var e := Run(Step(s, a), run).cache[a.key];
            && e == Step(s, a).cache[a.key]
            && Age(e, now) == (if a.now <= now then now - a.now else 0)
            && e.report.ended == a.report.ended
  {
    StaysAsStored(Step(s, a), run, a.key);
  }
}
