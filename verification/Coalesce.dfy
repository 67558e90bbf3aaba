/**
 Requests for one provider, interleaved: each reads the clock, takes the lock, and is
 turned away, follows the flight under way for its scope, or leads a new one. The clock
 may move between the reading and the lock.
 */
module Coalesce {
  import opened Cooldown
  import opened HttpState
  import opened Wrappers
  import opened Spaces
  import opened Decimals

  datatype Thread =
    | AtLock(scope: string, read: nat)
    | Leading(scope: string, flight: nat)
    | Sent(scope: string, flight: nat, attemptedAt: nat)
    | Waiting(scope: string, flight: nat)
    | Answered(scope: string, flight: nat, body: string, err: Option<Failure>)
    | Cooled(scope: string, read: nat, retryAt: int, attemptedAt: nat)
    | Crowded(scope: string, read: nat)
    | Canceled(scope: string)
    | Misconfigured

  /** What happened, in order; the laws below speak of it. */
  datatype Event =
    | Taken(scope: string, flight: nat, read: nat)
    | Started(scope: string, flight: nat, at: nat)
    | Limited(scope: string, flight: nat, retryAt: int, attemptedAt: nat, at: nat)
    | Cleared(scope: string, flight: nat, body: string, err: Option<Failure>)
    | Evicted(scope: string)

  datatype System = System(state: State, threads: seq<Thread>, now: nat, log: seq<Event>)

  datatype Action =
    | Tick(d: nat)
    | Call(scope: string)
    | Enter(t: nat, victim: string)
    | Send(t: nat)
    | Conclude(t: nat, o: Outcome)
    | Wake(t: nat)
    | Cancel(t: nat)

  const Boot := System(State(map[], []), [], 0, [])

  predicate InRange(now: nat) { now / Second <= MaxInt64 }

  predicate Leads(th: Thread) { th.Leading? || th.Sent? }

  function Seat(th: Thread, a: Admission): Thread
    requires th.AtLock?
  {
    match a
    case Cooling(at, attempted) => Cooled(th.scope, th.read, at, attempted)
    case Follow(f) => Waiting(th.scope, f)
    case Lead(f) => Leading(th.scope, f)
    case Full => Crowded(th.scope, th.read)
  }

  /** The leader hands back its own result, or after a refusal what the flight says. */
  function Concluded(scope: string, f: nat, o: Outcome, s: State): Thread
    requires f < |s.flights|
  {
    match o
    case Other(body, err) => Answered(scope, f, body, err)
    case Refusal(_) => Answered(scope, f, s.flights[f].body, s.flights[f].err)
  }

  /** What the leader of f received: a refusal, and the cooldown it starts, or anything
      else. */
  function Noted(scope: string, f: nat, o: Outcome, attemptedAt: nat, now: nat, s: State, after: State): seq<Event> {
    if scope !in s.entries || s.entries[scope].flight != Some(f) then []
    else if o.Other? then [Cleared(scope, f, o.body, o.err)]
    else if scope in after.entries then [Limited(scope, f, after.entries[scope].retryAt, attemptedAt, now)]
    else []
  }

  /** Thread t's turn under the lock. */
  function Entered(s: System, t: nat, victim: string): System
    requires t < |s.threads| && s.threads[t].AtLock?
  {
    var th := s.threads[t];
    var (st, adm) := Acquire(s.state, th.scope, th.read, t, victim);
    var dropped := if MustEvict(s.state.entries, th.scope) && adm.Lead? then [Evicted(victim)] else [];
    System(st, s.threads[t := Seat(th, adm)], s.now,
      s.log + dropped + if adm.Lead? then [Taken(th.scope, adm.flight, th.read)] else [])
  }

  /** An action that is not possible changes nothing, so any sequence is a run. */
  ghost function Step(s: System, a: Action, date: string -> Option<nat>): System {
    match a
    case Tick(d) => if InRange(s.now + d) then s.(now := s.now + d) else s
    case Call(scope) => s.(threads := s.threads + [if scope == "" then Misconfigured else AtLock(scope, s.now)])
    case Enter(t, victim) =>
      if t < |s.threads| && s.threads[t].AtLock?
         && (MustEvict(s.state.entries, s.threads[t].scope) ==> Chosen(s.state.entries, s.threads[t].read, victim))
      then
        Entered(s, t, victim)
      else s
    case Send(t) =>
      if t < |s.threads| && s.threads[t].Leading? then
        var th := s.threads[t];
        s.(threads := s.threads[t := Sent(th.scope, th.flight, s.now)],
           log := s.log + [Started(th.scope, th.flight, s.now)])
      else s
    case Conclude(t, o) =>
      if t < |s.threads| && InRange(s.now) && (s.threads[t].Sent? || (s.threads[t].Leading? && o.Other?))
         && s.threads[t].flight < |s.state.flights|
      then
        var th := s.threads[t];
        var attemptedAt := if th.Sent? then th.attemptedAt else s.now;
        var st := Finish(s.state, th.scope, th.flight, o, attemptedAt, s.now, date);
        System(st, s.threads[t := Concluded(th.scope, th.flight, o, st)], s.now,
          s.log + Noted(th.scope, th.flight, o, attemptedAt, s.now, s.state, st))
      else s
    case Wake(t) =>
      if t < |s.threads| && s.threads[t].Waiting? && s.threads[t].flight < |s.state.flights| &&
          s.state.flights[s.threads[t].flight].closed then
        var f := s.threads[t].flight;
        var fl := s.state.flights[f];
        s.(threads := s.threads[t := Answered(s.threads[t].scope, f, fl.body, fl.err)], state := WaiterDone(s.state, f))
      else s
    case Cancel(t) =>
      if t < |s.threads| && s.threads[t].Waiting? && s.threads[t].flight < |s.state.flights| then
        s.(threads := s.threads[t := Canceled(s.threads[t].scope)], state := WaiterDone(s.state, s.threads[t].flight))
      else s
  }

  ghost function Run(s: System, run: seq<Action>, date: string -> Option<nat>): System
    decreases run
  {
    if run == [] then s else Run(Step(s, run[0], date), run[1..], date)
  }

  // ---- counting ----

  function Waiters(ts: seq<Thread>, f: nat): nat {
    if ts == [] then 0 else (if Waits(ts[0], f) then 1 else 0) + Waiters(ts[1..], f)
  }

  predicate Waits(th: Thread, f: nat) { th.Waiting? && th.flight == f }

  lemma {:induction false} WaitersUpdate(ts: seq<Thread>, t: nat, th: Thread, f: nat)
    requires t < |ts|
    ensures Waiters(ts[t := th], f) ==
            Waiters(ts, f) - (if Waits(ts[t], f) then 1 else 0) + (if Waits(th, f) then 1 else 0)
  {
    if t == 0 {
      assert ts[t := th][1..] == ts[1..];
    } else {
      assert ts[t := th][1..] == ts[1..][t - 1 := th];
      WaitersUpdate(ts[1..], t - 1, th, f);
    }
  }

  lemma {:induction false} WaitersAppend(ts: seq<Thread>, th: Thread, f: nat)
    ensures Waiters(ts + [th], f) == Waiters(ts, f) + if Waits(th, f) then 1 else 0
  {
    if ts == [] {
      assert [th][1..] == [];
    } else {
      assert (ts + [th])[1..] == ts[1..] + [th];
      WaitersAppend(ts[1..], th, f);
    }
  }

  lemma {:induction false} NoWaiters(ts: seq<Thread>, f: nat)
    requires forall t :: 0 <= t < |ts| ==> !Waits(ts[t], f)
    ensures Waiters(ts, f) == 0
  {
    if ts != [] {
      NoWaiters(ts[1..], f);
    }
  }

  /** Refusals of a scope in a row, since it was last cleared or evicted. */
  function Streak(log: seq<Event>, k: string): nat {
    if log == [] then 0
    else
      var e, rest := log[|log| - 1], log[..|log| - 1];
      if e.scope != k || !Settles(e) then Streak(rest, k) else if e.Limited? then Streak(rest, k) + 1 else 0
  }

  /** An event after which the scope's cooldown is another one, or none. */
  predicate Settles(e: Event) { e.Limited? || e.Cleared? || e.Evicted? }

  /** A refusal of k with this cooldown is on record. */
  ghost predicate Recorded(log: seq<Event>, k: string, retryAt: int) {
    exists e :: e in log && e.Limited? && e.scope == k && e.retryAt == retryAt
  }

  lemma StreakOne(log: seq<Event>, e: Event, k: string)
    ensures Streak(log + [e], k) ==
            if e.scope != k || !Settles(e) then Streak(log, k) else if e.Limited? then Streak(log, k) + 1 else 0
  {
    assert (log + [e])[..|log|] == log;
  }

  // ---- what every interleaving keeps ----

  ghost predicate EntryOk(s: System, k: string)
    requires k in s.state.entries
  {
    var e := s.state.entries[k];
    && k != ""
    && e.consecutive429 == Streak(s.log, k)
    && (e.retryAt == 0 || Recorded(s.log, k, e.retryAt))
    && (e.flight.Some? ==>
          && e.flight.value < |s.state.flights| && e.retryAt <= s.now
          && var fl := s.state.flights[e.flight.value]; !fl.closed && fl.scope == k)
  }

  /** An open flight is the one its scope's entry names, and its leader is still at work. */
  ghost predicate FlightOk(s: System, f: nat)
    requires f < |s.state.flights|
  {
    var fl, es := s.state.flights[f], s.state.entries;
    && fl.waiters == Waiters(s.threads, f)
    && fl.leader < |s.threads|
    && (!fl.closed ==>
          && fl.scope in es && es[fl.scope].flight == Some(f)
          && Leads(s.threads[fl.leader]) && s.threads[fl.leader].flight == f)
  }

  ghost predicate ThreadOk(s: System, t: nat)
    requires t < |s.threads|
  {
    var fs, es := s.state.flights, s.state.entries;
    match s.threads[t]
    case AtLock(k, read) => k != "" && read <= s.now
    case Leading(k, f) => f < |fs| && fs[f].leader == t && fs[f].scope == k && k in es && es[k].flight == Some(f)
    case Sent(k, f, at) => f < |fs| && fs[f].leader == t && fs[f].scope == k && k in es && es[k].flight == Some(f)
    case Waiting(k, f) => f < |fs| && fs[f].scope == k
    case Answered(k, f, body, err) =>
      f < |fs| && fs[f].scope == k && fs[f].closed && body == fs[f].body && err == fs[f].err
    case Cooled(k, read, at, _) => read < at && Recorded(s.log, k, at)
    case _ => true
  }

  /** A recorded cooldown is over, or its scope's entry still enforces it. */
  ghost predicate CooldownOk(s: System, e: Event) {
    e.Limited? && s.now < e.retryAt ==>
      var es := s.state.entries;
      e.scope in es && es[e.scope].flight == None && e.retryAt <= es[e.scope].retryAt
  }

  /** No request is started before a cooldown recorded earlier for its scope is over. */
  ghost predicate Paced(log: seq<Event>) {
    forall i: nat, j: nat :: i < j < |log| && log[i].Limited? && log[j].Started? && log[i].scope == log[j].scope ==>
      log[i].retryAt <= log[j].at
  }

  ghost predicate Inv(s: System) {
    && InRange(s.now)
    && |s.state.entries| <= MaxEntries
    && (forall k :: k in s.state.entries ==> EntryOk(s, k))
    && (forall k :: k !in s.state.entries ==> Streak(s.log, k) == 0)
    && (forall f: nat :: f < |s.state.flights| ==> FlightOk(s, f))
    && (forall t: nat :: t < |s.threads| ==> ThreadOk(s, t))
    && (forall e :: e in s.log ==> CooldownOk(s, e))
    && Paced(s.log)
  }

  lemma TickKeeps(s: System, d: nat, date: string -> Option<nat>)
    requires Inv(s)
    ensures Inv(Step(s, Tick(d), date))
  {
    var n := Step(s, Tick(d), date);
    forall f: nat | f < |n.state.flights| ensures FlightOk(n, f) {
      assert FlightOk(s, f);
    }
    forall t: nat | t < |n.threads| ensures ThreadOk(n, t) {
      assert ThreadOk(s, t);
    }
    forall k | k in n.state.entries ensures EntryOk(n, k) {
      assert EntryOk(s, k);
    }
    forall e | e in n.log ensures CooldownOk(n, e) {
      assert CooldownOk(s, e);
    }
  }

  lemma CallKeeps(s: System, scope: string, date: string -> Option<nat>)
    requires Inv(s)
    ensures Inv(Step(s, Call(scope), date))
  {
    var n := Step(s, Call(scope), date);
    forall f: nat | f < |n.state.flights| ensures FlightOk(n, f) {
      WaitersAppend(s.threads, n.threads[|s.threads|], f);
      assert FlightOk(s, f);
    }
    forall t: nat | t < |n.threads| ensures ThreadOk(n, t) {
      if t < |s.threads| {
        assert ThreadOk(s, t);
      }
    }
    forall k | k in n.state.entries ensures EntryOk(n, k) {
      assert EntryOk(s, k);
    }
  }

  lemma SendKeeps(s: System, t: nat, date: string -> Option<nat>)
    requires Inv(s)
    ensures Inv(Step(s, Send(t), date))
  {
    var n := Step(s, Send(t), date);
    if n != s {
      var e := Started(s.threads[t].scope, s.threads[t].flight, s.now);
      assert ThreadOk(s, t) && EntryOk(s, e.scope);
      forall f: nat | f < |n.state.flights| ensures FlightOk(n, f) {
        WaitersUpdate(s.threads, t, n.threads[t], f);
        assert FlightOk(s, f);
      }
      forall u: nat | u < |n.threads| ensures ThreadOk(n, u) {
        assert ThreadOk(s, u);
      }
      forall k ensures Streak(n.log, k) == Streak(s.log, k) {
        StreakOne(s.log, e, k);
      }
      forall k | k in n.state.entries ensures EntryOk(n, k) {
        assert EntryOk(s, k);
      }
      forall i: nat | i < |s.log| ensures CooldownOk(s, s.log[i]) {
        assert s.log[i] in s.log;
      }
    }
  }

  /** Thread t stops waiting: woken with the flight's result, or canceled. */
  function Left(s: System, t: nat, th: Thread): System
    requires t < |s.threads| && s.threads[t].Waiting? && s.threads[t].flight < |s.state.flights|
  {
    s.(threads := s.threads[t := th], state := WaiterDone(s.state, s.threads[t].flight))
  }

  lemma LeftKeeps(s: System, t: nat, th: Thread)
    requires Inv(s) && t < |s.threads| && s.threads[t].Waiting? && s.threads[t].flight < |s.state.flights|
    requires ThreadOk(s.(threads := s.threads[t := th]), t) && (th.Answered? || th.Canceled?)
    ensures Inv(Left(s, t, th))
  {
    var n := Left(s, t, th);
    forall f: nat | f < |n.state.flights| ensures FlightOk(n, f) {
      WaitersUpdate(s.threads, t, th, f);
      assert FlightOk(s, f);
    }
    forall u: nat | u < |n.threads| ensures ThreadOk(n, u) {
      assert ThreadOk(s, u);
    }
    forall k | k in n.state.entries ensures EntryOk(n, k) {
      assert EntryOk(s, k);
    }
    forall e | e in n.log ensures CooldownOk(n, e) {
      assert CooldownOk(s, e);
    }
  }

  // ---- entering ----

  lemma SeatKeeps(s: System, t: nat, th: Thread)
    requires Inv(s) && t < |s.threads| && s.threads[t].AtLock?
    requires var n := s.(threads := s.threads[t := th]); ThreadOk(n, t) && !th.Waiting?
    ensures Inv(s.(threads := s.threads[t := th]))
  {
    var n := s.(threads := s.threads[t := th]);
    forall f: nat | f < |n.state.flights| ensures FlightOk(n, f) {
      WaitersUpdate(s.threads, t, th, f);
      assert FlightOk(s, f);
    }
    forall u: nat | u < |n.threads| ensures ThreadOk(n, u) {
      assert ThreadOk(s, u);
    }
    forall k | k in n.state.entries ensures EntryOk(n, k) {
      assert EntryOk(s, k);
    }
    forall e | e in n.log ensures CooldownOk(n, e) {
      assert CooldownOk(s, e);
    }
  }

  function Followed(s: System, t: nat, f: nat): System
    requires t < |s.threads| && s.threads[t].AtLock? && f < |s.state.flights|
  {
    var fl := s.state.flights[f];
    s.(threads := s.threads[t := Waiting(s.threads[t].scope, f)],
       state := s.state.(flights := s.state.flights[f := fl.(waiters := fl.waiters + 1)]))
  }

  lemma FollowKeeps(s: System, t: nat, f: nat)
    requires Inv(s) && t < |s.threads| && s.threads[t].AtLock? && f < |s.state.flights|
    requires s.state.flights[f].scope == s.threads[t].scope
    ensures Inv(Followed(s, t, f))
  {
    var th, n := Waiting(s.threads[t].scope, f), Followed(s, t, f);
    forall g: nat | g < |n.state.flights| ensures FlightOk(n, g) {
      WaitersUpdate(s.threads, t, th, g);
      assert FlightOk(s, g);
    }
    forall u: nat | u < |n.threads| ensures ThreadOk(n, u) {
      assert ThreadOk(s, u);
    }
    forall k | k in n.state.entries ensures EntryOk(n, k) {
      assert EntryOk(s, k);
    }
    forall e | e in n.log ensures CooldownOk(n, e) {
      assert CooldownOk(s, e);
    }
  }

  /** Dropping an entry that was spare at an earlier reading of the clock. */
  function Dropped(s: System, victim: string): System {
    s.(state := s.state.(entries := s.state.entries - {victim}), log := s.log + [Evicted(victim)])
  }

  lemma DropKeeps(s: System, victim: string, read: nat)
    requires Inv(s) && read <= s.now && victim in s.state.entries && Spare(s.state.entries[victim], read)
    ensures Inv(Dropped(s, victim)) && |Dropped(s, victim).state.entries| < MaxEntries
  {
    var n := Dropped(s, victim);
    var ev := Evicted(victim);
    Fewer(s.state.entries, victim);
    forall k ensures Streak(n.log, k) == if k == victim then 0 else Streak(s.log, k) {
      StreakOne(s.log, ev, k);
    }
    forall f: nat | f < |n.state.flights| ensures FlightOk(n, f) {
      assert FlightOk(s, f);
    }
    forall u: nat | u < |n.threads| ensures ThreadOk(n, u) {
      assert ThreadOk(s, u);
    }
    forall k | k in n.state.entries ensures EntryOk(n, k) {
      assert EntryOk(s, k);
    }
    forall e | e in n.log ensures CooldownOk(n, e) {
      assert e in s.log ==> CooldownOk(s, e);
    }
  }

  lemma Fewer(m: map<string, Entry>, k: string)
    requires k in m
    ensures |m - {k}| == |m| - 1
  {
    assert (m - {k}).Keys == m.Keys - {k};
    assert |m.Keys| == |m|;
    assert |(m - {k}).Keys| == |m - {k}|;
  }

  function EntryFor(s: State, scope: string): Entry {
    if scope in s.entries then s.entries[scope] else Blank
  }

  function Led(s: System, t: nat): System
    requires t < |s.threads| && s.threads[t].AtLock?
  {
    var th := s.threads[t];
    s.(state := Opened(s.state, th.scope, EntryFor(s.state, th.scope), th.read, t),
       threads := s.threads[t := Leading(th.scope, |s.state.flights|)],
       log := s.log + [Taken(th.scope, |s.state.flights|, th.read)])
  }

  ghost predicate MayLead(s: System, t: nat)
    requires t < |s.threads| && s.threads[t].AtLock?
  {
    var k := s.threads[t].scope;
    var e := EntryFor(s.state, k);
    (k in s.state.entries || |s.state.entries| < MaxEntries) && e.flight == None && s.threads[t].read >= e.retryAt
  }

  lemma LedKeeps(s: System, t: nat)
    requires Inv(s) && t < |s.threads| && s.threads[t].AtLock? && MayLead(s, t)
    ensures Inv(Led(s, t))
  {
    var n, k, id := Led(s, t), s.threads[t].scope, |s.state.flights|;
    assert ThreadOk(s, t);
    NoWaitersYet(s);
    forall j ensures Streak(n.log, j) == Streak(s.log, j) {
      StreakOne(s.log, Taken(k, id, s.threads[t].read), j);
    }
    forall f: nat | f < |n.state.flights| ensures FlightOk(n, f) {
      WaitersUpdate(s.threads, t, n.threads[t], f);
      assert f < id ==> FlightOk(s, f);
    }
    forall u: nat | u < |n.threads| ensures ThreadOk(n, u) {
      assert ThreadOk(s, u);
    }
    forall j | j in n.state.entries ensures EntryOk(n, j) {
      assert j in s.state.entries ==> EntryOk(s, j);
    }
    forall e | e in n.log ensures CooldownOk(n, e) {
      assert e in s.log ==> CooldownOk(s, e);
    }
    assert n.state.entries.Keys == s.state.entries.Keys + {k};
    assert |n.state.entries| == |n.state.entries.Keys| && |s.state.entries| == |s.state.entries.Keys|;
  }

  lemma NoWaitersYet(s: System)
    requires Inv(s)
    ensures Waiters(s.threads, |s.state.flights|) == 0
  {
    forall t: nat | t < |s.threads| ensures !Waits(s.threads[t], |s.state.flights|) {
      assert ThreadOk(s, t);
    }
    NoWaiters(s.threads, |s.state.flights|);
  }

  lemma EnteredLeads(s: System, t: nat, victim: string)
    requires t < |s.threads| && s.threads[t].AtLock? && !MustEvict(s.state.entries, s.threads[t].scope)
    requires var e := EntryFor(s.state, s.threads[t].scope); s.threads[t].read >= e.retryAt && e.flight == None
    ensures Entered(s, t, victim) == Led(s, t)
  {
    assert s.log + [] == s.log;
  }

  lemma EnteredSeats(s: System, t: nat, victim: string)
    requires t < |s.threads| && s.threads[t].AtLock?
    requires var adm := Acquire(s.state, s.threads[t].scope, s.threads[t].read, t, victim).1; adm.Cooling? || adm.Full?
    ensures Entered(s, t, victim) == s.(threads := Entered(s, t, victim).threads)
  {
    assert s.log + [] + [] == s.log;
  }

  lemma EnteredFollows(s: System, t: nat, victim: string)
    requires t < |s.threads| && s.threads[t].AtLock? && s.threads[t].scope in s.state.entries
    requires var e := s.state.entries[s.threads[t].scope];
             s.threads[t].read >= e.retryAt && e.flight.Some? && e.flight.value < |s.state.flights|
    ensures Entered(s, t, victim) == Followed(s, t, s.state.entries[s.threads[t].scope].flight.value)
  {
    assert s.log + [] + [] == s.log;
  }

  lemma EnteredDrops(s: System, t: nat, victim: string)
    requires t < |s.threads| && s.threads[t].AtLock? && MustEvict(s.state.entries, s.threads[t].scope) && victim != ""
    ensures Entered(s, t, victim) == Led(Dropped(s, victim), t)
  {
  }

  lemma EnterKeeps(s: System, t: nat, victim: string)
    requires Inv(s) && t < |s.threads| && s.threads[t].AtLock?
    requires MustEvict(s.state.entries, s.threads[t].scope) ==> Chosen(s.state.entries, s.threads[t].read, victim)
    ensures Inv(Entered(s, t, victim))
  {
    var th, es, n := s.threads[t], s.state.entries, Entered(s, t, victim);
    var k := th.scope;
    assert ThreadOk(s, t);
    assert k in es ==> EntryOk(s, k);
    if k in es && th.read < es[k].retryAt {
      EnteredSeats(s, t, victim);
      SeatKeeps(s, t, n.threads[t]);
    } else if k in es && es[k].flight.Some? {
      EnteredFollows(s, t, victim);
      FollowKeeps(s, t, es[k].flight.value);
    } else if !MustEvict(es, k) {
      LedKeeps(s, t);
      EnteredLeads(s, t, victim);
    } else if victim == "" {
      EnteredSeats(s, t, victim);
      SeatKeeps(s, t, n.threads[t]);
    } else {
      DropKeeps(s, victim, th.read);
      LedKeeps(Dropped(s, victim), t);
      EnteredDrops(s, t, victim);
    }
  }

  // ---- concluding ----

  /** The guard in finish always holds for the leader of a flight. */
  lemma GuardHolds(s: System, t: nat)
    requires Inv(s) && t < |s.threads| && Leads(s.threads[t])
    ensures var th := s.threads[t];
            th.scope in s.state.entries && s.state.entries[th.scope].flight == Some(th.flight)
            && th.flight < |s.state.flights| && !s.state.flights[th.flight].closed
  {
    assert ThreadOk(s, t);
    assert EntryOk(s, s.threads[t].scope);
  }

  /** No two threads lead the same flight, or flights of one scope. */
  lemma OneLeader(s: System, t: nat, u: nat)
    requires Inv(s) && t < |s.threads| && u < |s.threads| && Leads(s.threads[t]) && Leads(s.threads[u])
    requires s.threads[t].scope == s.threads[u].scope || s.threads[t].flight == s.threads[u].flight
    ensures t == u
  {
    assert ThreadOk(s, t) && ThreadOk(s, u);
  }

  lemma {:induction false} ConcludeThreads(s: System, t: nat, o: Outcome, date: string -> Option<nat>, n: System)
    requires Inv(s) && n == Step(s, Conclude(t, o), date) && n != s
    ensures forall u: nat :: u < |n.threads| ==> ThreadOk(n, u)
    ensures forall f: nat :: f < |n.state.flights| ==> FlightOk(n, f)
  {
    GuardHolds(s, t);
    forall u: nat | u < |n.threads| ensures ThreadOk(n, u) {
      assert ThreadOk(s, u);
      assert ThreadOk(s, t);
      if u != t && Leads(s.threads[u]) {
        assert s.threads[u].scope != s.threads[t].scope;
      }
    }
    forall f: nat | f < |n.state.flights| ensures FlightOk(n, f) {
      WaitersUpdate(s.threads, t, n.threads[t], f);
      assert FlightOk(s, f) && ThreadOk(s, t);
    }
  }

  /** What a conclusion does to the entry of scope k, its flight f and the log. */
  ghost predicate EntryLeft(s: System, n: System, k: string, f: nat, ev: Event) {
    var es, fs := s.state.entries, s.state.flights;
    && n.now == s.now && InRange(s.now)
    && k in es && es[k].flight == Some(f) && f < |fs|
    && |n.state.flights| == |fs| && (forall g: nat :: g < |fs| && g != f ==> n.state.flights[g] == fs[g])
    && n.log == s.log + [ev] && ev.scope == k
    && if ev.Limited? then
         && k in n.state.entries
         && var e := n.state.entries[k];
            && e.flight == None && e.consecutive429 == es[k].consecutive429 + 1 && s.now <= e.retryAt
            && n.state.entries == es[k := e] && ev.retryAt == e.retryAt
       else
         n.state.entries == es - {k} && ev.Cleared?
  }

  lemma ConcludeEntry(s: System, t: nat, o: Outcome, date: string -> Option<nat>)
    requires Inv(s) && Step(s, Conclude(t, o), date) != s
    ensures t < |s.threads| && Leads(s.threads[t])
    ensures var n, th := Step(s, Conclude(t, o), date), s.threads[t];
            && |n.log| == |s.log| + 1 && EntryLeft(s, n, th.scope, th.flight, n.log[|s.log|])
            && n.log[|s.log|].Limited? == o.Refusal?
  {
    GuardHolds(s, t);
    if o.Refusal? {
      RetryIsLater(o.retryAfter, s.now, s.state.entries[s.threads[t].scope].consecutive429 + 1, date);
    }
  }

  lemma ConcludeStreak(s: System, n: System, k: string, f: nat, ev: Event, j: string)
    requires EntryLeft(s, n, k, f, ev)
    ensures Streak(n.log, j) == if j != k then Streak(s.log, j) else if ev.Limited? then Streak(s.log, j) + 1 else 0
  {
    StreakOne(s.log, ev, j);
  }

  lemma ConcludeSize(s: System, n: System, k: string, f: nat, ev: Event)
    requires EntryLeft(s, n, k, f, ev)
    ensures |n.state.entries| <= |s.state.entries|
  {
    if ev.Limited? {
      assert n.state.entries.Keys == s.state.entries.Keys;
      assert |n.state.entries| == |n.state.entries.Keys| && |s.state.entries| == |s.state.entries.Keys|;
    } else {
      Fewer(s.state.entries, k);
    }
  }

  lemma ConcludeOneEntry(s: System, n: System, k: string, f: nat, ev: Event, j: string)
    requires EntryLeft(s, n, k, f, ev) && j in n.state.entries
    requires j in s.state.entries && EntryOk(s, j) && EntryOk(s, k)
    ensures EntryOk(n, j)
  {
    ConcludeStreak(s, n, k, f, ev, j);
    if j == k {
      assert n.log[|s.log|] == ev;
    }
  }

  lemma ConcludeEntries(s: System, n: System, k: string, f: nat, ev: Event)
    requires Inv(s) && EntryLeft(s, n, k, f, ev)
    ensures |n.state.entries| <= MaxEntries
    ensures forall j :: j in n.state.entries ==> EntryOk(n, j)
    ensures forall j :: j !in n.state.entries ==> Streak(n.log, j) == 0
  {
    ConcludeSize(s, n, k, f, ev);
    forall j | j in n.state.entries ensures EntryOk(n, j) {
      ConcludeOneEntry(s, n, k, f, ev, j);
    }
    forall j | j !in n.state.entries ensures Streak(n.log, j) == 0 {
      ConcludeStreak(s, n, k, f, ev, j);
    }
  }

  lemma ConcludeCooldowns(s: System, n: System, k: string, f: nat, ev: Event)
    requires Inv(s) && EntryLeft(s, n, k, f, ev)
    ensures forall e :: e in n.log ==> CooldownOk(n, e)
    ensures Paced(n.log)
  {
    assert EntryOk(s, k);
    forall e | e in n.log ensures CooldownOk(n, e) {
      assert e in s.log ==> CooldownOk(s, e);
    }
  }

  lemma StepKeeps(s: System, a: Action, date: string -> Option<nat>)
    requires Inv(s)
    ensures Inv(Step(s, a, date))
  {
    match a
    case Tick(d) => TickKeeps(s, d, date);
    case Call(scope) => CallKeeps(s, scope, date);
    case Enter(t, victim) =>
      if Step(s, a, date) != s {
        EnterKeeps(s, t, victim);
      }
    case Send(t) => SendKeeps(s, t, date);
    case Conclude(t, o) =>
      var n := Step(s, a, date);
      if n != s {
        ConcludeThreads(s, t, o, date, n);
        ConcludeEntry(s, t, o, date);
        ConcludeEntries(s, n, s.threads[t].scope, s.threads[t].flight, n.log[|s.log|]);
        ConcludeCooldowns(s, n, s.threads[t].scope, s.threads[t].flight, n.log[|s.log|]);
      }
    case Wake(t) => LeaveKeeps(s, a, t, date);
    case Cancel(t) => LeaveKeeps(s, a, t, date);
  }

  lemma LeaveKeeps(s: System, a: Action, t: nat, date: string -> Option<nat>)
    requires Inv(s) && (a == Wake(t) || a == Cancel(t))
    ensures Inv(Step(s, a, date))
  {
    var n := Step(s, a, date);
    if n != s {
      assert ThreadOk(s, t);
      LeftKeeps(s, t, n.threads[t]);
    }
  }

  lemma {:induction false} RunKeeps(s: System, run: seq<Action>, date: string -> Option<nat>)
    requires Inv(s)
    ensures Inv(Run(s, run, date))
    decreases run
  {
    if run != [] {
      StepKeeps(s, run[0], date);
      RunKeeps(Step(s, run[0], date), run[1..], date);
    }
  }

  // ---- what holds on every run ----

  ghost predicate SameResult(a: Flight, b: Flight) {
    a.closed == b.closed && a.body == b.body && a.err == b.err && a.scope == b.scope && a.leader == b.leader
  }

  lemma StepFreezes(s: System, a: Action, date: string -> Option<nat>, f: nat)
    requires Inv(s) && f < |s.state.flights| && s.state.flights[f].closed
    ensures var n := Step(s, a, date); f < |n.state.flights| && SameResult(s.state.flights[f], n.state.flights[f])
  {
    match a
    case Conclude(t, o) =>
      if t < |s.threads| && Leads(s.threads[t]) {
        GuardHolds(s, t);
      }
    case _ =>
  }

  /** A flight closes once: its result never changes afterwards. */
  lemma {:induction false} ClosedOnce(s: System, run: seq<Action>, date: string -> Option<nat>, f: nat)
    requires Inv(s) && f < |s.state.flights| && s.state.flights[f].closed
    ensures var n := Run(s, run, date); f < |n.state.flights| && SameResult(s.state.flights[f], n.state.flights[f])
    decreases run
  {
    if run != [] {
      StepFreezes(s, run[0], date, f);
      StepKeeps(s, run[0], date);
      ClosedOnce(Step(s, run[0], date), run[1..], date, f);
    }
  }

  /** In every interleaving: at most 64 entries; one open flight and one leader a scope;
      whoever waits has a result to wake to, or a leader still at work; and everyone who
      was answered by a flight, its leader included, got the same answer. */
  lemma Coalesced(run: seq<Action>, date: string -> Option<nat>)
    ensures var s := Run(Boot, run, date); var fs, ts := s.state.flights, s.threads;
            && |s.state.entries| <= MaxEntries
            && (forall f: nat, g: nat ::
                f < |fs| && g < |fs| && !fs[f].closed && !fs[g].closed && fs[f].scope == fs[g].scope ==> f == g)
            && (forall t: nat, u: nat ::
                t < |ts| && u < |ts| && Leads(ts[t]) && Leads(ts[u]) && ts[t].scope == ts[u].scope ==> t == u)
            && (forall t: nat :: t < |ts| && ts[t].Waiting? ==>
                  && ts[t].flight < |fs|
                  && (fs[ts[t].flight].closed ||
                      (var l := fs[ts[t].flight].leader; l < |ts| && Leads(ts[l]) && ts[l].flight == ts[t].flight)))
            && (forall t: nat, u: nat ::
                t < |ts| && u < |ts| && ts[t].Answered? && ts[u].Answered? && ts[t].flight == ts[u].flight ==>
                  ts[t].body == ts[u].body && ts[t].err == ts[u].err && ts[t].scope == ts[u].scope)
            && (forall f: nat :: f < |fs| ==> fs[f].waiters == Waiters(ts, f))
  {
    RunKeeps(Boot, run, date);
    var s := Run(Boot, run, date);
    var fs, ts := s.state.flights, s.threads;
    forall f: nat, g: nat | f < |fs| && g < |fs| && !fs[f].closed && !fs[g].closed && fs[f].scope == fs[g].scope
      ensures f == g {
      assert FlightOk(s, f) && FlightOk(s, g);
    }
    forall t: nat, u: nat | t < |ts| && u < |ts| && Leads(ts[t]) && Leads(ts[u]) && ts[t].scope == ts[u].scope
      ensures t == u {
      OneLeader(s, t, u);
    }
    forall t: nat | t < |ts| && ts[t].Waiting?
      ensures ts[t].flight < |fs|
      ensures fs[ts[t].flight].closed ||
              (var l := fs[ts[t].flight].leader; l < |ts| && Leads(ts[l]) && ts[l].flight == ts[t].flight) {
      assert ThreadOk(s, t);
      assert FlightOk(s, ts[t].flight);
    }
    forall t: nat, u: nat | t < |ts| && u < |ts| && ts[t].Answered? && ts[u].Answered? && ts[t].flight == ts[u].flight
      ensures ts[t].body == ts[u].body && ts[t].err == ts[u].err && ts[t].scope == ts[u].scope {
      assert ThreadOk(s, t) && ThreadOk(s, u);
    }
    forall f: nat | f < |fs| ensures fs[f].waiters == Waiters(ts, f) {
      assert FlightOk(s, f);
    }
  }

  /** In every interleaving no request is started before a cooldown recorded for its
      scope is over, though entries are evicted and threads act on old readings of the
      clock; and a thread is turned away only by a cooldown some response asked for. */
  lemma CooldownsHold(run: seq<Action>, date: string -> Option<nat>)
    ensures var s := Run(Boot, run, date); var log := s.log;
            && (forall i: nat, j: nat ::
                i < j < |log| && log[i].Limited? && log[j].Started? && log[i].scope == log[j].scope ==>
                  log[i].retryAt <= log[j].at)
            && (forall t: nat :: t < |s.threads| && s.threads[t].Cooled? ==>
                  s.threads[t].read < s.threads[t].retryAt && Recorded(log, s.threads[t].scope, s.threads[t].retryAt))
  {
    RunKeeps(Boot, run, date);
    var s := Run(Boot, run, date);
    forall t: nat | t < |s.threads| && s.threads[t].Cooled?
      ensures s.threads[t].read < s.threads[t].retryAt && Recorded(s.log, s.threads[t].scope, s.threads[t].retryAt) {
      assert ThreadOk(s, t);
    }
  }

  ghost predicate Reachable(s: System, date: string -> Option<nat>) {
    exists run :: s == Run(Boot, run, date)
  }

  lemma ReachableKeeps(s: System, date: string -> Option<nat>)
    requires Reachable(s, date)
    ensures Inv(s)
  {
    var run :| s == Run(Boot, run, date);
    RunKeeps(Boot, run, date);
  }

  /** Making room loses neither a flight nor a cooldown that still runs. */
  lemma EvictionSpares(s: System, date: string -> Option<nat>, t: nat, victim: string, k: string)
    requires Reachable(s, date) && k in s.state.entries && k !in Step(s, Enter(t, victim), date).state.entries
    ensures k == victim && |s.state.entries| == MaxEntries
    ensures s.state.entries[k].flight == None && s.state.entries[k].retryAt <= s.now
  {
    ReachableKeeps(s, date);
    assert ThreadOk(s, t);
  }

  /** A refusal is logged with the cooldown it starts and the time its request was sent. */
  lemma RefusalIsLogged(s: System, date: string -> Option<nat>, t: nat, raw: string)
    requires Reachable(s, date) && t < |s.threads| && s.threads[t].Sent? && InRange(s.now)
    ensures var th := s.threads[t];
            Step(s, Conclude(t, Refusal(raw)), date).log ==
              s.log + [Limited(th.scope, th.flight, RetryAt(raw, s.now, Streak(s.log, th.scope) + 1, date),
                               th.attemptedAt, s.now)]
  {
    ReachableKeeps(s, date);
    GuardHolds(s, t);
    assert EntryOk(s, s.threads[t].scope);
  }

  /** With no usable header, the n-th refusal in a row waits the n-th backoff. */
  lemma WaitsGrow(s: System, date: string -> Option<nat>, t: nat, raw: string)
    requires Reachable(s, date) && t < |s.threads| && s.threads[t].Sent?
    requires InRange(s.now) && Deadline(raw, s.now, date) == None
    ensures var th := s.threads[t];
            var until := s.now + Backoff(Streak(s.log, th.scope) + 1);
            Step(s, Conclude(t, Refusal(raw)), date).log ==
              s.log + [Limited(th.scope, th.flight, until, th.attemptedAt, s.now)]
  {
    RefusalIsLogged(s, date, t, raw);
  }

  /** A header that is a date not yet past is kept to the nanosecond; */
  lemma WaitsForDate(s: System, date: string -> Option<nat>, t: nat, raw: string, at: nat)
    requires Reachable(s, date) && t < |s.threads| && s.threads[t].Sent? && InRange(s.now)
    requires Trim(raw) != "" && date(Trim(raw)) == Some(at) && s.now <= at
    requires IsNumber(Trim(raw)) ==> Decimal(Trim(raw)) > MaxUint64
    ensures var th := s.threads[t];
            Step(s, Conclude(t, Refusal(raw)), date).log ==
              s.log + [Limited(th.scope, th.flight, at, th.attemptedAt, s.now)]
  {
    RefusalIsLogged(s, date, t, raw);
  }

  /** and one that is a number of seconds too, within the year 9999. */
  lemma WaitsForSeconds(s: System, date: string -> Option<nat>, t: nat, raw: string)
    requires Reachable(s, date) && t < |s.threads| && s.threads[t].Sent? && InRange(s.now)
    requires IsNumber(Trim(raw)) && s.now / Second + Decimal(Trim(raw)) <= LastSecond
    ensures var th := s.threads[t];
            Step(s, Conclude(t, Refusal(raw)), date).log ==
              s.log + [Limited(th.scope, th.flight, s.now + Decimal(Trim(raw)) * Second, th.attemptedAt, s.now)]
  {
    RefusalIsLogged(s, date, t, raw);
    SecondsAreExact(raw, s.now, date);
  }
}
