/**
 What a request comes to, in terms of what happened before: the answers of flights, who is
 turned away, who follows and who leads, and which scope makes room.
 */
module CoalesceAnswers {
  import opened Cooldown
  import opened HttpState
  import opened Coalesce
  import opened Wrappers

  // ---- reading the log ----

  /** The refusal whose cooldown is in force for k: the last event that settles it. */
  function Standing(log: seq<Event>, k: string): Option<Event> {
    if log == [] then None
    else
      var e := log[|log| - 1];
      if e.scope != k || !Settles(e) then Standing(log[..|log| - 1], k) else if e.Limited? then Some(e) else None
  }

  /** When k was last taken up, by the reading of whoever led, or refused. */
  function LastTouch(log: seq<Event>, k: string): nat {
    if log == [] then 0
    else
      var e := log[|log| - 1];
      if e.scope == k && e.Taken? then e.read
      else if e.scope == k && e.Limited? then e.at
      else LastTouch(log[..|log| - 1], k)
  }

  lemma OneMore(log: seq<Event>, e: Event, k: string)
    ensures Standing(log + [e], k) ==
            if e.scope != k || !Settles(e) then Standing(log, k) else if e.Limited? then Some(e) else None
    ensures LastTouch(log + [e], k) ==
            if e.scope == k && e.Taken? then e.read else if e.scope == k && e.Limited? then e.at else LastTouch(log, k)
  {
    assert (log + [e])[..|log|] == log;
  }

  lemma {:induction false} StandingIsLogged(log: seq<Event>, k: string)
    ensures Standing(log, k).Some? ==>
              Standing(log, k).value in log && Standing(log, k).value.Limited? && Standing(log, k).value.scope == k
  {
    if log != [] {
      StandingIsLogged(log[..|log| - 1], k);
    }
  }

  predicate Concludes(e: Event, f: nat) { (e.Limited? || e.Cleared?) && e.flight == f }

  // ---- what every interleaving keeps ----

  /** A flight says exactly what its leader received. */
  ghost predicate EventOk(s: System, e: Event) {
    var fs := s.state.flights;
    match e
    case Taken(k, f, _) => f < |fs| && fs[f].scope == k
    case Started(k, f, at) => f < |fs| && fs[f].scope == k && at <= s.now
    case Limited(k, f, at, attemptedAt, _) =>
      && f < |fs| && fs[f].scope == k && fs[f].closed
      && fs[f].body == "" && fs[f].err == Some(RateLimited(at, attemptedAt)) && Started(k, f, attemptedAt) in s.log
    case Cleared(k, f, body, err) =>
      f < |fs| && fs[f].scope == k && fs[f].closed && fs[f].body == body && fs[f].err == err
    case Evicted(_) => true
  }

  ghost predicate FlightTold(s: System, f: nat)
    requires f < |s.state.flights|
  {
    var fl := s.state.flights[f];
    if fl.closed then exists e :: e in s.log && Concludes(e, f) else fl.body == "" && fl.err == None
  }

  ghost predicate ThreadTold(s: System, th: Thread) {
    match th
    case Sent(k, f, at) => Started(k, f, at) in s.log
    case Cooled(k, _, at, attemptedAt) =>
      exists e :: e in s.log && e.Limited? && e.scope == k && e.retryAt == at && e.attemptedAt == attemptedAt
    case _ => true
  }

  ghost predicate EntryTold(s: System, k: string)
    requires k in s.state.entries
  {
    var e := s.state.entries[k];
    && e.touchedAt == LastTouch(s.log, k)
    && match Standing(s.log, k)
       case None => e.retryAt == 0
       case Some(ev) => ev.Limited? && e.retryAt == ev.retryAt && e.lastAttempt == ev.attemptedAt
  }

  ghost predicate Told(s: System) {
    && (forall e :: e in s.log ==> EventOk(s, e))
    && (forall f: nat :: f < |s.state.flights| ==> FlightTold(s, f))
    && (forall th :: th in s.threads ==> ThreadTold(s, th))
    && (forall k :: k in s.state.entries ==> EntryTold(s, k))
    && (forall k :: k !in s.state.entries ==> Standing(s.log, k) == None)
  }

  /** From s to n: flights keep their scope, closed ones their result, and the log grows. */
  ghost predicate Grows(s: System, n: System) {
    var fs, gs := s.state.flights, n.state.flights;
    && s.now <= n.now && s.log <= n.log && |fs| <= |gs|
    && forall f: nat :: f < |fs| ==> gs[f].scope == fs[f].scope && (fs[f].closed ==> SameResult(fs[f], gs[f]))
  }

  lemma EventsStay(s: System, n: System)
    requires Told(s) && Grows(s, n)
    ensures forall e :: e in s.log ==> EventOk(n, e)
  {
    forall e | e in s.log ensures EventOk(n, e) {
      assert EventOk(s, e);
    }
  }

  /** A step that leaves the log, the entries and the results of flights alone. */
  lemma QuietTells(s: System, n: System, th: Thread)
    requires Told(s) && Grows(s, n) && n.log == s.log && n.state.entries == s.state.entries
    requires |n.state.flights| == |s.state.flights|
    requires forall f: nat :: f < |s.state.flights| ==> SameResult(s.state.flights[f], n.state.flights[f])
    requires ThreadTold(n, th) && forall u :: u in n.threads ==> u == th || u in s.threads
    ensures Told(n)
  {
    EventsStay(s, n);
    forall f: nat | f < |n.state.flights| ensures FlightTold(n, f) {
      assert FlightTold(s, f);
    }
    forall u | u in n.threads ensures ThreadTold(n, u) {
      assert u == th || ThreadTold(s, u);
    }
    forall k | k in n.state.entries ensures EntryTold(n, k) {
      assert EntryTold(s, k);
    }
  }

  lemma SeatTells(s: System, t: nat, th: Thread)
    requires Told(s) && t < |s.threads| && ThreadTold(s, th)
    ensures Told(s.(threads := s.threads[t := th]))
  {
    QuietTells(s, s.(threads := s.threads[t := th]), th);
  }

  lemma LeftTells(s: System, t: nat, th: Thread)
    requires Told(s) && t < |s.threads| && s.threads[t].Waiting? && s.threads[t].flight < |s.state.flights|
    requires th.Answered? || th.Canceled?
    ensures Told(Left(s, t, th))
  {
    QuietTells(s, Left(s, t, th), th);
  }

  lemma FollowTells(s: System, t: nat, f: nat)
    requires Told(s) && t < |s.threads| && s.threads[t].AtLock? && f < |s.state.flights|
    ensures Told(Followed(s, t, f))
  {
    QuietTells(s, Followed(s, t, f), Waiting(s.threads[t].scope, f));
  }

  lemma SendTells(s: System, t: nat, date: string -> Option<nat>)
    requires Inv(s) && Told(s)
    ensures Told(Step(s, Send(t), date))
  {
    var n := Step(s, Send(t), date);
    if n != s {
      var ev := Started(s.threads[t].scope, s.threads[t].flight, s.now);
      assert ThreadOk(s, t);
      EventsStay(s, n);
      forall f: nat | f < |n.state.flights| ensures FlightTold(n, f) {
        assert FlightTold(s, f);
      }
      forall u | u in n.threads ensures ThreadTold(n, u) {
        assert u == n.threads[t] || ThreadTold(s, u);
      }
      forall k ensures Standing(n.log, k) == Standing(s.log, k) && LastTouch(n.log, k) == LastTouch(s.log, k) {
        OneMore(s.log, ev, k);
      }
      forall k | k in n.state.entries ensures EntryTold(n, k) {
        assert EntryTold(s, k);
      }
    }
  }

  lemma DropTells(s: System, victim: string)
    requires Told(s) && victim in s.state.entries
    ensures Told(Dropped(s, victim))
  {
    var n := Dropped(s, victim);
    EventsStay(s, n);
    forall f: nat | f < |n.state.flights| ensures FlightTold(n, f) {
      assert FlightTold(s, f);
    }
    forall u | u in n.threads ensures ThreadTold(n, u) {
      assert ThreadTold(s, u);
    }
    forall k
      ensures Standing(n.log, k) == if k == victim then None else Standing(s.log, k)
      ensures LastTouch(n.log, k) == LastTouch(s.log, k) {
      OneMore(s.log, Evicted(victim), k);
    }
    forall k | k in n.state.entries ensures EntryTold(n, k) {
      assert EntryTold(s, k);
    }
  }

  lemma LedTells(s: System, t: nat)
    requires Told(s) && t < |s.threads| && s.threads[t].AtLock?
    ensures Told(Led(s, t))
  {
    var n, th, id := Led(s, t), s.threads[t], |s.state.flights|;
    EventsStay(s, n);
    forall f: nat | f < |n.state.flights| ensures FlightTold(n, f) {
      assert f < id ==> FlightTold(s, f);
    }
    forall u | u in n.threads ensures ThreadTold(n, u) {
      assert u == n.threads[t] || ThreadTold(s, u);
    }
    forall k
      ensures Standing(n.log, k) == Standing(s.log, k)
      ensures LastTouch(n.log, k) == if k == th.scope then th.read else LastTouch(s.log, k) {
      OneMore(s.log, Taken(th.scope, id, th.read), k);
    }
    forall k | k in n.state.entries ensures EntryTold(n, k) {
      assert k in s.state.entries ==> EntryTold(s, k);
    }
  }

  lemma EnterTells(s: System, t: nat, victim: string)
    requires Inv(s) && Told(s) && t < |s.threads| && s.threads[t].AtLock?
    requires MustEvict(s.state.entries, s.threads[t].scope) ==> Chosen(s.state.entries, s.threads[t].read, victim)
    ensures Told(Entered(s, t, victim))
  {
    var th, es, n := s.threads[t], s.state.entries, Entered(s, t, victim);
    var k := th.scope;
    assert ThreadOk(s, t);
    assert k in es ==> EntryOk(s, k) && EntryTold(s, k);
    if k in es && th.read < es[k].retryAt {
      EnteredSeats(s, t, victim);
      StandingIsLogged(s.log, k);
      assert ThreadTold(s, n.threads[t]);
      SeatTells(s, t, n.threads[t]);
    } else if k in es && es[k].flight.Some? {
      EnteredFollows(s, t, victim);
      FollowTells(s, t, es[k].flight.value);
    } else if !MustEvict(es, k) {
      LedTells(s, t);
      EnteredLeads(s, t, victim);
    } else if victim == "" {
      EnteredSeats(s, t, victim);
      SeatTells(s, t, n.threads[t]);
    } else {
      DropTells(s, victim);
      LedTells(Dropped(s, victim), t);
      EnteredDrops(s, t, victim);
    }
  }

  // ---- concluding ----

  /** What the leader of f received, as the log has it. */
  ghost predicate EventFor(th: Thread, o: Outcome, now: nat, ev: Event)
    requires Leads(th)
  {
    match o
    case Other(body, err) => ev == Cleared(th.scope, th.flight, body, err)
    case Refusal(_) =>
      ev.Limited? && ev.scope == th.scope && ev.flight == th.flight && ev.at == now
      && th.Sent? && ev.attemptedAt == th.attemptedAt
  }

  lemma ConcludeShape(s: System, t: nat, o: Outcome, date: string -> Option<nat>)
    requires Inv(s) && Told(s) && Step(s, Conclude(t, o), date) != s
    ensures t < |s.threads| && Leads(s.threads[t])
    ensures var n, th := Step(s, Conclude(t, o), date), s.threads[t]; var f := th.flight;
            && n.threads == s.threads[t := n.threads[t]] && n.threads[t].Answered? && n.now == s.now
            && |n.log| == |s.log| + 1 && n.log == s.log + [n.log[|s.log|]] && EventFor(th, o, s.now, n.log[|s.log|])
            && f < |s.state.flights| && !s.state.flights[f].closed && s.state.flights[f].scope == th.scope
            && n.state.flights == s.state.flights[f := n.state.flights[f]]
            && n.state.flights[f].closed && n.state.flights[f].scope == th.scope
            && (o.Other? ==> n.state.flights[f].body == o.body && n.state.flights[f].err == o.err)
            && (o.Refusal? ==>
                  var ev, fl := n.log[|s.log|], n.state.flights[f];
                  fl.body == "" && fl.err == Some(RateLimited(ev.retryAt, ev.attemptedAt)))
  {
    GuardHolds(s, t);
    assert ThreadOk(s, t);
    assert FlightTold(s, s.threads[t].flight);
  }

  lemma ConcludeEntryShape(s: System, t: nat, o: Outcome, date: string -> Option<nat>)
    requires Inv(s) && Told(s) && Step(s, Conclude(t, o), date) != s
    ensures t < |s.threads| && Leads(s.threads[t]) && |Step(s, Conclude(t, o), date).log| == |s.log| + 1
    ensures var n, k := Step(s, Conclude(t, o), date), s.threads[t].scope;
            && k in s.state.entries
            && if o.Other? then n.state.entries == s.state.entries - {k}
               else
                 && k in n.state.entries && n.state.entries == s.state.entries[k := n.state.entries[k]]
                 && var e, ev := n.state.entries[k], n.log[|s.log|];
                    ev.Limited? && e.retryAt == ev.retryAt && e.lastAttempt == ev.attemptedAt && e.touchedAt == s.now
  {
    GuardHolds(s, t);
  }

  lemma ConcludeTells(s: System, t: nat, o: Outcome, date: string -> Option<nat>)
    requires Inv(s) && Told(s) && Step(s, Conclude(t, o), date) != s
    ensures Told(Step(s, Conclude(t, o), date))
  {
    var n := Step(s, Conclude(t, o), date);
    ConcludeShape(s, t, o, date);
    var th, f, ev := s.threads[t], s.threads[t].flight, n.log[|s.log|];
    EventsStay(s, n);
    assert ThreadTold(s, th);
    assert EventOk(n, ev);
    forall g: nat | g < |n.state.flights| ensures FlightTold(n, g) {
      assert FlightTold(s, g);
      assert g == f ==> ev in n.log && Concludes(ev, g);
    }
    forall u | u in n.threads ensures ThreadTold(n, u) {
      assert u == n.threads[t] || ThreadTold(s, u);
    }
    ConcludeEntriesTell(s, t, o, date);
  }

  lemma ConcludeEntriesTell(s: System, t: nat, o: Outcome, date: string -> Option<nat>)
    requires Inv(s) && Told(s) && Step(s, Conclude(t, o), date) != s
    ensures var n := Step(s, Conclude(t, o), date);
            && (forall k :: k in n.state.entries ==> EntryTold(n, k))
            && (forall k :: k !in n.state.entries ==> Standing(n.log, k) == None)
  {
    var n := Step(s, Conclude(t, o), date);
    ConcludeShape(s, t, o, date);
    ConcludeEntryShape(s, t, o, date);
    var ev := n.log[|s.log|];
    forall k
      ensures k in n.state.entries ==> EntryTold(n, k)
      ensures k !in n.state.entries ==> Standing(n.log, k) == None {
      OneMore(s.log, ev, k);
      assert k in s.state.entries ==> EntryTold(s, k);
    }
  }

  lemma StepTells(s: System, a: Action, date: string -> Option<nat>)
    requires Inv(s) && Told(s)
    ensures Told(Step(s, a, date))
  {
    var n := Step(s, a, date);
    if n != s {
      match a
      case Tick(d) => QuietTells(s, n, Misconfigured);
      case Call(scope) => QuietTells(s, n, n.threads[|s.threads|]);
      case Enter(t, victim) => EnterTells(s, t, victim);
      case Send(t) => SendTells(s, t, date);
      case Conclude(t, o) => ConcludeTells(s, t, o, date);
      case Wake(t) => LeftTells(s, t, n.threads[t]);
      case Cancel(t) => LeftTells(s, t, n.threads[t]);
    }
  }

  lemma {:induction false} RunTells(s: System, run: seq<Action>, date: string -> Option<nat>)
    requires Inv(s) && Told(s)
    ensures Inv(Run(s, run, date)) && Told(Run(s, run, date))
    decreases run
  {
    if run != [] {
      StepKeeps(s, run[0], date);
      StepTells(s, run[0], date);
      RunTells(Step(s, run[0], date), run[1..], date);
    }
  }

  // ---- what holds on every run ----

  /** What the event says that whoever is answered by its flight holds. */
  ghost predicate Says(log: seq<Event>, e: Event, scope: string, f: nat, body: string, err: Option<Failure>) {
    && e.scope == scope
    && match e
       case Limited(_, _, at, attemptedAt, _) =>
         body == "" && err == Some(RateLimited(at, attemptedAt)) && Started(scope, f, attemptedAt) in log
       case Cleared(_, _, b, er) => body == b && err == er
       case _ => false
  }

  /** In every interleaving: whoever is answered by a flight, leader or follower, holds what
      its leader received. After a refusal that is the rate-limit error with the cooldown on
      record and the time of that send; otherwise it is exactly the body and error received. */
  lemma AnswersAreReceived(run: seq<Action>, date: string -> Option<nat>, t: nat)
    requires t < |Run(Boot, run, date).threads| && Run(Boot, run, date).threads[t].Answered?
    ensures var s := Run(Boot, run, date); var th := s.threads[t];
            && (exists e :: e in s.log && Concludes(e, th.flight))
            && forall e :: e in s.log && Concludes(e, th.flight) ==>
                 Says(s.log, e, th.scope, th.flight, th.body, th.err)
  {
    RunTells(Boot, run, date);
    AnswerIsReceived(Run(Boot, run, date), t);
  }

  lemma AnswerIsReceived(s: System, t: nat)
    requires Inv(s) && Told(s) && t < |s.threads| && s.threads[t].Answered?
    ensures var th := s.threads[t];
            && (exists e :: e in s.log && Concludes(e, th.flight))
            && forall e :: e in s.log && Concludes(e, th.flight) ==>
                 Says(s.log, e, th.scope, th.flight, th.body, th.err)
  {
    var th := s.threads[t];
    assert ThreadOk(s, t) && FlightTold(s, th.flight);
    forall e | e in s.log && Concludes(e, th.flight) ensures Says(s.log, e, th.scope, th.flight, th.body, th.err) {
      assert EventOk(s, e);
    }
  }

  lemma ReachableTells(s: System, date: string -> Option<nat>)
    requires Reachable(s, date)
    ensures Inv(s) && Told(s)
  {
    var run :| s == Run(Boot, run, date);
    RunTells(Boot, run, date);
  }

  /** A flight of k is under way. */
  ghost predicate UnderWay(s: System, k: string, f: nat) {
    f < |s.state.flights| && !s.state.flights[f].closed && s.state.flights[f].scope == k
  }

  predicate NoneSpare(entries: map<string, Entry>, now: nat) { forall k :: k in entries ==> !Spare(entries[k], now) }

  /** How a request that takes its turn under the lock fares: turned away while a cooldown is
      in force, with that refusal's times; following the flight under way; turned away for
      want of room; and leading otherwise. */
  lemma EnterDecides(s: System, date: string -> Option<nat>, t: nat, victim: string)
    requires Reachable(s, date) && t < |s.threads| && s.threads[t].AtLock?
    requires MustEvict(s.state.entries, s.threads[t].scope) ==> Chosen(s.state.entries, s.threads[t].read, victim)
    ensures var th, after := s.threads[t], Step(s, Enter(t, victim), date).threads[t];
            var k, standing := th.scope, Standing(s.log, th.scope);
            if standing.Some? && standing.value.Limited? && th.read < standing.value.retryAt then
              after == Cooled(k, th.read, standing.value.retryAt, standing.value.attemptedAt)
            else if exists f: nat :: UnderWay(s, k, f) then
              after.Waiting? && after.scope == k && UnderWay(s, k, after.flight)
            else if MustEvict(s.state.entries, k) && NoneSpare(s.state.entries, th.read) then
              after == Crowded(k, th.read)
            else after == Leading(k, |s.state.flights|)
  {
    ReachableTells(s, date);
    var th := s.threads[t];
    var k, es := th.scope, s.state.entries;
    assert ThreadOk(s, t);
    assert k in es ==> EntryOk(s, k) && EntryTold(s, k);
    if f: nat :| UnderWay(s, k, f) {
      assert FlightOk(s, f);
    }
    if k in es && es[k].flight.Some? {
      assert UnderWay(s, k, es[k].flight.value);
    }
  }

  lemma VanishedIsChosen(s: System, date: string -> Option<nat>, t: nat, victim: string)
    requires t < |s.threads| && s.threads[t].AtLock?
    requires victim in s.state.entries && victim !in Step(s, Enter(t, victim), date).state.entries
    ensures Chosen(s.state.entries, s.threads[t].read, victim) && victim != ""
  {
  }

  /** Of the scopes that could make room, one goes that was taken up or refused least
      recently. */
  lemma EvictsOldest(s: System, date: string -> Option<nat>, t: nat, victim: string, k: string)
    requires Reachable(s, date) && t < |s.threads| && s.threads[t].AtLock?
    requires victim in s.state.entries && victim !in Step(s, Enter(t, victim), date).state.entries
    requires k in s.state.entries && Spare(s.state.entries[k], s.threads[t].read)
    ensures LastTouch(s.log, victim) <= LastTouch(s.log, k)
  {
    ReachableTells(s, date);
    VanishedIsChosen(s, date, t, victim);
    assert EntryTold(s, victim) && EntryTold(s, k);
  }
}
