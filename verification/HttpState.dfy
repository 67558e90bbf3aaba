/**
 The state one provider client shares between its requests: an entry per cache scope
 holding the flight under way and the cooldown after a refusal. Every member is one
 section under the lock; flights are named by their place in the list of all flights.
 */
module HttpState {
  import opened Cooldown
  import opened Wrappers

  const MaxEntries := 64

  datatype Failure = RateLimited(retryAt: int, attemptedAt: nat) | Failed(code: nat)

  /** scope and leader record who started the flight. */
  datatype Flight = Flight(scope: string, leader: nat, closed: bool, body: string, err: Option<Failure>, waiters: int)

  datatype Entry = Entry(flight: Option<nat>, retryAt: int, lastAttempt: nat, consecutive429: nat, touchedAt: nat)

  datatype State = State(entries: map<string, Entry>, flights: seq<Flight>)

  datatype Admission = Cooling(retryAt: int, lastAttempt: nat) | Follow(flight: nat) | Lead(flight: nat) | Full

  /** What a request came to. */
  datatype Outcome = Other(body: string, err: Option<Failure>) | Refusal(retryAfter: string)

  /** An entry that may be dropped to make room. */
  predicate Spare(e: Entry, now: nat) {
    e.flight == None && now >= e.retryAt
  }

  /** The entry to drop: one of the least recently touched spare ones, or "" for none. */
  ghost predicate Chosen(entries: map<string, Entry>, now: nat, victim: string) {
    && (victim == "" ==> forall k :: k in entries ==> !Spare(entries[k], now))
    && (victim != "" ==> victim in entries && Spare(entries[victim], now)
                         && forall k :: k in entries && Spare(entries[k], now) ==>
                             entries[victim].touchedAt <= entries[k].touchedAt)
  }

  predicate MustEvict(entries: map<string, Entry>, scope: string) {
    scope !in entries && |entries| >= MaxEntries
  }

  function Opened(s: State, scope: string, e: Entry, now: nat, leader: nat): State {
    State(s.entries[scope := e.(flight := Some(|s.flights|), touchedAt := now)],
          s.flights + [Flight(scope, leader, false, "", None, 0)])
  }

  const Blank := Entry(None, 0, 0, 0, 0)

  function Acquire(s: State, scope: string, now: nat, leader: nat, victim: string): (State, Admission) {
    if scope in s.entries && now < s.entries[scope].retryAt then
      (s, Cooling(s.entries[scope].retryAt, s.entries[scope].lastAttempt))
    else if scope in s.entries && s.entries[scope].flight.Some? then
      var f := s.entries[scope].flight.value;
      (if f < |s.flights| then s.(flights := s.flights[f := s.flights[f].(waiters := s.flights[f].waiters + 1)]) else s,
       Follow(f))
    else if scope in s.entries then
      (Opened(s, scope, s.entries[scope], now, leader), Lead(|s.flights|))
    else if |s.entries| < MaxEntries then
      (Opened(s, scope, Blank, now, leader), Lead(|s.flights|))
    else if victim == "" then
      (s, Full)
    else
      (Opened(s.(entries := s.entries - {victim}), scope, Blank, now, leader), Lead(|s.flights|))
  }

  function WaiterDone(s: State, f: nat): State
    requires f < |s.flights|
  {
    s.(flights := s.flights[f := s.flights[f].(waiters := s.flights[f].waiters - 1)])
  }

  function Finish(s: State, scope: string, f: nat, o: Outcome, attemptedAt: nat, now: nat,
      date: string -> Option<nat>): State
    requires f < |s.flights| && now / Second <= MaxInt64
  {
    if scope !in s.entries || s.entries[scope].flight != Some(f) then s
    else
      var e := s.entries[scope];
      match o
      case Refusal(raw) =>
        var at := RetryAt(raw, now, e.consecutive429 + 1, date);
        State(s.entries[scope := Entry(None, at, attemptedAt, e.consecutive429 + 1, now)],
              s.flights[f := s.flights[f].(closed := true, err := Some(RateLimited(at, attemptedAt)))])
      case Other(body, err) =>
        State(s.entries - {scope}, s.flights[f := s.flights[f].(closed := true, body := body, err := err)])
  }

  class Shared {
    var entries: map<string, Entry>
    var flights: seq<Flight>

    ghost predicate Valid()
      reads this
    {
      && "" !in entries
      && forall k :: k in entries && entries[k].flight.Some? ==> entries[k].flight.value < |flights|
    }

    ghost function View(): State
      reads this
    {
      State(entries, flights)
    }

    constructor ()
      ensures Valid() && View() == State(map[], [])
    {
      entries, flights := map[], [];
    }

    method MakeRoom(now: nat) returns (ok: bool, victim: string)
      requires Valid()
      modifies this`entries
      ensures ok == (|old(entries)| < MaxEntries || victim != "")
      ensures |old(entries)| < MaxEntries ==> entries == old(entries)
      ensures |old(entries)| >= MaxEntries ==> Chosen(old(entries), now, victim) && entries == old(entries) - {victim}
    {
      victim := "";
      if |entries| < MaxEntries {
        return true, victim;
      }
      var oldest := 0;
      var rest := entries.Keys;
      while rest != {}
        invariant rest <= entries.Keys
        invariant Chosen(map k | k in entries && k !in rest :: entries[k], now, victim)
        invariant victim != "" ==> oldest == entries[victim].touchedAt
      {
        var scope :| scope in rest;
        rest := rest - {scope};
        var entry := entries[scope];
        if entry.flight.Some? || now < entry.retryAt {
          continue;
        }
        if victim == "" || entry.touchedAt < oldest {
          victim, oldest := scope, entry.touchedAt;
        }
      }
      assert (map k | k in entries && k !in rest :: entries[k]) == entries;
      ok := victim != "";
      entries := entries - {victim};
    }

    /** The locked section of acquire; leader names the caller. */
    method AcquireLocked(scope: string, now: nat, leader: nat) returns (a: Admission, ghost victim: string)
      requires Valid() && scope != ""
      modifies this
      ensures Valid()
      ensures MustEvict(old(entries), scope) ==> Chosen(old(entries), now, victim)
      ensures (View(), a) == Acquire(old(View()), scope, now, leader, victim)
    {
      victim := "";
      if scope in entries && now < entries[scope].retryAt {
        return Cooling(entries[scope].retryAt, entries[scope].lastAttempt), victim;
      }
      if scope in entries && entries[scope].flight.Some? {
        var f := entries[scope].flight.value;
        flights := flights[f := flights[f].(waiters := flights[f].waiters + 1)];
        return Follow(f), victim;
      }
      var entry := Blank;
      if scope in entries {
        entry := entries[scope];
      } else {
        var ok, dropped := MakeRoom(now);
        victim := dropped;
        if !ok {
          assert entries == old(entries);
          return Full, victim;
        }
      }
      a := Open(scope, entry, now, leader);
    }

    method Open(scope: string, entry: Entry, now: nat, leader: nat) returns (a: Admission)
      requires Valid() && scope != ""
      modifies this
      ensures Valid() && View() == Opened(old(View()), scope, entry, now, leader) && a == Lead(|old(flights)|)
    {
      entries := entries[scope := entry.(flight := Some(|flights|), touchedAt := now)];
      a := Lead(|flights|);
      flights := flights + [Flight(scope, leader, false, "", None, 0)];
    }

    method WaiterDoneLocked(f: nat)
      requires Valid() && f < |flights|
      modifies this`flights
      ensures Valid() && View() == WaiterDone(old(View()), f)
    {
      flights := flights[f := flights[f].(waiters := flights[f].waiters - 1)];
    }

    /** The locked section of finish; now is read inside it. */
    method FinishLocked(scope: string, f: nat, o: Outcome, attemptedAt: nat, now: nat, date: string -> Option<nat>)
      requires Valid() && f < |flights| && now / Second <= MaxInt64
      modifies this
      ensures Valid() && View() == Finish(old(View()), scope, f, o, attemptedAt, now, date)
    {
      if scope !in entries || entries[scope].flight != Some(f) {
        return;
      }
      var entry := entries[scope].(lastAttempt := attemptedAt, touchedAt := now);
      var flight := flights[f].(closed := true);
      match o {
        case Refusal(raw) =>
          entry := entry.(consecutive429 := entry.consecutive429 + 1);
          var deadline := Deadline(raw, now, date);
          var retryAt: int;
          if deadline.Some? {
            retryAt := deadline.value;
          } else {
            var backoff := FallbackBackoff(entry.consecutive429);
            retryAt := now + backoff;
          }
          flight := flight.(err := Some(RateLimited(retryAt, attemptedAt)));
          entries := entries[scope := entry.(retryAt := retryAt, flight := None)];
        case Other(body, err) =>
          flight := flight.(body := body, err := err);
          entries := entries - {scope};
      }
      flights := flights[f := flight];
    }
  }
}
