/**
 The idle timer and the server's drain check, interleaved: requests hold the timer,
 then ask whether it has fired, then are served or refused; the timer's wakeups fall
 anywhere between.
 */
module IdleDrain {
  import opened IdleTimer

  /** Where a request that is not exempt stands in withActivity. */
  datatype Phase = Arrived | Held | Serving | Refusing | Done

  /** reports: the activity tracker can say whether it has fired. */
  datatype System = System(timer: State, requests: seq<Phase>, now: nat, reports: bool)

  datatype Action =
    | Tick(d: nat) | RingAlarm | ExpireAlarm | StartTimer | StopTimer | TouchTimer
    | Arrive | TakeHold(r: nat) | Check(r: nat) | Leave(r: nat)

  function Boot(timeout: nat, callback: bool, now: nat, reports: bool): System {
    System(Init(timeout, callback, now), [], now, reports)
  }

  predicate Holding(p: Phase) { p == Held || p == Serving || p == Refusing }

  /** An action that is not possible changes nothing, so any sequence is a run. */
  function Step(s: System, a: Action): System {
    match a
    case Tick(d) => s.(now := s.now + d)
    case RingAlarm => s.(timer := Ring(s.timer, s.now))
    case ExpireAlarm => s.(timer := Expired(s.timer, s.now))
    case StartTimer => s.(timer := Started(s.timer, s.now))
    case StopTimer => s.(timer := Halted(s.timer))
    case TouchTimer => s.(timer := Touched(s.timer, s.now))
    case Arrive => s.(requests := s.requests + [Arrived])
    case TakeHold(r) =>
      if r < |s.requests| && s.requests[r] == Arrived then
        s.(requests := s.requests[r := Held], timer := HeldOpen(s.timer, s.now))
      else s
    case Check(r) =>
      if r < |s.requests| && s.requests[r] == Held then
        s.(requests := s.requests[r := if s.reports && s.timer.fired then Refusing else Serving])
      else s
    case Leave(r) =>
      if r < |s.requests| && (s.requests[r] == Serving || s.requests[r] == Refusing) then
        s.(requests := s.requests[r := Done], timer := Released(s.timer, s.now))
      else s
  }

  function Run(s: System, run: seq<Action>): System
    decreases run
  {
    if run == [] then s else Run(Step(s, run[0]), run[1..])
  }

  function Holds(ps: seq<Phase>): nat {
    if ps == [] then 0 else (if Holding(ps[0]) then 1 else 0) + Holds(ps[1..])
  }

  lemma {:induction false} HoldsUpdate(ps: seq<Phase>, r: nat, p: Phase)
    requires r < |ps|
    ensures Holds(ps[r := p]) == Holds(ps) - (if Holding(ps[r]) then 1 else 0) + (if Holding(p) then 1 else 0)
  {
    if r == 0 {
      assert ps[r := p][1..] == ps[1..];
    } else {
      assert ps[r := p][1..] == ps[1..][r - 1 := p];
      HoldsUpdate(ps[1..], r - 1, p);
    }
  }

  lemma {:induction false} HoldsAppend(ps: seq<Phase>, p: Phase)
    ensures Holds(ps + [p]) == Holds(ps) + if Holding(p) then 1 else 0
  {
    if ps == [] {
      assert [p][1..] == [];
    } else {
      assert (ps + [p])[1..] == ps[1..] + [p];
      HoldsAppend(ps[1..], p);
    }
  }

  lemma {:induction false} HoldsNone(ps: seq<Phase>, r: nat)
    requires r < |ps| && Holding(ps[r])
    ensures 0 < Holds(ps)
  {
    if 0 < r {
      HoldsNone(ps[1..], r - 1);
    }
  }

  // ---- safety ----

  /** What every interleaving keeps. */
  ghost predicate Inv(s: System) {
    var t := s.timer;
    && t.last <= s.now
    && (t.enabled ==> t.inflight == Holds(s.requests))
    && t.calls == (if t.fired then 1 else 0)
    && (t.fired ==> t.enabled && t.firedAt <= s.now)
    && (!t.enabled ==> t.alarm == Unarmed)
    && (s.reports && t.fired ==> forall r :: 0 <= r < |s.requests| ==> s.requests[r] != Serving)
  }

  lemma StepKeeps(s: System, a: Action)
    requires Inv(s)
    ensures Inv(Step(s, a))
  {
    match a
    case TakeHold(r) =>
      if r < |s.requests| {
        HoldsUpdate(s.requests, r, Held);
      }
    case Check(r) =>
      if r < |s.requests| {
        HoldsUpdate(s.requests, r, if s.reports && s.timer.fired then Refusing else Serving);
      }
    case Leave(r) =>
      if r < |s.requests| {
        HoldsUpdate(s.requests, r, Done);
      }
    case Arrive => HoldsAppend(s.requests, Arrived);
    case ExpireAlarm =>
      forall r | 0 <= r < |s.requests| && Holding(s.requests[r]) ensures s.timer.enabled ==> s.timer.inflight > 0 {
        HoldsNone(s.requests, r);
      }
    case _ =>
  }

  lemma {:induction false} RunKeeps(s: System, run: seq<Action>)
    requires Inv(s)
    ensures Inv(Run(s, run)) && Run(s, run).reports == s.reports
    decreases run
  {
    if run != [] {
      StepKeeps(s, run[0]);
      RunKeeps(Step(s, run[0]), run[1..]);
    }
  }

  /** Drain safety: in every interleaving no request is being served once the timer has
      fired, and the callback is called at most once. */
  lemma DrainSafe(timeout: nat, callback: bool, now: nat, run: seq<Action>)
    ensures var s := Run(Boot(timeout, callback, now, true), run);
            && (s.timer.fired ==> forall r :: 0 <= r < |s.requests| ==> s.requests[r] != Serving)
            && s.timer.calls <= 1
  {
    RunKeeps(Boot(timeout, callback, now, true), run);
  }

  /** A request is refused only once the timer has fired, and only by a server that asks. */
  ghost predicate RefusalsDue(s: System) {
    forall r: nat :: r < |s.requests| && s.requests[r] == Refusing ==> s.reports && s.timer.fired
  }

  lemma {:induction false} RefusedOnlyFired(s: System, run: seq<Action>)
    requires RefusalsDue(s)
    ensures RefusalsDue(Run(s, run))
    decreases run
  {
    if run != [] {
      RefusedOnlyFired(Step(s, run[0]), run[1..]);
    }
  }

  /** The step that fires finds no request holding the timer, and a whole timeout since
      the last activity; nothing after a Stop fires. */
  lemma FiresOnlyIdle(timeout: nat, callback: bool, now: nat, reports: bool, run: seq<Action>, a: Action)
    requires var s := Run(Boot(timeout, callback, now, reports), run); !s.timer.fired && Step(s, a).timer.fired
    ensures var s := Run(Boot(timeout, callback, now, reports), run);
            && (forall r :: 0 <= r < |s.requests| ==> !Holding(s.requests[r]))
            && s.timer.last + s.timer.timeout <= s.now && !s.timer.stopped
  {
    var b := Boot(timeout, callback, now, reports);
    RunKeeps(b, run);
    var s := Run(b, run);
    forall r | 0 <= r < |s.requests| ensures !Holding(s.requests[r]) {
      if Holding(s.requests[r]) {
        HoldsNone(s.requests, r);
      }
    }
  }

  /** Action a is activity: a request that comes or goes, a direct touch, or the start. */
  predicate IsActivity(s: System, a: Action) {
    match a
    case TouchTimer => true
    case StartTimer => !s.timer.started && !s.timer.stopped
    case TakeHold(r) => r < |s.requests| && s.requests[r] == Arrived
    case Leave(r) => r < |s.requests| && (s.requests[r] == Serving || s.requests[r] == Refusing)
    case _ => false
  }

  lemma LastStep(s: System, a: Action)
    requires Inv(s)
    ensures s.timer.last <= Step(s, a).timer.last && s.timer.enabled == Step(s, a).timer.enabled
    ensures s.timer.timeout == Step(s, a).timer.timeout
    ensures s.timer.enabled && IsActivity(s, a) ==> Step(s, a).timer.last == s.now
  {
  }

  lemma {:induction false} LastGrows(s: System, run: seq<Action>)
    requires Inv(s)
    ensures var e := Run(s, run).timer;
            s.timer.last <= e.last && s.timer.enabled == e.enabled && s.timer.timeout == e.timeout
    decreases run
  {
    if run != [] {
      LastStep(s, run[0]);
      StepKeeps(s, run[0]);
      LastGrows(Step(s, run[0]), run[1..]);
    }
  }

  /** Activity defers the callback: whatever happens after it, the step that fires comes a
      whole timeout later at the earliest. */
  lemma ActivityDefers(timeout: nat, callback: bool, boot: nat, reports: bool, before: seq<Action>, a: Action,
      after: seq<Action>, b: Action)
    requires var s := Run(Boot(timeout, callback, boot, reports), before);
             var e := Run(Step(s, a), after);
             IsActivity(s, a) && !e.timer.fired && Step(e, b).timer.fired
    ensures var s := Run(Boot(timeout, callback, boot, reports), before);
            var e := Run(Step(s, a), after);
            s.now + timeout <= e.now
  {
    var o := Boot(timeout, callback, boot, reports);
    var s := Run(o, before);
    RunKeeps(o, before);
    LastGrows(o, before);
    LastStep(s, a);
    StepKeeps(s, a);
    LastGrows(Step(s, a), after);
    RunKeeps(Step(s, a), after);
  }

  /** Nothing fires after a Stop. */
  lemma {:induction false} StopIsFinal(s: System, run: seq<Action>)
    requires s.timer.stopped && !s.timer.fired
    ensures Run(s, run).timer.stopped && !Run(s, run).timer.fired
    decreases run
  {
    if run != [] {
      StopIsFinal(Step(s, run[0]), run[1..]);
    }
  }

  lemma {:induction false} StaysDisarmed(s: System, run: seq<Action>)
    requires s.timer.stopped && s.timer.alarm == Unarmed
    ensures Run(s, run).timer.wakeups == s.timer.wakeups
    decreases run
  {
    if run != [] {
      StaysDisarmed(Step(s, run[0]), run[1..]);
    }
  }

  /** A Stop that finds no wakeup due leaves none to come. */
  lemma StopDisarms(s: System, run: seq<Action>)
    requires s.timer.alarm != Due
    ensures Run(Step(s, StopTimer), run).timer.wakeups == s.timer.wakeups
  {
    StaysDisarmed(Step(s, StopTimer), run);
  }

  ghost predicate Drained(s: System) {
    s.timer.fired ==> forall r :: 0 <= r < |s.requests| ==> s.requests[r] != Serving
  }

  /** The check after the hold is what makes the drain safe: an enabled timer's server is
      safe in every interleaving if and only if it asks. */
  lemma SafeIffChecked(timeout: nat, now: nat, reports: bool)
    requires 0 < timeout
    ensures reports <==> forall run :: Drained(Run(Boot(timeout, true, now, reports), run))
  {
    if reports {
      forall run ensures Drained(Run(Boot(timeout, true, now, reports), run)) {
        DrainSafe(timeout, true, now, run);
      }
    } else {
      var run := FiredRun(timeout, now);
      var s := Run(Boot(timeout, true, now, false), run);
      RunOn(Boot(timeout, true, now, false), run, [Arrive, TakeHold(|s.requests|), Check(|s.requests|)]);
      LateIsServed(s);
      var served := run + [Arrive, TakeHold(|s.requests|), Check(|s.requests|)];
      assert Run(Boot(timeout, true, now, false), served).requests[|s.requests|] == Serving;
    }
  }

  /** A run in which the timer fires, with nobody there. */
  lemma FiredRun(timeout: nat, now: nat) returns (run: seq<Action>)
    requires 0 < timeout
    ensures var s := Run(Boot(timeout, true, now, false), run); s.timer.fired && !s.reports && s.requests == []
  {
    run := [StartTimer, Tick(timeout), RingAlarm, ExpireAlarm];
    var s0 := Boot(timeout, true, now, false);
    var s1 := Step(s0, StartTimer);
    var s2 := Step(s1, Tick(timeout));
    var s3 := Step(s2, RingAlarm);
    assert s1.timer.alarm == Armed(now + timeout) && s3.timer.alarm == Due;
    RunOne(s0, run);
    RunOne(s1, run[1..]);
    RunOne(s2, run[2..]);
    RunOne(s3, run[3..]);
    assert run[4..] == [];
  }

  /** A request that arrives once the timer has fired, and is not asked about, is served. */
  lemma LateIsServed(s: System)
    requires !s.reports && s.timer.fired
    ensures var r := |s.requests|; var e := Run(s, [Arrive, TakeHold(r), Check(r)]);
            e.requests == s.requests + [Serving] && e.timer.fired
  {
    var r := |s.requests|;
    LateSteps(s);
    RunThree(s, Arrive, TakeHold(r), Check(r));
  }

  lemma LateSteps(s: System)
    requires !s.reports && s.timer.fired
    ensures var r := |s.requests|; var e := Step(Step(Step(s, Arrive), TakeHold(r)), Check(r));
            e.requests == s.requests + [Serving] && e.timer.fired
  {
    var r := |s.requests|;
    assert Step(s, Arrive).requests[r] == Arrived;
    assert Step(Step(s, Arrive), TakeHold(r)).requests == s.requests + [Held];
  }

  lemma RunThree(s: System, a: Action, b: Action, c: Action)
    ensures Run(s, [a, b, c]) == Step(Step(Step(s, a), b), c)
  {
    var run := [a, b, c];
    RunOne(s, run);
    assert run[1..] == [b, c];
    RunOne(Step(s, a), [b, c]);
    assert [b, c][1..] == [c];
    RunOne(Step(Step(s, a), b), [c]);
    assert [c][1..] == [];
  }

  lemma RunOne(s: System, run: seq<Action>)
    requires run != []
    ensures Run(s, run) == Run(Step(s, run[0]), run[1..])
  {
  }

  lemma {:induction false} RunOn(s: System, run: seq<Action>, more: seq<Action>)
    ensures Run(s, run + more) == Run(Run(s, run), more)
    decreases run
  {
    if run == [] {
      assert run + more == more;
    } else {
      assert (run + more)[0] == run[0] && (run + more)[1..] == run[1..] + more;
      RunOn(Step(s, run[0]), run[1..], more);
    }
  }

  // ---- timing ----

  /** A punctual runtime: the clock waits for a timer that is due, and for its wakeup. */
  ghost predicate Punctual(s: System, run: seq<Action>)
    decreases run
  {
    run != [] ==>
      && (run[0].Tick? ==> s.timer.alarm != Due && (s.timer.alarm.Armed? ==> s.now + run[0].d <= s.timer.alarm.at))
      && Punctual(Step(s, run[0]), run[1..])
  }

  ghost predicate Waiting(t: State) {
    t.enabled && t.started && !t.stopped && !t.fired
  }

  /** While it waits, a timer is armed for some time within one timeout, or due now. */
  ghost predicate Prompt(s: System) {
    Waiting(s.timer) ==>
      s.timer.alarm == Due || (s.timer.alarm.Armed? && s.now <= s.timer.alarm.at <= s.now + s.timer.timeout)
  }

  lemma PromptStep(s: System, a: Action)
    requires Inv(s) && Prompt(s) && Punctual(s, [a])
    ensures Prompt(Step(s, a))
  {
  }

  lemma {:induction false} StaysPrompt(s: System, run: seq<Action>)
    requires Inv(s) && Prompt(s) && Punctual(s, run)
    ensures Prompt(Run(s, run))
    decreases run
  {
    if run != [] {
      assert Punctual(s, [run[0]]);
      PromptStep(s, run[0]);
      StepKeeps(s, run[0]);
      StaysPrompt(Step(s, run[0]), run[1..]);
    }
  }

  /** A timer armed for some time wakes nobody before it. */
  ghost predicate Sleeps(s: System, at: nat, w: nat) {
    && s.timer.started && w <= s.timer.wakeups && (s.timer.wakeups > w ==> at <= s.now)
    && (s.timer.wakeups == w ==>
          (s.timer.alarm.Armed? ==> s.timer.alarm.at == at) && (s.timer.alarm == Due ==> at <= s.now))
  }

  lemma {:induction false} StaysAsleep(s: System, run: seq<Action>, at: nat, w: nat)
    requires Sleeps(s, at, w)
    ensures Sleeps(Run(s, run), at, w)
    decreases run
  {
    if run != [] {
      StaysAsleep(Step(s, run[0]), run[1..], at, w);
    }
  }

  /** A wakeup that finds the timer held is followed by the next a whole timeout later at the
      earliest, whatever happens in between. */
  lemma HeldIsPatient(s: System, run: seq<Action>)
    requires s.timer.alarm == Due && Waiting(s.timer) && 0 < s.timer.inflight
    requires Run(Step(s, ExpireAlarm), run).timer.wakeups > s.timer.wakeups + 1
    ensures s.now + s.timer.timeout <= Run(Step(s, ExpireAlarm), run).now
  {
    StaysAsleep(Step(s, ExpireAlarm), run, s.now + s.timer.timeout, s.timer.wakeups + 1);
  }

  predicate Quiet(a: Action) { a.Tick? || a == RingAlarm || a == ExpireAlarm }

  /** A quiet stretch since activity at t0, with w wakeups before it: at most one wakeup
      comes early, and the one after it fires, exactly a timeout after t0. */
  ghost predicate Settling(s: System, t0: nat, w: nat) {
    var t, end := s.timer, t0 + s.timer.timeout;
    && t.enabled && t.started && !t.stopped && t.last == t0 <= s.now && t.inflight == 0 && w <= t.wakeups
    && if t.fired then t.firedAt == end && t.wakeups <= w + 2 && t.alarm == Unarmed
       else
         && s.now <= end
         && (t.alarm == Due ==> t.wakeups == w || (t.wakeups == w + 1 && s.now == end))
         && (t.alarm.Armed? ==>
               s.now <= t.alarm.at <= end && (t.wakeups == w || (t.wakeups == w + 1 && t.alarm.at == end)))
         && t.alarm != Unarmed
  }

  lemma {:induction false} Settles(s: System, run: seq<Action>, t0: nat, w: nat)
    requires Settling(s, t0, w) && Punctual(s, run) && forall a :: a in run ==> Quiet(a)
    ensures Settling(Run(s, run), t0, w)
    decreases run
  {
    if run != [] {
      assert Quiet(run[0]);
      Settles(Step(s, run[0]), run[1..], t0, w);
    }
  }

  /** Idle timing: after any punctual run, once the last hold is released and nothing
      else happens, the callback is called exactly timeout after that release, with at
      most one early wakeup. */
  lemma FiresOnTime(timeout: nat, callback: bool, boot: nat, reports: bool, before: seq<Action>, r: nat,
      quiet: seq<Action>)
    requires var b := Boot(timeout, callback, boot, reports);
             && Punctual(b, before)
             && var s := Run(b, before);
                && Waiting(s.timer) && r < |s.requests| && (s.requests[r] == Serving || s.requests[r] == Refusing)
                && s.timer.inflight == 1
                && Punctual(Step(s, Leave(r)), quiet) && forall a :: a in quiet ==> Quiet(a)
    ensures var s := Run(Boot(timeout, callback, boot, reports), before);
            var e := Run(Step(s, Leave(r)), quiet);
            && (e.timer.fired ==> e.timer.firedAt == s.now + timeout && e.timer.wakeups <= s.timer.wakeups + 2)
            && (s.now + timeout < e.now ==> e.timer.fired)
            && (e.timer.fired ==> s.now + timeout <= e.now)
  {
    var b := Boot(timeout, callback, boot, reports);
    RunKeeps(b, before);
    StaysPrompt(b, before);
    var s := Run(b, before);
    ConstantTimeout(b, before);
    var q := Step(s, Leave(r));
    Settles(q, quiet, s.now, s.timer.wakeups);
    StepKeeps(s, Leave(r));
    RunKeeps(q, quiet);
    ConstantTimeout(q, quiet);
  }

  lemma StepTimeout(s: System, a: Action)
    ensures Step(s, a).timer.timeout == s.timer.timeout
  {
  }

  lemma {:induction false} ConstantTimeout(s: System, run: seq<Action>)
    ensures Run(s, run).timer.timeout == s.timer.timeout
    decreases run
  {
    if run != [] {
      StepTimeout(s, run[0]);
      ConstantTimeout(Step(s, run[0]), run[1..]);
    }
  }
}
