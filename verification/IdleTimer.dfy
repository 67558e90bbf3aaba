/**
 The idle timer. Touch and Hold only record activity; the wakeup re-checks how long it
 has been idle and reschedules itself for the remainder when it is early.
 */
module IdleTimer {
  /** The runtime timer: not armed, armed for a time, or due, with its goroutine waiting
      for the lock. */
  datatype Alarm = Unarmed | Armed(at: nat) | Due

  /** calls, firedAt and wakeups record what happened, for the laws below. */
  datatype State = State(
    enabled: bool, timeout: nat,
    last: nat, inflight: nat, started: bool, stopped: bool, fired: bool,
    alarm: Alarm,
    calls: nat, firedAt: nat, wakeups: nat)

  function Init(timeout: nat, callback: bool, now: nat): State {
    State(timeout > 0 && callback, timeout, now, 0, false, false, false, Unarmed, 0, 0, 0)
  }

  function Started(t: State, now: nat): State {
    if !t.enabled || t.started || t.stopped then t
    else t.(started := true, last := now, alarm := Armed(now + t.timeout))
  }

  function Touched(t: State, now: nat): State {
    if !t.enabled then t else t.(last := now)
  }

  function HeldOpen(t: State, now: nat): State {
    if !t.enabled then t else t.(inflight := t.inflight + 1, last := now)
  }

  function Released(t: State, now: nat): State {
    if !t.enabled then t
    else t.(inflight := if t.inflight > 0 then t.inflight - 1 else 0, last := now)
  }

  function Halted(t: State): State {
    t.(stopped := true, alarm := if t.alarm.Armed? then Unarmed else t.alarm)
  }

  /** The runtime timer goes off. */
  function Ring(t: State, now: nat): State {
    if t.alarm.Armed? && t.alarm.at <= now then t.(alarm := Due) else t
  }

  /** The wakeup: fire, or look again later. */
  function Expired(t: State, now: nat): State {
    if t.alarm != Due then t
    else
      var w := t.(alarm := Unarmed, wakeups := t.wakeups + 1);
      if t.stopped || t.fired then w
      else if t.inflight > 0 then w.(alarm := Armed(now + t.timeout))
      else if now < t.last + t.timeout then w.(alarm := Armed(now + (t.timeout - (now - t.last))))
      else w.(fired := true, calls := t.calls + 1, firedAt := now)
  }

  class Timer {
    const timeout: nat
    const callback: bool
    var last: nat
    var inflight: nat
    var started: bool
    var stopped: bool
    var fired: bool
    var alarm: Alarm
    ghost var calls: nat
    ghost var firedAt: nat
    ghost var wakeups: nat

    ghost function View(): State
      reads this
    {
      State(timeout > 0 && callback, timeout, last, inflight, started, stopped, fired, alarm, calls, firedAt, wakeups)
    }

    constructor (timeout: nat, callback: bool, now: nat)
      ensures View() == Init(timeout, callback, now)
    {
      this.timeout, this.callback := timeout, callback;
      last, inflight, started, stopped, fired, alarm := now, 0, false, false, false, Unarmed;
      calls, firedAt, wakeups := 0, 0, 0;
    }

    method Start(now: nat)
      modifies this
      ensures View() == Started(old(View()), now)
    {
      if !(timeout > 0 && callback) || started || stopped {
        return;
      }
      started := true;
      last := now;
      alarm := Armed(now + timeout);
    }

    method Touch(now: nat)
      modifies this
      ensures View() == Touched(old(View()), now)
    {
      if timeout > 0 && callback {
        last := now;
      }
    }

    method Hold(now: nat)
      modifies this
      ensures View() == HeldOpen(old(View()), now)
    {
      if timeout > 0 && callback {
        inflight := inflight + 1;
        last := now;
      }
    }

    method Release(now: nat)
      modifies this
      ensures View() == Released(old(View()), now)
    {
      if timeout > 0 && callback {
        if inflight > 0 {
          inflight := inflight - 1;
        }
        last := now;
      }
    }

    method Stop()
      modifies this
      ensures View() == Halted(old(View()))
    {
      stopped := true;
      if alarm.Armed? {
        alarm := Unarmed;
      }
    }

    method Expire(now: nat)
      requires alarm == Due
      modifies this
      ensures View() == Expired(old(View()), now)
    {
      alarm := Unarmed;
      wakeups := wakeups + 1;
      if stopped || fired {
        return;
      }
      if inflight > 0 {
        alarm := Armed(now + timeout);
        return;
      }
      var elapsed := now - last;
      if elapsed < timeout {
        alarm := Armed(now + (timeout - elapsed));
        return;
      }
      fired := true;
      calls := calls + 1;
      firedAt := now;
    }
  }
}
