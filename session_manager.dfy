/**
 * `SessionManager`: turns `startSession` / `stopSession`, the repeating
 * interruption timer and the application's termination notification into
 * `sessionStarted` / `sessionStopped` events for its listener.
 *
 * Timers and notification observers are entries in logs the manager keeps;
 * a timer firing is the explicit event `Tick`, and the termination
 * notification reaching an observer is the explicit event `Terminate`.
 */
module SessionManager {
  import opened Wrappers

  datatype SessionEvent = SessionStarted | SessionStopped

  /** A scheduled repeating timer: its period and whether it is still valid. */
  datatype Timer = Timer(interval: real, valid: bool)

  /** The number of timers that would still fire. */
  function ValidTimers(ts: seq<Timer>): (n: nat)
    ensures n <= |ts|
  {
    if ts == [] then 0 else ValidTimers(ts[..|ts| - 1]) + (if ts[|ts| - 1].valid then 1 else 0)
  }

  /** Invalidating one timer leaves one fewer timer that would fire, if it was valid, and the same number otherwise. */
  lemma {:induction false} InvalidateOne(ts: seq<Timer>, t: nat)
    requires t < |ts|
    ensures ValidTimers(ts[t := Timer(ts[t].interval, false)]) == ValidTimers(ts) - (if ts[t].valid then 1 else 0)
    decreases |ts|
  {
    var us := ts[t := Timer(ts[t].interval, false)];
    if t == |ts| - 1 {
      assert us[..|us| - 1] == ts[..|ts| - 1];
    } else {
      assert us[..|us| - 1] == ts[..|ts| - 1][t := Timer(ts[t].interval, false)];
      InvalidateOne(ts[..|ts| - 1], t);
    }
  }

  /** Scheduling a timer adds one that would fire. */
  lemma AppendValid(ts: seq<Timer>, interval: real)
    ensures ValidTimers(ts + [Timer(interval, true)]) == ValidTimers(ts) + 1
  {
    assert (ts + [Timer(interval, true)])[..|ts|] == ts;
  }

  class Manager {
    /** Whether a listener is attached (it is held weakly). */
    const hasListener: bool
    /** `notificationObservers`: the token of every observer ever added, in order. */
    var observers: seq<nat>
    /** The observers still registered with the notification center. */
    var registered: set<nat>
    /** Every timer ever scheduled, by the order it was scheduled in. */
    var timers: seq<Timer>
    /** `interruptionTimer`: the most recently scheduled timer, if any. */
    var interruptionTimer: Option<nat>
    /** Every event delivered to the listener, in order. */
    var events: seq<SessionEvent>

    ghost predicate Valid()
      reads this
    {
      && (forall i :: 0 <= i < |observers| ==> observers[i] == i)
      && (forall o :: o in registered ==> o < |observers|)
      && (interruptionTimer.Some? ==> interruptionTimer.value < |timers|)
    }

    /** What the listener hears, if there is one. */
    function Heard(es: seq<SessionEvent>): seq<SessionEvent> {
      if hasListener then es else []
    }

    constructor (hasListener: bool)
      ensures Valid() && this.hasListener == hasListener
      ensures observers == [] && registered == {} && timers == [] && interruptionTimer == None && events == []
    {
      this.hasListener := hasListener;
      observers := [];
      registered := {};
      timers := [];
      interruptionTimer := None;
      events := [];
    }

    /**
     * `startSession(interruptionInterval:)`: add a termination observer,
     * schedule a repeating timer when the interval is positive (replacing
     * `interruptionTimer` without invalidating the one it held), and start
     * the first interval.
     */
    method StartSession(interval: real)
      requires Valid()
      modifies this
      ensures Valid()
      ensures observers == old(observers) + [|old(observers)|]
      ensures registered == old(registered) + {|old(observers)|}
      ensures interval > 0.0 ==>
        && timers == old(timers) + [Timer(interval, true)]
        && interruptionTimer == Some(|old(timers)|)
      ensures interval <= 0.0 ==> timers == old(timers) && interruptionTimer == old(interruptionTimer)
      ensures events == old(events) + Heard([SessionStarted])
      ensures ValidTimers(timers) == ValidTimers(old(timers)) + (if interval > 0.0 then 1 else 0)
    {
      var token := |observers|;
      observers := observers + [token];
      registered := registered + {token};
      if interval > 0.0 {
        interruptionTimer := Some(|timers|);
        AppendValid(timers, interval);
        timers := timers + [Timer(interval, true)];
      }
      events := events + Heard([SessionStarted]);
    }

    /**
     * `stopSession()`: unregister every observer in the list (the list
     * itself is kept), invalidate `interruptionTimer`, and stop the interval
     * whether or not a session was started.
     */
    method StopSession()
      requires Valid()
      modifies this
      ensures Valid()
      ensures observers == old(observers)
      ensures registered == {}
      ensures interruptionTimer == old(interruptionTimer)
      ensures match interruptionTimer
        case None => timers == old(timers)
        case Some(t) => timers == old(timers)[t := Timer(old(timers)[t].interval, false)]
      ensures events == old(events) + Heard([SessionStopped])
      ensures ValidTimers(timers) >= ValidTimers(old(timers)) - 1
    {
      var i := 0;
      while i < |observers|
        invariant 0 <= i <= |observers|
        invariant Valid()
        invariant forall o :: o in registered <==> o in old(registered) && o >= i
        invariant timers == old(timers) && events == old(events) && observers == old(observers)
        invariant interruptionTimer == old(interruptionTimer)
      {
        registered := registered - {observers[i]};
        i := i + 1;
      }
      if interruptionTimer.Some? {
        var t := interruptionTimer.value;
        InvalidateOne(timers, t);
        timers := timers[t := Timer(timers[t].interval, false)];
      }
      events := events + Heard([SessionStopped]);
    }

    /** Timer `t` fires: a valid timer stops and restarts the interval; an invalidated one does nothing. */
    method Tick(t: nat)
      requires t < |timers|
      modifies this`events
      ensures events == old(events) + (if timers[t].valid then Heard([SessionStopped, SessionStarted]) else [])
    {
      if timers[t].valid {
        events := events + Heard([SessionStopped, SessionStarted]);
      }
    }

    /** The termination notification reaches observer `o`: a registered observer stops the session. */
    method Terminate(o: nat)
      requires Valid()
      modifies this
      ensures Valid()
      ensures o in old(registered) ==> registered == {} && events == old(events) + Heard([SessionStopped])
      ensures o in old(registered) ==> match old(interruptionTimer)
        case None => timers == old(timers)
        case Some(t) => timers == old(timers)[t := Timer(old(timers)[t].interval, false)]
      ensures o !in old(registered) ==> registered == old(registered) && events == old(events) && timers == old(timers)
      ensures observers == old(observers) && interruptionTimer == old(interruptionTimer)
    {
      if o in registered {
        StopSession();
      }
    }
  }

  /**
   * Two `startSession(5)` calls and one `stopSession()`: the first timer was
   * replaced without being invalidated, so one timer still fires, and each
   * of its ticks emits a stop and a start.
   */
  method DoubleStartLeavesTimerFiring() returns (firing: nat, tickEvents: seq<SessionEvent>)
    ensures firing == 1
    ensures tickEvents == [SessionStopped, SessionStarted]
  {
    var m := new Manager(true);
    m.StartSession(5.0);
    m.StartSession(5.0);
    m.StopSession();
    assert m.timers == [Timer(5.0, true), Timer(5.0, false)];
    assert m.timers[..1] == [Timer(5.0, true)];
    firing := ValidTimers(m.timers);
    var before := m.events;
    m.Tick(0);
    tickEvents := m.events[|before|..];
  }
}
