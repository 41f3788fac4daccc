/**
 * The persisted, time-windowed byte budget used to throttle uploads.
 *
 * The two persisted values (the remaining quota and the time of the last
 * reset) live in a key/value store that survives restarts; a missing key is
 * `None`.  Both getters initialise a missing key lazily and write the default
 * back.  Time is an integer clock reading in seconds, passed in by the caller.
 */
module RecordingQuota {
  import opened Wrappers

  /** The persisted store: "recordingMemoryQuota" and "lastResetTimeKey". */
  datatype Store = Store(quota: Option<int>, lastReset: Option<int>)

  /** The error `reserve` throws. */
  datatype QuotaError = MemoryQuotaExceeded

  /** Result of one reservation: whether it succeeded and the store afterwards. */
  datatype Reservation = Reservation(outcome: Outcome<QuotaError>, store: Store)

  /** A store in which both keys have been written. */
  predicate Initialised(s: Store) {
    s.quota.Some? && s.lastReset.Some?
  }

  /** Whether the refresh window has run out at `now`: the lazily read reset time is at least `refreshInterval` old. */
  predicate WindowExpired(refreshInterval: int, s: Store, now: int) {
    now - s.lastReset.GetOr(now) >= refreshInterval
  }

  /** The quota the decision is based on: all of `memoryQuota` after expiry, the stored (or default) value otherwise. */
  function EffectiveQuota(memoryQuota: int, refreshInterval: int, s: Store, now: int): int {
    if WindowExpired(refreshInterval, s, now) then memoryQuota else s.quota.GetOr(memoryQuota)
  }

  /**
   * `reserve(memoryToReserve:)` as a function of the store and the clock.
   * Reading `cachedCurrentQuota` and `lastResetTime` persists their defaults;
   * an expired window stores `now` as the reset time before the decision is
   * made; only a successful reservation writes the quota.
   */
  function ReserveOn(memoryQuota: int, refreshInterval: int, s: Store, amount: int, now: int): (r: Reservation)
    ensures Initialised(r.store)
    ensures r.outcome.Pass? ==> r.store.quota.value >= 0
  {
    var current := s.quota.GetOr(memoryQuota);
    var last := s.lastReset.GetOr(now);
    var expired := now - last >= refreshInterval;
    var effective := if expired then memoryQuota else current;
    var stamp := if expired then now else last;
    if effective >= amount then
      Reservation(Pass, Store(Some(effective - amount), Some(stamp)))
    else
      Reservation(Fail(MemoryQuotaExceeded), Store(Some(current), Some(stamp)))
  }

  /** On first access the quota starts as the whole budget and the reset time as `now`; both are persisted. */
  lemma FirstAccessInitialises(memoryQuota: int, refreshInterval: int, amount: int, now: int)
    ensures var r := ReserveOn(memoryQuota, refreshInterval, Store(None, None), amount, now);
      && r.store.lastReset == Some(now)
      && (r.outcome.Pass? <==> amount <= memoryQuota)
      && r.store.quota == Some(if amount <= memoryQuota then memoryQuota - amount else memoryQuota)
  {
  }

  /** After the window has run out the decision uses the whole budget and the reset time becomes `now`. */
  lemma ExpiredWindowRefills(memoryQuota: int, refreshInterval: int, s: Store, amount: int, now: int)
    requires s.lastReset.Some? && now - s.lastReset.value >= refreshInterval
    ensures var r := ReserveOn(memoryQuota, refreshInterval, s, amount, now);
      && r.store.lastReset == Some(now)
      && (r.outcome.Pass? <==> amount <= memoryQuota)
      && (r.outcome.Pass? ==> r.store.quota == Some(memoryQuota - amount))
  {
  }

  /**
   * A reservation succeeds exactly when the effective quota covers the
   * amount; success stores `effective - amount`, failure throws
   * `memoryQuotaExceeded` and leaves the stored quota (or its lazily
   * written default) as it was.
   */
  lemma ReserveDecision(memoryQuota: int, refreshInterval: int, s: Store, amount: int, now: int)
    ensures var r := ReserveOn(memoryQuota, refreshInterval, s, amount, now);
      var effective := EffectiveQuota(memoryQuota, refreshInterval, s, now);
      && (r.outcome.Pass? <==> amount <= effective)
      && (r.outcome.Pass? ==> r.store.quota == Some(effective - amount))
      && (r.outcome.Fail? ==> r.outcome.error == MemoryQuotaExceeded && r.store.quota == Some(s.quota.GetOr(memoryQuota)))
      && r.store.lastReset == Some(if WindowExpired(refreshInterval, s, now) then now else s.lastReset.GetOr(now))
  {
  }

  /**
   * A failing call after expiry still restarts the window but does not
   * persist the refill: the stored quota keeps its old value for the whole
   * new window.
   */
  lemma ExpiredFailureKeepsOldQuota(memoryQuota: int, refreshInterval: int, q: int, t: int, amount: int, now: int)
    requires now - t >= refreshInterval && amount > memoryQuota
    ensures ReserveOn(memoryQuota, refreshInterval, Store(Some(q), Some(t)), amount, now)
         == Reservation(Fail(MemoryQuotaExceeded), Store(Some(q), Some(now)))
  {
  }

  /** With non-negative amounts the stored quota stays between 0 and the budget. */
  lemma ReserveKeepsQuotaInBudget(memoryQuota: int, refreshInterval: int, s: Store, amount: int, now: int)
    requires 0 <= memoryQuota && 0 <= amount
    requires s.quota.Some? ==> 0 <= s.quota.value <= memoryQuota
    ensures var r := ReserveOn(memoryQuota, refreshInterval, s, amount, now);
      0 <= r.store.quota.value <= memoryQuota
  {
  }

  /** One call of `reserve`: the amount and the clock reading. */
  datatype Request = Request(amount: int, now: int)

  /** The store after a sequence of reservations, in order. */
  function ReserveAll(memoryQuota: int, refreshInterval: int, s: Store, requests: seq<Request>): Store
    decreases |requests|
  {
    if requests == [] then s
    else
      var r := ReserveOn(memoryQuota, refreshInterval, s, requests[0].amount, requests[0].now);
      ReserveAll(memoryQuota, refreshInterval, r.store, requests[1..])
  }

  /** Whether every request asks for a non-negative amount and falls inside the window that started at `t`. */
  predicate AllWithinWindow(refreshInterval: int, t: int, requests: seq<Request>) {
    forall i :: 0 <= i < |requests| ==> requests[i].amount >= 0 && requests[i].now - t < refreshInterval
  }

  /**
   * Within one window the stored quota never increases and the reset time
   * does not move; starting at or below the budget it stays there, and
   * starting non-negative it stays non-negative.
   */
  lemma {:induction false} WithinWindowNeverIncreases(memoryQuota: int, refreshInterval: int, q: int, t: int, requests: seq<Request>)
    requires AllWithinWindow(refreshInterval, t, requests)
    ensures var s := ReserveAll(memoryQuota, refreshInterval, Store(Some(q), Some(t)), requests);
      && s.lastReset == Some(t)
      && s.quota.Some?
      && s.quota.value <= q
      && (q >= 0 ==> s.quota.value >= 0)
    decreases |requests|
  {
    if requests != [] {
      var r := ReserveOn(memoryQuota, refreshInterval, Store(Some(q), Some(t)), requests[0].amount, requests[0].now);
      assert r.store.lastReset == Some(t);
      assert AllWithinWindow(refreshInterval, t, requests[1..]) by {
        forall i | 0 <= i < |requests[1..]|
          ensures requests[1..][i].amount >= 0 && requests[1..][i].now - t < refreshInterval
        {
          assert requests[1..][i] == requests[i + 1];
        }
      }
      WithinWindowNeverIncreases(memoryQuota, refreshInterval, r.store.quota.value, t, requests[1..]);
    }
  }

  /** With a 10 MB budget and a one-hour window: 6 MB fits, then 5 MB does not, and an hour later 5 MB fits again. */
  lemma HourlyWindowScenario()
    ensures var mb := 1024 * 1024;
      var r1 := ReserveOn(10 * mb, 3600, Store(Some(10 * mb), Some(0)), 6 * mb, 10);
      var r2 := ReserveOn(10 * mb, 3600, r1.store, 5 * mb, 20);
      var r3 := ReserveOn(10 * mb, 3600, r2.store, 5 * mb, 3600);
      && r1.outcome.Pass? && r1.store.quota == Some(4 * mb)
      && r2.outcome.Fail? && r2.store.quota == Some(4 * mb)
      && r3.outcome.Pass? && r3.store == Store(Some(5 * mb), Some(3600))
  {
  }

  /**
   * `RecordingQuota`: the budget and window are fixed; the persisted values
   * are the two fields, which `reserve` reads and writes.
   */
  class Quota {
    const memoryQuota: int
    const refreshInterval: int
    var storedQuota: Option<int>
    var storedLastReset: Option<int>

    /** The persisted store as a value. */
    function Persisted(): Store
      reads this
    {
      Store(storedQuota, storedLastReset)
    }

    /** A quota over a store that may already hold values from an earlier run. */
    constructor (memoryQuota: int, refreshInterval: int, persisted: Store)
      ensures this.memoryQuota == memoryQuota && this.refreshInterval == refreshInterval
      ensures Persisted() == persisted
    {
      this.memoryQuota := memoryQuota;
      this.refreshInterval := refreshInterval;
      storedQuota := persisted.quota;
      storedLastReset := persisted.lastReset;
    }

    /** The `cachedCurrentQuota` getter: the stored value, or the budget, which is then persisted. */
    method CachedCurrentQuota() returns (q: int)
      modifies this
      ensures q == old(storedQuota).GetOr(memoryQuota)
      ensures storedQuota == Some(q) && storedLastReset == old(storedLastReset)
    {
      if storedQuota.Some? {
        q := storedQuota.value;
      } else {
        q := memoryQuota;
        storedQuota := Some(q);
      }
    }

    /** The `lastResetTime` getter: the stored time, or the clock reading, which is then persisted. */
    method LastResetTime(now: int) returns (t: int)
      modifies this
      ensures t == old(storedLastReset).GetOr(now)
      ensures storedLastReset == Some(t) && storedQuota == old(storedQuota)
    {
      if storedLastReset.Some? {
        t := storedLastReset.value;
      } else {
        t := now;
        storedLastReset := Some(t);
      }
    }

    /** `reserve(memoryToReserve:)`: `Fail(MemoryQuotaExceeded)` is the thrown error. */
    method Reserve(amount: int, now: int) returns (outcome: Outcome<QuotaError>)
      modifies this
      ensures var r := ReserveOn(memoryQuota, refreshInterval, old(Persisted()), amount, now);
        outcome == r.outcome && Persisted() == r.store
    {
      var currentQuota := CachedCurrentQuota();
      var last := LastResetTime(now);
      if now - last >= refreshInterval {
        currentQuota := memoryQuota;
        storedLastReset := Some(now);
      }
      if currentQuota < amount {
        return Fail(MemoryQuotaExceeded);
      }
      storedQuota := Some(currentQuota - amount);
      outcome := Pass;
    }
  }
}
