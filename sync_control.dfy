/**
 * The control part of `RecordSynchronizer` as values: the sync state, the
 * pending-request latch, and how `sync()`, `stopSync()`, the `canContinue()`
 * check between phases and the end of the video phase change them.
 */
module SyncControl {

  datatype SyncState = Idle | Syncing | Stopping

  /** The state and the `hasPendingRequest` latch. */
  datatype Control = Control(state: SyncState, pending: bool)

  /** What the synchronizer tells its delegate. */
  datatype DelegateEvent = SyncStarted | SyncStopped

  /** The `didSet` observer of `state`: what assigning `s` announces (it fires on every assignment, also an unchanged one). */
  function Announce(s: SyncState): (events: seq<DelegateEvent>)
    ensures events == [SyncStopped] <==> s == Idle
    ensures events == [SyncStarted] <==> s == Syncing
    ensures events == [] <==> s == Stopping
  {
    match s
    case Idle => [SyncStopped]
    case Syncing => [SyncStarted]
    case Stopping => []
  }

  /** The control after the first two statements of `executeSync`: latch cleared, `syncing`. */
  const Started: Control := Control(Syncing, false)

  /** Whether `sync()` runs `executeSync` rather than only setting the latch. */
  predicate SyncExecutes(c: Control) {
    c.state == Idle
  }

  /** `sync()`: outside `idle` it only sets the latch; in `idle` it starts a pass. */
  function AfterSync(c: Control): (r: Control)
    ensures r.state != Idle
    ensures r.state == Syncing || r.state == c.state
    ensures r.pending <==> c.state != Idle
  {
    if SyncExecutes(c) then Started else Control(c.state, true)
  }

  /** `stopSync()`: `syncing` becomes `stopping`; any other state becomes `idle`; the latch is untouched. */
  function AfterStop(c: Control): (r: Control)
    ensures r.state != Syncing
    ensures r.state == Stopping <==> c.state == Syncing
    ensures r.pending == c.pending
  {
    Control(if c.state == Syncing then Stopping else Idle, c.pending)
  }

  /** What `canContinue()` decides. */
  datatype Verdict = Verdict(proceed: bool, reruns: bool, next: Control)

  /**
   * `canContinue()`: in `stopping` it either re-runs `executeSync` (latch
   * set) or goes `idle` (latch clear), and answers false; otherwise it
   * answers true and changes nothing.
   */
  function CanContinue(c: Control): (v: Verdict)
    ensures v.proceed <==> c.state != Stopping
    ensures v.proceed ==> !v.reruns && v.next == c
    ensures !v.proceed ==> (v.reruns <==> c.pending)
    ensures v.reruns ==> v.next == Started
    ensures !v.proceed && !v.reruns ==> v.next == Control(Idle, false)
  {
    if c.state == Stopping then
      if c.pending then Verdict(false, true, Started) else Verdict(false, false, Control(Idle, c.pending))
    else Verdict(true, false, c)
  }

  /** After the video phase the state is set to `idle` without looking at the latch. */
  function Finished(c: Control): (r: Control)
    ensures r.state == Idle && r.pending == c.pending
  {
    Control(Idle, c.pending)
  }

  /** The control after `n` calls of `sync()`. */
  function SyncCalls(c: Control, n: nat): Control
    decreases n
  {
    if n == 0 then c else SyncCalls(AfterSync(c), n - 1)
  }

  /** How many of `n` calls of `sync()` start a pass. */
  function PassesStarted(c: Control, n: nat): nat
    decreases n
  {
    if n == 0 then 0 else (if SyncExecutes(c) then 1 else 0) + PassesStarted(AfterSync(c), n - 1)
  }

  /** Calls of `sync()` outside `idle` start nothing: they leave the state and set the latch. */
  lemma {:induction false} BusySyncCallsCoalesce(c: Control, n: nat)
    requires c.state != Idle
    ensures SyncCalls(c, n) == Control(c.state, c.pending || n > 0)
    ensures PassesStarted(c, n) == 0
    decreases n
  {
    if n > 0 {
      BusySyncCallsCoalesce(Control(c.state, true), n - 1);
    }
  }

  /** From `idle`, `n > 0` calls of `sync()` start exactly one pass; all but the first are coalesced into the latch. */
  lemma IdleSyncCallsStartOnePass(c: Control, n: nat)
    requires c.state == Idle && n > 0
    ensures PassesStarted(c, n) == 1
    ensures SyncCalls(c, n) == Control(Syncing, n > 1)
  {
    BusySyncCallsCoalesce(Control(Syncing, false), n - 1);
  }

  /**
   * `stopSync()` during a pass with a coalesced request: the next phase
   * boundary re-enters `syncing` for that request with the latch cleared,
   * and the boundary after it proceeds without a second replay.
   */
  lemma StopWithPendingReplaysOnce(c: Control)
    requires c.state == Syncing && c.pending
    ensures AfterStop(c).state == Stopping
    ensures var v := CanContinue(AfterStop(c));
      && !v.proceed && v.reruns && v.next == Control(Syncing, false)
      && CanContinue(v.next) == Verdict(true, false, v.next)
  {
  }

  /** `stopping` is transient: the next phase boundary leaves it, for `idle` or a new pass. */
  lemma StoppingIsTransient(c: Control)
    requires c.state == Stopping
    ensures CanContinue(c).next.state in {Idle, Syncing}
    ensures !CanContinue(c).proceed
  {
  }

  /** `stopSync()` never starts a pass, and only `syncing` can become `stopping`. */
  lemma StopNeverStarts(c: Control)
    ensures AfterStop(c).state != Syncing
    ensures AfterStop(c).state == Stopping <==> c.state == Syncing
  {
  }

  /** A request coalesced during a pass that is not stopped stays in the latch when the pass ends: it is not replayed until the next `sync()`. */
  lemma FinishLeavesRequestUnreplayed(c: Control)
    requires c == Control(Syncing, true)
    ensures Finished(c) == Control(Idle, true)
    ensures AfterSync(Finished(c)) == Control(Syncing, false)
  {
  }
}
