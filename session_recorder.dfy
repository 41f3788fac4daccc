/**
 * `SessionRecorder`: starts a recording whenever a session starts, stops it
 * when the session stops, and retries once, after the recorder reports that
 * it stopped, a start that failed because the recorder was not ready.
 *
 * The collaborators (record coordinator, session interface, saving hooks,
 * delegate) are seen only through the calls made to them, logged in order.
 */
module SessionRecorder {
  import opened Wrappers

  /** Session length in internal mode: five minutes. */
  const InternalSessionInterval: real := 5.0 * 60.0
  /** External mode never splits a session. */
  const ExternalSessionInterval: real := 0.0

  /** Where recordings go: the SDK's own directory, or a caller's path (which also keeps the source video). */
  datatype Mode = Internal | External(path: string) {
    function SessionInterval(): real {
      match this
      case Internal => InternalSessionInterval
      case External(_) => ExternalSessionInterval
    }

    predicate SavesSourceVideo() {
      External?
    }

    function Path(): Option<string> {
      match this
      case Internal => None
      case External(p) => Some(p)
    }
  }

  /**
   * The three computed properties move together: a mode splits its session
   * into intervals exactly when it keeps no source video and names no path,
   * and an external mode's path is the one it was made with.
   */
  lemma ModeProperties(m: Mode)
    ensures m.SessionInterval() > 0.0 <==> !m.SavesSourceVideo()
    ensures m.SavesSourceVideo() <==> m.Path().Some?
    ensures m == Internal ==> m.SessionInterval() == 300.0
    ensures m.External? ==> m.SessionInterval() == 0.0 && m.Path() == Some(m.path)
  {
  }

  /** What `startRecording` did: started, threw `cantStartNotReady`, or threw anything else. */
  datatype StartReply = Started | CantStartNotReady | OtherError

  /** A call made by the recorder to one of its collaborators. */
  datatype Call =
    | SetSavesSourceVideo(saves: bool)
    | StartSession(interruptionInterval: real)
    | StopSession(abort: bool)
    | ForwardFrame(frame: nat)
    | StartRecording(referenceTime: real, directory: Option<string>)
    | StopSavingSession
    | StopRecording(abort: bool)
    | NotifyRecordingStarted(path: string)
    | StartSavingSession(path: string)
    | NotifyRecordingStopped

  /** The attempt that `record()` makes at reference time `seconds` in mode `m`. */
  function Attempt(m: Mode, seconds: real): Call {
    StartRecording(seconds, m.Path())
  }

  /** Whether the pending-recording latch is set after an attempt answered `reply`, given its value before. */
  predicate LatchAfter(pending: bool, reply: StartReply) {
    pending || reply == CantStartNotReady
  }

  /** Only a not-ready answer sets the latch; a start or any other error leaves it as it was. */
  lemma LatchOnlyOnNotReady(pending: bool, reply: StartReply)
    ensures LatchAfter(pending, reply) != pending <==> !pending && reply == CantStartNotReady
    ensures reply == OtherError ==> LatchAfter(pending, reply) == pending
  {
  }

  /** The number of recording attempts in a call log. */
  function Attempts(calls: seq<Call>): (n: nat)
    ensures n <= |calls|
    ensures n == 0 <==> forall i :: 0 <= i < |calls| ==> !calls[i].StartRecording?
  {
    if calls == [] then 0
    else Attempts(calls[..|calls| - 1]) + (if calls[|calls| - 1].StartRecording? then 1 else 0)
  }

  /** Counting attempts distributes over a log that grows by appending. */
  lemma {:induction false} AttemptsAppend(xs: seq<Call>, ys: seq<Call>)
    ensures Attempts(xs + ys) == Attempts(xs) + Attempts(ys)
    decreases |ys|
  {
    if ys == [] {
      assert xs + ys == xs;
    } else {
      var zs := ys[..|ys| - 1];
      assert (xs + ys)[..|xs + ys| - 1] == xs + zs;
      AttemptsAppend(xs, zs);
    }
  }

  class Recorder {
    /** Whether a delegate is attached (it is held weakly). */
    const hasDelegate: bool
    var currentMode: Mode
    var hasPendingRecordingRequest: bool
    /** Every call to a collaborator, in order. */
    var calls: seq<Call>

    /** A new recorder: internal mode, no pending request, nothing called. */
    constructor (hasDelegate: bool)
      ensures this.hasDelegate == hasDelegate
      ensures currentMode == Internal && !hasPendingRecordingRequest && calls == []
    {
      this.hasDelegate := hasDelegate;
      currentMode := Internal;
      hasPendingRecordingRequest := false;
      calls := [];
    }

    /** What the delegate is told, if there is one. */
    function ToDelegate(c: Call): seq<Call> {
      if hasDelegate then [c] else []
    }

    /** `start(mode:)`: remember the mode, pass its source-video flag on, start a session with its interval. */
    method Start(mode: Mode)
      modifies this`currentMode, this`calls
      ensures currentMode == mode
      ensures calls == old(calls) + [SetSavesSourceVideo(mode.SavesSourceVideo()), StartSession(mode.SessionInterval())]
    {
      currentMode := mode;
      calls := calls + [SetSavesSourceVideo(mode.SavesSourceVideo())];
      calls := calls + [StartSession(mode.SessionInterval())];
    }

    /** `stop(abort:)`: stop the session. */
    method Stop(abort: bool)
      modifies this`calls
      ensures calls == old(calls) + [StopSession(abort)]
    {
      calls := calls + [StopSession(abort)];
    }

    /** `handleFrame`: every frame goes to the recorder, whatever the state. */
    method HandleFrame(frame: nat)
      modifies this`calls
      ensures calls == old(calls) + [ForwardFrame(frame)]
    {
      calls := calls + [ForwardFrame(frame)];
    }

    /** `record()`: one start attempt in the current mode's directory; not-ready sets the latch, other errors are swallowed. */
    method Record(seconds: real, reply: StartReply)
      modifies this`hasPendingRecordingRequest, this`calls
      ensures calls == old(calls) + [Attempt(currentMode, seconds)]
      ensures hasPendingRecordingRequest == LatchAfter(old(hasPendingRecordingRequest), reply)
    {
      calls := calls + [StartRecording(seconds, currentMode.Path())];
      if reply == CantStartNotReady {
        hasPendingRecordingRequest := true;
      }
    }

    /** `sessionStarted()`: exactly one recording attempt. */
    method SessionStarted(seconds: real, reply: StartReply)
      modifies this`hasPendingRecordingRequest, this`calls
      ensures calls == old(calls) + [Attempt(currentMode, seconds)]
      ensures Attempts(calls) == Attempts(old(calls)) + 1
      ensures hasPendingRecordingRequest == LatchAfter(old(hasPendingRecordingRequest), reply)
    {
      Record(seconds, reply);
      AttemptsAppend(old(calls), [Attempt(currentMode, seconds)]);
    }

    /** `sessionStopped(abort:)`: stop saving the session, then stop the recording. */
    method SessionStopped(abort: bool)
      modifies this`calls
      ensures calls == old(calls) + [StopSavingSession, StopRecording(abort)]
      ensures Attempts(calls) == Attempts(old(calls))
    {
      calls := calls + [StopSavingSession, StopRecording(abort)];
      AttemptsAppend(old(calls), [StopSavingSession, StopRecording(abort)]);
    }

    /** `recordingStarted(path:)`: tell the delegate, then start saving the session under the same path. */
    method RecordingStarted(path: string)
      modifies this`calls
      ensures calls == old(calls) + ToDelegate(NotifyRecordingStarted(path)) + [StartSavingSession(path)]
    {
      calls := calls + ToDelegate(NotifyRecordingStarted(path));
      calls := calls + [StartSavingSession(path)];
    }

    /**
     * `recordingStopped()`: tell the delegate; if a start had failed as
     * not ready, clear the latch and try exactly once more (`reply` is that
     * attempt's answer, `seconds` its reference time).
     */
    method RecordingStopped(seconds: real, reply: StartReply)
      modifies this`hasPendingRecordingRequest, this`calls
      ensures calls == old(calls) + ToDelegate(NotifyRecordingStopped)
        + (if old(hasPendingRecordingRequest) then [Attempt(currentMode, seconds)] else [])
      ensures Attempts(calls) == Attempts(old(calls)) + (if old(hasPendingRecordingRequest) then 1 else 0)
      ensures hasPendingRecordingRequest == (old(hasPendingRecordingRequest) && reply == CantStartNotReady)
    {
      ghost var before := calls;
      var told := ToDelegate(NotifyRecordingStopped);
      assert Attempts(told) == 0;
      AttemptsAppend(before, told);
      calls := calls + told;
      if hasPendingRecordingRequest {
        hasPendingRecordingRequest := false;
        ghost var mid := calls;
        Record(seconds, reply);
        AttemptsAppend(mid, [Attempt(currentMode, seconds)]);
      }
    }
  }

  /**
   * A session starts while the recorder is not ready: the latch is set, and
   * when the recorder reports that it stopped the start is tried once more,
   * in the same directory; that attempt succeeds and clears the latch.
   */
  method NotReadyStartIsRetried() returns (attempts: nat, pending: bool, log: seq<Call>)
    ensures attempts == 2 && !pending
    ensures log == [SetSavesSourceVideo(true), StartSession(0.0), StartRecording(1.0, Some("rec")),
                    StartRecording(2.0, Some("rec"))]
  {
    var r := new Recorder(false);
    r.Start(External("rec"));
    r.SessionStarted(1.0, CantStartNotReady);
    r.RecordingStopped(2.0, Started);
    log, pending := r.calls, r.hasPendingRecordingRequest;
    var before := [SetSavesSourceVideo(true), StartSession(0.0)];
    assert Attempts(before) == 0 by {
      assert before[..1] == [SetSavesSourceVideo(true)] && before[..1][..0] == [];
    }
    attempts := Attempts(log);
  }
}
