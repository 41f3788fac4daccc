/**
 * `RecordSynchronizer`: the sync state machine over the record directories.
 *
 * `sync()` and `stopSync()` change the state and the pending-request latch;
 * a pass runs `clean` and the telemetry phase at once and then waits for the
 * fan-in of each phase.  A phase whose units have all finished leaves a
 * continuation in `inFlight`; delivering it (`PhaseCompleted`) runs
 * `canContinue()` and, if allowed, the next phase.  The units of a phase run
 * one after the other; the outside world's answers for them are the
 * `PassInputs` of the call that runs the phase.
 */
module RecordSynchronizer {
  import opened Wrappers
  import RecordingQuota
  import opened SyncControl
  import opened SyncFiles

  /**
   * The record data source: the directories it lists, and the same
   * directories in creation-date order (`sortedByCreationDate` is not part
   * of this model, so the order is given with the list; nothing here
   * depends on the two lists naming the same directories).
   */
  datatype DataSource = DataSource(directories: seq<string>, byCreationDate: seq<string>)

  /** The completion handlers of `executeSync`, one per phase. */
  datatype Phase = TelemetryPhase | ImagesPhase | VideosPhase

  /** A phase completion on the queue, not yet delivered, with the directory list its pass captured. */
  datatype Continuation = Continuation(phase: Phase, directories: seq<string>)

  class Synchronizer {
    /** The synchronizer's own `RecordingQuota` (30 MB per hour). */
    const quota: RecordingQuota.Quota
    /** Locale and device identity for remote folder names. */
    const naming: Naming
    /** Whether a delegate is attached (it is held weakly and may be gone). */
    const hasDelegate: bool

    var state: SyncState
    var hasPendingRequest: bool
    var dataSource: Option<DataSource>
    /** The file manager's view of the record directories. */
    var disk: Disk
    /** Every upload handed to the network client, in order. */
    var uploads: seq<Upload>
    /** Every delegate notification, in order. */
    var notifications: seq<DelegateEvent>
    /** How many times `networkClient.cancel()` was called. */
    var cancellations: nat
    /** Phase completions waiting on the queue. */
    var inFlight: seq<Continuation>

    ghost predicate Valid()
      reads this
    {
      quota.memoryQuota == NetworkingMemoryLimit && quota.refreshInterval == UpdatingInterval
    }

    /** The state and the latch as a value. */
    function Current(): Control
      reads this
    {
      Control(state, hasPendingRequest)
    }

    /** What a pass changes, as a value. */
    function Snapshot(): PassState
      reads this, quota
    {
      PassState(disk, quota.Persisted(), uploads)
    }

    /** What entering state `s` tells the delegate, if there is one. */
    function Notices(s: SyncState): seq<DelegateEvent> {
      if hasDelegate then Announce(s) else []
    }

    /** What `executeSync` does to a pass state: nothing without a data source; otherwise `clean` and then the telemetry phase. */
    function StartPass(inputs: PassInputs, s: PassState, ds: Option<DataSource>): (r: PassState)
      ensures ds.None? ==> r == s
      ensures ds.Some? ==> forall x :: x in r.disk <==> x in s.disk && x !in CleanTargets(s.disk, ds.value.byCreationDate)
      ensures ds.Some? ==> forall x :: x in r.disk && x !in ds.value.directories ==> r.disk[x] == s.disk[x]
    {
      match ds
      case None => s
      case Some(src) =>
        ArchivePass(TelemetryJob, naming, inputs, PassState(SyncFiles.Clean(s.disk, src.byCreationDate), s.quota, s.uploads), src.directories)
    }

    /** The completion `executeSync` leaves on the queue: none without a data source. */
    function Dispatched(ds: Option<DataSource>): seq<Continuation> {
      match ds
      case None => []
      case Some(src) => [Continuation(TelemetryPhase, src.directories)]
    }

    /** A new synchronizer: `idle`, latch clear, no data source, over a persisted quota store and the current disk. */
    constructor (naming: Naming, hasDelegate: bool, persisted: RecordingQuota.Store, disk: Disk)
      ensures Valid() && fresh(quota)
      ensures this.naming == naming && this.hasDelegate == hasDelegate
      ensures Current() == Control(Idle, false) && dataSource == None
      ensures Snapshot() == PassState(disk, persisted, [])
      ensures notifications == [] && cancellations == 0 && inFlight == []
    {
      quota := new RecordingQuota.Quota(NetworkingMemoryLimit, UpdatingInterval, persisted);
      this.naming := naming;
      this.hasDelegate := hasDelegate;
      state := Idle;
      hasPendingRequest := false;
      dataSource := None;
      this.disk := disk;
      uploads := [];
      notifications := [];
      cancellations := 0;
      inFlight := [];
    }

    /** `set(dataSource:)`. */
    method SetDataSource(ds: DataSource)
      modifies this`dataSource
      ensures dataSource == Some(ds)
    {
      dataSource := Some(ds);
    }

    /** Assigning `state`, with its `didSet` notification. */
    method SetState(s: SyncState)
      modifies this`state, this`notifications
      ensures state == s
      ensures notifications == old(notifications) + Notices(s)
    {
      state := s;
      if hasDelegate {
        notifications := notifications + Announce(s);
      }
    }

    /** `clean`: removes, one by one, the synced directories the running-total walk selects. */
    method Clean(byCreation: seq<string>)
      modifies this`disk
      ensures disk == SyncFiles.Clean(old(disk), byCreation)
    {
      var targets := CleanTargets(disk, byCreation);
      var i := 0;
      while i < |targets|
        invariant 0 <= i <= |targets|
        invariant forall x :: x in disk <==> x in old(disk) && x !in targets[..i]
        invariant forall x :: x in disk ==> disk[x] == old(disk)[x]
      {
        assert targets[..i + 1] == targets[..i] + [targets[i]];
        disk := disk - {targets[i]};
        i := i + 1;
      }
      assert targets[..i] == targets;
    }

    /** One directory of `uploadArchivedFiles`. */
    method UploadArchivedDirectory(dir: string, job: ArchiveJob, inputs: PassInputs) returns (result: UnitResult)
      requires Valid()
      modifies this`disk, this`uploads, quota
      ensures (result, Snapshot()) == ArchiveUnit(job, naming, inputs, old(Snapshot()), dir)
    {
      var prepared := PrepareArchive(job, inputs, disk, dir);
      if prepared.Failure? {
        return prepared.error;
      }
      var p := prepared.value;
      var before := disk;
      disk := before[dir := p.dir];
      var reserved := quota.Reserve(p.archive.size, inputs.now);
      if reserved.Fail? {
        return QuotaExceeded;
      }
      uploads := uploads + [Upload(dir, p.archive, RemoteDirName(dir, naming))];
      if !inputs.uploadSucceeds(dir, p.archive) {
        return UploadFailed;
      }
      var d := RecordDir(Removed(p.dir.files, p.archive), p.dir.images);
      result := Uploaded;
      if job.marksSynced && inputs.markerCreated(dir) {
        d := WithMarker(d);
      } else if job.marksSynced {
        result := SyncFileCreationFail;
      }
      disk := before[dir := d];
    }

    /** `uploadArchivedFiles`: every directory in turn; a failing directory is skipped. */
    method UploadArchivedFiles(dirs: seq<string>, job: ArchiveJob, inputs: PassInputs)
      requires Valid()
      modifies this`disk, this`uploads, quota
      ensures Snapshot() == ArchivePass(job, naming, inputs, old(Snapshot()), dirs)
    {
      var i := 0;
      while i < |dirs|
        invariant 0 <= i <= |dirs|
        invariant Snapshot() == ArchivePass(job, naming, inputs, old(Snapshot()), dirs[..i])
      {
        assert dirs[..i + 1][..i] == dirs[..i];
        var _ := UploadArchivedDirectory(dirs[i], job, inputs);
        i := i + 1;
      }
      assert dirs[..i] == dirs;
    }

    /** One video of `uploadVideos`. */
    method UploadVideo(v: VideoRef, inputs: PassInputs) returns (result: UnitResult)
      requires Valid()
      modifies this`disk, this`uploads, quota
      ensures (result, Snapshot()) == VideoUnit(naming, inputs, old(Snapshot()), v)
    {
      var reserved := quota.Reserve(v.file.size, inputs.now);
      if reserved.Fail? {
        return QuotaExceeded;
      }
      uploads := uploads + [Upload(v.dir, v.file, RemoteDirName(v.dir, naming))];
      if inputs.uploadSucceeds(v.dir, v.file) {
        disk := RemoveVideo(disk, v);
        result := Uploaded;
      } else {
        result := UploadFailed;
      }
    }

    /** `uploadVideos`: the videos of all directories, smallest first, each reserved on its own. */
    method UploadVideos(dirs: seq<string>, inputs: PassInputs)
      requires Valid()
      modifies this`disk, this`uploads, quota
      ensures Snapshot() == VideoPhase(naming, inputs, old(Snapshot()), dirs)
    {
      ghost var s0 := Snapshot();
      var sorted := SortBySize(VideosIn(disk, dirs));
      assert VideoPhase(naming, inputs, s0, dirs) == VideoPass(naming, inputs, s0, sorted);
      var i := 0;
      while i < |sorted|
        invariant 0 <= i <= |sorted|
        invariant Snapshot() == VideoPass(naming, inputs, s0, sorted[..i])
      {
        assert sorted[..i + 1][..i] == sorted[..i];
        var _ := UploadVideo(sorted[i], inputs);
        i := i + 1;
      }
      assert sorted[..i] == sorted;
    }

    /** `executeSync`: clear the latch, enter `syncing`, and, given a data source, `clean` and the telemetry phase. */
    method ExecuteSync(inputs: PassInputs)
      requires Valid()
      modifies this, quota
      ensures Current() == Started
      ensures notifications == old(notifications) + Notices(Syncing)
      ensures Snapshot() == StartPass(inputs, old(Snapshot()), dataSource)
      ensures inFlight == old(inFlight) + Dispatched(dataSource)
      ensures dataSource == old(dataSource) && cancellations == old(cancellations)
    {
      ghost var s0 := Snapshot();
      hasPendingRequest := false;
      SetState(Syncing);
      assert Snapshot() == s0;
      if dataSource.None? {
        return;
      }
      var src := dataSource.value;
      Clean(src.byCreationDate);
      assert Snapshot() == PassState(SyncFiles.Clean(s0.disk, src.byCreationDate), s0.quota, s0.uploads);
      UploadArchivedFiles(src.directories, TelemetryJob, inputs);
      inFlight := inFlight + [Continuation(TelemetryPhase, src.directories)];
    }

    /** `sync()`: outside `idle` only the latch is set; in `idle` a pass starts. */
    method Sync(inputs: PassInputs)
      requires Valid()
      modifies this, quota
      ensures Current() == AfterSync(old(Current()))
      ensures old(state) != Idle ==>
        && notifications == old(notifications)
        && Snapshot() == old(Snapshot()) && inFlight == old(inFlight)
      ensures old(state) == Idle ==>
        && notifications == old(notifications) + Notices(Syncing)
        && Snapshot() == StartPass(inputs, old(Snapshot()), dataSource)
        && inFlight == old(inFlight) + Dispatched(dataSource)
      ensures dataSource == old(dataSource) && cancellations == old(cancellations)
    {
      if state != Idle {
        hasPendingRequest := true;
        return;
      }
      ExecuteSync(inputs);
    }

    /** `canContinue()`: in `stopping`, replay a pending request or go `idle`, and stop this pass. */
    method CanContinue(inputs: PassInputs) returns (proceed: bool)
      requires Valid()
      modifies this, quota
      ensures var v := SyncControl.CanContinue(old(Current()));
        && proceed == v.proceed
        && Current() == v.next
        && (v.proceed ==> notifications == old(notifications))
        && (!v.proceed ==> notifications == old(notifications) + Notices(v.next.state))
        && (v.reruns ==> Snapshot() == StartPass(inputs, old(Snapshot()), dataSource)
                         && inFlight == old(inFlight) + Dispatched(dataSource))
        && (!v.reruns ==> Snapshot() == old(Snapshot()) && inFlight == old(inFlight))
      ensures dataSource == old(dataSource) && cancellations == old(cancellations)
    {
      if state == Stopping {
        if hasPendingRequest {
          ExecuteSync(inputs);
        } else {
          SetState(Idle);
        }
        return false;
      }
      return true;
    }

    /**
     * Delivers the `k`-th waiting phase completion: after `canContinue()`
     * allows it, the telemetry completion runs the image phase, the image
     * completion the video phase, and the video completion sets `idle`.
     */
    method PhaseCompleted(k: nat, inputs: PassInputs)
      requires Valid() && k < |inFlight|
      modifies this, quota
      ensures var c := old(inFlight[k]);
        var rest := old(inFlight[..k] + inFlight[k + 1..]);
        var v := SyncControl.CanContinue(old(Current()));
        && (v.proceed && c.phase == TelemetryPhase ==>
              && Current() == old(Current()) && notifications == old(notifications)
              && Snapshot() == ArchivePass(ImagesJob, naming, inputs, old(Snapshot()), c.directories)
              && inFlight == rest + [Continuation(ImagesPhase, c.directories)])
        && (v.proceed && c.phase == ImagesPhase ==>
              && Current() == old(Current()) && notifications == old(notifications)
              && Snapshot() == VideoPhase(naming, inputs, old(Snapshot()), c.directories)
              && inFlight == rest + [Continuation(VideosPhase, c.directories)])
        && (v.proceed && c.phase == VideosPhase ==>
              && Current() == Finished(old(Current())) && notifications == old(notifications) + Notices(Idle)
              && Snapshot() == old(Snapshot()) && inFlight == rest)
        && (v.reruns ==>
              && Current() == Started && notifications == old(notifications) + Notices(Syncing)
              && Snapshot() == StartPass(inputs, old(Snapshot()), dataSource)
              && inFlight == rest + Dispatched(dataSource))
        && (!v.proceed && !v.reruns ==>
              && Current() == Control(Idle, false) && notifications == old(notifications) + Notices(Idle)
              && Snapshot() == old(Snapshot()) && inFlight == rest)
      ensures dataSource == old(dataSource) && cancellations == old(cancellations)
    {
      var c := inFlight[k];
      inFlight := inFlight[..k] + inFlight[k + 1..];
      var proceed := CanContinue(inputs);
      if !proceed {
        return;
      }
      match c.phase
      case TelemetryPhase =>
        UploadArchivedFiles(c.directories, ImagesJob, inputs);
        inFlight := inFlight + [Continuation(ImagesPhase, c.directories)];
      case ImagesPhase =>
        UploadVideos(c.directories, inputs);
        inFlight := inFlight + [Continuation(VideosPhase, c.directories)];
      case VideosPhase =>
        SetState(Idle);
    }

    /** `stopSync()`: `syncing` becomes `stopping`, anything else `idle`; the network client is always cancelled. */
    method StopSync()
      modifies this`state, this`notifications, this`cancellations
      ensures Current() == AfterStop(old(Current()))
      ensures notifications == old(notifications) + Notices(state)
      ensures cancellations == old(cancellations) + 1
    {
      SetState(if state == Syncing then Stopping else Idle);
      cancellations := cancellations + 1;
    }
  }

  /** Outside answers for a pass over an empty data source: no archive, every upload and marker succeeds. */
  function QuietInputs(now: int): PassInputs {
    PassInputs(now, (dir, name) => None, (dir, f) => true, dir => true)
  }

  /**
   * A `sync()` during a pass is coalesced; a `stopSync()` while `syncing`
   * then makes the next phase completion replay it as a fresh pass instead
   * of continuing.
   */
  method StopReplaysCoalescedRequest() returns (notes: seq<DelegateEvent>, after: Control, queued: seq<Continuation>)
    ensures notes == [SyncStarted, SyncStarted]
    ensures after == Started
    ensures queued == [Continuation(TelemetryPhase, [])]
  {
    var s := new Synchronizer(Naming("en", "device", "iOS"), true, RecordingQuota.Store(None, None), map[]);
    s.SetDataSource(DataSource([], []));
    s.Sync(QuietInputs(0));
    s.Sync(QuietInputs(1));
    assert s.Current() == Control(Syncing, true);
    s.StopSync();
    assert s.Current() == Control(Stopping, true) && |s.inFlight| == 1;
    s.PhaseCompleted(0, QuietInputs(2));
    notes, after, queued := s.notifications, s.Current(), s.inFlight;
  }

  /**
   * A `sync()` during a pass that is never stopped: the pass runs all three
   * phases and ends `idle` with the request still latched and not replayed.
   */
  method FinishedPassDropsCoalescedRequest() returns (notes: seq<DelegateEvent>, after: Control, queued: seq<Continuation>)
    ensures notes == [SyncStarted, SyncStopped]
    ensures after == Control(Idle, true)
    ensures queued == []
  {
    var s := new Synchronizer(Naming("en", "device", "iOS"), true, RecordingQuota.Store(None, None), map[]);
    s.SetDataSource(DataSource([], []));
    s.Sync(QuietInputs(0));
    s.Sync(QuietInputs(1));
    s.PhaseCompleted(0, QuietInputs(2));
    assert s.inFlight == [Continuation(ImagesPhase, [])];
    s.PhaseCompleted(0, QuietInputs(3));
    assert s.inFlight == [Continuation(VideosPhase, [])];
    s.PhaseCompleted(0, QuietInputs(4));
    notes, after, queued := s.notifications, s.Current(), s.inFlight;
  }
}
