/**
 * `Platform`: the native engine's callbacks into the SDK for telemetry
 * events, telemetry file uploads, video clipping and archiving.
 *
 * The events manager, video trimmer and archiver are seen only through the
 * calls made to them; their answers (an upload error, which clips fail to
 * trim, whether archiving throws) are parameters.  Every `SuccessCallback`
 * invocation goes into `callbacks`, in order.
 */
module Platform {
  import opened Wrappers

  datatype TelemetryEntry = TelemetryEntry(key: string, value: string)

  /** The index of the first entry with key `k`, for a key that occurs. */
  function FirstIndex(entries: seq<TelemetryEntry>, k: string): (i: nat)
    requires exists j :: 0 <= j < |entries| && entries[j].key == k
    ensures i < |entries| && entries[i].key == k
    ensures forall j :: 0 <= j < i ==> entries[j].key != k
  {
    if entries[0].key == k then 0
    else
      assert exists j :: 0 <= j < |entries[1..]| && entries[1..][j].key == k by {
        var j :| 0 <= j < |entries| && entries[j].key == k;
        assert entries[1..][j - 1].key == k;
      }
      1 + FirstIndex(entries[1..], k)
  }

  /**
   * `Dictionary(entries.map { ($0.key, $0.value) }) { first, _ in first }`:
   * one key per distinct entry key, and on a duplicate key the first value
   * wins.
   */
  function TelemetryDictionary(entries: seq<TelemetryEntry>): (m: map<string, string>)
    ensures forall k :: k in m <==> exists j :: 0 <= j < |entries| && entries[j].key == k
    ensures forall i :: 0 <= i < |entries| && (forall j :: 0 <= j < i ==> entries[j].key != entries[i].key) ==>
      entries[i].key in m && m[entries[i].key] == entries[i].value
    decreases |entries|
  {
    if entries == [] then map[]
    else
      var init := entries[..|entries| - 1];
      var e := entries[|entries| - 1];
      var d := TelemetryDictionary(init);
      assert forall j :: 0 <= j < |init| ==> init[j] == entries[j];
      if e.key in d then d else d[e.key := e.value]
  }

  /** The value stored under every key is the one of its first entry. */
  lemma FirstValueWins(entries: seq<TelemetryEntry>, k: string)
    requires exists j :: 0 <= j < |entries| && entries[j].key == k
    ensures k in TelemetryDictionary(entries)
    ensures TelemetryDictionary(entries)[k] == entries[FirstIndex(entries, k)].value
  {
    var i := FirstIndex(entries, k);
    assert entries[i].key == k;
  }

  /** Later entries never change a key that is already present. */
  lemma LaterDuplicatesIgnored(entries: seq<TelemetryEntry>, more: seq<TelemetryEntry>, k: string)
    requires k in TelemetryDictionary(entries)
    ensures k in TelemetryDictionary(entries + more)
    ensures TelemetryDictionary(entries + more)[k] == TelemetryDictionary(entries)[k]
  {
    var all := entries + more;
    var i := FirstIndex(entries, k);
    assert all[i].key == k;
    forall j | 0 <= j < i
      ensures all[j].key != k
    {
      assert all[j] == entries[j];
    }
    FirstValueWins(entries, k);
  }

  /** Entries with distinct keys give a dictionary of exactly that many keys. */
  lemma DistinctKeysCount(entries: seq<TelemetryEntry>)
    requires forall i, j :: 0 <= i < j < |entries| ==> entries[i].key != entries[j].key
    ensures |TelemetryDictionary(entries)| == |entries|
    decreases |entries|
  {
    if entries != [] {
      var init := entries[..|entries| - 1];
      var e := entries[|entries| - 1];
      DistinctKeysCount(init);
      forall j | 0 <= j < |init|
        ensures init[j].key != e.key
      {
        assert init[j] == entries[j];
      }
      assert forall j :: 0 <= j < |init| ==> init[j] == entries[j];
    }
  }

  datatype VideoClip = VideoClip(start: real, end: real)

  datatype Call =
    | SendEvent(name: string, entries: map<string, string>)
    | UploadFile(path: string, metadata: map<string, string>)
    | TrimVideo(source: string, clip: VideoClip)
    | Archive(filePaths: seq<string>, destination: string)

  class Platform {
    const hasTrimmer: bool
    const hasArchiver: bool
    /** Every call to a collaborator, in order. */
    var calls: seq<Call>
    /** Every `SuccessCallback` invocation, in order. */
    var callbacks: seq<bool>

    constructor (hasTrimmer: bool, hasArchiver: bool)
      ensures this.hasTrimmer == hasTrimmer && this.hasArchiver == hasArchiver
      ensures calls == [] && callbacks == []
    {
      this.hasTrimmer := hasTrimmer;
      this.hasArchiver := hasArchiver;
      calls := [];
      callbacks := [];
    }

    /** `sendTelemetry(name:entries:)`: the deduplicated entries go out under the same name. */
    method SendTelemetry(name: string, entries: seq<TelemetryEntry>)
      modifies this`calls
      ensures calls == old(calls) + [SendEvent(name, TelemetryDictionary(entries))]
    {
      calls := calls + [SendEvent(name, TelemetryDictionary(entries))];
    }

    /** `sendTelemetryFile(path:metadata:callback:)`: success is the upload finishing without an error. */
    method SendTelemetryFile(path: string, metadata: map<string, string>, uploadError: Option<string>)
      modifies this
      ensures calls == old(calls) + [UploadFile(path, metadata)]
      ensures callbacks == old(callbacks) + [uploadError.None?]
    {
      calls := calls + [UploadFile(path, metadata)];
      callbacks := callbacks + [uploadError == None];
    }

    /**
     * `makeVideoClips(inputFilePath:clips:callback:)`: without a trimmer the
     * callback gets false and nothing is trimmed; otherwise every clip is
     * trimmed and one callback, after the last, reports whether none failed.
     * `trimFails(i)` is the trimmer's answer for the clip at position `i`.
     */
    method MakeVideoClips(input: string, clips: seq<VideoClip>, trimFails: nat -> bool)
      modifies this
      ensures !hasTrimmer ==> calls == old(calls) && callbacks == old(callbacks) + [false]
      ensures hasTrimmer ==>
        && |calls| == |old(calls)| + |clips|
        && calls[..|old(calls)|] == old(calls)
        && (forall i :: 0 <= i < |clips| ==> calls[|old(calls)| + i] == TrimVideo(input, clips[i]))
        && callbacks == old(callbacks) + [forall i :: 0 <= i < |clips| ==> !trimFails(i)]
    {
      if !hasTrimmer {
        callbacks := callbacks + [false];
        return;
      }
      var success := true;
      var i := 0;
      while i < |clips|
        invariant 0 <= i <= |clips|
        invariant |calls| == |old(calls)| + i && calls[..|old(calls)|] == old(calls)
        invariant forall j :: 0 <= j < i ==> calls[|old(calls)| + j] == TrimVideo(input, clips[j])
        invariant success <==> forall j :: 0 <= j < i ==> !trimFails(j)
        invariant callbacks == old(callbacks)
      {
        calls := calls + [TrimVideo(input, clips[i])];
        if trimFails(i) {
          success := false;
        }
        i := i + 1;
      }
      callbacks := callbacks + [success];
    }

    /** `archiveFiles(filePaths:archivePath:callback:)`: one callback, false exactly when an archiver is present and throws. */
    method ArchiveFiles(filePaths: seq<string>, archivePath: string, archiveThrows: bool)
      modifies this
      ensures calls == old(calls) + (if hasArchiver then [Archive(filePaths, archivePath)] else [])
      ensures callbacks == old(callbacks) + [!(hasArchiver && archiveThrows)]
    {
      if hasArchiver {
        calls := calls + [Archive(filePaths, archivePath)];
        if archiveThrows {
          callbacks := callbacks + [false];
          return;
        }
      }
      callbacks := callbacks + [true];
    }
  }

  /** With a trimmer, no clips at all is a success. */
  method NoClipsSucceed() returns (result: seq<bool>)
    ensures result == [true]
  {
    var p := new Platform(true, false);
    p.MakeVideoClips("in.mp4", [], i => true);
    result := p.callbacks;
  }

  /** Two clips of which the second fails: both are trimmed and the single callback reports failure. */
  method OneFailingClipFails() returns (trims: nat, result: seq<bool>)
    ensures trims == 2 && result == [false]
  {
    var p := new Platform(true, false);
    var a := VideoClip(0.0, 1.0);
    var b := VideoClip(1.0, 2.0);
    var clips := [a, b];
    var fails := (i: nat) => i == 1;
    assert fails(1);
    p.MakeVideoClips("in.mp4", clips, fails);
    trims := |p.calls|;
    result := p.callbacks;
  }
}
