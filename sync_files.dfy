/**
 * The deterministic rules of one `RecordSynchronizer` pass over the record
 * directories: what `clean` deletes, what one directory's archive-and-upload
 * step does, which videos are uploaded in which order, and how the remote
 * folder is named.  The file manager is a map from directory name to
 * contents; the archiver, the network and marker creation are answered by
 * the `PassInputs` of the pass.
 */
module SyncFiles {
  import opened Wrappers
  import RecordingQuota

  /** One megabyte; `.mByte` is not part of this model, a binary megabyte is assumed. */
  const MByte: nat := 1024 * 1024
  /** `memoryLimit`: the local storage cap for synced directories. */
  const MemoryLimit: nat := 300 * MByte
  /** `networkingMemoryLimit`: the upload budget per window. */
  const NetworkingMemoryLimit: nat := 30 * MByte
  /** `updatingInterval`: one hour, in seconds. */
  const UpdatingInterval: nat := 3600

  const SyncFileName: string := ".synced"
  const TelemetryFileName: string := "telemetry"
  const ImagesFileName: string := "images"

  /** The record file types, told apart by extension; `NoExtension` is a name without one. */
  datatype FileType = Bin | Json | Image | Video | Archive | NoExtension | OtherExtension

  /** A file: its name without extension, the type its extension names, and its size in bytes. */
  datatype RecordFile = RecordFile(base: string, kind: FileType, size: nat)

  /** A record directory: the files at its top level and those in its `images` subdirectory. */
  datatype RecordDir = RecordDir(files: seq<RecordFile>, images: seq<RecordFile>)

  /** The file manager's view of the record directories: name to contents; an absent name does not exist. */
  type Disk = map<string, RecordDir>

  // ---------------------------------------------------------------------------
  // Sizes and the synced marker

  function SumSizes(fs: seq<RecordFile>): nat
    decreases |fs|
  {
    if fs == [] then 0 else fs[0].size + SumSizes(fs[1..])
  }

  /** `sizeOfDirectory(at:)`: the total size of the files the directory holds. */
  function DirSize(d: RecordDir): nat {
    SumSizes(d.files) + SumSizes(d.images)
  }

  predicate IsSyncMarker(f: RecordFile) {
    f.base == SyncFileName && f.kind == NoExtension
  }

  predicate HasMarker(fs: seq<RecordFile>) {
    exists f :: f in fs && IsSyncMarker(f)
  }

  /** `isMarkAsSynced`: the directory can be listed and holds `.synced`. */
  predicate IsMarkAsSynced(disk: Disk, dir: string) {
    dir in disk && HasMarker(disk[dir].files)
  }

  // ---------------------------------------------------------------------------
  // clean

  /** The sum of a sequence of sizes. */
  function Sum(xs: seq<nat>): nat
    decreases |xs|
  {
    if xs == [] then 0 else Sum(xs[..|xs| - 1]) + xs[|xs| - 1]
  }

  lemma {:induction false} SumCons(xs: seq<nat>)
    requires xs != []
    ensures Sum(xs) == xs[0] + Sum(xs[1..])
    decreases |xs|
  {
    if |xs| > 1 {
      SumCons(xs[..|xs| - 1]);
      assert xs[..|xs| - 1][1..] == xs[1..][..|xs[1..]| - 1];
    }
  }

  /** Prefix sums grow with the prefix. */
  lemma {:induction false} SumPrefixMonotone(xs: seq<nat>, i: nat, j: nat)
    requires i <= j <= |xs|
    ensures Sum(xs[..i]) <= Sum(xs[..j])
    decreases j - i
  {
    if i < j {
      assert xs[..j][..j - 1] == xs[..j - 1];
      SumPrefixMonotone(xs, i, j - 1);
    }
  }

  /** The sum of a prefix of length `i + 1` is the head plus the tail's prefix of length `i`. */
  lemma PrefixSum(sizes: seq<nat>, i: nat)
    requires i < |sizes|
    ensures Sum(sizes[..i + 1]) == sizes[0] + Sum(sizes[1..][..i])
  {
    SumCons(sizes[..i + 1]);
    assert sizes[..i + 1][1..] == sizes[1..][..i];
  }

  /**
   * The `reduce` of `clean` over the sizes of the synced directories, in
   * walk order, starting from the running total `total`: entry `i` is
   * deleted exactly when the running total including it exceeds
   * `memoryLimit`, or when its own size is 0.
   */
  function PruneFlags(sizes: seq<nat>, total: nat): (flags: seq<bool>)
    ensures |flags| == |sizes|
    ensures forall i :: 0 <= i < |sizes| ==>
      flags[i] == (total + Sum(sizes[..i + 1]) > MemoryLimit || sizes[i] == 0)
    decreases |sizes|
  {
    if sizes == [] then []
    else
      var t := total + sizes[0];
      var rest := PruneFlags(sizes[1..], t);
      var flags := [t > MemoryLimit || sizes[0] == 0] + rest;
      assert forall i :: 0 <= i < |sizes| ==>
        flags[i] == (total + Sum(sizes[..i + 1]) > MemoryLimit || sizes[i] == 0) by {
        forall i | 0 <= i < |sizes|
          ensures flags[i] == (total + Sum(sizes[..i + 1]) > MemoryLimit || sizes[i] == 0)
        {
          PrefixSum(sizes, i);
        }
      }
      flags
  }

  /** The total size of the entries that are not flagged. */
  function KeptTotal(sizes: seq<nat>, flags: seq<bool>): nat
    requires |flags| == |sizes|
    decreases |sizes|
  {
    if sizes == [] then 0 else (if flags[0] then 0 else sizes[0]) + KeptTotal(sizes[1..], flags[1..])
  }

  /** Once the running total is past the cap, everything after is deleted. */
  lemma {:induction false} PastLimitKeepsNothing(sizes: seq<nat>, total: nat)
    requires total > MemoryLimit
    ensures KeptTotal(sizes, PruneFlags(sizes, total)) == 0
    decreases |sizes|
  {
    if sizes != [] {
      PastLimitKeepsNothing(sizes[1..], total + sizes[0]);
    }
  }

  lemma {:induction false} KeptWithinLimitFrom(sizes: seq<nat>, total: nat)
    requires total <= MemoryLimit
    ensures total + KeptTotal(sizes, PruneFlags(sizes, total)) <= MemoryLimit
    decreases |sizes|
  {
    if sizes != [] {
      var t := total + sizes[0];
      if t > MemoryLimit {
        PastLimitKeepsNothing(sizes[1..], t);
      } else {
        KeptWithinLimitFrom(sizes[1..], t);
      }
    }
  }

  /** The synced directories `clean` keeps total at most `memoryLimit`. */
  lemma KeptSyncedWithinLimit(sizes: seq<nat>)
    ensures KeptTotal(sizes, PruneFlags(sizes, 0)) <= MemoryLimit
  {
    KeptWithinLimitFrom(sizes, 0);
  }

  /** Once the running total passes the cap, every later synced directory is deleted too. */
  lemma OverLimitDeletesRest(sizes: seq<nat>, i: nat, j: nat)
    requires i <= j < |sizes|
    requires Sum(sizes[..i + 1]) > MemoryLimit
    ensures PruneFlags(sizes, 0)[j]
  {
    SumPrefixMonotone(sizes, i + 1, j + 1);
  }

  /** Synced directories of 10, 50, 100 and 200 MB, in walk order: only the last is deleted (the total reaches 360 MB there). */
  lemma PruneScenario()
    ensures PruneFlags([10 * MByte, 50 * MByte, 100 * MByte, 200 * MByte], 0) == [false, false, false, true]
  {
    var sizes := [10 * MByte, 50 * MByte, 100 * MByte, 200 * MByte];
    var flags := PruneFlags(sizes, 0);
    assert sizes[..1] == [10 * MByte] && sizes[..2] == [10 * MByte, 50 * MByte];
    assert sizes[..3] == sizes[..2] + [100 * MByte] && sizes[..4] == sizes;
    assert Sum(sizes[..1]) == 10 * MByte by { assert sizes[..1][..0] == []; }
    assert Sum(sizes[..2]) == 60 * MByte by { assert sizes[..2][..1] == sizes[..1]; }
    assert Sum(sizes[..3]) == 160 * MByte by { assert sizes[..3][..2] == sizes[..2]; }
    assert Sum(sizes[..4]) == 360 * MByte by { assert sizes[..4][..3] == sizes[..3]; }
  }

  /** The `filter(isMarkAsSynced)` step: the synced directories, in the given order. */
  function SyncedOnly(disk: Disk, dirs: seq<string>): (r: seq<string>)
    ensures forall x :: x in r <==> x in dirs && IsMarkAsSynced(disk, x)
    ensures forall i :: 0 <= i < |r| ==> r[i] in disk
    decreases |dirs|
  {
    if dirs == [] then []
    else (if IsMarkAsSynced(disk, dirs[0]) then [dirs[0]] else []) + SyncedOnly(disk, dirs[1..])
  }

  /** The sizes of the given directories. */
  function SizesOf(disk: Disk, dirs: seq<string>): (r: seq<nat>)
    requires forall i :: 0 <= i < |dirs| ==> dirs[i] in disk
    ensures |r| == |dirs|
    ensures forall i :: 0 <= i < |dirs| ==> r[i] == DirSize(disk[dirs[i]])
    decreases |dirs|
  {
    if dirs == [] then [] else [DirSize(disk[dirs[0]])] + SizesOf(disk, dirs[1..])
  }

  /** The entries of `xs` whose flag is set, in order. */
  function Select(xs: seq<string>, flags: seq<bool>): (r: seq<string>)
    requires |flags| == |xs|
    ensures forall x :: x in r <==> exists i :: 0 <= i < |xs| && flags[i] && xs[i] == x
    decreases |xs|
  {
    if xs == [] then []
    else
      var ys, gs := xs[1..], flags[1..];
      var rest := Select(ys, gs);
      var r := (if flags[0] then [xs[0]] else []) + rest;
      assert forall x :: x in r <==> exists i :: 0 <= i < |xs| && flags[i] && xs[i] == x by {
        forall x | x in r ensures exists i :: 0 <= i < |xs| && flags[i] && xs[i] == x {
          if !(flags[0] && x == xs[0]) {
            var k :| 0 <= k < |ys| && gs[k] && ys[k] == x;
            assert flags[k + 1] && xs[k + 1] == x;
          }
        }
        forall x, i | 0 <= i < |xs| && flags[i] && xs[i] == x ensures x in r {
          if i > 0 {
            assert gs[i - 1] && ys[i - 1] == x;
          }
        }
      }
      r
  }

  /** The directories `clean` removes, given the directories in creation-date order. */
  function CleanTargets(disk: Disk, byCreation: seq<string>): (r: seq<string>)
    ensures forall x :: x in r ==> IsMarkAsSynced(disk, x)
  {
    var synced := SyncedOnly(disk, byCreation);
    Select(synced, PruneFlags(SizesOf(disk, synced), 0))
  }

  /** `clean`: the disk without the directories it removes. */
  function Clean(disk: Disk, byCreation: seq<string>): (r: Disk)
    ensures forall x :: x in r <==> x in disk && x !in CleanTargets(disk, byCreation)
    ensures forall x :: x in r ==> r[x] == disk[x]
  {
    var targets := CleanTargets(disk, byCreation);
    map x | x in disk && x !in targets :: disk[x]
  }

  /**
   * `clean` removes only synced directories, and a synced directory at
   * position `i` of the walk is removed exactly when the running total up
   * to and including it exceeds `memoryLimit` or its own size is 0.
   */
  lemma CleanRemovesOnlyPrunedSynced(disk: Disk, byCreation: seq<string>, x: string)
    requires x in disk
    ensures !IsMarkAsSynced(disk, x) ==> x in Clean(disk, byCreation)
    ensures var synced := SyncedOnly(disk, byCreation);
      var sizes := SizesOf(disk, synced);
      x !in Clean(disk, byCreation) <==>
        exists i :: 0 <= i < |synced| && synced[i] == x && (Sum(sizes[..i + 1]) > MemoryLimit || sizes[i] == 0)
  {
    var synced := SyncedOnly(disk, byCreation);
    var sizes := SizesOf(disk, synced);
    var flags := PruneFlags(sizes, 0);
    assert CleanTargets(disk, byCreation) == Select(synced, flags);
    assert x !in Clean(disk, byCreation) <==> x in Select(synced, flags);
    assert forall i :: 0 <= i < |synced| ==> flags[i] == (Sum(sizes[..i + 1]) > MemoryLimit || sizes[i] == 0);
  }

  // ---------------------------------------------------------------------------
  // Remote folder names

  /** The device identity that goes into remote folder names. */
  datatype Naming = Naming(locale: string, deviceId: string, platformName: string)

  /** `joined(separator:)`. */
  function Join(parts: seq<string>, sep: char): string
    decreases |parts|
  {
    if parts == [] then "" else if |parts| == 1 then parts[0] else parts[0] + [sep] + Join(parts[1..], sep)
  }

  /** Splitting at every separator, keeping empty pieces: the inverse of `Join`. */
  function Split(s: string, sep: char): (r: seq<string>)
    ensures |r| >= 1
    decreases |s|
  {
    if s == [] then [""]
    else if s[0] == sep then [""] + Split(s[1..], sep)
    else var rest := Split(s[1..], sep); [[s[0]] + rest[0]] + rest[1..]
  }

  lemma {:induction false} SplitPlain(a: string, sep: char)
    requires sep !in a
    ensures Split(a, sep) == [a]
    decreases |a|
  {
    if a != [] {
      SplitPlain(a[1..], sep);
      assert [a[0]] + a[1..] == a;
    }
  }

  lemma {:induction false} SplitAtFirst(a: string, sep: char, b: string)
    requires sep !in a
    ensures Split(a + [sep] + b, sep) == [a] + Split(b, sep)
    decreases |a|
  {
    if a == [] {
      assert a + [sep] + b == [sep] + b;
      assert ([sep] + b)[1..] == b;
    } else {
      var s := a + [sep] + b;
      assert s[0] == a[0] && s[1..] == a[1..] + [sep] + b;
      SplitAtFirst(a[1..], sep, b);
      assert [a[0]] + a[1..] == a;
    }
  }

  /** Splitting a join gives back the parts when none of them holds the separator. */
  lemma {:induction false} SplitJoin(parts: seq<string>, sep: char)
    requires |parts| >= 1
    requires forall i :: 0 <= i < |parts| ==> sep !in parts[i]
    ensures Split(Join(parts, sep), sep) == parts
    decreases |parts|
  {
    if |parts| == 1 {
      SplitPlain(parts[0], sep);
    } else {
      SplitJoin(parts[1..], sep);
      SplitAtFirst(parts[0], sep, Join(parts[1..], sep));
      assert [parts[0]] + parts[1..] == parts;
    }
  }

  /** `createRemoteDirName`: the directory name, locale, device id and platform name, joined by `_`. */
  function RemoteDirName(dir: string, naming: Naming): (r: string)
    ensures r == dir + "_" + naming.locale + "_" + naming.deviceId + "_" + naming.platformName
  {
    var parts := [dir, naming.locale, naming.deviceId, naming.platformName];
    assert Join(parts[3..], '_') == naming.platformName;
    assert Join(parts[2..], '_') == naming.deviceId + "_" + naming.platformName by {
      assert parts[2..][1..] == parts[3..];
    }
    assert Join(parts[1..], '_') == naming.locale + "_" + naming.deviceId + "_" + naming.platformName by {
      assert parts[1..][1..] == parts[2..];
    }
    Join(parts, '_')
  }

  /** The four name components can be read back from a remote folder name when none of them holds `_`. */
  lemma RemoteDirNameRoundTrip(dir: string, naming: Naming)
    requires '_' !in dir && '_' !in naming.locale && '_' !in naming.deviceId && '_' !in naming.platformName
    ensures Split(RemoteDirName(dir, naming), '_') == [dir, naming.locale, naming.deviceId, naming.platformName]
  {
    SplitJoin([dir, naming.locale, naming.deviceId, naming.platformName], '_');
  }

  // ---------------------------------------------------------------------------
  // One pass: inputs, state and per-unit results

  /**
   * What the outside world answers during one phase: the clock reading for
   * the reservations, the size of the archive the archiver writes for a
   * (directory, archive name) or `None` when it throws, whether the upload
   * of a file of a directory ends without error, and whether `.synced` can
   * be created in a directory.
   */
  datatype PassInputs = PassInputs(
    now: int,
    archiveSize: (string, string) -> Option<nat>,
    uploadSucceeds: (string, RecordFile) -> bool,
    markerCreated: string -> bool)

  /** One upload handed to the network client: the file of a directory and the remote folder. */
  datatype Upload = Upload(dir: string, file: RecordFile, folder: string)

  /** What a pass changes: the disk, the persisted upload quota, and the uploads issued so far. */
  datatype PassState = PassState(disk: Disk, quota: RecordingQuota.Store, uploads: seq<Upload>)

  /** How one directory (or video file) ended; all but `Uploaded` are logged and skipped. */
  datatype UnitResult =
    | Uploaded
    | ListingFailed
    | NoRequestedFiles
    | ArchiveFailed
    | QuotaExceeded
    | UploadFailed
    | SyncFileCreationFail

  /** The two archive phases: the file types, where they are taken from, the archive name, and whether success marks the directory synced. */
  datatype ArchiveJob = ArchiveJob(types: set<FileType>, fromImages: bool, archiveName: string, marksSynced: bool)

  /** `uploadTelemetry`: `.bin`/`.json` files of the directory, archived as `telemetry`, then marked synced. */
  const TelemetryJob: ArchiveJob := ArchiveJob({Bin, Json}, false, TelemetryFileName, true)
  /** `uploadImages`: image files of the `images` subdirectory, archived as `images` next to it. */
  const ImagesJob: ArchiveJob := ArchiveJob({Image}, true, ImagesFileName, false)

  /** The files of the wanted types (`getFiles`). */
  function Matching(fs: seq<RecordFile>, types: set<FileType>): (r: seq<RecordFile>)
    ensures forall f :: f in r <==> f in fs && f.kind in types
    ensures r == [] <==> forall f :: f in fs ==> f.kind !in types
    decreases |fs|
  {
    if fs == [] then [] else (if fs[0].kind in types then [fs[0]] else []) + Matching(fs[1..], types)
  }

  /** The files without those of the given types. */
  function Without(fs: seq<RecordFile>, types: set<FileType>): (r: seq<RecordFile>)
    ensures forall f :: f in r <==> f in fs && f.kind !in types
    decreases |fs|
  {
    if fs == [] then [] else (if fs[0].kind in types then [] else [fs[0]]) + Without(fs[1..], types)
  }

  /** The files other than the one at the path of `g` (same name, same type): `remove(item:)`. */
  function Removed(fs: seq<RecordFile>, g: RecordFile): (r: seq<RecordFile>)
    ensures forall f :: f in r <==> f in fs && !(f.base == g.base && f.kind == g.kind)
    decreases |fs|
  {
    if fs == [] then []
    else (if fs[0].base == g.base && fs[0].kind == g.kind then [] else [fs[0]]) + Removed(fs[1..], g)
  }

  /** The source files a job archives from a directory. */
  function Sources(d: RecordDir, job: ArchiveJob): seq<RecordFile> {
    Matching(if job.fromImages then d.images else d.files, job.types)
  }

  predicate IsArchiveNamed(f: RecordFile, name: string) {
    f.base == name && f.kind == Archive
  }

  /** The archive of that name at the top level of the directory, if it exists (`fileExists`). */
  function FindArchive(fs: seq<RecordFile>, name: string): (r: Option<RecordFile>)
    ensures r.Some? ==> r.value in fs && IsArchiveNamed(r.value, name)
    ensures r.None? ==> forall f :: f in fs ==> !IsArchiveNamed(f, name)
    decreases |fs|
  {
    if fs == [] then None else if IsArchiveNamed(fs[0], name) then Some(fs[0]) else FindArchive(fs[1..], name)
  }

  /** The directory after archiving: sources removed, the new archive at its top level. */
  function Archived(d: RecordDir, job: ArchiveJob, archive: RecordFile): RecordDir {
    if job.fromImages then RecordDir(d.files + [archive], Without(d.images, job.types))
    else RecordDir(Without(d.files, job.types) + [archive], d.images)
  }

  /** Archiving removes every source file and keeps everything else. */
  lemma ArchivedHasNoSources(d: RecordDir, job: ArchiveJob, archive: RecordFile)
    requires archive.kind !in job.types
    ensures Sources(Archived(d, job, archive), job) == []
  {
  }

  /** A directory with its archive in place, ready to be reserved and uploaded. */
  datatype Prepared = Prepared(dir: RecordDir, archive: RecordFile)

  /**
   * The archive part of `uploadArchivedFiles` for one directory: an
   * existing archive is reused as it is; otherwise the wanted files are
   * listed (`noRequestedFiles` when there are none), archived and removed.
   */
  function PrepareArchive(job: ArchiveJob, inputs: PassInputs, disk: Disk, dir: string): (r: Result<Prepared, UnitResult>)
    ensures r.Success? ==> dir in disk && r.value.archive in r.value.dir.files && IsArchiveNamed(r.value.archive, job.archiveName)
    ensures dir in disk && FindArchive(disk[dir].files, job.archiveName).Some? ==>
      r == Success(Prepared(disk[dir], FindArchive(disk[dir].files, job.archiveName).value))
    ensures r == Failure(NoRequestedFiles) <==>
      dir in disk && FindArchive(disk[dir].files, job.archiveName).None? && Sources(disk[dir], job) == []
    ensures r.Success? && FindArchive(disk[dir].files, job.archiveName).None? && Archive !in job.types ==>
      && Sources(r.value.dir, job) == []
      && inputs.archiveSize(dir, job.archiveName) == Some(r.value.archive.size)
      && (forall f :: f in disk[dir].files && !(f.kind in job.types && !job.fromImages) ==> f in r.value.dir.files)
      && (forall f :: f in disk[dir].images && !(f.kind in job.types && job.fromImages) ==> f in r.value.dir.images)
    ensures r.Success? ==> forall f :: f in r.value.dir.files ==> f == r.value.archive || f in disk[dir].files
    ensures r.Success? ==> forall f :: f in r.value.dir.images ==> f in disk[dir].images
    ensures r.Success? && !job.fromImages ==> r.value.dir.images == disk[dir].images
  {
    if dir !in disk then Failure(ListingFailed)
    else
      var d := disk[dir];
      var existing := FindArchive(d.files, job.archiveName);
      if existing.Some? then Success(Prepared(d, existing.value))
      else if Sources(d, job) == [] then Failure(NoRequestedFiles)
      else
        match inputs.archiveSize(dir, job.archiveName)
        case None => Failure(ArchiveFailed)
        case Some(size) =>
          var archive := RecordFile(job.archiveName, Archive, size);
          assert Archive !in job.types ==> Sources(Archived(d, job, archive), job) == [] by {
            if Archive !in job.types {
              ArchivedHasNoSources(d, job, archive);
            }
          }
          Success(Prepared(Archived(d, job, archive), archive))
  }

  /** `createSyncFile`: `.synced` written (or overwritten) at the top level of the directory. */
  function WithMarker(d: RecordDir): (r: RecordDir)
    ensures HasMarker(r.files)
    ensures r.images == d.images
    ensures forall f :: f in r.files <==>
      f == RecordFile(SyncFileName, NoExtension, 0) || (f in d.files && !(f.base == SyncFileName && f.kind == NoExtension))
  {
    var marker := RecordFile(SyncFileName, NoExtension, 0);
    var r := RecordDir(Removed(d.files, marker) + [marker], d.images);
    assert marker in r.files && IsSyncMarker(marker);
    r
  }

  /**
   * `markAsSynced` and `isMarkAsSynced` agree: a directory whose `.synced`
   * was just written reads as synced, and a directory that cannot be
   * listed never does.
   */
  lemma MarkedReadsAsSynced(disk: Disk, dir: string, d: RecordDir)
    ensures IsMarkAsSynced(disk[dir := WithMarker(d)], dir)
    ensures dir !in disk ==> !IsMarkAsSynced(disk, dir)
  {
  }

  /** Reserving with the synchronizer's quota: 30 MB per hour. */
  function Reserve(store: RecordingQuota.Store, amount: nat, now: int): RecordingQuota.Reservation {
    RecordingQuota.ReserveOn(NetworkingMemoryLimit, UpdatingInterval, store, amount, now)
  }

  /**
   * `uploadArchivedFiles` for one directory: prepare the archive, reserve
   * its size, upload it to the directory's remote folder, remove it on
   * success and then, for telemetry, write `.synced`.  Only this directory
   * changes.
   */
  function ArchiveUnit(job: ArchiveJob, naming: Naming, inputs: PassInputs, s: PassState, dir: string): (r: (UnitResult, PassState))
    ensures forall x :: x in r.1.disk <==> x in s.disk
    ensures forall x :: x in s.disk && x != dir ==> r.1.disk[x] == s.disk[x]
    ensures r.1.uploads == s.uploads || exists f :: r.1.uploads == s.uploads + [Upload(dir, f, RemoteDirName(dir, naming))]
  {
    match PrepareArchive(job, inputs, s.disk, dir)
    case Failure(e) => (e, s)
    case Success(p) =>
      var reservation := Reserve(s.quota, p.archive.size, inputs.now);
      if reservation.outcome.Fail? then
        (QuotaExceeded, PassState(s.disk[dir := p.dir], reservation.store, s.uploads))
      else
        var uploads := s.uploads + [Upload(dir, p.archive, RemoteDirName(dir, naming))];
        if !inputs.uploadSucceeds(dir, p.archive) then
          (UploadFailed, PassState(s.disk[dir := p.dir], reservation.store, uploads))
        else
          var d := RecordDir(Removed(p.dir.files, p.archive), p.dir.images);
          if !job.marksSynced then
            (Uploaded, PassState(s.disk[dir := d], reservation.store, uploads))
          else if inputs.markerCreated(dir) then
            (Uploaded, PassState(s.disk[dir := WithMarker(d)], reservation.store, uploads))
          else
            (SyncFileCreationFail, PassState(s.disk[dir := d], reservation.store, uploads))
  }

  /** A directory whose archive cannot be prepared is skipped: nothing changes, not even the quota. */
  lemma PrepareFailureSkips(job: ArchiveJob, naming: Naming, inputs: PassInputs, s: PassState, dir: string)
    requires PrepareArchive(job, inputs, s.disk, dir).Failure?
    ensures ArchiveUnit(job, naming, inputs, s, dir) == (PrepareArchive(job, inputs, s.disk, dir).error, s)
    ensures PrepareArchive(job, inputs, s.disk, dir).error in {ListingFailed, NoRequestedFiles, ArchiveFailed}
  {
  }

  /**
   * The archive's size is reserved before the upload; a refused
   * reservation skips the directory with no upload, keeping the prepared
   * archive for the next pass.
   */
  lemma ReservationGatesUpload(job: ArchiveJob, naming: Naming, inputs: PassInputs, s: PassState, dir: string)
    requires PrepareArchive(job, inputs, s.disk, dir).Success?
    ensures var p := PrepareArchive(job, inputs, s.disk, dir).value;
      var reservation := Reserve(s.quota, p.archive.size, inputs.now);
      var r := ArchiveUnit(job, naming, inputs, s, dir);
      && r.1.quota == reservation.store
      && (r.0 == QuotaExceeded <==> reservation.outcome.Fail?)
      && (r.0 == QuotaExceeded ==> r.1.uploads == s.uploads && r.1.disk[dir] == p.dir)
      && (r.0 != QuotaExceeded ==> r.1.uploads == s.uploads + [Upload(dir, p.archive, RemoteDirName(dir, naming))])
  {
  }

  /** After a successful upload the archive is gone from the directory. */
  lemma UploadRemovesArchive(job: ArchiveJob, naming: Naming, inputs: PassInputs, s: PassState, dir: string)
    requires ArchiveUnit(job, naming, inputs, s, dir).0 in {Uploaded, SyncFileCreationFail}
    ensures var d := ArchiveUnit(job, naming, inputs, s, dir).1.disk[dir];
      forall f :: f in d.files ==> !IsArchiveNamed(f, job.archiveName)
  {
    var p := PrepareArchive(job, inputs, s.disk, dir).value;
    var d := RecordDir(Removed(p.dir.files, p.archive), p.dir.images);
    var marker := RecordFile(SyncFileName, NoExtension, 0);
    assert forall f :: f in Removed(d.files, marker) + [marker] ==> f == marker || f in d.files;
  }

  /** Archiving and removing an archive neither add nor remove `.synced`. */
  lemma MarkerSurvivesArchiving(d: RecordDir, job: ArchiveJob, archive: RecordFile)
    requires NoExtension !in job.types && archive.kind == Archive
    ensures HasMarker(Archived(d, job, archive).files) <==> HasMarker(d.files)
    ensures HasMarker(Removed(Archived(d, job, archive).files, archive)) <==> HasMarker(d.files)
  {
    var fs := Archived(d, job, archive).files;
    assert forall f :: f in fs && IsSyncMarker(f) ==> f in d.files;
    assert forall f :: f in d.files && IsSyncMarker(f) ==> f in fs;
  }

  lemma MarkerSurvivesRemoval(fs: seq<RecordFile>, archive: RecordFile)
    requires archive.kind == Archive
    ensures HasMarker(Removed(fs, archive)) <==> HasMarker(fs)
  {
    assert forall f :: f in fs && IsSyncMarker(f) ==> f in Removed(fs, archive);
  }

  /**
   * The telemetry phase marks a directory synced exactly when it was
   * already marked or its archive was uploaded and `.synced` written;
   * `SyncFileCreationFail` is the upload whose marker write failed.
   */
  lemma TelemetryMarksSynced(naming: Naming, inputs: PassInputs, s: PassState, dir: string)
    requires dir in s.disk
    ensures var r := ArchiveUnit(TelemetryJob, naming, inputs, s, dir);
      IsMarkAsSynced(r.1.disk, dir) <==> IsMarkAsSynced(s.disk, dir) || r.0 == Uploaded
    ensures var r := ArchiveUnit(TelemetryJob, naming, inputs, s, dir);
      r.0 == SyncFileCreationFail ==> !inputs.markerCreated(dir)
  {
    var pr := PrepareArchive(TelemetryJob, inputs, s.disk, dir);
    if pr.Success? {
      var p := pr.value;
      var d := s.disk[dir];
      assert HasMarker(p.dir.files) <==> HasMarker(d.files) by {
        if FindArchive(d.files, TelemetryFileName).None? {
          MarkerSurvivesArchiving(d, TelemetryJob, p.archive);
        }
      }
      MarkerSurvivesRemoval(p.dir.files, p.archive);
      var reservation := Reserve(s.quota, p.archive.size, inputs.now);
      var r := ArchiveUnit(TelemetryJob, naming, inputs, s, dir);
      var removed := RecordDir(Removed(p.dir.files, p.archive), p.dir.images);
      if reservation.outcome.Fail? || !inputs.uploadSucceeds(dir, p.archive) {
        assert r.1.disk[dir] == p.dir;
        assert r.0 != Uploaded;
      } else if inputs.markerCreated(dir) {
        assert r.1.disk[dir] == WithMarker(removed);
        assert r.0 == Uploaded;
      } else {
        assert r.1.disk[dir] == removed;
        assert r.0 == SyncFileCreationFail;
      }
    }
  }

  /** The image phase never writes or removes `.synced`: directories with only images are never marked. */
  lemma ImagesLeaveMarker(naming: Naming, inputs: PassInputs, s: PassState, dir: string)
    requires dir in s.disk
    ensures IsMarkAsSynced(ArchiveUnit(ImagesJob, naming, inputs, s, dir).1.disk, dir) <==> IsMarkAsSynced(s.disk, dir)
  {
    var pr := PrepareArchive(ImagesJob, inputs, s.disk, dir);
    if pr.Success? {
      var p := pr.value;
      var d := s.disk[dir];
      assert HasMarker(p.dir.files) <==> HasMarker(d.files) by {
        if FindArchive(d.files, ImagesFileName).None? {
          MarkerSurvivesArchiving(d, ImagesJob, p.archive);
        }
      }
      MarkerSurvivesRemoval(p.dir.files, p.archive);
      var after := ArchiveUnit(ImagesJob, naming, inputs, s, dir).1.disk[dir];
      assert after == p.dir || after == RecordDir(Removed(p.dir.files, p.archive), p.dir.images);
    }
  }

  /** Re-running telemetry on a directory with no archive and no `.bin`/`.json` left changes nothing and uploads nothing. */
  lemma AlreadySyncedIsIdempotent(naming: Naming, inputs: PassInputs, s: PassState, dir: string)
    requires dir in s.disk
    requires forall f :: f in s.disk[dir].files ==> f.kind !in {Bin, Json} && !IsArchiveNamed(f, TelemetryFileName)
    ensures ArchiveUnit(TelemetryJob, naming, inputs, s, dir) == (NoRequestedFiles, s)
  {
  }

  /** `uploadArchivedFiles` over the directories, one after the other. */
  function ArchivePass(job: ArchiveJob, naming: Naming, inputs: PassInputs, s: PassState, dirs: seq<string>): (r: PassState)
    ensures forall x :: x in r.disk <==> x in s.disk
    ensures forall x :: x in s.disk && x !in dirs ==> r.disk[x] == s.disk[x]
    decreases |dirs|
  {
    if dirs == [] then s
    else
      var prev := ArchivePass(job, naming, inputs, s, dirs[..|dirs| - 1]);
      assert forall x :: x in s.disk && x !in dirs ==> x !in dirs[..|dirs| - 1] && x != dirs[|dirs| - 1];
      ArchiveUnit(job, naming, inputs, prev, dirs[|dirs| - 1]).1
  }

  /**
   * After a whole telemetry pass over distinct directories, the directory
   * at position `i` is marked synced exactly when it already was, or its
   * own unit, run on the state the earlier directories left, uploaded.
   */
  lemma {:induction false} TelemetryPassMarksSynced(naming: Naming, inputs: PassInputs, s: PassState, dirs: seq<string>, i: nat)
    requires i < |dirs| && dirs[i] in s.disk
    requires forall j, k :: 0 <= j < k < |dirs| ==> dirs[j] != dirs[k]
    ensures var before := ArchivePass(TelemetryJob, naming, inputs, s, dirs[..i]);
      IsMarkAsSynced(ArchivePass(TelemetryJob, naming, inputs, s, dirs).disk, dirs[i]) <==>
        IsMarkAsSynced(s.disk, dirs[i]) || ArchiveUnit(TelemetryJob, naming, inputs, before, dirs[i]).0 == Uploaded
    decreases |dirs|
  {
    var init := dirs[..|dirs| - 1];
    var last := dirs[|dirs| - 1];
    var x := dirs[i];
    var prev := ArchivePass(TelemetryJob, naming, inputs, s, init);
    var after := ArchivePass(TelemetryJob, naming, inputs, s, dirs);
    assert after == ArchiveUnit(TelemetryJob, naming, inputs, prev, last).1;
    assert x in prev.disk;
    if i == |dirs| - 1 {
      assert dirs[..i] == init;
      assert x !in init by {
        forall j | 0 <= j < |init|
          ensures init[j] != x
        {
          assert init[j] == dirs[j];
        }
      }
      assert prev.disk[x] == s.disk[x];
      TelemetryMarksSynced(naming, inputs, prev, x);
    } else {
      assert init[..i] == dirs[..i] && init[i] == x;
      TelemetryPassMarksSynced(naming, inputs, s, init, i);
      assert last != x;
      assert after.disk[x] == prev.disk[x];
    }
  }

  /** An image pass neither adds nor removes `.synced` in any directory. */
  lemma {:induction false} ImagesPassKeepsMarkers(naming: Naming, inputs: PassInputs, s: PassState, dirs: seq<string>, x: string)
    requires x in s.disk
    ensures IsMarkAsSynced(ArchivePass(ImagesJob, naming, inputs, s, dirs).disk, x) <==> IsMarkAsSynced(s.disk, x)
    decreases |dirs|
  {
    if dirs != [] {
      var init := dirs[..|dirs| - 1];
      ImagesPassKeepsMarkers(naming, inputs, s, init, x);
      if dirs[|dirs| - 1] == x {
        ImagesLeaveMarker(naming, inputs, ArchivePass(ImagesJob, naming, inputs, s, init), x);
      }
    }
  }

  // ---------------------------------------------------------------------------
  // Videos

  /** A video file together with the directory it lives in. */
  datatype VideoRef = VideoRef(dir: string, file: RecordFile)

  function VideoRefs(dir: string, fs: seq<RecordFile>): (r: seq<VideoRef>)
    ensures forall v :: v in r <==> v.dir == dir && v.file in fs
    decreases |fs|
  {
    if fs == [] then [] else [VideoRef(dir, fs[0])] + VideoRefs(dir, fs[1..])
  }

  /** The videos of all directories (`flatMap`); a directory without videos, or one that cannot be listed, adds nothing. */
  function VideosIn(disk: Disk, dirs: seq<string>): (r: seq<VideoRef>)
    ensures forall v :: v in r <==> v.dir in dirs && v.dir in disk && v.file in disk[v.dir].files && v.file.kind == Video
    decreases |dirs|
  {
    if dirs == [] then []
    else
      var here := if dirs[0] in disk then VideoRefs(dirs[0], Matching(disk[dirs[0]].files, {Video})) else [];
      here + VideosIn(disk, dirs[1..])
  }

  predicate SortedBySize(vs: seq<VideoRef>) {
    forall i, j :: 0 <= i < j < |vs| ==> vs[i].file.size <= vs[j].file.size
  }

  /** A video no larger than any entry of a sorted sequence can go in front of it. */
  lemma ConsSorted(x: VideoRef, vs: seq<VideoRef>)
    requires SortedBySize(vs)
    requires forall y :: y in vs ==> x.file.size <= y.file.size
    ensures SortedBySize([x] + vs)
  {
    var r := [x] + vs;
    forall i, j | 0 <= i < j < |r| ensures r[i].file.size <= r[j].file.size {
      assert r[j] == vs[j - 1];
      if i > 0 {
        assert r[i] == vs[i - 1];
      }
    }
  }

  lemma TailSorted(vs: seq<VideoRef>)
    requires vs != [] && SortedBySize(vs)
    ensures SortedBySize(vs[1..])
    ensures forall y :: y in vs[1..] ==> vs[0].file.size <= y.file.size
  {
    var tail := vs[1..];
    forall i, j | 0 <= i < j < |tail| ensures tail[i].file.size <= tail[j].file.size {
      assert tail[i] == vs[i + 1] && tail[j] == vs[j + 1];
    }
    forall y | y in tail ensures vs[0].file.size <= y.file.size {
      var k :| 0 <= k < |tail| && tail[k] == y;
      assert vs[k + 1] == y;
    }
  }

  /** `v` placed before the first entry of a sorted sequence that is not smaller. */
  function InsertBySize(v: VideoRef, vs: seq<VideoRef>): (r: seq<VideoRef>)
    requires SortedBySize(vs)
    ensures SortedBySize(r)
    ensures multiset(r) == multiset(vs) + multiset{v}
    ensures forall x :: x in r ==> x == v || x in vs
    decreases |vs|
  {
    if vs == [] || v.file.size <= vs[0].file.size then
      assert forall y :: y in vs ==> v.file.size <= y.file.size by {
        if vs != [] {
          TailSorted(vs);
          assert vs == [vs[0]] + vs[1..];
        }
      }
      ConsSorted(v, vs);
      [v] + vs
    else
      TailSorted(vs);
      var rest := InsertBySize(v, vs[1..]);
      assert vs == [vs[0]] + vs[1..];
      ConsSorted(vs[0], rest);
      [vs[0]] + rest
  }

  /** `sorted { fileSize($0) < fileSize($1) }`: ascending by size (the order among equal sizes is not fixed by the source). */
  function SortBySize(vs: seq<VideoRef>): (r: seq<VideoRef>)
    ensures SortedBySize(r)
    ensures multiset(r) == multiset(vs)
    decreases |vs|
  {
    if vs == [] then []
    else
      assert vs == [vs[0]] + vs[1..];
      InsertBySize(vs[0], SortBySize(vs[1..]))
  }

  /** The directory without one video file (`remove(item:)`); nothing happens if the directory is gone. */
  function RemoveVideo(disk: Disk, v: VideoRef): Disk {
    if v.dir in disk then disk[v.dir := RecordDir(Removed(disk[v.dir].files, v.file), disk[v.dir].images)] else disk
  }

  /** One video of `uploadVideos`: reserve its own size, upload it to its directory's folder, delete it on success. */
  function VideoUnit(naming: Naming, inputs: PassInputs, s: PassState, v: VideoRef): (r: (UnitResult, PassState))
    ensures r.1.quota == Reserve(s.quota, v.file.size, inputs.now).store
    ensures r.0 == QuotaExceeded <==> Reserve(s.quota, v.file.size, inputs.now).outcome.Fail?
    ensures r.0 == QuotaExceeded ==> r.1.uploads == s.uploads && r.1.disk == s.disk
    ensures r.0 != QuotaExceeded ==> r.1.uploads == s.uploads + [Upload(v.dir, v.file, RemoteDirName(v.dir, naming))]
    ensures r.0 in {Uploaded, UploadFailed, QuotaExceeded}
    ensures r.0 == Uploaded <==> r.0 != QuotaExceeded && inputs.uploadSucceeds(v.dir, v.file)
    ensures r.1.disk == if r.0 == Uploaded then RemoveVideo(s.disk, v) else s.disk
  {
    var reservation := Reserve(s.quota, v.file.size, inputs.now);
    if reservation.outcome.Fail? then (QuotaExceeded, PassState(s.disk, reservation.store, s.uploads))
    else
      var uploads := s.uploads + [Upload(v.dir, v.file, RemoteDirName(v.dir, naming))];
      if inputs.uploadSucceeds(v.dir, v.file) then (Uploaded, PassState(RemoveVideo(s.disk, v), reservation.store, uploads))
      else (UploadFailed, PassState(s.disk, reservation.store, uploads))
  }

  /** The videos, one after the other, in the given order. */
  function VideoPass(naming: Naming, inputs: PassInputs, s: PassState, vs: seq<VideoRef>): (r: PassState)
    ensures forall x :: x in r.disk <==> x in s.disk
    ensures forall x :: x in s.disk ==> r.disk[x].images == s.disk[x].images
    ensures |s.uploads| <= |r.uploads| <= |s.uploads| + |vs|
    decreases |vs|
  {
    if vs == [] then s else VideoUnit(naming, inputs, VideoPass(naming, inputs, s, vs[..|vs| - 1]), vs[|vs| - 1]).1
  }

  /** `uploadVideos`: the videos of all directories, smallest first. */
  function VideoPhase(naming: Naming, inputs: PassInputs, s: PassState, dirs: seq<string>): (r: PassState)
    ensures forall x :: x in r.disk <==> x in s.disk
    ensures |s.uploads| <= |r.uploads| && r.uploads[..|s.uploads|] == s.uploads
    ensures forall k :: |s.uploads| <= k < |r.uploads| ==>
      VideoRef(r.uploads[k].dir, r.uploads[k].file) in VideosIn(s.disk, dirs)
      && r.uploads[k].folder == RemoteDirName(r.uploads[k].dir, naming)
    ensures forall k, l :: |s.uploads| <= k < l < |r.uploads| ==> r.uploads[k].file.size <= r.uploads[l].file.size
  {
    var all := VideosIn(s.disk, dirs);
    var vs := SortBySize(all);
    VideoPassUploads(naming, inputs, s, vs);
    assert forall v :: v in vs ==> v in all by {
      forall v | v in vs
        ensures v in all
      {
        assert v in multiset(vs);
      }
    }
    VideoPass(naming, inputs, s, vs)
  }

  /**
   * The uploads a video pass adds are videos of the pass, to their own
   * directory's folder; when the pass is sorted by size they go out in
   * ascending size order.
   */
  lemma {:induction false} VideoPassUploads(naming: Naming, inputs: PassInputs, s: PassState, vs: seq<VideoRef>)
    ensures var r := VideoPass(naming, inputs, s, vs);
      && |s.uploads| <= |r.uploads| && r.uploads[..|s.uploads|] == s.uploads
      && (forall k :: |s.uploads| <= k < |r.uploads| ==>
            VideoRef(r.uploads[k].dir, r.uploads[k].file) in vs
            && r.uploads[k].folder == RemoteDirName(r.uploads[k].dir, naming))
      && (SortedBySize(vs) ==> forall k, l :: |s.uploads| <= k < l < |r.uploads| ==> r.uploads[k].file.size <= r.uploads[l].file.size)
    decreases |vs|
  {
    if vs != [] {
      var init := vs[..|vs| - 1];
      var v := vs[|vs| - 1];
      VideoPassUploads(naming, inputs, s, init);
      var prev := VideoPass(naming, inputs, s, init);
      var r := VideoPass(naming, inputs, s, vs);
      assert r == VideoUnit(naming, inputs, prev, v).1;
      assert forall x :: x in init ==> x in vs;
      if SortedBySize(vs) {
        assert SortedBySize(init);
        forall k | |s.uploads| <= k < |prev.uploads|
          ensures prev.uploads[k].file.size <= v.file.size
        {
          var x := VideoRef(prev.uploads[k].dir, prev.uploads[k].file);
          var i :| 0 <= i < |init| && init[i] == x;
          assert vs[i] == x;
        }
      }
    }
  }

  /** Videos of 5, 1 and 3 MB are uploaded as 1, 3, 5 MB. */
  lemma VideoOrderScenario(a: VideoRef, b: VideoRef, c: VideoRef)
    requires a.file.size == 5 * MByte && b.file.size == 1 * MByte && c.file.size == 3 * MByte
    ensures SortBySize([a, b, c]) == [b, c, a]
  {
    var r := SortBySize([a, b, c]);
    assert multiset(r) == multiset{a, b, c};
    assert |r| == 3;
    assert r[0] in multiset(r) && r[1] in multiset(r) && r[2] in multiset(r);
  }
}
