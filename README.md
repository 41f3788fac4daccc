# Mapbox Vision SDK for iOS: recording, sync and small rules, in Dafny

This project models the bookkeeping core of the Mapbox Vision SDK for iOS
and proves properties of that model:

- **`RecordingQuota`**: a persisted upload budget that refills once per
  time window.
- **`RecordSynchronizer`**: the `idle` / `syncing` / `stopping` state
  machine with its pending-request latch, and the rules of one sync pass:
  - `clean` prunes synced record directories by a running size total;
  - telemetry and images are archived, reserved against the quota and
    uploaded directory by directory;
  - videos are uploaded smallest first;
  - remote folders are named `dir_locale_deviceId_platform`.
- **`SessionRecorder`**: the recording state machine with its one-shot
  retry after a "not ready" start.
- **`SessionManager`**: the session start / interval / stop event source.
- **Pure rules**:
  - the model frame-rate table (`ModelPerformanceResolver`);
  - `isTopDevice` on the model identifier;
  - flattening a directions route into AR route points;
  - the `Platform` callbacks: the telemetry dictionary and the clip and
    archive results.

Files:

| file | module | what |
|---|---|---|
| `wrappers.dfy` | `Wrappers` | `Option`, `Result`, `Outcome` |
| `recording_quota.dfy` | `RecordingQuota` | the store, the `reserve` decision as a function, and the `Quota` class with its two persisted fields |
| `sync_control.dfy` | `SyncControl` | the state / latch transitions and delegate notices as values |
| `sync_files.dfy` | `SyncFiles` | the record-directory model, `clean`, folder names, the archive and video units and passes |
| `record_synchronizer.dfy` | `RecordSynchronizer` | the `Synchronizer` class: `sync`, `executeSync`, `canContinue`, `stopSync` and the upload loops, each proved against the functions above |
| `session_recorder.dfy` | `SessionRecorder` | `Mode` and the `Recorder` class, with its calls to collaborators logged |
| `session_manager.dfy` | `SessionManager` | the `Manager` class: observers, timers, and the event log |
| `model_performance.dfy` | `ModelPerformance` | the frame-rate table |
| `device_checker.dfy` | `DeviceChecker` | `isTopDevice`, with Swift's `split` and `Int(_:)` written out |
| `ar_route.dfy` | `ARRoute` | `Route.init(route:)` as nested loops |
| `platform.dfy` | `Platform` | the telemetry dictionary and the `Platform` class |

How the environment is modelled:

- The clock is an integer parameter, `now`.
- `UserDefaults` is a pair of `Option` fields.
- The file system is a map from directory name to the files it lists.
- The archiver, file sizes, uploads and marker writes are the answers in
  `PassInputs`.
- The asynchronous completion of each phase is an explicit event,
  `Synchronizer.PhaseCompleted`, delivered from a queue of continuations.
- A timer tick and the termination notification are the events
  `Manager.Tick` and `Manager.Terminate`.

## Model

| member | source | states |
|---|---|---|
| RecordingQuota.ReserveOn | MapboxVision/Services/Recording/RecordingQuota.swift:58-69 | after any call both stored values are present, and a successful reservation never leaves a negative quota |
| RecordingQuota.FirstAccessInitialises | MapboxVision/Services/Recording/RecordingQuota.swift:18-47 | on an empty store the reset time becomes `now` and the quota the budget, minus the amount when it fits; both are persisted |
| RecordingQuota.ExpiredWindowRefills | MapboxVision/Services/Recording/RecordingQuota.swift:61-65 | once `now - lastReset >= refreshInterval` the decision uses the whole budget and the reset time becomes `now` |
| RecordingQuota.ReserveDecision | MapboxVision/Services/Recording/RecordingQuota.swift:58-69 | success iff the amount fits the effective quota; success stores `effective - amount`; failure is `memoryQuotaExceeded` with the stored quota unchanged; how the reset time moves |
| RecordingQuota.ExpiredFailureKeepsOldQuota | MapboxVision/Services/Recording/RecordingQuota.swift:59-68 | a failing call after expiry advances `lastResetTime` but keeps the old stored quota, not the refill |
| RecordingQuota.ReserveKeepsQuotaInBudget | MapboxVision/Services/Recording/RecordingQuota.swift:67-68 | for non-negative amounts, a stored quota between 0 and the budget stays there |
| RecordingQuota.WithinWindowNeverIncreases | MapboxVision/Services/Recording/RecordingQuota.swift:59-68 | over any sequence of calls inside one window, the reset time is fixed and the quota never rises above its start, nor falls below 0 if it started non-negative |
| RecordingQuota.HourlyWindowScenario | MapboxVision/Services/Recording/RecordingQuota.swift:58-69 | 10 MB per hour: 6 MB fits, then 5 MB is refused, and an hour later 5 MB fits against a full budget |
| RecordingQuota.Quota.CachedCurrentQuota | MapboxVision/Services/Recording/RecordingQuota.swift:34-47 | returns the stored quota, or else the budget, which it persists |
| RecordingQuota.Quota.LastResetTime | MapboxVision/Services/Recording/RecordingQuota.swift:18-32 | returns the stored time, or else `now`, which it persists |
| RecordingQuota.Quota.Reserve | MapboxVision/Services/Recording/RecordingQuota.swift:58-69 | the outcome and the new stored values are exactly those of `ReserveOn` on the old store |
| SyncControl.Announce | MapboxVision/Services/Sync/RecordSynchronizer.swift:49-61 | entering `idle` sends `syncStopped` and entering `syncing` sends `syncStarted`; entering `stopping` sends nothing, and each converse holds too |
| SyncControl.AfterSync | MapboxVision/Services/Sync/RecordSynchronizer.swift:73-84 | `sync()` never leaves the synchronizer `idle`; it starts a pass (`syncing`) or keeps the current state, and the latch ends set exactly when the call found it busy |
| SyncControl.CanContinue | MapboxVision/Services/Sync/RecordSynchronizer.swift:261-271 | proceeds iff not `stopping`, with nothing changed; in `stopping`, re-runs exactly when the latch is set, otherwise goes `idle` with the latch clear |
| SyncControl.AfterStop | MapboxVision/Services/Sync/RecordSynchronizer.swift:273-276 | `stopSync()` never yields `syncing`, yields `stopping` exactly from `syncing`, and leaves the latch as it was |
| SyncControl.Finished | MapboxVision/Services/Sync/RecordSynchronizer.swift:99-103 | the last completion sets `idle` and does not read or clear the latch |
| SyncControl.BusySyncCallsCoalesce | MapboxVision/Services/Sync/RecordSynchronizer.swift:73-84 | any number of `sync()` calls outside `idle` start no pass, keep the state and set the latch iff there was at least one |
| SyncControl.IdleSyncCallsStartOnePass | MapboxVision/Services/Sync/RecordSynchronizer.swift:73-88 | from `idle`, `n > 0` calls start exactly one pass and leave the latch set iff `n > 1` |
| SyncControl.StopWithPendingReplaysOnce | MapboxVision/Services/Sync/RecordSynchronizer.swift:261-276 | stopping a pass with a latched request replays it once at the next boundary, with the latch cleared, and the boundary after that proceeds |
| SyncControl.StoppingIsTransient | MapboxVision/Services/Sync/RecordSynchronizer.swift:261-271 | from `stopping` the next boundary never proceeds, and leaves for `idle` or `syncing` |
| SyncControl.StopNeverStarts | MapboxVision/Services/Sync/RecordSynchronizer.swift:273-276 | `stopSync` never yields `syncing`, and yields `stopping` exactly from `syncing` |
| SyncControl.FinishLeavesRequestUnreplayed | MapboxVision/Services/Sync/RecordSynchronizer.swift:99-103 | a pass that ends normally goes `idle` with the latch still set; only the next `sync()` clears it |
| SyncFiles.PruneFlags | MapboxVision/Services/Sync/RecordSynchronizer.swift:225-234 | entry `i` is pruned exactly when the running total up to and including it exceeds 300 MB, or its own size is 0 |
| SyncFiles.KeptWithinLimitFrom | MapboxVision/Services/Sync/RecordSynchronizer.swift:225-234 | from a running total within the limit, the total plus what is kept never exceeds 300 MB |
| SyncFiles.KeptSyncedWithinLimit | MapboxVision/Services/Sync/RecordSynchronizer.swift:3 | the synced directories kept by `clean` total at most `memoryLimit` |
| SyncFiles.OverLimitDeletesRest | MapboxVision/Services/Sync/RecordSynchronizer.swift:225-234 | once the running total passes the limit, every later synced directory is deleted |
| SyncFiles.PastLimitKeepsNothing | MapboxVision/Services/Sync/RecordSynchronizer.swift:225-234 | a walk that starts over the limit keeps nothing |
| SyncFiles.PruneScenario | MapboxVision/Services/Sync/RecordSynchronizer.swift:221-236 | 10, 50, 100 and 200 MB in creation order: only the last is deleted |
| SyncFiles.SyncedOnly | MapboxVision/Services/Sync/RecordSynchronizer.swift:108-113 | keeps exactly the listed directories that can be read and contain `.synced` |
| SyncFiles.MarkedReadsAsSynced | MapboxVision/Services/Sync/RecordSynchronizer.swift:108-113 | a directory whose `.synced` was just written reads as synced, and a directory that cannot be listed never does |
| SyncFiles.Clean | MapboxVision/Services/Sync/RecordSynchronizer.swift:221-236 | removes exactly the selected directories and changes no other directory |
| SyncFiles.CleanTargets | MapboxVision/Services/Sync/RecordSynchronizer.swift:221-236 | only directories marked `.synced` are ever selected for deletion |
| SyncFiles.CleanRemovesOnlyPrunedSynced | MapboxVision/Services/Sync/RecordSynchronizer.swift:108-236 | unsynced directories survive, and a directory is deleted iff it is synced and its running total exceeds the limit or its size is 0 |
| SyncFiles.RemoteDirName | MapboxVision/Services/Sync/RecordSynchronizer.swift:244-251 | the folder is the directory name, locale, device id and platform name joined by `_` |
| SyncFiles.RemoteDirNameRoundTrip | MapboxVision/Services/Sync/RecordSynchronizer.swift:244-251 | for components without `_`, splitting the folder name on `_` gives back the four components |
| SyncFiles.SplitJoin | MapboxVision/Services/Sync/RecordSynchronizer.swift:250 | splitting a join gives back its parts when no part contains the separator |
| SyncFiles.Matching | MapboxVision/Services/Sync/RecordSynchronizer.swift:115-122 | keeps exactly the files of the wanted types; it is empty iff there are none |
| SyncFiles.FindArchive | MapboxVision/Services/Sync/RecordSynchronizer.swift:151-154 | finds a file named `<archiveName>.zip` if there is one, and reports none only when there is none |
| SyncFiles.PrepareArchive | MapboxVision/Services/Sync/RecordSynchronizer.swift:151-162 | an existing archive is reused untouched; `noRequestedFiles` iff there is no archive and no wanted file; a new archive replaces the wanted files, has the archiver's size and keeps every other file; nothing but the archive is added, and the telemetry job leaves `images` as it was |
| SyncFiles.WithMarker | MapboxVision/Services/Sync/RecordSynchronizer.swift:253-259 | after `createSyncFile` the directory lists `.synced` with size 0; every other top-level file and the `images` contents are kept |
| SyncFiles.ArchiveUnit | MapboxVision/Services/Sync/RecordSynchronizer.swift:148-181 | one directory's unit changes only that directory, and adds at most one upload, to that directory's remote folder |
| SyncFiles.PrepareFailureSkips | MapboxVision/Services/Sync/RecordSynchronizer.swift:153-169 | a listing, `noRequestedFiles` or archiving failure skips the directory and changes nothing |
| SyncFiles.ReservationGatesUpload | MapboxVision/Services/Sync/RecordSynchronizer.swift:164-173 | the archive's size is reserved first; a refused reservation uploads nothing and keeps the prepared archive; otherwise exactly one upload goes to the directory's folder |
| SyncFiles.UploadRemovesArchive | MapboxVision/Services/Sync/RecordSynchronizer.swift:173-179 | after a successful upload the archive is gone from the directory |
| SyncFiles.TelemetryMarksSynced | MapboxVision/Services/Sync/RecordSynchronizer.swift:124-242 | after telemetry, a directory is marked synced iff it already was or its upload succeeded and `.synced` was written; `syncFileCreationFail` means that write failed |
| SyncFiles.ImagesLeaveMarker | MapboxVision/Services/Sync/RecordSynchronizer.swift:134-136 | the image phase neither adds nor removes `.synced` |
| SyncFiles.AlreadySyncedIsIdempotent | MapboxVision/Services/Sync/RecordSynchronizer.swift:115-159 | a directory with no telemetry files and no telemetry archive is skipped with `noRequestedFiles`, unchanged |
| SyncFiles.ArchivePass | MapboxVision/Services/Sync/RecordSynchronizer.swift:138-185 | a pass keeps the set of directories and leaves every directory outside the list unchanged |
| SyncFiles.TelemetryPassMarksSynced | MapboxVision/Services/Sync/RecordSynchronizer.swift:124-185 | after a whole telemetry pass over distinct directories, each listed directory is marked synced iff it already was or its own unit uploaded |
| SyncFiles.ImagesPassKeepsMarkers | MapboxVision/Services/Sync/RecordSynchronizer.swift:134-185 | a whole image pass neither adds nor removes `.synced` in any directory |
| SyncFiles.VideosIn | MapboxVision/Services/Sync/RecordSynchronizer.swift:190-192 | gathers exactly the video files of the listed, readable directories; a directory without videos contributes nothing |
| SyncFiles.SortBySize | MapboxVision/Services/Sync/RecordSynchronizer.swift:193 | the result is in ascending size order and a permutation of the input |
| SyncFiles.InsertBySize | MapboxVision/Services/Sync/RecordSynchronizer.swift:193 | insertion keeps the order and adds exactly the one element |
| SyncFiles.VideoUnit | MapboxVision/Services/Sync/RecordSynchronizer.swift:195-215 | each video reserves its own size; a refusal skips only that file; otherwise it is uploaded to its directory's folder and deleted iff the upload succeeds |
| SyncFiles.VideoPass | MapboxVision/Services/Sync/RecordSynchronizer.swift:195-216 | the loop over videos keeps the set of directories and every `images` list, and adds at most one upload per video |
| SyncFiles.VideoPhase | MapboxVision/Services/Sync/RecordSynchronizer.swift:187-219 | `uploadVideos` keeps the set of directories and only appends uploads; each is a video gathered from the listed directories, sent to its own folder, and they go out in ascending size order |
| SyncFiles.VideoPassUploads | MapboxVision/Services/Sync/RecordSynchronizer.swift:187-219 | the pass only appends uploads, each of a gathered video to its own folder, and in ascending size order when the input is sorted |
| SyncFiles.VideoOrderScenario | MapboxVision/Services/Sync/RecordSynchronizer.swift:191-193 | videos of 5, 1 and 3 MB go out as 1, 3, 5 |
| RecordSynchronizer.Synchronizer.SetState | MapboxVision/Services/Sync/RecordSynchronizer.swift:49-61 | sets the state and appends its delegate notice when a delegate is attached |
| RecordSynchronizer.Synchronizer.SetDataSource | MapboxVision/Services/Sync/RecordSynchronizer.swift:69-71 | the data source is replaced, with nothing else changed |
| RecordSynchronizer.Synchronizer.Clean | MapboxVision/Services/Sync/RecordSynchronizer.swift:221-236 | the removal loop leaves the disk equal to `SyncFiles.Clean` of the old disk |
| RecordSynchronizer.Synchronizer.UploadArchivedDirectory | MapboxVision/Services/Sync/RecordSynchronizer.swift:148-181 | the result and new state are those of `SyncFiles.ArchiveUnit`, through the quota object's `Reserve` |
| RecordSynchronizer.Synchronizer.UploadArchivedFiles | MapboxVision/Services/Sync/RecordSynchronizer.swift:138-185 | the loop over directories leaves the state of `SyncFiles.ArchivePass` |
| RecordSynchronizer.Synchronizer.UploadVideo | MapboxVision/Services/Sync/RecordSynchronizer.swift:195-215 | one video's effects are those of `SyncFiles.VideoUnit` |
| RecordSynchronizer.Synchronizer.UploadVideos | MapboxVision/Services/Sync/RecordSynchronizer.swift:187-219 | the loop over the size-sorted videos leaves the state of `SyncFiles.VideoPhase` |
| RecordSynchronizer.Synchronizer.ExecuteSync | MapboxVision/Services/Sync/RecordSynchronizer.swift:86-106 | clears the latch and enters `syncing`; with no data source nothing else happens; otherwise `clean` and the telemetry phase run and the telemetry completion is queued |
| RecordSynchronizer.Synchronizer.StartPass | MapboxVision/Services/Sync/RecordSynchronizer.swift:86-93 | without a data source a pass changes nothing; with one, exactly the `clean` targets disappear and only listed directories change |
| RecordSynchronizer.Synchronizer.Sync | MapboxVision/Services/Sync/RecordSynchronizer.swift:73-84 | follows `AfterSync`: outside `idle` only the latch is set; in `idle` a pass starts as in `ExecuteSync` |
| RecordSynchronizer.Synchronizer.CanContinue | MapboxVision/Services/Sync/RecordSynchronizer.swift:261-271 | returns and applies `SyncControl.CanContinue`, including the re-run pass and the notices |
| RecordSynchronizer.Synchronizer.PhaseCompleted | MapboxVision/Services/Sync/RecordSynchronizer.swift:93-105 | delivering a completion consults `canContinue`; if allowed, telemetry leads to images, images to videos, and videos to `idle` without reading the latch; otherwise the stop is honoured or the request replayed |
| RecordSynchronizer.Synchronizer.StopSync | MapboxVision/Services/Sync/RecordSynchronizer.swift:273-276 | follows `AfterStop`, sends the new state's notice, and always cancels the network client |
| RecordSynchronizer.StopReplaysCoalescedRequest | MapboxVision/Services/Sync/RecordSynchronizer.swift:73-276 | sync, sync, stop, then a phase completion: the coalesced request is replayed as a fresh pass and `syncStarted` is sent twice |
| RecordSynchronizer.FinishedPassDropsCoalescedRequest | MapboxVision/Services/Sync/RecordSynchronizer.swift:73-106 | sync, sync, then all three completions: the pass ends `idle` with the request latched and not replayed |
| SessionRecorder.ModeProperties | MapboxVision/Services/Recording/SessionRecorder.swift:12-53 | `internal` is 300 s with no source video and no path; `external(p)` is 0 s, saves source video, path `p`; a positive interval goes exactly with no source video and no path |
| SessionRecorder.LatchOnlyOnNotReady | MapboxVision/Services/Recording/SessionRecorder.swift:82-90 | only `cantStartNotReady` changes the latch; any other error leaves it |
| SessionRecorder.Attempts | MapboxVision/Services/Recording/SessionRecorder.swift:82-90 | counts the recording attempts in a call log; zero iff there are none |
| SessionRecorder.Recorder.constructor | MapboxVision/Services/Recording/SessionRecorder.swift:58-59 | starts in `internal` mode with the latch clear |
| SessionRecorder.Recorder.Start | MapboxVision/Services/Recording/SessionRecorder.swift:68-72 | sets the mode, passes its source-video flag to the recorder, then starts a session with its interval |
| SessionRecorder.Recorder.Stop | MapboxVision/Services/Recording/SessionRecorder.swift:74-76 | stops the session with the same `abort` flag |
| SessionRecorder.Recorder.HandleFrame | MapboxVision/Services/Recording/SessionRecorder.swift:78-80 | forwards every frame, whatever the state |
| SessionRecorder.Recorder.Record | MapboxVision/Services/Recording/SessionRecorder.swift:82-90 | one start attempt in the current mode's directory; not-ready sets the latch, other errors are swallowed |
| SessionRecorder.Recorder.SessionStarted | MapboxVision/Services/Recording/SessionRecorder.swift:94-96 | exactly one recording attempt |
| SessionRecorder.Recorder.SessionStopped | MapboxVision/Services/Recording/SessionRecorder.swift:98-101 | stops saving, then stops the recording with the same flag, and makes no attempt |
| SessionRecorder.Recorder.RecordingStarted | MapboxVision/Services/Recording/SessionRecorder.swift:105-108 | notifies the delegate, then starts saving under the same path |
| SessionRecorder.Recorder.RecordingStopped | MapboxVision/Services/Recording/SessionRecorder.swift:110-117 | notifies the delegate; with the latch set it clears it and retries exactly once, with it clear it makes no attempt |
| SessionRecorder.NotReadyStartIsRetried | MapboxVision/Services/Recording/SessionRecorder.swift:82-117 | a not-ready start followed by the recorder stopping gives two attempts in the same directory and a clear latch |
| SessionManager.Manager.StartSession | VisionSDK/Services/SessionManager.swift:23-36 | appends and registers one observer, schedules a timer only for a positive interval (replacing `interruptionTimer` without invalidating the old one), and emits `sessionStarted` once |
| SessionManager.Manager.StopSession | VisionSDK/Services/SessionManager.swift:38-50 | unregisters every observer but keeps the list, invalidates only `interruptionTimer`, and emits `sessionStopped` even with no session |
| SessionManager.Manager.Tick | VisionSDK/Services/SessionManager.swift:30-33 | a valid timer's tick emits `sessionStopped` then `sessionStarted`; an invalidated one emits nothing |
| SessionManager.Manager.Terminate | VisionSDK/Services/SessionManager.swift:24-27 | the termination notice reaching a still-registered observer stops the session: every observer is unregistered, `interruptionTimer` is invalidated and `sessionStopped` is emitted; an unregistered observer changes nothing |
| SessionManager.InvalidateOne | VisionSDK/Services/SessionManager.swift:40 | invalidating a timer removes one firing timer if it was valid |
| SessionManager.DoubleStartLeavesTimerFiring | VisionSDK/Services/SessionManager.swift:30-42 | two starts and a stop leave the first timer firing, and its tick still emits stop then start |
| ModelPerformance.PerformanceEntry | VisionSDK/Services/ModelPerformance.swift:95-108 | segmentation 2/7 and detection 4/12 on top devices, 2/5 and 4/11 otherwise |
| ModelPerformance.CoreModelPerformanceFor | VisionSDK/Services/ModelPerformance.swift:110-121 | fixed mode gives `fixed(fps(rate))`; dynamic gives `dynamic(low, fps(rate))` |
| ModelPerformance.RatesOrdered | VisionSDK/Services/ModelPerformance.swift:81-90 | `fps(low) <= fps(medium) <= fps(high)`, with the ends equal to `low` and `high` |
| ModelPerformance.TableRatesDistinct | VisionSDK/Services/ModelPerformance.swift:95-99 | for every table entry the three rates give strictly increasing frame rates |
| ModelPerformance.DynamicRangeWellFormed | VisionSDK/Services/ModelPerformance.swift:116-119 | `minFps <= maxFps`, with equality exactly at the low rate |
| ModelPerformance.MediumRates | VisionSDK/Services/ModelPerformance.swift:86-99 | the medium rates are 4.5, 8, 3.5 and 7.5 |
| ModelPerformance.TopDeviceNeverSlower | VisionSDK/Services/ModelPerformance.swift:101-108 | a top device never gets a lower frame rate at the same mode and rate |
| DeviceChecker.SplitOmittingEmpty | MapboxVision/Helpers/DeviceChecker.swift:24 | every piece is non-empty and contains no separator |
| DeviceChecker.ParseInt | MapboxVision/Helpers/DeviceChecker.swift:24 | a parsed value fits in 64 bits and comes from a string starting with a digit or a sign |
| DeviceChecker.IsTopDevice | MapboxVision/Helpers/DeviceChecker.swift:9-29 | true only for identifiers that start with "iPhone" |
| DeviceChecker.TopDevicesAreSpelled | MapboxVision/Helpers/DeviceChecker.swift:9-29 | top devices are exactly the identifiers "iPhone", commas, an optional `+` and zeros before `10`, then nothing or `,…` |
| DeviceChecker.MajorNumberDecides | MapboxVision/Helpers/DeviceChecker.swift:6-26 | "iPhone<n>,<rest>" is a top device iff `n == 10`, which is equality and not at-least |
| DeviceChecker.KnownModels | MapboxVision/Helpers/DeviceChecker.swift:24-26 | false for "iPhone11,2", true for "iPhone10,3" |
| DeviceChecker.NoMajorNumber | MapboxVision/Helpers/DeviceChecker.swift:24-28 | an empty remainder, no pieces, or a first piece that is not a number gives false |
| DeviceChecker.ParsesAsTen | MapboxVision/Helpers/DeviceChecker.swift:24-25 | whatever `Int(_:)` reads as 10 is an optional `+`, zeros, and `10` |
| DeviceChecker.TenParses | MapboxVision/Helpers/DeviceChecker.swift:24-25 | every such spelling is read as 10 |
| DeviceChecker.DecimalString | MapboxVision/Helpers/DeviceChecker.swift:24 | the decimal digits of `n` read back as `n` |
| ARRoute.FromDirections | MapboxVisionAR/Navigation/ARRoute+DirectionsRoute.swift:15-34 | the points are the converted maneuver and step coordinates in leg and step order; the eta and both street names are carried over |
| ARRoute.AppendSteps | MapboxVisionAR/Navigation/ARRoute+DirectionsRoute.swift:18-28 | one leg's steps append their maneuver points and coordinates, in order |
| ARRoute.Converted | MapboxVisionAR/Navigation/ARRoute+DirectionsRoute.swift:20-26 | one point per coordinate, with longitude and latitude unswapped |
| ARRoute.PointCount | MapboxVisionAR/Navigation/ARRoute+DirectionsRoute.swift:20-27 | the point count is the number of steps plus the number of step coordinates |
| ARRoute.NamesComeFromTheEnds | MapboxVisionAR/Navigation/ARRoute+DirectionsRoute.swift:32-33 | legs between the first and the last do not affect the names |
| ARRoute.EndLegsDecideNames | MapboxVisionAR/Navigation/ARRoute+DirectionsRoute.swift:32-33 | the source name depends only on the first leg and the destination name only on the last: legs added after a non-empty route keep its source name, legs added before it keep its destination name |
| ARRoute.TwoStepScenario | MapboxVisionAR/Navigation/ARRoute+DirectionsRoute.swift:18-28 | a step without coordinates adds only its maneuver point |
| Platform.TelemetryDictionary | MapboxVision/Core/Platform.swift:26-30 | one key per distinct entry key, each holding the value of its first entry |
| Platform.FirstValueWins | MapboxVision/Core/Platform.swift:27-30 | each key's value is the one at its first index |
| Platform.LaterDuplicatesIgnored | MapboxVision/Core/Platform.swift:27-30 | entries appended later never change a key already present |
| Platform.DistinctKeysCount | MapboxVision/Core/Platform.swift:27-30 | with distinct keys, the dictionary has exactly as many keys as there are entries |
| Platform.Platform.SendTelemetry | MapboxVision/Core/Platform.swift:26-33 | forwards the deduplicated dictionary under the same name |
| Platform.Platform.SendTelemetryFile | MapboxVision/Core/Platform.swift:35-37 | uploads the file and calls back with success iff there was no error |
| Platform.Platform.MakeVideoClips | MapboxVision/Core/Platform.swift:47-69 | without a trimmer one `false` and no trims; otherwise every clip is trimmed in order and one callback says whether no position failed |
| Platform.Platform.ArchiveFiles | MapboxVision/Core/Platform.swift:71-84 | exactly one callback: false iff an archiver is present and throws, so true with no archiver |
| Platform.NoClipsSucceed | MapboxVision/Core/Platform.swift:53-68 | an empty clip list calls back `true` |
| Platform.OneFailingClipFails | MapboxVision/Core/Platform.swift:53-68 | one failing clip out of two: both are trimmed and the single callback is `false` |

## Left out

- Concurrency is not modelled:
  - the serial `DispatchQueue`;
  - the `DispatchGroup` fan-out and fan-in (each phase's units run one after the other, and the phase completion is an explicit event);
  - main-queue delegate dispatch;
  - `stopSync` being called off the queue;
  - weak references, which are reduced to `hasDelegate` and `hasListener` flags.
- A `stopSync()` issued while a unit's upload is outstanding is not interleaved with that unit; the unit runs to completion within its phase.
- `networkClient.cancel()` is counted in `cancellations`; the cancellation of uploads already in flight is not modelled.
- `UserDefaults` type checks (`as? Date`, `as? MemoryByte`) are not modelled. A value of the wrong type reads as absent in the source; the model's fields are typed.
- The store is not shared across `RecordingQuota` instances, as `UserDefaults` is.
- RecordingQuota.Quota.Reserve: takes a single `now` for both the window check and a first-time `lastResetTime`, where the source reads `Date()` twice.
- `MemoryByte` arithmetic is unbounded here; 64-bit overflow of `Int64` sizes and totals is not modelled.
- `.mByte` and `.hour` are not defined in the modelled files. They are taken as 1024 × 1024 bytes and 3600 seconds.
- `sortedByCreationDate` is not part of this model. The creation-date order is given with the data source.
- `Path(...).components` is not part of this model. The four folder-name components are joined as given, and empty components are not dropped.
- `Locale.current` and the device info are fixed values in `Naming`.
- Directory and file contents are what the file manager lists. Subdirectories other than `images`, and file contents, are not modelled.
- Directory sizes are the sum of the listed file sizes.
- A file-manager `remove` cannot fail here, and neither can listing a directory that exists.
- `print` of errors is left out; it has no effect on state.
- The real `Timer` and `NotificationCenter` are not modelled: a tick is `Manager.Tick`, and delivery of the termination notification to one observer is `Manager.Terminate`.
- The `interruptionInterval` field of `SessionManager` is never assigned in the source (the parameter shadows it), so it is left out.
- SessionRecorder is modelled against a session interface that carries an `abort` flag. SessionManager has no `abort` parameter, so the two are modelled separately and not connected.
- `RecordCoordinator` and `VideoSettings` are seen only through the calls made to them. Frames are opaque numbers. `getSeconds()` is a `real` parameter, so `Float` rounding is not modelled.
- `assertionFailure` in `sendTelemetry` and `archiveFiles` stops debug builds. The model follows release builds, where the first value wins and the callback gets `false`.
- `Float(route.expectedTravelTime)` rounding is not modelled; the eta is carried over as a `real`.
- ModelPerformance.PerformanceEntry: takes the device class as a parameter rather than reading `UIDevice.current` once at start-up.
- `Platform.setSyncUrl`, `startVideoRecording` and `stopVideoRecording` are one-line forwards to collaborators, so they are left out.
- A clock reading per phase, not per reservation:
  - ArchivePass, VideoPhase: every `Reserve` of one phase reads the same `PassInputs.now`.
  - The source reads `Date()` again at each reservation, once per directory and once per video.
  - So in the source the quota window can expire and refill partway through a phase. In the model, every unit of a phase falls on the same side of the window boundary.
- `hasPrefix`, `removeFirst` and `split` work on Swift `Character`s, which are grapheme clusters. The model works on `seq<char>`. The two agree on ASCII identifiers such as `iPhone10,3`; `modelID` itself is not part of this model.
- The default arguments of `SessionRecorder.start(mode:)` (`.internal`) and `stop(abort:)` (`false`) are not modelled. `Recorder.Start` and `Recorder.Stop` always take the argument explicitly.
- Platform.Platform.MakeVideoClips: the trimmer's answer is given per clip position, so the model does not say that equal clips must trim alike.
- A missing `images` subdirectory reads as an empty one here, because `RecordDir` has no absent subdirectory:
  - the images job then reports `noRequestedFiles`;
  - in the source, `contentsOfDirectory` throws, which is a listing error;
  - either way the directory is skipped and left unchanged.
- Two behaviours of the code worth knowing:
  - a request coalesced during a pass that finishes normally is not replayed (`SyncControl.FinishLeavesRequestUnreplayed`);
  - a failed reservation after the window expired still moves `lastResetTime` (`RecordingQuota.ExpiredFailureKeepsOldQuota`).
