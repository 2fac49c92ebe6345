# Quota monitor: verified behaviour

Quota Monitor shows how much of two AI services' usage limits is left. An agent on
each workstation collects usage, follows active sessions through hook events and
reports to a server; the server stores the newest report per agent and publishes a
display snapshot and firmware images; a battery-powered display fetches the
snapshot, caches it and keeps its own configuration in flash. This project models
the step machines and data contracts on which these parts depend, and proves what
they keep over whole runs.

`dafny verify dfyconfig.toml` checks everything.

## How it is laid out

State that the program updates in place is a class. Each method states its whole
effect; for the long step machines it does so through a specification function of
one step, and theorems about runs are lemmas about that function. A failing or
interrupted external step (an NVS write, a rename, a file write) is a
nondeterministic choice, so a theorem covers every failure and crash point of the
steps that are modelled. An object that is declared `reliable` has no such failures,
and its methods then say that they succeed.

| files | content |
|---|---|
| `ConfigStore` | two-slot configuration commit, power loss, interrupted recovery |
| `ChargeTrend`, `ChargeTrendRuns`, `ChargeDecisions` | charger inference from battery voltage |
| `AgentReports`, `StringOrder`, `Ledger`, `LedgerRuns`, `LedgerReports`, `LedgerHistory` | report validation and the task ledger |
| `Versions`, `FirmwarePublish` | firmware versions, publication and download |
| `WifiFailover`, `WifiFailoverRuns`, `WifiReconfigure` | Wi-Fi profile rounds and backoff |
| `JsonTree`, `HookInstall`, `HookInstallProofs`, `HookCommands`, `ManagedMarker`, `FileTransaction` | hook installation and its file transaction |
| `Calendar`, `Rfc3339`, `Rfc3339Proofs`, `ClaudeReset`, `GoTime` | dates, timestamps, resets written without a year |
| `SnapshotParser`, `SnapshotCache`, `SnapshotGeneration`, `SnapshotFetches` | the display's snapshot, its cache, and the threads that share them |
| `Store`, `DisplaySnapshot`, `DisplayContract`, `SnapshotMeaning` | the server's tables, what a snapshot says of the kept reports, and agreement with the display |
| `RateLimiter`, `ProviderMerge` | fixed-window limiter, merging of provider reports |
| `Prelude` | options, machine words, quotients, decimal digits |

## Where the code does less than one would expect

For each of these the project gives a run or an input that fails, and says
exactly when the expected property holds.

- A configuration commit marks itself with two writes. If the "target" write fails
  and "pending" lands, the next boot rolls back to the older slot. Every
  completed commit leaves metadata for which this can happen (`SaveConfig`,
  `CommittedMetadataIsExposed`, exactly when: `MarkerKeepsBootSlot`). Likewise a
  failed "active" write can move the boot slot during recovery or at the end of a
  commit (`FailedActiveMovesBootSlot`, exactly when: `RecoveryKeepsBootSlot`,
  `FinishIsAtomic`). Power loss alone never does.
- On the very first commit, the boot that undoes it clears the pending marker but
  leaves the half-committed slot valid, so the boot after that loads it
  (`FirstCommitComesBack`, exactly when: `SecondBootAgrees`).
- Losing the write of an empty time zone goes unnoticed; it reads back as "CST-8"
  (`LostZoneReadsAsDefault`, exactly when: `KeptFieldsRead`).
- A heartbeat that takes effect before its task's start leaves a task that the
  server rejects (`LateHeartbeatIsRejected`, exactly when: `AcceptedExactly`).
- An event stamped up to a minute ahead is accepted, and lets another session's
  task expire that a snapshot on the agent's clock would still have listed
  (`EarlyEventInterferes`, exactly when: `ForeignEventShows`).
- `configure` with unchanged availability sends a waiting failover machine to idle.
  The firmware calls it on every tick, so a backoff is never waited out
  (`ConfiguringEveryTickSkipsBackoff`, exactly when: `ReconfiguringIsHarmless` for
  one poll, `RepeatedConfigureShows` for whole runs).
- The validator admits plan names that make the display reject the whole snapshot
  (`LongPlanIsRejected`, exactly when: `DisplayReadsWhatServerMeans`).
- Uninstalling right after installing does not always give the same tree back
  (`EmptyTreeDoesNotComeBack`, exactly when: `UninstallUndoesInstall`).
- A user who replaces the managed status line and later pastes it back gets an
  older line of theirs on uninstall (`PastedLineLosesUserLine`, exactly when:
  `UninstallRestoresUserLine`).
- With a clock that goes back, pruning the rate limiter admits a call that would
  have been refused (`PruningShowsInARun`, exactly when: `PruningShows`).
- Changing the endpoint or resetting the device leaves the old snapshot in flash
  when its removal fails (`OldSnapshotStays`, exactly when: `RemovalDecidesCache`),
  and so does losing power between the save and the removal
  (`OldSnapshotStays`, exactly when: `PowerLossShowsOldSnapshot`).
- A persist that writes the epoch but loses the snapshot makes the display believe
  that the cache is up to date; the forced persist before a planned restart then
  skips it (`OlderSnapshotStaysCached`, exactly when: `EpochAloneMisleads`).

## Model

| member | source | states |
|---|---|---|
| `ConfigStore.NormalizeIdempotent` | firmware/src/main.cpp:489-509 | normalizing twice is normalizing once, and keeps the time zone |
| `ConfigStore.NormalizeRepairs` | firmware/src/main.cpp:489-509 | whatever comes in, the result is in range, every text and the power flag are kept, each number moves to the nearest allowed value or the named default, and the touch calibration is replaced as a whole or not at all |
| `ConfigStore.NormalIsInRange` | firmware/src/main.cpp:489-509 | normalizing changes nothing, if and only if the configuration is in range |
| `ConfigStore.StoredDelivers` | firmware/src/main.cpp:489-616 | a configuration in range with a time zone is delivered word for word, any other with its texts kept and its numbers repaired |
| `ConfigStore.MissingFieldsReadAsDefaults` | firmware/src/main.cpp:515-552 | a field that was never written reads as its default, whatever the others hold |
| `ConfigStore.LegacyKeepsFields` | firmware/src/main.cpp:641-666 | a v0.2 namespace keeps its fields; what it cannot hold takes the defaults |
| `ConfigStore.LoadedIsNormal` | firmware/src/main.cpp:515-552 | whatever bytes a slot holds, what boot loads is already normal |
| `ConfigStore.KeptFieldsRead` | firmware/src/main.cpp:515-616 | a slot in which every field was written or is an absent empty text reads back as the normalized configuration, if and only if an empty time zone was not lost |
| `ConfigStore.LostZoneReadsAsDefault` | firmware/src/main.cpp:584-585 | any configuration without time zone whose zone write is lost reads back with "CST-8" |
| `ConfigStore.MarkerKeepsBootSlot` | firmware/src/main.cpp:713-719 | whichever of the two marker writes land, boot keeps the committed slot, if and only if the stored target is not that slot |
| `ConfigStore.FinishIsAtomic` | firmware/src/main.cpp:722-727 | the closing writes switch slots exactly when both land, if and only if "active" did not name the new slot before |
| `ConfigStore.FailedActiveMovesBootSlot` | firmware/src/main.cpp:713-727 | metadata left by a power loss from which a failed "active" write moves the boot slot to the unfinished slot |
| `ConfigStore.GuardedIsExact` | firmware/src/main.cpp:713-727 | metadata is guarded, if and only if a commit's marker and the closing writes after it are both safe |
| `ConfigStore.CommittedMetadataIsExposed` | firmware/src/main.cpp:706-733 | after any completed commit a lost target write makes boot load the older configuration |
| `ConfigStore.RecoveryKeepsBootSlot` | firmware/src/main.cpp:690-699 | an interrupted recovery keeps the boot slot whatever lands, if and only if "active" already names it; without a failed "active" write it always does |
| `ConfigStore.SecondBootAgrees` | firmware/src/main.cpp:629-699 | the boot after a recovery loads the same configuration, if and only if the slot fallen back to was valid or the half-committed one is not |
| `ConfigStore.FirstCommitComesBack` | firmware/src/main.cpp:629-699 | the interrupted first commit is undone by one boot and loaded by the next |
| `ConfigStore.Device.PutFields` | firmware/src/main.cpp:570-609 | if all writes are reported good into an erased slot, every field is stored or is an absent empty text |
| `ConfigStore.Device.WriteSlot` | firmware/src/main.cpp:554-616 | success leaves a valid slot that reads as the given configuration; the other slot is untouched, wherever it stops |
| `ConfigStore.Device.MarkTarget` | firmware/src/main.cpp:711-719 | the metadata after the two marker writes, lost or landed; marked means that both landed |
| `ConfigStore.Device.CloseCommit` | firmware/src/main.cpp:721-727 | the metadata after the two closing writes, lost or landed; closed means that both landed |
| `ConfigStore.Device.SaveConfig` | firmware/src/main.cpp:706-733 | wherever power is lost or a write fails, flash holds the old configuration until the last write lands and the new one afterwards, exactly as requested when that is in range and has a time zone, unless a "target" or "active" write fails on unguarded metadata; even then metadata and slots follow from the writes that landed; true is returned only after the switch, always leaves unguarded metadata, and is sure on a reliable device |
| `ConfigStore.Device.Recover` | firmware/src/main.cpp:690-699 | the metadata after a recovery with lost or landed writes |
| `ConfigStore.Device.LoadSlot` | firmware/src/main.cpp:633-666 | requested slot, other slot unless rolling back, else the v0.2 namespace; a namespace that does not open counts as empty |
| `ConfigStore.Device.LoadRequested` | firmware/src/main.cpp:618-666 | the choice by metadata and the loading, with namespaces that may not open |
| `ConfigStore.Device.LoadConfig` | firmware/src/main.cpp:618-704 | boot returns the persisted configuration and leaves it persisted even if its own recovery loses power; with namespaces that do not open, what is loaded and written follows from the others |
| `ConfigStore.Device.Lifetime` | firmware/src/main.cpp:618-733 | over any saves, power losses and interrupted recoveries flash holds the initial or a requested configuration, never one older than a save that answered true |
| `ChargeTrend.Median3` | firmware/lib/ChargeTrendDetector/src/ChargeTrendDetector.cpp:8-13 | the three conditional swaps yield the median |
| `ChargeTrend.Detector.ClearSamples` | firmware/lib/ChargeTrendDetector/src/ChargeTrendDetector.cpp:17-23 | empties window and evidence, keeps everything else |
| `ChargeTrend.Detector.NoteLoadTransition` | firmware/lib/ChargeTrendDetector/src/ChargeTrendDetector.cpp:25-48 | the whole new state after a load change |
| `ChargeTrend.Detector.ShiftSamples` | firmware/lib/ChargeTrendDetector/src/ChargeTrendDetector.cpp:50-57 | moving in place, front to back, loses nothing but the oldest sample |
| `ChargeTrend.Detector.AppendSample` | firmware/lib/ChargeTrendDetector/src/ChargeTrendDetector.cpp:50-57 | keeps exactly the last 25 samples in order |
| `ChargeTrend.Detector.FindDelta` | firmware/lib/ChargeTrendDetector/src/ChargeTrendDetector.cpp:66-92 | the loop finds the newest qualifying group of three, in bounds, or none |
| `ChargeTrend.Detector.CheckRising` | firmware/lib/ChargeTrendDetector/src/ChargeTrendDetector.cpp:94-112 | enough samples in the window and at most 30% material falls |
| `ChargeTrend.Detector.DetectRise` | firmware/lib/ChargeTrendDetector/src/ChargeTrendDetector.cpp:171-177 | fast or slow consistent rise over the current window |
| `ChargeTrend.Detector.UpdateCharging` | firmware/lib/ChargeTrendDetector/src/ChargeTrendDetector.cpp:146-169 | one reading while charging is one step of the specification, whose decisions `ChargeDecisions` states in millivolts and seconds |
| `ChargeTrend.Detector.UpdateIdle` | firmware/lib/ChargeTrendDetector/src/ChargeTrendDetector.cpp:171-206 | one idle reading is one step of the specification, whose decisions `ChargeDecisions` states in millivolts and seconds |
| `ChargeTrend.Detector.Update` | firmware/lib/ChargeTrendDetector/src/ChargeTrendDetector.cpp:114-207 | one call is one step of the specification about which the run theorems speak |
| `ChargeTrendRuns.MedianWithinBand` | firmware/lib/ChargeTrendDetector/src/ChargeTrendDetector.cpp:8-13 | two of three samples in a band put the median into it |
| `ChargeTrendRuns.DeltaWithinBand` | firmware/lib/ChargeTrendDetector/src/ChargeTrendDetector.cpp:66-92 | whatever anchor is found, the reported change fits the band of the segment |
| `ChargeTrendRuns.SteadyVoltageNeverCharges` | firmware/lib/ChargeTrendDetector/src/ChargeTrendDetector.cpp:8-207 | in every run, if each constant-load segment keeps two of any three consecutive accepted samples within 24 mV, charging is never reported, whatever jumps at load changes |
| `ChargeTrendRuns.RunsAreSound` | firmware/lib/ChargeTrendDetector/src/ChargeTrendDetector.cpp:25-207 | in every run the window is a suffix of the samples accepted since the last load change, the peak one of their medians, and the release evidence at most the number of falls in a row |
| `ChargeTrendRuns.LoadChangeKeepsCharging` | firmware/lib/ChargeTrendDetector/src/ChargeTrendDetector.cpp:25-48 | a load change never changes the decision, and empties the window |
| `ChargeTrendRuns.SteadyVoltageKeepsCharging` | firmware/lib/ChargeTrendDetector/src/ChargeTrendDetector.cpp:121-169 | once charging, a band of 34 mV since the last load change and no invalid run of 60 s keep charging for ever |
| `ChargeTrendRuns.ReleaseNeedsThreeFalls` | firmware/lib/ChargeTrendDetector/src/ChargeTrendDetector.cpp:121-169 | in every run a release is the 60 s fail-safe or the third falling accepted sample in a row |
| `ChargeTrendRuns.ChargerIsDetected` | firmware/lib/ChargeTrendDetector/src/ChargeTrendDetector.cpp:171-206 | a lasting step of at least 35 mV, at any level and load and with any spacing up to 30 s, is reported exactly at the fourth reading after it, once the window reaches 30 s back; also with a full window and across the wrap of the clock |
| `ChargeTrendRuns.ChargerIsDetectedAtCadence` | firmware/src/main.cpp:453-467 | at the device's 5 s sampling, any seven or more readings before the step are enough |
| `ChargeDecisions.FallingMeans` | firmware/lib/ChargeTrendDetector/src/ChargeTrendDetector.cpp:146-154 | a reading counts as falling, if and only if the newest median is 35 mV or more below that of the newest group 30 to 60 s old, or 45 mV or more below the peak |
| `ChargeDecisions.ConsistentMeans` | firmware/lib/ChargeTrendDetector/src/ChargeTrendDetector.cpp:94-112 | enough samples in the last 90 s, of which at most 30% fall by a material step |
| `ChargeDecisions.RisingMeans` | firmware/lib/ChargeTrendDetector/src/ChargeTrendDetector.cpp:171-177 | a reading counts as rising, if and only if it is 35 mV or more above 30 s ago, or 25 mV or more above 90 s ago after a mostly rising window |
| `ChargeDecisions.StreaksAreEvidence` | firmware/lib/ChargeTrendDetector/src/ChargeTrendDetector.cpp:121-169 | over every run the release evidence is the number of falls in a row, up to three |
| `ChargeDecisions.ReleasesExactly` | firmware/lib/ChargeTrendDetector/src/ChargeTrendDetector.cpp:121-169 | over every run charging ends, if and only if invalid readings last 60 s or the third falling reading in a row is accepted |
| `ChargeDecisions.NeverFallingKeepsCharging` | firmware/lib/ChargeTrendDetector/src/ChargeTrendDetector.cpp:121-169 | readings that never fall below an earlier one since the load change never end charging |
| `ChargeDecisions.InvalidRunReleases` | firmware/lib/ChargeTrendDetector/src/ChargeTrendDetector.cpp:121-134 | a run of invalid readings ends charging, if and only if it lasts 60 s |
| `ChargeDecisions.DropIsReported` | firmware/lib/ChargeTrendDetector/src/ChargeTrendDetector.cpp:146-169 | a lasting drop of 35 mV, at any level, ends charging exactly at the fourth reading after it, if the window reaches 30 s back and the second reading is less than 30 s old at the fourth |
| `ChargeDecisions.DeepDropIsReported` | firmware/lib/ChargeTrendDetector/src/ChargeTrendDetector.cpp:152-169 | so does a lasting drop of 45 mV, whatever the times are |
| `ChargeDecisions.ChargerIsReleasedAtCadence` | firmware/src/main.cpp:453-467 | at the device's 5 s sampling seven readings before the drop are enough |
| `ChargeDecisions.ReportsExactly` | firmware/lib/ChargeTrendDetector/src/ChargeTrendDetector.cpp:171-206 | over every run charging is reported, if and only if the third reading of one candidate rise is accepted |
| `ChargeDecisions.SettlesFor` | firmware/lib/ChargeTrendDetector/src/ChargeTrendDetector.cpp:25-48 | after a load change readings are ignored for 15 s, or 45 s while charging |
| `AgentReports.ValidateWindow` | internal/server/server.go:448-471 | accepts exactly the acceptable windows |
| `AgentReports.ValidateProvider` | internal/server/server.go:396-416 | accepts exactly the acceptable provider reports |
| `AgentReports.ValidateTasks` | internal/server/server.go:418-444 | the seen set rejects exactly the repeated provider/session pairs |
| `AgentReports.ValidateAgentReport` | internal/server/server.go:369-446 | accepts exactly the acceptable reports |
| `AgentReports.HeartbeatIsAcceptable` | internal/server/server.go:369-394 | a report without content is accepted, if and only if its agent has a plain name of 1 to 64 characters and it was sent at most 15 minutes before, or 5 minutes after, the server's clock |
| `AgentReports.TasksAreAcceptable` | internal/server/server.go:392-444 | tasks added to an accepted report are accepted, if and only if they are at most 256 and each passes its checks |
| `StringOrder.PrecedesIsStrict` | internal/agent/ledger.go:130-134 | the key order is strict and total |
| `StringOrder.PrecedesIsTransitive` | internal/agent/ledger.go:130-134 | the key order is transitive |
| `StringOrder.PrecedesMeans` | internal/agent/ledger.go:130-134 | a text comes first, if and only if it ends or has the smaller character where the two first differ |
| `Ledger.TaskLedger.PruneTasks` | internal/agent/ledger.go:138-145 | removes exactly the tasks last seen before the cutoff |
| `Ledger.TaskLedger.EndTasks` | internal/agent/ledger.go:85-117 | removes exactly the tasks of the session (or its sub-tasks) |
| `Ledger.TaskLedger.ApplyEvent` | internal/agent/ledger.go:39-119 | one event is one step of the specification, whose effect on each task `LedgerHistory` reads off the event names |
| `Ledger.TaskLedger.Snapshot` | internal/agent/ledger.go:121-136 | lists exactly the unexpired tasks, strictly ordered by key |
| `Ledger.InsertSorted` | internal/agent/ledger.go:130-134 | a list of a ledger's tasks becomes a list of the ledger with one more task |
| `Ledger.TrimMeans` | internal/agent/ledger.go:151-157 | trimming cuts off space at both ends, all of it, and nothing else |
| `LedgerRuns.KeyIsInjective` | internal/agent/ledger.go:147-149 | known providers and kinds can be read back from a key |
| `LedgerRuns.ColonSplits` | internal/agent/ledger.go:151-157 | colon-free sessions never share a sub-task id |
| `LedgerRuns.EffectOnOwnSession` | internal/agent/ledger.go:56-118 | an event acts on its session's tasks as if they were alone |
| `LedgerRuns.EffectOnOtherSession` | internal/agent/ledger.go:56-118 | an event leaves every other session's tasks as they were |
| `LedgerRuns.PruningIsInvisible` | internal/agent/ledger.go:138-145 | an earlier pruning shows in a later one, if and only if some task survives the later cutoff but not the earlier |
| `LedgerRuns.RunsAgree` | internal/agent/ledger.go:39-119 | over every event list in which a session's own events are not overtaken, its part of the ledger and the ledger of that session alone agree up to expired tasks |
| `LedgerRuns.SortedListingsAreEqual` | internal/agent/ledger.go:121-136 | a strictly sorted listing is determined by its members |
| `LedgerRuns.SessionsDoNotInterfere` | internal/agent/ledger.go:39-157 | if a session's events and the snapshot take effect no earlier than whatever was applied before them, the session's tasks in the snapshot are the snapshot after only its own events; other sessions may be in any order |
| `LedgerRuns.ForeignEventShows` | internal/agent/ledger.go:43-55 | another session's event changes a session's part of a snapshot, if and only if it expires a task that the snapshot's own clock would have kept |
| `LedgerRuns.EarlyEventInterferes` | internal/agent/ledger.go:47-51 | a run, in order, in which an event stamped ahead makes another session's task disappear from the snapshot |
| `LedgerReports.OpaqueIDs` | internal/hooks/event.go:81-84 | ids of hook-parser form are colon-free and pass the validator, alone and as sub-task ids |
| `LedgerReports.RunsStaySound` | internal/agent/ledger.go:39-119 | over every event list tasks keep started <= last seen <= now, valid ids and known names |
| `LedgerReports.SessionsAreDistinct` | internal/agent/ledger.go:39-157 | no two listed tasks share provider and session, although the key also holds the kind |
| `LedgerReports.SnapshotPassesValidator` | internal/server/server.go:418-444 | every snapshot at any clock after events in order is strictly sorted and passes all task checks, if no event takes effect more than 5 minutes after the report's stamp or the server's clock |
| `LedgerReports.LateHeartbeatIsRejected` | internal/agent/ledger.go:71-75 | a run in which an out-of-order heartbeat leaves a task that is rejected at any time |
| `LedgerHistory.TouchKeepsOrder` | internal/agent/ledger.go:56-84 | a touch leaves the task in order, if and only if it does not take effect before the task's start |
| `LedgerHistory.TaskTellsHistory` | internal/agent/ledger.go:39-119 | after any events in any order a task's two instants are those of its last start and its last touch |
| `LedgerHistory.TaskIsIdentified` | internal/agent/ledger.go:39-119 | after any events in any order a task passes every check that is not about order or the future |
| `LedgerHistory.AcceptedExactly` | internal/server/server.go:418-444 | a snapshot after any events in any order passes all task checks, if and only if no listed task's last touch is before its last start or more than 5 minutes ahead of the report or the server |
| `LedgerHistory.TasksAfter` | internal/agent/ledger.go:56-118 | after an event there are exactly the tasks it starts and those there were that it does not end, by the name of the event |
| `LedgerHistory.PresentExactly` | internal/agent/ledger.go:39-119 | after any events in any order a task is in the ledger, if and only if some event started it, none since ended it, and no accepted event since came later than its life time allows |
| `LedgerHistory.ListedExactly` | internal/agent/ledger.go:121-136 | a snapshot lists exactly those of them that were touched within the life time before its clock |
| `LedgerHistory.EffectiveInstant` | internal/agent/ledger.go:43-55 | when an event takes effect, and which events are ignored |
| `Versions.Compare` | internal/firmware/firmware.go:93-105 | -1, 0 or 1 by the lexicographic order |
| `Versions.DecimalRoundTrip` | internal/firmware/firmware.go:69-91 | a component's decimal form reads back and has no leading zero |
| `Versions.CanonicalIsDecimal` | internal/firmware/firmware.go:69-91 | an accepted component is the decimal form of its value |
| `Versions.JoinSplit` | internal/firmware/firmware.go:69-91 | splitting at the points loses nothing |
| `Versions.ParseIsInverseOfFormat` | internal/firmware/firmware.go:69-91 | a text parses to a version if and only if it is its canonical form with 32-bit components |
| `FirmwarePublish.Directory.LoadManifest` | internal/firmware/firmware.go:135-169 | yields the manifest committed last; absence means nothing was committed |
| `FirmwarePublish.Directory.HashContent` | internal/firmware/firmware.go:396-419 | hash and length of everything read |
| `FirmwarePublish.Directory.OpenImage` | internal/firmware/firmware.go:185-213 | the image of any manifest ever committed is present and is, byte for byte, what was published with it |
| `FirmwarePublish.Directory.InstallImage` | internal/firmware/firmware.go:379-382 | moves a staged image to a fresh name and touches nothing else |
| `FirmwarePublish.Directory.CommitManifest` | internal/firmware/firmware.go:386-389 | the commit point: the manifest is the old or the new one, never anything else, and the published file is recorded with it |
| `FirmwarePublish.Directory.InstallAndCommit` | internal/firmware/firmware.go:357-393 | the committed flag is right at every stop, and without a commit only the target may differ |
| `FirmwarePublish.Directory.CopySource` | internal/firmware/firmware.go:312-351 | success stages the source file byte for byte and describes it; an error tells of its size, of a change meanwhile, of its hash, or of a failure |
| `FirmwarePublish.Directory.CommitStaged` | internal/firmware/firmware.go:352-393 | the staged manifest and image are committed as a pair, or nothing but the target differs |
| `FirmwarePublish.Directory.CheckRequest` | internal/firmware/firmware.go:219-290 | each refusal before staging names its cause in the request or the directory; without one, only a failure refuses |
| `FirmwarePublish.Directory.StageAndCommit` | internal/firmware/firmware.go:292-393 | what is committed is the source file, described by its own size, hash and time; the two flags tell the cleanup exactly whether the target is installed and unnamed |
| `FirmwarePublish.Directory.StageAndCleanUp` | internal/firmware/firmware.go:292-394 | an uncommitted publication whose cleanup works leaves the directory as it was |
| `FirmwarePublish.Directory.Undone` | internal/firmware/firmware.go:299-307 | removing the staging file and the installed target restores the directory |
| `FirmwarePublish.Directory.Publish` | internal/firmware/firmware.go:219-394 | at every stop the directory is consistent, committed versions strictly increase, and no image once named is removed or rewritten; success installs the source file byte for byte and states its size, hash and time; every refusal has its cause in the request or the directory, success has none, and on a reliable disk nothing else refuses |
| `FirmwarePublish.Directory.NewestIsGreatest` | internal/firmware/firmware.go:253-263 | newer than the current version is newer than every version ever committed |
| `FirmwarePublish.Directory.DownloadDuring` | internal/firmware/firmware.go:174-214 | a reader holding a manifest gets the very file published with it after any number of later, possibly interrupted publications |
| `WifiFailover.WifiFailoverPolicy.Reconfigure` | firmware/lib/WifiFailoverPolicy/src/WifiFailoverPolicy.cpp:30-41 | the whole new state after a change of availability |
| `WifiFailover.WifiFailoverPolicy.AppendProfile` | firmware/lib/WifiFailoverPolicy/src/WifiFailoverPolicy.cpp:66-72 | appends an available profile that is not there yet, in bounds |
| `WifiFailover.WifiFailoverPolicy.PrepareRound` | firmware/lib/WifiFailoverPolicy/src/WifiFailoverPolicy.cpp:59-80 | the order is the available profiles by priority |
| `WifiFailover.WifiFailoverPolicy.StartCurrentProfile` | firmware/lib/WifiFailoverPolicy/src/WifiFailoverPolicy.cpp:82-89 | starts the profile at the index, or nothing past the end |
| `WifiFailover.WifiFailoverPolicy.Poll` | firmware/lib/WifiFailoverPolicy/src/WifiFailoverPolicy.cpp:91-130 | one poll is one step of the specification on a 32-bit clock |
| `WifiFailover.WifiFailoverPolicy.NoteConnectedProfile` | firmware/lib/WifiFailoverPolicy/src/WifiFailoverPolicy.cpp:132-138 | ignores unavailable profiles, else resets the backoff |
| `WifiFailover.WifiFailoverPolicy.Reset` | firmware/lib/WifiFailoverPolicy/src/WifiFailoverPolicy.cpp:140-149 | idle with the initial backoff; keeps availability and history |
| `WifiFailoverRuns.OrderIsByPriority` | firmware/lib/WifiFailoverPolicy/src/WifiFailoverPolicy.cpp:59-80 | a round takes exactly the available profiles, the primary one first and the backups by number |
| `WifiFailoverRuns.WrapIsUnobservable` | firmware/lib/WifiFailoverPolicy/src/WifiFailoverPolicy.cpp:9-149 | with polls less than 2^31 ms apart the 32-bit machine decides as the unbounded-clock one, whatever else is called in between |
| `WifiFailoverRuns.PollAdvances` | firmware/lib/WifiFailoverPolicy/src/WifiFailoverPolicy.cpp:91-130 | a poll does nothing before the delay of the next decision is over, and makes exactly that decision at once afterwards |
| `WifiFailoverRuns.ReadyToBegin` | firmware/lib/WifiFailoverPolicy/src/WifiFailoverPolicy.cpp:91-149 | a reset, a connected poll and a noted connection all leave the machine ready for such a run |
| `WifiFailoverRuns.RunsKeepTimetable` | firmware/lib/WifiFailoverPolicy/src/WifiFailoverPolicy.cpp:59-130 | from a reset or a lost connection on, poll by poll, the 32-bit machine decides as a timetable that knows no machine: 12 s per profile, min(1000·2^k, 60000) ms after the k-th failed round |
| `WifiFailoverRuns.DecisionsAreTimed` | firmware/lib/WifiFailoverPolicy/src/WifiFailoverPolicy.cpp:91-130 | after a failed round that announced r ms, polls within r ms decide nothing and the first later one starts the first profile; the next profile or the failure comes at the first poll 12 s after a start |
| `WifiFailoverRuns.RoundsFollowPattern` | firmware/lib/WifiFailoverPolicy/src/WifiFailoverPolicy.cpp:59-130 | the decisions in order: each round starts every available profile once by priority, and the k-th failed one announces min(1000·2^k, 60000) ms |
| `WifiFailoverRuns.StartIsOnSchedule` | firmware/lib/WifiFailoverPolicy/src/WifiFailoverPolicy.cpp:59-89 | every round starts on schedule with the first profile |
| `WifiFailoverRuns.FirstProfileIsRetried` | firmware/lib/WifiFailoverPolicy/src/WifiFailoverPolicy.cpp:59-130 | without connection the 32-bit machine starts the first profile again within n·(12 s + gap) + 60 s + gap of its last start |
| `WifiReconfigure.ReconfiguringIsHarmless` | firmware/lib/WifiFailoverPolicy/src/WifiFailoverPolicy.cpp:36-40 | repeating the availability changes the next poll's decision, if and only if that poll finds a wait unfinished |
| `WifiReconfigure.RepeatedConfigureShows` | firmware/src/main.cpp:1511-1523 | over any calls with fixed availability, the repeated configurations change some other decision, if and only if one comes during a wait that the next poll finds unfinished |
| `WifiReconfigure.ConfiguringEveryTickSkipsBackoff` | firmware/src/main.cpp:1521-1523 | configured before every poll, the machine starts the next round at once, whatever the time |
| `HookInstall.MergeManagedHooks` | internal/hooks/install.go:270-284 | the loop yields the specified tree |
| `HookInstall.RemoveManagedHooks` | internal/hooks/install.go:286-309 | whatever order events are visited in, the result is the specified tree; unchanged means the same tree |
| `HookInstall.Installer.InstallHooks` | internal/hooks/install.go:110-141 | both trees and the remembered status line after an install |
| `HookInstall.Installer.UninstallHooks` | internal/hooks/install.go:210-249 | both trees after an uninstall; nothing is remembered |
| `HookInstallProofs.ManagedCommandIsManaged` | internal/hooks/install.go:345-364 | quoting for either shell, with any executable and arguments, keeps the marker recognizable |
| `HookInstallProofs.FilterGroupKeepsClean` | internal/hooks/install.go:314-341 | a group comes through filtering unchanged, if and only if it is the user's own |
| `HookInstallProofs.FilterKeepsExactlyClean` | internal/hooks/install.go:311-343 | so does a list of groups, and what comes through is always the user's own |
| `HookInstallProofs.MergeKeepsUserGroups` | internal/hooks/install.go:270-284 | merging keeps every event's user groups in order and leaves exactly one managed group behind them |
| `HookInstallProofs.RemoveLeavesUserGroups` | internal/hooks/install.go:286-309 | removing leaves exactly the user's groups |
| `HookInstallProofs.InstallKeepsContent` | internal/hooks/install.go:110-141 | an install changes no user content, be it the first or a repeated one |
| `HookInstallProofs.UninstallRestoresUserContent` | internal/hooks/install.go:210-343 | after any run of installs and user edits, uninstall leaves each event's user groups in order, the status line shown or remembered at the last edit, and the rest of the file |
| `HookInstallProofs.UninstallRestoresUserLine` | internal/hooks/install.go:126-142 | the line left is the one the user wrote last, read off the operations alone, if and only if no managed line was pasted over it; never pasting one is enough |
| `HookInstallProofs.PastedLineLosesUserLine` | internal/hooks/install.go:225-235 | line A, install, line B, the managed line pasted back, uninstall: A |
| `HookInstallProofs.UninstallRestoresCodexContent` | internal/hooks/install.go:210-220 | the same for the Codex file, which has no status line |
| `HookInstallProofs.UninstallUndoesInstall` | internal/hooks/install.go:110-249 | install then uninstall gives the very same tree, if and only if `hooks` is an object, the status line is the user's, and every managed event is a non-empty array of the user's own groups or absent |
| `HookInstallProofs.EmptyTreeDoesNotComeBack` | internal/hooks/install.go:270-284 | an empty tree is not given back |
| `HookCommands.CommandLineReadsBack` | internal/hooks/install.go:350-364 | outside Windows, splitting the command line by the shell's quoting rules gives back the executable and the arguments, whatever they contain |
| `HookCommands.InstalledHookRuns` | internal/hooks/install.go:110-141 | after an install every hooked event ends with one group that runs exactly these words for five seconds at most, behind the user's groups |
| `HookCommands.InstalledLineRuns` | internal/hooks/install.go:135-138 | the status line written runs exactly these words every fifteen seconds |
| `HookCommands.HookedEventsAreTheLedgers` | internal/agent/ledger.go:56-118 | the events hooked for Claude are exactly those that can change the ledger; Codex lacks the failing stop |
| `ManagedMarker.MarkerShowsInText` | internal/hooks/install.go:345-348 | the marker occurs in the JSON text of a value, if and only if it occurs in one of its texts or keys, however numbers are written and members ordered |
| `FileTransaction.FileSystem.AtomicWrite` | internal/hooks/install.go:540-566 | a file is replaced as a whole or not at all |
| `FileTransaction.FileSystem.Rollback` | internal/hooks/install.go:523-538 | every path whose restoration works is restored, even if others fail |
| `FileTransaction.FileSystem.SnapshotAll` | internal/hooks/install.go:477-490 | rejects two spellings of one file; else saves what every path holds |
| `FileTransaction.FileSystem.WriteAll` | internal/hooks/install.go:492-504 | everything before the returned index is written, nothing from it on; on a reliable file system that is everything |
| `FileTransaction.FileSystem.RollbackRestores` | internal/hooks/install.go:523-538 | with no failed restoration the whole file map is as before |
| `FileTransaction.FileSystem.Apply` | internal/hooks/install.go:476-506 | success writes every payload with its mode, 0600 where none is given; failure leaves everything as before, except paths whose restoration failed; on a reliable file system only two spellings of one file fail |
| `Calendar.EraFree` | firmware/lib/SnapshotParser/src/SnapshotParser.cpp:32-41 | the era arithmetic counts days without eras |
| `Calendar.SuccessorAddsOne` | firmware/lib/SnapshotParser/src/SnapshotParser.cpp:22-41 | 1970-01-01 is day 0 and every valid date's successor is numbered one higher |
| `Calendar.YearLength` | firmware/lib/SnapshotParser/src/SnapshotParser.cpp:22-41 | a year has 366 days if it is a leap year and 365 otherwise |
| `Calendar.MonthLength` | firmware/lib/SnapshotParser/src/SnapshotParser.cpp:26-41 | the day numbers agree with the month table |
| `Calendar.DaysAreMonotone` | firmware/lib/SnapshotParser/src/SnapshotParser.cpp:32-41 | day numbers are strictly monotone in the date, and so injective |
| `Calendar.DateOf` | firmware/lib/SnapshotParser/src/SnapshotParser.cpp:32-41 | every day number belongs to a valid date |
| `Calendar.DateOfDays` | firmware/lib/SnapshotParser/src/SnapshotParser.cpp:32-41 | the date of a date's day number is that date |
| `Rfc3339.Digits` | firmware/lib/SnapshotParser/src/SnapshotParser.cpp:10-20 | succeeds exactly on the given number of digits, with their value |
| `Rfc3339.ReadDateTime` | firmware/lib/SnapshotParser/src/SnapshotParser.cpp:263-272 | succeeds exactly when digits and punctuation are in place |
| `Rfc3339.ReadZone` | firmware/lib/SnapshotParser/src/SnapshotParser.cpp:292-315 | reads exactly a Z or a signed offset that ends the text |
| `Rfc3339.ParseRfc3339` | firmware/lib/SnapshotParser/src/SnapshotParser.cpp:259-322 | the cursor parser agrees with the specification, field by field |
| `Rfc3339Proofs.RenderedParses` | firmware/lib/SnapshotParser/src/SnapshotParser.cpp:259-322 | every rendering of valid fields parses to them |
| `Rfc3339Proofs.ParsedIsRendered` | firmware/lib/SnapshotParser/src/SnapshotParser.cpp:259-322 | every accepted text is the rendering of what it parses to |
| `Rfc3339Proofs.AcceptsExactlyRenderings` | firmware/lib/SnapshotParser/src/SnapshotParser.cpp:259-322 | accepts exactly the section 5.6 of RFC 3339 forms with years 1970-9999 and no leap second, and yields the true epoch second |
| `ClaudeReset.EnglishMonth` | internal/collector/claude.go:639-648 | the month named in full or by three letters, or none |
| `ClaudeReset.ParseAbsoluteReset` | internal/collector/claude.go:554-621 | the branches and the three candidate years compute the meaning of the phrase |
| `ClaudeReset.WholeMinuteIsRebuilt` | internal/collector/claude.go:623-632 | a whole minute is rebuilt from its wall clock and passes the normalization check |
| `ClaudeReset.FittingYearIsNear` | internal/collector/claude.go:614-619 | a year that fits the horizon is one of the three tried |
| `ClaudeReset.FittingYearIsUnique` | internal/collector/claude.go:610-619 | at most one year fits |
| `ClaudeReset.SolutionIsMeaning` | internal/collector/claude.go:554-621 | an instant that satisfies the phrase declaratively is what the parser returns |
| `ClaudeReset.DroppedYearIsRecovered` | internal/collector/claude.go:554-637 | any whole-minute reset from 24 h before to 8 days after the observation, written without a year in 12- or 24-hour form, is parsed to exactly that instant |
| `ClaudeReset.MeansExactly` | internal/collector/claude.go:554-637 | a phrase, with or without a year, means an instant, if and only if that is a whole minute from 24 h before to 8 days after the observation at which the zone's calendar and clock show what the phrase writes |
| `ClaudeReset.WrittenYearIsRecovered` | internal/collector/claude.go:590-608 | such a reset written with its year is parsed to exactly that instant, and with any other year to nothing |
| `GoTime.FieldsAreValid` | internal/store/store.go:487-490 | the fields written for an instant are valid and mean its whole second |
| `GoTime.WrittenInstantReads` | firmware/lib/SnapshotParser/src/SnapshotParser.cpp:259-322 | the display reads the whole second of every instant the server writes |
| `SnapshotParser.ParseSnapshot` | firmware/lib/SnapshotParser/src/SnapshotParser.cpp:351-431 | the step-by-step reader agrees with the specification on every tree |
| `SnapshotCache.ParsedIsNormal` | firmware/lib/SnapshotParser/src/SnapshotParser.cpp:47-225 | every accepted snapshot satisfies the cache writer's assumptions |
| `SnapshotCache.FirstEightWarnings` | firmware/lib/SnapshotParser/src/SnapshotParser.cpp:351-431 | of any number of warnings the first eight are kept, word for word |
| `SnapshotCache.CacheRoundTrip` | firmware/lib/SnapshotParser/src/SnapshotParser.cpp:227-255 | a written normal snapshot reads back with its warnings emptied |
| `SnapshotCache.ParsedSurvivesCaching` | firmware/lib/SnapshotParser/src/SnapshotParser.cpp:351-465 | for every accepted tree, re-reading its cache yields the same snapshot without warnings |
| `SnapshotGeneration.Device.constructor` | firmware/src/main.cpp:667-687 | boot restores the cache and the largest known epoch |
| `SnapshotGeneration.Device.BeginFetch` | firmware/src/main.cpp:1450-1463 | the first lock section |
| `SnapshotGeneration.Device.FinishFetch` | firmware/src/main.cpp:1467-1479 | the second lock section |
| `SnapshotGeneration.Device.PersistSnapshotState` | firmware/src/main.cpp:774-828 | the whole state after a persist with lost or landed writes |
| `SnapshotGeneration.Device.ClearSnapshotCache` | firmware/src/main.cpp:2390-2402 | a new generation without snapshot |
| `SnapshotGeneration.Device.SaveCandidate` | firmware/src/main.cpp:2404-2413 | remembers whether the endpoint changed |
| `SnapshotGeneration.Device.PublishConfig` | firmware/src/main.cpp:2414-2417 | the saved candidate becomes the current configuration |
| `SnapshotGeneration.Device.FinishCommit` | firmware/src/main.cpp:2418-2420 | clears the cache exactly when the endpoint changed |
| `SnapshotGeneration.Device.ClearConfig` | firmware/src/main.cpp:746-772 | factory reset in one lock section; whether the erasure worked goes unnoticed |
| `SnapshotGeneration.InvariantStep` | firmware/src/main.cpp:1450-1482 | every action of either thread keeps the invariant |
| `SnapshotGeneration.InterleavingsAreSafe` | firmware/src/main.cpp:746-828 | in every interleaving the held snapshot belongs to the current generation, the cached one too unless a removal or erasure failed, and accepted timestamps strictly increase within it |
| `SnapshotGeneration.CommitDropsOldEndpoint` | firmware/src/main.cpp:2404-2420 | after an endpoint change only snapshots from the new endpoint are held, even with an old request under way |
| `SnapshotGeneration.RemovalDecidesCache` | firmware/src/main.cpp:2398-2401 | after an endpoint change or a factory reset the cache is current, if and only if its removal worked or there was none; nothing else begins a generation |
| `SnapshotGeneration.OldSnapshotStays` | firmware/src/main.cpp:2404-2420 | a run after which the cache holds the old endpoint's snapshot because a removal failed, and would hold it if power were lost after the save |
| `SnapshotGeneration.PowerLossShowsOldSnapshot` | firmware/src/main.cpp:2413-2418 | in runs that stage nothing and whose removals work, a boot shows another endpoint's snapshot, if and only if power is lost between the save of a changed endpoint and the removal while the cache holds a snapshot the new endpoint did not deliver |
| `SnapshotFetches.FetchIsShownExactly` | firmware/src/main.cpp:1450-1482 | whatever the main loop does between the worker's two lock sections, a fetched snapshot is shown, if and only if it is plausible and newer and the generation is still that of the request |
| `SnapshotFetches.FailedFetchShowsNothing` | firmware/src/main.cpp:1464-1466 | a failed request shows nothing |
| `SnapshotFetches.ForcedPersistKeepsSnapshot` | firmware/src/main.cpp:774-828 | in every run in which no persist writes the epoch without the snapshot, a forced persist with working flash leaves the shown snapshot in the cache |
| `SnapshotFetches.EpochAloneMisleads` | firmware/src/main.cpp:808-824 | a persist that writes the epoch alone misleads the next ones, if and only if another snapshot had been cached before |
| `SnapshotFetches.OlderSnapshotStaysCached` | firmware/src/main.cpp:774-828 | a run after which the older snapshot stays cached although the flash works again |
| `SnapshotFetches.CacheKeepsUp` | firmware/src/main.cpp:793-796 | what is shown is cached as soon as it is 120 s newer than what was written last |
| `SnapshotFetches.ResetIsFinal` | firmware/src/main.cpp:746-772 | a factory reset leaves no endpoint, and in every run after it nothing is shown or cached any more |
| `Store.ReportStore.ReplaceProviders` | internal/store/store.go:444-465 | exactly the agent's rows are replaced by exactly the reported ones; an unknown provider fails |
| `Store.ReportStore.ReplaceTasks` | internal/store/store.go:467-478 | likewise for tasks; an unknown name or a repeated session fails |
| `Store.ReportStore.ReplaceAgentReport` | internal/store/store.go:418-484 | the tables represent the kept reports after a stored, stale or failed call; a report that breaks a constraint is never stored, and on a working database nothing else fails |
| `Store.ReplacementRepresents` | internal/store/store.go:444-478 | replacing one agent's rows represents replacing its report |
| `Store.KeepsTheNewest` | internal/store/store.go:418-484 | over any offers, the store keeps, for exactly the agents that reported, an offered report with the greatest send time |
| `Store.KeepsTheFirst` | internal/store/store.go:418-443 | among reports sent at the same instant the first to arrive is kept |
| `Store.OfferAll` | internal/store/store.go:418-484 | any calls, any of which may fail, keep what the offers whose calls did not fail determine, and the tables represent it; on a working database those are all that meet the constraints |
| `Store.ArrivalOrderIsIrrelevant` | internal/store/store.go:418-484 | with distinct send times the order of arrival does not matter |
| `DisplaySnapshot.LoadAgentSummary` | internal/store/store.go:529-537 | counts all agents and those online |
| `DisplaySnapshot.LoadLatestProvider` | internal/store/store.go:539-577 | shows the latest observed row, or reports that there is none; what that means for the kept reports is `ProviderShownMeans` |
| `DisplaySnapshot.LatestIsUnique` | internal/store/store.go:539-577 | the ranking leaves no choice |
| `DisplaySnapshot.LoadTaskSummary` | internal/store/store.go:579-619 | the row loop counts exactly the live tasks of online agents by provider and kind |
| `DisplaySnapshot.BuildDisplaySnapshot` | internal/store/store.go:486-520 | the snapshot says what the tables hold, with the right warnings; what that means for the kept reports is `SnapshotMeans` |
| `DisplayContract.ValidatedIsInsertable` | internal/server/server.go:369-446 | a validated report meets the tables' constraints |
| `DisplayContract.EncodedShownReads` | firmware/lib/SnapshotParser/src/SnapshotParser.cpp:113-190 | a provider built from a validated report is read as meant, unless its plan is not displayable |
| `DisplayContract.CountsAreSmall` | internal/store/store.go:579-619 | no task is counted twice |
| `DisplayContract.DisplayReadsWhatServerMeans` | firmware/lib/SnapshotParser/src/SnapshotParser.cpp:351-431 | every snapshot built from validated reports is read by the display as meant, if and only if both plans are at most 32 printable ASCII characters |
| `DisplayContract.LongPlanIsRejected` | firmware/lib/SnapshotParser/src/SnapshotParser.cpp:351-431 | one validated report with a plan of 33 characters makes the display reject the snapshot |
| `SnapshotMeaning.ProviderShownMeans` | internal/store/store.go:539-577 | what is shown of a provider is the newest observation among the kept reports, by agent name at a tie: its own plan, source and windows; unavailable without a window, fresh up to 5 minutes, else stale; to be logged in exactly when it says so |
| `SnapshotMeaning.CountedIsLive` | internal/store/store.go:579-619 | a task is counted, if and only if it is on the report of an agent heard within 45 s and was seen within 15 minutes |
| `SnapshotMeaning.SnapshotMeans` | internal/store/store.go:486-577 | a snapshot says exactly what the kept reports say: providers, counts of tasks and agents, and the warnings by name |
| `SnapshotMeaning.ShowAfter` | internal/store/store.go:418-520 | after any offers, any of which may fail, the snapshot shows the reports kept; on a working database those of all valid offers |
| `SnapshotMeaning.FreshIsRecent` | internal/server/server.go:396-416 | whatever an agent's clock says, a provider is shown as fresh only if some report arrived within the last 10 minutes |
| `SnapshotMeaning.WrongClockIsForgiven` | internal/store/store.go:418-443 | an agent whose clock was ahead is heard again 5 minutes later at the latest |
| `SnapshotMeaning.LateReportIsNotKept` | internal/server/server.go:376-384 | a kept report took at most 15 minutes to arrive |
| `RateLimiter.FixedWindowLimiter.Allow` | internal/server/server.go:528-544 | decision and new entries; after a refusal the very first admitted instant is the one announced |
| `RateLimiter.FixedWindowLimiter.Prune` | internal/server/server.go:546-555 | forgets exactly the outdated entries, above the threshold only |
| `RateLimiter.PruningIsUnobservable` | internal/server/server.go:528-555 | under a nondecreasing clock the decisions are those of a limiter that never prunes |
| `RateLimiter.PruningShows` | internal/server/server.go:546-555 | exactly when forgetting entries at one instant changes a later decision |
| `RateLimiter.PruningShowsInARun` | internal/server/server.go:528-555 | a run of 4097 calls whose last decision differs with and without pruning |
| `RateLimiter.AdmittedWithinAllowance` | internal/server/server.go:528-544 | what is admitted in an interval is bounded by what the state at its start allows |
| `RateLimiter.FewerThanTwiceTheLimit` | internal/server/server.go:528-555 | with limit L, at most 2L - 1 calls are admitted in any half-open interval one window long |
| `RateLimiter.BoundIsReached` | internal/server/server.go:528-544 | a run that reaches the bound |
| `RateLimiter.RefusalIsEarned` | internal/server/server.go:528-555 | whatever the clock does, nobody is refused before as many calls as the limit says were admitted for the key in a window that is not over yet |
| `ProviderMerge.Agent.StoreCollectionResult` | internal/agent/agent.go:344-369 | the stored reports after a success or failure of either provider |
| `ProviderMerge.Agent.IngestStatusLine` | internal/agent/agent.go:371-383 | the stored reports after a status-line update |
| `ProviderMerge.MergeMeans` | internal/collector/claude.go:653-688 | field by field: the newer report counts, a missing window is filled by an older one that resets later or is unused, plan and login state are carried over when empty, and nothing survives a logout |
| `ProviderMerge.StoredWindowExactly` | internal/collector/claude.go:653-688 | over any run a window is stored, if and only if some result brought it and every later one spared it |
| `ProviderMerge.FailureMeans` | internal/agent/agent.go:344-360 | a failure leaves stored windows and what came with them, and tells its reason |
| `ProviderMerge.StoredWindowsAreJustified` | internal/collector/claude.go:653-688 | over any run each stored window was carried by the stored newest observation, or resets after it, or is the unused one, and none was last seen before a confirmed logout |
| `ProviderMerge.ClaudeCollector.Observe` | internal/collector/claude.go:84-97 | one probe's effect on the logout counter |
| `ProviderMerge.ClaudeCollector.ObserveAll` | internal/collector/claude.go:127-138 | over any run a logout is reported exactly where two probes in a row say so |

## Left out

- Screens, touch, buttons, the setup portal, TLS and HTTP, SNTP and FreeRTOS: device I/O. Of the firmware's threads only the lock sections above are modelled.
- Battery curve, USB sensing, debouncing, refresh gating, the display state machine, update policy on the device: small one-step functions.
- The Codex collector, relative resets, hook forwarding, tokens, authentication, service files, command-line flags and `hardware/`.
- JSON text: trees are modelled; the codec, the parser's length and nesting limits, and the cache's 4096-byte limit are not.
- SQLite: tables are maps and a transaction is all or nothing. SHA-256 is an unspecified function. The order of map iteration is arbitrary.
- float32 rounding of percentages: they are reals.
- Error texts; the model says whether a call fails and, where a caller distinguishes it, with which kind of error.
- ConfigStore.Device.SaveConfig: a write that takes effect but is reported as failed is not modelled. On unguarded metadata a failed "target" or "active" write can move the boot slot, as `MarkerKeepsBootSlot` and `FinishIsAtomic` say; the contract then gives the metadata and slots that result.
- ConfigStore.Device.LoadConfig: does not keep the persisted configuration when the namespace that holds it fails to open at boot, because a valid slot then reads as absent.
- ConfigStore.Device.Lifetime: a factory reset that is interrupted midway is not part of the runs.
- SnapshotGeneration.InterleavingsAreSafe: generations are unbounded, so the wrap of the 32-bit counter is not covered; a run does not go on after a reboot (`PowerLossShowsOldSnapshot` says what the boot shows).
- LedgerRuns.SessionsDoNotInterfere: needs a session's events and the snapshot not to be overtaken, as otherwise it fails (`EarlyEventInterferes`).
- LedgerReports.SnapshotPassesValidator: the limit of 256 tasks per report is a check on the report as a whole and is not implied.
- ClaudeReset.ParseAbsoluteReset: takes a phrase already split by the regular expression; zones with daylight-saving changes are replaced by a fixed offset.
- FirmwarePublish.Directory.Publish: directory and file synchronization is a step that may fail; what the disk itself loses on power failure is not modelled. The operating system's lock is taken as given: publications do not overlap, readers may come at any time.
- FileTransaction.FileSystem.AtomicWrite: staging, synchronization and rename are one step that happens or fails; a staging file that could not be removed is not modelled.
- FileTransaction.FileSystem.Apply: directories created on the way, symbolic links, and names of staging files are not modelled; path cleaning is an unspecified function.
- HookCommands.CommandLineReadsBack: speaks of the POSIX shell; on Windows the hosting program decides how the command line is split, and only the marker is followed there.
- HookInstall.Installer.UninstallHooks: backups, the install state's file and version, and a failing write between the two files are not modelled.
- HookInstallProofs.UninstallRestoresUserContent: speaks of array-valued events and groups without empty command lists, and describes the status line by what the install remembers (`UninstallRestoresUserLine` does not); what else happens to a tree is decided by `UninstallUndoesInstall`.
- DisplayContract.DisplayReadsWhatServerMeans: instants lie in 1970-9999 and counts below 2^31.
