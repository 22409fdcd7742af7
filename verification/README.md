# pkgundo, verified

pkgundo watches what an application does below its users' homes and can take it back later. This
project models the two halves that have to be right for that, and the decoder between the kernel
and the first of them, and proves what they promise.

**Live capture.** A daemon claims a process when a tracked binary is executed, finds its
descendants by polling, reference-counts one kernel mark per filesystem, reads file events,
attributes each to a launch (or buffers and retries it for half a second) and sends records through
a first-in-first-out channel into a journal that only grows. `Capture.dfy` is one transition system
of all these tasks; a step is what one task does while it holds a lock or between two waits (an
untrack's database rows and its exec-watch entries are two steps, so are a teardown's choice of
processes and its removing them), so a theorem about runs is a theorem about every interleaving.
Events carry numbers that exist only in the model.

**Rollback, archive, recovery and review.** A rollback goes through recorded mutations and removes,
restores or archives what stands at their paths, then prunes directories left empty; recovery puts
an archive back; an interactive review chooses the groups of paths that are touched at all. The
machine is a tree of directories, regular files and symbolic links plus the `archives` table; reading,
writing, chmod and chown follow a link where the system's calls do. Every system call consumes an entry of a fault script saying whether it works and what a broken call
leaves behind, so "for every script" means "whatever fails, wherever".

**The event decoder.** Two loops over length-prefixed records in a byte buffer, with the layout of
fanotify(7), "Reading fanotify events", in either byte order.

Functions say what a step computes; classes and methods with the source's own loops and early
returns (`Rollback.RollbackEngine`, `Archive.ArchiveManager`, `Review.GroupMutations`,
`ReviewLoop.ReviewGroups`, `Decoder.ReadEvents`, `Attribution.FanotifyMonitor`,
`MutationCapture.SharedCapture`, `ProcessTracker.Tracker`, `Journal.JournalTask`,
`TrackedApps.Daemon`) are proved to compute exactly that; the main results are lemmas about the
functions, for all inputs, runs or fault scripts.

## Where the promise is narrower than it reads

- "Archive, never delete" (README.md:16 of the repository) is true of a list of mutations, whatever
  fails and wherever the run is looked at, exactly when none of them is `NoLoss.Destructive`
  (`NeverDelete.NeverDeletesExactly`), provided that no archived file is named like another one's
  metadata sidecar (`x` and `x.pkgundo-meta.json`) and no link stands inside the transaction's archive,
  where the program puts none (`StepFrames.StepKeepsLinks`). No mutation is destructive in the rollback of a
  tracked application. Destructive are created files outside a home cleanup, created files that
  differ from their fingerprint in the clean and nuclear modes, modified files with a fingerprint
  and a blob, and deleted ones with a blob.
- Under that same name condition rollback then recovery is the identity. Without it the contents
  decide. `ArchiveLedger.LedgerOf` tells from tree and list alone which paths get archived (one below
  a directory named like another one's sidecar may not) and what is written over a sidecar or a content
  in the archive. `SidecarClash.RoundTripDecided`: a tree comes back exactly when all of that serves
  the path it was written over. `SidecarClash.RoundTripExactly`: all contents of a tree's shape come back
  exactly when the ledger finds none of it, which without such nesting means that no names clash.
- A rollback loses nothing whatever fails, but recovery after a failing one can: when a removal failed
  and the path is archived a second time with a copy that breaks off, recovery puts the damaged copy
  over the intact file. `FaultyRoundTrip.SurvivesFaultsExactly`: the round trip survives every fault
  script exactly when the list acts at most once on each file or link that has room in the archive.
- A blob is written back through whatever link stands at its path by now (src/blob_store/mod.rs:85), and
  its mode and owner with it. So a mutation can change a file that is not its own, and exactly then:
  `StepFrames.StepKeepsOthersExactly`. `BaselineRuns.BaselineIsRestored` and `ReplacedVersionIsArchived`
  say for every list what stands at an installed path afterwards and which version of it the archive
  holds: the last of its own restorings and of the blobs that came through a link decides.
  `LinkedBaseline.ALinkSpoilsAnother` is a machine on which each order of two mutations spoils one of the
  two, and `TheOtherOrderRestores` shows that one order still restores.
- A group that was not selected could be written into the same way (`Limits.KeptGroupsExactly`). This is
  true of the engine as it can be set up; the commands select groups only for tracked applications
  (src/commands/track.rs:90-91), which have no blobs, since only src/commands/run.rs:39 records any.
  For these `Limits.TrackedAppKeepsGroups` holds without condition.
- A path below a directory named like another path's sidecar is outside `BaselineRuns.BaselineIsRestored`
  and `ReplacedVersionIsArchived`: in the conservative and clean modes the archiving that comes before
  the restoring can fail there, and then nothing is restored.
- A dry run reports what the real run will report exactly when no target lies below a directory named
  like another target's sidecar and nothing in the archive stands in the way
  (`Preview.DryRunPredicts`); elsewhere the real run fails where the dry run does not look.
- A start of the capture that fails, wherever, is followed by a stop all the same, which takes another
  launch's reference exactly when another launch holds that device
  (`MutationCapture.StopAfterFailedStart`).
- A collector stopped between listing a process and registering it registers it after its launch is
  torn down, or after the teardown has chosen the processes it will take out.
  `AttributionSafety.AgreesExactly` shows that nothing else breaks the agreement between registrations
  and live launches; `Straggler.RegisteredTooLate` and `RegisteredBetween` are runs of the two kinds, and
  `Straggler.StragglerRowHasNoWitness` goes on to a row that no live launch vouched for when its event
  was emitted.
- An untrack writes its row before it takes its entries out, so a match in between starts a launch of an
  application that is no longer tracked: `RowOrigins.EveryRowHasAnOrigin` says that this is the only way
  to one, `LateMatch.ClaimedAfterUntrack` is a run.
- An untrack whose last database call fails leaves a tracking row with a closed transaction:
  `TrackedApps.HandleKeepsSound` shows that it is the only such request. A track that fails only when
  it reads its row back leaves that row tracking and nothing watched (`TrackedApps.FailedTrackIsHidden`).
- A cleanup leaves a directory behind that was already empty, and with it every directory above it, unless
  that directory is itself a recorded path: `PrunedRuns.DirectoriesGoExactly` says exactly which go.
- Runtime state and logs are skipped by category, but a text test for generated caches comes first: a path
  below `/run` or `/var/log` whose text contains `font` or `mime` is acted on (`Classifier.IgnoredExactly`).
- At end of input a review resumes behind the first group with the current group's key:
  `ReviewLoop.CodeDecidesExactly` says for which groups that decides as it should. Groups made by
  `Review.GroupMutations` are among them, since their keys are distinct.
- Tracking a tracked application again leaves exec-watch entries behind that still feed the abandoned
  transaction, exactly those whose path is not marked again (`TrackedApps.RetrackMovesEntries`).

## Model

| member | source | states |
|---|---|---|
| AttributionSafety.EveryRowIsWitnessed | src/ebpf/mod.rs:454-593 | over every interleaving without stragglers, each journal row is the record of an event that some step emitted, and in the very state of that step a live launch of the row's transaction listed its process, with its path under that launch's home; the row has the transaction, process and path of the event, the operation its bits tell, and the time of the step that sent it |
| RowOrigins.EveryRowHasAnOrigin | src/daemon/exec_watch.rs:223-290 | from end to end: that launch began with a match on an exec-watch entry, the row carries that entry's transaction, and its application was then being tracked exactly unless an untrack of it had written its row and not yet taken its entries out |
| RowOrigins.LaunchHasOrigin | src/daemon/exec_watch.rs:223-290 | the same for every launch of every run, stragglers and failing requests included |
| RowOrigins.LaunchHasHome | src/daemon/exec_watch.rs:240-290 | no launch is without a home, so none vouches for every path |
| LateMatch.ClaimedAfterUntrack | src/daemon/mod.rs:264-290 | a run in which a match between those two halves is claimed after the untrack has answered, under the closed transaction |
| Straggler.StragglerRowHasNoWitness | src/daemon/exec_watch.rs:357-394 | a whole run with a straggler whose journal holds a row that no emission with a live launch accounts for |
| Straggler.RegisteredTooLate | src/daemon/exec_watch.rs:357-394 | its first part: track, match, claim, list, tear down, and only then register |
| Straggler.RegisteredBetween | src/daemon/exec_watch.rs:386-393 | the other kind: registered between the teardown's choice of processes and its removing them, and there with no launch alive |
| AttributionSafety.AgreesUnlessStraggling | src/daemon/exec_watch.rs:346-395 | "each registration is backed by a live launch that lists the process" survives a step exactly when the step is neither a registration after the teardown nor a teardown that passes over one |
| AttributionSafety.AgreesExactly | src/daemon/exec_watch.rs:346-395 | that agreement holds in every state of a run exactly when no step of it is such a straggler |
| AttributionSafety.AlwaysAgrees | src/daemon/exec_watch.rs:275-289 | one half: in every reachable state of a run without stragglers |
| AttributionSafety.RegistrationStays | src/daemon/exec_watch.rs:256-289 | a claimed process keeps its registration: only a teardown that chose it ends it, only a collector that found it replaces it |
| AttributionSafety.NothingRegisteredWhenIdle | src/daemon/exec_watch.rs:387-393 | no live launch means no registration |
| AttributionSafety.BatchIsAttributed | src/ebpf/mod.rs:551-562 | whatever enters the batch was attributed by the registrations of that very moment, the re-check after resolving included |
| EventConservation.AlwaysConserved | src/ebpf/mod.rs:454-593 | each event read is held by one loop, sent once or dropped once for a named reason, never two of these, in every reachable state |
| EventConservation.FinishedForGood | src/ebpf/mod.rs:836-851 | a sent or dropped event stays so and no loop ever holds it again |
| EventConservation.MoveAccounts | src/ebpf/mod.rs:316-349 | one move of a capture loop: read plus held before equals held after plus sent plus dropped, for every event number |
| EventConservation.DroppedForReason | src/ebpf/mod.rs:299-349 | each event given up is given up for the reason named: its age, its name, its process, its path, the buffer, the channel or the group |
| EventOrder.AlwaysOrderly | src/ebpf/mod.rs:299-349 | in every reachable state event numbers ascend through the buffer and through each batch, retried ones included, and the buffer never exceeds PENDING_MAX |
| EventOrder.WaitsOnlyWhileMissing | src/ebpf/mod.rs:316-349 | an event still waiting when a retry ends was at most 500 ms old when it began, and during that retry its process was once unregistered |
| Attribution.FanotifyMonitor.RetryPending | src/ebpf/mod.rs:316-349 | the retaining loop, its registrations locked anew for each event's look-up and re-check: new buffer and emitted events, in order |
| Attribution.RemainsExactly | src/ebpf/mod.rs:316-349 | after a retry exactly the young events whose process was unregistered when looked up remain, as a subsequence |
| Attribution.EmittedExactly | src/ebpf/mod.rs:337-346 | a buffered event is emitted by a retry inside the window that finds its process, exactly when it resolves on that launch's home to a path the re-check attributes |
| Attribution.FanotifyMonitor.BufferPending | src/ebpf/mod.rs:299-307 | a full buffer drops the event, otherwise it is appended |
| Attribution.FanotifyMonitor.RefreshTidCache | src/ebpf/mod.rs:282-294 | afterwards every entry leads to an active process, every live thread of one has an entry, and no entry of an active process is lost |
| Attribution.FanotifyMonitor.HandleOne | src/ebpf/mod.rs:497-583 | one event of a read, by its process, its cached or live thread owner, or into the buffer |
| Attribution.FanotifyMonitor.ReadEventsFiltered | src/ebpf/mod.rs:454-593 | a retry, then every decoded event in order, each lock seeing registrations of its own; every real descriptor closed; full exactly when the buffer was filled |
| Attribution.HandledExactly | src/ebpf/mod.rs:497-583 | an event is emitted exactly for its registered owner and under its home, and buffered exactly when it has none, somebody is active and there is room |
| Attribution.ReadExactly | src/ebpf/mod.rs:479-590 | over a whole read something is emitted exactly when one of its events calls for it |
| Attribution.FanotifyMonitor.Forward | src/ebpf/mod.rs:832-851 | what is sent on: the emitted events without the excluded ones, each with the operation its bits tell |
| Attribution.BitsTell | src/ebpf/mod.rs:873-891 | which operation that is, for every mask put together from bits by their numbers: a creation when 0x100 is set, else a write for 0x8, else a deletion for 0x200, else a move here for 0x80, else a move away for 0x40, else none of these |
| Attribution.EveryMask | src/ebpf/mod.rs:873-891 | and every mask is put together so |
| Attribution.ForwardedExactly | src/ebpf/mod.rs:893-900 | sent on exactly when not excluded, in unchanged order |
| Attribution.ExcludedByName | src/ebpf/mod.rs:893-900 | what is excluded, by the names in the path: top names that begin with `proc`, `sys` or `dev`, names in `/run` that begin with `user`, names in `/var/lib` that begin with `pkgundo` |
| RetryRefinement.PassIsItsSteps | src/ebpf/mod.rs:316-349 | the protocol's check and resolve steps do what the one pass does, whatever other tasks do to the registrations in between |
| RetryRefinement.EventIsItsSteps | src/ebpf/mod.rs:497-583 | the protocol's look-up, resolve and buffer steps do what the loop body does to an event, whatever other tasks do in between |
| RetryRefinement.ReadIsItsSteps | src/ebpf/mod.rs:479-590 | and the same for all events of a read |
| MutationCapture.SharedCapture.Bump | src/daemon/mutation_capture.rs:132-136 | first exactly when nothing was counted; the count goes up by one |
| MutationCapture.SharedCapture.Release | src/daemon/mutation_capture.rs:141-150 | last exactly when the count reaches zero, and then the entry is gone |
| MutationCapture.SharedCapture.Start | src/daemon/mutation_capture.rs:71-89 | counts, group and marks after a start, with every failure on the way |
| MutationCapture.SharedCapture.Stop | src/daemon/mutation_capture.rs:94-125 | counts, group and marks after a stop, with every failure on the way |
| MutationCapture.StartBalances | src/daemon/mutation_capture.rs:71-89 | a start succeeds, and keeps counts, marks and group in balance with the held launches, exactly when the device resolves, the group opens if nothing is held, and the mark works if nobody holds the device |
| MutationCapture.StopBalances | src/daemon/mutation_capture.rs:94-125 | a stop of a counted launch keeps the balance exactly when the device resolves and a needed unmark works |
| MutationCapture.StopAfterFailedStart | src/daemon/exec_watch.rs:346-395 | the stop after any start that failed keeps the balance exactly when no other launch holds that device |
| MutationCapture.FailedStartDisarmsAnother | src/daemon/exec_watch.rs:349-351 | when exactly one other launch holds it, that launch is left without its mark |
| MutationCapture.AlwaysBalanced | src/daemon/mutation_capture.rs:71-150 | with working calls every interleaving of starts and stops is balanced, and idle when nothing is held |
| CaptureResources.AlwaysBalance | src/daemon/exec_watch.rs:346-395 | in every reachable state of the protocol with working calls the counts are the launches between start and stop, per device; marks and group follow |
| CaptureResources.AlwaysOneLoop | src/daemon/mutation_capture.rs:76-121 | whatever fails, at most one loop is not aborted, and it is the group in charge |
| CaptureResources.IdleMeansIdle | src/daemon/mutation_capture.rs:118-123 | all launches finished: no registration, no count, no mark, no group |
| CaptureResources.JournalOnlyGrows | src/daemon/mod.rs:105-127 | over every run journal keys are unique and no row is changed or taken back |
| CaptureResources.FlushBarrierOfRun | src/daemon/mutation_capture.rs:61-66 | over every run: once a flush is acknowledged, every event sent before it was asked for has been taken, and the table has a row of its transaction, its path and the operation its bits tell, unless its own append failed |
| Journal.JournalTask.Drain | src/daemon/mod.rs:115-126 | one turn of the journal task: a record is appended unless its key exists or the database fails, a flush is acknowledged |
| Journal.FirstInFirstOut | src/journal/mod.rs:20-30 | the queue is what was sent and not yet taken, in order |
| Journal.RowsOnlyGrow | src/journal/mod.rs:37-56 | keys stay unique and the table before is a prefix of the table after |
| Journal.KeysAreStored | src/db/mod.rs:49-62 | a key is in the table exactly when a record with it was taken while the database worked |
| Journal.RowsAreTheStored | src/db/mod.rs:59 | with the fields written out: a row of this transaction, operation and path is there exactly when a record of the three was taken while the database worked, and no two rows agree in all three |
| Journal.FirstRecordWins | src/db/mod.rs:59 | every row is the first stored record with its key |
| Journal.AckedExactly | src/daemon/mod.rs:115-126 | a flush is acknowledged exactly by being taken |
| Journal.FlushBarrier | src/journal/mod.rs:20-30 | once a flush is acknowledged every record sent before it was taken, and the table has a row of its transaction, operation and path unless its own append failed |
| ProcessTracker.Tracker.IsDescendant | src/process_tracker/mod.rs:59-75 | terminates on every parent map and is true exactly when the chain reaches the root with every earlier pid above 1 |
| ProcessTracker.DescendsByChain | src/process_tracker/mod.rs:59-75 | reaching the root is to be joined to it by a chain of parents, all but the last above 1 |
| ProcessTracker.Tracker.ScanDescendants | src/process_tracker/mod.rs:78-92 | the entries below the root, each judged by the parents read for it |
| ProcessTracker.ScanFindsExactly | src/process_tracker/mod.rs:78-92 | membership in a scan, both directions |
| ProcessTracker.Tracker.Discover | src/process_tracker/mod.rs:144-166 | each newly found process is announced and becomes known |
| ProcessTracker.Tracker.Watch | src/process_tracker/mod.rs:109-182 | the polling loop over an arbitrary run of ticks |
| ProcessTracker.AnnouncedExactlyOnce | src/process_tracker/mod.rs:129-166 | each known process is announced exactly once, the root first |
| ProcessTracker.KnownOnlyGrows | src/process_tracker/mod.rs:131-180 | known processes and announcements only grow |
| ProcessTracker.SeenOnceKnownForever | src/process_tracker/mod.rs:132-141 | a process below the root on one tick stays known after reparenting |
| ProcessTracker.EndsWhenAllAreDead | src/process_tracker/mod.rs:168-178 | the loop has ended exactly when on some tick nothing found so far was alive |
| TrackedApps.Daemon.TrackRequest | src/daemon/mod.rs:226-267 | rows, transactions and exec-watch entries after a track, with every failure on the way |
| TrackedApps.Daemon.UntrackRequest | src/daemon/mod.rs:268-290 | the same for an untrack |
| TrackedApps.Daemon.WatchApp | src/daemon/exec_watch.rs:109-117 | paths are marked and entered in order until a mark fails |
| TrackedApps.Daemon.UnwatchApp | src/daemon/exec_watch.rs:122-132 | exactly the entries of that name go |
| TrackedApps.Daemon.LoadFromDb | src/daemon/exec_watch.rs:80-89 | entries re-armed from the tracking rows, as the two rows below say |
| RestartWatches.RestartWatchesExactly | src/daemon/exec_watch.rs:80-117 | after a restart exactly the real paths of the listed tracking applications are watched, of each application those before its first failing mark; each for the last application of the order that leads there, under its transaction; nothing else changes |
| RestartWatches.RestartWatchesAll | src/daemon/exec_watch.rs:80-117 | with working marks every path of a listed tracking application is watched under its real path, for an application that has this path and under its transaction; for this one when no other leads there |
| TrackedApps.HandleKeepsSound | src/tracked_apps/mod.rs:153-205 | no shared transactions and entries only for tracked names: kept by every request; open transactions for tracking rows: kept exactly when it is not a half-done untrack |
| TrackedApps.FailedTrackIsHidden | src/tracked_apps/mod.rs:153-188 | a failed track changes no entry, and no application's row exactly unless reading the row back was the call that failed |
| TrackedApps.AlwaysSound | src/daemon/mod.rs:226-290 | these hold after every sequence of requests and restarts without a half-done untrack |
| TrackedApps.TrackTakesFreshTransaction | src/tracked_apps/mod.rs:149-188 | a track takes a transaction nobody had, and changes no other row |
| TrackedApps.TrackedAreWatched | src/daemon/exec_watch.rs:109-132 | a track enters exactly the real paths before its first failing mark, under the new transaction, and an untrack takes out exactly the entries of the name; every other entry stays |
| TrackedApps.RearmWatchesTracked | src/daemon/exec_watch.rs:80-89 | re-armed entries name tracked applications and carry their current transactions |
| TrackedApps.RetrackMovesEntries | src/tracked_apps/mod.rs:149-188 | after tracking again all entries of the name carry the new transaction exactly when every old entry is a real path marked again |
| Decoder.ReadEvents | src/ebpf/mod.rs:479-590 | both nested loops terminate without leaving the event, decode what the specification decodes, and close every real descriptor once, in order |
| Decoder.FindName | src/ebpf/mod.rs:532-549 | the last name record, whatever the lengths say |
| Decoder.ReadHeader | src/ebpf/mod.rs:480-492 | accepts exactly when version, length and end of buffer allow an event |
| Decoder.ReadExecEvents | src/daemon/exec_watch.rs:183-204 | the launches of the resolving descriptors, and every real descriptor closed once |
| Decoder.EventsReadBack | src/ebpf/mod.rs:479-590 | decoding an encoded list of events gives exactly that list |
| Decoder.RecordsReadBack | src/ebpf/mod.rs:532-549 | of encoded info records the last name record is found |
| Decoder.HeaderReadBack | src/ebpf/mod.rs:70-88 | every header field is read back, signed ones too |
| Decoder.DecodesAPrefix | src/ebpf/mod.rs:479-590 | on arbitrary bytes decoding takes whole events off the front and stops before bytes that start none |
| Decoder.DecodesByPlace | src/ebpf/mod.rs:70-88 | by the places of the bytes, in either order: when an event begins, its mask, descriptor and process, and where the next one begins |
| Decoder.InfoByPlace | src/ebpf/mod.rs:532-549 | what is delivered with an event is a record of kind 2 that stands inside the event, behind the metadata whose size is at 6, and is as long as it says |
| Decoder.ClosedExactly | src/ebpf/mod.rs:585-588 | each real descriptor is closed as often as it was reported, and no other one |
| Decoder.ExecsExactly | src/daemon/exec_watch.rs:183-204 | exactly the executions whose real descriptor resolves are reported, each for its process |
| Decoder.NameRecordResolves | src/ebpf/mod.rs:691-755 | an encoded name record resolves to its directory joined with its name, whatever pads it |
| Archive.ArchivePathInjective | src/archive/mod.rs:50-54 | distinct transactions and originals never share an archive place |
| Archive.SidecarInjective | src/archive/mod.rs:64-68 | distinct archived files never share a sidecar |
| Archive.PlacesByName | src/archive/mod.rs:50-68 | behind the root comes the transaction in decimal without leading zeros, behind that the original path, and beside a file `x` its sidecar `x.pkgundo-meta.json` |
| Outcomes.ArchivesExactly | src/archive/mod.rs:71-164 | with working calls archiving works exactly for files and links the archive has room for, and then leaves this row and a sidecar with this original path, flag, owner, type and mode, and target |
| Outcomes.StoredInOrder | src/archive/mod.rs:71-164 | whatever fails, an archiving that works leaves row, content and sidecar complete, and one that does not leaves no new row |
| Outcomes.RestoresExactly | src/blob_store/mod.rs:74-114 | and restoring works exactly when there is a blob, nothing but directories above its path, and a file or room for one where the path leads |
| Archive.ArchiveManager.Archive | src/archive/mod.rs:71-164 | content, sidecar and row in the code's order, up to the first failure |
| Archive.ArchiveManager.RestoreOwner | src/archive/mod.rs:269-331 | mode and owner from the sidecar, a link's mode never |
| Archive.ArchiveManager.RecoverEntry | src/archive/mod.rs:181-248 | one row recovered, a link from its sidecar, anything else copied |
| Archive.ArchiveManager.Recover | src/archive/mod.rs:167-251 | every row in turn, and the list of recovered paths |
| Rollback.RollbackEngine.CompareWithCurrent | src/fingerprint/mod.rs:180-216 | the difference to the baseline, unreadable files included |
| Rollback.RollbackEngine.RestoreFromBlob | src/blob_store/mod.rs:74-114 | bytes, then mode and owner, written back, each through a link where one stands |
| Rollback.RollbackEngine.HandleCreated | src/rollback/mod.rs:333-413 | disk and outcome in every mode, for every difference and fault |
| Rollback.RollbackEngine.HandleModified | src/rollback/mod.rs:416-503 | the same for a modified path |
| Rollback.RollbackEngine.HandleDeleted | src/rollback/mod.rs:506-530 | the same for a deleted one |
| Rollback.RollbackEngine.Process | src/rollback/mod.rs:285-330 | policy and operation choose the handler |
| Rollback.RollbackEngine.RemoveEmptyDirsUpTo | src/rollback/mod.rs:639-661 | the climbing loop that removes empty directories below a home |
| Rollback.RollbackEngine.CleanupEmptyAncestors | src/rollback/mod.rs:618-637 | all candidates, each up to its home |
| Rollback.RollbackEngine.Run | src/rollback/mod.rs:184-228 | filter, mutation loop, report and pruning; what these amount to is said by the rows below |
| Outcomes.ReportedExactly | src/rollback/mod.rs:285-530 | in which of the five lists of the report a mutation's path goes, with working calls or in a dry run: a condition on tree and configuration for each |
| Outcomes.ReportGrows | src/rollback/mod.rs:184-217 | each further mutation adds to the lists what it would add to empty ones on the disk the loop has reached |
| Outcomes.ReportIsTrue | src/rollback/mod.rs:333-530 | what each list says was done: a removed file is gone without a row, an archived one has this row and, where it was to go, is gone, a failed one is as it was, a skipped one untouched |
| Outcomes.UnreadableIsSkipped | src/fingerprint/mod.rs:180-216 | a file with a fingerprint that cannot be read is left alone and reported as skipped |
| PrunedRuns.DirectoriesGoExactly | src/rollback/mod.rs:218-228 | a whole rollback of a tracked application takes a directory strictly below a home exactly when no file or link is left in it at any depth and every directory at or below it that was empty before is a path some mutation acts on, in whatever order |
| PrunedRuns.NothingEmptiedStays | src/rollback/mod.rs:218-228 | so no directory strictly below a home that a cleanup emptied stays, in any configuration |
| PrunedRuns.OnlyListedOrPrunedGoes | src/rollback/mod.rs:225-228 | whatever fails, an entry goes only as a recorded path or, in a home cleanup that is no dry run, as a directory strictly below a home |
| NeverDelete.NeverDeletesExactly | src/rollback/mod.rs:285-530 | in every configuration, for mutations outside the archive: from every tree without a name clash and without a link in the archive, under every fault script and after any number of mutations every file and link is unchanged at its path or completely archived, exactly when no mutation of the list is destructive |
| NeverDelete.DestructiveLoses | src/rollback/mod.rs:285-530 | the tree and the script that show it, for any destructive mutation anywhere in a list |
| NoLoss.NoLossAtAnyPoint | src/rollback/mod.rs:366-372 | the other half: a list that archives first loses nothing at any point under any faults, a tracked application's among them |
| NoLoss.StepIsSafe | src/rollback/mod.rs:285-530 | one mutation that archives first keeps every file and link in place or archived, in every mode, for every difference and fault |
| NoLoss.NothingIsLost | src/archive/mod.rs:87-156 | the loop invariant behind it: besides, nothing new or altered outside the archive |
| RoundTrip.RollbackThenRecover | src/archive/mod.rs:167-251 | rollback, pruning and recovery together are the identity on files and links: bytes, mode bits, owners, targets |
| RoundTrip.RowRecovers | src/archive/mod.rs:181-248 | one archived path comes back as it was and nothing else changes |
| TornCopy.FailedRemovalLeavesBoth | src/rollback/mod.rs:366-385 | a complete archiving whose removal fails leaves the file both in place and in the archive |
| TornCopy.RecoveryOverwritesIntact | src/archive/mod.rs:181-248 | recovery puts a damaged archive over the intact file or link it was made of |
| FaultyRoundTrip.SurvivesFaultsExactly | src/archive/mod.rs:87-251 | rollback under every fault script, then recovery, is the identity on files and links exactly when the list acts at most once on each of them that has room in the archive |
| FaultyRoundTrip.ActingOnceSurvivesFaults | src/rollback/mod.rs:366-385 | acting once is enough, whatever fails and wherever |
| FaultyRoundTrip.LosingScript | src/db/mod.rs:59 | for any two mutations acting on one file or link with room in the archive, a script under which a whole rollback and recovery lose it |
| Recovery.RowRebuilds | src/archive/mod.rs:181-331 | what one row gives back, whatever document stands as its sidecar: content, mode, owner or target |
| Recovery.ComesBackExactly | src/archive/mod.rs:181-248 | with working calls a row is listed as recovered exactly when its sidecar says it was a link or its archived file is there, with only directories above its path and at it nothing or a regular file |
| Recovery.RecoveredGrows | src/archive/mod.rs:167-251 | each further row adds to the list what it would alone on the disk reached so far |
| ArchiveLedger.LoopIsItsLedger | src/archive/mod.rs:71-164 | a tracked application's rollback loop does with its archive as the ledger says: which directories, contents and sidecars it writes there, and which paths it takes away |
| SidecarClash.RoundTripDecided | src/archive/mod.rs:56-68 | for every tree and list, nested or not: everything comes back exactly when each sidecar document or content that the ledger finds written over another one serves both paths |
| SidecarClash.RoundTripExactly | src/archive/mod.rs:56-68 | for a tree of a given shape all contents come back exactly when the ledger, which looks at no content, finds nothing written over another path's place |
| SidecarClash.UnnestedClashes | src/archive/mod.rs:56-68 | without nesting: that is when no archived file is named like another one's sidecar, and otherwise the one archived later has to serve both |
| SidecarClash.ClashLoses | src/archive/mod.rs:56-68 | such a clash with a file holding some other link's sidecar document loses one of the two |
| Pruning.PruningIsExact | src/rollback/mod.rs:618-661 | a directory goes exactly when it is strictly below a home, holds no file at any depth and every empty directory in it was a candidate |
| Pruning.PruningIsSafe | src/rollback/mod.rs:618-661 | files, links, homes and directories holding something stay, whatever fails |
| Pruning.EmptyAfterwards | src/rollback/mod.rs:618-637 | a directory empty afterwards was empty before and was no removed path's parent, parents being visited first notwithstanding |
| Limits.DestroysExactlyWhen | src/rollback/mod.rs:333-530 | one step with working calls loses the content of a file or link exactly when it is not archived and either it is the step's own path and the stated guard holds, or a blob with other bytes is restored at a link that leads to it |
| Limits.TrackedAppNeverDestroys | src/rollback/mod.rs:338-385 | neither guard ever holds for a tracked application |
| StepFrames.StepKeepsOthersExactly | src/blob_store/mod.rs:74-114 | in every configuration: a mutation leaves every other file and link outside the archive alone under every fault script exactly when it restores no blob at a link that leads to another file |
| StepFrames.StepKeepsOthers | src/rollback/mod.rs:285-330 | one half, under the faults at hand, and that it makes no link |
| StepFrames.StepKeepsLeaf | src/blob_store/mod.rs:85-114 | and else nothing but the file that link leads to |
| StepFrames.StepKeepsLinks | src/archive/mod.rs:87-156 | no mutation makes a link, in the archive or elsewhere |
| Limits.KeptGroupsExactly | src/rollback/mod.rs:188-228 | a file or link of a group that was not selected comes out of loop and pruning unchanged under every fault script exactly when no selected blob is restored at a link that leads to it |
| Limits.KeptGroupsAreUntouched | src/rollback/mod.rs:188-228 | one half, under the faults at hand |
| Limits.TrackedAppKeepsGroups | src/commands/track.rs:72-92 | a tracked application's rollback leaves every file of a group that was not selected alone |
| Limits.KeptGroupOverwritten | src/blob_store/mod.rs:85-114 | the other: the script under which that link's blob is left torn in the kept file |
| Limits.ReviewDecides | src/rollback/mod.rs:674-682 | every reviewable mutation is listed in a group, and passes the filter exactly when that group was selected |
| Preview.DryRunPredicts | src/rollback/mod.rs:338-385 | a dry run changes nothing, and reports the same set of paths as the real run exactly when no target is nested below another one's sidecar name and nothing in the archive stands in the way |
| Preview.NestedListMispredicts | src/rollback/mod.rs:338-385 | a list of two files, one below a directory named like the other's sidecar, for which they differ |
| BaselineRuns.BaselineIsRestored | src/rollback/mod.rs:416-530 | in every mode, for every list: what stands at a path with a baseline in the end, and that it is the blob's bytes, mode and owner exactly when the last mutation restoring it, or writing another blob into it through a link, leaves those |
| BaselineRuns.ReplacedVersionIsArchived | src/rollback/mod.rs:470-494 | for every list: the archive holds exactly the version found by the last modification that archived one, or what it held before |
| BaselineRuns.RestoredWhenLast | src/rollback/mod.rs:416-530 | so the path is restored when after its last modification or deletion no mutation is of a path whose links lead to it |
| BaselineRuns.FoundVersionIsArchived | src/rollback/mod.rs:470-494 | and the version found is archived, outside nuclear mode, when it is only modified and no links of mutated paths lead to it |
| LinkedBaseline.RestoredExactly | src/blob_store/mod.rs:74-114 | for a list of two this can be told before the rollback: the first path stays restored exactly when the second one's blob is not written into it through a link, or is the same |
| LinkedBaseline.ReplacedExactly | src/rollback/mod.rs:470-494 | and in the other order the version found is in the archive exactly when that blob was not written over it, or left it as it was |
| LinkedBaseline.ALinkSpoilsAnother | src/blob_store/mod.rs:85 | two installed files, one replaced by a link to the other, for which each order fails in one of the two ways |
| LinkedBaseline.TheOtherOrderRestores | src/rollback/mod.rs:184-228 | on that machine the link's mutation first and the file's last restores the file |
| Review.GroupKeyIdempotent | src/rollback/review.rs:81-107 | a group key is strictly below the home, above its paths, and its own group key |
| Review.GroupMutations | src/rollback/review.rs:138-162 | a partition of the reviewable paths, as a multiset, under strictly increasing keys |
| GroupContents.GroupedExactly | src/rollback/review.rs:81-151 | a path is shown under a key exactly when a record of it, other than of its old name in a rename, is strictly below a home and is cut to that key: two components behind the home, three behind `.local/share` and `.local/state` |
| GroupContents.PathsInOrder | src/rollback/review.rs:138-162 | a group holds the path of each of its records once, in recording order |
| GroupContents.GroupTagged | src/rollback/review.rs:46-160 | a group has the tag of the first component of its key behind the home that is, but for dots and case, `cache`, `log`, `logs`, `state`, `tmp` or `temp`; without one it is data, and then alone keeping it is suggested |
| Ordering.PathLessByDifference | src/rollback/review.rs:141-151 | the order of the keys: a path above another one comes first, else the first component in which they differ decides by its first different character |
| Review.GroupingHasDistinctKeys | src/rollback/review.rs:141-151 | so no two groups share a key |
| ReviewLoop.ReviewGroups | src/rollback/review.rs:191-282 | with distinct keys the flag-driven loop selects what the recursive specification selects |
| ReviewLoop.CodeDecidesExactly | src/rollback/review.rs:226-262 | finding "this group and all behind it" by key decides every input as it should exactly when whatever stands between two groups with one key and goes by default goes again at or behind the second |
| ReviewLoop.CodeDecides | src/rollback/review.rs:226-262 | group by group, under that condition, which distinct keys meet |
| ReviewLoop.LettersDecide | src/rollback/review.rs:175-277 | at a group, a line that is one letter in either case with white space around it: `r` selects it, `k` does not, `a` selects it and all that follow, `s` none of them; an empty one takes the suggestion, and `l` and everything else leave the group to the next line |
| ReviewLoop.EndTakesSuggestions | src/rollback/review.rs:226-243 | at end of input exactly the groups whose removal is suggested are selected |
| ReviewLoop.ListingIsInert | src/rollback/review.rs:267-277 | a line that lists or is none of the letters changes nothing, wherever it comes |
| ReviewLoop.RemoveRestIsRemoveEach | src/rollback/review.rs:258-262 | a line with `a` equals one with `r` for this and all remaining groups |
| ReviewLoop.KeepRestIsKeepEach | src/rollback/review.rs:263-266 | a line with `s` equals one with `k` for this and all remaining groups |
| ReviewLoop.EndOfInputIsEnter | src/rollback/review.rs:226-243 | end of input anywhere equals an empty line for all remaining groups |
| ReviewLoop.SelectsShownGroups | src/rollback/review.rs:191-282 | nothing is selected that was not shown |
| Classifier.NeverTouchIsHome | src/classifier/mod.rs:36-170 | "never touch" covers exactly the home directories, by component |
| Classifier.IgnoredExactly | src/classifier/mod.rs:36-170 | a rollback ignores exactly names in `/var/lib` that begin with `pacman`, `dpkg`, `rpm` or `dnf`, and what is below `/run`, `/var/run` and `/var/log` unless its text contains `font`, `mime` or the icon cache or ends in `.cache` |
| Classifier.LinkCheckNeverMatters | src/classifier/mod.rs:36-170 | the symbolic-link test never changes the action for a path |

## Left out

- Raw system calls, `/proc` and passwd reads, and the clock: their answers are parameters of the steps.
- SQLite itself, write-ahead-log checkpoints and read-only readers: tables are maps and sequences with the unique keys of the schema.
- SHA-256: a hash stands for its content; sidecar hashes and timestamps, and the JSON text of a sidecar, are not modelled (a file's content either is a sidecar document or it is bytes).
- Links to directories in the middle of a path, special files, path normalisation: a link's target is resolved by its text, so `..` behind a missing directory or a linked one goes up where the kernel would fail or go elsewhere. Comparing, archiving and reading a sidecar look at the path itself, as the code does for links; a sidecar that is a link counts as none.
- Kernel side effects of chown on mode bits: owner and mode are independent.
- Mode and owner of directories: pruned directories come back with default ones, so the round trip is about files and links.
- Upper and lower case beyond ASCII, and file names that are not text, in the review and the classifier.
- Package-manager delegation, services, users and groups, the broken-link scan, printing and reports as text.
- The inotify fallback, the monitor of `pkgundo run`, package snapshots and hooks, btrfs proxy mounts, IPC encoding: no further hard property.
- Database failures while a fingerprint is looked up, and writes to the process-tree table.
- The capture protocol reads `/proc` and resolves handles in single steps with arbitrary answers, and lets a stopped collector go on listing, where the code stops it at its next wait. A restart of the daemon is a step only before the first launch, since it ends every launch.
- RoundTrip.RollbackThenRecover: is for calls that work; `FaultyRoundTrip.SurvivesFaultsExactly` is for calls that fail.
- SidecarClash.RoundTripDecided: is for a first rollback of the transaction by a tracked application with working calls and no link in its archive.
- FaultyRoundTrip.SurvivesFaultsExactly: is for calls of the rollback that fail; the recovery after it has working calls.
- NoLoss.NoLossAtAnyPoint: requires that no link stands in the archive, and that no archived file is named like another one's sidecar; `SidecarClash.ClashLoses` shows what such a clash costs.
- CaptureResources.AlwaysBalance: is stated for working calls; `MutationCapture.StartBalances`, `StopBalances` and `StopAfterFailedStart` say exactly what each failing call does.
- Limits.KeptGroupsExactly: needs the way to the archive to be free of files and no mutation inside the archive, or that every link it matters for can be archived; `Limits.KeptGroupsAreUntouched` needs neither.
- BaselineRuns.BaselineIsRestored: is for working calls, and for lists whose other paths and links are not above, below or in the archive place of the path; the links may lead to the path itself.
- Limits.DestroysExactlyWhen: is for one step with working calls, and, of a file with a row in the archive, for steps on paths whose sidecar does not have its name; `NeverDelete.NeverDeletesExactly` is for whole runs under every fault script.
