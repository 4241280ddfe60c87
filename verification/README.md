# A model of the PowerScale CSI driver

This project models the parts of the PowerScale CSI driver in which several steps, several calls or several
goroutines have to agree, and proves what they promise together.

| Module | What it models |
|---|---|
| `Strings`, `Paths` | Go's `strings.Split`, `strings.Index`, `strings.TrimSpace`, `strconv.Atoi`, `path.Clean`, `path.Join`, `path.Dir`, and the driver's path helpers |
| `Identifiers`, `QuotaTag` | volume, snapshot and node identifiers, and the quota tag in an export's description |
| `ResumeFile`, `ResumePieces` | the state file of an interrupted fsGroup change, and what its lines can say about names it does not quote |
| `ChownTree`, `ChownPipeline`, `ChownTheorems`, `ChownNames`, `ChownLostPath` | the recursive fsGroup change on a node: the sequential walk, and the walker, worker pool, state writer and main routine of the parallel one; when a resumed attempt may trust the state file, and a history in which it should not |
| `Locking` | the reference-counted lock provider of the CreateVolume interceptor |
| `SnapshotTracking`, `SnapshotPaths` | read-only volumes made from snapshots, their tracking directory and its deletion marker, and how its place is computed |
| `QuotaThresholds` | quota thresholds through create, modify and expand, in 64-bit arithmetic |
| `Replication` | SyncIQ replication actions that may stop at any array call, and the classifier of the link state |
| `VolumeLifecycle`, `LifecycleTheorems` | CreateVolume and DeleteVolume in export-backed and directory-backed mode |
| `ListVolumes`, `ListingTheorems` | the path index and worker pool of ListVolumes |
| `ClientCache` | the cache of the network identifier that the array accepts for a node |

Two conventions hold throughout. An array **read** is truthful: a query is a predicate that its answer satisfies
(`ExportQuery`, `QuotaQuery`), so that an answer may be any matching record. An array **write** has a fate: a
parameter says whether it succeeds, so every theorem about all fates is about every pattern of failures. Code that
changes things step by step is a class or a method proved equal to a function on values; concurrent code is a state
machine over its steps, and its theorems are about every run of any length.

## Findings

Some properties one would expect do not hold as they stand. Each has a lemma with the failing input or family, and a
theorem that gives the exact condition.

- The state file does not quote the names it lists. A successful attempt ends as the sequential walk does exactly when
  what the state file made it skip was finished (`ParallelRefinesSequential`). A name with a newline, or one that ends
  in white space, can make a later attempt skip a file that was never changed and report success
  (`NewlineNameLosesPath`, `TrailingSpaceLosesPath`); with two workers or more that is decided by whether a file's
  name, cut at newlines, names another path (`NamesDecide`, `SafeNamesRefine`, `CollidingNameLosesPath`). The text
  itself reads back exactly under the condition of `ResumeFileRoundTrip`.
- A comment at service/node.go:819 says that directories are always re-entered; the code skips a directory that the
  state file names, with all that is below it. The model follows the code.
- A staging directory whose own name looks like a state file is skipped by the sequential walk and not by the
  parallel one (`ParallelRefinesSequential`, `HiddenRootDiffers`).
- Deleting a directory-backed volume works below the first path of the shared export, creating it below the path of
  the storage class; the array is restored exactly when both are the same directory
  (`CreateThenDeleteDirectoryBacked`).
- When the quota cannot be created, the rollback removes the directory even if this call did not make it
  (`FailedDirectoryBackedCreateRestores`).
- With a deletion marker set, the last DeleteVolume is acknowledged although the clean-up may have failed, and is
  never retried once the export is gone (`MarkerCleanupIffWritesSucceed`, `LostCleanupIsNeverRetried`).
- Creating a read-only volume again is refused exactly when quotas are on (`ROCreateIdempotentIff`); a creation whose
  export could not be made never completes (`RORetryCompletesIff`); with quotas on, a second such volume leaves an
  entry that blocks the snapshot (`QuotasBlockTheSnapshot`).
- `pct * size` overflows for large sizes (`PercentExactIffNoOverflow`), and a negative percentage at creation may be
  stored as a negative limit (`NegativePercentEscapes`, exactly when: `CreatedInBoundsIff`, `PercentagesDecide`).
- A reprotect leaves the group where no action gets it out exactly when it deletes the old policy and cannot create
  the new one (`ReprotectLosesPolicyIff`, `NoPolicyIsAbsorbing`). A failback followed by a resume is reported as
  synchronized on a manual schedule exactly when it stopped before putting the schedule back
  (`AbortedFailbackHidesManualSchedule`). A group name cut at 128 characters loses its RPO or carries another one
  (`RpoSurvivesIffNameFits`, `CutRpoReadsInvalid`, `CutMayNameAnotherRpo`).
- The snapshot path of a zone is taken apart correctly exactly when the zone path does not occur again in it
  (`ZoneLayout`).
- The greedy node ID pattern recovers the parts exactly when no later cut is possible (`NodeIdExact`).

## Model

| member | source | states |
|---|---|---|
| `Strings.SplitAfterJoin` | common/utils/identifiers/volume.go:35-71 | splitting joined fields gives the fields back exactly when no separator appears inside a field or across a field's end |
| `Strings.AtoiOfItoa` | common/utils/identifiers/volume.go:38-62 | every 64-bit export number survives being written and parsed |
| `Identifiers.VolumeIdRoundTrip` | common/utils/identifiers/volume.go:35-71 | a four-token volume ID parses back to its fields if and only if name and zone neither hold nor end in part of a separator and the cluster holds none; the mode is then empty |
| `Identifiers.DirectoryVolumeIdRoundTrip` | common/utils/identifiers/volume.go:75-101 | the same for the five-token form, where the cluster must also be safe; the mode is then "directory" |
| `Identifiers.NameEndingInHalfASeparator` | common/utils/identifiers/volume.go:35-71 | a concrete name that ends in half a separator and does not come back |
| `Identifiers.SnapshotIdRoundTrip` | common/utils/identifiers/snapshot.go:31-64 | a snapshot ID parses back to its three fields if and only if identifier and cluster are safe and the zone holds no separator |
| `Identifiers.ParsedNodeIdRebuilds` | common/utils/identifiers/node.go:26-49 | whatever the greedy pattern accepts is rebuilt from its three non-empty groups |
| `Identifiers.NodeIdExact` | common/utils/identifiers/node.go:38-49 | the greedy parse recovers name, FQDN and IP if and only if none is empty, none holds a newline, and neither separator could stand later |
| `Identifiers.NodeIdRoundTrip` | service/node.go:1998 | with host texts for FQDN and IP that is every non-empty, newline-free name, even one with separators in it |
| `Identifiers.DummyHostParses` | common/utils/identifiers/node.go:26-49 | the dummy localhost node ID parses into localhost, localhost and 127.0.0.1 |
| `QuotaTag.QuotaTagRoundTrip` | common/utils/powerscale-fs/powerscale-fs.go:42-71 | the quota ID comes back from an export's description exactly when it is a single line |
| `QuotaTag.TagWrittenOut` | common/utils/powerscale-fs/powerscale-fs.go:42-71 | the tag itself, and that a description without it names no quota |
| `Paths.PathForVolume` | common/utils/powerscale-fs/powerscale-fs.go:74-82 | the volume path is the cleaned base path with the name as last component, for every way of writing the base |
| `Paths.ExportPathRoundTrip` | common/utils/powerscale-fs/powerscale-fs.go:85-115 | base path and name taken from an export path give the same path and name again |
| `Paths.DirOfAbs` | service/isiService.go:1658-1665 | `path.Dir` of a clean path drops exactly the last component |
| `ResumeFile.ResumeFileRoundTrip` | service/node.go:638-654 | reading a written state file gives exactly the recorded set if and only if every path is a non-empty single line and the last does not end in white space |
| `ResumeFile.RecordableSurvives` | service/node.go:693-711 | a file of such paths, read under its own marker while recent, gives back exactly these paths |
| `ResumeFile.NewlinePathMarksAnotherDone` | service/node.go:638-654 | a concrete recorded path with a newline whose file lists another path |
| `ResumePieces.LoadedArePieces` | service/node.go:638-654 | whatever is read back, from any names in any order, is a name, a line of a name, or such a line without trailing white space |
| `ResumePieces.PlainLineIsRead` | service/node.go:693-711 | a line of a recorded name that does not end in white space is read back as a path, in whatever order the names are written |
| `ResumePieces.PieceOfPiece` | service/node.go:638-654 | reading and writing again adds no further pieces |
| `ResumePieces.ForeignFileIsIgnored` | service/node.go:638-654 | a state file that is too old or was written for another group says nothing |
| `ChownTree.ChangeWrittenOut` | service/node.go:553-565 | for every file, bit by bit: the group is set, a symbolic link keeps its mode, a directory gains exactly 0770 and setgid, anything else exactly 0660; a failed step leaves what it did not reach |
| `ChownTree.FinishesFromPartial` | service/node.go:553-565 | finishing a permission change from any half-done state gives exactly those final bits of the original file |
| `ChownTree.StaysPartial` | service/node.go:553-565 | a change that stops anywhere leaves group and mode each old or final, and never undoes a finished one |
| `ChownTree.SequentialChownsVisited` | service/node.go:889-941 | the sequential walk gives every visited path its final state and touches nothing else |
| `ChownTree.SequentialWrittenOut` | service/node.go:889-941 | after the sequential walk every visited path has those bits and every other path is as it was |
| `ChownTree.Mount.ApplySequentialFSGroupChown` | service/node.go:889-941 | the loop computes that walk, bits included; stopped by error or cancellation, every path is untouched, partial or final |
| `ChownPipeline.StepKeepsInv` | service/node.go:682-877 | every step of walker, workers, writer and main routine keeps the invariant, for any names and any state file: no wanted path lost while nothing failed, nothing recorded before it is done, nothing else touched |
| `ChownPipeline.JoinedMeansDone` | service/node.go:860-877 | once walker and workers have ended without error every path the attempt does not skip is final |
| `ChownTheorems.RunKeepsInv` | service/node.go:572-884 | the invariant holds at every moment of every history of attempts, whatever was interrupted |
| `ChownTheorems.SuccessChangesWanted` | service/node.go:638-884 | after any history and with any state file, a successful attempt has made one permission change to every visited path it did not skip and touched nothing else |
| `ChownTheorems.SuccessWrittenOut` | service/node.go:553-565 | bit by bit: every path it did not skip is finished with respect to the original tree, every other path is as it found it |
| `ChownTheorems.ParallelRefinesSequential` | service/node.go:638-884 | it leaves every visited path final, as the sequential walk does, if and only if what it skipped was finished when it began; the sequential walk differs exactly for a root named like a state file with something to change |
| `ChownTheorems.FreshAttemptRefines` | service/node.go:638-654 | an attempt whose state file names no path of the tree refines the sequential walk, whatever the names |
| `ChownTheorems.StaleAttemptRefines` | service/node.go:642-643 | so does an attempt whose state file is too old |
| `ChownTheorems.ReturnReports` | service/node.go:850-878 | the result says what happened, and only a success removes the state file |
| `ChownTheorems.WritesComeInBatches` | service/node.go:732-757 | in every history at most a batch of completed paths is taken between two writes of the state file |
| `ChownNames.ResumeFileSound` | service/node.go:691-757 | at every moment of every history each line of the state file is a piece of a finished file's name; with safe names each path it would skip is a finished file |
| `ChownNames.SafeNamesRefine` | service/node.go:638-884 | if no file's name, cut at newlines and right-trimmed, names another path, every history refines the sequential walk |
| `ChownNames.PlainNamesAreSafe` | service/node.go:693-711 | names of one line that do not end in white space are safe |
| `ChownLostPath.CollidingNameLosesPath` | service/node.go:691-829 | if recording a file is read as recording another path, some history with two workers ends in success with that path unchanged, for any tree and batch size |
| `ChownLostPath.NamesDecide` | service/node.go:638-884 | with two workers, on trees where every path has something to change and no line of a name ends in white space: every history refines the sequential walk if and only if names are safe |
| `ChownLostPath.NewlineNameLosesPath` | service/node.go:693-711 | the files "a" and "a", newline, "b": a history that ends in success with "a" unchanged, in whatever order names are written |
| `ChownLostPath.TrailingSpaceLosesPath` | service/node.go:640 | the files "a" and "a", blank: a history that ends in success with "a" unchanged, names written in sorted order |
| `ChownTheorems.StepBurnsFuel` | service/node.go:682-877 | every step, cancellation and timeout included, lowers one measure |
| `ChownTheorems.AttemptIsBounded` | service/node.go:682-877 | an attempt takes at most ten steps per tree entry plus the pool size plus eight, however it ends |
| `ChownTheorems.NoDeadlock` | service/node.go:682-877 | no reachable state before the return is stuck, for every finite tree, any names and at least one worker |
| `ChownTheorems.EveryRunProgresses` | service/node.go:682-877 | a history can take no further step exactly when its attempt has returned |
| `ChownTheorems.EveryAttemptCanSucceed` | service/node.go:682-884 | from every start, with any state file, some run without failures ends in success |
| `ChownTheorems.HiddenRootDiffers` | service/node.go:802-817 | a root named like a state file: the parallel walk succeeds and changes it, the sequential one leaves it |
| `Locking.LockProvider.GetLockWithID` | service/interceptor/interceptor.go:104-126 | the open handle shares the entry of its key and counts one more reference; other keys are untouched |
| `Locking.LockProvider.TryLock` | service/interceptor/interceptor.go:76-103 | succeeds exactly when the entry is free and then holds it |
| `Locking.LockProvider.Unlock` | service/interceptor/interceptor.go:76-103 | frees the handle's entry and nothing else |
| `Locking.LockProvider.Close` | service/interceptor/interceptor.go:86-103 | drops one reference and evicts the entry with the last one |
| `Locking.StepKeepsInv` | service/interceptor/interceptor.go:76-126 | every step of any caller keeps sharing, exact counts and exclusion |
| `Locking.RunKeepsInv` | service/interceptor/interceptor.go:240-281 | hence they hold in every interleaving of any number of calls |
| `Locking.OneHandlerPerName` | service/interceptor/interceptor.go:240-281 | at most one handler per volume name runs at any time |
| `Locking.HandlesShareOneEntry` | service/interceptor/interceptor.go:104-126 | all open handles of a name share the entry in the map, whose count is their number |
| `Locking.EvictedEntryIsFree` | service/interceptor/interceptor.go:86-103 | an entry the map no longer has is not held |
| `Locking.MapEmptiesWhenIdle` | service/interceptor/interceptor.go:86-103 | once every call has finished the map is empty |
| `Locking.RejectedOnlyIfBusy` | service/interceptor/interceptor.go:240-281 | a call is turned away exactly when another one for the name is being served |
| `SnapshotTracking.Controller.FindExport` | service/isiService.go:1502-1512 | the answer is an export of the path, or there is none |
| `SnapshotTracking.Controller.CreateROVolume` | service/controller.go:712-779 | creation writes directory, entry and export one after the other and stops where a write fails or the new export is not seen |
| `SnapshotTracking.Controller.DeleteROVolume` | service/controller.go:1823-1896 | deletion removes the entry, then cleans up only at the counts that mean unused |
| `SnapshotTracking.Controller.DeleteSourceSnapshot` | service/controller.go:3733-3814 | the snapshot goes at once when unused and is only marked otherwise |
| `SnapshotTracking.DirectoryStaysBusy` | service/controller.go:1854-1893 | a directory that still has a volume entry never shows a count that triggers a clean-up |
| `SnapshotTracking.StepKeepsInv` | service/controller.go:1823-1896 | every call with any pattern of failed writes keeps entries, exports and snapshots of live volumes |
| `SnapshotTracking.RunKeepsInv` | service/controller.go:712-779 | so does every run of calls |
| `SnapshotTracking.LiveVolumesKeepTheirSnapshot` | service/controller.go:3733-3814 | in every run an acknowledged and not yet deleted volume has its entry, its export and its snapshot, and is the only one on that snapshot |
| `SnapshotTracking.FreshArrayIsSafe` | service/controller.go:712-779 | an array without tracking state satisfies the invariant |
| `SnapshotTracking.DeletionOrdersAgree` | service/controller.go:1854-1893 | volume first or snapshot first, both are gone with export and tracking directory, and nothing else changed |
| `SnapshotTracking.MarkerCleanupIffWritesSucceed` | service/controller.go:1854-1893 | with the marker set, the call is acknowledged with the entry's removal, and the clean-up is complete exactly when the other writes succeed |
| `SnapshotTracking.LostCleanupIsNeverRetried` | service/controller.go:1823-1896 | a snapshot left behind once the export is gone stays: repeating DeleteVolume does nothing |
| `SnapshotTracking.DeleteSnapshotExact` | service/controller.go:3733-3814 | for every state and every pattern of writes: exactly when the snapshot is gone, exactly when the call is acknowledged (then it is gone or marked), and what happens to exports and tracking directories |
| `SnapshotTracking.DeleteVolumeExact` | service/controller.go:1848-1895 | the same for deleting a read-only volume: entry, directory, export and snapshot |
| `SnapshotTracking.CreateVolumeExact` | service/controller.go:722-779 | the same for creating one: exactly when it succeeds, with which export, and what it leaves |
| `SnapshotTracking.ROCreateIdempotentIff` | service/controller.go:783-862 | repeating a successful read-only creation changes nothing, and returns the same export exactly when quotas are off |
| `SnapshotTracking.RORetryCompletesIff` | service/controller.go:712-779 | exactly when a failed read-only creation completes on retry: never after its entry was made and its export was not |
| `SnapshotTracking.QuotasBlockTheSnapshot` | service/controller.go:850-862 | with quotas on, a second read-only volume on an exported snapshot is refused and leaves an entry that blocks the snapshot |
| `SnapshotPaths.SystemLayout` | service/isiService.go:1568-1599 | in the System layout a snapshot path yields the source's parent, the snapshot and the volume name |
| `SnapshotPaths.ZoneLayout` | service/isiService.go:1568-1599 | in the zone layout it does exactly when the zone path does not occur again in the rest |
| `SnapshotPaths.SameTrackingDirectory` | service/controller.go:1837-1845 | creation and deletion compute the same tracking directory, beside the source volume |
| `SnapshotPaths.SnapshotPathIsRecognised` | service/isiService.go:1535-1547 | every such path is recognised as one of a snapshot |
| `SnapshotPaths.SystemPathIsOfSnapshotIff` | service/isiService.go:1535-1547 | in System a path is one of a snapshot if and only if the component below /ifs begins with ".snapshot" |
| `SnapshotPaths.ZonePathIsOfSnapshotIff` | service/isiService.go:1535-1547 | in other zones if and only if some component does |
| `SnapshotPaths.TrackingDirsDiffer` | service/isiService.go:1597-1599 | different snapshots have different tracking directories |
| `QuotaThresholds.CreateQuota` | service/isiService.go:623-691 | the thresholds sent to the array, for every combination of texts, and when the call refuses |
| `QuotaThresholds.ValidateParams` | service/controller.go:4076-4099 | the parameters are accepted exactly when every key is known and every value is a non-negative number |
| `QuotaThresholds.ConvertInOrder` | service/controller.go:4235-4256 | the conversion of the parameters does not depend on the order in which the map is ranged over |
| `QuotaThresholds.PercentExactIffNoOverflow` | service/isiService.go:636-668 | a percentage is exact if and only if the product fits into 64 bits |
| `QuotaThresholds.OverflowGoesNegative` | service/isiService.go:636-668 | a concrete size for which half of it is negative |
| `QuotaThresholds.CreatedExactly` | service/isiService.go:623-691 | what creation stores for percentages from 0 to 100 and sizes whose percentages do not overflow, in plain integers: soft, advisory, hard and grace |
| `QuotaThresholds.CreatedInBounds` | service/isiService.go:623-691 | with percentages from 0 to 100 the limits of a created quota are non-negative and below the hard limit, and a soft limit has a grace period |
| `QuotaThresholds.CreatedInBoundsIff` | service/isiService.go:623-691 | for all texts and sizes, a created quota is in bounds if and only if both limits are reset or neither stored one is negative |
| `QuotaThresholds.PercentagesDecide` | service/isiService.go:634-668 | without overflow the same condition in terms of the percentages and the grace period |
| `QuotaThresholds.ModifiedExactly` | service/controller.go:4235-4285 | for hard limits whose percentages do not overflow: exactly which requests are accepted, and each threshold in terms of the request's own texts; what is not named stays |
| `QuotaThresholds.ModifiedInBounds` | service/controller.go:4235-4285 | a modification keeps the hard limit and both limits within it |
| `QuotaThresholds.ExpandedExactly` | service/controller.go:2010-2022 | the thresholds of a quota in bounds after an expansion to any size, in plain integers |
| `QuotaThresholds.ExpandedInBounds` | service/controller.go:2005-2024 | for every requested size an expansion does not overflow, keeps the limits within the new hard limit and raises no ratio |
| `QuotaThresholds.ThresholdsStayInBounds` | service/controller.go:2005-2024 | over every run of create, modify and expand the limits stay between zero and the hard limit, which never shrinks |
| `QuotaThresholds.RatioNeverRises` | service/controller.go:2005-2024 | over every run of expansions the limit-to-hard ratios never rise |
| `QuotaThresholds.NegativePercentEscapes` | service/isiService.go:636-668 | a negative percentage at creation is stored as a negative limit |
| `Replication.Driver.RunFailover` | service/replication.go:744-774 | the sequence of calls with its early returns |
| `Replication.Driver.RunReprotect` | service/replication.go:792-838 | the sequence of calls with its early returns |
| `Replication.Driver.RunFailbackDiscardRemote` | service/replication.go:934-981 | the sequence of calls with its early returns |
| `Replication.ClassifierTable` | service/replication.go:1066-1093 | the reported state for every combination of records |
| `Replication.ClassifierAgreesFromBothSides` | service/replication.go:1066-1093 | both clusters report the same state for every combination of records, except exactly one |
| `Replication.PerformKeepsPaired` | service/replication.go:744-838 | every action, stopped at any call, leaves at most one policy and a target record only opposite to it |
| `Replication.EveryRunHasAPhase` | service/replication.go:1066-1093 | every run of completed and aborted actions is in one phase, and the classifier on either cluster names it |
| `Replication.FailoverOrder` | service/replication.go:744-774 | target writes are enabled only after a sync and an observed-disabled policy, whatever fails |
| `Replication.FailoverPhase` | service/replication.go:744-774 | the phase in which a failover ends, for every pattern of unanswered calls |
| `Replication.FailoverAnywhere` | service/replication.go:744-774 | the same from every phase with the policy on that cluster |
| `Replication.SuspendPhase` | service/replication.go:998-1016 | suspend from every phase and every pattern of unanswered calls: the policy disabled, nothing else changed, the phase reached, the calls made |
| `Replication.ResumePhase` | service/replication.go:1018-1036 | resume, the same the other way |
| `Replication.SynchronizePhase` | service/replication.go:983-996 | synchronize from every phase: no policy changes, a first job links the group write-disabled |
| `Replication.FailoverUnplannedPhase` | service/replication.go:776-790 | unplanned failover from every phase: writes enabled where it is sent, no policy changed, the phase reached |
| `Replication.WrongClusterDoesNothing` | service/replication.go:744-1036 | actions that work through the policy do nothing on a cluster without one |
| `Replication.FailbackPhase` | service/replication.go:934-981 | the phase in which a failback ends, for every pattern of unanswered calls |
| `Replication.FailbackLinked` | service/replication.go:934-981 | the same, with a valid RPO, for a group that is enabled or suspended |
| `Replication.FailbackUnlinked` | service/replication.go:934-981 | without a target record a failback with a valid RPO never succeeds and leaves the policy disabled if the first call was answered |
| `Replication.FailbackRestoresSchedule` | service/replication.go:934-981 | a completed failback is enabled on the automatic schedule of its RPO and changes nothing else of the policy |
| `Replication.FailoverThenReprotectSwaps` | service/replication.go:744-838 | failover then reprotect exchanges the roles and the paths and enables the other direction |
| `Replication.SwappingTwiceRestores` | service/replication.go:744-838 | doing it twice restores side, paths and delay |
| `Replication.NoPolicyIsAbsorbing` | service/replication.go:744-1036 | without a policy no action on either cluster changes anything |
| `Replication.ReprotectPhase` | service/replication.go:792-838 | the phase in which a reprotect ends, for every pattern of unanswered calls |
| `Replication.ReprotectNeedsFailover` | service/replication.go:792-838 | a reprotect changes nothing unless sent to the cluster the group has failed over to |
| `Replication.RposAreTheirNames` | service/controller.go:118-174 | every RPO name stands for the seconds it says |
| `Replication.ReprotectLosesPolicyIff` | service/replication.go:792-838 | after it no action on either cluster does anything, if and only if the old policy was deleted and the new one not created |
| `Replication.AbortedFailbackHidesManualSchedule` | service/replication.go:934-981 | a failback and an answered resume are reported as synchronized on a manual schedule if and only if the failback stopped right before putting the schedule back |
| `Replication.RpoSurvivesIffNameFits` | service/replication.go:1095-1110 | the RPO in the group name is read back if and only if the name fits into 128 characters or its cut happens to end in the same RPO |
| `Replication.CutRpoReadsInvalid` | service/controller.go:674-677 | a cut that falls into the RPO makes it invalid |
| `Replication.CutMayNameAnotherRpo` | service/controller.go:674-677 | a cut before the RPO may leave another one, whatever was asked |
| `VolumeLifecycle.Controller.CreateQuotaWithRetries` | service/controller.go:984-1012 | up to three attempts: the quota exists if one of them succeeds and nothing changed otherwise |
| `VolumeLifecycle.Controller.ProvisionVolume` | service/controller.go:873-1034 | directory and quota, with the directory removed again when the quota cannot be had |
| `VolumeLifecycle.Controller.AwaitExport` | service/controller.go:1121-1163 | the export is seen exactly when it becomes visible within ten looks |
| `VolumeLifecycle.Controller.ExportVolume` | service/controller.go:1116-1173 | the export with its quota tag and dummy client, or the rollback of quota and directory |
| `VolumeLifecycle.Controller.CreateExportBackedVolume` | service/controller.go:756-871 | export-backed CreateVolume, step by step, for every state of directory and export |
| `VolumeLifecycle.Controller.CreateDirectoryBackedVolume` | service/controller.go:463-515 | directory-backed CreateVolume, step by step, for every state of directory, quota and shared export |
| `VolumeLifecycle.Controller.DeleteExportBackedVolume` | service/controller.go:1672-1714 | quota, then export if it is the only one, then directory |
| `VolumeLifecycle.Controller.DeleteDirectoryBackedVolume` | service/controller.go:1651-1671 | quota found by path, then directory; no export |
| `VolumeLifecycle.Controller.DeleteVolumeByID` | service/controller.go:1592-1760 | DeleteVolume from the volume ID on, every branch |
| `LifecycleTheorems.CreateThenDeleteExportBacked` | service/controller.go:1116-1142 | deleting the ID that CreateVolume returned restores directories, quotas and exports exactly |
| `LifecycleTheorems.CreateThenDeleteDirectoryBacked` | service/controller.go:1651-1671 | the shared export is never touched, and the array is restored exactly when the export's first path is the shared directory |
| `LifecycleTheorems.FailedExportBackedCreateRestores` | service/controller.go:873-951 | a failed creation whose rollback is answered restores the array, except exactly for an export found without its directory |
| `LifecycleTheorems.FailedDirectoryBackedCreateRestores` | service/controller.go:1014-1034 | it restores the array exactly when it had not adopted an existing directory, which is deleted |
| `LifecycleTheorems.CreateIsIdempotent` | service/controller.go:783-862 | after any success the same request returns the same ID and changes nothing; with quotas another size is refused and changes nothing |
| `LifecycleTheorems.DirectoryBackedCreateIsIdempotent` | service/controller.go:819-848 | the same for directory-backed volumes, whose quota is always on: after any success, on a new, an adopted or a complete directory |
| `LifecycleTheorems.RetryCompletesInvisibleExport` | service/controller.go:1116-1173 | a creation whose export stayed invisible completes on retry with the ID of that export |
| `LifecycleTheorems.DeleteIsIdempotent` | service/controller.go:1561-1760 | an acknowledged deletion repeated changes nothing and is acknowledged, in both modes |
| `LifecycleTheorems.AcknowledgedMeansGone` | service/controller.go:1651-1760 | an acknowledged deletion of a driver-made volume leaves no directory, quota or export of its own; where there was a directory, it and all below it go and no other does; a subdirectory's deletion keeps every export |
| `LifecycleTheorems.RefusedDeleteKeeps` | service/controller.go:1651-1760 | a refused deletion keeps every directory, every export unless the only one was removed and the directory could not be, and every quota but the volume's own |
| `LifecycleTheorems.SharedPathIsNotDeleted` | service/controller.go:1707-1714 | a volume whose path has more than one export is refused, with all directories and exports kept |
| `LifecycleTheorems.UnclearedQuotaStopsDelete` | service/controller.go:1651-1684 | if the quota cannot be cleared nothing is touched |
| `LifecycleTheorems.UnknownVolumeIsDeleted` | service/controller.go:1561-1604 | an ID that does not parse or whose export is gone is acknowledged and changes nothing |
| `LifecycleTheorems.ModeTokenDecides` | service/controller.go:1622-1636 | with a mode token only "directory" makes a volume directory-backed, whatever the paths |
| `LifecycleTheorems.NoSubdirectoryIff` | service/isiService.go:1601-1629 | the link count shows no subdirectory exactly when no path is one name longer |
| `LifecycleTheorems.ZonesAreSeparate` | service/isiService.go:1502-1512 | a query by path and zone finds nothing exactly when no export of that zone has the path |
| `LifecycleTheorems.BadSharedPathIsRefused` | service/controller.go:479-488 | a shared path that is not absolute or holds ".." is refused, whatever the array holds |
| `ListVolumes.FirstWhere` | service/controller.go:2648-2660 | the first export that is marked, or none is |
| `ListVolumes.ListedWithFirst` | service/controller.go:2577-2660 | a directory is listed with the first export, in the order of the array, that has its cleaned path and bears a mark, and not at all if and only if there is none |
| `ListVolumes.MarksWrittenOut` | service/controller.go:3892-3919 | the marks: a quota tag, a dummy client, or one of three headers |
| `ListVolumes.EntryIsIdentified` | service/controller.go:2663-2668 | the volume ID of an entry parses back into name, export, zone and cluster, if none of the texts holds the separator and neither name nor zone ends in half of it |
| `ListVolumes.EntryDescribes` | service/controller.go:2669-2693 | the context of an entry, key by key |
| `ListVolumes.DummyHostMeans` | service/controller.go:3921-3960 | the dummy client is recognised exactly by localhost or 127.0.0.1 in any client list |
| `ListVolumes.ExportsByPath` | service/controller.go:2577-2586 | the index has at each cleaned path the exports of that path, in order |
| `ListVolumes.FindCandidates` | service/controller.go:2595-2620 | no directory with something to list is left out, and no two candidates share a slot |
| `ListVolumes.CollectEntries` | service/controller.go:2705-2710 | as many entries as filled slots, each at the place that counts the filled slots before it |
| `ListVolumes.PoolListsSequentially` | service/controller.go:2638-2710 | every schedule of any number of workers fills the slots of one pass in order, and the answer has each directory's entry at the place that counts those before it |
| `ListVolumes.NoCandidatesNothingListed` | service/controller.go:2632-2636 | the early empty answer is right |
| `ListVolumes.SomeoneCanMove` | service/controller.go:2638-2698 | the pool never blocks before every worker has left |
| `ListVolumes.ListingEnds` | service/controller.go:2638-2698 | every schedule ends within two steps per candidate, one per worker and one |
| `ListingTheorems.CreatedVolumeIsListed` | service/controller.go:3892-3919 | a created volume is listed exactly when creation left a quota tag, the dummy client or headers, and then under the ID CreateVolume returned |
| `ListingTheorems.FullPathBelowContainer` | service/controller.go:2600-2607 | a directory reported without a path is looked for below the container |
| `ClientCache.UpdateActsAsMap` | service/isiService.go:986-1020 | the list of one-entry maps behaves as one map, and no node appears twice |
| `ClientCache.NodeClients.UpdateClusterToNodeID` | service/isiService.go:986-1020 | the loop replaces, appends or leaves the entry as that map update does |
| `ClientCache.NodeClients.GetClientToUse` | service/isiService.go:1024-1043 | the loop finds what the map has |
| `ClientCache.NodeClients.AddExportClientNetworkIdentifier` | service/isiService.go:1045-1101 | which identifiers are tried in which order, the outcome, and the new cache |
| `ClientCache.CacheHoldsLastAccepted` | service/isiService.go:1045-1101 | after any sequence of calls the cache holds for each node what the array accepted last, and only its FQDN or IP |
| `ClientCache.FailureTriedBoth` | service/isiService.go:1080-1101 | a call fails exactly when the array refuses both FQDN and IP, and then leaves the cache alone |
| `ClientCache.FqdnIsTriedFirst` | service/isiService.go:1045-1078 | after any run: FQDN first and IP second while nothing was accepted, the IP alone and no caching when ignoring, nothing for a node ID that does not parse |
| `ClientCache.AcceptedIsTriedNext` | service/isiService.go:1063-1078 | what was accepted is tried first the next time |

## Left out

- Strings are sequences of characters; the difference between bytes and characters is not modelled.
- The array client library is not part of this model. Assumed of it: reads are truthful, a failed write changes
  nothing, deleting a directory deletes what is below it, deleting a policy also drops its target record, and a
  policy's first job creates that record write-disabled.
- The fast path that skips the whole fsGroup change when the root already looks right, a change of fsGroup between
  attempts, a kernel that clears mode bits on a change of group, and files that change during the walk.
- Concurrent calls on one snapshot or one volume: the tracking and life-cycle theorems take calls one at a time.
- CreateVolume from a content source (copies, clones, writable snapshots), metadata headers on creation,
  cancellation of the request's context, and an export reported with identifier zero.
- ExportWithoutPathIsRefused: an export without paths makes the original fault in DeleteVolume; the model refuses.
- The failback that discards local changes; it is a longer sequence of the same kind as the one modelled.
- The other handlers of the interceptor, its by-name locks and its metadata retriever.
- Paging of ListVolumes and ListSnapshots, and the volume context beyond what ListVolumes reports.
- Adding clients by IP list, root and read-only clients, and removing clients.
- The sync.Map and the shared backing arrays behind the client cache under concurrent updates.
- Publishing, staging and mounting, mTLS, health monitoring, node labels and probes.
- NamesDecide: trees with lines of names that end in white space are covered in one direction (`SafeNamesRefine`) and
  by a witness, because there the outcome also depends on which name the file lists last.
- CollidingNameLosesPath: needs two workers, because a single worker changes paths in the order of the walk.
- DirectoryBackedCreateIsIdempotent: a quota is taken to be on an existing directory, as the array keeps it.
