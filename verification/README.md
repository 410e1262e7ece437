# A Dafny model of the afs folder sync and its control plane

afs keeps a local folder and a workspace tree in Redis in step. It records a three-way baseline of what
was last synchronised, sends file edits as chunk deltas, saves whole trees strictly, repairs everything
else in recovery passes, and stores checkpoints, sign-in grants and database connections in a control
plane. This project models the parts whose correctness is hard to see and proves what they are for.

Every `.dfy` file is one module; `dfyconfig.toml` lists them all.

| module | what it models |
|---|---|
| `Paths`, `Results`, `Hashing` | paths and their sort orders, optional results, digests and composite hashes |
| `Chunks`, `DeltaSync` | chunk manifests, their diff, and delta download and upload |
| `SavePlan`, `SaveStages`, `SaveEngine`, `SaveMoves` | the strict save: plan, apply, restart, publish, and the drain comparison |
| `RecoveryPlan`, `RecoveryWorld`, `RecoveryFrames`, `RecoveryResults`, `Recovery`, `DirectoryModes` | one recovery pass: what it plans, what every step keeps, the three-way result it leaves, and its temporary directory access |
| `SyncVersions`, `PendingUploads` | the version-guarded baseline and the pending-upload counts, under interleaving |
| `ManifestWalk`, `HistoryWalk` | the two manifest builders and the history walk over the inode graph |
| `Checkpoints`, `CheckpointRuns`, `CheckpointGuards` | the optimistic checkpoint commit and checkpoint deletion, under interleaving: what whole runs do to the blob counts, and when a commit or a deletion goes through |
| `DatabaseLeases`, `ActivityPages` | leased database clients and activity paging, over whole runs |
| `CliLogin`, `LoginRuns` | the CLI sign-in grant, and what any run of it promises |

Objects the program updates in place are classes, or single records that methods replace; loops are
loops with invariants; steps of concurrent workers are the steps of a state machine whose runs are all
finite interleavings. Iteration over a Go map is a loop that picks any remaining element.

## What is assumed

- A hash is a parameter `sha`. `Hashing.Ideal` says that it is injective and that digests are non-empty
  and contain no comma. Modules that never look inside a hash hold the bytes it stands for.
- The Redis client is modelled by its effect on a tree: creating missing parents, refusing to remove a
  directory with children, and failing at any call an oracle names, before or after its effect.
- `Recovery` assumes that bytes change only together with their recorded time (`RecoveryPlan.TimesReveal`),
  that recorded times are not 0 (`RecoveryPlan.TimesKnown`), that conflict-copy names are new, and that
  nobody else writes during the pass. Which step fails, before or after its effect, what a removal that
  fails halfway leaves, what time a new file gets, and in which order workers take files up is arbitrary.
- `SyncVersions` starts from a counter above 0 and above every stored version, so it does not cover the
  entries a cold start writes without a version.
- `ManifestWalk` needs an acyclic inode graph for the recursive walk to end; `HistoryWalk` does not.
- Times, random identifiers, oracles for failing calls and the outcome of saving a profile are parameters.

## What turned out false

- A delta upload never compares the chunk size of the stored manifest with its own. Whatever the size from
  which files are chunked, it is exact for all longer contents if and only if the two chunk sizes are equal
  (`DeltaSync.ExactIffSizesAgree`, `DeltaSync.MisalignedLosesTail`); `DeltaSync.MisalignedUpload` is a call
  that publishes a file without its last byte. The download compares them. Of one upload, what it publishes
  is the target if and only if the chunks that are not sent are in place on the remote side and the last one
  is sent when the file grows (`DeltaSync.WrittenIsTargetIff`).
- A file holding exactly the comma-separated digests of its baseline passes the baseline comparison, and
  no other file does besides the baseline itself (`DeltaSync.MatchIsBaseline`). To the uploader, a remote
  file whose own comma-separated digests are the recorded bytes also passes for a baseline recorded whole
  (`DeltaSync.RemoteIsBaseline`).
- Deleting a checkpoint does not touch the key a save watches, and it goes by a manifest it read before it
  watches anything. A new workspace can be brought to a state in which a blob is counted twice and named
  once (`CheckpointRuns.RaceIsReachable`), and, by using a name again, to one in which a blob is counted 0
  and still named (`CheckpointRuns.ReuseIsReachable`). Over any run from rest, a count plus what deletions
  took off for others is the number of naming checkpoints plus what commits put back and deletions left
  (`CheckpointRuns.CountsBalance`). It is exact all along if and only if no commit puts back a decrement made
  since its read, and no deletion goes by a manifest other than the stored one in a way that counts for the
  blob (`CheckpointRuns.AlwaysExactIff`); where no name is used again under a pending deletion, it is never
  too small, and exact at the end if and only if there is no such commit
  (`CheckpointRuns.ExactIffNotOverwritten`). Among saves alone it is always exact.
- A refused remote deletion, and a refused upload of a deletion, change an entry recorded since they were
  planned if and only if it is a tombstone (`SyncVersions.UnguardedTouchTombstones`,
  `SyncVersions.NewerTombstoneIsLost`).
- A confirmed remote deletion of a directory compares the version of the directory only. An entry recorded
  since is forgotten if and only if it lies below that directory and the directory's own entry is still the
  planned one (`SyncVersions.NewerEntryForgottenIff`, `SyncVersions.NewerDescendantIsLost`).
- A recorded time of 0 makes a recovery pass overwrite unsynchronised bytes
  (`RecoveryWorld.UnknownTimeLosesBytes`); `RecoveryPlan.OverwritesUnsyncedIff` says exactly when.
- A recovered file whose mode is 0 is never in step: the next pass carries it again. With any other mode
  it is in step (`RecoveryFrames.DownloadedInStep`, `RecoveryFrames.PublishedInStep`).
- A recovery pass does not bring every file in step. One that is on both sides while its record is marked
  deleted is planned for download, unless the metadata match, and the download then skips it; the next pass
  plans the same again, as long as the mark stays (`RecoveryFrames.SkippedIff`, `Recovery.Pass.WarmStart`).
- A local directory planned over an observed remote file changes the mode of that file and records a
  directory (`Recovery.Pass.ExecMkdirRemote`).
- A save whose Mkdir fails after creating the directory, or whose process is lost then, records nothing. The
  retry reports a conflict of its own making if and only if neither the intended mode nor the baseline's is
  the mode Mkdir gives (`SaveStages.RestartConflictsIff`, `SaveEngine.LateMkdirThenRetry`).

## Model

| member | source | states |
|---|---|---|
| `Hashing.CompositeInjective` | cmd/afs/sync_chunk.go:107-114 | equal composite hashes come from equal lists of digests |
| `Chunks.StreamChunkHashes` | cmd/afs/sync_chunk.go:28-57 | the read loop produces the manifest of the file's bytes at the chunk size, and their number |
| `Chunks.UploadChunkHashes` | cmd/afs/sync_uploader.go:396-406 | the in-memory chunker produces the same manifest |
| `Chunks.SyncSaveChunks` | cmd/afs/sync_save_engine.go:550-563 | the manifest of the bytes at the configured or default chunk size, exactly above the configured or default threshold, and none below |
| `Chunks.ChunksNonEmpty` | cmd/afs/sync_chunk.go:28-57 | no chunk is empty, and none exceeds the chunk size |
| `Chunks.CompositeIdentifiesBytes` | cmd/afs/sync_chunk.go:107-114 | at one chunk size composite hashes agree exactly when the bytes agree |
| `Chunks.DiffChunkManifests` | cmd/afs/sync_chunk.go:63-75 | the diff lists exactly the indices whose digest is new or different, in order, and reports truncation exactly when the list shrinks |
| `Chunks.PatchStagedFile` | cmd/afs/sync_downloader.go:303-349 | writing chunks in any order and truncating leaves the overlay of the chunks on the old bytes |
| `Chunks.PublishChunks` | mount/internal/client/publication.go:232-400 | a file is created only from complete chunks; otherwise the client leaves that overlay, cut only when the new size is smaller |
| `Chunks.DeltaEqualsCopy` | cmd/afs/sync_downloader.go:303-349 | for all old and new bytes and one chunk size, overlaying the diffed chunks and truncating gives exactly the new bytes; so does a delta against no manifest, over any bytes |
| `Chunks.DeltaExtent` | mount/internal/client/publication.go:232-400 | a delta that does not shrink the file leaves it exactly as long as the new bytes |
| `DeltaSync.MatchIsBaseline` | cmd/afs/sync_downloader.go:411-428 | exactly two contents pass the baseline comparison: the baseline's bytes and the text of its digests |
| `DeltaSync.ProcessChunkedDownload` | cmd/afs/sync_downloader.go:245-358 | falls back to a whole file exactly when there is no baseline at its chunk size; otherwise it skips exactly when the local file is not the baseline or a fetched chunk is not as planned, turns a missing remote file into a deletion, reports "unchanged" exactly when bytes and mode are the target's already, and else patches; a patched file is the target if and only if the chunks that were not fetched are in place, which holds unless the local file is the text of the baseline's digests |
| `DeltaSync.ReadChunksFromDisk` | cmd/afs/sync_uploader.go:278-300 | chunks are sent exactly when every one still has the digest the plan recorded |
| `DeltaSync.ProcessChunkedUpload` | cmd/afs/sync_uploader.go:230-326 | exactly when it reports presence, a conflict, stale bytes on disk or a refusal; for a baseline of known content, chunked or whole, a present remote file is a conflict exactly when it is neither the target nor passes for that content; otherwise it publishes the overlay of the sent chunks, which is the target if and only if the unsent chunks are in place and the writes end where the target does, and always so when the remote is absent, or is what the manifest describes at that chunk size, or the baseline has no chunks |
| `DeltaSync.WrittenIsTargetIff` | cmd/afs/sync_uploader.go:278-316 | for every old content, manifest and target, what is published is the target if and only if the unsent bytes agree and the last chunk is sent when the file grows |
| `DeltaSync.RemoteIsBaseline` | cmd/afs/sync_uploader.go:230-277 | a remote file gets past the comparison with a baseline exactly when it has the baseline's content, or is the text of its digests, or, for a baseline recorded whole, has digests that read that content |
| `DeltaSync.PublishedIsExact` | cmd/afs/sync_uploader.go:278-316 | whatever a delta may publish is the target bytes, at one chunk size or against no manifest |
| `DeltaSync.ExactIffSizesAgree` | cmd/afs/sync_event_reconciler.go:553-620 | whatever the chunking threshold, a delta upload is exact for all longer contents if and only if the stored and current chunk sizes are equal |
| `DeltaSync.MisalignedLosesTail` | cmd/afs/sync_uploader.go:278-316 | for any two different chunk sizes and any number of full chunks, contents whose last byte is lost |
| `DeltaSync.MisalignedUpload` | cmd/afs/sync_uploader.go:230-326 | for all of these contents a call of the uploader, over the baseline and with the target on disk, that publishes the file without its last byte |
| `SavePlan.EqualEntryIsEqualNode` | cmd/afs/sync_save_engine.go:644-650 | entries compare equal exactly when the nodes have the same kind, bytes, target and mode |
| `SavePlan.CompareSyncSaveTrees` | cmd/afs/sync_save_engine.go:652-668 | accepts exactly trees with the same paths and equal entries |
| `SavePlan.SortPlan` | cmd/afs/sync_save_engine.go:605-616 | keeps both lists and puts children before parents in one and parents before children in the other |
| `SavePlan.PlanSyncSave` | cmd/afs/sync_save_engine.go:569-609 | fails exactly when some remote path conflicts, and then names one; otherwise lists exactly the paths to remove and to write, once each, in safe order |
| `SavePlan.ConflictIff` | cmd/afs/sync_save_engine.go:569-603 | the planner reports a conflict at a path if and only if the nodes clash: Redis has a node that is not the local one, and either there is no local node and the baseline does not record it with kind, mode and content, or its content, or its mode, is neither the local nor the recorded one |
| `SavePlan.NoClashLosesRecorded` | cmd/afs/sync_save_engine.go:565-592 | without a clash only content the baseline records gives way to the local tree, and only nodes recorded with their mode go |
| `SaveStages.RemovedIsClosed` | cmd/afs/sync_save_engine.go:569-609 | whatever lies below a removed path is removed too |
| `SaveStages.RemoveStepSafe` | cmd/afs/sync_save_engine.go:593-616 | no directory is removed while it has children |
| `SaveStages.RemoveStageWellFormed` | cmd/afs/sync_save_engine.go:85-95 | every tree during the removes is prefix-closed |
| `SaveStages.WriteStepSafe` | cmd/afs/sync_save_engine.go:593-616 | nothing is written before its parent exists as a directory, also when kinds change |
| `SaveStages.WriteStageWellFormed` | cmd/afs/sync_save_engine.go:85-95 | every tree during the writes is prefix-closed |
| `SaveStages.PlanReachesLocal` | cmd/afs/sync_save_engine.go:85-95 | the whole plan turns the remote tree into exactly the local tree |
| `SaveStages.RestartConflictsIff` | cmd/afs/sync_save_engine.go:569-609 | from whatever an interrupted apply left, planning again reports a conflict if and only if a directory was created unrecorded with a mode neither intended nor in the baseline |
| `SaveStages.PartialLosesRecorded` | cmd/afs/sync_save_engine.go:85-95 | whatever an interrupted apply left, only content the baseline recorded is gone |
| `SaveStages.UnrecordedCreationConflicts` | cmd/afs/sync_save_mutations.go:30-35 | at a directory that was created although Mkdir failed, a retry is free of conflict if and only if the default mode or the baseline explains the directory |
| `SaveStages.NextSaveHasNoConflict` | cmd/afs/sync_save_engine.go:147-170 | after a save, any later local tree can be planned without conflict |
| `SaveStages.SavedRecords` | cmd/afs/sync_save_engine.go:147-170 | an entry of a saved node records exactly that node's content, and, if made of chunks, a file of the same length that holds their digests |
| `SaveEngine.Engine.Rm` | mount/internal/client/native_core.go:586-625 | removes one node and refuses a directory with children; a fault strikes before or after the effect |
| `SaveEngine.Engine.Mkdir` | mount/internal/client/native_core.go:558-584 | creates a directory and its missing parents, and accepts an existing directory; a late fault leaves it created |
| `SaveEngine.ClientKeepsTree` | mount/internal/client/native_core.go:491-584 | putting a node in place with its missing parents keeps the tree a tree and changes no other node |
| `SaveEngine.Engine.EchoCreate` | mount/internal/client/native_core.go:491-556 | writes bytes and mode together |
| `SaveEngine.Engine.ChmodSyncSaveEntry` | cmd/afs/sync_save_mutations.go:53-60 | changes only the mode of one node |
| `SaveEngine.Engine.FinishSyncSaveCreate` | cmd/afs/sync_save_mutations.go:66-76 | a failed chmod after creation records the created node as the baseline |
| `SaveEngine.Engine.WriteSyncSaveEntry` | cmd/afs/sync_save_mutations.go:20-51 | leaves the wanted node, or after a fault the old one, the wanted one, or the half-made directory, which goes unrecorded exactly when its Mkdir failed late |
| `SaveEngine.Engine.ApplyRemoves` | cmd/afs/sync_save_engine.go:85-89 | runs the removes through the stages of the plan; it stops only at a failing call, at a stage |
| `SaveEngine.Engine.ApplyWrites` | cmd/afs/sync_save_engine.go:90-95 | runs the writes through the stages of the plan; it stops only at a failing call, and leaves what that write leaves |
| `SaveEngine.Engine.ApplyPlan` | cmd/afs/sync_save_engine.go:85-95 | success leaves exactly the local tree; failure leaves a partial state with at most one unrecorded directory |
| `SaveEngine.Engine.NormalizeChunks` | cmd/afs/sync_save_engine.go:96-129 | afterwards every file's chunk metadata is that of its bytes |
| `SaveEngine.BuildBaseline` | cmd/afs/sync_save_engine.go:147-170 | one entry per saved path describing it, all with different versions |
| `SaveEngine.Engine.PublishBaseline` | cmd/afs/sync_save_engine.go:147-170 | installs a baseline that describes the saved tree, under new versions |
| `SaveEngine.Engine.FinishSave` | cmd/afs/sync_save_engine.go:96-193 | once the nodes are the local ones, verification never fails |
| `SaveEngine.Engine.SaveSyncTree` | cmd/afs/sync_save_engine.go:59-193 | reports a conflict exactly when some node clashes, at such a node, and then changes nothing; it saves exactly when there is none and no call fails, and then the tree is the local one with a matching baseline; however it ends, the only content lost is what the baseline recorded, and a saved tree lacks only nodes that were recorded as they were; an interruption leaves a partial state, in which a directory is unrecorded exactly when the failing write was to create it and its Mkdir failed late |
| `SaveEngine.Engine.SaveWithRetries` | cmd/afs/sync_save_engine.go:59-193 | every attempt but the last was interrupted by a failing call of its own, and giving up means all were; an attempt without a failing call, started free of conflict, saves the local tree; a retry meets a conflict of its own making exactly when an attempt created a directory unrecorded that neither mode excuses |
| `SaveEngine.LateMkdirThenRetry` | mount/internal/client/native_core.go:580-583 | two runs of the save, the first interrupted by a late Mkdir failure, of which the second reports a conflict exactly for a mode other than the default |
| `SaveMoves.MoveSubtree` | cmd/afs/sync_save_moves.go:18-44 | replaying a move renames a whole subtree or is refused because a destination is taken |
| `SaveMoves.RelocateInjective` | cmd/afs/sync_save_moves.go:18-44 | a move sends different paths to different paths |
| `SaveMoves.CompareSyncSaveDrainTrees` | cmd/afs/sync_save_moves.go:11-61 | acceptance means the after tree is the before tree under a bijective renaming made of recorded moves, with moved entries keeping their identity; for moves between separate subtrees it accepts exactly those |
| `RecoveryPlan.OverwritesOnlySynced` | cmd/afs/sync_full_reconciler.go:632-747 | a plain download replaces, and an upload overwrites, only synchronised bytes |
| `RecoveryPlan.OverwritesUnsyncedIff` | cmd/afs/mount_reconcile.go:412-432 | without known times, exactly which metadata makes the plan overwrite unsynchronised bytes |
| `Recovery.DetectOfflineDeletes` | cmd/afs/sync_full_reconciler.go:458-489 | marks exactly the live entries whose file is missing, with new versions, and changes no other record |
| `Recovery.BuildPlan` | cmd/afs/sync_full_reconciler.go:632-747 | the plan has exactly the decided action for every path, whatever the order; the records of agreeing paths are refreshed under new versions and no other changes |
| `RecoveryWorld.PlannedIsSafe` | cmd/afs/sync_recovery_plan.go:95-188 | while a planned path is as observed, its action replaces only synchronised bytes |
| `RecoveryWorld.MoveAsideKeeps` | cmd/afs/sync_conflict.go:104-125 | moving a subtree aside keeps every unsynchronised byte, also of copies inside it |
| `Recovery.Pass.SubtreeChanged` | cmd/afs/sync_conflict.go:129-163 | reports a change exactly when some node of the subtree does not match its baseline |
| `Recovery.Pass.ExecDownload` | cmd/afs/sync_full_reconciler.go:1038-1125 | keeps the pass invariant and every other path it does not sweep; it leaves a path marked deleted alone; otherwise, without a fault or an obstacle both sides and the record then agree on the remote bytes, and planning again finds nothing to do |
| `RecoveryWorld.StageKeeps` | cmd/afs/sync_downloader.go:633-691 | clearing the destination moves a conflicting version aside and nothing else |
| `Recovery.Pass.ExecUpload` | cmd/afs/sync_full_reconciler.go:1208-1298 | keeps the pass invariant and the local tree, and skips files over the size cap; without a fault or an obstacle both sides and the record then agree on the local bytes, and planning again finds nothing to do |
| `Recovery.Pass.ExecMkdirLocal` | cmd/afs/sync_full_reconciler.go:985-1005 | keeps the pass invariant and the remote tree; without a fault or an obstacle the directory then exists with its mode |
| `Recovery.Pass.ExecMkdirRemote` | cmd/afs/sync_full_reconciler.go:1007-1036 | keeps the pass invariant and the local tree; without a fault or a file above it, a directory exists with its mode, but an observed file only gets that mode while a directory is recorded |
| `Recovery.Pass.ExecDeleteLocal` | cmd/afs/sync_remote_delete.go:50-118 | keeps the pass invariant, also when a removal stops halfway; without a fault the path, everything known below it and all their records are gone, and a file that is not the recorded one is in a copy |
| `Recovery.Pass.TakeBack` | cmd/afs/sync_full_reconciler.go:1173-1190 | keeps the remote version; without a fault it is then on both sides and recorded |
| `Recovery.Pass.ExecDeleteRemote` | cmd/afs/sync_full_reconciler.go:1160-1206 | keeps the pass invariant; a matching remote version without children is removed, a file together with its deletion mark; a directory with children stays, and so does a version that does not match, which is then on both sides |
| `Recovery.Pass.ExecuteAction` | cmd/afs/sync_full_reconciler.go:950-983 | every planned action keeps the pass invariant and leaves other paths alone unless it sweeps; without a fault or an obstacle it achieves what its kind is for: a carried path is in step, a deleted one gone, one marked deleted untouched |
| `Recovery.Pass.ExecutePlan` | cmd/afs/sync_full_reconciler.go:806-947 | all three phases keep the invariant, also when workers finish after a failure; a complete pass takes up every action once, directories from the top, deletions from the bottom, then files in some order, and without a fault settles every path of the goal; it completes without a fault when nothing is in the way at the start |
| `Recovery.Pass.WarmStart` | cmd/afs/sync_full_reconciler.go:409-451 | no bytes that differ from their baseline on either side are lost: they stay at their path on some side or in a conflict copy moved from it; both sides stay trees, and a record that differs afterwards has a version issued since; a pass without faults completes if no file lies above a planned path, the sides agree about what is a directory and no remote directory is to be deleted; after a complete one every undisturbed file and directory has its three-way result, stated from the trees and the baseline before the pass |
| `RecoveryResults.Reconciled` | cmd/afs/sync_full_reconciler.go:409-451 | the three-way result: a live file deleted remotely is gone, other bytes than the recorded ones being in a copy; a recorded file deleted locally is gone remotely, and a changed one comes back; a file changed on one side has that side's bytes on both; changed on both it has the remote bytes, and the local ones are in a copy; a new file is on both sides; directories likewise, with their modes and records |
| `RecoveryResults.BothDecided` | cmd/afs/sync_full_reconciler.go:699-735 | for a file both sides have, which side wins, by size, mode and time against the record alone |
| `RecoveryResults.MissingDirectoryPlanned` | cmd/afs/sync_full_reconciler.go:678-697 | a recorded directory that is missing locally is planned for removal on the remote side if and only if nothing below it is new or still there locally |
| `RecoveryFrames.MovedRooted` | cmd/afs/sync_conflict.go:104-125 | moving a subtree aside leaves a tree |
| `RecoveryFrames.SweptRooted` | cmd/afs/sync_remote_delete.go:50-118 | so does a removal, also one that stops halfway |
| `RecoveryFrames.StaysFree` | cmd/afs/sync_full_reconciler.go:806-947 | whatever a pass has done, no file comes to lie above a path that had none above it |
| `RecoveryFrames.SkippedIff` | cmd/afs/sync_full_reconciler.go:1038-1047 | the planned download of a file is skipped if and only if it is on both sides, marked deleted and not matching, and is then planned again as long as nothing changes there |
| `RecoveryFrames.GoalStep` | cmd/afs/sync_full_reconciler.go:806-947 | a step keeps settled what is settled, and keeps the other paths of the goal as they were, unless it sweeps over them |
| `RecoveryFrames.DownloadedInStep` | cmd/afs/sync_full_reconciler.go:1038-1125 | after a download, planning again finds nothing to do if and only if the mode is not 0 |
| `RecoveryFrames.PublishedInStep` | cmd/afs/sync_full_reconciler.go:1208-1298 | after an upload, planning again finds nothing to do if and only if the mode is not 0 |
| `RecoveryFrames.SparesDirectories` | cmd/afs/sync_full_reconciler.go:806-880 | making directories from the top never acts below one that is still to be made |
| `Recovery.PlanningSettles` | cmd/afs/sync_full_reconciler.go:632-747 | planned actions are current when planning ends, and every other path is in step |
| `RecoveryWorld.UnknownTimeLosesBytes` | cmd/afs/mount_reconcile.go:412-432 | with a recorded time of 0 a planned download loses an edited file |
| `DirectoryModes.PreparedIsReachable` | cmd/afs/sync_directory_modes.go:27-62 | every prepared directory is reachable, since its ancestors are prepared too |
| `DirectoryModes.SeenAsBefore` | cmd/afs/sync_directory_modes.go:64-81 | restoring directories that sort later does not change how an earlier one is seen |
| `DirectoryModes.TemporaryModes.Prepare` | cmd/afs/sync_directory_modes.go:27-62 | opened directories stay closed under ancestors and their old modes are recorded; it fails only for a failed mode change or a non-directory on the way |
| `DirectoryModes.TemporaryModes.RestoreDirectory` | cmd/afs/sync_directory_modes.go:85-113 | restores exactly a directory still in the mode it was given, and keeps a marker exactly on failure |
| `DirectoryModes.TemporaryModes.Restore` | cmd/afs/sync_directory_modes.go:64-81 | the ordered restore equals restoring all at once as judged by the tree before it; without failing mode changes only unreachable directories remain |
| `DirectoryModes.RestoringUndoes` | cmd/afs/sync_directory_modes.go:27-113 | if nobody disturbed the prepared directories, restoring gives back the original tree |
| `DirectoryModes.TemporaryModes.PrepareAndRestore` | cmd/afs/sync_full_reconciler.go:806-890 | preparing any directories and restoring leaves the tree as it was, unless a mode change failed |
| `SyncVersions.StampsAreNew` | cmd/afs/sync_state.go:190-194 | over every run the issued versions are consecutive, so none is issued twice |
| `SyncVersions.RunSucceeds` | cmd/afs/sync_state.go:190-194 | over every run an entry that differs from an earlier state carries a version issued since |
| `SyncVersions.GuardedActsOnPlannedEntry` | cmd/afs/sync_recovery_plan.go:190-202 | guarded work takes effect only on the very entry it was planned against, whatever ran in between |
| `SyncVersions.GuardedIsLocal` | cmd/afs/sync_remote_delete.go:50-118 | guarded work leaves other paths alone, except below a deleted directory |
| `SyncVersions.NewerEntryForgottenIff` | cmd/afs/sync_remote_delete.go:50-118 | an entry stamped since planning is changed if and only if it lies below a directory whose deletion is confirmed at the planned version, and is then forgotten |
| `SyncVersions.NewerDescendantIsLost` | cmd/afs/sync_remote_delete.go:50-118 | a run in which a newer file is forgotten with its directory |
| `SyncVersions.UnguardedTouchTombstones` | cmd/afs/sync_full_reconciler.go:1174-1182 | of an entry stamped since planning the two unguarded steps change exactly a tombstone, and guarded work at its path changes none |
| `SyncVersions.NewerTombstoneIsLost` | cmd/afs/sync_event_reconciler.go:1109-1121 | a run in which a newer deletion mark is dropped |
| `SyncVersions.LiveEntryDroppedIff` | cmd/afs/sync_full_reconciler.go:1357-1376 | a live entry is forgotten if and only if a rename away from it completes, the rename that made it is discarded, or a remote deletion of it or of a directory above it is confirmed at its planned version; ageing forgets deletion marks only |
| `SyncVersions.StateWriter.StageSyncEntry` | cmd/afs/sync_event_reconciler.go:516-527 | installs the entry under the version it returns |
| `SyncVersions.StateWriter.UpdateActionState` | cmd/afs/sync_recovery_plan.go:190-202 | installs the entry exactly when the planned version is still there |
| `SyncVersions.StateWriter.DiscardPendingRename` | cmd/afs/sync_recovery_plan.go:48-60 | forgets only the provisional entry of that rename |
| `SyncVersions.StateWriter.HandleLocalDelete` | cmd/afs/sync_event_reconciler.go:822-860 | marks a live entry deleted under the version it returns, and repeats nothing |
| `SyncVersions.StateWriter.AcknowledgeDelete` | cmd/afs/sync_event_reconciler.go:1196-1206 | clears only the deletion mark it belongs to |
| `SyncVersions.StateWriter.AcknowledgeChmod` | cmd/afs/sync_event_reconciler.go:1221-1236 | changes the mode only of the directory entry it was queued for |
| `SyncVersions.StateWriter.ConfirmMissing` | cmd/afs/sync_event_reconciler.go:952-972 | restamps only the live entry that was read |
| `SyncVersions.StateWriter.ApplySyncRemoteDelete` | cmd/afs/sync_remote_delete.go:50-118 | forgets the path and everything below it exactly when the planned version is still there |
| `PendingUploads.Reconciler.EnqueueTrackedUpload` | cmd/afs/sync_recovery_plan.go:18-43 | an upload that cannot be queued gives back its counts and asks for a sweep |
| `PendingUploads.Reconciler.DeferScanForPendingUpload` | cmd/afs/sync_recovery_plan.go:62-71 | defers exactly when an upload of the path is pending, and flags it |
| `PendingUploads.Reconciler.FinishPendingUpload` | cmd/afs/sync_recovery_plan.go:73-88 | drops one count, removes an emptied entry, and then asks for a sweep exactly when flagged |
| `PendingUploads.EveryRunKeepsCounts` | cmd/afs/sync_recovery_plan.go:18-88 | under every interleaving a count is the number of unfinished operations naming the path, no count is zero, and no deferred scan is forgotten |
| `PendingUploads.DeferredScansAreSwept` | cmd/afs/sync_event_reconciler.go:1082-1088 | once everything has finished, a sweep was requested after every deferred scan |
| `ManifestWalk.RecursiveWalk.AppendWorkspaceRootManifest` | cmd/afs/workspace_mount_bridge.go:234-299 | the recursive walk fails exactly when some path below is broken, and otherwise records exactly the paths below; reading an entry back gives the inode's kind, mode, time and target, and the file's bytes, from their separate key if they are there |
| `ManifestWalk.BuildManifestFromWorkspaceRoot` | cmd/afs/workspace_mount_bridge.go:39-220 | the level-order builder fails exactly when some content cannot be loaded, and otherwise returns the manifest of the store, from which every file's bytes, every link's target and all metadata can be read back |
| `ManifestWalk.EntryKeeps` | cmd/afs/workspace_mount_bridge.go:140-171 | an entry with the blobs it names keeps what the inode has: inline or as a blob, the bytes read back are the store's |
| `ManifestWalk.CountersCount` | cmd/afs/workspace_mount_bridge.go:146-160 | the counters are the number of files, of directories besides the root, and of all bytes of files |
| `ManifestWalk.TrailIsRecorded` | cmd/afs/workspace_mount_bridge.go:132-171 | whatever a path of ordinary names leads to, from entry to entry, is recorded there unless its type is unknown |
| `ManifestWalk.ManifestUnique` | cmd/afs/workspace_mount_bridge.go:39-299 | a store has only one manifest: entries, blobs and counters |
| `ManifestWalk.WalksAgree` | cmd/afs/workspace_mount_bridge.go:39-299 | when both builders succeed they return the same entries, blobs and counters |
| `HistoryWalk.LiveHistoryStates` | internal/controlplane/history.go:171-212 | ends on every finite graph, succeeds exactly when no inode has two paths, and then returns exactly the files and symlinks some trail of directory entries leads to, each at that path |
| `HistoryWalk.LiveIsTrail` | internal/controlplane/history.go:195-210 | the listed paths are exactly those of trails through directories that end at a file or a symlink |
| `HistoryWalk.MarkBatch` | internal/controlplane/history.go:176-194 | marks a batch, or fails having found an inode with two paths |
| `HistoryWalk.ExpandBatch` | internal/controlplane/history.go:195-210 | lists each marked directory once and collects each leaf once |
| `Checkpoints.ManifestBlobRefs` | internal/controlplane/checkpoint_commit.go:258-267 | lists exactly the blobs a manifest names, each once, with the size of an entry naming it |
| `Checkpoints.CommitKeepsInv` | internal/controlplane/checkpoint_commit.go:91-194 | a commit extends the one linear history and keeps the references and the other open saves valid |
| `Checkpoints.CommitError` | internal/controlplane/checkpoint_commit.go:150-194 | a commit moves the difference between a count and the naming checkpoints by exactly how far the reference fell since the save read it |
| `Checkpoints.RemoveError` | internal/controlplane/service.go:403-465 | a deletion moves it by the difference between the manifest it read and the stored one |
| `Checkpoints.EveryRunKeepsInv` | internal/controlplane/checkpoint_commit.go:91-194 | under every interleaving of the steps of saves and deletions, the history is one chain to a stored head, every named blob has a reference, and what an open save has checked holds for as long as its commit can go through |
| `Checkpoints.ConcurrentSavesAreExact` | internal/controlplane/checkpoint_commit.go:91-194 | under every interleaving of saves each count is the number of checkpoints naming the blob, and the stored parents form one chain to the head |
| `Checkpoints.SavesFromInitialAreExact` | internal/controlplane/service.go:120-140 | saves alone keep every count of a new workspace exact |
| `Checkpoints.DeletionRaceOvercounts` | internal/controlplane/service.go:403-465 | a deletion the guard allows, right before the commit of a save that has read the reference, leaves the blob counted one more than before |
| `Checkpoints.StaleDeletionUndercounts` | internal/controlplane/service.go:403-465 | a deletion by a manifest read before its name was used again counts down a blob the removed checkpoint does not name |
| `CheckpointRuns.CountsBalance` | internal/controlplane/service.go:403-465 | at the end of every run from rest, a count plus the decrements taken for other checkpoints equals the naming checkpoints plus the decrements overwritten or left out |
| `CheckpointRuns.OverwritesIsGain` | internal/controlplane/checkpoint_commit.go:150-194 | a commit leaves a count too high by exactly the decrements of the blob since that save read its reference |
| `CheckpointRuns.AlwaysExactIff` | internal/controlplane/service.go:403-465 | a count is exact at every point of a run from rest if and only if no commit overwrites a decrement, and no deletion goes by a manifest that disagrees with the stored one about the blob while some checkpoint names it |
| `CheckpointRuns.ReusedIff` | internal/controlplane/checkpoint_commit.go:134-139 | the manifest a deletion goes by disagrees with the stored one about a blob exactly when the name was committed again since that read, with contents that differ in the blob |
| `CheckpointRuns.UniqueNamesAreSafe` | internal/controlplane/service.go:215-257 | if no save commits a name that was stored before, no deletion goes by an outdated manifest |
| `CheckpointRuns.RaceIsReachable` | internal/controlplane/service.go:403-465 | a run of a new workspace, through three saves and the deletion of the middle checkpoint, that ends with a blob counted twice and named once |
| `CheckpointRuns.ReuseIsReachable` | internal/controlplane/service.go:403-465 | a run of a new workspace, with no save under way at a deletion, that ends with one blob counted 0 and named and another counted 1 and named by nothing |
| `CheckpointRuns.ExactIffNotOverwritten` | internal/controlplane/service.go:403-465 | over every run from rest in which no deletion goes by an outdated manifest, a count is never too small, and exact at the end if and only if no commit overwrites a decrement made between that save's read of the reference and the commit |
| `CheckpointGuards.ExecIff` | internal/controlplane/checkpoint_commit.go:91-200 | in every run the EXEC of a save commits if and only if since its WATCH the generation, the change stream and the import lock were not written and no save committed; then the new checkpoint is the head, on top of the head the save expected, under a name that was free; otherwise nothing that is stored changes |
| `CheckpointGuards.OnlyExecSaves` | internal/controlplane/checkpoint_commit.go:163-194 | only such an EXEC stores a checkpoint or moves the head |
| `CheckpointGuards.DeletionIff` | internal/controlplane/service.go:417-455 | a deletion removes exactly its checkpoint, unless that is the head, the default or what a restore started from |
| `CheckpointGuards.ProtectedStays` | internal/controlplane/service.go:422-431 | over every run a stored checkpoint stays for as long as one of these protects it |
| `CheckpointGuards.RestoreBaselineStays` | internal/controlplane/service.go:425-431 | over every run what a restore started from stays stored until the restore names another |
| `DatabaseLeases.AllClosedAfterDrain` | internal/controlplane/database_lifecycle.go:189-201 | in a sound book, after shutdown and the last release every client has been closed exactly once |
| `DatabaseLeases.ClosedMeansUnused` | internal/controlplane/database_lifecycle.go:129-146 | no client is closed twice, and a closed one is neither leased nor routable |
| `DatabaseLeases.ReleaseKeeps` | internal/controlplane/database_lifecycle.go:122-136 | a release closes the client exactly when it is retired and this was its last lease |
| `DatabaseLeases.SwapKeeps` | internal/controlplane/database_lifecycle.go:137-146 | replacing a client retires the previous one, which keeps its leases and is closed at once exactly when it has none |
| `DatabaseLeases.RemoveKeeps` | internal/controlplane/server_database_actions.go:10-45 | an unrouted client keeps its leases and is closed at once exactly when it has none |
| `DatabaseLeases.Registry.Acquire` | internal/controlplane/database_lifecycle.go:109-121 | leases the routed client, and none after shutdown |
| `DatabaseLeases.Registry.AcquireDefault` | internal/controlplane/database_lifecycle.go:203-212 | succeeds exactly when open and something is configured, with the default database |
| `DatabaseLeases.Registry.AcquireAll` | internal/controlplane/database_lifecycle.go:147-179 | leases every routable client once and changes no route |
| `DatabaseLeases.Registry.Release` | internal/controlplane/database_lifecycle.go:122-128 | gives one lease back, closes at most that client, exactly when it is retired and unused, and changes no route |
| `DatabaseLeases.Registry.PrepareHandlers` | internal/controlplane/database_lifecycle.go:66-89 | stops exactly at an unacceptable profile; otherwise every profile has its old client if unchanged and a new one if not |
| `DatabaseLeases.Registry.InstallSnapshot` | internal/controlplane/database_lifecycle.go:48-107 | succeeds exactly for a proper snapshot and then routes exactly its databases: unaltered profiles keep their clients, all others get new ones and their connections are recorded, and every lease stays out; a failure changes nothing and closes only the clients made for it |
| `DatabaseLeases.AcceptableIff` | internal/controlplane/database_lifecycle.go:48-89 | a snapshot is accepted if and only if every profile has a plain identifier of its own of at most 128 characters, a revision and a connection, no two share a name or an endpoint, and the default is one of them, or empty if there are none |
| `DatabaseLeases.SmallestId` | internal/controlplane/server_database_actions.go:25-33 | a valid new default that no other identifier precedes |
| `DatabaseLeases.Registry.RemoveDatabase` | internal/controlplane/server_database_actions.go:10-45 | unroutes one database, leaves exactly the other profiles under a new revision, keeps a valid default, the smallest identifier if the old one went, and every lease stays out |
| `DatabaseLeases.Registry.Close` | internal/controlplane/database_lifecycle.go:189-201 | retires everything once; leased clients stay open |
| `DatabaseLeases.Registry.Handle` | internal/controlplane/database_lifecycle.go:48-212 | one call of any kind is answered as its kind says, keeps the book sound, changes the leases by exactly what it grants or returns, and closes rightly |
| `DatabaseLeases.Registry.Serve` | internal/controlplane/database_lifecycle.go:48-212 | over any calls, each answered in turn, what is handed out and given back is exactly what those calls grant and return; a client is closed at most once and never while leased or routed, and after shutdown and the last release every client made has been closed exactly once |
| `DatabaseLeases.LeasesBalance` | internal/controlplane/database_lifecycle.go:109-136 | at every point of a run the outstanding leases are those at its start and the acquires since, minus the releases |
| `ActivityPages.ReadOn` | internal/controlplane/file_history_changes.go:124-129 | reading again from the last message of a prefix gives exactly the rest, in both directions |
| `ActivityPages.ScanBatch` | internal/controlplane/file_history_changes.go:108-123 | scans a batch in order and stops when the page is full |
| `ActivityPages.GetFileHistoryChanges` | internal/controlplane/file_history_changes.go:56-133 | refuses exactly the invalid requests; a page lists the matches of a prefix of what remains, ends the listing only when nothing remains, and is otherwise full or at the scan limit |
| `ActivityPages.ForwardListing` | internal/controlplane/file_history_changes.go:56-133 | oldest first, following cursors lists every match once, including activity appended meanwhile |
| `ActivityPages.NewestFirstListing` | internal/controlplane/file_history_changes.go:56-133 | newest first, it lists every match present when it began, whatever is appended |
| `ActivityPages.ListingIsComplete` | internal/controlplane/file_history_changes.go:56-133 | whenever a listing ends, its pages concatenate to the filtered stream and are at most one more than its messages |
| `ActivityPages.FollowCursors` | internal/controlplane/file_history_changes.go:56-133 | following cursors ends once no more activity arrives, on every stream, and is a listing |
| `ActivityPages.ListActivity` | internal/controlplane/file_history_changes.go:56-133 | page by page a reader gets exactly the activity of the asked path, or renamed from it, and of the asked session, each once and in order: oldest first with what was appended meanwhile, newest first what there was at the start, in at most one page more than messages |
| `ActivityPages.MatchingListsExactly` | internal/controlplane/file_history_changes.go:108-115 | the filtered stream has exactly the rows that are asked for, in reading order |
| `CliLogin.MetadataStore.Start` | internal/controlplane/cli_login.go:261-308 | drops exactly the expired requests and keeps the others as they are, refuses at 256 or for a repeated identifier or device, and otherwise stores a pending one for ten minutes and adds the start of a new grant to the history |
| `CliLogin.MetadataStore.Decide` | internal/controlplane/cli_login.go:322-377 | decides exactly for a valid identity, a live pending request and the right code, stores the approver and the life it can give, and adds exactly that approval or refusal of the grant to the history |
| `CliLogin.MetadataStore.Authority` | internal/controlplane/cli_login.go:313-361 | an approver gives thirty days, or its own remaining life if shorter |
| `CliLogin.MetadataStore.Exchange` | internal/controlplane/cli_login.go:379-462 | goes by the one request of that device; yields a key exactly for an approved, live, unthrottled request and the matching verifier, and adds exactly its issue for the grant to the history; an approval that no longer holds is denied; nothing changes before the verifier matches |
| `CliLogin.MetadataStore.RevokeKey` | internal/controlplane/api_keys_sql.go:102-106 | marks a key revoked for good |
| `CliLogin.OneKeyPerGrant` | internal/controlplane/cli_login.go:379-462 | in a lawful history a grant yields at most one key |
| `CliLogin.EveryKeyWasApproved` | internal/controlplane/cli_login.go:322-462 | in a lawful history each key goes back to the one approval of its grant, answers the S256 challenge (sections 4.2 and 4.6 of RFC 7636), and outlives neither its approver nor thirty days |
| `CliLogin.RevocationIsFinal` | internal/controlplane/cli_login.go:310-321 | in a lawful history no key is issued on the approval of a key revoked before |
| `CliLogin.RequestDecided` | internal/controlplane/cli_login.go:322-377 | a decision by an identity that may decide keeps the rows, the keys and the history sound |
| `CliLogin.KeyIssued` | internal/controlplane/cli_login.go:421-462 | issuing a key on an exchangeable request keeps them sound |
| `LoginRuns.Handle` | internal/controlplane/cli_login.go:261-462 | an effective call adds exactly its own event to the history, and any other adds none |
| `LoginRuns.KeySource` | internal/controlplane/cli_login.go:261-462 | every key handed out goes back to an effective start and an effective approval among the calls |
| `LoginRuns.Serve` | internal/controlplane/cli_login.go:261-462 | over any calls to a new store: every key handed out has its own start, made with the same device code and the challenge of the verifier, and a later approval of that request with the code shown, all within ten minutes; it lives at most thirty days from the approval and no longer than the approving key, which was not revoked before |

## Left out

- Symbolic links in a recovery pass, and read-only mounts: the pass models files and directories of a writable mount.
- Recovery.Pass.WarmStart: paths deferred for pending uploads and the ageing of deletion marks are not part of a pass without other writers. The three-way result is stated for paths below directories both sides have, and for files and deletions with nothing below them; what a complete pass does to a deleted directory with contents, and when a pass that deletes remote directories completes, is not stated.
- Recovery.Pass.ExecUpload: the size cap is a parameter, and the chunked and the whole-file publication are one write. The mode goes with it: the separate change of mode after it, whose failure the program ignores, is not modelled.
- Recovery.Pass.ExecMkdirLocal: a directory created by a full pass may get its mode by way of `DirectoryModes`; the two models are not composed.
- The upload, symlink, mkdir, rename and download acknowledgements install baselines without comparing versions; `SyncVersions` has them as unguarded steps and claims nothing for them.
- SyncVersions.RunSucceeds: cold-start entries are written without a version and are excluded.
- SaveMoves.CompareSyncSaveDrainTrees: the exact acceptance condition is stated for moves between separate subtrees; for overlapping moves only what acceptance implies.
- ActivityPages.ListActivity: requests with since or until bounds are answered page by page, but later pages carry only the cursor; trimming of the stream while it is read is not modelled.
- ActivityPages.GetFileHistoryChanges: decoding a message is a parameter of the message, and a stream identifier is its rank.
- Checkpoints.EveryRunKeepsInv: a deletion is two steps, its read of the manifest and its transaction, whose own reads are watched; a failed attempt may be repeated. The runs are those between restores: a restore, which also moves the head back to an older checkpoint, is represented only by the baseline that deletion refuses.
- DatabaseLeases.Registry.InstallSnapshot: connecting, naming and endpoint comparison are functions of the profiles; adding and editing one database, which use the same swap, are not separate methods.
- CliLogin.MetadataStore.Start: identifiers and codes are parameters, and a repeated one fails like the unique column does.
- CLI parsing, HTTP routing, configuration files, the UI, the FUSE and NFS helpers and the Python labs are not modelled.
- Redis wire access, fsnotify, locks, temporary files and fsync are represented only by their effect.
