# SeaweedFS: file content, filer namespace, metadata sync and metadata backup

A Dafny model of four parts of SeaweedFS, with proofs. In each part a fast, incremental or
concurrent form has to agree with a simple one.

**File content.** A file is a bag of chunks with an offset, a size, a timestamp and a file id. The
meaning of a bag is one line: replay the chunks as writes in timestamp order over an empty file
(`FileChunks.Replay`). Against that stand the sweep line that computes the visible intervals
(`SweepLine`), manifests that fold chunk lists and their pruned resolution (`Manifest`,
`Manifestize`), the views of a read range (`ChunkViews`), compaction (`Compaction`), the sharded
reader with its sequential and parallel reads (`ChunkGroups`, `GroupReads`), and the resumable
download (`ChunkFetch`).

**Filer namespace.** The store is a map from path to entry; paths are sequences of names. `Filers.Filer`
is the filer with its store, the events it announces, the chunks it queues for deletion and the
collections it drops. Lookups and listings expire entries on the side, creation makes missing
directories, listings are paginated, deletes recurse, and empty directories are tidied up. The
value-level specifications are in `Namespace`, `FilerSpec`, `FilerDirectories`, `FilerListing`,
`FilerDeletion`, `FilerAccounting` and `FilerOrphans`.

**Metadata sync.** `SyncEvents` is what a worker does about an event: what it writes, and that it
overwrites the new parent directory in the very event the scheduler compares others with.
`SyncScheduler` is the parallel sync as a step system, for any worker: accept, begin an attempt,
write, finish, checkpoint, crash. `MetadataProcessors` is the scheduler object, each of whose
methods is one of these steps. `SyncTheorems`, `SyncNecessity` and `SyncSerializability` are about
its runs, `SyncMoves` shows what goes wrong between different directories, `SyncGivingUp` adds jobs
that are dropped, `SyncReconnect` and `SyncOldJobs` streams that break while jobs go on.

**Metadata backup.** `MetaBackup` is the source's log and its replay, `MetaTraversal` the
breadth-first traversal of a changing source as a step system, `MetaConvergence` what the two
together leave in the backup store, `MetaBackupJobs` the command's object, `MetaBackupGaps` where
the backup falls short.

I/O, clocks and failures are parameters: what a replica delivers, which store calls fail, what time
it is, in which order concurrent writes reach memory, when an offset is persisted.

Some promises turn out not to hold of the code as it is. Each is stated with the exact condition
under which it does, most also with a concrete input that fails:

- Of two overlapping chunks of equal timestamp nothing is lost if and only if they end together
  (`SweepTies.NothingLostIffEndTogether`).
- A read range that overflows int64 resolves nothing (`ChunkViews.ViewFromChunks`, an equivalence).
- A fold whose save fails returns the data chunks without the manifests
  (`Manifestize.FailedFold`, an equivalence, and `Manifestize.FailedFoldLosesData`).
- A piece refused by the writer is not reported when the stream ends well, and the bytes written are
  a prefix of the content if and only if the writer accepts nothing after a refused byte of the same
  request (`ChunkFetch.RequestKeepsPrefixIff`, `ChunkFetch.RefusedThenAccepted`).
- The sync is serializable, over all interleavings, retries and crashes, if and only if its log is
  safe (`SyncSerializability.SerializableIffSafe`). Three things make a log unsafe. Directory events
  on the same path do not wait for each other, since a path does not count as lying under itself
  (`SyncMoves.DirectoryCanSurvive`). Between different directories a running rename has its new
  path overwritten, and events on that path do not wait for it any more
  (`SyncMoves.RenamedFileCanSurvive`). And there an update that is tried again finds its new path
  outside the source directory and deletes the entry (`SyncMoves.UpdatedFileCanVanish`). Between
  directories of the same path the condition is one on pairs of events
  (`SyncSerializability.SteadySafety`), and file events always meet it
  (`SyncSerializability.FilesAreSerializable`).
- A job that fails for good is dropped and the watermark passes it. The damage is confined to the
  paths of the events given up (`SyncGivingUp.Confinement`); there is none at all, over all runs, if
  and only if every write is redundant (`SyncGivingUp.HarmlessIffRedundant`), and every log has a run
  that loses everything (`SyncGivingUp.DroppedEventsAreLost`).
- After a broken stream the old scheduler's jobs go on and may write last. The damage is confined to
  their paths (`SyncOldJobs.ReconnectConfinement`); there is none, over all runs of one process, if
  and only if whatever can stay at a path is what in-order application leaves there
  (`SyncOldJobs.ReconnectsHarmlessIff`), and with restarts of the process if and only if whatever is
  ever written there is (`SyncOldJobs.ReconnectsAndCrashesHarmlessIff`). Two updates of one file are
  a log that fails (`SyncOldJobs.OldUpdateWins`).
- Tidying up checks that the path has no children, not that it is a directory
  (`FilerSpec.TidyingDeletesFile`, an equivalence). Directories removed by it are not announced.
- A folder delete that ignores a failing store leaves, of everything in the folder but its own
  children, exactly the entries whose folder could not let go of them, and so a tree if and only if
  there are none (`Filers.Filer.DeleteEntry`, `FilerOrphans.OrphansRemain`,
  `Filers.OrphanedFile`).
- A backup is the source if and only if every path that the replay does not write was last read as
  it was when the replay starts (`MetaConvergence.FaithfulIffReadRight`). That fails for what was
  stale in the store before (`MetaConvergence.BackupIff`), and for a file read although its deletion
  is already logged: a recursive delete logs each child before it removes it, and an offset that
  could not be stored makes the replay start late (`MetaBackupGaps.ReadTooEarlyStays`,
  `MetaBackupGaps.DeletedFileStays`).
- A rename over the border of the watched directory is recorded at its outer end too
  (`MetaBackupGaps.OutsideWriteIff`, an equivalence).

## Model

| member | source | states |
|---|---|---|
| `FileChunks.ReplayMeetsNewest` | weed/filer/filechunks_read.go:10-93 | replaying the chunks as writes in any timestamp order leaves at every offset the chunk with the greatest timestamp among those covering it, and nothing on a hole |
| `FileChunks.NewestAgrees` | weed/filer/filechunks_read.go:10-93 | two bags of chunks that hold the same chunks covering an offset agree on the newest one there |
| `SweepLine.ReadResolvedChunks` | weed/filer/filechunks_read.go:10-93 | for valid chunks of which overlapping ones differ in time the visible intervals are sorted and disjoint, and at every offset of the window there is an interval exactly when a chunk covers it, naming the newest one with `offsetInChunk` equal to the distance from its start; for any input they are the fold over the sorted points |
| `SweepLine.SweepDepicts` | weed/filer/filechunks_read.go:49-90 | folding the points of a tie-free bag gives sorted, disjoint intervals that name the newest chunk at every offset |
| `SweepLine.OpenChunk` | weed/filer/filechunks_read.go:59-79 | a start point flushes the tail chunk only if it is older and the position has moved, and is queued by time, or not at all if nothing in the queue is newer and the tail has its time |
| `SweepLine.CloseChunk` | weed/filer/filechunks_read.go:80-93 | an end point removes the last queued point of its time and flushes the tail chunk exactly if that was the one |
| `SweepLine.CollectPoints` | weed/filer/filechunks_read.go:12-33 | just the chunks with a byte in the window take part, with their unclipped bounds |
| `SweepTies.TieShows` | weed/filer/filechunks_read.go:35-93 | of two overlapping chunks of equal timestamp, however their points are sorted, just the stretch up to where the first of them ends is shown, as a part of one that starts first |
| `SweepTies.NothingLostIffEndTogether` | weed/filer/filechunks_read.go:35-93 | every offset either of them covers is shown if and only if the two end together |
| `SweepTies.ReadingLosesUnlessEndTogether` | weed/filer/filechunks_read.go:10-93 | so does reading the two, in the order the model sorts them |
| `Manifest.ResolveChunkManifest` | weed/filer/filechunk_manifest.go:52-80 | the data chunks reached by opening manifests that intersect the range, the manifests opened, and failure exactly when one to be opened is unreadable |
| `Manifest.PrunedResolution` | weed/filer/filechunk_manifest.go:52-80 | for manifests that enclose their content, resolution limited to a range gives exactly the chunks of the full resolution that intersect the range, in the same order |
| `Manifest.FullResolution` | weed/filer/filechunk_manifest.go:52-80 | over the whole file resolution finds every non-empty chunk |
| `Manifestize.MergeIntoManifest` | weed/filer/filechunk_manifest.go:251-282 | the manifest holds exactly the given chunks and its extent is the smallest that encloses them |
| `Manifestize.SeparateManifestChunks` | weed/filer/filechunk_manifest.go:41-50 | the chunk list split into manifests and others, order kept |
| `Manifestize.DoMaybeManifestize` | weed/filer/filechunk_manifest.go:224-249 | on success the list is the manifests, full runs of `mergeFactor` data chunks each packed into a manifest, and fewer than `mergeFactor` loose chunks; on a failed save just the data chunks |
| `Manifestize.FoldKeepsContent` | weed/filer/filechunk_manifest.go:224-282 | unfolding a folded list gives the same multiset of data chunks; folding keeps manifests flat and enclosing |
| `Manifestize.FoldKeepsBytes` | weed/filer/filechunk_manifest.go:224-282 | a folded list reads the same at every offset |
| `Manifestize.GrowingFile` | weed/filer/filechunk_manifest.go:224-282 | over any history of appends and folds with any factors, unfolding gives exactly the chunks written, and manifests never nest |
| `Manifestize.GrowingFileBytes` | weed/filer/filechunk_manifest.go:214-282 | over any such history the file reads as the replay of everything written, in timestamp order |
| `Manifestize.FailedFold` | weed/server/filer_grpc_server.go:338-350 | going on with the list a failed fold returns keeps the content if and only if every byte of the existing manifests is hidden by a newer loose chunk |
| `Manifestize.FailedFoldLosesData` | weed/filer/filechunk_manifest.go:224-249 | a folded chunk and a loose one behind it: after a failed save the folded byte is gone |
| `ChunkViews.ViewFromVisibleIntervals` | weed/filer/filechunks.go:196-236 | the views show at every offset of the range what the intervals show, and nothing outside it |
| `ChunkViews.NonOverlappingVisibleIntervals` | weed/filer/filechunks.go:272-282 | resolved for a range, the intervals are exact on that range for the whole content |
| `ChunkViews.ViewFromChunks` | weed/filer/filechunks.go:188-194 | the views give at every offset of the range the file id, position and time of the newest write, and nothing on holes, if and only if the range does not overflow or the file has nothing from the offset on |
| `ChunkViews.ExactViewsReplay` | weed/filer/filechunks.go:188-236 | exact views are the replay of all writes in timestamp order, at each offset |
| `ChunkViews.OverflowResolvesNothing` | weed/filer/filechunks.go:188-194 | an overflowing range shows nothing |
| `Compaction.SeparateGarbageChunks` | weed/filer/filechunks.go:75-89 | the list split by whether an interval names the chunk's id, order kept |
| `Compaction.CompactFileChunks` | weed/filer/filechunks.go:66-73 | garbage is exactly the chunks whose id is visible nowhere |
| `Compaction.CompactionKeepsBytes` | weed/filer/filechunks.go:66-89 | dropping the garbage changes no offset |
| `Compaction.GarbageIsHidden` | weed/filer/filechunks.go:66-89 | every byte of a dropped chunk is hidden by a newer chunk that is kept |
| `Compaction.KeptIsVisible` | weed/filer/filechunks.go:66-89 | with distinct ids the kept chunks are exactly the visible ones |
| `Compaction.CompactionIsIdempotent` | weed/filer/filechunks.go:66-89 | compacting again drops nothing |
| `Compaction.CleanupChunks` | weed/server/filer_grpc_server.go:269-305 | compacting, folding and putting the manifests back keeps every byte, whether or not the fold succeeds, and the data chunks are exactly split into garbage and what remains |
| `ChunkGroups.ShardingIsFaithful` | weed/filer/filechunk_group.go:218-254 | the chunks filed under a section decide every offset of the section the way the whole file does |
| `ChunkGroups.OneLevelIsComplete` | weed/filer/filechunk_group.go:218-254 | manifests that never nest are completely resolved by one level |
| `ChunkGroups.FileChunkSection.SetupForRead` | weed/filer/filechunk_section.go:66-93 | afterwards the section's views give on the section exactly what its chunks gave before the hidden ones were dropped |
| `ChunkGroups.FileChunkSection.ReadDataAt` | weed/filer/filechunk_section.go:95-102 | fills the slice with the section's bytes, zeros on holes, touches nothing else, and returns its length and the latest write time in it |
| `ChunkGroups.FileChunkInSections` | weed/filer/filechunk_group.go:243-253 | the chunk is added to exactly the sections from the one of its first byte to the one of its end |
| `GroupReads.Tiling` | weed/filer/filechunk_group.go:104-136 | every index of the buffer is served by exactly one section, and that one is visited |
| `GroupReads.ChunkGroup.SetChunks` | weed/filer/filechunk_group.go:218-261 | re-shards the file so that every section serves it faithfully; an unreadable manifest leaves the group as it was |
| `GroupReads.ChunkGroup.ReadDataAtSequential` | weed/filer/filechunk_group.go:104-136 | fills the whole buffer with the file's bytes and returns its length and the latest write time |
| `GroupReads.ChunkGroup.ReadDataAtParallel` | weed/filer/filechunk_group.go:138-216 | the same bytes, count and time, for every order in which the workers' single byte writes reach memory |
| `GroupReads.ChunkGroup.ReadDataAt` | weed/filer/filechunk_group.go:83-102 | end of file without touching the buffer, or the file's bytes, whichever way it reads |
| `GroupReads.GroupHoldsReplay` | weed/filer/filechunk_group.go:218-261 | over any history of appends and folds, the sharded file has at every offset the byte that the replay of everything written leaves |
| `GroupReads.ReadGrownFile` | weed/filer/filechunk_group.go:83-261 | sharding such a file and reading a range fills the buffer with the bytes of that replay |
| `ChunkFetch.ReadUrlAsStream` | weed/util/http/http_global_client_util.go:328-398 | whatever a request delivers, the output grows and its length is counted; it stays a prefix of the content if the writer accepts nothing after a refused byte, and of distinguishable bytes only then; a fully accepted request of such a writer completes it |
| `ChunkFetch.RequestKeepsPrefixIff` | weed/filer/filechunk_manifest.go:152-176 | the same of the handler's states, piece by piece, with whatever the writer takes of each piece and wherever the context is cancelled |
| `ChunkFetch.RetriedStreamFetch` | weed/filer/filechunk_manifest.go:129-212 | over all rounds and replicas `totalWritten` is the number of bytes written; they are a prefix of the content if in no request a byte was accepted after a refused one, and of distinguishable bytes only then; a fully delivered request then leaves all of it, an incomplete success means a refused piece, and without refusals there is no second round |
| `ChunkFetch.RefusedThenAccepted` | weed/filer/filechunk_manifest.go:154-176 | an input: a piece refused and the next one accepted leaves a gap |
| `Namespace.AncestorsPresent` | weed/filer/filer.go:258-331 | in a tree everything on the way down to an entry is there and is a directory |
| `Namespace.ExpiringIsLeaf` | weed/filer/filer.go:361-379 | nothing lies below an entry that can expire, so expiry orphans nothing |
| `Namespace.DropChildrenKeepsTree` | weed/filer/filer_delete_entry.go:130-132 | the store call that removes a folder's children keeps a tree if and only if nothing deeper is left |
| `FilerSpec.FindKeepsTree` | weed/filer/filer.go:361-390 | a lookup that expires its entry keeps a tree |
| `FilerSpec.UpdateKeepsTree` | weed/filer/filer.go:333-346 | an update that keeps the kind keeps a tree if and only if it gives no directory a time to live |
| `FilerSpec.SkippingParents` | weed/filer/filer.go:227-233 | without making the directories above, a new entry keeps a tree if and only if its directory is there |
| `Filers.Filer.DoDeleteEntry` | weed/filer/filer_delete_entry.go:140-159 | removes just the entry, and announces it unless it is a directory |
| `Filers.Filer.FindEntry` | weed/filer/filer.go:361-390 | an expired entry is not found and is removed unless the store fails; announced only if an S3 rule expired it |
| `Filers.Filer.EnsureParents` | weed/filer/filer.go:258-331 | succeeds exactly when the deepest thing found is a directory and the missing ones can be made; touches only the missing ones, makes all or a top part of them, and keeps a tree even when an insert fails midway; whether it succeeds or not it announces exactly the S3-expired files found on the way up and then, top down to the first lost write, the directories stored without complaint |
| `Filers.Filer.UpdateEntry` | weed/filer/filer.go:333-346 | keeps the creation time, refuses a change of kind |
| `Filers.Filer.CreateEntry` | weed/filer/filer.go:199-256 | the exact condition for success; the entry as stored; nothing else changes but missing directories above; exactly which events are announced, on success and on failure; the chunks no longer used are queued; with parents made it keeps a tree, whatever fails |
| `FilerDirectories.EnsuredMore` | weed/filer/filer.go:289-327 | making one directory more keeps all of this |
| `FilerDirectories.EnsuredTouches` | weed/filer/filer.go:227-243 | making the directories above an entry leaves everything else alone |
| `Filers.Filer.DeleteEmptyParentDirectories` | weed/filer/filer.go:477-523 | removes a contiguous stretch of directories from the path upwards, each found, eligible and empty but for the one below, and stops only where it has to; keeps a tree; announces nothing if the path is a directory |
| `FilerSpec.TidiesDirectories` | weed/filer/filer.go:477-533 | what it removes are directories on the way down to the path, empty when removed, strictly below the place to stop and below the level of the buckets |
| `FilerSpec.TidyingDeletesFile` | weed/filer/filer.go:477-523 | given the path of a live file it deletes the file if and only if the path is eligible and the store does not fail |
| `Filers.Filer.Scan` | weed/filer/filerstore_wrapper.go:276-298 | the names after the start, in order, up to the limit, none left out |
| `Filers.Filer.ListOnce` | weed/filer/filer.go:392-452 | the live entries of one page; the expired ones are removed, directories this empties are tidied up, nothing else changes, and just the S3-expired removals are announced |
| `Filers.Filer.ListDirectoryEntries` | weed/filer/filer_search.go:25-43 | exactly the live entries after the start, in order, up to the limit, however many expired ones lie between |
| `Filers.Filer.DeletePages` | weed/filer/filer_delete_entry.go:78-125 | page by page every child is dealt with, for every directory size; a delete that is not recursive finds out on the first page; with errors ignored, below each child exactly what a failing folder held is left |
| `Filers.Filer.DeleteFolder` | weed/filer/filer_delete_entry.go:71-138 | nothing is left below the folder and only that is removed, with the accounts of everything in it; not recursive, it succeeds exactly when nothing live is in the folder; recursive with errors ignored, it succeeds exactly when its own children can be removed and leaves just the children of the folders that fail |
| `Filers.Filer.DeleteEntry` | weed/filer/filer_delete_entry.go:20-69 | a successful recursive delete removes precisely the entry and its descendants, each announced once and after everything below it, each chunk of each file without hard links handed over once; with errors ignored a folder's delete succeeds exactly if neither the removal of its children nor its own fails, and leaves exactly the children of the folders within that fail; a non-recursive delete of a non-empty folder fails and removes no more than a listing does; an entry modified since is left alone; buckets drop their collection |
| `FilerOrphans.OrphansRemain` | weed/filer/filer_delete_entry.go:94-132 | after such a success exactly the deeper entries whose folder's children could not be removed are left, and the store is a tree if and only if there are none |
| `FilerOrphans.ThinFolder` | weed/filer/filer_delete_entry.go:94-98 | dealing with a folder within keeps this, in a store that need no longer be a tree |
| `Filers.OrphanedFile` | weed/filer/filer_delete_entry.go:20-138 | an input of the delete: it succeeds and a file is left where no folder is |
| `FilerDeletion.FolderRemoved` | weed/filer/filer_delete_entry.go:36-51 | emptying the folder and removing it leaves exactly the rest of the store if nothing in it had expired |
| `FilerDeletion.DonePage` | weed/filer/filer_delete_entry.go:94-124 | a page takes the mark to its last name: all children up to it are dealt with and none twice |
| `FilerDeletion.PageAdvances` | weed/filer/filer_delete_entry.go:78-125 | each full page leaves strictly fewer names to list, so the loop ends |
| `FilerDeletion.ProgressEnd` | weed/filer/filer_delete_entry.go:127-132 | once all children are dealt with, removing the folder's children empties it and keeps a tree |
| `FilerAccounting.ToldFolder` | weed/filer/filer_delete_entry.go:94-98 | a subfolder's announcements extend those made so far without repeating any and with every child before its folder |
| `FilerAccounting.ToldEnd` | weed/filer/filer_delete_entry.go:127-135 | with the folder's own event last, exactly the entries at or below it have been announced, except those that expired silently |
| `FilerAccounting.HandFolder` | weed/filer/filer_delete_entry.go:94-135 | chunks handed over for a subfolder add up with the others to exactly the chunks of the files dealt with |
| `FilerAccounting.EmptyPage` | weed/filer/filer_delete_entry.go:79-88 | the first page is empty if and only if nothing live is in the folder |
| `Filers.RunCommands` | weed/filer/filer.go:199-523 | from an empty filer every run of creating, deleting, looking up, listing and tidying up leaves a tree, whatever expires and whichever inserts fail |
| `AbsoluteWrites.LastWriteDecides` | weed/command/filer_sync.go:442-563 | what a sequence of absolute writes leaves at a path is decided by the last one touching it |
| `AbsoluteWrites.CommonDescendant` | weed/util/fullpath.go:76-81 | two directories above the same path are nested |
| `SyncEvents.UnorderedWritesClash` | weed/command/filer_sync_jobs.go:82-149 | two events that write the same place without waiting for each other, as they are logged, share a path of which one takes it for a directory |
| `SyncEvents.FileEventsWait` | weed/command/filer_sync_jobs.go:109-123 | file events that write the same place wait for each other as long as they are as logged |
| `SyncTheorems.StepInv` | weed/command/filer_sync_jobs.go:33-71 | every step keeps the invariant, and what is persisted never decreases |
| `SyncTheorems.RunInv` | weed/command/filer_sync_jobs.go:33-71 | every reachable state, over any interleaving, any attempts of which each overwrites its event, and crashes, satisfies the invariant |
| `SyncTheorems.WatermarkIsSound` | weed/command/filer_sync_jobs.go:38-80 | in every reachable state each event at or below the watermark has been accepted and has finished, every active job is above it, at most the limit are active, and none had to wait for an older one as that was when it was accepted |
| `SyncTheorems.MarksAdvance` | weed/command/filer_sync_jobs.go:55-67 | the watermark never decreases except at a restart, the persisted offset never |
| `SyncTheorems.NothingSkipped` | weed/command/filer_sync.go:290-353 | at a restart everything before the resume point has left, and some attempt at every event that was not given up made all its writes, with none after them |
| `SyncTheorems.SerializableIfSafe` | weed/command/filer_sync_jobs.go:33-123 | over any interleavings, retries, crashes and restarts in which no job is given up, a drained run over a safe log leaves what one in-order application leaves |
| `SyncTheorems.Settle` | weed/command/filer_sync.go:442-563 | once all events up to a point have finished, a safe path to which no later event has to write has its outcome |
| `SyncSerializability.SerializableIffSafe` | weed/command/filer_sync_jobs.go:33-123 | whatever workers write and overwrite: all drained runs in which no job is given up leave what one in-order application leaves if and only if at every path nothing else can stay after all later events that have to write there, nothing else can be left by a crash that no event has to write over again, and nothing else was there before if no event has to write there |
| `SyncSerializability.SteadySafety` | weed/command/filer_sync_jobs.go:33-123 | if all attempts at an event write the same, that is: no event can outlast the last writer of one of its paths and leave something else there |
| `SyncSerializability.OutlastsOnce` | weed/command/filer_sync.go:513-519 | with one attempt, an event outlasts another exactly if up to some point nothing waits for it as logged, and from there on nothing as overwritten |
| `SyncSerializability.UnmovedOutlasts` | weed/command/filer_sync_jobs.go:73-80 | if events are not overwritten, exactly if nothing in between waits for it |
| `SyncSerializability.SameDirectory` | weed/command/filer_sync.go:513-519 | between directories of the same path events are not overwritten |
| `SyncNecessity.UnsafeRun` | weed/command/filer_sync_jobs.go:33-80 | for every path that is not safe a run that leaves something else there |
| `SyncNecessity.LateWriter` | weed/command/filer_sync_jobs.go:33-80 | an event that can outlast all later ones that have to write to a path can leave there whatever can stay |
| `SyncNecessity.KilledWriter` | weed/command/filer_sync.go:290-353 | a crash can leave any write that neither its event nor a later one has to write over |
| `SyncSerializability.NoClashIsSafe` | weed/command/filer_sync_jobs.go:82-149 | a log in which no two events share a path that one takes for a directory is safe, if events are not overwritten |
| `SyncSerializability.FilesAreSerializable` | weed/command/filer_sync_jobs.go:33-123 | a sync of file events between directories of the same path is serializable, as long as no job is given up and no stream breaks |
| `SyncSerializability.FilesInPlaceAreSerializable` | weed/command/filer_sync.go:504-533 | between different directories it still is if nothing is renamed and nothing tried again |
| `SyncMoves.OvertakenShows` | weed/command/filer_sync_jobs.go:73-149 | whatever workers do, an event that can outlast the last writer of a path and leaves something else there makes a sync not serializable |
| `SyncMoves.UpdateRetriedIsDeletion` | weed/command/filer_sync.go:451-453 | so does, between different directories, any update that is the last event on its path, if it may be tried again: the second attempt deletes the entry |
| `SyncMoves.DirectoryCanSurvive` | weed/command/filer_sync_jobs.go:109-123 | an input: creating a directory and deleting it again |
| `SyncMoves.RenamedFileCanSurvive` | weed/command/filer_sync.go:513-519 | an input: renaming a file and deleting it at its new place; the deletion has to wait for the rename as logged, but not once its worker has started |
| `SyncMoves.UpdatedFileCanVanish` | weed/command/filer_sync.go:537-542 | an input: one update, tried again |
| `SyncGivingUp.AnyRunIsSound` | weed/command/filer_sync_jobs.go:43-69 | with jobs that are dropped after failing, every event at or below the watermark has still been accepted and has left, and the limits hold |
| `SyncGivingUp.Confinement` | weed/command/filer_sync_jobs.go:43-69 | over all interleavings, retries, crashes and jobs given up, a drained run leaves at every safe path to which no event given up writes what one in-order application leaves there |
| `SyncGivingUp.FilesAreConfined` | weed/command/filer_sync_jobs.go:43-123 | in a sync of file events between directories of the same path that is every path to which no event given up writes |
| `SyncGivingUp.HarmlessIffRedundant` | weed/command/filer_sync_jobs.go:43-69 | all drained runs, with jobs given up at any point, leave what one in-order application leaves if and only if every write of every attempt at an event leaves what the target already had |
| `SyncGivingUp.DroppedEventsAreLost` | weed/command/filer_sync_jobs.go:47-67 | for every log a run that drains it with the watermark past every event and the target as it was |
| `SyncReconnect.ResumesBefore` | weed/command/filer_sync.go:290-324 | a new scheduler resumes at or before every event the old one's jobs are still at |
| `SyncOldJobs.ReconnectsHarmlessIff` | weed/command/filer_sync.go:196-224 | with jobs of old schedulers going on, all runs of one process in which every job ends leave what one in-order application leaves if and only if everything that can stay at a path, and what was there before if no event has to write there, is what in-order application leaves there |
| `SyncOldJobs.SteadyAgreement` | weed/command/filer_sync.go:196-224 | if all attempts at an event write the same, that is: every event leaves where it writes what the last event writing there leaves |
| `SyncOldJobs.ReconnectsAndCrashesHarmlessIff` | weed/command/filer_sync.go:196-224 | with restarts that kill old jobs between two writes, if and only if every single write of every attempt is |
| `SyncOldJobs.OneConditionForBoth` | weed/command/filer_sync.go:442-563 | the two conditions are the same if no attempt writes to a place twice |
| `SyncOldJobs.PlainRenames` | weed/command/filer_sync.go:504-533 | none does as long as nothing is renamed onto or below itself |
| `SyncOldJobs.OldUpdateWins` | weed/command/filer_sync.go:196-224 | two updates of one file fail both, although crashes alone do not reorder them between directories of the same path |
| `SyncOldJobs.ReconnectConfinement` | weed/command/filer_sync.go:196-224 | however often streams break and the process restarts, a drained run leaves at every safe path to which no job left running writes what one in-order application leaves there |
| `MetadataProcessors.MetadataProcessor.ConflictsWith` | weed/command/filer_sync_jobs.go:73-80 | whether some active job makes the event wait |
| `MetadataProcessors.MetadataProcessor.AddSyncJob` | weed/command/filer_sync_jobs.go:33-46 | an empty event is ignored, an event is started exactly when the step system accepts it, otherwise it waits; the object keeps representing the step system's state |
| `MetadataProcessors.MetadataProcessor.BeginAttempt` | weed/command/filer_sync.go:444-519 | a worker that begins an attempt plans its writes from the event the object holds, overwrites that event's new parent, and the object keeps representing the step system's state |
| `MetadataProcessors.MetadataProcessor.FinishJob` | weed/command/filer_sync_jobs.go:47-69 | the job leaves, and the watermark moves to it exactly if no active job is older |
| `MetaBackup.WatchedIsDelivered` | weed/server/filer_grpc_server_sub_meta.go:312-389 | everything that happens to a path below the watched directory is delivered |
| `MetaBackup.ReplayTouch` | weed/command/filer_meta_backup.go:188-243 | on a watched path a stretch of replay writes last what the source wrote last, or nothing if the path is excluded |
| `MetaBackup.PassesSettle` | weed/command/filer_meta_backup.go:178-272 | over any number of streams, each resuming from a persisted offset, the paths the rest of the log leaves alone are up to date |
| `MetaBackup.PassesHold` | weed/command/filer_meta_backup.go:178-272 | over any streams, with gaps between them or without, an included path is as the source had it at the end of the last stream that wrote there |
| `MetaTraversal.StepInv` | weed/pb/filer_pb/filer_client_bfs.go:15-106 | every step of the traversal, with listings interleaved and each path of a page read as of a time of its own, keeps the invariant |
| `MetaTraversal.TraversalCovers` | weed/pb/filer_pb/filer_client_bfs.go:15-106 | a finished traversal has visited every watched entry that was there throughout |
| `MetaConvergence.FaithfulIffReadRight` | weed/command/filer_meta_backup.go:109-129 | for visits read at any times and a replay from any point on, whatever the breaks: the backup is the source restricted to included paths if and only if every watched path that is excluded or not written since was last read, or held before, as the source had it at that point |
| `MetaConvergence.FaithfulIffRight` | weed/command/filer_meta_backup.go:109-129 | for any visits and any stretches of replay, with gaps: if and only if each included path was last replayed, or else last read, as it is now, and no excluded one was in the store |
| `MetaConvergence.BackupHolds` | weed/command/filer_meta_backup.go:109-129 | what a traversal and a replay leave at any watched path: what was last read there if listings may be behind the log at it, otherwise the source's entry if the path is included and is there or was written since, otherwise what the backup held before |
| `MetaConvergence.BackupIff` | weed/command/filer_meta_backup.go:109-129 | it is the source if and only if nothing else was stale before and at no path written before the replay starts, and not since, a listing was behind |
| `MetaConvergence.BackupIffNothingStale` | weed/command/filer_meta_backup.go:109-129 | with listings never behind the log, if and only if nothing in the backup store was stale before |
| `MetaConvergence.FirstBackup` | weed/command/filer_meta_backup.go:109-129 | from an empty store, with listings never behind the log, it always is |
| `MetaBackupJobs.MetaBackupJob.EachEntry` | weed/command/filer_meta_backup.go:188-243 | an event's included writes, in order, for all four combinations of a rename |
| `MetaBackupJobs.MetaBackupJob.Stream` | weed/command/filer_meta_backup.go:178-272 | replays the delivered events from the persisted offset, or from now without one; the offset moves only to events that were processed |
| `MetaBackupJobs.MetaBackupJob.Traverse` | weed/command/filer_meta_backup.go:159-172 | inserts each included entry as it was read |
| `MetaBackupJobs.MetaBackupJob.RunBackup` | weed/command/filer_meta_backup.go:66-129 | the store is the traversal's inserts, if there was one, followed by the streams' replays, each from the offset persisted before it, or from now without one; the first offset is the traversal's start if that could be stored, and then no stream leaves a gap |
| `MetaBackupJobs.FollowsFromNow` | weed/command/filer_meta_backup.go:118-129 | without an offset the replay starts where the first connection is opened, and leaves no gap from there if that one persists an offset; if not, the next one starts anew |
| `MetaBackupGaps.RetryIsHarmless` | weed/pb/filer_pb_tail.go:84-100 | a handler that fails part-way and is retried leaves what one success would have left |
| `MetaBackupGaps.OutsideWriteIff` | weed/command/filer_meta_backup.go:196-242 | replaying an event writes to a path outside the watched directory if and only if the path is included and is the outer end of a rename into or out of it (or of a deletion that carries a watched new parent) |
| `MetaBackupGaps.OutsideAfterReplay` | weed/command/filer_meta_backup.go:188-243 | a stretch of replay writes to an outside path exactly if one of its events crosses the border there, and otherwise leaves it as it was |
| `MetaBackupGaps.ReadTooEarlyStays` | weed/filer/filer_delete_entry.go:94-132 | what was read although it is gone when the replay starts, and is not written since, stays in a first backup for good, however long the streams run |
| `MetaBackupGaps.DeletedFileStays` | weed/command/filer_meta_backup.go:109-120 | an input: a file whose deletion is already logged |

## Left out

- `ChunkViews.ViewFromChunks`: an unreadable manifest is a failure here; the source drops that error and then dereferences the missing interval list (weed/filer/interval_list.go:47-48).
- `SweepLine.ReadResolvedChunks`: cipher keys and compression flags are not carried; points with equal position and time are put in one of the orders the source's unstable sort may choose.
- `Compaction.CompactFileChunks`: chunk lists without manifests only, as at its callers; data chunk ids are compared with top-level ids.
- `Compaction.CleanupChunks`: the garbage found by comparing with the existing entry's chunks.
- `GroupReads.ChunkGroup.ReadDataAt`: reads that stay within the file; beyond it the source's count for a missing section is negative.
- `GroupReads.ChunkGroup.SetChunks`: sections up to the last one that fits in int64.
- `ChunkFetch.RetriedStreamFetch`: replicas that hold the same content; a writer that reports an error exactly when it takes less than it is given.
- `Filers.Filer.DeleteEntry`: with errors ignored and the store failing, nothing beyond "only removes" is promised if in addition something below the folder has expired or a bucket is dropped at a stroke, and its announcements and chunks are accounted for only without failures.
- `Filers.Filer.EnsureParents`: file modes; owners stand for user, group and their names.
- `Filers.Filer.CreateEntry`: chunks are plain ids; the resolution of manifests before old and new chunks are compared is not modelled here.
- `Filers.RunCommands`: one operation at a time, and one time per operation; creations that skip the directories above are covered by `FilerSpec.SkippingParents` only.
- `SyncTheorems.WatermarkIsSound`: an event that is added a second time because the checkpoint after it failed (weed/pb/filer_pb_tail.go:84-100) is not modelled; it would be active at or below the watermark.
- `SyncTheorems.SerializableIfSafe`: runs in which no job is given up and no stream breaks; see `SyncGivingUp` and `SyncOldJobs` for the others. Jobs of old schedulers that are given up are not modelled.
- `MetaConvergence.BackupHolds`: the source is what its log says; the filer's own log directory, whose changes are never announced, and entries that vanish silently, by plain expiry or tidying up, are not.
- Incremental updates of intervals and views (`InsertInterval`, `MergeIntoVisibles`, `MergeIntoChunkViews`, `addChunk`), and searching for data and holes.
- Hard link counters, remote storage mounts, lazy fetching, and the key-value side of the stores.
- Name patterns and prefixes in listings, and names that are empty.
- What the sync's sink finds at the target: that it leaves alone what is newer or the same, and looks for a renamed entry under its old name at the new place; sinks that only add; the start offset given on the command line.
- Overriding the backup's filer store, and streams that skip gaps in the log.
- Protobuf encoding, encryption, compression, HTTP, gRPC, timing and fairness.
