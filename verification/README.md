# Verified models of rclone's hard parts

This project models the parts of rclone whose correctness depends on state, order or
concurrency, and proves what they are relied on for.

**The VFS directory cache** (`vfs/dir.go`). Every directory keeps a cache of its entries, an
overlay of changes the remote has not confirmed, and a counter of the overlay marks in it and
below it. `DirModel` holds the state and what forgetting means, `DirListing` what re-reading a
listing means, `DirReading` how it is read entry by entry, `DirOrder` what the result depends on and
which paths it keeps, `DirRename` what moving a directory means, `DirPending` what all of this leaves of
pending work, `VfsDir` the operations themselves, with their loops over maps in any order, and `DirMarks`
what becomes of a single directory or file that is made, deleted or moved. A
directory is a cell of one store and a `*Dir` is the index of its cell. The listings of a recursive
read are a tree by names, as `DirTree` has them by paths. Parent links, cached entries and marks are kept apart, as in
the source: a directory dropped from a listing keeps its parent link and its marks.
`Sound` is the invariant: parent links are well-founded, cached sub-directories and files link back
under their own names, and each counter equals the number of marks in all directories whose parent
chain passes through it.

**Files and handles** (`vfs/file.go`, `vfs/write.go`, `vfs/read.go`). `VfsFile` has the queue of
renames that wait for writers, `WriteHandle` the out-of-order writers of a stream, `ReadHandle`
reads with retries, seeks and a running hash. Threads are modelled by steps: a call that waits
on the condition variable gives up the lock, and is resumed by a later step.

**Azure** (`backend/azureblob`). `ArrowListing` has the sharded listing, `AzureBlocks` block IDs
and the commit of chunks, `BlockChecker` the lock and wait group that guard the clearing of
uncommitted blocks.

In the handles, the block writer and the reader of `B2Upload` a constant `faultless` says that what lies
underneath does not fail; without it, it may fail at any time.

**Smaller pieces.** `NodeAux` (the compare-and-swap list), `MountHelper` (the quoting parser) and
`MountGrammar` (which strings it accepts, and how it refuses the others),
`ConfigWizard` (string-encoded states), `Overrides` (suffixes for overridden configurations),
`B2Upload` (hash-appending stream, part hashes, copy ranges), `RangeOptions` (byte ranges of
section 2.1 of RFC 7233). `Text` and `Wrappers` are helpers.

Where the code does not do what one would like, the model follows the code, and the exact
condition is proved:

- Moving a directory moves no counts. The counters stay right if and only if nothing in the moved
  tree is pending that forgetting it could not drop, or the parent stays the same (`MoveCounts`,
  `RenameDir`); `MoveLosesCounts` is a tree in which they go wrong.
- The new parent of a moved directory loses an entry it has under the OLD name. All other entries
  elsewhere are kept if and only if there is no such clash (`RenameKeepsEntriesIff`), and all pending
  work elsewhere is found by its path if and only if the clashing entry is not pending and leads to
  nothing pending (`RenameKeepsPendingIff`); `MoveLosesPending` and `MoveLosesBelow` are trees in
  which an upload is lost.
- A re-read drops a directory that is not listed with the pending work in it, where forgetting would
  keep it. A path is kept if and only if each directory on it is listed, and only as a directory, or
  is not listed but has a mark that outlives a purge (`RereadWalkIff`, `RereadKeepsPendingIff`);
  `ReadLosesPending` is a tree in which an upload is lost.
- A re-read begins by dropping every deletion mark, so a name that was deleted is back whenever it is
  still listed (`RereadDeleted`), although the loop over the listing is written to skip such names.
- The result of a re-read depends on the order of the listings if and only if one that is read has two
  different entries for one name, be they of two kinds or two objects (`RereadOrderFree`,
  `TwoObjects`).
- A parallel listing whose caller has cancelled may return without an error and yet be incomplete. It
  is complete if and only if the sequential pass was made or the shards that were not started have
  nothing to hand on (`ListArrowParallel`); `CancelledAtOnce` hands on nothing.
- A hash mismatch is reported for faithful bytes if and only if the size never became known and
  the hash of what was read differs from that of the whole (`CheckHash`); `FalseAlarm` shows one.
- The end of the file is reported without looking if and only if the size is unknown and a seek is
  called for, because the handle stands elsewhere or an attempt failed (`Attempts`); `BlindEnd` shows
  one.
- `FixRangeOption` is documented to keep ranges inside the object, but leaves an end equal to the
  size (`FixedInsideIff`), and makes a range without ends empty unless 64 bits do not hold the
  difference (`FixedSelectsIff`). `Decode` takes everything from the start on for a range that ends two
  before it starts, and nothing for the range from 0 to the largest number (`DecodeIff`).
  `RangesMisread` lists the inputs.
- The error for option names of the mount helper says that they cannot start with `_`; a name is
  refused for how it starts if and only if it starts with `-` (`OptionNameIff`), and `_x` is accepted
  (`UnderscoreAccepted`).
- A user who asks for the advanced options is asked about them again after each pass over them
  (`Wizard`).
- A value pushed on a wizard state comes back exactly when it has no wide comma, and the last one
  exactly when it has no comma (`PopPushed`, `PopLast`).
- The number in a block ID is said to be stored "LSB first", but its most significant byte is first
  (`BigEndianAt`).
- A string passes the check of a block ID if and only if it decodes to the right bytes
  (`CheckIDMeans`), which strings with stray bits at the end do too (`StrayBits`).

## Model

| member | source | states |
|---|---|---|
| `DirModel.WithMarksCounted` | vfs/dir.go:199-205 | giving a directory other marks and adding the difference to the counters of its parent chain keeps every counter equal to the marks below it |
| `DirModel.ZeroMeansNone` | vfs/dir.go:194-197 | a counter is zero if and only if no directory below, by parent links, holds a mark |
| `DirModel.ForgetMore` | vfs/dir.go:220-224 | forgetting one more sub-directory leaves those forgotten before as they were, and forgets exactly what is reached through it |
| `DirModel.ForgetFinish` | vfs/dir.go:214-248 | forgetting all cached sub-directories, purging and then emptying a directory without marks below visits exactly what is reached through cached entries, and keeps the invariant |
| `DirModel.ForgetKeepsPending` | vfs/dir.go:207-248 | every entry whose mark outlives a purge is found under the same path after forgetting, with the same mark and the same node |
| `DirModel.ForgetDropsRest` | vfs/dir.go:236-242 | a reached directory keeps only surviving marks, and is emptied if and only if no directory below holds one |
| `DirModel.ForgetDeterministic` | vfs/dir.go:214-248 | forgetting has one result, whatever order the maps yield their entries in |
| `DirModel.WalkReaches` | vfs/dir.go:310-324 | following cached entries leads only downwards by parent links |
| `DirModel.WalkPath` | vfs/dir.go:310-324 | the directory found by a path has that path |
| `DirModel.NothingLeftIff` | vfs/dir.go:214-248 | whether forgetting leaves a mark can be told beforehand, from what is reached and what outlives a purge |
| `DirModel.AddedSound` | vfs/dir.go:435-452 | adding an entry with its mark keeps links, names and counters right |
| `DirModel.DeletedSound` | vfs/dir.go:496-508 | deleting an entry with its mark keeps links, names and counters right |
| `DirReading.AppendSound` | vfs/dir.go:59-75 | a new directory keeps links, names and counters right |
| `DirListing.ListedIff` | vfs/dir.go:725-729 | a listing contains the names of its entries, but for those of the directory itself and of its parent |
| `DirListing.MergedMore` | vfs/dir.go:733-773 | merging one more listed entry: a node is kept if the listing never called its name another kind, and is new otherwise |
| `DirReading.ReadingEnd` | vfs/dir.go:692-718 | after the clean-up the entries are the listed ones and the surviving additions, the marks the surviving additions that are not listed, none of them a deletion; a listed file has the object of the last entry for its name, and nodes keep their identity unless listed as another kind; in a recursive read all this holds of every listed sub-directory against the state it had when the whole read began |
| `DirReading.ReadingMarks` | vfs/dir.go:707-717 | the last loop of the clean-up finds nothing to do, the purge having dropped all deletions |
| `DirOrder.RereadOrderFree` | vfs/dir.go:722-777 | the result of a re-read is that of every other order of the listings if and only if no listing that is read, at any depth, has two different entries for one name |
| `DirOrder.CellOrderFree` | vfs/dir.go:722-777 | names, marks and reused nodes of one directory never depend on the order of its listing |
| `DirOrder.AmbiguousOrderMatters` | vfs/dir.go:737-773 | two different entries for one name, at any depth that is read, have an order with another result |
| `DirOrder.TwoObjects` | vfs/dir.go:738-742 | a name listed as two objects makes a listing ambiguous |
| `DirOrder.RereadDeterministic` | vfs/dir.go:722-777 | two re-reads of one listing agree, at every depth, on names, marks, kinds, objects and every node that was there before, and leave no deletion mark |
| `DirListing.RereadFrame` | vfs/dir.go:755-763 | what a read made of a directory stays so while nothing at or below it changes |
| `DirListing.RereadBase` | vfs/dir.go:746-763 | a read of a sub-directory that begins in the middle of a larger read is a read from the beginning of that one, when nothing happened to it in between |
| `DirListing.RereadTwice` | vfs/dir.go:733-763 | reading one listing twice, for a name that is repeated, is reading it once |
| `DirOrder.RereadWalkIff` | vfs/dir.go:692-706 | a path leads to the same directory after a read, recursive or not, if and only if each directory on it is listed only as a directory or is not listed but has a surviving mark |
| `DirOrder.RereadKeepsPendingIff` | vfs/dir.go:692-706 | pending work is found after a read under its path, marked and with its node, if and only if the path is kept and the listing there does not contain it |
| `DirOrder.RereadAt` | vfs/dir.go:722-777 | the directory at the end of a kept path was read with its own listing, or not touched at all |
| `DirOrder.ReadLosesPending` | vfs/dir.go:694-703 | a tree in which a listing without a directory drops it with the upload in it |
| `DirReading.SparedBelow` | vfs/dir.go:755-763 | what the read of a sub-directory spares, the read of its parent spares |
| `DirRename.HeldMoved` | vfs/dir.go:398-407 | what re-parenting takes from the chain of the old parent and adds to that of the new one |
| `DirRename.MoveCounts` | vfs/dir.go:398-407 | after re-parenting the counters are right if and only if nothing in the moved tree is pending or the parent is the same |
| `DirRename.RehungLinked` | vfs/dir.go:400-400 | re-parenting to a directory outside the moved tree keeps parent links well-founded |
| `DirRename.MovedNamed` | vfs/dir.go:398-410 | after a move only the entry in the old parent is out of place |
| `DirRename.RenamedOutside` | vfs/dir.go:1203-1233 | entries and marks of every directory outside the moved tree after the whole rename |
| `DirRename.MovedPlace` | vfs/dir.go:1203-1233 | where a moved directory is in the end, and how it is marked in both parents |
| `DirRename.RenameKeepsEntriesIff` | vfs/dir.go:398-407 | a move keeps all entries elsewhere if and only if the new parent has none of its own under the old name, or parent or name stay the same |
| `DirRename.RenameKeepsPendingIff` | vfs/dir.go:398-407 | after a move everything pending outside the moved tree is found by every path that is not about the move, if and only if the new parent has no entry of its own under the old name that is pending or leads to something pending |
| `DirRename.WalkRenamed` | vfs/dir.go:398-407 | a path outside the moved tree that is not about the move leads where it led, if and only if it does not go through what the new parent has under the old name |
| `DirRename.MoveLosesBelow` | vfs/dir.go:404-404 | a tree in which a move takes a directory with an upload in it out of the cache |
| `DirRename.MoveLosesPending` | vfs/dir.go:404-404 | a tree in which a move takes a file that is being uploaded out of the cache, so that its mark does not outlive the next purge |
| `DirRename.RenameKeepsPending` | vfs/dir.go:1203-1233 | after the whole rename pending work inside the moved directory is found under its new path, with the same mark and node |
| `DirRename.MoveLosesCounts` | vfs/dir.go:392-407 | a tree in which forgetting drops nothing and the move leaves the counters wrong, also after it is shown in both parents |
| `DirRename.ShownBalance` | vfs/dir.go:1231-1233 | showing a move in both parents neither repairs nor breaks the counters |
| `DirPending.ReadStays` | vfs/dir.go:722-777 | a read, complete or not, leaves all pending work in its directory alone, unless it comes to that directory with a listing that names it; a read that is not recursive comes to one directory only |
| `DirPending.ForgetStays` | vfs/dir.go:214-248 | forgetting leaves all pending work alone |
| `DirPending.PurgeStays` | vfs/dir.go:610-649 | a purge leaves all pending work alone |
| `DirPending.MoveStays` | vfs/dir.go:1203-1233 | a move leaves all pending work in its own directory alone, but for the names it replaces and the clashing one; whether the path to it is kept is `RenameKeepsPendingIff` |
| `DirPending.TraceStays` | vfs/dir.go:199-777 | over every run, what is pending stays cached and marked in its directory, with its node, unless some operation could end it in the state that operation met |
| `DirPending.AddNodeStays` | vfs/dir.go:435-452 | adding a node leaves all pending work alone but what it replaces |
| `DirPending.DoesStay` | vfs/dir.go:199-777 | every operation leaves all pending work alone that it cannot end: deletion, a listing that names it where it is, its own file done, another node in its place, or a move away from it, over it or onto its directory |
| `VfsDir.Vfs.constructor` | vfs/vfs.go:248-248 | a file system starts with an unread root, for which the invariant holds |
| `VfsDir.Vfs.AddVirtual` | vfs/dir.go:199-205 | the walk up adds n to the counters of exactly the parent chain |
| `VfsDir.Vfs.DeleteVirtual` | vfs/dir.go:586-597 | the mark is dropped, if there is one, and the counters of the chain follow |
| `VfsDir.Vfs.AddObject` | vfs/dir.go:435-452 | the node is cached and marked by its kind; the counters of the chain grow only if the name had no mark |
| `VfsDir.Vfs.DelObject` | vfs/dir.go:496-508 | the entry is dropped and marked as deleted; the counters of the chain grow only if the name had no mark |
| `VfsDir.Vfs.AddVirtualNode` | vfs/dir.go:461-490 | the whole new state: a new node is cached and marked and nothing else changes, or nothing at all if the name is taken |
| `VfsDir.Vfs.PurgeOne` | vfs/dir.go:612-647 | one mark is kept or dropped, and the counters of the chain follow; which are kept is told by the rows of `DirMarks` |
| `VfsDir.Vfs.PurgeVirtual` | vfs/dir.go:610-649 | exactly the surviving marks are left, in whatever order they are judged, and the counters follow |
| `VfsDir.Vfs.ForgetAll` | vfs/dir.go:214-248 | everything reached is purged, and emptied where nothing below is pending; the result is true if and only if a directory below, by parent links, holds a mark |
| `VfsDir.Vfs.ForgetBelow` | vfs/dir.go:220-224 | the loop over cached sub-directories forgets exactly what is reached through them, in any order |
| `VfsDir.Vfs.NewDir` | vfs/dir.go:59-75 | a directory without entries and marks, whose chain extends that of its parent |
| `VfsDir.Vfs.ReadObject` | vfs/dir.go:738-745 | the file there is gets the listed object and keeps its identity, or a new file is made; no other file changes |
| `VfsDir.Vfs.ManageAdd` | vfs/dir.go:671-686 | a listed name is no longer an addition; it is to be skipped if and only if it is marked as deleted |
| `VfsDir.Vfs.ReadSubdir` | vfs/dir.go:746-767 | the directory there is keeps its identity, or a new one is made; a recursive read re-reads it and everything listed below, as measured before |
| `VfsDir.Vfs.ReadEntry` | vfs/dir.go:733-773 | the listed entry is cached with a node of its kind, reused if possible, and shown at every depth; no mark is added, what is still pending is as it was, and what is pending and not listed is spared |
| `VfsDir.Vfs.ReadNode` | vfs/dir.go:737-772 | the node for a listed entry, by kind and object; it fails if and only if something to be read is of unknown type |
| `VfsDir.Vfs.ReadAll` | vfs/dir.go:725-774 | the loop over the listing |
| `VfsDir.Vfs.EndItems` | vfs/dir.go:693-706 | exactly the listed entries and the pending additions stay cached, in whatever order they are judged |
| `VfsDir.Vfs.EndMarks` | vfs/dir.go:707-717 | exactly the deletions of names not listed are confirmed |
| `VfsDir.Vfs.ManageEnd` | vfs/dir.go:692-718 | the clean-up turns a listing that was read into the re-read directory |
| `VfsDir.Vfs.ReadFromEntries` | vfs/dir.go:722-777 | the directory becomes the re-read one with the listed objects, and in a recursive read so does every listed directory below, each against its own state before; it fails if and only if something to be read is of unknown type; complete or not it keeps the invariant, spares what is pending and not listed, and touches nothing outside |
| `VfsDir.Vfs.RenameTree` | vfs/dir.go:362-386 | every directory cached below gets the path that follows from the new one, and nothing but paths changes |
| `VfsDir.Vfs.Rename` | vfs/dir.go:392-418 | forgetting, re-parenting and renaming below: the whole new state, and the counters are right if and only if nothing in the tree is pending or the parent is the same |
| `VfsDir.Vfs.Relocate` | vfs/dir.go:398-407 | parent, path and the entries of the new parent change, and links stay well-founded |
| `VfsDir.Vfs.RenameDir` | vfs/dir.go:1203-1233 | moving a directory and showing it in both parents, as specified; it keeps the whole invariant if and only if, before the call, nothing in the tree is pending that forgetting could not drop, or the parent is the same |
| `VfsDir.Vfs.Step` | vfs/dir.go:435-777 | every operation, adding any node under its own name included, does what is specified, and keeps the invariant but for the moves that are exactly known to upset the counters |
| `VfsDir.Vfs.Run` | vfs/dir.go:199-777 | over every run of additions, deletions, purges, re-reads, forgets, file changes and moves the invariant holds, up to the first move that upsets the counters; and whatever is pending stays cached and marked in its directory, with its node, until an operation that can end it in the state it meets |
| `DirMarks.PurgeNewDir` | vfs/dir.go:612-617 | a new directory is still marked after a purge if and only if the remote has no empty directories |
| `DirMarks.RereadNewDir` | vfs/dir.go:692-706 | a new directory is cached after a re-read if and only if it is listed or the remote has no empty directories, and marked if and only if it is not listed and the remote has none |
| `DirMarks.RereadNewDirAlone` | vfs/dir.go:692-706 | with an empty listing a new directory is cached and marked if and only if the remote has no empty directories |
| `DirMarks.ForgetNewDir` | vfs/dir.go:226-248 | forgetting reports a new directory as pending, and keeps it, on a remote without empty directories |
| `DirMarks.ForgetAny` | vfs/dir.go:226-248 | a directory with nothing pending is emptied by forgetting it and is to be read again; any other keeps its entries |
| `DirMarks.PurgeNewFile` | vfs/dir.go:621-644 | a new file is still marked after a purge if and only if it has no object, or is being written, or is in use |
| `DirMarks.RereadNewFile` | vfs/dir.go:692-706 | a new file is cached after a re-read if and only if it is listed, has no object, is being written or is in use |
| `DirMarks.ForgetNewFile` | vfs/dir.go:226-248 | forgetting reports such a file as pending, and keeps it |
| `DirMarks.PurgeLost` | vfs/dir.go:623-634 | the mark of a file that is not cached, or is a directory, never outlives a purge |
| `DirMarks.PurgeDeleted` | vfs/dir.go:645-646 | the mark of a deletion never outlives a purge |
| `DirMarks.RereadDeleted` | vfs/dir.go:722-736 | a deleted name is back after a re-read if and only if it is listed |
| `DirMarks.MoveDir` | vfs/dir.go:1203-1233 | a moved directory is in its new parent under its new name and path, marked as added there and as deleted where it was, and is to be read again |
| `VfsFile.MovesLead` | vfs/file.go:240-292 | the moves of a queued chain lead from where the object is to where it was last asked to be, without a gap and without a move in place |
| `VfsFile.File.constructor` | vfs/file.go:67-81 | a new file has no writers and nothing queued |
| `VfsFile.File.RunRename` | vfs/file.go:240-292 | the chain makes exactly these moves with no writer open; an object already in place leaves the queue alone |
| `VfsFile.File.ApplyPendingRename` | vfs/file.go:206-218 | when nothing is being written the queued moves are made and the object has the newest name, otherwise nothing happens |
| `VfsFile.File.DoRename` | vfs/file.go:223-317 | a rename is made at once, after the moves queued before it, or queued after them while the file is written |
| `VfsFile.File.AddWriter` | vfs/file.go:320-325 | the handle is registered and counted |
| `VfsFile.File.DelWriter` | vfs/file.go:328-345 | exactly that handle is removed, and the queued moves are made if it was the last |
| `VfsFile.File.SetObject` | vfs/file.go:534-544 | the file has the uploaded object, and a queued rename will still bring it to the newest name |
| `VfsFile.RunFile` | vfs/file.go:206-345 | over every run of renames, openings and closings no object is moved while a writer is open, and whenever nothing is written the object has the name last asked for |
| `WriteHandle.PlacedGrows` | vfs/write.go:162-163 | what was placed in the stream stays placed when more is appended |
| `WriteHandle.WriteFileHandle.constructor` | vfs/write.go:44-58 | a new handle is registered with its file, and has started nothing |
| `WriteHandle.WriteFileHandle.OpenPending` | vfs/write.go:68-104 | one upload is started, refused if and only if it would overwrite an object without truncation being asked for |
| `WriteHandle.WriteFileHandle.FinishWrite` | vfs/write.go:154-172 | a write is refused as out of place if and only if it is not at the end of the stream, and as not permitted if and only if an upload would have to be started that would replace an object nobody asked to truncate; any other is made, on an open upload, and fails only if the pipe does; nothing is appended to a closed handle |
| `WriteHandle.WriteFileHandle.WriteAt` | vfs/write.go:145-172 | a write is refused when closed, waits if and only if it is not its turn, and otherwise is made or refused as said of `FinishWrite` |
| `WriteHandle.WriteFileHandle.Wake` | vfs/read.go:244-254 | a write that waited is made if its turn has come, and refused as out of place if not |
| `WriteHandle.WriteFileHandle.Write` | vfs/write.go:181-186 | a write at the present end, which fails only if the handle is closed, the upload may not be started, or the pipe fails |
| `WriteHandle.WriteFileHandle.CloseWithError` | vfs/write.go:214-249 | the first close deregisters the handle and takes the result of the one upload, if one was or may be started; without faults it fails if and only if it is abandoned; a further close changes nothing |
| `WriteHandle.WriteFileHandle.TakeResult` | vfs/write.go:232-248 | the stream is ended and the result taken once; the file gets the object if and only if the upload succeeded |
| `WriteHandle.WriteFileHandle.Flush` | vfs/write.go:301-323 | a written handle is closed with the result of its upload, an unwritten one writes nothing and stays open, with the error of that write, and a closed one is left alone |
| `WriteHandle.WriteFileHandle.Release` | vfs/write.go:329-344 | the handle is closed and deregistered, once, with the result of its upload |
| `WriteHandle.WriteFileHandle.Truncate` | vfs/write.go:354-367 | only the present size is accepted, and asking for size 0 allows an object to be replaced |
| `WriteHandle.WriteAll` | vfs/write.go:154-186 | pieces written in order on a pipe that does not fail leave exactly their concatenation in the stream |
| `WriteHandle.RunHandle` | vfs/write.go:145-367 | over every interleaving of threads, other handles and renames: each successful write sits at its offset, the offset is the stream length, the handle is registered exactly until it closes, one upload at most is started and its result taken once, an object is overwritten only on request, and nothing is appended after close |
| `ReadHandle.ReadFileHandle.constructor` | vfs/read.go:59-68 | a new handle has read and hashed nothing |
| `ReadHandle.ReadFileHandle.OpenPending` | vfs/read.go:73-89 | the reader is opened once, at the start |
| `ReadHandle.ReadFileHandle.SeekTo` | vfs/read.go:116-168 | a seek that succeeds leaves reader and offset together at the target and ends the hash; one that fails leaves the offset |
| `ReadHandle.ReadFileHandle.Attempt` | vfs/read.go:282-316 | an attempt that succeeds has the bytes at the offset, fewer only at the end of the content, where an unknown size becomes known; a reader that does not fail succeeds at once, also where it has to seek |
| `ReadHandle.ReadFileHandle.Attempts` | vfs/read.go:276-324 | the retry loop returns the bytes at the offset or, after all retries, an error, and the end of file only at the end or blindly; blindly if and only if the size is unknown and the handle stands elsewhere or an attempt failed and may be repeated; without faults all bytes there are, from any offset of a file of known size |
| `ReadHandle.ReadFileHandle.FinishRead` | vfs/read.go:272-346 | a read without error returns the bytes asked for, fewer only at the end, and a kept hash covers exactly what lies before the new offset; without faults a read at the present offset, or anywhere in a file of known size that can be seeked, returns all there is and leaves the handle after it, and the end of file is told exactly where it is reached |
| `ReadHandle.ReadFileHandle.StartRead` | vfs/read.go:257-271 | a read waits if and only if it is a little ahead of the handle, and otherwise is answered as said of `FinishRead`; a closed handle refuses it |
| `ReadHandle.ReadFileHandle.Wake` | vfs/read.go:244-254 | a read that waited is answered as said of `FinishRead`, whatever other threads did meanwhile |
| `ReadHandle.ReadFileHandle.Read` | vfs/read.go:395-404 | a read at the handle's own position, which moves on by what was read; at or past a known end it is the end of file, and elsewhere it is answered as said of `FinishRead` |
| `ReadHandle.ReadFileHandle.Seek` | vfs/read.go:171-187 | the position becomes the offset from the chosen origin, unless seeking is off |
| `ReadHandle.ReadFileHandle.CheckHash` | vfs/read.go:348-370 | faithful bytes are reported as corrupted if and only if the size never became known and the hashes of the part read and of the whole differ |
| `ReadHandle.ReadFileHandle.Close` | vfs/read.go:410-433 | the handle is closed, once, and never reports corruption of faithful bytes of known size |
| `ReadHandle.ReadFileHandle.Flush` | vfs/read.go:445-460 | no corruption of faithful bytes of known size is reported |
| `ReadHandle.ReadFileHandle.Release` | vfs/read.go:466-484 | an open handle is closed, and reports corruption if and only if closing it does |
| `ReadHandle.ReadAll` | vfs/read.go:395-404 | reading on to the end of file, by pieces of any size, gives all of the content from the present position on |
| `ReadHandle.RunHandle` | vfs/read.go:171-460 | over every interleaving of threads, up to the first error: all bytes returned are the content at their offset, fewer only at its end, and no corruption is reported |
| `ReadHandle.BlindEnd` | vfs/read.go:286-288 | a read at the second of two bytes that returns the end of file, the size being unknown |
| `ReadHandle.FalseAlarm` | vfs/read.go:348-370 | a handle of unknown size that reads one of two bytes and is closed, and reports corruption |
| `ArrowListing.LessBoundary` | backend/azureblob/arrow.go:138-149 | a name of a directory is below a boundary by its next character alone |
| `ArrowListing.FoldedTogether` | backend/azureblob/arrow.go:141-143 | names that fold to one sub-directory are on one side of every boundary |
| `ArrowListing.ListedIff` | backend/azureblob/azureblob.go:1237-1330 | a listing contains what some blob in its range is listed as, and nothing else |
| `ArrowListing.ListedOnce` | backend/azureblob/azureblob.go:1237-1330 | a listing contains nothing twice |
| `ArrowListing.ListingSplit` | backend/azureblob/arrow.go:47-56 | the listing of a range is that of its part below a boundary followed by that of the rest |
| `ArrowListing.LadderBoundaries` | backend/azureblob/arrow.go:150-169 | as many boundaries as asked for, up to 36, strictly ascending; none is ever skipped as a repetition |
| `ArrowListing.SpreadEvenly` | backend/azureblob/arrow.go:158-167 | the boundaries begin with the first rung, and lie apart as equal parts of the alphabet do, or one rung more |
| `ArrowListing.RungsAreTheAlphabet` | backend/azureblob/arrow.go:151-151 | the rungs are the characters of the alphabet, in order |
| `ArrowListing.BoundariesAscendIgnoringCase` | backend/azureblob/arrow.go:143-149 | the boundaries ascend in byte order and when compared ignoring case |
| `ArrowListing.BuildShards` | backend/azureblob/arrow.go:47-56 | the shards are the ranges between neighbouring boundaries, the outermost unbounded |
| `ArrowListing.ShardsEqualSequential` | backend/azureblob/arrow.go:141-143 | for every set of names, directory and target, flat or folded, the shard listings one after the other are the sequential listing |
| `ArrowListing.RunShards` | backend/azureblob/arrow.go:69-97 | the started shards count what all of them saw and hand on what all of them got |
| `ArrowListing.RunOrFallBack` | backend/azureblob/arrow.go:96-112 | the sequential pass is made if and only if the account cannot do parallel listing and nothing was seen; what is handed on adds up |
| `ArrowListing.ListArrowParallel` | backend/azureblob/arrow.go:31-113 | the parallel listing hands on never more than the sequential one; without an error it hands on all of it if and only if the sequential pass was made or the shards that were not started have nothing to hand on; parallel listing is disabled if and only if the account cannot do it |
| `ArrowListing.SharesEqualSequential` | backend/azureblob/arrow.go:141-143 | what the shards have to hand on adds up to what the sequential listing has |
| `ArrowListing.DeliveredWithin` | backend/azureblob/arrow.go:69-97 | the started shards hand on nothing beyond their shares, and all of them if none fails |
| `ArrowListing.ShardsOutcome` | backend/azureblob/arrow.go:72-97 | without a failure everything is handed on if and only if the shards not started have nothing to hand on |
| `ArrowListing.CancelledAtOnce` | backend/azureblob/arrow.go:73-75 | a caller that has cancelled beforehand gets no error and no entries, whatever there is to list |
| `ArrowListing.CancelledMissesBlob` | backend/azureblob/arrow.go:73-75 | a listing of one blob, which then is missed |
| `ArrowListing.NeverTwice` | backend/azureblob/arrow.go:98-111 | no entry is ever handed on twice, and when all is handed on, exactly the listed entries that are not skipped are |
| `AzureBlocks.DecodeEncode` | backend/azureblob/azureblob.go:2679-2684 | base64 decoding undoes encoding |
| `AzureBlocks.LetterInAlphabet` | backend/azureblob/azureblob.go:2679-2679 | the letters are those of standard base64, in their order |
| `AzureBlocks.BigEndianInverse` | backend/azureblob/azureblob.go:2675-2691 | reading big-endian bytes undoes writing them |
| `AzureBlocks.BigEndianAt` | backend/azureblob/azureblob.go:2675-2675 | each byte of the chunk number is at its big-endian place |
| `AzureBlocks.CheckIDIff` | backend/azureblob/azureblob.go:2683-2699 | an ID that was made passes the check if and only if it was made for that chunk and that upload |
| `AzureBlocks.CheckIDMeans` | backend/azureblob/azureblob.go:2683-2699 | any string passes the check if and only if it decodes to the bytes of that chunk and that upload |
| `AzureBlocks.StrayBits` | backend/azureblob/azureblob.go:2683-2699 | for every chunk there are strings other than its ID that pass the check, with other bits left over in the last letter |
| `AzureBlocks.NewBlockIDInjective` | backend/azureblob/azureblob.go:2672-2680 | different chunks or uploads have different IDs |
| `AzureBlocks.SortedUnique` | backend/azureblob/azureblob.go:3043-3046 | there is only one way to sort chunk numbers |
| `AzureBlocks.CompleteIff` | backend/azureblob/azureblob.go:3043-3059 | sorting puts each chunk at its number if and only if the numbers are a permutation of 0..n-1 |
| `AzureBlocks.ChunkWriter.WriteChunk` | backend/azureblob/azureblob.go:2864-2898 | a chunk with data is recorded under the ID made for it, whether or not its upload succeeds; others are not; without faults it succeeds |
| `AzureBlocks.ChunkWriter.CheckBlocks` | backend/azureblob/azureblob.go:3048-3059 | the loop accepts the sorted blocks if and only if they are numbered consecutively |
| `AzureBlocks.ChunkWriter.Close` | backend/azureblob/azureblob.go:3042-3078 | a commit is asked for if and only if the recorded numbers are a permutation of 0..n-1, and then with the IDs of chunks 0..n-1 in order, whatever order they were recorded in |
| `AzureBlocks.Upload` | backend/azureblob/azureblob.go:2864-3078 | over a whole upload without faults, chunks written in any order are committed in the order of their numbers if and only if the numbers of those with data are 0..n-1, once each |
| `BlockChecker.Checker.Start` | backend/azureblob/azureblob.go:2816-2820 | a request goes in flight while nobody holds the lock |
| `BlockChecker.Checker.Stop` | backend/azureblob/azureblob.go:2823-2825 | a request is no longer in flight |
| `BlockChecker.Checker.Acquire` | backend/azureblob/azureblob.go:2839-2846 | the lock is kept for clearing only if nothing was cleared before |
| `BlockChecker.Checker.BeginClear` | backend/azureblob/azureblob.go:2848-2853 | clearing begins with no request in flight, for the first time |
| `BlockChecker.Checker.EndClear` | backend/azureblob/azureblob.go:2853-2860 | the blocks count as cleared and the lock is given back |
| `BlockChecker.Checker.SomeoneCanMove` | backend/azureblob/azureblob.go:2816-2861 | while some uploader is not idle, some uploader can go on |
| `BlockChecker.Checker.Drain` | backend/azureblob/azureblob.go:2816-2861 | under every schedule all uploaders become idle once nothing new is started |
| `BlockChecker.Run` | backend/azureblob/azureblob.go:2816-2861 | in every interleaving the blocks are cleared at most once, and never while a request is in flight |
| `NodeAux.NextMeans` | vfs/nodeaux.go:45-62 | the list SetAux makes has each owner once and means the updated map |
| `NodeAux.CopyEntries` | vfs/nodeaux.go:47-58 | the copying loop makes that list |
| `NodeAux.Aux.Load` | vfs/nodeaux.go:45-46 | a call begins with the present pointer |
| `NodeAux.Aux.Make` | vfs/nodeaux.go:47-58 | a new list is made from the one loaded, for the same owner and value |
| `NodeAux.Aux.Swap` | vfs/nodeaux.go:59-65 | the swap succeeds if and only if the pointer is the one loaded, and then applies exactly one update to the present map |
| `NodeAux.Aux.Get` | vfs/nodeaux.go:26-35 | reading gives the value of the last update for the owner |
| `NodeAux.OthersKept` | vfs/nodeaux.go:37-43 | an update leaves the values of all other owners alone |
| `NodeAux.Run` | vfs/nodeaux.go:26-67 | in every interleaving the list means the successful swaps one after the other, each owner is in it at most once, and every finished call made exactly one swap |
| `MountHelper.EndStates` | fs/mount_helper.go:267-281 | input read to its end is consumed completely or ends inside a quote |
| `MountHelper.ParseNeverSyntax` | fs/mount_helper.go:279-281 | the plain syntax error cannot happen |
| `MountHelper.OptionNameIff` | fs/mount_helper.go:204-211 | a name is refused for how it starts if and only if reading comes to the end of a non-empty name that starts with a dash |
| `MountHelper.NameAccepted` | fs/mount_helper.go:202-226 | every valid name is accepted alone |
| `MountHelper.UnderscoreAccepted` | fs/mount_helper.go:209-211 | a name that starts with an underscore is accepted |
| `MountHelper.DotAccepted` | fs/mount_helper.go:216-219 | a name may go on with a dot after either of two words |
| `MountHelper.ParseHelperOptionString` | fs/mount_helper.go:178-283 | the loop computes the parse that `ParseOkIff` and `ParseErrIff` describe, with all its errors |
| `MountHelper.UndoubleDouble` | fs/mount_helper.go:250-253 | undoubling quotes undoes doubling them |
| `MountHelper.ReadDoubled` | fs/mount_helper.go:242-260 | a value with doubled quotes is read to its end as one quoted value |
| `MountHelper.ReadOption` | fs/mount_helper.go:200-264 | one rendered option and a comma are read as that option |
| `MountHelper.ParseRender` | fs/mount_helper.go:178-283 | every list of options with valid names, rendered with any values in doubled quotes and joined by commas, parses back to that list |
| `MountGrammar.ValidCharIff` | fs/mount_helper.go:33-33 | the characters of a name are letters, digits, dash and underscore |
| `MountGrammar.ParseOkIff` | fs/mount_helper.go:178-283 | a string is accepted if and only if, without the space around it, it is a list of options joined by commas, each a valid name, alone or with a plain value or with a value in doubled quotes; and it is parsed as what they mean |
| `MountGrammar.ParseErrIff` | fs/mount_helper.go:178-283 | each error is reported if and only if what follows some options is wrong in its way: nothing before a comma or an equals sign, a name with a dash in front, a character a name cannot go on with, a quote that is not closed, or something between a closing quote and the comma |
| `Text.TrimSplit` | fs/mount_helper.go:179-179 | trimming takes away white space at both ends, and all of it |
| `ConfigWizard.StatePush` | fs/backend_config.go:298-306 | the loop widens the commas and puts the values in front of the state |
| `ConfigWizard.PopPushed` | fs/backend_config.go:326-334 | popping gives back the rest of the state, and the value if and only if it has no wide comma |
| `ConfigWizard.PopLast` | fs/backend_config.go:326-334 | the last value comes back if and only if it has no comma |
| `ConfigWizard.WordsUsable` | fs/backend_config.go:369-462 | the words of the wizard can be told apart and have no commas |
| `ConfigWizard.StateRead` | fs/backend_config.go:384-410 | a state made from an action, a number and a flag is read back as these |
| `ConfigWizard.StateWritten` | fs/backend_config.go:407-410 | a state is written as its action, the number of the option and the flag, with commas between them |
| `ConfigWizard.SplitJoin` | fs/backend_config.go:609-609 | splitting at commas gives pieces without commas that join to the whole |
| `ConfigWizard.MatchProviderIff` | fs/backend_config.go:600-615 | a list of providers matches its members, one that begins with an exclamation mark all others, and a blank matches all |
| `ConfigWizard.ConfigAllAt` | fs/backend_config.go:372-464 | a state made for an option leads to the step for that option and no other |
| `ConfigWizard.ConfigAllEnd` | fs/backend_config.go:397-402 | the state after the last option asks about advanced options, if there are any, or goes to post-config |
| `ConfigWizard.PassOne` | fs/backend_config.go:415-455 | an option is skipped, or asked about once and its answer set |
| `ConfigWizard.Pass` | fs/backend_config.go:372-464 | a pass, from the first state of the wizard or one for option 0, asks about exactly the options that `AskedIff` names, in order and once each |
| `ConfigWizard.AskedIff` | fs/backend_config.go:413-424 | an option is asked about in a pass if and only if it is visible, of the kind of the pass, and its providers match the one chosen so far |
| `ConfigWizard.AnswerKept` | fs/backend_config.go:441-452 | the answer to an option whose name no other option asked about has is in the configuration in the end, and a blank one is not added |
| `ConfigWizard.OthersKept` | fs/backend_config.go:441-452 | a key no question was about keeps its value, or stays absent |
| `ConfigWizard.ReplyAdvanced` | fs/backend_config.go:453-459 | a yes leads to the first advanced option, anything else to post-config |
| `ConfigWizard.Wizard` | fs/backend_config.go:372-464 | the whole wizard: a pass over the basic options, the question about the advanced ones if there are any, and for as long as the reply is yes a pass over these with the configuration left so far and the question again; then post-config |
| `ConfigWizard.AutoStepLeads` | fs/backend_config.go:523-572 | with AutoConfirm each step leads on to the next place, or fails at an option without a name |
| `ConfigWizard.AutoConfig` | fs/backend_config.go:340-365 | with AutoConfirm and no choices the loop sets the defaults of all options to ask about and comes to post-config within 2n+2 steps; it fails if and only if one of them has no name |
| `Overrides.NoneLeftIff` | fs/newfs.go:71-77 | the search runs past the hash if and only if other configurations have taken all names |
| `Overrides.AssignedStays` | fs/newfs.go:71-84 | a configuration keeps its name whatever is added later |
| `Overrides.Registry.NewSuffix` | fs/newfs.go:62-86 | the shortest free name is found and stored, and no other configuration loses its own |
| `Overrides.Registry.NeverRunsOut` | fs/newfs.go:71-77 | with distinct hashes the search ends within the hash |
| `Overrides.Registry.ConfigString` | fs/newfs.go:192-210 | the loop and its branches give the string that the `Described` rows below speak of |
| `Overrides.ExpandedRecovers` | fs/newfs.go:193-204 | for names without a brace the full string gives back the stored configuration |
| `Overrides.ExpandedSame` | fs/newfs.go:193-204 | a name without a suffix that stands for parameters is its own full name |
| `Overrides.DescribedSplit` | fs/newfs.go:205-209 | the string of a remote without overridden parameters has the name before its first colon and the root after it, and is the root alone for a local one |
| `Overrides.DescribedFull` | fs/newfs.go:192-209 | the full string of a remote with overridden parameters names them before the root, also for a local one |
| `Overrides.NewAll` | fs/newfs.go:62-86 | over every sequence of remotes each gets a suffix, equal suffixes mean equal configurations and the other way round |
| `B2Upload.HexInjective` | backend/b2/upload.go:45-45 | hex tells hashes apart |
| `B2Upload.HexAt` | backend/b2/upload.go:45-45 | each byte of a hash is two lower-case digits, the high one first |
| `B2Upload.HashAppendingReader.Read` | backend/b2/upload.go:38-51 | each read goes on where the last one stopped in the data followed by its hash in hex; of the hash it gives all that is left or fits, and the end is reported after all of it and only then |
| `B2Upload.HashAppendingReader.ReadMany` | backend/b2/upload.go:38-56 | for any buffer sizes the reader emits the data and then its hash, in all the announced length |
| `B2Upload.ReadAll` | backend/b2/upload.go:38-51 | on a reader that does not fail, reading on with any buffer size ends, with the data and its hash |
| `B2Upload.Sha1s.Add` | backend/b2/upload.go:231-238 | a hash is recorded at its part, the others staying |
| `B2Upload.AddAll` | backend/b2/upload.go:231-238 | recorded in any order and with repetitions, every part ends up with its last hash |
| `B2Upload.LastForIff` | backend/b2/upload.go:231-238 | the last hash of a part is that of the last record for it, or blank |
| `B2Upload.TotalParts` | backend/b2/upload.go:103-106 | the number of parts is the smallest that covers the size |
| `B2Upload.CopyRanges` | backend/b2/upload.go:505-527 | the ranges of the parts that are started follow each other from 0, none longer than a chunk, and come to the size if and only if all parts are started |
| `B2Upload.TilesCover` | backend/b2/upload.go:345-350 | every byte is in exactly one of the ranges |
| `RangeOptions.DecodeIff` | fs/open_options.go:118-138 | in 64-bit arithmetic decoding takes the bytes the range selects, if and only if the range does not end two before it starts inside the object and is not the one from 0 to the largest number |
| `RangeOptions.FixRangeOption` | fs/open_options.go:148-184 | every option of the array is rewritten as specified, in place: nothing changes for an unknown size, no range is left for an empty object and no seek for any other |
| `RangeOptions.FixedSelectsIff` | fs/open_options.go:163-179 | in 64-bit arithmetic rewriting keeps the selected bytes if and only if the range has an end, or counting back from the size does not fit |
| `RangeOptions.FixedTakesIff` | fs/open_options.go:118-179 | when decoding takes the same bytes before and after rewriting |
| `RangeOptions.RangesMisread` | fs/open_options.go:118-179 | ranges at which the expected properties fail |
| `RangeOptions.EndlessParsed` | fs/open_options.go:73-101 | a header can ask for the range whose length does not fit |
| `RangeOptions.FixedTwice` | fs/open_options.go:163-179 | rewriting twice is rewriting once, and gives both ends |
| `RangeOptions.FixedInsideIff` | fs/open_options.go:175-179 | the rewritten range ends inside the object if and only if it was not given to end just after it |
| `RangeOptions.FixedSeek` | fs/open_options.go:180-181 | a seek selects everything from its offset on |
| `RangeOptions.ParseHeader` | fs/open_options.go:57-101 | parsing a rendered header gives back the range |
| `RangeOptions.ParseIff` | fs/open_options.go:73-101 | a header is read if and only if it has the unit and two sides about its first dash, each blank or a number that is not negative, and no comma |
| `RangeOptions.HeaderExamples` | fs/open_options.go:57-70 | headers for the first bytes, the last bytes and all from some byte on |

## Left out

- VfsDir.Vfs.ReadFromEntries: does not model link suffixes, names that differ in case or Unicode form, and the removal of duplicates by normalised name.
- VfsDir.Vfs.Rename: does not model `File.renameDir`, the rename in the cache and modification times.
- VfsDir.Vfs.Run: takes operations as atomic, so locks and their order are not captured, nor the wrap-around of the 32-bit counter; a move of a directory into itself is refused, as remotes do.
- VfsDir.Vfs.Step: the rename of a single file from one directory to another is not an operation of a run.
- VfsFile.File.DoRename: models caching switched off, and takes a rename as one step, so a handle that is opened between the look at the writers and the move is not captured.
- VfsFile.File.SetObject: does not model the update of the directory and of the modification time.
- WriteHandle.WriteFileHandle.OpenPending: does not model that the file is added to its directory when the upload starts.
- WriteHandle.WriteFileHandle.CloseWithError: does not model the removal of a file entry without object after a failed upload.
- ReadHandle.RunHandle: stops at the first error, after which the reader may be ahead of the offset, and is about known sizes; for unknown ones see `Attempts` and `CheckHash`. A seek that fails may leave any reader behind, and a closed reader is taken to fail until it is opened anew.
- ArrowListing.ListArrowParallel: the passes of the pager are given, each handing on part of its listing, or all of it if it does not fail; the decoding of pages is left out.
- AzureBlocks.ChunkWriter.Close: leaves out pacing and retries, and that Go's decoder skips line breaks.
- BlockChecker.Run: clearing itself is one step that ends; what it asks of the service is left out.
- ConfigWizard.Wizard: leaves out how a reply reaches the wizard; a run is given with the answers a user would make.
- ConfigWizard.AutoConfig: leaves out OAuth, choices given beforehand, the editing of an existing configuration and the backend's own questions.
- Overrides.NewAll: the hash is a parameter, assumed to tell the configurations in play apart.
- Directories are cells of one store rather than separate objects; a nil and an empty overlay are the same.
- Timers, ages of listings and `_readDir`'s check of them.
- The VFS cache, handles that read and write through it, and chunked readers.
- Network calls, authentication and pacing of all backends.
- Size, count and duration suffixes, whose results depend on floating point.
- The conversion of mount options into flags after they are parsed.
- Commands, remote control, polling and the other backends.
