# Verified models of the remote block store

Longtail keeps versions of large folders as blocks in a shared blob store. Many clients use one store at the same time and must agree on its *store index*, the set of blocks it holds. This project models the protocols by which they do that, and the smaller algorithms around them, and proves what they promise.

`dafny verify dfyconfig.toml` checks everything.

## How the models are built

Each concurrent protocol is modelled twice.

* A *machine*: a value `State`, labelled `Action`s with `Enabled` and `Apply`, and runs (`Run(tr, acts)`) that interleave the steps of any number of clients in any order. One operation on the blob store, or one critical section, is one step. The theorems are about every run.
* The *code*: methods and classes with the loops and fields of the original, whose contracts tie them to the machine. Where other clients can run between two operations, the methods say so: they rely only on what every other client guarantees, or let goroutines finish in an arbitrary order.

The modules PrefetchHistory and IndexHistory say what a caller gets in terms of the steps that went before, without the machine's own bookkeeping: which fetch is served from a prefetch, who is called back, what a flush has published.

| module | what it is about |
|---|---|
| StoreIndexes, Options | block hashes (64 bits), indexes as sets of hashes, merging as union |
| LockFreeIndex, LockFreeIndexClient | adding to the index in a store without write conditions: every adder writes a merged file and deletes what it merged |
| BlobCells, MemBlobStore, FsBlobStore | the two stores with write conditions, their generations, and the versioned register that both implement |
| LockedIndex, LockedIndexClient | adding to `store.lsi` by compare-and-swap with a retry loop |
| IndexOverwrite | how a prune replaces the remote index, in both kinds of store |
| PrefetchCache, PrefetchWorkers, PrefetchHistory, PrefetchCacheCode | the fetch and prefetch cache with its waiters and its memory limit |
| IndexPipeline, IndexHistory, IndexPipelineCode | puts, flushes, prunes and closing: from an object to the remote index |
| PruneWorkers, PruneWorkersCode | the bounded pool that gathers the blocks to keep |
| UnusedBlocks, BlockDeletion, BlockDeletionCode | finding and deleting unused objects with pooled clients |
| BlockPaths, BlockScan | block paths, and rebuilding an index by scanning blocks |
| PathFilter | splitting filter texts into regular expressions |
| HandleTable | the 1024-slot table of opaque pointers |
| DownsyncValidation | comparing the written tree with the source tree |

## What the theorems assume

* An index file is named by an injective function of the *set* of blocks it lists (`Injective`). The code hashes the serialised bytes (`remotestore/remotestore.go:1212-1213`), so this covers collisions of the digest and asks that one set has one serialisation. `InjectiveNamingExists` shows that the hypothesis can be met and `CollidingNamesLoseAdds` that it is needed.
* Without write conditions the store holds only such index files, and a listing is one atomic step.
* Every operation on the in-memory store runs under its mutex and every operation on a lockable file system store under the object's file lock, so each is one step; a failed operation has no effect, and nobody stops between writing a file and writing its `.gen` file.
* Stored bytes stand for the index they serialise: writing and reading back is the identity, merging is union by block hash, and pruning an index is intersection.
* Prunes do not run beside uploads (`commands/commands.go:30`): while a session prunes no other writing session is active.

## Where the code does less than it means to

The models keep the code as it is. For each departure there is a concrete case and the exact condition under which the intended property holds.

* `remotestore/remotestore.go:398`: when a prefetch ends, the loop over its waiters stops one short. `SecondWaiterIsLost` is the case; all requests are answered if and only if no prefetch ends with two or more of them waiting (`AllAnsweredExactlyIfNoneStranded`).
* `remotestore/remotestore.go:444-460`: a flush of the prefetch cache forgets downloads that nobody waits for. All runs that go on from the flush stay healthy if and only if somebody waits for every block in flight (`FlushIsHarmlessExactlyIfSafe`); flushing when nothing is in flight is one such case, and the runs of the other cache theorems flush only so. Otherwise a block can be downloaded twice (`FetchedTwice`), a nil entry dereferenced (`ForgottenFetchPanics`), a request dropped (`ForgottenFetchLosesAnswer`), or the memory of a prefetched block leaked for good (`ForgottenPrefetchLeaks`, `remotestore/remotestore.go:383-392`). `LeaksStay` holds for all runs: leaked memory never comes back, a flush zeroes the prefetch memory only if nothing has leaked, and once the limit has leaked prefetching stops.
* `remotestore/remotestore.go:145`: an existence check that fails skips the write but announces the block. Every run that goes on keeps announced and indexed blocks backed by objects if and only if the object was there (`FailedProbeExactly`); another worker may still write it before the announcement, but nothing makes it. `FailedProbeDangles` ends with a missing block in the remote index.
* `remotestore/remotestore.go:812-836`: a prune does not look at pending blocks; harmless to them if and only if all were to be kept (`PruneExactly`). Index files whose deletion failed are harmless if and only if they list nothing that was pruned (also `NoDoomedBlockIsListedExactly`).
* `remotestore/remotestore.go:1190`: the first locked write gives no index back, so an index cached before stays in use (`FirstLockedFlushFallsBehind`, `FlushKeepsUpExactly`).
* `longtailstorelib/fsstore.go:270-277` and `175-187`: an unlocked write is not noticed on disk, and a delete restarts the generations (`UnlockedWriteIsNoticed`, `DeleteForgetsVersions`); hence theorems about lock-first, delete-free runs.
* `commands/cmd_prunestore.go:187-196` and `commands/cmd_prunestore_index.go:131-140`: the throttled receive drops the error of the version it receives, so a prune may go on without the blocks of a version that could not be read. `AnUnreadableVersionIsLost` is the case; `FailuresAreReportedExactly` says for which inputs some order of completion hides every failure.
* `commands/cmd_prunestore_blocks.go:110-112`: a store index that cannot be read ends the command without an error (and without deleting anything); `PruneStoreBlocks` says so.
* `commands/cmd_prunestore_blocks.go:101`: of several unused objects with the same hash only the last listed one is deleted (`AllUnusedAreRecordedExactly`).

## Model

| member | source | states |
|---|---|---|
| LockFreeIndex.DeleteIsSafe | remotestore/remotestore.go:1245-1254 | deleting a merged file removes no block from the store, because it lists strictly less than some live file |
| LockFreeIndex.RunKeepsInv | remotestore/remotestore.go:1193-1296 | the invariant holds in every reachable state of any number of interleaved clients |
| LockFreeIndex.NoBlockIsEverLost | remotestore/remotestore.go:1193-1296 | in every interleaving of list, read, write and delete steps the union of the live index files never shrinks: it is what was there plus exactly the adds written since, and holds every acknowledged add |
| LockFreeIndex.ReadsAreSnapshots | remotestore/remotestore.go:1706-1790 | a read that returns gives exactly the union of the index files at the one instant of its last listing, despite deletes and re-creations while it reads |
| LockFreeIndex.AcknowledgedAddsAreRead | remotestore/remotestore.go:1706-1790 | every add acknowledged before a listing is in the index returned from that listing, also an add acknowledged by the early return |
| LockFreeIndex.SuccessIsAcknowledged | remotestore/remotestore.go:1215-1219 | an add is reported as successful only at the early return or after its deletes, and then all its blocks are acknowledged |
| LockFreeIndex.ReturnedIndexBounds | remotestore/remotestore.go:1259-1296 | the index an adder gets back lies between the store when it started (plus its own blocks) and the store when it returned |
| LockFreeIndex.InjectiveNamingExists | remotestore/remotestore.go:1212-1213 | the naming hypothesis can be met: some function of the block set is injective |
| LockFreeIndex.EarlyReturnExactly | remotestore/remotestore.go:1215-1219 | an adder reports success without writing if and only if its merged index is one of those it has read; otherwise every file it will delete lists strictly less than the file it writes |
| LockFreeIndex.CollidingNamesLoseAdds | remotestore/remotestore.go:1212-1219 | without the naming hypothesis the protocol fails: a run from the start in which two indexes share a name and an adder reports success for blocks that no file lists |
| LockFreeIndex.FailedRoundIsCharged | remotestore/remotestore.go:1230-1236 | a round of an adder or reader that has to list again is charged to a delete (if a listed file vanished) or a write (if its target appeared) of another client during that very round |
| LockFreeIndexClient.OthersMeetRely | remotestore/remotestore.go:1193-1296 | any number of steps of other clients leave a client’s own state alone, never shrink the store and keep the invariant (the rely condition) |
| LockFreeIndexClient.SharedStore.GetObjects | remotestore/remotestore.go:1664-1704 | the listing code takes one atomic snapshot of the file names, each once |
| LockFreeIndexClient.SharedStore.ReadFile | remotestore/remotestore.go:1720-1730 | a listed file is read with the contents its name promises, or is gone |
| LockFreeIndexClient.SharedStore.Exists | remotestore/remotestore.go:1230-1236 | an index file that is already there sends the adder back to the listing |
| LockFreeIndexClient.SharedStore.WriteFile | remotestore/remotestore.go:1238-1241 | the write publishes exactly the target and shrinks nothing |
| LockFreeIndexClient.SharedStore.DeleteFile | remotestore/remotestore.go:1245-1254 | deleting one merged file shrinks nothing, whether it works or not |
| LockFreeIndexClient.ReadStoreIndexWithItems | remotestore/remotestore.go:1706-1790 | one round of listing and merging, with other clients running between any two operations: it returns the union of the files at its listing; otherwise an operation failed, or another client changed the files during this very round |
| LockFreeIndexClient.TryWriteRemoteStoreIndex | remotestore/remotestore.go:1193-1257 | the write-and-delete code: success means the added blocks are acknowledged; without success an operation failed or another client changed the files since the listing; a client that was alone succeeds and leaves exactly the merged file, or the files as they were if it was there |
| LockFreeIndexClient.DeleteMerged | remotestore/remotestore.go:1245-1254 | the delete loop removes the merged files without shrinking the store, under interference |
| LockFreeIndexClient.TryAddRemoteStoreIndex | remotestore/remotestore.go:1259-1296 | an attempt fails only if one of its operations failed or another client changed the files during this very call; left alone it succeeds, returns the old union with the added blocks and leaves one file with it (or the files as they were); a success leaves its blocks in the live files and returns an index bounded by the store before and after |
| LockFreeIndexClient.ListNames | remotestore/remotestore.go:1695-1703 | the names of the listed files, each once |
| LockFreeIndexClient.MergeStoreIndexItems | remotestore/remotestore.go:1706-1747 | the reading loop merges exactly the files of the listing; it stops only at an operation that failed, or at a file that another client has deleted since the listing |
| LockFreeIndexClient.AddToRemoteStoreIndex | remotestore/remotestore.go:1298-1330 | the retry loop without write conditions: it gives up if and only if three of its operations failed, otherwise its blocks are in the live files; it ends whenever the other clients change the files finitely often; a client left alone succeeds with exactly its blocks added |
| BlobCells.StoresRefineRegister | longtailstorelib/fsstore.go:207-279 | every lock-first, delete-free run of either store is a run of one versioned register |
| BlobCells.VersionCountsSuccesses | longtailstorelib/memblobstore.go:128-136 | between any two moments the generation advances by exactly the number of successful writes |
| BlobCells.CompareAndSwap | longtailstorelib/memblobstore.go:109-137 | over both stores a write succeeds if and only if no write of any client succeeded since the writer’s lock; success advances the version by one and stores the data, refusal changes nothing |
| BlobCells.UnlockedWriteIsNoticed | longtailstorelib/fsstore.go:266-277 | a write without a lock is noticed by a lock holder if and only if the store is the in-memory one: on disk it leaves the generation alone |
| BlobCells.DeleteForgetsVersions | longtailstorelib/fsstore.go:175-187 | deleting leaves nothing and restarts the count: an old lock matches again exactly when as many writes followed the delete as had preceded the lock |
| BlobCells.WriteStores | longtailstorelib/memblobstore.go:109-137 | for every object and every lock, also none: a write that succeeds leaves its data there, a write without a lock always succeeds, a refused one changes nothing, and a success advances the version by one except without a lock on disk |
| BlobCells.LastAcceptedIsRead | longtailstorelib/fsstore.go:238-317 | over any sequence of writes with or without locks and deletes, in either store, a read gives the data of the last accepted write, or nothing after a delete |
| MemBlobStore.Object.LockWriteVersion | longtailstorelib/memblobstore.go:96-107 | remembers the blob’s generation, or -1 for an absent one |
| MemBlobStore.Object.Read | longtailstorelib/memblobstore.go:84-94 | the stored data, or nothing for an absent object |
| MemBlobStore.Object.Write | longtailstorelib/memblobstore.go:109-137 | a write that succeeds is what the next read gives; without a lock it succeeds; a refused one changes nothing; the generation moves as the cell says, and no other object changes |
| MemBlobStore.Object.Delete | longtailstorelib/memblobstore.go:139-156 | refused exactly under a stale lock on an object that is still there; otherwise the object and its generation are gone |
| FsBlobStore.Object.GetMetaGeneration | longtailstorelib/fsstore.go:148-160 | the generation in the side file, 0 if there is none |
| FsBlobStore.Object.LockWriteVersion | longtailstorelib/fsstore.go:207-236 | refused without locking; else remembers the generation, 0 for an absent object |
| FsBlobStore.Object.Write | longtailstorelib/fsstore.go:238-279 | a write that succeeds is what the next read gives; without a lock it succeeds; a refused one changes nothing; data file and side file change as the cell says, and no other object changes |
| FsBlobStore.Object.Delete | longtailstorelib/fsstore.go:281-317 | fails exactly under a stale lock or for an absent file; otherwise file and side file are gone |
| LockedIndex.RunKeepsInv | remotestore/remotestore.go:1112-1191 | the invariant holds in every reachable state of any number of adders |
| LockedIndex.NoLostUpdate | remotestore/remotestore.go:1112-1191 | after any delete-free interleaving `store.lsi` is exactly the initial index united with the adds whose write succeeded, even where the read saw newer data than the lock |
| LockedIndex.RetriesAreBounded | remotestore/remotestore.go:1298-1330 | every refusal of an adder is charged to a different successful write of another adder; with n adders it is refused at most n-1 times and ends within 3n+9 own steps, errors included |
| LockedIndex.NoAdderIsStuck | remotestore/remotestore.go:1298-1330 | an adder that has not ended can always take its next step |
| LockedIndex.SuccessReturnsStored | remotestore/remotestore.go:1164-1190 | the index returned is what was just stored, except that the first write of an absent object returns none |
| LockedIndex.StoredGrows | remotestore/remotestore.go:1112-1191 | the stored index never shrinks over a run |
| LockedIndex.GivesUpExactly | remotestore/remotestore.go:1298-1330 | in every run an adder has given up if and only if exactly three of its operations have failed, counted over the steps |
| LockedIndexClient.Interference | longtailstorelib/memblobstore.go:96-137 | what any number of rival adders can do between two operations, run through the store’s own code |
| LockedIndexClient.ContendedRead | remotestore/remotestore.go:1133-1140 | the read may see newer data than the lock |
| LockedIndexClient.ContendedWrite | remotestore/remotestore.go:1164-1172 | the conditional write acts on whatever the rivals left |
| LockedIndexClient.TryAddRemoteStoreIndexWithLocking | remotestore/remotestore.go:1112-1191 | an attempt fails only if a rival’s write succeeded meanwhile; on success the object holds what it held just before plus the added blocks |
| LockedIndexClient.AddToRemoteStoreIndex | remotestore/remotestore.go:1298-1330 | the retry loop gives up if and only if three attempts failed, then with nothing changed but by rivals; otherwise the object holds what it held just before the write plus exactly the added blocks, and that is returned (nothing for the first write); it ends after at most as many attempts as there are rival writes, failures and one |
| LockedIndexClient.Attempt | remotestore/remotestore.go:1305-1328 | one round of the loop: it succeeds with exactly the added blocks added, or fails because an operation did or because a rival wrote |
| IndexOverwrite.DeleteOthers | remotestore/remotestore.go:1414-1426 | the delete loop, state by state |
| IndexOverwrite.NoDoomedBlockIsListedExactly | remotestore/remotestore.go:1414-1426 | afterwards no file lists a block about to be deleted if and only if every file that listed one could be deleted |
| IndexOverwrite.TryOverwriteWithLocking | remotestore/remotestore.go:1332-1366 | one conditional write replaces the index; it is refused if and only if a rival wrote since the lock |
| IndexOverwrite.TryOverwriteWithoutLocking | remotestore/remotestore.go:1368-1429 | writes the pruned index before it deletes the other files; afterwards a file is there if and only if it is the new one or could not be deleted, with its old content; each single step leaves everything kept listed and lists nothing new; an attempt that fails changes nothing |
| IndexOverwrite.TryOverwriteUnlockedWithRetry | remotestore/remotestore.go:1448-1479 | the retry loop without write conditions: it gives up if and only if three attempts failed, with the files as they were; otherwise it ends with exactly the files of one overwrite |
| IndexOverwrite.TryOverwriteWithRetry | remotestore/remotestore.go:1448-1479 | the retry loop with write conditions: it gives up if and only if three attempts failed, with nothing changed but by rivals; otherwise exactly the pruned index is stored |
| IndexOverwrite.OverwriteIsPruneSteps | remotestore/remotestore.go:659-663 | the states an overwrite passes through are, one by one, steps that the pipeline machine allows a prune, up to where it may begin to delete objects |
| PrefetchCache.HeldWithout | remotestore/remotestore.go:451-461 | the memory accounted for is the sum over the ready entries, in whatever order they are taken out |
| PrefetchWorkers.StepKeepsInv | remotestore/remotestore.go:465-575 | every step of every worker keeps the single-flight invariant |
| PrefetchWorkers.AllAnsweredExactlyIfNoneStranded | remotestore/remotestore.go:251-421 | once nothing is in flight every request not stranded has been completed exactly once, with the outcome of a download of its own block; all have been if and only if no prefetch ended with two or more requests waiting |
| PrefetchWorkers.PrefetchMemoryIsBounded | remotestore/remotestore.go:516-544 | in all runs the prefetch memory stays below the limit plus one largest block per worker, although workers check the limit before they block |
| PrefetchWorkers.OneDownloadPerBlock | remotestore/remotestore.go:251-318 | in every state of every run at most one download per hash is in flight, no nil entry has been dereferenced, and the prefetch memory is the summed size of the ready blocks |
| PrefetchWorkers.FlushIsHarmlessExactlyIfSafe | remotestore/remotestore.go:442-462 | all runs that go on from a flush (with later flushes safe) keep one download per hash, no nil dereference and exact memory if and only if somebody waits for every block in flight at the flush |
| PrefetchWorkers.LeaksStay | remotestore/remotestore.go:451-461 | in every run, whatever its flushes: memory once leaked stays leaked, a flush leaves exactly the leaked memory accounted for (none if all flushes were safe), and once the limit has leaked no worker passes the prefetch check again |
| PrefetchWorkers.SecondWaiterIsLost | remotestore/remotestore.go:398-420 | a run from the start in which two requests wait for one prefetch and the second is never called back |
| PrefetchWorkers.FetchedTwice | remotestore/remotestore.go:444-460 | a run from the start in which a flush during a fetch makes two workers download one block at the same time |
| PrefetchWorkers.ForgottenFetchPanics | remotestore/remotestore.go:288-295 | from every consistent state, a fetch forgotten by a flush can dereference nil in its next step |
| PrefetchWorkers.ForgottenFetchLosesAnswer | remotestore/remotestore.go:288-294 | a run from the start in which a forgotten fetch drops its own request as a duplicate |
| PrefetchWorkers.ForgottenPrefetchLeaks | remotestore/remotestore.go:383-392 | a run from the start in which a forgotten prefetch leaves its block accounted for with nothing in flight or ready, also after another flush |
| PrefetchHistory.ReadyExactly | remotestore/remotestore.go:373-420 | in all safely flushing runs a block is held ready, with an outcome, if and only if a prefetch of it ended with that outcome while nobody waited and since then it was neither fetched nor flushed |
| PrefetchHistory.FetchIsServedExactly | remotestore/remotestore.go:264-285 | a fetch of such a block is called back at once with the outcome of that prefetch and nothing downloads it afterwards; a fetch of a block in flight waits; any other fetch downloads |
| PrefetchHistory.UnclaimedIsNotDownloaded | remotestore/remotestore.go:251-420 | a prefetched block is not downloaded again until it is handed out or flushed |
| PrefetchHistory.EntriesAreKnown | remotestore/remotestore.go:360-369 | the cache knows a block if and only if it was fetched or prefetched and every flush since found it in flight |
| PrefetchHistory.PrefetchDownloadsExactly | remotestore/remotestore.go:360-369 | a prefetch downloads if and only if the cache does not know the block, calls nobody back, and is allowed if and only if the unclaimed blocks together are below the limit |
| PrefetchHistory.WaitersAskedSince | remotestore/remotestore.go:264-285 | while a block is downloaded exactly the requests that asked for it since the start wait, in order |
| PrefetchHistory.LandingCallsBackExactly | remotestore/remotestore.go:287-317 | the end of a fetch calls back, with its outcome, everybody who asked meanwhile, in order, and then the request that started it; the end of a prefetch the only one who asked, or of several all but the last, the first at the end |
| PrefetchCacheCode.RemoteStore.FetchBlockBegin | remotestore/remotestore.go:264-285 | downloads if and only if the block is unknown or was handed out; a prefetched one is called back at once with its outcome, and a request for one in flight joins its waiters at the end |
| PrefetchCacheCode.RemoteStore.FetchBlockEnd | remotestore/remotestore.go:287-317 | the second critical section and the callback loop |
| PrefetchCacheCode.RemoteStore.PrefetchBlockBegin | remotestore/remotestore.go:360-369 | the first critical section of a prefetch |
| PrefetchCacheCode.RemoteStore.PrefetchBlockEnd | remotestore/remotestore.go:373-420 | the second critical section, with the loop that stops one short |
| PrefetchCacheCode.RemoteStore.FlushPrefetch | remotestore/remotestore.go:442-462 | afterwards a block is there if and only if somebody was waiting for it, unchanged, and nobody has been called back; both loops, over the entries in any order |
| PrefetchCacheCode.RemoteStore.RemoveEntries | remotestore/remotestore.go:451-461 | removing the collected entries subtracts exactly their memory |
| IndexPipeline.StepKeepsNothingDangles | remotestore/remotestore.go:639-684 | every permitted step keeps it |
| IndexPipeline.NothingEverDangles | remotestore/remotestore.go:639-684 | at every intermediate step of every interleaving of puts, flushes, prunes and closes, every block in the remote index, queued or pending has its object |
| IndexPipeline.PruneExactly | remotestore/remotestore.go:812-836 | after a prune the pending blocks still have their objects if and only if all of them were to be kept, and the files left list no missing object if and only if they list nothing cached that was not to be kept |
| IndexPipeline.NoAnnouncedBlockIsLost | remotestore/remotestore.go:1095-1110 | every announced block is in the channel, pending or in the remote index; after a close without index error every acknowledged put of a writing session is in the remote index |
| IndexPipeline.FlushKeepsUpExactly | remotestore/remotestore.go:851-863 | after a flush the cached index lists all received blocks if and only if it was not the first locked write, or nothing was cached, or the cached index listed them anyway |
| IndexPipeline.QueriesSeeEverythingReceived | remotestore/remotestore.go:796-811 | before and after any number of flushes the index that answers a query contains every block index received |
| IndexPipeline.FailedProbeExactly | remotestore/remotestore.go:145 | after an existence check that fails, all runs that go on keep every announced and indexed block backed by its object if and only if the object was there |
| IndexPipeline.FailedProbeDangles | remotestore/remotestore.go:145 | a run from the start in which the check fails and the remote index ends up listing a block that was never written |
| IndexPipeline.FirstLockedFlushFallsBehind | remotestore/remotestore.go:1176-1190 | a run from the start: a session queries an empty locked store, puts and flushes a block, and its next answers miss it |
| IndexPipeline.PutEndsWellExactly | remotestore/remotestore.go:152-182 | a put writes its object if and only if one of its first attempt and three retries is accepted after refusals only |
| IndexHistory.ChannelIsFifo | remotestore/remotestore.go:789-795 | the index worker receives the announced blocks in the order in which they were announced, each once |
| IndexHistory.FlushPublishes | remotestore/remotestore.go:845-864 | in all prune-free runs, when a flush of a writing session replies without an error every block that the session has received is in the remote index and nothing is pending |
| IndexHistory.QueriesAreCurrent | remotestore/remotestore.go:686-720 | in all prune-free runs the index that answers queries holds everything the remote index held when it was loaded and everything pending, and nothing else than what is remote or pending; in a read-only session it is exactly the remote index as loaded |
| IndexHistory.ReadersArePassive | remotestore/remotestore.go:492-500 | a read-only session never puts, announces, receives or adds |
| IndexHistory.ClosesBadlyExactly | remotestore/remotestore.go:924-942 | a session closes with an error if and only if its index worker ended with an error other than a missing file, or its last add failed |
| IndexPipelineCode.ContentIndexWorker.OnBlockIndex | remotestore/remotestore.go:789-795 | a received block index is appended to the pending ones |
| IndexPipelineCode.ContentIndexWorker.GetCurrentStoreIndex | remotestore/remotestore.go:686-720 | gives the cached index (or the remote one just read) with all pending blocks; there is no answer if and only if reading or merging fails, and then nothing stays cached |
| IndexPipelineCode.ContentIndexWorker.OnFlush | remotestore/remotestore.go:845-864 | a pending error is reported and cleared; otherwise a writing session gives all its pending blocks to the add; a reply without an error leaves nothing pending there, a failed add leaves everything pending, and the returned index, if any, replaces the cached one |
| IndexPipelineCode.ContentIndexWorker.OnClose | remotestore/remotestore.go:924-942 | when the last add is made and with which blocks; an error is reported if and only if one is pending that does not say that something is missing, or the add fails |
| IndexPipelineCode.ContentIndexWorker.OnPruneBlocks | remotestore/remotestore.go:639-684 | after the index was overwritten, deletes the object of every block not kept and counts the deletions that worked; an overwrite that fails deletes nothing |
| IndexPipelineCode.Remote.PutStoredBlock | remotestore/remotestore.go:132-199 | how a put ends, for every way its operations can fail: when the object is written, the block announced and success reported |
| IndexPipelineCode.Remote.WriteObject | remotestore/remotestore.go:152-182 | the write loop: the object is written if and only if one of the first attempt and three retries is accepted and all before it were refused |
| IndexPipelineCode.DeleteUnkept | remotestore/remotestore.go:673-682 | the loop over the pruned blocks deletes exactly the objects that can be deleted, and counts them |
| PruneWorkers.StepKeepsInv | commands/cmd_prunestore.go:181-252 | every step of the loop and of the workers keeps the pool’s invariant |
| PruneWorkers.WorkersAreLimited | commands/cmd_prunestore.go:172-210 | never more than the limit are in flight, so the buffered channel never blocks a worker |
| PruneWorkers.GatherIsExact | commands/cmd_prunestore.go:181-265 | every result of a version with a non-empty path that was got to is received exactly once; an error is reported if and only if some failure was received outside the throttled receive; without one every path was got to; the keep-set is exactly the union over the received versions without error |
| PruneWorkers.GatherTerminates | commands/cmd_prunestore_index.go:125-196 | with a limit of at least 1 every run ends within 5 steps per path and two, and never gets stuck |
| PruneWorkers.LimitZeroHangs | commands/cmd_prunestore_index.go:131-132 | with a limit of 0 and any path the loop waits for ever |
| PruneWorkers.CleanVersionsAreGathered | commands/cmd_prunestore.go:181-265 | without a failing version no run reports an error and all return the whole union |
| PruneWorkers.IgnoreAllFailures | commands/cmd_prunestore.go:187-196 | if they are, some run ignores them all and reports success |
| PruneWorkers.FailuresAreReportedExactly | commands/cmd_prunestore.go:187-196 | a failing version is reported in every run if and only if the failures are too many, or one of them too late, for the throttled receive (counted from the paths and the limit) |
| PruneWorkers.AnUnreadableVersionIsLost | commands/cmd_prunestore.go:187-196 | two versions, one worker: the first cannot be read, and the run succeeds without its blocks |
| PruneWorkers.PollsUntilEmpty | commands/cmd_prunestore.go:212-231 | the loop polls on as long as there is a result and then goes to its head, or to the end after an error or the last path |
| PruneWorkers.NothingStartsAfterAnError | commands/cmd_prunestore.go:181-231 | in every run, once a failure is noticed no further worker is started |
| PruneWorkersCode.CountBlocks | commands/cmd_prunestore.go:191-193 | counts each block of a result; the keys are exactly the blocks seen, although the counters wrap at 32 bits |
| PruneWorkersCode.Admitted | commands/cmd_prunestore.go:187-196 | the throttled receive |
| PruneWorkersCode.PollResults | commands/cmd_prunestore.go:212-231 | the polling loop |
| PruneWorkersCode.DrainResults | commands/cmd_prunestore.go:240-252 | the final loop |
| PruneWorkersCode.GatherBlocksToKeep | commands/cmd_prunestore.go:136-266 | every execution of the code is a complete run of the pool machine and returns what that run ends with, so all its theorems apply |
| BlockDeletion.StepKeepsInv | commands/cmd_prunestore_blocks.go:177-248 | every step of the loop and of the workers keeps the pool’s invariant |
| BlockDeletion.ClientsAreNeverShared | commands/cmd_prunestore_blocks.go:150-248 | there are as many clients as workers or names, whichever are fewer, and in every reachable state each is free, held by exactly one worker or on its way back |
| BlockDeletion.DeletesExactly | commands/cmd_prunestore_blocks.go:177-260 | at the end all clients are back; of the objects got to exactly those whose deletion does not fail are deleted, each once, and none by a dry run; an error is reported if and only if some deletion fails, and without one all were got to |
| BlockDeletion.DeletionTerminates | commands/cmd_prunestore_blocks.go:177-248 | with at least one worker every run ends, although results and clients travel on separate channels |
| BlockDeletion.NoWorkersHang | commands/cmd_prunestore_blocks.go:150-179 | asked for no workers, the loop waits for ever |
| BlockDeletion.PollsUntilEmpty | commands/cmd_prunestore_blocks.go:214-231 | the loop takes results as long as there are some and then goes to its head, or to the end after an error or the last name |
| BlockDeletion.NothingStartsAfterAnError | commands/cmd_prunestore_blocks.go:177-231 | in every run, once a failure is seen no further deletion is started |
| UnusedBlocks.RecordedIsLast | commands/cmd_prunestore_blocks.go:89-102 | a hash is recorded if and only if some listed name carries it, and with the last such name |
| UnusedBlocks.AllUnusedAreRecordedExactly | commands/cmd_prunestore_blocks.go:89-140 | every unused object is recorded for deletion if and only if no two of them carry the same hash |
| UnusedBlocks.FindUnused | commands/cmd_prunestore_blocks.go:89-140 | the loops over listing, index and found blocks yield exactly the names that are the last listed with their hash and whose hash the index does not use, each once |
| BlockDeletionCode.TakeBack | commands/cmd_prunestore_blocks.go:179-183 | takes a client, whosever it is, into the next free slot |
| BlockDeletionCode.Admitted | commands/cmd_prunestore_blocks.go:178-188 | the throttled receive; its error ends the loop |
| BlockDeletionCode.PollResults | commands/cmd_prunestore_blocks.go:214-231 | the polling loop |
| BlockDeletionCode.DrainResults | commands/cmd_prunestore_blocks.go:238-248 | the final loop |
| BlockDeletionCode.DeleteBlocks | commands/cmd_prunestore_blocks.go:150-248 | every execution of the code is a complete run of the pool machine |
| BlockDeletionCode.PruneStoreBlocks | commands/cmd_prunestore_blocks.go:108-260 | an error-free run removes exactly the recorded objects whose hash the index does not use; nothing else is ever removed, and the result says success in exactly the stated cases |
| BlockPaths.BlockPathIsInjective | remotestore/remotestore.go:1940-1946 | no two 64-bit hashes share a block path |
| BlockPaths.BlockPathIsNormal | remotestore/remotestore.go:1556-1557 | a block’s own path is left alone by normalisation |
| BlockPaths.NormalizeKeepsExactly | longtailstorelib/fsstore.go:36-49 | normalisation leaves a path alone if and only if it has no separator of the other kind and none doubled behind its prefix, for all three kinds of path |
| BlockPaths.BlockPathExactly | remotestore/remotestore.go:1940-1946 | a string is the path of a block if and only if it is chunks/, the first four of sixteen hexadecimal digits, /0x, the digits of the hash, most significant first, and .lsb |
| BlockPaths.NormalizeHalvesRuns | longtailstorelib/fsstore.go:36-49 | what normalisation makes of every path: prefix and words stay, and a run of n separators of either kind becomes one of half as many, rounded up, of the prefix’s own kind |
| BlockScan.Compact | remotestore/remotestore.go:1567-1577 | the in-place compaction puts exactly the valid entries in front, in order, and leaves the rest of the slice as it was |
| BlockScan.ScanBatch | remotestore/remotestore.go:1534-1578 | one batch, its goroutines finishing in any order, yields exactly the hashes that are stored under one of its keys at their own path |
| BlockScan.GetStoreIndexFromBlocks | remotestore/remotestore.go:1481-1602 | for every worker count of at least 1 the batched scan terminates and yields exactly the hashes that are stored under some key at their own path, or fails exactly if the setup or some batch fails |
| BlockScan.ScanRecoversBlocks | remotestore/remotestore.go:1550-1561 | over normalised keys a block is indexed if and only if it is stored at its own path, under that key only |
| BlockScan.PresentConcat | remotestore/remotestore.go:1567-1577 | what the compaction keeps of two parts is what it keeps of each, in order |
| PathFilter.RejoinRestores | longtailutils/pathfilter.go:96-137 | joining the pieces with `**` restores every text up to one trailing `**`, which is lost if and only if the text ends in a split |
| PathFilter.SplitJoinExactly | longtailutils/pathfilter.go:96-137 | splitting a join returns the pieces if and only if the last is nonempty, none contains a split and every earlier one ends in scanner state 0 |
| PathFilter.PiecesAreWellCut | longtailutils/pathfilter.go:106-135 | no piece contains a split and every piece but the last ends in state 0 |
| PathFilter.SplitRegexes | longtailutils/pathfilter.go:96-137 | the scanning loop returns the pieces between the cuts of the text (runs of stars, with a star behind a backslash not counted) with their compiled forms, or an error if and only if some piece does not compile |
| PathFilter.Include | longtailutils/pathfilter.go:52-94 | a path is let through if and only if no exclusion matches and (there is no inclusion or some inclusion matches); directories also match with a slash appended |
| PathFilter.MakeRegexPathFilter | longtailutils/pathfilter.go:20-50 | an error if and only if a piece of either text is invalid, no filter if and only if both texts are empty, else the filter of both |
| PathFilter.IncludedByTexts | longtailutils/pathfilter.go:20-94 | made and applied, a filter decides by the pieces of the two texts |
| PathFilter.SplitsAtExactly | longtailutils/pathfilter.go:106-128 | the scanner cuts at a star if and only if it is the second, fourth and so on of its run of stars, not counting a first star behind a backslash |
| PathFilter.ProtectedStarStays | longtailutils/pathfilter.go:107-109 | a star behind a backslash never belongs to a separator |
| PathFilter.SplitCutsExactly | longtailutils/pathfilter.go:96-137 | the pieces are exactly what lies between those cuts, which are read off the text alone |
| HandleTable.SaveAllocates | longtaillib/longtaillib.go:377-393 | saving returns nil if and only if all 1024 slots are taken; otherwise the slot was free, now holds the value, and no other slot changed |
| HandleTable.HandleRestoresItsValue | longtaillib/longtaillib.go:395-404 | over any sequence of calls a handle restores the value it was made for until it is released |
| HandleTable.HandlesInUseDiffer | longtaillib/longtaillib.go:377-414 | a handle is given out again only after it was released |
| HandleTable.UnrefFreesOne | longtaillib/longtaillib.go:406-414 | releasing a handle frees its slot and no other |
| HandleTable.Handles.SavePointer | longtaillib/longtaillib.go:377-393 | the probe loop ends within 1024 steps and does what the allocator specification says, counter included |
| HandleTable.Handles.RestorePointer | longtaillib/longtaillib.go:395-404 | the value in the handle’s slot |
| HandleTable.Handles.UnrefPointer | longtaillib/longtaillib.go:406-414 | clears the handle’s slot and nothing else |
| HandleTable.SaveTakesNextFree | longtaillib/longtaillib.go:377-393 | a value goes to the first free slot behind the counter’s, round the table and round 2^32, and the counter moves there, or once round and one on if there is none; nil changes nothing |
| DownsyncValidation.PathsSize | commands/cmd_downsync.go:413-415 | an index has as many paths as assets if and only if its paths are distinct |
| DownsyncValidation.AgreementIsEquality | commands/cmd_downsync.go:413-453 | if the written paths are distinct, walking the written side passes if and only if the source paths are distinct and both trees are equal as maps from path to size and hash (and permissions when retained) |
| DownsyncValidation.PassedIsEqualExactly | commands/cmd_downsync.go:432-453 | what passes is equal if and only if no source path is missing from the written side |
| DownsyncValidation.RepeatedPathsPass | commands/cmd_downsync.go:432-453 | with a repeated written path the validation passes although an asset is missing |
| DownsyncValidation.FillLookups | commands/cmd_downsync.go:422-431 | the three lookup maps hold the source tree; of assets with the same path, the last |
| DownsyncValidation.Validate | commands/cmd_downsync.go:413-453 | accepts if and only if the counts agree and every written asset is the same as the last source asset with its path; otherwise names the first asset that is not and the first reason in the order of the checks |
| DownsyncValidation.PassesExactlyIfSame | commands/cmd_downsync.go:413-453 | a written version without repeated paths passes if and only if the source has none either and each of the two has every asset of the other, with same path, size and hash (and permissions when retained) |

## Left out

- FlushEnd: the pipeline machine takes an add to the remote index as one step, at the moment of its write; its inner steps are those of LockFreeIndex and LockedIndex, which prove what the step relies on (ReturnedIndexBounds, SuccessReturnsStored).
- TryAddRemoteStoreIndex: a client can be overtaken for ever, so the code has no bound for its retries; here the number of times that the other clients still change the files is a parameter that bounds them (`left`).
- ReadStoreIndexWithItems: one round of the code's listing loop; its repetitions are those of the loop in LockFreeIndexClient.AddToRemoteStoreIndex, which makes no difference because neither counts as an error. A failed listing, read, existence check or write is an error at that operation (`faults`), and a failed delete is passed over.
- AddToRemoteStoreIndex: there is one for each kind of store. With write conditions it runs over the in-memory store's code, and an attempt in which an operation fails is taken to have no effect, as in the LockedIndex machine.
- TryAddRemoteStoreIndexWithLocking: run over the code of the in-memory store; for the file system store the same follows from the LockedIndex machine, which takes either kind of cell, and the contracts of FsBlobStore.
- TryOverwriteWithoutLocking: no other client runs meanwhile (see above); the listing is given.
- TryOverwriteUnlockedWithRetry: how often a write is refused without an error is bounded by a parameter; the code's loop has no bound for that.
- TryOverwriteWithRetry: the branch with write conditions; an attempt in which an operation fails is taken to have no effect.
- Interference: of LockFreeIndexClient, a body that lets nobody run stands for all allowed behaviours; callers see only its contract, an arbitrary sequence of other clients' steps.
- WriteCell: generations are unbounded integers; wrapping after 2^63 writes, the eight-byte format of `.gen` files and a `.gen` file without its data file are not modelled.
- GetCurrentStoreIndex: optional local index paths of read-only sessions are left out, and for a session that rebuilds the index, an add that fails right after the rebuild.
- OnPruneBlocks: deletions run one after the other in any order; in the code the session's workers share them.
- FetchBlockEnd: copying a block for each further waiter is taken to succeed; a read never yields neither a block nor an error.
- PrefetchBlockEnd: map entries are values here; in the code they are shared records, changed only under the mutex.
- GatherBlocksToKeep: reading one version and writing its local index (pruneOne) is a parameter that gives the version's blocks or an error; the number of processors used for a worker count of 0 is the caller's limit here.
- FindUnused: the regular expression that extracts a hash from an object name is a parameter.
- DeleteBlocks: closing the clients at the end is not modelled; that every slot holds its own client then is (DeletesExactly).
- GetStoreIndexFromBlocks: reading and decoding one object, with its retries, is a parameter; a worker count of 0 makes the loop run for ever and is excluded.
- SplitRegexes: compiling and matching regular expressions is a parameter.
- IncludedByTexts: letting every path through when there is no filter is what the C library does with an empty filter; its source is not part of this model.
- SavePointer: one caller at a time, as the slot array itself is not protected in the code.
- Validate: making the version index of the written folder is not modelled.
- The C library (chunking, hashing, compression, version differences): its source is not part of this model; only merging, pruning and round trips of indexes are assumed.
- Cloud storage clients, credentials, paging of listings: network plumbing over libraries that are not part of this model.
- Preflight requests and the choice of blocks to prefetch: they only feed the cache modelled here.
- Logging, progress, statistics, retry delays, command-line options, disposal of native objects: no property of the protocols.
- The bodies of the other commands: straight-line calls; the validation of the unpack command repeats that of downsync.
