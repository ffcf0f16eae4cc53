# The caching stack and the connection pool of the iRODS FUSE client

The FUSE client keeps four pieces of state between the kernel and an iRODS server. This project models
each of them twice: once as it is written, with classes, arrays and loops, and once on plain values. The
methods of a class are proved to do exactly what the value function of the same name says, and the theorems
are about the value functions; only the prefetching layer states its theorems on its methods.

* **Write-back block cache** (`Bytes`, `Blocks`, `BufferModel`, `BufferRuns`, `BufferGaps`, `GapReads`, `Outages`,
  `BufferTable`, `BufferedFs`, `Remote`). One pending extent per path and one clean block per descriptor stand
  for a plain byte array. `BufferModel.View` is that array: the server's bytes with the pending extent laid
  over them. Below it, `Remote.FuseFs` leaves out a seek when it believes the server's cursor is already in
  place.
* **Prefetching** (`Prefetch`, `PrefetchPlan`, `Preload`, `PreloadRuns`). A window of blocks ahead of the reader,
  each read by a worker through a descriptor of its own. A worker runs at some call boundary between its start
  and its join. Which threads start and which workers read their block is an input of each call
  (`PrefetchPlan.Threads`); `PrefetchPlan.Walk` says, by block number alone, which blocks are held then and how
  far a read gets.
* **Connection pool** (`PoolModel`, `ConnPool`). Counted connections in five containers, with an idle reaper.
* **Metadata cache** (`Paths`, `DirBuffer`, `MetaModel`, `Renaming`, `MetaRuns`, `Trees`, `MetaHits`,
  `MetaWitnesses`, `MetadataCache`). Cached listings are patched by every operation on names. Beside it stands
  the server's set of names, and `Trees` holds the reference, a plain tree.

Each call of a client is one atomic step. The server is a class or a value of its own: byte files with a
cursor per handle, a set of names, and a flag `up` that is false while every call to it fails. The clock, the
outcome of connecting, what a thread or a keep-alive request meets, and the order in which the server lists
a directory are parameters or nondeterministic choices.

Some properties turned out not to hold of the code in every case. For these the exact condition under which
they do hold is proved, and a small input that fails is given:

* a write past the end of the file leaves the cache incoherent (`BufferModel.WriteBlockView` for a chunk,
  `BufferGaps.WriteExact` for a whole write), and reads then show the caller's old buffer bytes in the gap or
  stop before it (`BufferGaps.OverlayExact`, `GapReads.GapReadExact`; input: `BufferGaps.SparseReadWrong`);
* while the server is down the pending extent is lost, after it has entered the caches, so that descriptors on
  one file can read different bytes (`Outages.OutageLosesDelta`, `Outages.OutageDisplaces`; inputs:
  `Outages.ReadersDisagree`, `Outages.ByteLost`);
* a read that starts behind the end of the file inside its last block, or whose block number wraps, copies
  with a wrapped length (`BufferModel.ReadExact`; input: `BufferGaps.ReadPastEnd`);
* a read ends before the first of its blocks that is neither held nor started (`PrefetchPlan.WalkExact`,
  `PreloadRuns.ReadWhole`; input: `PreloadRuns.ReadsAsEmpty`);
* joining a path that fills its buffer exactly loses the last character without an error
  (`Paths.JoinExact`; input: `Paths.FullBuffer`);
* the metadata cache disagrees with the server after a directory is renamed with something below it cached
  (`Renaming.MoveExact`; input: `MetaWitnesses.OldPathFound`), and after a directory reading that broke off
  (`MetaModel.ReadDirExact`; input: `MetaWitnesses.HalfRead`);
* it denies existing files from listings past the timeout (`MetaModel.GetAttrExact`), and the root from its
  own listing, fresh or outdated (`MetaModel.RootExact`; input for both: `MetaWitnesses.NewFileDenied`).

## Model

| member | source | states |
|---|---|---|
| Blocks.BlockBelowLimit | src/iFuse.BufferedFS.cpp:71-97 | below 2^32 blocks the block number is the quotient and the in-block offset is inside the block |
| Blocks.BlockAboveLimit | src/iFuse.BufferedFS.cpp:71-97 | from there on the 32-bit number names an earlier block and the in-block offset is a whole limit or more |
| BufferModel.PushView | src/iFuse.BufferedFS.cpp:103-130 | a pending extent that leaves for the server changes no file in view and leaves every descriptor's cached block equal to the server's block |
| BufferModel.WriteBlockView | src/iFuse.BufferedFS.cpp:296-404 | merging, displacing and creating the pending extent all come to one splice of the file in view and leave other files alone, wherever the chunk starts; the state stays coherent if and only if the chunk starts no later than the end of the file; only a displacing chunk fails, and only while the server is down |
| BufferModel.WriteBlockDefers | src/iFuse.BufferedFS.cpp:296-404 | writing back: the server sees a chunk only when another displaces it; until then chunks that touch grow one pending extent |
| BufferModel.WriteView | src/iFuse.BufferedFS.cpp:687-721 | a write over any number of blocks answers its size and is one splice of the whole buffer at its offset, a gap before it included; without a gap the state stays coherent; only while the server is down can it fail |
| BufferModel.WriteWrites | src/iFuse.BufferedFS.cpp:687-721 | the same splice for every descriptor and every state in shape, coherent or not |
| BufferModel.OverlayView | src/iFuse.BufferedFS.cpp:268-293 | the pending extent laid over the clean block is the block of the file in view |
| BufferModel.ReadBlockView | src/iFuse.BufferedFS.cpp:173-294 | a block read delivers the block in view, succeeds if and only if the server is up or the block is cached, changes only the reader's own cached block, and leaves the block read in it, or nothing if it failed |
| BufferModel.ReadExact | src/iFuse.BufferedFS.cpp:617-682 | a read of any range returns exactly the bytes in view if and only if its offset can be addressed; otherwise the copy length wraps |
| BufferModel.FlushView | src/iFuse.BufferedFS.cpp:570-594 | after a flush by a writer the server holds exactly the bytes that were in view, and the view is unchanged; a flush by a reader changes nothing |
| BufferModel.CloseView | src/iFuse.BufferedFS.cpp:520-565 | the same after a close, and no pending extent outlives the last writer |
| BufferModel.OpenView | src/iFuse.BufferedFS.cpp:499-515 | opening gives a new descriptor and changes no file in view |
| BufferModel.CreateView | src/iFuse.FS.cpp:637-756 | creating gives an empty file and changes no other |
| BufferModel.GetAttrView | src/iFuse.BufferedFS.cpp:461-494 | with the metadata cache off, the reported size is the size in view, in every state in shape; while the server is down there is none |
| Outages.RefusedPush | src/iFuse.BufferedFS.cpp:132-171 | a pending extent the server refuses leaves the caches true if and only if the server has its bytes already or no descriptor caches its block |
| Outages.OutageLosesDelta | src/iFuse.BufferedFS.cpp:132-171 | a flush or close that fails drops the pending extent: the file in view is kept if and only if the server has the bytes already, and the cache stays coherent if and only if it has them already or no descriptor caches their block |
| Outages.OutageDisplaces | src/iFuse.BufferedFS.cpp:340-373 | the same two conditions for a chunk that displaces the pending extent while the server is down; the chunk itself stays pending though an error is answered |
| Outages.OutageWrite | src/iFuse.BufferedFS.cpp:687-721 | while the server is down a write is accepted if and only if it stays in one block and displaces nothing |
| Outages.DownRefuses | src/iFuse.BufferedFS.cpp:499-594 | while the server is down nothing is opened, created or flushed, and a descriptor with nothing pending is closed all the same |
| Outages.ReadDown | src/iFuse.BufferedFS.cpp:617-682 | while the server is down a read is answered if and only if the descriptor has cached its first block and it needs no other |
| Outages.ReadersDisagree | src/iFuse.BufferedFS.cpp:143-161 | after a failed flush two descriptors on one file read different bytes |
| Outages.ByteLost | src/iFuse.BufferedFS.cpp:340-373 | a byte written into the next block while the server is down stays pending, and the byte pending before it is lost |
| BufferRuns.StepRefines | src/iFuse.BufferedFS.cpp:461-721 | each call answers as on plain byte files and keeps the state standing for them |
| BufferRuns.RunRefines | src/iFuse.BufferedFS.cpp:461-721 | any run of calls over any descriptors and paths is answered exactly as plain byte files answer it |
| BufferRuns.FreshIsCoherent | src/iFuse.BufferedFS.cpp:25-28 | a client that has just started, over any server, is in a state the runs may begin in |
| BufferGaps.WriteExact | src/iFuse.BufferedFS.cpp:687-721 | a write over any number of blocks leaves the cache coherent if and only if it leaves no gap, or it reaches past its first block and no descriptor caches another block with a byte of the gap |
| BufferGaps.OverlayExact | src/iFuse.BufferedFS.cpp:268-293 | with a gap before the pending extent, the block read is right if and only if no gap byte is in the block, or the block is the extent's and the old buffer held zeros there |
| GapReads.GapLeavesPending | src/iFuse.BufferedFS.cpp:296-404 | a chunk that starts past the end leaves a state that is coherent but for its own extent |
| GapReads.GapReadExact | src/iFuse.BufferedFS.cpp:617-682 | with a gap pending, a whole read returns the bytes in view if and only if it is empty, ends inside the server's file, starts behind the extent's block, starts in that block no later than the extent's end, or comes from before it, where the server's file reaches up to that block and has zeros one block before every gap byte read |
| GapReads.GapPushed | src/iFuse.BufferedFS.cpp:103-130 | when the extent behind a gap reaches the server, the file stays as it is in view, and the caches stay true if and only if none holds another block with a byte of the gap |
| GapReads.GapFlushExact | src/iFuse.BufferedFS.cpp:570-594 | the same for a flush |
| GapReads.GapCloseExact | src/iFuse.BufferedFS.cpp:520-565 | the same for a close, where the closed descriptor's own block does not count |
| BufferGaps.SparseReadWrong | src/iFuse.BufferedFS.cpp:622-677 | one byte written two past the end of a five-byte file makes a read return bytes of the first block in the gap |
| BufferGaps.ReadPastEnd | src/iFuse.BufferedFS.cpp:655-667 | a read at offset 7 of a five-byte file in blocks of four copies with a wrapped length |
| Tables.BufferTable.ApplyDeltaToCache | src/iFuse.BufferedFS.cpp:103-130 | the loop over all cached blocks patches each as the value function does |
| Tables.BufferTable.MergeDelta | src/iFuse.BufferedFS.cpp:313-339 | the extent in its new buffer is the merged one |
| Tables.BufferTable.DisplaceDelta | src/iFuse.BufferedFS.cpp:340-359 | the old extent is handed out, the caches have it, the new one is pending |
| Tables.BufferTable.OverlayDelta | src/iFuse.BufferedFS.cpp:268-293 | the caller's buffer holds the block with the pending extent over it |
| Buffered.BufferedFs.WriteBlock | src/iFuse.BufferedFS.cpp:296-404 | the maps and buffers after a chunk are those of the value function, and so is the answer |
| Buffered.BufferedFs.Write | src/iFuse.BufferedFS.cpp:687-721 | the same for the whole loop |
| Buffered.BufferedFs.ReadBlock | src/iFuse.BufferedFS.cpp:173-294 | the same for a block read, with the buffer left behind |
| Buffered.BufferedFs.Read | src/iFuse.BufferedFS.cpp:617-682 | the same for the whole read, bytes, count and wrapped copies included |
| Buffered.BufferedFs.FlushDelta | src/iFuse.BufferedFS.cpp:132-171 | the same for writing the pending extent back |
| Buffered.BufferedFs.Flush | src/iFuse.BufferedFS.cpp:570-594 | the same for a flush |
| Buffered.BufferedFs.Close | src/iFuse.BufferedFS.cpp:520-565 | the same for a close |
| Buffered.BufferedFs.Open | src/iFuse.BufferedFS.cpp:499-515 | the same for an open |
| Buffered.BufferedFs.Create | src/iFuse.FS.cpp:637-756 | the same for creating a file |
| Buffered.BufferedFs.GetAttr | src/iFuse.BufferedFS.cpp:461-494 | the same for the size |
| Remote.FuseFs.Open | src/iFuse.Lib.Fd.cpp:284-357 | a new descriptor has a fresh number and a new handle at position 0, but remembers its position as unknown |
| Remote.FuseFs.Close | src/iFuse.Lib.Fd.cpp:583-597 | the descriptor is gone whatever the server answers, and its handle too if the server is up |
| Remote.FuseFs.Flush | src/iFuse.Lib.Fd.cpp:362-452 | one handle is replaced by a new one at position 0, and the remembered position is unknown; while the server is down nothing changes |
| Remote.FuseFs.SeekTo | src/iFuse.FS.cpp:319-393 | the seek is left out, and cannot fail, if and only if the offset is the position remembered; either way the server's cursor is at the offset afterwards, or the position is unknown |
| Remote.FuseFs.Read | src/iFuse.FS.cpp:299-456 | the bytes come from the requested offset, and the position remembered is the end of what was read |
| Remote.FuseFs.Write | src/iFuse.FS.cpp:458-610 | the bytes go to the requested offset, and the position remembered is the end of what was written |
| Prefetch.WindowIs | src/iFuse.Preload.cpp:297-318 | unless the 32-bit sum wraps, the wanted blocks are the reader's and the next N |
| Prefetch.SortedMore | src/iFuse.Preload.cpp:297-318 | each block of the list stays, covering one place of the window not covered before, or leaves |
| Prefetch.FillingStarted | src/iFuse.Preload.cpp:425-442 | a missing block is not in the list, starting it keeps the numbers distinct and uses a recycled descriptor up |
| Prefetch.FillingDone | src/iFuse.Preload.cpp:425-449 | at the end of the start loop no recycled descriptor is left and at most N + 1 blocks are held |
| Prefetch.LedgerRan | src/iFuse.Preload.cpp:163-229 | a worker that opens a descriptor gives it to its own block; the descriptors of others, and the blocks cached in them, are untouched |
| Prefetch.FineUpdate | src/iFuse.Preload.cpp:275-453 | reading through one file's blocks leaves every other file's list in order |
| PrefetchPlan.RoundSteps | src/iFuse.Preload.cpp:275-453 | what one block read does to the list step by step comes to this: of the blocks wanted, those held that do not leave and those whose threads start; the reader's is done or failed |
| PrefetchPlan.RoundFull | src/iFuse.Preload.cpp:425-442 | if every missing block's thread starts, the window is full |
| PrefetchPlan.WalkEnds | src/iFuse.Preload.cpp:589-645 | a read ends where it began, at its end, or at the start of a block of the file |
| PrefetchPlan.WalkExact | src/iFuse.Preload.cpp:572-666 | a read returns the bytes a plain read returns if and only if every block with bytes of the answer was held at the start, or its thread started at or ahead of its turn, or a block before it was found to have failed |
| Preloading.PreloadFs.RunTask | src/iFuse.Preload.cpp:163-229 | a worker reads its block into its own descriptor, which it opens if it was given none, if and only if it meets no failure of its own and the server serves the file or the block is there already; it changes nothing else |
| Preloading.PreloadFs.DoneIsCached | src/iFuse.Preload.cpp:163-229 | in every list, whatever was read, written, flushed or recycled since, a block that is done is in the cache of its own descriptor |
| Preloading.PreloadFs.JoinAll | src/iFuse.Preload.cpp:320-341 | each block that leaves is waited for, and its worker ends as it would have |
| Preloading.PreloadFs.FreePBlock | src/iFuse.Preload.cpp:77-112 | a freed block's descriptor is closed, and no other |
| Preloading.PreloadFs.StartPreload | src/iFuse.Preload.cpp:231-273 | a new block takes over the recycled descriptor, or closes it if its thread does not start; the list grows, and all descriptors stay owned, exactly if it starts |
| Preloading.PreloadFs.Scan | src/iFuse.Preload.cpp:297-318 | the blocks kept are exactly the reader's and the flagged places ahead |
| Preloading.PreloadFs.Recycle | src/iFuse.Preload.cpp:343-360 | the removed blocks that are done are recycled, in order and with their descriptors |
| Preloading.PreloadFs.RecycleOrClose | src/iFuse.Preload.cpp:343-360 | besides, the descriptors of the removed blocks that are not done are closed |
| Preloading.PreloadFs.StartMissing | src/iFuse.Preload.cpp:425-449 | of the missing blocks exactly those whose threads start are added, nothing recycled is left over, and if all start no descriptor is lost |
| Preloading.PreloadFs.ReadHeld | src/iFuse.Preload.cpp:380-423 | the reader's block is waited for and read through its own descriptor; what is read is the block in view, and it is read, with the server up or down, if and only if its worker read it |
| Preloading.PreloadFs.ReadPreload | src/iFuse.Preload.cpp:275-453 | the list holds exactly the blocks of PrefetchPlan.Round afterwards, the block read is the block in view, a block that is done is delivered with the server up or down, nothing is read exactly where the block is not held, if all threads start no done block's descriptor is lost, and all other descriptors keep what they have cached |
| Preloading.PreloadFs.Read | src/iFuse.Preload.cpp:572-666 | the read answers as the block cache answers one of the bytes before the first block neither held nor started, or of all of them, restarts included, and the list holds what PrefetchPlan.Walk says; this also while the server is down if no block has to wait for its worker, but a restart may fail then |
| Preloading.PreloadFs.Open | src/iFuse.Preload.cpp:484-522 | the file is opened as without prefetching, its first blocks whose threads start are held, and every further descriptor belongs to one of them |
| Preloading.PreloadFs.Close | src/iFuse.Preload.cpp:527-567 | every descriptor opened for prefetching is closed with the file, and no other |
| Preloading.PreloadFs.WorkerStep | src/iFuse.Preload.cpp:163-229 | a worker may run between any two calls; its block is done if and only if it could read it, and no list is disturbed |
| Preloading.PreloadFs.Write | src/iFuse.BufferedFS.cpp:687-721 | a write goes straight to the block cache and keeps every list in order |
| PreloadRuns.Do | src/iFuse.Preload.cpp:484-666 | every call through the prefetching layer, and every worker's step, does and answers what the reference does: plain files beside the blocks held for each descriptor, where only reads depend on the blocks held |
| PreloadRuns.Serve | src/iFuse.Preload.cpp:484-666 | any run of any client that makes allowed calls, choosing each by the answers so far, with any threads starting or not and workers running between the calls, is explained by a run of the reference |
| PreloadRuns.ReadWhole | src/iFuse.Preload.cpp:572-666 | a read of the reference answers what plain files answer if and only if the blocks it needs were held or started in time, or one before them failed |
| PreloadRuns.ReadsAsEmpty | src/iFuse.Preload.cpp:589-630 | a file of one byte reads as empty while no thread starts |
| PoolModel.AcquireKeeps | src/iFuse.Lib.Conn.cpp:515-675 | one more use of the connection answered, no other touched; refused, only the number generator moves; a connection is made, or refused, only where none waits and none can be shared, and a one-time connection is always new |
| PoolModel.ReleaseKeeps | src/iFuse.Lib.Conn.cpp:680-739 | one use less; the assertions on a short-operation connection hold; a one-time connection is closed with its last use |
| PoolModel.LastBackFirstOut | src/iFuse.Lib.Conn.cpp:577-600 | a connection given back is the next one handed out for its kind of use, unless it is closed |
| PoolModel.ReapKeeps | src/iFuse.Lib.Conn.cpp:320-344 | closed are exactly the waiting connections that timed out, never one in use |
| PoolModel.FreshOrder | src/iFuse.Lib.Conn.cpp:320-334 | the connections left waiting stay in their order |
| PoolModel.OnePlace | src/iFuse.Lib.Conn.cpp:21-25 | each live connection is in exactly one container |
| PoolModel.Bounded | src/iFuse.Lib.Conn.cpp:577-621 | file connections, waiting ones included, never outnumber the slots; at most one short-operation connection exists |
| PoolModel.AcquireLoads | src/iFuse.Lib.Conn.cpp:579-650 | a file transfer always adds one to the first least load, an empty slot counting as zero |
| PoolModel.StepSound | src/iFuse.Lib.Conn.cpp:515-739 | every step of matched clients keeps counts equal to uses outstanding |
| PoolModel.Reachable | src/iFuse.Lib.Conn.cpp:266-350 | in every reachable pool counts are uses outstanding, places and bounds are right, and the least load times the slots is at most the file uses outstanding |
| PoolModel.RunEven | src/iFuse.Lib.Conn.cpp:622-650 | as long as nothing is given back, the loads of the slots differ by at most one |
| Connections.ConnPool.GetShortop | src/iFuse.Lib.Conn.cpp:528-576 | the containers afterwards are those of the value function, and so is the answer |
| Connections.ConnPool.LeastUsed | src/iFuse.Lib.Conn.cpp:623-640 | the loop finds the first of the connections with the fewest uses, and finds one |
| Connections.ConnPool.GetFileIo | src/iFuse.Lib.Conn.cpp:577-651 | the containers afterwards are those of the value function, and so is the answer |
| Connections.ConnPool.GetOneTime | src/iFuse.Lib.Conn.cpp:652-669 | the containers afterwards are those of the value function, and so is the answer |
| Connections.ConnPool.GetAndUse | src/iFuse.Lib.Conn.cpp:515-675 | the three kinds together |
| Connections.ConnPool.Unuse | src/iFuse.Lib.Conn.cpp:680-739 | the containers afterwards are those of the value function; the assertions hold |
| Connections.ConnPool.KeepAlive | src/iFuse.Lib.Conn.cpp:227-264 | one connection's time of last activity becomes now if it is due and the server answers |
| Connections.ConnPool.KeepAllAlive | src/iFuse.Lib.Conn.cpp:280-318 | for every live connection, whichever container it is in, the time of last activity becomes now if it is due and the server answers; nothing else changes |
| Connections.ConnPool.CloseIdle | src/iFuse.Lib.Conn.cpp:320-344 | the removal loops leave what the value function leaves |
| Connections.ConnPool.Checker | src/iFuse.Lib.Conn.cpp:266-350 | the two parts, with exactly those effects, run only when the check interval has passed |
| Paths.SplitOfJoin | src/iFuse.Lib.Util.cpp:62-119 | splitting undoes joining, the root as a parent included |
| Paths.JoinOfSplit | src/iFuse.Lib.Util.cpp:62-119 | joining undoes splitting |
| Paths.SplitExact | src/iFuse.Lib.Util.cpp:62-86 | into buffers of any size a path splits into its directory and name, or is refused if and only if one of them does not fit |
| Paths.JoinSlashes | src/iFuse.Lib.Util.cpp:88-107 | one slash at the end of the directory and one before the name are left out; an empty argument is out of range |
| Paths.JoinExact | src/iFuse.Lib.Util.cpp:108-118 | the join is right if and only if the path with its terminator fits; one longer it loses its last character, and only beyond that is it refused |
| Paths.FullBuffer | src/iFuse.Lib.Util.cpp:108-118 | joining /a and bc in a buffer of five characters gives /a/b |
| MetaModel.KeysAgree | src/iFuse.Lib.MetadataCache.cpp:671-787 | a stat and an entry stored under directory and name are found, and removed, under the full path |
| DirBuffer.RoundTrip | src/iFuse.Lib.MetadataCache.cpp:275-303 | unpacking a packed listing gives its names in order, without empty ones |
| DirBuffer.RoundTripExact | src/iFuse.FS.cpp:954-961 | it gives the listing itself if and only if no name is empty |
| DirBuffer.Pack | src/iFuse.Lib.MetadataCache.cpp:275-303 | the second pass writes exactly the length the first one measured |
| DirBuffer.CopyBuffer | src/iFuse.Lib.Fd.cpp:556-565 | the handle's buffer is a copy |
| DirBuffer.Unpack | src/iFuse.FS.cpp:954-961 | the pointer walk yields the names the value function yields, inside the buffer |
| Trees.TruthIsLookup | src/iFuse.FS.cpp:180-203 | what is true of a path is what the plain tree says of it |
| Trees.OpRefines | src/iFuse.FS.cpp:637-1273 | creating, unlinking, making, removing and moving do to the names what they do to a plain tree, and answer the same status; the cache shows only where a move was denied its target |
| Trees.RunRefines | src/iFuse.FS.cpp:637-1273 | any legal run of whatever calls, the server coming and going, leaves the names of the plain tree and answers its statuses |
| Trees.DenialHarmless | src/iFuseOper.cpp:562-605 | for a file moved onto another it does not matter that the client was denied the other |
| MetaModel.CreateFine | src/iFuse.FS.cpp:745-753 | creating a file keeps fresh listings and stats true |
| MetaModel.UnlinkFine | src/iFuse.FS.cpp:823-831 | removing a file does |
| MetaModel.MakeDirFine | src/iFuse.FS.cpp:1076-1086 | making a directory does |
| MetaHits.NewDirTrue | src/iFuse.FS.cpp:1076-1086 | in a directory just made nothing that exists is denied |
| MetaHits.MovedDirTrue | src/iFuse.FS.cpp:1255-1273 | nor in one just moved to its place |
| MetaModel.DropDirFine | src/iFuse.FS.cpp:1172-1182 | removing a directory does |
| MetaModel.ReadDirExact | src/iFuse.FS.cpp:948-1013 | reading a directory does if and only if it was read to its end or nothing was read |
| MetaHits.ListedLasts | src/iFuse.FS.cpp:976-1013 | so is the kind of every name a reading brought |
| MetaHits.ListingLasts | src/iFuse.FS.cpp:836-901 | a directory that was read and was not empty is listed from the cache for the timeout, as the server has it, over any run that does not remake, remove or rename it |
| MetaModel.CacheDirFine | src/iFuse.FS.cpp:1463-1566 | filling a listing without clearing the old one does, because the old one stays old |
| MetaHits.CacheDirExact | src/iFuse.FS.cpp:1463-1566 | it leaves a listing to answer from if and only if a fresh one was there, or none was and there is something to list |
| MetaModel.OpenDirTrue | src/iFuse.FS.cpp:836-901 | a listing handed out from the cache is the server's as a multiset |
| MetaModel.GetAttrExact | src/iFuse.FS.cpp:82-215 | existence and kind are right if and only if the file does not exist, its stat is cached, or no outdated listing survived the clearing |
| MetaHits.AnswerLasts | src/iFuse.FS.cpp:82-215 | an attribute answer that the server gave is given again for the timeout, with the server up or down, over any run that leaves the path and the directories above it alone and does not empty the cache |
| MetaModel.RootExact | src/iFuse.FS.cpp:82-115 | the root is found if and only if its stat is fresh in the cache or no listing of it survived the clearing; otherwise it is denied |
| MetaWitnesses.HalfRead | src/iFuse.FS.cpp:976-1013 | one name of two read before the reading broke off: the other file is denied |
| MetaWitnesses.NewFileDenied | src/iFuse.FS.cpp:82-115 | a run of three calls after which a file just created, and the root, are denied |
| Renaming.RenameExact | src/iFuse.FS.cpp:1255-1273 | a rename to a free name keeps listings and stats true if and only if nothing below the old path is cached |
| MetaWitnesses.OldPathFound | src/iFuse.FS.cpp:1255-1273 | after a directory with one file was renamed, the file is still found under its old path |
| Renaming.RenameOverExact | src/iFuse.FS.cpp:1206-1273 | a forced rename of a file onto another keeps them true if and only if no fresh listing of the target's directory is cached |
| Renaming.DeniedTarget | src/iFuseOper.cpp:586-597 | where the client does not find an existing target, no fresh listing of its directory is cached |
| Renaming.MoveFileFine | src/iFuseOper.cpp:562-605 | asking for the target, unlinking it if it is found, and renaming by force keeps listings and stats true for every file, whatever the target is |
| Renaming.MoveExact | src/iFuseOper.cpp:562-605 | for any path it does if and only if no directory is moved or nothing below it is cached once old stats are dropped |
| Renaming.RenameFileFine | src/iFuse.FS.cpp:1255-1273 | the rename of a file to a free name always does |
| MetaRuns.DirAgeBound | src/iFuse.Lib.MetadataCache.cpp:515-553 | after a clearing no listing is older than one and a half timeouts, and none within the timeout is dropped |
| MetaRuns.StatAgeBound | src/iFuse.Lib.MetadataCache.cpp:475-513 | the same for stats |
| MetaHits.ClearOnce | src/iFuse.Lib.MetadataCache.cpp:515-553 | within half a timeout of a clearing another one changes nothing |
| MetaHits.ClearStatOnce | src/iFuse.Lib.MetadataCache.cpp:475-513 | the same for stats |
| MetaRuns.RunFine | src/iFuse.FS.cpp:745-1273 | over any run under a clock that does not go back, fresh listings and stats stay true and no cached listing has an empty name |
| MetaRuns.RunAnswers | src/iFuse.FS.cpp:82-115 | after any run a fresh listing's answer is right; a wrong answer about a file only ever denies one whose directory's listing is between one and one and a half timeouts old; the root is denied exactly when its stat is not fresh and a listing of it survived the clearing |
| Metadata.MetadataCache.CacheDirEntry | src/iFuse.Lib.MetadataCache.cpp:158-214 | the maps afterwards are those of the value function |
| Metadata.MetadataCache.CacheStat | src/iFuse.Lib.MetadataCache.cpp:115-156 | the maps afterwards are those of the value function |
| Metadata.MetadataCache.AddDirEntryIfFresh2 | src/iFuse.Lib.MetadataCache.cpp:704-722 | the maps afterwards are those of the value function |
| Metadata.MetadataCache.RemoveDirCacheEntry | src/iFuse.Lib.MetadataCache.cpp:436-473 | the first entry of the name is erased in place |
| Metadata.MetadataCache.RemoveDirEntry2 | src/iFuse.Lib.MetadataCache.cpp:774-787 | the maps afterwards are those of the value function |
| Metadata.MetadataCache.CheckExistence | src/iFuse.Lib.MetadataCache.cpp:352-386 | the loop answers whether the name is in the listing, of any age |
| Metadata.MetadataCache.ClearExpiredDir | src/iFuse.Lib.MetadataCache.cpp:647-662 | the collecting and erasing loops leave what the value function leaves |
| Metadata.MetadataCache.ClearExpiredStat | src/iFuse.Lib.MetadataCache.cpp:630-645 | the same for stats |
| Metadata.MetadataCache.ListCached | src/iFuse.FS.cpp:848-871 | packed, copied and unpacked, a fresh listing reaches the caller unchanged |
| Metadata.MetadataCache.Consult | src/iFuse.FS.cpp:92-114 | what the cache answers before the server is asked |
| Metadata.MetadataCache.Renamed | src/iFuse.FS.cpp:1255-1273 | the maps after a rename are those of the value function |
| Metadata.MetadataCache.ReadDir | src/iFuse.FS.cpp:965-1012 | the maps after a reading are those of the value function |

## Left out

- BufferModel.WriteView: takes only writes below 2^32 blocks; beyond, the 32-bit block number wraps (Blocks.BlockAboveLimit), and a later copy between an extent and the block of that number has no defined result in the source. Whole runs with gaps in them are not modelled; BufferGaps.WriteExact, GapReads.GapReadExact, GapReads.GapFlushExact and GapReads.GapCloseExact say what one call does.
- Buffered.BufferedFs.Write: takes only writes below 2^32 blocks, like BufferModel.WriteView.
- Preloading.PreloadFs.Write: the same.
- BufferRuns.RunRefines: the server is up during the run, no write leaves a gap, and every read can be addressed; Outages.OutageLosesDelta, Outages.OutageDisplaces, BufferGaps.WriteExact, GapReads.GapReadExact and BufferModel.ReadExact say what happens otherwise.
- BufferRuns.StepRefines: asks the same of one step.
- PreloadRuns.Serve: asks the same of its client, and PreloadRuns.Do of one call.
- GapReads.GapReadExact: is for one gap, reads below 2^32 blocks, and a caller's buffer that starts with zeros, as the source's does.
- PrefetchPlan.WalkExact: is for reads whose blocks, and those prefetched with them, are below number 2^32, and so is PreloadRuns.ReadWhole; Preloading.PreloadFs.Read has no such limit.
- Preloading.PreloadFs: workers run between calls or where they are waited for, not between two blocks of one read.
- Preloading.PreloadFs.Read: is for descriptors opened through the prefetching layer; the branch for a descriptor without a list, which only a failed allocation makes, is the plain read of the block cache.
- Preloading.Preload: the records of prefetch blocks are values in the list of their file, so that aliasing of the records is not modelled; descriptors are named by their number, and ownership of them is proved.
- Connections.ConnPool.Unuse: is called by a holder of the connection; runs with unmatched calls end in PoolModel.Run.
- MetaModel.ReadDir: the server's directory handle is not modelled; the reading sees the names of the moment it happens.
- Paths.JoinPath: copying into a buffer is taken to cut the string to fit; the iRODS function rstrcpy that does it is not part of this model.
- The iRODS protocol, login, tickets and sockets: an abstract server stands for them.
- Reconnecting and retrying: what the server does with an old handle after a reconnect is not visible in this repository.
- Interleavings while the buffer lock is dropped around a server call, and concurrent reads on one descriptor: coherence is not kept there by the code.
- Truncating, removing or renaming a file that has a pending extent or cached blocks, and writers other than this client.
- Renaming.ForceRename: the server is taken to move to a free name, to put a file in the place of another file, and to refuse every other target.
- The contents of cached stats, such as sizes, and open flags other than the access mode. A descriptor opened for writing only is treated like one opened for both; the kernel keeps reads away from it.
- Allocation failures, partial writes by the server, time passing during a call, and sums beyond the width of size_t.
- Descriptor and connection numbers are unbounded; the source's are unsigned long.
- The list of assigned descriptors is a map by number, and the timer thread, locks and logging are not modelled.
- Command line, mount checks, FUSE dispatch and scripts.
