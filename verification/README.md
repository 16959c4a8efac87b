# relayfs verification model

A Dafny model of the data-carrying parts of relayfs, with proofs over every input, run and interleaving the model allows.
Run `dafny verify dfyconfig.toml` in this directory.

## What is modelled

- **Write-behind uploads.** FUSE writes fill a local cache and return; the upload queue merges dirty ranges, claims pieces,
  and sends them as concurrent `WRITE_AT` requests. `Ranges`, `Queue` and `UploadQueues` hold the queue: the object with its
  mutable fields, proved against state functions. `WriteBehind` is a transition system of FUSE threads, queue, send jobs, cache
  and target, one step per critical section or file access: a piece is read from the cache in parts while other threads write,
  and lands on the target in parts, in any order. A rename moves whole directories (`Renames`). `WriteBehindInvariant`,
  `Convergence`, `Drains`, `Backing`, `Backpressure`, `Stranded` and `SequentialWrites` prove what all runs keep.
- **Whole-file transfers.** `Transfers` has `upload_file` and `download_file` over disks whose every operation may fail, be done
  in part, or be done with the answer lost; a history records every state another process could see. `SyncDownload` has the
  windowed out-of-order download into the cache, `ReadCache` the read misses and the prefetch.
- **RPC and pairing.** `RpcClient` and `Rpc` have the bridge's call table, the relay's forwarding and the agents' answers over
  FIFO links that may be cut and redialled at any time. `Registry` has the relay's agent lists, `Inodes` the inode and cache path maps.

## Main results

- Every byte written through the mount is, in every reachable state, on the target, or not yet enqueued, or dirty, or in flight, or
  in a piece whose last send was dropped (`EveryByteAccounted`). The exception is byte by byte: a byte is tainted by a failed cache
  write of it or by a rename of its file or of a directory above it that missed one side or left data queued, and only until it is
  claimed for sending again (`TaintedBy`). So a quiet queue means the target has every written byte
  (`QuietMeansConverged`), and a drain that passes leaves nothing behind for a truncate or rename to overtake (`DrainSound`).
- With errors tested before pending data, a drain that passes means that no send failed since it began, and that everything it waited
  for is on the target (`StrictDrainSound`).
- The flusher can work the whole queue off, repeating nothing, if and only if every queued byte can still be read (`CanEmptyIff`); then
  it must: only so many of its steps do anything, and one can be taken until the queue is empty (`WorkBounded`, `WorkGoesOn`).
- The true backlog never passes `QUEUE_CAP + WRITE_WINDOW + threads * 4 MiB`: 192 MiB with the mount's 16 threads (`BacklogBounded`).
- An upload's destination is at every moment its old content or the whole source; a download replaces its destination once, after
  exactly size / 1 MiB + 1 reads. Both succeed exactly if no operation fails and the remote file to download is there.
- With one bridge per token, a call gets its own result and never the trailing null of a waited command (`FirstAnswerWins`); for a
  call of any kind, `OwnAnswerIff` says when that is certain at the moment it is written. A call on a live connection can always get it
  (`CallCanSucceed`).

## Where the code does less than its text says

The model follows the code in each case; a lemma gives the failing input or run and another the exact condition.

- `merge_range` is documented to return the newly covered bytes. It returns that number plus the bytes of absorbed ranges that stick
  out of the inserted one; it is right exactly when no range that touches the inserted one reaches beyond it (`MergeReturnMeaning`,
  `MergeReturnOvercounts`).
- Because of this `dirty_bytes` runs ahead of the true backlog by a leak that nothing ever takes back. While all that is queued can
  be read, a writer in `wait_below` can be released if and only if the leak is at most `QUEUE_CAP` (`ReleasedIff`). Failed sends alone raise the leak past any bound with 8 MiB dirty
  (`LeakUnbounded`), so a writer can block forever although all its bytes can be delivered (`StuckWriterReachable`). Without any failed
  send, eight appends by two threads block both for ever (`TwoWritersStuck`), while the leak of a single thread stays
  within the cap (`OneWriterReleased`). With the documented count there is no leak (`CorrectedAlwaysReleases`).
- A permanent failure is said to be surfaced to any waiting drain, and `close` to confirm the data. A poll reports it exactly if it
  came after the drain began and some listed path still has a dirty or in-flight byte (`FailureReportedIff`, `NewFailuresOnly`). After a drop on a waiting drain's paths there is
  always a run in which that drain passes with the dropped bytes lost, whatever other readable work there was (`DropCanStayHidden`;
  `DropHidden` and `DropHiddenBySend` are small inputs). Testing errors first repairs it (`StrictDrainSound`).
- A rename is said not to overtake queued writes, but it drains only its two names. Renaming a directory takes the cache files below it
  away from under the names their data is queued by, and what is queued then never leaves the queue (`DirRenameStrands`,
  `StuckForever`). A rename leaves everything queued backed by its cache file exactly if no cache file moves or nothing strictly below
  the old name is queued (`RenameBackedIff`); runs of such renames keep everything readable (`RunBacked`).
- The inode map never learns of a rename: the number the kernel holds for the moved file stands for the old name until the new name
  is looked up (`InodeMap.Rename`).
- A write beyond the cached prefix of a file leaves a hole, which hits serve as zeros. A cached byte is right exactly if it was cached
  before, written, or stored by a later miss, or the remote file has a zero there (`HoleIff`, `HoleServed`).
- A cache hit can be shorter than what the file holds, even empty at offset 0 while a miss has just created the cache file
  (`EmptyHitReachable`); it is complete exactly when the cached prefix reaches the end of the request or of the file (`HitsAreRemote`).
- A sync download accepts any non-empty reply. The cache file is then the remote file exactly if the last byte was carried and every
  byte that was not is a zero (`AssembledIff`, `ShortReplyAccepted`); with full reads it always is.
- A call can be answered with the second answer of a waited command. When its frame is written, that is impossible exactly if its
  connection is being read, or has left the relay's list, or the call is over (`OwnAnswerIff`, `GapReachable`).
- Two bridges on one token can swap answers, since both number requests from 1. A call is safe from that exactly if it has failed, or
  waits on a connection that left the relay's list and has no answer with its id left to read (`SharedOwnAnswerIff`,
  `SharedTokenMixesAnswers`).
- A connecting agent is given an id in use exactly when its name, the stamped name and the suffixed name are all taken
  (`ConnectDistinctIff`, `SuffixCollides`).

## Assumptions

- No late writes: a `WRITE_AT` takes effect, if at all, before its `finish`. A request that timed out and lands later is outside the results.
- Single cache writer: only mount writes, truncates and renames change the cache of a file with dirty data; background sync and
  prefetch are treated separately, for a remote file that does not change and has no local writes.
- `finish` is called once for each piece a batch handed out, as the flusher does.
- The kernel's inode lock keeps writes to a file out while that file is truncated or renamed. When a directory is renamed, no write to a
  file below it is between its first byte in the cache and its enqueue.
- Reads of regular files return all bytes up to the limit or the end of the file; the download also says what short reads would give.
- File offsets, sizes and counters are unbounded naturals, so overflow of 64-bit counters is not modelled.

## Model

| member | source | states |
|---|---|---|
| Ranges.MergeRange | crates/bridge/src/fuse_fs.rs:401-428 | the in-place loop leaves the merged list and returns the hull's width minus the overlap, for any list |
| Ranges.CanonicalMeans | crates/bridge/src/fuse_fs.rs:399-400 | canonical is: no empty range, sorted, disjoint and non-adjacent |
| Ranges.MergeBytes | crates/bridge/src/fuse_fs.rs:399-426 | the result covers exactly the old bytes and the inserted ones |
| Ranges.MergeCanonical | crates/bridge/src/fuse_fs.rs:410-426 | insertion keeps the list canonical, and its first range starts at the lower of the two starts |
| Ranges.CanonicalUnique | crates/bridge/src/fuse_fs.rs:399-400 | two canonical lists with the same bytes are equal |
| Ranges.InsertionOrderIrrelevant | crates/bridge/src/fuse_fs.rs:399-426 | any two insertion sequences over the same bytes leave the same list |
| Ranges.MergeTotal | crates/bridge/src/fuse_fs.rs:405-426 | the total length grows by the inserted length minus the bytes covered before |
| Ranges.NewlyCovered | crates/bridge/src/fuse_fs.rs:399-409 | the corrected count, length minus overlap, is the number of bytes newly covered |
| Ranges.MergeReturnMeaning | crates/bridge/src/fuse_fs.rs:405-427 | the returned number is the newly covered bytes plus the hull's excess, and correct exactly when no range touching the inserted one reaches beyond it |
| Ranges.MergeReturnOvercounts | crates/bridge/src/fuse_fs.rs:427 | [0,10) then [10,20) returns 20 although 10 bytes are new |
| Files.WriteAtEffect | crates/agent/src/files.rs:254-262 | a positioned write sets its own bytes, keeps the others, grows and zero-fills, and an empty one changes nothing |
| Files.SetLenEffect | crates/agent/src/files.rs:266-278 | truncate sets the length, keeps the bytes below it and zero-fills above the old end |
| Files.SliceEffect | crates/agent/src/files.rs:35-43 | a positioned read gives the bytes from the offset, up to the limit and the end |
| Files.OrderIrrelevant | crates/agent/src/files.rs:254-262 | disjoint writes give the same file in every order, length and zero fill included |
| Queue.EnqueueValid | crates/bridge/src/fuse_fs.rs:478-492 | enqueue keeps the whole queue invariant |
| Queue.EnqueueBlocksIff | crates/bridge/src/fuse_fs.rs:483-487 | a path is paused exactly when a new byte is in flight, and no other path is touched |
| Queue.AddDirtyCount | crates/bridge/src/fuse_fs.rs:488-489 | how true backlog and leak change with one insertion, as written and with the corrected count |
| Queue.ClaimPath | crates/bridge/src/fuse_fs.rs:514-533 | a claimed piece is non-empty, at most CHUNK_MAX, and leaves the dirty list disjointly |
| Queue.ClaimIsGreedy | crates/bridge/src/fuse_fs.rs:515-530 | a claim takes the lowest dirty bytes, up to the range, the RPC limit or the window |
| Queue.ClaimCount | crates/bridge/src/fuse_fs.rs:534-537 | counters move by the piece's length, the saturating subtraction never clips, the window is respected |
| Queue.BatchValid | crates/bridge/src/fuse_fs.rs:496-545 | any batch keeps the invariant, the leak and dirty plus in-flight |
| Queue.BatchConserves | crates/bridge/src/fuse_fs.rs:506-544 | per path old dirty is the disjoint union of new dirty and the claimed pieces, which join in-flight in order |
| Queue.NoStall | crates/bridge/src/fuse_fs.rs:496-545 | with dirty data and nothing in flight some path can be claimed |
| Queue.PieceFits | crates/agent/src/files.rs:240-252 | no piece in flight exceeds the target's raw or base64 payload limit |
| Queue.WithoutPieces | crates/bridge/src/fuse_fs.rs:552-557 | removing an answered range removes exactly one piece and keeps the rest disjoint |
| Queue.FinishPath | crates/bridge/src/fuse_fs.rs:548-575 | finish takes exactly the piece's bytes out of flight, and Retry returns exactly them to dirty |
| Queue.FinishCount | crates/bridge/src/fuse_fs.rs:551-575 | counters stay right, the leak never shrinks, and a retry adds at most the piece to the backlog |
| Queue.FinishValid | crates/bridge/src/fuse_fs.rs:548-586 | finish keeps the queue invariant for every outcome |
| Queue.BackoffSchedule | crates/bridge/src/fuse_fs.rs:563-566 | k failures in a row give min(100 * 2^k, 2000) ms |
| Queue.BackoffSteps | crates/bridge/src/fuse_fs.rs:558-579 | a retry opens the next pause of the schedule, a success restarts it, a drop leaves it; BackoffReachable shows that every reachable state is on the schedule |
| Queue.DrainedMeans | crates/bridge/src/fuse_fs.rs:597-603 | a drain succeeds exactly when no listed path has a dirty or in-flight byte |
| Queue.FailureReportedIff | crates/bridge/src/fuse_fs.rs:597-606 | a poll fails exactly if an error was counted since the drain began and some listed path has a dirty or in-flight byte; it waits on exactly if there are such bytes and no new error |
| Queue.DropSurfacedIff | crates/bridge/src/fuse_fs.rs:576-606 | a poll made directly after a drop, before any other finish, reports it exactly when the paths have other work |
| Queue.DropHidden | crates/bridge/src/fuse_fs.rs:597-606 | a drain waiting for one byte returns Ok after that byte is dropped |
| Queue.DropHiddenBySend | crates/bridge/src/fuse_fs.rs:583-606 | one piece is dropped, the other sent before the drain looks: it returns Ok although there was other work |
| UploadQueues.UploadQueue.constructor | crates/bridge/src/fuse_fs.rs:459-474 | a new queue is empty and valid |
| UploadQueues.UploadQueue.Enqueue | crates/bridge/src/fuse_fs.rs:478-492 | the object moves to the enqueue state and stays valid |
| UploadQueues.UploadQueue.TakeBatch | crates/bridge/src/fuse_fs.rs:496-545 | nothing in backoff; otherwise a legal batch that leaves nothing claimable, and never empty while dirty with nothing in flight |
| UploadQueues.UploadQueue.ClaimPathFully | crates/bridge/src/fuse_fs.rs:514-542 | the inner loop extends a legal batch until its path or the window is used up |
| UploadQueues.UploadQueue.ClaimOne | crates/bridge/src/fuse_fs.rs:520-537 | one pass of the inner loop is one claim |
| UploadQueues.UploadQueue.Finish | crates/bridge/src/fuse_fs.rs:548-586 | the object moves to the finish state of the outcome and stays valid |
| UploadQueues.UploadQueue.WaitDrainOnce | crates/bridge/src/fuse_fs.rs:596-606 | one pass of the drain loop: Ok exactly with nothing queued for the paths, an error only if one was counted since the drain began, waiting only if none was |
| UploadQueues.UploadQueue.WaitBelowOnce | crates/bridge/src/fuse_fs.rs:618-625 | a writer passes exactly when backlog plus leak is within the cap, so the true backlog is then too |
| WriteBehindInvariant.WriteSomeInv | crates/bridge/src/fuse_fs.rs:1258-1269 | a partial cache write keeps the invariant, whatever is in flight |
| WriteBehindInvariant.PartsAreTheWrite | crates/bridge/src/fuse_fs.rs:1260-1267 | however a thread splits its cache write, the cache shows the one write |
| Convergence.WriteIsQueued | crates/bridge/src/fuse_fs.rs:1256-1275 | in whatever parts, a write puts its data at its offset of the cache file and its enqueue makes exactly those bytes dirty |
| Convergence.DirectWriteLands | crates/bridge/src/fuse_fs.rs:1276-1287 | a write the cache refuses puts what lands of it on the target; cache and queue stay |
| WriteBehindInvariant.EnqueueInv | crates/bridge/src/fuse_fs.rs:191-202 | enqueueing a cached write keeps the invariant |
| WriteBehindInvariant.BatchInv | crates/bridge/src/fuse_fs.rs:645-661 | starting send jobs for a batch keeps the invariant |
| WriteBehindInvariant.ReadInv | crates/bridge/src/fuse_fs.rs:664-682 | reading part of a piece from a cache that others are writing keeps the invariant |
| WriteBehindInvariant.ApplyInv | crates/agent/src/files.rs:254-262 | a partial landing on the target keeps the invariant |
| WriteBehindInvariant.JobsDisjoint | crates/bridge/src/fuse_fs.rs:435-437 | no byte of a file is in two send jobs at once |
| WriteBehindInvariant.FinishInv | crates/bridge/src/fuse_fs.rs:684-706 | every outcome of a send keeps the invariant |
| WriteBehindInvariant.PassDrainInv | crates/bridge/src/fuse_fs.rs:1068-1108 | a truncate or a rename, of a file or of a directory with all below it, keeps the invariant after a passed drain |
| WriteBehindInvariant.ReachableInv | crates/bridge/src/fuse_fs.rs:430-710 | the invariant holds in every reachable state |
| WriteBehindInvariant.TaintedBy | crates/bridge/src/fuse_fs.rs:1258-1288 | only a failed cache write of the byte or a truncate or rename of its file or a directory above taints it; claiming it again ends that |
| WriteBehindInvariant.WrittenAndLostBy | crates/bridge/src/fuse_fs.rs:555-578 | renames apart, a byte is written from the start of a write of it until a truncate cuts it off, and lost from the drop of its piece until it is sent or written anew |
| WriteBehindInvariant.RenameMovedByte | crates/bridge/src/fuse_fs.rs:1099-1107 | after a rename that reached both sides each byte below the new name is what it was below the old one |
| Renames.MoveAt | crates/bridge/src/fuse_fs.rs:1099-1107 | the files at or below the new name are exactly those that were at or below the old one |
| Renames.MovesIff | crates/agent/src/files.rs:229-235 | a rename changes the table exactly if something has the old name, the new one is not inside it, nothing is below the new one, and a file there is replaced by a file only |
| Renames.FileMoves | crates/agent/src/files.rs:229-235 | a file always takes a new name that is neither below it nor above a file: its content is there, the old name is gone |
| Renames.DirMoves | crates/agent/src/files.rs:229-235 | a directory takes a free name with every file below it, and all other files stay |
| Backing.RenameBackedIff | crates/bridge/src/fuse_fs.rs:1091-1099 | a rename leaves every queued byte in the cache file of its name iff no cache file moves or nothing strictly below is queued |
| Backing.HandleFollows | crates/bridge/src/fuse_fs.rs:664-689 | a send that has its file open reads the same bytes after a rename that does not replace the file; one that has not finds nothing where a moved file was |
| Backing.StepBacked | crates/bridge/src/fuse_fs.rs:638-710 | every other step keeps every queued byte written and in the cache file of its name |
| Backing.RunBacked | crates/bridge/src/fuse_fs.rs:638-710 | in a run whose renames find nothing queued below them everything queued can be read |
| Convergence.EveryByteAccounted | crates/bridge/src/fuse_fs.rs:478-586 | each written, untainted byte is on the target, or unqueued, dirty, in flight or dropped |
| Convergence.QuietMeansConverged | crates/bridge/src/fuse_fs.rs:447-449 | after a run without drops, nothing left to do means the target holds every written byte |
| Convergence.DrainSound | crates/bridge/src/fuse_fs.rs:588-603 | when a drain passes, every enqueued, not dropped byte of its paths is on the target and no send for them runs |
| Convergence.TruncateMakesIdentical | crates/bridge/src/fuse_fs.rs:849-863 | a truncate that reaches the target leaves cache and target identical if all bytes below the size were written and are untainted |
| Convergence.RenameCarries | crates/bridge/src/fuse_fs.rs:1091-1106 | a rename carries each written byte that is not still queued to the new name on both sides, below a directory too |
| Convergence.FileRenameLands | crates/bridge/src/fuse_fs.rs:1098-1105 | a file rename whose drain passed happens in the cache, and on the target if the request lands |
| Convergence.SendsNeverOverlap | crates/bridge/src/fuse_fs.rs:435-437 | in-flight pieces of a path are disjoint, an unpaused path's dirty bytes are not in flight, a paused path has a send in flight |
| Convergence.CountersReachable | crates/bridge/src/fuse_fs.rs:438-439 | inflight_bytes is exact and within the window, dirty_bytes never undercounts, every piece fits the target's limits |
| Convergence.BackoffReachable | crates/bridge/src/fuse_fs.rs:558-566 | in every reachable state the backoff is one of the schedule and the pause ends within two seconds |
| Convergence.RetryWaits | crates/bridge/src/fuse_fs.rs:498-503 | after a failed send nothing is claimed before its pause is over, unless another piece is answered |
| Convergence.SchedulesAgree | crates/agent/src/conn.rs:94-100 | any two schedules of the same send jobs leave the same target file |
| Convergence.BacklogBounded | crates/bridge/src/fuse_fs.rs:188-202 | the backlog never passes the cap, the window and one write per thread; 192 MiB with 16 threads |
| Drains.RunErrors | crates/bridge/src/fuse_fs.rs:558-578 | over any run the error count grows by the number of failed sends, so it stands still exactly while all are acknowledged |
| Drains.NewFailuresOnly | crates/bridge/src/fuse_fs.rs:590-607 | a drain still waiting reports a failure exactly if a send failed since it began and a byte of its paths is queued; it passes exactly without such a byte, outside a write the kernel keeps apart |
| Drains.DrainCanPass | crates/bridge/src/fuse_fs.rs:590-607 | while all that is queued can be read a waiting drain can pass yet, any chosen files of the target sent and the others dropped |
| Drains.DropCanStayHidden | crates/bridge/src/fuse_fs.rs:597-606 | after a drop on a waiting drain's paths, the rest readable, a run exists in which it passes, with every byte of the piece lost |
| Drains.StrictDrainSound | crates/bridge/src/fuse_fs.rs:381-382 | with errors tested first: no send failed since the drain began, and every byte then dirty, in flight or sent is on the target or being written anew, tainted or lost before or not |
| Backpressure.StepLeak | crates/bridge/src/fuse_fs.rs:489-573 | no step ever shrinks the leak |
| Backpressure.NeverReleased | crates/bridge/src/fuse_fs.rs:618-631 | with a leak above the cap no run ever lets a waiting writer go |
| Backpressure.SendPiece | crates/bridge/src/fuse_fs.rs:661-706 | any job in flight can be read, then landed and acknowledged or refused, shrinking the backlog |
| Backpressure.CanDrain | crates/bridge/src/fuse_fs.rs:638-710 | while all that is queued can be read the whole queue can be worked off, the pieces of chosen files sent and exactly the others dropped |
| Backpressure.CanConverge | crates/bridge/src/fuse_fs.rs:638-710 | a state with all queued bytes readable goes on to one where all enqueued, not dropped bytes agree, dirty tainted ones too; only pieces of files absent on the target are dropped |
| Backpressure.ReleasedIff | crates/bridge/src/fuse_fs.rs:617-631 | a waiting writer can be released only if the leak is at most QUEUE_CAP, and then it can while all that is queued can be read |
| Backpressure.CorrectedAlwaysReleases | crates/bridge/src/fuse_fs.rs:399-400 | with the documented count every waiting writer can be released while all that is queued can be read |
| Backpressure.OfflineCycle | crates/bridge/src/fuse_fs.rs:563-575 | claiming and failing two adjacent 4 MiB pieces adds 4 MiB of leak |
| Backpressure.LeakUnbounded | crates/bridge/src/fuse_fs.rs:563-575 | for every bound a reachable state with 8 MiB backlog has a larger leak |
| Backpressure.StuckWriterReachable | crates/bridge/src/fuse_fs.rs:617-631 | a reachable writer can never be released although its bytes can be delivered |
| Stranded.CanEmptyIff | crates/bridge/src/fuse_fs.rs:645-707 | the flusher can empty the queue without repeating a send iff every queued byte can be read |
| Stranded.WorkBounded | crates/bridge/src/fuse_fs.rs:645-707 | whatever the flusher and its tasks do, without a repeated send at most so many of their steps do anything |
| Stranded.WorkGoesOn | crates/bridge/src/fuse_fs.rs:645-707 | with all that is queued readable and the backoff over, such a step can be taken unless the queue is empty |
| Stranded.StuckForever | crates/bridge/src/fuse_fs.rs:664-689 | a byte queued under a name whose cache file does not have it stays queued, whatever the flusher does, retries included |
| Stranded.DirRenameStrands | crates/bridge/src/fuse_fs.rs:1068-1108 | write d/f, rename d to e: the drain of the two names passes and the byte is stuck |
| SequentialWrites.HullCovered | crates/bridge/src/fuse_fs.rs:410-427 | an insertion leaks at most the bytes the list held before |
| SequentialWrites.OneWriterReleased | crates/bridge/src/fuse_fs.rs:191-202 | a single thread, no send repeated: the leak stays within the cap, so the thread can be let go while all that is queued can be read |
| SequentialWrites.AppendedLeak | crates/bridge/src/fuse_fs.rs:427 | after n adjacent appends of 4 MiB the leak is n(n-1)/2 times 4 MiB |
| SequentialWrites.TwoWritersStuck | crates/bridge/src/fuse_fs.rs:618-631 | eight appends by two threads, no send failed: neither can ever be let go |
| Transfers.Disk.CreateEmpty | crates/agent/src/files.rs:76-80 | the file becomes empty, or the call fails, possibly after it did |
| Transfers.Disk.WriteAtOp | crates/agent/src/files.rs:237-264 | success is the whole write to an existing file; a failure touches that file only; oversize payloads are refused |
| Transfers.Disk.Truncate | crates/agent/src/files.rs:266-278 | success sets the length of an existing file; other files are untouched |
| Transfers.Disk.Rename | crates/agent/src/files.rs:229-235 | the rename happens as a whole or not at all |
| Transfers.Disk.ReadFile | crates/agent/src/files.rs:21-49 | bytes from the offset, empty only at the end, eof exactly when fewer than the limit came back |
| Transfers.Source.Read | crates/bridge/src/mcp.rs:378-383 | any part of the rest of the source, nothing only at its end; no answer counts as a fault |
| Transfers.SendToTemp | crates/bridge/src/mcp.rs:362-406 | success leaves exactly the source in the temporary file, and comes exactly if nothing fails; no other name is ever touched |
| Transfers.UploadFile | crates/bridge/src/mcp.rs:337-442 | the upload succeeds exactly if no operation fails; every observer sees the old destination or the whole source; a temporary file left behind takes two failures |
| Transfers.FetchToTemp | crates/bridge/src/mcp.rs:472-519 | works exactly if the remote file is there and nothing fails; the temporary file is then a prefix of the remote, all of it with full reads, after size / 1 MiB + 1 reads |
| Transfers.DownloadFile | crates/bridge/src/mcp.rs:444-540 | succeeds exactly if the remote file is there and nothing fails; the destination is replaced once, by the downloaded copy, and untouched on any error |
| ReadCache.StoreKeeps | crates/bridge/src/fuse_fs.rs:1186-1202 | a store at or before the frontier keeps the cache a prefix of the remote |
| ReadCache.StepInv | crates/bridge/src/fuse_fs.rs:715-791 | misses, prefetch chunks and sync publications, interleaved, keep the cache a prefix |
| ReadCache.PrefetchCompletes | crates/bridge/src/fuse_fs.rs:730-790 | a prefetch that ends without being stopped leaves the whole file in the cache |
| ReadCache.PrefetchSkipsCached | crates/bridge/src/fuse_fs.rs:730-739 | what was cached when a prefetch started is never prefetched again |
| ReadCache.PrefetchCanFinish | crates/bridge/src/fuse_fs.rs:770-790 | a prefetch under way can always go on by its own steps until the whole file is cached |
| ReadCache.HitsAreRemote | crates/bridge/src/fuse_fs.rs:1142-1161 | from any prefix an earlier mount left, a hit serves remote bytes; it is complete exactly when the cache reaches the end of the request or of the file |
| ReadCache.MissIsRemote | crates/bridge/src/fuse_fs.rs:1163-1210 | a miss returns exactly what the remote holds at the offset, up to the size asked for |
| ReadCache.MissWarms | crates/bridge/src/fuse_fs.rs:1164-1202 | a miss at the frontier can store its fetch, and from then on, whatever happens, reads of the next MiB or of all asked for are hits |
| ReadCache.EmptyHitReachable | crates/bridge/src/fuse_fs.rs:1157-1160 | a read at 0 of a non-empty file can be answered with nothing |
| ReadCache.HoleIff | crates/bridge/src/fuse_fs.rs:1142-1202 | after any mount writes and misses a cached byte is right iff it was cached before, written or stored, or the remote has a zero there |
| ReadCache.HoleServed | crates/bridge/src/fuse_fs.rs:1258-1269 | nothing cached of six bytes, one written at 5: a read at 0 is served a zero |
| SyncDownload.TilesOnce | crates/bridge/src/fuse_fs.rs:1650-1698 | the issued chunks cover every byte of the file exactly once |
| SyncDownload.LandSome | crates/bridge/src/fuse_fs.rs:1684-1694 | a part of a reply lands where it belongs, zeros between, whatever else has landed |
| SyncDownload.EndTask | crates/bridge/src/fuse_fs.rs:1668-1695 | a task succeeds exactly with a non-empty answer whose write does not break off, and then has written all of it |
| SyncDownload.JoinNext | crates/bridge/src/fuse_fs.rs:1653-1661 | unless some task failed, joined tasks have written their whole replies |
| SyncDownload.IssueAll | crates/bridge/src/fuse_fs.rs:1649-1698 | chunks are issued in order, with eight outstanding at the peak or all if fewer, until all are issued or one failed |
| SyncDownload.AllLanded | crates/bridge/src/fuse_fs.rs:1699-1708 | when every task succeeded the temporary file is exactly the replies put together |
| SyncDownload.AssembledIff | crates/bridge/src/fuse_fs.rs:1679-1695 | the result is the remote file exactly if its last byte was carried and every byte not carried is a zero |
| SyncDownload.FullReadsAssemble | crates/bridge/src/fuse_fs.rs:1664-1695 | with full reads the result is the remote file up to the listed size |
| SyncDownload.ShortReplyAccepted | crates/bridge/src/fuse_fs.rs:1679-1681 | one byte of two is accepted as success and leaves a short file |
| SyncDownload.DownloadToCache | crates/bridge/src/fuse_fs.rs:1631-1710 | succeeds exactly if every task does and the rename works; the cache file is then the replies put together under any completion order, with full reads the remote file, and untouched otherwise |
| RpcClient.AgentClient.StartCall | crates/bridge/src/client.rs:337-341 | a call takes a fresh id and is pending |
| RpcClient.AgentClient.EndCall | crates/bridge/src/client.rs:249-268 | the first ending of a call counts and takes it out of the map |
| RpcClient.AgentClient.FailPending | crates/bridge/src/client.rs:321-328 | when the read loop ends every pending call fails and the map is empty |
| Rpc.CallsEndOnce | crates/bridge/src/client.rs:249-268 | in every run each issued id is in exactly one of pending and ended, and an ending never changes |
| Rpc.FailedForGood | crates/bridge/src/client.rs:321-328 | a call given up, or waiting when its read loop ends, stays failed whatever arrives later |
| Rpc.HeadIsResult | crates/agent/src/commands.rs:188-189 | the oldest answer on its way to a waiting call is the result of its own request |
| Rpc.StepInv | crates/relay/src/lib.rs:226-232 | every step of bridge, relay and agents keeps answers in order and under their own id |
| Rpc.FirstAnswerWins | crates/agent/src/conn.rs:177-178 | with one bridge per token a call gets its own result, or the relay's answer when no agent saw it |
| Rpc.CallCanSucceed | crates/bridge/src/client.rs:249-268 | a call on a connection that is read and listed can end with any result an agent produces for it, waited command or not |
| Rpc.CallCanBeRefused | crates/relay/src/lib.rs:290-316 | and it can end with the relay's own answer |
| Rpc.DroppedIsSilent | crates/relay/src/lib.rs:426-439 | once the relay drops a bridge connection nothing is queued on it again |
| Rpc.DownIsSilent | crates/relay/src/lib.rs:323-339 | once an agent is down its tasks can never answer, and nothing it sent is forwarded any more |
| Rpc.OwnAnswerIff | crates/bridge/src/client.rs:154-155 | one bridge: from its writing on a call can get only its own answer iff its connection is read, or unlisted, or the call is over |
| Rpc.GapReachable | crates/bridge/src/client.rs:154-155 | a call made between the end of the read loop and the clearing of the sink is not safe |
| Rpc.SharedOwnAnswerIff | crates/relay/src/lib.rs:426-439 | shared token: a written call can get only its own answer iff it has failed, or waits unlisted with no answer of its id queued |
| Rpc.SharedTokenMixesAnswers | crates/relay/src/lib.rs:426-439 | a first call on a listed connection that is read is not safe from the other bridge's answer |
| Registry.AssignedIdFreshIff | crates/relay/src/lib.rs:360-376 | the assigned agent id is in use exactly when all three candidates are taken |
| Registry.AssignedIdFirstFree | crates/relay/src/lib.rs:360-376 | the id is the name itself iff nobody holds it, else the stamped name iff nobody holds that, else the suffixed one |
| Registry.ConnectDistinctIff | crates/relay/src/lib.rs:354-395 | a connection keeps ids distinct exactly unless its three candidates are taken |
| Registry.SuffixCollides | crates/relay/src/lib.rs:370-376 | a suffix drawn before gives the new agent an id in use |
| Registry.RouteSound | crates/relay/src/lib.rs:276-289 | a request reaches only a live agent of its token, the newest without a hint, a named one with a hint |
| Registry.NewAgentReached | crates/relay/src/lib.rs:276-289 | a request by the name of an agent that connected under a free name reaches it unless that is the session of another; by session likewise, and without a hint |
| Registry.RegistryOverRuns | crates/relay/src/lib.rs:324-384 | over any connects and disconnects each live agent is listed once, under its token, no list is empty; ids are distinct all the way iff each needed suffix was fresh |
| Registry.NamesKept | crates/relay/src/lib.rs:354-384 | over any connects and disconnects a live agent goes by the name it gave iff no agent live then held it |
| Registry.Relay.RegisterAgent | crates/relay/src/lib.rs:354-395 | the new agent joins the end of its token's list, under its own name iff that was free, with a new key and a session that starts with its id |
| Registry.Relay.UnregisterAgent | crates/relay/src/lib.rs:323-339 | exactly the leaving connection is removed, and an empty list with it |
| Inodes.InodeMap.constructor | crates/bridge/src/fuse_fs.rs:46-56 | the root is inode 1 |
| Inodes.InodeMap.InoFor | crates/bridge/src/fuse_fs.rs:62-71 | a path keeps its number for ever and a new one gets the next; both maps stay inverse |
| Inodes.InodeMap.ChildPath | crates/bridge/src/fuse_fs.rs:168-176 | a registered child lies under the root, its cache file is its parent's plus the name, and no number changes its path |
| Inodes.InodeMap.Rename | crates/bridge/src/fuse_fs.rs:1078-1083 | a rename only looks both names up, each in its own directory: the moved file's number stands for the old name still, the new name has its own |
| Inodes.CacheFilesDistinct | crates/bridge/src/fuse_fs.rs:152-159 | registered paths never share a cache file, and the flusher opens the file the write filled |
| Inodes.CacheMirrors | crates/bridge/src/fuse_fs.rs:152-159 | the cache directory mirrors the mount: the root is the directory, other paths lie inside at the same depth, a child's file is its parent's plus the name |
| Inodes.OutsideRootIff | crates/bridge/src/fuse_fs.rs:152-159 | outside the root two paths share a cache file iff they have the same last name, and the flusher finds it only if the path is that file |
| Inodes.OutsideRootCollides | crates/bridge/src/fuse_fs.rs:656-660 | outside the root two paths can share a cache file, and the flusher opens another one |

## Left out

- Unlink, rmdir, mkdir, symlink and permission operations: unlink and rmdir drain like those modelled and then remove, mkdir and chmod
  drain nothing; create and mknod empty the cache file before they drain, so a queued byte can lie beyond it, as after `DirRenameStrands`.
- Backpressure.ReleasedIff: the "if" half only while all that is queued can be read, because stranded bytes count as dirty too.
- A send task whose open file is replaced by a later rename goes on with the new file; its bytes are tainted either way.
- Requests that time out and land later, and background sync or prefetch over a file with local writes: the code orders neither.
- Tainted bytes: beyond what a direct write puts on the target (`DirectWriteLands`), nothing is proved about a byte while it is tainted.
- WriteBehind and ReadCache keep files and threads as values in one state, since many threads share them; object identity is not captured.
- Overflow of 64-bit offsets and counters, in particular of the over-counted `dirty_bytes`.
- Drains.StrictDrainSound: says nothing about a byte that another thread cuts off, renames or fails to cache during the drain.
- The drain's timeout and the 250 ms polls: a drain may look, and may give up, at any moment.
- JSON and base64 encoding, apart from the base64 length; WebSocket, TLS and keepalive frames.
- Commands on the target beyond the order of their answers, and `list_targets`, which shows agents of every token by design.
- Registry.Relay.RegisterAgent: the time stamp and the random suffixes are inputs, so freshness of the last suffix is a condition.
- SyncDownload.DownloadToCache: only for a remote file that does not change meanwhile; its size may differ from the listed one.
- ReadCache.StepInv: the offline answer, which serves the cached prefix as it is, and failed cache writes beyond an early stop.
- OAuth, login pages, the command line, and the MCP tools other than upload and download.
