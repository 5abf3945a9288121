# A verified model of xv6

xv6 is a small Unix-like kernel for RISC-V with a handful of user programs. This project
models its most intricate parts in Dafny and proves what they are for:

- **Crash recovery** (`CrashLog`, `Log`, `Sharing`, `Commit`, `Operations`, `GroupCommit`): a system call's
  writes reach the disk all or not at all, wherever the machine stops, and stopping again during
  recovery does no harm. A commit runs among processes that read through the same buffer cache.
- **Buffer cache** (`BufferCache`): one buffer per block, least recently released first to go.
- **Files** (`DiskImage`, `BlockMap`, `FileBytes`, `Truncate`, `FileSystem`, `WriteBudget`,
  `BudgetTight`, `FileWrite`): files are byte sequences; writing splices, truncating frees exactly
  a file's blocks, and no write outgrows its transaction.
- **Path names and inode references** (`InodeTable`, `PathWalk`).
- **Memory** (`PageTable`, `Frames`, `Vm`, `PageMap`, `UserMemory`, `TableTree`, `Lifecycle`,
  `ProcMemory`, `ForkExec`): three-level page tables refine finite maps, no page is lost or
  shared by the kernel's memory calls, and each of them fails exactly when the free pages do not
  suffice.
- **Bytes of a process** (`UserBytes`, `UserCopy`, `ExecArgs`, `ExecImage`): copies between kernel and
  process, and the image and arguments that exec gives a new program, byte by byte.
- **Processes** (`Sched`, `ExitWait`): scheduling, sleep and wakeup on any number of CPUs; fork,
  exit and wait.
- **Pipes and the disk driver** (`PipeFifo`, `Virtio`, `VirtioProtocol`).
- **User programs** (`FreeList`, `Malloc`, `HeapUnits`; `Shell`, `ShellGrammar`, `ShellRoundTrip`,
  `ShellParser`; `Regex`, `Grep`).

`Common` holds the option type and the counting of finite sets.

Code that updates objects is a class whose methods are proved against value-level specifications;
protocols among processes, CPUs or devices are state machines, and their theorems are about every
run. Where a process works among others inside one operation (`Commit`, `PathWalk`), the steps of
the others are a parameter and are taken at the points where the code can be interrupted. Sizes such
as the number of buffers, log blocks or CPUs are parameters; constants that matter are the source's.

`dafny verify dfyconfig.toml` checks everything.

## Findings

Properties one would expect of the code that do not hold, each with an input and the exact condition.

| property | source | fails for | holds exactly when | members |
|---|---|---|---|---|
| A log_write within an operation's budget never panics | kernel/log.c:220-221, mkfs/mkfs.c:25 | the image mkfs builds (nlog = LOGSIZE): three operations that log 30 blocks between them; the 30th log_write finds only 29 log blocks | the on-disk log has more than LOGSIZE blocks | `GroupCommit.AppendPanicIff` |
| A log_write of a block already in the log, which needs no room, never panics | kernel/log.c:220-228 | a full log and a second log_write of one of its blocks: the guard comes before the absorption scan | the log is not full; it can be full unless it has no room for any block | `GroupCommit.AbsorbPanicIff`, `GroupCommit.AbsorbPanicsWhenFull` |
| A commit does not run out of buffers | kernel/bio.c:88, kernel/param.h:9-11 | NBUF = LOGSIZE = 30 and 29 pending blocks: one other buffer in use by a reader, and the first log block not cached; the commit stops before its first write | left alone: nothing is pending, or pending blocks and other buffers in use number fewer than NBUF, or the header and every log block it needs are cached | `Commit.Committer.Commit`, `Sharing.NoBuffersIff`, `Sharing.FullLogTakesAll` |
| A reader does not sleep on a pipe with bytes in it | kernel/pipe.c:84-87 | a writer appends a byte, is killed, and returns without a wakeup while a reader sleeps | the killed writer has appended nothing since its last wakeup, or no reader sleeps | `PipeFifo.KillLosesWakeup`, `PipeFifo.KillStrandsIff` |
| grep prints every matching line | user/grep.c:10-34 | any input whose first line has 1024 bytes, its newline included, or a NUL in it, and which has a matching line behind: nothing is printed | no matching line comes at or after the first line of more than 1023 bytes, its newline included, or with a NUL | `Grep.ExactIff`, `Grep.LongLineLost`, `Grep.LongLineExample`, `Grep.NulLineLost` |
| growproc fails when asked to shrink below zero | kernel/proc.c:259-275 | size 0 and n = -1: the sum wraps around, nothing changes and 0 is returned | size + n is not negative | `ProcMemory.Growproc` |
| malloc's block has the units its header claims | user/umalloc.c:46-61 | malloc(4294967280): sbrk(0) succeeds and is taken for 2^28 units | the request is at most 2147483616 bytes | `Malloc.CoreIsObtainedIff`, `Malloc.HugeRequest` |

## Model

| member | source | states |
|---|---|---|
| `CrashLog.CrashAtomicity` | kernel/log.c:116-203 | Over every run of commits and recoveries, each completed or cut off after any of its single-block writes, the disk replays to the home contents after exactly the transactions whose header write reached it, and is those contents whenever the system is up |
| `CrashLog.StepAgrees` | kernel/log.c:116-203 | One commit or recovery, whole or cut off, takes a disk that replays to h to one that replays to h with the whole transaction applied or to h itself, the first exactly when the header was written |
| `CrashLog.CommitPrefix` | kernel/log.c:178-203 | Every prefix of a commit's writes recovers to the old contents up to the header write and to the new ones from it on; the full list leaves a clean log |
| `CrashLog.BeforeCommit` | kernel/log.c:178-191 | Until the header write nothing a recovery looks at has changed |
| `CrashLog.AfterCommit` | kernel/log.c:193-203 | From the header write on, the rest of a commit recovers to the new contents at every point |
| `CrashLog.RecoverPrefix` | kernel/log.c:116-123 | A crash anywhere inside a recovery leaves a disk that recovers to the same contents; a recovery that completes leaves an empty log and those contents |
| `CrashLog.InstallKeeps` | kernel/log.c:68-83 | Installing any part of a replayable log keeps it replayable to the same contents, and installing all of it puts them in place |
| `CrashLog.HeaderRoundTrip` | kernel/log.c:86-114 | read_head finds in the header block exactly the block numbers write_head put there |
| `BufferCache.Bcache.constructor` | kernel/bio.c:36-53 | binit leaves one circular list of all buffers, the last one first, none of them in use |
| `BufferCache.Bcache.Bget` | kernel/bio.c:58-89 | A cached block gains a reference and nothing else changes; otherwise the unused buffer released longest ago is recycled, invalid; it panics exactly when the block is not cached and every buffer is in use |
| `BufferCache.Bcache.FindCached` | kernel/bio.c:65-73 | The forward scan finds the block's buffer if any buffer caches it |
| `BufferCache.Bcache.FindUnused` | kernel/bio.c:76-88 | The backward scan finds the unused buffer with the oldest release, if any is unused |
| `BufferCache.Bcache.Lock` | kernel/sleeplock.c:21-31 | The sleep lock of a referenced buffer goes to the caller; reference counts, disk agreement and the one-buffer-per-block rule are kept |
| `BufferCache.Bcache.Fill` | kernel/bio.c:98-101 | The buffer holds its block afterwards: what it held if valid, else what the disk has |
| `BufferCache.Bcache.Bread` | kernel/bio.c:92-103 | The caller has the block's one buffer locked and valid, one reference richer; it fails exactly when bget panics |
| `BufferCache.Bcache.Bwrite` | kernel/bio.c:106-112 | The disk block becomes the buffer's contents as one recorded write; panics exactly when the caller does not hold the buffer |
| `BufferCache.Bcache.Unlock` | kernel/bio.c:119-122 | Releases the lock; panics exactly when the caller does not hold it |
| `BufferCache.Bcache.Unref` | kernel/bio.c:124-136 | One reference fewer; the last one makes the buffer the most recently released and moves it to the front of the list |
| `BufferCache.Bcache.MoveToFront` | kernel/bio.c:127-134 | The six pointer stores realise moving one node to the front of the cycle, and the list stays ordered by release |
| `BufferCache.Bcache.Bpin` | kernel/bio.c:139-144 | One more pin, kept apart from the references processes have |
| `BufferCache.Bcache.Bunpin` | kernel/bio.c:146-151 | One pin fewer |
| `BufferCache.UnlinkKeepsCycle` | kernel/bio.c:127-134 | After the pointer stores next and prev still form one cycle through every node, with the released buffer first |
| `BufferCache.FrontIsNewest` | kernel/bio.c:124-136 | The list is ordered by the time each buffer's count last fell to zero, newest first |
| `BufferCache.NoBlockTwice` | kernel/bio.c:58-89 | No two buffers cache the same block |
| `BufferCache.DirtyIsReferenced` | kernel/bio.c:58-89 | A buffer that differs from the disk is in use, so it is never recycled |
| `Log.Log.constructor` | kernel/log.c:54-65 | Before recovery nothing is pending and the logical contents are the disk |
| `Log.Log.Bread` | kernel/bio.c:92-103 | Whatever is cached, the caller sees the last contents logged or written through |
| `Log.Log.Brelse` | kernel/bio.c:116-137 | Releasing a buffer whose changes were logged keeps every other reader's view |
| `Log.Log.LogWrite` | kernel/log.c:214-235 | The buffer becomes the block's logical contents and the block is in the header once; panics exactly when the log is full or no operation is in progress |
| `Log.Log.LogIndex` | kernel/log.c:225-228 | The absorption scan returns the block's place in the header, or the count if it has none |
| `Log.Log.Append` | kernel/log.c:229-233 | The block joins the header and its buffer is pinned; the disk still shows every block that is not pending |
| `Log.LogKeepsCoherent` | kernel/log.c:214-235 | Unlocked buffers and unlogged disk blocks keep showing the logical contents when a held buffer is logged |
| `Log.QuiescentIsClean` | kernel/log.c:193-203 | With nothing pending the disk itself is the logical contents, behind an empty log |
| `Log.PendingIsLogical` | kernel/log.c:178-203 | The transaction in memory carries the disk exactly to the logical contents |
| `Log.CommitIsAtomic` | kernel/log.c:193-203 | From any state between commits, a crash after any number of the commit's writes recovers to the last committed contents or to the logical ones, the second exactly once the header is written |
| `Sharing.Touch` | kernel/bio.c:58-137 | One buffer changing hands among readers keeps cache, log and disk coherent and the committer's references counted |
| `Sharing.CommitIsStep` | kernel/log.c:193-203 | What a commit has written when it stops is a step of the crash model on the actual disk, a full commit if it got to the end |
| `Sharing.RecoverIsStep` | kernel/log.c:116-123 | The same for a recovery |
| `Sharing.NoBuffersIff` | kernel/bio.c:76-88 | Every buffer is in use, so that bget of an uncached block panics, exactly when pending blocks and other buffers in use together number all buffers |
| `Sharing.FullLogTakesAll` | kernel/param.h:9-11 | With one fewer pending block than buffers, one more buffer in use by anybody leaves none unused |
| `Sharing.HitsNext` | kernel/log.c:178-191 | Undisturbed copies into the log leave the cache as it was as long as their blocks are cached, and the first uncached one fails if no buffer is unused |
| `Commit.Committer.constructor` | kernel/log.c:164-174 | A commit may start whenever no process has unlogged changes in a buffer, whoever holds buffers |
| `Commit.Committer.OtherStep` | kernel/bio.c:58-137 | Any bread or brelse step of another process has its effect on the buffer it names and on no other, keeps coherence, leaves what the committer has locked as it is, and keeps its buffers on their blocks |
| `Commit.Committer.Others` | kernel/bio.c:58-137 | A batch of such steps has the effects of its steps, one after the other, and keeps the same |
| `Commit.Committer.Take` | kernel/bio.c:58-103 | The committer's bread, with others at work before and during its wait: it gets the block's logical contents, waits only for a lock another process holds, and panics only when every buffer is in use; undisturbed it panics exactly when no buffer caches the block and none is unused |
| `Commit.Committer.Give` | kernel/bio.c:116-137 | The committer's brelse, with others at work between unlock and the count |
| `Commit.Committer.Copy` | kernel/log.c:68-83 | One turn of a copy loop moves one block's logical contents to disk and to the other block, or stops before writing; alone with a spare buffer or both blocks cached it never stops, and with neither a spare buffer nor its log block cached it runs out |
| `Commit.Committer.WriteLog` | kernel/log.c:178-191 | When it stops, the first k pending blocks are in the log and nothing else has changed; k is all of them if it completes; alone with every buffer in use it completes exactly when every log block it writes is cached |
| `Commit.Committer.WriteHead` | kernel/log.c:102-114 | Exactly one write: the header block with the in-memory count and block numbers |
| `Commit.Committer.InstallTrans` | kernel/log.c:68-83 | When it stops, the first k log blocks are home and, after a commit, unpinned; home contents do not change when the log is current |
| `Commit.Committer.Commit` | kernel/log.c:193-203 | With readers interleaved anywhere, a commit performs a crash-model commit step or stops in a prefix of it, never changes what anybody reads of a home block, and stops only while another process holds a buffer it needs or when every buffer is in use; alone it runs out exactly when something is pending, every buffer is in use and the header or a log block it needs is not cached, and completes otherwise |
| `Commit.Committer.ReadHead` | kernel/log.c:86-97 | The in-memory header becomes the one on disk |
| `Commit.Committer.RecoverFromLog` | kernel/log.c:116-123 | Performs a crash-model recovery step or a prefix of it; with two unused buffers and nobody else it completes, with an empty log |
| `Operations.Session.constructor` | kernel/log.c:54-65 | After recovery every buffer shows its block and no operation is in progress |
| `Operations.Session.BeginOp` | kernel/log.c:136-139 | One operation more; only processes inside operations have unlogged changes |
| `Operations.Session.Bread` | kernel/bio.c:92-103 | The caller gets the logical contents in a buffer one reference richer, and no other buffer changes; fails exactly when every buffer is in use and none caches the block |
| `Operations.Session.Modify` | kernel/log.c:205-213 | A change inside an operation is seen by nobody else |
| `Operations.Session.LogWrite` | kernel/log.c:214-235 | The change becomes the block's logical contents and the block is in the header, once; inside an operation it panics exactly when the log is full, changing nothing |
| `Operations.Session.Brelse` | kernel/bio.c:116-137 | A buffer whose changes are logged is given back, one reference poorer; no other buffer changes |
| `Operations.Session.EndOp` | kernel/log.c:146-175 | The last operation to end commits while others read: what it leaves on disk is a crash-model commit step or a prefix of one, and when it completes the log is empty and the disk has all logical contents. It stops short only while another process holds a buffer or when every buffer is in use; left alone, with nobody holding a buffer, it completes unless the buffers run out, which is decided beforehand. Any other operation just ends, with log and cache as they were; nobody's view of a home block changes |
| `GroupCommit.RunKeeps` | kernel/log.c:126-175 | In every interleaving, outstanding counts the operations in progress and logged blocks plus open budgets fit the log |
| `GroupCommit.CommitRunsAlone` | kernel/log.c:146-175 | While a commit runs no operation is in progress, so nothing is logged and no second commit starts |
| `GroupCommit.BudgetHolds` | kernel/log.c:126-142 | A log_write that appends never finds LOGSIZE blocks, and no step but a log_write panics |
| `GroupCommit.NoLostWakeup` | kernel/log.c:126-175 | Nobody sleeps in begin_op while it could go on, and while anybody sleeps something in progress will wake them |
| `GroupCommit.LoggedIsCommitted` | kernel/log.c:146-235 | In every run without panic a block logged since the last commit is in the log, and a log with blocks in it always has a commit running or an operation left whose end will commit it |
| `GroupCommit.AppendPanicIff` | kernel/log.c:220-221 | Some run has an appending log_write panic if and only if the on-disk log has at most LOGSIZE blocks |
| `GroupCommit.AbsorbPanicIff` | kernel/log.c:220-228 | Some run has a log_write of an already logged block panic if and only if the log has room for at least one block |
| `GroupCommit.AbsorbPanicsWhenFull` | kernel/log.c:220-228 | In any run such a log_write panics exactly when the log is full |
| `DiskImage.BitUpdate` | kernel/fs.c:72-79 | Setting or clearing one bitmap bit with the code's masks changes that bit and no other |
| `DiskImage.Put32Get32` | kernel/fs.c:401-416 | An indirect entry written is the entry read, and every other entry is as before |
| `DiskImage.DirectKeeps` | kernel/fs.c:388-396 | A free block entered in an empty direct slot keeps every marked data block owned by exactly one slot |
| `DiskImage.EntryKeeps` | kernel/fs.c:399-416 | The same for an empty indirect entry |
| `DiskImage.DataWriteKeeps` | kernel/fs.c:505-539 | Writing file data changes no block's ownership |
| `FileSystem.MarkFirst` | mkfs/mkfs.c:235-248 | The bitmap with exactly the first n blocks marked |
| `FileSystem.FileSystem.constructor` | mkfs/mkfs.c:235-248 | The empty image: metadata marked, every other block free, no inode in use; it meets the invariant |
| `FileSystem.FileSystem.Balloc` | kernel/fs.c:65-88 | The lowest free block, marked and zeroed; 0 exactly when every block is marked; logs exactly its bitmap block and itself |
| `FileSystem.FileSystem.FirstFree` | kernel/fs.c:71-76 | The double loop over bitmap blocks and bits finds the lowest unmarked block |
| `FileSystem.FileSystem.Bfree` | kernel/fs.c:91-105 | The block is unmarked and no other; panics exactly when it was free |
| `FileSystem.FileSystem.Bmap` | kernel/fs.c:382-421 | The file block's disk block; allocated, zeroed and entered if missing, through the indirect block if need be, leaving every other slot and all file data alone; 0 only when the disk is full |
| `FileSystem.FileSystem.BmapFresh` | kernel/fs.c:398-418 | The same beyond the direct blocks of a file without an indirect block, also when only one of the two allocations succeeds |
| `FileSystem.FileSystem.Iupdate` | kernel/fs.c:225-241 | The on-disk inode becomes the in-memory one and its block is logged |
| `FileSystem.FileSystem.Readi` | kernel/fs.c:471-496 | Exactly the file's bytes from the offset, as many as there are, nothing for an offset past the end or a 32-bit overflow; changes nothing |
| `FileSystem.FileSystem.Writei` | kernel/fs.c:505-539 | Splices the source, or the prefix that fits on the disk, into the file's bytes; every other file keeps its bytes, and every inode its type and links; blocks are allocated only where the file had none and only for the bytes written; short only when the disk is full; -1 exactly past the end, on overflow or beyond the maximal size; every block keeps one owner; at most MAXOPBLOCKS blocks logged for one chunk, and all that changed |
| `FileSystem.FileSystem.WriteLoop` | kernel/fs.c:514-531 | Invariant of the loop of writei: bytes so far are in place and the blocks logged are within the count |
| `FileSystem.FileSystem.FreeDirect` | kernel/fs.c:430-435 | Frees exactly the blocks the direct slots name |
| `FileSystem.FileSystem.FreeEntries` | kernel/fs.c:437-444 | Frees exactly the blocks the indirect entries name |
| `FileSystem.FileSystem.Itrunc` | kernel/fs.c:425-453 | Frees exactly the file's blocks, each of which is still marked; the file is empty, every other file and owner as before |
| `FileSystem.FileSystem.FreeInode` | kernel/fs.c:340-355 | The last iput of an unlinked inode frees it and all its blocks, in memory and on disk, and touches no other inode or file |
| `Truncate.TruncatedOwned` | kernel/fs.c:425-453 | After itrunc every remaining block has its one owner and no block of the inode is marked |
| `Truncate.TruncatedFiles` | kernel/fs.c:425-453 | The file reads as empty and the others as before |
| `FileBytes.WroteContent` | kernel/fs.c:505-539 | Bytes written block by block, then the size, make exactly the splice of the old contents |
| `WriteBudget.WithinBudget` | kernel/file.c:149-159 | A writei of at most one chunk logs at most MAXOPBLOCKS distinct blocks, counting data, indirect, bitmap and inode blocks |
| `BudgetTight.TightChunk` | kernel/file.c:149-159 | From a file ending inside its last direct block, with free blocks in different bitmap blocks, one chunk logs exactly MAXOPBLOCKS blocks |
| `FileWrite.WriteChunk` | kernel/file.c:162-167 | One transaction of filewrite advances the offset by what writei wrote and logs at most MAXOPBLOCKS blocks |
| `FileWrite.Filewrite` | kernel/file.c:134-181 | The whole source is spliced in at the offset and its length returned, or -1 after a prefix; short only when the disk is full, the offset is past the end or the file too large; no transaction exceeds MAXOPBLOCKS |
| `FileWrite.SpliceTwice` | kernel/file.c:157-176 | Two chunks in a row are one splice of their concatenation |
| `InodeTable.AtMostOneEntry` | kernel/fs.c:246-277 | An inode has at most one table entry in use |
| `InodeTable.IdsKept` | kernel/fs.c:246-277 | An entry somebody has a reference to keeps standing for the same inode |
| `InodeTable.ITable.constructor` | kernel/fs.c:181-190 | An empty table meets the invariant |
| `InodeTable.ITable.Iget` | kernel/fs.c:246-277 | The inode's one entry with one reference more, recycled and invalid if it had none; panics exactly when every entry is in use by other inodes |
| `InodeTable.ITable.Idup` | kernel/fs.c:281-288 | One reference more, held by the new handle |
| `InodeTable.ITable.Ilock` | kernel/fs.c:292-317 | The entry is valid and locked; panics exactly for an inode of type 0 |
| `InodeTable.ITable.Iput` | kernel/fs.c:336-362 | One reference fewer; the inode is freed exactly when this was its last reference, it has no links and it had been read in |
| `InodeTable.ITable.Unlink` | kernel/sysfile.c:226-233 | One link less; the inode stays as long as somebody has it |
| `InodeTable.ITable.Run` | kernel/fs.c:246-362 | Over any sequence of steps of any processes, taking, duplicating, locking, unlinking and giving up references, no inode in use is left without links and without anybody whose iput will free it |
| `InodeTable.ITable.Others` | kernel/fs.c:246-362 | A batch of steps of other processes has exactly the effects of the steps that can be taken, and leaves a process's references, and the inodes they stand for, as they are |
| `PathWalk.ElementsOfJoin` | kernel/fs.c:608-621 | Splitting a path undoes joining its elements |
| `PathWalk.Skipelem` | kernel/fs.c:622-645 | The first element, cut to 14 characters, and a path with exactly the remaining elements; null exactly when there is none |
| `PathWalk.LookupIs` | kernel/fs.c:551-575 | A name stands for the inode of the first entry in use that has it, and for none exactly when no entry in use has it |
| `PathWalk.WalkIs` | kernel/fs.c:651-684 | A path leads to an inode exactly when there is a trail of directories, each naming the next, that ends there |
| `PathWalk.Scan` | kernel/fs.c:560-572 | The first entry of that name that is in use |
| `PathWalk.Dirlookup` | kernel/fs.c:551-575 | A new reference to the inode the directory names, whatever others do meanwhile, or none |
| `PathWalk.WalkStep` | kernel/fs.c:661-676 | One name of a path: exactly one reference is handed on, or given up; no lock stays held |
| `PathWalk.Namex` | kernel/fs.c:651-684 | On success the process has one reference more, on failure as many as before, and no lock, with other processes interleaved anywhere; while no inode is unlinked the result is the inode the path names and a failure means there is none; it panics only with a full inode table or on an inode freed meanwhile |
| `PageTable.PteFields` | kernel/riscv.h:348-352 | Page number and flags packed into an entry are the ones read back |
| `PageTable.PxInverse` | kernel/riscv.h:354-357 | The three 9-bit indices are in range and determine the virtual page |
| `PageTable.LeafEffect` | kernel/vm.c:142-165 | Writing one word of a lowest-level table changes the leaf with its indices in its address space and no other leaf |
| `PageTable.MapKeeps` | kernel/vm.c:142-165 | Filling an empty leaf keeps every table in one tree and every user page behind one leaf |
| `PageTable.UnmapKeeps` | kernel/vm.c:170-192 | Clearing a leaf returns the page behind it to its caller and keeps the rest |
| `PageTable.FlagsKeep` | kernel/vm.c:337-346 | Changing flags keeps the trees |
| `PageTable.LinkMid` | kernel/vm.c:94-99 | A zeroed page linked as a middle table changes no address space |
| `PageTable.LinkLow` | kernel/vm.c:94-99 | A zeroed page linked as a lowest table changes no address space |
| `PageTable.TreeGone` | kernel/vm.c:271-287 | Dropping all tables of one space leaves every other space as it was |
| `Vm.FreeOnce` | kernel/kalloc.c:46-82 | A page is free exactly when it is on the list, and is on it once |
| `Vm.EntryEffect` | kernel/vm.c:142-192 | Changing the entry of one virtual page changes the entry of no other, in any address space |
| `Vm.Kernel.constructor` | kernel/kalloc.c:26-40 | kinit puts every page of the range on the free list |
| `Vm.Kernel.Kfree` | kernel/kalloc.c:46-63 | A page that is not free becomes the first of the list; no other page changes |
| `Vm.Kernel.Kalloc` | kernel/kalloc.c:68-82 | A free page leaves the list and is the caller's; 0 exactly when the list is empty; no address space changes |
| `Vm.Kernel.Walk` | kernel/vm.c:85-103 | The table word that holds the entry of va; missing tables are made only if asked for, no mapping changes; it fails exactly if there are fewer free pages than tables missing on the way |
| `Vm.Kernel.MapPage` | kernel/vm.c:142-165 | va maps to the page with these flags and every other mapping stays; fails exactly if there are fewer free pages than tables missing on the way, changing no mapping; takes exactly those pages |
| `Vm.Kernel.UnmapPage` | kernel/vm.c:178-191 | va is unmapped, its page freed if asked, every other mapping and all tables kept |
| `Vm.Kernel.Uvmunmap` | kernel/vm.c:170-192 | The same for a range |
| `Frames.Restored` | kernel/vm.c:225-267 | A range unmapped before and after an operation means every one of its pages is free again |
| `PageMap.Apply` | kernel/vm.c:142-192 | One map or unmap updates the finite map the tree stands for; a map fails only on a mapped page or with no page left |
| `PageMap.Run` | kernel/vm.c:142-192 | Any sequence of maps and unmaps makes the three-level tree the finite map they describe, with every outcome explained |
| `UserMemory.RoomLeft` | kernel/vm.c:225-249 | User pages are distinct physical pages, so a growing space stays below the trap frame |
| `UserMemory.Uvmalloc` | kernel/vm.c:225-249 | The space grows by zeroed pages with the given flags exactly if there are free pages for all of them and for the tables missing, and takes exactly those; else it is unchanged, with every user page freed again |
| `UserMemory.Uvmdealloc` | kernel/vm.c:255-267 | The space shrinks to the new size and exactly the pages above it are free |
| `UserMemory.Undone` | kernel/vm.c:225-267 | Growing and shrinking back leaves the space and all user pages as they were |
| `TableTree.Freewalk` | kernel/vm.c:271-287 | Frees exactly the tables below and including the given one; the panic on a leaf is out of reach |
| `Lifecycle.Uvmcreate` | kernel/vm.c:196-205 | A new empty space, or no change exactly when no page is free |
| `Lifecycle.Uvmfree` | kernel/vm.c:291-297 | Every page of the space, user memory and tables, is free and nothing else has changed |
| `Lifecycle.BuiltAndDropped` | kernel/vm.c:196-297 | Building a space and freeing it returns every page |
| `ProcMemory.ProcPagetable` | kernel/proc.c:176-206 | A space with exactly trampoline and trapframe if there are three free pages, else every page back |
| `ProcMemory.MapTrapframe` | kernel/proc.c:196-203 | The second mapping, with every page back when it fails |
| `ProcMemory.ProcFreepagetable` | kernel/proc.c:210-216 | All of the space's pages are free and nothing else has changed |
| `ProcMemory.Uvmcopy` | kernel/vm.c:305-333 | The child has a copy of every user page with the same flags exactly if there are free pages for the copies and their tables, else none and every page back; the parent is unchanged |
| `ProcMemory.Growproc` | kernel/proc.c:259-275 | The size changes by n with zeroed new pages or freed old ones; growing fails exactly if there are too few free pages, and keeps size, mapping and pages; shrinking below zero changes nothing and returns 0 |
| `ForkExec.Fork` | kernel/proc.c:279-326 | The child's memory equals the parent's page by page in pages of its own, with the trampoline and a trapframe of its own above, exactly if there are enough free pages; else every page is back |
| `ForkExec.ForkCopy` | kernel/proc.c:286-296 | The copy, or freeproc of the child |
| `UserCopy.Walkaddr` | kernel/vm.c:108-126 | The page of a mapped user address and 0 for any other |
| `UserBytes.OverlayAt` | kernel/vm.c:364-364 | The bytes moved into a page are the ones found there, all others are as before |
| `UserBytes.PageWritten` | kernel/vm.c:357-368 | Writing into the physical page behind one virtual page changes those bytes of the process and no others, since no two virtual pages share one |
| `UserCopy.ReachIsMemory` | kernel/vm.c:108-126 | Trampoline and trapframe are out of a process's reach: what walkaddr finds is its own memory |
| `UserCopy.Copyout` | kernel/vm.c:351-371 | Succeeds exactly if the process can reach every byte, and has then written them all, across page boundaries; else exactly those before the first page out of reach. No other byte of any process changes |
| `UserCopy.Copyin` | kernel/vm.c:376-396 | Succeeds exactly if the process can reach every byte, and gives the bytes there |
| `UserCopy.Copyinstr` | kernel/vm.c:402-439 | The string up to its NUL, exactly if it ends within max bytes before the first page out of reach |
| `UserCopy.RoundTrip` | kernel/vm.c:351-396 | What copyout has written copyin reads back |
| `ExecImage.Loadseg` | kernel/exec.c:147-166 | The bytes the file has go to their addresses and no others change; succeeds exactly if that is all of the segment; finds every page it fills, so its panic is out of reach |
| `ExecImage.ExecSegment` | kernel/exec.c:53-70 | A header is refused exactly for the reasons the code gives or for want of pages; an accepted one leaves the image with the size, pages, permissions and bytes it asks for on top of the earlier ones; all other spaces are untouched |
| `ExecImage.Segments` | kernel/exec.c:53-71 | All headers: the image they ask for, exactly if each is accepted and there are pages for it |
| `ExecImage.ExecStack` | kernel/exec.c:78-88 | A stack page above a guard page that the user cannot reach |
| `ExecImage.Uvmclear` | kernel/vm.c:337-346 | The page stays mapped without the user bit, nothing else changes |
| `ExecArgs.PushArgs` | kernel/exec.c:90-110 | The strings are on the stack with their NULs, 16-byte aligned, below them the array of pointers to them and a null; exactly if there are fewer than MAXARG and all of it fits into the stack page; nothing below that page changes |
| `ExecImage.Exec` | kernel/exec.c:22-141 | Succeeds exactly if every header is accepted, the arguments fit and there are enough free pages. The new image then has, byte by byte, what the segments put there and 0 elsewhere, pages with the permissions of their headers, guard page, stack and arguments with argv leading to them, trampoline and trapframe; exactly the old image's pages are freed. Failure leaves the old image and returns every page |
| `FreeList.Disjoint` | user/umalloc.c:24-90 | A block handed out overlaps no free block and no other block handed out |
| `FreeList.Fits` | user/umalloc.c:24-44 | A block handed out does not reach into its neighbours |
| `FreeList.FreeJoins` | user/umalloc.c:30-43 | The headers free writes describe the block joined with exactly the free neighbours adjacent to it |
| `FreeList.JoinedOk` | user/umalloc.c:24-44 | Joining keeps the list circular, ordered by address and free of adjacent blocks |
| `FreeList.TookWholeOk` | user/umalloc.c:73-75 | So does handing out a whole block |
| `FreeList.TookTailOk` | user/umalloc.c:76-80 | And handing out the tail of one |
| `Malloc.StopsAt` | user/umalloc.c:30-32 | The scan of free stops exactly at the block's place in the list, from wherever it starts |
| `Malloc.Allocator.constructor` | user/umalloc.c:21-22 | A program before its first malloc meets the invariant |
| `Malloc.Allocator.Free` | user/umalloc.c:24-44 | The block is free, coalesced, and no unit is lost; what other blocks hold behind their headers, and memory outside the heap, is untouched |
| `Malloc.Allocator.Store` | user/umalloc.c:24-90 | What a program writes into its block past the header disturbs nothing |
| `Malloc.Allocator.Morecore` | user/umalloc.c:46-61 | A block of at least the units asked for joins the list, unless sbrk fails; no word of a program changes |
| `Malloc.Allocator.Take` | user/umalloc.c:73-83 | Exactly n units of the block are handed out, no unit lost |
| `Malloc.Allocator.Malloc` | user/umalloc.c:63-90 | A block of its own with enough units: from the free list exactly if some block on it is large enough, else after one morecore; 0 exactly if none is and sbrk fails. What earlier blocks hold is untouched |
| `Malloc.Allocator.Search` | user/umalloc.c:70-89 | The loop ends: a fitting block is used if there is one; a lap without a fit calls morecore, and the next lap finds its block |
| `Malloc.CoreIsObtainedIff` | user/umalloc.c:46-61 | sbrk is asked for as many units as the header then claims if and only if the request is at most 2147483616 bytes |
| `Malloc.HugeRequest` | user/umalloc.c:46-61 | malloc(4294967280) asks sbrk for 0 bytes and takes them for 2^28 units |
| `HeapUnits.Conservation` | user/umalloc.c:24-90 | Units in free blocks plus units handed out are exactly the units obtained |
| `Sched.Safety` | kernel/proc.c:444-580 | Over every interleaving from boot: at most one CPU executes a process, no check in release or sched panics, no acquire finds its lock held by its own CPU, and with the lock of a channel free nobody sleeps on the channel while its condition holds, whichever channels share the lock |
| `Sched.StepKeeps` | kernel/proc.c:444-604 | Every lock operation, state change and switch keeps the invariant |
| `Sched.StructureKept` | kernel/proc.c:444-510 | Locks, CPUs and processes keep naming one another consistently across every switch |
| `Sched.SingleExecution` | kernel/proc.c:444-472 | A process is executed by at most one CPU, and by exactly its c->proc one when RUNNING |
| `Sched.NoLostWakeup` | kernel/proc.c:535-580 | With the lock of its channel free, a sleeper's condition does not hold, also where one lock serves several channels |
| `Sched.ZombieIsOff` | kernel/proc.c:378-386 | A zombie whose lock can be taken has left its CPU |
| `Sched.NoSelfDeadlock` | kernel/spinlock.c:21-43 | A thread about to acquire a process's or a channel's lock does not hold it on its own CPU |
| `Sched.TakesFree` | kernel/spinlock.c:21-43 | Every step that takes a lock is such an acquire, at a moment when nobody holds the lock |
| `Sched.NoPanic` | kernel/proc.c:481-499 | In every reachable state the checks of sched, release and pop_off hold |
| `Sched.SleepHoldsStep` | kernel/proc.c:535-562 | sleep is entered only with the channel's lock and a false condition, and left only by taking that lock again |
| `Sched.SleepHolds` | kernel/proc.c:535-562 | Over any part of a run, a process that was inside sleep and is outside has taken its channel's lock on the way |
| `Sched.LifeCycle` | kernel/proc.c:444-604 | Every change of p->state, of any process by any step: fork makes UNUSED runnable, only the scheduler that holds its lock runs a process, it alone yields, sleeps or exits, wakeup on its channel or kill makes a sleeper runnable, wait frees a zombie; nothing else changes a state |
| `Sched.SleepsOn` | kernel/proc.c:535-604 | Over any run a sleeper stays asleep on its channel until a wakeup on that channel or a kill reaches it |
| `Sched.WakeupReaches` | kernel/proc.c:566-580 | Of the processes a wakeup has passed none is asleep on its channel or on the way there |
| `ExitWait.StepKeeps` | kernel/proc.c:279-435 | Every step of fork, exit, reparent and wait keeps the family invariant |
| `ExitWait.RunKeeps` | kernel/proc.c:279-435 | So does every run |
| `ExitWait.ParentsCanReap` | kernel/proc.c:330-435 | Over every run each process but init has a parent that can still wait, no parent sleeps in wait with a zombie child while wait_lock is free, and no incarnation is reaped twice |
| `ExitWait.ReapedByParent` | kernel/proc.c:390-435 | Only the current parent reaps, only a zombie, and under wait_lock |
| `ExitWait.NoChildLeft` | kernel/proc.c:423-427 | Over every run, a wait that has scanned the table without a zombie returns, unless killed, exactly if there is no child, and sleeps exactly if there is one |
| `ExitWait.LifeCycle` | kernel/proc.c:279-435 | Every change of a state or a parent, and whose step it is: fork sets the parent of its new process, exit gives the exiting process's children and nobody else's to init, wait clears what it frees |
| `ExitWait.ParentOrInit` | kernel/proc.c:279-435 | Over every run, as long as a process is in the table its parent is the one it had, or init |
| `ShellGrammar.ParsesExactly` | user/sh.c:328-447 | For every text and every tree: the parser gives the tree if and only if the text's tokens derive it in the grammar, in which words and redirections of a command come in any order |
| `ShellGrammar.RedirsTake` | user/sh.c:375-398 | Redirections in a row are all taken, in order |
| `ShellGrammar.ArgsTake` | user/sh.c:428-446 | Words and redirections in any order: every word becomes an argument and every redirection is kept |
| `ShellGrammar.ArgsFind` | user/sh.c:428-446 | What the loop has collected is exactly the words and redirections it has passed |
| `ShellGrammar.LineTake` | user/sh.c:345-360 | A derivable line is parsed, into its tree |
| `ShellGrammar.LineFind` | user/sh.c:345-360 | What is parsed is derivable |
| `ShellRoundTrip.RoundTrip` | user/sh.c:328-447 | For every command tree the shell can represent, parsing any text whose tokens are the tree's, with any white space between them or none where none is needed, gives the tree back |
| `ShellRoundTrip.PrintedBack` | user/sh.c:328-447 | So does its printing, with parentheses only where precedence asks for them |
| `ShellRoundTrip.LevelBack` | user/sh.c:345-447 | The tokens of a tree derive it at every grammar level |
| `ShellRoundTrip.LineIsWords` | user/sh.c:345-360 | Every string a parse records is a maximal word of the text |
| `ShellParser.Parser.Token` | user/sh.c:266-309 | gettoken returns the token the grammar gives at the cursor and moves past it and the white space behind |
| `ShellParser.Parser.Sees` | user/sh.c:311-321 | peek skips white space and tells whether the next character is one of these |
| `ShellParser.Parser.MoreRedirs` | user/sh.c:375-398 | Exactly the redirections at the cursor, or the syntax panic |
| `ShellParser.Parser.Simple` | user/sh.c:416-447 | The simple command or block at the cursor as the specification of the parser gives it, or a panic exactly when it gives none; what that is on tokens is `ShellGrammar.ParsesExactly` |
| `ShellParser.Parser.Block` | user/sh.c:400-414 | The same for a command in parentheses |
| `ShellParser.Parser.Pipeline` | user/sh.c:362-373 | The same for a pipeline |
| `ShellParser.Parser.Line` | user/sh.c:345-360 | The same for a command line |
| `ShellParser.Nulterminate` | user/sh.c:450-494 | Writes a NUL at the end of every recorded string and nowhere else |
| `ShellParser.EndsOutside` | user/sh.c:450-494 | Those ends are never inside a word |
| `ShellParser.StringsAreWords` | user/sh.c:450-494 | After nulterminate every recorded pointer is a C string equal to its word |
| `ShellParser.Parsecmd` | user/sh.c:328-343 | Succeeds exactly on texts that derive some tree, with that tree, every recorded pointer then a C string equal to its word |
| `Regex.ItemsAre` | user/grep.c:84-105 | How a pattern string is read: into the only sequence of items that spells it with every star on the character before it and a final dollar as the end |
| `Regex.HereOne` | user/grep.c:84-95 | A character or dot matches exactly one character, then the rest |
| `Regex.HereStar` | user/grep.c:97-105 | A starred item matches any number of its characters, then the rest |
| `Regex.Matchhere` | user/grep.c:84-95 | True exactly when the pattern matches at the beginning of the text, in the meaning of patterns as sets of strings |
| `Regex.Matchstar` | user/grep.c:97-105 | True exactly when some number of the character followed by the rest matches |
| `Regex.Match` | user/grep.c:71-81 | True exactly when the pattern occurs in the text, at its beginning for ^ |
| `Grep.Grep` | user/grep.c:10-34 | However reads split the input, NULs included, the output is the matching lines before the first one that does not fit the buffer or has a NUL in it, and every matching line when there is no such line |
| `Grep.Turn` | user/grep.c:17-32 | One read: complete lines are dealt with and exactly the rest moves to the front |
| `Grep.Scan` | user/grep.c:20-27 | The lines complete in the buffer, each matched alone |
| `Grep.ExactIff` | user/grep.c:10-34 | The output is every matching line if and only if none comes at or after the first line of more than 1023 bytes, its newline included, or with a NUL |
| `Grep.PrintedIs` | user/grep.c:10-34 | On a text given by its lines, and perhaps an unfinished last one, the matching lines are exactly those in which the pattern occurs, in order |
| `Grep.LongLineLost` | user/grep.c:17-32 | An input whose first line has 1024 bytes, with a matching line after it: nothing is written |
| `Grep.LongLineExample` | user/grep.c:17-32 | The empty pattern, 1023 characters and a newline, then x: both lines match and neither is written |
| `Grep.NulLineLost` | user/grep.c:20-27 | A NUL in the first line and any matching line: the output is not the matching lines |
| `Grep.ShortLinesFit` | user/grep.c:10-34 | With no such line nothing is left out |
| `PipeFifo.Fifo` | kernel/pipe.c:76-130 | In every run, kills included, what has been read is a prefix of what has been written, with at most PIPESIZE bytes in between |
| `PipeFifo.CountersMean` | kernel/pipe.c:88-110 | The tests on the wrapping counters mean full and empty |
| `PipeFifo.RingKept` | kernel/pipe.c:76-130 | The ring holds exactly the bytes written and not yet read |
| `PipeFifo.WriteIsWhole` | kernel/pipe.c:76-101 | In every run, what a write has appended is a prefix of its bytes, and all of them if it returns normally |
| `PipeFifo.ReadIsWhole` | kernel/pipe.c:103-130 | In every run, a read of n removes at most n bytes |
| `PipeFifo.ReadEnds` | kernel/pipe.c:103-130 | A read returns short only on an empty pipe, and with nothing only at the end of a closed one |
| `PipeFifo.WriterMoves` | kernel/pipe.c:82-99 | In every state a writer at work, kills apart, has exactly one next step, told by the bytes gone in and come out: end when all is in, fail without readers, sleep on a full pipe, else put in a byte |
| `PipeFifo.ReaderMoves` | kernel/pipe.c:109-128 | A reader sleeps exactly on an empty pipe with writers, and else takes bytes while it wants some and there are some |
| `PipeFifo.OnlyTheirs` | kernel/pipe.c:58-130 | Only a write appends and only a read removes |
| `PipeFifo.StepKeeps` | kernel/pipe.c:58-130 | Every step keeps sleepers wakeable, but for the return of a killed writer with bytes it has not announced while a reader sleeps |
| `PipeFifo.NobodyStranded` | kernel/pipe.c:58-130 | With the lock free no reader sleeps on a pipe with bytes or without writers, and no writer on one with room or without readers, in every run without such a return |
| `PipeFifo.KillStrandsIff` | kernel/pipe.c:84-87 | A killed writer's return strands a reader exactly when it has appended since it last woke the readers and a reader sleeps |
| `PipeFifo.KillLosesWakeup` | kernel/pipe.c:84-87 | A run in which it does |
| `Virtio.Queue.constructor` | kernel/virtio_disk.c:144-146 | At start every descriptor is free |
| `Virtio.Queue.AllocDesc` | kernel/virtio_disk.c:156-166 | The lowest free descriptor, or -1 exactly when there is none |
| `Virtio.Queue.FreeDesc` | kernel/virtio_disk.c:169-182 | Panics exactly for a bad index or a free descriptor |
| `Virtio.Queue.Alloc3` | kernel/virtio_disk.c:201-213 | Three different free descriptors, or none taken exactly when there are no three |
| `Virtio.Queue.FreeChain` | kernel/virtio_disk.c:185-197 | Frees exactly the three descriptors of a chain, without panic |
| `VirtioProtocol.Partition` | kernel/virtio_disk.c:156-213 | In every reachable state a descriptor is free or in the chain of exactly one request in flight |
| `VirtioProtocol.Conservation` | kernel/virtio_disk.c:156-213 | Free descriptors and three per request in flight are all there are |
| `VirtioProtocol.NoPanic` | kernel/virtio_disk.c:294-327 | In every run the device takes the oldest queued request, the handler finds a completed one with status 0 and its own waiting buffer, and a waiter leaves only after that |
| `VirtioProtocol.CompletesOnce` | kernel/virtio_disk.c:215-327 | Every request is reported at most once, and each one made is reported or in flight |
| `VirtioProtocol.NothingMissed` | kernel/virtio_disk.c:294-327 | The 16-bit indices differ exactly when an entry is pending, wrap-around included |
| `VirtioProtocol.AvailRoom` | kernel/virtio_disk.c:268-276 | A free descriptor means the available ring has room, so no entry is overwritten before the device takes it |
| `VirtioProtocol.UsedRoom` | kernel/virtio_disk.c:310-326 | A request at the device means the used ring has room |
| `VirtioProtocol.StepKeeps` | kernel/virtio_disk.c:215-327 | Submitting, taking, completing, handling and finishing keep the invariant in any order |
| `VirtioProtocol.SubmitIsAlloc3` | kernel/virtio_disk.c:226-263 | The submit step changes free[] as alloc3_desc does and links the chain |
| `VirtioProtocol.FinishIsFreeChain` | kernel/virtio_disk.c:283-289 | The finish step meets free_chain's needs and leaves what it leaves |

## Left out

- Weak memory, cache flushes and the time interrupts take: steps are atomic and ordered.
- Interrupt handlers other than the disk's, traps, assembly, the timer and the wakeups they cause; `Sched` has wakeups from processes only, and no priority or fairness.
- Device registers, the console, UART and PLIC; the disk is a sequence of blocks written one at a time.
- VirtioProtocol.Next: the device always completes with status 0 and never fails; addresses, sectors and the data transfer of a request are not modelled, descriptors are their links.
- Copies to and from user memory never fail inside readi, writei and the pipe, which take and give byte sequences; `UserCopy` has copyin and copyout themselves.
- FileSystem.FileSystem.Writei: file operations are taken one at a time, as the inode's lock and the log make them; the logical block contents are those `Log` proves coherent.
- ialloc, dirlink, link, unlink, create, and mkfs beyond the empty image; a directory's entries are given, whole, and its size is a multiple of the entry size.
- PathWalk.Namex: the result is named by the path's entries while nothing is unlinked meanwhile; inode locks do not block; exclusion between processes is that of the reference counts.
- Operations.Session.EndOp: an operation logs what it changed before brelse and holds no buffer when it ends, which is what file-system code does; the wait for room in begin_op and the sleepers are in `GroupCommit`.
- Commit.Committer.Commit: progress of the other processes is not modelled; a commit that waits for a lock stays waiting in the model until a schedule releases it.
- Commit.Committer.RecoverFromLog: the header read from disk is well formed (block numbers on the disk, outside the log, each once), as commits leave it.
- Devices other than the root device.
- BufferCache.Bcache.Lock: the sleep lock is free; the wait for it is in `Commit.Committer.Take`, with other processes at work meanwhile.
- BufferCache.Bcache.Bread: the buffer's lock is free at once, as for Lock.
- Log.Log.Bread: the buffer's lock is free at once, as for Lock.
- Operations.Session.Bread: the buffer's lock is free; a session is a sequence of whole steps, and readers that wait between them are not covered.
- Operations.Session.BeginOp: the wait for room and for a commit is in `GroupCommit`.
- FileSystem.FileSystem.Iupdate: the 64 bytes of an inode in its block are a value, not bytes.
- InodeTable.ITable.Ilock: waiting for another holder of the inode's lock.
- InodeTable.ITable.Others: the other processes change no directory and no link count.
- BudgetTight.TightChunk: needs a disk whose free blocks lie in different bitmap blocks; the default image has only one bitmap block.
- Vm.Kernel.MapPage: mappages is used one page at a time; its loop over several pages occurs only for the kernel's own page table, which is not modelled.
- ExecImage.Loadseg: its 32-bit size; a segment of 4 GB has no room below PHYSTOP. What readi finds in the file is a parameter, possibly short.
- ExecImage.ExecSegment: a program header and whether it can be read are a parameter, instead of its bytes in the file.
- ExecImage.Exec: the ELF header, the program's name and entry point, and closing the file.
- ExecArgs.PushArgs: a call with exactly MAXARG strings, one more than sys_exec passes.
- ForkExec.Fork: open files, names, pids and the trapframe's contents.
- Malloc.Allocator.Malloc: requests above 2147483616 bytes, for which the block is not what its header says (`Malloc.CoreIsObtainedIff`); addresses are counted in 16-byte units and the heap starts aligned.
- Sched.Safety: a process holds one channel lock at a time, for any of the lock's channels; nested kernel spin locks, devintr and the idle loop are not modelled.
- ExitWait.ParentsCanReap: sleeping on the parent's channel and releasing wait_lock is one step, which `Sched.NoLostWakeup` justifies for sleep; file and memory clean-up in exit is left out.
- PipeFifo.NobodyStranded: excludes runs in which a killed writer returns with appended bytes unannounced while a reader sleeps; `PipeFifo.KillStrandsIff` says that exactly those returns strand a reader.
- ShellParser.Parser.Simple: the parser builds tree values instead of nodes that alias; the text has no NUL; runcmd is not modelled.
- Grep.Grep: reads return at least one byte until the end.
- System calls, file descriptors, the remaining user programs, and everything only booting needs would add easy members.
