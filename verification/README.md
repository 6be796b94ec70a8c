# A verified model of the xv6 kernel's core

Dafny models of the parts of this xv6 variant where correctness is hard to see from the
code, with proofs about every input, every run or every reachable state. `dafny verify
dfyconfig.toml` checks all of it.

- **Write-ahead log** (`log.c`). `LogDisk` gives commit and recovery as sequences of block
  writes and proves them atomic and restartable at every crash point. `LogProtocol` is the
  group-commit protocol as a state machine: operations interleave, one disk write is one
  step, and a crash may come anywhere. `LogPanics` finds the exact budget of blocks and
  buffers within which no run panics. `LogKernel` is the code on the in-memory log, which
  issues exactly the writes of `LogDisk` and takes the steps of `LogProtocol`.
- **Buffer cache** (`bio.c`, `memide.c`). `BufferCache` keeps the doubly linked list of
  buffers as index arrays; a ghost map of last-written values says what the cache is for.
- **Inodes and blocks** (`fs.c`, `fs.h`). `FsBytes` has the disk formats byte by byte,
  `FsOwners` who owns which block, `FsView` files as flat byte sequences, `FsKernel` the code.
- **Schedulers** (`proc.c`, `trap.c`). `Mlfq`, `MlfqInv` and `MlfqRuns` are the multilevel
  feedback queue as a state machine with its invariant and its runs, `MlfqTicks` says what
  ticks, wakeups and kills do and how long a process runs, `MlfqAging` bounds the stay of an
  aged process in its queue; `MlfqQueue` and `MlfqKernel` are the code on the queue arrays.
  `Pbs` is the priority scheduler.
- **Process life cycle** (`proc.c`). `ProcLife`: fork, exit, wait, kill, sleep and wakeup.
- **User allocator** (`umalloc.c`). `UMalloc` has the free list as values and as linked
  headers, `UMallocRuns` where every unit is over whole runs, `UMallocKernel` the code on the
  headers.
- **Page tables** (`vm.c`, `kalloc.c`). `VmTables` says what a page directory maps and owns,
  `VmKernel` is the code on physical memory, the free list threaded through its own pages.
- **Pipes** (`pipe.c`). `Pipe`: the ring buffer with wrapping counters, and the sleep and
  wakeup protocol for any number of readers and writers.
- **Shell parser** (`sh.c`). `ShellGrammar` has tokens, derivations and command trees,
  `ShellTree` the same trees by splitting a line at its operators, `ShellLex` the tokens of a
  line, `ShellParse` the recursive descent on tokens, `ShellKernel` the code on characters and
  on the line buffer.
- **grep's matcher** (`grep.c`). `Grep`, against a declarative semantics of patterns and its
  laws.

`Common` and `Procs` hold vocabulary that several of these share.

Critical sections under one lock are atomic steps. A panic is an outcome (a result value, a
`false` or a `-1`), so that contracts say when it happens. Where the code departs from what
it seems to promise, the code is modelled as it is, and the exact condition is proved:

- The log can panic in three ways. `log_write` stops at `log.size - 1` as well as at LOGSIZE,
  and `mkfs.c` makes the region LOGSIZE blocks long (`LogPanics.SmallLogPanics`). It tests both
  before it looks whether the block is in the log already, so an operation that has added its
  MAXOPBLOCKS blocks may not write even one of them again (`LogPanics.FullLogPanics`). And
  `param.h` gives the cache NBUF == LOGSIZE buffers, all of which a full transaction leaves
  dirty, so that the commit finds none for its first log block (`LogPanics.CacheFullPanics`).
  `LogPanics.NoPanicIff` is the exact budget: with l blocks per operation and h buffers held at
  a time no run panics if and only if l <= MAXOPBLOCKS, MAXOPBLOCKS + 2 l < log.size and
  MAXOPBLOCKS + 2 l + h < NBUF. As shipped that is 2 l + h < 20, so the MAXOPBLOCKS blocks that
  `begin_op` reserves are too many (`LogPanics.NoPanicAsShipped`).
- Crash safety does not depend on any of this (`LogProtocol.GroupCommitSafe`). On a region
  smaller than the cache the log may outgrow its region (`LogPanics.SmallLogOverruns`), and
  there the model ends; on the region that `mkfs.c` makes it may too, but is then never
  committed (`LogPanics.OverrunPanics`).
- A writer that is killed on a full pipe returns without waking the readers, who may sleep on
  over a full pipe. No wakeup is lost if and only if that step does not occur
  (`Pipe.NoLostWakeupIff`, `Pipe.KillLosesWakeup`).
- The aging loop advances past the process that slides into the place of a removed one, so
  one pass raises only every second aged process (`MlfqRuns.AgingPass`). In every run an aged
  process at place k is nevertheless running or raised within about log k rounds of the
  scheduler, and within 7 in any case (`MlfqAging.RaisedWithin`).
- `kfree` does not notice a page that is free already; the free list then never ends
  (`VmKernel.DoubleFree`).
- A comment at `proc.c:1032` speaks of the fewest chances under PBS; the comparison picks
  the most. Fairness rests on the counter staying 0 (`Pbs.ChancesAlwaysZero`) and on
  `start_idx` (`Pbs.ChosenWithinNproc`).
- `push_back_process` does not look at the last used slot for a duplicate; that no process is
  queued twice comes from its callers (`MlfqInv.EnqueueKeeps`).
- `>>` opens the file as `>` does; both have the same mode (`ShellTree.CommandTree`).

## Model

| member | source | states |
|---|---|---|
| `LogDisk.RecoveryRestartable` | log.c:68-122 | Recovery cut after any number of its block writes recovers later to the very disk that uninterrupted recovery gives |
| `LogDisk.RecoveryCompletes` | log.c:68-122 | Finished recovery leaves a clear log and the recovered home blocks; running recovery again changes nothing |
| `LogDisk.RecoveryConverges` | log.c:68-122 | Any finite number of interrupted recoveries, cut anywhere, ends in the same home blocks as one recovery |
| `LogDisk.CommitPoint` | log.c:98-113 | After the header write the log holds the transaction and no home block has moved |
| `LogDisk.CommitAtomic` | log.c:176-202 | A crash after any k writes of commit recovers to all old home blocks (up to the header write) or to all new ones (from it on) |
| `LogDisk.CommitCompletes` | log.c:192-202 | A commit that runs to its end has installed every logged block and cleared the log |
| `LogDisk.CommitInstalls` | log.c:192-202 | After a full commit every logged block has its value, and every other home block is as it was |
| `LogDisk.LogLayout` | log.c:98-113 | At the commit point the header block holds the count and the block numbers in its first words, its other words as they were, and the blocks behind it hold the contents in the same order |
| `LogDisk.CommitCrashPoints` | log.c:176-202 | Every disk between two writes of commit recovers to the file system before or after, with the header write as the divide |
| `LogDisk.RecoverCrashPoints` | log.c:115-122 | Every disk between two writes of recovery recovers to the same file system |
| `LogProtocol.GroupCommitSafe` | log.c:124-233 | Over every interleaving of begin_op, log_write, end_op, buffer use, commit writes and crashes, on a log region of any size, as long as the log has not outgrown it (never, if the region is larger than LOGSIZE or has as many blocks as there are buffers, as mkfs makes it): the disk recovers to the updates before the commit point; no operation is split by it; commits run only with nothing outstanding; logged blocks stay distinct and with the reservations within LOGSIZE; dirty and held buffers stay within the cache; reads see the last update |
| `LogProtocol.StepKeeps` | log.c:124-233 | Every enabled step of the group-commit protocol, crash included, keeps the invariant while the log fits its region or cannot be committed; a step panics if and only if it is a log_write on a full log, or a bread, in a commit or outside, that finds every buffer dirty or held |
| `LogProtocol.DirtyCount` | bio.c:84-97 | In every reachable state the dirty buffers are as many as the logged blocks not yet installed, and with those held at most as many as the cache has |
| `LogProtocol.CrashSafe` | log.c:115-122 | In any state of the invariant, recovering the disk as it stands gives the file system at the last commit point |
| `LogProtocol.ReadsCurrent` | log.c:204-233 | A read in a running system returns the last logged update of the block, committed or not |
| `LogProtocol.AbsorbDistinct` | log.c:222-230 | Log absorption keeps the logged block numbers distinct, adds the block, and grows the log by at most one |
| `LogProtocol.CommitPins` | log.c:68-82 | During commit exactly the blocks not yet installed stay pinned: a block is unpinned by the write that installs it |
| `LogPanics.NoPanicIff` | log.c:124-233 | Of the runs in which log_write is called only by operations that have added fewer than l blocks, and at most h clean buffers are held at a time, none panics, in log_write, end_op or any bread, if and only if l is at most MAXOPBLOCKS, the region is larger than MAXOPBLOCKS + 2 l, and the cache is larger than that and h together |
| `LogPanics.NoPanicAsShipped` | param.h:10-12 | With NBUF buffers some run within the reservations of begin_op panics, whatever the region; on a region of LOGSIZE blocks or more the runs limited to l blocks and h buffers are free of panics if and only if 2 l + h is less than 20 |
| `LogPanics.SmallLogPanics` | log.c:218-219 | On a region of at most MAXOPBLOCKS + 2 l blocks, operations that add at most l blocks each reach the panic of log_write |
| `LogPanics.FullLogPanics` | log.c:218-230 | The size check precedes the absorption scan: on a region of any size an operation that has added its MAXOPBLOCKS blocks, on a log that is full, panics even for a block already logged |
| `LogPanics.CacheFullPanics` | bio.c:84-97 | With at most MAXOPBLOCKS + 2 l + h buffers, operations within l blocks and h held buffers leave no clean one for the first block that write_log reads, and the commit of the last end_op panics before any write |
| `LogPanics.CarefulNoPanic` | log.c:124-233 | Runs within l blocks per operation and h held buffers, on a region and a cache above the bounds, neither panic anywhere nor outgrow the region |
| `LogProtocol.ReservedAppend` | log.c:130-137 | A log_write moves one block from the reservation of its operation to the log, or none if it is absorbed; log and reservations together stay within LOGSIZE |
| `LogPanics.SmallLogOverruns` | log.c:213-233 | Because the size check runs before the lock is taken, on a region of at most LOGSIZE blocks two log_writes can pass it together and fill the log past its region |
| `LogPanics.OverrunPanics` | log.c:177-202 | A log past its region, where the cache has no more buffers than the region blocks, is never committed: the commit panics at its first bread, and the disk holds the last committed state |
| `LogKernel.Log.ReadHead` | log.c:84-96 | Loads the logged block numbers from the header on disk; panics exactly if no buffer is left |
| `LogKernel.Log.WriteHead` | log.c:98-113 | One write of the header block: the count and the block numbers, the other words as they were; panics exactly if no buffer is left |
| `LogKernel.Log.InstallTrans` | log.c:68-82 | Copies the log blocks to their home blocks in order and unpins exactly those; needs one buffer beside the pinned ones in a commit and two in a recovery, and panics before any write exactly if they are not there |
| `LogKernel.Log.WriteLog` | log.c:176-190 | Copies the cached contents of the logged blocks into the log in order; panics before any write exactly if there are such blocks and no buffer is left |
| `LogKernel.Log.Commit` | log.c:192-202 | Issues exactly CommitWrites; at each crash point the file system is the old or the new one; panics, before any write, exactly if blocks are logged and with the held buffers they fill the cache; afterwards every logged block is at home with the contents of its buffer and no other home block has changed |
| `LogKernel.Log.RecoverFromLog` | log.c:115-122 | Issues exactly the writes of RecoverWrites; leaves a clear header and the recovered home blocks; panics exactly for want of two buffers (one, if nothing is logged); after a crash in any reachable protocol state it is the run of the recovery steps |
| `LogKernel.Log.BeginOp` | log.c:124-141 | Admits an operation exactly when no commit runs and its reservation fits, and counts it; it is the Begin step of the protocol state it shows |
| `LogKernel.Log.LogWrite` | log.c:204-233 | Panics exactly when the log is full or no operation is outstanding; otherwise absorbs the block, pins it, and keeps exactly the logged blocks pinned; it is the Check and the Append step of the protocol state it shows |
| `LogKernel.Log.EndOp` | log.c:143-174 | Panics exactly when a commit is running, or when it is the last and the logged blocks and held buffers fill the cache; the last operation out performs the commit writes, unpins the logged buffers and clears the log, any other changes nothing but the count; it is the End step, the End step and the whole commit, or the End step and a panic, of the reachable protocol state it shows |
| `LogKernel.CommitDurable` | log.c:192-202 | The writes of commit bring the buffer of every logged block home, and change no other home block |
| `LogKernel.EndRun` | log.c:143-202 | From every reachable protocol state with a buffer to spare the last end_op's steps lead to the disk after CommitWrites of the cached contents, with nothing logged or pinned |
| `LogKernel.EndPanics` | log.c:143-202 | From every reachable protocol state without one they panic at the first block write |
| `LogKernel.RebootRun` | log.c:115-122 | From every reachable protocol state a crash and the recovery steps lead, with the buffers recovery needs, to the disk after RecoverWrites, with nothing logged or pinned |
| `BufferCache.Cache.constructor` | bio.c:39-57 | Builds a ring of all buffers, none valid or pinned, over a disk that holds the last-written values |
| `BufferCache.Cache.Find` | bio.c:69-79 | Walks the ring and finds a buffer with the key, if and only if one exists |
| `BufferCache.Cache.Victim` | bio.c:84-96 | Finds, of the buffers neither referenced nor dirty, the one whose last release is longest ago; none exactly when all are pinned |
| `BufferCache.Cache.Bget` | bio.c:62-98 | A hit gains a reference and changes nothing else; a miss recycles the least recently released unpinned buffer; panics exactly when there is neither |
| `BufferCache.Cache.Bread` | bio.c:101-112 | Returns a buffer that holds the value last written to the block, with one more reference and no other buffer changed; a recycled buffer is the unpinned one released longest ago; panics exactly for want of buffers (for blocks on the disk) |
| `BufferCache.Cache.CopyBlock` | log.c:74-81 | Two buffers at once: the value last written to one block is written through to the other, on disk too, and all references are given back; two unpinned buffers suffice, or one if either block is in a pinned buffer |
| `BufferCache.Cache.ModifyAndLog` | log.c:231 | A held buffer changed and marked dirty carries the block's last value and can no longer be recycled |
| `BufferCache.Cache.ModifyAndWrite` | bio.c:115-121 | A held buffer changed and written through: disk, cache and last value agree |
| `BufferCache.Cache.MoveToFront` | bio.c:136-142 | The six pointer assignments move one buffer to the front of the ring and keep it a ring of all buffers in order of release |
| `BufferCache.Cache.Brelse` | bio.c:125-146 | Drops a reference; at zero the buffer becomes the most recently released of all |
| `BufferCache.RecycleKeeps` | bio.c:84-96 | Recycling an unpinned buffer loses no last-written value |
| `BufferCache.FillKeeps` | memide.c:38-60 | A buffer not yet read may be filled from the disk, because no other buffer holds a newer value of that block |
| `BufferCache.Unlinks` | bio.c:137-138 | Taking a node out of a doubly linked ring leaves the ring of the others |
| `BufferCache.LinksFront` | bio.c:139-142 | Linking a node in behind the head extends the ring by it |
| `FsBytes.SetBit` | fs.c:66-68 | Setting a bit by byte and mask changes that block's bit of the free map and no other |
| `FsBytes.ClearBit` | fs.c:88-92 | Clearing a bit by byte and mask changes that block's bit of the free map and no other |
| `FsBytes.EntryPut` | fs.c:390-393 | Writing word k of an indirect block is read back as word k and leaves all other words |
| `FsBytes.BitPlace` | fs.c:64-66 | The bit of block b is bit b mod 8 of byte b mod 4096 / 8 of map block b / 4096 |
| `FsBytes.EntryPlace` | fs.c:389-390 | Word k of an indirect block is its k-th little-endian 32-bit word |
| `FsBytes.InodeLayout` | fs.h:29-42 | Inode i is 64 bytes of inode block i / 8: four little-endian shorts for type, major, minor and nlink, then words for the size and the 13 addresses |
| `FsBytes.InodeRoundTrip` | fs.c:220-236 | An inode packed into its inode block is read back field by field, and the other inodes of the block are unchanged |
| `FsOwners.Allocated` | fs.c:55-78 | Marking a free block keeps the ownership invariant with that block in transit; it was nobody's |
| `FsOwners.Attached` | fs.c:372-400 | Giving a block in transit to an empty slot keeps every block singly owned |
| `FsOwners.Detached` | fs.c:407-435 | Taking all blocks of one inode away leaves exactly those in transit |
| `FsOwners.Freed` | fs.c:80-95 | A block in transit is marked, and clearing its bit keeps the invariant |
| `FsView.AttachAddr` | fs.c:378-388 | A fresh zeroed block in an empty address slot changes the contents of no file |
| `FsView.AttachEntry` | fs.c:389-396 | A fresh zeroed block entered in the indirect block changes the contents of no file |
| `FsView.ContentAt` | fs.c:372-400 | Byte x of a file is byte x mod 512 of the block whose number stands in the inode at x / 512, or, from 12 on, in that word of the indirect block |
| `FsView.FileWrite` | fs.c:499-503 | Writing a mapped block changes that block of that file, and no other file, bit or inode |
| `FsView.FlatPatch` | fs.c:498-504 | Part of one block written is the same stretch of the flat byte sequence written |
| `FsKernel.EmptyGood` | mkfs.c:236-252 | A disk whose map marks exactly the metadata and whose inodes are empty, as mkfs has it before it adds the root directory, meets the invariant that all operations keep |
| `FsKernel.FileSystem.constructor` | fs.c:298-310 | In-memory inodes read from a good disk make a good file system |
| `FsKernel.FileSystem.Balloc` | fs.c:55-78 | Returns the first free block, marks it and zeroes it, and changes nothing else but the map; panics exactly when the map is full |
| `FsKernel.FileSystem.Bfree` | fs.c:80-95 | Clears the bit of the block; panics exactly when it was clear |
| `FsKernel.FileSystem.Iupdate` | fs.c:220-236 | Makes the on-disk inode equal to the in-memory one and no other; ownership and files are kept |
| `FsKernel.FileSystem.Bmap` | fs.c:372-400 | Returns the block behind file block bn, allocating what is missing; no file's contents change; an existing block is found without any change; panics only out of range or with the disk full |
| `FsKernel.FileSystem.Itrunc` | fs.c:407-435 | Never reaches the panic of bfree; frees exactly the inode's blocks; its size and all its addresses are zero, on disk too; other files keep their contents |
| `FsKernel.FileSystem.Readi` | fs.c:452-476 | For a plain file returns the bytes from the offset to the smaller of its end and offset plus count, and their number, and changes nothing; fails with nothing read exactly if the offset lies behind the size or the sum overflows 32 bits; a device file goes to its driver, or fails without one |
| `FsKernel.FileSystem.Writei` | fs.c:481-511 | Splices the bytes into the file's byte sequence and returns their number; fails, changing nothing, exactly if the offset lies behind the size or the end behind MAXFILE blocks; panics only with the disk full; a device file goes to its driver, or fails without one; no holes below the size; on-disk inode equal to the in-memory one whether or not iupdate ran; other files unchanged |
| `FsKernel.FileSystem.WriteAndRead` | fs.c:452-511 | What readi returns after a writei of the same stretch is what was written; the file keeps its bytes before and behind the stretch and its length, or is just longer by what was written past its end |
| `FsKernel.FileSystem.WriteSize` | fs.c:506-509 | Both ends of writei leave every in-memory inode equal to its on-disk copy |
| `FsKernel.FileSystem.WriteBlocks` | fs.c:498-504 | The block loop of writei writes exactly the given bytes at the given offset |
| `FsKernel.WrittenFile` | fs.c:481-511 | A written file, with its size brought up, has no holes and the spliced contents |
| `FsKernel.TruncMarked` | fs.c:83-92 | Every block itrunc frees is marked when its turn comes |
| `FsKernel.TruncStep` | fs.c:414-432 | Freeing one slot keeps the ownership invariant with one block less in transit |
| `UMalloc.InsertOk` | umalloc.c:24-44 | Freeing a block keeps the free list address-ordered with no touching blocks and adds exactly its units |
| `UMalloc.InsertApart` | umalloc.c:24-44 | A block apart from the freed block and the free list stays apart from the merged list |
| `UMalloc.CarvedOk` | umalloc.c:75-84 | Carving from a free block keeps the list ordered and apart, less exactly the units given |
| `UMalloc.CarvedWithin` | umalloc.c:75-84 | What is left of the list lies within what was there and apart from the block given |
| `UMalloc.MallocKeeps` | umalloc.c:63-90 | malloc keeps live blocks disjoint from each other and from free blocks, and the total of units |
| `UMalloc.FreeKeeps` | umalloc.c:24-44 | free keeps the same invariant |
| `UMalloc.GrowKeeps` | umalloc.c:46-61 | Memory from sbrk enters the list and raises the total by exactly its units |
| `UMalloc.HeapSound` | umalloc.c:24-90 | At every point of every run of malloc and free: list ordered and coalesced, live blocks disjoint from all others, free plus live units equal those obtained from sbrk |
| `UMallocRuns.HeapPartition` | umalloc.c:24-90 | In every run, unit by unit: a unit is in a free or a live block if and only if sbrk has granted it, and never in both |
| `UMallocRuns.InsertCovers` | umalloc.c:24-44 | free puts back exactly the units of the block |
| `UMallocRuns.CarvedCovers` | umalloc.c:75-84 | malloc takes exactly the units it gives out of the list |
| `UMallocRuns.FreeUndoesMalloc` | umalloc.c:24-90 | Freeing the block that malloc has just given restores the very list there was |
| `UMalloc.FreeLinks` | umalloc.c:24-44 | The header assignments of free turn the linked cycle of the old list into that of the new one, in all four coalescing cases |
| `UMallocKernel.Allocator.FindBelow` | umalloc.c:30-32 | The walk of free terminates at the block below the freed one, or at the last block when there is the wrap |
| `UMallocKernel.Allocator.Unite` | umalloc.c:33-43 | Links and merges the block where it belongs and moves freep there; other headers are untouched |
| `UMallocKernel.Allocator.Free` | umalloc.c:24-44 | The live block goes back to the list, merged; everything else stays |
| `UMallocKernel.Allocator.Morecore` | umalloc.c:46-61 | Adds at least 4096 units from sbrk to the list, or changes nothing when sbrk fails |
| `UMallocKernel.Allocator.Take` | umalloc.c:75-84 | Takes the units from the tail of the block, or the whole block, and returns its address |
| `UMallocKernel.Allocator.Turn` | umalloc.c:74-87 | One trip around the list ends at the first block that fits after freep, or shows that none fits |
| `UMallocKernel.Allocator.Allocate` | umalloc.c:74-89 | First fit, else one morecore and then a fit; never a second morecore; fails only when the one morecore fails in sbrk |
| `UMallocKernel.Allocator.Malloc` | umalloc.c:63-90 | Returns a block of the rounded size, disjoint from all live ones, with at most one morecore; without one, it is the tail of the first block behind freep that fits, and freep is the block before that |
| `MlfqInv.EnqueueKeeps` | proc.c:1487-1501 | Pushing a process that has become RUNNABLE onto the queue of its level keeps the invariant |
| `MlfqInv.PromoteKeeps` | proc.c:1139-1148 | Aging one process up a level keeps the invariant |
| `MlfqInv.AgeAllKeeps` | proc.c:1131-1152 | The whole aging pass keeps the invariant |
| `MlfqInv.PickKeeps` | proc.c:1154-1181 | Choosing and dequeuing the next process keeps the invariant |
| `MlfqInv.TickKeeps` | trap.c:81-98 | A tick, with accounting, the wakeup of the sleepers on ticks and the quantum checks in this order, keeps the invariant |
| `MlfqInv.CheckKeeps` | trap.c:188-203 | The quantum check demotes an overdue process by one level and puts it on the queue below, keeping the invariant |
| `MlfqInv.WakeKeeps` | proc.c:1378-1403 | wakeup1 over the whole table keeps the invariant |
| `MlfqInv.KillKeeps` | proc.c:1416-1447 | kill keeps the invariant, also when it makes a sleeper RUNNABLE |
| `MlfqInv.StepKeeps` | proc.c:1114-1225 | Every enabled step of the scheduler machine keeps the invariant |
| `MlfqRuns.SchedulerSound` | proc.c:1114-1225 | At every point of every run: RUNNABLE exactly if in the queue of its level, once; queue indices in bounds; waits of processes not killed never rise from front to back; slice within the quantum; run time the sum of per-level ticks; run plus sleep time within the ticks since creation; waitx's wait not negative |
| `MlfqRuns.NeverIdlesOverWork` | proc.c:1154-1181 | The scheduler idles exactly when nothing is RUNNABLE; otherwise the front of the highest busy queue runs and nothing else changes |
| `MlfqRuns.AgeAllFrame` | proc.c:1131-1152 | One aging pass raises a RUNNABLE process by at most one level and touches nothing else of it but its wait |
| `MlfqRuns.LevelsMoveByOne` | proc.c:1191-1220 | From one step to the next a live process changes level by at most one |
| `MlfqTicks.AccountIs` | proc.c:808-840 | The accounting step adds exactly one to the account of the state a live process is in, and for a running one to its slice and the ticks of its level |
| `MlfqTicks.TickEffect` | trap.c:81-98 | One timer interrupt, process by process: each is charged; one that has spent its quantum goes one level down with a fresh slice; a sleeper on ticks becomes RUNNABLE; and queue by queue: the woken and then the demoted join the back in table order |
| `MlfqTicks.RunsWithinQuantum` | trap.c:188-203 | In every run, a process that runs on without being killed has been charged for every tick in slice, run time and at its level, and the ticks are at most what its quantum had left: none outlasts the quantum of its level |
| `MlfqTicks.DemotedOnTime` | trap.c:188-203 | In every run, the first tick after the quantum is used up takes the process off the CPU to the queue one level down, or back to the last queue, with a fresh slice |
| `MlfqTicks.StillRunning` | proc.c:808-840 | No event but a tick changes anything of a process that goes on running |
| `MlfqTicks.WakesExactly` | proc.c:1378-1403 | A wakeup changes exactly the sleepers on the channel, and appends exactly them, in table order, to the queues of their levels |
| `MlfqTicks.ChecksExactly` | trap.c:188-203 | The quantum checks of a tick demote exactly the late processes, and append exactly them, in table order, to the queues below |
| `MlfqTicks.KillEffect` | proc.c:1416-1447 | kill marks the first process with the pid, makes a sleeper RUNNABLE at the back of its queue, and changes nothing else; without such a process nothing |
| `MlfqTicks.StartsFresh` | proc.c:231-264 | In every state of the invariant a process that starts enters the back of queue 0, RUNNABLE, with wait, slice, run and sleep time and the ticks of all levels zero; nothing else changes |
| `MlfqTicks.SleepAndWake` | proc.c:1322-1403 | A process that sleeps and is woken keeps its level and all accounts but the slice, which starts anew |
| `MlfqTicks.ExitAndReap` | proc.c:524-662 | A process that exits and is reaped leaves its slot free, with no pid and not killed, and its end time recorded; nothing else changes |
| `MlfqRuns.AgeFromIs` | proc.c:1133-1150 | The in-place aging loop, which skips the process after each one it removes, computes exactly the kept and the raised ones |
| `MlfqRuns.KeptAndRaised` | proc.c:1133-1150 | The aging loop neither loses nor duplicates a process |
| `MlfqRuns.KeptInOrder` | proc.c:1133-1150 | Processes that stay keep their order |
| `MlfqRuns.AgedPrefix` | proc.c:808-840 | With nobody killed, whoever stands before an aged process is aged too |
| `MlfqRuns.AgingPass` | proc.c:1131-1152 | An aged process with only aged ones before it is raised by the pass if its place is even (the front included), and otherwise stays, at half the distance |
| `MlfqAging.RaisedWithin` | proc.c:1114-1225 | In every run: an aged process at place k of its queue, with nobody killed up to there, is running or raised a level by the time the scheduler has gone round n times, 2^n exceeding k + 1, and in any case within 7 rounds, whatever else happens |
| `MlfqAging.ScheduleStep` | proc.c:1131-1200 | One round of the scheduler, all aging passes and the choice, dispatches or raises such a process, or at least halves its place |
| `MlfqAging.StepGrows` | proc.c:1114-1225 | No event but the scheduler's takes a process off a queue or lowers the wait of a queued one |
| `MlfqQueue.Queue.PushBackProcess` | proc.c:1487-1501 | Appends unless the pid is found before the last used slot |
| `MlfqQueue.Queue.DeleteProcess` | proc.c:1503-1523 | Removes the process found by pid, closes the gap in order and answers 1; answers 0 exactly if there is none |
| `MlfqKernel.Kernel.constructor` | proc.c:40-41 | Separate empty queues and an unused table: the start from which all runs are considered |
| `MlfqKernel.Kernel.Age` | proc.c:1131-1152 | The nested aging loops on the arrays compute the aging pass of the model |
| `MlfqKernel.Kernel.FindBusy` | proc.c:1154-1163 | Finds the highest queue in use |
| `MlfqKernel.Kernel.Choose` | proc.c:1154-1181 | Takes the front of that queue off and sets it running |
| `MlfqKernel.Kernel.UpdateProcessStats` | proc.c:808-840 | One tick: every process neither killed nor of pid 0 gains exactly one in the account of its state, a running one in run time, slice and the ticks of its level, a sleeping one in sleep, a RUNNABLE one in wait; nothing else changes |
| `MlfqKernel.Kernel.Wakeup1` | proc.c:1378-1403 | Makes exactly the sleepers on the channel RUNNABLE with a fresh slice and appends them to the queues of their levels in table order; no other process or queue entry changes; the invariant is kept |
| `MlfqKernel.Kernel.CheckQuantum` | trap.c:188-203 | A running process past its quantum goes one level down, the last level staying, RUNNABLE at the back of that queue with slice and wait zero; any other process leaves the state alone |
| `MlfqKernel.Kernel.Kill` | proc.c:1416-1447 | Returns 0 exactly if some process has the pid; the first one is marked and, if it slept, RUNNABLE at the back of the queue of its level; nothing else changes; the invariant is kept |
| `Pbs.FirstScan` | proc.c:1031-1055 | Finds the smallest priority among the RUNNABLE and the largest chances at it, so that eligibility is exactly those two tests |
| `Pbs.SecondScan` | proc.c:1062-1097 | Returns the process nearest to start_idx, in cyclic order, among those with the given priority and chances |
| `Pbs.Choose` | proc.c:1006-1110 | Returns the first eligible process in cyclic order from start_idx, and none exactly when nothing is RUNNABLE |
| `Pbs.Ptable.ResetChances` | proc.c:175-204 | Touches nothing but counters of that priority; answers 0 if and only if all of them are the highest, and then all are 0; otherwise -1 |
| `Pbs.Ptable.SetPriority` | proc.c:731-805 | Each error code in exactly its case with the table unchanged; otherwise returns the old priority, and the first process with the pid has the new one and no chances; every other process keeps its priority, and all their pids and states; processes of other priorities are untouched |
| `Pbs.ChancesAlwaysZero` | proc.c:231-250 | pbs_chances is 0 for every process in every reachable state |
| `Pbs.PrioritiesInRange` | proc.c:1042-1047 | In every reachable state all priorities are at most 100, which is what the scans rely on |
| `Pbs.ChoiceUnique` | proc.c:1064-1097 | From a given start there is one choice: what the scans find is what a decision of the run takes |
| `Pbs.PreferredChosen` | proc.c:1006-1110 | A RUNNABLE process with a number below those of all other RUNNABLE ones is the one choice of every scan, wherever it starts |
| `Pbs.RaisedIsNext` | proc.c:731-805 | set_priority takes effect at once: a RUNNABLE process given a number below those of all others is the only one the next decision of any CPU can choose |
| `Pbs.RoundRobinByDefault` | proc.c:231-250 | In every run without set_priority all priorities are 60 and every RUNNABLE process is a best one |
| `Pbs.PassedOver` | proc.c:1064-1097 | Passing over a best process brings start_idx strictly closer to it |
| `Pbs.DistancePays` | proc.c:1064-1097 | The decisions of a CPU that pass over a best process are bounded by its distance from start_idx |
| `Pbs.ChosenWithinNproc` | proc.c:1006-1110 | A process that is RUNNABLE at the best priority at every decision of a CPU is chosen within NPROC of them |
| `ProcLife.ExitKeeps` | proc.c:524-593 | exit hands over the children, wakes those whose reason to sleep it removes, and keeps the invariant |
| `ProcLife.ExitZombies` | proc.c:556-573 | exit leaves nobody asleep over a child that became a zombie or was handed over |
| `ProcLife.ReapKeeps` | proc.c:626-645 | Reaping a zombie child keeps the invariant and frees its slot |
| `ProcLife.WaitKeeps` | proc.c:598-662 | One scan of wait, ending in a reap, an error or sleep, keeps the invariant |
| `ProcLife.ForkDoneKeeps` | proc.c:414-514 | fork's last step makes the child RUNNABLE and keeps the invariant |
| `ProcLife.StepKeeps` | proc.c:414-729 | Every enabled step of fork, exit, wait, kill, sleep and wakeup keeps the invariant |
| `ProcLife.WaitSound` | proc.c:414-729 | At every point of every run: nobody sleeps in wait over a zombie child or without children; every parent is neither UNUSED nor ZOMBIE; no child is reaped twice and no reaped pid is in use |
| `ProcLife.ForkEffect` | proc.c:414-514 | The steps of fork together fill the first free slot with a RUNNABLE child of the caller under a new pid, and change nothing else |
| `ProcLife.ChildReaped` | proc.c:524-662 | A child that exits is what the parent's next wait reaps and returns, if the parent has no other zombie to reap |
| `ProcLife.ProcTable.Wakeup1` | proc.c:1378-1403 | Makes exactly the sleepers on the channel RUNNABLE and changes nothing else |
| `ProcLife.ProcTable.ExitProcess` | proc.c:554-591 | The process is a zombie with its pid; its children belong to init, other parents stay; of the sleepers exactly those in wait wake that are its parent, or init if it takes over a zombie |
| `ProcLife.ProcTable.WaitScan` | proc.c:598-662 | With a zombie child, returns the pid of one and frees exactly its slot; without children or when killed, -1 and no change; otherwise the process sleeps on itself and nothing else changes |
| `ProcLife.ProcTable.KillProcess` | proc.c:1416-1447 | Fails, changing nothing, exactly if no process has the pid; otherwise the first one that has it is marked and, if it slept, RUNNABLE; nothing else changes |
| `VmTables.TableAdded` | vm.c:44-53 | A new zeroed page table, entered in the directory as present, writable and open to users, is one more owned frame and maps nothing more |
| `VmTables.PageMapped` | vm.c:71-73 | A frame of no one becomes a user page: owned frames grow by exactly it and stay distinct |
| `VmTables.PageUnmapped` | vm.c:269-276 | Clearing an entry gives up exactly that user page |
| `VmTables.EntrySet` | vm.c:69-73 | Writing a page table entry changes the mapping of one page only |
| `VmTables.AccessIs` | vm.c:35-55 | In every address space kept by these operations a page is mapped, readable for users and writable, by the processor's rule over both levels, exactly as its own page table entry says |
| `VmKernel.Memory.Freerange` | kalloc.c:46-53 | Adds exactly the frames of the range to the free list, without a panic |
| `VmKernel.Memory.Kalloc` | kalloc.c:82-95 | Pops the head of the free list; 0 exactly when it is empty |
| `VmKernel.Memory.Kfree` | kalloc.c:59-77 | Fills the page with junk and pushes it; panics exactly for a frame outside the managed range; a frame already on the list is not refused, and no list of distinct frames is left |
| `VmKernel.DoubleFree` | kalloc.c:59-77 | After a frame is freed twice, head starts no list of distinct frames |
| `VmKernel.Memory.WalkCreate` | vm.c:35-55 | Finds or makes the page table, whose directory entry never forbids what a page entry allows; mappings are unchanged and frames conserved; fails only with no frame free |
| `VmKernel.Memory.Mappages` | vm.c:60-80 | Maps, to consecutive frames, exactly the pages that meet the range up to the first that is mapped already (a remap) or finds no frame for its table; frames conserved, those for user pages coming from the caller |
| `VmKernel.Memory.Setupkvm` | vm.c:118-136 | A new directory maps the kernel exactly as kmap says; on failure the free set is restored; nothing outside the free frames is written |
| `VmKernel.KernelAccess` | vm.c:105-115 | In such a directory the pages mapped are those from KERNBASE on up to PHYSTOP, each to its physical page, and the device pages, to themselves; no user program can reach them; the kernel can write all of them but its text |
| `VmKernel.Memory.Allocuvm` | vm.c:221-249 | Adds zeroed pages on frames that were free for exactly the pages of the growth; or, out of memory, leaves no page from the old size on and the others as they were; panics only if a page of the growth was mapped; free plus owned frames conserved |
| `VmKernel.AddedUsable` | vm.c:240-241 | A user program can read and write every page that allocuvm has added |
| `VmKernel.Memory.Deallocuvm` | vm.c:255-279 | Removes exactly the present pages of the range, leaping over absent tables, without a panic; free plus owned frames conserved |
| `VmKernel.Memory.UnmapStep` | vm.c:265-277 | The leap over an absent page table skips no mapped page |
| `VmKernel.Memory.Freevm` | vm.c:283-298 | All frames of the address space, and no others, go back to the free list; no panic |
| `VmKernel.Memory.Copyuvm` | vm.c:315-345 | The child maps the same user pages with equal flags and contents on frames that were free, and the kernel; nothing else is written; on failure the free set is exactly restored; panics only if a parent page is absent |
| `VmKernel.CopyAccess` | vm.c:315-345 | Every page copied is mapped in parent and child with the same rights for reading and writing and with the same contents |
| `VmKernel.AllocUndone` | vm.c:235-246 | After a failed allocuvm the user pages and their contents are as before |
| `VmKernel.ParentKept` | vm.c:315-345 | Work on frames from the free list leaves an existing address space and its contents unchanged |
| `Pipe.CountersWrap` | pipe.c:16-17 | 32-bit counters at most PIPESIZE apart compare and index as if they did not wrap |
| `Pipe.Ring.Fill` | pipe.c:84-94 | Appends as many bytes as fit, at the wrapped counter, in order; moves what the protocol's Write step of a process with these bytes left moves |
| `Pipe.Ring.Drain` | pipe.c:113-117 | Takes the oldest bytes in order and leaves the rest; moves what the protocol's Read step moves |
| `Pipe.StepKeepsInv` | pipe.c:59-121 | Every step of readers, writers, closers and killers keeps the byte invariant |
| `Pipe.NoLostWakeupIff` | pipe.c:78-98 | A step leaves every sleeper justified if and only if it is not a killed writer returning from a full pipe it filled while readers sleep |
| `Pipe.BytesInOrder` | pipe.c:78-121 | In every run bytes read are a prefix of bytes written, with at most PIPESIZE between them |
| `Pipe.WriterKeepsPlace` | pipe.c:82-94 | In every run, at every point of a write call: the bytes its steps have put into the pipe, followed by those it has left, are the caller's bytes; a writer that slept resumes where it stopped |
| `Pipe.WriteReturns` | pipe.c:77-98 | A write call that returns n has put all its n bytes into the pipe, each once and in order; the only other answer is -1, after a proper part of them, for a killed process or without a reader |
| `Pipe.ReadReturns` | pipe.c:100-121 | A read call takes nothing until its last step, which takes the first bytes of the pipe, as many as it holds up to the number asked for, and returns their number; nothing only at the end of the file or if none were asked for; -1 only for a killed process with an empty pipe that still has a writer |
| `Pipe.NeverBothAsleep` | pipe.c:59-121 | Without that step, a sleeping reader means an empty open pipe, a sleeping writer a full one, and never both |
| `Pipe.WithoutKill` | pipe.c:59-121 | Runs without kill never lose a wakeup |
| `Pipe.KillLosesWakeup` | pipe.c:86-88 | A run in which a killed writer leaves a reader asleep over a full pipe |
| `ShellGrammar.LineHolds` | sh.c:348-451 | Every word token of a derivation is in its command tree exactly once, and nothing else is |
| `ShellTree.LineTree` | sh.c:348-364 | The tree of a derivation is the one that splitting its tokens gives: at the first semicolon outside parentheses, background marks from the right, then pipelines |
| `ShellTree.PipelineTree` | sh.c:366-377 | A pipeline is split at its first bar outside parentheses: left what is before it, right what is behind it |
| `ShellTree.CommandTree` | sh.c:379-451 | One command read from its right end: a redirection goes around what is before it, with mode and descriptor of its symbol (read only and 0; write, create and 1); a word is the last argument; a block is its line |
| `ShellTree.LineReads` | sh.c:348-451 | The words of the tree from left to right, file names where they stood, are the word tokens of the line as a sequence |
| `ShellParse.ParseIff` | sh.c:331-451 | The recursive descent accepts exactly the token sequences the grammar derives, and each by its only derivation |
| `ShellParse.LineSound` | sh.c:348-364 | What parseline returns derives exactly the tokens it consumed |
| `ShellParse.LineComplete` | sh.c:348-364 | parseline finds every derivation, up to a closing parenthesis or the end |
| `ShellParse.ItemsComplete` | sh.c:420-451 | Arguments and redirections are read in any order, up to nine arguments |
| `ShellLex.TokensSeparated` | sh.c:269-313 | Tokens do not overlap, and between two words there is at least one character |
| `ShellLex.TokensCover` | sh.c:269-313 | Every character that is not white space lies in a token |
| `ShellLex.TokenShape` | sh.c:280-303 | A word reaches as far as it can; two adjacent greater-than signs are one token; any other symbol is a token alone |
| `ShellLex.NoEndInside` | sh.c:453-498 | No terminator of a word falls inside a word |
| `ShellLex.ReadsBack` | sh.c:453-498 | With a zero behind every word, each word reads back as a C string exactly |
| `ShellKernel.Gettoken` | sh.c:269-313 | Returns the next token and its place, and moves past it and the white space |
| `ShellKernel.Peek` | sh.c:315-324 | Skips white space and tells whether the next token starts with one of the characters |
| `ShellKernel.Parseredirs` | sh.c:379-403 | Wraps the command in the redirections that follow, first innermost; fails exactly when one lacks a file |
| `ShellKernel.Parsesimple` | sh.c:430-450 | The in-place building of a simple command gives the command of its derivation |
| `ShellKernel.Parseblock` | sh.c:405-418 | A parenthesised line with its redirections, failing exactly outside the grammar |
| `ShellKernel.Parseexec` | sh.c:420-451 | Block or simple command, as the grammar says; the tree is the one read off the right end of the tokens used up |
| `ShellKernel.Parsepipe` | sh.c:366-377 | Fails exactly outside the grammar; the tree is that of the tokens used up, split at the first bar outside parentheses: the command before it on the left, the pipeline behind it on the right |
| `ShellKernel.Parseline` | sh.c:348-364 | Fails exactly outside the grammar; the tree is that of the tokens used up, split at the first semicolon outside parentheses, with one background node for every mark before it; terminates by consumed input |
| `ShellKernel.Nulterminate` | sh.c:454-498 | Writes a zero behind every word of the tree and changes no other character |
| `ShellKernel.Parsecmd` | sh.c:331-346 | Fails exactly on lines outside the grammar, leaving the buffer alone; else the tree is the line split at its operators, its words from left to right are the word tokens of the line in order, and each word reads back from the buffer |
| `Grep.Match` | grep.c:72-82 | True if and only if the pattern, anchored or not, matches somewhere in the text by the declarative semantics |
| `Grep.MatchHere` | grep.c:84-96 | True if and only if the pattern matches from this position; terminates on pattern and text |
| `Grep.MatchStar` | grep.c:98-106 | True if and only if some number of repetitions followed by the pattern matches from here |
| `Grep.MatchesStep` | grep.c:84-96 | A match splits into its first item and a match of the rest where that item ends, and conversely |
| `Grep.LiteralMeans` | grep.c:72-96 | A pattern without special characters matches exactly the texts it is a substring of; with a leading hat those it is a prefix of; with hat and dollar only itself |
| `Grep.StarMeans` | grep.c:98-106 | A starred character takes any number of that character, none included, and a starred dot anything |
| `Grep.DotMeans` | grep.c:93-94 | A dot takes exactly one character |

## Left out

- Locks, memory ordering and interrupts: a critical section is one atomic step; sleep locks on buffers and inodes are held throughout the operations modelled.
- LogPanics.NoPanicIff: an operation adds at most MAXOPBLOCKS blocks, which is what begin_op reserves for it; the file-system calls that would have to respect this are not modelled. Clean buffers are counted, not named: a bread of one that somebody holds already is no step.
- LogProtocol: the in-memory state is a value and each step a function; the code in place is LogKernel, for one thread.
- LogKernel.Log.EndOp: does not model the wakeup of waiting operations, which changes no state of the log.
- BufferCache: block data is a byte sequence of any length, and the disk is the synchronous one of memide.c; the interrupt-driven ide.c is not modelled.
- FsKernel.FileSystem.Readi: the driver of a device file is an outcome, not a call.
- FsKernel.FileSystem.Writei: the driver of a device file is an outcome; the log transaction around it is LogKernel's matter.
- FsKernel.EmptyGood: the disk before mkfs adds the root directory and the user programs; their creation is not modelled.
- FsKernel.FileSystem.constructor: reads all inodes at once, and so not ilock's panic on an inode of type 0.
- FsKernel: inode reference counts, ialloc, iput, directories and path names; the in-memory copy of every inode is kept, whether or not the inode cache holds it.
- Mlfq: sleep, exit, wait and allocproc are functions on the state; queues, aging, choice, accounting, wakeup, the quantum check and kill are also modelled in place. A tick and the quantum checks that follow it are one step.
- Pbs: the scans read a snapshot of the table; swtch between them and the update of start_idx is a step of the run.
- ProcLife: fork's copying of memory and files; exec; waitx, which reaps as wait does; a process is its state, parent, pid, channel and killed flag.
- Pipe.Ring.Fill: the byte loop only; sleeping, waking and the return values are in the protocol.
- Pipe.Ring.Drain: the byte loop only, as above.
- UMalloc: sizes are unbounded, so a request near 2^32 bytes does not wrap.
- VmKernel.Memory.Deallocuvm: the old size is at most KERNBASE, as in all callers.
- VmKernel: inituvm, loaduvm, clearpteu, uva2ka and copyout, which add easy members; loops run over page numbers instead of addresses.
- ShellKernel.Parsesimple: the command node is a value rebuilt with its new arguments, where the source writes through a pointer into it.
- ShellKernel: runcmd and the printing of error messages; malloc of nodes never fails.
- Grep: the reading of lines in grep().
- The RR and FCFS schedulers, exec, sysfile.c, console, device drivers, boot code and user programs.
