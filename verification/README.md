# xv6: verified models of the kernel's and user programs' core

Dafny models of the parts of xv6 that are hardest to get right, with proofs of what they are for: the crash-safe log
and the buffer cache under it, files and their blocks, directories and link counts, inodes in memory, page tables and
process memory, sleep and wakeup, exit and wait, pipes, the disk driver's queue, the user-level allocator, grep's
matcher and the shell's parser.  `dafny verify dfyconfig.toml` checks all of it.

Code that computes a value by recursion is a function.  Code that updates memory, disk or a buffer in place is a
method or a class, proved against a specification of the old and new state.  Code that runs concurrently is a state
machine whose steps are the pieces of code between two points where another process can get in; its theorems hold in
every state that any run reaches, for any number of processes, buffers, inodes and any interleaving.  Beside them
stand theorems on what each call does from beginning to end when nothing else runs.

| files | what they model |
|---|---|
| RedoLog, LogManager, LogRuns | the on-disk log as lists of block writes; log.c; operations, commits, crashes and recoveries interleaved |
| BufferCache, CacheRuns | bio.c's ring and reference counts; the cache in use by any number of threads |
| CachedLog, CachedCommit | log.c on top of bio.c: clients and a committing thread, step by step through the cache |
| FileBlocks, FileContents, Bitmap, FileLog, Files | block ownership, the bytes of a file, the free map, what a write logs; fs.c and file.c |
| Directory, Links, LinkFloors, LinkCalls | directory entries and paths; link counts, and what holds of them in removed directories; what each call does to names and counts |
| InodeTable, HeldInodes, InodeCalls | the table of inodes in memory; that referenced inodes are allocated; what each call does |
| PageTables, Paging, UserMemory, TableTeardown, ProcessMemory | page tables as pages of memory; kalloc.c; vm.c; whole lives of processes |
| SleepLock, SleepCalls, ExitWait, ExitWaitCalls | sleep locks over sleep and wakeup; fork, exit and wait; what each call does, whole |
| Remainders, Pipe, PipeRuns, PipeCalls | ring indices; the pipe's ring; readers and writers; what a whole read and write do |
| Virtqueue, VirtioDisk | descriptors, rings and chains; the disk driver with its device |
| FreeList, Malloc | the circular free list; malloc and free |
| Regex, Grep | the pattern matcher; grep's buffer |
| ShellGrammar, ShellLanguage, ShellParser, ShellPrint | the shell's parser as functions; its language as a grammar; the parser as it runs; printing and parsing back |
| Folding | a way to pass a fact along without its definition |

Where code and comments disagree the model follows the code: a comment in fs.c says that `ip->valid` is cleared when
the last reference goes; the code clears it when the table entry is reused.

## Model

| member | source | states |
|---|---|---|
| `RedoLog.CrashAtomicity` | xv6-OS/kernel/log.c:117-204 | a commit cut short after any number of block writes, with recovery itself cut short any number of times, leaves all home blocks as before or all as the group wrote them, decided by the header write alone |
| `RedoLog.RecoveryIsIdempotent` | xv6-OS/kernel/log.c:117-124 | however often and wherever recovery is interrupted, the home blocks come out the same |
| `RedoLog.RecoveredIsLogical` | xv6-OS/kernel/log.c:66-124 | a finished recovery installs exactly the logged contents and empties the log on disk |
| `RedoLog.CommitCompletes` | xv6-OS/kernel/log.c:194-204 | a finished commit puts the group's contents into the home blocks and leaves an empty log |
| `LogManager.Log.constructor` | xv6-OS/kernel/log.c:53-63 | from any well-formed disk, initlog ends with the invariant of the log, the recovered disk, and every crash point on the way recovering to the same home blocks |
| `LogManager.Log.WriteLog` | xv6-OS/kernel/log.c:179-192 | the writes are the log blocks in order, with the contents of the entries' blocks |
| `LogManager.Log.WriteHead` | xv6-OS/kernel/log.c:103-115 | one write, of the header with the current entries and otherwise unchanged words |
| `LogManager.Log.InstallTrans` | xv6-OS/kernel/log.c:66-84 | the writes are the logged blocks to their homes in order; pins are dropped exactly when not recovering |
| `LogManager.Log.ReadHead` | xv6-OS/kernel/log.c:87-98 | the entries in memory become those of the header on disk |
| `LogManager.Log.RecoverFromLog` | xv6-OS/kernel/log.c:117-124 | issues exactly the recovery's writes, and a crash at any of them recovers to the same home blocks |
| `LogManager.Log.Commit` | xv6-OS/kernel/log.c:194-204 | keeps the log's invariant, issues exactly the commit's writes, and every disk state on the way recovers to all home blocks before or all after the group |
| `LogManager.Log.LogWrite` | xv6-OS/kernel/log.c:215-236 | panics exactly on a full header or outside an operation; otherwise absorbs, pins a newly listed block, and keeps the invariant that exactly the listed blocks are pinned and only those or blocks yet to be logged differ from the disk |
| `LogManager.Log.BeginOp` | xv6-OS/kernel/log.c:127-143 | proceeds exactly when no commit runs and a full-sized operation still fits; keeps the invariant |
| `LogManager.Log.EndOp` | xv6-OS/kernel/log.c:147-176 | the last operation out commits the group, safely against a crash at any write; any other call only counts down, and leaves no commit under way |
| `LogRuns.CrashSafety` | xv6-OS/kernel/log.c:127-236 | in every interleaving of operations, commits, crashes and recoveries, the recovered disk is a prefix of the history of writes, in whole operations, and that prefix never shrinks |
| `LogRuns.CommitIsForGood` | xv6-OS/kernel/log.c:194-204 | once a commit is done, all that operations wrote before it is on disk, and stays part of what the disk holds through any later crashes and recoveries |
| `LogRuns.HistoryIsWrites` | xv6-OS/kernel/log.c:215-236 | between crashes the history is exactly what the operations wrote, in order |
| `LogRuns.RunInitlog` | xv6-OS/kernel/log.c:53-63 | initlog after a crash is the recovery step of the machine of operations and crashes |
| `LogRuns.RunBeginOp` | xv6-OS/kernel/log.c:127-143 | begin_op begins an operation of that machine exactly when it can |
| `LogRuns.RunPut` | xv6-OS/kernel/log.c:215-236 | a change and its log_write are a write of that machine, or the panic exactly on a full header |
| `LogRuns.RunEndOp` | xv6-OS/kernel/log.c:147-176 | end_op never panics, ends the operation, and commits if it was the last; the disk at each of its crash points is what a crash in the machine's commit leaves |
| `LogRuns.EndNeverPanics` | xv6-OS/kernel/log.c:147-158 | end_op's panic is unreachable |
| `LogRuns.LogSpace` | xv6-OS/kernel/log.c:127-143 | operations that stay below their budget never meet a full header; at the full budget only an absorbed write can |
| `LogRuns.FullBudgetPanics` | xv6-OS/kernel/log.c:215-236 | at the full budget a run exists in which rewriting a logged block stops the kernel |
| `BufferCache.Cache.constructor` | xv6-OS/kernel/bio.c:36-53 | the ring links all buffers, each once, and none is in use |
| `BufferCache.Cache.Bget` | xv6-OS/kernel/bio.c:58-89 | finds the block's buffer if there is one, else recycles the least recently released unused one; the panic exactly when neither exists |
| `BufferCache.Cache.Unref` | xv6-OS/kernel/bio.c:116-137 | one reference less; the last one moves the buffer to the front of the doubly linked ring and nothing else |
| `CacheRuns.CacheIsBlockMap` | xv6-OS/kernel/bio.c:58-151 | in every run no block is in two buffers, reference counts are exact, a buffer has one lock holder, and its holder reads what was last stored into the block |
| `CacheRuns.CleanDisk` | xv6-OS/kernel/bio.c:106-112 | with no changed buffer outstanding, the disk holds what was last stored into every block |
| `CacheRuns.NewestIsLastStored` | xv6-OS/kernel/bio.c:92-112 | the newest contents that a run carries along are those of the last store to each block |
| `CacheRuns.RunBget` | xv6-OS/kernel/bio.c:58-89 | the code of bget takes a step of the cache machine whenever one is possible, and panics only when none is |
| `CacheRuns.RunUnref` | xv6-OS/kernel/bio.c:123-136 | brelse's second half is a step of the machine and finds the reference that it gives up |
| `CacheRuns.RunBpin` | xv6-OS/kernel/bio.c:139-144 | bpin is a step of the machine |
| `CacheRuns.RunBunpin` | xv6-OS/kernel/bio.c:146-151 | bunpin is a step of the machine and finds a reference to drop |
| `CachedLog.RulesKept` | xv6-OS/kernel/log.c:66-236 | each cache call of log_write, write_log, write_head and install_trans, and of clients that log what they change, is one that the cache's rules allow |
| `CachedLog.StepKeepsRules` | xv6-OS/kernel/log.c:66-236 | in every interleaving: exactly the entries not yet installed are pinned once, and every buffer that differs from the disk is listed, about to be logged, or about to be written |
| `CachedCommit.LogKeepsRules` | xv6-OS/kernel/log.c:66-236 | every run of clients and committer over the cache is a run of the cache machine |
| `CachedCommit.CopiesNewest` | xv6-OS/kernel/log.c:179-192 | what write_log copies for an entry is what was last stored into that block, in every run |
| `CachedCommit.LastEndCommits` | xv6-OS/kernel/log.c:147-176 | the last end_op starts a commit of all logged blocks, as they are in the cache |
| `CachedCommit.CommitGoesOn` | xv6-OS/kernel/log.c:179-204 | each step of the committing thread brings the commit nearer to its end |
| `CachedCommit.CommitInstalls` | xv6-OS/kernel/log.c:194-204 | when the commit ends, every block of the group is on disk, the log is empty in memory and on disk, and nothing is pinned |
| `CachedCommit.CrashAnywhere` | xv6-OS/kernel/log.c:117-204 | the machine may stop in any state of any run: recovery, however interrupted, gives the home blocks before the commit under way or those in the cache when it began |
| `Bitmap.PutByteExact` | xv6-OS/kernel/fs.c:66-106 | setting or clearing one block's bit changes no other block's |
| `Files.FileSystem.constructor` | xv6-OS/mkfs/mkfs.c:93-114 | the disk that mkfs lays out is a valid file system of empty files with exactly the metadata marked |
| `Files.MarkUsed` | xv6-OS/mkfs/mkfs.c:236-250 | the bitmap marks the given number of leading blocks and no others |
| `Files.FileSystem.Balloc` | xv6-OS/kernel/fs.c:66-89 | the lowest free block, marked and zeroed; 0 exactly when every block is owned |
| `Files.FileSystem.Bfree` | xv6-OS/kernel/fs.c:92-106 | clears exactly that block's bit; the panic cannot happen for an owned block |
| `Files.FileSystem.Bmap` | xv6-OS/kernel/fs.c:405-444 | the block's address; only the file's own empty slots are filled, no content changes, 0 only on a full disk |
| `Files.FileSystem.Readi` | xv6-OS/kernel/fs.c:494-519 | the slice of the file's bytes, with 32-bit wrap of the end, and no change to the disk |
| `Files.FileSystem.Writei` | xv6-OS/kernel/fs.c:528-562 | refuses exactly gaps and overlong files; otherwise the bytes written are spliced into that file alone, short only on a full disk; every block that changes is logged, and a chunk logs at most MAXOPBLOCKS blocks, 7 with one bitmap block |
| `Files.FileSystem.FileWrite` | xv6-OS/kernel/file.c:134-179 | the chunks together write a prefix of the data; -1 only at a full disk or, after whole chunks, at the first that would start past the end or make the file too long; each transaction stays within the log's budget |
| `FileLog.ChunkFits` | xv6-OS/kernel/file.c:149-172 | a chunk's transaction hands at most MAXOPBLOCKS distinct blocks to the log |
| `Files.FileSystem.Itrunc` | xv6-OS/kernel/fs.c:448-476 | frees exactly the file's direct, indirect and indirect-table blocks, empties that file alone, and logs all that changes |
| `Directory.Dirlookup` | xv6-OS/kernel/fs.c:574-598 | the first entry in use of that name, compared as far as names are kept, or none |
| `Directory.Dirlink` | xv6-OS/kernel/fs.c:602-629 | a new name goes into the first unused slot, names stay unique, and it fails exactly when the name is taken or the directory is full and cannot grow |
| `Directory.Isdirempty` | xv6-OS/kernel/sysfile.c:173-186 | true exactly when no entry after the first two is in use |
| `Directory.Skipelem` | xv6-OS/kernel/fs.c:645-668 | the first element of the path, truncated, and a rest with exactly the other elements |
| `Links.LinkCounts` | xv6-OS/kernel/sysfile.c:123-302 | in every run that enters no name in a removed directory, nlink is the number of entries that name the inode, "." excepted, plus links under way; an empty directory has one link; names stay unique |
| `Links.CountsRight` | xv6-OS/kernel/sysfile.c:123-302 | all counts are right in all states of a run if and only if no step of it enters a name in a directory without links |
| `Links.NamedInUse` | xv6-OS/kernel/sysfile.c:188-243 | while counts are right, what a directory in use names has a link and is allocated |
| `Links.EmptyHasOneLink` | xv6-OS/kernel/sysfile.c:188-243 | a directory that may be removed is named by its entry in its parent alone |
| `Links.DeadLink` | xv6-OS/kernel/sysfile.c:123-170 | sys_link into a removed directory leaves the file's count too high |
| `Links.DeadCreate` | xv6-OS/kernel/sysfile.c:245-302 | create in a removed directory makes a file whose one link no entry accounts for |
| `Links.DeadMkdir` | xv6-OS/kernel/sysfile.c:245-302 | mkdir in a removed directory gives it a link again, and the count of what its ".." names is too low, even if that inode was reused |
| `Links.DeadDirectory` | xv6-OS/kernel/sysfile.c:123-302 | from a fresh file system, a run to each of the three calls, after which a count is wrong |
| `LinkFloors.NeverBelowZero` | xv6-OS/kernel/sysfile.c:123-302 | in every run, whatever is done in removed directories, no count is lower than its entries: sys_unlink's panic is unreachable, no count is decremented below zero, names stay unique, and what has no links is named nowhere |
| `LinkCalls.LookupIsMap` | xv6-OS/kernel/fs.c:574-598 | looking a name up is looking it up in the directory as a finite map |
| `LinkCalls.Unlinks` | xv6-OS/kernel/sysfile.c:188-243 | unlink takes the name out of that map, a link from what it named and, if that was a directory, from its own directory; nothing else changes |
| `LinkCalls.LinkRaises` | xv6-OS/kernel/sysfile.c:123-148 | the first half of link raises the file's count, and undoing it gives the state back |
| `LinkCalls.LinkEnters` | xv6-OS/kernel/sysfile.c:150-170 | the second half adds the name of that file to the map, and nothing else changes |
| `LinkCalls.Creates` | xv6-OS/kernel/sysfile.c:245-302 | create adds the name of a new empty file with one link |
| `LinkCalls.Mkdirs` | xv6-OS/kernel/sysfile.c:245-302 | mkdir adds the name of a new directory that maps "." to itself and ".." to its parent, and raises the parent's count |
| `LinkCalls.FailsCleanly` | xv6-OS/kernel/sysfile.c:295-302 | a create that fails leaves no name, and reclaiming its inode gives the state back |
| `LinkCalls.Reclaims` | xv6-OS/kernel/fs.c:337-363 | reclaiming an inode without links frees it and changes nothing else |
| `InodeTable.Table.Iget` | xv6-OS/kernel/fs.c:247-278 | the entry of that inode, else an unused one made invalid; no inode gets two entries; the panic exactly when all are in use |
| `InodeTable.TableAgreesWithDisk` | xv6-OS/kernel/fs.c:199-363 | in every run an unlocked valid entry equals the inode on disk, which is not free; reference counts are exact |
| `InodeTable.IputNeverBlocks` | xv6-OS/kernel/fs.c:337-363 | the sleep lock that iput takes under the spinlock is always free, and what it frees has no links on disk |
| `InodeCalls.RunIget` | xv6-OS/kernel/fs.c:247-278 | the code of iget takes a step of the machine whenever one is possible |
| `InodeCalls.IlockReads` | xv6-OS/kernel/fs.c:293-318 | ilock gives its caller the inode as on disk, and changes nothing else |
| `InodeCalls.IupdateWrites` | xv6-OS/kernel/fs.c:226-242 | a change, iupdate and iunlock put the new inode on disk, and change nothing else |
| `InodeCalls.IallocMarks` | xv6-OS/kernel/fs.c:199-220 | ialloc marks a free inode with its type, otherwise zero, and refers to it |
| `InodeCalls.IputDrops` | xv6-OS/kernel/fs.c:337-363 | iput of any other reference drops just that reference |
| `InodeCalls.IputFrees` | xv6-OS/kernel/fs.c:337-363 | the last iput of an inode without links ends with it truncated and free on disk and its entry unused, and changes nothing else |
| `HeldInodes.IlockFindsType` | xv6-OS/kernel/fs.c:293-318 | in every run whose igets are of numbers found in directories, a referenced inode is allocated on disk until its last iput frees it, so ilock's panic on a free inode is unreachable, while ialloc may reuse the number |
| `Paging.Memory.constructor` | xv6-OS/kernel/kalloc.c:26-40 | freerange makes every page free, each once, in memory of any contents |
| `Paging.Memory.Kalloc` | xv6-OS/kernel/kalloc.c:68-82 | a page that nobody else has, 0 exactly when none is free; pages in use keep their data |
| `Paging.Memory.Kfree` | xv6-OS/kernel/kalloc.c:46-63 | the page goes to the front of the free list and no table changes |
| `Paging.Memory.Walk` | xv6-OS/kernel/vm.c:97-115 | the leaf table for an address; tables are added only when asked and no mapping changes |
| `Paging.Memory.Uvmcreate` | xv6-OS/kernel/vm.c:178-187 | a new table that maps nothing |
| `UserMemory.PteRoundTrip` | xv6-OS/kernel/riscv.h:385-389 | a page address and flags go through an entry unharmed |
| `UserMemory.Mappages` | xv6-OS/kernel/vm.c:145-174 | the table as a map gains exactly the mapped pages; on failure exactly those before the failing one |
| `UserMemory.Uvmunmap` | xv6-OS/kernel/vm.c:192-212 | the table as a map loses exactly the addresses of the range; other pages keep their data |
| `UserMemory.Uvmalloc` | xv6-OS/kernel/vm.c:216-240 | each new page is mapped to a page of its own that reads zero, or every mapping is as before and no page is lost; it does not fail while three pages are free for each page to map |
| `UserMemory.Uvmdealloc` | xv6-OS/kernel/vm.c:246-258 | exactly the whole pages above the new size go |
| `UserMemory.Uvmcopy` | xv6-OS/kernel/vm.c:296-324 | equal contents and flags in pages of their own, or every mapping as before and no page lost; it does not fail while three pages are free for each page to copy |
| `UserMemory.Vmfault` | xv6-OS/kernel/vm.c:452-473 | a zeroed page at the faulting address; nothing outside the process, on a mapped page, or with fewer than three free pages |
| `TableTeardown.FreeWalk` | xv6-OS/kernel/vm.c:262-278 | frees exactly the table pages under a slot |
| `TableTeardown.Uvmfree` | xv6-OS/kernel/vm.c:282-288 | the table and all its pages go, and no other table changes |
| `TableTeardown.ProcPagetable` | xv6-OS/kernel/proc.c:176-206 | a table of the trampoline and trapframe, or no change; it does not fail with five pages free |
| `TableTeardown.ProcFreepagetable` | xv6-OS/kernel/proc.c:210-216 | the whole address space goes, and no other table changes |
| `TableTeardown.NoPageLost` | xv6-OS/kernel/kalloc.c:46-82 | with no table left and no page in use, every page is free |
| `ProcessMemory.Processes.AllocProc` | xv6-OS/kernel/proc.c:109-150 | a trapframe and a table, or nothing; it does not fail with six pages free |
| `ProcessMemory.Processes.FreeProc` | xv6-OS/kernel/proc.c:155-172 | exactly the process's table and trapframe go |
| `ProcessMemory.Processes.Fork` | xv6-OS/kernel/proc.c:256-303 | a child of the same size whose pages have the parent's flags and contents, in pages that were free, with the parent's memory unchanged; or everything as before, and then memory was short |
| `ProcessMemory.Processes.Sbrk` | xv6-OS/kernel/sysproc.c:39-63 | the old size, with the size moved by n: shrinking unmaps exactly the whole pages above the new size, growing maps exactly the new pages, zeroed, or none if lazy; -1 only if memory was short, with nothing changed |
| `ProcessMemory.Processes.PageFault` | xv6-OS/kernel/vm.c:452-473 | a zeroed page at an address of the process that is not mapped, and no other mapping changed |
| `ProcessMemory.Lifetimes` | xv6-OS/kernel/proc.c:109-303 | any processes started, forked, grown, shrunk, faulting and exiting in any order, with memory running out anywhere: when they are gone, so is every table and page of theirs |
| `ProcessMemory.FromBoot` | xv6-OS/kernel/kalloc.c:26-40 | from kinit through any such history, all pages are free in the end |
| `SleepLock.NoLostWakeup` | xv6-OS/kernel/sleeplock.c:21-52 | in every run nobody sleeps on a free lock, at most one process has it, and holdingsleep is exact |
| `SleepLock.SchedNeverPanics` | xv6-OS/kernel/proc.c:469-487 | sched is entered with p->lock alone held and the state changed |
| `SleepCalls.AcquireFree` | xv6-OS/kernel/sleeplock.c:21-31 | alone, with the lock free, acquiresleep ends with the caller holding it and nothing else changed |
| `SleepCalls.AcquireTaken` | xv6-OS/kernel/sleeplock.c:21-31 | alone, with the lock taken, the caller sleeps on it with no lock held |
| `SleepCalls.WokenTakes` | xv6-OS/kernel/proc.c:539-566 | a sleeper that was woken takes the lock if it is free |
| `SleepCalls.ReleaseAlone` | xv6-OS/kernel/sleeplock.c:33-41 | alone, releasesleep frees the lock and makes exactly those asleep on it runnable |
| `ExitWait.ExitWaitSafety` | xv6-OS/kernel/proc.c:256-412 | in every run each process but init has a live parent, and no parent sleeps in wait with a zombie child |
| `ExitWait.ReapedOnce` | xv6-OS/kernel/proc.c:367-412 | wait returns each exited process once, with the status it left, after it is off its processor |
| `ExitWait.NoChildren` | xv6-OS/kernel/proc.c:404-407 | wait gives up for want of children only when there is none |
| `ExitWaitCalls.WaitDecides` | xv6-OS/kernel/proc.c:404-411 | in every run, at the end of its scan kwait gives up exactly if it was killed or no process has it as parent, and otherwise sleeps |
| `ExitWaitCalls.WaitReaps` | xv6-OS/kernel/proc.c:379-400 | in every run, a zombie found is returned with the status it left, for the first time, and its slot is free; if the copy fails it stays |
| `ExitWaitCalls.ForkAlone` | xv6-OS/kernel/proc.c:256-303 | alone, kfork makes a runnable child with a new pid and the caller as parent, and nothing else changes |
| `ExitWaitCalls.ForkFails` | xv6-OS/kernel/proc.c:256-270 | a kfork whose copy fails leaves the table as it was |
| `ExitWaitCalls.WaitAlone` | xv6-OS/kernel/proc.c:367-412 | alone, kwait reaps the first zombie child, changes nothing without children, and otherwise ends asleep |
| `ExitWaitCalls.WokenLooksAgain` | xv6-OS/kernel/proc.c:409-411 | a waiter that was woken does what a new call of kwait does |
| `ExitWaitCalls.ExitAlone` | xv6-OS/kernel/proc.c:307-363 | alone, kexit ends with a zombie with its status, its children init's, init awake if there were any, its parent awake, and nothing else changed |
| `Pipe.PipeBuffer.Store` | xv6-OS/kernel/pipe.c:83-98 | bytes are appended until the ring is full, with counters that wrap around |
| `Pipe.PipeBuffer.Fetch` | xv6-OS/kernel/pipe.c:119-126 | the oldest bytes come out in order; a failed copy loses one byte |
| `Pipe.PipeBuffer.Close` | xv6-OS/kernel/pipe.c:58-74 | one end is closed, the bytes stay, and the pipe is freed exactly when both are |
| `PipeRuns.PipeIsFifo` | xv6-OS/kernel/pipe.c:76-130 | in every run what was fetched and what is in the ring are what was stored, in order; a writer sleeps only on a full pipe |
| `PipeRuns.ReaderSleeps` | xv6-OS/kernel/pipe.c:76-130 | readers never sleep on a pipe with data if and only if no killed writer leaves data behind a sleeping reader |
| `PipeRuns.StrandsStrands` | xv6-OS/kernel/pipe.c:83-87 | such a writer always leaves a reader asleep on data |
| `PipeRuns.StrandingRun` | xv6-OS/kernel/pipe.c:83-87 | a run in which that happens |
| `PipeCalls.WriteAlone` | xv6-OS/kernel/pipe.c:76-103 | alone, pipewrite appends all its bytes or as many as there is room for, wakes the readers, and returns or sleeps with the rest |
| `PipeCalls.WriteRefused` | xv6-OS/kernel/pipe.c:83-87 | with the read end closed or the writer killed, nothing is stored |
| `PipeCalls.ReadAlone` | xv6-OS/kernel/pipe.c:105-130 | alone, piperead takes the oldest bytes, as many as asked for or all there are, and wakes the writers |
| `PipeCalls.ReadWaits` | xv6-OS/kernel/pipe.c:111-117 | on an empty pipe with an open write end a reader sleeps, or returns if killed |
| `VirtioDisk.Disk.constructor` | xv6-OS/kernel/virtio_disk.c:62-152 | all descriptors free and no request under way |
| `VirtioDisk.Disk.Alloc3Desc` | xv6-OS/kernel/virtio_disk.c:155-213 | three distinct free descriptors, or none taken, exactly by whether three are free |
| `VirtioDisk.Disk.Rw` | xv6-OS/kernel/virtio_disk.c:215-281 | a chain that the device will read as exactly this request, at the end of the offers |
| `VirtioDisk.Disk.Finish` | xv6-OS/kernel/virtio_disk.c:284-292 | exactly the request's three descriptors become free |
| `VirtioDisk.Disk.FreeChain` | xv6-OS/kernel/virtio_disk.c:169-197 | following the chain frees its three descriptors and no other |
| `VirtioDisk.Disk.SeeNext` | xv6-OS/kernel/virtio_disk.c:308-324 | one turn of the interrupt's loop processes the next completion if there is one, across the wrap of 16-bit indices; when it ends, no chain is left that was completed and not seen |
| `VirtioDisk.Disk.Interrupt` | xv6-OS/kernel/virtio_disk.c:294-327 | with a device that is quiet meanwhile, each completion is processed once and in order |
| `VirtioDisk.Disk.DeviceTakes` | xv6-OS/kernel/virtio.h:48-81 | the device finds, for each offer in order, the request that was made |
| `VirtioDisk.Disk.Run` | xv6-OS/kernel/virtio_disk.c:155-327 | any sequence of driver and device steps, the device acting between any two turns of the interrupt's loop, keeps every descriptor free or in one chain, and offers and completions in order |
| `VirtioDisk.ExactChains` | xv6-OS/kernel/virtio_disk.c:155-213 | the descriptors in use are exactly disjoint chains of three |
| `Malloc.Heap.constructor` | xv6-OS/user/umalloc.c:20-21 | no block is allocated and the list is not started |
| `Malloc.Heap.Free` | xv6-OS/user/umalloc.c:24-44 | the block joins the sorted list, merged with both neighbours; other blocks keep their units |
| `Malloc.Heap.Malloc` | xv6-OS/user/umalloc.c:63-90 | a block of the size asked for that shares no unit with another; 0 only when no free block was large enough and sbrk refuses; memory grows only when none was; other blocks are unchanged |
| `Malloc.Heap.Search` | xv6-OS/user/umalloc.c:73-89 | 0 only if no block on the whole list was large enough; the loop ends |
| `Malloc.Heap.Morecore` | xv6-OS/user/umalloc.c:46-61 | the new region is free and large enough, and nothing allocated changes |
| `Regex.MatchHere` | xv6-OS/user/grep.c:95-107 | true exactly when the pattern's meaning holds of some prefix of the text |
| `Regex.MatchStar` | xv6-OS/user/grep.c:110-120 | true exactly when some number of repetitions lets the rest match |
| `Regex.Match` | xv6-OS/user/grep.c:80-92 | true exactly when the pattern matches somewhere, or at the start after '^' |
| `Grep.Grep` | xv6-OS/user/grep.c:11-39 | for any input, and however reads are chunked, the matching lines up to the first that cannot be read |
| `Grep.PrintsAll` | xv6-OS/user/grep.c:11-39 | all matching lines are printed if and only if none follows from the first that is unfinished, too long or has a NUL |
| `Grep.ReadablePrintsAll` | xv6-OS/user/grep.c:11-39 | if every complete line fits the buffer and has no NUL, every matching line is printed |
| `Grep.NulHides` | xv6-OS/user/grep.c:11-39 | an input of two matching lines of which none is printed |
| `ShellLanguage.TokensCut` | xv6-OS/user/sh.c:287-332 | the tokens of a line are whole words and symbols, in order, with nothing but white space between them |
| `ShellLanguage.ParsesLanguage` | xv6-OS/user/sh.c:351-477 | parsecmd returns a command for a line if and only if the grammar derives that command from its tokens |
| `ShellLanguage.Unambiguous` | xv6-OS/user/sh.c:351-477 | no line stands for two commands |
| `ShellLanguage.LineSound` | xv6-OS/user/sh.c:369-386 | what parseline reads is a line of the grammar |
| `ShellLanguage.LineComplete` | xv6-OS/user/sh.c:369-386 | a line of the grammar, before ')' or the end, is what parseline reads |
| `ShellLanguage.PipeSound` | xv6-OS/user/sh.c:388-400 | what parsepipe reads is a pipeline |
| `ShellLanguage.PipeComplete` | xv6-OS/user/sh.c:388-400 | a pipeline, before what may follow one, is what parsepipe reads |
| `ShellLanguage.ExecSound` | xv6-OS/user/sh.c:445-477 | what parseexec reads is a block or a simple command |
| `ShellLanguage.ExecComplete` | xv6-OS/user/sh.c:445-477 | a block or simple command, before what may follow one, is what parseexec reads |
| `ShellLanguage.BlockSound` | xv6-OS/user/sh.c:429-443 | what parseblock reads is a block |
| `ShellLanguage.RedirsSound` | xv6-OS/user/sh.c:402-427 | parseredirs takes a run of redirections |
| `ShellLanguage.RedirsComplete` | xv6-OS/user/sh.c:402-427 | it takes all of them, and in order |
| `ShellParser.Gettoken` | xv6-OS/user/sh.c:287-332 | the loops give the token function, whose tokens `TokensCut` describes |
| `ShellParser.Parseredirs` | xv6-OS/user/sh.c:402-427 | the loop gives the redirections that `RedirsSound` and `RedirsComplete` describe |
| `ShellParser.Parseexec` | xv6-OS/user/sh.c:445-477 | the loop gives the command that `ExecSound` and `ExecComplete` describe, or the error |
| `ShellParser.Parseblock` | xv6-OS/user/sh.c:429-443 | the block that `BlockSound` describes, or the error |
| `ShellParser.Parsepipe` | xv6-OS/user/sh.c:388-400 | the pipeline that `PipeSound` and `PipeComplete` describe, or the error |
| `ShellParser.Parseline` | xv6-OS/user/sh.c:369-386 | the loop gives the line that `LineSound` and `LineComplete` describe, or the error |
| `ShellParser.Nulterminate` | xv6-OS/user/sh.c:480-525 | a NUL at the end of every word and no other change |
| `ShellParser.Parsecmd` | xv6-OS/user/sh.c:351-367 | the command that the grammar derives from the line, or an error if it derives none; every word ends in place, and no word is written into |
| `ShellPrint.RoundTrip` | xv6-OS/user/sh.c:351-477 | every command with legal words, once printed, parses back to itself |

## Findings

Three promises do not hold of the code in every case; each has a run or input in which it fails and the exact
condition.

- A writer that is killed while a reader sleeps leaves without waking it, so the reader can sleep on a pipe that has
  data: `PipeRuns.StrandingRun` is such a run.  Readers are never left so if and only if no writer takes that exit
  (`PipeRuns.ReaderSleeps`).
- An operation that uses its whole budget of MAXOPBLOCKS blocks can be stopped by log_write's panic when it rewrites a
  block already listed: `LogRuns.FullBudgetPanics`.  One block less and the panic is unreachable (`LogRuns.LogSpace`).
- sys_link, create and mkdir do not look at the links of the directory they enter a name in.  If it was removed, while
  a path through it was followed or as someone's current directory, a count is wrong afterwards:
  `Links.DeadDirectory` has a run to each of the three.  Counts are right in all states of a run if and only if no
  step of it does this (`Links.CountsRight`), and even then none goes below zero (`LinkFloors.NeverBelowZero`).

grep also stops without a word at the first line that has a NUL or does not fit its buffer (`Grep.NulHides`);
`Grep.PrintsAll` says exactly when that matters.

## Left out

- VirtioDisk.Disk.Interrupt: as one call, with respect to a quiet device; `VirtioDisk.Disk.Run` has its turns interleaved with the device.
- VirtioDisk.Disk.Rw: the sleep for free descriptors and for completion is the caller's retry; the contents of the blocks transferred are not modelled.
- Links.LinkCounts: sys_unlink and create are one step each, as their directory and inode locks make them; sys_link is two, since it gives up its locks in between.
- Directory.Dirlink: whether writei fails to grow the directory is a parameter.
- Paging.Memory.Kalloc: the free list is a sequence, not pages linked through their first words.
- Paging.Memory.Kfree: the free list is a sequence, not pages linked through their first words.
- Files.FileSystem.Readi: the copy to user memory does not fail partway.
- Files.FileSystem.Writei: the copy from user memory does not fail partway.
- Files.FileSystem.FileWrite: the copy from user memory does not fail partway, and no other writer of the file comes between two chunks.
- HeldInodes.IlockFindsType: that a number found in a directory has a link is taken from the model of directories, not proved in one machine with the table.
- UserMemory.Uvmunmap: user pages are freed below the trapframe and the kernel's two pages are unmapped without freeing, the two ways in which it is called.
- UserMemory.Mappages: on pages that are not mapped yet, since the code stops the kernel on a page that is.
- UserMemory.Uvmalloc: sizes up to the trapframe, which the code does not check.
- ProcessMemory.Processes.Sbrk: sizes up to the trapframe, which the code does not check.
- ProcessMemory.Processes.Fork: the address space; open files, names and registers of the child are not modelled.
- ExitWait.ExitWaitSafety: a visit of wakeup to one process, under that process's lock, is one step; closing files on exit is not modelled.
- PipeRuns.PipeIsFifo: the copy of a byte to or from user memory either succeeds or fails.
- SleepLock.NoLostWakeup: interrupts are a process stopping and going on anywhere; timers are not modelled.
- CachedLog.StepKeepsRules: clients log what they change before they release it and before end_op, as log.c asks of them.
- Malloc.Heap.Malloc: sizes for which the argument of sbrk fits an int; sbrk returns memory above all that it returned before.
- ShellPrint.RoundTrip: words of the letters the tokenizer keeps together and at most as many arguments as it allows.
- InodeTable.TableAgreesWithDisk: one device.
- Reference counts, link counts and process identifiers do not overflow.
- That every sleeper is scheduled again, and any other progress that depends on the scheduler.
- exec and the ELF loader, copyin and copyout, traps, system call arguments, the console, the file descriptor table and open: they would add members that follow their code line by line.
- Spinlocks, memory ordering and the switch between stacks are taken as given.
