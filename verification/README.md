# Verified core of xv6

A Dafny model of the parts of xv6 (x86) whose correctness is hard to see: the redo log and crash
recovery, the block allocator and file contents, link counts and directories, the buffer cache,
page tables and page ownership, the process table with its scheduler, sleep and wakeup, pipes, the
user-level memory allocator, the shell's parser and the matcher of grep.  `dafny verify
dfyconfig.toml` checks the whole project.

Each area has a part that follows the code (a class or methods with the same loops, branches and
error returns, a panic being a result value) and a part that says what the code achieves.  Where the
kernel is concurrent, a module `...Machine` gives the atomic steps, every run is an arbitrary
sequence of enabled steps of any number of participants, and the theorems are about all runs.

| area | source | modules |
|---|---|---|
| redo log | log.c | LogDisk, LogCode (the code, with the disk after every block write), LogMachine, LogRefinement, LogReservation, LogHistory |
| files | fs.c | FsLayout, FsIndex, FsFile |
| directories and links | fs.c, sysfile.c | LinkCount, LinkDirs, LinkDead, Links, LinkPaths, LinkRuns |
| buffer cache | bio.c | BufRing, BufCache, BufMachine, BufRuns |
| memory | vm.c, kalloc.c | VmTables, VmSpace, VmGrow, VmCopy, VmCount and VmNeed (how many pages an operation takes), Vm |
| processes | proc.c | ProcTable, ProcMachine, ProcInvariant, ProcSteps, ProcTree, ProcWait, ProcSchedule, ProcLife, ProcCalls, ProcProgress |
| sleep and wakeup | proc.c, sleeplock.c, log.c, pipe.c, sleep1.p | SleepWakeup, SleepProgress, SleepClients, SleepGate, SleepModel |
| pipes | pipe.c | PipeRing, PipeMachine, PipeCalls, PipeProgress, Pipe |
| malloc | umalloc.c | HeapList, Heap |
| shell | sh.c | ShLex, ShTokens, ShParse, ShTree, ShGrammar, ShAccept, ShCover, ShPrint, ShNul |
| grep | grep.c | Grep |

Common holds what several of them share.

The disk is a sequence of blocks whose single-block writes are atomic.  A spinlock is an ownership
step.  What sbrk answers, whether a process has been killed, whether two paths lie on the same device and which
step comes next are parameters.

## Where the code falls short of what one expects

- log_write panics on a new block of an operation that is within its budget if and only if
  `log.size <= LOGSIZE`, and mkfs makes them equal; on a rewrite of a block that is already logged it
  panics exactly when the log is full (LogReservation).
- malloc returns a block that is too small exactly for requests above 2^32 - 8 bytes.  It asks sbrk for
  other than it then uses exactly for 2^31 - 16 < nbytes <= 2^32 - 8: for the last eight of these sizes sbrk
  is asked for 0 bytes, for the others for a negative amount (Heap.UnitsSuffice, Heap.SbrkAsksForThem).
- A failed allocuvm gives back every page, but keeps page tables that it has made; they are empty and
  belong to the footprint that freevm returns (VmGrow.GiveUp, Vm.KeepsTable).  Where pages were mapped above
  the old size it unmaps them too (VmGrow.FailureRestores).
- create and sys_link do not look whether the parent directory still has a link: in a removed directory
  that is still held, say as a current directory, every new name breaks the link-count law, and only
  there (LinkDead.CreateLaw, LinkDead.LinkLaw, LinkRuns.CwdRemoved).
- A relative path through the `..` of a removed directory can reach a freed inode, on which ilock panics;
  absolute paths never do (LinkPaths.WalkPanics, LinkPaths.AbsolutePaths, LinkRuns.ParentRemoved).
- A process killed between its test of `killed` and its sleep sleeps on (SleepWakeup.KillMissed,
  SleepClients.PipeKillMissedRun).
- kill(0) succeeds on a free slot, whose pid is 0, and nothing but wait clears the mark: the next process made
  there starts out killed, and exactly such ones do (ProcLife.BornKilledExactly, ProcLife.BornKilled).
- The Promela model of sleep and wakeup stops with a consumer asleep for some run exactly if N * ITER is
  256 or more, because its counter is a byte; the file has 8 (SleepModel.StopsFinishedExactly).
- README.md of the repository describes a multi-level feedback queue; proc.c is round robin, and
  that is what is modelled.

## Model
| member | source | states |
|---|---|---|
| LogDisk.HeaderRoundTrip | xv6-public/log.c:86-113 | read_head reads back exactly the list that write_head wrote, whatever stale words the header block held |
| LogDisk.CleanRecovers | xv6-public/log.c:116-122 | with an empty header on disk, recovery leaves every home block as it is |
| LogDisk.SlotWriteInvisible | xv6-public/log.c:178-190 | filling a log slot while the header is empty changes no home block and nothing that recovery would produce |
| LogDisk.HeaderWriteCommits | xv6-public/log.c:97-113 | the header write is the commit point: recovery jumps from the old home blocks to the home blocks overlaid with all logged ones |
| LogDisk.InstallInvisible | xv6-public/log.c:70-82 | copying one listed slot home does not change what recovery produces, so a crash between any two copies is harmless |
| LogDisk.ClearInvisible | xv6-public/log.c:116-122 | clearing the header once everything is installed does not change what recovery produces |
| LogCode.Log.Boot | xv6-public/log.c:54-66 | boot on a disk left at any point ends with exactly the recovered home blocks, and every disk state on the way recovers to the same blocks, so recovery may crash and restart any number of times |
| LogCode.Log.ReadHead | xv6-public/log.c:86-96 | the in-memory list becomes the list of the on-disk header |
| LogCode.Log.WriteHead | xv6-public/log.c:102-113 | one block write that stores exactly the in-memory list |
| LogCode.Log.InstallTrans | xv6-public/log.c:70-82 | all listed blocks are home afterwards, and after every single write the disk still recovers to the same blocks |
| LogCode.Log.RecoverFromLog | xv6-public/log.c:116-122 | home blocks equal the recovered ones, the log is empty, and every write on the way keeps that result |
| LogCode.Log.InstallAndClear | xv6-public/log.c:198-200 | the common end of commit and recovery: everything is home and the log empty, and every write on the way keeps what recovery produces |
| LogCode.Log.WriteLog | xv6-public/log.c:178-190 | every slot holds its cached block, the home blocks are untouched, and every disk state on the way recovers to the old blocks |
| LogCode.Log.Commit | xv6-public/log.c:193-202 | crash atomicity: along the block writes the disk recovers first to all old and then to all new home blocks, never to a mix; at the end the home blocks are the cached view |
| LogRefinement.BeginStep | xv6-public/log.c:126-141 | an operation that begin_op lets start keeps every reservation: the logged blocks and MAXOPBLOCKS for each active operation still fit, so the invariant of the machine holds |
| LogCode.Log.EndOp | xv6-public/log.c:146-174 | the last operation makes the whole view durable, atomically under crashes; an earlier one touches neither disk nor log; the panic is exactly `committing` |
| LogCode.Log.LogWrite | xv6-public/log.c:214-233 | both panics exactly as guarded; otherwise the view changes in that block only, and the block is logged once (absorption) |
| LogRefinement.StepInv | xv6-public/log.c:125-233 | every step of every operation, of commit, of a crash and of recovery keeps the invariant that the disk recovers to the writes of the covered operations |
| LogRefinement.Refinement | xv6-public/log.c:125-233 | over every interleaving and any crashes, a boot finds exactly the writes of a set of finished operations, replayed in issue order |
| LogRefinement.ReadsSeeEverything | xv6-public/log.c:125-233 | the running system reads the durable blocks overlaid with all writes of the open transaction |
| LogRefinement.NothingLost | xv6-public/log.c:193-202 | operations covered by a commit stay covered through every later step and crash |
| LogRefinement.QuietIsDurable | xv6-public/log.c:146-174 | whenever no operation is outstanding and no commit runs, every operation that was not lost in a crash is covered by a commit |
| LogRefinement.CommitUndisturbed | xv6-public/log.c:146-202 | while a commit runs it can always go on, no operation can begin, end or write, so the logged list is frozen and the panic at line 153 is unreachable |
| LogReservation.NewBlockFits | xv6-public/log.c:132-232 | in a log region with LOGSIZE data slots the guard of log_write never stops an operation that is within its budget |
| LogReservation.GuardMeansFull | xv6-public/log.c:218-219 | in such a region the guard fires exactly when the log is full, and then every active operation has used up its budget |
| LogReservation.WriteAccepted | xv6-public/log.c:214-233 | a further block is never refused before the operation has logged MAXOPBLOCKS; a block that is already logged is absorbed without room, and refused exactly once the log is full |
| LogReservation.SlotsInside | xv6-public/log.c:74-82 | every slot that write_log and install_trans touch lies inside the log region and every listed block outside it |
| LogReservation.PanicIffSmallRegion | xv6-public/log.c:132-219 | some run panics on a new block of an operation within its budget if and only if log.size <= LOGSIZE, which is what mkfs lays out |
| LogReservation.FullLogStopsRewrite | xv6-public/log.c:218-231 | a run from boot in which log_write panics although the block is in the log already and needs no space |
| LogHistory.HistoryLaw | xv6-public/log.c:125-233 | in every run the operations are the begin_ops in order, the writes are the log_writes in order, an operation is active exactly while it has neither ended nor met a crash, and what a commit covers has ended |
| LogHistory.MayEnd | xv6-public/log.c:146-174 | in every run an operation under way can end, and no commit runs meanwhile |
| LogHistory.ReadsAllWrites | xv6-public/log.c:125-233 | in every run without a crash the running system reads the home blocks of boot with every log_write so far replayed in order |
| LogHistory.BackToRunning | xv6-public/log.c:116-202 | from every reachable state, also just after a crash, at most 2 * LOGSIZE + 4 steps of the commit or of recovery, of at most one block write each, lead back to a running system |
| FsLayout.OneBit | xv6-public/fs.c:57-95 | setting or clearing the bit of one block leaves the bit of every other block alone, across bytes and bitmap blocks |
| FsLayout.OneUsed | xv6-public/fs.c:57-95 | as sets: marking adds exactly the block, clearing removes exactly the block |
| FsLayout.NoneFree | xv6-public/fs.c:57-78 | the number of free blocks is never negative, and 0 exactly if every bit is set |
| FsLayout.WordOfSet | xv6-public/fs.c:373-400 | storing word j of an indirect block changes word j and no other |
| FsIndex.NamedOnce | xv6-public/fs.c:373-435 | no block is named by two places of the block maps |
| FsIndex.ContentWrite | xv6-public/fs.c:482-511 | writing file data changes no block map |
| FsIndex.PatchView | xv6-public/fs.c:482-511 | writing part of one block splices those bytes into the byte sequence of the file |
| FsFile.BitmapIsUnion | xv6-public/fs.c:56-95 | a bit is set if and only if the block is metadata or some place of some inode names it, and the two are disjoint |
| FsFile.ExtendsView | xv6-public/fs.c:373-400 | giving a file one more block leaves the bytes of every file as they were |
| FsFile.NeedsGrowth | xv6-public/fs.c:373-400 | the next block of a file costs what its footprint, one more than its blocks beyond NDIRECT, grows by |
| FsFile.PatchOthers | xv6-public/fs.c:482-511 | a write to a block of one file reaches no other file |
| FsFile.Truncated | xv6-public/fs.c:408-435 | after itrunc the bitmap is the metadata plus the blocks of the other inodes |
| FsFile.FileSystem.constructor | xv6-public/mkfs.c:95-113 | a volume of empty inodes meets the invariant |
| FsFile.FileSystem.Balloc | xv6-public/fs.c:57-78 | the lowest free block, zeroed and marked, and one free block less; it fails exactly if none is free |
| FsFile.FileSystem.Bfree | xv6-public/fs.c:82-95 | clears exactly that bit; it panics exactly if the block was free |
| FsFile.FileSystem.Bmap | xv6-public/fs.c:373-400 | returns the block of the file, allocating only what is missing; panics exactly beyond MAXFILE, or exactly if fewer blocks are free than are missing (0, 1, or 2 with the indirect block), and uses up exactly those; every other block map stays |
| FsFile.FileSystem.MapListed | xv6-public/fs.c:385-397 | the same for blocks that the indirect block lists |
| FsFile.FileSystem.Readi | xv6-public/fs.c:453-476 | a slice of the file cut at its end, refused exactly when the source refuses (with 32-bit overflow); it never allocates and never panics |
| FsFile.FileSystem.WriteChunk | xv6-public/fs.c:494-502 | one chunk inside one block is a splice of the file, and other files keep their bytes; it fails exactly if fewer blocks are free than the file's footprint grows by |
| FsFile.FileSystem.Writei | xv6-public/fs.c:482-511 | a splice of the file; all other files keep their bytes, the blocks below the size stay mapped, and the on-disk inodes equal the in-memory ones although iupdate runs only on growth; it panics exactly if fewer blocks are free than the write adds to the file, the indirect block included, and takes exactly those |
| FsFile.FileSystem.Itrunc | xv6-public/fs.c:408-435 | frees exactly the file's blocks, each once, so the panic in bfree is out of reach; other files keep their bytes |
| FsFile.FileSystem.FreeDirect | xv6-public/fs.c:414-419 | the loop frees exactly the direct blocks, each once |
| FsFile.FileSystem.FreeListed | xv6-public/fs.c:421-428 | the loop frees exactly the listed blocks, each once |
| HeapList.PutBack | xv6-public/umalloc.c:25-44 | linking a block in and joining it with its neighbours keeps one address-ordered cycle without touching blocks |
| HeapList.TakeWhole | xv6-public/umalloc.c:75-77 | unlinking a block keeps the cycle |
| HeapList.TakeTail | xv6-public/umalloc.c:78-82 | cutting the tail off a block keeps the cycle |
| Heap.UnitsSuffice | xv6-public/umalloc.c:69-69 | the block holds nbytes if and only if nbytes <= 2^32 - 8; above that the sum wraps and one unit is handed out |
| Heap.SbrkAsksForThem | xv6-public/umalloc.c:47-61 | sbrk, whose argument is an int, is asked for the units that morecore then claims exactly unless 2^31 - 16 < nbytes <= 2^32 - 8 |
| Heap.RunIsOneBlock | xv6-public/umalloc.c:25-44 | coalescing is complete: n free units in a row always lie in one free block |
| Heap.OnlyCoreBig | xv6-public/umalloc.c:47-61 | if no free block had the units before memory came on top, only the block with that memory has them afterwards |
| Heap.SearchStep | xv6-public/umalloc.c:30-32 | the stop condition of free's search holds at exactly one list entry |
| Heap.FreeKeeps | xv6-public/umalloc.c:25-44 | handing a block back keeps list and partition |
| Heap.TakeKeeps | xv6-public/umalloc.c:75-84 | handing out a whole block or its tail keeps list and partition |
| Heap.Allocator.constructor | xv6-public/umalloc.c:21-22 | the empty heap meets the invariant |
| Heap.Allocator.FindPrevious | xv6-public/umalloc.c:30-32 | the search ends, at the entry behind which the block belongs |
| Heap.Allocator.Free | xv6-public/umalloc.c:25-44 | a valid free returns exactly its block; the list stays one ordered coalesced cycle, free and allocated blocks stay a partition of all units obtained, and freep is the free block next below |
| Heap.Allocator.Morecore | xv6-public/umalloc.c:47-61 | fresh memory joins the free list, a block that is large enough is there afterwards, and if none was before it ends where the heap ends |
| Heap.Allocator.Take | xv6-public/umalloc.c:75-84 | unlinks or splits and hands out exactly the units asked for, from the end of the block |
| Heap.Allocator.Malloc | xv6-public/umalloc.c:64-90 | ends; returns 0 exactly if no free block is large enough and sbrk fails; calls morecore exactly if no free block is large enough, and once; the block is the tail of the first that has room behind freep, or of the new region; the units on the list stay those that sbrk has added exactly if no growth was for 2^31 - 16 < nbytes <= 2^32 - 8 |
| Heap.HonestGrant | xv6-public/umalloc.c:47-61 | what morecore claims is what sbrk gave exactly if the argument of sbrk survived the conversion to int |
| Heap.Allocator.FirstFit | xv6-public/umalloc.c:74-89 | the search loop ends after one turn and at most one growth, at the first block with room behind freep, which freep then precedes |
| Heap.Allocator.FirstUse | xv6-public/umalloc.c:70-73 | the first malloc makes the list of one empty block |
| SleepWakeup.StepInv | xv6-public/proc.c:417-496 | every step of sleep, wakeup and kill, with the early return of killed processes, keeps: nobody sleeps with a true condition unless a waker has still to reach that slot |
| SleepWakeup.NoLostWakeup | xv6-public/proc.c:417-473 | for any number of processes and any run: a sleeper whose condition is true is still to be passed by a running wakeup |
| SleepWakeup.NoDeadlock | xv6-public/proc.c:417-473 | a run stops only when every process is idle or sleeps on a false condition |
| SleepWakeup.ReturnsDone | xv6-public/proc.c:417-451 | an operation returns only when it is done, or early exactly if it may quit, its process is killed and its condition is false |
| SleepProgress.GoSpends | xv6-public/proc.c:417-473 | every step of a process uses up part of a finite stock |
| SleepProgress.RunsEnd | xv6-public/proc.c:417-473 | a run without new operations and kills is never longer than that stock: no livelock, in any order of steps |
| SleepProgress.Settles | xv6-public/proc.c:417-473 | so every run, left alone, comes to rest, with every operation finished or asleep on a false condition |
| SleepClients.MutualExclusion | xv6-public/sleeplock.c:23-42 | at most one process is between acquiresleep and releasesleep, over every run, kills included |
| SleepClients.NotStranded | xv6-public/sleeplock.c:23-42 | a process that sleeps on a free lock is about to be woken |
| SleepClients.BeginNotStranded | xv6-public/log.c:126-174 | no operation sleeps in begin_op although it could start, unless a wakeup of end_op is on its way |
| SleepGate.UpdateKeeps | xv6-public/log.c:126-174 | every begin_op, log_write, end_op and end of a commit keeps the account of the gate |
| SleepGate.EveryRun | xv6-public/log.c:126-174 | in every run outstanding is the number of processes that have begun and not ended, what they have logged and may still log fits the log, and while a process commits nobody is inside and that process's last operation is its own end_op |
| SleepGate.BeginIsLogBegin | xv6-public/log.c:129-137 | begin_op lets an operation in under exactly the condition of the log under crashes |
| SleepGate.AtMostThree | xv6-public/log.c:126-141 | in every run at most LOGSIZE / MAXOPBLOCKS operations are inside at once |
| SleepGate.ThreeAtOnce | xv6-public/log.c:126-141 | and as many can be: a run in which three have begun |
| SleepGate.BeginWaitsForOthers | xv6-public/log.c:126-174 | when a run comes to rest with a process asleep in begin_op, an operation or a commit is still under way |
| SleepClients.PipeNotStranded | xv6-public/pipe.c:60-121 | a reader with bytes or a closed write end, and a writer with room or a closed read end, does not sleep unless a wakeup is on its way; killed readers and writers may leave at any time |
| SleepClients.PipeNeverStuck | xv6-public/pipe.c:60-121 | a pipe never comes to rest with a reader and a writer both asleep |
| SleepClients.PipeReadyIs | xv6-public/pipe.c:85-106 | the conditions on which the ends sleep are those of the ring: full with a reader, empty with a writer |
| SleepClients.PipeWriteIs | xv6-public/pipe.c:84-94 | what the copy loop of pipewrite leaves in the ring is what the client counts |
| SleepClients.PipeReadIs | xv6-public/pipe.c:113-117 | the same for the copy loop of piperead |
| SleepWakeup.KillMissed | xv6-public/proc.c:417-496 | in every run, a process that sleeps on although it was killed was killed between its test of killed and sleep's acquire of ptable.lock |
| SleepClients.PipeKillMissed | xv6-public/pipe.c:79-121 | the same for the ends of a pipe, which test killed before they sleep |
| SleepClients.PipeKillMissedRun | xv6-public/pipe.c:101-112 | that happens: a reader of an empty pipe, killed in that window, sleeps on |
| SleepModel.StopsFinished | xv6-public/sleep1.p:54-133 | for any N and ITER with fewer than 256 items in all, the Promela model, whose consumers test once and take without testing again, stops only when everyone is through |
| SleepModel.CanHang | xv6-public/sleep1.p:54-133 | for any N and ITER with 256 items or more, the byte wraps and some run stops with a consumer asleep for good |
| SleepModel.StopsFinishedExactly | xv6-public/sleep1.p:54-133 | every run of the Promela model ends, and every run ends with everyone through if and only if N * ITER <= 255 |
| SleepModel.NoAssertFails | xv6-public/sleep1.p:66-83 | the assertions in release and sleep hold in every run, for any N and ITER |
| VmTables.PteFields | xv6-public/mmu.h:98-104 | frame and flags of an entry are recovered from it |
| VmTables.HeldOnce | xv6-public/vm.c:36-55 | no page serves two places of the page tables |
| VmTables.PteWrite | xv6-public/vm.c:36-80 | a store through the pointer that walkpgdir returns changes exactly that entry of the flat map, in every address space |
| VmTables.PdeWrite | xv6-public/vm.c:36-55 | hanging in a zeroed page table changes no entry of the flat map |
| Vm.Machine.constructor | xv6-public/kalloc.c:47-53 | freerange puts each page of the range on the free list once |
| VmSpace.FreeHeld | xv6-public/kalloc.c:60-77 | freeing a page that is in nobody's footprint keeps the partition of the pool, every mapping and every user page |
| VmGrow.TakePage | xv6-public/kalloc.c:83-95 | a page from the free list belonged to nobody; filling it keeps the partition of the pool, every mapping and every user page |
| Vm.Machine.WalkPgdir | xv6-public/vm.c:36-55 | finds or makes the table; a new one is the first free page, zeroed, present, writable and open to users; the flat maps of all address spaces and all user pages stay; fails exactly if a table is missing and cannot be made |
| Vm.Machine.MapOne | xv6-public/vm.c:68-79 | sets exactly one entry, panics exactly if it is present, and changes no entry otherwise |
| Vm.Machine.MapPages | xv6-public/vm.c:61-80 | exactly the pages of the range map to consecutive frames and their frames pass to the address space; on failure exactly a proper part of them; the panic is exactly a present entry, and a range that is mapped had none; the only other pages taken are page tables of the range |
| Vm.Machine.UnmapOne | xv6-public/vm.c:269-276 | clears exactly one entry and frees exactly its page |
| Vm.Machine.DeallocUvm | xv6-public/vm.c:256-279 | exactly the present entries of the range are cleared, though absent tables are skipped in one step, and exactly their pages freed; with an old size above KERNBASE it panics at the first kernel page, physical page 0, after clearing the user half |
| Vm.Machine.NewPage | xv6-public/vm.c:233-247 | one more page with the given contents, or no change of any entry; the panic is exactly a present entry; fails exactly if fewer pages are free than the page and, if missing, its table |
| Vm.Machine.AllocUvm | xv6-public/vm.c:222-249 | the new pages are zeroed user pages, nothing else changes and nothing was mapped there before; on failure none of them is left mapped, the footprint has gained only empty page tables of the range, the free list makes up the difference, and with two free pages a page table is there afterwards; the partition of the pool holds on every path; which of success, failure and panic it is follows from the first page mapped in the range and the number of free pages |
| VmCount.GrowAt | xv6-public/vm.c:233-247 | where allocuvm's loop stands after some rounds: all pages in, a mapped page met, or out of pages, exactly as the number of free pages and the tables present say |
| VmGrow.NewTableVacant | xv6-public/vm.c:234-246 | a page table that a failed allocuvm leaves behind has no present entry |
| VmGrow.GiveUp | xv6-public/vm.c:234-246 | after a failure: new owners are empty page tables of the range, lost ones were mapped in the range before, and free list and footprint balance |
| Vm.KeepsTable | xv6-public/vm.c:222-249 | a run with room for one of two pages: allocuvm returns 0 with no page mapped and an empty page table kept |
| VmGrow.FailureRestores | xv6-public/vm.c:234-246 | a failed allocuvm restores every mapping of every address space if and only if nothing was mapped in the range before |
| Vm.Machine.FreeVm | xv6-public/vm.c:284-298 | the free list gains exactly the pages of that directory's footprint, each once; every other address space and its user pages stay |
| Vm.Machine.SetupKvm | xv6-public/vm.c:119-136 | a directory with exactly the kernel's half, or out of memory with directories, owners and free pages all as before; out of memory exactly if fewer than 65 pages are free |
| VmCopy.KernelViewIs | xv6-public/vm.c:103-115 | the four ranges of kmap together are physical memory at KERNBASE with read-only text, and the devices in place |
| VmCopy.KmapApart | xv6-public/vm.c:103-136 | the ranges do not overlap, so setupkvm never meets a remap panic |
| Vm.Machine.CopyUvm | xv6-public/vm.c:316-345 | every page below sz has the parent's flags and contents, above sz the child has the kernel's half only; out of memory undoes everything; which of success, failure and the two panics it is follows from the parent's first missing page and the number of free pages (VmNeed.CopyFailsExactly, VmNeed.OutcomeMeans) |
| VmNeed.CopyFailsExactly | xv6-public/vm.c:316-345 | for a parent with every page below sz <= KERNBASE mapped, copyuvm runs out of memory if and only if fewer pages are free than 1 directory, 64 kernel tables, one page for each of the n pages and one table for each 1024 of them, begun ones included |
| VmNeed.OutcomeMeans | xv6-public/vm.c:316-345 | copyuvm panics only for a missing page or, above KERNBASE, on the first kernel page, and succeeds only up to KERNBASE with every page there |
| VmNeed.MissingExactly | xv6-public/vm.c:324-330 | with page m the first missing one, copyuvm panics there if and only if the pages free suffice for the m pages before it, and otherwise runs out of memory |
| VmNeed.RemappedExactly | xv6-public/vm.c:324-338 | with a size above KERNBASE and no page missing, it panics on the remap of the first kernel page if and only if the pages free suffice to come that far |
| VmNeed.KernelSlotsCount | xv6-public/vm.c:103-136 | the kernel's half takes 64 page tables |
| VmCopy.SpacesApart | xv6-public/vm.c:316-345 | no frame serves two user pages, of the same or of different address spaces |
| ProcTable.Table.constructor | xv6-public/proc.c:10-22 | an empty table |
| ProcTable.Table.Wakeup1 | xv6-public/proc.c:457-464 | exactly the sleepers on the channel become RUNNABLE, and nothing else of any slot changes |
| ProcTable.Table.Kill | xv6-public/proc.c:479-496 | marks the first slot with the pid, makes it RUNNABLE if it sleeps and changes nothing else; or no slot has the pid and nothing changes |
| ProcTable.Table.AllocProc | xv6-public/proc.c:79-92 | takes the first UNUSED slot with a new pid, or there is none |
| ProcTable.Table.PassChildren | xv6-public/proc.c:250-262 | the parent is woken, every child passes to init, and init is woken if a child is a zombie |
| ProcTable.Table.WaitScan | xv6-public/proc.c:281-307 | reaps the first zombie child, whose slot is then free with no pid, parent, stack or mark of a kill, and returns its pid; otherwise gives up exactly if there is no child or the caller is killed |
| ProcInvariant.SchedKeeps | xv6-public/proc.c:328-354 | every store of scheduler() keeps the invariant |
| ProcSteps.TurnKeeps | xv6-public/proc.c:385-451 | yield, sleep, kill and the non-reaping ends of wait keep the invariant |
| ProcSteps.WakeKeeps | xv6-public/proc.c:468-473 | wakeup keeps the invariant |
| ProcSteps.SwitchOutKeeps | xv6-public/proc.c:365-381 | the switch to the scheduler keeps the invariant |
| ProcTree.ForkKeeps | xv6-public/proc.c:74-222 | allocproc and fork with its unlocked stores and both failure paths keep the invariant |
| ProcTree.ExitKeeps | xv6-public/proc.c:228-262 | passing the children on keeps the invariant |
| ProcTree.ZombieKeeps | xv6-public/proc.c:264-267 | becoming a zombie keeps the invariant: nobody has it as parent any more |
| ProcTree.ReapKeeps | xv6-public/proc.c:283-300 | reaping keeps the invariant |
| ProcTree.ReapSafe | xv6-public/proc.c:287-299 | wait frees a kernel stack and a page table that no CPU uses, neither as c->proc nor as loaded page table nor as stack |
| ProcTree.StepInv | xv6-public/proc.c:74-496 | every step of every CPU keeps the invariant |
| ProcTree.EveryRun | xv6-public/proc.c:74-496 | in every state that CPUs can reach from boot: live pids are distinct, the parent of every live process but init is alive and no zombie, no pid is reaped twice, and whenever ptable.lock is free a process is RUNNING exactly if it is the current process of exactly one CPU |
| ProcTree.SchedDoesNotPanic | xv6-public/proc.c:365-381 | sched() is called with the lock and never with a RUNNING process, and never returns to a zombie |
| ProcTree.StackExists | xv6-public/proc.c:341-345 | a process that a CPU has chosen has its stack |
| ProcWait.StepWait | xv6-public/proc.c:228-312 | every step keeps: a process that sleeps in wait sleeps on itself and has no child that is a zombie or about to be one |
| ProcWait.ExitWait | xv6-public/proc.c:250-262 | exit wakes its parent, and init if it inherits a zombie, before the lock is released |
| ProcWait.NoZombieMissed | xv6-public/proc.c:228-312 | in every state that CPUs can reach from boot, a process that sleeps in wait has no zombie child to collect |
| ProcSchedule.ChoicesApproach | xv6-public/proc.c:328-354 | while a slot waits RUNNABLE, each choice of a CPU is cyclically nearer to it than the one before |
| ProcSchedule.BoundedWaiting | xv6-public/proc.c:322-391 | while a slot waits RUNNABLE, any one CPU chooses each other slot at most once, so at most NPROC - 1 times in all |
| ProcLife.KilledLaw | xv6-public/proc.c:273-496 | in every run a slot is marked killed exactly if a kill has hit it since boot or since it was last reaped |
| ProcLife.BornKilledExactly | xv6-public/proc.c:181-222 | in every run the child that fork makes RUNNABLE is killed exactly if a kill has hit its slot, in use or free, since boot or since it was last reaped |
| ProcLife.BornKilled | xv6-public/proc.c:479-496 | a run from boot: init calls kill(0), which hits a free slot, and forks; the child is killed before it has run |
| ProcLife.PidLaw | xv6-public/proc.c:74-92 | in every run pids are handed out in order, and a slot has the one of its latest allocproc, or 0 once it is reaped |
| ProcLife.Lifecycle | xv6-public/proc.c:74-496 | in every reachable state a step takes a slot from one state to another exactly as the diagram says: which step, of which process, to which state |
| ProcLife.ParentLaw | xv6-public/proc.c:181-312 | a slot gets its parent from the process that fills it, passes to init exactly when that parent exits, and loses it exactly when it is reaped |
| ProcLife.ChanLaw | xv6-public/proc.c:417-451 | a process sleeps on the channel it gave, in wait on itself, until it is back from sched |
| ProcCalls.CallLaw | xv6-public/proc.c:228-451 | a process is inside yield, sleep, wait or exit exactly from its call to its return; only a child or its absence ends wait, and nothing ends exit |
| ProcCalls.NeverStuck | xv6-public/proc.c:228-451 | in every reachable state a CPU can take a step unless another one holds ptable.lock |
| ProcProgress.LockGivenUp | xv6-public/proc.c:322-391 | in every run, while a CPU keeps ptable.lock it takes at most 10 * NPROC + 1 steps, whatever the others do |
| ProcCalls.WaitDecides | xv6-public/proc.c:281-311 | at the head of its loop wait has exactly one way to go on: with the first zombie child, with -1, or asleep |
| ProcCalls.ReportedOnce | xv6-public/proc.c:283-300 | in every run the pid that wait has returned once is never returned again |
| ProcCalls.KillIsStep | xv6-public/proc.c:479-496 | the loop of kill computes the machine's step, or there is none |
| ProcCalls.AllocIsStep | xv6-public/proc.c:79-92 | the same for allocproc |
| ProcCalls.ExitIsStep | xv6-public/proc.c:250-262 | the same for the loop of exit |
| ProcCalls.WaitIsStep | xv6-public/proc.c:281-307 | the same for the scan of wait |
| LinkCount.GainsCount | xv6-public/fs.c:552-578 | one more entry raises exactly one inode's number of names, by one |
| LinkCount.LinkKeeps | xv6-public/sysfile.c:140-152 | a new name and nlink + 1 keep all counts, names and homes of directories |
| LinkDirs.RelinkUndoes | xv6-public/sysfile.c:218-228 | link puts back exactly what unlink took |
| LinkDirs.UnlinkKeeps | xv6-public/sysfile.c:207-229 | removing a file's name keeps all counts, and the count before was at least 1 |
| LinkDirs.AttachKeeps | xv6-public/sysfile.c:269-278 | a new directory with its dots, its name and the parent's extra link keep all counts |
| LinkDirs.EmptyDirFacts | xv6-public/sysfile.c:211-224 | an empty directory has exactly one name, in the directory of its .., and that directory keeps a link without it |
| LinkDirs.DetachKeeps | xv6-public/sysfile.c:213-229 | removing an empty directory keeps all counts |
| LinkDirs.UnnamedKeeps | xv6-public/fs.c:332-352 | taking or releasing an inode without a name disturbs no count |
| Links.Volume.constructor | xv6-public/mkfs.c:117-128 | a volume with nothing but a root directory meets the invariant |
| Links.Volume.DirLookup | xv6-public/fs.c:525-548 | the first entry of that name, compared in DIRSIZ characters, or none exactly if it is absent |
| Links.Volume.DirLink | xv6-public/fs.c:552-578 | fails exactly if the name is there, else writes one entry into the first empty slot, or a new one behind the last |
| Links.Volume.IsDirEmpty | xv6-public/sysfile.c:169-181 | exactly whether nothing but the dots is there |
| Links.Volume.IAlloc | xv6-public/fs.c:195-214 | the lowest free inode, or none exactly if none is free |
| Links.PutKeeps | xv6-public/fs.c:332-352 | dropping a reference, which frees an inode without links with its last one, keeps all counts, and an inode in use still has a name or a reference |
| Links.GetPut | xv6-public/sysfile.c:251-258 | taking a reference to an inode in use and dropping it again, around the put of the directory, changes nothing else |
| Links.Volume.Link | xv6-public/sysfile.c:119-165 | a new name, or, on every failure, the directories and counts of before; succeeds exactly if the target is no directory, the parent exists on the same device and the name is free; the counts stay in step exactly if the parent has a name itself |
| Links.Volume.Create | xv6-public/sysfile.c:242-283 | finds, refuses or makes, in any directory; after a new name the counts are in step exactly if the directory has a name itself; the panic of ilock is exactly a found name of a free inode, and the panics for dirlink are out of reach |
| LinkDead.LinkLaw | xv6-public/sysfile.c:140-152 | for every directory: a new name keeps the law of the counts if and only if the directory has a name itself |
| LinkDead.CreateLaw | xv6-public/sysfile.c:260-280 | for every directory and every kind of inode: create keeps the law of the counts if and only if the directory has a name itself |
| LinkRuns.CwdRemoved | xv6-public/sysfile.c:185-283 | a run from mkfs's volume: mkdir, rmdir while the directory is held, then create in it, after which the counts are wrong |
| Links.Volume.Unlink | xv6-public/sysfile.c:185-239 | removes exactly a name that is neither dot and names a file or an empty directory, frees the inode with its last name if nobody holds it, and keeps all counts; the panic for nlink < 1 is out of reach |
| LinkPaths.SkipElem | xv6-public/fs.c:596-618 | the first name of the path in DIRSIZ characters and the rest, or nothing exactly if the path has no name |
| LinkPaths.Follow | xv6-public/fs.c:634-656 | the loop is the walk along the names of the path, or to the directory of the last one |
| LinkPaths.Namex | xv6-public/fs.c:625-657 | the walk from the root or the current directory; it panics exactly if some names, but not all, lead to a free inode |
| LinkPaths.WalkPanics | xv6-public/fs.c:309-310 | namei panics if and only if a proper beginning of the names leads to a free inode |
| LinkPaths.ParentPanics | xv6-public/fs.c:640-644 | nameiparent panics on exactly the same paths |
| LinkPaths.LinkedWalk | xv6-public/fs.c:634-651 | from an inode with a name a walk meets only inodes with a name, so it never panics |
| LinkPaths.AbsolutePaths | xv6-public/fs.c:629-630 | absolute path names never make namex panic, and lead to an inode with a name |
| LinkRuns.ParentRemoved | xv6-public/fs.c:625-657 | a run from mkfs's volume: mkdir a and a/b, rmdir both while b is held, and namei of ../b from b panics |
| BufRing.PushFront | xv6-public/bio.c:49-55 | the stores of binit and brelse put a buffer right behind the head, with prev the reverse of next |
| BufRing.TakeOut | xv6-public/bio.c:132-133 | the two stores take exactly that buffer out |
| BufCache.Recycle | xv6-public/bio.c:82-90 | a free and clean buffer can change its block without losing contents |
| BufCache.Cache.constructor | xv6-public/bio.c:39-56 | binit links every buffer once |
| BufCache.Cache.BGet | xv6-public/bio.c:62-93 | the block's own buffer, else the least recently used one that is free and clean, else all are referenced or dirty; no block gets two buffers |
| BufCache.Cache.FindKey | xv6-public/bio.c:69-76 | the forward search sees every buffer |
| BufCache.Cache.FindFree | xv6-public/bio.c:81-91 | the backward search finds the least recently used free and clean buffer, or there is none |
| BufCache.Cache.BRead | xv6-public/bio.c:97-106 | a locked buffer of the block with what was stored last: its own, with one reference more, or the least recently used one that was free and clean |
| BufCache.Cache.Acquire | xv6-public/bio.c:73-74 | locking a referenced buffer changes neither assignment nor contents |
| BufCache.Cache.Write | xv6-public/bio.c:5-14 | a store into a locked buffer becomes the latest contents of its block |
| BufCache.Cache.IdeRw | xv6-public/ide.c:137-168 | a dirty buffer is written, any other read; both keep the cache coherent |
| BufCache.Cache.LogWrite | xv6-public/log.c:231-231 | marking a buffer dirty keeps it from being recycled |
| BufCache.Cache.BWrite | xv6-public/bio.c:110-116 | the disk holds the buffer afterwards |
| BufCache.Cache.BRelse | xv6-public/bio.c:121-141 | drops the reference; the last one makes the buffer the most recently used |
| BufMachine.StepInv | xv6-public/bio.c:62-141 | every step of any number of clients, waiting in acquiresleep included, keeps: a buffer keeps its block while anyone is between bget and the end of brelse, refcnt counts exactly those clients, and the cache is coherent |
| BufMachine.ReadersSeeLatest | xv6-public/bio.c:97-106 | in every run, a bread that has returned, however long it waited for the lock, holds the block it asked for with what was stored last |
| BufMachine.OneHolder | xv6-public/bio.c:62-93 | in every run, no two clients hold the same block |
| BufRuns.ReadsLastStore | xv6-public/bio.c:97-116 | in every run a reader of a block sees what was stored into it last, whoever stored it and whatever was evicted, locked or written since |
| BufRuns.ReadsTheDisk | xv6-public/bio.c:97-106 | in every run a block that nobody has stored into reads as the disk held it at boot |
| BufRuns.DiskStep | xv6-public/bio.c:110-116 | bwrite puts what was stored last on the disk, and no other step changes it |
| BufRuns.ClientGoesOn | xv6-public/bio.c:62-141 | in every run a client between bget and the end of brelse can go on, unless it waits for a buffer that another client holds |
| BufRuns.BreadReturns | xv6-public/bio.c:97-106 | with a buffer to be had that nobody has locked, bread comes to return the block that was asked for |
| BufRuns.BrelseReturns | xv6-public/bio.c:121-141 | a client that bread has returned to can give the buffer back, and it stays dirty until it is written |
| BufRuns.HeldByOne | xv6-public/bio.c:62-141 | in every run a buffer is locked exactly if some client is between acquiresleep and releasesleep on it, and refcnt is the number of its clients |
| BufRuns.GetIsStep | xv6-public/bio.c:62-93 | the two searches of bget compute the machine's step; it panics exactly if the block has no buffer and none is free and clean |
| ShLex.ScanToken | xv6-public/sh.c:266-308 | code, start, end and new position of the next token |
| ShLex.Peek | xv6-public/sh.c:311-320 | skips white space and tests the next character |
| ShTokens.LexerLaw | xv6-public/sh.c:266-308 | for lines without NUL: the tokens that gettoken finds are ts if and only if the line is ts written out with white space between, at least one where two words, or > and >, would run together |
| ShParse.ParseRedirs | xv6-public/sh.c:375-397 | wraps the command once for each redirection, or panics exactly if a file name is missing; ends on all input |
| ShParse.ParseExec | xv6-public/sh.c:416-446 | block or simple command; ends on all input (what it reads is the grammar's: ShCover.SimpleCommands) |
| ShParse.ParseBlock | xv6-public/sh.c:400-413 | parenthesised command with its redirections |
| ShParse.ParsePipe | xv6-public/sh.c:362-372 | pipelines to the right |
| ShParse.ParseLine | xv6-public/sh.c:345-359 | background commands and lists; ends on all input |
| ShAccept.LineAccept | xv6-public/sh.c:345-446 | every phrase of the shell's grammar, spelled anywhere in a line, is parsed to the tree it denotes, up to its own end |
| ShCover.LineCover | xv6-public/sh.c:345-446 | whatever the parser accepts is a phrase of the grammar with that tree |
| ShCover.ParserLaw | xv6-public/sh.c:328-446 | for lines without NUL: parsecmd succeeds with tree t if and only if the tokens of the line are a phrase of the grammar that denotes t |
| ShCover.SimpleCommands | xv6-public/sh.c:416-446 | a line of words and redirections in any order parses to the words as arguments, in order, under the redirections from the last to the first |
| ShPrint.RoundTrip | xv6-public/sh.c:328-446 | for every command tree with lexable words and at most MAXARGS - 1 arguments each, parsing the parenthesised printing gives the tree back |
| ShNul.LineOk | xv6-public/sh.c:345-446 | every word that the parser stores consists of word characters and ends at a delimiter or the end of the line |
| ShNul.NulTerminate | xv6-public/sh.c:450-493 | a NUL exactly behind every word of the tree |
| ShNul.WordIsString | xv6-public/sh.c:450-493 | no NUL falls into a word, so each word is exactly the C string at its start |
| ShNul.ParseCmd | xv6-public/sh.c:328-342 | the tree or the panic, and on success every word of the tree is a C string in the line |
| PipeRing.Counters | xv6-public/pipe.c:85-114 | with 32-bit counters that wrap, the tests for full and empty are still exact |
| PipeRing.PutHolds | xv6-public/pipe.c:93-93 | storing a byte appends it and disturbs none that waits |
| PipeRing.GetHolds | xv6-public/pipe.c:114-116 | the byte taken is the oldest one that waits |
| PipeMachine.StepInv | xv6-public/pipe.c:60-121 | every step of writers, readers and close keeps the invariant |
| PipeMachine.EveryRun | xv6-public/pipe.c:60-121 | over every interleaving: the bytes read are a prefix of the bytes put, each writer's bytes are in order and exactly those it has been credited with, and 0 <= written - read <= PIPESIZE, also after the counters wrap |
| PipeMachine.ZeroMeansEnd | xv6-public/pipe.c:106-120 | a read of n > 0 bytes returns 0 only if the pipe is empty and the write end closed |
| PipeMachine.ReadIsSlice | xv6-public/pipe.c:113-117 | each read takes consecutive bytes of the stream |
| PipeCalls.EndsFollow | xv6-public/pipe.c:60-75 | in every run an end is open exactly if no close of it is among the steps |
| PipeCalls.AfterLastWriter | xv6-public/pipe.c:60-112 | in every run, after the close of the write end no reader sleeps or fails, and every reader with the lock can go on |
| PipeCalls.AfterLastReader | xv6-public/pipe.c:60-92 | in every run, after the close of the read end no writer sleeps, and every writer with the lock can go on |
| PipeCalls.WriterFate | xv6-public/pipe.c:84-97 | in every run a writer with the lock puts a byte exactly if one is left and the pipe is not full, sleeps exactly while it is full and its read end open, gives up unkilled exactly if it is full and the read end closed, and returns exactly if no byte is left |
| PipeCalls.ReaderFate | xv6-public/pipe.c:106-120 | in every run a reader with the lock sleeps, or gives up when killed, exactly while the pipe is empty and its write end open; it copies exactly while bytes are asked for and there, and returns exactly when not |
| PipeCalls.WholeWrites | xv6-public/pipe.c:79-98 | in every run, the bytes of a writer whose calls have all returned, none with -1, are those of its calls, in order |
| PipeCalls.ReadReturns | xv6-public/pipe.c:101-121 | in every run a read returns at most the bytes asked for, fewer only if the pipe is empty |
| PipeCalls.CallsReturn | xv6-public/pipe.c:79-121 | in every run a process is inside a call exactly if it has called and not returned since |
| PipeProgress.WriteGoesThrough | xv6-public/pipe.c:79-121 | from every reachable state with the lock free and the read end open, a write of any length can be carried to its end by one reader that reads, without failure and with every byte in order |
| PipeProgress.SleeperGetsByte | xv6-public/pipe.c:79-121 | from every reachable state with the pipe empty, a reader sleeps and gets the next byte that is written |
| PipeProgress.EndOfFile | xv6-public/pipe.c:60-121 | from every reachable state with the pipe empty, once the write end is closed a read returns with nothing |
| Pipe.PipeBuffer.WriteSome | xv6-public/pipe.c:84-94 | between two sleeps all bytes that fit go in, in order |
| Pipe.PipeBuffer.ReadSome | xv6-public/pipe.c:113-117 | up to n bytes come out in order, fewer only if the ring runs empty |
| Grep.HereMeans | xv6-public/grep.c:85-96 | matchhere accepts exactly if the items of the pattern, in order, spell some beginning of the text, all of it if the pattern ends in $ |
| Grep.StarsMean | xv6-public/grep.c:99-106 | matchstar accepts exactly if any number of fitting characters and then the rest of the pattern spell a beginning of the text |
| Grep.MatchHere | xv6-public/grep.c:85-96 | computes that, ending on a lexicographic measure |
| Grep.MatchStar | xv6-public/grep.c:99-106 | computes that with its loop |
| Grep.Match | xv6-public/grep.c:73-82 | 1 exactly when the pattern accepts some part of the text, or its beginning if the pattern starts with ^ |

## Left out

- Device drivers, interrupts, boot code, segment and TSS set-up, system-call argument fetching and user
  programs: no logic of their own beyond what the models take as atomic steps.
- The memory model below spinlocks: an acquired lock is exclusive.
- inituvm, loaduvm and clearpteu in vm.c: they only read or set single entries that the flat map describes.
- uva2ka and copyout in vm.c: a page is an array of words here, so copying a range of bytes into user memory
  is not modelled.
- Directory contents as bytes: Links has a sequence of entries for each directory; that readi and writei
  keep bytes is proved in FsFile.
- growproc, userinit and the file tables of fork and exit: plumbing around modelled operations.
- The inode cache (iget, ilock, iunlock): in-memory references are counted per inode, its slots are not
  modelled.
- Concurrent system calls on directories: Links has one operation at a time, as inode locks give it; the
  order of locking is not modelled.
- Sections of proc.c that loop over the table with ptable.lock held are one step of the machine; only
  EMBRYO slots, which belong to one process, can change beside them.
- runcmd of the shell and the read loop of grep: system calls around the parser and the matcher.
- The wakeups of pipe.c and log.c in PipeMachine and LogMachine: a sleeping participant of those machines
  may be resumed at any time, which allows more runs; that their wakeups reach every sleeper is proved in
  SleepClients.
- Contents of a buffer of device 0: binit leaves all buffers with device 0 and block 0, so the cache
  promises uniqueness and contents for devices from 1 on.
- Links.Volume.Link: nlink is a mathematical integer, so the law is the source's for fewer than 32768 names
  of one inode.
- ProcTree.EveryRun: pids are mathematical integers, so the law is the source's up to 2^31 - 1 forks.
- ProcTree.SchedDoesNotPanic: sched's panics for ncli != 1 and for enabled interrupts are not modelled; there
  is no interrupt flag in the machine.
- Heap.Allocator.Malloc: assumes that sbrk, if it succeeds, returns a region above all earlier ones, as
  growproc does.
- Vm.Machine.DeallocUvm: a new size above KERNBASE, with a larger old size, is not modelled: it would free
  pages of the kernel half, and no call in the source does that.
- SleepModel.StopsFinishedExactly: the loop counters of the Promela model are mathematical integers; as bytes
  they allow N and ITER up to 255.
- ShTokens.LexerLaw, ShCover.ParserLaw: lines that contain a NUL are left out, because gets ends a line there.
- FsFile.FileSystem.Writei: running out of disk blocks in the middle of a write is a panic in the source, so
  nothing is promised after it.
- BufCache.Cache.BRead: waits for a locked buffer in the source; in this method the buffer must be free, and a
  bread that waits is in BufMachine.
