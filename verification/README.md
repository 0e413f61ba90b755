# xv6-riscv in Dafny

A verification model of xv6-riscv with lazily grown user memory: the kernel's crash-safe log and buffer cache, its page
tables and frame allocator, its block and file layer, the protocols between its processes, its pipe and disk queue, and in
user space the memory allocator and the shell's parser.

Every part is modelled in the form the C code has. What C changes in place is a class whose methods are proved against a
relation between old and new state. What runs concurrently is a state machine with one step for each stretch that a process
runs under a lock, or for each block transfer, and its theorems are about every run, in any interleaving. NBUF, LOGBLOCKS,
MAXOPBLOCKS, NPROC, PIPESIZE, the number of descriptors and the size of the disk are parameters; 16-, 32- and 64-bit
arithmetic is written out where it wraps or is truncated.

`dafny verify dfyconfig.toml` checks everything.

| files | part |
|---|---|
| `LogMachine`, `LogInvariant`, `LogCacheProof`, `LogDataProof`, `LogDiskProof`, `LogTheorems`, `LogAdmission`, `LogProgress`, `LogLimits`, `LogRuns` | the redo log over the cache as a state machine with crashes: the steps, the invariant, one file for each part of its proof, the theorems, who is let in, how a commit ends, and runs that show where they stop |
| `BufferCache`, `BufferRing`, `LogDevice` | the ring of buffers as values and as linked nodes; the loops of the commit and of recovery |
| `Riscv`, `PageTable`, `VirtualMemory`, `Process`, `Teardown`, `Fork` | page and PTE arithmetic, the three-level tree against a flat map, `kalloc` and the `uvm` functions, freeing a tree, `kfork` |
| `AddressSpace`, `SpaceBytes`, `UserMemory`, `Kernel` | a process's memory as a value, grown lazily and grown eagerly; what its operations do byte by byte; `vmfault`, `sbrk`, `copyin` and `copyout` against it; all processes together |
| `FileSystem`, `Files`, `FileWrite`, `Truncate`, `WriteBound`, `WriteWitness`, `Mkfs` | bitmap, block maps and ownership; `bmap`, `readi`, `writei`, `itrunc`; the blocks one write logs, and a disk on which a write logs that many; the image that `mkfs` makes |
| `FreeList`, `Umalloc` | the circular free list and the tiling of the heap; `malloc`, `free`, `morecore` |
| `Counters`, `Pipe`, `PipeMachine` | rings with wrapping indices; the pipe and its readers and writers |
| `Virtio`, `VirtioProgress`, `VirtioData` | the disk's request queue; how requests end; what they transfer |
| `SleepLock`, `ExitWait` | `sleep`, `wakeup` and sleep locks; `fork`, `exit` and `wait` |
| `Shell`, `ShellGrammar`, `ShellSound`, `ShellComplete`, `ShellTokens` | the parser as functions; the grammar over tokens, and that the parser is the grammar; the tokens of a text |
| `ShellText`, `ShellPrint`, `ShellParens`, `ShellBuffer`, `ShellStrings` | the text of a command, the round trip, its parentheses, the parser as it runs, `nulterminate` |
| `Std` | options, bytes, sequences without repetition, sums and cardinalities |

## What is proved

- **Log.** In every run, with any number of crashes between any two steps and also during recovery, the disk recovers to what
  the log had for each home block at one moment when no operation was in progress and no recovery either, and no finished
  commit is lost (`CrashAtomicity`); so whatever holds of the home blocks between operations holds of what recovery restores
  (`SurvivesCrash`). The cache is a block store for every block that is not released changed and unlogged, and for those it is
  said what a read and a recovery show (`ReadShows`). Logged blocks are never recycled. An operation within its reservation
  always finds a log slot; operations can be outstanding together if and only if their reservations fit into the log
  together (`AllAtOnce`). A commit of n blocks takes 5n + 7 steps, however it is interleaved, and never stops but for want of
  a buffer (`CommitTakes`, `GoesOn`).
- **Memory.** A tree of page tables is a map from pages to entries; mapping and unmapping are insertion and removal in it;
  every frame is free, or a table of one tree, or the backing of one page, or the kernel's. After any sequence of loads,
  stores, `sbrk`, copies, forks and exits by any processes every frame is accounted for, a process that does not touch its
  memory has every byte of it as before, and when all have exited every frame but the kernel's own is free; and given frames
  enough to begin with, each process sees exactly what its own operations on a private memory would show it
  (`Kernel.Machine.Run`, `ExitAll`). A memory grown lazily shows what one grown eagerly shows, over every run, exactly when the
  run stays within conditions that are stated (`LazyRefinesEager`), also in the kernel with all processes interleaved
  (`TellsEager`). Loads show the byte last stored, `copyin` gets back what `copyout` put, and no other byte changes; which
  addresses they may touch is said outright (`SpaceBytes`).
- **Files.** A file is a sequence of bytes, `writei` overwrites or extends it and touches no other, blocks have one owner each
  and are marked exactly while owned; a write of k blocks of bytes logs at most 2k + 4 blocks, and for every k that a file has
  room for there is a disk on which it logs just as many (`BoundReached`).
- **Heap.** Free and allocated blocks tile what `sbrk` gave, the free list is sorted and fully merged, and it is determined by
  what is allocated, so `free` undoes a `malloc` that needed no new memory (`MallocFree`).
- **Processes, pipe, disk queue.** No wakeup is lost, sleep locks exclude, no zombie goes unseen, each is reaped once, and
  `kwait` comes back empty-handed, unless killed or for want of a place for the status, only to a process without children;
  the locks of these protocols never deadlock. A pipe delivers a prefix of what was written, and every read and write moves
  exactly as many bytes as it can. Descriptors are conserved, completions release the right buffer, and every disk request
  moves its buffer's block, once, the way it was asked to (`Call`); all requests in progress can be brought to their end
  (`RequestsEnd`).
- **Shell.** A text parses to a command if and only if the grammar derives it from the text's tokens (`ParserIsGrammar`), so
  white space makes no difference. Parsing undoes printing, no text of a command has fewer parentheses than the printed one,
  and after `nulterminate` every word reads as itself.

## Where the code falls short of a promise

Each of these is stated for all inputs: as an if-and-only-if, by the exact state that remains, or by what must have come
before; most come with an input or a run that shows the failure.

- Lazily and eagerly grown memory differ on a load or store to an unmapped page at address 0, or at or above `sz` in the last
  page: the lazy process is killed (kernel/trap.c:96), the eager one is not (`TouchAgrees`, `TailDiffers`).
- `growproc` with a negative argument larger than the process computes a size that wraps, changes nothing and reports
  success (kernel/proc.c:304-308); it shrinks if and only if the argument is at most the size (`ShrinkSize`).
- `log_write` stops with "too big a transaction" at a full log even for a block that is in the log (kernel/log.c:221-222). The
  log is full only when every outstanding operation has used its whole reservation (`FullLogUsedUp`), and below that an
  operation always finds a slot (`LogSpace`).
- With NBUF equal to LOGBLOCKS a full log pins every buffer, and commit cannot get one for a log block; `BufferForLogBlock`
  says exactly when it can, and `CommitWithoutBuffer` gives a run in which it cannot.
- `writei` whose source becomes unreadable inside a block has already copied the readable part into the cached block, and
  neither logs nor counts it (kernel/fs.c:545-548). The file is what the result says if and only if the bytes so copied, from
  the last block boundary on, lie past the old end or repeat what was there (`WriteRefines`); `UnreportedByte` is a write for
  which it is not.
- That block is then released changed and unlogged. If it is not in the log, readers see the change until the buffer is
  recycled, and no commit installs it (`UnloggedRead`, `LooseStays`). If it is in the log, the next commit installs a content
  that `log_write` was never told (`UnloggedCommit`). `ReadShows` and `CrashAtomicity` say what is read and restored in each
  case, and for all other blocks it is what was last logged.
- `mkfs` gives a root directory that ends at a block boundary one block more than it has (mkfs/mkfs.c:165-170), so not every
  block below its size is mapped (`RootSize`, `SixtyFourEntries`).
- `virtio_disk_rw` computes the sector in 32 bits (kernel/virtio_disk.c:218), so it transfers the buffer's block if and only if
  the block number is below 2^31, and otherwise the one 2^31 below (`SectorWraps`, `Transfers`).
- `malloc` of more than 2^31 - 32 bytes passes a number to `sbrk` that does not arrive there unchanged (`RequestFits`).
- A writer killed in the middle of `pipewrite` returns without waking readers (kernel/pipe.c:84-87), who can then sleep on a
  pipe with bytes in it; `Stream` says how many, `KilledWriterStrandsReader` gives the run.

## Model

| member | source | states |
|---|---|---|
| `LogTheorems.CrashAtomicity` | kernel/log.c:66-204 | in every run, at every state, also inside a recovery, a crash leaves a disk whose recovery gives each home block what was last logged for it, or what it held when released changed and unlogged while in the log, as of one earlier moment with no operation in progress and, but for the first boot, no recovery, no earlier than the last commit that finished |
| `LogTheorems.SurvivesCrash` | kernel/log.c:55-63 | any property of the home blocks that holds whenever no operation is in progress holds of what recovery restores after a crash at any state |
| `LogTheorems.RunInv` | kernel/log.c:66-236 | the invariant of disk, cache, log and reservations holds in every state of every run of any number of processes and crashes |
| `LogTheorems.RecoveryCompletes` | kernel/log.c:117-204 | when a commit or a recovery finishes, the disk itself holds the content to be restored and the header on disk is empty |
| `LogTheorems.Witness` | kernel/log.c:148-204 | the newest finished history entry, and during a commit also the newest entry, is the logical content of a past moment with nothing in progress, after every finished commit |
| `LogTheorems.ReadShows` | kernel/bio.c:92-103 | a locked, filled, unmodified buffer holds what commits install for its block, unless it was released changed and unlogged, and then the block is not in the log and the disk has what commits install; no other buffer holds that block |
| `LogTheorems.ReadsLastLogged` | kernel/bio.c:92-103 | for every block not released changed and unlogged, such a buffer holds what was last logged, and no other buffer holds that block |
| `LogTheorems.LooseStays` | kernel/bio.c:117-137 | a buffer released changed and unlogged keeps that content and its block until it is recycled, changed or logged, or power fails |
| `LogTheorems.LoggedStaysCached` | kernel/log.c:215-236 | a logged block that is not yet installed is in a valid buffer with a reference, so no step recycles it |
| `LogTheorems.UnpinnedOnDisk` | kernel/log.c:66-84 | a block that is not pinned has its last logged content on disk |
| `LogTheorems.RecyclesOldest` | kernel/bio.c:77-87 | the buffer that `bget` recycles is unused, and of the unused ones it was released longest ago |
| `LogTheorems.OneHolder` | kernel/bio.c:58-137 | two processes never hold the same buffer |
| `LogTheorems.LogSpace` | kernel/log.c:127-145 | an operation that has used fewer than MAXOPBLOCKS slots finds one free; with nothing outstanding and no commit the log is empty and `begin_op` goes through |
| `LogTheorems.FullLogUsedUp` | kernel/log.c:215-224 | the log is full only when every outstanding operation has used its whole reservation, so only then does log_write panic, also for a block that is in the log |
| `LogAdmission.MostAtOnce` | kernel/log.c:127-145 | in every reachable state the whole reservations of all outstanding operations fit into the log together |
| `LogAdmission.BeginIff` | kernel/log.c:127-145 | for a process that is in no operation, `begin_op` goes through if and only if no commit is running and what is in the log and a whole reservation for everyone, the newcomer included, fit |
| `LogAdmission.AllAtOnce` | kernel/log.c:127-145 | from every reachable state with nothing outstanding and no commit, any set of processes can have begun an operation each before the first ends, if and only if their reservations fit into the log together |
| `LogProgress.GoesOn` | kernel/log.c:66-204 | in every reachable state of a commit or a recovery, a process that holds the buffers for its next step can take it, and one step fewer is left |
| `LogProgress.LeftGoesDown` | kernel/log.c:66-204 | no step of another process changes what is left of a commit or a recovery; it is used up exactly when that is over |
| `LogProgress.CommitTakes` | kernel/log.c:178-204 | between two states of a commit without a crash lie exactly the steps that the first has left and the second has not; a commit of n blocks takes 5n + 7, in any interleaving |
| `LogLimits.BufferForLogBlock` | kernel/log.c:178-192 | in every reachable state a buffer can be recycled if and only if the buffers that processes wait for, hold or give back, together with those of the pinned blocks, are fewer than all; there are as many pinned buffers as pinned blocks |
| `LogRuns.CommitWithoutBuffer` | kernel/log.c:178-192 | with one buffer and one log block there is a run, from boot on, to a commit that finds no buffer for its log block |
| `LogRuns.UnloggedRead` | kernel/fs.c:545-548 | there is a run in which a changed buffer is released unlogged, its operation ends and commits, and a reader is then shown the change, which neither the log nor the disk has |
| `LogRuns.UnloggedCommit` | kernel/fs.c:545-548 | there is a run in which a logged block is changed again and released unlogged, and past the commit point recovery gives it that content, which log_write was never told |
| `LogInvariant.SpaceKept` | kernel/log.c:127-176 | every step keeps the sum of used slots and unused reservations within LOGBLOCKS |
| `LogInvariant.PromiseKept` | kernel/log.c:215-236 | every step keeps the content that commits install equal to what was last logged, but for blocks released changed and unlogged while in the log, now and for every history entry |
| `LogCacheProof.CacheKept` | kernel/bio.c:58-151 | every step keeps the cache consistent: no block in two buffers, each refcnt the number of holders, waiters and leavers plus the pin |
| `LogDataProof.DataKept` | kernel/log.c:66-236 | every step keeps unmodified buffers equal to the logged content or the disk |
| `LogDiskProof.LogKept` | kernel/log.c:66-236 | every step keeps what is on disk, in the log and in the header consistent with the history |
| `LogDiskProof.CrashRecovers` | kernel/log.c:117-124 | from any state of the invariant the disk recovers to the history entry that the commit point selects |
| `BufferCache.UnrefRingOk` | kernel/bio.c:116-137 | giving back a last reference keeps the ring a permutation of the buffers sorted by release time |
| `BufferCache.MoveToFrontSorted` | kernel/bio.c:126-134 | moving a buffer to the front with a new time stamp keeps the order |
| `BufferCache.VictimIsOldest` | kernel/bio.c:77-87 | the scan from the back finds a buffer if and only if one is unused, and it is the one released longest ago |
| `BufferRing.Ring.constructor` | kernel/bio.c:36-53 | `binit`'s loop links all buffers into a ring that reads as the initial order |
| `BufferRing.Ring.LinkFront` | kernel/bio.c:130-133 | the four assignments insert a buffer at the front and keep next and prev inverse to each other |
| `BufferRing.Ring.Unlink` | kernel/bio.c:128-129 | the two assignments take one buffer out and keep the order of the others |
| `BufferRing.Ring.Unref` | kernel/bio.c:124-137 | a buffer moves to the front exactly when its count reaches 0 |
| `BufferRing.Ring.FindCached` | kernel/bio.c:65-73 | the forward scan finds the buffer of a block, or the block is in none |
| `BufferRing.Ring.FindVictim` | kernel/bio.c:77-87 | the backward scan finds the last unused buffer of the ring |
| `BufferRing.Ring.Bget` | kernel/bio.c:58-89 | a cached block gets a reference and nothing else changes; otherwise the victim is recycled for it; no block is ever in two buffers |
| `LogDevice.FindSlot` | kernel/log.c:226-234 | the search finds the slot of a block, or the next slot exactly when the block is not logged, so the log keeps no duplicates |
| `LogDevice.Disk.Write` | kernel/bio.c:106-112 | one block changes, and the trace of disks grows by the new one |
| `LogDevice.WriteLog` | kernel/log.c:178-192 | the loop brings the cached blocks into the log; after every write the disk still recovers to the old content |
| `LogDevice.WriteHead` | kernel/log.c:103-115 | one block write makes the header list exactly the log |
| `LogDevice.InstallTrans` | kernel/log.c:66-84 | the loop brings the log home; before and after every write the disk recovers to the same content |
| `LogDevice.Commit` | kernel/log.c:194-204 | up to the header write every disk recovers to the old blocks, from then on to the cached ones, and at the end these are home and the log is empty |
| `LogDevice.RecoverFromLog` | kernel/log.c:117-124 | from any disk a crash can leave, recovery restores the content, can itself be cut off after any write, and ends with an empty log |
| `Riscv.Pack` | kernel/riscv.h:365-369 | PTE2PA and PTE_FLAGS undo PA2PTE or-ed with any ten bits |
| `Riscv.RoundDown` | kernel/riscv.h:356 | the greatest page boundary at or below the address |
| `Riscv.RoundUp` | kernel/riscv.h:355 | for every 64-bit address the least page boundary at or above it, or 0 where that would be 2^64 |
| `Riscv.IndicesAreDigits` | kernel/riscv.h:372-374 | the three PX indices are the base-512 digits of the page number, the top one below 256 |
| `Riscv.IndicesDetermineAddress` | kernel/vm.c:99-117 | two page-aligned addresses below MAXVA with the same three indices are equal |
| `PageTable.WalkRole` | kernel/vm.c:99-117 | a walk ends in the leaf table whose place in the tree is that of the page |
| `PageTable.RoleWalk` | kernel/vm.c:99-117 | every leaf table is reached by the walks of its own pages |
| `PageTable.SetLeaf` | kernel/vm.c:147-176 | writing one leaf entry changes one page of one tree and keeps every tree well formed |
| `PageTable.NewTable` | kernel/vm.c:109-113 | hanging a zeroed page under an invalid entry changes no page of any tree |
| `PageTable.OutsideTrees` | kernel/kalloc.c:46-82 | what happens to frames that are no tables changes no tree |
| `VirtualMemory.Vm.constructor` | kernel/kalloc.c:26-40 | after `freerange` every frame of the range is free, once, and there is no tree |
| `VirtualMemory.Vm.Kalloc` | kernel/kalloc.c:68-82 | the head of the free list, no longer free, or 0 if and only if the list is empty |
| `VirtualMemory.Vm.Kfree` | kernel/kalloc.c:46-63 | the frame becomes the head of the free list and no tree changes |
| `VirtualMemory.Vm.Walk` | kernel/vm.c:99-117 | with allocation it finds or makes the leaf table, takes at most two frames, fails only with none left, and changes no page of any tree |
| `VirtualMemory.Vm.MakeTable` | kernel/vm.c:109-113 | a missing table is made in place, or nothing changes for want of a frame |
| `VirtualMemory.Vm.MapOne` | kernel/vm.c:164-174 | one page is inserted in the map of its tree, or none |
| `VirtualMemory.Vm.MapPages` | kernel/vm.c:147-176 | n pages are inserted, or as many as there was memory for, and every other address keeps its entry |
| `VirtualMemory.Vm.UnmapOne` | kernel/vm.c:203-213 | one page is removed, and exactly its frame becomes free |
| `VirtualMemory.Vm.UvmUnmap` | kernel/vm.c:194-214 | exactly the pages of the range are removed, mapped or not, and exactly their frames become free |
| `VirtualMemory.Vm.AddUserPage` | kernel/vm.c:228-239 | one page with given bytes is mapped on a fresh frame, or the frame is given back and no page changes |
| `VirtualMemory.FilledMemAt` | kernel/vm.c:218-242 | after pages were added to one tree, each page of each tree reads as it did or as the added one |
| `Process.UvmDealloc` | kernel/vm.c:248-260 | the pages between the two sizes are gone with their frames; the result is the smaller size |
| `Process.AllocPages` | kernel/vm.c:227-240 | zero pages for the whole range, or none and only table pages spent; three frames per page suffice |
| `Process.UvmAlloc` | kernel/vm.c:218-242 | growth adds exactly zero pages up to the new size, and failure undoes it all |
| `Process.Undo` | kernel/vm.c:230-239 | the error path removes exactly the pages that the loop had added |
| `AddressSpace.LazyRefinesEager` | kernel/sysproc.c:40-54 | over every run of grow, shrink, load, store, copyin and copyout, lazy and eager growth give the same observations if and only if every load and store is agreeable, and then the same memory, missing pages read as zero |
| `AddressSpace.RunMore` | kernel/trap.c:112-113 | a run of one operation more is the run and then that operation, or just the run if the process was killed in it |
| `AddressSpace.TouchAgrees` | kernel/trap.c:78-105 | a load or store has the same outcome under both if and only if the page is mapped, or above the size, or the address is neither 0 nor at or above sz |
| `AddressSpace.TailDiffers` | kernel/trap.c:96-97 | size 100, nothing mapped, a load at 200: the two outcomes differ |
| `AddressSpace.GrowAgrees` | kernel/sysproc.c:47-49 | both ways of growing refuse the same sizes and leave the same full space |
| `AddressSpace.ShrinkAgrees` | kernel/proc.c:304-308 | shrinking, with its 64-bit wrap-around, commutes with filling in the missing pages |
| `AddressSpace.ShrinkSize` | kernel/proc.c:304-308 | growproc with a negative argument makes the size smaller by just that much if it is at most the size, and otherwise changes nothing |
| `AddressSpace.CopyOutAgrees` | kernel/vm.c:344-377 | copyout succeeds for the one if and only if for the other and leaves the same full space |
| `AddressSpace.CopyInAgrees` | kernel/vm.c:382-405 | copyin succeeds for the one if and only if for the other and reads the same bytes |
| `AddressSpace.CopyOutSplit` | kernel/vm.c:344-377 | a copyout that succeeds up to a page boundary, followed by one of the rest, is the copyout of the whole |
| `AddressSpace.CopyInSplit` | kernel/vm.c:382-405 | the same for copyin, with the bytes read one after the other |
| `AddressSpace.StepInv` | kernel/proc.c:290-309 | every operation keeps sz at or below TRAPFRAME and every page below the rounded-up size |
| `SpaceBytes.CopyOutMeans` | kernel/vm.c:344-377 | copyout puts the bytes of the source at the addresses from dstva on, up to the first page that may not be written, and changes no other byte; it succeeds if and only if every page of the range is the user's and writable, or missing below the size |
| `SpaceBytes.CopyInMeans` | kernel/vm.c:382-405 | copyin reads the bytes at the addresses from srcva on, up to the first page that may not be read, and changes no byte; it succeeds if and only if there is no such page |
| `SpaceBytes.CopyBack` | kernel/vm.c:344-405 | copyin gets back what copyout put there |
| `SpaceBytes.LoadMeans` | kernel/trap.c:78-105 | a load shows the byte at its address, or kills, exactly where the address may not be loaded from; it changes no byte |
| `SpaceBytes.StoreMeans` | kernel/trap.c:78-105 | a store puts its byte at its address and changes no other, or kills and changes nothing, exactly where the address may not be stored to |
| `SpaceBytes.StoreThenLoad` | kernel/trap.c:78-105 | after a store a load there gives the byte, and a load anywhere else gives what it gave |
| `SpaceBytes.GrowMeans` | kernel/sysproc.c:40-54 | growth succeeds if and only if the new size is at most TRAPFRAME, sets the size, and changes no byte |
| `SpaceBytes.ShrinkMeans` | kernel/proc.c:304-308 | a shrink by at most the size leaves the bytes of the pages that stay and zeroes elsewhere; by more than the size it changes nothing |
| `UserMemory.VmFault` | kernel/vm.c:454-475 | a new zero page for a process that needs it, or nothing changed for it; failure where a page was due means fewer than three frames were free; no other process's memory changes, and frames move only between the free list and this process's tree |
| `UserMemory.Sbrk` | kernel/sysproc.c:40-54 | growth changes the size and no page table; shrinking is growproc's; the result is the old size; frames move only between the free list and this process's tree |
| `UserMemory.GrowBy` | kernel/proc.c:290-303 | growproc grows as the eager space does, or changes nothing; with three frames per page it does not fail for memory; frames move only between the free list and this process's tree |
| `UserMemory.ShrinkProc` | kernel/proc.c:304-308 | growproc with a negative argument does to the process what Shrink does to its space, and nothing to others; frames move only between its tree and the free list |
| `UserMemory.Copyout` | kernel/vm.c:344-377 | the loop over pages, faulting them in, does what CopyOut, and with it `CopyOutMeans`, says of the space; or it stops with at most one frame free, and then the space is what CopyOut makes of the bytes up to some page boundary, and the page that comes next is missing |
| `UserMemory.Copyin` | kernel/vm.c:382-405 | the loop reads what CopyIn, and with it `CopyInMeans`, says; or it stops with at most one frame free, and then space and bytes are those of CopyIn up to some page boundary, and the page that comes next is missing |
| `UserMemory.PageFor` | kernel/vm.c:351-360 | the frame of the page, faulted in if need be, or 0 with the process's memory unchanged; 0 where the space has a place for the page means that it is missing and at most one frame is free |
| `UserMemory.Access` | kernel/trap.c:78-105 | a load or store finds its page, faulted in if need be, exactly as Touch says; a kill where Touch allows the access means fewer than three frames were free; nothing of others changes |
| `UserMemory.UserLoad` | kernel/trap.c:78-105 | the process sees the byte that its memory has at the address, or is killed, as the step of a load (`LoadMeans`) says; or it is killed with fewer than three frames free and its memory as before |
| `UserMemory.UserStore` | kernel/trap.c:78-105 | the byte is stored or the process killed, as the step of a store (`StoreMeans`) says; or it is killed with fewer than three frames free and its memory as before |
| `UserMemory.UserOp` | kernel/trap.c:78-105 | each of sbrk, load, store, copyout and copyin, with its cost in frames free, leaves the memory and shows the process what the value of the memory says; it takes no more frames than that |
| `UserMemory.UvmCopy` | kernel/vm.c:298-326 | all mapped pages below sz with bytes and flags on frames of their own, or no page and only table frames spent |
| `UserMemory.FilledOthers` | kernel/vm.c:218-242 | adding pages to one process leaves every page and frame of every other as it was |
| `Teardown.FreeWalk` | kernel/vm.c:264-280 | the recursion frees exactly the tables under the given one, meets no leaf, and leaves every other tree as it was |
| `Teardown.NoLeaf` | kernel/vm.c:270-277 | in a tree without mapped pages the panic "freewalk: leaf" is unreachable |
| `Teardown.OneTable` | kernel/vm.c:264-280 | no table page is shared: a tree has one table for each place |
| `Teardown.UvmFree` | kernel/vm.c:284-290 | all frames of a tree whose pages lie below sz are freed, each once, and no other frame |
| `Teardown.FreePagetable` | kernel/proc.c:264-270 | with trampoline and trapframe removed first, every data and table frame of the process becomes free, and every other frame and page stays |
| `Fork.UvmCreate` | kernel/vm.c:180-189 | a fresh root with an empty tree, or 0 if and only if there is no frame |
| `Fork.ProcPagetable` | kernel/proc.c:230-260 | a fresh tree with exactly trampoline and trapframe, or 0 with every frame back; five frames suffice |
| `Fork.NewTree` | kernel/proc.c:133-146 | a trapframe and a fresh tree, or every frame as before; six frames suffice |
| `Fork.GiveBack` | kernel/proc.c:325-330 | after a failed copy, freeproc with size 0 still returns the whole tree and the trapframe |
| `Fork.Kfork` | kernel/proc.c:313-331 | a child with the parent's pages, bytes and flags, all other memory unchanged and frames moved only from the free list to the child's tree and trapframe; or no child and every frame as before; 3 frames per page and 6 more suffice |
| `Kernel.FreeProc` | kernel/proc.c:165-208 | freeproc of a process that has lived makes its trapframe and every frame of its tree free, and changes no other frame's role, no other page's bytes and no other tree's entries |
| `Kernel.Machine.constructor` | kernel/kalloc.c:26-40 | at first every frame is free and there is no process |
| `Kernel.Machine.OwnMemory` | kernel/trap.c:78-113 | what one process does to its memory keeps memory in order for all and every frame accounted for, and leaves size and bytes of every other process as they were; with the frames it costs it is the step of the value of that memory, or its eager growth; a killed process does nothing |
| `Kernel.Machine.ForkOne` | kernel/proc.c:313-368 | fork keeps memory in order for all, changes no process's memory and adds at most one process, with its parent's size and bytes, for at most three frames per page and six more; with that many frames free it adds one |
| `Kernel.Machine.ExitOne` | kernel/proc.c:165-208 | freeproc takes just this process out, and leaves size and bytes of all others as they were; it takes no frame |
| `Kernel.Machine.FirstOne` | kernel/proc.c:114-161 | allocproc adds a process without user memory, or nothing; with six frames free it adds one; no process's memory changes |
| `Kernel.Machine.Do` | kernel/proc.c:114-368 | one operation of any kind keeps order and accounting; a process goes away only by its own exit, and one that is new is the child of the fork, with its parent's memory, or the first; a fork goes through if there are frames enough; the operation touches at most the memory of the process that asked, as the value of that memory says given the frames it costs, and takes no more frames than it may cost |
| `Kernel.Machine.Run` | kernel/proc.c:114-368 | after any sequence of loads, stores, sbrk, growth, copies, forks, exits and kernel allocations, by any processes: memory is in order for each of them; the kernel has just its own frames and the trapframes, and every other frame is free or in the tree of a living process; a process is still there exactly if it did not exit; one that itself did nothing to its memory has its size and all its bytes as before; and if the frames that the operations may cost were free at the start, every process that stays has the memory and has seen just what AddressSpace.Run of its own operations gives |
| `Kernel.TellsEager` | kernel/sysproc.c:40-54 | what a process has seen in such a run is what it would have seen with memory grown eagerly, if and only if its loads and stores are agreeable, and then its memory is the same but for missing pages of zeroes |
| `Kernel.Machine.ExitAll` | kernel/proc.c:165-208 | after freeproc of all, every frame that is not the kernel's own is free, and free and own frames make up all |
| `FileSystem.BitChanged` | kernel/fs.c:76-78 | setting or clearing one bit of a bitmap block changes that bit and no other |
| `FileSystem.WordPut` | kernel/fs.c:430-438 | storing one little-endian word of an indirect block changes that word and no other |
| `FileSystem.MarkedAfter` | kernel/fs.c:66-106 | balloc and bfree of a block change the mark of that block and of no other block of the disk |
| `FileSystem.StoredOwnInv` | kernel/fs.c:411-429 | a fresh zero block stored in an inode keeps every block at one owner |
| `FileSystem.EntryOwnInv` | kernel/fs.c:430-438 | a fresh block stored in an indirect block keeps every block at one owner |
| `FileSystem.WrittenBytes` | kernel/fs.c:543-550 | bytes put into one mapped block change exactly the covered bytes of that one file |
| `Files.Fs.ScanBitmap` | kernel/fs.c:74-84 | the inner loop stops at the first clear bit, or finds every bit set |
| `Files.Fs.Balloc` | kernel/fs.c:66-89 | the lowest free data block, marked and zeroed, or 0 if and only if every data block is owned |
| `Files.Fs.Bfree` | kernel/fs.c:92-106 | clears the mark of one block and logs its bitmap block |
| `Files.Fs.Bmap` | kernel/fs.c:405-444 | the block of the index, allocated together with the indirect block where missing, zeroed; nothing held before changes; which blocks are logged; 0 only when the disk is full |
| `Files.Fs.Readi` | kernel/fs.c:494-519 | past the size, or where offset and count overflow, nothing is read; otherwise the bytes of the file from the offset on, as many as asked for or up to the size, all of them if the destination has room and -1 if not; a block missing below the size reads as zeroes and is allocated, and only a full disk cuts the reading short there; no byte of any file changes, and nothing at all if the range is mapped |
| `FileWrite.Writei` | kernel/fs.c:528-562 | for a file mapped up to its size: refused exactly past the size or where it would end past the largest file; otherwise the bytes written, the blocks allocated and logged, and every other file and every owner as before; every file that was mapped up to its size still is |
| `FileWrite.WriteRefines` | kernel/fs.c:528-562 | the file is the old one overwritten with the first r bytes if and only if the source is readable to the end, or its readable bytes from the last block boundary on lie past the old end or repeat what is there; always no other file changes |
| `FileWrite.WriteLeaves` | kernel/fs.c:539-554 | whatever stopped writei, the file is the old one overwritten with all bytes copied, cut at the larger of the old size and the offset it counted up to |
| `WriteWitness.UnreportedByte` | kernel/fs.c:545-548 | writei of a block to the start of a file of zeroes, from a source of which one byte can be read, returns 0 and has changed the first byte |
| `FileWrite.WriteRound` | kernel/fs.c:539-551 | one block: copied and logged, or no block left, or part of it copied and not logged |
| `Truncate.Itrunc` | kernel/fs.c:448-476 | on any disk in order, exactly the blocks that the inode owned become free, its size is 0, every other file keeps its bytes, and is mapped up to its size if it was |
| `Truncate.HeldMarked` | kernel/fs.c:101-102 | a block that some place holds is marked: "freeing free block" is unreachable |
| `Truncate.AllOfInode` | kernel/fs.c:448-476 | direct blocks, entries and the indirect block are all that an inode owns |
| `Truncate.FreeIndirect` | kernel/fs.c:462-472 | the indirect block and exactly the blocks it lists become free |
| `WriteBound.ChunkBound` | kernel/file.c:148-172 | a write of at most k blocks of bytes at any offset up to the size, with any spread of bitmap blocks, logs at most 2k + 4 distinct blocks |
| `WriteBound.BoundAttained` | kernel/file.c:149-153 | a completed unaligned write of k blocks whose later blocks and indirect block are new, with bits in different bitmap blocks, logs exactly 2k + 4 |
| `WriteWitness.BoundReached` | kernel/file.c:149-153 | for every k from 1 to 256, writei of k blocks of bytes in the middle of a block, on the crowded disk, writes all of them and logs exactly 2k + 4 blocks; old and new state are related by what writei promises |
| `WriteWitness.CrowdedLog` | kernel/fs.c:528-562 | whatever writei may do with k readable blocks of bytes there, it counts them all and logs exactly 2k + 4 blocks |
| `WriteWitness.CrowdedInv` | kernel/fs.c:66-89 | that disk, all full but for one block in each of k + 2 bitmap ranges, satisfies the invariants |
| `WriteBound.WriteOp` | kernel/file.c:153-165 | one chunk stays within the reservation of MAXOPBLOCKS blocks |
| `WriteBound.WriteNext` | kernel/file.c:155-172 | one round of the loop: a whole chunk is in the file and counted, or why not |
| `WriteBound.OverwriteTwice` | kernel/file.c:155-172 | two adjacent overwrites are one overwrite |
| `WriteBound.Filewrite` | kernel/file.c:134-179 | for any count, also a negative one, and any readable part of the source: the offset moves over the bytes counted, the result is the count if those are all and -1 otherwise; if fewer are counted, one comes soon that cannot be read, or the disk is full at the file's end, or writei refuses; a write that counts all leaves the file overwritten with the source at the old offset; otherwise the file holds the bytes counted there, and beyond them at most the readable rest of a block; no other file changes |
| `Mkfs.Image.constructor` | mkfs/mkfs.c:93-117 | a zeroed image with nothing allocated |
| `Mkfs.Image.BlockFor` | mkfs/mkfs.c:267-284 | the block of an index, the next free ones if it or the indirect block is missing; it fails exactly when the image has too few left; no byte of any file changes |
| `Mkfs.Image.Iappend` | mkfs/mkfs.c:254-296 | it succeeds if and only if the file stays within MAXFILE blocks and the image has the blocks it needs, which are counted; then the file grows by exactly the bytes, no other file changes, and blocks are handed out in order and each to one owner |
| `Mkfs.BitmapData` | mkfs/mkfs.c:236-250 | the loop sets exactly the first `used` bits |
| `Mkfs.BitmapWritten` | mkfs/mkfs.c:236-250 | with this bitmap the image satisfies the invariant the kernel relies on |
| `Mkfs.RootSize` | mkfs/mkfs.c:165-170 | after the root's size is rounded every block below a size is mapped if and only if the root did not end at a block boundary |
| `Mkfs.SixtyFourEntries` | mkfs/mkfs.c:165-170 | a root of 64 entries in one block: it is not |
| `Mkfs.Image.Finish` | mkfs/mkfs.c:165-172 | one bitmap block is enough if and only if fewer than BPB blocks are used; then the image satisfies the kernel's invariant, every file has the bytes it was given, the root directory zeroes after them up to its new size, and every block below a size is mapped if and only if the root did not end at a block boundary |
| `FreeList.Joined` | user/umalloc.c:33-42 | two blocks that touch, made one, still tile the heap |
| `FreeList.Split` | user/umalloc.c:79-81 | cutting units off the end of a block still tiles the heap |
| `FreeList.Extended` | user/umalloc.c:46-61 | memory from sbrk beside the heap extends the tiling |
| `FreeList.RingInsert` | user/umalloc.c:33-42 | a block linked in at its place keeps the ring cyclically sorted with gaps |
| `FreeList.RingRemove` | user/umalloc.c:76-77 | unlinking the next block keeps the ring |
| `FreeList.ScanEndsAtSlot` | user/umalloc.c:30-32 | free's test succeeds at a free block if and only if the new block belongs right after it |
| `FreeList.SlotExists` | user/umalloc.c:30-32 | there is such a free block, so the scan ends |
| `Umalloc.Heap.FindSlot` | user/umalloc.c:30-32 | the scan ends, at the free block after which the block belongs |
| `Umalloc.Heap.Free` | user/umalloc.c:24-44 | exactly this block is no longer allocated, it lies in a free block, the heap is sorted, tiled and fully merged again, and freep is the free block before it |
| `Umalloc.Heap.Merge` | user/umalloc.c:33-42 | joining upward, downward, both or neither restores the invariant |
| `Umalloc.Heap.Grab` | user/umalloc.c:75-84 | an exact fit or the tail of a larger block becomes allocated with just the units asked for, and freep is the free block before |
| `Umalloc.Heap.MoreCore` | user/umalloc.c:46-61 | the new memory is in the heap and there is room now, or nothing changed |
| `Umalloc.Heap.Malloc` | user/umalloc.c:63-90 | a block disjoint from all allocated ones: the last units of the first free block after freep that is large enough, and freep then points before that; sbrk is asked at most once and only if no free block is large enough; failure leaves the heap as it was; both loops end |
| `Umalloc.RequestFits` | user/umalloc.c:52-69 | a grant holds the bytes asked for and less than a unit more; the byte count reaches sbrk unchanged if and only if the request is at most 2^31 - 32 |
| `Umalloc.FreeListUnique` | user/umalloc.c:24-90 | the allocated blocks and the heap's units determine the free list |
| `Umalloc.Heap.MallocFree` | user/umalloc.c:24-90 | malloc and free of its result leave the same blocks allocated; if a free block was large enough, the free list is the old one, block for block and header for header; otherwise the heap has grown by what sbrk gave |
| `Counters.WindowPush` | kernel/pipe.c:88-96 | writing at the head of a ring with wrapping counters appends, and overwrites nothing that is in it, while there is room |
| `Counters.WindowPop` | kernel/pipe.c:121-129 | counting the tail up takes the oldest entry |
| `Counters.SameIndex` | kernel/pipe.c:95 | the ring index does not notice the counter's wrap because the size divides the modulus |
| `Pipe.FullIs` | kernel/pipe.c:88 | the test on 32-bit counters is exactly that PIPESIZE bytes are in the pipe |
| `Pipe.WriteRunAppends` | kernel/pipe.c:76-103 | a stretch of pipewrite appends the bytes it counts, in order, and sleeps only on a full open pipe |
| `Pipe.WriteRunStops` | kernel/pipe.c:76-103 | where a stretch of pipewrite stops and how: after all bytes, at the first unreadable one, where the process is seen killed or the reader gone, or asleep exactly at a full pipe with bytes left |
| `Pipe.ReadRunTakes` | kernel/pipe.c:105-134 | a read sleeps or gives up exactly on an empty pipe open for writing, and otherwise takes from the front exactly as many bytes as are asked for, there, and writable at the destination |
| `Pipe.Buffer.constructor` | kernel/pipe.c:33-36 | an empty pipe with both ends open |
| `Pipe.Buffer.WriteLoop` | kernel/pipe.c:83-98 | the loop over the array does what WriteRun says |
| `Pipe.Buffer.Read` | kernel/pipe.c:105-134 | on the array, from waking up to its end or to sleep: the bytes asked for, there and writable leave the front of the pipe, and no others |
| `Pipe.Buffer.ReadLoop` | kernel/pipe.c:120-130 | the loop over the array does what TakeRun says |
| `PipeMachine.Stream` | kernel/pipe.c:58-134 | over every interleaving: what was delivered is a prefix of what was stored and the rest is in the pipe; a sleeping writer means a full pipe with a reader; readers and writers never sleep at once; a sleeping reader's pipe holds just what killed writers left |
| `PipeMachine.RunInv` | kernel/pipe.c:58-134 | the invariant behind it, over every run |
| `PipeMachine.ReadTakes` | kernel/pipe.c:105-134 | over every interleaving: on an empty pipe open for writing a reader sleeps, or returns if killed, and takes nothing; otherwise it takes exactly the bytes asked for, there and writable, and every writer that slept is awake |
| `PipeMachine.WriteStores` | kernel/pipe.c:76-103 | over every interleaving: a writer stores the bytes up to the first that it is not to write, sleeps exactly at a full pipe with bytes left, and unless it gives up every reader that slept is awake |
| `PipeMachine.KilledWriterStrandsReader` | kernel/pipe.c:84-87 | for every size there is a run that ends with a reader asleep on a pipe with a byte in it |
| `Virtio.QueueSafety` | kernel/virtio_disk.c:215-327 | over every run and any order of completions: free descriptors plus three per request make up all; the rings hold exactly the queued and the completed requests and never overflow, across the wrap of the 16-bit indices |
| `Virtio.InterruptReleasesOne` | kernel/virtio_disk.c:294-327 | each round of the interrupt releases the waiting buffer of one finished request and no other |
| `Virtio.Conservation` | kernel/virtio_disk.c:156-213 | free descriptors and three per live request add up to NUM |
| `Virtio.RingRoom` | kernel/virtio_disk.c:271-277 | a ring holds no more entries than there are live requests |
| `Virtio.InterruptReads` | kernel/virtio_disk.c:312-324 | the used entry names a completed request whose buffer info is the one waiting |
| `Virtio.RunInv` | kernel/virtio_disk.c:215-327 | chains of live requests are disjoint triples of non-free, correctly linked descriptors in every reachable state |
| `VirtioProgress.StepWorks` | kernel/virtio_disk.c:215-327 | each step of the device, the interrupt or a waiting process does one of the four steps of one request |
| `VirtioProgress.RequestsEnd` | kernel/virtio_disk.c:215-327 | from every reachable state the requests in progress can be brought to an end without a new one, and any way to do so takes exactly the steps they have left; they are at an end if and only if every descriptor is free, and then no buffer waits |
| `VirtioData.SectorWraps` | kernel/virtio_disk.c:218 | the sector computed in 32 bits is the block's if and only if the block number is below 2^31, and otherwise that of the block 2^31 below |
| `VirtioData.Transfers` | kernel/virtio_disk.c:215-327 | in every run, any request that the device has taken is a well-formed chain of header, data and status, and serving it moves one block between the buffer that asked and the disk, the way that was asked, and nothing else; the interrupt finds no status but 0 |
| `VirtioData.Call` | kernel/virtio_disk.c:215-291 | from submission to return the device serves the request exactly once; the buffer is as submitted until then and as that left it from then on: a write puts the data of the call on the disk, a read returns what the block held at one moment of the call |
| `VirtioData.AllKept` | kernel/virtio_disk.c:237-271 | descriptors, headers and status bytes of all live requests keep saying what they were made for, over every step |
| `Virtio.Table.AllocDesc` | kernel/virtio_disk.c:156-166 | the first free descriptor, or -1 if and only if there is none |
| `Virtio.Table.FreeDesc` | kernel/virtio_disk.c:169-182 | one descriptor cleared and free |
| `Virtio.Table.Alloc3` | kernel/virtio_disk.c:201-213 | three different descriptors that were free, or none taken and fewer than three free |
| `Virtio.Table.FreeChain` | kernel/virtio_disk.c:185-197 | following the links frees exactly the three descriptors of the chain |
| `SleepLock.NoLostWakeup` | kernel/proc.c:603-648 | in every interleaving, a process in sleep while the lock is free is still ahead of the scan of the process that freed it, which holds lk->lk |
| `SleepLock.OneHolder` | kernel/sleeplock.c:21-41 | at most one process has the sleep lock, and lk->pid names it |
| `SleepLock.NoDeadlock` | kernel/sleeplock.c:21-41 | while some process is on its way through acquiresleep or releasesleep and not asleep, one of them can take its next step |
| `SleepLock.SleeperIsReached` | kernel/proc.c:603-648 | a process asleep while nobody has the lock has a wakeup coming: the scan is not past it, and a process on its way can take its next step |
| `SleepLock.RunInv` | kernel/proc.c:603-648 | who holds which spinlock, who sleeps on what and which scan is pending, over every run |
| `ExitWait.Families` | kernel/proc.c:371-427 | in every interleaving nobody is the child of a zombie or an unused slot, and every started process but init has a living parent |
| `ExitWait.NoUnseenZombie` | kernel/proc.c:431-476 | whenever wait_lock is free, no process asleep in kwait has a zombie child |
| `ExitWait.ReapedOnce` | kernel/proc.c:443-464 | each exit is reaped at most once, and when kwait comes to a zombie its CPU has left its kernel stack |
| `ExitWait.WaitReturnsChildless` | kernel/proc.c:431-476 | in every interleaving kwait returns without having freed a child, other than on a kill or a failed copyout, only if the process has none |
| `ExitWait.ScanEnds` | kernel/proc.c:440-474 | a scan that has come to its end has passed no zombie child; it goes to sleep if there is a child, and returns if there is none |
| `ExitWait.SleepersHaveKids` | kernel/proc.c:466-474 | nobody sleeps in kwait without a child |
| `ExitWait.ParentChanges` | kernel/proc.c:371-464 | a parent is set by the fork that makes the child, goes to init when the parent exits, and is cleared by the kwait that frees the child, and changes in no other way |
| `ExitWait.NoDeadlock` | kernel/proc.c:313-476 | while some process is in the middle of a call and not asleep, some such process can take its next step |
| `ExitWait.RunInv` | kernel/proc.c:313-476 | locks, forks, parents, zombies and scans stay consistent over every run |
| `Shell.GetToken` | user/sh.c:275-318 | the cursor moves forward over every token, and a word token is a whole word of the line |
| `Shell.ParseLine` | user/sh.c:354-369 | the recursion ends, the cursor never moves back, and every word of the command is a whole word of the line, fewer than MAXARGS in each |
| `ShellPrint.RoundTrip` | user/sh.c:337-456 | every command with legal words and fewer than MAXARGS of them per command has a text that parses to it; the text is a C string |
| `ShellPrint.Reprint` | user/sh.c:337-456 | whatever parses, its command printed and parsed again is the same command |
| `ShellPrint.PrintInjective` | user/sh.c:337-456 | different commands have different texts |
| `ShellParens.FewestParentheses` | user/sh.c:337-456 | whatever text parses to a command, it has at least as many parentheses as the text that is printed for that command |
| `ShellComplete.ParserIsGrammar` | user/sh.c:337-456 | a text parses to a command if and only if the grammar, with its limit on words, derives the command from the text's tokens; otherwise the parser panics |
| `ShellComplete.OnlyTokensMatter` | user/sh.c:337-456 | texts with the same tokens are both refused, or give the same command |
| `ShellSound.LineSound` | user/sh.c:354-456 | what parseline reads is spelled by a derivation of the command it returns |
| `ShellComplete.LineComplete` | user/sh.c:354-456 | where tokens that derive a command come next, parseline reads them all and returns that command |
| `ShellTokens.TokensCut` | user/sh.c:275-318 | a text that is cut anywhere but between two word characters or two > has the tokens of its parts |
| `ShellTokens.BlankTokens` | user/sh.c:272-318 | space, tab, carriage return, newline and vertical tab are no tokens |
| `ShellTokens.SignTokens` | user/sh.c:273-318 | each of the seven signs is a token, and >> is one |
| `ShellTokens.WordTokens` | user/sh.c:272-318 | any other characters are one word |
| `ShellTokens.SpacingParses` | user/sh.c:272-330 | white space before, after or instead of white space in a command line makes no difference to whether it parses and to what |
| `ShellParens.LineNeeds` | user/sh.c:354-433 | what parseline reads from a part of the line needs no more parentheses than that part has |
| `ShellPrint.LineParses` | user/sh.c:354-369 | parseline finds a printed command anywhere in a line, up to a closing parenthesis or the end: semicolons bind loosest, then ampersands, then bars, and lists and pipes group to the right |
| `ShellPrint.ExecParses` | user/sh.c:409-456 | parseexec finds words with their redirections, or a block with its redirections, innermost first |
| `ShellPrint.LineFromSkip` | user/sh.c:354-369 | white space before a command makes no difference |
| `ShellText.MarksParse` | user/sh.c:384-407 | printed redirections parse to the same files and modes in the same order |
| `ShellText.NamedLegal` | user/sh.c:425-456 | whatever the parser returns has legal words and few enough arguments |
| `ShellBuffer.Parser.GetToken` | user/sh.c:275-318 | the loops that move the cursor return the token of the specification |
| `ShellBuffer.Parser.Peek` | user/sh.c:320-330 | skips white space and says whether the next character is one of the given ones |
| `ShellBuffer.Parser.ParseRedirs` | user/sh.c:384-407 | the loop returns the redirections of the specification and stops where they end |
| `ShellBuffer.Parser.ParseArgs` | user/sh.c:435-455 | the loop returns the command of the specification, or panics where it does |
| `ShellBuffer.Parser.ParseLine` | user/sh.c:354-369 | the recursive methods with a shared cursor compute the specification |
| `ShellStrings.EndsOutside` | user/sh.c:459-503 | the end of one word never lies inside another |
| `ShellStrings.NulTerminate` | user/sh.c:459-503 | the pass writes a NUL at the end of each word of the command and nowhere else |
| `ShellStrings.ParseCmd` | user/sh.c:337-352 | on any buffer with a C string: a panic changes nothing; otherwise every argument and file name then reads, in the buffer, as exactly the word of the text |

## Left out

- Inodes are values beside the blocks they live in: the encoding of `struct dinode`, the inode cache, directories and path lookup are not modelled.
- The file layer works on the blocks that the log and the cache show to one operation. `SurvivesCrash` carries any property of the home blocks over a crash; that operations of the file layer, interleaved under inode locks, keep such a property from one quiet moment to the next is not stated.
- The page tables are indexed by the digits of page numbers, as integers; `Riscv` proves on 64-bit words that PX computes those digits.
- `copyinstr` does not fault pages in, so it is not part of the lazy-and-eager comparison; `uvmclear`, `ismapped` and `vmprint` are left out.
- The added system calls (shared page, read-only map, zero region with its own branch in `usertrap`) and what `freeproc` and `kfork` do for them are left out, and so are open files, names and registers in `kfork`.
- exec, signals to kill a process other than as a wake-up, the console, the uart, start-up and all assembly code.
- Memory barriers and TLB flushes: a lock acquire is an atomic step and a block transfer is atomic. The spinlocks of `kalloc` and of the process table's other fields are not modelled.
- In `ExitWait` a stretch of code under one lock with no effect on the others is one step with its acquire or release, and only the channels of kwait are modelled; `SleepLock` has one sleep lock.
- In `Virtio` a request is submitted in one step, as `vdisk_lock` is held throughout, and waiting for free descriptors is left out; in `VirtioData` the device serves a request in one step and does not fail.
- VirtualMemory.Vm.UnmapOne: takes do_free set for pages below TRAPFRAME and clear for the two above, as every caller but the one for the shared page does.
- VirtualMemory.Vm.UvmUnmap: the same.
- Files.Fs.Readi: takes an inode whose size is at most MAXFILE blocks; beyond that `bmap` panics. A block missing below the size is allocated through `log_write`, which panics outside a transaction, so from `fileread`, which opens none, such a read does not return.
- FileWrite.Writei: takes a file mapped up to its size; with a hole below the size a full disk can stop a write inside the file, and neither `ChunkBound` nor `WriteRefines` is claimed. The root directory that `RootSize` singles out is such a file.
- WriteBound.Filewrite: the same.
- Kernel.FreeProc: without the shared page, the read-only map and the zero region.
- Umalloc.Heap.Malloc: takes requests of at most 2^31 - 32 bytes; beyond that `sbrk` gets another number, as `RequestFits` states.
- Umalloc.Heap.MallocFree: the same.
- Umalloc.Heap.Free: takes the address of an allocated block, as the C code demands; user data written over headers is not modelled.
- Mkfs.Image.Iappend: a full image or a file that is too large ends the program, where the C code checks only the second.
- ShellBuffer.Parser.ParseArgs: builds the tree from its words and redirections at the end, where the C code fills in a node that redirections already point to.
- Pipe.Buffer.WriteLoop: the point at which the process is seen killed and the first unreadable byte are parameters.
