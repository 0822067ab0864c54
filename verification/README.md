# Verified models of the xv6 kernel and three user programs

Dafny models of the parts of this RISC-V xv6 kernel that are hardest to get right, with proofs
about all their inputs, all their runs or all their reachable states. The kernel here has a
buffer cache with one lock per hash bucket and a page allocator with one free list per CPU, so
several of the theorems are about interleavings. `dafny verify dfyconfig.toml` checks everything.

Two forms of model stand side by side. Code that changes state step by step is a class or a
method with the loops of the C code (`LogCode`, `BufferCode`, `Kalloc`, `Vm`, `UserCopy`,
`FsCode`, `VirtioCode`, `PipeCode`, `UmallocCode`, `ShellCode`, `Names`, `Grep`), proved against
specification functions. Concurrency is a step system (`BlockStore`, `BufferCache`,
`SleepWakeup`, `ProcLife`, `KallocRuns`, `Virtio`, `Pipe`): a state, one action per atomic step,
an invariant that every action keeps, and theorems about every run from the initial states.

- **Log** (`Log`, `LogCode`, `LogPanics`): the disk is a sequence of blocks; commit and recovery
  are the sequences of block writes they issue, and a crash keeps any prefix. Main result:
  `Log.CrashAtomicity`. One promise is false of the code: an operation that `begin_op` admitted
  can still meet the panic of `log_write`, in two ways. The guard compares with `log.size - 1`
  while the image builder makes a log of LOGSIZE blocks (`mkfs/mkfs.c:25`), so a reserved slot
  may be refused (`LogPanics.PanicsOnReserved`); and it comes before absorption, so a block
  that needs no slot may be refused (`LogPanics.PanicsOnAbsorbed`). Both are runs of the code
  from boot. `LogPanics.PanicsIffFull` and `LogPanics.ReservationEnoughIff` say exactly when.
- **Cache and log together** (`BlockStore`): threads, commit, crashes and recovery refine a flat
  block store with current and durable contents (`RunRefines`, `DurableIsQuiescent`). Callers are
  not trusted to log what they change, because `writei` does not when its copy from user memory
  fails (`kernel/fs.c:500-503`): such a block may fall back to what it was without a crash
  (`SeenThenLost`). For callers that do, the store is simpler (`TidyRefines`, `TidyDurable`), and
  all that they see is durable whenever `end_op` has returned to the last of them (`TidySettled`).
- **Buffer cache** (`BufferRings`, `BufferCache`, `BufferPanic`, `BufferCode`): the prev and next
  pointers of 53 rings; in every interleaving each buffer is in one place and no block is cached
  twice, and `bget` panics only if all other buckets were in use.
- **Processes** (`SleepWakeup`, `ProcLife`, `ProcFamily`): no lost wakeup, exclusive sleep locks,
  and the fork, exit and wait protocol over any number of CPUs: whose child a process is, who may
  free it, and that nobody sleeps over a child that has exited.
- **Memory** (`Kalloc`, `KallocRuns`, `Sv39`, `Mmu`, `Spaces`, `Ranges`, `Vm`, `UserCopy`): any
  number of address spaces over one memory and the free lists. Each page is in exactly one place:
  free, a table page of one table, a leaf of one table at one page number, or in a caller's hands.
  The three-level page table, held in memory as encoded words, refines a finite map from page
  numbers, and so does the hardware that reads these words as section 4.3.2 of the RISC-V
  Privileged Architecture says; the operations that allocate fail exactly when the free pages are
  fewer than they need.
- **File system** (`Fs`, `FsRoom`, `FsCode`, `Names`): block ownership, files as byte strings,
  when a write runs out of blocks, the log budget of a write, path walking and directories as
  finite maps. The number of bytes that `writei` reports is not always the number it wrote
  (`FsCode.FailingCopy`); `FsCode.ReportedIff` and `FsCode.ReportedAlways` say when it is.
- **Disk driver** (`Virtio`, `VirtioCode`): driver, device and interrupt handler around the two
  rings of section 2.6 of the Virtio 1.1 specification; the device takes no lock.
- **Pipe** (`Pipe`, `PipeCode`), **allocator** (`Umalloc`, `UmallocCode`), **shell parser**
  (`Shell`, `ShellTokens`, `ShellGrammar`, `ShellSpacing`, `ShellCode`) and **grep** (`Grep`). The
  parser accepts exactly the sentences of a grammar over the characters of the text, with one tree
  each. In the allocator too a promise fails: `sbrk` takes an int, so that a large enough request
  asks for too little memory (`UmallocCode.AskTruncated`), and `malloc` then hands out more than
  was granted, exactly from 2^27 units on (`UmallocCode.Heap.Malloc`).

`Options`, `Params`, `Counting` and `Blocks` hold what the modules share.

Two panics are outcomes with exact conditions: that of `log_write`, and that of `balloc` inside
`bmap`, `writei` and `filewrite`; of that of `bget` among other threads the model says when alone it
can come. The others are preconditions or shown unreachable. A block
write is atomic. Memory is sequentially consistent. What comes from outside is a parameter: the
device's choice of order, how many bytes of a user range are readable (`lim`), what `sbrk`
grants, whether a process is killed.

## Model

| member | source | states |
|---|---|---|
| `Log.CrashAtomicity` | kernel/log.c:68-203 | For every crash point among the single-block writes of commit(), and any number of further crashes cutting the recoveries that follow, the recovery that completes leaves the log empty and the home blocks either all old or all new; the one write of the header decides which. |
| `Log.RecoveryIdempotent` | kernel/log.c:116-123 | After a completed recovery a second one, whole or cut at any write, changes no home block. |
| `Log.CommitCrashPoint` | kernel/log.c:193-203 | At every prefix of the writes of commit() the disk, read through its log, stands for the whole old state or the whole transaction. |
| `Log.RecoveryCrashPoint` | kernel/log.c:68-123 | At every prefix of the writes of recovery the disk stands for the same state as before it, and when it is done that state is on the home blocks. |
| `Log.LoggedInstall` | kernel/log.c:68-83 | While install_trans() is part way through, log and home blocks together still stand for the whole transaction. |
| `Log.HeaderRoundTrip` | kernel/log.c:86-114 | read_head() gets back exactly the slots that write_head() encoded, in 32-bit little-endian words. |
| `LogCode.LogState.constructor` | kernel/log.c:54-65 | Boot from any disk a crash can leave: the writes issued are those of recovery, and the log starts empty with no operation. |
| `LogCode.LogState.ReadHead` | kernel/log.c:86-97 | The in-memory header becomes the one encoded in the header block. |
| `LogCode.LogState.WriteHead` | kernel/log.c:102-114 | One write, of the header block, whose words past the slots stay as they were. |
| `LogCode.LogState.InstallTrans` | kernel/log.c:68-83 | The logged blocks are written home in slot order; outside recovery exactly the pins of the slots are given up. |
| `LogCode.LogState.RecoverFromLog` | kernel/log.c:116-123 | The loop issues the writes of recovery, in that order and no others, and leaves no slot in use. |
| `LogCode.LogState.WriteLog` | kernel/log.c:178-191 | The cached contents of the slots go to the log blocks behind the header, in slot order. |
| `LogCode.LogState.CommitStages` | kernel/log.c:193-203 | The four stages of a non-empty commit issue, write for write, the sequence that the crash theorems speak about. |
| `LogCode.LogState.Commit` | kernel/log.c:193-203 | The writes issued are the sequence of CrashAtomicity; afterwards the log is empty, nothing is pinned and the home blocks are the old ones overlaid with the transaction. |
| `LogCode.LogState.BeginOp` | kernel/log.c:126-142 | Admission if and only if no commit is running and the slots in use plus MAXOPBLOCKS for every operation fit in LOGSIZE; slots plus all unspent reservations stay within LOGSIZE. |
| `LogCode.LogState.LogWrite` | kernel/log.c:214-235 | Panics exactly when the guard fires or no operation runs; otherwise absorbs or takes one slot, pins the block with its new data, and keeps the space invariant. |
| `LogCode.LogState.EndOp` | kernel/log.c:146-175 | Only the last operation out commits, and then the whole group reaches the home blocks; the others change nothing on disk. |
| `LogPanics.PanicsOnReserved` | kernel/log.c:214-221 | A run from boot, for every log of at most LOGSIZE blocks, that ends in the panic of log_write() on a new block although the operation was admitted by begin_op() and has an unspent reservation. |
| `LogPanics.PanicsOnAbsorbed` | kernel/log.c:214-228 | A run from boot, for a log of any size, that ends in the same panic on a block which already has its slot and would only be absorbed. |
| `LogPanics.PanicsIffFull` | kernel/log.c:214-221 | In every state that the operations can be in, log_write() panics if and only if min(LOGSIZE, log size - 1) slots are taken, whichever block is written. |
| `LogPanics.ReservationEnoughIff` | kernel/log.c:126-142 | Over all states that the operations can be in: an operation with an unspent reservation never meets the panic if and only if the log has at least LOGSIZE + 1 blocks. |
| `Blocks.LittleEndian` | kernel/log.c:86-114 | Byte k of a 32-bit word in a block holds its bits 8k to 8k + 7, as the processor reads it. |
| `Blocks.WordStored` | kernel/log.c:102-114 | A word write stores those four bytes and touches no other. |
| `BlockStore.StepRefines` | kernel/log.c:68-235 | Cache and log together: every step of any thread, also of one that releases a buffer it has changed and not logged, of commit, of a crash or of recovery is a step of a flat block store with a current and a durable contents, and keeps the invariant. |
| `BlockStore.RunRefines` | kernel/bio.c:69-185 | In every run from boot each event is an event of the flat store: a locked read returns the latest contents, a commit makes durable exactly the logged blocks, a block that was changed and not logged falls back to its durable contents when its buffer is recycled, and a crash falls back to exactly the durable contents. |
| `BlockStore.DurableIsQuiescent` | kernel/log.c:146-203 | What a crash would leave at any moment is what was logged at a moment at which no operation was running, so that system calls are all there or all missing; and that moment is not before the last one at which no operation was running and no commit() still had its header write to do. |
| `BlockStore.EvictStep` | kernel/bio.c:91-118 | Recycling an unreferenced buffer changes what readers see if and only if its data differs from the disk, and then it was changed and not logged; the block falls back to its durable contents. |
| `BlockStore.StaysCached` | kernel/bio.c:66-119 | A block that a thread has asked for stays in the cache, with the reference of the thread, until the thread gives it back. |
| `BlockStore.DirtyMeans` | kernel/log.c:214-235 | Over every run the mark that a buffer is changed means that its block was changed after it was last logged or written home. |
| `BlockStore.OpsBounded` | kernel/log.c:126-142 | In every run begin_op() lets no more operations run at a time than the log has room for, at MAXOPBLOCKS each. |
| `BlockStore.WriteHeadStep` | kernel/log.c:193-203 | The header write is the commit point: the logged blocks become durable, all at once, and no operation is half way. |
| `BlockStore.IdleEmpty` | kernel/log.c:146-175 | end_op() commits: in every run, whenever no operation is running and commit() is not at work, the log is empty. |
| `BlockStore.Finishes` | kernel/log.c:68-203 | commit() and recovery can always finish on their own, from wherever they are, unless somebody keeps a buffer locked: they end with an empty log, the logged blocks durable if the header write was still ahead, and nothing changed for readers. |
| `BlockStore.SeenThenLost` | kernel/fs.c:498-507 | Not every change is logged before the buffer is released: a run from boot in which everyone can read the new contents of a block, and then the old ones again, without a crash. |
| `BlockStore.TidyRefines` | kernel/log.c:146-203 | As long as callers log what they change before they release it, recycling a buffer changes nothing, and the header write makes the current contents durable, all of them. |
| `BlockStore.TidyDurable` | kernel/log.c:146-203 | Then what a crash leaves is the contents, as readers saw them, of a moment at which no operation was running, not before the last one at which commit() had written its header. |
| `BlockStore.TidySettled` | kernel/log.c:146-175 | Then, in every state in which no operation is running and end_op() has returned, everything that readers see is durable: what an operation did survives any later crash once the last end_op() of its group has returned. |
| `BufferRings.BinitOk` | kernel/bio.c:39-58 | After binit() every buffer is in the ring of bucket 0, last one first, and the other rings are empty and well formed. |
| `BufferRings.UnlinkRings` | kernel/bio.c:103-104 | Taking a buffer out by its two neighbours leaves all 53 rings well formed, without that buffer and otherwise unchanged. |
| `BufferRings.PushRings` | kernel/bio.c:106-109 | Linking a buffer that is in no ring behind a head keeps every ring well formed and puts it first in its own. |
| `BufferRings.RelinkRings` | kernel/bio.c:160-165 | Moving a buffer to the front of its own ring keeps every other order and every other ring. |
| `BufferCache.StepKeeps` | kernel/bio.c:69-185 | Every atomic step of every thread in bget, brelse, bpin or bunpin keeps the whole invariant: rings, places, bucket locks, sleep locks, reference counts and uniqueness. |
| `BufferCache.ExactlyOnePlace` | kernel/bio.c:69-169 | In every reachable state of every interleaving each buffer is in the one ring of its own bucket or in transit inside exactly one bget, never both. |
| `BufferCache.CacheSafety` | kernel/bio.c:147-185 | In every reachable state no two buffers hold the same block of a device from 1 on, a locked buffer has one holder and still is the block asked for, and the bucket index that brelse, bpin and bunpin read without a lock is still right, with a count to decrement, when they get the lock. |
| `BufferCache.HeldUntilRelse` | kernel/bio.c:66-172 | What bget() returned stays so until brelse(): from the step in which the thread gets the sleep lock it has that buffer, and the buffer is the block that it asked for. |
| `BufferCache.RecyclesOnlyFree` | kernel/bio.c:91-118 | What bget recycles is referenced by no thread, pinned by no transaction, and the block it becomes was cached nowhere. |
| `BufferPanic.PassedBusy` | kernel/bio.c:91-118 | In every interleaving each bucket that the search of a bget() has passed had all its buffers referenced at some moment of that call. |
| `BufferPanic.PanicsOnlyBusy` | kernel/bio.c:91-119 | bget() panics only if every bucket but its own had all its buffers referenced, each at some moment between the call and the panic. |
| `BufferCache.NotCached` | kernel/bio.c:69-118 | While a bget holds its own bucket and searches the others, no buffer anywhere gets the block it wants. |
| `BufferCode.Cache.constructor` | kernel/bio.c:39-58 | The linking loop of binit() builds the rings of BinitOk, all buffers (0, 0) and unreferenced. |
| `BufferCode.Cache.Lookup` | kernel/bio.c:73-87 | Finds the block in its bucket if and only if some buffer anywhere holds it. |
| `BufferCode.Cache.FindVictim` | kernel/bio.c:94-116 | The least recently used unreferenced buffer of one bucket, or proof that all of it is referenced. |
| `BufferCode.Cache.Bget` | kernel/bio.c:69-120 | Fails exactly when the block is not cached and every buffer outside its bucket is referenced; a hit adds one reference and moves nothing; a miss takes the last unreferenced buffer of the first bucket after its own that has one, renames it and puts it first in the block's ring, the other rings unchanged. |
| `BufferCode.Cache.StealOne` | kernel/bio.c:91-118 | The search over the other buckets, from the next one on and round, finds the first of them with a victim. |
| `BufferCode.Cache.Recycle` | kernel/bio.c:99-109 | The victim leaves its old ring and is first in the new one, with one reference; the rings stay well formed. |
| `BufferCode.Cache.Brelse` | kernel/bio.c:147-169 | One reference less; the last one moves the buffer to the front of its ring and touches no other. |
| `SleepWakeup.StepKeeps` | kernel/proc.c:528-573 | Every step of sleep(), wakeup(), kill(), the scheduler and the sleep-lock code, in any interleaving, keeps the invariant that a sleeper on a true condition is still ahead of the waker's scan. |
| `SleepWakeup.NoLostWakeup` | kernel/proc.c:528-573 | In every reachable state, a process that tested the condition false and let go of the lock, while the condition now is true, is one the present holder of the lock will still look at. |
| `SleepWakeup.WakeupWakesAll` | kernel/proc.c:559-573 | A wakeup that has finished, its lock still held, leaves nobody asleep on the channel: who waited there is runnable. |
| `SleepWakeup.WakeupFinishes` | kernel/proc.c:560-573 | wakeup() comes to an end: as many looks as it has taken, so far has it come in the process table. |
| `SleepWakeup.SleepsUntilWoken` | kernel/proc.c:529-597 | A sleeping process goes on sleeping until a wakeup of its channel looks at it, or it is killed, and then it does not. |
| `SleepWakeup.SleepReturns` | kernel/proc.c:529-557 | sleep() returns with the lock: as long as the process has been in sleep() since the call, it still is, or it holds the spin lock again. |
| `SleepWakeup.ChanCleared` | kernel/proc.c:529-557 | chan names the channel exactly while the process is between marking itself asleep and tidying up, and is null otherwise. |
| `SleepWakeup.LockTravels` | kernel/proc.c:529-557 | p->lock goes from sleep() to the scheduler, which releases it, and comes back with the process, which releases it in its turn. |
| `SleepWakeup.SleepLockExclusive` | kernel/sleeplock.c:21-41 | In every reachable state a sleep lock has at most one holder, and its locked flag is set while it has one. |
| `SleepWakeup.TakenInTurn` | kernel/sleeplock.c:22-41 | Between two acquisitions of a sleep lock its first holder has released it. |
| `ProcLife.StepKeeps` | kernel/proc.c:272-573 | Every step of fork, exit, reparent, wait, sleep, yield, wakeup and of the scheduler on every CPU keeps the process-table invariant. |
| `ProcLife.RunningIffCurrent` | kernel/proc.c:438-492 | In every run, while p->lock is free p is RUNNING exactly when some CPU has it as current; no process is ever current on two CPUs. |
| `ProcLife.ParentsAlive` | kernel/proc.c:272-379 | In every run every parent pointer names a process that is neither unused nor a zombie. |
| `ProcFamily.Parentage` | kernel/proc.c:273-337 | Over every run: a forked process has no parent until its fork() sets one; then its parent is the process that forked it, until that one exits and its reparent() comes to it; then it is init; nothing else changes it while the process lives. |
| `ProcFamily.HasParent` | kernel/proc.c:273-337 | A process past its fork() is always the child of the process that forked it, or of init. |
| `ProcFamily.ReapedByParent` | kernel/proc.c:384-430 | A forked process disappears only through wait(), and the caller is the process that forked it, or init if that one has exited. |
| `ProcFamily.ScanEnds` | kernel/proc.c:384-425 | When the scan of wait() ends, it has seen a child exactly if the caller has one, and none of the children has exited: -1 for want of children is returned only to a process that has none. |
| `ProcFamily.NoSleepOverZombie` | kernel/proc.c:324-430 | No process sleeps in wait() while one of its children is a zombie: exit() and reparent() wake it before they let go of wait_lock. |
| `ProcLife.ReapsEachZombieOnce` | kernel/proc.c:384-428 | What wait() frees is a zombie child of the caller that no CPU still runs on and that is nobody's parent; its pid was never freed before, and it is the only one freed. |
| `ProcLife.ZombieIsQuiet` | kernel/proc.c:340-379 | A zombie whose lock is free is off every CPU, has no children and has not been reaped. |
| `Kalloc.FailsIffEmpty` | kernel/kalloc.c:72-100 | A kalloc() finds a list to take from if and only if some list has a page. |
| `Kalloc.TakeConserves` | kernel/kalloc.c:72-100 | A page taken leaves the lists as a whole, alone, and no page is on two lists. |
| `Kalloc.GiveConserves` | kernel/kalloc.c:47-67 | A page given back is on the lists once, with all the others. |
| `Kalloc.Kmem.Kfree` | kernel/kalloc.c:47-67 | The page is overwritten with the junk byte 1 and is in front of the linked list of the running CPU; the set of free pages grows by it, and no other page changes. |
| `Kalloc.Kmem.Pop` | kernel/kalloc.c:78-100 | The first page leaves the named list, the links of the other pages untouched. |
| `Kalloc.Kmem.Kalloc` | kernel/kalloc.c:72-108 | 0 exactly when no CPU has a free page; otherwise the first page of the own list if it has one, and only if not, of the first other list that has one; only that page leaves, and only it is overwritten, with the junk byte 5. |
| `Kalloc.Kmem.FreeRange` | kernel/kalloc.c:35-41 | By byte addresses: exactly the whole pages that lie in the range become free, each once, unaligned ends left out. |
| `KallocRuns.StepKeeps` | kernel/kalloc.c:47-108 | Every locked step of kalloc() with stealing and of kfree() on any CPU, and every step that moves a page into or out of one of the page tables, keeps each page in exactly one place. |
| `KallocRuns.PagesConserved` | kernel/kalloc.c:47-108 | In every interleaving of any number of threads and page tables no page is lost, duplicated or invented: each is on exactly one CPU's list, or a table page of exactly one page table, or mapped at exactly one page number of exactly one page table, or in exactly one thread's hands. |
| `KallocRuns.PassedEmpty` | kernel/kalloc.c:72-100 | While a kalloc() is under way, every list that its search has passed was empty at some moment since the call began. |
| `KallocRuns.FailsOnlyEmpty` | kernel/kalloc.c:72-108 | A kalloc() that fails found every list empty, its own and each other, at some moment between the start and the end of that call. |
| `Sv39.EntryRoundTrip` | kernel/riscv.h:341-352 | Packing an address and flags into a page-table entry and unpacking them gives the same. |
| `Mmu.EncodeSpells` | kernel/riscv.h:341-352 | The packed word has the layout that the hardware reads: V, R, W, X and U in bits 0 to 4, zeros up to bit 9, the page number above. |
| `Mmu.IndexOf` | kernel/riscv.h:355-357 | The index that walk() takes at each level is the nine bits of the address that the hardware takes. |
| `Sv39.ReadsWrite` | kernel/vm.c:80-98 | Writing the entry that walk() finds changes the finite map at that page number only, and keeps the three-level tree. |
| `Sv39.ReadsLink` | kernel/vm.c:86-95 | Linking a cleared page-table page in changes nothing in the map: an allocating walk only adds to the tree. |
| `Sv39.LinkTree` | kernel/vm.c:86-95 | A page linked into an empty entry of an upper level gives a tree again: every page reached over one path. |
| `Sv39.PruneTree` | kernel/vm.c:266-282 | Clearing an upper entry takes off exactly the page-table pages below it. |
| `Sv39.DescendReaches` | kernel/vm.c:80-98 | Every page-table page of the tree is the one that walk() reaches for the addresses at its position. |
| `Spaces.OnePlace` | kernel/vm.c:80-292 | Over one memory, the free lists and any number of page tables: each page is in exactly one place, and its place says free, table page of one table, or leaf of one table at one page number exactly when it is that. |
| `Spaces.OwnedOnce` | kernel/vm.c:165-187 | A page that a table owns is mapped there once, and in no other table, neither as a leaf nor as a table page. |
| `Spaces.LinkStep` | kernel/vm.c:86-95 | Linking a cleared loose page into one table keeps every table a tree that reads as before, and every page in its place. |
| `Spaces.WriteStep` | kernel/vm.c:137-187 | Writing a leaf entry of one table changes that table's map at one page number; every other table and every other page keeps its place. |
| `Spaces.DropStep` | kernel/vm.c:286-292 | A table that maps nothing can be dropped: its table pages are then in no table. |
| `Spaces.CreateStep` | kernel/vm.c:191-200 | A cleared loose page is a table that maps nothing, next to all the others. |
| `Vm.EntryStored` | kernel/riscv.h:341-352 | Storing the encoded word of an entry in memory is storing the entry in the table it stands for. |
| `Vm.EntryLoaded` | kernel/riscv.h:341-352 | Loading a word from a table page and decoding it gives the entry that the table stands for. |
| `Vm.HardwareReads` | kernel/vm.c:64-88 | The translation that the hardware makes from nothing but the words in memory, for every address of a page: it ends at the entry that the map has for the page, with that page number and those rights, and faults where the map has none, also beyond MAXVA. |
| `Vm.Machine.Translates` | kernel/vm.c:64-88 | So after every operation: each table, read by the hardware, is the map that the operation speaks about. |
| `Vm.Machine.constructor` | kernel/vm.c:80-98 | Before the first table, all pages are on the free lists or held elsewhere. |
| `Vm.Machine.LoadPte` | kernel/vm.c:80-98 | The decoded word of memory is the entry of the table. |
| `Vm.Machine.StoreWord` | kernel/vm.c:137-187 | Writing the encoded word changes that one entry of the table and no other memory. |
| `Vm.Machine.Find` | kernel/vm.c:80-98 | The non-allocating loop of walk(), reading words from memory, follows the path to the leaf table, or stops exactly where it ends. |
| `Vm.Machine.AddTable` | kernel/vm.c:86-95 | A page from the free lists becomes a table page of this table; fails exactly with the free lists empty, and then changes nothing. |
| `Vm.Machine.Walk` | kernel/vm.c:80-98 | The allocating walk() reaches the leaf table, adding exactly the missing table pages of the path; it fails only if there are fewer free pages than missing ones; the map is the same either way and every other table untouched. |
| `Ranges.PathsAt` | kernel/vm.c:80-98 | The table pages that a range of page numbers needs are those on the path of some number in it. |
| `Ranges.MapRangeAt` | kernel/vm.c:137-160 | What a mapped range means, page by page: the named pages and no others change. |
| `Ranges.UnmapRangeAt` | kernel/vm.c:165-187 | What an unmapped range means: the named pages and no others leave the map. |
| `Vm.Machine.MapPages` | kernel/vm.c:146-159 | The map gains exactly the first k pages asked for, and all of them if and only if the free pages suffice for the missing table pages; the hardware translates those k pages to the physical pages asked for, with the rights asked for. |
| `Vm.Machine.Mappages` | kernel/vm.c:137-160 | By bytes: every page that the range touches, unaligned ends included, is mapped to consecutive physical pages; it fails if and only if the free pages are fewer than the table pages that the range lacks, and then a prefix is mapped. |
| `Vm.Machine.UnmapOne` | kernel/vm.c:174-186 | One page leaves the map; with do_free its physical page is free again. |
| `Vm.Machine.Uvmunmap` | kernel/vm.c:165-187 | Exactly the named pages leave the map, and the hardware faults on them; with do_free exactly their physical pages come back to the free lists, without it they are in the caller's hands. |
| `Vm.Machine.GrowOne` | kernel/vm.c:230-242 | A new page, filled, mapped and owned by the table; fails only if there are too few pages for it and the table pages it lacks, and then the page is free again. |
| `Vm.Machine.GrowPages` | kernel/vm.c:230-242 | Zeroed pages of the table's own from the old end on; it stops short only if the free pages are fewer than the whole growth needs. |
| `Ranges.TookUndo` | kernel/vm.c:232-241 | Growing and giving the new pages back leaves nothing taken but table pages. |
| `Ranges.FreshUndo` | kernel/vm.c:232-241 | Unmapping exactly the pages that were added gives back the old map. |
| `Vm.Machine.UndoGrowth` | kernel/vm.c:232-241 | The error branch gives back every leaf page it took and restores the old map. |
| `Vm.Machine.Uvmalloc` | kernel/vm.c:220-244 | Succeeds if and only if the free pages are at least the new pages plus the table pages they lack. Success: zeroed pages of the table's own up to the new size, taken from the free lists. Failure: the old map, every leaf page given back, at most table pages kept. Other tables never change. |
| `Vm.Machine.Uvmdealloc` | kernel/vm.c:250-262 | Exactly the pages above the new size leave the map and are free again; growing is refused without a change. |
| `Vm.Machine.CopyPages` | kernel/vm.c:308-322 | Page by page, a copy of the parent's contents and flags in pages of the child's own; it stops short only if the free pages are fewer than the whole copy needs. |
| `Vm.Machine.Uvmcopy` | kernel/vm.c:300-328 | Succeeds if and only if the free pages are at least the parent's pages plus the table pages that the child lacks; then the child has the same contents and flags in pages of its own. On failure it has its old map with every leaf page given back. The parent and every other table never change. |
| `Vm.Machine.Uvmclear` | kernel/vm.c:332-341 | One page loses user access, in the word that the hardware reads too; no page moves, every other mapping and all contents stay. |
| `Vm.Machine.Uvmcreate` | kernel/vm.c:191-200 | A table that maps nothing, in a page that was free; 0 exactly when no page is free. |
| `Vm.Machine.Freewalk` | kernel/vm.c:266-282 | Given no leaves, frees the page and every table page below it, each once, and touches nothing else. |
| `Vm.Machine.Uvmfree` | kernel/vm.c:286-292 | The whole address space comes back: a page is free afterwards exactly if it was free, a table page or a leaf of this table; no page of another table moves. |
| `UserCopy.Walkaddr` | kernel/vm.c:103-121 | The physical page of a user address, or 0 if it is unmapped, closed to the user or out of range. |
| `UserCopy.Copyout` | kernel/vm.c:346-366 | Succeeds if and only if the whole range is open to the user; the bytes land at their translated addresses; on failure exactly those before the first closed page have. |
| `UserCopy.Copyin` | kernel/vm.c:371-391 | Succeeds if and only if the whole range is open to the user, with the bytes found there; on failure exactly the bytes before the first closed page have been moved. |
| `UserCopy.WrittenAt` | kernel/vm.c:346-366 | With injective leaves, the bytes of the range hold the source and every other user byte is as before. |
| `UserCopy.ChunkWritten` | kernel/vm.c:351-365 | Copying by page-sized chunks is copying byte by byte. |
| `UserCopy.CopyRoundTrip` | kernel/vm.c:346-391 | copyout() then copyin() of the same range gives the same bytes, over any number of page boundaries. |
| `UserCopy.UserByte` | kernel/vm.c:104-120 | The bytes that copyin() and copyout() touch are those that user code has at these addresses: where the hardware translates an address for the user, it is to that page and that byte, and what it does not open to the user they refuse. |
| `UserCopy.OwnedInjective` | kernel/vm.c:346-391 | If the pages open to the user are the table's own, no physical page is open at two addresses: what the round trip needs. |
| `Fs.AllocOwned` | kernel/fs.c:64-86 | A free block belongs to nobody; taking it keeps the bitmap equal to metadata plus owned blocks plus the ones in hand. |
| `Fs.InodeLayout` | kernel/fs.h:27-39 | The blocks of a file on disk: twelve named in the inode, the others in order by the words of the block that its thirteenth address names. |
| `Fs.FreeOwned` | kernel/fs.c:89-103 | A block in hand is marked in use, so bfree() cannot meet a free one; freeing it keeps the bitmap exact. |
| `Fs.AttachOwned` | kernel/fs.c:377-405 | A fresh block put in an empty slot is owned by that slot and no other. |
| `Fs.AttachBytes` | kernel/fs.c:377-405 | A cleared block in an empty slot changes no byte of any file. |
| `Fs.WriteBytes` | kernel/fs.c:486-517 | Writing one block of a file changes the bytes at its offsets in that file and no byte of any other. |
| `Fs.DetachOwned` | kernel/fs.c:409-437 | Taking an inode apart makes exactly its own blocks ownerless. |
| `Fs.SplicedContent` | kernel/fs.c:486-517 | What the write loop leaves, with the new size, is the old content with the source spliced in. |
| `Fs.SplicedOther` | kernel/fs.c:486-517 | No other file's content changes. |
| `FsRoom.FilledMore` | kernel/fs.c:377-405 | Filling slots one part after the other takes from the free blocks exactly one for each slot that was empty. |
| `FsRoom.FilledShort` | kernel/fs.c:377-405 | A range that is short of blocks after a part has been filled was short from the start. |
| `FsCode.FileSystem.Balloc` | kernel/fs.c:64-86 | The first free block: non-zero, marked, zeroed and owned by nobody; 0 (the panic) exactly when all bits are set. At most its bitmap block and itself are logged. |
| `FsCode.FileSystem.Bfree` | kernel/fs.c:89-103 | The one bit is cleared, and had been set. |
| `FsCode.FileSystem.Iupdate` | kernel/fs.c:221-237 | The on-disk inode becomes the in-memory one; only its inode block is logged. |
| `FsCode.FileSystem.AllocInto` | kernel/fs.c:384-398 | A block allocated into an empty slot of an inode or of its indirect block: no file's bytes change, exactly that slot is filled; fails only with no block free. |
| `FsCode.FileSystem.SlotBlock` | kernel/fs.c:377-399 | The block of one slot, untouched if there is one, otherwise allocated; fails exactly when the slot is empty and no block is free. |
| `FsCode.FileSystem.Bmap` | kernel/fs.c:377-405 | The block of the file block, with exactly the missing slots filled by newly allocated blocks, bytes of all files unchanged; it panics exactly when it lacks more blocks (data and indirect) than are free. |
| `FsCode.FileSystem.TruncDirect` | kernel/fs.c:416-421 | Exactly the direct blocks are freed and their slots emptied. |
| `FsCode.FileSystem.TruncEntries` | kernel/fs.c:423-430 | Exactly the blocks in the indirect block are freed. |
| `FsCode.FileSystem.Itrunc` | kernel/fs.c:409-437 | A bit is set afterwards exactly if it was set and the block was not the inode's: every block of the inode, the indirect one included, is freed once and no other is. |
| `FsCode.FileSystem.StoreChunk` | kernel/fs.c:498-505 | Only the copied range of the one block changes. |
| `FsCode.FileSystem.WriteBlocks` | kernel/fs.c:497-506 | Every readable byte of the source is stored, whole pieces are counted, no hole appears, every block that changed is logged except the one at which the copy failed, all within the tally of logged blocks; it panics exactly when the blocks it looks at lack more blocks than are free. |
| `FsCode.FileSystem.Writei` | kernel/fs.c:486-517 | Refuses exactly the ranges that start past the end, overflow or exceed the largest file. Otherwise panics if and only if the file blocks it looks at, and the indirect block if needed, lack more blocks than are free; else the readable bytes are spliced in at off, the size and the result count whole pieces only, no hole, other files unchanged, every changed block logged except the one at which a copy failed; at most MAXOPBLOCKS blocks logged for a chunk of filewrite(). |
| `FsCode.FailingCopy` | kernel/fs.c:497-506 | The result does not bound what was written: 100 bytes of which 50 are readable, at the start of a file, give result 0 and overwrite the first 50 bytes. |
| `FsCode.ReportedIff` | kernel/fs.c:486-517 | A write changes the reported bytes and no others if and only if the bytes it stored beyond them, below the old size, are equal to those of the file. |
| `FsCode.ReportedAlways` | kernel/fs.c:486-517 | That holds for all source bytes if and only if everything is readable, or the readable part ends at a block boundary, or the unreported part lies past the end of the file. |
| `FsCode.FileSystem.Readi` | kernel/fs.c:455-477 | content[off .. min(off + n, size)], nothing past the end; -1 if the user buffer is too short, which then holds what fits; nothing is allocated or logged. |
| `FsCode.FileSystem.Filewrite` | kernel/file.c:148-175 | The chunks together are one splice of the readable bytes of the chunks that fit; the offset moves by the whole chunks and what writei() counts of the next one; the result is n if and only if all of it fits and is readable; no chunk logs more than MAXOPBLOCKS blocks; it panics if and only if the blocks that its chunks look at (up to the first that exceeds the largest file or the first unreadable byte) lack more blocks than are free. |
| `FsCode.TallyAdd` | kernel/fs.c:377-405 | One more block of a write adds at most its data block and the bitmap blocks it needed, and the indirect block once. |
| `FsCode.Budget` | kernel/file.c:149-174 | At most 4 data, 4 bitmap, 1 indirect and 1 inode block: a chunk stays within MAXOPBLOCKS however many bitmap blocks there are. |
| `FsCode.SpliceTwice` | kernel/file.c:155-174 | Two splices in a row are one splice of the concatenation. |
| `Names.ElementsAreComponents` | kernel/fs.c:599-622 | The elements that skipelem() yields are the non-empty parts of the path between slashes, cut to DIRSIZ. |
| `Names.Skipelem` | kernel/fs.c:599-622 | The pointer loops of skipelem() yield the next element and the start of the one after it, or nothing at the end. |
| `Names.FindStep` | kernel/fs.c:628-661 | Folding lookup over the components goes on exactly through directories that have the name, and the parent form stops one short. |
| `Names.Tree.Namex` | kernel/fs.c:628-661 | The result is the fold of directory lookup over the components from root or cwd, the parent form giving the last name; exactly one reference to the result is added, and none on failure. |
| `Names.EntriesFound` | kernel/fs.c:529-553 | The first used entry with a name is what the directory map says. |
| `Names.EntriesMissing` | kernel/fs.c:529-553 | A name in no used entry is not in the directory map. |
| `Names.EntriesPut` | kernel/fs.c:556-583 | A new entry in a free place or at the end adds one name to the map and changes no other. |
| `Names.Directory.Lookup` | kernel/fs.c:529-553 | The inode number that the map gives the name cut to DIRSIZ, with the offset of the first entry that holds it, or nothing exactly when the map lacks it. |
| `Names.Directory.Link` | kernel/fs.c:556-583 | Refuses exactly the names that are there; otherwise the map gains the one name, in the first free entry, or at the end if no entry is free, and no other entry changes. |
| `Virtio.StepKeeps` | kernel/virtio_disk.c:144-315 | Every step of the driver's threads, the device and the interrupt handler keeps the invariant of descriptors, chains, rings and counters; filling a chain, writing its ring entry and bumping the index are three steps, between which the device runs on. |
| `Virtio.Partition` | kernel/virtio_disk.c:144-280 | In every run each of the NUM descriptors is free or in exactly one chain of three, and the counts add up. |
| `Virtio.NoOverwrite` | kernel/virtio_disk.c:259-315 | In every run a ring entry that the other side has not consumed is not overwritten, also when the 16-bit indices wrap. |
| `Virtio.PublishAvail` | kernel/virtio_disk.c:255-266 | The entry is in the ring before the index covers it: when the index is bumped every entry below it heads a published chain. |
| `Virtio.FetchPosted` | kernel/virtio_disk.c:255-266 | Whenever the index is ahead of the device, the entry that the device reads heads the oldest request not yet fetched, all filled in. |
| `Virtio.FetchReady` | kernel/virtio_disk.c:255-266 | Whenever the index is ahead of the device, the device can take a chain. |
| `Virtio.CompletesOnce` | kernel/virtio_disk.c:259-315 | In every run no request is completed twice by the device. |
| `Virtio.FinishesOnce` | kernel/virtio_disk.c:271-280 | In every run a request is finished by its thread once only, after the device completed it. |
| `Virtio.FinishFrees` | kernel/virtio_disk.c:157-185 | The chain of a request in flight is well linked and none of its descriptors is free, so free_desc() cannot panic. |
| `Virtio.SignalUsed` | kernel/virtio_disk.c:282-315 | What the interrupt handler finds in the used ring is a completed request of the driver, status 0, with the right buffer. |
| `Virtio.CompleteServes` | kernel/virtio_disk.c:223-260 | The device moves the data of the buffer and sector that the request named, in the named direction, and no other. |
| `Virtio.StepData` | kernel/virtio_disk.c:223-280 | While a request is in flight, its own completion is the one step that can change its buffer, and moves the data in the direction that the request names. |
| `Virtio.Transfer` | kernel/virtio_disk.c:223-280 | In every run the buffer of a request holds what it held at the submission until the one completion of the request, and from there on, for a read, what the sector held at the completion. |
| `Virtio.FinishServes` | kernel/virtio_disk.c:203-280 | From submission to return, in every run: a read ends with the buffer holding what its sector held at the completion of that request; a write has given its sector, at the completion, what the buffer held at the submission. |
| `Virtio.FewInFlight` | kernel/virtio_disk.c:189-201 | At most two chains are in flight, so neither ring can fill. |
| `Virtio.DeviceReady` | kernel/virtio_disk.c:223-260 | The device can always carry out a chain it has fetched: header, data and status are where the driver put them. |
| `VirtioCode.Table.constructor` | kernel/virtio_disk.c:136-138 | All descriptors are free. |
| `VirtioCode.Table.AllocDesc` | kernel/virtio_disk.c:144-154 | The first free descriptor, now taken; -1 exactly when there is none. |
| `VirtioCode.Table.FreeDesc` | kernel/virtio_disk.c:157-170 | The descriptor is free and cleared, no other changes. |
| `VirtioCode.Table.Alloc3Desc` | kernel/virtio_disk.c:189-201 | The first three free descriptors, or -1 with the free table exactly as before. |
| `VirtioCode.Table.FreeChain` | kernel/virtio_disk.c:173-185 | Following next, exactly the descriptors of the chain are freed and cleared. |
| `Pipe.Tests` | kernel/pipe.c:91-116 | The full and empty tests on 32-bit counters mean what they say, also after the counters wrap. |
| `Pipe.StepKeeps` | kernel/pipe.c:58-133 | Every step of any reader, writer, dup or close keeps the ring equal to the bytes sent and not taken. |
| `Pipe.PipeFifo` | kernel/pipe.c:79-133 | In every interleaving the bytes taken are, in order, a prefix of the bytes put in, with at most PIPESIZE outstanding. |
| `Pipe.Accounts` | kernel/file.c:48-84 | Over every run the reference count of an end is its first descriptor, and those duplicated, less those closed; its users are those who have called and not returned; the bytes sent are the bytes written, in order. |
| `Pipe.ClosedEnds` | kernel/pipe.c:59-76 | Once the read end is closed, or nobody has the write end, no byte is sent any more; once nobody has the read end none is taken. |
| `Pipe.FreedOnce` | kernel/pipe.c:58-77 | In every run the page is freed at most once, exactly when both ends are closed, and nobody uses it afterwards. |
| `PipeCode.Ring.constructor` | kernel/pipe.c:33-37 | An empty ring, both ends open. |
| `PipeCode.Ring.Write` | kernel/pipe.c:79-106 | Up to its next sleep, pipewrite() appends consecutive source bytes in order; it fails if and only if the read end is closed or the process killed, before the first byte; it sleeps if and only if bytes are left and the ring is full; it ends otherwise, when all is written or the source unreadable. |
| `PipeCode.Ring.Read` | kernel/pipe.c:123-132 | The oldest bytes in order: as many as the least of those asked for, storable and present; one byte more is consumed, and lost, exactly if it was asked for and present and could not be stored. |
| `Umalloc.FreeListed` | user/umalloc.c:24-44 | Freeing a block keeps the list one address-ordered cycle of disjoint blocks that never touch, with all units accounted for. |
| `Umalloc.InsertChain` | user/umalloc.c:33-43 | The pointer writes of free(), with any combination of merges, give the cycle of the new list. |
| `Umalloc.StopsAtPlace` | user/umalloc.c:30-32 | The search of free(), from any start, stops at the one place in address order where the block belongs. |
| `Umalloc.TakeWhole` | user/umalloc.c:76-77 | A block that fits exactly leaves the list and is handed out whole. |
| `Umalloc.TakeTail` | user/umalloc.c:78-82 | A larger block gives up its tail; every unit keeps exactly one owner. |
| `Umalloc.GrantListed` | user/umalloc.c:46-61 | Memory from sbrk() joins as one block, disjoint from all others. |
| `Umalloc.FreeAround` | user/umalloc.c:33-43 | free() changes no block but the one that holds the freed units afterwards. |
| `Umalloc.LiveDisjoint` | user/umalloc.c:63-90 | Any two blocks handed out are disjoint and lie in memory that sbrk() granted. |
| `UmallocCode.AskExact` | user/umalloc.c:46-56 | The request reaches sbrk() with its full size if and only if it is below 2^27 units. |
| `UmallocCode.AskTruncated` | user/umalloc.c:46-56 | A request for almost 4 GB asks sbrk() for one header only: the size does not survive the int parameter. |
| `UmallocCode.OverrunsIff` | user/umalloc.c:46-56 | A block cut off the end of the memory that morecore() claims reaches beyond what sbrk() granted if and only if 2^27 units or more were asked for. |
| `UmallocCode.BytesApart` | user/umalloc.c:63-90 | The bytes asked for, behind the header of the block handed out, lie in no other block that is in use, nor in its header. |
| `UmallocCode.Heap.constructor` | user/umalloc.c:21-22 | A program starts with no list and nothing handed out. |
| `UmallocCode.Heap.FindPlace` | user/umalloc.c:24-32 | The loop terminates, at the header after which the block belongs. |
| `UmallocCode.Heap.Free` | user/umalloc.c:24-44 | The block is no longer live, all units are kept, the list invariant holds, and freep or its successor now has room for it. |
| `UmallocCode.Heap.Morecore` | user/umalloc.c:46-61 | Without memory nothing changes and the result is 0; otherwise the granted units join the list where the search will meet them next. |
| `UmallocCode.Heap.Take` | user/umalloc.c:75-85 | The block found is handed out, whole or by its tail, and the list stays valid. |
| `UmallocCode.Heap.Start` | user/umalloc.c:70-73 | The degenerate list of the first call; a no-op afterwards. |
| `UmallocCode.Heap.Malloc` | user/umalloc.c:63-90 | For requests of every size: terminates, also when morecore() merges into the predecessor; 0 if and only if nothing fits and sbrk() fails; otherwise a new block with room for the bytes behind its header and no unit more, whose bytes no other live block shares, asking sbrk() only if nothing fits; and where memory was granted, the block overruns it if and only if 2^27 units or more were asked for. |
| `Shell.RoundTrip` | user/sh.c:327-446 | Parsing the fully parenthesised text of any command tree with valid words and fewer than MAXARGS arguments gives back that tree. |
| `Shell.LineBack` | user/sh.c:344-372 | The same inside a line, for every kind of command and at every position. |
| `Shell.ParenBack` | user/sh.c:399-413 | A parenthesised block parses to its command and ends behind its closing parenthesis. |
| `Shell.ArgsBack` | user/sh.c:415-446 | The words of a command are read one by one, each with its own span. |
| `Shell.WordsBack` | user/sh.c:265-308 | The spans of the parsed tree, cut out of the text, are the words. |
| `Shell.LineSpanned` | user/sh.c:344-359 | For every text, every string of a parsed line is a maximal token of it. |
| `Shell.EndsDelimit` | user/sh.c:449-493 | Every position that nulterminate() writes is a delimiter or the end of the text. |
| `Shell.TerminatedKeepsWord` | user/sh.c:449-493 | No written position lies inside any token, so every string still equals its token. |
| `Shell.NulTerminate` | user/sh.c:449-493 | NUL at the end position of every string of the tree, and nowhere else. |
| `Shell.ParseAndTerminate` | user/sh.c:327-342 | After parsing and terminating, every string of the tree is its token followed by NUL. |
| `ShellGrammar.ParsesIffDerives` | user/sh.c:327-342 | The parser gives a text a tree if and only if the characters of the text make the tokens that the grammar (words, redirections, parentheses, pipes, background marks and lists) derives with that tree, with any white space around them: it accepts exactly the sentences, and each has one tree. |
| `ShellGrammar.LineParsed` | user/sh.c:344-359 | Every derivation of a line is found by parseline(), up to the same place of the text. |
| `ShellGrammar.LineDerived` | user/sh.c:344-359 | Whatever parseline() reads is derived by the grammar from exactly the characters it consumed. |
| `ShellGrammar.PipeParsed` | user/sh.c:361-372 | Every derivation of a pipeline is found by parsepipe(), grouped to the right. |
| `ShellGrammar.PipeDerived` | user/sh.c:361-372 | Whatever parsepipe() reads is a pipeline of the grammar. |
| `ShellGrammar.ExecParsed` | user/sh.c:399-446 | Every simple command with redirections among its arguments, and every parenthesised block with redirections behind it, is found. |
| `ShellGrammar.ExecDerived` | user/sh.c:399-446 | Whatever parseexec() or parseblock() reads is such a command or block, with fewer than MAXARGS arguments. |
| `ShellGrammar.ApplyWraps` | user/sh.c:374-397 | Redirections wrap a command in their order, the last one outermost. |
| `ShellSpacing.SpacedRoundTrip` | user/sh.c:262-446 | A text that is the tokens of a printed command, with any spaces, tabs, carriage returns, line feeds and vertical tabs before, between and after them, parses to that command. |
| `ShellTokens.GetTokenLexed` | user/sh.c:262-308 | gettoken() finds the token that the characters make: what stands between the white space, the symbols by their characters, a word as long as neither comes. |
| `ShellTokens.LexedOnce` | user/sh.c:262-308 | The characters make no other token there. |
| `ShellTokens.EveryText` | user/sh.c:262-308 | Every text is some sequence of tokens with white space around them. |
| `ShellCode.Gettoken` | user/sh.c:265-308 | The loops over the text yield the token that its characters make, with its span and the next position behind white space, and always stop. |
| `ShellCode.Parseredirs` | user/sh.c:374-397 | The loop wraps the redirections found around the command, first innermost, failing exactly when a file name is missing. |
| `ShellCode.Parseexec` | user/sh.c:415-446 | The loop of parseexec() computes the grammar's simple command, failing exactly on a missing name, a wrong token or too many arguments. |
| `ShellCode.Parseline` | user/sh.c:344-359 | The loop over background marks and the recursion over ; terminate and read what ParseLine does, which is what the grammar derives (LineParsed, LineDerived). |
| `ShellCode.Parsecmd` | user/sh.c:327-342 | The one tree that the grammar gives the whole text, or an error exactly when it gives none, with every string terminated in place. |
| `Grep.Match` | user/grep.c:70-80 | 1 exactly when the declared meaning of the pattern (^ only in front, $ only at the end, . and c*) holds at some place of the text. |
| `Grep.Matchhere` | user/grep.c:83-94 | The recursion terminates on pattern and text and answers the matching function at that place. |
| `Grep.Matchstar` | user/grep.c:97-104 | The loop tries every number of repetitions, fewest first, and terminates. |
| `Grep.HereMeans` | user/grep.c:83-94 | The matching function agrees with the declared meaning, at every place of every text, both ways. |
| `Grep.HereStar` | user/grep.c:97-104 | c* matches exactly a run of instances of c followed by a match of the rest. |
| `Grep.StarMeans` | user/grep.c:97-104 | What matchstar finds is a run of instances after which the rest matches. |
| `Grep.StarFinds` | user/grep.c:97-104 | Every such run is found. |

## Left out

- Deadlock freedom and liveness of bget and kalloc: both take further locks in no global order while they hold one, so only safety holds.
- BufferCode.Cache.Bget: one thread at a time, with the locks free when asked for (the interleavings are in BufferCache), and blockno + 1 does not wrap at 32 bits.
- BufferCache.CacheSafety: uniqueness is for devices from 1 on, because all buffers start as block 0 of device 0.
- KallocRuns.FailsOnlyEmpty: the moments at which the lists were empty differ from list to list; at no single moment need all be empty, since only one or two locks are held at a time.
- Vm.Machine.Uvmunmap: clears the entry before it frees the page, the other way round than the code; no other thread sees the page table in between.
- Vm.Machine.Mappages: a remap, an empty range and addresses from MAXVA on, where the code panics, are excluded; 64-bit overflow of addresses is then impossible. Pages that are mapped must be held by the caller or lie outside the allocator's memory.
- Sv39.EntryRoundTrip: entries are packed into unbounded words; page numbers of real memory fit in the 44 bits that the entry has for them.
- Vm.HardwareReads: the accessed and dirty bits, caching of translations and the bits of an address above bit 38 are not modelled.
- Page-table operations run one at a time in Vm; the free lists shared by concurrent operations are in KallocRuns, whose page-table steps move pages between hands and tables and are not tied to the steps of Vm.Machine.
- uvminit, kvmmap, copyinstr, trampoline mappings and the kernel's own page table: they would only add easy members.
- UserCopy.CopyRoundTrip: needs that no physical page is open to the user at two addresses, which UserCopy.OwnedInjective gives, and addresses that do not wrap at 64 bits.
- FsCode.FileSystem.Writei: of the state after a panic nothing is claimed, since the kernel stops; no holes below the size is assumed of the file before the call; the blocks are the current contents, as readers see them, and what becomes of an unlogged one is in BlockStore.
- FsCode.FileSystem.Filewrite: the pipe and device branches of filewrite() are not in this method.
- FsCode.FileSystem.Balloc: the bitmap is a sequence of bits, not the bytes of bitmap blocks; the inode table likewise is a sequence of inodes.
- Inode table (iget, iput, ilock, ialloc), freeing of unlinked inodes and link counts: entries can be made in a directory that is already unlinked, so the count invariant needs restrictions the code does not state.
- Names.Tree.Namex: the directories do not change during the walk, though the kernel locks them only one at a time.
- Names.Directory.Link: entries are records; a short write of the new entry panics in the code and does not occur here; inode numbers are those a 16-bit field holds.
- fsinit, readsb and mkfs: reading and building the superblock.
- SleepWakeup.NoLostWakeup: interrupts and the nesting count of spin locks are not modelled; a spin lock is one atomic step.
- ProcLife.StepKeeps: file descriptors, working directory, memory and exit status of a process are not part of the state.
- Virtio.StepKeeps: filling in a chain that the device cannot see yet is one step, and so is the device's completion of a chain; feature negotiation, reordering that the memory fences rule out and device errors (a non-zero status panics in the code) are not modelled; b->disk is the set of busy buffers; the sector of a request is what the caller says, not computed from the block number.
- Pipe.StepKeeps: one byte per step; the sleeping and waking around the ring is that of SleepWakeup.
- PipeCode.Ring.Read: starts where piperead() no longer has to wait; a kill during the wait returns -1 without touching the ring.
- UmallocCode.Heap.Malloc: programs do not overwrite the headers, and the units that a call claims are not in use, as they are not while sbrk() grants what is asked for; that a negative int shrinks the heap is not modelled beyond granting nothing.
- ShellCode.Parsecmd: an error is None, without the message that panic() prints; runcmd and getcmd are not modelled, nor the memory that the tree is built in.
- Grep.Match: texts and patterns without NUL; the line buffer of grep() is not modelled.
- Assembly, traps, console, UART, PLIC, printf, lock statistics, string functions, ELF loading, system-call argument fetching, the other user programs and the host tools.
