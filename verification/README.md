# A verified model of a small RISC-V kernel

This project models the parts of the kernel where an error would be hard to see, and proves what they
are there for. There are four cores.

**Virtual memory over an intrusive page allocator.** Memory is an array of frames of 512 words. The
free list is threaded through the first words of the free frames; page tables are frames whose words
are Sv39 entries (`ppn * 1024 + flags`). `PhysMem` holds that memory and runs the kernel's loops on it.
Beside the memory stands a ghost map that gives every managed frame one role: free, held by a caller,
trapframe of a slot, table at one place of one tree, or leaf owned by one page of one root. The
invariant `Wf` ties that map to the words in memory in both directions, so a frame cannot be in two
places. `Lookup` reads the words themselves, and everything said about translations is said about
`Lookup`; `AgreesWithSv39` proves that it is what the translation algorithm of the RISC-V Privileged
Architecture v1.12 (section 4.3.2 with the Sv39 parameters of section 4.4) makes of the same words.
On top of it come fork, exec with its argument stack, process teardown, and the whole life of a
process. `AddressSpaces.Run` puts it together: any run of calls on any number of page tables acts on
finite maps from page to entry, and every frame has exactly one role throughout
(`AddressSpaces.OneRole`). The allocator itself is also modelled load by load, with switches between
(`AllocatorRace`).

**Buffer cache.** `BCache` is the circular list through a sentinel, relinked in place; its methods are
proved against operations on a plain sequence of buffers (`CacheModel`), and runs of those against a
flat map from block to bytes. All buffers start with the same key, so plain key uniqueness is false;
the invariant says that only the first buffer with a key may be valid or in use.

**Scheduler, locks and interrupts.** A machine of small steps: every acquire, release, `swtch`,
`intr_on` and `intr_off` is a step of its own, and a timer or console interrupt may arrive at any
state in user mode, or in the kernel whenever interrupts are on. A context is a stack of frames, so
that handlers run on top of the code they interrupt and may yield from there. Theorems are about every
sequence of actions from boot.

**Rings and parsers.** The pipe is a machine in which one writer and one reader take turns, since the
source takes no lock there; a step touches at most one thing that the other side moves, a counter or a
byte. The console ring, the shell's tokenizer and echo are imperative.

A panic of the memory code is excluded by a precondition that the callers are proved to meet; a panic of
`acquire`, `release`, `pop_off` and `bget` is an outcome (`None`, `null`), and the first three are
proved unreachable.

The files: `Words`, `PageTables`, `Translation`, `Sv39` (memory and its meaning); `Changes`, `Fork`,
`Places`, `Teardown`, `UserBytes` (what operations change); `PhysMem` (the operations);
`AddressSpaces` (runs); `AllocRace` (the allocator under preemption);
`Space`, `ProcMemory`, `KFork`, `ExecLayout`, `Exec`, `SysExec`, `Ownership`, `Access` (processes);
`CacheModel`, `CacheUsers`, `CacheWrites`, `BufferCache`; `SpinLock`, `Scheduler`, `Lifecycle`,
`TrapReturn`; `Pipe`, `PipeProgress`, `Console`, `Shell`.

Where a comment in the source and its code differ, the code is followed: the process table has the 4
slots of `kernel/include/param.h:5`, not the 64 a comment names (and the scheduler is proved for any
number), and `allocproc` returns with the lock of the slot still held.

## Facts that are not obvious

- The page allocator has no lock. With interrupts off around every call no frame is handed out twice, and
  after a single call that leaves them on one can be (`AllocatorRace.ExactlyWhenOff`, `AllocatorRace.HandedTwice`). fork and wait call it
  with a lock held; exec and pipe do not, and they run with interrupts on
  (`Scheduler.ForkAndWaitCareful`, `Scheduler.ExecOpen`). The results on memory in the other modules
  take each call of the allocator as one step, so they hold of exec only where no switch falls into
  one.
- A kernel interrupt handler restores sepc and sstatus by two stores. After a yield interrupts can be on there
  (`Scheduler.HandlerOpen`), and an interrupt between the stores overwrites sepc, so that the handler returns
  into its own code (`TrapReturn.ReturnsExactlyWhenOff`).
- `allocproc` needs five frames and gives none back when it fails: with one to three free frames those are
  lost, and with four it returns a process whose kernel stack is physical page 0, because the result of the
  last `kalloc` is not looked at (`ProcessMemory.Proc.AllocProc`, `Ownership.Life`).
- A failed `uvmcopy` keeps the tables it allocated on the way, and nothing else: every translation of
  every root is as before (`PhysicalMemory.PhysMem.Uvmcopy`, `Fork.CopyUndo`). A failed `mappages` also
  keeps the pages it had mapped; the callers here ask for one page.
- A kernel stack never needs a new table, because its page shares the level-0 table built for the
  trampoline (`ProcessMemory.Proc.NewStack`).
- exec subtracts string lengths from an unsigned `sp`. A subtraction that wraps lands above the largest
  virtual address, where `copyout` refuses it, so the check `sp < up->size` need not catch it
  (`ExecLayout.NextSp`, `ExecLayout.LastSp`): the arguments are accepted exactly when they fit in unbounded
  arithmetic (`ExecLayout.ArgsFit`, `Exec.KExec`).
- A failed exec gives back the old program only when it fails early: argv unreadable, no such program or one
  of more than a page, or no frame for the argument buffer or the new page. With arguments that do not fit, or
  no frame for a table, it returns -1 to a process whose pages are gone (`SystemExec.SysExec`).
- Whoever is the last user of a buffer must have written its bytes: otherwise some legal run reads the old
  block back, in every cache (`CacheWrites.LeaveExactly`).
- A pipe read of more than 512 bytes never returns while the write end is open, and nothing in the source
  closes it; any shorter one still can (`PipeProgress.ReadCanReturn`).

## Model

| member | source | states |
|---|---|---|
| PhysicalMemory.PhysMem.constructor | kernel/mm/kalloc.c:41-51 | every whole frame from the page-rounded end to the top of memory, and no other, is managed and free |
| PhysicalMemory.PhysMem.Kfree | kernel/mm/kalloc.c:67-88 | the frame becomes the head of the list threaded through the frames; the invariant holds on |
| PhysicalMemory.PhysMem.Kalloc | kernel/mm/kalloc.c:100-116 | 0 exactly when no frame is free, and then nothing changed; else the list head, zeroed, free before and held by the caller now |
| Ownership.FreeListEnds | kernel/mm/kalloc.c:19-51 | following the next pointers in memory from any point of the free list passes the rest of it once and ends at 0: no circle |
| PhysicalMemory.PhysMem.Walk | kernel/mm/vm.c:43-89 | finds the level-0 table of the page; without alloc changes nothing and fails exactly when a table is missing; with alloc fails exactly when more tables are missing than frames free, takes exactly the missing ones, and changes no translation of any root, also on failure |
| PhysicalMemory.PhysMem.Mappages | kernel/mm/vm.c:121-155 | success exactly when there are as many free frames as the whole range lacks tables; takes just those, or all there are; the pages mapped are the longest prefix whose tables can be had, they translate to consecutive frames with the permissions, and all other pages of all roots as before |
| Places.RangeStep | kernel/mm/vm.c:132-153 | mapping one more page of a range takes one frame for each table that no earlier page has brought |
| Places.RangeFails | kernel/mm/vm.c:135-136 | the first page whose walk fails is the first at which the tables lacking for the pages so far outnumber the free frames |
| PhysicalMemory.PhysMem.Uvmunmap | kernel/mm/uvm.c:49-73 | the pages of the range translate to nothing, all other pages of all roots as before; the frames those pages owned are exactly the ones that become free with do_free and that are left to the caller without |
| Translation.LookupKept | kernel/mm/vm.c:43-89 | nothing but the table frames of a root decides its translations |
| Translation.NodeUnique | kernel/mm/vm.c:66-83 | two level-0 tables for one place of one tree are the same frame |
| Sv39.AgreesWithSv39 | kernel/mm/vm.c:43-89 | the hardware algorithm on the words in memory grants or faults exactly as the kernel's own lookup and the entry's flags say; no superpage is ever met |
| Sv39.GrantsByBits | kernel/mm/vm.c:43-89 | the same by the bits of the entry: what is granted for load, store and fetch, to user and kernel, as the numbers 1, 2, 4, 8 and 16 in the entry say |
| Sv39.EntryGrants | kernel/include/riscv.h:12-16 | entries with the flag numbers 31, 7 and 11 grant everything to user mode only, loads and stores to the kernel only, and loads and fetches to the kernel only |
| Access.BeyondSize | kernel/proc/proc.c:127-136 | above the size of a process user mode reaches nothing; the trapframe page is there for loads and stores of the kernel, the trampoline for its loads and fetches |
| Access.NewImageAccess | kernel/proc/proc.c:403-416 | behind exec user mode may load, store and fetch in page 0, which is a frame that was free |
| Access.LoadIsCopyin | kernel/mm/vm.c:91-108 | where the hardware grants user mode a load, copyin takes the byte at that physical address; it takes others only from pages without the read flag |
| Access.StoreIsCopyout | kernel/mm/vm.c:268-296 | where the hardware grants user mode a store, copyout may write to that physical address, and nowhere else but in pages without the read flag |
| AddressSpaces.Do | kernel/mm/uvm.c:7-73 | each legal call on any of several page tables acts as insert, delete, copy, create, lookup or drop on finite maps; the frames held are exactly those said to be, every frame handed out was free, a call does all that was asked exactly when the frames it needs are free, mappages maps the longest prefix it has tables for, walk finds the entry of the map, and the free frames afterwards are counted exactly |
| AddressSpaces.Run | kernel/mm/vm.c:43-155 | after any run of create, map, unmap, copy, walk, drop, kalloc and kfree, up to the first call that would panic, every table in memory translates as the finite map the calls describe, for every page, and every call on the way had the outcome and the number of free frames stated for `Do` |
| AddressSpaces.TreeCounted | kernel/mm/vm.c:224-240 | dropping a space makes as many frames free as it has tables |
| AddressSpaces.OneRole | kernel/mm/kalloc.c:41-116 | after any such run every frame is exactly one of: on the free list, reached in memory as a table of a space, owned by a page of a space, held by a caller |
| AddressSpaces.TableRole | kernel/mm/vm.c:66-83 | the frames that memory leads to from the roots are exactly the tables |
| AddressSpaces.EmptyIsFree | kernel/mm/kalloc.c:41-51 | no space and nothing held, as after kinit or at the end of a run that gave everything back, is the same as every frame on the free list |
| AddressSpaces.HardwareAgrees | kernel/mm/vm.c:43-89 | after such a run the Sv39 algorithm gives for any address and access what the finite map gives |
| AddressSpaces.OwnedOnce | kernel/mm/kalloc.c:67-116 | after such a run a frame owned by one page is owned by no other page of any table, is not held by a caller and not free |
| Ownership.TableOnce | kernel/mm/vm.c:66-83 | a table of any level, the root included, that memory leads to is at one place of one tree only, and not free |
| Ownership.LeafOnce | kernel/mm/uvm.c:20-73 | a frame owned by a mapped page is owned by that page only, is not free, and no path from any root leads to it as a table |
| PhysicalMemory.PhysMem.Uvmcreate | kernel/mm/uvm.c:7-16 | an empty tree rooted at a frame that was free, or 0 exactly when there is none |
| PhysicalMemory.PhysMem.Uvmcopy | kernel/mm/uvm.c:20-46 | success exactly when there are as many free frames as mapped pages below sz and tables the child lacks for them, and then just those are taken and every page has in the child the same flags and contents in a frame of its own; failure: no translation of any root changed and every frame taken is free again or a table of the child |
| Places.GrownMissing | kernel/mm/vm.c:43-89 | what a walk that allocates leaves missing for every other page of every root |
| Places.CountStep | kernel/mm/uvm.c:26-40 | copying a page takes one frame for it and one for each table that no earlier page has brought |
| Places.ReachedTables | kernel/mm/vm.c:43-89 | the frames reached in memory from a root, at any level, are exactly its tables |
| Fork.CopyStep | kernel/mm/uvm.c:26-40 | one more page copied extends the copied range by exactly that page |
| Fork.CopyUndo | kernel/mm/uvm.c:43-45 | unmapping the copied range with do_free undoes the copy up to table frames |
| KernelFork.ForkedBytes | kernel/mm/uvm.c:20-46 | after a copy the child reads byte for byte what the parent read |
| KernelFork.ForkIsolates | kernel/mm/vm.c:268-296 | after a copy no write through one space changes a byte of the other |
| KernelFork.KFork | kernel/proc/proc.c:312-349 | success exactly when the frames the copy needs are free; then the child reads the parent's bytes, its pages have the parent's flags, and it starts with the parent's 36 saved words but a0, word 14, which is 0; every other process is undisturbed |
| PhysicalMemory.PhysMem.Walkaddr | kernel/mm/vm.c:91-108 | the frame of a mapped user page, 0 for any other address, at any size of address |
| PhysicalMemory.PhysMem.Copyin | kernel/mm/vm.c:245-266 | returns exactly the bytes before the first address that is not the user's; success exactly when that is all of them |
| PhysicalMemory.PhysMem.Copyout | kernel/mm/vm.c:268-296 | writes exactly the bytes before the first address the user may not write; no other byte of any space changes |
| PhysicalMemory.PhysMem.Copyinstr | kernel/mm/vm.c:298-334 | success exactly with a string whose NUL comes within the limit and within readable memory; else the limit or an unreadable byte came first |
| UserBytes.PokedWrote | kernel/mm/vm.c:286-289 | storing into the frame of a user page is a write to a flat byte space, because frames are not shared |
| UserBytes.WriteThenRead | kernel/mm/vm.c:245-296 | what copyout stored, copyin of the same range gives back |
| PhysicalMemory.PhysMem.Freewalk | kernel/mm/vm.c:224-240 | on a tree without leaves it ends, never meets its panic, and frees the table and all tables below it, each once, and nothing else |
| PhysicalMemory.PhysMem.FreeTree | kernel/mm/vm.c:224-240 | after freewalk of a root exactly its tables are free and no other root translates differently |
| Teardown.ChildTorn | kernel/mm/vm.c:231-235 | freeing the child under an entry and clearing the entry is one more entry dealt with, and no frame is freed twice |
| ProcessMemory.Proc.AllocProc | kernel/proc/proc.c:97-166 | a sound process exactly when at least five frames are free: trapframe, tree with the two fixed pages and kernel stack, all of them free before; nothing changes exactly when none is free; with one to three the call fails and keeps them, with four it reports success and the kernel stack is page 0; no frame in use changes owner and every other process is undisturbed |
| ProcessMemory.Proc.NewStack | kernel/proc/proc.c:146-150 | mapping the kernel stack takes one frame and no table; only that frame changes owner; without a free frame page 0 is mapped, and no owner changes |
| ProcessMemory.StacksApart | kernel/include/memlayout.h:45 | between any two kernel stacks, and between them and the trampoline, lies a page that is no stack |
| ProcessMemory.Proc.UnmapAll | kernel/proc/proc.c:172-177 | the three unmaps of freeproc leave no page of the space mapped, which is what freewalk needs |
| ProcessMemory.Proc.FreeProc | kernel/proc/proc.c:168-187 | exactly the frames of the process become free; every other process is undisturbed |
| ProcessMemory.LifeConserves | kernel/proc/proc.c:97-187 | taking the frames of a process and releasing them gives back the owners there were before |
| Ownership.AccountKept | kernel/proc/proc.c:377-454 | work on the space of a process, such as fork and exec, keeps the account of what it took |
| Ownership.Life | kernel/proc/proc.c:97-187 | allocproc, fork, any execs that succeed or fail, freeproc: every frame ends with the role it began with exactly when no frame or at least five were free, and the parent is undisturbed in any case |
| ExecLayout.StackedBelow | kernel/proc/proc.c:420-439 | the strings exec stacks are pairwise disjoint and end within the page |
| ExecLayout.NextSp | kernel/proc/proc.c:428-434 | the next string either fits below the last, 8-aligned, or its address wrapped out of the virtual space |
| ExecLayout.LastSp | kernel/proc/proc.c:440-446 | the pointer array either fits below the strings, 16-aligned, or its address wrapped out of the virtual space |
| ExecLayout.FitsByLengths | kernel/proc/proc.c:420-446 | the arguments fit exactly when a 16-aligned pointer array and the strings, each rounded up to eight bytes, have room between the code and the end of the page |
| ExecLayout.ImageMore | kernel/proc/proc.c:428-436 | one more string leaves the code and the strings before it readable as they were |
| Exec.PushStrings | kernel/proc/proc.c:420-439 | success exactly when there are at most MAXARG strings and the last of them ends up above the code; then user mode reads the code and every string of argv, stacked disjointly |
| Exec.ImageArgs | kernel/proc/proc.c:439-446 | from the pointer array user mode reads every argument back, then a null pointer |
| Exec.KExec | kernel/proc/proc.c:377-454 | success exactly when there is such a program of at most a page, its arguments fit, and there are frames for its page, the old pages counted in; then code, strings and 16-aligned pointer array are laid out in the new page, words 15 and 6 of the trapframe, a1 and sp, point at the array, word 3, epc, is 0, all others are kept; nothing at all changes exactly when the program is missing or too large or no frame is free, and else the old image is gone, in success and failure |
| SystemExec.FetchArg | kernel/syscall/sysproc.c:84-92 | success exactly when all bytes of the pointer are readable and it is null or a string of less than MAXPATH readable bytes is behind it; then these are what is returned |
| SystemExec.SysExec | kernel/syscall/sysproc.c:67-102 | success exactly when argv can be read through the old address space, with its null pointer among the first MAXARG, and exec can go through; then the strings read there are those found through a1 in the new one; the argument buffer goes back, so only frames of the process are touched. A call that fails because argv cannot be read, the program is missing or too large, or less than two frames are free leaves every owner, the free list, every frame in use, every byte and every translation as they were; in any other call the old image is gone; no failure touches the trapframe |
| BufferCache.Unlink | kernel/fs/bio.c:168-169 | two pointer writes take the buffer out of the circle; next and prev stay inverse |
| BufferCache.PushFront | kernel/fs/bio.c:170-173 | four pointer writes put it behind the sentinel; next and prev stay inverse |
| BufferCache.BCache.constructor | kernel/fs/bio.c:52-71 | one circle of sentinel and n buffers, all with key (0, 0), none valid |
| BufferCache.BCache.Bget | kernel/fs/bio.c:84-114 | the first buffer with the key gains a user, else the last free one is taken over, else panic, exactly when every buffer is in use |
| BufferCache.BCache.Bread | kernel/fs/bio.c:119-136 | as bget, and a buffer that is not valid is filled from its disk block |
| BufferCache.BCache.Bwrite | kernel/fs/bio.c:141-148 | the disk block of the buffer's key gets its bytes, nothing else changes |
| BufferCache.BCache.Brelse | kernel/fs/bio.c:158-175 | one user less; at zero the buffer is first in the list, the others in their order |
| CacheModel.InitInv | kernel/fs/bio.c:52-71 | the state after binit meets the invariant in spite of equal keys |
| CacheModel.ReadInv | kernel/fs/bio.c:84-136 | bread keeps: one live buffer per key, clean valid buffers equal the disk, free buffers in order of release |
| CacheModel.ReleaseInv | kernel/fs/bio.c:158-175 | so does brelse, when the last user leaves the buffer written |
| CacheModel.LiveIsFound | kernel/fs/bio.c:88-93 | a valid or referenced buffer is the one bget finds for its key |
| CacheModel.VictimIsOldest | kernel/fs/bio.c:96-111 | the buffer bget takes over was released before every other free one |
| CacheModel.RunRefinesFlat | kernel/fs/bio.c:84-175 | over any legal run bread hands out the bytes a flat map from block to bytes would |
| CacheModel.CacheIsDisk | kernel/fs/bio.c:52-175 | the same from binit on, for any number of buffers and any disk |
| CacheModel.IdleIsDurable | kernel/fs/bio.c:141-175 | when no buffer is in use the disk holds every change |
| CacheWrites.UnwrittenIsLost | kernel/fs/bio.c:84-175 | in any cache, when the last user of any buffer leaves it, some legal reads and releases hand out the block as it is on disk; the device numbers they need are at most one more than there are buffers |
| CacheWrites.LeaveExactly | kernel/fs/bio.c:84-175 | after the last user of a buffer has left it, the cache hands out in every legal run on 32-bit device and block numbers what a flat disk would, exactly when the buffer's bytes are those on disk |
| BufferCache.BCache.Serve | kernel/fs/bio.c:84-175 | in one call a buffer in use keeps its block, and its count goes up and down with the reads and releases of that block only |
| BufferCache.BCache.ServeAll | kernel/fs/bio.c:84-175 | any legal calls of bread, bwrite and brelse on the linked buffers, one after another, hand out what a flat disk would, and the ring stays one; a buffer handed out stays with its block and counts its users as long as there are any |
| CacheUsers.CountsUsers | kernel/fs/bio.c:84-175 | in every run from binit on the count of a buffer is the number of reads of its block minus that of its releases, and every block with users has a valid buffer |
| CacheUsers.LegalExactly | kernel/fs/bio.c:84-175 | which runs are legal, told by the calls alone: a bread panics exactly when its block has no user and as many blocks as there are buffers have some |
| CacheUsers.LeastRecentGoes | kernel/fs/bio.c:96-111 | a block leaves the cache only for another, without users, when no buffer is unused; and by the calls it is the one left longest ago |
| SpinLocks.BalancedRestores | kernel/proc/spinlock.c:37-54 | k push_off calls and k pop_off calls leave interrupts and depth as they were, and none panics |
| SpinLocks.Hart.PushOff | kernel/proc/spinlock.c:37-43 | interrupts off, one level deeper, the outermost level remembers how they were |
| SpinLocks.Hart.PopOff | kernel/proc/spinlock.c:45-54 | one level up, interrupts on again only at the outermost when they were on |
| SpinLocks.SpinLock.Acquire | kernel/proc/spinlock.c:12-21 | the hart holds the lock and is one level deeper |
| SpinLocks.SpinLock.Release | kernel/proc/spinlock.c:23-31 | the lock is open and the hart one level up |
| Scheduler.StepSafe | kernel/proc/proc.c:204-375 | no step of scheduler, yield, exit, forkret, fork, wait, console read, trap entry and return, timer or console interrupt panics, and each keeps the invariant |
| Scheduler.NoPanic | kernel/proc/spinlock.c:12-54 | in every run from boot no panic of acquire, release or pop_off is reached, noff counts the locks held, interrupts are on only when it is 0, and at most one slot runs and is c->proc |
| Scheduler.HandOff | kernel/proc/proc.c:204-268 | every swtch is made holding exactly the lock of the process it leaves or enters, with interrupts shut out, and the other side's first step releases that same lock |
| Scheduler.TickYield | kernel/trap/trap.c:59-68 | at the tenth tick of a running process the handler calls yield and counts anew |
| Lifecycle.TicksCount | kernel/trap/trap.c:59-68 | in every run the count is the starting count and the ticks handled, modulo 10, and when the ticks come in processes the handlers yield once for every ten |
| Lifecycle.TenTicks | kernel/trap/trap.c:59-68 | so from boot on, and of any ten ticks in processes one after another exactly one yields |
| Lifecycle.TimerServed | kernel/trap/trap.c:59-68 | a timer interrupt in the kernel counts a tick and leaves the interrupted code, the slots and the hart as they were |
| Lifecycle.UserServed | kernel/trap/trap.c:59-68 | a timer interrupt in user mode comes back to user mode with the tick counted |
| Lifecycle.KeyServed | kernel/trap/trap.c:100-119 | a key press leaves the interrupted code and the slots as they were |
| Scheduler.LifeStep | kernel/proc/proc.c:97-375 | the only status changes, and the code that makes them: only the scheduler takes a slot out of READY, only the parent's wait frees a zombie, holding its lock, when its own code stands behind its last swtch |
| Scheduler.ZombieRunsOnlyWhenNew | kernel/proc/proc.c:351-375 | in any run, a zombie slot that runs again was first freed by its parent's wait and then allocated anew |
| Scheduler.ForkAndWaitCareful | kernel/proc/proc.c:97-187 | fork and wait call the page allocator with a lock held, hence with interrupts shut out |
| Scheduler.ExecOpen | kernel/trap/trap.c:159-175 | a run from boot reaches a system call with interrupts on and no lock held, as exec and pipe call the allocator |
| Scheduler.HandlerOpen | kernel/trap/trap.c:59-68 | for any number of slots a run from boot comes to the end of a kernel interrupt handler with interrupts on: it yielded, and the release behind the switch turned them on |
| TrapReturn.ReturnsExactlyWhenOff | kernel/trap/trap.c:70-138 | a handler that is about to store sepc, and every other, returns to the code it interrupted, in every run in which all others store it with interrupts off, exactly when interrupts are off at that store |
| TrapReturn.CarefulStep | kernel/trap/trap.c:136-137 | with interrupts off at that store no step makes a handler return elsewhere, and none on its way back is interrupted |
| TrapReturn.SavedStep | kernel/trap/trap.c:71-72 | then what each handler saved is where the code under it stands |
| AllocatorRace.ExactlyWhenOff | kernel/mm/kalloc.c:67-116 | no frame is ever handed out while it is held, in every run of any processes, exactly when interrupts are off around every kalloc and every kfree |
| AllocatorRace.CarefulStep | kernel/mm/kalloc.c:67-116 | with interrupts off around them each load and store keeps list, frames under way and frames held apart |
| AllocatorRace.AllocWhole | kernel/mm/kalloc.c:100-116 | a whole kalloc with interrupts off takes the head of the list and hands it to the caller, and changes nothing when the list is empty |
| AllocatorRace.FreeWhole | kernel/mm/kalloc.c:67-88 | a whole kfree with interrupts off puts the frame at the head |
| AllocatorRace.HandedTwice | kernel/mm/kalloc.c:110-113 | from any sound state with a free frame, a kalloc with interrupts on can be switched away from behind its load of the head; two processes then hold the frame, and the list head is whatever the other one wrote |
| AllocatorRace.FreedIntoUse | kernel/mm/kalloc.c:84-87 | the same for a kfree with interrupts on |
| Scheduler.BoundedBypass | kernel/proc/proc.c:210-234 | in any run, if q is ready when p is dispatched, q is dispatched before p is dispatched again |
| Scheduler.WaitGivesUp | kernel/proc/proc.c:351-375 | in any run, interrupted as it may be, kwait gives up at the end of a scan exactly when no slot has the caller as its parent, and scans again otherwise |
| Lifecycle.NotPassed | kernel/proc/proc.c:357-370 | in any run, interrupted as it may be, a kwait does not come past a dead child: it frees that slot or a dead child's before it, and returns at once |
| Lifecycle.WaitFindsDead | kernel/proc/proc.c:351-375 | in any run from boot a scan that begins with a dead child, and is not disturbed, frees the first one and returns with no lock held and all else as it was |
| Lifecycle.WaitCall | kernel/proc/proc.c:351-375 | the same for the whole system call, from slot 0 on |
| Lifecycle.ForkCall | kernel/proc/proc.c:312-349 | the whole call of fork, undisturbed and with memory there: the first free slot of all is a ready child of the caller, at the start of its first run, no lock is held and all else is as it was |
| Lifecycle.ForkFails | kernel/proc/proc.c:120-125 | without a frame for the trapframe the slot is free again and all is as it was |
| Lifecycle.ForkFull | kernel/proc/proc.c:102-108 | with every slot taken all is as it was |
| Lifecycle.ScanGives | kernel/proc/proc.c:210-234 | an undisturbed scan of the scheduler hands the hart to the first ready process it comes to |
| Lifecycle.Leaves | kernel/proc/proc.c:242-256 | two steps into yield the process is ready, and into exit a zombie, and the scheduler goes on behind its swtch |
| Lifecycle.Resumes | kernel/proc/proc.c:260-268 | a child that runs for the first time comes to user mode, and a process that yielded back to its caller, without a lock |
| Lifecycle.CallReturns | kernel/trap/trap.c:159-175 | a system call that ends comes back to user mode with interrupts on and no lock held |
| Pipes.Fifo | kernel/fs/pipe.c:47-116 | in any interleaving the counters differ by the number of unread bytes, at most 512, past any overflow, and the bytes delivered are a prefix of those published |
| Pipes.StepInv | kernel/fs/pipe.c:47-116 | every single step of either side keeps that, and only appends to the two histories |
| Pipes.PokeInv | kernel/fs/pipe.c:67-73 | a byte written ahead of the counter overwrites no unread byte |
| Pipes.WriteReturns | kernel/fs/pipe.c:47-80 | a write of n bytes that returns n has published exactly those; a refused one nothing; after a copy failure a prefix is published |
| Pipes.WriteRefused | kernel/fs/pipe.c:56-63 | a write is refused, with -1, exactly when n is negative or more than the ring has room for |
| Pipes.ReadReturns | kernel/fs/pipe.c:82-116 | a read that returns n has delivered the next n bytes of the stream, all that were asked for while the write end is open; every byte went to a mapped place, and -1 means a negative length or an unmapped place |
| Pipes.ReadPuts | kernel/fs/pipe.c:100-112 | in a piece each step puts the next byte of the stream in the next place, or returns -1 exactly when that place is not mapped |
| Pipes.LongReadWaits | kernel/fs/pipe.c:93-97 | a read of more than 512 bytes never returns while the write end is open, whatever the writer does |
| PipeProgress.ReadCanReturn | kernel/fs/pipe.c:82-116 | from any reachable state, while the write end is open, a waiting read of n bytes into mapped memory can still return n exactly when n is at most 512 |
| PipeProgress.ReadOccurs | kernel/fs/pipe.c:82-97 | a waiting read of any length does occur |
| PipeProgress.ReadTakes | kernel/fs/pipe.c:82-116 | an undisturbed read returns the oldest unread bytes: all it asked for, or with the write end closed all there are when these are fewer |
| PipeProgress.WriteTakes | kernel/fs/pipe.c:47-80 | an undisturbed write of no more than there is room for puts all its bytes at the end of the stream and returns their number |
| Consoles.Console.Intr | kernel/driver/console.c:223-241 | with fewer than 128 bytes unread key 13 adds the byte 10 and any other key that is not negative its low byte; a negative or a full ring changes nothing; nothing read is disturbed |
| Consoles.Console.Take | kernel/driver/console.c:257-264 | the oldest unread byte, past counter overflow, or none exactly when all are read |
| Consoles.Console.Read | kernel/driver/console.c:244-275 | with any arrivals between its critical sections the call returns what the queue model gives, and has consumed exactly that: at most len and at most 128 bytes, which end at the first newline, and that many unless they end so |
| Consoles.Session | kernel/driver/console.c:223-275 | over any interrupts and reads from consoleinit on, what the reads got, one after another, is a prefix of what was stored, and at most 128 bytes are still to be read |
| Consoles.StopsAtLine | kernel/driver/console.c:256-269 | the loop ends exactly at its first newline or at the clamped length |
| Consoles.EnterEndsLine | kernel/driver/console.c:223-275 | Enter, typed behind fewer other keys than the call has room for, ends it: it returns the bytes unread before, those keys, and 10 |
| Consoles.DrainsInOrder | kernel/driver/console.c:256-269 | the bytes unread when the call began come out first, in order, and none is lost |
| Consoles.ArrivesKept | kernel/driver/console.c:230-238 | a burst of keys appends exactly those that fit, in order |
| Consoles.NoneDropped | kernel/driver/console.c:230-238 | with room for all of them every key is kept |
| Shell.ParseCmd | user/sh.c:52-79 | argv holds the starts of the first maxarg - 1 words of the text and then null; each is a C string equal to its word when the call ends; only spaces, tabs, newlines and carriage returns were overwritten |
| Shell.RunsAreStarts | user/sh.c:55-71 | those starts with their ends are exactly the maximal runs of the text without space, tab, newline and carriage return |
| Shell.CutWord | user/sh.c:63-75 | the NUL behind a word damages no earlier word |
| Shell.Echo | user/echo.c:3-13 | echo puts out its words with one space between them and a newline |
| Shell.EchoParses | user/sh.c:52-79 | the words of what echo put out are the words it was given, when they are non-empty and without blanks |

## Left out

- KExec: when the old size is 0 and exec fails after its page is mapped, that page stays mapped above the size, so the contract promises a live process then only for a size above 0; userinit, fork and exec never leave a running process with size 0.
- AllocProc: leaves out that the failures behind the trapframe keep the slot allocated, one of them with its lock held (kernel/proc/proc.c:127-135); it is about memory.
- Life: ends a failed fork by freeing the child, where kfork returns with the child's frames still taken (kernel/proc/proc.c:326-329).
- StepSafe: leaves out the same failed copy in kfork, after which the slot would stay allocated, and the failures of allocproc behind the trapframe.
- HandlerOpen: the machine takes the two stores of a handler's return as one step, and so do the other results on it; what an interrupt between them does is the subject of TrapReturn, and NoPanic and its companions hold of runs without one.
- NoPanic: does not say that the interrupt state a lock was taken with comes back across swtch; intena is one per hart and is not saved.
- Do: copies only pages that own their frames, as all user pages do; and the calls run one after another, see Kalloc.
- Kalloc: is one step here, and so is Kfree, though the source takes no lock; what a switch inside a call does to them is the subject of AllocatorRace, and the results on exec assume there is none.
- Bget: counts users without the wrap-around of an unsigned counter.
- LifeStep: the parent is a slot, not a process; that wait returns only true children fails once slots are used again.
- Fifo: one writer and one reader; with more the pipe has no order to keep, since it takes no lock. The machine stands for the loops of pipewrite and piperead, whose steps interleave; no sequential form of them is given.
- Read: the spin on an empty ring ends when the given arrivals end, and is then reported as not done.
- SysExec: the path lookup and the program table become a parameter, and argstr on the path is left out.
- Acquire: one hart, so the spin on a lock held elsewhere does not occur.
- The boot code: kvmininit, the linker's addresses, satp, and the first user program; the models start behind them.
- Hardware: accessed and dirty bits, TLB fences, the UART, the PLIC, the disk queue and the assembly of swtch and the trampoline.
- The file table, whose close is empty, and the read and write dispatch over it (kernel/fs/file.c).
- The file system (kernel/fs/fs.c), which is unfinished.
- printf, printint and the string helpers; memset and memmove are taken by what they do.
