# StartOS in Dafny

StartOS is a small RISC-V kernel with a user shell and C library. This project models the
parts of it whose correctness is not visible from reading one function, and proves what
they keep over every run.

| file | what it models |
|---|---|
| `Riscv.dfy`, `PageTable.dfy`, `VmSpec.dfy`, `VmRuns.dfy`, `VmManager.dfy` | the page pool and the Sv39 page tables: a three-level tree of pages behaves as a flat map from virtual pages to frames and flags, and no operation on one address space is seen in another |
| `Buddy.dfy` | the kernel buddy allocator on top of the page pool |
| `KrMalloc.dfy` | the user `malloc`: a circular, address-ordered, coalescing free list |
| `Fat32.dfy` | cluster chains, the cached cursor of `bmap`, the buffer cache and file data |
| `Transfers.dfy`, `Virtio.dfy` | the block driver, store by store, against a device that acts between any two of its stores and moves data between disk and memory by what it finds in the descriptors |
| `SleepLock.dfy` | sleep locks, `sleep` and `wakeup` with any number of tasks and CPUs |
| `OneHart.dfy`, `OneHartWakeup.dfy`, `OneHartWitness.dfy` | the scheduler on one hart, with interrupts, `wait`, `wait4` and `exit` |
| `Pipe.dfy` | pipes, with their 32-bit counters |
| `ShellGrammar.dfy`, `Shell.dfy` | the shell's scanner, recursive-descent parser and `nulterminate` |
| `Calendar.dfy`, `FatTime.dfy` | `mktime`, weekday, day of the year, and the FAT time stamp codec |
| `DemandLoad.dfy`, `VmLoad.dfy` | loading pages of mapped files on their first fault, over the page tables and frames of `VmManager.dfy` |
| `HashMap.dfy` | the chained hash map and its hash function |
| `Common.dfy`, `Words.dfy` | shared types and constants, and arithmetic modulo 2^64 |

How to read it. Code that changes state is a class whose fields are sequences and maps;
each method's contract ties the new state to the old one, and a `Valid()` predicate over
plain values is kept by all of them. Protocols among several tasks are step functions over
one state, with an invariant kept by every step. A panic of the kernel is a result value,
so that it can be shown when it happens and when it cannot. The lemmas about plain values
come first in each file and the class last. `dafny verify dfyconfig.toml` checks the whole
project.

Properties that turn out not to hold as one would like, each with its exact condition:

- A writer killed, or left without readers, while a pipe is full leaves without waking the
  readers (`Pipe.WriteFairIff`, `Pipe.KilledWriterStrandsReader`, `Pipe.FairRuns`).
- `mktime` multiplies the year by 365 in 32 bits, and is right exactly while that fits
  (`Calendar.MktimeIff`).
- A FAT date with day field 0 is read as the 2nd of the month, because of how the `max`
  macro binds (`FatTime.ZeroDay`).
- `poll` on a key that is not in the hash map removes the last entry of its bucket
  (`HashMap.Map.Poll`, `HashMap.PollTakesOther`).
- An exiting task hands its zombie children to init without waking init. That step, and no
  other, leaves a child behind (`OneHart.StrandedIff`), a run from start-up reaches it
  (`OneHartWitness.InitLeftBehind`), and no child stays behind for a full pass of the scheduler
  (`OneHart.FullPass`, `OneHart.StrandedInPass`).

## Model

| member | source | states |
|---|---|---|
| Riscv.MakePteParts | kernel/include/riscv.hpp:310-326 | An entry made from an address and permissions is valid and gives back the page of the address and the flags; it is a leaf or a user page exactly when the permissions say so |
| Riscv.PxOfPage | kernel/include/riscv.hpp:328-337 | The three table indices of an address below MAXVA are the three digits of its page number in base 512 |
| PageTable.SlotsDistinct | kernel/memory/VmManager.cpp:86-104 | Distinct pages of distinct or equal address spaces never share an entry slot |
| PageTable.Graft | kernel/memory/VmManager.cpp:91-102 | Hanging a zeroed page into an empty upper slot keeps the tables an unshared forest and changes no translation of any address space |
| PageTable.SetLeaf | kernel/memory/VmManager.cpp:106-127 | Storing a bottom entry changes the translation of exactly one page of one address space |
| VmManager.Vm.constructor | kernel/memory/MemAllocator.cpp:10-26 | After start-up every whole page between the two bounds is in the pool, once, and the invariant of all address spaces holds |
| VmManager.Vm.AllocPage | kernel/memory/MemAllocator.cpp:28-44 | Allocation takes the first free page, filled with junk, or fails exactly when the pool is empty; no table changes, and it is a step of the runs below |
| VmManager.Vm.Kfree | kernel/memory/MemAllocator.cpp:46-62 | A page in use goes back to the pool once and no table changes; it panics exactly on an unaligned address or one outside the pool; giving back a page nobody maps is a step of the runs below |
| VmManager.Vm.UserCreate | kernel/memory/VmManager.cpp:265-273 | A new root maps nothing, and every other address space is as before |
| VmManager.Vm.Walk | kernel/memory/VmManager.cpp:86-104 | Walking changes no translation of any space, adds tables only to its own space and only from free pages, panics exactly at MAXVA and above, and finds the slot of the page asked for |
| VmManager.Vm.MapPages | kernel/memory/VmManager.cpp:106-127 | Success maps exactly the pages from that of va to that of va+size-1, to consecutive frames with the given flags; on failure a prefix is mapped, and a panic means a page was mapped before or out of range |
| VmManager.Vm.WalkAddr | kernel/memory/VmManager.cpp:129-147 | The result is the frame of the flat map for user pages and 0 otherwise |
| VmManager.Vm.UserUnmap | kernel/memory/VmManager.cpp:222-250 | Exactly the range is unmapped and, when asked, exactly its frames are freed; it panics exactly when unaligned or over an entry that is no leaf |
| VmManager.Vm.UserDealloc | kernel/memory/VmManager.cpp:252-263 | Shrinking unmaps and frees exactly the pages no longer needed; growing does nothing |
| VmManager.Vm.UserAlloc | kernel/memory/VmManager.cpp:195-220 | All or nothing: success backs the new pages with distinct fresh zeroed frames; failure leaves every translation and data frame as it was, keeps at most new table pages, and comes only with fewer than three free pages for each new page |
| VmSpec.NthPaClosed | kernel/memory/VmManager.cpp:114-125 | Adding the page size n times with 64-bit wrap is one addition |
| VmManager.Vm.FreeWalk | kernel/memory/VmManager.cpp:161-177 | The recursion succeeds exactly when no leaf is left, and then returns exactly the table pages at and below its page, everything else untouched |
| VmSpec.FlatLeafless | kernel/memory/VmManager.cpp:161-177 | The tree holds no leaf if and only if the flat map is empty |
| VmManager.Vm.FreeUserPageTable | kernel/memory/VmManager.cpp:187-193 | It succeeds exactly when nothing is mapped from sz on; frames below sz and all tables are freed, and other spaces keep their translations |
| VmManager.Vm.FreeTaskPagetable | kernel/os/TaskScheduler.cpp:839-844 | Tearing down a task whose leaves are only [0,sz), trampoline and trapframe never meets the leaf panic, and returns each owned frame and table page to the pool once; with any other leaf it panics |
| VmSpec.TearDownDone | kernel/os/TaskScheduler.cpp:839-844 | Unmapping the two top pages, freeing the user range and freeing the tables add up to that accounting |
| VmManager.Vm.FreeTask | kernel/os/TaskScheduler.cpp:846-865 | Freeing the trapframe while it is still mapped and then the address space returns both, and keeps the invariant of all address spaces |
| VmManager.Vm.CopyIn | kernel/memory/VmManager.cpp:294-313 | The bytes returned are the user's bytes from the address on; it fails exactly at the first address that is no user page |
| VmManager.Vm.CopyInStr | kernel/memory/VmManager.cpp:315-351 | Success returns the bytes up to and with the first zero; failure means none among the bytes readable or allowed |
| VmManager.Vm.CopyOut | kernel/memory/VmManager.cpp:353-373 | Exactly the bytes written change, for all address spaces together; it stops exactly at the first address that is no user page |
| VmSpec.ReadBack | kernel/memory/VmManager.cpp:294-373 | Copying in after copying out gives the same bytes, at any address and length |
| VmManager.Vm.UserVmCopy | kernel/memory/VmManager.cpp:375-401 | The child gets the parent's mapped pages, flags and bytes below sz in distinct fresh frames, and nothing else changes; it panics only when a table of the parent is missing, the child has such a page already, or there are fewer than three free pages for each page |
| VmSpec.ForkPrivate | kernel/memory/VmManager.cpp:375-401 | After the copy every user frame still belongs to one page of one space |
| VmSpec.ForkReads | kernel/memory/VmManager.cpp:375-401 | After the copy the child reads what the parent read, and all others what they read before |
| VmRuns.SpacesPrivate | kernel/memory/VmManager.cpp:294-373 | The address-space invariant (mapped entries are leaves; a pool page mapped anywhere is a data frame mapped once) gives every user page a frame of its own, which the copy routines ask for |
| VmRuns.SpacesOwns | kernel/memory/VmManager.cpp:222-263 | The invariant gives what freeing and copying a range below the trampoline ask for |
| VmRuns.MapKeeps | kernel/memory/VmManager.cpp:106-127 | Mapping keeps the invariant when the frames are data frames nobody maps, or the trampoline |
| VmRuns.StepKeeps | kernel/memory/VmManager.cpp:86-401 | Creating, growing, mapping, unmapping, forking, writing, taking and giving back frames and tearing down all keep the invariant |
| VmRuns.RunIsolation | kernel/memory/VmManager.cpp:86-401 | Over any run of these, what a space reads at an address is changed only by operations on that space at that address |
| VmRuns.ForkIsolation | kernel/memory/VmManager.cpp:353-401 | After a fork and any run of operations on any spaces, parent and child each still read the byte of the time of the fork wherever no operation on that same space touched it |
| VmManager.ForkWriteRead | kernel/memory/VmManager.cpp:294-401 | A client of the three contracts: fork, write into the parent, read the child, and get what the parent held |
| Buddy.CalcLevel | kernel/memory/BuddyAllocator.cpp:25-34 | The level is the smallest that holds the size |
| Buddy.SplitOk | kernel/memory/BuddyAllocator.cpp:82-88 | Splitting a block keeps the pages tiled by aligned disjoint blocks without a free pair of buddies |
| Buddy.MergeOk | kernel/memory/BuddyAllocator.cpp:111-130 | Merging a block with its free buddy keeps the same |
| Buddy.BuddyAllocator.Alloc | kernel/memory/BuddyAllocator.cpp:56-96 | The block returned was free or unowned, is of the smallest level that fits, and is the only change to the live blocks; it fails exactly when the page pool is empty and no free block fits |
| Buddy.BuddyAllocator.Free | kernel/memory/BuddyAllocator.cpp:98-132 | Exactly the block freed leaves the live blocks, and the invariant holds again after all merges |
| Buddy.Collapse | kernel/memory/BuddyAllocator.cpp:98-132 | Any aligned region of an owned page without live blocks lies inside one free block |
| Buddy.AllFreed | kernel/memory/BuddyAllocator.cpp:106-110 | Once no block is live, every free list is empty and every page is back in the pool |
| Buddy.Canonical | kernel/memory/BuddyAllocator.cpp:56-132 | The live blocks determine the owned pages and all free blocks: two histories with the same live blocks end in the same heap |
| Buddy.FreeUndoesAlloc | kernel/memory/BuddyAllocator.cpp:56-132 | An allocation followed by its free restores the heap exactly |
| KrMalloc.AbsorbRight | user/malloc.c:32-35 | Joining a freed block with its right neighbour keeps ring, order, sizes, disjointness and cover |
| KrMalloc.TakeTail | user/malloc.c:77-79 | Cutting the tail off a free block keeps the same |
| KrMalloc.FreeDone | user/malloc.c:32-43 | Both join steps together keep the invariant, remove exactly the freed block from the live ones, and leave its units inside one free block |
| KrMalloc.Allocator.FindPlace | user/malloc.c:28-31 | The search ends, and between the two ring neighbours where the block belongs by address |
| KrMalloc.Allocator.Free | user/malloc.c:24-45 | Exactly the block freed leaves the live blocks; the units owned stay the same |
| KrMalloc.Allocator.MoreCore | user/malloc.c:47-61 | Success leaves a free block large enough in the ring, failure changes nothing |
| KrMalloc.FullRound | user/malloc.c:72-87 | A full round of the search that found nothing means no free block fits |
| KrMalloc.Allocator.Malloc | user/malloc.c:63-88 | The search ends, also after new memory; success adds exactly one live block of the rounded size, disjoint from all others; failure changes no block and means that no free block was large enough |
| Fat32.FatFs.AllocCluster | kernel/fs/fat32/fat32_file_system.cpp:377-390 | The first free cluster is marked as an end and zeroed on disk behind the cache, and no file changes |
| Fat32.FatFs.Bmap | kernel/fs/fat32/fat32_file_system.cpp:807-837 | From the cached cursor the result is the k-th cluster of the chain from its start; only this chain grows, and only as far as k; the cursor stays right; no file content changes |
| Fat32.FatFs.AllocBuffer | kernel/fs/buf/BufferLayer.cpp:29-60 | A cached cluster is found, in use or not; otherwise the buffer in no use longest is taken over and invalid; it panics exactly when neither exists |
| Fat32.FatFs.ReadBuf | kernel/fs/buf/BufferLayer.cpp:73-82 | The buffer holds its cached data if it was there, the disk's otherwise |
| Fat32.FatFs.Store | kernel/fs/buf/BufferLayer.cpp:85-89 | Writing through changes one cluster as asked and keeps cache and disk agreeing on every byte inside a file |
| Fat32.WriteContent | kernel/fs/fat32/fat32_file_system.cpp:466-479 | Overwriting part of one cluster of a chain splices the flat content there |
| Fat32.FatFs.ReadInode | kernel/fs/fat32/fat32_file_system.cpp:413-436 | The result is exactly content[off..min(off+n,sz)], and no file changes |
| Fat32.FatFs.WriteInode | kernel/fs/fat32/fat32_file_system.cpp:459-486 | With off <= sz the content becomes content[..off]+data+content[off+n..] and the size the larger of the two; every other file, open or not, keeps size, chain and content; the chain grows exactly as far as the bytes reach, out of free clusters, and the directory entry is stored; otherwise it fails and changes nothing |
| Fat32.ExtendedTwice | kernel/fs/fat32/fat32_file_system.cpp:807-837 | Growing a chain in several calls of bmap is growing it once |
| Fat32.ExtendedConserves | kernel/fs/fat32/fat32_file_system.cpp:807-837 | Growing a chain keeps the number of free clusters plus clusters of files |
| Fat32.CreateConserves | kernel/fs/fat32/fat32_file_system.cpp:377-390 | Making a file keeps that number |
| Fat32.RemoveConserves | kernel/fs/fat32/fat32_file_system.cpp:859-867 | Freeing a file keeps that number |
| Fat32.FatFs.UpdateInode | kernel/fs/fat32/fat32_file_system.cpp:440-457 | The 32 bytes of the directory entry are stored at its place behind the cache, every other byte of the disk stays, and no regular file changes |
| Fat32.FatFs.FreeClusterChain | kernel/fs/fat32/fat32_file_system.cpp:859-867 | Exactly the entries of the chain become free |
| Fat32.FatFs.RemoveFile | kernel/fs/fat32/fat32_file_system.cpp:763-771 | A file that is open is left as it was; freeing the chain of a closed one keeps every invariant, makes exactly its clusters free, and loses none |
| Fat32.FatFs.CreateFile | kernel/fs/fat32/fat32_file_system.cpp:333-337 | A file set up with a fresh cluster has a valid cursor and no content, and no other file changes |
| Fat32.FatFs.constructor | kernel/fs/buf/BufferLayer.cpp:18-25 | Mounting a disk whose files have chains of their own, with empty buffers, establishes the invariant |
| Fat32.FatFs.BuildInode | kernel/fs/fat32/fat32_file_system.cpp:320-361 | An existing file is opened with its cursor on its first cluster; an open one keeps its inode |
| Fat32.FatFs.DeleteInode | kernel/fs/fat32/fat32_file_system.cpp:367-375 | Dropping an inode keeps the file |
| Virtio.ChainsDisjoint | kernel/driver/virtio.cpp:132-145 | No descriptor belongs to two requests or twice to one |
| Virtio.DeviceSees | kernel/driver/virtio.cpp:165-200 | Following the next flags from the head visits exactly the three descriptors of the request |
| Virtio.SpareSlot | kernel/driver/virtio.cpp:206-209 | Storing an entry behind a 16-bit producer index that wraps leaves the published queue as it is |
| Virtio.BumpRing | kernel/driver/virtio.cpp:211-212 | Moving the index publishes exactly the entry stored there |
| Virtio.EmptyRing | kernel/driver/virtio.cpp:244-256 | Equal 16-bit indices mean an empty queue and nothing else |
| Virtio.VirtioDisk.Alloc3Desc | kernel/driver/virtio.cpp:132-145 | Three distinct free descriptors, held by the driver now, or the free set is restored and had fewer than three, whatever the device does meanwhile |
| Virtio.VirtioDisk.Interfere | kernel/driver/virtio.cpp:206-216 | Any number of device steps between two driver stores keep the invariant, move requests only from offered to taken to reported, and write only status bytes and the used ring |
| Virtio.VirtioDisk.Format | kernel/driver/virtio.cpp:165-204 | Store by store, with the device acting in between, the three descriptors, the header and the record become those of the request |
| Virtio.VirtioDisk.Publish | kernel/driver/virtio.cpp:206-216 | Moving the available index is allowed only with the ring entry and all of the request in place, and puts the request in flight |
| Virtio.VirtioDisk.Submit | kernel/driver/virtio.cpp:147-216 | A new request goes in flight with three descriptors of its own as submitted, and is what is asked for next; or nothing but device progress happens |
| Virtio.VirtioDisk.DeviceTake | kernel/driver/virtio.cpp:206-216 | At any point between two driver stores, the request the device takes is the oldest offered, and its descriptors are as submitted |
| Virtio.VirtioDisk.DeviceReport | kernel/driver/virtio.cpp:242-246 | The device serves any request it has, in any order, by what it finds in the chain; with status 0 exactly what was asked for happens to disk and memory, otherwise nothing; the used ring has room for its entry |
| Virtio.VirtioDisk.DeviceBump | kernel/driver/virtio.cpp:242-246 | Moving the used index reports exactly that request |
| Virtio.VirtioDisk.IntrOne | kernel/driver/virtio.cpp:244-256 | A round completes the oldest request reported, logged once and never before; it panics exactly when the device reported a failure |
| Virtio.VirtioDisk.Intr | kernel/driver/virtio.cpp:228-258 | The handler ends whatever the device does meanwhile, and every request reported before is completed |
| Virtio.VirtioDisk.FreeChain | kernel/driver/virtio.cpp:118-130 | The loop frees exactly the three descriptors and never meets a free one |
| Virtio.VirtioDisk.Retire | kernel/driver/virtio.cpp:218-226 | Only a completed request is freed; the descriptors of all others stay as submitted |
| Virtio.ServesRequest | kernel/driver/virtio.cpp:165-200 | A device that follows the chain by the numbers of VIRTIO 1.1, section 5.2.6 (type 0 reads, type 1 writes, it stores only through descriptors that allow it) does to disk and memory what the caller asked for, and stores the status of that request |
| Virtio.ReadDone | kernel/driver/virtio.cpp:147-226 | A finished read that had not taken effect at some point left in its buffer the bytes of its sector at that point, whatever other requests ran, unless one of them wrote that sector or that buffer |
| Virtio.WriteDone | kernel/driver/virtio.cpp:147-226 | A finished write left in its sector the bytes of its buffer at such a point, under the same condition |
| Virtio.VirtioDisk.Rw | kernel/driver/virtio.cpp:147-226 | With no other request, from the call to its end through any device steps and interrupts: a finished read has copied the sector to the buffer, a finished write the buffer to the sector, and nothing else on disk or in memory has changed |
| Virtio.VirtioDisk.WriteThenRead | kernel/driver/virtio.cpp:147-226 | A client of that contract: bytes stored in a buffer, written to a sector and read back into another buffer are the same bytes |
| Transfers.SectorStays | kernel/driver/virtio.cpp:147-226 | A sector changes only by a write to it |
| Transfers.BytesStay | kernel/driver/virtio.cpp:147-226 | Memory changes only by a read into it or a store to it |
| Transfers.ReadDelivers | kernel/driver/virtio.cpp:171-174 | A read among other transfers brings the sector as it was at any earlier point without a write to it in between |
| Transfers.WriteDelivers | kernel/driver/virtio.cpp:171-174 | A write among other transfers stores the buffer as it was at any earlier point without a change to it in between |
| SleepLock.StepInv | kernel/os/TaskScheduler.cpp:584-658 | Every step of every task and CPU keeps the lock, ownership and wakeup invariant |
| SleepLock.RunInv | kernel/os/SpinLock.cpp:19-64 | The invariant holds in every state of every run |
| SleepLock.MutualExclusion | kernel/os/SleepLock.cpp:12-20 | At most one task holds the sleep lock, and it is the one recorded |
| SleepLock.NoLostWakeup | kernel/os/SleepLock.cpp:12-28 | Whenever the spin lock is free and the sleep lock not taken, no task is asleep on it or committed to sleep |
| SleepLock.SwitchHoldsOwnLock | kernel/os/TaskScheduler.cpp:584-633 | A task switches away holding its own task lock and not the spin lock |
| SleepLock.StuckIff | kernel/os/SpinLock.cpp:19-64 | An action of a running task changes nothing exactly while the task spins for a lock that is taken |
| SleepLock.Uncontended | kernel/os/SleepLock.cpp:12-28 | With nobody in the way, lock takes the lock in three actions, and unlock gives it up and starts to wake everybody in two |
| OneHart.SleepOk | kernel/os/TaskScheduler.cpp:584-633 | The checks of prepareSched pass in sleep if and only if the lock given is the only one the caller holds |
| OneHart.Wakes | kernel/os/TaskScheduler.cpp:648-658 | Making a sleeper runnable keeps the invariant of the task table |
| OneHartWakeup.WakeupWakes | kernel/os/TaskScheduler.cpp:648-658 | Over any run from the step that starts a wakeup to the step that ends its loop, preemption and interrupts included, every task asleep on the channel at the start is awake in some state |
| OneHartWakeup.RoundWakes | kernel/os/TaskScheduler.cpp:652-656 | One round leaves its task not asleep on the channel and touches no other |
| OneHartWakeup.HandlerWakes | kernel/os/TaskScheduler.cpp:648-658 | A wakeup from an interrupt makes exactly the sleepers on the channel runnable and changes nothing else of any task |
| OneHartWakeup.SleepSleeps | kernel/os/TaskScheduler.cpp:584-602 | sleep puts the caller and nobody else to sleep on the channel given, and gives up the lock given |
| OneHartWakeup.SleepReturns | kernel/os/TaskScheduler.cpp:602-609 | A sleeper that runs again returns on no channel with exactly that lock |
| OneHartWakeup.TimerPreempts | kernel/os/trap.cpp:187-189 | A timer interrupt takes the CPU from the running task, which stays runnable |
| OneHartWakeup.PreemptedGoesOn | kernel/os/TaskScheduler.cpp:1040-1047 | Scheduled again, it goes on where it was, without locks and with interrupts on |
| OneHart.HandsOver | kernel/os/TaskScheduler.cpp:985-989 | Giving a child to init keeps the invariant of the task table |
| OneHart.Dies | kernel/os/TaskScheduler.cpp:1007-1009 | The unlocked store of ZOMBIE keeps it: the parent is awaited by the wakeup that follows |
| OneHart.StepInv | kernel/os/TaskScheduler.cpp:540-1047 | Every step of scheduler, tasks, timer and devices keeps the invariant, and no check panics |
| OneHart.RunInv | kernel/os/Intr.cpp:10-25 | From start-up, no sequence of actions reaches a panic of the locks, the interrupt nesting or prepareSched |
| OneHart.SwitchSafe | kernel/os/TaskScheduler.cpp:612-633 | Every switch happens with interrupts off, nesting 1 and only the switched task's lock held |
| OneHart.RunningIsCurrent | kernel/os/TaskScheduler.cpp:559-564 | A RUNNING task is the CPU's current task |
| OneHart.LocksAndInterrupts | kernel/os/Intr.cpp:10-25 | The nesting depth is the number of locks held, and interrupts are off while one is |
| OneHart.NoChildMissed | kernel/os/TaskScheduler.cpp:872-953 | While a task other than init sleeps in wait, or any task in wait4, its zombie child is one still inside exit and about to wake it |
| OneHart.StrandedIff | kernel/os/TaskScheduler.cpp:985-989 | A step leaves a zombie child of a waiting init without a wakeup on its way if and only if it is the exiting parent handing that zombie over |
| OneHartWitness.InitLeftBehind | kernel/os/TaskScheduler.cpp:964-1014 | A run of forty steps from start-up that reaches such a state |
| OneHart.SchedulerPokesInit | kernel/os/TaskScheduler.cpp:555-558 | Looking at a zombie, the scheduler makes init runnable, and no child is left behind |
| OneHart.FullPass | kernel/os/TaskScheduler.cpp:546-571 | Whatever happens meanwhile, no child stays left behind from the top of the scheduling loop to its end |
| OneHart.StrandedInPass | kernel/os/TaskScheduler.cpp:546-571 | A child left behind at the end of a pass was handed over during that pass |
| Pipe.WriteFairIff | kernel/fs/Pipe.cpp:50-74 | A write leaves nobody asleep in vain if and only if it does not fail on a full pipe beside sleeping readers |
| Pipe.KilledWriterStrandsReader | kernel/fs/Pipe.cpp:60-63 | A concrete write that leaves a reader asleep beside 512 bytes |
| Pipe.Fifo | kernel/fs/Pipe.cpp:23-91 | After any events, bytes delivered followed by the at most 512 inside are the bytes accepted |
| Pipe.FairRuns | kernel/fs/Pipe.cpp:23-91 | Over a whole run nobody ever sleeps in vain exactly when no write of the run strands a reader |
| Pipe.CallSends | kernel/fs/Pipe.cpp:50-74 | Over any run, a call of write, through all its sleeps, sends its bytes once and in order: asleep at index k it has sent the first k and the pipe is full, at its end it has sent all and says so, failed it has sent some but not all |
| Pipe.ReadTakes | kernel/fs/Pipe.cpp:23-48 | A read takes up to n bytes from the front, fewer only if the pipe is then empty, and sleeps exactly on an empty pipe with an open write end |
| Pipe.ClosedIff | kernel/fs/Pipe.cpp:76-91 | A write that does not fit fails exactly after a close of the read end, and a read of an empty pipe gets nothing exactly after a close of the write end |
| Pipe.CounterTests | kernel/include/fs/Pipe.hpp:5-14 | With 32-bit counters that wrap, equal means empty and 512 apart means full |
| Pipe.PutByte | kernel/fs/Pipe.cpp:68 | Storing a byte at the write counter appends it to the queue |
| Pipe.GetByte | kernel/fs/Pipe.cpp:41 | Reading at the read counter gives and removes the oldest byte |
| Pipe.Pipe.Read | kernel/fs/Pipe.cpp:23-48 | One critical section of read does what the queue says: sleep, give up, or hand out up to n bytes and wake writers |
| Pipe.Pipe.Write | kernel/fs/Pipe.cpp:50-74 | One critical section of write appends what fits and then ends, fails or sleeps as the queue says |
| Pipe.Pipe.Close | kernel/fs/Pipe.cpp:76-91 | Closing an end wakes those waiting for the other, and the pipe is deleted exactly with its second end |
| Pipe.DeletedAlone | kernel/fs/Pipe.cpp:85-87 | A pipe that is deleted has nobody asleep on it |
| ShellGrammar.LineSound | user/shell.c:337-351 | What is parsed is derived by the grammar, with the tree the derivation means |
| ShellGrammar.LineComplete | user/shell.c:337-434 | Every derivation with at most nine words a command is read back as its tree |
| ShellGrammar.ParseIff | user/shell.c:322-434 | A line is accepted with a tree if and only if the grammar derives it with that tree |
| ShellGrammar.Unambiguous | user/shell.c:337-434 | One token sequence has one tree |
| ShellGrammar.PrintParse | user/shell.c:337-434 | A tree comes back from its fully parenthesised printing if and only if no command has more than nine words |
| ShellGrammar.ParsePrintParse | user/shell.c:337-434 | Printing what was parsed and parsing again changes nothing |
| ShellGrammar.MapParse | user/shell.c:337-434 | The parser does not look into words: renaming them commutes with parsing, errors included |
| Shell.GetToken | user/shell.c:262-304 | The token returned is the first of the line's tokens from here, the rest follows from the new position, and progress is made |
| Shell.Peek | user/shell.c:306-315 | It answers whether the next token starts with one of the symbols, and loses no token |
| Shell.ParseRedirs | user/shell.c:365-387 | The loop gathers the redirections the token parser does, with the same error |
| Shell.ParseExec | user/shell.c:404-434 | The same for a command or a block, on every input |
| Shell.ParseArgs | user/shell.c:417-433 | The word loop gathers the words and redirections the token parser does, with the same errors |
| Shell.ParseBlock | user/shell.c:389-402 | The same for a block in parentheses |
| Shell.ParsePipe | user/shell.c:353-363 | The same for a pipeline |
| Shell.ParseLine | user/shell.c:337-351 | The same for a line: it ends on every input, with the token parser's tree or error |
| Shell.RoundTrip | user/shell.c:262-434 | On characters: a tree of words without blanks and symbols comes back from its printing exactly when no command has more than nine words |
| Shell.Normalise | user/shell.c:262-434 | Printing the meaning of any line that has one, and reading that, gives the same meaning |
| Shell.RedirectsMean | user/shell.c:365-387 | On characters: `<` opens its file read-only as descriptor 0; `>` opens it for writing, created or emptied, and `>>` for writing, created, both as descriptor 1 |
| Shell.OperatorsMean | user/shell.c:337-363 | On characters: a bar makes a pipe from left to right, `;` a list, and `&` puts what is before it in the background |
| Shell.BlocksMean | user/shell.c:389-402 | On characters: a list in parentheses is one stage of a pipe |
| Shell.BlanksSeparate | user/shell.c:259-304 | Each of the five blanks separates two words of a command |
| Shell.NulTerminate | user/shell.c:437-480 | Exactly the end positions of the words in the tree become zero |
| Shell.WordStands | user/shell.c:437-480 | After the cuts the C string at a word's start is that word: no cut falls inside a word |
| Shell.ParseCmd | user/shell.c:322-335 | When it returns, the C strings at all argv and file pointers form the meaning of the line; on an error the line is as it was |
| Calendar.NumberOfDateAt | kernel/os/time.cpp:35-43 | The closed form numbers the days counted one by one from 1970 |
| Calendar.DateAtNumber | kernel/os/time.cpp:35-43 | Every valid date from 1970 on is reached by counting that many days |
| Calendar.MktimeIff | kernel/os/time.cpp:20-43 | With its 32-bit and 64-bit arithmetic, mktime is the seconds since 1970 if and only if the March year is at most 11767033 |
| Calendar.WeekdayCounts | kernel/driver/rtc.c:300-305 | The weekday is the day count plus four modulo seven |
| Calendar.YearDayCounts | kernel/driver/rtc.c:285-298 | Going back the day of the year less one day lands on 1 January |
| FatTime.Decodes | kernel/fs/fat32/fat_utils.cpp:53-76 | A stamp of a valid date decodes to its seconds since 1970, rounded down to even |
| FatTime.DateFields | kernel/fs/fat32/fat_utils.cpp:58-60 | A stamp holds the year since 1980 in bits 9 to 15, the month in bits 5 to 8 and the day in bits 0 to 4, where the decoder reads them |
| FatTime.FindYear | kernel/fs/fat32/fat_utils.cpp:96-106 | One division and one correction find the year that holds the day |
| FatTime.FindMonth | kernel/fs/fat32/fat_utils.cpp:114-117 | The loop finds the month that holds the day |
| FatTime.UnixTime2Fat | kernel/fs/fat32/fat_utils.cpp:79-125 | The stamp is that of the calendar date and time; decoding it gives the time clamped to 1980..2107 and rounded down to an even second |
| FatTime.StampRoundTrip | kernel/fs/fat32/fat_utils.cpp:53-125 | Every valid stamp comes back from Unix time bit for bit |
| FatTime.ZeroDay | kernel/fs/fat32/fat_utils.cpp:60 | Decoding agrees with a decoder that takes the larger of 1 and the day field if and only if the field is not 0; otherwise it is a day late |
| VmLoad.PutPage | kernel/memory/mmap.cpp:46-78 | A page not yet mapped gets one user mapping with the rights asked for, to a frame that was free, holding zeros with the data patched in; every other entry and user byte of every space stays; without a page for a table nothing is mapped and the frame is lost; it stops exactly when there is no frame or the page is mapped already |
| VmLoad.LoadIfContain | kernel/memory/mmap.cpp:26-79 | Nothing happens exactly when the page is not of the region or is a user page already; otherwise the page is mapped for the user, readable, writable and executable exactly as the region is, and holds file bytes inside the region and zeros elsewhere |
| VmLoad.LoadIfValid | kernel/os/task.cpp:12-40 | A fault does nothing exactly when the page is there or none is wanted; a fault that is served gives the page exactly the rights of eager loading, lets the user read, at every address of it, the byte that eager loading puts there, and changes nothing else that any user reads |
| VmLoad.FaultShown | kernel/os/task.cpp:12-40 | If the user pages of a space are those of a flat map of pages, then after such a fault they are those of the map after the fault, so that what holds of runs of faults holds of tables and frames |
| VmLoad.FaultRun | kernel/os/task.cpp:12-40 | A client of that contract: after any faults that were all served, in any order, an address on a page not there before reads as eager loading would make it if some fault wanted its page, and is unmapped otherwise |
| DemandLoad.LoadedPage | kernel/memory/mmap.cpp:68-77 | The zeroed page with the bytes read at the computed place is the page of the region |
| DemandLoad.WantedEager | kernel/memory/mmap.cpp:26-79 | The page a fault brings holds, address by address, the byte of the region the address lies in, and zero outside all regions |
| DemandLoad.FaultsAreEager | kernel/os/task.cpp:12-40 | After any faults in any order each page asked for holds at every address what eager loading puts there, and no other page changed |
| DemandLoad.OrderFree | kernel/os/task.cpp:12-40 | Order and repetition of faults do not matter |
| HashMap.ShiftAndAdd | sstl/map.hpp:20-35 | The shifts and additions modulo 2^64 are one multiplication by 0x9e37fffffffc0001 |
| HashMap.Hash64 | sstl/map.hpp:20-39 | The hash is the upper bits of that product |
| HashMap.BucketInRange | sstl/map.hpp:198-201 | With one bit less than the order, every bucket index is in the lower half of the table |
| HashMap.Map.Put | sstl/map.hpp:105-122 | An absent key is added to the map, a present one panics |
| HashMap.Map.Get | sstl/map.hpp:127-137 | The value of the key, or nothing |
| HashMap.Map.Poll | sstl/map.hpp:142-172 | The node removed is the key's exactly when the key is present, otherwise the last of its bucket; an empty bucket panics |
| HashMap.PollTakesOther | sstl/map.hpp:142-172 | A concrete wrong removal: with only key 0 stored, polling key 2 takes key 0 out |
| HashMap.EveryEntryOnce | sstl/map.hpp:174-182 | The order of iteration lists every entry of the map and none twice |
| HashMap.Map.Next | sstl/map.hpp:264-274 | The step goes to the entry that follows in that order, over empty buckets |
| HashMap.Map.Iterate | sstl/map.hpp:174-182 | A loop from begin to the end visits exactly the entries of the map, each once |

## Left out

- Device registers, the SD card, PLIC, SBI calls, trap entry in assembly and logging.
- The kernel's own page table, `UserVmInit`, `vmprint`, TLB fences and the locks of the page pool: page tables are modelled for one user at a time.
- A page has two views, entries and bytes. `memset` writes both; copies between user and kernel write bytes only, since they go to data frames only.
- VmManager.Vm.UserUnmap: freeing asks that the frames in the range are owned by it, which VmRuns.SpacesOwns gives; a double free is corruption in the source.
- VmManager.Vm.UserDealloc: asks the same, and that the range given up lies below MAXVA.
- VmManager.Vm.FreeWalk: asks that bottom entries in use are leaves, which VmRuns.SpacesOwns gives.
- VmManager.Vm.FreeUserPageTable: asks that frames below sz are owned and bottom entries are leaves, which VmRuns.SpacesOwns gives.
- VmManager.Vm.FreeTaskPagetable: asks the same, and that sz ends below the trapframe page, as it does for every task.
- VmManager.Vm.UserVmCopy: sizes up to 0x7ffff000, where the signed loop counter of the source does not overflow.
- VmManager.Vm.CopyIn: like the next two, asks that user frames belong to one page each, which VmRuns.SpacesPrivate gives and VmRuns.StepKeeps preserves.
- VmManager.Vm.CopyInStr: asks the same of the user frames.
- VmManager.Vm.CopyOut: asks the same of the user frames, and that the source holds the bytes to copy.
- VmManager.Vm.Kfree: asks that an address that passes the check is a page in use; freeing a free page goes unnoticed in the source.
- Buddy.CalcLevel: sizes up to one page, the only ones Alloc passes.
- Buddy.BuddyAllocator.Alloc: sizes with their 8 bytes up to one page, the limit of the source; the free lists are sequences rather than linked nodes in the blocks.
- KrMalloc.Allocator.Malloc: the 32-bit size fields are not wrapped: a request fits in them and the heap stays far below 2^32 units; `sbrk` may fail or return any memory at or above the break.
- Fat32.FatFs.WriteInode: asks for enough free clusters, because the source does not terminate on a full disk, and for file sizes below 2^32; user copies succeed; one cluster is one buffer.
- Fat32.FatFs.CreateFile: asks for a free cluster, for the same reason.
- Fat32.FatFs.constructor: every file has a first cluster and a chain ended by 0x0fffffff, the only end mark that `bmap` and `FreeClusterChain` test for and that the kernel writes. An empty file with first cluster 0, and chains ended by another mark from 0x0ffffff8 on, as other systems make them, are not modelled: the source takes such a value for the number of a cluster.
- Fat32.FatFs.BuildInode: the start cluster and the size come from the directory entry, which is not modelled, and are asked to be those of the file, which excludes an entry whose first cluster is 0.
- Directories, names, long file names, the root inode, the inode cache, and concurrent use of buffers by several tasks. The 32 bytes of a directory entry are a parameter of UpdateInode, and directory clusters are only known to be disjoint from files.
- The FAT sectors are one table in memory; its sectors on disk and the second copy are not modelled, nor is the panic of GetFatEntry and SetFatEntey for clusters whose entry lies in FAT sector 1024 or above.
- Virtio.VirtioDisk.DeviceReport: data, status and used entry of a request are stored in one step, and a request that fails moves no data; the addresses of headers and status bytes are made up, and a sector outside the disk fails.
- Virtio.VirtioDisk.Rw: the wait for the interrupt is any number of interrupts, after which the call may still be under way; Virtio.ReadDone and Virtio.WriteDone have no such bound and allow other requests.
- Virtio.VirtioDisk.Interfere: the device sees the stores of the driver in program order, which is what the barriers of the source are for; set-up of the queue is not modelled, and the driver's own sections exclude each other by its lock.
- SleepLock.StepInv: taking a spin lock is one step; interrupts and `holding` are in the one-hart model instead; tasks are not created and do not exit there.
- OneHart.StepInv: `fork` takes its slot in one step, because the source releases the slot's lock while it is still UNUSED; `wait` copies its status out successfully; sleep, yield, wait and exit are called with the locks the kernel calls them with.
- Pipe.Pipe.Write: user copies of single bytes succeed.
- Shell.ParseCmd: memory for the nodes is always found; running commands (`runcmd`, `cd`, history) is not modelled.
- Calendar.WeekdayCounts: signed overflow for years near 2^31 is not modelled; `CurrentTimeSpec` and the clock device are left out.
- VmLoad.LoadIfContain: asks for non-empty regions below the trapframe with at least one right, whose part of the file lies below 2^32; the choice of addresses in `sys_mmap` and unmapping are left out.
- VmLoad.LoadIfValid: asks the same, that no two regions share a page, and that the break is not above the trapframe. When pages run out it ends as Leaked or Stopped; what the kernel does after that is left out.
- HashMap.Map.Put: tables of order 2 to 31; the lock, the unset size counter and the freeing of nodes are not modelled.
- Inode reference counts, the vfs layer's file offsets, signals, `exec` and the older FAT and vfs code.
