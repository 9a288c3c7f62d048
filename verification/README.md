# A verified model of a small RISC-V kernel

The kernel runs on two CPUs under one big lock. This project models four of its components and proves
what they promise, for every input, every run or every reachable state.

* **Virtual memory with swap.** The in-band page allocator (`FrameAllocator`), the Sv39 page table
  (`PageTable`, `Sv39` for the walk of the hardware, and `PteBits` for the bit expressions on 64-bit words), the page descriptors, queues and
  swap sectors (`SwapBooks`), and `kernel/mm/mm.c` with the page-fault handler as an imperative class
  (`Paging`). `PagingRuns` compares whole runs with a flat memory in which pages never move.
* **Scheduler and blocking primitives.** The circular linked lists at the level of `next` and `prev`
  pointers (`Lists`); the kernel calls as steps of a state machine (`SchedModel`, `SchedSteps`); what
  every step keeps (`LockInvariant`, `SecondCpu`, `RoundRobin`, `QueueEffects`, `SchedQueues`); runs and
  the theorems about them (`SchedRuns`, `SchedProperties`, `SchedTheorems`, `LockTheorems`, `WaitTheorems`); and the
  calls as the C code performs them, on linked lists, each proved to be the step of the state machine
  (`KernelCalls`). One step is what a CPU does between taking and giving up the kernel lock or
  switching tasks. `MailboxModel` is the 64-byte ring of the mailboxes, `MailboxRuns` the sending and
  receiving tasks with their wait loops, as runs of the state machine.
* **File system.** Bitmaps (`Bitmap`), inodes and the direct, indirect and double-indirect block maps on
  a byte-level disk (`BlockMap`), reading and writing against independent byte arrays (`Files`), and
  directories: the tree with its link counts (`Directories`), what names lead to in it (`Lookups`), its entries as bytes (`Dentries`), the disk
  that shows it (`TreeOnDisk`) and the calls on that disk (`DirectoryCalls`).
* **Image builder, loader and exec arguments.** Writer and reader pairs that undo each other (`Image`,
  `ExecArgs`).

`Seqs`, `Arithmetic` and `Bytes` hold what the modules share. `dafny verify dfyconfig.toml` checks everything.

## Where the code departs from its intent

The model follows the code; where a promise of the code needs the evident intent instead, the intent is
modelled and the code as it stands has its own lemmas: a failing input, and the exact condition under
which it is right.

* `kernel/locking/lock.c:292-293` advances the read cursor twice per byte. `Mailbox.Take` advances it
  once; `TakeAsWritten`, `RecvAsWrittenRight` and `OneByteAsWritten` are about the code as it stands.
* `kernel/mm/mm.c:274-276` clears a page's kva before it frees it; see `FreePageAsWritten`.
* `include/os/mm.h:62-63` gives MAX_PFN and MAX_PRESENT_PFN the same value. Both are parameters here;
  `NoDescriptorWhenFull` shows what the shipped values lead to.
* `kernel/fs/fs.c:35`, 69, 84 and 124 shift an `int`, and lines 63 and 123 compute bit -1 for multiples
  of 64. `Alloc` and `Free` use the 64-bit shift and bit n - 1; `AllocAsWritten`, `AllocTwice`,
  `FreeAsWrittenRight` and `FreeLastAsWritten` are about the code as it stands, with the shift taken as
  the RV64 instruction `sllw`, since C leaves it undefined.
* `kernel/fs/fs.c:764` and 804 never advance the buffer between chunks. `Fread` and `Fwrite` do;
  `FreadAsWritten` and `FwriteAsWritten` with `ReadAsWrittenRight` and `WriteAsWrittenRight` are about
  the code as it stands. The return value of do_fwrite is the remaining length, 0, as in the code.
* `kernel/fs/fs.c:684-701` assumes that index tables exist; `SetNeedsTables`, `SharedByMistake` and
  `InodesOverwritten` show what happens without them.
* `kernel/fs/fs.c:914-917` frees direct blocks only; `RmFreesAll` and `RmLeaks` say when blocks leak.
* `include/os/fs.h:50` says that an entry has 32 bytes; with its padding it has 36, so that 113 fit a
  block and not the 128 of `NDENTRIES_PER_BLOCK`. The model follows the layout.
* `tools/createimage.c:124-130` counts the file bytes of every program header, although only loadable
  segments are written; `LoaderFinds` gives the exact condition, `LoaderMisses` an
  image that fails.

## Model

| member | source | states |
|---|---|---|
| `FrameAllocator.Frames.constructor` | kernel/mm/mm.c:13-16 | the list is the one page FREEMEM_KERNEL and nothing is handed out, whatever memory holds |
| `FrameAllocator.Frames.Kalloc` | kernel/mm/mm.c:18-30 | the page returned is aligned, zeroed and was not handed out; pages in use keep their words; list and frontier stay in order |
| `FrameAllocator.Frames.Kfree` | kernel/mm/mm.c:32-41 | a page below FREEMEM_KERNEL is ignored; any other goes to the head of the list and only its first word changes |
| `FrameAllocator.ListReachesFrontier` | kernel/mm/mm.c:18-41 | the in-band list is acyclic: following it visits the free pages in order and meets NULL exactly at the bump frontier |
| `FrameAllocator.Serve` | kernel/mm/mm.c:18-41 | for every sequence of kalloc and kfree of pages in hand, no page is handed out while it is in hand, and the pages in hand are exactly those of the history |
| `PageTable.PteRoundTrip` | arch/riscv/include/pgtable.h:88-124 | set_pfn and set_attribute followed by get_pa give back the frame and the attributes, and a mapped entry is not zero |
| `PageTable.SetAccessed` | arch/riscv/include/pgtable.h:121-124 | the accessed bit leaves frame, present bit and user rights alone |
| `PageTable.SetDirty` | arch/riscv/include/pgtable.h:121-124 | the dirty bit leaves frame, present bit and user rights alone |
| `PageTable.MarkedBits` | kernel/irq/irq.c:77-81 | setting the accessed and then the dirty bit leaves both set |
| `PageTable.UnsetPresent` | arch/riscv/include/pgtable.h:126-128 | clearing the present bit keeps the frame and the rights, and the entry of a real page stays distinguishable from an unmapped one |
| `PageTable.VpnJoin` | arch/riscv/include/pgtable.h:153-155 | joining the three VPNs of an address gives its page |
| `PageTable.VpnSplit` | arch/riscv/include/pgtable.h:153-155 | splitting a joined address gives the three VPNs back |
| `PageTable.WalkStaysInTables` | kernel/mm/mm.c:133-153 | every step of a walk lands in the table that the tree has at that place |
| `PageTable.LinkTable` | kernel/mm/mm.c:94-107 | hanging a fresh zeroed table into an empty entry keeps the tree alias-free and changes no translation of any page directory |
| `PageTable.WalkInjective` | kernel/mm/mm.c:133-153 | two walks end at the same PTE only if directory and page are the same |
| `PageTable.StoreLeaf` | kernel/mm/mm.c:109-112 | storing a leaf PTE changes the translation of that page of that directory and of no other page of any directory |
| `PageTable.EntryOfPage` | kernel/mm/mm.c:133-153 | all addresses of a page walk to the same PTE |
| `PageTable.NewRoot` | kernel/sched/sched.c:224 | a zeroed page is a page directory that maps nothing |
| `PageTable.StoreKernelEntry` | kernel/mm/mm.c:79-86 | an entry of the kernel half changes no user translation |
| `Sv39.HardwareWalk` | kernel/mm/mm.c:88-113 | the Sv39 walk of the hardware, as the privileged architecture defines it, follows the kernel's tables: it ends in a fault where the leaf is not present, and in the frame of a user leaf for every kind of access |
| `PteBits.PackUnpack` | arch/riscv/include/pgtable.h:88-114 | on 64-bit words: packing any aligned kernel address with any attributes and unpacking gives both back |
| `PteBits.SetKeepsFrame` | arch/riscv/include/pgtable.h:121-124 | on 64-bit words: set_attribute does not touch the frame |
| `PteBits.UnsetKeepsFrame` | arch/riscv/include/pgtable.h:126-128 | on 64-bit words: unset_attribute does not touch the frame |
| `PteBits.UnsetPresentNonZero` | arch/riscv/include/pgtable.h:126-128 | on 64-bit words: a mapped entry stays non-zero without its present bit |
| `PteBits.JoinSplit` | arch/riscv/include/pgtable.h:153-155 | on 64-bit words: get_uva_from_vpns undoes the VPN shifts and masks |
| `PteBits.SplitJoin` | arch/riscv/include/pgtable.h:153-155 | on 64-bit words: the VPN shifts and masks undo get_uva_from_vpns |
| `PteBits.OffsetOr` | kernel/mm/mm.c:161 | the or with the page offset is an addition |
| `SwapBooks.SdRoundTrip` | kernel/mm/mm.c:202-204 | reading the sectors a page was written to gives the page |
| `SwapBooks.SdElsewhere` | kernel/mm/mm.c:202-205 | writing a page leaves every page stored on other sectors readable as before |
| `SwapBooks.SwapOutBooks` | kernel/mm/mm.c:195-215 | swap_out keeps the books (one queue per descriptor, disjoint sectors, PTEs agreeing with queues) and the content of every page |
| `SwapBooks.SwapInBooks` | kernel/mm/mm.c:217-231 | swap_in keeps the books and the content of every page |
| `SwapBooks.AddBooks` | kernel/mm/mm.c:172-192 | add_new_pre_page keeps the books and adds exactly the new page with the words of its frame |
| `SwapBooks.FreeDescriptor` | kernel/mm/mm.c:172-181 | the assertion of add_new_pre_page holds if and only if fewer pages are tracked than there are descriptors |
| `SwapBooks.NoDescriptorWhenFull` | include/os/mm.h:62-63 | with MAX_PFN equal to MAX_PRESENT_PFN, right after the swap_out of alloc_page_helper all descriptors are in use, so the assertion fails |
| `SwapBooks.MappedPage` | kernel/mm/mm.c:164-192 | a mapped page in memory has its descriptor in the present queue and its words in the frame its PTE names |
| `Paging.VirtualMemory.ClearPgdir` | arch/riscv/include/pgtable.h:130-136 | the whole page becomes zero and no other page changes |
| `Paging.VirtualMemory.GrowTable` | kernel/mm/mm.c:94-107 | a new table of either level is fresh and empty, and the walk still computes the same map |
| `Paging.VirtualMemory.MapUvaToKva` | kernel/mm/mm.c:88-113 | the walk refines a finite map, in which exactly this page of this directory now points to the frame, readable, writable, executable, for user mode and not global; new frames are tables only; data frames keep their words |
| `Paging.HardwareSees` | kernel/mm/mm.c:88-113 | the hardware reaches the frame of every page in memory, for loads, stores and fetches in user mode, and traps on every other page |
| `Paging.VirtualMemory.GetPteOfUva` | kernel/mm/mm.c:133-153 | a PTE is found exactly for mapped pages, and it is the leaf entry of the walk |
| `Paging.VirtualMemory.GetKvaOfUva` | kernel/mm/mm.c:155-162 | 0 exactly for unmapped addresses; frame plus page offset for pages in memory |
| `Paging.VirtualMemory.UnmapAndFree` | kernel/mm/mm.c:207-211 | only this page loses its frame, which goes back to the allocator |
| `Paging.VirtualMemory.SwapOut` | kernel/mm/mm.c:195-215 | the oldest present page moves to the tail of the swapped queue; all contents of all address spaces stay |
| `Paging.VirtualMemory.SwapIn` | kernel/mm/mm.c:217-231 | the page moves to the tail of the present queue on a fresh frame; all contents stay |
| `Paging.VirtualMemory.AddNewPrePage` | kernel/mm/mm.c:172-192 | an unused descriptor is found and joins the tail of the present queue; the new page is the only change of the contents |
| `Paging.VirtualMemory.AllocPageHelper` | kernel/mm/mm.c:118-131 | the new page reads as zeros; at the limit the oldest page goes out first (FIFO), below it nothing does; nothing else changes, and exactly the missing tables are allocated |
| `Paging.VirtualMemory.FindPageWithUva` | kernel/mm/mm.c:244-252 | finds a descriptor of that page if and only if the queue holds one |
| `Paging.VirtualMemory.SwapInAllPages` | kernel/mm/mm.c:235-242 | afterwards no page of the directory is swapped or the limit is reached; the contents stay |
| `Paging.VirtualMemory.MarkAccess` | kernel/irq/irq.c:77-81 | the PTE is marked accessed, after a store dirty, and nothing else changes |
| `Paging.VirtualMemory.FaultIn` | kernel/irq/irq.c:69-75 | the faulting page is in memory, the limit is kept, the contents stay |
| `Paging.VirtualMemory.HandlePageFault` | kernel/irq/irq.c:60-82 | afterwards the page is present and marked; an unmapped page appears as zeros, a swapped one as it was, and no other content changes |
| `Paging.VirtualMemory.FreePageAsWritten` | kernel/mm/mm.c:264-288 | as it stands, freeing a page leaves a frame handed out that no descriptor names if and only if the page was in memory before the call; in both branches one page leaves the queues and no frame goes back |
| `Paging.VirtualMemory.NewPgdir` | kernel/sched/sched.c:224 | a new address space is empty |
| `Paging.VirtualMemory.SharePgtable` | kernel/mm/mm.c:79-86 | exactly the non-zero kernel entries are copied, nothing else is written, and no user page of any space changes |
| `Paging.VirtualMemory.Touch` | kernel/irq/irq.c:60-82 | an access translates as the hardware does, and a fault is served, so that it ends in the frame of the page |
| `Paging.VirtualMemory.UserLoad` | kernel/irq/irq.c:60-82 | a load returns the word of the page, faulting it in if needed |
| `Paging.VirtualMemory.UserStore` | kernel/irq/irq.c:60-82 | a store changes that word of that page of that space only |
| `PagingRuns.FlatIsLastStored` | kernel/mm/mm.c:118-242 | the flat reference memory reads at every address the word last stored there |
| `PagingRuns.Step` | kernel/mm/mm.c:118-242 | one operation of the kernel, whenever memory is not exhausted, is one operation of the flat memory |
| `PagingRuns.Run` | kernel/mm/mm.c:118-242 | swap is transparent: in every run of any length, with any swapping in between, each load returns the word last stored at its address in its own address space, and the pages of all spaces end as those of the flat memory; the run stops early only when memory is exhausted |
| `Lists.Links.InitListHead` | include/os/list.h:53 | a new empty circle, the others as before |
| `Lists.Links.IsQueueEmpty` | include/os/list.h:55-57 | true exactly for the empty list |
| `Lists.Links.Step` | include/os/list.h:82-91 | next leads from each node of a circle to the following one and from the last back to the head |
| `Lists.Links.AddTail` | include/os/list.h:59-68 | the four pointer writes append the node to that list; every list stays a circle whose prev undoes next |
| `Lists.Links.DeleteEntry` | include/os/list.h:70-73 | the two pointer writes take the node out of the one list it is on, and every list stays a circle |
| `Lists.UnlinkSeparate` | include/os/list.h:70-73 | unlinking takes the task off all lists and keeps the others where they are |
| `SchedModel.FirstIdle` | kernel/sched/sched.c:71-80 | the position of the first task in the queue that does not run |
| `SchedModel.PickCore` | kernel/sched/sched.c:62-89 | find_idle_task on a vacant CPU keeps lists, CPUs and pids in order |
| `SchedModel.WakeCore` | kernel/sched/sched.c:144-152 | do_unblock of a blocked task keeps lists, CPUs and pids in order and shortens the list it was on |
| `SchedModel.CreateCore` | kernel/sched/sched.c:203-215 | a new PCB keeps lists, CPUs and pids in order |
| `SchedModel.DropCore` | kernel/sched/sched.c:287-292 | removing a PCB keeps lists, CPUs and pids of the others in order |
| `SchedSteps.Switch` | kernel/sched/sched.c:130-142 | blocking or yielding leaves every live task on exactly one list and the CPU with a pick |
| `SchedSteps.WakeAll` | kernel/locking/lock.c:140-146 | the list is empty afterwards; CPUs, mutexes and barriers are untouched |
| `SchedSteps.CheckSleeping` | kernel/sched/time.c:34-43 | waking sleepers keeps lists, CPUs and pids in order |
| `SchedSteps.Reschedule` | kernel/sched/sched.c:91-115 | do_scheduler keeps lists, CPUs and pids in order |
| `SchedSteps.Acquire` | kernel/locking/lock.c:49-57 | do_mutex_lock_acquire keeps lists, CPUs and pids in order |
| `SchedSteps.ReleaseLock` | kernel/locking/lock.c:59-73 | do_mutex_lock_release keeps lists and pids in order and the CPUs as they were |
| `SchedSteps.CondWait` | kernel/locking/lock.c:125-130 | do_condition_wait up to the switch keeps lists, CPUs and pids in order |
| `SchedSteps.BarrierWait` | kernel/locking/lock.c:90-102 | do_barrier_wait keeps lists, CPUs and pids in order |
| `SchedSteps.FreeSlot` | kernel/sched/sched.c:164-174 | the first free slot, or NUM_MAX_TASK when all are taken |
| `SchedSteps.Release` | kernel/sched/sched.c:287-306 | release_pcb removes exactly this PCB and its wait list |
| `SchedRuns.FindPid` | kernel/sched/sched.c:331-338 | the first slot with that pid, or NUM_MAX_TASK when there is none |
| `SchedRuns.Exit` | kernel/sched/sched.c:308-328 | do_exit removes exactly the caller, and its CPU picks again |
| `SchedRuns.JoinTakesIdleTask` | kernel/smp/smp.c:30-46 | before CPU 1 joins, the second node of the ready queue is never a running task |
| `SchedRuns.NextInv` | kernel/sched/sched.c:91-434 | every kernel call, timer interrupt, condition wake-up, exit, kill of a non-running task and the start of CPU 1 keeps the whole invariant |
| `SecondCpu.PickAlone` | kernel/sched/sched.c:62-89 | a pick on the only CPU takes the head of the ready queue |
| `SecondCpu.ReleaseAlone` | kernel/sched/sched.c:287-306 | killing a task keeps the running task at the head while one CPU runs |
| `RoundRobin.RankPick` | kernel/sched/sched.c:71-86 | a pick that passes a ready task over leaves one ready task less before it |
| `RoundRobin.PickEvolves` | kernel/sched/sched.c:62-89 | find_idle_task runs t or takes one ready task from before t, for every ready t |
| `RoundRobin.SwitchEvolves` | kernel/sched/sched.c:102-112 | moving the running task away and picking never puts anyone before a waiting ready task |
| `RoundRobin.ReleaseEvolves` | kernel/sched/sched.c:287-306 | exit and kill never put anyone before a waiting ready task |
| `QueueEffects.ReleaseLockQueues` | kernel/locking/lock.c:59-73 | the first waiter leaves the queue and becomes the owner; without waiters the mutex is free; no other list but the ready queue changes |
| `QueueEffects.ReleaseOwnedEach` | kernel/sched/sched.c:295-299 | each mutex of the dead task is handed on exactly once, and no other mutex changes |
| `SchedQueues.AcquireQueues` | kernel/locking/lock.c:49-57 | an unlocked mutex becomes the caller's; at a locked one the caller queues at the tail |
| `SchedQueues.CondWaitQueues` | kernel/locking/lock.c:125-130 | hand-over of the mutex and enqueueing on the condition, as one step, and no other list |
| `SchedQueues.SignalQueues` | kernel/locking/lock.c:132-138 | the first waiter leaves and no other list but the ready queue changes |
| `SchedQueues.BarrierWaitQueues` | kernel/locking/lock.c:90-102 | an early arrival waits and counts; the last one empties the list and resets the counter |
| `SchedQueues.ReleaseQueues` | kernel/sched/sched.c:287-306 | the dead task is unlinked from every list, mutex queues additionally lose the waiter that inherits |
| `SchedQueues.ReleaseMutex` | kernel/sched/sched.c:295-299 | the dead task's mutexes go to their first live waiters or become free |
| `SchedQueues.EventFrame` | kernel/sched/sched.c:91-434 | every event but exit and kill changes only the lists, mutexes and barriers it names |
| `SchedProperties.After` | kernel/sched/sched.c:91-434 | the invariant holds after every run |
| `SchedProperties.KillStep` | kernel/sched/sched.c:287-306 | a kill takes its victim off the list, and if the victim owned the mutex the first waiter left inherits |
| `SchedProperties.QueueStep` | kernel/locking/lock.c:49-146 | under every event, kill included, the list of a mutex, condition or barrier changes exactly as a FIFO queue from which a killed task disappears |
| `SchedProperties.FirstComeFirstServed` | kernel/locking/lock.c:49-146 | over every run, the waiters left are those that were neither killed nor served from the front, and they stand before everyone who came later |
| `SchedProperties.NobodyOvertakes` | kernel/locking/lock.c:49-146 | over every run the waiters left stand in the order in which they stood |
| `SchedTheorems.BootInv` | init/main.c:160-176 | the state that the init functions build satisfies the invariant |
| `SchedTheorems.BootReachable` | init/main.c:160-176 | the boot state is reachable |
| `SchedTheorems.TwoCpusRun` | kernel/smp/smp.c:30-46 | the shell can start a second task, CPU 1 takes it, and both run: the runs of the theorems exist |
| `SchedTheorems.OneList` | kernel/sched/sched.c:91-152 | in every reachable state each live PCB is linked exactly once, in one list, and is BLOCKED exactly when that is not the ready queue |
| `SchedTheorems.CpuExclusive` | kernel/sched/sched.c:62-115 | in every reachable state the RUNNING tasks are exactly those in runnings, and none is on two CPUs |
| `SchedTheorems.MutexSafe` | kernel/locking/lock.c:49-73 | in every reachable state an unlocked mutex has owner 0 and no waiters, and a locked one belongs to exactly one live task |
| `SchedTheorems.EventRank` | kernel/sched/sched.c:71-86 | no event increases the number of ready tasks before a waiting one, and each pick that passes it over lowers it |
| `SchedTheorems.BoundedWaiting` | kernel/sched/sched.c:71-112 | over every run, a ready task is passed over at most as often as ready tasks stood before it |
| `SchedTheorems.ReadyUntilRunning` | kernel/sched/sched.c:71-112 | a ready task stays ready under every event until it runs or is killed |
| `SchedTheorems.RunsSoon` | kernel/sched/sched.c:71-112 | over every run with more picks than ready tasks stood before it, a ready task runs or is killed at some point, and only waits before |
| `SchedTheorems.RoundsFromInit` | kernel/locking/lock.c:82-102 | after do_barrier_init of an idle barrier, over every run without kill and re-init, arrivals modulo the goal wait: each goal-th arrival completes a round |
| `SchedTheorems.BarrierRounds` | kernel/locking/lock.c:90-102 | over every run without kill and re-init, exactly the arrivals since the last full round wait, and the counter is their number |
| `WaitTheorems.SleepStarts` | kernel/sched/sched.c:117-128 | the caller of do_sleep is blocked on the sleep list with the time now plus the ticks asked for |
| `WaitTheorems.TimerDecides` | kernel/sched/time.c:34-43 | a timer interrupt before that time leaves the sleeper on the list, one at that time or later puts it on the ready queue |
| `WaitTheorems.SleepTime` | kernel/sched/sched.c:117-128 | over every run, a sleeper stays blocked on the sleep list until it is killed or a timer interrupt comes at its time or later, and is off the list and able to run right after that |
| `WaitTheorems.WaitStarts` | kernel/sched/sched.c:420-434 | the caller of do_waitpid is blocked on the wait list of the task with that pid; without such a task nothing happens |
| `WaitTheorems.WaitEnds` | kernel/sched/sched.c:301-305 | when the task waited for exits or is killed, whoever waited for it is on the ready queue |
| `WaitTheorems.WaitTime` | kernel/sched/sched.c:420-434 | over every run, the caller of do_waitpid stays blocked exactly as long as the task it waits for lives |
| `WaitTheorems.GoalIsLastGiven` | kernel/locking/lock.c:82-88 | over every run the goal of a barrier is the one given by the last do_barrier_init |
| `WaitTheorems.ExecAdds` | kernel/sched/sched.c:203-244 | do_exec adds one task, ready at the tail of the ready queue under a fresh pid, and changes nothing else; without a free slot or a known program nothing happens |
| `WaitTheorems.JoinTakesLongestReady` | kernel/smp/smp.c:30-46 | the second CPU, when it joins while the first one runs a task, takes the ready task that stands first |
| `LockInvariant.AcquireLocks` | kernel/locking/lock.c:49-57 | acquiring keeps owners, waiters and claims consistent |
| `LockInvariant.CondWaitLocks` | kernel/locking/lock.c:125-130 | waiting on a condition keeps owners, waiters and claims consistent |
| `LockInvariant.ReleaseLocks` | kernel/sched/sched.c:287-306 | after release_pcb no mutex is owned by the dead task and every locked one has a live owner |
| `LockTheorems.EventPcbs` | kernel/sched/sched.c:91-434 | pids are never changed or reused, and an event changes the pending operation of nobody but its caller |
| `LockTheorems.ReturnOwns` | kernel/locking/lock.c:125-130 | a task that goes back to user mode after acquire or condition wait owns the mutex |
| `LockTheorems.StillWants` | kernel/locking/lock.c:125-130 | nothing but its own return ends a task's demand for its mutex |
| `LockTheorems.WaitEndsOwning` | kernel/locking/lock.c:125-146 | over every run, a waiter on a condition runs no user code until it returns owning the mutex, however often it blocks again |
| `LockTheorems.WaitIsAtomic` | kernel/locking/lock.c:125-130 | when the mutex is given away, the caller is already at the tail of the condition's list |
| `LockTheorems.HandOff` | kernel/locking/lock.c:49-73 | who owns a mutex after every event: the first waiter left after a release, exit or kill of the owner, the requester of a free one, otherwise unchanged |
| `LockTheorems.Survivors` | kernel/sched/sched.c:287-357 | a PCB disappears if and only if it exits or is killed |
| `LockTheorems.Woken` | kernel/locking/lock.c:90-146 | under every event, kill included, whoever leaves the front of the list of a mutex, condition or barrier is ready or already running: no wake-up is lost |
| `LockTheorems.LeavesFromFront` | kernel/locking/lock.c:49-146 | nobody disappears from the list of a mutex, condition or barrier but by dying or from its front |
| `LockTheorems.LeavesNoTrace` | kernel/sched/sched.c:287-306 | after exit or kill no list, wait list, CPU or mutex refers to the dead task or its pid |
| `LockTheorems.DeadForever` | kernel/sched/sched.c:287-306 | in every continuation the dead pid stays dead and owns no mutex |
| `LockTheorems.KillAtBarrier` | kernel/locking/lock.c:90-102 | a kill keeps a barrier's counter equal to its list if and only if the victim does not wait there |
| `KernelCalls.Kernel.constructor` | init/main.c:160-176 | the linked lists and fields after the init functions are the boot state |
| `KernelCalls.Kernel.InitHeads` | kernel/locking/lock.c:12-19 | exactly the static list heads exist, and all are empty |
| `KernelCalls.Kernel.InitPcb` | init/main.c:160-176 | the shell is created, running and on CPU 0 |
| `KernelCalls.Kernel.DoUnblock` | kernel/sched/sched.c:144-152 | the pointer and field updates are the state machine's wake-up |
| `KernelCalls.Kernel.FindIdleTask` | kernel/sched/sched.c:62-89 | the traversal finds the first task that does not run, or idles |
| `KernelCalls.Kernel.DoBlock` | kernel/sched/sched.c:130-142 | the pointer and field updates are the state machine's switch |
| `KernelCalls.Kernel.CheckSleepers` | kernel/sched/time.c:34-43 | the safe traversal wakes exactly the tasks whose time has come, in order, although it moves them while walking |
| `KernelCalls.Kernel.DoScheduler` | kernel/sched/sched.c:91-115 | is the state machine's reschedule |
| `KernelCalls.Kernel.DoSleep` | kernel/sched/sched.c:117-128 | is the state machine's sleep |
| `KernelCalls.Kernel.MutexAcquire` | kernel/locking/lock.c:49-57 | is the state machine's acquire |
| `KernelCalls.Kernel.MutexRelease` | kernel/locking/lock.c:59-73 | is the state machine's release |
| `KernelCalls.Kernel.Drain` | kernel/locking/lock.c:140-146 | the wake-up loop empties the list in order |
| `KernelCalls.Kernel.ConditionWait` | kernel/locking/lock.c:125-130 | is the state machine's condition wait up to the switch |
| `KernelCalls.Kernel.ConditionSignal` | kernel/locking/lock.c:132-138 | is the state machine's signal |
| `KernelCalls.Kernel.DoBarrierWait` | kernel/locking/lock.c:90-102 | is the state machine's barrier arrival |
| `KernelCalls.Kernel.CreatePcb` | kernel/sched/sched.c:203-287 | is the state machine's exec, and returns the new pid, or 0 without a slot or for an unknown program |
| `KernelCalls.Kernel.ReleaseMutexesOf` | kernel/sched/sched.c:295-299 | the loop hands on every mutex of the pid |
| `KernelCalls.Kernel.ReleasePcb` | kernel/sched/sched.c:287-306 | is the state machine's release of a PCB |
| `KernelCalls.Kernel.DoExit` | kernel/sched/sched.c:308-328 | is the state machine's exit |
| `KernelCalls.Kernel.FindByPid` | kernel/sched/sched.c:420-429 | the search loop finds the first slot with that pid |
| `KernelCalls.Kernel.DoKill` | kernel/sched/sched.c:331-357 | is the state machine's kill, and reports whether the pid exists |
| `KernelCalls.Kernel.DoWaitPid` | kernel/sched/sched.c:420-434 | is the state machine's waitpid |
| `KernelCalls.Kernel.SlaveTakesTask` | kernel/smp/smp.c:30-46 | CPU 1 takes the second node of the ready queue |
| `KernelCalls.Kernel.Perform` | kernel/sched/sched.c:91-434 | every entry into the kernel is exactly one step of the state machine, and keeps its invariant |
| `KernelCalls.Kernel.PerformAll` | kernel/sched/sched.c:91-434 | any run of the pointer-level kernel ends where the run of the state machine ends |
| `MailboxModel.Mailbox.constructor` | kernel/locking/lock.c:157-169 | an empty ring |
| `MailboxModel.Mailbox.Put` | kernel/locking/lock.c:253-259 | one byte is appended to the outstanding bytes |
| `MailboxModel.Mailbox.Take` | kernel/locking/lock.c:291-298 | with one increment, the oldest outstanding byte is removed |
| `MailboxModel.Mailbox.TrySend` | kernel/locking/lock.c:236-270 | the message goes in whole, exactly when it fits, and receivers are woken; otherwise the sender blocks; nobody stays blocked whose request could be met |
| `MailboxModel.Mailbox.TryRecv` | kernel/locking/lock.c:272-308 | the oldest n bytes come out, exactly when there are n, and senders are woken; otherwise the receiver blocks |
| `MailboxModel.Mailbox.TakeAsWritten` | kernel/locking/lock.c:291-298 | the loop as it stands reads every second byte and moves the read cursor by two per byte |
| `MailboxModel.RecvAsWrittenRight` | kernel/locking/lock.c:272-308 | a receive as the code stands keeps the FIFO promise, bytes and what stays outstanding, if and only if it receives nothing; with one increment it always does |
| `MailboxModel.OneByteAsWritten` | kernel/locking/lock.c:226-298 | after sending and receiving one byte as the code stands the cursors claim -1 outstanding bytes and 65 bytes seem to fit |
| `MailboxModel.DoubleIncrement` | kernel/locking/lock.c:291-298 | the bytes that the loop as it stands returns in one call are the oldest ones, for every content of the ring, if and only if there is at most one |
| `MailboxModel.MessagesContiguous` | kernel/locking/lock.c:253-259 | the sent stream is the accepted messages one after the other |
| `MailboxModel.Exchange` | kernel/locking/lock.c:226-308 | every sequence of sends and receives on the ring does what the FIFO stream does, and the round/cursor formula is the number of outstanding bytes |
| `MailboxRuns.TakeOk` | kernel/locking/lock.c:236-308 | every step, of senders, receivers and everyone else, keeps the books: who is on a list of the mailbox is in a call whose request does not fit |
| `MailboxRuns.Returned` | kernel/locking/lock.c:236-308 | after acquire the caller owns the mutex before it looks at the buffer |
| `MailboxRuns.OneAtATime` | kernel/locking/lock.c:236-308 | whoever is at the buffer owns the mutex of the mailbox, so no two CPUs are there together |
| `MailboxRuns.BlockedForAReason` | kernel/locking/lock.c:236-308 | no wake-up is lost, over every run: a task blocked in do_mbox_send or do_mbox_recv waits for a mutex that a live task holds, or is on its list and its request does not fit |
| `MailboxRuns.AttemptLeaves` | kernel/locking/lock.c:236-308 | no task leaves do_mbox_send or do_mbox_recv, or blocks in it, with the mutex in hand: served it is in user mode, otherwise last on its list |
| `MailboxRuns.CallEnds` | kernel/locking/lock.c:236-308 | a call ends by being served whole or with the death of its task, and asks for the same until then |
| `MailboxRuns.RunIsFifo` | kernel/locking/lock.c:236-308 | over every run, with any interleaving, blocking, retrying and killing, the buffer is that of a FIFO serving the requests one by one |
| `MailboxRuns.RunStreams` | kernel/locking/lock.c:236-308 | over every run, what went in is the messages of the served sends, each in one piece, and what came out is a prefix of it, as long as the served receives asked for |
| `MailboxRuns.MailboxAtBoot` | kernel/locking/lock.c:157-169 | the books hold after init_mbox, so the runs start |
| `Bitmap.SetBitUsed` | kernel/fs/fs.c:22-71 | marking or freeing a block changes the state of that block only |
| `Bitmap.TrailingOnes` | kernel/fs/fs.c:34 | the shift loop finds the first zero bit |
| `Bitmap.Alloc` | kernel/fs/fs.c:22-46 | the lowest free number is taken and marked; a full map is left alone |
| `Bitmap.Free` | kernel/fs/fs.c:58-71 | exactly the bit of that block is cleared |
| `Bitmap.AllocAsWritten` | kernel/fs/fs.c:35 | with the int shift, marking the first free bit k of a word is right if and only if k < 31, k = 63, or k = 31 with a full upper half |
| `Bitmap.AllocTwice` | kernel/fs/fs.c:35 | from bit 32 to 62 the word does not change, so the same block is handed out again |
| `Bitmap.FreeAsWrittenRight` | kernel/fs/fs.c:58-71 | free_block as it stands frees its block and nothing else, for every block of the map and whatever the map and the sector behind it hold, if and only if 1 <= n mod 64 <= 31 |
| `Bitmap.FreeLastAsWritten` | kernel/fs/fs.c:58-71 | for the last block the map stays as it is and the word behind it loses bits 31 to 63 |
| `BlockMap.WordStored` | kernel/fs/fs.c:684-701 | storing an index word changes that word of the table only |
| `BlockMap.InodeStored` | kernel/fs/fs.c:94-116 | write_inode then read_inode gives the inode back and every other inode of the sector stays |
| `BlockMap.StoreData` | kernel/fs/fs.c:53-56 | writing a block that is no index table changes no block number of any file |
| `BlockMap.StoreEntry` | kernel/fs/fs.c:684-701 | writing a word of an index table changes that one block number of that one file |
| `BlockMap.StoreInode` | kernel/fs/fs.c:681-683 | writing an inode changes the direct blocks of that file only |
| `BlockMap.DataRefInjective` | kernel/fs/fs.c:653-676 | different block indices are stored at different places |
| `BlockMap.OffsetToBlkIs` | kernel/fs/fs.c:653-676 | offset_to_blk finds the number stored for that block in all three ranges |
| `BlockMap.SetInodeBlkIs` | kernel/fs/fs.c:678-703 | after set_inode_blk_num the new block is at that index and every other index of every file is unchanged |
| `BlockMap.SetNeedsTables` | kernel/fs/fs.c:653-703 | for every new number the metadata, the blocks of all files and all other lookups stay as they are if and only if the index tables exist, or the garbage taken for a missing double-indirect table names a data block of no file |
| `BlockMap.InodesOverwritten` | kernel/fs/fs.c:678-703 | without a double-indirect table a superblock word is taken for its entry, and the number lands in a block of inodes |
| `BlockMap.SharedByMistake` | kernel/fs/fs.c:653-703 | without an indirect table the number lands in the block of the superblock, and every file without one finds it there |
| `Files.FormattedOk` | kernel/fs/fs.c:275-291 | the maps that do_mkfs writes mark exactly the metadata blocks and satisfy the invariant |
| `Files.LinkBlock` | kernel/fs/fs.c:792-794 | a freshly allocated block belongs to no file and to no metadata, and linking it keeps all block numbers distinct and all data |
| `Files.ChunkBytes` | kernel/fs/fs.c:790-809 | one chunk changes exactly its bytes of that file and no byte of any other |
| `Files.FileSystem.AllocBlock` | kernel/fs/fs.c:22-46 | the block was free and is now marked |
| `Files.FileSystem.WriteFile` | kernel/fs/fs.c:773-812 | the body of do_fwrite with the buffer advancing or not: the image that ends up in the file, and nothing else in any file |
| `Files.FileSystem.WriteChunk` | kernel/fs/fs.c:790-809 | one round of the write loop, with allocation where needed |
| `Files.FileSystem.Fwrite` | kernel/fs/fs.c:773-812 | exactly the bytes at the descriptor's offset become the buffer, for all files at once; the size becomes the end of the transfer if that is larger and stays otherwise; the offset moves on; without write permission nothing happens |
| `Files.FileSystem.Fread` | kernel/fs/fs.c:738-771 | the bytes of the file up to the length asked for or the first unallocated block; the disk is not changed |
| `Files.FileSystem.Lseek` | kernel/fs/fs.c:922-960 | the place asked for where it is inside the file, 0 before it, and the end for a forward seek beyond it; never beyond the end for a descriptor inside the file |
| `Files.FileSystem.WriteThenRead` | kernel/fs/fs.c:738-812 | writing, seeking back and reading gives the bytes written, for every offset and length |
| `Files.FileSystem.FwriteAsWritten` | kernel/fs/fs.c:773-812 | as it stands, do_fwrite puts the beginning of the buffer into every block it touches, and nothing else into any file |
| `Files.WriteAsWrittenRight` | kernel/fs/fs.c:790-809 | do_fwrite as it stands writes its buffer for all bytes if and only if the transfer stays inside one block |
| `Files.FileSystem.FreadAsWritten` | kernel/fs/fs.c:738-771 | as it stands, do_fread stores every chunk at the beginning of the caller's buffer |
| `Files.ReadAsWrittenRight` | kernel/fs/fs.c:752-768 | do_fread as it stands delivers the bytes, whatever they are and the buffer held, if and only if the transfer stays inside one block |
| `Files.ReadAcrossBorder` | kernel/fs/fs.c:752-768 | two bytes across a block border: the second arrives in the place of the first and the other place keeps its junk |
| `Directories.Find` | kernel/fs/fs.c:370-383 | the first valid entry of that name before the first empty one; not found means that no entry before the first empty one has the name |
| `Directories.RootOk` | kernel/fs/fs.c:130-157 | the tree with the root directory alone is in order |
| `Directories.EntryAdded` | kernel/fs/fs.c:612-619 | filling an empty slot adds one entry for that inode and none for others |
| `Directories.EntryRemoved` | kernel/fs/fs.c:897-901 | invalidating an entry takes exactly it away |
| `Directories.OverwrittenAt` | kernel/fs/fs.c:790-809 | a write changes exactly its bytes |
| `Directories.TouchedOk` | kernel/fs/fs.c:600-619 | a new file keeps every link count equal to the entries naming the file |
| `Directories.LinkedToOk` | kernel/fs/fs.c:829-863 | a hard link keeps every link count right |
| `Directories.WithDirectoryOk` | kernel/fs/fs.c:440-454 | a new directory keeps every link count right |
| `Directories.RemovedOk` | kernel/fs/fs.c:887-917 | removing a name keeps every link count right |
| `Directories.LastNameGone` | kernel/fs/fs.c:904-917 | a file is gone exactly when the last entry naming it is |
| `Directories.StepOk` | kernel/fs/fs.c:388-920 | every operation keeps every link count equal to the number of valid entries naming the file |
| `Directories.After` | kernel/fs/fs.c:388-920 | so does every run |
| `Lookups.ParseIs` | kernel/fs/fs.c:355-386 | parse_path finds the first inode that answers to the name, and 0 exactly when none does |
| `Lookups.TouchMakes` | kernel/fs/fs.c:565-622 | do_touch: a name that led nowhere leads to an empty file that was not there, and every other name, file and directory is as before |
| `Lookups.LnLinks` | kernel/fs/fs.c:821-866 | do_ln: a name that led nowhere now leads where the old one leads, one that was taken still leads where it led; the file has one more link, and every other name leads where it led |
| `Lookups.MkdirMakes` | kernel/fs/fs.c:408-457 | do_mkdir: the new name leads to a directory that was not there, in which . leads to itself, .. to where it was made, and nothing else anywhere |
| `Lookups.RmRemoves` | kernel/fs/fs.c:868-920 | do_rm: the first entry of the name answers no more, the file loses a link or is gone with the last, and every other name leads where it led |
| `Lookups.WriteChanges` | kernel/fs/fs.c:773-812 | a write changes exactly the bytes written, of that file, and its size only to reach their end; names and links stay |
| `Lookups.CdMoves` | kernel/fs/fs.c:388-406 | do_cd changes where names are looked up, to the directory that the name leads to, and nothing else |
| `Lookups.DotsStayOverRuns` | kernel/fs/fs.c:408-457 | over every run, whatever names are touched, linked and removed, . of a directory leads to itself and .. to where it was made |
| `Lookups.ThereAndBack` | kernel/fs/fs.c:388-457 | mkdir, any run that leaves the name alone, cd there and cd ..: the tree and the current directory are those before the cd |
| `Lookups.RootDots` | kernel/fs/fs.c:130-157 | in the root directory . and .. lead to the root |
| `Lookups.LinkShares` | kernel/fs/fs.c:821-866 | what is written by one name of a file is read by the other |
| `Lookups.LinkOutlives` | kernel/fs/fs.c:821-920 | after the old name is removed the link still leads to the same file with the same bytes and the link count of before |
| `Dentries.EnterIs` | include/os/fs.h:48-54 | writing inode number, valid byte and name of an entry, as bytes of the block, sets that entry and no other |
| `Dentries.InvalidateIs` | kernel/fs/fs.c:898-899 | clearing the valid byte keeps inode number and name, and all other entries |
| `Dentries.DirectoryBlockIs` | kernel/fs/fs.c:145-154 | the block of a new directory holds . and .. and is otherwise empty |
| `TreeOnDisk.NewFileShows` | kernel/fs/fs.c:601-610 | a new inode shows an empty file and keeps every other file and directory on the disk |
| `TreeOnDisk.EnterShows` | kernel/fs/fs.c:612-619 | writing a directory block changes that directory and no byte of anything else |
| `TreeOnDisk.RefsShow` | kernel/fs/fs.c:829-863 | writing an inode with another link count changes nothing else |
| `TreeOnDisk.FreeAllUsed` | kernel/fs/fs.c:914-917 | exactly the listed blocks become free |
| `TreeOnDisk.FreeFileOk` | kernel/fs/fs.c:912-917 | freeing a file keeps all block numbers distinct, owned and marked, and frees exactly its direct blocks |
| `TreeOnDisk.FreeFileShows` | kernel/fs/fs.c:912-917 | freeing a file keeps every byte of every other file and every directory |
| `TreeOnDisk.RmFreesAll` | kernel/fs/fs.c:912-917 | with the last name all blocks of the file become free if and only if it has no index tables |
| `TreeOnDisk.RmLeaks` | kernel/fs/fs.c:912-917 | an indirect table stays marked although it belongs to no file any more |
| `TreeOnDisk.RmLeaksHere` | kernel/fs/fs.c:912-917 | a concrete disk on which that happens |
| `TreeOnDisk.NewDirIs` | kernel/fs/fs.c:130-157 | a new directory takes a free inode and a free block, and every other file and directory keeps its inode and bytes |
| `TreeOnDisk.RootShows` | kernel/fs/fs.c:240-306 | the disk after the maps and the root directory of do_mkfs shows the root tree |
| `TreeOnDisk.WriteShows` | kernel/fs/fs.c:773-812 | what do_fwrite promises of the disk is the write on the tree |
| `DirectoryCalls.FileTree.Mkfs` | kernel/fs/fs.c:240-306 | the file system starts with the root directory alone |
| `DirectoryCalls.FileTree.Scan` | kernel/fs/fs.c:577-594 | the loop over the entries finds what Find says |
| `DirectoryCalls.FileTree.EmptySlot` | kernel/fs/fs.c:615 | the first slot without an inode |
| `DirectoryCalls.FileTree.ParsePath` | kernel/fs/fs.c:355-386 | for one component: the inode of the first valid entry of that name, or 0 |
| `DirectoryCalls.FileTree.AllocInode` | kernel/fs/fs.c:73-92 | the lowest free inode, now marked |
| `DirectoryCalls.FileTree.DoTouch` | kernel/fs/fs.c:565-622 | error exactly for long or taken names; else the disk shows the tree with the new, empty file |
| `DirectoryCalls.FileTree.DoLn` | kernel/fs/fs.c:821-866 | error exactly for equal names; else the disk shows the tree with one more link |
| `DirectoryCalls.FileTree.DoRm` | kernel/fs/fs.c:868-920 | error exactly if no file has the name; else the disk shows the tree without the entry, and without the file when it was the last; only then its direct blocks are freed |
| `DirectoryCalls.FileTree.DoMkdir` | kernel/fs/fs.c:408-457 | error exactly for long or taken names; else the disk shows the tree with the new directory |
| `DirectoryCalls.FileTree.DoCd` | kernel/fs/fs.c:388-406 | the directory changes exactly if the name is one |
| `DirectoryCalls.FileTree.DoWrite` | kernel/fs/fs.c:705-812 | the disk shows the tree with the bytes written |
| `DirectoryCalls.FileTree.DoRead` | kernel/fs/fs.c:738-771 | a read by name gives the bytes that the tree has for the file, up to the length asked for or the first missing block, which reads as zeros |
| `DirectoryCalls.FileTree.PerformAll` | kernel/fs/fs.c:388-920 | over every run of touch, ln, rm, mkdir, cd and writes the disk shows exactly the tree after the run: link counts, names, sizes and bytes of all files; the run stops only for lack of a slot, inode, block or table |
| `Image.Builder.WriteSegment` | tools/createimage.c:224-238 | the file bytes of a loadable segment are appended, of any other nothing |
| `Image.Builder.WritePadding` | tools/createimage.c:240-250 | zeros up to the new address |
| `Image.Builder.WriteProgram` | tools/createimage.c:116-131 | all loadable bytes in order; the sizes of all headers are summed |
| `Image.Builder.CreateImage` | tools/createimage.c:88-179 | the image is the padded programs one after the other with the numbers in the boot sector; the task table has each task's sizes |
| `Image.BootNumbers` | init/main.c:137-147 | the numbers read from the boot sector are those written, kernel sectors and signature included |
| `Image.HeaderSizes` | tools/createimage.c:124-130 | the recorded sizes are the sums over the program headers of p_filesz and of p_memsz, every header once |
| `Image.HeaderBytes` | tools/createimage.c:224-238 | the bytes written are those of the loadable headers that occupy memory, in the order of the headers |
| `Image.LayoutAt` | tools/createimage.c:107-158 | each program starts where the ones before it end |
| `Image.LoaderFinds` | kernel/loader/loader.c:14-27 | the loader looks for a task where the builder put it if and only if no earlier program has file bytes outside loadable segments that make up a sector |
| `Image.LoaderMisses` | kernel/loader/loader.c:14-27 | behind a program with a 513-byte segment that is not loaded, the next task is looked for two sectors too far |
| `Image.LoadTaskImg` | kernel/loader/loader.c:11-82 | user memory is the task's bytes and then zeros to the end of its last page, whatever the frames held; an unknown name is reported |
| `Image.BuildThenLoad` | kernel/loader/loader.c:11-82 | loading a task from the built image gives exactly its loadable bytes and zeros, with room for the p_memsz of every header, whenever the recorded sizes of the programs up to it take the sectors that were written |
| `Image.BuildThenLoadable` | kernel/loader/loader.c:11-82 | the same without conditions on sizes, for programs whose file bytes are all in loadable segments |
| `ExecArgs.Disjoint` | kernel/sched/sched.c:257-274 | the strings and the pointer array occupy pairwise disjoint parts of the stack page |
| `ExecArgs.CopyString` | kernel/sched/sched.c:271-273 | the string and its terminator are in the page and nothing else changed |
| `ExecArgs.PassArguments` | kernel/sched/sched.c:254-280 | every string and every pointer is in place, argv ends with a null pointer, sp is 128-aligned and at or below all of them |
| `ExecArgs.ArgumentsArrive` | kernel/sched/sched.c:254-280 | following argv[i] through the registers reads back exactly the i-th string |
| `ExecArgs.ExecThenRead` | kernel/sched/sched.c:254-280 | what the new task reads is what do_exec was given |

## Left out

- Threads and shared pages: one PCB per pid, and no mapping without a descriptor.
- free_page_with_kva, free_pagetable and free_pgdir: address spaces are created and used, not torn down.
- FrameAllocator.Frames.Kalloc: called only below FREEMEM_KERNEL_STOP, which the kernel does not check.
- FrameAllocator.Frames.Kfree: only pages that are handed out are freed; freeing a page twice would put it on the list twice.
- Paging.VirtualMemory.AllocPageHelper: the page is not mapped yet, and frames and descriptors are not exhausted; the kernel checks neither.
- Paging.VirtualMemory.HandlePageFault: a fault on a page that is not present, with memory left.
- Paging.VirtualMemory.SharePgtable: the kernel's directory has no entries in the user half, as boot leaves it.
- The sector cursor of the swap area: it grows without bound, and that it would reach the file system at sector 0x100000 after enough swaps is not modelled; the SD card is a total map from sectors to contents, and failures of the BIOS calls are not modelled.
- User addresses at or above 2^38, the kernel half of the page table, TLB flushes and satp: the user half of Sv39 is modelled, the kernel entries are opaque words, and the hardware is taken to set the accessed and dirty bits itself. `PteBits` states the laws of the words on 64-bit vectors; that its functions and those of `PageTable` compute the same numbers is not proved.
- What do_waitpid returns after the task is gone, which is read from its slot then.
- SchedRuns.NextInv: only owners release a mutex; do_kill of a running task, do_exit with sibling threads and do_barrier_destroy, which break the invariants, are excluded.
- KernelCalls.Kernel.DoKill: the victim does not run, and pid 0, which matches unused slots, is not killed.
- KernelCalls.Kernel.DoWaitPid: pid 0, which matches unused slots, is not waited for.
- KernelCalls.Kernel.Perform: the events of SchedRuns.NextInv.
- KernelCalls.Kernel.PerformAll: the runs of those events.
- SchedTheorems.BarrierRounds: runs without kill and without re-initialisation of that barrier; KillAtBarrier says exactly when a kill is harmless.
- check_net_send and check_net_recv in do_scheduler, the network driver and its queues.
- swap_in_all_pages inside find_idle_task: the scheduler and the memory are modelled separately; SwapInAllPages may happen at any point of a memory run.
- MailboxModel.Mailbox.TrySend: one attempt under the mutex, with blocked requests kept as their lengths; the wait loop around it is in MailboxRuns.
- MailboxModel.Mailbox.TryRecv: one attempt, as for TrySend.
- MailboxRuns.TakeOk: the send and receive lists of the mailbox are two lists of the condition kind that nobody else waits on, since the source treats them alike (release, block, acquire; wake all); the buffer is the FIFO that MailboxModel.Exchange proves the ring to be, with one increment per byte.
- do_mbox_open and do_mbox_close, and the choice of lock, barrier and condition indices from keys.
- Files.FileSystem.AllocBlock: there is a free block; a full map is handled by Bitmap.Alloc alone.
- Files.FileSystem.WriteChunk: a free block if the file lacks this one, and the index tables of the block.
- Files.FileSystem.WriteFile: free blocks and index tables as for Fwrite.
- Files.FileSystem.Fwrite: needs a free block for every block of the range that the file lacks, and the index tables for the range, which nothing in the kernel creates.
- Files.FileSystem.FwriteAsWritten: as Fwrite.
- Files.FileSystem.Fread: needs the index tables for the range, as the code does.
- Files.FileSystem.FreadAsWritten: as Fread.
- Files.FileSystem.WriteThenRead: as Fwrite.
- do_mkfs beyond the maps and the root directory, init_superblock, the 8MB.dat initialiser, do_statfs, do_ls, do_cat, do_rmdir, do_fopen and do_fclose.
- DirectoryCalls.FileTree.Mkfs: without 8MB.dat.
- Directories.StepOk: operations find a slot, an inode and a name of one component, as the calls below need them.
- Directories.After: runs of such operations.
- Lookups.TouchMakes: the name is not empty, since the empty path means the current directory.
- Lookups.LnLinks: as TouchMakes, for the new name.
- Lookups.MkdirMakes: as TouchMakes.
- DirectoryCalls.FileTree.ParsePath: one component of at most 14 characters, since longer names overrun the buffer of parse_path; a scan that finds neither the name nor an empty slot runs past the block.
- DirectoryCalls.FileTree.DoRead: the name is that of a file, and the index tables are there, as for Fread.
- DirectoryCalls.FileTree.EmptySlot: there is an empty slot; the code has no check.
- DirectoryCalls.FileTree.AllocInode: there is a free inode; the code has no check.
- DirectoryCalls.FileTree.DoTouch: there are an empty slot and a free inode.
- DirectoryCalls.FileTree.DoLn: the source is an existing file, which the code does not check, and there is an empty slot.
- DirectoryCalls.FileTree.DoRm: one component, as for ParsePath.
- DirectoryCalls.FileTree.DoMkdir: there are an empty slot, a free inode and a free block.
- DirectoryCalls.FileTree.DoCd: one component, as for ParsePath.
- DirectoryCalls.FileTree.DoWrite: the name is that of a file; blocks and tables as for Fwrite.
- Directories have the one block they are created with.
- Image.Builder.CreateImage: takes program headers and their bytes as given instead of parsing ELF files, and expects bootblock and main first.
- Image.LoadTaskImg: the recorded size takes as many sectors as what was written; LoaderFinds says when tasks are not found otherwise.
- Image.BuildThenLoad: a boot block of exactly one sector, which the loader takes for granted, and sizes as for LoadTaskImg.
- Image.BuildThenLoadable: a boot block of exactly one sector.
- The task table at the end of the image is passed as a value; its byte layout is a memory copy on both sides.
- ExecArgs.PassArguments: the strings and the pointer array fit the stack page; the code does not check.
- ExecArgs.ExecThenRead: as PassArguments.
- Wrap-around of pids, page ids, round counters and times.
