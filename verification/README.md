# A verified model of a single-core kernel's concurrency and memory core

This project models the parts of the kernel where threads, interrupts, the MMU, caches and memory meet, and
proves properties of every run of that model.

- **Scheduler and synchronisation** (`KernelState`, `KernelInvariant`, `WaitQueues`, `LostWaiter`, `Schedules`,
  `Semaphores`, `Lockdep`, `LockOrder`, `PriorityInheritance`, `Inversion`, `UnsafeSwitches`, `Rotation`, `RoundRobin`,
  `Outcomes`, `Preemption`). A step is one section between `preempt_disable` and `preempt_enable`, a yield or a tick. Queues are
  sequences here; `KernelLinks` has the same operations over the intrusive pointers, circular run queue, wait links and
  owned lists, and refines each one.
- **Spinlocks** (`Spinlock`, `CriticalSections`). Every primitive is cut into its atomic parts, with interrupts and
  switches between.
- **Page tables** (`PageTables`, `Mmu`, `DmaPolicy`). 64-bit descriptors and a table walk after the Arm Architecture
  Reference Manual for A-profile (ARM DDI 0487), section D8.3; the builder and the guard pages as value functions and
  as loops over arrays; the DMA code's address policy against the walk.
- **Non-coherent DMA** (`Coherency`, `CacheMaintenance`, `DmaQueue`, `DmaDescriptors`). A write-back cache of whole
  lines with arbitrary fills and evictions, a device that bypasses it, and the descriptor queue with its callbacks.
- **Allocators** (`FirstFit`, `HeapMemory`, `MemPool`, `PowerOfTwo`, `Alignment`, `Words`, `Kmem`).

`Prelude` and `Links` hold the facts about sequences, division and linked lists that the others use.

## Where code and intent differ

- `mutex_lock` and `sem_down` store the caller's wait link and then call `sched_block_current`, which clears it
  (src/sync.cc:182-186, src/sync.cc:276-278, src/thread.cc:470). The second contender therefore drops the first.
  `Config.repaired` chooses between the code as written and a block step that leaves the link alone. What holds only
  repaired says so. As written, queues hold at most one thread; the exact condition and a losing run are given for
  mutexes (`WaitQueues.BlockingLosesEarlierWaiters`, `LostWaiter.TwoWaiterLoss`) and for semaphores
  (`WaitQueues.SleepingLosesEarlierSleepers`, `LostWaiter.TwoSleeperLoss`).
- `need_resched` is cleared after `do_switch` returns (src/thread.cc:459-460), so by the switched-out thread when it
  next runs. The state records which threads left that way.
- Lockdep looks 16 owners far (src/sync.cc:40). As a thread that blocks leaves another READY, that is exact up to 17
  threads (`Lockdep.LockdepExact`) and not with 18 (`Lockdep.SeventeenMissed`).
- `mutex_set_pi_enabled` changes the owner's priority without asking for a reschedule (src/sync.cc:137-145). Switching on
  can raise a READY owner above the running thread, switching off can drop the running owner below a READY one. The
  exact condition is `Inversion.SwitchIsExact`; `UnsafeSwitches` has a run from initialisation to each.
- The interrupt flags of `spin_unlock_irqrestore` protect other irqsave locks only when released in order; the exact
  condition is `Spinlock.TidyIsExact`.
- Under the non-cacheable window policy a buffer across the window's edge gets no cache maintenance at all
  (src/dma.cc:43-47). A copy is right for every run if and only if neither buffer straddles: `Coherency.CopyEndToEnd`
  one way, the two `Straddling...Fails` lemmas the other.
- The destination is not cleaned at submit (src/dma.cc:174-175). A copy survives every poll if and only if no dirty
  byte of the destination differs from what is to be copied there: `Coherency.DeliveryIsExact`.
- The DMA globals are read and written with preemption and interrupts on. A thread that submits while another is between
  read and write of `g_dma_desc_next` (src/dma.cc:136-141) shares its descriptor: `DmaQueue.PreemptedSubmit`. A timer
  interrupt there only polls, and pending requests keep descriptors of their own: `DmaQueue.InterruptsKeepPending`.
- `dma_alloc_buffer` has the same gap (src/dma.cc:150-158), and there an interrupt's callbacks suffice to have two buffers
  overlap; the exact condition is `DmaQueue.PreemptedAllocate`, a run `DmaQueue.SameBuffer`.
- A poll that is interrupted between reading the head and moving it on (src/dma.cc:198-199) completes that request twice;
  the exact condition is `DmaQueue.PreemptedPoll`.
- Without `MEM_POOL_DEBUG` a double free is accepted while another block is live; the exact condition is
  `MemPool.PlainFreeExact`.
- `kmem_alloc_aligned` compares a sum that can wrap, and rounds an alignment above 2^63 to zero; the exact condition is
  `Kmem.GrantExact`. Its header asks for a power-of-two alignment, the code rounds any other up, and the model follows
  the code.

## Model

| member | source | states |
|---|---|---|
| KernelLinks.Kernel.constructor | src/thread.cc:315-320 | creates, initialises and adds threads, mutexes and semaphores in order: links and invariant established, every priority the one given brought into 0..31, every count the one given, inheritance as built |
| KernelLinks.Kernel.AddThreads | src/thread.cc:334-342 | adding every thread leaves a circular queue holding them in order of creation |
| KernelLinks.Kernel.SchedStart | src/thread.cc:344-363 | the first thread is queued; under PRIO of maximal priority, otherwise the head |
| KernelLinks.Kernel.RqAppend | src/thread.cc:122-133 | the ring gains the thread at its tail and stays closed (tail.next = head) |
| KernelLinks.Kernel.RqRemove | src/thread.cc:135-156 | the ring loses exactly that thread, the others keep their order; an absent thread changes nothing |
| KernelLinks.Kernel.RqMaxReadyPriority | src/thread.cc:159-171 | one turn of the ring finds the highest priority of a READY thread, -1 if none |
| KernelLinks.Kernel.RqHasReadyPrioGt | src/thread.cc:173-184 | true iff some READY queued thread is above the given priority |
| KernelLinks.Kernel.PrioPickNext | src/thread.cc:186-213 | the pointer walk picks the thread the queue-level choice names |
| KernelLinks.Kernel.DoSwitch | src/thread.cc:216-224 | current thread changes; a thread that left through the reschedule tail clears need_resched when it resumes |
| KernelLinks.Kernel.SchedReschedFromIrqTail | src/thread.cc:435-461 | over the ring, the thread RoundRobin.TailMovesOn (RR) or Rotation.PickIsFirst (PRIO) names gets the processor; nothing while preemption is off |
| KernelLinks.Kernel.ThreadYield | src/thread.cc:365-384 | refines the queue-level yield and refuses while preemption is off |
| KernelLinks.Kernel.SchedOnTick | src/thread.cc:393-433 | budget, expiry and reschedule request exactly as the queue-level tick; nothing while preemption is off |
| KernelLinks.Kernel.SchedBlockCurrent | src/thread.cc:463-471 | a READY caller leaves the ring, turns BLOCKED and, unless repaired, loses the link it has just stored; a BLOCKED caller changes nothing |
| KernelLinks.Kernel.SchedMakeRunnable | src/thread.cc:473-480 | turns READY with a full budget at the tail of the ring |
| KernelLinks.Kernel.PreemptDisable | src/preempt.cc:6-10 | the count rises by one and nothing else changes |
| KernelLinks.Kernel.PreemptEnable | src/preempt.cc:12-22 | the count falls; the reschedule happens exactly when it reaches zero outside an IRQ |
| KernelLinks.Kernel.PreemptReturn | src/preempt.cc:24-29 | resuming after an IRQ reschedules if asked to and allowed |
| KernelLinks.Kernel.TimerIrq | src/irq.cc:45-60 | the timer branch runs the tick with irq_depth raised and asks for the return to preempt_return |
| KernelLinks.Kernel.Tick | src/irq.cc:45-60 | a whole tick, handler and reschedule tail, is one step of the queue-level machine and keeps the invariant |
| KernelLinks.Kernel.Yield | src/thread.cc:365-384 | a whole yield is one step of the queue-level machine and keeps the invariant |
| KernelLinks.Kernel.WaitqMaxPriority | src/sync.cc:77-84 | the walk of the wait links returns the maximal waiter priority, -1 if none |
| KernelLinks.Kernel.WaitqPopHighest | src/sync.cc:50-75 | unlinks the first waiter of maximal priority and keeps the others linked in order |
| KernelLinks.Kernel.OwnedAdd | src/sync.cc:86-90 | the mutex heads the owned list |
| KernelLinks.Kernel.OwnedRemove | src/sync.cc:92-107 | exactly that mutex leaves the owned list, the others keep their order |
| KernelLinks.Kernel.RecomputeEffectivePriority | src/sync.cc:109-120 | refines the recomputation over the owned list |
| KernelLinks.Kernel.MutexApplyPi | src/sync.cc:122-126 | recomputes the direct owner of a PI-enabled mutex and stops there |
| KernelLinks.Kernel.LockdepWouldDeadlock | src/sync.cc:35-47 | the walk reports iff the caller is among the first 16 owners of the chain |
| KernelLinks.Kernel.MutexLock | src/sync.cc:147-190 | one pass of the loop refines the queue-level lock and keeps links and invariant; halts iff lockdep reports |
| KernelLinks.Kernel.MutexTryLock | src/sync.cc:192-219 | 0 iff the caller owns the mutex afterwards, otherwise -1; over the links what Outcomes.TryLockExact says |
| KernelLinks.Kernel.MutexUnlock | src/sync.cc:221-251 | refines the queue-level unlock and keeps links and invariant |
| KernelLinks.Kernel.MutexSetPiEnabled | src/sync.cc:137-145 | refines the queue-level switch of PI and recomputes the owner |
| KernelLinks.Kernel.SemDown | src/sync.cc:259-281 | refines the queue-level down and keeps links and invariant |
| KernelLinks.Kernel.SemUp | src/sync.cc:283-301 | refines the queue-level up and keeps links and invariant |
| Links.RingAppend | src/thread.cc:130-132 | appending by two link writes closes the longer ring |
| Links.RingUnlink | src/thread.cc:152-155 | one link write takes a node out of a ring of several |
| Links.ChainUnlink | src/sync.cc:68-73 | one link write takes a node out of a list that ends in null |
| KernelInvariant.PickIsMaximal | src/thread.cc:186-213 | the thread chosen is queued, READY and of maximal effective priority |
| KernelInvariant.FallbackUnreachable | src/thread.cc:209-212 | the scan finds a thread or the current one qualifies: the final fallback is never taken |
| KernelInvariant.StepKeeps | src/sync.cc:137-301 | every step keeps the run queue, wait queues, owned lists and ranges in order |
| KernelInvariant.ReachableInv | src/thread.cc:122-480 | in every reachable state the run queue holds the READY threads once each and owned lists partition the owned mutexes |
| Outcomes.TryLockExact | src/sync.cc:192-219 | mutex_trylock succeeds iff the mutex is free or already the caller's, iff the caller owns it afterwards; taken it joins the caller's list, refused nothing changes; it never blocks |
| Outcomes.LockExact | src/sync.cc:147-190 | mutex_lock takes a free mutex, returns at once from an own one, and otherwise puts the caller to sleep on it or halts; nobody else is touched |
| Outcomes.UnlockExact | src/sync.cc:221-251 | mutex_unlock by another thread changes nothing; by the owner with nobody waiting it frees that mutex alone |
| Outcomes.UnlockWakes | src/thread.cc:473-480 | the waiter a contended unlock chooses joins the tail of the run queue with a full budget |
| Outcomes.DownExact | src/sync.cc:259-281 | sem_down counts, and puts the caller to sleep at the head of the queue iff no unit was left |
| Outcomes.UpExact | src/sync.cc:283-301 | sem_up counts, and if a unit was owed and somebody sleeps wakes the first sleeper of maximal priority, READY at the tail with a full budget |
| Preemption.UnlockPreempts | src/sync.cc:242-250 | either policy, nothing pending: a contended unlock gives up the processor iff the new owner is then above the caller |
| Preemption.UpPreempts | src/sync.cc:287-300 | so does a sem_up that wakes a sleeper, iff the sleeper is above the caller |
| Outcomes.TailNeed | src/thread.cc:454-460 | the reschedule tail clears need_resched if it stays; if it switches, the thread resumed clears it iff it left through the tail, else the request stays |
| Outcomes.YieldNeed | src/thread.cc:365-384 | a yield marks nothing pending of its own, and changes nothing but the thread running |
| Outcomes.WokenGetsQuantum | src/thread.cc:473-480 | a woken thread has all five ticks and no reschedule pending when it next gets the processor, whatever ran before it, from every reachable state |
| Outcomes.BaseWithoutInheritance | src/sync.cc:109-126 | with inheritance compiled out every thread keeps its base priority over every run |
| WaitQueues.NoLostWaiter | src/sync.cc:180-188 | repaired: BLOCKED with waiting_on = m iff queued on m, once; an awaited mutex has an owner; a semaphore queue is max(0, -count) long |
| WaitQueues.UnlockHandsOff | src/sync.cc:232-243 | a contended unlock gives the mutex to the first waiter of maximal priority, wakes it and keeps the rest in order |
| WaitQueues.BlockingLosesEarlierWaiters | src/sync.cc:180-188 | blocking on m keeps its earlier waiters queued iff there are none or the block step is repaired; as written each of them is lost |
| WaitQueues.SleepingLosesEarlierSleepers | src/sync.cc:269-280 | the same for a blocking sem_down and its earlier sleepers |
| WaitQueues.QueuesHoldAtMostOne | src/sync.cc:182-186 | as written no wait queue ever holds two threads |
| WaitQueues.LostForever | src/sync.cc:232-243 | a BLOCKED thread in no queue stays so in every continuation |
| LostWaiter.TwoWaiterLoss | src/sync.cc:180-188 | as written: a run after which m is free while a thread is BLOCKED waiting on it in no queue |
| LostWaiter.TwoSleeperLoss | src/sync.cc:259-301 | as written: a run with a unit for every down, after which count is 0, the queue empty and a sleeper still BLOCKED in no queue |
| Semaphores.RunUnits | src/sync.cc:259-301 | count, queue, downs and ups move together along any run |
| Semaphores.Conservation | src/sync.cc:259-301 | count = initial + ups - downs started, and completed downs never exceed initial + ups, as written or repaired |
| Semaphores.NoLostWakeUp | src/sync.cc:283-301 | repaired: exactly as many downs complete as had a unit, and the rest sleep in the queue |
| Lockdep.WalkIsReach | src/sync.cc:40-45 | the bounded walk is reachability within that many hops |
| Lockdep.ReportMeansCycle | src/sync.cc:35-47 | a report always means that the new edge closes a cycle, for any number of threads |
| Lockdep.LockdepExact | src/sync.cc:174-178 | while fewer than 16 threads are BLOCKED mutex_lock halts iff blocking would close a wait-for cycle |
| Lockdep.ReachableAcyclic | src/sync.cc:147-251 | with lockdep and at most 17 threads no reachable state has a wait-for cycle |
| Lockdep.ChainEnds | src/sync.cc:40-45 | with lockdep and at most 17 threads every wait chain ends, after fewer hops than threads, in a thread not held up by an owner |
| Lockdep.SeventeenMissed | src/sync.cc:40 | from every initial state with 18 threads a run, lockdep on, ends in a cycle of 17 |
| LockOrder.AscendingExcludesDeadlock | src/sync_lab.cc:101-114 | if threads block only on mutexes above all they own, no reachable state has a wait-for cycle |
| LockOrder.ProtocolsExcludeDeadlock | src/sync_lab.cc:101-146 | any mixture of ordered pairs and try-lock with back-off never deadlocks; a thread blocked by the back-off protocol owns nothing, and one past both locks of either owns both mutexes |
| PriorityInheritance.EffectiveIsMaximum | src/sync.cc:109-126 | repaired, PI, no nesting: effective priority is the maximum of base and of waiters on owned PI mutexes; owning nothing means base |
| PriorityInheritance.ReschedIsStrict | src/thread.cc:435-461 | after every reschedule tail no READY thread is above the running one |
| PriorityInheritance.TickIsStrict | src/thread.cc:393-433 | so too after every tick taken with preemption enabled |
| Inversion.SwitchIsExact | src/sync.cc:137-145 | from a state with nobody READY above the running thread and no request pending, switching inheritance leaves nobody there iff the switch is safe |
| Inversion.StepIsStrict | src/preempt.cc:12-22 | a step leaves no READY thread above the running one if it picks anew, or if none was above before and any switch of inheritance is safe |
| Inversion.AlwaysStrict | src/sync.cc:137-301 | repaired, PI, no nesting: the running thread is of maximal effective priority in every state of a run iff every switch of inheritance in it is safe or made with a reschedule pending |
| Inversion.InversionBounded | src/sync.cc:221-251 | after every such step of a run the running thread is at least every waiter on a PI mutex whose owner is READY |
| UnsafeSwitches.SwitchingOffFails | src/sync.cc:137-145 | from every initial state of three priorities a run in which the boosted owner switches inheritance off and runs on below a READY thread |
| UnsafeSwitches.SwitchingOnFails | src/sync.cc:137-145 | one tick later the thread then running switches it on and runs on below the READY owner |
| Rotation.RotationTurns | src/thread.cc:196-207 | moving to the next top-priority thread in ring order turns that ring by one |
| Rotation.TurnStep | src/thread.cc:365-461 | PRIO: a tick, yield or preempt_enable goes to the next thread of the ring iff it is a yield, a rotation is pending or a tick uses up the budget, and the ring turns by one; only a tick spends budget, the current one |
| Rotation.PickIsFirst | src/thread.cc:186-213 | without rotation the current thread if maximal, else the first maximal one from the head; with it the first other maximal one after the current thread in the ring, else the current thread |
| Rotation.RotationBound | src/thread.cc:186-213 | k READY threads at the top: each runs within 5*(k-1) ticks, yields and preempt_enables mixed in |
| Rotation.OneTickToTheTop | src/irq.cc:50-59 | from any reachable state one tick brings a top-priority thread to the processor |
| Rotation.TickPreempts | src/thread.cc:416-419 | PRIO: a tick that finds a READY thread above the current one gives the processor to the first maximal thread from the head, and spends no budget |
| RoundRobin.TailMovesOn | src/thread.cc:446-451 | RR: the reschedule tail goes to the next position of the run queue, cyclically, or to its head when the current thread has left it |
| RoundRobin.SleepGoesToHead | src/thread.cc:435-461 | RR: a thread that blocks leaves the processor to the head of the queue |
| RoundRobin.StepRound | src/thread.cc:365-461 | RR: a tick, yield or preempt_enable goes to the next thread of the circle iff it is a yield, a reschedule is pending or a tick uses up the budget; only a tick spends budget, the current one |
| RoundRobin.TickSpends | src/thread.cc:422-432 | RR: a tick asks for a reschedule iff the budget is used up, and then starts the next quantum |
| RoundRobin.RoundRobinBound | src/thread.cc:365-461 | RR: with k READY threads each runs within 5*(k-1) ticks, yields and preempt_enables mixed in |
| RoundRobin.KeepsQuantum | src/thread.cc:393-433 | RR: with no reschedule pending a thread keeps the processor until its budget is used up, whatever preempt_enables are mixed in |
| Spinlock.StepKeeps | src/spinlock.cc:65-113 | every atomic part of every primitive keeps count = holds + transients, words = holds, and the mask discipline |
| Spinlock.ReachableInv | src/spinlock.cc:65-113 | so in every run, interrupts and switches falling anywhere |
| Spinlock.HeldIsProtected | src/spinlock.cc:100-106 | a held lock means preempt_cnt >= 1 or IRQs masked |
| Spinlock.SwitchIsLockFree | src/preempt.cc:12-29 | whenever the scheduler picks, all spinlocks are free and no handler is running |
| Spinlock.TidyIsExact | src/spinlock.cc:108-113 | a release keeps irqsave locks safe from IRQs iff its flags are masked or no other irqsave lock stays held |
| Spinlock.UntidyExposes | src/spinlock.cc:108-113 | otherwise an IRQ can arrive while the current thread holds an irqsave lock |
| Spinlock.NestedIsTidy | src/spinlock.cc:108-113 | releasing in reverse order always meets that condition |
| Spinlock.NeverMeets | src/spinlock.cc:65-82 | the lock a running context is after is free |
| Spinlock.AcquisitionsNeverWait | src/spinlock.cc:65-113 | over every disciplined run: no acquisition finds its lock taken, and no shared lock is held while IRQs are on |
| Spinlock.SeparateNeverWait | src/spinlock.cc:65-113 | if threads and handlers take different locks, and none they hold, no acquisition of any run finds its lock taken, whatever the primitive and the order of release |
| Spinlock.HandlerDeadlock | src/spinlock.cc:44-52 | a lock taken plainly by a thread and then by a handler: a run in which nobody can move |
| CriticalSections.LockStep | src/spinlock.cc:65-106 | through any step spin_lock and spin_lock_irqsave stay inside the acquisition or come out holding the lock with its word set; a try comes out with the lock or without it |
| CriticalSections.SaveRestores | src/spinlock.cc:100-113 | a free lock taken with spin_lock_irqsave and released with its flags brings count, interrupt mask, words and contexts back to what they were |
| CriticalSections.Saves | src/spinlock.cc:100-106 | between the two the lock is held, its word set, interrupts masked, the count one higher |
| CriticalSections.LockUnlocks | src/spinlock.cc:65-98 | spin_unlock undoes exactly what spin_lock or spin_trylock did |
| CriticalSections.InterruptReturns | src/irq.cc:25-94 | an interrupt whose handler does nothing leaves no trace, and interrupts are masked while it runs |
| PageTables.InitialMap | src/arch/aarch64/mmu.cc:71-189 | walking the built tables gives the intended map at every address: physical address, memory type, shareability, execute-never, and EL1 read-write without EL0 access in all regions |
| PageTables.ShapeTranslates | src/arch/aarch64/mmu.cc:122-189 | tables of the invariant shape translate as intended, guarded pages faulting |
| PageTables.SplitKeeps | src/arch/aarch64/mmu.cc:195-223 | splitting a block keeps the shape, hence translation and every attribute |
| PageTables.WriteKeeps | src/arch/aarch64/mmu.cc:298 | invalidating one page adds exactly that page to the guarded ones |
| PageTables.GuardStep | src/arch/aarch64/mmu.cc:284-305 | a call fails and changes nothing, or makes exactly its page fault |
| PageTables.GuardsPreserveMeaning | src/arch/aarch64/mmu.cc:284-305 | after any calls translation is the initial one with exactly the successfully guarded pages faulting |
| PageTables.GuardFailure | src/arch/aarch64/mmu.cc:284-296 | a call fails iff its address is null or outside RAM, the MMU is off, or a ninth block would have to be split |
| PageTables.TablesNotShared | src/arch/aarch64/mmu.cc:211-221 | two blocks never share a level-3 table |
| Mmu.TranslationTables.BuildIdentityMap | src/arch/aarch64/mmu.cc:122-189 | the loops fill the arrays with the tables whose walk InitialMap gives, permissions included |
| Mmu.TranslationTables.EnsureL3ForRamBlock | src/arch/aarch64/mmu.cc:195-223 | the arrays and the returned table as the split function says |
| Mmu.TranslationTables.MmuGuardPage | src/arch/aarch64/mmu.cc:284-305 | the arrays and the result as the guard function says |
| Mmu.TranslationTables.MmuInit | src/arch/aarch64/mmu.cc:243-278 | builds the map and turns the MMU on, unless it is on already |
| DmaPolicy.CarvedIsWindow | src/arch/aarch64/mmu.cc:156-186 | page-aligned and within two blocks: the carve-out is the window |
| DmaPolicy.CarveOutExact | src/arch/aarch64/mmu.cc:160-182 | the carve-out is the window iff both ends are page-aligned and it spans at most two blocks |
| DmaPolicy.PolicyAgreesWithWalk | src/dma.cc:20-50 | maintenance is allowed iff the range is non-null, non-empty and every byte translates to Normal write-back, under both policies |
| DmaPolicy.ContainedExact | include/dma.h:54-60 | a range is contained iff it is non-null, non-empty and every byte of it lies in the window; a wrapping one never is |
| DmaPolicy.AliasRoundTrip | include/dma.h:54-73 | alias conversion succeeds exactly inside the window and each direction undoes the other |
| DmaPolicy.AliasSameByte | src/arch/aarch64/mmu.cc:145-146 | a RAM address and its alias translate to the same byte, the alias non-cacheable |
| DmaPolicy.DeviceUsesAlias | src/dma.cc:58-77 | with the MMU on the device reaches a range through the alias iff every byte of it lies in RAM, which holds of every maintained one; otherwise ranges keep their address |
| Coherency.ViewStep | src/arch/aarch64/barrier.cc:32-42 | at an address whose cached copy is dirty or agrees with memory, only a write or an invalidation over differing memory changes what the CPU reads |
| Coherency.InvalidateExact | src/dma_lab.cc:365 | invalidating a line keeps the view of a byte iff it is on another line or memory agrees |
| Coherency.ViewRun | src/dma.cc:162-237 | outside the destination the CPU reads what it last wrote, despite fills and evictions |
| Coherency.SyncedRun | src/dma.cc:83-96 | once its line is cleaned, memory goes on holding what the CPU reads while nobody writes |
| Coherency.MemoryRun | src/dma.cc:98-111 | a byte the device wrote survives unless another cached value may still be written back over it, and is read once the line is invalidated |
| Coherency.OwnLines | src/arch/aarch64/barrier.cc:57-62 | a line-aligned range shares no line with anything else |
| Coherency.CopyEndToEnd | src/dma.cc:162-237 | among any other cleaning, filling, evicting, writing and copying elsewhere, the CPU reads in the destination what it read in the source at submit, and what it last wrote wherever no other copy is at work |
| Coherency.QueueDelivers | src/dma.cc:196-237 | so too for every request of a queue polled in order, while earlier ones are completed |
| Coherency.DeliveryIsExact | src/dma.cc:174-229 | every poll delivers a submitted copy iff no dirty byte of the destination differs from the byte to be copied there |
| Coherency.StraddlingSourceFails | src/dma.cc:43-47 | a source across the edge of a non-cacheable mapping is never cleaned: a machine on which the copy is wrong |
| Coherency.StraddlingDestinationFails | src/dma.cc:43-47 | a destination across that edge is never invalidated: a machine on which the copy is wrong |
| Coherency.DirtyDestinationLost | src/dma.cc:213-229 | any such byte: a poll in which its line is evicted between copy and invalidation, and the copy is lost |
| CacheMaintenance.Driver.AllowedIsMaintained | src/dma.cc:40-49 | the range check allows exactly the non-empty ranges without an uncached byte |
| CacheMaintenance.Driver.DcRangeCommon | src/arch/aarch64/barrier.cc:44-65 | one operation for each line touched by the range, in order |
| CacheMaintenance.Driver.DeviceMemcpy | src/dma.cc:130-133 | the byte loop makes the copies the end-to-end result speaks of |
| CacheMaintenance.Driver.PrepareSource | src/dma.cc:83-96 | submit cleans the source exactly when it may be maintained |
| CacheMaintenance.Driver.CopyAndComplete | src/dma.cc:213-229 | poll copies and then invalidates the destination exactly when it may be maintained |
| DmaQueue.PollComplete | src/dma.cc:196-237 | terminates with an empty queue even when callbacks submit, allocate and poll again; what it runs is DmaQueue.CallbacksRunOnce |
| DmaQueue.RunClients | src/dma.cc:235 | a callback never raises remaining descriptors + queue length |
| DmaQueue.PollKeeps | src/dma.cc:196-237 | a poll completes every request pending or submitted meanwhile, once each, in order of submission |
| DmaQueue.FifoExactlyOnce | src/dma.cc:135-237 | after any client calls: completion follows submission, descriptors are distinct, and descriptors and buffers never overlap |
| DmaQueue.CallbacksRunOnce | src/dma.cc:231-235 | after any client calls, for every callback table: the callbacks entered are those of the completed requests, once each, in order, right after their completion, and exactly the calls of clients and of those bodies were made |
| DmaQueue.ClientsInOrder | src/dma.cc:235 | those calls take effect one after the other in the order given |
| DmaQueue.SubmitExact | src/dma.cc:135-194 | a submit is refused with -1 iff an argument is null or empty, with -2 iff else no aligned descriptor fits, both without effect; otherwise it queues that very request under the lowest descriptor that fits |
| DmaQueue.BufferGranted | src/dma.cc:145-160 | a buffer is granted iff the alignment is a power of two and some aligned range of that length fits between descriptors and buffers, and then the highest; a refusal changes nothing |
| DmaQueue.PreemptedSubmit | src/dma.cc:135-143 | a thread preempted between read and write of g_dma_desc_next keeps the queue in order with its submit iff the calls made meanwhile carved no descriptor |
| DmaQueue.SharedDescriptor | src/dma.cc:135-143 | if the preempting thread submits, both requests are pending under one descriptor |
| DmaQueue.InterruptedSubmitIsLive | src/irq.cc:45-60 | if it was a timer interrupt, which polls, the request is the only one pending and none is lost |
| DmaQueue.InterruptsKeepPending | src/irq.cc:45-60 | whatever submits are interrupted so: completion follows submission, once each, and pending descriptors and buffers never overlap |
| DmaQueue.PreemptedAllocate | src/dma.cc:145-160 | interrupted or preempted after reading g_dma_buf_end, a granted buffer keeps the queue in order iff it lies below those handed out meanwhile |
| DmaQueue.SameBuffer | src/dma.cc:145-160 | an interrupt there whose callback allocates: it and the thread are handed the same buffer |
| DmaQueue.PreemptedPoll | src/dma.cc:196-201 | interrupted or preempted between reading the head and moving it on, a poll completes the head once iff nobody else polled; else twice, dropping what was submitted after that poll |
| DmaQueue.InterruptedPoll | src/dma.cc:196-201 | if it was a timer interrupt, everything is completed once in order and then the head again |
| DmaDescriptors.Dma.DmaAllocDesc | src/dma.cc:135-143 | carves the next aligned 56 bytes or fails without effect |
| DmaDescriptors.Dma.DmaAllocBuffer | src/dma.cc:145-160 | carves downwards as the queue-level function says |
| DmaDescriptors.Dma.DmaSubmitMemcpy | src/dma.cc:162-194 | the new descriptor is linked at the tail, list and globals stay in order |
| DmaDescriptors.Dma.DmaPollComplete | src/dma.cc:196-237 | the loop over the linked list ends in the state PollComplete names, log of completions and callbacks included, statuses cleared |
| DmaDescriptors.Dma.FinishPop | src/dma.cc:199-231 | the rest of a turn of the loop from the head read before, pending or completed meanwhile, as the queue-level function says |
| FirstFit.AllocTiles | src/mem_lab.cc:115-151 | an allocation keeps the blocks tiling the heap and no two free ones adjacent |
| FirstFit.FreeTiles | src/mem_lab.cc:176-187 | so does a free of any granule |
| FirstFit.AllocLive | src/mem_lab.cc:131-146 | an allocation adds one live block and moves none: less than 16 bytes over the request, or the whole free block if the rest could not hold a header and 16 bytes |
| FirstFit.FreeLive | src/mem_lab.cc:176-187 | a free removes exactly the live block at that pointer, if any |
| FirstFit.FreeUndoesAlloc | src/mem_lab.cc:115-187 | freeing what was just allocated restores the exact layout |
| FirstFit.FreeingAllRestores | src/mem_lab.cc:153-187 | freeing every live block in any order leaves one block of the heap less one header |
| FirstFit.FragmentationBound | src/mem_lab.cc:189-205 | free_blocks <= used_blocks + 1 and largest_free * (used_blocks + 1) >= total_free |
| FirstFit.AllocExact | src/mem_lab.cc:115-151 | a request fails iff it is empty or above largest_free, without effect, and otherwise takes the lowest fit |
| FirstFit.Conservation | src/mem_lab.cc:108-113 | payload bytes and 16 bytes for each block add up to heap_bytes |
| FirstFit.FreeIsRest | src/mem_lab.cc:189-205 | total_free is the heap less 16 bytes a block less the live sizes; the blocks that are not live are the free ones |
| FirstFit.ReachableHeap | src/mem_lab.cc:108-205 | all of this after any calls, live payloads pairwise disjoint and inside the heap |
| FirstFit.CoalesceSeparates | src/mem_lab.cc:153-174 | one pass of coalescing leaves no two adjacent free blocks, whatever it starts from |
| HeapMemory.Heap.constructor | src/mem_lab.cc:108-113 | the header written spells one free block over memory of any content |
| HeapMemory.Heap.HeapAllocFirstFit | src/mem_lab.cc:115-151 | the header walk and split in memory spell the layout, pointer and step count of the sequence-level allocation |
| HeapMemory.Heap.HeapCoalesce | src/mem_lab.cc:153-174 | the merging walk in memory spells the coalesced layout |
| HeapMemory.Heap.HeapFree | src/mem_lab.cc:176-187 | a free of any 16-aligned pointer spells the freed layout, stale headers in payloads included |
| HeapMemory.Heap.HeapStats | src/mem_lab.cc:189-205 | the three totals of the layout, in bytes |
| MemPool.CarveFits | src/mem_pool.cc:46-70 | the blocks are 16-aligned, at least the size asked for, and inside the backing memory |
| MemPool.CarveExact | src/mem_pool.cc:46-70 | init succeeds iff there is backing memory, a block holds a pointer, no rounding wraps and one block fits behind the alignment gap; base and block size are the least multiples of 16, and one block more would not fit |
| MemPool.OwnsExact | src/mem_pool.cc:108-116 | exactly the block addresses are owned |
| MemPool.TakeKeeps | src/mem_pool.cc:82-89 | an allocation fails iff nothing is free and otherwise hands out a block that was not live |
| MemPool.DebugFreeKeeps | src/mem_pool.cc:91-106 | with the check any free keeps the partition and succeeds exactly on live blocks |
| MemPool.RunKeeps | src/mem_pool.cc:37-106 | with the check, after every call sequence, list and live blocks partition the pool and free_count is the length |
| MemPool.PlainFreeExact | src/mem_pool.cc:91-106 | without the check a free leaves a proper list iff it is refused or the block is not free already; refused it changes nothing, and a live block returns to the head |
| MemPool.DoubleFreeAliases | src/mem_pool.cc:102-105 | without the check a block freed twice is handed out twice |
| MemPool.MemPool.MemPoolInit | src/mem_pool.cc:46-80 | fails exactly where the geometry does, otherwise links all blocks, last first |
| MemPool.MemPool.MemPoolAlloc | src/mem_pool.cc:82-89 | pops the head and moves it to the live blocks |
| MemPool.MemPool.MemPoolFree | src/mem_pool.cc:91-106 | words, list and count as the function says, with and without the check |
| MemPool.MemPool.FreelistContains | src/mem_pool.cc:37-42 | true iff the block is on the list |
| PowerOfTwo.RoundIsLeast | src/kmem.cc:9-21 | up to 2^63 the bit smear gives the least power of two that is at least its argument |
| PowerOfTwo.RoundWraps | src/kmem.cc:9-21 | above 2^63 it wraps to zero |
| PowerOfTwo.ClampAlign | src/mem_pool.cc:18-26 | the doubling loop ends and agrees with the smear |
| Words.PowIsPower | src/kmem.cc:8 | the bit test on a word holds iff its number is a power of two |
| Words.Mask | src/kmem.cc:7 | masking with a power of two takes away the remainder |
| Words.Sum | src/kmem.cc:27 | adding words is adding their numbers modulo 2^64 |
| Words.SmearIsDoubling | src/kmem.cc:9-21 | the bit smear gives the doubling of the number, zero above 2^63 |
| Kmem.GrantExact | src/kmem.cc:23-28 | a grant is aligned and inside the free part of the heap iff nothing wrapped, the rounded alignment included |
| Kmem.AllocExact | src/kmem.cc:23-28 | without wrap-around a call succeeds iff some aligned block of the size fits between cursor and end, and grants the lowest; a refusal changes nothing |
| Kmem.EffectiveIsLeast | src/kmem.cc:24-25 | the alignment used is the least power of two that is at least 16 and the one asked for, zero above 2^63 |
| Kmem.BlocksApart | src/kmem.cc:23-28 | without wrap-around all blocks of a run are aligned, in range and disjoint |
| Kmem.WrapGrantsTooMuch | src/kmem.cc:27 | a size near 2^64 passes the range check and is granted a block that is not in the heap |
| Kmem.HugeAlignRewinds | src/kmem.cc:25-27 | any alignment above 2^63 grants a null block and rewinds the heap to it |
| Kmem.EffectiveIsWord | src/kmem.cc:24-25 | the alignment worked out on words is the one of the number-level function |
| Kmem.AlignUpIsMask | src/kmem.cc:7 | so is the rounding of the address, wrap-around included |
| Kmem.BootHeap.KmemInit | src/kmem.cc:22 | the heap is the range between the two addresses |
| Kmem.BootHeap.KmemAllocAligned | src/kmem.cc:23-28 | the 64-bit computation with smear and mask moves the two words and answers as the allocation of Kmem.AllocExact |

## Left out

- KernelLinks.Kernel.MutexLock: one pass of the loop; a woken thread calls again as a new step. Null mutexes and a null current thread return early in the source and are not modelled.
- KernelLinks.Kernel.SemDown: counts are unbounded integers and start non-negative; 32-bit wrap-around of `count` is not modelled.
- KernelLinks.Kernel.DoSwitch: a switch sets the current thread; registers, FPSIMD state and stacks are assembly.
- KernelLinks.Kernel.SchedOnTick: the stack guard is intact; a broken guard halts the machine and is not modelled.
- KernelLinks.Kernel.constructor: thread structures are rows of tables indexed by the pointer; their allocation and their stacks are not part of this model, nor is a full thread pool.
- KernelLinks.Kernel.TimerIrq: the dma_poll_complete of that branch, whose callbacks may unlock and up from the handler, is not part of the step; nor are acknowledging and ending the interrupt, diagnostics and the other interrupt numbers.
- KernelLinks.Kernel.Tick: like TimerIrq without the dma_poll_complete of the timer branch; what callbacks wake from there are separate steps.
- PriorityInheritance.EffectiveIsMaximum: inheritance is one level deep in the source, so nothing is claimed for a thread that blocks on a mutex while owning one.
- Inversion.AlwaysStrict: the first thread is taken to be of maximal priority, as KernelLinks.Kernel.SchedStart leaves it.
- Rotation.RotationBound: nothing is claimed across blocking, after which the scan restarts at the head.
- `thread_set_base_priority`: it has no caller.
- LockOrder.ProtocolsExcludeDeadlock: the two protocols are positions of a thread between its mutex calls, not methods, since other threads move between those calls; the back-off delay is left open.
- Spinlock.AcquisitionsNeverWait: null locks and locks used with the raw operations alone; memory ordering is taken as sequential. The primitives are states of a machine rather than methods, because what matters is what falls between their instructions.
- PageTables.InitialMap: one translation regime, EL1&0; the output size limit is not reached; the tables lie on distinct pages below 2^48. TLB maintenance and barriers count as making a finished step visible.
- Mmu.TranslationTables.MmuInit: MAIR and TCR are constants of the walk; caches and system registers other than the enable bit are not modelled.
- `src/arch/aarch64/mmu_rpi4.cc`: nearly the same map; the policy constants in `src/dma.cc` describe the virt layout only.
- DmaPolicy.PolicyAgreesWithWalk: stated before any guard page, for a page-aligned window of at most 2 MB in RAM.
- Coherency.CopyEndToEnd: RAM buffers with the MMU on, so the branch that cleans a destination reached at its own address is not taken; the destination starts and ends on line boundaries. Writes and cleaning of descriptors are steps like any others, outside source and destination.
- CacheMaintenance.Driver.DcRangeCommon: lines are found by division instead of masks with a power of two, and RAM addresses do not wrap; a disabled cache and an empty range do nothing.
- DmaDescriptors.Dma.DmaSubmitMemcpy: the cleaning of source and descriptors on those lines is the subject of CacheMaintenance and Coherency, not of this contract.
- DmaDescriptors.Dma.DmaPollComplete: the copy and the cache maintenance on those lines are left to CacheMaintenance and Coherency. It is not interrupted; an interrupted turn is DmaDescriptors.Dma.FinishPop and DmaQueue.PreemptedPoll.
- DmaQueue.PollComplete: a callback is the list of DMA calls it makes; what else it does is its own affair, except that it ends.
- DmaQueue.FifoExactlyOnce: submit, allocate and poll are atomic here; one interruption of each is the subject of the Preempted and Interrupted lemmas, several at once are not modelled.
- DmaQueue.InterruptsKeepPending: the interrupted submits are those of threads, not of callbacks.
- HeapMemory.Heap.HeapFree: memory is seen in granules of 16 bytes, so pointers are 16-aligned; the base is 16-aligned, the heap a multiple of 16 bytes, and rounding a request does not wrap.
- MemPool.RunKeeps: clients do not write to blocks they have freed.
- MemPool.MemPool.MemPoolInit: null pool pointers, and the getters of size, capacity and free count, are not modelled.
- Livelock, watchdog timeouts, spinning delays and the demonstration output of the labs: timing.
- UART, GIC, timer registers, boot assembly, linker scripts, `src/libc.cc`, stack watermarks: device access and single loops.
