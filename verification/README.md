# Proofs about six parts of the repository

This project models six parts of the repository and proves what each of them is for. The verifier checks all of it
with `dafny verify dfyconfig.toml`; nothing here runs the original programs. `Common` is what the
models share.

1. **Bochs timers** (`Kernel achieve/bochs-2.6.2/pc_system.cc`, `pc_system.h`). A table of 64 timers is driven by one
   32-bit countdown to the nearest deadline. The countdown scheduler refines a scheduler that looks at every timer on
   every tick, over every run and for every deterministic behaviour of the callbacks; `tickn` is repeated `tick1`; no
   narrowing to 32 bits loses anything.
   `TimerSpec` holds the operations and the every-tick scheduler, `TimerProofs` and `TimerTrace` the theorems,
   `PcSystem` the class with its fields updated in place.
2. **Teaching-kernel threads, locks and ring buffer** (`第十章`: `thread.c`, `sync.c`, `ioqueue.c`; `第九章`: `timer.c`).
   A transition system over any number of threads. A step is one access to a lock field while interrupts are on, or a
   segment with interrupts off; the clock and the keyboard may strike wherever interrupts are on. Every ASSERT of
   `thread.c`, `sync.c` and `ioqueue.c` is an outcome of its own; the theorems say that none but one ever happens, and
   exactly when that one does.
   `KernelModel` is the machine, `KernelInv`, `KernelSteps`, `KernelRing` the invariant and its preservation,
   `KernelRun` and `RoundRobin` the theorems over runs, `KernelEffects` what single operations achieve, `KernelOps` that
   none is lost between its beginning and its end,
   `KernelMachine` the class updated in place, segment by segment, step by step and over runs.
3. **Intrusive list** (`第九章/list.c`). Pointers rewritten in place, several lists on one heap: `KernelList`.
   `list_push` passes the address of a pointer field where its comment and callers mean the first element; the
   model does what they mean.
4. **COOL semantic analyser** (`Compiler basis/cool/PA4/semant.cc`). The class table with its acceptance test, the
   subtype order, the least common ancestor, and the recursive checker on expressions without dispatch, proved sound
   for an evaluation that follows the COOL manual's rules for those expressions, and shown to decide its typing rules.
   `CoolClasses`, `CoolBuild`, `CoolExpr` are definitions and the class-table theorems; `CoolTyping` the rules the
   checker decides, `CoolReports` what it computes and reports on any expression; `CoolMeaning` shows what the evaluation
   means; `CoolSound`, `CoolPreservation`, `CoolLet`, `CoolFuel`, `CoolProgram` the type-soundness theorems;
   `CoolTable` and `CoolChecker` the classes updated in place. A look-up of a class that does not exist is undefined
   behaviour in the original; the model flags it (`lost`) and proves that with declared types it cannot come before a
   reported error.
5. **Page allocator and page tables** (`第十一章/memory.c`, `process.c`). Physical memory word by word, the two-level
   walk of 32-bit paging (Intel SDM volume 3A, section 4.3), and tables edited through the directory's own last entry.
   `Paging`, `PagingMap` are the walk and `page_table_add`; `PageAlloc`, `PageSupply`, `PageAllocProofs`,
   `PageAllocRuns` are `malloc_page`, what it takes and its runs, in any directory; `PageRights` what a process may do; `PoolInit` the pools and the boot
   state; `NewDirectory` `create_page_dir` and the process in its new directory; `PageSteps`, `AddressSpaces`,
   `Processes` any number of processes, their calls interleaved, whose address spaces stay apart; `TablesLost` a run in
   which page tables run out; `PagingCode` the class updated in place.
6. **CRC-32 and BIOS checksums** (`bochs-2.6.2/crc.cc`, `bochs-2.6.2/bios/biossums.c`). The byte table against long
   division by the generator polynomial (clause 3.2.9 of IEEE 802.3-2018, most significant bit first): `Gf2`,
   `Crc32`, `CrcProofs`, `CrcTable`. Six checksums over a 64 KiB image that must not disturb each other:
   `BiosImage`, `BiosProofs`, `BiosLayout`, `BiosCode`.

## Results that say where the code stops being right

- **`let` checks its initialiser inside the scope it opens** (semant.cc:768-775), although the initialiser runs outside
  it. `CoolLet.LetSoundExactly`: on a given object every such `let` of x at a type is sound exactly when x has a type
  outside that means the same class; otherwise an accepted program reads a value of the wrong class, writes one, or is
  stuck. `CoolLet.LetSoundForEverySelf` is the same for all objects the code can run on, and `CoolSound.LetScopeExact`
  the boundary for the verdict itself. Type soundness is proved for expressions whose initialisers do not mention the
  name they define, or mention it where it has the same type outside (`CoolExpr.Scoped`).
- **Two branches of type SELF_TYPE** have the current class as their common ancestor (semant.cc:244-247), where the
  COOL manual gives SELF_TYPE: sound, but less precise. The rules of `CoolTyping` say what the code does.
- **The inheritance check can run forever** (semant.cc:146-163), and whether it does depends on the order of the
  classes: `CoolBuild.DivergenceDecided` says exactly when, `CoolBuild.DivergenceDependsOnOrder` shows it.
- **A failed `palloc` for a page table is not checked** (memory.c:120-121): the table goes to physical address 0. The
  first such table still works; the second is the same table in another directory entry, cleared.
  `PageAllocProofs.AddPageExactly`: a call of `page_table_add` keeps every translation exactly when it does not come to
  that, and `PageAllocProofs.StarvedLoses` says what is lost when it does. `PageAllocRuns.MallocOk`: `malloc_page` does
  all it promises exactly when the tables that the pages it gets to still lack are at most one more than the free kernel
  frames (none more if page 0 is a table already). `PageAllocRuns.RunExactly` carries this over runs,
  `Processes.MallocExactly` to many processes, `KernelRunsSafe` and `EnoughFrames` name runs that cannot come to it, and `TablesLost.PagesLost` is a run from boot that does: the
  process is given an address at which nothing is mapped.
- **The loader clears the directory but not the tables** (loader.S:192-239): `PoolInit.StartInvExactly` says the
  allocator starts right exactly when memory held no present entry for a page of the kernel heap.
- **The page counts are 16-bit** (memory.c:232-235): `PoolInit.AllPagesCounted` says all free pages are counted exactly
  below 256 MiB of free memory, where the comment at line 15 promises 512 MiB.
- **A header whose length does not cover its checksum byte** cannot be repaired by its patch:
  `BiosProofs.OnePatchExactly`, and `BiosProofs.TinyHeaderStaysWrong` for an image on which it is not.
- **The ready list can be found empty** (thread.c:119). `KernelRun.EmptyExactly`: exactly when the running thread gives
  up the processor and no other is ready; `KernelRun.LoneSleeperFails` is the shortest run that comes to it, `RunSafe`
  says so over runs, and `BootRunSafe` that it never happens while one thread never blocks.

## Model

| member | source | states |
|---|---|---|
| TimerProofs.CallRefines | Kernel achieve/bochs-2.6.2/pc_system.cc:464-496 | activate and deactivate keep the invariant and do to the every-tick scheduler's table what its own operations do |
| TimerProofs.RegisterRefines | Kernel achieve/bochs-2.6.2/pc_system.cc:267-324 | a registration takes the slot and deadline the every-tick scheduler's registration takes, and keeps the invariant |
| TimerProofs.RearmExact | Kernel achieve/bochs-2.6.2/pc_system.cc:341-379 | after the first loop of countdownEvent the 32-bit countdown reaches exactly the earliest deadline: the narrowing loses nothing |
| TimerProofs.EventRefines | Kernel achieve/bochs-2.6.2/pc_system.cc:326-390 | countdownEvent is one tick of the every-tick scan, the due set taken before the callbacks run |
| TimerProofs.Tick1Refines | Kernel achieve/bochs-2.6.2/pc_system.h:100-104 | tick1 is one tick of the every-tick scan and keeps the invariant |
| TimerProofs.TickNIsTick1s | Kernel achieve/bochs-2.6.2/pc_system.h:105-115 | tickn(n) ends in the same state, with the same callback trace, as n calls of tick1 |
| TimerProofs.TickNSplits | Kernel achieve/bochs-2.6.2/pc_system.h:105-115 | tickn(a+b) is tickn(a) and then tickn(b) |
| TimerProofs.TickNRefines | Kernel achieve/bochs-2.6.2/pc_system.h:105-126 | tickn(n) fires what n every-tick scans fire, and time_ticks() advances by exactly n |
| TimerProofs.StepRefines | Kernel achieve/bochs-2.6.2/pc_system.cc:544-572 | every operation from outside, unregistering included, refines the every-tick scheduler |
| TimerProofs.RunRefines | Kernel achieve/bochs-2.6.2/pc_system.cc:326-390 | over every legal run the countdown scheduler and the every-tick scan have the same timers, time and trace |
| TimerProofs.SchedulerCorrect | Kernel achieve/bochs-2.6.2/pc_system.cc:48-83 | from power-on: the same, with 0 < countdown <= period <= 0xffffffff and no active timer earlier than the countdown's end |
| TimerTrace.DueSlotsExact | Kernel achieve/bochs-2.6.2/pc_system.cc:344-373 | the slots called back are exactly the active ones due at that tick, in ascending order |
| TimerTrace.RunOrdered | Kernel achieve/bochs-2.6.2/pc_system.cc:381-389 | over every run callbacks are in order of time, in slot order within a tick, no slot twice on a tick |
| TimerTrace.PeriodicTimerExact | Kernel achieve/bochs-2.6.2/pc_system.cc:352-366 | a periodic timer that callbacks leave alone fires at its deadline and every period after it, and at no other tick |
| TimerTrace.OneShotTimerExact | Kernel achieve/bochs-2.6.2/pc_system.cc:352-366 | a one-shot timer that callbacks leave alone fires once, exactly at its deadline |
| TimerTrace.ActivatedFires | Kernel achieve/bochs-2.6.2/pc_system.cc:464-496 | a timer activated for `ticks` ticks that callbacks leave alone fires first exactly `ticks` ticks later (1 for 0), then every `ticks` if periodic, and never again otherwise |
| TimerTrace.RegisteredFires | Kernel achieve/bochs-2.6.2/pc_system.cc:267-324 | a registration takes the lowest free slot from 1 on, touches no other, and its timer fires like one just activated, or not at all when registered inactive |
| TimerTrace.DeactivatedSilent | Kernel achieve/bochs-2.6.2/pc_system.cc:532-542 | a deactivated timer does not fire again and no other is touched |
| TimerTrace.UnregisteredFrees | Kernel achieve/bochs-2.6.2/pc_system.cc:544-572 | an active timer is refused with nothing changed; any other leaves its slot free, and the bound comes down only from the last slot |
| TimerTrace.NullTimerRings | Kernel achieve/bochs-2.6.2/pc_system.cc:54-83 | from power-on with nothing registered, time_ticks() after n ticks is n and the null timer fires at every multiple of 4294967295 |
| TimerSpec.Skew | Kernel achieve/bochs-2.6.2/pc_system.cc:489-495 | shortening the countdown keeps 0 < countdown <= period, keeps the time, and ends no later than the new deadline |
| TimerSpec.FreeSlot | Kernel achieve/bochs-2.6.2/pc_system.cc:280-284 | the lowest unused slot, or numTimers when every slot below it is used |
| TimerSpec.MinTimeToFire | Kernel achieve/bochs-2.6.2/pc_system.cc:342-373 | the least deadline of the active slots, and one of theirs |
| PcSystem.PcSystem.constructor | Kernel achieve/bochs-2.6.2/pc_system.cc:48-83 | the null timer alone, at the full interval |
| PcSystem.PcSystem.TimeTicks | Kernel achieve/bochs-2.6.2/pc_system.h:123-126 | the current time of the specification |
| PcSystem.PcSystem.ActivateTimerTicks | Kernel achieve/bochs-2.6.2/pc_system.cc:464-496 | the whole state is the specification's after activation |
| PcSystem.PcSystem.Deactivate | Kernel achieve/bochs-2.6.2/pc_system.cc:532-542 | the whole state is the specification's after deactivation |
| PcSystem.PcSystem.RegisterTimerTicks | Kernel achieve/bochs-2.6.2/pc_system.cc:267-324 | the whole state and the slot are the specification's |
| PcSystem.PcSystem.UnregisterTimer | Kernel achieve/bochs-2.6.2/pc_system.cc:544-572 | the whole state and the answer are the specification's |
| PcSystem.PcSystem.CountdownEvent | Kernel achieve/bochs-2.6.2/pc_system.cc:326-390 | the two loops leave the specification's state and trace |
| PcSystem.PcSystem.Tick | Kernel achieve/bochs-2.6.2/pc_system.h:100-104 | tick1 leaves the specification's state and keeps the invariant |
| PcSystem.PcSystem.TickMany | Kernel achieve/bochs-2.6.2/pc_system.h:105-115 | tickn ends, in the specification's state, with the invariant kept |
| PcSystem.ReadingsIncrease | Kernel achieve/bochs-2.6.2/pc_system.cc:441-455 | with a clock that never goes back, every reading is the least value above both the clock and all earlier readings |
| PcSystem.UsecCounter.TimeUsecSequential | Kernel achieve/bochs-2.6.2/pc_system.cc:441-455 | the counter's new state and value are the specification's |
| KernelInv.BootInv | Kernel achieve/第十章/thread.c:90-101 | make_main_thread's ASSERT holds, and the invariant once main has become a thread |
| KernelInv.ScheduleSafe | Kernel achieve/第十章/thread.c:104-126 | schedule keeps the invariant; its only possible failure is an empty ready list, and only for a thread that is not running |
| KernelSteps.AcquireSafe | Kernel achieve/第十章/sync.c:56-67 | every point of lock_acquire, sema_down's retry included, keeps the invariant |
| KernelSteps.SemaUpSafe | Kernel achieve/第十章/sync.c:42-54 | sema_up by the owner wakes the first waiter, if any, with every ASSERT holding |
| KernelSteps.ReleaseSafe | Kernel achieve/第十章/sync.c:70-81 | every point of lock_release by a holder keeps the invariant |
| KernelRing.RingTestSafe | Kernel achieve/第十章/ioqueue.c:45-85 | the loop test, and the transfer and wake-up past it, keep the invariant and fail no ASSERT |
| KernelRing.NobodyWaits | Kernel achieve/第十章/ioqueue.c:31-35 | whoever comes to ioq_wait with the ring's lock finds both waiter fields empty |
| KernelRing.RingWaitSafe | Kernel achieve/第十章/ioqueue.c:31-35 | ioq_wait records and blocks the thread, keeping the invariant |
| KernelRing.KeySafe | Kernel achieve/第十章/keyboard.c:205-209 | the keyboard interrupt's guarded put keeps the invariant, whoever it interrupts |
| KernelRing.ClockSafe | Kernel achieve/第九章/timer.c:31-44 | the clock interrupt keeps the invariant, whoever it interrupts |
| KernelRing.StartSafe | Kernel achieve/第十章/thread.c:70-88 | thread_start with interrupts off keeps the invariant and neither `!elem_find` fails |
| KernelRun.StepSafe | Kernel achieve/第十章/thread.c:104-153 | every enabled step keeps the invariant; no ASSERT but the empty-ready-list one can fail |
| KernelRun.EmptyExactly | Kernel achieve/第十章/thread.c:119-137 | that ASSERT fails exactly when the running thread sleeps, comes to ioq_wait or finds a lock taken, while the ready list is empty |
| KernelRun.LoneSleeperFails | Kernel achieve/第十章/thread.c:119 | a step from boot at which it fails |
| KernelRun.RunSafe | Kernel achieve/第十章/thread.c:104-153 | over every run: the invariant, unless the run starves, and then exactly that ASSERT fails |
| KernelRun.BootRunSafe | Kernel achieve/第十章/thread.c:71-153 | from boot, with a main thread that never blocks, no ASSERT of thread.c, sync.c or ioqueue.c fails in any run |
| KernelRun.EveryRun | Kernel achieve/第十章/sync.c:21-81 | in every state a run from boot reaches: value plus owners is 1 for each lock, and the bytes taken are a prefix of those put, at most 63 behind |
| KernelRun.MutualExclusion | Kernel achieve/第十章/sync.c:21-81 | value plus the number of threads past sema_down and not yet through sema_up is 1 |
| KernelRun.HolderDepth | Kernel achieve/第十章/sync.c:57-80 | wherever else a thread is, holder names it just when it has acquires of that lock outstanding, and holder_repeat_nr is their number; between the writes to the lock's fields, the fields are what is written so far; no second thread has any |
| KernelRun.QueueOwnership | Kernel achieve/第十章/thread.c:104-153 | one thread RUNNING and in no queue; the ready list is exactly the READY threads, each waiters list exactly its sleepers, no tag twice or in two lists |
| KernelRun.RingSleepers | Kernel achieve/第十章/ioqueue.c:31-64 | at most one of producer and consumer is set; that thread is BLOCKED, holds the ring's lock once, and is in no queue |
| KernelRun.RingFifo | Kernel achieve/第十章/ioqueue.c:14-28 | bytes taken are in order a prefix of bytes put; the rest is the buffer from tail to head, 0 to 63 long; full and empty mean 63 and 0 |
| KernelEffects.TransferExact | Kernel achieve/第十章/ioqueue.c:45-85 | a put or get that passes its test adds exactly its byte at the end, or takes exactly the oldest, and puts the sleeper of the other side first in the ready list; one that does not pass changes nothing |
| KernelEffects.KeyExact | Kernel achieve/第十章/keyboard.c:205-209 | a key is stored like any byte, or dropped with nothing changed exactly when the buffer is full |
| KernelEffects.LastWokenRunsNext | Kernel achieve/第十章/thread.c:104-153 | along every run, the processor next goes to the thread woken last, or to the head of the ready list if none is woken |
| KernelEffects.WokenRunsNext | Kernel achieve/第十章/thread.c:141-153 | after thread_unblock the processor next goes to that thread, along every run, unless another is woken before it changes hands; then to the last of those |
| KernelEffects.LongestWaiterRunsNext | Kernel achieve/第十章/sync.c:46-50 | sema_up with waiters wakes the one that has waited longest, with value back at 1, and the processor next goes to it unless another is woken first |
| KernelOps.StepOps | Kernel achieve/第十章/ioqueue.c:45-85 | a thread's put or get, once begun, ends only in the step that stores exactly its byte at the end or fetches the oldest, however often it sleeps; nothing else but an accepted key stores or fetches |
| KernelOps.RunStores | Kernel achieve/第十章/ioqueue.c:45-85 | over every run the bytes stored are those of the puts completed and the keys accepted, in order, and each completed get has fetched one |
| KernelOps.NoPutLost | Kernel achieve/第十章/ioqueue.c:68-85 | the bytes each thread begins to put are, in order, those it completes and the one it still has under way |
| KernelOps.StepAccounts | Kernel achieve/第十章/thread.c:54-126 | priorities never change, a clock tick is charged to the running thread alone, an acquire ends with one more of that lock and a release with one fewer and nothing else changes either; a new thread is READY at the end of both lists with its priority as its slice |
| KernelOps.TicksAccountedFor | Kernel achieve/第九章/timer.c:31-44 | over every run the tick count is the number of clock interrupts, and the threads' elapsed_ticks add up to it |
| KernelOps.NoAcquireLost | Kernel achieve/第十章/sync.c:56-81 | over every run a thread's depth of a lock is its acquires ended less its releases, and each acquire begun has ended or is the one it is in |
| KernelOps.NoReleaseLost | Kernel achieve/第十章/sync.c:70-81 | likewise each release begun has ended or is the one it is in |
| KernelOps.StepOrder | Kernel achieve/第十章/thread.c:104-153 | a thread the clock pre-empts goes to the end of the ready list, a woken one to its front, a new one to its end, and its first gets the processor; a lock's waiters leave in the order they came |
| KernelOps.SleepsAs | Kernel achieve/第十章/thread.c:129-138 | a thread that puts itself to sleep has the status it asked for, and the head of the ready list has the processor |
| KernelOps.ThreadAssertsCatch | Kernel achieve/第十章/thread.c:71-153 | each ASSERT of thread.c does fail where its condition does not hold |
| KernelOps.LockAssertsCatch | Kernel achieve/第十章/sync.c:21-81 | so does each of sync.c |
| KernelOps.RingAssertsCatch | Kernel achieve/第十章/ioqueue.c:19-85 | and each of ioqueue.c |
| KernelOps.BootState | Kernel achieve/第十章/thread.c:90-101 | runs start with main alone, its slice 31, interrupts off, every lock free, the ring empty |
| RoundRobin.ExactLatency | Kernel achieve/第九章/timer.c:31-44 | a thread at ready position k is dispatched after exactly (ticks + 1) plus the sum of (priority + 1) over those ahead, and not before |
| RoundRobin.ClockBeat | Kernel achieve/第九章/timer.c:36-43 | intr_timer_handler is one beat of the round-robin clock |
| RoundRobin.RoundRobinExact | Kernel achieve/第十章/thread.c:104-126 | the latency over every run in which only the clock pre-empts |
| KernelMachine.Machine.constructor | Kernel achieve/第十章/thread.c:156-163 | the boot state |
| KernelMachine.Machine.Reschedule | Kernel achieve/第十章/thread.c:104-126 | schedule's new state, or the ASSERT that fails, is the specification's, for either value of the interrupt flag |
| KernelMachine.Machine.Block | Kernel achieve/第十章/thread.c:129-138 | thread_block's new state or failing ASSERT is the specification's |
| KernelMachine.Machine.Unblock | Kernel achieve/第十章/thread.c:141-153 | thread_unblock's new state or failing ASSERT is the specification's |
| KernelMachine.Machine.StartThread | Kernel achieve/第十章/thread.c:70-88 | thread_start's new state or failing ASSERT is the specification's |
| KernelMachine.Machine.ClockHandler | Kernel achieve/第九章/timer.c:31-44 | the handler's new state is the specification's |
| KernelMachine.Machine.SemaDownRound | Kernel achieve/第十章/sync.c:21-39 | one round of sema_down's loop, with its new state or failing ASSERT |
| KernelMachine.Machine.SemaUpSegment | Kernel achieve/第十章/sync.c:42-54 | sema_up's new state or failing ASSERT is the specification's |
| KernelMachine.Machine.AcquirePoint | Kernel achieve/第十章/sync.c:57-67 | lock_acquire between two accesses of lock fields: its new state or failing ASSERT is the specification's |
| KernelMachine.Machine.ReleasePoint | Kernel achieve/第十章/sync.c:70-81 | the same for lock_release |
| KernelMachine.Machine.RingWaitPoint | Kernel achieve/第十章/ioqueue.c:31-35 | ioq_wait's new state or failing ASSERT is the specification's |
| KernelMachine.Machine.KeyHandler | Kernel achieve/第十章/keyboard.c:205-209 | the guarded put's new state is the specification's |
| KernelMachine.Machine.PutByte | Kernel achieve/第十章/ioqueue.c:79-84 | the byte stored at head, head moved, the consumer woken, as the specification has it |
| KernelMachine.Machine.GetByte | Kernel achieve/第十章/ioqueue.c:57-64 | the byte at tail returned, tail moved, the producer woken, as the specification has it |
| KernelMachine.Machine.RingTestPoint | Kernel achieve/第十章/ioqueue.c:45-85 | the loop test, and the transfer when it lets the thread through |
| KernelMachine.Machine.Perform | Kernel achieve/第十章/thread.c:70-153 | every action of a thread, the clock or the keyboard is one step of the specification |
| KernelMachine.Machine.Execute | Kernel achieve/第十章/thread.c:104-153 | a whole run on the fields in place is the specification's run: it keeps the invariant and stops only by starving |
| KernelList.List.constructor | Kernel achieve/第九章/list.c:5-10 | the two sentinels linked to each other, no elements |
| KernelList.List.InsertBefore | Kernel achieve/第九章/list.c:13-28 | the element goes into the sequence just before `before`, links mutually inverse |
| KernelList.List.Push | Kernel achieve/第九章/list.c:31-33 | the element becomes the first |
| KernelList.List.Append | Kernel achieve/第九章/list.c:36-38 | the element becomes the last |
| KernelList.List.Remove | Kernel achieve/第九章/list.c:41-48 | the sequence without the element |
| KernelList.List.Pop | Kernel achieve/第九章/list.c:51-55 | the first element, taken off |
| KernelList.List.IsEmpty | Kernel achieve/第九章/list.c:101-103 | true exactly when there are no elements |
| KernelList.List.Find | Kernel achieve/第九章/list.c:58-67 | ends, and decides membership |
| KernelList.List.Traverse | Kernel achieve/第九章/list.c:73-87 | ends, with the first element the callback accepts, or NULL when it accepts none |
| KernelList.Apply | Kernel achieve/第九章/list.c:13-55 | an operation on one of several lists changes that list as the sequence operation does, the others not at all |
| KernelList.Run | Kernel achieve/第九章/list.c:5-55 | any sequence of operations over several lists is the matching sequence of sequence operations, every list well linked |
| CoolBuild.AcceptsExactly | Compiler basis/cool/PA4/semant.cc:104-177 | no error is reported exactly when the classes are new and distinct, Main is among them, and with the basic ones they form a tree under Object in which Int, Bool and String are leaves |
| CoolBuild.DivergenceDecided | Compiler basis/cool/PA4/semant.cc:146-163 | the walk from a class never ends exactly when it is still going after as many moves as there are classes, and exactly when it goes round a cycle with nothing that stops it |
| CoolBuild.DivergenceDependsOnOrder | Compiler basis/cool/PA4/semant.cc:137-173 | three classes that are rejected in one order and never finished in another |
| CoolBuild.WalkVerdict | Compiler basis/cool/PA4/semant.cc:145-171 | from a class the loop goes up past ordinary classes, and the first that is Object, the class itself, missing, or one of Int, String, Bool and SELF_TYPE gives the verdict |
| CoolBuild.InsertHolds | Compiler basis/cool/PA4/semant.cc:115-130 | insertion stops on a duplicate exactly when names are not new and distinct; otherwise every class is in the table with its parent |
| CoolBuild.InsertStops | Compiler basis/cool/PA4/semant.cc:116-131 | the first name that is not new ends the building with an error, and of the declarations just those before it are in the table |
| CoolBuild.ErrorsCounted | Compiler basis/cool/PA4/semant.cc:116-173 | otherwise a class called SELF_TYPE, a missing Main and the first wrong parent are one error each |
| CoolClasses.BelowIsReachability | Compiler basis/cool/PA4/semant.cc:218-233 | the subtype order is ancestor reachability |
| CoolClasses.BelowTransitive | Compiler basis/cool/PA4/semant.cc:227-231 | the subtype order is transitive |
| CoolClasses.BelowAntisymmetric | Compiler basis/cool/PA4/semant.cc:227-231 | two classes below each other are the same |
| CoolClasses.ConformsTransitive | Compiler basis/cool/PA4/semant.cc:218-233 | conformance with SELF_TYPE is transitive |
| CoolClasses.SelfTypeRules | Compiler basis/cool/PA4/semant.cc:218-294 | as a child SELF_TYPE is the class being checked, above it there is SELF_TYPE alone, and a join with it is the least upper bound with that class |
| CoolClasses.JoinIsLeast | Compiler basis/cool/PA4/semant.cc:273-294 | the ancestors of the common ancestor are exactly the common ancestors: it is the least upper bound |
| CoolClasses.JoinCommutes | Compiler basis/cool/PA4/semant.cc:273-294 | the common ancestor does not depend on the order of the two types |
| CoolClasses.JoinAssociates | Compiler basis/cool/PA4/semant.cc:725-728 | nor on the grouping of three |
| CoolClasses.CaseTypeIgnoresOrder | Compiler basis/cool/PA4/semant.cc:701-730 | the type of a case is the same for every order of its branches |
| CoolTable.ClassTable.constructor | Compiler basis/cool/PA4/semant.cc:104-177 | on runs that end, the table and the number of errors are the specification's |
| CoolTable.ClassTable.CheckInheritance | Compiler basis/cool/PA4/semant.cc:218-233 | the conformance relation, and whether a class was looked up that is not there |
| CoolTable.ClassTable.IsAncestor | Compiler basis/cool/PA4/semant.cc:227-232 | the loop ends and decides the subtype order |
| CoolTable.ClassTable.GetInheritancePath | Compiler basis/cool/PA4/semant.cc:244-257 | the path from Object down to the class SELF_TYPE or the type stands for |
| CoolTable.ClassTable.FindCommonAncestor | Compiler basis/cool/PA4/semant.cc:273-294 | the least common ancestor |
| CoolTyping.CheckDecidesTyping | Compiler basis/cool/PA4/semant.cc:671-946 | the checker reports no error, looks up no missing class and computes a type exactly when the typing rules, stated as a relation, give the expression that type, whether the declared types are classes or not |
| CoolTyping.AcceptedLetFits | Compiler basis/cool/PA4/semant.cc:763-783 | in any scopes an accepted let has an initialiser whose type fits into the declared one; into a type that is no class nothing fits but itself |
| CoolTyping.AcceptedAssignFits | Compiler basis/cool/PA4/semant.cc:545-560 | and an accepted assignment a declared variable that its value fits into |
| CoolReports.ErrorsAreOfPlaces | Compiler basis/cool/PA4/semant.cc:671-946 | on every expression, right or wrong, the number of errors is the total over its subexpressions, each judged once in its own scopes by the types of its parts, and a missing class is looked up exactly if one of them does |
| CoolReports.TypeComputed | Compiler basis/cool/PA4/semant.cc:671-946 | the type computed for an expression with errors too: Object where an operator, an assignment or a name is wrong, the least common class for branches, else as declared |
| CoolReports.PairsAreCounted | Compiler basis/cool/PA4/semant.cc:717-723 | the errors of a case are as many as there are pairs of branches that declare the same type |
| CoolMeaning.FactorialRuns | Compiler basis/cool/PA4/semant.cc:688-783 | a program of lets, assignments and a loop is accepted as an Int in every class and scope, and evaluates to the factorial of its number |
| CoolPreservation.NothingLost | Compiler basis/cool/PA4/semant.cc:545-560 | while no error has been reported, every type computed is a class or SELF_TYPE, so no missing class has been looked up |
| CoolPreservation.Preservation | Compiler basis/cool/PA4/semant.cc:671-946 | an accepted expression, run on any object below the current class with variables of their declared types, is never stuck; its value has the computed type and every variable keeps its own |
| CoolPreservation.AssignSound | Compiler basis/cool/PA4/semant.cc:545-560 | preservation for an assignment |
| CoolPreservation.CondSound | Compiler basis/cool/PA4/semant.cc:671-686 | preservation for a conditional, through the least common ancestor |
| CoolPreservation.LoopSound | Compiler basis/cool/PA4/semant.cc:688-695 | preservation for a loop, any number of rounds |
| CoolPreservation.CaseSound | Compiler basis/cool/PA4/semant.cc:702-747 | preservation for a case, the branch being the closest ancestor's |
| CoolPreservation.LetSound | Compiler basis/cool/PA4/semant.cc:763-783 | preservation for a let, its initialiser run outside the scope |
| CoolPreservation.EqualSound | Compiler basis/cool/PA4/semant.cc:859-873 | preservation for equality |
| CoolPreservation.ClosestIs | Compiler basis/cool/PA4/semant.cc:702-730 | the branch chosen declares an ancestor of the value's class, below every other declared ancestor; none is chosen exactly when there is none |
| CoolSound.Subsumed | Compiler basis/cool/PA4/semant.cc:187-217 | a value of a type is of every type that type conforms to, for every class of self below the current one |
| CoolSound.CheckSame | Compiler basis/cool/PA4/semant.cc:931-945 | the verdict on an expression depends only on the types of its free names |
| CoolSound.LetScopeExact | Compiler basis/cool/PA4/semant.cc:768-775 | checking initialisers inside the new scope never changes a verdict exactly when the name has the declared type outside |
| CoolLet.LetSoundExactly | Compiler basis/cool/PA4/semant.cc:763-783 | on a given object, lets of x at a type are sound for every initialiser, body and store exactly when x has a type outside that means the same class |
| CoolLet.LetSoundForEverySelf | Compiler basis/cool/PA4/semant.cc:763-783 | and on every object the code can run on, exactly when x has the declared type outside, or one is SELF_TYPE, the other the class itself, and no class inherits from it |
| CoolFuel.MoreFuel | Compiler basis/cool/PA4/semant.cc:688-695 | the result of an evaluation that ends does not depend on the bound put on loop rounds |
| CoolProgram.ProgramSound | Compiler basis/cool/PA4/semant.cc:104-177 | in a program whose class table is accepted, preservation holds in every declared class for every object of it or below it |
| CoolChecker.TypeChecker.CheckExprType | Compiler basis/cool/PA4/semant.cc:671-946 | the type, the errors added and the look-ups lost are the specification's, and the scopes are as before |
| CoolChecker.TypeChecker.AssignType | Compiler basis/cool/PA4/semant.cc:545-560 | the same for an assignment |
| CoolChecker.TypeChecker.CondType | Compiler basis/cool/PA4/semant.cc:671-686 | the same for a conditional, with the missing-else case |
| CoolChecker.TypeChecker.LetType | Compiler basis/cool/PA4/semant.cc:763-783 | the same for a let, its scope opened before the initialiser and closed after the body |
| CoolChecker.TypeChecker.CaseType | Compiler basis/cool/PA4/semant.cc:702-730 | the same for a case |
| CoolChecker.TypeChecker.CountSame | Compiler basis/cool/PA4/semant.cc:717-723 | one error for each pair of branches that declare the same type |
| CoolChecker.TypeChecker.JoinTypes | Compiler basis/cool/PA4/semant.cc:725-728 | the common ancestor of all branch types |
| Paging.MasksAreDivisions | Kernel achieve/第十一章/memory.c:19-20 | the masks and shifts on 32-bit words are the quotients and remainders of the model |
| Paging.PtePtrBits | Kernel achieve/第十一章/memory.c:67-75 | the same for the whole of pte_ptr |
| Paging.FlagsAreAdded | Kernel achieve/第十一章/memory.c:113 | or-ing the flags to an aligned address adds 7 |
| Paging.AddressParts | Kernel achieve/第十一章/memory.c:19-20 | an address is its directory index, its table index and its offset, ten, ten and twelve bits |
| Paging.PtePtrReaches | Kernel achieve/第十一章/memory.c:67-75 | the walk of pte_ptr(v) ends at v's page-table entry, and faults exactly when v has no table |
| Paging.PdePtrReaches | Kernel achieve/第十一章/memory.c:78-82 | the walk of pde_ptr(v) ends at v's directory entry |
| Paging.AddrV2PAgrees | Kernel achieve/第十一章/memory.c:218-223 | addr_v2p is the walk's answer wherever there is one, and faults exactly when there is no table |
| Paging.StoreZerosClears | Kernel achieve/第十一章/memory.c:127 | clearing a page word by word through the tables clears that page and nothing else |
| PagingMap.AddToTable | Kernel achieve/第十一章/memory.c:109-117 | with a table there: exactly v's entry is written |
| PagingMap.AddWithTable | Kernel achieve/第十一章/memory.c:118-131 | without: the directory entry, a cleared table, and v's entry in it, and nothing else |
| PagingMap.PageTableAddMaps | Kernel achieve/第十一章/memory.c:98-132 | afterwards every address of v's page goes to the page's same offset, addr_v2p agrees, every other translation and the self-map are kept |
| PagingMap.UpdatedElsewhere | Kernel achieve/第十一章/memory.c:98-132 | no page whose entry is not in v's table becomes mapped |
| PageRights.PageTableAddOpens | Kernel achieve/第十一章/memory.c:98-132 | a level-3 write to every address of the page is then allowed at both levels, given the rights of a directory entry that was there; the entries written hold the frame and the bits P, R/W and U/S alone, and those of every other mapped page are as they were |
| PageAlloc.FirstFitIs | Kernel achieve/第十一章/memory.c:42-45 | the scan finds the lowest run of n clear bits, and fails exactly when there is none |
| PageAllocProofs.PallocFresh | Kernel achieve/第十一章/memory.c:86-95 | a frame from palloc was never handed out before and is neither the directory in use nor a page table |
| PageAllocProofs.PallocLowest | Kernel achieve/第十一章/memory.c:86-95 | palloc gives the lowest free frame, and NULL only when there is none |
| PageAllocProofs.AddPageOk | Kernel achieve/第十一章/memory.c:98-132 | while there is somewhere to put the table, page_table_add maps its page and no other managed one, unmaps nothing, and costs one frame exactly when the table was missing |
| PageAllocProofs.AddPageExactly | Kernel achieve/第十一章/memory.c:118-131 | it keeps every translation exactly when the table is not missing, or a frame is free, or page 0 is no table yet |
| PageAllocProofs.StarvedLoses | Kernel achieve/第十一章/memory.c:118-131 | otherwise page 0 becomes the table of a second directory entry: everything mapped through it is unmapped, but for the place the new page takes |
| PageAllocProofs.MapPagesOk | Kernel achieve/第十一章/memory.c:150-161 | unless tables run short, the loop maps consecutive pages to distinct new frames of the pool asked for, none of them a table or the directory; it never faults, never meets a present entry, and ends early exactly when the pool has fewer frames than pages |
| PageAllocProofs.MapPagesShort | Kernel achieve/第十一章/memory.c:118-121 | when they do, two directory entries are left with one table |
| PageAllocRuns.VaddrFresh | Kernel achieve/第十一章/memory.c:38-64 | the virtual pages were never handed out before and are not mapped |
| PageAllocRuns.MallocOk | Kernel achieve/第十一章/memory.c:135-163 | a call gives n consecutive new virtual pages, each on a new frame of its own, exactly when there are so many pages in a row and so many frames, NULL otherwise, and stops exactly on a bad count or the last user page; all of this if and only if the tables do not run out, which the state before the call decides |
| PageRights.MallocOpens | Kernel achieve/第十一章/memory.c:135-163 | a process may read and write every byte of every page it is given |
| PageAllocRuns.HandedOutOnce | Kernel achieve/第十一章/memory.c:86-163 | over every run, whatever becomes of the tables, no frame and no virtual page is handed out twice |
| PageAllocRuns.RunExactly | Kernel achieve/第十一章/memory.c:86-163 | over every run the invariant holds at the end, and no mapping made is lost, exactly when no call found the tables running out |
| PageAllocRuns.KernelRunsSafe | Kernel achieve/第十一章/memory.c:118-121 | no run of kernel calls ever does |
| PageAllocRuns.EnoughFrames | Kernel achieve/第十一章/memory.c:118-121 | nor does any run whose kernel calls leave a frame, or page 0, for every table the process has not got |
| PoolInit.PoolsInside | Kernel achieve/第十一章/memory.c:226-252 | the pools are disjoint, their bitmaps cover no more than they have, and they are inside memory exactly from 2 MiB up |
| PoolInit.BitmapsFit | Kernel achieve/第十一章/memory.c:254-288 | the three bitmaps are disjoint and end below 0xc009e000 for every memory size |
| PoolInit.AllPagesCounted | Kernel achieve/第十一章/memory.c:230-235 | no free page is left out exactly below 256 MiB of free memory |
| PoolInit.PoolsOf32MiB | Kernel achieve/第十一章/memory.c:226-252 | with 32 MiB each pool has 3840 pages, the kernel's from 2 MiB and the users' from 17 MiB on |
| PoolInit.PoolsOf1MiB | Kernel achieve/第十一章/memory.c:226-252 | with 1 MiB the 32-bit subtraction wraps and each pool is given 32640 pages, none of them in memory |
| PoolInit.UserPagesEnd | Kernel achieve/第十一章/process.c:83-89 | a process's pages run from 0x8048000 to 0xc0000000 exactly, all of them free |
| PoolInit.StartInvExactly | Kernel achieve/第五章/载入内核/loader.S:191-239 | the state the loader and mem_init leave satisfies the invariant of all runs exactly when memory held no present entry for a kernel heap page |
| PoolInit.StartSlack | Kernel achieve/第十一章/memory.c:226-290 | at boot there are 8 * kbm_length frames and page 0 for the 736 tables a process can need |
| PoolInit.FirstPages | Kernel achieve/第十一章/memory.c:135-163 | and there the first kernel page is 0xc0100000 on the frame at 2 MiB, the first of a process 0x8048000 on the frame at 17 MiB |
| PoolInit.BootRunsSafe | Kernel achieve/第十一章/memory.c:86-163 | from boot nothing is handed out twice in any run; and no mapping is lost if all calls are the kernel's, or if its frames suffice for them and the tables |
| NewDirectory.FillDirectoryFills | Kernel achieve/第十一章/process.c:71-77 | the new page holds an empty user half, the kernel's entries and itself, and nothing outside it is written |
| NewDirectory.NewDirectoryMaps | Kernel achieve/第十一章/process.c:71-77 | such a directory maps itself, the kernel half as the old one does, and nothing below |
| NewDirectory.EnterInv | Kernel achieve/第十一章/process.c:33-49 | a process that switches to such a directory with all its pages free is in the invariant of all runs |
| NewDirectory.CreatePageDirOk | Kernel achieve/第十一章/process.c:64-80 | create_page_dir never faults, yields a directory on a new frame exactly when there is a kernel page and a frame: an empty user half, the current one's kernel entries, and itself with the bits P, R/W and U/S; it touches no translation of the current one, and the invariant holds for the current process and for the new one |
| PageSteps.MallocSteps | Kernel achieve/第十一章/memory.c:98-163 | a call writes nothing but absent entries of its own directory and tables, and frames handed out since; it takes only what was free |
| AddressSpaces.OtherGood | Kernel achieve/第十一章/process.c:33-49 | what one process allocates leaves every other address space in the invariant, its own half to the last entry as it was, the kernel half as the running one has it |
| AddressSpaces.BesideAfter | Kernel achieve/第十一章/process.c:33-49 | and the two go on having no table, directory or own frame in common |
| Processes.DoOk | Kernel achieve/第十一章/process.c:33-106 | every malloc_page and every create_page_dir of any process keeps all address spaces in good order and apart, and loses no translation of any, unless tables run out |
| Processes.MallocExactly | Kernel achieve/第十一章/memory.c:118-131 | among many processes a malloc_page keeps them so exactly when its tables do not run out, page 0 standing in for a frame once and for one process only |
| Processes.RunOk | Kernel achieve/第十一章/process.c:33-49 | the same over every interleaving; a process that makes no call finds its own half unchanged |
| Processes.Isolation | Kernel achieve/第十一章/process.c:33-49 | from boot, in every reached state, no page of a process's own half is on a frame of another's, or on a page table or directory of any, and the process may write to all of them, as long as tables do not run out |
| TablesLost.AllButLastLost | Kernel achieve/第十一章/memory.c:135-163 | with no frame left for tables, a call that crosses from one directory entry into the next succeeds with all its pages but the last unmapped |
| TablesLost.PagesLost | Kernel achieve/第十一章/memory.c:135-163 | a run from boot on 9.5 MiB that comes to it: a process is given 0x8048000, and none of the 952 pages from there is mapped |
| PagingCode.Machine.constructor | Kernel achieve/第十一章/memory.c:226-290 | the state after mem_pool_init |
| PagingCode.Machine.Palloc | Kernel achieve/第十一章/memory.c:86-95 | the new state and the address are the specification's |
| PagingCode.Machine.VaddrGet | Kernel achieve/第十一章/memory.c:38-64 | the new state and the address, NULL or failed ASSERT are the specification's |
| PagingCode.Machine.PageTableAdd | Kernel achieve/第十一章/memory.c:98-132 | the outcome is the specification's, and on success the whole state |
| PagingCode.Machine.MallocPage | Kernel achieve/第十一章/memory.c:135-163 | the result is the specification's, and the whole state unless an ASSERT failed |
| PagingCode.Machine.CreatePageDir | Kernel achieve/第十一章/process.c:64-80 | the outcome and, unless a fault ends it, the whole state are the specification's |
| PagingCode.Machine.AddrV2P | Kernel achieve/第十一章/memory.c:218-223 | the physical address the walk gives |
| CrcProofs.UpdateIsShifts | Kernel achieve/bochs-2.6.2/crc.cc:62-63 | one table step is eight shifts of the register with the byte added in at the top |
| CrcProofs.UpdatesIsFeed | Kernel achieve/bochs-2.6.2/crc.cc:62-63 | the byte loop is the bit-serial shift register fed with the buffer's bits |
| Crc32.FeedIsDivide | Kernel achieve/bochs-2.6.2/crc.cc:41-51 | feeding bits in at the top is long division by the generator, 32 bits ahead |
| CrcProofs.CrcIsRemainder | Kernel achieve/bochs-2.6.2/crc.cc:53-65 | crc32 of every buffer is the complement of the remainder of its bits, the first 32 complemented and 32 zeros appended |
| CrcProofs.Residue | Kernel achieve/bochs-2.6.2/crc.cc:53-65 | crc32 of any message followed by its own crc32, high byte first, is 0x38fb2284 |
| CrcTable.LazyTestDecides | Kernel achieve/bochs-2.6.2/crc.cc:58-59 | entry 1 is zero exactly when the table has not been built |
| CrcTable.CrcUnit.InitCrc32 | Kernel achieve/bochs-2.6.2/crc.cc:41-51 | every entry is its index shifted through the register eight times |
| CrcTable.CrcUnit.Crc32 | Kernel achieve/bochs-2.6.2/crc.cc:53-65 | whether or not the table was built, the result is that remainder, and the table is built afterwards |
| BiosProofs.HeadersExact | Kernel achieve/bochs-2.6.2/bios/biossums.c:334-351 | the scans find exactly the signatures at paragraph boundaries past the first, in order |
| BiosProofs.SingleIs | Kernel achieve/bochs-2.6.2/bios/biossums.c:132-144 | one hit means one such boundary has the signature |
| BiosProofs.PatchedSums | Kernel achieve/bochs-2.6.2/bios/biossums.c:130-255 | whatever the image, if main gets to the end it sums to 0 mod 256 and has exactly the signatures it had |
| BiosProofs.PatchedRight | Kernel achieve/bochs-2.6.2/bios/biossums.c:130-255 | with headers in bounds, disjoint, and covering their checksum bytes: main gets to the end, every header found once sums to 0, none reaches 0xFFFF, a second run changes nothing |
| BiosProofs.OnePatchExactly | Kernel achieve/bochs-2.6.2/bios/biossums.c:141-144 | after one patch the header sums to 0 exactly when its length covers the checksum byte or it did before |
| BiosProofs.TinyHeaderStaysWrong | Kernel achieve/bochs-2.6.2/bios/biossums.c:222-241 | an image with one $PnP header of length 1, which the whole program leaves with the sum 0x24 |
| BiosProofs.PatchStage | Kernel achieve/bochs-2.6.2/bios/biossums.c:130-242 | each patch leaves the other headers' bytes, and the checksums already set |
| BiosLayout.LoopExactly | Kernel achieve/bochs-2.6.2/bios/biossums.c:130-242 | each loop stops the program exactly on a header out of bounds, too long, or with an extended PCMP table; otherwise, if the text of its kind is found once, the byte at 10, 10, 7, 31 or 8 balances the header's length of bytes, and nothing else is written |
| BiosLayout.LoopsInOrder | Kernel achieve/bochs-2.6.2/bios/biossums.c:130-255 | the five loops run in turn, each on what the one before left, and then the last byte balances the image |
| BiosLayout.OnlyChecksumsWritten | Kernel achieve/bochs-2.6.2/bios/biossums.c:130-255 | the image written back differs from the one read only in byte 0xFFFF and those checksum bytes of headers found exactly once |
| BiosLayout.AllBalanced | Kernel achieve/bochs-2.6.2/bios/biossums.c:130-255 | in an image of whole headers that do not overlap, each header found once sums to 0 in the end |
| BiosCode.Sums.GetOffset | Kernel achieve/bochs-2.6.2/bios/biossums.c:334-351 | the next header of the kind after the offset, or none |
| BiosCode.Sums.CalcValue | Kernel achieve/bochs-2.6.2/bios/biossums.c:314-331 | the negated sum without the checksum byte, or nothing when one of the checks exits |
| BiosCode.Sums.FindAll | Kernel achieve/bochs-2.6.2/bios/biossums.c:130-140 | how many headers there are, and the last one's bytes; not ok exactly when one is malformed |
| BiosCode.Sums.PatchKind | Kernel achieve/bochs-2.6.2/bios/biossums.c:130-150 | the image after one loop and its patch |
| BiosCode.Sums.Run | Kernel achieve/bochs-2.6.2/bios/biossums.c:130-255 | the image written back, or nothing when the program exits |

## Left out

- Bochs timers: registering and unregistering inside a callback, save and restore, A20, reset, and the floating-point
  conversion between microseconds and ticks; `time_usec` is a non-decreasing input. 64-bit tick counts do not wrap.
  Slot bounds, `inUse` and the null timer are demands on callers, as the original's debug checks have them.
- Kernel: `switch_to`, stacks, interrupt-controller ports, and the keyboard's scan-code map; the current thread and the
  interrupt flag are explicit. `thread_start` is modelled where interrupts are off, as main.c calls it, and only a
  holder releases a lock. The ring's lock is used by the ring alone. `holder_repeat_nr` and the tick counters do not wrap.
  The stack guard that the clock handler checks (timer.c:34) is not part of this model.
- Kernel: progress. A thread sleeps in `ioq_wait` without testing full or empty again, so no liveness holds; only
  safety is claimed.
- `list_len`, which has the same address-of slip as `list_push`, and `list_pop` on an empty list.
- KernelList.Run: the model finds the element before which to insert by its position, where a caller of
  `list_insert_before` holds a pointer to it.
- COOL: dispatch, attribute initialisers, method overriding and error texts. The evaluation creates objects without running
  attribute initialisers, its integers are unbounded, and an object is its class and an identity.
- CoolPreservation.Preservation: for expressions the grammar produces, with declared types in the class table (or
  SELF_TYPE in a let), and initialisers that pass `CoolExpr.Scoped`.
- CoolTyping.CheckDecidesTyping: for expressions the grammar produces and types a program can write, and initialisers that
  pass `CoolExpr.Scoped`.
- CoolTable.ClassTable.constructor: only for runs that end, which `CoolBuild.DivergenceDecided` characterises.
- Paging: no translation cache, no page-size or protection bits beyond the flags written,
  and `get_a_page`, which marks a page without testing it. What processes write into their own pages is not modelled.
- Processes.RunOk: calls are taken one at a time, as whole segments. No process ends or frees pages; nor does one in the
  original. Processes are values, not objects updated in place; the class of `PagingCode` is one address space.
- Paging: bitmap.c of chapter 11 is not part of this model; `bitmap_scan` is first fit and `bitmap_set` sets a bit. The
  copy in `bochs-2.6.2/bin/lib/kernel/bitmap.c` asserts that a free byte exists and examines one bit past the end.
- CRC-32 and BIOS: reading and writing files, the `-pad` option (which writes the image back as it is), and messages.
