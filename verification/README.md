# Cerberus-OS kernel: verified model

A Dafny model of the Cerberus-OS two-hart partitioning microkernel: its trap handler as a state machine,
the cyclic partition scheduler, context switching, the re-entrant spinlock, the PMP driver, boot, and the
telemetry codec and CAN ring buffer beside it. `dafny verify dfyconfig.toml` checks everything.

## How the model is built

The kernel state (`KernelState.dfy`) is two scheduler tables, eight mutexes, the tick counter, one byte memory
that holds stacks, saved register frames and message buffers, pending software interrupts and a log of IPC
transfers. `KernelSteps.dfy` says what every trap does to it: timer, software interrupt, syscalls 1 to 8,
contained fault, watchdog restart. `KernelObject.dfy` holds the same kernel as the source has it, an object
updated in place with 32-bit waiter bitmaps and search loops, and every method is proved to compute exactly that
step and to make exactly the lock calls of its path.

`Machine.dfy` defines a run: any interleaving of enabled traps of both harts, restarts, and stores that running
tasks make in U-mode, from any state that meets the invariant. The theorems in `Timing.dfy`, `Budgets.dfy`,
`Signals.dfy`, `MutualExclusion.dfy`, `CriticalSection.dfy`, `Rendezvous.dfy`, `Exchange.dfy`, `DataFlow.dfy`,
`Context.dfy`, `Resume.dfy`, `Containment.dfy` and `Calls.dfy` hold in every state of every run, for every task and
capability table. The source writes the search for the best mutex waiter out three times, with the same comparisons;
the model has it once. `LockOrder.dfy` and `LockInterrupts.dfy` run the lock calls of those traps, and of U-mode
tasks, access by access on any number of harts. `Boot.dfy` shows that boot establishes the invariant, for every
configuration and for the table this system registers.

### What the kernel relies on

The code relies on these conditions without checking them all. They are the guard `Machine.Enabled`, the
configuration `KernelInvariant.Cfg` and, for context integrity, `ContextIntegrity.Spares`. Where a condition is
proved exact, the lemma that says so is named; `Witness.dfy` and `KillWitness.dfy` give runs from boot in which one
does not hold.

- Configuration: slot number equals priority; durations are at least 1; an idle task sits in slot 31 of each
  hart; a mutex capability names a mutex below 8 and is held only by a task on the hart where the mutex code looks
  its slot up (slots 0 and 1 on hart 0, the others on hart 1); stacks hold a frame and overlap neither each other
  nor the kernel's own tables.
- One more configuration condition, which the source nowhere states: the slot of a task with a mutex capability
  is not used on the other hart as well. The owner field records only a slot number, so killing the other hart's
  task in that slot releases a mutex its namesake still holds (`Guards.SharedSlotExact`,
  `Witnesses.SharedSlotLosesMutex`). The boot table meets it.
- Syscalls (`Machine.SyscallOk`, exact by `Guards.SyscallExact`): only the owner unlocks; an owner does not lock
  again; syscall 8 names neither slot 31 nor a task that waits for a mutex, since it leaves the waiter bit set; an
  idle task makes no call that blocks; a task that the other hart has killed, and that still runs until its hart
  reschedules, makes no call that blocks and takes no free mutex. `Guards.KilledCaller` says what each call of such
  a task does otherwise, and `Witnesses.KillUndone` is a run from boot after which a killed task that sleeps is
  alive again.
- A contained fault is not the idle task's (`Guards.FaultExact`).
- A restarted task is not its hart's current task; otherwise the next switch overwrites the fresh stack pointer
  (`Guards.RestartExact`, `Guards.RestartOverwritten`, from boot `KillWitnesses.RestartLost`).
  The watchdog terminates and restarts Task C in one pass, holding SCHED_LOCK throughout, so a Task C that was running
  on hart 1 has not been switched away from when its restart happens.
- Stack pointers. Trap entry stores a 128-byte frame in M-mode at whatever stack pointer the interrupted task has. A
  trap that takes the hart from a running task (`Machine.Displaces`, decided by the state before the trap) must find
  room for the frame in that task's own stack: the invariant survives exactly then (`Machine.HandledExact`). Any
  other trap may have its stack pointer anywhere, and the machine includes those.
- Buffers. The IPC copy runs in M-mode too, with addresses the tasks supply, and nothing checks them. The machine
  excludes entry stores, copies and U-mode stores into the kernel's own tables, which the model keeps outside its
  memory. Those into other tasks' stacks are part of the machine. The theorems on frames ask that none meets the
  frame they speak of while its task is away (`ContextIntegrity.Spares`); `DataFlow.TrapFrameExact` and
  `DataFlow.WriteKeepsExactly` say exactly when one changes a frame. `Witnesses.FrameOverwritten` is a run of three
  events from boot after which Task C resumes at an address chosen by Task A's message, and
  `Witnesses.EntryOverwrites` a run of two after which it resumes with Task A's registers, because Task A checked in
  with its stack pointer at Task C's frame.
- Each trap body is one step under SCHED_LOCK. `LockOrder.OneTrapAtATime` shows that no two harts are ever inside,
  on one condition: a trap does not interrupt the watchdog's own U-mode lock call between its compare-and-swap and
  the write of the depth, nor its unlock call between the write of depth 0 and the clearing of the owner. The code
  does not mask interrupts there. The condition is exact: `LockInterrupts.InterruptExact` shows that a trap at any
  other access is harmless and one at these can let two harts in, and `LockInterrupts.BothInside` is such a run.
  Two accesses lie outside the lock: the timer trap increments the tick counter before it takes the lock, so its
  wake scan may use an older tick than the counter already holds; and the watchdog's restart runs in U-mode under
  the lock, where a trap of its own hart can nest. Both are single steps here.
- For the harts to keep making progress, no task is killed while it holds SCHED_LOCK in U-mode, as the watchdog
  does. Such a kill is an event of the lock machine: `LockOrder.TrapsComplete` gives progress as long as none has
  happened, `LockOrder.LostForEver` shows that after one the other hart never gets in again, and
  `KillWitnesses.HoldLostFromBoot` is a run from boot with such a kill.

### Where the documentation and the code differ

- ARCHITECTURE.md says that trap entry saves all 32 integer registers. The assembly saves 28; gp and tp are in
  no frame, and `TrapEntry.ResumesExactly` says so.
- README.md of the repository describes an O(1) ready queue with count-trailing-zeros and priority
  inheritance. The code is a cyclic scan over 32 partitions with tick budgets; the model follows the code.
- 32-bit sums (tick counter, wake tick, saved pc) wrap around, as in a release build.
- The comment on `reprogram_pmp_stack` says that every inactive stack is blocked outright. Entries 4 to 6 rank
  after the SRAM entry and are never reached; `PmpDriver.StackIsolationExact` states which stacks are isolated.

## Model

| member | source | states |
|---|---|---|
| PartitionScheduler.PickIsFirstReady | scheduler/src/bitmap.rs:68-92 | the modular scan returns a slot iff it is the first Ready non-idle slot after the current one in cyclic order, slot 31 iff only it is Ready, none iff nothing is Ready |
| PartitionScheduler.ScheduleDeclines | scheduler/src/bitmap.rs:94-103 | a call without a switch changes no task and happens only when the current task runs and, if triggered, nothing else is Ready; a tick costs one and the last one reloads the full duration |
| PartitionScheduler.SwapRestores | scheduler/src/bitmap.rs:105-117 | a swap promotes one task with its partition's full duration, demotes the old one if it ran, touches no other, and leaves one Running task |
| PartitionScheduler.ScheduleRestores | scheduler/src/bitmap.rs:50-126 | after every call exactly the current slot is Running with 1 to duration ticks left; a switch resumes the first Ready task in cyclic order from its own saved stack pointer, with its full duration |
| PartitionScheduler.WaitBounded | scheduler/src/bitmap.rs:50-126 | ticks left plus the durations between current and t never exceed the durations of all other registered partitions |
| PartitionScheduler.SwitchPassesNobody | scheduler/src/bitmap.rs:68-82 | a switch never skips a waiting task |
| PartitionScheduler.WaitDecreases | scheduler/src/bitmap.rs:50-126 | every tick and every forced reschedule runs a waiting task or strictly shrinks its bound |
| PartitionScheduler.BitMapScheduler.RegisterTask | scheduler/src/bitmap.rs:38-44 | the task is placed in the slot of its priority and no other slot changes |
| PartitionScheduler.BitMapScheduler.FindNextReady | scheduler/src/bitmap.rs:69-82 | the loop finds what the scan specification finds |
| PartitionScheduler.BitMapScheduler.Schedule | scheduler/src/bitmap.rs:50-126 | updates the object to exactly the specified scheduler value and reports the swap |
| PartitionScheduler.BitMapScheduler.SwapPartition | scheduler/src/bitmap.rs:105-122 | new current slot, fresh budget, both states, and the stack pointers handed to the caller |
| PartitionScheduler.BitMapScheduler.StartFirstTask | kernel/src/main.rs:212-230 | the lowest Ready slot starts, with its full budget, from its saved stack pointer |
| Tasks.InitializeStack | scheduler/src/tcb.rs:72-100 | a frame at the 16-byte-aligned stack top that enters the task in U-mode with cleared registers; memory outside it is untouched |
| KernelSteps.FindIn | kernel/src/trap.rs:411-431 | the first slot whose task waits on the endpoint in the given role, or none does |
| KernelSteps.FindComplete | kernel/src/trap.rs:408-435 | when the two-hart search finds nobody, nobody waits |
| KernelSteps.FindFirst | kernel/src/trap.rs:408-435 | the search finds a task iff it waits in the role and comes first among those that do, hart 0 before hart 1 and lower slots first |
| KernelSteps.Copy | kernel/src/trap.rs:453-457 | the receive buffer gets the message bytes and no other byte of memory changes |
| KernelInvariant.SwitchEffect | kernel/src/trap.rs:1003-1035 | a reschedule changes at most the outgoing and the incoming task: the one keeps its interrupted stack pointer, the other was Ready and is resumed from its own with its full duration |
| KernelInvariant.SwitchRestores | kernel/src/trap.rs:1003-1035 | a reschedule turns the mid-trap invariant into the full one iff a task it switches out alive has room for its frame at the stack pointer |
| KernelSafety.TimerSafe | kernel/src/trap.rs:70-103 | a timer trap keeps the invariant up to the reschedule and moves no frame or budget |
| KernelSafety.SleepSafe | kernel/src/trap.rs:138-157 | sleeping keeps the invariant up to the reschedule |
| KernelSafety.LockSafe | kernel/src/trap.rs:158-230 | granting, blocking and denying a lock keep the invariant and never panic |
| KernelSafety.UnlockSafe | kernel/src/trap.rs:231-357 | hand-over, release and denial keep the invariant and never unwrap an empty slot |
| KernelSafety.HighestIsLowest | kernel/src/trap.rs:277-300 | the priority scan returns none iff the bitmap is empty, and a slot iff it is the lowest set bit |
| IpcSafety.SendSafe | kernel/src/trap.rs:371-506 | every outcome of a send keeps the invariant, a meeting whoever calls and a wait of any task that may block |
| IpcSafety.RecvSafe | kernel/src/trap.rs:508-643 | every outcome of a receive keeps the invariant, a meeting whoever calls and a wait of any task that may block |
| RecoverySafety.KilledStates | kernel/src/trap.rs:685-744 | killing a task terminates it and otherwise only makes mutex waiters Ready; frames, buffers and ticks are untouched |
| RecoverySafety.TerminateSafe | kernel/src/trap.rs:645-765 | syscall 8 on any slot it may name, present or not, own or other hart, keeps the invariant |
| RecoverySafety.FaultSafe | kernel/src/trap.rs:838-989 | a contained fault keeps the invariant up to the reschedule |
| RecoverySafety.RestartSafe | kernel/src/main.rs:1010-1055 | restarting a terminated task that is not current keeps the invariant |
| Machine.BodySafe | kernel/src/trap.rs:35-1001 | no enabled trap panics, and every handler path hands a consistent state to the scheduler |
| Machine.HandledExact | kernel/src/trap_entry.s:4-40 | for a trap at any stack pointer the invariant survives iff, where the trap displaces a running task, the stack pointer leaves room for the frame in that task's own stack; the condition speaks of the state before the trap |
| Machine.DisplacesIff | kernel/src/trap.rs:1012-1034 | the interrupted task is left suspended iff it was running and its last tick, a forced reschedule with somebody else to run, or a blocking call takes the hart from it |
| Machine.NeverStuck | kernel/src/trap.rs:3-13 | every enabled event leads to a next state: nothing unwraps an empty slot |
| Machine.RunInv | kernel/src/trap.rs:35-1001 | the machine invariant holds in every state of every run |
| Guards.SyscallExact | kernel/src/trap.rs:118-770 | a syscall of any current task, running, killed or idle, keeps the invariant, brings nobody back from the dead and does not panic iff its guard holds |
| Guards.KilledCaller | kernel/src/trap.rs:118-770 | a killed task that still runs: its call panics iff it unlocks a mutex that exists, it stays dead iff the call does not block, and it owns nothing iff the call finds no free mutex |
| Guards.KilledSleeperLives | kernel/src/trap.rs:138-157 | a killed task that sleeps is Blocked afterwards, with every invariant kept |
| Guards.PanicExact | kernel/src/trap.rs:35-1001 | the handler panics iff the cause is none of 0x80000007, 0x80000003, 8, 1, 2, 4, 5, 6 and 7, or the call unlocks an existing mutex its caller does not own |
| Guards.UnlockPanicsIff | kernel/src/trap.rs:273-275 | unlock panics iff the named mutex exists and the caller is not its owner |
| Guards.FaultExact | kernel/src/trap.rs:844-989 | a contained fault leaves its hart something to run iff the idle task did not cause it |
| Guards.RestartExact | kernel/src/main.rs:1010-1055 | restarting a terminated task keeps the invariant iff its hart has switched away from it |
| Guards.RestartOverwritten | kernel/src/trap.rs:1026-1028 | otherwise the next switch to another task replaces the fresh stack pointer by the interrupted one |
| Guards.SharedSlotExact | kernel/src/trap.rs:687-698 | killing a task takes a mutex from its recorded owner iff the slot numbers are equal, whatever the harts |
| Witnesses.SharedSlotLosesMutex | kernel/src/trap.rs:914-924 | from a boot table that meets every condition but the one on shared slots: the owner locks by syscall 3, its namesake on the other hart faults, and the owner still runs and believes while nobody owns the mutex |
| Witnesses.KillUndone | kernel/src/trap.rs:148-153 | from boot: a task killed while it runs on the other hart sleeps before that hart reschedules, and is alive again with every invariant kept |
| Witnesses.FrameOverwritten | kernel/src/trap.rs:588-594 | from boot: three events after which a suspended task's saved pc is the word another task sent |
| Witnesses.EntryOverwrites | kernel/src/trap_entry.s:4-40 | from boot, two enabled events: Task A checks in with its stack pointer at Task C's saved frame; nothing panics, the invariant holds, and Task C will resume with Task A's registers |
| KillWitnesses.TwoInsideFromBoot | kernel/src/trap.rs:650-745 | from boot, five enabled events: Task C is terminated from the other hart inside its critical section while Task A waits, and both are then inside |
| KillWitnesses.RestartLost | kernel/src/main.rs:1006-1032 | from boot: Task C is killed while it runs and restarted before its hart switches away; the switch leaves it Ready with the interrupted stack pointer in place of the fresh one |
| KillWitnesses.HoldLostFromBoot | kernel/src/main.rs:893-1010 | from boot: Task A terminates Watchdog, whose U-mode hold of SCHED_LOCK is lost in the lock machine's run of the same traps, and hart 1 never holds the lock again |
| Timing.BoundedWaiting | scheduler/src/bitmap.rs:50-126 | in every run a Ready non-idle task runs, or is killed, before its hart takes as many timer traps as all its other partitions can use |
| Budgets.FullBudget | scheduler/src/bitmap.rs:105-107 | in every run whoever is switched in starts with its partition's full duration |
| Budgets.BudgetExact | scheduler/src/bitmap.rs:50-126 | a task that is switched in, is not killed and causes no reschedule keeps its hart for exactly its duration in timer traps of the hart; the last one takes the hart from it if anybody else can run, and reloads its budget otherwise |
| Timing.SleepTiming | kernel/src/trap.rs:88-99 | a sleeper changes state only by being killed or by a timer trap of its own hart at or past its wake tick, which always wakes it |
| Timing.SleepThenRun | kernel/src/trap.rs:70-103 | a woken sleeper runs, or is killed, within one further major frame |
| Timing.SleepWrapsIff | kernel/src/trap.rs:148-152 | a sleep of two or more ticks is due at the very next tick iff the wake tick wraps and the counter does not; without a wrap it is due exactly from its wake tick on |
| MutualExclusion.BeliefIsOwnership | kernel/src/trap.rs:158-357 | in every run a task believes it holds a mutex, judging by its own call results, wake-ups and termination, iff it is the recorded owner |
| MutualExclusion.MutualExclusionHolds | kernel/src/trap.rs:158-357 | no two tasks ever believe they hold the same mutex, across hand-over, syscall 8 and fault recovery, belief ending at termination |
| MutualExclusion.NoLostWaiter | kernel/src/trap.rs:188-206 | a task is blocked on a mutex iff its bit is set there; waiters imply locked; locked iff owned |
| CriticalSection.InsideExact | kernel/src/trap.rs:645-765 | counting a killed task as inside until its hart reschedules: a task is inside iff it is the recorded owner or such a stray |
| CriticalSection.StrayStarts | kernel/src/trap.rs:745-750 | an owner becomes a stray iff the other hart's syscall 8 kills it while it runs |
| CriticalSection.ExclusionExact | kernel/src/trap.rs:158-357 | two tasks are inside one critical section iff one was killed from the other hart while it ran and owned the mutex, its hart has not switched away since, and the other owns the mutex or was killed so too |
| CriticalSection.StrayExact | kernel/src/trap.rs:650-745 | a dead task is still inside iff some earlier event killed it from the other hart while it ran and owned the mutex and its hart has not switched away since |
| CriticalSection.ExclusionWithoutKills | kernel/src/trap.rs:158-357 | no two tasks are ever inside in a run in which no running owner is killed from the other hart |
| CriticalSection.KillAdmitsTwo | kernel/src/trap.rs:685-750 | where one is killed while another task waits, the killed task and its heir are both inside right after |
| RendezvousTheorems.RendezvousExclusive | kernel/src/trap.rs:404-496 | no reachable state has a waiting sender and a waiting receiver on one endpoint |
| RendezvousTheorems.Conservation | kernel/src/trap.rs:437-479 | each task's completed sends and receives on each endpoint are exactly those the transfer log gives it |
| RendezvousTheorems.SendsReceivesTransfers | kernel/src/trap.rs:404-633 | completed sends, completed receives and transfers on each endpoint are equal in number |
| RendezvousTheorems.PairedOneToOne | kernel/src/trap.rs:404-633 | a step completes at most one send and at most one receive, on one endpoint, and they are the two ends of the one transfer it logs |
| ExchangeTheorems.StillWaiting | kernel/src/trap.rs:481-496 | a caller that found nobody keeps waiting, alone and with its frame in place, until somebody calls on the endpoint or it is killed |
| ExchangeTheorems.MeetingDelivers | kernel/src/trap.rs:437-616 | a send and a receive, on any harts, in either order, their frames apart and with anything but other calls on the endpoint in between, leave memory as one function of the two calls' registers and the memory at the meeting, and log one transfer |
| ExchangeTheorems.LengthExact | kernel/src/trap.rs:449-460 | in every meeting the logged length and the receiver's a0 are at most both length registers and equal to one of them; that many bytes arrive, and no byte past the buffer's end changes outside the two a0 words |
| ExchangeTheorems.OrderIndependent | kernel/src/trap.rs:437-616 | two runs in which the same two calls meet in opposite orders: the same bytes of the message in the buffer, the first min(msg_len, max_len), 0 and the length in the two a0 registers, and no other byte changed |
| ExchangeTheorems.BothOrders | kernel/src/trap.rs:371-643 | a send and a receive enabled on two harts can happen in either order, with the same transfer and the same memory afterwards |
| RendezvousTheorems.AuthorityConfined | kernel/src/trap.rs:404-587 | every transfer of every run goes from a holder of the send right to a holder of the receive right |
| RendezvousTheorems.WaitersAuthorised | kernel/src/trap.rs:179-206 | every mutex owner and waiter may lock it, every IPC-blocked task holds the right it waits on |
| DataFlow.TransfersCarryData | kernel/src/trap.rs:437-616 | a trap changes a byte outside the frames it owns only by the one transfer it logs, from the buffer the sender named into the one the receiver named |
| DataFlow.TransferLength | kernel/src/trap.rs:584-594 | every logged transfer meets the first task waiting in the other role and moves the lesser of what was offered and what fits |
| DataFlow.OtherBytes | kernel/src/main.rs:1010-1055 | a restart writes its fresh frame and a running task what it stores itself, and nothing else |
| DataFlow.FrameKeptExactly | kernel/src/trap_entry.s:4-40 | in every run a trap leaves a suspended task's frame as expected iff neither the 128-byte entry store, at whatever stack pointer, nor the copy, nor another task's result puts a differing byte there |
| DataFlow.TrapFrameExact | kernel/src/trap.rs:453-457 | the same for any trap from any state that meets the invariant, with no condition on where its stack pointer is |
| DataFlow.WriteKeepsExactly | kernel/src/main.rs:706-719 | a store of a running task leaves a frame alone iff it puts no differing byte there |
| ContextIntegrity.SyscallMem | kernel/src/trap.rs:118-765 | every syscall does to memory at most one copy, one a0 result for a task it serves and one for its caller, in that order and nothing else |
| ContextIntegrity.SuspendedFrameKept | kernel/src/trap.rs:319-321 | while a task is suspended and no store meets its frame, its saved stack pointer and frame stay as they were, except that a0 carries the result delivered to it |
| ResumeTheorems.ResumesOwnFrame | kernel/src/trap.rs:1003-1035 | a resumed task continues at exactly the place and frame it was suspended with, past its ecall, and a0 is exactly the result of its call: delivered while it was away, or written at once, or unchanged where the call has none |
| ResumeTheorems.RegistersResume | kernel/src/trap_entry.s:4-88 | from interrupted register file to resumed register file, across any run: equal, with a0 exactly the call's result if it has one, and the right pc and mstatus |
| ResumeTheorems.RestartedRunsFresh | kernel/src/main.rs:1016-1029 | a restarted task first runs from the fresh frame at the top of its own stack, if no store meets it |
| Containment.FaultContained | kernel/src/trap.rs:838-989 | after a contained fault the task is dead and owns nothing, its hart runs another task, each mutex it held goes to its lowest waiting slot or is free if nobody waits, no other mutex changes, and no other task changes |
| Containment.TableInvariant | kernel/src/trap.rs:3-13 | the current index and every waiter bit name an occupied slot where they are looked up; at most one Running task per hart, at the current index, with 1 to duration ticks left |
| Containment.RunsAfterResched | scheduler/src/bitmap.rs:105-117 | after every reschedule the hart's current task is Running |
| CallTheorems.TickCountsTraps | kernel/src/trap.rs:70-72 | the tick counter is the number of timer traps of both harts, modulo 2^32 |
| CallTheorems.SleepsExactly | kernel/src/trap.rs:138-157 | a task that sleeps for d ticks stays asleep, or dies, until the counter has advanced by d, and the next timer trap of its hart wakes it |
| CallTheorems.UnauthorisedCallsFail | kernel/src/trap.rs:175-640 | a call without the capability, or on a slot with no task, changes nothing but the caller's a0, which becomes -1 |
| CallTheorems.UnlockPassesOn | kernel/src/trap.rs:277-334 | every unlock that returns 0 hands the mutex to its lowest waiting slot, or frees it if nobody waits |
| CallTheorems.UnlockExact | kernel/src/trap.rs:237-350 | an unlock with the right on a mutex that exists returns 0 and passes it to the lowest waiting slot, whose task wakes on the hart its slot belongs to, or frees it; no other mutex changes |
| CallTheorems.LockExact | kernel/src/trap.rs:158-220 | a lock call with the right takes a free mutex and returns 0, or waits in the bitmap of a taken one and gives up its hart; no other mutex changes |
| CallTheorems.SimpleCalls | kernel/src/trap.rs:359-372 | an unknown syscall changes nothing, and a check-in only the caller's time |
| CallTheorems.LocksCover | kernel/src/trap.rs:86-114 | a trap that takes no lock changes only the frame it stores, one that takes any starts with taking and ends with giving SCHED_LOCK, and the mutex table changes only on paths that take MUTEX_LOCK |
| CallTheorems.TerminateExact | kernel/src/trap.rs:645-765 | syscall 8 kills exactly the task in the named slot, hart 0 before hart 1, passes each of its mutexes to the lowest waiting slot or frees it if nobody waits, signals its hart if it is the other one, returns 0, and changes other tasks only by inheritance or by taking the caller's place |
| Signals.PendingExact | kernel/src/trap.rs:104-121 | in every run a hart's software interrupt is pending after an event iff it was pending and the event is not that interrupt, or the event is a syscall 4, 6, 7 or 8 of the other hart that wakes or terminates one of its tasks |
| Signals.CrossWakeSignalled | kernel/src/trap.rs:323-329 | an unlock, send or receive that wakes a task of the other hart leaves that hart's software interrupt pending |
| CallTheorems.CheckinsOwn | kernel/src/trap.rs:358-370 | a slot's check-in time is written only by its own syscall 5, with the current tick, and by its restart |
| Bitmaps.SetBit | kernel/src/trap.rs:199 | setting a bit adds exactly that slot |
| Bitmaps.ClearBit | kernel/src/trap.rs:305 | clearing a bit removes exactly that slot |
| KernelObject.KernelMachine.SwitchTask | kernel/src/trap.rs:1003-1035 | the object computes the specified switch and the stack pointer to resume from |
| KernelObject.KernelMachine.TimerTrap | kernel/src/trap.rs:70-103 | tick, wake scan and reschedule as specified |
| KernelObject.KernelMachine.SleepTicks | kernel/src/trap.rs:138-157 | syscall 2 as specified |
| KernelObject.KernelMachine.LockMutex | kernel/src/trap.rs:158-230 | syscall 3 as specified, on the 32-bit waiter bitmap, with the lock calls of its path on every branch |
| KernelObject.KernelMachine.LockThrough | kernel/src/trap.rs:177-219 | every branch of syscall 3 releases MUTEX_LOCK once and leaves the specified state and result |
| KernelObject.KernelMachine.FindHighestWaiter | kernel/src/trap.rs:277-300 | the bitmap loop finds the specified waiter |
| KernelObject.KernelMachine.UnlockMutex | kernel/src/trap.rs:231-357 | syscall 4 as specified, with the caller's a0 written after the switch and the lock calls of its path on every branch |
| KernelObject.KernelMachine.WatchdogCheckIn | kernel/src/trap.rs:358-370 | syscall 5 records the tick for the caller's slot and nothing else |
| KernelObject.KernelMachine.FindWaiter | kernel/src/trap.rs:408-435 | the nested search over both harts finds the specified task |
| KernelObject.KernelMachine.SendIpc | kernel/src/trap.rs:371-506 | syscall 6 as specified |
| KernelObject.KernelMachine.RecvIpc | kernel/src/trap.rs:508-643 | syscall 7 as specified |
| KernelObject.KernelMachine.RecoverMutexes | kernel/src/trap.rs:685-744 | the loop over all mutexes recovers exactly those the dead slot owned |
| KernelObject.KernelMachine.TerminateTask | kernel/src/trap.rs:645-765 | syscall 8 as specified, taking MUTEX_LOCK iff it found a task |
| KernelObject.KernelMachine.FaultTrap | kernel/src/trap.rs:838-989 | fault containment as specified, with its lock calls |
| KernelObject.KernelMachine.HandleTrap | kernel/src/trap.rs:35-1001 | every enabled trap takes the object from a valid state to a valid state, computes exactly one step of the machine and makes exactly the lock calls of its path |
| KernelObject.KernelMachine.RestartTask | kernel/src/main.rs:1010-1055 | the watchdog's restart steps compute exactly the restart event |
| Boot.BootEstablishes | kernel/src/main.rs:508-550 | whatever was registered and whichever Ready tasks start, boot establishes the invariant and no mutex is owned |
| Boot.BootTableConforms | kernel/src/main.rs:376-506 | the registered tasks and capabilities meet the configuration conditions |
| Boot.BootRightsExact | kernel/src/main.rs:391-497 | over every run from boot, a task may lock, send or receive iff the boot table says so: Task A and Task C lock mutex 0; Task A sends on endpoints 0 and 2, the HSM on 3; Task B receives on 0, the HSM on 2, Task A on 3 |
| Boot.BootNames | kernel/src/main.rs:376-506 | over every run from boot exactly the seven tasks are registered, in their slots and under their names |
| Boot.BootBudgets | scheduler/src/bitmap.rs:31-33 | over every run from boot every partition has 100 ticks; those boot starts and those switched in later get all of them |
| Boot.BootKernel | kernel/src/main.rs:343-550 | boot builds seven fresh frames and a valid machine running Watchdog on hart 0 and Task B on hart 1 |
| Boot.BootFlowsConfined | kernel/src/main.rs:391-497 | over every run from boot, every logged transfer goes from Task A to Task B, from Task A to the HSM, or from the HSM to Task A |
| Boot.BootDataConfined | kernel/src/main.rs:391-497 | over every run from boot, a byte a trap changes outside the frames it owns is in the receive buffer of such a transfer, and is the sender's byte |
| Boot.BootExclusion | kernel/src/main.rs:391-497 | over every run from boot, only Task A or Task C holds a mutex, never both, and only mutex 0 |
| Boot.BootInside | kernel/src/main.rs:391-497 | over every run from boot only Task A and Task C ever execute inside a critical section, and both at once iff one was killed from the other hart inside it, its hart has not switched away, and the other owns the mutex or was killed so too |
| SpinlockModel.MutualExclusion | kernel/src/kernel/spinlock.rs:57-79 | for any number of harts and any interleaving at most one is inside; it is the owner, and depth counts its outstanding acquisitions |
| SpinlockModel.OwnershipClears | kernel/src/kernel/spinlock.rs:83-91 | ownership is cleared only by the owner's outermost unlock, and depth is written only by the owner |
| SpinlockModel.CallReturns | kernel/src/kernel/spinlock.rs:57-91 | exactly the last access of a lock call adds an acquisition, exactly one access of an unlock call removes one, and no step touches another hart |
| SpinlockModel.CallEffects | kernel/src/kernel/spinlock.rs:57-91 | an undisturbed call ends with one acquisition more or fewer, and the lock is free iff that was the last |
| SpinlockModel.Spinlock.Lock | kernel/src/kernel/spinlock.rs:57-79 | owner and depth after a lock call, through any number of attempts that fail because another hart holds the lock or spuriously |
| SpinlockModel.Spinlock.Unlock | kernel/src/kernel/spinlock.rs:83-91 | owner and depth after an unlock call |
| LockOrder.TrapPathNests | kernel/src/trap.rs:175-218 | the lock calls of every trap path, which the kernel object is proved to make, take SCHED_LOCK before MUTEX_LOCK and give both back to their depth at entry, at whatever depth they nest |
| LockOrder.OneTrapAtATime | kernel/src/main.rs:174-180 | no two harts are inside SCHED_LOCK together, and MUTEX_LOCK is held only inside it, in every run in which traps interrupt U-mode lock calls only where SafeAt allows |
| LockInterrupts.InterruptExact | kernel/src/kernel/spinlock.rs:57-90 | a trap inside a U-mode lock or unlock call can lead to two harts inside iff it arrives at the first write of the depth, at the test of a depth just brought to 0, or at the clearing of the owner |
| LockInterrupts.BothInside | kernel/src/main.rs:893 | on two harts: such a trap, and both harts inside |
| LockInterrupts.HoldLost | kernel/src/main.rs:893-1010 | on two harts: a U-mode task takes the lock, a yield comes and goes, a syscall 8 of the same hart kills the holder, and the other hart holds the lock in no later state |
| LockOrder.NoDeadlock | kernel/src/trap.rs:252-350 | in the same runs nobody ever waits for MUTEX_LOCK, and whoever waits for SCHED_LOCK waits for a hart that can move and has yet to release it, unless a task was killed there while it held the lock in U-mode |
| LockOrder.TrapsComplete | kernel/src/trap.rs:903-980 | in the same runs, without such a kill: while lock calls are outstanding some hart can take a step that finishes some of them, and when none are, both locks are free |
| LockOrder.FinishingBounded | kernel/src/trap.rs:903-980 | over any stretch of any run the steps that are not failed spins number at most the work at its start plus the work that arrived, less what is left |
| LockOrder.LostForEver | kernel/src/main.rs:893-1010 | in the same runs, after such a kill its hart owns SCHED_LOCK in every later state, and no other hart ever gets in |
| TrapEntry.ResumesExactly | kernel/src/trap_entry.s:51-88 | restoring a saved frame gives the interrupted registers back, with a0 the written result |
| TrapEntry.LayoutAgrees | kernel/src/trap_entry.s:8-35 | the frame words the handler reads and writes are those of a0, a1, a2 and a7 |
| Tasks.LittleEndian | kernel/src/trap_entry.s:8-40 | the words of a frame are stored lowest byte first, which is what an IPC copy over one sees |
| TrapEntry.FrameLayout | kernel/src/trap_entry.s:8-40 | the saved frame word by word: ra, t0-t2, s0, s1, a0-a7, s2-s11, t3-t6, mepc, mstatus |
| TrapEntry.EntryStoresFrame | kernel/src/trap_entry.s:8-40 | what entry stores is the frame the kernel step sees, word for word |
| TrapEntry.HartCore.Enter | kernel/src/trap_entry.s:4-48 | saves the interrupted registers on the task's stack, moves to the kernel stack, and passes cause, frame address and cycle count |
| TrapEntry.HartCore.Leave | kernel/src/trap_entry.s:51-88 | loads the frame the handler returned and puts the kernel stack back in mscratch |
| Pmp.ByteRoundTrip | kernel/src/memory/pmp.rs:28-44 | the hardware reads a packed byte back as the configuration it was made from |
| Pmp.PatchThroughCsr | kernel/src/memory/pmp.rs:73-87 | read-modify-write changes its own entry's bits unless locked, and no other entry's |
| Pmp.NapotRoundTrip | kernel/src/memory/pmp.rs:56-58 | for every size 2^k of at least 8 and every aligned base the encoded address decodes to exactly that region |
| PmpDriver.PmpUnit.ConfigurePmp | kernel/src/memory/pmp.rs:53-89 | the packed registers refine a per-entry map |
| PmpDriver.PmpUnit.ReprogramPmpStack | kernel/src/memory/pmp.rs:98-155 | the loop performs the five specified writes |
| PmpDriver.PmpUnit.InitMemoryProtection | kernel/src/main.rs:621-720 | from reset, the unit with no task active |
| PmpDriver.SwitchesEndWith | kernel/src/memory/pmp.rs:98-155 | after any sequence of context switches the unit depends only on the last one |
| PmpDriver.Permissions | kernel/src/main.rs:621-720 | the U-mode permission of every address, by first match: flash 0x42000000 to 0x42400000 readable and executable, SRAM 0x3FC80000 to 0x3FD00000 readable and writable but for the inactive stacks of Watchdog and Task A |
| PmpDriver.FlashStaysLocked | kernel/src/memory/pmp.rs:28-44 | after any later configuration calls entry 0 is still locked, readable, executable and not writable over the same region |
| PmpDriver.WriteXorExecute | kernel/src/main.rs:621-720 | after any sequence of switches no address is both writable and executable |
| PmpDriver.StackEntries | kernel/src/memory/pmp.rs:98-156 | after any sequence of switches entries 1, 2, 4, 5 and 6 deny the stacks of Watchdog, Task A, Task B, Task C and the HSM, but for the active task's |
| PmpDriver.StackIsolationExact | kernel/src/memory/pmp.rs:91-155 | a task stack can be read or written iff its task is active or its entry ranks after the SRAM entry; no stack is executable |
| Telemetry.FitsBuffer | telemetry/src/lib.rs:46-51 | every logged event encodes to at most 11 bytes, so the 32-byte buffer never overflows |
| Telemetry.VarintRoundTrip | host/telemetry_broker.py:15-27 | reading an encoded varint gives its value and its length, whatever follows |
| Telemetry.ParseEncode | host/telemetry_broker.py:29-72 | parsing an encoded event gives that event and consumes exactly its bytes |
| Telemetry.EncodeIsWire | telemetry/src/lib.rs:10-16 | a byte string is an event's encoding iff it is the variant tag followed by the fields in declaration order, u8 as bytes and u32 as minimal base-128 varints, lowest group first |
| Telemetry.ParseWire | host/telemetry_broker.py:29-72 | the decoder reads every event back from those bytes, whatever follows |
| Telemetry.ParsePrefix | host/telemetry_broker.py:29-72 | no strict prefix of an encoding parses |
| Telemetry.PrefixFree | telemetry/src/lib.rs:12-16 | no encoding is the beginning of another |
| Telemetry.DrainExact | host/telemetry_broker.py:104-122 | draining whole encodings followed by part of one emits exactly those events and leaves exactly that part |
| Telemetry.ByteStream.ReadVarint | host/telemetry_broker.py:15-27 | the accumulating loop computes the specified value or reports the end of input |
| Telemetry.ByteStream.ParseEvent | host/telemetry_broker.py:29-72 | the stream parser computes the specified event |
| Telemetry.ByteStream.Drain | host/telemetry_broker.py:104-122 | the loop emits the specified events and keeps the specified bytes |
| CanRing.CanRingBuffer.Push | network/src/can.rs:90-99 | appends to a first-in first-out queue, refused iff it holds 15 frames |
| CanRing.CanRingBuffer.Pop | network/src/can.rs:101-110 | removes the oldest frame, none iff empty |
| CanRing.CanRingBuffer.IsFull | network/src/can.rs:112-114 | full iff 15 frames are queued |

## Left out

- Logging, RTT writes, metrics counters, cycle timing, the dashboard and the sockets: input and output only.
- SHA-256, HMAC, secure boot and the HSM task's loop: thin code over a crate that is not part of this model.
- `CanFrame::parse` and the emulation of cycle CSR reads for cause 2: small case tables. A trap with cause 2 in the
  model is one that is not such a read.
- The watchdog's deadline scan: only its restart steps are modelled; when it restarts or kills is arbitrary.
- Timer re-arming (mtimecmp): traps arrive in any order.
- Stores and copies into the kernel's own tables (SCHEDULERS, MUTEXES and the other statics): the tables are values
  of the model, not bytes of its memory, and the machine excludes events that would reach them. No PMP entry does.
- Boot is one step: the interval in which one hart already takes traps and the other has not started is not covered.
- Causes that are neither interrupts, ecalls nor contained faults panic the core and end the run.
- Weak memory ordering: atomics are sequentially consistent, with spurious CAS failure.
- Decoding across chunks of the telemetry file: the leftover bytes are rewound before the next chunk is written, so
  only one buffer is covered.
- A software interrupt on every cross-core wake and a zero a0 on every grant: true of unlock, send and receive, and
  not of the syscall 8 and fault recovery paths, which the model follows as they are.
- LockOrder: a trap nests inside another trap only between two of its lock calls; a fault inside the lock code itself
  in M-mode is not covered. A hart has one U-mode lock call in progress at a time. The hold depth does not wrap.
- PmpDriver: reprogramming is not part of the trap machine's step, so the machine admits U-mode stores that the PMP
  would stop; the unit has eight entries and unmatched addresses are denied.
