/** Runs of the trap machine: any interleaving of traps of both harts, watchdog restarts and the stores
    that running tasks make. */
module Machine {
  import opened Tasks
  import opened PartitionScheduler
  import opened KernelState
  import opened KernelSteps
  import opened KernelInvariant
  import opened KernelSafety
  import opened IpcSafety
  import opened RecoverySafety

  datatype Event =
    | Trap(hart: nat, mcause: Word, sp: int, frame: Frame)
    | Restart(task: Tid, entry: Word)
    | Write(hart: nat, addr: int, data: seq<Byte>)   // the task running on `hart` stores `data`

  predicate IsCall(e: Event, id: Word) {
    e.Trap? && e.mcause == 8 && e.frame[REG_A7] == id
  }

  /** What the kernel relies on when a task makes a syscall: only the owner unlocks, an owner does not
      lock again, syscall 8 names neither an idle task nor a mutex waiter, an idle task does not block,
      and a task that the other hart has killed neither blocks nor takes a mutex. */
  predicate SyscallOk(k: Kernel, h: nat, sp: int)
    requires h < 2 && Occ(k, CurTid(k, h))
  {
    var t, id := CurTid(k, h), Reg(k.mem, sp, REG_A7);
    && (WouldBlock(k, h, sp) ==> Live(k, h))
    && (WouldGrant(k, h, sp) ==> St(k, t) == Running)
    && (id == 3 ==> OwnsNot(k, LockTarget(k, h, sp), t.slot))
    && (id == 4 ==> OwnsIfPresent(k, UnlockTarget(k, h, sp), t.slot))
    && (id == 8 ==> MayTerminate(k, Reg(k.mem, sp, REG_A0)))
  }

  /** The range is clear of the kernel's own tables. */
  predicate ClearOfStatics(k: Kernel, addr: int, len: nat) { Disjoint(Stack(addr, len), k.statics) }

  /** The copy a syscall makes does not reach the kernel's own tables. */
  predicate CopyOk(k: Kernel, h: nat, sp: int)
    requires h < 2 && Occ(k, CurTid(k, h))
  {
    var m := MessageOf(k, h, sp);
    m.Some? ==> ClearOfStatics(k, m.value.dst, m.value.len)
  }

  predicate CallOk(k: Kernel, h: nat, sp: int)
    requires h < 2 && Occ(k, CurTid(k, h))
  {
    SyscallOk(k, h, sp) && CopyOk(k, h, sp)
  }

  /** The trap takes its hart from a running task that stays alive: the last tick of its budget, a forced
      reschedule with somebody else to run, or a call that blocks. */
  predicate Displaces(k: Kernel, e: Event)
    requires e.Trap? && e.hart < 2 && Occ(k, CurTid(k, e.hart))
  {
    var h, s, k1 := e.hart, k.scheds[e.hart], Stored(k, e);
    && St(k, CurTid(k, h)) == Running
    && (|| (e.mcause == TIMER_INTERRUPT && s.remaining == 1 && HasNext(Ticked(k, h).scheds[h]))
        || (e.mcause == SOFTWARE_INTERRUPT && HasNext(s))
        || (&& e.mcause == ECALL_UMODE
            && (|| (e.frame[REG_A7] == 1 && HasNext(s))
                || (e.frame[REG_A7] == 4 && UnlockFinds(k1, h, e.sp) && HasNext(s))
                || WouldBlock(k1, h, e.sp))))
  }

  predicate UnlockFinds(k: Kernel, h: nat, sp: int)
    requires h < 2 && Occ(k, CurTid(k, h))
  {
    var m := UnlockTarget(k, h, sp);
    m.Some? && m.value < 8 && k.mutexes[m.value].Some?
  }

  /** Trap entry stores at whatever the stack pointer is. It must leave room for the frame in the task's own
      stack where the task will have to resume from it. */
  predicate StackOk(k: Kernel, e: Event)
    requires e.Trap? && e.hart < 2 && Occ(k, CurTid(k, e.hart))
  {
    var t := CurTid(k, e.hart);
    Displaces(k, e) ==> t in k.stacks && InStack(k, t, e.sp)
  }

  /** Everything but where the stack pointer of an interrupted task is. */
  predicate Handled(k: Kernel, e: Event) {
    match e
    case Trap(h, mcause, sp, f) =>
      && h < 2 && Occ(k, CurTid(k, h)) && ClearOfStatics(k, sp, FRAME_BYTES)
      && (|| mcause == TIMER_INTERRUPT || mcause == SOFTWARE_INTERRUPT
          || (mcause == ECALL_UMODE && CallOk(Entered(k, sp, Advanced(f)), h, sp))
          || (Contained(mcause) && CurTid(k, h).slot != IDLE))
    case Restart(t, entry) =>
      Occ(k, t) && St(k, t) == Terminated && k.scheds[t.hart].current != t.slot
    case Write(h, addr, data) => h < 2 && Occ(k, CurTid(k, h)) && ClearOfStatics(k, addr, |data|)
  }

  predicate Enabled(k: Kernel, e: Event) {
    Handled(k, e) && (e.Trap? ==> StackOk(k, e))
  }

  /** The registers trap entry leaves at `sp` once the saved pc is right. */
  function StoredFrame(e: Event): (f: Frame)
    requires e.Trap?
  {
    if e.mcause == ECALL_UMODE then Advanced(e.frame) else e.frame
  }

  function Stored(k: Kernel, e: Event): (r: Kernel)
    requires e.Trap?
  {
    Entered(k, e.sp, StoredFrame(e))
  }

  function PlanOf(k: Kernel, e: Event): (p: Plan)
    requires e.Trap? && e.hart < 2 && Occ(k, CurTid(k, e.hart))
  {
    Body(k, e.hart, e.mcause, e.sp, e.frame)
  }

  lemma {:induction false} StoredRegs(k: Kernel, e: Event)
    requires e.Trap?
    ensures forall i :: 0 <= i < 32 ==> Reg(Stored(k, e).mem, e.sp, i) == StoredFrame(e)[i]
    ensures forall i :: 0 <= i < 28 ==> Reg(Stored(k, e).mem, e.sp, i) == e.frame[i]
    ensures FrameAt(Stored(k, e).mem, e.sp) == StoredFrame(e)
  {
    FrameRoundTrip(k.mem, e.sp, StoredFrame(e));
    var g := FrameAt(Stored(k, e).mem, e.sp);
    assert forall i :: 0 <= i < 32 ==> g[i] == Reg(Stored(k, e).mem, e.sp, i);
  }

  /** No enabled trap panics, and every handler body hands a consistent state to the scheduler. */
  lemma {:induction false} BodySafe(k: Kernel, e: Event)
    requires Inv(k) && e.Trap? && Enabled(k, e)
    ensures PlanOk(Stored(k, e), PlanOf(k, e), e.hart)
  {
    hide Inv, StackOk, PlanOk;
    HandledSafe(k, e);
  }

  lemma {:induction false} HandledSafe(k: Kernel, e: Event)
    requires Inv(k) && e.Trap? && Handled(k, e)
    ensures PlanOk(Stored(k, e), PlanOf(k, e), e.hart)
  {
    var k1, h, sp := Stored(k, e), e.hart, e.sp;
    SameTablesKeep(k, k1);
    if e.mcause == TIMER_INTERRUPT {
      TimerSafe(k1, h);
    } else if e.mcause == SOFTWARE_INTERRUPT {
      QuietSafe(k1, PlanOf(k, e), h);
    } else if e.mcause == ECALL_UMODE {
      SyscallSafe(k1, h, sp);
    } else {
      FaultSafe(k1, h);
    }
  }

  lemma {:induction false} SyscallSafe(k: Kernel, h: nat, sp: int)
    requires h < 2 && Inv(k) && Occ(k, CurTid(k, h)) && SyscallOk(k, h, sp)
    ensures PlanOk(k, Syscall(k, h, sp), h)
  {
    var id := Reg(k.mem, sp, REG_A7);
    if id == 2 { SleepSafe(k, h, sp); }
    else if id == 3 { LockSafe(k, h, sp); }
    else if id == 4 { UnlockSafe(k, h, sp); }
    else if id == 6 { SendSafe(k, h, sp); }
    else if id == 7 { RecvSafe(k, h, sp); }
    else if id == 8 { TerminateSafe(k, h, sp); }
    else { QuietSafe(k, Syscall(k, h, sp), h); }
  }

  lemma {:induction false} HandledKept(k: Kernel, e: Event)
    requires Inv(k) && e.Trap? && Handled(k, e)
    ensures !PlanOf(k, e).Panic? && PlanOf(k, e).k.scheds[e.hart].current == k.scheds[e.hart].current < 32
  {
    hide Inv, MidInv, PlanOf, CallOk, PutFrame;
    HandledSafe(k, e);
  }

  // ---- Where the stack pointer may be ----

  /** Who calls the scheduler, and what it finds. */
  lemma {:induction false} SyscallDisplaces(k: Kernel, h: nat, sp: int)
    requires h < 2 && Inv(k) && Occ(k, CurTid(k, h)) && SyscallOk(k, h, sp) && !Syscall(k, h, sp).Panic?
    requires St(k, CurTid(k, h)) == Running
    ensures var p, t, id := Syscall(k, h, sp), CurTid(k, h), Reg(k.mem, sp, REG_A7);
      && Occ(p.k, t)
      && (WouldBlock(k, h, sp) ==> p.Resched? && !p.isTick && St(p.k, t) != Terminated && St(p.k, t) != Running)
      && (!WouldBlock(k, h, sp) && (id == 1 || (id == 4 && UnlockFinds(k, h, sp))) ==>
            p.Resched? && !p.isTick && St(p.k, t) == Running)
      && (!WouldBlock(k, h, sp) && id != 1 && !(id == 4 && UnlockFinds(k, h, sp)) ==>
            p.Return? || St(p.k, t) == Terminated)
  {
    hide Reg, PutReg, HighestWaiter, Killed, MutexInv, IpcInv, StackInv;
    var t, id := CurTid(k, h), Reg(k.mem, sp, REG_A7);
    if id == 4 && UnlockFinds(k, h, sp) {
      UnlockerRuns(k, h, sp);
    } else if id == 8 {
      TerminatedSelf(k, h, sp);
    }
  }

  lemma {:induction false} UnlockerRuns(k: Kernel, h: nat, sp: int)
    requires h < 2 && Inv(k) && Occ(k, CurTid(k, h)) && St(k, CurTid(k, h)) == Running && !Unlock(k, h, sp).Panic?
    ensures var p, t := Unlock(k, h, sp), CurTid(k, h); Occ(p.k, t) && St(p.k, t) == Running
  {
    hide Reg, PutReg, HighestWaiter, IpcInv, StackInv;
    if UnlockFinds(k, h, sp) {
      assert MutexOk(k, UnlockTarget(k, h, sp).value, None);
    }
  }

  lemma {:induction false} TerminatedSelf(k: Kernel, h: nat, sp: int)
    requires h < 2 && Inv(k) && Occ(k, CurTid(k, h)) && MayTerminate(k, Reg(k.mem, sp, REG_A0))
    ensures var p, t := Terminate(k, h, sp), CurTid(k, h);
      Occ(p.k, t) && (p.Return? || St(p.k, t) == Terminated)
  {
    hide Reg, PutReg, Killed, MutexInv, IpcInv, StackInv, Cfg, SchedsOk;
    match Named(k, Reg(k.mem, sp, REG_A0))
    case None =>
    case Some(t) => KilledStates(k, t);
  }

  /** A reschedule of hart `h` suspends its task exactly when it moves on and the task is alive. */
  lemma {:induction false} SwitchSuspends(k: Kernel, h: nat, sp: int, isTick: bool)
    requires h < 2 && SchedMid(k.scheds[h])
    ensures var k', t, s := Switch(k, h, sp, isTick).k, CurTid(k, h), k.scheds[h];
      && Occ(k, t)
      && (Suspended(k', t) <==>
            St(k, t) != Terminated && (St(k, t) != Running || ((!isTick || s.remaining == 1) && HasNext(s))))
  {
    hide Scheduled, HasNext;
    ScheduleMoves(k.scheds[h], isTick);
    SwitchEffect(k, h, sp, isTick);
  }

  lemma {:induction false} IdleUnlocksNothing(k: Kernel, h: nat, sp: int)
    requires h < 2 && Inv(k) && Occ(k, CurTid(k, h)) && UnlockFinds(k, h, sp)
    ensures CurTid(k, h).slot != IDLE
  {
    assert SchedOk(k.scheds[0]) && SchedOk(k.scheds[1]);
    assert MutexCapPlaced(k, CurTid(k, h));
  }

  /** The task is suspended after the trap exactly when the trap displaces it. */
  lemma {:induction false} DisplacesIff(k: Kernel, e: Event)
    requires Inv(k) && e.Trap? && Handled(k, e)
    ensures var p, t := PlanOf(k, e), CurTid(k, e.hart);
      && !p.Panic? && (p.Resched? ==> SchedMid(p.k.scheds[e.hart]))
      && (p.Resched? && Suspended(Switch(p.k, e.hart, e.sp, p.isTick).k, t) <==> Displaces(k, e))
  {
    hide Inv, MidInv, CallOk, PutFrame, Killed, Switch, SchedOk;
    var k1, h, t, p := Stored(k, e), e.hart, CurTid(k, e.hart), PlanOf(k, e);
    HandledSafe(k, e);
    PlanMid(k1, p, h);
    CurrentAlive(k, h);
    if p.Resched? { SwitchSuspends(p.k, h, e.sp, p.isTick); }
    if e.mcause == TIMER_INTERRUPT {
      TickDisplaces(k, k1, h);
    } else if e.mcause == ECALL_UMODE {
      CallDisplaces(k, e);
    } else if Contained(e.mcause) {
      SameTablesKeep(k, k1);
      FaultKills(k1, h);
    }
  }

  lemma {:induction false} PlanMid(k: Kernel, p: Plan, h: nat)
    requires h < 2 && PlanOk(k, p, h)
    ensures SchedMid(p.k.scheds[h]) && p.k.scheds[h].current == k.scheds[h].current
    ensures p.k.scheds[h].remaining == k.scheds[h].remaining
    ensures forall t :: Occ(k, t) ==> Occ(p.k, t) && (St(k, t) == Terminated ==> St(p.k, t) == Terminated)
  {}

  lemma {:induction false} CurrentAlive(k: Kernel, h: nat)
    requires h < 2 && Inv(k)
    ensures Occ(k, CurTid(k, h)) && St(k, CurTid(k, h)) in {Running, Terminated}
  {
    assert SchedOk(k.scheds[h]);
  }

  lemma {:induction false} TickDisplaces(k: Kernel, k1: Kernel, h: nat)
    requires h < 2 && Inv(k) && Occ(k, CurTid(k, h)) && k1 == k.(mem := k1.mem)
    ensures Ticked(k1, h).scheds == Ticked(k, h).scheds
    ensures Occ(Ticked(k1, h), CurTid(k, h)) && St(Ticked(k1, h), CurTid(k, h)) == St(k, CurTid(k, h))
  {
    assert SchedOk(k.scheds[h]);
    TickedTasks(k1, h);
  }

  lemma {:induction false} FaultKills(k: Kernel, h: nat)
    requires h < 2 && Inv(k) && Occ(k, CurTid(k, h))
    ensures Occ(Killed(k, CurTid(k, h)), CurTid(k, h)) && St(Killed(k, CurTid(k, h)), CurTid(k, h)) == Terminated
  {
    hide Killed, MutexInv, IpcInv, StackInv, Cfg;
    assert SchedOk(k.scheds[h]);
    KilledStates(k, CurTid(k, h));
  }

  lemma {:induction false} CallDisplaces(k: Kernel, e: Event)
    requires Inv(k) && e.Trap? && Handled(k, e) && e.mcause == ECALL_UMODE
    requires PlanOk(Stored(k, e), PlanOf(k, e), e.hart)
    ensures var p, t, h := PlanOf(k, e), CurTid(k, e.hart), e.hart;
      && Occ(p.k, t)
      && (Displaces(k, e) <==>
            && p.Resched? && St(p.k, t) != Terminated
            && (St(p.k, t) != Running || ((!p.isTick || p.k.scheds[h].remaining == 1) && HasNext(p.k.scheds[h]))))
  {
    hide Inv, MidInv, SyscallOk, CopyOk, PutFrame, Syscall, WouldBlock, HasNext, UnlockTarget;
    var k1, h, t := Stored(k, e), e.hart, CurTid(k, e.hart);
    StoredRegs(k, e);
    SameTablesKeep(k, k1);
    CurrentAlive(k, h);
    PlanMid(k1, PlanOf(k, e), h);
    if St(k, t) == Running {
      SyscallDisplaces(k1, h, e.sp);
      SameNext(k1, h, e.sp);
    }
  }

  /** A yield finds the tables as they were; an unlocking task is not idle, so the idle task can take over. */
  lemma {:induction false} SameNext(k: Kernel, h: nat, sp: int)
    requires h < 2 && Inv(k) && Occ(k, CurTid(k, h)) && PlanOk(k, Syscall(k, h, sp), h)
    ensures var p, id := Syscall(k, h, sp), Reg(k.mem, sp, REG_A7);
      id == 1 || (id == 4 && UnlockFinds(k, h, sp)) ==> (HasNext(p.k.scheds[h]) <==> HasNext(k.scheds[h]))
  {
    hide Inv, Reg, MidInv, Lock, Unlock, Send, Recv, Terminate, Sleep, CheckIn, UnlockTarget;
    PlanMid(k, Syscall(k, h, sp), h);
    if UnlockFinds(k, h, sp) { IdleUnlocksNothing(k, h, sp); }
  }

  /** A trap keeps the invariant exactly when the stack pointer leaves room for the frame in the task's own
      stack, if the trap displaces the task; otherwise it may be anywhere. */
  lemma {:induction false} HandledExact(k: Kernel, e: Event)
    requires Inv(k) && e.Trap? && Handled(k, e)
    ensures !PlanOf(k, e).Panic? && PlanOf(k, e).k.scheds[e.hart].current < 32
    ensures Inv(Finish(PlanOf(k, e), e.hart, e.sp).k) <==> StackOk(k, e)
  {
    hide PlanOf, CallOk, PutFrame, Displaces, MutexInv, IpcInv, SchedMid, SchedOk, Switch;
    var p, h := PlanOf(k, e), e.hart;
    HandledKept(k, e);
    HandledSafe(k, e);
    DisplacesIff(k, e);
    if p.Resched? { SwitchRestores(p.k, h, e.sp, p.isTick); }
  }

  lemma {:induction false} FinishSafe(k: Kernel, e: Event)
    requires Inv(k) && e.Trap? && Enabled(k, e)
    ensures !PlanOf(k, e).Panic? && PlanOf(k, e).k.scheds[e.hart].current == k.scheds[e.hart].current < 32
    ensures Inv(Finish(PlanOf(k, e), e.hart, e.sp).k)
  {
    hide Inv, PlanOk, StackOk, PlanOf;
    HandledKept(k, e);
    HandledExact(k, e);
  }

  /** One step: the new state and the stack pointer the hart resumes from, or that a restart prepared. */
  ghost function Step(k: Kernel, e: Event): (r: Outcome)
    requires Inv(k) && Enabled(k, e)
    ensures Inv(r.k)
  {
    match e
    case Trap(h, mcause, sp, f) =>
      FinishSafe(k, e);
      Finish(PlanOf(k, e), h, sp)
    case Restart(t, entry) =>
      RestartSafe(k, t, entry);
      Done(Restarted(k, t, entry), InitialSp(k.stacks[t].base, k.stacks[t].size))
    case Write(h, addr, data) =>
      SameTablesKeep(k, Poked(k, addr, data));
      Done(Poked(k, addr, data), 0)
  }

  ghost function Next(k: Kernel, e: Event): (r: Kernel)
    requires Inv(k) && Enabled(k, e)
    ensures Inv(r)
  {
    Step(k, e).k
  }

  // ---- Runs ----

  /** `k'` is the state after event `e`: the trap was handled without a panic, or the restart or store
      happened. */
  ghost predicate Steps(k: Kernel, e: Event, k': Kernel) {
    && Enabled(k, e)
    && match e
       case Trap(h, mcause, sp, f) =>
         var p := PlanOf(k, e);
         !p.Panic? && p.k.scheds[h].current < 32 && k' == Finish(p, h, sp).k
       case Restart(t, entry) => t in k.stacks && k' == Restarted(k, t, entry)
       case Write(h, addr, data) => k' == Poked(k, addr, data)
  }

  ghost predicate StepAt(ks: seq<Kernel>, es: seq<Event>, i: nat)
    requires |ks| == |es| + 1 && i < |es|
  {
    Steps(ks[i], es[i], ks[i + 1])
  }

  /** A run: states `ks` and the events between them, starting where the invariant holds. */
  ghost predicate Run(ks: seq<Kernel>, es: seq<Event>) {
    && |ks| == |es| + 1 && Inv(ks[0])
    && forall i :: 0 <= i < |es| ==> StepAt(ks, es, i)
  }

  lemma {:induction false} StepsIsNext(k: Kernel, e: Event, k': Kernel)
    requires Inv(k) && Steps(k, e, k')
    ensures k' == Next(k, e) && Inv(k')
  {
    hide Body, Inv, Finish, Restarted, Poked;
    if e.Trap? { FinishSafe(k, e); }
    var n := Next(k, e);
  }

  /** No enabled event panics or unwraps an empty slot: every one leads to a state. */
  lemma {:induction false} NeverStuck(k: Kernel, e: Event)
    requires Inv(k) && Enabled(k, e)
    ensures Steps(k, e, Next(k, e))
  {
    hide Body, Finish, Restarted;
    if e.Trap? { FinishSafe(k, e); }
  }

  /** The machine invariant holds in every state of every run. */
  lemma {:induction false} RunInv(ks: seq<Kernel>, es: seq<Event>, n: nat)
    requires Run(ks, es) && n <= |es|
    ensures Inv(ks[n])
  {
    hide Inv, Steps;
    if n > 0 {
      RunInv(ks, es, n - 1);
      assert StepAt(ks, es, n - 1);
      StepsIsNext(ks[n - 1], es[n - 1], ks[n]);
    }
  }

  /** Step `n` of a run, in the form the step lemmas use. */
  lemma {:induction false} RunStep(ks: seq<Kernel>, es: seq<Event>, n: nat)
    requires Run(ks, es) && n < |es|
    ensures Inv(ks[n]) && Enabled(ks[n], es[n]) && ks[n + 1] == Next(ks[n], es[n]) && Inv(ks[n + 1])
  {
    hide Inv, Enabled, PlanOf;
    RunInv(ks, es, n);
    assert StepAt(ks, es, n);
    StepsIsNext(ks[n], es[n], ks[n + 1]);
  }
}
