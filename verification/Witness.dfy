/** Runs from boot that show what happens where a condition of the theorems does not hold. */
module Witnesses {
  import opened Tasks
  import opened PartitionScheduler
  import opened KernelState
  import opened KernelSteps
  import opened KernelInvariant
  import opened KernelSafety
  import opened Machine
  import opened Timing
  import opened RendezvousTheorems
  import opened ExchangeTheorems
  import opened RecoverySafety
  import opened MutualExclusion
  import opened CallTheorems
  import C = ContextIntegrity
  import G = Guards
  import opened Boot

  // ---- The state after boot ----

  const FREE := KMutex(false, None, {})

  /** The seven tasks where boot left them, Watchdog and Task B running. */
  ghost predicate BootView(k: Kernel, stacks: map<Tid, Stack>, statics: Stack) {
    && k.stacks == stacks && k.statics == statics && k.transfers == [] && k.mutexes[0] == Some(FREE)
    && CurTid(k, 0) == WATCHDOG && CurTid(k, 1) == TASK_B
    && (forall t :: Occ(k, t) <==> BootTask(t))
    && (forall t :: Occ(k, t) ==> TaskView(k, stacks, t))
  }

  ghost predicate TaskView(k: Kernel, stacks: map<Tid, Stack>, t: Tid)
    requires Occ(k, t)
  {
    && TcbOf(k, t).capabilities == CapsOf(t) && TcbOf(k, t).savedSp == BootSp(stacks, t)
    && St(k, t) == if t == WATCHDOG || t == TASK_B then Running else Ready
  }

  lemma {:induction false} BootedTasks(k: Kernel, r: Kernel, stacks: map<Tid, Stack>, statics: Stack)
    requires StacksPlaced(stacks, statics) && Booted(k, r, stacks, statics)
    ensures Inv(k) && BootView(k, stacks, statics)
  {
    hide NameOf, CapsOf, Inv, BootTask, BootSp;
    BootPlaces(k, r, stacks, statics);
    BootTableConforms(r, stacks, statics);
    BootTasks();
    forall t ensures Occ(k, t) <==> BootTask(t) {
      StartedTask(r, 0, 2, t);
    }
    forall t | Occ(k, t) ensures TaskView(k, stacks, t) {
      StartedTask(r, 0, 2, t);
    }
  }

  /** What boot left of one task. */
  lemma {:induction false} TaskAtBoot(k: Kernel, stacks: map<Tid, Stack>, statics: Stack, t: Tid)
    requires BootView(k, stacks, statics) && BootTask(t)
    ensures Occ(k, t) && TaskView(k, stacks, t)
  {}

  lemma {:induction false} StartedTask(k: Kernel, i: nat, j: nat, t: Tid)
    requires ReadyAt(k.scheds[0], i) && ReadyAt(k.scheds[1], j)
    ensures var k' := BothStarted(k, i, j);
      && (Occ(k', t) <==> Occ(k, t))
      && (Occ(k, t) ==>
            TcbOf(k', t) ==
              if t == Tid(0, i) || t == Tid(1, j) then TcbOf(k, t).(state := Running) else TcbOf(k, t))
  {
    if t.hart == 1 { assert BothStarted(k, i, j).scheds[t.hart] == Started(k.scheds[1], j); }
  }

  // ---- Calls ----

  /** A frame whose ecall is syscall `id` with the given arguments, and `ra` in its first word. */
  function CallFrame(id: Word, a0: Word, a1: Word, a2: Word, ra: Word): (f: Frame)
    ensures f[REG_A7] == id && f[REG_A0] == a0 && f[REG_A1] == a1 && f[REG_A2] == a2 && f[0] == ra
  {
    seq(32, i requires 0 <= i < 32 =>
      if i == 0 then ra
      else if i == 6 then a0 else if i == 7 then a1 else if i == 8 then a2 else if i == 13 then id else 0)
  }

  function CallEvent(h: nat, sp: int, id: Word, a0: Word, a1: Word, a2: Word, ra: Word): (e: Event) {
    Trap(h, ECALL_UMODE, sp, CallFrame(id, a0, a1, a2, ra))
  }

  /** A frame in a task's stack is clear of the kernel's tables. */
  lemma {:induction false} FrameClear(k: Kernel, t: Tid, sp: int)
    requires Inv(k) && Occ(k, t) && t in k.stacks && InStack(k, t, sp)
    ensures ClearOfStatics(k, sp, FRAME_BYTES)
  {
    hide MutexInv, IpcInv, StackInv, SchedsOk;
  }

  lemma {:induction false} YieldPlan(k: Kernel, e: Event)
    requires Inv(k) && e.Trap? && e.hart < 2 && IsCall(e, 1)
    requires Occ(k, CurTid(k, e.hart)) && CurTid(k, e.hart) in k.stacks && InStack(k, CurTid(k, e.hart), e.sp)
    ensures Enabled(k, e) && PlanOf(k, e) == Resched(Stored(k, e), false)
  {
    hide PutFrame, Inv;
    FrameClear(k, CurTid(k, e.hart), e.sp);
    StoredRegs(k, e);
  }

  /** A forced reschedule runs the next slot if it is Ready. */
  lemma {:induction false} SwitchRunsNext(k: Kernel, h: nat, sp: int, n: nat)
    requires h < 2 && SchedMid(k.scheds[h]) && k.scheds[h].current + 1 == n < 31 && InState(k, Tid(h, n), Ready)
    ensures CurTid(Switch(k, h, sp, false).k, h) == Tid(h, n)
  {
    var s := k.scheds[h];
    assert Eligible(s, n) && Dist(s.current, n) == 1;
    PickIsFirstReady(s);
    SwitchEffect(k, h, sp, false);
  }

  /** What a yield to the next slot leaves. */
  ghost predicate Yielded(k: Kernel, k': Kernel, h: nat, t: Tid)
    requires h < 2
  {
    && CurTid(k', h) == t && InState(k', t, Running)
    && k'.scheds[1 - h] == k.scheds[1 - h] && k'.transfers == k.transfers && k'.mutexes == k.mutexes
    && SameConfig(k, k')
    && (forall u :: Occ(k, u) && u != t && u != CurTid(k, h) ==> Occ(k', u) && TcbOf(k', u) == TcbOf(k, u))
    && (InState(k, CurTid(k, h), Running) ==> InState(k', CurTid(k, h), Ready))
  }

  lemma {:induction false} SwitchYields(k: Kernel, h: nat, sp: int, n: nat)
    requires h < 2 && SchedMid(k.scheds[h]) && k.scheds[h].current + 1 == n < 31 && InState(k, Tid(h, n), Ready)
    ensures Yielded(k, Switch(k, h, sp, false).k, h, Tid(h, n)) && Switch(k, h, sp, false).k.mem == k.mem
  {
    hide Pick, Scheduled;
    var k' := Switch(k, h, sp, false).k;
    SwitchRunsNext(k, h, sp, n);
    SwitchEffect(k, h, sp, false);
    SwitchCalm(k, h, sp, false);
    forall u | Occ(k, u) && u != Tid(h, n) && u != CurTid(k, h) ensures Occ(k', u) && TcbOf(k', u) == TcbOf(k, u) {
      if u.hart != h { assert u.hart == 1 - h; }
    }
  }

  lemma {:induction false} YieldedStored(k: Kernel, k1: Kernel, k': Kernel, h: nat, t: Tid)
    requires h < 2 && SameTables(k, k1) && k1.transfers == k.transfers && Yielded(k1, k', h, t)
    ensures Yielded(k, k', h, t)
  {
    assert forall u :: Occ(k, u) <==> Occ(k1, u);
    assert forall u :: Occ(k, u) ==> TcbOf(k1, u) == TcbOf(k, u);
  }

  /** The next slot is Ready: a yield runs it. */
  lemma {:induction false} YieldRuns(k: Kernel, e: Event, n: nat)
    requires Inv(k) && e.Trap? && e.hart < 2 && IsCall(e, 1)
    requires Occ(k, CurTid(k, e.hart)) && CurTid(k, e.hart) in k.stacks && InStack(k, CurTid(k, e.hart), e.sp)
    requires k.scheds[e.hart].current + 1 == n < 31 && InState(k, Tid(e.hart, n), Ready)
    ensures Enabled(k, e) && Inv(Next(k, e)) && Next(k, e).mem == Stored(k, e).mem
    ensures Yielded(k, Next(k, e), e.hart, Tid(e.hart, n))
  {
    hide PutFrame, Inv, Body, CallOk, Yielded, Switch;
    var k1 := Stored(k, e);
    YieldPlan(k, e);
    CurrentInRange(k, e.hart);
    SwitchYields(k1, e.hart, e.sp, n);
    YieldedStored(k, k1, Next(k, e), e.hart, Tid(e.hart, n));
  }

  // ---- An IPC copy into a suspended frame ----

  /** A call on an endpoint where nobody waits is always possible for a task that may block. */
  lemma {:induction false} CallEnabled(k: Kernel, e: Event, ep: nat, sender: bool)
    requires e.Trap? && e.hart < 2 && Occ(k, CurTid(k, e.hart)) && Live(k, e.hart) && NoWaiter(k, ep)
    requires CurTid(k, e.hart) in k.stacks && InStack(k, CurTid(k, e.hart), e.sp)
    requires CallsEndpoint(k, e, CurTid(k, e.hart), ep, sender) && ClearOfStatics(k, e.sp, FRAME_BYTES)
    ensures Enabled(k, e)
  {
    hide PutFrame, Find;
    var k1 := Stored(k, e);
    StoredRegs(k, e);
    CallRights(k, e, CurTid(k, e.hart), ep);
    StoredAlone(k, k1, ep);
    assert Find(k1, ep, !sender) == None;
  }

  lemma {:induction false} MeetingStates(k: Kernel, e: Event, peer: Tid, ep: nat, u: Tid)
    requires Inv(k) && Enabled(k, e) && IsCall(e, 7) && CallsEndpoint(k, e, CurTid(k, e.hart), ep, false)
    requires Occ(k, peer) && WaitsToSend(St(k, peer), ep) && OnlyWaiter(k, ep, peer) && Occ(k, u) && u != peer
    ensures var k' := Next(k, e);
      && Occ(k', u) && TcbOf(k', u) == TcbOf(k, u)
      && forall h :: 0 <= h < 2 ==> k'.scheds[h].current == k.scheds[h].current
  {
    hide Body, PutFrame, Find, Copy, PutReg, CallOk, Inv;
    var k1 := Stored(k, e);
    StoredRegs(k, e);
    IpcPlan(k, e);
    CallRights(k, e, CurTid(k, e.hart), ep);
    StillAlone(k, k1, ep, peer);
    assert TcbOf(k1, peer) == TcbOf(k, peer) && TcbOf(k1, u) == TcbOf(k, u);
    FoundIs(k1, ep, true, peer);
    FinishSafe(k, e);
  }

  /** Stacks lie in the 32-bit address space. */
  ghost predicate Addressable(stacks: map<Tid, Stack>) {
    forall t :: BootTask(t) ==> t in stacks && 0 <= stacks[t].base && stacks[t].base + 1024 < 0x1_0000_0000
  }

  /** The bytes that reach the saved pc of Task C. */
  lemma {:induction false} OverwrittenPc(m: Memory, e1: Event, e2: Event, spC: Word, v: Word)
    requires e1.Trap? && e2.Trap? && e1.mcause == ECALL_UMODE
    requires C.Apart(e1.sp, e2.sp) && C.Apart(e1.sp, spC) && C.Apart(e2.sp, spC) && spC + FRAME_BYTES < 0x1_0000_0000
    requires e1.sp == e1.frame[REG_A1] && e1.frame[REG_A2] == 4 && e1.frame[0] == v
    requires e2.frame[REG_A1] == spC + 112 && e2.frame[REG_A2] == 4
    ensures var m' := PutFrame(PutFrame(m, e1.sp, StoredFrame(e1)), e2.sp, StoredFrame(e2));
      Reg(Exchange(m', e1, e2), spC, REG_MEPC) == v
  {
    hide PutFrame, Exchange, Rd;
    var m1 := PutFrame(m, e1.sp, StoredFrame(e1));
    var m2 := PutFrame(m1, e2.sp, StoredFrame(e2));
    var m3 := Exchange(m2, e1, e2);
    forall i | 0 <= i < 4 ensures RdByte(m3, spC + 112 + i) == WordByte(v, i) {
      ExchangeByte(m2, e1, e2, spC + 112 + i);
      PutFrameByte(m1, e2.sp, StoredFrame(e2), e1.sp + i);
      PutFrameByte(m, e1.sp, StoredFrame(e1), e1.sp + i);
    }
    WordFromBytes(m3, spC + 112, v);
  }

  /** Task A runs on hart 0 and Task B on hart 1; Task C is suspended where boot left it. */
  ghost predicate AWithB(k: Kernel, stacks: map<Tid, Stack>, statics: Stack) {
    && Inv(k) && k.stacks == stacks && k.statics == statics && CurTid(k, 0) == TASK_A && CurTid(k, 1) == TASK_B
    && InState(k, TASK_A, Running) && InState(k, TASK_B, Running) && InState(k, TASK_C, Ready)
    && TcbOf(k, TASK_C).savedSp == BootSp(stacks, TASK_C) && NoWaiter(k, 0)
    && TcbOf(k, TASK_A).capabilities == TASK_A_CAPS && TcbOf(k, TASK_B).capabilities == TASK_B_CAPS
  }

  lemma {:induction false} WatchdogYields(k: Kernel, r: Kernel, stacks: map<Tid, Stack>, statics: Stack)
    returns (e: Event, k': Kernel)
    requires StacksPlaced(stacks, statics) && Booted(k, r, stacks, statics) && Addressable(stacks)
    ensures Inv(k) && Steps(k, e, k') && AWithB(k', stacks, statics)
    ensures IsCall(e, 1) && e.hart == 0 && CurTid(k, 0) == WATCHDOG && CurTid(k', 0) == TASK_A
    ensures InState(k', WATCHDOG, Ready)
    ensures Suspended(k, TASK_C) && TcbOf(k, TASK_C).savedSp == BootSp(stacks, TASK_C)
  {
    hide StacksPlaced, Booted, Inv, Next, Enabled, PutFrame, Steps, BootSp, NameOf, CapsOf, Yielded, AWithB;
    BootedTasks(k, r, stacks, statics);
    BootTasks();
    BootStacks(stacks, statics);
    TaskAtBoot(k, stacks, statics, WATCHDOG);
    TaskAtBoot(k, stacks, statics, TASK_A);
    TaskAtBoot(k, stacks, statics, TASK_C);
    e := CallEvent(0, stacks[WATCHDOG].base, 1, 0, 0, 0, 0);
    YieldRuns(k, e, 1);
    NeverStuck(k, e);
    k' := Next(k, e);
    YieldedToA(k, k', stacks, statics);
  }

  lemma {:induction false} YieldedToA(k: Kernel, k': Kernel, stacks: map<Tid, Stack>, statics: Stack)
    requires BootView(k, stacks, statics) && Yielded(k, k', 0, TASK_A) && Inv(k')
    ensures AWithB(k', stacks, statics) && CurTid(k', 0) == TASK_A && InState(k', WATCHDOG, Ready)
  {
    hide Inv, NameOf, BootTask, BootSp;
    BootTasks();
    TaskAtBoot(k, stacks, statics, WATCHDOG);
    TaskAtBoot(k, stacks, statics, TASK_A);
    TaskAtBoot(k, stacks, statics, TASK_B);
    TaskAtBoot(k, stacks, statics, TASK_C);
    forall t | Occ(k', t) ensures !WaitsOn(St(k', t), 0) {
      assert Occ(k, t) && TaskView(k, stacks, t);
    }
  }

  /** Task A sends the word `v` and Task B receives it over the saved pc of Task C. */
  lemma {:induction false} ReceivesOverFrame(k: Kernel, stacks: map<Tid, Stack>, statics: Stack, v: Word)
    returns (e1: Event, e2: Event, k2: Kernel, k3: Kernel)
    requires StacksPlaced(stacks, statics) && Addressable(stacks) && AWithB(k, stacks, statics)
    ensures Steps(k, e1, k2) && Steps(k2, e2, k3)
    ensures forall k' :: k' in {k, k2, k3} ==>
      Suspended(k', TASK_C) && TcbOf(k', TASK_C).savedSp == BootSp(stacks, TASK_C)
    ensures FrameAt(k3.mem, BootSp(stacks, TASK_C))[REG_MEPC] == v
  {
    hide StacksPlaced, Inv, Next, Enabled, PutFrame, FrameAt, StoredFrame, Exchange, Steps;
    hide NoWaiter, OnlyWaiter, NameOf;
    BootTasks();
    BootStacks(stacks, statics);
    var spC: Word := BootSp(stacks, TASK_C);
    e1 := CallEvent(0, stacks[TASK_A].base, 6, 1, stacks[TASK_A].base, 4, v);
    e2 := CallEvent(1, stacks[TASK_B].base, 7, 0, spC + 112, 4, 0);
    SendThenReceive(k, e1, e2, stacks);
    k2 := Next(k, e1);
    k3 := Next(k2, e2);
    NeverStuck(k, e1);
    NeverStuck(k2, e2);
    MeetingStates(k2, e2, TASK_A, 0, TASK_C);
    OverwrittenPc(k.mem, e1, e2, spC, v);
  }

  /** Three events from boot. Watchdog yields to Task A; Task A sends four bytes, the word `v`; Task B
      receives them at the saved pc of Task C, which is suspended all along. Task C will resume at `v`. */
  lemma {:induction false} FrameOverwritten(k: Kernel, r: Kernel, stacks: map<Tid, Stack>, statics: Stack, v: Word)
    returns (ks: seq<Kernel>, es: seq<Event>)
    requires StacksPlaced(stacks, statics) && Booted(k, r, stacks, statics) && Addressable(stacks)
    ensures |ks| == |es| + 1 == 4 && ks[0] == k && Run(ks, es)
    ensures forall i :: 0 <= i <= 3 ==>
      Suspended(ks[i], TASK_C) && TcbOf(ks[i], TASK_C).savedSp == BootSp(stacks, TASK_C)
    ensures FrameAt(ks[3].mem, BootSp(stacks, TASK_C))[REG_MEPC] == v
  {
    hide StacksPlaced, Booted, Inv, Steps, FrameAt, BootSp, AWithB, NameOf;
    var e0, k1 := WatchdogYields(k, r, stacks, statics);
    var e1, e2, k2, k3 := ReceivesOverFrame(k1, stacks, statics, v);
    ks, es := [k, k1, k2, k3], [e0, e1, e2];
    assert StepAt(ks, es, 0) && StepAt(ks, es, 1) && StepAt(ks, es, 2);
    forall i | 0 <= i <= 3 ensures Suspended(ks[i], TASK_C) && TcbOf(ks[i], TASK_C).savedSp == BootSp(stacks, TASK_C) {
      assert ks[i] in {k, k1, k2, k3};
    }
  }

  lemma {:induction false} BootStacks(stacks: map<Tid, Stack>, statics: Stack)
    requires StacksPlaced(stacks, statics) && Addressable(stacks)
    ensures forall t :: BootTask(t) ==>
      && t in stacks && stacks[t].size == 1024 && 0 <= stacks[t].base && stacks[t].base + 1024 < 0x1_0000_0000
      && stacks[t].base <= BootSp(stacks, t) && BootSp(stacks, t) + FRAME_BYTES <= stacks[t].base + 1024
      && Disjoint(stacks[t], statics)
    ensures forall t, u :: BootTask(t) && BootTask(u) && t != u ==> Disjoint(stacks[t], stacks[u])
  {
    hide NameOf, BootTask;
  }

  /** Task A sends to nobody, then Task B receives into the given buffer. */
  lemma {:induction false} SendThenReceive(k: Kernel, e1: Event, e2: Event, stacks: map<Tid, Stack>)
    requires Inv(k) && CurTid(k, 0) == TASK_A && CurTid(k, 1) == TASK_B && k.stacks == stacks
    requires InState(k, TASK_A, Running) && InState(k, TASK_B, Running) && InState(k, TASK_C, Ready) && NoWaiter(k, 0)
    requires e1.Trap? && e2.Trap? && TASK_A in stacks && TASK_B in stacks
    requires InStack(k, TASK_A, e1.sp) && InStack(k, TASK_B, e2.sp)
    requires CallsEndpoint(k, e1, TASK_A, 0, true) && CallsEndpoint(k, e2, TASK_B, 0, false)
    requires e1.hart == 0 && e2.hart == 1 && ClearOfStatics(k, e2.frame[REG_A1], Length(e1, e2))
    ensures Enabled(k, e1) && Enabled(Next(k, e1), e2) && IsCall(e2, 7) && Inv(Next(k, e1))
    ensures var k2, k3 := Next(k, e1), Next(Next(k, e1), e2);
      && CurTid(k2, 1) == TASK_B && k2.scheds[1] == k.scheds[1]
      && CallsEndpoint(k2, e2, TASK_B, 0, false)
      && Occ(k2, TASK_A) && WaitsToSend(St(k2, TASK_A), 0) && OnlyWaiter(k2, 0, TASK_A)
      && C.Apart(e1.sp, e2.sp)
      && k3.mem == Exchange(PutFrame(PutFrame(k.mem, e1.sp, StoredFrame(e1)), e2.sp, StoredFrame(e2)), e1, e2)
  {
    hide Inv, Next, CallOk, PutFrame, StoredFrame, Exchange, Steps, NoWaiter, OnlyWaiter;
    FrameClear(k, TASK_A, e1.sp);
    FrameClear(k, TASK_B, e2.sp);
    WaitersApart(k, e1, e2);
    CallEnabled(k, e1, 0, true);
    CallEnabled(k, e2, 0, false);
    var k2 := Next(k, e1);
    NeverStuck(k, e1);
    FirstWaits(k, e1, k2, 0, true);
    StillEnabled(k, k2, e2, e1, TASK_A, 0, false);
    var k3 := Next(k2, e2);
    NeverStuck(k2, e2);
    SecondMeets(k2, e2, k3, e1, TASK_A, 0, false);
  }

  // ---- A trap at another task's frame ----

  /** A check-in displaces nobody, so it keeps the invariant wherever the stack pointer is. */
  lemma {:induction false} CheckInAnywhere(k: Kernel, e: Event)
    requires Inv(k) && e.Trap? && e.hart < 2 && Occ(k, CurTid(k, e.hart)) && IsCall(e, 5)
    requires ClearOfStatics(k, e.sp, FRAME_BYTES)
    ensures Enabled(k, e) && Next(k, e).scheds == k.scheds && FrameAt(Next(k, e).mem, e.sp) == Advanced(e.frame)
  {
    hide PutFrame, Inv, FrameAt;
    StoredRegs(k, e);
    CurrentInRange(k, e.hart);
    assert Enabled(k, e);
  }

  /** Two events from boot. Watchdog yields to Task A, and Task A, whose stack pointer is at the saved frame
      of Task C, checks in. Nothing panics and the invariant holds; Task C, suspended all along, will resume
      with the registers of Task A. */
  lemma {:induction false} EntryOverwrites(k: Kernel, r: Kernel, stacks: map<Tid, Stack>, statics: Stack, f: Frame)
    returns (ks: seq<Kernel>, es: seq<Event>)
    requires StacksPlaced(stacks, statics) && Booted(k, r, stacks, statics) && Addressable(stacks) && f[REG_A7] == 5
    ensures |ks| == |es| + 1 == 3 && ks[0] == k && Run(ks, es) && Inv(ks[2])
    ensures es[1] == Trap(0, ECALL_UMODE, BootSp(stacks, TASK_C), f) && CurTid(ks[1], 0) == TASK_A
    ensures forall i :: 0 <= i <= 2 ==>
      Suspended(ks[i], TASK_C) && TcbOf(ks[i], TASK_C).savedSp == BootSp(stacks, TASK_C)
    ensures FrameAt(ks[2].mem, BootSp(stacks, TASK_C)) == Advanced(f)
  {
    hide StacksPlaced, Booted, Inv, Steps, FrameAt, BootSp, NoWaiter, NameOf, Next, Enabled, Advanced;
    var e0, k1 := WatchdogYields(k, r, stacks, statics);
    var e1 := Trap(0, ECALL_UMODE, BootSp(stacks, TASK_C), f);
    BootTasks();
    BootStacks(stacks, statics);
    FrameClear(k1, TASK_C, e1.sp);
    CheckInAnywhere(k1, e1);
    NeverStuck(k1, e1);
    var k2 := Next(k1, e1);
    ks, es := [k, k1, k2], [e0, e1];
    assert StepAt(ks, es, 0) && StepAt(ks, es, 1);
    forall i | 0 <= i <= 2 ensures Suspended(ks[i], TASK_C) && TcbOf(ks[i], TASK_C).savedSp == BootSp(stacks, TASK_C) {
      assert ks[i] in {k, k1, k2};
    }
  }

  // ---- A kill that is undone ----

  /** Syscall 8 on a task that is not the caller itself. */
  lemma {:induction false} KillRuns(k: Kernel, e: Event, t: Tid)
    requires Inv(k) && e.Trap? && e.hart < 2 && IsCall(e, 8)
    requires Named(k, e.frame[REG_A0]) == Some(t) && t != CurTid(k, e.hart)
    requires Occ(k, CurTid(k, e.hart)) && CurTid(k, e.hart) in k.stacks && InStack(k, CurTid(k, e.hart), e.sp)
    requires MayTerminate(k, e.frame[REG_A0])
    ensures Enabled(k, e) && InState(Next(k, e), t, Terminated)
    ensures SameConfig(k, Next(k, e))
    ensures forall h :: 0 <= h < 2 ==> Next(k, e).scheds[h].current == k.scheds[h].current
    ensures forall u :: InState(k, u, Ready) && u != t ==> InState(Next(k, e), u, Ready)
  {
    hide PutFrame, Killed, MutexInv, IpcInv, StackInv, Cfg, SchedOk;
    FrameClear(k, CurTid(k, e.hart), e.sp);
    StoredRegs(k, e);
    assert Enabled(k, e);
    BodySafe(k, e);
    TerminateStep(k, e, t);
    StepConfig(k, e);
  }

  /** Watchdog runs on hart 0 and Task C on hart 1; Tasks A and B are Ready and mutex 0 is free. */
  ghost predicate WatchdogWithC(k: Kernel, stacks: map<Tid, Stack>) {
    && Inv(k) && k.stacks == stacks && CurTid(k, 0) == WATCHDOG && CurTid(k, 1) == TASK_C && !Occ(k, Tid(0, 3))
    && InState(k, WATCHDOG, Running) && InState(k, TASK_C, Running)
    && InState(k, TASK_A, Ready) && InState(k, TASK_B, Ready)
    && k.mutexes[0] == Some(FREE)
    && TcbOf(k, TASK_A).capabilities == TASK_A_CAPS && TcbOf(k, TASK_C).capabilities == TASK_C_CAPS
  }

  lemma {:induction false} YieldedToC(k: Kernel, k': Kernel, stacks: map<Tid, Stack>, statics: Stack)
    requires BootView(k, stacks, statics) && Yielded(k, k', 1, TASK_C) && Inv(k')
    ensures WatchdogWithC(k', stacks)
  {
    hide Inv, NameOf, BootTask, BootSp;
    BootTasks();
    NotRegistered();
    TaskAtBoot(k, stacks, statics, WATCHDOG);
    TaskAtBoot(k, stacks, statics, TASK_A);
    TaskAtBoot(k, stacks, statics, TASK_B);
    TaskAtBoot(k, stacks, statics, TASK_C);
    assert !Occ(k, Tid(0, 3));
  }

  lemma {:induction false} TaskBYields(k: Kernel, r: Kernel, stacks: map<Tid, Stack>, statics: Stack)
    returns (e: Event, k': Kernel)
    requires StacksPlaced(stacks, statics) && Booted(k, r, stacks, statics) && Addressable(stacks)
    ensures Inv(k) && Steps(k, e, k') && WatchdogWithC(k', stacks)
  {
    hide StacksPlaced, Booted, Inv, Next, Enabled, PutFrame, Steps, BootSp, NameOf, CapsOf, Yielded, WatchdogWithC;
    BootedTasks(k, r, stacks, statics);
    BootTasks();
    BootStacks(stacks, statics);
    TaskAtBoot(k, stacks, statics, TASK_B);
    TaskAtBoot(k, stacks, statics, TASK_C);
    e := CallEvent(1, stacks[TASK_B].base, 1, 0, 0, 0, 0);
    YieldRuns(k, e, 3);
    NeverStuck(k, e);
    k' := Next(k, e);
    YieldedToC(k, k', stacks, statics);
  }

  lemma {:induction false} TaskCKilled(k: Kernel, stacks: map<Tid, Stack>, statics: Stack)
    returns (e: Event, k': Kernel)
    requires StacksPlaced(stacks, statics) && Addressable(stacks) && WatchdogWithC(k, stacks)
    ensures Steps(k, e, k') && Inv(k') && InState(k', TASK_C, Terminated)
    ensures CurTid(k', 1) == TASK_C && k'.stacks == stacks
    ensures InState(k', TASK_B, Ready)
    ensures TASK_C in stacks
  {
    hide StacksPlaced, Inv, Next, Enabled, Steps, BootSp, NameOf;
    BootTasks();
    BootStacks(stacks, statics);
    e := CallEvent(0, stacks[WATCHDOG].base, 8, 3, 0, 0, 0);
    KillRuns(k, e, TASK_C);
    NeverStuck(k, e);
    k' := Next(k, e);
  }

  /** Two events from boot: Task B yields to Task C, and Watchdog kills Task C while it runs on hart 1. If
      Task C now sleeps before hart 1 reschedules, which the guard excludes, the code neither panics nor
      breaks an invariant, and Task C is alive again. */
  lemma {:induction false} KillUndone(k: Kernel, r: Kernel, stacks: map<Tid, Stack>, statics: Stack, n: Word)
    returns (ks: seq<Kernel>, es: seq<Event>, e: Event)
    requires StacksPlaced(stacks, statics) && Booted(k, r, stacks, statics) && Addressable(stacks)
    ensures |ks| == |es| + 1 == 3 && ks[0] == k && Run(ks, es)
    ensures InState(ks[2], TASK_C, Terminated) && CurTid(ks[2], 1) == TASK_C
    ensures IsCall(e, 2) && e.hart == 1 && e.frame[REG_A0] == n && !Enabled(ks[2], e)
    ensures var p := PlanOf(ks[2], e);
      && p.Resched? && p.k.scheds[1].current < 32 && Inv(Finish(p, 1, e.sp).k)
      && InState(Finish(p, 1, e.sp).k, TASK_C, Blocked(Wrap(ks[2].tick + n)))
  {
    hide StacksPlaced, Booted, Inv, Steps, PlanOf, Finish, Enabled, NameOf, WatchdogWithC;
    var e0, k1 := TaskBYields(k, r, stacks, statics);
    var e1, k2 := TaskCKilled(k1, stacks, statics);
    e := CallEvent(1, stacks[TASK_C].base, 2, n, 0, 0, 0);
    TaskCSleeps(k2, e, stacks, statics);
    ks, es := [k, k1, k2], [e0, e1];
    assert StepAt(ks, es, 0) && StepAt(ks, es, 1);
  }

  lemma {:induction false} TaskCSleeps(k: Kernel, e: Event, stacks: map<Tid, Stack>, statics: Stack)
    requires StacksPlaced(stacks, statics) && Addressable(stacks) && Inv(k) && k.stacks == stacks
    requires InState(k, TASK_C, Terminated) && CurTid(k, 1) == TASK_C && TASK_C in stacks
    requires e.Trap? && e.hart == 1 && IsCall(e, 2) && e.sp == stacks[TASK_C].base
    ensures !Enabled(k, e)
    ensures var p := PlanOf(k, e);
      && p.Resched? && p.k.scheds[1].current < 32 && Inv(Finish(p, 1, e.sp).k)
      && InState(Finish(p, 1, e.sp).k, TASK_C, Blocked(Wrap(k.tick + e.frame[REG_A0])))
  {
    hide StacksPlaced, Inv, PlanOf, Finish, Enabled, NameOf;
    BootTasks();
    BootStacks(stacks, statics);
    DeadSleep(k, e);
  }

  lemma {:induction false} NotRegistered()
    ensures !BootTask(Tid(0, 3))
  {}

  lemma {:induction false} DeadSleep(k: Kernel, e: Event)
    requires Inv(k) && e.Trap? && e.hart < 2 && IsCall(e, 2) && Occ(k, CurTid(k, e.hart))
    requires St(k, CurTid(k, e.hart)) == Terminated
    requires CurTid(k, e.hart) in k.stacks && InStack(k, CurTid(k, e.hart), e.sp)
    ensures !Enabled(k, e)
    ensures var p := PlanOf(k, e);
      && p.Resched? && p.k.scheds[e.hart].current < 32 && Inv(Finish(p, e.hart, e.sp).k)
      && InState(Finish(p, e.hart, e.sp).k, CurTid(k, e.hart), Blocked(Wrap(k.tick + e.frame[REG_A0])))
  {
    hide Inv, PutFrame, Syscall;
    StoredRegs(k, e);
    SameTablesKeep(k, Stored(k, e));
    G.KilledSleeperLives(Stored(k, e), e.hart, e.sp);
  }

  // ---- A slot shared by two harts ----

  const LOCKER: Capabilities := [MutexCap(0, true, true), NoCap, NoCap, NoCap, NoCap, NoCap, NoCap, NoCap]

  function SharedEntry(h: nat, i: nat): (b: Option<Tcb>) {
    if i == 1 then Some(Tcb(if h == 0 then 512 else 2560, 1, 1, Ready, "Task", if h == 0 then LOCKER else NO_CAPS))
    else if i == 31 then Some(Tcb(if h == 0 then 1536 else 3584, 31, 31, Ready, "Idle", NO_CAPS))
    else None
  }

  function SharedSched(h: nat): (s: Sched) {
    Sched(seq(32, i requires 0 <= i < 32 => SharedEntry(h, i)), 0, seq(32, _ => 100), 100)
  }

  const SHARED_STACKS: map<Tid, Stack> :=
    map[Tid(0, 1) := Stack(0, 1024), Tid(0, 31) := Stack(1024, 1024),
        Tid(1, 1) := Stack(2048, 1024), Tid(1, 31) := Stack(3072, 1024)]

  /** A table with a task in slot 1 of both harts, of which the one on hart 0 may lock mutex 0. */
  function SharedTable(): (k: Kernel) {
    Kernel([SharedSched(0), SharedSched(1)], [Some(FREE), None, None, None, None, None, None, None],
           0, seq(32, _ => 0), map[], {}, [], SHARED_STACKS, Stack(8192, 1024))
  }

  lemma {:induction false} SharedTasks(k: Kernel, t: Tid)
    requires k == SharedTable()
    ensures Occ(k, t) <==> t in {Tid(0, 1), Tid(0, 31), Tid(1, 1), Tid(1, 31)}
    ensures Occ(k, t) ==> TcbOf(k, t) == SharedEntry(t.hart, t.slot).value
  {}

  lemma {:induction false} SharedTask(k: Kernel, t: Tid)
    requires k == SharedTable() && Occ(k, t)
    ensures t in k.stacks && k.stacks[t].size == 1024 && InStack(k, t, TcbOf(k, t).savedSp) && St(k, t) == Ready
    ensures TcbOf(k, t).priority == t.slot && G.CapsHome(k, t) && Disjoint(k.stacks[t], k.statics)
  {
    SharedTasks(k, t);
  }

  lemma {:induction false} SharedApart(k: Kernel, t: Tid, u: Tid)
    requires k == SharedTable() && Occ(k, t) && Occ(k, u) && t != u
    ensures t in k.stacks && u in k.stacks && Disjoint(k.stacks[t], k.stacks[u])
  {
    SharedTasks(k, t);
    SharedTasks(k, u);
  }

  lemma {:induction false} SharedMutexes(k: Kernel)
    requires k == SharedTable()
    ensures k.mutexes[0] == Some(FREE) && forall m :: 1 <= m < 8 ==> k.mutexes[m].None?
    ensures forall h, i :: 0 <= h < 2 && 0 <= i < 32 ==> k.scheds[h].durations[i] == 100
  {}

  /** It meets every configuration condition but the one on shared slots. */
  lemma {:induction false} SharedConforms(k: Kernel)
    requires k == SharedTable()
    ensures Fresh(k) && G.CfgButShared(k)
  {
    hide SharedTable, SharedEntry, SharedSched, G.CapsHome;
    forall t | Occ(k, t)
      ensures t in k.stacks && k.stacks[t].size == 1024 && InStack(k, t, TcbOf(k, t).savedSp) && St(k, t) == Ready
      ensures TcbOf(k, t).priority == t.slot && G.CapsHome(k, t) && Disjoint(k.stacks[t], k.statics)
    {
      SharedTask(k, t);
    }
    forall t, u | Occ(k, t) && Occ(k, u) && t != u ensures Disjoint(k.stacks[t], k.stacks[u]) {
      SharedApart(k, t, u);
    }
    SharedTasks(k, Tid(0, 31));
    SharedTasks(k, Tid(1, 31));
    SharedMutexes(k);
  }

  /** The current task of hart 0 locks free mutex 0. */
  lemma {:induction false} LockRuns(k: Kernel, e: Event, t: Tid)
    requires Consistent(k) && CallsOn(k, e, t, 3, 0) && t.slot != IDLE && St(k, t) == Running
    requires t in k.stacks && InStack(k, t, e.sp) && k.mutexes[0] == Some(FREE)
    requires TcbOf(k, t).capabilities[e.frame[REG_A0]].canLock && ClearOfStatics(k, e.sp, FRAME_BYTES)
    ensures Enabled(k, e)
    ensures var k' := SetA0(GrantFree(Stored(k, e), 0, FREE, t), e.sp, 0);
      PlanOf(k, e) == Return(k') && Steps(k, e, k') && LockReturned(k, e, k', t, 0)
  {
    hide PutFrame, PutReg, Rd;
    StoredRegs(k, e);
    var m := GrantFree(Stored(k, e), 0, FREE, t).mem;
    RegPutReg(m, e.sp, REG_A0, 0, REG_A0);
    assert SchedOk(k.scheds[t.hart]);
  }

  /** The current task of hart `h`, which holds nothing but shares its slot number with the owner of
      mutex 0, faults. */
  lemma {:induction false} TwinFaults(k: Kernel, e: Event, t: Tid, mx: KMutex) returns (k': Kernel)
    requires e.Trap? && e.hart < 2 && Contained(e.mcause) && t == CurTid(k, e.hart) && t.slot != IDLE
    requires SchedOk(k.scheds[e.hart]) && t in k.stacks && InStack(k, t, e.sp) && ClearOfStatics(k, e.sp, FRAME_BYTES)
    requires k.mutexes[0] == Some(mx) && mx.owner == Some(t.slot) && mx.waiters == {}
    requires forall m :: 1 <= m < 8 ==> k.mutexes[m].None?
    ensures Steps(k, e, k') && k'.mutexes[0] == Some(FREE)
    ensures k'.scheds[1 - e.hart] == k.scheds[1 - e.hart]
  {
    hide PutFrame, Scheduled, Switch, Killed;
    var k1 := Stored(k, e);
    G.FreedByTwin(k1, t, mx);
    CurrentMid(k1, e.hart, Terminated);
    var k2 := Killed(k1, t);
    assert k2.scheds == SetState(k1, t, Terminated).scheds;
    SwitchEffect(k2, e.hart, e.sp, false);
    k' := Switch(k2, e.hart, e.sp, false).k;
  }

  /** `t` takes mutex 0 on hart 0 and its namesake `u` faults on hart 1. */
  lemma {:induction false} NamesakeFaults(k0: Kernel, e0: Event, e1: Event, t: Tid, u: Tid)
    returns (k1: Kernel, k2: Kernel)
    requires Consistent(k0) && CallsOn(k0, e0, t, 3, 0) && t.slot != IDLE && St(k0, t) == Running && e0.hart == 0
    requires t in k0.stacks && InStack(k0, t, e0.sp) && TcbOf(k0, t).capabilities[e0.frame[REG_A0]].canLock
    requires k0.mutexes[0] == Some(FREE) && forall m :: 1 <= m < 8 ==> k0.mutexes[m].None?
    requires e1.Trap? && e1.hart == 1 && Contained(e1.mcause) && u == CurTid(k0, 1) && u.slot == t.slot
    requires u in k0.stacks && InStack(k0, u, e1.sp)
    requires ClearOfStatics(k0, e0.sp, FRAME_BYTES) && ClearOfStatics(k0, e1.sp, FRAME_BYTES)
    ensures Steps(k0, e0, k1) && Steps(k1, e1, k2) && LockReturned(k0, e0, k1, t, 0)
    ensures InState(k1, t, Running) && InState(k2, t, Running) && OwnerOf(k2, 0) == None
  {
    hide PutFrame, Steps, PutReg, MutexInv, IpcInv, SchedOk;
    LockRuns(k0, e0, t);
    k1 := SetA0(GrantFree(Stored(k0, e0), 0, FREE, t), e0.sp, 0);
    k2 := TwinFaults(k1, e1, u, KMutex(true, Some(t.slot), {}));
  }

  lemma {:induction false} StillBelieves(k0: Kernel, k1: Kernel, k2: Kernel, e0: Event, e1: Event, t: Tid)
    requires LockReturned(k0, e0, k1, t, 0) && InState(k0, t, Running)
    requires InState(k1, t, Running) && InState(k2, t, Running)
    requires e1.Trap? && e1.mcause != ECALL_UMODE
    ensures Believes([k0, k1, k2], [e0, e1], t, 0, 2)
  {
    assert Believes([k0, k1, k2], [e0, e1], t, 0, 1);
  }

  /** From a boot table that meets every condition but the one on shared slots, a run of two events: the
      task in slot 1 of hart 0 locks mutex 0, and the task in slot 1 of hart 1 faults. The owner still runs
      and believes it holds the mutex; nobody owns it. */
  lemma {:induction false} SharedSlotLosesMutex() returns (ks: seq<Kernel>, es: seq<Event>)
    ensures |ks| == |es| + 1 == 3
    ensures G.CfgButShared(SharedTable()) && Fresh(SharedTable())
    ensures ReadyAt(SharedTable().scheds[0], 1) && ReadyAt(SharedTable().scheds[1], 1)
    ensures ks[0] == BothStarted(SharedTable(), 1, 1)
    ensures StepAt(ks, es, 0) && StepAt(ks, es, 1)
    ensures IsCall(es[0], 3) && es[0].hart == 0 && es[1].Trap? && Contained(es[1].mcause) && es[1].hart == 1
    ensures Believes(ks, es, Tid(0, 1), 0, 2) && InState(ks[2], Tid(0, 1), Running) && OwnerOf(ks[2], 0) == None
  {
    hide SharedTable, G.CfgButShared, Fresh, Steps, MutexInv, IpcInv, SchedsOk, LockReturned, Believes, OwnerOf;
    var r, t, u := SharedTable(), Tid(0, 1), Tid(1, 1);
    SharedConforms(r);
    SharedTwins(r);
    FreshConsistent(r, 1, 1);
    var k0 := BothStarted(r, 1, 1);
    StartedTask(r, 1, 1, t);
    StartedTask(r, 1, 1, u);
    var e0 := CallEvent(0, 100, 3, 0, 0, 0, 0);
    var e1 := Trap(1, 5, 2148, CallFrame(0, 0, 0, 0, 0));
    var k1, k2 := NamesakeFaults(k0, e0, e1, t, u);
    StillBelieves(k0, k1, k2, e0, e1, t);
    ks, es := [k0, k1, k2], [e0, e1];
  }

  lemma {:induction false} SharedTwins(k: Kernel)
    requires k == SharedTable()
    ensures Occ(k, Tid(0, 1)) && Occ(k, Tid(1, 1)) && ReadyAt(k.scheds[0], 1) && ReadyAt(k.scheds[1], 1)
    ensures TcbOf(k, Tid(0, 1)).capabilities[0] == MutexCap(0, true, true)
    ensures k.mutexes[0] == Some(FREE) && forall m :: 1 <= m < 8 ==> k.mutexes[m].None?
    ensures k.stacks == SHARED_STACKS
  {}
}
