/** Bounded waiting and sleep timing over all runs. */
module Timing {
  import opened Tasks
  import opened PartitionScheduler
  import opened KernelState
  import opened KernelSteps
  import opened KernelInvariant
  import opened KernelSafety
  import opened RecoverySafety
  import opened Machine

  // ---- What a handler body can do to the state of a task ----

  predicate WaitState(st: TaskState) { st.BlockedOnMutex? || st.BlockedOnIpcSend? || st.BlockedOnIpcRecv? }

  predicate Move(a: TaskState, b: TaskState, due: bool) {
    || a == b
    || b == Terminated
    || (a.Blocked? && b == Ready && due)
    || (WaitState(a) && b == Ready)
  }

  predicate Due(st: TaskState, tick: Word) { st.Blocked? && st.wakeTick <= tick }

  /** Apart from the interrupted task, tasks are killed, sleepers due on this hart wake, and waits end. */
  ghost predicate Moves(k: Kernel, k1: Kernel, h: nat, timer: bool)
    requires h < 2
  {
    && SameConfig(k, k1) && k1.tick == (if timer then Wrap(k.tick + 1) else k.tick)
    && forall t :: Occ(k, t) && t != CurTid(k, h) ==>
         Move(St(k, t), St(k1, t), timer && t.hart == h && Due(St(k, t), k1.tick))
  }

  lemma {:induction false} QuietMoves(k: Kernel, k1: Kernel, h: nat)
    requires h < 2 && SameTables(k, k1) && k1.tick == k.tick
    ensures Moves(k, k1, h, false)
  {}

  /** One task changes state; registers, buffers and mutexes may change with it. */
  lemma {:induction false} OneMoves(k: Kernel, k1: Kernel, h: nat, t: Tid, st: TaskState)
    requires h < 2 && Occ(k, t) && (t == CurTid(k, h) || Move(St(k, t), st, false))
    requires k1.scheds == SetState(k, t, st).scheds && k1.stacks == k.stacks
    requires k1.statics == k.statics && k1.tick == k.tick
    requires forall m :: 0 <= m < 8 ==> k1.mutexes[m].Some? == k.mutexes[m].Some?
    ensures Moves(k, k1, h, false)
  {
    var k0 := SetState(k, t, st);
    SetStateConfig(k, t, st);
    assert forall u :: Occ(k1, u) <==> Occ(k0, u);
    assert forall u :: Occ(k0, u) ==> TcbOf(k1, u) == TcbOf(k0, u);
  }

  lemma {:induction false} MutexMoves(k: Kernel, k1: Kernel, h: nat)
    requires h < 2 && k1.scheds == k.scheds && k1.stacks == k.stacks && k1.statics == k.statics && k1.tick == k.tick
    requires forall m :: 0 <= m < 8 ==> k1.mutexes[m].Some? == k.mutexes[m].Some?
    ensures Moves(k, k1, h, false)
  {
    assert forall u :: Occ(k1, u) <==> Occ(k, u);
    assert forall u :: Occ(k, u) ==> TcbOf(k1, u) == TcbOf(k, u);
  }

  lemma {:induction false} LockMoves(k: Kernel, h: nat, sp: int)
    requires h < 2 && Occ(k, CurTid(k, h)) && !Lock(k, h, sp).Panic?
    ensures Moves(k, Lock(k, h, sp).k, h, false)
  {
    var k1 := Lock(k, h, sp).k;
    if Lock(k, h, sp).Return? {
      MutexMoves(k, k1, h);
    } else {
      OneMoves(k, k1, h, CurTid(k, h), BlockedOnMutex(LockTarget(k, h, sp).value));
    }
  }

  lemma {:induction false} UnlockMoves(k: Kernel, h: nat, sp: int)
    requires h < 2 && MutexInv(k, None) && Occ(k, CurTid(k, h)) && !Unlock(k, h, sp).Panic?
    ensures Moves(k, Unlock(k, h, sp).k, h, false)
  {
    var k1 := Unlock(k, h, sp).k;
    if Unlock(k, h, sp).Return? {
      QuietMoves(k, k1, h);
    } else {
      var m := UnlockTarget(k, h, sp).value;
      var mx := k.mutexes[m].value;
      assert MutexOk(k, m, None);
      match HighestWaiter(k, mx.waiters, 32)
      case None => MutexMoves(k, k1, h);
      case Some(w) => OneMoves(k, k1, h, Home(w), Ready);
    }
  }

  lemma {:induction false} SendMoves(k: Kernel, h: nat, sp: int)
    requires h < 2 && Occ(k, CurTid(k, h))
    ensures !Send(k, h, sp).Panic? && Moves(k, Send(k, h, sp).k, h, false)
  {
    var k1 := Send(k, h, sp).k;
    match SendTarget(k, h, sp)
    case None => QuietMoves(k, k1, h);
    case Some(ep) =>
      match Find(k, ep, false)
      case Some(rx) => OneMoves(k, k1, h, rx, Ready);
      case None =>
        OneMoves(k, k1, h, CurTid(k, h), BlockedOnIpcSend(ep, Reg(k.mem, sp, REG_A1), Reg(k.mem, sp, REG_A2)));
  }

  lemma {:induction false} RecvMoves(k: Kernel, h: nat, sp: int)
    requires h < 2 && Occ(k, CurTid(k, h))
    ensures !Recv(k, h, sp).Panic? && Moves(k, Recv(k, h, sp).k, h, false)
  {
    var k1 := Recv(k, h, sp).k;
    match RecvTarget(k, h, sp)
    case None => QuietMoves(k, k1, h);
    case Some(ep) =>
      match Find(k, ep, true)
      case Some(tx) => OneMoves(k, k1, h, tx, Ready);
      case None =>
        OneMoves(k, k1, h, CurTid(k, h), BlockedOnIpcRecv(ep, Reg(k.mem, sp, REG_A1), Reg(k.mem, sp, REG_A2)));
  }

  lemma {:induction false} MovesTables(k: Kernel, k1: Kernel, k2: Kernel, h: nat)
    requires h < 2 && Moves(k, k1, h, false) && SameTables(k1, k2) && k2.tick == k1.tick
    ensures Moves(k, k2, h, false)
  {
    assert forall u :: Occ(k2, u) <==> Occ(k1, u);
    assert forall u :: Occ(k1, u) ==> TcbOf(k2, u) == TcbOf(k1, u);
  }

  lemma {:induction false} KilledMoves(k: Kernel, h: nat, t: Tid)
    requires h < 2 && Cfg(k) && Consistent(k) && Occ(k, t) && !St(k, t).BlockedOnMutex?
    ensures Moves(k, Killed(k, t), h, false)
  {
    KilledStates(k, t);
  }

  lemma {:induction false} TerminateMoves(k: Kernel, h: nat, sp: int)
    requires h < 2 && Inv(k) && MayTerminate(k, Reg(k.mem, sp, REG_A0))
    ensures Moves(k, Terminate(k, h, sp).k, h, false)
  {
    var k1 := Terminate(k, h, sp).k;
    match Named(k, Reg(k.mem, sp, REG_A0))
    case None => QuietMoves(k, k1, h);
    case Some(t) =>
      KilledMoves(k, h, t);
      MovesTables(k, Killed(k, t), k1, h);
  }

  lemma {:induction false} SyscallMoves(k: Kernel, h: nat, sp: int)
    requires h < 2 && Inv(k) && Occ(k, CurTid(k, h)) && SyscallOk(k, h, sp) && !Syscall(k, h, sp).Panic?
    ensures Moves(k, Syscall(k, h, sp).k, h, false)
  {
    var id := Reg(k.mem, sp, REG_A7);
    var k1 := Syscall(k, h, sp).k;
    if id == 2 { OneMoves(k, k1, h, CurTid(k, h), St(k1, CurTid(k, h))); }
    else if id == 3 { LockMoves(k, h, sp); }
    else if id == 4 { UnlockMoves(k, h, sp); }
    else if id == 6 { SendMoves(k, h, sp); }
    else if id == 7 { RecvMoves(k, h, sp); }
    else if id == 8 { TerminateMoves(k, h, sp); }
    else { QuietMoves(k, k1, h); }
  }

  lemma {:induction false} TickedMoves(k: Kernel, h: nat)
    requires h < 2 && SchedOk(k.scheds[h])
    ensures Moves(k, Ticked(k, h), h, true)
  {
    TickedEffect(k, h);
  }

  lemma {:induction false} BodyMoves(k: Kernel, e: Event)
    requires Inv(k) && e.Trap? && Enabled(k, e)
    ensures !PlanOf(k, e).Panic?
    ensures Moves(Stored(k, e), PlanOf(k, e).k, e.hart, e.mcause == TIMER_INTERRUPT)
  {
    hide Inv, MidInv, Syscall, Killed, Moves, PutFrame, Ticked;
    var k1, h := Stored(k, e), e.hart;
    BodySafe(k, e);
    SameTablesKeep(k, k1);
    CurrentInRange(k1, h);
    if e.mcause == TIMER_INTERRUPT {
      TickedMoves(k1, h);
    } else if e.mcause == SOFTWARE_INTERRUPT {
      QuietMoves(k1, PlanOf(k, e).k, h);
    } else if e.mcause == ECALL_UMODE {
      SyscallMoves(k1, h, e.sp);
    } else {
      FaultMoves(k1, h);
    }
  }

  lemma {:induction false} FaultMoves(k: Kernel, h: nat)
    requires h < 2 && Inv(k) && Occ(k, CurTid(k, h))
    ensures Moves(k, Killed(k, CurTid(k, h)), h, false)
  {
    assert SchedOk(k.scheds[h]);
    KilledMoves(k, h, CurTid(k, h));
  }

  // ---- Bounded waiting ----

  predicate IsTick(e: Event, h: nat) { e.Trap? && e.hart == h && e.mcause == 0x8000_0007 }

  ghost predicate WaitShrinks(s: Sched, s': Sched, i: nat, tick: bool) {
    && s.current < 32 && s'.current < 32 && i < 32
    && Wait(s', i) + (if tick then 1 else 0) <= Wait(s, i)
  }

  lemma {:induction false} SameWait(s: Sched, s': Sched, i: nat)
    requires s.current == s'.current < 32 && s.remaining == s'.remaining && i < 32 && s.durations == s'.durations
    requires forall j :: 0 <= j < 32 ==> s.table[j].Some? == s'.table[j].Some?
    ensures Wait(s', i) == Wait(s, i)
  {
    SpanSame(s, s', s.current + 1, s.current + Dist(s.current, i));
  }

  /** What a reschedule of hart `h` does to task `t`. */
  lemma {:induction false} SwitchTask(k: Kernel, h: nat, sp: int, isTick: bool, t: Tid)
    requires h < 2 && SchedMid(k.scheds[h]) && Occ(k, t)
    ensures var k' := Switch(k, h, sp, isTick).k;
      && Occ(k', t) && k'.tick == k.tick && k'.scheds[1 - h] == k.scheds[1 - h]
      && (|| St(k', t) == St(k, t)
          || (St(k, t) == Ready && St(k', t) == Running) || (St(k, t) == Running && St(k', t) == Ready))
      && (t.hart != h ==> k'.scheds[t.hart] == k.scheds[t.hart])
  {
    SwitchEffect(k, h, sp, isTick);
    if t.hart != h { assert t.hart == 1 - h; }
  }

  lemma {:induction false} SwitchRegisters(k: Kernel, h: nat, sp: int, isTick: bool)
    requires h < 2 && SchedMid(k.scheds[h])
    ensures var s, s' := Scheduled(k.scheds[h], isTick).0, Switch(k, h, sp, isTick).k.scheds[h];
      && s'.durations == s.durations && s'.current == s.current && s'.remaining == s.remaining
      && forall j :: 0 <= j < 32 ==> s'.table[j].Some? == s.table[j].Some?
  {
    hide Scheduled;
  }

  lemma {:induction false} SwitchKeepsWait(k: Kernel, h: nat, sp: int, isTick: bool, t: Tid)
    requires h < 2 && SchedMid(k.scheds[h]) && Occ(k, t) && t.hart == h && St(k, t) == Ready && t.slot != IDLE
    requires k.scheds[h].current != t.slot
    ensures var k' := Switch(k, h, sp, isTick).k;
      && Occ(k', t) && (St(k', t) == Running
         || (St(k', t) == Ready && WaitShrinks(k.scheds[h], k'.scheds[h], t.slot, true)))
  {
    hide Scheduled, Wait, Switch;
    var k' := Switch(k, h, sp, isTick).k;
    var s1 := Scheduled(k.scheds[h], isTick).0;
    SwitchEffect(k, h, sp, isTick);
    SwitchRegisters(k, h, sp, isTick);
    assert ReadyAt(k.scheds[h], t.slot);
    WaitDecreases(k.scheds[h], isTick, t.slot);
    if k'.scheds[h].current != t.slot {
      SameWait(s1, k'.scheds[h], t.slot);
    }
  }

  /** What one step means for a Ready task `t`: it runs, it was killed, or its bound shrank. */
  ghost predicate WaitProgress(k: Kernel, k': Kernel, t: Tid, tick: bool)
    requires Occ(k, t)
  {
    && Occ(k', t)
    && (|| St(k', t) == Running || St(k', t) == Terminated
        || (St(k', t) == Ready && WaitShrinks(k.scheds[t.hart], k'.scheds[t.hart], t.slot, tick)))
  }

  lemma {:induction false} BodyKeepsWait(k: Kernel, k1: Kernel, h: nat, timer: bool, t: Tid)
    requires h < 2 && Inv(k) && Steady(k, k1) && Moves(k, k1, h, timer)
    requires Occ(k, t) && St(k, t) == Ready && t.slot != IDLE
    ensures Occ(k1, t) && (St(k1, t) == Ready || St(k1, t) == Terminated)
    ensures k1.scheds[t.hart].current == k.scheds[t.hart].current < 32
    ensures k.scheds[t.hart].current != t.slot
    ensures Wait(k1.scheds[t.hart], t.slot) == Wait(k.scheds[t.hart], t.slot)
  {
    assert SchedOk(k.scheds[t.hart]);
    forall j | 0 <= j < 32 ensures k.scheds[t.hart].table[j].Some? == k1.scheds[t.hart].table[j].Some? {
      assert Occ(k, Tid(t.hart, j)) <==> Occ(k1, Tid(t.hart, j));
    }
    SameWait(k.scheds[t.hart], k1.scheds[t.hart], t.slot);
  }

  lemma {:induction false} PlanKeepsWait(k: Kernel, p: Plan, h: nat, sp: int, timer: bool, t: Tid)
    requires h < 2 && Inv(k) && PlanOk(k, p, h) && Moves(k, p.k, h, timer) && (timer ==> p.Resched?)
    requires Occ(k, t) && St(k, t) == Ready && t.slot != IDLE
    ensures WaitProgress(k, Finish(p, h, sp).k, t, timer && t.hart == h)
  {
    hide Inv, MutexInv, IpcInv, Cfg, StackInv, Switch, Moves, Steady, Wait, SchedMid, SchedOk;
    BodyKeepsWait(k, p.k, h, timer, t);
    if p.Resched? {
      if t.hart == h && St(p.k, t) == Ready {
        SwitchKeepsWait(p.k, h, sp, p.isTick, t);
      } else {
        SwitchTask(p.k, h, sp, p.isTick, t);
      }
    }
  }

  lemma {:induction false} RestartKeepsWait(k: Kernel, u: Tid, entry: Word, t: Tid)
    requires SchedsOk(k) && Occ(k, u) && u in k.stacks && St(k, u) == Terminated
    requires Occ(k, t) && St(k, t) == Ready
    ensures WaitProgress(k, Restarted(k, u, entry), t, false)
  {
    assert SchedOk(k.scheds[t.hart]);
    SameWait(k.scheds[t.hart], Restarted(k, u, entry).scheds[t.hart], t.slot);
  }

  lemma {:induction false} WriteKeepsWait(k: Kernel, addr: int, data: seq<Byte>, t: Tid)
    requires SchedsOk(k) && Occ(k, t) && St(k, t) == Ready
    ensures WaitProgress(k, Poked(k, addr, data), t, false)
  {
    assert SchedOk(k.scheds[t.hart]);
  }

  lemma {:induction false} StepKeepsWait(k: Kernel, e: Event, t: Tid)
    requires Inv(k) && Enabled(k, e) && Occ(k, t) && St(k, t) == Ready && t.slot != IDLE
    ensures WaitProgress(k, Next(k, e), t, IsTick(e, t.hart))
  {
    match e
    case Trap(h, mcause, sp, f) =>
      BodySafe(k, e);
      BodyMoves(k, e);
      SameTablesKeep(k, Stored(k, e));
      PlanKeepsWait(Stored(k, e), PlanOf(k, e), h, sp, mcause == TIMER_INTERRUPT, t);
    case Restart(u, entry) => RestartKeepsWait(k, u, entry, t);
    case Write(h, addr, data) => WriteKeepsWait(k, addr, data, t);
  }

  // ---- Registration never changes ----

  lemma {:induction false} StepConfig(k: Kernel, e: Event)
    requires Inv(k) && Enabled(k, e)
    ensures SameConfig(k, Next(k, e))
  {
    hide MidInv, Body, MutexInv, IpcInv, StackInv, SchedOk, CallOk;
    match e
    case Trap(h, mcause, sp, f) =>
      BodySafe(k, e);
      PlanConfig(Stored(k, e), PlanOf(k, e), h, sp);
      ConfigStored(k, e, Next(k, e));
    case Restart(u, entry) =>
    case Write(h, addr, data) =>
  }

  lemma {:induction false} ConfigStored(k: Kernel, e: Event, k': Kernel)
    requires e.Trap? && SameConfig(Stored(k, e), k')
    ensures SameConfig(k, k')
  {
    hide PutFrame;
    var k1 := Stored(k, e);
    assert forall t :: Occ(k1, t) <==> Occ(k, t);
    assert forall t :: Occ(k, t) ==> TcbOf(k1, t) == TcbOf(k, t);
  }

  lemma {:induction false} PlanConfig(k: Kernel, p: Plan, h: nat, sp: int)
    requires h < 2 && PlanOk(k, p, h)
    ensures SameConfig(k, Finish(p, h, sp).k)
  {
    if p.Resched? {
      SwitchCalm(p.k, h, sp, p.isTick);
      ConfigTrans(k, p.k, Finish(p, h, sp).k);
    }
  }

  lemma {:induction false} RunConfig(ks: seq<Kernel>, es: seq<Event>, n: nat)
    requires Run(ks, es) && n <= |es|
    ensures SameConfig(ks[0], ks[n])
  {
    hide Inv, Enabled, Next;
    if n > 0 {
      RunConfig(ks, es, n - 1);
      RunStep(ks, es, n - 1);
      StepConfig(ks[n - 1], es[n - 1]);
      ConfigTrans(ks[0], ks[n - 1], ks[n]);
    }
  }

  // ---- Bounded waiting over a run ----

  /** Timer traps of hart `h` among the first `n` events. */
  function Ticks(es: seq<Event>, h: nat, n: nat): (c: nat)
    requires n <= |es|
  {
    if n == 0 then 0 else Ticks(es, h, n - 1) + if IsTick(es[n - 1], h) then 1 else 0
  }

  predicate InState(k: Kernel, t: Tid, st: TaskState) { Occ(k, t) && St(k, t) == st }

  predicate RunningOrDead(k: Kernel, t: Tid) { InState(k, t, Running) || InState(k, t, Terminated) }

  lemma {:induction false} CurrentInRange(k: Kernel, h: nat)
    requires Inv(k) && h < 2
    ensures SchedOk(k.scheds[h]) && k.scheds[h].current < 32
  {}

  lemma {:induction false} WaitOverRun(ks: seq<Kernel>, es: seq<Event>, t: Tid, n: nat)
    requires Run(ks, es) && n <= |es| && InState(ks[0], t, Ready) && t.slot != IDLE
    requires forall i :: 0 <= i <= n ==> !RunningOrDead(ks[i], t)
    ensures InState(ks[n], t, Ready)
    ensures ks[0].scheds[t.hart].current < 32 && ks[n].scheds[t.hart].current < 32
    ensures Ticks(es, t.hart, n) + Wait(ks[n].scheds[t.hart], t.slot) <= Wait(ks[0].scheds[t.hart], t.slot)
  {
    hide Enabled, Next, Inv;
    if n == 0 {
      CurrentInRange(ks[0], t.hart);
    } else {
      WaitOverRun(ks, es, t, n - 1);
      RunStep(ks, es, n - 1);
      StepKeepsWait(ks[n - 1], es[n - 1], t);
      assert !RunningOrDead(ks[n], t);
    }
  }

  lemma {:induction false} TicksBelowBound(ks: seq<Kernel>, es: seq<Event>, t: Tid, n: nat)
    requires Run(ks, es) && n <= |es| && InState(ks[0], t, Ready) && t.slot != IDLE
    requires forall i :: 0 <= i <= n ==> !RunningOrDead(ks[i], t)
    ensures Ticks(es, t.hart, n) < OtherDurations(ks[0].scheds[t.hart], t.slot)
  {
    hide Inv;
    WaitOverRun(ks, es, t, n);
    RunInv(ks, es, n);
    CurrentInRange(ks[0], t.hart);
    CurrentInRange(ks[n], t.hart);
    WaitBounded(ks[0].scheds[t.hart], t.slot);
    WaitBounded(ks[n].scheds[t.hart], t.slot);
  }

  /** Bounded waiting: a Ready non-idle task runs (or is killed) before its hart has taken as many timer
      traps as all other partitions of the hart can use. */
  lemma {:induction false} BoundedWaiting(ks: seq<Kernel>, es: seq<Event>, t: Tid, n: nat)
    requires Run(ks, es) && n <= |es| && InState(ks[0], t, Ready) && t.slot != IDLE
    requires Ticks(es, t.hart, n) >= OtherDurations(ks[0].scheds[t.hart], t.slot)
    ensures exists i :: 0 <= i <= n && RunningOrDead(ks[i], t)
  {
    if forall i :: 0 <= i <= n ==> !RunningOrDead(ks[i], t) { TicksBelowBound(ks, es, t, n); }
  }

  // ---- Sleep ----

  /** A sleeper stays asleep, is killed, or is woken by a timer trap of its own hart at or after its
      wake tick; and such a trap leaves no due sleeper asleep. */
  ghost predicate SleepStep(k: Kernel, k': Kernel, t: Tid, tick: bool)
    requires Occ(k, t) && St(k, t).Blocked?
  {
    var due := tick && k'.tick >= St(k, t).wakeTick;
    && Occ(k', t)
    && (|| St(k', t) == Terminated
        || (!due && St(k', t) == St(k, t))
        || (due && (St(k', t) == Ready || St(k', t) == Running)))
  }

  lemma {:induction false} SleeperNotCurrent(k: Kernel, t: Tid)
    requires SchedsOk(k) && Occ(k, t) && St(k, t).Blocked?
    ensures k.scheds[t.hart].current != t.slot
  {
    assert SchedOk(k.scheds[t.hart]);
  }

  lemma {:induction false} PlanSleep(k: Kernel, p: Plan, h: nat, sp: int, timer: bool, t: Tid)
    requires h < 2 && SchedsOk(k) && PlanOk(k, p, h) && Moves(k, p.k, h, timer)
    requires Occ(k, t) && St(k, t).Blocked?
    requires timer && t.hart == h && Due(St(k, t), p.k.tick) ==> St(p.k, t) == Ready
    ensures SleepStep(k, Finish(p, h, sp).k, t, timer && t.hart == h)
  {
    hide MutexInv, IpcInv, Cfg, StackInv, Switch, SchedMid, SchedOk;
    SleeperNotCurrent(k, t);
    if p.Resched? {
      SwitchTask(p.k, h, sp, p.isTick, t);
    }
  }

  lemma {:induction false} TickWakes(k: Kernel, h: nat, t: Tid)
    requires h < 2 && SchedOk(k.scheds[h]) && Occ(k, t) && t.hart == h && Due(St(k, t), Ticked(k, h).tick)
    ensures Occ(Ticked(k, h), t) && St(Ticked(k, h), t) == Ready
  {
    TickedEffect(k, h);
  }

  lemma {:induction false} StepSleep(k: Kernel, e: Event, t: Tid)
    requires Inv(k) && Enabled(k, e) && Occ(k, t) && St(k, t).Blocked?
    ensures SleepStep(k, Next(k, e), t, IsTick(e, t.hart))
  {
    hide Moves, Body, Finish, CallOk, SleepStep, MutexInv, IpcInv, StackInv, SchedOk, PutFrame, PutBytes;
    match e
    case Trap(h, mcause, sp, f) => TrapSleep(k, e, t);
    case Restart(u, entry) => RestartSleep(k, u, entry, t);
    case Write(h, addr, data) => WriteSleep(k, addr, data, t);
  }

  lemma {:induction false} RestartSleep(k: Kernel, u: Tid, entry: Word, t: Tid)
    requires Occ(k, u) && u in k.stacks && St(k, u) == Terminated && Occ(k, t) && St(k, t).Blocked?
    ensures SleepStep(k, Restarted(k, u, entry), t, false)
  {}

  lemma {:induction false} WriteSleep(k: Kernel, addr: int, data: seq<Byte>, t: Tid)
    requires Occ(k, t) && St(k, t).Blocked?
    ensures SleepStep(k, Poked(k, addr, data), t, false)
  {}

  lemma {:induction false} TrapSleep(k: Kernel, e: Event, t: Tid)
    requires Inv(k) && e.Trap? && Enabled(k, e) && Occ(k, t) && St(k, t).Blocked?
    ensures SleepStep(k, Next(k, e), t, IsTick(e, t.hart))
  {
    hide Inv, MidInv, Steady, Moves, Syscall, Killed, CallOk, Finish, Ticked, PutFrame;
    var k1 := Stored(k, e);
    BodySafe(k, e);
    BodyMoves(k, e);
    SameTablesKeep(k, k1);
    CurrentInRange(k1, 0);
    CurrentInRange(k1, 1);
    if IsTick(e, t.hart) && Due(St(k, t), PlanOf(k, e).k.tick) {
      TickWakes(k1, e.hart, t);
    }
    PlanSleep(k1, PlanOf(k, e), e.hart, e.sp, e.mcause == TIMER_INTERRUPT, t);
  }

  /** In every run a sleeper changes state only by being killed or by a timer trap of its own hart at or
      past its wake tick, and that trap always wakes it. */
  lemma {:induction false} SleepTiming(ks: seq<Kernel>, es: seq<Event>, t: Tid, n: nat)
    requires Run(ks, es) && n < |es| && Occ(ks[n], t) && St(ks[n], t).Blocked?
    ensures SleepStep(ks[n], ks[n + 1], t, IsTick(es[n], t.hart))
  {
    hide Inv, Enabled, Next, SleepStep;
    RunStep(ks, es, n);
    StepSleep(ks[n], es[n], t);
  }

  lemma {:induction false} SuffixRun(ks: seq<Kernel>, es: seq<Event>, n: nat)
    requires Run(ks, es) && n <= |es|
    ensures Run(ks[n..], es[n..])
  {
    hide Inv, Steps;
    RunInv(ks, es, n);
    forall i | 0 <= i < |es| - n ensures StepAt(ks[n..], es[n..], i) {
      assert StepAt(ks, es, n + i);
    }
  }

  /** A sleeper whose wake tick is reached at event `n` runs (or is killed) within one further major
      frame: before its hart takes as many timer traps as all its other partitions can use. */
  lemma {:induction false} SleepThenRun(ks: seq<Kernel>, es: seq<Event>, t: Tid, n: nat)
    requires Run(ks, es) && n < |es| && Occ(ks[n], t) && St(ks[n], t).Blocked? && t.slot != IDLE
    requires IsTick(es[n], t.hart) && ks[n + 1].tick >= St(ks[n], t).wakeTick
    requires Ticks(es[n + 1..], t.hart, |es| - n - 1) >= OtherDurations(ks[n].scheds[t.hart], t.slot)
    ensures exists i :: n < i <= |es| && RunningOrDead(ks[i], t)
  {
    hide Inv, Enabled, Next;
    SleepTiming(ks, es, t, n);
    if !RunningOrDead(ks[n + 1], t) {
      RunStep(ks, es, n);
      StepConfig(ks[n], es[n]);
      SameOthers(ks[n], ks[n + 1], t);
      SuffixRun(ks, es, n + 1);
      var ks', es' := ks[n + 1..], es[n + 1..];
      BoundedWaiting(ks', es', t, |es'|);
      var i :| 0 <= i <= |es'| && RunningOrDead(ks'[i], t);
      assert RunningOrDead(ks[n + 1 + i], t);
    }
  }

  lemma {:induction false} SameOthers(k: Kernel, k': Kernel, t: Tid)
    requires SameConfig(k, k') && Occ(k, t)
    ensures OtherDurations(k'.scheds[t.hart], t.slot) == OtherDurations(k.scheds[t.hart], t.slot)
  {
    forall j | 0 <= j < 32 ensures k.scheds[t.hart].table[j].Some? == k'.scheds[t.hart].table[j].Some? {
      assert Occ(k, Tid(t.hart, j)) <==> Occ(k', Tid(t.hart, j));
    }
    SpanSame(k.scheds[t.hart], k'.scheds[t.hart], t.slot + 1, t.slot + 32);
  }

  /** The wake tick is a 32-bit sum: a sleep of n >= 2 ticks ends at the very next timer trap exactly
      when tick + n wraps around and the counter itself does not, and is never cut short when the sum
      does not wrap. */
  lemma {:induction false} SleepWrapsIff(tick: Word, n: Word, now: Word)
    requires n >= 2
    ensures Due(Blocked(Wrap(tick + n)), Wrap(tick + 1)) <==>
      tick + n >= 0x1_0000_0000 && tick + 1 < 0x1_0000_0000
    ensures tick + n < 0x1_0000_0000 ==> (Due(Blocked(Wrap(tick + n)), now) <==> now >= tick + n)
  {}
}
