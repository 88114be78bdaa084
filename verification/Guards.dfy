/** The conditions the kernel relies on without checking them, made exact: a syscall, fault or restart keeps
    the invariant and does not panic if and only if its guard holds. */
module Guards {
  import opened Tasks
  import opened PartitionScheduler
  import opened KernelState
  import opened KernelSteps
  import opened KernelInvariant
  import opened KernelSafety
  import opened RecoverySafety
  import opened Machine
  import opened Timing
  import opened MutualExclusion

  // ---- Locking a mutex one already owns ----

  /** The caller would wait for itself. */
  lemma {:induction false} SelfLockBreaks(k: Kernel, h: nat, sp: int)
    requires h < 2 && Inv(k) && Occ(k, CurTid(k, h))
    requires !OwnsNot(k, LockTarget(k, h, sp), CurTid(k, h).slot)
    ensures !Lock(k, h, sp).Panic? && !MutexInv(Lock(k, h, sp).k, None)
  {
    var t, m := CurTid(k, h), LockTarget(k, h, sp).value;
    var mx := k.mutexes[m].value;
    var k1 := Lock(k, h, sp).k;
    assert MutexOk(k, m, None);
    LockTargetRight(k, h, sp);
    LockerIsHome(k, t, m);
    assert St(k1, t) == BlockedOnMutex(m);
    assert !MutexOk(k1, m, None);
  }

  // ---- Terminating a mutex waiter, or an idle task ----

  /** Recovery wakes only waiters of mutexes the dead slot owned, so `t` stays as it was set. */
  lemma {:induction false} RecoverSkips(k: Kernel, m: nat, dead: nat, t: Tid)
    requires m <= 8 && Occ(k, t) && t == Home(t.slot) && WaitersLive(k, t.slot, dead)
    ensures Occ(RecoverFrom(k, m, dead), t) && St(RecoverFrom(k, m, dead), t) == St(k, t)
    decreases 8 - m
  {
    if m < 8 {
      var k1 := RecoverOne(k, m, dead);
      RecoverOneSkips(k, m, dead, t);
      RecoverSkips(k1, m + 1, dead, t);
    }
  }

  /** `slot` waits on no mutex that `dead` owns. */
  ghost predicate WaitersLive(k: Kernel, slot: nat, dead: nat) {
    forall m :: 0 <= m < 8 && k.mutexes[m].Some? && k.mutexes[m].value.owner == Some(dead) ==>
      slot !in k.mutexes[m].value.waiters
  }

  lemma {:induction false} RecoverOneSkips(k: Kernel, m: nat, dead: nat, t: Tid)
    requires m < 8 && Occ(k, t) && t == Home(t.slot) && WaitersLive(k, t.slot, dead)
    ensures var k1 := RecoverOne(k, m, dead);
      Occ(k1, t) && St(k1, t) == St(k, t) && WaitersLive(k1, t.slot, dead)
  {
    var k1 := RecoverOne(k, m, dead);
    forall i | 0 <= i < 8 && k1.mutexes[i].Some? && k1.mutexes[i].value.owner == Some(dead)
      ensures t.slot !in k1.mutexes[i].value.waiters
    {
      if i != m { assert k1.mutexes[i] == k.mutexes[i]; }
    }
  }

  /** Its waiter bit stays set, and a later hand-over would go to a dead task. */
  lemma {:induction false} KilledWaiterBreaks(k: Kernel, t: Tid)
    requires Inv(k) && Occ(k, t) && St(k, t).BlockedOnMutex?
    ensures !MutexInv(Killed(k, t), None)
  {
    var m := St(k, t).mutexIdx;
    var k1, k2 := SetState(k, t, Terminated), Killed(k, t);
    assert WaiterOk(k, t);
    assert MutexOk(k, m, None);
    forall i | 0 <= i < 8 && k1.mutexes[i].Some? && k1.mutexes[i].value.owner == Some(t.slot)
      ensures t.slot !in k1.mutexes[i].value.waiters
    {
      assert MutexOk(k, i, None);
    }
    RecoverSkips(k1, 0, t.slot, t);
    RecoverMutexes(k1, 0, t.slot);
    assert k2.mutexes[m] == k.mutexes[m];
    assert !MutexOk(k2, m, None);
  }

  /** Without its idle task a hart may find nothing to run. */
  lemma {:induction false} KilledIdleBreaks(k: Kernel, t: Tid)
    requires Inv(k) && Occ(k, t) && t.slot == IDLE
    ensures !SchedMid(Killed(k, t).scheds[t.hart])
  {
    assert SchedOk(k.scheds[t.hart]);
    var k2 := Killed(k, t);
    assert !St(k, t).BlockedOnMutex? by {
      if t.hart == 0 { assert StateIs(k.scheds[0], IDLE, Running) || ReadyAt(k.scheds[0], IDLE); }
      else { assert StateIs(k.scheds[1], IDLE, Running) || ReadyAt(k.scheds[1], IDLE); }
    }
    KilledStates(k, t);
    assert k2.scheds[t.hart].table[IDLE].value.state == Terminated;
  }

  lemma {:induction false} TerminateBreaks(k: Kernel, h: nat, sp: int)
    requires h < 2 && Inv(k) && Occ(k, CurTid(k, h)) && !MayTerminate(k, Reg(k.mem, sp, REG_A0))
    ensures !PlanOk(k, Terminate(k, h, sp), h)
  {
    hide Killed;
    var slot, p := Reg(k.mem, sp, REG_A0), Terminate(k, h, sp);
    assert slot == IDLE ==> Named(k, slot).Some? by {
      assert SchedOk(k.scheds[0]);
      assert k.scheds[0].table[IDLE].Some?;
    }
    var t := Named(k, slot).value;
    var k2 := Killed(k, t);
    assert p.k.scheds == k2.scheds && p.k.mutexes == k2.mutexes;
    if slot == IDLE {
      KilledIdleBreaks(k, t);
    } else {
      KilledWaiterBreaks(k, t);
      if MutexInv(p.k, None) { SameTablesMutex(p.k, k2); }
    }
  }

  lemma {:induction false} SameTablesMutex(k: Kernel, k': Kernel)
    requires k'.scheds == k.scheds && k'.mutexes == k.mutexes && MutexInv(k, None)
    ensures MutexInv(k', None)
  {
    forall t | Occ(k', t) ensures WaiterOk(k', t) { assert WaiterOk(k, t); }
    forall m | 0 <= m < 8 ensures MutexOk(k', m, None) { assert MutexOk(k, m, None); }
  }

  // ---- Blocking where the caller may not, and taking a mutex when dead ----

  /** The state a call that blocks leaves its caller in. */
  lemma {:induction false} BlockedState(k: Kernel, h: nat, sp: int)
    requires h < 2 && Occ(k, CurTid(k, h)) && !Syscall(k, h, sp).Panic? && WouldBlock(k, h, sp)
    ensures var k1, t := Syscall(k, h, sp).k, CurTid(k, h);
      && Occ(k1, t) && !(St(k1, t) in {Ready, Running, Terminated})
      && k1.scheds == SetState(k, t, St(k1, t)).scheds
  {
    hide PutReg, Find, Reg;
  }

  /** A caller that the other hart killed would live again; an idle task would leave its hart nothing to
      fall back on. */
  lemma {:induction false} BlockBreaks(k: Kernel, h: nat, sp: int)
    requires h < 2 && Inv(k) && Occ(k, CurTid(k, h)) && WouldBlock(k, h, sp) && !Live(k, h)
    ensures !PlanOk(k, Syscall(k, h, sp), h)
  {
    hide Syscall, WouldBlock, MutexInv, IpcInv, Cfg, StackInv;
    var p, t := Syscall(k, h, sp), CurTid(k, h);
    assert SchedOk(k.scheds[h]);
    if !p.Panic? {
      BlockedState(k, h, sp);
      if St(k, t) == Terminated {
        assert !Steady(k, p.k);
      } else {
        assert !StateIs(p.k.scheds[h], IDLE, Running);
        assert !SchedMid(p.k.scheds[h]);
      }
    }
  }

  /** A dead task would own a mutex. */
  lemma {:induction false} DeadGrantBreaks(k: Kernel, h: nat, sp: int)
    requires h < 2 && Inv(k) && Occ(k, CurTid(k, h)) && WouldGrant(k, h, sp) && St(k, CurTid(k, h)) == Terminated
    ensures !MutexInv(Syscall(k, h, sp).k, None)
  {
    hide PutReg, IpcInv, StackInv;
    var t, m := CurTid(k, h), LockTarget(k, h, sp).value;
    var k1 := Syscall(k, h, sp).k;
    LockTargetRight(k, h, sp);
    LockerIsHome(k, t, m);
    assert k1.mutexes[m].value.owner == Some(t.slot) && St(k1, Home(t.slot)) == Terminated;
    assert !MutexOk(k1, m, None);
  }

  // ---- The guards are exact ----

  /** A syscall keeps the invariant, brings nobody back from the dead and does not panic exactly when only
      the owner unlocks, an owner does not lock again, syscall 8 names neither an idle task nor a mutex
      waiter, an idle task does not block, and a killed task neither blocks nor takes a mutex. */
  lemma {:induction false} SyscallExact(k: Kernel, h: nat, sp: int)
    requires h < 2 && Inv(k) && Occ(k, CurTid(k, h))
    ensures PlanOk(k, Syscall(k, h, sp), h) <==> SyscallOk(k, h, sp)
  {
    hide Inv, MutexInv, Terminate, MayTerminate, LockTarget, WouldBlock, WouldGrant, Live;
    var id := Reg(k.mem, sp, REG_A7);
    if SyscallOk(k, h, sp) {
      SyscallSafe(k, h, sp);
    } else if WouldBlock(k, h, sp) && !Live(k, h) {
      BlockBreaks(k, h, sp);
    } else if WouldGrant(k, h, sp) && St(k, CurTid(k, h)) != Running {
      CurrentAlive(k, h);
      DeadGrantBreaks(k, h, sp);
    } else if id == 3 {
      SelfLockBreaks(k, h, sp);
    } else if id == 8 {
      TerminateBreaks(k, h, sp);
    }
  }

  // ---- A task killed by the other hart that still runs ----

  /** What a syscall of a killed task does, by its branch: it panics exactly when it unlocks a mutex that
      exists, it stays dead exactly when the call does not block, and it owns nothing exactly when the call
      does not find a free mutex. */
  lemma {:induction false} KilledCaller(k: Kernel, h: nat, sp: int)
    requires h < 2 && Inv(k) && Occ(k, CurTid(k, h)) && St(k, CurTid(k, h)) == Terminated
    requires Reg(k.mem, sp, REG_A7) == 8 ==> MayTerminate(k, Reg(k.mem, sp, REG_A0))
    ensures var p, t, id := Syscall(k, h, sp), CurTid(k, h), Reg(k.mem, sp, REG_A7);
      && (p.Panic? <==> id == 4 && UnlockTarget(k, h, sp).Some? && k.mutexes[UnlockTarget(k, h, sp).value].Some?)
      && (!p.Panic? ==>
            && Occ(p.k, t)
            && (St(p.k, t) == Terminated <==> !WouldBlock(k, h, sp))
            && ((forall m :: 0 <= m < 8 ==> OwnerOf(p.k, m) != Some(t)) <==> !WouldGrant(k, h, sp)))
  {
    hide Syscall, WouldBlock, WouldGrant, Inv, OwnerOf;
    var p, t := Syscall(k, h, sp), CurTid(k, h);
    KilledOwnsNothing(k, t);
    KilledPanics(k, h, sp);
    if WouldBlock(k, h, sp) {
      if !p.Panic? { KilledBlocks(k, h, sp); }
    } else if WouldGrant(k, h, sp) {
      if !p.Panic? { KilledTakes(k, h, sp); }
    } else if !p.Panic? {
      KilledStays(k, h, sp);
    }
  }

  lemma {:induction false} KilledOwnsNothing(k: Kernel, t: Tid)
    requires Inv(k) && Occ(k, t) && St(k, t) == Terminated
    ensures forall m :: 0 <= m < 8 ==> OwnerOf(k, m) != Some(t)
  {
    forall m | 0 <= m < 8 ensures OwnerOf(k, m) != Some(t) {
      TerminatedOwnsNothing(k, t, m);
    }
  }

  lemma {:induction false} KilledPanics(k: Kernel, h: nat, sp: int)
    requires h < 2 && Inv(k) && Occ(k, CurTid(k, h)) && St(k, CurTid(k, h)) == Terminated
    ensures UnlockTarget(k, h, sp).Some? ==> UnlockTarget(k, h, sp).value < 8
    ensures Syscall(k, h, sp).Panic? <==>
      Reg(k.mem, sp, REG_A7) == 4 && UnlockTarget(k, h, sp).Some? && k.mutexes[UnlockTarget(k, h, sp).value].Some?
  {
    hide Inv, Reg, Unlock, Lock, Killed, Find, Rendezvous;
    var t := CurTid(k, h);
    UnlockTargetPlaced(k, h, sp);
    if UnlockTarget(k, h, sp).Some? {
      KilledOwnsNothing(k, t);
      UnlockerHome(k, h, sp);
      assert OwnerOf(k, UnlockTarget(k, h, sp).value) != Some(t);
    }
    UnlockPanicsIff(k, h, sp);
    LockNeverPanics(k, h, sp);
  }

  lemma {:induction false} UnlockTargetPlaced(k: Kernel, h: nat, sp: int)
    requires h < 2 && Inv(k) && Occ(k, CurTid(k, h))
    ensures UnlockTarget(k, h, sp).Some? ==> UnlockTarget(k, h, sp).value < 8
  {
    assert MutexCapPlaced(k, CurTid(k, h));
  }

  lemma {:induction false} UnlockerHome(k: Kernel, h: nat, sp: int)
    requires h < 2 && Inv(k) && Occ(k, CurTid(k, h)) && UnlockTarget(k, h, sp).Some?
    ensures CurTid(k, h) == Home(CurTid(k, h).slot)
  {
    assert MutexCapPlaced(k, CurTid(k, h));
  }

  lemma {:induction false} LockNeverPanics(k: Kernel, h: nat, sp: int)
    requires h < 2 && Inv(k) && Occ(k, CurTid(k, h))
    ensures !Lock(k, h, sp).Panic?
  {
    if LockTarget(k, h, sp).Some? { LockTargetRight(k, h, sp); }
  }

  lemma {:induction false} KilledBlocks(k: Kernel, h: nat, sp: int)
    requires h < 2 && Inv(k) && Occ(k, CurTid(k, h)) && WouldBlock(k, h, sp) && !Syscall(k, h, sp).Panic?
    requires forall m :: 0 <= m < 8 ==> OwnerOf(k, m) != Some(CurTid(k, h))
    ensures var k1, t := Syscall(k, h, sp).k, CurTid(k, h);
      && Occ(k1, t) && St(k1, t) != Terminated && !WouldGrant(k, h, sp)
      && forall m :: 0 <= m < 8 ==> OwnerOf(k1, m) != Some(t)
  {
    hide PutReg, Find, Reg, Inv;
    BlockedState(k, h, sp);
    var k1, t := Syscall(k, h, sp).k, CurTid(k, h);
    forall m | 0 <= m < 8 ensures OwnerOf(k1, m) != Some(t) {
      assert OwnerOf(k, m) != Some(t) && OwnerOf(k1, m) == OwnerOf(k, m);
    }
  }

  lemma {:induction false} KilledTakes(k: Kernel, h: nat, sp: int)
    requires h < 2 && Inv(k) && Occ(k, CurTid(k, h)) && WouldGrant(k, h, sp) && St(k, CurTid(k, h)) == Terminated
    ensures var p, t := Syscall(k, h, sp), CurTid(k, h);
      && !p.Panic? && Occ(p.k, t) && St(p.k, t) == Terminated
      && !forall m :: 0 <= m < 8 ==> OwnerOf(p.k, m) != Some(t)
  {
    hide PutReg, IpcInv, StackInv;
    var t, m := CurTid(k, h), LockTarget(k, h, sp).value;
    LockTargetRight(k, h, sp);
    LockerIsHome(k, t, m);
    assert OwnerOf(Syscall(k, h, sp).k, m) == Some(t);
  }

  lemma {:induction false} KilledStays(k: Kernel, h: nat, sp: int)
    requires h < 2 && Inv(k) && Occ(k, CurTid(k, h)) && St(k, CurTid(k, h)) == Terminated
    requires !WouldBlock(k, h, sp) && !WouldGrant(k, h, sp) && !Syscall(k, h, sp).Panic?
    requires Reg(k.mem, sp, REG_A7) == 8 ==> MayTerminate(k, Reg(k.mem, sp, REG_A0))
    ensures var k1, t := Syscall(k, h, sp).k, CurTid(k, h);
      && Occ(k1, t) && St(k1, t) == Terminated
      && forall m :: 0 <= m < 8 ==> OwnerOf(k1, m) != Some(t)
  {
    hide WouldBlock, WouldGrant, LockTarget, MutexInv, IpcInv, StackInv, Cfg, Reg, MayTerminate;
    var t, p := CurTid(k, h), Syscall(k, h, sp);
    KilledGuard(k, h, sp);
    SyscallSafe(k, h, sp);
    forall m | 0 <= m < 8 ensures OwnerOf(p.k, m) != Some(t) {
      TerminatedOwnsNothing(p.k, t, m);
    }
  }

  lemma {:induction false} KilledGuard(k: Kernel, h: nat, sp: int)
    requires h < 2 && Inv(k) && Occ(k, CurTid(k, h)) && St(k, CurTid(k, h)) == Terminated
    requires !WouldBlock(k, h, sp) && !WouldGrant(k, h, sp) && !Syscall(k, h, sp).Panic?
    requires Reg(k.mem, sp, REG_A7) == 8 ==> MayTerminate(k, Reg(k.mem, sp, REG_A0))
    ensures SyscallOk(k, h, sp)
  {
    hide WouldBlock, IpcInv, StackInv, Reg, Send, Recv, Terminate, Sleep;
    UnlockPanicsIff(k, h, sp);
    if Reg(k.mem, sp, REG_A7) == 3 { LockedIfOwned(k, h, sp); }
  }

  lemma {:induction false} LockedIfOwned(k: Kernel, h: nat, sp: int)
    requires h < 2 && Inv(k) && Occ(k, CurTid(k, h)) && Reg(k.mem, sp, REG_A7) == 3
    ensures !WouldBlock(k, h, sp) && !WouldGrant(k, h, sp) ==> OwnsNot(k, LockTarget(k, h, sp), CurTid(k, h).slot)
  {}

  /** The kill is undone: a killed task that sleeps before its hart reschedules is Blocked, with every
      invariant kept, and runs again when it wakes. */
  lemma {:induction false} KilledSleeperLives(k: Kernel, h: nat, sp: int)
    requires h < 2 && Inv(k) && Occ(k, CurTid(k, h)) && St(k, CurTid(k, h)) == Terminated
    requires InStack(k, CurTid(k, h), sp)
    requires Reg(k.mem, sp, REG_A7) == 2
    ensures var p, t := Syscall(k, h, sp), CurTid(k, h);
      && p.Resched? && p.k.scheds[h].current < 32 && Inv(Finish(p, h, sp).k)
      && InState(Finish(p, h, sp).k, t, Blocked(Wrap(k.tick + Reg(k.mem, sp, REG_A0))))
  {
    hide Reg, Inv, MidInv, Switch;
    var t, st := CurTid(k, h), Blocked(Wrap(k.tick + Reg(k.mem, sp, REG_A0)));
    var k1 := SetState(k, t, st);
    RevivedMid(k, h, st);
    SwitchRestores(k1, h, sp, false);
    SwitchTask(k1, h, sp, false, t);
  }

  /** Blocking a killed task breaks no invariant. */
  lemma {:induction false} RevivedMid(k: Kernel, h: nat, st: TaskState)
    requires h < 2 && Inv(k) && Occ(k, CurTid(k, h)) && St(k, CurTid(k, h)) == Terminated && st.Blocked?
    ensures MidInv(SetState(k, CurTid(k, h), st), h) && SchedMid(SetState(k, CurTid(k, h), st).scheds[h])
  {
    hide MutexInv, IpcInv;
    var t := CurTid(k, h);
    var k1 := SetState(k, t, st);
    assert SchedOk(k.scheds[h]) && SchedOk(k.scheds[1 - h]);
    SetStateConfig(k, t, st);
    MutexesKept(k, k1, None);
    IpcKept(k, k1);
    CfgKept(k, k1);
    CurrentMid(k, h, st);
    assert k1.scheds[1 - h] == k.scheds[1 - h];
    forall u | Suspended(k1, u) ensures u in k1.stacks && InStack(k1, u, TcbOf(k1, u).savedSp) {
      assert Suspended(k, u);
    }
  }

  // ---- The other guards ----

  /** Only an owner's unlock gets past the kernel's assertion. */
  lemma {:induction false} UnlockPanicsIff(k: Kernel, h: nat, sp: int)
    requires h < 2 && Inv(k) && Occ(k, CurTid(k, h))
    ensures Unlock(k, h, sp).Panic? <==> !OwnsIfPresent(k, UnlockTarget(k, h, sp), CurTid(k, h).slot)
  {
    if OwnsIfPresent(k, UnlockTarget(k, h, sp), CurTid(k, h).slot) {
      UnlockSafe(k, h, sp);
    }
  }

  /** The handler panics exactly on causes that are neither timer or software interrupt, U-mode ecall nor one
      of the six contained faults, and on an unlock of an existing mutex the caller does not own. */
  lemma {:induction false} PanicExact(k: Kernel, e: Event)
    requires Inv(k) && e.Trap? && e.hart < 2 && Occ(k, CurTid(k, e.hart))
    ensures PlanOf(k, e).Panic? <==>
      || e.mcause !in {0x8000_0007, 0x8000_0003, 8, 1, 2, 4, 5, 6, 7}
      || (&& e.mcause == 8 && e.frame[REG_A7] == 4
          && UnlocksForeign(k, CurTid(k, e.hart), e.frame[REG_A0]))
  {
    hide Inv, Reg, Unlock, Lock, Killed, Find, Rendezvous, PutFrame, OwnsIfPresent, UnlocksForeign;
    var k1, h := Stored(k, e), e.hart;
    StoredRegs(k, e);
    SameTablesKeep(k, k1);
    LockNeverPanics(k1, h, e.sp);
    UnlockPanicsIff(k1, h, e.sp);
    ForeignIff(k, e);
  }

  /** Capability `i` of `t` allows unlocking a mutex that exists and another task owns, or nobody. */
  predicate UnlocksForeign(k: Kernel, t: Tid, i: nat)
    requires Occ(k, t)
  {
    i < 8 && var c := TcbOf(k, t).capabilities[i];
    && c.MutexCap? && c.canUnlock && c.mutexIdx < 8 && k.mutexes[c.mutexIdx].Some?
    && k.mutexes[c.mutexIdx].value.owner != Some(t.slot)
  }

  lemma {:induction false} ForeignIff(k: Kernel, e: Event)
    requires Inv(k) && e.Trap? && e.hart < 2 && Occ(k, CurTid(k, e.hart))
    ensures Occ(Stored(k, e), CurTid(k, e.hart))
    ensures UnlocksForeign(k, CurTid(k, e.hart), e.frame[REG_A0]) <==>
      !OwnsIfPresent(Stored(k, e), UnlockTarget(Stored(k, e), e.hart, e.sp), CurTid(k, e.hart).slot)
  {
    hide PutFrame, MutexInv, IpcInv, StackInv;
    StoredRegs(k, e);
    assert MutexCapPlaced(k, CurTid(k, e.hart));
  }

  /** A contained fault leaves its hart something to run exactly when it was not the idle task's. */
  lemma {:induction false} FaultExact(k: Kernel, h: nat)
    requires h < 2 && Inv(k) && Occ(k, CurTid(k, h))
    ensures PlanOk(k, Fault(k, h), h) <==> CurTid(k, h).slot != IDLE
  {
    hide Inv, MutexInv, Killed;
    if CurTid(k, h).slot != IDLE {
      FaultSafe(k, h);
    } else {
      KilledIdleBreaks(k, CurTid(k, h));
    }
  }

  /** Restarting a terminated task is sound exactly when its hart has already switched away from it. */
  lemma {:induction false} RestartExact(k: Kernel, t: Tid, entry: Word)
    requires Inv(k) && Occ(k, t) && St(k, t) == Terminated
    ensures Inv(Restarted(k, t, entry)) <==> k.scheds[t.hart].current != t.slot
  {
    var k' := Restarted(k, t, entry);
    assert SchedOk(k.scheds[0]) && SchedOk(k.scheds[1]);
    assert t.slot != IDLE;
    if k.scheds[t.hart].current != t.slot {
      RestartSafe(k, t, entry);
    } else {
      assert ReadyAt(k'.scheds[t.hart], t.slot);
      assert !SchedOk(k'.scheds[t.hart]);
    }
  }

  /** Restarting the current task of a hart loses its fresh frame: the next switch saves the interrupted
      stack pointer over it. */
  lemma {:induction false} RestartOverwritten(k: Kernel, t: Tid, entry: Word, sp: int)
    requires Inv(k) && Occ(k, t) && St(k, t) == Terminated && k.scheds[t.hart].current == t.slot
    requires Pick(Restarted(k, t, entry).scheds[t.hart]) != Some(t.slot)
    ensures var k' := Switch(Restarted(k, t, entry), t.hart, sp, false).k;
      Occ(k', t) && St(k', t) == Ready && TcbOf(k', t).savedSp == sp
  {
    assert SchedOk(k.scheds[0]) && SchedOk(k.scheds[1]);
    var s := Restarted(k, t, entry).scheds[t.hart];
    PickIsFirstReady(s);
    assert ReadyAt(s, t.slot);
  }

  // ---- A slot shared by two harts ----

  /** The owner field records only a slot number, so killing `u` takes mutex `m` away from its owner
      exactly when the two have the same slot number, on whichever hart `u` runs. */
  lemma {:induction false} SharedSlotExact(k: Kernel, u: Tid, m: nat, o: nat)
    requires Occ(k, u) && m < 8 && k.mutexes[m].Some? && k.mutexes[m].value.owner == Some(o)
    requires o !in k.mutexes[m].value.waiters
    ensures OwnerOf(Killed(k, u), m) == OwnerOf(k, m) <==> u.slot != o
  {
    var k1 := SetState(k, u, Terminated);
    RecoverMutexes(k1, 0, u.slot);
    if u.slot == o {
      DeadOwnerGone(k1, 0, u.slot, m);
    }
  }

  lemma {:induction false} DeadOwnerGone(k: Kernel, i: nat, dead: nat, m: nat)
    requires i <= m < 8 && k.mutexes[m].Some? && dead !in k.mutexes[m].value.waiters
    ensures var r := RecoverFrom(k, i, dead).mutexes[m]; r.Some? && r.value.owner != Some(dead)
    decreases 8 - i
  {
    var k1 := RecoverOne(k, i, dead);
    if i < m {
      DeadOwnerGone(k1, i + 1, dead, m);
    } else {
      RecoverMutexes(k1, i + 1, dead);
      assert RecoverFrom(k, i, dead).mutexes[m] == k1.mutexes[m];
    }
  }

  /** Every mutex capability of `t` sits on the hart where its holder is looked up. */
  ghost predicate CapsHome(k: Kernel, t: Tid)
    requires Occ(k, t)
  {
    forall c :: 0 <= c < 8 && TcbOf(k, t).capabilities[c].MutexCap? ==>
      TcbOf(k, t).capabilities[c].mutexIdx < 8 && t == Home(t.slot)
  }

  /** The configuration conditions without the one on slots that both harts use. */
  ghost predicate CfgButShared(k: Kernel) {
    && (forall t :: Occ(k, t) ==> TcbOf(k, t).priority == t.slot && CapsHome(k, t))
    && (forall t :: Occ(k, t) ==> t in k.stacks && k.stacks[t].size >= FRAME_BYTES + 16)
    && (forall t, u :: Occ(k, t) && Occ(k, u) && t != u ==> Disjoint(k.stacks[t], k.stacks[u]))
    && (forall t :: Occ(k, t) ==> Disjoint(k.stacks[t], k.statics))
  }

  /** A dead slot that owned its only mutex, with nobody waiting, leaves it free. */
  lemma {:induction false} FreedByTwin(k: Kernel, u: Tid, mx: KMutex)
    requires Occ(k, u) && k.mutexes[0] == Some(mx) && mx.owner == Some(u.slot) && mx.waiters == {}
    requires forall i :: 1 <= i < 8 ==> k.mutexes[i].None?
    ensures Killed(k, u) == Release(SetState(k, u, Terminated), 0, mx)
  {
    var k1 := SetState(k, u, Terminated);
    NobodyWaits(k1, 32);
    NothingToRecover(RecoverOne(k1, 0, u.slot), 1, u.slot);
  }

  lemma {:induction false} NobodyWaits(k: Kernel, n: nat)
    ensures HighestWaiter(k, {}, n) == None
  {
    if n > 0 { NobodyWaits(k, n - 1); }
  }

  lemma {:induction false} NothingToRecover(k: Kernel, m: nat, dead: nat)
    requires m <= 8 && forall i :: m <= i < 8 ==> k.mutexes[i].None?
    ensures RecoverFrom(k, m, dead) == k
    decreases 8 - m
  {
    if m < 8 { NothingToRecover(k, m + 1, dead); }
  }
}
