/** What individual calls do, in every run: sleeping, ticking, denial, hand-over, termination and check-in. */
module CallTheorems {
  import opened Tasks
  import opened PartitionScheduler
  import opened KernelState
  import opened KernelSteps
  import opened KernelInvariant
  import opened KernelSafety
  import opened RecoverySafety
  import opened Machine
  import opened Timing
  import opened MutualExclusion
  import opened Containment
  import L = LockOrder

  // ---- The tick counter ----

  predicate IsTimer(e: Event) { IsTick(e, 0) || IsTick(e, 1) }

  /** Timer traps of either hart among the first `n` events. */
  function AllTicks(es: seq<Event>, n: nat): (c: nat)
    requires n <= |es|
  {
    if n == 0 then 0 else AllTicks(es, n - 1) + if IsTimer(es[n - 1]) then 1 else 0
  }

  lemma {:induction false} StepTicks(k: Kernel, e: Event)
    requires Inv(k) && Enabled(k, e)
    ensures Next(k, e).tick == if IsTimer(e) then Wrap(k.tick + 1) else k.tick
  {
    hide Inv, MidInv, Body, CallOk, Steady;
    if e.Trap? {
      BodyMoves(k, e);
      FinishSafe(k, e);
    }
  }

  /** In every run the counter is the number of timer traps of both harts, modulo 2^32. */
  lemma {:induction false} TickCountsTraps(ks: seq<Kernel>, es: seq<Event>, n: nat)
    requires Run(ks, es) && n <= |es|
    ensures ks[n].tick == Wrap(ks[0].tick + AllTicks(es, n))
  {
    hide Inv, Enabled, Next;
    if n > 0 {
      TickCountsTraps(ks, es, n - 1);
      RunStep(ks, es, n - 1);
      StepTicks(ks[n - 1], es[n - 1]);
    }
  }

  // ---- Syscall 2 ----

  lemma {:induction false} SleepPlan(k: Kernel, e: Event)
    requires Inv(k) && e.Trap? && Enabled(k, e) && IsCall(e, 2)
    ensures var wake := Blocked(Wrap(k.tick + e.frame[REG_A0]));
      PlanOf(k, e) == Resched(SetState(Stored(k, e), CurTid(k, e.hart), wake), false)
  {
    hide Inv, CallOk, PutFrame, Lock, Unlock, Send, Recv, Terminate;
    StoredRegs(k, e);
  }

  lemma {:induction false} SleepCall(k: Kernel, e: Event)
    requires Inv(k) && e.Trap? && Enabled(k, e) && IsCall(e, 2)
    ensures InState(Next(k, e), CurTid(k, e.hart), Blocked(Wrap(k.tick + e.frame[REG_A0])))
  {
    hide Inv, CallOk, Body, Switch, MutexInv, IpcInv, Cfg, StackInv, PutFrame;
    BodySafe(k, e);
    SleepPlan(k, e);
    SwitchTask(PlanOf(k, e).k, e.hart, e.sp, false, CurTid(k, e.hart));
  }

  /** A task that sleeps for `d` ticks is due exactly when the counter has advanced by `d`: until then no
      event but its own death wakes it, and the first timer trap of its hart from then on does. */
  lemma {:induction false} SleepsExactly(ks: seq<Kernel>, es: seq<Event>, t: Tid, i: nat, n: nat)
    requires Run(ks, es) && i < n <= |es| && IsCall(es[i], 2) && es[i].hart == t.hart < 2 && CurTid(ks[i], t.hart) == t
    requires ks[i].tick + es[i].frame[REG_A0] < 0x1_0000_0000
    requires forall x :: i < x < n ==> !(IsTick(es[x], t.hart) && ks[x + 1].tick >= ks[i].tick + es[i].frame[REG_A0])
    ensures || InState(ks[n], t, Blocked(ks[i].tick + es[i].frame[REG_A0]))
            || exists x :: i < x <= n && InState(ks[x], t, Terminated)
    ensures (n < |es| && InState(ks[n], t, Blocked(ks[i].tick + es[i].frame[REG_A0])) && IsTick(es[n], t.hart)
             && ks[n + 1].tick >= ks[i].tick + es[i].frame[REG_A0])
            ==> InState(ks[n + 1], t, Ready) || InState(ks[n + 1], t, Running) || InState(ks[n + 1], t, Terminated)
    decreases n
  {
    hide Inv, Enabled, Next, StepAt;
    if n == i + 1 {
      RunStep(ks, es, i);
      SleepCall(ks[i], es[i]);
    } else {
      SleepsExactly(ks, es, t, i, n - 1);
      if InState(ks[n - 1], t, Blocked(ks[i].tick + es[i].frame[REG_A0])) {
        SleepTiming(ks, es, t, n - 1);
      }
    }
    if n < |es| && InState(ks[n], t, Blocked(ks[i].tick + es[i].frame[REG_A0])) {
      SleepTiming(ks, es, t, n);
    }
  }

  // ---- Calls without the right ----

  predicate Present(k: Kernel, m: nat) { m < 8 && k.mutexes[m].Some? }

  /** The capability the caller names in a0. */
  function CapNamed(k: Kernel, e: Event): (c: Capability)
    requires e.Trap? && e.hart < 2 && Occ(k, CurTid(k, e.hart))
  {
    if e.frame[REG_A0] < 8 then TcbOf(k, CurTid(k, e.hart)).capabilities[e.frame[REG_A0]] else NoCap
  }

  /** A syscall that names no capability for what it asks, or a task that does not exist. */
  ghost predicate Unauthorised(k: Kernel, e: Event) {
    && e.Trap? && e.mcause == 8 && e.hart < 2 && Occ(k, CurTid(k, e.hart))
    && var id, i, c := e.frame[REG_A7], e.frame[REG_A0], CapNamed(k, e);
       || (id == 3 && !(c.MutexCap? && c.canLock && Present(k, c.mutexIdx)))
       || (id == 4 && !(c.MutexCap? && c.canUnlock && Present(k, c.mutexIdx)))
       || (id == 6 && !(c.IpcCap? && c.canSend))
       || (id == 7 && !(c.IpcCap? && c.canRecv))
       || (id == 8 && !Occ(k, Tid(0, i)) && !Occ(k, Tid(1, i)))
  }

  lemma {:induction false} UnauthorisedPlan(k: Kernel, e: Event)
    requires Inv(k) && Enabled(k, e) && Unauthorised(k, e)
    ensures PlanOf(k, e) == Denied(Stored(k, e), e.sp)
  {
    hide CallOk, PutFrame, MutexInv, IpcInv, StackInv;
    StoredRegs(k, e);
    assert MutexCapPlaced(k, CurTid(k, e.hart));
  }

  /** A call without the right changes nothing but the caller's a0, which becomes -1. */
  lemma {:induction false} UnauthorisedCallsFail(ks: seq<Kernel>, es: seq<Event>, n: nat)
    requires Run(ks, es) && n < |es| && Unauthorised(ks[n], es[n])
    ensures ks[n + 1] == SetA0(Stored(ks[n], es[n]), es[n].sp, 0xFFFF_FFFF)
  {
    hide Inv, Enabled, PlanOf, PutReg, PutFrame;
    RunStep(ks, es, n);
    UnauthorisedPlan(ks[n], es[n]);
  }

  /** An unknown syscall number changes nothing, and a check-in only its slot's time. */
  lemma {:induction false} SimpleCalls(ks: seq<Kernel>, es: seq<Event>, n: nat)
    requires Run(ks, es) && n < |es| && es[n].Trap? && es[n].mcause == 8 && es[n].hart < 2
    requires es[n].frame[REG_A7] !in {1, 2, 3, 4, 6, 7, 8}
    ensures ks[n].scheds[es[n].hart].current < 32
    ensures var k1 := Stored(ks[n], es[n]);
      ks[n + 1] == if es[n].frame[REG_A7] != 5 then k1
                   else k1.(checkins := k1.checkins[ks[n].scheds[es[n].hart].current := ks[n].tick])
  {
    hide Inv, CallOk, PutFrame;
    RunStep(ks, es, n);
    StoredRegs(ks[n], es[n]);
    CurrentAlive(ks[n], es[n].hart);
  }

  // ---- Syscall 3 ----

  /** The caller names, with the right to lock it, mutex `m`, which exists. */
  ghost predicate LocksWithRight(k: Kernel, e: Event, m: nat) {
    && IsCall(e, 3) && e.hart < 2 && Occ(k, CurTid(k, e.hart))
    && CapNamed(k, e).MutexCap? && CapNamed(k, e).canLock && CapNamed(k, e).mutexIdx == m && Present(k, m)
  }

  ghost predicate Locked(k: Kernel, e: Event, k': Kernel, m: nat)
    requires LocksWithRight(k, e, m)
  {
    var t, mx := CurTid(k, e.hart), k.mutexes[m].value;
    && (forall i :: 0 <= i < 8 && i != m ==> k'.mutexes[i] == k.mutexes[i])
    && (!mx.locked ==>
          && k'.mutexes[m] == Some(KMutex(true, Some(t.slot), mx.waiters))
          && k'.scheds == k.scheds && Reg(k'.mem, e.sp, REG_A0) == 0)
    && (mx.locked ==>
          && k'.mutexes[m] == Some(KMutex(true, mx.owner, mx.waiters + {t.slot}))
          && InState(k', t, BlockedOnMutex(m)) && CurTid(k', e.hart) != t)
  }

  lemma {:induction false} LockedPlan(k: Kernel, e: Event, m: nat)
    requires Inv(k) && Enabled(k, e) && LocksWithRight(k, e, m)
    ensures var k1, t, mx := Stored(k, e), CurTid(k, e.hart), k.mutexes[m].value;
      && Occ(k1, t)
      && PlanOf(k, e) == (if mx.locked then Resched(BlockOn(k1, m, mx, t), false)
                          else Return(SetA0(GrantFree(k1, m, mx, t), e.sp, 0)))
  {
    hide CallOk, PutFrame, PutReg, Inv, BlockOn, GrantFree;
    StoredRegs(k, e);
  }

  /** A lock call with the right, in every run: a free mutex is the caller's at once and the call returns 0;
      for a taken one the caller waits in its bitmap and gives up its hart. No other mutex changes. */
  lemma {:induction false} LockExact(ks: seq<Kernel>, es: seq<Event>, n: nat, m: nat)
    requires Run(ks, es) && n < |es| && LocksWithRight(ks[n], es[n], m)
    ensures Locked(ks[n], es[n], ks[n + 1], m)
  {
    hide Inv, Enabled, Next, Locked, LocksWithRight, StepAt;
    RunStep(ks, es, n);
    LockStep(ks[n], es[n], m);
  }

  lemma {:induction false} LockStep(k: Kernel, e: Event, m: nat)
    requires Inv(k) && Enabled(k, e) && LocksWithRight(k, e, m)
    ensures Locked(k, e, Next(k, e), m)
  {
    hide Inv, CallOk, Body, Switch, PutFrame, PutReg, Rd, MidInv, Steady, StackOk;
    var k1, t, mx := Stored(k, e), CurTid(k, e.hart), k.mutexes[m].value;
    LockedPlan(k, e, m);
    BodySafe(k, e);
    if mx.locked {
      PlanMid(k1, PlanOf(k, e), e.hart);
      SwitchTask(PlanOf(k, e).k, e.hart, e.sp, false, t);
      SwitchMutexes(PlanOf(k, e).k, e.hart, e.sp, false);
      SwitchOne(PlanOf(k, e).k, e.hart, e.sp, false, t);
    } else {
      RegPutReg(GrantFree(k1, m, mx, t).mem, e.sp, REG_A0, 0, REG_A0);
    }
  }

  // ---- Unlock passes the mutex to the lowest waiting slot ----

  lemma {:induction false} UnlockPlanPasses(k: Kernel, h: nat, sp: int, m: nat)
    requires h < 2 && Inv(k) && Occ(k, CurTid(k, h)) && !Unlock(k, h, sp).Panic? && Unlocks(k, h, sp, m)
    ensures m < 8 && PassedOn(k.mutexes[m], Unlock(k, h, sp).k.mutexes[m])
  {
    hide HighestWaiter, Unlocked, PassedOn, Inv, PutReg, Reg;
    UnlockedPasses(k, h, m);
  }

  lemma {:induction false} UnlockedPasses(k: Kernel, h: nat, m: nat)
    requires Inv(k) && m < 8 && k.mutexes[m].Some?
    ensures var r := Unlocked(k, h, m, k.mutexes[m].value); r.Some? ==> PassedOn(k.mutexes[m], r.value.mutexes[m])
  {
    hide HighestWaiter, StackInv, IpcInv, PutReg;
    var mx := k.mutexes[m].value;
    assert MutexOk(k, m, None);
    HighestIsLowest(k, mx.waiters, 0);
    match HighestWaiter(k, mx.waiters, 32)
    case None =>
    case Some(w) => HighestIsLowest(k, mx.waiters, w);
  }

  /** Every unlock that succeeds hands the mutex to its lowest waiting slot, or frees it. */
  lemma {:induction false} UnlockPassesOn(ks: seq<Kernel>, es: seq<Event>, t: Tid, m: nat, n: nat)
    requires Run(ks, es) && n < |es| && UnlockReturned(ks[n], es[n], ks[n + 1], t, m)
    ensures m < 8 && PassedOn(ks[n].mutexes[m], ks[n + 1].mutexes[m])
  {
    hide Inv, Enabled, Steps, PassedOn, Unlock, Body;
    RunStep(ks, es, n);
    UnlockObserved(ks[n], es[n], t, m);
    UnlockStepPasses(ks[n], es[n], t, m);
  }

  lemma {:induction false} UnlockStepPasses(k: Kernel, e: Event, t: Tid, m: nat)
    requires Inv(k) && e.Trap? && Enabled(k, e) && UnlockDone(k, e, t, m)
    ensures m < 8 && PassedOn(k.mutexes[m], Next(k, e).mutexes[m])
  {
    hide Inv, CallOk, PassedOn, Unlock, PutFrame;
    FinishSafe(k, e);
    SameTablesKeep(k, Stored(k, e));
    StoredRegs(k, e);
    UnlockPlanPasses(Stored(k, e), e.hart, e.sp, m);
  }

  /** The caller names, with the right to unlock it, mutex `m`, which exists. */
  ghost predicate UnlocksWithRight(k: Kernel, e: Event, m: nat) {
    && IsCall(e, 4) && e.hart < 2 && Occ(k, CurTid(k, e.hart))
    && CapNamed(k, e).MutexCap? && CapNamed(k, e).canUnlock && CapNamed(k, e).mutexIdx == m && Present(k, m)
  }

  /** The new owner of `m`, looked up on hart 0 for slots 0 and 1 and on hart 1 for the others, waited for it
      and may run now. */
  ghost predicate HeirWakes(k: Kernel, k': Kernel, m: nat, w: nat) {
    var u := Tid(if w < 2 then 0 else 1, w);
    InState(k, u, BlockedOnMutex(m)) && (InState(k', u, Ready) || InState(k', u, Running))
  }

  lemma {:induction false} UnlockedHeir(k: Kernel, h: nat, m: nat)
    requires h < 2 && Inv(k) && m < 8 && k.mutexes[m].Some?
    ensures var r := Unlocked(k, h, m, k.mutexes[m].value);
      && r.Some? && (forall i :: 0 <= i < 8 && i != m ==> r.value.mutexes[i] == k.mutexes[i])
      && (k.mutexes[m].value.waiters != {} ==>
            && r.value.mutexes[m].Some? && r.value.mutexes[m].value.owner.Some?
            && HeirWakes(k, r.value, m, r.value.mutexes[m].value.owner.value))
  {
    hide HighestWaiter, StackInv, IpcInv, PutReg, SchedOk;
    var ws := k.mutexes[m].value.waiters;
    assert MutexOk(k, m, None);
    HighestIsLowest(k, ws, 0);
  }

  lemma {:induction false} UnlockStep(k: Kernel, e: Event, m: nat)
    requires Inv(k) && e.Trap? && Enabled(k, e) && UnlocksWithRight(k, e, m)
    ensures UnlockReturned(k, e, Next(k, e), CurTid(k, e.hart), m)
    ensures forall i :: 0 <= i < 8 && i != m ==> Next(k, e).mutexes[i] == k.mutexes[i]
    ensures k.mutexes[m].value.waiters != {} ==>
      && Next(k, e).mutexes[m].Some? && Next(k, e).mutexes[m].value.owner.Some?
      && HeirWakes(k, Next(k, e), m, Next(k, e).mutexes[m].value.owner.value)
  {
    hide Inv, CallOk, Body, Switch, PutFrame, PutReg, Rd, MidInv, Steady, StackOk, Unlocked, Enabled;
    var k1, h, p := Stored(k, e), e.hart, PlanOf(k, e);
    SameTablesKeep(k, k1);
    UnlockPlan(k, e, m);
    BodySafe(k, e);
    UnlockedHeir(k1, h, m);
    var k2 := Unlocked(k1, h, m, k.mutexes[m].value).value;
    PlanMid(k1, p, h);
    SwitchMutexes(p.k, h, e.sp, false);
    RegPutReg(k2.mem, e.sp, REG_A0, 0, REG_A0);
    if k.mutexes[m].value.waiters != {} {
      var w := k2.mutexes[m].value.owner.value;
      SwitchTask(p.k, h, e.sp, false, Tid(if w < 2 then 0 else 1, w));
    }
  }

  lemma {:induction false} UnlockPlan(k: Kernel, e: Event, m: nat)
    requires Inv(k) && e.Trap? && Enabled(k, e) && UnlocksWithRight(k, e, m)
    ensures var k1, r := Stored(k, e), Unlocked(Stored(k, e), e.hart, m, k.mutexes[m].value);
      r.Some? && PlanOf(k, e) == Resched(SetA0(r.value, e.sp, 0), false)
  {
    hide CopyOk, PutFrame, PutReg, Inv, Unlocked;
    StoredRegs(k, e);
    SameTablesKeep(k, Stored(k, e));
    UnlockedHeir(Stored(k, e), e.hart, m);
  }

  /** An unlock call with the right, in every run: it returns 0, the mutex goes to its lowest waiting slot,
      which wakes, or is free if nobody waits, and no other mutex changes. */
  lemma {:induction false} UnlockExact(ks: seq<Kernel>, es: seq<Event>, n: nat, m: nat)
    requires Run(ks, es) && n < |es| && UnlocksWithRight(ks[n], es[n], m)
    ensures UnlockReturned(ks[n], es[n], ks[n + 1], CurTid(ks[n], es[n].hart), m)
    ensures PassedOn(ks[n].mutexes[m], ks[n + 1].mutexes[m])
    ensures forall i :: 0 <= i < 8 && i != m ==> ks[n + 1].mutexes[i] == ks[n].mutexes[i]
    ensures ks[n].mutexes[m].value.waiters != {} ==>
      && ks[n + 1].mutexes[m].value.owner.Some?
      && HeirWakes(ks[n], ks[n + 1], m, ks[n + 1].mutexes[m].value.owner.value)
  {
    hide Inv, Enabled, Next, StepAt, UnlockReturned, HeirWakes, PassedOn;
    RunStep(ks, es, n);
    UnlockStep(ks[n], es[n], m);
    UnlockPassesOn(ks, es, CurTid(ks[n], es[n].hart), m, n);
    PassedPresent(ks[n].mutexes[m], ks[n + 1].mutexes[m]);
  }

  lemma {:induction false} PassedPresent(a: Option<KMutex>, b: Option<KMutex>)
    requires PassedOn(a, b)
    ensures a.Some? && b.Some?
  {}

  // ---- Syscall 8 ----

  /** What is left after the caller on hart `h` has terminated `t`. */
  ghost predicate TerminatedBy(k: Kernel, k': Kernel, h: nat, sp: int, t: Tid)
    requires h < 2
  {
    && Dies(k, k', h, t) && Reg(k'.mem, sp, REG_A0) == 0
    && (t.hart != h ==> t.hart in k'.msip)
    && (t != CurTid(k, h) ==> CurTid(k', h) == CurTid(k, h))
  }

  /** `t` is dead, each mutex it held went to its lowest waiting slot or is free, no other mutex changed, and
      the other tasks are as before or released. */
  ghost predicate Dies(k: Kernel, k': Kernel, h: nat, t: Tid)
    requires h < 2
  {
    && InState(k', t, Terminated)
    && (forall m :: 0 <= m < 8 ==> OwnerOf(k', m) != Some(t) && Bequeathed(k.mutexes[m], k'.mutexes[m], t.slot))
    && (forall u :: Occ(k, u) && u != t ==> OtherAfter(k, k', h, t, u))
  }

  /** An heir of one of the dead task's mutexes becomes Ready; a task starts only where the caller
      terminated itself. */
  ghost predicate OtherAfter(k: Kernel, k': Kernel, h: nat, t: Tid, u: Tid)
    requires h < 2 && Occ(k, u)
  {
    && Occ(k', u)
    && (|| St(k', u) == St(k, u)
        || (St(k', u) == Ready && Inherits(k, k', t, u))
        || (&& u == CurTid(k', h) && t == CurTid(k, h) && St(k', u) == Running
            && (St(k, u) == Ready || Inherits(k, k', t, u))))
  }

  lemma {:induction false} KilledDies(k: Kernel, h: nat, t: Tid)
    requires h < 2 && Inv(k) && Occ(k, t) && !St(k, t).BlockedOnMutex?
    ensures Dies(k, Killed(k, t), h, t) && Killed(k, t).scheds[h].current == k.scheds[h].current
  {
    hide Killed, MutexInv, IpcInv, StackInv, SchedOk, Cfg, Bequeathed, Inherits;
    var k1 := Killed(k, t);
    KilledStates(k, t);
    KilledKeeps(k, t);
    forall m | 0 <= m < 8 ensures OwnerOf(k1, m) != Some(t) && Bequeathed(k.mutexes[m], k1.mutexes[m], t.slot) {
      NoOwnerLeft(k, t, m);
    }
    forall u | Occ(k, u) && u != t ensures OtherAfter(k, k1, h, t, u) {
      HeirsOf(k, t, u);
    }
  }

  lemma {:induction false} SameDies(k: Kernel, k1: Kernel, k2: Kernel, h: nat, t: Tid)
    requires h < 2 && Dies(k, k1, h, t) && k2.scheds == k1.scheds && k2.mutexes == k1.mutexes
    ensures Dies(k, k2, h, t)
  {
    forall m | 0 <= m < 8 ensures OwnerOf(k2, m) != Some(t) && Bequeathed(k.mutexes[m], k2.mutexes[m], t.slot) {
      assert OwnerOf(k1, m) != Some(t) && OwnerOf(k2, m) == OwnerOf(k1, m);
    }
    assert forall m :: OwnerOf(k2, m) == OwnerOf(k1, m);
    forall u | Occ(k, u) && u != t ensures OtherAfter(k, k2, h, t, u) {
      assert OtherAfter(k, k1, h, t, u);
    }
  }

  lemma {:induction false} TerminatePlan(k: Kernel, h: nat, sp: int, t: Tid)
    requires h < 2 && Inv(k) && Occ(k, CurTid(k, h)) && Named(k, Reg(k.mem, sp, REG_A0)) == Some(t)
    requires MayTerminate(k, Reg(k.mem, sp, REG_A0))
    ensures TerminatedBy(k, Terminate(k, h, sp).k, h, sp, t)
    ensures Terminate(k, h, sp).Resched? <==> t == CurTid(k, h)
  {
    hide Killed, Inv, Dies;
    KilledDies(k, h, t);
    SameDies(k, Killed(k, t), Terminate(k, h, sp).k, h, t);
  }

  lemma {:induction false} TerminateFinish(k: Kernel, p: Plan, h: nat, sp: int, t: Tid)
    requires h < 2 && !p.Panic? && SchedMid(p.k.scheds[h]) && p.k.scheds[h].current == k.scheds[h].current
    requires TerminatedBy(k, p.k, h, sp, t) && (p.Resched? ==> t == CurTid(k, h))
    ensures TerminatedBy(k, Finish(p, h, sp).k, h, sp, t)
  {
    if p.Resched? {
      hide Switch, SchedMid;
      var k' := Switch(p.k, h, sp, p.isTick).k;
      SwitchMutexes(p.k, h, sp, p.isTick);
      SwitchOne(p.k, h, sp, p.isTick, t);
      forall m | 0 <= m < 8 ensures OwnerOf(k', m) != Some(t) && Bequeathed(k.mutexes[m], k'.mutexes[m], t.slot) {
        assert OwnerOf(p.k, m) != Some(t) && OwnerOf(k', m) == OwnerOf(p.k, m);
      }
      assert forall m :: OwnerOf(k', m) == OwnerOf(p.k, m);
      forall u | Occ(k, u) && u != t ensures OtherAfter(k, k', h, t, u) {
        assert OtherAfter(k, p.k, h, t, u);
        SwitchOne(p.k, h, sp, p.isTick, u);
      }
    }
  }

  lemma {:induction false} SwitchMutexes(k: Kernel, h: nat, sp: int, isTick: bool)
    requires h < 2 && SchedMid(k.scheds[h])
    ensures var k' := Switch(k, h, sp, isTick).k; k' == k.(scheds := k'.scheds)
  {}

  lemma {:induction false} SwitchOne(k: Kernel, h: nat, sp: int, isTick: bool, u: Tid)
    requires h < 2 && SchedMid(k.scheds[h]) && Occ(k, u) && Occ(k, CurTid(k, h)) && St(k, CurTid(k, h)) != Running
    ensures var k' := Switch(k, h, sp, isTick).k;
      Occ(k', u) && St(k', u) == if u == CurTid(k', h) then Running else St(k, u)
  {
    SwitchEffect(k, h, sp, isTick);
    if u.hart != h { assert u.hart == 1 - h; }
  }

  lemma {:induction false} TerminateStep(k: Kernel, e: Event, t: Tid)
    requires Inv(k) && e.Trap? && Enabled(k, e) && IsCall(e, 8) && Named(k, e.frame[REG_A0]) == Some(t)
    ensures TerminatedBy(k, Next(k, e), e.hart, e.sp, t)
  {
    hide Inv, MidInv, Terminate, TerminatedBy, PutFrame, MayTerminate;
    var k1 := Stored(k, e);
    StoredRegs(k, e);
    SameTablesKeep(k, k1);
    BodySafe(k, e);
    TerminatePlan(k1, e.hart, e.sp, t);
    PlanMid(k1, PlanOf(k, e), e.hart);
    TerminateFinish(k1, PlanOf(k, e), e.hart, e.sp, t);
    TerminatedStored(k, k1, Next(k, e), e.hart, e.sp, t);
  }

  lemma {:induction false} TerminatedStored(k: Kernel, k1: Kernel, k': Kernel, h: nat, sp: int, t: Tid)
    requires h < 2 && k1.scheds == k.scheds && k1.mutexes == k.mutexes && TerminatedBy(k1, k', h, sp, t)
    ensures TerminatedBy(k, k', h, sp, t)
  {
    assert forall m :: OwnerOf(k1, m) == OwnerOf(k, m);
    forall m | 0 <= m < 8 ensures OwnerOf(k', m) != Some(t) && Bequeathed(k.mutexes[m], k'.mutexes[m], t.slot) {
      assert OwnerOf(k', m) != Some(t);
    }
    forall u | Occ(k, u) && u != t ensures OtherAfter(k, k', h, t, u) {
      assert OtherAfter(k1, k', h, t, u);
    }
  }

  /** Syscall 8 on a registered slot, hart 0 before hart 1, in every run: exactly that task dies; each mutex it
      owned goes to its lowest waiting slot or is free; if it was on the other hart, that hart is signalled;
      the caller reads 0 and goes on unless it named itself; other tasks change only by inheriting a mutex or
      taking the caller's place. */
  lemma {:induction false} TerminateExact(ks: seq<Kernel>, es: seq<Event>, n: nat, t: Tid)
    requires Run(ks, es) && n < |es| && IsCall(es[n], 8) && es[n].hart < 2
    requires Occ(ks[n], t) && t.slot == es[n].frame[REG_A0] && (t.hart == 1 ==> !Occ(ks[n], Tid(0, t.slot)))
    ensures TerminatedBy(ks[n], ks[n + 1], es[n].hart, es[n].sp, t)
  {
    hide Inv, Enabled, Next, TerminatedBy, StepAt;
    RunStep(ks, es, n);
    TerminateStep(ks[n], es[n], t);
  }

  // ---- Check-in times ----

  /** The check-in time of slot `i` after this event: only its own syscall 5 and its restart write it. */
  ghost function CheckinAfter(k: Kernel, e: Event, i: nat): (w: Word)
    requires i < 32
  {
    if e.Restart? && e.task.slot == i then 0
    else if IsCall(e, 5) && e.hart < 2 && k.scheds[e.hart].current == i then k.tick
    else k.checkins[i]
  }

  lemma {:induction false} BodyCheckins(k: Kernel, e: Event)
    requires Inv(k) && e.Trap? && Enabled(k, e)
    ensures !PlanOf(k, e).Panic?
    ensures IsCall(e, 5) ==> PlanOf(k, e) == CheckIn(Stored(k, e), e.hart)
    ensures !IsCall(e, 5) ==> PlanOf(k, e).k.checkins == k.checkins
  {
    hide Inv, CallOk, PutFrame, MidInv, Steady, Killed, Syscall;
    var k1 := Stored(k, e);
    StoredRegs(k, e);
    BodySafe(k, e);
    if e.mcause == ECALL_UMODE {
      SyscallCheckins(k1, e.hart, e.sp);
    } else if Contained(e.mcause) {
      KilledCheckins(k1, CurTid(k1, e.hart));
    }
  }

  lemma {:induction false} SyscallCheckins(k: Kernel, h: nat, sp: int)
    requires h < 2 && Occ(k, CurTid(k, h)) && !Syscall(k, h, sp).Panic?
    ensures Reg(k.mem, sp, REG_A7) == 5 ==> Syscall(k, h, sp) == CheckIn(k, h)
    ensures Reg(k.mem, sp, REG_A7) != 5 ==> Syscall(k, h, sp).k.checkins == k.checkins
  {
    hide Lock, Unlock, Send, Recv, Terminate;
    var id := Reg(k.mem, sp, REG_A7);
    if id == 3 { LockCheckins(k, h, sp); }
    else if id == 4 { UnlockCheckins(k, h, sp); }
    else if id == 6 || id == 7 { IpcCheckins(k, h, sp); }
    else if id == 8 { TerminateCheckins(k, h, sp); }
  }

  lemma {:induction false} LockCheckins(k: Kernel, h: nat, sp: int)
    requires h < 2 && Occ(k, CurTid(k, h)) && !Lock(k, h, sp).Panic?
    ensures Lock(k, h, sp).k.checkins == k.checkins
  {}

  lemma {:induction false} UnlockCheckins(k: Kernel, h: nat, sp: int)
    requires h < 2 && Occ(k, CurTid(k, h)) && !Unlock(k, h, sp).Panic?
    ensures Unlock(k, h, sp).k.checkins == k.checkins
  {}

  lemma {:induction false} IpcCheckins(k: Kernel, h: nat, sp: int)
    requires h < 2 && Occ(k, CurTid(k, h))
    ensures Send(k, h, sp).k.checkins == k.checkins && Recv(k, h, sp).k.checkins == k.checkins
  {}

  lemma {:induction false} TerminateCheckins(k: Kernel, h: nat, sp: int)
    requires h < 2
    ensures Terminate(k, h, sp).k.checkins == k.checkins
  {
    hide Killed;
    if Named(k, Reg(k.mem, sp, REG_A0)).Some? { KilledCheckins(k, Named(k, Reg(k.mem, sp, REG_A0)).value); }
  }

  lemma {:induction false} KilledCheckins(k: Kernel, t: Tid)
    requires Occ(k, t)
    ensures Killed(k, t).checkins == k.checkins
  {
    RecoverCheckins(SetState(k, t, Terminated), 0, t.slot);
  }

  lemma {:induction false} RecoverCheckins(k: Kernel, m: nat, dead: nat)
    requires m <= 8
    ensures RecoverFrom(k, m, dead).checkins == k.checkins
    decreases 8 - m
  {
    if m < 8 { RecoverCheckins(RecoverOne(k, m, dead), m + 1, dead); }
  }

  lemma {:induction false} StepCheckins(k: Kernel, e: Event, i: nat)
    requires Inv(k) && Enabled(k, e) && i < 32
    ensures Next(k, e).checkins[i] == CheckinAfter(k, e, i)
  {
    hide Inv, Body, CallOk, PutFrame;
    if e.Trap? {
      FinishSafe(k, e);
      BodyCheckins(k, e);
    }
  }

  /** In every run a slot's check-in time is written only by its own check-in call, with the current tick,
      and by its restart. */
  lemma {:induction false} CheckinsOwn(ks: seq<Kernel>, es: seq<Event>, n: nat, i: nat)
    requires Run(ks, es) && n < |es| && i < 32
    ensures ks[n + 1].checkins[i] == CheckinAfter(ks[n], es[n], i)
  {
    hide Inv, Enabled, Next, StepAt;
    RunStep(ks, es, n);
    StepCheckins(ks[n], es[n], i);
  }

  // ---- The locks cover every change ----

  /** The lock calls of a trap, from its cause and registers. */
  function LockCalls(k: Kernel, e: Event): (ops: seq<L.Op>)
    requires e.Trap?
  {
    L.TrapPath(e.mcause, e.frame[REG_A7], Named(k, e.frame[REG_A0]).Some?)
  }

  lemma {:induction false} MutexFree(k: Kernel, e: Event)
    requires Inv(k) && e.Trap? && Enabled(k, e) && L.Take(L.Mutex) !in LockCalls(k, e)
    ensures !PlanOf(k, e).Panic? && PlanOf(k, e).k.mutexes == k.mutexes
  {
    hide Inv, PutFrame, PutReg, Copy, Find, Rendezvous, Killed, Lock, Unlock, CallOk, Ticked;
    BodySafe(k, e);
    StoredRegs(k, e);
    if IsCall(e, 6) || IsCall(e, 7) { IpcMutexes(Stored(k, e), e.hart, e.sp); }
    TickMutexes(Stored(k, e), e.hart);
  }

  lemma {:induction false} IpcMutexes(k: Kernel, h: nat, sp: int)
    requires h < 2 && Occ(k, CurTid(k, h))
    ensures Send(k, h, sp).k.mutexes == k.mutexes && Recv(k, h, sp).k.mutexes == k.mutexes
  {}

  lemma {:induction false} TickMutexes(k: Kernel, h: nat)
    requires h < 2
    ensures Ticked(k, h).mutexes == k.mutexes
  {}

  /** In every run a trap that takes no lock changes nothing but the frame it stores, one that takes any
      holds SCHED_LOCK from its first call to its last, and the mutex table changes only under MUTEX_LOCK. */
  lemma {:induction false} LocksCover(ks: seq<Kernel>, es: seq<Event>, n: nat)
    requires Run(ks, es) && n < |es| && es[n].Trap?
    ensures var ops := LockCalls(ks[n], es[n]);
      && (ops == [] ==> ks[n + 1] == Stored(ks[n], es[n]))
      && (ops != [] ==> ops[0] == L.Take(L.Sched) && ops[|ops| - 1] == L.Give(L.Sched))
      && (L.Take(L.Mutex) !in ops ==> ks[n + 1].mutexes == ks[n].mutexes)
  {
    hide Inv, CallOk, PutFrame, Body, MidInv, Steady;
    RunStep(ks, es, n);
    FinishSafe(ks[n], es[n]);
    BodySafe(ks[n], es[n]);
    var ops, p := LockCalls(ks[n], es[n]), PlanOf(ks[n], es[n]);
    if L.Take(L.Mutex) !in ops {
      MutexFree(ks[n], es[n]);
      if p.Resched? {
        PlanMid(Stored(ks[n], es[n]), p, es[n].hart);
        SwitchMutexes(p.k, es[n].hart, es[n].sp, p.isTick);
      }
    }
    if ops == [] {
      assert es[n].mcause == 8 && es[n].frame[REG_A7] !in {1, 2, 3, 4, 5, 6, 7, 8} by { CauseKnown(ks[n], es[n]); }
      SimpleCalls(ks, es, n);
    }
  }

  lemma {:induction false} CauseKnown(k: Kernel, e: Event)
    requires e.Trap? && Enabled(k, e) && LockCalls(k, e) == []
    ensures e.mcause == 8 && e.frame[REG_A7] !in {1, 2, 3, 4, 5, 6, 7, 8}
  {
    hide CallOk, StackOk, PutFrame;
  }
}
