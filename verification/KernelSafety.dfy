/** Every trap keeps the invariant. */
module KernelSafety {
  import opened Tasks
  import opened PartitionScheduler
  import opened KernelState
  import opened KernelSteps
  import opened KernelInvariant

  // ---- Steps that leave every task table entry and mutex alone ----

  ghost predicate SameTables(k: Kernel, k': Kernel) {
    k'.scheds == k.scheds && k'.mutexes == k.mutexes && k'.stacks == k.stacks && k'.statics == k.statics
  }

  lemma {:induction false} SameTablesConsistent(k: Kernel, k': Kernel)
    requires Consistent(k) && SameTables(k, k')
    ensures Consistent(k') && Calm(k, k')
  {
    assert Calm(k, k');
    CalmKeeps(k, k', None);
  }

  lemma {:induction false} SameTablesKeep(k: Kernel, k': Kernel)
    requires Inv(k) && SameTables(k, k')
    ensures Inv(k')
  {
    SameTablesConsistent(k, k');
    CfgKept(k, k');
    forall t | Suspended(k', t) ensures InStack(k', t, TcbOf(k', t).savedSp) {
      assert Suspended(k, t);
    }
  }

  // ---- A task changes state ----

  /** The running task leaves Running for a state that blocks it. */
  lemma {:induction false} CurrentMid(k: Kernel, h: nat, st: TaskState)
    requires h < 2 && SchedOk(k.scheds[h]) && k.scheds[h].current != IDLE && Occ(k, CurTid(k, h))
    requires st != Ready && st != Running
    ensures SchedMid(SetState(k, CurTid(k, h), st).scheds[h])
  {
    var s, s' := k.scheds[h], SetState(k, CurTid(k, h), st).scheds[h];
    assert forall j, x :: 0 <= j < 32 && j != s.current ==> (StateIs(s', j, x) <==> StateIs(s, j, x));
    assert StateIs(s', s.current, st);
  }

  /** A task that is not current moves between blocked, terminated and Ready. */
  lemma {:induction false} OtherKept(k: Kernel, t: Tid, st: TaskState)
    requires Occ(k, t) && t.slot != IDLE && st != Running && SchedOk(k.scheds[t.hart])
    requires k.scheds[t.hart].current != t.slot || st == Terminated
    ensures SchedOk(SetState(k, t, st).scheds[t.hart])
  {
    var s, s' := k.scheds[t.hart], SetState(k, t, st).scheds[t.hart];
    assert forall j, x :: 0 <= j < 32 && j != t.slot ==> (StateIs(s', j, x) <==> StateIs(s, j, x));
    assert StateIs(s', t.slot, st);
  }

  lemma {:induction false} SetStateConfig(k: Kernel, t: Tid, st: TaskState)
    requires Occ(k, t)
    ensures SameConfig(k, SetState(k, t, st))
  {}

  lemma {:induction false} ConfigTrans(a: Kernel, b: Kernel, c: Kernel)
    requires SameConfig(a, b) && SameConfig(b, c)
    ensures SameConfig(a, c)
  {}

  lemma {:induction false} SteadyStacks(k: Kernel, k': Kernel)
    requires Steady(k, k') && StackInv(k) && Cfg(k)
    ensures StackInv(k') && Cfg(k')
  {
    CfgKept(k, k');
    forall t | Suspended(k', t) ensures t in k'.stacks && InStack(k', t, TcbOf(k', t).savedSp) {
      assert Suspended(k, t);
    }
  }

  lemma {:induction false} SteadyTrans(a: Kernel, b: Kernel, c: Kernel)
    requires Steady(a, b) && Steady(b, c)
    ensures Steady(a, c)
  {}

  lemma {:induction false} SteadyTables(k: Kernel, k1: Kernel, k2: Kernel)
    requires Steady(k, k1) && SameTables(k1, k2)
    ensures Steady(k, k2)
  {}

  lemma {:induction false} SetStateSteady(k: Kernel, t: Tid, st: TaskState)
    requires Occ(k, t) && (St(k, t) == Terminated ==> st == Terminated)
    ensures Steady(k, SetState(k, t, st))
  {}

  lemma {:induction false} SetMutexSteady(k: Kernel, m: nat, mx: KMutex)
    requires m < 8 && k.mutexes[m].Some?
    ensures Steady(k, SetMutex(k, m, mx))
  {}

  // ---- Syscalls 1, 2, 5 and the two interrupts ----

  /** A body that ends with consistent tables and waits. */
  lemma {:induction false} PlanFrom(k: Kernel, p: Plan, h: nat)
    requires h < 2 && Inv(k) && !p.Panic? && Steady(k, p.k) && Consistent(p.k)
    ensures PlanOk(k, p, h)
  {
    SteadyStacks(k, p.k);
    assert SchedOk(p.k.scheds[h]) && SchedOk(p.k.scheds[1 - h]);
  }

  lemma {:induction false} QuietSafe(k: Kernel, p: Plan, h: nat)
    requires h < 2 && Inv(k) && !p.Panic? && SameTables(k, p.k)
    ensures PlanOk(k, p, h)
  {
    SameTablesConsistent(k, p.k);
    PlanFrom(k, p, h);
  }

  /** The current task runs, and is not the idle task: it may block. */
  predicate Live(k: Kernel, h: nat)
    requires h < 2 && Occ(k, CurTid(k, h))
  {
    St(k, CurTid(k, h)) == Running && CurTid(k, h).slot != IDLE
  }

  /** The running task blocks in state `st`; what is left to show is that waits stay consistent. */
  lemma {:induction false} BlockSafe(k: Kernel, k1: Kernel, h: nat, st: TaskState)
    requires h < 2 && Inv(k) && Occ(k, CurTid(k, h)) && Live(k, h) && st != Ready && st != Running
    requires Steady(k, k1) && k1.scheds == SetState(k, CurTid(k, h), st).scheds
    requires MutexInv(k1, None) && IpcInv(k1)
    ensures PlanOk(k, Resched(k1, false), h)
  {
    CurrentMid(k, h, st);
    assert k1.scheds[1 - h] == k.scheds[1 - h];
    SteadyStacks(k, k1);
  }

  lemma {:induction false} SleepSafe(k: Kernel, h: nat, sp: int)
    requires h < 2 && Inv(k) && Occ(k, CurTid(k, h)) && Live(k, h)
    ensures PlanOk(k, Sleep(k, h, sp), h)
  {
    var st := Blocked(Wrap(k.tick + Reg(k.mem, sp, REG_A0)));
    SleepSteady(k, CurTid(k, h), st);
    CalmKeeps(k, Sleep(k, h, sp).k, None);
    BlockSafe(k, Sleep(k, h, sp).k, h, st);
  }

  lemma {:induction false} SleepSteady(k: Kernel, t: Tid, st: TaskState)
    requires Occ(k, t) && St(k, t) == Running && st.Blocked?
    ensures Steady(k, SetState(k, t, st)) && Calm(k, SetState(k, t, st))
  {}

  // ---- Timer ----

  lemma {:induction false} TickedEffect(k: Kernel, h: nat)
    requires h < 2 && SchedOk(k.scheds[h])
    ensures var k1 := Ticked(k, h);
      && SchedMid(k1.scheds[h]) && k1.scheds[1 - h] == k.scheds[1 - h] && Steady(k, k1) && Calm(k, k1)
      && forall t :: Occ(k, t) ==>
           TcbOf(k1, t) == if t.hart == h && St(k, t).Blocked? && Wrap(k.tick + 1) >= St(k, t).wakeTick
                           then TcbOf(k, t).(state := Ready) else TcbOf(k, t)
  {
    var k1 := Ticked(k, h);
    var s, s1, tick := k.scheds[h], k1.scheds[h], k1.tick;
    assert forall i :: 0 <= i < 32 ==> s1.table[i] == Wake(s.table[i], tick);
    assert forall i :: 0 <= i < 32 ==> (StateIs(s1, i, Running) <==> StateIs(s, i, Running));
    assert ReadyAt(s, IDLE) ==> ReadyAt(s1, IDLE);
    assert s1.table[s.current] == s.table[s.current];
    TickedTasks(k, h);
  }

  lemma {:induction false} TickedTasks(k: Kernel, h: nat)
    requires h < 2
    ensures var k1 := Ticked(k, h);
      && (forall t :: Occ(k1, t) <==> Occ(k, t))
      && forall t :: Occ(k, t) ==>
           TcbOf(k1, t) == if t.hart == h && St(k, t).Blocked? && Wrap(k.tick + 1) >= St(k, t).wakeTick
                           then TcbOf(k, t).(state := Ready) else TcbOf(k, t)
  {
    var k1 := Ticked(k, h);
    var s, s1, tick := k.scheds[h], k1.scheds[h], k1.tick;
    assert forall i :: 0 <= i < 32 ==> s1.table[i] == Wake(s.table[i], tick);
  }

  lemma {:induction false} TickedWaits(k: Kernel, h: nat)
    requires h < 2 && SchedOk(k.scheds[h]) && MutexInv(k, None) && IpcInv(k)
    ensures MutexInv(Ticked(k, h), None) && IpcInv(Ticked(k, h))
  {
    TickedEffect(k, h);
    CalmKeeps(k, Ticked(k, h), None);
  }

  lemma {:induction false} TimerSafe(k: Kernel, h: nat)
    requires h < 2 && Inv(k)
    ensures PlanOk(k, Resched(Ticked(k, h), true), h)
  {
    assert SchedOk(k.scheds[h]) && SchedOk(k.scheds[1 - h]);
    TickedEffect(k, h);
    TickedWaits(k, h);
    SteadyStacks(k, Ticked(k, h));
  }

  // ---- Mutex primitives ----

  lemma {:induction false} GrantKeeps(k: Kernel, m: nat, mx: KMutex, t: Tid)
    requires Cfg(k) && MutexInv(k, None) && m < 8 && k.mutexes[m] == Some(mx) && !mx.locked
    requires Occ(k, t) && CanLock(k, t, m) && St(k, t) == Running
    ensures MutexInv(GrantFree(k, m, mx, t), None)
  {
    var k' := GrantFree(k, m, mx, t);
    LockerIsHome(k, t, m);
    LockRightsKept(k, k');
    forall u | Occ(k', u) ensures WaiterOk(k', u) {
      assert WaiterOk(k, u);
    }
    forall i | 0 <= i < 8 ensures MutexOk(k', i, None) {
      assert MutexOk(k, i, None);
    }
  }

  lemma {:induction false} BlockOnKeeps(k: Kernel, m: nat, mx: KMutex, t: Tid)
    requires Cfg(k) && MutexInv(k, None) && m < 8 && k.mutexes[m] == Some(mx) && mx.locked
    requires mx.owner != Some(t.slot)
    requires Occ(k, t) && CanLock(k, t, m) && St(k, t) == Running
    ensures MutexInv(BlockOn(k, m, mx, t), None)
  {
    hide WaiterOk, MutexOk;
    var k' := BlockOn(k, m, mx, t);
    LockerIsHome(k, t, m);
    assert SameConfig(k, k');
    LockRightsKept(k, k');
    forall u | Occ(k', u) ensures WaiterOk(k', u) {
      assert WaiterOk(k, u);
      BlockOnWaiter(k, m, mx, t, u);
    }
    forall i | 0 <= i < 8 ensures MutexOk(k', i, None) {
      assert MutexOk(k, i, None);
      BlockOnMutex(k, m, mx, t, i);
    }
  }

  lemma {:induction false} BlockOnWaiter(k: Kernel, m: nat, mx: KMutex, t: Tid, u: Tid)
    requires m < 8 && k.mutexes[m] == Some(mx) && Occ(k, t) && CanLock(k, t, m) && t == Home(t.slot)
    requires Occ(k, u) && WaiterOk(k, u) && SameConfig(k, BlockOn(k, m, mx, t))
    ensures WaiterOk(BlockOn(k, m, mx, t), u)
  {
    LockRightsKept(k, BlockOn(k, m, mx, t));
  }

  lemma {:induction false} BlockOnMutex(k: Kernel, m: nat, mx: KMutex, t: Tid, i: nat)
    requires m < 8 && k.mutexes[m] == Some(mx) && mx.locked && mx.owner != Some(t.slot) && t == Home(t.slot)
    requires Occ(k, t) && St(k, t) == Running && i < 8 && MutexOk(k, i, None) && SameConfig(k, BlockOn(k, m, mx, t))
    ensures MutexOk(BlockOn(k, m, mx, t), i, None)
  {
    LockRightsKept(k, BlockOn(k, m, mx, t));
  }

  lemma {:induction false} HandOverKeeps(k: Kernel, m: nat, mx: KMutex, w: nat, dead: Option<nat>)
    requires MutexInv(k, dead) && m < 8 && k.mutexes[m] == Some(mx) && w in mx.waiters
    ensures Occ(k, Home(w)) && St(k, Home(w)) == BlockedOnMutex(m)
    ensures MutexInv(HandOver(k, m, mx, w), dead)
  {
    var k' := HandOver(k, m, mx, w);
    assert MutexOk(k, m, dead);
    assert SameConfig(k, k');
    LockRightsKept(k, k');
    assert WaiterOk(k, Home(w));
    forall u | Occ(k', u) ensures WaiterOk(k', u) {
      assert WaiterOk(k, u);
    }
    forall i | 0 <= i < 8 ensures MutexOk(k', i, dead) {
      HandOverKeepsOne(k, m, mx, w, dead, i);
    }
  }

  lemma {:induction false} HandOverKeepsOne(k: Kernel, m: nat, mx: KMutex, w: nat, dead: Option<nat>, i: nat)
    requires m < 8 && i < 8 && k.mutexes[m] == Some(mx) && w in mx.waiters
    requires MutexOk(k, m, dead) && MutexOk(k, i, dead) && WaiterOk(k, Home(w))
    ensures MutexOk(HandOver(k, m, mx, w), i, dead)
  {
    var k' := HandOver(k, m, mx, w);
    assert SameConfig(k, k');
    LockRightsKept(k, k');
    if i == m {
      assert OwnerOk(k', m, w);
    } else {
      assert k'.mutexes[i] == k.mutexes[i];
    }
  }

  lemma {:induction false} ReleaseKeeps(k: Kernel, m: nat, mx: KMutex, dead: Option<nat>)
    requires MutexInv(k, dead) && m < 8 && k.mutexes[m] == Some(mx) && mx.waiters == {}
    ensures MutexInv(Release(k, m, mx), dead)
  {
    var k' := Release(k, m, mx);
    assert SameConfig(k, k');
    LockRightsKept(k, k');
    forall u | Occ(k', u) ensures WaiterOk(k', u) {
      assert WaiterOk(k, u);
    }
    forall i | 0 <= i < 8 ensures MutexOk(k', i, dead) {
      assert MutexOk(k, i, dead);
    }
  }

  // ---- The waiter scan ----

  lemma {:induction false} NoWaiterIffNone(k: Kernel, ws: set<nat>, n: nat)
    ensures HighestWaiter(k, ws, n) == None <==> forall w :: w in ws ==> w >= n
  {
    if n > 0 { NoWaiterIffNone(k, ws, n - 1); }
  }

  lemma {:induction false} HighestBelow(k: Kernel, ws: set<nat>, n: nat)
    requires forall w :: w in ws ==> Priority(k, w) == w
    ensures HighestWaiter(k, ws, n).Some? ==> forall w :: w in ws && w < n ==> HighestWaiter(k, ws, n).value <= w
  {
    if n > 0 {
      HighestBelow(k, ws, n - 1);
      NoWaiterIffNone(k, ws, n - 1);
    }
  }

  /** Because slot equals priority, the scan by priority returns the lowest waiting slot. */
  lemma {:induction false} HighestIsLowest(k: Kernel, ws: set<nat>, b: nat)
    requires Cfg(k) && forall w :: w in ws ==> w < 32 && Occ(k, Home(w))
    ensures HighestWaiter(k, ws, 32) == None <==> ws == {}
    ensures HighestWaiter(k, ws, 32) == Some(b) <==> b in ws && forall w :: w in ws ==> b <= w
  {
    assert forall w :: w in ws ==> Priority(k, w) == w;
    HighestBelow(k, ws, 32);
    NoWaiterIffNone(k, ws, 32);
  }

  // ---- Syscall 3 ----

  lemma {:induction false} LockTargetRight(k: Kernel, h: nat, sp: int)
    requires h < 2 && Cfg(k) && Occ(k, CurTid(k, h)) && LockTarget(k, h, sp).Some?
    ensures var m := LockTarget(k, h, sp).value; m < 8 && CanLock(k, CurTid(k, h), m)
  {
    var c := NamedCap(k, h, sp);
    assert MutexCapPlaced(k, CurTid(k, h));
    assert Holds(k, CurTid(k, h), c);
  }

  lemma {:induction false} LockSafe(k: Kernel, h: nat, sp: int)
    requires h < 2 && Inv(k) && Occ(k, CurTid(k, h))
    requires LockFinds(k, h, sp, false) ==> St(k, CurTid(k, h)) == Running
    requires LockFinds(k, h, sp, true) ==> Live(k, h)
    requires OwnsNot(k, LockTarget(k, h, sp), CurTid(k, h).slot)
    ensures PlanOk(k, Lock(k, h, sp), h)
  {
    if LockTarget(k, h, sp).Some? { LockTargetRight(k, h, sp); }
    if LockTarget(k, h, sp).None? || k.mutexes[LockTarget(k, h, sp).value].None? {
      QuietSafe(k, Lock(k, h, sp), h);
    } else {
      var m := LockTarget(k, h, sp).value;
      var mx := k.mutexes[m].value;
      if !mx.locked { GrantSafe(k, h, m, mx, CurTid(k, h), sp); } else { LockBlockSafe(k, h, m, mx); }
    }
  }

  predicate OwnsNot(k: Kernel, m: Option<nat>, slot: nat) {
    m.Some? && m.value < 8 && k.mutexes[m.value].Some? ==> k.mutexes[m.value].value.owner != Some(slot)
  }

  lemma {:induction false} GrantSafe(k: Kernel, h: nat, m: nat, mx: KMutex, t: Tid, sp: int)
    requires h < 2 && Inv(k) && m < 8 && k.mutexes[m] == Some(mx) && !mx.locked
    requires Occ(k, t) && CanLock(k, t, m) && St(k, t) == Running
    ensures PlanOk(k, Return(SetA0(GrantFree(k, m, mx, t), sp, 0)), h)
  {
    var k1 := GrantFree(k, m, mx, t);
    GrantKeeps(k, m, mx, t);
    SetMutexSteady(k, m, k1.mutexes[m].value);
    IpcKept(k, k1);
    var k2 := SetA0(k1, sp, 0);
    SameTablesConsistent(k1, k2);
    SteadyTables(k, k1, k2);
    PlanFrom(k, Return(k2), h);
  }

  lemma {:induction false} LockBlockSafe(k: Kernel, h: nat, m: nat, mx: KMutex)
    requires h < 2 && Inv(k) && Occ(k, CurTid(k, h)) && Live(k, h)
    requires m < 8 && k.mutexes[m] == Some(mx) && mx.locked && mx.owner != Some(CurTid(k, h).slot)
    requires CanLock(k, CurTid(k, h), m)
    ensures PlanOk(k, Resched(BlockOn(k, m, mx, CurTid(k, h)), false), h)
  {
    hide MutexInv, IpcInv, CanLock;
    var t := CurTid(k, h);
    var k1 := BlockOn(k, m, mx, t);
    BlockOnKeeps(k, m, mx, t);
    assert Steady(k, k1);
    IpcKept(k, k1);
    BlockSafe(k, k1, h, BlockedOnMutex(m));
  }

  // ---- Syscall 4 ----

  /** Waking a task that waits disturbs no scheduler. */
  lemma {:induction false} WakeKeepsScheds(k: Kernel, t: Tid)
    requires Occ(k, t) && SchedsOk(k)
    requires St(k, t).BlockedOnMutex? || St(k, t).BlockedOnIpcSend? || St(k, t).BlockedOnIpcRecv?
    ensures SchedsOk(SetState(k, t, Ready)) && Steady(k, SetState(k, t, Ready))
  {
    OtherKept(k, t, Ready);
    SetStateSteady(k, t, Ready);
  }

  lemma {:induction false} HandOverSafe(k: Kernel, m: nat, mx: KMutex, w: nat)
    requires Consistent(k) && m < 8 && k.mutexes[m] == Some(mx) && w in mx.waiters
    ensures var k1 := HandOver(k, m, mx, w); Occ(k, Home(w)) && Steady(k, k1) && Consistent(k1)
  {
    var k1 := HandOver(k, m, mx, w);
    HandOverKeeps(k, m, mx, w, None);
    WakeKeepsScheds(k, Home(w));
    assert k1.scheds == SetState(k, Home(w), Ready).scheds;
    IpcKept(k, k1);
  }

  lemma {:induction false} ReleaseSafe(k: Kernel, m: nat, mx: KMutex)
    requires Consistent(k) && m < 8 && k.mutexes[m] == Some(mx) && mx.waiters == {}
    ensures var k1 := Release(k, m, mx); Steady(k, k1) && Consistent(k1)
  {
    ReleaseKeeps(k, m, mx, None);
    IpcKept(k, Release(k, m, mx));
  }

  lemma {:induction false} UnlockedKeeps(k: Kernel, h: nat, m: nat, mx: KMutex)
    requires h < 2 && Consistent(k) && m < 8 && k.mutexes[m] == Some(mx)
    ensures Unlocked(k, h, m, mx).Some?
    ensures var k1 := Unlocked(k, h, m, mx).value; Steady(k, k1) && Consistent(k1)
  {
    assert MutexOk(k, m, None);
    NoWaiterIffNone(k, mx.waiters, 32);
    match HighestWaiter(k, mx.waiters, 32)
    case None =>
      ReleaseSafe(k, m, mx);
    case Some(w) =>
      HandOverSafe(k, m, mx, w);
      var k1, k2 := HandOver(k, m, mx, w), Unlocked(k, h, m, mx).value;
      assert SameTables(k1, k2);
      SameTablesConsistent(k1, k2);
      SteadyTables(k, k1, k2);
  }

  predicate OwnsIfPresent(k: Kernel, m: Option<nat>, slot: nat) {
    m.Some? && m.value < 8 && k.mutexes[m.value].Some? ==> k.mutexes[m.value].value.owner == Some(slot)
  }

  lemma {:induction false} UnlockSafe(k: Kernel, h: nat, sp: int)
    requires h < 2 && Inv(k) && Occ(k, CurTid(k, h))
    requires OwnsIfPresent(k, UnlockTarget(k, h, sp), CurTid(k, h).slot)
    ensures PlanOk(k, Unlock(k, h, sp), h)
  {
    if UnlockTarget(k, h, sp).Some? {
      assert MutexCapPlaced(k, CurTid(k, h));
    }
    if UnlockTarget(k, h, sp).None? || k.mutexes[UnlockTarget(k, h, sp).value].None? {
      QuietSafe(k, Unlock(k, h, sp), h);
    } else {
      var m := UnlockTarget(k, h, sp).value;
      UnlockHeldSafe(k, h, sp, m, k.mutexes[m].value);
    }
  }

  lemma {:induction false} UnlockHeldSafe(k: Kernel, h: nat, sp: int, m: nat, mx: KMutex)
    requires h < 2 && Inv(k) && m < 8 && k.mutexes[m] == Some(mx)
    ensures Unlocked(k, h, m, mx).Some?
    ensures PlanOk(k, Resched(SetA0(Unlocked(k, h, m, mx).value, sp, 0), false), h)
  {
    UnlockedKeeps(k, h, m, mx);
    var k1 := Unlocked(k, h, m, mx).value;
    var k2 := SetA0(k1, sp, 0);
    SameTablesConsistent(k1, k2);
    SteadyTables(k, k1, k2);
    PlanFrom(k, Resched(k2, false), h);
  }
}
