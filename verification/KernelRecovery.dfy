/** Termination, mutex recovery, fault containment and restart keep the invariant. */
module RecoverySafety {
  import opened Tasks
  import opened PartitionScheduler
  import opened KernelState
  import opened KernelSteps
  import opened KernelInvariant
  import opened KernelSafety

  // ---- Recovery of the mutexes of a terminated task ----

  /** What recovery may do to tasks: waiters become Ready, nothing else. */
  ghost predicate OnlyWakes(k: Kernel, k': Kernel) {
    && Steady(k, k')
    && k' == k.(scheds := k'.scheds, mutexes := k'.mutexes)
    && (forall h :: 0 <= h < 2 ==> k'.scheds[h] == k.scheds[h].(table := k'.scheds[h].table))
    && (forall t :: Occ(k, t) ==>
          (TcbOf(k', t) == TcbOf(k, t) || (St(k, t).BlockedOnMutex? && TcbOf(k', t) == TcbOf(k, t).(state := Ready))))
  }

  lemma {:induction false} OnlyWakesTrans(a: Kernel, b: Kernel, c: Kernel)
    requires OnlyWakes(a, b) && OnlyWakes(b, c)
    ensures OnlyWakes(a, c)
  {}

  lemma {:induction false} OnlyWakesScheds(k: Kernel, k': Kernel, h: nat)
    requires h < 2 && OnlyWakes(k, k')
    ensures SchedMid(k.scheds[h]) && !St(k, CurTid(k, h)).BlockedOnMutex? ==> SchedMid(k'.scheds[h])
    ensures SchedOk(k.scheds[h]) ==> SchedOk(k'.scheds[h])
  {
    var s, s' := k.scheds[h], k'.scheds[h];
    forall i | 0 <= i < 32
      ensures s'.table[i].Some? == s.table[i].Some?
      ensures s.table[i].Some? ==>
        (s'.table[i] == s.table[i] || (s.table[i].value.state.BlockedOnMutex? && ReadyAt(s', i)))
    {
      assert Occ(k, Tid(h, i)) <==> Occ(k', Tid(h, i));
      if Occ(k, Tid(h, i)) { assert TcbOf(k, Tid(h, i)) == s.table[i].value; }
    }
    assert forall i :: 0 <= i < 32 ==> (StateIs(s', i, Running) <==> StateIs(s, i, Running));
    assert ReadyAt(s, IDLE) ==> ReadyAt(s', IDLE);
  }

  lemma {:induction false} HandOverWakes(k: Kernel, m: nat, mx: KMutex, w: nat)
    requires m < 8 && k.mutexes[m].Some? && Occ(k, Home(w)) && St(k, Home(w)) == BlockedOnMutex(m)
    ensures OnlyWakes(k, HandOver(k, m, mx, w))
  {}

  lemma {:induction false} ReleaseWakes(k: Kernel, m: nat, mx: KMutex)
    requires m < 8 && k.mutexes[m].Some?
    ensures OnlyWakes(k, Release(k, m, mx))
  {}

  lemma {:induction false} RecoverOneKeeps(k: Kernel, m: nat, dead: nat)
    requires m < 8 && MutexInv(k, Some(dead))
    requires Occ(k, Home(dead)) ==> !St(k, Home(dead)).BlockedOnMutex?
    ensures var k' := RecoverOne(k, m, dead);
      && MutexInv(k', Some(dead)) && OnlyWakes(k, k')
      && (k'.mutexes[m].Some? ==> k'.mutexes[m].value.owner != Some(dead))
      && (forall i :: 0 <= i < 8 && i != m ==> k'.mutexes[i] == k.mutexes[i])
  {
    if k.mutexes[m].Some? && k.mutexes[m].value.owner == Some(dead) {
      var mx := k.mutexes[m].value;
      assert forall w :: w in mx.waiters ==> w < 32 by { assert MutexOk(k, m, Some(dead)); }
      NoWaiterIffNone(k, mx.waiters, 32);
      match HighestWaiter(k, mx.waiters, 32)
      case None =>
        ReleaseKeeps(k, m, mx, Some(dead));
        ReleaseWakes(k, m, mx);
      case Some(w) =>
        HandOverKeeps(k, m, mx, w, Some(dead));
        HandOverWakes(k, m, mx, w);
    }
  }

  /** After recovery the terminated slot owns nothing and every other task is at most woken. */
  lemma {:induction false} RecoverKeeps(k: Kernel, m: nat, dead: nat)
    requires m <= 8 && MutexInv(k, Some(dead))
    requires Occ(k, Home(dead)) ==> !St(k, Home(dead)).BlockedOnMutex?
    requires forall i :: 0 <= i < m && k.mutexes[i].Some? ==> k.mutexes[i].value.owner != Some(dead)
    ensures var k' := RecoverFrom(k, m, dead);
      && MutexInv(k', Some(dead)) && OnlyWakes(k, k')
      && (forall i :: 0 <= i < 8 && k'.mutexes[i].Some? ==> k'.mutexes[i].value.owner != Some(dead))
    decreases 8 - m
  {
    if m < 8 {
      RecoverOneKeeps(k, m, dead);
      var k1 := RecoverOne(k, m, dead);
      RecoverKeeps(k1, m + 1, dead);
      OnlyWakesTrans(k, k1, RecoverFrom(k1, m + 1, dead));
    }
  }

  lemma {:induction false} TerminatedKeeps(k: Kernel, t: Tid)
    requires Occ(k, t) && Consistent(k) && !St(k, t).BlockedOnMutex?
    ensures var k1 := SetState(k, t, Terminated); MutexInv(k1, Some(t.slot)) && IpcInv(k1) && Steady(k, k1)
  {
    var k1 := SetState(k, t, Terminated);
    SetStateSteady(k, t, Terminated);
    LockRightsKept(k, k1);
    forall u | Occ(k1, u) ensures WaiterOk(k1, u) {
      assert WaiterOk(k, u);
    }
    forall m | 0 <= m < 8 ensures MutexOk(k1, m, Some(t.slot)) {
      TerminatedKeepsOne(k, t, m);
    }
    IpcKept(k, k1);
  }

  lemma {:induction false} TerminatedKeepsOne(k: Kernel, t: Tid, m: nat)
    requires Occ(k, t) && !St(k, t).BlockedOnMutex? && m < 8 && MutexOk(k, m, None)
    ensures MutexOk(SetState(k, t, Terminated), m, Some(t.slot))
  {
    LockRightsKept(k, SetState(k, t, Terminated));
  }

  /** Nobody on the other hart shares a slot with a mutex waiter. */
  lemma {:induction false} DeadDoesNotWait(k: Kernel, t: Tid)
    requires Cfg(k) && MutexInv(k, None) && Occ(k, t) && !St(k, t).BlockedOnMutex?
    ensures Occ(k, Home(t.slot)) ==> !St(k, Home(t.slot)).BlockedOnMutex?
  {
    var u := Home(t.slot);
    if Occ(k, u) && St(k, u).BlockedOnMutex? {
      assert WaiterOk(k, u);
      LockerIsHome(k, u, St(k, u).mutexIdx);
    }
  }

  lemma {:induction false} NobodyDead(k: Kernel, dead: nat)
    requires MutexInv(k, Some(dead))
    requires forall i :: 0 <= i < 8 && k.mutexes[i].Some? ==> k.mutexes[i].value.owner != Some(dead)
    ensures MutexInv(k, None)
  {
    forall m | 0 <= m < 8 ensures MutexOk(k, m, None) {
      assert MutexOk(k, m, Some(dead));
    }
  }

  // ---- A task is killed ----

  lemma {:induction false} KilledKeeps(k: Kernel, t: Tid)
    requires Occ(k, t) && Consistent(k) && Cfg(k) && !St(k, t).BlockedOnMutex?
    ensures var k1, k2 := SetState(k, t, Terminated), Killed(k, t);
      && MutexInv(k2, None) && IpcInv(k2) && OnlyWakes(k1, k2) && Steady(k, k2)
      && (forall i :: 0 <= i < 8 && k2.mutexes[i].Some? ==> k2.mutexes[i].value.owner != Some(t.slot))
  {
    hide MutexInv, IpcInv, Cfg, SchedsOk, RecoverFrom;
    var k1, k2 := SetState(k, t, Terminated), Killed(k, t);
    TerminatedKeeps(k, t);
    DeadDoesNotWait(k, t);
    RecoverKeeps(k1, 0, t.slot);
    NobodyDead(k2, t.slot);
    SteadyTrans(k, k1, k2);
    IpcKept(k1, k2);
  }

  /** Exactly who changes when `t` is killed: `t` itself, and waiters that become Ready. */
  lemma {:induction false} KilledStates(k: Kernel, t: Tid)
    requires Occ(k, t) && Consistent(k) && Cfg(k) && !St(k, t).BlockedOnMutex?
    ensures var k2 := Killed(k, t);
      && SameConfig(k, k2) && k2 == k.(scheds := k2.scheds, mutexes := k2.mutexes)
      && TcbOf(k2, t) == TcbOf(k, t).(state := Terminated)
      && (forall u :: Occ(k, u) && u != t ==>
            (TcbOf(k2, u) == TcbOf(k, u) || (St(k, u).BlockedOnMutex? && TcbOf(k2, u) == TcbOf(k, u).(state := Ready))))
  {
    KilledKeeps(k, t);
  }

  lemma {:induction false} KillCurrentScheds(k: Kernel, h: nat)
    requires h < 2 && Inv(k) && Occ(k, CurTid(k, h)) && CurTid(k, h).slot != IDLE
    ensures var kk := Killed(k, CurTid(k, h)); SchedMid(kk.scheds[h]) && SchedOk(kk.scheds[1 - h])
  {
    var t := CurTid(k, h);
    var k1, kk := SetState(k, t, Terminated), Killed(k, t);
    KilledKeeps(k, t);
    CurrentMid(k, h, Terminated);
    OnlyWakesScheds(k1, kk, h);
    assert k1.scheds[1 - h] == k.scheds[1 - h];
    OnlyWakesScheds(k1, kk, 1 - h);
  }

  /** The running task is killed: faults, and syscall 8 on oneself. */
  lemma {:induction false} KillCurrentSafe(k: Kernel, k2: Kernel, h: nat)
    requires h < 2 && Inv(k) && Occ(k, CurTid(k, h))
    requires CurTid(k, h).slot != IDLE && SameTables(Killed(k, CurTid(k, h)), k2)
    ensures PlanOk(k, Resched(k2, false), h)
  {
    var kk := Killed(k, CurTid(k, h));
    KilledKeeps(k, CurTid(k, h));
    KillCurrentScheds(k, h);
    CalmKeeps(kk, k2, None);
    SteadyTables(k, kk, k2);
    SteadyStacks(k, k2);
  }

  /** A task other than the caller is killed; its hart reschedules later. */
  lemma {:induction false} KillOtherSafe(k: Kernel, k2: Kernel, h: nat, t: Tid)
    requires h < 2 && Inv(k) && Occ(k, t) && t.slot != IDLE && !St(k, t).BlockedOnMutex?
    requires SameTables(Killed(k, t), k2)
    ensures PlanOk(k, Return(k2), h)
  {
    var k1, kk := SetState(k, t, Terminated), Killed(k, t);
    KilledKeeps(k, t);
    OtherKept(k, t, Terminated);
    OnlyWakesScheds(k1, kk, 0);
    OnlyWakesScheds(k1, kk, 1);
    SameTablesConsistent(kk, k2);
    SteadyTables(k, kk, k2);
    PlanFrom(k, Return(k2), h);
  }

  // ---- Syscall 8 and contained faults ----

  predicate MayTerminate(k: Kernel, slot: nat) {
    slot != IDLE && (Named(k, slot).Some? ==> !St(k, Named(k, slot).value).BlockedOnMutex?)
  }

  lemma {:induction false} TerminateSafe(k: Kernel, h: nat, sp: int)
    requires h < 2 && Inv(k) && Occ(k, CurTid(k, h))
    requires MayTerminate(k, Reg(k.mem, sp, REG_A0))
    ensures PlanOk(k, Terminate(k, h, sp), h)
  {
    match Named(k, Reg(k.mem, sp, REG_A0))
    case None => QuietSafe(k, Terminate(k, h, sp), h);
    case Some(t) =>
      if t == CurTid(k, h) {
        KillCurrentSafe(k, Terminate(k, h, sp).k, h);
      } else {
        KillOtherSafe(k, Terminate(k, h, sp).k, h, t);
      }
  }

  lemma {:induction false} FaultSafe(k: Kernel, h: nat)
    requires h < 2 && Inv(k) && Occ(k, CurTid(k, h)) && CurTid(k, h).slot != IDLE
    ensures PlanOk(k, Fault(k, h), h)
  {
    KillCurrentSafe(k, Killed(k, CurTid(k, h)), h);
  }

  // ---- Watchdog restart ----

  lemma {:induction false} RestartSafe(k: Kernel, t: Tid, entry: Word)
    requires Inv(k) && Occ(k, t) && St(k, t) == Terminated && k.scheds[t.hart].current != t.slot
    ensures Inv(Restarted(k, t, entry))
  {
    var k' := Restarted(k, t, entry);
    assert SchedOk(k.scheds[t.hart]);
    assert SameConfig(k, k');
    CfgKept(k, k');
    MutexesKept(k, k', None);
    IpcKept(k, k');
    RestartScheds(k, t, entry);
    RestartStacks(k, t, entry);
  }

  lemma {:induction false} RestartScheds(k: Kernel, t: Tid, entry: Word)
    requires SchedsOk(k) && Occ(k, t) && t in k.stacks && k.scheds[t.hart].current != t.slot && t.slot != IDLE
    ensures SchedsOk(Restarted(k, t, entry))
  {
    var s, s' := k.scheds[t.hart], Restarted(k, t, entry).scheds[t.hart];
    assert forall j, x :: 0 <= j < 32 && j != t.slot ==> (StateIs(s', j, x) <==> StateIs(s, j, x));
    assert StateIs(s', t.slot, Ready);
  }

  lemma {:induction false} RestartStacks(k: Kernel, t: Tid, entry: Word)
    requires Cfg(k) && StackInv(k) && Occ(k, t)
    ensures StackInv(Restarted(k, t, entry))
  {
    var k' := Restarted(k, t, entry);
    forall u | Suspended(k', u) ensures u in k'.stacks && InStack(k', u, TcbOf(k', u).savedSp) {
      if u != t { assert Suspended(k, u); }
    }
  }
}
