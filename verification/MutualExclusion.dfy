/** Mutual exclusion over all two-hart runs, stated from what tasks observe. */
module MutualExclusion {
  import opened Tasks
  import opened PartitionScheduler
  import opened KernelState
  import opened KernelSteps
  import opened KernelInvariant
  import opened KernelSafety
  import opened RecoverySafety
  import opened Machine
  import opened Timing

  function OwnerOf(k: Kernel, m: nat): (t: Option<Tid>) {
    if m < 8 && k.mutexes[m].Some? && k.mutexes[m].value.owner.Some?
    then Some(Home(k.mutexes[m].value.owner.value)) else None
  }

  // ---- What a task can observe ----

  /** The interrupted task called syscall `id` naming mutex `m` through its capability table. */
  ghost predicate CallsOn(k: Kernel, e: Event, t: Tid, id: Word, m: nat) {
    && IsCall(e, id) && e.hart < 2 && t == CurTid(k, e.hart) && Occ(k, t) && e.frame[REG_A0] < 8
    && TcbOf(k, t).capabilities[e.frame[REG_A0]].MutexCap?
    && TcbOf(k, t).capabilities[e.frame[REG_A0]].mutexIdx == m
  }

  /** The call came back to the task with result 0. */
  ghost predicate LockReturned(k: Kernel, e: Event, k': Kernel, t: Tid, m: nat) {
    CallsOn(k, e, t, 3, m) && CurTid(k', e.hart) == t && Reg(k'.mem, e.sp, REG_A0) == 0
  }

  ghost predicate UnlockReturned(k: Kernel, e: Event, k': Kernel, t: Tid, m: nat) {
    CallsOn(k, e, t, 4, m) && Reg(k'.mem, e.sp, REG_A0) == 0
  }

  /** A task starts to believe it holds `m` when its lock call returns 0 or it is woken from waiting on
      `m`; it stops when its unlock call returns 0 or it is terminated. */
  ghost predicate BeliefAfter(b: bool, k: Kernel, k': Kernel, t: Tid, m: nat, locked: bool, unlocked: bool)
    requires Occ(k, t) && Occ(k', t)
  {
    if St(k', t) == Terminated then false
    else if St(k, t) == BlockedOnMutex(m) && St(k', t) != BlockedOnMutex(m) then true
    else if locked then true
    else if unlocked then false
    else b
  }

  /** Task `t` believes it holds `m` after the first `n` events, nobody holding anything at the start. */
  ghost predicate Believes(ks: seq<Kernel>, es: seq<Event>, t: Tid, m: nat, n: nat)
    requires |ks| == |es| + 1 && n <= |es|
  {
    && n > 0 && Occ(ks[n - 1], t) && Occ(ks[n], t)
    && BeliefAfter(Believes(ks, es, t, m, n - 1), ks[n - 1], ks[n], t, m,
         LockReturned(ks[n - 1], es[n - 1], ks[n], t, m), UnlockReturned(ks[n - 1], es[n - 1], ks[n], t, m))
  }

  // ---- Handler bodies against the record of ownership ----

  /** The recorded owner moves exactly as the observations say. */
  ghost predicate Tracks(k: Kernel, k1: Kernel, t: Tid, m: nat, locked: bool, unlocked: bool)
    requires Occ(k, t) && Occ(k1, t)
  {
    BeliefAfter(OwnerOf(k, m) == Some(t), k, k1, t, m, locked, unlocked) <==> OwnerOf(k1, m) == Some(t)
  }

  lemma {:induction false} TerminatedOwnsNothing(k: Kernel, t: Tid, m: nat)
    requires MutexInv(k, None) && Occ(k, t) && St(k, t) == Terminated
    ensures OwnerOf(k, m) != Some(t)
  {
    if m < 8 { assert MutexOk(k, m, None); }
  }

  lemma {:induction false} WaiterOwnsNot(k: Kernel, t: Tid, m: nat)
    requires MutexInv(k, None) && Occ(k, t) && St(k, t) == BlockedOnMutex(m)
    ensures OwnerOf(k, m) != Some(t)
  {
    if m < 8 { assert MutexOk(k, m, None); }
  }

  lemma {:induction false} UntouchedTracks(k: Kernel, k1: Kernel, t: Tid, m: nat)
    requires MutexInv(k1, None) && Occ(k, t) && Occ(k1, t) && k1.mutexes == k.mutexes
    requires St(k, t) == BlockedOnMutex(m) ==> St(k1, t) == BlockedOnMutex(m) || St(k1, t) == Terminated
    ensures Tracks(k, k1, t, m, false, false)
  {
    if St(k1, t) == Terminated { TerminatedOwnsNothing(k1, t, m); }
  }

  lemma {:induction false} GrantTracks(k: Kernel, k1: Kernel, m0: nat, mx: KMutex, c: Tid, t: Tid, m: nat)
    requires MutexInv(k, None) && Occ(k, t) && Occ(k1, t) && St(k1, t) == St(k, t)
    requires m0 < 8 && k.mutexes[m0] == Some(mx) && !mx.locked && c == Home(c.slot) && Occ(k, c) && St(k, c) == Running
    requires k1.mutexes == GrantFree(k, m0, mx, c).mutexes
    ensures Tracks(k, k1, t, m, t == c && m == m0, false)
  {
    assert MutexOk(k, m0, None);
    if St(k, t) == Terminated { TerminatedOwnsNothing(k, t, m); }
  }

  lemma {:induction false} BlockTracks(k: Kernel, k1: Kernel, m0: nat, mx: KMutex, c: Tid, t: Tid, m: nat)
    requires MutexInv(k, None) && Occ(k, c) && Occ(k, t) && St(k, c) == Running
    requires m0 < 8 && k.mutexes[m0] == Some(mx) && SameTables(BlockOn(k, m0, mx, c), k1)
    ensures Occ(k1, t) && Tracks(k, k1, t, m, false, false)
  {
    if St(k, t) == Terminated { TerminatedOwnsNothing(k, t, m); }
  }

  lemma {:induction false} ReleaseTracks(k: Kernel, k1: Kernel, m0: nat, mx: KMutex, c: Tid, t: Tid, m: nat)
    requires MutexInv(k, None) && Occ(k, t) && Occ(k1, t) && St(k1, t) == St(k, t)
    requires m0 < 8 && k.mutexes[m0] == Some(mx) && mx.owner == Some(c.slot) && c == Home(c.slot)
    requires k1.mutexes == Release(k, m0, mx).mutexes
    ensures Tracks(k, k1, t, m, false, t == c && m == m0)
  {
    if St(k, t) == Terminated { TerminatedOwnsNothing(k, t, m); }
  }

  lemma {:induction false} HandOverTracks(k: Kernel, k1: Kernel, m0: nat, mx: KMutex, c: Tid, w: nat, t: Tid, m: nat)
    requires MutexInv(k, None) && Occ(k, t)
    requires m0 < 8 && k.mutexes[m0] == Some(mx) && mx.owner == Some(c.slot) && c == Home(c.slot) && w in mx.waiters
    requires SameTables(HandOver(k, m0, mx, w), k1)
    ensures Occ(k1, t) && Tracks(k, k1, t, m, false, t == c && m == m0)
  {
    assert MutexOk(k, m0, None);
    if St(k, t) == Terminated { TerminatedOwnsNothing(k, t, m); }
    if St(k, t) == BlockedOnMutex(m) { WaiterOwnsNot(k, t, m); }
  }

  // ---- Recovery ----

  /** A mutex is left alone, or its dead owner is replaced by one of its waiters or by nobody. */
  predicate Recovered(a: Option<KMutex>, b: Option<KMutex>, dead: nat) {
    || a == b
    || (&& a.Some? && a.value.owner == Some(dead) && b.Some?
        && (|| b.value == KMutex(false, None, a.value.waiters)
            || (&& b.value.owner.Some? && b.value.owner.value in a.value.waiters
                && b.value == KMutex(true, b.value.owner, a.value.waiters - {b.value.owner.value}))))
  }

  lemma {:induction false} RecoverMutexes(k: Kernel, m: nat, dead: nat)
    requires m <= 8
    ensures forall i :: 0 <= i < m ==> RecoverFrom(k, m, dead).mutexes[i] == k.mutexes[i]
    ensures forall i :: m <= i < 8 ==> Recovered(k.mutexes[i], RecoverFrom(k, m, dead).mutexes[i], dead)
    decreases 8 - m
  {
    if m < 8 { RecoverMutexes(RecoverOne(k, m, dead), m + 1, dead); }
  }

  /** A mutex goes to its lowest waiting slot, or is free if nobody waits. */
  ghost predicate PassedOn(a: Option<KMutex>, b: Option<KMutex>) {
    && a.Some? && b.Some?
    && (a.value.waiters == {} ==> b.value == KMutex(false, None, {}))
    && (a.value.waiters != {} ==>
          exists w :: w in a.value.waiters && (forall v :: v in a.value.waiters ==> w <= v)
                      && b.value == KMutex(true, Some(w), a.value.waiters - {w}))
  }

  /** A mutex of the dead slot is passed on, any other stays as it was. */
  ghost predicate Bequeathed(a: Option<KMutex>, b: Option<KMutex>, dead: nat) {
    if a.Some? && a.value.owner == Some(dead) then PassedOn(a, b) else b == a
  }

  /** The waiters of a mutex are registered tasks. */
  ghost predicate Known(k: Kernel, mx: Option<KMutex>) {
    mx.Some? ==> forall w :: w in mx.value.waiters ==> w < 32 && Occ(k, Home(w))
  }

  ghost predicate WaitersKnown(k: Kernel) { forall m :: 0 <= m < 8 ==> Known(k, k.mutexes[m]) }

  lemma {:induction false} RecoverOnePasses(k: Kernel, m: nat, dead: nat)
    requires m < 8 && Cfg(k) && WaitersKnown(k)
    ensures var k1 := RecoverOne(k, m, dead);
      && Bequeathed(k.mutexes[m], k1.mutexes[m], dead)
      && forall i :: 0 <= i < 8 && i != m ==> k1.mutexes[i] == k.mutexes[i]
  {
    hide HighestWaiter, Cfg;
    assert Known(k, k.mutexes[m]);
    if k.mutexes[m].Some? && k.mutexes[m].value.owner == Some(dead) {
      var ws := k.mutexes[m].value.waiters;
      HighestIsLowest(k, ws, 0);
      if HighestWaiter(k, ws, 32).Some? { HighestIsLowest(k, ws, HighestWaiter(k, ws, 32).value); }
    }
  }

  lemma {:induction false} RecoverOneKnown(k: Kernel, m: nat, dead: nat)
    requires m < 8 && Cfg(k) && WaitersKnown(k)
    ensures var k1 := RecoverOne(k, m, dead); Cfg(k1) && WaitersKnown(k1)
  {
    hide HighestWaiter, Cfg;
    var k1 := RecoverOne(k, m, dead);
    if k.mutexes[m].Some? && k.mutexes[m].value.owner == Some(dead) {
      var mx := k.mutexes[m].value;
      if HighestWaiter(k, mx.waiters, 32).Some? {
        var w := HighestWaiter(k, mx.waiters, 32).value;
        assert Known(k, k.mutexes[m]);
        SetStateConfig(SetMutex(k, m, KMutex(true, Some(w), mx.waiters - {w})), Home(w), Ready);
      }
      assert SameConfig(k, k1);
      CfgKept(k, k1);
      forall i | 0 <= i < 8 ensures Known(k1, k1.mutexes[i]) {
        assert Known(k, k.mutexes[i]);
      }
    }
  }

  lemma {:induction false} RecoverPasses(k: Kernel, m: nat, dead: nat, i: nat)
    requires m <= 8 && i < 8 && Cfg(k) && WaitersKnown(k)
    ensures var a, b := k.mutexes[i], RecoverFrom(k, m, dead).mutexes[i];
      if i < m then b == a else Bequeathed(a, b, dead)
    decreases 8 - m
  {
    hide RecoverOne, Cfg, WaitersKnown, Bequeathed;
    if m < 8 {
      RecoverOnePasses(k, m, dead);
      RecoverOneKnown(k, m, dead);
      RecoverPasses(RecoverOne(k, m, dead), m + 1, dead, i);
    }
  }

  /** Killing a task passes every mutex it owns to the lowest waiting slot, and touches no other. */
  lemma {:induction false} KilledPasses(k: Kernel, t: Tid, m: nat)
    requires Cfg(k) && Consistent(k) && Occ(k, t) && m < 8
    ensures Bequeathed(k.mutexes[m], Killed(k, t).mutexes[m], t.slot)
  {
    hide RecoverFrom, IpcInv, SchedsOk, Bequeathed;
    var k1 := SetState(k, t, Terminated);
    SetStateConfig(k, t, Terminated);
    CfgKept(k, k1);
    forall i | 0 <= i < 8 ensures Known(k1, k1.mutexes[i]) {
      assert MutexOk(k, i, None);
    }
    RecoverPasses(k1, 0, t.slot, m);
  }

  lemma {:induction false} KilledTracks(k: Kernel, k1: Kernel, u: Tid, t: Tid, m: nat)
    requires Cfg(k) && Consistent(k) && Occ(k, u) && Occ(k, t) && !St(k, u).BlockedOnMutex?
    requires SameTables(Killed(k, u), k1)
    ensures Occ(k1, t) && Tracks(k, k1, t, m, false, false)
  {
    var k2 := Killed(k, u);
    KilledKeeps(k, u);
    KilledStates(k, u);
    RecoverMutexes(SetState(k, u, Terminated), 0, u.slot);
    assert Occ(k1, t) && TcbOf(k1, t) == TcbOf(k2, t);
    if St(k2, t) == Terminated {
      TerminatedOwnsNothing(k2, t, m);
    } else if m < 8 && k.mutexes[m].Some? {
      KilledOwner(k, k2, u, t, m);
    }
  }

  lemma {:induction false} KilledOwner(k: Kernel, k2: Kernel, u: Tid, t: Tid, m: nat)
    requires Cfg(k) && MutexInv(k, None) && MutexInv(k2, None) && Occ(k, u) && Occ(k, t) && Occ(k2, t) && t != u
    requires m < 8 && Recovered(k.mutexes[m], k2.mutexes[m], u.slot) && k.mutexes[m].Some? && k2.mutexes[m].Some?
    requires St(k2, t) == St(k, t) || (St(k, t).BlockedOnMutex? && St(k2, t) == Ready)
    ensures St(k, t) == BlockedOnMutex(m) && St(k2, t) != BlockedOnMutex(m) ==> OwnerOf(k2, m) == Some(t)
    ensures !(St(k, t) == BlockedOnMutex(m) && St(k2, t) != BlockedOnMutex(m)) ==>
      (OwnerOf(k2, m) == Some(t) <==> OwnerOf(k, m) == Some(t))
  {
    var a, b := k.mutexes[m].value, k2.mutexes[m].value;
    assert MutexOk(k, m, None) && MutexOk(k2, m, None) && WaiterOk(k, t);
    if a.owner.Some? {
      LockerIsHome(k, Home(a.owner.value), m);
    }
  }

  // ---- Syscalls ----

  predicate Grants(k: Kernel, h: nat, sp: int, m: nat)
    requires h < 2 && Occ(k, CurTid(k, h))
  {
    LockTarget(k, h, sp) == Some(m) && m < 8 && k.mutexes[m].Some? && !k.mutexes[m].value.locked
  }

  predicate Unlocks(k: Kernel, h: nat, sp: int, m: nat)
    requires h < 2 && Occ(k, CurTid(k, h))
  {
    UnlockTarget(k, h, sp) == Some(m) && m < 8 && k.mutexes[m].Some?
  }

  lemma {:induction false} LockTracks(k: Kernel, h: nat, sp: int, t: Tid, m: nat)
    requires h < 2 && Inv(k) && Occ(k, CurTid(k, h)) && Occ(k, t) && !Lock(k, h, sp).Panic?
    requires LockFinds(k, h, sp, false) || LockFinds(k, h, sp, true) ==> St(k, CurTid(k, h)) == Running
    ensures var p := Lock(k, h, sp);
      Occ(p.k, t) && Tracks(k, p.k, t, m, t == CurTid(k, h) && Grants(k, h, sp, m), false)
  {
    var p, c := Lock(k, h, sp), CurTid(k, h);
    if LockTarget(k, h, sp).None? || k.mutexes[LockTarget(k, h, sp).value].None? {
      SameTablesConsistent(k, p.k);
      UntouchedTracks(k, p.k, t, m);
    } else {
      LockTargetRight(k, h, sp);
      var m0 := LockTarget(k, h, sp).value;
      LockerIsHome(k, c, m0);
      if p.Return? {
        GrantTracks(k, p.k, m0, k.mutexes[m0].value, c, t, m);
      } else {
        BlockTracks(k, p.k, m0, k.mutexes[m0].value, c, t, m);
      }
    }
  }

  lemma {:induction false} UnlockTracks(k: Kernel, h: nat, sp: int, t: Tid, m: nat)
    requires h < 2 && Inv(k) && Occ(k, CurTid(k, h)) && Occ(k, t) && !Unlock(k, h, sp).Panic?
    ensures var p := Unlock(k, h, sp);
      Occ(p.k, t) && Tracks(k, p.k, t, m, false, t == CurTid(k, h) && Unlocks(k, h, sp, m))
  {
    var p, c := Unlock(k, h, sp), CurTid(k, h);
    if UnlockTarget(k, h, sp).None? || k.mutexes[UnlockTarget(k, h, sp).value].None? {
      SameTablesConsistent(k, p.k);
      UntouchedTracks(k, p.k, t, m);
    } else {
      var m0 := UnlockTarget(k, h, sp).value;
      var mx := k.mutexes[m0].value;
      assert c == Home(c.slot) by { assert MutexCapPlaced(k, c); }
      match HighestWaiter(k, mx.waiters, 32)
      case None => ReleaseTracks(k, p.k, m0, mx, c, t, m);
      case Some(w) => HandOverTracks(k, p.k, m0, mx, c, w, t, m);
    }
  }

  lemma {:induction false} TerminateTracks(k: Kernel, h: nat, sp: int, t: Tid, m: nat)
    requires h < 2 && Inv(k) && MayTerminate(k, Reg(k.mem, sp, REG_A0)) && Occ(k, t)
    ensures var p := Terminate(k, h, sp); Occ(p.k, t) && Tracks(k, p.k, t, m, false, false)
  {
    hide Killed, Tracks, MutexInv, IpcInv, StackInv, Cfg, SchedsOk, Reg, PutReg;
    match Named(k, Reg(k.mem, sp, REG_A0))
    case None =>
      SameTablesConsistent(k, Terminate(k, h, sp).k);
      UntouchedTracks(k, Terminate(k, h, sp).k, t, m);
    case Some(u) => KilledTracks(k, Terminate(k, h, sp).k, u, t, m);
  }

  /** Send, receive, sleep, yield and check-in never touch a mutex or a mutex waiter. */
  lemma {:induction false} OtherTracks(k: Kernel, p: Plan, h: nat, t: Tid, m: nat, timer: bool)
    requires h < 2 && Inv(k) && Occ(k, CurTid(k, h)) && Occ(k, t)
    requires PlanOk(k, p, h) && Moves(k, p.k, h, timer) && p.k.mutexes == k.mutexes
    ensures Occ(p.k, t) && Tracks(k, p.k, t, m, false, false)
  {
    if St(k, t) == BlockedOnMutex(m) {
      assert SchedOk(k.scheds[t.hart]);
      assert WaiterOk(k, t);
      if St(p.k, t) == Ready {
        assert MutexOk(p.k, m, None);
      }
    }
    UntouchedTracks(k, p.k, t, m);
  }

  lemma {:induction false} SyscallTracks(k: Kernel, h: nat, sp: int, t: Tid, m: nat)
    requires h < 2 && Inv(k) && Occ(k, CurTid(k, h)) && SyscallOk(k, h, sp) && Occ(k, t)
    ensures var p, id := Syscall(k, h, sp), Reg(k.mem, sp, REG_A7);
      !p.Panic? && Occ(p.k, t) && Tracks(k, p.k, t, m,
        id == 3 && t == CurTid(k, h) && Grants(k, h, sp, m),
        id == 4 && t == CurTid(k, h) && Unlocks(k, h, sp, m))
  {
    hide Tracks, Inv, MidInv, Steady, Moves, Lock, Unlock, Terminate, MayTerminate, Killed;
    SyscallSafe(k, h, sp);
    var id := Reg(k.mem, sp, REG_A7);
    if id == 3 { LockTracks(k, h, sp, t, m); }
    else if id == 4 { UnlockTracks(k, h, sp, t, m); }
    else if id == 8 { TerminateTracks(k, h, sp, t, m); }
    else {
      SyscallMoves(k, h, sp);
      OtherTracks(k, Syscall(k, h, sp), h, t, m, false);
    }
  }

  // ---- Whole traps ----

  ghost predicate LockGrant(k: Kernel, e: Event, t: Tid, m: nat)
    requires e.Trap? && e.hart < 2 && Occ(k, CurTid(k, e.hart))
  {
    IsCall(e, 3) && t == CurTid(k, e.hart) && Grants(Stored(k, e), e.hart, e.sp, m)
  }

  ghost predicate UnlockDone(k: Kernel, e: Event, t: Tid, m: nat)
    requires e.Trap? && e.hart < 2 && Occ(k, CurTid(k, e.hart))
  {
    IsCall(e, 4) && t == CurTid(k, e.hart) && Unlocks(Stored(k, e), e.hart, e.sp, m)
  }

  lemma {:induction false} FaultTracks(k: Kernel, h: nat, t: Tid, m: nat)
    requires h < 2 && Inv(k) && Occ(k, CurTid(k, h)) && Occ(k, t)
    ensures var k1 := Killed(k, CurTid(k, h)); Occ(k1, t) && Tracks(k, k1, t, m, false, false)
  {
    hide Tracks, Killed, MutexInv, IpcInv, Cfg, StackInv;
    assert SchedOk(k.scheds[h]);
    KilledTracks(k, Killed(k, CurTid(k, h)), CurTid(k, h), t, m);
  }

  lemma {:induction false} TrapTracks(k: Kernel, e: Event, t: Tid, m: nat)
    requires Inv(k) && e.Trap? && Enabled(k, e) && Occ(k, t) && Inv(Stored(k, e)) && e.mcause != ECALL_UMODE
    ensures !PlanOf(k, e).Panic? && Occ(PlanOf(k, e).k, t)
    ensures Tracks(Stored(k, e), PlanOf(k, e).k, t, m, false, false)
  {
    hide Tracks, Inv, MidInv, Steady, Moves, Killed, Syscall, PutFrame;
    var k1, h := Stored(k, e), e.hart;
    BodySafe(k, e);
    if Contained(e.mcause) {
      FaultTracks(k1, h, t, m);
    } else {
      BodyMoves(k, e);
      OtherTracks(k1, PlanOf(k, e), h, t, m, e.mcause == TIMER_INTERRUPT);
    }
  }

  lemma {:induction false} BodyTracks(k: Kernel, e: Event, t: Tid, m: nat)
    requires Inv(k) && e.Trap? && Enabled(k, e) && Occ(k, t)
    ensures !PlanOf(k, e).Panic? && Occ(PlanOf(k, e).k, t)
    ensures Tracks(Stored(k, e), PlanOf(k, e).k, t, m, LockGrant(k, e, t, m), UnlockDone(k, e, t, m))
  {
    SameTablesKeep(k, Stored(k, e));
    if e.mcause == ECALL_UMODE {
      StoredRegs(k, e);
      SyscallTracks(Stored(k, e), e.hart, e.sp, t, m);
    } else {
      TrapTracks(k, e, t, m);
    }
  }

  lemma {:induction false} CalmTracks(k: Kernel, k1: Kernel, k2: Kernel, t: Tid, m: nat, l: bool, u: bool)
    requires Occ(k, t) && Occ(k1, t) && Occ(k2, t) && Tracks(k, k1, t, m, l, u)
    requires k2.mutexes == k1.mutexes && CalmState(St(k1, t), St(k2, t))
    ensures Tracks(k, k2, t, m, l, u)
  {}

  /** A reschedule changes nothing a mutex observer sees. */
  lemma {:induction false} FinishTracks(k: Kernel, p: Plan, h: nat, sp: int, t: Tid, m: nat, l: bool, u: bool)
    requires h < 2 && PlanOk(k, p, h) && Occ(k, t) && Occ(p.k, t) && Tracks(k, p.k, t, m, l, u)
    ensures var k' := Finish(p, h, sp).k; Occ(k', t) && Tracks(k, k', t, m, l, u)
  {
    if p.Resched? {
      SwitchCalm(p.k, h, sp, p.isTick);
      CalmTracks(k, p.k, Finish(p, h, sp).k, t, m, l, u);
    }
  }

  // ---- What the caller sees in a0 is exactly grant and release ----

  predicate Names(k: Kernel, h: nat, sp: int, m: nat)
    requires h < 2 && Occ(k, CurTid(k, h))
  {
    NamedCap(k, h, sp).MutexCap? && NamedCap(k, h, sp).mutexIdx == m
  }

  lemma {:induction false} LockSeen(k: Kernel, h: nat, sp: int, m: nat)
    requires h < 2 && Inv(k) && Occ(k, CurTid(k, h)) && PlanOk(k, Lock(k, h, sp), h) && Names(k, h, sp, m)
    ensures var o := Finish(Lock(k, h, sp), h, sp);
      CurTid(o.k, h) == CurTid(k, h) && Reg(o.k.mem, sp, REG_A0) == 0 <==> Grants(k, h, sp, m)
  {
    hide MutexInv, IpcInv, StackInv, PutReg, Rd;
    var p, t := Lock(k, h, sp), CurTid(k, h);
    if LockTarget(k, h, sp).Some? { LockTargetRight(k, h, sp); }
    RegPutReg(k.mem, sp, REG_A0, 0, REG_A0);
    RegPutReg(k.mem, sp, REG_A0, MINUS_ONE, REG_A0);
    if p.Resched? {
      assert St(p.k, t).BlockedOnMutex?;
      SwitchEffect(p.k, h, sp, false);
    }
  }

  lemma {:induction false} UnlockResult(k: Kernel, h: nat, sp: int, m: nat)
    requires h < 2 && Cfg(k) && Occ(k, CurTid(k, h)) && !Unlock(k, h, sp).Panic? && Names(k, h, sp, m)
    ensures Reg(Unlock(k, h, sp).k.mem, sp, REG_A0) == 0 <==> Unlocks(k, h, sp, m)
  {
    if UnlockTarget(k, h, sp).Some? { assert MutexCapPlaced(k, CurTid(k, h)); }
  }

  lemma {:induction false} UnlockSeen(k: Kernel, h: nat, sp: int, m: nat)
    requires h < 2 && Inv(k) && Occ(k, CurTid(k, h)) && PlanOk(k, Unlock(k, h, sp), h) && Names(k, h, sp, m)
    ensures Reg(Finish(Unlock(k, h, sp), h, sp).k.mem, sp, REG_A0) == 0 <==> Unlocks(k, h, sp, m)
  {
    UnlockResult(k, h, sp, m);
    FinishMem(Unlock(k, h, sp), h, sp);
  }

  lemma {:induction false} FinishMem(p: Plan, h: nat, sp: int)
    requires h < 2 && !p.Panic? && p.k.scheds[h].current < 32
    ensures Finish(p, h, sp).k.mem == p.k.mem
  {}

  lemma {:induction false} CallStored(k: Kernel, e: Event, t: Tid, id: Word, m: nat)
    requires Inv(k) && e.Trap? && Enabled(k, e) && IsCall(e, id)
    ensures Inv(Stored(k, e)) && Stored(k, e).scheds == k.scheds
    ensures CallsOn(k, e, t, id, m) <==> t == CurTid(k, e.hart) && Names(Stored(k, e), e.hart, e.sp, m)
  {
    StoredRegs(k, e);
    SameTablesKeep(k, Stored(k, e));
  }

  lemma {:induction false} LockObserved(k: Kernel, e: Event, t: Tid, m: nat)
    requires Inv(k) && e.Trap? && Enabled(k, e) && IsCall(e, 3)
    ensures LockReturned(k, e, Next(k, e), t, m) <==> LockGrant(k, e, t, m)
  {
    var k1, h, sp := Stored(k, e), e.hart, e.sp;
    CallStored(k, e, t, 3, m);
    StoredRegs(k, e);
    if t == CurTid(k, h) && Names(k1, h, sp, m) {
      BodySafe(k, e);
      LockSeen(k1, h, sp, m);
    }
  }

  lemma {:induction false} UnlockNamed(k: Kernel, h: nat, sp: int, m: nat)
    requires h < 2 && Occ(k, CurTid(k, h)) && Unlocks(k, h, sp, m)
    ensures Names(k, h, sp, m)
  {}

  lemma {:induction false} UnlockObserved(k: Kernel, e: Event, t: Tid, m: nat)
    requires Inv(k) && e.Trap? && Enabled(k, e) && IsCall(e, 4)
    ensures UnlockReturned(k, e, Next(k, e), t, m) <==> UnlockDone(k, e, t, m)
  {
    hide Inv, MidInv, CallOk, PutFrame, Unlock, Names, Reg;
    var k1, h, sp := Stored(k, e), e.hart, e.sp;
    CallStored(k, e, t, 4, m);
    if Unlocks(k1, h, sp, m) { UnlockNamed(k1, h, sp, m); }
    StoredRegs(k, e);
    if t == CurTid(k, h) && Names(k1, h, sp, m) {
      BodySafe(k, e);
      UnlockSeen(k1, h, sp, m);
    }
  }

  lemma {:induction false} StepTracks(k: Kernel, e: Event, t: Tid, m: nat)
    requires Inv(k) && Enabled(k, e) && Occ(k, t)
    ensures Occ(Next(k, e), t)
    ensures Tracks(k, Next(k, e), t, m, LockReturned(k, e, Next(k, e), t, m), UnlockReturned(k, e, Next(k, e), t, m))
  {
    if e.Trap? {
      TrapStepTracks(k, e, t, m);
      if IsCall(e, 3) { LockObserved(k, e, t, m); }
      if IsCall(e, 4) { UnlockObserved(k, e, t, m); }
    } else {
      UntouchedTracks(k, Next(k, e), t, m);
    }
  }

  lemma {:induction false} TrapStepTracks(k: Kernel, e: Event, t: Tid, m: nat)
    requires Inv(k) && e.Trap? && Enabled(k, e) && Occ(k, t)
    ensures Occ(Next(k, e), t)
    ensures Tracks(k, Next(k, e), t, m, LockGrant(k, e, t, m), UnlockDone(k, e, t, m))
  {
    BodyTracks(k, e, t, m);
    BodySafe(k, e);
    FinishTracks(Stored(k, e), PlanOf(k, e), e.hart, e.sp, t, m, LockGrant(k, e, t, m), UnlockDone(k, e, t, m));
  }

  // ---- The theorem ----

  /** What a task believes is exactly what the kernel records. */
  lemma {:induction false} BeliefIsOwnership(ks: seq<Kernel>, es: seq<Event>, t: Tid, m: nat, n: nat)
    requires Run(ks, es) && n <= |es| && Occ(ks[0], t) && OwnerOf(ks[0], m) == None
    ensures Believes(ks, es, t, m, n) <==> OwnerOf(ks[n], m) == Some(t)
  {
    hide Inv, Enabled, Next, LockReturned, UnlockReturned;
    if n > 0 {
      BeliefIsOwnership(ks, es, t, m, n - 1);
      RunConfig(ks, es, n - 1);
      RunStep(ks, es, n - 1);
      StepTracks(ks[n - 1], es[n - 1], t, m);
    }
  }

  /** In every run from a state where nobody holds `m`, no two tasks ever believe they hold it. */
  lemma {:induction false} MutualExclusionHolds(ks: seq<Kernel>, es: seq<Event>, t: Tid, u: Tid, m: nat, n: nat)
    requires Run(ks, es) && n <= |es| && Occ(ks[0], t) && Occ(ks[0], u) && OwnerOf(ks[0], m) == None
    requires Believes(ks, es, t, m, n) && Believes(ks, es, u, m, n)
    ensures t == u
  {
    hide Inv, Believes;
    BeliefIsOwnership(ks, es, t, m, n);
    BeliefIsOwnership(ks, es, u, m, n);
  }

  /** No lost waiter: in every reachable state a task waits on `m` exactly when its bit is set there, a
      mutex with waiters is locked, and locked means owned. */
  lemma {:induction false} NoLostWaiter(ks: seq<Kernel>, es: seq<Event>, t: Tid, m: nat, n: nat)
    requires Run(ks, es) && n <= |es| && Occ(ks[n], t) && m < 8
    ensures var k := ks[n];
      && (St(k, t) == BlockedOnMutex(m) <==>
            t == Home(t.slot) && k.mutexes[m].Some? && t.slot in k.mutexes[m].value.waiters)
      && (k.mutexes[m].Some? ==>
            var mx := k.mutexes[m].value; (mx.locked <==> mx.owner.Some?) && (mx.waiters != {} ==> mx.locked))
  {
    RunInv(ks, es, n);
    assert WaiterOk(ks[n], t) && MutexOk(ks[n], m, None);
  }
}
