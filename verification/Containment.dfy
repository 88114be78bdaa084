/** Fault containment and the documented task-table invariant. */
module Containment {
  import opened Tasks
  import opened PartitionScheduler
  import opened KernelState
  import opened KernelSteps
  import opened KernelInvariant
  import opened KernelSafety
  import opened RecoverySafety
  import opened Machine
  import opened Timing
  import opened MutualExclusion

  /** The task was handed a mutex the faulting task held. */
  ghost predicate Inherits(k: Kernel, k': Kernel, dead: Tid, t: Tid)
    requires Occ(k, t)
  {
    St(k, t).BlockedOnMutex? && OwnerOf(k, St(k, t).mutexIdx) == Some(dead) && OwnerOf(k', St(k, t).mutexIdx) == Some(t)
  }

  /** Everything a contained fault of task `c` on its hart may change. */
  ghost predicate ContainedBy(k: Kernel, k': Kernel, c: Tid)
    requires Occ(k, c)
  {
    var next := CurTid(k', c.hart);
    && Occ(k', c) && St(k', c) == Terminated
    && (forall m :: 0 <= m < 8 ==> OwnerOf(k', m) != Some(c))
    && (forall m :: 0 <= m < 8 ==> Bequeathed(k.mutexes[m], k'.mutexes[m], c.slot))
    && next != c && Occ(k, next) && Occ(k', next) && St(k', next) == Running
    && (St(k, next) == Ready || Inherits(k, k', c, next))
    && (forall u :: Occ(k, u) && u != c ==>
          && Occ(k', u) && TcbOf(k', u).savedSp == TcbOf(k, u).savedSp
          && (St(k', u) == (if u == next then Running else St(k, u)) || (St(k', u) == Ready && Inherits(k, k', c, u))))
  }

  /** The woken waiters are exactly the heirs. */
  lemma {:induction false} HeirsOf(k: Kernel, c: Tid, u: Tid)
    requires Cfg(k) && Consistent(k) && Occ(k, c) && !St(k, c).BlockedOnMutex? && Occ(k, u) && u != c
    ensures var k1 := Killed(k, c);
      Occ(k1, u) && TcbOf(k1, u).savedSp == TcbOf(k, u).savedSp
      && (St(k1, u) == St(k, u) || (St(k1, u) == Ready && Inherits(k, k1, c, u)))
  {
    var k1 := Killed(k, c);
    KilledStates(k, c);
    KilledKeeps(k, c);
    if St(k1, u) != St(k, u) {
      var m := St(k, u).mutexIdx;
      assert WaiterOk(k, u);
      RecoverMutexes(SetState(k, c, Terminated), 0, c.slot);
      KilledOwner(k, k1, c, u, m);
      HeirMutex(k, k1, c, u, m);
    }
  }

  lemma {:induction false} HeirMutex(k: Kernel, k1: Kernel, c: Tid, u: Tid, m: nat)
    requires Cfg(k) && MutexInv(k, None) && m < 8 && Occ(k, u) && Occ(k, c) && St(k, u) == BlockedOnMutex(m)
    requires Recovered(k.mutexes[m], k1.mutexes[m], c.slot) && OwnerOf(k1, m) == Some(u)
    ensures OwnerOf(k, m) == Some(c)
  {
    assert MutexOk(k, m, None);
    WaiterOwnsNot(k, u, m);
    assert k1.mutexes[m] != k.mutexes[m];
    LockerIsHome(k, Home(c.slot), m);
  }

  lemma {:induction false} NoOwnerLeft(k: Kernel, c: Tid, m: nat)
    requires Cfg(k) && Consistent(k) && Occ(k, c) && !St(k, c).BlockedOnMutex? && m < 8
    ensures OwnerOf(Killed(k, c), m) != Some(c) && Bequeathed(k.mutexes[m], Killed(k, c).mutexes[m], c.slot)
  {
    hide MutexInv, IpcInv, SchedsOk, RecoverFrom, Cfg, Bequeathed;
    KilledKeeps(k, c);
    KilledPasses(k, c, m);
  }

  /** The reschedule after a kill, task by task. */
  lemma {:induction false} FaultTask(k: Kernel, k1: Kernel, h: nat, sp: int, c: Tid, u: Tid)
    requires h < 2 && SchedMid(k1.scheds[h]) && c == CurTid(k1, h) && Occ(k, u) && Occ(k1, u) && u != c
    requires TcbOf(k1, u).savedSp == TcbOf(k, u).savedSp
    requires St(k1, u) == St(k, u) || (St(k1, u) == Ready && Inherits(k, k1, c, u))
    ensures var k' := Switch(k1, h, sp, false).k;
      && Occ(k', u) && TcbOf(k', u).savedSp == TcbOf(k, u).savedSp
      && (|| St(k', u) == (if u == CurTid(k', h) then Running else St(k, u))
          || (St(k', u) == Ready && Inherits(k, k', c, u)))
      && (u == CurTid(k', h) ==> St(k, u) == Ready || Inherits(k, k', c, u))
  {
    SwitchEffect(k1, h, sp, false);
  }

  lemma {:induction false} CurrentNotWaits(k: Kernel, h: nat)
    requires h < 2 && Inv(k) && Occ(k, CurTid(k, h))
    ensures !St(k, CurTid(k, h)).BlockedOnMutex?
  {
    assert SchedOk(k.scheds[h]);
  }

  lemma {:induction false} FaultEffect(k: Kernel, h: nat, sp: int)
    requires h < 2 && Inv(k) && Occ(k, CurTid(k, h)) && CurTid(k, h).slot != IDLE
    ensures var k1 := Killed(k, CurTid(k, h)); SchedMid(k1.scheds[h])
    ensures ContainedBy(k, Switch(Killed(k, CurTid(k, h)), h, sp, false).k, CurTid(k, h))
  {
    hide Killed, Switch, Inherits, Bequeathed, MutexInv, IpcInv, StackInv, Cfg, SchedMid;
    var c, k1 := CurTid(k, h), Killed(k, CurTid(k, h));
    CurrentNotWaits(k, h);
    KillCurrentScheds(k, h);
    KilledStates(k, c);
    var k' := Switch(k1, h, sp, false).k;
    assert k'.mutexes == k1.mutexes && Occ(k', c) && St(k', c) == Terminated
      && CurTid(k', h) != c && Occ(k1, CurTid(k', h)) && Occ(k', CurTid(k', h)) && St(k', CurTid(k', h)) == Running by {
      SwitchEffect(k1, h, sp, false);
    }
    assert CurTid(k1, h) == c by { KilledKeeps(k, c); }
    forall m | 0 <= m < 8 ensures OwnerOf(k', m) != Some(c) && Bequeathed(k.mutexes[m], k'.mutexes[m], c.slot) {
      NoOwnerLeft(k, c, m);
    }
    forall u | Occ(k, u) && u != c
      ensures Occ(k', u) && TcbOf(k', u).savedSp == TcbOf(k, u).savedSp
      ensures || St(k', u) == (if u == CurTid(k', h) then Running else St(k, u))
              || (St(k', u) == Ready && Inherits(k, k', c, u))
      ensures u == CurTid(k', h) ==> St(k, u) == Ready || Inherits(k, k', c, u)
    {
      HeirsOf(k, c, u);
      FaultTask(k, k1, h, sp, c, u);
    }
  }

  lemma {:induction false} FaultStep(k: Kernel, e: Event)
    requires Inv(k) && e.Trap? && Enabled(k, e) && Contained(e.mcause)
    ensures ContainedBy(Stored(k, e), Next(k, e), CurTid(k, e.hart))
  {
    hide Inv, Killed, ContainedBy, CallOk;
    SameTablesKeep(k, Stored(k, e));
    FaultEffect(Stored(k, e), e.hart, e.sp);
  }

  /** Fault containment in every reachable state: the faulting task is terminated and owns nothing, its
      hart runs another task that was Ready or just inherited a mutex, every mutex it held goes to
      its lowest waiting slot or is free, and no other task changes. */
  lemma {:induction false} FaultContained(ks: seq<Kernel>, es: seq<Event>, n: nat)
    requires Run(ks, es) && n < |es| && es[n].Trap? && es[n].hart < 2 && Contained(es[n].mcause)
    requires Occ(ks[n], CurTid(ks[n], es[n].hart))
    ensures ContainedBy(ks[n], ks[n + 1], CurTid(ks[n], es[n].hart))
  {
    hide Inv, Enabled, Next, ContainedBy;
    RunStep(ks, es, n);
    FaultStep(ks[n], es[n]);
    ContainedStored(ks[n], Stored(ks[n], es[n]), ks[n + 1], CurTid(ks[n], es[n].hart));
  }

  lemma {:induction false} ContainedStored(k: Kernel, k1: Kernel, k': Kernel, c: Tid)
    requires SameTables(k, k1) && Occ(k, c) && Occ(k1, c) && ContainedBy(k1, k', c)
    ensures ContainedBy(k, k', c)
  {
    assert forall u :: Occ(k1, u) <==> Occ(k, u);
    assert forall u :: Occ(k, u) ==> TcbOf(k1, u) == TcbOf(k, u);
    assert forall m :: OwnerOf(k1, m) == OwnerOf(k, m);
  }

  // ---- The task-table invariant and Running uniqueness ----

  /** In every reachable state `current_partition_idx` and every waiter bit name an occupied slot where
      the kernel looks it up, at most one task per hart is Running and only at the current index, and the
      ticks left are between 1 and the current partition's duration. */
  lemma {:induction false} TableInvariant(ks: seq<Kernel>, es: seq<Event>, n: nat, h: nat, m: nat, w: nat)
    requires Run(ks, es) && n <= |es| && h < 2 && m < 8
    ensures var k, s := ks[n], ks[n].scheds[h];
      && Occ(k, CurTid(k, h))
      && (k.mutexes[m].Some? && w in k.mutexes[m].value.waiters ==> w < 32 && Occ(k, Home(w)))
      && (InState(k, Tid(h, w), Running) ==> w == s.current)
      && 1 <= s.remaining <= s.durations[s.current]
      && (St(k, CurTid(k, h)) == Running || St(k, CurTid(k, h)) == Terminated)
  {
    RunInv(ks, es, n);
    assert SchedOk(ks[n].scheds[h]) && MutexOk(ks[n], m, None);
    if InState(ks[n], Tid(h, w), Running) { assert StateIs(ks[n].scheds[h], w, Running); }
  }

  /** After every trap that reschedules, its hart's current task is Running. */
  lemma {:induction false} RunsAfterResched(k: Kernel, e: Event)
    requires Inv(k) && e.Trap? && Enabled(k, e) && PlanOf(k, e).Resched?
    ensures InState(Next(k, e), CurTid(Next(k, e), e.hart), Running)
  {
    hide Body, CallOk, Inv;
    BodySafe(k, e);
    SwitchEffect(PlanOf(k, e).k, e.hart, e.sp, PlanOf(k, e).isTick);
  }
}
