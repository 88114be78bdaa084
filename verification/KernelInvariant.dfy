/** The invariant of the trap machine, and what `switch_task` does to it. */
module KernelInvariant {
  import opened Tasks
  import opened PartitionScheduler
  import opened KernelState
  import opened KernelSteps

  // ---- Configuration: fixed at boot ----

  /** The same slot on the other hart. */
  function Twin(t: Tid): (u: Tid) { Tid(if t.hart == 0 then 1 else 0, t.slot) }

  ghost predicate MutexCapPlaced(k: Kernel, t: Tid)
    requires Occ(k, t)
  {
    forall c :: 0 <= c < 8 && TcbOf(k, t).capabilities[c].MutexCap? ==>
      && TcbOf(k, t).capabilities[c].mutexIdx < 8
      && t == Home(t.slot)
      && !Occ(k, Twin(t))
  }

  predicate Disjoint(a: Stack, b: Stack) { a.base + a.size <= b.base || b.base + b.size <= a.base }

  /** Slot number equals priority; a mutex capability sits on the hart where the mutex code looks its
      holder up, in a slot no other hart uses; stacks hold a frame and overlap neither each other nor the
      kernel's tables. */
  ghost predicate Cfg(k: Kernel) {
    && (forall t :: Occ(k, t) ==> TcbOf(k, t).priority == t.slot)
    && (forall t :: Occ(k, t) ==> MutexCapPlaced(k, t))
    && (forall t :: Occ(k, t) ==> t in k.stacks && k.stacks[t].size >= FRAME_BYTES + 16)
    && (forall t, u :: Occ(k, t) && Occ(k, u) && t != u ==> Disjoint(k.stacks[t], k.stacks[u]))
    && (forall t :: Occ(k, t) ==> Disjoint(k.stacks[t], k.statics))
  }

  lemma {:induction false} CfgKept(k: Kernel, k': Kernel)
    requires Cfg(k) && SameConfig(k, k')
    ensures Cfg(k')
  {
    forall t | Occ(k', t) ensures MutexCapPlaced(k', t) {
      assert MutexCapPlaced(k, t);
      assert TcbOf(k', t).capabilities == TcbOf(k, t).capabilities;
    }
  }

  lemma {:induction false} LockerIsHome(k: Kernel, t: Tid, m: nat)
    requires Cfg(k) && Occ(k, t) && CanLock(k, t, m)
    ensures m < 8 && t == Home(t.slot) && !Occ(k, Twin(t))
    ensures forall u :: Occ(k, u) && u.slot == t.slot ==> u == t
  {
    assert MutexCapPlaced(k, t);
    forall u | Occ(k, u) && u.slot == t.slot ensures u == t {
      assert u == t || u == Twin(t);
    }
  }

  // ---- Mutexes ----

  ghost predicate WaiterOk(k: Kernel, t: Tid)
    requires Occ(k, t)
  {
    St(k, t).BlockedOnMutex? ==>
      var m := St(k, t).mutexIdx;
      && m < 8 && k.mutexes[m].Some? && t.slot in k.mutexes[m].value.waiters
      && t == Home(t.slot) && CanLock(k, t, m)
  }

  ghost predicate OwnerOk(k: Kernel, m: nat, o: nat) {
    && o < 32 && Occ(k, Home(o)) && CanLock(k, Home(o), m)
    && St(k, Home(o)) != BlockedOnMutex(m)
  }

  /** `dead` names a slot whose task has just been terminated and may still be recorded as owner. */
  ghost predicate MutexOk(k: Kernel, m: nat, dead: Option<nat>)
    requires m < 8
  {
    k.mutexes[m].Some? ==>
      var mx := k.mutexes[m].value;
      && (mx.locked <==> mx.owner.Some?)
      && (mx.waiters != {} ==> mx.locked)
      && (forall w :: w in mx.waiters ==> w < 32 && Occ(k, Home(w)) && St(k, Home(w)) == BlockedOnMutex(m))
      && (mx.owner.Some? ==>
            OwnerOk(k, m, mx.owner.value) && (mx.owner != dead ==> St(k, Home(mx.owner.value)) != Terminated))
  }

  ghost predicate MutexInv(k: Kernel, dead: Option<nat>) {
    && (forall t :: Occ(k, t) ==> WaiterOk(k, t))
    && (forall m :: 0 <= m < 8 ==> MutexOk(k, m, dead))
  }

  // ---- IPC ----

  ghost predicate IpcOk(k: Kernel, t: Tid)
    requires Occ(k, t)
  {
    && (St(k, t).BlockedOnIpcSend? ==> CanSend(k, t, St(k, t).endpointIdx))
    && (St(k, t).BlockedOnIpcRecv? ==> CanRecv(k, t, St(k, t).endpointIdx))
  }

  ghost predicate NoMeeting(k: Kernel, t: Tid, u: Tid)
    requires Occ(k, t) && Occ(k, u)
  {
    St(k, t).BlockedOnIpcSend? && St(k, u).BlockedOnIpcRecv? ==> St(k, t).endpointIdx != St(k, u).endpointIdx
  }

  /** Blocked tasks hold the right they block on; no endpoint has both a sender and a receiver waiting. */
  ghost predicate IpcInv(k: Kernel) {
    && (forall t :: Occ(k, t) ==> IpcOk(k, t))
    && (forall t, u :: Occ(k, t) && Occ(k, u) ==> NoMeeting(k, t, u))
  }

  // ---- Stacks ----

  predicate InStack(k: Kernel, t: Tid, sp: int)
    requires t in k.stacks
  {
    k.stacks[t].base <= sp && sp + FRAME_BYTES <= k.stacks[t].base + k.stacks[t].size
  }

  ghost predicate Suspended(k: Kernel, t: Tid) {
    Occ(k, t) && k.scheds[t.hart].current != t.slot && St(k, t) != Terminated
  }

  /** Every task that may be resumed has its frame inside its own stack. */
  ghost predicate StackInv(k: Kernel) {
    forall t :: Suspended(k, t) ==> t in k.stacks && InStack(k, t, TcbOf(k, t).savedSp)
  }

  // ---- The whole invariant ----

  ghost predicate SchedsOk(k: Kernel) { SchedOk(k.scheds[0]) && SchedOk(k.scheds[1]) }

  ghost predicate Consistent(k: Kernel) { SchedsOk(k) && MutexInv(k, None) && IpcInv(k) }

  ghost predicate Inv(k: Kernel) { Cfg(k) && Consistent(k) && StackInv(k) }

  /** Inside a trap on hart `h`: its current task may have just blocked or terminated. */
  ghost predicate MidInv(k: Kernel, h: nat)
    requires h < 2
  {
    && Cfg(k) && SchedMid(k.scheds[h]) && SchedOk(k.scheds[1 - h])
    && MutexInv(k, None) && IpcInv(k) && StackInv(k)
  }

  /** No task moved its frame or came back from Terminated, and no budget changed. */
  ghost predicate Steady(k: Kernel, k': Kernel) {
    && SameConfig(k, k')
    && (forall h :: 0 <= h < 2 ==>
          k'.scheds[h].current == k.scheds[h].current && k'.scheds[h].remaining == k.scheds[h].remaining)
    && (forall t :: Occ(k, t) ==> TcbOf(k', t).savedSp == TcbOf(k, t).savedSp)
    && (forall t :: Occ(k, t) && St(k, t) == Terminated ==> St(k', t) == Terminated)
  }

  /** What every handler body owes its caller. */
  ghost predicate PlanOk(k: Kernel, p: Plan, h: nat)
    requires h < 2
  {
    !p.Panic? && Steady(k, p.k) && MidInv(p.k, h) && (p.Return? ==> SchedsOk(p.k))
  }

  // ---- Changes among Ready, Running and sleeping: no wait starts or ends ----

  predicate Free(st: TaskState) { st == Ready || st == Running || st.Blocked? }

  predicate CalmState(a: TaskState, b: TaskState) { a == b || (Free(a) && Free(b)) }

  ghost predicate Calm(k: Kernel, k': Kernel) {
    SameConfig(k, k') && k'.mutexes == k.mutexes && forall t :: Occ(k, t) ==> CalmState(St(k, t), St(k', t))
  }

  lemma {:induction false} CalmKeeps(k: Kernel, k': Kernel, dead: Option<nat>)
    requires Calm(k, k') && MutexInv(k, dead) && IpcInv(k)
    ensures MutexInv(k', dead) && IpcInv(k')
  {
    MutexesKept(k, k', dead);
    IpcKept(k, k');
  }

  /** Changes that neither start nor end a mutex wait and terminate nobody. */
  ghost predicate NoMutexChange(k: Kernel, k': Kernel) {
    && SameConfig(k, k') && k'.mutexes == k.mutexes
    && forall t :: Occ(k, t) ==>
         (St(k', t) == St(k, t)
          || (!St(k, t).BlockedOnMutex? && !St(k', t).BlockedOnMutex? && St(k', t) != Terminated))
  }

  lemma {:induction false} MutexesKept(k: Kernel, k': Kernel, dead: Option<nat>)
    requires NoMutexChange(k, k') && MutexInv(k, dead)
    ensures MutexInv(k', dead)
  {
    LockRightsKept(k, k');
    forall t | Occ(k', t) ensures WaiterOk(k', t) {
      assert WaiterOk(k, t);
    }
    forall m | 0 <= m < 8 ensures MutexOk(k', m, dead) {
      assert MutexOk(k, m, dead);
    }
  }

  lemma {:induction false} LockRightsKept(k: Kernel, k': Kernel)
    requires SameConfig(k, k')
    ensures forall t, m :: Occ(k, t) ==> (CanLock(k', t, m) <==> CanLock(k, t, m))
  {
    forall t, m | Occ(k, t) ensures CanLock(k', t, m) <==> CanLock(k, t, m) {
      RightsKept(k, k', t);
    }
  }

  /** Changes that start no IPC wait. */
  ghost predicate NoIpcBlock(k: Kernel, k': Kernel) {
    && SameConfig(k, k')
    && forall t :: Occ(k, t) ==>
         (St(k', t) == St(k, t) || (!St(k', t).BlockedOnIpcSend? && !St(k', t).BlockedOnIpcRecv?))
  }

  lemma {:induction false} IpcKept(k: Kernel, k': Kernel)
    requires NoIpcBlock(k, k') && IpcInv(k)
    ensures IpcInv(k')
  {
    forall u | Occ(k', u) ensures IpcOk(k', u) {
      RightsKept(k, k', u);
      assert IpcOk(k, u);
    }
    forall u, v | Occ(k', u) && Occ(k', v) ensures NoMeeting(k', u, v) {
      assert NoMeeting(k, u, v);
    }
  }

  // ---- switch_task ----

  /** Exactly what a reschedule changes: at most the outgoing and the incoming task. */
  lemma {:induction false} SwitchEffect(k: Kernel, h: nat, sp: int, isTick: bool)
    requires h < 2 && SchedMid(k.scheds[h])
    ensures var o := Switch(k, h, sp, isTick);
      var t, t' := CurTid(k, h), CurTid(o.k, h);
      && o.k == k.(scheds := o.k.scheds) && o.k.scheds[1 - h] == k.scheds[1 - h]
      && o.k.scheds[h].durations == k.scheds[h].durations
      && o.k.scheds[h].current == Scheduled(k.scheds[h], isTick).0.current
      && o.k.scheds[h].remaining == Scheduled(k.scheds[h], isTick).0.remaining
      && (t != t' ==> o.k.scheds[h].remaining == k.scheds[h].durations[t'.slot])
      && (forall i :: 0 <= i < 32 && i != t.slot && i != t'.slot ==> o.k.scheds[h].table[i] == k.scheds[h].table[i])
      && Occ(k, t) && Occ(k, t') && Occ(o.k, t) && Occ(o.k, t')
      && SchedOk(o.k.scheds[h]) && St(o.k, t') == Running
      && (t == t' ==> o.k.scheds[h].table == k.scheds[h].table && o.sp == sp && St(k, t) == Running)
      && (t != t' ==>
            && St(k, t') == Ready && o.sp == TcbOf(k, t').savedSp
            && TcbOf(o.k, t') == TcbOf(k, t').(state := Running)
            && TcbOf(o.k, t) == TcbOf(k, t).(savedSp := sp, state := if St(k, t) == Running then Ready else St(k, t)))
  {
    var s := k.scheds[h];
    var (s', r) := Scheduled(s, isTick);
    var o := Switch(k, h, sp, isTick);
    ScheduleRestores(s, isTick);
    if r == None {
      ScheduleDeclines(s, isTick);
    } else {
      SwapRestores(s, s'.current);
      WithSpKeeps(s', s.current, sp);
    }
  }

  lemma {:induction false} WithSpKeeps(s: Sched, i: nat, sp: int)
    requires i < 32 && s.table[i].Some? && SchedOk(s)
    ensures SchedOk(s.(table := WithSp(s.table, i, sp)))
  {
    var s' := s.(table := WithSp(s.table, i, sp));
    assert forall j, st :: 0 <= j < 32 ==> (StateIs(s', j, st) <==> StateIs(s, j, st));
  }

  lemma {:induction false} SwitchCalm(k: Kernel, h: nat, sp: int, isTick: bool)
    requires h < 2 && SchedMid(k.scheds[h])
    ensures Calm(k, Switch(k, h, sp, isTick).k)
  {
    SwitchEffect(k, h, sp, isTick);
    var k' := Switch(k, h, sp, isTick).k;
    forall t ensures Occ(k, t) <==> Occ(k', t) {
      if t.hart < 2 && t.hart != h { assert t.hart == 1 - h; }
    }
    forall t | Occ(k, t)
      ensures TcbOf(k', t) == TcbOf(k, t).(state := St(k', t), savedSp := TcbOf(k', t).savedSp)
      ensures CalmState(St(k, t), St(k', t))
    {
      if t.hart != h { assert t.hart == 1 - h; }
    }
  }

  lemma {:induction false} SwitchStacks(k: Kernel, h: nat, sp: int, isTick: bool)
    requires h < 2 && SchedMid(k.scheds[h]) && StackInv(k) && CurTid(k, h) in k.stacks
    ensures var k', t := Switch(k, h, sp, isTick).k, CurTid(k, h);
      StackInv(k') <==> (Suspended(k', t) ==> InStack(k, t, sp))
  {
    var k', c := Switch(k, h, sp, isTick).k, CurTid(k, h);
    SwitchEffect(k, h, sp, isTick);
    if Suspended(k', c) ==> InStack(k, c, sp) {
      forall t | Suspended(k', t) ensures t in k'.stacks && InStack(k', t, TcbOf(k', t).savedSp) {
        if t.hart != h {
          assert t.hart == 1 - h;
          assert Suspended(k, t);
        } else if t != c {
          assert Suspended(k, t);
        }
      }
    }
  }

  /** A reschedule turns the mid-trap invariant back into the full one, exactly when a task it switches out
      alive has room for its frame where the stack pointer is. */
  lemma {:induction false} SwitchRestores(k: Kernel, h: nat, sp: int, isTick: bool)
    requires h < 2 && MidInv(k, h)
    ensures var k', t := Switch(k, h, sp, isTick).k, CurTid(k, h);
      Inv(k') <==> (Suspended(k', t) ==> InStack(k, t, sp))
  {
    hide MutexInv, IpcInv;
    var k' := Switch(k, h, sp, isTick).k;
    SwitchCalm(k, h, sp, isTick);
    CalmKeeps(k, k', None);
    CfgKept(k, k');
    SwitchStacks(k, h, sp, isTick);
    assert SchedsOk(k') by { SwitchEffect(k, h, sp, isTick); }
  }
}
