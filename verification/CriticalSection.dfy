/** Who is inside a critical section, from the task's own view: a task that the other hart kills keeps
    executing until its hart reschedules, so exclusion is stated with that, and made exact. */
module CriticalSection {
  import opened Tasks
  import opened PartitionScheduler
  import opened KernelState
  import opened KernelSteps
  import opened KernelInvariant
  import opened KernelSafety
  import opened RecoverySafety
  import opened Machine
  import opened Timing
  import opened MutualExclusion
  import opened CallTheorems

  predicate Current(k: Kernel, t: Tid) { t.hart < 2 && k.scheds[t.hart].current == t.slot }

  /** As belief, but death ends it only when the task no longer executes. */
  ghost predicate InsideAfter(b: bool, k: Kernel, k': Kernel, t: Tid, m: nat, locked: bool, unlocked: bool)
    requires Occ(k, t) && Occ(k', t)
  {
    if St(k', t) == Terminated then b && Current(k', t)
    else BeliefAfter(b, k, k', t, m, locked, unlocked)
  }

  /** Task `t` is inside the critical section of `m` after the first `n` events, nobody inside at the
      start. */
  ghost predicate Inside(ks: seq<Kernel>, es: seq<Event>, t: Tid, m: nat, n: nat)
    requires |ks| == |es| + 1 && n <= |es|
  {
    && n > 0 && Occ(ks[n - 1], t) && Occ(ks[n], t)
    && InsideAfter(Inside(ks, es, t, m, n - 1), ks[n - 1], ks[n], t, m,
         LockReturned(ks[n - 1], es[n - 1], ks[n], t, m), UnlockReturned(ks[n - 1], es[n - 1], ks[n], t, m))
  }

  /** `t` was killed while it owned `m`, and its hart has not rescheduled since. */
  ghost predicate Stray(ks: seq<Kernel>, es: seq<Event>, t: Tid, m: nat, n: nat)
    requires |ks| == |es| + 1 && n <= |es|
  {
    && n > 0 && InState(ks[n], t, Terminated) && Current(ks[n], t)
    && (OwnerOf(ks[n - 1], m) == Some(t) || Stray(ks, es, t, m, n - 1))
  }

  /** A dead task that is still current stays dead: no event restarts it. */
  lemma {:induction false} DeadStaysDead(k: Kernel, e: Event, t: Tid)
    requires Inv(k) && Enabled(k, e) && InState(k, t, Terminated) && Current(k, t)
    ensures InState(Next(k, e), t, Terminated)
  {
    hide Body, Finish, CallOk, MutexInv, IpcInv, StackInv, Cfg, SchedOk, PutFrame, PutBytes;
    if e.Trap? { TrapStaysDead(k, e, t); }
  }

  lemma {:induction false} TrapStaysDead(k: Kernel, e: Event, t: Tid)
    requires Inv(k) && e.Trap? && Enabled(k, e) && InState(k, t, Terminated)
    ensures InState(Next(k, e), t, Terminated)
  {
    hide Body, Inv, CallOk, MutexInv, IpcInv, StackInv, Cfg, PutFrame, Switch, SchedMid, SchedOk;
    BodySafe(k, e);
    if PlanOf(k, e).Resched? { SwitchTask(PlanOf(k, e).k, e.hart, e.sp, PlanOf(k, e).isTick, t); }
  }

  /** In every run a task is inside exactly when it is the recorded owner or a stray. */
  lemma {:induction false} InsideExact(ks: seq<Kernel>, es: seq<Event>, t: Tid, m: nat, n: nat)
    requires Run(ks, es) && n <= |es| && Occ(ks[0], t) && OwnerOf(ks[0], m) == None
    ensures Inside(ks, es, t, m, n) <==> OwnerOf(ks[n], m) == Some(t) || Stray(ks, es, t, m, n)
  {
    hide Inv, Enabled, Next, LockReturned, UnlockReturned, OwnerOf;
    if n > 0 {
      InsideExact(ks, es, t, m, n - 1);
      BeliefIsOwnership(ks, es, t, m, n - 1);
      BeliefIsOwnership(ks, es, t, m, n);
      RunConfig(ks, es, n - 1);
      RunConfig(ks, es, n);
      RunStep(ks, es, n - 1);
      if Stray(ks, es, t, m, n - 1) {
        DeadStaysDead(ks[n - 1], es[n - 1], t);
      }
    }
  }

  /** The other hart's running task terminates `t`, which runs and owns `m`. */
  ghost predicate KillsOwner(k: Kernel, e: Event, t: Tid, m: nat) {
    && IsCall(e, 8) && e.hart < 2 && t.hart < 2 && t.hart != e.hart && Named(k, e.frame[REG_A0]) == Some(t)
    && Current(k, t) && OwnerOf(k, m) == Some(t)
  }

  // ---- Who dies in a step ----

  /** Only a kill or a fault terminates, and only its target. */
  ghost predicate DeathsOf(k: Kernel, k1: Kernel, dead: Option<Tid>, t: Tid)
    requires Occ(k, t)
  {
    Occ(k1, t) && (St(k1, t) == Terminated && Some(t) != dead ==> St(k, t) == Terminated)
  }

  lemma {:induction false} UnlockDeaths(k: Kernel, h: nat, sp: int, t: Tid)
    requires h < 2 && Occ(k, CurTid(k, h)) && !Unlock(k, h, sp).Panic? && Occ(k, t)
    ensures DeathsOf(k, Unlock(k, h, sp).k, None, t)
  {
    hide HighestWaiter, PutReg, Reg;
  }

  lemma {:induction false} LockDeaths(k: Kernel, h: nat, sp: int, t: Tid)
    requires h < 2 && Occ(k, CurTid(k, h)) && !Lock(k, h, sp).Panic? && Occ(k, t)
    ensures DeathsOf(k, Lock(k, h, sp).k, None, t)
  {
    hide PutReg, Reg;
  }

  lemma {:induction false} SendDeaths(k: Kernel, h: nat, sp: int, t: Tid)
    requires h < 2 && Occ(k, CurTid(k, h)) && Occ(k, t)
    ensures DeathsOf(k, Send(k, h, sp).k, None, t)
  {
    hide PutReg, Reg, Copy, Find;
  }

  lemma {:induction false} RecvDeaths(k: Kernel, h: nat, sp: int, t: Tid)
    requires h < 2 && Occ(k, CurTid(k, h)) && Occ(k, t)
    ensures DeathsOf(k, Recv(k, h, sp).k, None, t)
  {
    hide PutReg, Reg, Copy, Find;
  }

  lemma {:induction false} KillDeaths(k: Kernel, k1: Kernel, u: Tid, t: Tid)
    requires Inv(k) && Occ(k, u) && Occ(k, t) && !St(k, u).BlockedOnMutex? && k1.scheds == Killed(k, u).scheds
    ensures DeathsOf(k, k1, Some(u), t)
  {
    hide Killed, MutexInv, IpcInv, Cfg, StackInv;
    KilledStates(k, u);
  }

  lemma {:induction false} SyscallDeaths(k: Kernel, h: nat, sp: int, t: Tid)
    requires h < 2 && Inv(k) && Occ(k, CurTid(k, h)) && SyscallOk(k, h, sp) && !Syscall(k, h, sp).Panic? && Occ(k, t)
    ensures DeathsOf(k, Syscall(k, h, sp).k,
                     if Reg(k.mem, sp, REG_A7) == 8 then Named(k, Reg(k.mem, sp, REG_A0)) else None, t)
  {
    hide Lock, Unlock, Send, Recv, Killed, Inv, Reg, WouldBlock, WouldGrant;
    var id := Reg(k.mem, sp, REG_A7);
    if id == 3 { LockDeaths(k, h, sp, t); }
    else if id == 4 { UnlockDeaths(k, h, sp, t); }
    else if id == 6 { SendDeaths(k, h, sp, t); }
    else if id == 7 { RecvDeaths(k, h, sp, t); }
    else if id == 8 && Named(k, Reg(k.mem, sp, REG_A0)).Some? {
      KillDeaths(k, Terminate(k, h, sp).k, Named(k, Reg(k.mem, sp, REG_A0)).value, t);
    }
  }

  lemma {:induction false} BodyDeaths(k: Kernel, e: Event, t: Tid)
    requires Inv(k) && e.Trap? && Enabled(k, e) && Occ(k, t)
    ensures !PlanOf(k, e).Panic?
    ensures DeathsOf(k, PlanOf(k, e).k,
                     if IsCall(e, 8) then Named(k, e.frame[REG_A0])
                     else if Contained(e.mcause) then Some(CurTid(k, e.hart)) else None, t)
  {
    hide Inv, MidInv, Steady, Syscall, Killed, PutFrame, Ticked, Reg;
    var k1, h := Stored(k, e), e.hart;
    BodySafe(k, e);
    SameTablesKeep(k, k1);
    StoredRegs(k, e);
    if e.mcause == TIMER_INTERRUPT {
      TickedTasks(k1, h);
    } else if e.mcause == ECALL_UMODE {
      SyscallDeaths(k1, h, e.sp, t);
    } else if Contained(e.mcause) {
      FaultDeaths(k1, h, t);
    }
  }

  lemma {:induction false} FaultDeaths(k: Kernel, h: nat, t: Tid)
    requires h < 2 && Inv(k) && Occ(k, CurTid(k, h)) && Occ(k, t)
    ensures DeathsOf(k, Killed(k, CurTid(k, h)), Some(CurTid(k, h)), t)
  {
    hide Killed, MutexInv, IpcInv, Cfg, StackInv;
    assert SchedOk(k.scheds[h]);
    KillDeaths(k, Killed(k, CurTid(k, h)), CurTid(k, h), t);
  }

  /** After a reschedule of its hart a dead task is no longer current. */
  lemma {:induction false} ReschedLeaves(k: Kernel, h: nat, sp: int, isTick: bool, t: Tid)
    requires h < 2 && SchedMid(k.scheds[h]) && InState(Switch(k, h, sp, isTick).k, t, Terminated) && t.hart == h
    ensures !Current(Switch(k, h, sp, isTick).k, t)
  {
    SwitchEffect(k, h, sp, isTick);
  }

  /** A task becomes a stray exactly when the other hart kills it while it runs and owns the mutex. */
  lemma {:induction false} StrayStep(k: Kernel, e: Event, t: Tid, m: nat)
    requires Inv(k) && Enabled(k, e) && Occ(k, t) && OwnerOf(k, m) == Some(t)
    ensures InState(Next(k, e), t, Terminated) && Current(Next(k, e), t) <==> KillsOwner(k, e, t, m)
  {
    hide Inv, Next, CallOk, OwnerOf;
    OwnerLives(k, t, m);
    if KillsOwner(k, e, t, m) {
      TerminateStep(k, e, t);
      OtherHartKept(k, e, t);
    } else if InState(Next(k, e), t, Terminated) && Current(Next(k, e), t) {
      StrayNeedsKill(k, e, t);
    }
  }

  lemma {:induction false} OwnerLives(k: Kernel, t: Tid, m: nat)
    requires Inv(k) && Occ(k, t) && OwnerOf(k, m) == Some(t)
    ensures St(k, t) != Terminated
  {
    if St(k, t) == Terminated { TerminatedOwnsNothing(k, t, m); }
  }

  lemma {:induction false} OtherHartKept(k: Kernel, e: Event, t: Tid)
    requires Inv(k) && e.Trap? && Enabled(k, e) && t.hart < 2 && t.hart != e.hart
    ensures Current(Next(k, e), t) <==> Current(k, t)
  {
    hide Body, CallOk, MutexInv, IpcInv, StackInv, Cfg, PutFrame, Scheduled, Switch, SchedMid, SchedOk;
    BodySafe(k, e);
    if PlanOf(k, e).Resched? { SwitchEffect(PlanOf(k, e).k, e.hart, e.sp, PlanOf(k, e).isTick); }
  }

  lemma {:induction false} StrayNeedsKill(k: Kernel, e: Event, t: Tid)
    requires Inv(k) && Enabled(k, e) && Occ(k, t) && St(k, t) != Terminated
    requires InState(Next(k, e), t, Terminated) && Current(Next(k, e), t)
    ensures IsCall(e, 8) && t.hart != e.hart && Named(k, e.frame[REG_A0]) == Some(t) && Current(k, t)
  {
    hide Body, CallOk, MutexInv, IpcInv, StackInv, Cfg, PutFrame, PutBytes, Switch;
    if e.Trap? {
      var p := PlanOf(k, e);
      BodySafe(k, e);
      BodyDeaths(k, e, t);
      if p.Resched? {
        SwitchTask(p.k, e.hart, e.sp, p.isTick, t);
        if t.hart == e.hart { ReschedLeaves(p.k, e.hart, e.sp, p.isTick, t); }
      }
      if t.hart != e.hart { OtherHartKept(k, e, t); } else { ReturnsDead(k, e, t); }
    }
  }

  /** A hart that kills its own running task reschedules. */
  lemma {:induction false} ReturnsDead(k: Kernel, e: Event, t: Tid)
    requires Inv(k) && e.Trap? && Enabled(k, e) && t.hart == e.hart && Occ(k, t)
    requires St(k, t) != Terminated && Current(k, t)
    requires !PlanOf(k, e).Panic? && InState(PlanOf(k, e).k, t, Terminated)
    ensures PlanOf(k, e).Resched?
  {
    hide Inv, PutFrame, Lock, Unlock, Send, Recv, Killed, Reg;
    StoredRegs(k, e);
    BodyDeaths(k, e, t);
  }

  // ---- Over runs ----

  lemma {:induction false} StrayStarts(ks: seq<Kernel>, es: seq<Event>, t: Tid, m: nat, n: nat)
    requires Run(ks, es) && n < |es| && Occ(ks[n], t) && OwnerOf(ks[n], m) == Some(t)
    ensures Stray(ks, es, t, m, n + 1) <==> KillsOwner(ks[n], es[n], t, m)
  {
    hide Inv, Enabled, Next, OwnerOf, StepAt, KillsOwner;
    RunStep(ks, es, n);
    StrayStep(ks[n], es[n], t, m);
  }

  /** Event `x` was a kill of `t`, running and owner of `m`, and the hart of `t` has not switched away from it
      since. */
  ghost predicate KilledAt(ks: seq<Kernel>, es: seq<Event>, t: Tid, m: nat, n: nat, x: nat)
    requires |ks| == |es| + 1 && n <= |es|
  {
    && x < n && KillsOwner(ks[x], es[x], t, m)
    && forall y :: x < y <= n ==> Current(ks[y], t)
  }

  ghost predicate KilledSince(ks: seq<Kernel>, es: seq<Event>, t: Tid, m: nat, n: nat)
    requires |ks| == |es| + 1 && n <= |es|
  {
    exists x :: KilledAt(ks, es, t, m, n, x)
  }

  /** A stray in terms of events: there was such a kill, and no switch away since. */
  lemma {:induction false} StrayExact(ks: seq<Kernel>, es: seq<Event>, t: Tid, m: nat, n: nat)
    requires Run(ks, es) && n <= |es| && Occ(ks[0], t)
    ensures Stray(ks, es, t, m, n) <==> KilledSince(ks, es, t, m, n)
  {
    hide Inv, OwnerOf, StepAt, KillsOwner, Current;
    if n > 0 {
      StrayExact(ks, es, t, m, n - 1);
      RunConfig(ks, es, n - 1);
      RunConfig(ks, es, n);
      if OwnerOf(ks[n - 1], m) == Some(t) { StrayStarts(ks, es, t, m, n - 1); }
      if Stray(ks, es, t, m, n) {
        KilledFrom(ks, es, t, m, n);
      } else if KilledSince(ks, es, t, m, n) {
        KilledStrays(ks, es, t, m, n);
      }
    }
  }

  lemma {:induction false} KilledFrom(ks: seq<Kernel>, es: seq<Event>, t: Tid, m: nat, n: nat)
    requires Run(ks, es) && 0 < n <= |es| && Current(ks[n], t)
    requires KillsOwner(ks[n - 1], es[n - 1], t, m) || KilledSince(ks, es, t, m, n - 1)
    ensures KilledSince(ks, es, t, m, n)
  {
    hide Inv, StepAt, KillsOwner, Current;
    if KillsOwner(ks[n - 1], es[n - 1], t, m) {
      assert KilledAt(ks, es, t, m, n, n - 1);
    } else {
      var x :| KilledAt(ks, es, t, m, n - 1, x);
      assert KilledAt(ks, es, t, m, n, x);
    }
  }

  lemma {:induction false} KilledStrays(ks: seq<Kernel>, es: seq<Event>, t: Tid, m: nat, n: nat)
    requires Run(ks, es) && 0 < n <= |es| && KilledSince(ks, es, t, m, n) && Occ(ks[n - 1], t)
    requires KilledSince(ks, es, t, m, n - 1) ==> Stray(ks, es, t, m, n - 1)
    ensures Stray(ks, es, t, m, n)
  {
    hide Inv, StepAt, Current, Enabled, Next;
    var x :| KilledAt(ks, es, t, m, n, x);
    if x == n - 1 {
      StrayStarts(ks, es, t, m, n - 1);
    } else {
      assert KilledAt(ks, es, t, m, n - 1, x);
      RunStep(ks, es, n - 1);
      DeadStaysDead(ks[n - 1], es[n - 1], t);
    }
  }

  /** Exclusion, exactly: two tasks are inside at once if and only if one of them was killed from the other
      hart while it ran and owned the mutex, its hart has not switched away since, and the other task owns
      the mutex or was killed so too. */
  lemma {:induction false} ExclusionExact(ks: seq<Kernel>, es: seq<Event>, t: Tid, u: Tid, m: nat, n: nat)
    requires Run(ks, es) && n <= |es| && Occ(ks[0], t) && Occ(ks[0], u) && t != u && OwnerOf(ks[0], m) == None
    ensures Inside(ks, es, t, m, n) && Inside(ks, es, u, m, n) <==>
      || (KilledSince(ks, es, t, m, n) && (OwnerOf(ks[n], m) == Some(u) || KilledSince(ks, es, u, m, n)))
      || (KilledSince(ks, es, u, m, n) && OwnerOf(ks[n], m) == Some(t))
  {
    hide Inv, StepAt, Inside, Stray, OwnerOf, KilledSince;
    InsideExact(ks, es, t, m, n);
    InsideExact(ks, es, u, m, n);
    StrayExact(ks, es, t, m, n);
    StrayExact(ks, es, u, m, n);
  }

  /** So a run in which no running owner is killed from the other hart never has two tasks inside. */
  lemma {:induction false} ExclusionWithoutKills(ks: seq<Kernel>, es: seq<Event>, t: Tid, u: Tid, m: nat, n: nat)
    requires Run(ks, es) && n <= |es| && Occ(ks[0], t) && Occ(ks[0], u) && OwnerOf(ks[0], m) == None
    requires forall x :: 0 <= x < n ==> !KillsOwner(ks[x], es[x], t, m) && !KillsOwner(ks[x], es[x], u, m)
    requires Inside(ks, es, t, m, n) && Inside(ks, es, u, m, n)
    ensures t == u
  {
    hide Inv, StepAt, Inside, OwnerOf, KillsOwner;
    if t != u { ExclusionExact(ks, es, t, u, m, n); }
  }

  /** And where one is killed while another task waits, two are inside right after: the killed task, which
      still executes, and the heir. */
  lemma {:induction false} KillAdmitsTwo(ks: seq<Kernel>, es: seq<Event>, t: Tid, m: nat, n: nat) returns (u: Tid)
    requires Run(ks, es) && n < |es| && Occ(ks[0], t) && OwnerOf(ks[0], m) == None
    requires KillsOwner(ks[n], es[n], t, m) && ks[n].mutexes[m].value.waiters != {}
    ensures u != t && Occ(ks[0], u) && Inside(ks, es, t, m, n + 1) && Inside(ks, es, u, m, n + 1)
  {
    hide Inv, StepAt, Inside, Stray, Enabled, Next;
    RunConfig(ks, es, n);
    RunConfig(ks, es, n + 1);
    RunStep(ks, es, n);
    StrayStarts(ks, es, t, m, n);
    InsideExact(ks, es, t, m, n + 1);
    u := HeirOf(ks[n], es[n], t, m);
    InsideExact(ks, es, u, m, n + 1);
  }

  lemma {:induction false} HeirOf(k: Kernel, e: Event, t: Tid, m: nat) returns (u: Tid)
    requires Inv(k) && Enabled(k, e) && KillsOwner(k, e, t, m) && k.mutexes[m].value.waiters != {} && Inv(Next(k, e))
    ensures u != t && Occ(Next(k, e), u) && OwnerOf(Next(k, e), m) == Some(u)
  {
    hide Next, Enabled, IpcInv, StackInv, SchedsOk, Cfg;
    TerminateStep(k, e, t);
    assert OwnerOf(Next(k, e), m) != Some(t);
    assert MutexOk(Next(k, e), m, None) && MutexOk(k, m, None);
    u := OwnerOf(Next(k, e), m).value;
  }
}
