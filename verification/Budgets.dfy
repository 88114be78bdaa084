/** Tick budgets over all runs: a partition that is switched in keeps its hart for exactly its duration. */
module Budgets {
  import opened Tasks
  import opened PartitionScheduler
  import opened KernelState
  import opened KernelSteps
  import opened KernelInvariant
  import opened KernelSafety
  import opened RecoverySafety
  import opened Machine
  import opened Timing

  /** The trap makes its hart reschedule at once: a software interrupt, a fault, or a call that yields,
      unlocks, waits, or terminates its caller. */
  ghost predicate Reschedules(k: Kernel, e: Event)
    requires e.Trap? && e.hart < 2 && Occ(k, CurTid(k, e.hart))
  {
    var k1, id := Stored(k, e), e.frame[REG_A7];
    || e.mcause == SOFTWARE_INTERRUPT || Contained(e.mcause)
    || (&& e.mcause == ECALL_UMODE
        && (|| id == 1 || (id == 4 && UnlockFinds(k1, e.hart, e.sp)) || WouldBlock(k1, e.hart, e.sp)
            || (id == 8 && Named(k, e.frame[REG_A0]) == Some(CurTid(k, e.hart)))))
  }

  lemma {:induction false} SyscallReschedules(k: Kernel, h: nat, sp: int)
    requires h < 2 && Occ(k, CurTid(k, h)) && !Syscall(k, h, sp).Panic?
    ensures var p, id := Syscall(k, h, sp), Reg(k.mem, sp, REG_A7);
      && (p.Resched? ==> !p.isTick)
      && (p.Resched? <==>
            || id == 1 || (id == 4 && UnlockFinds(k, h, sp)) || WouldBlock(k, h, sp)
            || (id == 8 && Named(k, Reg(k.mem, sp, REG_A0)) == Some(CurTid(k, h))))
  {
    hide Reg, PutReg, Copy, Killed, HighestWaiter, Rendezvous;
  }

  lemma {:induction false} BodyReschedules(k: Kernel, e: Event)
    requires Inv(k) && e.Trap? && Enabled(k, e)
    ensures !PlanOf(k, e).Panic?
    ensures PlanOf(k, e).Resched? <==> e.mcause == TIMER_INTERRUPT || Reschedules(k, e)
    ensures PlanOf(k, e).Resched? ==> (PlanOf(k, e).isTick <==> e.mcause == TIMER_INTERRUPT)
  {
    hide Inv, MidInv, Syscall, WouldBlock, UnlockTarget, Killed, PutFrame, Ticked, CallOk;
    BodySafe(k, e);
    StoredRegs(k, e);
    if e.mcause == ECALL_UMODE { SyscallReschedules(Stored(k, e), e.hart, e.sp); }
  }

  // ---- One step ----

  /** What a trap of hart `h` does to its current partition and the ticks left to it. `s1` is the hart's
      scheduler with this trap's wake-ups done. */
  ghost predicate BudgetStep(s: Sched, s1: Sched, s': Sched, tick: bool, resched: bool)
    requires s.current < 32
  {
    && s'.durations == s.durations
    && (s'.current != s.current ==> s'.current < 32 && s'.remaining == s.durations[s'.current])
    && (s'.current == s.current ==>
          s'.remaining == (if !tick then s.remaining
                           else if s.remaining == 1 then s.durations[s.current] else s.remaining - 1))
    && (StateIs(s, s.current, Running) && !resched ==>
          (s'.current != s.current <==> tick && s.remaining == 1 && HasNext(s1)))
  }

  lemma {:induction false} SwitchBudget(k: Kernel, h: nat, sp: int, isTick: bool)
    requires h < 2 && SchedMid(k.scheds[h])
    ensures var s, s' := k.scheds[h], Switch(k, h, sp, isTick).k.scheds[h];
      && s'.durations == s.durations
      && (s'.current != s.current ==> s'.current < 32 && s'.remaining == s.durations[s'.current])
      && (s'.current == s.current ==>
            s'.remaining == (if !isTick then s.remaining
                             else if s.remaining == 1 then s.durations[s.current] else s.remaining - 1))
      && (s'.current != s.current <==>
            !StateIs(s, s.current, Running) || ((!isTick || s.remaining == 1) && HasNext(s)))
  {
    hide HasNext;
    SwitchEffect(k, h, sp, isTick);
    ScheduleRestores(k.scheds[h], isTick);
    if Scheduled(k.scheds[h], isTick).1 == None { ScheduleDeclines(k.scheds[h], isTick); }
    ScheduleMoves(k.scheds[h], isTick);
  }

  /** The hart's scheduler with the wake-ups of a timer trap done. */
  function Woken(k: Kernel, e: Event): (s: Sched)
    requires e.Trap? && e.hart < 2
  {
    if e.mcause == TIMER_INTERRUPT then Ticked(k, e.hart).scheds[e.hart] else k.scheds[e.hart]
  }

  lemma {:induction false} TrapBudget(k: Kernel, e: Event)
    requires Inv(k) && e.Trap? && Enabled(k, e)
    ensures k.scheds[e.hart].current < 32
    ensures BudgetStep(k.scheds[e.hart], Woken(k, e), Next(k, e).scheds[e.hart],
                       e.mcause == TIMER_INTERRUPT, Reschedules(k, e))
  {
    hide Inv, MidInv, Body, CallOk, Reschedules, HasNext, PutFrame, Killed, Steady;
    var k1, p, h := Stored(k, e), PlanOf(k, e), e.hart;
    BodySafe(k, e);
    FinishSafe(k, e);
    CurrentAlive(k, h);
    PlanMid(k1, p, h);
    PlanDurations(k1, p, h);
    BodyReschedules(k, e);
    if p.Resched? { SwitchBudget(p.k, h, e.sp, p.isTick); }
    if e.mcause == TIMER_INTERRUPT { TickPlan(k, e); }
  }

  lemma {:induction false} PlanDurations(k: Kernel, p: Plan, h: nat)
    requires h < 2 && PlanOk(k, p, h)
    ensures p.k.scheds[h].durations == k.scheds[h].durations
  {}

  lemma {:induction false} TickPlan(k: Kernel, e: Event)
    requires Inv(k) && e.Trap? && Enabled(k, e) && e.mcause == TIMER_INTERRUPT
    ensures PlanOf(k, e).Resched? && PlanOf(k, e).k.scheds[e.hart] == Woken(k, e)
    ensures var i := k.scheds[e.hart].current;
      StateIs(Woken(k, e), i, Running) <==> StateIs(k.scheds[e.hart], i, Running)
  {
    hide PutFrame;
    TickDisplaces(k, Stored(k, e), e.hart);
  }

  /** Traps of the other hart, restarts and stores leave the hart's current partition and budget alone. */
  lemma {:induction false} OtherBudget(k: Kernel, e: Event, h: nat)
    requires Inv(k) && Enabled(k, e) && h < 2 && (e.Trap? ==> e.hart != h)
    ensures var s, s' := k.scheds[h], Next(k, e).scheds[h];
      s'.current == s.current && s'.remaining == s.remaining && s'.durations == s.durations
  {
    hide Body, CallOk, MutexInv, IpcInv, StackInv, Cfg, PutFrame, PutBytes, Scheduled, Switch, SchedMid, SchedOk;
    if e.Trap? {
      BodySafe(k, e);
      if PlanOf(k, e).Resched? { SwitchEffect(PlanOf(k, e).k, e.hart, e.sp, PlanOf(k, e).isTick); }
    }
  }

  // ---- Over runs ----

  /** In every run, whoever is switched in starts with its partition's full duration. */
  lemma {:induction false} FullBudget(ks: seq<Kernel>, es: seq<Event>, n: nat, h: nat)
    requires Run(ks, es) && n < |es| && h < 2 && ks[n + 1].scheds[h].current != ks[n].scheds[h].current
    ensures var s := ks[n + 1].scheds[h]; s.current < 32 && s.remaining == s.durations[s.current]
  {
    hide Inv, Enabled, Next, Reschedules, HasNext;
    RunStep(ks, es, n);
    if es[n].Trap? && es[n].hart == h { TrapBudget(ks[n], es[n]); } else { OtherBudget(ks[n], es[n], h); }
  }

  /** `t` was switched in by event `i`, and up to event `n` neither was it killed nor did its hart reschedule
      at once. */
  ghost predicate Undisplaced(ks: seq<Kernel>, es: seq<Event>, t: Tid, i: nat, n: nat)
    requires |ks| == |es| + 1
  {
    && i < n <= |es| && t.hart < 2 && CurTid(ks[i], t.hart) != t && CurTid(ks[i + 1], t.hart) == t
    && forall x :: i < x < n ==> Calmly(ks[x], es[x], t)
  }

  /** `t` is alive, and this event is no rescheduling trap of its hart. */
  ghost predicate Calmly(k: Kernel, e: Event, t: Tid) {
    && InState(k, t, Running)
    && (e.Trap? && e.hart == t.hart && e.hart < 2 && Occ(k, CurTid(k, e.hart)) ==> !Reschedules(k, e))
  }

  /** Timer traps of hart `h` among events i, ..., n-1. */
  function TicksIn(es: seq<Event>, h: nat, i: nat, n: nat): (c: nat)
    requires i <= n <= |es|
    decreases n - i
  {
    if n == i then 0 else TicksIn(es, h, i, n - 1) + if IsTick(es[n - 1], h) then 1 else 0
  }

  lemma {:induction false} CalmStep(k: Kernel, e: Event, t: Tid)
    requires Inv(k) && Enabled(k, e) && t.hart < 2 && CurTid(k, t.hart) == t && Calmly(k, e, t)
    ensures var s, s' := k.scheds[t.hart], Next(k, e).scheds[t.hart];
      && s'.durations == s.durations && s.current < 32
      && (if IsTick(e, t.hart) && s.remaining == 1 then
            if HasNext(Woken(k, e)) then s'.current != s.current
            else s'.current == s.current && s'.remaining == s.durations[s.current]
          else s'.current == s.current && s'.remaining == s.remaining - if IsTick(e, t.hart) then 1 else 0)
  {
    hide Inv, Enabled, Next, Reschedules, HasNext;
    if e.Trap? && e.hart == t.hart { TrapBudget(k, e); } else { CurrentAlive(k, t.hart); OtherBudget(k, e, t.hart); }
  }

  /** In every run a task that is switched in, is not killed and does not make its hart reschedule keeps the
      hart for exactly its partition's duration: after fewer timer traps of the hart it still runs, with one
      tick less for each; the last one takes the hart from it if anybody else can run, and otherwise starts
      a new budget. */
  lemma {:induction false} BudgetExact(ks: seq<Kernel>, es: seq<Event>, t: Tid, i: nat, n: nat)
    requires Run(ks, es) && Undisplaced(ks, es, t, i, n)
    requires t.slot < 32 && TicksIn(es, t.hart, i + 1, n) < ks[0].scheds[t.hart].durations[t.slot]
    ensures CurTid(ks[n], t.hart) == t
    ensures ks[n].scheds[t.hart].remaining == ks[0].scheds[t.hart].durations[t.slot] - TicksIn(es, t.hart, i + 1, n)
    ensures (n < |es| && IsTick(es[n], t.hart) && InState(ks[n], t, Running)
             && TicksIn(es, t.hart, i + 1, n + 1) == ks[0].scheds[t.hart].durations[t.slot])
            ==> if HasNext(Woken(ks[n], es[n])) then CurTid(ks[n + 1], t.hart) != t
                else CurTid(ks[n + 1], t.hart) == t
                     && ks[n + 1].scheds[t.hart].remaining == ks[0].scheds[t.hart].durations[t.slot]
    decreases n
  {
    hide Inv, Enabled, Next, Reschedules, HasNext, StepAt, Ticked;
    RunConfig(ks, es, n);
    if n == i + 1 {
      FullBudget(ks, es, i, t.hart);
    } else {
      BudgetExact(ks, es, t, i, n - 1);
      assert Calmly(ks[n - 1], es[n - 1], t);
      RunStep(ks, es, n - 1);
      RunConfig(ks, es, n - 1);
      CalmStep(ks[n - 1], es[n - 1], t);
    }
    if n < |es| && IsTick(es[n], t.hart) && InState(ks[n], t, Running) {
      RunStep(ks, es, n);
      TickCalm(ks[n], es[n], t);
      CalmStep(ks[n], es[n], t);
    }
  }

  lemma {:induction false} TickCalm(k: Kernel, e: Event, t: Tid)
    requires IsTick(e, t.hart) && InState(k, t, Running)
    ensures Calmly(k, e, t)
  {
    hide PutFrame, WouldBlock;
  }
}
