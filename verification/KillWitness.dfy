/** Runs from boot in which syscall 8 names a task at the wrong moment: inside its critical section, just
    before its restart, and while it holds SCHED_LOCK. */
module KillWitnesses {
  import opened Tasks
  import opened PartitionScheduler
  import opened KernelState
  import opened KernelSteps
  import opened KernelInvariant
  import opened KernelSafety
  import opened Machine
  import opened MutualExclusion
  import opened CriticalSection
  import opened Timing
  import opened Boot
  import opened Witnesses
  import G = Guards
  import L = LockInterrupts
  import O = LockOrder

  // ---- Two tasks inside one critical section ----

  /** Task C runs on hart 1 and owns mutex 0, with `ws` waiting. */
  ghost predicate CHolds(k: Kernel, stacks: map<Tid, Stack>, ws: set<nat>) {
    && Inv(k) && k.stacks == stacks && CurTid(k, 1) == TASK_C && InState(k, TASK_C, Running) && !Occ(k, Tid(0, 3))
    && k.mutexes[0] == Some(KMutex(true, Some(3), ws))
  }

  /** Hart 0 runs `cur`; Task A, which may lock mutex 0, is in state `st`. */
  ghost predicate ASide(k: Kernel, cur: Tid, st: TaskState) {
    && CurTid(k, 0) == cur && InState(k, cur, Running)
    && InState(k, TASK_A, st) && TcbOf(k, TASK_A).capabilities == TASK_A_CAPS
  }

  lemma {:induction false} TaskCLocks(k: Kernel, stacks: map<Tid, Stack>, statics: Stack) returns (e: Event, k': Kernel)
    requires StacksPlaced(stacks, statics) && Addressable(stacks) && WatchdogWithC(k, stacks)
    ensures Steps(k, e, k') && CHolds(k', stacks, {}) && ASide(k', WATCHDOG, Ready)
  {
    hide StacksPlaced, Inv, Enabled, Steps, BootSp, NameOf, LockReturned, PutReg, PutFrame;
    BootTasks();
    BootStacks(stacks, statics);
    e := CallEvent(1, stacks[TASK_C].base, 3, 0, 0, 0, 0);
    FrameClear(k, TASK_C, e.sp);
    InvParts(k);
    LockRuns(k, e, TASK_C);
    k' := SetA0(GrantFree(Stored(k, e), 0, FREE, TASK_C), e.sp, 0);
    StepsIsNext(k, e, k');
  }

  lemma {:induction false} InvParts(k: Kernel)
    requires Inv(k)
    ensures Consistent(k)
  {}

  lemma {:induction false} WatchdogSteps(k: Kernel, stacks: map<Tid, Stack>, statics: Stack)
    returns (e: Event, k': Kernel)
    requires StacksPlaced(stacks, statics) && Addressable(stacks) && CHolds(k, stacks, {}) && ASide(k, WATCHDOG, Ready)
    ensures Steps(k, e, k') && CHolds(k', stacks, {}) && ASide(k', TASK_A, Running)
  {
    hide StacksPlaced, Inv, Enabled, Steps, Next, BootSp, NameOf, PutFrame;
    BootTasks();
    BootStacks(stacks, statics);
    e := CallEvent(0, stacks[WATCHDOG].base, 1, 0, 0, 0, 0);
    YieldRuns(k, e, 1);
    NeverStuck(k, e);
    k' := Next(k, e);
    assert k'.scheds[1] == k.scheds[1];
  }

  /** A lock call on a mutex another task owns: the caller waits, and its hart moves on. */
  lemma {:induction false} LockWaits(k: Kernel, e: Event, t: Tid, mx: KMutex)
    requires Inv(k) && CallsOn(k, e, t, 3, 0) && t.slot != IDLE && St(k, t) == Running
    requires t in k.stacks && InStack(k, t, e.sp) && TcbOf(k, t).capabilities[e.frame[REG_A0]].canLock
    requires k.mutexes[0] == Some(mx) && mx.locked && mx.owner != Some(t.slot)
    ensures Enabled(k, e) && Next(k, e).scheds[1 - e.hart] == k.scheds[1 - e.hart] && SameConfig(k, Next(k, e))
    ensures Next(k, e).mutexes[0] == Some(mx.(waiters := mx.waiters + {t.slot}))
  {
    hide PutFrame, Switch, Inv, Body, CallOk, MidInv;
    LockPlan(k, e, t, mx);
    BodySafe(k, e);
    var k1 := BlockOn(Stored(k, e), 0, mx, t);
    PlanMid(Stored(k, e), PlanOf(k, e), e.hart);
    SwitchOther(k1, e.hart, e.sp);
    StepConfig(k, e);
  }

  lemma {:induction false} LockPlan(k: Kernel, e: Event, t: Tid, mx: KMutex)
    requires Inv(k) && CallsOn(k, e, t, 3, 0) && t.slot != IDLE && St(k, t) == Running
    requires t in k.stacks && InStack(k, t, e.sp) && TcbOf(k, t).capabilities[e.frame[REG_A0]].canLock
    requires k.mutexes[0] == Some(mx) && mx.locked && mx.owner != Some(t.slot)
    ensures Enabled(k, e) && Occ(Stored(k, e), t)
    ensures PlanOf(k, e) == Resched(BlockOn(Stored(k, e), 0, mx, t), false)
  {
    hide PutFrame, Inv, BlockOn, Rd;
    FrameClear(k, t, e.sp);
    StoredRegs(k, e);
  }

  lemma {:induction false} SwitchOther(k: Kernel, h: nat, sp: int)
    requires h < 2 && SchedMid(k.scheds[h])
    ensures Switch(k, h, sp, false).k.scheds[1 - h] == k.scheds[1 - h] && Switch(k, h, sp, false).k.mutexes == k.mutexes
  {
    SwitchEffect(k, h, sp, false);
  }

  lemma {:induction false} TaskAWaits(k: Kernel, stacks: map<Tid, Stack>, statics: Stack) returns (e: Event, k': Kernel)
    requires StacksPlaced(stacks, statics) && Addressable(stacks) && CHolds(k, stacks, {}) && ASide(k, TASK_A, Running)
    ensures Steps(k, e, k') && CHolds(k', stacks, {1})
  {
    hide StacksPlaced, Inv, Enabled, Steps, Next, BootSp, NameOf, PutFrame;
    BootTasks();
    BootStacks(stacks, statics);
    e := CallEvent(0, stacks[TASK_A].base, 3, 0, 0, 0, 0);
    LockWaits(k, e, TASK_A, KMutex(true, Some(3), {}));
    NeverStuck(k, e);
    k' := Next(k, e);
    assert k'.scheds[1] == k.scheds[1];
    assert {} + {1} == {1 as nat};
  }

  /** Whichever task hart 0 runs kills Task C inside its critical section. */
  lemma {:induction false} KillsC(k: Kernel, stacks: map<Tid, Stack>) returns (e: Event, k': Kernel)
    requires CHolds(k, stacks, {1})
    ensures Steps(k, e, k') && KillsOwner(k, e, TASK_C, 0) && k.mutexes[0].value.waiters != {}
  {
    hide Inv, Enabled, Steps, Next, PutFrame;
    CurrentAlive(k, 0);
    var c := CurTid(k, 0);
    StackOf(k, c);
    e := CallEvent(0, k.stacks[c].base, 8, 3, 0, 0, 0);
    KillRuns(k, e, TASK_C);
    NeverStuck(k, e);
    k' := Next(k, e);
    assert 1 in k.mutexes[0].value.waiters;
  }

  lemma {:induction false} StackOf(k: Kernel, t: Tid)
    requires Inv(k) && Occ(k, t)
    ensures t in k.stacks && InStack(k, t, k.stacks[t].base)
  {}

  /** Five events from boot. Task B yields to Task C, which locks mutex 0; Watchdog yields to Task A, which
      locks it too and waits; the task hart 0 runs next terminates Task C. Task C still executes, Task A has
      inherited the mutex, and both are inside. */
  lemma {:induction false} TwoInsideFromBoot(k: Kernel, r: Kernel, stacks: map<Tid, Stack>, statics: Stack)
    returns (ks: seq<Kernel>, es: seq<Event>)
    requires StacksPlaced(stacks, statics) && Booted(k, r, stacks, statics) && Addressable(stacks)
    ensures |ks| == |es| + 1 == 6 && ks[0] == k && Run(ks, es) && KillsOwner(ks[4], es[4], TASK_C, 0)
    ensures Inside(ks, es, TASK_C, 0, 5) && Inside(ks, es, TASK_A, 0, 5)
  {
    hide StacksPlaced, Booted, Inv, Steps, NameOf, WatchdogWithC, ASide, Inside, KillsOwner, CHolds;
    var e0, k1 := TaskBYields(k, r, stacks, statics);
    var e1, k2 := TaskCLocks(k1, stacks, statics);
    var e2, k3 := WatchdogSteps(k2, stacks, statics);
    var e3, k4 := TaskAWaits(k3, stacks, statics);
    var e4, k5 := KillsC(k4, stacks);
    ks, es := [k, k1, k2, k3, k4, k5], [e0, e1, e2, e3, e4];
    assert StepAt(ks, es, 0) && StepAt(ks, es, 1) && StepAt(ks, es, 2) && StepAt(ks, es, 3) && StepAt(ks, es, 4);
    BothAreIn(ks, es, r, stacks, statics);
  }

  lemma {:induction false} BothAreIn(ks: seq<Kernel>, es: seq<Event>, r: Kernel, stacks: map<Tid, Stack>,
                                     statics: Stack)
    requires StacksPlaced(stacks, statics) && Run(ks, es) && |es| == 5 && Booted(ks[0], r, stacks, statics)
    requires KillsOwner(ks[4], es[4], TASK_C, 0) && ks[4].mutexes[0].value.waiters != {}
    ensures Inside(ks, es, TASK_C, 0, 5) && Inside(ks, es, TASK_A, 0, 5)
  {
    hide StacksPlaced, Booted, Inv, StepAt, Inside;
    BootPlaces(ks[0], r, stacks, statics);
    BootHas(ks[0], r, stacks, statics);
    var u := KillAdmitsTwo(ks, es, TASK_C, 0, 4);
    RunConfig(ks, es, 4);
    BootInside(ks, es, r, stacks, statics, 0, 5);
  }

  // ---- A restart before the switch ----

  /** Task B is Ready, so a reschedule of hart 1 does not pick the restarted Task C. */
  lemma {:induction false} PicksB(k: Kernel, entry: Word)
    requires Inv(k) && CurTid(k, 1) == TASK_C && InState(k, TASK_B, Ready) && InState(k, TASK_C, Terminated)
    requires TASK_C in k.stacks
    ensures Pick(Restarted(k, TASK_C, entry).scheds[1]) != Some(TASK_C.slot)
  {
    hide Inv, PutFrame;
    var s := Restarted(k, TASK_C, entry).scheds[1];
    PickIsFirstReady(s);
    assert Eligible(s, 2) && Dist(s.current, 2) < Dist(s.current, 3);
  }

  /** Two events from boot: Task B yields to Task C, and Watchdog kills Task C while it runs. If Watchdog now
      restarts it before hart 1 has switched away, which the guard excludes, the switch that the kill
      requested saves the interrupted stack pointer over the fresh one. */
  lemma {:induction false} RestartLost(k: Kernel, r: Kernel, stacks: map<Tid, Stack>, statics: Stack, entry: Word,
                                       sp: int)
    returns (ks: seq<Kernel>, es: seq<Event>)
    requires StacksPlaced(stacks, statics) && Booted(k, r, stacks, statics) && Addressable(stacks)
    ensures |ks| == |es| + 1 == 3 && ks[0] == k && Run(ks, es)
    ensures InState(ks[2], TASK_C, Terminated) && CurTid(ks[2], 1) == TASK_C && !Enabled(ks[2], Restart(TASK_C, entry))
    ensures TASK_C in ks[2].stacks
    ensures var k' := Switch(Restarted(ks[2], TASK_C, entry), 1, sp, false).k;
      Occ(k', TASK_C) && St(k', TASK_C) == Ready && TcbOf(k', TASK_C).savedSp == sp
  {
    hide StacksPlaced, Booted, Inv, Steps, Switch, Restarted, NameOf, WatchdogWithC, Pick;
    var e0, k1 := TaskBYields(k, r, stacks, statics);
    var e1, k2 := TaskCKilled(k1, stacks, statics);
    ks, es := [k, k1, k2], [e0, e1];
    assert StepAt(ks, es, 0) && StepAt(ks, es, 1);
    PicksB(k2, entry);
    G.RestartOverwritten(k2, TASK_C, entry, sp);
  }

  // ---- A hold of SCHED_LOCK that is lost ----

  /** Task A, running after Watchdog, kills it. */
  lemma {:induction false} WatchdogKilled(k: Kernel, stacks: map<Tid, Stack>, statics: Stack)
    returns (e: Event, k': Kernel)
    requires StacksPlaced(stacks, statics) && Addressable(stacks) && AWithB(k, stacks, statics)
    requires InState(k, WATCHDOG, Ready)
    ensures Steps(k, e, k') && IsCall(e, 8) && e.hart == 0 && Named(k, e.frame[REG_A0]) == Some(WATCHDOG)
    ensures InState(k', WATCHDOG, Terminated)
  {
    hide StacksPlaced, Inv, Next, Enabled, Steps, BootSp, NameOf;
    BootTasks();
    BootStacks(stacks, statics);
    e := CallEvent(0, stacks[TASK_A].base, 8, 0, 0, 0, 0);
    KillRuns(k, e, WATCHDOG);
    NeverStuck(k, e);
    k' := Next(k, e);
  }

  /** Two events from boot: Watchdog yields to Task A, which kills Watchdog. Beside them the lock calls of the
      same two traps, when Watchdog took SCHED_LOCK in U-mode before it yielded: its hold is lost, and hart 1
      never gets the lock again. */
  lemma {:induction false} HoldLostFromBoot(k: Kernel, r: Kernel, stacks: map<Tid, Stack>, statics: Stack)
    returns (ks: seq<Kernel>, es: seq<Event>, s1: O.Sys, s2: O.Sys, s3: O.Sys)
    requires StacksPlaced(stacks, statics) && Booted(k, r, stacks, statics) && Addressable(stacks)
    ensures |ks| == |es| + 1 == 3 && ks[0] == k && Run(ks, es)
    ensures es[0].Trap? && es[1].Trap? && es[0].hart == es[1].hart == 0
    ensures Named(ks[1], es[1].frame[REG_A0]) == Some(WATCHDOG)
    ensures CurTid(ks[0], 0) == WATCHDOG && CurTid(ks[1], 0) == TASK_A && InState(ks[2], WATCHDOG, Terminated)
    ensures L.Reaches(O.Start(2), s1) && L.UserHolds(s1)
    ensures L.Follows(s1, O.Arrive(0, es[0].mcause, es[0].frame[REG_A7], false), s2)
    ensures L.Follows(s2, O.Arrive(0, es[1].mcause, es[1].frame[REG_A7], true), s3)
    ensures O.CanStep(s3, O.Lose(0)) && L.ShutOut(O.After(s3, O.Lose(0)))
  {
    hide StacksPlaced, Booted, Inv, Steps, NameOf, AWithB, L.ShutOut, L.Follows, L.UserHolds;
    var e0, k1 := WatchdogYields(k, r, stacks, statics);
    var e1, k2 := WatchdogKilled(k1, stacks, statics);
    ks, es := [k, k1, k2], [e0, e1];
    assert StepAt(ks, es, 0) && StepAt(ks, es, 1);
    s1, s2, s3 := L.HoldLost(false);
  }
}
