/** Boot (kernel/src/main.rs): registration, capability table, and the first tasks. */
module Boot {
  import opened Tasks
  import opened PartitionScheduler
  import opened KernelState
  import opened KernelSteps
  import opened KernelInvariant
  import opened Machine
  import opened KernelObject
  import opened Timing
  import opened MutualExclusion
  import opened CriticalSection
  import opened Budgets
  import opened RendezvousTheorems
  import opened DataFlow
  import ContextIntegrity

  // ---- Any configuration ----

  predicate Untaken(mx: KMutex) { !mx.locked && mx.owner.None? && |mx.waiters| == 0 }

  /** All tasks Ready on fresh stacks, no mutex taken, an idle task on both harts. */
  ghost predicate Fresh(k: Kernel) {
    && Occ(k, Tid(0, IDLE)) && Occ(k, Tid(1, IDLE))
    && (forall t :: Occ(k, t) ==> t in k.stacks)
    && (forall t :: Occ(k, t) ==> St(k, t) == Ready && InStack(k, t, TcbOf(k, t).savedSp))
    && (forall h, i :: 0 <= h < 2 && 0 <= i < 32 ==> k.scheds[h].durations[i] >= 1)
    && (forall m :: 0 <= m < 8 && k.mutexes[m].Some? ==> Untaken(k.mutexes[m].value))
  }

  ghost predicate AtBoot(k: Kernel) { Cfg(k) && Fresh(k) }

  /** Slot `i` is made the first running partition of its hart. */
  function Started(s: Sched, i: nat): (r: Sched)
    requires ReadyAt(s, i)
  {
    s.(current := i, remaining := s.durations[i], table := WithState(s.table, i, Running))
  }

  function BothStarted(k: Kernel, i: nat, j: nat): (r: Kernel)
    requires ReadyAt(k.scheds[0], i) && ReadyAt(k.scheds[1], j)
  {
    k.(scheds := [Started(k.scheds[0], i), Started(k.scheds[1], j)])
  }

  lemma {:induction false} StartedOk(s: Sched, i: nat)
    requires ReadyAt(s, i) && s.table[IDLE].Some?
    requires forall j :: 0 <= j < 32 ==> s.durations[j] >= 1 && (s.table[j].Some? ==> s.table[j].value.state == Ready)
    ensures SchedOk(Started(s, i))
  {
    var s' := Started(s, i);
    assert forall j :: 0 <= j < 32 && j != i ==> s'.table[j] == s.table[j];
  }

  /** Whatever was registered and whichever Ready task starts first, boot establishes the invariant, so
      every theorem about runs applies from boot on. */
  lemma {:induction false} BootEstablishes(k: Kernel, i: nat, j: nat)
    requires AtBoot(k) && ReadyAt(k.scheds[0], i) && ReadyAt(k.scheds[1], j)
    ensures var k' := BothStarted(k, i, j);
      Inv(k') && forall m :: 0 <= m < 8 ==> OwnerOf(k', m) == None
  {
    hide Cfg, MutexInv, IpcInv;
    FreshConsistent(k, i, j);
    StartedKeeps(k, i, j);
    CfgKept(k, BothStarted(k, i, j));
  }

  /** The part that does not depend on the configuration. */
  lemma {:induction false} FreshConsistent(k: Kernel, i: nat, j: nat)
    requires Fresh(k) && ReadyAt(k.scheds[0], i) && ReadyAt(k.scheds[1], j)
    ensures var k' := BothStarted(k, i, j);
      Consistent(k') && StackInv(k') && forall m :: 0 <= m < 8 ==> OwnerOf(k', m) == None
  {
    var k' := BothStarted(k, i, j);
    ReadyTable(k, 0);
    ReadyTable(k, 1);
    StartedOk(k.scheds[0], i);
    StartedOk(k.scheds[1], j);
    StartedKeeps(k, i, j);
    forall t | Occ(k', t) ensures WaiterOk(k', t) && IpcOk(k', t) {}
    forall m | 0 <= m < 8 ensures MutexOk(k', m, None) {}
    forall t | Suspended(k', t) ensures t in k'.stacks && InStack(k', t, TcbOf(k', t).savedSp) {
      assert Occ(k, t);
    }
  }

  lemma {:induction false} ReadyTable(k: Kernel, h: nat)
    requires Fresh(k) && h < 2
    ensures forall j :: 0 <= j < 32 && k.scheds[h].table[j].Some? ==> k.scheds[h].table[j].value.state == Ready
  {
    forall j | 0 <= j < 32 && k.scheds[h].table[j].Some? ensures k.scheds[h].table[j].value.state == Ready {
      assert Occ(k, Tid(h, j));
    }
  }

  lemma {:induction false} StartedKeeps(k: Kernel, i: nat, j: nat)
    requires Fresh(k) && ReadyAt(k.scheds[0], i) && ReadyAt(k.scheds[1], j)
    ensures var k' := BothStarted(k, i, j);
      && SameConfig(k, k')
      && forall t :: Occ(k, t) ==> St(k', t) in {Ready, Running} && TcbOf(k', t).savedSp == TcbOf(k, t).savedSp
  {
    var k' := BothStarted(k, i, j);
    forall t ensures Occ(k, t) <==> Occ(k', t) {
      if t.hart == 1 { assert k'.scheds[t.hart] == Started(k.scheds[1], j); }
    }
    forall t | Occ(k, t)
      ensures TcbOf(k', t) == TcbOf(k, t).(state := St(k', t)) && St(k', t) in {Ready, Running}
    {
      if t.hart == 1 { assert k'.scheds[t.hart] == Started(k.scheds[1], j); }
    }
  }

  // ---- The table this system boots with ----

  const NO_CAPS: Capabilities := [NoCap, NoCap, NoCap, NoCap, NoCap, NoCap, NoCap, NoCap]

  const TASK_A_CAPS: Capabilities :=
    [MutexCap(0, true, true), IpcCap(0, true, false), IpcCap(2, true, false), IpcCap(3, false, true),
     NoCap, NoCap, NoCap, NoCap]

  const HSM_CAPS: Capabilities :=
    [IpcCap(2, false, true), IpcCap(3, true, false), NoCap, NoCap, NoCap, NoCap, NoCap, NoCap]

  const TASK_B_CAPS: Capabilities :=
    [IpcCap(0, false, true), NoCap, NoCap, NoCap, NoCap, NoCap, NoCap, NoCap]

  const TASK_C_CAPS: Capabilities :=
    [MutexCap(0, true, true), NoCap, NoCap, NoCap, NoCap, NoCap, NoCap, NoCap]

  const WATCHDOG := Tid(0, 0)
  const TASK_A := Tid(0, 1)
  const HSM := Tid(0, 4)
  const IDLE_0 := Tid(0, 31)
  const TASK_B := Tid(1, 2)
  const TASK_C := Tid(1, 3)
  const IDLE_1 := Tid(1, 31)

  function NameOf(t: Tid): (n: Option<string>) {
    if t == WATCHDOG then Some("Watchdog")
    else if t == TASK_A then Some("Task A")
    else if t == HSM then Some("HSM Task")
    else if t == IDLE_0 then Some("Idle 0")
    else if t == TASK_B then Some("Task B")
    else if t == TASK_C then Some("Task C")
    else if t == IDLE_1 then Some("Idle 1")
    else None
  }

  function CapsOf(t: Tid): (c: Capabilities) {
    if t == TASK_A then TASK_A_CAPS
    else if t == HSM then HSM_CAPS
    else if t == TASK_B then TASK_B_CAPS
    else if t == TASK_C then TASK_C_CAPS
    else NO_CAPS
  }

  predicate BootTask(t: Tid) { NameOf(t).Some? }

  function BootSp(stacks: map<Tid, Stack>, t: Tid): (sp: int) {
    if t in stacks then InitialSp(stacks[t].base, stacks[t].size) else 0
  }

  function BootTcb(t: Tid, sp: int): (b: Tcb)
    requires BootTask(t)
  {
    Tcb(sp, t.slot, t.slot, Ready, NameOf(t).value, CapsOf(t))
  }

  /** Seven 1024-byte stacks that do not overlap. */
  ghost predicate StacksApart(stacks: map<Tid, Stack>) {
    && (forall t :: BootTask(t) ==> t in stacks && stacks[t].size == 1024)
    && (forall t, u :: BootTask(t) && BootTask(u) && t != u ==> Disjoint(stacks[t], stacks[u]))
  }

  /** Nor do they overlap the kernel's tables. */
  ghost predicate StacksPlaced(stacks: map<Tid, Stack>, statics: Stack) {
    StacksApart(stacks) && forall t :: BootTask(t) ==> Disjoint(stacks[t], statics)
  }

  /** Registration leaves the durations at their default. */
  predicate Untimed(s: Sched) {
    s.current == 0 && s.remaining == 100 && forall i :: 0 <= i < 32 ==> s.durations[i] == 100
  }

  /** The state when registration is complete: exactly the seven tasks, with their capabilities. */
  ghost predicate Registered(k: Kernel, stacks: map<Tid, Stack>, statics: Stack)
    requires StacksPlaced(stacks, statics)
  {
    && k == StaticKernel(stacks, statics).(scheds := k.scheds, mem := k.mem)
    && Untimed(k.scheds[0]) && Untimed(k.scheds[1])
    && (forall t :: Occ(k, t) <==> BootTask(t))
    && (forall t :: BootTask(t) ==> TcbOf(k, t) == BootTcb(t, BootSp(stacks, t)))
  }

  lemma {:induction false} CapsPlaced(t: Tid, c: nat)
    requires BootTask(t) && c < 8 && CapsOf(t)[c].MutexCap?
    ensures (t == TASK_A || t == TASK_C) && CapsOf(t)[c] == MutexCap(0, true, true)
  {}

  lemma {:induction false} BootCapsPlaced(k: Kernel, stacks: map<Tid, Stack>, statics: Stack, t: Tid)
    requires StacksPlaced(stacks, statics) && Registered(k, stacks, statics) && BootTask(t)
    ensures MutexCapPlaced(k, t)
  {
    hide CapsOf, StaticKernel;
    forall c | 0 <= c < 8 && TcbOf(k, t).capabilities[c].MutexCap?
      ensures TcbOf(k, t).capabilities[c].mutexIdx < 8 && t == Home(t.slot) && !Occ(k, Twin(t))
    {
      CapsPlaced(t, c);
      assert !BootTask(Twin(t));
    }
  }

  lemma {:induction false} BootTasks()
    ensures BootTask(WATCHDOG) && BootTask(TASK_A) && BootTask(HSM) && BootTask(IDLE_0)
    ensures BootTask(TASK_B) && BootTask(TASK_C) && BootTask(IDLE_1)
    ensures forall t :: BootTask(t) ==> t in {WATCHDOG, TASK_A, TASK_B, TASK_C, HSM, IDLE_0, IDLE_1}
  {}

  lemma {:induction false} BootCfg(k: Kernel, stacks: map<Tid, Stack>, statics: Stack)
    requires StacksPlaced(stacks, statics) && Registered(k, stacks, statics)
    ensures Cfg(k)
  {
    hide CapsOf, NameOf, BootTask, MutexCapPlaced;
    forall t | Occ(k, t) ensures MutexCapPlaced(k, t) {
      BootCapsPlaced(k, stacks, statics, t);
    }
  }

  /** The boot table is one of the configurations the theorems are about. */
  lemma {:induction false} BootTableConforms(k: Kernel, stacks: map<Tid, Stack>, statics: Stack)
    requires StacksPlaced(stacks, statics) && Registered(k, stacks, statics)
    ensures AtBoot(k) && ReadyAt(k.scheds[0], 0) && ReadyAt(k.scheds[1], 2)
  {
    hide CapsOf, NameOf, BootTask, Cfg;
    BootCfg(k, stacks, statics);
    BootTasks();
    assert Occ(k, WATCHDOG) && Occ(k, TASK_B) && Occ(k, IDLE_0) && Occ(k, IDLE_1);
  }

  // ---- The boot sequence ----

  /** The first resume of `t` enters `entry` in U-mode with cleared registers. */
  ghost predicate FrameReady(mem: Memory, stacks: map<Tid, Stack>, entries: map<Tid, Word>, t: Tid)
    requires t in entries
  {
    FrameAt(mem, BootSp(stacks, t)) == InitialFrame(entries[t])
  }

  method PrepareStack(mem: Memory, stacks: map<Tid, Stack>, entries: map<Tid, Word>, t: Tid, ghost done: set<Tid>)
    returns (mem': Memory, sp: int)
    requires StacksApart(stacks) && BootTask(t) && t !in done
    requires forall u :: BootTask(u) ==> u in entries
    requires forall u :: u in done ==> BootTask(u) && FrameReady(mem, stacks, entries, u)
    ensures sp == BootSp(stacks, t)
    ensures forall u :: u in done + {t} ==> FrameReady(mem', stacks, entries, u)
  {
    mem', sp := InitializeStack(mem, stacks[t].base, stacks[t].size, entries[t]);
    forall u | u in done ensures FrameReady(mem', stacks, entries, u) {
      assert Disjoint(stacks[t], stacks[u]);
      var p := BootSp(stacks, u);
      assert forall i :: 0 <= i < 32 ==> FrameAt(mem', p)[i] == FrameAt(mem, p)[i];
    }
  }

  method PrepareStacks(mem: Memory, stacks: map<Tid, Stack>, entries: map<Tid, Word>)
    returns (mem': Memory, wd: int, a: int, b: int, c: int, hsm: int, idle0: int, idle1: int)
    requires StacksApart(stacks)
    requires forall t :: BootTask(t) ==> t in entries
    ensures forall t :: BootTask(t) ==> FrameReady(mem', stacks, entries, t)
    ensures wd == BootSp(stacks, WATCHDOG) && a == BootSp(stacks, TASK_A) && b == BootSp(stacks, TASK_B)
    ensures c == BootSp(stacks, TASK_C) && hsm == BootSp(stacks, HSM)
    ensures idle0 == BootSp(stacks, IDLE_0) && idle1 == BootSp(stacks, IDLE_1)
  {
    hide NameOf, BootTask, FrameReady, BootSp;
    BootTasks();
    mem', wd := PrepareStack(mem, stacks, entries, WATCHDOG, {});
    mem', a := PrepareStack(mem', stacks, entries, TASK_A, {WATCHDOG});
    mem', b := PrepareStack(mem', stacks, entries, TASK_B, {WATCHDOG, TASK_A});
    mem', c := PrepareStack(mem', stacks, entries, TASK_C, {WATCHDOG, TASK_A, TASK_B});
    mem', hsm := PrepareStack(mem', stacks, entries, HSM, {WATCHDOG, TASK_A, TASK_B, TASK_C});
    mem', idle0 := PrepareStack(mem', stacks, entries, IDLE_0, {WATCHDOG, TASK_A, TASK_B, TASK_C, HSM});
    mem', idle1 := PrepareStack(mem', stacks, entries, IDLE_1, {WATCHDOG, TASK_A, TASK_B, TASK_C, HSM, IDLE_0});
  }

  /** What slot `i` of hart `h` holds once registration is complete. */
  function BootEntry(stacks: map<Tid, Stack>, h: nat, i: nat): (e: Option<Tcb>) {
    var t := Tid(h, i);
    if BootTask(t) then Some(BootTcb(t, BootSp(stacks, t))) else None
  }

  method RegisterHart0(s: BitMapScheduler, stacks: map<Tid, Stack>, wd: int, a: int, hsm: int, idle0: int)
    requires StacksApart(stacks) && s.View() == EMPTY_SCHED
    requires wd == BootSp(stacks, WATCHDOG) && a == BootSp(stacks, TASK_A)
    requires hsm == BootSp(stacks, HSM) && idle0 == BootSp(stacks, IDLE_0)
    modifies s
    ensures s.View() == EMPTY_SCHED.(table := s.taskTable)
    ensures forall i :: 0 <= i < 32 ==> s.taskTable[i] == BootEntry(stacks, 0, i)
  {
    hide BootSp, StacksApart;
    BootTasks();
    s.RegisterTask(Tcb(wd, 0, 0, Ready, "Watchdog", NO_CAPS));
    s.RegisterTask(Tcb(a, 1, 1, Ready, "Task A", TASK_A_CAPS));
    s.RegisterTask(Tcb(hsm, 4, 4, Ready, "HSM Task", HSM_CAPS));
    s.RegisterTask(Tcb(idle0, 31, 31, Ready, "Idle 0", NO_CAPS));
  }

  method RegisterHart1(s: BitMapScheduler, stacks: map<Tid, Stack>, b: int, c: int, idle1: int)
    requires s.View() == EMPTY_SCHED
    requires b == BootSp(stacks, TASK_B) && c == BootSp(stacks, TASK_C) && idle1 == BootSp(stacks, IDLE_1)
    modifies s
    ensures s.View() == EMPTY_SCHED.(table := s.taskTable)
    ensures forall i :: 0 <= i < 32 ==> s.taskTable[i] == BootEntry(stacks, 1, i)
  {
    hide BootSp;
    BootTasks();
    s.RegisterTask(Tcb(b, 2, 2, Ready, "Task B", TASK_B_CAPS));
    s.RegisterTask(Tcb(c, 3, 3, Ready, "Task C", TASK_C_CAPS));
    s.RegisterTask(Tcb(idle1, 31, 31, Ready, "Idle 1", NO_CAPS));
  }

  lemma {:induction false} EntriesRegistered(k: Kernel, stacks: map<Tid, Stack>, statics: Stack)
    requires StacksPlaced(stacks, statics) && k == StaticKernel(stacks, statics).(scheds := k.scheds, mem := k.mem)
    requires forall h :: 0 <= h < 2 ==> Untimed(k.scheds[h])
    requires forall i :: 0 <= i < 32 ==> k.scheds[0].table[i] == BootEntry(stacks, 0, i)
    requires forall i :: 0 <= i < 32 ==> k.scheds[1].table[i] == BootEntry(stacks, 1, i)
    ensures Registered(k, stacks, statics)
  {
    hide NameOf, CapsOf, BootTask, BootSp, BootEntry, StaticKernel, StacksApart;
    BootTasks();
    forall t ensures Occ(k, t) <==> BootTask(t) {
      if t.hart < 2 && t.slot < 32 {
        assert k.scheds[t.hart].table[t.slot] == BootEntry(stacks, t.hart, t.slot);
        EntryOf(stacks, t);
      }
    }
    forall t | BootTask(t) ensures TcbOf(k, t) == BootTcb(t, BootSp(stacks, t)) {
      assert k.scheds[t.hart].table[t.slot] == BootEntry(stacks, t.hart, t.slot);
      EntryOf(stacks, t);
    }
  }

  lemma {:induction false} EntryOf(stacks: map<Tid, Stack>, t: Tid)
    ensures BootEntry(stacks, t.hart, t.slot).Some? <==> BootTask(t)
    ensures BootTask(t) ==> BootEntry(stacks, t.hart, t.slot) == Some(BootTcb(t, BootSp(stacks, t)))
  {
    hide NameOf, CapsOf, BootSp;
    assert Tid(t.hart, t.slot) == t;
  }

  /** The machine right after boot: registration complete, Watchdog running on hart 0, Task B on hart 1. */
  ghost predicate Booted(k: Kernel, r: Kernel, stacks: map<Tid, Stack>, statics: Stack)
    requires StacksPlaced(stacks, statics)
  {
    && Registered(r, stacks, statics) && ReadyAt(r.scheds[0], 0) && ReadyAt(r.scheds[1], 2)
    && k == BothStarted(r, 0, 2)
  }

  /** Both harts start their lowest Ready slot. */
  method StartBoth(m: KernelMachine, stacks: map<Tid, Stack>, statics: Stack) returns (sp0: int, sp1: int)
    requires m.Apart() && StacksPlaced(stacks, statics) && Registered(m.View(), stacks, statics)
    modifies m.sched0, m.sched1
    ensures m.Valid() && Booted(m.View(), old(m.View()), stacks, statics)
    ensures sp0 == BootSp(stacks, WATCHDOG) && sp1 == BootSp(stacks, TASK_B)
  {
    hide NameOf, CapsOf, BootTask, BootSp, StacksPlaced, Inv, AtBoot, Registered;
    ghost var k := m.View();
    BootTableConforms(k, stacks, statics);
    BootEstablishes(k, 0, 2);
    FirstSlots(k, stacks, statics);
    assert ReadyAt(m.sched0.View(), 0) && ReadyAt(m.sched1.View(), 2);
    sp0 := m.sched0.StartFirstTask();
    assert m.sched1.View() == k.scheds[1];
    assert ReadyAt(m.sched1.View(), 2);
    sp1 := m.sched1.StartFirstTask();
    assert m.View().scheds == BothStarted(k, 0, 2).scheds;
  }

  /** Builds the stacks, registers the seven tasks, and starts the lowest Ready slot of each hart. The
      machine is then in a valid state and each hart resumes its first task's initial frame. */
  method BootKernel(stacks: map<Tid, Stack>, statics: Stack, entries: map<Tid, Word>)
    returns (m: KernelMachine, sp0: int, sp1: int, ghost registered: Kernel)
    requires StacksPlaced(stacks, statics)
    requires forall t :: BootTask(t) ==> t in entries
    ensures m.Valid() && Booted(m.View(), registered, stacks, statics)
    ensures forall t :: BootTask(t) ==> FrameReady(m.mem, stacks, entries, t)
    ensures sp0 == BootSp(stacks, WATCHDOG) && sp1 == BootSp(stacks, TASK_B)
  {
    hide NameOf, CapsOf, BootTask, BootSp, FrameReady, StacksApart, Inv, Booted, Registered;
    m := new KernelMachine(stacks, statics);
    var mem, wd, a, b, c, hsm, idle0, idle1 := PrepareStacks(m.mem, stacks, entries);
    m.mem := mem;
    RegisterHart0(m.sched0, stacks, wd, a, hsm, idle0);
    RegisterHart1(m.sched1, stacks, b, c, idle1);
    registered := m.View();
    EntriesRegistered(registered, stacks, statics);
    sp0, sp1 := StartBoth(m, stacks, statics);
  }

  lemma {:induction false} FirstSlots(k: Kernel, stacks: map<Tid, Stack>, statics: Stack)
    requires StacksPlaced(stacks, statics) && Registered(k, stacks, statics)
    ensures !ReadyAt(k.scheds[1], 0) && !ReadyAt(k.scheds[1], 1)
    ensures TcbOf(k, WATCHDOG).savedSp == BootSp(stacks, WATCHDOG) && TcbOf(k, TASK_B).savedSp == BootSp(stacks, TASK_B)
  {
    assert !BootTask(Tid(1, 0)) && !BootTask(Tid(1, 1));
    assert !Occ(k, Tid(1, 0)) && !Occ(k, Tid(1, 1));
  }

  // ---- What the boot table means for every run ----

  /** The boot capability graph. */
  predicate BootFlow(x: Transfer) {
    || (x.from == TASK_A && x.to == TASK_B && x.endpoint == 0)
    || (x.from == TASK_A && x.to == HSM && x.endpoint == 2)
    || (x.from == HSM && x.to == TASK_A && x.endpoint == 3)
  }

  lemma {:induction false} BootRights(k: Kernel, r: Kernel, stacks: map<Tid, Stack>, statics: Stack, t: Tid)
    requires StacksPlaced(stacks, statics) && Booted(k, r, stacks, statics) && Occ(k, t)
    ensures BootTask(t) && TcbOf(k, t).capabilities == CapsOf(t)
  {
    hide NameOf, CapsOf, Fresh, StacksPlaced, Cfg, BootTask;
    BootTableConforms(r, stacks, statics);
    StartedKeeps(r, 0, 2);
  }

  lemma {:induction false} BootPlaces(k: Kernel, r: Kernel, stacks: map<Tid, Stack>, statics: Stack)
    requires StacksPlaced(stacks, statics) && Booted(k, r, stacks, statics)
    ensures Inv(k) && k.transfers == [] && forall m :: 0 <= m < 8 ==> OwnerOf(k, m) == None
  {
    hide NameOf, CapsOf, AtBoot, StacksPlaced, Inv, BootTask, OwnerOf;
    BootTableConforms(r, stacks, statics);
    BootEstablishes(r, 0, 2);
  }

  /** Who may do what: exactly the three endpoints' senders and receivers, and two users of mutex 0. */
  lemma {:induction false} BootRightsExact(ks: seq<Kernel>, es: seq<Event>, r: Kernel, stacks: map<Tid, Stack>,
                                           statics: Stack, n: nat, t: Tid, i: nat)
    requires StacksPlaced(stacks, statics) && Run(ks, es) && Booted(ks[0], r, stacks, statics) && n <= |es|
    requires Occ(ks[n], t)
    ensures CanLock(ks[n], t, i) <==> i == 0 && (t == Tid(0, 1) || t == Tid(1, 3))
    ensures CanSend(ks[n], t, i) <==> (t, i) in {(Tid(0, 1), 0), (Tid(0, 1), 2), (Tid(0, 4), 3)}
    ensures CanRecv(ks[n], t, i) <==> (t, i) in {(Tid(1, 2), 0), (Tid(0, 4), 2), (Tid(0, 1), 3)}
  {
    hide Inv, StepAt, Booted, StacksPlaced;
    RunConfig(ks, es, n);
    RightsKept(ks[0], ks[n], t);
    BootRights(ks[0], r, stacks, statics, t);
    RightsOf(ks[0], t, i);
  }

  lemma {:induction false} RightsOf(k: Kernel, t: Tid, i: nat)
    requires BootTask(t) && Occ(k, t) && TcbOf(k, t).capabilities == CapsOf(t)
    ensures CanLock(k, t, i) <==> i == 0 && (t == Tid(0, 1) || t == Tid(1, 3))
    ensures CanSend(k, t, i) <==> (t, i) in {(Tid(0, 1), 0), (Tid(0, 1), 2), (Tid(0, 4), 3)}
    ensures CanRecv(k, t, i) <==> (t, i) in {(Tid(1, 2), 0), (Tid(0, 4), 2), (Tid(0, 1), 3)}
  {
    hide Holds, CapsOf;
    forall c | c != NoCap ensures Holds(k, t, c) <==> c in CapSet(t) {
      HoldsCap(k, t, c);
    }
  }

  /** The capabilities registered for a task. */
  function CapSet(t: Tid): (cs: set<Capability>) {
    if t == TASK_A then
      {MutexCap(0, true, true), IpcCap(0, true, false), IpcCap(2, true, false), IpcCap(3, false, true)}
    else if t == HSM then {IpcCap(2, false, true), IpcCap(3, true, false)}
    else if t == TASK_B then {IpcCap(0, false, true)}
    else if t == TASK_C then {MutexCap(0, true, true)}
    else {}
  }

  lemma {:induction false} HoldsCap(k: Kernel, t: Tid, c: Capability)
    requires BootTask(t) && Occ(k, t) && TcbOf(k, t).capabilities == CapsOf(t) && c != NoCap
    ensures Holds(k, t, c) <==> c in CapSet(t)
  {
    var cs := CapsOf(t);
    assert forall j :: 4 <= j < 8 ==> cs[j] == NoCap;
    if c in CapSet(t) { assert c == cs[0] || c == cs[1] || c == cs[2] || c == cs[3]; }
  }

  /** Over every run from boot the seven registered tasks are these, in these slots, under the names the memory
      protection unit is programmed by. */
  lemma {:induction false} BootNames(ks: seq<Kernel>, es: seq<Event>, r: Kernel, stacks: map<Tid, Stack>,
                                     statics: Stack, n: nat, t: Tid)
    requires StacksPlaced(stacks, statics) && Run(ks, es) && Booted(ks[0], r, stacks, statics) && n <= |es|
    ensures Occ(ks[n], t) <==>
      t in {Tid(0, 0), Tid(0, 1), Tid(0, 4), Tid(0, 31), Tid(1, 2), Tid(1, 3), Tid(1, 31)}
    ensures Occ(ks[n], t) ==> TcbOf(ks[n], t).priority == t.slot
    ensures Occ(ks[n], Tid(0, 0)) && TcbOf(ks[n], Tid(0, 0)).name == "Watchdog"
    ensures Occ(ks[n], Tid(0, 1)) && TcbOf(ks[n], Tid(0, 1)).name == "Task A"
    ensures Occ(ks[n], Tid(0, 4)) && TcbOf(ks[n], Tid(0, 4)).name == "HSM Task"
    ensures Occ(ks[n], Tid(1, 2)) && TcbOf(ks[n], Tid(1, 2)).name == "Task B"
    ensures Occ(ks[n], Tid(1, 3)) && TcbOf(ks[n], Tid(1, 3)).name == "Task C"
  {
    hide Inv, StepAt, StacksPlaced, CapsOf, Fresh, Cfg;
    RunConfig(ks, es, n);
    BootTableConforms(r, stacks, statics);
    StartedKeeps(r, 0, 2);
  }

  /** Over every run from boot every partition has 100 ticks; the two that boot starts, and any that is switched
      in later, get all of them. */
  lemma {:induction false} BootBudgets(ks: seq<Kernel>, es: seq<Event>, r: Kernel, stacks: map<Tid, Stack>,
                                       statics: Stack, n: nat, h: nat, i: nat)
    requires StacksPlaced(stacks, statics) && Run(ks, es) && Booted(ks[0], r, stacks, statics) && n <= |es|
    requires h < 2 && i < 32
    ensures ks[n].scheds[h].durations[i] == 100 && ks[0].scheds[h].remaining == 100
    ensures n < |es| && ks[n + 1].scheds[h].current != ks[n].scheds[h].current ==> ks[n + 1].scheds[h].remaining == 100
  {
    hide Inv, StepAt, StacksPlaced;
    RunConfig(ks, es, n);
    assert Untimed(r.scheds[h]);
    if n < |es| && ks[n + 1].scheds[h].current != ks[n].scheds[h].current {
      RunConfig(ks, es, n + 1);
      FullBudget(ks, es, n, h);
    }
  }

  /** Over every run from boot, data moves only from Task A to Task B, from Task A to the HSM, and back. */
  lemma {:induction false} BootFlowsConfined(ks: seq<Kernel>, es: seq<Event>, r: Kernel, stacks: map<Tid, Stack>,
                                             statics: Stack, n: nat, j: nat)
    requires StacksPlaced(stacks, statics) && Run(ks, es) && Booted(ks[0], r, stacks, statics)
    requires n <= |es| && j < |ks[n].transfers|
    ensures BootFlow(ks[n].transfers[j])
  {
    hide Inv, StepAt, Booted, StacksPlaced;
    BootPlaces(ks[0], r, stacks, statics);
    AuthorityConfined(ks, es, n, j);
    var x := ks[n].transfers[j];
    BootRights(ks[0], r, stacks, statics, x.from);
    BootRights(ks[0], r, stacks, statics, x.to);
  }

  lemma {:induction false} BootOwner(ks: seq<Kernel>, es: seq<Event>, r: Kernel, stacks: map<Tid, Stack>,
                                     statics: Stack, t: Tid, m: nat, n: nat)
    requires StacksPlaced(stacks, statics) && Run(ks, es) && Booted(ks[0], r, stacks, statics) && n <= |es|
    requires Occ(ks[0], t) && OwnerOf(ks[n], m) == Some(t)
    ensures m == 0 && (t == TASK_A || t == TASK_C)
  {
    hide Inv, StepAt, Booted, StacksPlaced;
    RunConfig(ks, es, n);
    WaitersAuthorised(ks, es, t, m, n);
    RightsKept(ks[0], ks[n], t);
    BootRights(ks[0], r, stacks, statics, t);
  }

  /** Over every run from boot, only Task A and Task C ever hold a mutex, and never both. */
  lemma {:induction false} BootExclusion(ks: seq<Kernel>, es: seq<Event>, r: Kernel, stacks: map<Tid, Stack>,
                                         statics: Stack, t: Tid, m: nat, n: nat)
    requires StacksPlaced(stacks, statics) && Run(ks, es) && Booted(ks[0], r, stacks, statics) && n <= |es| && m < 8
    requires Occ(ks[0], t) && Believes(ks, es, t, m, n)
    ensures m == 0 && (t == TASK_A || t == TASK_C)
    ensures forall u :: Occ(ks[0], u) && Believes(ks, es, u, m, n) ==> u == t
  {
    hide Inv, StepAt, Booted, StacksPlaced, Believes;
    BootPlaces(ks[0], r, stacks, statics);
    BeliefIsOwnership(ks, es, t, m, n);
    BootOwner(ks, es, r, stacks, statics, t, m, n);
    forall u | Occ(ks[0], u) && Believes(ks, es, u, m, n) ensures u == t {
      MutualExclusionHolds(ks, es, t, u, m, n);
    }
  }

  /** The same for tasks that execute inside the section, dead or alive: over every run from boot only Task A
      and Task C are ever inside, and both at once exactly when one of them was killed from the other hart
      while it ran inside, its hart has not switched away since, and the other owns the mutex or was killed
      so too. */
  lemma {:induction false} BootInside(ks: seq<Kernel>, es: seq<Event>, r: Kernel, stacks: map<Tid, Stack>,
                                      statics: Stack, m: nat, n: nat)
    requires StacksPlaced(stacks, statics) && Run(ks, es) && Booted(ks[0], r, stacks, statics) && n <= |es| && m < 8
    ensures forall t :: Occ(ks[0], t) && Inside(ks, es, t, m, n) ==> m == 0 && (t == TASK_A || t == TASK_C)
    ensures Inside(ks, es, TASK_A, m, n) && Inside(ks, es, TASK_C, m, n) <==>
      || (&& KilledSince(ks, es, TASK_A, m, n)
          && (OwnerOf(ks[n], m) == Some(TASK_C) || KilledSince(ks, es, TASK_C, m, n)))
      || (KilledSince(ks, es, TASK_C, m, n) && OwnerOf(ks[n], m) == Some(TASK_A))
  {
    hide Inv, StepAt, Booted, StacksPlaced, Inside, Stray, OwnerOf;
    BootPlaces(ks[0], r, stacks, statics);
    forall t | Occ(ks[0], t) && Inside(ks, es, t, m, n) ensures m == 0 && (t == TASK_A || t == TASK_C) {
      InsideExact(ks, es, t, m, n);
      StrayExact(ks, es, t, m, n);
      if OwnerOf(ks[n], m) == Some(t) {
        BootOwner(ks, es, r, stacks, statics, t, m, n);
      } else {
        var x :| KilledAt(ks, es, t, m, n, x);
        BootOwner(ks, es, r, stacks, statics, t, m, x);
      }
    }
    BootHas(ks[0], r, stacks, statics);
    ExclusionExact(ks, es, TASK_A, TASK_C, m, n);
  }

  lemma {:induction false} BootHas(k: Kernel, r: Kernel, stacks: map<Tid, Stack>, statics: Stack)
    requires StacksPlaced(stacks, statics) && Booted(k, r, stacks, statics)
    ensures Occ(k, TASK_A) && Occ(k, TASK_C)
  {
    hide NameOf, CapsOf, StacksPlaced, Fresh, Cfg;
    BootTasks();
    BootTableConforms(r, stacks, statics);
    StartedKeeps(r, 0, 2);
  }

  /** And no other byte moves: over every run from boot, a byte outside the frames a trap owns changes only
      inside the receive buffer of a transfer along the boot capability graph, to the byte at the same
      place in the sender's message. */
  lemma {:induction false} BootDataConfined(ks: seq<Kernel>, es: seq<Event>, r: Kernel, stacks: map<Tid, Stack>,
                                            statics: Stack, n: nat, a: int)
    requires StacksPlaced(stacks, statics) && Run(ks, es) && Booted(ks[0], r, stacks, statics) && n < |es|
    requires es[n].Trap? && es[n].hart < 2 && !KernelWrites(ks[n], es[n], a)
    requires RdByte(ks[n + 1].mem, a) != RdByte(ks[n].mem, a)
    ensures var msg := ContextIntegrity.MessageIn(ks[n], es[n]);
      && msg.Some? && ks[n + 1].transfers != [] && Carries(ks[n], es[n], Back(ks[n + 1].transfers), msg.value)
      && BootFlow(Back(ks[n + 1].transfers))
      && RdByte(ks[n + 1].mem, a) == RdByte(Stored(ks[n], es[n]).mem, msg.value.src + (a - msg.value.dst))
  {
    hide Inv, StepAt, Booted, StacksPlaced, Carries, ContextIntegrity.MessageIn, KernelWrites, Stored;
    TransfersCarryData(ks, es, n, a);
    BootFlowsConfined(ks, es, r, stacks, statics, n + 1, |ks[n + 1].transfers| - 1);
  }
}
