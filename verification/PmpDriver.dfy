/** Per-task stack isolation as programmed at boot and at every context switch
    (kernel/src/memory/pmp.rs, init_memory_protection in kernel/src/main.rs). */
module PmpDriver {
  import opened Bitwise
  import opened Pmp

  datatype Entry = Entry(config: Config, addr: nat)

  type Entries = e: seq<Entry> | |e| == 8
    witness seq(8, _ => Entry(Config(false, false, false, Off, false), 0))

  // ---- First-match permission of U-mode accesses ----

  datatype Kind = Read | Write | Execute

  predicate Hits(es: Entries, i: nat, a: nat)
    requires i < 8
  {
    match es[i].config.mode
    case Off => false
    case Tor => (if i == 0 then 0 else es[i - 1].addr * 4) <= a < es[i].addr * 4
    case Na4 => es[i].addr * 4 <= a < es[i].addr * 4 + 4
    case Napot => RegionBase(es[i].addr) <= a < RegionBase(es[i].addr) + RegionSize(es[i].addr)
  }

  predicate Grants(c: Config, k: Kind) {
    match k case Read => c.read case Write => c.write case Execute => c.execute
  }

  /** The lowest-numbered entry from `i` on that matches decides; an address no entry matches is denied. */
  predicate Allowed(es: Entries, a: nat, k: Kind, i: nat)
    requires i <= 8
    decreases 8 - i
  {
    if i == 8 then false
    else if Hits(es, i, a) then Grants(es[i].config, k)
    else Allowed(es, a, k, i + 1)
  }

  predicate May(es: Entries, a: nat, k: Kind) { Allowed(es, a, k, 0) }

  // ---- What is programmed ----

  /** Where the five task stacks were linked. */
  datatype Layout = Layout(wd: nat, taskA: nat, taskB: nat, taskC: nat, hsm: nat)

  const SRAM_BASE: nat := 0x3FC8_0000
  const SRAM_SIZE: nat := 512 * 1024
  const FLASH_BASE: nat := 0x4200_0000
  const FLASH_SIZE: nat := 4 * 1024 * 1024

  const FLASH_CONFIG := Config(true, false, true, Napot, true)
  const SRAM_CONFIG := Config(true, true, false, Napot, false)
  const DENY := Config(false, false, false, Napot, false)
  const OFF := Config(false, false, false, Off, false)

  datatype StackSlot = StackSlot(name: string, base: nat, entry: nat)

  function StackSlots(l: Layout): (s: seq<StackSlot>)
    ensures |s| == 5 && forall i :: 0 <= i < 5 ==> s[i].entry < 7
  {
    [StackSlot("Watchdog", l.wd, 1), StackSlot("Task A", l.taskA, 2), StackSlot("Task B", l.taskB, 4),
     StackSlot("Task C", l.taskC, 5), StackSlot("HSM Task", l.hsm, 6)]
  }

  predicate InSram(base: nat) {
    base % 1024 == 0 && SRAM_BASE <= base && base + 1024 <= SRAM_BASE + SRAM_SIZE
  }

  /** Stacks are 1024-byte aligned, inside SRAM, and distinct. */
  predicate Placed(l: Layout) {
    && (forall i :: 0 <= i < 5 ==> InSram(StackSlots(l)[i].base))
    && (forall i, j :: 0 <= i < 5 && 0 <= j < 5 && i != j ==> StackSlots(l)[i].base != StackSlots(l)[j].base)
  }

  function StackEntry(base: nat, active: bool): (e: Entry) {
    if active then Entry(OFF, NapotValue(0, 1024)) else Entry(DENY, NapotValue(base, 1024))
  }

  const FLASH_ENTRY := Entry(FLASH_CONFIG, NapotValue(FLASH_BASE, FLASH_SIZE))
  const SRAM_ENTRY := Entry(SRAM_CONFIG, NapotValue(SRAM_BASE, SRAM_SIZE))

  /** The whole unit while the task called `active` runs. */
  function Expected(l: Layout, active: string): (es: Entries) {
    [FLASH_ENTRY,
     StackEntry(l.wd, active == "Watchdog"), StackEntry(l.taskA, active == "Task A"),
     SRAM_ENTRY,
     StackEntry(l.taskB, active == "Task B"), StackEntry(l.taskC, active == "Task C"),
     StackEntry(l.hsm, active == "HSM Task"),
     Entry(OFF, 0)]
  }

  // ---- One configure_pmp call, and reprogramming, on the per-entry map ----

  /** A locked entry keeps both its address and its configuration. */
  function Configured(es: Entries, i: nat, base: nat, size: nat, c: Config): (r: Entries)
    requires i < 8 && size >= 2
  {
    if es[i].config.locked then es else es[i := Entry(c, NapotValue(base, size))]
  }

  /** reprogram_pmp_stack: the first `n` of its five steps. */
  function Reprogrammed(es: Entries, l: Layout, active: string, n: nat): (r: Entries)
    requires n <= 5
  {
    if n == 0 then es
    else
      var before, s := Reprogrammed(es, l, active, n - 1), StackSlots(l)[n - 1];
      if s.name == active then Configured(before, s.entry, 0, 1024, OFF)
      else Configured(before, s.entry, s.base, 1024, DENY)
  }

  lemma {:induction false} ReprogramStep(es: Entries, l: Layout, active: string, n: nat)
    requires n < 5 && !Reprogrammed(es, l, active, n)[StackSlots(l)[n].entry].config.locked
    ensures var s := StackSlots(l)[n];
      Reprogrammed(es, l, active, n + 1) ==
        Reprogrammed(es, l, active, n)[s.entry := StackEntry(s.base, s.name == active)]
  {}

  /** Reprogramming for a task gives the same unit whichever task ran before. */
  lemma {:induction false} ReprogramForgets(l: Layout, before: string, active: string)
    ensures Reprogrammed(Expected(l, before), l, active, 5) == Expected(l, active)
  {
    hide NapotValue, Reprogrammed;
    var e0 := Expected(l, before);
    ReprogramStart(e0, l, active);
    ReprogramStep(e0, l, active, 0);
    ReprogramStep(e0, l, active, 1);
    ReprogramStep(e0, l, active, 2);
    ReprogramStep(e0, l, active, 3);
    ReprogramStep(e0, l, active, 4);
  }

  lemma {:induction false} ReprogramStart(es: Entries, l: Layout, active: string)
    ensures Reprogrammed(es, l, active, 0) == es
  {}

  /** The unit after context switches to `names`, in that order. */
  function AfterSwitches(es: Entries, l: Layout, names: seq<string>): (r: Entries) {
    if names == [] then es
    else Reprogrammed(AfterSwitches(es, l, names[..|names| - 1]), l, names[|names| - 1], 5)
  }

  lemma {:induction false} SwitchesEndWith(l: Layout, start: string, names: seq<string>)
    ensures AfterSwitches(Expected(l, start), l, names) ==
      Expected(l, if names == [] then start else names[|names| - 1])
  {
    if names != [] {
      var front := names[..|names| - 1];
      SwitchesEndWith(l, start, front);
      ReprogramForgets(l, if front == [] then start else front[|front| - 1], names[|names| - 1]);
    }
  }

  // ---- Regions ----

  lemma {:induction false} Sizes()
    ensures Pow2(10) == 1024 && Pow2(19) == SRAM_SIZE && Pow2(22) == FLASH_SIZE
  {}

  predicate Decodes(base: nat, size: nat)
    requires size >= 2
  {
    RegionBase(NapotValue(base, size)) == base && RegionSize(NapotValue(base, size)) == size
  }

  lemma {:induction false} RegionsDecode(base: nat)
    requires base % 1024 == 0
    ensures Decodes(base, 1024) && Decodes(SRAM_BASE, SRAM_SIZE) && Decodes(FLASH_BASE, FLASH_SIZE)
  {
    hide RegionBase, RegionSize, NapotValue, Pow2;
    Sizes();
    NapotRoundTrip(base, 10);
    NapotRoundTrip(SRAM_BASE, 19);
    NapotRoundTrip(FLASH_BASE, 22);
  }

  predicate Within(a: nat, base: nat, size: nat) { base <= a < base + size }

  predicate Denies(c: Config) { !c.read && !c.write && !c.execute }

  /** Which entries match an address while `active` runs, and what they grant. */
  lemma {:induction false} ExpectedHits(l: Layout, active: string, a: nat)
    requires Placed(l)
    ensures var es := Expected(l, active);
      && (Hits(es, 0, a) <==> Within(a, FLASH_BASE, FLASH_SIZE))
      && (Hits(es, 3, a) <==> Within(a, SRAM_BASE, SRAM_SIZE))
      && (Hits(es, 1, a) <==> active != "Watchdog" && Within(a, l.wd, 1024))
      && (Hits(es, 2, a) <==> active != "Task A" && Within(a, l.taskA, 1024))
      && es[0].config == FLASH_CONFIG && es[3].config == SRAM_CONFIG
      && forall i :: 0 <= i < 8 && i != 0 && i != 3 ==> Denies(es[i].config)
  {
    hide RegionBase, RegionSize, NapotValue;
    assert InSram(StackSlots(l)[0].base) && InSram(StackSlots(l)[1].base);
    RegionsDecode(l.wd);
    RegionsDecode(l.taskA);
  }

  lemma {:induction false} DeniedFrom(es: Entries, a: nat, k: Kind, i: nat)
    requires i <= 8 && forall j :: i <= j < 8 ==> Denies(es[j].config)
    ensures !Allowed(es, a, k, i)
    decreases 8 - i
  {
    if i < 8 { DeniedFrom(es, a, k, i + 1); }
  }

  /** Entry order decides: the address is looked up in the 4 MB of flash, the two stacks of hart 0's entries,
      then the 512 KB of SRAM. Entries 4 to 6 come after SRAM and add nothing. */
  lemma {:induction false} Permissions(l: Layout, active: string, a: nat, k: Kind)
    requires Placed(l)
    ensures May(Expected(l, active), a, k) <==>
      if 0x4200_0000 <= a < 0x4240_0000 then k != Write
      else
        && 0x3FC8_0000 <= a < 0x3FD0_0000 && k != Execute
        && (active != "Watchdog" ==> !Within(a, l.wd, 1024))
        && (active != "Task A" ==> !Within(a, l.taskA, 1024))
  {
    hide Expected, StackEntry, NapotValue, Hits;
    var es := Expected(l, active);
    ExpectedHits(l, active, a);
    DeniedFrom(es, a, k, 4);
    assert Allowed(es, a, k, 1) == if Hits(es, 1, a) then false else Allowed(es, a, k, 2);
    assert Allowed(es, a, k, 2) == if Hits(es, 2, a) then false else Allowed(es, a, k, 3);
    assert Allowed(es, a, k, 3) == if Hits(es, 3, a) then Grants(SRAM_CONFIG, k) else Allowed(es, a, k, 4);
  }

  // ---- The lock ----

  /** The unit after `calls` of configure_pmp, in that order. */
  function AfterCalls(es: Entries, calls: seq<Call>): (r: Entries) {
    if calls == [] then es
    else
      var c := calls[|calls| - 1];
      Configured(AfterCalls(es, calls[..|calls| - 1]), c.entry, c.base, c.size, c.config)
  }

  datatype CallData = CallData(entry: nat, base: nat, size: nat, config: Config)

  type Call = c: CallData | c.entry < 8 && c.size >= 2
    witness CallData(0, 0, 2, Config(false, false, false, Off, false))

  /** Whatever is configured later, the flash entry stays as boot programmed it: locked, readable and
      executable, not writable, over the same region. */
  lemma {:induction false} FlashStaysLocked(l: Layout, active: string, calls: seq<Call>)
    ensures var e := AfterCalls(Expected(l, active), calls)[0];
      && e.config.locked && e.config.read && e.config.execute && !e.config.write && e.config.mode.Napot?
      && RegionBase(e.addr) == 0x4200_0000 && RegionSize(e.addr) == 0x40_0000
  {
    hide RegionBase, RegionSize, NapotValue;
    if calls == [] {
      RegionsDecode(0);
    } else {
      FlashStaysLocked(l, active, calls[..|calls| - 1]);
    }
  }

  // ---- The guarantees, after any sequence of context switches ----

  /** No address is ever both writable and executable from U-mode. */
  lemma {:induction false} WriteXorExecute(l: Layout, start: string, names: seq<string>, a: nat)
    requires Placed(l)
    ensures var es := AfterSwitches(Expected(l, start), l, names); !(May(es, a, Write) && May(es, a, Execute))
  {
    hide Expected, May;
    SwitchesEndWith(l, start, names);
    var active := if names == [] then start else names[|names| - 1];
    Permissions(l, active, a, Write);
    Permissions(l, active, a, Execute);
  }

  lemma {:induction false} SlotStack(l: Layout, i: nat, j: nat, a: nat)
    requires Placed(l) && i < 5 && j < 5 && i != j && Within(a, StackSlots(l)[i].base, 1024)
    ensures Within(a, SRAM_BASE, SRAM_SIZE) && !Within(a, FLASH_BASE, FLASH_SIZE)
    ensures !Within(a, StackSlots(l)[j].base, 1024)
  {
    assert InSram(StackSlots(l)[i].base) && InSram(StackSlots(l)[j].base);
  }

  /** Exactly when a stack is out of reach: while another task is active, and its entry ranks before the
      SRAM entry. So the Watchdog and Task A stacks are isolated, the Task B, Task C and HSM stacks are not,
      and the active task always has its own. */
  lemma {:induction false} StackIsolationExact(l: Layout, start: string, names: seq<string>, i: nat, a: nat)
    requires Placed(l) && i < 5 && Within(a, StackSlots(l)[i].base, 1024)
    ensures var es := AfterSwitches(Expected(l, start), l, names);
      var active := if names == [] then start else names[|names| - 1];
      var s := StackSlots(l)[i];
      && (May(es, a, Read) <==> s.name == active || s.entry > 3)
      && (May(es, a, Write) <==> s.name == active || s.entry > 3)
      && !May(es, a, Execute)
  {
    hide Expected, May;
    SwitchesEndWith(l, start, names);
    var active := if names == [] then start else names[|names| - 1];
    forall j | 0 <= j < 5 && j != i ensures !Within(a, StackSlots(l)[j].base, 1024) {
      SlotStack(l, i, j, a);
    }
    SlotStack(l, i, if i == 0 then 1 else 0, a);
    Permissions(l, active, a, Read);
    Permissions(l, active, a, Write);
    Permissions(l, active, a, Execute);
    assert StackSlots(l)[0].base == l.wd && StackSlots(l)[1].base == l.taskA;
  }

  /** Entry `e` denies the 1024 bytes from `base`, unless the task they belong to is active. */
  ghost predicate Guards(e: Entry, base: nat, active: bool) {
    if active then e.config.mode.Off?
    else Denies(e.config) && e.config.mode.Napot? && RegionBase(e.addr) == base && RegionSize(e.addr) == 1024
  }

  /** Which entry guards which stack, after any sequence of context switches. */
  lemma {:induction false} StackEntries(l: Layout, start: string, names: seq<string>)
    requires Placed(l)
    ensures var es := AfterSwitches(Expected(l, start), l, names);
      var active := if names == [] then start else names[|names| - 1];
      && Guards(es[1], l.wd, active == "Watchdog") && Guards(es[2], l.taskA, active == "Task A")
      && Guards(es[4], l.taskB, active == "Task B") && Guards(es[5], l.taskC, active == "Task C")
      && Guards(es[6], l.hsm, active == "HSM Task")
  {
    hide RegionBase, RegionSize, NapotValue;
    SwitchesEndWith(l, start, names);
    var s := StackSlots(l);
    assert InSram(s[0].base) && InSram(s[1].base) && InSram(s[2].base) && InSram(s[3].base) && InSram(s[4].base);
    RegionsDecode(l.wd);
    RegionsDecode(l.taskA);
    RegionsDecode(l.taskB);
    RegionsDecode(l.taskC);
    RegionsDecode(l.hsm);
  }

  // ---- The registers ----

  /** Read, patch one byte, write back. */
  function WithConfig(reg: nat, i: nat, c: Config): (r: nat) {
    CsrWritten(reg, Patched(reg, i, ToByte(c)))
  }

  lemma {:induction false} WithConfigAt(reg: nat, i: nat, c: Config, j: nat)
    requires i < 4 && j < 4
    ensures ConfigIn(WithConfig(reg, i, c), j) == if j == i && !ConfigIn(reg, i).locked then c else ConfigIn(reg, j)
  {
    hide Bit, CsrWritten, Patched, ToByte;
    PatchThroughCsr(reg, i, c, j, 0);
    PatchThroughCsr(reg, i, c, j, 1);
    PatchThroughCsr(reg, i, c, j, 2);
    PatchThroughCsr(reg, i, c, j, 3);
    PatchThroughCsr(reg, i, c, j, 4);
    PatchThroughCsr(reg, i, c, j, 7);
    ByteRoundTrip(c);
  }

  lemma {:induction false} WithConfigAll(reg: nat, i: nat, c: Config)
    requires i < 4
    ensures forall j :: 0 <= j < 4 ==>
      ConfigIn(WithConfig(reg, i, c), j) == if j == i && !ConfigIn(reg, i).locked then c else ConfigIn(reg, j)
  {
    hide ConfigIn, WithConfig;
    forall j | 0 <= j < 4
      ensures ConfigIn(WithConfig(reg, i, c), j) == if j == i && !ConfigIn(reg, i).locked then c else ConfigIn(reg, j)
    {
      WithConfigAt(reg, i, c, j);
    }
  }

  lemma {:induction false} ResetConfig()
    ensures forall i: nat :: ConfigIn(0, i) == OFF
  {
    forall i: nat ensures ConfigIn(0, i) == OFF {
      ZeroBit(8 * i);
      ZeroBit(8 * i + 1);
      ZeroBit(8 * i + 2);
      ZeroBit(8 * i + 3);
      ZeroBit(8 * i + 4);
      ZeroBit(8 * i + 7);
    }
  }

  /** One hart's PMP registers: eight addresses and two packed configuration registers. */
  class PmpUnit {
    var pmpaddr: seq<nat>
    var pmpcfg0: nat
    var pmpcfg1: nat

    ghost predicate Valid() reads this { |pmpaddr| == 8 }

    ghost function EntryAt(i: nat): (e: Entry)
      requires Valid() && i < 8
      reads this
    {
      Entry(if i < 4 then ConfigIn(pmpcfg0, i) else ConfigIn(pmpcfg1, i - 4), pmpaddr[i])
    }

    ghost function View(): (es: Entries)
      requires Valid()
      reads this
    {
      [EntryAt(0), EntryAt(1), EntryAt(2), EntryAt(3), EntryAt(4), EntryAt(5), EntryAt(6), EntryAt(7)]
    }

    constructor ()
      ensures Valid() && forall i :: 0 <= i < 8 ==> View()[i] == Entry(OFF, 0)
    {
      pmpaddr := [0, 0, 0, 0, 0, 0, 0, 0];
      pmpcfg0, pmpcfg1 := 0, 0;
      new;
      ResetConfig();
    }

    /** The packed registers refine the per-entry map: exactly the named entry changes, unless locked. */
    method ConfigurePmp(entry: nat, base: nat, size: nat, config: Config)
      requires Valid() && entry < 7 && size >= 2
      modifies this
      ensures Valid() && View() == Configured(old(View()), entry, base, size, config)
    {
      hide ConfigIn, WithConfig, NapotValue;
      var napot := NapotValue(base, size);
      if entry / 4 == 0 {
        if !ConfigIn(pmpcfg0, entry).locked { pmpaddr := pmpaddr[entry := napot]; }
        WithConfigAll(pmpcfg0, entry, config);
        pmpcfg0 := WithConfig(pmpcfg0, entry, config);
      } else {
        if !ConfigIn(pmpcfg1, entry - 4).locked { pmpaddr := pmpaddr[entry := napot]; }
        WithConfigAll(pmpcfg1, entry - 4, config);
        pmpcfg1 := WithConfig(pmpcfg1, entry - 4, config);
      }
    }

    method ReprogramPmpStack(l: Layout, activeTaskName: string)
      requires Valid()
      modifies this
      ensures Valid() && View() == Reprogrammed(old(View()), l, activeTaskName, 5)
    {
      var stacks := StackSlots(l);
      for i := 0 to 5
        invariant Valid() && View() == Reprogrammed(old(View()), l, activeTaskName, i)
      {
        if stacks[i].name == activeTaskName {
          ConfigurePmp(stacks[i].entry, 0, 1024, OFF);
        } else {
          ConfigurePmp(stacks[i].entry, stacks[i].base, 1024, DENY);
        }
      }
    }

    /** From reset, "no task active". */
    method InitMemoryProtection(l: Layout)
      requires Valid() && forall i :: 0 <= i < 8 ==> View()[i] == Entry(OFF, 0)
      modifies this
      ensures Valid() && View() == Expected(l, "")
    {
      hide NapotValue, ConfigIn;
      ConfigurePmp(0, FLASH_BASE, FLASH_SIZE, FLASH_CONFIG);
      ConfigurePmp(1, l.wd, 1024, DENY);
      ConfigurePmp(2, l.taskA, 1024, DENY);
      ConfigurePmp(4, l.taskB, 1024, DENY);
      ConfigurePmp(5, l.taskC, 1024, DENY);
      ConfigurePmp(6, l.hsm, 1024, DENY);
      ConfigurePmp(3, SRAM_BASE, SRAM_SIZE, SRAM_CONFIG);
    }
  }
}
