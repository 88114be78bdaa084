/** The cyclic partition scheduler (scheduler/src/bitmap.rs). */
module PartitionScheduler {
  import opened Tasks

  type Table = t: seq<Option<Tcb>> | |t| == 32 witness seq(32, _ => None)
  type Durations = d: seq<nat> | |d| == 32 witness seq(32, _ => 0)

  /** The value of one hart's scheduler. */
  datatype Sched = Sched(table: Table, current: nat, durations: Durations, remaining: nat)

  predicate StateIs(s: Sched, i: nat, st: TaskState) {
    i < 32 && s.table[i].Some? && s.table[i].value.state == st
  }

  predicate ReadyAt(s: Sched, i: nat) { StateIs(s, i, Ready) }

  predicate Runnable(s: Sched, i: nat) { StateIs(s, i, Running) || StateIs(s, i, Ready) }

  function WithState(t: Table, i: nat, st: TaskState): (r: Table)
    requires i < 32 && t[i].Some?
  {
    t[i := Some(t[i].value.(state := st))]
  }

  // ---- What one call computes ----

  function AfterTick(s: Sched, isTick: bool): (r: Sched) {
    if isTick && s.remaining > 0 then s.(remaining := s.remaining - 1) else s
  }

  predicate Triggered(s: Sched, isTick: bool) {
    s.remaining == 0 || !isTick || !Runnable(s, s.current)
  }

  /** First eligible slot at cyclic distance `d` or more from the current one. */
  function ScanFrom(s: Sched, d: nat): (r: Option<nat>)
    requires 1 <= d <= 33
    decreases 33 - d
  {
    if d == 33 then None
    else
      var i := (s.current + d) % 32;
      if i != IDLE && ReadyAt(s, i) then Some(i) else ScanFrom(s, d + 1)
  }

  function Pick(s: Sched): (r: Option<nat>)
    ensures r.Some? ==> ReadyAt(s, r.value)
  {
    ScanSound(s, 1);
    if ScanFrom(s, 1).Some? then ScanFrom(s, 1)
    else if ReadyAt(s, IDLE) then Some(IDLE)
    else None
  }

  function Demoted(s: Sched): (t: Table)
    requires s.current < 32
  {
    if StateIs(s, s.current, Running) then WithState(s.table, s.current, Ready) else s.table
  }

  function SwapTo(s: Sched, n: nat): (r: Sched)
    requires s.current < 32 && ReadyAt(s, n)
  {
    Sched(WithState(Demoted(s), n, Running), n, s.durations, s.durations[n])
  }

  /** New scheduler value and, when a switch happened, the slot switched out and the stack pointer
      to resume from. */
  function Scheduled(s: Sched, isTick: bool): (r: (Sched, Option<(nat, int)>))
    requires s.current < 32
  {
    var s1 := AfterTick(s, isTick);
    if !Triggered(s1, isTick) then (s1, None)
    else
      match Pick(s1)
      case None =>
        if Runnable(s1, s1.current) && s1.remaining == 0
        then (s1.(remaining := s1.durations[s1.current]), None)
        else (s1, None)
      case Some(n) =>
        (SwapTo(s1, n),
         if s1.table[s1.current].Some? then Some((s1.current, s1.table[n].value.savedSp)) else None)
  }

  // ---- The scan is "first Ready slot after current in cyclic order, idle last" ----

  function Dist(from: nat, to: nat): (d: nat)
    requires from < 32 && to < 32
    ensures 1 <= d <= 32
  {
    if from < to then to - from else to + 32 - from
  }

  /** The distance is the one the modular scan counts. */
  lemma {:induction false} DistMod(from: nat, d: nat, to: nat)
    requires from < 32 && to < 32 && 1 <= d <= 32
    ensures (from + d) % 32 == to <==> d == Dist(from, to)
  {
    if from + d < 32 { assert (from + d) % 32 == from + d; } else { assert (from + d) % 32 == from + d - 32; }
  }

  predicate Eligible(s: Sched, i: nat) { i != IDLE && ReadyAt(s, i) }

  lemma {:induction false} ScanSound(s: Sched, d: nat)
    requires 1 <= d <= 33
    ensures ScanFrom(s, d).Some? ==> Eligible(s, ScanFrom(s, d).value)
    decreases 33 - d
  {
    if d < 33 { ScanSound(s, d + 1); }
  }

  lemma {:induction false} ScanIsFirst(s: Sched, d: nat)
    requires 1 <= d <= 33 && s.current < 32
    ensures match ScanFrom(s, d)
            case Some(n) => Eligible(s, n) && d <= Dist(s.current, n)
              && forall i :: 0 <= i < 32 && Eligible(s, i) && d <= Dist(s.current, i)
                   ==> Dist(s.current, n) <= Dist(s.current, i)
            case None => forall i :: 0 <= i < 32 && Eligible(s, i) ==> Dist(s.current, i) < d
    decreases 33 - d
  {
    if d < 33 {
      ScanIsFirst(s, d + 1);
      var n := (s.current + d) % 32;
      DistMod(s.current, d, n);
      forall i | 0 <= i < 32 && Dist(s.current, i) == d ensures i == n {
        DistMod(s.current, d, i);
      }
    }
  }

  lemma {:induction false} CyclicSuccessor(x: nat)
    ensures (x % 32 + 1) % 32 == (x + 1) % 32
  {}

  /** The 32-step modular scan with idle fallback, both directions. */
  lemma {:induction false} PickIsFirstReady(s: Sched)
    requires s.current < 32
    ensures forall n :: 0 <= n < 31 ==>
      (Pick(s) == Some(n) <==>
        Eligible(s, n) && forall i :: 0 <= i < 32 && Eligible(s, i) ==> Dist(s.current, n) <= Dist(s.current, i))
    ensures Pick(s) == Some(IDLE) <==> ReadyAt(s, IDLE) && forall i :: 0 <= i < 32 ==> !Eligible(s, i)
    ensures Pick(s) == None <==> forall i :: 0 <= i < 32 ==> !ReadyAt(s, i)
  {
    ScanIsFirst(s, 1);
    forall i | 0 <= i < 32 && ReadyAt(s, i) ensures Eligible(s, i) || i == IDLE {}
    if ScanFrom(s, 1).Some? {
      var n := ScanFrom(s, 1).value;
      assert Eligible(s, n) && ReadyAt(s, n);
      forall m | 0 <= m < 31 && Eligible(s, m) && Dist(s.current, m) <= Dist(s.current, n) ensures m == n {
      }
    }
  }

  // ---- Invariant of one scheduler, and what a call restores ----

  /** Holds whenever `Schedule` is called: the current task may just have blocked or terminated. */
  ghost predicate SchedMid(s: Sched) {
    && s.current < 32
    && s.table[s.current].Some? && !ReadyAt(s, s.current)
    && (forall i :: 0 <= i < 32 ==> s.durations[i] >= 1)
    && 1 <= s.remaining <= s.durations[s.current]
    && (forall i :: 0 <= i < 32 && StateIs(s, i, Running) ==> i == s.current)
    && (if s.current == IDLE then StateIs(s, IDLE, Running) else ReadyAt(s, IDLE))
  }

  /** Holds between traps: the current task runs, or was terminated by the other hart. */
  ghost predicate SchedOk(s: Sched) {
    SchedMid(s) && (StateIs(s, s.current, Running) || StateIs(s, s.current, Terminated))
  }

  /** The swap itself: one task promoted, with its full budget, the old one demoted, nothing else touched. */
  lemma {:induction false} SwapRestores(s: Sched, n: nat)
    requires s.current < 32 && s.table[s.current].Some? && ReadyAt(s, n) && n != s.current
    requires forall i :: 0 <= i < 32 && StateIs(s, i, Running) ==> i == s.current
    ensures var s' := SwapTo(s, n);
      && StateIs(s', n, Running)
      && s'.current == n && s'.durations == s.durations && s'.remaining == s.durations[n]
      && (forall i :: 0 <= i < 32 && i != s.current && i != n ==> s'.table[i] == s.table[i])
      && (forall i :: 0 <= i < 32 && StateIs(s', i, Running) ==> i == n)
      && s'.table[n] == Some(s.table[n].value.(state := Running))
      && s'.table[s.current] == Some(s.table[s.current].value.(state :=
           if StateIs(s, s.current, Running) then Ready else s.table[s.current].value.state))
  {
    var s' := SwapTo(s, n);
    forall i | 0 <= i < 32 && StateIs(s', i, Running) ensures i == n {
      if i != n && i != s.current {
        assert StateIs(s, i, Running);
      }
    }
  }

  /** Declines a switch only when the current task still runs and nothing else is Ready. A tick costs the
      budget one, and the last one reloads it. */
  lemma {:induction false} ScheduleDeclines(s: Sched, isTick: bool)
    requires SchedMid(s) && Scheduled(s, isTick).1 == None
    ensures var s' := Scheduled(s, isTick).0;
      && s'.current == s.current && s'.table == s.table && s'.durations == s.durations
      && StateIs(s, s.current, Running)
      && s'.remaining == (if !isTick then s.remaining
                          else if s.remaining == 1 then s.durations[s.current] else s.remaining - 1)
      && (!isTick || s.remaining == 1 ==> forall i :: 0 <= i < 32 && i != s.current ==> !ReadyAt(s, i))
  {
    var s1 := AfterTick(s, isTick);
    PickIsFirstReady(s1);
    assert forall i :: 0 <= i < 32 ==> (ReadyAt(s1, i) <==> ReadyAt(s, i));
  }

  /** After every call exactly one task runs, at the current index, with 1..duration ticks left, and a
      switch resumes the first Ready task, with its full budget, from its own saved stack pointer. */
  lemma {:induction false} ScheduleRestores(s: Sched, isTick: bool)
    requires SchedMid(s)
    ensures var (s', r) := Scheduled(s, isTick);
      && SchedOk(s') && StateIs(s', s'.current, Running)
      && s'.durations == s.durations
      && (r == None ==> s'.current == s.current && s'.table == s.table)
      && (r != None ==>
            && s'.current != s.current && Pick(s) == Some(s'.current)
            && s'.remaining == s.durations[s'.current] && s' == SwapTo(s, s'.current)
            && r == Some((s.current, s.table[s'.current].value.savedSp)))
  {
    var s1 := AfterTick(s, isTick);
    var (s', r) := Scheduled(s, isTick);
    if r == None {
      ScheduleDeclines(s, isTick);
      assert forall i :: 0 <= i < 32 ==> (StateIs(s', i, Running) <==> StateIs(s, i, Running));
    } else {
      var n := s'.current;
      assert ReadyAt(s1, n) && ReadyAt(s, n);
      SamePick(s, s1, 1);
      SwapRestores(s, n);
    }
  }

  lemma {:induction false} SamePick(s: Sched, s1: Sched, d: nat)
    requires 1 <= d <= 33 && s1.table == s.table && s1.current == s.current
    ensures ScanFrom(s1, d) == ScanFrom(s, d)
    decreases 33 - d
  {
    if d < 33 { SamePick(s, s1, d + 1); }
  }

  /** Somebody else can take over: any other task, or the idle task if it is not the current one. */
  predicate HasNext(s: Sched) {
    s.current != IDLE || exists i :: 0 <= i < 31 && ReadyAt(s, i)
  }

  /** Exactly when a call switches: always if the current task no longer runs; else at a forced call or the
      last tick of the budget, if somebody else can take over. */
  lemma {:induction false} ScheduleMoves(s: Sched, isTick: bool)
    requires SchedMid(s)
    ensures Scheduled(s, isTick).0.current != s.current <==>
      !StateIs(s, s.current, Running) || ((!isTick || s.remaining == 1) && HasNext(s))
  {
    hide ScanFrom, Pick, SwapTo;
    var s1 := AfterTick(s, isTick);
    PickIsFirstReady(s1);
    assert forall i :: 0 <= i < 32 ==> (ReadyAt(s1, i) <==> ReadyAt(s, i));
    ScheduleRestores(s, isTick);
  }

  // ---- Waiting bound ----

  /** Ticks a slot can consume in one turn: its duration if a task is registered there. */
  function Weight(s: Sched, i: nat): (w: nat)
    requires i < 32
  {
    if s.table[i].Some? then s.durations[i] else 0
  }

  /** Total weight of the slots lo % 32, ..., (hi - 1) % 32. */
  function Span(s: Sched, lo: nat, hi: nat): (w: nat)
    requires lo <= hi
    decreases hi - lo
  {
    if lo == hi then 0 else Weight(s, lo % 32) + Span(s, lo + 1, hi)
  }

  lemma {:induction false} SpanHead(s: Sched, lo: nat, hi: nat)
    requires lo < 32 && lo < hi
    ensures Span(s, lo, hi) == Weight(s, lo) + Span(s, lo + 1, hi)
  {}

  lemma {:induction false} SpanShift(s: Sched, lo: nat, hi: nat)
    requires lo <= hi
    ensures Span(s, lo + 32, hi + 32) == Span(s, lo, hi)
    decreases hi - lo
  {
    if lo < hi { SpanShift(s, lo + 1, hi); }
  }

  lemma {:induction false} SpanSplit(s: Sched, lo: nat, mid: nat, hi: nat)
    requires lo <= mid <= hi
    ensures Span(s, lo, hi) == Span(s, lo, mid) + Span(s, mid, hi)
    decreases mid - lo
  {
    if lo < mid { SpanSplit(s, lo + 1, mid, hi); }
  }

  lemma {:induction false} SpanSame(s: Sched, s': Sched, lo: nat, hi: nat)
    requires lo <= hi && s.durations == s'.durations
    requires forall i :: 0 <= i < 32 ==> s.table[i].Some? == s'.table[i].Some?
    ensures Span(s, lo, hi) == Span(s', lo, hi)
    decreases hi - lo
  {
    if lo < hi { SpanSame(s, s', lo + 1, hi); }
  }

  /** Upper bound on the timer traps before a Ready task in slot `t` runs: the ticks left to the
      current partition plus the durations strictly between it and `t` in cyclic order. */
  function Wait(s: Sched, t: nat): (w: nat)
    requires s.current < 32 && t < 32
  {
    s.remaining + Span(s, s.current + 1, s.current + Dist(s.current, t))
  }

  /** The durations of all other registered partitions. */
  function OtherDurations(s: Sched, t: nat): (w: nat)
    requires t < 32
  {
    Span(s, t + 1, t + 32)
  }

  lemma {:induction false} WaitBounded(s: Sched, t: nat)
    requires SchedMid(s) && t < 32 && t != s.current
    ensures 1 <= Wait(s, t) <= OtherDurations(s, t)
  {
    hide Span;
    var c := s.current;
    var c' := if c > t then c else c + 32;
    var d := Dist(c, t);
    if c' != c { SpanShift(s, c, c + d); }
    SpanSplit(s, t + 1, c', t + 32);
    SpanHead(s, c, c + d);
  }

  lemma {:induction false} DistSplits(c: nat, n: nat, t: nat)
    requires c < 32 && n < 32 && t < 32 && t != n
    requires Dist(c, n) < Dist(c, t)
    ensures Dist(n, t) == Dist(c, t) - Dist(c, n)
    ensures c + Dist(c, n) == n || c + Dist(c, n) == n + 32
  {}

  lemma {:induction false} SwapShrinksWait(s: Sched, n: nat, t: nat)
    requires s.current < 32 && t < 32 && ReadyAt(s, n) && n != t
    requires Dist(s.current, n) < Dist(s.current, t)
    ensures Wait(SwapTo(s, n), t) <= Span(s, s.current + 1, s.current + Dist(s.current, t))
  {
    hide Span;
    var s' := SwapTo(s, n);
    var c, d, e := s.current, Dist(s.current, t), Dist(s.current, n);
    DistSplits(c, n, t);
    SwapRegisters(s, n);
    SpanSplit(s, c + 1, c + e, c + d);
    SpanSame(s, s', n + 1, n + (d - e));
    if c + e == n + 32 {
      SpanShift(s, n, n + (d - e));
    }
    SpanHead(s, n, n + (d - e));
  }

  lemma {:induction false} SwapRegisters(s: Sched, n: nat)
    requires s.current < 32 && ReadyAt(s, n)
    ensures var s' := SwapTo(s, n);
      s'.durations == s.durations && forall i :: 0 <= i < 32 ==> s'.table[i].Some? == s.table[i].Some?
  {}

  /** While a non-idle task waits, every tick and every forced reschedule of its hart either runs it
      or strictly shrinks its waiting bound. */
  lemma {:induction false} WaitDecreases(s: Sched, isTick: bool, t: nat)
    requires SchedMid(s) && t < 31 && t != s.current && ReadyAt(s, t)
    ensures var s' := Scheduled(s, isTick).0;
      s'.current == t || (s'.current < 32 && ReadyAt(s', t) && Wait(s', t) < Wait(s, t))
  {
    hide Scheduled, Span, Pick, SwapTo;
    var (s', r) := Scheduled(s, isTick);
    if r == None {
      DeclineShrinksWait(s, isTick, t);
    } else {
      ScheduleRestores(s, isTick);
      var n := s'.current;
      if n != t {
        SwitchPassesNobody(s, isTick, t);
        SwapShrinksWait(s, n, t);
        SwapRestores(s, n);
      }
    }
  }

  lemma {:induction false} DeclineShrinksWait(s: Sched, isTick: bool, t: nat)
    requires SchedMid(s) && t < 31 && t != s.current && ReadyAt(s, t)
    requires Scheduled(s, isTick).1 == None
    ensures var s' := Scheduled(s, isTick).0;
      s'.current == s.current && ReadyAt(s', t) && Wait(s', t) < Wait(s, t)
  {
    hide Scheduled, Span, Pick;
    var s' := Scheduled(s, isTick).0;
    ScheduleDeclines(s, isTick);
    DeclineCounts(s, isTick, t);
    SpanSame(s, s', s.current + 1, s.current + Dist(s.current, t));
  }

  /** With another task Ready, only a tick inside the budget is declined. */
  lemma {:induction false} DeclineCounts(s: Sched, isTick: bool, t: nat)
    requires SchedMid(s) && t < 32 && t != s.current && ReadyAt(s, t) && Scheduled(s, isTick).1 == None
    ensures isTick && Scheduled(s, isTick).0.remaining == s.remaining - 1
  {
    hide Pick, ScanFrom;
    var s1 := AfterTick(s, isTick);
    assert ReadyAt(s1, t);
    PickIsFirstReady(s1);
  }

  /** A switch never skips a waiting task. */
  lemma {:induction false} SwitchPassesNobody(s: Sched, isTick: bool, t: nat)
    requires SchedMid(s) && t < 31 && t != s.current && ReadyAt(s, t)
    requires Scheduled(s, isTick).1 != None && Scheduled(s, isTick).0.current != t
    ensures Dist(s.current, Scheduled(s, isTick).0.current) < Dist(s.current, t)
  {
    var s1 := AfterTick(s, isTick);
    PickIsFirstReady(s1);
    assert Eligible(s1, t);
    var n := Pick(s1).value;
    assert n != IDLE;
    assert Dist(s.current, n) <= Dist(s.current, t);
    assert Dist(s.current, n) == Dist(s.current, t) ==> n == t;
  }

  // ---- The scheduler object ----

  class BitMapScheduler {
    var taskTable: Table
    var currentPartitionIdx: nat
    var partitionDurations: Durations
    var remainingMifTicks: nat

    ghost function View(): (s: Sched)
      reads this
    {
      Sched(taskTable, currentPartitionIdx, partitionDurations, remainingMifTicks)
    }

    constructor ()
      ensures View() == Sched(seq(32, _ => None), 0, seq(32, _ => 100), 100)
    {
      taskTable := seq(32, _ => None);
      currentPartitionIdx := 0;
      partitionDurations := seq(32, _ => 100);
      remainingMifTicks := 100;
    }

    /** Places a task in the slot of its priority; slot number equals priority ever after. */
    method RegisterTask(tcb: Tcb)
      requires tcb.priority < MAX_PARTITIONS
      modifies this
      ensures View() == old(View()).(table :=
        old(taskTable)[tcb.priority := Some(tcb.(activePriority := tcb.priority))])
    {
      var idx := tcb.priority;
      taskTable := taskTable[idx := Some(tcb.(activePriority := tcb.priority))];
    }

    /** Pass 1: the modular scan over all 32 slots, skipping the idle partition. */
    method FindNextReady() returns (found: bool, nextIdx: nat)
      requires currentPartitionIdx < 32
      ensures ScanFrom(View(), 1) == if found then Some(nextIdx) else None
    {
      nextIdx := (currentPartitionIdx + 1) % 32;
      found := false;
      for d := 1 to 33
        invariant nextIdx == (currentPartitionIdx + d) % 32
        invariant ScanFrom(View(), d) == ScanFrom(View(), 1)
      {
        if nextIdx != 31 && taskTable[nextIdx].Some? && taskTable[nextIdx].value.state == Ready {
          return true, nextIdx;
        }
        CyclicSuccessor(currentPartitionIdx + d);
        nextIdx := (nextIdx + 1) % 32;
      }
    }

    method Schedule(isTick: bool) returns (r: Option<(nat, int)>)
      requires currentPartitionIdx < 32
      modifies this
      ensures (View(), r) == Scheduled(old(View()), isTick)
    {
      var currentIdx := currentPartitionIdx;
      if isTick && remainingMifTicks > 0 {
        remainingMifTicks := remainingMifTicks - 1;
      }
      var currentRunnable := taskTable[currentIdx].Some? &&
        (taskTable[currentIdx].value.state == Running || taskTable[currentIdx].value.state == Ready);
      if remainingMifTicks != 0 && isTick && currentRunnable {
        return None;
      }
      var found, nextIdx := FindNextReady();
      if !found && taskTable[31].Some? && taskTable[31].value.state == Ready {
        nextIdx := 31;
        found := true;
      }
      if !found {
        if currentRunnable && remainingMifTicks == 0 {
          remainingMifTicks := partitionDurations[currentIdx];
        }
        return None;
      }
      ScanSound(View(), 1);
      r := SwapPartition(currentIdx, nextIdx);
    }

    method SwapPartition(currentIdx: nat, nextIdx: nat) returns (r: Option<(nat, int)>)
      requires currentPartitionIdx == currentIdx < 32 && ReadyAt(View(), nextIdx)
      modifies this
      ensures View() == SwapTo(old(View()), nextIdx)
      ensures r == if old(taskTable)[currentIdx].Some?
                   then Some((currentIdx, old(taskTable)[nextIdx].value.savedSp)) else None
    {
      currentPartitionIdx := nextIdx;
      remainingMifTicks := partitionDurations[nextIdx];
      if taskTable[currentIdx].Some? && taskTable[currentIdx].value.state == Running {
        taskTable := WithState(taskTable, currentIdx, Ready);
      }
      taskTable := WithState(taskTable, nextIdx, Running);
      if taskTable[currentIdx].None? {
        return None;
      }
      return Some((currentIdx, taskTable[nextIdx].value.savedSp));
    }

    /** Picks the lowest Ready slot at boot; asserts that there is one. */
    method StartFirstTask() returns (userSp: int)
      requires exists i :: 0 <= i < 32 && ReadyAt(View(), i)
      modifies this
      ensures currentPartitionIdx < 32 && ReadyAt(old(View()), currentPartitionIdx)
      ensures forall i :: 0 <= i < currentPartitionIdx ==> !ReadyAt(old(View()), i)
      ensures View() == old(View()).(current := currentPartitionIdx,
        remaining := old(partitionDurations)[currentPartitionIdx],
        table := WithState(old(taskTable), currentPartitionIdx, Running))
      ensures userSp == old(taskTable)[currentPartitionIdx].value.savedSp
    {
      var firstIdx := 0;
      while firstIdx < 32
        invariant 0 <= firstIdx <= 32
        invariant forall i :: 0 <= i < firstIdx ==> !ReadyAt(View(), i)
      {
        if taskTable[firstIdx].Some? && taskTable[firstIdx].value.state == Ready {
          break;
        }
        firstIdx := firstIdx + 1;
      }
      assert firstIdx < 32;
      currentPartitionIdx := firstIdx;
      remainingMifTicks := partitionDurations[firstIdx];
      taskTable := WithState(taskTable, firstIdx, Running);
      userSp := taskTable[firstIdx].value.savedSp;
    }
  }
}
