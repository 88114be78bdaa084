/** The kernel as the source has it: one object updated in place by each trap. Every method is proved
    to compute exactly the step the theorems are about. */
module KernelObject {
  import opened Tasks
  import opened PartitionScheduler
  import opened KernelState
  import opened KernelSteps
  import opened KernelInvariant
  import opened KernelSafety
  import opened RecoverySafety
  import opened Machine
  import opened Bitwise
  import opened Bitmaps
  import L = LockOrder

  datatype RawMutex = RawMutex(locked: bool, ownerTaskIdx: Option<nat>, waitersBitmap: nat)

  type RawMutexes = m: seq<Option<RawMutex>> | |m| == 8 witness seq(8, _ => None)

  ghost function AbsMutex(r: Option<RawMutex>): (m: Option<KMutex>) {
    if r.None? then None else Some(KMutex(r.value.locked, r.value.ownerTaskIdx, Bits(r.value.waitersBitmap)))
  }

  ghost function AbsMutexes(rs: RawMutexes): (ms: Mutexes)
    ensures forall i :: 0 <= i < 8 ==> ms[i] == AbsMutex(rs[i])
  {
    seq(8, i requires 0 <= i < 8 => AbsMutex(rs[i]))
  }

  lemma {:induction false} AbsUpdate(rs: RawMutexes, i: nat, r: RawMutex)
    requires i < 8
    ensures AbsMutexes(rs[i := Some(r)]) == AbsMutexes(rs)[i := AbsMutex(Some(r))]
  {
    var a, b := AbsMutexes(rs[i := Some(r)]), AbsMutexes(rs)[i := AbsMutex(Some(r))];
    assert forall j :: 0 <= j < 8 ==> a[j] == b[j];
  }

  const EMPTY_SCHED: Sched := Sched(seq(32, _ => None), 0, seq(32, _ => 100), 100)

  function StaticKernel(stacks: map<Tid, Stack>, statics: Stack): (k: Kernel) {
    Kernel([EMPTY_SCHED, EMPTY_SCHED], [Some(KMutex(false, None, {})), None, None, None, None, None, None, None],
           0, seq(32, _ => 0), map[], {}, [], stacks, statics)
  }

  /** `switch_task` touches no saved frame, so a result written after it could be written before it. */
  lemma {:induction false} SwitchA0(k: Kernel, h: nat, sp: int, isTick: bool, v: Word)
    requires h < 2 && k.scheds[h].current < 32
    ensures var o := Switch(k, h, sp, isTick);
      Switch(SetA0(k, sp, v), h, sp, isTick) == Done(SetA0(o.k, sp, v), o.sp)
  {
    hide Scheduled, PutReg;
  }

  ghost predicate AllPresent(k: Kernel, ws: set<nat>) {
    forall w :: w in ws ==> w < 32 && Occ(k, Home(w))
  }

  /** Every waiter bit names a registered task. */
  ghost predicate WaitersPresent(k: Kernel) {
    forall m :: 0 <= m < 8 && k.mutexes[m].Some? ==> AllPresent(k, k.mutexes[m].value.waiters)
  }

  lemma {:induction false} InvWaiters(k: Kernel)
    requires MutexInv(k, None)
    ensures WaitersPresent(k)
  {
    forall m | 0 <= m < 8 && k.mutexes[m].Some? ensures AllPresent(k, k.mutexes[m].value.waiters) {
      assert MutexOk(k, m, None);
    }
  }

  /** The scan reads only the task tables. */
  lemma {:induction false} SameTableScan(k: Kernel, k': Kernel, ws: set<nat>, n: nat)
    requires k'.scheds == k.scheds
    ensures HighestWaiter(k', ws, n) == HighestWaiter(k, ws, n)
  {
    if n > 0 { SameTableScan(k, k', ws, n - 1); }
  }

  lemma {:induction false} RecoverPresent(k: Kernel, m: nat, dead: nat)
    requires m < 8 && WaitersPresent(k)
    ensures WaitersPresent(RecoverOne(k, m, dead))
  {
    hide HighestWaiter;
    var k' := RecoverOne(k, m, dead);
    forall i | 0 <= i < 8 && k'.mutexes[i].Some? ensures AllPresent(k', k'.mutexes[i].value.waiters) {
      assert AllPresent(k, k.mutexes[i].value.waiters);
    }
  }

  lemma {:induction false} StoredWaiters(k: Kernel, e: Event)
    requires Inv(k) && e.Trap?
    ensures WaitersPresent(Stored(k, e))
  {
    InvWaiters(k);
    var k' := Stored(k, e);
    forall m | 0 <= m < 8 && k'.mutexes[m].Some? ensures AllPresent(k', k'.mutexes[m].value.waiters) {
      assert AllPresent(k, k.mutexes[m].value.waiters);
    }
  }

  class KernelMachine {
    const sched0: BitMapScheduler
    const sched1: BitMapScheduler
    var mutexes: RawMutexes
    var tickCount: Word
    var lastCheckinTick: Checkins
    var mem: Memory
    var msip: set<nat>
    var transfers: seq<Transfer>
    const stacks: map<Tid, Stack>
    const statics: Stack
    ghost var lockCalls: seq<L.Op>    // every lock call made so far

    ghost function View(): (k: Kernel)
      reads this, sched0, sched1
    {
      Kernel([sched0.View(), sched1.View()], AbsMutexes(mutexes), tickCount, lastCheckinTick, mem,
             msip, transfers, stacks, statics)
    }

    /** The static initial values: two empty schedulers and mutex 0. */
    constructor (stacks: map<Tid, Stack>, statics: Stack)
      ensures Apart() && fresh(sched0) && fresh(sched1) && this.stacks == stacks && lockCalls == []
      ensures View() == StaticKernel(stacks, statics)
    {
      sched0 := new BitMapScheduler();
      sched1 := new BitMapScheduler();
      mutexes := [Some(RawMutex(false, None, 0)), None, None, None, None, None, None, None];
      tickCount := 0;
      lastCheckinTick := seq(32, _ => 0);
      mem, msip, transfers, lockCalls := map[], {}, [], [];
      this.stacks, this.statics := stacks, statics;
      new;
      BitsZero();
      assert AbsMutexes(mutexes) == StaticKernel(stacks, statics).mutexes;
    }

    ghost predicate Apart()
    {
      sched0 != sched1
    }

    ghost predicate Valid()
      reads this, sched0, sched1
    {
      Apart() && Inv(View())
    }

    function SchedOf(h: nat): (s: BitMapScheduler) { if h == 0 then sched0 else sched1 }

    predicate Registered(t: Tid)
      reads this, sched0, sched1
      ensures Registered(t) <==> Occ(View(), t)
    {
      t.hart < 2 && t.slot < 32 && SchedOf(t.hart).taskTable[t.slot].Some?
    }

    function Entry(t: Tid): (b: Tcb)
      requires Registered(t)
      reads this, sched0, sched1
      ensures b == TcbOf(View(), t)
    {
      SchedOf(t.hart).taskTable[t.slot].value
    }

    method PutEntry(t: Tid, b: Tcb)
      requires Apart() && Registered(t)
      modifies SchedOf(t.hart)
      ensures View() == SetTcb(old(View()), t, b)
    {
      var s := SchedOf(t.hart);
      s.taskTable := s.taskTable[t.slot := Some(b)];
      assert View().scheds == SetTcb(old(View()), t, b).scheds;
    }

    method PutState(t: Tid, st: TaskState)
      requires Apart() && Registered(t)
      modifies SchedOf(t.hart)
      ensures View() == SetState(old(View()), t, st)
    {
      PutEntry(t, Entry(t).(state := st));
    }

    method PutMutex(m: nat, r: RawMutex)
      requires m < 8
      modifies `mutexes
      ensures View() == SetMutex(old(View()), m, AbsMutex(Some(r)).value)
    {
      AbsUpdate(mutexes, m, r);
      mutexes := mutexes[m := Some(r)];
    }

    method PutA0(sp: int, v: Word)
      modifies `mem
      ensures View() == SetA0(old(View()), sp, v)
    {
      mem := PutReg(mem, sp, REG_A0, v);
    }

    // ---- Lock calls ----

    ghost method TakeLock(w: L.Which)
      modifies `lockCalls
      ensures lockCalls == old(lockCalls) + [L.Take(w)]
    {
      lockCalls := lockCalls + [L.Take(w)];
    }

    ghost method GiveLock(w: L.Which)
      modifies `lockCalls
      ensures lockCalls == old(lockCalls) + [L.Give(w)]
    {
      lockCalls := lockCalls + [L.Give(w)];
    }

    // ---- switch_task ----

    method SwitchTask(h: nat, currentSp: int, isTick: bool) returns (sp: int)
      requires Apart() && h < 2 && SchedOf(h).currentPartitionIdx < 32
      modifies SchedOf(h)
      ensures Done(View(), sp) == Switch(old(View()), h, currentSp, isTick)
    {
      sp := currentSp;
      var s := SchedOf(h);
      var r := s.Schedule(isTick);
      if r.Some? {
        var (prev, newSp) := r.value;
        s.taskTable := WithSp(s.taskTable, prev, currentSp);
        sp := newSp;
      }
      assert View().scheds == Switch(old(View()), h, currentSp, isTick).k.scheds;
    }

    // ---- Timer ----

    method TimerTrap(h: nat, currentSp: int) returns (sp: int)
      requires Apart() && h < 2 && SchedOf(h).currentPartitionIdx < 32
      modifies `tickCount, `lockCalls, SchedOf(h)
      ensures Done(View(), sp) == Switch(Ticked(old(View()), h), h, currentSp, true)
      ensures lockCalls == old(lockCalls) + L.OUTER
    {
      var tick := Wrap(tickCount + 1);
      tickCount := tick;
      TakeLock(L.Sched);
      var s := SchedOf(h);
      WakeSleepers(s, tick);
      assert View().scheds == Ticked(old(View()), h).scheds;
      sp := SwitchTask(h, currentSp, true);
      GiveLock(L.Sched);
    }

    method WakeSleepers(s: BitMapScheduler, tick: Word)
      modifies s
      ensures s.View() == old(s.View()).(table := WakeAll(old(s.taskTable), tick))
    {
      for i := 0 to 32
        invariant s.View() == old(s.View()).(table := s.taskTable)
        invariant forall j :: 0 <= j < 32 ==>
          s.taskTable[j] == if j < i then Wake(old(s.taskTable)[j], tick) else old(s.taskTable)[j]
      {
        if s.taskTable[i].Some? && s.taskTable[i].value.state.Blocked? && tick >= s.taskTable[i].value.state.wakeTick {
          s.taskTable := s.taskTable[i := Some(s.taskTable[i].value.(state := Ready))];
        }
      }
      assert s.taskTable == WakeAll(old(s.taskTable), tick);
    }

    // ---- Syscalls 2, 3, 5 ----

    method SleepTicks(h: nat, currentSp: int) returns (sp: int)
      requires Apart() && h < 2 && Registered(Tid(h, SchedOf(h).currentPartitionIdx))
      modifies `lockCalls, SchedOf(h)
      ensures Done(View(), sp) == Finish(Sleep(old(View()), h, currentSp), h, currentSp)
      ensures lockCalls == old(lockCalls) + L.OUTER
    {
      hide Reg;
      var ticks := Reg(mem, currentSp, REG_A0);
      TakeLock(L.Sched);
      PutState(Tid(h, SchedOf(h).currentPartitionIdx), Blocked(Wrap(tickCount + ticks)));
      sp := SwitchTask(h, currentSp, false);
      GiveLock(L.Sched);
    }

    method WatchdogCheckIn(h: nat, currentSp: int) returns (sp: int)
      requires h < 2 && SchedOf(h).currentPartitionIdx < 32
      modifies `lastCheckinTick, `lockCalls
      ensures Done(View(), sp) == Finish(CheckIn(old(View()), h), h, currentSp)
      ensures lockCalls == old(lockCalls) + L.OUTER
    {
      TakeLock(L.Sched);
      var slot, ticks: seq<Word> := SchedOf(h).currentPartitionIdx, lastCheckinTick[..];
      ticks := ticks[slot := tickCount];
      assert |ticks| == 32;
      assert forall i :: 0 <= i < 32 ==> 0 <= ticks[i] < 0x1_0000_0000;
      lastCheckinTick := ticks;
      sp := currentSp;
      GiveLock(L.Sched);
    }

    /** The capability a0 names, or NoCap when the index is out of range. */
    method ReadCap(h: nat, currentSp: int) returns (c: Capability)
      requires Apart() && h < 2 && Registered(Tid(h, SchedOf(h).currentPartitionIdx))
      ensures c == NamedCap(View(), h, currentSp)
    {
      var capIdx := Reg(mem, currentSp, REG_A0);
      c := NoCap;
      if capIdx < 8 {
        c := Entry(Tid(h, SchedOf(h).currentPartitionIdx)).capabilities[capIdx];
      }
    }

    // ---- Syscalls 3 and 4 ----

    method LockMutex(h: nat, currentSp: int) returns (sp: int)
      requires Apart() && h < 2 && Registered(Tid(h, SchedOf(h).currentPartitionIdx))
      requires !Lock(View(), h, currentSp).Panic?
      modifies `mem, `mutexes, `lockCalls, SchedOf(h)
      ensures Done(View(), sp) == Finish(Lock(old(View()), h, currentSp), h, currentSp)
      ensures lockCalls == old(lockCalls) + L.BOTH
    {
      hide Lock, Finish, NamedCap, Reg, PutReg;
      TakeLock(L.Sched);
      TakeLock(L.Mutex);
      var cap := ReadCap(h, currentSp);
      var result;
      sp, result := LockThrough(h, currentSp, cap);
      if result.Some? {
        PutA0(currentSp, result.value);
      }
      GiveLock(L.Sched);
    }

    /** The branches of syscall 3, each with its own release of MUTEX_LOCK; `result` is what remains to be
        written to the caller's a0. */
    method LockThrough(h: nat, currentSp: int, cap: Capability) returns (sp: int, result: Option<Word>)
      requires Apart() && h < 2 && Registered(Tid(h, SchedOf(h).currentPartitionIdx))
      requires cap == NamedCap(View(), h, currentSp) && !Lock(View(), h, currentSp).Panic?
      modifies `mutexes, `lockCalls, SchedOf(h)
      ensures var o := Finish(Lock(old(View()), h, currentSp), h, currentSp);
        if result.None? then Done(View(), sp) == o else Done(SetA0(View(), currentSp, result.value), sp) == o
      ensures lockCalls == old(lockCalls) + [L.Give(L.Mutex)]
    {
      hide Bits, Switch, SetTcb, SetState, NamedCap, Reg, PutReg;
      sp := currentSp;
      if cap.MutexCap? && cap.canLock {
        if mutexes[cap.mutexIdx].Some? {
          if !mutexes[cap.mutexIdx].value.locked {
            TakeFree(h, cap.mutexIdx);
            result := Some(0);
            GiveLock(L.Mutex);
          } else {
            WaitFor(h, cap.mutexIdx);
            GiveLock(L.Mutex);
            sp := SwitchTask(h, currentSp, false);
            result := None;
          }
        } else {
          GiveLock(L.Mutex);
          result := Some(MINUS_ONE);
        }
      } else {
        GiveLock(L.Mutex);
        result := Some(MINUS_ONE);
      }
    }

    method TakeFree(h: nat, m: nat)
      requires h < 2 && m < 8 && mutexes[m].Some?
      modifies `mutexes
      ensures View() == GrantFree(old(View()), m, AbsMutex(old(mutexes)[m]).value, CurTid(old(View()), h))
    {
      PutMutex(m, mutexes[m].value.(locked := true, ownerTaskIdx := Some(SchedOf(h).currentPartitionIdx)));
    }

    method WaitFor(h: nat, m: nat)
      requires Apart() && h < 2 && m < 8 && mutexes[m].Some? && Registered(Tid(h, SchedOf(h).currentPartitionIdx))
      modifies `mutexes, SchedOf(h)
      ensures View() == BlockOn(old(View()), m, AbsMutex(old(mutexes)[m]).value, CurTid(old(View()), h))
      ensures SchedOf(h).currentPartitionIdx == old(SchedOf(h).currentPartitionIdx)
    {
      hide Bits;
      var runningIdx := SchedOf(h).currentPartitionIdx;
      PutState(Tid(h, runningIdx), BlockedOnMutex(m));
      var bitmap := SetBit(mutexes[m].value.waitersBitmap, runningIdx);
      PutMutex(m, mutexes[m].value.(waitersBitmap := bitmap));
    }

    /** The scan over the waiter bitmap: best priority first, looked up on the waiter's home hart. */
    method FindHighestWaiter(bitmap: nat) returns (best: Option<nat>)
      requires Apart() && forall w :: w in Bits(bitmap) ==> Registered(Home(w))
      ensures best == HighestWaiter(View(), Bits(bitmap), 32)
    {
      hide Bits;
      best := None;
      for i := 0 to 32
        invariant best == HighestWaiter(View(), Bits(bitmap), i)
      {
        var waiting := TestBit(bitmap, i);
        if waiting {
          if best.None? || Entry(Home(i)).priority < Entry(Home(best.value)).priority {
            best := Some(i);
          }
        }
      }
    }

    /** Ownership moves to waiter `w`, which becomes Ready. */
    method PassOwnership(m: nat, w: nat)
      requires Apart() && m < 8 && mutexes[m].Some? && w < 32 && Registered(Home(w))
      modifies `mutexes, SchedOf(HartOf(w))
      ensures View() == HandOver(old(View()), m, AbsMutex(old(mutexes)[m]).value, w)
    {
      hide Bits;
      var bitmap := ClearBit(mutexes[m].value.waitersBitmap, w);
      PutMutex(m, RawMutex(true, Some(w), bitmap));
      PutState(Home(w), Ready);
    }

    method UnlockMutex(h: nat, currentSp: int) returns (sp: int)
      requires Apart() && h < 2 && Registered(Tid(h, SchedOf(h).currentPartitionIdx)) && WaitersPresent(View())
      requires !Unlock(View(), h, currentSp).Panic?
      modifies this, sched0, sched1
      ensures Done(View(), sp) == Finish(Unlock(old(View()), h, currentSp), h, currentSp)
      ensures lockCalls == old(lockCalls) + L.BOTH
    {
      hide Unlock, Finish, NamedCap, WaitersPresent, Reg, PutReg;
      TakeLock(L.Sched);
      TakeLock(L.Mutex);
      var cap := ReadCap(h, currentSp);
      var result;
      sp, result := UnlockThrough(h, currentSp, cap);
      PutA0(currentSp, result);
      GiveLock(L.Sched);
    }

    /** The branches of syscall 4; `result` is what remains to be written to the caller's a0. */
    method UnlockThrough(h: nat, currentSp: int, cap: Capability) returns (sp: int, result: Word)
      requires Apart() && h < 2 && Registered(Tid(h, SchedOf(h).currentPartitionIdx)) && WaitersPresent(View())
      requires cap == NamedCap(View(), h, currentSp) && !Unlock(View(), h, currentSp).Panic?
      modifies this, sched0, sched1
      ensures Done(SetA0(View(), currentSp, result), sp) == Finish(Unlock(old(View()), h, currentSp), h, currentSp)
      ensures lockCalls == old(lockCalls) + [L.Give(L.Mutex)]
    {
      hide Bits, Switch, SetTcb, SetState, HandOver, HighestWaiter, NamedCap, WaitersPresent, Reg, PutReg;
      sp := currentSp;
      if cap.MutexCap? && cap.canUnlock {
        if mutexes[cap.mutexIdx].Some? {
          assert mutexes[cap.mutexIdx].value.ownerTaskIdx == Some(SchedOf(h).currentPartitionIdx);
          ReleaseMutex(h, cap.mutexIdx);
          SwitchA0(View(), h, currentSp, false, 0);
          sp := SwitchTask(h, currentSp, false);
          result := 0;
        } else {
          GiveLock(L.Mutex);
          result := MINUS_ONE;
        }
      } else {
        GiveLock(L.Mutex);
        result := MINUS_ONE;
      }
    }

    /** Hands the mutex to its best waiter and signals that waiter's hart, or frees it. */
    method ReleaseMutex(h: nat, m: nat)
      requires Apart() && h < 2 && m < 8 && mutexes[m].Some? && WaitersPresent(View())
      modifies this, sched0, sched1
      ensures Unlocked(old(View()), h, m, AbsMutex(old(mutexes)[m]).value) == Some(View())
      ensures SchedOf(h).currentPartitionIdx == old(SchedOf(h).currentPartitionIdx)
      ensures lockCalls == old(lockCalls) + [L.Give(L.Mutex)]
    {
      hide Bits, HighestWaiter, PutReg;
      ghost var k := View();
      var r := mutexes[m].value;
      assert AllPresent(k, Bits(r.waitersBitmap));
      var best := FindHighestWaiter(r.waitersBitmap);
      if best.Some? {
        var w := best.value;
        PassOwnership(m, w);
        PutA0(Entry(Home(w)).savedSp, 0);
        GiveLock(L.Mutex);
        if HartOf(w) != h {
          msip := msip + {HartOf(w)};
        }
      } else {
        PutMutex(m, r.(locked := false, ownerTaskIdx := None));
        GiveLock(L.Mutex);
      }
    }

    // ---- Syscalls 6 and 7 ----

    /** First task on one hart blocked on the endpoint in the given role. */
    method FindOn(s: BitMapScheduler, ep: nat, sender: bool) returns (r: Option<nat>)
      ensures r == FindIn(s.View(), ep, sender, 0)
    {
      r := None;
      for i := 0 to 32
        invariant r == None
        invariant FindIn(s.View(), ep, sender, i) == FindIn(s.View(), ep, sender, 0)
      {
        if s.taskTable[i].Some? && Waits(s.taskTable[i].value.state, ep, sender) {
          return Some(i);
        }
      }
    }

    method FindWaiter(ep: nat, sender: bool) returns (r: Option<Tid>)
      ensures r == Find(View(), ep, sender)
    {
      r := None;
      for h := 0 to 2
        invariant r == None
        invariant h >= 1 ==> FindIn(View().scheds[0], ep, sender, 0).None?
        invariant h == 2 ==> FindIn(View().scheds[1], ep, sender, 0).None?
      {
        var i := FindOn(SchedOf(h), ep, sender);
        if i.Some? {
          return Some(Tid(h, i.value));
        }
      }
    }

    /** The rendezvous is met: move the bytes, wake the peer, complete both calls. */
    method Meet(h: nat, currentSp: int, ep: nat, peer: Tid, src: Word, dst: Word, len: Word,
                peerResult: Word, callerResult: Word, callerSends: bool)
      requires Apart() && h < 2 && Registered(peer)
      modifies `mem, `transfers, `msip, SchedOf(peer.hart)
      ensures View() == Rendezvous(old(View()), h, currentSp, ep, peer, src, dst, len, peerResult, callerResult,
                                   callerSends)
    {
      hide Copy, PutReg;
      var me, peerSp := Tid(h, SchedOf(h).currentPartitionIdx), Entry(peer).savedSp;
      mem := Copy(mem, src, dst, len);
      PutState(peer, Ready);
      assert View().scheds == SetState(old(View()), peer, Ready).scheds;
      PutA0(peerSp, peerResult);
      PutA0(currentSp, callerResult);
      transfers := transfers + [if callerSends then Transfer(me, peer, ep, len) else Transfer(peer, me, ep, len)];
      if peer.hart != h {
        msip := msip + {peer.hart};
      }
    }

    method SendIpc(h: nat, currentSp: int) returns (sp: int)
      requires Apart() && h < 2 && Registered(Tid(h, SchedOf(h).currentPartitionIdx))
      modifies this, sched0, sched1
      ensures Done(View(), sp) == Finish(Send(old(View()), h, currentSp), h, currentSp)
      ensures lockCalls == old(lockCalls) + L.OUTER
    {
      hide NamedCap, Switch, SetTcb, Rendezvous, Find, Reg, PutReg;
      sp := currentSp;
      var msgAddr, msgLen := Reg(mem, currentSp, REG_A1), Reg(mem, currentSp, REG_A2);
      TakeLock(L.Sched);
      var cap := ReadCap(h, currentSp);
      if cap.IpcCap? && cap.canSend {
        var found := FindWaiter(cap.endpointIdx, false);
        if found.Some? {
          var st := Entry(found.value).state;
          var len := Min(msgLen, st.maxLen);
          Meet(h, currentSp, cap.endpointIdx, found.value, msgAddr, st.bufAddr, len, len, 0, true);
        } else {
          PutState(Tid(h, SchedOf(h).currentPartitionIdx), BlockedOnIpcSend(cap.endpointIdx, msgAddr, msgLen));
          sp := SwitchTask(h, currentSp, false);
        }
      } else {
        PutA0(currentSp, MINUS_ONE);
      }
      GiveLock(L.Sched);
    }

    method RecvIpc(h: nat, currentSp: int) returns (sp: int)
      requires Apart() && h < 2 && Registered(Tid(h, SchedOf(h).currentPartitionIdx))
      modifies this, sched0, sched1
      ensures Done(View(), sp) == Finish(Recv(old(View()), h, currentSp), h, currentSp)
      ensures lockCalls == old(lockCalls) + L.OUTER
    {
      hide NamedCap, Switch, SetTcb, Rendezvous, Find, Reg, PutReg;
      sp := currentSp;
      var bufAddr, maxLen := Reg(mem, currentSp, REG_A1), Reg(mem, currentSp, REG_A2);
      TakeLock(L.Sched);
      var cap := ReadCap(h, currentSp);
      if cap.IpcCap? && cap.canRecv {
        var found := FindWaiter(cap.endpointIdx, true);
        if found.Some? {
          var st := Entry(found.value).state;
          var len := Min(st.msgLen, maxLen);
          Meet(h, currentSp, cap.endpointIdx, found.value, st.msgAddr, bufAddr, len, 0, len, false);
        } else {
          PutState(Tid(h, SchedOf(h).currentPartitionIdx), BlockedOnIpcRecv(cap.endpointIdx, bufAddr, maxLen));
          sp := SwitchTask(h, currentSp, false);
        }
      } else {
        PutA0(currentSp, MINUS_ONE);
      }
      GiveLock(L.Sched);
    }

    // ---- Syscall 8 and contained faults ----

    /** Mutex `m` was owned by a dead task: free it, then grant it to its best waiter. */
    method RecoverMutex(m: nat, dead: nat)
      requires Apart() && m < 8 && WaitersPresent(View())
      modifies `mutexes, sched0, sched1
      ensures View() == RecoverOne(old(View()), m, dead) && WaitersPresent(View())
    {
      hide Bits, HighestWaiter;
      ghost var k := View();
      if mutexes[m].Some? && mutexes[m].value.ownerTaskIdx == Some(dead) {
        var r := mutexes[m].value;
        assert AllPresent(k, Bits(r.waitersBitmap));
        PutMutex(m, r.(locked := false, ownerTaskIdx := None));
        SameTableScan(k, View(), Bits(r.waitersBitmap), 32);
        var best := FindHighestWaiter(r.waitersBitmap);
        if best.Some? {
          PassOwnership(m, best.value);
          assert View().mutexes == RecoverOne(k, m, dead).mutexes;
        }
      }
      RecoverPresent(k, m, dead);
    }

    method RecoverMutexes(dead: nat)
      requires Apart() && WaitersPresent(View())
      modifies `mutexes, sched0, sched1
      ensures View() == RecoverFrom(old(View()), 0, dead)
    {
      hide RecoverOne, WaitersPresent;
      for m := 0 to 8
        invariant WaitersPresent(View())
        invariant RecoverFrom(View(), m, dead) == RecoverFrom(old(View()), 0, dead)
      {
        RecoverMutex(m, dead);
      }
    }

    method Kill(t: Tid)
      requires Apart() && Registered(t) && WaitersPresent(View())
      modifies `mutexes, `lockCalls, sched0, sched1
      ensures View() == Killed(old(View()), t)
      ensures lockCalls == old(lockCalls) + [L.Take(L.Mutex), L.Give(L.Mutex)]
    {
      PutState(t, Terminated);
      TakeLock(L.Mutex);
      RecoverMutexes(t.slot);
      GiveLock(L.Mutex);
    }

    method TerminateTask(h: nat, currentSp: int) returns (sp: int)
      requires Apart() && h < 2 && SchedOf(h).currentPartitionIdx < 32 && WaitersPresent(View())
      requires !Terminate(View(), h, currentSp).Panic?
      requires Terminate(View(), h, currentSp).k.scheds[h].current < 32
      modifies this, sched0, sched1
      ensures Done(View(), sp) == Finish(Terminate(old(View()), h, currentSp), h, currentSp)
      ensures var found := Named(old(View()), Reg(old(mem), currentSp, REG_A0)).Some?;
        lockCalls == old(lockCalls) + if found then L.BOTH else L.OUTER
    {
      hide Killed, Switch, WaitersPresent, Reg, PutReg;
      sp := currentSp;
      TakeLock(L.Sched);
      var target, active := Reg(mem, currentSp, REG_A0), SchedOf(h).currentPartitionIdx;
      if target < 32 && (Registered(Tid(0, target)) || Registered(Tid(1, target))) {
        var t := Tid(if Registered(Tid(0, target)) then 0 else 1, target);
        Kill(t);
        PutA0(currentSp, 0);
        if t.hart != h {
          msip := msip + {t.hart};
        } else if target == active {
          sp := SwitchTask(h, currentSp, false);
        }
      } else {
        PutA0(currentSp, MINUS_ONE);
      }
      GiveLock(L.Sched);
    }

    method FaultTrap(h: nat, currentSp: int) returns (sp: int)
      requires Apart() && h < 2 && Registered(Tid(h, SchedOf(h).currentPartitionIdx)) && WaitersPresent(View())
      requires Fault(View(), h).k.scheds[h].current < 32
      modifies this, sched0, sched1
      ensures Done(View(), sp) == Finish(Fault(old(View()), h), h, currentSp)
      ensures lockCalls == old(lockCalls) + L.BOTH
    {
      hide Killed, Switch, WaitersPresent;
      TakeLock(L.Sched);
      Kill(Tid(h, SchedOf(h).currentPartitionIdx));
      sp := SwitchTask(h, currentSp, false);
      GiveLock(L.Sched);
    }

    // ---- trap_handler ----

    method SyscallTrap(h: nat, currentSp: int) returns (sp: int)
      requires Apart() && h < 2 && Registered(Tid(h, SchedOf(h).currentPartitionIdx)) && WaitersPresent(View())
      requires !Syscall(View(), h, currentSp).Panic?
      requires Syscall(View(), h, currentSp).k.scheds[h].current < 32
      modifies this, sched0, sched1
      ensures Done(View(), sp) == Finish(Syscall(old(View()), h, currentSp), h, currentSp)
      ensures var found := Named(old(View()), Reg(old(mem), currentSp, REG_A0)).Some?;
        lockCalls == old(lockCalls) + L.SyscallPath(Reg(old(mem), currentSp, REG_A7), found)
    {
      hide Sleep, Lock, Unlock, CheckIn, Send, Recv, Terminate, Finish, Switch, WaitersPresent, Reg, Named;
      var id := Reg(mem, currentSp, REG_A7);
      match id {
        case 1 => sp := YieldTask(h, currentSp);
        case 2 => sp := SleepTicks(h, currentSp);
        case 3 => sp := LockMutex(h, currentSp);
        case 4 => sp := UnlockMutex(h, currentSp);
        case 5 => sp := WatchdogCheckIn(h, currentSp);
        case 6 => sp := SendIpc(h, currentSp);
        case 7 => sp := RecvIpc(h, currentSp);
        case 8 => sp := TerminateTask(h, currentSp);
        case _ => sp := Ignore(h, currentSp);
      }
    }

    method YieldTask(h: nat, currentSp: int) returns (sp: int)
      requires Apart() && h < 2 && SchedOf(h).currentPartitionIdx < 32
      modifies `lockCalls, SchedOf(h)
      ensures Done(View(), sp) == Finish(Resched(old(View()), false), h, currentSp)
      ensures lockCalls == old(lockCalls) + L.OUTER
    {
      TakeLock(L.Sched);
      sp := SwitchTask(h, currentSp, false);
      GiveLock(L.Sched);
    }

    /** An unknown syscall number changes nothing. */
    method Ignore(h: nat, currentSp: int) returns (sp: int)
      requires h < 2 && SchedOf(h).currentPartitionIdx < 32
      ensures Done(View(), sp) == Finish(Return(View()), h, currentSp)
    {
      sp := currentSp;
    }

    /** The registers trap entry stores at `sp`, and the pc step of an ecall. */
    method StoreFrame(sp: int, frame: Frame, isCall: bool)
      modifies `mem
      ensures View() == Entered(old(View()), sp, if isCall then Advanced(frame) else frame)
    {
      ghost var was := mem;
      mem := PutFrame(mem, sp, frame);
      if isCall {
        PutRegsReg(was, sp, frame, 32, REG_MEPC);
        var mepc: int := Reg(mem, sp, REG_MEPC);
        mem := PutReg(mem, sp, REG_MEPC, Wrap(mepc + 4));
        PutRegsUpdate(was, sp, frame, REG_MEPC, Wrap(mepc + 4), 32);
      }
    }

    /** Every enabled trap takes the object from a valid state to a valid state, computes exactly one step
        of the machine, and makes exactly the lock calls of its path. */
    method HandleTrap(h: nat, mcause: Word, userSp: int, frame: Frame) returns (sp: int)
      requires Valid() && Enabled(View(), Trap(h, mcause, userSp, frame))
      modifies this, sched0, sched1
      ensures Valid()
      ensures Done(View(), sp) == Step(old(View()), Trap(h, mcause, userSp, frame))
      ensures var found := Named(old(View()), frame[REG_A0]).Some?;
        lockCalls == old(lockCalls) + L.TrapPath(mcause, frame[REG_A7], found)
    {
      hide Inv, Syscall, Fault, Ticked, Switch, MidInv, PutFrame, WaitersPresent, CallOk;
      ghost var k, e := View(), Trap(h, mcause, userSp, frame);
      assert Enabled(k, e);
      FinishSafe(k, e);
      StoreFrame(userSp, frame, mcause == ECALL_UMODE);
      assert View() == Stored(k, e);
      StoredWaiters(k, e);
      StoredRegs(k, e);
      if mcause == TIMER_INTERRUPT {
        sp := TimerTrap(h, userSp);
      } else if mcause == SOFTWARE_INTERRUPT {
        msip := msip - {h};
        TakeLock(L.Sched);
        sp := SwitchTask(h, userSp, false);
        GiveLock(L.Sched);
      } else if mcause == ECALL_UMODE {
        sp := SyscallTrap(h, userSp);
      } else {
        sp := FaultTrap(h, userSp);
      }
    }

    /** The watchdog rebuilds a terminated task's stack and marks it Ready. */
    method RestartTask(t: Tid, entry: Word)
      requires Valid() && Enabled(View(), Restart(t, entry))
      modifies this, sched0, sched1
      ensures Valid() && View() == Next(old(View()), Restart(t, entry))
    {
      hide PutFrame, InitialFrame, InitialSp, MutexInv, IpcInv, StackInv, SchedsOk;
      RestartSafe(View(), t, entry);
      var stack := stacks[t];
      var sp;
      mem, sp := InitializeStack(mem, stack.base, stack.size, entry);
      PutEntry(t, Entry(t).(savedSp := sp, state := Ready));
      var ticks: seq<Word> := lastCheckinTick;
      ticks := ticks[t.slot := 0];
      assert |ticks| == 32;
      lastCheckinTick := ticks;
    }
  }
}
