/** The state every trap works on: two schedulers, the mutex table, saved frames, IPC memory,
    the tick counter (kernel/src/main.rs, kernel/src/trap.rs). */
module KernelState {
  import opened Tasks
  import opened PartitionScheduler

  /** A task is named by the hart it is registered on and its slot there. */
  datatype Tid = Tid(hart: nat, slot: nat)

  datatype KMutex = KMutex(locked: bool, owner: Option<nat>, waiters: set<nat>)

  /** A range of addresses. */
  datatype Stack = Stack(base: int, size: nat)

  datatype Transfer = Transfer(from: Tid, to: Tid, endpoint: nat, bytes: nat)

  type Scheds = s: seq<Sched> | |s| == 2
    witness seq(2, _ => Sched(seq(32, _ => None), 0, seq(32, _ => 100), 100))
  type Mutexes = m: seq<Option<KMutex>> | |m| == 8 witness seq(8, _ => None)
  type Checkins = c: seq<Word> | |c| == 32 witness seq(32, _ => 0)

  datatype Kernel = Kernel(
    scheds: Scheds, mutexes: Mutexes, tick: Word, checkins: Checkins,
    mem: Memory,                // stacks, with the saved frames, and message buffers
    msip: set<nat>,             // harts with a pending software interrupt
    transfers: seq<Transfer>,   // completed rendezvous, oldest first
    stacks: map<Tid, Stack>,    // where each task's stack was placed; never written
    statics: Stack)             // where the kernel's own tables are; never written

  // ---- Task table access ----

  predicate Occ(k: Kernel, t: Tid) {
    t.hart < 2 && t.slot < 32 && k.scheds[t.hart].table[t.slot].Some?
  }

  function TcbOf(k: Kernel, t: Tid): (b: Tcb)
    requires Occ(k, t)
  {
    k.scheds[t.hart].table[t.slot].value
  }

  function St(k: Kernel, t: Tid): (s: TaskState)
    requires Occ(k, t)
  {
    TcbOf(k, t).state
  }

  function SetTcb(k: Kernel, t: Tid, b: Tcb): (r: Kernel)
    requires Occ(k, t)
    ensures forall u :: Occ(r, u) <==> Occ(k, u)
    ensures forall u :: Occ(k, u) ==> TcbOf(r, u) == if u == t then b else TcbOf(k, u)
    ensures r == k.(scheds := r.scheds)
    ensures forall h :: 0 <= h < 2 ==>
      r.scheds[h] == k.scheds[h].(table := r.scheds[h].table) && (h != t.hart ==> r.scheds[h] == k.scheds[h])
  {
    var s := k.scheds[t.hart];
    k.(scheds := k.scheds[t.hart := s.(table := s.table[t.slot := Some(b)])])
  }

  function SetState(k: Kernel, t: Tid, st: TaskState): (r: Kernel)
    requires Occ(k, t)
    ensures forall u :: Occ(r, u) <==> Occ(k, u)
    ensures forall u :: Occ(k, u) ==>
      TcbOf(r, u) == if u == t then TcbOf(k, t).(state := st) else TcbOf(k, u)
  {
    SetTcb(k, t, TcbOf(k, t).(state := st))
  }

  function SetMutex(k: Kernel, m: nat, mx: KMutex): (r: Kernel)
    requires m < 8
  {
    k.(mutexes := k.mutexes[m := Some(mx)])
  }

  function SetA0(k: Kernel, sp: int, v: Word): (r: Kernel) {
    k.(mem := PutReg(k.mem, sp, REG_A0, v))
  }

  function CurTid(k: Kernel, h: nat): (t: Tid)
    requires h < 2
  {
    Tid(h, k.scheds[h].current)
  }

  /** The hart on which the mutex code looks a waiter up. */
  function HartOf(slot: nat): (h: nat) { if slot < 2 then 0 else 1 }

  function Home(slot: nat): (t: Tid) { Tid(HartOf(slot), slot) }

  // ---- Capabilities ----

  predicate Holds(k: Kernel, t: Tid, c: Capability)
    requires Occ(k, t)
  {
    exists i :: 0 <= i < 8 && TcbOf(k, t).capabilities[i] == c
  }

  predicate CanLock(k: Kernel, t: Tid, m: nat)
    requires Occ(k, t)
  {
    Holds(k, t, MutexCap(m, true, true)) || Holds(k, t, MutexCap(m, true, false))
  }

  predicate CanSend(k: Kernel, t: Tid, ep: nat)
    requires Occ(k, t)
  {
    Holds(k, t, IpcCap(ep, true, true)) || Holds(k, t, IpcCap(ep, true, false))
  }

  predicate CanRecv(k: Kernel, t: Tid, ep: nat)
    requires Occ(k, t)
  {
    Holds(k, t, IpcCap(ep, true, true)) || Holds(k, t, IpcCap(ep, false, true))
  }

  // ---- What no step changes ----

  /** Registration, capabilities, durations and memory placement are the same. */
  ghost predicate SameConfig(k: Kernel, k': Kernel) {
    && (forall t :: Occ(k, t) <==> Occ(k', t))
    && (forall t :: Occ(k, t) ==>
          TcbOf(k', t) == TcbOf(k, t).(state := St(k', t), savedSp := TcbOf(k', t).savedSp))
    && (forall h :: 0 <= h < 2 ==> k'.scheds[h].durations == k.scheds[h].durations)
    && (forall m :: 0 <= m < 8 ==> k.mutexes[m].Some? == k'.mutexes[m].Some?)
    && k'.stacks == k.stacks && k'.statics == k.statics
  }

  lemma {:induction false} RightsKept(k: Kernel, k': Kernel, t: Tid)
    requires SameConfig(k, k') && Occ(k, t)
    ensures forall m :: CanLock(k, t, m) <==> CanLock(k', t, m)
    ensures forall e :: CanSend(k, t, e) <==> CanSend(k', t, e)
    ensures forall e :: CanRecv(k, t, e) <==> CanRecv(k', t, e)
  {
    assert TcbOf(k', t).capabilities == TcbOf(k, t).capabilities;
  }
}
