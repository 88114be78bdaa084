/** What each trap computes (kernel/src/trap.rs), as a function of the kernel state. */
module KernelSteps {
  import opened Tasks
  import opened PartitionScheduler
  import opened KernelState

  /** A handled trap: the new state and the stack pointer to resume from. */
  datatype Outcome = Done(k: Kernel, sp: int)

  /** What a trap does before `switch_task`: panic the core, return to the interrupted task, or
      call the scheduler. */
  datatype Plan = Panic | Return(k: Kernel) | Resched(k: Kernel, isTick: bool)

  const TIMER_INTERRUPT: Word := 0x8000_0007
  const SOFTWARE_INTERRUPT: Word := 0x8000_0003
  const ECALL_UMODE: Word := 8

  predicate Contained(mcause: Word) { mcause in {1, 2, 4, 5, 6, 7} }

  // ---- switch_task ----

  function Switch(k: Kernel, h: nat, sp: int, isTick: bool): (r: Outcome)
    requires h < 2 && k.scheds[h].current < 32
  {
    var (s, sw) := Scheduled(k.scheds[h], isTick);
    match sw
    case None => Done(k.(scheds := k.scheds[h := s]), sp)
    case Some((prev, newSp)) =>
      Done(k.(scheds := k.scheds[h := s.(table := WithSp(s.table, prev, sp))]), newSp)
  }

  function WithSp(t: Table, i: nat, sp: int): (r: Table) {
    if i < 32 && t[i].Some? then t[i := Some(t[i].value.(savedSp := sp))] else t
  }

  // ---- Timer ----

  function Wake(e: Option<Tcb>, tick: Word): (r: Option<Tcb>) {
    if e.Some? && e.value.state.Blocked? && tick >= e.value.state.wakeTick
    then Some(e.value.(state := Ready)) else e
  }

  function WakeAll(t: Table, tick: Word): (r: Table) {
    seq(32, i requires 0 <= i < 32 => Wake(t[i], tick))
  }

  /** The tick counter advances and every sleeper of hart `h` that is due becomes Ready. */
  function Ticked(k: Kernel, h: nat): (r: Kernel)
    requires h < 2
  {
    var tick := Wrap(k.tick + 1);
    var s := k.scheds[h];
    k.(tick := tick, scheds := k.scheds[h := s.(table := WakeAll(s.table, tick))])
  }

  // ---- Syscalls 2 and 5 ----

  function Sleep(k: Kernel, h: nat, sp: int): (r: Plan)
    requires h < 2 && Occ(k, CurTid(k, h))
  {
    var wake := Wrap(k.tick + Reg(k.mem, sp, REG_A0));
    Resched(SetState(k, CurTid(k, h), Blocked(wake)), false)
  }

  function CheckIn(k: Kernel, h: nat): (r: Plan)
    requires h < 2 && k.scheds[h].current < 32
  {
    Return(k.(checkins := k.checkins[k.scheds[h].current := k.tick]))
  }

  // ---- Syscalls 3 and 4 ----

  /** The capability named by a0, or NoCap when the index is out of range. */
  function NamedCap(k: Kernel, h: nat, sp: int): (c: Capability)
    requires h < 2 && Occ(k, CurTid(k, h))
  {
    var i := Reg(k.mem, sp, REG_A0);
    if i < 8 then TcbOf(k, CurTid(k, h)).capabilities[i] else NoCap
  }

  /** The mutex the running task may lock (or unlock) through a0. */
  function LockTarget(k: Kernel, h: nat, sp: int): (m: Option<nat>)
    requires h < 2 && Occ(k, CurTid(k, h))
  {
    var c := NamedCap(k, h, sp);
    if c.MutexCap? && c.canLock then Some(c.mutexIdx) else None
  }

  function UnlockTarget(k: Kernel, h: nat, sp: int): (m: Option<nat>)
    requires h < 2 && Occ(k, CurTid(k, h))
  {
    var c := NamedCap(k, h, sp);
    if c.MutexCap? && c.canUnlock then Some(c.mutexIdx) else None
  }

  function Denied(k: Kernel, sp: int): (r: Plan) {
    Return(SetA0(k, sp, MINUS_ONE))
  }

  function Lock(k: Kernel, h: nat, sp: int): (r: Plan)
    requires h < 2 && Occ(k, CurTid(k, h))
  {
    var t := CurTid(k, h);
    match LockTarget(k, h, sp)
    case None => Denied(k, sp)
    case Some(m) =>
      if m >= 8 then Panic
      else match k.mutexes[m]
        case None => Denied(k, sp)
        case Some(mx) =>
          if !mx.locked then Return(SetA0(GrantFree(k, m, mx, t), sp, 0))
          else Resched(BlockOn(k, m, mx, t), false)
  }

  function GrantFree(k: Kernel, m: nat, mx: KMutex, t: Tid): (r: Kernel)
    requires m < 8
  {
    SetMutex(k, m, mx.(locked := true, owner := Some(t.slot)))
  }

  function BlockOn(k: Kernel, m: nat, mx: KMutex, t: Tid): (r: Kernel)
    requires m < 8 && Occ(k, t)
  {
    SetState(SetMutex(k, m, mx.(waiters := mx.waiters + {t.slot})), t, BlockedOnMutex(m))
  }

  function Priority(k: Kernel, slot: nat): (p: nat) {
    if Occ(k, Home(slot)) then TcbOf(k, Home(slot)).priority else 0
  }

  /** Best-priority waiter among slots 0..n-1, the first one on a tie. */
  function HighestWaiter(k: Kernel, ws: set<nat>, n: nat): (r: Option<nat>)
    ensures r.Some? ==> r.value in ws && r.value < n
  {
    if n == 0 then None
    else
      var best := HighestWaiter(k, ws, n - 1);
      if n - 1 in ws && (best.None? || Priority(k, n - 1) < Priority(k, best.value))
      then Some(n - 1) else best
  }

  /** Ownership passes to waiter `w`, which becomes Ready. */
  function HandOver(k: Kernel, m: nat, mx: KMutex, w: nat): (r: Kernel)
    requires m < 8
  {
    var k1 := SetMutex(k, m, KMutex(true, Some(w), mx.waiters - {w}));
    if Occ(k1, Home(w)) then SetState(k1, Home(w), Ready) else k1
  }

  function Release(k: Kernel, m: nat, mx: KMutex): (r: Kernel)
    requires m < 8
  {
    SetMutex(k, m, KMutex(false, None, mx.waiters))
  }

  /** State after unlock has chosen the next owner, before the reschedule. */
  function Unlocked(k: Kernel, h: nat, m: nat, mx: KMutex): (r: Option<Kernel>)
    requires m < 8
  {
    match HighestWaiter(k, mx.waiters, 32)
    case None => Some(Release(k, m, mx))
    case Some(w) =>
      if !Occ(k, Home(w)) then None
      else
        var k1 := SetA0(HandOver(k, m, mx, w), TcbOf(k, Home(w)).savedSp, 0);
        Some(if HartOf(w) != h then k1.(msip := k1.msip + {HartOf(w)}) else k1)
  }

  function Unlock(k: Kernel, h: nat, sp: int): (r: Plan)
    requires h < 2 && Occ(k, CurTid(k, h))
  {
    match UnlockTarget(k, h, sp)
    case None => Denied(k, sp)
    case Some(m) =>
      if m >= 8 then Panic
      else match k.mutexes[m]
        case None => Denied(k, sp)
        case Some(mx) =>
          if mx.owner != Some(CurTid(k, h).slot) then Panic
          else match Unlocked(k, h, m, mx)
            case None => Panic
            case Some(k1) => Resched(SetA0(k1, sp, 0), false)
  }

  // ---- Syscalls 6 and 7 ----

  predicate WaitsToSend(st: TaskState, ep: nat) { st.BlockedOnIpcSend? && st.endpointIdx == ep }
  predicate WaitsToRecv(st: TaskState, ep: nat) { st.BlockedOnIpcRecv? && st.endpointIdx == ep }

  predicate Waits(st: TaskState, ep: nat, sender: bool) {
    if sender then WaitsToSend(st, ep) else WaitsToRecv(st, ep)
  }

  /** First slot from `i` on whose task waits on the endpoint in the given role. */
  function FindIn(s: Sched, ep: nat, sender: bool, i: nat): (r: Option<nat>)
    requires i <= 32
    ensures r.Some? ==> i <= r.value < 32 && s.table[r.value].Some? && Waits(s.table[r.value].value.state, ep, sender)
    ensures r.Some? ==>
      forall j :: i <= j < r.value && s.table[j].Some? ==> !Waits(s.table[j].value.state, ep, sender)
    ensures r.None? ==> forall j :: i <= j < 32 && s.table[j].Some? ==> !Waits(s.table[j].value.state, ep, sender)
    decreases 32 - i
  {
    if i == 32 then None
    else if s.table[i].Some? && Waits(s.table[i].value.state, ep, sender) then Some(i)
    else FindIn(s, ep, sender, i + 1)
  }

  /** Hart 0 is searched before hart 1. */
  function Find(k: Kernel, ep: nat, sender: bool): (r: Option<Tid>)
    ensures r.Some? ==> Occ(k, r.value) && Waits(St(k, r.value), ep, sender)
  {
    var r0 := FindIn(k.scheds[0], ep, sender, 0);
    var r1 := FindIn(k.scheds[1], ep, sender, 0);
    if r0.Some? then Some(Tid(0, r0.value))
    else if r1.Some? then Some(Tid(1, r1.value))
    else None
  }

  lemma {:induction false} FindComplete(k: Kernel, ep: nat, sender: bool)
    requires Find(k, ep, sender).None?
    ensures forall t :: Occ(k, t) ==> !Waits(St(k, t), ep, sender)
  {
    forall t | Occ(k, t) ensures !Waits(St(k, t), ep, sender) {
      if t.hart == 0 {
        assert k.scheds[0].table[t.slot].Some?;
      } else {
        assert k.scheds[1].table[t.slot].Some?;
      }
    }
  }

  /** Hart 0 comes before hart 1, and lower slots before higher ones. */
  predicate NotAfter(t: Tid, u: Tid) { t.hart < u.hart || (t.hart == u.hart && t.slot <= u.slot) }

  predicate WaitsAt(k: Kernel, t: Tid, ep: nat, sender: bool) { Occ(k, t) && Waits(St(k, t), ep, sender) }

  /** The search finds `x` exactly when `x` is the first task that waits. */
  lemma {:induction false} FindFirst(k: Kernel, ep: nat, sender: bool, x: Tid)
    ensures Find(k, ep, sender) == Some(x) <==>
      WaitsAt(k, x, ep, sender) && forall t :: WaitsAt(k, t, ep, sender) ==> NotAfter(x, t)
  {
    if Find(k, ep, sender) == None {
      FindComplete(k, ep, sender);
    } else {
      var y := Find(k, ep, sender).value;
      forall t | WaitsAt(k, t, ep, sender) ensures NotAfter(y, t) {
        assert k.scheds[t.hart].table[t.slot].Some?;
      }
      assert WaitsAt(k, y, ep, sender);
    }
  }

  function Moved(m: Memory, shift: int, a: int): (v: Byte) { RdByte(m, a + shift) }

  /** copy_nonoverlapping: reads the source before any byte is written. */
  function Copy(m: Memory, src: int, dst: int, len: nat): (r: Memory)
    ensures forall a :: RdByte(r, a) == if InRange(a, dst, len) then Moved(m, src - dst, a) else RdByte(m, a)
  {
    m + map a | dst <= a < dst + len && InRange(a, dst, len) :: Moved(m, src - dst, a)
  }

  function Min(a: Word, b: Word): (m: Word) { if a <= b then a else b }

  /** Moves a message between a caller and the task found waiting, and completes both sides. */
  function Rendezvous(k: Kernel, h: nat, sp: int, ep: nat, peer: Tid, src: Word, dst: Word, len: Word,
                      peerResult: Word, callerResult: Word, callerSends: bool): (r: Kernel)
    requires h < 2 && Occ(k, peer)
  {
    var me := CurTid(k, h);
    var x := if callerSends then Transfer(me, peer, ep, len) else Transfer(peer, me, ep, len);
    var k1 := SetState(k, peer, Ready);
    k1.(mem := PutReg(PutReg(Copy(k.mem, src, dst, len), TcbOf(k, peer).savedSp, REG_A0, peerResult),
                      sp, REG_A0, callerResult),
        transfers := k.transfers + [x],
        msip := if peer.hart != h then k.msip + {peer.hart} else k.msip)
  }

  function SendTarget(k: Kernel, h: nat, sp: int): (e: Option<nat>)
    requires h < 2 && Occ(k, CurTid(k, h))
  {
    var c := NamedCap(k, h, sp);
    if c.IpcCap? && c.canSend then Some(c.endpointIdx) else None
  }

  function RecvTarget(k: Kernel, h: nat, sp: int): (e: Option<nat>)
    requires h < 2 && Occ(k, CurTid(k, h))
  {
    var c := NamedCap(k, h, sp);
    if c.IpcCap? && c.canRecv then Some(c.endpointIdx) else None
  }

  function Send(k: Kernel, h: nat, sp: int): (r: Plan)
    requires h < 2 && Occ(k, CurTid(k, h))
  {
    var msgAddr, msgLen := Reg(k.mem, sp, REG_A1), Reg(k.mem, sp, REG_A2);
    match SendTarget(k, h, sp)
    case None => Denied(k, sp)
    case Some(ep) =>
      match Find(k, ep, false)
      case Some(rx) =>
        var st := St(k, rx);
        var len := Min(msgLen, st.maxLen);
        Return(Rendezvous(k, h, sp, ep, rx, msgAddr, st.bufAddr, len, len, 0, true))
      case None =>
        Resched(SetState(k, CurTid(k, h), BlockedOnIpcSend(ep, msgAddr, msgLen)), false)
  }

  function Recv(k: Kernel, h: nat, sp: int): (r: Plan)
    requires h < 2 && Occ(k, CurTid(k, h))
  {
    var bufAddr, maxLen := Reg(k.mem, sp, REG_A1), Reg(k.mem, sp, REG_A2);
    match RecvTarget(k, h, sp)
    case None => Denied(k, sp)
    case Some(ep) =>
      match Find(k, ep, true)
      case Some(tx) =>
        var st := St(k, tx);
        var len := Min(st.msgLen, maxLen);
        Return(Rendezvous(k, h, sp, ep, tx, st.msgAddr, bufAddr, len, 0, len, false))
      case None =>
        Resched(SetState(k, CurTid(k, h), BlockedOnIpcRecv(ep, bufAddr, maxLen)), false)
  }

  // ---- What a call is about to do ----

  /** A message about to be copied. */
  datatype Message = Message(src: Word, dst: Word, len: Word)

  /** The copy this syscall makes, if it meets a waiting partner. */
  function MessageOf(k: Kernel, h: nat, sp: int): (m: Option<Message>)
    requires h < 2 && Occ(k, CurTid(k, h))
  {
    var id, a1, a2 := Reg(k.mem, sp, REG_A7), Reg(k.mem, sp, REG_A1), Reg(k.mem, sp, REG_A2);
    if id == 6 && SendTarget(k, h, sp).Some? && Find(k, SendTarget(k, h, sp).value, false).Some? then
      var st := St(k, Find(k, SendTarget(k, h, sp).value, false).value);
      Some(Message(a1, st.bufAddr, Min(a2, st.maxLen)))
    else if id == 7 && RecvTarget(k, h, sp).Some? && Find(k, RecvTarget(k, h, sp).value, true).Some? then
      var st := St(k, Find(k, RecvTarget(k, h, sp).value, true).value);
      Some(Message(st.msgAddr, a1, Min(st.msgLen, a2)))
    else None
  }

  /** The mutex syscall 3 finds, whether free or locked. */
  predicate LockFinds(k: Kernel, h: nat, sp: int, locked: bool)
    requires h < 2 && Occ(k, CurTid(k, h))
  {
    var m := LockTarget(k, h, sp);
    m.Some? && m.value < 8 && k.mutexes[m.value].Some? && k.mutexes[m.value].value.locked == locked
  }

  /** The call takes a free mutex. */
  predicate WouldGrant(k: Kernel, h: nat, sp: int)
    requires h < 2 && Occ(k, CurTid(k, h))
  {
    Reg(k.mem, sp, REG_A7) == 3 && LockFinds(k, h, sp, false)
  }

  /** The call puts its caller to sleep or on a wait. */
  predicate WouldBlock(k: Kernel, h: nat, sp: int)
    requires h < 2 && Occ(k, CurTid(k, h))
  {
    var id := Reg(k.mem, sp, REG_A7);
    || id == 2
    || (id == 3 && LockFinds(k, h, sp, true))
    || (id == 6 && SendTarget(k, h, sp).Some? && Find(k, SendTarget(k, h, sp).value, false).None?)
    || (id == 7 && RecvTarget(k, h, sp).Some? && Find(k, RecvTarget(k, h, sp).value, true).None?)
  }

  // ---- Syscall 8 and fault containment ----

  /** Frees mutex `m` if slot `dead` owns it, waking its best waiter. */
  function RecoverOne(k: Kernel, m: nat, dead: nat): (r: Kernel)
    requires m < 8
  {
    match k.mutexes[m]
    case None => k
    case Some(mx) =>
      if mx.owner != Some(dead) then k
      else match HighestWaiter(k, mx.waiters, 32)
        case None => Release(k, m, mx)
        case Some(w) => HandOver(k, m, mx, w)
  }

  function RecoverFrom(k: Kernel, m: nat, dead: nat): (r: Kernel)
    requires m <= 8
    decreases 8 - m
  {
    if m == 8 then k else RecoverFrom(RecoverOne(k, m, dead), m + 1, dead)
  }

  /** The task syscall 8 names by slot: hart 0 is tried before hart 1. */
  function Named(k: Kernel, slot: nat): (t: Option<Tid>)
    ensures t.Some? ==> Occ(k, t.value) && t.value.slot == slot
  {
    if Occ(k, Tid(0, slot)) then Some(Tid(0, slot))
    else if Occ(k, Tid(1, slot)) then Some(Tid(1, slot))
    else None
  }

  function Killed(k: Kernel, t: Tid): (r: Kernel)
    requires Occ(k, t)
  {
    RecoverFrom(SetState(k, t, Terminated), 0, t.slot)
  }

  function Terminate(k: Kernel, h: nat, sp: int): (r: Plan)
    requires h < 2
  {
    match Named(k, Reg(k.mem, sp, REG_A0))
    case None => Denied(k, sp)
    case Some(t) =>
      var k1 := SetA0(Killed(k, t), sp, 0);
      if t.hart != h then Return(k1.(msip := k1.msip + {t.hart}))
      else if t.slot == k.scheds[h].current then Resched(k1, false)
      else Return(k1)
  }

  function Fault(k: Kernel, h: nat): (r: Plan)
    requires h < 2 && Occ(k, CurTid(k, h))
  {
    Resched(Killed(k, CurTid(k, h)), false)
  }

  // ---- trap_handler ----

  function Entered(k: Kernel, sp: int, f: Frame): (r: Kernel) {
    k.(mem := PutFrame(k.mem, sp, f))
  }

  function Advanced(f: Frame): (r: Frame) {
    var pc: int := f[REG_MEPC];
    f[REG_MEPC := Wrap(pc + 4)]
  }

  function Syscall(k: Kernel, h: nat, sp: int): (r: Plan)
    requires h < 2 && Occ(k, CurTid(k, h))
  {
    var id := Reg(k.mem, sp, REG_A7);
    if id == 1 then Resched(k, false)
    else if id == 2 then Sleep(k, h, sp)
    else if id == 3 then Lock(k, h, sp)
    else if id == 4 then Unlock(k, h, sp)
    else if id == 5 then CheckIn(k, h)
    else if id == 6 then Send(k, h, sp)
    else if id == 7 then Recv(k, h, sp)
    else if id == 8 then Terminate(k, h, sp)
    else Return(k)
  }

  /** The handler up to its `switch_task` call. `f` holds the registers of the interrupted task;
      trap entry stores them at `sp`, and an ecall also advances the saved pc. */
  function Body(k: Kernel, h: nat, mcause: Word, sp: int, f: Frame): (r: Plan)
    requires h < 2 && Occ(k, CurTid(k, h))
  {
    if mcause == TIMER_INTERRUPT then Resched(Ticked(Entered(k, sp, f), h), true)
    else if mcause == SOFTWARE_INTERRUPT then
      Resched(Entered(k, sp, f).(msip := k.msip - {h}), false)
    else if mcause == ECALL_UMODE then Syscall(Entered(k, sp, Advanced(f)), h, sp)
    else if Contained(mcause) then Fault(Entered(k, sp, f), h)
    else Panic
  }

  function Finish(p: Plan, h: nat, sp: int): (r: Outcome)
    requires h < 2 && !p.Panic? && p.k.scheds[h].current < 32
  {
    if p.Return? then Done(p.k, sp) else Switch(p.k, h, sp, p.isTick)
  }

  /** The restart steps of the watchdog task. */
  function Restarted(k: Kernel, t: Tid, entry: Word): (r: Kernel)
    requires Occ(k, t) && t in k.stacks
  {
    var sp := InitialSp(k.stacks[t].base, k.stacks[t].size);
    SetTcb(k, t, TcbOf(k, t).(savedSp := sp, state := Ready))
      .(mem := PutFrame(k.mem, sp, InitialFrame(entry)), checkins := k.checkins[t.slot := 0])
  }

  function PutBytes(m: Memory, addr: int, data: seq<Byte>): (r: Memory)
    ensures forall a :: RdByte(r, a) == if InRange(a, addr, |data|) then data[a - addr] else RdByte(m, a)
  {
    m + map a | addr <= a < addr + |data| && InRange(a, addr, |data|) :: data[a - addr]
  }

  /** A running task stores to memory. */
  function Poked(k: Kernel, addr: int, data: seq<Byte>): (r: Kernel) {
    k.(mem := PutBytes(k.mem, addr, data))
  }
}
