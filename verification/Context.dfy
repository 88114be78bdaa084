/** Context integrity: a suspended task resumes from exactly the frame it was suspended with, except
    for the a0 result of the call it was blocked in. */
module ContextIntegrity {
  import opened Tasks
  import opened PartitionScheduler
  import opened KernelState
  import opened KernelSteps
  import opened KernelInvariant
  import opened KernelSafety
  import opened RecoverySafety
  import opened Machine
  import opened Timing

  // ---- The three things a syscall can do to memory ----

  /** The blocked task whose call this syscall completes, and the value it will find in a0. */
  function Served(k: Kernel, h: nat, sp: int): (r: Option<(Tid, Word)>)
    requires h < 2 && Occ(k, CurTid(k, h))
  {
    var id := Reg(k.mem, sp, REG_A7);
    if id == 4 then ServedByUnlock(k, h, sp)
    else if id == 6 && SendTarget(k, h, sp).Some? then
      match Find(k, SendTarget(k, h, sp).value, false)
      case Some(rx) => Some((rx, Min(Reg(k.mem, sp, REG_A2), St(k, rx).maxLen)))
      case None => None
    else if id == 7 && RecvTarget(k, h, sp).Some? then
      match Find(k, RecvTarget(k, h, sp).value, true)
      case Some(tx) => Some((tx, 0))
      case None => None
    else None
  }

  function ServedByUnlock(k: Kernel, h: nat, sp: int): (r: Option<(Tid, Word)>)
    requires h < 2 && Occ(k, CurTid(k, h))
  {
    match UnlockTarget(k, h, sp)
    case None => None
    case Some(m) =>
      if m < 8 && k.mutexes[m].Some? then
        match HighestWaiter(k, k.mutexes[m].value.waiters, 32)
        case None => None
        case Some(w) => Some((Home(w), 0))
      else None
  }

  predicate Finds(k: Kernel, m: Option<nat>) { m.Some? && m.value < 8 && k.mutexes[m.value].Some? }

  /** What the call puts in its caller's own a0, or None where it leaves a0 alone: syscalls 1, 2 and 5,
      unknown ones, and calls that wait. */
  function OwnResult(k: Kernel, h: nat, sp: int): (v: Option<Word>)
    requires h < 2 && Occ(k, CurTid(k, h))
  {
    var id := Reg(k.mem, sp, REG_A7);
    if WouldBlock(k, h, sp) then None
    else if id == 3 then Some(if Finds(k, LockTarget(k, h, sp)) then 0 else MINUS_ONE)
    else if id == 4 then Some(if Finds(k, UnlockTarget(k, h, sp)) then 0 else MINUS_ONE)
    else if id == 6 then Some(if SendTarget(k, h, sp).Some? then 0 else MINUS_ONE)
    else if id == 7 then Some(if RecvTarget(k, h, sp).Some? then Received(k, h, sp) else MINUS_ONE)
    else if id == 8 then Some(if Named(k, Reg(k.mem, sp, REG_A0)).Some? then 0 else MINUS_ONE)
    else None
  }

  /** The length a receive that meets a sender returns. */
  function Received(k: Kernel, h: nat, sp: int): (n: Word)
    requires h < 2 && Occ(k, CurTid(k, h))
  {
    var m := MessageOf(k, h, sp);
    if m.Some? then m.value.len else 0
  }

  /** The message is copied, then the served task's a0 is written, then the caller's. */
  function MemAfter(mem: Memory, msg: Option<Message>, peer: Option<(int, Word)>, sp: int, own: Option<Word>)
    : (r: Memory)
  {
    var m1 := if msg.Some? then Copy(mem, msg.value.src, msg.value.dst, msg.value.len) else mem;
    var m2 := if peer.Some? then PutReg(m1, peer.value.0, REG_A0, peer.value.1) else m1;
    if own.Some? then PutReg(m2, sp, REG_A0, own.value) else m2
  }

  /** Where the served task's frame is. */
  function PeerFrame(k: Kernel, served: Option<(Tid, Word)>): (r: Option<(int, Word)>)
    requires served.Some? ==> Occ(k, served.value.0)
  {
    if served.Some? then Some((TcbOf(k, served.value.0).savedSp, served.value.1)) else None
  }

  ghost predicate MemEffect(k: Kernel, k1: Kernel, h: nat, sp: int)
    requires h < 2 && Occ(k, CurTid(k, h))
  {
    var s := Served(k, h, sp);
    && (s.Some? ==> Occ(k, s.value.0) && WaitState(St(k, s.value.0)))
    && k1.mem == MemAfter(k.mem, MessageOf(k, h, sp), PeerFrame(k, s), sp, OwnResult(k, h, sp))
  }

  lemma {:induction false} LockMem(k: Kernel, h: nat, sp: int)
    requires h < 2 && Cfg(k) && Occ(k, CurTid(k, h)) && !Lock(k, h, sp).Panic? && Reg(k.mem, sp, REG_A7) == 3
    ensures MemEffect(k, Lock(k, h, sp).k, h, sp)
  {
    hide PutReg;
  }

  lemma {:induction false} UnlockMem(k: Kernel, h: nat, sp: int)
    requires h < 2 && MutexInv(k, None) && Occ(k, CurTid(k, h)) && !Unlock(k, h, sp).Panic?
    requires Reg(k.mem, sp, REG_A7) == 4
    ensures MemEffect(k, Unlock(k, h, sp).k, h, sp)
  {
    hide PutReg, HighestWaiter;
    if ServedByUnlock(k, h, sp).Some? {
      assert MutexOk(k, UnlockTarget(k, h, sp).value, None);
    }
  }

  lemma {:induction false} SendMem(k: Kernel, h: nat, sp: int)
    requires h < 2 && Occ(k, CurTid(k, h)) && Reg(k.mem, sp, REG_A7) == 6
    ensures MemEffect(k, Send(k, h, sp).k, h, sp)
  {
    hide PutReg, Copy;
  }

  lemma {:induction false} RecvMem(k: Kernel, h: nat, sp: int)
    requires h < 2 && Occ(k, CurTid(k, h)) && Reg(k.mem, sp, REG_A7) == 7
    ensures MemEffect(k, Recv(k, h, sp).k, h, sp)
  {
    hide PutReg, Copy;
  }

  lemma {:induction false} TerminateMem(k: Kernel, h: nat, sp: int)
    requires h < 2 && Occ(k, CurTid(k, h)) && Reg(k.mem, sp, REG_A7) == 8
    ensures MemEffect(k, Terminate(k, h, sp).k, h, sp)
  {
    hide PutReg, Killed;
    match Named(k, Reg(k.mem, sp, REG_A0))
    case None =>
    case Some(t) => KilledMem(k, t);
  }

  lemma {:induction false} KilledMem(k: Kernel, t: Tid)
    requires Occ(k, t)
    ensures Killed(k, t).mem == k.mem
  {
    RecoverMem(SetState(k, t, Terminated), 0, t.slot);
  }

  lemma {:induction false} RecoverMem(k: Kernel, m: nat, dead: nat)
    requires m <= 8
    ensures RecoverFrom(k, m, dead).mem == k.mem
    decreases 8 - m
  {
    if m < 8 { RecoverMem(RecoverOne(k, m, dead), m + 1, dead); }
  }

  /** Every syscall does exactly these three things to memory, in this order. */
  lemma {:induction false} SyscallMem(k: Kernel, h: nat, sp: int)
    requires h < 2 && Inv(k) && Occ(k, CurTid(k, h)) && !Syscall(k, h, sp).Panic?
    ensures MemEffect(k, Syscall(k, h, sp).k, h, sp)
  {
    hide MutexInv, IpcInv, StackInv, Lock, Unlock, Send, Recv, Terminate, PutReg, Copy;
    var id := Reg(k.mem, sp, REG_A7);
    if id == 3 { LockMem(k, h, sp); }
    else if id == 4 { UnlockMem(k, h, sp); }
    else if id == 6 { SendMem(k, h, sp); }
    else if id == 7 { RecvMem(k, h, sp); }
    else if id == 8 { TerminateMem(k, h, sp); }
  }

  // ---- The same for events ----

  predicate Calling(k: Kernel, e: Event) {
    && e.Trap? && e.mcause == ECALL_UMODE && e.hart < 2
    && Occ(k, CurTid(k, e.hart)) && Occ(Stored(k, e), CurTid(Stored(k, e), e.hart))
  }

  function ServedBy(k: Kernel, e: Event): (r: Option<(Tid, Word)>) {
    if Calling(k, e) then Served(Stored(k, e), e.hart, e.sp) else None
  }

  function MessageIn(k: Kernel, e: Event): (m: Option<Message>) {
    if Calling(k, e) then MessageOf(Stored(k, e), e.hart, e.sp) else None
  }

  function OwnBy(k: Kernel, e: Event): (v: Option<Word>) {
    if Calling(k, e) then OwnResult(Stored(k, e), e.hart, e.sp) else None
  }

  /** Every handler body: from the frame stored at trap entry, at most one copy, one result for a served
      task and one for the caller. */
  lemma {:induction false} BodyMem(k: Kernel, e: Event)
    requires Inv(k) && e.Trap? && Handled(k, e)
    ensures !PlanOf(k, e).Panic?
    ensures var s, k1 := ServedBy(k, e), Stored(k, e);
      && (s.Some? ==> Occ(k1, s.value.0) && WaitState(St(k1, s.value.0)))
      && PlanOf(k, e).k.mem == MemAfter(k1.mem, MessageIn(k, e), PeerFrame(k1, s), e.sp, OwnBy(k, e))
  {
    hide Inv, MidInv, Served, MessageOf, OwnResult, MemAfter, Syscall, CallOk, PutFrame, Killed;
    HandledSafe(k, e);
    SameTablesKeep(k, Stored(k, e));
    if e.mcause == ECALL_UMODE {
      SyscallMem(Stored(k, e), e.hart, e.sp);
    } else {
      NothingDone(Stored(k, e).mem, e.sp);
      if Contained(e.mcause) { KilledMem(Stored(k, e), CurTid(k, e.hart)); }
    }
  }

  lemma {:induction false} NothingDone(mem: Memory, sp: int)
    ensures MemAfter(mem, None, None, sp, None) == mem
  {}

  // ---- Frames of suspended tasks ----

  /** A frame is the same, or differs only in a0, which then holds `v`. */
  predicate FrameStep(f: Frame, g: Frame, v: Option<Word>) { g == if v.Some? then f[REG_A0 := v.value] else f }

  /** Two frames that share no address. */
  ghost predicate Apart(p: int, q: int) { p + FRAME_BYTES <= q || q + FRAME_BYTES <= p }

  predicate Avoids(start: int, len: nat, s: int) { start + len <= s || s + FRAME_BYTES <= start }

  predicate MessageAvoids(m: Option<Message>, s: int) { m.Some? ==> Avoids(m.value.dst, m.value.len, s) }

  /** The bytes an event stores, by trap entry at the interrupted stack pointer, by an IPC copy or in U-mode,
      do not meet the frame at `s`. */
  predicate Spares(k: Kernel, e: Event, s: int) {
    match e
    case Trap(_, _, sp, _) => Avoids(sp, FRAME_BYTES, s) && MessageAvoids(MessageIn(k, e), s)
    case Restart(_, _) => true
    case Write(_, addr, data) => Avoids(addr, |data|, s)
  }

  lemma {:induction false} FramesApart(k: Kernel, t: Tid, u: Tid, p: int, q: int)
    requires Cfg(k) && Occ(k, t) && Occ(k, u) && t != u && InStack(k, t, p) && InStack(k, u, q)
    ensures Apart(p, q)
  {
    assert Disjoint(k.stacks[t], k.stacks[u]);
  }

  lemma {:induction false} PutRegApart(mem: Memory, p: int, v: Word, s: int)
    requires Apart(p, s)
    ensures FrameAt(PutReg(mem, p, REG_A0, v), s) == FrameAt(mem, s)
  {
    SameFrame(mem, PutReg(mem, p, REG_A0, v), s);
  }

  lemma {:induction false} CopyApart(mem: Memory, m: Message, s: int)
    requires Avoids(m.dst, m.len, s)
    ensures FrameAt(Copy(mem, m.src, m.dst, m.len), s) == FrameAt(mem, s)
  {
    SameFrame(mem, Copy(mem, m.src, m.dst, m.len), s);
  }

  /** What a syscall's memory effect is to a frame its copy avoids: a0 is the last result written there. */
  lemma {:induction false} FrameAfter(mem: Memory, msg: Option<Message>, peer: Option<(int, Word)>, sp: int,
                                      own: Option<Word>, s: int)
    requires MessageAvoids(msg, s)
    requires peer.Some? ==> peer.value.0 == s || Apart(peer.value.0, s)
    requires sp == s || Apart(sp, s)
    ensures FrameStep(FrameAt(mem, s), FrameAt(MemAfter(mem, msg, peer, sp, own), s),
                      if own.Some? && sp == s then own
                      else if peer.Some? && peer.value.0 == s then Some(peer.value.1) else None)
  {
    hide PutReg, Copy, FrameAt;
    var m1 := if msg.Some? then Copy(mem, msg.value.src, msg.value.dst, msg.value.len) else mem;
    var m2 := if peer.Some? then PutReg(m1, peer.value.0, REG_A0, peer.value.1) else m1;
    if msg.Some? { CopyApart(mem, msg.value, s); }
    if peer.Some? {
      if peer.value.0 == s {
        FramePutReg(m1, s, REG_A0, peer.value.1);
      } else {
        PutRegApart(m1, peer.value.0, peer.value.1, s);
      }
    }
    if own.Some? {
      if sp == s { FramePutReg(m2, s, REG_A0, own.value); } else { PutRegApart(m2, sp, own.value, s); }
    }
  }

  lemma {:induction false} WaiterSuspended(k: Kernel, t: Tid)
    requires SchedsOk(k) && Occ(k, t) && WaitState(St(k, t))
    ensures Suspended(k, t)
  {
    assert SchedOk(k.scheds[t.hart]);
  }

  /** Storing the interrupted task's registers in its own stack leaves every suspended frame alone. */
  lemma {:induction false} StoredFrames(k: Kernel, e: Event, t: Tid)
    requires Inv(k) && e.Trap? && e.hart < 2 && Suspended(k, t)
    requires Occ(k, CurTid(k, e.hart)) && CurTid(k, e.hart) in k.stacks && InStack(k, CurTid(k, e.hart), e.sp)
    ensures Apart(e.sp, TcbOf(k, t).savedSp)
    ensures FrameAt(Stored(k, e).mem, TcbOf(k, t).savedSp) == FrameAt(k.mem, TcbOf(k, t).savedSp)
  {
    hide MutexInv, IpcInv, PutFrame;
    FramesApart(k, t, CurTid(k, e.hart), TcbOf(k, t).savedSp, e.sp);
    PutFrameApart(k.mem, e.sp, StoredFrame(e), TcbOf(k, t).savedSp);
  }

  lemma {:induction false} PutFrameApart(mem: Memory, p: int, f: Frame, s: int)
    requires Apart(p, s)
    ensures FrameAt(PutFrame(mem, p, f), s) == FrameAt(mem, s)
  {
    hide PutFrame;
    forall x | InRange(x, s, FRAME_BYTES) ensures RdByte(PutFrame(mem, p, f), x) == RdByte(mem, x) {
      PutFrameByte(mem, p, f, x);
    }
    SameFrame(mem, PutFrame(mem, p, f), s);
  }

  function ResultFor(served: Option<(Tid, Word)>, t: Tid): (v: Option<Word>) {
    if served.Some? && served.value.0 == t then Some(served.value.1) else None
  }

  lemma {:induction false} ServedFrame(k: Kernel, served: Option<(Tid, Word)>, t: Tid)
    requires Inv(k) && Suspended(k, t) && (served.Some? ==> Suspended(k, served.value.0))
    ensures served.Some? && served.value.0 != t ==> Apart(TcbOf(k, served.value.0).savedSp, TcbOf(k, t).savedSp)
    ensures served.Some? && served.value.0 == t ==> PeerFrame(k, served).value.0 == TcbOf(k, t).savedSp
  {
    hide MutexInv, IpcInv;
    if served.Some? && served.value.0 != t {
      FramesApart(k, served.value.0, t, TcbOf(k, served.value.0).savedSp, TcbOf(k, t).savedSp);
    }
  }

  lemma {:induction false} BodyFrames(k: Kernel, e: Event, t: Tid)
    requires Inv(k) && e.Trap? && Enabled(k, e) && Suspended(k, t) && Spares(k, e, TcbOf(k, t).savedSp)
    ensures !PlanOf(k, e).Panic?
    ensures FrameStep(FrameAt(k.mem, TcbOf(k, t).savedSp), FrameAt(PlanOf(k, e).k.mem, TcbOf(k, t).savedSp),
                      ResultFor(ServedBy(k, e), t))
  {
    hide Body, ServedBy, MessageIn, OwnBy, MemAfter, CallOk, FrameAt, Inv, PutFrame;
    var k1, served, s := Stored(k, e), ServedBy(k, e), TcbOf(k, t).savedSp;
    BodyMem(k, e);
    PutFrameApart(k.mem, e.sp, StoredFrame(e), s);
    SameTablesKeep(k, k1);
    InvScheds(k1);
    if served.Some? { WaiterSuspended(k1, served.value.0); }
    ServedFrame(k1, served, t);
    FrameAfter(k1.mem, MessageIn(k, e), PeerFrame(k1, served), e.sp, OwnBy(k, e), s);
  }

  lemma {:induction false} InvScheds(k: Kernel)
    requires Inv(k)
    ensures SchedsOk(k)
  {}

  /** What one event does to a suspended task's way back: its saved stack pointer is kept, its frame is
      unchanged up to the a0 result delivered to it, and if it is resumed the hart continues there. */
  ghost predicate Kept(k: Kernel, e: Event, o: Outcome, t: Tid)
    requires Occ(k, t)
  {
    && Occ(o.k, t) && TcbOf(o.k, t).savedSp == TcbOf(k, t).savedSp
    && FrameStep(FrameAt(k.mem, TcbOf(k, t).savedSp), FrameAt(o.k.mem, TcbOf(k, t).savedSp),
                 ResultFor(ServedBy(k, e), t))
    && (e.Trap? && e.hart == t.hart && o.k.scheds[t.hart].current == t.slot ==> o.sp == TcbOf(k, t).savedSp)
  }

  lemma {:induction false} PlanKeeps(k: Kernel, p: Plan, h: nat, sp: int, t: Tid)
    requires h < 2 && PlanOk(k, p, h) && Suspended(k, t)
    ensures var o := Finish(p, h, sp);
      && Occ(o.k, t) && TcbOf(o.k, t).savedSp == TcbOf(k, t).savedSp && o.k.mem == p.k.mem
      && (h == t.hart && o.k.scheds[h].current == t.slot ==> o.sp == TcbOf(k, t).savedSp)
  {
    hide MutexInv, IpcInv, StackInv, Cfg;
    if p.Resched? { SwitchEffect(p.k, h, sp, p.isTick); }
  }

  lemma {:induction false} TrapKeeps(k: Kernel, e: Event, t: Tid)
    requires Inv(k) && e.Trap? && Enabled(k, e) && Suspended(k, t) && Spares(k, e, TcbOf(k, t).savedSp)
    ensures Kept(k, e, Step(k, e), t)
  {
    hide Body, Inv, CallOk, ServedBy, Spares, FrameAt, FrameStep;
    BodySafe(k, e);
    BodyFrames(k, e, t);
    PlanKeeps(Stored(k, e), PlanOf(k, e), e.hart, e.sp, t);
  }

  lemma {:induction false} RestartKeeps(k: Kernel, u: Tid, entry: Word, t: Tid)
    requires Inv(k) && Occ(k, u) && St(k, u) == Terminated && Suspended(k, t)
    ensures var k' := Restarted(k, u, entry);
      && Occ(k', t) && TcbOf(k', t).savedSp == TcbOf(k, t).savedSp
      && FrameAt(k'.mem, TcbOf(k, t).savedSp) == FrameAt(k.mem, TcbOf(k, t).savedSp)
  {
    hide MutexInv, IpcInv, PutFrame, InitialFrame;
    var s, q := TcbOf(k, t).savedSp, InitialSp(k.stacks[u].base, k.stacks[u].size);
    FramesApart(k, t, u, s, q);
    PutFrameApart(k.mem, q, InitialFrame(entry), s);
  }

  lemma {:induction false} WriteKeeps(k: Kernel, addr: int, data: seq<Byte>, s: int)
    requires Avoids(addr, |data|, s)
    ensures FrameAt(Poked(k, addr, data).mem, s) == FrameAt(k.mem, s)
  {
    SameFrame(k.mem, Poked(k, addr, data).mem, s);
  }

  lemma {:induction false} StepKeeps(k: Kernel, e: Event, t: Tid)
    requires Inv(k) && Enabled(k, e) && Suspended(k, t) && Spares(k, e, TcbOf(k, t).savedSp)
    ensures Kept(k, e, Step(k, e), t)
  {
    hide FrameAt, Inv, CallOk, PutBytes, PutFrame;
    match e
    case Trap(h, mcause, sp, f) => TrapKeeps(k, e, t);
    case Restart(u, entry) => RestartKeeps(k, u, entry, t);
    case Write(h, addr, data) => WriteKeeps(k, addr, data, TcbOf(k, t).savedSp);
  }

  // ---- The interrupted task ----

  /** The registers of the interrupted task stay at `sp`: the pc past the ecall if it was one, and a0
      replaced exactly where its call returned at once. If it is switched out, that is where it will
      resume. */
  ghost predicate OwnKept(k: Kernel, e: Event, o: Outcome)
    requires e.Trap? && e.hart < 2
  {
    var c := CurTid(k, e.hart);
    && FrameStep(StoredFrame(e), FrameAt(o.k.mem, e.sp), OwnBy(k, e))
    && Occ(o.k, c)
    && (if CurTid(o.k, e.hart) == c then o.sp == e.sp else TcbOf(o.k, c).savedSp == e.sp)
  }

  /** The copy and the served task's result do not meet the caller's own frame. */
  ghost predicate OwnSpared(k: Kernel, e: Event)
    requires e.Trap?
  {
    var s := ServedBy(k, e);
    && MessageAvoids(MessageIn(k, e), e.sp)
    && (s.Some? && Occ(k, s.value.0) ==> Apart(TcbOf(k, s.value.0).savedSp, e.sp))
  }

  /** In its own stack the caller's frame is apart from every served task's. */
  lemma {:induction false} OwnStackSpared(k: Kernel, e: Event)
    requires Inv(k) && e.Trap? && Enabled(k, e) && MessageAvoids(MessageIn(k, e), e.sp)
    requires CurTid(k, e.hart) in k.stacks && InStack(k, CurTid(k, e.hart), e.sp)
    ensures OwnSpared(k, e)
  {
    hide Inv, ServedBy, MessageIn, CallOk, StackOk, MemAfter, PutFrame;
    var s := ServedBy(k, e);
    BodyMem(k, e);
    InvScheds(k);
    if s.Some? {
      WaiterSuspended(k, s.value.0);
      StoredFrames(k, e, s.value.0);
    }
  }

  lemma {:induction false} BodyOwn(k: Kernel, e: Event)
    requires Inv(k) && e.Trap? && Enabled(k, e) && OwnSpared(k, e)
    ensures !PlanOf(k, e).Panic?
    ensures FrameStep(StoredFrame(e), FrameAt(PlanOf(k, e).k.mem, e.sp), OwnBy(k, e))
  {
    hide Body, ServedBy, MessageIn, OwnBy, MemAfter, CallOk, FrameAt, Inv, PutFrame;
    var k1, served := Stored(k, e), ServedBy(k, e);
    BodyMem(k, e);
    StoredRegs(k, e);
    FrameAfter(k1.mem, MessageIn(k, e), PeerFrame(k1, served), e.sp, OwnBy(k, e), e.sp);
  }

  lemma {:induction false} PlanOwn(k: Kernel, p: Plan, h: nat, sp: int)
    requires h < 2 && PlanOk(k, p, h) && Occ(k, CurTid(k, h))
    ensures var o, c := Finish(p, h, sp), CurTid(k, h);
      && Occ(o.k, c) && o.k.mem == p.k.mem
      && (if CurTid(o.k, h) == c then o.sp == sp else TcbOf(o.k, c).savedSp == sp)
  {
    if p.Resched? { SwitchEffect(p.k, h, sp, p.isTick); }
  }

  lemma {:induction false} TrapKeepsOwn(k: Kernel, e: Event)
    requires Inv(k) && e.Trap? && Enabled(k, e) && OwnSpared(k, e)
    ensures OwnKept(k, e, Step(k, e))
  {
    hide Inv, CallOk, Body, FrameAt, FrameStep, OwnBy, OwnSpared;
    BodySafe(k, e);
    BodyOwn(k, e);
    PlanOwn(Stored(k, e), PlanOf(k, e), e.hart, e.sp);
  }

  // ---- Over runs ----

  /** The last result delivered to `t` by events i, ..., n-1. */
  ghost function Delivered(ks: seq<Kernel>, es: seq<Event>, t: Tid, i: nat, n: nat): (v: Option<Word>)
    requires |ks| == |es| + 1 && i <= n <= |es|
    decreases n - i
  {
    if n == i then None
    else
      var v := ResultFor(ServedBy(ks[n - 1], es[n - 1]), t);
      if v.Some? then v else Delivered(ks, es, t, i, n - 1)
  }

  /** `t` is suspended and no store meets its frame. */
  ghost predicate Undisturbed(k: Kernel, e: Event, t: Tid) {
    Suspended(k, t) && Spares(k, e, TcbOf(k, t).savedSp)
  }

  /** In every run, while a task stays suspended and no store meets its frame, the frame at the saved
      stack pointer stays exactly what it was, except that a0 carries the result some other task's call
      delivered to it. */
  lemma {:induction false} SuspendedFrameKept(ks: seq<Kernel>, es: seq<Event>, t: Tid, i: nat, n: nat)
    requires Run(ks, es) && i <= n <= |es| && Occ(ks[i], t)
    requires forall x :: i <= x < n ==> Undisturbed(ks[x], es[x], t)
    ensures Occ(ks[n], t) && TcbOf(ks[n], t).savedSp == TcbOf(ks[i], t).savedSp
    ensures FrameStep(FrameAt(ks[i].mem, TcbOf(ks[i], t).savedSp), FrameAt(ks[n].mem, TcbOf(ks[i], t).savedSp),
                      Delivered(ks, es, t, i, n))
    decreases n - i
  {
    hide Inv, Enabled, Step, FrameAt, ServedBy, Spares;
    if i < n {
      SuspendedFrameKept(ks, es, t, i, n - 1);
      RunStep(ks, es, n - 1);
      assert Undisturbed(ks[n - 1], es[n - 1], t);
      StepKeeps(ks[n - 1], es[n - 1], t);
    }
  }
}
