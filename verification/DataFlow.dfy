/** Memory over all runs: which bytes an event changes, and that data crosses from one task to another
    only in the transfers the log records. */
module DataFlow {
  import opened Tasks
  import opened PartitionScheduler
  import opened KernelState
  import opened KernelSteps
  import opened KernelInvariant
  import opened KernelSafety
  import opened RecoverySafety
  import opened Machine
  import opened Timing
  import opened RendezvousTheorems
  import opened ContextIntegrity

  /** `msg` is what transfer `x` moves: from the buffer its sender named to the one its receiver named. The
      side that waited is the first that did. */
  ghost predicate Carries(k: Kernel, e: Event, x: Transfer, msg: Message)
    requires e.Trap? && e.hart < 2
  {
    && Occ(k, x.from) && Occ(k, x.to) && msg.len == x.bytes
    && var c, addr, n := CurTid(k, e.hart), e.frame[REG_A1], e.frame[REG_A2];
       || (&& x.from == c && WaitsToRecv(St(k, x.to), x.endpoint)
           && FirstWaiter(k, x.to, x.endpoint, false)
           && msg == Message(addr, St(k, x.to).bufAddr, Min(n, St(k, x.to).maxLen)))
       || (&& x.to == c && WaitsToSend(St(k, x.from), x.endpoint)
           && FirstWaiter(k, x.from, x.endpoint, true)
           && msg == Message(St(k, x.from).msgAddr, addr, Min(St(k, x.from).msgLen, n)))
  }

  ghost predicate FirstWaiter(k: Kernel, x: Tid, ep: nat, sender: bool) {
    forall t :: WaitsAt(k, t, ep, sender) ==> NotAfter(x, t)
  }

  lemma {:induction false} FoundFirst(k: Kernel, k1: Kernel, ep: nat, sender: bool)
    requires k1.scheds == k.scheds && Find(k1, ep, sender).Some?
    ensures FirstWaiter(k, Find(k1, ep, sender).value, ep, sender)
  {
    FindFirst(k1, ep, sender, Find(k1, ep, sender).value);
    forall t | WaitsAt(k, t, ep, sender) ensures WaitsAt(k1, t, ep, sender) {}
  }

  /** The copy an event makes and the transfer it logs go together. */
  ghost predicate Logs(k: Kernel, e: Event, k': Kernel)
    requires e.Trap? && e.hart < 2
  {
    match MessageIn(k, e)
    case None => k'.transfers == k.transfers
    case Some(msg) => k'.transfers != [] && Front(k'.transfers) == k.transfers && Carries(k, e, Back(k'.transfers), msg)
  }

  lemma {:induction false} IpcLogs(k: Kernel, e: Event)
    requires e.Trap? && e.hart < 2 && Occ(k, CurTid(k, e.hart)) && (IsCall(e, 6) || IsCall(e, 7))
    ensures !PlanOf(k, e).Panic? && Logs(k, e, PlanOf(k, e).k)
  {
    hide Body, PutFrame, Copy, PutReg, Find, FirstWaiter;
    var k1 := Stored(k, e);
    StoredRegs(k, e);
    IpcPlan(k, e);
    assert Stored(k, e).scheds == k.scheds;
    if MessageIn(k, e).Some? {
      if IsCall(e, 6) { FoundFirst(k, k1, SendTarget(k1, e.hart, e.sp).value, false); }
      else { FoundFirst(k, k1, RecvTarget(k1, e.hart, e.sp).value, true); }
      assert Front(PlanOf(k, e).k.transfers) == k.transfers;
    }
  }

  lemma {:induction false} StepLogs(k: Kernel, e: Event)
    requires Inv(k) && e.Trap? && Enabled(k, e)
    ensures Logs(k, e, Next(k, e))
  {
    hide Body, Inv, MidInv, CallOk, PutFrame, KeepsIpc, Carries;
    FinishSafe(k, e);
    FinishTransfers(PlanOf(k, e), e.hart, e.sp);
    if IsCall(e, 6) || IsCall(e, 7) {
      IpcLogs(k, e);
    } else {
      BodyKeepsIpc(k, e);
      StoredRegs(k, e);
      KeptLog(Stored(k, e), PlanOf(k, e).k);
    }
  }

  lemma {:induction false} KeptLog(k: Kernel, k1: Kernel)
    requires KeepsIpc(k, k1)
    ensures k1.transfers == k.transfers
  {}

  // ---- Byte by byte ----

  /** In the frame trap entry stores, or in the a0 of the task the call serves. */
  ghost predicate KernelWrites(k: Kernel, e: Event, a: int)
    requires e.Trap?
  {
    var s := ServedBy(k, e);
    InRange(a, e.sp, FRAME_BYTES) || (s.Some? && Occ(k, s.value.0) && InRange(a, TcbOf(k, s.value.0).savedSp + 24, 4))
  }

  /** The byte a copy puts at `a`, or the one that was there. */
  function Copied(m: Memory, msg: Option<Message>, a: int): (b: Byte) {
    if msg.Some? && InRange(a, msg.value.dst, msg.value.len) then RdByte(m, msg.value.src + (a - msg.value.dst))
    else RdByte(m, a)
  }

  lemma {:induction false} MemAfterByte(mem: Memory, msg: Option<Message>, peer: Option<(int, Word)>, sp: int,
                                        own: Option<Word>, a: int)
    requires !InRange(a, sp + 24, 4) && (peer.Some? ==> !InRange(a, peer.value.0 + 24, 4))
    ensures RdByte(MemAfter(mem, msg, peer, sp, own), a) == Copied(mem, msg, a)
  {
    var m1 := if msg.Some? then Copy(mem, msg.value.src, msg.value.dst, msg.value.len) else mem;
    assert RdByte(m1, a) == Copied(mem, msg, a);
    var m2 := if peer.Some? then PutReg(m1, peer.value.0, REG_A0, peer.value.1) else m1;
    assert RdByte(m2, a) == RdByte(m1, a);
  }

  lemma {:induction false} TrapBytes(k: Kernel, e: Event, a: int)
    requires Inv(k) && e.Trap? && Enabled(k, e) && !KernelWrites(k, e, a)
    ensures RdByte(Next(k, e).mem, a) == Copied(Stored(k, e).mem, MessageIn(k, e), a)
    ensures RdByte(Stored(k, e).mem, a) == RdByte(k.mem, a)
  {
    hide Body, Inv, MidInv, CallOk, ServedBy, MessageIn, OwnBy, MemAfter, PutFrame;
    var k1, s := Stored(k, e), ServedBy(k, e);
    BodyMem(k, e);
    FinishSafe(k, e);
    PutFrameByte(k.mem, e.sp, StoredFrame(e), a);
    MemAfterByte(k1.mem, MessageIn(k, e), PeerFrame(k1, s), e.sp, OwnBy(k, e), a);
  }

  /** In every run a trap changes a byte outside the frames it owns only by the one transfer it logs, from
      the buffer the sender named into the one the receiver named. */
  lemma {:induction false} TransfersCarryData(ks: seq<Kernel>, es: seq<Event>, n: nat, a: int)
    requires Run(ks, es) && n < |es| && es[n].Trap? && es[n].hart < 2 && !KernelWrites(ks[n], es[n], a)
    ensures Logs(ks[n], es[n], ks[n + 1])
    ensures RdByte(ks[n + 1].mem, a) == Copied(Stored(ks[n], es[n]).mem, MessageIn(ks[n], es[n]), a)
    ensures RdByte(ks[n + 1].mem, a) != RdByte(ks[n].mem, a) ==>
      && MessageIn(ks[n], es[n]).Some? && ks[n + 1].transfers != []
      && InRange(a, MessageIn(ks[n], es[n]).value.dst, MessageIn(ks[n], es[n]).value.len)
  {
    hide Inv, Enabled, Next, Carries, MessageIn, Stored, KernelWrites;
    RunStep(ks, es, n);
    StepLogs(ks[n], es[n]);
    TrapBytes(ks[n], es[n], a);
  }

  /** Whom each logged transfer meets and how much it moves: the first task waiting in the other role, hart 0
      before hart 1 and lower slots first; at most what the sender offered and at most what the receiver has
      room for, and all of one or the other. */
  lemma {:induction false} TransferLength(ks: seq<Kernel>, es: seq<Event>, n: nat)
    requires Run(ks, es) && n < |es| && es[n].Trap? && es[n].hart < 2 && ks[n + 1].transfers != ks[n].transfers
    ensures ks[n + 1].transfers != [] && Front(ks[n + 1].transfers) == ks[n].transfers
    ensures var x, mine := Back(ks[n + 1].transfers), es[n].frame[REG_A2];
      && Occ(ks[n], x.from) && Occ(ks[n], x.to)
      && (|| (x.from == CurTid(ks[n], es[n].hart) && WaitsToRecv(St(ks[n], x.to), x.endpoint)
              && FirstWaiter(ks[n], x.to, x.endpoint, false)
              && LeastOf(x.bytes, mine, St(ks[n], x.to).maxLen))
          || (x.to == CurTid(ks[n], es[n].hart) && WaitsToSend(St(ks[n], x.from), x.endpoint)
              && FirstWaiter(ks[n], x.from, x.endpoint, true)
              && LeastOf(x.bytes, mine, St(ks[n], x.from).msgLen)))
  {
    hide Inv, Enabled, Next, MessageIn;
    RunStep(ks, es, n);
    StepLogs(ks[n], es[n]);
  }

  /** `n` is the lesser of two lengths. */
  predicate LeastOf(n: nat, a: Word, b: Word) { n <= a && n <= b && (n == a || n == b) }

  /** The other events: a restart writes the fresh frame, and a running task what it stores itself. */
  lemma {:induction false} OtherBytes(ks: seq<Kernel>, es: seq<Event>, n: nat, a: int)
    requires Run(ks, es) && n < |es|
    ensures es[n].Restart? ==>
      && es[n].task in ks[n].stacks && ks[n + 1].transfers == ks[n].transfers
      && (var sp := InitialSp(ks[n].stacks[es[n].task].base, ks[n].stacks[es[n].task].size);
          !InRange(a, sp, FRAME_BYTES) ==> RdByte(ks[n + 1].mem, a) == RdByte(ks[n].mem, a))
    ensures es[n].Write? ==>
      && ks[n + 1] == ks[n].(mem := ks[n + 1].mem)
      && (!InRange(a, es[n].addr, |es[n].data|) ==> RdByte(ks[n + 1].mem, a) == RdByte(ks[n].mem, a))
  {
    hide Inv, Enabled, PutFrame, InitialFrame, InitialSp;
    assert StepAt(ks, es, n);
    if es[n].Restart? {
      var st := ks[n].stacks[es[n].task];
      PutFrameByte(ks[n].mem, InitialSp(st.base, st.size), InitialFrame(es[n].entry), a);
    }
  }

  // ---- Exactly when a store reaches a suspended frame ----

  /** Frames are equal exactly when all their bytes are. */
  lemma {:induction false} FrameBytes(m: Memory, m': Memory, s: int)
    ensures FrameAt(m', s) == FrameAt(m, s) <==>
      forall a :: InRange(a, s, FRAME_BYTES) ==> RdByte(m', a) == RdByte(m, a)
  {
    hide Rd, WordByte;
    if FrameAt(m', s) == FrameAt(m, s) {
      forall a | InRange(a, s, FRAME_BYTES) ensures RdByte(m', a) == RdByte(m, a) {
        var i, j := (a - s) / 4, (a - s) % 4;
        assert FrameAt(m', s)[i] == Reg(m', s, i) && FrameAt(m, s)[i] == Reg(m, s, i);
        WordByteRd(m, s + 4 * i);
        WordByteRd(m', s + 4 * i);
        assert WordByte(Rd(m', s + 4 * i), j) == RdByte(m', s + 4 * i + j);
        assert WordByte(Rd(m, s + 4 * i), j) == RdByte(m, s + 4 * i + j);
        assert s + 4 * i + j == a;
      }
    } else if forall a :: InRange(a, s, FRAME_BYTES) ==> RdByte(m', a) == RdByte(m, a) {
      SameFrame(m, m', s);
    }
  }

  /** What trap entry leaves at `a`: a byte of the interrupted registers in the 128 bytes from `sp`, wherever
      that is, and elsewhere the byte that was there. */
  function EntryByte(k: Kernel, e: Event, a: int): (b: Byte)
    requires e.Trap?
  {
    if InRange(a, e.sp, FRAME_BYTES) then WordByte(StoredFrame(e)[(a - e.sp) / 4], (a - e.sp) % 4)
    else RdByte(k.mem, a)
  }

  /** What the copy leaves there. */
  function CopyByte(k: Kernel, e: Event, a: int): (b: Byte)
    requires e.Trap?
  {
    match MessageIn(k, e)
    case Some(m) => EntryByte(k, e, if InRange(a, m.dst, m.len) then m.src + (a - m.dst) else a)
    case None => EntryByte(k, e, a)
  }

  /** `a` is in the a0 word of a frame at `s` that is given a result. */
  predicate InResult(a: int, s: int, v: Option<Word>) { v.Some? && InRange(a, s + 24, 4) }

  /** What the whole trap leaves there: the a0 results come last, the caller's after the served task's. */
  function ByteLeft(k: Kernel, e: Event, a: int): (b: Byte)
    requires e.Trap?
  {
    var own, served := OwnBy(k, e), ServedBy(k, e);
    if InResult(a, e.sp, own) then WordByte(own.value, a - (e.sp + 24))
    else if served.Some? && Occ(k, served.value.0) && InRange(a, TcbOf(k, served.value.0).savedSp + 24, 4) then
      WordByte(served.value.1, a - (TcbOf(k, served.value.0).savedSp + 24))
    else CopyByte(k, e, a)
  }

  lemma {:induction false} MemLeft(mem: Memory, msg: Option<Message>, peer: Option<(int, Word)>, sp: int,
                                   own: Option<Word>, a: int)
    ensures RdByte(MemAfter(mem, msg, peer, sp, own), a) ==
      if InResult(a, sp, own) then WordByte(own.value, a - (sp + 24))
      else if peer.Some? && InRange(a, peer.value.0 + 24, 4) then WordByte(peer.value.1, a - (peer.value.0 + 24))
      else Copied(mem, msg, a)
  {
    hide WordByte;
    var m1 := if msg.Some? then Copy(mem, msg.value.src, msg.value.dst, msg.value.len) else mem;
    assert RdByte(m1, a) == Copied(mem, msg, a);
    var m2 := if peer.Some? then PutReg(m1, peer.value.0, REG_A0, peer.value.1) else m1;
    assert RdByte(m2, a) ==
      if peer.Some? && InRange(a, peer.value.0 + 24, 4) then WordByte(peer.value.1, a - (peer.value.0 + 24))
      else RdByte(m1, a);
  }

  /** The memory a trap leaves, byte by byte, wherever its stack pointer was. */
  lemma {:induction false} TrapLeaves(k: Kernel, e: Event, a: int)
    requires Inv(k) && e.Trap? && Handled(k, e)
    ensures !PlanOf(k, e).Panic? && RdByte(PlanOf(k, e).k.mem, a) == ByteLeft(k, e, a)
  {
    hide Body, Inv, CallOk, ServedBy, MessageIn, OwnBy, MemAfter, PutFrame, WordByte;
    var k1, s, m := Stored(k, e), ServedBy(k, e), MessageIn(k, e);
    BodyMem(k, e);
    MemLeft(k1.mem, m, PeerFrame(k1, s), e.sp, OwnBy(k, e), a);
    PutFrameByte(k.mem, e.sp, StoredFrame(e), a);
    if m.Some? { PutFrameByte(k.mem, e.sp, StoredFrame(e), m.value.src + (a - m.value.dst)); }
  }

  /** The byte `t` expects at `a` of its frame: as it was, or of the result its call is given. */
  function ByteWanted(k: Kernel, e: Event, t: Tid, a: int): (b: Byte)
    requires Occ(k, t)
  {
    var s, v := TcbOf(k, t).savedSp, ResultFor(ServedBy(k, e), t);
    if InResult(a, s, v) then WordByte(v.value, a - (s + 24)) else RdByte(k.mem, a)
  }

  /** The entry store, the copy or a result puts a different byte in the frame of `t`. */
  ghost predicate Corrupts(k: Kernel, e: Event, t: Tid)
    requires e.Trap? && Occ(k, t)
  {
    exists a :: InRange(a, TcbOf(k, t).savedSp, FRAME_BYTES) && ByteLeft(k, e, a) != ByteWanted(k, e, t, a)
  }

  /** A trap at any stack pointer leaves a suspended task's frame as expected, with the result of its call,
      exactly when it puts no different byte there. */
  lemma {:induction false} TrapFrameExact(k: Kernel, e: Event, t: Tid)
    requires Inv(k) && e.Trap? && Handled(k, e) && Suspended(k, t)
    ensures !PlanOf(k, e).Panic?
    ensures var s := TcbOf(k, t).savedSp;
      FrameStep(FrameAt(k.mem, s), FrameAt(PlanOf(k, e).k.mem, s), ResultFor(ServedBy(k, e), t)) <==> !Corrupts(k, e, t)
  {
    hide Inv, CallOk, Body, ServedBy, FrameAt, ByteLeft, WordByte;
    var s, v := TcbOf(k, t).savedSp, ResultFor(ServedBy(k, e), t);
    var m := if v.Some? then PutReg(k.mem, s, REG_A0, v.value) else k.mem;
    TrapLeaves(k, e, s);
    if v.Some? { FramePutReg(k.mem, s, REG_A0, v.value); }
    FrameBytes(m, PlanOf(k, e).k.mem, s);
    forall a | InRange(a, s, FRAME_BYTES)
      ensures RdByte(PlanOf(k, e).k.mem, a) == ByteLeft(k, e, a) && RdByte(m, a) == ByteWanted(k, e, t, a)
    {
      TrapLeaves(k, e, a);
    }
  }

  /** In every run a trap leaves a suspended task's frame as expected, with the result of its call, exactly
      when neither the 128 bytes trap entry stores, at whatever stack pointer, nor the copy, nor another
      task's result puts a different byte there. */
  lemma {:induction false} FrameKeptExactly(ks: seq<Kernel>, es: seq<Event>, n: nat, t: Tid)
    requires Run(ks, es) && n < |es| && es[n].Trap? && Suspended(ks[n], t)
    ensures var s := TcbOf(ks[n], t).savedSp;
      FrameStep(FrameAt(ks[n].mem, s), FrameAt(ks[n + 1].mem, s), ResultFor(ServedBy(ks[n], es[n]), t)) <==>
      !Corrupts(ks[n], es[n], t)
  {
    hide Inv, Handled, StackOk, Body, FrameAt, FrameStep, ServedBy, Corrupts;
    RunStep(ks, es, n);
    FinishSafe(ks[n], es[n]);
    TrapFrameExact(ks[n], es[n], t);
  }

  /** The same for a store of a running task. */
  lemma {:induction false} WriteKeepsExactly(k: Kernel, addr: int, data: seq<Byte>, s: int)
    ensures FrameAt(Poked(k, addr, data).mem, s) == FrameAt(k.mem, s) <==>
      forall a :: InRange(a, s, FRAME_BYTES) && InRange(a, addr, |data|) ==> data[a - addr] == RdByte(k.mem, a)
  {
    hide FrameAt;
    var m' := Poked(k, addr, data).mem;
    FrameBytes(k.mem, m', s);
    assert forall a :: RdByte(m', a) == if InRange(a, addr, |data|) then data[a - addr] else RdByte(k.mem, a);
  }
}
