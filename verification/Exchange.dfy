/** What a rendezvous delivers, whoever came first, on any harts and whatever happened in between. */
module ExchangeTheorems {
  import opened Tasks
  import opened PartitionScheduler
  import opened KernelState
  import opened KernelSteps
  import opened KernelInvariant
  import opened KernelSafety
  import opened RecoverySafety
  import opened Machine
  import opened Timing
  import opened RendezvousTheorems
  import C = ContextIntegrity

  predicate WaitsOn(st: TaskState, ep: nat) { WaitsToSend(st, ep) || WaitsToRecv(st, ep) }

  ghost predicate NoWaiter(k: Kernel, ep: nat) {
    forall t :: Occ(k, t) ==> !WaitsOn(St(k, t), ep)
  }

  /** Nobody but `x` waits on `ep`. */
  ghost predicate OnlyWaiter(k: Kernel, ep: nat, x: Tid) {
    forall t :: Occ(k, t) && t != x ==> !WaitsOn(St(k, t), ep)
  }

  /** The event is a send or a receive on `ep`, with the right to it. */
  ghost predicate Touches(k: Kernel, e: Event, ep: nat) {
    && e.Trap? && e.hart < 2
    && (CallsEndpoint(k, e, CurTid(k, e.hart), ep, true) || CallsEndpoint(k, e, CurTid(k, e.hart), ep, false))
  }

  // ---- Waits on an endpoint start and end only at calls on it ----

  /** No wait on `ep` starts, and one that ends does so by termination. */
  ghost predicate Quiet(k: Kernel, k': Kernel, u: Tid, ep: nat)
    requires Occ(k, u)
  {
    && Occ(k', u)
    && (WaitsOn(St(k, u), ep) ==> St(k', u) == St(k, u) || St(k', u) == Terminated)
    && (WaitsOn(St(k', u), ep) ==> St(k', u) == St(k, u))
  }

  lemma {:induction false} SendQuiet(k: Kernel, h: nat, sp: int, u: Tid, ep: nat)
    requires h < 2 && Occ(k, CurTid(k, h)) && !IpcWait(St(k, CurTid(k, h)))
    requires Occ(k, u) && SendTarget(k, h, sp) != Some(ep)
    ensures !Send(k, h, sp).Panic? && Quiet(k, Send(k, h, sp).k, u, ep)
  {
    hide PutReg, Copy;
  }

  lemma {:induction false} RecvQuiet(k: Kernel, h: nat, sp: int, u: Tid, ep: nat)
    requires h < 2 && Occ(k, CurTid(k, h)) && !IpcWait(St(k, CurTid(k, h)))
    requires Occ(k, u) && RecvTarget(k, h, sp) != Some(ep)
    ensures !Recv(k, h, sp).Panic? && Quiet(k, Recv(k, h, sp).k, u, ep)
  {
    hide PutReg, Copy;
  }

  lemma {:induction false} FinishQuiet(k: Kernel, p: Plan, h: nat, sp: int, u: Tid, ep: nat)
    requires h < 2 && PlanOk(k, p, h) && Occ(k, u) && Quiet(k, p.k, u, ep)
    ensures Quiet(k, Finish(p, h, sp).k, u, ep)
  {
    hide MutexInv, IpcInv, StackInv, Cfg, Switch;
    if p.Resched? { SwitchCalm(p.k, h, sp, p.isTick); }
  }

  lemma {:induction false} IpcCallQuiet(k: Kernel, e: Event, u: Tid, ep: nat)
    requires Inv(k) && Enabled(k, e) && (IsCall(e, 6) || IsCall(e, 7)) && Occ(k, u) && !Touches(k, e, ep)
    ensures Quiet(k, Next(k, e), u, ep)
  {
    hide Body, Send, Recv, Inv, MidInv, CallOk, Quiet, PutFrame, CallsEndpoint;
    var k1 := Stored(k, e);
    CurrentNotWaiting(k, e.hart);
    BodySafe(k, e);
    IpcPlan(k, e);
    CallRights(k, e, CurTid(k, e.hart), ep);
    if IsCall(e, 6) { SendQuiet(k1, e.hart, e.sp, u, ep); } else { RecvQuiet(k1, e.hart, e.sp, u, ep); }
    FinishQuiet(k1, PlanOf(k, e), e.hart, e.sp, u, ep);
    QuietStored(k, k1, Next(k, e), u, ep);
  }

  lemma {:induction false} QuietStored(k: Kernel, k1: Kernel, k': Kernel, u: Tid, ep: nat)
    requires Occ(k, u) && k1.scheds == k.scheds && Occ(k1, u) && Quiet(k1, k', u, ep)
    ensures Quiet(k, k', u, ep)
  {}

  lemma {:induction false} StepQuiet(k: Kernel, e: Event, u: Tid, ep: nat)
    requires Inv(k) && Enabled(k, e) && Occ(k, u) && !Touches(k, e, ep)
    ensures Quiet(k, Next(k, e), u, ep)
  {
    hide Body, Finish, CallOk, MutexInv, IpcInv, StackInv, Cfg, SchedOk, PutFrame, PutBytes, CallsEndpoint;
    if IsCall(e, 6) || IsCall(e, 7) {
      IpcCallQuiet(k, e, u, ep);
    } else if e.Trap? {
      OtherTrapQuiet(k, e, u, ep);
    }
  }

  lemma {:induction false} OtherTrapQuiet(k: Kernel, e: Event, u: Tid, ep: nat)
    requires Inv(k) && e.Trap? && Enabled(k, e) && !IsCall(e, 6) && !IsCall(e, 7) && Occ(k, u)
    ensures Quiet(k, Next(k, e), u, ep)
  {
    hide Body, Inv, MidInv, CallOk, PutFrame, KeepsIpc;
    BodySafe(k, e);
    BodyKeepsIpc(k, e);
    FinishKeepsIpc(Stored(k, e), PlanOf(k, e), e.hart, e.sp, u);
  }

  lemma {:induction false} SavedSpKept(k: Kernel, e: Event, t: Tid)
    requires Inv(k) && Enabled(k, e) && Suspended(k, t)
    ensures Occ(Next(k, e), t) && TcbOf(Next(k, e), t).savedSp == TcbOf(k, t).savedSp
  {
    hide Body, CallOk, MutexInv, IpcInv, StackInv, PutFrame, PutBytes;
    if e.Trap? {
      BodySafe(k, e);
      C.PlanKeeps(Stored(k, e), PlanOf(k, e), e.hart, e.sp, t);
    }
  }

  // ---- The first caller waits ----

  function WaitOf(e: Event, ep: nat, sender: bool): (st: TaskState)
    requires e.Trap?
  {
    if sender then BlockedOnIpcSend(ep, e.frame[REG_A1], e.frame[REG_A2])
    else BlockedOnIpcRecv(ep, e.frame[REG_A1], e.frame[REG_A2])
  }

  lemma {:induction false} WaitsState(k: Kernel, h: nat, sp: int, st: TaskState, ep: nat)
    requires h < 2 && Occ(k, CurTid(k, h)) && WaitsOn(st, ep) && NoWaiter(k, ep)
    requires SchedMid(SetState(k, CurTid(k, h), st).scheds[h])
    ensures var k', t := Switch(SetState(k, CurTid(k, h), st), h, sp, false).k, CurTid(k, h);
      && Occ(k', t) && St(k', t) == st && TcbOf(k', t).savedSp == sp
      && k' == k.(scheds := k'.scheds) && k'.scheds[1 - h] == k.scheds[1 - h]
      && OnlyWaiter(k', ep, t)
  {
    var k2 := SetState(k, CurTid(k, h), st);
    var k' := Switch(k2, h, sp, false).k;
    SwitchEffect(k2, h, sp, false);
    SwitchCalm(k2, h, sp, false);
    forall t | Occ(k', t) && t != CurTid(k, h) ensures !WaitsOn(St(k', t), ep) {
      assert Occ(k2, t) && CalmState(St(k2, t), St(k', t));
    }
  }

  lemma {:induction false} FirstPlan(k: Kernel, e: Event, ep: nat, sender: bool)
    requires Inv(k) && Enabled(k, e) && e.Trap? && CallsEndpoint(k, e, CurTid(k, e.hart), ep, sender) && NoWaiter(k, ep)
    ensures PlanOf(k, e) == Resched(SetState(Stored(k, e), CurTid(k, e.hart), WaitOf(e, ep, sender)), false)
  {
    hide Inv, Body, CallOk, PutFrame;
    StoredRegs(k, e);
    IpcPlan(k, e);
    CallRights(k, e, CurTid(k, e.hart), ep);
    var k1 := Stored(k, e);
    assert forall t :: Occ(k1, t) ==> Occ(k, t) && St(k1, t) == St(k, t);
    assert Find(k1, ep, !sender) == None;
  }

  lemma {:induction false} FirstWaits(k: Kernel, e: Event, k': Kernel, ep: nat, sender: bool)
    requires Inv(k) && e.Trap? && Steps(k, e, k') && CallsEndpoint(k, e, CurTid(k, e.hart), ep, sender)
    requires NoWaiter(k, ep)
    ensures var t := CurTid(k, e.hart);
      && Occ(k', t) && St(k', t) == WaitOf(e, ep, sender) && TcbOf(k', t).savedSp == e.sp
      && k'.mem == Stored(k, e).mem && k'.transfers == k.transfers && k'.stacks == k.stacks && k'.statics == k.statics
      && k'.scheds[1 - e.hart] == k.scheds[1 - e.hart]
      && OnlyWaiter(k', ep, t)
  {
    hide Body, Inv, CallOk, MutexInv, IpcInv, StackInv, Cfg, Switch, SetState, PutFrame;
    var k1 := Stored(k, e);
    FirstPlan(k, e, ep, sender);
    BodySafe(k, e);
    StoredAlone(k, k1, ep);
    WaitsState(k1, e.hart, e.sp, WaitOf(e, ep, sender), ep);
  }

  lemma {:induction false} StoredAlone(k: Kernel, k1: Kernel, ep: nat)
    requires k1.scheds == k.scheds && NoWaiter(k, ep)
    ensures NoWaiter(k1, ep)
  {
    forall t | Occ(k1, t) ensures !WaitsOn(St(k1, t), ep) {
      assert Occ(k, t);
    }
  }

  // ---- It keeps waiting ----

  /** At event `i` a task calls on `ep` with nobody waiting there; nobody else calls on `ep` before event
      `j`, and the caller is not killed. */
  ghost predicate WaitsAlone(ks: seq<Kernel>, es: seq<Event>, i: nat, j: nat, ep: nat, sender: bool)
    requires |ks| == |es| + 1
  {
    && i < j <= |es| && es[i].Trap? && es[i].hart < 2
    && CallsEndpoint(ks[i], es[i], CurTid(ks[i], es[i].hart), ep, sender) && NoWaiter(ks[i], ep)
    && (forall x :: i < x < j ==> !Touches(ks[x], es[x], ep))
    && (forall x :: i < x <= j ==> !InState(ks[x], CurTid(ks[i], es[i].hart), Terminated))
  }

  ghost predicate Waiting(k: Kernel, e: Event, t: Tid, ep: nat, sender: bool)
    requires e.Trap?
  {
    && Occ(k, t) && St(k, t) == WaitOf(e, ep, sender) && TcbOf(k, t).savedSp == e.sp
    && OnlyWaiter(k, ep, t)
  }

  lemma {:induction false} StillWaiting(ks: seq<Kernel>, es: seq<Event>, i: nat, j: nat, ep: nat, sender: bool)
    requires Run(ks, es) && WaitsAlone(ks, es, i, j, ep, sender)
    ensures Waiting(ks[j], es[i], CurTid(ks[i], es[i].hart), ep, sender)
    decreases j
  {
    hide Inv, Enabled, Steps, CallsEndpoint, Touches;
    var t := CurTid(ks[i], es[i].hart);
    if j == i + 1 {
      RunStep(ks, es, i);
      assert StepAt(ks, es, i);
      FirstWaits(ks[i], es[i], ks[j], ep, sender);
    } else {
      StillWaiting(ks, es, i, j - 1, ep, sender);
      RunStep(ks, es, j - 1);
      WaitingStep(ks[j - 1], es[j - 1], ks[j], es[i], t, ep, sender);
    }
  }

  lemma {:induction false} WaitingStep(k: Kernel, e: Event, k': Kernel, e0: Event, t: Tid, ep: nat, sender: bool)
    requires Inv(k) && Enabled(k, e) && k' == Next(k, e) && !Touches(k, e, ep) && e0.Trap?
    requires Waiting(k, e0, t, ep, sender) && !InState(k', t, Terminated)
    ensures Waiting(k', e0, t, ep, sender)
  {
    hide Enabled, Next, Touches, MutexInv, IpcInv, StackInv, Cfg;
    C.WaiterSuspended(k, t);
    SavedSpKept(k, e, t);
    StepQuiet(k, e, t, ep);
    StepConfig(k, e);
    forall u | Occ(k', u) && u != t ensures !WaitsOn(St(k', u), ep) {
      StepQuiet(k, e, u, ep);
    }
  }

  // ---- The second caller meets it ----

  function Length(eS: Event, eR: Event): (n: Word)
    requires eS.Trap? && eR.Trap?
  {
    Min(eS.frame[REG_A2], eR.frame[REG_A2])
  }

  /** The memory after a meeting, from the two calls' registers and the memory before it: the first
      min(msg_len, max_len) bytes of the message in the receive buffer, 0 in the sender's a0, the length
      in the receiver's, and nothing else. */
  function Exchange(m: Memory, eS: Event, eR: Event): (r: Memory)
    requires eS.Trap? && eR.Trap?
  {
    PutReg(PutReg(Copy(m, eS.frame[REG_A1], eR.frame[REG_A1], Length(eS, eR)), eS.sp, REG_A0, 0),
           eR.sp, REG_A0, Length(eS, eR))
  }

  /** Byte by byte. */
  lemma {:induction false} ExchangeByte(m: Memory, eS: Event, eR: Event, a: int)
    requires eS.Trap? && eR.Trap?
    ensures RdByte(Exchange(m, eS, eR), a) ==
      if InRange(a, eR.sp + 24, 4) then WordByte(Length(eS, eR), a - (eR.sp + 24))
      else if InRange(a, eS.sp + 24, 4) then 0
      else if InRange(a, eR.frame[REG_A1], Length(eS, eR)) then RdByte(m, eS.frame[REG_A1] + (a - eR.frame[REG_A1]))
      else RdByte(m, a)
  {
    var len, msg: int, buf: int := Length(eS, eR), eS.frame[REG_A1], eR.frame[REG_A1];
    var m1 := Copy(m, msg, buf, len);
    var m2 := PutReg(m1, eS.sp, REG_A0, 0);
    assert RdByte(m1, a) == if InRange(a, buf, len) then Moved(m, msg - buf, a) else RdByte(m, a);
    assert RdByte(m2, a) == if InRange(a, eS.sp + 24, 4) then WordByte(0, a - (eS.sp + 24)) else RdByte(m1, a);
  }

  lemma {:induction false} ExchangeResults(m: Memory, eS: Event, eR: Event)
    requires eS.Trap? && eR.Trap? && C.Apart(eS.sp, eR.sp)
    ensures Reg(Exchange(m, eS, eR), eS.sp, REG_A0) == 0 && Reg(Exchange(m, eS, eR), eR.sp, REG_A0) == Length(eS, eR)
  {
    hide Copy;
    var len := Length(eS, eR);
    var m1 := Copy(m, eS.frame[REG_A1], eR.frame[REG_A1], len);
    var m2 := PutReg(m1, eS.sp, REG_A0, 0);
    RegPutReg(m1, eS.sp, REG_A0, 0, REG_A0);
    RegPutReg(m2, eR.sp, REG_A0, len, REG_A0);
    SameWord(m2, PutReg(m2, eR.sp, REG_A0, len), eS.sp + 24);
  }

  ghost predicate Met(k: Kernel, k': Kernel, m: Memory, eS: Event, eR: Event, tS: Tid, tR: Tid, ep: nat)
    requires eS.Trap? && eR.Trap?
  {
    && k'.mem == Exchange(m, eS, eR)
    && k'.transfers == k.transfers + [Transfer(tS, tR, ep, Length(eS, eR))]
  }

  lemma {:induction false} FoundIs(k: Kernel, ep: nat, sender: bool, x: Tid)
    requires Occ(k, x) && Waits(St(k, x), ep, sender) && OnlyWaiter(k, ep, x)
    ensures Find(k, ep, sender) == Some(x)
  {
    if Find(k, ep, sender) == None { FindComplete(k, ep, sender); }
  }

  lemma {:induction false} SendMeets(k: Kernel, e: Event, e0: Event, ep: nat, peer: Tid)
    requires IsCall(e, 6) && e0.Trap? && e.hart < 2 && Occ(k, CurTid(k, e.hart))
    requires CallsEndpoint(k, e, CurTid(k, e.hart), ep, true)
    requires Waiting(k, e0, peer, ep, false) && Find(Stored(k, e), ep, false) == Some(peer) && C.Apart(e.sp, e0.sp)
    ensures var p := Send(Stored(k, e), e.hart, e.sp);
      p.Return? && Met(k, p.k, Stored(k, e).mem, e, e0, CurTid(k, e.hart), peer, ep)
  {
    hide Copy, PutFrame, Find, WrWord;
    var k1 := Stored(k, e);
    StoredRegs(k, e);
    CallRights(k, e, CurTid(k, e.hart), ep);
    assert TcbOf(k1, peer) == TcbOf(k, peer);
    var len := Length(e, e0);
    WrCommutes(Copy(k1.mem, e.frame[REG_A1], e0.frame[REG_A1], len), e0.sp + 24, len, e.sp + 24, 0);
  }

  lemma {:induction false} RecvMeets(k: Kernel, e: Event, e0: Event, ep: nat, peer: Tid)
    requires IsCall(e, 7) && e0.Trap? && e.hart < 2 && Occ(k, CurTid(k, e.hart))
    requires CallsEndpoint(k, e, CurTid(k, e.hart), ep, false)
    requires Waiting(k, e0, peer, ep, true) && Find(Stored(k, e), ep, true) == Some(peer)
    ensures var p := Recv(Stored(k, e), e.hart, e.sp);
      p.Return? && Met(k, p.k, Stored(k, e).mem, e0, e, peer, CurTid(k, e.hart), ep)
  {
    hide Copy, PutFrame, Find, WrWord;
    var k1 := Stored(k, e);
    StoredRegs(k, e);
    CallRights(k, e, CurTid(k, e.hart), ep);
    assert TcbOf(k1, peer) == TcbOf(k, peer);
  }

  /** The second call finds the first caller and both complete. */
  lemma {:induction false} SecondMeets(k: Kernel, e: Event, k': Kernel, e0: Event, peer: Tid, ep: nat, sender: bool)
    requires Inv(k) && e.Trap? && e0.Trap? && Steps(k, e, k') && CallsEndpoint(k, e, CurTid(k, e.hart), ep, sender)
    requires Waiting(k, e0, peer, ep, !sender) && C.Apart(e.sp, e0.sp)
    ensures var t, m := CurTid(k, e.hart), Stored(k, e).mem;
      if sender then Met(k, k', m, e, e0, t, peer, ep) else Met(k, k', m, e0, e, peer, t, ep)
  {
    hide Body, CallOk, Send, Recv, Met, Find, PutFrame, MutexInv, IpcInv, Cfg;
    var k1 := Stored(k, e);
    StillAlone(k, k1, ep, peer);
    FoundIs(k1, ep, !sender, peer);
    IpcPlan(k, e);
    if sender { SendMeets(k, e, e0, ep, peer); } else { RecvMeets(k, e, e0, ep, peer); }
  }

  lemma {:induction false} StillAlone(k: Kernel, k1: Kernel, ep: nat, x: Tid)
    requires k1.scheds == k.scheds && OnlyWaiter(k, ep, x)
    ensures OnlyWaiter(k1, ep, x)
  {
    forall t | Occ(k1, t) && t != x ensures !WaitsOn(St(k1, t), ep) {
      assert Occ(k, t);
    }
  }

  /** One side calls at event `i` and waits, the other calls at event `j`, with its frame elsewhere; nobody
      else calls on the endpoint in between. The harts of the two may be the same. */
  ghost predicate Meeting(ks: seq<Kernel>, es: seq<Event>, i: nat, j: nat, ep: nat, senderFirst: bool)
    requires |ks| == |es| + 1
  {
    && j < |es| && WaitsAlone(ks, es, i, j, ep, senderFirst)
    && es[j].Trap? && es[j].hart < 2 && CallsEndpoint(ks[j], es[j], CurTid(ks[j], es[j].hart), ep, !senderFirst)
    && C.Apart(es[i].sp, es[j].sp)
  }

  /** In every run, in either order, on any harts: the meeting leaves memory as a function of the two calls'
      registers and the memory it found, and logs the one transfer. */
  lemma {:induction false} MeetingDelivers(ks: seq<Kernel>, es: seq<Event>, i: nat, j: nat, ep: nat, senderFirst: bool)
    requires Run(ks, es) && Meeting(ks, es, i, j, ep, senderFirst)
    ensures var s, r := if senderFirst then i else j, if senderFirst then j else i;
      Met(ks[j], ks[j + 1], Stored(ks[j], es[j]).mem, es[s], es[r],
          CurTid(ks[s], es[s].hart), CurTid(ks[r], es[r].hart), ep)
  {
    hide Inv, Steps, CallsEndpoint, Met, Waiting, NoWaiter;
    StillWaiting(ks, es, i, j, ep, senderFirst);
    RunInv(ks, es, j);
    assert StepAt(ks, es, j);
    SecondMeets(ks[j], es[j], ks[j + 1], es[i], CurTid(ks[i], es[i].hart), ep, !senderFirst);
  }

  /** How much a meeting moves, from the two calls' own length registers: no more than was sent, no more than
      fits, and all of one or the other. The log and the receiver's a0 say that number, that many bytes of the
      message are in the buffer, and no byte past the end of the buffer has changed. */
  lemma {:induction false} LengthExact(ks: seq<Kernel>, es: seq<Event>, i: nat, j: nat, ep: nat, senderFirst: bool,
                                       a: int)
    requires Run(ks, es) && Meeting(ks, es, i, j, ep, senderFirst)
    ensures |ks[j + 1].transfers| == |ks[j].transfers| + 1
    ensures var s, r := if senderFirst then i else j, if senderFirst then j else i;
      var n, sent, room := Back(ks[j + 1].transfers).bytes, es[s].frame[REG_A2], es[r].frame[REG_A2];
      var m, m', msg, buf: int := Stored(ks[j], es[j]).mem, ks[j + 1].mem, es[s].frame[REG_A1], es[r].frame[REG_A1];
      && n <= sent && n <= room && (n == sent || n == room)
      && Reg(m', es[r].sp, REG_A0) == n && Reg(m', es[s].sp, REG_A0) == 0
      && (!InRange(a, es[s].sp + 24, 4) && !InRange(a, es[r].sp + 24, 4) ==>
            && (buf <= a < buf + n ==> RdByte(m', a) == RdByte(m, msg + (a - buf)))
            && (a < buf || buf + n <= a ==> RdByte(m', a) == RdByte(m, a))
            && (buf + room <= a ==> RdByte(m', a) == RdByte(m, a)))
  {
    hide StepAt, Inv, Exchange, Stored, CallsEndpoint, Touches, NoWaiter;
    MeetingDelivers(ks, es, i, j, ep, senderFirst);
    var s, r := if senderFirst then i else j, if senderFirst then j else i;
    ExchangeResults(Stored(ks[j], es[j]).mem, es[s], es[r]);
    ExchangeByte(Stored(ks[j], es[j]).mem, es[s], es[r], a);
  }

  /** The two events are the same call: same registers, saved at the same place. */
  predicate SameCall(a: Event, b: Event) { a.Trap? && b.Trap? && a.frame == b.frame && a.sp == b.sp }

  /** Order independence. Two runs in which the same send and the same receive meet, in opposite orders:
      wherever the memories at the two meetings agree on the message, the receive buffers agree
      afterwards; both senders read 0 and both receivers the length; every other byte is what it was at
      its meeting. */
  lemma {:induction false} OrderIndependent(ks: seq<Kernel>, es: seq<Event>, i: nat, j: nat,
                         ks': seq<Kernel>, es': seq<Event>, i': nat, j': nat, ep: nat, a: int)
    requires Run(ks, es) && Meeting(ks, es, i, j, ep, true)
    requires Run(ks', es') && Meeting(ks', es', i', j', ep, false)
    requires SameCall(es[i], es'[j']) && SameCall(es[j], es'[i'])
    ensures var eS, eR, len := es[i], es[j], Length(es[i], es[j]);
      var m, m', r, r' := Stored(ks[j], es[j]).mem, Stored(ks'[j'], es'[j']).mem, ks[j + 1].mem, ks'[j' + 1].mem;
      var from := eS.frame[REG_A1] + (a - eR.frame[REG_A1]);
      && Reg(r, eS.sp, REG_A0) == Reg(r', eS.sp, REG_A0) == 0
      && Reg(r, eR.sp, REG_A0) == Reg(r', eR.sp, REG_A0) == len
      && (InRange(a, eR.frame[REG_A1], len) && RdByte(m, from) == RdByte(m', from) ==> RdByte(r, a) == RdByte(r', a))
      && (InRange(a, eR.frame[REG_A1], len) && !InRange(a, eS.sp + 24, 4) && !InRange(a, eR.sp + 24, 4) ==>
            RdByte(r, a) == RdByte(m, from))
      && (!InRange(a, eR.frame[REG_A1], len) && !InRange(a, eS.sp + 24, 4) && !InRange(a, eR.sp + 24, 4) ==>
            RdByte(r, a) == RdByte(m, a) && RdByte(r', a) == RdByte(m', a))
  {
    hide StepAt, Inv, Exchange, Stored, CallsEndpoint, Touches, NoWaiter;
    MeetingDelivers(ks, es, i, j, ep, true);
    MeetingDelivers(ks', es', i', j', ep, false);
    var m, m' := Stored(ks[j], es[j]).mem, Stored(ks'[j'], es'[j']).mem;
    SameExchange(m', es[i], es[j], es'[j'], es'[i']);
    ExchangeResults(m, es[i], es[j]);
    ExchangeResults(m', es[i], es[j]);
    ExchangeByte(m, es[i], es[j], a);
    ExchangeByte(m', es[i], es[j], a);
  }

  lemma {:induction false} SameExchange(m: Memory, eS: Event, eR: Event, fS: Event, fR: Event)
    requires SameCall(eS, fS) && SameCall(eR, fR)
    ensures Exchange(m, fS, fR) == Exchange(m, eS, eR)
  {}

  // ---- Both orders from one state ----

  /** A call that has to wait leaves its frame in its caller's own stack. */
  lemma {:induction false} WaiterInStack(k: Kernel, e: Event, ep: nat, sender: bool)
    requires Inv(k) && e.Trap? && Enabled(k, e) && NoWaiter(k, ep)
    requires CallsEndpoint(k, e, CurTid(k, e.hart), ep, sender)
    ensures CurTid(k, e.hart) in k.stacks && InStack(k, CurTid(k, e.hart), e.sp)
  {
    hide Inv, PutFrame, Find, CopyOk;
    var k1 := Stored(k, e);
    StoredRegs(k, e);
    CallRights(k, e, CurTid(k, e.hart), ep);
    StoredAlone(k, k1, ep);
    assert Find(k1, ep, !sender) == None;
    CurrentAlive(k, e.hart);
  }

  lemma {:induction false} WaitersApart(k: Kernel, e1: Event, e2: Event)
    requires Inv(k) && e1.Trap? && e2.Trap? && e1.hart < 2 && e2.hart < 2 && e1.hart != e2.hart
    requires var t, u := CurTid(k, e1.hart), CurTid(k, e2.hart);
      && Occ(k, t) && Occ(k, u) && t in k.stacks && u in k.stacks && InStack(k, t, e1.sp) && InStack(k, u, e2.sp)
    ensures C.Apart(e1.sp, e2.sp)
  {
    hide MutexInv, IpcInv, StackInv, SchedsOk;
    C.FramesApart(k, CurTid(k, e1.hart), CurTid(k, e2.hart), e1.sp, e2.sp);
  }

  lemma {:induction false} StillEnabled(k: Kernel, k': Kernel, e: Event, e0: Event, peer: Tid, ep: nat, sender: bool)
    requires e.Trap? && e0.Trap? && Enabled(k, e) && CallsEndpoint(k, e, CurTid(k, e.hart), ep, sender)
    requires NoWaiter(k, ep)
    requires k'.scheds[e.hart] == k.scheds[e.hart] && k'.stacks == k.stacks && k'.statics == k.statics
    requires Waiting(k', e0, peer, ep, !sender)
    requires CurTid(k, e.hart) in k.stacks && InStack(k, CurTid(k, e.hart), e.sp)
    requires var (eS, eR) := if sender then (e, e0) else (e0, e); ClearOfStatics(k, eR.frame[REG_A1], Length(eS, eR))
    ensures Enabled(k', e)
  {
    hide PutFrame, Find;
    var k1, k1', h, sp := Stored(k, e), Stored(k', e), e.hart, e.sp;
    StoredRegs(k, e);
    StoredRegs(k', e);
    CallRights(k, e, CurTid(k, h), ep);
    CallRights(k', e, CurTid(k', h), ep);
    StoredAlone(k, k1, ep);
    StillAlone(k', k1', ep, peer);
    assert TcbOf(k1', peer) == TcbOf(k', peer);
    FoundIs(k1', ep, !sender, peer);
  }

  lemma {:induction false} OneOrder(k: Kernel, e1: Event, e2: Event, ep: nat, sends: bool)
    returns (k1: Kernel, k2: Kernel)
    requires Inv(k) && e1.Trap? && e2.Trap? && Enabled(k, e1) && Enabled(k, e2) && e1.hart != e2.hart && NoWaiter(k, ep)
    requires CallsEndpoint(k, e1, CurTid(k, e1.hart), ep, sends) && CallsEndpoint(k, e2, CurTid(k, e2.hart), ep, !sends)
    requires var (eS, eR) := if sends then (e1, e2) else (e2, e1); ClearOfStatics(k, eR.frame[REG_A1], Length(eS, eR))
    ensures Run([k, k1, k2], [e1, e2]) && k1.mem == Stored(k, e1).mem
  {
    hide Inv, CallOk, Next, Steps, NoWaiter, OnlyWaiter, PutFrame;
    k1 := Next(k, e1);
    NeverStuck(k, e1);
    FirstWaits(k, e1, k1, ep, sends);
    assert e2.hart == 1 - e1.hart;
    WaiterInStack(k, e2, ep, !sends);
    StillEnabled(k, k1, e2, e1, CurTid(k, e1.hart), ep, !sends);
    k2 := Next(k1, e2);
    NeverStuck(k1, e2);
    var ks, es := [k, k1, k2], [e1, e2];
    assert StepAt(ks, es, 0) && StepAt(ks, es, 1);
  }

  lemma {:induction false} BackToBack(k: Kernel, e1: Event, e2: Event, ep: nat, sends: bool, k1: Kernel, k2: Kernel)
    requires Run([k, k1, k2], [e1, e2]) && e1.Trap? && e2.Trap? && e1.hart < 2 && e2.hart < 2
    requires e1.hart != e2.hart && NoWaiter(k, ep)
    requires CallsEndpoint(k, e1, CurTid(k, e1.hart), ep, sends) && CallsEndpoint(k, e2, CurTid(k, e2.hart), ep, !sends)
    requires C.Apart(e1.sp, e2.sp)
    ensures var (eS, eR) := if sends then (e1, e2) else (e2, e1);
      && k2.mem == Exchange(PutFrame(PutFrame(k.mem, e1.sp, StoredFrame(e1)), e2.sp, StoredFrame(e2)), eS, eR)
      && k2.transfers == k.transfers + [Transfer(CurTid(k, eS.hart), CurTid(k, eR.hart), ep, Length(eS, eR))]
  {
    hide Inv, Steps, PutFrame, Exchange, StoredFrame;
    var ks, es := [k, k1, k2], [e1, e2];
    assert StepAt(ks, es, 0) && StepAt(ks, es, 1);
    FirstWaits(k, e1, k1, ep, sends);
    RunInv(ks, es, 1);
    assert k1.scheds[e2.hart] == k.scheds[e2.hart];
    assert CallsEndpoint(k1, e2, CurTid(k1, e2.hart), ep, !sends);
    SecondMeets(k1, e2, k2, e1, CurTid(k, e1.hart), ep, !sends);
  }

  /** A send and a receive enabled on the two harts can happen in either order, with the same transfer
      and the same memory, byte for byte, afterwards. */
  lemma {:induction false} BothOrders(k: Kernel, eS: Event, eR: Event, ep: nat)
    returns (kS: Kernel, kSR: Kernel, kR: Kernel, kRS: Kernel)
    requires Inv(k) && eS.Trap? && eR.Trap? && Enabled(k, eS) && Enabled(k, eR) && eS.hart != eR.hart && NoWaiter(k, ep)
    requires CallsEndpoint(k, eS, CurTid(k, eS.hart), ep, true) && CallsEndpoint(k, eR, CurTid(k, eR.hart), ep, false)
    requires ClearOfStatics(k, eR.frame[REG_A1], Length(eS, eR))
    ensures Run([k, kS, kSR], [eS, eR]) && Run([k, kR, kRS], [eR, eS])
    ensures kSR.transfers == kRS.transfers && forall a :: RdByte(kSR.mem, a) == RdByte(kRS.mem, a)
  {
    hide Inv, CallOk, Run, NoWaiter, CallsEndpoint, Exchange, PutFrame, StoredFrame, ClearOfStatics;
    WaiterInStack(k, eS, ep, true);
    WaiterInStack(k, eR, ep, false);
    WaitersApart(k, eS, eR);
    kS, kSR := OneOrder(k, eS, eR, ep, true);
    kR, kRS := OneOrder(k, eR, eS, ep, false);
    BackToBack(k, eS, eR, ep, true, kS, kSR);
    BackToBack(k, eR, eS, ep, false, kR, kRS);
    forall a ensures RdByte(kSR.mem, a) == RdByte(kRS.mem, a) {
      OrdersAgree(k.mem, eS, eR, a);
    }
  }

  lemma {:induction false} OrdersAgree(m: Memory, eS: Event, eR: Event, a: int)
    requires eS.Trap? && eR.Trap? && C.Apart(eS.sp, eR.sp)
    ensures RdByte(Exchange(PutFrame(PutFrame(m, eS.sp, StoredFrame(eS)), eR.sp, StoredFrame(eR)), eS, eR), a) ==
            RdByte(Exchange(PutFrame(PutFrame(m, eR.sp, StoredFrame(eR)), eS.sp, StoredFrame(eS)), eS, eR), a)
  {
    hide Exchange, PutFrame, StoredFrame;
    var m1 := PutFrame(PutFrame(m, eS.sp, StoredFrame(eS)), eR.sp, StoredFrame(eR));
    var m2 := PutFrame(PutFrame(m, eR.sp, StoredFrame(eR)), eS.sp, StoredFrame(eS));
    var from := eS.frame[REG_A1] + (a - eR.frame[REG_A1]);
    FramesCommute(m, eS.sp, StoredFrame(eS), eR.sp, StoredFrame(eR), a);
    FramesCommute(m, eS.sp, StoredFrame(eS), eR.sp, StoredFrame(eR), from);
    ExchangeByte(m1, eS, eR, a);
    ExchangeByte(m2, eS, eR, a);
  }

  lemma {:induction false} FramesCommute(m: Memory, p: int, f: Frame, q: int, g: Frame, a: int)
    requires C.Apart(p, q)
    ensures RdByte(PutFrame(PutFrame(m, p, f), q, g), a) == RdByte(PutFrame(PutFrame(m, q, g), p, f), a)
  {
    hide PutFrame;
    PutFrameByte(m, p, f, a);
    PutFrameByte(PutFrame(m, p, f), q, g, a);
    PutFrameByte(m, q, g, a);
    PutFrameByte(PutFrame(m, q, g), p, f, a);
  }
}
