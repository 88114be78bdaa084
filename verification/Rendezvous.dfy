/** Synchronous IPC over all runs: conservation, pairing, exclusivity, authority. */
module RendezvousTheorems {
  import opened Tasks
  import opened PartitionScheduler
  import opened KernelState
  import opened KernelSteps
  import opened KernelInvariant
  import opened KernelSafety
  import opened IpcSafety
  import opened RecoverySafety
  import opened Machine
  import opened Timing

  function Front<T>(s: seq<T>): (r: seq<T>)
    requires s != []
    ensures |r| == |s| - 1
  {
    s[..|s| - 1]
  }

  function Back<T>(s: seq<T>): (r: T)
    requires s != []
  {
    s[|s| - 1]
  }

  // ---- What a task observes ----

  predicate Grant(c: Capability, ep: nat, sender: bool) {
    c.IpcCap? && c.endpointIdx == ep && (if sender then c.canSend else c.canRecv)
  }

  /** The interrupted task makes the send (or receive) call on endpoint `ep`, with the right to do so. */
  ghost predicate CallsEndpoint(k: Kernel, e: Event, t: Tid, ep: nat, sender: bool) {
    && IsCall(e, if sender then 6 else 7) && e.hart < 2 && t == CurTid(k, e.hart) && Occ(k, t) && e.frame[REG_A0] < 8
    && Grant(TcbOf(k, t).capabilities[e.frame[REG_A0]], ep, sender)
  }

  /** `t` completes a send (receive): it is released from waiting, or its call returns at once. */
  ghost predicate Completes(k: Kernel, e: Event, k': Kernel, t: Tid, ep: nat, sender: bool)
    requires Occ(k, t) && Occ(k', t)
  {
    || (Waits(St(k, t), ep, sender) && St(k', t) == Ready)
    || (CallsEndpoint(k, e, t, ep, sender) && CurTid(k', e.hart) == t)
  }

  predicate Is(x: Transfer, t: Tid, ep: nat, sender: bool) {
    x.endpoint == ep && (if sender then x.from == t else x.to == t)
  }

  /** The step logs at most one transfer, and completions are exactly its two ends. */
  ghost predicate Paired(k: Kernel, e: Event, k': Kernel, t: Tid, ep: nat, sender: bool)
    requires Occ(k, t) && Occ(k', t)
  {
    || (k'.transfers == k.transfers && !Completes(k, e, k', t, ep, sender))
    || (&& k'.transfers != [] && Front(k'.transfers) == k.transfers
        && (Completes(k, e, k', t, ep, sender) <==> Is(Back(k'.transfers), t, ep, sender)))
  }

  // ---- Steps that are not IPC calls neither start nor end an IPC wait ----

  predicate IpcWait(st: TaskState) { st.BlockedOnIpcSend? || st.BlockedOnIpcRecv? }

  ghost predicate KeepsIpc(k: Kernel, k1: Kernel) {
    && SameConfig(k, k1) && k1.transfers == k.transfers
    && (forall t :: Occ(k, t) && IpcWait(St(k, t)) ==> St(k1, t) == St(k, t) || St(k1, t) == Terminated)
    && (forall t :: Occ(k, t) && IpcWait(St(k1, t)) ==> St(k1, t) == St(k, t))
  }

  lemma {:induction false} QuietKeepsIpc(k: Kernel, k1: Kernel)
    requires SameTables(k, k1) && k1.transfers == k.transfers
    ensures KeepsIpc(k, k1)
  {}

  lemma {:induction false} OneKeepsIpc(k: Kernel, k1: Kernel, t: Tid, st: TaskState)
    requires Occ(k, t) && !IpcWait(St(k, t)) && !IpcWait(st) && k1.scheds == SetState(k, t, st).scheds
    requires k1.stacks == k.stacks && k1.statics == k.statics && k1.transfers == k.transfers
    requires forall m :: 0 <= m < 8 ==> k1.mutexes[m].Some? == k.mutexes[m].Some?
    ensures KeepsIpc(k, k1)
  {
    var k0 := SetState(k, t, st);
    SetStateConfig(k, t, st);
    assert forall u :: Occ(k1, u) <==> Occ(k0, u);
    assert forall u :: Occ(k0, u) ==> TcbOf(k1, u) == TcbOf(k0, u);
  }

  lemma {:induction false} MutexKeepsIpc(k: Kernel, k1: Kernel)
    requires k1.scheds == k.scheds && k1.stacks == k.stacks && k1.statics == k.statics && k1.transfers == k.transfers
    requires forall m :: 0 <= m < 8 ==> k1.mutexes[m].Some? == k.mutexes[m].Some?
    ensures KeepsIpc(k, k1)
  {
    assert forall u :: Occ(k1, u) <==> Occ(k, u);
    assert forall u :: Occ(k, u) ==> TcbOf(k1, u) == TcbOf(k, u);
  }

  lemma {:induction false} CurrentNotWaiting(k: Kernel, h: nat)
    requires h < 2 && Inv(k)
    ensures Occ(k, CurTid(k, h)) && !IpcWait(St(k, CurTid(k, h)))
  {
    assert SchedOk(k.scheds[h]);
  }

  lemma {:induction false} LockKeepsIpc(k: Kernel, h: nat, sp: int)
    requires h < 2 && Occ(k, CurTid(k, h)) && !IpcWait(St(k, CurTid(k, h))) && !Lock(k, h, sp).Panic?
    ensures KeepsIpc(k, Lock(k, h, sp).k)
  {
    if Lock(k, h, sp).Return? {
      MutexKeepsIpc(k, Lock(k, h, sp).k);
    } else {
      OneKeepsIpc(k, Lock(k, h, sp).k, CurTid(k, h), BlockedOnMutex(LockTarget(k, h, sp).value));
    }
  }

  lemma {:induction false} UnlockKeepsIpc(k: Kernel, h: nat, sp: int)
    requires h < 2 && MutexInv(k, None) && Occ(k, CurTid(k, h)) && !Unlock(k, h, sp).Panic?
    ensures KeepsIpc(k, Unlock(k, h, sp).k)
  {
    hide KeepsIpc, HighestWaiter, Reg, PutReg;
    var k1 := Unlock(k, h, sp).k;
    if Unlock(k, h, sp).Return? {
      QuietKeepsIpc(k, k1);
    } else {
      var m := UnlockTarget(k, h, sp).value;
      assert MutexOk(k, m, None);
      match HighestWaiter(k, k.mutexes[m].value.waiters, 32)
      case None => MutexKeepsIpc(k, k1);
      case Some(w) => OneKeepsIpc(k, k1, Home(w), Ready);
    }
  }

  lemma {:induction false} KilledKeepsIpc(k: Kernel, u: Tid)
    requires Cfg(k) && Consistent(k) && Occ(k, u) && !St(k, u).BlockedOnMutex?
    ensures KeepsIpc(k, Killed(k, u))
  {
    KilledStates(k, u);
  }

  lemma {:induction false} KeepsIpcTables(k: Kernel, k1: Kernel, k2: Kernel)
    requires KeepsIpc(k, k1) && SameTables(k1, k2) && k2.transfers == k1.transfers
    ensures KeepsIpc(k, k2)
  {
    assert forall u :: Occ(k2, u) <==> Occ(k1, u);
    assert forall u :: Occ(k1, u) ==> TcbOf(k2, u) == TcbOf(k1, u);
  }

  lemma {:induction false} TickedKeepsIpc(k: Kernel, h: nat)
    requires h < 2 && SchedOk(k.scheds[h])
    ensures KeepsIpc(k, Ticked(k, h))
  {
    TickedEffect(k, h);
  }

  lemma {:induction false} TerminateKeepsIpc(k: Kernel, h: nat, sp: int)
    requires h < 2 && Inv(k) && MayTerminate(k, Reg(k.mem, sp, REG_A0))
    ensures KeepsIpc(k, Terminate(k, h, sp).k)
  {
    hide Killed, KeepsIpc, MutexInv, IpcInv, StackInv, Cfg, SchedsOk, Reg, PutReg;
    match Named(k, Reg(k.mem, sp, REG_A0))
    case None => QuietKeepsIpc(k, Terminate(k, h, sp).k);
    case Some(u) =>
      KilledKeepsIpc(k, u);
      KeepsIpcTables(k, Killed(k, u), Terminate(k, h, sp).k);
  }

  lemma {:induction false} SyscallKeepsIpc(k: Kernel, h: nat, sp: int)
    requires h < 2 && Inv(k) && Occ(k, CurTid(k, h)) && SyscallOk(k, h, sp) && !Syscall(k, h, sp).Panic?
    requires Reg(k.mem, sp, REG_A7) != 6 && Reg(k.mem, sp, REG_A7) != 7
    ensures KeepsIpc(k, Syscall(k, h, sp).k)
  {
    hide Lock, Unlock, Terminate, MutexInv, IpcInv, StackInv, Cfg;
    CurrentNotWaiting(k, h);
    var id, k1 := Reg(k.mem, sp, REG_A7), Syscall(k, h, sp).k;
    if id == 2 { OneKeepsIpc(k, k1, CurTid(k, h), St(k1, CurTid(k, h))); }
    else if id == 3 { LockKeepsIpc(k, h, sp); }
    else if id == 4 { UnlockKeepsIpc(k, h, sp); }
    else if id == 8 { TerminateKeepsIpc(k, h, sp); }
    else { QuietKeepsIpc(k, k1); }
  }

  lemma {:induction false} BodyKeepsIpc(k: Kernel, e: Event)
    requires Inv(k) && e.Trap? && Enabled(k, e) && !IsCall(e, 6) && !IsCall(e, 7)
    ensures !PlanOf(k, e).Panic? && KeepsIpc(Stored(k, e), PlanOf(k, e).k)
  {
    hide Inv, MidInv, Steady, Syscall, KeepsIpc, PutFrame, Killed;
    var k1, h := Stored(k, e), e.hart;
    BodySafe(k, e);
    SameTablesKeep(k, k1);
    CurrentInRange(k1, h);
    if e.mcause == TIMER_INTERRUPT {
      TickedKeepsIpc(k1, h);
    } else if e.mcause == SOFTWARE_INTERRUPT {
      QuietKeepsIpc(k1, PlanOf(k, e).k);
    } else if e.mcause == ECALL_UMODE {
      StoredRegs(k, e);
      SyscallKeepsIpc(k1, h, e.sp);
    } else {
      FaultKeepsIpc(k1, h);
    }
  }

  lemma {:induction false} FaultKeepsIpc(k: Kernel, h: nat)
    requires h < 2 && Inv(k) && Occ(k, CurTid(k, h))
    ensures KeepsIpc(k, Killed(k, CurTid(k, h)))
  {
    hide KeepsIpc, Killed, MutexInv, IpcInv, Cfg, StackInv;
    assert SchedOk(k.scheds[h]);
    KilledKeepsIpc(k, CurTid(k, h));
  }

  lemma {:induction false} FinishKeepsIpc(k: Kernel, p: Plan, h: nat, sp: int, t: Tid)
    requires h < 2 && PlanOk(k, p, h) && KeepsIpc(k, p.k) && Occ(k, t)
    ensures var k' := Finish(p, h, sp).k;
      && Occ(k', t) && k'.transfers == k.transfers
      && (IpcWait(St(k, t)) ==> St(k', t) == St(k, t) || St(k', t) == Terminated)
      && (IpcWait(St(k', t)) ==> St(k', t) == St(k, t))
  {
    hide MutexInv, IpcInv, StackInv, Cfg, Switch;
    if p.Resched? {
      SwitchCalm(p.k, h, sp, p.isTick);
      SwitchTransfers(p.k, h, sp, p.isTick);
    }
  }

  lemma {:induction false} SwitchTransfers(k: Kernel, h: nat, sp: int, isTick: bool)
    requires h < 2 && SchedMid(k.scheds[h])
    ensures Switch(k, h, sp, isTick).k.transfers == k.transfers
  {}

  // ---- IPC calls ----

  lemma {:induction false} MeetPaired(k: Kernel, e: Event, k': Kernel, c: Tid, peer: Tid, ep: nat, sends: bool, n: nat,
                   t: Tid, ep': nat, sender: bool)
    requires CallsEndpoint(k, e, c, ep, sends) && !IpcWait(St(k, c)) && Occ(k, t)
    requires Occ(k, peer) && Waits(St(k, peer), ep, !sends)
    requires k'.scheds == SetState(k, peer, Ready).scheds
    requires k'.transfers == k.transfers + [if sends then Transfer(c, peer, ep, n) else Transfer(peer, c, ep, n)]
    ensures Occ(k', t) && Paired(k, e, k', t, ep', sender)
  {
    var k0 := SetState(k, peer, Ready);
    assert Occ(k0, t) && TcbOf(k', t) == TcbOf(k0, t);
    assert Front(k'.transfers) == k.transfers;
  }

  lemma {:induction false} NoMeetPaired(k: Kernel, e: Event, k': Kernel, t: Tid, ep: nat, sender: bool)
    requires Occ(k, t) && Occ(k', t) && k'.transfers == k.transfers
    requires IpcWait(St(k, t)) ==> St(k', t) == St(k, t) || St(k', t) == Terminated
    requires CallsEndpoint(k, e, t, ep, sender) ==> CurTid(k', e.hart) != t
    ensures Paired(k, e, k', t, ep, sender)
  {}

  lemma {:induction false} CallRights(k: Kernel, e: Event, t: Tid, ep: nat)
    requires e.Trap? && e.hart < 2 && Occ(k, CurTid(k, e.hart))
    ensures IsCall(e, 6) ==>
      (CallsEndpoint(k, e, t, ep, true) <==>
         t == CurTid(k, e.hart) && SendTarget(Stored(k, e), e.hart, e.sp) == Some(ep))
    ensures IsCall(e, 7) ==>
      (CallsEndpoint(k, e, t, ep, false) <==>
         t == CurTid(k, e.hart) && RecvTarget(Stored(k, e), e.hart, e.sp) == Some(ep))
  {
    StoredRegs(k, e);
    assert Stored(k, e).scheds == k.scheds;
  }

  /** Blocking on an endpoint switches the caller out and completes nothing. */
  lemma {:induction false} BlockedOut(k: Kernel, h: nat, sp: int, st: TaskState, t: Tid)
    requires h < 2 && Occ(k, CurTid(k, h)) && Occ(k, t) && !IpcWait(St(k, CurTid(k, h))) && IpcWait(st)
    requires SchedMid(SetState(k, CurTid(k, h), st).scheds[h])
    ensures var k' := Switch(SetState(k, CurTid(k, h), st), h, sp, false).k;
      && Occ(k', t) && k'.transfers == k.transfers && CurTid(k', h) != CurTid(k, h)
      && (IpcWait(St(k, t)) ==> St(k', t) == St(k, t))
  {
    SwitchEffect(SetState(k, CurTid(k, h), st), h, sp, false);
    SwitchCalm(SetState(k, CurTid(k, h), st), h, sp, false);
  }

  lemma {:induction false} BlockPaired(k: Kernel, e: Event, k1: Kernel, st: TaskState, t: Tid, ep: nat, sender: bool)
    requires e.Trap? && e.hart < 2 && Occ(k, CurTid(k, e.hart)) && Occ(k, t) && IpcWait(st)
    requires !IpcWait(St(k, CurTid(k, e.hart))) && SameTables(k, k1) && k1.transfers == k.transfers
    requires SchedMid(SetState(k1, CurTid(k1, e.hart), st).scheds[e.hart])
    ensures var k' := Switch(SetState(k1, CurTid(k1, e.hart), st), e.hart, e.sp, false).k;
      Occ(k', t) && Paired(k, e, k', t, ep, sender)
  {
    BlockedOut(k1, e.hart, e.sp, st, t);
    NoMeetPaired(k, e, Switch(SetState(k1, CurTid(k1, e.hart), st), e.hart, e.sp, false).k, t, ep, sender);
  }

  lemma {:induction false} SendPaired(k: Kernel, e: Event, k1: Kernel, t: Tid, ep: nat, sender: bool)
    requires IsCall(e, 6) && k1 == Stored(k, e) && e.hart < 2 && Occ(k, CurTid(k, e.hart)) && Occ(k, t)
    requires !IpcWait(St(k, CurTid(k, e.hart))) && PlanOk(k1, Send(k1, e.hart, e.sp), e.hart)
    ensures var k' := Finish(Send(k1, e.hart, e.sp), e.hart, e.sp).k; Occ(k', t) && Paired(k, e, k', t, ep, sender)
  {
    hide PutReg, Copy, PutFrame, MutexInv, IpcInv, StackInv, Cfg;
    var h, sp := e.hart, e.sp;
    match SendTarget(k1, h, sp)
    case None =>
      CallRights(k, e, t, ep);
      NoMeetPaired(k, e, Send(k1, h, sp).k, t, ep, sender);
    case Some(ep0) =>
      match Find(k1, ep0, false)
      case Some(rx) =>
        var k' := Send(k1, h, sp).k;
        CallRights(k, e, CurTid(k, h), ep0);
        MeetPaired(k, e, k', CurTid(k, h), rx, ep0, true, k'.transfers[|k.transfers|].bytes, t, ep, sender);
      case None =>
        BlockPaired(k, e, k1, BlockedOnIpcSend(ep0, Reg(k1.mem, sp, REG_A1), Reg(k1.mem, sp, REG_A2)), t, ep, sender);
  }

  lemma {:induction false} RecvPaired(k: Kernel, e: Event, k1: Kernel, t: Tid, ep: nat, sender: bool)
    requires IsCall(e, 7) && k1 == Stored(k, e) && e.hart < 2 && Occ(k, CurTid(k, e.hart)) && Occ(k, t)
    requires !IpcWait(St(k, CurTid(k, e.hart))) && PlanOk(k1, Recv(k1, e.hart, e.sp), e.hart)
    ensures var k' := Finish(Recv(k1, e.hart, e.sp), e.hart, e.sp).k; Occ(k', t) && Paired(k, e, k', t, ep, sender)
  {
    hide PutReg, Copy, PutFrame, MutexInv, IpcInv, StackInv, Cfg;
    var h, sp := e.hart, e.sp;
    match RecvTarget(k1, h, sp)
    case None =>
      CallRights(k, e, t, ep);
      NoMeetPaired(k, e, Recv(k1, h, sp).k, t, ep, sender);
    case Some(ep0) =>
      match Find(k1, ep0, true)
      case Some(tx) =>
        var k' := Recv(k1, h, sp).k;
        CallRights(k, e, CurTid(k, h), ep0);
        MeetPaired(k, e, k', CurTid(k, h), tx, ep0, false, k'.transfers[|k.transfers|].bytes, t, ep, sender);
      case None =>
        BlockPaired(k, e, k1, BlockedOnIpcRecv(ep0, Reg(k1.mem, sp, REG_A1), Reg(k1.mem, sp, REG_A2)), t, ep, sender);
  }

  lemma {:induction false} IpcPlan(k: Kernel, e: Event)
    requires e.Trap? && e.hart < 2 && Occ(k, CurTid(k, e.hart))
    ensures IsCall(e, 6) ==> PlanOf(k, e) == Send(Stored(k, e), e.hart, e.sp)
    ensures IsCall(e, 7) ==> PlanOf(k, e) == Recv(Stored(k, e), e.hart, e.sp)
  {
    StoredRegs(k, e);
  }

  lemma {:induction false} SendStepPaired(k: Kernel, e: Event, t: Tid, ep: nat, sender: bool)
    requires Inv(k) && Enabled(k, e) && IsCall(e, 6) && Occ(k, t)
    ensures Occ(Next(k, e), t) && Paired(k, e, Next(k, e), t, ep, sender)
  {
    hide Body, Send, Inv, MidInv;
    CurrentNotWaiting(k, e.hart);
    BodySafe(k, e);
    IpcPlan(k, e);
    SendPaired(k, e, Stored(k, e), t, ep, sender);
  }

  lemma {:induction false} RecvStepPaired(k: Kernel, e: Event, t: Tid, ep: nat, sender: bool)
    requires Inv(k) && Enabled(k, e) && IsCall(e, 7) && Occ(k, t)
    ensures Occ(Next(k, e), t) && Paired(k, e, Next(k, e), t, ep, sender)
  {
    hide Body, Recv, Inv, MidInv;
    CurrentNotWaiting(k, e.hart);
    BodySafe(k, e);
    IpcPlan(k, e);
    RecvPaired(k, e, Stored(k, e), t, ep, sender);
  }

  lemma {:induction false} OtherTrapPaired(k: Kernel, e: Event, t: Tid, ep: nat, sender: bool)
    requires Inv(k) && e.Trap? && Enabled(k, e) && !IsCall(e, 6) && !IsCall(e, 7) && Occ(k, t)
    ensures Occ(Next(k, e), t) && Paired(k, e, Next(k, e), t, ep, sender)
  {
    BodySafe(k, e);
    BodyKeepsIpc(k, e);
    FinishKeepsIpc(Stored(k, e), PlanOf(k, e), e.hart, e.sp, t);
    NoMeetPaired(k, e, Next(k, e), t, ep, sender);
  }

  /** Every step: completed sends, completed receives and logged transfers match one to one. */
  lemma {:induction false} StepPaired(k: Kernel, e: Event, t: Tid, ep: nat, sender: bool)
    requires Inv(k) && Enabled(k, e) && Occ(k, t)
    ensures Occ(Next(k, e), t) && Paired(k, e, Next(k, e), t, ep, sender)
  {
    if IsCall(e, 6) {
      SendStepPaired(k, e, t, ep, sender);
    } else if IsCall(e, 7) {
      RecvStepPaired(k, e, t, ep, sender);
    } else if e.Trap? {
      OtherTrapPaired(k, e, t, ep, sender);
    } else {
      NoMeetPaired(k, e, Next(k, e), t, ep, sender);
    }
  }

  // ---- Conservation over runs ----

  /** How many sends (receives) task `t` completed on `ep` during the first `n` events. */
  ghost function Completed(ks: seq<Kernel>, es: seq<Event>, t: Tid, ep: nat, sender: bool, n: nat): (c: nat)
    requires |ks| == |es| + 1 && n <= |es|
  {
    if n == 0 then 0
    else
      var now := Occ(ks[n - 1], t) && Occ(ks[n], t) && Completes(ks[n - 1], es[n - 1], ks[n], t, ep, sender);
      Completed(ks, es, t, ep, sender, n - 1) + if now then 1 else 0
  }

  function Logged(xs: seq<Transfer>, t: Tid, ep: nat, sender: bool): (n: nat)
    decreases |xs|
  {
    if xs == [] then 0
    else Logged(Front(xs), t, ep, sender) + if Is(Back(xs), t, ep, sender) then 1 else 0
  }

  /** In every run each task has completed exactly as many sends and receives on each endpoint as the
      transfer log gives it: nothing is lost, duplicated or completed by the wrong task. */
  lemma {:induction false} Conservation(ks: seq<Kernel>, es: seq<Event>, t: Tid, ep: nat, sender: bool, n: nat)
    requires Run(ks, es) && n <= |es| && Occ(ks[0], t)
    ensures Logged(ks[n].transfers, t, ep, sender) ==
      Logged(ks[0].transfers, t, ep, sender) + Completed(ks, es, t, ep, sender, n)
  {
    hide Inv, Enabled, Next, Completes, StepAt;
    if n > 0 {
      Conservation(ks, es, t, ep, sender, n - 1);
      RunConfig(ks, es, n - 1);
      RunStep(ks, es, n - 1);
      StepPaired(ks[n - 1], es[n - 1], t, ep, sender);
    }
  }

  /** In every reachable state no endpoint has both a waiting sender and a waiting receiver. */
  lemma {:induction false} RendezvousExclusive(ks: seq<Kernel>, es: seq<Event>, t: Tid, u: Tid, ep: nat, n: nat)
    requires Run(ks, es) && n <= |es| && Occ(ks[n], t) && Occ(ks[n], u)
    ensures !(WaitsToSend(St(ks[n], t), ep) && WaitsToRecv(St(ks[n], u), ep))
  {
    RunInv(ks, es, n);
    assert NoMeeting(ks[n], t, u);
  }

  // ---- Authority ----

  ghost predicate Authorised(k: Kernel, x: Transfer) {
    Occ(k, x.from) && Occ(k, x.to) && CanSend(k, x.from, x.endpoint) && CanRecv(k, x.to, x.endpoint)
  }

  lemma {:induction false} SendAuthorised(k: Kernel, h: nat, sp: int)
    requires h < 2 && IpcInv(k) && Occ(k, CurTid(k, h))
    ensures var k1 := Send(k, h, sp).k;
      || k1.transfers == k.transfers
      || (k1.transfers != [] && Front(k1.transfers) == k.transfers && Authorised(k, Back(k1.transfers)))
  {
    IpcTargetRight(k, h, sp);
    match SendTarget(k, h, sp)
    case None =>
    case Some(ep) =>
      match Find(k, ep, false)
      case Some(rx) => assert IpcOk(k, rx);
      case None =>
  }

  lemma {:induction false} RecvAuthorised(k: Kernel, h: nat, sp: int)
    requires h < 2 && IpcInv(k) && Occ(k, CurTid(k, h))
    ensures var k1 := Recv(k, h, sp).k;
      || k1.transfers == k.transfers
      || (k1.transfers != [] && Front(k1.transfers) == k.transfers && Authorised(k, Back(k1.transfers)))
  {
    IpcTargetRight(k, h, sp);
    match RecvTarget(k, h, sp)
    case None =>
    case Some(ep) =>
      match Find(k, ep, true)
      case Some(tx) => assert IpcOk(k, tx);
      case None =>
  }

  lemma {:induction false} FinishTransfers(p: Plan, h: nat, sp: int)
    requires h < 2 && !p.Panic? && p.k.scheds[h].current < 32
    ensures Finish(p, h, sp).k.transfers == p.k.transfers
  {}

  lemma {:induction false} AuthorisedKept(k: Kernel, k': Kernel, x: Transfer)
    requires SameConfig(k, k') && Authorised(k', x)
    ensures Authorised(k, x)
  {
    RightsKept(k, k', x.from);
    RightsKept(k, k', x.to);
  }

  ghost predicate AuthorisedStep(k: Kernel, k': Kernel) {
    || k'.transfers == k.transfers
    || (k'.transfers != [] && Front(k'.transfers) == k.transfers && Authorised(k, Back(k'.transfers)))
  }

  lemma {:induction false} StepAuthorised(k: Kernel, e: Event)
    requires Inv(k) && Enabled(k, e)
    ensures AuthorisedStep(k, Next(k, e))
  {
    hide Body, Send, Recv, MidInv;
    if e.Trap? {
      var k1, p := Stored(k, e), PlanOf(k, e);
      BodySafe(k, e);
      SameTablesKeep(k, k1);
      FinishTransfers(p, e.hart, e.sp);
      if IsCall(e, 6) || IsCall(e, 7) {
        IpcPlan(k, e);
        if IsCall(e, 6) { SendAuthorised(k1, e.hart, e.sp); } else { RecvAuthorised(k1, e.hart, e.sp); }
        if p.k.transfers != k.transfers { AuthorisedKept(k, k1, Back(p.k.transfers)); }
      } else {
        BodyKeepsIpc(k, e);
      }
    }
  }

  /** Authority confinement: in every run, data flows only from a holder of the send right to a holder of
      the receive right of the same endpoint, as registered at the start. */
  lemma {:induction false} AuthorityConfined(ks: seq<Kernel>, es: seq<Event>, n: nat, j: nat)
    requires Run(ks, es) && n <= |es| && |ks[0].transfers| <= j < |ks[n].transfers|
    ensures Authorised(ks[0], ks[n].transfers[j])
  {
    hide Inv, Enabled, Next, Authorised;
    if n > 0 {
      RunConfig(ks, es, n - 1);
      RunStep(ks, es, n - 1);
      StepAuthorised(ks[n - 1], es[n - 1]);
      var x := ks[n].transfers[j];
      if j < |ks[n - 1].transfers| {
        AuthorityConfined(ks, es, n - 1, j);
        assert x == ks[n - 1].transfers[j];
      } else {
        assert x == Back(ks[n].transfers);
        AuthorisedKept(ks[0], ks[n - 1], x);
      }
    }
  }

  /** Every owner of and waiter on a mutex may lock it; every task blocked on an endpoint has the right
      it waits to use. */
  lemma {:induction false} WaitersAuthorised(ks: seq<Kernel>, es: seq<Event>, t: Tid, m: nat, n: nat)
    requires Run(ks, es) && n <= |es| && Occ(ks[n], t) && m < 8
    ensures var k := ks[n];
      && (St(k, t).BlockedOnMutex? ==> CanLock(k, t, St(k, t).mutexIdx))
      && (St(k, t).BlockedOnIpcSend? ==> CanSend(k, t, St(k, t).endpointIdx))
      && (St(k, t).BlockedOnIpcRecv? ==> CanRecv(k, t, St(k, t).endpointIdx))
      && (k.mutexes[m].Some? && k.mutexes[m].value.owner == Some(t.slot) && t == Home(t.slot) ==> CanLock(k, t, m))
  {
    RunInv(ks, es, n);
    assert WaiterOk(ks[n], t) && IpcOk(ks[n], t) && MutexOk(ks[n], m, None);
  }

  // ---- One send, one receive, one transfer ----

  /** Some task completes a send (receive) on `ep` in this step. */
  ghost predicate SomeCompletes(k: Kernel, e: Event, k': Kernel, ep: nat, sender: bool) {
    exists t :: Occ(k, t) && Occ(k', t) && Completes(k, e, k', t, ep, sender)
  }

  lemma {:induction false} StepCompletions(k: Kernel, e: Event, ep: nat, sender: bool)
    requires Inv(k) && Enabled(k, e)
    ensures var k' := Next(k, e);
      if SomeCompletes(k, e, k', ep, sender)
      then k'.transfers != [] && Front(k'.transfers) == k.transfers && Back(k'.transfers).endpoint == ep
      else k'.transfers == k.transfers
           || (k'.transfers != [] && Front(k'.transfers) == k.transfers && Back(k'.transfers).endpoint != ep)
  {
    hide Inv, Enabled, Next, Completes;
    var k' := Next(k, e);
    StepAuthorised(k, e);
    if SomeCompletes(k, e, k', ep, sender) {
      var t :| Occ(k, t) && Occ(k', t) && Completes(k, e, k', t, ep, sender);
      StepPaired(k, e, t, ep, sender);
    } else if k'.transfers != k.transfers && Back(k'.transfers).endpoint == ep {
      var x := Back(k'.transfers);
      StepPaired(k, e, if sender then x.from else x.to, ep, sender);
    }
  }

  /** Steps among the first `n` in which a send (receive) on `ep` completes. */
  ghost function Completions(ks: seq<Kernel>, es: seq<Event>, ep: nat, sender: bool, n: nat): (c: nat)
    requires |ks| == |es| + 1 && n <= |es|
  {
    if n == 0 then 0
    else Completions(ks, es, ep, sender, n - 1)
         + if SomeCompletes(ks[n - 1], es[n - 1], ks[n], ep, sender) then 1 else 0
  }

  function Transfers(xs: seq<Transfer>, ep: nat): (n: nat)
    decreases |xs|
  {
    if xs == [] then 0 else Transfers(Front(xs), ep) + if Back(xs).endpoint == ep then 1 else 0
  }

  /** In every run the sends completed on an endpoint, the receives completed on it and the transfers made
      over it are equal in number. */
  lemma {:induction false} SendsReceivesTransfers(ks: seq<Kernel>, es: seq<Event>, ep: nat, n: nat)
    requires Run(ks, es) && n <= |es|
    ensures Transfers(ks[n].transfers, ep) - Transfers(ks[0].transfers, ep)
            == Completions(ks, es, ep, true, n) == Completions(ks, es, ep, false, n)
  {
    hide Inv, Enabled, Next, SomeCompletes;
    if n > 0 {
      SendsReceivesTransfers(ks, es, ep, n - 1);
      RunStep(ks, es, n - 1);
      StepCompletions(ks[n - 1], es[n - 1], ep, true);
      StepCompletions(ks[n - 1], es[n - 1], ep, false);
    }
  }

  /** They are paired one to one: a step completes at most one send and at most one receive, and the two
      belong to the transfer that step logs. */
  lemma {:induction false} PairedOneToOne(ks: seq<Kernel>, es: seq<Event>, n: nat, t: Tid, u: Tid, ep: nat, f: nat,
                                          sends: bool, sender: bool)
    requires Run(ks, es) && n < |es| && Occ(ks[n], t) && Occ(ks[n], u) && Occ(ks[n + 1], t) && Occ(ks[n + 1], u)
    requires Completes(ks[n], es[n], ks[n + 1], t, ep, sends) && Completes(ks[n], es[n], ks[n + 1], u, f, sender)
    ensures ep == f && (sends == sender ==> t == u)
    ensures ks[n + 1].transfers != [] && Front(ks[n + 1].transfers) == ks[n].transfers
    ensures Is(Back(ks[n + 1].transfers), t, ep, sends) && Is(Back(ks[n + 1].transfers), u, ep, sender)
  {
    hide Inv, Enabled, Next, Completes;
    RunStep(ks, es, n);
    StepPaired(ks[n], es[n], t, ep, sends);
    StepPaired(ks[n], es[n], u, f, sender);
  }
}
