/** The rendezvous syscalls keep the invariant. */
module IpcSafety {
  import opened Tasks
  import opened PartitionScheduler
  import opened KernelState
  import opened KernelSteps
  import opened KernelInvariant
  import opened KernelSafety

  lemma {:induction false} RendezvousSafe(k: Kernel, k': Kernel, h: nat, peer: Tid)
    requires h < 2 && Inv(k) && Occ(k, peer)
    requires St(k, peer).BlockedOnIpcSend? || St(k, peer).BlockedOnIpcRecv?
    requires SameTables(SetState(k, peer, Ready), k')
    ensures PlanOk(k, Return(k'), h)
  {
    var k1 := SetState(k, peer, Ready);
    WakeKeepsScheds(k, peer);
    MutexesKept(k, k1, None);
    IpcKept(k, k1);
    SameTablesConsistent(k1, k');
    SteadyTables(k, k1, k');
    PlanFrom(k, Return(k'), h);
  }

  /** Blocking on an endpoint where nobody waits in the opposite role. */
  lemma {:induction false} IpcBlockSafe(k: Kernel, h: nat, st: TaskState)
    requires h < 2 && Inv(k) && Occ(k, CurTid(k, h))
    requires Live(k, h)
    requires st.BlockedOnIpcSend? || st.BlockedOnIpcRecv?
    requires st.BlockedOnIpcSend? ==> CanSend(k, CurTid(k, h), st.endpointIdx)
    requires st.BlockedOnIpcRecv? ==> CanRecv(k, CurTid(k, h), st.endpointIdx)
    requires forall u :: Occ(k, u) ==> !Waits(St(k, u), st.endpointIdx, st.BlockedOnIpcRecv?)
    ensures PlanOk(k, Resched(SetState(k, CurTid(k, h), st), false), h)
  {
    var t := CurTid(k, h);
    var k1 := SetState(k, t, st);
    SetStateSteady(k, t, st);
    MutexesKept(k, k1, None);
    forall u | Occ(k1, u) ensures IpcOk(k1, u) {
      RightsKept(k, k1, u);
      assert IpcOk(k, u);
    }
    forall u, v | Occ(k1, u) && Occ(k1, v) ensures NoMeeting(k1, u, v) {
      assert NoMeeting(k, u, v);
    }
    BlockSafe(k, k1, h, st);
  }

  lemma {:induction false} IpcTargetRight(k: Kernel, h: nat, sp: int)
    requires h < 2 && Occ(k, CurTid(k, h))
    ensures SendTarget(k, h, sp).Some? ==> CanSend(k, CurTid(k, h), SendTarget(k, h, sp).value)
    ensures RecvTarget(k, h, sp).Some? ==> CanRecv(k, CurTid(k, h), RecvTarget(k, h, sp).value)
  {
    var c := NamedCap(k, h, sp);
    if c.IpcCap? { assert Holds(k, CurTid(k, h), c); }
  }

  lemma {:induction false} SendSafe(k: Kernel, h: nat, sp: int)
    requires h < 2 && Inv(k) && Occ(k, CurTid(k, h))
    requires SendTarget(k, h, sp).Some? && Find(k, SendTarget(k, h, sp).value, false).None? ==> Live(k, h)
    ensures PlanOk(k, Send(k, h, sp), h)
  {
    IpcTargetRight(k, h, sp);
    match SendTarget(k, h, sp)
    case None => QuietSafe(k, Send(k, h, sp), h);
    case Some(ep) =>
      match Find(k, ep, false)
      case Some(rx) => RendezvousSafe(k, Send(k, h, sp).k, h, rx);
      case None =>
        FindComplete(k, ep, false);
        IpcBlockSafe(k, h, BlockedOnIpcSend(ep, Reg(k.mem, sp, REG_A1), Reg(k.mem, sp, REG_A2)));
  }

  lemma {:induction false} RecvSafe(k: Kernel, h: nat, sp: int)
    requires h < 2 && Inv(k) && Occ(k, CurTid(k, h))
    requires RecvTarget(k, h, sp).Some? && Find(k, RecvTarget(k, h, sp).value, true).None? ==> Live(k, h)
    ensures PlanOk(k, Recv(k, h, sp), h)
  {
    IpcTargetRight(k, h, sp);
    match RecvTarget(k, h, sp)
    case None => QuietSafe(k, Recv(k, h, sp), h);
    case Some(ep) =>
      match Find(k, ep, true)
      case Some(tx) => RendezvousSafe(k, Recv(k, h, sp).k, h, tx);
      case None =>
        FindComplete(k, ep, true);
        IpcBlockSafe(k, h, BlockedOnIpcRecv(ep, Reg(k.mem, sp, REG_A1), Reg(k.mem, sp, REG_A2)));
  }
}
