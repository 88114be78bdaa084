/** Software interrupts over all runs: exactly which events raise and clear a hart's pending bit. */
module Signals {
  import opened Tasks
  import opened PartitionScheduler
  import opened KernelState
  import opened KernelSteps
  import opened KernelInvariant
  import opened KernelSafety
  import opened RecoverySafety
  import opened Machine
  import opened Timing

  /** Syscall `id` with first argument `a0` turns to task `t`: it wakes it from a wait, or terminates it. */
  predicate TurnsTo(k: Kernel, k1: Kernel, id: Word, a0: Word, t: Tid) {
    && Occ(k, t) && Occ(k1, t)
    && (|| ((id == 4 || id == 6 || id == 7) && WaitState(St(k, t)) && St(k1, t) == Ready)
        || (id == 8 && Named(k, a0) == Some(t)))
  }

  ghost predicate Raises(k: Kernel, k1: Kernel, id: Word, a0: Word, g: nat) {
    exists t: Tid :: t.hart == g && TurnsTo(k, k1, id, a0, t)
  }

  /** The body adds the other hart to the pending set exactly when it turns to one of its tasks. */
  ghost predicate Signalled(k: Kernel, k1: Kernel, h: nat, id: Word, a0: Word, g: nat) {
    g in k1.msip <==> g in k.msip || (g != h && Raises(k, k1, id, a0, g))
  }

  lemma {:induction false} UnlockSignalled(k: Kernel, h: nat, sp: int, a0: Word, g: nat)
    requires h < 2 && MutexInv(k, None) && Occ(k, CurTid(k, h)) && !Unlock(k, h, sp).Panic?
    ensures Signalled(k, Unlock(k, h, sp).k, h, 4, a0, g)
  {
    hide HighestWaiter, PutReg, Reg;
    var k1 := Unlock(k, h, sp).k;
    if Unlock(k, h, sp).Resched? {
      var m := UnlockTarget(k, h, sp).value;
      var ws := k.mutexes[m].value.waiters;
      assert MutexOk(k, m, None);
      if HighestWaiter(k, ws, 32).Some? {
        assert TurnsTo(k, k1, 4, a0, Home(HighestWaiter(k, ws, 32).value));
      }
    }
  }

  lemma {:induction false} SendSignalled(k: Kernel, h: nat, sp: int, a0: Word, g: nat)
    requires h < 2 && Occ(k, CurTid(k, h))
    ensures !Send(k, h, sp).Panic? && Signalled(k, Send(k, h, sp).k, h, 6, a0, g)
  {
    hide PutReg, Copy, Reg, Find, FindIn;
    var k1 := Send(k, h, sp).k;
    if SendTarget(k, h, sp).Some? && Find(k, SendTarget(k, h, sp).value, false).Some? {
      assert TurnsTo(k, k1, 6, a0, Find(k, SendTarget(k, h, sp).value, false).value);
    }
  }

  lemma {:induction false} RecvSignalled(k: Kernel, h: nat, sp: int, a0: Word, g: nat)
    requires h < 2 && Occ(k, CurTid(k, h))
    ensures !Recv(k, h, sp).Panic? && Signalled(k, Recv(k, h, sp).k, h, 7, a0, g)
  {
    hide PutReg, Copy, Reg, Find, FindIn;
    var k1 := Recv(k, h, sp).k;
    if RecvTarget(k, h, sp).Some? && Find(k, RecvTarget(k, h, sp).value, true).Some? {
      assert TurnsTo(k, k1, 7, a0, Find(k, RecvTarget(k, h, sp).value, true).value);
    }
  }

  lemma {:induction false} TerminateSignalled(k: Kernel, h: nat, sp: int, g: nat)
    requires h < 2 && Inv(k) && Occ(k, CurTid(k, h)) && MayTerminate(k, Reg(k.mem, sp, REG_A0))
    ensures Signalled(k, Terminate(k, h, sp).k, h, 8, Reg(k.mem, sp, REG_A0), g)
  {
    hide PutReg, Reg, Killed, MutexInv, IpcInv, StackInv, SchedOk;
    var k1, a0 := Terminate(k, h, sp).k, Reg(k.mem, sp, REG_A0);
    if Named(k, a0).Some? {
      KilledStates(k, Named(k, a0).value);
      assert TurnsTo(k, k1, 8, a0, Named(k, a0).value);
    }
  }

  lemma {:induction false} SyscallSignalled(k: Kernel, h: nat, sp: int, g: nat)
    requires h < 2 && Inv(k) && Occ(k, CurTid(k, h)) && SyscallOk(k, h, sp) && !Syscall(k, h, sp).Panic?
    ensures Signalled(k, Syscall(k, h, sp).k, h, Reg(k.mem, sp, REG_A7), Reg(k.mem, sp, REG_A0), g)
  {
    hide Unlock, Send, Recv, Terminate, MutexInv, IpcInv, StackInv, Cfg, SchedOk, Reg, WouldBlock, WouldGrant, PutReg;
    var id, a0 := Reg(k.mem, sp, REG_A7), Reg(k.mem, sp, REG_A0);
    if id == 4 { UnlockSignalled(k, h, sp, a0, g); }
    else if id == 6 { SendSignalled(k, h, sp, a0, g); }
    else if id == 7 { RecvSignalled(k, h, sp, a0, g); }
    else if id == 8 { TerminateSignalled(k, h, sp, g); }
  }

  /** Event `e` raises hart `g`: a syscall 4, 6, 7 or 8 of the other hart wakes or terminates a task of it. */
  ghost predicate RaisedBy(k: Kernel, e: Event, k': Kernel, g: nat) {
    && e.Trap? && e.mcause == ECALL_UMODE && e.hart != g
    && Raises(k, k', e.frame[REG_A7], e.frame[REG_A0], g)
  }

  /** Event `e` is the software interrupt of hart `g`. */
  predicate ClearedBy(e: Event, g: nat) { e.Trap? && e.hart == g && e.mcause == 0x8000_0003 }

  lemma {:induction false} FinishRaises(k: Kernel, p: Plan, h: nat, sp: int, id: Word, a0: Word, g: nat)
    requires h < 2 && PlanOk(k, p, h) && g != h
    ensures Raises(k, Finish(p, h, sp).k, id, a0, g) <==> Raises(k, p.k, id, a0, g)
  {
    hide MutexInv, IpcInv, StackInv, Cfg, SchedOk, Switch, Steady, TurnsTo;
    var k' := Finish(p, h, sp).k;
    if g < 2 { OtherHart(p, h, sp, g); }
    forall t: Tid | t.hart == g ensures TurnsTo(k, k', id, a0, t) <==> TurnsTo(k, p.k, id, a0, t) {
      TurnsAlike(k, p.k, k', id, a0, t);
    }
  }

  lemma {:induction false} OtherHart(p: Plan, h: nat, sp: int, g: nat)
    requires h < 2 && g < 2 && g != h && !p.Panic? && SchedMid(p.k.scheds[h])
    ensures Finish(p, h, sp).k.scheds[g] == p.k.scheds[g]
  {
    if p.Resched? { SwitchEffect(p.k, h, sp, p.isTick); }
  }

  lemma {:induction false} TurnsAlike(k: Kernel, k1: Kernel, k2: Kernel, id: Word, a0: Word, t: Tid)
    requires t.hart < 2 ==> k2.scheds[t.hart] == k1.scheds[t.hart]
    ensures TurnsTo(k, k2, id, a0, t) <==> TurnsTo(k, k1, id, a0, t)
  {}

  lemma {:induction false} StoredRaises(k: Kernel, k0: Kernel, k': Kernel, id: Word, a0: Word, g: nat)
    requires k0.scheds == k.scheds
    ensures Raises(k0, k', id, a0, g) <==> Raises(k, k', id, a0, g)
  {
    forall t ensures TurnsTo(k0, k', id, a0, t) <==> TurnsTo(k, k', id, a0, t) {}
  }

  lemma {:induction false} TrapSignals(k: Kernel, e: Event, g: nat)
    requires Inv(k) && e.Trap? && Enabled(k, e)
    ensures g in Next(k, e).msip <==> (g in k.msip && !ClearedBy(e, g)) || RaisedBy(k, e, Next(k, e), g)
  {
    hide Inv, Syscall, CallOk, PutFrame, Raises, Killed, PlanOk;
    var k1, h, p := Stored(k, e), e.hart, PlanOf(k, e);
    var id, a0 := e.frame[REG_A7], e.frame[REG_A0];
    BodySafe(k, e);
    FinishSafe(k, e);
    StoredRegs(k, e);
    SameTablesKeep(k, k1);
    FinishMsip(k1, p, h, e.sp);
    if g != h {
      FinishRaises(k1, p, h, e.sp, id, a0, g);
      StoredRaises(k, k1, Next(k, e), id, a0, g);
    }
    if e.mcause == ECALL_UMODE {
      CallSignalled(k, e, g);
    } else if Contained(e.mcause) {
      FaultMsip(k1, h);
    }
  }

  lemma {:induction false} FinishMsip(k: Kernel, p: Plan, h: nat, sp: int)
    requires h < 2 && PlanOk(k, p, h)
    ensures Finish(p, h, sp).k.msip == p.k.msip
  {
    hide MutexInv, IpcInv, StackInv, Cfg;
    if p.Resched? { SwitchEffect(p.k, h, sp, p.isTick); }
  }

  lemma {:induction false} CallSignalled(k: Kernel, e: Event, g: nat)
    requires Inv(k) && e.Trap? && Enabled(k, e) && e.mcause == ECALL_UMODE
    ensures !PlanOf(k, e).Panic?
    ensures Signalled(Stored(k, e), PlanOf(k, e).k, e.hart, e.frame[REG_A7], e.frame[REG_A0], g)
  {
    hide Inv, Syscall, SyscallOk, PutFrame, Signalled, PlanOk;
    BodySafe(k, e);
    StoredRegs(k, e);
    SameTablesKeep(k, Stored(k, e));
    SyscallNoPanic(k, e);
    SyscallSignalled(Stored(k, e), e.hart, e.sp, g);
  }

  lemma {:induction false} SyscallNoPanic(k: Kernel, e: Event)
    requires Inv(k) && e.Trap? && Enabled(k, e)
    ensures !PlanOf(k, e).Panic?
  {
    hide Inv, Body, CallOk, MidInv, Steady;
    BodySafe(k, e);
  }

  lemma {:induction false} FaultMsip(k: Kernel, h: nat)
    requires h < 2 && Inv(k) && Occ(k, CurTid(k, h))
    ensures Killed(k, CurTid(k, h)).msip == k.msip
  {
    hide Killed, MutexInv, IpcInv, Cfg, StackInv;
    assert SchedOk(k.scheds[h]);
    KilledStates(k, CurTid(k, h));
  }

  /** In every run a hart's software interrupt is pending after an event exactly when it was pending and the
      event is not that very interrupt, or the event is a syscall 4, 6, 7 or 8 of the other hart that wakes
      or terminates one of the hart's tasks. */
  lemma {:induction false} PendingExact(ks: seq<Kernel>, es: seq<Event>, n: nat, g: nat)
    requires Run(ks, es) && n < |es|
    ensures g in ks[n + 1].msip <==>
      (g in ks[n].msip && !ClearedBy(es[n], g)) || RaisedBy(ks[n], es[n], ks[n + 1], g)
  {
    hide Inv, Enabled, ClearedBy, RaisedBy;
    RunStep(ks, es, n);
    if es[n].Trap? { TrapSignals(ks[n], es[n], g); } else { QuietMsip(ks, es, n, g); }
  }

  lemma {:induction false} QuietMsip(ks: seq<Kernel>, es: seq<Event>, n: nat, g: nat)
    requires Run(ks, es) && n < |es| && !es[n].Trap?
    ensures ks[n + 1].msip == ks[n].msip && !ClearedBy(es[n], g) && !RaisedBy(ks[n], es[n], ks[n + 1], g)
  {
    hide Inv, Enabled, PutFrame, PutBytes;
    assert StepAt(ks, es, n);
  }

  /** So an unlock, send or receive that wakes a task of the other hart leaves that hart's software interrupt
      pending. */
  lemma {:induction false} CrossWakeSignalled(ks: seq<Kernel>, es: seq<Event>, n: nat, t: Tid)
    requires Run(ks, es) && n < |es| && (IsCall(es[n], 4) || IsCall(es[n], 6) || IsCall(es[n], 7)) && Occ(ks[n], t)
    ensures Occ(ks[n + 1], t)
    ensures t.hart != es[n].hart && WaitState(St(ks[n], t)) && St(ks[n + 1], t) == Ready ==> t.hart in ks[n + 1].msip
  {
    hide Inv, StepAt, Raises;
    PendingExact(ks, es, n, t.hart);
    RunConfig(ks, es, n);
    RunConfig(ks, es, n + 1);
    if WaitState(St(ks[n], t)) && St(ks[n + 1], t) == Ready {
      WakeRaises(ks[n], ks[n + 1], es[n].frame[REG_A7], es[n].frame[REG_A0], t);
    }
  }

  lemma {:induction false} WakeRaises(k: Kernel, k': Kernel, id: Word, a0: Word, t: Tid)
    requires TurnsTo(k, k', id, a0, t)
    ensures Raises(k, k', id, a0, t.hart)
  {}
}
