/** Context integrity end to end: from the registers of an interrupted task, through any run, to the
    registers it continues with. */
module ResumeTheorems {
  import opened Tasks
  import opened KernelState
  import opened KernelSteps
  import opened KernelInvariant
  import opened Machine
  import opened ContextIntegrity
  import opened TrapEntry

  /** The stack pointer trap exit loads from after event `e`. */
  ghost function ResumeSp(k: Kernel, e: Event): (sp: Option<int>) {
    if e.Trap? && e.hart < 2 && Occ(k, CurTid(k, e.hart)) && !PlanOf(k, e).Panic?
       && PlanOf(k, e).k.scheds[e.hart].current < 32
    then Some(Finish(PlanOf(k, e), e.hart, e.sp).sp) else None
  }

  lemma {:induction false} ResumeIsStep(k: Kernel, e: Event)
    requires Inv(k) && e.Trap? && Enabled(k, e)
    ensures ResumeSp(k, e) == Some(Step(k, e).sp)
  {
    hide Inv, Finish, Body, CallOk;
    FinishSafe(k, e);
  }

  /** Task `t` was interrupted at event `i`, stayed suspended, and is switched back in by event `n`; no
      store of another task, by IPC or in U-mode, meets its frame meanwhile. */
  ghost predicate Interval(ks: seq<Kernel>, es: seq<Event>, t: Tid, i: nat, n: nat)
    requires |ks| == |es| + 1
  {
    && i < n < |es| && t.hart < 2
    && es[i].Trap? && es[i].hart == t.hart && CurTid(ks[i], t.hart) == t
    && MessageAvoids(MessageIn(ks[i], es[i]), es[i].sp)
    && (forall x :: i < x <= n ==> Undisturbed(ks[x], es[x], t))
    && es[n].Trap? && es[n].hart == t.hart && CurTid(ks[n + 1], t.hart) == t
  }

  /** What `t` finds in a0: the result delivered while it was away, else what its own call left there,
      else (None) what it had. */
  ghost function Result(ks: seq<Kernel>, es: seq<Event>, t: Tid, i: nat, n: nat): (v: Option<Word>)
    requires |ks| == |es| + 1 && i < n < |es|
  {
    var d := Delivered(ks, es, t, i + 1, n + 1);
    if d.Some? then d else OwnBy(ks[i], es[i])
  }

  lemma {:induction false} SwitchedOut(ks: seq<Kernel>, es: seq<Event>, t: Tid, i: nat)
    requires Run(ks, es) && i < |es| && t.hart < 2 && es[i].Trap? && es[i].hart == t.hart
    requires CurTid(ks[i], t.hart) == t && Suspended(ks[i + 1], t) && MessageAvoids(MessageIn(ks[i], es[i]), es[i].sp)
    ensures TcbOf(ks[i + 1], t).savedSp == es[i].sp
    ensures FrameStep(StoredFrame(es[i]), FrameAt(ks[i + 1].mem, es[i].sp), OwnBy(ks[i], es[i]))
  {
    hide Inv, Enabled, Step, FrameAt, FrameStep, OwnBy, MessageIn, MessageAvoids;
    RunStep(ks, es, i);
    DisplacedInStack(ks[i], es[i]);
    OwnStackSpared(ks[i], es[i]);
    TrapKeepsOwn(ks[i], es[i]);
  }

  /** A task that a trap suspends has its frame in its own stack. */
  lemma {:induction false} DisplacedInStack(k: Kernel, e: Event)
    requires Inv(k) && e.Trap? && Enabled(k, e) && Suspended(Next(k, e), CurTid(k, e.hart))
    ensures CurTid(k, e.hart) in k.stacks && InStack(k, CurTid(k, e.hart), e.sp)
  {
    hide Inv, PlanOk, CallOk, Displaces, Body, Switch, PutFrame;
    HandledKept(k, e);
    DisplacesIff(k, e);
  }

  lemma {:induction false} ResumesFrom(ks: seq<Kernel>, es: seq<Event>, t: Tid, sp: int, n: nat)
    requires Run(ks, es) && n < |es| && t.hart < 2 && Undisturbed(ks[n], es[n], t) && TcbOf(ks[n], t).savedSp == sp
    requires es[n].Trap? && es[n].hart == t.hart && CurTid(ks[n + 1], t.hart) == t
    ensures ResumeSp(ks[n], es[n]) == Some(sp)
  {
    hide Inv, Enabled, Step, FrameAt, FrameStep, ServedBy, Spares;
    RunStep(ks, es, n);
    StepKeeps(ks[n], es[n], t);
    ResumeIsStep(ks[n], es[n]);
  }

  /** Over every run a resumed task continues from exactly the place and frame it was suspended with:
      unchanged after an interrupt, past the ecall after a syscall, and with a0 exactly the result of its
      call, if it has one. */
  lemma {:induction false} ResumesOwnFrame(ks: seq<Kernel>, es: seq<Event>, t: Tid, i: nat, n: nat)
    requires Run(ks, es) && Interval(ks, es, t, i, n)
    ensures ResumeSp(ks[n], es[n]) == Some(es[i].sp)
    ensures FrameStep(StoredFrame(es[i]), FrameAt(ks[n + 1].mem, es[i].sp), Result(ks, es, t, i, n))
  {
    hide Inv, StepAt, FrameAt, Delivered, OwnBy, Spares, ResumeSp, StoredFrame;
    assert Undisturbed(ks[i + 1], es[i + 1], t) && Undisturbed(ks[n], es[n], t);
    SwitchedOut(ks, es, t, i);
    SuspendedFrameKept(ks, es, t, i + 1, n + 1);
    SuspendedFrameKept(ks, es, t, i + 1, n);
    ResumesFrom(ks, es, t, es[i].sp, n);
  }

  /** The same for registers: what trap exit loads is the interrupted register file, with a0 replaced
      exactly where the call has a result and the saved pc past an ecall. `y` is the register file of the
      hart just before exit. */
  lemma {:induction false} RegistersResume(ks: seq<Kernel>, es: seq<Event>, t: Tid, i: nat, n: nat, x: Regs, y: Regs,
                        mepc: Word, mstatus: Word, w30: Word, w31: Word)
    requires Run(ks, es) && Interval(ks, es, t, i, n)
    requires es[i].frame == Captured(x, mepc, mstatus, w30, w31) && es[i].sp + FRAME_BYTES == x[SP]
    requires y[0] == x[0] && y[3] == x[3] && y[4] == x[4]
    ensures ResumeSp(ks[n], es[n]) == Some(x[SP] - FRAME_BYTES)
    ensures var g, v := FrameAt(ks[n + 1].mem, x[SP] - FRAME_BYTES), Result(ks, es, t, i, n);
      && Restored(y, g, x[SP]) == (if v.Some? then x[A0 := v.value] else x)
      && g[REG_MEPC] == (if es[i].mcause == ECALL_UMODE then Wrap(mepc + 4) else mepc) && g[REG_MSTATUS] == mstatus
  {
    hide StepAt, FrameAt, ResumeSp, Result, Spares, Undisturbed, Inv, Restored, Captured;
    ResumesOwnFrame(ks, es, t, i, n);
    var pc: Word := if es[i].mcause == ECALL_UMODE then Wrap(mepc + 4) else mepc;
    CapturedPc(x, mepc, mstatus, w30, w31, pc);
    var v := Result(ks, es, t, i, n);
    ResumesExactly(x, y, pc, mstatus, w30, w31, if v.Some? then v.value else 0);
  }

  lemma {:induction false} CapturedPc(x: Regs, mepc: Word, mstatus: Word, w30: Word, w31: Word, pc: Word)
    ensures Captured(x, mepc, mstatus, w30, w31)[REG_MEPC := pc] == Captured(x, pc, mstatus, w30, w31)
  {
    var f, g := Captured(x, mepc, mstatus, w30, w31)[REG_MEPC := pc], Captured(x, pc, mstatus, w30, w31);
    assert forall j :: 0 <= j < 32 ==> f[j] == g[j];
  }

  /** A restarted task first runs from the fresh frame at the top of its own stack. */
  lemma {:induction false} RestartedRunsFresh(ks: seq<Kernel>, es: seq<Event>, t: Tid, entry: Word, i: nat, n: nat)
    requires Run(ks, es) && i < n < |es| && es[i] == Restart(t, entry)
    requires forall x :: i < x <= n ==> Undisturbed(ks[x], es[x], t)
    requires t.hart < 2 && es[n].Trap? && es[n].hart == t.hart && CurTid(ks[n + 1], t.hart) == t
    ensures t in ks[i].stacks
    ensures var sp := InitialSp(ks[i].stacks[t].base, ks[i].stacks[t].size);
      && ResumeSp(ks[n], es[n]) == Some(sp)
      && FrameStep(InitialFrame(entry), FrameAt(ks[n + 1].mem, sp), Delivered(ks, es, t, i + 1, n + 1))
  {
    hide Inv, StepAt, FrameAt, FrameStep, Delivered, InitialSp, InitialFrame, Spares, ResumeSp;
    FreshAfterRestart(ks, es, t, entry, i);
    assert Undisturbed(ks[n], es[n], t);
    SuspendedFrameKept(ks, es, t, i + 1, n + 1);
    SuspendedFrameKept(ks, es, t, i + 1, n);
    ResumesFrom(ks, es, t, InitialSp(ks[i].stacks[t].base, ks[i].stacks[t].size), n);
  }

  lemma {:induction false} FreshAfterRestart(ks: seq<Kernel>, es: seq<Event>, t: Tid, entry: Word, i: nat)
    requires Run(ks, es) && i < |es| && es[i] == Restart(t, entry)
    ensures Occ(ks[i + 1], t) && t in ks[i].stacks
    ensures var sp := InitialSp(ks[i].stacks[t].base, ks[i].stacks[t].size);
      TcbOf(ks[i + 1], t).savedSp == sp && FrameAt(ks[i + 1].mem, sp) == InitialFrame(entry)
  {
    hide Inv, FrameAt, InitialSp, InitialFrame, PutFrame;
    assert StepAt(ks, es, i);
    FrameRoundTrip(ks[i].mem, InitialSp(ks[i].stacks[t].base, ks[i].stacks[t].size), InitialFrame(entry));
  }
}
