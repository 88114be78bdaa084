/** Trap entry and exit (kernel/src/trap_entry.s): the register frame and the mscratch stack swap. */
module TrapEntry {
  import opened Tasks

  type Regs = x: seq<Word> | |x| == 32 witness seq(32, _ => 0)

  const SP := 2
  const T0 := 5
  const T1 := 6
  const A0 := 10
  const A1 := 11
  const A2 := 12

  /** The register stored in word `i` of a frame: ra, t0-t2, s0-s1, a0-a7, s2-s11, t3-t6. gp and tp are in
      no frame. */
  function RegOf(i: nat): (r: nat)
    requires i < 28
    ensures r == 1 || 5 <= r < 32
  {
    if i == 0 then 1 else i + 4
  }

  /** The frame word of a saved register. */
  function WordOf(r: nat): (i: nat)
    requires r == 1 || 5 <= r < 32
    ensures i < 28 && RegOf(i) == r
  {
    if r == 1 then 0 else r - 4
  }

  /** The handler's word indices are those of the argument registers. */
  lemma {:induction false} LayoutAgrees()
    ensures RegOf(REG_A0) == 10 && RegOf(REG_A1) == 11 && RegOf(REG_A2) == 12 && RegOf(REG_A7) == 17
    ensures forall i, j :: 0 <= i < 28 && 0 <= j < 28 && RegOf(i) == RegOf(j) ==> i == j
    ensures forall r :: r == 1 || 5 <= r < 32 ==> RegOf(WordOf(r)) == r
  {}

  /** The frame that entry leaves on the interrupted task's stack. */
  function Captured(x: Regs, mepc: Word, mstatus: Word, w30: Word, w31: Word): (f: Frame)
    ensures forall i :: 0 <= i < 28 ==> f[i] == x[RegOf(i)]
    ensures f[REG_MEPC] == mepc && f[REG_MSTATUS] == mstatus && f[30] == w30 && f[31] == w31
  {
    seq(32, i requires 0 <= i < 32 =>
      if i < 28 then x[RegOf(i)] else if i == 28 then mepc else if i == 29 then mstatus
      else if i == 30 then w30 else w31)
  }

  /** The frame word by word, as the stores of trap entry lay it out: ra, t0-t2, s0, s1, a0-a7, s2-s11, t3-t6,
      mepc, mstatus. */
  lemma {:induction false} FrameLayout(x: Regs, mepc: Word, mstatus: Word, w30: Word, w31: Word)
    ensures Captured(x, mepc, mstatus, w30, w31) ==
      [x[1], x[5], x[6], x[7], x[8], x[9], x[10], x[11], x[12], x[13], x[14], x[15], x[16], x[17], x[18], x[19],
       x[20], x[21], x[22], x[23], x[24], x[25], x[26], x[27], x[28], x[29], x[30], x[31], mepc, mstatus, w30, w31]
  {
    var f := Captured(x, mepc, mstatus, w30, w31);
    assert forall i :: 0 <= i < 28 ==> f[i] == x[if i == 0 then 1 else i + 4];
  }

  /** sp is in no frame: it is where the frame is. */
  lemma {:induction false} CapturedSkipsSp(x: Regs, sp: Word, mepc: Word, mstatus: Word, w30: Word, w31: Word)
    ensures var y: Regs := x[SP := sp]; Captured(y, mepc, mstatus, w30, w31) == Captured(x, mepc, mstatus, w30, w31)
  {
    var y: Regs := x[SP := sp];
    var f, g := Captured(y, mepc, mstatus, w30, w31), Captured(x, mepc, mstatus, w30, w31);
    assert forall i :: 0 <= i < 32 ==> f[i] == g[i];
  }

  /** The registers that exit loads from a frame, over those it leaves alone. */
  function Restored(x: Regs, f: Frame, sp: Word): (r: Regs)
    ensures forall j :: 0 <= j < 32 ==>
      r[j] == if j == SP then sp else if j == 1 || j >= 5 then f[WordOf(j)] else x[j]
  {
    seq(32, j requires 0 <= j < 32 => if j == SP then sp else if j == 1 || j >= 5 then f[WordOf(j)] else x[j])
  }

  /** A task resumed from the frame it was suspended with has all its registers back: a0 is the result
      written for it, and only gp and tp, which are in no frame, come from the hart. */
  lemma {:induction false} ResumesExactly(x: Regs, y: Regs, mepc: Word, mstatus: Word, w30: Word, w31: Word,
                                          result: Word)
    requires y[0] == x[0] && y[3] == x[3] && y[4] == x[4]
    ensures var f: Frame := Captured(x, mepc, mstatus, w30, w31);
      && Restored(y, f, x[SP]) == x
      && Restored(y, f[REG_A0 := result], x[SP]) == x[A0 := result]
      && f[REG_A0 := result][REG_MEPC] == mepc && f[REG_A0 := result][REG_MSTATUS] == mstatus
  {
    var f: Frame := Captured(x, mepc, mstatus, w30, w31);
    assert forall j :: 0 <= j < 32 ==> Restored(y, f, x[SP])[j] == x[j];
    var g: Frame := f[REG_A0 := result];
    var r, z := Restored(y, g, x[SP]), x[A0 := result];
    forall j | 0 <= j < 32 ensures r[j] == z[j] {
      if j == 1 || j >= 5 { assert r[j] == g[WordOf(j)]; }
    }
  }

  /** One hart: general registers, the CSRs the trap code uses, and memory. */
  class HartCore {
    var x: Regs
    var mepc: Word
    var mstatus: Word
    var mscratch: Word
    var mem: Memory

    constructor (x: Regs, mepc: Word, mstatus: Word, mscratch: Word, mem: Memory)
      ensures this.x == x && this.mepc == mepc && this.mstatus == mstatus
      ensures this.mscratch == mscratch && this.mem == mem
    {
      this.x, this.mepc, this.mstatus, this.mscratch, this.mem := x, mepc, mstatus, mscratch, mem;
    }

    method SetReg(r: nat, v: Word)
      requires r < 32
      modifies `x
      ensures x == old(x)[r := v]
    {
      var y: seq<Word> := x;
      y := y[r := v];
      assert |y| == 32;
      x := y;
    }

    /** csrrw sp, mscratch, sp */
    method SwapStack()
      modifies `x, `mscratch
      ensures x == old(x)[SP := old(mscratch)] && mscratch == old(x[SP])
    {
      var sp := x[SP];
      SetReg(SP, mscratch);
      mscratch := sp;
    }

    /** The 28 stores, then mepc and mstatus through t0 and t1. */
    method SaveFrame(sp: Word)
      requires x[SP] == sp
      modifies `x, `mem
      ensures mem == PutRegs(old(mem), sp,
                             Captured(old(x), mepc, mstatus, Reg(old(mem), sp, 30), Reg(old(mem), sp, 31)), 30)
      ensures x == old(x)[T0 := mepc][T1 := mstatus]
    {
      ghost var f := Captured(x, mepc, mstatus, Reg(mem, sp, 30), Reg(mem, sp, 31));
      for i := 0 to 28
        invariant mem == PutRegs(old(mem), sp, f, i) && x == old(x)
      {
        mem := PutReg(mem, sp, i, x[RegOf(i)]);
      }
      SetReg(T0, mepc);
      mem := PutReg(mem, sp, 28, x[T0]);
      SetReg(T1, mstatus);
      mem := PutReg(mem, sp, 29, x[T1]);
    }

    /** Saves the interrupted task on its own stack and moves to the kernel stack. The frame holds exactly
        the task's registers; the handler gets the cause, the frame's address and the cycle count. */
    method Enter(mcause: Word, mcycle: Word)
      requires x[SP] >= FRAME_BYTES
      modifies this
      ensures mem == PutRegs(old(mem), old(x[SP]) - FRAME_BYTES,
                             CapturedHere(old(x), old(mepc), old(mstatus), old(mem)), 30)
      ensures mscratch == old(x[SP]) - FRAME_BYTES == x[A1] && x[A0] == mcause && x[A2] == mcycle
      ensures x[SP] == old(mscratch) && mepc == old(mepc) && mstatus == old(mstatus)
      ensures x[0] == old(x[0]) && x[3] == old(x[3]) && x[4] == old(x[4])
    {
      hide PutRegs;
      SwapStack();
      SwapStack();
      assert x == old(x) && mscratch == old(mscratch);
      var sp: Word := x[SP] - FRAME_BYTES;
      SetReg(SP, sp);
      CapturedSkipsSp(old(x), sp, mepc, mstatus, Reg(mem, sp, 30), Reg(mem, sp, 31));
      SaveFrame(sp);
      SwapStack();
      SetReg(A0, mcause);
      SetReg(A1, mscratch);
      SetReg(A2, mcycle);
    }

    ghost function CapturedHere(r: Regs, pc: Word, status: Word, m: Memory): (f: Frame) {
      Captured(r, pc, status, Reg(m, r[SP] - FRAME_BYTES, 30), Reg(m, r[SP] - FRAME_BYTES, 31))
    }

    /** Loads the frame at `a0`, the stack pointer the handler returned, and leaves the kernel stack. */
    method Leave()
      requires x[A0] + FRAME_BYTES < 0x1_0000_0000
      modifies this
      ensures x == Restored(old(x), FrameAt(mem, old(x[A0])), old(x[A0]) + FRAME_BYTES)
      ensures mepc == Reg(mem, old(x[A0]), REG_MEPC) && mstatus == Reg(mem, old(x[A0]), REG_MSTATUS)
      ensures mscratch == old(x[SP]) && mem == old(mem)
    {
      hide Reg, FrameAt, Restored, WordOf;
      var q: int := x[A0];
      ghost var f := FrameAt(mem, q);
      mscratch := x[A0];
      SwapStack();
      SetReg(T0, Reg(mem, q, 28));
      mepc := x[T0];
      SetReg(T1, Reg(mem, q, 29));
      mstatus := x[T1];
      for i := 0 to 28
        invariant unchanged(`mem) && mepc == f[28] && mstatus == f[29] && mscratch == old(x[SP])
        invariant x[SP] == q && x[0] == old(x[0]) && x[3] == old(x[3]) && x[4] == old(x[4])
        invariant forall k :: 0 <= k < i ==> x[RegOf(k)] == f[k]
      {
        SetReg(RegOf(i), Reg(mem, q, i));
      }
      var top: Word := q + FRAME_BYTES;
      SetReg(SP, top);
      LoadedAll(old(x), x, f, top);
    }
  }

  /** Twenty-eight loads, and the registers they leave alone, make the restored register file. */
  lemma {:induction false} LoadedAll(x0: Regs, x: Regs, f: Frame, top: Word)
    requires forall k :: 0 <= k < 28 ==> x[RegOf(k)] == f[k]
    requires x[SP] == top && x[0] == x0[0] && x[3] == x0[3] && x[4] == x0[4]
    ensures x == Restored(x0, f, top)
  {
    assert forall j :: 0 <= j < 32 && (j == 1 || j >= 5) ==> x[RegOf(WordOf(j))] == f[WordOf(j)];
  }

  /** What entry stores is the frame the kernel's step sees: the same memory as storing all 32 words, the
      last two being whatever was there. */
  lemma {:induction false} EntryStoresFrame(mem: Memory, sp: int, x: Regs, mepc: Word, mstatus: Word, a: int)
    ensures var f: Frame := Captured(x, mepc, mstatus, Reg(mem, sp, 30), Reg(mem, sp, 31));
      RdByte(PutRegs(mem, sp, f, 30), a) == RdByte(PutFrame(mem, sp, f), a)
  {
    hide PutRegs, PutFrame;
    var f: Frame := Captured(x, mepc, mstatus, Reg(mem, sp, 30), Reg(mem, sp, 31));
    PutRegsByte(mem, sp, f, 30, a);
    PutFrameByte(mem, sp, f, a);
    WordByteRd(mem, sp + 120);
    WordByteRd(mem, sp + 124);
  }
}
