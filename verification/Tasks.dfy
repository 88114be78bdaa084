/** Task control blocks, capabilities and saved register frames
    (scheduler/src/tcb.rs and the frame layout of kernel/src/trap_entry.s). */
module Tasks {
  const MAX_PARTITIONS := 32
  const IDLE := 31

  /** A 32-bit register value. */
  type Word = w: int | 0 <= w < 0x1_0000_0000

  function Wrap(x: int): (w: Word)
    ensures 0 <= x < 0x1_0000_0000 ==> w == x
  {
    x % 0x1_0000_0000
  }

  /** `-1isize as usize` on RV32. */
  const MINUS_ONE: Word := 0xFFFF_FFFF

  datatype Option<+T> = None | Some(value: T)

  datatype Capability =
    | NoCap
    | MutexCap(mutexIdx: nat, canLock: bool, canUnlock: bool)
    | IpcCap(endpointIdx: nat, canSend: bool, canRecv: bool)

  datatype TaskState =
    | Ready
    | Running
    | Blocked(wakeTick: Word)
    | BlockedOnMutex(mutexIdx: nat)
    | BlockedOnIpcSend(endpointIdx: nat, msgAddr: Word, msgLen: Word)
    | BlockedOnIpcRecv(endpointIdx: nat, bufAddr: Word, maxLen: Word)
    | Terminated

  type Capabilities = c: seq<Capability> | |c| == 8 witness seq(8, _ => NoCap)

  datatype Tcb = Tcb(savedSp: int, priority: nat, activePriority: nat, state: TaskState,
                     name: string, capabilities: Capabilities)

  // ---- Memory: bytes, read as little-endian words ----

  type Byte = b: int | 0 <= b < 256
  type Memory = map<int, Byte>

  function RdByte(mem: Memory, a: int): (b: Byte) {
    if a in mem then mem[a] else 0
  }

  function Rd(mem: Memory, a: int): (w: Word) {
    RdByte(mem, a) + 0x100 * RdByte(mem, a + 1) + 0x1_0000 * RdByte(mem, a + 2) + 0x100_0000 * RdByte(mem, a + 3)
  }

  /** Byte `i` of a word. */
  function WordByte(w: Word, i: nat): (b: Byte)
    requires i < 4
  {
    var d: int := w;
    if i == 0 then d % 0x100 else if i == 1 then d / 0x100 % 0x100
    else if i == 2 then d / 0x1_0000 % 0x100 else d / 0x100_0000 % 0x100
  }

  predicate InRange(a: int, start: int, len: nat) { start <= a < start + len }

  function WrWord(mem: Memory, a: int, v: Word): (m: Memory)
    ensures forall x {:trigger RdByte(m, x)} ::
      RdByte(m, x) == if InRange(x, a, 4) then WordByte(v, x - a) else RdByte(mem, x)
  {
    mem[a := WordByte(v, 0)][a + 1 := WordByte(v, 1)][a + 2 := WordByte(v, 2)][a + 3 := WordByte(v, 3)]
  }

  lemma {:induction false} WrRd(mem: Memory, a: int, v: Word)
    ensures Rd(WrWord(mem, a, v), a) == v
  {
    WordBytes(v);
    hide WordByte;
    var m := WrWord(mem, a, v);
    assert RdByte(m, a) == WordByte(v, 0) && RdByte(m, a + 1) == WordByte(v, 1);
    assert RdByte(m, a + 2) == WordByte(v, 2) && RdByte(m, a + 3) == WordByte(v, 3);
  }

  lemma {:induction false} WordBytes(v: Word)
    ensures WordByte(v, 0) + 0x100 * WordByte(v, 1) + 0x1_0000 * WordByte(v, 2) + 0x100_0000 * WordByte(v, 3) == v
  {
    var d: int := v;
    var q, r, s := d / 0x100, d / 0x1_0000, d / 0x100_0000;
    assert q / 0x100 == r && r / 0x100 == s && s % 0x100 == s;
  }

  /** Words are stored lowest byte first. */
  lemma {:induction false} LittleEndian(m: Memory, a: int)
    ensures var m' := WrWord(m, a, 0x1234_5678);
      RdByte(m', a) == 0x78 && RdByte(m', a + 1) == 0x56 && RdByte(m', a + 2) == 0x34 && RdByte(m', a + 3) == 0x12
  {}

  /** A word is determined by its four bytes. */
  lemma {:induction false} SameWord(m: Memory, m': Memory, a: int)
    requires forall x {:trigger RdByte(m', x)} :: InRange(x, a, 4) ==> RdByte(m', x) == RdByte(m, x)
    ensures Rd(m', a) == Rd(m, a)
  {
    assert RdByte(m', a) == RdByte(m, a) && RdByte(m', a + 1) == RdByte(m, a + 1);
    assert RdByte(m', a + 2) == RdByte(m, a + 2) && RdByte(m', a + 3) == RdByte(m, a + 3);
  }

  lemma {:induction false} WordByteRd(m: Memory, a: int)
    ensures forall i :: 0 <= i < 4 ==> WordByte(Rd(m, a), i) == RdByte(m, a + i)
  {
    var b0: int, b1: int, b2: int, b3: int := RdByte(m, a), RdByte(m, a + 1), RdByte(m, a + 2), RdByte(m, a + 3);
    var w: int := Rd(m, a);
    assert w % 0x100 == b0 && w / 0x100 == b1 + 0x100 * b2 + 0x1_0000 * b3;
    assert w / 0x1_0000 == b2 + 0x100 * b3 && w / 0x100_0000 == b3;
  }

  lemma {:induction false} WordFromBytes(m: Memory, a: int, v: Word)
    requires forall i :: 0 <= i < 4 ==> RdByte(m, a + i) == WordByte(v, i)
    ensures Rd(m, a) == v
  {
    WordBytes(v);
    hide WordByte;
    assert RdByte(m, a + 0) == WordByte(v, 0) && RdByte(m, a + 1) == WordByte(v, 1);
    assert RdByte(m, a + 2) == WordByte(v, 2) && RdByte(m, a + 3) == WordByte(v, 3);
  }

  lemma {:induction false} WrCommutes(m: Memory, a: int, v: Word, b: int, w: Word)
    requires a + 4 <= b || b + 4 <= a
    ensures WrWord(WrWord(m, a, v), b, w) == WrWord(WrWord(m, b, w), a, v)
  {}

  lemma {:induction false} WrTwice(m: Memory, a: int, v: Word, w: Word)
    ensures WrWord(WrWord(m, a, v), a, w) == WrWord(m, a, w)
  {}

  // ---- Saved register frames: 32 words, word i at byte address sp + 4*i ----

  type Frame = f: seq<Word> | |f| == 32 witness seq(32, _ => 0)

  const FRAME_BYTES := 128
  const REG_A0 := 6
  const REG_A1 := 7
  const REG_A2 := 8
  const REG_A7 := 13
  const REG_MEPC := 28
  const REG_MSTATUS := 29

  function Reg(mem: Memory, sp: int, i: nat): (w: Word) {
    Rd(mem, sp + 4 * i)
  }

  function PutReg(mem: Memory, sp: int, i: nat, v: Word): (m: Memory) {
    WrWord(mem, sp + 4 * i, v)
  }

  lemma {:induction false} RegPutReg(mem: Memory, sp: int, i: nat, v: Word, j: nat)
    ensures Reg(PutReg(mem, sp, i, v), sp, j) == if j == i then v else Reg(mem, sp, j)
  {
    if j == i {
      WrRd(mem, sp + 4 * i, v);
    } else {
      SameWord(mem, PutReg(mem, sp, i, v), sp + 4 * j);
    }
  }

  /** Stores the first `n` registers of `f` at `sp`, in ascending order. */
  function PutRegs(mem: Memory, sp: int, f: Frame, n: nat): (m: Memory)
    requires n <= 32
  {
    if n == 0 then mem else PutReg(PutRegs(mem, sp, f, n - 1), sp, n - 1, f[n - 1])
  }

  function PutFrame(mem: Memory, sp: int, f: Frame): (m: Memory) {
    PutRegs(mem, sp, f, 32)
  }

  /** The frame a task resumes from when its saved stack pointer is `sp`. */
  function FrameAt(mem: Memory, sp: int): (f: Frame)
    ensures forall i :: 0 <= i < 32 ==> f[i] == Reg(mem, sp, i)
  {
    seq(32, i requires 0 <= i < 32 => Reg(mem, sp, i))
  }

  /** Storing registers changes exactly their bytes. */
  lemma {:induction false} PutRegsByte(mem: Memory, sp: int, f: Frame, n: nat, a: int)
    requires n <= 32
    ensures RdByte(PutRegs(mem, sp, f, n), a) ==
      if InRange(a, sp, 4 * n) then WordByte(f[(a - sp) / 4], (a - sp) % 4) else RdByte(mem, a)
  {
    if n > 0 { PutRegsByte(mem, sp, f, n - 1, a); }
  }

  lemma {:induction false} PutFrameByte(mem: Memory, sp: int, f: Frame, a: int)
    ensures RdByte(PutFrame(mem, sp, f), a) ==
      if InRange(a, sp, FRAME_BYTES) then WordByte(f[(a - sp) / 4], (a - sp) % 4) else RdByte(mem, a)
  {
    PutRegsByte(mem, sp, f, 32, a);
  }

  lemma {:induction false} PutRegsReg(mem: Memory, sp: int, f: Frame, n: nat, i: nat)
    requires n <= 32
    ensures Reg(PutRegs(mem, sp, f, n), sp, i) == if i < n then f[i] else Reg(mem, sp, i)
  {
    if n > 0 {
      PutRegsReg(mem, sp, f, n - 1, i);
      RegPutReg(PutRegs(mem, sp, f, n - 1), sp, n - 1, f[n - 1], i);
    }
  }

  lemma {:induction false} FrameRoundTrip(mem: Memory, sp: int, f: Frame)
    ensures FrameAt(PutFrame(mem, sp, f), sp) == f
  {
    var g := FrameAt(PutFrame(mem, sp, f), sp);
    forall i | 0 <= i < 32 ensures g[i] == f[i] {
      PutRegsReg(mem, sp, f, 32, i);
    }
  }

  /** A frame whose bytes are all the same is the same. */
  lemma {:induction false} SameFrame(mem: Memory, mem': Memory, sp: int)
    requires forall x {:trigger RdByte(mem', x)} :: InRange(x, sp, FRAME_BYTES) ==> RdByte(mem', x) == RdByte(mem, x)
    ensures FrameAt(mem', sp) == FrameAt(mem, sp)
  {
    var f, g := FrameAt(mem, sp), FrameAt(mem', sp);
    forall i | 0 <= i < 32 ensures g[i] == f[i] {
      SameWord(mem, mem', sp + 4 * i);
    }
  }

  lemma {:induction false} FramePutReg(mem: Memory, sp: int, i: nat, v: Word)
    requires i < 32
    ensures FrameAt(PutReg(mem, sp, i, v), sp) == FrameAt(mem, sp)[i := v]
  {
    var f, g := FrameAt(mem, sp)[i := v], FrameAt(PutReg(mem, sp, i, v), sp);
    forall j | 0 <= j < 32 ensures g[j] == f[j] {
      RegPutReg(mem, sp, i, v, j);
    }
  }

  /** Overwriting one stored register is storing the updated frame. */
  lemma {:induction false} PutRegsUpdate(mem: Memory, sp: int, f: Frame, i: nat, v: Word, n: nat)
    requires i < 32 && n <= 32
    ensures PutRegs(mem, sp, f[i := v], n) ==
      if i < n then PutReg(PutRegs(mem, sp, f, n), sp, i, v) else PutRegs(mem, sp, f, n)
  {
    hide WrWord;
    if n > 0 {
      PutRegsUpdate(mem, sp, f, i, v, n - 1);
      var m := PutRegs(mem, sp, f, n - 1);
      if i == n - 1 {
        WrTwice(m, sp + 4 * i, f[i], v);
      } else if i < n - 1 {
        WrCommutes(m, sp + 4 * i, v, sp + 4 * (n - 1), f[n - 1]);
      }
    }
  }

  // ---- initialize_stack ----

  function InitialFrame(entry: Word): (f: Frame)
    ensures f[REG_MEPC] == entry && f[REG_MSTATUS] == 0x80
    ensures forall i :: 0 <= i < 32 && i != REG_MEPC && i != REG_MSTATUS ==> f[i] == 0
  {
    seq(32, i requires 0 <= i < 32 => if i == 28 then entry else if i == 29 then 0x80 else 0)
  }

  function InitialSp(start: int, len: nat): (sp: int)
    ensures sp % 16 == 0 && sp + FRAME_BYTES <= start + len < sp + FRAME_BYTES + 16
  {
    (start + len) / 16 * 16 - FRAME_BYTES
  }

  /** Clears a 32-word frame at the 16-byte-aligned top of the stack, then sets mepc and mstatus.
      The resulting frame is exactly the one a U-mode task starts from; memory outside it is untouched. */
  method InitializeStack(mem: Memory, start: int, len: nat, entry: Word)
    returns (mem': Memory, sp: int)
    ensures sp == InitialSp(start, len)
    ensures mem' == PutFrame(mem, sp, InitialFrame(entry)) && FrameAt(mem', sp) == InitialFrame(entry)
    ensures forall a :: !InRange(a, sp, FRAME_BYTES) ==> RdByte(mem', a) == RdByte(mem, a)
  {
    sp := (start + len) / 16 * 16 - FRAME_BYTES;
    mem' := mem;
    ghost var zeros: Frame := seq(32, _ => 0);
    for i := 0 to 32
      invariant mem' == PutRegs(mem, sp, zeros, i)
    {
      mem' := PutReg(mem', sp, i, 0);
    }
    PutRegsUpdate(mem, sp, zeros, REG_MEPC, entry, 32);
    mem' := PutReg(mem', sp, REG_MEPC, entry);
    PutRegsUpdate(mem, sp, zeros[REG_MEPC := entry], REG_MSTATUS, 0x80, 32);
    mem' := PutReg(mem', sp, REG_MSTATUS, 0x80);
    assert zeros[REG_MEPC := entry][REG_MSTATUS := 0x80] == InitialFrame(entry);
    FrameRoundTrip(mem, sp, InitialFrame(entry));
    forall a | !InRange(a, sp, FRAME_BYTES) ensures RdByte(mem', a) == RdByte(mem, a) {
      PutFrameByte(mem, sp, InitialFrame(entry), a);
    }
  }
}
