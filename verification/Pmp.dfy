/** The PMP driver (kernel/src/memory/pmp.rs, kernel/src/main.rs) on the registers and matching rules of
    section 3.6 "Physical Memory Protection" of the RISC-V Privileged Architecture, version 1.11. */
module Pmp {
  import opened Bitwise

  // ---- Configuration bytes ----

  datatype Mode = Off | Tor | Na4 | Napot

  datatype Config = Config(read: bool, write: bool, execute: bool, mode: Mode, locked: bool)

  function ModeBits(m: Mode): (b: nat) {
    match m case Off => 0 case Tor => 1 case Na4 => 2 case Napot => 3
  }

  function ToByte(c: Config): (b: nat) {
    var b1 := if c.read then 1 else 0;
    var b2 := if c.write then BitOr(b1, 2) else b1;
    var b3 := if c.execute then BitOr(b2, 4) else b2;
    var b4 := BitOr(b3, ModeBits(c.mode) * 8);
    if c.locked then BitOr(b4, 128) else b4
  }

  function ModeOf(lo: bool, hi: bool): (m: Mode) {
    if hi then (if lo then Napot else Na4) else if lo then Tor else Off
  }

  /** How the hardware reads entry `i` of a packed configuration register: byte `i`, bit by bit. */
  function ConfigIn(reg: nat, i: nat): (c: Config) {
    Config(Bit(reg, 8 * i), Bit(reg, 8 * i + 1), Bit(reg, 8 * i + 2),
           ModeOf(Bit(reg, 8 * i + 3), Bit(reg, 8 * i + 4)), Bit(reg, 8 * i + 7))
  }

  lemma {:induction false} ConstantBits(i: nat)
    ensures Bit(1, i) <==> i == 0
    ensures Bit(2, i) <==> i == 1
    ensures Bit(4, i) <==> i == 2
    ensures Bit(128, i) <==> i == 7
    ensures Bit(255, i) <==> i < 8
  {
    assert Pow2(0) == 1 && Pow2(1) == 2 && Pow2(2) == 4 && Pow2(7) == 128 && Pow2(8) == 256;
    PowBit(0, i);
    PowBit(1, i);
    PowBit(2, i);
    PowBit(7, i);
    OnesBit(8, i);
  }

  lemma {:induction false} ModeBit(m: Mode, i: nat)
    ensures Bit(ModeBits(m) * 8, i) <==> (i == 3 && (m.Tor? || m.Napot?)) || (i == 4 && (m.Na4? || m.Napot?))
  {
    assert Pow2(3) == 8;
    ShiftBit(ModeBits(m), 3, i);
    if i >= 5 { ZeroBit(i - 5); }
  }

  /** Every bit of a configuration byte. */
  lemma {:induction false} ToByteBit(c: Config, i: nat)
    ensures Bit(ToByte(c), i) <==>
      match i
      case 0 => c.read
      case 1 => c.write
      case 2 => c.execute
      case 3 => c.mode.Tor? || c.mode.Napot?
      case 4 => c.mode.Na4? || c.mode.Napot?
      case 7 => c.locked
      case _ => false
  {
    hide BitOr, Bit, ModeBits;
    var b1 := if c.read then 1 else 0;
    var b2 := if c.write then BitOr(b1, 2) else b1;
    var b3 := if c.execute then BitOr(b2, 4) else b2;
    ConstantBits(i);
    ZeroBit(i);
    ModeBit(c.mode, i);
    OrBit(b1, 2, i);
    OrBit(b2, 4, i);
    OrBit(b3, ModeBits(c.mode) * 8, i);
    OrBit(BitOr(b3, ModeBits(c.mode) * 8), 128, i);
  }

  /** The hardware reads a packed byte back as the configuration it was made from. */
  lemma {:induction false} ByteRoundTrip(c: Config)
    ensures ConfigIn(ToByte(c), 0) == c
  {
    hide ToByte, Bit;
    ToByteBit(c, 0);
    ToByteBit(c, 1);
    ToByteBit(c, 2);
    ToByteBit(c, 3);
    ToByteBit(c, 4);
    ToByteBit(c, 7);
  }

  // ---- Packed configuration registers: four bytes each ----

  /** Read-modify-write of byte `i`: `(reg & !(0xFF << shift)) | (byte << shift)`. */
  function Patched(reg: nat, i: nat, b: nat): (r: nat) {
    BitOr(BitAndNot(reg, 255 * Pow2(8 * i)), b * Pow2(8 * i))
  }

  /** A packed write changes its own byte and no other, at any shift. */
  lemma {:induction false} PatchedBit(reg: nat, i: nat, c: Config, k: nat)
    ensures Bit(Patched(reg, i, ToByte(c)), k) <==>
      if 8 * i <= k < 8 * i + 8 then Bit(ToByte(c), k - 8 * i) else Bit(reg, k)
  {
    hide Bit, BitOr, BitAndNot, Pow2, ToByte;
    var mask, b := 255 * Pow2(8 * i), ToByte(c);
    OrBit(BitAndNot(reg, mask), b * Pow2(8 * i), k);
    AndNotBit(reg, mask, k);
    ShiftBit(255, 8 * i, k);
    ShiftBit(b, 8 * i, k);
    if k >= 8 * i {
      ConstantBits(k - 8 * i);
      ToByteBit(c, k - 8 * i);
    }
  }

  /** The bits after writing `v` over `prior`: the hardware ignores writes to a byte whose lock bit is set. */
  function LatchedBits(prior: nat, v: nat): (f: seq<bool>)
    ensures |f| == 32
    ensures forall k :: 0 <= k < 32 ==> f[k] == if Bit(prior, k - k % 8 + 7) then Bit(prior, k) else Bit(v, k)
  {
    seq(32, k requires 0 <= k < 32 => if Bit(prior, k - k % 8 + 7) then Bit(prior, k) else Bit(v, k))
  }

  function CsrWritten(prior: nat, v: nat): (r: nat) { FromBits(LatchedBits(prior, v)) }

  /** Read-modify-write of one entry's byte through the hardware: that entry changes unless it is locked,
      and bit `r` of every other byte `j` stays. */
  lemma {:induction false} PatchThroughCsr(prior: nat, i: nat, c: Config, j: nat, r: nat)
    requires i < 4 && j < 4 && r < 8
    ensures Bit(CsrWritten(prior, Patched(prior, i, ToByte(c))), 8 * j + r) <==>
      if j == i && !ConfigIn(prior, i).locked then Bit(ToByte(c), r) else Bit(prior, 8 * j + r)
  {
    hide Bit, FromBits, LatchedBits, Patched, ToByte;
    var v, k := Patched(prior, i, ToByte(c)), 8 * j + r;
    var f := LatchedBits(prior, v);
    assert k - k % 8 + 7 == 8 * j + 7;
    assert f[k] == if Bit(prior, 8 * j + 7) then Bit(prior, k) else Bit(v, k);
    FromBitsBit(f, k);
    PatchedBit(prior, i, c, k);
    assert 8 * i <= k < 8 * i + 8 <==> j == i;
  }

  // ---- NAPOT addresses ----

  /** The value configure_pmp writes to pmpaddr. */
  function NapotValue(base: nat, size: nat): (v: nat)
    requires size >= 2
  {
    BitOr(base / 4, (size / 2 - 1) / 4)
  }

  function TrailingOnes(v: nat): (n: nat) {
    if v % 2 == 1 then 1 + TrailingOnes(v / 2) else 0
  }

  /** How the hardware reads a NAPOT address: y...y0 followed by n ones is a region of 2^(n+3) bytes. */
  function RegionSize(v: nat): (s: nat) { Pow2(TrailingOnes(v) + 3) }

  function RegionBase(v: nat): (b: nat) {
    v / Pow2(TrailingOnes(v) + 1) * Pow2(TrailingOnes(v) + 1) * 4
  }

  /** b...b0 followed by n ones has exactly n trailing ones. */
  lemma {:induction false} OnesBelow(q: nat, n: nat)
    ensures TrailingOnes(q * Pow2(n + 1) + Pow2(n) - 1) == n
  {
    var v := q * Pow2(n + 1) + Pow2(n) - 1;
    if n == 0 {
      assert v == 2 * q;
    } else {
      OnesBelow(q, n - 1);
      OddOver(q, Pow2(n), Pow2(n - 1), v);
    }
  }

  lemma {:induction false} OddOver(q: nat, p: nat, r: nat, v: nat)
    requires p == 2 * r && v + 1 == q * (2 * p) + p && r >= 1
    ensures v % 2 == 1 && v / 2 == q * p + r - 1
  {
    assert q * (2 * p) == 2 * (q * p);
  }

  /** A base aligned to 2^(n+3) in words, and half that size in words. */
  lemma {:induction false} WordsOf(base: nat, n: nat)
    requires base % Pow2(n + 3) == 0
    ensures var q, p := base / Pow2(n + 3), Pow2(n);
      && Pow2(n + 1) == 2 * p && Pow2(n + 3) == 8 * p
      && base == q * (8 * p) && base / 4 == q * (2 * p) && (Pow2(n + 3) / 2 - 1) / 4 == p - 1
  {
    var q, p := base / Pow2(n + 3), Pow2(n);
    assert Pow2(n + 3) == 2 * Pow2(n + 2) && Pow2(n + 2) == 2 * Pow2(n + 1) && Pow2(n + 1) == 2 * p;
    QuarterOf(q, p);
  }

  lemma {:induction false} QuarterOf(q: nat, p: nat)
    ensures q * (8 * p) / 4 == q * (2 * p)
  {
    assert q * (8 * p) == 4 * (q * (2 * p));
  }

  /** For every size 2^k >= 8 and every base aligned to it, the encoded value decodes to exactly that
      region. */
  lemma {:induction false} NapotRoundTrip(base: nat, k: nat)
    requires k >= 3 && base % Pow2(k) == 0
    ensures var v := NapotValue(base, Pow2(k)); RegionBase(v) == base && RegionSize(v) == Pow2(k)
  {
    hide BitOr, TrailingOnes, Pow2;
    var q, n := base / Pow2(k), k - 3;
    var p := Pow2(n);
    WordsOf(base, n);
    OrDisjoint(q, n + 1, p - 1);
    OnesBelow(q, n);
    DivSmall(q, 2 * p, p - 1);
    assert q * (2 * p) * 4 == q * (8 * p);
  }

  lemma {:induction false} DivSmall(q: nat, p: nat, r: nat)
    requires r < p
    ensures (q * p + r) / p == q
  {
    assert (q * p + r) / p * p <= q * p + r < (q * p + r) / p * p + p;
    if (q * p + r) / p < q {
      MulMono((q * p + r) / p + 1, q, p);
    } else if (q * p + r) / p > q {
      MulMono(q + 1, (q * p + r) / p, p);
    }
  }
}
