/** The 32-bit waiter bitmaps of the mutexes, read as sets of slots. */
module Bitmaps {
  import opened Bitwise

  function Bits(b: nat): (s: set<nat>) {
    set i: nat | i < 32 && Bit(b, i)
  }

  lemma {:induction false} BitsZero()
    ensures Bits(0) == {}
  {
    forall i: nat ensures !Bit(0, i) {
      ZeroBit(i);
    }
  }

  /** `b |= 1 << i` adds one slot. */
  method SetBit(b: nat, i: nat) returns (r: nat)
    requires i < 32
    ensures Bits(r) == Bits(b) + {i}
  {
    hide Bit;
    r := BitOr(b, Pow2(i));
    forall j: nat ensures Bit(r, j) <==> Bit(b, j) || j == i {
      OrBit(b, Pow2(i), j);
      PowBit(i, j);
    }
  }

  /** `b &= !(1 << i)` removes one slot. */
  method ClearBit(b: nat, i: nat) returns (r: nat)
    requires i < 32
    ensures Bits(r) == Bits(b) - {i}
  {
    hide Bit;
    r := BitAndNot(b, Pow2(i));
    forall j: nat ensures Bit(r, j) <==> Bit(b, j) && j != i {
      AndNotBit(b, Pow2(i), j);
      PowBit(i, j);
    }
  }

  method TestBit(b: nat, i: nat) returns (r: bool)
    requires i < 32
    ensures r <==> i in Bits(b)
  {
    r := Bit(b, i);
  }
}
