/** Bit operations on unbounded naturals. */
module Bitwise {
  function Pow2(k: nat): (p: nat)
    ensures p >= 1
  {
    if k == 0 then 1 else 2 * Pow2(k - 1)
  }

  /** Bitwise or. */
  function BitOr(x: nat, y: nat): (r: nat)
    decreases x + y
  {
    if x == 0 && y == 0 then 0
    else 2 * BitOr(x / 2, y / 2) + (if x % 2 == 1 || y % 2 == 1 then 1 else 0)
  }

  /** x & !y. */
  function BitAndNot(x: nat, y: nat): (r: nat) {
    if x == 0 then 0
    else 2 * BitAndNot(x / 2, y / 2) + (if x % 2 == 1 && y % 2 == 0 then 1 else 0)
  }

  predicate Bit(x: nat, i: nat) {
    if i == 0 then x % 2 == 1 else Bit(x / 2, i - 1)
  }

  /** The number whose bits are `f`, lowest first. */
  function FromBits(f: seq<bool>): (x: nat) {
    if f == [] then 0 else 2 * FromBits(f[1..]) + (if f[0] then 1 else 0)
  }

  lemma {:induction false} ZeroBit(i: nat)
    ensures !Bit(0, i)
  {
    if i > 0 { ZeroBit(i - 1); }
  }

  lemma {:induction false} OrBit(x: nat, y: nat, i: nat)
    ensures Bit(BitOr(x, y), i) <==> Bit(x, i) || Bit(y, i)
    decreases i
  {
    if x == 0 && y == 0 {
      ZeroBit(i);
    } else if i > 0 {
      OrBit(x / 2, y / 2, i - 1);
    }
  }

  lemma {:induction false} AndNotBit(x: nat, y: nat, i: nat)
    ensures Bit(BitAndNot(x, y), i) <==> Bit(x, i) && !Bit(y, i)
    decreases i
  {
    if x == 0 {
      ZeroBit(i);
    } else if i > 0 {
      AndNotBit(x / 2, y / 2, i - 1);
    }
  }

  lemma {:induction false} PowBit(s: nat, i: nat)
    ensures Bit(Pow2(s), i) <==> i == s
  {
    if s == 0 {
      if i > 0 { ZeroBit(i - 1); }
    } else if i > 0 {
      PowBit(s - 1, i - 1);
    }
  }

  lemma {:induction false} ShiftBit(y: nat, s: nat, i: nat)
    ensures Bit(y * Pow2(s), i) <==> i >= s && Bit(y, i - s)
  {
    if s > 0 {
      assert y * Pow2(s) == 2 * (y * Pow2(s - 1));
      if i > 0 { ShiftBit(y, s - 1, i - 1); }
    }
  }

  lemma {:induction false} OnesBit(n: nat, i: nat)
    ensures Bit(Pow2(n) - 1, i) <==> i < n
  {
    if n == 0 {
      ZeroBit(i);
    } else if i > 0 {
      OnesBit(n - 1, i - 1);
    }
  }

  lemma {:induction false} FromBitsBit(f: seq<bool>, i: nat)
    ensures Bit(FromBits(f), i) <==> i < |f| && f[i]
  {
    if f == [] {
      ZeroBit(i);
    } else if i > 0 {
      FromBitsBit(f[1..], i - 1);
    }
  }

  lemma {:induction false} OrDisjoint(q: nat, j: nat, y: nat)
    requires y < Pow2(j)
    ensures BitOr(q * Pow2(j), y) == q * Pow2(j) + y
    decreases j, q
  {
    if j == 0 {
      OrZero(q);
    } else {
      var x := q * Pow2(j);
      assert x == 2 * (q * Pow2(j - 1));
      OrDisjoint(q, j - 1, y / 2);
    }
  }

  lemma {:induction false} OrZero(x: nat)
    ensures BitOr(x, 0) == x
  {
    if x > 0 { OrZero(x / 2); }
  }

  lemma {:induction false} OrCommutes(x: nat, y: nat)
    ensures BitOr(x, y) == BitOr(y, x)
    decreases x + y
  {
    if x != 0 || y != 0 { OrCommutes(x / 2, y / 2); }
  }

  lemma {:induction false} PowAdd(a: nat, b: nat)
    ensures Pow2(a + b) == Pow2(a) * Pow2(b)
  {
    if b > 0 { PowAdd(a, b - 1); }
  }

  lemma {:induction false} MulMono(a: nat, b: nat, p: nat)
    requires a <= b
    ensures a * p <= b * p
  {}
}
