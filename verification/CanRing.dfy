/** The masked ring buffer of the CAN driver (network/src/can.rs). */
module CanRing {
  import opened Tasks

  const RING_CAPACITY := 16

  /** `(i + 1) & (RING_CAPACITY - 1)`: the mask is the cyclic successor. */
  function Succ(i: nat): (j: nat)
    requires i < 16
    ensures j == if i == 15 then 0 else i + 1
  {
    (((i + 1) as bv32) & 15) as nat
  }

  /** Slots from `head` to `tail`, going round. */
  function Used(head: nat, tail: nat): (n: nat)
    requires head < 16 && tail < 16
  {
    if head <= tail then tail - head else tail + 16 - head
  }

  function Slot(head: nat, i: nat): (s: nat)
    requires head < 16 && i < 16
    ensures s < 16
  {
    if head + i < 16 then head + i else head + i - 16
  }

  function Queued<T>(fs: seq<Option<T>>, head: nat, tail: nat): (q: seq<T>)
    requires |fs| == 16 && head < 16 && tail < 16
    requires forall i :: 0 <= i < 16 ==> (fs[Slot(head, i)].Some? <==> i < Used(head, tail))
    ensures |q| == Used(head, tail) && forall i :: 0 <= i < |q| ==> fs[Slot(head, i)] == Some(q[i])
  {
    var n := Used(head, tail);
    seq(n, i requires 0 <= i < n => fs[Slot(head, i)].value)
  }

  /** A first-in first-out queue of at most 15 frames. */
  class CanRingBuffer<Frame> {
    const frames: array<Option<Frame>>
    var head: nat
    var tail: nat

    ghost predicate Valid()
      reads this, frames
    {
      && frames.Length == RING_CAPACITY && head < 16 && tail < 16
      && forall i :: 0 <= i < 16 ==> (frames[Slot(head, i)].Some? <==> i < Used(head, tail))
    }

    ghost function Contents(): (q: seq<Frame>)
      requires Valid()
      reads this, frames
    {
      Queued(frames[..], head, tail)
    }

    constructor ()
      ensures Valid() && fresh(frames) && Contents() == []
    {
      frames := new Option<Frame>[RING_CAPACITY](_ => None);
      head, tail := 0, 0;
    }

    predicate IsFull()
      requires Valid()
      reads this, frames
      ensures IsFull() <==> |Contents()| == 15
    {
      Succ(tail) == head
    }

    predicate IsEmpty()
      requires Valid()
      reads this, frames
      ensures IsEmpty() <==> Contents() == []
    {
      head == tail
    }

    method Push(frame: Frame) returns (ok: bool)
      requires Valid()
      modifies this, frames
      ensures Valid() && ok == (|old(Contents())| < 15)
      ensures Contents() == if ok then old(Contents()) + [frame] else old(Contents())
    {
      if IsFull() {
        return false;
      }
      ghost var n := Used(head, tail);
      assert Slot(head, n) == tail;
      assert forall i :: 0 <= i < 16 && i != n ==> Slot(head, i) != tail;
      frames[tail] := Some(frame);
      tail := Succ(tail);
      assert Used(head, tail) == n + 1;
      return true;
    }

    method Pop() returns (frame: Option<Frame>)
      requires Valid()
      modifies this, frames
      ensures Valid() && (frame.None? <==> old(Contents()) == [])
      ensures frame.Some? ==> old(Contents()) == [frame.value] + Contents()
      ensures frame.None? ==> Contents() == old(Contents())
    {
      if IsEmpty() {
        return None;
      }
      ghost var n := Used(head, tail);
      assert Slot(head, 0) == head;
      frame := frames[head];
      ghost var was := head;
      frames[head] := None;
      head := Succ(head);
      assert Used(head, tail) == n - 1;
      assert forall i :: 0 <= i < 15 ==> Slot(head, i) == Slot(was, i + 1) && Slot(head, i) != was;
      assert Slot(head, 15) == was;
    }
  }
}
