/** Telemetry events: their Postcard encoding (telemetry/src/lib.rs) and the host decoder
    (host/telemetry_broker.py). */
module Telemetry {
  import opened Tasks
  import opened Bitwise

  /** Decoded counters are unbounded on the host; the kernel only sends 32-bit ones. */
  datatype TraceEvent =
    | TaskSwap(from: Byte, to: Byte, cycles: nat)
    | IpcTransfer(endpoint: Byte, bytes: Byte)
    | FaultInterception(cause: nat, pc: nat)

  predicate Sendable(e: TraceEvent) {
    match e
    case TaskSwap(_, _, c) => c < 0x1_0000_0000
    case IpcTransfer(_, _) => true
    case FaultInterception(c, p) => c < 0x1_0000_0000 && p < 0x1_0000_0000
  }

  // ---- Postcard: variants and u32 are varints, u8 is one byte ----

  /** Seven bits a byte, low group first, the top bit set on every byte but the last. */
  function Varint(n: nat): (s: seq<Byte>)
    ensures |s| >= 1
  {
    if n < 128 then [n] else [128 + n % 128] + Varint(n / 128)
  }

  function Encode(e: TraceEvent): (s: seq<Byte>) {
    match e
    case TaskSwap(from, to, cycles) => [0, from, to] + Varint(cycles)
    case IpcTransfer(endpoint, bytes) => [1, endpoint, bytes]
    case FaultInterception(cause, pc) => [2] + (Varint(cause) + Varint(pc))
  }

  lemma {:induction false} VarintLength(n: nat)
    requires n < 0x1_0000_0000
    ensures |Varint(n)| <= 5
  {
    var a, b, c, d := n / 128, n / 128 / 128, n / 128 / 128 / 128, n / 128 / 128 / 128 / 128;
    assert d < 128;
    assert |Varint(d)| == 1 && |Varint(c)| <= 2 && |Varint(b)| <= 3 && |Varint(a)| <= 4;
  }

  const BUFFER_BYTES := 32

  /** Every event the kernel logs fits its per-hart buffer, so none is dropped. */
  lemma {:induction false} FitsBuffer(e: TraceEvent)
    requires Sendable(e)
    ensures |Encode(e)| <= 11 <= BUFFER_BYTES
  {
    match e
    case TaskSwap(_, _, c) => VarintLength(c);
    case IpcTransfer(_, _) =>
    case FaultInterception(c, p) => VarintLength(c); VarintLength(p);
  }

  // ---- What the decoder computes ----

  /** A value and the number of bytes it took, or None where the input ends too early. */
  function ParseVarint(s: seq<Byte>): (r: Option<(nat, nat)>)
    ensures r.Some? ==> 1 <= r.value.1 <= |s|
  {
    if s == [] then None
    else if s[0] < 128 then Some((s[0], 1))
    else
      match ParseVarint(s[1..])
      case None => None
      case Some((v, n)) => Some((s[0] - 128 + 128 * v, n + 1))
  }

  function Parse(s: seq<Byte>): (r: Option<(TraceEvent, nat)>)
    ensures r.Some? ==> 1 <= r.value.1 <= |s|
  {
    match ParseVarint(s)
    case None => None
    case Some((tag, n)) =>
      if tag == 0 then
        if |s| < n + 2 then None
        else
          match ParseVarint(s[n + 2..])
          case None => None
          case Some((c, m)) => Some((TaskSwap(s[n], s[n + 1], c), n + 2 + m))
      else if tag == 1 then
        if |s| < n + 2 then None else Some((IpcTransfer(s[n], s[n + 1]), n + 2))
      else if tag == 2 then
        match ParseVarint(s[n..])
        case None => None
        case Some((c, m)) =>
          match ParseVarint(s[n + m..])
          case None => None
          case Some((p, q)) => Some((FaultInterception(c, p), n + m + q))
      else None
  }

  /** All events at the front of a buffer, and the bytes left over. */
  function Drained(s: seq<Byte>): (r: (seq<TraceEvent>, seq<Byte>)) {
    match Parse(s)
    case None => ([], s)
    case Some((e, n)) => var (es, rest) := Drained(s[n..]); ([e] + es, rest)
  }

  function EncodeAll(es: seq<TraceEvent>): (s: seq<Byte>) {
    if es == [] then [] else Encode(es[0]) + EncodeAll(es[1..])
  }

  // ---- Varints ----

  lemma {:induction false} VarintRoundTrip(n: nat, rest: seq<Byte>)
    ensures ParseVarint(Varint(n) + rest) == Some((n, |Varint(n)|))
  {
    if n >= 128 {
      VarintRoundTrip(n / 128, rest);
      assert (Varint(n) + rest)[1..] == Varint(n / 128) + rest;
    }
  }

  lemma {:induction false} VarintPrefix(n: nat, k: nat)
    requires k < |Varint(n)|
    ensures ParseVarint(Varint(n)[..k]) == None
  {
    if k > 0 {
      VarintPrefix(n / 128, k - 1);
      assert Varint(n)[..k][1..] == Varint(n / 128)[..k - 1];
    }
  }

  // ---- The wire format, byte by byte ----

  /** The number whose base-128 digits, lowest first, are the low seven bits of `s`. */
  function Radix(s: seq<Byte>): (n: nat) {
    if s == [] then 0 else s[0] % 128 + 128 * Radix(s[1..])
  }

  /** `s` is the one varint of `n`: seven bits a byte, lowest group first, the top bit set on every byte but
      the last, and no needless zero group at the end. */
  predicate IsVarint(s: seq<Byte>, n: nat) {
    && s != [] && Radix(s) == n
    && (forall i :: 0 <= i < |s| - 1 ==> s[i] >= 128)
    && s[|s| - 1] < 128 && (|s| > 1 ==> s[|s| - 1] > 0)
  }

  /** The bytes of an event: a variant tag, then the fields in declaration order, u8 as they are and u32 as
      varints. */
  ghost predicate Wire(s: seq<Byte>, e: TraceEvent) {
    match e
    case TaskSwap(from, to, cycles) => |s| > 3 && s[..3] == [0, from, to] && IsVarint(s[3..], cycles)
    case IpcTransfer(endpoint, bytes) => s == [1, endpoint, bytes]
    case FaultInterception(cause, pc) => s != [] && s[0] == 2 && IsPair(s[1..], cause, pc)
  }

  ghost predicate IsPair(s: seq<Byte>, a: nat, b: nat) {
    exists k :: 0 <= k <= |s| && IsVarint(s[..k], a) && IsVarint(s[k..], b)
  }

  lemma {:induction false} VarintIs(n: nat)
    ensures IsVarint(Varint(n), n)
  {
    if n >= 128 {
      VarintIs(n / 128);
      var s, t := Varint(n), Varint(n / 128);
      assert s[1..] == t;
      forall i | 0 <= i < |s| - 1 ensures s[i] >= 128 {
        if i > 0 { assert s[i] == t[i - 1]; }
      }
      assert s[|s| - 1] == t[|t| - 1];
      if |t| == 1 { assert t[0] % 128 == t[0] && Radix(t[1..]) == 0; }
    }
  }

  lemma {:induction false} RadixHead(s: seq<Byte>)
    requires s != []
    ensures Radix(s) == s[0] % 128 + 128 * Radix(s[1..]) && (|s| == 1 ==> Radix(s[1..]) == 0)
  {}

  lemma {:induction false} VarintUnique(s: seq<Byte>, n: nat)
    requires IsVarint(s, n)
    ensures s == Varint(n)
  {
    hide Radix;
    RadixHead(s);
    if |s| == 1 {
      assert s == [n];
    } else {
      var t := s[1..];
      assert t[|t| - 1] == s[|s| - 1];
      assert forall i :: 0 <= i < |t| - 1 ==> t[i] == s[i + 1];
      VarintUnique(t, Radix(t));
      VarintPositive(t);
      Digits(s[0] - 128, Radix(t));
      assert s == [s[0]] + t;
    }
  }

  lemma {:induction false} Digits(d: nat, q: nat)
    requires d < 128
    ensures (d + 128 * q) / 128 == q && (d + 128 * q) % 128 == d
  {}

  lemma {:induction false} VarintPositive(s: seq<Byte>)
    requires s != [] && 0 < s[|s| - 1] < 128
    ensures Radix(s) > 0
  {
    if |s| > 1 { VarintPositive(s[1..]); }
  }

  /** The encoding of an event is exactly the bytes of its wire format. */
  lemma {:induction false} EncodeIsWire(s: seq<Byte>, e: TraceEvent)
    ensures s == Encode(e) <==> Wire(s, e)
  {
    hide IsVarint, Varint;
    match e
    case TaskSwap(from, to, cycles) =>
      VarintIs(cycles);
      if s == Encode(e) { assert s[..3] == [0, from, to] && s[3..] == Varint(cycles); }
      if Wire(s, e) {
        VarintUnique(s[3..], cycles);
        assert s == s[..3] + s[3..];
      }
    case IpcTransfer(_, _) =>
    case FaultInterception(cause, pc) => PairIsWire(s, cause, pc);
  }

  lemma {:induction false} PairIsWire(s: seq<Byte>, cause: nat, pc: nat)
    ensures s == [2] + (Varint(cause) + Varint(pc)) <==> s != [] && s[0] == 2 && IsPair(s[1..], cause, pc)
  {
    hide IsVarint, Varint;
    var c, p := Varint(cause), Varint(pc);
    VarintIs(cause);
    VarintIs(pc);
    if s == [2] + (c + p) {
      var t := s[1..];
      assert t == c + p && t[..|c|] == c && t[|c|..] == p;
    }
    if s != [] && s[0] == 2 && IsPair(s[1..], cause, pc) {
      var t := s[1..];
      var k :| 0 <= k <= |t| && IsVarint(t[..k], cause) && IsVarint(t[k..], pc);
      VarintUnique(t[..k], cause);
      VarintUnique(t[k..], pc);
      assert t == t[..k] + t[k..] && s == [2] + t;
    }
  }

  /** The decoder reads the wire format: tag and fields from their own bytes, whatever follows. */
  lemma {:induction false} ParseWire(s: seq<Byte>, e: TraceEvent, rest: seq<Byte>)
    requires Wire(s, e)
    ensures Parse(s + rest) == Some((e, |s|))
  {
    hide Wire, Parse, Encode;
    EncodeIsWire(s, e);
    ParseEncode(e, rest);
  }

  // ---- One event ----

  lemma {:induction false} TagParses(tag: Byte, rest: seq<Byte>)
    requires tag < 128
    ensures ParseVarint([tag] + rest) == Some((tag, 1))
  {}

  lemma {:induction false} SwapParses(e: TraceEvent, tail: seq<Byte>)
    requires e.TaskSwap?
    ensures ParseVarint(tail).None? ==> Parse([0, e.from, e.to] + tail) == None
    ensures ParseVarint(tail).Some? ==>
      Parse([0, e.from, e.to] + tail)
      == Some((TaskSwap(e.from, e.to, ParseVarint(tail).value.0), 3 + ParseVarint(tail).value.1))
  {
    hide ParseVarint;
    var s := [0, e.from, e.to] + tail;
    assert s == [0] + s[1..] && s[3..] == tail;
    TagParses(0, s[1..]);
  }

  /** Two varints in a row. */
  function ParsePair(s: seq<Byte>): (r: Option<(nat, nat, nat)>) {
    match ParseVarint(s)
    case None => None
    case Some((c, m)) =>
      match ParseVarint(s[m..])
      case None => None
      case Some((p, q)) => Some((c, p, m + q))
  }

  lemma {:induction false} FaultParses(tail: seq<Byte>)
    ensures ParsePair(tail).None? ==> Parse([2] + tail) == None
    ensures ParsePair(tail).Some? ==>
      Parse([2] + tail)
      == Some((FaultInterception(ParsePair(tail).value.0, ParsePair(tail).value.1), 1 + ParsePair(tail).value.2))
  {
    hide ParseVarint;
    var s, first := [2] + tail, ParseVarint(tail);
    assert s[1..] == tail;
    if first.Some? { assert s[1 + first.value.1..] == tail[first.value.1..]; }
    TagParses(2, tail);
  }

  lemma {:induction false} ParseEncode(e: TraceEvent, rest: seq<Byte>)
    ensures Parse(Encode(e) + rest) == Some((e, |Encode(e)|))
  {
    hide ParseVarint, Parse, Varint;
    match e
    case TaskSwap(from, to, cycles) =>
      assert Encode(e) + rest == [0, from, to] + (Varint(cycles) + rest);
      SwapParses(e, Varint(cycles) + rest);
      VarintRoundTrip(cycles, rest);
    case IpcTransfer(endpoint, bytes) => TransferParses(endpoint, bytes, rest);
    case FaultInterception(cause, pc) =>
      var tail := Varint(cause) + (Varint(pc) + rest);
      assert Encode(e) + rest == [2] + tail;
      FaultParses(tail);
      VarintRoundTrip(cause, Varint(pc) + rest);
      assert tail[|Varint(cause)|..] == Varint(pc) + rest;
      VarintRoundTrip(pc, rest);
  }

  lemma {:induction false} TransferParses(endpoint: Byte, bytes: Byte, rest: seq<Byte>)
    ensures Parse([1, endpoint, bytes] + rest) == Some((IpcTransfer(endpoint, bytes), 3))
    ensures forall k :: 0 <= k < 3 ==> Parse([1, endpoint, bytes][..k]) == None
  {}

  /** A cut-off encoding is never mistaken for an event. */
  lemma {:induction false} ParsePrefix(e: TraceEvent, k: nat)
    requires k < |Encode(e)|
    ensures Parse(Encode(e)[..k]) == None
  {
    match e
    case TaskSwap(from, to, cycles) => SwapPrefix(e, k);
    case IpcTransfer(endpoint, bytes) => TransferParses(endpoint, bytes, []);
    case FaultInterception(cause, pc) => FaultPrefix(e, k);
  }

  lemma {:induction false} SwapPrefix(e: TraceEvent, k: nat)
    requires e.TaskSwap? && k < |Encode(e)|
    ensures Parse(Encode(e)[..k]) == None
  {
    if k >= 3 {
      assert Encode(e)[..k] == [0, e.from, e.to] + Varint(e.cycles)[..k - 3];
      SwapParses(e, Varint(e.cycles)[..k - 3]);
      VarintPrefix(e.cycles, k - 3);
    }
  }

  lemma {:induction false} FaultPrefix(e: TraceEvent, k: nat)
    requires e.FaultInterception? && k < |Encode(e)|
    ensures Parse(Encode(e)[..k]) == None
  {
    if k > 0 {
      hide ParsePair, Parse, Varint;
      var c, p := Varint(e.cause), Varint(e.pc);
      assert Encode(e)[..k] == [2] + (c + p)[..k - 1];
      FaultParses((c + p)[..k - 1]);
      PairPrefix(e.cause, e.pc, k - 1);
    }
  }

  lemma {:induction false} PairPrefix(a: nat, b: nat, k: nat)
    requires k < |Varint(a)| + |Varint(b)|
    ensures ParsePair((Varint(a) + Varint(b))[..k]) == None
  {
    hide ParseVarint, Varint;
    var c, p := Varint(a), Varint(b);
    var n, s := |c|, (c + p)[..k];
    if k >= n {
      assert s == c + p[..k - n];
      VarintRoundTrip(a, p[..k - n]);
      assert s[n..] == p[..k - n];
      VarintPrefix(b, k - n);
    } else {
      assert s == c[..k];
      VarintPrefix(a, k);
    }
  }

  /** No encoding is the beginning of another. */
  lemma {:induction false} PrefixFree(d: TraceEvent, e: TraceEvent)
    requires Encode(d) <= Encode(e)
    ensures d == e
  {
    var rest := Encode(e)[|Encode(d)|..];
    assert Encode(e) == Encode(d) + rest;
    ParseEncode(d, rest);
    ParseEncode(e, []);
    assert Encode(e) + [] == Encode(e);
  }

  // ---- A whole buffer ----

  /** Draining whole encodings followed by part of one emits exactly those events and leaves exactly that
      part. */
  lemma {:induction false} DrainExact(es: seq<TraceEvent>, e: TraceEvent, k: nat)
    requires k < |Encode(e)|
    ensures Drained(EncodeAll(es) + Encode(e)[..k]) == (es, Encode(e)[..k])
  {
    hide Parse, Encode;
    var p := Encode(e)[..k];
    if es == [] {
      assert EncodeAll(es) + p == p;
      ParsePrefix(e, k);
    } else {
      var s := EncodeAll(es) + p;
      assert s == Encode(es[0]) + (EncodeAll(es[1..]) + p);
      ParseEncode(es[0], EncodeAll(es[1..]) + p);
      assert s[|Encode(es[0])|..] == EncodeAll(es[1..]) + p;
      DrainExact(es[1..], e, k);
      assert [es[0]] + es[1..] == es;
    }
  }

  /** One byte of a varint. */
  lemma {:induction false} ParseHead(s: seq<Byte>)
    ensures ParseVarint(s) ==
      if s == [] then None
      else if s[0] < 128 then Some((s[0], 1))
      else
        match ParseVarint(s[1..])
        case None => None
        case Some((v, n)) => Some((s[0] - 128 + 128 * v, n + 1))
  {}

  // ---- The decoder object ----

  /** The decoder's step: value |= (byte & 0x7F) << shift. */
  function Accumulated(value: nat, shift: nat, byte: Byte): (r: nat) { BitOr(value, byte % 128 * Pow2(shift)) }

  /** What has been read so far, and `v` still to come. */
  function Weighed(value: nat, shift: nat, v: nat): (r: nat) { value + Pow2(shift) * v }

  lemma {:induction false} VarintStep(value: nat, shift: nat, byte: Byte, v: nat)
    requires value < Pow2(shift)
    ensures var r := Accumulated(value, shift, byte);
      && r < Pow2(shift + 7) && Weighed(value, shift, byte % 128) == r
      && Weighed(value, shift, byte % 128 + 128 * v) == Weighed(r, shift + 7, v)
  {
    hide BitOr, Pow2;
    var d: nat, p := byte % 128, Pow2(shift);
    OrDisjoint(d, shift, value);
    OrCommutes(value, d * p);
    SevenBits(shift);
    RoomFor(value, d, p);
    Distributes(p, d, v);
  }

  lemma {:induction false} SevenBits(shift: nat)
    ensures Pow2(shift + 7) == Pow2(shift) * 128
  {
    PowAdd(shift, 7);
    assert Pow2(7) == 128;
  }

  lemma {:induction false} RoomFor(value: nat, d: nat, p: nat)
    requires value < p && d < 128
    ensures value + d * p < p * 128
  {
    MulMono(d + 1, 128, p);
  }

  lemma {:induction false} Distributes(p: nat, d: nat, v: nat)
    ensures p * (d + 128 * v) == d * p + (p * 128) * v
  {
    assert p * (128 * v) == (p * 128) * v;
  }

  /** `count` bytes of `s` have been read into `value`. */
  ghost predicate Reading(s: seq<Byte>, count: nat, value: nat, shift: nat) {
    && count <= |s| && value < Pow2(shift)
    && match ParseVarint(s[count..])
       case None => ParseVarint(s) == None
       case Some((v, n)) => ParseVarint(s) == Some((Weighed(value, shift, v), count + n))
  }

  lemma {:induction false} ReadingStarts(s: seq<Byte>)
    ensures Reading(s, 0, 0, 0)
  {
    assert s[0..] == s && Pow2(0) == 1;
  }

  lemma {:induction false} ReadingEnds(s: seq<Byte>, value: nat, shift: nat)
    requires Reading(s, |s|, value, shift)
    ensures ParseVarint(s) == None
  {}

  lemma {:induction false} ReadingStep(s: seq<Byte>, count: nat, value: nat, shift: nat)
    requires Reading(s, count, value, shift) && count < |s|
    ensures var r := Accumulated(value, shift, s[count]);
      && (s[count] < 128 ==> ParseVarint(s) == Some((r, count + 1)))
      && (s[count] >= 128 ==> Reading(s, count + 1, r, shift + 7))
  {
    hide Accumulated, Weighed, Pow2, ParseVarint;
    ParseHead(s[count..]);
    assert s[count..][1..] == s[count + 1..] && s[count..][0] == s[count];
    var next := ParseVarint(s[count + 1..]);
    VarintStep(value, shift, s[count], if next.Some? then next.value.0 else 0);
  }

  /** A byte buffer with a read position. */
  class ByteStream {
    var data: seq<Byte>
    var pos: nat

    ghost predicate Valid() reads this { pos <= |data| }

    ghost function Unread(): (s: seq<Byte>)
      requires Valid()
      reads this
    {
      data[pos..]
    }

    constructor (data: seq<Byte>)
      ensures Valid() && this.data == data && Unread() == data
    {
      this.data := data;
      pos := 0;
    }

    method Read() returns (b: Option<Byte>)
      requires Valid()
      modifies `pos
      ensures Valid() && (b.None? <==> old(Unread()) == [])
      ensures b.None? ==> pos == old(pos)
      ensures b.Some? ==> pos == old(pos) + 1 && b.value == old(Unread())[0] && Unread() == old(Unread())[1..]
    {
      if pos == |data| {
        return None;
      }
      b := Some(data[pos]);
      pos := pos + 1;
    }

    /** Accumulates seven bits a byte; None stands for the end-of-file exception. */
    method ReadVarint() returns (r: Option<nat>)
      requires Valid()
      modifies `pos
      ensures Valid()
      ensures match ParseVarint(old(Unread()))
              case None => r == None
              case Some((v, n)) => r == Some(v) && pos == old(pos) + n
    {
      ghost var s := Unread();
      var value: nat, shift: nat := 0, 0;
      ghost var count := 0;
      hide Accumulated, Reading, ParseVarint;
      ReadingStarts(s);
      while true
        invariant Valid() && count <= |s| && pos == old(pos) + count && Unread() == s[count..]
        invariant Reading(s, count, value, shift)
        decreases |s| - count
      {
        var b := Read();
        if b.None? {
          ReadingEnds(s, value, shift);
          return None;
        }
        var byte := b.value;
        ReadingStep(s, count, value, shift);
        value := Accumulated(value, shift, byte);
        if byte / 128 == 0 {
          return Some(value);
        }
        shift := shift + 7;
        count := count + 1;
      }
    }

    /** None both where the source returns None and where it raises. */
    method ParseEvent() returns (r: Option<TraceEvent>)
      requires Valid()
      modifies `pos
      ensures Valid()
      ensures match Parse(old(Unread()))
              case None => r == None
              case Some((e, n)) => r == Some(e) && pos == old(pos) + n
    {
      hide ParseVarint;
      ghost var s := Unread();
      var tag := ReadVarint();
      if tag.None? {
        return None;
      }
      ghost var n := pos - old(pos);
      assert Unread() == s[n..];
      if tag.value == 0 || tag.value == 1 {
        var first := Read();
        if first.None? { return None; }
        var second := Read();
        if second.None? { return None; }
        assert Unread() == s[n + 2..];
        if tag.value == 1 {
          return Some(IpcTransfer(first.value, second.value));
        }
        var cycles := ReadVarint();
        if cycles.None? { return None; }
        return Some(TaskSwap(first.value, second.value, cycles.value));
      } else if tag.value == 2 {
        var cause := ReadVarint();
        if cause.None? { return None; }
        assert Unread() == s[pos - old(pos)..];
        var pc := ReadVarint();
        if pc.None? { return None; }
        return Some(FaultInterception(cause.value, pc.value));
      }
      return None;
    }

    /** The inner loop of tail_file: emits events until one does not parse, then keeps the unread bytes. */
    method Drain() returns (events: seq<TraceEvent>)
      requires Valid()
      modifies this
      ensures Valid() && pos == 0 && (events, data) == Drained(old(Unread()))
    {
      hide Parse;
      ghost var s := Unread();
      events := [];
      assert events + Drained(s).0 == Drained(s).0;
      while true
        invariant Valid() && data == old(data)
        invariant var (es, rest) := Drained(Unread()); Drained(s) == (events + es, rest)
        decreases |data| - pos
      {
        var mark := pos;
        ghost var u := Unread();
        var event := ParseEvent();
        if event.None? {
          assert Drained(u) == ([], u) && events + [] == events;
          pos := mark;
          data := data[pos..];
          pos := 0;
          assert data == u;
          return;
        }
        ghost var n := pos - mark;
        assert Unread() == u[n..];
        ghost var (es, rest) := Drained(u[n..]);
        assert events + ([event.value] + es) == (events + [event.value]) + es;
        events := events + [event.value];
      }
    }
  }
}
