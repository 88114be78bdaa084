/** The per-hart re-entrant spinlock (kernel/src/kernel/spinlock.rs), for any number of harts, as
    interleaved accesses to `owner` and `depth`. */
module SpinlockModel {
  /** Where a hart is inside a `lock` or `unlock` call: the access it makes next. */
  datatype Pc =
    | Out                  // in no call
    | LoadOwner            // lock: is it already mine?
    | BumpRead | BumpWrite(v: int)
    | Cas                  // lock: compare_exchange_weak(0, me)
    | SetDepth
    | DropRead | DropWrite(v: int)
    | Recheck              // unlock: has the depth reached zero?
    | ClearOwner

  /** `held[h]` counts the lock calls of hart `h` that have returned and are not yet undone. */
  datatype Lock = Lock(owner: nat, depth: int, pc: seq<Pc>, held: seq<nat>)

  datatype Action = Acquire | Release | Access(casSucceeds: bool)

  predicate Sized(s: Lock) { |s.pc| == |s.held| }

  predicate Hart(s: Lock, h: nat) { Sized(s) && h < |s.pc| }

  function At(s: Lock, h: nat, pc: Pc): (r: Lock)
    requires Hart(s, h)
  {
    s.(pc := s.pc[h := pc])
  }

  /** The next access of a hart that is inside a call. A weak CAS may fail although the lock is free. */
  function Move(s: Lock, h: nat, casSucceeds: bool): (r: Lock)
    requires Hart(s, h) && (s.pc[h].DropWrite? ==> s.held[h] > 0)
  {
    match s.pc[h]
    case Out => s
    case LoadOwner => At(s, h, if s.owner == h + 1 then BumpRead else Cas)
    case BumpRead => At(s, h, BumpWrite(s.depth))
    case BumpWrite(v) => At(s, h, Out).(depth := v + 1, held := s.held[h := s.held[h] + 1])
    case Cas => if s.owner == 0 && casSucceeds then At(s, h, SetDepth).(owner := h + 1) else s
    case SetDepth => At(s, h, Out).(depth := 1, held := s.held[h := s.held[h] + 1])
    case DropRead => At(s, h, DropWrite(s.depth))
    case DropWrite(v) => At(s, h, Recheck).(depth := v - 1, held := s.held[h := s.held[h] - 1])
    case Recheck => At(s, h, if s.depth == 0 then ClearOwner else Out)
    case ClearOwner => At(s, h, Out).(owner := 0)
  }

  /** A hart starts a call only outside one, and releases only what it acquired. */
  predicate Enabled(s: Lock, h: nat, a: Action) {
    Hart(s, h) &&
    match a
    case Acquire => s.pc[h].Out?
    case Release => s.pc[h].Out? && s.held[h] > 0
    case Access(_) => !s.pc[h].Out? && (s.pc[h].DropWrite? ==> s.held[h] > 0)
  }

  function Next(s: Lock, h: nat, a: Action): (r: Lock)
    requires Enabled(s, h, a)
  {
    match a
    case Acquire => At(s, h, LoadOwner)
    case Release => At(s, h, DropRead)
    case Access(ok) => Move(s, h, ok)
  }

  // ---- Invariant ----

  /** Hart `h` is the one recorded as owner. */
  predicate Has(s: Lock, h: nat)
    requires Hart(s, h)
  {
    s.held[h] > 0 || s.pc[h].SetDepth? || s.pc[h].Recheck? || s.pc[h].ClearOwner?
  }

  predicate HartOk(s: Lock, h: nat)
    requires Hart(s, h)
  {
    var n := s.held[h];
    && (s.owner == h + 1 <==> Has(s, h))
    && match s.pc[h]
       case Out | LoadOwner => n > 0 ==> s.depth == n
       case BumpRead => n > 0 && s.depth == n
       case BumpWrite(v) => n > 0 && s.depth == n && v == n
       case Cas => n == 0
       case SetDepth => n == 0 && s.depth == 0
       case DropRead => n > 0 && s.depth == n
       case DropWrite(v) => n > 0 && s.depth == n && v == n
       case Recheck => s.depth == n
       case ClearOwner => n == 0 && s.depth == 0
  }

  ghost predicate LockInv(s: Lock) {
    && Sized(s) && s.owner <= |s.pc| && (s.owner == 0 ==> s.depth == 0)
    && forall h :: 0 <= h < |s.pc| ==> HartOk(s, h)
  }

  function Unlocked(n: nat): (s: Lock) { Lock(0, 0, seq(n, _ => Out), seq(n, _ => 0)) }

  lemma {:induction false} UnlockedInv(n: nat)
    ensures LockInv(Unlocked(n))
  {}

  lemma {:induction false} NextKeeps(s: Lock, h: nat, a: Action)
    requires LockInv(s) && Enabled(s, h, a)
    ensures LockInv(Next(s, h, a)) && |Next(s, h, a).pc| == |s.pc|
  {
    var s' := Next(s, h, a);
    assert HartOk(s, h);
    forall g | 0 <= g < |s'.pc| ensures HartOk(s', g) {
      assert HartOk(s, g);
    }
  }

  // ---- Runs ----

  datatype Turn = Turn(hart: nat, action: Action)

  predicate TurnAt(ss: seq<Lock>, ts: seq<Turn>, i: nat)
    requires |ss| == |ts| + 1 && i < |ts|
  {
    Enabled(ss[i], ts[i].hart, ts[i].action) && ss[i + 1] == Next(ss[i], ts[i].hart, ts[i].action)
  }

  /** Any interleaving of calls and accesses of `n` harts, starting unlocked. */
  predicate Run(ss: seq<Lock>, ts: seq<Turn>, n: nat) {
    && |ss| == |ts| + 1 && ss[0] == Unlocked(n)
    && forall i :: 0 <= i < |ts| ==> TurnAt(ss, ts, i)
  }

  lemma {:induction false} RunInv(ss: seq<Lock>, ts: seq<Turn>, n: nat, i: nat)
    requires Run(ss, ts, n) && i <= |ts|
    ensures LockInv(ss[i]) && |ss[i].pc| == n
  {
    if i == 0 {
      UnlockedInv(n);
    } else {
      RunInv(ss, ts, n, i - 1);
      assert TurnAt(ss, ts, i - 1);
      NextKeeps(ss[i - 1], ts[i - 1].hart, ts[i - 1].action);
    }
  }

  /** At most one hart is inside, in every state of every run; it is the recorded owner, and between its
      calls the depth is the number of its outstanding acquisitions. */
  lemma {:induction false} MutualExclusion(ss: seq<Lock>, ts: seq<Turn>, n: nat, i: nat, g: nat, h: nat)
    requires Run(ss, ts, n) && i <= |ts| && g < n && h < n
    ensures var s := ss[i];
      && |s.pc| == |s.held| == n
      && (s.held[g] > 0 && s.held[h] > 0 ==> g == h)
      && (s.held[h] > 0 ==> s.owner == h + 1)
      && (s.pc[h].Out? && s.owner == h + 1 ==> s.depth == s.held[h] > 0)
  {
    RunInv(ss, ts, n, i);
    assert HartOk(ss[i], g) && HartOk(ss[i], h);
  }

  /** Ownership is cleared only by the owner's last unlock, and `depth` is written only by the owner. */
  lemma {:induction false} OwnershipClears(ss: seq<Lock>, ts: seq<Turn>, n: nat, i: nat)
    requires Run(ss, ts, n) && i < |ts| && ts[i].hart < |ss[i].held|
    ensures var s, s', h := ss[i], ss[i + 1], ts[i].hart;
      && (s.owner != 0 && s'.owner != s.owner ==>
            s'.owner == 0 && s.owner == h + 1 && s.held[h] == 0 && s.depth == 0)
      && (s'.depth != s.depth ==> s.owner == h + 1)
  {
    RunInv(ss, ts, n, i);
    assert TurnAt(ss, ts, i);
    assert HartOk(ss[i], ts[i].hart);
  }

  /** A returned `lock` call means the hart is inside; `unlock` undoes exactly one `lock`. */
  lemma {:induction false} CallReturns(ss: seq<Lock>, ts: seq<Turn>, n: nat, i: nat)
    requires Run(ss, ts, n) && i < |ts| && ts[i].hart < n
    ensures var s, s', h := ss[i], ss[i + 1], ts[i].hart;
      && |s.pc| == |s'.pc| == |s.held| == |s'.held| == n
      && (s'.held[h] == s.held[h] + 1 <==> s.pc[h].BumpWrite? || s.pc[h].SetDepth?)
      && (s.held[h] == s'.held[h] + 1 <==> s.pc[h].DropWrite?)
      && (forall g :: 0 <= g < n && g != h ==> s'.held[g] == s.held[g] && s'.pc[g] == s.pc[g])
  {
    RunInv(ss, ts, n, i);
    RunInv(ss, ts, n, i + 1);
    assert TurnAt(ss, ts, i);
    assert HartOk(ss[i], ts[i].hart);
  }

  // ---- One call, run to its end ----

  /** `k` accesses of hart `h` in a row, every CAS on a free lock succeeding. */
  function Moves(s: Lock, h: nat, k: nat): (r: Lock)
    requires LockInv(s) && Hart(s, h)
    ensures LockInv(r) && Hart(r, h)
    decreases k
  {
    if k == 0 then s
    else
      assert HartOk(s, h);
      if !s.pc[h].Out? then
        NextKeeps(s, h, Access(true));
        Moves(Move(s, h, true), h, k - 1)
      else s
  }

  /** A `lock` call that nobody disturbs ends with one more acquisition, an `unlock` call with one fewer,
      the lock free exactly when that was the last. */
  lemma {:induction false} CallEffects(s: Lock, h: nat)
    requires LockInv(s) && Hart(s, h) && s.pc[h].Out?
    ensures s.owner == 0 || s.owner == h + 1 ==>
      LockInv(Next(s, h, Acquire)) && Moves(Next(s, h, Acquire), h, 3) ==
        Lock(h + 1, if s.owner == 0 then 1 else s.depth + 1, s.pc, s.held[h := s.held[h] + 1])
    ensures s.held[h] > 0 ==>
      LockInv(Next(s, h, Release)) && Moves(Next(s, h, Release), h, 4) ==
        Lock(if s.depth == 1 then 0 else h + 1, s.depth - 1, s.pc, s.held[h := s.held[h] - 1])
  {
    assert HartOk(s, h);
    if s.owner == 0 || s.owner == h + 1 {
      NextKeeps(s, h, Acquire);
      AcquireEffect(s, h);
    }
    if s.held[h] > 0 {
      NextKeeps(s, h, Release);
      ReleaseEffect(s, h);
    }
  }

  lemma {:induction false} AcquireEffect(s: Lock, h: nat)
    requires LockInv(s) && Hart(s, h) && s.pc[h].Out? && LockInv(Next(s, h, Acquire))
    requires s.owner == 0 || s.owner == h + 1
    ensures Moves(Next(s, h, Acquire), h, 3) ==
      Lock(h + 1, if s.owner == 0 then 1 else s.depth + 1, s.pc, s.held[h := s.held[h] + 1])
  {
    assert HartOk(s, h);
    var s1 := Next(s, h, Acquire);
    NextKeeps(s1, h, Access(true));
    var s2 := Move(s1, h, true);
    assert HartOk(s2, h);
    NextKeeps(s2, h, Access(true));
    var s3 := Move(s2, h, true);
    assert HartOk(s3, h);
    NextKeeps(s3, h, Access(true));
    var s4 := Move(s3, h, true);
    assert s4.pc == s.pc;
    assert Moves(s1, h, 3) == Moves(s2, h, 2) == Moves(s3, h, 1) == Moves(s4, h, 0);
  }

  lemma {:induction false} ReleaseEffect(s: Lock, h: nat)
    requires LockInv(s) && Hart(s, h) && s.pc[h].Out? && s.held[h] > 0 && LockInv(Next(s, h, Release))
    ensures Moves(Next(s, h, Release), h, 4) ==
      Lock(if s.depth == 1 then 0 else h + 1, s.depth - 1, s.pc, s.held[h := s.held[h] - 1])
  {
    assert HartOk(s, h);
    var s1 := Next(s, h, Release);
    NextKeeps(s1, h, Access(true));
    var s2 := Move(s1, h, true);
    assert HartOk(s2, h);
    NextKeeps(s2, h, Access(true));
    var s3 := Move(s2, h, true);
    assert HartOk(s3, h);
    NextKeeps(s3, h, Access(true));
    var s4 := Move(s3, h, true);
    assert Moves(s1, h, 4) == Moves(s2, h, 3) == Moves(s3, h, 2) == Moves(s4, h, 1);
    if s.depth == 1 {
      assert HartOk(s4, h);
      NextKeeps(s4, h, Access(true));
      var s5 := Move(s4, h, true);
      assert s5.pc == s.pc;
      assert Moves(s4, h, 1) == Moves(s5, h, 0);
    } else {
      assert s4.pc == s.pc;
      assert Moves(s4, h, 1) == s4;
    }
  }

  /** What the other harts have made of the two cells before an attempt, and whether it fails spuriously. */
  datatype Attempt = Attempt(owner: nat, depth: int, spurious: bool)

  /** The attempt does not take the lock. */
  predicate Fails(a: Attempt) { a.owner != 0 || a.spurious }

  /** The two cells, and the calls as one hart executes them among the others. */
  class Spinlock {
    var owner: nat
    var depth: int

    constructor ()
      ensures owner == 0 && depth == 0
    {
      owner, depth := 0, 0;
    }

    /** compare_exchange_weak(0, me) after the other harts' latest accesses. */
    method CompareExchange(me: nat, a: Attempt) returns (ok: bool)
      modifies this
      ensures ok == !Fails(a) && depth == a.depth && owner == if ok then me else a.owner
    {
      owner, depth := a.owner, a.depth;
      ok := owner == 0 && !a.spurious;
      if ok {
        owner := me;
      }
    }

    /** The lock is already this hart's, or it spins through `attempts`, between which the other harts hold
        and release the lock as they like, until one succeeds. */
    method Lock(hartId: nat, attempts: seq<Attempt>)
      requires owner != hartId + 1 ==> attempts != [] && !Fails(attempts[|attempts| - 1])
      requires forall i :: 0 <= i < |attempts| - 1 ==> Fails(attempts[i])
      modifies this
      ensures owner == hartId + 1
      ensures depth == if old(owner) == hartId + 1 then old(depth) + 1 else 1
    {
      var me := hartId + 1;
      if owner == me {
        depth := depth + 1;
        return;
      }
      var i := 0;
      var ok := CompareExchange(me, attempts[0]);
      while !ok
        invariant i < |attempts| && ok == !Fails(attempts[i]) && (ok ==> owner == me)
        decreases |attempts| - i
      {
        i := i + 1;
        ok := CompareExchange(me, attempts[i]);
      }
      depth := 1;
    }

    method Unlock()
      requires owner != 0 && depth >= 1
      modifies this
      ensures depth == old(depth) - 1
      ensures owner == if old(depth) == 1 then 0 else old(owner)
    {
      depth := depth - 1;
      if depth == 0 {
        owner := 0;
      }
    }
  }
}
