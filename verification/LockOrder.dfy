/** SCHED_LOCK and MUTEX_LOCK together: every trap path takes them in one order and gives both back, so the
    harts never deadlock, unless a task is killed while it holds SCHED_LOCK in U-mode. Traps may also arrive
    inside a U-mode task's own lock call, except just before three of its accesses
    (kernel/src/trap.rs, kernel/src/main.rs, kernel/src/kernel/spinlock.rs). */
module LockOrder {
  import opened Tasks
  import opened SpinlockModel
  import K = KernelSteps

  datatype Which = Sched | Mutex
  datatype Op = Take(which: Which) | Give(which: Which)

  const OUTER: seq<Op> := [Take(Sched), Give(Sched)]
  const BOTH: seq<Op> := [Take(Sched), Take(Mutex), Give(Mutex), Give(Sched)]

  /** The lock calls one trap makes, in order: SCHED_LOCK around everything, MUTEX_LOCK inside it on every
      branch of the mutex, kill and fault paths. `found` says whether syscall 8 named a task. The kernel
      object is proved to make exactly these calls. */
  function TrapPath(mcause: Word, id: Word, found: bool): (ops: seq<Op>) {
    if mcause == K.TIMER_INTERRUPT || mcause == K.SOFTWARE_INTERRUPT then OUTER
    else if mcause == K.ECALL_UMODE then SyscallPath(id, found)
    else if K.Contained(mcause) then BOTH
    else []
  }

  function SyscallPath(id: Word, found: bool): (ops: seq<Op>) {
    if id == 3 || id == 4 || (id == 8 && found) then BOTH
    else if 1 <= id <= 8 then OUTER
    else []
  }

  /** Run from hold depths `ds` and `dm`: nothing is given that was not taken, MUTEX_LOCK is only touched
      while SCHED_LOCK is held, and in the end both are free. */
  predicate Ordered(ops: seq<Op>, ds: nat, dm: nat) {
    if ops == [] then ds == 0 && dm == 0
    else
      match ops[0]
      case Take(Sched) => Ordered(ops[1..], ds + 1, dm)
      case Take(Mutex) => ds > 0 && Ordered(ops[1..], ds, dm + 1)
      case Give(Sched) => ds > 0 && (ds == 1 ==> dm == 0) && Ordered(ops[1..], ds - 1, dm)
      case Give(Mutex) => ds > 0 && dm > 0 && Ordered(ops[1..], ds, dm - 1)
  }

  /** Every trap path keeps the order and returns both locks to their depth at entry, whatever the hart
      already holds and still has to do. */
  lemma {:induction false} TrapPathNests(mcause: Word, id: Word, found: bool, rest: seq<Op>, ds: nat, dm: nat)
    requires Ordered(rest, ds, dm) && (dm > 0 ==> ds > 0)
    ensures Ordered(TrapPath(mcause, id, found) + rest, ds, dm)
  {
    var p := TrapPath(mcause, id, found);
    var give := [Give(Sched)] + rest;
    assert give[1..] == rest;
    if p == [] {
      assert p + rest == rest;
    } else if |p| == 2 {
      assert (p + rest)[1..] == give;
      assert Ordered(give, ds + 1, dm);
    } else {
      var inner := [Take(Mutex), Give(Mutex)] + give;
      assert inner[1..] == [Give(Mutex)] + give;
      assert inner[1..][1..] == give;
      assert (p + rest)[1..] == inner;
      assert Ordered(give, ds + 1, dm);
      assert Ordered(inner[1..], ds + 1, dm + 1);
    }
  }

  // ---- The system: both locks, and the lock calls each hart still has to make ----

  /** A U-mode task's lock or unlock call: none, one in progress, or one that a trap interrupted just before
      access `pc`. */
  datatype UserCall = Idle | Active | Interrupted(pc: Pc)

  /** `parked[h]` counts the holds of SCHED_LOCK that U-mode tasks of hart `h` have asked for and will give
      back when they next run; `lost[h]` those whose task was killed first. */
  datatype Sys = Sys(sched: Lock, mutex: Lock, todo: seq<seq<Op>>, user: seq<UserCall>,
                     parked: seq<nat>, lost: seq<nat>)

  datatype Event =
    | Arrive(hart: nat, mcause: Word, id: Word, found: bool)      // a trap nests between two lock calls
    | Interrupt(hart: nat, mcause: Word, id: Word, found: bool)   // a trap arrives inside a U-mode call
    | Resume(hart: nat)                                           // the interrupted U-mode call goes on
    | Call(hart: nat)                                             // the hart starts its next lock call
    | Touch(hart: nat, which: Which, casSucceeds: bool)           // one access inside a call
    | UserTake(hart: nat)                                         // a U-mode task calls lock on SCHED_LOCK
    | UserGive(hart: nat)                                         // it calls unlock
    | Lose(hart: nat)                                             // it is killed while it holds SCHED_LOCK
    | Cut(hart: nat)                                              // it is killed inside an interrupted call

  predicate Sized2(s: Sys) {
    && Sized(s.sched) && Sized(s.mutex)
    && |s.sched.pc| == |s.mutex.pc| == |s.todo| == |s.user| == |s.parked| == |s.lost|
  }

  function LockOf(s: Sys, w: Which): (l: Lock) { if w.Sched? then s.sched else s.mutex }

  function WithLock(s: Sys, w: Which, l: Lock): (r: Sys) {
    if w.Sched? then s.(sched := l) else s.(mutex := l)
  }

  predicate Between(s: Sys, h: nat)
    requires Sized2(s) && h < |s.todo|
  {
    s.sched.pc[h].Out? && s.mutex.pc[h].Out?
  }

  function ActionOf(op: Op): (a: Action) { if op.Take? then Acquire else Release }

  /** What a call in progress at `pc` will add to the holds. */
  function Pending(pc: Pc): (d: int) {
    match pc
    case Out | Recheck | ClearOwner => 0
    case DropRead | DropWrite(_) => -1
    case _ => 1
  }

  function UserPending(u: UserCall): (d: int) { if u.Interrupted? then Pending(u.pc) else 0 }

  /** Holds that U-mode tasks have taken, rather than only asked for. */
  function Taken(s: Sys, h: nat): (n: int)
    requires Sized2(s) && h < |s.todo|
  {
    var asked: int := s.parked[h];
    if UserPending(s.user[h]) == 1 then asked - 1 else asked
  }

  predicate CanStep(s: Sys, e: Event) {
    Sized2(s) && e.hart < |s.todo| &&
    match e
    case Arrive(h, _, _, _) => Between(s, h)
    case Interrupt(h, _, _, _) => s.user[h].Active?
    case Resume(h) => Between(s, h) && s.todo[h] == [] && s.user[h].Interrupted?
    case Call(h) =>
      Between(s, h) && s.todo[h] != [] && Enabled(LockOf(s, s.todo[h][0].which), h, ActionOf(s.todo[h][0]))
    case Touch(h, w, ok) => Enabled(LockOf(s, w), h, Access(ok))
    case UserTake(h) => Between(s, h) && s.todo[h] == [] && s.user[h].Idle?
    case UserGive(h) =>
      Between(s, h) && s.todo[h] == [] && s.user[h].Idle? && s.parked[h] > 0 && s.sched.held[h] > 0
    case Lose(h) => Between(s, h) && s.parked[h] > 0 && Taken(s, h) > 0
    case Cut(h) => Between(s, h) && s.user[h].Interrupted? && (Pending(s.user[h].pc) == 1 ==> s.parked[h] > 0)
  }

  function After(s: Sys, e: Event): (r: Sys)
    requires CanStep(s, e)
  {
    match e
    case Arrive(h, mcause, id, found) =>
      s.(todo := s.todo[h := TrapPath(mcause, id, found) + s.todo[h]])
    case Interrupt(h, mcause, id, found) =>
      s.(sched := At(s.sched, h, Out), user := s.user[h := Interrupted(s.sched.pc[h])],
         todo := s.todo[h := TrapPath(mcause, id, found) + s.todo[h]])
    case Resume(h) => s.(sched := At(s.sched, h, s.user[h].pc), user := s.user[h := Active])
    case Call(h) =>
      var op := s.todo[h][0];
      WithLock(s, op.which, Next(LockOf(s, op.which), h, ActionOf(op))).(todo := s.todo[h := s.todo[h][1..]])
    case Touch(h, w, ok) => Returned(WithLock(s, w, Next(LockOf(s, w), h, Access(ok))), h)
    case UserTake(h) =>
      s.(sched := Next(s.sched, h, Acquire), user := s.user[h := Active], parked := s.parked[h := s.parked[h] + 1])
    case UserGive(h) =>
      s.(sched := Next(s.sched, h, Release), user := s.user[h := Active], parked := s.parked[h := s.parked[h] - 1])
    case Lose(h) => s.(parked := s.parked[h := s.parked[h] - 1], lost := s.lost[h := s.lost[h] + 1])
    case Cut(h) =>
      var d, s1 := Pending(s.user[h].pc), s.(user := s.user[h := Idle]);
      if d == 1 then s1.(parked := s.parked[h := s.parked[h] - 1])
      else if d == -1 then s1.(lost := s.lost[h := s.lost[h] + 1])
      else s1
  }

  /** The U-mode call is over once its last access is made. */
  function Returned(s: Sys, h: nat): (r: Sys)
    requires h < |s.user| && h < |s.sched.pc|
  {
    if s.user[h].Active? && s.sched.pc[h].Out? then s.(user := s.user[h := Idle]) else s
  }

  /** A trap may arrive here: not between the compare-and-swap and the first write of the depth, nor between
      the write of depth 0 and the clearing of the owner. */
  predicate SafeAt(s: Sys, h: nat)
    requires Sized2(s) && h < |s.todo|
  {
    var pc := s.sched.pc[h];
    !pc.SetDepth? && !pc.ClearOwner? && !(pc.Recheck? && s.sched.depth == 0)
  }

  predicate SafeStep(s: Sys, e: Event)
    requires CanStep(s, e)
  {
    e.Interrupt? ==> SafeAt(s, e.hart)
  }

  // ---- Invariant ----

  /** The hold depth once the call in progress has returned. */
  function Settled(l: Lock, h: nat): (d: int)
    requires Hart(l, h)
  {
    l.held[h] + Pending(l.pc[h])
  }

  /** The part of the hold depth that belongs to traps in progress. */
  function TrapDepth(s: Sys, h: nat): (d: int)
    requires Sized2(s) && h < |s.todo|
  {
    Settled(s.sched, h) + UserPending(s.user[h]) - s.parked[h] - s.lost[h]
  }

  /** The U-mode call on hart `h`. An interrupted one finds, when the traps are done, just the holds it has
      read or not yet read. */
  predicate UserOk(s: Sys, h: nat)
    requires Sized2(s) && h < |s.todo|
  {
    var asked, others: int := s.parked[h], s.parked[h] + s.lost[h];
    match s.user[h]
    case Idle => true
    case Active =>
      && s.todo[h] == [] && !s.sched.pc[h].Out? && s.mutex.pc[h].Out?
      && (Pending(s.sched.pc[h]) == 1 ==> asked > 0)
    case Interrupted(pc) =>
      match pc
      case LoadOwner => asked > 0
      case BumpRead => asked > 0 && others > 1
      case BumpWrite(v) => asked > 0 && v == others - 1 > 0
      case Cas => asked == others == 1
      case DropRead => true
      case DropWrite(v) => v == others + 1
      case Recheck => others > 0
      case _ => false
  }

  predicate HartOrdered(s: Sys, h: nat)
    requires Sized2(s) && h < |s.todo|
  {
    var ds, dm := TrapDepth(s, h), Settled(s.mutex, h);
    && (s.sched.pc[h].Out? || s.mutex.pc[h].Out?)
    && ds >= 0 && dm >= 0 && s.lost[h] <= s.sched.held[h] && Ordered(s.todo[h], ds, dm) && UserOk(s, h)
    && (s.mutex.held[h] > 0 || !s.mutex.pc[h].Out? ==> s.sched.held[h] > 0 && ds > 0)
  }

  ghost predicate SysInv(s: Sys) {
    && Sized2(s) && LockInv(s.sched) && LockInv(s.mutex)
    && forall h :: 0 <= h < |s.todo| ==> HartOrdered(s, h)
  }

  /** Nothing of hart `g` has changed. */
  predicate SameHart(s: Sys, s': Sys, g: nat)
    requires Sized2(s) && Sized2(s') && g < |s.todo| == |s'.todo|
  {
    && s'.sched.pc[g] == s.sched.pc[g] && s'.sched.held[g] == s.sched.held[g]
    && s'.mutex.pc[g] == s.mutex.pc[g] && s'.mutex.held[g] == s.mutex.held[g]
    && s'.todo[g] == s.todo[g] && s'.user[g] == s.user[g] && s'.parked[g] == s.parked[g] && s'.lost[g] == s.lost[g]
  }

  /** An event of hart `h` touches no other hart. */
  lemma {:induction false} OthersSame(s: Sys, e: Event, g: nat)
    requires CanStep(s, e) && g < |s.todo| && g != e.hart
    ensures var s' := After(s, e); Sized2(s') && |s'.todo| == |s.todo| && SameHart(s, s', g)
  {
    hide TrapPath, Next, Pending;
    if e.Call? {
      NextOthers(LockOf(s, s.todo[e.hart][0].which), e.hart, ActionOf(s.todo[e.hart][0]));
    } else if e.Touch? {
      TouchSame(s, e, g);
    } else if e.UserTake? || e.UserGive? {
      NextOthers(s.sched, e.hart, if e.UserTake? then Acquire else Release);
    }
  }

  lemma {:induction false} TouchSame(s: Sys, e: Event, g: nat)
    requires CanStep(s, e) && e.Touch? && g < |s.todo| && g != e.hart
    ensures var s' := After(s, e); Sized2(s') && |s'.todo| == |s.todo| && SameHart(s, s', g)
  {
    hide Next;
    NextOthers(LockOf(s, e.which), e.hart, Access(e.casSucceeds));
  }

  lemma {:induction false} NextOthers(l: Lock, h: nat, a: Action)
    requires Enabled(l, h, a)
    ensures var l' := Next(l, h, a);
      && Sized(l') && |l'.pc| == |l.pc|
      && forall g :: 0 <= g < |l.pc| && g != h ==> l'.pc[g] == l.pc[g] && l'.held[g] == l.held[g]
  {}

  lemma {:induction false} OthersOrdered(s: Sys, e: Event)
    requires SysInv(s) && CanStep(s, e) && Sized2(After(s, e)) && |After(s, e).todo| == |s.todo|
    requires HartOrdered(After(s, e), e.hart)
    ensures forall g :: 0 <= g < |s.todo| ==> HartOrdered(After(s, e), g)
  {
    hide LockInv, After, CanStep, Ordered;
    var s' := After(s, e);
    forall g | 0 <= g < |s.todo| && g != e.hart ensures HartOrdered(s', g) {
      OthersSame(s, e, g);
      assert HartOrdered(s, g) && SameHart(s, s', g);
    }
  }

  lemma {:induction false} ArriveKeeps(s: Sys, e: Event)
    requires SysInv(s) && CanStep(s, e) && e.Arrive?
    ensures SysInv(After(s, e)) && |After(s, e).todo| == |s.todo|
  {
    var s', h := After(s, e), e.hart;
    assert HartOrdered(s, h);
    TrapPathNests(e.mcause, e.id, e.found, s.todo[h], TrapDepth(s, h), Settled(s.mutex, h));
    OthersOrdered(s, e);
  }

  lemma {:induction false} CallKeeps(s: Sys, e: Event)
    requires SysInv(s) && CanStep(s, e) && e.Call?
    ensures SysInv(After(s, e)) && |After(s, e).todo| == |s.todo|
  {
    hide LockInv;
    var s', h, op := After(s, e), e.hart, s.todo[e.hart][0];
    NextKeeps(LockOf(s, op.which), h, ActionOf(op));
    assert HartOrdered(s, h);
    OthersOrdered(s, e);
  }

  lemma {:induction false} TouchKeeps(s: Sys, e: Event)
    requires SysInv(s) && CanStep(s, e) && e.Touch?
    ensures SysInv(After(s, e)) && |After(s, e).todo| == |s.todo|
  {
    hide Ordered;
    var s', h, l := After(s, e), e.hart, LockOf(s, e.which);
    NextKeeps(l, h, Access(e.casSucceeds));
    TouchSettles(l, h, e.casSucceeds);
    assert HartOk(l, h) && HartOrdered(s, h);
    OthersOrdered(s, e);
  }

  /** An access changes no hold depth a call has promised. */
  lemma {:induction false} TouchSettles(l: Lock, h: nat, ok: bool)
    requires LockInv(l) && Enabled(l, h, Access(ok))
    ensures var l' := Next(l, h, Access(ok));
      && |l'.pc| == |l.pc| && Hart(l', h) && Settled(l', h) == Settled(l, h)
      && (forall g :: 0 <= g < |l.pc| && g != h ==> l'.pc[g] == l.pc[g] && l'.held[g] == l.held[g])
      && (Settled(l, h) > 0 && l.held[h] > 0 ==> l'.held[h] > 0)
  {
    assert HartOk(l, h);
  }

  lemma {:induction false} UserKeeps(s: Sys, e: Event)
    requires SysInv(s) && CanStep(s, e) && (e.UserTake? || e.UserGive? || e.Lose? || e.Cut?)
    ensures SysInv(After(s, e)) && |After(s, e).todo| == |s.todo|
  {
    hide LockInv;
    var s', h := After(s, e), e.hart;
    if e.UserTake? || e.UserGive? { NextKeeps(s.sched, h, if e.UserTake? then Acquire else Release); }
    assert HartOrdered(s, h);
    OthersOrdered(s, e);
  }

  /** Away from the three accesses the interrupted call leaves the lock as it is between two calls. */
  lemma {:induction false} InterruptKeeps(s: Sys, e: Event)
    requires SysInv(s) && CanStep(s, e) && e.Interrupt? && SafeAt(s, e.hart)
    ensures SysInv(After(s, e)) && |After(s, e).todo| == |s.todo|
  {
    var s', h := After(s, e), e.hart;
    assert HartOrdered(s, h) && HartOk(s.sched, h);
    TrapPathNests(e.mcause, e.id, e.found, [], 0, 0);
    OthersOrdered(s, e);
    forall g | 0 <= g < |s'.todo| ensures HartOk(s'.sched, g) {
      assert HartOk(s.sched, g);
    }
  }

  lemma {:induction false} ResumeKeeps(s: Sys, e: Event)
    requires SysInv(s) && CanStep(s, e) && e.Resume?
    ensures SysInv(After(s, e)) && |After(s, e).todo| == |s.todo|
  {
    var s', h := After(s, e), e.hart;
    assert HartOrdered(s, h) && HartOk(s.sched, h);
    OthersOrdered(s, e);
    forall g | 0 <= g < |s'.todo| ensures HartOk(s'.sched, g) {
      assert HartOk(s.sched, g);
    }
  }

  lemma {:induction false} AfterKeeps(s: Sys, e: Event)
    requires SysInv(s) && CanStep(s, e) && SafeStep(s, e)
    ensures SysInv(After(s, e)) && |After(s, e).todo| == |s.todo|
  {
    match e
    case Arrive(_, _, _, _) => ArriveKeeps(s, e);
    case Interrupt(_, _, _, _) => InterruptKeeps(s, e);
    case Resume(_) => ResumeKeeps(s, e);
    case Call(_) => CallKeeps(s, e);
    case Touch(_, _, _) => TouchKeeps(s, e);
    case _ => UserKeeps(s, e);
  }

  function Start(n: nat): (s: Sys) {
    Sys(Unlocked(n), Unlocked(n), seq(n, _ => []), seq(n, _ => Idle), seq(n, _ => 0), seq(n, _ => 0))
  }

  predicate StepAt(ss: seq<Sys>, es: seq<Event>, i: nat)
    requires |ss| == |es| + 1 && i < |es|
  {
    CanStep(ss[i], es[i]) && ss[i + 1] == After(ss[i], es[i])
  }

  /** Any interleaving of traps, U-mode lock calls and the accesses both make. */
  predicate Path(ss: seq<Sys>, es: seq<Event>) {
    && |ss| == |es| + 1
    && forall i :: 0 <= i < |es| ==> StepAt(ss, es, i)
  }

  /** From event `from` on, traps interrupt U-mode lock calls only where they may. */
  predicate Careful(ss: seq<Sys>, es: seq<Event>, from: nat)
    requires Path(ss, es)
  {
    forall i :: from <= i < |es| && StepAt(ss, es, i) ==> SafeStep(ss[i], es[i])
  }

  /** Such an interleaving on `n` harts, both locks free at first. */
  predicate Run2(ss: seq<Sys>, es: seq<Event>, n: nat) {
    Path(ss, es) && ss[0] == Start(n) && Careful(ss, es, 0)
  }

  lemma {:induction false} PathInv(ss: seq<Sys>, es: seq<Event>, i: nat)
    requires Path(ss, es) && SysInv(ss[0]) && Careful(ss, es, 0) && i <= |es|
    ensures SysInv(ss[i]) && |ss[i].todo| == |ss[0].todo|
  {
    if i > 0 {
      PathInv(ss, es, i - 1);
      assert StepAt(ss, es, i - 1);
      AfterKeeps(ss[i - 1], es[i - 1]);
    }
  }

  lemma {:induction false} Run2Inv(ss: seq<Sys>, es: seq<Event>, n: nat, i: nat)
    requires Run2(ss, es, n) && i <= |es|
    ensures SysInv(ss[i]) && |ss[i].todo| == n
  {
    UnlockedInv(n);
    PathInv(ss, es, i);
  }

  // ---- Deadlock freedom ----

  /** Hart `h` spins on a lock that somebody owns. */
  predicate Blocked(s: Sys, h: nat)
    requires Sized2(s) && h < |s.todo|
  {
    (s.sched.pc[h].Cas? && s.sched.owner != 0) || (s.mutex.pc[h].Cas? && s.mutex.owner != 0)
  }

  /** The hart is in a lock call, has one to make or to go on with, or runs a task that has yet to give
      SCHED_LOCK back. */
  predicate Busy(s: Sys, h: nat)
    requires Sized2(s) && h < |s.todo|
  {
    !Between(s, h) || s.todo[h] != [] || s.user[h].Interrupted? || s.parked[h] > 0
  }

  lemma {:induction false} NobodyHas(l: Lock)
    requires LockInv(l) && forall g :: 0 <= g < |l.pc| ==> !Has(l, g)
    ensures l.owner == 0
  {
    assert l.owner > 0 ==> HartOk(l, l.owner - 1);
  }

  /** While one hart is inside SCHED_LOCK no other touches MUTEX_LOCK. */
  lemma {:induction false} OthersOut(s: Sys, g: nat, h: nat)
    requires SysInv(s) && g < |s.todo| && h < |s.todo| && g != h && s.sched.held[h] > 0
    ensures s.mutex.held[g] == 0 && s.mutex.pc[g].Out?
  {
    assert HartOk(s.sched, g) && HartOk(s.sched, h) && HartOrdered(s, g);
  }

  lemma {:induction false} MutexUncontended(s: Sys, h: nat)
    requires SysInv(s) && h < |s.todo| && s.mutex.pc[h].Cas?
    ensures s.mutex.owner == 0
  {
    assert HartOrdered(s, h);
    assert HartOk(s.mutex, h);
    forall g | 0 <= g < |s.todo| ensures !Has(s.mutex, g) {
      if g != h { OthersOut(s, g, h); }
    }
    NobodyHas(s.mutex);
  }

  lemma {:induction false} OwnerMoves(s: Sys)
    requires SysInv(s) && s.sched.owner != 0
    ensures var g := s.sched.owner - 1; 0 <= g < |s.todo| && !Blocked(s, g) && (Busy(s, g) || s.lost[g] > 0)
  {
    var g := s.sched.owner - 1;
    assert HartOk(s.sched, g) && HartOk(s.mutex, g) && HartOrdered(s, g);
    if s.mutex.pc[g].Cas? { MutexUncontended(s, g); }
  }

  /** In every state of every run: nobody ever waits for MUTEX_LOCK, and whoever waits for SCHED_LOCK waits
      for a hart that can move and has yet to release it, unless a task was killed there while it held the
      lock in U-mode. */
  lemma {:induction false} NoDeadlock(ss: seq<Sys>, es: seq<Event>, n: nat, i: nat, h: nat)
    requires Run2(ss, es, n) && i <= |es| && h < n
    ensures var s := ss[i];
      && Sized2(s) && |s.todo| == n
      && (s.mutex.pc[h].Cas? ==> s.mutex.owner == 0)
      && (Blocked(s, h) ==>
            var g := s.sched.owner - 1; 0 <= g < n && g != h && !Blocked(s, g) && (Busy(s, g) || s.lost[g] > 0))
  {
    hide StepAt, SafeStep, Start, LockInv, HartOrdered;
    Run2Inv(ss, es, n, i);
    if ss[i].mutex.pc[h].Cas? { MutexUncontended(ss[i], h); }
    if ss[i].sched.owner != 0 { OwnerMoves(ss[i]); }
  }

  /** No two harts are ever inside their trap bodies together, so each body runs as one step: in every run in
      which no trap interrupts a U-mode lock call at one of the three accesses that SafeAt names. */
  lemma {:induction false} OneTrapAtATime(ss: seq<Sys>, es: seq<Event>, n: nat, i: nat, g: nat, h: nat)
    requires Run2(ss, es, n) && i <= |es| && g < n && h < n
    ensures var s := ss[i];
      && |s.sched.held| == |s.mutex.held| == n
      && (s.sched.held[g] > 0 && s.sched.held[h] > 0 ==> g == h)
      && (s.mutex.held[h] > 0 ==> s.sched.held[h] > 0)
  {
    Run2Inv(ss, es, n, i);
    assert HartOk(ss[i].sched, g) && HartOk(ss[i].sched, h) && HartOrdered(ss[i], h);
  }

  // ---- Every hart finishes ----

  function CallWork(pc: Pc): (w: nat) {
    match pc
    case Out => 0
    case LoadOwner | DropRead => 4
    case DropWrite(_) => 3
    case BumpRead | Cas | Recheck => 2
    case BumpWrite(_) | SetDepth | ClearOwner => 1
  }

  /** Accesses the first `n` harts still have to make. */
  function Work(s: Sys, n: nat): (w: nat)
    requires Sized2(s) && n <= |s.todo|
  {
    if n == 0 then 0 else Work(s, n - 1) + HartWork(s, n - 1)
  }

  function HartWork(s: Sys, h: nat): (w: nat)
    requires Sized2(s) && h < |s.todo|
  {
    CallWork(s.sched.pc[h]) + CallWork(s.mutex.pc[h]) + 5 * |s.todo[h]| + 5 * s.parked[h] + UserWork(s.user[h])
  }

  function UserWork(u: UserCall): (w: nat) { if u.Interrupted? then CallWork(u.pc) + 1 else 0 }

  lemma {:induction false} WorkChanges(s: Sys, s': Sys, h: nat, n: nat)
    requires Sized2(s) && Sized2(s') && h < |s.todo| == |s'.todo| && n <= |s.todo|
    requires forall g :: 0 <= g < |s.todo| && g != h ==> HartWork(s', g) == HartWork(s, g)
    ensures Work(s', n) == if h < n then Work(s, n) + HartWork(s', h) - HartWork(s, h) else Work(s, n)
  {
    if n > 0 {
      WorkChanges(s, s', h, n - 1);
      if n - 1 != h { assert HartWork(s', n - 1) == HartWork(s, n - 1); }
    }
  }

  /** A CAS that does not take the lock. */
  predicate Spins(s: Sys, e: Event)
    requires CanStep(s, e)
  {
    e.Touch? && LockOf(s, e.which).pc[e.hart].Cas? && (LockOf(s, e.which).owner != 0 || !e.casSucceeds)
  }

  lemma {:induction false} MoveWorks(l: Lock, h: nat, a: Action)
    requires Enabled(l, h, a) && (a.Access? && l.pc[h].Cas? ==> l.owner == 0 && a.casSucceeds)
    ensures var l' := Next(l, h, a);
      && Sized(l') && |l'.pc| == |l.pc|
      && CallWork(l'.pc[h]) < (if a.Access? then CallWork(l.pc[h]) else 5)
      && (forall g :: 0 <= g < |l.pc| && g != h ==> l'.pc[g] == l.pc[g])
  {}

  /** The event finishes something already begun. */
  predicate Finishes(s: Sys, e: Event)
    requires CanStep(s, e)
  {
    (e.Call? || e.Touch? || e.UserGive? || e.Resume?) && !Spins(s, e)
  }

  /** Every such step leaves less work. */
  lemma {:induction false} StepWorks(s: Sys, e: Event)
    requires CanStep(s, e) && Finishes(s, e)
    ensures |After(s, e).todo| == |s.todo| && Sized2(After(s, e))
    ensures Work(After(s, e), |s.todo|) < Work(s, |s.todo|)
  {
    hide Next, CallWork;
    var s', h := After(s, e), e.hart;
    if e.Call? {
      MoveWorks(LockOf(s, s.todo[h][0].which), h, ActionOf(s.todo[h][0]));
    } else if e.Touch? {
      MoveWorks(LockOf(s, e.which), h, Access(e.casSucceeds));
    } else if e.UserGive? {
      MoveWorks(s.sched, h, Release);
    }
    OutIsDone();
    assert forall g :: 0 <= g < |s.todo| && g != h ==> HartWork(s', g) == HartWork(s, g);
    assert HartWork(s', h) < HartWork(s, h);
    WorkChanges(s, s', h, |s.todo|);
  }

  lemma {:induction false} OutIsDone()
    ensures CallWork(Out) == 0
  {}

  lemma {:induction false} WorkLeft(s: Sys, n: nat) returns (h: nat)
    requires Sized2(s) && n <= |s.todo| && Work(s, n) > 0
    ensures h < n && Busy(s, h)
  {
    if HartWork(s, n - 1) > 0 {
      h := n - 1;
    } else {
      h := WorkLeft(s, n - 1);
    }
  }

  lemma {:induction false} BusyWorks(s: Sys, h: nat) returns (e: Event)
    requires SysInv(s) && h < |s.todo| && Busy(s, h) && !Blocked(s, h)
    ensures CanStep(s, e) && Finishes(s, e)
  {
    assert HartOk(s.sched, h) && HartOk(s.mutex, h) && HartOrdered(s, h);
    if !s.sched.pc[h].Out? {
      e := Touch(h, Sched, true);
    } else if !s.mutex.pc[h].Out? {
      e := Touch(h, Mutex, true);
    } else if s.todo[h] != [] {
      e := Call(h);
    } else if s.user[h].Interrupted? {
      e := Resume(h);
    } else {
      e := UserGive(h);
    }
  }

  /** The work an event brings. */
  function Brings(e: Event): (w: nat) {
    match e
    case Arrive(_, mcause, id, found) => 5 * |TrapPath(mcause, id, found)|
    case Interrupt(_, mcause, id, found) => 5 * |TrapPath(mcause, id, found)| + 1
    case UserTake(_) => 9
    case _ => 0
  }

  /** The work events i, ..., j-1 bring. */
  function Brought(es: seq<Event>, i: nat, j: nat): (w: nat)
    requires i <= j <= |es|
    decreases j - i
  {
    if i == j then 0 else Brought(es, i, j - 1) + Brings(es[j - 1])
  }

  /** How many of them finish something. */
  function Finished(ss: seq<Sys>, es: seq<Event>, i: nat, j: nat): (w: nat)
    requires Path(ss, es) && i <= j <= |es|
    decreases j - i
  {
    if i == j then 0
    else
      assert StepAt(ss, es, j - 1);
      Finished(ss, es, i, j - 1) + if Finishes(ss[j - 1], es[j - 1]) then 1 else 0
  }

  lemma {:induction false} StepBounded(s: Sys, e: Event)
    requires CanStep(s, e)
    ensures var s', n := After(s, e), |s.todo|;
      && Sized2(s') && |s'.todo| == n
      && Work(s', n) + (if Finishes(s, e) then 1 else 0) <= Work(s, n) + Brings(e)
  {
    hide TrapPath, Work, Next, CallWork;
    if Finishes(s, e) {
      StepWorks(s, e);
    } else {
      var s', h := After(s, e), e.hart;
      IdleWorks(s, e);
      forall g | 0 <= g < |s.todo| && g != h ensures HartWork(s', g) == HartWork(s, g) {
        OthersSame(s, e, g);
      }
      WorkChanges(s, s', h, |s.todo|);
    }
  }

  lemma {:induction false} IdleWorks(s: Sys, e: Event)
    requires CanStep(s, e) && !Finishes(s, e)
    ensures var s' := After(s, e);
      Sized2(s') && |s'.todo| == |s.todo| && HartWork(s', e.hart) <= HartWork(s, e.hart) + Brings(e)
  {
    hide TrapPath;
  }

  /** Over any stretch of any run, whatever order the harts move in: the steps that finish something number
      at most the work there was at its start and the work that arrived since, less what is left. A hart
      only spins otherwise, so traps that have arrived complete unless the scheduler starves them. */
  lemma {:induction false} FinishingBounded(ss: seq<Sys>, es: seq<Event>, i: nat, j: nat, n: nat)
    requires Path(ss, es) && i <= j <= |es| && Sized2(ss[i]) && |ss[i].todo| == n
    ensures Sized2(ss[j]) && |ss[j].todo| == n
    ensures Finished(ss, es, i, j) + Work(ss[j], n) <= Work(ss[i], n) + Brought(es, i, j)
    decreases j
  {
    hide CanStep, After, Work, Brings, Finishes;
    if i < j {
      FinishingBounded(ss, es, i, j - 1, n);
      assert StepAt(ss, es, j - 1);
      StepBounded(ss[j - 1], es[j - 1]);
    }
  }

  /** As long as no task was killed while it held SCHED_LOCK in U-mode: while work is left some hart can take
      a step that finishes some of it, and when none is left both locks are free. */
  lemma {:induction false} TrapsComplete(ss: seq<Sys>, es: seq<Event>, n: nat, i: nat) returns (e: Event)
    requires Run2(ss, es, n) && i <= |es| && forall h :: 0 <= h < |ss[i].lost| ==> ss[i].lost[h] == 0
    ensures var s := ss[i];
      && Sized2(s) && |s.todo| == n
      && (Work(s, n) > 0 ==>
            && CanStep(s, e) && Finishes(s, e)
            && Sized2(After(s, e)) && |After(s, e).todo| == n && Work(After(s, e), n) < Work(s, n))
      && (Work(s, n) == 0 ==> s.sched.owner == 0 && s.mutex.owner == 0)
  {
    Run2Inv(ss, es, n, i);
    var s := ss[i];
    e := Call(0);
    if Work(s, n) > 0 {
      var h := WorkLeft(s, n);
      if Blocked(s, h) {
        assert s.mutex.pc[h].Cas? ==> s.mutex.owner == 0 by {
          if s.mutex.pc[h].Cas? { MutexUncontended(s, h); }
        }
        OwnerMoves(s);
        h := s.sched.owner - 1;
      }
      e := BusyWorks(s, h);
      StepWorks(s, e);
    } else {
      IdleFree(s, n);
    }
  }

  lemma {:induction false} NoWork(s: Sys, n: nat, h: nat)
    requires Sized2(s) && h < n <= |s.todo| && Work(s, n) == 0
    ensures !Busy(s, h)
  {
    if h < n - 1 { NoWork(s, n - 1, h); }
  }

  lemma {:induction false} IdleFree(s: Sys, n: nat)
    requires SysInv(s) && n == |s.todo| && Work(s, n) == 0 && forall h :: 0 <= h < |s.lost| ==> s.lost[h] == 0
    ensures s.sched.owner == 0 && s.mutex.owner == 0
  {
    forall g | 0 <= g < n ensures !Has(s.sched, g) && !Has(s.mutex, g) {
      NoWork(s, n, g);
      assert HartOrdered(s, g);
    }
    NobodyHas(s.sched);
    NobodyHas(s.mutex);
  }

  // ---- A lost hold ----

  /** A hart with a lost hold owns SCHED_LOCK. */
  lemma {:induction false} LostHolds(s: Sys, g: nat)
    requires SysInv(s) && g < |s.todo| && s.lost[g] > 0
    ensures s.sched.owner == g + 1
  {
    assert HartOrdered(s, g) && HartOk(s.sched, g);
  }

  lemma {:induction false} LostStays(s: Sys, e: Event, g: nat)
    requires CanStep(s, e) && g < |s.lost|
    ensures |After(s, e).lost| == |s.lost| && After(s, e).lost[g] >= s.lost[g]
  {
    hide Next;
  }

  lemma {:induction false} LostOnwards(ss: seq<Sys>, es: seq<Event>, n: nat, i: nat, j: nat, g: nat)
    requires Path(ss, es) && i <= j <= |es| && g < n && |ss[i].lost| == n && ss[i].lost[g] > 0
    ensures |ss[j].lost| == n && ss[j].lost[g] > 0
    decreases j
  {
    hide After, CanStep;
    if i < j {
      LostOnwards(ss, es, n, i, j - 1, g);
      assert StepAt(ss, es, j - 1);
      LostStays(ss[j - 1], es[j - 1], g);
    }
  }

  /** The converse: from the moment a task of hart `g` is killed while it holds SCHED_LOCK in U-mode, `g` owns
      the lock in every later state, and no other hart ever gets in. */
  lemma {:induction false} LostForEver(ss: seq<Sys>, es: seq<Event>, n: nat, i: nat, j: nat, g: nat, h: nat)
    requires Run2(ss, es, n) && i <= j <= |es| && g < n && h < n && h != g && |ss[i].lost| == n && ss[i].lost[g] > 0
    ensures ss[j].sched.owner == g + 1 && |ss[j].sched.held| == |ss[j].sched.pc| == n && ss[j].sched.held[h] == 0
    ensures Sized2(ss[j]) && |ss[j].todo| == n && (ss[j].sched.pc[h].Cas? ==> Blocked(ss[j], h))
  {
    Run2Inv(ss, es, n, j);
    LostOnwards(ss, es, n, i, j, g);
    LostHolds(ss[j], g);
    assert HartOk(ss[j].sched, h);
  }
}
