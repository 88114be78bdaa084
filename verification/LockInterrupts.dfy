/** Traps inside a U-mode lock call: where one may arrive, exactly
    (kernel/src/main.rs:893, kernel/src/kernel/spinlock.rs). */
module LockInterrupts {
  import opened Tasks
  import opened SpinlockModel
  import opened LockOrder
  import K = KernelSteps

  // ---- Reachability ----

  /** Some careful run leads from `s` to `s'`. */
  ghost predicate Reaches(s: Sys, s': Sys) {
    exists ss, es :: Path(ss, es) && Careful(ss, es, 0) && ss[0] == s && ss[|es|] == s'
  }

  /** Event `e` and then some careful run lead from `s` to `s'`. */
  ghost predicate Follows(s: Sys, e: Event, s': Sys) { CanStep(s, e) && Reaches(After(s, e), s') }

  lemma {:induction false} ReachesSelf(s: Sys)
    ensures Reaches(s, s)
  {
    var ss: seq<Sys>, es: seq<Event> := [s], [];
    assert Path(ss, es) && Careful(ss, es, 0);
  }

  lemma {:induction false} ReachesNext(s0: Sys, s: Sys, e: Event)
    requires Reaches(s0, s) && CanStep(s, e) && SafeStep(s, e)
    ensures Reaches(s0, After(s, e))
  {
    hide CanStep, After, SafeStep;
    var ss, es :| Path(ss, es) && Careful(ss, es, 0) && ss[0] == s0 && ss[|es|] == s;
    var ss', es' := ss + [After(s, e)], es + [e];
    forall i | 0 <= i < |es'| ensures StepAt(ss', es', i) && SafeStep(ss'[i], es'[i]) {
      if i < |es| { assert StepAt(ss, es, i); }
    }
    assert Path(ss', es') && Careful(ss', es', 0);
  }

  /** A set of states that careful steps do not leave. */
  ghost predicate Closed(R: iset<Sys>) {
    forall s, e :: s in R && CanStep(s, e) && SafeStep(s, e) ==> After(s, e) in R
  }

  ghost function From(s: Sys): (R: iset<Sys>) { iset s' | Reaches(s, s') }

  lemma {:induction false} FromClosed(s: Sys)
    ensures s in From(s) && Closed(From(s))
  {
    hide Reaches, CanStep, After, SafeStep;
    ReachesSelf(s);
    forall s1, e | Reaches(s, s1) && CanStep(s1, e) && SafeStep(s1, e) ensures Reaches(s, After(s1, e)) {
      ReachesNext(s, s1, e);
    }
  }

  lemma {:induction false} ReachedInv(s: Sys, s': Sys)
    requires SysInv(s) && Reaches(s, s')
    ensures SysInv(s') && |s'.todo| == |s.todo|
  {
    var ss, es :| Path(ss, es) && Careful(ss, es, 0) && ss[0] == s && ss[|es|] == s';
    PathInv(ss, es, |es|);
  }

  /** Two harts hold SCHED_LOCK. */
  ghost predicate TwoInside(s: Sys) {
    exists g: nat, h: nat :: g != h && BothIn(s, g, h)
  }

  predicate BothIn(s: Sys, g: nat, h: nat) {
    g < |s.sched.held| && h < |s.sched.held| && s.sched.held[g] > 0 && s.sched.held[h] > 0
  }

  lemma {:induction false} NeverTwo(s: Sys)
    requires SysInv(s)
    ensures !TwoInside(s)
  {
    forall g: nat, h: nat | g < |s.sched.held| && h < |s.sched.held| && g != h ensures !BothIn(s, g, h) {
      assert HartOk(s.sched, g) && HartOk(s.sched, h);
    }
  }

  // ---- One access ----

  /** Hart `h` in SCHED_LOCK, with calls `todo` to make. */
  ghost predicate View(s: Sys, h: nat, pc: Pc, held: nat, todo: seq<Op>, user: UserCall) {
    && Sized2(s) && h < |s.todo|
    && s.sched.pc[h] == pc && s.sched.held[h] == held && s.mutex.pc[h].Out? && s.todo[h] == todo && s.user[h] == user
  }

  ghost predicate Cells(s: Sys, owner: nat, depth: int) { s.sched.owner == owner && s.sched.depth == depth }

  /** The other hart sees only the two cells change. */
  ghost predicate Leaves(s: Sys, s': Sys, g: nat) {
    Sized2(s) && Sized2(s') && g < |s.todo| == |s'.todo| && SameHart(s, s', g)
  }

  lemma {:induction false} Access1(R: iset<Sys>, s: Sys, h: nat, g: nat) returns (s': Sys)
    requires Closed(R) && s in R && Sized2(s) && h < |s.todo| && g < |s.todo| && g != h
    requires !s.sched.pc[h].Out? && (s.sched.pc[h].DropWrite? ==> s.sched.held[h] > 0)
    ensures s' in R && Leaves(s, s', g)
    ensures s' == Returned(s.(sched := Move(s.sched, h, true)), h)
  {
    var e := Touch(h, Sched, true);
    s' := After(s, e);
    OthersSame(s, e, g);
  }

  lemma {:induction false} Event1(R: iset<Sys>, s: Sys, e: Event, g: nat) returns (s': Sys)
    requires Closed(R) && s in R && CanStep(s, e) && !e.Interrupt? && g < |s.todo| && g != e.hart
    ensures s' == After(s, e) && s' in R && Leaves(s, s', g)
  {
    hide After;
    s' := After(s, e);
    OthersSame(s, e, g);
  }

  /** Hart `h` starts its next call, on SCHED_LOCK. */
  lemma {:induction false} Starts(R: iset<Sys>, s: Sys, h: nat, g: nat, op: Op) returns (s': Sys)
    requires Closed(R) && s in R && Sized2(s) && h < |s.todo| && g < |s.todo| && g != h && Between(s, h)
    requires s.todo[h] != [] && s.todo[h][0] == op && op.which.Sched? && (op.Give? ==> s.sched.held[h] > 0)
    ensures s' in R && Leaves(s, s', g)
    ensures s' == s.(sched := At(s.sched, h, if op.Take? then LoadOwner else DropRead),
                     todo := s.todo[h := s.todo[h][1..]])
  {
    s' := Event1(R, s, Call(h), g);
  }

  /** A trap of hart `h` that finds the lock recorded as its own, at depth `d`. */
  lemma {:induction false} TrapTakes(R: iset<Sys>, s: Sys, h: nat, g: nat, d: nat, rest: seq<Op>, user: UserCall)
    returns (s': Sys)
    requires Closed(R) && s in R && View(s, h, Out, d, [Take(Sched)] + rest, user)
    requires !user.Active? && Cells(s, h + 1, d)
    requires g < |s.todo| && g != h
    ensures s' in R && View(s', h, Out, d + 1, rest, user) && Cells(s', h + 1, d + 1) && Leaves(s, s', g)
    ensures s'.parked == s.parked && s'.lost == s.lost
  {
    hide After, CanStep;
    var s1 := Starts(R, s, h, g, Take(Sched));
    assert View(s1, h, LoadOwner, d, rest, user);
    var s2 := Access1(R, s1, h, g);
    var s3 := Access1(R, s2, h, g);
    s' := Access1(R, s3, h, g);
  }

  lemma {:induction false} TrapGives(R: iset<Sys>, s: Sys, h: nat, g: nat, d: nat, user: UserCall) returns (s': Sys)
    requires Closed(R) && s in R && View(s, h, Out, d + 1, [Give(Sched)], user)
    requires !user.Active? && Cells(s, h + 1, d + 1)
    requires g < |s.todo| && g != h
    ensures s' in R && View(s', h, Out, d, [], user) && Cells(s', if d == 0 then 0 else h + 1, d)
    ensures Leaves(s, s', g) && s'.parked == s.parked && s'.lost == s.lost
  {
    hide After, CanStep;
    var s1 := Starts(R, s, h, g, Give(Sched));
    assert View(s1, h, DropRead, d + 1, [], user);
    var s2 := Access1(R, s1, h, g);
    var s3 := Access1(R, s2, h, g);
    s' := Access1(R, s3, h, g);
    if d == 0 { s' := Access1(R, s', h, g); }
  }

  /** Hart `g`, outside a free lock, gets as far as owning it. */
  lemma {:induction false} Wins(R: iset<Sys>, s: Sys, g: nat, h: nat) returns (s': Sys)
    requires Closed(R) && s in R && Sized2(s) && g < |s.todo| && s.sched.held[g] == 0
    requires s.mutex.pc[g].Out? && Cells(s, 0, 0)
    requires s.sched.pc[g] in {Out, LoadOwner, Cas} && h < |s.todo| && g != h
    ensures s' in R && Sized2(s') && |s'.todo| == |s.todo|
    ensures s'.sched.pc[g].SetDepth? && s'.sched.held[g] == 0 && Cells(s', g + 1, 0) && Leaves(s, s', h)
  {
    var s1 := s;
    if s1.sched.pc[g].Out? {
      var s2 := Event1(R, s1, Arrive(g, K.TIMER_INTERRUPT, 0, false), h);
      assert s2.todo[g][0] == Take(Sched);
      s1 := Starts(R, s2, g, h, Take(Sched));
    }
    if s1.sched.pc[g].LoadOwner? { s1 := Access1(R, s1, g, h); }
    s' := Access1(R, s1, g, h);
  }

  /** It writes the depth and is inside. */
  lemma {:induction false} Enters(R: iset<Sys>, s: Sys, g: nat, h: nat) returns (s': Sys)
    requires Closed(R) && s in R && Sized2(s) && g < |s.todo| && h < |s.todo| && g != h && s.sched.pc[g].SetDepth?
    ensures s' in R && Leaves(s, s', h) && s'.sched.held[g] == s.sched.held[g] + 1
    ensures Cells(s', s.sched.owner, 1)
  {
    s' := Access1(R, s, g, h);
  }

  // ---- A trap at one of the three accesses ----

  /** What the invariant says of a U-mode call at one of them, and of any other hart. */
  lemma {:induction false} UnsafeView(s: Sys, h: nat, g: nat)
    requires SysInv(s) && h < |s.todo| && g < |s.todo| && g != h && s.user[h].Active? && !SafeAt(s, h)
    ensures View(s, h, s.sched.pc[h], 0, [], Active) && Cells(s, h + 1, 0)
    ensures s.sched.held[g] == 0 && s.mutex.pc[g].Out? && s.sched.pc[g] in {Out, LoadOwner, Cas}
  {
    assert HartOk(s.sched, h) && HartOk(s.sched, g) && HartOrdered(s, h) && HartOrdered(s, g);
  }

  /** The trap comes and goes, and hart `g` then owns the lock when the interrupted call goes on. */
  lemma {:induction false} TrapInside(s: Sys, h: nat, g: nat) returns (s0: Sys, s': Sys)
    requires SysInv(s) && h < |s.todo| && g < |s.todo| && g != h && s.user[h].Active? && !SafeAt(s, h)
    ensures s0 == After(s, Interrupt(h, K.TIMER_INTERRUPT, 0, false)) && Reaches(s0, s')
    ensures Sized2(s') && |s'.todo| == |s.todo| && View(s', h, s.sched.pc[h], 0, [], Active)
    ensures s'.sched.pc[g].SetDepth? && s'.sched.held[g] == 0 && Cells(s', g + 1, 0)
  {
    hide Reaches;
    var e, p := Interrupt(h, K.TIMER_INTERRUPT, 0, false), s.sched.pc[h];
    UnsafeView(s, h, g);
    s0 := After(s, e);
    OthersSame(s, e, g);
    var R := From(s0);
    FromClosed(s0);
    assert s0.todo[h] == [Take(Sched)] + [Give(Sched)];
    var s1 := TrapTakes(R, s0, h, g, 0, [Give(Sched)], Interrupted(p));
    var s2 := TrapGives(R, s1, h, g, 0, Interrupted(p));
    var s3 := Event1(R, s2, Resume(h), g);
    s' := Wins(R, s3, g, h);
  }

  /** The interrupted call clears the owner although another hart is inside, and the next trap walks in. */
  lemma {:induction false} ClearsOther(R: iset<Sys>, s: Sys, h: nat, g: nat) returns (s': Sys)
    requires Closed(R) && s in R && View(s, h, ClearOwner, 0, [], Active) && g < |s.todo| && g != h
    requires s.sched.pc[g].SetDepth? && s.sched.held[g] == 0
    ensures s' in R && BothIn(s', g, h) && |s'.sched.held| == |s.sched.held|
  {
    var s1 := Enters(R, s, g, h);
    var s2 := Access1(R, s1, h, g);
    assert View(s2, h, Out, 0, [], Idle) && s2.sched.owner == 0;
    s' := WalksIn(R, s2, h, g);
    assert s'.sched.held[g] == 1 && s'.sched.held[h] == 1;
  }

  lemma {:induction false} WalksIn(R: iset<Sys>, s: Sys, h: nat, g: nat) returns (s': Sys)
    requires Closed(R) && s in R && View(s, h, Out, 0, [], Idle) && g < |s.todo| && g != h && s.sched.owner == 0
    ensures s' in R && Leaves(s, s', g) && s'.sched.held[h] == 1
  {
    var s1 := Event1(R, s, Arrive(h, K.TIMER_INTERRUPT, 0, false), g);
    assert s1.todo[h][0] == Take(Sched);
    var s2 := Starts(R, s1, h, g, Take(Sched));
    var s3 := Access1(R, s2, h, g);
    var s4 := Access1(R, s3, h, g);
    s' := Enters(R, s4, h, g);
  }

  lemma {:induction false} UnsafeHarms(s: Sys, h: nat, g: nat) returns (s0: Sys, s': Sys)
    requires SysInv(s) && h < |s.todo| && g < |s.todo| && g != h && s.user[h].Active? && !SafeAt(s, h)
    ensures s0 == After(s, Interrupt(h, K.TIMER_INTERRUPT, 0, false)) && Reaches(s0, s')
    ensures BothIn(s', g, h) && |s'.sched.held| == |s.todo|
  {
    hide Reaches;
    var s1;
    s0, s1 := TrapInside(s, h, g);
    var R := From(s0);
    FromClosed(s0);
    if s1.sched.pc[h].SetDepth? {
      var s2 := Enters(R, s1, g, h);
      s' := Enters(R, s2, h, g);
      assert s'.sched.held[g] == 1 && s'.sched.held[h] == 1;
    } else {
      if s1.sched.pc[h].Recheck? { s1 := Access1(R, s1, h, g); }
      s' := ClearsOther(R, s1, h, g);
    }
  }

  /** A trap that interrupts hart `h` in its U-mode call here can let two harts in. */
  ghost predicate Harmful(s: Sys, h: nat) {
    exists e: Event, s' :: e.Interrupt? && e.hart == h && Follows(s, e, s') && TwoInside(s')
  }

  /** In every run on two or more harts, at every access of a U-mode lock or unlock call: a trap that arrives
      there can lead to two harts inside SCHED_LOCK exactly at the write of depth 1 that follows the
      compare-and-swap, at the test of a depth just brought to 0, and at the clearing of the owner. Anywhere
      else every continuation keeps the harts apart. */
  lemma {:induction false} InterruptExact(ss: seq<Sys>, es: seq<Event>, n: nat, i: nat, h: nat)
    requires Run2(ss, es, n) && i <= |es| && h < n && n >= 2 && |ss[i].user| == n && ss[i].user[h].Active?
    ensures Sized2(ss[i]) && |ss[i].todo| == n
    ensures Harmful(ss[i], h) <==> !SafeAt(ss[i], h)
  {
    hide Reaches, BothIn, LockInv, HartOrdered;
    Run2Inv(ss, es, n, i);
    var s := ss[i];
    if SafeAt(s, h) {
      forall e: Event, s' | e.Interrupt? && e.hart == h && Follows(s, e, s') ensures !TwoInside(s') {
        AfterKeeps(s, e);
        ReachedInv(After(s, e), s');
        NeverTwo(s');
      }
    } else {
      var g := if h == 0 then 1 else 0;
      var s0, s' := UnsafeHarms(s, h, g);
      assert Follows(s, Interrupt(h, K.TIMER_INTERRUPT, 0, false), s') && TwoInside(s');
    }
  }

  /** The state two accesses into a U-mode lock call: the owner is recorded, the depth not yet. */
  lemma {:induction false} HalfTaken() returns (s: Sys)
    ensures Reaches(Start(2), s) && SysInv(s) && |s.todo| == 2 && s.user[0].Active? && s.sched.pc[0].SetDepth?
  {
    hide Reaches;
    var s0 := Start(2);
    var R := From(s0);
    FromClosed(s0);
    var s1 := Event1(R, s0, UserTake(0), 1);
    var s2 := Access1(R, s1, 0, 1);
    s := Access1(R, s2, 0, 1);
    UnlockedInv(2);
    ReachedInv(s0, s);
  }

  /** On two harts: the watchdog's lock call on hart 0 is interrupted between its compare-and-swap and its
      write of the depth, and both harts end up inside. */
  lemma {:induction false} BothInside() returns (s: Sys, s': Sys)
    ensures Reaches(Start(2), s) && Sized2(s) && |s.todo| == 2 && s.sched.pc[0].SetDepth? && s.user[0].Active?
    ensures Follows(s, Interrupt(0, K.TIMER_INTERRUPT, 0, false), s')
    ensures |s'.sched.held| == 2 && s'.sched.held[0] > 0 && s'.sched.held[1] > 0
  {
    hide Reaches;
    s := HalfTaken();
    var s0;
    s0, s' := UnsafeHarms(s, 0, 1);
  }

  // ---- A hold that is lost ----

  /** A U-mode task of hart 0 takes SCHED_LOCK and holds it between two of its instructions. */
  ghost predicate UserHolds(s: Sys) {
    && Sized2(s) && |s.todo| == 2 && View(s, 0, Out, 1, [], Idle) && Cells(s, 1, 1)
    && s.parked[0] == 1 && s.lost[0] == 0
  }

  lemma {:induction false} UserTakes() returns (s: Sys)
    ensures Reaches(Start(2), s) && UserHolds(s)
  {
    hide Reaches;
    var s0 := Start(2);
    var R := From(s0);
    FromClosed(s0);
    var s1 := Event1(R, s0, UserTake(0), 1);
    var s2 := Access1(R, s1, 0, 1);
    var s3 := Access1(R, s2, 0, 1);
    s := Access1(R, s3, 0, 1);
  }

  /** A syscall 1 of hart 0 comes and goes meanwhile. */
  lemma {:induction false} YieldNests(s: Sys, found: bool) returns (s': Sys)
    requires UserHolds(s)
    ensures CanStep(s, Arrive(0, K.ECALL_UMODE, 1, found))
    ensures Reaches(After(s, Arrive(0, K.ECALL_UMODE, 1, found)), s') && UserHolds(s')
  {
    hide Reaches;
    var e := Arrive(0, K.ECALL_UMODE, 1, found);
    var s0 := After(s, e);
    var R := From(s0);
    FromClosed(s0);
    assert s0.todo[0] == [Take(Sched)] + [Give(Sched)];
    var s1 := TrapTakes(R, s0, 0, 1, 1, [Give(Sched)], Idle);
    s' := TrapGives(R, s1, 0, 1, 1, Idle);
  }

  /** A syscall 8 of hart 0 kills the holder, under SCHED_LOCK. */
  lemma {:induction false} KillLoses(s: Sys) returns (s1: Sys)
    requires UserHolds(s)
    ensures CanStep(s, Arrive(0, K.ECALL_UMODE, 8, true))
    ensures Reaches(After(s, Arrive(0, K.ECALL_UMODE, 8, true)), s1)
    ensures CanStep(s1, Lose(0)) && After(s1, Lose(0)).lost[0] == 1
  {
    hide Reaches;
    var e := Arrive(0, K.ECALL_UMODE, 8, true);
    var s0 := After(s, e);
    var R := From(s0);
    FromClosed(s0);
    assert s0.todo[0] == [Take(Sched)] + BOTH[1..];
    s1 := TrapTakes(R, s0, 0, 1, 1, BOTH[1..], Idle);
  }

  /** From then on hart 1 never gets in. */
  lemma {:induction false} LostReached(s: Sys, s': Sys)
    requires SysInv(s) && |s.todo| == 2 && s.lost[0] > 0 && Reaches(s, s')
    ensures s'.sched.owner == 1 && |s'.sched.held| == 2 && s'.sched.held[1] == 0
  {
    hide CanStep, After, SafeStep, HartOrdered;
    var ss, es :| Path(ss, es) && Careful(ss, es, 0) && ss[0] == s && ss[|es|] == s';
    ReachedInv(s, s');
    LostOnwards(ss, es, 2, 0, |es|, 0);
    LostHolds(s', 0);
    assert HartOk(s'.sched, 1);
  }

  /** One of two harts has lost a hold, and in no later state does the other hold the lock. */
  ghost predicate ShutOut(s: Sys) {
    && |s.lost| == 2 && s.lost[0] == 1
    && forall s' :: Reaches(s, s') ==> |s'.sched.held| == 2 && s'.sched.held[1] == 0
  }

  /** On two harts: a U-mode task of hart 0 takes SCHED_LOCK, a yield comes and goes, and a syscall 8 of the
      same hart kills the holder. In no state after that does hart 1 hold the lock. */
  lemma {:induction false} HoldLost(found: bool) returns (s1: Sys, s2: Sys, s3: Sys)
    ensures Reaches(Start(2), s1) && UserHolds(s1)
    ensures Follows(s1, Arrive(0, K.ECALL_UMODE, 1, found), s2) && UserHolds(s2)
    ensures Follows(s2, Arrive(0, K.ECALL_UMODE, 8, true), s3)
    ensures CanStep(s3, Lose(0)) && ShutOut(After(s3, Lose(0)))
  {
    hide Reaches, UserHolds, SysInv;
    var a, b := Arrive(0, K.ECALL_UMODE, 1, found), Arrive(0, K.ECALL_UMODE, 8, true);
    s1 := UserTakes();
    s2 := YieldNests(s1, found);
    s3 := KillLoses(s2);
    var s4 := After(s3, Lose(0));
    StartInv();
    ReachedInv(Start(2), s1);
    AfterKeeps(s1, a);
    ReachedInv(After(s1, a), s2);
    AfterKeeps(s2, b);
    ReachedInv(After(s2, b), s3);
    AfterKeeps(s3, Lose(0));
    forall s | Reaches(s4, s) ensures |s.sched.held| == 2 && s.sched.held[1] == 0 {
      LostReached(s4, s);
    }
  }

  lemma {:induction false} StartInv()
    ensures SysInv(Start(2)) && |Start(2).todo| == 2
  {
    UnlockedInv(2);
  }
}
