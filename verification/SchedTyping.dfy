/** What a hart must own, and be handing over, for the rest of its list to run
    without a panic and to leave every lock as it found it. */
module SchedTyping {
  import opened Common
  import opened Wrappers
  import opened SchedState

  /** What a hart knows about itself: `me` is the context it runs, `dom` the
      locks that exist, and while noff is 0 the unused intena reads as home. */
  datatype Abs = Abs(me: Option<nat>, home: bool, dom: set<LockId>, owns: set<LockId>, named: set<LockId>,
                     noff: int, intena: bool, cproc: Option<nat>, open: Phase)

  function AbsOf(w: World, h: nat): Abs
    requires Exists(w, h)
  {
    var x, home := w.harts[h], HomeOf(w, h);
    Abs(x.runs, home, w.locks.Keys, x.owns, x.named, x.noff, if x.noff == 0 then home else x.intena, x.proc, x.open)
  }

  /** Holds at every operation. */
  predicate Sound(a: Abs) {
    && a.named <= a.owns <= a.dom
    && |a.owns| <= a.noff
    && (a.open.Joining? ==> P(a.open.p) in a.owns && a.me == None && a.cproc == None)
    && (a.open.Parting? ==> P(a.open.p) in a.owns && a.cproc == Some(a.open.p))
    && (a.me.Some? ==> a.cproc == a.me && P(a.me.value) in a.dom)
    && (a.me.None? && a.cproc.Some? ==> P(a.cproc.value) in a.owns)
    && (a.noff == 0 ==> a.cproc == a.me && a.intena == a.home)
  }

  /** Holds where ordinary code runs: noff counts the locks held, each of which
      names this hart, and nothing is being handed over. */
  predicate Neat(a: Abs) {
    a.noff == |a.owns| && a.named == a.owns && a.open == Closed && a.cproc == a.me && a.intena == a.home
  }

  predicate OnlyLock(a: Abs, p: nat) { a.owns == {P(p)} && a.named == {P(p)} && a.noff == 1 }

  ghost predicate Fits(op: Op, a: Abs) {
    match op
    case PushOff => true
    case PopOff => |a.owns| < a.noff && (a.noff == 1 ==> a.intena == a.home && a.cproc == a.me)
    case TestFree(l) => l in a.dom && l !in a.named
    case Tas(l) => l in a.dom && l !in a.owns && |a.owns| < a.noff
    case SetCpu(l) => l in a.owns
    case TestHeld(l) => l in a.named
    case ClearCpu(l) => l in a.named
    case Unlock(l) => l in a.owns && l !in a.named && (a.open == Closed || l != P(a.open.p))
    case ReadProc => a.cproc == a.me
    case SetChan(_) => a.me.Some? && P(a.me.value) in a.owns
    case ClearChan => a.me.Some? && P(a.me.value) in a.owns
    case SetState(st) => a.me.Some? && P(a.me.value) in a.owns && a.open == Closed && st != RUNNING && st != USED
    case SchedCheck => a.me.Some? && OnlyLock(a, a.me.value) && a.open.Parting?
    case Swtch => a.me.Some? && OnlyLock(a, a.me.value) && a.open.Parting?
    case SetIntena(b) => a.noff >= 1 && b == a.home
    case Never => false
    case Wakeup(_, _) => Neat(a) && forall p: nat | P(p) in a.dom :: P(p) !in a.owns
    case WakeIf(_, i) => P(i) in a.owns && a.open == Closed
    case Loop(i) => Neat(a) && a.noff == 0 && a.me == None && P(i) in a.dom
    case Pick(q) => a.me == None && OnlyLock(a, q) && a.open == Closed && a.cproc == None && a.intena == a.home
    case SetProc(q) => a.me == None && OnlyLock(a, q) && a.open == Joining(q)
    case SwtchTo(q) => a.me == None && OnlyLock(a, q) && a.open == Closed && a.cproc == Some(q)
    case ClearProc => a.me == None && a.open.Parting?
    case Adopt => a.noff >= 1
    case Kernel => Neat(a)
    case Sret => Neat(a) && a.noff == 0 && !a.home
  }

  /** What the hart knows after an operation that stays in its context. */
  function After(op: Op, a: Abs): Abs {
    match op
    case PushOff => a.(noff := a.noff + 1)
    case PopOff => a.(noff := a.noff - 1)
    case Tas(l) => a.(owns := a.owns + {l})
    case SetCpu(l) => a.(named := a.named + {l})
    case ClearCpu(l) => a.(named := a.named - {l})
    case Unlock(l) => a.(owns := a.owns - {l})
    case SetState(st) => if a.me.Some? then a.(open := Parting(a.me.value, st == ZOMBIE || st == UNUSED)) else a
    case SetIntena(b) => a.(intena := b)
    case SetProc(q) => a.(cproc := Some(q), open := Closed)
    case ClearProc => a.(cproc := None, open := Closed, home := a.intena)
    case Adopt => a.(home := a.intena)
    case Sret => a.(home := true, intena := true)
    case _ => a
  }

  /** What the scheduler of a hart, respectively process p, finds when swtch
      brings it back: it holds the lock of the process handed over, and only
      that one; intena is whatever the other context left. */
  function Returned(dom: set<LockId>, home: bool, q: nat, b: bool): Abs {
    Abs(None, home, dom, {P(q)}, {P(q)}, 1, b, Some(q), Parting(q, false))
  }

  function Resumed(dom: set<LockId>, home: bool, p: nat, b: bool): Abs {
    Abs(Some(p), home, dom, {P(p)}, {P(p)}, 1, b, Some(p), Closed)
  }

  function Settled(a: Abs): Abs { a.(owns := {}, named := {}, noff := 0) }

  /** The whole list is safe to run from here. */
  ghost predicate Ok(c: Code, a: Abs)
    decreases c
  {
    Sound(a) &&
    match c
    case End => false
    case Do(op, k) =>
      && Fits(op, a)
      && match op
         case Kernel => k == End || (!a.home && Ok(k, Settled(a)))
         case Loop(_) => true
         case Swtch => a.open.gone || (a.intena == a.home && Ok(k, Resumed(a.dom, a.home, a.me.value, a.home)))
         case SwtchTo(q) => Ok(k, Returned(a.dom, a.home, q, true)) && Ok(k, Returned(a.dom, a.home, q, false))
         case Pick(q) => Ok(k, a.(home := true, intena := true)) && Ok(k, a.(home := false, intena := false))
         case _ => Ok(k, After(op, a))
  }

  function Plus(a: Abs, l: LockId): Abs { a.(noff := a.noff + 1, owns := a.owns + {l}, named := a.named + {l}) }

  function Minus(a: Abs, l: LockId): Abs { a.(noff := a.noff - 1, owns := a.owns - {l}, named := a.named - {l}) }

  lemma AcquireOk(l: LockId, k: Code, a: Abs)
    requires Sound(a) && l in a.dom && l !in a.owns && Ok(k, Plus(a, l))
    ensures Ok(Acquire(l, k), a)
  {
    var a1 := After(PushOff, a);
    var a2 := After(Tas(l), a1);
    assert After(SetCpu(l), a2) == Plus(a, l);
    assert Ok(Do(SetCpu(l), k), a2);
    assert Ok(Do(Tas(l), Do(SetCpu(l), k)), a1);
    assert Ok(Do(TestFree(l), Do(Tas(l), Do(SetCpu(l), k))), a1);
  }

  lemma ReleaseOk(l: LockId, k: Code, a: Abs)
    requires Sound(a) && l in a.named && (a.open == Closed || l != P(a.open.p))
    requires a.noff == 1 ==> a.intena == a.home && a.cproc == a.me
    requires Ok(k, Minus(a, l))
    ensures Ok(Release(l, k), a)
  {
    var a1 := After(ClearCpu(l), a);
    var a2 := After(Unlock(l), a1);
    assert After(PopOff, a2) == Minus(a, l);
    assert |a.owns| == |a2.owns| + 1;
    assert Ok(Do(PopOff, k), a2);
    assert Ok(Do(Unlock(l), Do(PopOff, k)), a1);
    assert Ok(Do(ClearCpu(l), Do(Unlock(l), Do(PopOff, k))), a);
  }

  lemma MyProcOk(k: Code, a: Abs)
    requires Sound(a) && a.cproc == a.me && Ok(k, a) && (a.noff == 0 ==> a.intena == a.home)
    ensures Ok(MyProc(k), a)
  {
    var a1 := After(PushOff, a);
    assert After(PopOff, a1) == a;
    assert Ok(Do(PopOff, k), a1);
    assert Ok(Do(ReadProc, Do(PopOff, k)), a1);
  }

  /** sched: p holds its lock and no other, and has left RUNNING. */
  lemma SchedOk(p: nat, k: Code, a: Abs)
    requires Sound(a) && a.me == Some(p) && OnlyLock(a, p) && a.open.Parting?
    requires a.open.gone || (a.intena == a.home && Ok(k, Resumed(a.dom, a.home, p, a.home)))
    ensures Ok(SchedCode(k), a)
  {
    assert Ok(Do(Swtch, k), a);
    assert Ok(Do(SchedCheck, Do(Swtch, k)), a);
    MyProcOk(Do(SchedCheck, Do(Swtch, k)), a);
  }

  lemma PlusMinus(a: Abs, l: LockId)
    requires l !in a.owns && a.named <= a.owns
    ensures Minus(Plus(a, l), l) == a
  {
    assert a.owns + {l} - {l} == a.owns;
    assert a.named + {l} - {l} == a.named;
  }

  /** The rest of sleep after it is woken: it lets go of its own lock and takes
      the caller's back. */
  lemma WokenOk(p: nat, lk: LockId, k: Code, a: Abs)
    requires Sound(a) && Neat(a) && a.me == Some(p) && a.owns == {lk} && lk != P(p) && Ok(k, a)
    ensures Ok(Do(ClearChan, Release(P(p), Acquire(lk, k))), Resumed(a.dom, a.home, p, a.home))
  {
    var r := Resumed(a.dom, a.home, p, a.home);
    var n := Minus(r, P(p));
    assert n == Abs(Some(p), a.home, a.dom, {}, {}, 0, a.home, Some(p), Closed) by {
      assert {P(p)} - {P(p)} == {};
    }
    assert Plus(n, lk) == a by { assert {} + {lk} == {lk}; }
    AcquireOk(lk, k, n);
    ReleaseOk(P(p), Acquire(lk, k), r);
    assert Ok(Release(P(p), Acquire(lk, k)), After(ClearChan, r));
  }

  lemma SleepOk(p: nat, c: nat, lk: LockId, k: Code, a: Abs)
    requires Sound(a) && Neat(a) && a.me == Some(p) && a.owns == {lk} && lk != P(p) && Ok(k, a)
    ensures Ok(SleepCode(p, c, lk, k), a)
  {
    hide Ok;
    var back := Do(ClearChan, Release(P(p), Acquire(lk, k)));
    WokenOk(p, lk, k, a);
    var a1 := Plus(a, P(p));
    var a2 := Minus(a1, lk);
    assert a2 == Abs(Some(p), a.home, a.dom, {P(p)}, {P(p)}, 1, a.home, Some(p), Closed) by {
      assert {lk} + {P(p)} - {lk} == {P(p)};
    }
    var a3 := After(SetState(SLEEPING), a2);
    SchedOk(p, back, a3);
    OkStep(SetState(SLEEPING), SchedCode(back), a2);
    OkStep(SetChan(c), Do(SetState(SLEEPING), SchedCode(back)), a2);
    ReleaseOk(lk, Do(SetChan(c), Do(SetState(SLEEPING), SchedCode(back))), a1);
    AcquireOk(P(p), Release(lk, Do(SetChan(c), Do(SetState(SLEEPING), SchedCode(back)))), a);
    MyProcOk(Acquire(P(p), Release(lk, Do(SetChan(c), Do(SetState(SLEEPING), SchedCode(back))))), a);
  }

  /** An operation that stays in its context, put before a list that is safe. */
  lemma OkStep(op: Op, k: Code, a: Abs)
    requires Sound(a) && Fits(op, a) && Ok(k, After(op, a))
    requires !op.Kernel? && !op.Loop? && !op.Swtch? && !op.SwtchTo? && !op.Pick?
    ensures Ok(Do(op, k), a)
  {
  }

  lemma YieldOk(p: nat, k: Code, a: Abs)
    requires Sound(a) && Neat(a) && a.me == Some(p) && a.owns == {} && Ok(k, a)
    ensures Ok(YieldCode(p, k), a)
  {
    hide Ok;
    var back := Release(P(p), k);
    var r := Resumed(a.dom, a.home, p, a.home);
    assert Minus(r, P(p)) == a by { assert {P(p)} - {P(p)} == {}; }
    ReleaseOk(P(p), k, r);
    var a1 := Plus(a, P(p));
    assert a1 == r by { assert {} + {P(p)} == {P(p)}; }
    SchedOk(p, back, After(SetState(RUNNABLE), a1));
    OkStep(SetState(RUNNABLE), SchedCode(back), a1);
    AcquireOk(P(p), Do(SetState(RUNNABLE), SchedCode(back)), a);
    MyProcOk(Acquire(P(p), Do(SetState(RUNNABLE), SchedCode(back))), a);
  }

  lemma ExitOk(p: nat, a: Abs)
    requires Sound(a) && Neat(a) && a.me == Some(p) && a.owns == {WAIT_LOCK}
    ensures Ok(ExitCode(p), a)
  {
    hide Ok;
    var a1 := Plus(a, P(p));
    var a2 := After(SetState(ZOMBIE), a1);
    var a3 := Minus(a2, WAIT_LOCK);
    assert a3.owns == {P(p)} && a3.named == {P(p)} by { assert {WAIT_LOCK} + {P(p)} - {WAIT_LOCK} == {P(p)}; }
    SchedOk(p, Do(Never, End), a3);
    ReleaseOk(WAIT_LOCK, SchedCode(Do(Never, End)), a2);
    OkStep(SetState(ZOMBIE), Release(WAIT_LOCK, SchedCode(Do(Never, End))), a1);
    AcquireOk(P(p), Do(SetState(ZOMBIE), Release(WAIT_LOCK, SchedCode(Do(Never, End)))), a);
  }

  lemma ReturnOk(p: nat, a: Abs)
    requires Sound(a) && Neat(a) && a.me == Some(p) && a.owns == {}
    ensures Ok(ReturnCode(p), a)
  {
    var a1 := Plus(a, P(p));
    var a2 := After(SetState(UNUSED), a1);
    assert a1.owns == {P(p)} && a1.named == {P(p)};
    assert Ok(Do(Swtch, Do(Never, End)), a2);
    assert Ok(Do(SetState(UNUSED), Do(Swtch, Do(Never, End))), a1);
    AcquireOk(P(p), Do(SetState(UNUSED), Do(Swtch, Do(Never, End))), a);
  }

  lemma WakeupHead(c: nat, i: nat, k: Code, a: Abs)
    requires Ok(Do(Wakeup(c, i), k), a) && P(i) in a.dom
    ensures Sound(a) && Neat(a) && P(i) !in a.owns && Ok(k, a) && Ok(Do(Wakeup(c, i + 1), k), a)
  {
    assert After(Wakeup(c, i), a) == a == After(Wakeup(c, i + 1), a);
  }

  lemma WakeupOk(c: nat, i: nat, k: Code, a: Abs)
    requires Ok(Do(Wakeup(c, i), k), a) && P(i) in a.dom
    ensures Ok(Acquire(P(i), Do(WakeIf(c, i), Release(P(i), Do(Wakeup(c, i + 1), k)))), a)
  {
    hide Ok;
    var rest := Do(Wakeup(c, i + 1), k);
    WakeupHead(c, i, k, a);
    var a1 := Plus(a, P(i));
    PlusMinus(a, P(i));
    ReleaseOk(P(i), rest, a1);
    OkStep(WakeIf(c, i), Release(P(i), rest), a1);
    AcquireOk(P(i), Do(WakeIf(c, i), Release(P(i), rest)), a);
  }

  lemma LoopOk(i: nat, next: nat, a: Abs)
    requires Sound(a) && Neat(a) && a.noff == 0 && a.me == None && P(i) in a.dom && P(next) in a.dom
    ensures Ok(LoopCode(i, next), a)
  {
    var k := Release(P(i), Do(Loop(next), End));
    var a1 := Plus(a, P(i));
    assert a1.owns == {P(i)} && a1.named == {P(i)};
    LapOk(i, next, a1.(home := true, intena := true));
    LapOk(i, next, a1.(home := false, intena := false));
    assert Ok(Do(Pick(i), k), a1);
    AcquireOk(P(i), Do(Pick(i), k), a);
  }

  lemma LapOk(i: nat, next: nat, a: Abs)
    requires Sound(a) && OnlyLock(a, i) && a.open == Closed && a.cproc == None && a.me == None && a.intena == a.home
      && P(next) in a.dom
    ensures Ok(Release(P(i), Do(Loop(next), End)), a)
  {
    assert Minus(a, P(i)).owns == {};
    ReleaseOk(P(i), Do(Loop(next), End), a);
  }

  lemma FreshOk(p: nat, home: bool, b: bool, dom: set<LockId>)
    requires P(p) in dom
    ensures Ok(FreshCode(p), Resumed(dom, home, p, b))
  {
    hide Ok;
    var r := Resumed(dom, home, p, b);
    var a := r.(home := b);
    var n := Abs(Some(p), b, dom, {}, {}, 0, b, Some(p), Closed);
    assert Minus(a, P(p)) == n by { assert {P(p)} - {P(p)} == {}; }
    BaseOk(n);
    ReleaseOk(P(p), Do(Kernel, End), a);
    OkStep(Adopt, Release(P(p), Do(Kernel, End)), r);
  }

  lemma BaseOk(a: Abs)
    requires Sound(a) && Neat(a)
    ensures Ok(Do(Kernel, End), a)
  {
  }

  /** A list interrupted between two operations is safe to come back to. */
  lemma TrapOk(k: Code, a: Abs)
    requires Ok(k, a) && a.noff == 0 && a.home
    ensures Ok(Do(Kernel, Do(Sret, k)), a.(home := false, intena := false))
  {
    var a1 := a.(home := false, intena := false);
    assert a.owns == {} && a.named == {} && a.open == Closed;
    assert After(Sret, a1) == a;
    assert Ok(Do(Sret, k), a1);
    assert Settled(a1) == a1;
  }
}
