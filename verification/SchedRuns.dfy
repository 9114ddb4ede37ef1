/** All runs of the scheduler machine, over any number of harts and slots. */
module SchedRuns {
  import opened Common
  import opened Wrappers
  import opened SchedState
  import opened SchedTyping
  import opened SchedInv
  import opened SchedSteps
  import opened SchedSwitch

  /** No operation a hart can come to panics, and executing it keeps the
      invariant: the checks in acquire, release, pop_off and sched, the null
      tests of sleep and sched, and "proc_exit: sched returned" never fire. */
  lemma NeverPanics(w: World, h: nat)
    requires Inv(w) && h < |w.harts|
    ensures Exists(w, h) && Step(w, h) != Panic
    ensures Step(w, h).To? ==> Inv(Step(w, h).w)
  {
    hide Ok;
    hide Exec;
    hide Inv;
    SoundOf(w, h);
    NotEnded(w, h);
    var op, k := CodeOf(w, h).op, CodeOf(w, h).next;
    if op.PushOff? { PushFine(w, h, k); }
    else if op.PopOff? { PopFine(w, h, k); }
    else if op.TestFree? || op.TestHeld? || op.ReadProc? || op.SchedCheck? { TestFine(w, h, op, k); }
    else if op.Tas? { TasFine(w, h, op.l, k); }
    else if op.SetCpu? { SetCpuFine(w, h, op.l, k); }
    else if op.ClearCpu? { ClearCpuFine(w, h, op.l, k); }
    else if op.Unlock? { UnlockFine(w, h, op.l, k); }
    else if op.SetChan? || op.ClearChan? { ChanFine(w, h, op, k); }
    else if op.SetState? { SetStateFine(w, h, op.state, k); }
    else if op.Swtch? { SwtchFine(w, h, k); }
    else if op.SetIntena? || op.Adopt? || op.Sret? { FlagFine(w, h, op, k); }
    else if op.Wakeup? || op.Loop? { LoopFine(w, h, op, k); }
    else if op.WakeIf? { WakeIfFine(w, h, op.c, op.i, k); }
    else if op.Pick? { PickFine(w, h, op.q, k); }
    else if op.SetProc? { SetProcFine(w, h, op.q, k); }
    else if op.SwtchTo? { SwtchToFine(w, h, op.q, k); }
    else if op.ClearProc? { ClearProcFine(w, h, k); }
    else if op.Never? { HeadOf(w, h, op, k); }
    else { KernelWaits(w, h, k); }
  }

  lemma NotEnded(w: World, h: nat)
    requires Inv(w) && h < |w.harts| && Exists(w, h)
    ensures CodeOf(w, h).Do?
  {
    assert HartOk(w, h);
  }

  lemma KernelWaits(w: World, h: nat, k: Code)
    requires Exists(w, h)
    ensures Exec(w, h, Kernel, k) == Wait
  {
  }

  // ---- calls of ordinary code ----

  lemma KernelHead(w: World, h: nat)
    requires Inv(w) && h < |w.harts| && Exists(w, h) && CodeOf(w, h).Do? && CodeOf(w, h).op.Kernel?
    ensures var a := AbsOf(w, h); Sound(a) && Neat(a) && Ok(CodeOf(w, h), a) && IntrAgrees(w, h)
    ensures CodeOf(w, h).next == End || (!AbsOf(w, h).home && Ok(CodeOf(w, h).next, Settled(AbsOf(w, h))))
    ensures AbsWith(w, w.harts[h], HomeOf(w, h)) == AbsOf(w, h)
    ensures w.harts[h].runs.Some? ==> P(w.harts[h].runs.value) in w.locks && P(w.harts[h].runs.value) !in {WAIT_LOCK}
  {
    assert HartOk(w, h);
  }

  lemma LockCallKeeps(w: World, h: nat, call: Call)
    requires Inv(w) && h < |w.harts| && Exists(w, h) && Allowed(w, h, call)
    requires call.CallAcquire? || call.CallRelease? || call.CallMyProc? || call.CallWakeup?
    ensures Inv(Made(w, h, call))
  {
    hide Ok;
    hide Inv;
    KernelHead(w, h);
    var a, c := AbsOf(w, h), CodeOf(w, h);
    if call.CallAcquire? {
      PlusKernelOk(a, call.l, c);
      AcquireOk(call.l, c, a);
    } else if call.CallRelease? {
      MinusKernelOk(a, call.l, c);
      ReleaseOk(call.l, c, a);
    } else if call.CallMyProc? {
      MyProcOk(c, a);
    } else {
      OkStep(Wakeup(call.c, 0), c, a);
    }
    var k := Made(w, h, call);
    PutInv(w, h, w.harts[h],
           if call.CallAcquire? then Acquire(call.l, c) else if call.CallRelease? then Release(call.l, c)
           else if call.CallMyProc? then MyProc(c) else Do(Wakeup(call.c, 0), c), HomeOf(w, h));
  }

  lemma PlusKernelOk(a: Abs, l: LockId, c: Code)
    requires Sound(a) && Neat(a) && Ok(c, a) && c.Do? && c.op.Kernel? && l in a.dom && l !in a.owns
    ensures Ok(c, Plus(a, l))
  {
    assert |a.owns + {l}| == |a.owns| + 1;
    assert Settled(Plus(a, l)) == Settled(a);
  }

  lemma MinusKernelOk(a: Abs, l: LockId, c: Code)
    requires Sound(a) && Neat(a) && Ok(c, a) && c.Do? && c.op.Kernel? && l in a.owns
    ensures Ok(c, Minus(a, l))
  {
    assert a.owns - {l} + {l} == a.owns;
    assert |a.owns - {l}| == |a.owns| - 1;
    assert Settled(Minus(a, l)) == Settled(a);
  }

  lemma SleepCallKeeps(w: World, h: nat, call: Call)
    requires Inv(w) && h < |w.harts| && Exists(w, h) && Allowed(w, h, call)
    requires call.CallSleep? || call.CallYield? || call.CallExit? || call.CallReturn?
    ensures Inv(Made(w, h, call))
  {
    hide Ok;
    hide Inv;
    hide SleepCode;
    hide YieldCode;
    hide ExitCode;
    hide ReturnCode;
    KernelHead(w, h);
    var a, c, p := AbsOf(w, h), CodeOf(w, h), w.harts[h].runs.value;
    if call.CallSleep? {
      SleepOk(p, call.c, call.lk, c, a);
      PutInv(w, h, w.harts[h], SleepCode(p, call.c, call.lk, c), HomeOf(w, h));
    } else if call.CallYield? {
      YieldOk(p, c, a);
      PutInv(w, h, w.harts[h], YieldCode(p, c), HomeOf(w, h));
    } else if call.CallExit? {
      ExitOk(p, a);
      PutInv(w, h, w.harts[h], ExitCode(p), HomeOf(w, h));
    } else {
      ReturnOk(p, a);
      PutInv(w, h, w.harts[h], ReturnCode(p), HomeOf(w, h));
    }
  }

  lemma SlotCallKeeps(w: World, h: nat, call: Call)
    requires Inv(w) && h < |w.harts| && Exists(w, h) && Allowed(w, h, call)
    requires call.CallWake? || call.CallAlloc? || call.CallReady? || call.CallFree?
    ensures Inv(Made(w, h, call))
    ensures call.CallFree? ==> w.procs[call.q].at == None && Parked(w, call.q)
  {
    hide Ok;
    hide Inv;
    KernelHead(w, h);
    var r := w.procs[call.q];
    OwnedSlot(w, h, call.q);
    if call.CallWake? {
      if r.state == SLEEPING { SlotInv(w, h, call.q, r.(state := RUNNABLE)); }
    } else if call.CallAlloc? {
      SlotInv(w, h, call.q, r.(state := USED, chan := None, code := FreshCode(call.q)));
    } else if call.CallReady? {
      SlotInv(w, h, call.q, r.(state := RUNNABLE));
    } else {
      SlotInv(w, h, call.q, r.(state := UNUSED, chan := None));
    }
  }

  lemma FlagCallKeeps(w: World, h: nat, call: Call)
    requires Inv(w) && h < |w.harts| && Exists(w, h) && Allowed(w, h, call)
    requires call.CallSetIntr? || call.CallDone?
    ensures Inv(Made(w, h, call))
  {
    hide Ok;
    hide Inv;
    KernelHead(w, h);
    var x, a, c := w.harts[h], AbsOf(w, h), CodeOf(w, h);
    if call.CallSetIntr? {
      BaseOk(a.(home := call.b, intena := call.b));
      assert AbsWith(w, x.(intr := call.b), call.b) == a.(home := call.b, intena := call.b);
      PutInv(w, h, x.(intr := call.b), c, call.b);
    } else {
      assert Settled(a) == a;
      PutInv(w, h, x, c.next, HomeOf(w, h));
    }
  }

  lemma TrapKeeps(w: World, h: nat)
    requires Inv(w) && h < |w.harts| && Exists(w, h) && w.harts[h].intr
    ensures Inv(Trapped(w, h))
  {
    hide Ok;
    hide Inv;
    HartOkOf(w, h);
    var x, a := w.harts[h], AbsOf(w, h);
    TrapOk(CodeOf(w, h), a);
    assert AbsWith(w, x.(intr := false), false) == a.(home := false, intena := false);
    PutInv(w, h, x.(intr := false), Do(Kernel, Do(Sret, CodeOf(w, h))), false);
  }

  lemma HartOkOf(w: World, h: nat)
    requires Inv(w) && h < |w.harts|
    ensures HartOk(w, h)
  {
  }

  lemma IdleKeeps(w: World, h: nat, b: bool)
    requires Inv(w) && h < |w.harts| && Exists(w, h) && AtLoop(w, h) && w.harts[h].noff == 0
    ensures Inv(Put(w, h, w.harts[h].(intr := b), w.harts[h].sched, b))
  {
    hide Inv;
    HartOkOf(w, h);
    var x, a := w.harts[h], AbsOf(w, h);
    assert AbsWith(w, x.(intr := b), b) == a.(home := b, intena := b);
    PutInv(w, h, x.(intr := b), x.sched, b);
  }

  lemma StepKeeps(w: World, w': World, h: nat, act: Act)
    requires Inv(w) && Next(w, w', h, act)
    ensures Inv(w')
  {
    hide Inv;
    hide Made;
    hide Exec;
    match act
    case Run => NeverPanics(w, h);
    case Ask(call) =>
      if call.CallAcquire? || call.CallRelease? || call.CallMyProc? || call.CallWakeup? { LockCallKeeps(w, h, call); }
      else if call.CallSleep? || call.CallYield? || call.CallExit? || call.CallReturn? { SleepCallKeeps(w, h, call); }
      else if call.CallWake? || call.CallAlloc? || call.CallReady? || call.CallFree? { SlotCallKeeps(w, h, call); }
      else { FlagCallKeeps(w, h, call); }
    case Trap => TrapKeeps(w, h);
    case Idle(b) => IdleKeeps(w, h, b);
  }

  // ---- runs ----

  /** After proc_init and userinit: every lock free, every hart about to enter
      its scheduler with interrupts off, and some slots ready to start. */
  ghost predicate Init(w: World) {
    && |w.procs| > 0
    && (forall p: nat {:trigger P(p)} :: P(p) in w.locks <==> p < |w.procs|)
    && WAIT_LOCK in w.locks
    && (forall h: nat {:trigger w.harts[h]} | h < |w.harts| :: exists b ::
          w.harts[h] == Hart(None, 0, b, false, None, Do(Loop(0), End), {}, {}, Closed, false))
    && (forall p: nat {:trigger w.procs[p]} | p < |w.procs| ::
          w.procs[p].at == None && w.procs[p].code == FreshCode(p)
          && (w.procs[p].state == UNUSED || w.procs[p].state == RUNNABLE))
    && (forall l {:trigger w.locks[l]} | l in w.locks :: w.locks[l] == Spin(false, None, None))
  }

  lemma InitInv(w: World)
    requires Init(w)
    ensures Inv(w)
  {
    forall h: nat | h < |w.harts| ensures HartOk(w, h) {
      assert w.harts[h] == w.harts[h];
      assert P(0) in w.locks;
      var a := AbsOf(w, h);
      assert Sound(a) && Fits(Loop(0), a);
    }
    forall p: nat | p < |w.procs| ensures ProcOk(w, p) {
      assert w.procs[p] == w.procs[p];
      forall b: bool ensures Ok(w.procs[p].code, Resumed(w.locks.Keys, w.procs[p].home, p, b)) {
        FreshOk(p, w.procs[p].home, b, w.locks.Keys);
      }
    }
    forall l | l in w.locks ensures LockOk(w, l) {
      assert w.locks[l] == w.locks[l];
    }
  }

  datatype Event = Event(h: nat, act: Act)

  /** A run: one event after another, each a step of one hart. */
  ghost predicate Run(ws: seq<World>, es: seq<Event>) {
    && |ws| == |es| + 1
    && Init(ws[0])
    && forall i: nat {:trigger es[i]} | i < |es| :: Next(ws[i], ws[i + 1], es[i].h, es[i].act)
  }

  /** Every world of every run satisfies the invariant, and no hart in it is
      about to panic. */
  lemma {:induction false} EveryRun(ws: seq<World>, es: seq<Event>, i: nat)
    requires Run(ws, es) && i < |ws|
    ensures Inv(ws[i])
    ensures forall h: nat | h < |ws[i].harts| :: Exists(ws[i], h) && Step(ws[i], h) != Panic
    decreases i
  {
    hide Inv;
    hide Next;
    hide Step;
    hide Init;
    if i == 0 {
      InitInv(ws[0]);
    } else {
      EveryRun(ws, es, i - 1);
      var e := es[i - 1];
      StepKeeps(ws[i - 1], ws[i], e.h, e.act);
    }
    forall h: nat | h < |ws[i].harts| ensures Exists(ws[i], h) && Step(ws[i], h) != Panic {
      NeverPanics(ws[i], h);
    }
  }

  // ---- what the invariant means ----

  /** Two harts never execute the same process. */
  lemma OneHartEach(w: World, g: nat, h: nat)
    requires Inv(w) && g < |w.harts| && h < |w.harts| && g != h
    ensures w.harts[g].runs.Some? ==> w.harts[g].runs != w.harts[h].runs && w.harts[g].runs != w.harts[h].proc
    ensures w.harts[g].proc.Some? ==> w.harts[g].proc != w.harts[h].proc
  {
    assert HartOk(w, g) && HartOk(w, h);
  }

  predicate OnHart(w: World, p: nat, h: nat) { h < |w.harts| && w.harts[h].proc == Some(p) }

  predicate Executes(w: World, p: nat, h: nat) { h < |w.harts| && w.harts[h].runs == Some(p) }

  /** With p->lock free, p is RUNNING exactly when one hart has c->proc == p, and
      that hart is executing p; in any other state no hart executes it. */
  lemma FreeLockMeans(w: World, p: nat)
    requires Inv(w) && p < |w.procs| && P(p) in w.locks && !w.locks[P(p)].locked
    ensures w.procs[p].state == RUNNING <==> exists h: nat :: OnHart(w, p, h)
    ensures forall g: nat, h: nat :: OnHart(w, p, g) && OnHart(w, p, h) ==> g == h
    ensures forall h: nat :: OnHart(w, p, h) <==> Executes(w, p, h)
  {
    hide Ok;
    assert ProcOk(w, p) && LockOk(w, P(p));
    if w.procs[p].at.Some? { assert OnHart(w, p, w.procs[p].at.value); }
    forall h: nat | OnHart(w, p, h) ensures w.procs[p].at == Some(h) && Executes(w, p, h) {
      SoundOf(w, h);
      HartOkOf(w, h);
      OwnsMeans(w, h, P(p));
    }
    forall h: nat | Executes(w, p, h) ensures OnHart(w, p, h) {
      RunsAt(w, h);
    }
  }

  /** The locks whose cpu field names hart h. */
  ghost function HeldBy(w: World, h: nat): set<LockId> { set l | l in w.locks && w.locks[l].cpu == Some(h) }

  /** Wherever ordinary code or the scheduler's loop runs, noff is the number of
      spinlocks recorded as held by the hart, and interrupts are off exactly if
      there are any or the thread wants them off. */
  lemma NoffCounts(w: World, h: nat)
    requires Inv(w) && h < |w.harts| && Exists(w, h) && CodeOf(w, h).Do?
    requires CodeOf(w, h).op.Kernel? || CodeOf(w, h).op.Loop?
    ensures w.harts[h].noff == |HeldBy(w, h)|
    ensures forall l | l in HeldBy(w, h) :: w.locks[l].locked
    ensures w.harts[h].intr == (HeldBy(w, h) == {} && HomeOf(w, h))
    ensures w.harts[h].noff > 0 ==> w.harts[h].intena == HomeOf(w, h)
  {
    hide Ok;
    HartOkOf(w, h);
    OkHead(CodeOf(w, h).op, CodeOf(w, h).next, AbsOf(w, h));
    forall l | l in w.locks ensures l in w.harts[h].named <==> w.locks[l].cpu == Some(h) {
      OwnsMeans(w, h, l);
    }
    assert w.harts[h].named <= w.locks.Keys by { SoundOf(w, h); }
    assert HeldBy(w, h) == w.harts[h].named;
    forall l | l in HeldBy(w, h) ensures w.locks[l].locked { LockOf(w, l); OwnsMeans(w, h, l); }
  }

  /** The hand-over: on both sides of swtch the hart holds the lock of the
      process, and no other, and noff is 1. The context that comes back finds
      the lock recorded as held by the hart it comes back on. */
  lemma HandOver(w: World, h: nat)
    requires Inv(w) && h < |w.harts| && Exists(w, h) && CodeOf(w, h).Do?
    requires CodeOf(w, h).op.Swtch? || CodeOf(w, h).op.SwtchTo?
    ensures Step(w, h).To?
    ensures var p := if CodeOf(w, h).op.Swtch? then w.harts[h].runs else Some(CodeOf(w, h).op.q);
            && p.Some? && P(p.value) in w.locks && w.harts[h].proc == p
            && w.harts[h].noff == 1 && HeldBy(w, h) == {P(p.value)} && Holding(w, h, P(p.value))
            && var w' := Step(w, h).w;
            && w'.locks == w.locks && |w'.harts| == |w.harts|
            && w'.harts[h].noff == 1
            && w'.harts[h].runs == if CodeOf(w, h).op.Swtch? then None else p
  {
    hide Ok;
    hide Inv;
    var op, k := CodeOf(w, h).op, CodeOf(w, h).next;
    HeadOf(w, h, op, k);
    NeverPanics(w, h);
    var p := if op.Swtch? then w.harts[h].runs.value else op.q;
    forall l | l in w.locks ensures l in w.harts[h].named <==> w.locks[l].cpu == Some(h) {
      OwnsMeans(w, h, l);
    }
    assert w.harts[h].named <= w.locks.Keys;
    assert HeldBy(w, h) == {P(p)};
    HoldingMeans(w, h, P(p));
  }

  /** A slot is freed, or taken for a new process, only when no hart executes it
      any more: wait reaps a child that has left its kernel stack. */
  lemma FreedAfterLeaving(w: World, h: nat, q: nat)
    requires Inv(w) && h < |w.harts| && Exists(w, h)
    requires Allowed(w, h, CallFree(q)) || Allowed(w, h, CallAlloc(q))
    ensures forall g: nat :: !OnHart(w, q, g) && !Executes(w, q, g)
  {
    hide Ok;
    KernelHead(w, h);
    OwnedSlot(w, h, q);
    forall g: nat ensures !OnHart(w, q, g) && !Executes(w, q, g) {
      if OnHart(w, q, g) { HartOkOf(w, g); }
      if Executes(w, q, g) { RunsAt(w, g); }
    }
  }

  /** The slot whose state, channel or saved context the next operation of hart
      h reads or writes. */
  function Touched(w: World, h: nat): Option<nat>
    requires Exists(w, h) && CodeOf(w, h).Do?
  {
    match CodeOf(w, h).op
    case SetChan(_) => w.harts[h].runs
    case ClearChan => w.harts[h].runs
    case SetState(_) => w.harts[h].runs
    case SchedCheck => w.harts[h].runs
    case Swtch => w.harts[h].runs
    case WakeIf(_, i) => Some(i)
    case Pick(q) => Some(q)
    case SwtchTo(q) => Some(q)
    case _ => None
  }

  /** Those accesses are made by the hart that set the lock of the slot, so two
      harts are never about to touch the same slot: between sleep's release of
      the caller's lock and its own SLEEPING store, no wakeup tests the slot. */
  lemma RaceFree(w: World, g: nat, h: nat)
    requires Inv(w) && g < |w.harts| && h < |w.harts| && g != h
    requires Exists(w, g) && Exists(w, h) && CodeOf(w, g).Do? && CodeOf(w, h).Do?
    ensures Touched(w, h).Some? ==>
              P(Touched(w, h).value) in w.locks && w.locks[P(Touched(w, h).value)].setter == Some(h)
    ensures Touched(w, g).Some? ==> Touched(w, g) != Touched(w, h)
  {
    hide Ok;
    hide Inv;
    TouchedOwned(w, g);
    TouchedOwned(w, h);
  }

  lemma TouchedOwned(w: World, h: nat)
    requires Inv(w) && h < |w.harts| && Exists(w, h) && CodeOf(w, h).Do?
    ensures Touched(w, h).Some? ==>
              P(Touched(w, h).value) in w.locks && w.locks[P(Touched(w, h).value)].setter == Some(h)
  {
    hide Ok;
    hide Inv;
    HeadOf(w, h, CodeOf(w, h).op, CodeOf(w, h).next);
    if Touched(w, h).Some? { OwnsMeans(w, h, P(Touched(w, h).value)); }
  }

  /** The interrupt setting a process returns to when it holds no lock changes
      only where it starts, takes or leaves a trap, or sets it by hand: not by
      acquire, release, sleep, yield, or a move to another hart. */
  lemma HomeKept(w: World, w': World, h: nat, act: Act, p: nat)
    requires Next(w, w', h, act) && p < |w.procs|
    requires w.harts[h].runs == Some(p) ==>
               !act.Trap? && !(act.Ask? && act.call.CallSetIntr?)
               && (act.Run? && CodeOf(w, h).Do? ==>
                    !CodeOf(w, h).op.Adopt? && !CodeOf(w, h).op.Sret? && !CodeOf(w, h).op.ClearProc?)
    ensures p < |w'.procs| && w'.procs[p].home == w.procs[p].home
  {
    hide Exec;
    hide Made;
    match act
    case Run => ExecHome(w, h, CodeOf(w, h).op, CodeOf(w, h).next, p);
    case Ask(call) => MadeHome(w, h, call, p);
    case Trap =>
    case Idle(_) =>
  }

  /** Operations on spinlocks and on the hart's own record. */
  predicate OnLocks(op: Op) {
    op.PushOff? || op.PopOff? || op.TestFree? || op.Tas? || op.SetCpu? || op.TestHeld? || op.ClearCpu? || op.Unlock?
    || op.ReadProc? || op.SetIntena? || op.Never? || op.Kernel?
  }

  lemma ExecHome(w: World, h: nat, op: Op, k: Code, p: nat)
    requires Exists(w, h) && Named(w, w.harts[h], op) && p < |w.procs| && Exec(w, h, op, k).To?
    requires w.harts[h].runs == Some(p) ==> !op.Adopt? && !op.Sret? && !op.ClearProc?
    ensures var w' := Exec(w, h, op, k).w; p < |w'.procs| && w'.procs[p].home == w.procs[p].home
  {
    hide Exec;
    if OnLocks(op) { LocksHome(w, h, op, k, p); } else { ProcsHome(w, h, op, k, p); }
  }

  lemma LocksHome(w: World, h: nat, op: Op, k: Code, p: nat)
    requires Exists(w, h) && Named(w, w.harts[h], op) && p < |w.procs| && Exec(w, h, op, k).To? && OnLocks(op)
    ensures var w' := Exec(w, h, op, k).w; p < |w'.procs| && w'.procs[p].home == w.procs[p].home
  {
    hide Acquire;
    hide Release;
    hide LoopCode;
    hide Holding;
  }

  lemma ProcsHome(w: World, h: nat, op: Op, k: Code, p: nat)
    requires Exists(w, h) && Named(w, w.harts[h], op) && p < |w.procs| && Exec(w, h, op, k).To? && !OnLocks(op)
    requires w.harts[h].runs == Some(p) ==> !op.Adopt? && !op.Sret? && !op.ClearProc?
    ensures var w' := Exec(w, h, op, k).w; p < |w'.procs| && w'.procs[p].home == w.procs[p].home
  {
    hide Acquire;
    hide Release;
    hide LoopCode;
    hide Holding;
  }

  lemma MadeHome(w: World, h: nat, call: Call, p: nat)
    requires Exists(w, h) && Allowed(w, h, call) && p < |w.procs|
    requires w.harts[h].runs == Some(p) ==> !call.CallSetIntr?
    ensures var w' := Made(w, h, call); p < |w'.procs| && w'.procs[p].home == w.procs[p].home
  {
    hide Acquire;
    hide Release;
    hide MyProc;
    hide SleepCode;
    hide YieldCode;
    hide ExitCode;
    hide ReturnCode;
  }
}
