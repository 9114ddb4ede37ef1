/** No wakeup is lost: what sleep has still to do once it has let go of the
    caller's lock, it does with the lock of its own slot held. */
module SchedWake {
  import opened Common
  import opened Wrappers
  import opened SchedState
  import opened SchedTyping
  import opened SchedInv
  import opened SchedSteps
  import opened SchedRuns
  import opened SchedMoves

  predicate Releasing(op: Op) {
    op.PushOff? || op.PopOff? || op.ReadProc? || op.TestHeld? || op.ClearCpu? || op.Unlock?
  }

  /** All that the list does before it stores SLEEPING is to release locks and
      to set the channel. */
  predicate Committed(c: Code)
    decreases c
  {
    c.Do? && (c.op == SetState(SLEEPING)
              || ((Releasing(c.op) || c.op.SetChan?) && Committed(c.next)))
  }

  /** The channel stored by then, if any. */
  function ChanStored(c: Code, was: Option<nat>): Option<nat>
    requires Committed(c)
    decreases c
  {
    if c.op == SetState(SLEEPING) then was
    else ChanStored(c.next, if c.op.SetChan? then Some(c.op.c) else was)
  }

  /** What comes after the first release of lock l. */
  function AfterUnlock(c: Code, l: LockId): Code
    decreases c
  {
    match c
    case End => End
    case Do(op, k) => if op == Unlock(l) then k else AfterUnlock(k, l)
  }

  /** From its release of the caller's lock on, sleep is committed to sleeping on
      the channel it was given. */
  lemma SleepCommits(p: nat, c: nat, lk: LockId, k: Code)
    requires lk != P(p)
    ensures Committed(AfterUnlock(SleepCode(p, c, lk, k), lk))
    ensures forall was: Option<nat> :: ChanStored(AfterUnlock(SleepCode(p, c, lk, k), lk), was) == Some(c)
  {
    var last := SchedCode(Do(ClearChan, Release(P(p), Acquire(lk, k))));
    var s := Do(SetState(SLEEPING), last);
    var t := Do(SetChan(c), s);
    var r := Do(Unlock(lk), Do(PopOff, t));
    assert Committed(s);
    assert Committed(t);
    assert Committed(Do(PopOff, t));
    assert AfterUnlock(r, lk) == Do(PopOff, t);
    var q := Do(TestHeld(lk), Do(ClearCpu(lk), r));
    assert AfterUnlock(Do(ClearCpu(lk), r), lk) == Do(PopOff, t);
    assert AfterUnlock(q, lk) == Do(PopOff, t);
    AcquirePassed(P(p), lk, q);
    MyProcPassed(lk, Acquire(P(p), q));
    assert AfterUnlock(SleepCode(p, c, lk, k), lk) == Do(PopOff, t);
    forall was: Option<nat> ensures ChanStored(Do(PopOff, t), was) == Some(c) {
      assert ChanStored(s, Some(c)) == Some(c);
      assert ChanStored(t, was) == Some(c);
    }
  }

  lemma AcquirePassed(m: LockId, l: LockId, k: Code)
    ensures AfterUnlock(Acquire(m, k), l) == AfterUnlock(k, l)
  {
    assert AfterUnlock(Do(SetCpu(m), k), l) == AfterUnlock(k, l);
    assert AfterUnlock(Do(Tas(m), Do(SetCpu(m), k)), l) == AfterUnlock(k, l);
    assert AfterUnlock(Do(TestFree(m), Do(Tas(m), Do(SetCpu(m), k))), l) == AfterUnlock(k, l);
  }

  lemma MyProcPassed(l: LockId, k: Code)
    ensures AfterUnlock(MyProc(k), l) == AfterUnlock(k, l)
  {
    assert AfterUnlock(Do(PopOff, k), l) == AfterUnlock(k, l);
    assert AfterUnlock(Do(ReadProc, Do(PopOff, k)), l) == AfterUnlock(k, l);
  }

  /** A committed list owns the lock of its process. */
  lemma {:induction false} CommittedOwns(c: Code, a: Abs)
    requires Ok(c, a) && Committed(c)
    ensures a.me.Some? && P(a.me.value) in a.owns
    decreases c
  {
    if c.op != SetState(SLEEPING) { CommittedOwns(c.next, After(c.op, a)); }
  }

  /** While a process is committed to sleeping, no other hart tests its slot in
      wakeup, and one that comes to take its lock spins: it finds the slot only
      after the switch, asleep. */
  lemma NoLostWakeup(w: World, g: nat, h: nat)
    requires Inv(w) && g < |w.harts| && h < |w.harts| && g != h
    requires Exists(w, g) && Exists(w, h) && CodeOf(w, g).Do? && Committed(CodeOf(w, h))
    ensures w.harts[h].runs.Some?
    ensures var p := w.harts[h].runs.value;
            && P(p) in w.locks && w.locks[P(p)].locked && w.locks[P(p)].setter == Some(h)
            && (CodeOf(w, g).op.WakeIf? ==> CodeOf(w, g).op.i != p)
            && (CodeOf(w, g).op == Tas(P(p)) ==> Step(w, g) == Wait)
  {
    hide Ok;
    hide Inv;
    HartOkOf(w, h);
    OkOf(w, h);
    CommittedOwns(CodeOf(w, h), AbsOf(w, h));
    var p := w.harts[h].runs.value;
    OwnedIn(w, h, P(p));
    TouchedOwned(w, g);
  }

  lemma OkOf(w: World, h: nat)
    requires h < |w.harts| && HartOk(w, h)
    ensures Exists(w, h) && Ok(CodeOf(w, h), AbsOf(w, h))
  {
  }

  lemma OwnedIn(w: World, h: nat, l: LockId)
    requires Inv(w) && h < |w.harts| && l in w.harts[h].owns
    ensures l in w.locks && w.locks[l].setter == Some(h) && w.locks[l].locked
  {
    assert HartOk(w, h);
    assert l in w.locks;
    OwnsMeans(w, h, l);
    assert LockOk(w, l);
  }

  /** Its steps then lead to SLEEPING on that channel. */
  lemma FallsAsleep(w: World, h: nat)
    requires Inv(w) && h < |w.harts| && Exists(w, h) && Committed(CodeOf(w, h)) && Step(w, h).To?
    ensures w.harts[h].runs.Some?
    ensures var p, w' := w.harts[h].runs.value, Step(w, h).w;
            && p < |w'.procs| && h < |w'.harts| && w'.harts[h].runs == Some(p)
            && if CodeOf(w, h).op == SetState(SLEEPING) then
                 w'.procs[p].state == SLEEPING && w'.procs[p].chan == w.procs[p].chan
               else
                 Committed(CodeOf(w', h))
                 && ChanStored(CodeOf(w', h), w'.procs[p].chan) == ChanStored(CodeOf(w, h), w.procs[p].chan)
  {
    hide Ok;
    hide Inv;
    HartOkOf(w, h);
    OkOf(w, h);
    CommittedOwns(CodeOf(w, h), AbsOf(w, h));
    var op := CodeOf(w, h).op;
    if Releasing(op) { StaysCommitted(w, h); } else { SlotCommitted(w, h); }
  }

  lemma StaysCommitted(w: World, h: nat)
    requires Exists(w, h) && Committed(CodeOf(w, h)) && Step(w, h).To? && Releasing(CodeOf(w, h).op)
             && w.harts[h].runs.Some?
    ensures var p, w' := w.harts[h].runs.value, Step(w, h).w;
            && p < |w'.procs| && h < |w'.harts| && w'.harts[h].runs == Some(p)
            && CodeOf(w', h) == CodeOf(w, h).next && w'.procs[p].chan == w.procs[p].chan
  {
  }

  lemma SlotCommitted(w: World, h: nat)
    requires Exists(w, h) && Committed(CodeOf(w, h)) && Step(w, h).To? && !Releasing(CodeOf(w, h).op)
             && w.harts[h].runs.Some?
    requires Inv(w) && h < |w.harts|
    ensures var p, w' := w.harts[h].runs.value, Step(w, h).w;
            && p < |w'.procs| && h < |w'.harts| && w'.harts[h].runs == Some(p)
            && if CodeOf(w, h).op == SetState(SLEEPING) then
                 w'.procs[p].state == SLEEPING && w'.procs[p].chan == w.procs[p].chan
               else
                 Committed(CodeOf(w', h))
                 && ChanStored(CodeOf(w', h), w'.procs[p].chan) == ChanStored(CodeOf(w, h), w.procs[p].chan)
  {
    hide Ok;
    hide Inv;
    HeadOf(w, h, CodeOf(w, h).op, CodeOf(w, h).next);
  }

  // ---- wakeup ----

  /** wakeup's test of slot i: it becomes RUNNABLE if it sleeps on the channel and
      keeps its state otherwise; no channel changes, and no other state. */
  lemma WakeIfMeans(w: World, w': World, h: nat, q: nat)
    requires Next(w, w', h, Run) && CodeOf(w, h).Do? && CodeOf(w, h).op.WakeIf? && q < |w.procs|
    ensures var c, i := CodeOf(w, h).op.c, CodeOf(w, h).op.i;
            && i < |w.procs| == |w'.procs| && w'.procs[q].chan == w.procs[q].chan
            && w'.procs[q].state == if q == i && SleepsOn(w, q, c) then RUNNABLE else w.procs[q].state
  {
  }

  /** A process that has not called proc_exit. */
  predicate Living(w: World, t: Thread)
    requires Here(w, t)
  {
    t.Task? ==> w.procs[t.p].state == RUNNING || w.procs[t.p].state == RUNNABLE || w.procs[t.p].state == SLEEPING
  }

  /** Neither the end of a process nor the scheduler's loop. */
  predicate Mild(op: Op) { !op.Loop? && (op.SetState? ==> op.state == RUNNABLE || op.state == SLEEPING) }

  /** The list goes on with k. */
  predicate Over(x: Code, k: Code)
    decreases x
  {
    x == k || (x.Do? && Mild(x.op) && Over(x.next, k))
  }

  /** Before it goes on with k, it tests slot q for channel c. */
  predicate Ahead(x: Code, c: nat, q: nat, k: Code)
    decreases x
  {
    x.Do? && Mild(x.op)
    && (((x.op == WakeIf(c, q) || (x.op.Wakeup? && x.op.c == c && x.op.i <= q)) && Over(x.next, k))
        || Ahead(x.next, c, q, k))
  }

  function Size(x: Code): nat { if x.Do? then 1 + Size(x.next) else 0 }

  lemma {:induction false} OverSize(x: Code, k: Code)
    requires Over(x, k)
    ensures Size(x) >= Size(k)
    decreases x
  {
    if x != k { OverSize(x.next, k); }
  }

  lemma {:induction false} AheadSize(x: Code, c: nat, q: nat, k: Code)
    requires Ahead(x, c, q, k)
    ensures Size(x) > Size(k)
    decreases x
  {
    if Ahead(x.next, c, q, k) { AheadSize(x.next, c, q, k); } else { OverSize(x.next, k); }
  }

  lemma AheadAcquire(l: LockId, x: Code, c: nat, q: nat, k: Code)
    requires Ahead(x, c, q, k)
    ensures Ahead(Acquire(l, x), c, q, k)
  {
    assert Ahead(Do(SetCpu(l), x), c, q, k);
    assert Ahead(Do(Tas(l), Do(SetCpu(l), x)), c, q, k);
    assert Ahead(Do(TestFree(l), Do(Tas(l), Do(SetCpu(l), x))), c, q, k);
  }

  lemma AheadRelease(l: LockId, x: Code, c: nat, q: nat, k: Code)
    requires Ahead(x, c, q, k)
    ensures Ahead(Release(l, x), c, q, k)
  {
    assert Ahead(Do(PopOff, x), c, q, k);
    assert Ahead(Do(Unlock(l), Do(PopOff, x)), c, q, k);
    assert Ahead(Do(ClearCpu(l), Do(Unlock(l), Do(PopOff, x))), c, q, k);
  }

  lemma AheadMyProc(x: Code, c: nat, q: nat, k: Code)
    requires Ahead(x, c, q, k)
    ensures Ahead(MyProc(x), c, q, k)
  {
    assert Ahead(Do(PopOff, x), c, q, k);
    assert Ahead(Do(ReadProc, Do(PopOff, x)), c, q, k);
  }

  lemma AheadSched(x: Code, c: nat, q: nat, k: Code)
    requires Ahead(x, c, q, k)
    ensures Ahead(SchedCode(x), c, q, k)
  {
    assert Ahead(Do(Swtch, x), c, q, k);
    AheadMyProc(Do(SchedCheck, Do(Swtch, x)), c, q, k);
  }

  lemma AheadSleep(p: nat, ch: nat, lk: LockId, x: Code, c: nat, q: nat, k: Code)
    requires Ahead(x, c, q, k)
    ensures Ahead(SleepCode(p, ch, lk, x), c, q, k)
  {
    AheadAcquire(lk, x, c, q, k);
    AheadRelease(P(p), Acquire(lk, x), c, q, k);
    var back := Do(ClearChan, Release(P(p), Acquire(lk, x)));
    AheadSched(back, c, q, k);
    var s := Do(SetState(SLEEPING), SchedCode(back));
    assert Ahead(s, c, q, k);
    AheadRelease(lk, Do(SetChan(ch), s), c, q, k);
    AheadAcquire(P(p), Release(lk, Do(SetChan(ch), s)), c, q, k);
    AheadMyProc(Acquire(P(p), Release(lk, Do(SetChan(ch), s))), c, q, k);
  }

  lemma AheadYield(p: nat, x: Code, c: nat, q: nat, k: Code)
    requires Ahead(x, c, q, k)
    ensures Ahead(YieldCode(p, x), c, q, k)
  {
    AheadRelease(P(p), x, c, q, k);
    AheadSched(Release(P(p), x), c, q, k);
    var s := Do(SetState(RUNNABLE), SchedCode(Release(P(p), x)));
    AheadAcquire(P(p), s, c, q, k);
    AheadMyProc(Acquire(P(p), s), c, q, k);
  }

  lemma OverRelease(l: LockId, x: Code, k: Code)
    requires Over(x, k)
    ensures Over(Release(l, x), k)
  {
    assert Over(Do(PopOff, x), k);
    assert Over(Do(Unlock(l), Do(PopOff, x)), k);
    assert Over(Do(ClearCpu(l), Do(Unlock(l), Do(PopOff, x))), k);
  }

  /** A turn of wakeup's loop has the test of q ahead, in this slot or a later one. */
  lemma AheadTurn(n: nat, i: nat, x: Code, c: nat, q: nat, k: Code)
    requires i <= q < n && Over(x, k)
    ensures Ahead(Acquire(P(i), Do(WakeIf(c, i), Release(P(i), Do(Wakeup(c, i + 1), x)))), c, q, k)
  {
    var rest := Release(P(i), Do(Wakeup(c, i + 1), x));
    if i == q {
      assert Over(Do(Wakeup(c, i + 1), x), k);
      OverRelease(P(i), Do(Wakeup(c, i + 1), x), k);
    } else {
      AheadRelease(P(i), Do(Wakeup(c, i + 1), x), c, q, k);
    }
    AheadAcquire(P(i), Do(WakeIf(c, i), rest), c, q, k);
  }

  /** The operation of t that hart h executes tests slot q for channel c. */
  predicate Tests(w: World, h: nat, act: Act, t: Thread, c: nat, q: nat) {
    Exists(w, h) && act == Run && ThreadOn(w, h) == t && CodeOf(w, h).Do? && CodeOf(w, h).op == WakeIf(c, q)
  }

  /** Thread t calls proc_exit, or its start function returns. */
  predicate Ends(w: World, h: nat, act: Act, t: Thread) {
    Exists(w, h) && ThreadOn(w, h) == t && act.Ask? && (act.call.CallExit? || act.call.CallReturn?)
  }

  /** The test of slot q is ahead of t, which is neither ended nor freed. */
  predicate Pending(w: World, t: Thread, c: nat, q: nat, k: Code) {
    Here(w, t) && Living(w, t) && q < |w.procs| && Ahead(Todo(w, t), c, q, k)
  }

  /** What an operation, or a call, leaves to a thread that does not make it. */
  predicate Left(w: World, w': World, t: Thread)
    requires Here(w, t)
  {
    Here(w', t) && |w'.procs| == |w.procs| && Todo(w', t) == Todo(w, t) && (Living(w, t) ==> Living(w', t))
  }

  lemma OtherAsk(w: World, h: nat, call: Call, t: Thread)
    requires Exists(w, h) && ThreadOn(w, h) != t && Here(w, t) && Allowed(w, h, call) && Living(w, t)
    ensures Left(w, Made(w, h, call), t)
  {
    hide SleepCode;
    hide YieldCode;
    hide ExitCode;
    hide ReturnCode;
    hide Acquire;
    hide Release;
    hide MyProc;
  }

  lemma OtherTrap(w: World, w': World, h: nat, act: Act, t: Thread)
    requires Next(w, w', h, act) && ThreadOn(w, h) != t && Here(w, t) && (act.Trap? || act.Idle?)
    ensures Left(w, w', t)
  {
  }

  /** A step of one thread leaves another where it is. */
  lemma OtherThread(w: World, w': World, h: nat, act: Act, t: Thread)
    requires Next(w, w', h, act) && Exists(w, h) && OwnLoop(w, h) && ThreadOn(w, h) != t && Here(w, t) && Living(w, t)
    ensures Left(w, w', t)
  {
    hide Exec;
    hide Made;
    hide Allowed;
    if act.Run? { RunLeads(w, h, t); } else if act.Ask? { OtherAsk(w, h, act.call, t); }
    else { OtherTrap(w, w', h, act, t); }
  }

  lemma OwnRun(w: World, h: nat, t: Thread, c: nat, q: nat, k: Code)
    requires Exists(w, h) && ThreadOn(w, h) == t && Pending(w, t, c, q, k) && Step(w, h).To? && OwnLoop(w, h)
    ensures Pending(Step(w, h).w, t, c, q, k) || Tests(w, h, Run, t, c, q)
  {
    hide Ahead;
    hide Over;
    hide Acquire;
    hide Release;
    hide Exec;
    var op, x := CodeOf(w, h).op, CodeOf(w, h).next;
    AheadParts(op, x, c, q, k);
    RunLeads(w, h, t);
    if op.Wakeup? && op.c == c && op.i <= q && Over(x, k) {
      AheadTurn(|w.procs|, op.i, x, c, q, k);
    } else if !Tests(w, h, Run, t, c, q) {
      if op.Wakeup? { AheadTurns(op.c, op.i, x, c, q, k); }
      else if op.Swtch? { AheadOne(SetIntena(w.harts[h].intena), x, c, q, k); }
      else if op.Pick? { AheadPick(op.q, x, c, q, k); }
    }
  }

  lemma AheadParts(op: Op, x: Code, c: nat, q: nat, k: Code)
    requires Ahead(Do(op, x), c, q, k)
    ensures Mild(op)
    ensures Ahead(x, c, q, k)
            || ((op == WakeIf(c, q) || (op.Wakeup? && op.c == c && op.i <= q)) && Over(x, k))
  {
  }

  lemma AheadOne(op: Op, x: Code, c: nat, q: nat, k: Code)
    requires Ahead(x, c, q, k) && Mild(op)
    ensures Ahead(Do(op, x), c, q, k)
  {
  }

  lemma AheadTurns(d: nat, i: nat, x: Code, c: nat, q: nat, k: Code)
    requires Ahead(x, c, q, k)
    ensures Ahead(Acquire(P(i), Do(WakeIf(d, i), Release(P(i), Do(Wakeup(d, i + 1), x)))), c, q, k)
  {
    AheadOne(Wakeup(d, i + 1), x, c, q, k);
    AheadRelease(P(i), Do(Wakeup(d, i + 1), x), c, q, k);
    AheadOne(WakeIf(d, i), Release(P(i), Do(Wakeup(d, i + 1), x)), c, q, k);
    AheadAcquire(P(i), Do(WakeIf(d, i), Release(P(i), Do(Wakeup(d, i + 1), x))), c, q, k);
  }

  lemma AheadPick(p: nat, x: Code, c: nat, q: nat, k: Code)
    requires Ahead(x, c, q, k)
    ensures Ahead(Do(SetProc(p), Do(SwtchTo(p), Do(ClearProc, x))), c, q, k)
  {
    AheadOne(ClearProc, x, c, q, k);
    AheadOne(SwtchTo(p), Do(ClearProc, x), c, q, k);
    AheadOne(SetProc(p), Do(SwtchTo(p), Do(ClearProc, x)), c, q, k);
  }

  lemma OwnAsk(w: World, w': World, h: nat, call: Call, t: Thread, c: nat, q: nat, k: Code)
    requires Next(w, w', h, Ask(call)) && ThreadOn(w, h) == t && Pending(w, t, c, q, k) && !Ends(w, h, Ask(call), t)
    ensures Pending(w', t, c, q, k)
  {
    hide Ahead;
    hide Acquire;
    hide Release;
    hide MyProc;
    hide SleepCode;
    hide YieldCode;
    var x := CodeOf(w, h);
    AheadParts(x.op, x.next, c, q, k);
    match call {
      case CallAcquire(l) => AheadAcquire(l, x, c, q, k);
      case CallRelease(l) => AheadRelease(l, x, c, q, k);
      case CallMyProc => AheadMyProc(x, c, q, k);
      case CallSleep(ch, lk) => AheadSleep(t.p, ch, lk, x, c, q, k);
      case CallYield => AheadYield(t.p, x, c, q, k);
      case CallWakeup(ch) => AheadOne(Wakeup(ch, 0), x, c, q, k);
      case _ =>
    }
  }

  lemma StepPending(w: World, w': World, h: nat, act: Act, t: Thread, c: nat, q: nat, k: Code)
    requires Next(w, w', h, act) && Exists(w, h) && OwnLoop(w, h) && Pending(w, t, c, q, k) && !Ends(w, h, act, t)
    ensures Pending(w', t, c, q, k) || Tests(w, h, act, t, c, q)
  {
    hide Ahead;
    hide Exec;
    hide Made;
    hide Allowed;
    if ThreadOn(w, h) != t {
      OtherThread(w, w', h, act, t);
    } else if act.Run? {
      OwnRun(w, h, t, c, q, k);
    } else if act.Ask? {
      OwnAsk(w, w', h, act.call, t, c, q, k);
    } else {
      OwnTrap(w, w', h, act, t, c, q, k);
    }
  }

  lemma OwnTrap(w: World, w': World, h: nat, act: Act, t: Thread, c: nat, q: nat, k: Code)
    requires Next(w, w', h, act) && ThreadOn(w, h) == t && Pending(w, t, c, q, k) && (act.Trap? || act.Idle?)
    ensures Pending(w', t, c, q, k)
  {
    hide Ahead;
    var x := CodeOf(w, h);
    AheadOne(Sret, x, c, q, k);
    AheadOne(Kernel, Do(Sret, x), c, q, k);
  }

  /** Slot q is made RUNNABLE if it sleeps on c, and keeps its state otherwise. */
  predicate Rouses(w: World, w': World, c: nat, q: nat) {
    q < |w.procs| == |w'.procs|
    && w'.procs[q].state == if SleepsOn(w, q, c) then RUNNABLE else w.procs[q].state
  }

  /** Thread t goes on with k. */
  predicate Back(w: World, t: Thread, k: Code) { Here(w, t) && Todo(w, t) == k }

  /** wakeup(c): before the call returns it has tested every slot, and a process
      that sleeps on c at that moment is RUNNABLE after it. So none sleeps on c all
      through the call. */
  lemma WakeupWakes(ws: seq<World>, es: seq<Event>, j: nat, m: nat, t: Thread, c: nat, q: nat)
    requires SchedRuns.Run(ws, es) && j < m < |ws| == |es| + 1 && q < |ws[j].procs|
    requires es[j].act == Ask(CallWakeup(c)) && Exists(ws[j], es[j].h) && ThreadOn(ws[j], es[j].h) == t
    requires Back(ws[m], t, CodeOf(ws[j], es[j].h))
    requires forall n: nat | j < n < m :: !Ends(ws[n], es[n].h, es[n].act, t)
    ensures exists n: nat :: j < n < m && Tests(ws[n], es[n].h, es[n].act, t, c, q) && Rouses(ws[n], ws[n + 1], c, q)
    ensures exists n: nat :: j < n <= m && !SleepsOn(ws[n], q, c)
  {
    hide Next;
    hide Inv;
    hide SchedRuns.Run;
    hide Ahead;
    var k := CodeOf(ws[j], es[j].h);
    StepOf(ws, es, j);
    CallPending(ws[j], ws[j + 1], es[j].h, c, q);
    var n := j + 1;
    while n < m && !Tests(ws[n], es[n].h, es[n].act, t, c, q)
      invariant j < n <= m && Pending(ws[n], t, c, q, k)
    {
      StepOf(ws, es, n);
      StepPending(ws[n], ws[n + 1], es[n].h, es[n].act, t, c, q, k);
      n := n + 1;
    }
    if n == m {
      AheadSize(k, c, q, k);
      assert false;
    }
    StepOf(ws, es, n);
    WakeIfMeans(ws[n], ws[n + 1], es[n].h, q);
    assert Rouses(ws[n], ws[n + 1], c, q);
    assert !SleepsOn(ws[n], q, c) || !SleepsOn(ws[n + 1], q, c);
  }

  lemma StepOf(ws: seq<World>, es: seq<Event>, n: nat)
    requires SchedRuns.Run(ws, es) && n < |es|
    ensures |ws| == |es| + 1 && Inv(ws[n]) && Next(ws[n], ws[n + 1], es[n].h, es[n].act)
    ensures Exists(ws[n], es[n].h) && OwnLoop(ws[n], es[n].h)
  {
    hide Inv;
    hide Init;
    hide Step;
    hide Ok;
    EveryRun(ws, es, n);
    assert es[n] == es[n];
    var w, h := ws[n], es[n].h;
    if CodeOf(w, h).Do? { HeadOf(w, h, CodeOf(w, h).op, CodeOf(w, h).next); }
  }

  lemma CallPending(w: World, w': World, h: nat, c: nat, q: nat)
    requires Inv(w) && Next(w, w', h, Ask(CallWakeup(c))) && q < |w.procs|
    ensures Pending(w', ThreadOn(w, h), c, q, CodeOf(w, h))
  {
    hide Inv;
    KernelHead(w, h);
    RunnerRuns(w, h);
    assert Over(CodeOf(w, h), CodeOf(w, h));
  }
}
