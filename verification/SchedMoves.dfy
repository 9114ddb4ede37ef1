/** How the states of the slots move, step by step: who may change them and how. */
module SchedMoves {
  import opened Common
  import opened Wrappers
  import opened SchedState
  import opened SchedTyping
  import opened SchedInv
  import opened SchedSteps
  import opened SchedRuns

  predicate SleepsOn(w: World, q: nat, c: nat) {
    q < |w.procs| && w.procs[q].state == SLEEPING && w.procs[q].chan == Some(c)
  }

  /** Who executes: a process, or the scheduler of a hart. */
  datatype Thread = Task(p: nat) | Scheduler(h: nat)

  function ThreadOn(w: World, h: nat): Thread
    requires Exists(w, h)
  {
    if w.harts[h].runs.Some? then Task(w.harts[h].runs.value) else Scheduler(h)
  }

  predicate Here(w: World, t: Thread) { if t.Task? then t.p < |w.procs| else t.h < |w.harts| }

  /** What a thread has still to do, on a hart or off it. */
  function Todo(w: World, t: Thread): Code
    requires Here(w, t)
  {
    if t.Task? then w.procs[t.p].code else w.harts[t.h].sched
  }

  predicate OwnLoop(w: World, h: nat)
    requires Exists(w, h)
  {
    CodeOf(w, h).Do? && CodeOf(w, h).op.SwtchTo? ==> w.harts[h].runs.None?
  }

  /** What a thread has to do after its next operation. */
  function Rest(w: World, h: nat, op: Op, k: Code): Code
    requires Exists(w, h) && Named(w, w.harts[h], op)
  {
    if op.Wakeup? && op.i < |w.procs| then
      Acquire(P(op.i), Do(WakeIf(op.c, op.i), Release(P(op.i), Do(Wakeup(op.c, op.i + 1), k))))
    else if op.Swtch? then Do(SetIntena(w.harts[h].intena), k)
    else if op.Pick? && w.procs[op.q].state == RUNNABLE then Do(SetProc(op.q), Do(SwtchTo(op.q), Do(ClearProc, k)))
    else k
  }

  /** What an operation of hart h does to the state and the channel of slot p: a
      process stores its own, wakeup rouses a sleeper of its channel, and the
      scheduler picks a process that is RUNNABLE. */
  predicate SlotMoves(w: World, w': World, h: nat, op: Op, p: nat)
    requires h < |w.harts|
  {
    && p < |w.procs| == |w'.procs|
    && var r, own := w.procs[p], w.harts[h].runs == Some(p);
    && w'.procs[p].state == (if own && op.SetState? then op.state
                             else if op.WakeIf? && op.i == p && SleepsOn(w, p, op.c) then RUNNABLE
                             else if op == Pick(p) && r.state == RUNNABLE then RUNNING
                             else r.state)
    && w'.procs[p].chan == if own && op.SetChan? then Some(op.c) else if own && op.ClearChan? then None else r.chan
  }

  predicate Leads(w: World, w': World, h: nat, op: Op, t: Thread, rest: Code)
    requires Exists(w, h) && Here(w, t)
  {
    && Here(w', t) && |w'.procs| == |w.procs|
    && Todo(w', t) == (if ThreadOn(w, h) == t then rest else Todo(w, t))
    && (t.Task? ==> SlotMoves(w, w', h, op, t.p))
  }

  /** Hart h goes on with k, and no slot's state or channel changes. */
  predicate Puts(w: World, w': World, h: nat, k: Code)
    requires Exists(w, h)
  {
    && h < |w'.harts| && w'.harts == w.harts[h := w'.harts[h]] && w'.harts[h].runs == w.harts[h].runs
    && if w.harts[h].runs.Some? then
         var p := w.harts[h].runs.value;
         w'.harts[h].sched == w.harts[h].sched && p < |w'.procs|
         && w'.procs == w.procs[p := w.procs[p].(code := k, home := w'.procs[p].home)]
       else
         w'.harts[h].sched == k && w'.procs == w.procs
  }

  lemma LocksPut(w: World, h: nat, op: Op, k: Code)
    requires Exists(w, h) && Named(w, w.harts[h], op) && Exec(w, h, op, k).To? && OnLocks(op)
    ensures Puts(w, Exec(w, h, op, k).w, h, k)
  {
    hide Holding;
  }

  lemma LocksLead(w: World, h: nat, op: Op, k: Code, t: Thread)
    requires Exists(w, h) && Named(w, w.harts[h], op) && Here(w, t) && Exec(w, h, op, k).To? && OnLocks(op)
    ensures Leads(w, Exec(w, h, op, k).w, h, op, t, k)
  {
    hide Exec;
    LocksPut(w, h, op, k);
  }

  predicate Switches(op: Op) { op.Swtch? || op.Pick? || op.SwtchTo? }

  lemma SlotsLead(w: World, h: nat, op: Op, k: Code, t: Thread)
    requires Exists(w, h) && Named(w, w.harts[h], op) && Here(w, t) && Exec(w, h, op, k).To?
    requires !OnLocks(op) && !Switches(op) && (ThreadOn(w, h) == t ==> !op.Loop?)
    ensures Leads(w, Exec(w, h, op, k).w, h, op, t, Rest(w, h, op, k))
  {
    hide Acquire;
    hide Release;
    hide LoopCode;
    hide Holding;
  }

  lemma SwitchLeads(w: World, h: nat, op: Op, k: Code, t: Thread)
    requires Exists(w, h) && Named(w, w.harts[h], op) && Here(w, t) && Exec(w, h, op, k).To?
    requires Switches(op) && (op.SwtchTo? ==> w.harts[h].runs.None?)
    ensures Leads(w, Exec(w, h, op, k).w, h, op, t, Rest(w, h, op, k))
  {
    hide LoopCode;
  }

  lemma RunLeads(w: World, h: nat, t: Thread)
    requires Exists(w, h) && OwnLoop(w, h) && Here(w, t) && Step(w, h).To?
    requires ThreadOn(w, h) == t ==> CodeOf(w, h).Do? && !CodeOf(w, h).op.Loop?
    ensures CodeOf(w, h).Do? && Named(w, w.harts[h], CodeOf(w, h).op)
    ensures Leads(w, Step(w, h).w, h, CodeOf(w, h).op, t, Rest(w, h, CodeOf(w, h).op, CodeOf(w, h).next))
  {
    hide Exec;
    hide Leads;
    var op, k := CodeOf(w, h).op, CodeOf(w, h).next;
    if OnLocks(op) { LocksLead(w, h, op, k, t); }
    else if Switches(op) { SwitchLeads(w, h, op, k, t); }
    else { SlotsLead(w, h, op, k, t); }
  }

  /** A process that executes is RUNNING until it stores another state. */
  lemma RunnerRuns(w: World, h: nat)
    requires Inv(w) && h < |w.harts| && Exists(w, h) && w.harts[h].open == Closed
    ensures w.harts[h].runs.Some? ==> w.procs[w.harts[h].runs.value].state == RUNNING
  {
    hide Ok;
    SoundOf(w, h);
    HartOkOf(w, h);
    if w.harts[h].runs.Some? {
      var p := w.harts[h].runs.value;
      assert ProcOk(w, p);
      if Handed(w, p) {
        var g := w.locks[P(p)].setter.value;
        SoundOf(w, g);
        HartOkOf(w, g);
      }
    }
  }

  /** What a call does: kill wakes a sleeper, fork takes an unused slot and makes it
      ready, and a slot is freed that is a zombie or was never ready. */
  predicate SlotCall(w: World, w': World, call: Call, p: nat) {
    && p < |w.procs| == |w'.procs|
    && var r, s := w.procs[p], w'.procs[p];
    && (call == CallAlloc(p) ==> r.state == UNUSED) && (call == CallReady(p) ==> r.state == USED)
    && (call == CallFree(p) ==> r.state == ZOMBIE || r.state == USED)
    && s.state == (if call == CallWake(p) && r.state == SLEEPING then RUNNABLE
                   else if call == CallAlloc(p) then USED
                   else if call == CallReady(p) then RUNNABLE
                   else if call == CallFree(p) then UNUSED
                   else r.state)
    && s.chan == if call == CallAlloc(p) || call == CallFree(p) then None else r.chan
  }

  lemma CallMoves(w: World, h: nat, call: Call, p: nat)
    requires Exists(w, h) && Allowed(w, h, call) && p < |w.procs|
    ensures SlotCall(w, Made(w, h, call), call, p)
  {
    hide Acquire;
    hide Release;
    hide MyProc;
    hide SleepCode;
    hide YieldCode;
    hide ExitCode;
    hide ReturnCode;
  }

  lemma TrapMoves(w: World, w': World, h: nat, act: Act, p: nat)
    requires Next(w, w', h, act) && (act.Trap? || act.Idle?) && p < |w.procs|
    ensures p < |w'.procs| && w'.procs[p].state == w.procs[p].state && w'.procs[p].chan == w.procs[p].chan
  {
  }

  predicate Edge(from: PState, to: PState) {
    match from
    case UNUSED => to == USED
    case USED => to == RUNNABLE || to == UNUSED
    case RUNNABLE => to == RUNNING
    case RUNNING => to != USED
    case SLEEPING => to == RUNNABLE
    case ZOMBIE => to == UNUSED
  }

  /** Every step moves every slot along the life of a process, and only in these
      ways: the process itself leaves RUNNING, the scheduler picks it when it is
      RUNNABLE, and another thread wakes it, takes its slot or frees it. */
  lemma StatesMove(w: World, w': World, h: nat, act: Act, p: nat)
    requires Inv(w) && h < |w.harts| && Next(w, w', h, act) && p < |w.procs|
    ensures p < |w'.procs|
    ensures w'.procs[p].state == w.procs[p].state || Edge(w.procs[p].state, w'.procs[p].state)
    ensures match act
            case Run => Exists(w, h) && CodeOf(w, h).Do? && SlotMoves(w, w', h, CodeOf(w, h).op, p)
            case Ask(call) => SlotCall(w, w', call, p)
            case _ => w'.procs[p].state == w.procs[p].state && w'.procs[p].chan == w.procs[p].chan
  {
    hide Inv;
    hide Ok;
    hide Exec;
    hide Made;
    hide Allowed;
    if act.Run? {
      var op := CodeOf(w, h).op;
      HeadOf(w, h, op, CodeOf(w, h).next);
      RunLeads(w, h, Task(p));
      if op.SetState? { RunnerRuns(w, h); }
    } else if act.Ask? {
      CallMoves(w, h, act.call, p);
    } else {
      TrapMoves(w, w', h, act, p);
    }
  }

  // ---- what each way out of a process stores ----

  /** The state a list stores before it switches away. */
  function FirstStore(c: Code): Option<PState>
    decreases c
  {
    if c.End? || c.op.Swtch? then None
    else if c.op.SetState? then Some(c.op.state)
    else FirstStore(c.next)
  }

  lemma StorePassed(l: LockId, k: Code)
    ensures FirstStore(Acquire(l, k)) == FirstStore(Release(l, k)) == FirstStore(MyProc(k)) == FirstStore(k)
  {
    assert FirstStore(Do(Tas(l), Do(SetCpu(l), k))) == FirstStore(k);
    assert FirstStore(Do(TestFree(l), Do(Tas(l), Do(SetCpu(l), k)))) == FirstStore(k);
    assert FirstStore(Do(Unlock(l), Do(PopOff, k))) == FirstStore(k);
    assert FirstStore(Do(ClearCpu(l), Do(Unlock(l), Do(PopOff, k)))) == FirstStore(k);
    assert FirstStore(Do(ReadProc, Do(PopOff, k))) == FirstStore(k);
  }

  /** yield leaves the process RUNNABLE, sleep SLEEPING, proc_exit ZOMBIE. */
  lemma StoresBeforeSwitch(p: nat, c: nat, lk: LockId, k: Code)
    ensures FirstStore(YieldCode(p, k)) == Some(RUNNABLE)
    ensures FirstStore(SleepCode(p, c, lk, k)) == Some(SLEEPING)
    ensures FirstStore(ExitCode(p)) == Some(ZOMBIE)
  {
    hide Acquire;
    hide Release;
    hide MyProc;
    hide SchedCode;
    var y := Do(SetState(RUNNABLE), SchedCode(Release(P(p), k)));
    StorePassed(P(p), y);
    StorePassed(P(p), Acquire(P(p), y));
    var s := Do(SetChan(c), Do(SetState(SLEEPING), SchedCode(Do(ClearChan, Release(P(p), Acquire(lk, k))))));
    StorePassed(lk, s);
    StorePassed(P(p), Release(lk, s));
    StorePassed(P(p), Acquire(P(p), Release(lk, s)));
    StorePassed(P(p), Do(SetState(ZOMBIE), Release(WAIT_LOCK, SchedCode(Do(Never, End)))));
  }

  // ---- the scheduler's round ----

  /** The slot a list tests next, and the slot its loop goes on with. */
  function FirstPick(c: Code): Option<nat>
    decreases c
  {
    if c.End? || c.op.Loop? then None else if c.op.Pick? then Some(c.op.q) else FirstPick(c.next)
  }

  function FirstLoop(c: Code): Option<nat>
    decreases c
  {
    if c.End? then None else if c.op.Loop? then Some(c.op.i) else FirstLoop(c.next)
  }

  /** The scheduler tests one slot after the other, round and round: at slot i its
      list tests i and goes on with the next slot, and its other operations leave
      it to go on there. */
  lemma LoopTurns(w: World, h: nat)
    requires Inv(w) && h < |w.harts| && w.harts[h].runs.None? && Exists(w, h) && Step(w, h).To?
    ensures var c, w' := w.harts[h].sched, Step(w, h).w;
            && c.Do? && h < |w'.harts|
            && if c.op.Loop? then
                 FirstPick(w'.harts[h].sched) == Some(c.op.i)
                 && FirstLoop(w'.harts[h].sched) == Some((c.op.i + 1) % |w.procs|)
               else FirstLoop(w'.harts[h].sched) == FirstLoop(c)
  {
    hide Inv;
    hide Ok;
    hide Exec;
    var c := w.harts[h].sched;
    HeadOf(w, h, c.op, c.next);
    ProcLocks(w);
    if c.op.Loop? {
      TurnList(w, h, c.op.i, c.next);
    } else {
      RunLeads(w, h, Scheduler(h));
      LoopPassed(w, h, c.op, c.next);
    }
  }

  lemma ProcLocks(w: World)
    requires Inv(w)
    ensures forall p: nat :: P(p) in w.locks <==> p < |w.procs|
  {
  }

  lemma TurnList(w: World, h: nat, i: nat, k: Code)
    requires Exists(w, h) && w.harts[h].runs.None? && i < |w.procs|
    ensures Exec(w, h, Loop(i), k).To?
    ensures var w' := Exec(w, h, Loop(i), k).w;
            h < |w'.harts| && FirstPick(w'.harts[h].sched) == Some(i)
            && FirstLoop(w'.harts[h].sched) == Some((i + 1) % |w.procs|)
  {
    hide LoopCode;
    hide FirstPick;
    hide FirstLoop;
    TurnCode(i, if i + 1 < |w.procs| then i + 1 else 0);
  }

  lemma TurnCode(i: nat, next: nat)
    ensures FirstPick(LoopCode(i, next)) == Some(i) && FirstLoop(LoopCode(i, next)) == Some(next)
  {
    hide Acquire;
    hide Release;
    var last := Do(Loop(next), End);
    var rest := Do(Pick(i), Release(P(i), last));
    LoopLock(P(i), last);
    LoopLock(P(i), rest);
    assert FirstLoop(last) == Some(next);
    assert FirstLoop(rest) == FirstLoop(Release(P(i), last));
  }

  lemma LoopLock(l: LockId, k: Code)
    ensures FirstLoop(Acquire(l, k)) == FirstLoop(Release(l, k)) == FirstLoop(k)
    ensures FirstPick(Acquire(l, k)) == FirstPick(k)
  {
    assert FirstLoop(Do(Tas(l), Do(SetCpu(l), k))) == FirstLoop(k);
    assert FirstLoop(Do(TestFree(l), Do(Tas(l), Do(SetCpu(l), k)))) == FirstLoop(k);
    assert FirstLoop(Do(Unlock(l), Do(PopOff, k))) == FirstLoop(k);
    assert FirstLoop(Do(ClearCpu(l), Do(Unlock(l), Do(PopOff, k)))) == FirstLoop(k);
    assert FirstPick(Do(Tas(l), Do(SetCpu(l), k))) == FirstPick(k);
    assert FirstPick(Do(TestFree(l), Do(Tas(l), Do(SetCpu(l), k)))) == FirstPick(k);
  }

  lemma LoopPassed(w: World, h: nat, op: Op, k: Code)
    requires Exists(w, h) && Named(w, w.harts[h], op) && !op.Loop?
    ensures FirstLoop(Rest(w, h, op, k)) == FirstLoop(k)
  {
    hide Acquire;
    hide Release;
    if op.Wakeup? && op.i < |w.procs| {
      var t := Do(Wakeup(op.c, op.i + 1), k);
      LoopLock(P(op.i), t);
      LoopLock(P(op.i), Do(WakeIf(op.c, op.i), Release(P(op.i), t)));
      assert FirstLoop(t) == FirstLoop(k);
    } else if op.Pick? {
      assert FirstLoop(Do(SwtchTo(op.q), Do(ClearProc, k))) == FirstLoop(k);
    }
  }
}
