/** The scheduler as a machine of many harts, one memory operation a step.
    A context is the list of operations it has still to do, so that a context
    switch only changes which list a hart works on. */
module SchedState {
  import opened Common
  import opened Wrappers

  /** The lock of process slot p, or any other spinlock. */
  datatype LockId = P(p: nat) | L(n: nat)

  const WAIT_LOCK := L(0)

  datatype Op =
    // push_off, pop_off, and the single accesses of acquire and release
    | PushOff | PopOff
    | TestFree(l: LockId) | Tas(l: LockId) | SetCpu(l: LockId)
    | TestHeld(l: LockId) | ClearCpu(l: LockId) | Unlock(l: LockId)
    // the body of myproc, the stores of sleep, yield and proc_exit, and sched
    | ReadProc | SetChan(c: nat) | ClearChan | SetState(state: PState)
    | SchedCheck | Swtch | SetIntena(b: bool) | Never
    // wakeup's loop and its test-and-wake
    | Wakeup(c: nat, i: nat) | WakeIf(c: nat, i: nat)
    // the scheduler's loop, its test of a slot, and the stores around swtch
    | Loop(i: nat) | Pick(q: nat) | SetProc(q: nat) | SwtchTo(q: nat) | ClearProc
    // the start of a new process, any other kernel code, return from a trap
    | Adopt | Kernel | Sret

  datatype Code = End | Do(op: Op, next: Code)

  /** The process a hart is handing over: marked RUNNING and not yet in c->proc,
      or no longer RUNNING and still in c->proc. `gone` says that it will never
      be picked again in this life. */
  datatype Phase = Closed | Joining(p: nat) | Parting(p: nat, gone: bool)

  /** `proc`, `noff` and `intena` are struct cpu; `intr` is the interrupt-enable
      bit, `runs` the context on the hart (None is its scheduler) and `sched`
      what its scheduler has to do. `owns` and `named` are the locks whose
      locked bit, respectively cpu field, this hart set; `open` is the process
      it is handing over, and `home` the interrupt setting its scheduler
      returns to. No step depends on the last four. */
  datatype Hart = Hart(proc: Option<nat>, noff: int, intena: bool, intr: bool, runs: Option<nat>,
                       sched: Code, owns: set<LockId>, named: set<LockId>, open: Phase, home: bool)

  /** `code` is what the context of the slot has to do. `at` is the hart whose
      c->proc is this slot and `home` the interrupt setting the process returns
      to; no step depends on these two. */
  datatype Proc = Proc(state: PState, chan: Option<nat>, code: Code, at: Option<nat>, home: bool)

  /** `setter` is the hart that set the locked bit; no step depends on it. */
  datatype Spin = Spin(locked: bool, cpu: Option<nat>, setter: Option<nat>)

  datatype World = World(harts: seq<Hart>, procs: seq<Proc>, locks: map<LockId, Spin>)

  function Acquire(l: LockId, k: Code): Code {
    Do(PushOff, Do(TestFree(l), Do(Tas(l), Do(SetCpu(l), k))))
  }

  function Release(l: LockId, k: Code): Code {
    Do(TestHeld(l), Do(ClearCpu(l), Do(Unlock(l), Do(PopOff, k))))
  }

  function MyProc(k: Code): Code {
    Do(PushOff, Do(ReadProc, Do(PopOff, k)))
  }

  function SchedCode(k: Code): Code {
    MyProc(Do(SchedCheck, Do(Swtch, k)))
  }

  function YieldCode(p: nat, k: Code): Code {
    MyProc(Acquire(P(p), Do(SetState(RUNNABLE), SchedCode(Release(P(p), k)))))
  }

  function SleepCode(p: nat, c: nat, lk: LockId, k: Code): Code {
    MyProc(Acquire(P(p), Release(lk, Do(SetChan(c), Do(SetState(SLEEPING),
      SchedCode(Do(ClearChan, Release(P(p), Acquire(lk, k)))))))))
  }

  function ExitCode(p: nat): Code {
    Acquire(P(p), Do(SetState(ZOMBIE), Release(WAIT_LOCK, SchedCode(Do(Never, End)))))
  }

  /** A kernel task whose start function returned. */
  function ReturnCode(p: nat): Code {
    Acquire(P(p), Do(SetState(UNUSED), Do(Swtch, Do(Never, End))))
  }

  function LoopCode(i: nat, next: nat): Code {
    Acquire(P(i), Do(Pick(i), Release(P(i), Do(Loop(next), End))))
  }

  function FreshCode(p: nat): Code {
    Do(Adopt, Release(P(p), Do(Kernel, End)))
  }

  /** What ordinary kernel code, running where the list says Kernel, may do next. */
  datatype Call =
    | CallAcquire(l: LockId) | CallRelease(l: LockId) | CallMyProc
    | CallSleep(c: nat, lk: LockId) | CallYield | CallWakeup(c: nat) | CallExit | CallReturn
    | CallWake(q: nat) | CallAlloc(q: nat) | CallReady(q: nat) | CallFree(q: nat)
    | CallSetIntr(b: bool) | CallDone

  /** One step of a hart: its next operation, a call made by ordinary code, the
      arrival of an interrupt, or the scheduler's intr_on and intr_off. */
  datatype Act = Run | Ask(call: Call) | Trap | Idle(b: bool)

  datatype Outcome = Panic | Wait | To(w: World)

  function CodeOf(w: World, h: nat): (c: Code)
    requires h < |w.harts| && (w.harts[h].runs.Some? ==> w.harts[h].runs.value < |w.procs|)
  {
    if w.harts[h].runs.Some? then w.procs[w.harts[h].runs.value].code else w.harts[h].sched
  }

  function HomeOf(w: World, h: nat): bool
    requires h < |w.harts| && (w.harts[h].runs.Some? ==> w.harts[h].runs.value < |w.procs|)
  {
    if w.harts[h].runs.Some? then w.procs[w.harts[h].runs.value].home else w.harts[h].home
  }

  /** Hart h goes on with the list k and the interrupt setting `home`, and its
      own record becomes x otherwise. */
  function Put(w: World, h: nat, x: Hart, k: Code, home: bool): World
    requires h < |w.harts| && (x.runs.Some? ==> x.runs.value < |w.procs|)
  {
    if x.runs.Some? then
      var p := x.runs.value;
      w.(harts := w.harts[h := x], procs := w.procs[p := w.procs[p].(code := k, home := home)])
    else
      w.(harts := w.harts[h := x.(sched := k, home := home)])
  }

  function PutLock(w: World, l: LockId, s: Spin): World { w.(locks := w.locks[l := s]) }

  function PutProc(w: World, p: nat, r: Proc): World
    requires p < |w.procs|
  {
    w.(procs := w.procs[p := r])
  }

  function Holding(w: World, h: nat, l: LockId): bool
    requires l in w.locks
  {
    w.locks[l].locked && w.locks[l].cpu == Some(h)
  }

  predicate Exists(w: World, h: nat) {
    h < |w.harts| && (w.harts[h].runs.Some? ==> w.harts[h].runs.value < |w.procs|)
  }

  /** What an operation needs in order to name memory that exists. */
  predicate Named(w: World, x: Hart, op: Op) {
    match op
    case TestFree(l) => l in w.locks
    case Tas(l) => l in w.locks
    case SetCpu(l) => l in w.locks
    case TestHeld(l) => l in w.locks
    case ClearCpu(l) => l in w.locks
    case Unlock(l) => l in w.locks
    case WakeIf(_, i) => i < |w.procs|
    case Pick(q) => q < |w.procs|
    case SetProc(q) => q < |w.procs|
    case SwtchTo(q) => q < |w.procs|
    case ClearProc => x.proc.Some? && x.proc.value < |w.procs|
    case SetChan(_) => x.runs.Some?
    case ClearChan => x.runs.Some?
    case SetState(_) => x.runs.Some?
    case SchedCheck => x.runs.Some? && P(x.runs.value) in w.locks
    case Swtch => x.runs.Some?
    case _ => true
  }

  /** The next operation of hart h. Panic is a call of panic, a read of c->proc
      that does not give the process whose context runs, or an operation on
      memory that does not exist; Wait is a spin on a lock that is taken, or a
      point where ordinary code chooses. */
  function Step(w: World, h: nat): Outcome
    requires Exists(w, h)
  {
    match CodeOf(w, h)
    case End => Wait
    case Do(op, k) => if Named(w, w.harts[h], op) then Exec(w, h, op, k) else Panic
  }

  function Exec(w: World, h: nat, op: Op, k: Code): Outcome
    requires Exists(w, h) && Named(w, w.harts[h], op)
  {
    var x, home := w.harts[h], HomeOf(w, h);
    match op
    case PushOff =>
      To(Put(w, h, x.(intena := if x.noff == 0 then x.intr else x.intena, noff := x.noff + 1, intr := false), k, home))
    case PopOff =>
      if x.intr || x.noff < 1 then Panic
      else To(Put(w, h, x.(noff := x.noff - 1, intr := x.noff == 1 && x.intena), k, home))
    case TestFree(l) => if Holding(w, h, l) then Panic else To(Put(w, h, x, k, home))
    case Tas(l) =>
      if w.locks[l].locked then Wait
      else To(Put(PutLock(w, l, w.locks[l].(locked := true, setter := Some(h))), h, x.(owns := x.owns + {l}), k, home))
    case SetCpu(l) =>
      To(Put(PutLock(w, l, w.locks[l].(cpu := Some(h))), h, x.(named := x.named + {l}), k, home))
    case TestHeld(l) => if !Holding(w, h, l) then Panic else To(Put(w, h, x, k, home))
    case ClearCpu(l) =>
      To(Put(PutLock(w, l, w.locks[l].(cpu := None)), h, x.(named := x.named - {l}), k, home))
    case Unlock(l) =>
      To(Put(PutLock(w, l, w.locks[l].(locked := false, setter := None)), h, x.(owns := x.owns - {l}), k, home))
    case ReadProc => if x.proc != x.runs then Panic else To(Put(w, h, x, k, home))
    case SetChan(c) =>
      To(Put(PutProc(w, x.runs.value, w.procs[x.runs.value].(chan := Some(c))), h, x, k, home))
    case ClearChan =>
      To(Put(PutProc(w, x.runs.value, w.procs[x.runs.value].(chan := None)), h, x, k, home))
    case SetState(st) =>
      To(Put(PutProc(w, x.runs.value, w.procs[x.runs.value].(state := st)), h,
             x.(open := Parting(x.runs.value, st == ZOMBIE || st == UNUSED)), k, home))
    case SchedCheck =>
      if !Holding(w, h, P(x.runs.value)) || x.noff != 1 || w.procs[x.runs.value].state == RUNNING || x.intr then Panic
      else To(Put(w, h, x, k, home))
    case Swtch =>
      // sched keeps intena in its frame across swtch
      var p := x.runs.value;
      To(PutProc(w.(harts := w.harts[h := x.(runs := None, open := Parting(p, false))]), p,
                 w.procs[p].(code := Do(SetIntena(x.intena), k))))
    case SetIntena(b) => To(Put(w, h, x.(intena := b), k, home))
    case Never => Panic
    case Wakeup(c, i) =>
      To(Put(w, h, x, if i < |w.procs| then Acquire(P(i), Do(WakeIf(c, i), Release(P(i), Do(Wakeup(c, i + 1), k))))
          else k,
             home))
    case WakeIf(c, i) =>
      var r := w.procs[i];
      To(Put(PutProc(w, i, if r.state == SLEEPING && r.chan == Some(c) then r.(state := RUNNABLE) else r), h, x, k,
             home))
    case Loop(i) => To(Put(w, h, x, LoopCode(i, if i + 1 < |w.procs| then i + 1 else 0), home))
    case Pick(q) =>
      if w.procs[q].state != RUNNABLE then To(Put(w, h, x, k, home))
      else To(Put(PutProc(w, q, w.procs[q].(state := RUNNING)), h, x.(open := Joining(q)),
                  Do(SetProc(q), Do(SwtchTo(q), Do(ClearProc, k))), home))
    case SetProc(q) =>
      To(Put(PutProc(w, q, w.procs[q].(at := Some(h))), h, x.(proc := Some(q), open := Closed), k, home))
    case SwtchTo(q) => To(w.(harts := w.harts[h := x.(sched := k, runs := Some(q))]))
    case ClearProc =>
      var q := x.proc.value;
      To(Put(PutProc(w, q, w.procs[q].(at := None)), h, x.(proc := None, open := Closed), k, x.intena))
    case Adopt => To(Put(w, h, x, k, x.intena))
    case Kernel => Wait
    case Sret => To(Put(w, h, x.(intr := true), k, true))
  }

  /** What ordinary kernel code keeps to: acquire a lock the hart does not hold,
      release one it holds, sleep with just the condition lock, yield with none,
      wake with no process lock, and change another slot's state only under its
      lock. Interrupts are set by hand only outside handlers. */
  ghost predicate Allowed(w: World, h: nat, call: Call)
    requires Exists(w, h)
  {
    && CodeOf(w, h).Do? && CodeOf(w, h).op.Kernel?
    && var x, k := w.harts[h], CodeOf(w, h).next;
    match call
    case CallAcquire(l) => l in w.locks && l !in x.owns
    case CallRelease(l) => l in w.locks && l in x.owns
    case CallMyProc => true
    case CallSleep(_, lk) => x.runs.Some? && x.owns == {lk} && lk != P(x.runs.value)
    case CallYield => x.runs.Some? && x.owns == {}
    case CallWakeup(_) => forall p: nat :: P(p) !in x.owns
    case CallExit => x.runs.Some? && x.owns == {WAIT_LOCK}
    case CallReturn => x.runs.Some? && x.owns == {}
    case CallWake(q) => Touches(w, x, q)
    case CallAlloc(q) => Touches(w, x, q) && w.procs[q].state == UNUSED
    case CallReady(q) => Touches(w, x, q) && w.procs[q].state == USED
    case CallFree(q) => Touches(w, x, q) && (w.procs[q].state == ZOMBIE || w.procs[q].state == USED)
    case CallSetIntr(_) => x.noff == 0 && k == End
    case CallDone => x.noff == 0 && k != End
  }

  predicate Touches(w: World, x: Hart, q: nat) { q < |w.procs| && P(q) in x.owns }

  ghost function Made(w: World, h: nat, call: Call): World
    requires Exists(w, h) && Allowed(w, h, call)
  {
    var x, c, home := w.harts[h], CodeOf(w, h), HomeOf(w, h);
    match call
    case CallAcquire(l) => Put(w, h, x, Acquire(l, c), home)
    case CallRelease(l) => Put(w, h, x, Release(l, c), home)
    case CallMyProc => Put(w, h, x, MyProc(c), home)
    case CallSleep(ch, lk) => Put(w, h, x, SleepCode(x.runs.value, ch, lk, c), home)
    case CallYield => Put(w, h, x, YieldCode(x.runs.value, c), home)
    case CallWakeup(ch) => Put(w, h, x, Do(Wakeup(ch, 0), c), home)
    case CallExit => Put(w, h, x, ExitCode(x.runs.value), home)
    case CallReturn => Put(w, h, x, ReturnCode(x.runs.value), home)
    case CallWake(q) => if w.procs[q].state == SLEEPING then PutProc(w, q, w.procs[q].(state := RUNNABLE)) else w
    case CallAlloc(q) => PutProc(w, q, w.procs[q].(state := USED, chan := None, code := FreshCode(q)))
    case CallReady(q) => PutProc(w, q, w.procs[q].(state := RUNNABLE))
    case CallFree(q) => PutProc(w, q, w.procs[q].(state := UNUSED, chan := None))
    case CallSetIntr(b) => Put(w, h, x.(intr := b), c, b)
    case CallDone => Put(w, h, x, c.next, home)
  }

  /** An interrupt finds interrupts on, turns them off and runs a handler before
      the interrupted code. */
  function Trapped(w: World, h: nat): World
    requires Exists(w, h)
  {
    Put(w, h, w.harts[h].(intr := false), Do(Kernel, Do(Sret, CodeOf(w, h))), false)
  }

  predicate AtLoop(w: World, h: nat)
    requires Exists(w, h)
  {
    w.harts[h].runs.None? && w.harts[h].sched.Do? && w.harts[h].sched.op.Loop?
  }

  /** One step of hart h, over all the choices it has. */
  ghost predicate Next(w: World, w': World, h: nat, act: Act) {
    && Exists(w, h)
    && match act
       case Run => Step(w, h) == To(w')
       case Ask(call) => Allowed(w, h, call) && w' == Made(w, h, call)
       case Trap => w.harts[h].intr && w' == Trapped(w, h)
       case Idle(b) =>
         && AtLoop(w, h) && w.harts[h].noff == 0
         && w' == Put(w, h, w.harts[h].(intr := b), w.harts[h].sched, b)
  }
}
