/** fork, exit, wait and kill over a table of process slots. One step is one
    critical section of a slot's own lock; a section of wait_lock spans several
    steps, and so does one of a slot's lock where another lock is taken or
    released inside it. */
module Lifecycle {
  import opened Common
  import opened Wrappers

  /** wait sleeps on the waiting process itself; other code on other addresses. */
  datatype Chan = WaitOn(q: nat) | Elsewhere(n: nat)

  /** Where a process is in proc.c. */
  datatype Pc =
    | User
    // fork: holding the child's lock; that lock released; the parent recorded
    | Forking(np: nat) | NeedsParent(np: nat) | NeedsReady(np: nat)
    // wait: about to take wait_lock, scanning with it, and between releasing it
    // in sleep and going to sleep, with the own lock held
    | Waiting | Scanning(i: nat, kids: bool) | Dozing
    // proc_exit: about to take wait_lock; at slot i of the re-parenting loop; at
    // slot j of wakeup(initproc) for slot i; at slot j of wakeup(p->parent)
    | Exiting(status: int) | Reparenting(status: int, i: nat) | WakingInit(status: int, i: nat, j: nat)
    | WakingParent(status: int, j: nat)

  /** What became of a pid that was handed out. */
  datatype Fate = InSlot(s: nat) | Reaped(status: int, parent: nat) | Aborted

  /** `ppid` is the pid its parent had when it became the parent, and `maker`
      the process in the middle of forking this slot; no step depends on them. */
  datatype Slot = Slot(state: PState, pid: nat, parent: Option<nat>, chan: Option<Chan>, killed: bool, xstate: int,
                       locked: bool, pc: Pc, ppid: nat, maker: Option<nat>)

  /** `fates` and `exits` (the status each exited pid gave) record the past; no
      step depends on them. */
  datatype World = World(slots: seq<Slot>, init: nat, waitLock: Option<nat>, nextPid: nat,
                         fates: map<nat, Fate>, exits: map<nat, int>)

  const FREE := Slot(UNUSED, 0, None, None, false, 0, false, User, 0, None)

  datatype Act =
    | Dispatch | Preempt | Nap(n: nat) | Rouse(q: nat)
    | ForkAlloc(np: nat) | ForkFail | ForkUnlock | ForkParent | ForkReady
    | WaitCall | TakeWaitLock | Scan(copied: bool) | EndScan | Doze
    | ExitCall(status: int) | Reparent | WakeInit | WakeParent | Die
    | Kill(q: nat, pid: nat)

  function Set(w: World, s: nat, x: Slot): World
    requires s < |w.slots|
  {
    w.(slots := w.slots[s := x])
  }

  predicate HoldsWait(pc: Pc) { pc.Scanning? || pc.Reparenting? || pc.WakingInit? || pc.WakingParent? }

  predicate Makes(pc: Pc) { pc.Forking? || pc.NeedsParent? || pc.NeedsReady? }

  /** Slot p can take this step now: the locks it needs are free and it is where
      the code does this. */
  predicate Can(w: World, p: nat, act: Act) {
    && p < |w.slots|
    && var x := w.slots[p];
    && (if act.Dispatch? then x.state == RUNNABLE && !x.locked else x.state == RUNNING)
    && match act
       case Dispatch => true
       case Preempt => !x.locked && !HoldsWait(x.pc) && !x.pc.Forking?
       case Nap(_) => !x.locked && x.pc.User?
       case Rouse(q) => q < |w.slots| && !w.slots[q].locked
       case ForkAlloc(np) => x.pc.User? && np < |w.slots| && !w.slots[np].locked && w.slots[np].state == UNUSED
       case ForkFail => x.pc.Forking? && x.pc.np < |w.slots|
       case ForkUnlock => x.pc.Forking? && x.pc.np < |w.slots|
       case ForkParent => x.pc.NeedsParent? && x.pc.np < |w.slots| && w.waitLock.None?
       case ForkReady => x.pc.NeedsReady? && x.pc.np < |w.slots| && !w.slots[x.pc.np].locked
       case WaitCall => x.pc.User?
       case TakeWaitLock => (x.pc.Waiting? || x.pc.Exiting?) && w.waitLock.None?
       case Scan(_) => x.pc.Scanning? && x.pc.i < |w.slots|
                       && (w.slots[x.pc.i].parent == Some(p) ==> !w.slots[x.pc.i].locked)
       case EndScan => x.pc.Scanning? && x.pc.i >= |w.slots| && !x.locked
       case Doze => x.pc.Dozing?
       case ExitCall(_) => x.pc.User? && p != w.init
       case Reparent => x.pc.Reparenting? && x.pc.i < |w.slots|
       case WakeInit => x.pc.WakingInit? && x.pc.j < |w.slots| && !w.slots[x.pc.j].locked
       case WakeParent =>
         (x.pc.Reparenting? && x.pc.i >= |w.slots| && x.parent.Some?)
         || (x.pc.WakingParent? && x.pc.j < |w.slots| && x.parent.Some? && !w.slots[x.pc.j].locked)
       case Die => !x.locked && ((x.pc.WakingParent? && x.pc.j >= |w.slots|)
                                 || (x.pc.Reparenting? && x.pc.i >= |w.slots| && x.parent.None?))
       case Kill(q, _) => q < |w.slots| && !w.slots[q].locked
  }

  /** wakeup's test of one slot. */
  function Woken(x: Slot, c: Chan): Slot {
    if x.state == SLEEPING && x.chan == Some(c) then x.(state := RUNNABLE) else x
  }

  function Do(w: World, p: nat, act: Act): World
    requires Can(w, p, act)
  {
    var x, n := w.slots[p], |w.slots|;
    match act
    case Dispatch => Set(w, p, x.(state := RUNNING))
    case Preempt => Set(w, p, x.(state := RUNNABLE))
    case Nap(c) => Set(w, p, x.(state := SLEEPING, chan := Some(Elsewhere(c))))
    case Rouse(q) =>
      var y := w.slots[q];
      Set(w, q, if y.state == SLEEPING && y.chan.Some? && y.chan.value.Elsewhere? then y.(state := RUNNABLE) else y)
    case ForkAlloc(np) =>
      var w1 := Set(w, np, FREE.(state := USED, pid := w.nextPid, locked := true, maker := Some(p)));
      Set(w1, p, x.(pc := Forking(np))).(nextPid := w.nextPid + 1, fates := w.fates[w.nextPid := InSlot(np)])
    case ForkFail =>
      Set(Set(w, x.pc.np, FREE), p, x.(pc := User)).(fates := w.fates[w.slots[x.pc.np].pid := Aborted])
    case ForkUnlock =>
      Set(Set(w, x.pc.np, w.slots[x.pc.np].(locked := false)), p, x.(pc := NeedsParent(x.pc.np)))
    case ForkParent =>
      Set(Set(w, x.pc.np, w.slots[x.pc.np].(parent := Some(p), ppid := x.pid)), p, x.(pc := NeedsReady(x.pc.np)))
    case ForkReady =>
      Set(Set(w, x.pc.np, w.slots[x.pc.np].(state := RUNNABLE, maker := None)), p, x.(pc := User))
    case WaitCall => Set(w, p, x.(pc := Waiting))
    case TakeWaitLock =>
      Set(w, p,
          x.(pc := if x.pc.Waiting? then Scanning(0, false) else Reparenting(x.pc.status, 0))).(waitLock := Some(p))
    case Scan(copied) =>
      var y := w.slots[x.pc.i];
      if y.parent != Some(p) then Set(w, p, x.(pc := Scanning(x.pc.i + 1, x.pc.kids)))
      else if y.state != ZOMBIE then Set(w, p, x.(pc := Scanning(x.pc.i + 1, true)))
      else if !copied then Set(w, p, x.(pc := User)).(waitLock := None)
      else Set(Set(w, p, x.(pc := User)), x.pc.i, FREE)
           .(waitLock := None, fates := w.fates[y.pid := Reaped(y.xstate, x.pid)])
    case EndScan =>
      if !x.pc.kids || x.killed then Set(w, p, x.(pc := User)).(waitLock := None)
      else Set(w, p, x.(pc := Dozing, locked := true)).(waitLock := None)
    case Doze => Set(w, p, x.(state := SLEEPING, chan := Some(WaitOn(p)), pc := Waiting, locked := false))
    case ExitCall(status) => Set(w, p, x.(pc := Exiting(status)))
    case Reparent =>
      var y, st := w.slots[x.pc.i], x.pc.status;
      if y.parent != Some(p) then Set(w, p, x.(pc := Reparenting(st, x.pc.i + 1)))
      else
        var w1 := Set(w, p, x.(pc := WakingInit(st, x.pc.i, 0)));
        Set(w1, x.pc.i,
            w1.slots[x.pc.i].(parent := Some(w.init), ppid := if w.init < n then w.slots[w.init].pid else 0))
    case WakeInit =>
      var w1 := Set(w, p, x.(pc := if x.pc.j + 1 < n then WakingInit(x.pc.status, x.pc.i, x.pc.j + 1)
                                   else Reparenting(x.pc.status, x.pc.i + 1)));
      Set(w1, x.pc.j, Woken(w1.slots[x.pc.j], WaitOn(w.init)))
    case WakeParent =>
      if x.pc.Reparenting? then Set(w, p, x.(pc := WakingParent(x.pc.status, 0)))
      else
        var w1 := Set(w, p, x.(pc := WakingParent(x.pc.status, x.pc.j + 1)));
        Set(w1, x.pc.j, Woken(w1.slots[x.pc.j], WaitOn(x.parent.value)))
    case Die =>
      Set(w, p, x.(state := ZOMBIE, xstate := x.pc.status, pc := User)).(waitLock := None,
          exits := w.exits[x.pid := x.pc.status])
    case Kill(q, pid) =>
      var y := w.slots[q];
      if y.pid == pid && y.state != UNUSED then
        Set(w, q, y.(killed := true, state := if y.state == SLEEPING then RUNNABLE else y.state))
      else w
  }
}
