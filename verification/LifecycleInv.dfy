/** The invariant of the process table. */
module LifecycleInv {
  import opened Common
  import opened Wrappers
  import opened Lifecycle

  predicate Alive(st: PState) { st == SLEEPING || st == RUNNABLE || st == RUNNING }

  /** Asleep in wait, or past the point in sleep where it cannot be stopped. */
  predicate SleepsInWait(x: Slot) { x.pc.Dozing? || (x.pc.Waiting? && x.state == SLEEPING) }

  /** The slot's own fields fit together. */
  predicate SlotOk(w: World, s: nat)
    requires s < |w.slots|
  {
    var x := w.slots[s];
    && (x.state == UNUSED ==> x == FREE)
    && (!Alive(x.state) ==> x.pc == User)
    && (HoldsWait(x.pc) <==> w.waitLock == Some(s))
    && (HoldsWait(x.pc) || x.pc.Dozing? || x.pc.Forking? ==> x.state == RUNNING)
    && (x.state == SLEEPING ==> x.chan.Some? && (x.chan.value == WaitOn(s) <==> x.pc.Waiting?)
                                && (x.chan.value.WaitOn? ==> x.chan.value.q == s))
    && (x.state == USED <==> x.maker.Some?)
    && (x.locked ==> x.pc.Dozing? || x.state == USED)
    && (x.pc.Dozing? ==> x.locked)
    && (x.pc.Scanning? ==> x.pc.i <= |w.slots|)
    && (s == w.init ==> Alive(x.state) && x.parent == None)
    && (s != w.init && (Alive(x.state) || x.state == ZOMBIE) ==> x.parent.Some?)
    && (x.pc.Exiting? || x.pc.Reparenting? || x.pc.WakingInit? || x.pc.WakingParent? ==> s != w.init)
  }

  /** A process that forks and the slot it is filling know each other. */
  predicate MakerOk(w: World, s: nat)
    requires s < |w.slots|
  {
    var x := w.slots[s];
    && (Makes(x.pc) ==>
          && x.pc.np < |w.slots| && w.slots[x.pc.np].maker == Some(s)
          && (x.pc.Forking? <==> w.slots[x.pc.np].locked)
          && w.slots[x.pc.np].parent == if x.pc.NeedsReady? then Some(s) else None)
    && (x.maker.Some? ==>
         x.maker.value < |w.slots| && Makes(w.slots[x.maker.value].pc) && w.slots[x.maker.value].pc.np == s)
  }

  /** The slots below i have been re-parented. */
  predicate Passed(pc: Pc, s: nat) {
    match pc
    case Reparenting(_, i) => s < i
    case WakingInit(_, i, _) => s <= i
    case WakingParent(_, _) => true
    case _ => false
  }

  /** The parent of slot s is a living process, the one it was when it became the
      parent, and has not yet given the slot to init. */
  predicate ParentOk(w: World, s: nat)
    requires s < |w.slots|
  {
    var x := w.slots[s];
    x.parent.Some? ==>
      && x.parent.value < |w.slots|
      && var y := w.slots[x.parent.value];
      && Alive(y.state) && y.pid == x.ppid
      && !Passed(y.pc, s)
      && (y.pc.Scanning? && s < y.pc.i ==> y.pc.kids && x.state != ZOMBIE)
  }

  /** If a scan has seen a child, there is one. */
  ghost predicate KidsOk(w: World, s: nat)
    requires s < |w.slots|
  {
    var x := w.slots[s];
    x.pc.Scanning? && x.pc.kids ==> exists c: nat :: IsChild(w, c, s)
  }

  predicate IsChild(w: World, c: nat, s: nat) { c < |w.slots| && w.slots[c].parent == Some(s) }

  /** The holder of wait_lock is about to wake init for a child it has given it. */
  predicate OwesInit(w: World) {
    && w.waitLock.Some? && w.waitLock.value < |w.slots|
    && w.slots[w.waitLock.value].pc.WakingInit?
    && w.slots[w.waitLock.value].pc.j <= w.init
  }

  /** A zombie whose parent sleeps in wait: init is about to be woken for it. */
  predicate ZombieOk(w: World, s: nat)
    requires s < |w.slots|
  {
    var x := w.slots[s];
    x.state == ZOMBIE && x.parent.Some? && x.parent.value < |w.slots| && SleepsInWait(w.slots[x.parent.value]) ==>
      x.parent.value == w.init && OwesInit(w)
  }

  /** Once proc_exit's wakeup has passed the parent, the parent is not asleep. */
  predicate WakingOk(w: World, s: nat)
    requires s < |w.slots|
  {
    var x := w.slots[s];
    x.pc.WakingParent? && x.parent.Some? && x.parent.value < |w.slots| && x.parent.value < x.pc.j ==>
      !SleepsInWait(w.slots[x.parent.value])
  }

  /** A pid is in a slot exactly when its fate says so. */
  predicate PidOk(w: World, s: nat)
    requires s < |w.slots|
  {
    var x := w.slots[s];
    && (x.state != UNUSED ==> x.pid in w.fates && w.fates[x.pid] == InSlot(s))
    && (x.state == ZOMBIE ==> x.pid in w.exits && w.exits[x.pid] == x.xstate)
    && (x.state != ZOMBIE && x.state != UNUSED ==> x.pid !in w.exits)
  }

  predicate FateOk(w: World, n: nat) {
    && (n in w.fates <==> 0 < n < w.nextPid)
    && (n in w.exits ==> n in w.fates)
    && (n in w.fates && w.fates[n].InSlot? ==>
          w.fates[n].s < |w.slots| && w.slots[w.fates[n].s].state != UNUSED && w.slots[w.fates[n].s].pid == n)
    && (n in w.fates && w.fates[n].Reaped? ==> n in w.exits && w.exits[n] == w.fates[n].status)
    && (n in w.fates && w.fates[n].Aborted? ==> n !in w.exits)
  }

  ghost predicate Inv(w: World) {
    && w.init < |w.slots|
    && w.nextPid > 0
    && (w.waitLock.Some? ==> w.waitLock.value < |w.slots|)
    && (forall s: nat {:trigger SlotOk(w, s)} | s < |w.slots| :: SlotOk(w, s))
    && (forall s: nat {:trigger MakerOk(w, s)} | s < |w.slots| :: MakerOk(w, s))
    && (forall s: nat {:trigger ParentOk(w, s)} | s < |w.slots| :: ParentOk(w, s))
    && (forall s: nat {:trigger KidsOk(w, s)} | s < |w.slots| :: KidsOk(w, s))
    && (forall s: nat {:trigger ZombieOk(w, s)} | s < |w.slots| :: ZombieOk(w, s))
    && (forall s: nat {:trigger WakingOk(w, s)} | s < |w.slots| :: WakingOk(w, s))
    && (forall s: nat {:trigger PidOk(w, s)} | s < |w.slots| :: PidOk(w, s))
    && (forall n: nat {:trigger FateOk(w, n)} :: FateOk(w, n))
  }

  /** The other slot a step reads or writes. */
  function Other(w: World, p: nat, act: Act): (t: nat)
    requires Can(w, p, act)
  {
    var pc := w.slots[p].pc;
    match act
    case Rouse(q) => q
    case ForkAlloc(np) => np
    case ForkFail => pc.np
    case ForkUnlock => pc.np
    case ForkParent => pc.np
    case ForkReady => pc.np
    case Scan(_) => pc.i
    case Reparent => pc.i
    case WakeInit => pc.j
    case WakeParent => if pc.WakingParent? then pc.j else p
    case Kill(q, _) => q
    case _ => p
  }

  lemma At(w: World, s: nat)
    requires Inv(w) && s < |w.slots|
    ensures SlotOk(w, s) && MakerOk(w, s) && ParentOk(w, s) && PidOk(w, s) && ZombieOk(w, s) && WakingOk(w, s)
  {
    assert SlotOk(w, s) && MakerOk(w, s) && ParentOk(w, s) && PidOk(w, s) && ZombieOk(w, s) && WakingOk(w, s);
  }

  ghost predicate Shaped(w: World, s: nat)
    requires s < |w.slots|
  {
    SlotOk(w, s) && MakerOk(w, s) && ParentOk(w, s)
  }

  lemma Gather(w: World)
    requires w.init < |w.slots| && w.nextPid > 0 && (w.waitLock.Some? ==> w.waitLock.value < |w.slots|)
    requires forall s: nat {:trigger Shaped(w, s)} | s < |w.slots| :: Shaped(w, s)
    requires forall s: nat {:trigger KidsOk(w, s)} | s < |w.slots| :: KidsOk(w, s)
    requires forall s: nat {:trigger ZombieOk(w, s)} | s < |w.slots| :: ZombieOk(w, s)
    requires forall s: nat {:trigger WakingOk(w, s)} | s < |w.slots| :: WakingOk(w, s)
    requires forall s: nat {:trigger PidOk(w, s)} | s < |w.slots| :: PidOk(w, s)
    requires forall n: nat {:trigger FateOk(w, n)} :: FateOk(w, n)
    ensures Inv(w)
  {
    hide SlotOk;
    hide MakerOk;
    hide ParentOk;
    forall s: nat | s < |w.slots| ensures SlotOk(w, s) && MakerOk(w, s) && ParentOk(w, s) {
      assert Shaped(w, s);
    }
  }
}
