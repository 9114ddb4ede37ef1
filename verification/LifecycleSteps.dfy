/** Every step keeps the invariant of the process table. */
module LifecycleSteps {
  import opened Common
  import opened Wrappers
  import opened Lifecycle
  import opened LifecycleInv

  /** No slot takes up or leaves a pid, and nobody dies. */
  predicate SamePids(w: World, w': World) {
    && |w'.slots| == |w.slots| && w'.nextPid == w.nextPid && w'.fates == w.fates && w'.exits == w.exits
    && forall s: nat {:trigger w'.slots[s]} | s < |w.slots| ::
         && w'.slots[s].pid == w.slots[s].pid && w'.slots[s].xstate == w.slots[s].xstate
         && (w'.slots[s].state == UNUSED <==> w.slots[s].state == UNUSED)
         && (w'.slots[s].state == ZOMBIE <==> w.slots[s].state == ZOMBIE)
  }

  lemma PidsKeep(w: World, w': World)
    requires Inv(w) && SamePids(w, w')
    ensures forall s: nat {:trigger PidOk(w', s)} | s < |w'.slots| :: PidOk(w', s)
    ensures forall n: nat {:trigger FateOk(w', n)} :: FateOk(w', n)
  {
    forall s: nat | s < |w'.slots| ensures PidOk(w', s) { assert PidOk(w, s) && w'.slots[s] == w'.slots[s]; }
    forall n: nat ensures FateOk(w', n) {
      assert FateOk(w, n);
      if n in w.fates && w.fates[n].InSlot? { assert w'.slots[w.fates[n].s] == w'.slots[w.fates[n].s]; }
    }
  }

  /** Nobody new sleeps in wait or is a zombie, and no wakeup moves on. */
  predicate Calm(w: World, w': World) {
    && |w'.slots| == |w.slots| && w'.init == w.init
    && (w'.waitLock == w.waitLock || !OwesInit(w))
    && forall s: nat {:trigger w'.slots[s]} | s < |w.slots| ::
         && (w'.slots[s].state == ZOMBIE ==> w.slots[s].state == ZOMBIE && w'.slots[s].parent == w.slots[s].parent)
         && (SleepsInWait(w'.slots[s]) ==> SleepsInWait(w.slots[s]))
         && (w.slots[s].pc.WakingInit? ==> w'.slots[s].pc == w.slots[s].pc)
         && (w'.slots[s].pc.WakingParent? ==>
              w'.slots[s].pc == w.slots[s].pc && w'.slots[s].parent == w.slots[s].parent)
  }

  lemma CalmKeeps(w: World, w': World)
    requires Inv(w) && Calm(w, w')
    ensures forall s: nat {:trigger ZombieOk(w', s)} | s < |w'.slots| :: ZombieOk(w', s)
    ensures forall s: nat {:trigger WakingOk(w', s)} | s < |w'.slots| :: WakingOk(w', s)
  {
    forall s: nat | s < |w'.slots| ensures ZombieOk(w', s) && WakingOk(w', s) {
      assert ZombieOk(w, s) && WakingOk(w, s) && w'.slots[s] == w'.slots[s];
      var y := w'.slots[s];
      if y.parent.Some? && y.parent.value < |w.slots| { assert w'.slots[y.parent.value] == w'.slots[y.parent.value]; }
      if OwesInit(w) { assert w'.slots[w.waitLock.value] == w'.slots[w.waitLock.value]; }
    }
  }

  /** No scan moves on and no child of a scanning process goes away. */
  predicate SameKids(w: World, w': World) {
    && |w'.slots| == |w.slots|
    && forall s: nat {:trigger w'.slots[s]} | s < |w.slots| ::
         && (w'.slots[s].pc.Scanning? && w'.slots[s].pc.kids ==> w.slots[s].pc.Scanning? && w.slots[s].pc.kids)
         && (w.slots[s].parent.Some? ==> w'.slots[s].parent == w.slots[s].parent)
  }

  lemma KidsKeep(w: World, w': World)
    requires Inv(w) && SameKids(w, w')
    ensures forall s: nat {:trigger KidsOk(w', s)} | s < |w'.slots| :: KidsOk(w', s)
  {
    forall s: nat | s < |w'.slots| ensures KidsOk(w', s) {
      assert KidsOk(w, s) && w'.slots[s] == w'.slots[s];
      if w'.slots[s].pc.Scanning? && w'.slots[s].pc.kids {
        var c: nat :| IsChild(w, c, s);
        assert w'.slots[c] == w'.slots[c];
        assert IsChild(w', c, s);
      }
    }
  }

  lemma Sizes(w: World, p: nat, act: Act)
    requires Inv(w) && Can(w, p, act)
    ensures var w' := Do(w, p, act);
            && |w'.slots| == |w.slots| && w'.init == w.init < |w.slots| && w'.nextPid > 0
            && (w'.waitLock.Some? ==> w'.waitLock.value < |w.slots|)
    ensures p < |w.slots| && Other(w, p, act) < |w.slots|
  {
    SizesBefore(w, p);
    hide Inv;
    hide Makes;
    if p < |w.slots| && Makes(w.slots[p].pc) { At(w, p); }
  }

  lemma SizesBefore(w: World, p: nat)
    requires Inv(w)
    ensures w.init < |w.slots| && w.nextPid > 0 && (w.waitLock.Some? ==> w.waitLock.value < |w.slots|)
  {
  }

  lemma Hints(w: World, p: nat, act: Act, s: nat)
    requires Inv(w) && Can(w, p, act) && s < |w.slots|
    ensures Other(w, p, act) < |w.slots| && w.init < |w.slots| && w.nextPid > 0
    ensures Shaped(w, s) && Shaped(w, p) && Shaped(w, Other(w, p, act)) && Shaped(w, w.init)
    ensures PidOk(w, s) && PidOk(w, p) && PidOk(w, Other(w, p, act))
    ensures FateOk(w, w.nextPid)
  {
    Sizes(w, p, act);
    At(w, s); At(w, p); At(w, Other(w, p, act)); At(w, w.init);
    assert FateOk(w, w.nextPid);
  }

  lemma ForkAllocShape(w: World, p: nat, np: nat, s: nat)
    requires Inv(w) && Can(w, p, ForkAlloc(np)) && s < |w.slots|
    ensures Shaped(Do(w, p, ForkAlloc(np)), s)
  {
    hide Inv;
    Hints(w, p, ForkAlloc(np), s);
  }

  lemma ForkAllocRest(w: World, p: nat, np: nat)
    requires Inv(w) && Can(w, p, ForkAlloc(np))
    ensures SameKids(w, Do(w, p, ForkAlloc(np))) && Calm(w, Do(w, p, ForkAlloc(np)))
  {
    hide Inv;
    Hints(w, p, ForkAlloc(np), p);
  }

  lemma ForkAllocPids(w: World, p: nat, np: nat, s: nat, n: nat)
    requires Inv(w) && Can(w, p, ForkAlloc(np)) && s < |w.slots|
    ensures PidOk(Do(w, p, ForkAlloc(np)), s) && FateOk(Do(w, p, ForkAlloc(np)), n)
  {
    assert FateOk(w, n);
    Hints(w, p, ForkAlloc(np), s);
  }

  lemma ForkAllocKeeps(w: World, p: nat, np: nat)
    requires Inv(w) && Can(w, p, ForkAlloc(np))
    ensures Inv(Do(w, p, ForkAlloc(np)))
  {
    hide Inv; hide Shaped; hide KidsOk; hide ZombieOk; hide WakingOk; hide PidOk; hide FateOk; hide Do;
    var w' := Do(w, p, ForkAlloc(np));
    Sizes(w, p, ForkAlloc(np));
    forall s: nat | s < |w'.slots| ensures Shaped(w', s) { ForkAllocShape(w, p, np, s); }
    ForkAllocRest(w, p, np);
    KidsKeep(w, w');
    CalmKeeps(w, w');
    forall s: nat | s < |w'.slots| ensures PidOk(w', s) { ForkAllocPids(w, p, np, s, 0); }
    forall n: nat ensures FateOk(w', n) { ForkAllocPids(w, p, np, p, n); }
    Gather(w');
  }

  lemma ForkFailShape(w: World, p: nat, s: nat)
    requires Inv(w) && Can(w, p, ForkFail) && s < |w.slots|
    ensures Shaped(Do(w, p, ForkFail), s)
  {
    hide Inv;
    Hints(w, p, ForkFail, s);
  }

  lemma ForkFailRest(w: World, p: nat)
    requires Inv(w) && Can(w, p, ForkFail)
    ensures SameKids(w, Do(w, p, ForkFail)) && Calm(w, Do(w, p, ForkFail))
  {
    hide Inv;
    Hints(w, p, ForkFail, p);
  }

  lemma ForkFailPids(w: World, p: nat, s: nat, n: nat)
    requires Inv(w) && Can(w, p, ForkFail) && s < |w.slots|
    ensures PidOk(Do(w, p, ForkFail), s) && FateOk(Do(w, p, ForkFail), n)
  {
    assert FateOk(w, n);
    Hints(w, p, ForkFail, s);
    assert FateOk(w, w.slots[Other(w, p, ForkFail)].pid);
  }

  lemma ForkFailKeeps(w: World, p: nat)
    requires Inv(w) && Can(w, p, ForkFail)
    ensures Inv(Do(w, p, ForkFail))
  {
    hide Inv; hide Shaped; hide KidsOk; hide ZombieOk; hide WakingOk; hide PidOk; hide FateOk; hide Do;
    var w' := Do(w, p, ForkFail);
    Sizes(w, p, ForkFail);
    forall s: nat | s < |w'.slots| ensures Shaped(w', s) { ForkFailShape(w, p, s); }
    ForkFailRest(w, p);
    KidsKeep(w, w');
    CalmKeeps(w, w');
    forall s: nat | s < |w'.slots| ensures PidOk(w', s) { ForkFailPids(w, p, s, 0); }
    forall n: nat ensures FateOk(w', n) { ForkFailPids(w, p, p, n); }
    Gather(w');
  }

  // ---- steps that change where one process is, and nothing of its family ----

  predicate Quiet(x: Slot, y: Slot) {
    && y.pid == x.pid && y.parent == x.parent && y.ppid == x.ppid && y.maker == x.maker && y.xstate == x.xstate
    && (Alive(y.state) <==> Alive(x.state))
    && (!Alive(x.state) ==> y.state == x.state)
    && (Makes(x.pc) || Makes(y.pc) ==> x.pc == y.pc)
    && (x.maker.Some? ==> y.locked == x.locked)
  }

  /** Slot p becomes y; wait_lock may go to p or come from it. */
  predicate OneSlot(w: World, w': World, p: nat, y: Slot) {
    && p < |w.slots| && Quiet(w.slots[p], y)
    && w'.slots == w.slots[p := y] && w'.init == w.init
    && w'.fates == w.fates && w'.exits == w.exits && w'.nextPid == w.nextPid
    && (w'.waitLock == w.waitLock
       || ((w.waitLock.None? || w.waitLock == Some(p)) && (w'.waitLock.None? || w'.waitLock == Some(p))))
  }

  /** Process p, now at y, still owes its child s what ParentOk says. */
  predicate StillParent(w: World, p: nat, y: Slot, s: nat)
    requires s < |w.slots|
  {
    w.slots[s].parent == Some(p) ==>
      !Passed(y.pc, s) && (y.pc.Scanning? && s < y.pc.i ==> y.pc.kids && w.slots[s].state != ZOMBIE)
  }

  lemma OneSlotShape(w: World, w': World, p: nat, y: Slot, s: nat)
    requires Inv(w) && OneSlot(w, w', p, y) && s < |w.slots| && SlotOk(w', p) && StillParent(w, p, y, s)
    ensures Shaped(w', s)
  {
    hide Inv;
    At(w, s); At(w, p);
    if w.slots[s].parent.Some? {
      assert w'.slots[w.slots[s].parent.value] == if w.slots[s].parent == Some(p) then y
               else w.slots[w.slots[s].parent.value];
    }
  }

  lemma OneSlotPids(w: World, w': World, p: nat, y: Slot)
    requires OneSlot(w, w', p, y)
    ensures SamePids(w, w')
  {
  }

  /** Such a step that also puts nobody to sleep in wait. */
  lemma OneSlotInv(w: World, w': World, p: nat, y: Slot)
    requires Inv(w) && OneSlot(w, w', p, y) && SlotOk(w', p)
    requires forall s: nat {:trigger StillParent(w, p, y, s)} | s < |w.slots| :: StillParent(w, p, y, s)
    requires forall s: nat {:trigger KidsOk(w', s)} | s < |w'.slots| :: KidsOk(w', s)
    requires forall s: nat {:trigger ZombieOk(w', s)} | s < |w'.slots| :: ZombieOk(w', s)
    requires forall s: nat {:trigger WakingOk(w', s)} | s < |w'.slots| :: WakingOk(w', s)
    ensures Inv(w')
  {
    hide Shaped; hide KidsOk; hide ZombieOk; hide WakingOk; hide PidOk; hide FateOk; hide StillParent;
    forall s: nat | s < |w'.slots| ensures Shaped(w', s) {
      assert StillParent(w, p, y, s);
      OneSlotShape(w, w', p, y, s);
    }
    OneSlotPids(w, w', p, y);
    PidsKeep(w, w');
    Gather(w');
  }

  /** A step of this kind that nobody's wait, scan or exit depends on. */
  predicate Light(w: World, x: Slot, y: Slot) {
    && (SleepsInWait(y) ==> SleepsInWait(x))
    && (x.pc.WakingInit? || y.pc.WakingParent? ==> y.pc == x.pc)
    && (y.pc.Scanning? && y.pc.kids ==> x.pc.Scanning? && x.pc.kids)
  }

  lemma LightInv(w: World, w': World, p: nat, y: Slot)
    requires Inv(w) && OneSlot(w, w', p, y) && SlotOk(w', p) && Light(w, w.slots[p], y)
    requires forall s: nat {:trigger StillParent(w, p, y, s)} | s < |w.slots| :: StillParent(w, p, y, s)
    ensures Inv(w')
  {
    hide SlotOk; hide ZombieOk; hide WakingOk; hide KidsOk;
    LightRest(w, w', p, y);
    KidsKeep(w, w');
    CalmKeeps(w, w');
    OneSlotInv(w, w', p, y);
  }

  lemma LightRest(w: World, w': World, p: nat, y: Slot)
    requires Inv(w) && OneSlot(w, w', p, y) && SlotOk(w', p) && Light(w, w.slots[p], y)
    ensures SameKids(w, w') && Calm(w, w')
  {
    hide Inv;
    At(w, p);
    if OwesInit(w) { At(w, w.waitLock.value); }
  }

  /** Process p's own steps of this kind. */
  function Moved(w: World, p: nat, act: Act): Slot
    requires Can(w, p, act)
  {
    var x := w.slots[p];
    match act
    case Dispatch => x.(state := RUNNING)
    case Preempt => x.(state := RUNNABLE)
    case Nap(c) => x.(state := SLEEPING, chan := Some(Elsewhere(c)))
    case WaitCall => x.(pc := Waiting)
    case TakeWaitLock => x.(pc := if x.pc.Waiting? then Scanning(0, false) else Reparenting(x.pc.status, 0))
    case Doze => x.(state := SLEEPING, chan := Some(WaitOn(p)), pc := Waiting, locked := false)
    case ExitCall(status) => x.(pc := Exiting(status))
    case _ => x
  }

  predicate IsMove(act: Act) {
    act.Dispatch? || act.Preempt? || act.Nap? || act.WaitCall? || act.TakeWaitLock? || act.Doze? || act.ExitCall?
  }

  lemma MoveOne(w: World, p: nat, act: Act)
    requires Inv(w) && Can(w, p, act) && IsMove(act)
    ensures OneSlot(w, Do(w, p, act), p, Moved(w, p, act))
    ensures Light(w, w.slots[p], Moved(w, p, act))
  {
    hide Inv; hide MakerOk; hide ParentOk; hide PidOk;
    At(w, p);
  }

  lemma MovedSize(w: World, p: nat, act: Act)
    requires Can(w, p, act) && OneSlot(w, Do(w, p, act), p, Moved(w, p, act))
    ensures p < |w.slots| == |Do(w, p, act).slots|
  {
    hide Do;
  }

  lemma MoveSlot(w: World, p: nat, act: Act)
    requires Inv(w) && Can(w, p, act) && IsMove(act) && p < |Do(w, p, act).slots|
    ensures SlotOk(Do(w, p, act), p)
  {
    hide Inv; hide MakerOk; hide ParentOk; hide PidOk;
    At(w, p);
  }

  lemma MoveParent(w: World, p: nat, act: Act, s: nat)
    requires Inv(w) && Can(w, p, act) && IsMove(act) && s < |w.slots|
    ensures StillParent(w, p, Moved(w, p, act), s)
  {
    hide Inv;
    At(w, p); At(w, s);
  }

  lemma MoveKeeps(w: World, p: nat, act: Act)
    requires Inv(w) && Can(w, p, act) && IsMove(act)
    ensures Inv(Do(w, p, act))
  {
    hide Inv; hide Do; hide Can; hide SlotOk; hide Light; hide OneSlot; hide StillParent; hide Moved;
    MoveOne(w, p, act);
    MovedSize(w, p, act);
    MoveSlot(w, p, act);
    forall s: nat | s < |w.slots| ensures StillParent(w, p, Moved(w, p, act), s) { MoveParent(w, p, act, s); }
    LightInv(w, Do(w, p, act), p, Moved(w, p, act));
  }

  /** A wakeup elsewhere, or kill: slot q may become RUNNABLE. */
  lemma RouseKeeps(w: World, p: nat, act: Act)
    requires Inv(w) && Can(w, p, act) && (act.Rouse? || act.Kill?)
    ensures Inv(Do(w, p, act))
  {
    hide Inv;
    var q := Other(w, p, act);
    var w' := Do(w, p, act);
    var y := if act.Rouse? || (w.slots[q].pid == act.pid && w.slots[q].state != UNUSED) then w'.slots[q]
      else w.slots[q];
    At(w, q);
    assert w.slots == w.slots[q := w.slots[q]];
    if y == w.slots[q] {
      assert w' == w;
    } else {
      forall s: nat | s < |w.slots| ensures StillParent(w, q, y, s) { At(w, s); }
      LightInv(w, w', q, y);
    }
  }

  // ---- fork after the slot is filled ----

  lemma UnlockShape(w: World, p: nat, s: nat)
    requires Inv(w) && Can(w, p, ForkUnlock) && s < |w.slots|
    ensures Shaped(Do(w, p, ForkUnlock), s)
  {
    hide Inv;
    Hints(w, p, ForkUnlock, s);
  }

  lemma AdoptShape(w: World, p: nat, s: nat)
    requires Inv(w) && Can(w, p, ForkParent) && s < |w.slots|
    ensures Shaped(Do(w, p, ForkParent), s)
  {
    hide Inv;
    Hints(w, p, ForkParent, s);
  }

  lemma ReadyShape(w: World, p: nat, s: nat)
    requires Inv(w) && Can(w, p, ForkReady) && s < |w.slots|
    ensures Shaped(Do(w, p, ForkReady), s)
  {
    hide Inv;
    Hints(w, p, ForkReady, s);
  }

  lemma ForkOnRest(w: World, p: nat, act: Act)
    requires Inv(w) && Can(w, p, act) && (act.ForkUnlock? || act.ForkParent? || act.ForkReady?)
    ensures var w' := Do(w, p, act); SameKids(w, w') && Calm(w, w') && SamePids(w, w')
  {
    hide Inv;
    Hints(w, p, act, p);
  }

  lemma ForkOnKeeps(w: World, p: nat, act: Act)
    requires Inv(w) && Can(w, p, act) && (act.ForkUnlock? || act.ForkParent? || act.ForkReady?)
    ensures Inv(Do(w, p, act))
  {
    hide Inv; hide Shaped; hide KidsOk; hide ZombieOk; hide WakingOk; hide PidOk; hide FateOk; hide Do; hide Can;
    var w' := Do(w, p, act);
    Sizes(w, p, act);
    forall s: nat | s < |w'.slots| ensures Shaped(w', s) {
      if act.ForkUnlock? {
        UnlockShape(w, p, s);
        } else if act.ForkParent? { AdoptShape(w, p, s);
        } else { ReadyShape(w, p, s);
      }
    }
    ForkOnRest(w, p, act);
    KidsKeep(w, w');
    CalmKeeps(w, w');
    PidsKeep(w, w');
    Gather(w');
  }

  // ---- the scan of wait ----

  /** Only the holder of wait_lock scans. */
  lemma NoScan(w: World)
    requires forall s: nat {:trigger SlotOk(w, s)} | s < |w.slots| :: SlotOk(w, s)
    requires w.waitLock.Some? && w.waitLock.value < |w.slots| ==> !w.slots[w.waitLock.value].pc.Scanning?
    ensures forall s: nat {:trigger KidsOk(w, s)} | s < |w.slots| :: KidsOk(w, s)
  {
    forall s: nat | s < |w.slots| ensures KidsOk(w, s) { assert SlotOk(w, s); }
  }

  predicate Reaps(w: World, p: nat, act: Act)
    requires Can(w, p, act)
  {
    act == Scan(true) && w.slots[w.slots[p].pc.i].parent == Some(p) && w.slots[w.slots[p].pc.i].state == ZOMBIE
  }

  lemma ScanSlot(w: World, p: nat, copied: bool)
    requires Inv(w) && Can(w, p, Scan(copied)) && !Reaps(w, p, Scan(copied))
    ensures var w' := Do(w, p, Scan(copied)); var y := w'.slots[p];
            && OneSlot(w, w', p, y) && SlotOk(w', p)
            && Calm(w, w')
            && (y.pc.Scanning? && y.pc.kids ==> w.slots[p].pc.kids || IsChild(w, w.slots[p].pc.i, p))
  {
    hide Inv;
    Hints(w, p, Scan(copied), p);
  }

  lemma ScanParent(w: World, p: nat, copied: bool, s: nat)
    requires Inv(w) && Can(w, p, Scan(copied)) && !Reaps(w, p, Scan(copied)) && s < |w.slots|
    ensures StillParent(w, p, Do(w, p, Scan(copied)).slots[p], s)
  {
    hide Inv;
    Hints(w, p, Scan(copied), s);
  }

  lemma ScanKids(w: World, p: nat, copied: bool, s: nat)
    requires Inv(w) && Can(w, p, Scan(copied)) && !Reaps(w, p, Scan(copied)) && s < |w.slots|
    ensures KidsOk(Do(w, p, Scan(copied)), s)
  {
    var w' := Do(w, p, Scan(copied));
    ScanSlot(w, p, copied);
    assert KidsOk(w, s);
    if s == p && IsChild(w, w.slots[p].pc.i, p) { assert IsChild(w', w.slots[p].pc.i, p); }
    if c: nat :| IsChild(w, c, s) { assert IsChild(w', c, s); }
  }

  lemma ScanKeeps(w: World, p: nat, copied: bool)
    requires Inv(w) && Can(w, p, Scan(copied)) && !Reaps(w, p, Scan(copied))
    ensures Inv(Do(w, p, Scan(copied)))
  {
    hide Inv;
    hide Do;
    hide Can;
    hide SlotOk;
    hide OneSlot;
    hide StillParent;
    hide KidsOk;
    hide ZombieOk;
    hide WakingOk;
    hide Calm;
    var w' := Do(w, p, Scan(copied));
    Sizes(w, p, Scan(copied));
    forall s: nat | s < |w.slots| ensures StillParent(w, p, w'.slots[p], s) { ScanParent(w, p, copied, s); }
    forall s: nat | s < |w.slots| ensures KidsOk(w', s) { ScanKids(w, p, copied, s); }
    ScanSlot(w, p, copied);
    CalmKeeps(w, w');
    OneSlotInv(w, w', p, w'.slots[p]);
  }

  lemma ReapShape(w: World, p: nat, s: nat)
    requires Inv(w) && Can(w, p, Scan(true)) && Reaps(w, p, Scan(true)) && s < |w.slots|
    ensures Shaped(Do(w, p, Scan(true)), s)
  {
    hide Inv;
    Hints(w, p, Scan(true), s);
  }

  lemma ReapRest(w: World, p: nat)
    requires Inv(w) && Can(w, p, Scan(true)) && Reaps(w, p, Scan(true))
    ensures Calm(w, Do(w, p, Scan(true)))
  {
    hide Inv;
    Hints(w, p, Scan(true), p);
  }

  lemma ReapPids(w: World, p: nat, s: nat, n: nat)
    requires Inv(w) && Can(w, p, Scan(true)) && Reaps(w, p, Scan(true)) && s < |w.slots|
    ensures PidOk(Do(w, p, Scan(true)), s) && FateOk(Do(w, p, Scan(true)), n)
  {
    assert FateOk(w, n);
    Hints(w, p, Scan(true), s);
    assert FateOk(w, w.slots[w.slots[p].pc.i].pid);
  }

  lemma ReapKeeps(w: World, p: nat)
    requires Inv(w) && Can(w, p, Scan(true)) && Reaps(w, p, Scan(true))
    ensures Inv(Do(w, p, Scan(true)))
  {
    hide Inv; hide Shaped; hide KidsOk; hide ZombieOk; hide WakingOk; hide PidOk; hide FateOk; hide Calm;
    var w' := Do(w, p, Scan(true));
    Sizes(w, p, Scan(true));
    forall s: nat | s < |w'.slots| ensures Shaped(w', s) { ReapShape(w, p, s); }
    AllSlots(w');
    NoScan(w');
    ReapRest(w, p);
    CalmKeeps(w, w');
    forall s: nat | s < |w'.slots| ensures PidOk(w', s) { ReapPids(w, p, s, 0); }
    forall n: nat ensures FateOk(w', n) { ReapPids(w, p, p, n); }
    Gather(w');
  }

  lemma AllSlots(w: World)
    requires forall s: nat {:trigger Shaped(w, s)} | s < |w.slots| :: Shaped(w, s)
    ensures forall s: nat {:trigger SlotOk(w, s)} | s < |w.slots| :: SlotOk(w, s)
  {
    hide SlotOk; hide MakerOk; hide ParentOk;
    forall s: nat | s < |w.slots| ensures SlotOk(w, s) { assert Shaped(w, s); }
  }

  /** The end of a scan: no child is a zombie, so going to sleep misses none. */
  lemma EndScanSlot(w: World, p: nat)
    requires Inv(w) && Can(w, p, EndScan)
    ensures var w' := Do(w, p, EndScan); OneSlot(w, w', p, w'.slots[p]) && SlotOk(w', p)
    ensures var pc := Do(w, p, EndScan).slots[p].pc; pc == User || pc == Dozing
  {
    hide Inv;
    Hints(w, p, EndScan, p);
  }

  lemma EndScanSleep(w: World, p: nat, s: nat)
    requires Inv(w) && Can(w, p, EndScan) && s < |w.slots|
    ensures ZombieOk(Do(w, p, EndScan), s) && WakingOk(Do(w, p, EndScan), s)
  {
    hide Inv; hide MakerOk; hide PidOk;
    Hints(w, p, EndScan, s);
    At(w, s);
  }

  lemma EndScanKeeps(w: World, p: nat)
    requires Inv(w) && Can(w, p, EndScan)
    ensures Inv(Do(w, p, EndScan))
  {
    hide Inv; hide SlotOk; hide OneSlot; hide KidsOk; hide ZombieOk; hide WakingOk; hide Shaped;
    var w' := Do(w, p, EndScan);
    Sizes(w, p, EndScan);
    EndScanSlot(w, p);
    forall s: nat | s < |w.slots| ensures StillParent(w, p, w'.slots[p], s) {}
    forall s: nat | s < |w.slots| ensures ZombieOk(w', s) && WakingOk(w', s) { EndScanSleep(w, p, s); }
    forall s: nat | s < |w.slots| ensures Shaped(w', s) { OneSlotShape(w, w', p, w'.slots[p], s); }
    AllSlots(w');
    NoScan(w');
    OneSlotInv(w, w', p, w'.slots[p]);
  }

  // ---- proc_exit under wait_lock ----

  /** A slot t that becomes y keeps every other slot's family. */
  lemma SetFamily(w: World, t: nat, y: Slot, s: nat)
    requires t < |w.slots| && s < |w.slots| && Quiet(w.slots[t], y) && w.slots[t].locked == y.locked
    requires MakerOk(w, s) && ParentOk(w, s) && StillParent(w, t, y, s)
    ensures MakerOk(Set(w, t, y), s) && ParentOk(Set(w, t, y), s)
  {
  }

  lemma WokenFamily(w: World, t: nat, c: Chan, s: nat)
    requires t < |w.slots| && s < |w.slots| && MakerOk(w, s) && ParentOk(w, s)
    ensures var w' := Set(w, t, Woken(w.slots[t], c)); MakerOk(w', s) && ParentOk(w', s)
  {
    SetFamily(w, t, Woken(w.slots[t], c), s);
  }

  /** Moving on in proc_exit passes no slot that still has p as its parent. */
  lemma WakePassed(w: World, p: nat, y: Slot, s: nat)
    requires s < |w.slots| && p < |w.slots| && ParentOk(w, s)
    requires var x := w.slots[p].pc;
             (x.WakingInit? && (y.pc.WakingInit? || y.pc.Reparenting?)
              && y.pc.i == if y.pc.WakingInit? then x.i else x.i + 1)
             || (y.pc.WakingParent? && (x.WakingParent? || (x.Reparenting? && x.i >= |w.slots|)))
    ensures StillParent(w, p, y, s)
  {
  }

  /** Another slot's family when slot i gets a new parent. */
  lemma GivenOther(w: World, i: nat, y: Slot, s: nat)
    requires i < |w.slots| && s < |w.slots| && s != i && w.slots[i].maker == None
    requires y == w.slots[i].(parent := y.parent, ppid := y.ppid)
    requires MakerOk(w, s) && ParentOk(w, s)
    ensures MakerOk(Set(w, i, y), s) && ParentOk(Set(w, i, y), s)
  {
  }

  /** The child at slot i, given to init. */
  lemma GivenChild(w: World, p: nat, i: nat)
    requires Inv(w) && Can(w, p, Reparent) && i == w.slots[p].pc.i && w.slots[i].parent == Some(p)
    ensures MakerOk(Do(w, p, Reparent), i) && ParentOk(Do(w, p, Reparent), i)
  {
    hide Inv;
    Sizes(w, p, Reparent);
    At(w, p); At(w, i); At(w, w.init);
  }

  /** A slot with an exiting parent is not being filled. */
  lemma NotFilling(w: World, p: nat, i: nat)
    requires Inv(w) && i < |w.slots| && p < |w.slots| && w.slots[i].parent == Some(p) && w.slots[p].pc.Reparenting?
    ensures w.slots[i].maker == None
  {
    hide Inv;
    At(w, i);
    if w.slots[i].maker.Some? { At(w, w.slots[i].maker.value); }
  }

  lemma ReparentSlot(w: World, p: nat, s: nat)
    requires Inv(w) && Can(w, p, Reparent) && s < |w.slots|
    ensures SlotOk(Do(w, p, Reparent), s)
  {
    hide Inv; hide MakerOk; hide ParentOk;
    Hints(w, p, Reparent, s);
  }

  lemma ReparentFamily(w: World, p: nat, s: nat)
    requires Inv(w) && Can(w, p, Reparent) && s < |w.slots|
    ensures MakerOk(Do(w, p, Reparent), s) && ParentOk(Do(w, p, Reparent), s)
  {
    hide Inv; hide SlotOk; hide MakerOk;
    At(w, s); At(w, p);
    var x, i := w.slots[p], w.slots[p].pc.i;
    if w.slots[i].parent != Some(p) {
      SetFamily(w, p, x.(pc := Reparenting(x.pc.status, i + 1)), s);
    } else {
      var y := x.(pc := WakingInit(x.pc.status, i, 0));
      Sizes(w, p, Reparent);
      if s == i {
        GivenChild(w, p, i);
      } else {
        NotFilling(w, p, i);
        SetFamily(w, p, y, s);
        GivenOther(Set(w, p, y), i, Do(w, p, Reparent).slots[i], s);
      }
    }
  }

  lemma ReparentZombie(w: World, p: nat, s: nat)
    requires Inv(w) && Can(w, p, Reparent) && s < |w.slots|
    ensures ZombieOk(Do(w, p, Reparent), s)
  {
    hide Inv; hide MakerOk; hide PidOk; hide WakingOk;
    Hints(w, p, Reparent, s);
    At(w, s);
  }

  lemma ReparentWaking(w: World, p: nat, s: nat)
    requires Inv(w) && Can(w, p, Reparent) && s < |w.slots|
    ensures WakingOk(Do(w, p, Reparent), s)
  {
    hide Inv; hide MakerOk; hide PidOk; hide ZombieOk;
    Hints(w, p, Reparent, s);
    At(w, s);
  }

  lemma WakeInitSlot(w: World, p: nat, s: nat)
    requires Inv(w) && Can(w, p, WakeInit) && s < |w.slots|
    ensures SlotOk(Do(w, p, WakeInit), s)
  {
    hide Inv; hide MakerOk; hide ParentOk;
    Hints(w, p, WakeInit, s);
  }

  lemma WakeInitFamily(w: World, p: nat, s: nat)
    requires Inv(w) && Can(w, p, WakeInit) && s < |w.slots|
    ensures MakerOk(Do(w, p, WakeInit), s) && ParentOk(Do(w, p, WakeInit), s)
  {
    hide Inv; hide SlotOk; hide MakerOk; hide ParentOk;
    At(w, s);
    var x, j := w.slots[p], w.slots[p].pc.j;
    var w1 := Set(w, p, x.(pc := if j + 1 < |w.slots| then WakingInit(x.pc.status, x.pc.i, j + 1)
                                 else Reparenting(x.pc.status, x.pc.i + 1)));
    WakePassed(w, p, w1.slots[p], s);
    SetFamily(w, p, w1.slots[p], s);
    WokenFamily(w1, j, WaitOn(w.init), s);
  }

  lemma WakeInitSleep(w: World, p: nat, s: nat)
    requires Inv(w) && Can(w, p, WakeInit) && s < |w.slots|
    ensures ZombieOk(Do(w, p, WakeInit), s) && WakingOk(Do(w, p, WakeInit), s)
  {
    hide Inv; hide MakerOk; hide PidOk;
    Hints(w, p, WakeInit, s);
    At(w, s);
  }

  lemma WakeParentSlot(w: World, p: nat, s: nat)
    requires Inv(w) && Can(w, p, WakeParent) && s < |w.slots|
    ensures SlotOk(Do(w, p, WakeParent), s)
  {
    hide Inv; hide MakerOk; hide ParentOk;
    Hints(w, p, WakeParent, s);
  }

  lemma WakeParentFamily(w: World, p: nat, s: nat)
    requires Inv(w) && Can(w, p, WakeParent) && s < |w.slots|
    ensures MakerOk(Do(w, p, WakeParent), s) && ParentOk(Do(w, p, WakeParent), s)
  {
    hide Inv; hide SlotOk; hide MakerOk; hide ParentOk;
    At(w, s); At(w, p);
    var x := w.slots[p];
    if x.pc.Reparenting? {
      WakePassed(w, p, x.(pc := WakingParent(x.pc.status, 0)), s);
      SetFamily(w, p, x.(pc := WakingParent(x.pc.status, 0)), s);
    } else {
      var w1 := Set(w, p, x.(pc := WakingParent(x.pc.status, x.pc.j + 1)));
      WakePassed(w, p, w1.slots[p], s);
      SetFamily(w, p, w1.slots[p], s);
      WokenFamily(w1, x.pc.j, WaitOn(x.parent.value), s);
    }
  }

  lemma WakeParentZombie(w: World, p: nat, s: nat)
    requires Inv(w) && Can(w, p, WakeParent) && s < |w.slots|
    ensures ZombieOk(Do(w, p, WakeParent), s)
  {
    hide Inv; hide MakerOk; hide PidOk; hide WakingOk;
    Hints(w, p, WakeParent, s);
    At(w, s);
  }

  lemma WakeParentWaking(w: World, p: nat, s: nat)
    requires Inv(w) && Can(w, p, WakeParent) && s < |w.slots|
    ensures WakingOk(Do(w, p, WakeParent), s)
  {
    hide Inv; hide MakerOk; hide PidOk; hide ZombieOk;
    Hints(w, p, WakeParent, s);
    At(w, s);
  }

  lemma ExitPids(w: World, p: nat, act: Act)
    requires Inv(w) && Can(w, p, act) && (act.Reparent? || act.WakeInit? || act.WakeParent?)
    ensures SamePids(w, Do(w, p, act))
    ensures var w' := Do(w, p, act); w'.waitLock == Some(p) && !w'.slots[p].pc.Scanning?
  {
    hide Inv; hide MakerOk; hide ParentOk;
    Hints(w, p, act, p);
  }

  lemma ExitKeeps(w: World, p: nat, act: Act)
    requires Inv(w) && Can(w, p, act) && (act.Reparent? || act.WakeInit? || act.WakeParent?)
    ensures Inv(Do(w, p, act))
  {
    hide Inv;
    hide Do;
    hide Can;
    hide SlotOk;
    hide MakerOk;
    hide ParentOk;
    hide KidsOk;
    hide ZombieOk;
    hide WakingOk;
    hide PidOk;
    hide FateOk;
    hide SamePids;
    var w' := Do(w, p, act);
    Sizes(w, p, act);
    forall s: nat | s < |w'.slots| ensures Shaped(w', s) && ZombieOk(w', s) && WakingOk(w', s) {
      if act.Reparent? {
        ReparentSlot(w, p, s);
        ReparentFamily(w, p, s);
        ReparentZombie(w, p, s);
        ReparentWaking(w, p, s);
        assert Shaped(w', s);
      }
      else if act.WakeInit? {
        WakeInitSlot(w, p, s);
        WakeInitFamily(w, p, s);
        WakeInitSleep(w, p, s);
        assert Shaped(w', s);
      }
      else {
        WakeParentSlot(w, p, s);
        WakeParentFamily(w, p, s);
        WakeParentZombie(w, p, s);
        WakeParentWaking(w, p, s);
        assert Shaped(w', s);
      }
    }
    ExitPids(w, p, act);
    AllSlots(w');
    NoScan(w');
    PidsKeep(w, w');
    Gather(w');
  }

  lemma DieSlot(w: World, p: nat, s: nat)
    requires Inv(w) && Can(w, p, Die) && s < |w.slots|
    ensures SlotOk(Do(w, p, Die), s)
  {
    hide Inv; hide MakerOk; hide ParentOk;
    Hints(w, p, Die, s);
  }

  lemma DieFamily(w: World, p: nat, s: nat)
    requires Inv(w) && Can(w, p, Die) && s < |w.slots|
    ensures MakerOk(Do(w, p, Die), s) && ParentOk(Do(w, p, Die), s)
  {
    hide Inv;
    Hints(w, p, Die, s);
    At(w, w.slots[p].parent.value);
  }

  lemma DieSleep(w: World, p: nat, s: nat)
    requires Inv(w) && Can(w, p, Die) && s < |w.slots|
    ensures ZombieOk(Do(w, p, Die), s) && WakingOk(Do(w, p, Die), s)
  {
    hide Inv;
    Hints(w, p, Die, s);
    At(w, s); At(w, p);
  }

  lemma DiePids(w: World, p: nat, s: nat, n: nat)
    requires Inv(w) && Can(w, p, Die) && s < |w.slots|
    ensures PidOk(Do(w, p, Die), s) && FateOk(Do(w, p, Die), n)
  {
    assert FateOk(w, n);
    Hints(w, p, Die, s);
    assert FateOk(w, w.slots[p].pid);
  }

  lemma DieKeeps(w: World, p: nat)
    requires Inv(w) && Can(w, p, Die)
    ensures Inv(Do(w, p, Die))
  {
    hide Inv;
    hide SlotOk;
    hide MakerOk;
    hide ParentOk;
    hide KidsOk;
    hide ZombieOk;
    hide WakingOk;
    hide PidOk;
    hide FateOk;
    var w' := Do(w, p, Die);
    Sizes(w, p, Die);
    forall s: nat | s < |w'.slots| ensures Shaped(w', s) && ZombieOk(w', s) && WakingOk(w', s) && PidOk(w', s) {
      DieSlot(w, p, s);
      DieFamily(w, p, s);
      assert Shaped(w', s);
      DieSleep(w, p, s);
      DiePids(w, p, s, 0);
    }
    AllSlots(w');
    NoScan(w');
    forall n: nat ensures FateOk(w', n) { DiePids(w, p, p, n); }
    Gather(w');
  }

  lemma StepKeeps(w: World, p: nat, act: Act)
    requires Inv(w) && Can(w, p, act)
    ensures Inv(Do(w, p, act))
  {
    hide Inv; hide Do;
    match act
    case ForkAlloc(np) => ForkAllocKeeps(w, p, np);
    case ForkFail => ForkFailKeeps(w, p);
    case ForkUnlock => ForkOnKeeps(w, p, act);
    case ForkParent => ForkOnKeeps(w, p, act);
    case ForkReady => ForkOnKeeps(w, p, act);
    case Rouse(_) => RouseKeeps(w, p, act);
    case Kill(_, _) => RouseKeeps(w, p, act);
    case Scan(copied) => if Reaps(w, p, act) { ReapKeeps(w, p); } else { ScanKeeps(w, p, copied); }
    case EndScan => EndScanKeeps(w, p);
    case Reparent => ExitKeeps(w, p, act);
    case WakeInit => ExitKeeps(w, p, act);
    case WakeParent => ExitKeeps(w, p, act);
    case Die => DieKeeps(w, p);
    case _ => MoveKeeps(w, p, act);
  }
}
