/** All runs of fork, exit, wait and kill, over any number of slots. */
module LifecycleRuns {
  import opened Common
  import opened Wrappers
  import opened Lifecycle
  import opened LifecycleInv
  import opened LifecycleSteps

  /** After userinit: the first process, with pid 1, and no other. */
  ghost predicate Init(w: World) {
    && w.init < |w.slots|
    && w.waitLock == None && w.nextPid == 2
    && w.fates == map[1 := InSlot(w.init)] && w.exits == map[]
    && w.slots[w.init] == FREE.(state := RUNNABLE, pid := 1)
    && forall s: nat {:trigger w.slots[s]} | s < |w.slots| && s != w.init :: w.slots[s] == FREE
  }

  lemma InitInv(w: World)
    requires Init(w)
    ensures Inv(w)
  {
    forall s: nat | s < |w.slots|
      ensures SlotOk(w, s) && MakerOk(w, s) && ParentOk(w, s) && KidsOk(w, s) && ZombieOk(w, s) && WakingOk(w, s)
              && PidOk(w, s)
    {
      assert w.slots[s] == if s == w.init then FREE.(state := RUNNABLE, pid := 1) else FREE;
    }
    forall n: nat ensures FateOk(w, n) {}
  }

  datatype Event = Event(p: nat, act: Act)

  ghost predicate Run(ws: seq<World>, es: seq<Event>) {
    && |ws| == |es| + 1
    && Init(ws[0])
    && forall i: nat {:trigger es[i]} | i < |es| ::
         Can(ws[i], es[i].p, es[i].act) && ws[i + 1] == Do(ws[i], es[i].p, es[i].act)
  }

  lemma {:induction false} EveryRun(ws: seq<World>, es: seq<Event>, i: nat)
    requires Run(ws, es) && i < |ws|
    ensures Inv(ws[i])
    decreases i
  {
    hide Inv; hide Do; hide Can; hide Init;
    if i == 0 {
      InitInv(ws[0]);
    } else {
      EveryRun(ws, es, i - 1);
      StepKeeps(ws[i - 1], es[i - 1].p, es[i - 1].act);
    }
  }

  predicate ZombieChild(w: World, c: nat, p: nat) { IsChild(w, c, p) && w.slots[c].state == ZOMBIE }

  predicate AsleepInWait(w: World, p: nat) {
    p < |w.slots| && w.slots[p].state == SLEEPING && w.slots[p].chan == Some(WaitOn(p))
  }

  /** With wait_lock free, nobody sleeps in wait while having a zombie child. */
  lemma NoMissedChild(w: World, p: nat, c: nat)
    requires Inv(w) && w.waitLock == None
    ensures !(AsleepInWait(w, p) && ZombieChild(w, c, p))
  {
    assert p < |w.slots| ==> SlotOk(w, p);
    assert c < |w.slots| ==> ZombieOk(w, c);
  }

  /** Every zombie has a living parent to reap it, and a parent pointer names the
      process it was set to, never a later user of the slot. */
  lemma ParentLives(w: World, c: nat)
    requires Inv(w) && c < |w.slots|
    ensures w.slots[c].state == ZOMBIE ==> w.slots[c].parent.Some?
    ensures w.slots[c].parent.Some? ==>
              var q := w.slots[c].parent.value;
              q < |w.slots| && Alive(w.slots[q].state) && w.slots[q].pid == w.slots[c].ppid
  {
    assert SlotOk(w, c) && ParentOk(w, c);
  }

  predicate Has(w: World, s: nat, n: nat) { s < |w.slots| && w.slots[s].state != UNUSED && w.slots[s].pid == n }

  /** The pids handed out are exactly the disjoint union of those in a slot, in
      one slot only, those reaped and those of forks that failed. */
  lemma PidPartition(w: World, n: nat)
    requires Inv(w)
    ensures 0 < n < w.nextPid <==> n in w.fates
    ensures n in w.fates && w.fates[n].InSlot? <==> exists s: nat :: Has(w, s, n)
    ensures forall s: nat, t: nat :: Has(w, s, n) && Has(w, t, n) ==> s == t
  {
    assert FateOk(w, n);
    forall s: nat | Has(w, s, n) ensures n in w.fates && w.fates[n] == InSlot(s) { assert PidOk(w, s); }
    if n in w.fates && w.fates[n].InSlot? { assert Has(w, w.fates[n].s, n); }
  }

  /** A fate is final, so a pid is reaped at most once; it is reaped only while
      its process is a zombie, by the parent recorded for it, with the status
      given to proc_exit. */
  lemma FateIsFinal(w: World, p: nat, act: Act, n: nat)
    requires Inv(w) && Can(w, p, act) && n in w.fates
    ensures var w' := Do(w, p, act);
            && n in w'.fates
            && (w'.fates[n] == w.fates[n]
                || (w.fates[n].InSlot? && w'.fates[n] == Aborted && act == ForkFail)
                || (w.fates[n].InSlot? && w'.fates[n].Reaped? && Reaps(w, p, act)
                    && ZombieChild(w, w.fates[n].s, p)
                       && w'.fates[n].parent == w.slots[p].pid == w.slots[w.fates[n].s].ppid
                    && n in w.exits && w'.fates[n].status == w.exits[n]))
  {
    hide Inv;
    if act.ForkAlloc? {
      FateAt(w, n);
    } else if act.ForkFail? {
      Hints(w, p, act, p);
      FateAt(w, n);
    } else if act.Scan? && Reaps(w, p, act) {
      At(w, w.slots[p].pc.i);
      FateAt(w, n);
    } else {
      Unfated(w, p, act);
    }
  }

  lemma FateAt(w: World, n: nat)
    requires Inv(w)
    ensures FateOk(w, n)
  {
    assert FateOk(w, n);
  }

  lemma Unfated(w: World, p: nat, act: Act)
    requires Can(w, p, act) && !act.ForkAlloc? && !act.ForkFail? && !Reaps(w, p, act)
    ensures Do(w, p, act).fates == w.fates
  {
  }

  // ---- how states change ----

  /** What a step may do to the state of the slot that takes it. */
  predicate OwnMove(from: PState, to: PState, act: Act) {
    match act
    case Dispatch => from == RUNNABLE && to == RUNNING
    case Preempt => from == RUNNING && to == RUNNABLE
    case Nap(_) => from == RUNNING && to == SLEEPING
    case Doze => from == RUNNING && to == SLEEPING
    case Die => from == RUNNING && to == ZOMBIE
    case _ => from == to == RUNNING
  }

  /** What it may do to another slot. Only a sleeper is woken, and it waits to run;
      a slot is taken unused and given back by a failed fork or by wait. */
  predicate OtherMove(from: PState, to: PState, act: Act) {
    match act
    case ForkAlloc(_) => to == from || (from == UNUSED && to == USED)
    case ForkFail => to == from || (from == USED && to == UNUSED)
    case ForkReady => to == from || (from == USED && to == RUNNABLE)
    case Scan(copied) => to == from || (copied && from == ZOMBIE && to == UNUSED)
    case Rouse(_) => to == from || (from == SLEEPING && to == RUNNABLE)
    case Kill(_, _) => to == from || (from == SLEEPING && to == RUNNABLE)
    case WakeInit => to == from || (from == SLEEPING && to == RUNNABLE)
    case WakeParent => to == from || (from == SLEEPING && to == RUNNABLE)
    case _ => to == from
  }

  predicate IsFork(act: Act) {
    act.ForkAlloc? || act.ForkFail? || act.ForkUnlock? || act.ForkParent? || act.ForkReady?
  }

  predicate Moves(w: World, w': World, p: nat, act: Act, s: nat) {
    && s < |w.slots| == |w'.slots|
    && var from, to := w.slots[s].state, w'.slots[s].state;
       if s == p then OwnMove(from, to, act) else OtherMove(from, to, act)
  }

  lemma ForkMoves(w: World, p: nat, act: Act, s: nat)
    requires Can(w, p, act) && IsFork(act) && s < |w.slots| && Other(w, p, act) < |w.slots| && Other(w, p, act) != p
    requires w.slots[Other(w, p, act)].state == if act.ForkAlloc? then UNUSED else USED
    ensures Moves(w, Do(w, p, act), p, act, s)
  {
  }

  lemma PlainMoves(w: World, p: nat, act: Act, s: nat)
    requires Can(w, p, act) && !IsFork(act) && s < |w.slots|
    ensures Moves(w, Do(w, p, act), p, act, s)
  {
  }

  /** Every step moves every slot along the life of a process. */
  lemma StatesMove(w: World, p: nat, act: Act, s: nat)
    requires Inv(w) && Can(w, p, act) && s < |w.slots|
    ensures Moves(w, Do(w, p, act), p, act, s)
  {
    hide Inv; hide ParentOk; hide Moves; hide Do;
    if IsFork(act) {
      Hints(w, p, act, p);
      ForkMoves(w, p, act, s);
    } else {
      PlainMoves(w, p, act, s);
    }
  }

  // ---- the status of proc_exit ----

  /** The status a process carries through proc_exit. */
  function Carried(pc: Pc): Option<int> {
    match pc
    case Exiting(v) => Some(v)
    case Reparenting(v, _) => Some(v)
    case WakingInit(v, _, _) => Some(v)
    case WakingParent(v, _) => Some(v)
    case _ => None
  }

  /** The process with pid n, in slot s, has called proc_exit(v): it carries v, or
      is a zombie with it, or has been reaped with it. */
  predicate Promised(w: World, s: nat, n: nat, v: int) {
    n in w.fates
    && if w.fates[n] == InSlot(s) then
         s < |w.slots| && w.slots[s].pid == n
         && if n in w.exits then w.exits[n] == v == w.slots[s].xstate && w.slots[s].state == ZOMBIE
            else Carried(w.slots[s].pc) == Some(v)
       else w.fates[n].Reaped? && w.fates[n].status == v && n in w.exits && w.exits[n] == v
  }

  predicate SameSelf(w: World, w': World, s: nat) {
    && s < |w.slots| == |w'.slots|
    && var x, y := w.slots[s], w'.slots[s];
    && y.pid == x.pid && y.xstate == x.xstate && y.pc == x.pc && (x.state == ZOMBIE ==> y.state == ZOMBIE)
  }

  predicate ReapsSlot(w: World, p: nat, act: Act, s: nat)
    requires Can(w, p, act)
  {
    Reaps(w, p, act) && w.slots[p].pc.i == s
  }

  lemma ForksLeave(w: World, p: nat, act: Act, s: nat)
    requires Can(w, p, act) && IsFork(act) && s < |w.slots| && p != s && Other(w, p, act) != s
    ensures SameSelf(w, Do(w, p, act), s)
  {
  }

  lemma OthersLeave(w: World, p: nat, act: Act, s: nat)
    requires Can(w, p, act) && !IsFork(act) && s < |w.slots| && p != s && !ReapsSlot(w, p, act, s)
    ensures SameSelf(w, Do(w, p, act), s)
  {
  }

  /** The slot a fork fills is in use by no process yet. */
  lemma FillsOther(w: World, p: nat, act: Act, s: nat)
    requires Inv(w) && Can(w, p, act) && IsFork(act) && s < |w.slots|
    requires w.slots[s].state != UNUSED && w.slots[s].state != USED
    ensures Other(w, p, act) != s
  {
    hide Inv; hide ParentOk;
    Hints(w, p, act, p);
    At(w, s);
  }

  /** A process that carries v goes on with it, until it dies with it. */
  predicate Carries(w: World, w': World, s: nat, v: int) {
    && s < |w.slots| == |w'.slots| && w'.slots[s].pid == w.slots[s].pid
    && if Carried(w'.slots[s].pc) == Some(v) then w'.exits == w.exits
       else w'.slots[s].state == ZOMBIE && w'.slots[s].xstate == v && w'.exits == w.exits[w.slots[s].pid := v]
  }

  lemma StatusCarried(w: World, p: nat, act: Act)
    requires Inv(w) && Can(w, p, act) && Carried(w.slots[p].pc).Some?
    ensures Carries(w, Do(w, p, act), p, Carried(w.slots[p].pc).value)
  {
    hide Inv; hide ParentOk; hide MakerOk; hide PidOk;
    Hints(w, p, act, p);
  }

  lemma ExitsKept(w: World, p: nat, act: Act, n: nat)
    requires Can(w, p, act) && n != w.slots[p].pid
    ensures var e := Do(w, p, act).exits; (n in e <==> n in w.exits) && (n in e ==> e[n] == w.exits[n])
  {
  }

  lemma ActorLives(w: World, p: nat, act: Act)
    requires Can(w, p, act)
    ensures p < |w.slots| && Alive(w.slots[p].state)
  {
  }

  lemma PromiseKept(w: World, p: nat, act: Act, s: nat, n: nat, v: int)
    requires Inv(w) && Can(w, p, act) && Promised(w, s, n, v)
    ensures Promised(Do(w, p, act), s, n, v)
  {
    hide Inv; hide Do; hide Can; hide ParentOk; hide MakerOk; hide Reaps; hide IsFork; hide Other;
    StepKeeps(w, p, act);
    Sizes(w, p, act);
    ActorLives(w, p, act);
    var w' := Do(w, p, act);
    FateIsFinal(w, p, act, n);
    FateAt(w, n);
    FateAt(w', n);
    if w.fates[n] == InSlot(s) {
      At(w, s);
      At(w, p);
      At(w', s);
      if ReapsSlot(w, p, act, s) {
        SlotGone(w, p, act);
      } else if p == s {
        StatusCarried(w, p, act);
      } else {
        if IsFork(act) { FillsOther(w, p, act, s); ForksLeave(w, p, act, s); } else { OthersLeave(w, p, act, s); }
        ExitsKept(w, p, act, n);
      }
    }
  }

  lemma SlotGone(w: World, p: nat, act: Act)
    requires Inv(w) && Can(w, p, act) && Reaps(w, p, act)
    ensures act == Scan(true) && Do(w, p, act).slots[w.slots[p].pc.i].state == UNUSED
  {
  }

  /** wait delivers what the child said: once the process with pid n has called
      proc_exit(v), the status recorded for n is v, and so is the one it is reaped
      with. */
  lemma {:induction false} StatusDelivered(ws: seq<World>, es: seq<Event>, k: nat, m: nat, v: int)
    requires Run(ws, es) && k < m < |ws| && es[k].act == ExitCall(v) && es[k].p < |ws[k].slots|
    ensures var n := ws[k].slots[es[k].p].pid;
            && Promised(ws[m], es[k].p, n, v)
            && (n in ws[m].exits ==> ws[m].exits[n] == v)
            && (n in ws[m].fates && ws[m].fates[n].Reaped? ==> ws[m].fates[n].status == v)
    decreases m
  {
    hide Inv; hide Can; hide Init;
    var n := ws[k].slots[es[k].p].pid;
    EveryRun(ws, es, m - 1);
    EveryRun(ws, es, m);
    assert es[m - 1] == es[m - 1];
    if m == k + 1 {
      ExitPromises(ws[k], es[k].p, v);
    } else {
      hide Do;
      StatusDelivered(ws, es, k, m - 1, v);
      PromiseKept(ws[m - 1], es[m - 1].p, es[m - 1].act, es[k].p, n, v);
    }
    FateAt(ws[m], n);
  }

  lemma ExitPromises(w: World, p: nat, v: int)
    requires Inv(w) && Can(w, p, ExitCall(v))
    ensures Promised(Do(w, p, ExitCall(v)), p, w.slots[p].pid, v)
  {
    hide Inv;
    At(w, p);
  }

  /** What wait answers: -1 at the end of a scan only if the caller has no child
      or was killed; otherwise it sleeps, with a child and no zombie one. */
  lemma WaitAnswers(w: World, p: nat)
    requires Inv(w) && Can(w, p, EndScan)
    ensures Do(w, p, EndScan).slots[p].pc == User <==> w.slots[p].killed || forall c: nat :: !IsChild(w, c, p)
    ensures Do(w, p, EndScan).slots[p].pc == Dozing ==>
              (exists c: nat :: IsChild(w, c, p)) && forall c: nat :: !ZombieChild(w, c, p)
  {
    assert KidsOk(w, p) && SlotOk(w, p);
    forall c: nat | IsChild(w, c, p) ensures w.slots[p].pc.kids && !ZombieChild(w, c, p) {
      assert ParentOk(w, c);
    }
  }

  /** kill marks the one process that has the pid, if any, and no other slot. */
  lemma KillsOne(w: World, p: nat, q: nat, pid: nat, s: nat)
    requires Inv(w) && Can(w, p, Kill(q, pid)) && s < |w.slots|
    ensures var w' := Do(w, p, Kill(q, pid));
            && (Has(w, q, pid) ==>
                 w'.slots[q] == w.slots[q].(killed := true, state := if w.slots[q].state == SLEEPING then RUNNABLE
                     else w.slots[q].state))
            && (s != q || !Has(w, q, pid) ==> w'.slots[s] == w.slots[s])
            && (Has(w, s, pid) && s != q ==> !Has(w, q, pid))
  {
    PidPartition(w, pid);
  }

  /** The first process is never a zombie and is never freed: proc_exit panics
      before it could be. */
  lemma InitLives(w: World)
    requires Inv(w)
    ensures Alive(w.slots[w.init].state) && w.slots[w.init].parent == None
    ensures forall status: int :: !Can(w, w.init, ExitCall(status))
  {
    assert SlotOk(w, w.init);
  }
}
