/** The steps that change a slot's state or which context a hart runs. */
module SchedSwitch {
  import opened Common
  import opened Wrappers
  import opened SchedState
  import opened SchedTyping
  import opened SchedInv
  import opened SchedSteps

  /** Hart h changes itself and slot q. */
  predicate Touch(w: World, w': World, h: nat, q: nat)
    requires h < |w.harts| && q < |w.procs|
  {
    && |w'.harts| == |w.harts| && |w'.procs| == |w.procs| && w'.locks == w.locks
    && w'.harts == w.harts[h := w'.harts[h]]
    && w'.procs == w.procs[q := w'.procs[q]]
    && w'.harts[h].owns == w.harts[h].owns && w'.harts[h].named == w.harts[h].named
  }

  lemma TouchFrame(w: World, w': World, h: nat, q: nat)
    requires Inv(w) && h < |w.harts| && q < |w.procs| && Touch(w, w', h, q) && ProcFrame(w, w', h, q)
    ensures Frame(w, w', h) && LocksAgree(w', h)
    ensures forall l {:trigger LockOk(w', l)} | l in w'.locks :: LockOk(w', l)
  {
    hide Ok;
    hide ProcOk;
    assert HartOk(w, h);
    forall p: nat | p < |w.procs| ensures ProcFrame(w, w', h, p) {}
    forall l | l in w'.locks ensures LockOk(w', l) && LockFrame(w, w', h, l) {
      assert LockOk(w, l);
    }
    forall l | l in w'.locks
      ensures l in w'.harts[h].owns <==> w'.locks[l].setter == Some(h)
      ensures l in w'.harts[h].named <==> w'.locks[l].cpu == Some(h)
    {
      OwnsMeans(w, h, l);
    }
  }

  lemma TouchInv(w: World, w': World, h: nat, q: nat)
    requires Inv(w) && h < |w.harts| && q < |w.procs| && Touch(w, w', h, q) && ProcFrame(w, w', h, q)
    requires LocksAgree(w', h) ==> HartOk(w', h)
    requires ProcOk(w', q)
    requires forall p: nat {:trigger Aside(w, w', h, p)} | p < |w.procs| && p != q :: Aside(w, w', h, p)
    requires w.harts[h].runs.None? || w.harts[h].runs == Some(q)
          || (w'.harts[h].runs == w.harts[h].runs && w'.harts[h].proc == w.harts[h].proc)
    ensures Inv(w')
  {
    hide Ok;
    hide LocksAgree;
    hide ProcOk;
    hide HartOk;
    TouchFrame(w, w', h, q);
    forall g: nat | g < |w'.harts| ensures HartOk(w', g) {
      if g != h { OtherHart(w, w', h, g); }
    }
    forall p: nat | p < |w'.procs| ensures ProcOk(w', p) {
      if p != q {
        assert SameProc(w, w', h, p);
        assert Aside(w, w', h, p);
        OtherProc(w, w', h, p);
      }
    }
  }

  /** Hart h is not handing a slot over and owns the lock of q: then q is in
      RUNNING exactly when it is some hart's c->proc, and the hart may run it. */
  lemma OwnedSlot(w: World, h: nat, q: nat)
    requires Inv(w) && h < |w.harts| && q < |w.procs| && P(q) in w.harts[h].owns && w.harts[h].open == Closed
    ensures ProcOk(w, q) && (w.procs[q].state == RUNNING <==> w.procs[q].at.Some?)
    ensures w.procs[q].state != RUNNING ==> Parked(w, q) && w.harts[h].runs != Some(q) && w.harts[h].proc != Some(q)
  {
    hide Ok;
    OwnsMeans(w, h, P(q));
    assert ProcOk(w, q) && HartOk(w, h);
    if w.harts[h].runs == Some(q) { RunsAt(w, h); }
  }

  lemma AsideAll(w: World, w': World, h: nat, q: nat)
    requires Inv(w) && h < |w.harts| == |w'.harts| && q < |w.procs|
    requires w.harts[h].open == Closed || w.harts[h].open.p == q
    requires w.harts[h].proc.None? || w.harts[h].proc == Some(q)
          || (w'.harts[h].proc == w.harts[h].proc && w'.harts[h].runs == w.harts[h].runs)
    ensures forall p: nat {:trigger Aside(w, w', h, p)} | p < |w.procs| && p != q :: Aside(w, w', h, p)
  {
    hide Ok;
    forall p: nat | p < |w.procs| && p != q ensures Aside(w, w', h, p) {
      assert ProcOk(w, p);
    }
  }

  /** A change to a slot that is not running, under its lock. */
  predicate SlotMove(r: Proc, r': Proc, q: nat) {
    && r'.at == r.at && r'.home == r.home
    && ((r'.state == r.state && r'.code == r.code)
        || (r.state != RUNNING && r'.state != RUNNING
            && (Gone(r'.state) || (!Gone(r.state) && r'.code == r.code) || r'.code == FreshCode(q))))
  }

  lemma SlotProc(w: World, w': World, h: nat, q: nat)
    requires Inv(w) && h < |w.harts| && q < |w.procs| && P(q) in w.harts[h].owns && w.harts[h].open == Closed
    requires Touch(w, w', h, q) && SlotMove(w.procs[q], w'.procs[q], q)
    requires w'.harts[h].proc == w.harts[h].proc && w'.harts[h].runs == w.harts[h].runs
    ensures ProcOk(w', q)
  {
    hide Ok;
    OwnedSlot(w, h, q);
    var at := w.procs[q].at;
    if at.Some? && at.value != h { assert w'.harts[at.value] == w.harts[at.value]; }
    if w'.procs[q].code == FreshCode(q) {
      forall b: bool ensures Ok(FreshCode(q), Resumed(w'.locks.Keys, w'.procs[q].home, q, b)) {
        FreshOk(q, w'.procs[q].home, b, w'.locks.Keys);
      }
      assert CtxOk(w', q);
    } else if CtxOk(w, q) && w'.procs[q].code == w.procs[q].code {
      assert CtxOk(w', q);
    }
  }

  /** Slot q changes under its lock while the hart's own record stays. */
  lemma SlotInv(w: World, h: nat, q: nat, r': Proc)
    requires Inv(w) && h < |w.harts| && q < |w.procs| && P(q) in w.harts[h].owns && w.harts[h].open == Closed
    requires SlotMove(w.procs[q], r', q)
    ensures Inv(PutProc(w, q, r'))
  {
    hide Ok;
    hide ProcOk;
    hide LocksAgree;
    var w' := PutProc(w, q, r');
    assert w.harts[h := w.harts[h]] == w.harts;
    OwnedSlot(w, h, q);
    assert HartOk(w, h);
    assert ProcFrame(w, w', h, q);
    SlotProc(w, w', h, q);
    AsideAll(w, w', h, q);
    if LocksAgree(w', h) {
      assert CodeOf(w', h) == CodeOf(w, h) && AbsOf(w', h) == AbsOf(w, h);
      assert SchedParked(w', h);
      assert HartOk(w', h);
    }
    TouchInv(w, w', h, q);
  }

  lemma WakeIfFine(w: World, h: nat, c: nat, i: nat, k: Code)
    requires AtOp(w, h, WakeIf(c, i), k)
    ensures Fine(w, h, WakeIf(c, i), k)
  {
    hide Ok;
    hide Inv;
    HeadOf(w, h, WakeIf(c, i), k);
    SlotExists(w, i);
    OwnsMeans(w, h, P(i));
    var r := w.procs[i];
    var r' := if r.state == SLEEPING && r.chan == Some(c) then r.(state := RUNNABLE) else r;
    SlotInv(w, h, i, r');
    var w1 := PutProc(w, i, r');
    assert HomeOf(w1, h) == HomeOf(w, h);
    assert AbsWith(w1, w.harts[h], HomeOf(w, h)) == After(WakeIf(c, i), AbsOf(w, h));
    PutInv(w1, h, w.harts[h], k, HomeOf(w, h));
  }

  lemma SlotExists(w: World, p: nat)
    requires Inv(w)
    ensures P(p) in w.locks <==> p < |w.procs|
  {
  }

  lemma SetStateFine(w: World, h: nat, st: PState, k: Code)
    requires AtOp(w, h, SetState(st), k)
    ensures Fine(w, h, SetState(st), k)
  {
    hide Ok;
    hide LocksAgree;
    hide ProcOk;
    HeadOf(w, h, SetState(st), k);
    var x, p := w.harts[h], w.harts[h].runs.value;
    assert HartOk(w, h);
    RunsAt(w, h);
    OwnsMeans(w, h, P(p));
    var w' := Exec(w, h, SetState(st), k).w;
    assert AbsOf(w', h) == After(SetState(st), AbsOf(w, h));
    assert CodeOf(w', h) == k;
    assert SchedParked(w', h);
    LeftProc(w, w', h, p);
    AsideAll(w, w', h, p);
    TouchInv(w, w', h, p);
  }

  lemma LeftProc(w: World, w': World, h: nat, p: nat)
    requires Inv(w) && h < |w.harts| && p < |w.procs| && Touch(w, w', h, p) && P(p) in w.harts[h].owns
    requires w'.harts[h].proc == Some(p) && w'.harts[h].runs == Some(p) && w'.procs[p].at == Some(h)
    requires w'.harts[h].open.Parting? && w'.harts[h].open.p == p
    ensures ProcOk(w', p)
  {
    hide Ok;
    OwnsMeans(w, h, P(p));
    assert Handed(w', p);
  }

  lemma PickFine(w: World, h: nat, q: nat, k: Code)
    requires AtOp(w, h, Pick(q), k)
    ensures Fine(w, h, Pick(q), k)
  {
    hide LocksAgree;
    hide ProcOk;
    HeadOf(w, h, Pick(q), k);
    assert HartOk(w, h);
    var x, a := w.harts[h], AbsOf(w, h);
    SlotExists(w, q);
    if w.procs[q].state != RUNNABLE {
      assert a == if a.home then a.(home := true, intena := true) else a.(home := false, intena := false);
      assert AbsWith(w, x, HomeOf(w, h)) == a;
      PutInv(w, h, x, k, HomeOf(w, h));
    } else {
      OwnedSlot(w, h, q);
      var w' := Exec(w, h, Pick(q), k).w;
      PickedOk(q, k, a);
      assert AbsOf(w', h) == a.(open := Joining(q));
      PickedProc(w, w', h, q);
      AsideAll(w, w', h, q);
      TouchInv(w, w', h, q);
    }
  }

  lemma PickedOk(q: nat, k: Code, a: Abs)
    requires Ok(Do(Pick(q), k), a)
    ensures Ok(Do(SetProc(q), Do(SwtchTo(q), Do(ClearProc, k))), a.(open := Joining(q)))
  {
    hide Ok;
    PickHead(q, k, a);
    var a0 := a.(open := Joining(q));
    assert Sound(a0) && Fits(SetProc(q), a0);
    var a1 := After(SetProc(q), a0);
    BackOk(q, k, a, true);
    BackOk(q, k, a, false);
    SwtchToOk(q, Do(ClearProc, k), a1);
    OkStep(SetProc(q), Do(SwtchTo(q), Do(ClearProc, k)), a0);
  }

  lemma PickHead(q: nat, k: Code, a: Abs)
    requires Ok(Do(Pick(q), k), a)
    ensures Sound(a) && Fits(Pick(q), a) && P(q) in a.dom
    ensures Ok(k, a.(home := true, intena := true)) && Ok(k, a.(home := false, intena := false))
  {
  }

  /** Back in the scheduler, with intena as the process left it. */
  lemma BackOk(q: nat, k: Code, a: Abs, b: bool)
    requires Fits(Pick(q), a) && P(q) in a.dom && Ok(k, a.(home := b, intena := b))
    ensures Ok(Do(ClearProc, k), Returned(a.dom, a.home, q, b))
  {
    hide Ok;
    var r := Returned(a.dom, a.home, q, b);
    assert After(ClearProc, r) == a.(home := b, intena := b);
    assert Sound(r) && Fits(ClearProc, r);
    OkStep(ClearProc, k, r);
  }

  lemma SwtchToOk(q: nat, k: Code, a: Abs)
    requires Sound(a) && Fits(SwtchTo(q), a)
    requires Ok(k, Returned(a.dom, a.home, q, true)) && Ok(k, Returned(a.dom, a.home, q, false))
    ensures Ok(Do(SwtchTo(q), k), a)
  {
  }

  lemma PickedProc(w: World, w': World, h: nat, q: nat)
    requires Inv(w) && h < |w.harts| && q < |w.procs| && Touch(w, w', h, q) && P(q) in w.harts[h].owns
    requires w.harts[h].open == Closed && w.procs[q].state == RUNNABLE
    requires w'.procs[q] == w.procs[q].(state := RUNNING) && w'.harts[h].open == Joining(q)
    ensures ProcOk(w', q)
  {
    hide Ok;
    OwnedSlot(w, h, q);
    OwnsMeans(w, h, P(q));
    assert CtxOk(w, q);
    assert CtxOk(w', q);
    assert Handed(w', q);
  }

  lemma SetProcFine(w: World, h: nat, q: nat, k: Code)
    requires AtOp(w, h, SetProc(q), k)
    ensures Fine(w, h, SetProc(q), k)
  {
    hide Ok;
    hide LocksAgree;
    hide ProcOk;
    HeadOf(w, h, SetProc(q), k);
    assert HartOk(w, h);
    var w' := Exec(w, h, SetProc(q), k).w;
    assert AbsOf(w', h) == After(SetProc(q), AbsOf(w, h));
    JoinedProc(w, w', h, q);
    AsideAll(w, w', h, q);
    TouchInv(w, w', h, q);
  }

  lemma JoinedProc(w: World, w': World, h: nat, q: nat)
    requires Inv(w) && h < |w.harts| && q < |w.procs| && Touch(w, w', h, q)
    requires w.harts[h].open == Joining(q) && w.harts[h].runs.None?
    requires w'.procs[q] == w.procs[q].(at := Some(h)) && w'.harts[h].proc == Some(q) && w'.harts[h].runs.None?
    ensures ProcOk(w', q)
  {
    hide Ok;
    assert HartOk(w, h) && ProcOk(w, q);
    assert CtxOk(w, q);
    assert CtxOk(w', q);
  }

  lemma SwtchToFine(w: World, h: nat, q: nat, k: Code)
    requires AtOp(w, h, SwtchTo(q), k)
    ensures Fine(w, h, SwtchTo(q), k)
  {
    hide LocksAgree;
    hide ProcOk;
    HeadOf(w, h, SwtchTo(q), k);
    assert HartOk(w, h);
    var x, a := w.harts[h], AbsOf(w, h);
    var w' := Exec(w, h, SwtchTo(q), k).w;
    assert w.procs[q := w.procs[q]] == w.procs;
    RunProc(w, w', h, q);
    assert AbsOf(w', h) == Resumed(w.locks.Keys, w.procs[q].home, q, x.intena);
    assert SchedParked(w', h);
    AsideAll(w, w', h, q);
    TouchInv(w, w', h, q);
  }

  lemma RunProc(w: World, w': World, h: nat, q: nat)
    requires Inv(w) && h < |w.harts| && q < |w.procs| && Touch(w, w', h, q)
    requires w.harts[h].open == Closed && w.harts[h].runs.None? && w.harts[h].proc == Some(q) && P(q) in w.harts[h].owns
    requires w'.procs[q] == w.procs[q] && w'.harts[h].proc == Some(q) && w'.harts[h].runs == Some(q)
    ensures ProcOk(w', q) && w.procs[q].at == Some(h)
    ensures forall b: bool :: Ok(w.procs[q].code, Resumed(w.locks.Keys, w.procs[q].home, q, b))
  {
    hide Ok;
    assert HartOk(w, h);
    OwnedSlot(w, h, q);
    assert CtxOk(w, q);
  }

  lemma SwtchFine(w: World, h: nat, k: Code)
    requires AtOp(w, h, Swtch, k)
    ensures Fine(w, h, Swtch, k)
  {
    hide LocksAgree;
    hide ProcOk;
    hide Ok;
    HeadOf(w, h, Swtch, k);
    assert HartOk(w, h);
    RunsAt(w, h);
    var x, p := w.harts[h], w.harts[h].runs.value;
    var w' := Exec(w, h, Swtch, k).w;
    assert CodeOf(w', h) == x.sched;
    assert AbsOf(w', h) == Returned(w.locks.Keys, x.home, p, x.intena);
    if !Gone(w.procs[p].state) { SwtchRest(w, h, p, k); }
    LeftCtx(w, w', h, p);
    AsideAll(w, w', h, p);
    TouchInv(w, w', h, p);
  }

  lemma SwtchRest(w: World, h: nat, p: nat, k: Code)
    requires AtOp(w, h, Swtch, k) && w.harts[h].runs == Some(p)
    requires !Gone(w.procs[p].state)
    ensures forall b: bool {:trigger Resumed(w.locks.Keys, w.procs[p].home, p, b)} ::
              Ok(Do(SetIntena(w.harts[h].intena), k), Resumed(w.locks.Keys, w.procs[p].home, p, b))
  {
    assert HartOk(w, h);
    var x, home, dom := w.harts[h], w.procs[p].home, w.locks.Keys;
    RunsAt(w, h);
    assert x.intena == home && Ok(k, Resumed(dom, home, p, home));
    forall b: bool ensures Ok(Do(SetIntena(x.intena), k), Resumed(dom, home, p, b)) {
      assert After(SetIntena(home), Resumed(dom, home, p, b)) == Resumed(dom, home, p, home);
      assert Fits(SetIntena(home), Resumed(dom, home, p, b));
      OkStep(SetIntena(home), k, Resumed(dom, home, p, b));
    }
  }

  lemma LeftCtx(w: World, w': World, h: nat, p: nat)
    requires Inv(w) && h < |w.harts| && p < |w.procs| && Touch(w, w', h, p) && P(p) in w.harts[h].owns
    requires w'.harts[h].proc == Some(p) && w'.harts[h].runs == None && w'.procs[p].at == Some(h)
    requires w'.harts[h].open == Parting(p, false)
    requires !Gone(w'.procs[p].state) ==> CtxOk(w', p)
    ensures ProcOk(w', p)
  {
    hide Ok;
    hide CtxOk;
    OwnsMeans(w, h, P(p));
    assert Handed(w', p);
  }

  lemma ClearProcFine(w: World, h: nat, k: Code)
    requires AtOp(w, h, ClearProc, k)
    ensures Fine(w, h, ClearProc, k)
  {
    hide Ok;
    hide LocksAgree;
    hide ProcOk;
    HeadOf(w, h, ClearProc, k);
    assert HartOk(w, h);
    var q := w.harts[h].proc.value;
    var w' := Exec(w, h, ClearProc, k).w;
    assert AbsOf(w', h) == After(ClearProc, AbsOf(w, h));
    FreedProc(w, w', h, q);
    AsideAll(w, w', h, q);
    TouchInv(w, w', h, q);
  }

  lemma FreedProc(w: World, w': World, h: nat, q: nat)
    requires Inv(w) && h < |w.harts| && q < |w.procs| && Touch(w, w', h, q)
    requires w.harts[h].open.Parting? && w.harts[h].open.p == q && w.harts[h].runs.None? && w.harts[h].proc == Some(q)
    requires w'.procs[q] == w.procs[q].(at := None)
    ensures ProcOk(w', q)
  {
    hide Ok;
    assert HartOk(w, h) && ProcOk(w, q);
    if !Gone(w.procs[q].state) {
      assert CtxOk(w, q);
      assert CtxOk(w', q);
    }
  }
}
