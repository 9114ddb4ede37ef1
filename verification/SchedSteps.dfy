/** Every step of a hart keeps the invariant, and none panics. */
module SchedSteps {
  import opened Wrappers
  import opened SchedState
  import opened SchedTyping
  import opened SchedInv

  predicate Plain(op: Op) { !op.Kernel? && !op.Loop? && !op.Swtch? && !op.SwtchTo? && !op.Pick? }

  lemma OkHead(op: Op, k: Code, a: Abs)
    requires Ok(Do(op, k), a)
    ensures Sound(a) && Fits(op, a) && (Plain(op) ==> Ok(k, After(op, a)))
  {
  }

  ghost predicate AtOp(w: World, h: nat, op: Op, k: Code) {
    Inv(w) && h < |w.harts| && Exists(w, h) && CodeOf(w, h) == Do(op, k)
  }

  lemma HeadOf(w: World, h: nat, op: Op, k: Code)
    requires AtOp(w, h, op, k)
    ensures var a := AbsOf(w, h); Sound(a) && Fits(op, a) && (Plain(op) ==> Ok(k, After(op, a)))
    ensures IntrAgrees(w, h) && LocksAgree(w, h) && AtAgrees(w, h) && OpenAgrees(w, h)
    ensures w.harts[h].runs.Some? ==> P(w.harts[h].runs.value) in w.locks
  {
    hide Ok;
    assert HartOk(w, h);
    OkHead(op, k, AbsOf(w, h));
  }

  predicate SameTies(x: Hart, y: Hart) {
    && y.runs == x.runs && y.proc == x.proc && y.open == x.open && y.owns == x.owns && y.named == x.named
    && (x.runs.Some? ==> y.sched == x.sched && y.home == x.home)
  }

  function AbsWith(w: World, y: Hart, home: bool): Abs {
    Abs(y.runs, home, w.locks.Keys, y.owns, y.named, y.noff, if y.noff == 0 then home else y.intena, y.proc, y.open)
  }

  /** Hart h goes on with flags y and list k. */
  lemma PutInv(w: World, h: nat, y: Hart, k: Code, home: bool)
    requires Inv(w) && h < |w.harts| && Exists(w, h) && SameTies(w.harts[h], y)
    requires Ok(k, AbsWith(w, y, home)) && y.intr == (y.noff == 0 && home)
    ensures Inv(Put(w, h, y, k, home))
  {
    hide Ok;
    hide Inv;
    var w' := Put(w, h, y, k, home);
    assert AbsOf(w', h) == AbsWith(w, y, home);
    LocalInv(w, w', h);
  }

  /** The same with the channel of the process that runs changed. */
  lemma PutChanInv(w: World, h: nat, c: Option<nat>, k: Code)
    requires Inv(w) && h < |w.harts| && Exists(w, h) && w.harts[h].runs.Some?
    requires Ok(k, AbsOf(w, h)) && IntrAgrees(w, h)
    ensures var p := w.harts[h].runs.value;
            Inv(Put(PutProc(w, p, w.procs[p].(chan := c)), h, w.harts[h], k, HomeOf(w, h)))
  {
    hide Ok;
    hide Inv;
    var p := w.harts[h].runs.value;
    var w' := Put(PutProc(w, p, w.procs[p].(chan := c)), h, w.harts[h], k, HomeOf(w, h));
    assert AbsOf(w', h) == AbsOf(w, h);
    LocalInv(w, w', h);
  }

  ghost predicate Fine(w: World, h: nat, op: Op, k: Code)
    requires Exists(w, h)
  {
    && Named(w, w.harts[h], op)
    && var o := Exec(w, h, op, k);
    && o != Panic
    && (o.To? ==> Inv(o.w))
  }

  lemma PushFine(w: World, h: nat, k: Code)
    requires AtOp(w, h, PushOff, k)
    ensures Fine(w, h, PushOff, k)
  {
    hide Ok;
    hide Inv;
    HeadOf(w, h, PushOff, k);
    var x, home := w.harts[h], HomeOf(w, h);
    var y := x.(intena := if x.noff == 0 then x.intr else x.intena, noff := x.noff + 1, intr := false);
    assert AbsWith(w, y, home) == After(PushOff, AbsOf(w, h));
    PutInv(w, h, y, k, home);
  }

  lemma PopFine(w: World, h: nat, k: Code)
    requires AtOp(w, h, PopOff, k)
    ensures Fine(w, h, PopOff, k)
  {
    hide Ok;
    hide Inv;
    HeadOf(w, h, PopOff, k);
    var x, home := w.harts[h], HomeOf(w, h);
    var y := x.(noff := x.noff - 1, intr := x.noff == 1 && x.intena);
    assert AbsWith(w, y, home) == After(PopOff, AbsOf(w, h));
    PutInv(w, h, y, k, home);
  }

  lemma HoldingMeans(w: World, h: nat, l: LockId)
    requires Inv(w) && h < |w.harts| && l in w.locks
    ensures Holding(w, h, l) <==> l in w.harts[h].named
  {
    assert LockOk(w, l);
    OwnsMeans(w, h, l);
  }

  lemma TestFine(w: World, h: nat, op: Op, k: Code)
    requires AtOp(w, h, op, k) && (op.TestFree? || op.TestHeld? || op.ReadProc? || op.SchedCheck?)
    ensures Fine(w, h, op, k)
  {
    hide Ok;
    hide Inv;
    HeadOf(w, h, op, k);
    var x := w.harts[h];
    if op.TestFree? || op.TestHeld? {
      HoldingMeans(w, h, op.l);
    }
    if op.SchedCheck? {
      HoldingMeans(w, h, P(x.runs.value));
    }
    assert AbsWith(w, x, HomeOf(w, h)) == AbsOf(w, h);
    PutInv(w, h, x, k, HomeOf(w, h));
  }

  lemma ChanFine(w: World, h: nat, op: Op, k: Code)
    requires AtOp(w, h, op, k) && (op.SetChan? || op.ClearChan?)
    ensures Fine(w, h, op, k)
  {
    hide Ok;
    hide Inv;
    HeadOf(w, h, op, k);
    PutChanInv(w, h, if op.SetChan? then Some(op.c) else None, k);
  }

  lemma FlagFine(w: World, h: nat, op: Op, k: Code)
    requires AtOp(w, h, op, k) && (op.SetIntena? || op.Adopt? || op.Sret?)
    ensures Fine(w, h, op, k)
  {
    hide Ok;
    hide Inv;
    HeadOf(w, h, op, k);
    var x, home := w.harts[h], HomeOf(w, h);
    if op.SetIntena? {
      assert AbsWith(w, x.(intena := op.b), home) == After(op, AbsOf(w, h));
      PutInv(w, h, x.(intena := op.b), k, home);
    } else if op.Adopt? {
      assert AbsWith(w, x, x.intena) == After(op, AbsOf(w, h));
      PutInv(w, h, x, k, x.intena);
    } else {
      assert AbsWith(w, x.(intr := true), true) == After(op, AbsOf(w, h));
      PutInv(w, h, x.(intr := true), k, true);
    }
  }

  lemma LoopFine(w: World, h: nat, op: Op, k: Code)
    requires AtOp(w, h, op, k) && (op.Loop? || op.Wakeup?)
    ensures Fine(w, h, op, k)
  {
    hide Ok;
    HeadOf(w, h, op, k);
    var x, home, a := w.harts[h], HomeOf(w, h), AbsOf(w, h);
    assert AbsWith(w, x, home) == a;
    assert P(op.i) in w.locks <==> op.i < |w.procs|;
    if op.Loop? {
      var next := if op.i + 1 < |w.procs| then op.i + 1 else 0;
      assert P(next) in w.locks;
      LoopOk(op.i, next, a);
      PutInv(w, h, x, LoopCode(op.i, next), home);
    } else if op.i < |w.procs| {
      assert HartOk(w, h);
      WakeupOk(op.c, op.i, k, a);
      PutInv(w, h, x, Acquire(P(op.i), Do(WakeIf(op.c, op.i), Release(P(op.i), Do(Wakeup(op.c, op.i + 1), k)))), home);
    } else {
      PutInv(w, h, x, k, home);
    }
  }

  // ---- steps on a lock word ----

  /** Hart h changes one lock between free and its own. */
  predicate LockMove(w: World, h: nat, l: LockId, s: Spin, y: Hart)
    requires h < |w.harts|
  {
    && l in w.locks
    && SameHand(w.harts[h], y)
    && Mine(w.locks[l].setter, h) && Mine(s.setter, h) && Mine(w.locks[l].cpu, h) && Mine(s.cpu, h)
    && (s.locked <==> s.setter.Some?)
    && (s.cpu.Some? ==> s.cpu == s.setter)
    && y.owns == (if s.setter.Some? then w.harts[h].owns + {l} else w.harts[h].owns - {l})
    && y.named == (if s.cpu.Some? then w.harts[h].named + {l} else w.harts[h].named - {l})
    && (w.harts[h].open != Closed && l == P(w.harts[h].open.p) ==> s.setter == w.locks[l].setter)
  }

  predicate SameHand(x: Hart, y: Hart) {
    y.runs == x.runs && y.proc == x.proc && y.open == x.open
    && (x.runs.Some? ==> y.sched == x.sched && y.home == x.home)
  }

  lemma LockInv(w: World, h: nat, l: LockId, s: Spin, y: Hart, k: Code)
    requires Inv(w) && h < |w.harts| && Exists(w, h) && LockMove(w, h, l, s, y)
    requires Ok(k, AbsWith(w, y, HomeOf(w, h))) && y.intr == (y.noff == 0 && HomeOf(w, h))
    ensures Inv(Put(PutLock(w, l, s), h, y, k, HomeOf(w, h)))
  {
    hide Ok;
    hide ProcOk;
    var home := HomeOf(w, h);
    var w' := Put(PutLock(w, l, s), h, y, k, home);
    assert w'.locks.Keys == w.locks.Keys;
    assert AbsOf(w', h) == AbsWith(w, y, home);
    LockFrames(w, h, l, s, y, k);
    SoundOf(w, h);
    HandedLock(w, h, l, s, y, k);
    assert Stays(w, w', h);
    StayInv(w, w', h);
  }

  lemma LockFrames(w: World, h: nat, l: LockId, s: Spin, y: Hart, k: Code)
    requires Inv(w) && h < |w.harts| && Exists(w, h) && LockMove(w, h, l, s, y)
    ensures var w' := Put(PutLock(w, l, s), h, y, k, HomeOf(w, h));
            && Frame(w, w', h)
            && (forall p: nat {:trigger SameProc(w, w', h, p)} | p < |w.procs| :: SameProc(w, w', h, p))
            && (forall m {:trigger LockOk(w', m)} | m in w'.locks :: LockOk(w', m))
  {
    hide Ok;
    hide ProcOk;
    var w' := Put(PutLock(w, l, s), h, y, k, HomeOf(w, h));
    assert w'.locks.Keys == w.locks.Keys;
    forall p: nat | p < |w.procs| ensures ProcFrame(w, w', h, p) && SameProc(w, w', h, p) {
      if w.harts[h].runs == Some(p) { RunsAt(w, h); }
    }
    forall m | m in w'.locks ensures m in w.locks && LockFrame(w, w', h, m) && LockOk(w', m) {
      assert LockOk(w, m);
    }
  }

  lemma RunsAt(w: World, h: nat)
    requires Inv(w) && h < |w.harts| && w.harts[h].runs.Some?
    ensures w.harts[h].proc == w.harts[h].runs
    ensures w.harts[h].runs.value < |w.procs| && w.procs[w.harts[h].runs.value].at == Some(h)
  {
    assert HartOk(w, h);
  }

  lemma LockSets(w: World, h: nat, l: LockId, s: Spin, y: Hart, w': World)
    requires Inv(w) && h < |w.harts| && LockMove(w, h, l, s, y)
    requires w'.locks == w.locks[l := s] && |w'.harts| == |w.harts|
    requires w'.harts[h].owns == y.owns && w'.harts[h].named == y.named
    ensures LocksAgree(w', h)
  {
    hide HartOk;
    hide ProcOk;
    forall m | m in w'.locks
      ensures m in y.owns <==> w'.locks[m].setter == Some(h)
      ensures m in y.named <==> w'.locks[m].cpu == Some(h)
    {
      OwnsMeans(w, h, m);
    }
  }

  lemma HandedLock(w: World, h: nat, l: LockId, s: Spin, y: Hart, k: Code)
    requires Inv(w) && h < |w.harts| && Exists(w, h) && LockMove(w, h, l, s, y)
    requires Ok(k, AbsWith(w, y, HomeOf(w, h))) && y.intr == (y.noff == 0 && HomeOf(w, h))
    ensures HartOk(Put(PutLock(w, l, s), h, y, k, HomeOf(w, h)), h)
  {
    hide Ok;
    hide LocksAgree;
    hide ProcOk;
    hide LockOk;
    assert HartOk(w, h);
    var home := HomeOf(w, h);
    var w' := Put(PutLock(w, l, s), h, y, k, home);
    assert w'.locks.Keys == w.locks.Keys;
    assert AbsOf(w', h) == AbsWith(w, y, home);
    LockSets(w, h, l, s, y, w');
    if w.harts[h].runs.Some? { RunsAt(w, h); }
    assert SchedParked(w', h);
  }

  lemma TasFine(w: World, h: nat, l: LockId, k: Code)
    requires AtOp(w, h, Tas(l), k)
    ensures Fine(w, h, Tas(l), k)
  {
    hide Ok;
    hide Inv;
    HeadOf(w, h, Tas(l), k);
    OwnsMeans(w, h, l);
    LockOf(w, l);
    var y := w.harts[h].(owns := w.harts[h].owns + {l});
    assert AbsWith(w, y, HomeOf(w, h)) == After(Tas(l), AbsOf(w, h));
    if !w.locks[l].locked {
      assert y.named == w.harts[h].named - {l};
      LockInv(w, h, l, w.locks[l].(locked := true, setter := Some(h)), y, k);
    }
  }

  lemma SetCpuFine(w: World, h: nat, l: LockId, k: Code)
    requires AtOp(w, h, SetCpu(l), k)
    ensures Fine(w, h, SetCpu(l), k)
  {
    hide Ok;
    hide Inv;
    HeadOf(w, h, SetCpu(l), k);
    OwnsMeans(w, h, l);
    LockOf(w, l);
    var y := w.harts[h].(named := w.harts[h].named + {l});
    assert AbsWith(w, y, HomeOf(w, h)) == After(SetCpu(l), AbsOf(w, h));
    assert y.owns == w.harts[h].owns + {l};
    LockInv(w, h, l, w.locks[l].(cpu := Some(h)), y, k);
  }

  lemma ClearCpuFine(w: World, h: nat, l: LockId, k: Code)
    requires AtOp(w, h, ClearCpu(l), k)
    ensures Fine(w, h, ClearCpu(l), k)
  {
    hide Ok;
    hide Inv;
    HeadOf(w, h, ClearCpu(l), k);
    OwnsMeans(w, h, l);
    LockOf(w, l);
    var y := w.harts[h].(named := w.harts[h].named - {l});
    assert AbsWith(w, y, HomeOf(w, h)) == After(ClearCpu(l), AbsOf(w, h));
    assert y.owns == w.harts[h].owns + {l};
    LockInv(w, h, l, w.locks[l].(cpu := None), y, k);
  }

  lemma UnlockFine(w: World, h: nat, l: LockId, k: Code)
    requires AtOp(w, h, Unlock(l), k)
    ensures Fine(w, h, Unlock(l), k)
  {
    hide Ok;
    hide Inv;
    HeadOf(w, h, Unlock(l), k);
    OwnsMeans(w, h, l);
    LockOf(w, l);
    var y := w.harts[h].(owns := w.harts[h].owns - {l});
    assert AbsWith(w, y, HomeOf(w, h)) == After(Unlock(l), AbsOf(w, h));
    assert y.named == w.harts[h].named - {l};
    LockInv(w, h, l, w.locks[l].(locked := false, setter := None), y, k);
  }

  lemma LockOf(w: World, l: LockId)
    requires Inv(w) && l in w.locks
    ensures LockOk(w, l)
  {
  }
}
