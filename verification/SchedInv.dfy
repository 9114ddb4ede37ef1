/** The invariant of the scheduler machine. */
module SchedInv {
  import opened Common
  import opened Wrappers
  import opened SchedState
  import opened SchedTyping

  /** The sets of hart h are what the lock words say. */
  ghost predicate LocksAgree(w: World, h: nat)
    requires h < |w.harts|
  {
    forall l {:trigger w.locks[l]} | l in w.locks ::
      && (l in w.harts[h].owns <==> w.locks[l].setter == Some(h))
      && (l in w.harts[h].named <==> w.locks[l].cpu == Some(h))
  }

  predicate AtAgrees(w: World, h: nat)
    requires h < |w.harts|
  {
    w.harts[h].proc.Some? ==> w.harts[h].proc.value < |w.procs| && w.procs[w.harts[h].proc.value].at == Some(h)
  }

  predicate Gone(st: PState) { st == ZOMBIE || st == UNUSED }

  predicate OpenAgrees(w: World, h: nat)
    requires h < |w.harts|
  {
    match w.harts[h].open
    case Closed => true
    case Joining(q) => q < |w.procs| && w.procs[q].state == RUNNING && w.procs[q].at.None?
    case Parting(q, gone) => q < |w.procs| && w.procs[q].state != RUNNING && (gone ==> Gone(w.procs[q].state))
  }

  /** While the hart runs process p, its scheduler waits in swtch for p. */
  ghost predicate SchedParked(w: World, h: nat)
    requires h < |w.harts|
  {
    var x := w.harts[h];
    x.runs.Some? ==> forall b: bool {:trigger Returned(w.locks.Keys, x.home, x.runs.value, b)} ::
        Ok(x.sched, Returned(w.locks.Keys, x.home, x.runs.value, b))
  }

  predicate IntrAgrees(w: World, h: nat)
    requires Exists(w, h)
  {
    w.harts[h].intr == (w.harts[h].noff == 0 && HomeOf(w, h))
  }

  ghost predicate HartOk(w: World, h: nat) {
    && Exists(w, h)
    && Ok(CodeOf(w, h), AbsOf(w, h))
    && AtAgrees(w, h)
    && OpenAgrees(w, h)
    && SchedParked(w, h)
    && IntrAgrees(w, h)
    && LocksAgree(w, h)
  }

  /** No hart runs the context of slot p. */
  predicate Parked(w: World, p: nat)
    requires p < |w.procs|
  {
    var at := w.procs[p].at;
    at.None? || at.value >= |w.harts| || w.harts[at.value].runs != Some(p)
  }

  predicate Handed(w: World, p: nat) {
    && P(p) in w.locks
    && w.locks[P(p)].setter.Some?
    && w.locks[P(p)].setter.value < |w.harts|
    && var o := w.harts[w.locks[P(p)].setter.value].open;
       o != Closed && o.p == p
  }

  predicate AtKnown(w: World, p: nat)
    requires p < |w.procs|
  {
    var at := w.procs[p].at;
    at.Some? ==> at.value < |w.harts| && w.harts[at.value].proc == Some(p)
  }

  /** The context of p is safe to switch to. */
  ghost predicate CtxOk(w: World, p: nat)
    requires p < |w.procs|
  {
    forall b: bool {:trigger Resumed(w.locks.Keys, w.procs[p].home, p, b)} ::
      Ok(w.procs[p].code, Resumed(w.locks.Keys, w.procs[p].home, p, b))
  }

  ghost predicate ProcOk(w: World, p: nat) {
    && p < |w.procs|
    && AtKnown(w, p)
    && ((w.procs[p].state == RUNNING <==> w.procs[p].at.Some?) || Handed(w, p))
    && (Parked(w, p) && !Gone(w.procs[p].state) ==> CtxOk(w, p))
  }

  predicate LockOk(w: World, l: LockId) {
    && l in w.locks
    && (w.locks[l].locked <==> w.locks[l].setter.Some?)
    && (w.locks[l].setter.Some? ==> w.locks[l].setter.value < |w.harts|)
    && (w.locks[l].cpu.Some? ==> w.locks[l].cpu == w.locks[l].setter)
  }

  ghost predicate Inv(w: World) {
    && (forall p: nat {:trigger P(p)} :: P(p) in w.locks <==> p < |w.procs|)
    && WAIT_LOCK in w.locks
    && |w.procs| > 0
    && (forall h: nat {:trigger HartOk(w, h)} | h < |w.harts| :: HartOk(w, h))
    && (forall p: nat {:trigger ProcOk(w, p)} | p < |w.procs| :: ProcOk(w, p))
    && (forall l {:trigger LockOk(w, l)} | l in w.locks :: LockOk(w, l))
  }

  // ---- what a step of hart h leaves to the others ----

  predicate ProcFrame(w: World, w': World, h: nat, p: nat)
    requires h < |w.harts| && p < |w.procs| == |w'.procs|
  {
    && (P(p) !in w.harts[h].owns ==> w'.procs[p].state == w.procs[p].state && w'.procs[p].at == w.procs[p].at)
    && (w.procs[p].at.Some? && w.procs[p].at != Some(h) ==>
          w'.procs[p].at == w.procs[p].at && w'.procs[p].code == w.procs[p].code && w'.procs[p].home == w.procs[p].home)
  }

  predicate Mine(a: Option<nat>, h: nat) { a == None || a == Some(h) }

  predicate LockFrame(w: World, w': World, h: nat, l: LockId)
    requires l in w.locks && l in w'.locks
  {
    && (w'.locks[l].setter == w.locks[l].setter || (Mine(w.locks[l].setter, h) && Mine(w'.locks[l].setter, h)))
    && (w'.locks[l].cpu == w.locks[l].cpu || (Mine(w.locks[l].cpu, h) && Mine(w'.locks[l].cpu, h)))
  }

  ghost predicate Frame(w: World, w': World, h: nat) {
    && h < |w.harts| == |w'.harts|
    && |w.procs| == |w'.procs|
    && w.locks.Keys == w'.locks.Keys
    && (forall g: nat {:trigger w'.harts[g]} | g < |w.harts| && g != h :: w'.harts[g] == w.harts[g])
    && (forall p: nat {:trigger ProcFrame(w, w', h, p)} | p < |w.procs| :: ProcFrame(w, w', h, p))
    && (forall l {:trigger LockFrame(w, w', h, l)} | l in w.locks :: l in w'.locks && LockFrame(w, w', h, l))
  }

  lemma OwnsMeans(w: World, h: nat, l: LockId)
    requires Inv(w) && h < |w.harts| && l in w.locks
    ensures l in w.harts[h].owns <==> w.locks[l].setter == Some(h)
    ensures l in w.harts[h].named <==> w.locks[l].cpu == Some(h)
    ensures w.harts[h].named <= w.harts[h].owns <= w.locks.Keys
  {
    assert HartOk(w, h);
  }

  lemma OtherHart(w: World, w': World, h: nat, g: nat)
    requires Inv(w) && Frame(w, w', h) && g < |w.harts| && g != h
    ensures HartOk(w', g)
  {
    assert HartOk(w, g) && w'.harts[g] == w.harts[g];
    var x := w.harts[g];
    if x.proc.Some? {
      assert ProcFrame(w, w', h, x.proc.value);
    }
    if x.open != Closed {
      OwnsMeans(w, h, P(x.open.p));
      OwnsMeans(w, g, P(x.open.p));
      assert ProcFrame(w, w', h, x.open.p);
    }
    forall l | l in w'.locks
      ensures l in x.owns <==> w'.locks[l].setter == Some(g)
      ensures l in x.named <==> w'.locks[l].cpu == Some(g)
    {
      assert LockFrame(w, w', h, l) && w.locks[l] == w.locks[l];
    }
    assert AbsOf(w', g) == AbsOf(w, g) && CodeOf(w', g) == CodeOf(w, g);
    assert SchedParked(w', g);
  }

  /** The slot p is not the one hart h is handing over, before or after. */
  predicate Aside(w: World, w': World, h: nat, p: nat)
    requires h < |w.harts| == |w'.harts| && p < |w.procs|
  {
    && (w.harts[h].open == Closed || w.harts[h].open.p != p)
    && (w.procs[p].at == Some(h) ==> w'.harts[h].proc == Some(p) && w'.harts[h].runs == w.harts[h].runs)
  }

  predicate SameProc(w: World, w': World, h: nat, p: nat)
    requires h < |w.harts| && p < |w.procs| == |w'.procs|
  {
    && w'.procs[p].state == w.procs[p].state
    && w'.procs[p].at == w.procs[p].at
    && (w.harts[h].runs == Some(p) || (w'.procs[p].code == w.procs[p].code && w'.procs[p].home == w.procs[p].home))
  }

  lemma OtherProc(w: World, w': World, h: nat, p: nat)
    requires Inv(w) && Frame(w, w', h) && p < |w.procs|
    requires SameProc(w, w', h, p) && Aside(w, w', h, p)
    ensures ProcOk(w', p)
  {
    hide Ok;
    assert ProcOk(w, p) && HartOk(w, h);
    assert LockFrame(w, w', h, P(p));
    var at := w.procs[p].at;
    if at.Some? && at.value != h {
      assert w'.harts[at.value] == w.harts[at.value];
    }
    if Handed(w, p) {
      var g := w.locks[P(p)].setter.value;
      assert g != h;
      assert w'.harts[g] == w.harts[g];
    }
    if w.harts[h].runs == Some(p) {
      RunsIsProc(w, h);
    }
  }

  lemma RunsIsProc(w: World, h: nat)
    requires Inv(w) && h < |w.harts| && w.harts[h].runs.Some?
    ensures w.harts[h].proc == w.harts[h].runs
  {
    assert HartOk(w, h);
  }

  /** A step in which hart h keeps its context, its c->proc and its hand-over. */
  ghost predicate Stays(w: World, w': World, h: nat) {
    && Frame(w, w', h)
    && w'.harts[h].proc == w.harts[h].proc
    && w'.harts[h].runs == w.harts[h].runs
    && w'.harts[h].open == w.harts[h].open
    && (w.harts[h].open != Closed ==> var l := P(w.harts[h].open.p);
          l in w.locks && w'.locks[l].setter == w.locks[l].setter)
  }

  lemma StayProc(w: World, w': World, h: nat, p: nat)
    requires Inv(w) && Stays(w, w', h) && p < |w.procs| && SameProc(w, w', h, p)
    ensures ProcOk(w', p)
  {
    hide Ok;
    assert ProcOk(w, p) && HartOk(w, h);
    if w.harts[h].open != Closed && w.harts[h].open.p == p {
      assert Handed(w', p) by { SoundOf(w, h); }
      var at := w.procs[p].at;
      if at.Some? && at.value != h {
        assert w'.harts[at.value] == w.harts[at.value];
      }
      if w.harts[h].runs == Some(p) {
        RunsIsProc(w, h);
      }
    } else {
      OtherProc(w, w', h, p);
    }
  }

  lemma SoundOf(w: World, h: nat)
    requires Inv(w) && h < |w.harts|
    ensures Exists(w, h) && Sound(AbsOf(w, h))
    ensures w.harts[h].open != Closed ==>
              var l := P(w.harts[h].open.p); l in w.locks && w.locks[l].setter == Some(h)
  {
    assert HartOk(w, h);
    if w.harts[h].open != Closed {
      OwnsMeans(w, h, P(w.harts[h].open.p));
    }
  }

  lemma StayInv(w: World, w': World, h: nat)
    requires Inv(w) && Stays(w, w', h) && HartOk(w', h)
    requires forall p: nat {:trigger SameProc(w, w', h, p)} | p < |w.procs| :: SameProc(w, w', h, p) || ProcOk(w', p)
    requires forall l {:trigger LockOk(w', l)} | l in w'.locks :: LockOk(w', l)
    ensures Inv(w')
  {
    hide Ok;
    hide HartOk;
    hide ProcOk;
    forall g: nat | g < |w'.harts|
      ensures HartOk(w', g)
    {
      if g != h { OtherHart(w, w', h, g); }
    }
    forall p: nat | p < |w'.procs|
      ensures ProcOk(w', p)
    {
      if SameProc(w, w', h, p) { StayProc(w, w', h, p); }
    }
  }

  // ---- steps that only touch the hart itself ----

  /** Hart h changes its own flags and list, and perhaps the channel of the
      process it runs. */
  predicate Local(w: World, w': World, h: nat)
    requires h < |w.harts|
  {
    && |w'.harts| == |w.harts| && |w'.procs| == |w.procs| && w'.locks == w.locks
    && var x, x' := w.harts[h], w'.harts[h];
    && w'.harts == w.harts[h := x']
    && x'.runs == x.runs && x'.proc == x.proc && x'.open == x.open && x'.owns == x.owns && x'.named == x.named
    && (x.runs.Some? ==>
          && x'.sched == x.sched && x'.home == x.home && x.runs.value < |w.procs|
          && var p := x.runs.value;
          && var r, r' := w.procs[p], w'.procs[p];
          && w'.procs == w.procs[p := r'] && r'.state == r.state && r'.at == r.at)
    && (x.runs.None? ==> w'.procs == w.procs)
  }

  lemma LocalInv(w: World, w': World, h: nat)
    requires Inv(w) && h < |w.harts| && Exists(w, h) && Local(w, w', h)
    requires Ok(CodeOf(w', h), AbsOf(w', h)) && IntrAgrees(w', h)
    ensures Inv(w')
  {
    hide Ok;
    assert HartOk(w, h);
    forall p: nat | p < |w.procs| ensures ProcFrame(w, w', h, p) && SameProc(w, w', h, p) {
      if w.harts[h].runs == Some(p) { RunsIsProc(w, h); }
    }
    forall l | l in w.locks ensures LockFrame(w, w', h, l) && LockOk(w', l) {
      assert LockOk(w, l);
    }
    assert LocksAgree(w', h) by {
      forall l | l in w'.locks
        ensures l in w'.harts[h].owns <==> w'.locks[l].setter == Some(h)
        ensures l in w'.harts[h].named <==> w'.locks[l].cpu == Some(h)
      {
        assert w.locks[l] == w.locks[l];
      }
    }
    SoundOf(w, h);
    assert HartOk(w', h);
    assert Stays(w, w', h);
    StayInv(w, w', h);
  }
}
