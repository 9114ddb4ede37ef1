/** References to open files, inodes and pipes, over the whole machine.  Between
    system calls every count is the number of places that hold the reference. */
module RefCount {
  import opened Common
  import opened Wrappers

  const NFILE: nat := 64
  const NOFILE: nat := 16

  /** What a file is: unused or not yet decided, one end of a pipe, a device, or an inode. */
  datatype FType = Nothing | Pipe(q: nat, writable: bool) | Device | Inode(x: nat)

  datatype Fl = Fl(ref: nat, typ: FType)

  datatype Proc = Proc(ofile: seq<Option<nat>>, cwd: Option<nat>, zombie: bool)

  datatype Ends = Ends(readopen: bool, writeopen: bool)

  /** `irefs` are the reference counts of the cached inodes, `made` numbers the
      pipes, and `freed` lists those whose page went back to the allocator. */
  datatype World = World(files: seq<Fl>, procs: map<nat, Proc>, irefs: map<nat, nat>, pipes: map<nat, Ends>, made: nat,
                         freed: seq<nat>)

  /** References that the running call holds, besides those in the tables. */
  datatype Hand = Hand(files: multiset<nat>, inodes: multiset<nat>)

  const EMPTY := Hand(multiset{}, multiset{})

  // ---- who holds what ----

  function Slots(procs: map<nat, Proc>, f: nat): set<(nat, nat)> {
    set p, i | p in procs && 0 <= i < |procs[p].ofile| && procs[p].ofile[i] == Some(f) :: (p, i)
  }

  function Cwds(procs: map<nat, Proc>, x: nat): set<nat> {
    set p | p in procs && procs[p].cwd == Some(x)
  }

  function OfInode(files: seq<Fl>, x: nat): set<nat> {
    set f: nat | f < |files| && files[f].typ == Inode(x)
  }

  function EndsOf(files: seq<Fl>, q: nat, writable: bool): set<nat> {
    set f: nat | f < |files| && files[f].typ == Pipe(q, writable)
  }

  function IRef(w: World, x: nat): nat { if x in w.irefs then w.irefs[x] else 0 }

  predicate FileOk(w: World, h: Hand, f: nat) {
    f < |w.files| ==>
      w.files[f].ref == |Slots(w.procs, f)| + h.files[f] && (w.files[f].ref == 0 ==> w.files[f].typ == Nothing)
  }

  predicate InodeOk(w: World, h: Hand, x: nat) {
    IRef(w, x) == |OfInode(w.files, x)| + |Cwds(w.procs, x)| + h.inodes[x]
  }

  function B(b: bool): nat { if b then 1 else 0 }

  predicate PipeOk(w: World, q: nat) {
    if q in w.pipes then
      && q < w.made && q !in w.freed && (w.pipes[q].readopen || w.pipes[q].writeopen)
      && |EndsOf(w.files, q, false)| == B(w.pipes[q].readopen)
      && |EndsOf(w.files, q, true)| == B(w.pipes[q].writeopen)
    else
      && (q < w.made <==> q in w.freed)
      && |EndsOf(w.files, q, false)| == |EndsOf(w.files, q, true)| == 0
  }

  predicate Clean(x: Proc) { x.cwd == None && forall i: nat | i < |x.ofile| :: x.ofile[i] == None }

  predicate ProcOk(w: World, p: nat) {
    p in w.procs ==>
      && |w.procs[p].ofile| == NOFILE
      && (forall i: nat | i < NOFILE && w.procs[p].ofile[i].Some? :: w.procs[p].ofile[i].value < NFILE)
      && (w.procs[p].zombie ==> Clean(w.procs[p]))
  }

  ghost predicate Counts(w: World, h: Hand) {
    && |w.files| == NFILE
    && (forall f: nat {:trigger FileOk(w, h, f)} :: FileOk(w, h, f))
    && (forall x: nat {:trigger InodeOk(w, h, x)} :: InodeOk(w, h, x))
    && (forall p: nat {:trigger ProcOk(w, p)} :: ProcOk(w, p))
  }

  ghost predicate Pipes(w: World) {
    Unique(w.freed) && forall q: nat {:trigger PipeOk(w, q)} :: PipeOk(w, q)
  }

  ghost predicate Inv(w: World, h: Hand) { Counts(w, h) && Pipes(w) }

  // ---- elementary changes ----

  function SetFile(w: World, f: nat, y: Fl): World
    requires f < |w.files|
  {
    w.(files := w.files[f := y])
  }

  function WithSlot(procs: map<nat, Proc>, p: nat, i: nat, v: Option<nat>): map<nat, Proc>
    requires p in procs && i < |procs[p].ofile|
  {
    procs[p := procs[p].(ofile := procs[p].ofile[i := v])]
  }

  function WithCwd(procs: map<nat, Proc>, p: nat, v: Option<nat>): map<nat, Proc>
    requires p in procs
  {
    procs[p := procs[p].(cwd := v)]
  }

  lemma OneOff<T>(a: set<T>, b: set<T>, e: T, was: bool, now: bool)
    requires (e in a <==> was) && (e in b <==> now)
    requires forall x | x != e :: x in a <==> x in b
    ensures |b| + B(was) == |a| + B(now)
    ensures was ==> |a| > 0
  {
    var rest := a - {e};
    assert rest == b - {e};
    assert was ==> a == rest + {e};
    assert now ==> b == rest + {e};
    assert !was ==> a == rest;
    assert !now ==> b == rest;
  }

  lemma SlotCount(procs: map<nat, Proc>, p: nat, i: nat, v: Option<nat>, f: nat)
    requires p in procs && i < |procs[p].ofile|
    ensures |Slots(WithSlot(procs, p, i, v), f)| + B(procs[p].ofile[i] == Some(f)) == |Slots(procs, f)| +
              B(v == Some(f))
    ensures procs[p].ofile[i] == Some(f) ==> |Slots(procs, f)| > 0
  {
    var a, b := Slots(procs, f), Slots(WithSlot(procs, p, i, v), f);
    forall e ensures e in b <==> if e == (p, i) then v == Some(f) else e in a {
      if e.0 in procs && e.0 != p { assert WithSlot(procs, p, i, v)[e.0] == procs[e.0]; }
    }
    OneOff(a, b, (p, i), procs[p].ofile[i] == Some(f), v == Some(f));
  }

  lemma SlotCwds(procs: map<nat, Proc>, p: nat, i: nat, v: Option<nat>, x: nat)
    requires p in procs && i < |procs[p].ofile|
    ensures Cwds(WithSlot(procs, p, i, v), x) == Cwds(procs, x)
  {
  }

  lemma CwdCount(procs: map<nat, Proc>, p: nat, v: Option<nat>, x: nat, f: nat)
    requires p in procs
    ensures |Cwds(WithCwd(procs, p, v), x)| + B(procs[p].cwd == Some(x)) == |Cwds(procs, x)| + B(v == Some(x))
    ensures Slots(WithCwd(procs, p, v), f) == Slots(procs, f)
  {
    var a, b := Cwds(procs, x), Cwds(WithCwd(procs, p, v), x);
    OneOff(a, b, p, procs[p].cwd == Some(x), v == Some(x));
  }

  lemma FileCount(files: seq<Fl>, f: nat, y: Fl, x: nat)
    requires f < |files|
    ensures |OfInode(files[f := y], x)| + B(files[f].typ == Inode(x)) == |OfInode(files, x)| + B(y.typ == Inode(x))
    ensures files[f].typ == Inode(x) ==> |OfInode(files, x)| > 0
  {
    OneOff(OfInode(files, x), OfInode(files[f := y], x), f, files[f].typ == Inode(x), y.typ == Inode(x));
  }

  lemma EndCount(files: seq<Fl>, f: nat, y: Fl, q: nat, b: bool)
    requires f < |files|
    ensures |EndsOf(files[f := y], q, b)| + B(files[f].typ == Pipe(q, b)) == |EndsOf(files, q, b)| +
              B(y.typ == Pipe(q, b))
    ensures files[f].typ == Pipe(q, b) ==> |EndsOf(files, q, b)| > 0
  {
    OneOff(EndsOf(files, q, b), EndsOf(files[f := y], q, b), f, files[f].typ == Pipe(q, b), y.typ == Pipe(q, b));
  }

  // ---- how a change of one place moves the counts ----

  /** A file's count or type: the hand makes up the difference. */
  lemma FileCounts(w: World, h: Hand, f: nat, y: Fl, h': Hand)
    requires Counts(w, h) && f < NFILE && (y.ref == 0 ==> y.typ == Nothing)
    requires forall g: nat ::
               h'.files[g] + (if g == f then w.files[f].ref else 0) == h.files[g] + (if g == f then y.ref else 0)
    requires forall x: nat :: h'.inodes[x] + B(y.typ == Inode(x)) == h.inodes[x] + B(w.files[f].typ == Inode(x))
    ensures Counts(SetFile(w, f, y), h')
  {
    hide Slots;
    hide Cwds;
    hide OfInode;
    var w' := SetFile(w, f, y);
    forall g: nat ensures FileOk(w', h', g) { assert FileOk(w, h, g); }
    forall x: nat ensures InodeOk(w', h', x) { assert InodeOk(w, h, x); FileCount(w.files, f, y, x); }
    forall r: nat ensures ProcOk(w', r) { assert ProcOk(w, r); }
  }

  /** A descriptor: its old file goes to the hand, its new one comes from there. */
  lemma SlotCounts(w: World, h: Hand, p: nat, i: nat, v: Option<nat>, h': Hand)
    requires Counts(w, h) && p in w.procs && i < |w.procs[p].ofile|
    requires !w.procs[p].zombie && (v.Some? ==> v.value < NFILE) && h'.inodes == h.inodes
    requires forall g: nat :: h'.files[g] + B(v == Some(g)) == h.files[g] + B(w.procs[p].ofile[i] == Some(g))
    ensures Counts(w.(procs := WithSlot(w.procs, p, i, v)), h')
  {
    hide Slots;
    hide Cwds;
    hide OfInode;
    var w' := w.(procs := WithSlot(w.procs, p, i, v));
    forall g: nat ensures FileOk(w', h', g) { assert FileOk(w, h, g); SlotCount(w.procs, p, i, v, g); }
    forall x: nat ensures InodeOk(w', h', x) { assert InodeOk(w, h, x); SlotCwds(w.procs, p, i, v, x); }
    forall r: nat ensures ProcOk(w', r) { assert ProcOk(w, r); assert ProcOk(w, p); }
  }

  lemma CwdCounts(w: World, h: Hand, p: nat, v: Option<nat>, h': Hand)
    requires Counts(w, h) && p in w.procs && !w.procs[p].zombie && h'.files == h.files
    requires forall x: nat :: h'.inodes[x] + B(v == Some(x)) == h.inodes[x] + B(w.procs[p].cwd == Some(x))
    ensures Counts(w.(procs := WithCwd(w.procs, p, v)), h')
  {
    hide Slots;
    hide Cwds;
    hide OfInode;
    var w' := w.(procs := WithCwd(w.procs, p, v));
    forall g: nat ensures FileOk(w', h', g) { assert FileOk(w, h, g); CwdCount(w.procs, p, v, 0, g); }
    forall x: nat ensures InodeOk(w', h', x) { assert InodeOk(w, h, x); CwdCount(w.procs, p, v, x, 0); }
    forall r: nat ensures ProcOk(w', r) { assert ProcOk(w, r); }
  }

  lemma IrefCounts(w: World, h: Hand, x: nat, n: nat, h': Hand)
    requires Counts(w, h) && h'.files == h.files
    requires forall y: nat ::
               h'.inodes[y] + (if x == y then IRef(w, x) else 0) == h.inodes[y] + (if x == y then n else 0)
    ensures Counts(w.(irefs := w.irefs[x := n]), h')
  {
    hide Slots;
    hide Cwds;
    hide OfInode;
    var w' := w.(irefs := w.irefs[x := n]);
    forall g: nat ensures FileOk(w', h', g) { assert FileOk(w, h, g); }
    forall y: nat ensures InodeOk(w', h', y) { assert InodeOk(w, h, y); }
    forall r: nat ensures ProcOk(w', r) { assert ProcOk(w, r); }
  }

  /** Counts say nothing about pipes, and Pipes says nothing about processes. */
  lemma Apart(w: World, h: Hand, w': World)
    ensures Counts(w, h) && w'.files == w.files && w'.procs == w.procs && w'.irefs == w.irefs ==> Counts(w', h)
    ensures Pipes(w) && w'.files == w.files && w'.pipes == w.pipes && w'.made == w.made && w'.freed == w.freed ==>
              Pipes(w')
  {
    if Counts(w, h) && w'.files == w.files && w'.procs == w.procs && w'.irefs == w.irefs {
      forall g: nat ensures FileOk(w', h, g) { assert FileOk(w, h, g); }
      forall x: nat ensures InodeOk(w', h, x) { assert InodeOk(w, h, x); }
      forall r: nat ensures ProcOk(w', r) { assert ProcOk(w, r); }
    }
    if Pipes(w) && w'.files == w.files && w'.pipes == w.pipes && w'.made == w.made && w'.freed == w.freed {
      forall q: nat ensures PipeOk(w', q) { assert PipeOk(w, q); }
    }
  }

  /** A file that is no pipe end stays none. */
  lemma NoEnd(w: World, f: nat, y: Fl)
    requires Pipes(w) && f < |w.files|
    requires y.typ == w.files[f].typ || (!y.typ.Pipe? && !w.files[f].typ.Pipe?)
    ensures Pipes(SetFile(w, f, y))
  {
    hide EndsOf;
    var w' := SetFile(w, f, y);
    forall q: nat ensures PipeOk(w', q) {
      assert PipeOk(w, q);
      EndCount(w.files, f, y, q, false);
      EndCount(w.files, f, y, q, true);
    }
  }

  // ---- pipes ----

  /** `pipealloc` after its two files and its page are there. */
  function PipeMade(w: World, f0: nat, f1: nat): World
    requires f0 < |w.files| && f1 < |w.files|
  {
    w.(files := w.files[f0 := w.files[f0].(typ := Pipe(w.made, false))][f1 := w.files[f1].(typ := Pipe(w.made, true))],
       pipes := w.pipes[w.made := Ends(true, true)], made := w.made + 1)
  }

  lemma MadeOk(w: World, f0: nat, f1: nat)
    requires Pipes(w) && f0 < |w.files| && f1 < |w.files| && f0 != f1
    requires w.files[f0].typ == Nothing && w.files[f1].typ == Nothing
    ensures Pipes(PipeMade(w, f0, f1))
  {
    hide EndsOf;
    var w' := PipeMade(w, f0, f1);
    var mid := w.files[f0 := w.files[f0].(typ := Pipe(w.made, false))];
    assert PipeOk(w, w.made);
    forall q: nat ensures PipeOk(w', q) {
      assert PipeOk(w, q);
      EndCount(w.files, f0, mid[f0], q, false);
      EndCount(w.files, f0, mid[f0], q, true);
      EndCount(mid, f1, w'.files[f1], q, false);
      EndCount(mid, f1, w'.files[f1], q, true);
    }
  }

  /** `pipeclose`: the flag of one end is cleared, and the page goes when both are. */
  function PipeClosed(w: World, q: nat, writable: bool): World
    requires q in w.pipes
  {
    var e := if writable then w.pipes[q].(writeopen := false) else w.pipes[q].(readopen := false);
    if !e.readopen && !e.writeopen then w.(pipes := w.pipes - {q}, freed := w.freed + [q])
    else w.(pipes := w.pipes[q := e])
  }

  lemma EndGone(w: World, f: nat, q: nat, writable: bool)
    requires Pipes(w) && f < |w.files| && q in w.pipes && w.files[f].typ == Pipe(q, writable)
    ensures Pipes(PipeClosed(SetFile(w, f, Fl(0, Nothing)), q, writable))
  {
    hide EndsOf;
    var y := Fl(0, Nothing);
    var w' := PipeClosed(SetFile(w, f, y), q, writable);
    assert PipeOk(w, q);
    forall r: nat ensures PipeOk(w', r) {
      assert PipeOk(w, r);
      EndCount(w.files, f, y, r, false);
      EndCount(w.files, f, y, r, true);
      assert r in w'.freed <==> r in w.freed || (q !in w'.pipes && r == q);
    }
  }

  // ---- closing ----

  /** What `fileclose` relies on: the page or the inode of a last reference is there. */
  predicate Closable(w: World, f: nat) {
    && f < |w.files|
    && (w.files[f].ref == 1 && w.files[f].typ.Pipe? ==> w.files[f].typ.q in w.pipes)
    && (w.files[f].ref == 1 && w.files[f].typ.Inode? ==> IRef(w, w.files[f].typ.x) > 0)
  }

  function Closed(w: World, f: nat): World
    requires Closable(w, f)
  {
    var fl := w.files[f];
    if fl.ref < 1 then w
    else if fl.ref > 1 then SetFile(w, f, fl.(ref := fl.ref - 1))
    else
      var z := SetFile(w, f, Fl(0, Nothing));
      match fl.typ
      case Pipe(q, writable) => PipeClosed(z, q, writable)
      case Inode(x) => z.(irefs := z.irefs[x := IRef(w, x) - 1])
      case _ => z
  }

  /** In every reachable state the page or inode that a close needs is there. */
  lemma CanClose(w: World, h: Hand, f: nat)
    requires Inv(w, h) && f < NFILE
    ensures Closable(w, f)
  {
    hide OfInode;
    hide EndsOf;
    if w.files[f].typ.Pipe? {
      EndCount(w.files, f, w.files[f], w.files[f].typ.q, w.files[f].typ.writable);
      assert PipeOk(w, w.files[f].typ.q);
    }
    if w.files[f].typ.Inode? {
      FileCount(w.files, f, w.files[f], w.files[f].typ.x);
      assert InodeOk(w, h, w.files[f].typ.x);
    }
  }

  /** Closing a reference in hand: the counts still say who holds what. */
  lemma ClosedCounts(w: World, h: Hand, f: nat)
    requires Counts(w, h) && f < NFILE && h.files[f] > 0 && Closable(w, f)
    ensures w.files[f].ref > 0
    ensures Counts(Closed(w, f), h.(files := h.files - multiset{f}))
  {
    hide Slots;
    hide Counts;
    hide PipeClosed;
    HandRef(w, h, f);
    var fl := w.files[f];
    var h' := h.(files := h.files - multiset{f});
    if fl.ref > 1 {
      FileCounts(w, h, f, fl.(ref := fl.ref - 1), h');
    } else {
      var z := SetFile(w, f, Fl(0, Nothing));
      var h1 := h'.(inodes := if fl.typ.Inode? then h.inodes + multiset{fl.typ.x} else h.inodes);
      FileCounts(w, h, f, Fl(0, Nothing), h1);
      if fl.typ.Inode? {
        assert Closed(w, f) == z.(irefs := z.irefs[fl.typ.x := IRef(w, fl.typ.x) - 1]);
        IrefCounts(z, h1, fl.typ.x, IRef(w, fl.typ.x) - 1, h');
      } else {
        ClosedSame(w, f);
        Apart(z, h', Closed(w, f));
      }
    }
  }

  lemma HandRef(w: World, h: Hand, f: nat)
    requires Counts(w, h) && f < NFILE
    ensures |w.files| == NFILE && w.files[f].ref >= h.files[f]
  {
    assert FileOk(w, h, f);
  }

  lemma ClosedSame(w: World, f: nat)
    requires Closable(w, f) && w.files[f].ref == 1 && !w.files[f].typ.Inode?
    ensures Closed(w, f).files == w.files[f := Fl(0, Nothing)]
    ensures Closed(w, f).procs == w.procs && Closed(w, f).irefs == w.irefs
  {
  }

  lemma ClosedPipes(w: World, f: nat)
    requires Pipes(w) && Closable(w, f)
    ensures Pipes(Closed(w, f))
  {
    hide Pipes;
    hide PipeClosed;
    var fl := w.files[f];
    if fl.ref > 1 {
      NoEnd(w, f, fl.(ref := fl.ref - 1));
    } else if fl.ref == 1 && fl.typ.Pipe? {
      EndGone(w, f, fl.typ.q, fl.typ.writable);
    } else if fl.ref == 1 {
      NoEnd(w, f, Fl(0, Nothing));
      Apart(SetFile(w, f, Fl(0, Nothing)), EMPTY, Closed(w, f));
    }
  }

  lemma ClosedInv(w: World, h: Hand, f: nat)
    requires Inv(w, h) && f < NFILE && h.files[f] > 0
    ensures Closable(w, f) && w.files[f].ref > 0
    ensures Inv(Closed(w, f), h.(files := h.files - multiset{f}))
    ensures Closed(w, f).procs == w.procs
  {
    hide Counts;
    hide Pipes;
    CanClose(w, h, f);
    ClosedCounts(w, h, f);
    ClosedPipes(w, f);
  }

  // ---- processes ----

  function Unused(): Proc { Proc(seq(NOFILE, i => None), None, false) }

  /** A clean process, new, gone or turned zombie, names nothing. */
  lemma CleanCounts(w: World, h: Hand, w': World, p: nat)
    requires Counts(w, h) && w'.files == w.files && w'.irefs == w.irefs
    requires forall r | r != p :: (r in w'.procs <==> r in w.procs) && (r in w.procs ==> w'.procs[r] == w.procs[r])
    requires p in w.procs ==> Clean(w.procs[p])
    requires p in w'.procs ==> Clean(w'.procs[p]) && |w'.procs[p].ofile| == NOFILE
    ensures Counts(w', h)
  {
    forall g: nat ensures FileOk(w', h, g) {
      assert FileOk(w, h, g);
      assert Slots(w'.procs, g) == Slots(w.procs, g);
    }
    forall x: nat ensures InodeOk(w', h, x) {
      assert InodeOk(w, h, x);
      assert Cwds(w'.procs, x) == Cwds(w.procs, x);
    }
    forall r: nat ensures ProcOk(w', r) { assert ProcOk(w, r); }
  }

  // ---- what the counts mean between calls ----

  /** Between calls the counts are a function of the tables that name things. */
  lemma CountsFollow(w: World, w': World, f: nat, x: nat)
    requires Inv(w, EMPTY) && Inv(w', EMPTY) && f < NFILE
    requires w'.procs == w.procs
    ensures w'.files[f].ref == w.files[f].ref == |Slots(w.procs, f)|
    ensures IRef(w, x) == |OfInode(w.files, x)| + |Cwds(w.procs, x)|
    ensures (forall g: nat | g < NFILE :: w.files[g].typ == w'.files[g].typ) ==> IRef(w', x) == IRef(w, x)
  {
    assert FileOk(w, EMPTY, f) && FileOk(w', EMPTY, f);
    assert InodeOk(w, EMPTY, x) && InodeOk(w', EMPTY, x);
    if forall g: nat | g < NFILE :: w.files[g].typ == w'.files[g].typ {
      assert OfInode(w'.files, x) == OfInode(w.files, x);
    }
  }

  ghost predicate Names(w: World, p: nat, i: nat, q: nat) {
    && p in w.procs && i < |w.procs[p].ofile| && w.procs[p].ofile[i].Some?
    && w.procs[p].ofile[i].value < |w.files| && w.files[w.procs[p].ofile[i].value].typ.Pipe?
       && w.files[w.procs[p].ofile[i].value].typ.q == q
  }

  lemma NamedEnd(w: World, p: nat, i: nat, q: nat)
    ensures Names(w, p, i, q) ==> |EndsOf(w.files, q, true)| + |EndsOf(w.files, q, false)| > 0
  {
    if Names(w, p, i, q) {
      var f := w.procs[p].ofile[i].value;
      assert f in EndsOf(w.files, q, w.files[f].typ.writable);
    }
  }

  /** Between calls the page of a pipe has been freed, once, exactly when no
      descriptor of any process names an end of it. */
  lemma PageFreed(w: World, q: nat)
    requires Inv(w, EMPTY) && q < w.made
    ensures q in w.freed <==> forall p: nat, i: nat :: !Names(w, p, i, q)
    ensures forall i: nat, j: nat | i < |w.freed| && j < |w.freed| && w.freed[i] == w.freed[j] == q :: i == j
  {
    assert PipeOk(w, q);
    if q in w.pipes {
      var b := w.pipes[q].writeopen;
      assert EndsOf(w.files, q, b) != {};
      var f: nat :| f in EndsOf(w.files, q, b);
      assert FileOk(w, EMPTY, f);
      assert Slots(w.procs, f) != {};
      var s :| s in Slots(w.procs, f);
      assert Names(w, s.0, s.1, q);
    } else {
      forall p: nat, i: nat ensures !Names(w, p, i, q) {
        NamedEnd(w, p, i, q);
      }
    }
  }

  /** What a path led to: the inode comes with a reference of its own. */
  datatype Target = ConsoleName | Missing | At(x: nat, kind: Kind)
  datatype Kind = Dir | File | Gpu | OtherDevice

  predicate FirstFree(o: seq<Option<nat>>, i: nat) {
    i < |o| && o[i] == None && forall j: nat | j < i :: o[j].Some?
  }

  predicate AllUsed(o: seq<Option<nat>>) { forall j: nat | j < |o| :: o[j].Some? }

  /** Two files are unused. */
  ghost predicate TwoUnused(w: World) {
    exists f: nat, g: nat {:trigger w.files[f], w.files[g]} ::
      f < g < |w.files| && w.files[f].ref == w.files[g].ref == 0
  }

  /** Two descriptors are free. */
  ghost predicate TwoFree(o: seq<Option<nat>>) {
    exists i: nat, j: nat {:trigger o[i], o[j]} :: i < j < |o| && o[i] == o[j] == None
  }

  predicate Alive(w: World, p: nat) { p in w.procs && !w.procs[p].zombie && |w.procs[p].ofile| == NOFILE }

  function HF(f: nat): Hand { Hand(multiset{f}, multiset{}) }

  function HX(x: nat): Hand { Hand(multiset{}, multiset{x}) }

  function New(w: World, f: nat): World
    requires f < |w.files|
  {
    SetFile(w, f, Fl(1, Nothing))
  }

  lemma NewInv(w: World, h: Hand, f: nat)
    requires Inv(w, h) && f < NFILE && w.files[f].ref == 0
    ensures Inv(New(w, f), h.(files := h.files + multiset{f}))
    ensures w.files[f] == Fl(0, Nothing)
  {
    hide Pipes;
    assert FileOk(w, h, f);
    FileCounts(w, h, f, Fl(1, Nothing), h.(files := h.files + multiset{f}));
    NoEnd(w, f, Fl(1, Nothing));
  }

  lemma DupInv(w: World, h: Hand, f: nat)
    requires Inv(w, h) && f < NFILE && w.files[f].ref > 0
    ensures Inv(SetFile(w, f, w.files[f].(ref := w.files[f].ref + 1)), h.(files := h.files + multiset{f}))
  {
    hide Pipes;
    var y := w.files[f].(ref := w.files[f].ref + 1);
    FileCounts(w, h, f, y, h.(files := h.files + multiset{f}));
    NoEnd(w, f, y);
  }

  /** A reference in hand goes into an empty descriptor. */
  lemma PutInv(w: World, h: Hand, p: nat, i: nat, f: nat)
    requires Inv(w, h) && Alive(w, p) && i < NOFILE && w.procs[p].ofile[i] == None && f < NFILE && h.files[f] > 0
    ensures Inv(w.(procs := WithSlot(w.procs, p, i, Some(f))), h.(files := h.files - multiset{f}))
  {
    hide Pipes;
    SlotCounts(w, h, p, i, Some(f), h.(files := h.files - multiset{f}));
    Apart(w, h, w.(procs := WithSlot(w.procs, p, i, Some(f))));
  }

  /** The reference in a descriptor comes into hand. */
  lemma TakeInv(w: World, h: Hand, p: nat, i: nat)
    requires Inv(w, h) && Alive(w, p) && i < NOFILE && w.procs[p].ofile[i].Some?
    ensures Inv(w.(procs := WithSlot(w.procs, p, i, None)), h.(files := h.files + multiset{w.procs[p].ofile[i].value}))
    ensures w.procs[p].ofile[i].value < NFILE && w.files[w.procs[p].ofile[i].value].ref > 0
  {
    hide Pipes;
    hide Slots;
    SlotCounts(w, h, p, i, None, h.(files := h.files + multiset{w.procs[p].ofile[i].value}));
    Apart(w, h, w.(procs := WithSlot(w.procs, p, i, None)));
    assert ProcOk(w, p) && FileOk(w, h, w.procs[p].ofile[i].value);
    SlotCount(w.procs, p, i, None, w.procs[p].ofile[i].value);
  }

  /** A descriptor cleared and its file closed, in either order. */
  lemma DropInv(w: World, p: nat, i: nat)
    requires Inv(w, EMPTY) && Alive(w, p) && i < NOFILE && w.procs[p].ofile[i].Some?
    ensures var f := w.procs[p].ofile[i].value;
            && Closable(w, f) && Closable(w.(procs := WithSlot(w.procs, p, i, None)), f)
            && Closed(w, f).procs == w.procs
            && Inv(Closed(w.(procs := WithSlot(w.procs, p, i, None)), f), EMPTY)
            && Closed(w.(procs := WithSlot(w.procs, p, i, None)), f) ==
                 Closed(w, f).(procs := WithSlot(w.procs, p, i, None))
  {
    hide Inv;
    var f := w.procs[p].ofile[i].value;
    TakeInv(w, EMPTY, p, i);
    var v := w.(procs := WithSlot(w.procs, p, i, None));
    CanClose(w, EMPTY, f);
    var h := EMPTY.(files := EMPTY.files + multiset{f});
    ClosedInv(v, h, f);
    assert h.(files := h.files - multiset{f}) == EMPTY;
    Commutes(w, v.procs, f);
  }

  lemma Commutes(w: World, procs: map<nat, Proc>, f: nat)
    requires Closable(w, f)
    ensures Closable(w.(procs := procs), f) && Closed(w.(procs := procs), f) == Closed(w, f).(procs := procs)
    ensures Closed(w, f).procs == w.procs
  {
  }

  class Kernel {
    var w: World

    constructor ()
      ensures Inv(w, EMPTY) && w.procs == map[] && w.made == 0
    {
      w := World(seq(NFILE, i => Fl(0, Nothing)), map[], map[], map[], 0, []);
      new;
      forall f: nat ensures FileOk(w, EMPTY, f) { assert Slots(w.procs, f) == {}; }
      forall x: nat ensures InodeOk(w, EMPTY, x) { assert OfInode(w.files, x) == {} && Cwds(w.procs, x) == {}; }
      forall q: nat ensures PipeOk(w, q) { assert EndsOf(w.files, q, true) == {} && EndsOf(w.files, q, false) == {}; }
    }

    // ---- the file table ----

    method FileAlloc() returns (r: Option<nat>)
      requires |w.files| == NFILE
      modifies this
      ensures r.None? ==> w == old(w) && forall f: nat | f < NFILE :: w.files[f].ref > 0
      ensures r.Some? ==> r.value < NFILE && old(w).files[r.value].ref == 0 && w == New(old(w), r.value)
      ensures r.Some? ==> forall f: nat | f < r.value :: old(w).files[f].ref > 0
    {
      var i := 0;
      while i < NFILE
        invariant i <= NFILE && w == old(w)
        invariant forall f: nat | f < i :: w.files[f].ref > 0
      {
        if w.files[i].ref == 0 {
          w := SetFile(w, i, Fl(1, Nothing));
          return Some(i);
        }
        i := i + 1;
      }
      r := None;
    }

    method FileDup(f: nat) returns (ok: bool)
      requires f < |w.files|
      modifies this
      ensures ok <==> old(w).files[f].ref >= 1
      ensures w == if ok then SetFile(old(w), f, old(w).files[f].(ref := old(w).files[f].ref + 1)) else old(w)
    {
      ok := w.files[f].ref >= 1;
      if ok {
        w := SetFile(w, f, w.files[f].(ref := w.files[f].ref + 1));
      }
    }

    method FileClose(f: nat)
      requires Closable(w, f)
      modifies this
      ensures w == Closed(old(w), f)
    {
      if w.files[f].ref < 1 { return; }
      var ff := w.files[f];
      w := SetFile(w, f, ff.(ref := ff.ref - 1));
      if ff.ref - 1 > 0 { return; }
      w := SetFile(w, f, Fl(0, Nothing));
      if ff.typ.Pipe? {
        PipeClose(ff.typ.q, ff.typ.writable);
        return;
      }
      if ff.typ.Inode? {
        Iput(ff.typ.x);
      }
    }

    method PipeClose(q: nat, writable: bool)
      requires q in w.pipes
      modifies this
      ensures w == PipeClosed(old(w), q, writable)
    {
      if writable {
        w := w.(pipes := w.pipes[q := w.pipes[q].(writeopen := false)]);
      } else {
        w := w.(pipes := w.pipes[q := w.pipes[q].(readopen := false)]);
      }
      if !w.pipes[q].readopen && !w.pipes[q].writeopen {
        w := w.(pipes := w.pipes - {q}, freed := w.freed + [q]);
        assert w.pipes == old(w).pipes - {q};
      }
    }

    // ---- references to inodes ----

    method Iget(x: nat)
      modifies this
      ensures w == old(w).(irefs := old(w).irefs[x := IRef(old(w), x) + 1])
      ensures forall h :: Inv(old(w), h) ==> Inv(w, h.(inodes := h.inodes + multiset{x}))
    {
      w := w.(irefs := w.irefs[x := IRef(w, x) + 1]);
      forall h | Inv(old(w), h) ensures Inv(w, h.(inodes := h.inodes + multiset{x})) { IgetInv(old(w), h, x); }
    }

    method Iput(x: nat)
      requires IRef(w, x) > 0
      modifies this
      ensures w == old(w).(irefs := old(w).irefs[x := IRef(old(w), x) - 1])
    {
      w := w.(irefs := w.irefs[x := IRef(w, x) - 1]);
    }

    // ---- pipes and descriptors ----

    /** `page` says whether the allocator has a page for the pipe. */
    method PipeAlloc(page: bool) returns (r: Option<(nat, nat)>)
      requires Inv(w, EMPTY)
      modifies this
      ensures r.Some? <==> page && TwoUnused(old(w))
      ensures r.None? ==> w == old(w)
      ensures r.Some? ==>
        var (f0, f1) := r.value;
        && f0 < NFILE && f1 < NFILE && f0 != f1 && old(w).files[f0].ref == 0 && old(w).files[f1].ref == 0
        && w == PipeMade(New(New(old(w), f0), f1), f0, f1)
        && Inv(w, Hand(multiset{f0, f1}, multiset{}))
    {
      var r0 := FileAlloc();
      if r0.None? { return None; }
      var f0 := r0.value;
      NewInv(old(w), EMPTY, f0);
      assert EMPTY.(files := EMPTY.files + multiset{f0}) == HF(f0);
      var r1 := FileAlloc();
      if r1.None? {
        CanClose(w, HF(f0), f0);
        forall f: nat | f < NFILE && f != f0 ensures old(w).files[f].ref > 0 { assert w.files[f].ref > 0; }
        FileClose(f0);
        assert w.files == old(w).files;
        return None;
      }
      var f1 := r1.value;
      NewInv(New(old(w), f0), HF(f0), f1);
      var h := Hand(multiset{f0, f1}, multiset{});
      assert HF(f0).(files := HF(f0).files + multiset{f1}) == h;
      if !page {
        CanClose(w, h, f0);
        FileClose(f0);
        CloseInHand(New(New(old(w), f0), f1), h, f0, HF(f1));
        CanClose(w, HF(f1), f1);
        FileClose(f1);
        assert w.files == old(w).files;
        return None;
      }
      MadeInv(w, h, f0, f1);
      w := PipeMade(w, f0, f1);
      r := Some((f0, f1));
    }

    method FdAlloc(p: nat, f: nat) returns (fd: int)
      requires Alive(w, p)
      modifies this
      ensures fd == -1 ==> AllUsed(old(w).procs[p].ofile) && w == old(w)
      ensures fd != -1 ==>
                0 <= fd < NOFILE && FirstFree(old(w).procs[p].ofile, fd)
                && w == old(w).(procs := WithSlot(old(w).procs, p, fd, Some(f)))
    {
      var i := 0;
      while i < NOFILE
        invariant i <= NOFILE && w == old(w)
        invariant forall j: nat | j < i :: w.procs[p].ofile[j].Some?
      {
        if w.procs[p].ofile[i].None? {
          w := w.(procs := WithSlot(w.procs, p, i, Some(f)));
          return i;
        }
        i := i + 1;
      }
      fd := -1;
    }

    // ---- system calls ----

    method Close(p: nat, fd: int) returns (r: int)
      requires Inv(w, EMPTY) && Alive(w, p)
      modifies this
      ensures Inv(w, EMPTY)
      ensures r == (if 0 <= fd < NOFILE && old(w).procs[p].ofile[fd].Some? then 0 else -1)
      ensures r == -1 ==> w == old(w)
      ensures r == 0 ==> w.procs == WithSlot(old(w).procs, p, fd, None)
    {
      if fd < 0 || fd >= NOFILE { return -1; }
      var f := w.procs[p].ofile[fd];
      if f.None? { return -1; }
      DropInv(w, p, fd);
      w := w.(procs := WithSlot(w.procs, p, fd, None));
      FileClose(f.value);
      r := 0;
    }

    method Dup(p: nat, fd: int) returns (r: int)
      requires Inv(w, EMPTY) && Alive(w, p)
      modifies this
      ensures Inv(w, EMPTY)
      ensures r == -1 ==>
                w == old(w) && !(0 <= fd < NOFILE && old(w).procs[p].ofile[fd].Some? && !AllUsed(old(w).procs[p].ofile))
      ensures r != -1 ==> 0 <= fd < NOFILE && 0 <= r < NOFILE && FirstFree(old(w).procs[p].ofile, r)
      ensures r != -1 ==>
                old(w).procs[p].ofile[fd].Some? && w.procs == WithSlot(old(w).procs, p, r, old(w).procs[p].ofile[fd])
    {
      if fd < 0 || fd >= NOFILE { return -1; }
      var f := w.procs[p].ofile[fd];
      if f.None? { return -1; }
      TakeInv(w, EMPTY, p, fd);
      var i := 0;
      while i < NOFILE
        invariant i <= NOFILE && w == old(w)
        invariant forall j: nat | j < i :: w.procs[p].ofile[j].Some?
      {
        if w.procs[p].ofile[i].None? {
          CopyInv(w, p, i, f.value);
          var ok := FileDup(f.value);
          w := w.(procs := WithSlot(w.procs, p, i, if ok then f else None));
          if !ok { return -1; }
          return i;
        }
        i := i + 1;
      }
      r := -1;
    }

    /** As in the source, the old file of `newfd` is closed while the descriptor
        still names it, and the descriptor cleared after that. */
    method Dup2(p: nat, oldfd: int, newfd: int) returns (r: int)
      requires Inv(w, EMPTY) && Alive(w, p)
      modifies this
      ensures Inv(w, EMPTY)
      ensures var good := 0 <= oldfd < NOFILE && 0 <= newfd < NOFILE && old(w).procs[p].ofile[oldfd].Some?;
              && r == (if good then newfd else -1)
              && (!good || oldfd == newfd ==> w == old(w))
              && (good ==> w.procs == WithSlot(old(w).procs, p, newfd, old(w).procs[p].ofile[oldfd]))
    {
      if oldfd < 0 || oldfd >= NOFILE || newfd < 0 || newfd >= NOFILE { return -1; }
      var f := w.procs[p].ofile[oldfd];
      if f.None? { return -1; }
      if oldfd == newfd {
        SameSlot(w.procs, p, newfd);
        return newfd;
      }
      if w.procs[p].ofile[newfd].Some? {
        DropInv(w, p, newfd);
        FileClose(w.procs[p].ofile[newfd].value);
        w := w.(procs := WithSlot(w.procs, p, newfd, None));
      }
      TakeInv(w, EMPTY, p, oldfd);
      CopyInv(w, p, newfd, f.value);
      var ok := FileDup(f.value);
      w := w.(procs := WithSlot(w.procs, p, newfd, if ok then f else None));
      TwiceSlot(old(w).procs, p, newfd, f);
      r := newfd;
    }

    /** `page`: the allocator has a page; `copied`: the descriptors could be copied out. */
    method PipeCall(p: nat, page: bool, copied: bool) returns (r: int, fd0: int, fd1: int)
      requires Inv(w, EMPTY) && Alive(w, p)
      modifies this
      ensures Inv(w, EMPTY)
      ensures r == (if page && TwoUnused(old(w)) && TwoFree(old(w).procs[p].ofile) && copied then 0 else -1)
      ensures r == -1 ==>
                w == if page && TwoUnused(old(w)) then
                  old(w).(made := old(w).made + 1, freed := old(w).freed + [old(w).made]) else old(w)
      ensures r == 0 ==>
        && w.made == old(w).made + 1 && w.freed == old(w).freed
        && 0 <= fd0 < fd1 < NOFILE && FirstFree(old(w).procs[p].ofile, fd0)
        && Names(w, p, fd0, old(w).made) && Names(w, p, fd1, old(w).made)
        && w.files[w.procs[p].ofile[fd0].value].typ == Pipe(old(w).made, false)
        && w.files[w.procs[p].ofile[fd1].value].typ == Pipe(old(w).made, true)
        && w.procs == WithSlot(WithSlot(old(w).procs, p, fd0, w.procs[p].ofile[fd0]), p, fd1, w.procs[p].ofile[fd1])
    {
      fd0, fd1 := 0, 0;
      var both := PipeAlloc(page);
      if both.None? { return -1, 0, 0; }
      var rf, wf := both.value.0, both.value.1;
      ghost var h := Hand(multiset{rf, wf}, multiset{});
      ghost var start := w;
      fd0 := FdAlloc(p, rf);
      if fd0 < 0 {
        BothGone(old(w), start, rf, wf);
        FileClose(rf);
        FileClose(wf);
        return -1, 0, 0;
      }
      PutInv(start, h, p, fd0, rf);
      fd1 := FdAlloc(p, wf);
      if fd1 < 0 {
        OneFree(old(w).procs[p].ofile, fd0, rf);
        w := w.(procs := WithSlot(w.procs, p, fd0, None));
        Cleared(old(w), p, fd0, rf);
        assert w == start;
        BothGone(old(w), start, rf, wf);
        FileClose(rf);
        FileClose(wf);
        return -1, 0, 0;
      }
      if !copied {
        w := w.(procs := WithSlot(w.procs, p, fd0, None));
        w := w.(procs := WithSlot(w.procs, p, fd1, None));
        ClearedBoth(old(w), p, fd0, rf, fd1, wf);
        assert w == start;
        BothGone(old(w), start, rf, wf);
        FileClose(rf);
        FileClose(wf);
        return -1, 0, 0;
      }
      BothPut(start, p, fd0, fd1, rf, wf);
      r := 0;
    }

    /** `writing` is whether the open mode asks for writing. */
    method Open(p: nat, to: Target, writing: bool) returns (r: int)
      requires Inv(w, EMPTY) && Alive(w, p)
      modifies this
      ensures Inv(w, EMPTY) && w.pipes == old(w).pipes && w.made == old(w).made && w.freed == old(w).freed
      ensures r == -1 ==>
                w.procs == old(w).procs && w.files == old(w).files && forall x: nat :: IRef(w, x) == IRef(old(w), x)
      ensures r != -1 ==>
        && 0 <= r < NOFILE && FirstFree(old(w).procs[p].ofile, r)
        && (to.ConsoleName? || (to.At? && (to.kind.File? || to.kind.Gpu? || (to.kind.Dir? && !writing))))
        && exists f: nat :: f < NFILE && old(w).files[f].ref == 0 && w.procs == WithSlot(old(w).procs, p, r, Some(f))
             && w.files == old(w).files[f := Fl(1, if to.ConsoleName? || to.kind.Gpu? then Device else Inode(to.x))]
      ensures r == -1 ==>
                to.Missing? || (to.At? && (to.kind.OtherDevice? || (to.kind.Dir? && writing)))
                || AllUsed(old(w).procs[p].ofile)
                || forall f: nat | f < NFILE :: old(w).files[f].ref > 0
    {
      hide Inv;
      Room(w, EMPTY);
      var f0 := FileAlloc();
      if f0.None? { return -1; }
      var f := f0.value;
      NewInv(old(w), EMPTY, f);
      assert EMPTY.(files := EMPTY.files + multiset{f}) == HF(f);
      var fd := FdAlloc(p, f);
      if fd < 0 {
        BackOut(old(w), w, f);
        FileClose(f);
        return -1;
      }
      PutInv(New(old(w), f), HF(f), p, fd, f);
      assert HF(f).(files := HF(f).files - multiset{f}) == EMPTY;
      ghost var start := w;
      if to.ConsoleName? {
        TypeInv(w, EMPTY, f, Device, EMPTY);
        w := SetFile(w, f, w.files[f].(typ := Device));
        return fd;
      }
      if to.Missing? {
        OpenFails(old(w), w, p, fd, f);
        w := w.(procs := WithSlot(w.procs, p, fd, None));
        FileClose(f);
        return -1;
      }
      Iget(to.x);
      assert EMPTY.(inodes := EMPTY.inodes + multiset{to.x}) == HX(to.x);
      if (to.kind.Dir? && writing) || to.kind.OtherDevice? {
        IputInv(w, HX(to.x), to.x, EMPTY);
        Iput(to.x);
        OpenFails(old(w), w, p, fd, f);
        w := w.(procs := WithSlot(w.procs, p, fd, None));
        FileClose(f);
        return -1;
      }
      if to.kind.Gpu? {
        TypeInv(w, HX(to.x), f, Device, HX(to.x));
        w := SetFile(w, f, w.files[f].(typ := Device));
        IputInv(w, HX(to.x), to.x, EMPTY);
        Iput(to.x);
        return fd;
      }
      TypeInv(w, HX(to.x), f, Inode(to.x), EMPTY);
      w := SetFile(w, f, w.files[f].(typ := Inode(to.x)));
      r := fd;
    }

    /** `to` is the inode the path led to, if any, and whether it is a directory. */
    method Chdir(p: nat, to: Option<(nat, bool)>) returns (r: int)
      requires Inv(w, EMPTY) && Alive(w, p)
      modifies this
      ensures Inv(w, EMPTY) && w.files == old(w).files
      ensures r == (if to.Some? && to.value.1 then 0 else -1)
      ensures w.procs == if r == 0 then WithCwd(old(w).procs, p, Some(to.value.0)) else old(w).procs
    {
      hide Inv;
      if to.None? { return -1; }
      var x := to.value.0;
      Iget(x);
      assert EMPTY.(inodes := EMPTY.inodes + multiset{x}) == HX(x);
      if !to.value.1 {
        IputInv(w, HX(x), x, EMPTY);
        Iput(x);
        return -1;
      }
      var was := w.procs[p].cwd;
      CwdMove(w, p, x);
      w := w.(procs := WithCwd(w.procs, p, Some(x)));
      if was.Some? {
        Iput(was.value);
      }
      r := 0;
    }

    /** One turn of the loop of `fork`. */
    method CopyFd(p: nat, np: nat, fd: nat)
      requires Inv(w, EMPTY) && Alive(w, p) && Alive(w, np) && fd < NOFILE && w.procs[np].ofile[fd] == None
      modifies this
      ensures Inv(w, EMPTY) && w.pipes == old(w).pipes && w.made == old(w).made && w.freed == old(w).freed
      ensures w.procs == WithSlot(old(w).procs, np, fd, old(w).procs[p].ofile[fd])
    {
      hide Inv;
      SameSlot(w.procs, np, fd);
      if w.procs[p].ofile[fd].Some? {
        var f := w.procs[p].ofile[fd].value;
        TakeInv(w, EMPTY, p, fd);
        CopyInv(w, np, fd, f);
        Room(w, EMPTY);
        var ok := FileDup(f);
        w := w.(procs := WithSlot(w.procs, np, fd, if ok then Some(f) else None));
      }
    }

    /** `slot` is the process slot that was free, if any; `copied` whether the memory
        could be copied.  The child has the files and the directory of its parent. */
    method Fork(p: nat, slot: Option<nat>, copied: bool) returns (r: int)
      requires Inv(w, EMPTY) && Alive(w, p) && (slot.Some? ==> slot.value !in w.procs)
      modifies this
      ensures Inv(w, EMPTY)
      ensures r == (if slot.Some? && copied then 0 else -1)
      ensures r == -1 ==> w == old(w)
      ensures r == 0 ==>
                w.procs == old(w).procs[slot.value := old(w).procs[p]] && w.pipes == old(w).pipes
                && w.made == old(w).made && w.freed == old(w).freed
    {
      hide Inv;
      if slot.None? { return -1; }
      var np := slot.value;
      CleanInv(w, w.(procs := w.procs[np := Unused()]), np);
      w := w.(procs := w.procs[np := Unused()]);
      if !copied {
        w := w.(procs := w.procs - {np});
        assert w.procs == old(w).procs;
        return -1;
      }
      var fd := 0;
      ghost var procs := old(w).procs;
      while fd < NOFILE
        invariant fd <= NOFILE && Inv(w, EMPTY) && np != p
        invariant w.procs.Keys == procs.Keys + {np} && forall r | r in procs :: w.procs[r] == procs[r]
        invariant Alive(w, np) && w.procs[np].cwd == None
        invariant w.procs[np].ofile[..fd] == procs[p].ofile[..fd]
                  && forall i: nat | fd <= i < NOFILE :: w.procs[np].ofile[i] == None
        invariant w.pipes == old(w).pipes && w.made == old(w).made && w.freed == old(w).freed
      {
        CopyFd(p, np, fd);
        fd := fd + 1;
      }
      if w.procs[p].cwd.Some? {
        var x := w.procs[p].cwd.value;
        CwdDupInv(w, np, x);
        w := w.(irefs := w.irefs[x := IRef(w, x) + 1]);
        w := w.(procs := WithCwd(w.procs, np, Some(x)));
      }
      assert w.procs[np].ofile == procs[p].ofile;
      r := 0;
    }

    /** The part of `proc_exit` before the process is a zombie: every file closed,
        the working directory put back. */
    method Exit(p: nat)
      requires Inv(w, EMPTY) && Alive(w, p)
      modifies this
      ensures Inv(w, EMPTY)
      ensures w.procs.Keys == old(w).procs.Keys && w.procs[p].zombie && Clean(w.procs[p])
      ensures forall r | r in w.procs && r != p :: w.procs[r] == old(w).procs[r]
    {
      hide Inv;
      var fd := 0;
      ghost var procs := w.procs;
      while fd < NOFILE
        invariant fd <= NOFILE && Inv(w, EMPTY) && Alive(w, p)
        invariant w.procs.Keys == procs.Keys && forall r | r in procs && r != p :: w.procs[r] == procs[r]
        invariant forall i: nat | i < fd :: w.procs[p].ofile[i] == None
      {
        var f := w.procs[p].ofile[fd];
        if f.Some? {
          DropInv(w, p, fd);
          w := w.(procs := WithSlot(w.procs, p, fd, None));
          FileClose(f.value);
        }
        fd := fd + 1;
      }
      if w.procs[p].cwd.Some? {
        var x := w.procs[p].cwd.value;
        CwdDropInv(w, p, x);
        Iput(x);
        w := w.(procs := WithCwd(w.procs, p, None));
      }
      ghost var v := w;
      w := w.(procs := w.procs[p := w.procs[p].(zombie := true)]);
      CleanInv(v, w, p);
    }

    /** `wait` frees the slot of a zombie; `freeproc` need not close anything. */
    method Reap(p: nat)
      requires Inv(w, EMPTY) && p in w.procs && w.procs[p].zombie
      modifies this
      ensures Inv(w, EMPTY) && w == old(w).(procs := old(w).procs - {p})
    {
      assert ProcOk(w, p);
      CleanInv(w, w.(procs := w.procs - {p}), p);
      w := w.(procs := w.procs - {p});
    }
  }

  lemma OneFree(o: seq<Option<nat>>, i: nat, f: nat)
    requires i < |o| && AllUsed(o[i := Some(f)])
    ensures !TwoFree(o)
  {
    forall j: nat | j < |o| && j != i ensures o[j].Some? { assert o[i := Some(f)][j].Some?; }
  }

  lemma BackOut(w: World, v: World, f: nat)
    requires Inv(w, EMPTY) && f < NFILE && w.files[f].ref == 0 && v == New(w, f)
    ensures Closable(v, f) && Closed(v, f) == w
  {
    hide PipeOk;
    NewInv(w, EMPTY, f);
    assert v.files[f := w.files[f]] == w.files;
  }

  /** An open that fails after its descriptor was set gives the file back. */
  lemma OpenFails(w: World, v: World, p: nat, fd: nat, f: nat)
    requires Inv(w, EMPTY) && Inv(v, EMPTY) && f < NFILE && w.files[f].ref == 0 && Alive(w, p) && fd < NOFILE
             && w.procs[p].ofile[fd] == None
    requires v.files == New(w, f).files && v.procs == WithSlot(w.procs, p, fd, Some(f))
    ensures var z := v.(procs := WithSlot(v.procs, p, fd, None));
            && Closable(z, f) && Closed(z, f) == z.(files := w.files) && z.procs == w.procs
            && Inv(Closed(z, f), EMPTY)
  {
    var z := v.(procs := WithSlot(v.procs, p, fd, None));
    assert v.files[f] == Fl(1, Nothing);
    Cleared(w, p, fd, f);
    NewInv(w, EMPTY, f);
    assert v.files[f := w.files[f]] == w.files;
    DropInv(v, p, fd);
  }

  /** A file of no type yet takes the type it was opened for. */
  lemma TypeInv(w: World, h: Hand, f: nat, typ: FType, h': Hand)
    requires Inv(w, h) && f < NFILE && w.files[f] == Fl(1, Nothing)
    requires (typ == Device && h' == h) || (typ.Inode? && h == HX(typ.x) && h' == EMPTY)
    ensures Inv(SetFile(w, f, w.files[f].(typ := typ)), h')
  {
    hide Pipes;
    hide Counts;
    HandRef(w, h, f);
    FileCounts(w, h, f, w.files[f].(typ := typ), h');
    NoEnd(w, f, w.files[f].(typ := typ));
  }

  /** A working directory set or cleared, its inodes moving from and to the hand. */
  lemma CwdInv(w: World, h: Hand, p: nat, v: Option<nat>, h': Hand)
    requires Inv(w, h) && Alive(w, p) && h'.files == h.files
    requires forall x: nat :: h'.inodes[x] + B(v == Some(x)) == h.inodes[x] + B(w.procs[p].cwd == Some(x))
    ensures Inv(w.(procs := WithCwd(w.procs, p, v)), h')
  {
    hide Pipes;
    hide Counts;
    CwdCounts(w, h, p, v, h');
    Apart(w, h, w.(procs := WithCwd(w.procs, p, v)));
  }

  lemma CwdDupInv(w: World, p: nat, x: nat)
    requires Inv(w, EMPTY) && Alive(w, p) && w.procs[p].cwd == None
    ensures Inv(w.(irefs := w.irefs[x := IRef(w, x) + 1], procs := WithCwd(w.procs, p, Some(x))), EMPTY)
  {
    hide Inv;
    IgetInv(w, EMPTY, x);
    assert EMPTY.(inodes := EMPTY.inodes + multiset{x}) == HX(x);
    CwdInv(w.(irefs := w.irefs[x := IRef(w, x) + 1]), HX(x), p, Some(x), EMPTY);
  }

  /** A new working directory, and the old one put. */
  lemma CwdMove(w: World, p: nat, x: nat)
    requires Inv(w, HX(x)) && Alive(w, p)
    ensures var v := w.(procs := WithCwd(w.procs, p, Some(x)));
            if w.procs[p].cwd.Some? then
              var y := w.procs[p].cwd.value;
              IRef(w, y) > 0 && Inv(v.(irefs := v.irefs[y := IRef(v, y) - 1]), EMPTY)
            else Inv(v, EMPTY)
  {
    hide Inv;
    var v := w.(procs := WithCwd(w.procs, p, Some(x)));
    if w.procs[p].cwd.Some? {
      var y := w.procs[p].cwd.value;
      CwdInv(w, HX(x), p, Some(x), HX(y));
      IputInv(v, HX(y), y, EMPTY);
    } else {
      CwdInv(w, HX(x), p, Some(x), EMPTY);
    }
  }

  lemma CwdDropInv(w: World, p: nat, x: nat)
    requires Inv(w, EMPTY) && Alive(w, p) && w.procs[p].cwd == Some(x)
    ensures IRef(w, x) > 0
    ensures Inv(w.(irefs := w.irefs[x := IRef(w, x) - 1], procs := WithCwd(w.procs, p, None)), EMPTY)
  {
    hide Inv;
    CwdInv(w, EMPTY, p, None, HX(x));
    IputInv(w.(procs := WithCwd(w.procs, p, None)), HX(x), x, EMPTY);
  }

  lemma CleanInv(w: World, w': World, p: nat)
    requires Inv(w, EMPTY) && w' == w.(procs := w'.procs)
    requires forall r | r != p :: (r in w'.procs <==> r in w.procs) && (r in w.procs ==> w'.procs[r] == w.procs[r])
    requires p in w.procs ==> Clean(w.procs[p])
    requires p in w'.procs ==> Clean(w'.procs[p]) && |w'.procs[p].ofile| == NOFILE
    ensures Inv(w', EMPTY)
  {
    hide Counts;
    hide Pipes;
    CleanCounts(w, EMPTY, w', p);
    Apart(w, EMPTY, w');
  }

  lemma Cleared(w: World, p: nat, i: nat, f: nat)
    requires p in w.procs && i < |w.procs[p].ofile| && w.procs[p].ofile[i] == None
    ensures WithSlot(WithSlot(w.procs, p, i, Some(f)), p, i, None) == w.procs
  {
    assert w.procs[p].ofile[i := Some(f)][i := None] == w.procs[p].ofile;
  }

  lemma ClearedBoth(w: World, p: nat, i: nat, f: nat, j: nat, g: nat)
    requires p in w.procs && i < |w.procs[p].ofile| && w.procs[p].ofile[i] == None
    requires i != j && j < |w.procs[p].ofile| && w.procs[p].ofile[j] == None
    ensures WithSlot(WithSlot(WithSlot(WithSlot(w.procs, p, i, Some(f)), p, j, Some(g)), p, i, None), p, j, None) ==
              w.procs
  {
    assert w.procs[p].ofile[i := Some(f)][j := Some(g)][i := None][j := None] == w.procs[p].ofile;
  }

  lemma BothPut(w: World, p: nat, i: nat, j: nat, f: nat, g: nat)
    requires Inv(w, Hand(multiset{f, g}, multiset{})) && Alive(w, p) && i < NOFILE && j < NOFILE && i != j && f < NFILE
             && g < NFILE
    requires w.procs[p].ofile[i] == None && w.procs[p].ofile[j] == None
    ensures Inv(w.(procs := WithSlot(WithSlot(w.procs, p, i, Some(f)), p, j, Some(g))), EMPTY)
  {
    hide Inv;
    var h := Hand(multiset{f, g}, multiset{});
    PutInv(w, h, p, i, f);
    assert h.(files := h.files - multiset{f}) == HF(g);
    PutInv(w.(procs := WithSlot(w.procs, p, i, Some(f))), HF(g), p, j, g);
    assert HF(g).(files := HF(g).files - multiset{g}) == EMPTY;
  }

  /** Closing both ends of a pipe just made frees its page and leaves the tables as they were. */
  lemma BothGone(w: World, v: World, f0: nat, f1: nat)
    requires Inv(w, EMPTY) && f0 < NFILE && f1 < NFILE && f0 != f1 && w.files[f0].ref == 0 && w.files[f1].ref == 0
    requires v == PipeMade(New(New(w, f0), f1), f0, f1) && Inv(v, Hand(multiset{f0, f1}, multiset{}))
    ensures Closable(v, f0) && Closable(Closed(v, f0), f1)
    ensures Closed(Closed(v, f0), f1) == w.(made := w.made + 1, freed := w.freed + [w.made])
    ensures Inv(Closed(Closed(v, f0), f1), EMPTY)
  {
    GoneInv(v, f0, f1);
    GoneIs(w, v, f0, f1);
  }

  lemma GoneInv(v: World, f0: nat, f1: nat)
    requires f0 < NFILE && f1 < NFILE && f0 != f1
    requires Inv(v, Hand(multiset{f0, f1}, multiset{}))
    ensures Closable(v, f0) && Closable(Closed(v, f0), f1)
    ensures Inv(Closed(Closed(v, f0), f1), EMPTY)
  {
    hide Inv;
    var h := Hand(multiset{f0, f1}, multiset{});
    assert h.(files := h.files - multiset{f0}) == HF(f1);
    CloseInHand(v, h, f0, HF(f1));
    assert HF(f1).(files := HF(f1).files - multiset{f1}) == EMPTY;
    CloseInHand(Closed(v, f0), HF(f1), f1, EMPTY);
  }

  lemma GoneIs(w: World, v: World, f0: nat, f1: nat)
    requires Inv(w, EMPTY) && f0 < NFILE && f1 < NFILE && f0 != f1 && w.files[f0].ref == 0 && w.files[f1].ref == 0
    requires v == PipeMade(New(New(w, f0), f1), f0, f1) && Closable(v, f0) && Closable(Closed(v, f0), f1)
    ensures Closed(Closed(v, f0), f1) == w.(made := w.made + 1, freed := w.freed + [w.made])
  {
    hide PipeOk;
    NewSlots(w, f0, f1);
    var u := Closed(v, f0);
    assert u.files == v.files[f0 := Fl(0, Nothing)] && u.pipes == v.pipes[w.made := Ends(false, true)];
    var z := Closed(u, f1);
    assert z.files == w.files;
    assert z.pipes == w.pipes;
  }

  lemma NewSlots(w: World, f0: nat, f1: nat)
    requires Inv(w, EMPTY) && f0 < NFILE && f1 < NFILE && w.files[f0].ref == 0 && w.files[f1].ref == 0
    ensures w.files[f0] == w.files[f1] == Fl(0, Nothing) && w.made !in w.pipes
  {
    assert FileOk(w, EMPTY, f0) && FileOk(w, EMPTY, f1) && PipeOk(w, w.made);
  }

  /** Another descriptor for a file in use. */
  lemma CopyInv(w: World, p: nat, i: nat, f: nat)
    requires Inv(w, EMPTY) && Alive(w, p) && i < NOFILE && w.procs[p].ofile[i] == None && f < NFILE
             && w.files[f].ref > 0
    ensures Inv(SetFile(w, f, w.files[f].(ref := w.files[f].ref + 1)).(procs := WithSlot(w.procs, p, i, Some(f))),
                EMPTY)
  {
    var v := SetFile(w, f, w.files[f].(ref := w.files[f].ref + 1));
    hide Inv;
    DupInv(w, EMPTY, f);
    var h := EMPTY.(files := EMPTY.files + multiset{f});
    PutInv(v, h, p, i, f);
    assert h.(files := h.files - multiset{f}) == EMPTY;
  }

  lemma SameSlot(procs: map<nat, Proc>, p: nat, i: nat)
    requires p in procs && i < |procs[p].ofile|
    ensures WithSlot(procs, p, i, procs[p].ofile[i]) == procs
  {
    assert procs[p].ofile[i := procs[p].ofile[i]] == procs[p].ofile;
  }

  lemma TwiceSlot(procs: map<nat, Proc>, p: nat, i: nat, v: Option<nat>)
    requires p in procs && i < |procs[p].ofile|
    ensures WithSlot(WithSlot(procs, p, i, None), p, i, v) == WithSlot(procs, p, i, v)
  {
    assert procs[p].ofile[i := None][i := v] == procs[p].ofile[i := v];
  }

  lemma Room(w: World, h: Hand)
    requires Inv(w, h)
    ensures |w.files| == NFILE
  {
  }

  lemma IgetInv(w: World, h: Hand, x: nat)
    requires Inv(w, h)
    ensures Inv(w.(irefs := w.irefs[x := IRef(w, x) + 1]), h.(inodes := h.inodes + multiset{x}))
  {
    hide Pipes;
    hide Counts;
    IrefCounts(w, h, x, IRef(w, x) + 1, h.(inodes := h.inodes + multiset{x}));
    Apart(w, h, w.(irefs := w.irefs[x := IRef(w, x) + 1]));
  }

  /** An inode reference in hand is counted, and can be put. */
  lemma IputInv(w: World, h: Hand, x: nat, h': Hand)
    requires Inv(w, h) && h.inodes[x] > 0 && h' == h.(inodes := h.inodes - multiset{x})
    ensures IRef(w, x) > 0
    ensures Inv(w.(irefs := w.irefs[x := IRef(w, x) - 1]), h')
  {
    hide Pipes;
    hide OfInode;
    hide Cwds;
    assert InodeOk(w, h, x);
    IrefCounts(w, h, x, IRef(w, x) - 1, h');
    Apart(w, h, w.(irefs := w.irefs[x := IRef(w, x) - 1]));
  }

  lemma CloseInHand(w: World, h: Hand, f: nat, h': Hand)
    requires Inv(w, h) && f < NFILE && h.files[f] > 0 && h' == h.(files := h.files - multiset{f})
    ensures Closable(w, f) && w.files[f].ref > 0 && Inv(Closed(w, f), h') && Closed(w, f).procs == w.procs
  {
    hide Inv;
    ClosedInv(w, h, f);
  }

  lemma MadeInv(w: World, h: Hand, f0: nat, f1: nat)
    requires Inv(w, h) && f0 < NFILE && f1 < NFILE && f0 != f1
    requires w.files[f0] == w.files[f1] == Fl(1, Nothing)
    ensures Inv(PipeMade(w, f0, f1), h)
  {
    hide Pipes;
    hide Counts;
    HandRef(w, h, f0);
    MadeOk(w, f0, f1);
    var w1 := SetFile(w, f0, w.files[f0].(typ := Pipe(w.made, false)));
    var w2 := SetFile(w1, f1, w1.files[f1].(typ := Pipe(w.made, true)));
    FileCounts(w, h, f0, w1.files[f0], h);
    FileCounts(w1, h, f1, w2.files[f1], h);
    Apart(w2, h, PipeMade(w, f0, f1));
  }
}
