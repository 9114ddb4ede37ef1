/** User memory over the page tables: the page-granting loops of
    `kernel/core/vm.c`, and copyin/copyout. */
module UserMemory {
  import opened Common
  import opened Sv39
  import opened PageState
  import opened PageSteps
  import opened PageCount
  import opened PageTable

  /** One page of user memory as the process sees it. */
  datatype UPage = UPage(perm: Perm, bytes: seq<byte>)

  ghost predicate OtherSpaces(s: St, t: St, root: nat) {
    && s.spaces.Keys == t.spaces.Keys
    && (forall r | r in s.spaces && r != root :: t.spaces[r] == s.spaces[r])
  }

  ghost predicate Backs(t: St, root: nat, v: Vpn, u: UPage)
    requires root in t.spaces
  {
    && v in t.spaces[root].leaves && t.spaces[root].leaves[v].Pte? && t.spaces[root].leaves[v].perm == u.perm
    && PageIs(t.mem, t.owner, t.spaces[root].leaves[v].ppn, Bytes(u.bytes), User(root, v))
  }

  ghost predicate GainedAt(s: St, t: St, root: nat, g: set<Vpn>, p: nat)
    requires p in s.owner
  {
    && p in t.owner
    && (s.owner[p] == Free ==>
         t.owner[p] == Free || TableOf(t.owner[p], root)
         || (t.owner[p].User? && t.owner[p].root == root && t.owner[p].vpn in g))
    && (s.owner[p] != Free ==> t.owner[p] == s.owner[p])
    && (s.owner[p] != Free && !TableOf(s.owner[p], root) ==> p in s.mem && p in t.mem && Same(t.mem[p], s.mem[p]))
  }

  ghost predicate GainedLeaves(s: St, t: St, root: nat, g: map<Vpn, UPage>) {
    && root in s.spaces && root in t.spaces && OtherSpaces(s, t, root)
    && s.spaces[root].leaves.Keys !! g.Keys
    && t.spaces[root].leaves.Keys == s.spaces[root].leaves.Keys + g.Keys
    && (forall v | v in s.spaces[root].leaves :: t.spaces[root].leaves[v] == s.spaces[root].leaves[v])
  }

  ghost predicate GainedPages(s: St, t: St, root: nat, g: set<Vpn>) {
    && t.owner.Keys == s.owner.Keys
    && (forall p {:trigger t.owner[p]} | p in s.owner :: GainedAt(s, t, root, g, p))
  }

  /** Between `s` and `t` space `root` gained the user pages `g`, backed by pages
      that were free; nothing else that anyone owned changed. */
  ghost predicate Gained(s: St, t: St, root: nat, g: map<Vpn, UPage>) {
    && GainedLeaves(s, t, root, g)
    && GainedPages(s, t, root, g.Keys)
    && (forall v {:trigger Backs(t, root, v, g[v])} | v in g :: Backs(t, root, v, g[v]))
  }

  lemma GainedRefl(s: St, root: nat)
    requires Good(s) && root in s.spaces
    ensures Gained(s, s, root, map[])
  {
    forall p | p in s.owner ensures GainedAt(s, s, root, {}, p) { }
  }

  lemma PagesTrans(s: St, t: St, u: St, root: nat, g: set<Vpn>, h: set<Vpn>)
    requires GainedPages(s, t, root, g) && GainedPages(t, u, root, h)
    ensures GainedPages(s, u, root, g + h)
  {
    forall p | p in s.owner ensures GainedAt(s, u, root, g + h, p) {
      assert GainedAt(s, t, root, g, p) && GainedAt(t, u, root, h, p);
    }
  }

  lemma BacksKept(t: St, u: St, root: nat, g: set<Vpn>, v: Vpn, x: UPage)
    requires root in t.spaces && root in u.spaces && Backs(t, root, v, x)
    requires v in u.spaces[root].leaves && u.spaces[root].leaves[v] == t.spaces[root].leaves[v]
    requires GainedAt(t, u, root, g, t.spaces[root].leaves[v].ppn)
    ensures Backs(u, root, v, x)
  {
  }

  lemma LeavesTrans(s: St, t: St, u: St, root: nat, g: map<Vpn, UPage>, h: map<Vpn, UPage>)
    requires GainedLeaves(s, t, root, g) && GainedLeaves(t, u, root, h)
    ensures GainedLeaves(s, u, root, g + h)
  {
    assert (g + h).Keys == g.Keys + h.Keys;
  }

  lemma GainedTrans(s: St, t: St, u: St, root: nat, g: map<Vpn, UPage>, h: map<Vpn, UPage>)
    requires Gained(s, t, root, g) && Gained(t, u, root, h)
    ensures Gained(s, u, root, g + h)
  {
    hide GainedAt;
    hide OtherSpaces;
    assert (g + h).Keys == g.Keys + h.Keys;
    PagesTrans(s, t, u, root, g.Keys, h.Keys);
    LeavesTrans(s, t, u, root, g, h);
    forall v | v in g + h ensures Backs(u, root, v, (g + h)[v]) {
      if v in h {
        assert Backs(u, root, v, h[v]);
      } else {
        assert Backs(t, root, v, g[v]);
        assert u.owner[t.spaces[root].leaves[v].ppn] == u.owner[t.spaces[root].leaves[v].ppn];
        BacksKept(t, u, root, h.Keys, v, g[v]);
      }
    }
  }

  lemma PagesUndone(s: St, t: St, u: St, root: nat, g: set<Vpn>, gone: set<Vpn>)
    requires GainedPages(s, t, root, g) && Unmapped(t, u, root, gone, Free) && g <= gone
    requires forall p {:trigger OwnerOk(s, p)} | p in s.owner :: OwnerOk(s, p)
    requires root in s.spaces && s.spaces[root].leaves.Keys !! gone
    ensures GainedPages(s, u, root, {})
  {
    forall p | p in s.owner ensures GainedAt(s, u, root, {}, p) {
      assert GainedAt(s, t, root, g, p) && UnmappedAt(t, u, root, gone, Free, p);
      assert OwnerOk(s, p);
    }
  }

  /** Unmapping and freeing what was gained leaves only extra table pages. */
  lemma GainedUndone(s: St, t: St, u: St, root: nat, g: map<Vpn, UPage>, gone: set<Vpn>)
    requires Gained(s, t, root, g) && Unmapped(t, u, root, gone, Free)
    requires g.Keys <= gone && s.spaces[root].leaves.Keys !! gone
    requires Good(s)
    ensures Gained(s, u, root, map[])
  {
    hide GainedAt;
    hide UnmappedAt;
    PagesUndone(s, t, u, root, g.Keys, gone);
    var none: map<Vpn, UPage> := map[];
    assert none.Keys == {};
  }

  // ---- one fresh page ----

  /** kalloc took page p, and it was filled. */
  ghost predicate Fresh(s: St, f: St, p: nat, bytes: seq<byte>) {
    && s.free != [] && p == s.freelist && p in s.mem && s.mem[p].Run? && p in s.owner && s.owner[p] == Free
    && s.mem.Keys == s.owner.Keys && f == Taken(s).(mem := Taken(s).mem[p := Bytes(bytes)])
  }

  lemma FreshIs(s: St, p: nat, bytes: seq<byte>)
    requires Good(s) && s.free != [] && p == s.freelist && p in s.mem && s.mem[p].Run? && |bytes| == PGSIZE
    ensures var f := Taken(s).(mem := Taken(s).mem[p := Bytes(bytes)]);
            Fresh(s, f, p, bytes) && Good(f) && HeldFrame(f, p) && f.spaces == s.spaces && |s.free| == |f.free| + 1
  {
    TakenGood(s);
    FillGood(Taken(s), p, bytes);
  }

  /** kalloc, fill, and a one-page mappages that succeeded. */
  lemma FreshMapped(s: St, f: St, t: St, root: nat, va: nat, p: nat, perm: Perm, bytes: seq<byte>)
    requires Fresh(s, f, p, bytes)
    requires root in s.spaces && VpnOf(va) !in s.spaces[root].leaves && va < TRAPFRAME && IsUser(VpnOf(va))
    requires Mapped(f, t, root, va, 1, p, perm)
    ensures Gained(s, t, root, map[VpnOf(va) := UPage(perm, bytes)])
  {
    hide VpnOf;
    hide MapRange;
    var v := VpnOf(va);
    OneMapped(f.spaces[root].leaves, va, p, perm);
    assert MappedAt(f, t, root, va, 1, p, p);
    FreshPages(s, f, t, root, va, p, bytes);
    hide GainedAt;
    var g := map[v := UPage(perm, bytes)];
    assert g.Keys == {v};
    assert t.spaces[root].leaves == s.spaces[root].leaves[v := Pte(p, perm)];
    assert OtherSpaces(s, t, root);
    assert Backs(t, root, v, g[v]);
  }

  lemma OneMapped(leaves: map<Vpn, Pte>, va: nat, p: nat, perm: Perm)
    ensures MapRange(leaves, va, 1, p, perm) == leaves[VpnOf(va) := Pte(p, perm)]
  {
    hide VpnOf;
    assert MapRange(leaves, va, 1, p, perm) == MapRange(leaves, va, 0, p, perm)[VpnOf(va + 0 * PGSIZE) := Pte(p, perm)];
    assert va + 0 * PGSIZE == va;
  }

  lemma FreshPages(s: St, f: St, t: St, root: nat, va: nat, p: nat, bytes: seq<byte>)
    requires Fresh(s, f, p, bytes) && va < TRAPFRAME
    requires MappedPages(f, t, root, va, 1, p)
    ensures GainedPages(s, t, root, {VpnOf(va)})
  {
    hide VpnOf;
    assert va + 0 * PGSIZE == va;
    forall q | q in s.owner ensures GainedAt(s, t, root, {VpnOf(va)}, q) {
      assert MappedAt(f, t, root, va, 1, p, q);
    }
  }

  /** The same when mappages found no page for a table: kfree undoes it. */
  lemma FreshUnmapped(s: St, f: St, t: St, u: St, root: nat, va: nat, p: nat, perm: Perm, bytes: seq<byte>)
    requires Good(s) && Fresh(s, f, p, bytes)
    requires root in s.spaces && Mapped(f, t, root, va, 0, p, perm) && p in t.owner && u == Freed(t, p)
    ensures Gained(s, u, root, map[])
  {
    forall q | q in s.owner ensures GainedAt(s, u, root, {}, q) {
      assert MappedAt(f, t, root, va, 0, p, q);
    }
  }

  /** The loop body uvmalloc, uvmcopy and uvmmaprange share: a fresh page with
      the given contents is entered for va, or nothing but tables is taken. It is
      refused exactly when there are too few free pages for the frame and the
      tables that are missing. */
  method MapFresh(m: Machine, root: nat, va: nat, perm: Perm, bytes: seq<byte>) returns (ok: bool)
    requires m.Valid() && root in m.st.spaces && va % PGSIZE == 0 && va + PGSIZE <= TRAPFRAME && |bytes| == PGSIZE
    requires VpnOf(va) !in m.st.spaces[root].leaves
    modifies m
    ensures m.Valid()
    ensures Gained(old(m.st), m.st, root, if ok then map[VpnOf(va) := UPage(perm, bytes)] else map[])
    ensures ok <==> |old(m.st).free| >= 1 + Lack(old(m.st), root, {VpnOf(va)})
    ensures Spent(old(m.st), m.st, root, {VpnOf(va)}, if ok then 1 else 0)
            && (ok ==> HasTables(m.st, root, {VpnOf(va)}))
  {
    hide VpnOf;
    hide Gained;
    hide Mapped;
    hide Spent;
    hide Lack;
    hide HasTables;
    hide Fresh;
    hide Good;
    hide FreeOk;
    hide Range;
    hide Taken;
    hide Freed;
    hide HeldFrame;
    ghost var s := m.st;
    GoodFree(s);
    PathNamesPage(va);
    GainedRefl(s, root);
    SpentRefl(s, root, {VpnOf(va)});
    var p := m.Kalloc();
    if p == 0 {
      return false;
    }
    FreshIs(s, p, bytes);
    m.mem := m.mem[p := Bytes(bytes)];
    m.st := m.st.(mem := m.st.mem[p := Bytes(bytes)]);
    ghost var f := m.st;
    FreshRoom(f, root, va, p);
    ghost var done;
    ok, done := m.MapPages(root, va, PGSIZE, p, perm);
    ghost var t := m.st;
    FreshSpent(s, f, t, root, VpnOf(va), ok);
    if ok {
      FreshMapped(s, f, t, root, va, p, perm, bytes);
    } else {
      assert done == 0;
      FreshBack(s, f, t, root, va, p, perm, bytes);
      m.Kfree(p);
    }
  }

  lemma FreshRoom(f: St, root: nat, va: nat, p: nat)
    requires root in f.spaces && VpnOf(va) !in f.spaces[root].leaves && HeldFrame(f, p)
    ensures Range(va, PGSIZE / PGSIZE) == {VpnOf(va)} && Range(va, PGSIZE / PGSIZE) !! f.spaces[root].leaves.Keys
    ensures forall q | p <= q < p + PGSIZE / PGSIZE :: HeldFrame(f, q)
  {
    hide VpnOf;
    OnePage(va);
  }

  /** kfree of the frame. */
  lemma FreshBack(s: St, f: St, t: St, root: nat, va: nat, p: nat, perm: Perm, bytes: seq<byte>)
    requires Good(s) && Good(t) && Fresh(s, f, p, bytes) && root in s.spaces && Mapped(f, t, root, va, 0, p, perm)
             && HeldFrame(f, p)
    requires Spent(s, t, root, {VpnOf(va)}, 1)
    ensures FreeOk(t) && p in t.owner && t.owner[p] == Held
    ensures Good(Freed(t, p)) && Gained(s, Freed(t, p), root, map[]) && Spent(s, Freed(t, p), root, {VpnOf(va)}, 0)
  {
    hide VpnOf;
    hide Spent;
    HeldStays(f, t, root, va, p, perm);
    FreedGood(t, p);
    FreshUnmapped(s, f, t, Freed(t, p), root, va, p, perm, bytes);
    SpentSame(s, t, Freed(t, p), root, {VpnOf(va)}, 1, 0);
  }

  /** kalloc took one page, mappages the tables. */
  lemma FreshSpent(s: St, f: St, t: St, root: nat, v: Vpn, ok: bool)
    requires f.spaces == s.spaces && |s.free| == |f.free| + 1 && Spent(f, t, root, {v}, 0)
    requires (ok <==> HasTables(t, root, {v})) && (ok || t.free == [])
    ensures Spent(s, t, root, {v}, 1) && (ok <==> |s.free| >= 1 + Lack(s, root, {v}))
  {
    assert Spent(s, t, root, {v}, 1);
    hide Spent;
    if ok { SpentAll(s, t, root, {v}, 1); } else { SpentShort(s, t, root, {v}, 1); }
  }

  lemma OnePage(va: nat)
    ensures Range(va, PGSIZE / PGSIZE) == {VpnOf(va)}
  {
    hide VpnOf;
    assert va + 0 * PGSIZE == va;
  }

  lemma HeldStays(f: St, t: St, root: nat, va: nat, p: nat, perm: Perm)
    requires Mapped(f, t, root, va, 0, p, perm) && p in f.owner && f.owner[p] == Held
    ensures p in t.owner && t.owner[p] == Held
  {
    assert MappedAt(f, t, root, va, 0, p, p);
  }

  // ---- growing and shrinking ----

  /** The pages a process has between sizes lo and hi. */
  ghost function Span(lo: nat, hi: nat): set<Vpn> {
    if PgRoundUp(lo) < PgRoundUp(hi) then Range(PgRoundUp(lo), (PgRoundUp(hi) - PgRoundUp(lo)) / PGSIZE) else {}
  }

  ghost function Zeroed(pages: set<Vpn>, perm: Perm): map<Vpn, UPage> {
    map v | v in pages :: UPage(perm, Junk(0))
  }

  /** A page of zeros. */
  predicate AllZero(b: seq<byte>) { |b| == PGSIZE && forall k: nat | k < PGSIZE :: b[k] == 0 }

  /** Page v of the space is mapped with this permission, and holds zeros. */
  ghost predicate ZeroPage(s: St, root: nat, v: Vpn, perm: Perm) {
    && root in s.spaces && v in s.spaces[root].leaves
    && var e := s.spaces[root].leaves[v];
       e.Pte? && e.perm == perm && e.ppn in s.mem && s.mem[e.ppn].Bytes? && AllZero(s.mem[e.ppn].bytes)
  }

  lemma GainedZeros(s: St, t: St, root: nat, pages: set<Vpn>, perm: Perm)
    requires Gained(s, t, root, Zeroed(pages, perm))
    ensures forall v | v in pages :: ZeroPage(t, root, v, perm)
  {
    hide GainedPages;
    forall v | v in pages ensures ZeroPage(t, root, v, perm) { assert Backs(t, root, v, Zeroed(pages, perm)[v]); }
  }

  lemma ZeroedStep(va: nat, n: nat, perm: Perm)
    requires va % PGSIZE == 0 && va + (n + 1) * PGSIZE <= MAXVA
    ensures Zeroed(Range(va, n), perm) + map[VpnOf(va + n * PGSIZE) := UPage(perm, Junk(0))] ==
              Zeroed(Range(va, n + 1), perm)
    ensures VpnOf(va + n * PGSIZE) !in Range(va, n) && VpnOf(va + n * PGSIZE) in Range(va, n + 1)
  {
    hide VpnOf;
    RangeStep(va, n);
  }

  lemma RoundUpFacts(sz: nat)
    ensures PgRoundUp(sz) % PGSIZE == 0 && sz <= PgRoundUp(sz) < sz + PGSIZE
  {
  }

  method UvmDealloc(m: Machine, root: nat, oldsz: nat, newsz: nat) returns (r: nat)
    requires m.Valid() && root in m.st.spaces && oldsz <= TRAPFRAME
    modifies m
    ensures m.Valid() && Unmapped(old(m.st), m.st, root, Span(newsz, oldsz), Free)
    ensures r == if newsz < oldsz then newsz else oldsz
  {
    hide VpnOf;
    UnmappedRefl(m.st, root, Free);
    RoundUpFacts(newsz);
    RoundUpFacts(oldsz);
    if newsz >= oldsz {
      return oldsz;
    }
    if PgRoundUp(newsz) < PgRoundUp(oldsz) {
      var npages := (PgRoundUp(oldsz) - PgRoundUp(newsz)) / PGSIZE;
      m.UvmUnmap(root, PgRoundUp(newsz), npages, true);
    }
    return newsz;
  }

  lemma AllocRoom(s: St, t: St, root: nat, oldsz: nat, newsz: nat, n: nat, perm: Perm, a: nat)
    requires Gained(s, t, root, Zeroed(Range(PgRoundUp(oldsz), n), perm))
             && Span(oldsz, newsz) !! s.spaces[root].leaves.Keys
    requires a == PgRoundUp(oldsz) + n * PGSIZE && a < newsz <= TRAPFRAME
    ensures root in t.spaces && VpnOf(a) !in t.spaces[root].leaves && a + PGSIZE <= TRAPFRAME && a % PGSIZE == 0
  {
    hide VpnOf;
    hide PgRoundUp;
    hide Span;
    hide GainedPages;
    hide Backs;
    PageRoom(oldsz, n, a);
    ZeroedStep(PgRoundUp(oldsz), n, perm);
    ZeroedKeys(Range(PgRoundUp(oldsz), n), perm);
    SpanHas(oldsz, newsz, n);
  }

  lemma PageRoom(oldsz: nat, n: nat, a: nat)
    requires a == PgRoundUp(oldsz) + n * PGSIZE && a < TRAPFRAME
    ensures PgRoundUp(oldsz) % PGSIZE == 0 && a % PGSIZE == 0 && a + PGSIZE <= TRAPFRAME
    ensures PgRoundUp(oldsz) + (n + 1) * PGSIZE <= MAXVA
  {
    RoundUpFacts(oldsz);
  }

  lemma AllocStep(s: St, t: St, u: St, root: nat, va: nat, n: nat, perm: Perm, a: nat, ok: bool)
    requires Gained(s, t, root, Zeroed(Range(va, n), perm)) && va % PGSIZE == 0 && va + (n + 1) * PGSIZE <= MAXVA
    requires a == va + n * PGSIZE
    requires Gained(t, u, root, if ok then map[VpnOf(a) := UPage(perm, Junk(0))] else map[])
    ensures Gained(s, u, root, Zeroed(Range(va, if ok then n + 1 else n), perm))
  {
    hide VpnOf;
    hide Gained;
    hide Range;
    hide Zeroed;
    ZeroedStep(va, n, perm);
    var g := Zeroed(Range(va, n), perm);
    assert g + map[] == g;
    GainedTrans(s, t, u, root, g, if ok then map[VpnOf(a) := UPage(perm, Junk(0))] else map[]);
  }

  /** uvmalloc's error exits: what was mapped so far is freed again. */
  method AllocFailed(m: Machine, ghost s: St, root: nat, oldsz: nat, newsz: nat, a: nat, ghost n: nat, ghost perm: Perm)
    requires Good(s) && m.Valid() && Gained(s, m.st, root, Zeroed(Range(PgRoundUp(oldsz), n), perm))
    requires Span(oldsz, newsz) !! s.spaces[root].leaves.Keys
    requires a == PgRoundUp(oldsz) + n * PGSIZE && a < newsz <= TRAPFRAME
    modifies m
    ensures m.Valid() && Gained(s, m.st, root, map[])
  {
    hide VpnOf;
    hide Range;
    hide Zeroed;
    hide Good;
    ghost var u := m.st;
    RoundUpFacts(oldsz);
    var _ := UvmDealloc(m, root, a, oldsz);
    SpanIs(oldsz, a, n);
    SpanSub(oldsz, newsz, n);
    ZeroedKeys(Range(PgRoundUp(oldsz), n), perm);
    GainedUndone(s, u, m.st, root, Zeroed(Range(PgRoundUp(oldsz), n), perm), Range(PgRoundUp(oldsz), n));
  }

  /** The pages and the missing tables for memory from oldsz to newsz. */
  ghost function GrowNeed(s: St, root: nat, oldsz: nat, newsz: nat): nat
    requires root in s.spaces
  {
    |Span(oldsz, newsz)| + Lack(s, root, Span(oldsz, newsz))
  }

  lemma {:induction false} RangeSize(va: nat, n: nat)
    requires va % PGSIZE == 0 && va + n * PGSIZE <= MAXVA
    ensures |Range(va, n)| == n
  {
    hide VpnOf;
    NoRange(va);
    if n > 0 {
      RangeSize(va, n - 1);
      RangeStep(va, n - 1);
    }
  }

  /** One page more, or too few pages for all of them. */
  lemma AllocSpent(s: St, t: St, u: St, root: nat, oldsz: nat, newsz: nat, n: nat, a: nat, ok: bool)
    requires a == PgRoundUp(oldsz) + n * PGSIZE && a < newsz <= TRAPFRAME
    requires Spent(s, t, root, Range(PgRoundUp(oldsz), n), n) && HasTables(t, root, Range(PgRoundUp(oldsz), n))
    requires Spent(t, u, root, {VpnOf(a)}, if ok then 1 else 0)
    requires if ok then HasTables(u, root, {VpnOf(a)}) else |t.free| < 1 + Lack(t, root, {VpnOf(a)})
    ensures ok ==>
              Spent(s, u, root, Range(PgRoundUp(oldsz), n + 1), n + 1)
              && HasTables(u, root, Range(PgRoundUp(oldsz), n + 1))
    ensures !ok ==> |s.free| < GrowNeed(s, root, oldsz, newsz)
  {
    hide VpnOf;
    hide Spent;
    hide Lack;
    hide HasTables;
    hide Range;
    RoundUpFacts(oldsz);
    RoundUpFacts(newsz);
    var va := PgRoundUp(oldsz);
    RangeStep(va, n);
    SpentTrans(s, t, u, root, Range(va, n), {VpnOf(a)}, n, if ok then 1 else 0);
    if !ok {
      var npages := (PgRoundUp(newsz) - va) / PGSIZE;
      SpanHas(oldsz, newsz, n);
      SpanSub(oldsz, newsz, n);
      RangeSize(va, npages);
      SpanIs(oldsz, newsz, npages);
      SpentFails(s, t, root, Range(va, n), n, VpnOf(a), Span(oldsz, newsz));
    }
  }

  /** uvmalloc: zeroed pages up to newsz, or the leaf map as it was when there are
      too few free pages. */
  method UvmAlloc(m: Machine, root: nat, oldsz: nat, newsz: nat, xperm: Perm) returns (r: nat)
    requires m.Valid() && root in m.st.spaces && newsz <= TRAPFRAME
    requires Span(oldsz, newsz) !! m.st.spaces[root].leaves.Keys
    modifies m
    ensures m.Valid()
    ensures newsz < oldsz ==> r == oldsz && m.st == old(m.st)
    ensures newsz >= oldsz ==> r == if |old(m.st).free| >= GrowNeed(old(m.st), root, oldsz, newsz) then newsz else 0
    ensures newsz >= oldsz && r == newsz > 0 ==>
              |m.st.free| == |old(m.st).free| - GrowNeed(old(m.st), root, oldsz, newsz)
    ensures newsz >= oldsz && r == newsz && newsz > 0 ==>
              Gained(old(m.st), m.st, root, Zeroed(Span(oldsz, newsz), Perm(true, xperm.w, xperm.x, true)))
    ensures newsz >= oldsz && r == newsz && newsz > 0 ==>
              forall v | v in Span(oldsz, newsz) :: ZeroPage(m.st, root, v, Perm(true, xperm.w, xperm.x, true))
    ensures newsz >= oldsz && r != newsz ==> Gained(old(m.st), m.st, root, map[])
  {
    hide VpnOf;
    hide Gained;
    hide Range;
    hide Zeroed;
    hide Spent;
    hide Lack;
    hide HasTables;
    hide Good;
    hide GrowNeed;
    hide Span;
    hide PgRoundUp;
    hide ZeroPage;
    if newsz < oldsz {
      return oldsz;
    }
    var perm := Perm(true, xperm.w, xperm.x, true);
    var a := PgRoundUp(oldsz);
    ghost var va, n := a, 0;
    ghost var s := m.st;
    GainedRefl(s, root);
    NoPages(va, perm);
    SpentNone(s, root, va);
    while a < newsz
      invariant a == va + n * PGSIZE && (a == va || a < newsz + PGSIZE)
      invariant m.Valid() && Gained(s, m.st, root, Zeroed(Range(va, n), perm))
      invariant Spent(s, m.st, root, Range(va, n), n) && HasTables(m.st, root, Range(va, n))
    {
      ghost var t := m.st;
      AllocRoom(s, t, root, oldsz, newsz, n, perm, a);
      var ok := MapFresh(m, root, a, perm, Junk(0));
      AllocStep(s, t, m.st, root, va, n, perm, a, ok);
      AllocSpent(s, t, m.st, root, oldsz, newsz, n, a, ok);
      if !ok {
        AllocFailed(m, s, root, oldsz, newsz, a, n, perm);
        return 0;
      }
      n := n + 1;
      a := a + PGSIZE;
    }
    Reached(oldsz, newsz, n);
    GrowSpent(s, m.st, root, oldsz, newsz, n);
    GainedZeros(s, m.st, root, Range(va, n), perm);
    return newsz;
  }

  lemma Reached(lo: nat, hi: nat, n: nat)
    requires lo <= hi <= TRAPFRAME && PgRoundUp(lo) + n * PGSIZE >= hi
    requires n == 0 || PgRoundUp(lo) + n * PGSIZE < hi + PGSIZE
    ensures Span(lo, hi) == Range(PgRoundUp(lo), n) && PgRoundUp(lo) + n * PGSIZE <= MAXVA
  {
    RoundUpFacts(lo);
    RoundUpFacts(hi);
    SpanIs(lo, hi, n);
  }

  lemma SpentNone(s: St, root: nat, va: nat)
    requires root in s.spaces
    ensures Spent(s, s, root, Range(va, 0), 0) && HasTables(s, root, Range(va, 0))
  {
    NoRange(va);
    SpentRefl(s, root, {});
  }

  lemma GrowSpent(s: St, t: St, root: nat, oldsz: nat, newsz: nat, n: nat)
    requires Spent(s, t, root, Range(PgRoundUp(oldsz), n), n) && HasTables(t, root, Range(PgRoundUp(oldsz), n))
    requires Span(oldsz, newsz) == Range(PgRoundUp(oldsz), n) && PgRoundUp(oldsz) + n * PGSIZE <= MAXVA
    ensures |s.free| == |t.free| + GrowNeed(s, root, oldsz, newsz)
  {
    RoundUpFacts(oldsz);
    RangeSize(PgRoundUp(oldsz), n);
    SpentAll(s, t, root, Range(PgRoundUp(oldsz), n), n);
  }

  lemma NoPages(va: nat, perm: Perm)
    ensures Zeroed(Range(va, 0), perm) == map[]
  {
  }

  lemma ZeroedKeys(pages: set<Vpn>, perm: Perm)
    ensures Zeroed(pages, perm).Keys == pages
  {
  }

  lemma SpanIs(lo: nat, hi: nat, n: nat)
    requires PgRoundUp(hi) == PgRoundUp(lo) + n * PGSIZE
    ensures Span(lo, hi) == Range(PgRoundUp(lo), n)
  {
    hide VpnOf;
    RoundUpFacts(lo);
    RoundUpFacts(hi);
  }

  lemma SpanHas(lo: nat, hi: nat, n: nat)
    requires PgRoundUp(lo) + n * PGSIZE < hi
    ensures VpnOf(PgRoundUp(lo) + n * PGSIZE) in Span(lo, hi)
  {
    hide VpnOf;
    RoundUpFacts(lo);
    RoundUpFacts(hi);
    assert n < (PgRoundUp(hi) - PgRoundUp(lo)) / PGSIZE;
  }

  lemma SpanSub(lo: nat, hi: nat, n: nat)
    requires PgRoundUp(lo) + n * PGSIZE < hi
    ensures Range(PgRoundUp(lo), n) <= Span(lo, hi)
  {
    hide VpnOf;
    RoundUpFacts(lo);
    RoundUpFacts(hi);
    assert n <= (PgRoundUp(hi) - PgRoundUp(lo)) / PGSIZE;
  }

  // ---- what a process sees ----

  /** The user pages of a space with their contents. */
  ghost function View(s: St, root: nat): map<Vpn, UPage>
    requires Good(s) && root in s.spaces
  {
    map v | v in s.spaces[root].leaves && IsUser(v) :: PageSeen(s, root, v)
  }

  ghost function PageSeen(s: St, root: nat, v: Vpn): (u: UPage)
    requires Good(s) && root in s.spaces && v in s.spaces[root].leaves && IsUser(v)
    ensures |u.bytes| == PGSIZE
  {
    UserBytes(s, root, v);
    UPage(s.spaces[root].leaves[v].perm, s.mem[s.spaces[root].leaves[v].ppn].bytes)
  }

  lemma UserBytes(s: St, root: nat, v: Vpn)
    requires Good(s) && root in s.spaces && v in s.spaces[root].leaves && IsUser(v)
    ensures var e := s.spaces[root].leaves[v];
            && e.Pte? && e.ppn in s.mem && e.ppn in s.owner && s.owner[e.ppn] == User(root, v)
            && s.mem[e.ppn].Bytes? && |s.mem[e.ppn].bytes| == PGSIZE
  {
    assert SpaceAt(s, root);
    assert LeafOk(s.owner, root, s.spaces[root], v);
    assert OwnerOk(s, s.spaces[root].leaves[v].ppn);
  }

  lemma SeenKept(s: St, t: St, root: nat, r: nat, g: map<Vpn, UPage>, v: Vpn)
    requires Good(s) && Good(t) && Gained(s, t, root, g)
    requires r in s.spaces && v in s.spaces[r].leaves && IsUser(v)
    ensures r in t.spaces && v in t.spaces[r].leaves && PageSeen(t, r, v) == PageSeen(s, r, v)
  {
    hide Good;
    hide IsUser;
    LeafKept(s, t, root, r, g, v);
    UserBytes(s, r, v);
    UserBytes(t, r, v);
    var p := s.spaces[r].leaves[v].ppn;
    assert t.owner[p] == t.owner[p];
    assert GainedAt(s, t, root, g.Keys, p);
  }

  lemma LeafKept(s: St, t: St, root: nat, r: nat, g: map<Vpn, UPage>, v: Vpn)
    requires GainedLeaves(s, t, root, g) && r in s.spaces && v in s.spaces[r].leaves
    ensures r in t.spaces && v in t.spaces[r].leaves && t.spaces[r].leaves[v] == s.spaces[r].leaves[v]
  {
  }

  /** Giving pages to one process adds exactly those pages to its memory, and no
      other process can tell. */
  lemma GainedView(s: St, t: St, root: nat, g: map<Vpn, UPage>, r: nat)
    requires Good(s) && Good(t) && Gained(s, t, root, g) && r in s.spaces
    requires forall v | v in g :: IsUser(v)
    ensures r in t.spaces && View(t, r) == if r == root then View(s, r) + g else View(s, r)
  {
    var w := if r == root then View(s, r) + g else View(s, r);
    forall v | v in View(t, r) ensures v in w && View(t, r)[v] == w[v] {
      if r == root && v in g {
        UserBytes(t, r, v);
        assert Backs(t, root, v, g[v]);
      } else {
        SeenKept(s, t, root, r, g, v);
      }
    }
    assert View(t, r).Keys == w.Keys;
  }

  // ---- copying a process's memory ----

  /** What the first n pages of a space hold. */
  ghost function Image(s: St, root: nat, n: nat): map<Vpn, UPage>
    requires Good(s) && root in s.spaces
  {
    map v | v in View(s, root) && v in Range(0, n) :: View(s, root)[v]
  }

  lemma ImageStep(s: St, root: nat, n: nat, v: Vpn)
    requires Good(s) && root in s.spaces && v == VpnOf(0 + n * PGSIZE) && (n + 1) * PGSIZE <= MAXVA
    ensures Image(s, root, n + 1) == if v in View(s, root) then Image(s, root, n) + map[v := View(s, root)[v]]
              else Image(s, root, n)
    ensures v !in Image(s, root, n)
  {
    hide VpnOf;
    hide View;
    RangeStep(0, n);
  }

  lemma ImageNone(s: St, root: nat)
    requires Good(s) && root in s.spaces
    ensures Image(s, root, 0) == map[]
  {
  }

  /** One page of uvmcopy is entered. */
  lemma CopyStep(s: St, t: St, u: St, parent: nat, child: nat, n: nat, v: Vpn, ok: bool)
    requires Good(s) && parent in s.spaces && v == VpnOf(0 + n * PGSIZE) && (n + 1) * PGSIZE <= MAXVA
             && v in View(s, parent)
    requires Gained(s, t, child, Image(s, parent, n))
    requires Gained(t, u, child, if ok then map[v := View(s, parent)[v]] else map[])
    ensures Gained(s, u, child, Image(s, parent, if ok then n + 1 else n))
  {
    hide VpnOf;
    hide View;
    hide Gained;
    hide Image;
    ImageStep(s, parent, n, v);
    var g := Image(s, parent, n);
    assert g + map[] == g;
    GainedTrans(s, t, u, child, g, if ok then map[v := View(s, parent)[v]] else map[]);
  }

  lemma CopyRoom(s: St, t: St, parent: nat, child: nat, n: nat, npages: nat, v: Vpn)
    requires Good(s) && Good(t) && parent in s.spaces && child in s.spaces && parent != child && n < npages
             && npages * PGSIZE <= TRAPFRAME
    requires v == VpnOf(0 + n * PGSIZE) && Gained(s, t, child, Image(s, parent, n))
    requires Range(0, npages) !! s.spaces[child].leaves.Keys
    ensures child in t.spaces && IsUser(v) && Canonical(v) && v !in t.spaces[child].leaves && parent in t.spaces
    ensures t.spaces[parent] == s.spaces[parent]
    ensures v in t.spaces[parent].leaves <==> v in View(s, parent)
    ensures v in t.spaces[parent].leaves ==> PageSeen(t, parent, v) == View(s, parent)[v]
  {
    PathNamesPage(n * PGSIZE);
    hide VpnOf;
    RangeStep(0, n);
    assert v in Range(0, npages);
    if v in s.spaces[parent].leaves {
      SeenKept(s, t, child, parent, Image(s, parent, n), v);
    }
  }

  /** The pages and missing tables for a copy of the pages g. */
  ghost function CopyNeed(s: St, child: nat, g: set<Vpn>): nat
    requires child in s.spaces
  {
    |g| + Lack(s, child, g)
  }

  /** The first n pages of the parent are copied. */
  ghost predicate CopySpent(s: St, t: St, parent: nat, child: nat, n: nat)
    requires Good(s) && parent in s.spaces
  {
    && Spent(s, t, child, Image(s, parent, n).Keys, |Image(s, parent, n)|)
    && HasTables(t, child, Image(s, parent, n).Keys)
  }

  lemma CopySpentNone(s: St, parent: nat, child: nat)
    requires Good(s) && parent in s.spaces && child in s.spaces
    ensures CopySpent(s, s, parent, child, 0)
  {
    ImageNone(s, parent);
    SpentRefl(s, child, {});
    var none: map<Vpn, UPage> := map[];
    assert none.Keys == {};
  }

  lemma ImageGrows(s: St, parent: nat, n: nat, npages: nat, v: Vpn)
    requires Good(s) && parent in s.spaces && v == VpnOf(0 + n * PGSIZE) && n < npages && npages * PGSIZE <= MAXVA
    ensures v !in Image(s, parent, n)
    ensures v !in View(s, parent) ==> Image(s, parent, n + 1) == Image(s, parent, n)
    ensures v in View(s, parent) ==> Image(s, parent, n + 1).Keys == Image(s, parent, n).Keys + {v}
    ensures v in View(s, parent) ==>
              |Image(s, parent, n + 1)| == |Image(s, parent, n)| + 1 && v in Image(s, parent, npages)
    ensures Image(s, parent, n).Keys <= Image(s, parent, npages).Keys
    ensures |Image(s, parent, n)| == |Image(s, parent, n).Keys|
            && |Image(s, parent, npages)| == |Image(s, parent, npages).Keys|
  {
    hide VpnOf;
    hide View;
    ImageStep(s, parent, n, v);
    InPages(n, npages);
    assert |Image(s, parent, n + 1)| == |Image(s, parent, n + 1).Keys|;
    ImageWithin(s, parent, n, npages);
    hide Image;
    hide Range;
    if v in View(s, parent) { KeysMore(Image(s, parent, n), v, View(s, parent)[v]); }
  }

  lemma InPages(n: nat, npages: nat)
    requires n < npages
    ensures VpnOf(0 + n * PGSIZE) in Range(0, npages)
  {
    hide VpnOf;
  }

  lemma ImageWithin(s: St, parent: nat, n: nat, npages: nat)
    requires Good(s) && parent in s.spaces && n <= npages
    ensures Image(s, parent, n).Keys <= Image(s, parent, npages).Keys
  {
    hide VpnOf;
    hide View;
    assert Range(0, n) <= Range(0, npages);
  }

  lemma KeysMore<K, V>(m: map<K, V>, k: K, x: V)
    requires k !in m
    ensures (m + map[k := x]).Keys == m.Keys + {k} && |m.Keys + {k}| == |m.Keys| + 1
  {
  }

  lemma CopySpentStep(s: St, t: St, u: St, parent: nat, child: nat, n: nat, npages: nat, v: Vpn, ok: bool)
    requires Good(s) && parent in s.spaces && v == VpnOf(0 + n * PGSIZE) && n < npages && npages * PGSIZE <= MAXVA
             && v in View(s, parent)
    requires CopySpent(s, t, parent, child, n) && Spent(t, u, child, {v}, if ok then 1 else 0)
    requires if ok then HasTables(u, child, {v}) else |t.free| < 1 + Lack(t, child, {v})
    ensures ok ==> CopySpent(s, u, parent, child, n + 1)
    ensures !ok ==> |s.free| < CopyNeed(s, child, Image(s, parent, npages).Keys)
  {
    hide VpnOf;
    hide View;
    hide Image;
    hide Spent;
    hide Lack;
    hide HasTables;
    ImageGrows(s, parent, n, npages, v);
    var g := Image(s, parent, n).Keys;
    if ok {
      SpentTrans(s, t, u, child, g, {v}, |g|, 1);
    } else {
      var all := Image(s, parent, npages).Keys;
      Fewer(g, v, all);
      SpentFails(s, t, child, g, |g|, v, all);
    }
  }

  lemma CopySpentHole(s: St, t: St, parent: nat, child: nat, n: nat, v: Vpn)
    requires Good(s) && parent in s.spaces && v == VpnOf(0 + n * PGSIZE) && (n + 1) * PGSIZE <= MAXVA
             && v !in View(s, parent)
    requires CopySpent(s, t, parent, child, n)
    ensures Image(s, parent, n + 1) == Image(s, parent, n) && CopySpent(s, t, parent, child, n + 1)
  {
    ImageStep(s, parent, n, v);
  }

  lemma Fewer<T>(a: set<T>, x: T, b: set<T>)
    requires a <= b && x in b && x !in a
    ensures |a| < |b|
  {
    assert b == a + (b - a) && x in b - a;
  }

  lemma CopySpentAll(s: St, t: St, parent: nat, child: nat, n: nat)
    requires Good(s) && parent in s.spaces && CopySpent(s, t, parent, child, n)
    ensures child in s.spaces && |s.free| == |t.free| + CopyNeed(s, child, Image(s, parent, n).Keys)
  {
    SpentAll(s, t, child, Image(s, parent, n).Keys, |Image(s, parent, n)|);
    assert |Image(s, parent, n)| == |Image(s, parent, n).Keys|;
  }

  /** Page n begins below sz if and only if it is one of the pages of sz. */
  lemma PagesOf(sz: nat, n: nat)
    requires sz <= TRAPFRAME
    ensures n * PGSIZE < sz <==> n < PgRoundUp(sz) / PGSIZE
    ensures PgRoundUp(sz) / PGSIZE * PGSIZE <= TRAPFRAME
  {
  }

  /** uvmcopy's error exit. */
  method CopyBack(m: Machine, ghost s: St, parent: nat, child: nat, sz: nat, ghost n: nat)
    requires Good(s) && m.Valid() && parent in s.spaces && child in s.spaces && sz <= TRAPFRAME
             && n <= PgRoundUp(sz) / PGSIZE
    requires Gained(s, m.st, child, Image(s, parent, n))
             && Range(0, PgRoundUp(sz) / PGSIZE) !! s.spaces[child].leaves.Keys
    modifies m
    ensures m.Valid() && Gained(s, m.st, child, map[])
  {
    hide VpnOf;
    hide Gained;
    hide Image;
    hide Range;
    hide Good;
    RoundUpFacts(sz);
    ghost var u := m.st;
    CopyFailed(s, u, parent, child, n, PgRoundUp(sz) / PGSIZE);
    m.UvmUnmap(child, 0, PgRoundUp(sz) / PGSIZE, true);
    GainedUndone(s, u, m.st, child, Image(s, parent, n), Range(0, PgRoundUp(sz) / PGSIZE));
  }

  /** One turn of uvmcopy's loop: page n of the parent is copied, if there is one. */
  method CopyTurn(m: Machine, ghost s: St, parent: nat, child: nat, sz: nat, i: nat, ghost n: nat) returns (ok: bool)
    requires Good(s) && m.Valid() && parent in s.spaces && child in s.spaces && parent != child
    requires i == n * PGSIZE && i < sz <= TRAPFRAME && Range(0, PgRoundUp(sz) / PGSIZE) !! s.spaces[child].leaves.Keys
    requires Gained(s, m.st, child, Image(s, parent, n)) && CopySpent(s, m.st, parent, child, n)
    modifies m
    ensures m.Valid()
    ensures ok ==> Gained(s, m.st, child, Image(s, parent, n + 1)) && CopySpent(s, m.st, parent, child, n + 1)
    ensures !ok ==> Gained(s, m.st, child, Image(s, parent, n))
    ensures !ok ==> |s.free| < CopyNeed(s, child, Image(s, parent, PgRoundUp(sz) / PGSIZE).Keys)
  {
    hide CopySpent;
    hide CopyNeed;
    hide Good;
    hide PgRoundUp;
    hide Spent;
    hide Lack;
    hide HasTables;
    hide VpnOf;
    hide Gained;
    hide Image;
    hide View;
    hide Range;
    hide PageSeen;
    hide IsUser;
    ghost var npages, t, v := PgRoundUp(sz) / PGSIZE, m.st, VpnOf(i);
    PagesOf(sz, n);
    CopyRoom(s, t, parent, child, n, npages, v);
    EntryLeaf(t, parent, v);
    var slot := m.Walk(parent, i, false);
    if slot.None? || m.mem[slot.value.page].ptes[slot.value.index].Zero? {
      CopySpentHole(s, t, parent, child, n, v);
      return true;
    }
    CopySource(t, parent, v);
    var pte := m.mem[slot.value.page].ptes[slot.value.index];
    ok := MapFresh(m, child, i, pte.perm, m.mem[pte.ppn].bytes);
    CopyStep(s, t, m.st, parent, child, n, v, ok);
    CopySpentStep(s, t, m.st, parent, child, n, npages, v, ok);
  }

  /** Every entry the space had leads where it led, the kernel's two among them. */
  ghost predicate LeavesStay(s: St, t: St, root: nat) {
    root in s.spaces && root in t.spaces
    && forall v | v in s.spaces[root].leaves ::
         v in t.spaces[root].leaves && t.spaces[root].leaves[v] == s.spaces[root].leaves[v]
  }

  lemma GainedStays(s: St, t: St, root: nat, g: map<Vpn, UPage>)
    requires Gained(s, t, root, g)
    ensures LeavesStay(s, t, root)
  {
    hide GainedPages;
  }

  /** uvmcopy: the child gains fresh pages equal to the parent's, or nothing when
      there are too few free pages. Holes and guard pages come out as they are. */
  method UvmCopy(m: Machine, parent: nat, child: nat, sz: nat) returns (ok: bool)
    requires m.Valid() && parent in m.st.spaces && child in m.st.spaces && parent != child && sz <= TRAPFRAME
    requires Range(0, PgRoundUp(sz) / PGSIZE) !! m.st.spaces[child].leaves.Keys
    modifies m
    ensures m.Valid()
    ensures Gained(old(m.st), m.st, child, if ok then Image(old(m.st), parent, PgRoundUp(sz) / PGSIZE) else map[])
    ensures ok <==>
              |old(m.st).free| >= CopyNeed(old(m.st), child, Image(old(m.st), parent, PgRoundUp(sz) / PGSIZE).Keys)
    ensures LeavesStay(old(m.st), m.st, child)
  {
    hide CopySpent;
    hide LeavesStay;
    hide CopyNeed;
    hide Good;
    hide PgRoundUp;
    hide Gained;
    hide Image;
    hide Range;
    ghost var s := m.st;
    var i := 0;
    ghost var n := 0;
    GainedRefl(s, child);
    ImageNone(s, parent);
    CopySpentNone(s, parent, child);
    PagesOf(sz, 0);
    while i < sz
      invariant i == n * PGSIZE && n <= PgRoundUp(sz) / PGSIZE && m.Valid()
      invariant Gained(s, m.st, child, Image(s, parent, n)) && CopySpent(s, m.st, parent, child, n)
    {
      var done := CopyTurn(m, s, parent, child, sz, i, n);
      PagesOf(sz, n);
      if !done {
        CopyBack(m, s, parent, child, sz, n);
        GainedStays(s, m.st, child, map[]);
        return false;
      }
      n := n + 1;
      i := i + PGSIZE;
    }
    PagesOf(sz, n);
    CopySpentAll(s, m.st, parent, child, n);
    GainedStays(s, m.st, child, Image(s, parent, n));
    return true;
  }

  lemma CopySource(t: St, root: nat, v: Vpn)
    requires Good(t) && root in t.spaces && v in t.spaces[root].leaves && IsUser(v)
    ensures var e := t.spaces[root].leaves[v];
            e.Pte? && e.ppn in t.mem && t.mem[e.ppn].Bytes? && |t.mem[e.ppn].bytes| == PGSIZE
            && PageSeen(t, root, v) == UPage(e.perm, t.mem[e.ppn].bytes)
  {
    UserBytes(t, root, v);
  }

  lemma CopyFailed(s: St, u: St, parent: nat, child: nat, n: nat, npages: nat)
    requires Good(s) && parent in s.spaces && n <= npages && Gained(s, u, child, Image(s, parent, n))
    ensures child in u.spaces && Image(s, parent, n).Keys <= Range(0, npages)
  {
    hide VpnOf;
    hide View;
  }
}
