/** The memory half of process life in `kernel/core/proc.c`: proc_pagetable,
    proc_freepagetable, growproc, and the page traffic of fork and freeproc. */
module ProcMemory {
  import opened Common
  import opened Sv39
  import opened PageState
  import opened PageSteps
  import opened PageCount
  import opened PageTable
  import opened UserMemory
  import opened Teardown

  const TRAMPOLINE_PERM: Perm := Perm(true, false, true, false)
  const TRAPFRAME_PERM: Perm := Perm(true, true, false, false)

  /** A process's table: below sz its own pages, above them the two special
      mappings and nothing else. */
  ghost predicate ProcSpace(s: St, root: nat, sz: nat) {
    && root in s.spaces && sz <= TRAPFRAME
    && s.spaces[root].leaves.Keys <= Range(0, PgRoundUp(sz) / PGSIZE) + {VpnOf(TRAPFRAME), VpnOf(TRAMPOLINE)}
  }

  /** The two special entries: TRAMPOLINE leads to the trampoline's page, which may
      be read and executed, TRAPFRAME to the trapframe, which may be read and
      written, both by the kernel only. */
  ghost predicate HasSpecial(leaves: map<Vpn, Pte>, trapframe: nat, trampoline: nat) {
    && VpnOf(TRAMPOLINE) in leaves && leaves[VpnOf(TRAMPOLINE)] == Pte(trampoline, Perm(true, false, true, false))
    && VpnOf(TRAPFRAME) in leaves && leaves[VpnOf(TRAPFRAME)] == Pte(trapframe, Perm(true, true, false, false))
  }

  /** The entries of the two special pages are as they were. */
  ghost predicate SameSpecial(old0: map<Vpn, Pte>, leaves: map<Vpn, Pte>) {
    forall v | v in SpecialSet() :: (v in leaves <==> v in old0) && (v in leaves ==> leaves[v] == old0[v])
  }

  lemma SpecialStays(old0: map<Vpn, Pte>, leaves: map<Vpn, Pte>, trapframe: nat, trampoline: nat)
    requires SameSpecial(old0, leaves) && HasSpecial(old0, trapframe, trampoline)
    ensures HasSpecial(leaves, trapframe, trampoline)
  {
    hide VpnOf;
    assert VpnOf(TRAMPOLINE) in SpecialSet() && VpnOf(TRAPFRAME) in SpecialSet();
  }

  /** The user's pages come and go below them. */
  lemma UsersLeave(s: St, t: St, root: nat, g: map<Vpn, UPage>)
    requires GainedLeaves(s, t, root, g) && forall v | v in g :: IsUser(v)
    ensures SameSpecial(s.spaces[root].leaves, t.spaces[root].leaves)
  {
    hide VpnOf;
    SpecialPages();
  }

  /** A page in the kernel's hands is left alone. */
  ghost predicate PageStays(s: St, t: St, p: nat) {
    p in s.owner && s.owner[p] == Held ==>
      p in t.owner && t.owner[p] == Held && p in s.mem && p in t.mem && Same(t.mem[p], s.mem[p])
  }

  lemma CreatedStays(s: St, t: St, root: nat, p: nat)
    requires Good(s) && Good(t) && Created(s, t, root)
    ensures PageStays(s, t, p)
  {
    if p in s.owner && s.owner[p] == Held {
      assert p in s.mem && p != root;
      assert p in t.mem && Same(t.mem[p], s.mem[p]);
    }
  }

  lemma MappedStays(s: St, t: St, root: nat, va: nat, n: nat, ppn: nat, perm: Perm, p: nat)
    requires Mapped(s, t, root, va, n, ppn, perm) && va >= TRAPFRAME
    ensures PageStays(s, t, p)
  {
    assert p in s.owner ==> MappedAt(s, t, root, va, n, ppn, p);
  }

  lemma GainedKeepsPage(s: St, t: St, root: nat, g: map<Vpn, UPage>, p: nat)
    requires Gained(s, t, root, g)
    ensures PageStays(s, t, p)
  {
    assert p in s.owner ==> GainedAt(s, t, root, g.Keys, p);
  }

  lemma PageStaysOn(s: St, t: St, u: St, p: nat)
    requires PageStays(s, t, p) && PageStays(t, u, p)
    ensures PageStays(s, u, p)
  {
  }

  lemma BothMapped(none: map<Vpn, Pte>, one: map<Vpn, Pte>, both: map<Vpn, Pte>, trapframe: nat, trampoline: nat)
    requires none == map[] && one == MapRange(none, TRAMPOLINE, 1, trampoline, TRAMPOLINE_PERM)
    requires both == MapRange(one, TRAPFRAME, 1, trapframe, TRAPFRAME_PERM)
    ensures HasSpecial(both, trapframe, trampoline) && both.Keys == SpecialSet()
  {
    hide VpnOf;
    SpecialPages();
    OneMapped(none, TRAMPOLINE, trampoline, TRAMPOLINE_PERM);
    OneMapped(one, TRAPFRAME, trapframe, TRAPFRAME_PERM);
  }

  // ---- a space under construction, seen from the state before it ----

  ghost predicate AddedAt(s: St, t: St, root: nat, tf: nat, p: nat)
    requires p in s.owner
  {
    && p in t.owner
    && (s.owner[p] != Free ==> t.owner[p] == s.owner[p] && p in s.mem && p in t.mem && Same(t.mem[p], s.mem[p]))
    && (s.owner[p] == Free && p != tf ==> t.owner[p] == Free || BelongsTo(t.owner[p], root))
    && (p == tf ==> s.owner[p] == Free && t.owner[p] == Held)
  }

  /** `t` is `s` with a new space `root` and, unless tf is 0, a held page tf. */
  ghost predicate Added(s: St, t: St, root: nat, tf: nat) {
    && root !in s.spaces && root in t.spaces && t.spaces - {root} == s.spaces
    && t.owner.Keys == s.owner.Keys
    && (forall p {:trigger t.owner[p]} | p in s.owner :: AddedAt(s, t, root, tf, p))
  }

  /** Every page is back with its owner, except that tf is held. */
  ghost predicate Restored(s: St, t: St, tf: nat) {
    && t.spaces == s.spaces && t.owner.Keys == s.owner.Keys
    && (forall p {:trigger t.owner[p]} | p in s.owner :: RestoredAt(s, t, tf, p))
  }

  ghost predicate RestoredAt(s: St, t: St, tf: nat, p: nat)
    requires p in s.owner
  {
    && p in t.owner
    && (p != tf ==> t.owner[p] == s.owner[p])
    && (p == tf ==> s.owner[p] == Free && t.owner[p] == Held)
    && (s.owner[p] != Free ==> p in s.mem && p in t.mem && Same(t.mem[p], s.mem[p]))
  }

  lemma RestoredRefl(s: St)
    requires Good(s)
    ensures Restored(s, s, 0)
  {
    forall p | p in s.owner ensures RestoredAt(s, s, 0, p) { }
  }

  /** A page taken for the trapframe. */
  lemma RestoredTaken(s: St, t: St, bytes: seq<byte>)
    requires Good(s) && Fresh(s, t, s.freelist, bytes)
    ensures Restored(s, t, s.freelist)
  {
    forall p | p in s.owner ensures RestoredAt(s, t, s.freelist, p) { }
  }

  lemma RestoredFreed(s: St, t: St, u: St, tf: nat)
    requires Restored(s, t, tf) && tf in t.owner && u == Freed(t, tf) && 0 !in s.owner
    ensures Restored(s, u, 0)
  {
    forall p | p in s.owner ensures RestoredAt(s, u, 0, p) {
      assert RestoredAt(s, t, tf, p);
    }
  }

  lemma AddedCreated(s: St, t: St, u: St, root: nat, tf: nat)
    requires Restored(s, t, tf) && Created(t, u, root) && t.mem.Keys == t.owner.Keys
    ensures Added(s, u, root, tf)
  {
    assert u.spaces - {root} == t.spaces;
    forall p | p in s.owner ensures AddedAt(s, u, root, tf, p) {
      assert RestoredAt(s, t, tf, p);
    }
  }

  lemma AddedMapped(s: St, t: St, u: St, root: nat, tf: nat, va: nat, n: nat, ppn: nat, perm: Perm)
    requires Good(s) && Added(s, t, root, tf) && Mapped(t, u, root, va, n, ppn, perm) && va >= TRAPFRAME
    ensures Added(s, u, root, tf)
  {
    hide MapRange;
    assert u.spaces - {root} == t.spaces - {root};
    forall p | p in s.owner ensures AddedAt(s, u, root, tf, p) {
      assert AddedAt(s, t, root, tf, p) && MappedAt(t, u, root, va, n, ppn, p);
      assert OwnerOk(s, p);
    }
  }

  lemma AddedGained(s: St, t: St, u: St, root: nat, tf: nat, g: map<Vpn, UPage>)
    requires Good(s) && Added(s, t, root, tf) && Gained(t, u, root, g)
    ensures Added(s, u, root, tf)
  {
    assert u.spaces - {root} == t.spaces - {root};
    forall p | p in s.owner ensures AddedAt(s, u, root, tf, p) {
      assert AddedAt(s, t, root, tf, p) && GainedAt(t, u, root, g.Keys, p);
      assert OwnerOk(s, p);
    }
  }

  /** Unmapping the special pages frees nothing. */
  lemma AddedUnmapped(s: St, t: St, u: St, root: nat, tf: nat, gone: set<Vpn>)
    requires Good(s) && Good(t) && Added(s, t, root, tf) && Unmapped(t, u, root, gone, Held)
    requires forall v | v in gone :: !IsUser(v)
    ensures Added(s, u, root, tf)
  {
    hide SpaceAt;
    assert u.spaces - {root} == t.spaces - {root};
    hide AddedAt;
    hide UnmappedAt;
    hide OwnerOk;
    forall p | p in s.owner ensures AddedAt(s, u, root, tf, p) {
      assert AddedAt(s, t, root, tf, p) && UnmappedAt(t, u, root, gone, Held, p);
      assert OwnerOk(s, p) && OwnerOk(t, p);
      AddedUnmappedAt(s, t, u, root, tf, gone, p);
    }
  }

  lemma AddedUnmappedAt(s: St, t: St, u: St, root: nat, tf: nat, gone: set<Vpn>, p: nat)
    requires root !in s.spaces && p in s.owner && p in t.owner && OwnerOk(s, p) && OwnerOk(t, p)
    requires AddedAt(s, t, root, tf, p) && UnmappedAt(t, u, root, gone, Held, p)
    requires forall v | v in gone :: !IsUser(v)
    ensures AddedAt(s, u, root, tf, p)
  {
    hide IsUser;
  }

  lemma AddedReleased(s: St, t: St, u: St, root: nat, tf: nat)
    requires Good(s) && Added(s, t, root, tf) && Released(t, u, root)
    ensures Restored(s, u, tf)
  {
    forall p | p in s.owner ensures RestoredAt(s, u, tf, p) {
      assert AddedAt(s, t, root, tf, p) && FreedAt(t, u, BelongsTo(t.owner[p], root), p);
      assert OwnerOk(s, p);
    }
  }

  // ---- the operations ----

  lemma SpecialPages()
    ensures !IsUser(VpnOf(TRAMPOLINE)) && !IsUser(VpnOf(TRAPFRAME)) && VpnOf(TRAMPOLINE) != VpnOf(TRAPFRAME)
    ensures Range(TRAMPOLINE, 1) == {VpnOf(TRAMPOLINE)} && Range(TRAPFRAME, 1) == {VpnOf(TRAPFRAME)}
  {
    PathNamesPage(TRAMPOLINE);
    PathNamesPage(TRAPFRAME);
    OnePage(TRAMPOLINE);
    OnePage(TRAPFRAME);
  }

  lemma MapOne(s: St, t: St, root: nat, va: nat, n: nat, p: nat, perm: Perm)
    requires n <= 1 && MappedSpaces(s, t, root, va, n, p, perm)
    ensures t.spaces[root].leaves.Keys == if n == 0 then s.spaces[root].leaves.Keys
              else s.spaces[root].leaves.Keys + {VpnOf(va)}
  {
    hide VpnOf;
    OneMapped(s.spaces[root].leaves, va, p, perm);
  }

  lemma NewRoot(s: St, t: St, u: St, root: nat, tf: nat)
    requires Good(t) && Restored(s, t, tf) && Created(t, u, root)
    ensures Added(s, u, root, tf) && root in u.spaces && u.spaces[root].leaves == map[]
  {
    AddedCreated(s, t, u, root, tf);
  }

  /** The special entry at va, entered or not, is cleared. */
  lemma DropSpecial(s: St, t: St, u: St, root: nat, tf: nat, va: nat)
    requires Good(s) && Good(t) && Added(s, t, root, tf) && Unmapped(t, u, root, Range(va, 1), Held)
    requires Range(va, 1) == {VpnOf(va)} && !IsUser(VpnOf(va))
    ensures Added(s, u, root, tf) && root in u.spaces
            && u.spaces[root].leaves.Keys == t.spaces[root].leaves.Keys - {VpnOf(va)}
  {
    hide VpnOf;
    AddedUnmapped(s, t, u, root, tf, Range(va, 1));
  }

  /** uvmfree(pagetable, 0) on a space without leaves. */
  method FreeEmpty(m: Machine, root: nat, ghost s: St, ghost tf: nat)
    requires Good(s) && m.Valid() && Added(s, m.st, root, tf) && root in m.st.spaces
             && m.st.spaces[root].leaves.Keys == {}
    modifies m
    ensures m.Valid() && Restored(s, m.st, tf)
  {
    ghost var t := m.st;
    UvmFree(m, root, 0);
    AddedReleased(s, t, m.st, root, tf);
  }

  /** The tables that the two special pages need in a new space. */
  ghost predicate SpecialTables(s: St, root: nat) {
    root in s.spaces && s.spaces[root].l1.Keys == {255} && s.spaces[root].l0.Keys == {Region(255, 511)}
  }

  ghost function SpecialSet(): set<Vpn> { {VpnOf(TRAMPOLINE), VpnOf(TRAPFRAME)} }

  lemma SpecialNodes()
    ensures VpnOf(TRAMPOLINE).k == VpnOf(TRAPFRAME).k == Region(255, 511)
    ensures Mids({VpnOf(TRAMPOLINE)}) == Mids({VpnOf(TRAPFRAME)}) == Mids(SpecialSet()) == {255}
    ensures Lows({VpnOf(TRAMPOLINE)}) == Lows({VpnOf(TRAPFRAME)}) == Lows(SpecialSet()) == {Region(255, 511)}
  {
  }

  /** Mapping the first special page takes two tables; the second takes none. */
  lemma SpecialSpent(s: St, t: St, root: nat, ok: bool)
    requires root in s.spaces && s.spaces[root].l1 == map[] && s.spaces[root].l0 == map[]
    requires Spent(s, t, root, {VpnOf(TRAMPOLINE)}, 0) && (ok <==> HasTables(t, root, {VpnOf(TRAMPOLINE)}))
             && (ok || t.free == [])
    ensures ok <==> |s.free| >= 2
    ensures ok ==> SpecialTables(t, root) && |s.free| == |t.free| + 2
  {
    SpecialNodes();
    hide VpnOf;
    hide Mids;
    hide Lows;
    hide Spent;
    hide HasTables;
    FirstLack(s, root);
    if ok { FirstTables(s, t, root); }
    if ok { SpentAll(s, t, root, {VpnOf(TRAMPOLINE)}, 0); } else { SpentShort(s, t, root, {VpnOf(TRAMPOLINE)}, 0); }
  }

  lemma FirstLack(s: St, root: nat)
    requires root in s.spaces && s.spaces[root].l1 == map[] && s.spaces[root].l0 == map[]
    ensures Lack(s, root, {VpnOf(TRAMPOLINE)}) == 2
  {
    SpecialNodes();
    hide VpnOf;
    hide Mids;
    hide Lows;
    var none: map<nat, nat>, none': map<Region, nat> := map[], map[];
    assert none.Keys == {} && none'.Keys == {};
    assert {255} - none.Keys == {255} && {Region(255, 511)} - none'.Keys == {Region(255, 511)};
  }

  lemma FirstTables(s: St, t: St, root: nat)
    requires root in s.spaces && s.spaces[root].l1 == map[] && s.spaces[root].l0 == map[]
    requires Spent(s, t, root, {VpnOf(TRAMPOLINE)}, 0) && HasTables(t, root, {VpnOf(TRAMPOLINE)})
    ensures SpecialTables(t, root)
  {
    SpecialNodes();
    hide VpnOf;
    hide Mids;
    hide Lows;
  }

  lemma SpecialAgain(s: St, t: St, root: nat, ok: bool)
    requires SpecialTables(s, root) && Spent(s, t, root, {VpnOf(TRAPFRAME)}, 0)
             && (ok <==> HasTables(t, root, {VpnOf(TRAPFRAME)}))
    ensures ok && SpecialTables(t, root) && |t.free| == |s.free|
  {
    SpecialNodes();
    hide VpnOf;
    hide Mids;
    hide Lows;
    assert s.spaces[root].l1.Keys + {255} == {255} && s.spaces[root].l0.Keys + {Region(255, 511)} == {Region(255, 511)};
    assert t.spaces[root].l1.Keys - s.spaces[root].l1.Keys == {}
           && t.spaces[root].l0.Keys - s.spaces[root].l0.Keys == {};
  }

  /** proc_pagetable: a table with the trampoline and the trapframe, or nothing
      taken at all when fewer than three pages are free. */
  method ProcPagetable(m: Machine, trapframe: nat, trampoline: nat, ghost s: St) returns (root: nat)
    requires m.Valid() && Good(s) && Restored(s, m.st, trapframe)
    modifies m
    ensures m.Valid()
    ensures root == 0 ==> Restored(s, m.st, trapframe)
    ensures root != 0 ==> Added(s, m.st, root, trapframe) && ProcSpace(m.st, root, 0)
    ensures root != 0 <==> |old(m.st).free| >= 3
    ensures root != 0 ==> |old(m.st).free| == |m.st.free| + 3 && SpecialTables(m.st, root)
    ensures root != 0 ==>
              HasSpecial(m.st.spaces[root].leaves, trapframe, trampoline)
              && m.st.spaces[root].leaves.Keys == {VpnOf(TRAMPOLINE), VpnOf(TRAPFRAME)}
    ensures root != 0 ==> PageStays(old(m.st), m.st, trapframe)
  {
    hide Spent;
    hide HasTables;
    hide SpecialTables;
    hide VpnOf;
    hide MapRange;
    hide Good;
    hide Range;
    hide Restored;
    hide Created;
    hide MappedPages;
    hide Added;
    hide Released;
    hide Unmapped;
    hide PgRoundUp;
    hide HasSpecial;
    hide PageStays;
    ghost var s0 := m.st;
    SpecialPages();
    root := UvmCreate(m);
    if root == 0 {
      return 0;
    }
    ghost var s1 := m.st;
    NewRoot(s, s0, s1, root, trapframe);
    NoTables(s0, s1, root);
    var ok, d1 := m.MapPages(root, TRAMPOLINE, PGSIZE, trampoline, TRAMPOLINE_PERM);
    ghost var s2 := m.st;
    AddedMapped(s, s1, s2, root, trapframe, TRAMPOLINE, d1, trampoline, TRAMPOLINE_PERM);
    MapOne(s1, s2, root, TRAMPOLINE, d1, trampoline, TRAMPOLINE_PERM);
    SpecialSpent(s1, s2, root, ok);
    if !ok {
      m.UvmUnmap(root, TRAMPOLINE, 1, false);
      DropSpecial(s, s2, m.st, root, trapframe, TRAMPOLINE);
      FreeEmpty(m, root, s, trapframe);
      return 0;
    }
    var ok', d2 := m.MapPages(root, TRAPFRAME, PGSIZE, trapframe, TRAPFRAME_PERM);
    ghost var s3 := m.st;
    AddedMapped(s, s2, s3, root, trapframe, TRAPFRAME, d2, trapframe, TRAPFRAME_PERM);
    MapOne(s2, s3, root, TRAPFRAME, d2, trapframe, TRAPFRAME_PERM);
    SpecialAgain(s2, s3, root, ok');
    BothMapped(s1.spaces[root].leaves, s2.spaces[root].leaves, s3.spaces[root].leaves, trapframe, trampoline);
    CreatedStays(s0, s1, root, trapframe);
    MappedStays(s1, s2, root, TRAMPOLINE, d1, trampoline, TRAMPOLINE_PERM, trapframe);
    MappedStays(s2, s3, root, TRAPFRAME, d2, trapframe, TRAPFRAME_PERM, trapframe);
    PageStaysOn(s0, s1, s2, trapframe);
    PageStaysOn(s0, s2, s3, trapframe);
    // The source's second error exit is not reached: both pages share their tables.
    if !ok' { assert false; }
  }

  lemma NoTables(s: St, t: St, root: nat)
    requires Created(s, t, root)
    ensures root in t.spaces && t.spaces[root].l1 == map[] && t.spaces[root].l0 == map[]
  {
  }

  // ---- tearing a process down ----

  lemma SpecialRelease(s: St, t: St, u: St, root: nat, gone: set<Vpn>)
    requires Good(s) && Unmapped(s, t, root, gone, Held) && Released(t, u, root)
    requires forall v | v in gone :: !IsUser(v)
    ensures Released(s, u, root)
  {
    assert s.spaces - {root} == t.spaces - {root};
    forall p | p in s.owner ensures FreedAt(s, u, BelongsTo(s.owner[p], root), p) {
      assert UnmappedAt(s, t, root, gone, Held, p) && FreedAt(t, u, BelongsTo(t.owner[p], root), p);
      assert OwnerOk(s, p);
    }
  }

  lemma UnmappedLeaves(s: St, t: St, root: nat, gone: set<Vpn>, o: Owner)
    requires Unmapped(s, t, root, gone, o)
    ensures root in t.spaces && t.spaces[root].leaves.Keys == s.spaces[root].leaves.Keys - gone
  {
  }

  /** proc_freepagetable: everything the space owned is free again. */
  method ProcFreePagetable(m: Machine, root: nat, sz: nat)
    requires m.Valid() && ProcSpace(m.st, root, sz)
    modifies m
    ensures m.Valid() && Released(old(m.st), m.st, root)
  {
    hide VpnOf;
    hide Range;
    hide Unmapped;
    hide Released;
    hide Good;
    SpecialPages();
    ghost var s := m.st;
    m.UvmUnmap(root, TRAPFRAME, 1, false);
    ghost var t := m.st;
    UnmappedLeaves(s, t, root, Range(TRAPFRAME, 1), Held);
    m.UvmUnmap(root, TRAMPOLINE, 1, false);
    ghost var u := m.st;
    UnmappedLeaves(t, u, root, Range(TRAMPOLINE, 1), Held);
    UvmFree(m, root, sz);
    SpecialRelease(t, u, m.st, root, Range(TRAMPOLINE, 1));
    SpecialRelease(s, t, m.st, root, Range(TRAPFRAME, 1));
  }

  // ---- fork ----

  /** No process that was there before sees a difference. */
  lemma AddedView(s: St, t: St, root: nat, tf: nat, r: nat)
    requires Good(s) && Good(t) && Added(s, t, root, tf) && r in s.spaces
    ensures r in t.spaces && t.spaces[r] == s.spaces[r] && View(t, r) == View(s, r)
  {
    assert r in t.spaces - {root} && (t.spaces - {root})[r] == s.spaces[r];
    forall v | v in s.spaces[r].leaves && IsUser(v) ensures PageSeen(t, r, v) == PageSeen(s, r, v) {
      UserBytes(s, r, v);
      assert AddedAt(s, t, root, tf, s.spaces[r].leaves[v].ppn);
    }
  }

  lemma EmptyView(t: St, child: nat)
    requires Good(t) && ProcSpace(t, child, 0)
    ensures View(t, child) == map[]
  {
    hide VpnOf;
    SpecialPages();
    assert PgRoundUp(0) / PGSIZE == 0;
  }

  lemma SameImage(s: St, t: St, r: nat, n: nat)
    requires Good(s) && Good(t) && r in s.spaces && r in t.spaces && View(t, r) == View(s, r)
    ensures Image(t, r, n) == Image(s, r, n)
  {
    hide View;
  }

  lemma ForkView(s: St, t: St, u: St, parent: nat, child: nat, tf: nat, n: nat)
    requires Good(s) && Good(t) && Good(u) && parent in s.spaces && Added(s, t, child, tf) && ProcSpace(t, child, 0)
    requires n * PGSIZE <= TRAPFRAME
    requires parent in t.spaces && Gained(t, u, child, Image(t, parent, n))
    ensures child in u.spaces && View(u, child) == Image(s, parent, n)
  {
    hide VpnOf;
    hide View;
    hide Gained;
    hide Added;
    AddedView(s, t, child, tf, parent);
    EmptyView(t, child);
    SameImage(s, t, parent, n);
    ImageUsers(t, parent, n);
    GainedView(t, u, child, Image(t, parent, n), child);
    var none: map<Vpn, UPage> := map[];
    assert none + Image(t, parent, n) == Image(t, parent, n);
  }

  lemma ImageUsers(t: St, r: nat, n: nat)
    requires Good(t) && r in t.spaces
    ensures forall v | v in Image(t, r, n) :: IsUser(v)
  {
  }

  lemma ForkRoom(t: St, child: nat, sz: nat)
    requires ProcSpace(t, child, 0) && sz <= TRAPFRAME
    ensures Range(0, PgRoundUp(sz) / PGSIZE) !! t.spaces[child].leaves.Keys
  {
    hide VpnOf;
    SpecialPages();
    RoundUpFacts(sz);
    assert PgRoundUp(0) / PGSIZE == 0;
    forall v | v in Range(0, PgRoundUp(sz) / PGSIZE) ensures IsUser(v) {
      var x :| 0 <= x < PgRoundUp(sz) / PGSIZE && v == VpnOf(0 + x * PGSIZE);
      PathNamesPage(x * PGSIZE);
    }
  }

  lemma ForkSpace(t: St, u: St, child: nat, sz: nat, g: map<Vpn, UPage>)
    requires ProcSpace(t, child, 0) && sz <= TRAPFRAME && GainedLeaves(t, u, child, g)
             && g.Keys <= Range(0, PgRoundUp(sz) / PGSIZE)
    ensures ProcSpace(u, child, sz)
  {
    hide VpnOf;
    assert PgRoundUp(0) / PGSIZE == 0;
  }

  /** The free pages fork takes for a process with the pages g: a trapframe, a table
      with the two special pages, the copies, and the tables these lack. */
  ghost function ForkNeed(g: set<Vpn>): nat {
    4 + |g| + |Mids(g) - {255}| + |Lows(g) - {Region(255, 511)}|
  }

  lemma NeedsFour(g: set<Vpn>)
    ensures ForkNeed(g) >= 4
  {
  }

  lemma ForkNeeds(t: St, child: nat, g: set<Vpn>)
    requires SpecialTables(t, child)
    ensures CopyNeed(t, child, g) + 4 == ForkNeed(g)
  {
  }

  ghost predicate ZeroBytes(s: St, p: nat) { p in s.mem && s.mem[p].Bytes? && AllZero(s.mem[p].bytes) }

  lemma ZerosStay(s: St, t: St, p: nat)
    requires PageStays(s, t, p) && p in s.owner && s.owner[p] == Held && ZeroBytes(s, p)
    ensures ZeroBytes(t, p)
  {
  }

  lemma JunkZero(s: St, p: nat)
    requires p in s.mem && s.mem[p] == Bytes(Junk(0))
    ensures ZeroBytes(s, p)
  {
  }

  /** The pages fork takes: allocproc's trapframe and table, then uvmcopy. It fails
      exactly when too few are free, and then freeproc's work puts every page back. */
  method ForkMemory(m: Machine, parent: nat, sz: nat, trampoline: nat) returns (child: nat, tf: nat)
    requires m.Valid() && ProcSpace(m.st, parent, sz)
    modifies m
    ensures m.Valid()
    ensures child == 0 ==> Restored(old(m.st), m.st, 0)
    ensures child != 0 ==> Added(old(m.st), m.st, child, tf) && ProcSpace(m.st, child, sz)
    ensures child != 0 ==> View(m.st, child) == Image(old(m.st), parent, PgRoundUp(sz) / PGSIZE)
    ensures child != 0 ==> HasSpecial(m.st.spaces[child].leaves, tf, trampoline)
    ensures child != 0 ==> ZeroBytes(m.st, tf)
    ensures child != 0 <==> |old(m.st).free| >= ForkNeed(Image(old(m.st), parent, PgRoundUp(sz) / PGSIZE).Keys)
  {
    hide SpecialTables;
    hide HasSpecial;
    hide SameSpecial;
    hide PageStays;
    hide ZeroBytes;
    hide CopyNeed;
    hide ForkNeed;
    hide Good;
    hide FreeOk;
    hide Fresh;
    hide Taken;
    hide HeldFrame;
    hide VpnOf;
    hide Range;
    hide Restored;
    hide Added;
    hide Released;
    hide Gained;
    hide Image;
    hide View;
    hide PgRoundUp;
    ghost var s := m.st;
    RestoredRefl(s);
    GoodFree(s);
    NeedsFour(Image(s, parent, PgRoundUp(sz) / PGSIZE).Keys);
    tf := m.Kalloc();
    if tf == 0 {
      return 0, 0;
    }
    FreshIs(s, tf, Junk(0));
    m.mem := m.mem[tf := Bytes(Junk(0))];
    m.st := m.st.(mem := m.st.mem[tf := Bytes(Junk(0))]);
    RestoredTaken(s, m.st, Junk(0));
    JunkZero(m.st, tf);
    ghost var held := m.st;
    child := ProcPagetable(m, tf, trampoline, s);
    if child == 0 {
      PutBack(m, tf, s);
      return 0, 0;
    }
    ghost var t := m.st;
    AddedView(s, t, child, tf, parent);
    ForkRoom(t, child, sz);
    Different(s, t, parent, child, tf);
    SameImage(s, t, parent, PgRoundUp(sz) / PGSIZE);
    ForkNeeds(t, child, Image(s, parent, PgRoundUp(sz) / PGSIZE).Keys);
    var ok := UvmCopy(m, parent, child, sz);
    ghost var u := m.st;
    ghost var g := if ok then Image(t, parent, PgRoundUp(sz) / PGSIZE) else map[];
    AddedGained(s, t, u, child, tf, g);
    ForkGained(t, u, child, g);
    if !ok {
      ForkSpace(t, u, child, 0, map[]);
      ProcFreePagetable(m, child, 0);
      AddedReleased(s, u, m.st, child, tf);
      PutBack(m, tf, s);
      return 0, 0;
    }
    ImageKeys(t, parent, PgRoundUp(sz) / PGSIZE);
    ForkSpace(t, u, child, sz, g);
    RoundsWithin(sz);
    ForkView(s, t, u, parent, child, tf, PgRoundUp(sz) / PGSIZE);
    ImageUsers(t, parent, PgRoundUp(sz) / PGSIZE);
    GainedKeepsPage(t, u, child, g, tf);
    PageStaysOn(held, t, u, tf);
    ZerosStay(held, u, tf);
    UsersLeave(t, u, child, g);
    SpecialStays(t.spaces[child].leaves, u.spaces[child].leaves, tf, trampoline);
  }

  lemma RoundsWithin(sz: nat)
    requires sz <= TRAPFRAME
    ensures PgRoundUp(sz) / PGSIZE * PGSIZE <= TRAPFRAME
  {
    RoundUpFacts(sz);
  }

  lemma ImageKeys(s: St, root: nat, n: nat)
    requires Good(s) && root in s.spaces
    ensures Image(s, root, n).Keys <= Range(0, n)
  {
  }

  lemma ForkGained(t: St, u: St, child: nat, g: map<Vpn, UPage>)
    requires Gained(t, u, child, g)
    ensures GainedLeaves(t, u, child, g)
  {
  }

  lemma Different(s: St, t: St, parent: nat, child: nat, tf: nat)
    requires Added(s, t, child, tf) && parent in s.spaces
    ensures parent != child && parent in t.spaces
  {
    assert parent in t.spaces - {child};
  }

  /** kfree of the trapframe at the end of freeproc. */
  method PutBack(m: Machine, tf: nat, ghost s: St)
    requires Good(s) && m.Valid() && Restored(s, m.st, tf) && tf in s.owner
    modifies m
    ensures m.Valid() && Restored(s, m.st, 0)
  {
    ghost var t := m.st;
    assert RestoredAt(s, t, tf, tf);
    m.Kfree(tf);
    FreedGood(t, tf);
    RestoredFreed(s, t, m.st, tf);
  }

  /** Fork, then wait's freeproc on the child: every page is back where it was,
      and the free list holds exactly the pages it held. */
  lemma ForkThenFree(s: St, t: St, u: St, w: St, child: nat, tf: nat)
    requires Good(s) && Added(s, t, child, tf) && Released(t, u, child) && tf in s.owner && w == Freed(u, tf)
    ensures Restored(s, w, 0)
    ensures forall p | p in s.owner :: w.owner[p] == s.owner[p]
  {
    AddedReleased(s, t, u, child, tf);
    assert RestoredAt(s, u, tf, tf);
    RestoredFreed(s, u, w, tf);
    forall p | p in s.owner ensures w.owner[p] == s.owner[p] { assert RestoredAt(s, w, 0, p); }
  }

  // ---- growproc ----

  lemma UnmappedView(s: St, t: St, root: nat, gone: set<Vpn>, r: nat)
    requires Good(s) && Good(t) && Unmapped(s, t, root, gone, Free) && r in s.spaces
    ensures r in t.spaces && View(t, r) == if r == root then View(s, r) - gone else View(s, r)
  {
    forall v | v in t.spaces[r].leaves && IsUser(v)
      ensures v in s.spaces[r].leaves && PageSeen(t, r, v) == PageSeen(s, r, v)
    {
      UserBytes(s, r, v);
      UserBytes(t, r, v);
      assert UnmappedAt(s, t, root, gone, Free, s.spaces[r].leaves[v].ppn);
    }
  }

  lemma SpanRoom(s: St, root: nat, sz: nat, newsz: nat)
    requires ProcSpace(s, root, sz) && sz <= newsz <= TRAPFRAME
    ensures Span(sz, newsz) !! s.spaces[root].leaves.Keys
    ensures forall v | v in Span(sz, newsz) :: IsUser(v)
    ensures Span(sz, newsz) <= Range(0, PgRoundUp(newsz) / PGSIZE)
            && Range(0, PgRoundUp(sz) / PGSIZE) <= Range(0, PgRoundUp(newsz) / PGSIZE)
  {
    hide VpnOf;
    SpecialPages();
    RoundUpFacts(sz);
    RoundUpFacts(newsz);
    var lo, hi := PgRoundUp(sz) / PGSIZE, PgRoundUp(newsz) / PGSIZE;
    forall v | v in Span(sz, newsz) ensures IsUser(v) && v !in Range(0, lo) && v in Range(0, hi) {
      var x :| 0 <= x < hi - lo && v == VpnOf(PgRoundUp(sz) + x * PGSIZE);
      SpanPage(lo, hi, x);
    }
  }

  lemma SpanPage(lo: nat, hi: nat, x: nat)
    requires lo + x < hi && hi * PGSIZE <= TRAPFRAME
    ensures IsUser(VpnOf(lo * PGSIZE + x * PGSIZE)) && VpnOf(lo * PGSIZE + x * PGSIZE) !in Range(0, lo)
            && VpnOf(lo * PGSIZE + x * PGSIZE) in Range(0, hi)
  {
    var a := lo * PGSIZE + x * PGSIZE;
    PathNamesPage(a);
    hide VpnOf;
    assert a == 0 + (lo + x) * PGSIZE;
    if VpnOf(a) in Range(0, lo) {
      var y :| 0 <= y < lo && VpnOf(a) == VpnOf(0 + y * PGSIZE);
      PathNamesPage(0 + y * PGSIZE);
      assert false;
    }
  }

  /** The process sees zeros in these pages, and may use them as perm says. */
  ghost predicate ZerosSeen(view: map<Vpn, UPage>, pages: set<Vpn>, perm: Perm) {
    forall v | v in pages :: v in view && view[v].perm == perm && AllZero(view[v].bytes)
  }

  lemma ProcGrown(s: St, t: St, root: nat, sz: nat, newsz: nat, perm: Perm)
    requires Good(s) && Good(t) && ProcSpace(s, root, sz) && sz <= newsz <= TRAPFRAME
    requires Gained(s, t, root, Zeroed(Span(sz, newsz), perm))
    requires forall v | v in Span(sz, newsz) :: ZeroPage(t, root, v, perm)
    ensures ProcSpace(t, root, newsz) && View(t, root) == View(s, root) + Zeroed(Span(sz, newsz), perm)
    ensures ZerosSeen(View(t, root), Span(sz, newsz), perm)
    ensures SameSpecial(s.spaces[root].leaves, t.spaces[root].leaves)
  {
    hide VpnOf;
    hide View;
    hide Range;
    hide Span;
    hide GainedPages;
    hide PgRoundUp;
    SpanRoom(s, root, sz, newsz);
    ZeroedKeys(Span(sz, newsz), perm);
    UsersLeave(s, t, root, Zeroed(Span(sz, newsz), perm));
    GainedView(s, t, root, Zeroed(Span(sz, newsz), perm), root);
    forall v | v in Span(sz, newsz)
      ensures v in View(t, root) && View(t, root)[v].perm == perm && AllZero(View(t, root)[v].bytes)
    {
      SeenIs(t, root, v);
      assert ZeroPage(t, root, v, perm);
    }
  }

  lemma SeenIs(t: St, root: nat, v: Vpn)
    requires Good(t) && root in t.spaces && v in t.spaces[root].leaves && IsUser(v)
    ensures v in View(t, root) && View(t, root)[v] == PageSeen(t, root, v)
  {
    hide VpnOf;
  }

  lemma ProcShrunk(s: St, t: St, root: nat, sz: nat, newsz: nat)
    requires Good(s) && Good(t) && ProcSpace(s, root, sz) && newsz <= sz
    requires Unmapped(s, t, root, Span(newsz, sz), Free)
    ensures ProcSpace(t, root, newsz) && View(t, root) == View(s, root) - Span(newsz, sz)
    ensures SameSpecial(s.spaces[root].leaves, t.spaces[root].leaves)
  {
    hide VpnOf;
    hide View;
    SpanUsers(newsz, sz);
    SpecialPages();
    UnmappedView(s, t, root, Span(newsz, sz), root);
    forall v | v in t.spaces[root].leaves
      ensures v in Range(0, PgRoundUp(newsz) / PGSIZE) + {VpnOf(TRAPFRAME), VpnOf(TRAMPOLINE)}
    {
      if v in Range(0, PgRoundUp(sz) / PGSIZE) && v !in Range(0, PgRoundUp(newsz) / PGSIZE) {
        AboveIsSpan(newsz, sz, v);
      }
    }
  }

  lemma SpanUsers(lo: nat, hi: nat)
    requires lo <= hi <= TRAPFRAME
    ensures forall v | v in Span(lo, hi) :: IsUser(v)
  {
    hide VpnOf;
    RoundUpFacts(lo);
    RoundUpFacts(hi);
    forall v | v in Span(lo, hi) ensures IsUser(v) {
      var x :| 0 <= x < (PgRoundUp(hi) - PgRoundUp(lo)) / PGSIZE && v == VpnOf(PgRoundUp(lo) + x * PGSIZE);
      PathNamesPage(PgRoundUp(lo) + x * PGSIZE);
    }
  }

  lemma AboveIsSpan(lo: nat, hi: nat, v: Vpn)
    requires lo <= hi && v in Range(0, PgRoundUp(hi) / PGSIZE) && v !in Range(0, PgRoundUp(lo) / PGSIZE)
    ensures v in Span(lo, hi)
  {
    hide VpnOf;
    RoundUpFacts(lo);
    RoundUpFacts(hi);
    var x :| 0 <= x < PgRoundUp(hi) / PGSIZE && v == VpnOf(0 + x * PGSIZE);
    var l := PgRoundUp(lo) / PGSIZE;
    assert forall y | 0 <= y < l :: VpnOf(0 + y * PGSIZE) in Range(0, l);
    assert 0 + x * PGSIZE == PgRoundUp(lo) + (x - l) * PGSIZE;
    assert v in Range(PgRoundUp(lo), (PgRoundUp(hi) - PgRoundUp(lo)) / PGSIZE);
  }

  /** growproc: sbrk up maps zeroed pages, sbrk down frees pages. It refuses a size
      out of range, and to grow when too few pages are free; a refusal leaves the
      process as it was. */
  method GrowProc(m: Machine, root: nat, sz: nat, n: int) returns (ok: bool, newsz: nat)
    requires m.Valid() && ProcSpace(m.st, root, sz)
    modifies m
    ensures m.Valid() && ProcSpace(m.st, root, newsz)
    ensures newsz == if ok then sz + n else sz
    ensures View(m.st, root) == if !ok || n == 0 then View(old(m.st), root)
                                else if n > 0 then
                                  View(old(m.st), root) + Zeroed(Span(sz, newsz), Perm(true, true, false, true))
                                else View(old(m.st), root) - Span(newsz, sz)
    ensures ok && n > 0 ==> ZerosSeen(View(m.st, root), Span(sz, newsz), Perm(true, true, false, true))
    ensures SameSpecial(old(m.st).spaces[root].leaves, m.st.spaces[root].leaves)
    ensures forall r | r in old(m.st).spaces && r != root :: r in m.st.spaces && View(m.st, r) == View(old(m.st), r)
    ensures ok <==> 0 <= sz + n <= TRAPFRAME && (n > 0 ==> |old(m.st).free| >= GrowNeed(old(m.st), root, sz, sz + n))
  {
    hide GrowNeed;
    hide VpnOf;
    hide View;
    hide Range;
    hide Span;
    hide SpecialSet;
    hide Zeroed;
    hide Gained;
    hide Unmapped;
    hide Good;
    ghost var s := m.st;
    if n > 0 {
      var want := sz + n;
      if want > TRAPFRAME {
        return false, sz;
      }
      SpanRoom(s, root, sz, want);
      var got := UvmAlloc(m, root, sz, want, Perm(false, true, false, false));
      if got == 0 {
        GrowRefused(s, m.st, root, sz);
        return false, sz;
      }
      GrowOthers(s, m.st, root, sz, want, Perm(true, true, false, true));
      ProcGrown(s, m.st, root, sz, want, Perm(true, true, false, true));
      return true, got;
    } else if n < 0 {
      if sz + n < 0 {
        return false, sz;
      }
      var less := UvmDealloc(m, root, sz, sz + n);
      ProcShrunk(s, m.st, root, sz, sz + n);
      forall r | r in s.spaces && r != root ensures r in m.st.spaces && View(m.st, r) == View(s, r) {
        UnmappedView(s, m.st, root, Span(sz + n, sz), r);
      }
      return true, less;
    }
    return true, sz;
  }

  lemma GrowRefused(s: St, t: St, root: nat, sz: nat)
    requires Good(s) && Good(t) && ProcSpace(s, root, sz) && Gained(s, t, root, map[])
    ensures ProcSpace(t, root, sz)
    ensures forall r | r in s.spaces :: r in t.spaces && View(t, r) == View(s, r)
    ensures SameSpecial(s.spaces[root].leaves, t.spaces[root].leaves)
  {
    hide VpnOf;
    hide View;
    hide Range;
    hide GainedPages;
    forall r | r in s.spaces ensures r in t.spaces && View(t, r) == View(s, r) {
      var none: map<Vpn, UPage> := map[];
      GainedView(s, t, root, none, r);
      assert View(s, r) + none == View(s, r);
    }
  }

  lemma GrowOthers(s: St, t: St, root: nat, sz: nat, newsz: nat, perm: Perm)
    requires Good(s) && Good(t) && ProcSpace(s, root, sz) && sz <= newsz <= TRAPFRAME
    requires Gained(s, t, root, Zeroed(Span(sz, newsz), perm))
    ensures forall r | r in s.spaces && r != root :: r in t.spaces && View(t, r) == View(s, r)
  {
    hide VpnOf;
    hide View;
    hide Span;
    hide Range;
    hide Gained;
    SpanRoom(s, root, sz, newsz);
    forall r | r in s.spaces && r != root ensures r in t.spaces && View(t, r) == View(s, r) {
      GainedView(s, t, root, Zeroed(Span(sz, newsz), perm), r);
    }
  }
}
