/** `kernel/core/kalloc.c` and the page-table code of `kernel/core/vm.c`. */
module PageTable {
  import opened Wrappers
  import opened Sv39
  import opened PageState
  import opened PageSteps
  import opened PageCount

  /** A pte_t pointer: an entry of a table page. */
  datatype Slot = Slot(page: nat, index: nat)

  /** The pages [va, va + n * PGSIZE) as index paths. */
  ghost function Range(va: nat, n: nat): set<Vpn> {
    set x | 0 <= x < n :: VpnOf(va + x * PGSIZE)
  }

  lemma RangeStep(va: nat, n: nat)
    requires va % PGSIZE == 0 && va + (n + 1) * PGSIZE <= MAXVA
    ensures Range(va, n + 1) == Range(va, n) + {VpnOf(va + n * PGSIZE)}
    ensures VpnOf(va + n * PGSIZE) !in Range(va, n)
  {
    hide VpnOf;
    PathNamesPage(va + n * PGSIZE);
    forall x | 0 <= x < n ensures VpnOf(va + x * PGSIZE) != VpnOf(va + n * PGSIZE) {
      PathNamesPage(va + x * PGSIZE);
    }
  }

  /** The leaf map after mappages has entered the first n pages. */
  ghost function MapRange(leaves: map<Vpn, Pte>, va: nat, n: nat, ppn: nat, perm: Perm): map<Vpn, Pte> {
    if n == 0 then leaves
    else MapRange(leaves, va, n - 1, ppn, perm)[VpnOf(va + (n - 1) * PGSIZE) := Pte(ppn + n - 1, perm)]
  }

  lemma {:induction false} MapRangeKeys(leaves: map<Vpn, Pte>, va: nat, n: nat, ppn: nat, perm: Perm)
    requires va % PGSIZE == 0 && va + n * PGSIZE <= MAXVA
    ensures MapRange(leaves, va, n, ppn, perm).Keys == leaves.Keys + Range(va, n)
  {
    if n > 0 {
      MapRangeKeys(leaves, va, n - 1, ppn, perm);
      RangeStep(va, n - 1);
    }
  }

  lemma {:induction false} MapRangeKeeps(leaves: map<Vpn, Pte>, va: nat, n: nat, ppn: nat, perm: Perm, v: Vpn)
    requires v in leaves && v !in Range(va, n)
    ensures v in MapRange(leaves, va, n, ppn, perm) && MapRange(leaves, va, n, ppn, perm)[v] == leaves[v]
  {
    if n > 0 {
      assert VpnOf(va + (n - 1) * PGSIZE) in Range(va, n);
      assert Range(va, n - 1) <= Range(va, n);
      MapRangeKeeps(leaves, va, n - 1, ppn, perm, v);
    }
  }

  lemma {:induction false} MapRangeAt(leaves: map<Vpn, Pte>, va: nat, n: nat, ppn: nat, perm: Perm, x: nat)
    requires va % PGSIZE == 0 && va + n * PGSIZE <= MAXVA && x < n
    ensures VpnOf(va + x * PGSIZE) in MapRange(leaves, va, n, ppn, perm)
    ensures MapRange(leaves, va, n, ppn, perm)[VpnOf(va + x * PGSIZE)] == Pte(ppn + x, perm)
  {
    if x < n - 1 {
      MapRangeAt(leaves, va, n - 1, ppn, perm, x);
      RangeStep(va, n - 1);
      assert VpnOf(va + x * PGSIZE) in Range(va, n - 1);
    }
  }

  // ---- what a run of mappages or uvmunmap does to each page ----

  ghost predicate MappedAt(s: St, t: St, root: nat, va: nat, n: nat, ppn: nat, p: nat)
    requires p in s.owner
  {
    && p in t.owner
    && (s.owner[p] == Free ==> t.owner[p] == Free || TableOf(t.owner[p], root))
    && (s.owner[p] != Free ==>
         t.owner[p] == if va < TRAPFRAME && ppn <= p < ppn + n then User(root, VpnOf(va + (p - ppn) * PGSIZE))
           else s.owner[p])
    && (s.owner[p] != Free && !TableOf(s.owner[p], root) ==> p in s.mem && p in t.mem && Same(t.mem[p], s.mem[p]))
  }

  ghost predicate MappedSpaces(s: St, t: St, root: nat, va: nat, n: nat, ppn: nat, perm: Perm) {
    && root in s.spaces && root in t.spaces && t.spaces == s.spaces[root := t.spaces[root]]
    && t.spaces[root].leaves == MapRange(s.spaces[root].leaves, va, n, ppn, perm)
  }

  ghost predicate MappedPages(s: St, t: St, root: nat, va: nat, n: nat, ppn: nat) {
    && t.owner.Keys == s.owner.Keys
    && (forall p {:trigger t.owner[p]} | p in s.owner :: MappedAt(s, t, root, va, n, ppn, p))
  }

  ghost predicate Mapped(s: St, t: St, root: nat, va: nat, n: nat, ppn: nat, perm: Perm) {
    MappedSpaces(s, t, root, va, n, ppn, perm) && MappedPages(s, t, root, va, n, ppn)
  }

  lemma MappedGrew(s: St, t: St, u: St, root: nat, va: nat, n: nat, ppn: nat, perm: Perm)
    requires Mapped(s, t, root, va, n, ppn, perm) && Grew(t, u, root)
    ensures Mapped(s, u, root, va, n, ppn, perm)
  {
    forall p | p in s.owner ensures MappedAt(s, u, root, va, n, ppn, p) {
      assert MappedAt(s, t, root, va, n, ppn, p) && GrewAt(t, u, root, p);
    }
  }

  lemma MappedLeafAt(s: St, t: St, u: St, root: nat, va: nat, n: nat, ppn: nat, v: Vpn, p: nat)
    requires p in s.owner && MappedAt(s, t, root, va, n, ppn, p)
    requires LeafStep(t, u, root, v, ppn + n)
    requires v == VpnOf(va + n * PGSIZE) && (va < TRAPFRAME <==> IsUser(v))
    requires IsUser(v) ==> ppn + n in s.owner && s.owner[ppn + n] != Free && u.owner[ppn + n] == User(root, v)
    requires t.spaces[root].l0[v.k] in t.owner && TableOf(t.owner[t.spaces[root].l0[v.k]], root)
    ensures MappedAt(s, u, root, va, n + 1, ppn, p)
  {
  }

  lemma WithLeafStep(t: St, root: nat, v: Vpn, e: Pte)
    requires Good(t) && root in t.spaces && v.k in t.spaces[root].l0 && v.m < NPTE && e.Pte?
    requires IsUser(v) ==> e.ppn in t.owner && t.owner[e.ppn] == Held
    ensures LeafStep(t, WithLeaf(t, root, v, e), root, v, e.ppn)
    ensures t.spaces[root].l0[v.k] in t.owner && TableOf(t.owner[t.spaces[root].l0[v.k]], root)
  {
    assert SpaceAt(t, root);
    assert LowNodeOk(t.mem, t.owner, root, t.spaces[root], v.k);
  }

  lemma MappedLeafPages(s: St, t: St, u: St, root: nat, va: nat, n: nat, ppn: nat, v: Vpn)
    requires MappedPages(s, t, root, va, n, ppn) && LeafStep(t, u, root, v, ppn + n)
    requires v == VpnOf(va + n * PGSIZE) && (va < TRAPFRAME <==> IsUser(v))
    requires IsUser(v) ==> ppn + n in s.owner && s.owner[ppn + n] != Free && u.owner[ppn + n] == User(root, v)
    requires t.spaces[root].l0[v.k] in t.owner && TableOf(t.owner[t.spaces[root].l0[v.k]], root)
    ensures MappedPages(s, u, root, va, n + 1, ppn)
  {
    forall q | q in s.owner ensures MappedAt(s, u, root, va, n + 1, ppn, q) {
      assert MappedAt(s, t, root, va, n, ppn, q);
      MappedLeafAt(s, t, u, root, va, n, ppn, v, q);
    }
  }

  lemma MappedLeaf(s: St, t: St, u: St, root: nat, va: nat, n: nat, ppn: nat, perm: Perm, v: Vpn, p: nat)
    requires Good(t) && Mapped(s, t, root, va, n, ppn, perm)
    requires v == VpnOf(va + n * PGSIZE) && p == ppn + n && v.k in t.spaces[root].l0 && v.m < NPTE
    requires va < TRAPFRAME <==> IsUser(v)
    requires IsUser(v) ==> p in s.owner && s.owner[p] == Held && p in t.owner && t.owner[p] == Held
    requires u == WithLeaf(t, root, v, Pte(p, perm))
    ensures Mapped(s, u, root, va, n + 1, ppn, perm)
  {
    hide WithLeaf;
    hide Good;
    hide VpnOf;
    hide IsUser;
    hide MapRange;
    hide MappedAt;
    hide LeafStep;
    MappedLeafSpaces(s, t, u, root, va, n, ppn, perm, v, p);
    WithLeafStep(t, root, v, Pte(p, perm));
    UserNow(t, root, v, Pte(p, perm));
    MappedLeafPages(s, t, u, root, va, n, ppn, v);
  }

  lemma UserNow(t: St, root: nat, v: Vpn, e: Pte)
    requires root in t.spaces && v.k in t.spaces[root].l0 && v.m < NPTE && e.Pte?
    ensures IsUser(v) ==>
              e.ppn in WithLeaf(t, root, v, e).owner && WithLeaf(t, root, v, e).owner[e.ppn] == User(root, v)
  {
  }

  lemma MappedLeafSpaces(s: St, t: St, u: St, root: nat, va: nat, n: nat, ppn: nat, perm: Perm, v: Vpn, p: nat)
    requires MappedSpaces(s, t, root, va, n, ppn, perm) && v == VpnOf(va + n * PGSIZE) && p == ppn + n
    requires v.k in t.spaces[root].l0 && v.m < NPTE && u == WithLeaf(t, root, v, Pte(p, perm))
    ensures MappedSpaces(s, u, root, va, n + 1, ppn, perm)
  {
    hide VpnOf;
  }

  /** What uvmunmap does to page p; the unmapped user pages go to `o`. */
  ghost predicate UnmappedAt(s: St, t: St, root: nat, gone: set<Vpn>, o: Owner, p: nat)
    requires p in s.owner
  {
    && p in t.owner
    && t.owner[p] == (if Loses(s.owner[p], root, gone) then o else s.owner[p])
    && (t.owner[p] != Free && !TableOf(s.owner[p], root) ==> p in s.mem && p in t.mem && Same(t.mem[p], s.mem[p]))
  }

  ghost predicate Loses(o: Owner, root: nat, gone: set<Vpn>) {
    o.User? && o.root == root && o.vpn in gone
  }

  ghost predicate Unmapped(s: St, t: St, root: nat, gone: set<Vpn>, o: Owner) {
    && t.owner.Keys == s.owner.Keys
    && root in s.spaces && t.spaces == s.spaces[root := s.spaces[root].(leaves := s.spaces[root].leaves - gone)]
    && (forall p {:trigger t.owner[p]} | p in s.owner :: UnmappedAt(s, t, root, gone, o, p))
  }

  lemma UnmappedMore(s: St, t: St, root: nat, gone: set<Vpn>, o: Owner, v: Vpn)
    requires Good(s) && Unmapped(s, t, root, gone, o) && v !in t.spaces[root].leaves && (o == Free || o == Held)
    ensures Unmapped(s, t, root, gone + {v}, o)
  {
    assert s.spaces[root].leaves - (gone + {v}) == s.spaces[root].leaves - gone;
    forall p | p in s.owner ensures UnmappedAt(s, t, root, gone + {v}, o, p) {
      assert OwnerOk(s, p);
      assert UnmappedAt(s, t, root, gone, o, p);
    }
  }

  /** Clearing the entry of page v after, for do_free, giving its page back. */
  ghost function Cleared(t: St, root: nat, v: Vpn, doFree: bool): St
    requires root in t.spaces && v.k in t.spaces[root].l0 && v.m < NPTE && v in t.spaces[root].leaves
             && t.spaces[root].leaves[v].Pte?
  {
    if doFree then Freed(WithoutLeaf(t, root, v), t.spaces[root].leaves[v].ppn) else WithoutLeaf(t, root, v)
  }

  lemma ClearedOk(t: St, root: nat, v: Vpn, doFree: bool)
    requires Good(t) && root in t.spaces && v in t.spaces[root].leaves && (doFree ==> IsUser(v))
    ensures LeafOk(t.owner, root, t.spaces[root], v)
    ensures Good(Cleared(t, root, v, doFree))
  {
    WithoutLeafGood(t, root, v);
    if doFree {
      FreedGood(WithoutLeaf(t, root, v), t.spaces[root].leaves[v].ppn);
    }
  }

  lemma ClearedAt(s: St, t: St, u: St, root: nat, gone: set<Vpn>, v: Vpn, doFree: bool, table: nat, page: nat, p: nat)
    requires p in s.owner && OwnerOk(s, p) && UnmappedAt(s, t, root, gone, if doFree then Free else Held, p)
    requires p in t.owner && OwnerOk(t, p) && v !in gone
    requires root in t.spaces && v in t.spaces[root].leaves && t.spaces[root].leaves[v] .Pte?
             && t.spaces[root].leaves[v].ppn == page
    requires table in t.owner && t.owner[table] == Low(root, v.k) && table != page
    requires if IsUser(v) then page in t.owner && t.owner[page] == User(root, v) else !doFree
    requires u.owner == if IsUser(v) then t.owner[page := if doFree then Free else Held] else t.owner
    requires table in u.mem
             && forall q | q in t.mem && q != table && (q != page || !doFree) :: q in u.mem && Same(u.mem[q], t.mem[q])
    ensures UnmappedAt(s, u, root, gone + {v}, if doFree then Free else Held, p)
  {
  }

  lemma ClearedShape(t: St, root: nat, v: Vpn, doFree: bool)
    requires Good(t) && root in t.spaces && v in t.spaces[root].leaves && LeafOk(t.owner, root, t.spaces[root], v)
             && (doFree ==> IsUser(v))
    ensures var u := Cleared(t, root, v, doFree);
            var table, page := t.spaces[root].l0[v.k], t.spaces[root].leaves[v].ppn;
            && PageIs(t.mem, t.owner, table, Ptes(LowRow(t.spaces[root].leaves, v.k)), Low(root, v.k))
            && table in u.mem && (IsUser(v) ==> table != page)
            && (forall q | q in t.mem && q != table && (q != page || !doFree) :: q in u.mem && Same(u.mem[q], t.mem[q]))
            && u.owner == (if IsUser(v) then t.owner[page := if doFree then Free else Held] else t.owner)
            && u.spaces == t.spaces[root := t.spaces[root].(leaves := t.spaces[root].leaves - {v})]
  {
    assert SpaceAt(t, root);
    assert LowNodeOk(t.mem, t.owner, root, t.spaces[root], v.k);
  }

  lemma UnmappedClear(s: St, t: St, root: nat, gone: set<Vpn>, v: Vpn, doFree: bool)
    requires Good(s) && Good(t) && Unmapped(s, t, root, gone, if doFree then Free else Held)
    requires v !in gone && v in t.spaces[root].leaves && LeafOk(t.owner, root, t.spaces[root], v)
             && (doFree ==> IsUser(v))
    ensures Unmapped(s, Cleared(t, root, v, doFree), root, gone + {v}, if doFree then Free else Held)
  {
    hide SpaceOk;
    hide Cleared;
    hide Threaded;
    hide FreeOk;
    hide PageIs;
    var u := Cleared(t, root, v, doFree);
    ClearedShape(t, root, v, doFree);
    hide IsUser;
    hide UnmappedAt;
    hide SpaceAt;
    hide OwnerOk;
    assert s.spaces[root].leaves - (gone + {v}) == t.spaces[root].leaves - {v};
    ghost var o := if doFree then Free else Held;
    forall p | p in s.owner ensures UnmappedAt(s, u, root, gone + {v}, o, p) {
      assert UnmappedAt(s, t, root, gone, o, p);
      assert OwnerOk(s, p);
      UnmappedClearAt(s, t, u, root, gone, v, doFree, p);
    }
  }

  lemma UnmappedClearAt(s: St, t: St, u: St, root: nat, gone: set<Vpn>, v: Vpn, doFree: bool, p: nat)
    requires p in s.owner && OwnerOk(s, p) && UnmappedAt(s, t, root, gone, if doFree then Free else Held, p)
    requires v !in gone && root in t.spaces && v in t.spaces[root].leaves && LeafOk(t.owner, root, t.spaces[root], v)
             && (doFree ==> IsUser(v))
    requires Good(t) && t.spaces[root].leaves[v].Pte? && v.k in t.spaces[root].l0
    requires var table, page := t.spaces[root].l0[v.k], t.spaces[root].leaves[v].ppn;
            && table in t.owner && t.owner[table] == Low(root, v.k)
            && table in u.mem && (IsUser(v) ==> table != page)
            && (forall q | q in t.mem && q != table && (q != page || !doFree) :: q in u.mem && Same(u.mem[q], t.mem[q]))
            && u.owner == (if IsUser(v) then t.owner[page := if doFree then Free else Held] else t.owner)
    ensures UnmappedAt(s, u, root, gone + {v}, if doFree then Free else Held, p)
  {
    hide IsUser;
    hide SpaceOk;
    var table, page := t.spaces[root].l0[v.k], t.spaces[root].leaves[v].ppn;
    assert p in t.owner && OwnerOk(t, p);
    if table == page { UserlessClear(s, t, u, root, gone, v, p); } else {
      ClearedAt(s, t, u, root, gone, v, doFree, table, page, p);
    }
  }

  /** The trampoline's entry may point anywhere: only the table changes. */
  lemma UserlessClear(s: St, t: St, u: St, root: nat, gone: set<Vpn>, v: Vpn, p: nat)
    requires p in s.owner && UnmappedAt(s, t, root, gone, Held, p) && p in t.owner && u.owner == t.owner
    requires OwnerOk(s, p) && !IsUser(v)
    requires forall q | q in t.mem && q in t.owner && !TableOf(t.owner[q], root) ::
               q in u.mem && Same(u.mem[q], t.mem[q])
    ensures UnmappedAt(s, u, root, gone + {v}, Held, p)
  {
  }

  lemma MappedRefl(s: St, root: nat, va: nat, ppn: nat, perm: Perm)
    requires Good(s) && root in s.spaces
    ensures Mapped(s, s, root, va, 0, ppn, perm)
  {
    forall p | p in s.owner ensures MappedAt(s, s, root, va, 0, ppn, p) { }
  }

  lemma UnmappedRefl(s: St, root: nat, o: Owner)
    requires Good(s) && root in s.spaces
    ensures Unmapped(s, s, root, {}, o)
  {
    assert s.spaces[root].leaves - {} == s.spaces[root].leaves;
    forall p | p in s.owner ensures UnmappedAt(s, s, root, {}, o, p) { }
  }

  /** The entry for page v holds what the leaf map says. */
  lemma EntryLeaf(t: St, root: nat, v: Vpn)
    requires Good(t) && root in t.spaces && Canonical(v)
    ensures v in t.spaces[root].leaves ==> v.k in t.spaces[root].l0
    ensures v.k in t.spaces[root].l0 ==>
              var q := t.spaces[root].l0[v.k];
              && q in t.mem && q in t.owner && t.owner[q] == Low(root, v.k) && t.mem[q].Ptes? && |t.mem[q].ptes| == NPTE
              && t.mem[q].ptes[v.m] == LeafPte(t.spaces[root].leaves, v)
    ensures v in t.spaces[root].leaves ==> t.spaces[root].leaves[v].Pte?
  {
    assert SpaceAt(t, root);
    if v in t.spaces[root].leaves { assert LeafOk(t.owner, root, t.spaces[root], v); }
    if v.k in t.spaces[root].l0 { assert LowNodeOk(t.mem, t.owner, root, t.spaces[root], v.k); }
  }

  /** One page of mappages: its slot is empty and its frame still in hand. */
  lemma MapStepFresh(s: St, t: St, root: nat, va: nat, done: nat, n: nat, ppn: nat, perm: Perm, v: Vpn, p: nat)
    requires Good(s) && Mapped(s, t, root, va, done, ppn, perm) && done < n
    requires va % PGSIZE == 0 && va + n * PGSIZE <= MAXVA && Range(va, n) !! s.spaces[root].leaves.Keys
    requires va < TRAPFRAME ==> va + n * PGSIZE <= TRAPFRAME && forall q | ppn <= q < ppn + n :: HeldFrame(s, q)
    requires v == VpnOf(va + done * PGSIZE) && p == ppn + done
    ensures Canonical(v) && v !in t.spaces[root].leaves && (IsUser(v) <==> va < TRAPFRAME)
    ensures IsUser(v) ==> HeldFrame(s, p) && HeldFrame(t, p)
  {
    hide VpnOf;
    hide MapRange;
    PathNamesPage(va + done * PGSIZE);
    RangeStep(va, done);
    MapRangeKeys(s.spaces[root].leaves, va, done, ppn, perm);
    assert v in Range(va, n);
    if va < TRAPFRAME {
      assert HeldFrame(s, p) && MappedAt(s, t, root, va, done, ppn, p);
    }
  }

  lemma RowIs(t: St, root: nat, v: Vpn)
    requires Good(t) && root in t.spaces && v.k in t.spaces[root].l0
    ensures PageIs(t.mem, t.owner, t.spaces[root].l0[v.k], Ptes(LowRow(t.spaces[root].leaves, v.k)), Low(root, v.k))
  {
    assert SpaceAt(t, root);
    assert LowNodeOk(t.mem, t.owner, root, t.spaces[root], v.k);
  }

  /** Freeing before or after the table write gives the same memory. */
  lemma ClearedMem(t: St, root: nat, v: Vpn, doFree: bool)
    requires Good(t) && root in t.spaces && v in t.spaces[root].leaves && LeafOk(t.owner, root, t.spaces[root], v)
             && (doFree ==> IsUser(v))
    ensures var q, p := t.spaces[root].l0[v.k], t.spaces[root].leaves[v].ppn;
            Same((if doFree then t.mem[p := Run(t.freelist)]
                else t.mem)[q := Ptes(LowRow(t.spaces[root].leaves, v.k)[v.m := Zero])],
                 Cleared(t, root, v, doFree).mem)
  {
    ClearedShape(t, root, v, doFree);
    var q, p := t.spaces[root].l0[v.k], t.spaces[root].leaves[v].ppn;
    var row := Ptes(LowRow(t.spaces[root].leaves, v.k)[v.m := Zero]);
    if doFree {
      assert t.mem[p := Run(t.freelist)][q := row] == t.mem[q := row][p := Run(t.freelist)];
    }
  }

  // ---- walk ----

  /** Where walk stands for page v before looking at `level`'s entry. */
  ghost predicate TableAt(s: St, root: nat, v: Vpn, level: nat, table: nat)
    requires root in s.spaces && level <= 2
  {
    if level == 2 then table == root
    else if level == 1 then v.k.i in s.spaces[root].l1 && table == s.spaces[root].l1[v.k.i]
    else v.k in s.spaces[root].l0 && table == s.spaces[root].l0[v.k]
  }

  ghost predicate HasNode(s: St, root: nat, v: Vpn, level: nat)
    requires root in s.spaces && level <= 1
  {
    if level == 1 then v.k.i in s.spaces[root].l1 else v.k in s.spaces[root].l0
  }

  function Index(v: Vpn, level: nat): nat
    requires level <= 2
  {
    if level == 2 then v.k.i else if level == 1 then v.k.j else v.m
  }

  lemma EntryAt(s: St, root: nat, v: Vpn, level: nat, table: nat)
    requires Good(s) && root in s.spaces && Canonical(v) && 1 <= level <= 2 && TableAt(s, root, v, level, table)
    ensures table in s.mem && table in s.owner && TableOf(s.owner[table], root) && s.mem[table].Ptes?
            && |s.mem[table].ptes| == NPTE
    ensures var e := s.mem[table].ptes[Index(v, level)];
            if e.Pte? then TableAt(s, root, v, level - 1, e.ppn) else !HasNode(s, root, v, level - 1)
  {
    var a := s.spaces[root];
    assert SpaceAt(s, root);
    if level == 1 { assert MidNodeOk(s.mem, s.owner, root, a, v.k.i); }
  }

  lemma NoShortcut(s: St, root: nat, v: Vpn, level: nat)
    requires Good(s) && root in s.spaces && 1 <= level <= 2 && v.k in s.spaces[root].l0
    ensures HasNode(s, root, v, level - 1)
  {
    var a := s.spaces[root];
    assert SpaceAt(s, root);
    assert LowNodeOk(s.mem, s.owner, root, a, v.k);
  }

  /** kinit: one more page comes under management. */
  lemma KeepPool(s: St, t: St, p: nat)
    requires FreeOk(s) && p !in s.mem && p != 0
    requires t == s.(mem := s.mem[p := Bytes([])], owner := s.owner[p := Held])
    ensures FreeOk(t)
  {
    ThreadedFree(s.mem, s.owner, s.freelist, s.free);
    ThreadedKeep(s.mem, s.owner, t.mem, t.owner, s.freelist, s.free);
  }

  ghost function Extended(s: St, root: nat, v: Vpn, level: nat, table: nat): St
    requires s.freelist in s.mem && s.mem[s.freelist].Run? && s.free != [] && root in s.spaces && Canonical(v)
             && 1 <= level <= 2
    requires TableAt(s, root, v, level, table)
  {
    if level == 2 then WithMid(s, root, v.k.i) else WithLow(s, root, v.k)
  }

  lemma ExtendOk(s: St, root: nat, v: Vpn, level: nat, table: nat)
    requires Good(s) && root in s.spaces && Canonical(v) && 1 <= level <= 2 && TableAt(s, root, v, level, table)
    requires !HasNode(s, root, v, level - 1)
    requires s.free != []
    ensures s.freelist in s.mem && s.mem[s.freelist].Run?
    ensures var t := Extended(s, root, v, level, table);
            Good(t) && Grew(s, t, root) && TableAt(t, root, v, level - 1, s.freelist)
    ensures table in s.mem && s.mem[table].Ptes? && |s.mem[table].ptes| == NPTE
    ensures Extended(s, root, v, level, table).freelist == Taken(s).freelist
    ensures Same(Extended(s, root, v, level, table).mem,
                 Taken(s).mem[s.freelist := Ptes(EmptyTable())][table := Ptes(s.mem[table].ptes[Index(v,
                     level) := Pte(s.freelist, NODE)])])
  {
    var a := s.spaces[root];
    EntryAt(s, root, v, level, table);
    assert SpaceAt(s, root);
    if level == 2 {
      WithMidGood(s, root, v.k.i);
      TakenFreeOk(s);
    } else {
      assert MidNodeOk(s.mem, s.owner, root, a, v.k.i);
      WithLowGood(s, root, v.k);
      TakenFreeOk(s);
    }
  }

  lemma ExtendSpent(s: St, root: nat, v: Vpn, level: nat, table: nat)
    requires s.freelist in s.mem && s.mem[s.freelist].Run? && s.free != [] && root in s.spaces && Canonical(v)
             && 1 <= level <= 2
    requires TableAt(s, root, v, level, table) && !HasNode(s, root, v, level - 1)
    ensures Spent(s, Extended(s, root, v, level, table), root, {v}, 0)
  {
    var t := Extended(s, root, v, level, table);
    var a, b := s.spaces[root], t.spaces[root];
    assert |t.free| + 1 == |s.free|;
    assert b.l1 == (if level == 2 then a.l1[v.k.i := s.freelist] else a.l1)
           && b.l0 == if level == 2 then a.l0 else a.l0[v.k := s.freelist];
    OneTable(s, t, root, v, level == 2);
  }

  /** One new table on the way to page v. */
  lemma OneTable(s: St, t: St, root: nat, v: Vpn, mid: bool)
    requires root in s.spaces && root in t.spaces && |t.free| + 1 == |s.free|
    requires var a, b := s.spaces[root], t.spaces[root];
             if mid then v.k.i !in a.l1 && b.l1.Keys == a.l1.Keys + {v.k.i} && b.l0 == a.l0
             else v.k !in a.l0 && b.l0.Keys == a.l0.Keys + {v.k} && b.l1 == a.l1
    ensures Spent(s, t, root, {v}, 0)
  {
    Members({}, v, {v});
    hide Mids;
    hide Lows;
    var a, b := s.spaces[root], t.spaces[root];
    if mid { OneMore(a.l1.Keys, v.k.i); NoneMore(a.l0.Keys); } else { OneMore(a.l0.Keys, v.k); NoneMore(a.l1.Keys); }
  }

  lemma OneMore<T>(a: set<T>, x: T)
    requires x !in a
    ensures |(a + {x}) - a| == 1
  {
    assert (a + {x}) - a == {x};
  }

  lemma NoneMore<T>(a: set<T>)
    ensures |a - a| == 0
  {
    assert a - a == {};
  }

  lemma NoPagesFree(s: St)
    requires s == St(map[], 0, [], map[], map[])
    ensures FreeOk(s)
  {
  }

  /** The managed pages are those from lo to hi, and all are free. */
  ghost predicate AllFree(owner: map<nat, Owner>, lo: nat, hi: nat) {
    (forall p :: p in owner <==> lo <= p < hi) && forall p | p in owner :: owner[p] == Free
  }

  lemma OneFree(owner: map<nat, Owner>, lo: nat, p: nat)
    requires AllFree(owner, lo, p) && lo <= p
    ensures AllFree(owner[p := Held][p := Free], lo, p + 1) && p !in owner
  {
  }

  lemma FreePages(s: St)
    requires FreeOk(s)
    ensures s.mem.Keys == s.owner.Keys && 0 !in s.mem
  {
  }

  lemma NoRange(va: nat)
    ensures Range(va, 0) == {}
  {
  }

  lemma IndexIs(va: nat, level: nat)
    requires level <= 2
    ensures PX(level, va) == Index(VpnOf(va), level) < NPTE
  {
  }

  lemma GoodFree(s: St)
    requires Good(s)
    ensures FreeOk(s)
  {
  }

  lemma WalkRefl(s: St, root: nat, v: Vpn)
    requires Good(s) && root in s.spaces
    ensures Grew(s, s, root) && Spent(s, s, root, {v}, 0)
  {
    GrewRefl(s, root);
    SpentRefl(s, root, {v});
  }

  lemma WalkTrans(s: St, t: St, u: St, root: nat, v: Vpn)
    requires root in s.spaces && root in t.spaces && Grew(s, t, root) && Grew(t, u, root)
    requires Spent(s, t, root, {v}, 0) && Spent(t, u, root, {v}, 0)
    ensures root in u.spaces && Grew(s, u, root) && Spent(s, u, root, {v}, 0)
  {
    GrewTrans(s, t, u, root);
    SpentTrans(s, t, u, root, {v}, {v}, 0, 0);
    assert {v} + {v} == {v};
  }

  /** The walk for one page more. */
  lemma WalkSpent(s: St, t: St, u: St, root: nat, va: nat, n: nat, all: nat, v: Vpn)
    requires Good(u) && Spent(s, t, root, Range(va, n), 0) && HasTables(t, root, Range(va, n))
             && Spent(t, u, root, {v}, 0)
    requires va % PGSIZE == 0 && va + all * PGSIZE <= MAXVA && n < all && v == VpnOf(va + n * PGSIZE)
    ensures Spent(s, u, root, Range(va, n + 1), 0) && Spent(s, u, root, Range(va, all), 0)
    ensures if v.k in u.spaces[root].l0 then HasTables(u, root, Range(va, n + 1))
              else !HasTables(u, root, Range(va, all))
  {
    hide VpnOf;
    RangeStep(va, n);
    SpentTrans(s, t, u, root, Range(va, n), {v}, 0, 0);
    assert Range(va, n + 1) <= Range(va, all);
    SpentWider(s, u, root, Range(va, n + 1), Range(va, all), 0);
    Members({}, v, {v});
    if v.k in u.spaces[root].l0 {
      LowsSuffice(u, root, {v});
    } else {
      assert v.k in Lows(Range(va, all));
    }
  }

  lemma LeafSpent(s: St, t: St, root: nat, v: Vpn, e: Pte, g: set<Vpn>)
    requires Spent(s, t, root, g, 0) && HasTables(t, root, g) && v.k in t.spaces[root].l0 && v.m < NPTE && e.Pte?
    ensures Spent(s, WithLeaf(t, root, v, e), root, g, 0) && HasTables(WithLeaf(t, root, v, e), root, g)
  {
    SpentSame(s, t, WithLeaf(t, root, v, e), root, g, 0, 0);
  }

  /** The allocator's memory and list head, and the state they stand for. */
  class Machine {
    var mem: map<nat, Page>
    var freelist: nat
    ghost var st: St

    /** The kernel's fields are those of the specification state. */
    ghost predicate Synced()
      reads this
    {
      Same(mem, st.mem) && freelist == st.freelist
    }

    ghost predicate Valid()
      reads this
    {
      Synced() && Good(st)
    }

    /** kinit: every page after the kernel is freed, in increasing order. */
    constructor (first: nat, n: nat)
      requires first > 0
      ensures Valid() && st.spaces == map[]
      ensures AllFree(st.owner, first, first + n)
    {
      mem := map[];
      freelist := 0;
      st := St(map[], 0, [], map[], map[]);
      new;
      assert AllFree(st.owner, first, first);
      hide FreeOk;
      hide AllFree;
      NoPagesFree(st);
      var p := first;
      while p < first + n
        invariant first <= p <= first + n && Synced() && FreeOk(st) && st.spaces == map[]
        invariant AllFree(st.owner, first, p)
      {
        ghost var s := st;
        mem := mem[p := Bytes([])];
        st := s.(mem := mem, owner := s.owner[p := Held]);
        FreePages(s);
        OneFree(s.owner, first, p);
        KeepPool(s, st, p);
        Kfree(p);
        p := p + 1;
      }
    }

    method Kalloc() returns (p: nat)
      requires Synced() && FreeOk(st)
      modifies this
      ensures Synced() && FreeOk(st)
      ensures old(st).free == [] ==> p == 0 && st == old(st)
      ensures old(st).free != [] ==>
                p != 0 && p == old(st).freelist && p in old(st).mem && old(st).mem[p].Run? && st == Taken(old(st))
    {
      p := freelist;
      if p != 0 {
        TakenFreeOk(st);
        freelist := mem[p].next;
        mem := mem[p := Bytes(Junk(5))];
        st := Taken(st);
      }
    }

    /** The source panics on an address outside the managed pages, and never
        sees a page that is already free. */
    method Kfree(p: nat)
      requires Synced() && FreeOk(st) && p in st.owner && st.owner[p] != Free
      modifies this
      ensures Synced() && FreeOk(st) && st == Freed(old(st), p)
    {
      FreedFreeOk(st, p);
      mem := mem[p := Run(freelist)];
      freelist := p;
      st := Freed(st, p);
    }

    /** The allocating half of walk's loop body: a zeroed page is linked in. */
    method AddTable(root: nat, va: nat, level: nat, table: nat) returns (page: nat)
      requires Valid() && root in st.spaces && va < MAXVA && 1 <= level <= 2
      requires Canonical(VpnOf(va)) && TableAt(st, root, VpnOf(va), level, table)
               && !HasNode(st, root, VpnOf(va), level - 1)
      modifies this
      ensures Valid()
      ensures page == 0 ==> st == old(st) && st.free == []
      ensures page != 0 ==> Grew(old(st), st, root) && TableAt(st, root, VpnOf(va), level - 1, page)
      ensures page != 0 ==> Spent(old(st), st, root, {VpnOf(va)}, 0)
    {
      hide Spent;
      hide Grew;
      hide Taken;
      hide Extended;
      hide Good;
      hide VpnOf;
      hide PX;
      hide Canonical;
      hide TableAt;
      hide HasNode;
      hide FreeOk;
      ghost var s, v := st, VpnOf(va);
      IndexIs(va, level);
      GoodFree(s);
      EntryAt(s, root, v, level, table);
      var entries := mem[table].ptes;
      page := Kalloc();
      if page != 0 {
        ExtendOk(s, root, v, level, table);
        ExtendSpent(s, root, v, level, table);
        mem := mem[page := Ptes(EmptyTable())];
        mem := mem[table := Ptes(entries[PX(level, va) := Pte(page, NODE)])];
        st := Extended(s, root, v, level, table);
      }
    }

    /** walk: the slot for va's page, creating tables on the way if asked. */
    method Walk(root: nat, va: nat, alloc: bool) returns (slot: Option<Slot>)
      requires Valid() && root in st.spaces && va < MAXVA
      modifies this
      ensures Valid() && Grew(old(st), st, root)
      ensures !alloc ==> st == old(st)
      ensures slot.Some? ==>
                VpnOf(va).k in st.spaces[root].l0 && slot.value == Slot(st.spaces[root].l0[VpnOf(va).k], VpnOf(va).m)
      ensures slot.None? ==> VpnOf(va).k !in st.spaces[root].l0
      ensures slot.None? && alloc ==> st.free == []
      ensures Spent(old(st), st, root, {VpnOf(va)}, 0)
    {
      hide Spent;
      hide Grew;
      hide Good;
      hide VpnOf;
      hide PX;
      hide Canonical;
      var table := root;
      var level := 2;
      ghost var v := VpnOf(va);
      PathNamesPage(va);
      WalkRefl(st, root, v);
      IndexIs(va, 0);
      while level > 0
        invariant 0 <= level <= 2 && Valid() && root in st.spaces && Grew(old(st), st, root)
        invariant !alloc ==> st == old(st)
        invariant TableAt(st, root, v, level, table)
        invariant Spent(old(st), st, root, {v}, 0)
      {
        ghost var s := st;
        EntryAt(s, root, v, level, table);
        IndexIs(va, level);
        var pte := mem[table].ptes[PX(level, va)];
        if pte.Pte? {
          table := pte.ppn;
        } else {
          assert v.k !in st.spaces[root].l0 by {
            if v.k in st.spaces[root].l0 { NoShortcut(s, root, v, level); }
          }
          if !alloc {
            return None;
          }
          var page := AddTable(root, va, level, table);
          if page == 0 {
            return None;
          }
          WalkTrans(old(st), s, st, root, v);
          table := page;
        }
        level := level - 1;
      }
      return Some(Slot(table, PX(0, va)));
    }

    /** `*pte = PA2PTE(pa) | perm | PTE_V` on an empty slot. */
    method SetPte(root: nat, ghost v: Vpn, slot: Slot, ppn: nat, perm: Perm)
      requires Valid() && root in st.spaces && v.k in st.spaces[root].l0 && v !in st.spaces[root].leaves && Canonical(v)
      requires slot == Slot(st.spaces[root].l0[v.k], v.m) && (if IsUser(v) then HeldFrame(st, ppn) else !perm.u)
      modifies this
      ensures Valid() && st == WithLeaf(old(st), root, v, Pte(ppn, perm))
    {
      EntryLeaf(st, root, v);
      WithLeafGood(st, root, v, Pte(ppn, perm));
      ghost var s := st;
      RowIs(s, root, v);
      mem := mem[slot.page := Ptes(mem[slot.page].ptes[slot.index := Pte(ppn, perm)])];
      st := WithLeaf(s, root, v, Pte(ppn, perm));
    }

    /** `if (do_free) kfree(pa); *pte = 0` on a filled slot. */
    method ClearPte(root: nat, ghost v: Vpn, slot: Slot, doFree: bool)
      requires Valid() && root in st.spaces && v in st.spaces[root].leaves && Canonical(v) && (doFree ==> IsUser(v))
      requires v.k in st.spaces[root].l0 && slot == Slot(st.spaces[root].l0[v.k], v.m)
      modifies this
      ensures Valid() && LeafOk(old(st).owner, root, old(st).spaces[root], v) && st == Cleared(old(st), root, v, doFree)
    {
      ghost var s := st;
      EntryLeaf(s, root, v);
      RowIs(s, root, v);
      ClearedOk(s, root, v, doFree);
      ClearedShape(s, root, v, doFree);
      var entries := mem[slot.page].ptes;
      if doFree {
        Kfree(entries[slot.index].ppn);
      }
      mem := mem[slot.page := Ptes(entries[slot.index := Zero])];
      st := Cleared(s, root, v, doFree);
      ClearedMem(s, root, v, doFree);
    }

    /** mappages. Mapping a page that is already mapped panics in the source. */
    method MapPages(root: nat, va: nat, size: nat, ppn: nat, perm: Perm) returns (ok: bool, ghost done: nat)
      requires Valid() && root in st.spaces
      requires va % PGSIZE == 0 && size % PGSIZE == 0 && size > 0 && va + size <= MAXVA
      requires Range(va, size / PGSIZE) !! st.spaces[root].leaves.Keys
      requires if va < TRAPFRAME then va + size <= TRAPFRAME && forall p | ppn <= p < ppn + size / PGSIZE ::
                 HeldFrame(st, p) else !perm.u
      modifies this
      ensures Valid() && Mapped(old(st), st, root, va, done, ppn, perm)
      ensures ok ==> done == size / PGSIZE
      ensures !ok ==> done < size / PGSIZE && st.free == []
      ensures Spent(old(st), st, root, Range(va, size / PGSIZE), 0)
      ensures ok <==> HasTables(st, root, Range(va, size / PGSIZE))
    {
      hide Spent;
      hide HasTables;
      hide Mids;
      hide Lows;
      hide Range;
      hide VpnOf;
      hide Good;
      hide WithLeaf;
      hide MappedPages;
      hide MapRange;
      ghost var n := size / PGSIZE;
      var a, p := va, ppn;
      var last := va + size - PGSIZE;
      done := 0;
      MappedRefl(st, root, va, ppn, perm);
      NoRange(va);
      SpentRefl(st, root, {});
      while true
        invariant 0 <= done < n && a == va + done * PGSIZE && p == ppn + done
        invariant Spent(old(st), st, root, Range(va, done), 0) && HasTables(st, root, Range(va, done))
        invariant Valid() && Mapped(old(st), st, root, va, done, ppn, perm)
        decreases n - done
      {
        ghost var v := VpnOf(a);
        ghost var s := st;
        var slot := Walk(root, a, true);
        MappedGrew(old(st), s, st, root, va, done, ppn, perm);
        WalkSpent(old(st), s, st, root, va, done, n, v);
        if slot.None? {
          return false, done;
        }
        ghost var t := st;
        MapStepFresh(old(st), t, root, va, done, n, ppn, perm, v, p);
        SetPte(root, v, slot.value, p, perm);
        MappedLeaf(old(st), t, st, root, va, done, ppn, perm, v, p);
        LeafSpent(old(st), t, root, v, Pte(p, perm), Range(va, done + 1));
        done := done + 1;
        if a == last {
          return true, done;
        }
        a := a + PGSIZE;
        p := p + 1;
      }
    }

    /** uvmunmap. It is fine if some of the pages are not mapped. */
    method UvmUnmap(root: nat, va: nat, npages: nat, doFree: bool)
      requires Valid() && root in st.spaces && va % PGSIZE == 0 && va + npages * PGSIZE <= MAXVA
      requires doFree ==> va + npages * PGSIZE <= TRAPFRAME
      modifies this
      ensures Valid() && Unmapped(old(st), st, root, Range(va, npages), if doFree then Free else Held)
    {
      hide VpnOf;
      hide Good;
      hide Unmapped;
      hide Spent;
      NoRange(va);
      var a := va;
      ghost var n := 0;
      ghost var o := if doFree then Free else Held;
      UnmappedRefl(st, root, o);
      while a < va + npages * PGSIZE
        invariant 0 <= n <= npages && a == va + n * PGSIZE
        invariant Valid() && root in st.spaces && Unmapped(old(st), st, root, Range(va, n), o)
      {
        ghost var v := VpnOf(a);
        ghost var t := st;
        var slot := Walk(root, a, false);
        RangeStep(va, n);
        PathNamesPage(a);
        a := a + PGSIZE;
        EntryLeaf(t, root, v);
        if slot.None? || mem[slot.value.page].ptes[slot.value.index].Zero? {
          UnmappedMore(old(st), t, root, Range(va, n), o, v);
        } else {
          ClearPte(root, v, slot.value, doFree);
          UnmappedClear(old(st), t, root, Range(va, n), v, doFree);
        }
        n := n + 1;
      }
    }
  }
}
