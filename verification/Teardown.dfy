/** uvmcreate, freewalk and uvmfree of `kernel/core/vm.c`: a tree comes from the
    free list and all of it goes back. */
module Teardown {
  import opened Sv39
  import opened PageState
  import opened PageSteps
  import opened PageTable
  import opened UserMemory

  /** A table page, by its place in the tree. */
  datatype Node = Top | MidAt(i: nat) | LowAt(k: Region)

  ghost predicate NodeIn(a: Space, n: Node) {
    match n
    case Top => true
    case MidAt(i) => i in a.l1
    case LowAt(k) => k in a.l0
  }

  ghost function PageOf(root: nat, a: Space, n: Node): nat
    requires NodeIn(a, n)
  {
    match n
    case Top => root
    case MidAt(i) => a.l1[i]
    case LowAt(k) => a.l0[k]
  }

  ghost function RowOf(a: Space, n: Node): (r: seq<Pte>)
    ensures |r| == NPTE
  {
    match n
    case Top => TopRow(a.l1)
    case MidAt(i) => MidRow(a.l0, i)
    case LowAt(k) => LowRow(a.leaves, k)
  }

  ghost function OwnerOf(root: nat, n: Node): Owner {
    match n
    case Top => Root(root)
    case MidAt(i) => Mid(root, i)
    case LowAt(k) => Low(root, k)
  }

  ghost function NodeOf(o: Owner): Node
    requires SomeTable(o)
  {
    match o
    case Root(_) => Top
    case Mid(_, i) => MidAt(i)
    case Low(_, k) => LowAt(k)
  }

  function Child(n: Node, i: nat): Node
    requires !n.LowAt?
  {
    if n.Top? then MidAt(i) else LowAt(Region(n.i, i))
  }

  ghost predicate Below(x: Node, n: Node) {
    n == Top || x == n || (x.LowAt? && n.MidAt? && x.k.i == n.i)
  }

  /** Which entry of n leads to x. */
  ghost function Branch(x: Node, n: Node): nat
    requires Below(x, n) && x != n
  {
    if n.Top? then (if x.MidAt? then x.i else x.k.i) else x.k.j
  }

  ghost predicate NodeGood(s: St, root: nat, a: Space, n: Node) {
    NodeIn(a, n) && PageIs(s.mem, s.owner, PageOf(root, a, n), Ptes(RowOf(a, n)), OwnerOf(root, n))
  }

  ghost predicate Intact(s: St, root: nat, a: Space, n: Node) {
    forall x {:trigger NodeGood(s, root, a, x)} | NodeIn(a, x) && Below(x, n) :: NodeGood(s, root, a, x)
  }

  ghost predicate Under(o: Owner, root: nat, n: Node) {
    TableOf(o, root) && Below(NodeOf(o), n)
  }

  /** The tables below n reached through its first i entries. */
  ghost predicate Passed(o: Owner, root: nat, n: Node, i: nat) {
    Under(o, root, n) && NodeOf(o) != n && Branch(NodeOf(o), n) < i
  }

  ghost predicate FreedAt(s: St, t: St, dead: bool, p: nat)
    requires p in s.owner
  {
    && p in t.owner && t.owner[p] == (if dead then Free else s.owner[p])
    && (s.owner[p] != Free && !dead ==> p in s.mem && p in t.mem && Same(t.mem[p], s.mem[p]))
  }

  /** Exactly the tables under n were freed. */
  ghost predicate FreedUnder(s: St, t: St, root: nat, n: Node) {
    && t.owner.Keys == s.owner.Keys && t.spaces == s.spaces
    && (forall p {:trigger t.owner[p]} | p in s.owner :: FreedAt(s, t, Under(s.owner[p], root, n), p))
  }

  ghost predicate SomeAt(s: St, t: St, root: nat, n: Node, i: nat, p: nat)
    requires p in s.owner
  {
    if s.owner[p] == OwnerOf(root, n) then p in t.owner && t.owner[p] == s.owner[p]
    else FreedAt(s, t, Passed(s.owner[p], root, n, i), p)
  }

  /** The loop of freewalk on n after i entries; n's own page may differ. */
  ghost predicate FreedSome(s: St, t: St, root: nat, n: Node, i: nat) {
    && t.owner.Keys == s.owner.Keys && t.spaces == s.spaces
    && (forall p {:trigger t.owner[p]} | p in s.owner :: SomeAt(s, t, root, n, i, p))
  }

  /** An entry of n is the child's page, or empty when there is no child. */
  lemma RowEntry(s: St, root: nat, a: Space, n: Node, i: nat)
    requires i < NPTE && Tidy(s, root, a)
    ensures RowOf(a, n)[i].Pte? ==>
              !n.LowAt? && NodeIn(a, Child(n, i)) && RowOf(a, n)[i] == Pte(PageOf(root, a, Child(n, i)), NODE)
    ensures RowOf(a, n)[i].Zero? && !n.LowAt? ==> !NodeIn(a, Child(n, i))
  {
  }

  lemma ChildIntact(s: St, t: St, root: nat, a: Space, n: Node, i: nat)
    requires Intact(s, root, a, n) && !n.LowAt? && FreedSome(s, t, root, n, i)
    ensures Intact(t, root, a, Child(n, i))
  {
    forall x | NodeIn(a, x) && Below(x, Child(n, i)) ensures NodeGood(t, root, a, x) {
      assert NodeGood(s, root, a, x);
      var p := PageOf(root, a, x);
      assert t.owner[p] == t.owner[p];
    }
  }

  /** A child's subtree is gone and its entry cleared: one more entry passed. */
  lemma PassChild(s: St, t: St, u: St, w: St, root: nat, a: Space, n: Node, i: nat)
    requires NodeGood(s, root, a, n) && !n.LowAt? && FreedSome(s, t, root, n, i) && FreedUnder(t, u, root, Child(n, i))
    requires var p := PageOf(root, a, n); p in w.mem && p in u.mem && w == u.(mem := u.mem[p := w.mem[p]])
    ensures FreedSome(s, w, root, n, i + 1)
  {
    var q := PageOf(root, a, n);
    forall p | p in s.owner ensures SomeAt(s, w, root, n, i + 1, p) {
      assert t.owner[p] == t.owner[p];
      assert u.owner[p] == u.owner[p];
    }
  }

  /** Nothing hangs under an empty entry. */
  lemma PassEmpty(s: St, t: St, root: nat, a: Space, n: Node, i: nat)
    requires FreedSome(s, t, root, n, i) && Tidy(s, root, a)
    requires n.LowAt? || !NodeIn(a, Child(n, i))
    ensures FreedSome(s, t, root, n, i + 1)
  {
    forall p | p in s.owner ensures SomeAt(s, t, root, n, i + 1, p) {
      assert t.owner[p] == t.owner[p];
      if TableOf(s.owner[p], root) {
        assert NodeIn(a, NodeOf(s.owner[p]));
      }
    }
  }

  /** The tables of root are exactly the nodes of a, and no leaf is left. */
  ghost predicate Tidy(s: St, root: nat, a: Space) {
    && a.leaves == map[]
    && (forall i | i in a.l1 :: i < NPTE)
    && (forall k | k in a.l0 :: k.i in a.l1 && k.j < NPTE)
    && (forall p {:trigger s.owner[p]} | p in s.owner && TableOf(s.owner[p], root) ::
           NodeIn(a, NodeOf(s.owner[p])) && p == PageOf(root, a, NodeOf(s.owner[p])))
  }

  lemma PassedAll(s: St, t: St, u: St, root: nat, a: Space, n: Node)
    requires NodeGood(s, root, a, n) && FreedSome(s, t, root, n, NPTE) && Tidy(s, root, a)
    requires u == Freed(t, PageOf(root, a, n))
    ensures FreedUnder(s, u, root, n)
  {
    forall p | p in s.owner ensures FreedAt(s, u, Under(s.owner[p], root, n), p) {
      assert t.owner[p] == t.owner[p];
      if TableOf(s.owner[p], root) {
        assert NodeIn(a, NodeOf(s.owner[p]));
      }
    }
  }

  lemma SomeRefl(s: St, root: nat, n: Node)
    requires s.mem.Keys == s.owner.Keys
    ensures FreedSome(s, s, root, n, 0)
  {
    forall p | p in s.owner ensures SomeAt(s, s, root, n, 0, p) { }
  }

  ghost function Depth(n: Node): nat { if n.Top? then 2 else if n.MidAt? then 1 else 0 }

  /** `pagetable[i] = 0` on a page somebody owns. */
  method ZeroEntry(m: Machine, page: nat, i: nat)
    requires m.Synced() && FreeOk(m.st) && page in m.st.owner && m.st.owner[page] != Free
    requires page in m.mem && m.mem[page].Ptes? && i < |m.mem[page].ptes|
    modifies m
    ensures m.Synced() && FreeOk(m.st)
    ensures page in m.st.mem && m.st.mem[page] == Ptes(old(m.mem[page].ptes)[i := Zero])
    ensures m.st == old(m.st).(mem := old(m.st).mem[page := m.st.mem[page]])
  {
    ghost var s := m.st;
    m.mem := m.mem[page := Ptes(m.mem[page].ptes[i := Zero])];
    m.st := s.(mem := s.mem[page := m.mem[page]]);
    ThreadedFree(s.mem, s.owner, s.freelist, s.free);
    ThreadedKeep(s.mem, s.owner, m.st.mem, m.st.owner, s.freelist, s.free);
  }

  /** freewalk. "freewalk: leaf" is unreachable once the leaves are gone. */
  method FreeWalk(m: Machine, page: nat, ghost root: nat, ghost a: Space, ghost n: Node)
    requires m.Synced() && FreeOk(m.st) && Intact(m.st, root, a, n) && NodeIn(a, n) && page == PageOf(root, a, n)
    requires Tidy(m.st, root, a)
    modifies m
    ensures m.Synced() && FreeOk(m.st) && FreedUnder(old(m.st), m.st, root, n)
    decreases Depth(n)
  {
    hide TopRow;
    hide MidRow;
    hide LowRow;
    hide Tidy;
    hide Intact;
    hide FreeOk;
    hide FreedUnder;
    ghost var s := m.st;
    var i := 0;
    FreeWalkStart(s, root, a, n);
    while i < NPTE
      invariant i <= NPTE && m.Synced() && FreeOk(m.st) && FreedSome(s, m.st, root, n, i)
      invariant page in m.mem && m.mem[page].Ptes? && |m.mem[page].ptes| == NPTE
      invariant forall j | i <= j < NPTE :: m.mem[page].ptes[j] == RowOf(a, n)[j]
    {
      var pte := m.mem[page].ptes[i];
      ghost var t := m.st;
      RowEntry(s, root, a, n, i);
      if pte.Pte? && !pte.perm.r && !pte.perm.w && !pte.perm.x {
        ChildIntact(s, t, root, a, n, i);
        OwnersStay(s, t, root, a, n, i);
        FreeWalk(m, pte.ppn, root, a, Child(n, i));
        ghost var u := m.st;
        ChildGone(s, t, u, root, a, n, i);
        ZeroEntry(m, page, i);
        PassChild(s, t, u, m.st, root, a, n, i);
      } else if pte.Pte? {
        assert false;
      } else {
        PassEmpty(s, t, root, a, n, i);
      }
      i := i + 1;
    }
    ghost var t := m.st;
    m.Kfree(page);
    PassedAll(s, t, m.st, root, a, n);
  }

  lemma FreeWalkStart(s: St, root: nat, a: Space, n: Node)
    requires FreeOk(s) && Intact(s, root, a, n) && NodeIn(a, n)
    ensures NodeGood(s, root, a, n) && FreedSome(s, s, root, n, 0)
  {
    SomeRefl(s, root, n);
  }

  lemma OwnersStay(s: St, t: St, root: nat, a: Space, n: Node, i: nat)
    requires FreedSome(s, t, root, n, i) && Tidy(s, root, a)
    ensures Tidy(t, root, a)
  {
  }

  /** n's own page survives its child's freewalk. */
  lemma ChildGone(s: St, t: St, u: St, root: nat, a: Space, n: Node, i: nat)
    requires NodeGood(s, root, a, n) && !n.LowAt? && FreedSome(s, t, root, n, i) && FreedUnder(t, u, root, Child(n, i))
    ensures var p := PageOf(root, a, n);
            p in u.owner && u.owner[p] == OwnerOf(root, n) && p in t.mem && p in u.mem && Same(u.mem[p], t.mem[p])
  {
    var p := PageOf(root, a, n);
    assert t.owner[p] == t.owner[p];
    assert u.owner[p] == u.owner[p];
  }

  // ---- whole address spaces ----

  /** All of root's pages went back to the free list; nothing else changed. */
  ghost predicate Released(s: St, t: St, root: nat) {
    && t.owner.Keys == s.owner.Keys && t.spaces == s.spaces - {root}
    && (forall p {:trigger t.owner[p]} | p in s.owner :: FreedAt(s, t, BelongsTo(s.owner[p], root), p))
  }

  ghost predicate Created(s: St, t: St, root: nat) {
    && root in s.owner && s.owner[root] == Free && root !in s.spaces
    && t.owner == s.owner[root := Root(root)] && t.spaces == s.spaces[root := Space(map[], map[], map[])]
    && (forall p {:trigger t.mem[p]} | p in s.mem && p != root :: p in t.mem && Same(t.mem[p], s.mem[p]))
  }

  lemma CreatedFree(u: St, t: St, root: nat)
    requires FreeOk(u) && root in u.owner && u.owner[root] == Held
    requires t == u.(mem := u.mem[root := Ptes(EmptyTable())], owner := u.owner[root := Root(root)],
                     spaces := u.spaces[root := Space(map[], map[], map[])])
    ensures FreeOk(t)
  {
    ThreadedFree(u.mem, u.owner, u.freelist, u.free);
    ThreadedKeep(u.mem, u.owner, t.mem, t.owner, u.freelist, u.free);
  }

  lemma CreatedSpace(u: St, t: St, root: nat, r: nat)
    requires Good(u) && root in u.owner && u.owner[root] == Held && r in t.spaces && (r == root || r in u.spaces)
    requires t == u.(mem := u.mem[root := Ptes(EmptyTable())], owner := u.owner[root := Root(root)],
                     spaces := u.spaces[root := Space(map[], map[], map[])])
    ensures SpaceAt(t, r)
  {
    if r == root {
      assert TopRow(map[]) == EmptyTable();
    } else {
      assert SpaceAt(u, r);
      assert Kept(u.mem, u.owner, t.mem, t.owner, r, {});
      SpaceFrame(u.mem, u.owner, t.mem, t.owner, r, u.spaces[r]);
    }
  }

  lemma CreatedOwner(u: St, t: St, root: nat, p: nat)
    requires p in u.owner && OwnerOk(u, p) && root in u.owner && u.owner[root] == Held && root !in u.spaces
    requires t == u.(mem := u.mem[root := Ptes(EmptyTable())], owner := u.owner[root := Root(root)],
                     spaces := u.spaces[root := Space(map[], map[], map[])])
    ensures OwnerOk(t, p)
  {
  }

  lemma CreatedGood(s: St, t: St)
    requires Good(s) && s.free != [] && s.freelist in s.mem && s.mem[s.freelist].Run?
    requires var root := s.freelist; var u := Taken(s);
             t == u.(mem := u.mem[root := Ptes(EmptyTable())], owner := u.owner[root := Root(root)],
                     spaces := u.spaces[root := Space(map[], map[], map[])])
    ensures Good(t) && Created(s, t, s.freelist)
  {
    hide OwnerOk;
    hide SpaceAt;
    hide FreeOk;
    var root := s.freelist;
    var u := Taken(s);
    TakenGood(s);
    FreshRoot(s);
    CreatedFree(u, t, root);
    forall r | r in t.spaces ensures SpaceAt(t, r) {
      CreatedSpace(u, t, root, r);
    }
    forall p | p in t.owner ensures OwnerOk(t, p) {
      CreatedOwner(u, t, root, p);
    }
  }

  lemma FreshRoot(s: St)
    requires Good(s) && s.freelist in s.mem && s.free != []
    ensures s.freelist !in s.spaces && s.mem.Keys == s.owner.Keys
  {
    forall r | r in s.spaces ensures r in s.owner && s.owner[r] == Root(r) {
      assert SpaceAt(s, r);
    }
  }

  /** uvmcreate. */
  method UvmCreate(m: Machine) returns (root: nat)
    requires m.Valid()
    modifies m
    ensures m.Valid()
    ensures root == 0 <==> old(m.st).free == []
    ensures root == 0 ==> m.st == old(m.st)
    ensures root != 0 ==> Created(old(m.st), m.st, root) && |old(m.st).free| == |m.st.free| + 1
  {
    hide OwnerOk;
    ghost var s := m.st;
    root := m.Kalloc();
    if root != 0 {
      ghost var u := m.st;
      m.mem := m.mem[root := Ptes(EmptyTable())];
      m.st :=
        u.(mem := u.mem[root := Ptes(EmptyTable())], owner := u.owner[root := Root(root)],
           spaces := u.spaces[root := Space(map[], map[], map[])]);
      CreatedGood(s, m.st);
    }
  }

  lemma TreeTidy(s: St, root: nat)
    requires Good(s) && root in s.spaces && s.spaces[root].leaves == map[]
    ensures Tidy(s, root, s.spaces[root]) && Intact(s, root, s.spaces[root], Top)
  {
    var a := s.spaces[root];
    assert SpaceAt(s, root);
    forall i | i in a.l1 ensures i < NPTE { assert MidNodeOk(s.mem, s.owner, root, a, i); }
    forall k | k in a.l0 ensures k.i in a.l1 && k.j < NPTE { assert LowNodeOk(s.mem, s.owner, root, a, k); }
    forall p | p in s.owner && TableOf(s.owner[p], root)
      ensures NodeIn(a, NodeOf(s.owner[p])) && p == PageOf(root, a, NodeOf(s.owner[p]))
    {
      assert OwnerOk(s, p);
    }
    forall x | NodeIn(a, x) && Below(x, Top) ensures NodeGood(s, root, a, x) {
      match x
      case Top =>
      case MidAt(i) => assert MidNodeOk(s.mem, s.owner, root, a, i);
      case LowAt(k) => assert LowNodeOk(s.mem, s.owner, root, a, k);
    }
  }

  /** Dropping a space whose tables were all freed. */
  lemma ReleasedGood(s: St, u: St, root: nat)
    requires Good(s) && root in s.spaces && s.spaces[root].leaves == map[]
    requires FreeOk(u) && u.spaces == s.spaces - {root}
    requires u.owner.Keys == s.owner.Keys
    requires forall p {:trigger u.owner[p]} | p in s.owner :: FreedAt(s, u, Under(s.owner[p], root, Top), p)
    ensures Good(u) && Released(s, u, root)
  {
    forall p | p in s.owner ensures FreedAt(s, u, BelongsTo(s.owner[p], root), p) {
      assert u.owner[p] == u.owner[p];
      assert OwnerOk(s, p);
    }
    forall r | r in u.spaces ensures SpaceAt(u, r) {
      assert SpaceAt(s, r);
      ReleasedKept(s, u, root, r);
      SpaceFrame(s.mem, s.owner, u.mem, u.owner, r, s.spaces[r]);
    }
    forall p | p in u.owner ensures OwnerOk(u, p) {
      assert OwnerOk(s, p);
      assert u.owner[p] == u.owner[p];
    }
  }

  lemma ReleasedKept(s: St, u: St, root: nat, r: nat)
    requires s.mem.Keys == s.owner.Keys && r != root
    requires u.owner.Keys == s.owner.Keys
    requires forall p {:trigger u.owner[p]} | p in s.owner :: FreedAt(s, u, Under(s.owner[p], root, Top), p)
    ensures Kept(s.mem, s.owner, u.mem, u.owner, r, {})
  {
    forall p | p in s.owner && BelongsTo(s.owner[p], r)
      ensures p in u.owner && u.owner[p] == s.owner[p] && (p in s.mem ==> p in u.mem && Same(u.mem[p], s.mem[p]))
    {
      assert u.owner[p] == u.owner[p];
    }
  }

  lemma UnmapRelease(s: St, t: St, u: St, root: nat, gone: set<Vpn>)
    requires Unmapped(s, t, root, gone, Free) && Released(t, u, root)
    ensures Released(s, u, root)
  {
    assert s.spaces - {root} == t.spaces - {root};
    forall p | p in s.owner ensures FreedAt(s, u, BelongsTo(s.owner[p], root), p) {
      assert UnmappedAt(s, t, root, gone, Free, p);
      assert FreedAt(t, u, BelongsTo(t.owner[p], root), p);
    }
  }

  /** uvmfree: all leaves lie below sz, so the whole space is returned. */
  method UvmFree(m: Machine, root: nat, sz: nat)
    requires m.Valid() && root in m.st.spaces && sz <= TRAPFRAME
    requires m.st.spaces[root].leaves.Keys <= Range(0, PgRoundUp(sz) / PGSIZE)
    modifies m
    ensures m.Valid() && Released(old(m.st), m.st, root)
  {
    hide VpnOf;
    hide Released;
    hide Intact;
    hide Tidy;
    ghost var s := m.st;
    RoundUpFacts(sz);
    ghost var gone := if sz > 0 then Range(0, PgRoundUp(sz) / PGSIZE) else {};
    UnmappedRefl(s, root, Free);
    if sz > 0 {
      m.UvmUnmap(root, 0, PgRoundUp(sz) / PGSIZE, true);
    }
    ghost var t := m.st;
    NoLeaves(s, t, root, gone);
    TreeTidy(t, root);
    m.st := t.(spaces := t.spaces - {root});
    SameTree(t, m.st, root);
    FreeWalk(m, root, root, t.spaces[root], Top);
    ReleasedGood(t, m.st, root);
    UnmapRelease(s, t, m.st, root, gone);
  }

  lemma SameTree(t: St, u: St, root: nat)
    requires u == t.(spaces := t.spaces - {root}) && root in t.spaces && FreeOk(t)
    requires Tidy(t, root, t.spaces[root]) && Intact(t, root, t.spaces[root], Top)
    ensures FreeOk(u) && Tidy(u, root, t.spaces[root]) && Intact(u, root, t.spaces[root], Top)
  {
    forall x | NodeIn(t.spaces[root], x) && Below(x, Top) ensures NodeGood(u, root, t.spaces[root], x) {
      assert NodeGood(t, root, t.spaces[root], x);
    }
  }

  lemma NoLeaves(s: St, t: St, root: nat, gone: set<Vpn>)
    requires Unmapped(s, t, root, gone, Free) && s.spaces[root].leaves.Keys <= gone
    ensures root in t.spaces && t.spaces[root].leaves == map[]
  {
    assert s.spaces[root].leaves - gone == map[];
  }
}
