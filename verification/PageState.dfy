/** Physical memory as the page allocator and the page tables see it, and the
    ownership invariant that ties the three-level trees to finite maps. */
module PageState {
  import opened Common
  import opened Sv39

  /** What a physical page holds: page-table entries, plain bytes, or the link
      that kfree threads through a free page. */
  datatype Page =
    | Ptes(ptes: seq<Pte>)
    | Bytes(bytes: seq<byte>)
    | Run(next: nat)

  /** Who a managed page belongs to. Table pages and user pages say where in
      which address space they sit, so one owner per page makes all tree nodes,
      leaves and free pages pairwise distinct. */
  datatype Owner =
    | Free
    | Held
    | Root(root: nat)
    | Mid(root: nat, i: nat)
    | Low(root: nat, k: Region)
    | User(root: nat, vpn: Vpn)

  /** An address space: where its interior nodes are, and the finite map from
      virtual page number to entry that the tree stands for. */
  datatype Space = Space(l1: map<nat, nat>, l0: map<Region, nat>, leaves: map<Vpn, Pte>)

  ghost predicate TableOf(o: Owner, root: nat) {
    (o.Root? || o.Mid? || o.Low?) && o.root == root
  }

  ghost predicate SomeTable(o: Owner) { o.Root? || o.Mid? || o.Low? }

  ghost predicate BelongsTo(o: Owner, root: nat) {
    !o.Free? && !o.Held? && o.root == root
  }

  ghost function NodePte<K>(nodes: map<K, nat>, i: K): Pte {
    if i in nodes then Pte(nodes[i], NODE) else Zero
  }

  ghost function LeafPte(leaves: map<Vpn, Pte>, v: Vpn): Pte {
    if v in leaves then leaves[v] else Zero
  }

  /** The entries the three kinds of table page must hold. */
  ghost function TopRow(l1: map<nat, nat>): (r: seq<Pte>)
    ensures |r| == NPTE
  {
    seq(NPTE, i requires 0 <= i < NPTE => NodePte(l1, i))
  }

  ghost function MidRow(l0: map<Region, nat>, i: nat): (r: seq<Pte>)
    ensures |r| == NPTE
  {
    seq(NPTE, j requires 0 <= j < NPTE => NodePte(l0, Region(i, j)))
  }

  ghost function LowRow(leaves: map<Vpn, Pte>, k: Region): (r: seq<Pte>)
    ensures |r| == NPTE
  {
    seq(NPTE, m requires 0 <= m < NPTE => LeafPte(leaves, Vpn(k, m)))
  }

  function EmptyTable(): (r: seq<Pte>)
    ensures |r| == NPTE
  {
    seq(NPTE, i => Zero)
  }

  // ---- one address space ----

  /** Plain equality; the type parameter keeps the verifier from comparing two
      table pages entry by entry where one is known to be the other. */
  ghost predicate Same<T>(a: T, b: T) { a == b }

  ghost predicate PageIs(mem: map<nat, Page>, owner: map<nat, Owner>, p: nat, page: Page, o: Owner) {
    p in mem && p in owner && owner[p] == o && Same(mem[p], page)
  }

  ghost predicate RootOk(mem: map<nat, Page>, owner: map<nat, Owner>, root: nat, s: Space) {
    PageIs(mem, owner, root, Ptes(TopRow(s.l1)), Root(root))
  }

  ghost predicate MidNodeOk(mem: map<nat, Page>, owner: map<nat, Owner>, root: nat, s: Space, i: nat)
    requires i in s.l1
  {
    i < NPTE && PageIs(mem, owner, s.l1[i], Ptes(MidRow(s.l0, i)), Mid(root, i))
  }

  ghost predicate LowNodeOk(mem: map<nat, Page>, owner: map<nat, Owner>, root: nat, s: Space, k: Region)
    requires k in s.l0
  {
    && k.i in s.l1 && k.j < NPTE
    && PageIs(mem, owner, s.l0[k], Ptes(LowRow(s.leaves, k)), Low(root, k))
  }

  ghost predicate LeafOk(owner: map<nat, Owner>, root: nat, s: Space, v: Vpn)
    requires v in s.leaves
  {
    && Canonical(v) && v.k in s.l0 && s.leaves[v].Pte?
    && (if IsUser(v) then s.leaves[v].ppn in owner && owner[s.leaves[v].ppn] == User(root, v) else !s.leaves[v].perm.u)
  }

  ghost predicate SpaceOk(mem: map<nat, Page>, owner: map<nat, Owner>, root: nat, s: Space) {
    && RootOk(mem, owner, root, s)
    && (forall i {:trigger MidNodeOk(mem, owner, root, s, i)} | i in s.l1 :: MidNodeOk(mem, owner, root, s, i))
    && (forall k {:trigger LowNodeOk(mem, owner, root, s, k)} | k in s.l0 :: LowNodeOk(mem, owner, root, s, k))
    && (forall v {:trigger LeafOk(owner, root, s, v)} | v in s.leaves :: LeafOk(owner, root, s, v))
  }

  // ---- all of memory ----

  /** The whole state: memory and the head of the free list are the kernel's;
      the list it threads, the owners and the spaces are the specification's. */
  datatype St = St(mem: map<nat, Page>, freelist: nat, free: seq<nat>, owner: map<nat, Owner>, spaces: map<nat, Space>)

  /** Following the links from `head` visits exactly `free`, each page once. */
  ghost predicate Threaded(mem: map<nat, Page>, owner: map<nat, Owner>, head: nat, free: seq<nat>)
    decreases free
  {
    if free == [] then head == 0
    else
      && head == free[0] && head != 0 && head !in free[1..]
      && head in mem && head in owner && owner[head] == Free && mem[head].Run?
      && Threaded(mem, owner, mem[head].next, free[1..])
  }

  /** The free list holds exactly the pages nobody owns. */
  ghost predicate FreeOk(s: St) {
    && s.mem.Keys == s.owner.Keys && 0 !in s.mem
    && Threaded(s.mem, s.owner, s.freelist, s.free)
    && (forall p | p in s.owner && s.owner[p] == Free :: p in s.free)
  }

  ghost predicate SpaceAt(s: St, r: nat)
    requires r in s.spaces
  {
    SpaceOk(s.mem, s.owner, r, s.spaces[r])
  }

  /** A table or user owner is backed by the address space it names. */
  ghost predicate OwnerOk(s: St, p: nat)
    requires p in s.owner
  {
    match s.owner[p]
    case Free => true
    case Held => true
    case Root(r) => r in s.spaces && r == p
    case Mid(r, i) => r in s.spaces && i in s.spaces[r].l1 && s.spaces[r].l1[i] == p
    case Low(r, k) => r in s.spaces && k in s.spaces[r].l0 && s.spaces[r].l0[k] == p
    case User(r, v) =>
      && r in s.spaces && v in s.spaces[r].leaves && s.spaces[r].leaves[v].Pte? && s.spaces[r].leaves[v].ppn == p
      && IsUser(v) && p in s.mem && s.mem[p].Bytes? && |s.mem[p].bytes| == PGSIZE
  }

  ghost predicate Good(s: St) {
    && FreeOk(s)
    && (forall r {:trigger SpaceAt(s, r)} | r in s.spaces :: SpaceAt(s, r))
    && (forall p {:trigger OwnerOk(s, p)} | p in s.owner :: OwnerOk(s, p))
  }

  // ---- framing ----

  /** Nothing that belongs to `root` changed, except perhaps the pages that
      play one of the roles in `but`. */
  ghost predicate Kept(mem: map<nat, Page>, owner: map<nat, Owner>, mem': map<nat, Page>, owner': map<nat, Owner>,
                       root: nat, but: set<Owner>) {
    forall p | p in owner && BelongsTo(owner[p], root) && owner[p] !in but ::
      p in owner' && owner'[p] == owner[p] && (p in mem ==> p in mem' && Same(mem'[p], mem[p]))
  }

  lemma MidKeep(mem: map<nat, Page>, owner: map<nat, Owner>, mem': map<nat, Page>, owner': map<nat, Owner>, root: nat,
                s: Space, s': Space, i: nat, but: set<Owner>)
    requires i in s.l1 && MidNodeOk(mem, owner, root, s, i)
    requires i in s'.l1 && s'.l1[i] == s.l1[i] && Same(MidRow(s'.l0, i), MidRow(s.l0, i))
    requires Kept(mem, owner, mem', owner', root, but) && Mid(root, i) !in but
    ensures MidNodeOk(mem', owner', root, s', i)
  {
  }

  lemma LowKeep(mem: map<nat, Page>, owner: map<nat, Owner>, mem': map<nat, Page>, owner': map<nat, Owner>, root: nat,
                s: Space, s': Space, k: Region, but: set<Owner>)
    requires k in s.l0 && LowNodeOk(mem, owner, root, s, k)
    requires k in s'.l0 && s'.l0[k] == s.l0[k] && Same(LowRow(s'.leaves, k), LowRow(s.leaves, k))
    requires forall i | i in s.l1 :: i in s'.l1
    requires Kept(mem, owner, mem', owner', root, but) && Low(root, k) !in but
    ensures LowNodeOk(mem', owner', root, s', k)
  {
  }

  lemma LeafKeep(mem: map<nat, Page>, owner: map<nat, Owner>, mem': map<nat, Page>, owner': map<nat, Owner>, root: nat,
                 s: Space, s': Space, v: Vpn, but: set<Owner>)
    requires v in s.leaves && LeafOk(owner, root, s, v)
    requires v in s'.leaves && s'.leaves[v] == s.leaves[v]
    requires forall k | k in s.l0 :: k in s'.l0
    requires Kept(mem, owner, mem', owner', root, but) && User(root, v) !in but
    ensures LeafOk(owner', root, s', v)
  {
  }

  lemma MidsKeep(mem: map<nat, Page>, owner: map<nat, Owner>, mem': map<nat, Page>, owner': map<nat, Owner>, root: nat,
                 s: Space, s': Space, but: set<Owner>)
    requires SpaceOk(mem, owner, root, s)
    requires s'.l0 == s.l0 && (forall i | i in s.l1 :: i in s'.l1 && s'.l1[i] == s.l1[i])
    requires Kept(mem, owner, mem', owner', root, but) && (forall o | o in but :: !o.Mid?)
    ensures forall i {:trigger MidNodeOk(mem', owner', root, s', i)} | i in s.l1 :: MidNodeOk(mem', owner', root, s', i)
  {
    forall i | i in s.l1 ensures MidNodeOk(mem', owner', root, s', i) {
      MidKeep(mem, owner, mem', owner', root, s, s', i, but);
    }
  }

  lemma LowsKeep(mem: map<nat, Page>, owner: map<nat, Owner>, mem': map<nat, Page>, owner': map<nat, Owner>, root: nat,
                 s: Space, s': Space, but: set<Owner>)
    requires SpaceOk(mem, owner, root, s)
    requires s'.leaves == s.leaves && (forall k | k in s.l0 :: k in s'.l0 && s'.l0[k] == s.l0[k])
    requires forall i | i in s.l1 :: i in s'.l1
    requires Kept(mem, owner, mem', owner', root, but) && (forall o | o in but :: !o.Low?)
    ensures forall k {:trigger LowNodeOk(mem', owner', root, s', k)} | k in s.l0 :: LowNodeOk(mem', owner', root, s', k)
  {
    forall k | k in s.l0 ensures LowNodeOk(mem', owner', root, s', k) {
      LowKeep(mem, owner, mem', owner', root, s, s', k, but);
    }
  }

  lemma LeavesKeep(mem: map<nat, Page>, owner: map<nat, Owner>, mem': map<nat, Page>, owner': map<nat, Owner>,
                   root: nat, s: Space, s': Space, but: set<Owner>)
    requires SpaceOk(mem, owner, root, s)
    requires s'.leaves == s.leaves && (forall k | k in s.l0 :: k in s'.l0)
    requires Kept(mem, owner, mem', owner', root, but) && (forall o | o in but :: !o.User?)
    ensures forall v {:trigger LeafOk(owner', root, s', v)} | v in s.leaves :: LeafOk(owner', root, s', v)
  {
    forall v | v in s.leaves ensures LeafOk(owner', root, s', v) {
      LeafKeep(mem, owner, mem', owner', root, s, s', v, but);
    }
  }

  lemma SpaceFrame(mem: map<nat, Page>, owner: map<nat, Owner>, mem': map<nat, Page>, owner': map<nat, Owner>,
                   root: nat, s: Space)
    requires SpaceOk(mem, owner, root, s)
    requires Kept(mem, owner, mem', owner', root, {})
    ensures SpaceOk(mem', owner', root, s)
  {
    MidsKeep(mem, owner, mem', owner', root, s, s, {});
    LowsKeep(mem, owner, mem', owner', root, s, s, {});
    LeavesKeep(mem, owner, mem', owner', root, s, s, {});
  }

  // ---- how one new entry changes the rows ----

  lemma TopRowSet(l1: map<nat, nat>, i: nat, p: nat)
    requires i < NPTE
    ensures TopRow(l1[i := p]) == TopRow(l1)[i := Pte(p, NODE)]
  {
  }

  lemma MidRowSet(l0: map<Region, nat>, k: Region, p: nat, i: nat)
    requires k.j < NPTE
    ensures MidRow(l0[k := p], i) == if i == k.i then MidRow(l0, i)[k.j := Pte(p, NODE)] else MidRow(l0, i)
  {
  }

  lemma LowRowSet(leaves: map<Vpn, Pte>, leaves': map<Vpn, Pte>, v: Vpn, k: Region)
    requires v.m < NPTE
    requires forall u | u != v :: LeafPte(leaves', u) == LeafPte(leaves, u)
    ensures LowRow(leaves', k) == if k == v.k then LowRow(leaves, k)[v.m := LeafPte(leaves', v)] else LowRow(leaves, k)
  {
    var r := if k == v.k then LowRow(leaves, k)[v.m := LeafPte(leaves', v)] else LowRow(leaves, k);
    forall m | 0 <= m < NPTE ensures LowRow(leaves', k)[m] == r[m] {
      if Vpn(k, m) != v { assert LeafPte(leaves', Vpn(k, m)) == LeafPte(leaves, Vpn(k, m)); }
    }
  }

  // ---- the updates the kernel makes inside one space ----

  /** walk at level 2: a free page becomes the node for region i. */
  lemma AttachMid(mem: map<nat, Page>, owner: map<nat, Owner>, mem': map<nat, Page>, owner': map<nat, Owner>,
                  root: nat, s: Space, s': Space, i: nat, p: nat)
    requires SpaceOk(mem, owner, root, s) && i < NPTE && i !in s.l1
    requires p in mem && p in owner && !BelongsTo(owner[p], root)
    requires mem' == mem[p := Ptes(EmptyTable())][root := Ptes(TopRow(s.l1)[i := Pte(p, NODE)])]
    requires owner' == owner[p := Mid(root, i)] && s' == s.(l1 := s.l1[i := p])
    ensures SpaceOk(mem', owner', root, s')
  {
    var but := {Root(root)};
    assert Kept(mem, owner, mem', owner', root, but);
    TopRowSet(s.l1, i, p);
    EmptyMid(mem, owner, root, s, i);
    assert MidNodeOk(mem', owner', root, s', i);
    MidsKeep(mem, owner, mem', owner', root, s, s', but);
    LowsKeep(mem, owner, mem', owner', root, s, s', but);
    LeavesKeep(mem, owner, mem', owner', root, s, s', but);
  }

  lemma EmptyMid(mem: map<nat, Page>, owner: map<nat, Owner>, root: nat, s: Space, i: nat)
    requires SpaceOk(mem, owner, root, s) && i !in s.l1
    ensures MidRow(s.l0, i) == EmptyTable()
  {
    forall k | k in s.l0 ensures k.i != i { assert LowNodeOk(mem, owner, root, s, k); }
  }

  lemma EmptyLow(mem: map<nat, Page>, owner: map<nat, Owner>, root: nat, s: Space, k: Region)
    requires SpaceOk(mem, owner, root, s) && k !in s.l0
    ensures LowRow(s.leaves, k) == EmptyTable()
  {
    forall v | v in s.leaves ensures v.k != k { assert LeafOk(owner, root, s, v); }
  }

  /** walk at level 1: a free page becomes the node for region k. */
  lemma AttachLow(mem: map<nat, Page>, owner: map<nat, Owner>, mem': map<nat, Page>, owner': map<nat, Owner>,
                  root: nat, s: Space, s': Space, k: Region, p: nat)
    requires SpaceOk(mem, owner, root, s) && k.i in s.l1 && k !in s.l0 && k.j < NPTE
    requires p in mem && p in owner && !BelongsTo(owner[p], root)
    requires mem' == mem[p := Ptes(EmptyTable())][s.l1[k.i] := Ptes(MidRow(s.l0, k.i)[k.j := Pte(p, NODE)])]
    requires owner' == owner[p := Low(root, k)] && s' == s.(l0 := s.l0[k := p])
    ensures SpaceOk(mem', owner', root, s')
  {
    assert MidNodeOk(mem, owner, root, s, k.i);
    var but := {Mid(root, k.i)};
    assert Kept(mem, owner, mem', owner', root, but);
    EmptyLow(mem, owner, root, s, k);
    forall j | j in s.l1 ensures MidNodeOk(mem', owner', root, s', j) {
      MidRowSet(s.l0, k, p, j);
      if j == k.i {
        assert MidNodeOk(mem', owner', root, s', j);
      } else {
        MidKeep(mem, owner, mem', owner', root, s, s', j, but);
      }
    }
    assert LowNodeOk(mem', owner', root, s', k);
    LowsKeep(mem, owner, mem', owner', root, s, s', but);
    LeavesKeep(mem, owner, mem', owner', root, s, s', but);
  }

  /** The low node of page v takes a new entry for v: mappages and uvmunmap. */
  lemma SetLeaf(mem: map<nat, Page>, owner: map<nat, Owner>, mem': map<nat, Page>, owner': map<nat, Owner>, root: nat,
                s: Space, s': Space, v: Vpn)
    requires SpaceOk(mem, owner, root, s) && v.k in s.l0 && v.m < NPTE
    requires s'.l1 == s.l1 && s'.l0 == s.l0
    requires forall u | u != v :: (u in s'.leaves <==> u in s.leaves) && LeafPte(s'.leaves, u) == LeafPte(s.leaves, u)
    requires mem' == mem[s.l0[v.k] := Ptes(LowRow(s.leaves, v.k)[v.m := LeafPte(s'.leaves, v)])]
    requires forall p | p in owner && BelongsTo(owner[p], root) && owner[p] != User(root, v) ::
               p in owner' && owner'[p] == owner[p]
    requires v in s'.leaves ==> LeafOk(owner', root, s', v)
    ensures SpaceOk(mem', owner', root, s')
  {
    assert LowNodeOk(mem, owner, root, s, v.k);
    var but := {Low(root, v.k), User(root, v)};
    assert Kept(mem, owner, mem', owner', root, but);
    MidsKeep(mem, owner, mem', owner', root, s, s', but);
    forall k | k in s.l0 ensures LowNodeOk(mem', owner', root, s', k) {
      LowRowSet(s.leaves, s'.leaves, v, k);
      if k != v.k {
        LowKeep(mem, owner, mem', owner', root, s, s', k, but);
      }
    }
    forall u | u in s'.leaves ensures LeafOk(owner', root, s', u) {
      if u != v {
        assert LeafPte(s'.leaves, u) == LeafPte(s.leaves, u);
        LeafKeep(mem, owner, mem', owner', root, s, s', u, but);
      }
    }
  }
}
