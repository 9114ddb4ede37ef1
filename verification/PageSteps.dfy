/** The steps the kernel takes on memory, as functions and relations on the
    whole state, and the proof that each keeps the ownership invariant. */
module PageSteps {
  import opened Common
  import opened Sv39
  import opened PageState

  // ---- page allocator ----

  function Junk(b: byte): (r: seq<byte>)
    ensures |r| == PGSIZE
  {
    seq(PGSIZE, _ => b)
  }

  /** kalloc on a non-empty list. */
  ghost function Taken(s: St): St
    requires s.freelist in s.mem && s.mem[s.freelist].Run? && s.free != []
  {
    var p := s.freelist;
    s.(freelist := s.mem[p].next, free := s.free[1..], mem := s.mem[p := Bytes(Junk(5))], owner := s.owner[p := Held])
  }

  ghost function Freed(s: St, p: nat): St {
    s.(freelist := p, free := [p] + s.free, mem := s.mem[p := Run(s.freelist)], owner := s.owner[p := Free])
  }

  lemma {:induction false} ThreadedKeep(mem: map<nat, Page>, owner: map<nat, Owner>, mem': map<nat, Page>,
                                        owner': map<nat, Owner>, head: nat, free: seq<nat>)
    requires Threaded(mem, owner, head, free)
    requires forall p | p in free && p in mem && p in owner && owner[p] == Free ::
               p in mem' && p in owner' && owner'[p] == Free && Same(mem'[p], mem[p])
    ensures Threaded(mem', owner', head, free)
    decreases free
  {
    if free != [] {
      ThreadedKeep(mem, owner, mem', owner', mem[head].next, free[1..]);
    }
  }

  lemma {:induction false} ThreadedFree(mem: map<nat, Page>, owner: map<nat, Owner>, head: nat, free: seq<nat>)
    requires Threaded(mem, owner, head, free)
    ensures forall p | p in free :: p in owner && owner[p] == Free
    decreases free
  {
    if free != [] {
      ThreadedFree(mem, owner, mem[head].next, free[1..]);
      assert free == [head] + free[1..];
    }
  }

  lemma TakenFreeOk(s: St)
    requires FreeOk(s) && s.free != []
    ensures s.freelist in s.mem && s.mem[s.freelist].Run? && s.owner[s.freelist] == Free
    ensures FreeOk(Taken(s))
  {
    var p := s.freelist;
    var t := Taken(s);
    assert s.free == [p] + s.free[1..];
    ThreadedKeep(s.mem, s.owner, t.mem, t.owner, s.mem[p].next, s.free[1..]);
  }

  lemma FreedFreeOk(s: St, p: nat)
    requires FreeOk(s) && p in s.mem && s.owner[p] != Free
    ensures FreeOk(Freed(s, p))
  {
    var t := Freed(s, p);
    ThreadedFree(s.mem, s.owner, s.freelist, s.free);
    ThreadedKeep(s.mem, s.owner, t.mem, t.owner, s.freelist, s.free);
    assert t.free[1..] == s.free;
  }

  // ---- changes inside one address space ----

  /** Pages of other spaces are untouched. */
  ghost predicate OthersKept(s: St, t: St, root: nat) {
    forall r, p {:trigger BelongsTo(s.owner[p], r)} | r != root && p in s.owner && BelongsTo(s.owner[p], r) ::
      p in t.owner && t.owner[p] == s.owner[p] && (p in s.mem ==> p in t.mem && Same(t.mem[p], s.mem[p]))
  }

  lemma OthersOk(s: St, t: St, root: nat, r: nat)
    requires Good(s) && OthersKept(s, t, root) && r != root
    requires r in s.spaces && r in t.spaces && t.spaces[r] == s.spaces[r]
    ensures SpaceAt(t, r)
  {
    assert SpaceAt(s, r);
    assert Kept(s.mem, s.owner, t.mem, t.owner, r, {});
    SpaceFrame(s.mem, s.owner, t.mem, t.owner, r, s.spaces[r]);
  }

  lemma AllOk(s: St, t: St, root: nat)
    requires Good(s) && OthersKept(s, t, root) && FreeOk(t)
    requires forall r | r in t.spaces && r != root :: r in s.spaces && t.spaces[r] == s.spaces[r]
    requires root in t.spaces ==> SpaceAt(t, root)
    requires forall p | p in t.owner :: OwnerOk(t, p)
    ensures Good(t)
  {
    forall r | r in t.spaces ensures SpaceAt(t, r) {
      if r != root { OthersOk(s, t, root, r); }
    }
  }

  /** What walk may do when it allocates: free pages become tables of `root`. */
  ghost predicate Grew(s: St, t: St, root: nat)
    requires root in s.spaces
  {
    && t.mem.Keys == s.mem.Keys && t.owner.Keys == s.owner.Keys
    && root in t.spaces && t.spaces == s.spaces[root := t.spaces[root]]
    && t.spaces[root].leaves == s.spaces[root].leaves
    && (forall i | i in s.spaces[root].l1 :: i in t.spaces[root].l1)
    && (forall k | k in s.spaces[root].l0 :: k in t.spaces[root].l0)
    && (forall p {:trigger t.owner[p]} | p in s.owner :: GrewAt(s, t, root, p))
  }

  ghost predicate GrewAt(s: St, t: St, root: nat, p: nat)
    requires p in s.owner
  {
    && p in t.owner
    && (s.owner[p] == Free ==> t.owner[p] == Free || TableOf(t.owner[p], root))
    && (s.owner[p] != Free ==> t.owner[p] == s.owner[p])
    && (s.owner[p] != Free && !TableOf(s.owner[p], root) ==> p in s.mem && p in t.mem && Same(t.mem[p], s.mem[p]))
  }

  lemma GrewTrans(s: St, t: St, u: St, root: nat)
    requires root in s.spaces && Grew(s, t, root) && Grew(t, u, root)
    ensures Grew(s, u, root)
  {
    forall p | p in s.owner ensures GrewAt(s, u, root, p) {
      assert GrewAt(s, t, root, p) && GrewAt(t, u, root, p);
    }
  }

  lemma GrewRefl(s: St, root: nat)
    requires root in s.spaces && s.mem.Keys == s.owner.Keys
    ensures Grew(s, s, root)
  {
    forall p | p in s.owner ensures GrewAt(s, s, root, p) { }
  }

  // The states after walk has hung a fresh node under `root`.

  ghost function WithMid(s: St, root: nat, i: nat): St
    requires s.freelist in s.mem && s.mem[s.freelist].Run? && s.free != [] && root in s.spaces && i < NPTE
  {
    var p := s.freelist;
    var u := Taken(s);
    var a := u.spaces[root];
    u.(mem := u.mem[p := Ptes(EmptyTable())][root := Ptes(TopRow(a.l1)[i := Pte(p, NODE)])],
       owner := u.owner[p := Mid(root, i)],
       spaces := u.spaces[root := a.(l1 := a.l1[i := p])])
  }

  ghost function WithLow(s: St, root: nat, k: Region): St
    requires s.freelist in s.mem && s.mem[s.freelist].Run? && s.free != [] && root in s.spaces
    requires k.i in s.spaces[root].l1 && k.j < NPTE
  {
    var p := s.freelist;
    var u := Taken(s);
    var a := u.spaces[root];
    u.(mem := u.mem[p := Ptes(EmptyTable())][a.l1[k.i] := Ptes(MidRow(a.l0, k.i)[k.j := Pte(p, NODE)])],
       owner := u.owner[p := Low(root, k)],
       spaces := u.spaces[root := a.(l0 := a.l0[k := p])])
  }

  lemma TakenGood(s: St)
    requires Good(s) && s.free != []
    ensures s.freelist in s.mem && s.mem[s.freelist].Run? && s.owner[s.freelist] == Free
    ensures Good(Taken(s))
  {
    TakenFreeOk(s);
    var t := Taken(s);
    forall r | r in t.spaces ensures SpaceAt(t, r) {
      assert SpaceAt(s, r);
      assert Kept(s.mem, s.owner, t.mem, t.owner, r, {});
      SpaceFrame(s.mem, s.owner, t.mem, t.owner, r, s.spaces[r]);
    }
    forall p | p in t.owner ensures OwnerOk(t, p) {
      assert OwnerOk(s, p);
    }
  }

  lemma FreedGood(s: St, p: nat)
    requires Good(s) && p in s.owner && s.owner[p] == Held
    ensures Good(Freed(s, p))
  {
    FreedFreeOk(s, p);
    var t := Freed(s, p);
    forall r | r in t.spaces ensures SpaceAt(t, r) {
      assert SpaceAt(s, r);
      assert Kept(s.mem, s.owner, t.mem, t.owner, r, {});
      SpaceFrame(s.mem, s.owner, t.mem, t.owner, r, s.spaces[r]);
    }
    forall q | q in t.owner ensures OwnerOk(t, q) {
      assert OwnerOk(s, q);
    }
  }

  /** The free list is untouched. */
  ghost predicate FreeSame(u: St, t: St) {
    && t.freelist == u.freelist && t.free == u.free
    && t.mem.Keys == u.mem.Keys && t.owner.Keys == u.owner.Keys
    && (forall q {:trigger t.owner[q]} | q in u.owner && q in t.owner :: FreeSameAt(u, t, q))
  }

  ghost predicate FreeSameAt(u: St, t: St, q: nat)
    requires q in u.owner && q in t.owner
  {
    && (t.owner[q] == Free <==> u.owner[q] == Free)
    && (u.owner[q] == Free ==> q in u.mem && q in t.mem && Same(t.mem[q], u.mem[q]))
  }

  lemma FreeKeep(u: St, t: St)
    requires FreeOk(u) && FreeSame(u, t)
    ensures FreeOk(t)
  {
    ThreadedFree(u.mem, u.owner, u.freelist, u.free);
    forall p | p in u.free && p in u.mem && p in u.owner && u.owner[p] == Free
      ensures p in t.mem && p in t.owner && t.owner[p] == Free && Same(t.mem[p], u.mem[p])
    {
      assert FreeSameAt(u, t, p);
    }
    ThreadedKeep(u.mem, u.owner, t.mem, t.owner, u.freelist, u.free);
    forall p | p in t.owner && t.owner[p] == Free ensures p in t.free {
      assert FreeSameAt(u, t, p);
    }
  }

  /** Spaces gained nodes and lost none; no leaf changed. */
  ghost predicate MoreNodes(a: Space, b: Space) {
    && (forall i | i in a.l1 :: i in b.l1 && b.l1[i] == a.l1[i])
    && (forall k | k in a.l0 :: k in b.l0 && b.l0[k] == a.l0[k])
    && b.leaves == a.leaves
  }

  lemma OwnerKeep(u: St, t: St, root: nat, q: nat)
    requires q in u.owner && OwnerOk(u, q) && q in t.owner && t.owner[q] == u.owner[q]
    requires root in u.spaces && root in t.spaces && t.spaces == u.spaces[root := t.spaces[root]]
    requires MoreNodes(u.spaces[root], t.spaces[root])
    requires u.owner[q].User? && q in u.mem ==> q in t.mem && Same(t.mem[q], u.mem[q])
    ensures OwnerOk(t, q)
  {
  }

  lemma WithMidGood(s: St, root: nat, i: nat)
    requires Good(s) && s.free != [] && root in s.spaces && i < NPTE && i !in s.spaces[root].l1
    ensures s.freelist in s.mem && s.mem[s.freelist].Run?
    ensures Good(WithMid(s, root, i)) && Grew(s, WithMid(s, root, i), root)
  {
    TakenGood(s);
    var u := Taken(s);
    var t := WithMid(s, root, i);
    var p := s.freelist;
    assert SpaceAt(u, root) && u.owner[root] == Root(root);
    AttachMid(u.mem, u.owner, t.mem, t.owner, root, u.spaces[root], t.spaces[root], i, p);
    NewTableGood(u, t, root, p, root);
    NewTableGrew(s, t, root, p, root);
  }

  /** Common to both levels: page `p`, just taken, is now a table of `root`, and
      of the other pages only the parent table `q` changed. */
  ghost predicate NewTable(u: St, t: St, root: nat, p: nat, q: nat) {
    && p in u.owner && u.owner[p] == Held
    && q in u.owner && TableOf(u.owner[q], root)
    && p in t.owner && TableOf(t.owner[p], root)
    && t.owner == u.owner[p := t.owner[p]]
    && t.freelist == u.freelist && t.free == u.free
    && p in t.mem && q in t.mem && t.mem == u.mem[p := t.mem[p]][q := t.mem[q]]
    && root in u.spaces && root in t.spaces && t.spaces == u.spaces[root := t.spaces[root]]
    && MoreNodes(u.spaces[root], t.spaces[root])
  }

  lemma NewTableGood(u: St, t: St, root: nat, p: nat, q: nat)
    requires Good(u) && NewTable(u, t, root, p, q) && OwnerOk(t, p) && SpaceAt(t, root)
    ensures Good(t)
  {
    hide SpaceOk;
    forall o | o in u.owner && o in t.owner ensures FreeSameAt(u, t, o) { }
    FreeKeep(u, t);
    forall o | o in t.owner ensures OwnerOk(t, o) {
      if o != p { OwnerKeep(u, t, root, o); }
    }
    NewTableOthers(u, t, root, p, q);
    AllOk(u, t, root);
  }

  lemma NewTableOthers(u: St, t: St, root: nat, p: nat, q: nat)
    requires NewTable(u, t, root, p, q)
    ensures OthersKept(u, t, root)
  {
  }

  lemma NewTableGrew(s: St, t: St, root: nat, p: nat, q: nat)
    requires Good(s) && root in s.spaces && s.free != []
    requires p == s.freelist && p in s.mem && s.mem[p].Run? && s.owner[p] == Free && NewTable(Taken(s), t, root, p, q)
    ensures Grew(s, t, root)
  {
    forall o | o in s.owner ensures GrewAt(s, t, root, o) { }
  }

  lemma LowIsNew(s: St, root: nat, k: Region)
    requires s.free != [] && s.freelist in s.mem && s.mem[s.freelist].Run? && s.freelist in s.owner
    requires root in s.spaces && k.i in s.spaces[root].l1 && k !in s.spaces[root].l0 && k.j < NPTE
    requires MidNodeOk(Taken(s).mem, Taken(s).owner, root, s.spaces[root], k.i)
    ensures var t := WithLow(s, root, k);
            NewTable(Taken(s), t, root, s.freelist, s.spaces[root].l1[k.i]) && OwnerOk(t, s.freelist)
  {
  }

  lemma WithLowGood(s: St, root: nat, k: Region)
    requires Good(s) && s.free != [] && root in s.spaces && k.i in s.spaces[root].l1 && k !in s.spaces[root].l0
             && k.j < NPTE
    ensures s.freelist in s.mem && s.mem[s.freelist].Run?
    ensures Good(WithLow(s, root, k)) && Grew(s, WithLow(s, root, k), root)
  {
    TakenGood(s);
    var u := Taken(s);
    var t := WithLow(s, root, k);
    var p := s.freelist;
    assert SpaceAt(u, root);
    assert MidNodeOk(u.mem, u.owner, root, u.spaces[root], k.i);
    AttachLow(u.mem, u.owner, t.mem, t.owner, root, u.spaces[root], t.spaces[root], k, p);
    LowIsNew(s, root, k);
    hide WithLow;
    hide SpaceOk;
    hide MidNodeOk;
    NewTableGood(u, t, root, p, u.spaces[root].l1[k.i]);
    NewTableGrew(s, t, root, p, u.spaces[root].l1[k.i]);
  }

  // ---- one leaf ----

  /** mappages writes one entry. */
  ghost function WithLeaf(s: St, root: nat, v: Vpn, e: Pte): St
    requires root in s.spaces && v.k in s.spaces[root].l0 && v.m < NPTE && e.Pte?
  {
    var a := s.spaces[root];
    s.(mem := s.mem[a.l0[v.k] := Ptes(LowRow(a.leaves, v.k)[v.m := e])],
       owner := if IsUser(v) then s.owner[e.ppn := User(root, v)] else s.owner,
       spaces := s.spaces[root := a.(leaves := a.leaves[v := e])])
  }

  /** uvmunmap clears one entry; a user page goes back to the caller. */
  ghost function WithoutLeaf(s: St, root: nat, v: Vpn): St
    requires root in s.spaces && v.k in s.spaces[root].l0 && v.m < NPTE && v in s.spaces[root].leaves
             && s.spaces[root].leaves[v].Pte?
  {
    var a := s.spaces[root];
    s.(mem := s.mem[a.l0[v.k] := Ptes(LowRow(a.leaves, v.k)[v.m := Zero])],
       owner := if IsUser(v) then s.owner[a.leaves[v].ppn := Held] else s.owner,
       spaces := s.spaces[root := a.(leaves := a.leaves - {v})])
  }

  /** A page the caller holds and can give to a process. */
  ghost predicate HeldFrame(s: St, p: nat) {
    p in s.owner && s.owner[p] == Held && p in s.mem && s.mem[p].Bytes? && |s.mem[p].bytes| == PGSIZE
  }

  /** Between `s` and `t` one leaf of `root` changed; `p` is its page. */
  ghost predicate LeafStep(s: St, t: St, root: nat, v: Vpn, p: nat) {
    && root in s.spaces && root in t.spaces && t.spaces == s.spaces[root := t.spaces[root]]
    && t.spaces[root].l1 == s.spaces[root].l1 && t.spaces[root].l0 == s.spaces[root].l0
    && (forall u | u != v ::
           (u in t.spaces[root].leaves <==> u in s.spaces[root].leaves)
           && LeafPte(t.spaces[root].leaves, u) == LeafPte(s.spaces[root].leaves, u))
    && v.k in s.spaces[root].l0 && v.m < NPTE
    && s.spaces[root].l0[v.k] in t.mem && t.mem == s.mem[s.spaces[root].l0[v.k] := t.mem[s.spaces[root].l0[v.k]]]
    && (if IsUser(v) then
           p in s.owner && p in t.owner && t.owner == s.owner[p := t.owner[p]] && s.owner[p] in {Held, User(root, v)}
           && t.owner[p] in {Held, User(root, v)}
        else t.owner == s.owner)
    && t.freelist == s.freelist && t.free == s.free
  }

  lemma LeafStepFree(s: St, t: St, root: nat, v: Vpn, p: nat)
    requires Good(s) && LeafStep(s, t, root, v, p)
    ensures FreeOk(t)
  {
    assert SpaceAt(s, root);
    assert LowNodeOk(s.mem, s.owner, root, s.spaces[root], v.k);
    forall o | o in s.owner && o in t.owner ensures FreeSameAt(s, t, o) { }
    FreeKeep(s, t);
  }

  lemma LeafStepOwner(s: St, t: St, root: nat, v: Vpn, p: nat, q: nat)
    requires LeafStep(s, t, root, v, p) && q in s.owner && OwnerOk(s, q) && SpaceAt(s, root)
    requires q != p || !IsUser(v)
    requires s.owner[q] != User(root, v)
    ensures q in t.owner && t.owner[q] == s.owner[q] && OwnerOk(t, q)
  {
    assert LowNodeOk(s.mem, s.owner, root, s.spaces[root], v.k);
    if s.owner[q].User? && s.owner[q].root == root {
      var u := s.owner[q].vpn;
      assert LeafPte(t.spaces[root].leaves, u) == LeafPte(s.spaces[root].leaves, u);
    }
  }

  lemma LeafStepOthers(s: St, t: St, root: nat, v: Vpn, p: nat)
    requires LeafStep(s, t, root, v, p) && SpaceAt(s, root)
    ensures OthersKept(s, t, root)
  {
    assert LowNodeOk(s.mem, s.owner, root, s.spaces[root], v.k);
  }

  lemma LeafStepGood(s: St, t: St, root: nat, v: Vpn, p: nat)
    requires Good(s) && LeafStep(s, t, root, v, p) && SpaceAt(t, root)
    requires IsUser(v) ==> OwnerOk(t, p)
    requires forall q | q in s.owner && s.owner[q] == User(root, v) :: q == p && IsUser(v)
    ensures Good(t)
  {
    assert SpaceAt(s, root);
    LeafStepFree(s, t, root, v, p);
    LeafStepOthers(s, t, root, v, p);
    forall q | q in t.owner ensures OwnerOk(t, q) {
      if q != p || !IsUser(v) {
        assert OwnerOk(s, q);
        LeafStepOwner(s, t, root, v, p, q);
      }
    }
    AllOk(s, t, root);
  }

  lemma WithLeafGood(s: St, root: nat, v: Vpn, e: Pte)
    requires Good(s) && root in s.spaces && v.k in s.spaces[root].l0 && v !in s.spaces[root].leaves
    requires Canonical(v) && e.Pte? && (if IsUser(v) then HeldFrame(s, e.ppn) else !e.perm.u)
    ensures Good(WithLeaf(s, root, v, e))
  {
    var t := WithLeaf(s, root, v, e);
    assert SpaceAt(s, root);
    assert LowNodeOk(s.mem, s.owner, root, s.spaces[root], v.k);
    assert LeafStep(s, t, root, v, e.ppn);
    SetLeaf(s.mem, s.owner, t.mem, t.owner, root, s.spaces[root], t.spaces[root], v);
    assert forall q | q in s.owner && s.owner[q] == User(root, v) :: !OwnerOk(s, q);
    LeafStepGood(s, t, root, v, e.ppn);
  }

  lemma WithoutLeafGood(s: St, root: nat, v: Vpn)
    requires Good(s) && root in s.spaces && v in s.spaces[root].leaves
    ensures LeafOk(s.owner, root, s.spaces[root], v)
    ensures Good(WithoutLeaf(s, root, v))
  {
    assert SpaceAt(s, root);
    assert LeafOk(s.owner, root, s.spaces[root], v);
    var t := WithoutLeaf(s, root, v);
    var p := s.spaces[root].leaves[v].ppn;
    assert LowNodeOk(s.mem, s.owner, root, s.spaces[root], v.k);
    assert LeafStep(s, t, root, v, p);
    SetLeaf(s.mem, s.owner, t.mem, t.owner, root, s.spaces[root], t.spaces[root], v);
    forall q | q in s.owner && s.owner[q] == User(root, v) ensures q == p && IsUser(v) {
      assert OwnerOk(s, q);
    }
    LeafStepGood(s, t, root, v, p);
  }

  /** Storing bytes in a page that is held, or in a mapped user page. */
  lemma FillGood(s: St, p: nat, bytes: seq<byte>)
    requires Good(s) && p in s.owner && (s.owner[p].Held? || s.owner[p].User?) && |bytes| == PGSIZE
    ensures Good(s.(mem := s.mem[p := Bytes(bytes)]))
  {
    var t := s.(mem := s.mem[p := Bytes(bytes)]);
    ThreadedFree(s.mem, s.owner, s.freelist, s.free);
    ThreadedKeep(s.mem, s.owner, t.mem, t.owner, s.freelist, s.free);
    forall r | r in t.spaces ensures SpaceAt(t, r) {
      FillSpace(s, t, p, bytes, r);
    }
    forall q | q in t.owner ensures OwnerOk(t, q) {
      assert OwnerOk(s, q);
    }
  }

  lemma FillSpace(s: St, t: St, p: nat, bytes: seq<byte>, r: nat)
    requires Good(s) && p in s.owner && (s.owner[p].Held? || s.owner[p].User?) && r in s.spaces
    requires t == s.(mem := s.mem[p := Bytes(bytes)])
    ensures SpaceAt(t, r)
  {
    assert SpaceAt(s, r);
    var a := s.spaces[r];
    var but := {s.owner[p]};
    assert Kept(s.mem, s.owner, t.mem, t.owner, r, but);
    MidsKeep(s.mem, s.owner, t.mem, t.owner, r, a, a, but);
    LowsKeep(s.mem, s.owner, t.mem, t.owner, r, a, a, but);
    forall v | v in a.leaves ensures LeafOk(t.owner, r, a, v) {
      assert LeafOk(s.owner, r, a, v);
    }
  }
}
