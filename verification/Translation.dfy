/** The address translation the hardware performs, against the finite map the
    kernel means. */
module Translation {
  import opened Sv39
  import opened PageState
  import opened PageTable

  datatype Outcome = Fault | Leaf(level: nat, entry: Pte)

  /** Steps 1 to 5 of the Sv39 translation process (section 4.3.2 of the RISC-V
      Privileged Architecture): an invalid or reserved entry faults, a readable
      or executable one is a leaf, and any other one points to the next level. */
  ghost function HwWalk(mem: map<nat, Page>, table: nat, va: nat, level: nat): Outcome
    requires level <= 2
    decreases level
  {
    if table !in mem || !mem[table].Ptes? || |mem[table].ptes| != NPTE then Fault
    else
      var e := mem[table].ptes[PX(level, va)];
      if e.Zero? || (!e.perm.r && e.perm.w) then Fault
      else if e.perm.r || e.perm.x then Leaf(level, e)
      else if level == 0 then Fault
      else HwWalk(mem, e.ppn, va, level - 1)
  }

  predicate Loadable(p: Perm) { if p.r then true else p.x && !p.w }

  /** The three-level tree means exactly the leaf map: the hardware finds an
      address mapped, by a level-0 entry, if and only if the map has its page
      with a usable permission, and then finds that entry. */
  lemma HwWalkIsMap(s: St, root: nat, va: nat)
    requires Good(s) && root in s.spaces && va < MAXVA
    ensures HwWalk(s.mem, root, va, 2) ==
            if VpnOf(va) in s.spaces[root].leaves && s.spaces[root].leaves[VpnOf(va)].Pte?
               && Loadable(s.spaces[root].leaves[VpnOf(va)].perm)
            then Leaf(0, s.spaces[root].leaves[VpnOf(va)]) else Fault
  {
    var v, a := VpnOf(va), s.spaces[root];
    PathNamesPage(va);
    EntryLeaf(s, root, v);
    EntryAt(s, root, v, 2, root);
    if v.k.i in a.l1 {
      EntryAt(s, root, v, 1, a.l1[v.k.i]);
    }
    if v.k in a.l0 {
      assert SpaceAt(s, root);
      assert LowNodeOk(s.mem, s.owner, root, a, v.k);
    }
    Levels(s, root, v);
  }

  lemma Levels(s: St, root: nat, v: Vpn)
    requires Good(s) && root in s.spaces && Canonical(v)
    ensures var a := s.spaces[root];
            && root in s.mem && s.mem[root] == Ptes(TopRow(a.l1))
            && (v.k.i in a.l1 ==> a.l1[v.k.i] in s.mem && s.mem[a.l1[v.k.i]] == Ptes(MidRow(a.l0, v.k.i)))
            && (v.k in a.l0 ==> v.k.i in a.l1 && a.l0[v.k] in s.mem && s.mem[a.l0[v.k]] == Ptes(LowRow(a.leaves, v.k)))
            && (v in a.leaves ==> v.k in a.l0 && a.leaves[v].Pte?)
  {
    var a := s.spaces[root];
    assert SpaceAt(s, root);
    if v.k.i in a.l1 { assert MidNodeOk(s.mem, s.owner, root, a, v.k.i); }
    if v.k in a.l0 { assert LowNodeOk(s.mem, s.owner, root, a, v.k); }
    if v in a.leaves { assert LeafOk(s.owner, root, a, v); }
  }
}
