/** virtio_disk.c: the driver and, beside it, what the device does. */
module VirtioDisk {
  import opened Common
  import opened Wrappers
  import opened Virtio

  /** struct disk with the memory it shares with the device. */
  class Disk {
    var m: Mem
    ghost var k: Book

    ghost predicate Valid()
      reads this
    {
      Inv(m, k)
    }

    /** virtio_disk_init: every descriptor free, both rings empty. */
    constructor (bufs: map<nat, Buf>, platter: map<nat, Block>)
      ensures Valid() && k.chains == map[] && k.loose == {} && m.bufs == bufs && m.platter == platter
    {
      m :=
        Mem(seq(NUM, _ => true), seq(NUM, _ => CLEARED), seq(NUM, _ => Info(None, 0xff)), seq(NUM, _ => Op(false, 0)),
               seq(NUM, _ => 0), 0, seq(NUM, _ => 0), 0, 0, bufs, platter, 0, {});
      k := Book(map[], seq(NUM, _ => None), [], [], {});
    }

    /** alloc_desc: the first free descriptor, or -1. */
    method AllocDesc() returns (i: int)
      requires Valid()
      modifies this
      ensures Valid()
      ensures i < 0 ==> m == old(m) && k == old(k) && forall j: nat | j < NUM :: !m.free[j]
      ensures i >= 0 ==> i < NUM && old(m).free[i] && m == old(m).(free := old(m).free[i := false])
      ensures i >= 0 ==> k == old(k).(loose := old(k).loose + {i as nat})
    {
      i := 0;
      while i < NUM
        invariant 0 <= i <= NUM && m == old(m) && k == old(k)
        invariant forall j: nat | j < i :: !m.free[j]
      {
        if m.free[i] {
          m := m.(free := m.free[i := false]);
          k := k.(loose := k.loose + {i as nat});
          LooseInv(old(m), old(k), m, i);
          return;
        }
        i := i + 1;
      }
      i := -1;
    }

    /** free_desc of a descriptor that is in use: neither panic is reached. */
    method FreeDesc(i: nat)
      requires Valid() && i in k.loose
      modifies this
      ensures Valid() && i < NUM && !old(m).free[i]
      ensures m == old(m).(free := old(m).free[i := true], desc := old(m).desc[i := CLEARED])
      ensures k == old(k).(loose := old(k).loose - {i})
    {
      LooseBelow(m, k, i);
      m := m.(desc := m.desc[i := CLEARED]);
      m := m.(free := m.free[i := true]);
      k := k.(loose := k.loose - {i});
      FreedInv(old(m), old(k), m, i);
    }

    /** The part of alloc3_desc that gives back what it took. */
    method PutBack(idx: seq<nat>, ghost free0: seq<bool>)
      requires Valid() && k.loose == Elems(idx) && |free0| == |m.free| == |m.desc| == NUM
      requires forall a: nat, b: nat :: a < b < |idx| ==> idx[a] != idx[b]
      requires forall a: nat | a < |idx| :: idx[a] < NUM && free0[idx[a]] && m.desc[idx[a]] == CLEARED
      requires forall a: nat | a < NUM :: m.free[a] == (free0[a] && a !in idx)
      modifies this
      ensures Valid() && m == old(m).(free := free0) && k == old(k).(loose := {})
    {
      hide Inv;
      var j := 0;
      while j < |idx|
        invariant j <= |idx| && Valid() && m == old(m).(free := m.free) && |m.free| == NUM
        invariant k == old(k).(loose := Elems(idx[j..]))
        invariant forall a: nat | a < NUM :: m.free[a] == (free0[a] && a !in idx[j..])
      {
        assert idx[j..] == [idx[j]] + idx[j + 1..];
        assert m.desc[idx[j] := CLEARED] == m.desc;
        FreeDesc(idx[j]);
        Distinct(idx, j);
        j := j + 1;
      }
      assert idx[j..] == [];
      assert m.free == free0;
    }

    /** alloc3_desc: three descriptors, or none taken because fewer are free. */
    method Alloc3() returns (ok: bool, idx: seq<nat>)
      requires Valid() && k.loose == {}
      modifies this
      ensures Valid() && m == old(m).(free := m.free)
      ensures ok ==> |idx| == 3 && idx[0] != idx[1] && idx[1] != idx[2] && idx[0] != idx[2]
                     && k == old(k).(loose := {idx[0], idx[1], idx[2]})
      ensures !ok ==> m == old(m) && k == old(k) && |m.free| == NUM && FewFree(m.free)
    {
      hide Inv;
      ok, idx := true, [];
      FreeSize(m, k);
      var i := 0;
      while i < 3
        invariant i == |idx| <= 3 && Valid() && m == old(m).(free := m.free)
                  && |m.free| == |m.desc| == |old(m).free| == NUM
        invariant forall a: nat, b: nat :: a < b < i ==> idx[a] != idx[b]
        invariant forall a: nat | a < i :: idx[a] < NUM && old(m).free[idx[a]] && m.desc[idx[a]] == CLEARED
        invariant k == old(k).(loose := Elems(idx))
        invariant forall j: nat | j < NUM :: m.free[j] == (old(m).free[j] && j !in idx)
      {
        ghost var m0, k0 := m, k;
        var d := AllocDesc();
        if d < 0 {
          assert FewFree(old(m).free);
          PutBack(idx, old(m).free);
          ok := false;
          return;
        }
        AllClear(m0, k0, d);
        assert Elems(idx + [d as nat]) == Elems(idx) + {d as nat};
        idx := idx + [d as nat];
        i := i + 1;
      }
      assert Elems(idx) == {idx[0], idx[1], idx[2]};
    }

    /** free_chain: the loop follows the flags and frees each descriptor once. */
    method FreeChain(h: nat, ghost i1: nat, ghost i2: nat)
      requires Valid() && k.loose == {h, i1, i2} && h != i1 && i1 != i2 && h != i2 && h < NUM && i1 < NUM && i2 < NUM
      requires Shape(m) && m.desc[h].next? && m.desc[h].next == i1 && m.desc[i1].next? && m.desc[i1].next == i2
               && !m.desc[i2].next?
      modifies this
      ensures Valid() && k == old(k).(loose := {})
      ensures m == old(m).(free := old(m).free[h := true][i1 := true][i2 := true],
                           desc := old(m).desc[h := CLEARED][i1 := CLEARED][i2 := CLEARED])
    {
      hide Inv;
      var i := h;
      ghost var n := 0;
      while true
        invariant n < 3 && i == (if n == 0 then h else if n == 1 then i1 else i2)
        invariant Valid() && k == old(k).(loose := if n == 0 then {h, i1, i2} else if n == 1 then {i1, i2} else {i2})
        invariant m == Unchained(old(m), h, i1, n)
        decreases 3 - n
      {
        var flag := m.desc[i].next?;
        var next := m.desc[i].next;
        FreeDesc(i);
        n := n + 1;
        if flag { i := next; } else { break; }
      }
    }

    /** The stores that fill in a chain and put it in the available ring. */
    method Offer(h: nat, i1: nat, i2: nat, b: nat, write: bool, sector: nat)
      requires Valid() && OfferReady(m, k, h, i1, i2, b, sector)
      requires forall g | g in k.chains :: k.chains[g].b != b && k.chains[g].sector != sector
      modifies this
      ensures Valid() && h !in old(k).chains
      ensures k == Offering(old(k), h, i1, i2, b, write, sector, old(m).bufs[b].data)
      ensures m.bufs == old(m).bufs[b := old(m).bufs[b].(disk := true)]
    {
      hide Inv;
      hide Offering;
      var data := m.bufs[b].data;
      m := m.(ops := m.ops[h := Op(write, sector)]);
      m := m.(desc := m.desc[h := Desc(Req(h), 16, true, false, i1)]);
      m := m.(desc := m.desc[i1 := Desc(Data(b), 512, true, !write, i2)]);
      m := m.(info := m.info[h := Info(m.info[h].b, 0xff)]);
      m := m.(desc := m.desc[i2 := Desc(Status(h), 1, false, true, 0)]);
      m := m.(bufs := m.bufs[b := m.bufs[b].(disk := true)]);
      m := m.(info := m.info[h := Info(Some(b), m.info[h].status)]);
      m := m.(ring := m.ring[m.availIdx % NUM := h]);
      m := m.(availIdx := (m.availIdx + 1) % WRAP);
      assert m.info == old(m).info[h := Info(Some(b), 0xff)];
      k := Offering(k, h, i1, i2, b, write, sector, data);
      OfferInv(old(m), old(k), m, k, h, i1, i2, b, write, sector);
    }

    /** virtio_disk_rw up to the notification: a chain for the request is made
        and offered. The answer is -1 where fewer than three descriptors are
        free, and the caller sleeps. */
    method Submit(b: nat, write: bool, sector: nat) returns (h: int)
      requires Valid() && k.loose == {} && b in m.bufs && sector in m.platter
      requires forall g | g in k.chains :: k.chains[g].b != b && k.chains[g].sector != sector
      modifies this
      ensures Valid() && k.loose == {}
      ensures h < 0 ==> m == old(m) && k == old(k) && |m.free| == NUM && FewFree(m.free)
      ensures h >= 0 ==> h < NUM && h !in old(k).chains && Offers(old(k), k, h, b, write, sector, old(m).bufs[b].data)
      ensures h >= 0 ==> m.bufs == old(m).bufs[b := old(m).bufs[b].(disk := true)]
    {
      hide Inv;
      var ok, idx := Alloc3();
      if !ok { h := -1; return; }
      h := idx[0];
      LooseBelow(m, k, idx[0]); LooseBelow(m, k, idx[1]); LooseBelow(m, k, idx[2]);
      TableSizes(m, k);
      Offer(idx[0], idx[1], idx[2], b, write, sector);
    }

    // ---- the device ----

    /** The device takes the next entry of the available ring, if there is one. */
    method Fetch()
      requires Valid()
      modifies this
      ensures Valid() && m == old(m).(seen := m.seen, fetched := m.fetched)
      ensures old(m).seen == m.availIdx ==> m == old(m) && k == old(k)
      ensures old(m).seen != m.availIdx ==> |old(k).offered| > 0
      ensures old(m).seen != m.availIdx ==>
                var h := old(k).offered[0]; h in old(k).chains && k == At(old(k), h, Fetched)
    {
      hide Inv;
      IndexMeans(m, k);
      if m.seen != m.availIdx {
        var h := m.ring[m.seen % NUM];
        FetchInv(m, k);
        m := m.(seen := (m.seen + 1) % WRAP, fetched := m.fetched + {h});
        k := At(k, h, Fetched);
      }
    }

    /** The device does one request it has fetched: it follows the descriptors to
        the request, the data and the status byte, moves the block, stores status
        0, and puts the head in the used ring. */
    method Execute(h: nat)
      requires Valid() && h in m.fetched
      modifies this
      ensures Valid() && h in old(k).chains && old(k).chains[h].phase == Fetched && k == At(old(k), h, Done)
      ensures m == old(m).(bufs := m.bufs, platter := m.platter, info := m.info, usedRing := m.usedRing,
                           devIdx := m.devIdx, fetched := m.fetched)
      ensures var c := old(k).chains[h];
              && c.b in old(m).bufs && c.sector in old(m).platter
              && m.platter == (if c.write then old(m).platter[c.sector := old(m).bufs[c.b].data] else old(m).platter)
              && m.bufs == (if c.write then old(m).bufs
                            else old(m).bufs[c.b := old(m).bufs[c.b].(data := old(m).platter[c.sector])])
    {
      hide Inv;
      ExecuteInv(m, k, h);
      var d0 := m.desc[h];
      var d1 := m.desc[d0.next];
      var d2 := m.desc[d1.next];
      var op := m.ops[d0.addr.h];
      if op.write { m := m.(platter := m.platter[op.sector := m.bufs[d1.addr.b].data]); }
      else { m := m.(bufs := m.bufs[d1.addr.b := m.bufs[d1.addr.b].(data := m.platter[op.sector])]); }
      m := m.(info := m.info[d2.addr.h := m.info[d2.addr.h].(status := 0)]);
      m := m.(usedRing := m.usedRing[m.devIdx % NUM := h]);
      m := m.(devIdx := (m.devIdx + 1) % WRAP);
      m := m.(fetched := m.fetched - {h});
      k := At(k, h, Done);
    }

    /** Any number of actions of the device: None takes an entry, Some(h) does
        request h if it has been fetched. */
    method DeviceRuns(acts: seq<Option<nat>>)
      requires Valid()
      modifies this
      ensures Valid() && DeviceOnly(old(m), old(k), m, k)
    {
      hide Inv;
      hide DeviceOnly;
      DeviceNone(m, k);
      for i := 0 to |acts|
        invariant Valid() && DeviceOnly(old(m), old(k), m, k)
      {
        ghost var m1, k1 := m, k;
        if acts[i].None? { Fetch(); FetchOnly(old(m), old(k), m1, k1, m, k); }
        else if acts[i].value in m.fetched {
          Execute(acts[i].value);
          ExecuteOnly(old(m), old(k), m1, k1, m, k, acts[i].value);
        }
      }
    }

    /** complete_used_locked, with the device working beside it: at every turn it
        may act as `device` says. All that is in the used ring is consumed, in
        order, and each buffer's owner may go on. No panic is reached. */
    method CompleteUsed(device: seq<seq<Option<nat>>>)
      requires Valid()
      modifies this
      ensures Valid() && k.chains.Keys == old(k).chains.Keys && k.loose == old(k).loose && k.done == []
    {
      hide Inv;
      hide DeviceOnly;
      var turn := 0;
      while true
        invariant Valid() && k.chains.Keys == old(k).chains.Keys && k.loose == old(k).loose
        decreases Waiting(k)
      {
        ghost var m1, k1 := m, k;
        DeviceRuns(if turn < |device| then device[turn] else []);
        DeviceWaiting(m1, k1, m, k);
        IndexMeans(m, k);
        if m.usedIdx == m.devIdx { break; }
        var id := m.usedRing[m.usedIdx % NUM];
        ConsumeInv(m, k);
        if id < 0 || id >= NUM { assert false; }
        if m.info[id].status != 0 { assert false; }
        if m.info[id].b == None { assert false; }
        var b := m.info[id].b.value;
        m := m.(bufs := m.bufs[b := m.bufs[b].(disk := false)]);
        m := m.(usedIdx := (m.usedIdx + 1) % WRAP);
        FewerWaiting(k, id);
        k := At(k, id, Consumed);
        turn := turn + 1;
      }
    }

    /** The end of virtio_disk_rw, where the caller finds b->disk clear: its chain
        is freed, and the buffer and the sector hold the same block, which for a
        write is the one handed over. */
    method Finish(h: nat)
      requires Valid() && k.loose == {} && h in k.chains
      requires k.chains[h].b in m.bufs && !m.bufs[k.chains[h].b].disk
      modifies this
      ensures Valid() && k.loose == {} && k.chains == old(k).chains - {h}
      ensures m.bufs == old(m).bufs && m.platter == old(m).platter
      ensures var c := old(k).chains[h];
              && c.b in m.bufs && c.sector in m.platter && m.platter[c.sector] == m.bufs[c.b].data
              && (c.write ==> m.bufs[c.b].data == c.data)
    {
      hide Inv;
      FinishInv(m, k, h);
      ghost var c := k.chains[h];
      m := m.(info := m.info[h := m.info[h].(b := None)]);
      k := Unhooked(k, h);
      FreeChain(h, c.i1, c.i2);
    }
  }

  /** The device changes no descriptor, and no chain but its phase. */
  ghost predicate DeviceOnly(m: Mem, k: Book, m': Mem, k': Book) {
    && k'.chains.Keys == k.chains.Keys && k'.owner == k.owner && k'.loose == k.loose
    && m'.free == m.free && m'.desc == m.desc && m'.ops == m.ops && m'.ring == m.ring
    && m'.availIdx == m.availIdx && m'.usedIdx == m.usedIdx
    && forall h: nat {:trigger k'.chains[h]} | h in k.chains ::
         && k'.chains[h] == k.chains[h].(phase := k'.chains[h].phase)
         && (k'.chains[h].phase.Consumed? <==> k.chains[h].phase.Consumed?)
  }

  lemma DeviceNone(m: Mem, k: Book)
    ensures DeviceOnly(m, k, m, k)
  {
  }

  lemma FetchOnly(m: Mem, k: Book, m1: Mem, k1: Book, m2: Mem, k2: Book)
    requires DeviceOnly(m, k, m1, k1) && Inv(m1, k1)
    requires m2 == m1.(seen := m2.seen, fetched := m2.fetched)
    requires k2 == k1 || (|k1.offered| > 0 && k1.offered[0] in k1.chains && k2 == At(k1, k1.offered[0], Fetched))
    ensures DeviceOnly(m, k, m2, k2)
  {
    if k2 != k1 { assert InPhase(k1, k1.offered[0], Offered); }
    forall h: nat | h in k.chains
      ensures k2.chains[h] == k.chains[h].(phase := k2.chains[h].phase)
      ensures k2.chains[h].phase.Consumed? <==> k.chains[h].phase.Consumed?
    {
      assert k1.chains[h] == k.chains[h].(phase := k1.chains[h].phase);
    }
  }

  lemma ExecuteOnly(m: Mem, k: Book, m1: Mem, k1: Book, m2: Mem, k2: Book, e: nat)
    requires DeviceOnly(m, k, m1, k1) && e in k1.chains && k1.chains[e].phase == Fetched && k2 == At(k1, e, Done)
    requires m2.free == m1.free && m2.desc == m1.desc && m2.ops == m1.ops && m2.ring == m1.ring
    requires m2.availIdx == m1.availIdx && m2.usedIdx == m1.usedIdx
    ensures DeviceOnly(m, k, m2, k2)
  {
    forall h: nat | h in k.chains
      ensures k2.chains[h] == k.chains[h].(phase := k2.chains[h].phase)
      ensures k2.chains[h].phase.Consumed? <==> k.chains[h].phase.Consumed?
    {
      assert k1.chains[h] == k.chains[h].(phase := k1.chains[h].phase);
    }
  }

  /** The heads whose completion the driver has not yet seen. */
  ghost function Waiting(k: Book): set<nat> { set h | h in k.chains && !k.chains[h].phase.Consumed? }

  lemma DeviceWaiting(m: Mem, k: Book, m': Mem, k': Book)
    requires DeviceOnly(m, k, m', k')
    ensures Waiting(k') == Waiting(k) && k'.chains.Keys == k.chains.Keys && k'.loose == k.loose
  {
    forall h: nat | h in k.chains ensures h in Waiting(k') <==> h in Waiting(k) { assert k'.chains[h] == k'.chains[h]; }
  }

  lemma FewerWaiting(k: Book, h: nat)
    requires h in k.chains && k.chains[h].phase == Done
    ensures Waiting(At(k, h, Consumed)) < Waiting(k) && At(k, h, Consumed).chains.Keys == k.chains.Keys
  {
    assert h in Waiting(k) && h !in Waiting(At(k, h, Consumed));
  }

  lemma ConsumeInv(m: Mem, k: Book)
    requires Inv(m, k) && |k.done| > 0
    ensures Shape(m) && k.done[0] in k.chains && m.usedRing[m.usedIdx % NUM] == k.done[0]
    ensures var h := k.done[0];
            && h < NUM && k.chains[h].phase == Done && m.info[h].status == 0 && m.info[h].b.Some?
               && m.info[h].b.value in m.bufs
            && var b := m.info[h].b.value;
            Inv(m.(bufs := m.bufs[b := m.bufs[b].(disk := false)], usedIdx := (m.usedIdx + 1) % WRAP),
                At(k, h, Consumed))
  {
    var h := k.done[0];
    IndexMeans(m, k);
    assert InPhase(k, h, Done);
    assert ChainOk(m, k, h);
    var b := m.info[h].b.value;
    var m', k' :=
      m.(bufs := m.bufs[b := m.bufs[b].(disk := false)], usedIdx := (m.usedIdx + 1) % WRAP), At(k, h, Consumed);
    PhaseInv(m, k, m', k', h);
    ShortQueue(m, k, k.done, Done);
    RingPop(m.usedRing, m.usedIdx, k.done);
    ListPop(k, k', k.done, Done);
    ListStays(k, k', h, k.offered, Offered);
    forall g: nat ensures g in m'.fetched <==> InPhase(k', g, Fetched) {
      assert g in m.fetched <==> InPhase(k, g, Fetched);
    }
  }

  /** The book once a consumed chain is taken apart. */
  ghost function Unhooked(k: Book, h: nat): Book
    requires h in k.chains && |k.owner| == NUM && h < NUM && k.chains[h].i1 < NUM && k.chains[h].i2 < NUM
  {
    var c := k.chains[h];
    k.(chains := k.chains - {h}, owner := k.owner[h := None][c.i1 := None][c.i2 := None], loose := {h, c.i1, c.i2})
  }

  lemma FinishInv(m: Mem, k: Book, h: nat)
    requires Inv(m, k) && k.loose == {} && h in k.chains && k.chains[h].b in m.bufs && !m.bufs[k.chains[h].b].disk
    ensures Shape(m) && |k.owner| == NUM && h < NUM
    ensures var c := k.chains[h];
            && c.i1 < NUM && c.i2 < NUM && h != c.i1 && c.i1 != c.i2 && h != c.i2
            && m.desc[h].next? && m.desc[h].next == c.i1 && m.desc[c.i1].next? && m.desc[c.i1].next == c.i2
               && !m.desc[c.i2].next?
            && c.sector in m.platter && m.platter[c.sector] == m.bufs[c.b].data
               && (c.write ==> m.bufs[c.b].data == c.data)
            && Inv(m.(info := m.info[h := m.info[h].(b := None)]), Unhooked(k, h))
  {
    hide RingHolds;
    assert ChainOk(m, k, h);
    var m', k' := m.(info := m.info[h := m.info[h].(b := None)]), Unhooked(k, h);
    forall i: nat | i < NUM ensures DescOk(m', k', i) { assert DescOk(m, k, i); OwnerKnown(m, k, i); }
    forall g: nat | g in k'.chains ensures ChainOk(m', k', g) { assert ChainOk(m, k, g); }
    forall f: nat, g: nat | f in k'.chains && g in k'.chains ensures Apart(k', f, g) { assert Apart(k, f, g); }
    ListWithout(k, k', h, k.offered, Offered);
    ListWithout(k, k', h, k.done, Done);
    forall g: nat ensures g in m'.fetched <==> InPhase(k', g, Fetched) {
      assert g in m.fetched <==> InPhase(k, g, Fetched);
    }
  }

  lemma ListWithout(k: Book, k': Book, h: nat, q: seq<nat>, p: Phase)
    requires Lists(k, q, p) && h in k.chains && k.chains[h].phase != p && k'.chains == k.chains - {h}
    ensures Lists(k', q, p)
  {
    forall i: nat | i < |q| ensures InPhase(k', q[i], p) { assert InPhase(k, q[i], p); }
    forall g: nat | InPhase(k', g, p) ensures g in q { assert InPhase(k, g, p); }
  }

  /** The first n descriptors of a chain freed. */
  function Unchained(m: Mem, h: nat, i1: nat, n: nat): Mem
    requires Shape(m) && h < NUM && i1 < NUM
  {
    if n == 0 then m
    else if n == 1 then m.(free := m.free[h := true], desc := m.desc[h := CLEARED])
    else m.(free := m.free[h := true][i1 := true], desc := m.desc[h := CLEARED][i1 := CLEARED])
  }

  predicate OfferReady(m: Mem, k: Book, h: nat, i1: nat, i2: nat, b: nat, sector: nat) {
    && Shape(m) && |k.owner| == NUM && k.loose == {h, i1, i2} && h != i1 && i1 != i2 && h != i2 && h < NUM && i1 < NUM
       && i2 < NUM
    && b in m.bufs && sector in m.platter
  }

  /** Head h moves to phase p, and the two lists follow. */
  ghost function At(k: Book, h: nat, p: Phase): Book
    requires h in k.chains
  {
    k.(chains := k.chains[h := k.chains[h].(phase := p)],
       offered := if p.Fetched? && k.offered != [] then k.offered[1..] else k.offered,
       done := if p.Done? then k.done + [h] else if p.Consumed? && k.done != [] then k.done[1..] else k.done)
  }

  /** The device sees an entry exactly if a head is offered. */
  lemma IndexMeans(m: Mem, k: Book)
    requires Inv(m, k)
    ensures Shape(m)
    ensures m.seen != m.availIdx <==> |k.offered| > 0
    ensures m.usedIdx != m.devIdx <==> |k.done| > 0
    ensures |k.offered| > 0 ==> m.ring[m.seen % NUM] == k.offered[0] && k.offered[0] in k.chains
    ensures |k.done| > 0 ==> m.usedRing[m.usedIdx % NUM] == k.done[0] && k.done[0] in k.chains
  {
    ShortQueue(m, k, k.offered, Offered);
    ShortQueue(m, k, k.done, Done);
    if |k.offered| > 0 { RingPop(m.ring, m.seen, k.offered); assert InPhase(k, k.offered[0], Offered); }
    if |k.done| > 0 { RingPop(m.usedRing, m.usedIdx, k.done); assert InPhase(k, k.done[0], Done); }
  }

  lemma ListPop(k: Book, k': Book, q: seq<nat>, p: Phase)
    requires |q| > 0 && Lists(k, q, p) && q[0] in k.chains && q[0] in k'.chains
    requires k'.chains == k.chains[q[0] := k'.chains[q[0]]] && k'.chains[q[0]].phase != p
    ensures Lists(k', q[1..], p)
  {
    var r := q[1..];
    forall i: nat | i < |r| ensures InPhase(k', r[i], p) { assert r[i] == q[i + 1] && InPhase(k, q[i + 1], p); }
    forall h: nat | InPhase(k', h, p) ensures h in r { assert InPhase(k, h, p); assert q == [q[0]] + r; }
  }

  lemma ListAppend(k: Book, k': Book, q: seq<nat>, h: nat, p: Phase)
    requires Lists(k, q, p) && h in k.chains && k.chains[h].phase != p && h in k'.chains
    requires k'.chains == k.chains[h := k'.chains[h]] && k'.chains[h].phase == p
    ensures Lists(k', q + [h], p)
  {
    forall i: nat | i < |q| ensures InPhase(k', q[i], p) && q[i] != h { assert InPhase(k, q[i], p); }
    forall g: nat | InPhase(k', g, p) ensures g in q + [h] { assert g != h ==> InPhase(k, g, p); }
  }

  /** A step in which one head changes phase, given its own chain and the lists. */
  lemma PhaseInv(m: Mem, k: Book, m': Mem, k': Book, h: nat)
    requires Inv(m, k) && h in k.chains && h in k'.chains && k'.owner == k.owner && k'.loose == k.loose
    requires k'.chains == k.chains[h := k.chains[h].(phase := k'.chains[h].phase)]
    requires Shape(m') && m'.free == m.free && m'.desc == m.desc && m'.ops == m.ops
    requires forall i: nat {:trigger m'.info[i]} | i < NUM && i != h :: m'.info[i] == m.info[i]
    requires m'.bufs.Keys == m.bufs.Keys && m'.platter.Keys == m.platter.Keys
    requires forall b {:trigger m'.bufs[b]} | b in m.bufs && b != k.chains[h].b :: m'.bufs[b] == m.bufs[b]
    requires forall s {:trigger m'.platter[s]} | s in m.platter && s != k.chains[h].sector ::
               m'.platter[s] == m.platter[s]
    requires ChainOk(m', k', h)
    ensures forall i: nat {:trigger DescOk(m', k', i)} | i < NUM :: DescOk(m', k', i)
    ensures forall g: nat {:trigger ChainOk(m', k', g)} | g in k'.chains :: ChainOk(m', k', g)
    ensures forall f: nat, g: nat {:trigger Apart(k', f, g)} | f in k'.chains && g in k'.chains :: Apart(k', f, g)
  {
    hide Lists;
    hide RingHolds;
    forall i: nat | i < NUM ensures DescOk(m', k', i) { assert DescOk(m, k, i); }
    forall f: nat, g: nat | f in k'.chains && g in k'.chains ensures Apart(k', f, g) { assert Apart(k, f, g); }
    forall g: nat | g in k'.chains ensures ChainOk(m', k', g) {
      assert ChainOk(m, k, g) && Apart(k, g, h);
      if g != h { assert m'.info[g] == m.info[g]; }
    }
  }

  lemma FetchInv(m: Mem, k: Book)
    requires Inv(m, k) && |k.offered| > 0
    ensures Shape(m) && k.offered[0] in k.chains && m.ring[m.seen % NUM] == k.offered[0]
    ensures var h := k.offered[0];
            Inv(m.(seen := (m.seen + 1) % WRAP, fetched := m.fetched + {h}), At(k, h, Fetched))
  {
    var h := k.offered[0];
    IndexMeans(m, k);
    assert InPhase(k, h, Offered);
    var m', k' := m.(seen := (m.seen + 1) % WRAP, fetched := m.fetched + {h}), At(k, h, Fetched);
    assert ChainOk(m, k, h);
    PhaseInv(m, k, m', k', h);
    ShortQueue(m, k, k.offered, Offered);
    RingPop(m.ring, m.seen, k.offered);
    ListPop(k, k', k.offered, Offered);
    ListStays(k, k', h, k.done, Done);
    forall g: nat ensures g in m'.fetched <==> InPhase(k', g, Fetched) {
      assert g in m.fetched <==> InPhase(k, g, Fetched);
    }
  }

  function Executed(m: Mem, h: nat, b: nat, write: bool, sector: nat): Mem
    requires Shape(m) && h < NUM && b in m.bufs && sector in m.platter
  {
    m.(bufs := if write then m.bufs else m.bufs[b := m.bufs[b].(data := m.platter[sector])],
       platter := if write then m.platter[sector := m.bufs[b].data] else m.platter,
       info := m.info[h := m.info[h].(status := 0)],
       usedRing := m.usedRing[m.devIdx % NUM := h], devIdx := (m.devIdx + 1) % WRAP, fetched := m.fetched - {h})
  }

  lemma ExecuteInv(m: Mem, k: Book, h: nat)
    requires Inv(m, k) && h in m.fetched
    ensures Shape(m) && h in k.chains && k.chains[h].phase == Fetched && h < NUM
    ensures var c := k.chains[h];
            && c.i1 < NUM && c.i2 < NUM && c.b in m.bufs && c.sector in m.platter
            && m.desc[h].addr == Req(h) && m.desc[h].next == c.i1 && m.desc[c.i1].addr == Data(c.b)
            && m.desc[c.i1].next == c.i2 && m.desc[c.i2].addr == Status(h) && m.ops[h] == Op(c.write, c.sector)
            && Inv(Executed(m, h, c.b, c.write, c.sector), At(k, h, Done))
  {
    assert InPhase(k, h, Fetched);
    assert ChainOk(m, k, h);
    var c := k.chains[h];
    var m', k' := Executed(m, h, c.b, c.write, c.sector), At(k, h, Done);
    PhaseInv(m, k, m', k', h);
    ShortQueue(m, k, k.done, Done);
    RingPush(m.usedRing, m.usedIdx, k.done, h);
    ListAppend(k, k', k.done, h, Done);
    ListStays(k, k', h, k.offered, Offered);
    forall g: nat ensures g in m'.fetched <==> InPhase(k', g, Fetched) {
      assert g in m.fetched <==> InPhase(k, g, Fetched);
    }
  }

  /** The book once a chain of three loose descriptors is offered. */
  ghost function Offering(k: Book, h: nat, i1: nat, i2: nat, b: nat, write: bool, sector: nat, data: Block): Book
    requires |k.owner| == NUM && h < NUM && i1 < NUM && i2 < NUM
  {
    k.(chains := k.chains[h := Chain(i1, i2, b, write, sector, data, Offered)],
       owner := k.owner[h := Some(h)][i1 := Some(h)][i2 := Some(h)], offered := k.offered + [h], loose := {})
  }

  /** The request is the last of the offered ones, and no other chain changed. */
  ghost predicate Offers(k: Book, k': Book, h: nat, b: nat, write: bool, sector: nat, data: Block) {
    && h in k'.chains && k'.chains == k.chains[h := k'.chains[h]]
    && var c := k'.chains[h];
    && c.b == b && c.write == write && c.sector == sector && c.data == data && c.phase == Offered
    && k'.offered == k.offered + [h] && k'.done == k.done
  }

  predicate OfferStep(m: Mem, k: Book, m': Mem, h: nat, i1: nat, i2: nat, b: nat, write: bool, sector: nat) {
    && OfferReady(m, k, h, i1, i2, b, sector)
    && m'.free == m.free
    && m'.desc == m.desc[h := Desc(Req(h), 16, true, false, i1)][i1 := Desc(Data(b), 512, true, !write, i2)]
                        [i2 := Desc(Status(h), 1, false, true, 0)]
    && m'.info == m.info[h := Info(Some(b), 0xff)]
    && m'.ops == m.ops[h := Op(write, sector)]
    && m'.ring == m.ring[m.availIdx % NUM := h] && m'.availIdx == (m.availIdx + 1) % WRAP
    && m'.usedRing == m.usedRing && m'.devIdx == m.devIdx && m'.usedIdx == m.usedIdx
    && m'.bufs == m.bufs[b := m.bufs[b].(disk := true)] && m'.platter == m.platter
    && m'.seen == m.seen && m'.fetched == m.fetched
  }

  lemma OfferInv(m: Mem, k: Book, m': Mem, k': Book, h: nat, i1: nat, i2: nat, b: nat, write: bool, sector: nat)
    requires Inv(m, k) && OfferStep(m, k, m', h, i1, i2, b, write, sector)
    requires forall g | g in k.chains :: k.chains[g].b != b && k.chains[g].sector != sector
    requires k' == Offering(k, h, i1, i2, b, write, sector, m.bufs[b].data)
    ensures Inv(m', k') && h !in k.chains
  {
    hide Lists;
    hide RingHolds;
    hide ChainOk;
    hide DescOk;
    OfferDescs(m, k, m', k', h, i1, i2, b, write, sector);
    forall g: nat | g in k'.chains ensures ChainOk(m', k', g) {
      if g != h { OfferChain(m, k, m', k', h, i1, i2, b, write, sector, g); }
    }
    forall f: nat, g: nat | f in k'.chains && g in k'.chains ensures Apart(k', f, g) {
      assert f != h && g != h ==> Apart(k, f, g);
    }
    ShortQueue(m, k, k.offered, Offered);
    RingPush(m.ring, m.seen, k.offered, h);
    forall g: nat ensures g in m'.fetched <==> InPhase(k', g, Fetched) {
      assert g in m.fetched <==> InPhase(k, g, Fetched);
    }
    ListPush(k, k', k.offered, h);
    ListStays(k, k', h, k.done, Done);
  }

  lemma OfferDescs(m: Mem, k: Book, m': Mem, k': Book, h: nat, i1: nat, i2: nat, b: nat, write: bool, sector: nat)
    requires Inv(m, k) && OfferStep(m, k, m', h, i1, i2, b, write, sector)
    requires k' == Offering(k, h, i1, i2, b, write, sector, m.bufs[b].data)
    ensures Shape(m') && h !in k.chains && ChainOk(m', k', h)
    ensures forall i: nat {:trigger DescOk(m', k', i)} | i < NUM :: DescOk(m', k', i)
  {
    hide Lists;
    hide RingHolds;
    assert DescOk(m, k, h) && DescOk(m, k, i1) && DescOk(m, k, i2);
    assert h in k.chains ==> ChainOk(m, k, h);
    forall i: nat | i < NUM ensures DescOk(m', k', i) { assert DescOk(m, k, i); OwnerKnown(m, k, i); }
  }

  lemma OwnerKnown(m: Mem, k: Book, i: nat)
    requires Inv(m, k) && i < NUM
    ensures k.owner[i].Some? ==> k.owner[i].value in k.chains && ChainOk(m, k, k.owner[i].value)
  {
    assert DescOk(m, k, i);
  }

  lemma OfferChain(m: Mem, k: Book, m': Mem, k': Book, h: nat, i1: nat, i2: nat, b: nat, write: bool, sector: nat,
                   g: nat)
    requires Inv(m, k) && OfferStep(m, k, m', h, i1, i2, b, write, sector) && g in k.chains && g != h
    requires k.chains[g].b != b
    requires k' == Offering(k, h, i1, i2, b, write, sector, m.bufs[b].data)
    ensures ChainOk(m', k', g)
  {
    assert ChainOk(m, k, g);
    assert DescOk(m, k, h) && DescOk(m, k, i1) && DescOk(m, k, i2);
  }

  lemma ListPush(k: Book, k': Book, q: seq<nat>, h: nat)
    requires Lists(k, q, Offered) && h !in k.chains && h in k'.chains && k'.chains == k.chains[h := k'.chains[h]]
    requires k'.chains[h].phase == Offered
    ensures Lists(k', q + [h], Offered)
  {
    forall i: nat | i < |q| ensures InPhase(k', q[i], Offered) && q[i] != h { assert InPhase(k, q[i], Offered); }
    forall g: nat | InPhase(k', g, Offered) ensures g in q + [h] { assert g != h ==> InPhase(k, g, Offered); }
  }

  /** The list of a phase that head h neither enters nor leaves. */
  lemma ListStays(k: Book, k': Book, h: nat, q: seq<nat>, p: Phase)
    requires Lists(k, q, p) && h in k'.chains && k'.chains == k.chains[h := k'.chains[h]] && k'.chains[h].phase != p
    requires h in k.chains ==> k.chains[h].phase != p
    ensures Lists(k', q, p)
  {
    forall i: nat | i < |q| ensures InPhase(k', q[i], p) { assert InPhase(k, q[i], p); }
    forall g: nat | InPhase(k', g, p) ensures g in q { assert InPhase(k, g, p); }
  }

  lemma TableSizes(m: Mem, k: Book)
    requires Inv(m, k)
    ensures Shape(m) && |k.owner| == NUM
  {
  }

  lemma FreeSize(m: Mem, k: Book)
    requires Inv(m, k)
    ensures |m.free| == |m.desc| == NUM
  {
  }

  predicate FewFree(free: seq<bool>)
    requires |free| == NUM
  {
    forall a: nat, b: nat, c: nat | a < b < c < NUM :: !(free[a] && free[b] && free[c])
  }

  lemma AllClear(m: Mem, k: Book, i: nat)
    requires Inv(m, k) && i < NUM && m.free[i]
    ensures m.desc[i] == CLEARED
  {
    assert DescOk(m, k, i);
  }

  lemma Distinct(q: seq<nat>, j: nat)
    requires j < |q| && forall a: nat, b: nat :: a < b < |q| ==> q[a] != q[b]
    ensures q[j] !in q[j + 1..] && Elems(q[j..]) - {q[j]} == Elems(q[j + 1..])
  {
    assert q[j..] == [q[j]] + q[j + 1..];
    var r := q[j + 1..];
    forall a: nat | a < |r| ensures r[a] != q[j] { assert r[a] == q[j + 1 + a]; }
  }

  lemma LooseBelow(m: Mem, k: Book, i: nat)
    requires Inv(m, k) && i in k.loose
    ensures i < NUM && !m.free[i]
  {
    assert i < NUM ==> DescOk(m, k, i);
  }

  lemma LooseInv(m: Mem, k: Book, m': Mem, i: nat)
    requires Inv(m, k) && i < NUM && m.free[i] && m' == m.(free := m.free[i := false])
    ensures Inv(m', k.(loose := k.loose + {i}))
  {
    hide Lists;
    hide RingHolds;
    var k' := k.(loose := k.loose + {i});
    assert DescOk(m, k, i);
    forall j: nat | j < NUM ensures DescOk(m', k', j) { assert DescOk(m, k, j); }
    forall h: nat | h in k'.chains ensures ChainOk(m', k', h) { assert ChainOk(m, k, h); }
    forall g: nat, h: nat | g in k'.chains && h in k'.chains ensures Apart(k', g, h) { assert Apart(k, g, h); }
    SameLists(k, k');
    forall g: nat ensures g in m'.fetched <==> InPhase(k', g, Fetched) {
      assert g in m.fetched <==> InPhase(k, g, Fetched);
    }
  }

  lemma FreedInv(m: Mem, k: Book, m': Mem, i: nat)
    requires Inv(m, k) && i in k.loose && i < NUM
    requires m' == m.(free := m.free[i := true], desc := m.desc[i := CLEARED])
    ensures Inv(m', k.(loose := k.loose - {i}))
  {
    hide Lists;
    hide RingHolds;
    var k' := k.(loose := k.loose - {i});
    assert DescOk(m, k, i);
    forall j: nat | j < NUM ensures DescOk(m', k', j) { assert DescOk(m, k, j); }
    forall h: nat | h in k'.chains ensures ChainOk(m', k', h) { assert ChainOk(m, k, h); }
    forall g: nat, h: nat | g in k'.chains && h in k'.chains ensures Apart(k', g, h) { assert Apart(k, g, h); }
    SameLists(k, k');
    forall g: nat ensures g in m'.fetched <==> InPhase(k', g, Fetched) {
      assert g in m.fetched <==> InPhase(k, g, Fetched);
    }
  }

  lemma SameLists(k: Book, k': Book)
    requires k'.chains == k.chains
    ensures forall q: seq<nat>, p: Phase {:trigger Lists(k', q, p)} :: Lists(k, q, p) ==> Lists(k', q, p)
  {
    forall q: seq<nat>, p: Phase | Lists(k, q, p) ensures Lists(k', q, p) {
      forall i: nat | i < |q| ensures InPhase(k', q[i], p) { assert InPhase(k, q[i], p); }
      forall h: nat | InPhase(k', h, p) ensures h in q { assert InPhase(k, h, p); }
    }
  }
}
