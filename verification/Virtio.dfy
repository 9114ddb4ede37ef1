/** The disk driver's queue and a device that follows the protocol of VIRTIO 1.1
    (sections 2.6 and 5.2). One call is one section under vdisk_lock, or one
    action of the device. */
module Virtio {
  import opened Common
  import opened Wrappers

  const NUM: nat := 8
  const WRAP: nat := 0x1_0000

  type Block = seq<int>

  /** What a descriptor points at: a request, a buffer's data or a status byte. */
  datatype Addr = Null | Req(h: nat) | Data(b: nat) | Status(h: nat)

  datatype Desc = Desc(addr: Addr, len: nat, next?: bool, write?: bool, next: nat)

  const CLEARED := Desc(Null, 0, false, false, 0)

  datatype Info = Info(b: Option<nat>, status: nat)

  datatype Op = Op(write: bool, sector: nat)

  datatype Buf = Buf(disk: bool, data: Block)

  /** Where a request is on its way to the device and back. */
  datatype Phase = Offered | Fetched | Done | Consumed

  /** A request: the other two descriptors of the chain, its buffer and sector,
      and for a write the data handed over. */
  datatype Chain = Chain(i1: nat, i2: nat, b: nat, write: bool, sector: nat, data: Block, phase: Phase)

  /** Shared memory and the driver's own variables: the free flags, descriptors,
      info and request tables, the available ring with its index, the used ring
      with its index, the driver's used_idx; then the buffers and the platter.
      `seen` is the device's place in the available ring and `fetched` the heads
      it has taken from there and not yet answered. */
  datatype Mem = Mem(free: seq<bool>, desc: seq<Desc>, info: seq<Info>, ops: seq<Op>,
                     ring: seq<nat>, availIdx: nat, usedRing: seq<nat>, devIdx: nat, usedIdx: nat,
                     bufs: map<nat, Buf>, platter: map<nat, Block>, seen: nat, fetched: set<nat>)

  /** The proof's record: the chain of each head, the head each descriptor
      belongs to, the heads waiting in the two rings in order, and descriptors
      taken but not yet in a chain. */
  datatype Book = Book(chains: map<nat, Chain>, owner: seq<Option<nat>>, offered: seq<nat>, done: seq<nat>,
                       loose: set<nat>)

  predicate Shape(m: Mem) {
    && |m.free| == |m.desc| == |m.info| == |m.ops| == |m.ring| == |m.usedRing| == NUM
    && m.availIdx < WRAP && m.devIdx < WRAP && m.usedIdx < WRAP && m.seen < WRAP
  }

  /** A descriptor is free, or in exactly one chain (or loose). */
  predicate DescOk(m: Mem, k: Book, i: nat)
    requires Shape(m) && |k.owner| == NUM && i < NUM
  {
    && (m.free[i] <==> k.owner[i].None? && i !in k.loose)
    && (i in k.loose ==> k.owner[i].None?)
    && (m.free[i] ==> m.desc[i] == CLEARED)
    && (k.owner[i].Some? ==>
          && k.owner[i].value in k.chains
          && var h := k.owner[i].value;
          i == h || i == k.chains[h].i1 || i == k.chains[h].i2)
  }

  /** A well-formed chain of three. */
  predicate ChainOk(m: Mem, k: Book, h: nat)
    requires Shape(m) && |k.owner| == NUM && h in k.chains
  {
    var c := k.chains[h];
    && h < NUM && c.i1 < NUM && c.i2 < NUM && h != c.i1 && h != c.i2 && c.i1 != c.i2
    && k.owner[h] == k.owner[c.i1] == k.owner[c.i2] == Some(h)
    && m.desc[h] == Desc(Req(h), 16, true, false, c.i1)
    && m.desc[c.i1] == Desc(Data(c.b), 512, true, !c.write, c.i2)
    && m.desc[c.i2] == Desc(Status(h), 1, false, true, 0)
    && m.ops[h] == Op(c.write, c.sector)
    && m.info[h].b == Some(c.b)
    && m.info[h].status == (if c.phase.Offered? || c.phase.Fetched? then 0xff else 0)
    && c.b in m.bufs && c.sector in m.platter
    && (m.bufs[c.b].disk <==> !c.phase.Consumed?)
    && (c.phase.Done? || c.phase.Consumed? ==> m.platter[c.sector] == m.bufs[c.b].data)
    && (c.write ==> m.bufs[c.b].data == c.data)
  }

  /** Two requests in progress use different buffers and sectors. */
  predicate Apart(k: Book, g: nat, h: nat)
    requires g in k.chains && h in k.chains
  {
    g != h ==> k.chains[g].b != k.chains[h].b && k.chains[g].sector != k.chains[h].sector
  }

  predicate InPhase(k: Book, h: nat, p: Phase) { h in k.chains && k.chains[h].phase == p }

  /** q lists exactly the heads in phase p, once each. */
  ghost predicate Lists(k: Book, q: seq<nat>, p: Phase) {
    && Unique(q)
    && (forall i: nat {:trigger q[i]} | i < |q| :: InPhase(k, q[i], p))
    && (forall h: nat {:trigger InPhase(k, h, p)} | InPhase(k, h, p) :: h in q)
  }

  /** A ring holds q from index `from` on. */
  predicate RingHolds(ring: seq<nat>, from: nat, q: seq<nat>)
    requires |ring| == NUM
  {
    forall i: nat {:trigger q[i]} | i < |q| :: ring[(from + i) % NUM] == q[i]
  }

  ghost predicate Inv(m: Mem, k: Book) {
    && Shape(m) && |k.owner| == NUM
    && (forall i: nat {:trigger i in k.loose} | i in k.loose :: i < NUM)
    && (forall i: nat {:trigger DescOk(m, k, i)} | i < NUM :: DescOk(m, k, i))
    && (forall h: nat {:trigger ChainOk(m, k, h)} | h in k.chains :: ChainOk(m, k, h))
    && (forall g: nat, h: nat {:trigger Apart(k, g, h)} | g in k.chains && h in k.chains :: Apart(k, g, h))
    && Lists(k, k.offered, Offered) && Lists(k, k.done, Done)
    && m.availIdx == (m.seen + |k.offered|) % WRAP && RingHolds(m.ring, m.seen, k.offered)
    && (forall h: nat {:trigger InPhase(k, h, Fetched)} :: h in m.fetched <==> InPhase(k, h, Fetched))
    && m.devIdx == (m.usedIdx + |k.done|) % WRAP && RingHolds(m.usedRing, m.usedIdx, k.done)
  }

  // ---- counting ----

  function Triple(k: Book, h: nat): set<nat>
    requires h in k.chains
  {
    {h, k.chains[h].i1, k.chains[h].i2}
  }

  lemma TripleIs(m: Mem, k: Book, h: nat)
    requires Inv(m, k) && h in k.chains
    ensures |Triple(k, h)| == 3
    ensures forall i | i in Triple(k, h) :: i < NUM && k.owner[i] == Some(h)
  {
    assert ChainOk(m, k, h);
    var c := k.chains[h];
    assert |{h, c.i1}| == 2 && |{h, c.i1} + {c.i2}| == 3;
    assert Triple(k, h) == {h, c.i1} + {c.i2};
  }

  function Eight(): (s: set<nat>)
    ensures |s| == 8
    ensures forall i: nat | i < NUM :: i in s
  {
    var s := {0, 1, 2, 3} + {4, 5, 6, 7};
    s
  }

  /** Eight descriptors make at most two chains. */
  lemma NoThreeChains(m: Mem, k: Book, a: nat, b: nat, c: nat)
    requires Inv(m, k) && a in k.chains && b in k.chains && c in k.chains
    ensures a == b || b == c || a == c
  {
    hide Inv;
    hide Triple;
    hide Eight;
    if a != b && b != c && a != c {
      TripleIs(m, k, a); TripleIs(m, k, b); TripleIs(m, k, c);
      var x, y, z := Triple(k, a), Triple(k, b), Triple(k, c);
      assert x !! y && (x + y) !! z;
      assert |x + y| == 6 && |x + y + z| == 9;
      SubsetSize(x + y + z, Eight());
    }
  }

  lemma ShortQueue(m: Mem, k: Book, q: seq<nat>, p: Phase)
    requires Inv(m, k) && Lists(k, q, p)
    ensures |q| <= 2
  {
    if |q| > 2 {
      assert InPhase(k, q[0], p) && InPhase(k, q[1], p) && InPhase(k, q[2], p);
      NoThreeChains(m, k, q[0], q[1], q[2]);
    }
  }

  /** A 16-bit index picks its slot as the unwrapped count would, and the next
      slot is none of those still in use: an entry is never overwritten before it
      is taken, and wrap-around is harmless. */
  lemma NextSlot(from: nat, n: nat, i: nat)
    requires from < WRAP && i < n <= 2
    ensures (from + n) % WRAP % NUM == (from + n) % NUM
    ensures (from + i) % NUM != (from + n) % NUM
  {
  }

  lemma RingPush(ring: seq<nat>, from: nat, q: seq<nat>, h: nat)
    requires |ring| == NUM && from < WRAP && |q| <= 2 && RingHolds(ring, from, q)
    ensures RingHolds(ring[(from + |q|) % WRAP % NUM := h], from, q + [h])
    ensures ((from + |q|) % WRAP + 1) % WRAP == (from + |q + [h]|) % WRAP
  {
    var ring' := ring[(from + |q|) % WRAP % NUM := h];
    forall i: nat | i < |q| + 1 ensures ring'[(from + i) % NUM] == (q + [h])[i] {
      if i < |q| {
        NextSlot(from, |q|, i);
        assert ring[(from + i) % NUM] == q[i];
      } else {
        Slot(from, |q|);
      }
    }
  }

  lemma Slot(from: nat, n: nat)
    requires from < WRAP && n <= 3
    ensures (from + n) % WRAP % NUM == (from + n) % NUM
  {
  }

  lemma RingPop(ring: seq<nat>, from: nat, q: seq<nat>)
    requires |ring| == NUM && from < WRAP && 0 < |q| <= 2 && RingHolds(ring, from, q)
    ensures ring[from % NUM] == q[0] && RingHolds(ring, (from + 1) % WRAP, q[1..])
    ensures (from + |q|) % WRAP == ((from + 1) % WRAP + |q[1..]|) % WRAP && (from + |q|) % WRAP != from
  {
    assert ring[(from + 0) % NUM] == q[0];
    forall i: nat | i < |q| - 1 ensures ring[((from + 1) % WRAP + i) % NUM] == q[1..][i] {
      assert ring[(from + (i + 1)) % NUM] == q[i + 1];
      SlotNext(from, i);
    }
  }

  lemma SlotNext(from: nat, i: nat)
    requires from < WRAP && i <= 2
    ensures ((from + 1) % WRAP + i) % NUM == (from + (i + 1)) % NUM
  {
  }
}
