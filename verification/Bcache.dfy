/** The buffer cache of bio.c: thirty buffers on a doubly linked list, over a
    disk that is read and written a block at a time. A call is one section under
    bcache.lock, or one action of the thread that holds a buffer's sleep lock. */
module Bcache {
  import opened Common

  const NBUF: nat := 30
  /** The list head sits among the links beside the buffers. */
  const HEAD: nat := 30

  type Data = seq<int>

  datatype Key = Key(dev: nat, blockno: nat)

  /** `held` is the buffer's sleep lock. `dirty` (the holder has changed the data
      since it last agreed with the disk) and `stamp` (when it was last released,
      by a count of releases) record the past; no step depends on them. */
  datatype Buf = Buf(key: Key, valid: bool, refcnt: nat, held: bool, data: Data, dirty: bool, stamp: int)

  // ---- the list ----

  /** Place j of the ring of links: the head, the buffers in order, the head. */
  function Node(order: seq<nat>, j: nat): nat
    requires j <= |order| + 1
  {
    if j == 0 || j == |order| + 1 then HEAD else order[j - 1]
  }

  predicate Link(next: seq<nat>, prev: seq<nat>, order: seq<nat>, j: nat)
    requires |next| == |prev| == NBUF + 1 && j <= |order| && forall i: nat | i < |order| :: order[i] < NBUF
  {
    next[Node(order, j)] == Node(order, j + 1) && prev[Node(order, j + 1)] == Node(order, j)
  }

  /** Following next from the head gives the buffers of `order`, and prev the
      same backwards. */
  ghost predicate Linked(next: seq<nat>, prev: seq<nat>, order: seq<nat>) {
    && |next| == |prev| == NBUF + 1
    && Unique(order) && (forall i: nat | i < |order| :: order[i] < NBUF)
    && forall j: nat {:trigger Link(next, prev, order, j)} | j <= |order| :: Link(next, prev, order, j)
  }

  function Without(order: seq<nat>, p: nat): seq<nat>
    requires p < |order|
  {
    order[..p] + order[p + 1..]
  }

  lemma NodeWithout(order: seq<nat>, p: nat, j: nat)
    requires p < |order| && j <= |order|
    ensures Node(Without(order, p), j) == if j <= p then Node(order, j) else Node(order, j + 1)
  {
  }

  /** Taking the buffer at place p off the list. */
  lemma Unlink(next: seq<nat>, prev: seq<nat>, order: seq<nat>, p: nat)
    requires Linked(next, prev, order) && p < |order|
    ensures next[order[p]] <= NBUF && prev[order[p]] <= NBUF
    ensures var b := order[p];
            Linked(next[prev[b] := next[b]], prev[next[b] := prev[b]], Without(order, p)) && b !in Without(order, p)
  {
    var b := order[p];
    assert Link(next, prev, order, p) && Link(next, prev, order, p + 1);
    var next', prev', order' := next[prev[b] := next[b]], prev[next[b] := prev[b]], Without(order, p);
    assert Unique(order') && forall i: nat | i < |order'| :: order'[i] < NBUF;
    forall j: nat | j <= |order'| ensures Link(next', prev', order', j) {
      NodeWithout(order, p, j);
      NodeWithout(order, p, j + 1);
      if j < p { assert Link(next, prev, order, j); } else if j > p { assert Link(next, prev, order, j + 1); }
      NodesDiffer(order, p, j);
    }
  }

  /** The places of the ring other than p and p + 2 are not b's neighbours. */
  lemma NodesDiffer(order: seq<nat>, p: nat, j: nat)
    requires Unique(order) && p < |order| && j < |order| && forall i: nat | i < |order| :: order[i] < NBUF
    ensures j < p ==> Node(order, j) != Node(order, p) && Node(order, j + 1) != Node(order, p + 2)
    ensures j > p ==> Node(order, j + 1) != Node(order, p) && Node(order, j + 2) != Node(order, p + 2)
  {
    if j < p {
      NodeApart(order, j, p);
      NodeApart2(order, j + 1, p + 2);
    } else if j > p {
      NodeApart(order, p, j + 1);
      NodeApart2(order, p + 2, j + 2);
    }
  }

  lemma NodeApart(order: seq<nat>, a: nat, b: nat)
    requires Unique(order) && a < b <= |order| && forall i: nat | i < |order| :: order[i] < NBUF
    ensures Node(order, a) != Node(order, b)
  {
    if a > 0 { assert order[a - 1] != order[b - 1]; }
  }

  lemma NodeApart2(order: seq<nat>, a: nat, b: nat)
    requires Unique(order) && 0 < a < b <= |order| + 1 && forall i: nat | i < |order| :: order[i] < NBUF
    ensures Node(order, a) != Node(order, b)
  {
    if b <= |order| { assert order[a - 1] != order[b - 1]; }
  }

  /** Putting a buffer right after the head. */
  lemma PushFront(next: seq<nat>, prev: seq<nat>, order: seq<nat>, b: nat)
    requires Linked(next, prev, order) && b < NBUF && b !in order
    ensures next[HEAD] <= NBUF
    ensures Linked(next[b := next[HEAD]][HEAD := b], prev[b := HEAD][next[HEAD] := b], [b] + order)
  {
    assert Link(next, prev, order, 0);
    var first := next[HEAD];
    var next', prev', order' := next[b := first][HEAD := b], prev[b := HEAD][first := b], [b] + order;
    assert Unique(order') && forall i: nat | i < |order'| :: order'[i] < NBUF;
    forall j: nat | j <= |order'| ensures Link(next', prev', order', j) {
      if j > 0 {
        assert Link(next, prev, order, j - 1);
        assert j == 1 || Node(order', j) == Node(order, j - 1);
        assert Node(order', j + 1) == Node(order, j);
        if j > 1 { NodeApart2(order, 1, j); assert order[j - 2] != b; }
        if j <= |order| { assert order[j - 1] != b; }
      }
    }
  }

  // ---- the cache ----

  predicate BufOk(buf: seq<Buf>, disk: map<nat, Data>, dev: nat, clock: int, b: nat)
    requires b < |buf|
  {
    var x := buf[b];
    && (x.key.blockno != 0 ==> x.key.dev == dev)
    && x.key.blockno in disk
    && (x.held ==> x.refcnt > 0)
    && (x.dirty ==> x.held && x.valid)
    && (x.valid && !x.dirty ==> x.data == disk[x.key.blockno])
    && x.stamp < clock
  }

  /** At most one buffer holds a block. */
  predicate Alone(buf: seq<Buf>, b: nat, c: nat)
    requires b < |buf| && c < |buf|
  {
    b != c && buf[b].key.blockno != 0 ==> buf[b].key != buf[c].key
  }

  /** From the head on, buffers were released ever longer ago. */
  predicate Later(buf: seq<Buf>, order: seq<nat>, i: nat, j: nat)
    requires i < |order| && j < |order|
  {
    i < j && order[i] < |buf| && order[j] < |buf| ==> buf[order[i]].stamp > buf[order[j]].stamp
  }

  ghost predicate Inv(buf: seq<Buf>, next: seq<nat>, prev: seq<nat>, order: seq<nat>, disk: map<nat, Data>, dev: nat,
                      clock: int) {
    && |buf| == NBUF == |order|
    && Linked(next, prev, order)
    && (forall b: nat {:trigger BufOk(buf, disk, dev, clock, b)} | b < NBUF :: BufOk(buf, disk, dev, clock, b))
    && (forall b: nat, c: nat {:trigger Alone(buf, b, c)} | b < NBUF && c < NBUF :: Alone(buf, b, c))
    && (forall i: nat, j: nat {:trigger Later(buf, order, i, j)} | i < NBUF && j < NBUF :: Later(buf, order, i, j))
  }

  /** Thirty distinct buffers are all the buffers: the list is a permutation. */
  lemma InList(next: seq<nat>, prev: seq<nat>, order: seq<nat>, b: nat)
    requires Linked(next, prev, order) && |order| == NBUF && b < NBUF
    ensures b in order
  {
    var upto := seq(NBUF, (i: nat) => i);
    var all, got := Elems(upto), Elems(order);
    ElemsSize(upto);
    ElemsSize(order);
    assert got <= all by {
      forall x: nat | x in got ensures x in all { assert upto[x] == x; }
    }
    assert upto[b] == b && b in all;
    if b !in order { SmallerSet(got, all); }
  }

  lemma {:induction false} ElemsSize(q: seq<nat>)
    requires Unique(q)
    ensures |Elems(q)| == |q|
  {
    if q != [] {
      var p, x := q[..|q| - 1], q[|q| - 1];
      assert Unique(p) by { forall i: nat, j: nat | i < j < |p| ensures p[i] != p[j] { assert q[i] != q[j]; } }
      ElemsSize(p);
      assert x !in p by { forall i: nat | i < |p| ensures p[i] != x { assert q[i] != q[|q| - 1]; } }
      assert q == p + [x];
      assert Elems(q) == Elems(p) + {x};
    }
  }

  lemma SmallerSet(a: set<nat>, b: set<nat>)
    requires a < b
    ensures |a| < |b|
  {
    assert b == a + (b - a);
    assert |b - a| > 0;
  }

  /** A change to one buffer that keeps its place in time. */
  lemma ChangeInv(buf: seq<Buf>, next: seq<nat>, prev: seq<nat>, order: seq<nat>, disk: map<nat, Data>, dev: nat,
                  clock: int, b: nat, x: Buf, disk': map<nat, Data>)
    requires Inv(buf, next, prev, order, disk, dev, clock) && b < NBUF && x.stamp == buf[b].stamp
    requires disk' == disk || (x.key == buf[b].key && x.key.blockno != 0 && disk' == disk[x.key.blockno := x.data])
    requires BufOk(buf[b := x], disk', dev, clock, b)
    requires x.key == buf[b].key || forall c: nat | c < NBUF && c != b :: buf[c].key != x.key
    ensures Inv(buf[b := x], next, prev, order, disk', dev, clock)
  {
    hide Linked;
    var buf' := buf[b := x];
    forall c: nat | c < NBUF ensures BufOk(buf', disk', dev, clock, c) {
      assert BufOk(buf, disk, dev, clock, c) && BufOk(buf, disk, dev, clock, b) && Alone(buf, b, c) && Alone(buf, c, b);
    }
    forall c: nat, d: nat | c < NBUF && d < NBUF ensures Alone(buf', c, d) { assert Alone(buf, c, d); }
    forall i: nat, j: nat | i < NBUF && j < NBUF ensures Later(buf', order, i, j) { assert Later(buf, order, i, j); }
  }

  class Cache {
    const dev: nat
    var buf: seq<Buf>
    var next: seq<nat>
    var prev: seq<nat>
    var disk: map<nat, Data>
    ghost var order: seq<nat>
    var clock: int

    ghost predicate Valid()
      reads this
    {
      Inv(buf, next, prev, order, disk, dev, clock)
    }

    /** bget for a block other than 0, under bcache.lock: the buffer that holds
        the block, or else the idle buffer released longest ago, made to stand
        for it. With every buffer in use it panics, here answered by -1. */
    method Bget(blockno: nat) returns (b: int)
      requires Valid() && blockno != 0 && blockno in disk
      modifies this`buf
      ensures Valid()
      ensures b == -1 ==>
                buf == old(buf) && forall c: nat | c < NBUF :: buf[c].refcnt > 0 && buf[c].key != Key(dev, blockno)
      ensures b != -1 ==> 0 <= b < NBUF && buf == old(buf)[b := buf[b]] && buf[b].key == Key(dev, blockno)
      ensures b != -1 && old(buf)[b].key == Key(dev, blockno) ==>
                buf[b] == old(buf)[b].(refcnt := old(buf)[b].refcnt + 1)
      ensures b != -1 && old(buf)[b].key != Key(dev, blockno) ==>
                && old(buf)[b].refcnt == 0 && buf[b].refcnt == 1 && !buf[b].valid && !buf[b].held
                && (forall c: nat | c < NBUF :: old(buf)[c].key != Key(dev, blockno))
                && (forall c: nat | c < NBUF && c != b && old(buf)[c].refcnt == 0 ::
                       old(buf)[c].stamp > old(buf)[b].stamp)
    {
      hide Linked;
      ghost var j := 1;
      b := First(next, prev, order, true);
      while b != HEAD
        invariant 1 <= j <= NBUF + 1 && b == Node(order, j) && Valid() && buf == old(buf)
        invariant forall i: nat | i < j - 1 :: order[i] < NBUF && buf[order[i]].key != Key(dev, blockno)
        decreases NBUF + 1 - j
      {
        OnList(next, prev, order, j);
        if buf[b].key == Key(dev, blockno) {
          assert BufOk(buf, disk, dev, clock, b);
          ChangeInv(buf, next, prev, order, disk, dev, clock, b, buf[b].(refcnt := buf[b].refcnt + 1), disk);
          buf := buf[b := buf[b].(refcnt := buf[b].refcnt + 1)];
          return;
        }
        b := next[b];
        j := j + 1;
      }
      OffList(next, prev, order, j);
      AllSeen(next, prev, order, buf, Key(dev, blockno));
      b := First(next, prev, order, false);
      j := NBUF;
      while b != HEAD
        invariant 0 <= j <= NBUF && b == Node(order, j) && Valid() && buf == old(buf)
        invariant forall i: nat | j <= i < NBUF :: order[i] < NBUF && buf[order[i]].refcnt > 0
        decreases j
      {
        OnList(next, prev, order, j);
        if buf[b].refcnt == 0 {
          assert BufOk(buf, disk, dev, clock, b);
          OldestIdle(next, prev, order, buf, disk, dev, clock, j - 1);
          var x := buf[b].(key := Key(dev, blockno), valid := false, refcnt := 1);
          ChangeInv(buf, next, prev, order, disk, dev, clock, b, x, disk);
          buf := buf[b := x];
          return;
        }
        b := prev[b];
        j := j - 1;
      }
      OffList(next, prev, order, j);
      AllBusy(next, prev, order, buf);
      b := -1;
    }

    /** The start of a walk over the list: head.next, respectively head.prev. */
    static function First(next: seq<nat>, prev: seq<nat>, ghost order: seq<nat>, forward: bool): (b: nat)
      requires Linked(next, prev, order) && |order| == NBUF
      ensures b == Node(order, if forward then 1 else NBUF)
    {
      assert Link(next, prev, order, 0) && Link(next, prev, order, NBUF);
      if forward then next[HEAD] else prev[HEAD]
    }

    /** binit: thirty buffers on the list, all for device 0, block 0. */
    constructor (dev: nat, disk: map<nat, Data>)
      requires 0 in disk
      ensures Valid() && this.dev == dev && this.disk == disk
      ensures forall b: nat | b < NBUF :: !buf[b].held && buf[b].refcnt == 0
    {
      this.dev, this.disk := dev, disk;
      buf := seq(NBUF, (i: nat) => Buf(Key(0, 0), false, 0, false, [], false, i));
      clock := NBUF;
      var n: seq<nat>, p: seq<nat> := seq(NBUF + 1, _ => HEAD), seq(NBUF + 1, _ => HEAD);
      ghost var o: seq<nat> := [];
      var b: nat := 0;
      assert Linked(n, p, o) by { assert Link(n, p, o, 0); }
      while b < NBUF
        invariant b <= NBUF && Linked(n, p, o)
        invariant o == seq(b, (i: nat) requires i < b => b - 1 - i)
      {
        assert b !in o by { forall i: nat | i < |o| ensures o[i] != b {} }
        PushFront(n, p, o, b);
        // b points at the head and the old front; then the old front and the head point at b
        n, p := n[b := n[HEAD]], p[b := HEAD];
        p := p[n[HEAD] := b];
        n := n[HEAD := b];
        o := [b] + o;
        assert o == seq(b + 1, (i: nat) requires i < b + 1 => b - i);
        b := b + 1;
      }
      next, prev, order := n, p, o;
      new;
      forall i: nat, j: nat | i < NBUF && j < NBUF ensures Later(buf, order, i, j) {}
      forall c: nat | c < NBUF ensures BufOk(buf, disk, dev, clock, c) {}
      forall c: nat, d: nat | c < NBUF && d < NBUF ensures Alone(buf, c, d) {}
    }

    /** acquiresleep of a buffer whose sleep lock is free. */
    method Lock(b: nat)
      requires Valid() && b < NBUF && buf[b].refcnt > 0 && !buf[b].held && buf[b].key.blockno != 0
      modifies this`buf
      ensures Valid() && !buf[b].dirty && buf == old(buf)[b := old(buf)[b].(held := true)]
    {
      hide Linked;
      assert BufOk(buf, disk, dev, clock, b);
      ChangeInv(buf, next, prev, order, disk, dev, clock, b, buf[b].(held := true), disk);
      buf := buf[b := buf[b].(held := true)];
    }

    /** The rest of bread by the holder: what it then sees is what the disk has. */
    method Load(b: nat) returns (data: Data)
      requires Valid() && b < NBUF && buf[b].held && !buf[b].dirty && buf[b].key.blockno != 0
      modifies this`buf
      ensures Valid() && buf == old(buf)[b := buf[b]] && buf[b] == old(buf)[b].(valid := true, data := data)
      ensures buf[b].key.blockno in disk && data == disk[buf[b].key.blockno]
    {
      hide Linked;
      assert BufOk(buf, disk, dev, clock, b);
      if !buf[b].valid {
        var x := buf[b].(data := disk[buf[b].key.blockno], valid := true);
        ChangeInv(buf, next, prev, order, disk, dev, clock, b, x, disk);
        buf := buf[b := x];
      }
      data := buf[b].data;
    }

    /** bread with nobody in between: whatever was written last is read. */
    method Bread(blockno: nat) returns (b: int, data: Data)
      requires Valid() && blockno != 0 && blockno in disk
      requires forall c: nat | c < NBUF && buf[c].key == Key(dev, blockno) :: !buf[c].held
      modifies this`buf
      ensures Valid() && disk == old(disk)
      ensures b == -1 ==> buf == old(buf)
      ensures b != -1 ==> 0 <= b < NBUF && buf == old(buf)[b := buf[b]] && buf[b].key == Key(dev, blockno)
      ensures b != -1 ==> buf[b].held && !buf[b].dirty && buf[b].valid && data == buf[b].data == disk[blockno]
    {
      hide Linked;
      data := [];
      b := Bget(blockno);
      if b == -1 { return; }
      assert BufOk(old(buf), disk, dev, clock, b) && BufOk(buf, disk, dev, clock, b);
      Lock(b);
      data := Load(b);
    }

    /** The holder changes the data it was given. */
    method Change(b: nat, data: Data)
      requires Valid() && b < NBUF && buf[b].held && buf[b].valid && buf[b].key.blockno != 0
      modifies this`buf
      ensures Valid() && buf == old(buf)[b := old(buf)[b].(data := data, dirty := true)]
    {
      hide Linked;
      assert BufOk(buf, disk, dev, clock, b);
      ChangeInv(buf, next, prev, order, disk, dev, clock, b, buf[b].(data := data, dirty := true), disk);
      buf := buf[b := buf[b].(data := data, dirty := true)];
    }

    /** bwrite by the holder. */
    method Bwrite(b: nat)
      requires Valid() && b < NBUF && buf[b].held && buf[b].valid && buf[b].key.blockno != 0
      modifies this`buf, this`disk
      ensures Valid() && disk == old(disk)[buf[b].key.blockno := buf[b].data]
      ensures buf == old(buf)[b := old(buf)[b].(dirty := false)]
    {
      hide Linked;
      assert BufOk(buf, disk, dev, clock, b);
      var x := buf[b].(dirty := false);
      ChangeInv(buf, next, prev, order, disk, dev, clock, b, x, disk[buf[b].key.blockno := buf[b].data]);
      disk := disk[buf[b].key.blockno := buf[b].data];
      buf := buf[b := x];
    }

    /** The first half of brelse: the holder, who has written what it changed,
        releases the sleep lock. */
    method Unlock(b: nat)
      requires Valid() && b < NBUF && buf[b].held && !buf[b].dirty
      modifies this`buf
      ensures Valid() && buf == old(buf)[b := old(buf)[b].(held := false)]
    {
      hide Linked;
      assert BufOk(buf, disk, dev, clock, b);
      ChangeInv(buf, next, prev, order, disk, dev, clock, b, buf[b].(held := false), disk);
      buf := buf[b := buf[b].(held := false)];
    }

    /** The second half of brelse, under bcache.lock: one reference fewer, and with
        the last one the buffer goes to the front of the list. By then another
        thread may hold the sleep lock. */
    method Brelse(b: nat)
      requires Valid() && b < NBUF && buf[b].refcnt > 0 && (buf[b].held ==> buf[b].refcnt > 1)
      modifies this
      ensures Valid() && disk == old(disk)
      ensures buf == old(buf)[b := old(buf)[b].(refcnt := buf[b].refcnt, stamp := buf[b].stamp)]
      ensures buf[b].refcnt + 1 == old(buf)[b].refcnt
      ensures buf[b].refcnt == 0 ==> forall c: nat | c < NBUF && c != b :: buf[c].stamp < buf[b].stamp
      ensures buf[b].refcnt > 0 ==> next == old(next) && prev == old(prev)
    {
      assert BufOk(buf, disk, dev, clock, b);
      var x := buf[b].(refcnt := buf[b].refcnt - 1);
      ChangeInv(buf, next, prev, order, disk, dev, clock, b, x, disk);
      buf := buf[b := x];
      if x.refcnt == 0 { MoveToFront(b); }
    }

    /** The list part of brelse. */
    method MoveToFront(b: nat)
      requires Valid() && b < NBUF
      modifies this
      ensures Valid() && disk == old(disk) && buf == old(buf)[b := old(buf)[b].(stamp := buf[b].stamp)]
      ensures forall c: nat | c < NBUF && c != b :: buf[c].stamp < buf[b].stamp
    {
      hide BufOk;
      InList(next, prev, order, b);
      ghost var p: nat :| p < |order| && order[p] == b;
      ghost var rest := Without(order, p);
      Relinked(next, prev, order, p);
      MoveInv(buf, order, disk, dev, clock, p, Front(next, prev, b).0, Front(next, prev, b).1);
      // b's two neighbours point at each other: b is off the list
      prev := prev[next[b] := prev[b]];
      next := next[prev[b] := next[b]];
      // b points at the head and the front; then the front and the head point at b
      next, prev := next[b := next[HEAD]], prev[b := HEAD];
      prev := prev[next[HEAD] := b];
      next := next[HEAD := b];
      order := [b] + rest;
      buf := buf[b := buf[b].(stamp := clock)];
      clock := clock + 1;
    }
  }

  /** The links after b has been taken off the list and put first. */
  function Front(next: seq<nat>, prev: seq<nat>, b: nat): (seq<nat>, seq<nat>)
    requires |next| == |prev| == NBUF + 1 && b < NBUF && next[b] <= NBUF && prev[b] <= NBUF && next[b] != b
             && next[HEAD] <= NBUF
  {
    var p1 := prev[next[b] := prev[b]];
    var n1 := next[p1[b] := next[b]];
    var n2, p2 := n1[b := n1[HEAD]], p1[b := HEAD];
    (n2[HEAD := b], p2[n2[HEAD] := b])
  }

  lemma Relinked(next: seq<nat>, prev: seq<nat>, order: seq<nat>, p: nat)
    requires Linked(next, prev, order) && p < |order|
    ensures var b := order[p];
            && next[b] <= NBUF && prev[b] <= NBUF && next[b] != b && next[HEAD] <= NBUF
            && Linked(Front(next, prev, b).0, Front(next, prev, b).1, [b] + Without(order, p))
  {
    hide Without;
    var b := order[p];
    assert Link(next, prev, order, p) && Link(next, prev, order, p + 1) && Link(next, prev, order, 0);
    NodeApart2(order, p + 1, p + 2);
    Unlink(next, prev, order, p);
    var p1 := prev[next[b] := prev[b]];
    var n1 := next[p1[b] := next[b]];
    PushFront(n1, p1, Without(order, p), b);
    assert b != HEAD && n1[b := n1[HEAD]][HEAD] == n1[HEAD];
  }

  lemma OffList(next: seq<nat>, prev: seq<nat>, order: seq<nat>, j: nat)
    requires Linked(next, prev, order) && |order| == NBUF && j <= NBUF + 1 && Node(order, j) == HEAD
    ensures j == 0 || j == NBUF + 1
  {
  }

  /** The stamp of the buffer moved to the front is the latest. */
  lemma MoveInv(buf: seq<Buf>, order: seq<nat>, disk: map<nat, Data>, dev: nat, clock: int, p: nat, next: seq<nat>,
                prev: seq<nat>)
    requires |buf| == NBUF == |order| && p < NBUF && order[p] < NBUF && Unique(order)
             && forall i: nat | i < NBUF :: order[i] < NBUF
    requires forall b: nat {:trigger BufOk(buf, disk, dev, clock, b)} | b < NBUF :: BufOk(buf, disk, dev, clock, b)
    requires forall b: nat, c: nat {:trigger Alone(buf, b, c)} | b < NBUF && c < NBUF :: Alone(buf, b, c)
    requires forall i: nat, j: nat {:trigger Later(buf, order, i, j)} | i < NBUF && j < NBUF :: Later(buf, order, i, j)
    requires Linked(next, prev, [order[p]] + Without(order, p))
    ensures var b := order[p];
            && Inv(buf[b := buf[b].(stamp := clock)], next, prev, [b] + Without(order, p), disk, dev, clock + 1)
            && forall c: nat | c < NBUF && c != b :: buf[c].stamp < clock
  {
    hide Linked;
    var b := order[p];
    var buf', order' := buf[b := buf[b].(stamp := clock)], [b] + Without(order, p);
    forall c: nat | c < NBUF ensures BufOk(buf', disk, dev, clock + 1, c) && (c != b ==> buf[c].stamp < clock) {
      assert BufOk(buf, disk, dev, clock, c);
    }
    forall c: nat, d: nat | c < NBUF && d < NBUF ensures Alone(buf', c, d) { assert Alone(buf, c, d); }
    forall i: nat, j: nat | i < NBUF && j < NBUF ensures Later(buf', order', i, j) {
      if 0 < i < j {
        var i0, j0 := if i - 1 < p then i - 1 else i, if j - 1 < p then j - 1 else j;
        assert order'[i] == order[i0] && order'[j] == order[j0];
        assert Later(buf, order, i0, j0);
        assert order[i0] != b && order[j0] != b;
      } else if i == 0 < j {
        var j0 := if j - 1 < p then j - 1 else j;
        assert order'[j] == order[j0] && order[j0] != order[p];
        assert BufOk(buf, disk, dev, clock, order[j0]);
      }
    }
  }

  lemma OnList(next: seq<nat>, prev: seq<nat>, order: seq<nat>, j: nat)
    requires Linked(next, prev, order) && |order| == NBUF && j <= NBUF + 1 && Node(order, j) != HEAD
    ensures 1 <= j <= NBUF && Node(order, j) == order[j - 1] < NBUF && |next| == |prev| == NBUF + 1
    ensures next[order[j - 1]] == Node(order, j + 1) && prev[order[j - 1]] == Node(order, j - 1)
  {
    assert Link(next, prev, order, j) && Link(next, prev, order, j - 1);
  }

  lemma AllSeen(next: seq<nat>, prev: seq<nat>, order: seq<nat>, buf: seq<Buf>, key: Key)
    requires Linked(next, prev, order) && |order| == NBUF == |buf|
    requires forall i: nat | i < NBUF :: order[i] < NBUF && buf[order[i]].key != key
    ensures forall c: nat | c < NBUF :: buf[c].key != key
  {
    forall c: nat | c < NBUF ensures buf[c].key != key { InList(next, prev, order, c); }
  }

  lemma AllBusy(next: seq<nat>, prev: seq<nat>, order: seq<nat>, buf: seq<Buf>)
    requires Linked(next, prev, order) && |order| == NBUF == |buf|
    requires forall i: nat | i < NBUF :: order[i] < NBUF && buf[order[i]].refcnt > 0
    ensures forall c: nat | c < NBUF :: buf[c].refcnt > 0
  {
    forall c: nat | c < NBUF ensures buf[c].refcnt > 0 { InList(next, prev, order, c); }
  }

  /** The last idle buffer on the list is the one released longest ago. */
  lemma OldestIdle(next: seq<nat>, prev: seq<nat>, order: seq<nat>, buf: seq<Buf>, disk: map<nat, Data>, dev: nat,
                   clock: int, p: nat)
    requires Inv(buf, next, prev, order, disk, dev, clock) && p < NBUF && order[p] < NBUF
    requires forall i: nat | p < i < NBUF :: order[i] < NBUF && buf[order[i]].refcnt > 0
    ensures forall c: nat | c < NBUF && c != order[p] && buf[c].refcnt == 0 :: buf[c].stamp > buf[order[p]].stamp
  {
    forall c: nat | c < NBUF && c != order[p] && buf[c].refcnt == 0 ensures buf[c].stamp > buf[order[p]].stamp {
      InList(next, prev, order, c);
      var i: nat :| i < |order| && order[i] == c;
      assert Later(buf, order, i, p);
    }
  }
}
