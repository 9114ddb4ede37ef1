/** How the bytes of the files change when a block is taken, filled or freed. */
module FsBytes {
  import opened Common
  import opened Layout
  import opened FsState

  ghost predicate SameBytes(st: St, t: St, j: nat)
    requires j < |st.inodes| == |t.inodes|
  {
    forall k: nat {:trigger ByteAt(t, j, k)} | k < MAXFILE * BSIZE :: ByteAt(t, j, k) == ByteAt(st, j, k)
  }

  ghost predicate SameMap(st: St, t: St, j: nat)
    requires j < |st.inodes| == |t.inodes|
  {
    forall bn: nat {:trigger MapOf(t, j, bn)} | bn < MAXFILE :: MapOf(t, j, bn) == MapOf(st, j, bn)
  }

  /** Nothing changes for inode j. */
  ghost predicate Untouched(st: St, t: St, j: nat)
    requires j < |st.inodes| == |t.inodes|
  {
    t.inodes[j] == st.inodes[j] && SameMap(st, t, j) && SameBytes(st, t, j)
  }

  ghost predicate Others(st: St, t: St, i: nat) {
    && t.meta == st.meta && |t.inodes| == |st.inodes| && |t.owner| == |st.owner|
    && forall j: nat {:trigger Untouched(st, t, j)} | j < |st.inodes| && j != i :: Untouched(st, t, j)
  }

  /** Inode i has the same fields, and its file the same bytes; block bn of it
      may have become mapped, at `a`, and no other. */
  ghost predicate Grew(st: St, t: St, i: nat, bn: nat, a: nat) {
    && i < |st.inodes| && bn < MAXFILE
    && Others(st, t, i)
    && SameInode(st.inodes[i], t.inodes[i])
    && SameBytes(st, t, i)
    && (MapOf(st, i, bn) != 0 ==> a == MapOf(st, i, bn))
    && forall m: nat {:trigger MapOf(t, i, m)} | m < MAXFILE :: MapOf(t, i, m) == if m == bn then a else MapOf(st, i, m)
  }

  /** A block taken for inode i, from the map equations of the move. */
  lemma TakenGrew(st: St, t: St, b: nat, o: Owner, i: nat, bn: nat)
    requires Own(st) && Moves(st, t, b, o) && st.owner[b].Free? && t.blocks[b] == Zero()
    requires forall c: nat {:trigger t.blocks[c]} | c < |st.blocks| && c != b && !st.owner[c].Ind? ::
               t.blocks[c] == st.blocks[c]
    requires i < |st.inodes| && bn < MAXFILE && (o == Data(i, bn) || o == Ind(i))
    requires forall j: nat {:trigger t.inodes[j]} | j < |st.inodes| && j != i :: t.inodes[j] == st.inodes[j]
    requires SameInode(st.inodes[i], t.inodes[i])
    ensures Grew(st, t, i, bn, if o.Data? then b else MapOf(st, i, bn))
  {
    hide MapOf;
    hide ByteAt;
    forall j: nat | j < |st.inodes| ensures SameBytes(st, t, j) {
      forall k: nat | k < MAXFILE * BSIZE ensures ByteAt(t, j, k) == ByteAt(st, j, k) { TakenBytes(st, t, b, o, j, k); }
    }
    forall j: nat | j < |st.inodes| && j != i ensures Untouched(st, t, j) {
      assert t.inodes[j] == t.inodes[j];
      assert BlockOk(st, b);
    }
    assert BlockOk(st, b);
  }

  lemma GrewTrans(st: St, t: St, u: St, i: nat, bn: nat, a: nat)
    requires i < |st.inodes| && bn < MAXFILE && Grew(st, t, i, bn, MapOf(st, i, bn)) && Grew(t, u, i, bn, a)
    ensures Grew(st, u, i, bn, a)
  {
    hide MapOf;
    hide ByteAt;
    forall j: nat | j < |st.inodes| && j != i ensures Untouched(st, u, j) {
      assert Untouched(st, t, j) && Untouched(t, u, j);
      forall k: nat | k < MAXFILE * BSIZE ensures ByteAt(u, j, k) == ByteAt(st, j, k) {
        assert ByteAt(t, j, k) == ByteAt(t, j, k);
      }
      forall m: nat | m < MAXFILE ensures MapOf(u, j, m) == MapOf(st, j, m) { assert MapOf(t, j, m) == MapOf(t, j, m); }
    }
    forall k: nat | k < MAXFILE * BSIZE ensures ByteAt(u, i, k) == ByteAt(st, i, k) {
      assert ByteAt(t, i, k) == ByteAt(t, i, k);
    }
    forall m: nat | m < MAXFILE ensures MapOf(u, i, m) == if m == bn then a else MapOf(st, i, m) {
      assert MapOf(t, i, m) == MapOf(t, i, m);
    }
  }

  lemma GrewRefl(st: St, i: nat, bn: nat)
    requires i < |st.inodes| && bn < MAXFILE
    ensures Grew(st, st, i, bn, MapOf(st, i, bn))
  {
    forall j: nat | j < |st.inodes| ensures Untouched(st, st, j) {}
  }

  /** New data in block bn of inode i. */
  function Filled(st: St, b: nat, d: Block): St
    requires b < |st.blocks|
  {
    St(st.meta, st.bits, st.inodes, st.blocks[b := d], st.owner)
  }

  lemma FilledMap(st: St, b: nat, d: Block, j: nat, m: nat)
    requires Own(st) && b < |st.owner| && st.owner[b].Data? && j < |st.inodes| && m < MAXFILE
    ensures MapOf(Filled(st, b, d), j, m) == MapOf(st, j, m)
  {
    hide Word;
    assert IndOk(st, j);
  }

  lemma FilledOwn(st: St, b: nat, d: Block)
    requires Own(st) && b < |st.owner| && st.owner[b].Data?
    ensures Own(Filled(st, b, d))
  {
    hide MapOf;
    var t := Filled(st, b, d);
    forall c: nat | c < |t.owner| ensures BlockOk(t, c) {
      assert BlockOk(st, c);
      if t.owner[c].Data? { FilledMap(st, b, d, t.owner[c].inum, t.owner[c].bn); }
    }
    forall j: nat, m: nat | j < |t.inodes| && m < MAXFILE ensures PathOk(t, j, m) {
      assert PathOk(st, j, m);
      FilledMap(st, b, d, j, m);
    }
    forall j: nat | j < |t.inodes| ensures IndOk(t, j) { assert IndOk(st, j); }
  }

  lemma FilledByte(st: St, b: nat, d: Block, j: nat, k: nat)
    requires Own(st) && b < |st.owner| && st.owner[b].Data? && j < |st.inodes| && k < MAXFILE * BSIZE
    ensures ByteAt(Filled(st, b, d), j, k) == if st.owner[b] == Data(j, k / BSIZE) then d[k % BSIZE]
              else ByteAt(st, j, k)
  {
    hide MapOf;
    assert PathOk(st, j, k / BSIZE) && BlockOk(st, b);
    assert BlockOk(st, 0);
    FilledMap(st, b, d, j, k / BSIZE);
  }

  /** What writei has done after `tot` bytes: those bytes of the file are the
      source's, all others are as they were, and every block they lie in and
      every block that was mapped is mapped. */
  ghost predicate Wrote(st: St, t: St, i: nat, off: nat, src: seq<byte>, tot: nat) {
    && i < |st.inodes| && tot <= |src| && off + tot <= MAXFILE * BSIZE
    && Others(st, t, i)
    && SameInode(st.inodes[i], t.inodes[i])
    && (forall k: nat {:trigger ByteAt(t, i, k)} | k < MAXFILE * BSIZE ::
          ByteAt(t, i, k) == if off <= k < off + tot then src[k - off] else ByteAt(st, i, k))
    && (forall m: nat {:trigger MapOf(t, i, m)} | m < MAXFILE ::
          MapOf(st, i, m) != 0 || (tot > 0 && off < (m + 1) * BSIZE && m * BSIZE < off + tot) ==> MapOf(t, i, m) != 0)
  }

  lemma WroteNone(st: St, i: nat, off: nat, src: seq<byte>)
    requires i < |st.inodes| && off <= MAXFILE * BSIZE
    ensures Wrote(st, st, i, off, src, 0)
  {
    hide ByteAt;
    hide MapOf;
    forall j: nat | j < |st.inodes| ensures Untouched(st, st, j) {}
  }

  /** One turn of writei's loop: a block is mapped, then m bytes of it replaced. */
  lemma WroteMore(st: St, t: St, u: St, i: nat, off: nat, src: seq<byte>, tot: nat, m: nat, b: nat)
    requires Wrote(st, t, i, off, src, tot) && Grew(t, u, i, (off + tot) / BSIZE, b) && Own(u)
    requires b != 0 && tot + m <= |src| && off + tot + m <= MAXFILE * BSIZE && (off + tot) % BSIZE + m <= BSIZE && m > 0
    requires b < |u.blocks|
    ensures var v := Filled(u, b, Splice(u.blocks[b], (off + tot) % BSIZE, src[tot..tot + m]));
            Own(v) && Wrote(st, v, i, off, src, tot + m)
  {
    hide MapOf;
    hide ByteAt;
    hide Own;
    var bn, d := (off + tot) / BSIZE, Splice(u.blocks[b], (off + tot) % BSIZE, src[tot..tot + m]);
    var v := Filled(u, b, d);
    assert MapOf(u, i, bn) == b;
    PathOf(u, i, bn);
    FilledOwn(u, b, d);
    forall j: nat | j < |st.inodes| && j != i ensures Untouched(st, v, j) {
      OtherFilled(st, t, u, i, bn, b, d, j);
    }
    forall k: nat | k < MAXFILE * BSIZE
      ensures ByteAt(v, i, k) == if off <= k < off + tot + m then src[k - off] else ByteAt(st, i, k)
    {
      FilledByte(u, b, d, i, k);
      assert ByteAt(u, i, k) == ByteAt(t, i, k);
      InBlock(u, b, i, k, off + tot, m, src[tot..tot + m]);
    }
    forall n: nat | n < MAXFILE
      ensures MapOf(st, i, n) != 0 || (off < (n + 1) * BSIZE && n * BSIZE < off + tot + m) ==> MapOf(v, i, n) != 0
    {
      FilledMap(u, b, d, i, n);
      assert MapOf(u, i, n) == if n == bn then b else MapOf(t, i, n);
    }
  }

  lemma PathOf(st: St, i: nat, bn: nat)
    requires Own(st) && i < |st.inodes| && bn < MAXFILE
    ensures Sizes(st) && PathOk(st, i, bn)
  {
    assert PathOk(st, i, bn);
  }

  lemma OtherFilled(st: St, t: St, u: St, i: nat, bn: nat, b: nat, d: Block, j: nat)
    requires Others(st, t, i) && Grew(t, u, i, bn, b) && Own(u) && j < |st.inodes| && j != i
    requires b < |u.owner| == |u.blocks| && u.owner[b] == Data(i, bn)
    ensures Untouched(st, Filled(u, b, d), j)
  {
    hide MapOf;
    hide ByteAt;
    hide Own;
    assert Untouched(st, t, j) && Untouched(t, u, j);
    forall k: nat | k < MAXFILE * BSIZE ensures ByteAt(Filled(u, b, d), j, k) == ByteAt(st, j, k) {
      FilledByte(u, b, d, j, k);
      assert ByteAt(u, j, k) == ByteAt(t, j, k);
    }
    forall m: nat | m < MAXFILE ensures MapOf(Filled(u, b, d), j, m) == MapOf(st, j, m) {
      FilledMap(u, b, d, j, m);
      assert MapOf(u, j, m) == MapOf(t, j, m);
    }
  }

  /** The bytes of a block around a splice, by file offset. */
  lemma InBlock(u: St, b: nat, i: nat, k: nat, at: nat, m: nat, s: seq<byte>)
    requires i < |u.inodes| && k < MAXFILE * BSIZE && b < |u.blocks| && |s| == m && at % BSIZE + m <= BSIZE
    requires at / BSIZE < MAXFILE && MapOf(u, i, at / BSIZE) == b && b != 0
    ensures k / BSIZE == at / BSIZE ==>
              Splice(u.blocks[b], at % BSIZE, s)[k % BSIZE] == if at <= k < at + m then s[k - at] else ByteAt(u, i, k)
    ensures k / BSIZE != at / BSIZE ==> !(at <= k < at + m)
  {
    hide MapOf;
    if k / BSIZE == at / BSIZE {
      assert k - at == k % BSIZE - at % BSIZE;
    }
  }

  /** The size after a write that ended at off + tot. */
  function Sized(st: St, i: nat, size: u32): St
    requires i < |st.inodes|
  {
    St(st.meta, st.bits,
       st.inodes[i := Dinode(st.inodes[i].typ, st.inodes[i].major, st.inodes[i].minor, st.inodes[i].nlink,
                                               size, st.inodes[i].addrs)], st.blocks, st.owner)
  }

  /** The fields of one inode change and no block number does. */
  ghost predicate Refielded(st: St, t: St, i: nat) {
    && i < |st.inodes| == |t.inodes|
    && t == St(st.meta, st.bits, st.inodes[i := t.inodes[i]], st.blocks, st.owner)
    && t.inodes[i].addrs == st.inodes[i].addrs
  }

  lemma RefieldedSame(st: St, t: St, i: nat)
    requires Refielded(st, t, i) && Own(st)
    ensures Own(t)
    ensures forall j: nat {:trigger SameMap(st, t, j)} | j < |st.inodes| :: SameMap(st, t, j)
    ensures forall j: nat {:trigger SameBytes(st, t, j)} | j < |st.inodes| :: SameBytes(st, t, j)
    ensures Others(st, t, i)
  {
    hide Word;
    forall j: nat | j < |st.inodes| ensures SameMap(st, t, j) && SameBytes(st, t, j) { RefieldedAt(st, t, i, j); }
    forall j: nat | j < |st.inodes| && j != i ensures Untouched(st, t, j) {}
    forall c: nat | c < |t.owner| ensures BlockOk(t, c) {
      assert BlockOk(st, c);
      if t.owner[c].Data? {
        assert SameMap(st, t, t.owner[c].inum);
        assert MapOf(t, t.owner[c].inum, t.owner[c].bn) == c;
      }
    }
    forall j: nat, m: nat | j < |t.inodes| && m < MAXFILE ensures PathOk(t, j, m) {
      assert PathOk(st, j, m) && SameMap(st, t, j);
    }
    forall j: nat | j < |t.inodes| ensures IndOk(t, j) { assert IndOk(st, j); }
  }

  lemma RefieldedAt(st: St, t: St, i: nat, j: nat)
    requires Refielded(st, t, i) && j < |st.inodes|
    ensures SameMap(st, t, j) && SameBytes(st, t, j)
  {
    hide Word;
  }

  /** What writei promises: the bytes written replace those at off, the file
      grows to hold them, and no other file changes. */
  lemma WroteContents(st: St, t: St, i: nat, off: nat, src: seq<byte>, tot: nat, size: u32)
    requires Good(st) && Own(t) && Wrote(st, t, i, off, src, tot) && off <= st.inodes[i].size && st.inodes[i].typ != 0
    requires size == if off + tot > st.inodes[i].size then off + tot else st.inodes[i].size
    ensures var v := Sized(t, i, size);
            && Good(v)
            && (forall j: nat | j < |st.inodes| && j != i ::
                  v.inodes[j] == st.inodes[j] && st.inodes[j].size <= MAXFILE * BSIZE
                  && Contents(v, j) == Contents(st, j))
            && size <= MAXFILE * BSIZE && st.inodes[i].size <= MAXFILE * BSIZE
            && Contents(v, i) == Contents(st, i)[..off] + src[..tot]
                                 + (if off + tot < st.inodes[i].size then Contents(st, i)[off + tot..] else [])
  {
    hide MapOf;
    hide ByteAt;
    hide Own;
    var v := Sized(t, i, size);
    assert Whole(st, i);
    RefieldedSame(t, v, i);
    forall j: nat | j < |st.inodes| && j != i
      ensures Whole(v, j) && v.inodes[j] == st.inodes[j] && st.inodes[j].size <= MAXFILE * BSIZE
              && Contents(v, j) == Contents(st, j)
    {
      assert Whole(st, j) && Untouched(st, t, j) && Untouched(t, v, j);
      SameContents(st, t, j);
      SameContents(t, v, j);
    }
    assert Whole(v, i) by { CoveredAfter(st, t, i, off, src, tot, size); }
    ContentsAfter(st, t, i, off, src, tot, size);
    GoodIntro(v);
  }

  lemma GoodIntro(v: St)
    requires Own(v) && forall j: nat {:trigger Whole(v, j)} | j < |v.inodes| :: Whole(v, j)
    ensures Good(v)
  {
  }

  lemma SameContents(st: St, t: St, j: nat)
    requires j < |st.inodes| == |t.inodes| && Whole(st, j) && Untouched(st, t, j)
    ensures Whole(t, j) && st.inodes[j].size <= MAXFILE * BSIZE && Contents(t, j) == Contents(st, j)
  {
    hide MapOf;
    hide ByteAt;
    forall k: nat | k < st.inodes[j].size ensures Contents(t, j)[k] == Contents(st, j)[k] {
      assert ByteAt(t, j, k) == ByteAt(st, j, k);
    }
  }

  lemma CoveredAfter(st: St, t: St, i: nat, off: nat, src: seq<byte>, tot: nat, size: u32)
    requires i < |st.inodes| && Whole(st, i) && Wrote(st, t, i, off, src, tot) && off <= st.inodes[i].size
             && st.inodes[i].typ != 0
    requires size == if off + tot > st.inodes[i].size then off + tot else st.inodes[i].size
    ensures Whole(Sized(t, i, size), i)
  {
    hide MapOf;
    hide ByteAt;
    var v := Sized(t, i, size);
    RefieldedAt(t, v, i, i);
    forall m: nat | m < MAXFILE && m * BSIZE < size ensures MapOf(v, i, m) != 0 {
      assert MapOf(v, i, m) == MapOf(t, i, m);
      if m * BSIZE < st.inodes[i].size { assert MapOf(st, i, m) != 0; }
    }
  }

  lemma ContentsAfter(st: St, t: St, i: nat, off: nat, src: seq<byte>, tot: nat, size: u32)
    requires i < |st.inodes| && Whole(st, i) && Wrote(st, t, i, off, src, tot) && off <= st.inodes[i].size
    requires size == if off + tot > st.inodes[i].size then off + tot else st.inodes[i].size
    ensures size <= MAXFILE * BSIZE
    ensures Contents(Sized(t, i, size), i)
         == Contents(st, i)[..off] + src[..tot]
            + (if off + tot < st.inodes[i].size then Contents(st, i)[off + tot..] else [])
  {
    hide MapOf;
    hide ByteAt;
    var v := Sized(t, i, size);
    RefieldedAt(t, v, i, i);
    var r :=
      Contents(st, i)[..off] + src[..tot] +
        (if off + tot < st.inodes[i].size then Contents(st, i)[off + tot..] else []);
    assert |r| == size;
    forall k: nat | k < size ensures Contents(v, i)[k] == r[k] {
      assert ByteAt(v, i, k) == ByteAt(t, i, k);
    }
  }
}
