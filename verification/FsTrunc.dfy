/** Giving an inode's blocks back. */
module FsTrunc {
  import opened Layout
  import opened FsState
  import opened FsBytes

  predicate Belongs(o: Owner, i: nat) { (o.Data? || o.Ind?) && o.inum == i }

  /** The blocks of inode i are free and all others as they were. */
  ghost predicate Released(st: St, t: St, i: nat) {
    && |t.owner| == |st.owner| == |st.bits| == |t.bits|
    && forall b: nat {:trigger t.owner[b]} {:trigger t.bits[b]} | b < |st.owner| ::
         && t.owner[b] == (if Belongs(st.owner[b], i) then Free else st.owner[b])
         && t.bits[b] == (if Belongs(st.owner[b], i) then false else st.bits[b])
  }

  /** One direct block freed, if there is one. */
  function Dropped(st: St, i: nat, k: nat): St
    requires i < |st.inodes| && k < NDIRECT && st.inodes[i].addrs[k] < |st.owner| == |st.bits|
  {
    if st.inodes[i].addrs[k] == 0 then st
    else St(st.meta, st.bits[st.inodes[i].addrs[k] := false], st.inodes[i := SetAddr(st.inodes[i], k, 0)], st.blocks,
            st.owner[st.inodes[i].addrs[k] := Free])
  }

  lemma DirectPlace(st: St, i: nat, k: nat)
    requires Own(st) && i < |st.inodes| && k < NDIRECT
    ensures Sizes(st)
    ensures var a := st.inodes[i].addrs[k];
            a != 0 ==> st.meta <= a < |st.owner| && st.owner[a] == Data(i, k) && st.bits[a]
  {
    assert PathOk(st, i, k);
    var a := st.inodes[i].addrs[k];
    assert a != 0 && a < |st.owner| ==> BlockOk(st, a);
  }

  lemma DroppedMap(st: St, i: nat, k: nat, j: nat, m: nat)
    requires Own(st) && i < |st.inodes| && k < NDIRECT && st.inodes[i].addrs[k] < |st.owner|
    requires j < |st.inodes| && m < MAXFILE
    ensures MapOf(Dropped(st, i, k), j, m) == if j == i && m == k then 0 else MapOf(st, j, m)
  {
    hide Word;
  }

  lemma DroppedOwn(st: St, i: nat, k: nat)
    requires Own(st) && i < |st.inodes| && k < NDIRECT
    ensures st.inodes[i].addrs[k] < |st.owner| == |st.bits|
    ensures Own(Dropped(st, i, k)) && Others(st, Dropped(st, i, k), i)
  {
    hide MapOf;
    hide ByteAt;
    DirectPlace(st, i, k);
    var t, b := Dropped(st, i, k), st.inodes[i].addrs[k];
    forall j: nat, m: nat | j < |st.inodes| && m < MAXFILE
      ensures MapOf(t, j, m) == if j == i && m == k then 0 else MapOf(st, j, m)
    {
      DroppedMap(st, i, k, j, m);
    }
    forall j: nat | j < |st.inodes| && j != i ensures Untouched(st, t, j) {
      forall n: nat | n < MAXFILE * BSIZE ensures ByteAt(t, j, n) == ByteAt(st, j, n) {
        ByteSame(st, t, j, n);
      }
    }
    if b != 0 { MovesOwn(st, t, b, Free); }
  }

  lemma ByteSame(st: St, t: St, j: nat, n: nat)
    requires j < |st.inodes| && j < |t.inodes| && n < MAXFILE * BSIZE && t.blocks == st.blocks
    requires MapOf(t, j, n / BSIZE) == MapOf(st, j, n / BSIZE)
    ensures ByteAt(t, j, n) == ByteAt(st, j, n)
  {
  }

  /** Indirect entry e of inode i with e below `to` names block b. */
  predicate Entry(st: St, i: nat, to: nat, b: nat)
    requires b < |st.owner|
  {
    st.owner[b].Data? && st.owner[b].inum == i && NDIRECT <= st.owner[b].bn < NDIRECT + to
  }

  /** The state once the indirect block and all it names are freed. */
  ghost function WithoutInd(st: St, i: nat): St
    requires Sizes(st) && i < |st.inodes|
  {
    St(st.meta,
       seq(|st.bits|, b requires 0 <= b < |st.bits| => st.bits[b] && !Entry(st, i, NINDIRECT, b)
       && st.owner[b] != Ind(i)),
       st.inodes[i := SetAddr(st.inodes[i], NDIRECT, 0)],
       st.blocks,
       seq(|st.owner|, b requires 0 <= b < |st.owner| =>
         if Entry(st, i, NINDIRECT, b) || st.owner[b] == Ind(i) then Free else st.owner[b]))
  }

  lemma WithoutIndMap(st: St, i: nat, j: nat, m: nat)
    requires Own(st) && i < |st.inodes| && j < |st.inodes| && m < MAXFILE
    ensures MapOf(WithoutInd(st, i), j, m) == if j == i && m >= NDIRECT then 0 else MapOf(st, j, m)
  {
    hide Word;
  }

  lemma WithoutIndOwn(st: St, i: nat)
    requires Own(st) && i < |st.inodes|
    ensures Own(WithoutInd(st, i)) && Others(st, WithoutInd(st, i), i)
  {
    hide MapOf;
    hide ByteAt;
    var t := WithoutInd(st, i);
    forall b: nat | b < |t.owner| ensures BlockOk(t, b) {
      assert BlockOk(st, b);
      if t.owner[b].Data? { WithoutIndMap(st, i, t.owner[b].inum, t.owner[b].bn); }
    }
    forall j: nat, m: nat | j < |t.inodes| && m < MAXFILE
      ensures PathOk(t, j, m) && (j != i ==> MapOf(t, j, m) == MapOf(st, j, m))
    {
      assert PathOk(st, j, m);
      WithoutIndMap(st, i, j, m);
    }
    forall j: nat | j < |t.inodes| ensures IndOk(t, j) { assert IndOk(st, j); }
    forall j: nat | j < |st.inodes| && j != i ensures Untouched(st, t, j) {
      forall n: nat | n < MAXFILE * BSIZE ensures ByteAt(t, j, n) == ByteAt(st, j, n) { ByteSame(st, t, j, n); }
    }
  }

  /** Entry e of the indirect block is freed next: it is allocated, and it is
      the one block of that entry. */
  lemma EntryNext(st: St, i: nat, e: nat, b: nat)
    requires Own(st) && i < |st.inodes| && e < NINDIRECT && b < |st.owner|
    ensures Sizes(st)
    ensures var c := MapOf(st, i, NDIRECT + e);
            && (c != 0 ==> c < |st.bits| && st.bits[c] && !Entry(st, i, e, c))
            && (Entry(st, i, e + 1, b) <==> Entry(st, i, e, b) || (c != 0 && b == c))
  {
    hide MapOf;
    assert PathOk(st, i, NDIRECT + e) && BlockOk(st, b);
    var c := MapOf(st, i, NDIRECT + e);
    assert c != 0 && c < |st.owner| ==> BlockOk(st, c);
  }

  lemma OthersTrans(st: St, t: St, u: St, i: nat)
    requires Others(st, t, i) && Others(t, u, i)
    ensures Others(st, u, i)
  {
    hide MapOf;
    hide ByteAt;
    forall j: nat | j < |st.inodes| && j != i ensures Untouched(st, u, j) {
      assert Untouched(st, t, j) && Untouched(t, u, j);
      forall k: nat | k < MAXFILE * BSIZE ensures ByteAt(u, j, k) == ByteAt(st, j, k) {
        assert ByteAt(t, j, k) == ByteAt(t, j, k);
      }
      forall m: nat | m < MAXFILE ensures MapOf(u, j, m) == MapOf(st, j, m) { assert MapOf(t, j, m) == MapOf(t, j, m); }
    }
  }

  lemma OthersRefl(st: St, i: nat)
    ensures Others(st, st, i)
  {
    hide MapOf;
    hide ByteAt;
    forall j: nat | j < |st.inodes| ensures Untouched(st, st, j) {}
  }

  /** An inode with no block numbers owns nothing, so its blocks were released. */
  lemma NothingLeft(st: St, t: St, i: nat)
    requires Own(st) && Own(t) && Others(st, t, i) && i < |st.inodes|
    requires forall k: nat | k <= NDIRECT :: t.inodes[i].addrs[k] == 0
    ensures Released(st, t, i)
  {
    hide Word;
    assert Sizes(st) && Sizes(t);
    forall b: nat | b < |st.owner|
      ensures t.owner[b] == if Belongs(st.owner[b], i) then Free else st.owner[b]
      ensures t.bits[b] == if Belongs(st.owner[b], i) then false else st.bits[b]
    {
      assert BlockOk(st, b) && BlockOk(t, b);
      KeptOwner(st, t, i, b);
    }
  }

  lemma KeptOwner(st: St, t: St, i: nat, b: nat)
    requires Own(st) && Own(t) && Others(st, t, i) && b < |st.owner| && i < |st.inodes|
    ensures !Belongs(st.owner[b], i) && !Belongs(t.owner[b], i) ==> t.owner[b] == st.owner[b]
    ensures (t.owner[b].Data? || t.owner[b].Ind?) && t.owner[b].inum != i ==> t.owner[b] == st.owner[b]
  {
    hide MapOf;
    hide ByteAt;
    assert BlockOk(st, b) && BlockOk(t, b);
    var o, p := st.owner[b], t.owner[b];
    if (o.Data? || o.Ind?) && o.inum != i {
      assert Untouched(st, t, o.inum);
      if o.Data? { assert MapOf(t, o.inum, o.bn) == b && PathOk(t, o.inum, o.bn); } else { assert IndOk(t, o.inum); }
    } else if (p.Data? || p.Ind?) && p.inum != i {
      assert Untouched(st, t, p.inum);
      if p.Data? { assert MapOf(t, p.inum, p.bn) == MapOf(st, p.inum, p.bn) && PathOk(st, p.inum, p.bn); }
      else { assert IndOk(st, p.inum); }
    }
  }
}
