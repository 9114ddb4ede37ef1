/** What the file system means: which block belongs to what, and the bytes of
    each inode. */
module FsState {
  import opened Common
  import opened Layout

  /** Block bn of an inode's file, its indirect block, or neither. */
  datatype Owner = Meta | Free | Data(inum: nat, bn: nat) | Ind(inum: nat)

  /** `inodes` are the inodes in force (the in-memory copy where there is one),
      `owner` says what each block is for. */
  datatype St = St(meta: nat, bits: seq<bool>, inodes: seq<Dinode>, blocks: seq<Block>, owner: seq<Owner>)

  predicate Sizes(st: St) { 0 < st.meta < |st.bits| == |st.blocks| == |st.owner| < 0x1_0000_0000 }

  /** The block that holds block bn of the file, or 0. */
  function MapOf(st: St, i: nat, bn: nat): nat
    requires i < |st.inodes| && bn < MAXFILE
  {
    var a := st.inodes[i].addrs;
    if bn < NDIRECT then a[bn]
    else if a[NDIRECT] == 0 || a[NDIRECT] >= |st.blocks| then 0
    else Word(st.blocks[a[NDIRECT]], bn - NDIRECT)
  }

  predicate BlockOk(st: St, b: nat)
    requires Sizes(st) && b < |st.owner|
  {
    && (b < st.meta <==> st.owner[b].Meta?)
    && (st.bits[b] <==> !st.owner[b].Free?)
    && match st.owner[b]
       case Data(i, bn) => i < |st.inodes| && bn < MAXFILE && MapOf(st, i, bn) == b
       case Ind(i) => i < |st.inodes| && st.inodes[i].addrs[NDIRECT] == b
       case _ => true
  }

  predicate PathOk(st: St, i: nat, bn: nat)
    requires Sizes(st) && i < |st.inodes| && bn < MAXFILE
  {
    var a := MapOf(st, i, bn);
    a != 0 ==> a < |st.owner| && st.owner[a] == Data(i, bn)
  }

  predicate IndOk(st: St, i: nat)
    requires Sizes(st) && i < |st.inodes|
  {
    var a := st.inodes[i].addrs[NDIRECT];
    a != 0 ==> a < |st.owner| && st.owner[a] == Ind(i)
  }

  /** A bit is set exactly when the block is metadata or belongs to exactly one
      place in one inode. */
  ghost predicate Own(st: St) {
    && Sizes(st)
    && (forall b: nat {:trigger BlockOk(st, b)} | b < |st.owner| :: BlockOk(st, b))
    && (forall i: nat, bn: nat {:trigger PathOk(st, i, bn)} | i < |st.inodes| && bn < MAXFILE :: PathOk(st, i, bn))
    && (forall i: nat {:trigger IndOk(st, i)} | i < |st.inodes| :: IndOk(st, i))
  }

  /** Every block below the size is mapped. */
  ghost predicate Covered(st: St, i: nat)
    requires i < |st.inodes|
  {
    && st.inodes[i].size <= MAXFILE * BSIZE
    && forall bn: nat {:trigger MapOf(st, i, bn)} | bn < MAXFILE && bn * BSIZE < st.inodes[i].size ::
         MapOf(st, i, bn) != 0
  }

  /** An inode of type 0 has nothing. */
  predicate Bare(d: Dinode) { d.size == 0 && forall k: nat | k <= NDIRECT :: d.addrs[k] == 0 }

  ghost predicate Whole(st: St, i: nat)
    requires i < |st.inodes|
  {
    Covered(st, i) && (st.inodes[i].typ == 0 ==> Bare(st.inodes[i]))
  }

  ghost predicate Good(st: St) {
    Own(st) && forall i: nat {:trigger Whole(st, i)} | i < |st.inodes| :: Whole(st, i)
  }

  // ---- bytes ----

  /** Byte k of inode i's file; 0 where no block is mapped. */
  function ByteAt(st: St, i: nat, k: nat): byte
    requires i < |st.inodes| && k < MAXFILE * BSIZE
  {
    var a := MapOf(st, i, k / BSIZE);
    if a == 0 || a >= |st.blocks| then 0 else st.blocks[a][k % BSIZE]
  }

  ghost function Contents(st: St, i: nat): (r: seq<byte>)
    requires i < |st.inodes| && st.inodes[i].size <= MAXFILE * BSIZE
    ensures |r| == st.inodes[i].size
  {
    seq(st.inodes[i].size, k requires 0 <= k < st.inodes[i].size => ByteAt(st, i, k))
  }

  lemma ContentsSize(st: St, i: nat)
    requires i < |st.inodes| && st.inodes[i].size <= MAXFILE * BSIZE
    ensures |Contents(st, i)| == st.inodes[i].size
  {
  }

  // ---- one block changes hands ----

  predicate SameInode(d: Dinode, e: Dinode) {
    e.typ == d.typ && e.major == d.major && e.minor == d.minor && e.nlink == d.nlink && e.size == d.size
  }

  /** Block b goes from free to o, or from its owner to free, and the maps follow. */
  ghost predicate Moves(st: St, t: St, b: nat, o: Owner) {
    && Sizes(st) && st.meta <= b < |st.owner|
    && !o.Meta?
    && (st.owner[b].Free? || o.Free?)
    && (o.Data? ==> o.inum < |st.inodes| && o.bn < MAXFILE && MapOf(st, o.inum, o.bn) == 0)
    && (o.Ind? ==> o.inum < |st.inodes| && st.inodes[o.inum].addrs[NDIRECT] == 0)
    && t.meta == st.meta && |t.inodes| == |st.inodes| && |t.blocks| == |st.blocks|
    && t.bits == st.bits[b := !o.Free?] && t.owner == st.owner[b := o]
    && (forall i: nat, bn: nat {:trigger MapOf(t, i, bn)} | i < |st.inodes| && bn < MAXFILE ::
          MapOf(t, i, bn) == if o == Data(i, bn) then b else if st.owner[b] == Data(i, bn) then 0 else MapOf(st, i, bn))
    && (forall i: nat {:trigger t.inodes[i]} | i < |st.inodes| ::
          t.inodes[i].addrs[NDIRECT] ==
          if o == Ind(i) then b else if st.owner[b] == Ind(i) then 0 else st.inodes[i].addrs[NDIRECT])
  }

  lemma MovesBlock(st: St, t: St, b: nat, o: Owner, c: nat)
    requires Own(st) && Moves(st, t, b, o) && c < |st.owner|
    ensures Sizes(t) && BlockOk(t, c)
  {
    assert BlockOk(st, b) && BlockOk(st, c);
    match t.owner[c] {
      case Data(i, bn) => assert MapOf(t, i, bn) == MapOf(t, i, bn);
      case Ind(i) => assert t.inodes[i] == t.inodes[i];
      case _ =>
    }
  }

  lemma MovesPath(st: St, t: St, b: nat, o: Owner, i: nat, bn: nat)
    requires Own(st) && Moves(st, t, b, o) && i < |st.inodes| && bn < MAXFILE
    ensures Sizes(t) && PathOk(t, i, bn) && IndOk(t, i)
  {
    assert BlockOk(st, b) && PathOk(st, i, bn) && IndOk(st, i);
    assert MapOf(t, i, bn) == MapOf(t, i, bn) && t.inodes[i] == t.inodes[i];
  }

  lemma MovesOwn(st: St, t: St, b: nat, o: Owner)
    requires Own(st) && Moves(st, t, b, o)
    ensures Own(t)
  {
    hide Own;
    hide Moves;
    hide BlockOk;
    hide PathOk;
    hide IndOk;
    SizesOf(st, t, b, o);
    forall c: nat | c < |t.owner| ensures BlockOk(t, c) { MovesBlock(st, t, b, o, c); }
    forall i: nat, bn: nat | i < |t.inodes| && bn < MAXFILE ensures PathOk(t, i, bn) { MovesPath(st, t, b, o, i, bn); }
    forall i: nat | i < |t.inodes| ensures IndOk(t, i) { MovesPath(st, t, b, o, i, 0); }
    OwnIntro(t);
  }

  lemma SizesOf(st: St, t: St, b: nat, o: Owner)
    requires Own(st) && Moves(st, t, b, o)
    ensures Sizes(t) && |t.owner| == |st.owner| && |t.inodes| == |st.inodes|
  {
  }

  lemma OwnIntro(t: St)
    requires Sizes(t)
    requires forall b: nat {:trigger BlockOk(t, b)} | b < |t.owner| :: BlockOk(t, b)
    requires forall i: nat, bn: nat {:trigger PathOk(t, i, bn)} | i < |t.inodes| && bn < MAXFILE :: PathOk(t, i, bn)
    requires forall i: nat {:trigger IndOk(t, i)} | i < |t.inodes| :: IndOk(t, i)
    ensures Own(t)
  {
  }

  function SetAddr(d: Dinode, k: nat, b: u32): (e: Dinode)
    requires k <= NDIRECT
    ensures SameInode(d, e) && e.addrs == d.addrs[k := b]
  {
    Dinode(d.typ, d.major, d.minor, d.nlink, d.size, d.addrs[k := b])
  }

  /** balloc for a direct block of inode i. */
  function WithDirect(st: St, i: nat, bn: nat, b: u32): St
    requires Sizes(st) && i < |st.inodes| && bn < NDIRECT && b < |st.owner|
  {
    St(st.meta, st.bits[b := true], st.inodes[i := SetAddr(st.inodes[i], bn, b)], st.blocks[b := Zero()],
       st.owner[b := Data(i, bn)])
  }

  /** balloc for the indirect block. */
  function WithInd(st: St, i: nat, b: u32): St
    requires Sizes(st) && i < |st.inodes| && b < |st.owner|
  {
    St(st.meta, st.bits[b := true], st.inodes[i := SetAddr(st.inodes[i], NDIRECT, b)], st.blocks[b := Zero()],
       st.owner[b := Ind(i)])
  }

  /** Entry j of the indirect block `ind` becomes v. */
  function Entered(blocks: seq<Block>, ind: nat, j: nat, v: u32): seq<Block>
    requires ind < |blocks| && j < NINDIRECT
  {
    blocks[ind := SetWord(blocks[ind], j, v)]
  }

  /** balloc for a block named by the indirect block. */
  function WithEntry(st: St, i: nat, bn: nat, b: u32): St
    requires Sizes(st) && i < |st.inodes| && NDIRECT <= bn < MAXFILE && b < |st.owner|
    requires st.inodes[i].addrs[NDIRECT] < |st.blocks|
  {
    St(st.meta, st.bits[b := true], st.inodes,
       Entered(st.blocks[b := Zero()], st.inodes[i].addrs[NDIRECT], bn - NDIRECT, b),
       st.owner[b := Data(i, bn)])
  }

  lemma FreeIsNoInd(st: St, b: nat, i: nat)
    requires Own(st) && b < |st.owner| && st.owner[b].Free? && i < |st.inodes|
    ensures st.inodes[i].addrs[NDIRECT] != b || b == 0
    ensures b != 0
  {
    assert BlockOk(st, 0) && BlockOk(st, b) && IndOk(st, i);
  }

  lemma WithDirectMap(st: St, i: nat, bn: nat, b: u32, j: nat, m: nat)
    requires Own(st) && i < |st.inodes| && bn < NDIRECT && b < |st.owner| && st.owner[b].Free?
             && st.inodes[i].addrs[bn] == 0
    requires j < |st.inodes| && m < MAXFILE
    ensures MapOf(WithDirect(st, i, bn, b), j, m) == if j == i && m == bn then b else MapOf(st, j, m)
  {
    hide Word;
    FreeIsNoInd(st, b, j);
  }

  lemma WithDirectOwn(st: St, i: nat, bn: nat, b: u32)
    requires Own(st) && i < |st.inodes| && bn < NDIRECT && b < |st.owner| && st.owner[b].Free?
             && st.inodes[i].addrs[bn] == 0
    ensures Moves(st, WithDirect(st, i, bn, b), b, Data(i, bn)) && Own(WithDirect(st, i, bn, b))
  {
    hide MapOf;
    var t := WithDirect(st, i, bn, b);
    assert BlockOk(st, b);
    MapDirect(st, i, bn);
    forall j: nat, m: nat | j < |st.inodes| && m < MAXFILE
      ensures MapOf(t, j, m) == if j == i && m == bn then b else MapOf(st, j, m)
    {
      WithDirectMap(st, i, bn, b, j, m);
    }
    MovesOwn(st, t, b, Data(i, bn));
  }

  lemma MapDirect(st: St, i: nat, bn: nat)
    requires i < |st.inodes| && bn < NDIRECT
    ensures MapOf(st, i, bn) == st.inodes[i].addrs[bn]
  {
  }

  lemma WithIndMap(st: St, i: nat, b: u32, j: nat, m: nat)
    requires Own(st) && i < |st.inodes| && b < |st.owner| && st.owner[b].Free? && st.inodes[i].addrs[NDIRECT] == 0
    requires j < |st.inodes| && m < MAXFILE
    ensures MapOf(WithInd(st, i, b), j, m) == MapOf(st, j, m)
  {
    hide Word;
    FreeIsNoInd(st, b, j);
    if m >= NDIRECT { ZeroWords(m - NDIRECT); }
  }

  lemma WithIndOwn(st: St, i: nat, b: u32)
    requires Own(st) && i < |st.inodes| && b < |st.owner| && st.owner[b].Free? && st.inodes[i].addrs[NDIRECT] == 0
    ensures Moves(st, WithInd(st, i, b), b, Ind(i)) && Own(WithInd(st, i, b))
  {
    hide MapOf;
    var t := WithInd(st, i, b);
    assert BlockOk(st, b);
    forall j: nat, m: nat | j < |st.inodes| && m < MAXFILE ensures MapOf(t, j, m) == MapOf(st, j, m) {
      WithIndMap(st, i, b, j, m);
    }
    MovesOwn(st, t, b, Ind(i));
  }

  lemma WithEntryMap(st: St, i: nat, bn: nat, b: u32, j: nat, m: nat)
    requires Own(st) && i < |st.inodes| && NDIRECT <= bn < MAXFILE && b < |st.owner| && st.owner[b].Free?
    requires st.inodes[i].addrs[NDIRECT] != 0 && MapOf(st, i, bn) == 0
    requires j < |st.inodes| && m < MAXFILE
    ensures st.inodes[i].addrs[NDIRECT] < |st.blocks|
    ensures MapOf(WithEntry(st, i, bn, b), j, m) == if j == i && m == bn then b else MapOf(st, j, m)
  {
    hide Word;
    hide SetWord;
    assert IndOk(st, i) && IndOk(st, j) && BlockOk(st, b);
    FreeIsNoInd(st, b, j);
    FreeIsNoInd(st, b, i);
    if m >= NDIRECT {
      WordSet(st.blocks[st.inodes[i].addrs[NDIRECT]], bn - NDIRECT, b, m - NDIRECT);
    }
  }

  lemma WithEntryOwn(st: St, i: nat, bn: nat, b: u32)
    requires Own(st) && i < |st.inodes| && NDIRECT <= bn < MAXFILE && b < |st.owner| && st.owner[b].Free?
    requires st.inodes[i].addrs[NDIRECT] != 0 && MapOf(st, i, bn) == 0
    ensures st.inodes[i].addrs[NDIRECT] < |st.blocks|
    ensures Moves(st, WithEntry(st, i, bn, b), b, Data(i, bn)) && Own(WithEntry(st, i, bn, b))
  {
    hide MapOf;
    hide SetWord;
    assert BlockOk(st, b) && IndOk(st, i);
    var t := WithEntry(st, i, bn, b);
    forall j: nat, m: nat | j < |st.inodes| && m < MAXFILE
      ensures MapOf(t, j, m) == if j == i && m == bn then b else MapOf(st, j, m)
    {
      WithEntryMap(st, i, bn, b, j, m);
    }
    MovesOwn(st, t, b, Data(i, bn));
  }

  /** Taking a block changes no byte of any file: the new block reads as zeros,
      as the unmapped place did. */
  lemma TakenBytes(st: St, t: St, b: nat, o: Owner, j: nat, k: nat)
    requires Own(st) && Moves(st, t, b, o) && st.owner[b].Free? && !o.Free? && t.blocks[b] == Zero()
    requires forall c: nat {:trigger t.blocks[c]} | c < |st.blocks| && c != b && !st.owner[c].Ind? ::
               t.blocks[c] == st.blocks[c]
    requires j < |st.inodes| && k < MAXFILE * BSIZE
    ensures ByteAt(t, j, k) == ByteAt(st, j, k)
  {
    hide MapOf;
    var bn := k / BSIZE;
    assert PathOk(st, j, bn) && BlockOk(st, b);
    assert MapOf(t, j, bn) == MapOf(t, j, bn);
    var a := MapOf(st, j, bn);
    assert a != 0 && a < |t.blocks| && a != b && !st.owner[a].Ind? ==> t.blocks[a] == st.blocks[a];
  }

  // ---- what the ownership invariant means, without the owner map ----

  predicate InFile(st: St, i: nat, bn: nat, b: nat) { i < |st.inodes| && bn < MAXFILE && MapOf(st, i, bn) == b }

  predicate IsInd(st: St, i: nat, b: nat) { i < |st.inodes| && st.inodes[i].addrs[NDIRECT] == b }

  /** A bit is set exactly when the block is metadata, holds some block of some
      file, or is some inode's indirect block: none leaks, none is lost. */
  lemma BitMeans(st: St, b: nat)
    requires Own(st) && b < |st.bits|
    ensures st.bits[b] <==>
              b < st.meta || (exists i: nat, bn: nat :: InFile(st, i, bn, b)) || (exists i: nat :: IsInd(st, i, b))
  {
    hide MapOf;
    assert BlockOk(st, b) && BlockOk(st, 0);
    match st.owner[b] {
      case Data(i, bn) => assert InFile(st, i, bn, b);
      case Ind(i) => assert IsInd(st, i, b);
      case _ =>
    }
    forall i: nat, bn: nat | InFile(st, i, bn, b) ensures st.bits[b] { assert b != 0 ==> PathOk(st, i, bn); }
    forall i: nat | IsInd(st, i, b) ensures st.bits[b] { assert b != 0 ==> IndOk(st, i); }
  }

  /** No block has two uses: not in two files, not twice in one, not as data and
      as an indirect block, and none is metadata. */
  lemma NoSharing(st: St, b: nat, i: nat, bn: nat, j: nat, m: nat)
    requires Own(st) && b != 0 && InFile(st, i, bn, b)
    ensures st.meta <= b < |st.bits|
    ensures InFile(st, j, m, b) ==> j == i && m == bn
    ensures !IsInd(st, j, b)
  {
    hide MapOf;
    assert PathOk(st, i, bn);
    assert BlockOk(st, b);
    assert InFile(st, j, m, b) ==> PathOk(st, j, m);
    assert IsInd(st, j, b) ==> IndOk(st, j);
  }
}
