/** The file system's blocks on disk and the operations of fs.c on them. */
module FsDisk {
  import opened Wrappers
  import opened Layout
  import opened FsState

  predicate Fits(disk: seq<Block>, sb: Super) { Geometry(sb) && |disk| == sb.size }

  function BitOf(disk: seq<Block>, sb: Super, b: nat): bool
    requires Fits(disk, sb) && b < sb.size
  {
    BlockBit(disk[BBlock(sb, b)], b % BPB)
  }

  function InodeOf(disk: seq<Block>, sb: Super, i: nat): Dinode
    requires Fits(disk, sb) && i < sb.ninodes
  {
    DinodeIn(disk[IBlock(sb, i)], i % IPB)
  }

  /** The bitmap, the inodes and the data are three separate parts of the disk. */
  ghost predicate SameBits(d: seq<Block>, e: seq<Block>, sb: Super)
    requires Fits(d, sb) && Fits(e, sb)
  {
    forall b: nat {:trigger BitOf(e, sb, b)} | b < sb.size :: BitOf(e, sb, b) == BitOf(d, sb, b)
  }

  ghost predicate SameInodes(d: seq<Block>, e: seq<Block>, sb: Super)
    requires Fits(d, sb) && Fits(e, sb)
  {
    forall i: nat {:trigger InodeOf(e, sb, i)} | i < sb.ninodes :: InodeOf(e, sb, i) == InodeOf(d, sb, i)
  }

  ghost predicate SameData(d: seq<Block>, e: seq<Block>, sb: Super)
    requires Fits(d, sb) && Fits(e, sb)
  {
    forall b: nat {:trigger e[b]} | sb.meta <= b < sb.size :: e[b] == d[b]
  }

  lemma StoreBit(d: seq<Block>, sb: Super, b: nat, v: bool)
    requires Fits(d, sb) && b < sb.size
    ensures var e := d[BBlock(sb, b) := SetBlockBit(d[BBlock(sb, b)], b % BPB, v)];
            && Fits(e, sb)
            && (forall c: nat {:trigger BitOf(e, sb, c)} | c < sb.size ::
                   BitOf(e, sb, c) == if c == b then v else BitOf(d, sb, c))
            && SameInodes(d, e, sb) && SameData(d, e, sb)
  {
    hide BlockBit;
    hide SetBlockBit;
    hide DinodeIn;
    var e := d[BBlock(sb, b) := SetBlockBit(d[BBlock(sb, b)], b % BPB, v)];
    forall c: nat | c < sb.size ensures BitOf(e, sb, c) == if c == b then v else BitOf(d, sb, c) {
      BlockBitSet(d[BBlock(sb, b)], b % BPB, v, c % BPB);
    }
    forall i: nat | i < sb.ninodes ensures InodeOf(e, sb, i) == InodeOf(d, sb, i) {}
  }

  lemma StoreInode(d: seq<Block>, sb: Super, i: nat, x: Dinode)
    requires Fits(d, sb) && i < sb.ninodes
    ensures var e := d[IBlock(sb, i) := SetDinode(d[IBlock(sb, i)], i % IPB, x)];
            && Fits(e, sb)
            && (forall j: nat {:trigger InodeOf(e, sb, j)} | j < sb.ninodes ::
                   InodeOf(e, sb, j) == if j == i then x else InodeOf(d, sb, j))
            && SameBits(d, e, sb) && SameData(d, e, sb)
  {
    hide BlockBit;
    hide SetDinode;
    hide DinodeIn;
    var e := d[IBlock(sb, i) := SetDinode(d[IBlock(sb, i)], i % IPB, x)];
    forall j: nat | j < sb.ninodes ensures InodeOf(e, sb, j) == if j == i then x else InodeOf(d, sb, j) {
      DinodeSet(d[IBlock(sb, i)], i % IPB, x, j % IPB);
    }
    forall c: nat | c < sb.size ensures BitOf(e, sb, c) == BitOf(d, sb, c) {}
  }

  lemma StoreData(d: seq<Block>, sb: Super, b: nat, x: Block)
    requires Fits(d, sb) && sb.meta <= b < sb.size
    ensures var e := d[b := x]; Fits(e, sb) && SameBits(d, e, sb) && SameInodes(d, e, sb)
  {
    hide BlockBit;
    hide DinodeIn;
    var e := d[b := x];
    forall c: nat | c < sb.size ensures BitOf(e, sb, c) == BitOf(d, sb, c) {}
    forall i: nat | i < sb.ninodes ensures InodeOf(e, sb, i) == InodeOf(d, sb, i) {}
  }

  /** readsb and the test of the magic number; the data blocks are the last ones. */
  function ReadSuper(b: Block): Option<Super> {
    var x := SuperIn(b);
    if x.magic != FSMAGIC then None
    else Some(Super(x.size, x.ninodes, x.inodestart, x.bmapstart, if x.nblocks <= x.size then x.size - x.nblocks
        else 0))
  }

  predicate SuperIs(d: seq<Block>, sb: Super) { |d| > 1 && ReadSuper(d[1]) == Some(sb) }

  /** The disk holds what st says, but for the inodes in `dirty`. */
  ghost predicate Holds(d: seq<Block>, sb: Super, st: St, dirty: set<nat>) {
    && Fits(d, sb)
    && st.meta == sb.meta && |st.bits| == |st.blocks| == |st.owner| == sb.size && |st.inodes| == sb.ninodes
    && (forall b: nat {:trigger BitOf(d, sb, b)} | b < sb.size :: BitOf(d, sb, b) == st.bits[b])
    && (forall b: nat {:trigger d[b]} | sb.meta <= b < sb.size :: d[b] == st.blocks[b])
    && (forall i: nat {:trigger InodeOf(d, sb, i)} | i < sb.ninodes && i !in dirty :: InodeOf(d, sb, i) == st.inodes[i])
  }

  lemma HoldsBit(d: seq<Block>, sb: Super, st: St, dirty: set<nat>, b: nat, v: bool)
    requires Holds(d, sb, st, dirty) && b < sb.size
    ensures Holds(d[BBlock(sb, b) := SetBlockBit(d[BBlock(sb, b)], b % BPB, v)], sb,
                  St(st.meta, st.bits[b := v], st.inodes, st.blocks, st.owner), dirty)
    ensures SuperIs(d, sb) ==> SuperIs(d[BBlock(sb, b) := SetBlockBit(d[BBlock(sb, b)], b % BPB, v)], sb)
  {
    hide BitOf;
    hide InodeOf;
    hide ReadSuper;
    StoreBit(d, sb, b, v);
  }

  lemma HoldsInode(d: seq<Block>, sb: Super, st: St, dirty: set<nat>, i: nat)
    requires Holds(d, sb, st, dirty) && i < sb.ninodes
    ensures Holds(d[IBlock(sb, i) := SetDinode(d[IBlock(sb, i)], i % IPB, st.inodes[i])], sb, st, dirty - {i})
    ensures SuperIs(d, sb) ==> SuperIs(d[IBlock(sb, i) := SetDinode(d[IBlock(sb, i)], i % IPB, st.inodes[i])], sb)
  {
    hide BitOf;
    hide InodeOf;
    hide ReadSuper;
    StoreInode(d, sb, i, st.inodes[i]);
  }

  lemma HoldsData(d: seq<Block>, sb: Super, st: St, dirty: set<nat>, b: nat, x: Block)
    requires Holds(d, sb, st, dirty) && sb.meta <= b < sb.size
    ensures Holds(d[b := x], sb, St(st.meta, st.bits, st.inodes, st.blocks[b := x], st.owner), dirty)
    ensures SuperIs(d, sb) ==> SuperIs(d[b := x], sb)
  {
    hide BitOf;
    hide InodeOf;
    hide ReadSuper;
    StoreData(d, sb, b, x);
  }

  /** Block 1 is nobody's. */
  lemma HoldsSuper(d: seq<Block>, sb: Super, st: St, dirty: set<nat>, x: Block)
    requires Holds(d, sb, st, dirty)
    ensures |d| > 1 && Holds(d[1 := x], sb, st, dirty)
  {
    hide BlockBit;
    hide DinodeIn;
    var e := d[1 := x];
    forall b: nat | b < sb.size ensures BitOf(e, sb, b) == st.bits[b] { assert BitOf(d, sb, b) == st.bits[b]; }
    forall i: nat | i < sb.ninodes && i !in dirty ensures InodeOf(e, sb, i) == st.inodes[i] {
      assert InodeOf(d, sb, i) == st.inodes[i];
    }
  }
}
