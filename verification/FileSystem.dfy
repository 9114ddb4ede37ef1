/** The block and inode layer of fs.c, as one object whose methods read and write
    the disk, proved against the bytes each inode means. */
module FileSystem {
  import opened Common
  import opened Layout
  import opened FsState
  import opened FsBytes
  import opened FsTrunc
  import opened FsDisk

  const NINODE: nat := 64

  /** A slot of the inode table. */
  datatype Incore = Incore(inum: nat, ref: nat, valid: bool, di: Dinode)

  predicate SlotOk(t: seq<Incore>, st: St, s: nat)
    requires s < |t|
  {
    t[s].ref > 0 ==> t[s].inum < |st.inodes| && (t[s].valid ==> t[s].di == st.inodes[t[s].inum])
  }

  /** Valid slots hold the inodes in force, and no inode is in two slots. */
  ghost predicate TableOk(t: seq<Incore>, st: St) {
    && (forall s: nat {:trigger SlotOk(t, st, s)} | s < |t| :: SlotOk(t, st, s))
    && (forall s: nat, r: nat {:trigger t[s], t[r]} | s < r < |t| && t[s].ref > 0 && t[r].ref > 0 ::
           t[s].inum != t[r].inum)
  }

  /** No slot holds a freed inode. */
  predicate Typed(t: seq<Incore>) {
    forall s: nat {:trigger t[s]} | s < |t| && t[s].ref > 0 && t[s].valid :: t[s].di.typ != 0
  }

  /** Slot s is locked and loaded. */
  predicate Loaded(t: seq<Incore>, s: nat) { s < |t| && t[s].ref > 0 && t[s].valid }

  lemma LoadedIs(t: seq<Incore>, st: St, s: nat)
    requires TableOk(t, st) && Loaded(t, s)
    ensures t[s].inum < |st.inodes| && t[s].di == st.inodes[t[s].inum]
  {
    assert SlotOk(t, st, s);
  }

  /** The inode of slot s becomes d, in memory and in force. */
  lemma TableSet(t: seq<Incore>, st: St, s: nat, d: Dinode, u: St)
    requires TableOk(t, st) && Loaded(t, s) && t[s].inum < |st.inodes| && u.inodes == st.inodes[t[s].inum := d]
    ensures TableOk(t[s := t[s].(di := d)], u)
  {
    var t' := t[s := t[s].(di := d)];
    LoadedIs(t, st, s);
    forall r: nat | r < |t'| ensures SlotOk(t', u, r) {
      assert SlotOk(t, st, r);
      if r < s { assert t[r] == t[r] && t[s] == t[s]; } else if s < r { assert t[s] == t[s] && t[r] == t[r]; }
    }
    forall r: nat, q: nat | r < q < |t'| && t'[r].ref > 0 && t'[q].ref > 0 ensures t'[r].inum != t'[q].inum {
      assert t[r] == t[r] && t[q] == t[q];
    }
  }

  lemma TableSame(t: seq<Incore>, st: St, u: St)
    requires TableOk(t, st) && u.inodes == st.inodes
    ensures TableOk(t, u)
  {
    forall r: nat | r < |t| ensures SlotOk(t, u, r) { assert SlotOk(t, st, r); }
  }

  function Taken(st: St, b: nat): St
    requires Sizes(st) && b < |st.bits|
  {
    St(st.meta, st.bits[b := true], st.inodes, st.blocks[b := Zero()], st.owner)
  }

  function Freed(st: St, b: nat): St
    requires Sizes(st) && b < |st.bits|
  {
    St(st.meta, st.bits[b := false], st.inodes, st.blocks, st.owner)
  }

  lemma SameBitmapBlock(sb: Super, b: nat, bi: nat)
    requires b % BPB == 0 && bi < BPB
    ensures BBlock(sb, b + bi) == BBlock(sb, b) && (b + bi) % BPB == bi
  {
  }

  lemma MetaBits(st: St, b: nat)
    requires Own(st) && b < |st.bits| && !st.bits[b]
    ensures st.meta <= b && st.owner[b].Free?
  {
    assert BlockOk(st, b);
  }

  class FileSystem {
    const sb: Super
    var disk: seq<Block>
    var itable: seq<Incore>
    ghost var st: St
    ghost var dirty: set<nat>

    ghost predicate Synced()
      reads this
    {
      Holds(disk, sb, st, dirty) && SuperIs(disk, sb) && Sizes(st) && TableOk(itable, st)
    }

    /** fsinit, of a disk whose block 1 has the magic number: nothing is in memory
        but the superblock that is read there. */
    constructor Mount(disk: seq<Block>, ghost st: St)
      requires |disk| > 1 && ReadSuper(disk[1]).Some? && Holds(disk, ReadSuper(disk[1]).value, st, {}) && Good(st)
      ensures Ready() && SuperIs(disk, sb) && this.disk == disk && this.st == st && |itable| == NINODE
      ensures forall s: nat | s < NINODE :: itable[s].ref == 0
    {
      sb, this.disk, this.st, dirty := ReadSuper(disk[1]).value, disk, st, {};
      itable := seq(NINODE, _ => Incore(0, 0, false, Blank()));
      new;
      assert Own(this.st);
    }

    /** fs.c's balloc: the first block whose bit is clear, zeroed; 0 if none. */
    method Balloc() returns (r: u32)
      requires Synced() && Own(st)
      modifies this`disk, this`st
      ensures Synced()
      ensures r == 0 ==> disk == old(disk) && st == old(st) && forall c: nat | c < |st.bits| :: st.bits[c]
      ensures r != 0 ==> r < |old(st).owner| && old(st).owner[r].Free? && st == Taken(old(st), r)
      ensures r != 0 ==> forall c: nat | c < r :: old(st).bits[c]
    {
      hide BlockBit;
      hide SetBlockBit;
      hide SuperIs;
      hide Own;
      var b := 0;
      while b < sb.size
        invariant b % BPB == 0 && disk == old(disk) && st == old(st)
        invariant forall c: nat | c < b && c < sb.size :: st.bits[c]
      {
        var bp := disk[BBlock(sb, b)];
        var bi := 0;
        while bi < BPB && b + bi < sb.size
          invariant bi <= BPB && disk == old(disk) && st == old(st)
          invariant forall c: nat | c < b + bi && c < sb.size :: st.bits[c]
        {
          SameBitmapBlock(sb, b, bi);
          assert BlockBit(bp, bi) == BitOf(disk, sb, b + bi) == st.bits[b + bi];
          if !BlockBit(bp, bi) {
            r := b + bi;
            MetaBits(st, r);
            HoldsBit(disk, sb, st, dirty, r, true);
            disk := disk[BBlock(sb, b) := SetBlockBit(bp, bi, true)];
            st := St(st.meta, st.bits[r := true], st.inodes, st.blocks, st.owner);
            HoldsData(disk, sb, st, dirty, r, Zero());
            disk := disk[r := Zero()];
            st := St(st.meta, st.bits, st.inodes, st.blocks[r := Zero()], st.owner);
            TableSame(itable, old(st), st);
            return;
          }
          bi := bi + 1;
        }
        b := b + BPB;
      }
      r := 0;
    }

    /** fs.c's bfree. It panics on a free block: no caller frees one. */
    method Bfree(b: u32)
      requires Synced() && b < |st.bits| && st.bits[b]
      modifies this`disk, this`st
      ensures Synced() && st == Freed(old(st), b)
    {
      hide SuperIs;
      hide BlockBit;
      hide SetBlockBit;
      var bp := disk[BBlock(sb, b)];
      var bi := b % BPB;
      assert BlockBit(bp, bi) == BitOf(disk, sb, b);
      HoldsBit(disk, sb, st, dirty, b, false);
      disk := disk[BBlock(sb, b) := SetBlockBit(bp, bi, false)];
      st := Freed(st, b);
      TableSame(itable, old(st), st);
    }

    /** The slots other than s keep everything. */
    twostate predicate OnlySlot(s: nat)
      reads this
    {
      && |itable| == |old(itable)| && s < |itable|
      && itable == old(itable)[s := itable[s]]
      && itable[s].inum == old(itable)[s].inum && itable[s].ref == old(itable)[s].ref
    }

    /** A block just taken becomes block number k of the inode of slot s. */
    method SetAddrOf(s: nat, k: nat, b: u32, ghost u: St)
      requires Synced() && Loaded(itable, s) && k <= NDIRECT
      requires itable[s].inum < |st.inodes|
      requires u.meta == st.meta && u.bits == st.bits && u.blocks == st.blocks && |u.owner| == |st.owner|
      requires u.inodes == st.inodes[itable[s].inum := SetAddr(st.inodes[itable[s].inum], k, b)]
      modifies this`itable, this`st, this`dirty
      ensures Synced() && Loaded(itable, s) && OnlySlot(s) && st == u
      ensures itable[s].di == SetAddr(old(itable)[s].di, k, b)
      ensures dirty == old(dirty) + {itable[s].inum}
    {
      hide SuperIs;
      hide BitOf;
      hide InodeOf;
      LoadedIs(itable, st, s);
      TableSet(itable, st, s, SetAddr(itable[s].di, k, b), u);
      itable := itable[s := itable[s].(di := SetAddr(itable[s].di, k, b))];
      dirty := dirty + {itable[s].inum};
      st := u;
    }

    /** bmap for a direct block. */
    method BmapDirect(s: nat, bn: u32, alloc: bool) returns (r: u32)
      requires Synced() && Own(st) && Loaded(itable, s) && bn < NDIRECT
      modifies this
      ensures Synced() && Own(st) && Loaded(itable, s) && OnlySlot(s)
      ensures itable[s].inum < |old(st).inodes| && Grew(old(st), st, itable[s].inum, bn, r)
      ensures dirty <= old(dirty) + {itable[s].inum}
      ensures alloc && r == 0 ==> forall c: nat | c < |st.bits| :: st.bits[c]
      ensures !alloc ==> st == old(st) && disk == old(disk) && itable == old(itable) && dirty == old(dirty)
    {
      hide Own;
      hide Grew;
      hide Holds;
      hide SuperIs;
      hide TableOk;
      LoadedIs(itable, st, s);
      ghost var i, st0 := itable[s].inum, st;
      MapDirect(st, i, bn);
      GrewRefl(st, i, bn);
      r := itable[s].di.addrs[bn];
      if r == 0 && alloc {
        r := Balloc();
        if r != 0 {
          WithDirectOwn(st0, i, bn, r);
          DirectGrew(st0, i, bn, r);
          SetAddrOf(s, bn, r, WithDirect(st0, i, bn, r));
        }
      }
    }

    /** bmap for a block named by the indirect block, once there is one. */
    method BmapEntry(s: nat, bn: u32, alloc: bool) returns (r: u32)
      requires Synced() && Own(st) && Loaded(itable, s) && NDIRECT <= bn < MAXFILE && itable[s].di.addrs[NDIRECT] != 0
      modifies this`disk, this`st
      ensures Synced() && Own(st)
      ensures itable[s].inum < |old(st).inodes| && Grew(old(st), st, itable[s].inum, bn, r)
      ensures alloc && r == 0 ==> forall c: nat | c < |st.bits| :: st.bits[c]
      ensures !alloc ==> st == old(st) && disk == old(disk)
    {
      hide SuperIs;
      hide Own;
      hide Grew;
      hide BitOf;
      hide InodeOf;
      hide Word;
      hide SetWord;
      LoadedIs(itable, st, s);
      ghost var i, st0 := itable[s].inum, st;
      var indirect := itable[s].di.addrs[NDIRECT];
      IndPlace(st, i);
      var bp := disk[indirect];
      r := Word(bp, bn - NDIRECT);
      assert r == MapOf(st, i, bn);
      GrewRefl(st, i, bn);
      if r == 0 && alloc {
        r := Balloc();
        if r != 0 {
          FreeIsNoInd(st0, r, i);
          WithEntryOwn(st0, i, bn, r);
          EntryGrew(st0, i, bn, r);
          HoldsData(disk, sb, st, dirty, indirect, SetWord(bp, bn - NDIRECT, r));
          disk := disk[indirect := SetWord(bp, bn - NDIRECT, r)];
          st := WithEntry(st0, i, bn, r);
          TableSame(itable, st0, st);
        }
      }
    }

    /** fs.c's bmap: the block that holds block bn of the file; with alloc, one
        is taken for it, and for the indirect block, where there is none. */
    method Bmap(s: nat, bn: u32, alloc: bool) returns (r: u32)
      requires Synced() && Own(st) && Loaded(itable, s)
      modifies this
      ensures Synced() && Own(st) && Loaded(itable, s) && OnlySlot(s)
      ensures bn < MAXFILE ==> itable[s].inum < |old(st).inodes| && Grew(old(st), st, itable[s].inum, bn, r)
      ensures dirty <= old(dirty) + {itable[s].inum}
      ensures bn < MAXFILE && alloc && r == 0 ==> forall c: nat | c < |st.bits| :: st.bits[c]
      ensures bn >= MAXFILE ==> r == 0
      ensures !alloc || bn >= MAXFILE ==>
                st == old(st) && disk == old(disk) && itable == old(itable) && dirty == old(dirty)
    {
      hide Own;
      hide Grew;
      hide Holds;
      hide SuperIs;
      hide TableOk;
      LoadedIs(itable, st, s);
      ghost var i, st0 := itable[s].inum, st;
      if bn < NDIRECT {
        r := BmapDirect(s, bn, alloc);
        return;
      }
      if bn - NDIRECT < NINDIRECT {
        if itable[s].di.addrs[NDIRECT] == 0 {
          NoIndNoMap(st, i, bn);
          GrewRefl(st, i, bn);
          if !alloc {
            r := 0;
            return;
          }
          var indirect := Balloc();
          if indirect == 0 {
            r := 0;
            return;
          }
          WithIndOwn(st0, i, indirect);
          IndGrew(st0, i, bn, indirect);
          SetAddrOf(s, NDIRECT, indirect, WithInd(st0, i, indirect));
          LoadedIs(itable, st, s);
          ghost var st1 := st;
          r := BmapEntry(s, bn, alloc);
          GrewTrans(st0, st1, st, i, bn, r);
          return;
        }
        r := BmapEntry(s, bn, alloc);
        return;
      }
      r := 0;
    }

    /** iupdate: the in-memory inode is written to its place on disk. */
    method Iupdate(s: nat)
      requires Synced() && Loaded(itable, s)
      modifies this`disk, this`dirty
      ensures Synced() && dirty == old(dirty) - {itable[s].inum}
    {
      hide SuperIs;
      hide BitOf;
      hide InodeOf;
      hide SetDinode;
      LoadedIs(itable, st, s);
      var i := itable[s].inum;
      HoldsInode(disk, sb, st, dirty, i);
      var bp := disk[IBlock(sb, i)];
      disk := disk[IBlock(sb, i) := SetDinode(bp, i % IPB, itable[s].di)];
      dirty := dirty - {i};
    }

    /** The in-memory inode of slot s takes the fields of d. */
    method SetFields(s: nat, d: Dinode)
      requires Synced() && Own(st) && Loaded(itable, s) && d.addrs == itable[s].di.addrs
      modifies this`itable, this`st, this`dirty
      ensures Synced() && Own(st) && Loaded(itable, s) && OnlySlot(s) && itable[s].di == d
      ensures itable[s].inum < |old(st).inodes|
      ensures st == St(old(st).meta, old(st).bits, old(st).inodes[itable[s].inum := d], old(st).blocks, old(st).owner)
      ensures dirty == old(dirty) + {itable[s].inum}
    {
      hide SuperIs;
      hide BitOf;
      hide InodeOf;
      hide Own;
      LoadedIs(itable, st, s);
      ghost var i := itable[s].inum;
      ghost var u := St(st.meta, st.bits, st.inodes[i := d], st.blocks, st.owner);
      RefieldedSame(st, u, i);
      TableSet(itable, st, s, d, u);
      itable := itable[s := itable[s].(di := d)];
      dirty := dirty + {i};
      st := u;
    }

    /** Between calls: everything on disk, nothing half done. */
    ghost predicate Ready()
      reads this
    {
      Synced() && Good(st) && dirty == {} && Typed(itable)
    }

    /** One turn of readi's loop: c bytes at `at`, within one block. bmap finds a
        block there, so the loop does not stop early. */
    method ReadPiece(s: nat, at: nat, c: nat) returns (p: seq<byte>)
      requires Synced() && Good(st) && Loaded(itable, s) && c > 0 && at % BSIZE + c <= BSIZE
      requires itable[s].inum < |st.inodes| && at + c <= st.inodes[itable[s].inum].size <= MAXFILE * BSIZE
      modifies this
      ensures st == old(st) && disk == old(disk) && itable == old(itable) && dirty == old(dirty)
      ensures p == Contents(st, itable[s].inum)[at..at + c]
    {
      hide Own;
      hide Holds;
      hide SuperIs;
      hide Grew;
      hide ByteAt;
      hide MapOf;
      hide TableOk;
      hide Good;
      hide Contents;
      GoodOwn(st);
      ghost var i := itable[s].inum;
      var bn := at / BSIZE;
      var addr := Bmap(s, bn, false);
      MappedBelow(st, i, at);
      GrewAt(st, i, bn, addr);
      var bp := DiskBlock(addr, i, bn);
      SliceOfBlock(st, i, at, c);
      p := bp[at % BSIZE..at % BSIZE + c];
    }

    /** readi: exactly the bytes of the file from off, up to n of them. */
    method Readi(s: nat, off: nat, n: u32) returns (r: int, dst: seq<byte>)
      requires Ready() && Loaded(itable, s) && off < 0x1_0000_0000_0000_0000
      modifies this
      ensures st == old(st) && disk == old(disk) && itable == old(itable) && Ready()
      ensures itable[s].inum < |st.inodes| && itable[s].di == st.inodes[itable[s].inum]
      ensures n > 0 && itable[s].di.typ == 0 ==> r == -1 && dst == []
      ensures n == 0 || (itable[s].di.typ != 0 && off > itable[s].di.size) ==> r == 0 && dst == []
      ensures n > 0 && itable[s].di.typ != 0 && off <= itable[s].di.size ==>
                var i, size := itable[s].inum, itable[s].di.size;
                && size <= MAXFILE * BSIZE && r == |dst|
                && dst == Contents(st, i)[off..if off + n < size then off + n else size]
    {
      hide Own;
      hide Holds;
      hide SuperIs;
      hide Grew;
      hide ByteAt;
      hide MapOf;
      hide TableOk;
      hide Whole;
      hide Good;
      hide Typed;
      hide Contents;
      GoodOwn(st);
      LoadedIs(itable, st, s);
      dst := [];
      ghost var i := itable[s].inum;
      if n == 0 { r := 0; return; }
      if itable[s].di.typ == 0 { r := -1; return; }
      if off > itable[s].di.size { r := 0; return; }
      WholeOf(st, i);
      if (off + n) % 0x1_0000_0000_0000_0000 < off { assert false; }
      var m := if off + n > itable[s].di.size then itable[s].di.size - off else n;
      ghost var body := Contents(st, i);
      var tot := 0;
      while tot < m
        invariant st == old(st) && disk == old(disk) && itable == old(itable) && dirty == old(dirty)
        invariant tot <= m && dst == body[off..off + tot]
      {
        var boff := (off + tot) % BSIZE;
        var c := if m - tot < BSIZE - boff then m - tot else BSIZE - boff;
        var piece := ReadPiece(s, off + tot, c);
        dst := dst + piece;
        Joined(body, off, tot, c);
        tot := tot + c;
      }
      r := tot;
    }

    /** bread of a block that holds data. */
    method DiskBlock(b: nat, ghost i: nat, ghost bn: nat) returns (bp: Block)
      requires Synced() && Own(st) && i < |st.inodes| && bn < MAXFILE && MapOf(st, i, bn) == b && b != 0
      ensures b < |st.blocks| == |st.owner| && bp == st.blocks[b] && st.owner[b] == Data(i, bn)
              && st.meta <= b < sb.size
    {
      hide SuperIs;
      hide BitOf;
      hide InodeOf;
      hide MapOf;
      PathOf(st, i, bn);
      DataPlace(st, b);
      bp := disk[b];
    }

    /** One turn of writei's loop: the rest of one block, or 0 if none is free. */
    method WriteTurn(s: nat, off: nat, src: seq<byte>, tot: nat, ghost st0: St) returns (m: nat)
      requires Synced() && Own(st) && Loaded(itable, s) && tot < |src| && off + |src| <= MAXFILE * BSIZE
      requires Wrote(st0, st, itable[s].inum, off, src, tot) && dirty <= {itable[s].inum}
      modifies this
      ensures Synced() && Own(st) && Loaded(itable, s) && OnlySlot(s) && dirty <= {itable[s].inum}
      ensures tot + m <= |src| && Wrote(st0, st, itable[s].inum, off, src, tot + m)
      ensures m == 0 ==> forall c: nat | c < |st.bits| :: st.bits[c]
      ensures m == 0 ==> MapOf(old(st), itable[s].inum, (off + tot) / BSIZE) == 0
      ensures m > 0 && (off + tot) % BSIZE + |src| - tot <= BSIZE ==> tot + m == |src|
    {
      hide Own;
      hide Holds;
      hide SuperIs;
      hide TableOk;
      hide Grew;
      hide MapOf;
      hide Wrote;
      LoadedIs(itable, st, s);
      ghost var i, t := itable[s].inum, st;
      var bn := (off + tot) / BSIZE;
      var addr := Bmap(s, bn, true);
      if addr == 0 {
        WroteGrew(st0, t, st, i, off, src, tot, bn);
        GrewOld(t, st, i, bn, 0);
        m := 0;
        return;
      }
      GrewAt2(t, st, i, bn, addr);
      var bp := DiskBlock(addr, i, bn);
      var boff := (off + tot) % BSIZE;
      m := if |src| - tot < BSIZE - boff then |src| - tot else BSIZE - boff;
      WroteMore(st0, t, st, i, off, src, tot, m, addr);
      Bwrite(addr, Splice(bp, boff, src[tot..tot + m]));
    }

    /** The end of writei: the size grows to `end` if need be, and the inode is
        written back. */
    method SetEnd(s: nat, end: nat)
      requires Synced() && Own(st) && Loaded(itable, s) && dirty <= {itable[s].inum} && end <= MAXFILE * BSIZE
      modifies this`disk, this`itable, this`st, this`dirty
      ensures Synced() && Loaded(itable, s) && OnlySlot(s) && dirty == {}
      ensures itable[s].inum < |old(st).inodes|
      ensures var i := itable[s].inum; var size := old(st).inodes[i].size;
              && st == Sized(old(st), i, if end > size then end else size)
              && itable[s].di == st.inodes[i]
    {
      hide Holds;
      hide SuperIs;
      hide Own;
      hide TableOk;
      LoadedIs(itable, st, s);
      var d := itable[s].di;
      SetFields(s, Dinode(d.typ, d.major, d.minor, d.nlink, if end > d.size then end else d.size, d.addrs));
      Iupdate(s);
    }

    /** writei: -1 and nothing done where the write may not be done; else the
        first r bytes of src replace those at off, and r falls short of src only
        at the end of the file and where every block is in use. */
    method Writei(s: nat, off: nat, src: seq<byte>) returns (r: int)
      requires Ready() && Loaded(itable, s) && off < 0x1_0000_0000_0000_0000 && |src| < 0x1_0000_0000
      modifies this
      ensures Ready() && Loaded(itable, s) && OnlySlot(s)
      ensures itable[s].inum < |old(st).inodes|
      ensures var d := old(st).inodes[itable[s].inum];
              r == -1 <==> src != [] && (d.typ == 0 || off > d.size || off + |src| > MAXFILE * BSIZE)
      ensures r == -1 || src == [] ==> st == old(st) && disk == old(disk) && itable == old(itable)
      ensures r != -1 && src != [] ==> 0 <= r <= |src| && WroteFile(old(st), st, itable[s].inum, off, src[..r])
      ensures r != -1 && r < |src| ==> forall c: nat | c < |st.bits| :: st.bits[c]
      ensures r != -1 && r < |src| ==> off + r >= old(st).inodes[itable[s].inum].size
      ensures r != -1 && off % BSIZE + |src| <= BSIZE ==> r == 0 || r == |src|
    {
      hide Own;
      hide Holds;
      hide SuperIs;
      hide TableOk;
      hide Grew;
      hide ByteAt;
      hide MapOf;
      hide Wrote;
      hide Others;
      hide Good;
      LoadedIs(itable, st, s);
      GoodOwn(st);
      ghost var i := itable[s].inum;
      if |src| == 0 { r := 0; return; }
      if itable[s].di.typ == 0 { r := -1; return; }
      WholeOf(st, i);
      if off > itable[s].di.size || (off + |src|) % 0x1_0000_0000_0000_0000 < off { r := -1; return; }
      if off + |src| > MAXFILE * BSIZE { r := -1; return; }
      var tot := 0;
      WroteNone(st, i, off, src);
      while tot < |src|
        invariant tot <= |src| && Synced() && Own(st) && Loaded(itable, s) && OnlySlot(s) && itable[s].inum == i
        invariant Wrote(old(st), st, i, off, src, tot) && dirty <= {i}
        invariant off % BSIZE + |src| <= BSIZE ==> tot == 0 || tot == |src|
      {
        ghost var t := st;
        var m := WriteTurn(s, off, src, tot, old(st));
        if m == 0 {
          PastEnd(old(st), t, i, off, src, tot);
          break;
        }
        tot := tot + m;
      }
      LoadedIs(itable, st, s);
      WroteSize(old(st), st, i, off, src, tot);
      ghost var t := st;
      SetEnd(s, off + tot);
      WroteContents(old(st), t, i, off, src, tot, st.inodes[i].size);
      r := tot;
    }

    /** itrunc's first loop: the direct blocks. */
    method FreeDirect(s: nat)
      requires Synced() && Own(st) && Loaded(itable, s)
      modifies this
      ensures Synced() && Own(st) && Loaded(itable, s) && OnlySlot(s) && itable[s].inum < |old(st).inodes|
      ensures Others(old(st), st, itable[s].inum) && dirty <= old(dirty) + {itable[s].inum}
      ensures SameInode(old(itable)[s].di, itable[s].di)
      ensures itable[s].di.addrs[NDIRECT] == old(itable)[s].di.addrs[NDIRECT]
      ensures forall k: nat | k < NDIRECT :: itable[s].di.addrs[k] == 0
    {
      hide Own;
      hide Holds;
      hide SuperIs;
      hide TableOk;
      hide Others;
      LoadedIs(itable, st, s);
      ghost var i := itable[s].inum;
      OthersRefl(st, i);
      var k := 0;
      while k < NDIRECT
        invariant k <= NDIRECT && Synced() && Own(st) && Loaded(itable, s) && OnlySlot(s)
        invariant i < |st.inodes| && i == itable[s].inum && Others(old(st), st, i) && dirty <= old(dirty) + {i}
        invariant SameInode(old(itable)[s].di, itable[s].di)
        invariant itable[s].di.addrs[NDIRECT] == old(itable)[s].di.addrs[NDIRECT]
        invariant forall j: nat | j < k :: itable[s].di.addrs[j] == 0
      {
        LoadedIs(itable, st, s);
        ghost var t := st;
        DirectPlace(st, i, k);
        DroppedOwn(st, i, k);
        OthersTrans(old(st), st, Dropped(st, i, k), i);
        var b := itable[s].di.addrs[k];
        if b != 0 {
          DataBelow(t, b);
          Bfree(b);
          SetAddrOf(s, k, 0, Dropped(t, i, k));
        }
        k := k + 1;
      }
    }

    /** itrunc's second part: all the indirect block names, then itself. */
    method FreeIndirect(s: nat)
      requires Synced() && Own(st) && Loaded(itable, s)
      modifies this
      ensures Synced() && Own(st) && Loaded(itable, s) && OnlySlot(s) && itable[s].inum < |old(st).inodes|
      ensures Others(old(st), st, itable[s].inum) && dirty <= old(dirty) + {itable[s].inum}
      ensures SameInode(old(itable)[s].di, itable[s].di) && itable[s].di.addrs[NDIRECT] == 0
      ensures forall k: nat | k < NDIRECT :: itable[s].di.addrs[k] == old(itable)[s].di.addrs[k]
    {
      hide Own;
      hide Holds;
      hide SuperIs;
      hide TableOk;
      hide Others;
      hide MapOf;
      hide WithoutInd;
      LoadedIs(itable, st, s);
      ghost var i, st0 := itable[s].inum, st;
      var ind := itable[s].di.addrs[NDIRECT];
      OthersRefl(st, i);
      if ind != 0 {
        IndPlace(st, i);
        IndIs(st, i);
        var a := DiskWords(ind);
        var j := 0;
        while j < NINDIRECT
          invariant j <= NINDIRECT && Synced() && itable == old(itable) && dirty == old(dirty)
          invariant st == St(st0.meta, st.bits, st0.inodes, st0.blocks, st0.owner) && |st.bits| == |st0.bits|
          invariant forall b: nat {:trigger st.bits[b]} | b < |st.bits| ::
                      st.bits[b] == (st0.bits[b] && !Entry(st0, i, j, b))
        {
          ghost var t := st;
          MapIsWord(st0, i, j);
          EntryNext(st0, i, j, 0);
          var c := Word(a, j);
          if c != 0 {
            assert st.bits[c];
            DataBelow2(st0, c);
            Bfree(c);
          }
          forall b: nat | b < |st.bits| ensures st.bits[b] == (st0.bits[b] && !Entry(st0, i, j + 1, b)) {
            EntryNext(st0, i, j, b);
            assert t.bits[b] == (st0.bits[b] && !Entry(st0, i, j, b));
          }
          j := j + 1;
        }
        IndBit(st0, i);
        assert st.bits[ind];
        ghost var t := st;
        Bfree(ind);
        WithoutIndOwn(st0, i);
        WithoutIndIs(st0, t.bits, st, i);
        SetAddrOf(s, NDIRECT, 0, WithoutInd(st0, i));
      }
    }

    /** bread of an indirect block. */
    method DiskWords(b: nat) returns (bp: Block)
      requires Synced() && st.meta <= b < |st.blocks|
      ensures bp == st.blocks[b]
    {
      hide BitOf;
      hide InodeOf;
      bp := disk[b];
    }

    /** itrunc: the file becomes empty and all its blocks free; bfree's panic is
        not reached. */
    method Itrunc(s: nat)
      requires Synced() && Own(st) && Loaded(itable, s) && dirty == {}
      modifies this
      ensures Synced() && Own(st) && dirty == {} && Loaded(itable, s) && OnlySlot(s)
      ensures itable[s].inum < |old(st).inodes| && Others(old(st), st, itable[s].inum)
      ensures Released(old(st), st, itable[s].inum)
      ensures Bare(itable[s].di)
      ensures var d, e := old(itable)[s].di, itable[s].di;
              e.typ == d.typ && e.major == d.major && e.minor == d.minor && e.nlink == d.nlink
    {
      hide Own;
      hide Holds;
      hide SuperIs;
      hide TableOk;
      hide Others;
      hide Released;
      ghost var i, st0 := itable[s].inum, st;
      FreeDirect(s);
      ghost var st1 := st;
      FreeIndirect(s);
      OthersTrans(st0, st1, st, i);
      LoadedIs(itable, st, s);
      ghost var st2 := st;
      var d := itable[s].di;
      SetFields(s, Dinode(d.typ, d.major, d.minor, d.nlink, 0, d.addrs));
      RefieldedSame(st2, st, i);
      OthersTrans(st0, st2, st, i);
      NothingLeft(st0, st, i);
      Iupdate(s);
    }

    /** iget: the slot that holds inode i, or the first unused one, with one more
        reference. With every slot in use it panics, here answered by NINODE. */
    method Iget(i: nat) returns (s: nat)
      requires Ready() && i < sb.ninodes && |itable| == NINODE
      modifies this`itable
      ensures Ready() && |itable| == NINODE && s <= NINODE
      ensures s == NINODE ==>
                itable == old(itable) && forall r: nat | r < NINODE :: itable[r].ref > 0 && itable[r].inum != i
      ensures s < NINODE ==> itable == old(itable)[s := itable[s]] && itable[s].inum == i
      ensures s < NINODE && old(itable)[s].ref > 0 ==> itable[s] == old(itable)[s].(ref := old(itable)[s].ref + 1)
      ensures s < NINODE && old(itable)[s].ref == 0 ==>
                itable[s].ref == 1 && !itable[s].valid
                && forall r: nat | r < NINODE && old(itable)[r].ref > 0 :: old(itable)[r].inum != i
    {
      hide Holds;
      hide SuperIs;
      hide Good;
      var empty: nat := NINODE;
      s := 0;
      while s < NINODE
        invariant s <= NINODE && empty <= NINODE && itable == old(itable)
        invariant empty == NINODE ==> forall r: nat | r < s :: itable[r].ref > 0
        invariant empty < NINODE ==> empty < s && itable[empty].ref == 0
        invariant forall r: nat | r < s && itable[r].ref > 0 :: itable[r].inum != i
      {
        if itable[s].ref > 0 && itable[s].inum == i {
          itable := itable[s := itable[s].(ref := itable[s].ref + 1)];
          RefTable(old(itable), st, s, itable[s]);
          return;
        }
        if empty == NINODE && itable[s].ref == 0 { empty := s; }
        s := s + 1;
      }
      if empty == NINODE { return; }
      s := empty;
      HoldsSizes(disk, sb, st, dirty);
      itable := itable[s := Incore(i, 1, false, Blank())];
      NewTable(old(itable), st, s, itable[s]);
    }

    /** ilock of a slot in use: it is loaded from disk if need be. The answer is
        false where ilock panics, at an inode of type 0. */
    method Ilock(s: nat) returns (ok: bool)
      requires Ready() && s < |itable| && itable[s].ref > 0
      modifies this`itable
      ensures OnlySlot(s) && itable[s].inum < |st.inodes|
      ensures ok <==> st.inodes[itable[s].inum].typ != 0
      ensures ok ==> Ready() && Loaded(itable, s) && itable[s].di == st.inodes[itable[s].inum]
    {
      hide BitOf;
      hide InodeOf;
      hide Good;
      hide DinodeIn;
      assert SlotOk(itable, st, s);
      ok := true;
      if !itable[s].valid {
        var bp := disk[IBlock(sb, itable[s].inum)];
        var d := DinodeIn(bp, itable[s].inum % IPB);
        ReadInode(disk, sb, st, dirty, itable[s].inum);
        ok := d.typ != 0;
        itable := itable[s := itable[s].(valid := true, di := d)];
        LoadTable(old(itable), st, s, d);
      }
    }

    /** ialloc: the first inode of type 0 gets the type and nothing else, and a
        slot; no block changes hands. Without one the answer is None. */
    method Ialloc(typ: short) returns (i: nat, s: nat)
      requires Ready() && |itable| == NINODE && typ != 0
      modifies this`disk, this`itable, this`st, this`dirty
      ensures Ready() && |itable| == NINODE
      ensures i == 0 ==> disk == old(disk) && st == old(st) && itable == old(itable)
      ensures i == 0 ==> forall j: nat | 1 <= j < sb.ninodes :: st.inodes[j].typ != 0
      ensures i != 0 ==>
                i < |st.inodes| && old(st).inodes[i].typ == 0
                && forall j: nat | 1 <= j < i :: old(st).inodes[j].typ != 0
      ensures i != 0 ==>
                st == St(old(st).meta, old(st).bits, old(st).inodes[i := NewInode(typ)], old(st).blocks, old(st).owner)
      ensures i != 0 ==>
                i < |st.inodes| && var d := st.inodes[i];
                d.typ == typ && d.major == d.minor == d.nlink == 0 && d.size == 0
                && forall k: nat | k < 13 :: d.addrs[k] == 0
      ensures i != 0 && s < NINODE ==> itable == old(itable)[s := itable[s]] && itable[s].inum == i && itable[s].ref > 0
      ensures i != 0 && s < NINODE ==>
                if old(itable)[s].ref > 0 then itable[s] == old(itable)[s].(ref := old(itable)[s].ref + 1)
                else itable[s].ref == 1 && !itable[s].valid
      ensures s <= NINODE
      ensures i != 0 && s == NINODE ==>
                itable == old(itable) && forall r: nat | r < NINODE :: itable[r].ref > 0 && itable[r].inum != i
    {
      hide SuperIs;
      hide BitOf;
      hide DinodeIn;
      hide SetDinode;
      hide Good;
      HoldsSizes(disk, sb, st, dirty);
      i := 1;
      s := NINODE;
      while i < sb.ninodes
        invariant 1 <= i && disk == old(disk) && st == old(st) && itable == old(itable) && dirty == old(dirty)
        invariant forall j: nat | 1 <= j < i && j < |st.inodes| :: st.inodes[j].typ != 0
      {
        var bp := disk[IBlock(sb, i)];
        var dip := DinodeIn(bp, i % IPB);
        ReadInode(disk, sb, st, dirty, i);
        if dip.typ == 0 {
          FreshGood(st, i, typ);
          FreshTable(itable, st, i, typ);
          HoldsFresh(disk, sb, st, i, typ);
          st := St(st.meta, st.bits, st.inodes[i := NewInode(typ)], st.blocks, st.owner);
          disk := disk[IBlock(sb, i) := SetDinode(bp, i % IPB, NewInode(typ))];
          s := Iget(i);
          return;
        }
        i := i + 1;
      }
      i := 0;
    }

    /** iput of a slot in use: one reference fewer. Exactly where it was the last
        one of a loaded inode with no links, the file's blocks are released and
        the inode freed. */
    method Iput(s: nat)
      requires Ready() && s < |itable| && itable[s].ref > 0
      modifies this
      ensures Ready() && |itable| == |old(itable)| && itable == old(itable)[s := itable[s]]
      ensures itable[s].ref == old(itable)[s].ref - 1 && itable[s].inum == old(itable)[s].inum < |st.inodes|
      ensures LastOut(old(itable)[s]) ==> Gone(old(st), st, itable[s].inum)
      ensures !LastOut(old(itable)[s]) ==> st == old(st) && disk == old(disk)
      ensures itable[s].ref > 0 ==> itable[s] == old(itable)[s].(ref := itable[s].ref)
      ensures NoLost(old(itable), old(st)) ==> NoLost(itable, st)
    {
      hide Holds;
      hide SuperIs;
      hide Good;
      hide Own;
      hide Others;
      hide Released;
      hide NoLost;
      assert SlotOk(itable, st, s);
      ghost var i := itable[s].inum;
      if LastOut(itable[s]) {
        GoodOwn(st);
        Itrunc(s);
        LoadedIs(itable, st, s);
        OthersSize(old(st), st, i);
        ghost var t := st;
        var d := itable[s].di;
        SetFields(s, Dinode(0, d.major, d.minor, d.nlink, d.size, d.addrs));
        GoneGood(old(st), t, st, i);
        Iupdate(s);
        itable := itable[s := itable[s].(valid := false)];
      }
      var ref := itable[s].ref - 1;
      itable := itable[s := Incore(itable[s].inum, ref, itable[s].valid && ref > 0, itable[s].di)];
      PutTable(old(itable), old(st), itable, st, s);
      if NoLost(old(itable), old(st)) { PutLost(old(itable), old(st), itable, st, s); }
    }

    /** bwrite of a data block. */
    method Bwrite(b: nat, d: Block)
      requires Synced() && Own(st) && b < |st.owner| && st.owner[b].Data?
      modifies this`disk, this`st
      ensures Synced() && Own(st) && st == Filled(old(st), b, d)
    {
      hide BitOf;
      hide InodeOf;
      hide Own;
      SizesOfOwn(st);
      DataPlace(st, b);
      FilledOwn(st, b, d);
      HoldsData(disk, sb, st, dirty, b, d);
      disk := disk[b := d];
      st := Filled(st, b, d);
      TableSame(itable, old(st), st);
    }
  }

  /** The file of inode i after `written` was put at off: no other file, and no
      other field of this inode, is touched. */
  ghost predicate WroteFile(st: St, v: St, i: nat, off: nat, written: seq<byte>) {
    && i < |st.inodes| == |v.inodes|
    && (forall j: nat {:trigger v.inodes[j]} | j < |st.inodes| && j != i ::
          v.inodes[j] == st.inodes[j] && st.inodes[j].size <= MAXFILE * BSIZE && Contents(v, j) == Contents(st, j))
    && st.inodes[i].size <= MAXFILE * BSIZE && v.inodes[i].size <= MAXFILE * BSIZE
    && v.inodes[i].typ == st.inodes[i].typ && v.inodes[i].nlink == st.inodes[i].nlink
    && v.inodes[i].major == st.inodes[i].major && v.inodes[i].minor == st.inodes[i].minor
    && off <= st.inodes[i].size
    && Contents(v, i) == Contents(st, i)[..off] + written
         + (if off + |written| < st.inodes[i].size then Contents(st, i)[off + |written|..] else [])
  }

  lemma GrewOld(st: St, t: St, i: nat, bn: nat, a: nat)
    requires Grew(st, t, i, bn, a)
    ensures a == 0 ==> MapOf(st, i, bn) == 0
  {
  }

  /** A block that is not there lies past the end of the file. */
  lemma PastEnd(st: St, t: St, i: nat, off: nat, src: seq<byte>, tot: nat)
    requires Good(st) && Wrote(st, t, i, off, src, tot) && off + tot < MAXFILE * BSIZE
             && MapOf(t, i, (off + tot) / BSIZE) == 0
    ensures off + tot >= st.inodes[i].size
  {
    hide MapOf;
    hide ByteAt;
    WholeOf(st, i);
    assert (off + tot) / BSIZE < MAXFILE;
  }

  lemma GoodOwn(st: St)
    requires Good(st)
    ensures Own(st)
  {
  }

  lemma WholeOf(st: St, i: nat)
    requires Good(st) && i < |st.inodes|
    ensures Whole(st, i) && st.inodes[i].size <= MAXFILE * BSIZE
  {
    assert Whole(st, i);
  }

  lemma DataPlace(st: St, b: nat)
    requires Own(st) && b < |st.owner| && st.owner[b].Data?
    ensures st.meta <= b
  {
    assert BlockOk(st, b);
  }

  lemma MappedBelow(st: St, i: nat, k: nat)
    requires Good(st) && i < |st.inodes| && k < st.inodes[i].size
    ensures k / BSIZE < MAXFILE && MapOf(st, i, k / BSIZE) != 0
  {
    assert Whole(st, i);
    assert k / BSIZE * BSIZE < st.inodes[i].size;
  }

  lemma GrewAt(st: St, i: nat, bn: nat, a: nat)
    requires i < |st.inodes| && bn < MAXFILE && Grew(st, st, i, bn, a)
    ensures MapOf(st, i, bn) == a
  {
    assert MapOf(st, i, bn) == MapOf(st, i, bn);
  }

  lemma GrewAt2(t: St, st: St, i: nat, bn: nat, a: nat)
    requires i < |t.inodes| && bn < MAXFILE && Grew(t, st, i, bn, a)
    ensures i < |st.inodes| && MapOf(st, i, bn) == a
  {
    assert MapOf(st, i, bn) == MapOf(st, i, bn);
  }

  /** A piece of one block is that piece of the file. */
  lemma SliceOfBlock(st: St, i: nat, at: nat, c: nat)
    requires i < |st.inodes| && st.inodes[i].size <= MAXFILE * BSIZE && at + c <= st.inodes[i].size
    requires at / BSIZE < MAXFILE && 0 < MapOf(st, i, at / BSIZE) < |st.blocks| && at % BSIZE + c <= BSIZE
    ensures st.blocks[MapOf(st, i, at / BSIZE)][at % BSIZE..at % BSIZE + c] == Contents(st, i)[at..at + c]
  {
    hide MapOf;
    var bp := st.blocks[MapOf(st, i, at / BSIZE)];
    var x, y := bp[at % BSIZE..at % BSIZE + c], Contents(st, i)[at..at + c];
    forall k: nat | k < c ensures x[k] == y[k] {
      assert (at + k) / BSIZE == at / BSIZE && (at + k) % BSIZE == at % BSIZE + k;
      assert Contents(st, i)[at + k] == ByteAt(st, i, at + k);
    }
  }

  lemma WroteGrew(st: St, t: St, u: St, i: nat, off: nat, src: seq<byte>, tot: nat, bn: nat)
    requires bn < MAXFILE && Wrote(st, t, i, off, src, tot) && Grew(t, u, i, bn, 0) && i < |t.inodes|
    ensures Wrote(st, u, i, off, src, tot)
  {
    hide MapOf;
    hide ByteAt;
    forall j: nat | j < |st.inodes| && j != i ensures Untouched(st, u, j) {
      assert Untouched(st, t, j) && Untouched(t, u, j);
      forall k: nat | k < MAXFILE * BSIZE ensures ByteAt(u, j, k) == ByteAt(st, j, k) {
        assert ByteAt(t, j, k) == ByteAt(t, j, k);
      }
      forall m: nat | m < MAXFILE ensures MapOf(u, j, m) == MapOf(st, j, m) { assert MapOf(t, j, m) == MapOf(t, j, m); }
    }
    forall k: nat | k < MAXFILE * BSIZE ensures ByteAt(u, i, k) == ByteAt(t, i, k) {}
    forall m: nat | m < MAXFILE ensures MapOf(t, i, m) != 0 ==> MapOf(u, i, m) != 0 {}
  }

  lemma IndPlace(st: St, i: nat)
    requires Own(st) && i < |st.inodes| && st.inodes[i].addrs[NDIRECT] != 0
    ensures Sizes(st) && st.meta <= st.inodes[i].addrs[NDIRECT] < |st.blocks|
  {
    assert IndOk(st, i);
    assert BlockOk(st, st.inodes[i].addrs[NDIRECT]);
  }

  lemma NoIndNoMap(st: St, i: nat, bn: nat)
    requires i < |st.inodes| && NDIRECT <= bn < MAXFILE && st.inodes[i].addrs[NDIRECT] == 0
    ensures MapOf(st, i, bn) == 0
  {
  }

  lemma IndGrew(st: St, i: nat, bn: nat, b: u32)
    requires Own(st) && i < |st.inodes| && bn < MAXFILE && b < |st.owner| && st.owner[b].Free?
             && st.inodes[i].addrs[NDIRECT] == 0
    ensures Grew(st, WithInd(st, i, b), i, bn, MapOf(st, i, bn))
  {
    hide Own;
    hide Moves;
    WithIndOwn(st, i, b);
    SizesOfOwn(st);
    TakenGrew(st, WithInd(st, i, b), b, Ind(i), i, bn);
  }

  lemma EntryGrew(st: St, i: nat, bn: nat, b: u32)
    requires Own(st) && i < |st.inodes| && NDIRECT <= bn < MAXFILE && b < |st.owner| && st.owner[b].Free?
    requires st.inodes[i].addrs[NDIRECT] != 0 && MapOf(st, i, bn) == 0
    ensures st.inodes[i].addrs[NDIRECT] < |st.blocks|
    ensures Grew(st, WithEntry(st, i, bn, b), i, bn, b)
  {
    hide Own;
    hide Moves;
    hide SetWord;
    IndPlace(st, i);
    FreeIsNoInd(st, b, i);
    WithEntryOwn(st, i, bn, b);
    IndIs(st, i);
    TakenGrew(st, WithEntry(st, i, bn, b), b, Data(i, bn), i, bn);
  }

  lemma IndIs(st: St, i: nat)
    requires Own(st) && i < |st.inodes| && st.inodes[i].addrs[NDIRECT] != 0
    ensures IndOk(st, i)
  {
    assert IndOk(st, i);
  }

  lemma DirectGrew(st: St, i: nat, bn: nat, b: u32)
    requires Own(st) && i < |st.inodes| && bn < NDIRECT && b < |st.owner| && st.owner[b].Free?
             && st.inodes[i].addrs[bn] == 0
    ensures Grew(st, WithDirect(st, i, bn, b), i, bn, b)
  {
    hide Own;
    hide Moves;
    WithDirectOwn(st, i, bn, b);
    SizesOfOwn(st);
    TakenGrew(st, WithDirect(st, i, bn, b), b, Data(i, bn), i, bn);
  }

  lemma SizesOfOwn(st: St)
    requires Own(st)
    ensures Sizes(st)
  {
  }

  lemma WroteSize(st: St, t: St, i: nat, off: nat, src: seq<byte>, tot: nat)
    requires Wrote(st, t, i, off, src, tot)
    ensures i < |st.inodes| == |t.inodes| && SameInode(st.inodes[i], t.inodes[i]) && off + tot <= MAXFILE * BSIZE
  {
  }

  lemma DataBelow(st: St, b: nat)
    requires Own(st) && b < |st.owner| && st.owner[b].Data?
    ensures Sizes(st) && b < |st.bits| && st.bits[b]
  {
    assert BlockOk(st, b);
  }

  lemma DataBelow2(st: St, b: nat)
    requires Own(st) && b < |st.bits|
    ensures Sizes(st)
  {
  }

  lemma IndBit(st: St, i: nat)
    requires Own(st) && i < |st.inodes| && st.inodes[i].addrs[NDIRECT] != 0
    ensures st.inodes[i].addrs[NDIRECT] < |st.bits| == |st.owner|
    ensures st.bits[st.inodes[i].addrs[NDIRECT]] && st.owner[st.inodes[i].addrs[NDIRECT]] == Ind(i)
  {
    assert IndOk(st, i);
    assert BlockOk(st, st.inodes[i].addrs[NDIRECT]);
  }

  lemma MapIsWord(st: St, i: nat, j: nat)
    requires Own(st) && i < |st.inodes| && st.inodes[i].addrs[NDIRECT] != 0 && j < NINDIRECT
    ensures st.inodes[i].addrs[NDIRECT] < |st.blocks|
    ensures MapOf(st, i, NDIRECT + j) == Word(st.blocks[st.inodes[i].addrs[NDIRECT]], j)
  {
    assert IndOk(st, i);
  }

  /** The bitmap after the loop and the last bfree. */
  lemma WithoutIndIs(st: St, bits: seq<bool>, t: St, i: nat)
    requires Own(st) && i < |st.inodes| && |bits| == |st.bits| == |st.owner| && st.inodes[i].addrs[NDIRECT] < |bits|
    requires st.owner[st.inodes[i].addrs[NDIRECT]] == Ind(i) && st.inodes[i].addrs[NDIRECT] != 0
    requires forall b: nat {:trigger bits[b]} | b < |bits| :: bits[b] == (st.bits[b] && !Entry(st, i, NINDIRECT, b))
    requires t.bits == bits[st.inodes[i].addrs[NDIRECT] := false]
    ensures Sizes(st) && WithoutInd(st, i).meta == st.meta && WithoutInd(st, i).blocks == st.blocks
    ensures t.bits == WithoutInd(st, i).bits && |WithoutInd(st, i).owner| == |st.owner|
    ensures WithoutInd(st, i).inodes == st.inodes[i := SetAddr(st.inodes[i], NDIRECT, 0)]
  {
    var u := WithoutInd(st, i);
    forall b: nat | b < |bits| ensures t.bits[b] == u.bits[b] {
      assert BlockOk(st, b);
      assert bits[b] == (st.bits[b] && !Entry(st, i, NINDIRECT, b));
    }
  }

  function NewInode(typ: short): Dinode { Dinode(typ, 0, 0, 0, 0, seq(13, _ => 0)) }

  /** iput's test. */
  predicate LastOut(x: Incore) { x.ref == 1 && x.valid && x.di.nlink == 0 }

  /** Inode i is gone: its blocks are free, its type is 0, no other file changed. */
  ghost predicate Gone(st: St, t: St, i: nat) {
    && i < |st.inodes| == |t.inodes|
    && Released(st, t, i)
    && t.inodes[i].typ == 0 && Bare(t.inodes[i])
    && forall j: nat {:trigger t.inodes[j]} | j < |st.inodes| && j != i ::
         t.inodes[j] == st.inodes[j] && st.inodes[j].size <= MAXFILE * BSIZE && Contents(t, j) == Contents(st, j)
  }

  /** An inode in use that no directory names is held by a loaded slot. */
  ghost predicate NoLost(t: seq<Incore>, st: St) {
    forall i: nat {:trigger st.inodes[i]} | i < |st.inodes| && st.inodes[i].typ != 0 && st.inodes[i].nlink == 0 ::
      exists s: nat :: Holds1(t, s, i)
  }

  predicate Holds1(t: seq<Incore>, s: nat, i: nat) { Loaded(t, s) && t[s].inum == i }

  lemma HoldsSizes(disk: seq<Block>, sb: Super, st: St, dirty: set<nat>)
    requires Holds(disk, sb, st, dirty)
    ensures Fits(disk, sb) && |st.inodes| == sb.ninodes && |st.bits| == |st.blocks| == |st.owner| == sb.size
  {
  }

  lemma RefTable(t: seq<Incore>, st: St, s: nat, x: Incore)
    requires TableOk(t, st) && Typed(t) && s < |t| && t[s].ref > 0 && x == t[s].(ref := x.ref) && x.ref > 0
    ensures TableOk(t[s := x], st) && Typed(t[s := x])
  {
    var t' := t[s := x];
    forall r: nat | r < |t'| ensures SlotOk(t', st, r) { assert SlotOk(t, st, r); }
    forall r: nat, q: nat | r < q < |t'| && t'[r].ref > 0 && t'[q].ref > 0 ensures t'[r].inum != t'[q].inum {
      assert t[r] == t[r] && t[q] == t[q];
    }
  }

  lemma NewTable(t: seq<Incore>, st: St, s: nat, x: Incore)
    requires TableOk(t, st) && Typed(t) && s < |t| && !x.valid && x.inum < |st.inodes|
    requires forall r: nat | r < |t| && t[r].ref > 0 :: t[r].inum != x.inum
    ensures TableOk(t[s := x], st) && Typed(t[s := x])
  {
    var t' := t[s := x];
    forall r: nat | r < |t'| ensures SlotOk(t', st, r) { assert SlotOk(t, st, r); }
    forall r: nat, q: nat | r < q < |t'| && t'[r].ref > 0 && t'[q].ref > 0 ensures t'[r].inum != t'[q].inum {
      assert t[r] == t[r] && t[q] == t[q];
    }
  }

  lemma LoadTable(t: seq<Incore>, st: St, s: nat, d: Dinode)
    requires TableOk(t, st) && Typed(t) && s < |t| && t[s].ref > 0 && t[s].inum < |st.inodes|
             && d == st.inodes[t[s].inum]
    ensures TableOk(t[s := t[s].(valid := true, di := d)], st)
    ensures d.typ != 0 ==> Typed(t[s := t[s].(valid := true, di := d)])
  {
    var t' := t[s := t[s].(valid := true, di := d)];
    forall r: nat | r < |t'| ensures SlotOk(t', st, r) { assert SlotOk(t, st, r); }
    forall r: nat, q: nat | r < q < |t'| && t'[r].ref > 0 && t'[q].ref > 0 ensures t'[r].inum != t'[q].inum {
      assert t[r] == t[r] && t[q] == t[q];
    }
  }

  lemma FreshGood(st: St, i: nat, typ: short)
    requires Good(st) && i < |st.inodes| && st.inodes[i].typ == 0
    ensures Good(St(st.meta, st.bits, st.inodes[i := NewInode(typ)], st.blocks, st.owner))
  {
    var t := St(st.meta, st.bits, st.inodes[i := NewInode(typ)], st.blocks, st.owner);
    assert Whole(st, i);
    assert t.inodes[i].addrs == st.inodes[i].addrs;
    RefieldedSame(st, t, i);
    forall j: nat | j < |t.inodes| ensures Whole(t, j) {
      assert Whole(st, j) && SameMap(st, t, j);
    }
  }

  lemma FreshTable(t: seq<Incore>, st: St, i: nat, typ: short)
    requires TableOk(t, st) && Typed(t) && i < |st.inodes| && st.inodes[i].typ == 0
    ensures TableOk(t, St(st.meta, st.bits, st.inodes[i := NewInode(typ)], st.blocks, st.owner))
  {
    var u := St(st.meta, st.bits, st.inodes[i := NewInode(typ)], st.blocks, st.owner);
    forall r: nat | r < |t| ensures SlotOk(t, u, r) { assert SlotOk(t, st, r); }
  }

  lemma HoldsFresh(d: seq<Block>, sb: Super, st: St, i: nat, typ: short)
    requires Holds(d, sb, st, {}) && i < sb.ninodes
    ensures Holds(d[IBlock(sb, i) := SetDinode(d[IBlock(sb, i)], i % IPB, NewInode(typ))], sb,
                  St(st.meta, st.bits, st.inodes[i := NewInode(typ)], st.blocks, st.owner), {})
    ensures SuperIs(d, sb) ==> SuperIs(d[IBlock(sb, i) := SetDinode(d[IBlock(sb, i)], i % IPB, NewInode(typ))], sb)
  {
    hide SuperIs;
    hide BitOf;
    hide InodeOf;
    hide SetDinode;
    var u := St(st.meta, st.bits, st.inodes[i := NewInode(typ)], st.blocks, st.owner);
    assert Holds(d, sb, u, {i});
    HoldsInode(d, sb, u, {i}, i);
    assert {i} - {i} == {};
  }

  lemma GoneGood(st: St, t: St, u: St, i: nat)
    requires Good(st) && Own(t) && i < |st.inodes| == |t.inodes| && Others(st, t, i) && Released(st, t, i)
             && Bare(t.inodes[i])
    requires Refielded(t, u, i) && u.inodes[i].typ == 0 && u.inodes[i].size == t.inodes[i].size
    ensures Good(u) && Gone(st, u, i)
  {
    hide MapOf;
    hide ByteAt;
    hide Own;
    RefieldedSame(t, u, i);
    forall j: nat | j < |st.inodes|
      ensures Whole(u, j)
      ensures j != i ==>
                u.inodes[j] == st.inodes[j] && st.inodes[j].size <= MAXFILE * BSIZE && Contents(u, j) == Contents(st, j)
    {
      if j != i {
        assert Whole(st, j) && Untouched(st, t, j) && Untouched(t, u, j);
        SameContents(st, t, j);
        SameContents(t, u, j);
      }
    }
    GoodIntro(u);
  }

  lemma PutTable(t: seq<Incore>, st: St, t': seq<Incore>, u: St, s: nat)
    requires TableOk(t, st) && Typed(t) && s < |t| == |t'| && t[s].ref > 0
    requires t' == t[s := t'[s]] && t'[s].inum == t[s].inum && t'[s].ref == t[s].ref - 1
    requires t'[s].ref > 0 ==> t'[s] == t[s].(ref := t'[s].ref)
    requires |u.inodes| == |st.inodes|
             && forall j: nat {:trigger u.inodes[j]} | j < |st.inodes| && (j != t[s].inum || t'[s].ref > 0) ::
                  u.inodes[j] == st.inodes[j]
    ensures TableOk(t', u) && Typed(t')
  {
    forall r: nat | r < |t'| ensures SlotOk(t', u, r) {
      assert SlotOk(t, st, r);
      if r < s { assert t[r] == t[r] && t[s] == t[s]; } else if s < r { assert t[s] == t[s] && t[r] == t[r]; }
    }
    forall r: nat, q: nat | r < q < |t'| && t'[r].ref > 0 && t'[q].ref > 0 ensures t'[r].inum != t'[q].inum {
      assert t[r] == t[r] && t[q] == t[q];
    }
  }

  lemma PutLost(t: seq<Incore>, st: St, t': seq<Incore>, u: St, s: nat)
    requires TableOk(t, st) && s < |t| == |t'| && t[s].ref > 0 && NoLost(t, st)
    requires t' == t[s := t'[s]] && t'[s].inum == t[s].inum && t'[s].ref == t[s].ref - 1
    requires t'[s].ref > 0 ==> t'[s] == t[s].(ref := t'[s].ref)
    requires |u.inodes| == |st.inodes|
    requires LastOut(t[s]) ==> t[s].inum < |u.inodes| && u.inodes[t[s].inum].typ == 0
    requires forall j: nat {:trigger u.inodes[j]} | j < |st.inodes| && (j != t[s].inum || !LastOut(t[s])) ::
               u.inodes[j] == st.inodes[j]
    ensures NoLost(t', u)
  {
    forall i: nat | i < |u.inodes| && u.inodes[i].typ != 0 && u.inodes[i].nlink == 0
      ensures exists r: nat :: Holds1(t', r, i)
    {
      assert st.inodes[i] == u.inodes[i];
      var r: nat :| Holds1(t, r, i);
      assert SlotOk(t, st, r);
      assert Holds1(t', r, i);
    }
  }

  lemma ReadInode(disk: seq<Block>, sb: Super, st: St, dirty: set<nat>, i: nat)
    requires Holds(disk, sb, st, dirty) && i < |st.inodes| && i !in dirty
    ensures i < sb.ninodes && IBlock(sb, i) < |disk| && DinodeIn(disk[IBlock(sb, i)], i % IPB) == st.inodes[i]
  {
    assert InodeOf(disk, sb, i) == st.inodes[i];
  }

  lemma OthersSize(st: St, t: St, i: nat)
    requires Others(st, t, i)
    ensures |st.inodes| == |t.inodes|
  {
  }

  lemma Joined(body: seq<byte>, off: nat, a: nat, c: nat)
    requires off + a + c <= |body|
    ensures body[off..off + a] + body[off + a..off + a + c] == body[off..off + a + c]
  {
  }
}
