/** The image builder mkfsimg.py: what it emits satisfies what the kernel's file
    system layer expects, and holds the packed files. */
module Mkfs {
  import opened Common
  import opened Wrappers
  import opened Layout
  import opened FsState
  import opened FsBytes
  import opened FsDisk
  import F = FileSystem
  import D = Directory

  /** The numbers Mkfs computes from its arguments. */
  function Plan(size: nat, ninodes: nat, nlog: nat): Super {
    var inodestart := 2 + nlog;
    var bmapstart := inodestart + (ninodes + IPB - 1) / IPB;
    Super(size, ninodes, inodestart, bmapstart, bmapstart + (size + BPB - 1) / BPB)
  }

  lemma PlanFits(size: nat, ninodes: nat, nlog: nat)
    requires ninodes >= 2 && size < 0x1_0000_0000 && Plan(size, ninodes, nlog).meta < size
    ensures Geometry(Plan(size, ninodes, nlog))
  {
  }

  /** The same contents with no bit set: the bitmap is written last. */
  ghost function Unmarked(st: St): St { St(st.meta, seq(|st.bits|, _ => false), st.inodes, st.blocks, st.owner) }

  /** A bit stands for each block handed out. */
  ghost predicate Bumped(st: St, free: nat) {
    st.meta <= free <= |st.bits| && forall b: nat {:trigger st.bits[b]} | b < |st.bits| :: st.bits[b] == (b < free)
  }

  lemma BumpedTook(st: St, t: St, free: nat)
    requires Bumped(st, free) && free < |st.bits| && t.meta == st.meta && t.bits == st.bits[free := true]
    ensures Bumped(t, free + 1)
  {
    forall b: nat | b < |t.bits| ensures t.bits[b] == (b < free + 1) { assert b != free ==> st.bits[b] == (b < free); }
  }

  lemma NextFree(st: St, free: nat)
    requires Own(st) && Bumped(st, free) && free < |st.bits|
    ensures free < |st.owner| && st.owner[free].Free? && Sizes(st)
  {
    assert BlockOk(st, free) && st.bits[free] == false;
  }

  // ---- how many blocks ----

  /** The blocks of a file of n bytes, the indirect one included. */
  function Blocks(n: nat): nat { (n + BSIZE - 1) / BSIZE + if n > NDIRECT * BSIZE then 1 else 0 }

  /** Inode i has exactly the blocks of a file of e bytes. */
  ghost predicate Tight(st: St, i: nat, e: nat)
    requires i < |st.inodes|
  {
    && (forall bn: nat {:trigger MapOf(st, i, bn)} | bn < MAXFILE :: MapOf(st, i, bn) != 0 <==> bn * BSIZE < e)
    && (st.inodes[i].addrs[NDIRECT] != 0 <==> e > NDIRECT * BSIZE)
  }

  ghost predicate AllTight(st: St) {
    forall i: nat {:trigger st.inodes[i]} | i < |st.inodes| :: Tight(st, i, st.inodes[i].size)
  }

  /** n more bytes for inode i: the file is not too long and the blocks are there. */
  predicate RoomFor(st: St, i: nat, n: nat, free: nat, size: nat)
    requires i < |st.inodes|
  {
    var e := st.inodes[i].size;
    e + n <= MAXFILE * BSIZE && free + Blocks(e + n) - Blocks(e) <= size
  }

  lemma GrewSame(t: St, u: St, i: nat, bn: nat)
    requires bn < MAXFILE && i < |t.inodes| && Grew(t, u, i, bn, MapOf(t, i, bn))
    ensures i < |u.inodes| && MapOf(u, i, bn) == MapOf(t, i, bn)
  {
    hide MapOf;
    hide ByteAt;
  }

  lemma FilledInodes(st: St, b: nat, d: Block)
    requires b < |st.blocks|
    ensures Filled(st, b, d).inodes == st.inodes
  {
  }

  lemma BlocksGrow(a: nat, b: nat)
    requires a <= b
    ensures Blocks(a) <= Blocks(b)
  {
  }

  /** What byte `off` of a file that ends there needs. */
  lemma NeedIs(st: St, i: nat, off: nat)
    requires i < |st.inodes| && Tight(st, i, off) && off < MAXFILE * BSIZE
    ensures MapOf(st, i, off / BSIZE) == 0 <==> off % BSIZE == 0
    ensures off / BSIZE < NDIRECT ==> Blocks(off + 1) - Blocks(off) == if MapOf(st, i, off / BSIZE) == 0 then 1 else 0
    ensures off / BSIZE >= NDIRECT ==>
              Blocks(off + 1) - Blocks(off) == (if MapOf(st, i, off / BSIZE) == 0 then 1 else 0) +
                if st.inodes[i].addrs[NDIRECT] == 0 then 1 else 0
  {
    hide MapOf;
    assert off / BSIZE < MAXFILE;
    BlocksStep(off, 1);
  }

  lemma BlocksStep(off: nat, n: nat)
    requires 0 < n && off % BSIZE + n <= BSIZE
    ensures Blocks(off + 1) == Blocks(off) + (if off % BSIZE == 0 then 1 else 0) + if off == NDIRECT * BSIZE then 1
              else 0
    ensures Blocks(off + n) == Blocks(off + 1)
  {
  }

  lemma TightMore(t: St, u: St, i: nat, off: nat, n: nat, b: nat, d: Block)
    requires i < |t.inodes| == |u.inodes| && Tight(t, i, off) && off < MAXFILE * BSIZE && n > 0
             && off % BSIZE + n <= BSIZE
    requires Own(u) && b != 0 && b < |u.owner| == |u.blocks| && u.owner[b].Data? && Grew(t, u, i, off / BSIZE, b)
    requires if off / BSIZE < NDIRECT then u.inodes[i].addrs[NDIRECT] == t.inodes[i].addrs[NDIRECT]
               else u.inodes[i].addrs[NDIRECT] != 0
    ensures Tight(Filled(u, b, d), i, off + n) && Blocks(off + n) == Blocks(off + 1)
  {
    hide MapOf;
    hide Own;
    BlocksStep(off, n);
    var v := Filled(u, b, d);
    forall m: nat | m < MAXFILE ensures MapOf(v, i, m) != 0 <==> m * BSIZE < off + n {
      FilledMap(u, b, d, i, m);
      assert MapOf(u, i, m) == if m == off / BSIZE then b else MapOf(t, i, m);
    }
  }

  /** Blocks are as they should be for every inode, once the new size is set. */
  lemma TightSized(st: St, t: St, i: nat, e: nat, off: nat, data: seq<byte>, tot: nat)
    requires AllTight(st) && Wrote(st, t, i, off, data, tot) && i < |t.inodes| && Tight(t, i, e) && e <= MAXFILE * BSIZE
    ensures AllTight(Sized(t, i, e))
  {
    hide MapOf;
    hide ByteAt;
    var u := Sized(t, i, e);
    forall j: nat | j < |u.inodes| ensures Tight(u, j, u.inodes[j].size) {
      RefieldedAt(t, u, i, j);
      assert st.inodes[j] == st.inodes[j];
      if j != i { assert Untouched(st, t, j); }
      forall m: nat | m < MAXFILE ensures MapOf(u, j, m) == MapOf(t, j, m)
      && (j != i ==> MapOf(t, j, m) == MapOf(st, j, m)) {}
    }
  }

  lemma CreatedTight(st: St, t: St, i: nat)
    requires AllTight(st) && Refielded(st, t, i) && t.inodes[i].size == st.inodes[i].size
    ensures AllTight(t)
  {
    hide MapOf;
    hide ByteAt;
    forall j: nat | j < |t.inodes| ensures Tight(t, j, t.inodes[j].size) {
      RefieldedAt(st, t, i, j);
      assert st.inodes[j] == st.inodes[j];
      forall m: nat | m < MAXFILE ensures MapOf(t, j, m) == MapOf(st, j, m) {}
    }
  }

  lemma EmptyTight(st: St)
    requires forall i: nat | i < |st.inodes| :: st.inodes[i] == Blank()
    ensures AllTight(st)
  {
    forall i: nat | i < |st.inodes| ensures Tight(st, i, st.inodes[i].size) {}
  }

  class Mkfs {
    const sb: Super
    var disk: seq<Block>
    var freeblock: nat
    var nextInum: nat
    ghost var st: St
    ghost var dirty: set<nat>

    ghost predicate Synced()
      reads this
    {
      && Sizes(st) && Holds(disk, sb, Unmarked(st), dirty) && Bumped(st, freeblock)
      && |st.inodes| == sb.ninodes && |st.bits| == sb.size && st.meta == sb.meta && 1 <= nextInum
    }

    ghost predicate Ready()
      reads this
    {
      && Synced() && Good(st) && dirty == {} && AllTight(st)
      && (forall i: nat {:trigger st.inodes[i]} | nextInum <= i < |st.inodes| :: st.inodes[i] == Blank())
      && (|st.inodes| > 0 ==> st.inodes[0].typ == 0)
    }

    /** Mkfs(...) for arguments it accepts. */
    constructor (size: nat, ninodes: nat, nlog: nat)
      requires ninodes >= 2 && size < 0x1_0000_0000 && Plan(size, ninodes, nlog).meta < size
      ensures Ready() && nextInum == 1 && sb == Plan(size, ninodes, nlog) && freeblock == sb.meta
    {
      PlanFits(size, ninodes, nlog);
      var plan := Plan(size, ninodes, nlog);
      sb, disk, freeblock, nextInum := plan, seq(size, _ => Zero()), plan.meta, 1;
      st := St(plan.meta, seq(size, b => b < plan.meta), seq(ninodes, _ => Blank()), seq(size, _ => Zero()),
               seq(size, b => if b < plan.meta then Meta else Free));
      dirty := {};
      new;
      EmptyGood(st);
      EmptyTight(st);
      EmptyHolds(sb, disk, st);
    }

    /** alloc_block: the next block, zeroed; None when there is no more. */
    method AllocBlock() returns (r: Option<u32>)
      requires Synced() && Own(st)
      modifies this`disk, this`freeblock, this`st
      ensures r.None? <==> old(freeblock) >= sb.size
      ensures r.None? ==> disk == old(disk) && st == old(st) && freeblock == old(freeblock) && Synced()
      ensures r.Some? ==> freeblock == old(freeblock) + 1
      ensures r.Some? ==> r.value == old(freeblock) < |old(st).owner| && old(st).owner[r.value].Free? && r.value != 0
      ensures r.Some? ==> Synced() && st == F.Taken(old(st), r.value)
    {
      hide Own;
      hide BitOf;
      hide InodeOf;
      if freeblock >= sb.size { return None; }
      NextFree(st, freeblock);
      ghost var st0 := st;
      HoldsData(disk, sb, Unmarked(st), dirty, freeblock, Zero());
      disk := disk[freeblock := Zero()];
      st := F.Taken(st, freeblock);
      BumpedTook(st0, st, freeblock);
      assert Unmarked(st) == St(st0.meta, Unmarked(st0).bits, st0.inodes, st0.blocks[freeblock := Zero()], st0.owner);
      r := Some(freeblock);
      freeblock := freeblock + 1;
    }

    /** The part of iappend that finds or makes block fbn of a file, for a block
        named in the inode itself; `di` is the copy of the inode it works on. */
    method DirectBlock(inum: nat, di: Dinode, fbn: nat) returns (r: Option<(Dinode, u32)>)
      requires Synced() && Own(st) && inum < |st.inodes| && st.inodes[inum] == di && dirty <= {inum} && fbn < NDIRECT
      modifies this`disk, this`freeblock, this`st, this`dirty
      ensures r.Some? ==> Synced() && Own(st) && dirty <= {inum} && inum < |st.inodes| && st.inodes[inum] == r.value.0
      ensures r.Some? ==> r.value.1 != 0 && Grew(old(st), st, inum, fbn, r.value.1)
      ensures r.None? <==> MapOf(old(st), inum, fbn) == 0 && old(freeblock) >= sb.size
      ensures r.Some? ==> freeblock == old(freeblock) + (if MapOf(old(st), inum, fbn) == 0 then 1 else 0)
      ensures r.Some? ==> r.value.0.addrs[NDIRECT] == di.addrs[NDIRECT]
    {
      hide Own;
      hide Grew;
      ghost var st0 := st;
      MapDirect(st, inum, fbn);
      GrewRefl(st, inum, fbn);
      if di.addrs[fbn] != 0 { return Some((di, di.addrs[fbn])); }
      var b := AllocBlock();
      if b.None? { return None; }
      WithDirectOwn(st0, inum, fbn, b.value);
      F.DirectGrew(st0, inum, fbn, b.value);
      HoldsDirty(disk, sb, st, WithDirect(st0, inum, fbn, b.value), dirty, inum);
      st := WithDirect(st0, inum, fbn, b.value);
      dirty := dirty + {inum};
      r := Some((SetAddr(di, fbn, b.value), b.value));
    }

    /** The same for the indirect block. */
    method IndBlock(inum: nat, di: Dinode, ghost fbn: nat) returns (r: Option<Dinode>)
      requires Synced() && Own(st) && inum < |st.inodes| && st.inodes[inum] == di && dirty <= {inum}
               && NDIRECT <= fbn < MAXFILE
      modifies this`disk, this`freeblock, this`st, this`dirty
      ensures r.Some? ==> Synced() && Own(st) && dirty <= {inum} && inum < |st.inodes| && st.inodes[inum] == r.value
      ensures r.Some? ==>
                r.value.addrs[NDIRECT] != 0 && inum < |old(st).inodes|
                && Grew(old(st), st, inum, fbn, MapOf(old(st), inum, fbn))
      ensures r.None? <==> di.addrs[NDIRECT] == 0 && old(freeblock) >= sb.size
      ensures r.Some? ==> freeblock == old(freeblock) + (if di.addrs[NDIRECT] == 0 then 1 else 0)
    {
      hide Own;
      hide Grew;
      hide MapOf;
      ghost var st0 := st;
      GrewRefl(st, inum, fbn);
      if di.addrs[NDIRECT] != 0 { return Some(di); }
      var b := AllocBlock();
      if b.None? { return None; }
      WithIndOwn(st0, inum, b.value);
      F.IndGrew(st0, inum, fbn, b.value);
      HoldsDirty(disk, sb, st, WithInd(st0, inum, b.value), dirty, inum);
      st := WithInd(st0, inum, b.value);
      dirty := dirty + {inum};
      r := Some(SetAddr(di, NDIRECT, b.value));
    }

    /** And for a block named by the indirect block. */
    method EntryBlock(inum: nat, di: Dinode, fbn: nat) returns (r: Option<u32>)
      requires Synced() && Own(st) && inum < |st.inodes| && st.inodes[inum] == di && dirty <= {inum}
      requires NDIRECT <= fbn < MAXFILE && di.addrs[NDIRECT] != 0
      modifies this`disk, this`freeblock, this`st, this`dirty
      ensures r.Some? ==> Synced() && Own(st) && dirty == old(dirty) && inum < |st.inodes| && st.inodes[inum] == di
      ensures r.Some? ==> r.value != 0 && Grew(old(st), st, inum, fbn, r.value)
      ensures r.None? <==> MapOf(old(st), inum, fbn) == 0 && old(freeblock) >= sb.size
      ensures r.Some? ==> freeblock == old(freeblock) + (if MapOf(old(st), inum, fbn) == 0 then 1 else 0)
    {
      hide Own;
      hide Grew;
      hide BitOf;
      hide InodeOf;
      hide Word;
      hide SetWord;
      ghost var st0 := st;
      var ibno := di.addrs[NDIRECT];
      F.IndPlace(st, inum);
      var indirect := disk[ibno];
      var idx := fbn - NDIRECT;
      F.MapIsWord(st, inum, idx);
      GrewRefl(st, inum, fbn);
      if Word(indirect, idx) != 0 { return Some(Word(indirect, idx)); }
      var b := AllocBlock();
      if b.None? { return None; }
      FreeIsNoInd(st0, b.value, inum);
      WithEntryOwn(st0, inum, fbn, b.value);
      F.EntryGrew(st0, inum, fbn, b.value);
      HoldsData(disk, sb, Unmarked(st), dirty, ibno, SetWord(indirect, idx, b.value));
      disk := disk[ibno := SetWord(indirect, idx, b.value)];
      ghost var st1 := st;
      st := WithEntry(st0, inum, fbn, b.value);
      assert Unmarked(st).blocks == st1.blocks[ibno := SetWord(indirect, idx, b.value)];
      r := Some(b.value);
    }

    /** The block of the file that holds block fbn, found or made. */
    method FileBlock(inum: nat, di: Dinode, fbn: nat) returns (r: Option<(Dinode, u32)>)
      requires Synced() && Own(st) && inum < |st.inodes| && st.inodes[inum] == di && dirty <= {inum} && fbn < MAXFILE
      modifies this`disk, this`freeblock, this`st, this`dirty
      ensures r.Some? ==> Synced() && Own(st) && dirty <= {inum} && inum < |st.inodes| && st.inodes[inum] == r.value.0
      ensures r.Some? ==> r.value.1 != 0 && Grew(old(st), st, inum, fbn, r.value.1)
      ensures var need :=
                (if MapOf(old(st), inum, fbn) == 0 then 1 else 0) + if fbn >= NDIRECT && di.addrs[NDIRECT] == 0 then 1
                  else 0;
              && (r.None? <==> old(freeblock) + need > sb.size)
              && (r.Some? ==> freeblock == old(freeblock) + need)
      ensures r.Some? ==>
                if fbn < NDIRECT then r.value.0.addrs[NDIRECT] == di.addrs[NDIRECT] else r.value.0.addrs[NDIRECT] != 0
    {
      hide Own;
      hide Grew;
      hide MapOf;
      hide BitOf;
      hide InodeOf;
      ghost var t := st;
      if fbn < NDIRECT {
        r := DirectBlock(inum, di, fbn);
        return;
      }
      if di.addrs[NDIRECT] == 0 { F.NoIndNoMap(st, inum, fbn); }
      var i := IndBlock(inum, di, fbn);
      if i.None? { return None; }
      ghost var t1 := st;
      GrewSame(t, t1, inum, fbn);
      var b := EntryBlock(inum, i.value, fbn);
      if b.None? { return None; }
      GrewTrans(t, t1, st, inum, fbn, b.value);
      r := Some((i.value, b.value));
    }

    /** One turn of iappend's loop: the rest of one block. */
    method AppendTurn(inum: nat, di: Dinode, data: seq<byte>, idx: nat, ghost st0: St)
      returns (r: Option<(Dinode, nat)>)
      requires Synced() && Own(st) && inum < |st.inodes| && st.inodes[inum] == di && dirty <= {inum} && idx < |data|
      requires di.size + idx <= MAXFILE * BSIZE && Wrote(st0, st, inum, di.size, data, idx)
               && Tight(st, inum, di.size + idx)
      modifies this`disk, this`freeblock, this`st, this`dirty
      ensures r.Some? ==> Synced() && Own(st) && dirty <= {inum} && inum < |st.inodes| && st.inodes[inum] == r.value.0
      ensures r.Some? ==> r.value.1 > 0 && idx + r.value.1 <= |data| && r.value.0.size == di.size
      ensures r.Some? ==>
                di.size + idx + r.value.1 <= MAXFILE * BSIZE && Wrote(st0, st, inum, di.size, data, idx + r.value.1)
      ensures var off := di.size + idx;
              && (r.None? <==> off >= MAXFILE * BSIZE || old(freeblock) + Blocks(off + 1) - Blocks(off) > sb.size)
              && (r.Some? ==>
                   freeblock == old(freeblock) + Blocks(off + r.value.1) - Blocks(off)
                   && Tight(st, inum, off + r.value.1))
    {
      hide Own;
      hide Grew;
      hide Wrote;
      hide MapOf;
      hide BitOf;
      hide InodeOf;
      hide Tight;
      hide Blocks;
      hide Filled;
      ghost var t := st;
      var off := di.size + idx;
      var fbn := off / BSIZE;
      if fbn >= MAXFILE { return None; }
      NeedIs(t, inum, off);
      var found := FileBlock(inum, di, fbn);
      if found.None? { return None; }
      var d, bno := found.value.0, found.value.1;
      F.GrewAt2(t, st, inum, fbn, bno);
      PathOf(st, inum, fbn);
      F.DataPlace(st, bno);
      SameSize(t, st, inum, fbn, bno);
      var n := if |data| - idx < BSIZE - off % BSIZE then |data| - idx else BSIZE - off % BSIZE;
      FitsEnd(off, n);
      WroteMore(st0, t, st, inum, di.size, data, idx, n, bno);
      var piece := Splice(disk[bno], off % BSIZE, data[idx..idx + n]);
      TightMore(t, st, inum, off, n, bno, piece);
      FilledInodes(st, bno, piece);
      StoreBlock(bno, piece);
      r := Some((d, n));
    }

    /** The bytes of one block of a file are replaced in the image. */
    method StoreBlock(b: nat, piece: Block)
      requires Synced() && sb.meta <= b < sb.size
      modifies this`disk, this`st
      ensures Synced() && st == Filled(old(st), b, piece)
    {
      hide BitOf;
      hide InodeOf;
      HoldsData(disk, sb, Unmarked(st), dirty, b, piece);
      disk := disk[b := piece];
      st := Filled(st, b, piece);
      assert Unmarked(st).blocks == Unmarked(old(st)).blocks[b := piece];
    }

    /** iappend: the data follow what the file held, and no other file is touched;
        it raises exactly where the file gets too long or the blocks run out, and
        then no image is written at all. */
    method Iappend(inum: nat, data: seq<byte>) returns (ok: bool)
      requires Ready() && inum < nextInum && inum < |st.inodes| && st.inodes[inum].typ != 0
      modifies this`disk, this`freeblock, this`st, this`dirty
      ensures ok ==> Ready() && inum < |old(st).inodes| && Appended(old(st), st, inum, data)
      ensures ok <==> RoomFor(old(st), inum, |data|, old(freeblock), sb.size)
      ensures ok ==>
                freeblock == old(freeblock) +
                  Blocks(old(st).inodes[inum].size + |data|) - Blocks(old(st).inodes[inum].size)
    {
      hide Own;
      hide Wrote;
      hide MapOf;
      hide Good;
      hide Holds;
      hide Tight;
      hide Blocks;
      F.GoodOwn(st);
      F.WholeOf(st, inum);
      if data == [] {
        NothingAppended(st, inum);
        return true;
      }
      ghost var st0 := st;
      var di := ReadInode(inum);
      var idx := 0;
      WroteNone(st, inum, di.size, data);
      assert st.inodes[inum] == di;
      while idx < |data|
        invariant idx <= |data| && Synced() && Own(st) && inum < |st.inodes| && st.inodes[inum] == di && dirty <= {inum}
        invariant di.size == st0.inodes[inum].size && di.size + idx <= MAXFILE * BSIZE
                  && Wrote(st0, st, inum, di.size, data, idx)
        invariant Tight(st, inum, di.size + idx)
                  && freeblock == old(freeblock) + Blocks(di.size + idx) - Blocks(di.size)
      {
        BlocksGrow(di.size + idx + 1, di.size + |data|);
        var t := AppendTurn(inum, di, data, idx, st0);
        if t.None? { return false; }
        di := t.value.0;
        idx := idx + t.value.1;
      }
      ghost var t := st;
      var e := Dinode(di.typ, di.major, di.minor, di.nlink, di.size + idx, di.addrs);
      WroteContents(st0, t, inum, di.size, data, idx, di.size + idx);
      Grown(st0, t, Sized(t, inum, di.size + idx), inum, data, nextInum);
      TightSized(st0, t, inum, di.size + idx, di.size, data, idx);
      WriteInode(inum, e);
      ok := true;
    }

    /** read_dinode, where memory holds nothing newer. */
    method ReadInode(inum: nat) returns (d: Dinode)
      requires Synced() && dirty == {} && inum < |st.inodes|
      ensures d == st.inodes[inum]
    {
      hide BitOf;
      hide DinodeIn;
      F.ReadInode(disk, sb, Unmarked(st), dirty, inum);
      d := DinodeIn(disk[IBlock(sb, inum)], inum % IPB);
    }

    /** write_dinode. */
    method WriteInode(inum: nat, d: Dinode)
      requires Synced() && inum < |st.inodes| && dirty <= {inum}
      modifies this`disk, this`st, this`dirty
      ensures Synced() && dirty == {}
      ensures st == St(old(st).meta, old(st).bits, old(st).inodes[inum := d], old(st).blocks, old(st).owner)
    {
      hide BitOf;
      hide InodeOf;
      hide SetDinode;
      ghost var u := St(st.meta, st.bits, st.inodes[inum := d], st.blocks, st.owner);
      HoldsDirty(disk, sb, st, u, dirty, inum);
      HoldsInode(disk, sb, Unmarked(u), dirty + {inum}, inum);
      disk := disk[IBlock(sb, inum) := SetDinode(disk[IBlock(sb, inum)], inum % IPB, d)];
      assert dirty + {inum} - {inum} == {};
      st := u;
      dirty := {};
    }

    /** alloc_inode: the next inode, with the type and one link. */
    method AllocInode(typ: short) returns (r: Option<nat>)
      requires Ready() && typ != 0
      modifies this`disk, this`nextInum, this`st, this`dirty
      ensures Ready()
      ensures r.None? <==> old(nextInum) >= sb.ninodes
      ensures r.None? ==> st == old(st) && nextInum == old(nextInum)
      ensures r.Some? ==> r.value == old(nextInum) < |st.inodes| && nextInum == old(nextInum) + 1
      ensures r.Some? ==> Created(old(st), st, r.value, typ)
    {
      hide Own;
      hide Holds;
      if nextInum >= sb.ninodes { return None; }
      var inum := nextInum;
      ghost var st0 := st;
      assert st.inodes[inum] == Blank();
      var d := Dinode(typ, 0, 0, 1, 0, seq(13, _ => 0));
      WriteInode(inum, d);
      CreatedGood(st0, st, inum, typ);
      CreatedTight(st0, st, inum);
      nextInum := nextInum + 1;
      r := Some(inum);
    }

    /** dirlink: one more directory entry; the name must fit and have no slash. */
    method Dirlink(dir: nat, child: nat, name: seq<byte>) returns (ok: bool)
      requires Ready() && dir < nextInum && dir < |st.inodes| && st.inodes[dir].typ != 0
      modifies this`disk, this`freeblock, this`st, this`dirty
      ensures ok ==> Ready() && dir < |old(st).inodes| && ProperName(name) && child < 0x1_0000
      ensures ok ==> Appended(old(st), st, dir, D.PackDe(child, name))
      ensures ok <==> ProperName(name) && child < 0x1_0000 && RoomFor(old(st), dir, D.DESIZE, old(freeblock), sb.size)
      ensures ok ==>
                freeblock == old(freeblock) +
                  Blocks(old(st).inodes[dir].size + D.DESIZE) - Blocks(old(st).inodes[dir].size)
    {
      if !ProperName(name) || child >= 0x1_0000 { return false; }
      ok := Iappend(dir, D.PackDe(child, name));
    }

    /** write_superblock: what the kernel reads in block 1 is where things are. */
    method WriteSuperblock()
      requires Ready() && sb.ninodes < 0x1_0000_0000
      modifies this`disk
      ensures Ready() && SuperIs(disk, sb)
    {
      hide Own;
      hide Good;
      hide Holds;
      hide PackSuper;
      hide SuperIn;
      SuperFits(sb, Unmarked(st), disk, dirty);
      var x :=
        SuperBlock(FSMAGIC, sb.size, sb.size - sb.meta, sb.ninodes, sb.inodestart - 2, 2, sb.inodestart, sb.bmapstart);
      HoldsSuper(disk, sb, Unmarked(st), dirty, Splice(disk[1], 0, PackSuper(x)));
      SuperReads(disk[1], x);
      disk := disk[1 := Splice(disk[1], 0, PackSuper(x))];
    }

    /** write_bitmap: a bit for every block below freeblock. The image then holds,
        bitmap and all, what the kernel calls a good file system. */
    method WriteBitmap()
      requires Ready()
      modifies this`disk
      ensures st == old(st) && Holds(disk, sb, st, {}) && Good(st)
      ensures old(SuperIs(disk, sb)) ==> SuperIs(disk, sb)
    {
      hide ReadSuper;
      hide BlockBit;
      hide SetBlockBit;
      hide Own;
      hide InodeOf;
      hide BitOf;
      ghost var bits := Unmarked(st).bits;
      var b := 0;
      while b < freeblock
        invariant b <= freeblock && |bits| == |st.bits|
                  && Holds(disk, sb, St(st.meta, bits, st.inodes, st.blocks, st.owner), {})
        invariant forall c: nat | c < |bits| :: bits[c] == (c < b)
        invariant old(SuperIs(disk, sb)) ==> SuperIs(disk, sb)
      {
        var byteIndex, bit := b / 8, b % 8;
        var block, off := sb.bmapstart + byteIndex / BSIZE, byteIndex % BSIZE;
        BitPlace(b);
        HoldsBit(disk, sb, St(st.meta, bits, st.inodes, st.blocks, st.owner), {}, b, true);
        OrBit(disk[block], b % BPB);
        SetBitFits(disk[block][off], bit, true);
        disk := disk[block := disk[block][off := SetBitIn(disk[block][off], bit, true)]];
        bits := bits[b := true];
        b := b + 1;
      }
      forall c: nat | c < |bits| ensures bits[c] == st.bits[c] { assert st.bits[c] == (c < freeblock); }
      assert bits == st.bits;
      assert St(st.meta, bits, st.inodes, st.blocks, st.owner) == st;
    }
  }

  lemma SuperFits(sb: Super, st: St, disk: seq<Block>, dirty: set<nat>)
    requires Holds(disk, sb, st, dirty)
    ensures Geometry(sb) && |disk| == sb.size && 2 <= sb.inodestart <= sb.bmapstart <= sb.meta < sb.size < 0x1_0000_0000
  {
  }

  lemma BitPlace(b: nat)
    ensures b / 8 / BSIZE == b / BPB && b / 8 % BSIZE == b % BPB / 8 && b % 8 == b % BPB % 8
  {
  }

  lemma OrBit(x: Block, i: nat)
    requires i < BPB
    ensures SetBitIn(x[i / 8], i % 8, true) < 256
            && SetBlockBit(x, i, true) == x[i / 8 := SetBitIn(x[i / 8], i % 8, true)]
  {
    SetBitFits(x[i / 8], i % 8, true);
  }

  predicate ProperName(name: seq<byte>) { 0 < |name| <= DIRSIZ && 0x2F !in name }

  /** Inode i now exists and is empty; nothing else changed. */
  ghost predicate Created(st: St, t: St, i: nat, typ: short) {
    && i < |st.inodes| == |t.inodes|
    && t.inodes[i].typ == typ && t.inodes[i].nlink == 1 && t.inodes[i].size == 0
    && forall j: nat {:trigger t.inodes[j]} | j < |st.inodes| && j != i ::
         t.inodes[j] == st.inodes[j] && st.inodes[j].size <= MAXFILE * BSIZE && Contents(t, j) == Contents(st, j)
  }

  lemma CreatedGood(st: St, t: St, i: nat, typ: short)
    requires Good(st) && i < |st.inodes| && st.inodes[i] == Blank() && typ != 0
    requires t == St(st.meta, st.bits, st.inodes[i := Dinode(typ, 0, 0, 1, 0, seq(13, _ => 0))], st.blocks, st.owner)
    ensures Good(t) && Created(st, t, i, typ)
  {
    hide MapOf;
    hide ByteAt;
    hide Own;
    F.GoodOwn(st);
    assert t.inodes[i].addrs == st.inodes[i].addrs;
    RefieldedSame(st, t, i);
    forall j: nat | j < |st.inodes|
      ensures Whole(t, j)
      ensures j != i ==>
                t.inodes[j] == st.inodes[j] && st.inodes[j].size <= MAXFILE * BSIZE && Contents(t, j) == Contents(st, j)
    {
      assert Whole(st, j);
      if j != i {
        assert Untouched(st, t, j);
        SameContents(st, t, j);
      }
    }
    GoodIntro(t);
  }

  // ---- whole images ----

  datatype Item = Item(name: seq<byte>, data: seq<byte>)

  /** The directory bytes for a list of bindings. */
  function DirBytes(l: seq<(nat, seq<byte>)>): (r: seq<byte>)
    ensures |r| == D.DESIZE * |l|
  {
    if l == [] then [] else DirBytes(l[..|l| - 1]) + D.PackDe(l[|l| - 1].0, l[|l| - 1].1)
  }

  lemma {:induction false} DirBytesAt(l: seq<(nat, seq<byte>)>, k: nat)
    requires k < |l|
    ensures (k + 1) * D.DESIZE <= |DirBytes(l)| && D.EntAt(DirBytes(l), k) == D.EntAt(D.PackDe(l[k].0, l[k].1), 0)
  {
    hide D.EntAt;
    hide D.PackDe;
    var p, e := DirBytes(l[..|l| - 1]), D.PackDe(l[|l| - 1].0, l[|l| - 1].1);
    assert DirBytes(l) == p + e;
    assert D.PutEnt(p, |l| - 1, e) == p + e;
    D.PutEntAt(p, |l| - 1, e, k);
    if k < |l| - 1 { DirBytesAt(l[..|l| - 1], k); }
  }

  function Bindings(items: seq<Item>, n: nat): seq<(nat, seq<byte>)>
    requires n <= |items|
  {
    if n == 0 then [(1, [0x2E]), (1, [0x2E, 0x2E])] else Bindings(items, n - 1) + [(n + 1, items[n - 1].name)]
  }

  lemma {:induction false} BindingsAt(items: seq<Item>, n: nat, k: nat)
    requires n <= |items| && k < n
    ensures |Bindings(items, n)| == n + 2 && Bindings(items, n)[k + 2] == (k + 2, items[k].name)
    ensures Bindings(items, n)[0] == (1, [0x2E]) && Bindings(items, n)[1] == (1, [0x2E, 0x2E])
  {
    if k < n - 1 { BindingsAt(items, n - 1, k); } else if n > 1 { BindingsAt(items, n - 1, 0); }
  }

  /** The first n items are packed, as inodes 2 and on, and listed in the root. */
  ghost predicate Packed(st: St, items: seq<Item>, n: nat) {
    && n <= |items| && n + 2 <= |st.inodes|
    && st.inodes[1].typ == T_DIR && st.inodes[1].nlink == 2 && st.inodes[1].size <= MAXFILE * BSIZE
    && Contents(st, 1) == DirBytes(Bindings(items, n))
    && forall k: nat {:trigger items[k]} | k < n ::
         && st.inodes[k + 2].typ == T_FILE && st.inodes[k + 2].nlink == 1 && st.inodes[k + 2].size <= MAXFILE * BSIZE
         && Contents(st, k + 2) == items[k].data
  }

  /** No other inode has a type. */
  ghost predicate Rest(st: St, n: nat) {
    forall i: nat {:trigger st.inodes[i]} | i < |st.inodes| && (i == 0 || i >= n + 2) :: st.inodes[i].typ == 0
  }

  function ItemBlocks(items: seq<Item>, n: nat): nat
    requires n <= |items|
  {
    if n == 0 then 0 else ItemBlocks(items, n - 1) + Blocks(|items[n - 1].data|)
  }

  predicate ItemOk(x: Item) { ProperName(x.name) && |x.data| <= MAXFILE * BSIZE }

  /** The size of the root directory with n items in it. */
  function RootSize(n: nat): nat { D.DESIZE * (n + 2) }

  /** An image of that size, in numbers of 32 bits, has room for these items: an
      inode for each, a root directory and files that are not too long, names that can be stored, and
      blocks for all of it behind the metadata. */
  predicate ImageFits(size: nat, ninodes: nat, nlog: nat, items: seq<Item>) {
    && 0 < size < 0x1_0000_0000 && 2 <= ninodes < 0x1_0000_0000 && Plan(size, ninodes, nlog).meta < size
    && |items| + 2 <= ninodes && RootSize(|items|) <= MAXFILE * BSIZE
    && (forall i: nat {:trigger items[i]} | i < |items| :: ItemOk(items[i]))
    && Plan(size, ninodes, nlog).meta + Blocks(RootSize(|items|)) + ItemBlocks(items, |items|) <= size
  }

  /** Item n cannot be added to what fills `free` blocks. */
  predicate Stuck(items: seq<Item>, n: nat, free: nat, size: nat, ninodes: nat)
    requires n < |items|
  {
    || n + 2 >= ninodes || !ItemOk(items[n]) || RootSize(n + 1) > MAXFILE * BSIZE
    || free + Blocks(|items[n].data|) + Blocks(RootSize(n + 1)) - Blocks(RootSize(n)) > size
  }

  lemma {:induction false} ItemsGrow(items: seq<Item>, n: nat, m: nat)
    requires n <= m <= |items|
    ensures ItemBlocks(items, n) <= ItemBlocks(items, m)
    decreases m
  {
    if n < m { ItemsGrow(items, n, m - 1); }
  }

  lemma NotStuck(items: seq<Item>, n: nat, free: nat, size: nat, ninodes: nat)
    requires n < |items| && !Stuck(items, n, free, size, ninodes)
    ensures n + 3 <= ninodes && ItemOk(items[n]) && RootSize(n + 1) <= MAXFILE * BSIZE
  {
  }

  lemma StuckMeans(items: seq<Item>, n: nat, free: nat, size: nat, ninodes: nat, nlog: nat)
    requires n < |items| && Stuck(items, n, free, size, ninodes)
    requires free == Plan(size, ninodes, nlog).meta + Blocks(RootSize(n)) + ItemBlocks(items, n)
    ensures !ImageFits(size, ninodes, nlog, items)
  {
    hide Blocks;
    hide Plan;
    hide ItemOk;
    ItemsGrow(items, n + 1, |items|);
    BlocksGrow(RootSize(n + 1), RootSize(|items|));
    assert !ItemOk(items[n]) ==> items[n] == items[n];
  }

  /** main: root directory, "." and "..", then every item. It answers an image
      exactly if the items fit, a good file system with all of them. */
  method Build(size: nat, ninodes: nat, nlog: nat, items: seq<Item>) returns (r: Option<seq<Block>>, ghost st: St)
    ensures r.Some? <==> ImageFits(size, ninodes, nlog, items)
    ensures r.Some? ==> SuperIs(r.value, Plan(size, ninodes, nlog))
    ensures r.Some? ==>
              Rest(st, |items|) && Holds(r.value, Plan(size, ninodes, nlog), st, {}) && Good(st)
              && Packed(st, items, |items|)
  {
    hide Own;
    hide Good;
    hide Holds;
    hide Packed;
    hide Rest;
    hide Appended;
    hide Created;
    hide Blocks;
    hide Stuck;
    hide ReadSuper;
    st := St(0, [], [], [], []);
    if size == 0 || ninodes < 2 || Plan(size, ninodes, nlog).meta >= size { return None, st; }
    // The superblock cannot hold larger numbers: packing it raises.
    if size >= 0x1_0000_0000 || ninodes >= 0x1_0000_0000 { return None, st; }
    var mk := new Mkfs(size, ninodes, nlog);
    RootBlock();
    MakeRoot(mk, items);
    var n := 0;
    while n < |items|
      invariant n <= |items| && mk.Ready() && mk.sb == Plan(size, ninodes, nlog) && Packed(mk.st, items, n)
                && mk.nextInum == n + 2
      invariant Rest(mk.st, n) && mk.freeblock == mk.sb.meta + Blocks(RootSize(n)) + ItemBlocks(items, n)
      invariant n + 2 <= ninodes && RootSize(n) <= MAXFILE * BSIZE && forall i: nat | i < n :: ItemOk(items[i])
    {
      ghost var free := mk.freeblock;
      var added := AddItem(mk, items, n);
      if !added {
        StuckMeans(items, n, free, size, ninodes, nlog);
        return None, st;
      }
      NotStuck(items, n, free, size, ninodes);
      n := n + 1;
    }
    mk.WriteSuperblock();
    mk.WriteBitmap();
    r, st := Some(mk.disk), mk.st;
  }

  lemma RootBlock()
    ensures Blocks(RootSize(0)) == 1 && Blocks(D.DESIZE) == 1 && Blocks(0) == 0
            && RootSize(0) == 2 * D.DESIZE <= MAXFILE * BSIZE
  {
  }

  method MakeRoot(mk: Mkfs, ghost items: seq<Item>)
    requires mk.Ready() && mk.nextInum == 1 && mk.sb.ninodes >= 2 && mk.freeblock < mk.sb.size
    modifies mk
    ensures mk.Ready() && mk.nextInum == 2 && Packed(mk.st, items, 0) && Rest(mk.st, 0)
    ensures mk.freeblock == old(mk.freeblock) + Blocks(RootSize(0))
  {
    hide Own;
    hide Good;
    hide Holds;
    hide Contents;
    hide Tight;
    hide Blocks;
    RootBlock();
    var root := mk.AllocInode(T_DIR);
    ghost var st0 := mk.st;
    var d := mk.ReadInode(1);
    RootTwo(mk.st, d);
    mk.WriteInode(1, Dinode(d.typ, d.major, d.minor, 2, d.size, d.addrs));
    CreatedTight(st0, mk.st, 1);
    ghost var st1 := mk.st;
    var ok := mk.Dirlink(1, 1, [0x2E]);
    ContentsSize(st1, 1);
    ContentsSize(mk.st, 1);
    ghost var st2 := mk.st;
    ok := mk.Dirlink(1, 1, [0x2E, 0x2E]);
    EmptyContents(st0, 1);
    var b := [(1, [0x2E])];
    assert Bindings(items, 0)[..1] == b && b[..0] == [];
    assert DirBytes(b) == [] + D.PackDe(1, [0x2E]);
    forall i: nat | i < |mk.st.inodes| && (i == 0 || i >= 2) ensures mk.st.inodes[i].typ == 0 {
      assert mk.st.inodes[i] == st2.inodes[i] && st2.inodes[i] == st1.inodes[i] && st0.inodes[i] == st0.inodes[i];
    }
  }

  lemma EmptyContents(st: St, i: nat)
    requires i < |st.inodes| && st.inodes[i].size == 0
    ensures Contents(st, i) == []
  {
  }

  lemma RootTwo(st: St, d: Dinode)
    requires Good(st) && 1 < |st.inodes| && st.inodes[1] == d && d.typ != 0 && d.size == 0
    ensures var u :=
              St(st.meta, st.bits, st.inodes[1 := Dinode(d.typ, d.major, d.minor, 2, d.size, d.addrs)], st.blocks,
                 st.owner);
            Good(u) && Contents(u, 1) == []
  {
    hide MapOf;
    hide ByteAt;
    hide Own;
    var u :=
      St(st.meta, st.bits, st.inodes[1 := Dinode(d.typ, d.major, d.minor, 2, d.size, d.addrs)], st.blocks, st.owner);
    F.GoodOwn(st);
    RefieldedSame(st, u, 1);
    forall j: nat | j < |u.inodes| ensures Whole(u, j) {
      assert Whole(st, j) && SameMap(st, u, j);
      RefieldedAt(st, u, 1, j);
      forall bn: nat | bn < MAXFILE ensures MapOf(u, j, bn) == MapOf(st, j, bn) {}
    }
    GoodIntro(u);
  }

  /** add_host_file and add_text_file: it fails exactly where this item does not fit. */
  method AddItem(mk: Mkfs, items: seq<Item>, n: nat) returns (ok: bool)
    requires mk.Ready() && n < |items| && Packed(mk.st, items, n) && Rest(mk.st, n) && mk.nextInum == n + 2
    modifies mk
    ensures ok ==> mk.Ready() && Packed(mk.st, items, n + 1) && Rest(mk.st, n + 1) && mk.nextInum == n + 3
    ensures ok <==> !Stuck(items, n, old(mk.freeblock), mk.sb.size, mk.sb.ninodes)
    ensures ok ==>
              mk.freeblock == old(mk.freeblock) + Blocks(|items[n].data|) +
                Blocks(RootSize(n + 1)) - Blocks(RootSize(n))
  {
    hide Own;
    hide Good;
    hide Holds;
    hide Contents;
    hide Tight;
    hide Blocks;
    hide ProperName;
    hide DirBytes;
    RootBlock();
    RootSizeIs(mk.st, items, n);
    BlocksGrow(RootSize(n), RootSize(n + 1));
    ghost var st0 := mk.st;
    var inum := mk.AllocInode(T_FILE);
    if inum.None? { return false; }
    ghost var st1 := mk.st;
    ok := mk.Iappend(inum.value, items[n].data);
    if !ok { return; }
    ghost var st2 := mk.st;
    assert st1.inodes[1] == st0.inodes[1] && st2.inodes[1] == st1.inodes[1];
    ok := mk.Dirlink(1, inum.value, items[n].name);
    if !ok { return; }
    EmptyContents(st1, n + 2);
    PackedMore(st0, st1, st2, mk.st, items, n);
    forall i: nat | i < |mk.st.inodes| && (i == 0 || i >= n + 3) ensures mk.st.inodes[i].typ == 0 {
      assert mk.st.inodes[i] == st2.inodes[i] && st2.inodes[i] == st1.inodes[i] && st1.inodes[i] == st0.inodes[i];
    }
  }

  lemma RootSizeIs(st: St, items: seq<Item>, n: nat)
    requires Packed(st, items, n)
    ensures 1 < |st.inodes| && st.inodes[1].size == RootSize(n)
  {
    hide Contents;
    hide DirBytes;
    ContentsSize(st, 1);
    BindingsLen(items, n);
  }

  lemma {:induction false} BindingsLen(items: seq<Item>, n: nat)
    requires n <= |items|
    ensures |Bindings(items, n)| == n + 2
  {
    if n > 0 { BindingsLen(items, n - 1); }
  }

  lemma PackedMore(st0: St, st1: St, st2: St, st3: St, items: seq<Item>, n: nat)
    requires n < |items| && Packed(st0, items, n) && Created(st0, st1, n + 2, T_FILE) && n + 2 < |st0.inodes|
    requires st1.inodes[n + 2].size <= MAXFILE * BSIZE && Contents(st1, n + 2) == []
    requires Appended(st1, st2, n + 2, items[n].data) && Appended(st2, st3, 1, D.PackDe(n + 2, items[n].name))
    ensures Packed(st3, items, n + 1)
  {
    hide Contents;
    hide DirBytes;
    assert st1.inodes[1] == st0.inodes[1] && st2.inodes[1] == st1.inodes[1];
    var l := Bindings(items, n + 1);
    assert l[..|l| - 1] == Bindings(items, n) && l[|l| - 1] == (n + 2, items[n].name);
    DirBytesMore(l);
    forall k: nat | k < n + 1
      ensures st3.inodes[k + 2].typ == T_FILE && st3.inodes[k + 2].nlink == 1
              && st3.inodes[k + 2].size <= MAXFILE * BSIZE
              && Contents(st3, k + 2) == items[k].data
    {
      PackedFile(st0, st1, st2, st3, items, n, k);
    }
  }

  lemma DirBytesMore(l: seq<(nat, seq<byte>)>)
    requires l != []
    ensures DirBytes(l) == DirBytes(l[..|l| - 1]) + D.PackDe(l[|l| - 1].0, l[|l| - 1].1)
  {
  }

  lemma PackedFile(st0: St, st1: St, st2: St, st3: St, items: seq<Item>, n: nat, k: nat)
    requires k <= n < |items| && Packed(st0, items, n) && Created(st0, st1, n + 2, T_FILE) && n + 2 < |st0.inodes|
    requires st1.inodes[n + 2].size <= MAXFILE * BSIZE && Contents(st1, n + 2) == []
    requires Appended(st1, st2, n + 2, items[n].data) && Appended(st2, st3, 1, D.PackDe(n + 2, items[n].name))
    ensures |st3.inodes| == |st0.inodes| && st3.inodes[k + 2].typ == T_FILE && st3.inodes[k + 2].nlink == 1
    ensures st3.inodes[k + 2].size <= MAXFILE * BSIZE && Contents(st3, k + 2) == items[k].data
  {
    hide Contents;
    assert st3.inodes[k + 2] == st2.inodes[k + 2];
    if k < n {
      assert items[k] == items[k] && st2.inodes[k + 2] == st1.inodes[k + 2] && st1.inodes[k + 2] == st0.inodes[k + 2];
    } else {
      assert [] + items[n].data == items[n].data;
    }
  }

  /** The file of inode i got `data` at its end, and nothing else changed. */
  ghost predicate Appended(st: St, t: St, i: nat, data: seq<byte>) {
    && i < |st.inodes| == |t.inodes|
    && st.inodes[i].size <= MAXFILE * BSIZE && t.inodes[i].size <= MAXFILE * BSIZE
    && Contents(t, i) == Contents(st, i) + data
    && t.inodes[i].typ == st.inodes[i].typ && t.inodes[i].nlink == st.inodes[i].nlink
    && forall j: nat {:trigger t.inodes[j]} | j < |st.inodes| && j != i ::
         t.inodes[j] == st.inodes[j] && st.inodes[j].size <= MAXFILE * BSIZE && Contents(t, j) == Contents(st, j)
  }

  lemma NothingAppended(st: St, i: nat)
    requires Good(st) && i < |st.inodes|
    ensures Appended(st, st, i, [])
  {
    hide Own;
    hide ByteAt;
    F.WholeOf(st, i);
    forall j: nat | j < |st.inodes| ensures st.inodes[j].size <= MAXFILE * BSIZE { F.WholeOf(st, j); }
    assert Contents(st, i) + [] == Contents(st, i);
  }

  lemma SameSize(t: St, u: St, i: nat, bn: nat, a: nat)
    requires Grew(t, u, i, bn, a) && i < |t.inodes|
    ensures i < |u.inodes| && u.inodes[i].size == t.inodes[i].size
  {
  }

  lemma FitsEnd(off: nat, n: nat)
    requires off / BSIZE < MAXFILE && off % BSIZE + n <= BSIZE
    ensures off + n <= MAXFILE * BSIZE
  {
  }

  /** The result of iappend, once the size is set. */
  lemma Grown(st: St, t: St, u: St, i: nat, data: seq<byte>, next: nat)
    requires Good(st) && i < next && i < |st.inodes| == |t.inodes| && Wrote(st, t, i, st.inodes[i].size, data, |data|)
    requires st.inodes[i].size + |data| <= MAXFILE * BSIZE && u == Sized(t, i, st.inodes[i].size + |data|) && Own(t)
             && st.inodes[i].typ != 0
    requires forall j: nat {:trigger st.inodes[j]} | next <= j < |st.inodes| :: st.inodes[j] == Blank()
    ensures Good(u) && Appended(st, u, i, data)
    ensures forall j: nat {:trigger u.inodes[j]} | next <= j < |u.inodes| :: u.inodes[j] == Blank()
  {
    hide MapOf;
    hide ByteAt;
    hide Own;
    F.WholeOf(st, i);
    WroteContents(st, t, i, st.inodes[i].size, data, |data|, st.inodes[i].size + |data|);
    var c := Contents(st, i);
    assert c[..|c|] + data[..|data|] + [] == c + data;
    forall j: nat | j < |st.inodes| && j != i
      ensures u.inodes[j] == st.inodes[j] && st.inodes[j].size <= MAXFILE * BSIZE && Contents(u, j) == Contents(st, j)
    {
      assert u.inodes[j] == st.inodes[j];
    }
  }

  /** A working copy of an inode that is not yet on disk. */
  lemma HoldsDirty(disk: seq<Block>, sb: Super, st: St, u: St, dirty: set<nat>, i: nat)
    requires Holds(disk, sb, Unmarked(st), dirty) && i < |st.inodes| == |u.inodes|
    requires u.meta == st.meta && u.bits == st.bits && u.blocks == st.blocks && |u.owner| == |st.owner|
    requires u.inodes == st.inodes[i := u.inodes[i]]
    ensures Holds(disk, sb, Unmarked(u), dirty + {i})
  {
    hide BitOf;
    hide InodeOf;
  }

  lemma EmptyGood(st: St)
    requires Sizes(st) && |st.inodes| >= 2
    requires forall i: nat | i < |st.inodes| :: st.inodes[i] == Blank()
    requires forall b: nat | b < |st.bits| ::
               st.bits[b] == (b < st.meta) && st.owner[b] == if b < st.meta then Meta else Free
    ensures Good(st)
  {
    forall b: nat | b < |st.owner| ensures BlockOk(st, b) {}
    forall i: nat, bn: nat | i < |st.inodes| && bn < MAXFILE ensures PathOk(st, i, bn) {}
    forall i: nat | i < |st.inodes| ensures IndOk(st, i) && Whole(st, i) {}
  }

  lemma EmptyHolds(sb: Super, disk: seq<Block>, st: St)
    requires Geometry(sb) && |disk| == sb.size && (forall b: nat | b < |disk| :: disk[b] == Zero())
    requires st.meta == sb.meta && |st.bits| == |st.blocks| == |st.owner| == sb.size && |st.inodes| == sb.ninodes
    requires (forall i: nat | i < |st.inodes| :: st.inodes[i] == Blank())
             && forall b: nat | b < |st.blocks| :: st.blocks[b] == Zero()
    ensures Holds(disk, sb, Unmarked(st), {})
  {
    hide BitIn;
    forall b: nat | b < sb.size ensures BitOf(disk, sb, b) == false { NoBit(b % BPB % 8); }
    forall i: nat | i < sb.ninodes ensures InodeOf(disk, sb, i) == Blank() { ZeroInode(i % IPB); }
  }

  lemma NoBit(k: nat)
    ensures !BitIn(0, k)
    decreases k
  {
    if k > 0 { NoBit(k - 1); }
  }

  lemma ZeroInode(k: nat)
    requires k < IPB
    ensures DinodeIn(Zero(), k) == Blank()
  {
    ZeroUnpack(Zero()[DINODE_SIZE * k..DINODE_SIZE * k + DINODE_SIZE]);
  }
}
