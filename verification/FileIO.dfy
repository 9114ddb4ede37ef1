/** fileread and filewrite on an inode: loops over 512-byte pieces that amount to
    one read, respectively one write, of the whole slice. */
module FileIO {
  import opened Common
  import opened Layout
  import opened FsState
  import FsDisk
  import F = FileSystem

  /** The slice a read of n bytes at off gives. */
  function Slice(s: seq<byte>, off: nat, n: nat): seq<byte> {
    if off > |s| then [] else s[off..Min(off + n, |s|)]
  }

  /** Two writes, one after the other, are one. */
  lemma WroteTwice(st: St, t: St, u: St, i: nat, off: nat, a: seq<byte>, b: seq<byte>)
    requires F.WroteFile(st, t, i, off, a) && F.WroteFile(t, u, i, off + |a|, b)
    ensures F.WroteFile(st, u, i, off, a + b)
  {
    hide Contents;
    forall j: nat | j < |st.inodes| && j != i
      ensures u.inodes[j] == st.inodes[j] && st.inodes[j].size <= MAXFILE * BSIZE && Contents(u, j) == Contents(st, j)
    {
      assert t.inodes[j] == st.inodes[j] && u.inodes[j] == t.inodes[j];
    }
    ContentsSize(st, i); ContentsSize(t, i); ContentsSize(u, i);
    var x, y, z := Contents(st, i), Contents(t, i), Contents(u, i);
    Spliced(x, y, z, off, a, b);
  }

  function Put(x: seq<byte>, off: nat, a: seq<byte>): seq<byte>
    requires off <= |x|
  {
    x[..off] + a + if off + |a| < |x| then x[off + |a|..] else []
  }

  lemma Spliced(x: seq<byte>, y: seq<byte>, z: seq<byte>, off: nat, a: seq<byte>, b: seq<byte>)
    requires off <= |x| && y == Put(x, off, a) && off + |a| <= |y| && z == Put(y, off + |a|, b)
    ensures z == Put(x, off, a + b)
  {
    assert y[..off + |a|] == x[..off] + a;
    if off + |a| + |b| < |y| { assert y[off + |a| + |b|..] == x[off + |a| + |b|..]; }
  }

  /** struct file of type FD_INODE; `ip` is its slot in the inode table. */
  class File {
    const fs: F.FileSystem
    const ip: nat
    var off: u32

    constructor (fs: F.FileSystem, ip: nat)
      ensures this.fs == fs && this.ip == ip && off == 0
    {
      this.fs, this.ip, off := fs, ip, 0;
    }

    ghost predicate Valid()
      reads this, fs
    {
      fs.Ready() && F.Loaded(fs.itable, ip) && fs.itable[ip].inum < |fs.st.inodes|
    }

    /** fileread: `room` bytes at addr can be written. The bytes delivered are
        those of the file from off on, and off moves past what was read; if
        copyout fails, at the first piece that does not fit, the answer is -1. */
    method Read(n: int, room: nat) returns (r: int, dst: seq<byte>)
      requires Valid() && off < 0x8000_0000 && n < 0x8000_0000
      modifies this`off, fs
      ensures Valid() && fs.st == old(fs.st) && fs.disk == old(fs.disk) && fs.itable == old(fs.itable)
      ensures off == old(off) + |dst|
      ensures n < 0 ==> r == -1 && dst == []
      ensures n >= 0 ==>
                var i := fs.itable[ip].inum;
                && fs.st.inodes[i].size <= MAXFILE * BSIZE
                && var whole := Slice(Contents(fs.st, i), old(off), n);
                && dst <= whole
                && (if |whole| <= room then r == |whole| && dst == whole else r == -1 && |dst| <= room)
    {
      hide Own;
      hide Good;
      hide F.TableOk;
      hide FsDisk.Holds;
      hide FsDisk.SuperIs;
      hide Contents;
      hide Slice;
      dst := [];
      if n < 0 { r := -1; return; }
      ghost var i := fs.itable[ip].inum;
      F.LoadedIs(fs.itable, fs.st, ip);
      F.WholeOf(fs.st, i);
      ghost var body := Contents(fs.st, i);
      ghost var whole := Slice(body, off, n);
      SliceSize(body, off, n);
      var tot := 0;
      while tot < n
        invariant fs.st == old(fs.st) && fs.disk == old(fs.disk) && fs.itable == old(fs.itable) && Valid()
        invariant off == old(off) + tot && tot <= n && tot <= room && tot <= |whole| && dst == whole[..tot]
      {
        var m := Min(n - tot, BSIZE);
        var k, buf := fs.Readi(ip, off, m);
        SliceIs(body, off, m, buf);
        PieceOf(body, old(off), n, tot, m, |buf|);
        if k < 0 { r := if tot > 0 then tot else -1; return; }
        if k == 0 { break; }
        if tot + k > room { r := -1; return; }
        dst := dst + buf;
        off := off + k;
        tot := tot + k;
        if k < m { break; }
      }
      r := tot;
    }

    /** One turn of filewrite's loop: a piece that could be copied in. */
    method WritePiece(p: seq<byte>) returns (w: int)
      requires Valid() && 0 < |p| <= BSIZE
      modifies fs
      ensures Valid() && fs.itable[ip].inum == old(fs.itable)[ip].inum < |old(fs.st).inodes|
      ensures w == -1 ==> fs.st == old(fs.st)
                          && (off > fs.st.inodes[fs.itable[ip].inum].size || off + |p| > MAXFILE * BSIZE)
      ensures w != -1 ==> 0 <= w <= |p| && F.WroteFile(old(fs.st), fs.st, fs.itable[ip].inum, off, p[..w])
      ensures w != -1 && w < |p| ==> Full(fs.st)
    {
      hide Own;
      hide Good;
      hide F.TableOk;
      hide FsDisk.Holds;
      hide FsDisk.SuperIs;
      hide Contents;
      hide F.WroteFile;
      F.LoadedIs(fs.itable, fs.st, ip);
      w := fs.Writei(ip, off, p);
      F.LoadedIs(fs.itable, fs.st, ip);
    }

    /** filewrite: of the n bytes at addr the first `reach` can be read. What is
        written is a prefix of them, put at the file's offset; it is all of them
        unless a piece cannot be read, the file would exceed its limit, or the
        disk is full. */
    method Write(bytes: seq<byte>, n: int, reach: nat) returns (r: int, ghost t: nat)
      requires Valid() && off < 0x8000_0000 && n < 0x8000_0000 && |bytes| == reach
      modifies this`off, fs
      ensures Valid() && fs.itable[ip].inum == old(fs.itable)[ip].inum < |old(fs.st).inodes|
      ensures t <= n || n < 0
      ensures t <= reach && off == old(off) + t
      ensures t > 0 ==> r == t && F.WroteFile(old(fs.st), fs.st, fs.itable[ip].inum, old(off), bytes[..t])
      ensures t == 0 ==> (r == 0 || r == -1) && (r == -1 || n == 0 ==> fs.st == old(fs.st))
      ensures t == 0 && r == 0 && n > 0 ==> F.WroteFile(old(fs.st), fs.st, fs.itable[ip].inum, old(off), [])
      ensures n >= 0 && t < n ==> old(off) > old(fs.st).inodes[fs.itable[ip].inum].size || reach < n
                                  || old(off) + n > MAXFILE * BSIZE || Full(fs.st)
    {
      hide Own;
      hide Good;
      hide F.TableOk;
      hide FsDisk.Holds;
      hide FsDisk.SuperIs;
      hide Contents;
      hide F.WroteFile;
      hide Full;
      hide F.FileSystem.Ready;
      t := 0;
      if n < 0 { r := -1; return; }
      ghost var i, st0 := fs.itable[ip].inum, fs.st;
      var tot := 0;
      while tot < n
        invariant Valid() && F.Loaded(fs.itable, ip) && fs.itable[ip].inum == i < |st0.inodes| && tot == t
        invariant tot <= n && tot <= reach && off == old(off) + tot
        invariant tot == 0 ==> fs.st == st0
        invariant tot > 0 ==> F.WroteFile(st0, fs.st, i, old(off), bytes[..tot])
      {
        var m := Min(n - tot, BSIZE);
        if tot + m > reach { r := if tot > 0 then tot else -1; return; }
        ghost var before := fs.st;
        var w := WritePiece(bytes[tot..tot + m]);
        if w < 0 {
          if tot > 0 { SizeAfter(st0, before, i, old(off), bytes[..tot]); }
          r := if tot > 0 then tot else -1;
          return;
        }
        FirstOrNext(st0, before, fs.st, i, old(off), bytes, tot, m, w);
        if w == 0 {
          assert bytes[..0] == [];
          break;
        }
        off := off + w;
        tot := tot + w;
        t := tot;
        if w < m { break; }
      }
      r := tot;
    }
  }

  /** No block is free. */
  ghost predicate Full(st: St) { forall c: nat | c < |st.bits| :: st.bits[c] }

  lemma SizeAfter(st: St, t: St, i: nat, off: nat, a: seq<byte>)
    requires F.WroteFile(st, t, i, off, a)
    ensures i < |t.inodes| && off + |a| <= t.inodes[i].size && t.inodes[i].typ == st.inodes[i].typ
  {
    ContentsSize(st, i); ContentsSize(t, i);
  }

  /** One turn of filewrite's loop. */
  lemma FirstOrNext(st: St, t: St, u: St, i: nat, off: nat, bytes: seq<byte>, tot: nat, m: nat, w: nat)
    requires tot + m <= |bytes| && w <= m
    requires tot == 0 ==> t == st
    requires tot > 0 ==> F.WroteFile(st, t, i, off, bytes[..tot])
    requires F.WroteFile(t, u, i, off + tot, bytes[tot..tot + m][..w])
    ensures F.WroteFile(st, u, i, off, bytes[..tot + w])
  {
    hide F.WroteFile;
    assert bytes[tot..tot + m][..w] == bytes[tot..tot + w];
    if tot == 0 {
      assert bytes[..tot + w] == bytes[tot..tot + w];
    } else {
      WroteTwice(st, t, u, i, off, bytes[..tot], bytes[tot..tot + w]);
      assert bytes[..tot] + bytes[tot..tot + w] == bytes[..tot + w];
    }
  }

  /** readi's answer is a slice. */
  lemma SliceIs(body: seq<byte>, off: nat, m: nat, buf: seq<byte>)
    requires off > |body| ==> buf == []
    requires off <= |body| ==> buf == body[off..if off + m < |body| then off + m else |body|]
    ensures buf == Slice(body, off, m)
  {
  }

  lemma SliceSize(body: seq<byte>, off: nat, n: nat)
    ensures |Slice(body, off, n)| <= n && Slice(body, off, n)[..0] == []
    ensures off <= |body| ==> |Slice(body, off, n)| == Min(n, |body| - off)
    ensures off > |body| ==> Slice(body, off, n) == []
  {
  }

  lemma PieceOf(body: seq<byte>, off: nat, n: nat, tot: nat, m: nat, k: nat)
    requires tot < n && m == Min(n - tot, BSIZE) && tot <= |Slice(body, off, n)|
    requires k == |Slice(body, off + tot, m)|
    ensures tot + k <= |Slice(body, off, n)|
    ensures Slice(body, off, n)[..tot] + Slice(body, off + tot, m) == Slice(body, off, n)[..tot + k]
    ensures k < m ==> tot + k == |Slice(body, off, n)|
  {
  }
}
