/** Directories: dirlookup and dirlink on a directory's bytes, and the finite map
    from names to inode numbers those bytes mean. */
module Directory {
  import opened Common
  import opened Layout
  import opened FsState
  import FsDisk
  import F = FileSystem

  const DESIZE: nat := 16

  /** struct dirent: entry i of a directory's bytes. */
  datatype Dirent = Dirent(inum: nat, name: seq<byte>)

  function EntAt(c: seq<byte>, i: nat): Dirent
    requires (i + 1) * DESIZE <= |c|
  {
    Dirent(c[i * DESIZE] + 0x100 * (c[i * DESIZE + 1] as int), c[i * DESIZE + 2..(i + 1) * DESIZE])
  }

  /** A name as a C string: up to the first NUL, at most fourteen bytes. */
  function CName(raw: seq<byte>): (r: seq<byte>)
    ensures |r| <= |raw|
  {
    if raw == [] || raw[0] == 0 then [] else [raw[0]] + CName(raw[1..])
  }

  function Short(name: seq<byte>): seq<byte> { if |name| > DIRSIZ then name[..DIRSIZ] else name }

  predicate NoNul(name: seq<byte>) { forall i: nat | i < |name| :: name[i] != 0 }

  function PackDe(inum: nat, name: seq<byte>): (r: seq<byte>)
    ensures |r| == DESIZE
  {
    [(inum % 0x1_0000) % 0x100, (inum % 0x1_0000) / 0x100] + Short(name) + seq(DIRSIZ - |Short(name)|, _ => 0)
  }

  lemma {:induction false} CNamePadded(name: seq<byte>, n: nat)
    requires NoNul(name)
    ensures CName(name + seq(n, _ => 0)) == name
  {
    var raw := name + seq(n, _ => 0);
    if name != [] {
      assert raw[1..] == name[1..] + seq(n, _ => 0);
      CNamePadded(name[1..], n);
    }
  }

  lemma PackedIs(inum: nat, name: seq<byte>)
    requires NoNul(name) && inum < 0x1_0000
    ensures var e := EntAt(PackDe(inum, name), 0); e.inum == inum && CName(e.name) == Short(name)
  {
    var r := PackDe(inum, name);
    assert r[2..16] == Short(name) + seq(DIRSIZ - |Short(name)|, _ => 0);
    CNamePadded(Short(name), DIRSIZ - |Short(name)|);
  }

  /** namecmp over at most fourteen characters: equality of the C strings. */
  function Namecmp(s: seq<byte>, t: seq<byte>, n: nat): int
    decreases n
  {
    if n == 0 then 0
    else
      var a, b := if s == [] then 0 else s[0], if t == [] then 0 else t[0];
      if a != b then a - b else if a == 0 then 0 else Namecmp(s[1..], t[1..], n - 1)
  }

  lemma {:induction false} NamecmpIs(s: seq<byte>, t: seq<byte>, n: nat)
    requires NoNul(s) && NoNul(t)
    ensures Namecmp(s, t, n) == 0 <==> (if |s| > n then s[..n] else s) == (if |t| > n then t[..n] else t)
    decreases n
  {
    if n > 0 && s != [] && t != [] && s[0] == t[0] {
      NamecmpIs(s[1..], t[1..], n - 1);
      var a, b := if |s| > n then s[..n] else s, if |t| > n then t[..n] else t;
      assert a == [s[0]] + (if |s[1..]| > n - 1 then s[1..][..n - 1] else s[1..]);
      assert b == [t[0]] + (if |t[1..]| > n - 1 then t[1..][..n - 1] else t[1..]);
    } else if n > 0 && (s != [] || t != []) {
      var a, b := if |s| > n then s[..n] else s, if |t| > n then t[..n] else t;
      assert s != [] ==> a[0] == s[0] != 0;
      assert t != [] ==> b[0] == t[0] != 0;
    }
  }

  lemma {:induction false} CNameNoNul(raw: seq<byte>)
    ensures NoNul(CName(raw))
  {
    if raw != [] && raw[0] != 0 { CNameNoNul(raw[1..]); }
  }

  // ---- the map ----

  predicate Live(c: seq<byte>, i: nat, name: seq<byte>) {
    (i + 1) * DESIZE <= |c| && EntAt(c, i).inum != 0 && CName(EntAt(c, i).name) == name
  }

  /** The directory binds the name to the inode number. */
  ghost predicate Binds(c: seq<byte>, name: seq<byte>, inum: nat) {
    exists i: nat {:trigger Live(c, i, name)} :: Live(c, i, name) && EntAt(c, i).inum == inum
  }

  /** No name is bound twice. */
  ghost predicate Unique(c: seq<byte>) {
    forall i: nat, j: nat, name: seq<byte> {:trigger Live(c, i, name), Live(c, j, name)} ::
      Live(c, i, name) && Live(c, j, name) ==> i == j
  }

  /** Entry i set, or added at the end. */
  function PutEnt(c: seq<byte>, i: nat, de: seq<byte>): seq<byte>
    requires i * DESIZE <= |c| && |de| == DESIZE
  {
    c[..i * DESIZE] + de + if (i + 1) * DESIZE < |c| then c[(i + 1) * DESIZE..] else []
  }

  lemma PutEntAt(c: seq<byte>, i: nat, de: seq<byte>, j: nat)
    requires i * DESIZE <= |c| && |c| % DESIZE == 0 && |de| == DESIZE
    ensures |PutEnt(c, i, de)| == if i * DESIZE == |c| then |c| + DESIZE else |c|
    ensures (j + 1) * DESIZE <= |PutEnt(c, i, de)| ==>
              EntAt(PutEnt(c, i, de), j) == if j == i then EntAt(de, 0)
                else if (j + 1) * DESIZE <= |c| then EntAt(c, j) else EntAt(de, 0)
    ensures (j + 1) * DESIZE <= |c| ==> (j + 1) * DESIZE <= |PutEnt(c, i, de)|
    ensures j != i && (j + 1) * DESIZE <= |PutEnt(c, i, de)| ==> (j + 1) * DESIZE <= |c|
  {
    var r := PutEnt(c, i, de);
    if j != i && (j + 1) * DESIZE <= |r| {
      assert r[j * DESIZE + 2..(j + 1) * DESIZE] == c[j * DESIZE + 2..(j + 1) * DESIZE];
    } else if j == i {
      assert r[i * DESIZE + 2..(i + 1) * DESIZE] == de[2..16];
    }
  }

  /** dirlink's entry in a free place (or at the end), for a name not yet there:
      the map gains exactly that binding, and names stay unique. */
  lemma LinkMeans(c: seq<byte>, i: nat, name: seq<byte>, inum: nat)
    requires |c| % DESIZE == 0 && i * DESIZE <= |c| && NoNul(name) && 0 < inum < 0x1_0000
    requires (i + 1) * DESIZE <= |c| ==> EntAt(c, i).inum == 0
    requires Unique(c) && forall j: nat :: !Live(c, j, Short(name))
    ensures var r := PutEnt(c, i, PackDe(inum, name));
            && Unique(r)
            && forall n: seq<byte>, x: nat :: Binds(r, n, x) <==> if n == Short(name) then x == inum else Binds(c, n, x)
  {
    hide EntAt;
    var de := PackDe(inum, name);
    var r := PutEnt(c, i, de);
    PackedIs(inum, name);
    forall j: nat, n: seq<byte> ensures Live(r, j, n) <==> if j == i then n == Short(name) else Live(c, j, n) {
      PutEntAt(c, i, de, j);
    }
    PutEntAt(c, i, de, i);
    forall n: seq<byte>, x: nat ensures Binds(r, n, x) <==> if n == Short(name) then x == inum else Binds(c, n, x) {
      BindsBoth(c, i, de, r, n, x, Short(name), inum);
    }
    forall j: nat, k: nat, n: seq<byte> | Live(r, j, n) && Live(r, k, n) ensures j == k {
      assert j != i && k != i ==> Live(c, j, n) && Live(c, k, n);
    }
  }

  lemma BindsBoth(c: seq<byte>, i: nat, de: seq<byte>, r: seq<byte>, n: seq<byte>, x: nat, name: seq<byte>, inum: nat)
    requires |c| % DESIZE == 0 && i * DESIZE <= |c| && |de| == DESIZE && r == PutEnt(c, i, de)
    requires EntAt(de, 0).inum == inum
             && forall j: nat, n: seq<byte> :: Live(r, j, n) <==> if j == i then n == name else Live(c, j, n)
    requires (i + 1) * DESIZE <= |r| && EntAt(r, i) == EntAt(de, 0) && forall j: nat :: !Live(c, j, name)
    requires (i + 1) * DESIZE <= |c| ==> EntAt(c, i).inum == 0
    ensures Binds(r, n, x) <==> if n == name then x == inum else Binds(c, n, x)
  {
    hide EntAt;
    if Binds(r, n, x) {
      var j: nat :| Live(r, j, n) && EntAt(r, j).inum == x;
      PutEntAt(c, i, de, j);
      if j != i { assert Live(c, j, n); }
    }
    if n == name && x == inum { assert Live(r, i, n); }
    if n != name && Binds(c, n, x) {
      var j: nat :| Live(c, j, n) && EntAt(c, j).inum == x;
      PutEntAt(c, i, de, j);
      assert Live(r, j, n);
    }
  }

  /** sys_unlink's cleared entry: exactly that binding goes. */
  lemma UnlinkMeans(c: seq<byte>, i: nat, name: seq<byte>)
    requires |c| % DESIZE == 0 && Unique(c) && Live(c, i, name)
    ensures var r := PutEnt(c, i, PackDe(0, []));
            && |r| == |c| && Unique(r)
            && forall n: seq<byte>, x: nat :: Binds(r, n, x) <==> n != name && Binds(c, n, x)
  {
    hide EntAt;
    var de := PackDe(0, []);
    var r := PutEnt(c, i, de);
    PackedIs(0, []);
    forall j: nat, n: seq<byte> ensures Live(r, j, n) <==> j != i && Live(c, j, n) { PutEntAt(c, i, de, j); }
    PutEntAt(c, i, de, i);
    forall n: seq<byte>, x: nat ensures Binds(r, n, x) <==> n != name && Binds(c, n, x) {
      if Binds(r, n, x) {
        var j: nat :| Live(r, j, n) && EntAt(r, j).inum == x;
        PutEntAt(c, i, de, j);
        assert Live(c, j, n);
      }
      if n != name && Binds(c, n, x) {
        var j: nat :| Live(c, j, n) && EntAt(c, j).inum == x;
        PutEntAt(c, i, de, j);
        assert Live(r, j, n);
      }
    }
    forall j: nat, k: nat, n: seq<byte> | Live(r, j, n) && Live(r, k, n) ensures j == k {
      assert Live(c, j, n) && Live(c, k, n);
    }
  }

  // ---- the operations ----

  /** A directory held by slot s: its bytes are whole entries. */
  ghost predicate IsDir(fs: F.FileSystem, s: nat)
    reads fs
  {
    && fs.Ready() && F.Loaded(fs.itable, s) && fs.itable[s].inum < |fs.st.inodes|
    && fs.itable[s].di == fs.st.inodes[fs.itable[s].inum]
    && fs.itable[s].di.typ == T_DIR && fs.itable[s].di.size <= MAXFILE * BSIZE && fs.itable[s].di.size % DESIZE == 0
  }

  ghost function Bytes(fs: F.FileSystem, s: nat): (c: seq<byte>)
    requires IsDir(fs, s)
    reads fs
    ensures |c| == fs.itable[s].di.size
  {
    Contents(fs.st, fs.itable[s].inum)
  }

  /** One turn of the loops over a directory. */
  method ReadEnt(fs: F.FileSystem, s: nat, off: nat) returns (de: Dirent)
    requires IsDir(fs, s) && off % DESIZE == 0 && off + DESIZE <= fs.itable[s].di.size
    modifies fs
    ensures fs.st == old(fs.st) && fs.disk == old(fs.disk) && fs.itable == old(fs.itable) && IsDir(fs, s)
    ensures Bytes(fs, s) == old(Bytes(fs, s))
    ensures (off / DESIZE + 1) * DESIZE <= |Bytes(fs, s)| && de == EntAt(Bytes(fs, s), off / DESIZE)
            && |de.name| == DIRSIZ
  {
    hide Own;
    hide Good;
    hide F.TableOk;
    hide FsDisk.Holds;
    hide FsDisk.SuperIs;
    hide Contents;
    var n, raw := fs.Readi(s, off, DESIZE);
    EntOf(Bytes(fs, s), off, raw);
    de := EntAt(raw, 0);
  }

  lemma EntOf(c: seq<byte>, off: nat, raw: seq<byte>)
    requires off % DESIZE == 0 && off + DESIZE <= |c| && raw == c[off..off + DESIZE]
    ensures (off / DESIZE + 1) * DESIZE <= |c| && EntAt(raw, 0) == EntAt(c, off / DESIZE)
  {
    assert off / DESIZE * DESIZE == off;
    assert raw[2..16] == c[off + 2..off + 16];
  }

  /** dirlookup: the inode number bound to the name and where, or 0. */
  method Dirlookup(fs: F.FileSystem, s: nat, name: seq<byte>) returns (inum: nat, off: nat)
    requires IsDir(fs, s) && NoNul(name)
    modifies fs
    ensures fs.st == old(fs.st) && fs.disk == old(fs.disk) && fs.itable == old(fs.itable) && IsDir(fs, s)
    ensures inum != 0 ==>
              off % DESIZE == 0 && Live(Bytes(fs, s), off / DESIZE, Short(name))
              && EntAt(Bytes(fs, s), off / DESIZE).inum == inum
    ensures inum == 0 <==> forall i: nat :: !Live(Bytes(fs, s), i, Short(name))
    ensures Unique(Bytes(fs, s)) ==> forall x: nat :: Binds(Bytes(fs, s), Short(name), x) <==> inum != 0 && x == inum
  {
    hide Own;
    hide Good;
    hide F.TableOk;
    hide FsDisk.Holds;
    hide FsDisk.SuperIs;
    hide EntAt;
    hide IsDir;
    hide Bytes;
    hide Live;
    hide Unique;
    hide Binds;
    ghost var c := Bytes(fs, s);
    SizeOf(fs, s);
    off := 0;
    while off + DESIZE <= fs.itable[s].di.size
      invariant fs.st == old(fs.st) && fs.disk == old(fs.disk) && fs.itable == old(fs.itable) && IsDir(fs, s)
                && Bytes(fs, s) == c
      invariant s < |fs.itable| && |c| == fs.itable[s].di.size && off % DESIZE == 0
      invariant NotBefore(c, off / DESIZE, Short(name))
      decreases |c| - off
    {
      var de := ReadEnt(fs, s, off);
      CNameNoNul(de.name);
      NamecmpIs(name, CName(de.name), DIRSIZ);
      if de.inum != 0 && Namecmp(name, CName(de.name), DIRSIZ) == 0 {
        inum := de.inum;
        BoundOnce(c, off / DESIZE, Short(name));
        return;
      }
      NotHere(c, off, Short(name));
      off := off + DESIZE;
    }
    inum := 0;
    NotAnywhere(c, off, Short(name));
  }

  ghost predicate NotBefore(c: seq<byte>, n: nat, name: seq<byte>) { forall i: nat | i < n :: !Live(c, i, name) }

  lemma NotHere(c: seq<byte>, off: nat, name: seq<byte>)
    requires off % DESIZE == 0 && off + DESIZE <= |c| && NotBefore(c, off / DESIZE, name)
    requires (off / DESIZE + 1) * DESIZE <= |c| ==>
               EntAt(c, off / DESIZE).inum == 0 || CName(EntAt(c, off / DESIZE).name) != name
    ensures NotBefore(c, (off + DESIZE) / DESIZE, name)
  {
    assert (off + DESIZE) / DESIZE == off / DESIZE + 1;
  }

  lemma NotAnywhere(c: seq<byte>, off: nat, name: seq<byte>)
    requires NotBefore(c, off / DESIZE, name) && off % DESIZE == 0 && off + DESIZE > |c|
    ensures forall i: nat :: !Live(c, i, name)
    ensures forall x: nat :: !Binds(c, name, x)
  {
    forall i: nat ensures !Live(c, i, name) { assert (i + 1) * DESIZE <= |c| ==> i < off / DESIZE; }
  }

  lemma SizeOf(fs: F.FileSystem, s: nat)
    requires IsDir(fs, s)
    ensures s < |fs.itable| && |Bytes(fs, s)| == fs.itable[s].di.size && |Bytes(fs, s)| % DESIZE == 0
  {
  }

  lemma BoundOnce(c: seq<byte>, i: nat, name: seq<byte>)
    requires (i + 1) * DESIZE <= |c| && EntAt(c, i).inum != 0 && CName(EntAt(c, i).name) == name
    ensures Live(c, i, name)
    ensures Unique(c) ==> forall x: nat :: Binds(c, name, x) <==> x == EntAt(c, i).inum
  {
    hide EntAt;
    if Unique(c) {
      forall x: nat ensures Binds(c, name, x) <==> x == EntAt(c, i).inum {
        assert Live(c, i, name);
        if Binds(c, name, x) {
          var j: nat :| Live(c, j, name) && EntAt(c, j).inum == x;
          assert j == i;
        }
      }
    }
  }

  /** Every other inode and file is as it was. */
  ghost predicate SameOthers(st: St, t: St, i: nat) {
    && |t.inodes| == |st.inodes|
    && forall j: nat {:trigger t.inodes[j]} | j < |st.inodes| && j != i && st.inodes[j].size <= MAXFILE * BSIZE ::
         t.inodes[j] == st.inodes[j] && Contents(t, j) == Contents(st, j)
  }

  /** Entry k of directory i became de, and nothing else changed. */
  ghost predicate PutIn(st: St, t: St, i: nat, k: nat, de: seq<byte>) {
    && i < |st.inodes| == |t.inodes| && SameOthers(st, t, i) && |de| == DESIZE
    && t.inodes[i].typ == st.inodes[i].typ && t.inodes[i].nlink == st.inodes[i].nlink
    && st.inodes[i].size <= MAXFILE * BSIZE && t.inodes[i].size <= MAXFILE * BSIZE
    && k * DESIZE <= |Contents(st, i)| && Contents(t, i) == PutEnt(Contents(st, i), k, de)
  }

  /** A directory entry written at a multiple of its size: all of it or nothing. */
  method WriteEnt(fs: F.FileSystem, s: nat, off: nat, de: seq<byte>) returns (r: int)
    requires IsDir(fs, s) && |de| == DESIZE && off % DESIZE == 0 && off <= fs.itable[s].di.size
    modifies fs
    ensures IsDir(fs, s) && fs.itable[s].inum == old(fs.itable)[s].inum < |old(fs.st).inodes| == |fs.st.inodes|
    ensures r == 0 || r == -1
    ensures off / DESIZE * DESIZE == off <= old(|Bytes(fs, s)|)
    ensures Bytes(fs, s) == if r == 0 then PutEnt(old(Bytes(fs, s)), off / DESIZE, de) else old(Bytes(fs, s))
    ensures SameOthers(old(fs.st), fs.st, fs.itable[s].inum)
    ensures r == 0 ==> PutIn(old(fs.st), fs.st, fs.itable[s].inum, off / DESIZE, de)
    ensures r == -1 ==> off + DESIZE > MAXFILE * BSIZE || forall b: nat | b < |fs.st.bits| :: fs.st.bits[b]
    ensures r == -1 ==> off == old(|Bytes(fs, s)|)
  {
    hide Own;
    hide Good;
    hide F.TableOk;
    hide FsDisk.Holds;
    hide FsDisk.SuperIs;
    hide Contents;
    ghost var i, st0 := fs.itable[s].inum, fs.st;
    OneBlock(off);
    var w := fs.Writei(s, off, de);
    F.LoadedIs(fs.itable, fs.st, s);
    if w == -1 {
      SameRefl(st0, i);
      r := -1;
    } else {
      EntWritten(st0, fs.st, i, off, de, w);
      r := if w == DESIZE then 0 else -1;
    }
  }

  lemma SameRefl(st: St, i: nat)
    ensures SameOthers(st, st, i)
  {
  }

  lemma OneBlock(off: nat)
    requires off % DESIZE == 0
    ensures off % BSIZE + DESIZE <= BSIZE && off / DESIZE * DESIZE == off
  {
  }

  lemma EntWritten(st: St, t: St, i: nat, off: nat, de: seq<byte>, w: nat)
    requires |de| == DESIZE && (w == 0 || w == DESIZE) && off % DESIZE == 0 && F.WroteFile(st, t, i, off, de[..w])
    requires st.inodes[i].size % DESIZE == 0
    ensures SameOthers(st, t, i) && off / DESIZE * DESIZE == off
    ensures st.inodes[i].size <= MAXFILE * BSIZE && t.inodes[i].size <= MAXFILE * BSIZE
            && t.inodes[i].size % DESIZE == 0
    ensures off <= |Contents(st, i)|
    ensures Contents(t, i) == if w == 0 then Contents(st, i) else PutEnt(Contents(st, i), off / DESIZE, de)
    ensures t.inodes[i].typ == st.inodes[i].typ && t.inodes[i].nlink == st.inodes[i].nlink
  {
    hide Contents;
    ContentsSize(st, i); ContentsSize(t, i);
    var c := Contents(st, i);
    if w == 0 {
      assert c[..off] + [] + (if off < |c| then c[off..] else []) == c;
    } else {
      assert de[..w] == de;
    }
    forall j: nat | j < |st.inodes| && j != i && st.inodes[j].size <= MAXFILE * BSIZE
      ensures t.inodes[j] == st.inodes[j] && Contents(t, j) == Contents(st, j)
    {
      assert t.inodes[j] == st.inodes[j];
    }
  }

  /** Entry k is free, or past the end. */
  predicate FreeAt(c: seq<byte>, k: nat) { (k + 1) * DESIZE <= |c| ==> EntAt(c, k).inum == 0 }

  /** dirlink: on success the directory gains exactly the one binding; it fails,
      changing no file, only if the name is taken, or there is no free entry and
      the directory cannot grow. */
  method Dirlink(fs: F.FileSystem, s: nat, name: seq<byte>, inum: nat) returns (r: int, ghost k: nat)
    requires IsDir(fs, s) && NoNul(name) && 0 < inum < 0x1_0000 && Unique(Bytes(fs, s))
    modifies fs
    ensures IsDir(fs, s) && fs.itable[s].inum == old(fs.itable)[s].inum < |old(fs.st).inodes|
    ensures r == 0 || r == -1
    ensures r == 0 ==>
              forall n: seq<byte>, x: nat ::
                Binds(Bytes(fs, s), n, x) <==> if n == Short(name) then x == inum else old(Binds(Bytes(fs, s), n, x))
    ensures Unique(Bytes(fs, s))
    ensures r == -1 ==> Bytes(fs, s) == old(Bytes(fs, s))
    ensures SameOthers(old(fs.st), fs.st, fs.itable[s].inum)
    ensures r == 0 ==>
              PutIn(old(fs.st), fs.st, fs.itable[s].inum, k, PackDe(inum, name)) && FreeAt(old(Bytes(fs, s)), k)
    ensures r == 0 ==> forall x: nat :: !old(Binds(Bytes(fs, s), Short(name), x))
    ensures r == -1 ==> (exists x: nat :: old(Binds(Bytes(fs, s), Short(name), x)))
                        || old(|Bytes(fs, s)|) + DESIZE > MAXFILE * BSIZE
                           || forall b: nat | b < |fs.st.bits| :: fs.st.bits[b]
  {
    hide Own;
    hide Good;
    hide F.TableOk;
    hide FsDisk.Holds;
    hide FsDisk.SuperIs;
    hide EntAt;
    hide Contents;
    ghost var c, st0, i0 := Bytes(fs, s), fs.st, fs.itable[s].inum;
    SizeOf(fs, s);
    var found, at := Dirlookup(fs, s, name);
    k := 0;
    if found != 0 {
      assert Binds(c, Short(name), found);
      r := -1;
      return;
    }
    var off := 0;
    while off + DESIZE <= fs.itable[s].di.size
      invariant fs.st == st0 && fs.disk == old(fs.disk) && fs.itable == old(fs.itable) && IsDir(fs, s)
                && Bytes(fs, s) == c
      invariant off % DESIZE == 0 && off <= |c|
      decreases |c| - off
    {
      var de := ReadEnt(fs, s, off);
      if de.inum == 0 { break; }
      off := off + DESIZE;
    }
    k := off / DESIZE;
    assert FreeAt(c, k);
    r := WriteEnt(fs, s, off, PackDe(inum, name));
    if r == 0 {
      assert off / DESIZE * DESIZE == off;
      LinkMeans(c, off / DESIZE, name, inum);
    }
  }

  /** The store of a cleared entry over a live one, by sys_unlink: it does not
      fail, even on a full disk, and exactly that binding goes. */
  method ClearEnt(fs: F.FileSystem, s: nat, off: nat, ghost name: seq<byte>)
    requires IsDir(fs, s) && Unique(Bytes(fs, s)) && off % DESIZE == 0 && Live(Bytes(fs, s), off / DESIZE, name)
    modifies fs
    ensures IsDir(fs, s) && fs.itable[s].inum == old(fs.itable)[s].inum < |old(fs.st).inodes|
    ensures Unique(Bytes(fs, s)) && |Bytes(fs, s)| == old(|Bytes(fs, s)|)
    ensures forall n: seq<byte>, x: nat :: Binds(Bytes(fs, s), n, x) <==> n != name && old(Binds(Bytes(fs, s), n, x))
    ensures PutIn(old(fs.st), fs.st, fs.itable[s].inum, off / DESIZE, PackDe(0, []))
  {
    hide Own;
    hide Good;
    hide F.TableOk;
    hide FsDisk.Holds;
    hide FsDisk.SuperIs;
    hide EntAt;
    hide Contents;
    hide Unique;
    hide Binds;
    SizeOf(fs, s);
    OneBlock(off);
    ghost var c := Bytes(fs, s);
    var r := WriteEnt(fs, s, off, PackDe(0, []));
    UnlinkMeans(c, off / DESIZE, name);
  }

  /** isdirempty: no entry after the first two is live. */
  method Isdirempty(fs: F.FileSystem, s: nat) returns (r: bool)
    requires IsDir(fs, s)
    modifies fs
    ensures fs.st == old(fs.st) && fs.disk == old(fs.disk) && fs.itable == old(fs.itable) && IsDir(fs, s)
    ensures r <==> forall i: nat, n: seq<byte> | i >= 2 :: !Live(Bytes(fs, s), i, n)
  {
    hide Own;
    hide Good;
    hide F.TableOk;
    hide FsDisk.Holds;
    hide FsDisk.SuperIs;
    hide EntAt;
    hide IsDir;
    hide Bytes;
    ghost var c := Bytes(fs, s);
    SizeOf(fs, s);
    var off := 2 * DESIZE;
    while off + DESIZE <= fs.itable[s].di.size
      invariant fs.st == old(fs.st) && fs.disk == old(fs.disk) && fs.itable == old(fs.itable) && IsDir(fs, s)
                && Bytes(fs, s) == c
      invariant s < |fs.itable| && |c| == fs.itable[s].di.size && off % DESIZE == 0 && off >= 2 * DESIZE
      invariant forall i: nat, n: seq<byte> | 2 <= i < off / DESIZE :: !Live(c, i, n)
      decreases |c| - off
    {
      var de := ReadEnt(fs, s, off);
      if de.inum != 0 {
        assert Live(c, off / DESIZE, CName(de.name));
        return false;
      }
      off := off + DESIZE;
    }
    forall i: nat, n: seq<byte> | i >= 2 ensures !Live(c, i, n) { assert (i + 1) * DESIZE <= |c| ==> i < off / DESIZE; }
    r := true;
  }

  /** With the two dot entries first, that is: the directory binds nothing else. */
  lemma EmptyMeans(c: seq<byte>)
    requires Unique(c) && Live(c, 0, [0x2E]) && Live(c, 1, [0x2E, 0x2E])
    ensures (forall i: nat, n: seq<byte> | i >= 2 :: !Live(c, i, n))
       <==> (forall n: seq<byte>, x: nat | Binds(c, n, x) :: n == [0x2E] || n == [0x2E, 0x2E])
  {
    hide EntAt;
    if forall n: seq<byte>, x: nat | Binds(c, n, x) :: n == [0x2E] || n == [0x2E, 0x2E] {
      forall i: nat, n: seq<byte> | i >= 2 ensures !Live(c, i, n) { LiveBinds(c, i, n); }
    }
  }

  lemma LiveBinds(c: seq<byte>, i: nat, n: seq<byte>)
    ensures Live(c, i, n) ==> exists x: nat :: Binds(c, n, x)
  {
    if Live(c, i, n) { assert Binds(c, n, EntAt(c, i).inum); }
  }
}
