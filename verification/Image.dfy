/** What the kernel makes of an image that mkfsimg.py built: a tree of directories
    in which every packed file is found by its path and read back whole. */
module Image {
  import opened Common
  import opened Layout
  import opened FsState
  import opened FsDisk
  import F = FileSystem
  import D = Directory
  import M = Mkfs
  import N = Namex
  import P = Paths
  import T = PathTree

  /** Names that a path can spell, no two the same. */
  ghost predicate Names(items: seq<M.Item>) {
    && (forall i: nat {:trigger items[i]} | i < |items| :: Spelled(items[i].name))
    && forall i: nat, j: nat {:trigger items[i], items[j]} | i < j < |items| :: items[i].name != items[j].name
  }

  predicate Spelled(name: seq<byte>) { M.ProperName(name) && D.NoNul(name) && name != [0x2E] && name != [0x2E, 0x2E] }

  /** Entry i of the root: "." and "..", then the items. */
  lemma EntryIs(items: seq<M.Item>, i: nat)
    requires i < |items| + 2 && |items| < 0xFFFE && Names(items)
    ensures |M.Bindings(items, |items|)| == |items| + 2
    ensures var l := M.Bindings(items, |items|); var e := D.EntAt(M.DirBytes(l), i);
            (i + 1) * D.DESIZE <= |M.DirBytes(l)| && e.inum == l[i].0 == (if i < 2 then 1 else i)
            && D.CName(e.name) == l[i].1
            && e.name == D.PackDe(l[i].0, l[i].1)[2..16]
    ensures M.Bindings(items, |items|)[i].1 == if i == 0 then [0x2E]
              else if i == 1 then [0x2E, 0x2E] else items[i - 2].name
  {
    hide D.EntAt;
    hide D.PackDe;
    var l := M.Bindings(items, |items|);
    M.BindingsLen(items, |items|);
    if |items| > 0 { M.BindingsAt(items, |items|, if i >= 2 then i - 2 else 0); } else { NoItems(items); }
    assert i >= 2 ==> Spelled(items[i - 2].name);
    M.DirBytesAt(l, i);
    D.PackedIs(l[i].0, l[i].1);
    assert |l[i].1| <= DIRSIZ ==> D.Short(l[i].1) == l[i].1;
    EntName(l[i].0, l[i].1);
  }

  lemma NoItems(items: seq<M.Item>)
    requires items == []
    ensures M.Bindings(items, 0)[0] == (1, [0x2E]) && M.Bindings(items, 0)[1] == (1, [0x2E, 0x2E])
  {
  }

  lemma EntName(inum: nat, name: seq<byte>)
    ensures D.EntAt(D.PackDe(inum, name), 0).name == D.PackDe(inum, name)[2..16]
  {
  }

  /** What entries are live in the root. */
  lemma LiveIs(st: St, items: seq<M.Item>, i: nat, n: seq<byte>)
    requires M.Packed(st, items, |items|) && |items| < 0xFFFE && Names(items)
    ensures |M.Bindings(items, |items|)| == |items| + 2
    ensures D.Live(Contents(st, 1), i, n) <==> i < |items| + 2 && M.Bindings(items, |items|)[i].1 == n
    ensures D.Live(Contents(st, 1), i, n) ==> D.EntAt(Contents(st, 1), i).inum == if i < 2 then 1 else i
  {
    hide Contents;
    hide D.EntAt;
    hide M.DirBytes;
    M.BindingsLen(items, |items|);
    DirSize(M.Bindings(items, |items|));
    if i < |items| + 2 { EntryIs(items, i); }
  }

  lemma DirSize(l: seq<(nat, seq<byte>)>)
    ensures |M.DirBytes(l)| == D.DESIZE * |l|
  {
  }

  lemma NamesApart(items: seq<M.Item>, i: nat, j: nat)
    requires i < |items| + 2 && j < |items| + 2 && Names(items) && |items| < 0xFFFE
    ensures |M.Bindings(items, |items|)| == |items| + 2
    ensures M.Bindings(items, |items|)[i].1 == M.Bindings(items, |items|)[j].1 ==> i == j
  {
    hide D.EntAt;
    hide D.PackDe;
    hide M.DirBytes;
    EntryIs(items, i);
    EntryIs(items, j);
    assert i >= 2 ==> Spelled(items[i - 2].name);
    assert j >= 2 ==> Spelled(items[j - 2].name);
    if 2 <= i < j { assert items[i - 2].name != items[j - 2].name; }
    if 2 <= j < i { assert items[j - 2].name != items[i - 2].name; }
  }

  lemma NotMany(st: St, items: seq<M.Item>)
    requires M.Packed(st, items, |items|)
    ensures |items| < 0xFFFE && 1 < |st.inodes| && st.inodes[1].size == M.RootSize(|items|)
            && st.inodes[1].size <= MAXFILE * BSIZE
  {
    M.RootSizeIs(st, items, |items|);
  }

  lemma ItemAt(st: St, items: seq<M.Item>, k: nat)
    requires M.Packed(st, items, |items|) && k < |items|
    ensures k + 2 < |st.inodes| && st.inodes[k + 2].size <= MAXFILE * BSIZE && Contents(st, k + 2) == items[k].data
  {
    hide Contents;
    hide M.DirBytes;
    hide M.Bindings;
    assert items[k] == items[k];
  }

  lemma NameBound(st: St, items: seq<M.Item>, k: nat)
    requires M.Packed(st, items, |items|) && k < |items| && |items| < 0xFFFE && Names(items)
             && D.Unique(Contents(st, 1))
    ensures forall x: nat :: D.Binds(Contents(st, 1), items[k].name, x) <==> x == k + 2
  {
    hide M.Packed;
    hide Contents;
    hide D.EntAt;
    hide D.Unique;
    hide D.CName;
    hide D.Binds;
    hide D.PackDe;
    hide M.DirBytes;
    hide M.RootSize;
    hide Names;
    hide M.Bindings;
    NotMany(st, items);
    EntryIs(items, k + 2);
    LiveIs(st, items, k + 2, items[k].name);
    D.BoundOnce(Contents(st, 1), k + 2, items[k].name);
  }

  /** The root binds each name to its item's inode, every name once, and that
      inode holds exactly the item's bytes. */
  lemma Finds(st: St, items: seq<M.Item>, k: nat)
    requires M.Packed(st, items, |items|) && k < |items| && Names(items)
    ensures D.Unique(Contents(st, 1))
    ensures forall x: nat :: D.Binds(Contents(st, 1), items[k].name, x) <==> x == k + 2
    ensures k + 2 < |st.inodes| && st.inodes[k + 2].size <= MAXFILE * BSIZE && Contents(st, k + 2) == items[k].data
  {
    hide *;
    NotMany(st, items);
    RootUnique(st, items);
    ItemAt(st, items, k);
    NameBound(st, items, k);
  }

  lemma RootUnique(st: St, items: seq<M.Item>)
    requires M.Packed(st, items, |items|) && Names(items)
    ensures D.Unique(Contents(st, 1))
  {
    hide Contents;
    hide D.EntAt;
    NotMany(st, items);
    var c := Contents(st, 1);
    forall i: nat, j: nat, n: seq<byte> | D.Live(c, i, n) && D.Live(c, j, n) ensures i == j {
      LiveIs(st, items, i, n);
      LiveIs(st, items, j, n);
      NamesApart(items, i, j);
    }
  }

  /** The directories of the image are as namex needs them. */
  lemma ImageDirs(st: St, items: seq<M.Item>)
    requires M.Packed(st, items, |items|) && M.Rest(st, |items|) && Names(items)
    ensures N.DirsOk(st)
  {
    hide Contents;
    hide D.EntAt;
    hide M.DirBytes;
    NotMany(st, items);
    RootUnique(st, items);
    forall n: seq<byte>, x: nat | D.Binds(Contents(st, 1), n, x) ensures N.InUse(st, x) {
      var i: nat :| D.Live(Contents(st, 1), i, n) && D.EntAt(Contents(st, 1), i).inum == x;
      LiveIs(st, items, i, n);
      if i >= 2 { assert items[i - 2] == items[i - 2]; }
    }
    forall i: nat | i < |st.inodes| ensures N.DirAt(st, i) { OnlyRoot(st, items, i); }
  }

  lemma OnlyRoot(st: St, items: seq<M.Item>, i: nat)
    requires M.Packed(st, items, |items|) && M.Rest(st, |items|) && i < |st.inodes|
    ensures st.inodes[i].typ == T_DIR <==> i == 1
  {
    if 2 <= i < |items| + 2 { assert items[i - 2] == items[i - 2]; } else { assert st.inodes[i] == st.inodes[i]; }
  }

  // ---- the tree ----

  lemma RootEnt(st: St, items: seq<M.Item>, i: nat)
    requires M.Packed(st, items, |items|) && Names(items) && i < |items| + 2
    ensures var ents := N.EntsOf(Contents(st, 1));
            && |ents| == |items| + 2 && |ents[i].name| == DIRSIZ && P.Padded(ents[i].name)
            && ents[i].inum == (if i < 2 then 1 else i)
            && P.CName(ents[i].name) == (if i == 0 then "." else if i == 1 then ".." else N.Str(items[i - 2].name))
  {
    hide Contents;
    hide D.EntAt;
    hide D.PackDe;
    hide M.DirBytes;
    hide P.CName;
    NotMany(st, items);
    EntryIs(items, i);
    var l := M.Bindings(items, |items|);
    DirSize(l);
    EntOf(Contents(st, 1), i);
    N.CNameStr(D.EntAt(Contents(st, 1), i).name);
    assert i >= 2 ==> Spelled(items[i - 2].name);
    N.PackedPads(l[i].0, l[i].1);
    DotStrs();
  }

  lemma EntOf(c: seq<byte>, i: nat)
    requires (i + 1) * D.DESIZE <= |c|
    ensures i < |N.EntsOf(c)| == |c| / D.DESIZE
            && N.EntsOf(c)[i] == P.Ent(D.EntAt(c, i).inum, N.Str(D.EntAt(c, i).name))
  {
    hide D.EntAt;
    assert i < |c| / D.DESIZE;
  }

  lemma DotStrs()
    ensures N.Str([0x2E]) == "." && N.Str([0x2E, 0x2E]) == ".."
  {
  }

  /** The image is a tree of directories: so every path statement is about it. */
  lemma ImageTree(st: St, items: seq<M.Item>)
    requires M.Packed(st, items, |items|) && M.Rest(st, |items|) && Names(items)
    ensures P.TreeOk(N.TreeOf(st), T.RootShape())
  {
    hide Contents;
    hide P.CName;
    hide M.DirBytes;
    NotMany(st, items);
    var t, w := N.TreeOf(st), T.RootShape();
    assert t[1] == N.NodeAt(st, 1);
    forall d: nat | P.IsDir(t, d) ensures d == 1 {
      OnlyRoot(st, items, d);
      assert t[d] == N.NodeAt(st, d);
    }
    RootDirOk(st, items, t, w);
  }

  lemma RootDirOk(st: St, items: seq<M.Item>, t: P.Tree, w: P.Shape)
    requires M.Packed(st, items, |items|) && Names(items) && w == T.RootShape()
    requires P.IsDir(t, 1) && t[1].ents == N.EntsOf(Contents(st, 1))
             && forall d: nat {:trigger P.IsDir(t, d)} | P.IsDir(t, d) :: d == 1
    ensures P.DirOk(t, w, 1)
  {
    hide Contents;
    hide P.CName;
    hide P.FindIdx;
    hide N.EntsOf;
    var ents := t[1].ents;
    RootEnt(st, items, 0);
    RootEnt(st, items, 1);
    forall j: nat, k: nat ensures P.Distinct(ents, j, k) {
      if j < |ents| && k < |ents| && j != k {
        RootEnt(st, items, j);
        RootEnt(st, items, k);
        StrsApart(items, j, k);
      }
    }
    forall k: nat ensures P.EntryOk(t, w, 1, k) && P.NamedOnce(t, 1, k) {
      if 2 <= k < |ents| {
        RootEnt(st, items, k);
        StrName(items, k - 2);
      }
    }
  }

  lemma StrsApart(items: seq<M.Item>, j: nat, k: nat)
    requires Names(items) && j < |items| + 2 && k < |items| + 2 && j != k
    ensures var a := if j == 0 then "." else if j == 1 then ".." else N.Str(items[j - 2].name);
            var b := if k == 0 then "." else if k == 1 then ".." else N.Str(items[k - 2].name);
            a != b
  {
    DotStrs();
    var a := if j == 0 then [0x2E] else if j == 1 then [0x2E, 0x2E] else items[j - 2].name;
    var b := if k == 0 then [0x2E] else if k == 1 then [0x2E, 0x2E] else items[k - 2].name;
    N.StrSame(a, b);
    assert j >= 2 ==> Spelled(items[j - 2].name);
    assert k >= 2 ==> Spelled(items[k - 2].name);
    if 2 <= j < k { assert items[j - 2].name != items[k - 2].name; }
    if 2 <= k < j { assert items[k - 2].name != items[j - 2].name; }
    if j < 2 && k < 2 { assert |[0x2E]| != |[0x2E, 0x2E]|; }
  }

  lemma StrName(items: seq<M.Item>, k: nat)
    requires Names(items) && k < |items|
    ensures var n := N.Str(items[k].name); n != "" && P.NoSlash(n) && |n| <= DIRSIZ && N.ByteString(n)
  {
    var name := items[k].name;
    assert Spelled(name);
    forall i: nat | i < |name| ensures N.Str(name)[i] != '/' { assert name[i] in name; }
  }

  // ---- reading a file back ----

  /** What "/" and a name resolve to. */
  lemma PathOf(n: string)
    requires n != "" && P.NoSlash(n) && |n| <= DIRSIZ
    ensures P.Split("/" + n) == [n]
  {
    hide P.Split;
    hide P.ElemLen;
    P.SplitSlash(n);
    P.FirstElem(n, 0);
    WholeElem(n);
    assert n[0..] == n && n[0..|n|] == n && n[|n|..] == "";
    assert |n| == DIRSIZ ==> n[..DIRSIZ] == n;
    N.NoneSplit();
  }

  lemma {:induction false} WholeElem(n: string)
    requires P.NoSlash(n)
    ensures P.ElemLen(n) == |n|
  {
    if n != "" { WholeElem(n[1..]); }
  }

  lemma Resolves(st: St, items: seq<M.Item>, k: nat)
    requires M.Packed(st, items, |items|) && M.Rest(st, |items|) && Names(items) && k < |items|
    ensures P.Resolve(N.TreeOf(st), ROOTINO, P.Split("/" + N.Str(items[k].name))) == k + 2
  {
    hide Contents;
    hide M.DirBytes;
    hide P.Split;
    hide D.Binds;
    hide D.Unique;
    StrName(items, k);
    PathOf(N.Str(items[k].name));
    NotMany(st, items);
    Finds(st, items, k);
    OnlyRoot(st, items, 1);
    N.LookupIs(Contents(st, 1), items[k].name);
    assert D.Binds(Contents(st, 1), items[k].name, k + 2);
    assert N.TreeOf(st)[1] == N.NodeAt(st, 1);
    assert [N.Str(items[k].name)][1..] == [];
  }

  /** The kernel reads back what was packed: mount the image, namei of the path,
      and read that inode from the start. */
  method KernelReads(disk: seq<Block>, ghost sb: Super, ghost st: St, ghost items: seq<M.Item>, ghost k: nat,
                     name: string, n: u32)
      returns (r: int, data: seq<byte>)
    requires SuperIs(disk, sb) && Holds(disk, sb, st, {}) && Good(st) && M.Packed(st, items, |items|)
             && M.Rest(st, |items|) && Names(items)
    requires k < |items| && name == N.Str(items[k].name) && n == |items[k].data|
    ensures r == n && data == items[k].data
  {
    hide Own;
    hide Good;
    hide F.TableOk;
    hide ReadSuper;
    hide Contents;
    hide N.OneMore;
    hide P.Resolve;
    hide P.Split;
    hide N.DirsOk;
    hide Holds;
    hide M.Packed;
    hide M.Rest;
    hide Names;
    Resolves(st, items, k);
    ImageDirs(st, items);
    Finds(st, items, k);
    FileIs(st, items, k);
    StrName(items, k);
    var fs := new F.FileSystem.Mount(disk, st);
    ghost var t0 := fs.itable;
    var found, last := N.Walk(fs, "/" + name, false, F.NINODE);
    SomeSlot(t0, fs.itable);
    Held(t0, fs.itable, found);
    var ok := fs.Ilock(found.s);
    r, data := fs.Readi(found.s, 0, n);
  }

  lemma FileIs(st: St, items: seq<M.Item>, k: nat)
    requires M.Packed(st, items, |items|) && k < |items|
    ensures k + 2 < |st.inodes| && st.inodes[k + 2].typ == T_FILE && st.inodes[k + 2].size == |items[k].data|
  {
    hide Contents;
    assert items[k] == items[k];
    ContentsSize(st, k + 2);
  }

  lemma SomeSlot(t: seq<F.Incore>, u: seq<F.Incore>)
    requires |t| == F.NINODE && forall s: nat | s < |t| :: t[s].ref == 0
    ensures (exists s: nat :: N.OneMore(t, u, s)) ==> !N.NoSlot(u)
  {
    if s: nat :| N.OneMore(t, u, s) {
      var r: nat := if s == 0 then 1 else 0;
      assert u[r].ref == t[r].ref + if r == s then 1 else 0;
    }
  }

  lemma Held(t: seq<F.Incore>, u: seq<F.Incore>, found: N.Found)
    ensures found.At? && found.s < |t| && N.OneMore(t, u, found.s) ==> found.s < |u| && u[found.s].ref > 0
  {
    if found.At? && found.s < |t| && N.OneMore(t, u, found.s) { assert u[found.s].ref == t[found.s].ref + 1; }
  }
}
