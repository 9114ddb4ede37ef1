/** The tree of the directories on the disk, as entries are written and counts
    of links change: what the operations of PathTree do, done to the bytes. */
module TreeDisk {
  import opened Common
  import opened Layout
  import opened FsState
  import F = FileSystem
  import D = Directory
  import P = Paths
  import T = PathTree
  import N = Namex

  function EntOf(de: seq<byte>): P.Ent
    requires |de| == D.DESIZE
  {
    P.Ent(D.EntAt(de, 0).inum, N.Str(D.EntAt(de, 0).name))
  }

  lemma PutEnts(c: seq<byte>, k: nat, de: seq<byte>)
    requires |c| % D.DESIZE == 0 && k * D.DESIZE <= |c| && |de| == D.DESIZE
    ensures k <= |N.EntsOf(c)| && N.EntsOf(D.PutEnt(c, k, de)) == T.Put(N.EntsOf(c), k, EntOf(de))
  {
    hide D.EntAt;
    var r := D.PutEnt(c, k, de);
    D.PutEntAt(c, k, de, k);
    forall j: nat | j < |r| / D.DESIZE ensures N.EntsOf(r)[j] == T.Put(N.EntsOf(c), k, EntOf(de))[j] {
      D.PutEntAt(c, k, de, j);
    }
  }

  /** A directory that the tree has. */
  predicate DirHere(st: St, i: nat) {
    N.InUse(st, i) && st.inodes[i].typ == T_DIR && st.inodes[i].size <= MAXFILE * BSIZE
  }

  lemma HereIs(st: St, i: nat)
    requires N.DirsOk(st)
    ensures DirHere(st, i) <==> P.IsDir(N.TreeOf(st), i)
    ensures DirHere(st, i) ==> st.inodes[i].size % D.DESIZE == 0
                               && N.TreeOf(st)[i].ents == N.EntsOf(Contents(st, i)) && D.Unique(Contents(st, i))
  {
    hide Contents;
    hide D.Unique;
    if i < |st.inodes| { assert N.DirAt(st, i); }
    if N.InUse(st, i) { assert N.TreeOf(st)[i] == N.NodeAt(st, i); }
  }

  /** Writing an entry of a directory puts it in the tree. */
  lemma PutTree(st: St, u: St, i: nat, k: nat, de: seq<byte>)
    requires Good(st) && N.DirsOk(st) && DirHere(st, i) && D.PutIn(st, u, i, k, de)
    ensures P.IsDir(N.TreeOf(st), i) && k <= |N.TreeOf(st)[i].ents|
    ensures N.TreeOf(u) == T.PutEntry(N.TreeOf(st), i, k, EntOf(de))
  {
    hide Contents;
    hide Good;
    HereIs(st, i);
    PutEnts(Contents(st, i), k, de);
    var t, t' := N.TreeOf(st), N.TreeOf(u);
    forall j: nat | j < |st.inodes| ensures N.InUse(u, j) <==> N.InUse(st, j) {
      F.WholeOf(st, j);
      if j != i { assert u.inodes[j] == st.inodes[j]; }
    }
    forall j: nat | j in t' ensures t'[j] == T.PutEntry(t, i, k, EntOf(de))[j] {
      F.WholeOf(st, j);
      assert t'[j] == N.NodeAt(u, j);
      if j != i { assert u.inodes[j] == st.inodes[j] && t[j] == N.NodeAt(st, j); }
    }
  }

  /** It keeps directories in order, if it keeps this one's names apart and they are
      of inodes with links. */
  lemma PutDirs(st: St, u: St, i: nat, k: nat, de: seq<byte>)
    requires Good(st) && N.DirsOk(st) && DirHere(st, i) && D.PutIn(st, u, i, k, de) && D.Unique(Contents(u, i))
    requires forall n: seq<byte>, x: nat {:trigger D.Binds(Contents(u, i), n, x)} | D.Binds(Contents(u, i), n, x) ::
               N.InUse(st, x)
    ensures N.DirsOk(u)
  {
    hide Contents;
    hide Good;
    hide D.Unique;
    hide D.Binds;
    HereIs(st, i);
    forall j: nat | j < |st.inodes| ensures N.InUse(u, j) <==> N.InUse(st, j) {
      F.WholeOf(st, j);
      if j != i { assert u.inodes[j] == st.inodes[j]; }
    }
    forall j: nat | j < |u.inodes| ensures N.DirAt(u, j) {
      F.WholeOf(st, j);
      assert N.DirAt(st, j);
      if j != i {
        assert u.inodes[j] == st.inodes[j];
      } else {
        PutWhole(Contents(st, i), k, de);
        ContentsSize(st, i);
        ContentsSize(u, i);
      }
    }
  }

  lemma PutWhole(c: seq<byte>, k: nat, de: seq<byte>)
    requires |c| % D.DESIZE == 0 && k * D.DESIZE <= |c| && |de| == D.DESIZE
    ensures |D.PutEnt(c, k, de)| % D.DESIZE == 0
  {
    hide D.EntAt;
    D.PutEntAt(c, k, de, 0);
  }

  /** dirlink of a name that is not there, to an inode with links. */
  lemma LinkDirs(st: St, u: St, i: nat, k: nat, inum: nat, name: seq<byte>)
    requires Good(st) && N.DirsOk(st) && DirHere(st, i) && N.InUse(st, inum) && 0 < inum < 0x1_0000 && D.NoNul(name)
    requires D.PutIn(st, u, i, k, D.PackDe(inum, name)) && D.FreeAt(Contents(st, i), k)
    requires forall x: nat :: !D.Binds(Contents(st, i), D.Short(name), x)
    ensures N.DirsOk(u) && P.IsDir(N.TreeOf(st), i) && k <= |N.TreeOf(st)[i].ents|
    ensures N.TreeOf(u) == T.PutEntry(N.TreeOf(st), i, k, EntOf(D.PackDe(inum, name)))
  {
    hide Contents;
    hide Good;
    hide D.EntAt;
    hide D.PackDe;
    hide D.Unique;
    var c := Contents(st, i);
    HereIs(st, i);
    assert N.DirAt(st, i);
    NotLive(c, D.Short(name));
    D.LinkMeans(c, k, name, inum);
    PutDirs(st, u, i, k, D.PackDe(inum, name));
    PutTree(st, u, i, k, D.PackDe(inum, name));
  }

  lemma NotLive(c: seq<byte>, name: seq<byte>)
    requires forall x: nat :: !D.Binds(c, name, x)
    ensures forall j: nat :: !D.Live(c, j, name)
  {
    hide D.EntAt;
    assert forall j: nat :: D.Live(c, j, name) ==> D.Binds(c, name, D.EntAt(c, j).inum);
  }

  lemma NoEntIs()
    ensures EntOf(D.PackDe(0, [])) == T.NoEnt()
  {
    var r := D.PackDe(0, []);
    assert D.EntAt(r, 0).name == r[2..16];
    assert r[2..16] == seq(DIRSIZ, _ => 0);
  }

  /** sys_unlink's cleared entry. */
  lemma ClearDirs(st: St, u: St, i: nat, k: nat, name: seq<byte>)
    requires Good(st) && N.DirsOk(st) && DirHere(st, i) && D.Live(Contents(st, i), k, name)
    requires D.PutIn(st, u, i, k, D.PackDe(0, []))
    ensures N.DirsOk(u) && P.IsDir(N.TreeOf(st), i) && k <= |N.TreeOf(st)[i].ents|
    ensures N.TreeOf(u) == T.PutEntry(N.TreeOf(st), i, k, T.NoEnt())
  {
    hide Contents;
    hide Good;
    hide D.EntAt;
    hide D.PackDe;
    hide D.Unique;
    HereIs(st, i);
    assert N.DirAt(st, i);
    D.UnlinkMeans(Contents(st, i), k, name);
    PutDirs(st, u, i, k, D.PackDe(0, []));
    PutTree(st, u, i, k, D.PackDe(0, []));
    NoEntIs();
  }

  /** A name that can be an entry's. */
  predicate NameOk(name: seq<byte>) { name != [] && D.NoNul(name) && 0x2F !in name }

  lemma EntProper(inum: nat, name: seq<byte>)
    requires NameOk(name) && inum < 0x1_0000
    ensures var e :=
              EntOf(D.PackDe(inum, name)); e.inum == inum && T.Proper(e) && P.CName(e.name) == N.Str(D.Short(name))
  {
    hide P.CName;
    D.PackedIs(inum, name);
    N.PackedPads(inum, name);
    var de := D.PackDe(inum, name);
    assert D.EntAt(de, 0).name == de[2..16];
    N.CNameStr(de[2..16]);
  }

  /** link: one more entry for a file keeps the tree on the disk well formed. */
  lemma LinkKeeps(st: St, u: St, w: P.Shape, i: nat, k: nat, inum: nat, name: seq<byte>)
    requires Good(st) && N.DirsOk(st) && P.TreeOk(N.TreeOf(st), w) && DirHere(st, i)
    requires N.InUse(st, inum) && st.inodes[inum].typ != T_DIR && 0 < inum < 0x1_0000 && NameOk(name)
    requires D.PutIn(st, u, i, k, D.PackDe(inum, name)) && D.FreeAt(Contents(st, i), k)
    requires forall x: nat :: !D.Binds(Contents(st, i), D.Short(name), x)
    ensures N.DirsOk(u) && P.TreeOk(N.TreeOf(u), w)
  {
    hide Contents;
    hide Good;
    hide D.EntAt;
    hide D.PackDe;
    hide D.PutIn;
    hide N.TreeOf;
    hide P.TreeOk;
    LinkDirs(st, u, i, k, inum, name);
    HereIs(st, inum);
    EntProper(inum, name);
    EntCan(st, i, k, inum, name);
    T.LinkTree(N.TreeOf(st), w, i, k, EntOf(D.PackDe(inum, name)));
  }

  lemma EntCan(st: St, i: nat, k: nat, inum: nat, name: seq<byte>)
    requires N.DirsOk(st) && DirHere(st, i) && 0 < inum < 0x1_0000 && NameOk(name)
    requires D.FreeAt(Contents(st, i), k) && P.IsDir(N.TreeOf(st), i) && k <= |N.TreeOf(st)[i].ents|
    requires forall x: nat :: !D.Binds(Contents(st, i), D.Short(name), x)
    ensures T.CanPut(N.TreeOf(st), i, k, EntOf(D.PackDe(inum, name)))
  {
    hide Contents;
    hide D.EntAt;
    hide D.PackDe;
    hide D.Unique;
    hide D.Binds;
    hide P.CName;
    HereIs(st, i);
    EntProper(inum, name);
    var c := Contents(st, i);
    N.LookupIs(c, D.Short(name));
    assert !D.Binds(c, D.Short(name), P.Lookup(N.EntsOf(c), N.Str(D.Short(name))));
    if k < |N.EntsOf(c)| { N.EntsAt(c, k, []); }
  }

  // ---- making a directory ----

  /** ialloc and the stores of create: inode x is an empty directory with a link. */
  ghost predicate NewDir(st: St, u: St, x: nat) {
    && x < |st.inodes| == |u.inodes| && !N.InUse(st, x)
    && u.inodes[x].typ == T_DIR && u.inodes[x].nlink != 0 && u.inodes[x].size == 0
    && forall j: nat {:trigger u.inodes[j]} | j < |st.inodes| && j != x ::
         u.inodes[j] == st.inodes[j] && (st.inodes[j].size <= MAXFILE * BSIZE ==> Contents(u, j) == Contents(st, j))
  }

  lemma NewDirs(st: St, u: St, x: nat)
    requires N.DirsOk(st) && NewDir(st, u, x)
    ensures N.DirsOk(u) && DirHere(u, x) && N.TreeOf(u) == N.TreeOf(st)[x := P.Dir([])]
  {
    hide Contents;
    hide D.Unique;
    hide D.EntAt;
    ContentsSize(u, x);
    NoEntries(Contents(u, x));
    forall j: nat | j < |st.inodes| && j != x ensures N.InUse(u, j) == N.InUse(st, j) && N.DirAt(u, j) {
      assert N.DirAt(st, j) && u.inodes[j] == st.inodes[j];
      forall n: seq<byte>, y: nat | N.InUse(u, j) && u.inodes[j].typ == T_DIR && D.Binds(Contents(u, j), n, y)
        ensures N.InUse(u, y)
      {
        assert D.Binds(Contents(st, j), n, y) && N.InUse(st, y) && u.inodes[y] == u.inodes[y];
      }
    }
    assert N.DirAt(u, x);
    var t, t' := N.TreeOf(st), N.TreeOf(u);
    forall j: nat | j in t' ensures t'[j] == t[x := P.Dir([])][j] {
      assert t'[j] == N.NodeAt(u, j);
      if j != x { assert u.inodes[j] == st.inodes[j] && t[j] == N.NodeAt(st, j) && N.DirAt(st, j); }
    }
  }

  lemma NoEntries(c: seq<byte>)
    requires c == []
    ensures D.Unique(c) && N.EntsOf(c) == [] && forall n: seq<byte>, x: nat :: !D.Binds(c, n, x)
  {
  }

  /** mkdir: the new directory's two dot entries, then its entry in i. The tree is
      PathTree's, and stays well formed. */
  lemma MakeKeeps(st: St, a: St, b: St, c: St, u: St, w: P.Shape, i: nat, k: nat, x: nat, name: seq<byte>)
    requires Good(st) && Good(a) && Good(b) && Good(c) && N.DirsOk(st) && P.TreeOk(N.TreeOf(st), w) && DirHere(st, i)
    requires 0 < x < 0x1_0000 && 0 < i < 0x1_0000 && NameOk(name) && NewDir(st, a, x)
    requires D.PutIn(a, b, x, 0, D.PackDe(x, [0x2E])) && D.PutIn(b, c, x, 1, D.PackDe(i, [0x2E, 0x2E]))
    requires D.PutIn(c, u, i, k, D.PackDe(x, name)) && D.FreeAt(Contents(st, i), k)
    requires forall y: nat :: !D.Binds(Contents(st, i), D.Short(name), y)
    ensures N.DirsOk(u) && i in w.depth && P.TreeOk(N.TreeOf(u), T.MadeShape(w, i, x))
  {
    hide Good;
    hide Contents;
    hide D.PackDe;
    hide D.EntAt;
    hide D.PutIn;
    hide N.TreeOf;
    hide N.DirsOk;
    hide P.TreeOk;
    var t := N.TreeOf(st);
    HereIs(st, i);
    HereIs(st, x);
    NewDirs(st, a, x);
    SameDir(st, a, b, c, x, i);
    DotsPut(a, b, c, x, i);
    LinkDirs(c, u, i, k, x, name);
    EntCan(st, i, k, x, name);
    EntProper(x, name);
    NobodyNames(st, x);
    T.MakeTree(t, w, i, k, EntOf(D.PackDe(x, name)));
    MadeIs(t, i, k, x, EntOf(D.PackDe(x, name)));
    assert N.TreeOf(c) == t[x := P.Dir(T.DotEnts(x, i))];
  }

  /** What happens in directory x changes nothing of directory i. */
  lemma SameDir(st: St, a: St, b: St, c: St, x: nat, i: nat)
    requires Good(st) && Good(a) && Good(b) && N.DirsOk(st) && DirHere(st, i) && NewDir(st, a, x)
    requires D.PutIn(a, b, x, 0, D.PackDe(x, [0x2E])) && D.PutIn(b, c, x, 1, D.PackDe(i, [0x2E, 0x2E]))
    ensures i != x && DirHere(c, i) && st.inodes[i].size <= MAXFILE * BSIZE && c.inodes[i] == st.inodes[i]
    ensures Contents(c, i) == Contents(st, i)
    ensures DirHere(a, i) && DirHere(b, i) && DirHere(a, x) && DirHere(b, x) && DirHere(c, x)
  {
    hide Good;
    hide Contents;
    hide D.PackDe;
    F.WholeOf(st, i);
    F.WholeOf(a, i);
    F.WholeOf(b, i);
    assert a.inodes[i] == st.inodes[i] && b.inodes[i] == a.inodes[i] && c.inodes[i] == b.inodes[i];
  }

  lemma DotsPut(a: St, b: St, c: St, x: nat, i: nat)
    requires Good(a) && Good(b) && N.DirsOk(a) && DirHere(a, x) && DirHere(b, x) && DirHere(a, i) && DirHere(b, i)
             && a.inodes[x].size == 0
    requires 0 < x < 0x1_0000 && 0 < i < 0x1_0000
    requires D.PutIn(a, b, x, 0, D.PackDe(x, [0x2E])) && D.PutIn(b, c, x, 1, D.PackDe(i, [0x2E, 0x2E]))
    requires P.IsDir(N.TreeOf(a), x) && N.TreeOf(a)[x].ents == []
    ensures N.DirsOk(c) && N.TreeOf(c) == N.TreeOf(a)[x := P.Dir(T.DotEnts(x, i))]
  {
    hide Good;
    hide Contents;
    hide D.PackDe;
    hide D.EntAt;
    ContentsSize(a, x);
    NoEntries(Contents(a, x));
    LinkDirs(a, b, x, 0, x, [0x2E]);
    OneEntry(Contents(a, x), Contents(b, x), x);
    LinkDirs(b, c, x, 1, i, [0x2E, 0x2E]);
    DotEntsAre(x, i);
    assert N.TreeOf(b)[x].ents == [EntOf(D.PackDe(x, [0x2E]))];
    assert N.TreeOf(c)[x].ents == T.DotEnts(x, i);
  }

  lemma OneEntry(c: seq<byte>, r: seq<byte>, x: nat)
    requires c == [] && 0 < x < 0x1_0000 && r == D.PutEnt(c, 0, D.PackDe(x, [0x2E]))
    ensures |r| == D.DESIZE && D.FreeAt(r, 1) && forall y: nat :: !D.Binds(r, [0x2E, 0x2E], y)
  {
    hide D.EntAt;
    hide D.PackDe;
    NoEntries(c);
    D.LinkMeans(c, 0, [0x2E], x);
  }

  lemma DotEntsAre(x: nat, i: nat)
    requires x < 0x1_0000 && i < 0x1_0000
    ensures [EntOf(D.PackDe(x, [0x2E])), EntOf(D.PackDe(i, [0x2E, 0x2E]))] == T.DotEnts(x, i)
  {
    DotEntIs(x, [0x2E], ".");
    DotEntIs(i, [0x2E, 0x2E], "..");
  }

  lemma DotEntIs(x: nat, name: seq<byte>, n: string)
    requires x < 0x1_0000 && |name| <= DIRSIZ && D.NoNul(name) && N.Str(name) == n
    ensures EntOf(D.PackDe(x, name)) == P.Ent(x, T.Pad(n))
  {
    D.PackedIs(x, name);
    var r := D.PackDe(x, name);
    assert r[2..16] == name + seq(DIRSIZ - |name|, _ => 0);
    assert D.EntAt(r, 0).name == r[2..16];
    assert N.Str(r[2..16]) == T.Pad(n);
  }

  /** Nothing on the disk names an inode that is not in use. */
  lemma NobodyNames(st: St, x: nat)
    requires N.DirsOk(st) && !N.InUse(st, x)
    ensures T.Unnamed(N.TreeOf(st), x)
  {
    hide Contents;
    hide D.EntAt;
    hide D.Unique;
    var t := N.TreeOf(st);
    forall d: nat, j: nat | P.IsDir(t, d) && P.LiveAt(t[d].ents, j) ensures t[d].ents[j].inum != x {
      HereIs(st, d);
      assert N.DirAt(st, d);
      var c := Contents(st, d);
      N.EntsAt(c, j, []);
      var y := D.EntAt(c, j).inum;
      assert D.Live(c, j, D.CName(D.EntAt(c, j).name));
      assert D.Binds(c, D.CName(D.EntAt(c, j).name), y);
      assert N.InUse(st, y);
    }
  }

  lemma MadeIs(t: P.Tree, i: nat, k: nat, x: nat, e: P.Ent)
    requires P.IsDir(t, i) && i != x && k <= |t[i].ents| && e.inum == x
    ensures P.IsDir(t[x := P.Dir(T.DotEnts(x, i))], i)
    ensures T.PutEntry(t[x := P.Dir(T.DotEnts(x, i))], i, k, e) == T.MadeTree(t, i, k, e)
  {
  }

  /** The count of links of a directory changes, as with a subdirectory made or
      removed, and it keeps some. */
  lemma Recounted(u: St, v: St, i: nat)
    requires N.DirsOk(u) && i < |u.inodes| == |v.inodes| && N.InUse(u, i) && v.inodes[i].nlink != 0
    requires v.inodes[i].typ == u.inodes[i].typ && v.inodes[i].size == u.inodes[i].size
    requires forall j: nat {:trigger v.inodes[j]} | j < |u.inodes| ::
               (j != i ==> v.inodes[j] == u.inodes[j])
               && (u.inodes[j].size <= MAXFILE * BSIZE ==> Contents(v, j) == Contents(u, j))
    ensures N.DirsOk(v) && N.TreeOf(v) == N.TreeOf(u)
  {
    hide Contents;
    hide D.Unique;
    hide D.Binds;
    forall j: nat | j < |u.inodes| ensures N.InUse(v, j) == N.InUse(u, j) { assert v.inodes[j] == v.inodes[j]; }
    forall j: nat | j < |u.inodes| ensures N.DirAt(v, j) {
      assert N.DirAt(u, j) && v.inodes[j] == v.inodes[j];
    }
    var t, t' := N.TreeOf(u), N.TreeOf(v);
    forall j: nat | j in t' ensures t'[j] == t[j] {
      assert v.inodes[j] == v.inodes[j] && t'[j] == N.NodeAt(v, j) && t[j] == N.NodeAt(u, j);
    }
  }

  // ---- unlinking ----

  /** Inode x loses its last link. */
  ghost predicate Dropped(u: St, v: St, x: nat) {
    && x < |u.inodes| == |v.inodes| && v.inodes[x].nlink == 0
    && forall j: nat {:trigger v.inodes[j]} | j < |u.inodes| && j != x ::
         v.inodes[j] == u.inodes[j] && (u.inodes[j].size <= MAXFILE * BSIZE ==> Contents(v, j) == Contents(u, j))
  }

  ghost predicate NoName(u: St, x: nat) {
    forall j: nat, n: seq<byte> {:trigger D.Binds(Contents(u, j), n, x)} | j != x && DirHere(u, j) ::
      !D.Binds(Contents(u, j), n, x)
  }

  /** An inode that no other directory names goes from the tree. */
  lemma DropDirs(u: St, v: St, x: nat)
    requires N.DirsOk(u) && Dropped(u, v, x) && x != ROOTINO && NoName(u, x)
    ensures N.DirsOk(v) && N.TreeOf(v) == N.TreeOf(u) - {x}
  {
    hide Contents;
    hide D.Unique;
    hide D.Binds;
    assert v.inodes[ROOTINO] == u.inodes[ROOTINO];
    forall j: nat | j < |u.inodes| ensures N.DirAt(v, j) {
      if j != x {
        assert N.DirAt(u, j) && v.inodes[j] == u.inodes[j];
        forall n: seq<byte>, y: nat | DirHere(u, j) && D.Binds(Contents(v, j), n, y) ensures N.InUse(v, y) {
          assert D.Binds(Contents(u, j), n, y) && y != x && v.inodes[y] == v.inodes[y];
        }
      }
    }
    var t, t' := N.TreeOf(u), N.TreeOf(v);
    forall j: nat ensures j in t' <==> j in t && j != x {
      if j < |u.inodes| && j != x { assert v.inodes[j] == u.inodes[j]; }
    }
    forall j: nat | j in t' ensures t'[j] == t[j] {
      assert v.inodes[j] == u.inodes[j] && t'[j] == N.NodeAt(v, j) && t[j] == N.NodeAt(u, j) && N.DirAt(u, j);
    }
  }

  /** unlink of a file: the cleared entry keeps the tree on the disk well formed. */
  lemma UnlinkKeeps(st: St, u: St, w: P.Shape, i: nat, k: nat, name: seq<byte>)
    requires Good(st) && N.DirsOk(st) && P.TreeOk(N.TreeOf(st), w) && DirHere(st, i)
    requires k >= 2 && D.Live(Contents(st, i), k, name) && !DirHere(st, D.EntAt(Contents(st, i), k).inum)
    requires D.PutIn(st, u, i, k, D.PackDe(0, []))
    ensures N.DirsOk(u) && P.TreeOk(N.TreeOf(u), w)
  {
    hide Contents;
    hide Good;
    hide D.EntAt;
    hide D.PackDe;
    hide D.PutIn;
    hide P.TreeOk;
    hide N.TreeOf;
    ClearDirs(st, u, i, k, name);
    EntHere(st, i, k, name);
    HereIs(st, D.EntAt(Contents(st, i), k).inum);
    T.UnlinkTree(N.TreeOf(st), w, i, k);
  }

  lemma EntHere(st: St, i: nat, k: nat, name: seq<byte>)
    requires N.DirsOk(st) && DirHere(st, i) && D.Live(Contents(st, i), k, name)
    ensures P.IsDir(N.TreeOf(st), i) && P.LiveAt(N.TreeOf(st)[i].ents, k)
    ensures N.TreeOf(st)[i].ents[k].inum == D.EntAt(Contents(st, i), k).inum
  {
    hide Contents;
    hide D.EntAt;
    HereIs(st, i);
    assert k < |Contents(st, i)| / D.DESIZE;
    N.EntsAt(Contents(st, i), k, name);
  }

  /** A file whose last link is gone. */
  lemma DropKeeps(u: St, v: St, w: P.Shape, x: nat)
    requires N.DirsOk(u) && P.TreeOk(N.TreeOf(u), w) && Dropped(u, v, x) && x != ROOTINO && NoName(u, x)
             && !DirHere(u, x)
    ensures N.DirsOk(v) && P.TreeOk(N.TreeOf(v), w)
  {
    hide Contents;
    hide N.TreeOf;
    hide N.DirsOk;
    DropDirs(u, v, x);
    HereIs(u, x);
    DropTree(N.TreeOf(u), w, x);
  }

  lemma DropTree(t: P.Tree, w: P.Shape, x: nat)
    requires P.TreeOk(t, w) && !P.IsDir(t, x)
    ensures P.TreeOk(t - {x}, w)
  {
    hide P.CName;
    hide P.FindIdx;
    var t' := t - {x};
    assert forall d: nat :: P.IsDir(t', d) <==> P.IsDir(t, d);
    forall d: nat | P.IsDir(t', d) ensures P.DirOk(t', w, d) {
      assert P.DirOk(t, w, d) && P.IsDir(t, w.parent[d]);
      forall k: nat ensures P.EntryOk(t', w, d, k) && P.NamedOnce(t', d, k) {
        assert P.EntryOk(t, w, d, k) && P.NamedOnce(t, d, k);
      }
    }
  }

  /** unlink of an empty directory: the cleared entry, then its last link. */
  lemma RmdirKeeps(st: St, u: St, v: St, w: P.Shape, i: nat, k: nat, name: seq<byte>, x: nat)
    requires Good(st) && N.DirsOk(st) && P.TreeOk(N.TreeOf(st), w) && DirHere(st, i) && DirHere(st, x)
    requires k >= 2 && D.Live(Contents(st, i), k, name) && x == D.EntAt(Contents(st, i), k).inum
    requires forall j: nat, n: seq<byte> | j >= 2 :: !D.Live(Contents(st, x), j, n)
    requires D.PutIn(st, u, i, k, D.PackDe(0, [])) && Dropped(u, v, x)
    ensures N.DirsOk(v) && P.TreeOk(N.TreeOf(v), w)
  {
    hide Contents;
    hide Good;
    hide D.EntAt;
    hide D.PackDe;
    hide D.PutIn;
    hide P.TreeOk;
    hide N.TreeOf;
    hide N.DirsOk;
    var t := N.TreeOf(st);
    ClearDirs(st, u, i, k, name);
    EntHere(st, i, k, name);
    HereIs(st, x);
    EmptyHere(st, x);
    T.UnlinkTree(t, w, i, k);
    CutNames(t, w, i, k);
    NoNames(u, x);
    DropDirs(u, v, x);
  }

  lemma EmptyHere(st: St, x: nat)
    requires N.DirsOk(st) && DirHere(st, x) && forall j: nat, n: seq<byte> | j >= 2 :: !D.Live(Contents(st, x), j, n)
    ensures P.IsDir(N.TreeOf(st), x) && T.Empty(N.TreeOf(st), x)
  {
    hide Contents;
    hide D.EntAt;
    HereIs(st, x);
    var c := Contents(st, x);
    forall j: nat | j >= 2 ensures !P.LiveAt(N.EntsOf(c), j) {
      if j < |N.EntsOf(c)| {
        N.EntsAt(c, j, []);
        assert !D.Live(c, j, D.CName(D.EntAt(c, j).name));
      }
    }
  }

  /** With its entry cleared no other directory names an empty one. */
  lemma CutNames(t: P.Tree, w: P.Shape, i: nat, k: nat)
    requires P.TreeOk(t, w) && P.IsDir(t, i) && k >= 2 && P.LiveAt(t[i].ents, k) && P.IsDir(t, t[i].ents[k].inum)
    requires T.Empty(t, t[i].ents[k].inum)
    ensures t[i].ents[k].inum != ROOTINO
    ensures var r, x := T.PutEntry(t, i, k, T.NoEnt()), t[i].ents[k].inum;
            forall d: nat, j: nat {:trigger P.LiveAt(r[d].ents, j)} | P.IsDir(r, d) && d != x
            && P.LiveAt(r[d].ents, j) :: r[d].ents[j].inum != x
  {
    hide P.CName;
    hide P.FindIdx;
    var r, x := T.PutEntry(t, i, k, T.NoEnt()), t[i].ents[k].inum;
    assert P.DirOk(t, w, i) && P.EntryOk(t, w, i, k) && P.NamedOnce(t, i, k);
    forall d: nat, j: nat | P.IsDir(r, d) && d != x && P.LiveAt(r[d].ents, j) ensures r[d].ents[j].inum != x {
      assert P.DirOk(t, w, d) && P.EntryOk(t, w, d, j);
      if d != ROOTINO { T.Childless(t, w, x, d); }
      assert P.LiveAt(t[d].ents, j) && r[d].ents[j] == t[d].ents[j];
    }
  }

  lemma NoNames(u: St, x: nat)
    requires N.DirsOk(u)
    requires var t := N.TreeOf(u);
             forall d: nat, j: nat {:trigger P.LiveAt(t[d].ents, j)} | P.IsDir(t, d) && d != x
             && P.LiveAt(t[d].ents, j) :: t[d].ents[j].inum != x
    ensures NoName(u, x)
  {
    hide Contents;
    hide D.EntAt;
    hide N.TreeOf;
    hide N.DirsOk;
    forall d: nat, n: seq<byte> | d != x && DirHere(u, d) ensures !D.Binds(Contents(u, d), n, x) {
      HereIs(u, d);
      if D.Binds(Contents(u, d), n, x) {
        var j: nat :| D.Live(Contents(u, d), j, n) && D.EntAt(Contents(u, d), j).inum == x;
        EntHere(u, d, j, n);
        assert false;
      }
    }
  }
}
