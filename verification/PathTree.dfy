/** Trees of directories come to be and stay well formed: the root alone, and
    what making and clearing an entry keep. */
module PathTree {
  import opened Common
  import opened Paths

  function Pad(n: string): (raw: string)
    requires |n| <= DIRSIZ
    ensures |raw| == DIRSIZ
  {
    n + seq(DIRSIZ - |n|, _ => '\0')
  }

  predicate NoNul(n: string) { forall i: nat | i < |n| :: n[i] != '\0' }

  lemma {:induction false} PadName(n: string, k: nat)
    requires NoNul(n)
    ensures CName(n + seq(k, _ => '\0')) == n
  {
    if n != "" {
      assert (n + seq(k, _ => '\0'))[1..] == n[1..] + seq(k, _ => '\0');
      PadName(n[1..], k);
    }
  }

  function DotEnts(i: nat, parent: nat): seq<Ent> { [Ent(i, Pad(".")), Ent(parent, Pad(".."))] }

  lemma DotNames(i: nat, parent: nat)
    ensures CName(DotEnts(i, parent)[0].name) == "." && CName(DotEnts(i, parent)[1].name) == ".."
  {
    PadName(".", DIRSIZ - 1);
    PadName("..", DIRSIZ - 2);
  }

  /** The tree of a new file system. */
  function RootTree(): Tree { map[ROOTINO := Dir(DotEnts(ROOTINO, ROOTINO))] }

  function RootShape(): Shape { Shape(map[ROOTINO := ROOTINO], map[ROOTINO := 0]) }

  lemma RootOk()
    ensures TreeOk(RootTree(), RootShape())
  {
    DotNames(ROOTINO, ROOTINO);
    assert DirOk(RootTree(), RootShape(), ROOTINO);
  }

  // ---- looking up and finding ----

  lemma {:induction false} LookupNone(ents: seq<Ent>, n: string)
    ensures Lookup(ents, n) == 0 <==> forall j: nat | LiveAt(ents, j) :: CName(ents[j].name) != n
    decreases |ents|
  {
    if ents != [] {
      LookupNone(ents[1..], n);
      if ents[0].inum == 0 || CName(ents[0].name) != n {
        forall j: nat | LiveAt(ents, j) && j > 0 ensures LiveAt(ents[1..], j - 1) && ents[1..][j - 1] == ents[j] {}
        forall j: nat | LiveAt(ents[1..], j) ensures LiveAt(ents, j + 1) && ents[1..][j] == ents[j + 1] {}
      } else {
        assert LiveAt(ents, 0);
      }
    }
  }

  lemma FindsLive(ents: seq<Ent>, i: nat)
    ensures FindIdx(ents, i) < |ents| <==> exists j: nat :: LiveAt(ents, j) && ents[j].inum == i
  {
    var k := FindIdx(ents, i);
    if k < |ents| { assert LiveAt(ents, k); }
  }

  // ---- one entry ----

  /** Entry k of directory d becomes e, or e is put behind the last one. */
  function PutEntry(t: Tree, d: nat, k: nat, e: Ent): Tree
    requires IsDir(t, d) && k <= |t[d].ents|
  {
    t[d := Dir(Put(t[d].ents, k, e))]
  }

  function Put(ents: seq<Ent>, k: nat, e: Ent): seq<Ent>
    requires k <= |ents|
  {
    if k < |ents| then ents[k := e] else ents + [e]
  }

  predicate Proper(e: Ent) {
    |e.name| == DIRSIZ && Padded(e.name) && CName(e.name) != "" && NoSlash(CName(e.name))
  }

  /** The entry can go in: a place that is free, a name that is not there. */
  predicate CanPut(t: Tree, d: nat, k: nat, e: Ent) {
    && IsDir(t, d) && k <= |t[d].ents| && (k < |t[d].ents| ==> t[d].ents[k].inum == 0)
    && e.inum != 0 && Proper(e) && Lookup(t[d].ents, CName(e.name)) == 0
  }

  /** All but the place of a directory in its parent, which the changes below
      keep in one way. */
  lemma StillFound(ents: seq<Ent>, k: nat, e: Ent, i: nat)
    requires k <= |ents| && FindIdx(ents, i) < |ents| && (k < |ents| ==> ents[k].inum == 0 || ents[k].inum != i)
    ensures FindIdx(Put(ents, k, e), i) < |Put(ents, k, e)|
  {
    FindsLive(ents, i);
    FindsLive(Put(ents, k, e), i);
    var j: nat :| LiveAt(ents, j) && ents[j].inum == i;
    assert LiveAt(Put(ents, k, e), j) && Put(ents, k, e)[j] == ents[j];
  }

  lemma PutDistinct(ents: seq<Ent>, k: nat, e: Ent)
    requires k <= |ents| && forall i: nat, j: nat {:trigger Distinct(ents, i, j)} :: Distinct(ents, i, j)
    requires e.inum != 0 ==> forall j: nat | LiveAt(ents, j) :: CName(ents[j].name) != CName(e.name)
    ensures var r := Put(ents, k, e); forall i: nat, j: nat {:trigger Distinct(r, i, j)} :: Distinct(r, i, j)
  {
    hide CName;
    var r := Put(ents, k, e);
    forall i: nat, j: nat ensures Distinct(r, i, j) {
      assert Distinct(ents, i, j);
      assert LiveAt(r, i) && i != k ==> LiveAt(ents, i) && r[i] == ents[i];
      assert LiveAt(r, j) && j != k ==> LiveAt(ents, j) && r[j] == ents[j];
    }
  }

  /** A link to what is not a directory keeps the tree. */
  lemma LinkTree(t: Tree, w: Shape, d: nat, k: nat, e: Ent)
    requires TreeOk(t, w) && CanPut(t, d, k, e) && !IsDir(t, e.inum)
    ensures TreeOk(PutEntry(t, d, k, e), w)
  {
    hide CName;
    hide FindIdx;
    var t' := PutEntry(t, d, k, e);
    forall x: nat | IsDir(t', x) ensures DirOk(t', w, x) {
      assert DirOk(t, w, x);
      assert IsDir(t, w.parent[x]);
      if x != ROOTINO && w.parent[x] == d { StillFound(t[d].ents, k, e, x); }
      if x == d {
        assert DirOk(t, w, w.parent[x]);
        LookupNone(t[d].ents, CName(e.name));
        PutDistinct(t[d].ents, k, e);
        PutOnce(t, t', w, d, k, e);
      } else {
        forall j: nat ensures EntryOk(t', w, x, j) && NamedOnce(t', x, j) {
          assert EntryOk(t, w, x, j) && NamedOnce(t, x, j);
        }
      }
    }
  }

  lemma PutOnce(t: Tree, t': Tree, w: Shape, d: nat, k: nat, e: Ent)
    requires IsDir(t, d) && 2 <= k <= |t[d].ents| && IsDir(t', d) && t'[d].ents == Put(t[d].ents, k, e)
    requires forall i: nat {:trigger IsDir(t', i)} :: IsDir(t', i) ==> IsDir(t, i)
    requires (forall j: nat {:trigger EntryOk(t, w, d, j)} :: EntryOk(t, w, d, j))
    requires (forall j: nat {:trigger NamedOnce(t, d, j)} :: NamedOnce(t, d, j))
    requires e.inum != 0 ==> Proper(e) && !IsDir(t', e.inum)
    ensures (forall j: nat {:trigger EntryOk(t', w, d, j)} :: EntryOk(t', w, d, j))
    ensures (forall j: nat {:trigger NamedOnce(t', d, j)} :: NamedOnce(t', d, j))
  {
    hide CName;
    var ents, r := t[d].ents, t'[d].ents;
    forall j: nat ensures EntryOk(t', w, d, j) && NamedOnce(t', d, j) {
      assert EntryOk(t, w, d, j) && NamedOnce(t, d, j);
      forall i: nat | LiveAt(r, i) && i != k ensures LiveAt(ents, i) && r[i] == ents[i] {}
    }
  }

  /** A directory made in d: its two dot entries, then the entry that names it. */
  function MadeTree(t: Tree, d: nat, k: nat, e: Ent): Tree
    requires IsDir(t, d) && k <= |t[d].ents|
  {
    PutEntry(t, d, k, e)[e.inum := Dir(DotEnts(e.inum, d))]
  }

  function MadeShape(w: Shape, d: nat, i: nat): Shape
    requires d in w.depth
  {
    Shape(w.parent[i := d], w.depth[i := w.depth[d] + 1])
  }

  ghost predicate Unnamed(t: Tree, i: nat) {
    forall x: nat, j: nat {:trigger LiveAt(t[x].ents, j)} | IsDir(t, x) && LiveAt(t[x].ents, j) ::
      t[x].ents[j].inum != i
  }

  /** Making a directory from an inode that nothing names keeps the tree. */
  lemma MakeTree(t: Tree, w: Shape, d: nat, k: nat, e: Ent)
    requires TreeOk(t, w) && CanPut(t, d, k, e) && !IsDir(t, e.inum) && Unnamed(t, e.inum)
    ensures d in w.depth && TreeOk(MadeTree(t, d, k, e), MadeShape(w, d, e.inum))
  {
    hide CName;
    hide FindIdx;
    hide DotEnts;
    assert DirOk(t, w, d);
    var i := e.inum;
    var t', w' := MadeTree(t, d, k, e), MadeShape(w, d, i);
    assert DirOk(t, w, w.parent[d]);
    assert t'[d].ents == Put(t[d].ents, k, e);
    forall x: nat | IsDir(t', x) ensures DirOk(t', w', x) {
      if x == i {
        MadeFound(t[d].ents, k, e);
        NewDirOk(t', w', d, i);
      } else {
        assert DirOk(t, w, x) && IsDir(t, w.parent[x]) && w.parent[x] != i;
        if x != ROOTINO && w.parent[x] == d { StillFound(t[d].ents, k, e, x); }
        if x == d {
          LookupNone(t[d].ents, CName(e.name));
          PutDistinct(t[d].ents, k, e);
          MadeOnce(t, t', w, w', d, k, e);
        } else {
          forall j: nat ensures EntryOk(t', w', x, j) && NamedOnce(t', x, j) {
            assert EntryOk(t, w, x, j) && NamedOnce(t, x, j);
            assert LiveAt(t[x].ents, j) ==> t[x].ents[j].inum != i;
          }
        }
      }
    }
  }

  lemma MadeFound(ents: seq<Ent>, k: nat, e: Ent)
    requires k <= |ents| && e.inum != 0
    ensures FindIdx(Put(ents, k, e), e.inum) < |Put(ents, k, e)|
  {
    FindsLive(Put(ents, k, e), e.inum);
    assert LiveAt(Put(ents, k, e), k);
  }

  lemma NewDirOk(t: Tree, w: Shape, d: nat, i: nat)
    requires IsDir(t, i) && t[i].ents == DotEnts(i, d) && i != 0 && d != 0 && i != ROOTINO && i != d
    requires IsDir(t, d) && i in w.parent && i in w.depth && d in w.depth && w.parent[i] == d
             && w.depth[i] == w.depth[d] + 1
    requires FindIdx(t[d].ents, i) < |t[d].ents|
    ensures DirOk(t, w, i)
  {
    DotNames(i, d);
  }

  lemma MadeOnce(t: Tree, t': Tree, w: Shape, w': Shape, d: nat, k: nat, e: Ent)
    requires IsDir(t, d) && 2 <= k <= |t[d].ents| && IsDir(t', d) && t'[d].ents == Put(t[d].ents, k, e)
             && e.inum != ROOTINO
    requires forall i: nat {:trigger IsDir(t', i)} :: IsDir(t', i) ==> IsDir(t, i) || i == e.inum
    requires (forall j: nat {:trigger EntryOk(t, w, d, j)} :: EntryOk(t, w, d, j))
    requires (forall j: nat {:trigger NamedOnce(t, d, j)} :: NamedOnce(t, d, j))
    requires Proper(e) && (forall j: nat | LiveAt(t[d].ents, j) :: t[d].ents[j].inum != e.inum)
    requires w'.parent == w.parent[e.inum := d]
    ensures (forall j: nat {:trigger EntryOk(t', w', d, j)} :: EntryOk(t', w', d, j))
    ensures (forall j: nat {:trigger NamedOnce(t', d, j)} :: NamedOnce(t', d, j))
  {
    hide CName;
    var ents, r := t[d].ents, t'[d].ents;
    forall i: nat | LiveAt(r, i) && i != k ensures LiveAt(ents, i) && r[i] == ents[i] {}
    forall j: nat ensures EntryOk(t', w', d, j) && NamedOnce(t', d, j) {
      assert EntryOk(t, w, d, j) && NamedOnce(t, d, j);
    }
  }

  function NoEnt(): Ent { Ent(0, seq(DIRSIZ, _ => '\0')) }

  /** The entry that names i is cleared; a directory goes with it. */
  function CutTree(t: Tree, d: nat, k: nat): Tree
    requires IsDir(t, d) && LiveAt(t[d].ents, k)
  {
    var i := t[d].ents[k].inum;
    var r := PutEntry(t, d, k, NoEnt());
    if IsDir(t, i) then r - {i} else r
  }

  ghost predicate Empty(t: Tree, i: nat)
    requires IsDir(t, i)
  {
    forall j: nat {:trigger LiveAt(t[i].ents, j)} | j >= 2 :: !LiveAt(t[i].ents, j)
  }

  /** Unlinking a file or an empty directory keeps the tree. */
  lemma UnlinkTree(t: Tree, w: Shape, d: nat, k: nat)
    requires TreeOk(t, w) && IsDir(t, d) && k >= 2 && LiveAt(t[d].ents, k)
    requires IsDir(t, t[d].ents[k].inum) ==> Empty(t, t[d].ents[k].inum)
    ensures TreeOk(CutTree(t, d, k), w)
  {
    hide CName;
    hide FindIdx;
    var i := t[d].ents[k].inum;
    var t' := CutTree(t, d, k);
    assert DirOk(t, w, d) && EntryOk(t, w, d, k) && NamedOnce(t, d, k);
    if IsDir(t, i) { assert DirOk(t, w, i); }
    forall x: nat | IsDir(t', x) ensures DirOk(t', w, x) {
      assert DirOk(t, w, x) && IsDir(t, w.parent[x]);
      if x != ROOTINO { Childless(t, w, i, x); }
      if x != ROOTINO && w.parent[x] == d { StillFound(t[d].ents, k, NoEnt(), x); }
      if x == d {
        PutDistinct(t[d].ents, k, NoEnt());
        PutOnce(t, t', w, d, k, NoEnt());
      } else {
        forall j: nat ensures EntryOk(t', w, x, j) && NamedOnce(t', x, j) {
          assert EntryOk(t, w, x, j) && NamedOnce(t, x, j);
        }
      }
    }
    assert i != ROOTINO || !IsDir(t, i);
  }

  /** An empty directory is nobody's parent. */
  lemma Childless(t: Tree, w: Shape, i: nat, x: nat)
    requires TreeOk(t, w) && IsDir(t, x) && x != ROOTINO && (IsDir(t, i) ==> Empty(t, i))
    ensures x in w.parent && (IsDir(t, i) ==> w.parent[x] != i)
  {
    RawOf(t, w, x);
    var k := FindIdx(t[w.parent[x]].ents, x);
    assert LiveAt(t[w.parent[x]].ents, k);
  }

  // ---- a directory that does not come back ----

  /** A directory made in the root under a name of fourteen characters, the last
      of them a space. */
  function CutEnt(): Ent { Ent(2, seq(DIRSIZ - 1, _ => 'a') + [' ']) }

  /** getcwd_path then answers a path that does not lead to it. */
  lemma CutExample()
    ensures var t, w := MadeTree(RootTree(), ROOTINO, 2, CutEnt()), MadeShape(RootShape(), ROOTINO, 2);
            TreeOk(t, w) && IsDir(t, 2) && Resolve(t, ROOTINO, Split("/" + FullPath(t, w, 2))) != 2
  {
    hide *;
    RootOk();
    CutCan(RootTree(), CutEnt());
    CutMisses(RootTree(), RootShape(), CutEnt());
  }

  lemma CutCan(t: Tree, e: Ent)
    requires t == RootTree() && e == CutEnt()
    ensures CanPut(t, ROOTINO, 2, e) && !IsDir(t, e.inum) && Unnamed(t, e.inum) && |t[ROOTINO].ents| == 2
    ensures e.inum == 2 && |e.name| == DIRSIZ && e.name[DIRSIZ - 1] == ' '
  {
    CutProper(e);
    hide Proper;
    hide CName;
    hide Lookup;
    hide DotEnts;
    TwoDots();
    RootNames(e.name);
  }

  lemma CutProper(e: Ent)
    requires e.name == seq(DIRSIZ - 1, _ => 'a') + [' ']
    ensures Proper(e) && CName(e.name) == e.name && e.name != "." && e.name != ".."
  {
    assert forall i: nat | i < |e.name| :: e.name[i] == 'a' || e.name[i] == ' ';
    NoNulName(e.name);
    assert |"."| == 1 && |".."| == 2;
  }

  lemma TwoDots()
    ensures |DotEnts(ROOTINO, ROOTINO)| == 2
    ensures DotEnts(ROOTINO, ROOTINO)[0].inum == DotEnts(ROOTINO, ROOTINO)[1].inum == ROOTINO
  {
  }

  lemma CutMisses(t: Tree, w: Shape, e: Ent)
    requires TreeOk(t, w) && w == RootShape() && CanPut(t, ROOTINO, 2, e) && !IsDir(t, 2) && Unnamed(t, 2)
             && |t[ROOTINO].ents| == 2
    requires e.inum == 2 && |e.name| == DIRSIZ && e.name[DIRSIZ - 1] == ' '
    ensures var t', w' := MadeTree(t, ROOTINO, 2, e), MadeShape(w, ROOTINO, 2);
            TreeOk(t', w') && IsDir(t', 2) && Resolve(t', ROOTINO, Split("/" + FullPath(t', w', 2))) != 2
  {
    hide Resolve;
    hide Split;
    hide Paths.FullPath;
    hide TreeOk;
    hide CName;
    MakeTree(t, w, ROOTINO, 2, e);
    var t', w' := MadeTree(t, ROOTINO, 2, e), MadeShape(w, ROOTINO, 2);
    CutNotPlain(t', w');
    RoundTripIff(t', w', 2);
  }

  lemma RootNames(n: string)
    requires n != "." && n != ".."
    ensures Lookup(RootTree()[ROOTINO].ents, n) == 0
  {
    DotNames(ROOTINO, ROOTINO);
    LookupNone(DotEnts(ROOTINO, ROOTINO), n);
  }

  lemma CutNotPlain(t: Tree, w: Shape)
    requires TreeOk(t, w) && IsDir(t, 2) && 2 in w.parent && w.parent[2] == ROOTINO
    requires IsDir(t, ROOTINO) && |t[ROOTINO].ents| == 3 && |t[ROOTINO].ents[2].name| == DIRSIZ
             && t[ROOTINO].ents[2].name[DIRSIZ - 1] == ' '
    ensures !Plain(t, w, 2)
  {
    RawOf(t, w, 2);
  }
}
