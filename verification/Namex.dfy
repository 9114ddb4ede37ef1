/** namex on the disk: the fold of dirlookup over the path, with the references
    to the inodes it passes, against resolving names in a tree of directories. */
module Namex {
  import opened Common
  import opened Layout
  import opened FsState
  import FsDisk
  import F = FileSystem
  import D = Directory
  import P = Paths

  // ---- bytes as characters ----

  function Str(b: seq<byte>): (s: string)
    ensures |s| == |b| && forall i: nat | i < |b| :: s[i] == b[i] as char
  {
    seq(|b|, i requires 0 <= i < |b| => b[i] as char)
  }

  predicate ByteString(s: string) { forall i: nat | i < |s| :: 0 < s[i] as int < 0x100 }

  function Raw(s: string): (b: seq<byte>)
    requires ByteString(s)
    ensures |b| == |s| && forall i: nat | i < |s| :: b[i] as char == s[i]
    ensures D.NoNul(b) && Str(b) == s
  {
    seq(|s|, i requires 0 <= i < |s| => s[i] as int)
  }

  lemma StrSame(a: seq<byte>, b: seq<byte>)
    ensures Str(a) == Str(b) <==> a == b
  {
    if Str(a) == Str(b) {
      forall i: nat | i < |a| ensures a[i] == b[i] { assert Str(a)[i] == Str(b)[i]; }
    }
  }

  lemma {:induction false} CNameStr(raw: seq<byte>)
    ensures P.CName(Str(raw)) == Str(D.CName(raw))
    decreases |raw|
  {
    if raw != [] && raw[0] != 0 {
      assert Str(raw)[1..] == Str(raw[1..]);
      CNameStr(raw[1..]);
    }
  }

  /** A packed name field is padded. */
  lemma PackedPads(inum: nat, name: seq<byte>)
    requires D.NoNul(name)
    ensures |D.PackDe(inum, name)[2..16]| == DIRSIZ && P.Padded(Str(D.PackDe(inum, name)[2..16]))
  {
    var n := D.Short(name);
    var raw := D.PackDe(inum, name)[2..16];
    assert raw == n + seq(DIRSIZ - |n|, _ => 0);
    forall i: nat, j: nat | i < j < |raw| && Str(raw)[i] == '\0' ensures Str(raw)[j] == '\0' { assert raw[i] == 0; }
  }

  // ---- directories as entry lists ----

  function EntsOf(c: seq<byte>): (r: seq<P.Ent>)
    ensures |r| == |c| / D.DESIZE
  {
    seq(|c| / D.DESIZE, i requires 0 <= i < |c| / D.DESIZE => P.Ent(D.EntAt(c, i).inum, Str(D.EntAt(c, i).name)))
  }

  lemma EntsAt(c: seq<byte>, i: nat, name: seq<byte>)
    requires i < |c| / D.DESIZE
    ensures D.Live(c, i, name) <==> EntsOf(c)[i].inum != 0 && P.CName(EntsOf(c)[i].name) == Str(name)
    ensures (i + 1) * D.DESIZE <= |c| && EntsOf(c)[i].inum == D.EntAt(c, i).inum
  {
    hide D.EntAt;
    CNameStr(D.EntAt(c, i).name);
    StrSame(D.CName(D.EntAt(c, i).name), name);
  }

  lemma {:induction false} FirstLookup(ents: seq<P.Ent>, n: string, k: nat)
    requires k <= |ents| && forall j: nat | j < k :: ents[j].inum == 0 || P.CName(ents[j].name) != n
    requires k < |ents| ==> ents[k].inum != 0 && P.CName(ents[k].name) == n
    ensures P.Lookup(ents, n) == if k < |ents| then ents[k].inum else 0
    decreases k
  {
    if k > 0 {
      forall j: nat | j < k - 1 ensures ents[1..][j].inum == 0 || P.CName(ents[1..][j].name) != n {
        assert ents[1..][j] == ents[j + 1];
      }
      FirstLookup(ents[1..], n, k - 1);
    }
  }

  /** Looking a name up among the entries of a directory's bytes is finding its
      binding: what dirlookup answers. */
  lemma LookupIs(c: seq<byte>, name: seq<byte>)
    requires D.Unique(c)
    ensures P.Lookup(EntsOf(c), Str(name)) == 0 <==> forall i: nat :: !D.Live(c, i, name)
    ensures forall x: nat :: D.Binds(c, name, x) <==> x != 0 && x == P.Lookup(EntsOf(c), Str(name))
  {
    hide D.EntAt;
    hide P.CName;
    hide D.Unique;
    var ents, n := EntsOf(c), Str(name);
    if i: nat :| D.Live(c, i, name) {
      assert i < |c| / D.DESIZE;
      EntsAt(c, i, name);
      forall j: nat | j < i ensures ents[j].inum == 0 || P.CName(ents[j].name) != n {
        EntsAt(c, j, name);
        OnlyLive(c, i, j, name);
      }
      FirstLookup(ents, n, i);
      D.BoundOnce(c, i, name);
    } else {
      forall j: nat | j < |ents| ensures ents[j].inum == 0 || P.CName(ents[j].name) != n { EntsAt(c, j, name); }
      FirstLookup(ents, n, |ents|);
    }
  }

  lemma OnlyLive(c: seq<byte>, i: nat, j: nat, name: seq<byte>)
    requires D.Unique(c) && D.Live(c, i, name) && j != i
    ensures !D.Live(c, j, name)
  {
  }

  // ---- the tree on the disk ----

  ghost function NodeAt(st: St, i: nat): P.Node
    requires i < |st.inodes|
  {
    if st.inodes[i].typ == T_DIR && st.inodes[i].size <= MAXFILE * BSIZE then P.Dir(EntsOf(Contents(st, i))) else P.File
  }

  ghost function TreeOf(st: St): P.Tree {
    map i: nat | i < |st.inodes| && InUse(st, i) :: NodeAt(st, i)
  }

  predicate InUse(st: St, i: nat) { i < |st.inodes| && st.inodes[i].typ != 0 && st.inodes[i].nlink != 0 }

  /** Of a directory with links: whole entries, no name twice, and every name is of
      an inode with links. */
  ghost predicate DirAt(st: St, i: nat)
    requires i < |st.inodes|
  {
    InUse(st, i) && st.inodes[i].typ == T_DIR ==>
      && st.inodes[i].size <= MAXFILE * BSIZE && st.inodes[i].size % D.DESIZE == 0 && D.Unique(Contents(st, i))
      && forall n: seq<byte>, x: nat {:trigger D.Binds(Contents(st, i), n, x)} ::
           D.Binds(Contents(st, i), n, x) ==> InUse(st, x)
  }

  ghost predicate DirsOk(st: St) {
    InUse(st, ROOTINO) && forall i: nat {:trigger DirAt(st, i)} | i < |st.inodes| :: DirAt(st, i)
  }

  // ---- the walk ----

  predicate Fine(e: string) { ByteString(e) && |e| <= DIRSIZ }

  predicate AllFine(names: seq<string>) { forall i: nat {:trigger names[i]} | i < |names| :: Fine(names[i]) }

  lemma {:induction false} SplitFine(p: string)
    requires ByteString(p)
    ensures AllFine(P.Split(p))
    decreases |p|
  {
    if p != "" && p[0] == '/' { SplitFine(p[1..]); }
    else if p != "" {
      SplitFine(p[P.ElemLen(p)..]);
      assert Fine(P.Short(p[..P.ElemLen(p)]));
    }
  }

  /** Every slot has the references it had, and slot s one more. */
  predicate OneMore(t: seq<F.Incore>, u: seq<F.Incore>, s: nat) {
    |u| == |t| && forall r: nat {:trigger u[r]} | r < |t| ::
      u[r].ref == t[r].ref + (if r == s then 1 else 0) && (t[r].ref > 0 ==> u[r].inum == t[r].inum)
  }

  predicate NoMore(t: seq<F.Incore>, u: seq<F.Incore>) {
    |u| == |t|
    && forall r: nat {:trigger u[r]} | r < |t| :: u[r].ref == t[r].ref && (t[r].ref > 0 ==> u[r].inum == t[r].inum)
  }

  predicate NoSlot(t: seq<F.Incore>) { forall r: nat {:trigger t[r]} | r < |t| :: t[r].ref > 0 }

  /** Giving slot s up will not be the end of its inode. */
  predicate Safe(t: seq<F.Incore>, st: St, s: nat) {
    s < |t| && t[s].ref > 0 && t[s].inum < |st.inodes| && (t[s].ref > 1 || st.inodes[t[s].inum].nlink != 0)
  }

  datatype Found = At(s: nat) | Nothing | Full

  /** iget, as the first step of a walk or inside dirlookup. */
  method Hold(fs: F.FileSystem, i: nat, ghost t: seq<F.Incore>) returns (s: nat)
    requires fs.Ready() && |fs.itable| == F.NINODE && InUse(fs.st, i) && t == fs.itable
    modifies fs
    ensures fs.Ready() && |fs.itable| == F.NINODE && fs.st == old(fs.st) && fs.disk == old(fs.disk) && s <= F.NINODE
    ensures s == F.NINODE ==> fs.itable == t && NoSlot(t)
    ensures s < F.NINODE ==> OneMore(t, fs.itable, s) && fs.itable[s].inum == i && Safe(fs.itable, fs.st, s)
  {
    hide Good;
    hide F.TableOk;
    hide FsDisk.Holds;
    hide FsDisk.SuperIs;
    F.HoldsSizes(fs.disk, fs.sb, fs.st, fs.dirty);
    s := fs.Iget(i);
  }

  /** iput of a slot that others hold too, or whose inode has links. */
  method LetGo(fs: F.FileSystem, s: nat)
    requires fs.Ready() && Safe(fs.itable, fs.st, s)
    modifies fs
    ensures fs.Ready() && fs.st == old(fs.st) && fs.disk == old(fs.disk) && |fs.itable| == |old(fs.itable)|
    ensures OneMore(fs.itable, old(fs.itable), s)
  {
    hide Good;
    hide F.TableOk;
    hide FsDisk.Holds;
    hide FsDisk.SuperIs;
    assert F.Loaded(fs.itable, s) ==> fs.itable[s].di == fs.st.inodes[fs.itable[s].inum] by { LoadedSame(fs, s); }
    fs.Iput(s);
  }

  lemma LoadedSame(fs: F.FileSystem, s: nat)
    requires fs.Ready() && s < |fs.itable|
    ensures F.Loaded(fs.itable, s) ==>
              fs.itable[s].inum < |fs.st.inodes| && fs.itable[s].di == fs.st.inodes[fs.itable[s].inum]
  {
    if F.Loaded(fs.itable, s) { F.LoadedIs(fs.itable, fs.st, s); }
  }

  lemma Reloaded(t0: seq<F.Incore>, a: seq<F.Incore>, b: seq<F.Incore>, st: St, s: nat)
    requires OneMore(t0, a, s) && Safe(a, st, s) && s < |b| == |a| && b == a[s := b[s]] && b[s].inum == a[s].inum
             && b[s].ref == a[s].ref
    ensures OneMore(t0, b, s) && Safe(b, st, s)
  {
    forall r: nat | r < |t0|
      ensures b[r].ref == t0[r].ref + (if r == s then 1 else 0) && (t0[r].ref > 0 ==> b[r].inum == t0[r].inum)
    {
      assert a[r].ref == t0[r].ref + if r == s then 1 else 0;
    }
  }

  lemma Returned(t0: seq<F.Incore>, a: seq<F.Incore>, b: seq<F.Incore>, s: nat)
    requires OneMore(t0, a, s) && OneMore(b, a, s)
    ensures NoMore(t0, b)
  {
    forall r: nat | r < |t0| ensures b[r].ref == t0[r].ref && (t0[r].ref > 0 ==> b[r].inum == t0[r].inum) {
      assert a[r].ref == t0[r].ref + if r == s then 1 else 0;
    }
  }

  /** Slot s held, then slot n, then s given up. */
  lemma Passed(t0: seq<F.Incore>, a: seq<F.Incore>, b: seq<F.Incore>, c: seq<F.Incore>, st: St, s: nat, n: nat)
    requires OneMore(t0, a, s) && OneMore(a, b, n) && n < |t0| && s < |t0| && Safe(a, st, s) && InUse(st, b[n].inum)
    ensures Safe(b, st, s)
    ensures OneMore(c, b, s) ==> OneMore(t0, c, n) && c[n].inum == b[n].inum && Safe(c, st, n)
  {
    assert a[s].ref == a[s].ref && b[s].ref == b[s].ref;
    if OneMore(c, b, s) {
      forall r: nat | r < |t0|
        ensures c[r].ref == t0[r].ref + (if r == n then 1 else 0) && (t0[r].ref > 0 ==> c[r].inum == t0[r].inum)
      {
        assert a[r].ref == t0[r].ref + (if r == s then 1 else 0) && b[r].ref == a[r].ref + if r == n then 1 else 0;
      }
      assert b[n].ref == c[n].ref + if n == s then 1 else 0;
    }
  }

  /** What one element leads to in the tree. */
  ghost function Next(st: St, i: nat, name: string): nat {
    if P.IsDir(TreeOf(st), i) then P.Lookup(TreeOf(st)[i].ents, name) else 0
  }

  /** One turn of the loop of namex: the element is looked up in the inode of
      slot ip, and that slot given up for the one found. */
  method Turn(fs: F.FileSystem, ip: nat, name: string, ghost t0: seq<F.Incore>) returns (r: Found)
    requires fs.Ready() && |fs.itable| == F.NINODE && DirsOk(fs.st) && Fine(name)
    requires |t0| == F.NINODE && OneMore(t0, fs.itable, ip) && Safe(fs.itable, fs.st, ip)
             && InUse(fs.st, fs.itable[ip].inum)
    modifies fs
    ensures fs.Ready() && |fs.itable| == F.NINODE && fs.st == old(fs.st) && fs.disk == old(fs.disk)
    ensures ip < F.NINODE == |old(fs.itable)|
    ensures var i := old(fs.itable)[ip].inum; var x := Next(fs.st, i, name);
            && (r.Nothing? ==> x == 0 && NoMore(t0, fs.itable))
            && (r.At? ==>
                 x != 0 && r.s < F.NINODE && OneMore(t0, fs.itable, r.s) && fs.itable[r.s].inum == x
                 && Safe(fs.itable, fs.st, r.s)
                          && InUse(fs.st, x))
            && (r.Full? ==> x != 0 && NoSlot(fs.itable) && OneMore(t0, fs.itable, ip))
  {
    hide Good;
    hide F.TableOk;
    hide FsDisk.Holds;
    hide FsDisk.SuperIs;
    hide D.Unique;
    hide D.Binds;
    hide OneMore;
    hide NoMore;
    hide NoSlot;
    hide Next;
    hide NodeAt;
    ghost var st, a := fs.st, fs.itable;
    var ok := fs.Ilock(ip);
    ghost var i, b := fs.itable[ip].inum, fs.itable;
    Reloaded(t0, a, b, st, ip);
    assert DirAt(st, i);
    if fs.itable[ip].di.typ != T_DIR {
      NextIs(st, i, name);
      LetGo(fs, ip);
      Returned(t0, b, fs.itable, ip);
      return Nothing;
    }
    var raw := Raw(name);
    var inum, off := D.Dirlookup(fs, ip, raw);
    NextIs(st, i, name);
    if inum == 0 {
      LetGo(fs, ip);
      Returned(t0, b, fs.itable, ip);
      return Nothing;
    }
    assert D.Binds(Contents(st, i), raw, inum);
    var next := Hold(fs, inum, fs.itable);
    if next == F.NINODE { return Full; }
    ghost var c := fs.itable;
    Passed(t0, b, c, c, st, ip, next);
    LetGo(fs, ip);
    Passed(t0, b, c, fs.itable, st, ip, next);
    r := At(next);
  }

  lemma NextIs(st: St, i: nat, name: string)
    requires DirsOk(st) && InUse(st, i) && Fine(name)
    ensures st.inodes[i].typ != T_DIR ==> Next(st, i, name) == 0
    ensures st.inodes[i].typ == T_DIR ==>
              st.inodes[i].size <= MAXFILE * BSIZE && D.Short(Raw(name)) == Raw(name)
              && forall x: nat {:trigger D.Binds(Contents(st, i), Raw(name), x)} ::
                   D.Binds(Contents(st, i), Raw(name), x) <==> x != 0 && x == Next(st, i, name)
    ensures st.inodes[i].typ == T_DIR ==>
              ((forall k: nat :: !D.Live(Contents(st, i), k, Raw(name))) <==> Next(st, i, name) == 0)
  {
    hide D.Binds;
    assert DirAt(st, i);
    assert TreeOf(st)[i] == NodeAt(st, i);
    if st.inodes[i].typ == T_DIR { LookupIs(Contents(st, i), Raw(name)); }
  }

  lemma ResolveStep(st: St, i: nat, names: seq<string>)
    requires names != []
    ensures P.Resolve(TreeOf(st), i, names) == if Next(st, i, names[0]) == 0 then 0
              else P.Resolve(TreeOf(st), Next(st, i, names[0]), names[1..])
  {
  }

  /** Where a path starts: the root, or the directory of slot `cwd` if there is one. */
  ghost function StartOf(t: seq<F.Incore>, path: string, cwd: nat): nat {
    if (path != "" && path[0] == '/') || cwd >= |t| then ROOTINO else t[cwd].inum
  }

  /** The slot of a working directory is in use; a path that starts there needs one
      that still has links. */
  predicate Starts(t: seq<F.Incore>, st: St, path: string, cwd: nat) {
    cwd < |t| ==>
      t[cwd].ref > 0 && 0 < t[cwd].inum < |st.inodes| && ((path != "" && path[0] == '/') || InUse(st, t[cwd].inum))
  }

  /** idup. */
  method Idup(fs: F.FileSystem, s: nat)
    requires fs.Ready() && |fs.itable| == F.NINODE && s < F.NINODE && fs.itable[s].ref > 0
    modifies fs
    ensures fs.Ready() && |fs.itable| == F.NINODE && fs.st == old(fs.st) && fs.disk == old(fs.disk)
    ensures OneMore(old(fs.itable), fs.itable, s) && fs.itable[s].inum == old(fs.itable)[s].inum < |fs.st.inodes|
            && Safe(fs.itable, fs.st, s)
  {
    hide Good;
    assert F.SlotOk(fs.itable, fs.st, s);
    F.HoldsSizes(fs.disk, fs.sb, fs.st, fs.dirty);
    var again := fs.Iget(fs.itable[s].inum);
    SlotOnce(old(fs.itable), fs.st, s, again);
  }

  lemma SlotOnce(t: seq<F.Incore>, st: St, s: nat, r: nat)
    requires F.TableOk(t, st) && s < |t| && t[s].ref > 0
    ensures r < |t| && t[r].ref > 0 && t[r].inum == t[s].inum ==> r == s
  {
    if r < s && t[r].ref > 0 { assert t[r] == t[r] && t[s] == t[s]; }
    if s < r < |t| && t[r].ref > 0 { assert t[s] == t[s] && t[r] == t[r]; }
  }

  /** The walk has come to i with `names` still to go. */
  ghost predicate Stage(st: St, start: nat, all: seq<string>, i: nat, names: seq<string>) {
    && start != 0 && i != 0 && |names| <= |all| && all[|all| - |names|..] == names
    && P.Resolve(TreeOf(st), start, all[..|all| - |names|]) == i
  }

  lemma StageFirst(st: St, start: nat, all: seq<string>)
    requires start != 0
    ensures Stage(st, start, all, start, all)
  {
  }

  lemma StageDone(st: St, start: nat, all: seq<string>, i: nat)
    requires Stage(st, start, all, i, [])
    ensures P.Resolve(TreeOf(st), start, all) == i
  {
    assert all[..|all|] == all;
  }

  lemma StageLast(st: St, start: nat, all: seq<string>, i: nat, n: string)
    requires Stage(st, start, all, i, [n])
    ensures all != [] && all[|all| - 1] == n && P.Resolve(TreeOf(st), start, all[..|all| - 1]) == i
  {
    assert all[|all| - 1..][0] == n;
  }

  lemma StageNext(st: St, start: nat, all: seq<string>, i: nat, names: seq<string>)
    requires Stage(st, start, all, i, names) && names != []
    ensures var x := Next(st, i, names[0]);
            if x == 0 then
              P.Resolve(TreeOf(st), start, all) == 0
              && (|names| > 1 ==> P.Resolve(TreeOf(st), start, all[..|all| - 1]) == 0)
            else Stage(st, start, all, x, names[1..])
  {
    hide P.Resolve;
    hide Next;
    hide TreeOf;
    var k := |all| - |names|;
    var t := TreeOf(st);
    ResolveStep(st, i, names);
    P.ResolveAppend(t, start, all[..k], names);
    assert all[..k] + names == all;
    if |names| > 1 {
      var m := names[..|names| - 1];
      assert all[..k] + m == all[..|all| - 1] && m[0] == names[0];
      ResolveStep(st, i, m);
      P.ResolveAppend(t, start, all[..k], m);
    }
    ResolveStep(st, i, [names[0]]);
    P.ResolveAppend(t, start, all[..k], [names[0]]);
    assert all[..k] + [names[0]] == all[..k + 1];
    assert [names[0]][1..] == [];
    ResolveNone(t, Next(st, i, names[0]));
    assert names[1..] == all[k + 1..];
  }

  lemma ResolveNone(t: P.Tree, i: nat)
    ensures P.Resolve(t, i, []) == i
  {
  }

  lemma NoneSplit()
    ensures P.Split("") == []
  {
  }

  lemma RootUsed(st: St)
    requires DirsOk(st)
    ensures InUse(st, ROOTINO)
  {
  }

  lemma DirIs(st: St, i: nat)
    requires DirsOk(st) && InUse(st, i)
    ensures P.IsDir(TreeOf(st), i) <==> st.inodes[i].typ == T_DIR
  {
    assert DirAt(st, i);
    assert TreeOf(st)[i] == NodeAt(st, i);
  }

  lemma NoMoreRefl(t: seq<F.Incore>)
    ensures NoMore(t, t)
  {
  }

  /** iput on the way out of a walk that found nothing. */
  method GiveBack(fs: F.FileSystem, s: nat, ghost t0: seq<F.Incore>)
    requires fs.Ready() && |fs.itable| == F.NINODE && OneMore(t0, fs.itable, s) && Safe(fs.itable, fs.st, s)
    modifies fs
    ensures fs.Ready() && |fs.itable| == F.NINODE && fs.st == old(fs.st) && fs.disk == old(fs.disk)
            && NoMore(t0, fs.itable)
  {
    LetGo(fs, s);
    Returned(t0, old(fs.itable), fs.itable, s);
  }

  lemma NoneMore(t: seq<F.Incore>)
    ensures OneMore(t, t, |t|)
  {
  }

  /** The inode a walk starts at. */
  method Begin(fs: F.FileSystem, path: string, cwd: nat) returns (ip: nat)
    requires fs.Ready() && |fs.itable| == F.NINODE && DirsOk(fs.st) && path != ""
    requires Starts(fs.itable, fs.st, path, cwd)
    modifies fs
    ensures fs.Ready() && |fs.itable| == F.NINODE && fs.st == old(fs.st) && fs.disk == old(fs.disk) && ip <= F.NINODE
    ensures ip == F.NINODE ==> NoSlot(fs.itable) && OneMore(old(fs.itable), fs.itable, ip)
    ensures ip < F.NINODE ==>
              && OneMore(old(fs.itable), fs.itable, ip) && Safe(fs.itable, fs.st, ip)
              && fs.itable[ip].inum == StartOf(old(fs.itable), path, cwd) != 0
              && InUse(fs.st, fs.itable[ip].inum)
  {
    hide Good;
    hide F.TableOk;
    hide FsDisk.Holds;
    hide FsDisk.SuperIs;
    hide OneMore;
    if path[0] == '/' || cwd >= F.NINODE {
      RootUsed(fs.st);
      ip := Hold(fs, ROOTINO, fs.itable);
      if ip == F.NINODE { NoneMore(fs.itable); }
    } else {
      Idup(fs, cwd);
      ip := cwd;
    }
  }

  /** The end of nameiparent's walk: the inode of slot ip must be a directory. */
  method AtParent(fs: F.FileSystem, ip: nat, ghost t0: seq<F.Incore>) returns (dir: bool)
    requires fs.Ready() && |fs.itable| == F.NINODE && DirsOk(fs.st)
    requires ip < F.NINODE == |t0| && OneMore(t0, fs.itable, ip) && Safe(fs.itable, fs.st, ip)
             && InUse(fs.st, fs.itable[ip].inum)
    modifies fs
    ensures fs.Ready() && |fs.itable| == F.NINODE == |old(fs.itable)| && fs.st == old(fs.st) && fs.disk == old(fs.disk)
    ensures dir <==> P.IsDir(TreeOf(fs.st), old(fs.itable)[ip].inum)
    ensures dir ==> OneMore(t0, fs.itable, ip) && fs.itable[ip].inum == old(fs.itable)[ip].inum
    ensures !dir ==> NoMore(t0, fs.itable)
  {
    hide Good;
    hide F.TableOk;
    hide FsDisk.Holds;
    hide FsDisk.SuperIs;
    hide OneMore;
    hide NoMore;
    ghost var a := fs.itable;
    var ok := fs.Ilock(ip);
    Reloaded(t0, a, fs.itable, fs.st, ip);
    DirIs(fs.st, fs.itable[ip].inum);
    dir := fs.itable[ip].di.typ == T_DIR;
    if !dir { GiveBack(fs, ip, t0); }
  }

  /** namex, and with it namei and nameiparent: the inode answered is the one that
      resolving the path in the tree leads to, held in a slot by one reference
      more; no other reference is left, and no file is touched. `cwd` is the
      slot of the working directory; NINODE stands for none. */
  method Walk(fs: F.FileSystem, path: string, wantparent: bool, cwd: nat) returns (r: Found, name: string)
    requires fs.Ready() && |fs.itable| == F.NINODE && DirsOk(fs.st) && ByteString(path)
    requires Starts(fs.itable, fs.st, path, cwd)
    modifies fs
    ensures fs.Ready() && |fs.itable| == F.NINODE == |old(fs.itable)| && fs.st == old(fs.st) && fs.disk == old(fs.disk)
    ensures r.Full? ==> NoSlot(fs.itable) && exists s: nat :: OneMore(old(fs.itable), fs.itable, s)
    ensures r.Nothing? ==> NoMore(old(fs.itable), fs.itable)
    ensures r.At? ==> r.s < F.NINODE && OneMore(old(fs.itable), fs.itable, r.s)
    ensures var names, t, start := P.Split(path), TreeOf(fs.st), StartOf(old(fs.itable), path, cwd);
            if !wantparent then
              var x := P.Resolve(t, start, names);
              && (r.At? ==> path != "" && x != 0 && fs.itable[r.s].inum == x)
              && (r.Nothing? ==> path == "" || x == 0)
            else
              var x := if names == [] then 0 else P.Resolve(t, start, names[..|names| - 1]);
              && (r.At? ==>
                   names != [] && x != 0 && fs.itable[r.s].inum == x && P.IsDir(t, x) && name == names[|names| - 1])
              && (r.Nothing? ==> path == "" || names == [] || x == 0 || !P.IsDir(t, x))
  {
    hide Good;
    hide F.TableOk;
    hide FsDisk.Holds;
    hide FsDisk.SuperIs;
    hide OneMore;
    hide NoMore;
    hide NoSlot;
    hide Safe;
    hide P.Resolve;
    hide P.Split;
    hide TreeOf;
    hide Next;
    hide DirsOk;
    hide Stage;
    hide StartOf;
    hide Fine;
    hide ByteString;
    name := "";
    ghost var st, t0 := fs.st, fs.itable;
    NoMoreRefl(t0);
    if path == "" { return Nothing, name; }
    var ip: nat := Begin(fs, path, cwd);
    if ip == F.NINODE { return Full, name; }
    SplitFine(path);
    ghost var start, all := fs.itable[ip].inum, P.Split(path);
    StageFirst(st, start, all);
    var p := path;
    while true
      invariant fs.Ready() && |fs.itable| == F.NINODE && fs.st == st && fs.disk == old(fs.disk) && DirsOk(st)
      invariant ip < F.NINODE && OneMore(t0, fs.itable, ip) && Safe(fs.itable, st, ip)
      invariant 0 < fs.itable[ip].inum && InUse(st, fs.itable[ip].inum)
      invariant Stage(st, start, all, fs.itable[ip].inum, P.Split(p)) && AllFine(P.Split(p))
      invariant wantparent && all != [] ==> P.Split(p) != []
      decreases |p|
    {
      var rest, n := P.Skipelem(p);
      ghost var i, names := fs.itable[ip].inum, P.Split(p);
      if rest.None? {
        StageDone(st, start, all, i);
        break;
      }
      assert names[0] == n && names[1..] == P.Split(rest.value);
      name := n;
      if wantparent && rest.value == "" {
        NoneSplit();
        assert names == [n] + names[1..] == [n];
        StageLast(st, start, all, i, n);
        var dir := AtParent(fs, ip, t0);
        return if dir then At(ip) else Nothing, name;
      }
      if rest.value != "" { P.SplitSome(rest.value); } else { NoneSplit(); }
      StageNext(st, start, all, i, names);
      var next := Turn(fs, ip, n, t0);
      if !next.At? { return next, name; }
      ip := next.s;
      p := rest.value;
    }
    if wantparent {
      GiveBack(fs, ip, t0);
      return Nothing, name;
    }
    r := At(ip);
  }
}
