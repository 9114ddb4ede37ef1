/** getcwd_path over the disk: the climb from a directory to the root, with the
    references to the inodes it passes, against the path in the tree. */
module CwdDisk {
  import opened Common
  import opened Wrappers
  import opened Layout
  import opened FsState
  import FsDisk
  import F = FileSystem
  import D = Directory
  import P = Paths
  import N = Namex

  /** A name field without the spaces at its end. */
  function TrimBytes(raw: seq<byte>): seq<byte> {
    if raw != [] && raw[|raw| - 1] == 0x20 then TrimBytes(raw[..|raw| - 1]) else raw
  }

  lemma {:induction false} TrimStr(raw: seq<byte>)
    ensures N.Str(TrimBytes(raw)) == P.Trim(N.Str(raw))
  {
    if raw != [] {
      assert N.Str(raw)[|raw| - 1] == raw[|raw| - 1] as char;
      assert N.Str(raw)[..|raw| - 1] == N.Str(raw[..|raw| - 1]);
      TrimStr(raw[..|raw| - 1]);
    }
  }

  /** The loop that cuts the spaces. */
  method Cut(raw: seq<byte>) returns (name: seq<byte>)
    ensures N.Str(name) == P.CName(P.Trim(N.Str(raw))) && D.NoNul(name)
  {
    var len := |raw|;
    assert raw[..len] == raw;
    while len > 0 && raw[len - 1] == 0x20
      invariant len <= |raw| && TrimBytes(raw[..len]) == TrimBytes(raw)
    {
      assert raw[..len][..len - 1] == raw[..len - 1];
      len := len - 1;
    }
    TrimStr(raw);
    N.CNameStr(raw[..len]);
    D.CNameNoNul(raw[..len]);
    name := D.CName(raw[..len]);
  }

  /** dirfindname of a directory that is locked: the name of its first live entry
      for inode i. */
  method Dirfindname(fs: F.FileSystem, s: nat, i: nat) returns (r: Option<seq<byte>>)
    requires D.IsDir(fs, s)
    modifies fs
    ensures fs.st == old(fs.st) && fs.disk == old(fs.disk) && fs.itable == old(fs.itable) && D.IsDir(fs, s)
    ensures var ents := N.EntsOf(D.Bytes(fs, s)); var k := P.FindIdx(ents, i);
            if k < |ents| then r.Some? && N.Str(r.value) == P.CName(P.Trim(ents[k].name)) && D.NoNul(r.value)
              else r.None?
  {
    hide Own;
    hide Good;
    hide F.TableOk;
    hide FsDisk.Holds;
    hide FsDisk.SuperIs;
    hide D.IsDir;
    hide D.Bytes;
    hide D.EntAt;
    hide P.CName;
    hide P.Trim;
    ghost var c := D.Bytes(fs, s);
    ghost var ents := N.EntsOf(c);
    D.SizeOf(fs, s);
    var off := 0;
    while off + D.DESIZE <= fs.itable[s].di.size
      invariant fs.st == old(fs.st) && fs.disk == old(fs.disk) && fs.itable == old(fs.itable) && D.IsDir(fs, s)
                && D.Bytes(fs, s) == c
      invariant s < |fs.itable| && |c| == fs.itable[s].di.size && off % D.DESIZE == 0 && off <= |c|
      invariant P.FindIdx(ents, i) >= off / D.DESIZE
      decreases |c| - off
    {
      var de := D.ReadEnt(fs, s, off);
      assert ents[off / D.DESIZE] == P.Ent(de.inum, N.Str(de.name));
      if de.inum != 0 && de.inum == i {
        var name := Cut(de.name);
        return Some(name);
      }
      off := off + D.DESIZE;
    }
    r := None;
  }

  // ---- two references ----

  /** Every slot has the references it had, slot a one more and slot b one more. */
  predicate TwoMore(t: seq<F.Incore>, u: seq<F.Incore>, a: nat, b: nat) {
    |u| == |t| && forall r: nat {:trigger u[r]} | r < |t| ::
      && u[r].ref == t[r].ref + (if r == a then 1 else 0) + (if r == b then 1 else 0)
      && (t[r].ref > 0 ==> u[r].inum == t[r].inum)
  }

  lemma TwoHeld(t0: seq<F.Incore>, b: seq<F.Incore>, c: seq<F.Incore>, st: St, ip: nat, up: nat)
    requires N.OneMore(t0, b, ip) && N.OneMore(b, c, up) && N.Safe(b, st, ip) && N.Safe(c, st, up) && ip < |t0|
    ensures TwoMore(t0, c, ip, up) && N.Safe(c, st, ip) && c[ip].inum == b[ip].inum
  {
    forall r: nat | r < |t0|
      ensures c[r].ref == t0[r].ref + (if r == ip then 1 else 0) + (if r == up then 1 else 0)
              && (t0[r].ref > 0 ==> c[r].inum == t0[r].inum)
    {
      assert b[r].ref == t0[r].ref + (if r == ip then 1 else 0) && c[r].ref == b[r].ref + if r == up then 1 else 0;
    }
    assert c[ip].ref == c[ip].ref && b[ip].ref == b[ip].ref;
  }

  lemma TwoLoaded(t0: seq<F.Incore>, c: seq<F.Incore>, d: seq<F.Incore>, st: St, ip: nat, up: nat)
    requires TwoMore(t0, c, ip, up) && N.Safe(c, st, ip) && N.Safe(c, st, up)
    requires |d| == |c| && d == c[up := d[up]] && d[up].inum == c[up].inum && d[up].ref == c[up].ref
    ensures TwoMore(t0, d, ip, up) && N.Safe(d, st, ip) && N.Safe(d, st, up) && d[ip].inum == c[ip].inum
  {
    forall r: nat | r < |t0|
      ensures d[r].ref == t0[r].ref + (if r == ip then 1 else 0) + (if r == up then 1 else 0)
              && (t0[r].ref > 0 ==> d[r].inum == t0[r].inum)
    {
      assert c[r].ref == c[r].ref;
    }
  }

  /** One of the two is given up. */
  lemma OneLeft(t0: seq<F.Incore>, d: seq<F.Incore>, e: seq<F.Incore>, st: St, a: nat, b: nat)
    requires TwoMore(t0, d, a, b) && N.OneMore(e, d, a) && N.Safe(d, st, b) && b < |t0| && N.InUse(st, d[b].inum)
    ensures N.OneMore(t0, e, b) && N.Safe(e, st, b) && e[b].inum == d[b].inum
  {
    forall r: nat | r < |t0|
      ensures e[r].ref == t0[r].ref + (if r == b then 1 else 0) && (t0[r].ref > 0 ==> e[r].inum == t0[r].inum)
    {
      assert d[r].ref == e[r].ref + (if r == a then 1 else 0);
    }
    assert d[b].ref == e[b].ref + (if b == a then 1 else 0);
  }

  lemma Swapped(t0: seq<F.Incore>, d: seq<F.Incore>, a: nat, b: nat)
    requires TwoMore(t0, d, a, b)
    ensures TwoMore(t0, d, b, a)
  {
  }

  // ---- the climb ----

  /** A slot that holds a directory of the tree, loaded. */
  lemma DirSlot(fs: F.FileSystem, s: nat)
    requires fs.Ready() && F.Loaded(fs.itable, s) && N.DirsOk(fs.st) && N.InUse(fs.st, fs.itable[s].inum)
    requires fs.itable[s].di == fs.st.inodes[fs.itable[s].inum] && P.IsDir(N.TreeOf(fs.st), fs.itable[s].inum)
    ensures D.IsDir(fs, s) && D.Bytes(fs, s) == Contents(fs.st, fs.itable[s].inum) && D.Unique(D.Bytes(fs, s))
    ensures N.EntsOf(D.Bytes(fs, s)) == N.TreeOf(fs.st)[fs.itable[s].inum].ents
  {
    hide Good;
    hide Contents;
    hide D.Unique;
    hide F.TableOk;
    hide FsDisk.Holds;
    hide FsDisk.SuperIs;
    N.DirIs(fs.st, fs.itable[s].inum);
    assert N.DirAt(fs.st, fs.itable[s].inum);
    assert N.TreeOf(fs.st)[fs.itable[s].inum] == N.NodeAt(fs.st, fs.itable[s].inum);
  }

  /** What dirlookup answers for "..". */
  lemma ParentIs(st: St, w: P.Shape, i: nat, inum: nat)
    requires N.DirsOk(st) && P.TreeOk(N.TreeOf(st), w) && N.InUse(st, i) && P.IsDir(N.TreeOf(st), i) && i != ROOTINO
    requires st.inodes[i].size <= MAXFILE * BSIZE
    requires forall x: nat :: D.Binds(Contents(st, i), D.Short([0x2E, 0x2E]), x) <==> inum != 0 && x == inum
    ensures i in w.parent && inum == w.parent[i] && N.InUse(st, inum) && P.IsDir(N.TreeOf(st), inum)
  {
    hide Contents;
    hide D.Binds;
    hide D.Unique;
    hide P.TreeOk;
    hide P.FullPath;
    hide P.NameIn;
    P.FullAt(N.TreeOf(st), w, i);
    assert N.Raw("..") == [0x2E, 0x2E] by { assert N.Str(N.Raw("..")) == ".."; N.StrSame(N.Raw(".."), [0x2E, 0x2E]); }
    N.DirIs(st, i);
    N.NextIs(st, i, "..");
    assert N.Next(st, i, "..") == w.parent[i];
    assert D.Binds(Contents(st, i), N.Raw(".."), w.parent[i]);
    assert N.DirAt(st, i);
  }

  datatype Answer = Path(s: string) | Nothing | Full

  lemma Still(fs: F.FileSystem, s: nat)
    requires D.IsDir(fs, s)
    ensures fs.Ready()
  {
  }

  /** The parent of the directory in slot ip is looked up and held. */
  method HoldParent(fs: F.FileSystem, ip: nat, ghost t0: seq<F.Incore>, ghost w: P.Shape) returns (up: nat)
    requires fs.Ready() && |fs.itable| == F.NINODE && N.DirsOk(fs.st) && P.TreeOk(N.TreeOf(fs.st), w)
    requires ip < F.NINODE == |t0| && N.OneMore(t0, fs.itable, ip) && N.Safe(fs.itable, fs.st, ip)
    requires N.InUse(fs.st, fs.itable[ip].inum) && P.IsDir(N.TreeOf(fs.st), fs.itable[ip].inum)
    requires fs.itable[ip].inum != ROOTINO
    modifies fs
    ensures fs.Ready() && |fs.itable| == F.NINODE == |old(fs.itable)| && fs.st == old(fs.st) && fs.disk == old(fs.disk)
    ensures up <= F.NINODE && (up == F.NINODE ==> N.NoSlot(fs.itable))
    ensures up < F.NINODE ==>
              var i, t := old(fs.itable)[ip].inum, N.TreeOf(fs.st);
              && TwoMore(t0, fs.itable, ip, up) && N.Safe(fs.itable, fs.st, ip) && N.Safe(fs.itable, fs.st, up)
              && fs.itable[ip].inum == i && i in w.parent && fs.itable[up].inum == w.parent[i]
              && N.InUse(fs.st, w.parent[i]) && P.IsDir(t, w.parent[i])
  {
    hide Good;
    hide Contents;
    hide F.TableOk;
    hide FsDisk.Holds;
    hide FsDisk.SuperIs;
    hide D.Unique;
    hide D.Binds;
    hide D.IsDir;
    hide D.Bytes;
    hide N.NoSlot;
    hide N.OneMore;
    hide N.DirsOk;
    hide N.TreeOf;
    hide P.TreeOk;
    hide P.FullPath;
    hide P.NameIn;
    hide P.CName;
    hide P.Trim;
    hide TwoMore;
    ghost var st, a := fs.st, fs.itable;
    var ok := fs.Ilock(ip);
    ghost var i, b, t := fs.itable[ip].inum, fs.itable, N.TreeOf(st);
    N.Reloaded(t0, a, b, st, ip);
    DirSlot(fs, ip);
    var inum, off := D.Dirlookup(fs, ip, [0x2E, 0x2E]);
    Still(fs, ip);
    DirSlot(fs, ip);
    N.DirIs(st, i);
    DirSize(st, i);
    ParentIs(st, w, i, inum);
    up := N.Hold(fs, inum, fs.itable);
    if up < F.NINODE { TwoHeld(t0, b, fs.itable, st, ip, up); }
  }

  /** One step of the climb: the parent is held, and the name it has for the
      directory found. */
  method Parent(fs: F.FileSystem, ip: nat, ghost t0: seq<F.Incore>, ghost w: P.Shape) returns (up: nat, name: seq<byte>)
    requires fs.Ready() && |fs.itable| == F.NINODE && N.DirsOk(fs.st) && P.TreeOk(N.TreeOf(fs.st), w)
    requires ip < F.NINODE == |t0| && N.OneMore(t0, fs.itable, ip) && N.Safe(fs.itable, fs.st, ip)
    requires N.InUse(fs.st, fs.itable[ip].inum) && P.IsDir(N.TreeOf(fs.st), fs.itable[ip].inum)
    requires fs.itable[ip].inum != ROOTINO
    modifies fs
    ensures fs.Ready() && |fs.itable| == F.NINODE == |old(fs.itable)| && fs.st == old(fs.st) && fs.disk == old(fs.disk)
    ensures up <= F.NINODE && (up == F.NINODE ==> N.NoSlot(fs.itable))
    ensures up < F.NINODE ==>
              var i, t := old(fs.itable)[ip].inum, N.TreeOf(fs.st);
              && TwoMore(t0, fs.itable, ip, up) && N.Safe(fs.itable, fs.st, ip) && N.Safe(fs.itable, fs.st, up)
              && fs.itable[ip].inum == i && i in w.parent && fs.itable[up].inum == w.parent[i]
              && N.InUse(fs.st, w.parent[i]) && P.IsDir(t, w.parent[i])
              && N.Str(name) == P.NameIn(t, w, i) && D.NoNul(name)
  {
    hide Good;
    hide Contents;
    hide F.TableOk;
    hide FsDisk.Holds;
    hide FsDisk.SuperIs;
    hide D.Unique;
    hide D.Binds;
    hide D.IsDir;
    hide D.Bytes;
    hide N.NoSlot;
    hide N.OneMore;
    hide N.DirsOk;
    hide N.TreeOf;
    hide P.TreeOk;
    hide P.FullPath;
    hide P.NameIn;
    hide P.CName;
    hide P.Trim;
    hide TwoMore;
    name := [];
    var i := fs.itable[ip].inum;
    P.FullAt(N.TreeOf(fs.st), w, i);
    up := HoldParent(fs, ip, t0, w);
    if up == F.NINODE { return; }
    ghost var st, c := fs.st, fs.itable;
    var ok := fs.Ilock(up);
    TwoLoaded(t0, c, fs.itable, st, ip, up);
    DirSlot(fs, up);
    var found := Dirfindname(fs, up, i);
    Still(fs, up);
    DirSlot(fs, up);
    if found.None? { assert false; } else { name := found.value; }
  }

  lemma DirSize(st: St, i: nat)
    requires N.DirsOk(st) && N.InUse(st, i) && st.inodes[i].typ == T_DIR
    ensures st.inodes[i].size <= MAXFILE * BSIZE
  {
    hide Contents;
    hide D.Unique;
    assert N.DirAt(st, i);
  }

  lemma NoBytes()
    ensures N.ByteString("")
  {
  }

  lemma JoinBytes(name: seq<byte>, path: string)
    requires D.NoNul(name) && N.ByteString(path)
    ensures N.ByteString(N.Str(name) + "/" + path) && N.ByteString("/" + path)
  {
  }

  /** getcwd_path: the climb ends; its answer is the path of the directory in the
      tree, and there is none exactly where it does not fit; every reference it
      took is given back, and no file is touched. Full stands for the panic of iget. */
  method Getcwd(fs: F.FileSystem, cwd: nat, max: int, ghost w: P.Shape) returns (r: Answer)
    requires fs.Ready() && |fs.itable| == F.NINODE && N.DirsOk(fs.st) && P.TreeOk(N.TreeOf(fs.st), w)
    requires cwd < F.NINODE && fs.itable[cwd].ref > 0 && fs.itable[cwd].inum < |fs.st.inodes|
    requires N.InUse(fs.st, fs.itable[cwd].inum) && P.IsDir(N.TreeOf(fs.st), fs.itable[cwd].inum)
    modifies fs
    ensures fs.Ready() && |fs.itable| == F.NINODE == |old(fs.itable)| && fs.st == old(fs.st) && fs.disk == old(fs.disk)
    ensures !r.Full? ==> N.NoMore(old(fs.itable), fs.itable)
    ensures r.Full? ==> N.NoSlot(fs.itable)
    ensures var full := P.FullPath(N.TreeOf(fs.st), w, old(fs.itable)[cwd].inum);
            && (r.Path? ==> N.ByteString(r.s) && r.s == "/" + full && |full| + 2 <= max && |full| < P.MAXPATH)
            && (r.Nothing? ==> |full| + 2 > max || |full| >= P.MAXPATH)
  {
    hide Good;
    hide F.TableOk;
    hide FsDisk.Holds;
    hide FsDisk.SuperIs;
    hide N.NoSlot;
    hide N.OneMore;
    hide N.NoMore;
    hide N.DirsOk;
    hide N.TreeOf;
    hide N.InUse;
    hide N.Safe;
    hide P.TreeOk;
    hide P.IsDir;
    hide P.FullPath;
    hide P.NameIn;
    hide P.DepthOf;
    hide TwoMore;
    hide N.ByteString;
    NoBytes();
    ghost var st, t0, t := fs.st, fs.itable, N.TreeOf(fs.st);
    N.NoMoreRefl(t0);
    if max < 2 { return Nothing; }
    N.Idup(fs, cwd);
    var ip: nat, path := cwd, "";
    ghost var at := fs.itable[cwd].inum;
    while true
      invariant fs.Ready() && |fs.itable| == F.NINODE && fs.st == st && fs.disk == old(fs.disk)
      invariant ip < F.NINODE && N.OneMore(t0, fs.itable, ip) && N.Safe(fs.itable, st, ip)
      invariant fs.itable[ip].inum == at && N.InUse(st, at) && P.IsDir(t, at)
      invariant P.FullPath(t, w, t0[cwd].inum) == P.FullPath(t, w, at) + path && |path| < P.MAXPATH
                && N.ByteString(path)
      decreases P.DepthOf(t, w, at)
    {
      P.FullAt(t, w, at);
      if fs.itable[ip].inum == ROOTINO {
        JoinBytes([], path);
        N.GiveBack(fs, ip, t0);
        return if |path| + 2 > max then Nothing else Path("/" + path);
      }
      var up, name := Parent(fs, ip, t0, w);
      if up == F.NINODE { return Full; }
      P.FullAt(t, w, w.parent[at]);
      if |path| + |name| + 2 > P.MAXPATH {
        LetBoth(fs, ip, up, t0);
        return Nothing;
      }
      JoinBytes(name, path);
      assert P.FullPath(t, w, w.parent[at]) + (N.Str(name) + "/" + path) == P.FullPath(t, w, at) + path;
      path := N.Str(name) + "/" + path;
      ghost var d := fs.itable;
      N.LetGo(fs, ip);
      OneLeft(t0, d, fs.itable, st, ip, up);
      at := w.parent[at];
      ip := up;
    }
  }

  /** iput of parent and child where the path is too long. */
  method LetBoth(fs: F.FileSystem, ip: nat, up: nat, ghost t0: seq<F.Incore>)
    requires fs.Ready() && |fs.itable| == F.NINODE == |t0| && ip < F.NINODE && up < F.NINODE
             && TwoMore(t0, fs.itable, ip, up)
    requires N.Safe(fs.itable, fs.st, ip) && N.Safe(fs.itable, fs.st, up) && N.InUse(fs.st, fs.itable[ip].inum)
    modifies fs
    ensures fs.Ready() && |fs.itable| == F.NINODE && fs.st == old(fs.st) && fs.disk == old(fs.disk)
            && N.NoMore(t0, fs.itable)
  {
    hide Good;
    hide F.TableOk;
    hide FsDisk.Holds;
    hide FsDisk.SuperIs;
    hide N.OneMore;
    hide TwoMore;
    ghost var d := fs.itable;
    Swapped(t0, d, ip, up);
    N.LetGo(fs, up);
    OneLeft(t0, d, fs.itable, fs.st, up, ip);
    N.GiveBack(fs, ip, t0);
  }

  lemma NotZero(t: P.Tree, w: P.Shape, d: nat)
    requires P.TreeOk(t, w) && P.IsDir(t, d)
    ensures d != 0
  {
    assert P.DirOk(t, w, d);
  }

  /** namei of what getcwd_path answers is the directory, if and only if no name
      field on the way up ends in a space. */
  method ThereAndBack(fs: F.FileSystem, cwd: nat, max: int, ghost w: P.Shape) returns (r: Answer, back: N.Found)
    requires fs.Ready() && |fs.itable| == F.NINODE && N.DirsOk(fs.st) && P.TreeOk(N.TreeOf(fs.st), w)
    requires cwd < F.NINODE && fs.itable[cwd].ref > 0 && fs.itable[cwd].inum < |fs.st.inodes|
    requires N.InUse(fs.st, fs.itable[cwd].inum) && P.IsDir(N.TreeOf(fs.st), fs.itable[cwd].inum)
    modifies fs
    ensures fs.st == old(fs.st) && |fs.itable| == F.NINODE == |old(fs.itable)|
    ensures r.Path? && !back.Full? ==>
              ((back.At? && back.s < F.NINODE && fs.itable[back.s].inum == old(fs.itable)[cwd].inum)
               <==> P.Plain(N.TreeOf(fs.st), w, old(fs.itable)[cwd].inum))
  {
    hide Good;
    hide F.TableOk;
    hide FsDisk.Holds;
    hide FsDisk.SuperIs;
    hide N.DirsOk;
    hide N.TreeOf;
    hide N.NoMore;
    hide N.NoSlot;
    hide N.OneMore;
    hide P.TreeOk;
    hide P.FullPath;
    hide P.Plain;
    hide P.Resolve;
    hide P.Split;
    ghost var i := fs.itable[cwd].inum;
    back := N.Nothing;
    r := Getcwd(fs, cwd, max, w);
    if r.Path? {
      P.RoundTripIff(N.TreeOf(fs.st), w, i);
      NotZero(N.TreeOf(fs.st), w, i);
      ghost var name;
      back, name := N.Walk(fs, r.s, false, F.NINODE);
    }
  }
}
