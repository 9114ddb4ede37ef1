/** Path names: skipelem, namex, dirfindname and getcwd_path over a tree of
    directories. */
module Paths {
  import opened Common
  import opened Wrappers

  const MAXPATH: nat := 128

  /** A directory entry; the name field has fourteen characters, NUL-padded. */
  datatype Ent = Ent(inum: nat, name: string)

  datatype Node = File | Dir(ents: seq<Ent>)

  type Tree = map<nat, Node>

  function CName(raw: string): (r: string)
    ensures |r| <= |raw|
  {
    if raw == "" || raw[0] == '\0' then "" else [raw[0]] + CName(raw[1..])
  }

  /** dirlookup. */
  function Lookup(ents: seq<Ent>, name: string): nat {
    if ents == [] then 0
    else if ents[0].inum != 0 && CName(ents[0].name) == name then ents[0].inum
    else Lookup(ents[1..], name)
  }

  predicate IsDir(t: Tree, i: nat) { i in t && t[i].Dir? }

  // ---- splitting a path ----

  predicate NoSlash(s: string) { forall i: nat | i < |s| :: s[i] != '/' }

  function Short(name: string): string { if |name| >= DIRSIZ then name[..DIRSIZ] else name }

  /** The length of the first element. */
  function ElemLen(p: string): (n: nat)
    ensures n <= |p| && NoSlash(p[..n]) && (n < |p| ==> p[n] == '/')
  {
    if p == "" || p[0] == '/' then 0
    else
      var n := 1 + ElemLen(p[1..]);
      assert p[..n] == [p[0]] + p[1..][..n - 1];
      n
  }

  /** The elements of a path: the non-empty pieces between slashes, each cut to
      fourteen characters. */
  function Split(p: string): seq<string>
    decreases |p|
  {
    if p == "" then []
    else if p[0] == '/' then Split(p[1..])
    else [Short(p[..ElemLen(p)])] + Split(p[ElemLen(p)..])
  }

  predicate Slashes(path: string, from: nat, to: nat) {
    from <= to <= |path| && forall k: nat | from <= k < to :: path[k] == '/'
  }

  /** The first element is path[s..e]; its first fourteen characters, or all of them,
      are `name`, and `rest` is what follows it past the slashes. */
  predicate Element(path: string, s: nat, e: nat, name: string, rest: string) {
    && Slashes(path, 0, s) && s < e <= |path|
    && (forall k: nat | s <= k < e :: path[k] != '/') && (e < |path| ==> path[e] == '/')
    && |name| == Min(14, e - s) && name <= path[s..e]
    && e + |rest| <= |path| && rest == path[|path| - |rest|..] && Slashes(path, e, |path| - |rest|)
  }

  method SkipSlashes(path: string, from: nat) returns (i: nat)
    requires from <= |path|
    ensures from <= i <= |path| && (i < |path| ==> path[i] != '/') && Split(path[from..]) == Split(path[i..])
    ensures Slashes(path, from, i)
  {
    i := from;
    while i < |path| && path[i] == '/'
      invariant from <= i <= |path| && Split(path[from..]) == Split(path[i..]) && Slashes(path, from, i)
    {
      assert path[i..][1..] == path[i + 1..];
      i := i + 1;
    }
  }

  method ScanElem(path: string, s: nat) returns (i: nat)
    requires s <= |path|
    ensures i == s + ElemLen(path[s..]) && s <= i <= |path|
  {
    i := s;
    while i < |path| && path[i] != '/'
      invariant s <= i <= |path| && ElemLen(path[s..]) == i - s + ElemLen(path[i..])
    {
      StepElem(path, s, i);
      i := i + 1;
    }
  }

  /** skipelem: the first element and what follows it, past its slashes. */
  method Skipelem(path: string) returns (r: Option<string>, name: string)
    ensures r.None? ==> Split(path) == []
    ensures r.Some? ==>
              Split(path) == [name] + Split(r.value) && |r.value| < |path| && (r.value != "" ==> r.value[0] != '/')
    ensures r.None? ==> Slashes(path, 0, |path|)
    ensures r.Some? ==> exists s: nat, e: nat :: Element(path, s, e, name, r.value)
  {
    hide Split;
    hide ElemLen;
    hide Short;
    var s := SkipSlashes(path, 0);
    assert path[0..] == path;
    if s == |path| {
      NoneLeft(path, s);
      return None, "";
    }
    var e := ScanElem(path, s);
    FirstElem(path, s);
    ElemIs(path, s);
    name := Short(path[s..e]);
    ShortIs(path[s..e]);
    var i := SkipSlashes(path, e);
    r := Some(path[i..]);
    assert Element(path, s, e, name, path[i..]);
  }

  lemma ElemIs(path: string, s: nat)
    requires s <= |path|
    ensures var e := s + ElemLen(path[s..]);
            e <= |path| && (forall k: nat | s <= k < e :: path[k] != '/') && (e < |path| ==> path[e] == '/')
  {
    var n := ElemLen(path[s..]);
    forall k: nat | s <= k < s + n ensures path[k] != '/' { assert path[s..][..n][k - s] != '/'; }
  }

  lemma ShortIs(name: string)
    ensures Short(name) <= name && |Short(name)| == Min(14, |name|)
  {
  }

  lemma NoneLeft(path: string, s: nat)
    requires s == |path|
    ensures Split(path[s..]) == []
  {
  }

  lemma FirstElem(path: string, s: nat)
    requires s < |path| && path[s] != '/'
    ensures var e :=
              s + ElemLen(path[s..]); s < e <= |path| && Split(path[s..]) == [Short(path[s..e])] + Split(path[e..])
  {
    var e := s + ElemLen(path[s..]);
    assert path[s..][..e - s] == path[s..e] && path[s..][e - s..] == path[e..];
  }

  lemma StepElem(path: string, s: nat, i: nat)
    requires s <= i < |path| && path[i] != '/' && ElemLen(path[s..]) == i - s + ElemLen(path[i..])
    ensures ElemLen(path[s..]) == i + 1 - s + ElemLen(path[i + 1..])
  {
    assert path[i..][1..] == path[i + 1..];
  }

  // ---- resolving ----

  /** Following names from a directory; every step must start at a directory. */
  function Resolve(t: Tree, from: nat, names: seq<string>): nat
    decreases |names|
  {
    if names == [] then from
    else if !IsDir(t, from) then 0
    else
      var next := Lookup(t[from].ents, names[0]);
      if next == 0 then 0 else Resolve(t, next, names[1..])
  }

  function Start(path: string, cwd: nat): nat { if path != "" && path[0] == '/' then ROOTINO else cwd }

  /** namei: the fold of dirlookup over the elements of the path. */
  method Namei(t: Tree, cwd: nat, path: string) returns (r: nat)
    requires cwd != 0
    ensures r == if path == "" then 0 else Resolve(t, Start(path, cwd), Split(path))
  {
    if path == "" { return 0; }
    var ip: nat := if path[0] == '/' then ROOTINO else cwd;
    var p := path;
    while true
      invariant ip != 0 && Resolve(t, Start(path, cwd), Split(path)) == Resolve(t, ip, Split(p))
      decreases |p|
    {
      var rest, name := Skipelem(p);
      if rest.None? { break; }
      ghost var names := Split(p);
      assert names[1..] == Split(rest.value);
      if !IsDir(t, ip) { return 0; }
      var next := Lookup(t[ip].ents, name);
      if next == 0 { return 0; }
      ip := next;
      p := rest.value;
    }
    return ip;
  }

  /** nameiparent: the directory that would hold the last element, and its name. */
  method NameiParent(t: Tree, cwd: nat, path: string) returns (r: nat, name: string)
    requires cwd != 0
    ensures var names := Split(path);
            if path == "" || names == [] then r == 0
            else
              var d := Resolve(t, Start(path, cwd), names[..|names| - 1]);
              && r == (if d != 0 && IsDir(t, d) then d else 0)
              && (r != 0 ==> name == names[|names| - 1])
  {
    hide Element;
    hide ElemLen;
    hide Short;
    name := "";
    if path == "" { return 0, ""; }
    var ip: nat := if path[0] == '/' then ROOTINO else cwd;
    var p := path;
    ghost var all := Split(path);
    while true
      invariant ip != 0 && |Split(p)| <= |all| && (all != [] ==> Split(p) != [])
      invariant all == [] ==> Split(p) == []
      invariant all != [] ==>
                  Resolve(t, Start(path, cwd), all[..|all| - 1]) == Resolve(t, ip, Split(p)[..|Split(p)| - 1])
      invariant all != [] ==> Split(p)[|Split(p)| - 1] == all[|all| - 1]
      decreases |p|
    {
      var rest, n := Skipelem(p);
      if rest.None? { break; }
      ghost var names := Split(p);
      assert names[1..] == Split(rest.value) && names[0] == n;
      name := n;
      if !IsDir(t, ip) {
        if |names| > 1 { assert names[..|names| - 1][0] == names[0]; } else { assert names[..|names| - 1] == []; }
        return 0, "";
      }
      if rest.value == "" {
        assert names[..|names| - 1] == [];
        return ip, name;
      }
      SplitSome(rest.value);
      assert names[..|names| - 1][1..] == names[1..][..|names[1..]| - 1];
      var next := Lookup(t[ip].ents, name);
      if next == 0 { return 0, ""; }
      ip := next;
      p := rest.value;
    }
    return 0, "";
  }

  lemma SplitSome(p: string)
    requires p != "" && p[0] != '/'
    ensures Split(p) != []
  {
  }

  // ---- the tree of directories ----

  /** The parent of each directory and how far it is from the root. */
  datatype Shape = Shape(parent: map<nat, nat>, depth: map<nat, nat>)

  predicate LiveAt(ents: seq<Ent>, k: nat) { k < |ents| && ents[k].inum != 0 }

  predicate Distinct(ents: seq<Ent>, j: nat, k: nat) {
    j != k && LiveAt(ents, j) && LiveAt(ents, k) ==> CName(ents[j].name) != CName(ents[k].name)
  }

  predicate Padded(raw: string) {
    forall i: nat, j: nat {:trigger raw[i], raw[j]} | i < j < |raw| && raw[i] == '\0' :: raw[j] == '\0'
  }

  /** No other entry names the directory that entry k names. */
  ghost predicate NamedOnce(t: Tree, d: nat, k: nat)
    requires IsDir(t, d)
  {
    var ents := t[d].ents;
    k >= 2 && LiveAt(ents, k) && IsDir(t, ents[k].inum) ==>
      forall j: nat {:trigger LiveAt(ents, j)} | 2 <= j && LiveAt(ents, j) && ents[j].inum == ents[k].inum :: j == k
  }

  /** An entry other than "." and "..": a proper name, and if it names a directory,
      then one whose parent this is. */
  predicate EntryOk(t: Tree, w: Shape, d: nat, k: nat)
    requires IsDir(t, d)
  {
    var ents := t[d].ents;
    k >= 2 && LiveAt(ents, k) ==>
      && |ents[k].name| == DIRSIZ && Padded(ents[k].name) && CName(ents[k].name) != "" && NoSlash(CName(ents[k].name))
      && (IsDir(t, ents[k].inum) ==> ents[k].inum != ROOTINO && ents[k].inum in w.parent && w.parent[ents[k].inum] == d)
  }

  ghost predicate DirOk(t: Tree, w: Shape, d: nat)
    requires IsDir(t, d)
  {
    var ents := t[d].ents;
    && d != 0 && d in w.parent && d in w.depth && |ents| >= 2
    && IsDir(t, w.parent[d]) && w.parent[d] in w.depth
    && ents[0].inum == d && CName(ents[0].name) == "."
    && ents[1].inum == w.parent[d] && CName(ents[1].name) == ".."
    && (if d == ROOTINO then w.parent[d] == d && w.depth[d] == 0 else w.depth[d] == w.depth[w.parent[d]] + 1)
    && (forall j: nat, k: nat {:trigger Distinct(ents, j, k)} :: Distinct(ents, j, k))
    && (forall k: nat {:trigger EntryOk(t, w, d, k)} :: EntryOk(t, w, d, k))
    && (forall k: nat {:trigger NamedOnce(t, d, k)} :: NamedOnce(t, d, k))
    && (d != ROOTINO ==> var k := FindIdx(t[w.parent[d]].ents, d); k < |t[w.parent[d]].ents|)
  }

  ghost predicate TreeOk(t: Tree, w: Shape) {
    && IsDir(t, ROOTINO)
    && forall d: nat {:trigger DirOk(t, w, d)} | IsDir(t, d) :: DirOk(t, w, d)
  }

  /** The first live entry that names inum, or the number of entries. */
  function FindIdx(ents: seq<Ent>, inum: nat): (k: nat)
    ensures k <= |ents|
    ensures k < |ents| ==> ents[k].inum == inum && inum != 0
    ensures forall j: nat | j < k :: !(ents[j].inum != 0 && ents[j].inum == inum)
  {
    if ents == [] then 0
    else if ents[0].inum != 0 && ents[0].inum == inum then 0
    else
      var k := FindIdx(ents[1..], inum);
      assert forall j: nat | 0 < j < k + 1 :: ents[j] == ents[1..][j - 1];
      k + 1
  }

  /** The name field without the spaces at its end. */
  function Trim(raw: string): string {
    if raw != "" && raw[|raw| - 1] == ' ' then Trim(raw[..|raw| - 1]) else raw
  }

  /** dirfindname: the trimmed name of the first live entry for inum. */
  method Dirfindname(ents: seq<Ent>, inum: nat) returns (r: Option<string>)
    requires forall k: nat | k < |ents| :: |ents[k].name| == DIRSIZ
    ensures var k := FindIdx(ents, inum);
            r == if k < |ents| then Some(CName(Trim(ents[k].name))) else None
  {
    var off := 0;
    while off < |ents|
      invariant off <= |ents| && FindIdx(ents, inum) == off + FindIdx(ents[off..], inum)
    {
      var de := ents[off];
      assert ents[off..][1..] == ents[off + 1..];
      if de.inum != 0 && de.inum == inum {
        var len: nat := DIRSIZ;
        assert |de.name| == DIRSIZ && de.name[..DIRSIZ] == de.name;
        while len > 0 && de.name[len - 1] == ' '
          invariant len <= DIRSIZ && Trim(de.name) == Trim(de.name[..len])
        {
          assert de.name[..len][..len - 1] == de.name[..len - 1];
          len := len - 1;
        }
        return Some(CName(de.name[..len]));
      }
      off := off + 1;
    }
    assert ents[off..] == [];
    r := None;
  }

  /** The name that dirfindname gives to a directory other than the root. */
  ghost function NameIn(t: Tree, w: Shape, d: nat): string
    requires TreeOk(t, w) && IsDir(t, d) && d != ROOTINO
  {
    assert DirOk(t, w, d);
    var ents := t[w.parent[d]].ents;
    CName(Trim(ents[FindIdx(ents, d)].name))
  }

  /** What the climb from d builds: each name with a slash after it. */
  ghost function FullPath(t: Tree, w: Shape, d: nat): string
    requires TreeOk(t, w) && IsDir(t, d)
    decreases DepthOf(t, w, d)
  {
    assert DirOk(t, w, d);
    if d == ROOTINO then "" else FullPath(t, w, w.parent[d]) + NameIn(t, w, d) + "/"
  }

  ghost function DepthOf(t: Tree, w: Shape, d: nat): nat
    requires TreeOk(t, w) && IsDir(t, d)
  {
    assert DirOk(t, w, d);
    w.depth[d]
  }

  lemma DotDot(t: Tree, w: Shape, d: nat)
    requires TreeOk(t, w) && IsDir(t, d)
    ensures d in w.parent && IsDir(t, w.parent[d]) && Lookup(t[d].ents, "..") == w.parent[d] != 0
    ensures d != ROOTINO ==> DepthOf(t, w, w.parent[d]) < DepthOf(t, w, d)
  {
    assert DirOk(t, w, d) && DirOk(t, w, w.parent[d]);
    var ents := t[d].ents;
    assert ents[1..][0] == ents[1];
    assert Lookup(ents, "..") == Lookup(ents[1..], "..");
  }

  /** One step of the climb. */
  lemma FullAt(t: Tree, w: Shape, d: nat)
    requires TreeOk(t, w) && IsDir(t, d)
    ensures d == ROOTINO ==> FullPath(t, w, d) == ""
    ensures d != ROOTINO ==>
              && d in w.parent && IsDir(t, w.parent[d]) && Lookup(t[d].ents, "..") == w.parent[d] != 0
              && DepthOf(t, w, w.parent[d]) < DepthOf(t, w, d)
              && FullPath(t, w, d) == FullPath(t, w, w.parent[d]) + NameIn(t, w, d) + "/"
              && FindIdx(t[w.parent[d]].ents, d) < |t[w.parent[d]].ents|
              && NameIn(t, w, d) == CName(Trim(t[w.parent[d]].ents[FindIdx(t[w.parent[d]].ents, d)].name))
  {
    DotDot(t, w, d);
    if d != ROOTINO { NamedInParent(t, w, d); }
  }

  /** getcwd_path: the climb ends, after as many steps as the directory is deep;
      the answer is the path of the directory, and there is none only where it
      does not fit. */
  method Getcwd(t: Tree, cwd: nat, max: int, ghost w: Shape) returns (r: Option<string>)
    requires TreeOk(t, w) && IsDir(t, cwd)
    requires forall d: nat, k: nat | IsDir(t, d) && k < |t[d].ents| :: |t[d].ents[k].name| == DIRSIZ
    ensures r.Some? ==> r.value == "/" + FullPath(t, w, cwd)
    ensures r.Some? <==> |FullPath(t, w, cwd)| + 2 <= max && |FullPath(t, w, cwd)| < MAXPATH
  {
    hide TreeOk;
    hide FullPath;
    hide DepthOf;
    hide Lookup;
    hide NameIn;
    FullAt(t, w, cwd);
    if max < 2 { return None; }
    var path := "";
    var ip := cwd;
    while true
      invariant IsDir(t, ip) && FullPath(t, w, cwd) == FullPath(t, w, ip) + path && |path| < MAXPATH
      decreases DepthOf(t, w, ip)
    {
      FullAt(t, w, ip);
      if ip == ROOTINO {
        if |path| + 2 > max { return None; }
        return Some("/" + path);
      }
      var parent := Lookup(t[ip].ents, "..");
      if parent == 0 { assert false; return None; }
      var name := Dirfindname(t[parent].ents, ip);
      if name.None? { assert false; return None; }
      if |path| + |name.value| + 2 > MAXPATH { return None; }
      path := name.value + "/" + path;
      ip := parent;
    }
  }

  lemma NamedInParent(t: Tree, w: Shape, d: nat)
    requires TreeOk(t, w) && IsDir(t, d) && d != ROOTINO
    ensures d in w.parent && IsDir(t, w.parent[d]) && FindIdx(t[w.parent[d]].ents, d) < |t[w.parent[d]].ents|
  {
    assert DirOk(t, w, d);
  }

  // ---- the round trip ----

  /** No name on the way up has a space in its last place. */
  ghost predicate Plain(t: Tree, w: Shape, d: nat)
    requires TreeOk(t, w) && IsDir(t, d)
    decreases DepthOf(t, w, d)
  {
    DotDot(t, w, d);
    NamedOr(t, w, d);
    d == ROOTINO ||
    (var ents := t[w.parent[d]].ents;
     var raw := ents[FindIdx(ents, d)].name;
     |raw| == DIRSIZ && raw[DIRSIZ - 1] != ' ' && Plain(t, w, w.parent[d]))
  }

  lemma NamedOr(t: Tree, w: Shape, d: nat)
    requires TreeOk(t, w) && IsDir(t, d)
    ensures d != ROOTINO ==>
              d in w.parent && IsDir(t, w.parent[d]) && FindIdx(t[w.parent[d]].ents, d) < |t[w.parent[d]].ents|
  {
    if d != ROOTINO { NamedInParent(t, w, d); }
  }

  lemma {:induction false} SplitAppend(p: string, q: string)
    requires p == "" || p[|p| - 1] == '/'
    ensures Split(p + q) == Split(p) + Split(q)
    decreases |p|
  {
    if p == "" {
      assert p + q == q;
    } else if p[0] == '/' {
      assert (p + q)[1..] == p[1..] + q;
      SplitAppend(p[1..], q);
    } else {
      var n := ElemLen(p);
      ElemAppend(p, q);
      assert (p + q)[..n] == p[..n] && (p + q)[n..] == p[n..] + q;
      SplitAppend(p[n..], q);
    }
  }

  lemma {:induction false} ElemAppend(p: string, q: string)
    requires p != "" && p[|p| - 1] == '/'
    ensures ElemLen(p + q) == ElemLen(p) < |p| && p[ElemLen(p)..][|p| - ElemLen(p) - 1] == '/'
  {
    if p[0] != '/' {
      assert (p + q)[1..] == p[1..] + q;
      ElemAppend(p[1..], q);
    }
  }

  lemma {:induction false} ElemOne(name: string)
    requires NoSlash(name)
    ensures ElemLen(name + "/") == |name|
  {
    if name != "" {
      assert (name + "/")[1..] == name[1..] + "/";
      ElemOne(name[1..]);
    }
  }

  lemma SlashOnly()
    ensures Split("/") == []
  {
    assert "/"[1..] == "";
  }

  lemma SplitOne(name: string)
    requires name != "" && NoSlash(name) && |name| <= DIRSIZ
    ensures Split(name + "/") == [name]
  {
    hide Split;
    hide ElemLen;
    var p := name + "/";
    ElemOne(name);
    FirstElem(p, 0);
    assert |name| == DIRSIZ ==> name[..DIRSIZ] == name;
    assert p[0..] == p && ElemLen(p[0..]) == |name| && p[0..|name|] == name && p[|name|..] == "/";
    SlashOnly();
  }

  lemma {:induction false} ResolveAppend(t: Tree, from: nat, a: seq<string>, b: seq<string>)
    requires from != 0
    ensures Resolve(t, from, a + b) == if Resolve(t, from, a) == 0 then 0 else Resolve(t, Resolve(t, from, a), b)
    decreases |a|
  {
    if a == [] {
      assert a + b == b;
    } else if IsDir(t, from) && Lookup(t[from].ents, a[0]) != 0 {
      assert (a + b)[1..] == a[1..] + b;
      ResolveAppend(t, Lookup(t[from].ents, a[0]), a[1..], b);
    }
  }

  lemma {:induction false} LookupIs(ents: seq<Ent>, k: nat)
    requires LiveAt(ents, k) && forall i: nat, j: nat {:trigger Distinct(ents, i, j)} :: Distinct(ents, i, j)
    ensures Lookup(ents, CName(ents[k].name)) == ents[k].inum
    decreases |ents|
  {
    if k > 0 {
      assert Distinct(ents, 0, k);
      var r := ents[1..];
      forall i: nat, j: nat ensures Distinct(r, i, j) { assert Distinct(ents, i + 1, j + 1); }
      LookupIs(r, k - 1);
    }
  }

  /** The entry of a directory in its parent is a proper one, and looking its name
      up gives the directory. */
  lemma NameFinds(t: Tree, w: Shape, d: nat)
    requires TreeOk(t, w) && IsDir(t, d) && d != ROOTINO && Plain(t, w, d)
    ensures var n := NameIn(t, w, d);
            && d in w.parent && IsDir(t, w.parent[d])
            && n != "" && NoSlash(n) && |n| <= DIRSIZ && Lookup(t[w.parent[d]].ents, n) == d
  {
    DotDot(t, w, d);
    NamedInParent(t, w, d);
    var p := w.parent[d];
    assert DirOk(t, w, p) && DirOk(t, w, d);
    var ents := t[p].ents;
    var k := FindIdx(ents, d);
    DotDot(t, w, p);
    assert k >= 2 by {
      assert ents[0].inum == p && ents[1].inum == w.parent[p];
      assert p != d && w.parent[p] != d;
    }
    assert EntryOk(t, w, p, k);
    assert Trim(ents[k].name) == ents[k].name;
    LookupIs(ents, k);
  }

  /** namei of what getcwd_path answers is the directory. */
  lemma {:induction false} RoundTrip(t: Tree, w: Shape, d: nat)
    requires TreeOk(t, w) && IsDir(t, d) && Plain(t, w, d)
    ensures Resolve(t, ROOTINO, Split("/" + FullPath(t, w, d))) == d
    decreases DepthOf(t, w, d)
  {
    var full := FullPath(t, w, d);
    assert ("/" + full)[1..] == full;
    if d == ROOTINO {
      assert full == "";
    } else {
      DotDot(t, w, d);
      var p := w.parent[d];
      NameFinds(t, w, d);
      RoundTrip(t, w, p);
      var up, n := FullPath(t, w, p), NameIn(t, w, d);
      assert ("/" + up)[1..] == up;
      EndsSlash(t, w, p);
      assert full == up + (n + "/");
      SplitAppend(up, n + "/");
      SplitOne(n);
      ResolveAppend(t, ROOTINO, Split(up), [n]);
      assert [n][1..] == [];
    }
  }

  lemma EndsSlash(t: Tree, w: Shape, d: nat)
    requires TreeOk(t, w) && IsDir(t, d)
    ensures var p := FullPath(t, w, d); p == "" || p[|p| - 1] == '/'
  {
    DotDot(t, w, d);
  }

  /** One lookup leads at most one deeper, and then to a child. */
  lemma StepDepth(t: Tree, w: Shape, x: nat, name: string)
    requires TreeOk(t, w) && IsDir(t, x) && IsDir(t, Lookup(t[x].ents, name)) && Lookup(t[x].ents, name) != 0
    ensures var y := Lookup(t[x].ents, name);
            && DepthOf(t, w, y) <= DepthOf(t, w, x) + 1
            && (DepthOf(t, w, y) == DepthOf(t, w, x) + 1 ==> y in w.parent && w.parent[y] == x)
  {
    var ents := t[x].ents;
    var j := LookupAt(ents, name);
    DotDot(t, w, x);
    assert DirOk(t, w, x) && DirOk(t, w, ents[j].inum) && EntryOk(t, w, x, j);
    assert DirOk(t, w, w.parent[x]);
  }

  /** A path leads at most as deep as it has names; if it leads that deep, then
      all but its last name lead to the parent. */
  lemma {:induction false} ResolveDepth(t: Tree, w: Shape, from: nat, names: seq<string>)
    requires TreeOk(t, w) && IsDir(t, from) && from != 0
    requires Resolve(t, from, names) != 0 && IsDir(t, Resolve(t, from, names))
    ensures var d := Resolve(t, from, names);
            && DepthOf(t, w, d) <= DepthOf(t, w, from) + |names|
            && (names != [] && DepthOf(t, w, d) == DepthOf(t, w, from) + |names| ==>
                  && d in w.parent && Resolve(t, from, names[..|names| - 1]) == w.parent[d] != 0
                     && IsDir(t, w.parent[d])
                  && Lookup(t[w.parent[d]].ents, names[|names| - 1]) == d)
    decreases |names|
  {
    if |names| == 1 {
      assert names[1..] == [] && names[..0] == [];
      StepDepth(t, w, from, names[0]);
    } else if names != [] {
      var next := Lookup(t[from].ents, names[0]);
      assert next != 0 && IsDir(t, next) by { assert names[1..] != []; }
      StepDepth(t, w, from, names[0]);
      ResolveDepth(t, w, next, names[1..]);
      assert names[1..][..|names| - 2] == names[..|names| - 1][1..];
      assert names[..|names| - 1][0] == names[0] && names[1..][|names| - 2] == names[|names| - 1];
    }
  }

  /** The elements of the path of a directory: those of its parent and, unless
      nothing is left of it, its own cut name. */
  lemma SplitFull(t: Tree, w: Shape, d: nat)
    requires TreeOk(t, w) && IsDir(t, d) && d != ROOTINO
    ensures d in w.parent && IsDir(t, w.parent[d])
    ensures Split(FullPath(t, w, d)) == Split(FullPath(t, w, w.parent[d])) + if NameIn(t, w, d) == "" then []
              else [NameIn(t, w, d)]
  {
    hide Split;
    DotDot(t, w, d);
    var up, n := FullPath(t, w, w.parent[d]), NameIn(t, w, d);
    EndsSlash(t, w, w.parent[d]);
    NameFits(t, w, d);
    assert FullPath(t, w, d) == up + (n + "/");
    SplitAppend(up, n + "/");
    if n == "" {
      assert n + "/" == "/";
      SlashOnly();
    } else {
      SplitOne(n);
    }
  }

  lemma NameFits(t: Tree, w: Shape, d: nat)
    requires TreeOk(t, w) && IsDir(t, d) && d != ROOTINO
    ensures NoSlash(NameIn(t, w, d)) && |NameIn(t, w, d)| <= DIRSIZ
  {
    RawOf(t, w, d);
    var ents := t[w.parent[d]].ents;
    var raw := ents[FindIdx(ents, d)].name;
    TrimShorter(raw);
    TrimIs(raw);
    if raw[DIRSIZ - 1] == ' ' {
      WholeName(raw);
      TrimSlash(raw);
      CNameSlash(Trim(raw));
    }
  }

  lemma TrimIs(raw: string)
    ensures raw != "" && raw[|raw| - 1] != ' ' ==> Trim(raw) == raw
  {
  }

  lemma {:induction false} PathDepth(t: Tree, w: Shape, d: nat)
    requires TreeOk(t, w) && IsDir(t, d)
    ensures |Split(FullPath(t, w, d))| <= DepthOf(t, w, d)
    decreases DepthOf(t, w, d)
  {
    hide Split;
    DotDot(t, w, d);
    assert DirOk(t, w, d);
    if d == ROOTINO {
      NoPath();
    } else {
      SplitFull(t, w, d);
      PathDepth(t, w, w.parent[d]);
    }
  }

  lemma NoPath()
    ensures Split("") == []
  {
  }

  /** namei of what getcwd_path answers is the directory if and only if no name
      field on the way to it has a space in its last place. */
  lemma {:induction false} RoundTripIff(t: Tree, w: Shape, d: nat)
    requires TreeOk(t, w) && IsDir(t, d)
    ensures Resolve(t, ROOTINO, Split("/" + FullPath(t, w, d))) == d <==> Plain(t, w, d)
    decreases DepthOf(t, w, d)
  {
    hide Split;
    hide Resolve;
    hide Plain;
    SplitSlash(FullPath(t, w, d));
    if Plain(t, w, d) {
      RoundTrip(t, w, d);
    } else if d == ROOTINO {
      RootPlain(t, w);
    } else if Resolve(t, ROOTINO, Split(FullPath(t, w, d))) == d {
      DotDot(t, w, d);
      var p := w.parent[d];
      PathDepth(t, w, d);
      PathDepth(t, w, p);
      SplitFull(t, w, d);
      RootDepth(t, w);
      assert DirOk(t, w, d);
      ResolveDepth(t, w, ROOTINO, Split(FullPath(t, w, d)));
      assert NameIn(t, w, d) != "";
      assert Split(FullPath(t, w, d))[..|Split(FullPath(t, w, d))| - 1] == Split(FullPath(t, w, p));
      SplitSlash(FullPath(t, w, p));
      RoundTripIff(t, w, p);
      LastPlain(t, w, d);
      assert false;
    }
  }

  lemma RootDepth(t: Tree, w: Shape)
    requires TreeOk(t, w)
    ensures DepthOf(t, w, ROOTINO) == 0
  {
    assert DirOk(t, w, ROOTINO);
  }

  lemma RootPlain(t: Tree, w: Shape)
    requires TreeOk(t, w)
    ensures Plain(t, w, ROOTINO)
  {
  }

  lemma LastPlain(t: Tree, w: Shape, d: nat)
    requires TreeOk(t, w) && IsDir(t, d) && d != ROOTINO && d in w.parent && IsDir(t, w.parent[d])
    requires Plain(t, w, w.parent[d]) && Lookup(t[w.parent[d]].ents, NameIn(t, w, d)) == d
    ensures Plain(t, w, d)
  {
    DotDot(t, w, d);
    NamedInParent(t, w, d);
    RawOf(t, w, d);
    var raw := t[w.parent[d]].ents[FindIdx(t[w.parent[d]].ents, d)].name;
    if raw[DIRSIZ - 1] == ' ' { CutName(t, w, d); }
  }

  lemma RawOf(t: Tree, w: Shape, d: nat)
    requires TreeOk(t, w) && IsDir(t, d) && d != ROOTINO
    ensures d in w.parent && IsDir(t, w.parent[d]) && w.parent[d] != 0
    ensures var k := FindIdx(t[w.parent[d]].ents, d);
            2 <= k < |t[w.parent[d]].ents| && EntryOk(t, w, w.parent[d], k) && NamedOnce(t, w.parent[d], k)
  {
    NamedInParent(t, w, d);
    DotDot(t, w, d);
    var p := w.parent[d];
    assert DirOk(t, w, p);
    DotDot(t, w, p);
    var k := FindIdx(t[p].ents, d);
    assert k >= 2 by {
      assert t[p].ents[0].inum == p && t[p].ents[1].inum == w.parent[p];
      assert p != d && w.parent[p] != d;
    }
    assert EntryOk(t, w, p, k) && NamedOnce(t, p, k);
  }

  lemma WholeName(raw: string)
    requires Padded(raw) && raw != "" && raw[|raw| - 1] != '\0'
    ensures CName(raw) == raw
  {
    assert forall i: nat | i < |raw| :: raw[i] != '\0';
    NoNulName(raw);
  }

  lemma {:induction false} NoNulName(raw: string)
    requires forall i: nat | i < |raw| :: raw[i] != '\0'
    ensures CName(raw) == raw
  {
    if raw != "" { NoNulName(raw[1..]); }
  }

  lemma {:induction false} TrimShorter(raw: string)
    ensures |Trim(raw)| <= |raw|
    decreases |raw|
  {
    if raw != "" && raw[|raw| - 1] == ' ' { TrimShorter(raw[..|raw| - 1]); }
  }

  /** The cut name is not the name, so it does not lead to the directory. */
  lemma CutName(t: Tree, w: Shape, d: nat)
    requires TreeOk(t, w) && IsDir(t, d) && d != ROOTINO && d in w.parent && IsDir(t, w.parent[d])
    requires FindIdx(t[w.parent[d]].ents, d) < |t[w.parent[d]].ents|
    requires var raw :=
               t[w.parent[d]].ents[FindIdx(t[w.parent[d]].ents, d)].name; |raw| == DIRSIZ && raw[DIRSIZ - 1] == ' '
    ensures Lookup(t[w.parent[d]].ents, NameIn(t, w, d)) != d && |NameIn(t, w, d)| < DIRSIZ && NoSlash(NameIn(t, w, d))
  {
    RawOf(t, w, d);
    var p := w.parent[d];
    var ents := t[p].ents;
    var k := FindIdx(ents, d);
    var raw := ents[k].name;
    WholeName(raw);
    TrimShorter(raw[..DIRSIZ - 1]);
    TrimSlash(raw);
    CNameSlash(Trim(raw));
    var n := NameIn(t, w, d);
    OnlyEntry(t, w, d);
    if Lookup(ents, n) != 0 { var j := LookupAt(ents, n); }
  }

  lemma OnlyEntry(t: Tree, w: Shape, d: nat)
    requires TreeOk(t, w) && IsDir(t, d) && d != ROOTINO && d in w.parent && IsDir(t, w.parent[d])
    ensures var ents := t[w.parent[d]].ents;
            forall j: nat | LiveAt(ents, j) && ents[j].inum == d :: j == FindIdx(ents, d)
  {
    RawOf(t, w, d);
    var p := w.parent[d];
    assert DirOk(t, w, p);
    DotDot(t, w, p);
    DotDot(t, w, d);
    assert t[p].ents[0].inum == p && t[p].ents[1].inum == w.parent[p] && p != d && w.parent[p] != d;
  }

  lemma {:induction false} TrimSlash(raw: string)
    requires NoSlash(raw)
    ensures NoSlash(Trim(raw))
    decreases |raw|
  {
    if raw != "" && raw[|raw| - 1] == ' ' { TrimSlash(raw[..|raw| - 1]); }
  }

  lemma {:induction false} CNameSlash(raw: string)
    requires NoSlash(raw)
    ensures NoSlash(CName(raw))
  {
    if raw != "" && raw[0] != '\0' { CNameSlash(raw[1..]); }
  }

  lemma {:induction false} LookupAt(ents: seq<Ent>, name: string) returns (j: nat)
    requires Lookup(ents, name) != 0
    ensures LiveAt(ents, j) && CName(ents[j].name) == name && ents[j].inum == Lookup(ents, name)
    decreases |ents|
  {
    if ents[0].inum != 0 && CName(ents[0].name) == name {
      j := 0;
    } else {
      j := LookupAt(ents[1..], name);
      j := j + 1;
    }
  }

  lemma SplitSlash(p: string)
    ensures Split("/" + p) == Split(p)
  {
    assert ("/" + p)[1..] == p;
  }
}
