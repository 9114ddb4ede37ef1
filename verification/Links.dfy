/** Link counts: create, sys_link and sys_unlink, with their ways of backing out,
    over directories seen as maps from names to inode numbers. */
module Links {
  import opened Common

  datatype Kind = File | Dir | Device

  /** An inode in use, with the references held to it in memory. */
  datatype Ino = Ino(kind: Kind, nlink: int, refs: nat)

  /** `ents` leaves out "." and ".."; `up` is what ".." names. */
  datatype Fs = Fs(ino: map<nat, Ino>, ents: map<nat, map<string, nat>>, up: map<nat, nat>)

  predicate IsDir(fs: Fs, d: nat) { d in fs.ino && fs.ino[d].kind.Dir? }

  /** The directory entries that name inode i. */
  function Names(fs: Fs, i: nat): set<(nat, string)> {
    set d, n | d in fs.ents && n in fs.ents[d] && fs.ents[d][n] == i :: (d, n)
  }

  /** The entries of directory d that name directories. */
  function Subs(fs: Fs, d: nat): set<string> {
    if d in fs.ents then set n | n in fs.ents[d] && IsDir(fs, fs.ents[d][n]) else {}
  }

  function Base(d: nat): int { if d == ROOTINO then 2 else 1 }

  /** The count of an inode is right. */
  predicate CountOk(fs: Fs, i: nat)
    requires i in fs.ino
  {
    var x := fs.ino[i];
    if !x.kind.Dir? then x.nlink == |Names(fs, i)|
    else if x.nlink == 0 then i != ROOTINO && Names(fs, i) == {} && i in fs.ents && fs.ents[i] == map[]
    else x.nlink == Base(i) + |Subs(fs, i)|
  }

  /** A linked directory other than the root is named once, by its parent, which
      is itself linked. */
  predicate PlaceOk(fs: Fs, i: nat)
    requires i in fs.ino
  {
    fs.ino[i].kind.Dir? && fs.ino[i].nlink != 0 && i != ROOTINO ==>
      && i in fs.up && IsDir(fs, fs.up[i]) && fs.ino[fs.up[i]].nlink != 0
      && |Names(fs, i)| == 1 && forall x | x in Names(fs, i) :: x.0 == fs.up[i]
  }

  predicate IsDot(n: string) { n == "." || n == ".." }

  /** What dirlookup finds in directory d; 0 if nothing. */
  function Found(fs: Fs, d: nat, n: string): nat
    requires d in fs.ents && d in fs.up
  {
    if n == "." then d else if n == ".." then fs.up[d] else if n in fs.ents[d] then fs.ents[d][n] else 0
  }

  predicate InoOk(fs: Fs, i: nat)
    requires i in fs.ino
  {
    && i != 0
    && CountOk(fs, i) && PlaceOk(fs, i)
    && (fs.ino[i].nlink == 0 ==> fs.ino[i].refs > 0)
    && (i == ROOTINO ==> Names(fs, i) == {})
  }

  predicate EntsOk(fs: Fs, d: nat)
    requires d in fs.ents
  {
    IsDir(fs, d) && forall n | n in fs.ents[d] :: fs.ents[d][n] in fs.ino && !IsDot(n)
  }

  ghost predicate Inv(fs: Fs) {
    && IsDir(fs, ROOTINO) && fs.ino[ROOTINO].nlink != 0
    && (forall i: nat {:trigger InoOk(fs, i)} | i in fs.ino :: InoOk(fs, i))
    && (forall d: nat {:trigger EntsOk(fs, d)} | d in fs.ents :: EntsOk(fs, d))
    && (forall d: nat {:trigger IsDir(fs, d)} | IsDir(fs, d) :: d in fs.ents && d in fs.up)
    && (forall d: nat {:trigger d in fs.up} | d in fs.up :: IsDir(fs, d))
    && ROOTINO in fs.up && fs.up[ROOTINO] == ROOTINO
  }

  // ---- elementary changes ----

  function SetIno(fs: Fs, i: nat, x: Ino): Fs { fs.(ino := fs.ino[i := x]) }

  function Bound(fs: Fs, d: nat, n: string, i: nat): Fs
    requires d in fs.ents
  {
    var m: map<string, nat> := fs.ents[d][n := i];
    fs.(ents := fs.ents[d := m])
  }

  function Unbound(fs: Fs, d: nat, n: string): Fs
    requires d in fs.ents
  {
    var m: map<string, nat> := fs.ents[d] - {n};
    fs.(ents := fs.ents[d := m])
  }

  lemma NamesBound(fs: Fs, d: nat, n: string, i: nat, j: nat)
    requires d in fs.ents && n !in fs.ents[d]
    ensures Names(Bound(fs, d, n, i), j) == Names(fs, j) + if j == i then {(d, n)} else {}
    ensures (d, n) !in Names(fs, j)
  {
  }

  lemma NamesUnbound(fs: Fs, d: nat, n: string, j: nat)
    requires d in fs.ents && n in fs.ents[d]
    ensures Names(Unbound(fs, d, n), j) == Names(fs, j) - if j == fs.ents[d][n] then {(d, n)} else {}
    ensures (d, n) in Names(fs, j) <==> j == fs.ents[d][n]
  {
  }

  lemma SubsBound(fs: Fs, d: nat, n: string, i: nat, e: nat)
    requires d in fs.ents && n !in fs.ents[d]
    ensures Subs(Bound(fs, d, n, i), e) == Subs(fs, e) + if e == d && IsDir(fs, i) then {n} else {}
    ensures n !in Subs(fs, d)
  {
  }

  lemma SubsUnbound(fs: Fs, d: nat, n: string, e: nat)
    requires d in fs.ents && n in fs.ents[d]
    ensures Subs(Unbound(fs, d, n), e) == Subs(fs, e) - if e == d then {n} else {}
    ensures n in Subs(fs, d) <==> IsDir(fs, fs.ents[d][n])
  {
  }

  /** Changing counts and references touches no entry. */
  lemma SameEnts(fs: Fs, i: nat, x: Ino, j: nat)
    requires i in fs.ino && x.kind == fs.ino[i].kind
    ensures Names(SetIno(fs, i, x), j) == Names(fs, j) && Subs(SetIno(fs, i, x), j) == Subs(fs, j)
  {
  }

  // ---- one more link, one fewer ----

  /** A new entry for a file, and its count one up. */
  lemma LinkInv(fs: Fs, d: nat, n: string, i: nat)
    requires Inv(fs) && IsDir(fs, d) && fs.ino[d].nlink != 0 && n !in fs.ents[d] && !IsDot(n) && i in fs.ino
             && !fs.ino[i].kind.Dir?
    ensures d in fs.ents
    ensures Inv(Bound(SetIno(fs, i, fs.ino[i].(nlink := fs.ino[i].nlink + 1)), d, n, i))
  {
    hide Names;
    hide Subs;
    hide InoOk;
    assert IsDir(fs, d);
    var fs' := Bound(SetIno(fs, i, fs.ino[i].(nlink := fs.ino[i].nlink + 1)), d, n, i);
    forall j: nat | j in fs'.ino ensures InoOk(fs', j) { LinkIno(fs, d, n, i, j); }
    forall e: nat | e in fs'.ents ensures EntsOk(fs', e) { assert EntsOk(fs, e); }
    forall e: nat | IsDir(fs', e) ensures e in fs'.ents && e in fs'.up { assert IsDir(fs, e); }
    assert ROOTINO in fs.ino && fs'.ino[ROOTINO].nlink != 0;
  }

  lemma LinkIno(fs: Fs, d: nat, n: string, i: nat, j: nat)
    requires Inv(fs) && IsDir(fs, d) && d in fs.ents && fs.ino[d].nlink != 0 && n !in fs.ents[d] && i in fs.ino
             && !fs.ino[i].kind.Dir? && j in fs.ino
    ensures InoOk(Bound(SetIno(fs, i, fs.ino[i].(nlink := fs.ino[i].nlink + 1)), d, n, i), j)
  {
    hide EntsOk;
    hide IsDot;
    hide Names;
    hide Subs;
    var up := SetIno(fs, i, fs.ino[i].(nlink := fs.ino[i].nlink + 1));
    assert InoOk(fs, j);
    SameEnts(fs, i, up.ino[i], j);
    NamesBound(up, d, n, i, j);
    SubsBound(up, d, n, i, j);
  }

  /** A new inode with one reference, and the entry that names it. */
  function Made(fs: Fs, d: nat, n: string, i: nat, kind: Kind): Fs
    requires d in fs.ents && d in fs.ino
  {
    var a := Fresh(fs, d, i, kind);
    var b := if kind.Dir? then SetIno(a, d, a.ino[d].(nlink := a.ino[d].nlink + 1)) else a;
    Bound(b, d, n, i)
  }

  function Fresh(fs: Fs, d: nat, i: nat, kind: Kind): Fs {
    var m: map<string, nat> := map[];
    Fs(fs.ino[i := Ino(kind, 1, 1)], if kind.Dir? then fs.ents[i := m]
        else fs.ents, if kind.Dir? then fs.up[i := d] else fs.up)
  }

  lemma FreshNames(fs: Fs, d: nat, i: nat, kind: Kind, j: nat)
    requires Inv(fs) && i !in fs.ino
    ensures i !in fs.ents
    ensures Names(Fresh(fs, d, i, kind), j) == Names(fs, j) && (j == i ==> Names(fs, j) == {})
    ensures j != i ==> Subs(Fresh(fs, d, i, kind), j) == Subs(fs, j)
    ensures Subs(Fresh(fs, d, i, kind), i) == {}
  {
    assert i in fs.ents ==> EntsOk(fs, i);
    forall e: nat, n | e in fs.ents && n in fs.ents[e] ensures fs.ents[e][n] != i { assert EntsOk(fs, e); }
  }

  lemma MadeInv(fs: Fs, d: nat, n: string, i: nat, kind: Kind)
    requires Inv(fs) && IsDir(fs, d) && fs.ino[d].nlink != 0 && d in fs.ents && n !in fs.ents[d] && !IsDot(n)
             && i !in fs.ino && i != 0
    ensures Inv(Made(fs, d, n, i, kind))
  {
    hide InoOk;
    hide Made;
    var fs' := Made(fs, d, n, i, kind);
    MadeDirs(fs, d, n, i, kind);
    forall j: nat | j in fs'.ino ensures InoOk(fs', j) { MadeIno(fs, d, n, i, kind, j); }
  }

  lemma MadeDirs(fs: Fs, d: nat, n: string, i: nat, kind: Kind)
    requires Inv(fs) && IsDir(fs, d) && fs.ino[d].nlink != 0 && d in fs.ents && n !in fs.ents[d] && !IsDot(n)
             && i !in fs.ino
    ensures var fs' := Made(fs, d, n, i, kind);
            && IsDir(fs', ROOTINO) && fs'.ino[ROOTINO].nlink != 0
            && (forall e: nat {:trigger EntsOk(fs', e)} | e in fs'.ents :: EntsOk(fs', e))
            && (forall e: nat {:trigger IsDir(fs', e)} | IsDir(fs', e) :: e in fs'.ents && e in fs'.up)
            && (forall e: nat {:trigger e in fs'.up} | e in fs'.up :: IsDir(fs', e))
            && ROOTINO in fs'.up && fs'.up[ROOTINO] == ROOTINO
  {
    hide PlaceOk;
    hide Subs;
    hide Names;
    var fs' := Made(fs, d, n, i, kind);
    assert InoOk(fs, ROOTINO);
    forall e: nat | e in fs'.ents ensures EntsOk(fs', e) { assert e in fs.ents ==> EntsOk(fs, e); }
    forall e: nat | IsDir(fs', e) ensures e in fs'.ents && e in fs'.up {
      assert e in fs.ino ==> (IsDir(fs, e) <==> IsDir(fs', e));
    }
    forall e: nat | e in fs'.up ensures IsDir(fs', e) { assert e in fs.up ==> IsDir(fs, e); }
  }

  lemma MadeIno(fs: Fs, d: nat, n: string, i: nat, kind: Kind, j: nat)
    requires Inv(fs) && IsDir(fs, d) && fs.ino[d].nlink != 0 && d in fs.ents && n !in fs.ents[d] && i !in fs.ino
             && i != 0
    requires j in Made(fs, d, n, i, kind).ino
    ensures InoOk(Made(fs, d, n, i, kind), j)
  {
    hide InoOk;
    if j == i { MadeNew(fs, d, n, i, kind, j); } else { MadeOld(fs, d, n, i, kind, j); }
  }

  lemma MadeNew(fs: Fs, d: nat, n: string, i: nat, kind: Kind, j: nat)
    requires Inv(fs) && IsDir(fs, d) && fs.ino[d].nlink != 0 && d in fs.ents && n !in fs.ents[d] && i !in fs.ino
             && i != 0
    requires j == i
    ensures j in Made(fs, d, n, i, kind).ino && InoOk(Made(fs, d, n, i, kind), j)
  {
    hide Names;
    hide Subs;
    var a := Fresh(fs, d, i, kind);
    var b := if kind.Dir? then SetIno(a, d, a.ino[d].(nlink := a.ino[d].nlink + 1)) else a;
    FreshNames(fs, d, i, kind, j);
    SameEnts(a, d, b.ino[d], j);
    NamesBound(b, d, n, i, j);
    SubsBound(b, d, n, i, j);
    assert InoOk(fs, d);
  }

  /** What making i in d does to another inode: only d's count and entries. */
  lemma MadeShape(fs: Fs, d: nat, n: string, i: nat, kind: Kind, j: nat)
    requires Inv(fs) && IsDir(fs, d) && fs.ino[d].nlink != 0 && d in fs.ents && n !in fs.ents[d] && i !in fs.ino
             && i != 0
    requires j in fs.ino
    ensures var fs' := Made(fs, d, n, i, kind);
            && j in fs'.ino
               && fs'.ino[j] == (if j == d && kind.Dir? then fs.ino[d].(nlink := fs.ino[d].nlink + 1) else fs.ino[j])
            && Names(fs', j) == Names(fs, j)
            && Subs(fs', j) == (if j == d && kind.Dir? then Subs(fs, j) + {n} else Subs(fs, j)) && n !in Subs(fs, d)
            && (j != d && j in fs.ents ==> j in fs'.ents && fs'.ents[j] == fs.ents[j])
            && (j in fs.up ==> j in fs'.up && fs'.up[j] == fs.up[j])
            && (forall e: nat {:trigger IsDir(fs', e)} | IsDir(fs, e) :: IsDir(fs', e))
  {
    hide Names;
    hide Subs;
    var a := Fresh(fs, d, i, kind);
    var b := if kind.Dir? then SetIno(a, d, a.ino[d].(nlink := a.ino[d].nlink + 1)) else a;
    FreshNames(fs, d, i, kind, j);
    FreshNames(fs, d, i, kind, d);
    if kind.Dir? { SameEnts(a, d, b.ino[d], j); }
    NamesBound(b, d, n, i, j);
    SubsBound(b, d, n, i, j);
    SubsBound(fs, d, n, i, j);
    assert IsDir(b, i) <==> kind.Dir?;
  }

  lemma MadeOld(fs: Fs, d: nat, n: string, i: nat, kind: Kind, j: nat)
    requires Inv(fs) && IsDir(fs, d) && fs.ino[d].nlink != 0 && d in fs.ents && n !in fs.ents[d] && i !in fs.ino
             && i != 0
    requires j in fs.ino
    ensures j in Made(fs, d, n, i, kind).ino && InoOk(Made(fs, d, n, i, kind), j)
  {
    hide Names;
    hide Subs;
    hide Made;
    MadeShape(fs, d, n, i, kind, j);
    assert InoOk(fs, j) && InoOk(fs, d);
    assert n !in Subs(fs, d) ==> |Subs(fs, d) + {n}| == |Subs(fs, d)| + 1;
    if j in fs.up && IsDir(fs, fs.up[j]) { MadeShape(fs, d, n, i, kind, fs.up[j]); }
    assert IsDir(fs, j) ==> j in fs.ents;
  }

  /** One reference more. */
  lemma GetInv(fs: Fs, i: nat)
    requires Inv(fs) && i in fs.ino
    ensures Inv(SetIno(fs, i, fs.ino[i].(refs := fs.ino[i].refs + 1)))
  {
    RefInv(fs, i, fs.ino[i].refs + 1);
  }

  lemma RefInv(fs: Fs, i: nat, refs: nat)
    requires Inv(fs) && i in fs.ino && (fs.ino[i].nlink == 0 ==> refs > 0)
    ensures Inv(SetIno(fs, i, fs.ino[i].(refs := refs)))
  {
    hide Names;
    hide Subs;
    var fs' := SetIno(fs, i, fs.ino[i].(refs := refs));
    forall j: nat | j in fs'.ino ensures InoOk(fs', j) {
      assert InoOk(fs, j);
      SameEnts(fs, i, fs'.ino[i], j);
    }
    forall e: nat | e in fs'.ents ensures EntsOk(fs', e) { assert EntsOk(fs, e); }
    forall e: nat | IsDir(fs', e) ensures e in fs'.ents && e in fs'.up { assert IsDir(fs, e); }
  }

  /** iput: the last reference to an inode with no links frees it. */
  function Put(fs: Fs, i: nat): Fs
    requires i in fs.ino && fs.ino[i].refs > 0
  {
    if fs.ino[i].refs == 1 && fs.ino[i].nlink == 0 then Fs(fs.ino - {i}, fs.ents - {i}, fs.up - {i})
    else SetIno(fs, i, fs.ino[i].(refs := fs.ino[i].refs - 1))
  }

  lemma PutInv(fs: Fs, i: nat)
    requires Inv(fs) && i in fs.ino && fs.ino[i].refs > 0
    ensures Inv(Put(fs, i))
  {
    if fs.ino[i].refs == 1 && fs.ino[i].nlink == 0 { GoneInv(fs, i); } else { RefInv(fs, i, fs.ino[i].refs - 1); }
  }

  lemma GoneNames(fs: Fs, i: nat, j: nat)
    requires Inv(fs) && i in fs.ino && fs.ino[i].nlink == 0 && j != i
    ensures Names(Fs(fs.ino - {i}, fs.ents - {i}, fs.up - {i}), j) == Names(fs, j)
    ensures Subs(Fs(fs.ino - {i}, fs.ents - {i}, fs.up - {i}), j) == Subs(fs, j)
    ensures Names(fs, i) == {}
  {
    assert InoOk(fs, i);
    assert i in fs.ents ==> EntsOk(fs, i);
    assert fs.ino[i].kind.Dir? ==> IsDir(fs, i);
    assert Names(fs, i) == {};
    forall e: nat, n | e in fs.ents && n in fs.ents[e] ensures fs.ents[e][n] != i {
      assert fs.ents[e][n] == i ==> (e, n) in Names(fs, i);
    }
  }

  lemma GoneInv(fs: Fs, i: nat)
    requires Inv(fs) && i in fs.ino && fs.ino[i].nlink == 0
    ensures Inv(Fs(fs.ino - {i}, fs.ents - {i}, fs.up - {i}))
  {
    hide Subs;
    hide Names;
    hide EntsOk;
    var fs' := Fs(fs.ino - {i}, fs.ents - {i}, fs.up - {i});
    assert InoOk(fs, i);
    GoneNames(fs, i, 0 + if i == 0 then 1 else 0);
    forall j: nat | j in fs'.ino ensures InoOk(fs', j) {
      assert InoOk(fs, j);
      GoneNames(fs, i, j);
    }
    forall e: nat | e in fs'.ents ensures EntsOk(fs', e) { GoneEnts(fs, i, e); }
    forall e: nat | IsDir(fs', e) ensures e in fs'.ents && e in fs'.up { assert IsDir(fs, e); }
  }

  lemma GoneEnts(fs: Fs, i: nat, e: nat)
    requires Inv(fs) && i in fs.ino && Names(fs, i) == {} && e in fs.ents && e != i
    ensures EntsOk(Fs(fs.ino - {i}, fs.ents - {i}, fs.up - {i}), e)
  {
    var fs' := Fs(fs.ino - {i}, fs.ents - {i}, fs.up - {i});
    assert EntsOk(fs, e);
    forall n | n in fs'.ents[e] ensures fs'.ents[e][n] in fs'.ino {
      assert fs.ents[e][n] == i ==> (e, n) in Names(fs, i);
    }
  }

  /** An entry cleared, with the counts of what it named and, for a directory, of
      the one that held it. */
  function Cut(fs: Fs, d: nat, n: string): Fs
    requires d in fs.ents && n in fs.ents[d] && fs.ents[d][n] in fs.ino && d in fs.ino
  {
    var i := fs.ents[d][n];
    var a := Unbound(fs, d, n);
    var b := if a.ino[i].kind.Dir? && a.ino[d].nlink > 0 then SetIno(a, d, a.ino[d].(nlink := a.ino[d].nlink - 1))
      else a;
    SetIno(b, i, b.ino[i].(nlink := b.ino[i].nlink - 1))
  }

  lemma CutInv(fs: Fs, d: nat, n: string)
    requires Inv(fs) && IsDir(fs, d) && d in fs.ents && n in fs.ents[d] && fs.ents[d][n] in fs.ino
    requires var i := fs.ents[d][n]; fs.ino[i].refs > 0 && (fs.ino[i].kind.Dir? ==> i in fs.ents && fs.ents[i] == map[])
    ensures Inv(Cut(fs, d, n)) && fs.ents[d][n] != d && fs.ino[fs.ents[d][n]].nlink >= 1
  {
    hide Names;
    hide Subs;
    hide PlaceOk;
    hide CountOk;
    var fs', i := Cut(fs, d, n), fs.ents[d][n];
    CutParts(fs, d, n);
    forall j: nat | j in fs'.ino ensures InoOk(fs', j) { CutIno(fs, d, n, j); }
    forall e: nat | e in fs'.ents ensures EntsOk(fs', e) { assert EntsOk(fs, e); }
    forall e: nat | IsDir(fs', e) ensures e in fs'.ents && e in fs'.up { assert IsDir(fs, e); }
  }

  /** What is named has a link; a directory with an entry is linked, and is not
      what the entry names. */
  lemma CutParts(fs: Fs, d: nat, n: string)
    requires Inv(fs) && IsDir(fs, d) && d in fs.ents && n in fs.ents[d] && fs.ents[d][n] in fs.ino
    requires var i := fs.ents[d][n]; fs.ino[i].kind.Dir? ==> i in fs.ents && fs.ents[i] == map[]
    ensures var i := fs.ents[d][n];
            && i != d && i != ROOTINO && fs.ino[i].nlink >= 1 && fs.ino[d].nlink != 0 && (d, n) in Names(fs, i)
            && (fs.ino[i].kind.Dir? ==> fs.ino[i].nlink == 1 && Names(fs, i) == {(d, n)} && fs.ino[d].nlink >= 2)
  {
    var i := fs.ents[d][n];
    assert InoOk(fs, i) && InoOk(fs, d);
    assert (d, n) in Names(fs, i);
    assert |Names(fs, i)| >= 1;
    if fs.ino[i].kind.Dir? {
      assert Subs(fs, i) == {};
      assert n in Subs(fs, d);
      assert |Subs(fs, d)| >= 1;
      OneElement(Names(fs, i), (d, n));
    }
  }

  lemma OneElement<T>(s: set<T>, x: T)
    requires x in s
    ensures |s| == 1 ==> s == {x}
  {
    assert s == {x} + (s - {x});
  }

  /** Entries after the cut. */
  lemma CutSets(fs: Fs, d: nat, n: string, j: nat)
    requires Inv(fs) && IsDir(fs, d) && d in fs.ents && n in fs.ents[d] && fs.ents[d][n] in fs.ino && fs.ents[d][n] != d
    ensures var i, fs' := fs.ents[d][n], Cut(fs, d, n);
            && Names(fs', j) == Names(fs, j) - (if j == i then {(d, n)} else {})
            && Subs(fs', j) == Subs(fs, j) - (if j == d then {n} else {})
            && ((d, n) in Names(fs, j) <==> j == i) && (n in Subs(fs, d) <==> IsDir(fs, i))
  {
    hide Names;
    hide Subs;
    var i := fs.ents[d][n];
    var a := Unbound(fs, d, n);
    var b := if a.ino[i].kind.Dir? && a.ino[d].nlink > 0 then SetIno(a, d, a.ino[d].(nlink := a.ino[d].nlink - 1))
      else a;
    NamesUnbound(fs, d, n, j);
    SubsUnbound(fs, d, n, j);
    SubsUnbound(fs, d, n, d);
    if a.ino[i].kind.Dir? && a.ino[d].nlink > 0 { SameEnts(a, d, b.ino[d], j); }
    SameEnts(b, i, b.ino[i].(nlink := b.ino[i].nlink - 1), j);
  }

  /** What the cut does to the inodes. */
  lemma CutShape(fs: Fs, d: nat, n: string, j: nat)
    requires Inv(fs) && IsDir(fs, d) && d in fs.ents && n in fs.ents[d] && fs.ents[d][n] in fs.ino && j in fs.ino
    requires var i := fs.ents[d][n]; fs.ino[i].refs > 0 && (fs.ino[i].kind.Dir? ==> i in fs.ents && fs.ents[i] == map[])
    ensures var i, fs' := fs.ents[d][n], Cut(fs, d, n);
            && j in fs'.ino
            && fs'.ino[j] ==
                 (if j == i || (j == d && fs.ino[i].kind.Dir?) then fs.ino[j].(nlink := fs.ino[j].nlink - 1)
                     else fs.ino[j])
            && (j != d && j in fs.ents ==> j in fs'.ents && fs'.ents[j] == fs.ents[j])
  {
    hide Names;
    hide Subs;
    hide InoOk;
    CutParts(fs, d, n);
  }

  lemma CutIno(fs: Fs, d: nat, n: string, j: nat)
    requires Inv(fs) && IsDir(fs, d) && d in fs.ents && n in fs.ents[d] && fs.ents[d][n] in fs.ino && j in fs.ino
    requires var i := fs.ents[d][n]; fs.ino[i].refs > 0 && (fs.ino[i].kind.Dir? ==> i in fs.ents && fs.ents[i] == map[])
    ensures j in Cut(fs, d, n).ino && InoOk(Cut(fs, d, n), j)
  {
    hide Names;
    hide Subs;
    hide Cut;
    hide PlaceOk;
    CutParts(fs, d, n);
    CutSets(fs, d, n, j);
    CutShape(fs, d, n, j);
    assert InoOk(fs, j);
    if j == fs.ents[d][n] { CutAway(fs, d, n); } else { CutPlace(fs, d, n, j); }
  }

  lemma CutAway(fs: Fs, d: nat, n: string)
    requires Inv(fs) && IsDir(fs, d) && d in fs.ents && n in fs.ents[d] && fs.ents[d][n] in fs.ino
    requires var i := fs.ents[d][n]; fs.ino[i].refs > 0 && (fs.ino[i].kind.Dir? ==> i in fs.ents && fs.ents[i] == map[])
    ensures fs.ents[d][n] in Cut(fs, d, n).ino && PlaceOk(Cut(fs, d, n), fs.ents[d][n])
  {
    hide Names;
    hide Subs;
    hide Cut;
    CutParts(fs, d, n);
    CutShape(fs, d, n, fs.ents[d][n]);
  }

  /** A linked directory keeps its place: its parent is not what was cut. */
  lemma CutPlace(fs: Fs, d: nat, n: string, j: nat)
    requires Inv(fs) && IsDir(fs, d) && d in fs.ents && n in fs.ents[d] && fs.ents[d][n] in fs.ino && j in fs.ino
    requires var i := fs.ents[d][n]; fs.ino[i].refs > 0 && (fs.ino[i].kind.Dir? ==> i in fs.ents && fs.ents[i] == map[])
    requires j != fs.ents[d][n]
    ensures j in Cut(fs, d, n).ino && PlaceOk(Cut(fs, d, n), j)
  {
    hide Names;
    hide Subs;
    CutParts(fs, d, n);
    CutSets(fs, d, n, j);
    assert InoOk(fs, j);
    var i := fs.ents[d][n];
    if fs.ino[j].kind.Dir? && fs.ino[j].nlink != 0 && j != ROOTINO {
      assert IsDir(fs, j);
      if fs.ino[i].kind.Dir? { UpEmpty(fs, j, fs.up[j]); }
      assert fs.up[j] != i;
      assert fs.ino[d].nlink - (if fs.ino[i].kind.Dir? then 1 else 0) != 0;
    }
  }

  /** An empty directory is nobody's parent. */
  lemma UpEmpty(fs: Fs, j: nat, i: nat)
    requires Inv(fs) && IsDir(fs, j) && fs.ino[j].nlink != 0 && j != ROOTINO && j in fs.up && fs.up[j] == i
    ensures i in fs.ents && fs.ents[i] != map[]
  {
    assert InoOk(fs, j);
    var x :| x in Names(fs, j);
    assert x.0 == i && x.1 in fs.ents[i];
  }

  /** A file's count is the number of entries that name it, a directory's its base
      plus its subdirectories while it is linked; an inode without links is there
      only because somebody holds it. */
  lemma CountsMean(fs: Fs, i: nat)
    requires Inv(fs) && i in fs.ino
    ensures !fs.ino[i].kind.Dir? ==> fs.ino[i].nlink == |Names(fs, i)|
    ensures fs.ino[i].kind.Dir? && fs.ino[i].nlink != 0 ==> fs.ino[i].nlink == Base(i) + |Subs(fs, i)|
    ensures fs.ino[i].kind.Dir? && i != ROOTINO ==> |Names(fs, i)| == if fs.ino[i].nlink == 0 then 0 else 1
    ensures fs.ino[i].nlink == 0 ==> fs.ino[i].refs > 0
  {
    assert InoOk(fs, i);
  }

  // ---- the system calls, from where the path has been resolved ----

  lemma InMap(fs: Fs, d: nat)
    requires Inv(fs) && IsDir(fs, d)
    ensures d in fs.ents && d in fs.up && d != 0
    ensures forall n | n in fs.ents[d] :: fs.ents[d][n] in fs.ino && fs.ents[d][n] != 0
  {
    assert EntsOk(fs, d) && InoOk(fs, d);
    forall n | n in fs.ents[d] ensures fs.ents[d][n] != 0 { assert InoOk(fs, fs.ents[d][n]); }
  }

  /** In a linked directory every name found is of an inode in use, and "." and
      ".." are found always: they name directories. */
  lemma FoundIs(fs: Fs, d: nat, n: string)
    requires Inv(fs) && IsDir(fs, d) && fs.ino[d].nlink != 0
    ensures d in fs.ents && d in fs.up
    ensures Found(fs, d, n) != 0 ==> Found(fs, d, n) in fs.ino
    ensures IsDot(n) ==> IsDir(fs, Found(fs, d, n)) && Found(fs, d, n) != 0
    ensures Found(fs, d, n) == 0 <==> n !in fs.ents[d] && !IsDot(n)
  {
    assert EntsOk(fs, d) && InoOk(fs, d);
    InMap(fs, d);
    if n == ".." { InMap(fs, fs.up[d]); }
  }

  /** The inode number of an entry, 0 if there is none. */
  function Entry(fs: Fs, d: nat, n: string): nat { if d in fs.ents && n in fs.ents[d] then fs.ents[d][n] else 0 }

  /** Name n of directory d leads to i from now on, to nothing if i is 0; every
      other name of every directory leads where it led. */
  ghost predicate OneEntry(fs: Fs, fs': Fs, d: nat, n: string, i: nat) {
    forall e: nat, m: string {:trigger Entry(fs', e, m)} ::
      Entry(fs', e, m) == if e == d && m == n then i else Entry(fs, e, m)
  }

  lemma PutEntry(fs: Fs, i: nat, d: nat, n: string)
    requires Inv(fs) && i in fs.ino && fs.ino[i].refs > 0
    ensures Entry(Put(fs, i), d, n) == Entry(fs, d, n)
  {
    if d == i && fs.ino[i].nlink == 0 { assert InoOk(fs, i) && (d in fs.ents ==> EntsOk(fs, d)); }
  }

  lemma CutEntry(fs: Fs, d: nat, n: string, i: nat)
    requires Inv(fs) && IsDir(fs, d) && d in fs.ents && n in fs.ents[d] && fs.ents[d][n] == i && i in fs.ino
    ensures i in fs.ino && OneEntry(fs, Cut(fs, d, n), d, n, 0)
  {
  }

  lemma LinkEntry(fs: Fs, d: nat, n: string, i: nat, x: Ino)
    requires d in fs.ents && i in fs.ino
    ensures OneEntry(fs, Bound(SetIno(fs, i, x), d, n, i), d, n, i)
  {
  }

  lemma SameEntries(fs: Fs, u: Fs, t: Fs, d: nat, n: string, i: nat)
    requires u.ents == fs.ents && OneEntry(u, t, d, n, i)
    ensures OneEntry(fs, t, d, n, i)
  {
    forall e: nat, m: string ensures Entry(t, e, m) == if e == d && m == n then i else Entry(fs, e, m) {
      assert Entry(u, e, m) == Entry(fs, e, m);
    }
  }

  /** Giving up a reference changes no entry. */
  lemma PutEntries(fs: Fs, t: Fs, d: nat, n: string, i: nat, j: nat)
    requires OneEntry(fs, t, d, n, i) && Inv(t) && j in t.ino && t.ino[j].refs > 0
    ensures OneEntry(fs, Put(t, j), d, n, i)
  {
    hide Put;
    hide Inv;
    forall e: nat, m: string
      ensures Entry(Put(t, j), e, m) == if e == d && m == n then i else Entry(fs, e, m)
    {
      PutEntry(t, j, e, m);
    }
  }

  /** What sys_unlink leaves, with both references given up. */
  lemma CutLeaves(fs: Fs, u: Fs, d: nat, n: string, i: nat)
    requires Inv(u) && IsDir(u, d) && d in u.ents && n in u.ents[d] && u.ents[d][n] == i && i in u.ino
             && u.ents == fs.ents
    requires u.ino[i].refs > 0 && u.ino[d].refs > 0 && u.ino[d].nlink != 0 && i != d && Inv(Cut(u, d, n))
    ensures d in Cut(u, d, n).ino && Cut(u, d, n).ino[d].refs > 0
    ensures i in Put(Cut(u, d, n), d).ino && Put(Cut(u, d, n), d).ino[i].refs > 0
    ensures OneEntry(fs, Put(Put(Cut(u, d, n), d), i), d, n, 0)
  {
    hide Inv;
    hide OneEntry;
    var t := Cut(u, d, n);
    CutEntry(u, d, n, i);
    SameEntries(fs, u, t, d, n, 0);
    PutEntries(fs, t, d, n, 0, d);
    PutInv(t, d);
    PutEntries(fs, Put(t, d), d, n, 0, i);
  }

  lemma MadeEntry(fs: Fs, d: nat, n: string, i: nat, kind: Kind)
    requires Inv(fs) && d in fs.ents && d in fs.ino && fs.ino[d].refs > 0 && fs.ino[d].nlink != 0 && i !in fs.ino
    ensures i !in fs.ents && d in Made(fs, d, n, i, kind).ino
    ensures var t := Put(Made(fs, d, n, i, kind), d);
            && OneEntry(fs, t, d, n, i)
            && i in t.ino && t.ino[i].kind == kind && t.ino[i].refs == 1 && (kind.Dir? ==> i in t.up && t.up[i] == d)
  {
    hide Names;
    hide Subs;
    hide PlaceOk;
    assert i in fs.ents ==> EntsOk(fs, i);
    assert InoOk(fs, d) && EntsOk(fs, d);
  }

  lemma BackAgain(fs: Fs, i: nat)
    requires Inv(fs) && i in fs.ino
    ensures Put(SetIno(fs, i, fs.ino[i].(refs := fs.ino[i].refs + 1)), i) == fs
  {
    assert InoOk(fs, i);
    assert fs.ino[i := fs.ino[i].(refs := fs.ino[i].refs + 1)][i := fs.ino[i]] == fs.ino;
  }

  lemma FreshBack(fs: Fs, d: nat, i: nat, kind: Kind)
    requires Inv(fs) && i !in fs.ino
    ensures var a := Fresh(fs, d, i, kind); Put(SetIno(a, i, a.ino[i].(nlink := 0)), i) == fs
  {
    FreshNames(fs, d, i, kind, i);
    assert i !in fs.ents;
    assert i !in fs.up;
    var a := Fresh(fs, d, i, kind);
    assert a.ino[i := a.ino[i].(nlink := 0)] - {i} == fs.ino;
    assert a.ents - {i} == fs.ents && a.up - {i} == fs.up;
  }

  class Tree {
    var fs: Fs

    ghost predicate Valid()
      reads this
    {
      Inv(fs)
    }

    /** The root alone, as mkfs leaves it. */
    constructor ()
      ensures Valid()
    {
      var m: map<string, nat> := map[];
      fs := Fs(map[ROOTINO := Ino(Dir, 2, 0)], map[ROOTINO := m], map[ROOTINO := ROOTINO]);
      new;
      assert Names(fs, ROOTINO) == {} && Subs(fs, ROOTINO) == {};
      assert InoOk(fs, ROOTINO) && EntsOk(fs, ROOTINO);
    }

    method Iput(i: nat)
      requires Valid() && i in fs.ino && fs.ino[i].refs > 0
      modifies this
      ensures Valid() && fs == Put(old(fs), i)
      ensures i !in fs.ino <==> old(fs).ino[i].refs == 1 && old(fs).ino[i].nlink == 0
      ensures i in fs.ino ==> fs.ino[i] == old(fs).ino[i].(refs := old(fs).ino[i].refs - 1)
      ensures forall j: nat | j != i ::
                (j in fs.ino <==> j in old(fs).ino) && (j in fs.ino ==> fs.ino[j] == old(fs).ino[j])
    {
      PutInv(fs, i);
      fs := if fs.ino[i].refs == 1 && fs.ino[i].nlink == 0 then Fs(fs.ino - {i}, fs.ents - {i}, fs.up - {i})
            else SetIno(fs, i, fs.ino[i].(refs := fs.ino[i].refs - 1));
    }

    /** create in directory dp, which nameiparent holds a reference to. `spare` is
        the inode that ialloc finds (0 if none); the flags say which dirlinks find
        no room. A name that is there, "." and ".." among them, is opened if a
        file was asked for and a file is there. Otherwise a new inode is there
        with its entry and the counts up, or, with answer 0, nothing has changed
        but the reference given back. */
    method Create(dp: nat, name: string, kind: Kind, spare: nat, noDots: bool, noRoom: bool) returns (ip: nat)
      requires Valid() && IsDir(fs, dp) && fs.ino[dp].nlink != 0 && fs.ino[dp].refs > 0 && !kind.Device?
      requires spare == 0 || spare !in fs.ino
      modifies this
      ensures Valid()
      ensures dp in old(fs).ents && dp in old(fs).up
      ensures ip == 0 ==> fs == Put(old(fs), dp)
      ensures ip != 0 && Found(old(fs), dp, name) != 0 ==>
                ip == Found(old(fs), dp, name) && kind.File? && ip in old(fs).ino && !old(fs).ino[ip].kind.Dir?
                && fs == Put(SetIno(old(fs), ip, old(fs).ino[ip].(refs := old(fs).ino[ip].refs + 1)), dp)
      ensures ip != 0 && Found(old(fs), dp, name) == 0 ==>
                ip == spare && fs == Put(Made(old(fs), dp, name, spare, kind), dp)
      ensures ip != 0 && Found(old(fs), dp, name) == 0 ==>
                OneEntry(old(fs), fs, dp, name, ip) && ip in fs.ino && fs.ino[ip].kind == kind
                && fs.ino[ip].refs == 1 && (kind.Dir? ==> ip in fs.up && fs.up[ip] == dp)
      ensures ip == 0 <==>
                if Found(old(fs), dp, name) != 0 then !(kind.File? && !IsDir(old(fs), Found(old(fs), dp, name)))
                           else spare == 0 || (kind.Dir? && noDots) || noRoom
    {
      hide Inv;
      hide OneEntry;
      FoundIs(fs, dp, name);
      ip := Found(fs, dp, name);
      if ip != 0 {
        GetInv(fs, ip);
        fs := SetIno(fs, ip, fs.ino[ip].(refs := fs.ino[ip].refs + 1));
        if kind.File? && (fs.ino[ip].kind.File? || fs.ino[ip].kind.Device?) {
          Iput(dp);
          return;
        }
        Iput(ip);
        assert fs == old(fs) by { BackAgain(old(fs), ip); }
        Iput(dp);
        ip := 0;
        return;
      }
      if spare == 0 {
        Iput(dp);
        ip := 0;
        return;
      }
      ip := spare;
      ghost var fs0 := fs;
      fs := Fresh(fs, dp, ip, kind);
      if (kind.Dir? && noDots) || noRoom {
        // fail: the link count goes back to 0, and iput frees the inode
        fs := SetIno(fs, ip, fs.ino[ip].(nlink := 0));
        FreshBack(fs0, dp, ip, kind);
        fs := Put(fs, ip);
        assert fs == fs0;
        Iput(dp);
        ip := 0;
        return;
      }
      fs := Bound(fs, dp, name, ip);
      if kind.Dir? { fs := SetIno(fs, dp, fs.ino[dp].(nlink := fs.ino[dp].nlink + 1)); }
      MadeInv(fs0, dp, name, ip, kind);
      assert fs == Made(fs0, dp, name, ip, kind);
      MadeEntry(fs0, dp, name, ip, kind);
      Iput(dp);
    }

    /** The end of sys_unlink: the entry is cleared and the counts go down. */
    method CutAway(dp: nat, name: string, ip: nat)
      requires Valid() && dp in fs.ents && name in fs.ents[dp] && fs.ents[dp][name] == ip
      requires ip in fs.ino && dp in fs.ino && Inv(Cut(fs, dp, name))
      modifies this
      ensures Valid() && fs == Cut(old(fs), dp, name)
    {
      hide Inv;
      var kind := fs.ino[ip].kind;
      fs := Unbound(fs, dp, name);
      if kind.Dir? {
        if fs.ino[dp].nlink > 0 { fs := SetIno(fs, dp, fs.ino[dp].(nlink := fs.ino[dp].nlink - 1)); }
      }
      fs := SetIno(fs, ip, fs.ino[ip].(nlink := fs.ino[ip].nlink - 1));
    }

    /** sys_unlink from directory dp, which nameiparent holds a reference to. The
        answer is -1, with nothing changed but that reference, for "." and "..",
        a name that is not there, or a directory that is not empty (the store of
        a cleared entry over a live one does not fail: Directory.ClearEnt);
        else the entry and one link are gone, and the inode with them if that was
        the last link and nobody holds it. */
    method Unlink(dp: nat, name: string) returns (r: int)
      requires Valid() && IsDir(fs, dp) && fs.ino[dp].nlink != 0 && fs.ino[dp].refs > 0
      modifies this
      ensures Valid() && dp in old(fs).ents && (r == 0 || r == -1)
      ensures r == -1 ==> fs == Put(old(fs), dp)
      ensures r == 0 ==>
                name in old(fs).ents[dp] && old(fs).ents[dp][name] in old(fs).ino && old(fs).ents[dp][name] != dp
      ensures r == 0 ==> var i := old(fs).ents[dp][name];
                fs == Put(Put(Cut(SetIno(old(fs), i, old(fs).ino[i].(refs := old(fs).ino[i].refs + 1)), dp, name),
                              dp), i)
      ensures r == 0 ==> OneEntry(old(fs), fs, dp, name, 0)
      ensures r == 0 <==> name != "." && name != ".." && name in old(fs).ents[dp]
                          && (IsDir(old(fs), old(fs).ents[dp][name]) ==>
                                old(fs).ents[dp][name] in old(fs).ents && old(fs).ents[old(fs).ents[dp][name]] == map[])
    {
      hide Inv;
      hide OneEntry;
      hide Cut;
      hide Put;
      InMap(fs, dp);
      ghost var fs0 := fs;
      r := -1;
      if name == "." || name == ".." || name !in fs.ents[dp] {
        Iput(dp);
        return;
      }
      var ip := fs.ents[dp][name];
      GetInv(fs, ip);
      fs := SetIno(fs, ip, fs.ino[ip].(refs := fs.ino[ip].refs + 1));
      Linked(fs, dp, name);
      if fs.ino[ip].nlink < 1 { assert false; }
      if fs.ino[ip].kind.Dir? { InMap(fs, ip); assert IsDir(fs0, ip); }
      if fs.ino[ip].kind.Dir? && fs.ents[ip] != map[] {
        Iput(ip);
        BackAgain(fs0, ip);
        Iput(dp);
        return;
      }
      ghost var fs1 := fs;
      CutInv(fs1, dp, name);
      CutAway(dp, name, ip);
      CutLeaves(fs0, fs1, dp, name, ip);
      Iput(dp);
      Iput(ip);
      r := 0;
    }

    /** sys_link of the inode ip that namei found and holds; `dp` is what
        nameiparent of the new path finds and holds (0 if nothing). The answer is
        -1, with the link count put back, for a directory, a path that will not
        do, a name that is there ("." and ".." always are), or no room; else there is one entry and one link more. */
    method Link(ip: nat, dp: nat, name: string, noRoom: bool) returns (r: int)
      requires Valid() && ip in fs.ino && fs.ino[ip].refs > 0 && fs.ino[ip].nlink > 0
      requires dp != 0 ==> dp != ip && dp in fs.ino && fs.ino[dp].refs > 0 && fs.ino[dp].nlink != 0
      modifies this
      ensures Valid() && (r == 0 || r == -1)
      ensures r == -1 ==> fs == Put(if dp != 0 && !IsDir(old(fs), ip) then Put(old(fs), dp) else old(fs), ip)
      ensures r == 0 <==> !IsDir(old(fs), ip) && dp != 0 && IsDir(old(fs), dp) && !noRoom
                          && !(dp in old(fs).ents && dp in old(fs).up && Found(old(fs), dp, name) != 0)
      ensures r == 0 ==> dp in old(fs).ents
      ensures r == 0 ==>
                fs == Put(Put(Bound(SetIno(old(fs), ip, old(fs).ino[ip].(nlink := old(fs).ino[ip].nlink + 1)), dp,
                                    name, ip), dp), ip)
      ensures r == 0 ==> OneEntry(old(fs), fs, dp, name, ip)
    {
      hide Inv;
      hide OneEntry;
      ghost var fs0 := fs;
      r := -1;
      if fs.ino[ip].kind.Dir? {
        Iput(ip);
        return;
      }
      fs := SetIno(fs, ip, fs.ino[ip].(nlink := fs.ino[ip].nlink + 1));
      if dp != 0 && fs.ino[dp].kind.Dir? {
        assert IsDir(fs0, dp);
        FoundIs(fs0, dp, name);
        if Found(fs, dp, name) == 0 && !noRoom {
          fs := Bound(fs, dp, name, ip);
          LinkInv(fs0, dp, name, ip);
          LinkEntry(fs0, dp, name, ip, fs.ino[ip]);
          PutEntries(fs0, fs, dp, name, ip, dp);
          Iput(dp);
          PutEntries(fs0, fs, dp, name, ip, ip);
          Iput(ip);
          r := 0;
          return;
        }
      }
      ghost var was := fs;
      if dp != 0 { fs := Put(fs, dp); }
      // bad: the link is taken back
      if fs.ino[ip].nlink > 0 { fs := SetIno(fs, ip, fs.ino[ip].(nlink := fs.ino[ip].nlink - 1)); }
      TakenBack(fs0, ip, dp);
      if dp != 0 { PutInv(fs0, dp); }
      Iput(ip);
    }
  }

  lemma Linked(fs: Fs, d: nat, n: string)
    requires Inv(fs) && d in fs.ents && n in fs.ents[d] && fs.ents[d][n] in fs.ino
    ensures fs.ino[fs.ents[d][n]].nlink >= 1
  {
    var i := fs.ents[d][n];
    assert InoOk(fs, i);
    assert (d, n) in Names(fs, i);
  }

  lemma TakenBack(fs: Fs, i: nat, d: nat)
    requires i in fs.ino && fs.ino[i].nlink > 0
    requires d != 0 ==> d != i && d in fs.ino && fs.ino[d].refs > 0 && fs.ino[d].nlink != 0
    ensures var up := SetIno(fs, i, fs.ino[i].(nlink := fs.ino[i].nlink + 1));
            var put := if d != 0 then Put(up, d) else up;
            i in put.ino
            && SetIno(put, i, put.ino[i].(nlink := put.ino[i].nlink - 1)) == if d != 0 then Put(fs, d) else fs
  {
    var x := fs.ino[i];
    assert fs.ino[i := x.(nlink := x.nlink + 1)][i := x] == fs.ino;
    if d != 0 {
      var y := fs.ino[d].(refs := fs.ino[d].refs - 1);
      assert fs.ino[i := x.(nlink := x.nlink + 1)][d := y][i := x] == fs.ino[d := y];
    }
  }
}
