/** Packing a file into a FAT16 image: fat16_pack.py. */
module Fat16 {
  import opened Common
  import opened Wrappers

  const EOC: nat := 0xFFF8

  /** A root directory entry; the first byte of the name says whether it is free. */
  datatype Entry = Entry(name: seq<byte>, attr: nat, cluster: nat, size: nat)

  predicate Live(e: Entry) { |e.name| == 11 && e.name[0] != 0x00 && e.name[0] != 0xE5 }

  /** An entry of attribute 0x0F holds part of a long name, all through; any other
      live one a cluster and a size. */
  predicate IsFile(e: Entry) { Live(e) && e.attr != 0x0F }

  /** Where cluster 2 starts, the bytes of a cluster, and how many there are. */
  datatype Geo = Geo(base: nat, bytes: nat, clusters: nat)

  predicate GeoOk(g: Geo, img: seq<byte>) {
    g.bytes > 0 && g.clusters + 2 <= EOC && g.base + g.clusters * g.bytes <= |img|
  }

  function Offset(g: Geo, c: nat): nat
    requires c >= 2
  {
    g.base + (c - 2) * g.bytes
  }

  predicate InRange(g: Geo, c: nat) { 2 <= c < g.clusters + 2 }

  lemma OffsetFits(g: Geo, img: seq<byte>, c: nat)
    requires GeoOk(g, img) && InRange(g, c)
    ensures Offset(g, c) + g.bytes <= |img|
  {
    MulLe(c - 1, g.clusters, g.bytes);
    assert (c - 2) * g.bytes + g.bytes == (c - 1) * g.bytes;
  }

  lemma MulLe(a: nat, b: nat, n: nat)
    requires a <= b
    ensures a * n <= b * n
  {
  }

  lemma OffsetsApart(g: Geo, c: nat, d: nat)
    requires 2 <= c < d
    ensures Offset(g, c) + g.bytes <= Offset(g, d)
  {
    MulLe(c - 1, d - 2, g.bytes);
    assert (c - 2) * g.bytes + g.bytes == (c - 1) * g.bytes;
  }

  function Cluster(img: seq<byte>, g: Geo, c: nat): seq<byte>
    requires GeoOk(g, img) && InRange(g, c)
  {
    OffsetFits(g, img, c);
    img[Offset(g, c)..Offset(g, c) + g.bytes]
  }

  // ---- chains ----

  /** q is what following the table from c gives: all of it, with no cluster
      twice, ended by an end mark. */
  predicate IsChain(fat: seq<nat>, c: nat, q: seq<nat>)
    decreases |q|
  {
    if q == [] then c < 2
    else
      && c == q[0] && 2 <= c < |fat| && c < EOC
      && (forall i: nat | 0 < i < |q| :: q[i] != c)
      && if |q| == 1 then fat[c] >= EOC else fat[c] < EOC && IsChain(fat, fat[c], q[1..])
  }

  /** Following the table, for at most `fuel` steps. */
  function Follow(fat: seq<nat>, c: nat, fuel: nat): seq<nat>
    decreases fuel
  {
    if fuel == 0 || c < 2 || c >= |fat| || c >= EOC then [] else [c] + Follow(fat, fat[c], fuel - 1)
  }

  lemma {:induction false} FollowChain(fat: seq<nat>, c: nat, q: seq<nat>, fuel: nat)
    requires IsChain(fat, c, q) && |q| <= fuel
    ensures Follow(fat, c, fuel) == q
    decreases |q|
  {
    if |q| > 1 {
      FollowChain(fat, fat[c], q[1..], fuel - 1);
      assert q == [c] + q[1..];
    } else if |q| == 1 {
      assert q == [c];
      assert Follow(fat, fat[c], fuel - 1) == [];
    }
  }

  /** A chain depends only on its own entries. */
  lemma {:induction false} ChainSame(fat: seq<nat>, fat': seq<nat>, c: nat, q: seq<nat>)
    requires IsChain(fat, c, q) && |fat'| == |fat| && forall x: nat | x in q && x < |fat| :: fat'[x] == fat[x]
    ensures IsChain(fat', c, q)
    decreases |q|
  {
    if |q| > 1 {
      assert forall x: nat | x in q[1..] :: x in q;
      ChainSame(fat, fat', fat[c], q[1..]);
    }
  }

  lemma {:induction false} ChainIn(fat: seq<nat>, c: nat, q: seq<nat>, i: nat)
    requires IsChain(fat, c, q) && i < |q|
    ensures 2 <= q[i] < |fat| && q[i] < EOC && fat[q[i]] >= 2
    decreases |q|
  {
    if |q| > 1 {
      assert IsChain(fat, fat[c], q[1..]);
      if i > 0 { ChainIn(fat, fat[c], q[1..], i - 1); }
    }
  }

  /** The table with the entries of q cleared. */
  function Cleared(fat: seq<nat>, q: seq<nat>): seq<nat>
    decreases |q|
  {
    if q == [] then fat else Cleared(if q[0] < |fat| then fat[q[0] := 0] else fat, q[1..])
  }

  lemma {:induction false} ClearedAt(fat: seq<nat>, q: seq<nat>, x: nat)
    requires x < |fat|
    ensures |Cleared(fat, q)| == |fat| && Cleared(fat, q)[x] == if x in q then 0 else fat[x]
    decreases |q|
  {
    if q != [] {
      ClearedAt(if q[0] < |fat| then fat[q[0] := 0] else fat, q[1..], x);
      assert q == [q[0]] + q[1..];
    }
  }

  lemma {:induction false} ClearedSize(fat: seq<nat>, q: seq<nat>)
    ensures |Cleared(fat, q)| == |fat|
    decreases |q|
  {
    if q != [] { ClearedSize(if q[0] < |fat| then fat[q[0] := 0] else fat, q[1..]); }
  }

  /** Entries from 2 on that are in use. */
  function InUse(fat: seq<nat>): nat {
    if fat == [] then 0 else InUse(fat[..|fat| - 1]) + if |fat| > 2 && fat[|fat| - 1] != 0 then 1 else 0
  }

  lemma {:induction false} InUseBound(fat: seq<nat>)
    ensures InUse(fat) <= if |fat| <= 2 then 0 else |fat| - 2
  {
    if fat != [] { InUseBound(fat[..|fat| - 1]); }
  }

  lemma {:induction false} InUseClear(fat: seq<nat>, c: nat)
    requires 2 <= c < |fat|
    ensures InUse(fat[c := 0]) == InUse(fat) - if fat[c] != 0 then 1 else 0
  {
    var p := fat[..|fat| - 1];
    if c == |fat| - 1 {
      assert fat[c := 0][..|fat| - 1] == p;
    } else {
      InUseClear(p, c);
      assert fat[c := 0][..|fat| - 1] == p[c := 0];
    }
  }

  /** The clusters free_chain comes to on any table, in order. It clears each entry
      before it follows it, so it stops at the first entry it meets twice. */
  function Walked(fat: seq<nat>, c: nat): seq<nat>
    decreases InUse(fat), if c < 2 then 0 else 1
  {
    if c < 2 || c >= |fat| || c >= EOC then []
    else
      InUseClear(fat, c);
      [c] + Walked(fat[c := 0], fat[c])
  }

  lemma {:induction false} WalkedChain(fat: seq<nat>, c: nat, q: seq<nat>)
    requires IsChain(fat, c, q)
    ensures Walked(fat, c) == q
    decreases |q|
  {
    if |q| == 1 {
      assert Walked(fat[c := 0], fat[c]) == [];
      assert q == [c];
    } else if |q| > 1 {
      ChainSame(fat, fat[c := 0], fat[c], q[1..]);
      WalkedChain(fat[c := 0], fat[c], q[1..]);
      assert q == [c] + q[1..];
    }
  }

  /** A cluster starts at most one chain. */
  lemma ChainOnly(fat: seq<nat>, c: nat, p: seq<nat>, q: seq<nat>)
    requires IsChain(fat, c, p) && IsChain(fat, c, q)
    ensures p == q
  {
    WalkedChain(fat, c, p);
    WalkedChain(fat, c, q);
  }

  // ---- allocation ----

  predicate Unused(fat: seq<nat>, c: nat) { 2 <= c < |fat| && fat[c] == 0 }

  /** q links its clusters in order, up to an end mark. */
  function Linked(fat: seq<nat>, q: seq<nat>, i: nat): (r: seq<nat>)
    requires i <= |q| && forall j: nat | j < |q| :: q[j] < |fat|
    ensures |r| == |fat|
    decreases i
  {
    if i == 0 then fat else Linked(fat, q, i - 1)[q[i - 1] := if i == |q| then 0xFFFF else q[i]]
  }

  predicate Rising(q: seq<nat>) { forall i: nat, j: nat {:trigger q[i], q[j]} | i < j < |q| :: q[i] < q[j] }

  lemma {:induction false} LinkedAt(fat: seq<nat>, q: seq<nat>, i: nat, x: nat)
    requires i <= |q| && Rising(q) && (forall j: nat | j < |q| :: q[j] < |fat|) && x < |fat|
    ensures |Linked(fat, q, i)| == |fat|
    ensures x !in q[..i] ==> Linked(fat, q, i)[x] == fat[x]
    ensures forall j: nat | j < i && q[j] == x :: Linked(fat, q, i)[x] == if j + 1 == |q| then 0xFFFF else q[j + 1]
    decreases i
  {
    if i > 0 {
      LinkedAt(fat, q, i - 1, x);
      assert q[..i] == q[..i - 1] + [q[i - 1]];
    }
  }

  lemma {:induction false} LinkedChain(fat: seq<nat>, fat': seq<nat>, q: seq<nat>, k: nat)
    requires k < |q| && Rising(q) && |fat'| == |fat|
    requires forall j: nat | j < |q| :: 2 <= q[j] < |fat| && q[j] < EOC
    requires forall j: nat | j < |q| :: fat'[q[j]] == if j + 1 == |q| then 0xFFFF else q[j + 1]
    ensures IsChain(fat', q[k], q[k..])
    decreases |q| - k
  {
    var r := q[k..];
    assert forall i: nat | 0 < i < |r| :: r[i] == q[k + i] && q[k + i] != q[k];
    assert fat'[q[k]] == if k + 1 == |q| then 0xFFFF else q[k + 1];
    if k + 1 < |q| {
      LinkedChain(fat, fat', q, k + 1);
      assert r[1..] == q[k + 1..];
    }
  }

  // ---- files ----

  /** The clusters of a chain, one after the other. */
  function Gather(img: seq<byte>, g: Geo, q: seq<nat>): seq<byte>
    requires GeoOk(g, img) && forall i: nat | i < |q| :: InRange(g, q[i])
    decreases |q|
  {
    if q == [] then [] else Cluster(img, g, q[0]) + Gather(img, g, q[1..])
  }

  lemma {:induction false} GatherSame(img: seq<byte>, img': seq<byte>, g: Geo, q: seq<nat>)
    requires GeoOk(g, img) && GeoOk(g, img') && forall i: nat | i < |q| :: InRange(g, q[i])
    requires forall x: nat | x in q && InRange(g, x) :: Cluster(img', g, x) == Cluster(img, g, x)
    ensures Gather(img', g, q) == Gather(img, g, q)
    decreases |q|
  {
    if q != [] {
      forall i: nat | i < |q[1..]| ensures InRange(g, q[1..][i]) { assert q[1..][i] == q[i + 1]; }
      assert forall x: nat | x in q[1..] :: x in q;
      GatherSame(img, img', g, q[1..]);
    }
  }

  predicate Apart(a: seq<nat>, b: seq<nat>) { forall x: nat | x in a :: x !in b }

  /** A file owns the chain from its cluster, long enough for its size; of what the
      other entries hold nothing is asked. */
  predicate Owns(e: Entry, fat: seq<nat>, g: Geo, q: seq<nat>) {
    && (forall j: nat | j < |q| :: InRange(g, q[j]))
    && if IsFile(e) then IsChain(fat, e.cluster, q) && e.size <= |q| * g.bytes else q == []
  }

  /** Every file owns its chain, and the chains are disjoint. */
  ghost predicate Inv(img: seq<byte>, fat: seq<nat>, root: seq<Entry>, g: Geo, chains: seq<seq<nat>>) {
    && GeoOk(g, img) && |chains| == |root|
    && (forall i: nat {:trigger Owns(root[i], fat, g, chains[i])} | i < |root| :: Owns(root[i], fat, g, chains[i]))
    && (forall i: nat, j: nat {:trigger Apart(chains[i], chains[j])} | i < |root| && j < |root| && i != j ::
           Apart(chains[i], chains[j]))
  }

  /** The bytes of a file: its chain, followed in the table, up to its size. */
  function FileBytes(img: seq<byte>, fat: seq<nat>, g: Geo, e: Entry): seq<byte>
    requires GeoOk(g, img)
  {
    var q := Follow(fat, e.cluster, |fat|);
    if (forall i: nat | i < |q| :: InRange(g, q[i])) && e.size <= |Gather(img, g, q)| then Gather(img, g, q)[..e.size]
      else []
  }

  lemma {:induction false} GatherSize(img: seq<byte>, g: Geo, q: seq<nat>)
    requires GeoOk(g, img) && forall i: nat | i < |q| :: InRange(g, q[i])
    ensures |Gather(img, g, q)| == |q| * g.bytes
    decreases |q|
  {
    if q != [] {
      forall i: nat | i < |q[1..]| ensures InRange(g, q[1..][i]) { assert q[1..][i] == q[i + 1]; }
      GatherSize(img, g, q[1..]);
      OffsetFits(g, img, q[0]);
      assert |q| * g.bytes == g.bytes + (|q| - 1) * g.bytes;
    }
  }

  /** A chain has no more clusters than the table has entries. */
  lemma ChainShort(fat: seq<nat>, c: nat, q: seq<nat>)
    requires IsChain(fat, c, q)
    ensures |q| <= |fat|
  {
    ChainUnique(fat, c, q);
    forall i: nat | i < |q| ensures q[i] < |fat| { ChainIn(fat, c, q, i); }
    Pigeon(q, |fat|);
  }

  lemma {:induction false} ChainUnique(fat: seq<nat>, c: nat, q: seq<nat>)
    requires IsChain(fat, c, q)
    ensures forall i: nat, j: nat {:trigger q[i], q[j]} | i < j < |q| :: q[i] != q[j]
    decreases |q|
  {
    if |q| > 1 {
      ChainUnique(fat, fat[c], q[1..]);
      forall i: nat, j: nat | i < j < |q| ensures q[i] != q[j] {
        if i > 0 { assert q[1..][i - 1] != q[1..][j - 1]; }
      }
    }
  }

  lemma {:induction false} Pigeon(q: seq<nat>, n: nat)
    requires forall i: nat | i < |q| :: q[i] < n
    requires forall i: nat, j: nat {:trigger q[i], q[j]} | i < j < |q| :: q[i] != q[j]
    ensures |q| <= n
    decreases n
  {
    if q != [] {
      assert q[0] < n;
      if k: nat :| k < |q| && q[k] == n - 1 {
        var r := q[..k] + q[k + 1..];
        forall i: nat | i < |r| ensures r[i] < n - 1 {
          var m := if i < k then i else i + 1;
          assert r[i] == q[m] && (m < k ==> q[m] != q[k]) && (k < m ==> q[k] != q[m]);
        }
        forall i: nat, j: nat | i < j < |r| ensures r[i] != r[j] {
          assert r[i] == q[if i < k then i else i + 1] && r[j] == q[if j < k then j else j + 1];
        }
        Pigeon(r, n - 1);
      } else {
        Pigeon(q, n - 1);
      }
    }
  }

  /** What a reader following the table finds is what the owned chain holds. */
  lemma FileBytesIs(img: seq<byte>, fat: seq<nat>, g: Geo, e: Entry, q: seq<nat>)
    requires GeoOk(g, img) && Owns(e, fat, g, q) && IsFile(e)
    ensures e.size <= |Gather(img, g, q)| && FileBytes(img, fat, g, e) == Gather(img, g, q)[..e.size]
  {
    ChainShort(fat, e.cluster, q);
    FollowChain(fat, e.cluster, q, |fat|);
    GatherSize(img, g, q);
  }

  // ---- the program ----

  datatype Error = RootFull | NoSpace

  class Image {
    const g: Geo
    var img: seq<byte>
    var fat: seq<nat>
    var root: seq<Entry>
    ghost var chains: seq<seq<nat>>

    ghost predicate Valid()
      reads this
    {
      Inv(img, fat, root, g, chains)
    }

    /** free_chain, on any table at all: it stops, it never reports a loop, since
        each turn but the last clears an entry that was in use, and exactly the
        clusters it comes to are cleared. */
    method FreeChain(first: nat)
      modifies this`fat
      ensures SameBelow(fat, Cleared(old(fat), Walked(old(fat), first)))
    {
      var c: nat := first;
      var visited := 0;
      InUseBound(fat);
      ClearedSize(fat, Walked(fat, first));
      while c >= 2 && c < |fat| && c < EOC
        invariant |fat| == |old(fat)|
        invariant visited + InUse(fat) <= InUse(old(fat)) + if c < 2 then 1 else 0
        invariant Cleared(fat, Walked(fat, c)) == Cleared(old(fat), Walked(old(fat), first))
        decreases InUse(fat), if c < 2 then 0 else 1
      {
        var nxt := fat[c];
        InUseClear(fat, c);
        assert Walked(fat, c) == [c] + Walked(fat[c := 0], nxt);
        fat := fat[c := 0];
        c := nxt;
        visited := visited + 1;
        InUseBound(old(fat));
        if visited > |fat| { assert false; }
      }
      if c >= 2 && c < |fat| { fat := fat[c := 0]; }
    }

    /** alloc_clusters: the first `count` unused clusters, linked in order. */
    method AllocClusters(count: nat) returns (ok: bool, free: seq<nat>)
      modifies this`fat
      ensures ok ==> |free| == count && FirstFree(old(fat), g, free) && fat == Linked(old(fat), free, count)
      ensures ok && count > 0 ==> forall x: nat | x < free[count - 1] && Unused(old(fat), x) :: x in free
      ensures !ok ==> fat == old(fat)
      ensures ok <==> count <= |FreeSet(old(fat), g)|
    {
      ok, free := true, [];
      if count == 0 { return; }
      var c: nat := 2;
      while c < g.clusters + 2
        invariant 2 <= c <= g.clusters + 2 && |free| < count && FirstFree(fat, g, free) && fat == old(fat)
        invariant forall i: nat | i < |free| :: free[i] < c
        invariant forall x: nat | x < c && Unused(fat, x) :: x in free
      {
        if c < |fat| && fat[c] == 0 {
          free := free + [c];
          if |free| == count { break; }
        }
        c := c + 1;
      }
      if |free| != count {
        AllFree(fat, g, free);
        ok := false;
        return;
      }
      SomeFree(fat, g, free);
      LinkUp(free);
    }

    /** Its second loop: each cluster names the next, the last the end mark. */
    method LinkUp(free: seq<nat>)
      requires forall j: nat | j < |free| :: free[j] < |fat|
      modifies this`fat
      ensures fat == Linked(old(fat), free, |free|)
    {
      var i := 0;
      while i < |free|
        invariant i <= |free| && fat == Linked(old(fat), free, i)
      {
        fat := fat[free[i] := if i == |free| - 1 then 0xFFFF else free[i + 1]];
        i := i + 1;
      }
    }

    /** find_root_entry: the first live entry of that name, long-name parts aside,
        and the first free one met on the way. */
    method FindRootEntry(name: seq<byte>) returns (existing: Option<nat>, firstFree: Option<nat>)
      requires forall i: nat | i < |root| :: |root[i].name| == 11
      ensures existing.Some? ==> existing.value < |root| && Named(root[existing.value], name)
      ensures existing.Some? ==> forall j: nat | j < existing.value :: !Named(root[j], name)
      ensures existing.None? ==> forall j: nat | j < |root| :: !Named(root[j], name)
      ensures firstFree.Some? ==> firstFree.value < |root| && !Live(root[firstFree.value])
      ensures firstFree.None? ==> forall j: nat | j < |root| && (existing.None? || j < existing.value) :: Live(root[j])
      ensures firstFree.Some? ==> forall j: nat | j < firstFree.value :: Live(root[j])
    {
      existing, firstFree := None, None;
      var i := 0;
      while i < |root|
        invariant i <= |root| && existing.None?
        invariant forall j: nat | j < i :: !Named(root[j], name)
        invariant firstFree.Some? ==> firstFree.value < i && !Live(root[firstFree.value])
        invariant firstFree.Some? ==> forall j: nat | j < firstFree.value :: Live(root[j])
        invariant firstFree.None? ==> forall j: nat | j < i :: Live(root[j])
      {
        var e := root[i];
        if e.name[0] == 0x00 || e.name[0] == 0xE5 {
          if firstFree.None? { firstFree := Some(i); }
        } else if e.attr == 0x0F {
        } else if e.name == name {
          existing := Some(i);
          return;
        }
        i := i + 1;
      }
    }

    /** The loop that copies the file into its clusters, the last one padded. */
    method CopyIn(data: seq<byte>, q: seq<nat>)
      requires GeoOk(g, img) && (forall j: nat | j < |q| :: InRange(g, q[j])) && Rising(q)
      requires |data| <= |q| * g.bytes
      modifies this`img
      ensures GeoOk(g, img)
      ensures forall j: nat | j < |q| :: Cluster(img, g, q[j]) == Piece(data, g.bytes, j)
      ensures forall d: nat | InRange(g, d) && d !in q :: Cluster(img, g, d) == Cluster(old(img), g, d)
    {
      hide Cluster;
      hide Piece;
      hide Offset;
      hide GeoOk;
      var i := 0;
      while i < |q|
        invariant i <= |q| && GeoOk(g, img)
        invariant forall j: nat | j < i :: Cluster(img, g, q[j]) == Piece(data, g.bytes, j)
        invariant forall d: nat | InRange(g, d) && d !in q :: Cluster(img, g, d) == Cluster(old(img), g, d)
      {
        var off := Offset(g, q[i]);
        OffsetFits(g, img, q[i]);
        var piece := Piece(data, g.bytes, i);
        ghost var was := img;
        img := img[..off] + piece + img[off + g.bytes..];
        PutAll(was, g, q[i], piece);
        assert forall j: nat | j < i :: q[j] != q[i];
        i := i + 1;
      }
    }

    /** write_file_into_image: on success the file reads back as the data, every
        other file reads as before, and the image is again well formed, exactly if
        what the entry it puts the file in named before, which free_chain clears,
        is in no other file's chain. So it is when a file is replaced. It refuses a
        full root, and more data than clusters, once those are cleared. */
    method WriteFile(name: seq<byte>, data: seq<byte>) returns (r: Option<Error>, ghost idx: nat)
      requires Valid() && |name| == 11 && name[0] != 0x00 && name[0] != 0xE5
      requires forall i: nat | i < |root| :: |root[i].name| == 11
      modifies this
      ensures r == Some(RootFull) <==>
                forall j: nat | j < |old(root)| :: Live(old(root)[j]) && !Named(old(root)[j], name)
      ensures idx < |old(root)| || r == Some(RootFull)
      ensures r != Some(RootFull) ==>
                Named(old(root)[idx], name)
                || (!Live(old(root)[idx]) && forall j: nat | j < |old(root)| :: !Named(old(root)[j], name))
      ensures r != Some(RootFull) && Named(old(root)[idx], name) ==>
                Spares(old(fat), old(root)[idx].cluster, old(chains), idx)
      ensures r != Some(RootFull) ==>
                (r == Some(NoSpace) <==>
                  Needed(|data|, g.bytes) > |FreeSet(Cleared(old(fat), Walked(old(fat), old(root)[idx].cluster)), g)|)
      ensures r.Some? ==> root == old(root) && img == old(img)
      ensures r.None? ==>
                |root| == |old(root)| && root == old(root)[idx := root[idx]] && root[idx].name == name
                && root[idx].attr == 0x20 && root[idx].size == |data| && (data == [] ==> root[idx].cluster == 0)
                && IsFile(root[idx])
                          && GeoOk(g, img) && FileBytes(img, fat, g, root[idx]) == data
      ensures r.None? && Spares(old(fat), old(root)[idx].cluster, old(chains), idx) ==>
                Valid() && forall j: nat | j < |root| && j != idx && IsFile(root[j]) ::
                             FileBytes(img, fat, g, root[j]) == old(FileBytes(img, fat, g, root[j]))
      ensures r.None? && !Spares(old(fat), old(root)[idx].cluster, old(chains), idx) ==>
                !WellFormed(img, fat, root, g)
    {
      hide Owns;
      hide Walked;
      hide Cleared;
      hide Inv;
      hide GeoOk;
      hide FileBytes;
      hide Spares;
      hide OthersOwn;
      hide WellFormed;
      hide FreeSet;
      hide Needed;
      InvGeo(img, fat, root, g, chains);
      var existing, firstFree := FindRootEntry(name);
      idx := 0;
      if existing.None? && firstFree.None? {
        r := Some(RootFull);
        return;
      }
      var at := if existing.Some? then existing.value else firstFree.value;
      idx := at;
      ghost var fat0, chains0 := fat, chains;
      var oldCluster := root[at].cluster;
      ghost var w := Walked(fat, oldCluster);
      if Named(root[at], name) { FileSpares(img, fat, root, g, chains, at); }
      WalkedLow(fat, oldCluster);
      if oldCluster >= 2 { FreeChain(oldCluster); }
      ghost var fat1 := fat;
      SameFree(fat1, Cleared(fat0, w), g);
      var nclus := (|data| + g.bytes - 1) / g.bytes;
      Rounded(|data|, g.bytes);
      var ok, q := AllocClusters(nclus);
      if !ok {
        r := Some(NoSpace);
        return;
      }
      AllocIn(fat1, g, q);
      CopyIn(data, q);
      var e := Entry(name, 0x20, if q == [] then 0 else q[0], |data|);
      FilePut(old(img), img, fat0, fat1, fat, root, g, chains0, at, e, q, data);
      root := root[at := e];
      chains := chains0[at := q];
      r := None;
    }
  }

  /** For some choice of chains. */
  ghost predicate WellFormed(img: seq<byte>, fat: seq<nat>, root: seq<Entry>, g: Geo) {
    exists chains: seq<seq<nat>> :: Inv(img, fat, root, g, chains)
  }

  /** Clearing what is reached from c leaves the chains of all entries but one. */
  ghost predicate Spares(fat: seq<nat>, c: nat, chains: seq<seq<nat>>, at: nat) {
    forall j: nat {:trigger chains[j]} | j < |chains| && j != at :: Apart(chains[j], Walked(fat, c))
  }

  /** Clusters for that many bytes. */
  function Needed(len: nat, n: nat): nat
    requires n > 0
  {
    (len + n - 1) / n
  }

  lemma InvGeo(img: seq<byte>, fat: seq<nat>, root: seq<Entry>, g: Geo, chains: seq<seq<nat>>)
    requires Inv(img, fat, root, g, chains)
    ensures GeoOk(g, img) && g.bytes > 0 && g.clusters + 2 <= EOC && |chains| == |root|
  {
  }

  lemma WalkedLow(fat: seq<nat>, c: nat)
    ensures c < 2 ==> Walked(fat, c) == [] && SameBelow(fat, Cleared(fat, Walked(fat, c)))
  {
  }

  /** A file's own chain is all that is cleared for it. */
  lemma FileSpares(img: seq<byte>, fat: seq<nat>, root: seq<Entry>, g: Geo, chains: seq<seq<nat>>, at: nat)
    requires Inv(img, fat, root, g, chains) && at < |root| && IsFile(root[at])
    ensures Walked(fat, root[at].cluster) == chains[at] && Spares(fat, root[at].cluster, chains, at)
  {
    assert Owns(root[at], fat, g, chains[at]);
    WalkedChain(fat, root[at].cluster, chains[at]);
    forall j: nat | j < |chains| && j != at ensures Apart(chains[j], chains[at]) {}
  }

  lemma SameFree(a: seq<nat>, b: seq<nat>, g: Geo)
    requires SameBelow(a, b) && g.clusters + 2 <= EOC
    ensures FreeSet(a, g) == FreeSet(b, g)
  {
  }

  predicate Named(e: Entry, name: seq<byte>) { IsFile(e) && e.name == name }

  /** q lists unused clusters, in rising order. */
  predicate FirstFree(fat: seq<nat>, g: Geo, q: seq<nat>) {
    && Rising(q)
    && (forall i: nat | i < |q| :: InRange(g, q[i]) && Unused(fat, q[i]))
  }

  /** The clusters that can be allocated. */
  function FreeSet(fat: seq<nat>, g: Geo): set<nat> { set c: nat | c < g.clusters + 2 && Unused(fat, c) }

  lemma AllFree(fat: seq<nat>, g: Geo, q: seq<nat>)
    requires FirstFree(fat, g, q) && forall x: nat | x < g.clusters + 2 && Unused(fat, x) :: x in q
    ensures |FreeSet(fat, g)| == |q|
  {
    assert Elems(q) == FreeSet(fat, g);
    RisingSet(q);
  }

  lemma SomeFree(fat: seq<nat>, g: Geo, q: seq<nat>)
    requires FirstFree(fat, g, q)
    ensures |q| <= |FreeSet(fat, g)|
  {
    assert Elems(q) <= FreeSet(fat, g);
    RisingSet(q);
    SubsetSize(Elems(q), FreeSet(fat, g));
  }

  lemma {:induction false} RisingSet(q: seq<nat>)
    requires Rising(q)
    ensures |Elems(q)| == |q|
  {
    if q != [] {
      var p, x := q[..|q| - 1], q[|q| - 1];
      RisingSet(p);
      assert q == p + [x];
      assert x !in p by { forall i: nat | i < |p| ensures p[i] != x { assert q[i] < q[|q| - 1]; } }
      assert Elems(q) == Elems(p) + {x};
    }
  }

  /** Piece i of the data, in clusters of n bytes, the last padded with zeros. */
  function Piece(data: seq<byte>, n: nat, i: nat): (p: seq<byte>)
    ensures |p| == n
  {
    var from := i * n;
    if from >= |data| then seq(n, _ => 0)
    else if from + n <= |data| then data[from..from + n]
    else data[from..] + seq(n - (|data| - from), _ => 0)
  }

  lemma PutCluster(img: seq<byte>, g: Geo, c: nat, piece: seq<byte>, d: nat)
    requires GeoOk(g, img) && InRange(g, c) && InRange(g, d) && |piece| == g.bytes
    ensures Offset(g, c) + g.bytes <= |img|
    ensures var img' := img[..Offset(g, c)] + piece + img[Offset(g, c) + g.bytes..];
            GeoOk(g, img') && Cluster(img', g, d) == if d == c then piece else Cluster(img, g, d)
  {
    OffsetFits(g, img, c);
    OffsetFits(g, img, d);
    if c < d { OffsetsApart(g, c, d); } else if d < c { OffsetsApart(g, d, c); }
  }

  /** The image with a cluster replaced, seen whole. */
  lemma PutAll(img: seq<byte>, g: Geo, c: nat, piece: seq<byte>)
    requires GeoOk(g, img) && InRange(g, c) && |piece| == g.bytes
    ensures Offset(g, c) + g.bytes <= |img|
    ensures var img' := img[..Offset(g, c)] + piece + img[Offset(g, c) + g.bytes..];
            GeoOk(g, img')
            && forall d: nat | InRange(g, d) :: Cluster(img', g, d) == if d == c then piece else Cluster(img, g, d)
  {
    hide Cluster;
    hide Offset;
    PutCluster(img, g, c, piece, c);
    forall d: nat | InRange(g, d)
      ensures Cluster(img[..Offset(g, c)] + piece + img[Offset(g, c) + g.bytes..], g, d) == if d == c then piece
                else Cluster(img, g, d)
    {
      PutCluster(img, g, c, piece, d);
    }
  }

  lemma Rounded(len: nat, n: nat)
    requires n > 0
    ensures var k := Needed(len, n); k == (len + n - 1) / n && len <= k * n && (len == 0 <==> k == 0)
  {
    var k := (len + n - 1) / n;
    assert k * n + (len + n - 1) % n == len + n - 1;
  }

  lemma AllocIn(fat: seq<nat>, g: Geo, q: seq<nat>)
    requires FirstFree(fat, g, q) && g.clusters + 2 <= EOC
    ensures forall j: nat | j < |q| :: InRange(g, q[j]) && q[j] < |fat| && fat[q[j]] == 0
  {
  }

  lemma {:induction false} GatherPieces(img: seq<byte>, g: Geo, q: seq<nat>, data: seq<byte>)
    requires GeoOk(g, img) && (forall j: nat | j < |q| :: InRange(g, q[j])) && |data| <= |q| * g.bytes
    requires forall j: nat | j < |q| :: Cluster(img, g, q[j]) == Piece(data, g.bytes, j)
    ensures |data| <= |Gather(img, g, q)| && Gather(img, g, q)[..|data|] == data
    decreases |q|
  {
    var n := g.bytes;
    if q != [] {
      var r := q[1..];
      forall j: nat | j < |r| ensures InRange(g, r[j]) { assert r[j] == q[j + 1]; }
      assert |q| * n == n + |r| * n;
      assert Cluster(img, g, q[0]) == Piece(data, n, 0);
      var rest := if n <= |data| then data[n..] else [];
      forall j: nat | j < |r| ensures Cluster(img, g, r[j]) == Piece(rest, n, j) {
        assert r[j] == q[j + 1];
        PieceRest(data, n, j);
      }
      GatherPieces(img, g, r, rest);
      GatherSize(img, g, r);
      assert Gather(img, g, q) == Piece(data, n, 0) + Gather(img, g, r);
    }
  }

  lemma PieceRest(data: seq<byte>, n: nat, j: nat)
    requires n > 0
    ensures Piece(data, n, j + 1) == Piece(if n <= |data| then data[n..] else [], n, j)
  {
    assert (j + 1) * n == j * n + n;
  }

  /** Two tables agree on every entry that can be a cluster. */
  predicate SameBelow(a: seq<nat>, b: seq<nat>) { |a| == |b| && forall x: nat | x < |a| && x < EOC :: a[x] == b[x] }

  /** Every entry but one owns its chain, and the chains are disjoint. */
  ghost predicate OthersOwn(fat: seq<nat>, root: seq<Entry>, g: Geo, chains: seq<seq<nat>>, at: nat) {
    && |chains| == |root| && at < |root|
    && (forall i: nat {:trigger Owns(root[i], fat, g, chains[i])} | i < |root| && i != at ::
           Owns(root[i], fat, g, chains[i]))
    && (forall i: nat, j: nat {:trigger Apart(chains[i], chains[j])} | i < |root| && j < |root| && i != j ::
           Apart(chains[i], chains[j]))
  }

  /** After free_chain the other files are as they were, if they are spared. */
  lemma FreedInv(img: seq<byte>, fat: seq<nat>, fat': seq<nat>, root: seq<Entry>, g: Geo, chains: seq<seq<nat>>,
                 at: nat, c: nat)
    requires Inv(img, fat, root, g, chains) && at < |root| && Spares(fat, c, chains, at)
    requires SameBelow(fat', Cleared(fat, Walked(fat, c)))
    ensures |fat'| == |fat| && OthersOwn(fat', root, g, chains[at := []], at)
  {
    hide Walked;
    hide GeoOk;
    var w, chains' := Walked(fat, c), chains[at := []];
    ClearedSize(fat, w);
    forall i: nat | i < |root| && i != at ensures Owns(root[i], fat', g, chains'[i]) {
      assert Owns(root[i], fat, g, chains[i]) && Apart(chains[i], w);
      if IsFile(root[i]) {
        forall x: nat | x in chains[i] && x < |fat| ensures fat'[x] == fat[x] {
          var k: nat :| k < |chains[i]| && chains[i][k] == x;
          ChainIn(fat, root[i].cluster, chains[i], k);
          ClearedAt(fat, w, x);
        }
        ChainSame(fat, fat', root[i].cluster, chains[i]);
      }
    }
    forall i: nat, j: nat | i < |root| && j < |root| && i != j ensures Apart(chains'[i], chains'[j]) {
      assert Apart(chains[i], chains[j]);
    }
  }

  /** The least place of q whose cluster is in w. */
  function FirstIn(q: seq<nat>, w: seq<nat>): (k: nat)
    requires exists x: nat :: x in q && x in w
    ensures k < |q| && q[k] in w && forall i: nat | i < k :: q[i] !in w
  {
    if q[0] in w then 0
    else
      assert q == [q[0]] + q[1..];
      1 + FirstIn(q[1..], w)
  }

  /** Two tables that agree on the first k clusters of a chain lead to the same
      cluster after them. */
  lemma {:induction false} SamePath(fat: seq<nat>, fat': seq<nat>, c: nat, p: seq<nat>, q: seq<nat>, k: nat)
    requires IsChain(fat, c, p) && IsChain(fat', c, q) && k < |p| && |fat'| == |fat|
    requires forall i: nat | i < k :: p[i] < |fat| && fat'[p[i]] == fat[p[i]]
    ensures k < |q| && q[k] == p[k]
    decreases k
  {
    if k > 0 {
      assert fat'[p[0]] == fat[p[0]];
      assert forall i: nat | i < k - 1 :: p[1..][i] == p[i + 1];
      SamePath(fat, fat', fat[c], p[1..], q[1..], k - 1);
    }
  }

  /** A chain p of which a cluster was cleared: following the table from its start
      now comes to a cluster of the new file q. */
  lemma Crossed(fat: seq<nat>, w: seq<nat>, fat1: seq<nat>, fat': seq<nat>, g: Geo, q: seq<nat>, c: nat, p: seq<nat>,
                p': seq<nat>)
    returns (y: nat)
    requires IsChain(fat, c, p) && !Apart(p, w) && SameBelow(fat1, Cleared(fat, w)) && |fat1| == |fat|
    requires FirstFree(fat1, g, q) && fat' == Linked(fat1, q, |q|) && IsChain(fat', c, p')
    ensures y in p' && y in q
  {
    hide Cleared;
    hide Linked;
    hide IsChain;
    var k := FirstIn(p, w);
    assert q[..|q|] == q;
    forall i: nat | i < k ensures p[i] < |fat| && fat'[p[i]] == fat[p[i]] {
      ChainIn(fat, c, p, i);
      ClearedAt(fat, w, p[i]);
      LinkedAt(fat1, q, |q|, p[i]);
    }
    y := p[k];
    SamePath(fat, fat', c, p, p', k);
    ChainIn(fat, c, p, k);
    ChainIn(fat', c, p', k);
    ClearedAt(fat, w, y);
    LinkedAt(fat1, q, |q|, y);
  }

  /** What is in two chains leaves no choice. */
  lemma Shattered(img: seq<byte>, img': seq<byte>, fat: seq<nat>, fat1: seq<nat>, fat': seq<nat>, root: seq<Entry>,
                  g: Geo, chains: seq<seq<nat>>, at: nat, e: Entry, q: seq<nat>)
    requires Inv(img, fat, root, g, chains) && at < |root| && !Spares(fat, root[at].cluster, chains, at)
    requires SameBelow(fat1, Cleared(fat, Walked(fat, root[at].cluster)))
    requires FirstFree(fat1, g, q) && fat' == Linked(fat1, q, |q|)
    requires IsFile(e) && e.cluster == (if q == [] then 0 else q[0])
    ensures !WellFormed(img', fat', root[at := e], g)
  {
    hide Walked;
    hide Cleared;
    hide Linked;
    hide IsChain;
    var w, root' := Walked(fat, root[at].cluster), root[at := e];
    var j: nat :| j < |chains| && j != at && !Apart(chains[j], w);
    assert Owns(root[j], fat, g, chains[j]);
    ClearedSize(fat, w);
    NewChain(fat1, fat', g, q);
    if WellFormed(img', fat', root', g) {
      var cs: seq<seq<nat>> :| Inv(img', fat', root', g, cs);
      assert Owns(root'[j], fat', g, cs[j]) && Owns(root'[at], fat', g, cs[at]) && Apart(cs[j], cs[at]);
      ChainOnly(fat', e.cluster, q, cs[at]);
      var y := Crossed(fat, w, fat1, fat', g, q, root[j].cluster, chains[j], cs[j]);
      assert false;
    }
  }

  /** The new file reads back; the others do, and all is well formed, exactly if
      they are spared. */
  lemma FilePut(img: seq<byte>, img': seq<byte>, fat: seq<nat>, fat1: seq<nat>, fat': seq<nat>, root: seq<Entry>,
                g: Geo, chains: seq<seq<nat>>, at: nat, e: Entry, q: seq<nat>, data: seq<byte>)
    requires Inv(img, fat, root, g, chains) && at < |root| && GeoOk(g, img')
    requires SameBelow(fat1, Cleared(fat, Walked(fat, root[at].cluster)))
    requires FirstFree(fat1, g, q) && fat' == Linked(fat1, q, |q|)
    requires |data| <= |q| * g.bytes && IsFile(e) && e.cluster == (if q == [] then 0 else q[0]) && e.size == |data|
    requires forall j: nat | j < |q| :: Cluster(img', g, q[j]) == Piece(data, g.bytes, j)
    requires forall d: nat | InRange(g, d) && d !in q :: Cluster(img', g, d) == Cluster(img, g, d)
    ensures FileBytes(img', fat', g, e) == data
    ensures Spares(fat, root[at].cluster, chains, at) ==> Inv(img', fat', root[at := e], g, chains[at := q])
    ensures Spares(fat, root[at].cluster, chains, at) ==>
              forall j: nat | j < |root| && j != at && IsFile(root[j]) ::
                FileBytes(img', fat', g, root[j]) == FileBytes(img, fat, g, root[j])
    ensures !Spares(fat, root[at].cluster, chains, at) ==> !WellFormed(img', fat', root[at := e], g)
  {
    hide *;
    var c := root[at].cluster;
    WrittenBytes(img', fat1, fat', g, e, q, data);
    if Spares(fat, c, chains, at) {
      FreedInv(img, fat, fat1, root, g, chains, at, c);
      InvGeo(img, fat, root, g, chains);
      WrittenInv(img', fat1, fat', root, g, chains[at := []], at, e, q);
      assert chains[at := []][at := q] == chains[at := q];
      OthersRead(img, img', fat, fat1, fat', root, g, chains, at, q);
    } else {
      Shattered(img, img', fat, fat1, fat', root, g, chains, at, e, q);
    }
  }

  /** Clusters that were unused are in nobody's chain, and linking them changes
      nobody's chain. */
  lemma LinkedOthers(fat: seq<nat>, fat': seq<nat>, root: seq<Entry>, g: Geo, chains: seq<seq<nat>>, at: nat,
                     q: seq<nat>, i: nat)
    requires OthersOwn(fat, root, g, chains, at) && FirstFree(fat, g, q) && fat' == Linked(fat, q, |q|)
    requires i < |root| && i != at
    ensures Owns(root[i], fat', g, chains[i]) && Apart(q, chains[i]) && Apart(chains[i], q)
  {
    assert Owns(root[i], fat, g, chains[i]);
    if IsFile(root[i]) {
      forall x: nat | x in chains[i] ensures x !in q && x < |fat| && fat'[x] == fat[x] {
        var k: nat :| k < |chains[i]| && chains[i][k] == x;
        ChainIn(fat, root[i].cluster, chains[i], k);
        assert q[..|q|] == q;
        LinkedAt(fat, q, |q|, x);
      }
      ChainSame(fat, fat', root[i].cluster, chains[i]);
    }
  }

  lemma NewChain(fat: seq<nat>, fat': seq<nat>, g: Geo, q: seq<nat>)
    requires FirstFree(fat, g, q) && fat' == Linked(fat, q, |q|) && g.clusters + 2 <= EOC
    ensures IsChain(fat', if q == [] then 0 else q[0], q)
  {
    forall j: nat | j < |q| ensures fat'[q[j]] == if j + 1 == |q| then 0xFFFF else q[j + 1] {
      LinkedAt(fat, q, |q|, q[j]);
    }
    if q != [] {
      LinkedChain(fat, fat', q, 0);
      assert q[0..] == q;
    }
  }

  /** The new file is there. */
  lemma WrittenBytes(img: seq<byte>, fat: seq<nat>, fat': seq<nat>, g: Geo, e: Entry, q: seq<nat>, data: seq<byte>)
    requires GeoOk(g, img) && FirstFree(fat, g, q) && fat' == Linked(fat, q, |q|)
    requires |data| <= |q| * g.bytes && e.cluster == (if q == [] then 0 else q[0]) && e.size == |data| && IsFile(e)
    requires forall j: nat | j < |q| :: Cluster(img, g, q[j]) == Piece(data, g.bytes, j)
    ensures Owns(e, fat', g, q) && FileBytes(img, fat', g, e) == data
  {
    hide Owns;
    NewOwns(fat, fat', g, e, q);
    FileBytesIs(img, fat', g, e, q);
    GatherPieces(img, g, q, data);
  }

  /** With the new entry all is well formed. */
  lemma WrittenInv(img: seq<byte>, fat: seq<nat>, fat': seq<nat>, root: seq<Entry>, g: Geo, chains: seq<seq<nat>>,
                   at: nat, e: Entry, q: seq<nat>)
    requires GeoOk(g, img) && OthersOwn(fat, root, g, chains, at) && FirstFree(fat, g, q) && fat' == Linked(fat, q, |q|)
    requires Owns(e, fat', g, q)
    ensures Inv(img, fat', root[at := e], g, chains[at := q])
  {
    hide Owns;
    hide Apart;
    var root', chains' := root[at := e], chains[at := q];
    forall i: nat | i < |root'| ensures Owns(root'[i], fat', g, chains'[i]) {
      if i != at { LinkedOthers(fat, fat', root, g, chains, at, q, i); }
    }
    forall i: nat, j: nat | i < |root'| && j < |root'| && i != j ensures Apart(chains'[i], chains'[j]) {
      assert Apart(chains[i], chains[j]);
      if i != at { LinkedOthers(fat, fat', root, g, chains, at, q, i); }
      if j != at { LinkedOthers(fat, fat', root, g, chains, at, q, j); }
    }
  }

  lemma NewOwns(fat: seq<nat>, fat': seq<nat>, g: Geo, e: Entry, q: seq<nat>)
    requires FirstFree(fat, g, q) && fat' == Linked(fat, q, |q|) && g.clusters + 2 <= EOC
    requires e.cluster == (if q == [] then 0 else q[0]) && e.size <= |q| * g.bytes && IsFile(e)
    ensures Owns(e, fat', g, q) && forall j: nat | j < |q| :: InRange(g, q[j])
  {
    NewChain(fat, fat', g, q);
  }

  /** The other files read as before. */
  lemma OthersRead(img: seq<byte>, img': seq<byte>, fat0: seq<nat>, fat: seq<nat>, fat': seq<nat>, root: seq<Entry>,
                   g: Geo, chains: seq<seq<nat>>, at: nat, q: seq<nat>)
    requires Inv(img, fat0, root, g, chains) && GeoOk(g, img') && at < |chains|
    requires OthersOwn(fat, root, g, chains[at := []], at) && FirstFree(fat, g, q) && fat' == Linked(fat, q, |q|)
    requires forall d: nat | InRange(g, d) && d !in q :: Cluster(img', g, d) == Cluster(img, g, d)
    ensures forall j: nat | j < |root| && j != at && IsFile(root[j]) ::
              FileBytes(img', fat', g, root[j]) == FileBytes(img, fat0, g, root[j])
  {
    forall j: nat | j < |root| && j != at && IsFile(root[j])
      ensures FileBytes(img', fat', g, root[j]) == FileBytes(img, fat0, g, root[j])
    {
      assert Owns(root[j], fat0, g, chains[j]);
      LinkedOthers(fat, fat', root, g, chains[at := []], at, q, j);
      FileBytesIs(img, fat0, g, root[j], chains[j]);
      FileBytesIs(img', fat', g, root[j], chains[j]);
      GatherSame(img, img', g, chains[j]);
    }
  }

  /** It happens: the free slot still names the cluster of a file, and the next file
      put into that slot breaks it. */
  lemma StaleSlot() returns (g: Geo, img: seq<byte>, fat: seq<nat>, root: seq<Entry>, chains: seq<seq<nat>>)
    ensures Inv(img, fat, root, g, chains) && |root| == 2 && IsFile(root[0]) && !Live(root[1]) && |root[1].name| == 11
    ensures !Spares(fat, root[1].cluster, chains, 1)
  {
    g, img, fat := Geo(0, 1, 1), [7], [0xFFF8, 0xFFFF, 0xFFFF];
    root := [Entry(seq(11, _ => 0x41), 0x20, 2, 1), Entry(seq(11, _ => 0xE5), 0x20, 2, 1)];
    chains := [[2], []];
    assert IsChain(fat, 2, [2]);
    WalkedChain(fat, 2, [2]);
    assert 2 in chains[0];
  }
}
