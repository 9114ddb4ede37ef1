/** copyout and copyin of `kernel/core/vm.c`: moving bytes between the kernel
    and a process, page by page. */
module UserCopy {
  import opened Common
  import opened Wrappers
  import opened Sv39
  import opened PageState
  import opened PageSteps
  import opened PageTable
  import opened UserMemory

  /** walkaddr accepts the page of address a; copyout also wants it writable. */
  ghost predicate CanRead(s: St, root: nat, a: nat)
    requires root in s.spaces
  {
    a < MAXVA && VpnOf(a) in s.spaces[root].leaves && s.spaces[root].leaves[VpnOf(a)].Pte?
    && s.spaces[root].leaves[VpnOf(a)].perm.u
  }

  ghost predicate CanWrite(s: St, root: nat, a: nat)
    requires root in s.spaces
  {
    CanRead(s, root, a) && s.spaces[root].leaves[VpnOf(a)].perm.w
  }

  lemma ReadableIsUser(s: St, root: nat, a: nat)
    requires Good(s) && root in s.spaces && CanRead(s, root, a)
    ensures IsUser(VpnOf(a))
  {
    hide VpnOf;
    assert SpaceAt(s, root);
    assert LeafOk(s.owner, root, s.spaces[root], VpnOf(a));
  }

  /** The byte a process sees at address a. */
  ghost function ByteAt(s: St, root: nat, a: nat): byte
    requires Good(s) && root in s.spaces && CanRead(s, root, a)
  {
    ReadableIsUser(s, root, a);
    PageSeen(s, root, VpnOf(a)).bytes[a % PGSIZE]
  }

  /** Addresses of one page share its entry. */
  lemma SamePage(a: nat, b: nat)
    requires a / PGSIZE == b / PGSIZE
    ensures VpnOf(a) == VpnOf(b)
  {
    assert a / 0x20_0000 == a / PGSIZE / NPTE && b / 0x20_0000 == b / PGSIZE / NPTE;
    assert a / 0x4000_0000 == a / PGSIZE / NPTE / NPTE && b / 0x4000_0000 == b / PGSIZE / NPTE / NPTE;
  }

  lemma OtherPage(a: nat, b: nat)
    requires a < MAXVA && b < MAXVA && VpnOf(a) == VpnOf(b)
    ensures a / PGSIZE == b / PGSIZE
  {
    PathNamesPage(a);
    PathNamesPage(b);
  }

  /** `t` is `s` with data stored at va in the memory of `root`. */
  ghost predicate Stored(s: St, t: St, root: nat, va: nat, data: seq<byte>)
    requires Good(s) && Good(t)
  {
    && t.spaces == s.spaces && t.owner == s.owner && root in s.spaces
    && (forall p | p in s.owner && !(s.owner[p].User? && s.owner[p].root == root) ::
           p in s.mem && p in t.mem && Same(t.mem[p], s.mem[p]))
    && (forall a: nat {:trigger CanRead(s, root, a)} | CanRead(s, root, a) :: StoredAt(s, t, root, va, data, a))
  }

  ghost predicate StoredAt(s: St, t: St, root: nat, va: nat, data: seq<byte>, a: nat)
    requires Good(s) && Good(t) && root in s.spaces && t.spaces == s.spaces && CanRead(s, root, a)
  {
    ByteAt(t, root, a) == if va <= a < va + |data| then data[a - va] else ByteAt(s, root, a)
  }

  lemma StoredRefl(s: St, root: nat, va: nat)
    requires Good(s) && root in s.spaces
    ensures Stored(s, s, root, va, [])
  {
  }

  lemma StoredMore(s: St, t: St, u: St, root: nat, va: nat, d: seq<byte>, e: seq<byte>)
    requires Good(s) && Good(t) && Good(u)
    requires Stored(s, t, root, va, d) && Stored(t, u, root, va + |d|, e)
    ensures Stored(s, u, root, va, d + e)
  {
    hide ByteAt;
    hide Good;
    forall a: nat | CanRead(s, root, a) ensures StoredAt(s, u, root, va, d + e, a) {
      assert CanRead(t, root, a);
      assert StoredAt(s, t, root, va, d, a) && StoredAt(t, u, root, va + |d|, e, a);
    }
  }

  function Patch(bytes: seq<byte>, off: nat, chunk: seq<byte>): (r: seq<byte>)
    requires off + |chunk| <= |bytes|
    ensures |r| == |bytes|
    ensures forall j | 0 <= j < |bytes| :: r[j] == if off <= j < off + |chunk| then chunk[j - off] else bytes[j]
  {
    bytes[..off] + chunk + bytes[off + |chunk|..]
  }

  /** memmove into the page that backs va. */
  lemma PageStored(s: St, t: St, root: nat, va: nat, chunk: seq<byte>)
    requires Good(s) && Good(t) && root in s.spaces && CanRead(s, root, va) && IsUser(VpnOf(va))
             && va % PGSIZE + |chunk| <= PGSIZE
    requires var p := s.spaces[root].leaves[VpnOf(va)].ppn;
             p in s.mem && s.mem[p].Bytes? && |s.mem[p].bytes| == PGSIZE
             && t == s.(mem := s.mem[p := Bytes(Patch(s.mem[p].bytes, va % PGSIZE, chunk))])
    ensures Stored(s, t, root, va, chunk)
  {
    hide VpnOf;
    UserBytes(s, root, VpnOf(va));
    forall a: nat | CanRead(s, root, a) ensures StoredAt(s, t, root, va, chunk, a) {
      ReadableIsUser(s, root, a);
      UserBytes(s, root, VpnOf(a));
      if VpnOf(a) == VpnOf(va) {
        OtherPage(a, va);
        assert a - va == a % PGSIZE - va % PGSIZE;
      } else {
        if va <= a < va + |chunk| {
          assert a / PGSIZE == va / PGSIZE;
          SamePage(a, va);
        }
      }
    }
    forall p | p in s.owner && !(s.owner[p].User? && s.owner[p].root == root) ensures p in s.mem && p in t.mem
    && Same(t.mem[p], s.mem[p]) { }
  }

  /** walkaddr: the entry behind va if it is valid and user-accessible. */
  method WalkAddr(m: Machine, root: nat, va: nat) returns (e: Option<Pte>)
    requires m.Valid() && root in m.st.spaces
    modifies m
    ensures m.st == old(m.st) && m.Valid()
    ensures e.Some? <==> CanRead(m.st, root, va)
    ensures e.Some? ==> e.value == m.st.spaces[root].leaves[VpnOf(va)]
  {
    hide VpnOf;
    if va >= MAXVA {
      return None;
    }
    PathNamesPage(va);
    EntryLeaf(m.st, root, VpnOf(va));
    var slot := m.Walk(root, va, false);
    if slot.None? {
      return None;
    }
    var pte := m.mem[slot.value.page].ptes[slot.value.index];
    return if pte.Zero? || !pte.perm.u then None else Some(pte);
  }

  lemma WritableChunk(s: St, root: nat, va: nat, n: nat)
    requires root in s.spaces && CanWrite(s, root, va) && va % PGSIZE + n <= PGSIZE
    ensures forall a | va <= a < va + n :: CanWrite(s, root, a)
  {
    hide VpnOf;
    forall a | va <= a < va + n ensures CanWrite(s, root, a) {
      assert a / PGSIZE == va / PGSIZE;
      SamePage(a, va);
    }
    assert va < MAXVA;
  }

  /** memmove to the page behind va. */
  method PutChunk(m: Machine, root: nat, va: nat, page: nat, chunk: seq<byte>)
    requires m.Valid() && root in m.st.spaces && CanRead(m.st, root, va) && va % PGSIZE + |chunk| <= PGSIZE
    requires page == m.st.spaces[root].leaves[VpnOf(va)].ppn
    modifies m
    ensures m.Valid() && Stored(old(m.st), m.st, root, va, chunk)
  {
    hide VpnOf;
    hide Stored;
    ghost var t := m.st;
    ReadableIsUser(t, root, va);
    UserBytes(t, root, VpnOf(va));
    var bytes := Patch(m.mem[page].bytes, va % PGSIZE, chunk);
    FillGood(t, page, bytes);
    m.mem := m.mem[page := Bytes(bytes)];
    m.st := t.(mem := t.mem[page := Bytes(bytes)]);
    PageStored(t, m.st, root, va, chunk);
  }

  /** copyout. On failure the bytes up to the first page that may not be written
      have been stored. */
  method CopyOut(m: Machine, root: nat, dstva: nat, src: seq<byte>) returns (ok: bool, ghost k: nat)
    requires m.Valid() && root in m.st.spaces
    modifies m
    ensures m.Valid() && k <= |src| && Stored(old(m.st), m.st, root, dstva, src[..k])
    ensures ok ==> k == |src|
    ensures !ok ==> k < |src| && !CanWrite(old(m.st), root, dstva + k)
    ensures forall a | dstva <= a < dstva + k :: CanWrite(old(m.st), root, a)
  {
    hide VpnOf;
    hide ByteAt;
    hide StoredAt;
    ghost var s := m.st;
    var i := 0;
    StoredRefl(s, root, dstva);
    while i < |src|
      invariant i <= |src| && (i < |src| && i > 0 ==> (dstva + i) % PGSIZE == 0)
      invariant m.Valid() && Stored(s, m.st, root, dstva, src[..i])
      invariant forall a | dstva <= a < dstva + i :: CanWrite(s, root, a)
    {
      var va := dstva + i;
      var va0 := PgRoundDown(va);
      RoundDownFacts(va);
      SamePage(va, va0);
      if va0 >= MAXVA {
        return false, i;
      }
      ghost var t := m.st;
      var pte := WalkAddr(m, root, va0);
      if pte.None? || !pte.value.perm.w {
        return false, i;
      }
      var n := Min(PGSIZE - (va - va0), |src| - i);
      var chunk := src[i..i + n];
      PutChunk(m, root, va, pte.value.ppn, chunk);
      StoredMore(s, t, m.st, root, dstva, src[..i], chunk);
      assert src[..i] + chunk == src[..i + n];
      WritableChunk(s, root, va, n);
      i := i + n;
    }
    assert src[..i] == src;
    return true, i;
  }

  lemma RoundDownFacts(a: nat)
    ensures PgRoundDown(a) <= a < PgRoundDown(a) + PGSIZE && PgRoundDown(a) % PGSIZE == 0
    ensures PgRoundDown(a) / PGSIZE == a / PGSIZE && a - PgRoundDown(a) == a % PGSIZE
  {
  }

  /** copyin: the bytes the process sees, if it may see all of them. */
  method CopyIn(m: Machine, root: nat, srcva: nat, len: nat) returns (ok: bool, dst: seq<byte>)
    requires m.Valid() && root in m.st.spaces
    modifies m
    ensures m.st == old(m.st) && m.Valid()
    ensures ok <==> forall a | srcva <= a < srcva + len :: CanRead(m.st, root, a)
    ensures ok ==> |dst| == len && forall i | 0 <= i < len :: dst[i] == ByteAt(m.st, root, srcva + i)
  {
    hide VpnOf;
    ghost var t := m.st;
    dst := [];
    while |dst| < len
      invariant |dst| <= len && (0 < |dst| < len ==> (srcva + |dst|) % PGSIZE == 0)
      invariant m.st == t && m.Valid()
      invariant forall a | srcva <= a < srcva + |dst| :: CanRead(t, root, a)
      invariant forall i | 0 <= i < |dst| :: dst[i] == ByteAt(t, root, srcva + i)
    {
      var va := srcva + |dst|;
      var va0 := PgRoundDown(va);
      RoundDownFacts(va);
      SamePage(va, va0);
      var found := WalkAddr(m, root, va0);
      if found.None? {
        assert !CanRead(t, root, va);
        return false, dst;
      }
      var pte := found.value;
      ReadableIsUser(t, root, va);
      UserBytes(t, root, VpnOf(va));
      var n := Min(PGSIZE - (va - va0), len - |dst|);
      var chunk := m.mem[pte.ppn].bytes[va - va0..va - va0 + n];
      ChunkRead(t, root, va, n, chunk);
      dst := dst + chunk;
    }
    return true, dst;
  }

  lemma ChunkRead(t: St, root: nat, va: nat, n: nat, chunk: seq<byte>)
    requires Good(t) && root in t.spaces && CanRead(t, root, va) && IsUser(VpnOf(va)) && va % PGSIZE + n <= PGSIZE
    requires var p := t.spaces[root].leaves[VpnOf(va)].ppn;
             p in t.mem && t.mem[p].Bytes? && |t.mem[p].bytes| == PGSIZE
             && chunk == t.mem[p].bytes[va % PGSIZE..va % PGSIZE + n]
    ensures forall a | va <= a < va + n :: CanRead(t, root, a) && chunk[a - va] == ByteAt(t, root, a)
  {
    hide VpnOf;
    forall a | va <= a < va + n ensures CanRead(t, root, a) && chunk[a - va] == ByteAt(t, root, a) {
      assert a / PGSIZE == va / PGSIZE && a % PGSIZE == va % PGSIZE + (a - va);
      SamePage(a, va);
    }
  }

  /** Storing into one process leaves the memory of every other alone: in
      particular a parent and the child uvmcopy made from it. */
  lemma StoredIsolated(s: St, t: St, root: nat, va: nat, data: seq<byte>, other: nat)
    requires Good(s) && Good(t) && Stored(s, t, root, va, data) && other != root && other in s.spaces
    ensures View(t, other) == View(s, other)
    ensures forall a | CanRead(s, other, a) :: CanRead(t, other, a) && ByteAt(t, other, a) == ByteAt(s, other, a)
  {
    hide VpnOf;
    hide StoredAt;
    forall v | v in s.spaces[other].leaves && IsUser(v) ensures PageSeen(t, other, v) == PageSeen(s, other, v) {
      UserBytes(s, other, v);
    }
    forall a | CanRead(s, other, a) ensures CanRead(t, other, a) && ByteAt(t, other, a) == ByteAt(s, other, a) {
      ReadableIsUser(s, other, a);
    }
  }
}
