/** Strings between the kernel and a process: copyinstr of `kernel/core/vm.c`,
    and the argument strings and pointers exec leaves on the user stack. */
module UserString {
  import opened Common
  import opened Sv39
  import opened PageState
  import opened PageTable
  import opened UserMemory
  import opened UserCopy

  ghost predicate HoldAt(s: St, root: nat, a: nat, d: seq<byte>, i: nat)
    requires Good(s) && root in s.spaces && i < |d|
  {
    CanRead(s, root, a + i) && ByteAt(s, root, a + i) == d[i]
  }

  /** The process sees the bytes `d` from address a on. */
  ghost predicate Holds(s: St, root: nat, a: nat, d: seq<byte>)
    requires Good(s) && root in s.spaces
  {
    forall i: nat {:trigger HoldAt(s, root, a, d, i)} | i < |d| :: HoldAt(s, root, a, d, i)
  }

  /** A string of C: no NUL inside, one behind it. */
  ghost predicate CString(s: St, root: nat, a: nat, d: seq<byte>)
    requires Good(s) && root in s.spaces
  {
    (forall i: nat | i < |d| :: d[i] != 0) && Holds(s, root, a, d + [0])
  }

  /** An address holds at most one string. */
  lemma CStringUnique(s: St, root: nat, a: nat, d: seq<byte>, e: seq<byte>)
    requires Good(s) && root in s.spaces && CString(s, root, a, d) && CString(s, root, a, e)
    ensures d == e
  {
    hide ByteAt;
    hide CanRead;
    hide Good;
    var x, y := d + [0], e + [0];
    var n := if |d| < |e| then |d| else |e|;
    forall i: nat | i <= n ensures x[i] == y[i] {
      assert HoldAt(s, root, a, x, i) && HoldAt(s, root, a, y, i);
    }
    assert x[n] == y[n];
    forall i: nat | i < |d| ensures d[i] == e[i] { assert x[i] == y[i]; }
  }

  lemma Agree(s: St, root: nat, a: nat, d: seq<byte>, e: seq<byte>, i: nat)
    requires Good(s) && root in s.spaces && Holds(s, root, a, d) && Holds(s, root, a, e) && i < |d| && i < |e|
    ensures d[i] == e[i]
  {
    hide ByteAt;
    hide Good;
    assert HoldAt(s, root, a, d, i) && HoldAt(s, root, a, e, i);
  }

  /** Seen so far: d, no NUL among it. */
  lemma NoShorter(s: St, root: nat, a: nat, d: seq<byte>, e: seq<byte>)
    requires Good(s) && root in s.spaces && Holds(s, root, a, d) && CString(s, root, a, e)
    requires forall i: nat | i < |d| :: d[i] != 0
    ensures |e| >= |d| && (|e| == |d| ==> CanRead(s, root, a + |d|) && ByteAt(s, root, a + |d|) == 0)
    ensures CanRead(s, root, a + |d|)
  {
    hide ByteAt;
    hide CanRead;
    hide Good;
    var y := e + [0];
    assert y[|e|] == 0;
    assert HoldAt(s, root, a, y, |e|);
    if |e| < |d| { Agree(s, root, a, d, y, |e|); }
    assert HoldAt(s, root, a, y, |d|);
  }

  /** The inner loop of copyinstr: the bytes of a piece before its first NUL. */
  method CopyUpToNul(chunk: seq<byte>) returns (part: seq<byte>, got: bool)
    ensures part <= chunk && (forall i: nat | i < |part| :: part[i] != 0)
    ensures got <==> |part| < |chunk|
    ensures got ==> chunk[|part|] == 0
  {
    part, got := [], false;
    while |part| < |chunk|
      invariant part <= chunk && forall i: nat | i < |part| :: part[i] != 0
    {
      if chunk[|part|] == 0 { return part, true; }
      part := part + [chunk[|part|]];
    }
  }

  /** copyinstr: the string at srcva, if one of fewer than max bytes is there to
      be read, and a refusal if not. */
  method CopyInStr(m: Machine, root: nat, srcva: nat, max: nat) returns (ok: bool, dst: seq<byte>)
    requires m.Valid() && root in m.st.spaces
    modifies m
    ensures m.st == old(m.st) && m.Valid()
    ensures ok ==> 0 < |dst| <= max && dst[|dst| - 1] == 0 && CString(m.st, root, srcva, dst[..|dst| - 1])
    ensures !ok ==> forall d: seq<byte> | |d| < max :: !CString(m.st, root, srcva, d)
  {
    hide VpnOf;
    hide CString;
    hide Holds;
    hide ByteAt;
    hide Good;
    ghost var t := m.st;
    NoneHeld(t, root, srcva);
    dst := [];
    while |dst| < max
      invariant |dst| <= max && (0 < |dst| < max ==> (srcva + |dst|) % PGSIZE == 0)
      invariant m.st == t && m.Valid()
      invariant Holds(t, root, srcva, dst) && forall i: nat | i < |dst| :: dst[i] != 0
      decreases max - |dst|
    {
      var va := srcva + |dst|;
      var va0 := PgRoundDown(va);
      RoundDownFacts(va);
      SamePage(va, va0);
      var found := WalkAddr(m, root, va0);
      if found.None? {
        assert !CanRead(t, root, va);
        forall d: seq<byte> | |d| < max ensures !CString(t, root, srcva, d) { Unreadable(t, root, srcva, dst, d); }
        return false, dst;
      }
      var pte := found.value;
      var n := Min(PGSIZE - (va - va0), max - |dst|);
      ReadableIsUser(t, root, va);
      UserBytes(t, root, VpnOf(va));
      var chunk := m.mem[pte.ppn].bytes[va - va0..va - va0 + n];
      ChunkRead(t, root, va, n, chunk);
      var part, got := CopyUpToNul(chunk);
      ReadLonger(t, root, srcva, dst, va, part);
      dst := dst + part;
      if got {
        Found(t, root, srcva, dst, va + |part|);
        ghost var d := dst;
        dst := dst + [0];
        assert dst[..|dst| - 1] == d;
        return true, dst;
      }
    }
    forall d: seq<byte> | |d| < max ensures !CString(t, root, srcva, d) { TooLong(t, root, srcva, dst, d); }
    ok := false;
  }

  lemma NoneHeld(s: St, root: nat, a: nat)
    requires Good(s) && root in s.spaces
    ensures Holds(s, root, a, [])
  {
  }

  lemma ReadLonger(s: St, root: nat, a: nat, d: seq<byte>, at: nat, e: seq<byte>)
    requires Good(s) && root in s.spaces && Holds(s, root, a, d) && at == a + |d|
    requires forall i | at <= i < at + |e| :: CanRead(s, root, i) && e[i - at] == ByteAt(s, root, i)
    ensures Holds(s, root, a, d + e)
  {
    hide ByteAt;
    hide CanRead;
    hide Good;
    var x := d + e;
    forall i: nat | i < |x| ensures HoldAt(s, root, a, x, i) {
      if i < |d| { assert HoldAt(s, root, a, d, i); } else { assert CanRead(s, root, a + i); }
    }
  }

  lemma Longer(s: St, root: nat, a: nat, d: seq<byte>, b: byte)
    requires Good(s) && root in s.spaces && Holds(s, root, a, d) && CanRead(s, root, a + |d|)
             && ByteAt(s, root, a + |d|) == b
    ensures Holds(s, root, a, d + [b])
  {
    hide ByteAt;
    hide CanRead;
    var e := d + [b];
    forall i: nat | i < |e| ensures HoldAt(s, root, a, e, i) {
      if i < |d| { assert HoldAt(s, root, a, d, i); }
    }
  }

  lemma Found(s: St, root: nat, a: nat, d: seq<byte>, at: nat)
    requires Good(s) && root in s.spaces && Holds(s, root, a, d) && at == a + |d| && CanRead(s, root, at)
             && ByteAt(s, root, at) == 0
    requires forall i: nat | i < |d| :: d[i] != 0
    ensures CString(s, root, a, d)
  {
    hide ByteAt;
    hide CanRead;
    Longer(s, root, a, d, 0);
  }

  lemma Unreadable(s: St, root: nat, a: nat, d: seq<byte>, e: seq<byte>)
    requires Good(s) && root in s.spaces && Holds(s, root, a, d) && !CanRead(s, root, a + |d|)
    requires forall i: nat | i < |d| :: d[i] != 0
    ensures !CString(s, root, a, e)
  {
    hide CanRead;
    if CString(s, root, a, e) { NoShorter(s, root, a, d, e); }
  }

  lemma TooLong(s: St, root: nat, a: nat, d: seq<byte>, e: seq<byte>)
    requires Good(s) && root in s.spaces && Holds(s, root, a, d) && |e| < |d|
    requires forall i: nat | i < |d| :: d[i] != 0
    ensures !CString(s, root, a, e)
  {
    if CString(s, root, a, e) { NoShorter(s, root, a, d, e); }
  }

  // ---- exec's user stack ----

  const MAXARG: nat := 32
  const USERSTACK: nat := 1

  function Align(a: int): (r: int)
    ensures r % 16 == 0 && a - 16 < r <= a
  {
    a / 16 * 16
  }

  /** A number as n bytes, least significant first. */
  function Le(x: nat, n: nat): (d: seq<byte>)
    ensures |d| == n
  {
    if n == 0 then [] else [x % 0x100] + Le(x / 0x100, n - 1)
  }

  function Number(d: seq<byte>): nat {
    if d == [] then 0 else d[0] + 0x100 * Number(d[1..])
  }

  function Pow(n: nat): nat { if n == 0 then 1 else 0x100 * Pow(n - 1) }

  lemma {:induction false} NumberOf(x: nat, n: nat)
    requires x < Pow(n)
    ensures Number(Le(x, n)) == x
  {
    if n > 0 {
      assert Le(x, n)[1..] == Le(x / 0x100, n - 1);
      NumberOf(x / 0x100, n - 1);
    }
  }

  lemma AddressFits(a: nat)
    requires a < MAXVA
    ensures a < Pow(8)
  {
    assert Pow(8) == 0x100 * (0x100 * (0x100 * (0x100 * (0x100 * (0x100 * (0x100 * (0x100 * Pow(0))))))));
  }

  function Words(v: seq<nat>): (d: seq<byte>)
    ensures |d| == 8 * |v|
  {
    if v == [] then [] else Words(v[..|v| - 1]) + Le(v[|v| - 1], 8)
  }

  lemma {:induction false} WordAt(v: seq<nat>, i: nat)
    requires i < |v|
    ensures Words(v)[8 * i..8 * i + 8] == Le(v[i], 8)
  {
    if i < |v| - 1 {
      WordAt(v[..|v| - 1], i);
      assert Words(v)[8 * i..8 * i + 8] == Words(v[..|v| - 1])[8 * i..8 * i + 8];
    }
  }

  /** The pointer at address a. */
  ghost predicate PointerAt(s: St, root: nat, a: nat, x: nat)
    requires Good(s) && root in s.spaces
  {
    exists d: seq<byte> :: |d| == 8 && Holds(s, root, a, d) && Number(d) == x
  }

  /** What the new program finds: argc + 1 pointers from sp on, the last one null,
      the others to the argument strings, all on the stack and aligned. */
  ghost predicate ArgsAt(s: St, root: nat, base: nat, top: nat, sp: nat, argv: seq<seq<byte>>, ptrs: seq<nat>)
    requires Good(s) && root in s.spaces
  {
    && |ptrs| == |argv| && base <= sp <= top && sp % 16 == 0
    && (forall i: nat {:trigger ptrs[i]} | i < |ptrs| ::
          ptrs[i] % 16 == 0 && sp + 8 * (|argv| + 1) <= ptrs[i] && ptrs[i] + |argv[i]| < top
          && CString(s, root, ptrs[i], argv[i]) && PointerAt(s, root, sp + 8 * i, ptrs[i]))
    && PointerAt(s, root, sp + 8 * |argv|, 0)
  }

  /** A store elsewhere leaves what is held alone. */
  lemma HoldsKept(s: St, t: St, root: nat, va: nat, data: seq<byte>, a: nat, d: seq<byte>)
    requires Good(s) && Good(t) && Stored(s, t, root, va, data) && Holds(s, root, a, d)
    requires a + |d| <= va || va + |data| <= a
    ensures Holds(t, root, a, d)
  {
    hide ByteAt;
    hide Good;
    forall i: nat | i < |d| ensures HoldAt(t, root, a, d, i) {
      assert HoldAt(s, root, a, d, i);
      assert StoredAt(s, t, root, va, data, a + i);
    }
  }

  lemma HoldsStored(s: St, t: St, root: nat, va: nat, data: seq<byte>)
    requires Good(s) && Good(t) && Stored(s, t, root, va, data)
    requires forall a | va <= a < va + |data| :: CanWrite(s, root, a)
    ensures Holds(t, root, va, data)
  {
    hide ByteAt;
    hide Good;
    forall i: nat | i < |data| ensures HoldAt(t, root, va, data, i) {
      assert CanWrite(s, root, va + i);
      assert CanRead(s, root, va + i);
      assert StoredAt(s, t, root, va, data, va + i);
    }
  }

  lemma HoldsPart(s: St, root: nat, a: nat, d: seq<byte>, lo: nat, hi: nat)
    requires Good(s) && root in s.spaces && Holds(s, root, a, d) && lo <= hi <= |d|
    ensures Holds(s, root, a + lo, d[lo..hi])
  {
    hide ByteAt;
    hide CanRead;
    hide Good;
    var e := d[lo..hi];
    var b := a + lo;
    forall i: nat | i < |e| ensures HoldAt(s, root, b, e, i) {
      assert HoldAt(s, root, a, d, lo + i);
      assert b + i == a + (lo + i);
    }
  }

  /** The strings pushed so far, below one another. */
  ghost predicate Pushed(s: St, root: nat, base: nat, top: nat, sp: nat, argv: seq<seq<byte>>, ptrs: seq<nat>)
    requires Good(s) && root in s.spaces
  {
    && |ptrs| <= |argv| && base <= sp <= top
    && forall i: nat {:trigger ptrs[i]} | i < |ptrs| ::
         ptrs[i] % 16 == 0 && sp <= ptrs[i] < MAXVA && ptrs[i] + |argv[i]| < top
         && Holds(s, root, ptrs[i], argv[i] + [0])
  }

  lemma PushStep(s: St, t: St, root: nat, base: nat, top: nat, sp: nat, argv: seq<seq<byte>>, ptrs: seq<nat>, p: nat)
    requires Good(s) && Good(t) && root in s.spaces && Pushed(s, root, base, top, sp, argv, ptrs) && |ptrs| < |argv|
    requires var d := argv[|ptrs|] + [0];
             && base <= p && p % 16 == 0 && p + |d| <= sp && Stored(s, t, root, p, d)
                && forall a | p <= a < p + |d| :: CanWrite(s, root, a)
    ensures Pushed(t, root, base, top, p, argv, ptrs + [p])
  {
    hide Holds;
    hide Stored;
    hide Good;
    var d := argv[|ptrs|] + [0];
    assert CanWrite(s, root, p);
    HoldsStored(s, t, root, p, d);
    StoredSpaces(s, t, root, p, d);
    forall i: nat | i < |ptrs| ensures Holds(t, root, ptrs[i], argv[i] + [0]) {
      HoldsKept(s, t, root, p, d, ptrs[i], argv[i] + [0]);
    }
  }

  lemma StoredSpaces(s: St, t: St, root: nat, va: nat, d: seq<byte>)
    requires Good(s) && Good(t) && Stored(s, t, root, va, d)
    ensures t.spaces == s.spaces && root in t.spaces
  {
  }

  lemma {:induction false} PointerHere(t: St, root: nat, a: nat, x: nat)
    requires Good(t) && root in t.spaces && Holds(t, root, a, Le(x, 8)) && x < MAXVA
    ensures PointerAt(t, root, a, x)
  {
    hide Holds;
    hide Good;
    AddressFits(x);
    hide Le;
    hide Number;
    hide Pow;
    NumberOf(x, 8);
  }

  lemma {:induction false} PointersIn(t: St, root: nat, p: nat, v: seq<nat>, i: nat)
    requires Good(t) && root in t.spaces && Holds(t, root, p, Words(v)) && i < |v| && v[i] < MAXVA
    ensures PointerAt(t, root, p + 8 * i, v[i])
  {
    hide Holds;
    hide Good;
    hide Words;
    hide Le;
    hide PointerAt;
    HoldsPart(t, root, p, Words(v), 8 * i, 8 * i + 8);
    WordAt(v, i);
    PointerHere(t, root, p + 8 * i, v[i]);
  }

  lemma {:induction false} ArgsDone(s: St, t: St, root: nat, base: nat, top: nat, sp: nat, argv: seq<seq<byte>>,
                                    ptrs: seq<nat>, p: nat)
    requires Good(s) && Good(t) && root in s.spaces && Pushed(s, root, base, top, sp, argv, ptrs) && |ptrs| == |argv|
    requires forall i: nat, j: nat | i < |argv| && j < |argv[i]| :: argv[i][j] != 0
    requires var d := Words(ptrs + [0]);
             && base <= p && p % 16 == 0 && p + |d| <= sp && Stored(s, t, root, p, d)
                && forall a | p <= a < p + |d| :: CanWrite(s, root, a)
    ensures root in t.spaces && ArgsAt(t, root, base, top, p, argv, ptrs)
  {
    hide Holds;
    hide Stored;
    hide Good;
    hide PointerAt;
    hide Words;
    var v := ptrs + [0];
    var d := Words(v);
    HoldsStored(s, t, root, p, d);
    StoredSpaces(s, t, root, p, d);
    PointersIn(t, root, p, v, |argv|);
    forall i: nat | i < |ptrs|
      ensures CString(t, root, ptrs[i], argv[i]) && PointerAt(t, root, p + 8 * i, ptrs[i])
    {
      HoldsKept(s, t, root, p, d, ptrs[i], argv[i] + [0]);
      assert v[i] == ptrs[i];
      PointersIn(t, root, p, v, i);
    }
  }

  /** The stack pointer after the first i strings, each at the next multiple of 16
      below, and after the pointers. */
  function SpAt(top: int, argv: seq<seq<byte>>, i: nat): int
    requires i <= |argv|
  {
    if i == 0 then top else Align(SpAt(top, argv, i - 1) - (|argv[i - 1]| + 1))
  }

  function ArgSp(top: int, argv: seq<seq<byte>>): int { Align(SpAt(top, argv, |argv|) - 8 * (|argv| + 1)) }

  lemma {:induction false} SpFalls(top: int, argv: seq<seq<byte>>, i: nat, j: nat)
    requires i <= j <= |argv|
    ensures SpAt(top, argv, j) <= SpAt(top, argv, i)
  {
    if i < j { SpFalls(top, argv, i, j - 1); }
  }

  /** Where string i goes can be written. */
  ghost predicate PlaceOk(s: St, root: nat, top: int, argv: seq<seq<byte>>, i: nat)
    requires root in s.spaces && i < |argv|
  {
    Writable(s, root, SpAt(top, argv, i + 1), |argv[i]| + 1)
  }

  ghost predicate Writable(s: St, root: nat, p: int, n: nat)
    requires root in s.spaces
  {
    p >= 0 && forall a: nat {:trigger CanWrite(s, root, a)} | p <= a < p + n :: CanWrite(s, root, a)
  }

  /** At most MAXARG arguments, room for them on the stack, and no page there that
      may not be written. */
  ghost predicate Fits(s: St, root: nat, base: nat, top: nat, argv: seq<seq<byte>>)
    requires root in s.spaces
  {
    && |argv| <= MAXARG && base <= ArgSp(top, argv)
    && (forall i: nat {:trigger PlaceOk(s, root, top, argv, i)} | i < |argv| :: PlaceOk(s, root, top, argv, i))
    && Writable(s, root, ArgSp(top, argv), 8 * (|argv| + 1))
  }

  /** Whether a page may be written is a matter of the tables. */
  lemma WritableSame(s: St, t: St, root: nat, p: nat, n: nat, k: nat, ok: bool)
    requires root in s.spaces && t.spaces == s.spaces && k <= n
    requires forall a: nat | p <= a < p + k :: CanWrite(t, root, a)
    requires if ok then k == n else k < n && !CanWrite(t, root, p + k)
    ensures ok <==> Writable(s, root, p, n)
  {
    hide VpnOf;
    assert forall a: nat :: CanWrite(t, root, a) <==> CanWrite(s, root, a);
  }

  /** exec's argument loop, on a stack of USERSTACK pages below `top`. An address
      below zero stands for the wrapped one: either is refused. */
  method PushArgs(m: Machine, root: nat, top: nat, argv: seq<seq<byte>>) returns (r: int, sp: int, ptrs: seq<nat>)
    requires m.Valid() && root in m.st.spaces && top >= USERSTACK * PGSIZE
    requires forall i: nat, j: nat | i < |argv| && j < |argv[i]| :: argv[i][j] != 0
    modifies m
    ensures m.Valid() && m.st.spaces == old(m.st).spaces
    ensures r == |argv| || r == -1
    ensures r == |argv| <==> Fits(old(m.st), root, top - USERSTACK * PGSIZE, top, argv)
    ensures r == |argv| ==>
              |argv| <= MAXARG && sp == ArgSp(top, argv) >= 0
              && ArgsAt(m.st, root, top - USERSTACK * PGSIZE, top, sp, argv, ptrs)
    ensures forall other | other in m.st.spaces && other != root :: View(m.st, other) == View(old(m.st), other)
  {
    hide Pushed;
    hide ArgsAt;
    hide Stored;
    hide Good;
    hide View;
    hide Words;
    hide SpAt;
    hide Writable;
    hide CanWrite;
    var base := top - USERSTACK * PGSIZE;
    sp, ptrs := top, [];
    ghost var s := m.st;
    NonePushed(s, root, base, top, argv);
    SpStart(top, argv);
    while |ptrs| < |argv|
      invariant |ptrs| <= |argv| && |ptrs| <= MAXARG && m.Valid() && m.st.spaces == s.spaces
      invariant base <= sp <= top && Pushed(m.st, root, base, top, sp, argv, ptrs)
      invariant sp == SpAt(top, argv, |ptrs|)
                && forall i: nat {:trigger PlaceOk(s, root, top, argv, i)} | i < |ptrs| ::
                     PlaceOk(s, root, top, argv, i)
      invariant forall other | other in s.spaces && other != root :: View(m.st, other) == View(s, other)
      decreases |argv| - |ptrs|
    {
      if |ptrs| >= MAXARG { return -1, sp, ptrs; }
      var d := argv[|ptrs|] + [0];
      var p := Align(sp - |d|);
      SpNext(top, argv, |ptrs|);
      if p < base { return -1, p, ptrs; }
      ghost var t := m.st;
      var ok, k := CopyOut(m, root, p, d);
      OthersKept(t, m.st, root, p, d[..k]);
      WritableSame(s, t, root, p, |d|, k, ok);
      if !ok {
        assert !PlaceOk(s, root, top, argv, |ptrs|);
        return -1, p, ptrs;
      }
      assert d[..k] == d;
      PushStep(t, m.st, root, base, top, sp, argv, ptrs, p);
      sp := p;
      ptrs := ptrs + [p];
    }
    var d := Words(ptrs + [0]);
    var p := Align(sp - 8 * (|argv| + 1));
    if p < base { return -1, p, ptrs; }
    ghost var t := m.st;
    var ok, k := CopyOut(m, root, p, d);
    OthersKept(t, m.st, root, p, d[..k]);
    WritableSame(s, t, root, p, |d|, k, ok);
    if !ok { return -1, p, ptrs; }
    assert d[..k] == d;
    ArgsDone(t, m.st, root, base, top, sp, argv, ptrs, p);
    sp := p;
    r := |argv|;
  }

  lemma SpStart(top: int, argv: seq<seq<byte>>)
    ensures SpAt(top, argv, 0) == top
  {
  }

  lemma SpNext(top: int, argv: seq<seq<byte>>, i: nat)
    requires i < |argv|
    ensures SpAt(top, argv, i + 1) == Align(SpAt(top, argv, i) - (|argv[i]| + 1))
            && ArgSp(top, argv) <= SpAt(top, argv, i + 1)
  {
    SpFalls(top, argv, i + 1, |argv|);
  }

  lemma NonePushed(s: St, root: nat, base: nat, top: nat, argv: seq<seq<byte>>)
    requires Good(s) && root in s.spaces && base <= top
    ensures Pushed(s, root, base, top, top, argv, [])
  {
  }

  lemma OthersKept(s: St, t: St, root: nat, va: nat, d: seq<byte>)
    requires Good(s) && Good(t) && Stored(s, t, root, va, d)
    ensures t.spaces == s.spaces
    ensures forall other | other in s.spaces && other != root :: View(t, other) == View(s, other)
  {
    hide View;
    StoredSpaces(s, t, root, va, d);
    forall other | other in s.spaces && other != root ensures View(t, other) == View(s, other) {
      StoredIsolated(s, t, root, va, d, other);
    }
  }
}
