/** The on-disk format: 512-byte blocks, little-endian words, dinodes and the
    free bitmap, and where each of them is. */
module Layout {
  import opened Common

  type u32 = x: int | 0 <= x < 0x1_0000_0000
  type short = x: int | -0x8000 <= x < 0x8000

  const BSIZE: nat := 512
  const NDIRECT: nat := 12
  const NINDIRECT: nat := 128
  const MAXFILE: nat := 140
  const DINODE_SIZE: nat := 64
  const IPB: nat := 8
  const BPB: nat := 4096

  const T_DIR: short := 1
  const T_FILE: short := 2

  type Block = b: seq<byte> | |b| == 512 witness seq(512, _ => 0)

  function Zero(): Block { seq(512, _ => 0) }

  type Addrs = a: seq<u32> | |a| == 13 witness seq(13, _ => 0)

  /** The twelve direct block numbers and the indirect one come last. */
  datatype Dinode = Dinode(typ: short, major: short, minor: short, nlink: short, size: u32, addrs: Addrs)

  function Blank(): Dinode { Dinode(0, 0, 0, 0, 0, seq(13, _ => 0)) }

  /** The fields of the superblock that say where things are; `meta` is the
      first block after the bitmap. */
  datatype Super = Super(size: nat, ninodes: nat, inodestart: nat, bmapstart: nat, meta: nat)

  const FSMAGIC: u32 := 0x10203040

  /** The eight words at the start of block 1. */
  datatype SuperBlock = SuperBlock(magic: u32, size: u32, nblocks: u32, ninodes: u32,
                                   nlog: u32, logstart: u32, inodestart: u32, bmapstart: u32)

  predicate Geometry(sb: Super) {
    && 2 <= sb.inodestart
    && sb.ninodes <= IPB * (sb.bmapstart - sb.inodestart)
    && sb.inodestart <= sb.bmapstart
    && sb.size <= BPB * (sb.meta - sb.bmapstart)
    && sb.bmapstart <= sb.meta < sb.size
    && sb.size < 0x1_0000_0000
    && 2 <= sb.ninodes
  }

  function IBlock(sb: Super, i: nat): nat { i / IPB + sb.inodestart }

  function BBlock(sb: Super, b: nat): nat { b / BPB + sb.bmapstart }

  // ---- words ----

  /** A low byte and the rest of a little-endian number. */
  function Cat(lo: byte, hi: nat): nat { lo + 0x100 * hi }

  function Le32(s: seq<byte>, o: nat): u32
    requires o + 4 <= |s|
  {
    FourBytes(s[o..o + 4]);
    Le(s[o..o + 4])
  }

  /** A little-endian number. */
  function Le(s: seq<byte>): nat { if s == [] then 0 else Cat(s[0], Le(s[1..])) }

  lemma FourBytes(s: seq<byte>)
    requires |s| == 4
    ensures Le(s) == Cat(s[0], Cat(s[1], Cat(s[2], s[3]))) < 0x1_0000_0000
  {
    var t := s[1..];
    var u := t[1..];
    assert u[1..][1..] == [];
    assert Le(u[1..]) == s[3] && Le(u) == Cat(s[2], s[3]) && Le(t) == Cat(s[1], Le(u));
  }

  lemma ZeroLe(s: seq<byte>, o: nat)
    requires o + 4 <= |s| && s[o] == s[o + 1] == s[o + 2] == s[o + 3] == 0
    ensures Le32(s, o) == 0
  {
    FourBytes(s[o..o + 4]);
  }

  function Bytes32(v: u32): seq<byte> {
    [v % 0x100, v / 0x100 % 0x100, v / 0x100 / 0x100 % 0x100, v / 0x100 / 0x100 / 0x100]
  }

  function Le16(s: seq<byte>, o: nat): short
    requires o + 2 <= |s|
  {
    var u := Cat(s[o], s[o + 1]);
    if u < 0x8000 then u else u - 0x1_0000
  }

  function Bytes16(v: short): seq<byte> {
    var u := if v < 0 then v + 0x1_0000 else v;
    [u % 0x100, u / 0x100]
  }

  function Splice(s: seq<byte>, o: nat, t: seq<byte>): (r: seq<byte>)
    requires o + |t| <= |s|
    ensures |r| == |s|
  {
    s[..o] + t + s[o + |t|..]
  }

  lemma Le32Bytes(v: u32, s: seq<byte>, o: nat)
    requires o + 4 <= |s| && s[o..o + 4] == Bytes32(v)
    ensures Le32(s, o) == v
  {
    FourBytes(s[o..o + 4]);
  }

  lemma Bytes32Le(s: seq<byte>, o: nat)
    requires o + 4 <= |s|
    ensures Bytes32(Le32(s, o)) == s[o..o + 4]
  {
    var a, b, c := s[o], s[o + 1], s[o + 2];
    FourBytes(s[o..o + 4]);
    var z := Cat(c, s[o + 3]);
    var y := Cat(b, z);
    CatParts(a, y);
    CatParts(b, z);
    CatParts(c, s[o + 3]);
    assert Bytes32(Le32(s, o)) == [a, b, c, s[o + 3]];
  }

  lemma CatParts(lo: byte, hi: nat)
    ensures Cat(lo, hi) % 0x100 == lo && Cat(lo, hi) / 0x100 == hi
  {
  }

  lemma Le16Bytes(v: short, s: seq<byte>, o: nat)
    requires o + 2 <= |s| && s[o..o + 2] == Bytes16(v)
    ensures Le16(s, o) == v
  {
    assert s[o + 0] == s[o..o + 2][0] && s[o + 1] == s[o..o + 2][1];
  }

  lemma Bytes16Le(s: seq<byte>, o: nat)
    requires o + 2 <= |s|
    ensures Bytes16(Le16(s, o)) == s[o..o + 2]
  {
  }

  function PackSuper(x: SuperBlock): (r: seq<byte>)
    ensures |r| == 32
  {
    Bytes32(x.magic) + Bytes32(x.size) + Bytes32(x.nblocks) + Bytes32(x.ninodes) +
    Bytes32(x.nlog) + Bytes32(x.logstart) + Bytes32(x.inodestart) + Bytes32(x.bmapstart)
  }

  function SuperIn(b: Block): SuperBlock {
    SuperBlock(Le32(b, 0), Le32(b, 4), Le32(b, 8), Le32(b, 12), Le32(b, 16), Le32(b, 20), Le32(b, 24), Le32(b, 28))
  }

  /** What was packed is read. */
  lemma SuperReads(b: Block, x: SuperBlock)
    ensures SuperIn(Splice(b, 0, PackSuper(x))) == x
  {
    hide Le32;
    var s := Splice(b, 0, PackSuper(x));
    Le32Bytes(x.magic, s, 0);
    Le32Bytes(x.size, s, 4);
    Le32Bytes(x.nblocks, s, 8);
    Le32Bytes(x.ninodes, s, 12);
    Le32Bytes(x.nlog, s, 16);
    Le32Bytes(x.logstart, s, 20);
    Le32Bytes(x.inodestart, s, 24);
    Le32Bytes(x.bmapstart, s, 28);
  }

  /** Entry j of a block read as block numbers. */
  function Word(b: Block, j: nat): u32
    requires j < NINDIRECT
  {
    Le32(b, 4 * j)
  }

  function SetWord(b: Block, j: nat, v: u32): Block
    requires j < NINDIRECT
  {
    Splice(b, 4 * j, Bytes32(v))
  }

  /** Storing one entry changes that entry and no other. */
  lemma WordSet(b: Block, j: nat, v: u32, k: nat)
    requires j < NINDIRECT && k < NINDIRECT
    ensures Word(SetWord(b, j, v), k) == if k == j then v else Word(b, k)
  {
    var r := SetWord(b, j, v);
    if k == j {
      assert r[4 * j..4 * j + 4] == Bytes32(v);
      Le32Bytes(v, r, 4 * j);
    } else {
      assert r[4 * k..4 * k + 4] == b[4 * k..4 * k + 4];
    }
  }

  lemma ZeroWords(k: nat)
    requires k < NINDIRECT
    ensures Word(Zero(), k) == 0
  {
    ZeroLe(Zero(), 4 * k);
  }

  // ---- dinodes ----

  function Words(a: seq<u32>): (r: seq<byte>)
    ensures |r| == 4 * |a|
  {
    if a == [] then [] else Bytes32(a[0]) + Words(a[1..])
  }

  lemma {:induction false} WordsAt(a: seq<u32>, k: nat)
    requires k < |a|
    ensures Words(a)[4 * k..4 * k + 4] == Bytes32(a[k])
  {
    if k == 0 {
      assert Words(a)[0..4] == Bytes32(a[0]);
    } else {
      WordsAt(a[1..], k - 1);
      assert Words(a)[4 * k..4 * k + 4] == Words(a[1..])[4 * (k - 1)..4 * (k - 1) + 4];
    }
  }

  lemma {:induction false} WordsOf(a: seq<u32>, s: seq<byte>)
    requires |s| == 4 * |a|
    requires forall k :: 0 <= k < |a| ==> a[k] == Le32(s, 4 * k)
    ensures Words(a) == s
  {
    if a != [] {
      Bytes32Le(s, 0);
      forall k | 0 <= k < |a| - 1 ensures a[1..][k] == Le32(s[4..], 4 * k) {
        assert a[k + 1] == Le32(s, 4 * (k + 1));
        assert s[4..][4 * k..4 * k + 4] == s[4 * (k + 1)..4 * (k + 1) + 4];
      }
      WordsOf(a[1..], s[4..]);
      assert s == s[0..4] + s[4..];
    }
  }

  function Head(d: Dinode): (r: seq<byte>)
    ensures |r| == 12
  {
    Bytes16(d.typ) + Bytes16(d.major) + Bytes16(d.minor) + Bytes16(d.nlink) + Bytes32(d.size)
  }

  function Pack(d: Dinode): (r: seq<byte>)
    ensures |r| == DINODE_SIZE
  {
    Head(d) + Words(d.addrs)
  }

  function Unpack(s: seq<byte>): (d: Dinode)
    requires |s| == DINODE_SIZE
  {
    Dinode(Le16(s, 0), Le16(s, 2), Le16(s, 4), Le16(s, 6), Le32(s, 8),
           seq(13, k requires 0 <= k < 13 => Le32(s, 12 + 4 * k)))
  }

  /** Reading back a packed dinode gives the dinode. */
  lemma UnpackPack(d: Dinode)
    ensures Unpack(Pack(d)) == d
  {
    var s := Pack(d);
    assert s[0..2] == Bytes16(d.typ) && s[2..4] == Bytes16(d.major) && s[4..6] == Bytes16(d.minor);
    assert s[6..8] == Bytes16(d.nlink) && s[8..12] == Bytes32(d.size);
    Le16Bytes(d.typ, s, 0); Le16Bytes(d.major, s, 2); Le16Bytes(d.minor, s, 4); Le16Bytes(d.nlink, s, 6);
    Le32Bytes(d.size, s, 8);
    forall k | 0 <= k < 13 ensures Unpack(s).addrs[k] == d.addrs[k] {
      WordsAt(d.addrs, k);
      assert s[12 + 4 * k..12 + 4 * k + 4] == Words(d.addrs)[4 * k..4 * k + 4];
      Le32Bytes(d.addrs[k], s, 12 + 4 * k);
    }
    assert Unpack(s).addrs == d.addrs;
  }

  /** Packing what was read gives the same 64 bytes. */
  lemma PackUnpack(s: seq<byte>)
    requires |s| == DINODE_SIZE
    ensures Pack(Unpack(s)) == s
  {
    var d := Unpack(s);
    Bytes16Le(s, 0); Bytes16Le(s, 2); Bytes16Le(s, 4); Bytes16Le(s, 6); Bytes32Le(s, 8);
    assert Head(d) == s[..12];
    forall k | 0 <= k < 13 ensures d.addrs[k] == Le32(s[12..], 4 * k) {
      assert s[12..][4 * k..4 * k + 4] == s[12 + 4 * k..12 + 4 * k + 4];
    }
    WordsOf(d.addrs, s[12..]);
    assert s == s[..12] + s[12..];
  }

  lemma ZeroUnpack(s: seq<byte>)
    requires |s| == DINODE_SIZE && forall k: nat | k < |s| :: s[k] == 0
    ensures Unpack(s) == Blank()
  {
    hide Le;
    ZeroLe(s, 8);
    forall k: nat | k < 13 ensures Unpack(s).addrs[k] == 0 { ZeroLe(s, 12 + 4 * k); }
    assert Unpack(s).addrs == Blank().addrs;
  }

  /** The dinode in place k of a block. */
  function DinodeIn(b: Block, k: nat): (d: Dinode)
    requires k < IPB
  {
    Unpack(b[DINODE_SIZE * k..DINODE_SIZE * k + DINODE_SIZE])
  }

  function SetDinode(b: Block, k: nat, d: Dinode): Block
    requires k < IPB
  {
    Splice(b, DINODE_SIZE * k, Pack(d))
  }

  lemma DinodeSet(b: Block, k: nat, d: Dinode, j: nat)
    requires k < IPB && j < IPB
    ensures DinodeIn(SetDinode(b, k, d), j) == if j == k then d else DinodeIn(b, j)
  {
    var r := SetDinode(b, k, d);
    if j == k {
      assert r[DINODE_SIZE * k..DINODE_SIZE * k + DINODE_SIZE] == Pack(d);
      UnpackPack(d);
    } else {
      assert r[DINODE_SIZE * j..DINODE_SIZE * j + DINODE_SIZE] == b[DINODE_SIZE * j..DINODE_SIZE * j + DINODE_SIZE];
    }
  }

  // ---- the bitmap ----

  /** Bit k of a byte. */
  predicate BitIn(x: nat, k: nat)
    decreases k
  {
    if k == 0 then x % 2 == 1 else BitIn(x / 2, k - 1)
  }

  /** x | (1 << k), respectively x & ~(1 << k). */
  function SetBitIn(x: nat, k: nat, v: bool): nat
    decreases k
  {
    if k == 0 then x / 2 * 2 + (if v then 1 else 0) else 2 * SetBitIn(x / 2, k - 1, v) + x % 2
  }

  lemma {:induction false} BitSetIn(x: nat, k: nat, v: bool, j: nat)
    ensures BitIn(SetBitIn(x, k, v), j) == if j == k then v else BitIn(x, j)
    decreases k
  {
    if k == 0 {
      assert SetBitIn(x, k, v) / 2 == x / 2;
    } else {
      assert SetBitIn(x, k, v) / 2 == SetBitIn(x / 2, k - 1, v);
      if j > 0 { BitSetIn(x / 2, k - 1, v, j - 1); }
    }
  }

  lemma {:induction false} SetBitFits(x: nat, k: nat, v: bool)
    requires k < 8 && x < 256
    ensures SetBitIn(x, k, v) < 256
  {
    assert Pow2(8) == 256;
    SetBitBelow(x, k, v, 8);
  }

  function Pow2(n: nat): nat { if n == 0 then 1 else 2 * Pow2(n - 1) }

  lemma {:induction false} SetBitBelow(x: nat, k: nat, v: bool, n: nat)
    requires k < n && x < Pow2(n)
    ensures SetBitIn(x, k, v) < Pow2(n)
    decreases k
  {
    var h := Pow2(n - 1);
    assert Pow2(n) == 2 * h && x / 2 < h;
    if k > 0 {
      SetBitBelow(x / 2, k - 1, v, n - 1);
      var y := SetBitIn(x / 2, k - 1, v);
      assert 2 * y + x % 2 < 2 * h;
    }
  }

  predicate BlockBit(b: Block, i: nat)
    requires i < BPB
  {
    BitIn(b[i / 8], i % 8)
  }

  function SetBlockBit(b: Block, i: nat, v: bool): Block
    requires i < BPB
  {
    SetBitFits(b[i / 8], i % 8, v);
    b[i / 8 := SetBitIn(b[i / 8], i % 8, v)]
  }

  lemma BlockBitSet(b: Block, i: nat, v: bool, j: nat)
    requires i < BPB && j < BPB
    ensures BlockBit(SetBlockBit(b, i, v), j) == if j == i then v else BlockBit(b, j)
  {
    if j / 8 == i / 8 {
      BitSetIn(b[i / 8], i % 8, v, j % 8);
      assert j % 8 == i % 8 ==> j == i;
    }
  }
}
