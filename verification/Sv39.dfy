/** The Sv39 arithmetic of `kernel/include/riscv.h`: page rounding, page-table
    indices and page-table entries. Physical pages are named by their page
    number; 0 plays the role of the null pointer. */
module Sv39 {
  const PGSIZE: nat := 4096
  const NPTE: nat := 512
  const MAXVA: nat := 0x40_0000_0000
  const TRAMPOLINE: nat := MAXVA - PGSIZE
  const TRAPFRAME: nat := TRAMPOLINE - PGSIZE

  datatype Perm = Perm(r: bool, w: bool, x: bool, u: bool)

  /** A page-table entry: either the zero word or a word with PTE_V set. */
  datatype Pte = Zero | Pte(ppn: nat, perm: Perm)

  const NODE: Perm := Perm(false, false, false, false)

  function PgRoundUp(sz: nat): nat { (sz + PGSIZE - 1) / PGSIZE * PGSIZE }

  function PgRoundDown(a: nat): nat { a / PGSIZE * PGSIZE }

  function PX(level: nat, va: nat): nat
    requires level < 3
  {
    if level == 0 then va / 0x1000 % NPTE
    else if level == 1 then va / 0x20_0000 % NPTE
    else va / 0x4000_0000 % NPTE
  }

  /** The index path of a low table node, and of a page. */
  datatype Region = Region(i: nat, j: nat)
  datatype Vpn = Vpn(k: Region, m: nat)

  function VpnOf(va: nat): Vpn { Vpn(Region(PX(2, va), PX(1, va)), PX(0, va)) }

  /** Index paths of pages below MAXVA, and of those below TRAPFRAME. */
  predicate Canonical(v: Vpn) { v.k.i < NPTE / 2 && v.k.j < NPTE && v.m < NPTE }

  predicate IsUser(v: Vpn) { Canonical(v) && !(v.k.i == 255 && v.k.j == 511 && v.m >= 510) }

  function AddressOf(v: Vpn): nat { ((v.k.i * NPTE + v.k.j) * NPTE + v.m) * PGSIZE }

  /** Index paths and page addresses below MAXVA correspond one to one. */
  lemma PathNamesPage(va: nat)
    requires va < MAXVA
    ensures Canonical(VpnOf(va)) && AddressOf(VpnOf(va)) == PgRoundDown(va)
    ensures IsUser(VpnOf(va)) <==> va < TRAPFRAME
  {
    var v := va / PGSIZE;
    assert va / 0x20_0000 == v / NPTE;
    assert va / 0x4000_0000 == v / NPTE / NPTE;
  }

  lemma PageNamesPath(v: Vpn)
    requires Canonical(v)
    ensures AddressOf(v) < MAXVA && VpnOf(AddressOf(v)) == v
  {
    var n := (v.k.i * NPTE + v.k.j) * NPTE + v.m;
    var a := AddressOf(v);
    assert a / 0x1000 == n;
    assert a / 0x20_0000 == n / NPTE == v.k.i * NPTE + v.k.j;
    assert a / 0x4000_0000 == n / NPTE / NPTE == v.k.i;
  }

  function Bit(b: bool): nat { if b then 1 else 0 }

  /** PA2PTE(pa) | perm | PTE_V as a number. */
  function Encode(e: Pte): nat {
    match e
    case Zero => 0
    case Pte(ppn, p) => ppn * 1024 + 1 + 2 * Bit(p.r) + 4 * Bit(p.w) + 8 * Bit(p.x) + 16 * Bit(p.u)
  }

  /** PTE2PA, and the flag tests of walk, walkaddr and freewalk, on the number. */
  function PtePa(word: nat): nat { word / 1024 * PGSIZE }

  function FlagSet(word: nat, k: nat): bool
    requires k < 5
  {
    word / (if k == 0 then 1 else if k == 1 then 2 else if k == 2 then 4 else if k == 3 then 8 else 16) % 2 == 1
  }

  /** Reading a stored word with the C macros recovers the entry. */
  lemma MacrosReadEntry(e: Pte)
    ensures FlagSet(Encode(e), 0) <==> e.Pte?
    ensures e.Pte? ==>
              && PtePa(Encode(e)) == e.ppn * PGSIZE
              && e.perm ==
                   Perm(FlagSet(Encode(e), 1), FlagSet(Encode(e), 2), FlagSet(Encode(e), 3), FlagSet(Encode(e), 4))
    ensures e.Zero? ==> Encode(e) == 0
  {
    if e.Pte? {
      var p := e.perm;
      BitsRead(Encode(e), e.ppn, Bit(p.r), Bit(p.w), Bit(p.x), Bit(p.u));
    }
  }

  lemma BitsRead(w: nat, ppn: nat, b1: nat, b2: nat, b3: nat, b4: nat)
    requires b1 < 2 && b2 < 2 && b3 < 2 && b4 < 2
    requires w == ppn * 1024 + 1 + 2 * b1 + 4 * b2 + 8 * b3 + 16 * b4
    ensures FlagSet(w, 0) && w / 1024 == ppn
    ensures (FlagSet(w, 1) <==> b1 == 1) && (FlagSet(w, 2) <==> b2 == 1) && (FlagSet(w, 3) <==> b3 == 1)
            && (FlagSet(w, 4) <==> b4 == 1)
  {
    var w4 := ppn * 64 + b4;
    var w3 := 2 * w4 + b3;
    var w2 := 2 * w3 + b2;
    var w1 := 2 * w2 + b1;
    Half(w1, 1, w);
    Half(w2, b1, w1);
    Half(w3, b2, w2);
    Half(w4, b3, w3);
    Half(ppn * 32, b4, w4);
    HalfWords(w, w1, w2, w3, w4);
    Quotient(w, ppn, w - 1024 * ppn);
  }

  lemma Half(q: nat, b: nat, w: nat)
    requires b < 2 && w == 2 * q + b
    ensures w / 2 == q && w % 2 == b
  {
  }

  lemma Quotient(w: nat, q: nat, r: nat)
    requires w == 1024 * q + r && r < 1024
    ensures w / 1024 == q
  {
  }

  lemma HalfWords(w: nat, w1: nat, w2: nat, w3: nat, w4: nat)
    requires w / 2 == w1 && w1 / 2 == w2 && w2 / 2 == w3 && w3 / 2 == w4
    ensures w / 4 == w2 && w / 8 == w3 && w / 16 == w4
  {
  }
}
