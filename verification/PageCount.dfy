/** How many free pages an operation on an address space takes: one for each
    frame, and one for each table that is missing. */
module PageCount {
  import opened Common
  import opened Sv39
  import opened PageState

  /** The middle and the low nodes on the way to the pages g. */
  ghost function Mids(g: set<Vpn>): set<nat> { set v | v in g :: v.k.i }

  ghost function Lows(g: set<Vpn>): set<Region> { set v | v in g :: v.k }

  /** The tables that space `root` lacks for the pages g. */
  ghost function Lack(s: St, root: nat, g: set<Vpn>): nat
    requires root in s.spaces
  {
    |Mids(g) - s.spaces[root].l1.Keys| + |Lows(g) - s.spaces[root].l0.Keys|
  }

  ghost predicate HasTables(s: St, root: nat, g: set<Vpn>) {
    root in s.spaces && Mids(g) <= s.spaces[root].l1.Keys && Lows(g) <= s.spaces[root].l0.Keys
  }

  /** From s to t the free list lost n frames and a page for each new table, and
      all new tables are for the pages g. */
  ghost predicate Spent(s: St, t: St, root: nat, g: set<Vpn>, n: nat) {
    && root in s.spaces && root in t.spaces
    && s.spaces[root].l1.Keys <= t.spaces[root].l1.Keys <= s.spaces[root].l1.Keys + Mids(g)
    && s.spaces[root].l0.Keys <= t.spaces[root].l0.Keys <= s.spaces[root].l0.Keys + Lows(g)
    && |s.free| == |t.free| + n + |t.spaces[root].l1.Keys - s.spaces[root].l1.Keys| +
         |t.spaces[root].l0.Keys - s.spaces[root].l0.Keys|
  }

  lemma SpentRefl(s: St, root: nat, g: set<Vpn>)
    requires root in s.spaces
    ensures Spent(s, s, root, g, 0) && HasTables(s, root, {})
  {
    assert s.spaces[root].l1.Keys - s.spaces[root].l1.Keys == {};
    assert s.spaces[root].l0.Keys - s.spaces[root].l0.Keys == {};
  }

  lemma SpentTrans(s: St, t: St, u: St, root: nat, g: set<Vpn>, h: set<Vpn>, n: nat, m: nat)
    requires Spent(s, t, root, g, n) && Spent(t, u, root, h, m)
    ensures Spent(s, u, root, g + h, n + m)
    ensures HasTables(t, root, g) && HasTables(u, root, h) ==> HasTables(u, root, g + h)
  {
    var a, b, c := s.spaces[root], t.spaces[root], u.spaces[root];
    Both(g, h);
    hide Mids;
    hide Lows;
    Chain(a.l1.Keys, b.l1.Keys, c.l1.Keys, Mids(g), Mids(h));
    Chain(a.l0.Keys, b.l0.Keys, c.l0.Keys, Lows(g), Lows(h));
  }

  lemma Both(g: set<Vpn>, h: set<Vpn>)
    ensures Mids(g + h) == Mids(g) + Mids(h) && Lows(g + h) == Lows(g) + Lows(h)
  {
  }

  lemma Chain<T>(a: set<T>, b: set<T>, c: set<T>, g: set<T>, h: set<T>)
    requires a <= b <= a + g && b <= c <= b + h
    ensures a <= c <= a + (g + h) && |c - a| == |c - b| + |b - a|
    ensures g <= b && h <= c ==> g + h <= c
  {
    assert c - a == (c - b) + (b - a);
  }

  /** Only the free list and the tables of `root` matter. */
  lemma SpentSame(s: St, t: St, u: St, root: nat, g: set<Vpn>, n: nat, m: nat)
    requires Spent(s, t, root, g, n) && root in u.spaces && |u.free| + m == |t.free| + n
    requires u.spaces[root].l1 == t.spaces[root].l1 && u.spaces[root].l0 == t.spaces[root].l0
    ensures Spent(s, u, root, g, m) && (forall h: set<Vpn> :: HasTables(u, root, h) <==> HasTables(t, root, h))
  {
  }

  lemma SpentWider(s: St, t: St, root: nat, g: set<Vpn>, h: set<Vpn>, n: nat)
    requires Spent(s, t, root, g, n) && g <= h
    ensures Spent(s, t, root, h, n)
  {
    assert Mids(g) <= Mids(h) && Lows(g) <= Lows(h);
  }

  /** A low node has its middle node above it. */
  lemma LowsSuffice(s: St, root: nat, g: set<Vpn>)
    requires Good(s) && root in s.spaces && Lows(g) <= s.spaces[root].l0.Keys
    ensures HasTables(s, root, g)
  {
    assert SpaceAt(s, root);
    forall i | i in Mids(g) ensures i in s.spaces[root].l1 {
      var v :| v in g && v.k.i == i;
      assert v.k in Lows(g);
      assert LowNodeOk(s.mem, s.owner, root, s.spaces[root], v.k);
    }
  }

  /** A set that grew by members of m has grown by all those new in m exactly if m
      is in it. */
  lemma Grown<T>(a: set<T>, b: set<T>, m: set<T>)
    requires a <= b <= a + m
    ensures |b - a| <= |m - a| && (|b - a| == |m - a| <==> m <= b)
  {
    assert m - a == (b - a) + (m - b);
    if m - b == {} {
      forall x | x in m ensures x in b { assert x !in m - b; }
    }
  }

  lemma GrownBy<T>(a: set<T>, b: set<T>, m: set<T>, x: T, h: set<T>)
    requires a <= b <= a + m && m <= h && x in h
    ensures |b - a| + |{x} - b| <= |h - a|
  {
    SubsetSize((b - a) + ({x} - b), h - a);
  }

  /** With every table there, exactly the frames and the missing tables were taken. */
  lemma SpentAll(s: St, t: St, root: nat, g: set<Vpn>, n: nat)
    requires Spent(s, t, root, g, n) && HasTables(t, root, g)
    ensures |s.free| == |t.free| + n + Lack(s, root, g)
  {
    hide Mids;
    hide Lows;
    Grown(s.spaces[root].l1.Keys, t.spaces[root].l1.Keys, Mids(g));
    Grown(s.spaces[root].l0.Keys, t.spaces[root].l0.Keys, Lows(g));
  }

  /** With the free list empty and a table missing there were too few pages. */
  lemma SpentShort(s: St, t: St, root: nat, g: set<Vpn>, n: nat)
    requires Spent(s, t, root, g, n) && t.free == [] && !HasTables(t, root, g)
    ensures |s.free| < n + Lack(s, root, g)
  {
    hide Mids;
    hide Lows;
    Grown(s.spaces[root].l1.Keys, t.spaces[root].l1.Keys, Mids(g));
    Grown(s.spaces[root].l0.Keys, t.spaces[root].l0.Keys, Lows(g));
  }

  /** With the pages g in place and too few left for one more page v, there were
      too few for any pages with g and v among them. */
  lemma SpentFails(s: St, t: St, root: nat, g: set<Vpn>, n: nat, v: Vpn, h: set<Vpn>)
    requires Spent(s, t, root, g, n) && |t.free| < 1 + Lack(t, root, {v})
    requires g <= h && v in h && n < |h|
    ensures |s.free| < |h| + Lack(s, root, h)
  {
    Members(g, v, h);
    hide Mids;
    hide Lows;
    GrownBy(s.spaces[root].l1.Keys, t.spaces[root].l1.Keys, Mids(g), v.k.i, Mids(h));
    GrownBy(s.spaces[root].l0.Keys, t.spaces[root].l0.Keys, Lows(g), v.k, Lows(h));
  }

  lemma Members(g: set<Vpn>, v: Vpn, h: set<Vpn>)
    requires g <= h && v in h
    ensures Mids({v}) == {v.k.i} && Lows({v}) == {v.k} && Mids(g) <= Mids(h) && Lows(g) <= Lows(h) && v.k.i in Mids(h)
            && v.k in Lows(h)
  {
  }
}
