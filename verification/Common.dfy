/** Notions that several parts of the model share. */
module Common {
  type byte = x: int | 0 <= x < 256

  const DIRSIZ: nat := 14
  const ROOTINO: nat := 1

  datatype PState = UNUSED | USED | SLEEPING | RUNNABLE | RUNNING | ZOMBIE

  function Min(a: nat, b: nat): nat { if a < b then a else b }

  predicate Unique(q: seq<nat>) { forall i: nat, j: nat {:trigger q[i], q[j]} :: i < j < |q| ==> q[i] != q[j] }

  function Elems(q: seq<nat>): set<nat> { set x | x in q }

  lemma SubsetSize<T>(a: set<T>, b: set<T>)
    requires a <= b
    ensures |a| <= |b|
  {
    assert b == a + (b - a);
  }
}
