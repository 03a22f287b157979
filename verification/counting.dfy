/** Permutations of offsets and the counting facts the proofs rely on. */
module Counting {

  /** No value occurs twice in `a`. */
  predicate Distinct(a: seq<int>) {
    forall i, j :: 0 <= i < j < |a| ==> a[i] != a[j]
  }

  /** `a` lists every offset `0 .. n-1` exactly once. */
  predicate IsPermutation(a: seq<int>, n: int) {
    && |a| == n
    && Distinct(a)
    && (forall i :: 0 <= i < |a| ==> 0 <= a[i] < n)
    && (forall t :: 0 <= t < n ==> t in a)
  }

  /** `prm` undoes `pos`: the offset at index i has rank i. */
  predicate IsInverse(prm: seq<int>, pos: seq<int>) {
    && |prm| == |pos|
    && (forall i :: 0 <= i < |pos| ==> 0 <= pos[i] < |prm| && prm[pos[i]] == i)
  }

  /** The index at which `t` occurs in `a`. */
  function IndexOf(a: seq<int>, t: int): (k: int)
    requires t in a
    ensures 0 <= k < |a| && a[k] == t
  {
    if a[0] == t then 0 else 1 + IndexOf(a[1..], t)
  }

  /** In a sequence without repetitions, the index of an element is the only one holding it. */
  lemma IndexOfDistinct(a: seq<int>, k: int)
    requires Distinct(a) && 0 <= k < |a|
    ensures IndexOf(a, a[k]) == k
  {
  }

  /** Pigeonhole: distinct values drawn from `[lo, hi)` number at most `hi - lo`. */
  lemma {:induction false} Pigeonhole(a: seq<int>, lo: int, hi: int)
    requires Distinct(a)
    requires forall i :: 0 <= i < |a| ==> lo <= a[i] < hi
    ensures |a| <= if lo <= hi then hi - lo else 0
    decreases hi - lo
  {
    if |a| > 0 {
      assert lo <= a[0] < hi;
      if k :| 0 <= k < |a| && a[k] == hi - 1 {
        var b := a[..k] + a[k+1..];
        assert forall i :: 0 <= i < |b| ==> b[i] == if i < k then a[i] else a[i + 1];
        forall i, j | 0 <= i < j < |b|
          ensures b[i] != b[j]
        {
          var i' := if i < k then i else i + 1;
          var j' := if j < k then j else j + 1;
          assert b[i] == a[i'] && b[j] == a[j'] && i' < j';
        }
        forall i | 0 <= i < |b|
          ensures lo <= b[i] < hi - 1
        {
          var i' := if i < k then i else i + 1;
          assert b[i] == a[i'] && i' != k;
        }
        Pigeonhole(b, lo, hi - 1);
      } else {
        Pigeonhole(a, lo, hi - 1);
      }
    }
  }

  /** A repetition-free sequence covering exactly `[0, n)` has length n. */
  lemma CoverLength(a: seq<int>, n: int)
    requires Distinct(a) && 0 <= n
    requires forall t :: t in a <==> 0 <= t < n
    ensures |a| == n
  {
    assert forall i :: 0 <= i < |a| ==> a[i] in a;
    Pigeonhole(a, 0, n);
    var idx := seq(n, t requires 0 <= t < n => IndexOf(a, t));
    forall i, j | 0 <= i < j < n
      ensures idx[i] != idx[j]
    {
      assert a[idx[i]] == i && a[idx[j]] == j;
    }
    Pigeonhole(idx, 0, |a|);
  }

  /** The inverse of a permutation is a permutation, and inverts it from the other side. */
  lemma InverseOfPermutation(prm: seq<int>, pos: seq<int>)
    requires IsPermutation(pos, |pos|) && IsInverse(prm, pos)
    ensures IsPermutation(prm, |pos|)
    ensures forall t :: 0 <= t < |prm| ==> pos[prm[t]] == t
  {
    var n := |pos|;
    forall t | 0 <= t < n
      ensures 0 <= prm[t] < n && pos[prm[t]] == t
    {
      var k := IndexOf(pos, t);
      assert prm[pos[k]] == k;
    }
    forall i, j | 0 <= i < j < n
      ensures prm[i] != prm[j]
    {
      assert pos[prm[i]] == i && pos[prm[j]] == j;
    }
    forall t | 0 <= t < n
      ensures t in prm
    {
      assert prm[pos[t]] == t;
    }
  }
}
