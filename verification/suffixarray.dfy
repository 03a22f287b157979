/** What a suffix array is: the offsets of a string, listed in increasing suffix order. */
module SuffixArray {
  import opened LexOrder
  import opened Counting

  /** The suffix starting at offset i sorts strictly before the one at offset j. */
  predicate SuffixLess(s: string, i: int, j: int) {
    0 <= i <= |s| && 0 <= j <= |s| && Less(s[i..], s[j..])
  }

  /** Every earlier entry of `sa` denotes a strictly smaller suffix than every later one. */
  predicate SuffixSorted(s: string, sa: seq<int>) {
    forall i, j :: 0 <= i < j < |sa| ==> SuffixLess(s, sa[i], sa[j])
  }

  predicate IsSuffixArray(s: string, sa: seq<int>) {
    IsPermutation(sa, |s|) && SuffixSorted(s, sa)
  }

  /** Suffixes at different offsets differ (their lengths do), so they are strictly ordered. */
  lemma SuffixesOrdered(s: string, i: int, j: int)
    requires 0 <= i <= |s| && 0 <= j <= |s| && i != j
    ensures SuffixLess(s, i, j) || SuffixLess(s, j, i)
    ensures !(SuffixLess(s, i, j) && SuffixLess(s, j, i))
  {
    assert |s[i..]| != |s[j..]|;
    LessTotal(s[i..], s[j..]);
    LessAsymmetric(s[i..], s[j..]);
  }

  lemma SuffixLessTransitive(s: string, i: int, j: int, k: int)
    requires SuffixLess(s, i, j) && SuffixLess(s, j, k)
    ensures SuffixLess(s, i, k)
  {
    LessTransitive(s[i..], s[j..], s[k..]);
  }

  /** Sortedness of neighbours is sortedness of all pairs. */
  lemma {:induction false} AdjacentSorted(s: string, sa: seq<int>)
    requires forall k :: 0 <= k < |sa| - 1 ==> SuffixLess(s, sa[k], sa[k + 1])
    ensures SuffixSorted(s, sa)
    decreases |sa|
  {
    if |sa| > 1 {
      AdjacentSorted(s, sa[1..]);
      forall j | 1 < j < |sa|
        ensures SuffixLess(s, sa[0], sa[j])
      {
        assert SuffixLess(s, sa[1..][0], sa[1..][j - 1]);
        SuffixLessTransitive(s, sa[0], sa[1], sa[j]);
      }
      forall i, j | 0 <= i < j < |sa|
        ensures SuffixLess(s, sa[i], sa[j])
      {
        if i > 0 {
          assert SuffixLess(s, sa[1..][i - 1], sa[1..][j - 1]);
        }
      }
    }
  }

  /** A suffix-sorted sequence never repeats an offset. */
  lemma SortedDistinct(s: string, sa: seq<int>)
    requires SuffixSorted(s, sa)
    ensures Distinct(sa)
  {
    forall i, j | 0 <= i < j < |sa|
      ensures sa[i] != sa[j]
    {
      assert SuffixLess(s, sa[i], sa[j]);
      LessIrreflexive(s[sa[i]..]);
    }
  }

  /** Two suffix-sorted sequences holding the same offsets are equal. */
  lemma {:induction false} SortedSameElements(s: string, a: seq<int>, b: seq<int>)
    requires SuffixSorted(s, a) && SuffixSorted(s, b)
    requires forall t :: t in a <==> t in b
    ensures a == b
    decreases |a|
  {
    if |a| > 0 || |b| > 0 {
      var x := if |a| > 0 then a[0] else b[0];
      assert x in a && x in b;
      assert a[0] in a && b[0] in b;
      if a[0] != b[0] {
        var k :| 0 <= k < |b| && b[k] == a[0];
        var m :| 0 <= m < |a| && a[m] == b[0];
        assert k > 0 && m > 0;
        assert SuffixLess(s, b[0], b[k]);
        assert SuffixLess(s, a[0], a[m]);
        LessAsymmetric(s[a[0]..], s[b[0]..]);
        assert false;
      }
      SortedDistinct(s, a);
      SortedDistinct(s, b);
      forall t
        ensures t in a[1..] <==> t in b[1..]
      {
        if t in a[1..] {
          var i :| 1 <= i < |a| && a[i] == t;
          assert a[i] != a[0] && t in a;
          var j :| 0 <= j < |b| && b[j] == t;
          assert j != 0 && b[1..][j - 1] == t;
        }
        if t in b[1..] {
          var i :| 1 <= i < |b| && b[i] == t;
          assert b[i] != b[0] && t in b;
          var j :| 0 <= j < |a| && a[j] == t;
          assert j != 0 && a[1..][j - 1] == t;
        }
      }
      SortedSameElements(s, a[1..], b[1..]);
      assert a == [a[0]] + a[1..] && b == [b[0]] + b[1..];
    }
  }

  /** A string has exactly one suffix array. */
  lemma SuffixArrayUnique(s: string, a: seq<int>, b: seq<int>)
    requires IsSuffixArray(s, a) && IsSuffixArray(s, b)
    ensures a == b
  {
    SortedSameElements(s, a, b);
  }
}
