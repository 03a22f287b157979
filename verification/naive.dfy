/** The naive constructor: sort every offset by comparing whole suffixes. */
module Naive {
  import opened LexOrder
  import opened Counting
  import opened SuffixArray

  /** The string has no NUL character, so strcmp sees each suffix up to the string's end. */
  predicate NulFree(s: string) {
    forall i :: 0 <= i < |s| ==> s[i] != '\0'
  }

  /** The qsort comparator: strcmp of the two suffixes. */
  function SuffixCompare(s: string, i: int, j: int): (c: int)
    requires NulFree(s)
    requires 0 <= i < |s| && 0 <= j < |s|
    ensures c < 0 <==> SuffixLess(s, i, j)
    ensures c > 0 <==> SuffixLess(s, j, i)
    ensures c == 0 <==> i == j
  {
    CompareAntisymmetric(s[i..], s[j..]);
    assert i != j ==> |s[i..]| != |s[j..]|;
    Compare(s[i..], s[j..])
  }

  /** Inserts offset x into a suffix-sorted sequence of other offsets. */
  function InsertSuffix(s: string, x: int, xs: seq<int>): (r: seq<int>)
    requires NulFree(s)
    requires 0 <= x < |s| && x !in xs
    requires forall k :: 0 <= k < |xs| ==> 0 <= xs[k] < |s|
    requires SuffixSorted(s, xs)
    ensures |r| == |xs| + 1
    ensures forall t :: t in r <==> t == x || t in xs
    ensures SuffixSorted(s, r)
  {
    if |xs| == 0 then [x]
    else if SuffixCompare(s, x, xs[0]) < 0 then
      BelowHead(s, x, xs);
      PrependSorted(s, x, xs);
      [x] + xs
    else
      var rest := InsertSuffix(s, x, xs[1..]);
      assert forall t :: t in xs <==> t == xs[0] || t in xs[1..] by {
        assert xs == [xs[0]] + xs[1..];
      }
      HeadBelowRest(s, x, xs, rest);
      PrependSorted(s, xs[0], rest);
      [xs[0]] + rest
  }

  /** A suffix below the first of a sorted sequence is below all of them. */
  lemma BelowHead(s: string, x: int, xs: seq<int>)
    requires SuffixSorted(s, xs) && |xs| > 0 && SuffixLess(s, x, xs[0])
    ensures forall k :: 0 <= k < |xs| ==> SuffixLess(s, x, xs[k])
  {
    forall k | 0 < k < |xs|
      ensures SuffixLess(s, x, xs[k])
    {
      SuffixLessTransitive(s, x, xs[0], xs[k]);
    }
  }

  /** The first of a sorted sequence is below every other entry and below x, so it is
      below everything the rest with x inserted holds. */
  lemma HeadBelowRest(s: string, x: int, xs: seq<int>, rest: seq<int>)
    requires SuffixSorted(s, xs) && |xs| > 0 && SuffixLess(s, xs[0], x)
    requires forall t :: t in rest <==> t == x || t in xs[1..]
    ensures forall k :: 0 <= k < |rest| ==> SuffixLess(s, xs[0], rest[k])
  {
    forall k | 0 <= k < |rest|
      ensures SuffixLess(s, xs[0], rest[k])
    {
      assert rest[k] in rest;
      if rest[k] != x {
        var m :| 0 <= m < |xs[1..]| && xs[1..][m] == rest[k];
        assert xs[m + 1] == rest[k];
      }
    }
  }

  /** Putting a suffix below all entries of a sorted sequence in front keeps it sorted. */
  lemma PrependSorted(s: string, y: int, ys: seq<int>)
    requires SuffixSorted(s, ys)
    requires forall k :: 0 <= k < |ys| ==> SuffixLess(s, y, ys[k])
    ensures SuffixSorted(s, [y] + ys)
  {
    forall i, j | 0 <= i < j < |[y] + ys|
      ensures SuffixLess(s, ([y] + ys)[i], ([y] + ys)[j])
    {
      assert ([y] + ys)[j] == ys[j - 1];
      if i > 0 {
        assert ([y] + ys)[i] == ys[i - 1];
      }
    }
  }

  /** The offsets `0 .. k-1`, sorted by the suffixes they denote. */
  function SortOffsets(s: string, k: nat): (r: seq<int>)
    requires NulFree(s) && k <= |s|
    ensures |r| == k
    ensures forall t :: t in r <==> 0 <= t < k
    ensures SuffixSorted(s, r)
  {
    if k == 0 then []
    else
      var rest := SortOffsets(s, k - 1);
      assert forall i :: 0 <= i < |rest| ==> 0 <= rest[i] < |s| by {
        assert forall i :: 0 <= i < |rest| ==> rest[i] in rest;
      }
      InsertSuffix(s, k - 1, rest)
  }

  /** suffix_sorting_0: the suffix array, obtained by sorting all offsets with the
      strcmp comparator. */
  function SuffixSorting0(s: string): (sa: seq<int>)
    requires NulFree(s)
    ensures IsSuffixArray(s, sa)
  {
    var sa := SortOffsets(s, |s|);
    SortedDistinct(s, sa);
    assert forall i :: 0 <= i < |sa| ==> sa[i] in sa;
    sa
  }

  /** The naive constructor returns the only suffix array of its input. */
  lemma NaiveIsTheSuffixArray(s: string, sa: seq<int>)
    requires NulFree(s)
    ensures IsSuffixArray(s, sa) <==> sa == SuffixSorting0(s)
  {
    if IsSuffixArray(s, sa) {
      SuffixArrayUnique(s, sa, SuffixSorting0(s));
    }
  }

  /** The empty string has the empty suffix array. */
  lemma NaiveEmpty()
    ensures SuffixSorting0("") == []
  {
  }

  /** `gggg$`: the terminator first, then the remaining offsets from shortest suffix to longest. */
  lemma RepeatedLetterOrder()
    ensures IsSuffixArray("gggg$", [4, 3, 2, 1, 0])
  {
    var s := "gggg$";
    var sa := [4, 3, 2, 1, 0];
    assert Less(s[4..], s[3..]);
    assert Less(s[3..], s[2..]);
    assert Less(s[2..], s[1..]);
    assert Less(s[1..], s[0..]);
    AdjacentSorted(s, sa);
    assert forall t :: 0 <= t < 5 ==> t in sa by {
      assert sa[0] == 4 && sa[1] == 3 && sa[2] == 2 && sa[3] == 1 && sa[4] == 0;
    }
  }

  /** The naive constructor therefore returns `[4, 3, 2, 1, 0]` on `gggg$`. */
  lemma NaiveOnRepeatedLetter()
    ensures SuffixSorting0("gggg$") == [4, 3, 2, 1, 0]
  {
    RepeatedLetterOrder();
    NaiveIsTheSuffixArray("gggg$", [4, 3, 2, 1, 0]);
  }
}
