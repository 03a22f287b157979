/** On `aa$` the doubling constructor stops before it has sorted anything beyond the
    first symbol, and its answer is not the suffix array the naive constructor returns. */
module Divergence {
  import opened Alphabet
  import opened Options
  import opened Counting
  import opened LexOrder
  import opened SuffixArray
  import opened Naive
  import opened FirstStage
  import opened Buckets
  import opened Doubling

  /** The first stage on `aa$`: `$` (offset 2) first, then the two `a` offsets in
      increasing order, with heads at positions 0 and 1 only. */
  lemma FirstStageOnAa()
    ensures FirstSymbolOrder("aa$") == [2, 0, 1]
    ensures FirstHeads("aa$") == [1, 1, 0]
    ensures |"aa$"| - |HeadPositions(FirstHeads("aa$"))| == 1
  {
    var s := "aa$";
    assert OffsetsOfRank(s, 0, 3) == [2];
    assert OffsetsOfRank(s, 1, 3) == [0, 1];
    assert OffsetsOfRank(s, 2, 3) == [];
    assert OffsetsOfRank(s, 3, 3) == [];
    assert OffsetsOfRank(s, 4, 3) == [];
    assert RankClasses(s, NumBins) == [2, 0, 1];
    assert HeadsBelow([1, 1, 0], 3) == [0, 1];
  }

  /** `$` < `a$` < `aa$`: the suffix array of `aa$` is [2, 1, 0]. */
  lemma SuffixArrayOfAa()
    ensures IsSuffixArray("aa$", [2, 1, 0])
    ensures !IsSuffixArray("aa$", [2, 0, 1])
  {
    var s := "aa$";
    var sa := [2, 1, 0];
    assert Less(s[2..], s[1..]);
    assert Less(s[1..], s[0..]);
    AdjacentSorted(s, sa);
    assert forall t :: 0 <= t < 3 ==> t in sa by {
      assert sa[0] == 2 && sa[1] == 1 && sa[2] == 0;
    }
    var wrong := [2, 0, 1];
    assert Less(s[1..], s[0..]);
    SuffixesOrdered(s, 0, 1);
    assert !SuffixLess(s, wrong[1], wrong[2]);
  }

  /** The naive constructor returns [2, 1, 0] on `aa$`. */
  lemma NaiveOnAa()
    ensures SuffixSorting0("aa$") == [2, 1, 0]
  {
    SuffixArrayOfAa();
    NaiveIsTheSuffixArray("aa$", [2, 1, 0]);
  }

  /** Running both constructors on `aa$`: the doubling one leaves after its first early-exit
      test (one non-head, not more than H = 1) with the first-stage order [2, 0, 1], which is
      not a suffix array; the naive one returns [2, 1, 0]. */
  method DivergenceOnAa() returns (doubling: Option<seq<int>>, rounds: nat, naive: seq<int>)
    ensures doubling == Some([2, 0, 1]) && rounds == 0
    ensures naive == [2, 1, 0]
    ensures !IsSuffixArray("aa$", doubling.value) && IsSuffixArray("aa$", naive)
  {
    var s := "aa$";
    assert s[0] == 'a' && s[1] == 'a' && s[2] == '$';
    assert NulFree(s) && IsValidString(s);
    naive := SuffixSorting0(s);
    doubling, rounds := SuffixSorting1(s);
    FirstStageOnAa();
    SuffixArrayOfAa();
    NaiveOnAa();
  }
}
