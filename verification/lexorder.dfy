/** Lexicographic order on strings, as strcmp computes it on NUL-free strings. */
module LexOrder {
  import opened Alphabet

  /** Sign of strcmp: the first differing character decides, and the end of a
      string sorts below every character. */
  function Compare(a: string, b: string): (c: int)
    ensures -1 <= c <= 1
    ensures c == 0 <==> a == b
    decreases |a|
  {
    if |a| == 0 then (if |b| == 0 then 0 else -1)
    else if |b| == 0 then 1
    else if a[0] < b[0] then -1
    else if b[0] < a[0] then 1
    else
      var c := Compare(a[1..], b[1..]);
      assert a == [a[0]] + a[1..] && b == [b[0]] + b[1..];
      c
  }

  predicate Less(a: string, b: string) {
    Compare(a, b) < 0
  }

  /** Swapping the arguments negates the comparison. */
  lemma {:induction false} CompareAntisymmetric(a: string, b: string)
    ensures Compare(b, a) == -Compare(a, b)
    decreases |a|
  {
    if |a| > 0 && |b| > 0 && a[0] == b[0] {
      CompareAntisymmetric(a[1..], b[1..]);
    }
  }

  lemma LessIrreflexive(a: string)
    ensures !Less(a, a)
  {
  }

  lemma LessAsymmetric(a: string, b: string)
    ensures Less(a, b) ==> !Less(b, a)
  {
    CompareAntisymmetric(a, b);
  }

  /** Any two different strings are ordered one way or the other. */
  lemma LessTotal(a: string, b: string)
    ensures a != b ==> Less(a, b) || Less(b, a)
  {
    CompareAntisymmetric(a, b);
  }

  lemma {:induction false} LessTransitive(a: string, b: string, c: string)
    requires Less(a, b) && Less(b, c)
    ensures Less(a, c)
    decreases |a|
  {
    if |a| > 0 && |b| > 0 && |c| > 0 && a[0] == b[0] && b[0] == c[0] {
      LessTransitive(a[1..], b[1..], c[1..]);
    }
  }

  /** Comparison by alphabet rank, symbol by symbol, with end-of-string lowest:
      the order `$ < a < c < g < t` fixes. */
  function RankCompare(a: string, b: string): int
    requires IsValidString(a) && IsValidString(b)
    decreases |a|
  {
    if |a| == 0 then (if |b| == 0 then 0 else -1)
    else if |b| == 0 then 1
    else if AlphaRank(a[0]) < AlphaRank(b[0]) then -1
    else if AlphaRank(b[0]) < AlphaRank(a[0]) then 1
    else RankCompare(a[1..], b[1..])
  }

  /** On alphabet strings, strcmp's byte order is the alphabet-rank order. */
  lemma {:induction false} CompareIsRankCompare(a: string, b: string)
    requires IsValidString(a) && IsValidString(b)
    ensures Compare(a, b) == RankCompare(a, b)
    decreases |a|
  {
    if |a| > 0 && |b| > 0 {
      RankMonotone(a[0], b[0]);
      if a[0] == b[0] {
        CompareIsRankCompare(a[1..], b[1..]);
      }
    }
  }
}
