/** The fixed DNA alphabet `$ < a < c < g < t` and its ranking. */
module Alphabet {

  /** The alphabet, listed in rank order; the terminator `$` comes first. */
  const Symbols: string := "$acgt"

  /** Number of symbols in the alphabet, the terminator included. */
  const AlphaSize: nat := 5

  predicate IsSymbol(c: char) {
    c in Symbols
  }

  /** Every character of `s` belongs to the alphabet. */
  predicate IsValidString(s: string) {
    forall i :: 0 <= i < |s| ==> IsSymbol(s[i])
  }

  /** Rank of a symbol in the alphabet, or -1 for any other character. */
  function AlphaRank(c: char): (r: int)
    ensures -1 <= r < AlphaSize
    ensures r == -1 <==> !IsSymbol(c)
    ensures r >= 0 ==> Symbols[r] == c
  {
    match c
    case '$' => 0
    case 'a' => 1
    case 'c' => 2
    case 'g' => 3
    case 't' => 4
    case _ => -1
  }

  /** Ranking the i-th listed symbol gives back i: the rank is the position in the table. */
  lemma RankOfListedSymbol(i: int)
    requires 0 <= i < AlphaSize
    ensures AlphaRank(Symbols[i]) == i
  {
    assert Symbols[i] in Symbols;
  }

  /** On the alphabet, character-code order (what strcmp compares) and rank order agree. */
  lemma RankMonotone(c: char, d: char)
    requires IsSymbol(c) && IsSymbol(d)
    ensures c < d <==> AlphaRank(c) < AlphaRank(d)
    ensures c == d <==> AlphaRank(c) == AlphaRank(d)
  {
  }
}
