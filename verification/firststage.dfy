/** First stage of the doubling constructor: counting sort of all offsets by the
    rank of their first symbol, the inverse rank array, and the first bucket heads. */
module FirstStage {
  import opened Alphabet
  import opened Counting

  /** Number of counting-sort bins, ALPHA_SIZE + 1: ALPHA_SIZE = 4 counts the letters
      a, c, g, t and the extra bin holds `$`, so there is exactly one bin per rank. */
  const NumBins: nat := AlphaSize

  /** Offset x goes before offset y in the first-stage order: smaller first-symbol
      rank, or equal rank and smaller offset (the sort is stable). */
  predicate FirstSymbolBefore(s: string, x: int, y: int)
    requires 0 <= x < |s| && 0 <= y < |s|
  {
    AlphaRank(s[x]) < AlphaRank(s[y]) || (AlphaRank(s[x]) == AlphaRank(s[y]) && x < y)
  }

  /** The offsets below k whose symbol has rank r, in increasing order. */
  function OffsetsOfRank(s: string, r: int, k: nat): seq<int>
    requires k <= |s|
  {
    if k == 0 then []
    else OffsetsOfRank(s, r, k - 1) + (if AlphaRank(s[k - 1]) == r then [k - 1] else [])
  }

  /** Every offset below k of rank r is in OffsetsOfRank. */
  lemma {:induction false} OffsetsOfRankCover(s: string, r: int, k: nat)
    requires k <= |s|
    ensures forall t :: 0 <= t < k && AlphaRank(s[t]) == r ==> t in OffsetsOfRank(s, r, k)
  {
    if k > 0 {
      OffsetsOfRankCover(s, r, k - 1);
    }
  }

  /** Every entry of OffsetsOfRank is an offset below k of rank r. */
  lemma {:induction false} OffsetsOfRankRanks(s: string, r: int, k: nat)
    requires k <= |s|
    ensures forall i :: 0 <= i < |OffsetsOfRank(s, r, k)| ==>
      0 <= OffsetsOfRank(s, r, k)[i] < k && AlphaRank(s[OffsetsOfRank(s, r, k)[i]]) == r
  {
    if k > 0 {
      OffsetsOfRankRanks(s, r, k - 1);
    }
  }

  /** OffsetsOfRank lists its offsets in increasing order. */
  lemma {:induction false} OffsetsOfRankIncreasing(s: string, r: int, k: nat)
    requires k <= |s|
    ensures forall i, j :: 0 <= i < j < |OffsetsOfRank(s, r, k)| ==>
      OffsetsOfRank(s, r, k)[i] < OffsetsOfRank(s, r, k)[j]
  {
    if k > 0 {
      OffsetsOfRankIncreasing(s, r, k - 1);
      OffsetsOfRankRanks(s, r, k - 1);
    }
  }

  /** The rank classes 0 .. r-1 laid end to end. */
  function RankClasses(s: string, r: nat): seq<int> {
    if r == 0 then [] else RankClasses(s, r - 1) + OffsetsOfRank(s, r - 1, |s|)
  }

  /** Every offset of rank below r is in the rank classes below r. */
  lemma {:induction false} RankClassesCover(s: string, r: nat)
    ensures forall t :: 0 <= t < |s| && 0 <= AlphaRank(s[t]) < r ==> t in RankClasses(s, r)
  {
    if r > 0 {
      RankClassesCover(s, r - 1);
      OffsetsOfRankCover(s, r - 1, |s|);
    }
  }

  /** Every entry of the rank classes below r is an offset of rank below r. */
  lemma {:induction false} RankClassesRanks(s: string, r: nat)
    ensures forall i :: 0 <= i < |RankClasses(s, r)| ==>
      0 <= RankClasses(s, r)[i] < |s| && 0 <= AlphaRank(s[RankClasses(s, r)[i]]) < r
  {
    if r > 0 {
      RankClassesRanks(s, r - 1);
      OffsetsOfRankRanks(s, r - 1, |s|);
      var pre := RankClasses(s, r - 1);
      var cls := OffsetsOfRank(s, r - 1, |s|);
      forall i | 0 <= i < |pre + cls|
        ensures 0 <= (pre + cls)[i] < |s| && 0 <= AlphaRank(s[(pre + cls)[i]]) < r
      {
        if i >= |pre| {
          assert (pre + cls)[i] == cls[i - |pre|];
        }
      }
    }
  }

  /** The rank classes below r are ordered by rank and then by offset. */
  lemma {:induction false} RankClassesOrdered(s: string, r: nat)
    ensures forall i :: 0 <= i < |RankClasses(s, r)| ==> 0 <= RankClasses(s, r)[i] < |s|
    ensures forall i, j :: 0 <= i < j < |RankClasses(s, r)| ==>
      FirstSymbolBefore(s, RankClasses(s, r)[i], RankClasses(s, r)[j])
  {
    if r > 0 {
      RankClassesOrdered(s, r - 1);
      RankClassesRanks(s, r - 1);
      RankClassesRanks(s, r);
      OffsetsOfRankRanks(s, r - 1, |s|);
      OffsetsOfRankIncreasing(s, r - 1, |s|);
      AppendClassOrdered(s, RankClasses(s, r - 1), OffsetsOfRank(s, r - 1, |s|), r - 1);
    }
  }

  /** The rank classes below r hold exactly the offsets of rank below r, ordered by
      rank and then by offset. */
  lemma RankClassesSorted(s: string, r: nat)
    ensures forall t :: t in RankClasses(s, r) <==> 0 <= t < |s| && 0 <= AlphaRank(s[t]) < r
    ensures forall i :: 0 <= i < |RankClasses(s, r)| ==>
      0 <= RankClasses(s, r)[i] < |s| && 0 <= AlphaRank(s[RankClasses(s, r)[i]]) < r
    ensures forall i, j :: 0 <= i < j < |RankClasses(s, r)| ==>
      FirstSymbolBefore(s, RankClasses(s, r)[i], RankClasses(s, r)[j])
  {
    RankClassesCover(s, r);
    RankClassesRanks(s, r);
    RankClassesOrdered(s, r);
  }

  /** Appending the class of rank q, in increasing offset order, to an ordered sequence of
      offsets of lower rank keeps it ordered. */
  lemma AppendClassOrdered(s: string, pre: seq<int>, cls: seq<int>, q: int)
    requires forall i :: 0 <= i < |pre| ==> 0 <= pre[i] < |s| && 0 <= AlphaRank(s[pre[i]]) < q
    requires forall i, j :: 0 <= i < j < |pre| ==> FirstSymbolBefore(s, pre[i], pre[j])
    requires forall i :: 0 <= i < |cls| ==> 0 <= cls[i] < |s| && AlphaRank(s[cls[i]]) == q
    requires forall i, j :: 0 <= i < j < |cls| ==> cls[i] < cls[j]
    ensures forall i, j :: 0 <= i < j < |pre + cls| ==> FirstSymbolBefore(s, (pre + cls)[i], (pre + cls)[j])
  {
    var xs := pre + cls;
    forall i, j | 0 <= i < j < |xs|
      ensures FirstSymbolBefore(s, xs[i], xs[j])
    {
      if j < |pre| {
      } else if i < |pre| {
        assert xs[j] == cls[j - |pre|];
      } else {
        assert xs[i] == cls[i - |pre|] && xs[j] == cls[j - |pre|];
      }
    }
  }

  /** The order the first stage is meant to produce: on an alphabet string, a
      permutation of the offsets sorted by first-symbol rank, with equal symbols in
      increasing offset order. */
  function FirstSymbolOrder(s: string): (order: seq<int>)
    requires IsValidString(s)
    ensures IsPermutation(order, |s|)
    ensures forall i, j :: 0 <= i < j < |s| ==> FirstSymbolBefore(s, order[i], order[j])
  {
    var p := RankClasses(s, NumBins);
    RankClassesSorted(s, NumBins);
    assert forall t :: 0 <= t < |s| ==> t in p by {
      forall t | 0 <= t < |s|
        ensures t in p
      {
        assert IsSymbol(s[t]);
      }
    }
    assert forall i :: 0 <= i < |p| ==> p[i] in p;
    CoverLength(p, |s|);
    p
  }

  /** Where rank class r starts in the first-stage order, and where it ends (exclusive). */
  function ClassStart(s: string, r: nat): nat {
    |RankClasses(s, r)|
  }

  function ClassEnd(s: string, r: nat): nat {
    |RankClasses(s, r)| + |OffsetsOfRank(s, r, |s|)|
  }

  /** Each rank class ends where the next one starts. */
  lemma ClassEndIsNextStart(s: string, r: nat)
    ensures ClassEnd(s, r) == ClassStart(s, r + 1)
  {
    assert RankClasses(s, r + 1) == RankClasses(s, r) + OffsetsOfRank(s, r, |s|);
  }

  /** Class starts never decrease with the rank. */
  lemma {:induction false} ClassStartsMonotone(s: string, r: nat, q: nat)
    requires r <= q
    ensures ClassStart(s, r) <= ClassStart(s, q)
    decreases q - r
  {
    if r < q {
      ClassStartsMonotone(s, r, q - 1);
      ClassEndIsNextStart(s, q - 1);
    }
  }

  lemma {:induction false} OffsetsMonotone(s: string, r: int, i: nat, k: nat)
    requires i <= k <= |s|
    ensures |OffsetsOfRank(s, r, i)| <= |OffsetsOfRank(s, r, k)|
    ensures i < k && AlphaRank(s[i]) == r ==> |OffsetsOfRank(s, r, i)| < |OffsetsOfRank(s, r, k)|
    decreases k - i
  {
    if i < k {
      OffsetsMonotone(s, r, i, k - 1);
      if AlphaRank(s[i]) == r && i < k - 1 {
        OffsetsMonotone(s, r, i + 1, k - 1);
      }
    }
  }

  /** Position of the k-th member of rank class q. */
  function Slot(s: string, q: nat, k: int): int {
    ClassStart(s, q) + k
  }

  /** For every rank class below r, its members below m sit in `pos` from the
      class start on. */
  predicate ClassesPlaced(s: string, pos: seq<int>, r: nat, m: nat)
    requires m <= |s|
  {
    forall q, k {:trigger Slot(s, q, k)} :: 0 <= q < r && 0 <= k < |OffsetsOfRank(s, q, m)| ==>
      0 <= Slot(s, q, k) < |pos| && pos[Slot(s, q, k)] == OffsetsOfRank(s, q, m)[k]
  }

  /** Rank class q occupies the positions from its class start on in `RankClasses`. */
  lemma {:induction false} ClassesIndex(s: string, r: nat, q: nat, k: int)
    requires q < r && 0 <= k < |OffsetsOfRank(s, q, |s|)|
    ensures ClassStart(s, q) + k < ClassStart(s, r)
    ensures RankClasses(s, r)[ClassStart(s, q) + k] == OffsetsOfRank(s, q, |s|)[k]
    decreases r
  {
    var pre := RankClasses(s, r - 1);
    var cls := OffsetsOfRank(s, r - 1, |s|);
    assert RankClasses(s, r) == pre + cls;
    if q < r - 1 {
      ClassesIndex(s, r - 1, q, k);
      assert (pre + cls)[ClassStart(s, q) + k] == pre[ClassStart(s, q) + k];
    } else {
      assert (pre + cls)[|pre| + k] == cls[k];
    }
  }

  /** Every position of `RankClasses(s, r)` lies in one of the classes below r. */
  lemma ClassOfPosition(s: string, r: nat, m: int) returns (q: nat)
    requires 0 <= m < ClassStart(s, r)
    ensures q < r && ClassStart(s, q) <= m < ClassEnd(s, q)
  {
    q := 0;
    while m >= ClassEnd(s, q)
      invariant 0 <= q < r && ClassStart(s, q) <= m
      decreases r - q
    {
      assert RankClasses(s, q + 1) == RankClasses(s, q) + OffsetsOfRank(s, q, |s|);
      if q + 1 == r {
        assert false;
      }
      q := q + 1;
    }
  }

  /** A sequence holding each rank class at its class start is the first-stage order. */
  lemma FilledIsClasses(s: string, pos: seq<int>, r: nat)
    requires |pos| == ClassStart(s, r)
    requires ClassesPlaced(s, pos, r, |s|)
    ensures pos == RankClasses(s, r)
  {
    forall m | 0 <= m < |pos|
      ensures pos[m] == RankClasses(s, r)[m]
    {
      var q := ClassOfPosition(s, r, m);
      var k := m - ClassStart(s, q);
      var cls := OffsetsOfRank(s, q, |s|);
      assert 0 <= k < |cls|;
      ClassesIndex(s, r, q, k);
      assert pos[Slot(s, q, k)] == cls[k];
    }
  }

  /** Bucket-head flags of the first stage: position 0, and every position whose
      symbol differs from the one before it. */
  function FirstHeads(s: string): (bh: seq<int>)
    requires IsValidString(s)
    ensures |bh| == |s|
  {
    var p := FirstSymbolOrder(s);
    seq(|s|, i requires 0 <= i < |s| => if i == 0 || s[p[i]] != s[p[i - 1]] then 1 else 0)
  }

  /** The first-stage heads are exactly the starts of the rank classes. */
  lemma FirstHeadsStartClasses(s: string, i: int)
    requires IsValidString(s) && 0 < i < |s|
    ensures FirstHeads(s)[i] == 1 <==>
        AlphaRank(s[FirstSymbolOrder(s)[i]]) != AlphaRank(s[FirstSymbolOrder(s)[i - 1]])
  {
    var p := FirstSymbolOrder(s);
    RankMonotone(s[p[i]], s[p[i - 1]]);
  }

  /** Counts how many offsets carry each symbol rank (lines 75-81). */
  method CountSymbols(s: string) returns (bin: seq<int>)
    requires IsValidString(s)
    ensures |bin| == NumBins
    ensures forall r :: 0 <= r < NumBins ==> bin[r] == |OffsetsOfRank(s, r, |s|)|
  {
    bin := seq(NumBins, _ => 0);
    var i := 0;
    while i < |s|
      invariant 0 <= i <= |s| && |bin| == NumBins
      invariant forall r :: 0 <= r < NumBins ==> bin[r] == |OffsetsOfRank(s, r, i)|
    {
      var q := AlphaRank(s[i]);
      assert IsSymbol(s[i]);
      bin := bin[q := bin[q] + 1];
      i := i + 1;
    }
  }

  /** Exclusive prefix sums of the counts: where each rank class starts (lines 84-87). */
  method ClassOffsets(s: string, bin: seq<int>) returns (offset: seq<int>)
    requires |bin| == NumBins
    requires forall r :: 0 <= r < NumBins ==> bin[r] == |OffsetsOfRank(s, r, |s|)|
    ensures |offset| == NumBins
    ensures forall r :: 0 <= r < NumBins ==> offset[r] == ClassStart(s, r)
  {
    offset := seq(NumBins, _ => 0);
    var i := 1;
    while i < NumBins
      invariant 1 <= i <= NumBins && |offset| == NumBins
      invariant forall r :: 0 <= r < i ==> offset[r] == ClassStart(s, r)
    {
      offset := offset[i := offset[i - 1] + bin[i - 1]];
      i := i + 1;
    }
  }

  /** The rank classes together fill the whole string. */
  lemma AllClassesFill(s: string)
    requires IsValidString(s)
    ensures ClassStart(s, NumBins) == |s|
  {
    var order := FirstSymbolOrder(s);
  }

  /** Rank class r lies inside the string, and its part filled from offsets below i stays
      inside it. */
  lemma {:induction false} ClassInside(s: string, i: nat, r: nat)
    requires IsValidString(s) && i <= |s| && r < NumBins
    ensures ClassStart(s, r) + |OffsetsOfRank(s, r, i)| <= ClassEnd(s, r) <= |s|
  {
    AllClassesFill(s);
    OffsetsMonotone(s, r, i, |s|);
    ClassEndIsNextStart(s, r);
    ClassStartsMonotone(s, r + 1, NumBins);
  }

  /** A rank class ends before any class of higher rank starts. */
  lemma {:induction false} ClassBefore(s: string, r: nat, q: nat)
    requires r < q
    ensures ClassEnd(s, r) <= ClassStart(s, q)
  {
    ClassEndIsNextStart(s, r);
    ClassStartsMonotone(s, r + 1, q);
  }

  /** Offset i joins the class of its own rank and no other. */
  lemma CountStep(s: string, i: nat, r: int)
    requires i < |s|
    ensures OffsetsOfRank(s, r, i + 1) == OffsetsOfRank(s, r, i) + (if AlphaRank(s[i]) == r then [i] else [])
    ensures |OffsetsOfRank(s, r, i + 1)| == |OffsetsOfRank(s, r, i)| + (if AlphaRank(s[i]) == r then 1 else 0)
  {
  }

  /** A filled slot of any class is not the next free slot of offset i's class. */
  lemma SlotsApart(s: string, i: nat, q: int, r: int, k: int)
    requires IsValidString(s) && i < |s| && q == AlphaRank(s[i]) && 0 <= q < NumBins
    requires 0 <= r < NumBins && 0 <= k < |OffsetsOfRank(s, r, i)|
    ensures Slot(s, r, k) != Slot(s, q, |OffsetsOfRank(s, q, i)|)
  {
    if r != q {
      ClassInside(s, i, r);
      ClassInside(s, i + 1, q);
      CountStep(s, i, q);
      if r < q {
        ClassBefore(s, r, q);
      } else {
        ClassBefore(s, q, r);
      }
    }
  }

  /** What ClassesPlaced says about one member. */
  lemma PlacedAt(s: string, pos: seq<int>, i: nat, r: int, k: int)
    requires i <= |s| && ClassesPlaced(s, pos, NumBins, i)
    requires 0 <= r < NumBins && 0 <= k < |OffsetsOfRank(s, r, i)|
    ensures 0 <= Slot(s, r, k) < |pos| && pos[Slot(s, r, k)] == OffsetsOfRank(s, r, i)[k]
  {
  }

  /** After offset i goes to slot x, the k-th member below i+1 of class r sits in its slot:
      x itself when that member is i, and otherwise an untouched slot of the old layout. */
  lemma PlacedEntry(s: string, before: seq<int>, i: nat, q: int, x: int, r: int, k: int)
    requires IsValidString(s) && i < |s| && |before| == |s|
    requires ClassesPlaced(s, before, NumBins, i)
    requires q == AlphaRank(s[i]) && 0 <= q < NumBins
    requires x == Slot(s, q, |OffsetsOfRank(s, q, i)|) && 0 <= x < |s|
    requires 0 <= r < NumBins && 0 <= k < |OffsetsOfRank(s, r, i + 1)|
    ensures 0 <= Slot(s, r, k) < |s| && before[x := i][Slot(s, r, k)] == OffsetsOfRank(s, r, i + 1)[k]
  {
    var prev := OffsetsOfRank(s, r, i);
    CountStep(s, i, r);
    if k < |prev| {
      SlotsApart(s, i, q, r, k);
      assert OffsetsOfRank(s, r, i + 1)[k] == prev[k];
      PlacedAt(s, before, i, r, k);
    } else {
      assert r == q && Slot(s, r, k) == x;
    }
  }

  /** Writing offset i at the next free slot of its class keeps every class in place. */
  lemma PlaceStep(s: string, before: seq<int>, i: nat, q: int, x: int)
    requires IsValidString(s) && i < |s| && |before| == |s|
    requires ClassesPlaced(s, before, NumBins, i)
    requires q == AlphaRank(s[i]) && 0 <= q < NumBins
    requires x == Slot(s, q, |OffsetsOfRank(s, q, i)|)
    ensures 0 <= x < |s|
    ensures ClassesPlaced(s, before[x := i], NumBins, i + 1)
  {
    SlotInside(s, i, q, x);
    forall r, k | 0 <= r < NumBins && 0 <= k < |OffsetsOfRank(s, r, i + 1)|
      ensures 0 <= Slot(s, r, k) < |s| && before[x := i][Slot(s, r, k)] == OffsetsOfRank(s, r, i + 1)[k]
    {
      PlacedEntry(s, before, i, q, x, r, k);
    }
  }

  /** Bumping the slot of offset i's class keeps every class's next free slot. */
  lemma OffsetAdvance(s: string, i: nat, q: int, offset: seq<int>, offset': seq<int>)
    requires i < |s| && |offset| == NumBins && q == AlphaRank(s[i]) && 0 <= q < NumBins
    requires forall r :: 0 <= r < NumBins ==> offset[r] == Slot(s, r, |OffsetsOfRank(s, r, i)|)
    requires offset' == offset[q := offset[q] + 1]
    ensures forall r :: 0 <= r < NumBins ==> offset'[r] == Slot(s, r, |OffsetsOfRank(s, r, i + 1)|)
  {
    forall r | 0 <= r < NumBins
      ensures offset'[r] == Slot(s, r, |OffsetsOfRank(s, r, i + 1)|)
    {
      CountStep(s, i, r);
    }
  }

  /** The state of the placing loop after offsets 0 .. i-1: every class's next free slot
      follows its members below i, and those members sit in their slots. */
  predicate Placing(s: string, pos: seq<int>, offset: seq<int>, i: nat) {
    && i <= |s| && |pos| == |s| && |offset| == NumBins
    && (forall r :: 0 <= r < NumBins ==> offset[r] == Slot(s, r, |OffsetsOfRank(s, r, i)|))
    && ClassesPlaced(s, pos, NumBins, i)
  }

  /** The next free slot of offset i's class lies inside the string. */
  lemma SlotInside(s: string, i: nat, q: int, x: int)
    requires IsValidString(s) && i < |s| && q == AlphaRank(s[i]) && 0 <= q < NumBins
    requires x == Slot(s, q, |OffsetsOfRank(s, q, i)|)
    ensures 0 <= x < |s|
  {
    ClassInside(s, i, q);
    OffsetsMonotone(s, q, i, |s|);
  }

  /** One step of the placing loop: offset i goes to its class's next free slot. */
  lemma PlacingStep(s: string, pos: seq<int>, offset: seq<int>, i: nat, q: int, x: int,
                    pos': seq<int>, offset': seq<int>)
    requires IsValidString(s) && Placing(s, pos, offset, i) && i < |s|
    requires q == AlphaRank(s[i]) && 0 <= q < NumBins && x == offset[q] && 0 <= x < |s|
    requires pos' == pos[x := i] && offset' == offset[q := x + 1]
    ensures Placing(s, pos', offset', i + 1)
  {
    PlaceStep(s, pos, i, q, x);
    OffsetAdvance(s, i, q, offset, offset');
  }

  /** Drops every offset into the next free slot of its rank class (lines 90-91). */
  method PlaceOffsets(s: string, offset0: seq<int>) returns (pos: seq<int>)
    requires IsValidString(s)
    requires |offset0| == NumBins
    requires forall r :: 0 <= r < NumBins ==> offset0[r] == ClassStart(s, r)
    ensures pos == FirstSymbolOrder(s)
  {
    var n := |s|;
    var offset := offset0;
    pos := seq(n, _ => 0);
    var i := 0;
    while i < n
      invariant Placing(s, pos, offset, i)
    {
      var q := AlphaRank(s[i]);
      assert IsSymbol(s[i]);
      var x := offset[q];
      SlotInside(s, i, q, x);
      var pos' := pos[x := i];
      var offset' := offset[q := x + 1];
      PlacingStep(s, pos, offset, i, q, x, pos', offset');
      pos, offset, i := pos', offset', i + 1;
    }
    AllClassesFill(s);
    FilledIsClasses(s, pos, NumBins);
  }

  /** The rank array: `prm[pos[i]] = i` for every i (lines 94-95). */
  method InvertOrder(pos: seq<int>) returns (prm: seq<int>)
    requires IsPermutation(pos, |pos|)
    ensures IsInverse(prm, pos)
  {
    var n := |pos|;
    prm := seq(n, _ => 0);
    var i := 0;
    while i < n
      invariant 0 <= i <= n && |prm| == n
      invariant forall k :: 0 <= k < i ==> prm[pos[k]] == k
    {
      prm := prm[pos[i] := i];
      i := i + 1;
    }
  }

  /** The first bucket heads: position 0, and every position whose symbol differs
      from its predecessor's (lines 98-100). */
  method FirstBucketHeads(s: string, pos: seq<int>) returns (bh: seq<int>)
    requires 1 <= |s| && IsValidString(s)
    requires pos == FirstSymbolOrder(s)
    ensures bh == FirstHeads(s)
    ensures bh[0] == 1
    ensures forall i :: 1 <= i < |s| ==> (bh[i] == 1 <==> s[pos[i]] != s[pos[i - 1]])
  {
    var n := |s|;
    bh := seq(n, _ => 0);
    bh := bh[0 := 1];
    var i := 1;
    while i < n
      invariant 1 <= i <= n && |bh| == n && bh[0] == 1
      invariant forall k :: 1 <= k < i ==> bh[k] == if s[pos[k]] != s[pos[k - 1]] then 1 else 0
    {
      bh := bh[i := if s[pos[i]] != s[pos[i - 1]] then 1 else 0];
      i := i + 1;
    }
  }

  /** First stage of suffix_sorting_1 (lines 74-100): counting sort by first symbol
      (pos), its inverse (prm) and the first bucket heads (bh). */
  method BuildFirstStage(s: string) returns (pos: seq<int>, prm: seq<int>, bh: seq<int>)
    requires 1 <= |s| && IsValidString(s)
    ensures pos == FirstSymbolOrder(s)
    ensures IsPermutation(pos, |s|)
    ensures forall i, j :: 0 <= i < j < |s| ==> FirstSymbolBefore(s, pos[i], pos[j])
    ensures IsInverse(prm, pos)
    ensures bh == FirstHeads(s)
    ensures bh[0] == 1
    ensures forall i :: 1 <= i < |s| ==> (bh[i] == 1 <==> s[pos[i]] != s[pos[i - 1]])
  {
    var bin := CountSymbols(s);
    var offset := ClassOffsets(s, bin);
    pos := PlaceOffsets(s, offset);
    prm := InvertOrder(pos);
    bh := FirstBucketHeads(s, pos);
  }
}
