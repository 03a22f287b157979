/** Buckets of the doubling constructor: the runs of positions that start at a
    head flag, and the reset of the rank array to bucket starts (lines 109-163). */
module Buckets {
  import opened Counting

  /** The largest C int, which the left-most search uses as "no position seen". */
  const IntMax: int := 2147483647

  /** Strictly increasing values. */
  predicate Increasing(a: seq<int>) {
    forall i, j :: 0 <= i < j < |a| ==> a[i] < a[j]
  }

  /** Positions below k flagged as bucket heads, in increasing order. */
  function HeadsBelow(bh: seq<int>, k: nat): seq<int>
    requires k <= |bh|
  {
    if k == 0 then [] else HeadsBelow(bh, k - 1) + (if bh[k - 1] == 1 then [k - 1] else [])
  }

  /** All bucket-head positions, in increasing order. */
  function HeadPositions(bh: seq<int>): seq<int> {
    HeadsBelow(bh, |bh|)
  }

  /** HeadsBelow lists exactly the flagged positions below k, in increasing order. */
  lemma {:induction false} HeadsBelowSorted(bh: seq<int>, k: nat)
    requires k <= |bh|
    ensures forall p :: p in HeadsBelow(bh, k) <==> 0 <= p < k && bh[p] == 1
    ensures forall i :: 0 <= i < |HeadsBelow(bh, k)| ==>
      0 <= HeadsBelow(bh, k)[i] < k && bh[HeadsBelow(bh, k)[i]] == 1
    ensures Increasing(HeadsBelow(bh, k))
  {
    if k > 0 {
      HeadsBelowSorted(bh, k - 1);
    }
  }

  /** The heads below i are the first heads below k. */
  lemma {:induction false} HeadsBelowPrefix(bh: seq<int>, i: nat, k: nat)
    requires i <= k <= |bh|
    ensures |HeadsBelow(bh, i)| <= |HeadsBelow(bh, k)|
    ensures HeadsBelow(bh, k)[..|HeadsBelow(bh, i)|] == HeadsBelow(bh, i)
    decreases k - i
  {
    if i < k {
      HeadsBelowPrefix(bh, i, k - 1);
      var pre := HeadsBelow(bh, k - 1);
      var tail := if bh[k - 1] == 1 then [k - 1] else [];
      assert HeadsBelow(bh, k) == pre + tail;
      assert (pre + tail)[..|HeadsBelow(bh, i)|] == pre[..|HeadsBelow(bh, i)|];
    }
  }

  /** The head of the bucket holding position p: the last head at or before p
      (position 0 always starts a bucket). */
  function BucketStart(bh: seq<int>, p: int): (q: int)
    requires 0 <= p < |bh|
    ensures 0 <= q <= p
    ensures q == 0 || bh[q] == 1
    ensures forall k :: q < k <= p ==> bh[k] != 1
  {
    if p == 0 || bh[p] == 1 then p else BucketStart(bh, p - 1)
  }

  /** The last position of the bucket holding p: just before the next head, or the end. */
  function BucketEnd(bh: seq<int>, p: int): (q: int)
    requires 0 <= p < |bh|
    ensures p <= q < |bh|
    ensures q + 1 == |bh| || bh[q + 1] == 1
    ensures forall k :: p < k <= q ==> bh[k] != 1
    decreases |bh| - p
  {
    if p + 1 == |bh| || bh[p + 1] == 1 then p else BucketEnd(bh, p + 1)
  }

  /** Every position of a bucket has the same start and the same end. */
  lemma BucketRange(bh: seq<int>, p: int, x: int)
    requires 0 <= p < |bh|
    requires BucketStart(bh, p) <= x <= BucketEnd(bh, p)
    ensures BucketStart(bh, x) == BucketStart(bh, p)
    ensures BucketEnd(bh, x) == BucketEnd(bh, p)
  {
  }

  /** A bucket reaches at least as far as any position with no head after p up to it. */
  lemma {:induction false} EndReaches(bh: seq<int>, p: int, y: int)
    requires 0 <= p <= y < |bh|
    requires forall k :: p < k <= y ==> bh[k] != 1
    ensures y <= BucketEnd(bh, p)
    decreases y - p
  {
    if p < y {
      EndReaches(bh, p + 1, y);
    }
  }

  /** A position lies between the head of its bucket and that bucket's end. */
  lemma WithinOwnBucket(bh: seq<int>, y: int)
    requires 0 <= y < |bh|
    ensures BucketStart(bh, y) <= y <= BucketEnd(bh, BucketStart(bh, y))
  {
    EndReaches(bh, BucketStart(bh, y), y);
  }

  /** Every position between a bucket head and the bucket's end belongs to that bucket. */
  lemma SameBucket(bh: seq<int>, y: int, v: int)
    requires 0 <= y < |bh|
    requires BucketStart(bh, y) <= v <= BucketEnd(bh, BucketStart(bh, y))
    ensures BucketStart(bh, v) == BucketStart(bh, y)
  {
    var q := BucketStart(bh, y);
    assert BucketStart(bh, q) == q;
    BucketRange(bh, q, v);
  }

  /** Lines 110-117: the number of heads and of other positions. */
  method CountHeads(bh: seq<int>) returns (numBin: int, numZero: int)
    ensures numBin == |HeadPositions(bh)|
    ensures numZero == |bh| - |HeadPositions(bh)|
  {
    numBin, numZero := 0, 0;
    var i := 0;
    while i < |bh|
      invariant 0 <= i <= |bh|
      invariant numBin == |HeadsBelow(bh, i)| && numZero == i - numBin
    {
      if bh[i] == 1 {
        numBin := numBin + 1;
      } else {
        numZero := numZero + 1;
      }
      i := i + 1;
    }
  }

  /** The first position after the k-th bucket: the next head, or len for the last bucket. */
  function BinLimit(bh: seq<int>, k: int): int
    requires 0 <= k < |HeadPositions(bh)|
  {
    if k + 1 < |HeadPositions(bh)| then HeadPositions(bh)[k + 1] else |bh|
  }

  /** Scanning one more position adds one head exactly when that position is a head, and
      then the new head is the next one in head order. */
  lemma HeadsStep(bh: seq<int>, i: int)
    requires 0 <= i < |bh|
    ensures |HeadsBelow(bh, i + 1)| <= |HeadPositions(bh)|
    ensures bh[i] == 1 ==> |HeadsBelow(bh, i + 1)| == |HeadsBelow(bh, i)| + 1
    ensures bh[i] == 1 ==> HeadPositions(bh)[|HeadsBelow(bh, i)|] == i
    ensures bh[i] != 1 ==> |HeadsBelow(bh, i + 1)| == |HeadsBelow(bh, i)|
  {
    HeadsBelowPrefix(bh, i + 1, |bh|);
    if bh[i] == 1 {
      var m := |HeadsBelow(bh, i)|;
      assert HeadsBelow(bh, i + 1)[m] == i;
    }
  }

  /** After scanning positions below i with j + 1 heads seen, binSize holds the sizes of
      the first j buckets, the part of bucket j seen so far, and zeros after it. */
  predicate SizesSoFar(bh: seq<int>, binSize: seq<int>, i: int, j: int) {
    var hs := HeadPositions(bh);
    && 1 <= i <= |bh| && |binSize| == |hs|
    && 0 <= j < |hs| && j + 1 == |HeadsBelow(bh, i)|
    && (forall k :: 0 <= k < j ==> binSize[k] == hs[k + 1] - hs[k])
    && binSize[j] == i - hs[j]
    && (forall k :: j < k < |hs| ==> binSize[k] == 0)
  }

  /** One iteration of the size loop keeps SizesSoFar. */
  lemma SizesStep(bh: seq<int>, binSize: seq<int>, i: int, j: int, binSize': seq<int>, j': int)
    requires SizesSoFar(bh, binSize, i, j) && i < |bh|
    requires j' == (if bh[i] == 1 then j + 1 else j)
    requires 0 <= j' < |binSize| && binSize' == binSize[j' := binSize[j'] + 1]
    ensures SizesSoFar(bh, binSize', i + 1, j')
  {
    HeadsStep(bh, i);
  }

  /** Lines 123-132: the size of every bucket, in head order. */
  method BinSizes(bh: seq<int>, numBin: int) returns (binSize: seq<int>)
    requires |bh| >= 1 && bh[0] == 1
    requires numBin == |HeadPositions(bh)|
    ensures |binSize| == numBin
    ensures forall k :: 0 <= k < numBin ==> binSize[k] == BinLimit(bh, k) - HeadPositions(bh)[k]
  {
    var n := |bh|;
    HeadsStep(bh, 0);
    assert HeadsBelow(bh, 0) == [];
    binSize := seq(numBin, _ => 0);
    binSize := binSize[0 := 1];
    var i, j := 1, 0;
    while i < n
      invariant SizesSoFar(bh, binSize, i, j)
    {
      HeadsStep(bh, i);
      var j' := if bh[i] == 1 then j + 1 else j;
      var binSize' := binSize[j' := binSize[j'] + 1];
      SizesStep(bh, binSize, i, j, binSize', j');
      i, j, binSize := i + 1, j', binSize';
    }
  }

  /** Lines 123-139: bucket sizes and their exclusive prefix sums, which are the
      head positions. */
  method BinOffsets(bh: seq<int>, numBin: int) returns (binOffset: seq<int>)
    requires |bh| >= 1 && bh[0] == 1
    requires numBin == |HeadPositions(bh)|
    ensures binOffset == HeadPositions(bh)
  {
    ghost var hs := HeadPositions(bh);
    HeadsStep(bh, 0);
    assert HeadsBelow(bh, 0) == [];
    var binSize := BinSizes(bh, numBin);
    binOffset := seq(numBin, _ => 0);
    var i := 1;
    while i < numBin
      invariant 1 <= i <= numBin && |binOffset| == numBin
      invariant forall k :: 0 <= k < i ==> binOffset[k] == hs[k]
    {
      assert binSize[i - 1] == hs[i] - hs[i - 1];
      binOffset := binOffset[i := binOffset[i - 1] + binSize[i - 1]];
      i := i + 1;
    }
  }

  /** Position p lies in bin j: at or after its offset and before the next one. */
  predicate InBin(binOffset: seq<int>, j: int, p: int) {
    0 <= j < |binOffset| && binOffset[j] <= p && (j + 1 == |binOffset| || p < binOffset[j + 1])
  }

  /** With increasing offsets, a position lies in at most one bin. */
  lemma InBinUnique(binOffset: seq<int>, j: int, j': int, p: int)
    requires Increasing(binOffset)
    requires InBin(binOffset, j, p) && InBin(binOffset, j', p)
    ensures j == j'
  {
  }

  /** For the head list, the bin of p starts at the head of p's bucket. */
  lemma InBinIsBucket(bh: seq<int>, j: int, p: int)
    requires |bh| >= 1 && bh[0] == 1 && 0 <= p < |bh|
    requires InBin(HeadPositions(bh), j, p)
    ensures HeadPositions(bh)[j] == BucketStart(bh, p)
  {
    var hs := HeadPositions(bh);
    HeadsBelowSorted(bh, |bh|);
    var q := BucketStart(bh, p);
    assert q in hs;
    var m :| 0 <= m < |hs| && hs[m] == q;
  }

  /** Lines 147-150: the linear scan for the bin of p, bounded by the number of bins. */
  method FindBin(binOffset: seq<int>, p: int) returns (j: int)
    requires |binOffset| >= 1 && binOffset[0] <= p
    ensures InBin(binOffset, j, p)
  {
    j := 0;
    while j < |binOffset| && p >= binOffset[j]
      invariant 0 <= j <= |binOffset|
      invariant j > 0 ==> binOffset[j - 1] <= p
    {
      j := j + 1;
    }
    j := j - 1;
  }

  /** Lines 142-153: for every bin, the least rank that falls in it, or IntMax when
      none does. */
  method LeftMost(prm: seq<int>, binOffset: seq<int>) returns (leftMost: seq<int>)
    requires |binOffset| >= 1 && binOffset[0] == 0 && Increasing(binOffset)
    requires forall t :: 0 <= t < |prm| ==> 0 <= prm[t]
    ensures |leftMost| == |binOffset|
    ensures forall j, t :: 0 <= t < |prm| && InBin(binOffset, j, prm[t]) ==> leftMost[j] <= prm[t]
    ensures forall j :: 0 <= j < |leftMost| ==>
      leftMost[j] == IntMax || exists t :: 0 <= t < |prm| && InBin(binOffset, j, prm[t]) && leftMost[j] == prm[t]
    ensures forall j :: 0 <= j < |leftMost| && (forall t :: 0 <= t < |prm| ==> !InBin(binOffset, j, prm[t])) ==>
      leftMost[j] == IntMax
  {
    leftMost := seq(|binOffset|, _ => IntMax);
    var i := 0;
    while i < |prm|
      invariant 0 <= i <= |prm| && |leftMost| == |binOffset|
      invariant forall j, t :: 0 <= t < i && InBin(binOffset, j, prm[t]) ==> leftMost[j] <= prm[t]
      invariant forall j :: 0 <= j < |leftMost| ==>
        leftMost[j] == IntMax || exists t :: 0 <= t < i && InBin(binOffset, j, prm[t]) && leftMost[j] == prm[t]
      invariant forall j :: 0 <= j < |leftMost| && (forall t :: 0 <= t < i ==> !InBin(binOffset, j, prm[t])) ==>
        leftMost[j] == IntMax
    {
      var j := FindBin(binOffset, prm[i]);
      forall j' | InBin(binOffset, j', prm[i])
        ensures j' == j
      {
        InBinUnique(binOffset, j, j', prm[i]);
      }
      if prm[i] < leftMost[j] {
        leftMost := leftMost[j := prm[i]];
      }
      i := i + 1;
    }
  }

  /** Lines 141-163: every rank is moved back to the start of its bin. The new rank
      stays in the bucket of the old one, and when the ranks are a permutation it is
      exactly the head of that bucket. */
  method ResetToBucketStarts(prm: seq<int>, bh: seq<int>, binOffset: seq<int>) returns (reset: seq<int>)
    requires 1 <= |bh| <= IntMax && bh[0] == 1
    requires binOffset == HeadPositions(bh)
    requires |prm| == |bh| && forall t :: 0 <= t < |prm| ==> 0 <= prm[t] < |bh|
    ensures |reset| == |prm|
    ensures forall t :: 0 <= t < |prm| ==> BucketStart(bh, prm[t]) <= reset[t] <= prm[t]
    ensures (forall p :: 0 <= p < |bh| ==> p in prm) ==>
      forall t :: 0 <= t < |prm| ==> reset[t] == BucketStart(bh, prm[t])
  {
    HeadsBelowSorted(bh, |bh|);
    assert 0 in binOffset;
    assert binOffset[0] == 0;
    var leftMost := LeftMost(prm, binOffset);
    reset := prm;
    var i := 0;
    while i < |prm|
      invariant 0 <= i <= |prm| && |reset| == |prm|
      invariant forall t :: 0 <= t < i ==> BucketStart(bh, prm[t]) <= reset[t] <= prm[t]
      invariant (forall p :: 0 <= p < |bh| ==> p in prm) ==>
        forall t :: 0 <= t < i ==> reset[t] == BucketStart(bh, prm[t])
    {
      var j := FindBin(binOffset, prm[i]);
      ResetEntry(prm, bh, binOffset, leftMost, i, j);
      reset := reset[i := leftMost[j]];
      i := i + 1;
    }
  }

  /** The least rank found in the bin of prm[i] is the start of prm[i]'s bucket when every
      position is some offset's rank, and lies between that start and prm[i] in any case. */
  lemma ResetEntry(prm: seq<int>, bh: seq<int>, binOffset: seq<int>, leftMost: seq<int>, i: int, j: int)
    requires 1 <= |bh| <= IntMax && bh[0] == 1 && binOffset == HeadPositions(bh)
    requires |prm| == |bh| && forall t :: 0 <= t < |prm| ==> 0 <= prm[t] < |bh|
    requires |leftMost| == |binOffset|
    requires forall j, t :: 0 <= t < |prm| && InBin(binOffset, j, prm[t]) ==> leftMost[j] <= prm[t]
    requires forall j :: 0 <= j < |leftMost| ==>
      leftMost[j] == IntMax || exists t :: 0 <= t < |prm| && InBin(binOffset, j, prm[t]) && leftMost[j] == prm[t]
    requires 0 <= i < |prm| && InBin(binOffset, j, prm[i])
    ensures BucketStart(bh, prm[i]) <= leftMost[j] <= prm[i]
    ensures (forall p :: 0 <= p < |bh| ==> p in prm) ==> leftMost[j] == BucketStart(bh, prm[i])
  {
    InBinIsBucket(bh, j, prm[i]);
    assert leftMost[j] <= prm[i];
    var t' :| 0 <= t' < |prm| && InBin(binOffset, j, prm[t']) && leftMost[j] == prm[t'];
    if forall p :: 0 <= p < |bh| ==> p in prm {
      var p := binOffset[j];
      assert p in prm;
      var t0 :| 0 <= t0 < |prm| && prm[t0] == p;
      assert InBin(binOffset, j, prm[t0]);
    }
  }
}
