/** The doubling rounds of suffix_sorting_1 (lines 104-241) and the whole constructor. */
module Doubling {
  import opened Options
  import opened Alphabet
  import opened Counting
  import opened FirstStage
  import opened Buckets
  import opened ScanState
  import opened Refine
  import opened ScanMarks

  /** The three arrays carried from one round to the next. */
  datatype Stage = Stage(pos: seq<int>, prm: seq<int>, bh: seq<int>)

  /** One completed round: the ranks after the reset, the scan made from them and the
      stage handed on. */
  datatype Round = Round(reset: seq<int>, scan: Scan, next: Stage)

  /** The arrays every round may rely on: all of length len, pos and prm hold offsets and
      ranks below len, bh holds bits and position 0 is a head. */
  predicate WellShaped(st: Stage, n: int) {
    && |st.pos| == n && |st.prm| == n && |st.bh| == n && n >= 1
    && (forall x :: 0 <= x < n ==> 0 <= st.pos[x] < n)
    && (forall t :: 0 <= t < n ==> 0 <= st.prm[t] < n)
    && Bits(st.bh) && st.bh[0] == 1
  }

  /** pos lists every offset once and prm is its inverse: what a sorting stage ought to hold. */
  predicate Consistent(st: Stage) {
    IsPermutation(st.pos, |st.pos|) && IsInverse(st.prm, st.pos)
  }

  /** The ranks after the reset: every rank moved back to the start of its bucket. */
  function ResetRanks(prm: seq<int>, bh: seq<int>): (reset: seq<int>)
    requires forall t :: 0 <= t < |prm| ==> 0 <= prm[t] < |bh|
    ensures |reset| == |prm|
    ensures forall t :: 0 <= t < |prm| ==> reset[t] == BucketStart(bh, prm[t])
  {
    seq(|prm|, t requires 0 <= t < |prm| => BucketStart(bh, prm[t]))
  }

  /** Lines 229-230: pos[prm[i]] = i for i in order. An entry v that some prm[i] names ends
      up holding the last such i; any other entry keeps its old value. When prm lists every
      offset once, the new pos is a permutation and the two arrays are inverse. */
  method UpdatePos(pos: seq<int>, prm: seq<int>) returns (pos': seq<int>)
    requires |prm| == |pos|
    requires forall i :: 0 <= i < |prm| ==> 0 <= prm[i] < |pos|
    ensures |pos'| == |pos|
    ensures forall v :: 0 <= v < |pos| && v !in prm ==> pos'[v] == pos[v]
    ensures forall v :: 0 <= v < |pos| && v in prm ==>
      && 0 <= pos'[v] < |prm| && prm[pos'[v]] == v
      && (forall i :: pos'[v] < i < |prm| ==> prm[i] != v)
    ensures (forall x :: 0 <= x < |pos| ==> 0 <= pos[x] < |pos|) ==>
      forall x :: 0 <= x < |pos| ==> 0 <= pos'[x] < |pos|
    ensures Distinct(prm) ==> IsInverse(pos', prm)
    ensures IsPermutation(prm, |pos|) ==> IsPermutation(pos', |pos|) && IsInverse(prm, pos')
  {
    pos' := pos;
    var i := 0;
    while i < |prm|
      invariant 0 <= i <= |prm| && |pos'| == |pos|
      invariant forall v :: 0 <= v < |pos| && v !in prm[..i] ==> pos'[v] == pos[v]
      invariant forall v :: 0 <= v < |pos| && v in prm[..i] ==>
        && 0 <= pos'[v] < i && prm[pos'[v]] == v
        && (forall j :: pos'[v] < j < i ==> prm[j] != v)
    {
      assert prm[..i + 1] == prm[..i] + [prm[i]];
      pos' := pos'[prm[i] := i];
      i := i + 1;
    }
    assert prm[..|prm|] == prm;
    if Distinct(prm) {
      forall i | 0 <= i < |prm|
        ensures pos'[prm[i]] == i
      {
        assert prm[i] in prm;
      }
    }
    if IsPermutation(prm, |pos|) {
      InverseOfPermutation(pos', prm);
    }
  }

  /** In a consistent stage the reset sends every rank to the start of its bucket, which is
      the state the bucket scan is specified from. */
  lemma ConsistentReset(st: Stage, reset: seq<int>)
    requires WellShaped(st, |st.pos|) && Consistent(st)
    requires |reset| == |st.prm|
    requires (forall p :: 0 <= p < |st.bh| ==> p in st.prm) ==>
      forall t :: 0 <= t < |st.prm| ==> reset[t] == BucketStart(st.bh, st.prm[t])
    ensures reset == ResetRanks(st.prm, st.bh)
    ensures ResetState(st.pos, reset, st.bh)
  {
    var n := |st.pos|;
    InverseOfPermutation(st.prm, st.pos);
    forall p | 0 <= p < n
      ensures p in st.prm
    {
      assert st.prm[st.pos[p]] == p;
    }
    assert reset == ResetRanks(st.prm, st.bh);
    forall x | 0 <= x < n
      ensures reset[st.pos[x]] == BucketStart(st.bh, x)
    {
    }
  }

  /** What a completed round provides whatever its input: the reset ranks lie between the
      start of each old rank's bucket and the old rank, the scan has the shape ScanShape
      describes, the next stage is well shaped, takes its ranks from the scan and its heads
      from the scan's marks with position 0 forced to a head. Its pos sends every rank v some
      offset took to the last such offset and keeps the old entry at every other v, so it
      is the inverse of the ranks whenever those list every offset once. */
  predicate RoundShape(st: Stage, H: int, round: Round)
    requires WellShaped(st, |st.pos|)
  {
    var n := |st.pos|;
    && |round.reset| == n
    && (forall t :: 0 <= t < n ==> BucketStart(st.bh, st.prm[t]) <= round.reset[t] <= st.prm[t])
    && ScanShape(st.pos, round.reset, H, round.scan)
    && WellShaped(round.next, n)
    && round.next.prm == round.scan.prm
    && (forall i :: 1 <= i < n ==> round.next.bh[i] == round.scan.b2h[i])
    && (forall v :: 0 <= v < n && v !in round.scan.prm ==> round.next.pos[v] == st.pos[v])
    && (forall v :: 0 <= v < n && v in round.scan.prm ==>
          && round.scan.prm[round.next.pos[v]] == v
          && (forall t :: round.next.pos[v] < t < n ==> round.scan.prm[t] != v))
    && (IsPermutation(round.next.prm, n) ==> Consistent(round.next) && IsInverse(round.next.pos, round.next.prm))
  }

  /** Lines 122-241 after the early-exit test: bin offsets, reset to bucket starts, the
      bucket scan, the new pos and the copy of b2h into bh. Whenever the round completes it
      has the shape RoundShape describes; from a consistent stage it always completes, the
      reset ranks are the bucket starts of the old ranks, the scan moves the offsets as
      ScanOrder describes and marks the heads of the refined buckets as LeadMarks describes. */
  method RefineRound(st: Stage, H: int, numBin: int) returns (res: Option<Round>)
    requires 1 <= |st.pos| <= IntMax && WellShaped(st, |st.pos|) && H >= 1
    requires numBin == |HeadPositions(st.bh)|
    ensures res.Some? ==> RoundShape(st, H, res.value)
    ensures Consistent(st) ==>
      && res.Some?
      && res.value.reset == ResetRanks(st.prm, st.bh)
      && ScanOrder(st.pos, res.value.reset, st.bh, H, res.value.scan)
      && LeadMarks(st.pos, st.bh, H, res.value.reset, res.value.scan)
  {
    var binOffset := BinOffsets(st.bh, numBin);
    var reset := ResetToBucketStarts(st.prm, st.bh, binOffset);
    if Consistent(st) {
      ConsistentReset(st, reset);
    }
    var scan := ScanBuckets(st.pos, reset, st.bh, H);
    if scan.None? {
      return None;
    }
    var round := FinishRound(st, H, reset, scan.value);
    res := Some(round);
  }

  /** Lines 229-235: the new pos from the scanned ranks, and the scan's marks copied into
      bh with position 0 forced to a head. */
  method FinishRound(st: Stage, H: int, reset: seq<int>, sc: Scan) returns (round: Round)
    requires WellShaped(st, |st.pos|) && ScanShape(st.pos, reset, H, sc)
    requires forall t :: 0 <= t < |st.pos| ==> BucketStart(st.bh, st.prm[t]) <= reset[t] <= st.prm[t]
    ensures round.reset == reset && round.scan == sc
    ensures RoundShape(st, H, round)
  {
    var pos' := UpdatePos(st.pos, sc.prm);
    var bh' := sc.b2h[0 := 1];
    round := Round(reset, sc, Stage(pos', sc.prm, bh'));
  }

  /** The stage one round leaves, or None where the round has undefined behaviour. */
  method NextStage(st: Stage, H: int, numBin: int) returns (next: Option<Stage>)
    requires 1 <= |st.pos| <= IntMax && WellShaped(st, |st.pos|) && H >= 1
    requires numBin == |HeadPositions(st.bh)|
    ensures next.Some? ==> WellShaped(next.value, |st.pos|)
    ensures Consistent(st) ==> next.Some?
  {
    var round := RefineRound(st, H, numBin);
    next := if round.Some? then Some(round.value.next) else None;
  }

  /** 2 to the power k. */
  function Pow2(k: nat): (p: nat)
    ensures p >= 1
  {
    if k == 0 then 1 else 2 * Pow2(k - 1)
  }

  lemma {:induction false} Pow2Monotone(j: nat, k: nat)
    requires j <= k
    ensures Pow2(j) <= Pow2(k)
    decreases k
  {
    if j < k {
      Pow2Monotone(j, k - 1);
    }
  }

  /** The ceiling of log2 n: the least k with n <= 2^k. */
  function CeilLog2(n: nat): (k: nat)
    requires n >= 1
    ensures n <= Pow2(k)
    ensures k == 0 || Pow2(k - 1) < n
  {
    if n == 1 then 0 else 1 + CeilLog2((n + 1) / 2)
  }

  /** CeilLog2 n is indeed the least exponent whose power reaches n. */
  lemma {:induction false} CeilLog2Least(n: nat, k: nat)
    requires n >= 1 && n <= Pow2(k)
    ensures CeilLog2(n) <= k
  {
    var c := CeilLog2(n);
    if c > k {
      Pow2Monotone(k, c - 1);
    }
  }

  /** If every completed round ran with H = 2^(rounds-1) < n, there were at most
      CeilLog2 n of them. */
  lemma {:induction false} RoundsBound(n: nat, rounds: nat)
    requires n >= 1
    requires rounds == 0 || Pow2(rounds - 1) < n
    ensures rounds <= CeilLog2(n)
  {
    var c := CeilLog2(n);
    if rounds > c {
      Pow2Monotone(c, rounds - 1);
    }
  }

  /** suffix_sorting_1 (lines 62-253): the first stage, then rounds with H = 1, 2, 4, ...
      while H < len, leaving early once no more than H positions are non-heads. The result
      is None where the C code has undefined behaviour: a slot write past the end of b2h, or
      H <<= 1 overflowing a 32-bit int. rounds counts the completed rounds. The loop ends
      after at most CeilLog2 len rounds, and the result, when there is one, lists len values
      below len; bh[0] == 1 holds after every round. When the first stage leaves at most one
      non-head, the first test already exits and the result is the first-stage order. */
  method SuffixSorting1(s: string) returns (sa: Option<seq<int>>, rounds: nat)
    requires 1 <= |s| <= IntMax && IsValidString(s)
    ensures rounds <= CeilLog2(|s|)
    ensures sa.Some? ==> |sa.value| == |s| && forall i :: 0 <= i < |s| ==> 0 <= sa.value[i] < |s|
    ensures |s| - |HeadPositions(FirstHeads(s))| <= 1 ==> sa == Some(FirstSymbolOrder(s)) && rounds == 0
  {
    var n := |s|;
    var pos, prm, bh := BuildFirstStage(s);
    InverseOfPermutation(prm, pos);
    var st := Stage(pos, prm, bh);
    var H := 1;
    rounds := 0;
    while H < n
      invariant WellShaped(st, n)
      invariant H == Pow2(rounds) && H <= IntMax
      invariant rounds == 0 || Pow2(rounds - 1) < n
      invariant rounds == 0 ==> st.pos == FirstSymbolOrder(s) && st.bh == FirstHeads(s)
      invariant n - |HeadPositions(FirstHeads(s))| <= 1 ==> rounds == 0
      decreases n - H
    {
      var numBin, numZero := CountHeads(st.bh);
      if numZero <= H {
        break;
      }
      var next := NextStage(st, H, numBin);
      if next.None? {
        RoundsBound(n, rounds);
        return None, rounds;
      }
      st := next.value;
      rounds := rounds + 1;
      if H > IntMax / 2 {
        RoundsBound(n, rounds);
        return None, rounds;
      }
      H := 2 * H;
    }
    RoundsBound(n, rounds);
    sa := Some(st.pos);
  }
}
