/** The bucket scan of one doubling round (lines 165-226): every offset t whose
    successor t + H is visited moves to the next slot kept for its rank (from a
    reset state: the next free slot of its own bucket), and b2h marks the slots
    that start a new bucket. */
module Refine {
  import opened Options
  import opened Counting
  import opened Buckets
  import opened ScanState
  import opened ScanMarks

  /** A position with no head up to r, followed by a head or the end, ends its bucket at r. */
  lemma {:induction false} BucketEndIs(bh: seq<int>, l: int, r: int)
    requires 0 <= l <= r < |bh|
    requires forall k :: l < k <= r ==> bh[k] != 1
    requires r + 1 == |bh| || bh[r + 1] == 1
    ensures BucketEnd(bh, l) == r
    decreases r - l
  {
    if l < r {
      BucketEndIs(bh, l + 1, r);
    }
  }

  /** Lines 178-187: the right boundary of the bucket that starts at l. */
  method BucketRight(bh: seq<int>, l: int) returns (r: int)
    requires 0 <= l < |bh|
    ensures r == BucketEnd(bh, l)
  {
    r := l + 1;
    while r < |bh|
      invariant l + 1 <= r <= |bh|
      invariant forall k :: l < k < r ==> bh[k] != 1
    {
      if bh[r] == 1 {
        r := r - 1;
        break;
      }
      r := r + 1;
    }
    if r >= |bh| {
      r := r - 1;
    }
    BucketEndIs(bh, l, r);
  }

  /** The first position at or after k that is a head, is unmarked, or is the end of the
      array: the marked non-heads from k up to it form a maximal run. */
  function RunEnd(bh: seq<int>, b2h: seq<int>, k: int): (j: int)
    requires |b2h| == |bh| && 0 <= k <= |bh|
    ensures k <= j <= |bh|
    ensures forall m :: k <= m < j ==> bh[m] == 0 && b2h[m] == 1
    ensures j == |bh| || bh[j] != 0 || b2h[j] != 1
    decreases |bh| - k
  {
    if k == |bh| || bh[k] != 0 || b2h[k] != 1 then k else RunEnd(bh, b2h, k + 1)
  }

  /** A run of marked non-heads from k that stops at e ends there. */
  lemma {:induction false} RunEndIs(bh: seq<int>, b2h: seq<int>, k: int, e: int)
    requires |b2h| == |bh| && 0 <= k <= e <= |bh|
    requires forall m :: k <= m < e ==> bh[m] == 0 && b2h[m] == 1
    requires e == |bh| || bh[e] != 0 || b2h[e] != 1
    ensures RunEnd(bh, b2h, k) == e
    decreases e - k
  {
    if k < e {
      RunEndIs(bh, b2h, k + 1, e);
    }
  }

  /** Lines 211-218: clears the marks of the maximal run of marked non-heads after slot p.
      The read of bh at index len is taken as the end of the run. */
  method ClearRun(bh: seq<int>, b2h: seq<int>, p: int) returns (cleared: seq<int>)
    requires |b2h| == |bh| && 0 <= p < |bh|
    ensures |cleared| == |b2h|
    ensures forall k :: 0 <= k < |b2h| ==>
      cleared[k] == if p < k < RunEnd(bh, b2h, p + 1) then 0 else b2h[k]
  {
    var j := p + 1;
    while j < |bh| && bh[j] == 0 && b2h[j] == 1
      invariant p + 1 <= j <= |bh|
      invariant RunEnd(bh, b2h, j) == RunEnd(bh, b2h, p + 1)
      decreases |bh| - j
    {
      j := j + 1;
    }
    cleared := b2h;
    var k := p + 1;
    while k < j
      invariant p + 1 <= k <= j && |cleared| == |b2h|
      invariant forall m :: 0 <= m < |b2h| ==> cleared[m] == if p < m < k then 0 else b2h[m]
    {
      cleared := cleared[k := 0];
      k := k + 1;
    }
  }

  /** The ghost bookkeeping of the moving pass from index i on, inside the bucket headed by
      b: from a reset state, the move bookkeeping and the marks it keeps, and with bit heads
      the counters against the snapshot c0 and the marks of the finished buckets. */
  ghost predicate Moving(pos: seq<int>, prm0: seq<int>, bh: seq<int>, H: int, b: int, i: int,
                         prm: seq<int>, count: seq<int>, b2h: seq<int>, at: seq<int>, owner: seq<int>, c0: seq<int>) {
    && (ResetState(pos, prm0, bh) && at == Positions(pos) ==>
          MoveInv(at, bh, H, prm0, i, prm, count, owner) && Marks(b2h, count, owner))
    && (ResetState(pos, prm0, bh) && Bits(bh) && at == Positions(pos) ==>
          b <= i && Block(at, H, prm0, b, i, prm, count, c0) && MovePhase(at, bh, H, prm0, b, owner, b2h))
  }

  /** The ghost bookkeeping the scan carries from index i on: from a reset state, the move
      bookkeeping and the marks it keeps, and with bit heads the marks of the finished buckets. */
  ghost predicate Progress(pos: seq<int>, prm0: seq<int>, bh: seq<int>, H: int, i: int,
                           prm: seq<int>, count: seq<int>, b2h: seq<int>, at: seq<int>, owner: seq<int>) {
    && (ResetState(pos, prm0, bh) ==>
          at == Positions(pos) && MoveInv(at, bh, H, prm0, i, prm, count, owner) && Marks(b2h, count, owner))
    && (ResetState(pos, prm0, bh) && Bits(bh) ==> MovePhase(at, bh, H, prm0, i, owner, b2h))
  }

  /** Lines 191-201: for every index x of the bucket [l, r] whose offset has a predecessor
      t = pos[x] - H, the counter at t's rank grows, t takes the next slot of its rank and
      that slot is marked. ok is false when the slot falls outside the arrays, where the
      C code writes past the end of b2h. In a reset state this never happens and the move
      bookkeeping is kept. Each call visits index l and leaves the rest to the next call. */
  method MoveBucket(pos: seq<int>, H: int, l: int, r: int, prm: seq<int>, count: seq<int>, b2h: seq<int>,
                    ghost prm0: seq<int>, ghost bh: seq<int>, ghost at: seq<int>, ghost owner: seq<int>,
                    ghost b: int, ghost c0: seq<int>)
    returns (ok: bool, prm': seq<int>, count': seq<int>, b2h': seq<int>, ghost owner': seq<int>)
    requires H >= 1 && 0 <= l <= r < |pos| && |b2h| == |pos| && Bits(b2h)
    requires Safe(pos, H, prm0, l, prm, count)
    requires Moving(pos, prm0, bh, H, b, l, prm, count, b2h, at, owner, c0)
    ensures ok ==> Safe(pos, H, prm0, r + 1, prm', count') && |b2h'| == |pos| && Bits(b2h')
    ensures ResetState(pos, prm0, bh) && at == Positions(pos) ==> ok
    ensures ok ==> Moving(pos, prm0, bh, H, b, r + 1, prm', count', b2h', at, owner', c0)
    decreases r + 1 - l
  {
    if l == r {
      ok, prm', count', b2h', owner' := MoveAt(pos, H, r, prm, count, b2h, prm0, bh, at, owner, b, c0);
      return;
    }
    var prm2, count2, b2h2;
    ghost var owner2;
    ok, prm2, count2, b2h2, owner2 := MoveAt(pos, H, l, prm, count, b2h, prm0, bh, at, owner, b, c0);
    if !ok {
      return ok, prm2, count2, b2h2, owner2;
    }
    ok, prm', count', b2h', owner' := MoveBucket(pos, H, l + 1, r, prm2, count2, b2h2, prm0, bh, at, owner2, b, c0);
  }

  /** Lines 193-199 for the single index i: when the offset pos[i] has a predecessor
      t = pos[i] - H, t takes the next slot of its rank and that slot is marked. ok is false
      when the slot falls outside the arrays. In a reset state this never happens and the
      move bookkeeping is kept. */
  method MoveAt(pos: seq<int>, H: int, i: int, prm: seq<int>, count: seq<int>, b2h: seq<int>,
                ghost prm0: seq<int>, ghost bh: seq<int>, ghost at: seq<int>, ghost owner: seq<int>,
                ghost b: int, ghost c0: seq<int>)
    returns (ok: bool, prm': seq<int>, count': seq<int>, b2h': seq<int>, ghost owner': seq<int>)
    requires H >= 1 && 0 <= i < |pos| && |b2h| == |pos| && Bits(b2h)
    requires Safe(pos, H, prm0, i, prm, count)
    requires Moving(pos, prm0, bh, H, b, i, prm, count, b2h, at, owner, c0)
    ensures ok ==> Safe(pos, H, prm0, i + 1, prm', count') && |b2h'| == |pos| && Bits(b2h')
    ensures ResetState(pos, prm0, bh) && at == Positions(pos) ==> ok
    ensures ok ==> Moving(pos, prm0, bh, H, b, i + 1, prm', count', b2h', at, owner', c0)
  {
    ghost var hyp := ResetState(pos, prm0, bh) && at == Positions(pos);
    ghost var marked := hyp && Bits(bh);
    prm', count', b2h', owner' := prm, count, b2h, owner;
    var Ti := pos[i] - H;
    if Ti < 0 {
      SafeSkip(pos, H, prm0, i, prm, count);
      if hyp {
        SkipState(pos, at, bh, H, prm0, i, prm, count, owner);
      }
      if marked {
        MarksSkip(pos, at, bh, H, prm0, b, i, prm, count, c0);
      }
      return true, prm', count', b2h', owner';
    }
    var S := prm[Ti];
    var slot := S + count[S];
    if slot >= |pos| {
      if hyp {
        MoveFits(pos, at, bh, H, prm0, i, prm, count, owner, Ti);
      }
      return false, prm', count', b2h', owner';
    }
    prm', count', b2h' := prm[Ti := slot], count[S := count[S] + 1], b2h[slot := 1];
    SafeStep(pos, H, prm0, i, prm, count, Ti, S, slot, prm', count');
    if hyp {
      owner' := owner[slot := Ti];
      MoveTaken(pos, at, bh, H, prm0, i, prm, count, owner, b2h, Ti, S, slot, prm', count', owner', b2h');
      if marked {
        MarksTaken(pos, at, bh, H, prm0, b, i, prm, count, owner, b2h, c0, Ti, S, slot, prm', count', owner', b2h');
      }
    }
    ok := true;
  }

  /** Clearing the run after the marked slot of t, whose successor is listed at i, is the
      clearing step ScanMarks describes. */
  lemma ClearVisit(at: seq<int>, bh: seq<int>, H: int, prm0: seq<int>, l: int, r: int, i: int,
                   prm: seq<int>, count: seq<int>, owner: seq<int>, c0: seq<int>,
                   b2h: seq<int>, t: int, cleared: seq<int>)
    requires AfterMoves(at, bh, H, prm0, l, r, prm, count, owner, c0) && Bits(bh)
    requires ClearPhase(at, bh, H, prm0, l, i, owner, c0, b2h)
    requires l <= i <= r && 0 <= t && t + H < |at| && at[t + H] == i
    requires 0 <= prm[t] < |at| && b2h[prm[t]] == 1
    requires |cleared| == |b2h|
    requires forall k :: 0 <= k < |b2h| ==>
      cleared[k] == if prm[t] < k < RunEnd(bh, b2h, prm[t] + 1) then 0 else b2h[k]
    ensures ClearPhase(at, bh, H, prm0, l, i + 1, owner, c0, cleared)
  {
    RunFacts(at, bh, H, prm0, l, r, i, prm, count, owner, c0, b2h, t);
    RunEndIs(bh, b2h, prm[t] + 1, prm0[t] + count[prm0[t]]);
    ClearLeadStep(at, bh, H, prm0, l, r, i, prm, count, owner, c0, b2h, t, cleared);
  }

  /** Lines 204-221: for every index x of the bucket [l, r] whose offset has a predecessor
      t = pos[x] - H with a marked slot, the run of marked non-heads after that slot is
      cleared. A mark changes only on a non-head that lies after such a slot. From a reset
      state the clearing leaves marked exactly the slots MovePhase describes once the bucket
      is done: of the slots each rank took from the bucket, only the first keeps its mark. */
  method ClearBucket(pos: seq<int>, H: int, bh: seq<int>, prm: seq<int>, b2h: seq<int>, l: int, r: int,
                     ghost prm0: seq<int>, ghost at: seq<int>, ghost count: seq<int>, ghost owner: seq<int>,
                     ghost c0: seq<int>)
    returns (b2h': seq<int>)
    requires |bh| == |pos| && |prm| == |pos| && |b2h| == |pos| && 0 <= l <= r < |pos| && H >= 1
    requires forall x :: 0 <= x < |pos| ==> 0 <= pos[x] < |pos|
    requires forall t :: 0 <= t < |prm| ==> 0 <= prm[t] < |pos|
    requires ResetState(pos, prm0, bh) && Bits(bh) && at == Positions(pos) ==>
      AfterMoves(at, bh, H, prm0, l, r, prm, count, owner, c0) && MovePhase(at, bh, H, prm0, l, owner, b2h)
    ensures |b2h'| == |b2h|
    ensures forall k :: 0 <= k < |b2h| && b2h'[k] != b2h[k] ==>
      && b2h[k] == 1 && b2h'[k] == 0 && bh[k] == 0
      && exists x :: l <= x <= r && pos[x] >= H && prm[pos[x] - H] < k
    ensures ResetState(pos, prm0, bh) && Bits(bh) && at == Positions(pos) ==>
      MovePhase(at, bh, H, prm0, r + 1, owner, b2h')
  {
    ghost var marked := ResetState(pos, prm0, bh) && Bits(bh) && at == Positions(pos);
    if marked {
      ClearStart(at, bh, H, prm0, l, r, prm, count, owner, c0, b2h);
    }
    b2h' := b2h;
    var i := l;
    while i <= r
      invariant l <= i <= r + 1 && |b2h'| == |b2h|
      invariant forall k :: 0 <= k < |b2h| && b2h'[k] != b2h[k] ==>
        && b2h[k] == 1 && b2h'[k] == 0 && bh[k] == 0
        && exists x :: l <= x < i && pos[x] >= H && prm[pos[x] - H] < k
      invariant marked ==> ClearPhase(at, bh, H, prm0, l, i, owner, c0, b2h')
    {
      var before := b2h';
      b2h' := ClearAt(pos, H, bh, prm, b2h', l, r, i, prm0, at, count, owner, c0);
      forall k | 0 <= k < |b2h| && b2h'[k] != b2h[k]
        ensures && b2h[k] == 1 && b2h'[k] == 0 && bh[k] == 0
                && exists x :: l <= x <= i && pos[x] >= H && prm[pos[x] - H] < k
      {
        if b2h'[k] != before[k] {
          assert pos[i] >= H && prm[pos[i] - H] < k;
        }
      }
      i := i + 1;
    }
    if marked {
      ClearEnd(at, bh, H, prm0, l, r, prm, count, owner, c0, b2h');
    }
  }

  /** Lines 205-219 for the single index i: when the offset pos[i] has a predecessor
      t = pos[i] - H whose slot is marked, the run of marked non-heads after that slot is
      cleared; a mark changes only on such a non-head. From a reset state this is the
      clearing step ScanMarks describes. */
  method ClearAt(pos: seq<int>, H: int, bh: seq<int>, prm: seq<int>, b2h: seq<int>, l: int, r: int, i: int,
                 ghost prm0: seq<int>, ghost at: seq<int>, ghost count: seq<int>, ghost owner: seq<int>,
                 ghost c0: seq<int>)
    returns (b2h': seq<int>)
    requires |bh| == |pos| && |prm| == |pos| && |b2h| == |pos| && 0 <= l <= i <= r < |pos| && H >= 1
    requires forall x :: 0 <= x < |pos| ==> 0 <= pos[x] < |pos|
    requires forall t :: 0 <= t < |prm| ==> 0 <= prm[t] < |pos|
    requires ResetState(pos, prm0, bh) && Bits(bh) && at == Positions(pos) ==>
      AfterMoves(at, bh, H, prm0, l, r, prm, count, owner, c0) && ClearPhase(at, bh, H, prm0, l, i, owner, c0, b2h)
    ensures |b2h'| == |b2h|
    ensures forall k :: 0 <= k < |b2h| && b2h'[k] != b2h[k] ==>
      b2h[k] == 1 && b2h'[k] == 0 && bh[k] == 0 && pos[i] >= H && prm[pos[i] - H] < k
    ensures ResetState(pos, prm0, bh) && Bits(bh) && at == Positions(pos) ==>
      ClearPhase(at, bh, H, prm0, l, i + 1, owner, c0, b2h')
  {
    var Ti := pos[i] - H;
    if Ti >= 0 && b2h[prm[Ti]] == 1 {
      b2h' := ClearRun(bh, b2h, prm[Ti]);
      if ResetState(pos, prm0, bh) && Bits(bh) && at == Positions(pos) {
        ClearVisit(at, bh, H, prm0, l, r, i, prm, count, owner, c0, b2h, Ti, b2h');
      }
    } else {
      b2h' := b2h;
      if ResetState(pos, prm0, bh) && Bits(bh) && at == Positions(pos) {
        ClearSkipStep(at, bh, H, prm0, l, r, i, prm, count, owner, c0, b2h, pos[i]);
      }
    }
  }

  /** Lines 165-226: the whole bucket scan. Whatever the input, a completed scan has the
      shape above; from a reset state the scan always completes and moves the offsets as
      ScanOrder describes, and when the bucket heads are bits it marks the heads of the
      refined buckets as LeadMarks describes. */
  method ScanBuckets(pos: seq<int>, prm0: seq<int>, bh: seq<int>, H: int) returns (res: Option<Scan>)
    requires 1 <= |bh| && |pos| == |bh| && |prm0| == |bh| && H >= 1
    requires forall x :: 0 <= x < |pos| ==> 0 <= pos[x] < |pos|
    requires forall t :: 0 <= t < |prm0| ==> 0 <= prm0[t] < |pos|
    ensures res.Some? ==> ScanShape(pos, prm0, H, res.value)
    ensures ResetState(pos, prm0, bh) ==> res.Some? && ScanOrder(pos, prm0, bh, H, res.value)
    ensures ResetState(pos, prm0, bh) && Bits(bh) ==> res.Some? && LeadMarks(pos, bh, H, prm0, res.value)
  {
    var n := |bh|;
    var count := seq(n, _ => 0);
    var b2h := seq(n, _ => 0);
    ghost var at := [];
    ghost var owner := seq(n, _ => -1);
    if ResetState(pos, prm0, bh) {
      at := Positions(pos);
      ResetIndexing(pos, prm0, bh);
      ScanStart(at, bh, H, prm0, count, owner, b2h);
      PhaseStart(at, bh, H, prm0, owner, b2h);
    }
    res := ScanFrom(pos, prm0, bh, H, 0, prm0, count, b2h, at, owner);
  }

  /** The scan from bucket head l onwards (the loop at lines 165-226). Each step finds the
      bucket [l, r] headed by l, moves the predecessors of its offsets and clears their
      marked runs, then goes on from the next head r + 1. */
  method ScanFrom(pos: seq<int>, prm0: seq<int>, bh: seq<int>, H: int, l: int,
                  prm: seq<int>, count: seq<int>, b2h: seq<int>, ghost at: seq<int>, ghost owner: seq<int>)
    returns (res: Option<Scan>)
    requires 1 <= |bh| && |pos| == |bh| && |prm0| == |bh| && H >= 1 && 0 <= l <= |bh|
    requires l == 0 || l == |bh| || bh[l] == 1
    requires forall x :: 0 <= x < |pos| ==> 0 <= pos[x] < |pos|
    requires forall t :: 0 <= t < |prm0| ==> 0 <= prm0[t] < |pos|
    requires Safe(pos, H, prm0, l, prm, count) && |b2h| == |pos| && Bits(b2h)
    requires Progress(pos, prm0, bh, H, l, prm, count, b2h, at, owner)
    ensures res.Some? ==> ScanShape(pos, prm0, H, res.value)
    ensures ResetState(pos, prm0, bh) ==> res.Some? && ScanOrder(pos, prm0, bh, H, res.value)
    ensures ResetState(pos, prm0, bh) && Bits(bh) ==> res.Some? && LeadMarks(pos, bh, H, prm0, res.value)
    decreases |bh| - l
  {
    if l == |bh| {
      res := Some(Scan(prm, count, b2h));
      ScanDone(pos, prm0, bh, H, res.value, at, owner);
      if ResetState(pos, prm0, bh) && Bits(bh) {
        TableOf(at, bh, H, prm0, l, prm, count, owner);
        FactsLead(pos, at, bh, H, prm0, prm, count, owner, b2h);
      }
      return;
    }
    var r := BucketRight(bh, l);
    var ok, prm', count', moved, owner' := MoveHeaded(pos, prm0, bh, H, l, r, prm, count, b2h, at, owner);
    if !ok {
      return None;
    }
    var cleared := ClearMoved(pos, prm0, bh, H, l, r, prm', count', moved, at, owner', count);
    res := ScanFrom(pos, prm0, bh, H, r + 1, prm', count', cleared, at, owner');
  }

  /** Clearing marks only on non-heads keeps every filled slot's start marked. */
  lemma ClearedMarks(pos: seq<int>, prm0: seq<int>, bh: seq<int>, H: int, i: int, prm: seq<int>,
                     count: seq<int>, owner: seq<int>, b2h: seq<int>, cleared: seq<int>)
    requires ResetState(pos, prm0, bh)
    requires MoveInv(Positions(pos), bh, H, prm0, i, prm, count, owner) && Marks(b2h, count, owner)
    requires |cleared| == |b2h|
    requires forall k :: 0 <= k < |b2h| && cleared[k] != b2h[k] ==> cleared[k] == 0 && bh[k] == 0
    ensures Marks(cleared, count, owner)
  {
    ResetIndexing(pos, prm0, bh);
    ClearKeepsMarks(Positions(pos), bh, prm0, count, owner, b2h, cleared);
  }

  /** The moving pass of one scan step (lines 191-201) on the bucket [l, r] headed by l: the
      counters at its start are the snapshot Block compares against. */
  method MoveHeaded(pos: seq<int>, prm0: seq<int>, bh: seq<int>, H: int, l: int, r: int,
                    prm: seq<int>, count: seq<int>, b2h: seq<int>, ghost at: seq<int>, ghost owner: seq<int>)
    returns (ok: bool, prm': seq<int>, count': seq<int>, b2h': seq<int>, ghost owner': seq<int>)
    requires H >= 1 && 0 <= l <= r < |pos| && |bh| == |pos| && |b2h| == |pos| && Bits(b2h)
    requires Safe(pos, H, prm0, l, prm, count)
    requires Progress(pos, prm0, bh, H, l, prm, count, b2h, at, owner)
    ensures ok ==> Safe(pos, H, prm0, r + 1, prm', count') && |b2h'| == |pos| && Bits(b2h')
    ensures ResetState(pos, prm0, bh) ==> ok
    ensures ok ==> Moving(pos, prm0, bh, H, l, r + 1, prm', count', b2h', at, owner', count)
  {
    if ResetState(pos, prm0, bh) && Bits(bh) {
      BlockStart(at, bh, H, prm0, l, prm, count, owner);
    }
    ok, prm', count', b2h', owner' := MoveBucket(pos, H, l, r, prm, count, b2h, prm0, bh, at, owner, l, count);
  }

  /** Once the bucket [l, r] headed by l has been moved from a reset state, the move
      bookkeeping gives the reading the clearing pass works on. */
  lemma MovesDone(pos: seq<int>, at: seq<int>, bh: seq<int>, H: int, prm0: seq<int>, l: int, r: int,
                  prm: seq<int>, count: seq<int>, owner: seq<int>, c0: seq<int>)
    requires ResetState(pos, prm0, bh) && at == Positions(pos) && H >= 1
    requires 0 <= l <= r < |bh| && (l == 0 || bh[l] == 1) && r == BucketEnd(bh, l)
    requires MoveInv(at, bh, H, prm0, r + 1, prm, count, owner) && Block(at, H, prm0, l, r + 1, prm, count, c0)
    ensures AfterMoves(at, bh, H, prm0, l, r, prm, count, owner, c0)
  {
    TableOf(at, bh, H, prm0, r + 1, prm, count, owner);
    KeyedOf(pos, prm0, bh);
    BucketOf(bh, l);
  }

  /** The clearing pass of one scan step (lines 204-221) on the bucket [l, r] starting at
      head l, after its predecessors moved: marks change only from 1 to 0 on non-heads, so
      the head of every bucket that received a move stays marked, and the marks become those
      MovePhase describes once the bucket is done. */
  method ClearMoved(pos: seq<int>, prm0: seq<int>, bh: seq<int>, H: int, l: int, r: int,
                    prm: seq<int>, count: seq<int>, b2h: seq<int>, ghost at: seq<int>, ghost owner: seq<int>,
                    ghost c0: seq<int>)
    returns (cleared: seq<int>)
    requires |pos| == |bh| && |prm0| == |bh| && H >= 1 && 0 <= l <= r < |bh|
    requires l == 0 || bh[l] == 1
    requires r == BucketEnd(bh, l)
    requires Safe(pos, H, prm0, r + 1, prm, count) && |b2h| == |pos| && Bits(b2h)
    requires ResetState(pos, prm0, bh) ==> at == Positions(pos)
    requires Moving(pos, prm0, bh, H, l, r + 1, prm, count, b2h, at, owner, c0)
    ensures |cleared| == |pos| && Bits(cleared)
    ensures Progress(pos, prm0, bh, H, r + 1, prm, count, cleared, at, owner)
  {
    if ResetState(pos, prm0, bh) && Bits(bh) {
      MovesDone(pos, at, bh, H, prm0, l, r, prm, count, owner, c0);
    }
    cleared := ClearBucket(pos, H, bh, prm, b2h, l, r, prm0, at, count, owner, c0);
    if ResetState(pos, prm0, bh) {
      ClearedMarks(pos, prm0, bh, H, r + 1, prm, count, owner, b2h, cleared);
    }
  }

}
