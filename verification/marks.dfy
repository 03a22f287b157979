/** The marks b2h the bucket scan leaves (lines 189-221) when it starts from a reset state.
    While a bucket is scanned, every slot its predecessors take is marked; the clearing
    pass then keeps, for each rank, only the first slot that rank took from the bucket.
    So a slot ends up marked exactly when its holder is the first offset of its rank whose
    successor lies in the scanned bucket: the marks are the heads of the refined buckets.

    The bookkeeping below is stated through small per-slot predicates used as triggers, so
    each proof unfolds only the slots and offsets it names. */
module ScanMarks {
  import opened Counting
  import opened Buckets
  import opened ScanState

  /** The offset listed at x has a predecessor, and no earlier index of x's bucket lists an
      offset whose predecessor has the same rank. */
  predicate Leads(pos: seq<int>, bh: seq<int>, H: int, prm0: seq<int>, x: int)
    requires |bh| == |pos| && |prm0| == |pos| && H >= 1 && 0 <= x < |pos|
    requires forall y :: 0 <= y < |pos| ==> 0 <= pos[y] < |pos|
  {
    && pos[x] >= H
    && forall y :: BucketStart(bh, x) <= y < x && pos[y] >= H ==> prm0[pos[y] - H] != prm0[pos[x] - H]
  }

  /** The marks of a completed scan: the slot of every moved offset is marked exactly when
      its successor's index leads. With ScanOrder, which puts every mark on a taken slot,
      this fixes every entry of b2h. */
  predicate LeadMarks(pos: seq<int>, bh: seq<int>, H: int, prm0: seq<int>, sc: Scan)
    requires |bh| == |pos| && |prm0| == |pos| && H >= 1 && |sc.prm| == |pos| && |sc.b2h| == |pos|
    requires forall x :: 0 <= x < |pos| ==> 0 <= pos[x] < |pos|
    requires forall t :: 0 <= t < |pos| ==> 0 <= sc.prm[t] < |pos|
  {
    forall x :: 0 <= x < |pos| && pos[x] >= H ==>
      (sc.b2h[sc.prm[pos[x] - H]] == 1 <==> Leads(pos, bh, H, prm0, x))
  }

  /** o1 and o2 have successors, the same rank, and successors in the same bucket: their
      slots belong to one group of the refined order. */
  ghost predicate SameGroup(at: seq<int>, bh: seq<int>, H: int, prm0: seq<int>, o1: int, o2: int)
    requires |bh| == |at| && |prm0| == |at| && H >= 0
  {
    && 0 <= o1 && o1 + H < |at| && 0 <= at[o1 + H] < |at|
    && 0 <= o2 && o2 + H < |at| && 0 <= at[o2 + H] < |at|
    && prm0[o1] == prm0[o2]
    && BucketStart(bh, at[o1 + H]) == BucketStart(bh, at[o2 + H])
  }

  /** Slot v is held by an offset with a successor and starts its group: it is the first slot
      of its rank, or the slot before it is held outside the group. */
  ghost predicate GroupHead(at: seq<int>, bh: seq<int>, H: int, prm0: seq<int>, owner: seq<int>, v: int)
    requires |bh| == |at| && |prm0| == |at| && |owner| == |at| && H >= 0 && 0 <= v < |at|
  {
    var o := owner[v];
    && 0 <= o && o + H < |at|
    && (v == 0 || v == prm0[o] || !SameGroup(at, bh, H, prm0, owner[v - 1], o))
  }

  /** Slot v is marked while the predecessors of the bucket headed by b are moved: its
      holder's successor lies in that bucket, or v starts its group. */
  ghost predicate MoveMark(at: seq<int>, bh: seq<int>, H: int, prm0: seq<int>, b: int, owner: seq<int>, v: int)
    requires |bh| == |at| && |prm0| == |at| && |owner| == |at| && H >= 0 && 0 <= v < |at|
  {
    var o := owner[v];
    0 <= o && o + H < |at| && (at[o + H] >= b || GroupHead(at, bh, H, prm0, owner, v))
  }

  /** The marks while the predecessors of the bucket headed by b are moved. With b the end
      of the array, a slot is marked exactly when it starts its group. */
  ghost predicate MovePhase(at: seq<int>, bh: seq<int>, H: int, prm0: seq<int>, b: int, owner: seq<int>, b2h: seq<int>) {
    && |bh| == |at| && |prm0| == |at| && H >= 1 && |owner| == |at| && |b2h| == |at|
    && forall v {:trigger MoveMark(at, bh, H, prm0, b, owner, v)} :: 0 <= v < |at| ==>
         (b2h[v] == 1 <==> MoveMark(at, bh, H, prm0, b, owner, v))
  }

  /** c0 holds the counters as they were when the scan of the bucket headed by b began: a
      moved offset whose successor lies in that bucket holds a slot from c0 onwards, any
      other moved offset one below it. */
  ghost predicate Block(at: seq<int>, H: int, prm0: seq<int>, b: int, i: int, prm: seq<int>, count: seq<int>, c0: seq<int>) {
    && |prm0| == |at| && |prm| == |at| && |count| == |at| && |c0| == |at|
    && (forall S :: 0 <= S < |at| ==> 0 <= c0[S] <= count[S])
    && (forall t {:trigger Moved(at, H, i, t)} :: 0 <= t < |at| && Moved(at, H, i, t) && 0 <= prm0[t] < |at| ==>
          (at[t + H] >= b <==> prm[t] >= prm0[t] + c0[prm0[t]]))
  }

  /** The holder of slot w exists and its successor's index is not below i. */
  ghost predicate FirstPending(at: seq<int>, H: int, owner: seq<int>, w: int, i: int)
    requires |owner| == |at| && H >= 1
  {
    0 <= w < |at| && 0 <= owner[w] && owner[w] + H < |at| && at[owner[w] + H] >= i
  }

  /** Slot v is marked during the clearing pass over the bucket headed by b, up to index i:
      for a holder whose successor lies in the bucket, v is the first slot its rank took
      from the bucket, or the holder of that first slot is not visited yet; for any other
      holder, v starts its group. */
  ghost predicate ClearMark(at: seq<int>, bh: seq<int>, H: int, prm0: seq<int>, b: int, i: int,
                            owner: seq<int>, c0: seq<int>, v: int)
    requires |bh| == |at| && |prm0| == |at| && |owner| == |at| && |c0| == |at| && H >= 1 && 0 <= v < |at|
  {
    var o := owner[v];
    && 0 <= o && o + H < |at|
    && (if at[o + H] >= b then
          && 0 <= prm0[o] < |at|
          && (v == prm0[o] + c0[prm0[o]] || FirstPending(at, H, owner, prm0[o] + c0[prm0[o]], i))
        else GroupHead(at, bh, H, prm0, owner, v))
  }

  /** The marks during the clearing pass over the bucket headed by b, up to index i. */
  ghost predicate ClearPhase(at: seq<int>, bh: seq<int>, H: int, prm0: seq<int>, b: int, i: int,
                             owner: seq<int>, c0: seq<int>, b2h: seq<int>) {
    && |bh| == |at| && |prm0| == |at| && |owner| == |at| && |c0| == |at| && |b2h| == |at| && H >= 1
    && forall v {:trigger ClearMark(at, bh, H, prm0, b, i, owner, c0, v)} :: 0 <= v < |at| ==>
         (b2h[v] == 1 <==> ClearMark(at, bh, H, prm0, b, i, owner, c0, v))
  }

  /** Taken slot v is held by a moved offset of a rank whose taken slots include v and end
      inside its bucket. */
  ghost predicate SlotHeld(at: seq<int>, bh: seq<int>, H: int, prm0: seq<int>, i: int,
                           prm: seq<int>, count: seq<int>, owner: seq<int>, v: int)
    requires |bh| == |at| && |prm0| == |at| && |prm| == |at| && |count| == |at| && |owner| == |at| && 0 <= v < |at|
  {
    var o := owner[v];
    o != -1 ==>
      && 0 <= o < |at| && Moved(at, H, i, o) && prm[o] == v
      && 0 <= prm0[o] < |at| && prm0[o] <= v < prm0[o] + count[prm0[o]] <= |at|
      && v <= BucketEnd(bh, prm0[o])
  }

  /** A moved offset t holds its slot prm[t]. */
  ghost predicate OffsetHeld(at: seq<int>, H: int, i: int, prm: seq<int>, owner: seq<int>, t: int)
    requires |prm| == |at| && |owner| == |at| && 0 <= t < |at|
  {
    Moved(at, H, i, t) ==> 0 <= prm[t] < |at| && owner[prm[t]] == t
  }

  /** A slot among the count[S] slots taken from S is held by an offset of rank S. */
  ghost predicate RankTook(at: seq<int>, prm0: seq<int>, count: seq<int>, owner: seq<int>, S: int, v: int)
    requires |prm0| == |at| && |count| == |at| && |owner| == |at| && 0 <= S < |at| && 0 <= v < |at|
  {
    S <= v < S + count[S] ==> 0 <= owner[v] < |at| && prm0[owner[v]] == S
  }

  /** Moved offsets t1 and t2 of one rank hold slots in the order of their successors. */
  ghost predicate InOrder(at: seq<int>, H: int, prm0: seq<int>, i: int, prm: seq<int>, t1: int, t2: int)
    requires |prm0| == |at| && |prm| == |at| && 0 <= t1 < |at| && 0 <= t2 < |at|
  {
    Moved(at, H, i, t1) && Moved(at, H, i, t2) && prm0[t1] == prm0[t2] && at[t1 + H] < at[t2 + H] ==>
      prm[t1] < prm[t2]
  }

  /** The move bookkeeping of MoveInv read slot by slot and offset by offset. */
  ghost predicate Table(at: seq<int>, bh: seq<int>, H: int, prm0: seq<int>, i: int,
                        prm: seq<int>, count: seq<int>, owner: seq<int>) {
    && |bh| == |at| && |prm0| == |at| && |prm| == |at| && |count| == |at| && |owner| == |at| && H >= 1
    && (forall t :: 0 <= t < |at| ==> 0 <= prm0[t] < |at|)
    && (forall S :: 0 <= S < |at| ==> 0 <= count[S] && S + count[S] <= |at|)
    && (forall v {:trigger SlotHeld(at, bh, H, prm0, i, prm, count, owner, v)} :: 0 <= v < |at| ==>
          SlotHeld(at, bh, H, prm0, i, prm, count, owner, v))
    && (forall t {:trigger OffsetHeld(at, H, i, prm, owner, t)} :: 0 <= t < |at| ==>
          OffsetHeld(at, H, i, prm, owner, t))
    && (forall S, v {:trigger RankTook(at, prm0, count, owner, S, v)} :: 0 <= S < |at| && 0 <= v < |at| ==>
          RankTook(at, prm0, count, owner, S, v))
    && (forall t1, t2 {:trigger InOrder(at, H, prm0, i, prm, t1, t2)} :: 0 <= t1 < |at| && 0 <= t2 < |at| ==>
          InOrder(at, H, prm0, i, prm, t1, t2))
  }

  /** The rank of offset t is the head of the bucket holding t's index. */
  ghost predicate KeyOf(at: seq<int>, bh: seq<int>, prm0: seq<int>, t: int)
    requires |bh| == |at| && |prm0| == |at| && 0 <= t < |at| && 0 <= at[t] < |at|
  {
    prm0[t] == BucketStart(bh, at[t])
  }

  /** Offsets t1 and t2 with one index are one offset. */
  ghost predicate Apart(at: seq<int>, t1: int, t2: int)
    requires 0 <= t1 < |at| && 0 <= t2 < |at|
  {
    at[t1] == at[t2] ==> t1 == t2
  }

  /** Indexing and RanksAreStarts read offset by offset. */
  ghost predicate Keyed(at: seq<int>, bh: seq<int>, prm0: seq<int>) {
    && |bh| == |at| && |prm0| == |at|
    && (forall t :: 0 <= t < |at| ==> 0 <= at[t] < |at|)
    && (forall t {:trigger KeyOf(at, bh, prm0, t)} :: 0 <= t < |at| ==> KeyOf(at, bh, prm0, t))
    && (forall t1, t2 {:trigger Apart(at, t1, t2)} :: 0 <= t1 < |at| && 0 <= t2 < |at| ==> Apart(at, t1, t2))
  }

  /** The state after the moves for the bucket [l, r] from a reset state, c0 holding the
      counters from before them. */
  ghost predicate AfterMoves(at: seq<int>, bh: seq<int>, H: int, prm0: seq<int>, l: int, r: int,
                             prm: seq<int>, count: seq<int>, owner: seq<int>, c0: seq<int>) {
    && Keyed(at, bh, prm0) && H >= 1 && 0 <= l <= r < |at|
    && (forall x :: l <= x <= r ==> BucketStart(bh, x) == l)
    && Table(at, bh, H, prm0, r + 1, prm, count, owner)
    && Block(at, H, prm0, l, r + 1, prm, count, c0)
  }

  /** The move bookkeeping gives its slot-by-slot reading. */
  lemma TableOf(at: seq<int>, bh: seq<int>, H: int, prm0: seq<int>, i: int,
                prm: seq<int>, count: seq<int>, owner: seq<int>)
    requires H >= 1 && MoveInv(at, bh, H, prm0, i, prm, count, owner)
    ensures Table(at, bh, H, prm0, i, prm, count, owner)
  {
    forall v | 0 <= v < |at|
      ensures SlotHeld(at, bh, H, prm0, i, prm, count, owner, v)
    {
      if owner[v] != -1 {
        assert Moved(at, H, i, owner[v]);
      }
    }
    forall S, v | 0 <= S < |at| && 0 <= v < |at|
      ensures RankTook(at, prm0, count, owner, S, v)
    {
    }
    forall t1, t2 | 0 <= t1 < |at| && 0 <= t2 < |at|
      ensures InOrder(at, H, prm0, i, prm, t1, t2)
    {
    }
  }

  /** A reset state gives the offset-by-offset reading of its indexing. */
  lemma KeyedOf(pos: seq<int>, prm0: seq<int>, bh: seq<int>)
    requires ResetState(pos, prm0, bh)
    ensures Keyed(Positions(pos), bh, prm0)
  {
    ResetIndexing(pos, prm0, bh);
    var at := Positions(pos);
    forall t | 0 <= t < |at|
      ensures KeyOf(at, bh, prm0, t)
    {
    }
    forall t1, t2 | 0 <= t1 < |at| && 0 <= t2 < |at|
      ensures Apart(at, t1, t2)
    {
    }
  }

  /** What the table says about a taken slot. */
  lemma SlotIs(at: seq<int>, bh: seq<int>, H: int, prm0: seq<int>, i: int,
               prm: seq<int>, count: seq<int>, owner: seq<int>, v: int)
    requires Table(at, bh, H, prm0, i, prm, count, owner) && 0 <= v < |at| && owner[v] != -1
    ensures 0 <= owner[v] < |at| && Moved(at, H, i, owner[v]) && prm[owner[v]] == v
    ensures prm0[owner[v]] <= v < prm0[owner[v]] + count[prm0[owner[v]]] <= |at|
    ensures v <= BucketEnd(bh, prm0[owner[v]])
  {
    assert SlotHeld(at, bh, H, prm0, i, prm, count, owner, v);
  }

  /** What the table says about a moved offset. */
  lemma OffsetIs(at: seq<int>, bh: seq<int>, H: int, prm0: seq<int>, i: int,
                 prm: seq<int>, count: seq<int>, owner: seq<int>, t: int)
    requires Table(at, bh, H, prm0, i, prm, count, owner) && 0 <= t < |at| && Moved(at, H, i, t)
    ensures 0 <= prm[t] < |at| && owner[prm[t]] == t
  {
    assert OffsetHeld(at, H, i, prm, owner, t);
  }

  /** What the table says about a slot taken from S. */
  lemma RankIs(at: seq<int>, bh: seq<int>, H: int, prm0: seq<int>, i: int,
               prm: seq<int>, count: seq<int>, owner: seq<int>, S: int, v: int)
    requires Table(at, bh, H, prm0, i, prm, count, owner) && 0 <= S < |at| && S <= v < S + count[S]
    ensures 0 <= owner[v] < |at| && prm0[owner[v]] == S
  {
    assert RankTook(at, prm0, count, owner, S, v);
  }

  /** Among moved offsets of one rank, a lower slot means an earlier successor. */
  lemma SlotOrder(at: seq<int>, bh: seq<int>, H: int, prm0: seq<int>, i: int,
                  prm: seq<int>, count: seq<int>, owner: seq<int>, t1: int, t2: int)
    requires Table(at, bh, H, prm0, i, prm, count, owner) && Keyed(at, bh, prm0)
    requires 0 <= t1 < |at| && 0 <= t2 < |at| && Moved(at, H, i, t1) && Moved(at, H, i, t2)
    requires prm0[t1] == prm0[t2] && prm[t1] < prm[t2]
    ensures at[t1 + H] < at[t2 + H]
  {
    assert InOrder(at, H, prm0, i, prm, t2, t1);
    assert Apart(at, t1 + H, t2 + H);
  }

  /** Every index from a head l to the end of its bucket has l as its bucket start. */
  lemma {:induction false} BucketOf(bh: seq<int>, l: int)
    requires 0 <= l < |bh| && (l == 0 || bh[l] == 1)
    ensures forall x :: l <= x <= BucketEnd(bh, l) ==> BucketStart(bh, x) == l
  {
    forall x | l <= x <= BucketEnd(bh, l)
      ensures BucketStart(bh, x) == l
    {
      SameBucket(bh, l, x);
    }
  }

  /** With nothing held, nothing is marked. */
  lemma {:induction false} PhaseStart(at: seq<int>, bh: seq<int>, H: int, prm0: seq<int>, owner: seq<int>, b2h: seq<int>)
    requires |bh| == |at| && |prm0| == |at| && H >= 1 && |owner| == |at| && |b2h| == |at|
    requires forall k :: 0 <= k < |at| ==> owner[k] == -1 && b2h[k] == 0
    ensures MovePhase(at, bh, H, prm0, 0, owner, b2h)
  {
    forall v | 0 <= v < |at|
      ensures b2h[v] == 1 <==> MoveMark(at, bh, H, prm0, 0, owner, v)
    {
      assert owner[v] == -1;
    }
  }

  /** Before the first move for a bucket, every moved offset holds a slot below the
      counters. */
  lemma {:induction false} BlockStart(at: seq<int>, bh: seq<int>, H: int, prm0: seq<int>, l: int,
                                      prm: seq<int>, count: seq<int>, owner: seq<int>)
    requires MoveInv(at, bh, H, prm0, l, prm, count, owner)
    ensures Block(at, H, prm0, l, l, prm, count, count)
  {
  }

  /** Offset t, whose successor sits at index i of the bucket headed by b, taking the next
      slot of its rank keeps the block. */
  lemma {:induction false} BlockTaken(at: seq<int>, H: int, prm0: seq<int>, b: int, i: int,
                                      prm: seq<int>, count: seq<int>, owner: seq<int>, c0: seq<int>,
                                      t: int, S: int, slot: int, prm2: seq<int>, count2: seq<int>, owner2: seq<int>)
    requires Indexing(at) && H >= 1 && 0 <= t && t + H < |at| && at[t + H] == i && b <= i
    requires Block(at, H, prm0, b, i, prm, count, c0)
    requires Took(prm, count, owner, t, S, slot, prm2, count2, owner2) && S == prm0[t]
    ensures Block(at, H, prm0, b, i + 1, prm2, count2, c0)
  {
    MovedNext(at, H, i, t);
    forall t' | 0 <= t' < |at| && Moved(at, H, i + 1, t')
      ensures 0 <= prm0[t'] < |at| ==> (at[t' + H] >= b <==> prm2[t'] >= prm0[t'] + c0[prm0[t']])
    {
      if t' != t {
        assert Moved(at, H, i, t');
      }
    }
  }

  /** A held slot right after a free one is the first slot of its holder's rank. */
  lemma {:induction false} SlotAfterFree(at: seq<int>, bh: seq<int>, H: int, prm0: seq<int>, i: int,
                                         prm: seq<int>, count: seq<int>, owner: seq<int>, slot: int)
    requires Table(at, bh, H, prm0, i, prm, count, owner)
    requires 0 <= slot && slot + 1 < |at| && owner[slot] == -1 && owner[slot + 1] != -1
    ensures 0 <= owner[slot + 1] < |at| && prm0[owner[slot + 1]] == slot + 1
  {
    SlotIs(at, bh, H, prm0, i, prm, count, owner, slot + 1);
    var S := prm0[owner[slot + 1]];
    if S <= slot {
      RankIs(at, bh, H, prm0, i, prm, count, owner, S, slot);
      assert false;
    }
  }

  /** Offset t, whose successor sits at index i of the bucket headed by b, taking the free
      slot and marking it keeps the marks of the move phase. */
  lemma {:induction false} PhaseTaken(at: seq<int>, bh: seq<int>, H: int, prm0: seq<int>, b: int, i: int,
                                      prm: seq<int>, count: seq<int>, owner: seq<int>, b2h: seq<int>,
                                      t: int, slot: int, owner2: seq<int>, b2h2: seq<int>)
    requires Table(at, bh, H, prm0, i, prm, count, owner)
    requires MovePhase(at, bh, H, prm0, b, owner, b2h)
    requires 0 <= t && t + H < |at| && at[t + H] == i && b <= i
    requires 0 <= slot < |at| && owner[slot] == -1
    requires owner2 == owner[slot := t] && b2h2 == b2h[slot := 1]
    ensures MovePhase(at, bh, H, prm0, b, owner2, b2h2)
  {
    forall v | 0 <= v < |at|
      ensures b2h2[v] == 1 <==> MoveMark(at, bh, H, prm0, b, owner2, v)
    {
      if v != slot {
        assert b2h2[v] == b2h[v] && owner2[v] == owner[v];
        assert b2h[v] == 1 <==> MoveMark(at, bh, H, prm0, b, owner, v);
        if v == slot + 1 && owner[v] != -1 {
          SlotAfterFree(at, bh, H, prm0, i, prm, count, owner, slot);
        }
        assert v > 0 && v - 1 != slot ==> owner2[v - 1] == owner[v - 1];
      }
    }
  }

  /** Visiting an index whose offset q has no predecessor keeps the block. */
  lemma {:induction false} BlockSkip(at: seq<int>, H: int, prm0: seq<int>, b: int, i: int, prm: seq<int>, count: seq<int>,
                                     c0: seq<int>, q: int)
    requires Indexing(at) && Block(at, H, prm0, b, i, prm, count, c0)
    requires 0 <= q < |at| && q < H && at[q] == i
    ensures Block(at, H, prm0, b, i + 1, prm, count, c0)
  {
    forall t | 0 <= t < |at| && Moved(at, H, i + 1, t)
      ensures 0 <= prm0[t] < |at| ==> (at[t + H] >= b <==> prm[t] >= prm0[t] + c0[prm0[t]])
    {
      assert at[t + H] != at[q];
      assert Moved(at, H, i, t);
    }
  }

  /** The move at index i of a reset state keeps the block and the marks of the move phase
      for the bucket headed by b. */
  lemma MarksTaken(pos: seq<int>, at: seq<int>, bh: seq<int>, H: int, prm0: seq<int>, b: int, i: int,
                   prm: seq<int>, count: seq<int>, owner: seq<int>, b2h: seq<int>, c0: seq<int>, t: int, S: int, slot: int,
                   prm2: seq<int>, count2: seq<int>, owner2: seq<int>, b2h2: seq<int>)
    requires ResetState(pos, prm0, bh) && at == Positions(pos) && H >= 1
    requires Safe(pos, H, prm0, i, prm, count)
    requires MoveInv(at, bh, H, prm0, i, prm, count, owner)
    requires 0 <= i < |pos| && t == pos[i] - H && t >= 0 && b <= i
    requires Block(at, H, prm0, b, i, prm, count, c0) && MovePhase(at, bh, H, prm0, b, owner, b2h)
    requires S == prm[t] && slot == S + count[S] && slot < |pos|
    requires prm2 == prm[t := slot] && count2 == count[S := count[S] + 1]
    requires owner2 == owner[slot := t] && b2h2 == b2h[slot := 1]
    ensures Block(at, H, prm0, b, i + 1, prm2, count2, c0) && MovePhase(at, bh, H, prm0, b, owner2, b2h2)
  {
    MoveSlot(pos, at, bh, H, prm0, i, prm, count, owner, t);
    FreeSlot(at, bh, H, prm0, i, prm, count, owner, t);
    BlockTaken(at, H, prm0, b, i, prm, count, owner, c0, t, S, slot, prm2, count2, owner2);
    TableOf(at, bh, H, prm0, i, prm, count, owner);
    PhaseTaken(at, bh, H, prm0, b, i, prm, count, owner, b2h, t, slot, owner2, b2h2);
  }

  /** The move at index i of a reset state finds its offset t still at its bucket start,
      with room left in the bucket. */
  lemma MoveSlot(pos: seq<int>, at: seq<int>, bh: seq<int>, H: int, prm0: seq<int>, i: int,
                 prm: seq<int>, count: seq<int>, owner: seq<int>, t: int)
    requires ResetState(pos, prm0, bh) && at == Positions(pos) && H >= 1
    requires Safe(pos, H, prm0, i, prm, count)
    requires MoveInv(at, bh, H, prm0, i, prm, count, owner)
    requires 0 <= i < |pos| && t == pos[i] - H && t >= 0
    ensures Indexing(at) && RanksAreStarts(at, prm0, bh)
    ensures t + H < |at| && at[t + H] == i && !Moved(at, H, i, t)
    ensures prm[t] == prm0[t] && 0 <= prm[t] < |pos| && prm[t] + count[prm[t]] < |pos|
  {
    MoveFits(pos, at, bh, H, prm0, i, prm, count, owner, t);
    ResetIndexing(pos, prm0, bh);
    assert at[t + H] == i;
  }

  /** The next slot of an unmoved offset's rank is free. */
  lemma FreeSlot(at: seq<int>, bh: seq<int>, H: int, prm0: seq<int>, i: int,
                 prm: seq<int>, count: seq<int>, owner: seq<int>, t: int)
    requires MoveInv(at, bh, H, prm0, i, prm, count, owner)
    requires Indexing(at) && RanksAreStarts(at, prm0, bh)
    requires 0 <= t < |at| && !Moved(at, H, i, t)
    ensures prm0[t] + count[prm0[t]] < |at| && owner[prm0[t] + count[prm0[t]]] == -1
  {
    SlotBound(at, bh, H, prm0, i, prm, count, owner, t);
    SlotFree(at, bh, H, prm0, i, prm, count, owner, t);
  }

  /** Visiting an index of a reset state whose offset has no predecessor keeps the block. */
  lemma MarksSkip(pos: seq<int>, at: seq<int>, bh: seq<int>, H: int, prm0: seq<int>, b: int, i: int,
                  prm: seq<int>, count: seq<int>, c0: seq<int>)
    requires ResetState(pos, prm0, bh) && at == Positions(pos)
    requires Block(at, H, prm0, b, i, prm, count, c0)
    requires 0 <= i < |pos| && pos[i] < H
    ensures Block(at, H, prm0, b, i + 1, prm, count, c0)
  {
    ResetIndexing(pos, prm0, bh);
    BlockSkip(at, H, prm0, b, i, prm, count, c0, pos[i]);
  }

  /** A moved offset whose successor lies in the bucket holds one of the slots its rank took
      from the bucket. */
  lemma {:induction false} InGroup(at: seq<int>, bh: seq<int>, H: int, prm0: seq<int>, l: int, r: int,
                                   prm: seq<int>, count: seq<int>, owner: seq<int>, c0: seq<int>, o: int)
    requires AfterMoves(at, bh, H, prm0, l, r, prm, count, owner, c0)
    requires 0 <= o < |at| && Moved(at, H, r + 1, o) && at[o + H] >= l
    ensures 0 <= prm0[o] < |at| && prm0[o] + c0[prm0[o]] <= prm[o] < prm0[o] + count[prm0[o]] <= |at|
    ensures 0 <= prm[o] < |at| && owner[prm[o]] == o
  {
    OffsetIs(at, bh, H, prm0, r + 1, prm, count, owner, o);
    SlotIs(at, bh, H, prm0, r + 1, prm, count, owner, prm[o]);
  }

  /** The first slot rank S took from the bucket is held by an offset of rank S whose
      successor lies in the bucket. */
  lemma {:induction false} FirstOfGroup(at: seq<int>, bh: seq<int>, H: int, prm0: seq<int>, l: int, r: int,
                                        prm: seq<int>, count: seq<int>, owner: seq<int>, c0: seq<int>, S: int)
    requires AfterMoves(at, bh, H, prm0, l, r, prm, count, owner, c0)
    requires 0 <= S < |at| && c0[S] < count[S]
    ensures 0 <= S + c0[S] < |at|
    ensures 0 <= owner[S + c0[S]] < |at| && prm0[owner[S + c0[S]]] == S && prm[owner[S + c0[S]]] == S + c0[S]
    ensures Moved(at, H, r + 1, owner[S + c0[S]]) && at[owner[S + c0[S]] + H] >= l
  {
    var w := S + c0[S];
    RankIs(at, bh, H, prm0, r + 1, prm, count, owner, S, w);
    SlotIs(at, bh, H, prm0, r + 1, prm, count, owner, w);
  }

  /** A slot its rank took from the bucket [l, r] after the rank's first slot shares its
      group with the slot before it exactly when that slot, too, was taken from the bucket. */
  lemma {:induction false} PrevInGroup(at: seq<int>, bh: seq<int>, H: int, prm0: seq<int>, l: int, r: int,
                                       prm: seq<int>, count: seq<int>, owner: seq<int>, c0: seq<int>, o: int)
    requires AfterMoves(at, bh, H, prm0, l, r, prm, count, owner, c0)
    requires 0 <= o < |at| && Moved(at, H, r + 1, o) && at[o + H] >= l && prm0[o] < prm[o]
    ensures 0 <= prm0[o] < |at| && 1 <= prm[o] < |at|
    ensures SameGroup(at, bh, H, prm0, owner[prm[o] - 1], o) <==> prm[o] - 1 >= prm0[o] + c0[prm0[o]]
  {
    InGroup(at, bh, H, prm0, l, r, prm, count, owner, c0, o);
    var S, v := prm0[o], prm[o];
    assert BucketStart(bh, at[o + H]) == l;
    var o' := owner[v - 1];
    RankIs(at, bh, H, prm0, r + 1, prm, count, owner, S, v - 1);
    SlotIs(at, bh, H, prm0, r + 1, prm, count, owner, v - 1);
    if v - 1 >= S + c0[S] {
      assert BucketStart(bh, at[o' + H]) == l;
    } else {
      assert BucketStart(bh, at[o' + H]) <= at[o' + H] < l;
    }
  }

  /** A slot its rank took from the bucket [l, r] starts its group exactly when it is the
      first slot that rank took from the bucket. */
  lemma {:induction false} HeadIsFirst(at: seq<int>, bh: seq<int>, H: int, prm0: seq<int>, l: int, r: int,
                                       prm: seq<int>, count: seq<int>, owner: seq<int>, c0: seq<int>, o: int)
    requires AfterMoves(at, bh, H, prm0, l, r, prm, count, owner, c0)
    requires 0 <= o < |at| && Moved(at, H, r + 1, o) && at[o + H] >= l
    ensures 0 <= prm0[o] < |at| && 0 <= prm[o] < |at| && owner[prm[o]] == o
    ensures GroupHead(at, bh, H, prm0, owner, prm[o]) <==> prm[o] == prm0[o] + c0[prm0[o]]
  {
    InGroup(at, bh, H, prm0, l, r, prm, count, owner, c0, o);
    if prm0[o] < prm[o] {
      PrevInGroup(at, bh, H, prm0, l, r, prm, count, owner, c0, o);
    }
  }

  /** Once the moves for the bucket are made, the marks are those the clearing pass starts
      from. */
  lemma {:induction false} ClearStart(at: seq<int>, bh: seq<int>, H: int, prm0: seq<int>, l: int, r: int,
                                      prm: seq<int>, count: seq<int>, owner: seq<int>, c0: seq<int>, b2h: seq<int>)
    requires AfterMoves(at, bh, H, prm0, l, r, prm, count, owner, c0)
    requires MovePhase(at, bh, H, prm0, l, owner, b2h)
    ensures ClearPhase(at, bh, H, prm0, l, l, owner, c0, b2h)
  {
    forall v | 0 <= v < |at|
      ensures b2h[v] == 1 <==> ClearMark(at, bh, H, prm0, l, l, owner, c0, v)
    {
      assert b2h[v] == 1 <==> MoveMark(at, bh, H, prm0, l, owner, v);
      var o := owner[v];
      if o != -1 {
        SlotIs(at, bh, H, prm0, r + 1, prm, count, owner, v);
        if at[o + H] >= l {
          InGroup(at, bh, H, prm0, l, r, prm, count, owner, c0, o);
          FirstOfGroup(at, bh, H, prm0, l, r, prm, count, owner, c0, prm0[o]);
        }
      }
    }
  }

  /** Once every index of the bucket [l, r] is visited, the marks are those of the move
      phase of the next bucket. */
  lemma {:induction false} ClearEnd(at: seq<int>, bh: seq<int>, H: int, prm0: seq<int>, l: int, r: int,
                                    prm: seq<int>, count: seq<int>, owner: seq<int>, c0: seq<int>, b2h: seq<int>)
    requires AfterMoves(at, bh, H, prm0, l, r, prm, count, owner, c0)
    requires ClearPhase(at, bh, H, prm0, l, r + 1, owner, c0, b2h)
    ensures MovePhase(at, bh, H, prm0, r + 1, owner, b2h)
  {
    forall v | 0 <= v < |at|
      ensures b2h[v] == 1 <==> MoveMark(at, bh, H, prm0, r + 1, owner, v)
    {
      assert b2h[v] == 1 <==> ClearMark(at, bh, H, prm0, l, r + 1, owner, c0, v);
      var o := owner[v];
      if o != -1 {
        SlotIs(at, bh, H, prm0, r + 1, prm, count, owner, v);
        if at[o + H] >= l {
          InGroup(at, bh, H, prm0, l, r, prm, count, owner, c0, o);
          HeadIsFirst(at, bh, H, prm0, l, r, prm, count, owner, c0, o);
          FirstOfGroup(at, bh, H, prm0, l, r, prm, count, owner, c0, prm0[o]);
        }
      }
    }
  }

  /** The holder of the first slot a rank took from the bucket comes first among the
      offsets of that rank whose successors lie in the bucket. */
  lemma {:induction false} FirstPrecedes(at: seq<int>, bh: seq<int>, H: int, prm0: seq<int>, l: int, r: int,
                                         prm: seq<int>, count: seq<int>, owner: seq<int>, c0: seq<int>, t: int)
    requires AfterMoves(at, bh, H, prm0, l, r, prm, count, owner, c0)
    requires 0 <= t < |at| && Moved(at, H, r + 1, t) && at[t + H] >= l
    ensures 0 <= prm0[t] < |at| && 0 <= prm0[t] + c0[prm0[t]] < |at|
    ensures var w := prm0[t] + c0[prm0[t]];
      0 <= owner[w] && owner[w] + H < |at| && (prm[t] == w || at[owner[w] + H] < at[t + H])
  {
    InGroup(at, bh, H, prm0, l, r, prm, count, owner, c0, t);
    var S := prm0[t];
    FirstOfGroup(at, bh, H, prm0, l, r, prm, count, owner, c0, S);
    if prm[t] != S + c0[S] {
      SlotOrder(at, bh, H, prm0, r + 1, prm, count, owner, owner[S + c0[S]], t);
    }
  }

  /** The slot after the ones rank S has taken is free while it lies in S's bucket. */
  lemma FreeAfter(at: seq<int>, bh: seq<int>, H: int, prm0: seq<int>, i: int,
                  prm: seq<int>, count: seq<int>, owner: seq<int>, S: int)
    requires Keyed(at, bh, prm0) && Table(at, bh, H, prm0, i, prm, count, owner)
    requires 0 <= S < |at| && (S == 0 || bh[S] == 1) && S + count[S] <= BucketEnd(bh, S)
    ensures owner[S + count[S]] == -1
  {
    var slot := S + count[S];
    if owner[slot] != -1 {
      SlotIs(at, bh, H, prm0, i, prm, count, owner, slot);
      var o := owner[slot];
      assert KeyOf(at, bh, prm0, o);
      SameBucket(bh, at[o], slot);
      assert BucketStart(bh, S) == S;
      SameBucket(bh, S, slot);
      assert false;
    }
  }

  /** Visiting index i at slot prm[t] with a mark: prm[t] is the first slot t's rank took
      from the bucket. */
  lemma {:induction false} RunHead(at: seq<int>, bh: seq<int>, H: int, prm0: seq<int>, l: int, r: int, i: int,
                                   prm: seq<int>, count: seq<int>, owner: seq<int>, c0: seq<int>, b2h: seq<int>, t: int)
    requires AfterMoves(at, bh, H, prm0, l, r, prm, count, owner, c0)
    requires ClearPhase(at, bh, H, prm0, l, i, owner, c0, b2h)
    requires l <= i <= r && 0 <= t && t + H < |at| && at[t + H] == i
    requires 0 <= prm[t] < |at| && b2h[prm[t]] == 1
    ensures 0 <= prm0[t] < |at| && prm[t] == prm0[t] + c0[prm0[t]] < prm0[t] + count[prm0[t]] <= |bh|
    ensures owner[prm[t]] == t
  {
    assert Moved(at, H, r + 1, t);
    InGroup(at, bh, H, prm0, l, r, prm, count, owner, c0, t);
    FirstPrecedes(at, bh, H, prm0, l, r, prm, count, owner, c0, t);
    assert b2h[prm[t]] == 1 <==> ClearMark(at, bh, H, prm0, l, i, owner, c0, prm[t]);
  }

  /** The slots t's rank took from the bucket after the first are marked non-heads. */
  lemma {:induction false} RunBody(at: seq<int>, bh: seq<int>, H: int, prm0: seq<int>, l: int, r: int, i: int,
                                   prm: seq<int>, count: seq<int>, owner: seq<int>, c0: seq<int>, b2h: seq<int>, t: int)
    requires AfterMoves(at, bh, H, prm0, l, r, prm, count, owner, c0) && Bits(bh)
    requires ClearPhase(at, bh, H, prm0, l, i, owner, c0, b2h)
    requires l <= i <= r && 0 <= t && t + H < |at| && at[t + H] == i
    requires 0 <= prm0[t] < |at| && 0 <= prm[t] < |at| && prm[t] == prm0[t] + c0[prm0[t]] && owner[prm[t]] == t
    ensures forall m :: prm[t] < m < prm0[t] + count[prm0[t]] ==> 0 <= m < |bh| && bh[m] == 0 && b2h[m] == 1
  {
    var S := prm0[t];
    forall m | prm[t] < m < S + count[S]
      ensures 0 <= m < |bh| && bh[m] == 0 && b2h[m] == 1
    {
      RankIs(at, bh, H, prm0, r + 1, prm, count, owner, S, m);
      SlotIs(at, bh, H, prm0, r + 1, prm, count, owner, m);
      assert b2h[m] == 1 <==> ClearMark(at, bh, H, prm0, l, i, owner, c0, m);
    }
  }

  /** Visiting index i at slot prm[t] with a mark: prm[t] is the first slot t's rank took
      from the bucket, the other slots it took follow as marked non-heads, and the slot
      after them is the end, a head, or unmarked. So the run the clearing pass clears is
      exactly the rest of t's group. */
  lemma {:induction false} RunFacts(at: seq<int>, bh: seq<int>, H: int, prm0: seq<int>, l: int, r: int, i: int,
                                    prm: seq<int>, count: seq<int>, owner: seq<int>, c0: seq<int>, b2h: seq<int>, t: int)
    requires AfterMoves(at, bh, H, prm0, l, r, prm, count, owner, c0) && Bits(bh)
    requires ClearPhase(at, bh, H, prm0, l, i, owner, c0, b2h)
    requires l <= i <= r && 0 <= t && t + H < |at| && at[t + H] == i
    requires 0 <= prm[t] < |at| && b2h[prm[t]] == 1
    ensures 0 <= prm0[t] < |at| && prm[t] == prm0[t] + c0[prm0[t]] < prm0[t] + count[prm0[t]] <= |bh|
    ensures forall m :: prm[t] < m < prm0[t] + count[prm0[t]] ==> bh[m] == 0 && b2h[m] == 1
    ensures var E := prm0[t] + count[prm0[t]]; E == |bh| || bh[E] != 0 || b2h[E] != 1
  {
    RunHead(at, bh, H, prm0, l, r, i, prm, count, owner, c0, b2h, t);
    RunBody(at, bh, H, prm0, l, r, i, prm, count, owner, c0, b2h, t);
    RunTail(at, bh, H, prm0, l, r, i, prm, count, owner, c0, b2h, t);
  }

  /** The slot just past t's group is a bucket head or still carries no mark. */
  lemma {:induction false} RunTail(at: seq<int>, bh: seq<int>, H: int, prm0: seq<int>, l: int, r: int, i: int,
                                   prm: seq<int>, count: seq<int>, owner: seq<int>, c0: seq<int>, b2h: seq<int>, t: int)
    requires AfterMoves(at, bh, H, prm0, l, r, prm, count, owner, c0) && Bits(bh)
    requires ClearPhase(at, bh, H, prm0, l, i, owner, c0, b2h)
    requires l <= i <= r && 0 <= t && t + H < |at| && at[t + H] == i
    requires 0 <= prm0[t] < |at| && 0 <= prm[t] < |at| && prm[t] == prm0[t] + c0[prm0[t]] && owner[prm[t]] == t
    ensures var E := prm0[t] + count[prm0[t]]; E == |bh| || bh[E] != 0 || b2h[E] != 1
  {
    assert Moved(at, H, r + 1, t);
    var S := prm0[t];
    var E := S + count[S];
    if E < |bh| {
      if E <= BucketEnd(bh, S) {
        assert KeyOf(at, bh, prm0, t);
        FreeAfter(at, bh, H, prm0, r + 1, prm, count, owner, S);
        assert b2h[E] == 1 <==> ClearMark(at, bh, H, prm0, l, i, owner, c0, E);
      } else {
        RankIs(at, bh, H, prm0, r + 1, prm, count, owner, S, E - 1);
        SlotIs(at, bh, H, prm0, r + 1, prm, count, owner, E - 1);
      }
    }
  }

  /** How visiting index i, which lists offset q, changes the clearing marks: when q has a
      predecessor holding the first slot its rank took from the bucket, the other slots of
      that group lose their mark; nothing else changes. */
  lemma {:induction false} VisitMark(at: seq<int>, bh: seq<int>, H: int, prm0: seq<int>, l: int, r: int, i: int,
                                     prm: seq<int>, count: seq<int>, owner: seq<int>, c0: seq<int>, q: int, v: int)
    requires AfterMoves(at, bh, H, prm0, l, r, prm, count, owner, c0)
    requires l <= i <= r && 0 <= q < |at| && at[q] == i && 0 <= v < |at|
    ensures q >= H ==> 0 <= prm0[q - H] < |at|
    ensures ClearMark(at, bh, H, prm0, l, i + 1, owner, c0, v) <==>
      && ClearMark(at, bh, H, prm0, l, i, owner, c0, v)
      && !(q >= H && prm[q - H] == prm0[q - H] + c0[prm0[q - H]] && prm[q - H] < v < prm0[q - H] + count[prm0[q - H]])
  {
    if q >= H {
      var t := q - H;
      assert at[t + H] == i && Moved(at, H, r + 1, t);
      InGroup(at, bh, H, prm0, l, r, prm, count, owner, c0, t);
      var S := prm0[t];
      if prm[t] < v < S + count[S] {
        RankIs(at, bh, H, prm0, r + 1, prm, count, owner, S, v);
      }
    }
    var o := owner[v];
    if o != -1 {
      SlotIs(at, bh, H, prm0, r + 1, prm, count, owner, v);
      if at[o + H] >= l {
        InGroup(at, bh, H, prm0, l, r, prm, count, owner, c0, o);
        FirstOfGroup(at, bh, H, prm0, l, r, prm, count, owner, c0, prm0[o]);
        var w := owner[prm0[o] + c0[prm0[o]]];
        assert Apart(at, w + H, q);
      }
    }
  }

  /** Clearing the rest of t's group when t, listed at index i, holds its group's first
      slot moves the clearing pass past index i. */
  lemma {:induction false} ClearLeadStep(at: seq<int>, bh: seq<int>, H: int, prm0: seq<int>, l: int, r: int, i: int,
                                         prm: seq<int>, count: seq<int>, owner: seq<int>, c0: seq<int>,
                                         b2h: seq<int>, t: int, cleared: seq<int>)
    requires AfterMoves(at, bh, H, prm0, l, r, prm, count, owner, c0)
    requires ClearPhase(at, bh, H, prm0, l, i, owner, c0, b2h)
    requires l <= i <= r && 0 <= t && t + H < |at| && at[t + H] == i
    requires 0 <= prm0[t] < |at| && prm[t] == prm0[t] + c0[prm0[t]]
    requires |cleared| == |b2h|
    requires forall k :: 0 <= k < |b2h| ==>
      cleared[k] == if prm[t] < k < prm0[t] + count[prm0[t]] then 0 else b2h[k]
    ensures ClearPhase(at, bh, H, prm0, l, i + 1, owner, c0, cleared)
  {
    forall v | 0 <= v < |at|
      ensures cleared[v] == 1 <==> ClearMark(at, bh, H, prm0, l, i + 1, owner, c0, v)
    {
      VisitMark(at, bh, H, prm0, l, r, i, prm, count, owner, c0, t + H, v);
      assert b2h[v] == 1 <==> ClearMark(at, bh, H, prm0, l, i, owner, c0, v);
    }
  }

  /** Visiting index i, which lists q, without clearing (q has no predecessor, or its
      predecessor's slot is unmarked) moves the clearing pass past index i. */
  lemma {:induction false} ClearSkipStep(at: seq<int>, bh: seq<int>, H: int, prm0: seq<int>, l: int, r: int, i: int,
                                         prm: seq<int>, count: seq<int>, owner: seq<int>, c0: seq<int>,
                                         b2h: seq<int>, q: int)
    requires AfterMoves(at, bh, H, prm0, l, r, prm, count, owner, c0)
    requires ClearPhase(at, bh, H, prm0, l, i, owner, c0, b2h)
    requires l <= i <= r && 0 <= q < |at| && at[q] == i
    requires q >= H ==> 0 <= prm[q - H] < |at| && b2h[prm[q - H]] != 1
    ensures ClearPhase(at, bh, H, prm0, l, i + 1, owner, c0, b2h)
  {
    if q >= H {
      var t := q - H;
      assert at[t + H] == i && Moved(at, H, r + 1, t);
      InGroup(at, bh, H, prm0, l, r, prm, count, owner, c0, t);
      assert b2h[prm[t]] == 1 <==> ClearMark(at, bh, H, prm0, l, i, owner, c0, prm[t]);
    }
    forall v | 0 <= v < |at|
      ensures b2h[v] == 1 <==> ClearMark(at, bh, H, prm0, l, i + 1, owner, c0, v)
    {
      VisitMark(at, bh, H, prm0, l, r, i, prm, count, owner, c0, q, v);
      assert b2h[v] == 1 <==> ClearMark(at, bh, H, prm0, l, i, owner, c0, v);
    }
  }

  /** The index of every offset and the offset at every index agree, and pos[x] has a
      predecessor that the table has moved. */
  ghost predicate Listed(pos: seq<int>, at: seq<int>, bh: seq<int>, H: int, prm0: seq<int>,
                         prm: seq<int>, count: seq<int>, owner: seq<int>, x: int) {
    && Keyed(at, bh, prm0) && Table(at, bh, H, prm0, |pos|, prm, count, owner)
    && |pos| == |at| && (forall y :: 0 <= y < |pos| ==> 0 <= pos[y] < |pos| && at[pos[y]] == y)
    && (forall t :: 0 <= t < |at| ==> pos[at[t]] == t)
    && 0 <= x < |pos| && pos[x] >= H
  }

  /** An offset holding the first slot of its rank has its successor's index leading. */
  lemma {:induction false} FirstLeads(pos: seq<int>, at: seq<int>, bh: seq<int>, H: int, prm0: seq<int>,
                                      prm: seq<int>, count: seq<int>, owner: seq<int>, x: int)
    requires Listed(pos, at, bh, H, prm0, prm, count, owner, x)
    requires prm[pos[x] - H] == prm0[pos[x] - H]
    ensures Leads(pos, bh, H, prm0, x)
  {
    var t := pos[x] - H;
    var S := prm0[t];
    assert at[t + H] == x && Moved(at, H, |pos|, t);
    forall y | BucketStart(bh, x) <= y < x && pos[y] >= H
      ensures prm0[pos[y] - H] != S
    {
      var t' := pos[y] - H;
      assert at[t' + H] == y && Moved(at, H, |pos|, t');
      if prm0[t'] == S {
        assert InOrder(at, H, prm0, |pos|, prm, t', t);
        OffsetIs(at, bh, H, prm0, |pos|, prm, count, owner, t');
        SlotIs(at, bh, H, prm0, |pos|, prm, count, owner, prm[t']);
        assert false;
      }
    }
  }

  /** An offset holding a later slot of its rank, after the slot of o', has its successor's
      index leading exactly when o' lies outside its group. */
  lemma {:induction false} LaterLeads(pos: seq<int>, at: seq<int>, bh: seq<int>, H: int, prm0: seq<int>,
                                      prm: seq<int>, count: seq<int>, owner: seq<int>, x: int, o': int)
    requires Listed(pos, at, bh, H, prm0, prm, count, owner, x)
    requires 0 <= o' < |at| && Moved(at, H, |pos|, o') && prm0[o'] == prm0[pos[x] - H]
    requires prm[o'] + 1 == prm[pos[x] - H] && 0 <= prm[o'] < |at| && owner[prm[o']] == o'
    ensures !SameGroup(at, bh, H, prm0, o', pos[x] - H) <==> Leads(pos, bh, H, prm0, x)
  {
    var t := pos[x] - H;
    var S := prm0[t];
    assert at[t + H] == x && Moved(at, H, |pos|, t);
    SlotOrder(at, bh, H, prm0, |pos|, prm, count, owner, o', t);
    var y' := at[o' + H];
    assert pos[y'] == o' + H;
    WithinOwnBucket(bh, x);
    forall y | BucketStart(bh, x) <= y < x && pos[y] >= H
      ensures prm0[pos[y] - H] != S || SameGroup(at, bh, H, prm0, o', t)
    {
      var t' := pos[y] - H;
      if prm0[t'] == S {
        assert at[t' + H] == y && Moved(at, H, |pos|, t');
        assert InOrder(at, H, prm0, |pos|, prm, t', t);
        OffsetIs(at, bh, H, prm0, |pos|, prm, count, owner, t');
        if t' != o' {
          SlotOrder(at, bh, H, prm0, |pos|, prm, count, owner, t', o');
        }
        SameBucket(bh, x, y');
      }
    }
  }

  /** HeadLeads for an offset that holds a later slot of its rank: the slot before it
      decides. */
  lemma {:induction false} LaterHead(pos: seq<int>, at: seq<int>, bh: seq<int>, H: int, prm0: seq<int>,
                                     prm: seq<int>, count: seq<int>, owner: seq<int>, x: int)
    requires Listed(pos, at, bh, H, prm0, prm, count, owner, x)
    requires prm0[pos[x] - H] < prm[pos[x] - H]
    ensures 1 <= prm[pos[x] - H] < |pos| && owner[prm[pos[x] - H]] == pos[x] - H
    ensures GroupHead(at, bh, H, prm0, owner, prm[pos[x] - H]) <==> Leads(pos, bh, H, prm0, x)
  {
    var t := pos[x] - H;
    assert at[t + H] == x && Moved(at, H, |pos|, t);
    OffsetIs(at, bh, H, prm0, |pos|, prm, count, owner, t);
    var S, v := prm0[t], prm[t];
    SlotIs(at, bh, H, prm0, |pos|, prm, count, owner, v);
    RankIs(at, bh, H, prm0, |pos|, prm, count, owner, S, v - 1);
    SlotIs(at, bh, H, prm0, |pos|, prm, count, owner, v - 1);
    LaterLeads(pos, at, bh, H, prm0, prm, count, owner, x, owner[v - 1]);
  }

  /** Once every bucket is scanned, the slot of the offset listed at x, less H, starts its
      group exactly when x leads. */
  lemma HeadLeads(pos: seq<int>, at: seq<int>, bh: seq<int>, H: int, prm0: seq<int>,
                  prm: seq<int>, count: seq<int>, owner: seq<int>, x: int)
    requires Listed(pos, at, bh, H, prm0, prm, count, owner, x)
    ensures 0 <= prm[pos[x] - H] < |pos| && owner[prm[pos[x] - H]] == pos[x] - H
    ensures GroupHead(at, bh, H, prm0, owner, prm[pos[x] - H]) <==> Leads(pos, bh, H, prm0, x)
  {
    var t := pos[x] - H;
    assert at[t + H] == x && Moved(at, H, |pos|, t);
    OffsetIs(at, bh, H, prm0, |pos|, prm, count, owner, t);
    if prm0[t] < prm[t] {
      LaterHead(pos, at, bh, H, prm0, prm, count, owner, x);
    } else {
      SlotIs(at, bh, H, prm0, |pos|, prm, count, owner, prm[t]);
      FirstLeads(pos, at, bh, H, prm0, prm, count, owner, x);
    }
  }

  /** The marks of the move phase after the last bucket, read through pos. */
  lemma FactsLead(pos: seq<int>, at: seq<int>, bh: seq<int>, H: int, prm0: seq<int>,
                  prm: seq<int>, count: seq<int>, owner: seq<int>, b2h: seq<int>)
    requires ResetState(pos, prm0, bh) && at == Positions(pos)
    requires Table(at, bh, H, prm0, |pos|, prm, count, owner)
    requires MovePhase(at, bh, H, prm0, |pos|, owner, b2h)
    requires forall t :: 0 <= t < |pos| ==> 0 <= prm[t] < |pos|
    ensures LeadMarks(pos, bh, H, prm0, Scan(prm, count, b2h))
  {
    KeyedOf(pos, prm0, bh);
    forall x | 0 <= x < |pos| && pos[x] >= H
      ensures b2h[prm[pos[x] - H]] == 1 <==> Leads(pos, bh, H, prm0, x)
    {
      assert Listed(pos, at, bh, H, prm0, prm, count, owner, x);
      HeadLeads(pos, at, bh, H, prm0, prm, count, owner, x);
      var v := prm[pos[x] - H];
      assert at[pos[x]] == x;
      assert b2h[v] == 1 <==> MoveMark(at, bh, H, prm0, |pos|, owner, v);
    }
  }
}
