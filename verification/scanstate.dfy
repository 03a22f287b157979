/** The bookkeeping of the bucket scan (lines 165-226): what every scan state keeps, the
    move bookkeeping of a scan from a reset state, the lemmas that carry both across one
    step, and what they give once every bucket has been scanned. */
module ScanState {
  import opened Counting
  import opened Buckets

  /** The arrays one scan produces: new ranks, per-slot counters and new head marks. */
  datatype Scan = Scan(prm: seq<int>, count: seq<int>, b2h: seq<int>)

  /** Every entry is a 0/1 flag. */
  predicate Bits(a: seq<int>) {
    forall v :: 0 <= v < |a| ==> 0 <= a[v] <= 1
  }

  /** What every scan state keeps, whatever its input: the shapes, ranks that only grow
      and stay below len, non-negative counters, and an unchanged rank for every offset t
      whose successor t + H is not among the visited pos[..i]. */
  predicate Safe(pos: seq<int>, H: int, prm0: seq<int>, i: int, prm: seq<int>, count: seq<int>) {
    && 0 <= i <= |pos|
    && |prm0| == |pos| && |prm| == |pos| && |count| == |pos|
    && (forall x :: 0 <= x < |pos| ==> 0 <= pos[x] < |pos|)
    && (forall t :: 0 <= t < |pos| ==> 0 <= prm0[t] <= prm[t] < |pos|)
    && (forall v :: 0 <= v < |pos| ==> 0 <= count[v])
    && (forall t :: 0 <= t < |pos| && t + H !in pos[..i] ==> prm[t] == prm0[t])
  }

  /** The state a scan is meant for: pos lists every offset once, and the rank of the
      offset listed at x is the head of the bucket holding x. */
  predicate ResetState(pos: seq<int>, prm0: seq<int>, bh: seq<int>) {
    && 1 <= |bh| && bh[0] == 1
    && IsPermutation(pos, |bh|) && |prm0| == |bh|
    && (forall x :: 0 <= x < |pos| ==> prm0[pos[x]] == BucketStart(bh, x))
  }

  /** The index of every offset in a permutation. */
  ghost function Positions(pos: seq<int>): (at: seq<int>)
    requires IsPermutation(pos, |pos|)
    ensures |at| == |pos|
    ensures forall t :: 0 <= t < |pos| ==> 0 <= at[t] < |pos| && pos[at[t]] == t
    ensures forall x :: 0 <= x < |pos| ==> at[pos[x]] == x
  {
    var at := seq(|pos|, t requires 0 <= t < |pos| => IndexOf(pos, t));
    assert forall x :: 0 <= x < |pos| ==> at[pos[x]] == x by {
      forall x | 0 <= x < |pos|
        ensures at[pos[x]] == x
      {
        IndexOfDistinct(pos, x);
      }
    }
    at
  }

  /** Offset t has been moved once its successor's index is below i. */
  predicate Moved(at: seq<int>, H: int, i: int, t: int) {
    0 <= t && 0 <= t + H < |at| && at[t + H] < i
  }

  /** The lengths and ranges the move bookkeeping relies on. */
  ghost predicate Shapes(at: seq<int>, bh: seq<int>, prm0: seq<int>, prm: seq<int>, count: seq<int>, owner: seq<int>) {
    && |bh| == |at| && |prm0| == |at| && |prm| == |at| && |count| == |at| && |owner| == |at|
    && (forall t :: 0 <= t < |at| ==> 0 <= prm0[t] < |at| && 0 <= count[t])
  }

  /** Each moved offset holds one of the slots taken so far in its own bucket. */
  ghost predicate Held(at: seq<int>, bh: seq<int>, H: int, prm0: seq<int>, i: int,
                       prm: seq<int>, count: seq<int>, owner: seq<int>)
    requires Shapes(at, bh, prm0, prm, count, owner)
  {
    forall t :: 0 <= t < |at| && Moved(at, H, i, t) ==>
      && prm0[t] <= prm[t] < prm0[t] + count[prm0[t]]
      && prm[t] <= BucketEnd(bh, prm0[t])
      && owner[prm[t]] == t
  }

  /** owner records, for each slot taken, the moved offset holding it. */
  ghost predicate Owners(at: seq<int>, H: int, i: int, prm: seq<int>, owner: seq<int>)
    requires |prm| == |at| && |owner| == |at|
  {
    forall v :: 0 <= v < |at| && owner[v] != -1 ==>
      0 <= owner[v] < |at| && Moved(at, H, i, owner[v]) && prm[owner[v]] == v
  }

  /** The first count[S] slots from every head S are taken by offsets of that bucket. */
  ghost predicate Filled(at: seq<int>, prm0: seq<int>, count: seq<int>, owner: seq<int>)
    requires |prm0| == |at| && |count| == |at| && |owner| == |at|
  {
    forall S :: 0 <= S < |at| ==>
      && S + count[S] <= |at|
      && forall v :: S <= v < S + count[S] ==> owner[v] != -1 && 0 <= owner[v] < |at| && prm0[owner[v]] == S
  }

  /** Within a bucket, slots follow the order of the successors' indices. */
  ghost predicate Ordered(at: seq<int>, H: int, prm0: seq<int>, i: int, prm: seq<int>)
    requires |prm0| == |at| && |prm| == |at|
  {
    forall t1, t2 ::
      (0 <= t1 < |at| && 0 <= t2 < |at| && Moved(at, H, i, t1) && Moved(at, H, i, t2) &&
       prm0[t1] == prm0[t2] && at[t1 + H] < at[t2 + H]) ==> prm[t1] < prm[t2]
  }

  /** The bookkeeping of the moves made for pos[..i] in a reset state. */
  ghost predicate MoveInv(at: seq<int>, bh: seq<int>, H: int, prm0: seq<int>, i: int,
                          prm: seq<int>, count: seq<int>, owner: seq<int>) {
    && Shapes(at, bh, prm0, prm, count, owner)
    && Held(at, bh, H, prm0, i, prm, count, owner)
    && Owners(at, H, i, prm, owner)
    && Filled(at, prm0, count, owner)
    && Ordered(at, H, prm0, i, prm)
  }

  /** Marks fall only on slots held by a moved offset, and the head of every bucket that
      received a move is marked. */
  ghost predicate Marks(b2h: seq<int>, count: seq<int>, owner: seq<int>) {
    && |b2h| == |count| && |owner| == |count|
    && (forall v :: 0 <= v < |b2h| && b2h[v] == 1 ==> owner[v] != -1)
    && (forall S :: 0 <= S < |count| && count[S] > 0 ==> b2h[S] == 1)
  }

  /** at sends the offsets injectively into [0, len). */
  ghost predicate Indexing(at: seq<int>) {
    && (forall t :: 0 <= t < |at| ==> 0 <= at[t] < |at|)
    && (forall t1, t2 :: 0 <= t1 < |at| && 0 <= t2 < |at| && at[t1] == at[t2] ==> t1 == t2)
  }

  /** The rank of every offset is the head of the bucket holding its index. */
  ghost predicate RanksAreStarts(at: seq<int>, prm0: seq<int>, bh: seq<int>)
    requires Indexing(at) && |prm0| == |at| && |bh| == |at|
  {
    forall o :: 0 <= o < |at| ==> prm0[o] == BucketStart(bh, at[o])
  }

  /** In a reset state, the index of every offset is an injective indexing and ranks are
      the heads of the buckets holding those indices. */
  lemma ResetIndexing(pos: seq<int>, prm0: seq<int>, bh: seq<int>)
    requires ResetState(pos, prm0, bh)
    ensures Indexing(Positions(pos)) && RanksAreStarts(Positions(pos), prm0, bh)
  {
    var at := Positions(pos);
    forall t1, t2 | 0 <= t1 < |at| && 0 <= t2 < |at| && at[t1] == at[t2]
      ensures t1 == t2
    {
      assert pos[at[t1]] == t1 && pos[at[t2]] == t2;
    }
    forall o | 0 <= o < |at|
      ensures prm0[o] == BucketStart(bh, at[o])
    {
      assert pos[at[o]] == o;
    }
  }

  /** The index of an offset lies in the bucket its rank heads. */
  lemma IndexInBucket(at: seq<int>, bh: seq<int>, prm0: seq<int>, o: int)
    requires Indexing(at) && |prm0| == |at| && |bh| == |at| && RanksAreStarts(at, prm0, bh)
    requires 0 <= o < |at|
    ensures prm0[o] <= at[o] <= BucketEnd(bh, prm0[o])
  {
    WithinOwnBucket(bh, at[o]);
  }

  /** The offsets holding the first c slots from S, followed by t. */
  ghost function Holders(owner: seq<int>, S: int, c: nat, t: int): (os: seq<int>)
    requires 0 <= S && S + c <= |owner|
    ensures |os| == c + 1 && os[c] == t
    ensures forall k :: 0 <= k < c ==> os[k] == owner[S + k]
  {
    seq(c + 1, k requires 0 <= k <= c => if k < c then owner[S + k] else t)
  }

  /** The holders of the first count[S] slots from S, followed by an unmoved offset t of
      bucket S, are distinct offsets of that bucket. */
  lemma HoldersDistinct(at: seq<int>, bh: seq<int>, H: int, prm0: seq<int>, i: int,
                        prm: seq<int>, count: seq<int>, owner: seq<int>, t: int, os: seq<int>)
    requires MoveInv(at, bh, H, prm0, i, prm, count, owner)
    requires 0 <= t < |at| && !Moved(at, H, i, t)
    requires os == Holders(owner, prm0[t], count[prm0[t]], t)
    ensures forall k :: 0 <= k < |os| ==> 0 <= os[k] < |at| && prm0[os[k]] == prm0[t]
    ensures Distinct(os)
  {
    var S := prm0[t];
    var c := count[S];
    forall k | 0 <= k <= c
      ensures 0 <= os[k] < |at| && prm0[os[k]] == S
    {
      if k < c {
        assert S <= S + k < S + count[S];
      }
    }
    forall k1, k2 | 0 <= k1 < k2 <= c
      ensures os[k1] != os[k2]
    {
      assert S <= S + k1 < S + count[S];
      assert prm[os[k1]] == S + k1 && Moved(at, H, i, os[k1]);
      if k2 < c {
        assert S <= S + k2 < S + count[S];
        assert prm[os[k2]] == S + k2;
      }
    }
  }

  /** Distinct offsets of the bucket headed by S have distinct indices inside that bucket. */
  lemma IndicesInBucket(at: seq<int>, bh: seq<int>, prm0: seq<int>, S: int, os: seq<int>, a: seq<int>)
    requires Indexing(at) && |prm0| == |at| && |bh| == |at| && RanksAreStarts(at, prm0, bh)
    requires 0 <= S < |at|
    requires forall k :: 0 <= k < |os| ==> 0 <= os[k] < |at| && prm0[os[k]] == S
    requires Distinct(os)
    requires |a| == |os| && forall k :: 0 <= k < |os| ==> a[k] == at[os[k]]
    ensures Distinct(a)
    ensures forall k :: 0 <= k < |a| ==> S <= a[k] <= BucketEnd(bh, S)
  {
    forall k | 0 <= k < |a|
      ensures S <= a[k] <= BucketEnd(bh, S)
    {
      IndexInBucket(at, bh, prm0, os[k]);
    }
  }

  /** An offset that has not moved yet fits in its bucket: the slots already taken there,
      together with it, belong to distinct offsets whose indices lie in that bucket. */
  lemma SlotBound(at: seq<int>, bh: seq<int>, H: int, prm0: seq<int>, i: int,
                  prm: seq<int>, count: seq<int>, owner: seq<int>, t: int)
    requires MoveInv(at, bh, H, prm0, i, prm, count, owner)
    requires Indexing(at) && RanksAreStarts(at, prm0, bh)
    requires 0 <= t < |at| && !Moved(at, H, i, t)
    ensures prm0[t] + count[prm0[t]] <= BucketEnd(bh, prm0[t])
  {
    var S := prm0[t];
    var os := Holders(owner, S, count[S], t);
    HoldersDistinct(at, bh, H, prm0, i, prm, count, owner, t, os);
    var a := seq(|os|, k requires 0 <= k < |os| => at[os[k]]);
    IndicesInBucket(at, bh, prm0, S, os, a);
    Pigeonhole(a, S, BucketEnd(bh, S) + 1);
  }

  /** The next slot of a bucket is held by no offset yet. */
  lemma SlotFree(at: seq<int>, bh: seq<int>, H: int, prm0: seq<int>, i: int,
                 prm: seq<int>, count: seq<int>, owner: seq<int>, t: int)
    requires MoveInv(at, bh, H, prm0, i, prm, count, owner)
    requires Indexing(at) && RanksAreStarts(at, prm0, bh)
    requires 0 <= t < |at| && prm0[t] + count[prm0[t]] <= BucketEnd(bh, prm0[t])
    ensures owner[prm0[t] + count[prm0[t]]] == -1
  {
    var S := prm0[t];
    var slot := S + count[S];
    if owner[slot] != -1 {
      var o := owner[slot];
      assert prm[o] == slot && Moved(at, H, i, o);
      SameBucket(bh, at[o], slot);
      SameBucket(bh, at[t], slot);
      assert false;
    }
  }

  /** prm2, count2 and owner2 are prm, count and owner after offset t takes the slot
      S + count[S] of the bucket headed by S. */
  predicate Took(prm: seq<int>, count: seq<int>, owner: seq<int>, t: int, S: int, slot: int,
                 prm2: seq<int>, count2: seq<int>, owner2: seq<int>) {
    && 0 <= t < |prm| && 0 <= S < |count| && slot == S + count[S] && 0 <= slot < |owner|
    && prm2 == prm[t := slot]
    && count2 == count[S := count[S] + 1]
    && owner2 == owner[slot := t]
  }

  /** Moving the unmoved offset t, whose successor sits at index i, into the next slot of
      its bucket keeps the bookkeeping. */
  lemma MoveStepKeeps(at: seq<int>, bh: seq<int>, H: int, prm0: seq<int>, i: int, S: int, slot: int,
                      prm: seq<int>, count: seq<int>, owner: seq<int>, t: int,
                      prm2: seq<int>, count2: seq<int>, owner2: seq<int>)
    requires MoveInv(at, bh, H, prm0, i, prm, count, owner)
    requires Indexing(at) && RanksAreStarts(at, prm0, bh) && H >= 1
    requires 0 <= t && t + H < |at| && at[t + H] == i
    requires Took(prm, count, owner, t, S, slot, prm2, count2, owner2) && S == prm0[t]
    ensures MoveInv(at, bh, H, prm0, i + 1, prm2, count2, owner2)
  {
    SlotBound(at, bh, H, prm0, i, prm, count, owner, t);
    SlotFree(at, bh, H, prm0, i, prm, count, owner, t);
    MovedNext(at, H, i, t);
    HeldStep(at, bh, H, prm0, i, S, slot, prm, count, owner, t, prm2, count2, owner2);
    OwnersStep(at, bh, H, prm0, i, S, slot, prm, count, owner, t, prm2, count2, owner2);
    FilledStep(at, bh, H, prm0, i, S, slot, prm, count, owner, t, prm2, count2, owner2);
    OrderedStep(at, bh, H, prm0, i, S, slot, prm, count, owner, t, prm2, count2, owner2);
  }

  /** Visiting index i moves exactly the offset whose successor sits there. */
  lemma MovedNext(at: seq<int>, H: int, i: int, t: int)
    requires Indexing(at) && H >= 1 && 0 <= t && t + H < |at| && at[t + H] == i
    ensures forall t' :: Moved(at, H, i + 1, t') <==> Moved(at, H, i, t') || t' == t
  {
    forall t' | Moved(at, H, i + 1, t') && !Moved(at, H, i, t')
      ensures t' == t
    {
      assert at[t' + H] == at[t + H];
    }
    assert Moved(at, H, i + 1, t);
  }

  lemma HeldStep(at: seq<int>, bh: seq<int>, H: int, prm0: seq<int>, i: int, S: int, slot: int,
                 prm: seq<int>, count: seq<int>, owner: seq<int>, t: int,
                 prm2: seq<int>, count2: seq<int>, owner2: seq<int>)
    requires MoveInv(at, bh, H, prm0, i, prm, count, owner)
    requires 0 <= t < |at| && Took(prm, count, owner, t, S, slot, prm2, count2, owner2) && S == prm0[t] && !Moved(at, H, i, t)
    requires prm0[t] + count[prm0[t]] <= BucketEnd(bh, prm0[t])
    requires owner[prm0[t] + count[prm0[t]]] == -1
    requires forall t' :: Moved(at, H, i + 1, t') <==> Moved(at, H, i, t') || t' == t
    ensures Shapes(at, bh, prm0, prm2, count2, owner2) && Held(at, bh, H, prm0, i + 1, prm2, count2, owner2)
  {
    forall t' | 0 <= t' < |at| && Moved(at, H, i + 1, t')
      ensures prm0[t'] <= prm2[t'] < prm0[t'] + count2[prm0[t']]
      ensures prm2[t'] <= BucketEnd(bh, prm0[t'])
      ensures owner2[prm2[t']] == t'
    {
      if t' != t {
        assert owner[prm[t']] == t';
      }
    }
  }

  lemma OwnersStep(at: seq<int>, bh: seq<int>, H: int, prm0: seq<int>, i: int, S: int, slot: int,
                   prm: seq<int>, count: seq<int>, owner: seq<int>, t: int,
                   prm2: seq<int>, count2: seq<int>, owner2: seq<int>)
    requires MoveInv(at, bh, H, prm0, i, prm, count, owner)
    requires 0 <= t < |at| && Took(prm, count, owner, t, S, slot, prm2, count2, owner2) && S == prm0[t] && !Moved(at, H, i, t)
    requires forall t' :: Moved(at, H, i + 1, t') <==> Moved(at, H, i, t') || t' == t
    ensures Owners(at, H, i + 1, prm2, owner2)
  {
    forall v | 0 <= v < |at| && owner2[v] != -1
      ensures 0 <= owner2[v] < |at| && Moved(at, H, i + 1, owner2[v]) && prm2[owner2[v]] == v
    {
      if v != slot {
        assert Moved(at, H, i, owner[v]);
      }
    }
  }

  lemma FilledStep(at: seq<int>, bh: seq<int>, H: int, prm0: seq<int>, i: int, S: int, slot: int,
                   prm: seq<int>, count: seq<int>, owner: seq<int>, t: int,
                   prm2: seq<int>, count2: seq<int>, owner2: seq<int>)
    requires MoveInv(at, bh, H, prm0, i, prm, count, owner)
    requires 0 <= t < |at| && Took(prm, count, owner, t, S, slot, prm2, count2, owner2) && S == prm0[t]
    requires owner[prm0[t] + count[prm0[t]]] == -1
    ensures Filled(at, prm0, count2, owner2)
  {
    forall S'' | 0 <= S'' < |at|
      ensures S'' + count2[S''] <= |at|
      ensures forall v :: S'' <= v < S'' + count2[S''] ==>
        owner2[v] != -1 && 0 <= owner2[v] < |at| && prm0[owner2[v]] == S''
    {
      assert forall v :: S'' <= v < S'' + count[S''] ==> owner[v] != -1;
    }
  }

  lemma OrderedStep(at: seq<int>, bh: seq<int>, H: int, prm0: seq<int>, i: int, S: int, slot: int,
                    prm: seq<int>, count: seq<int>, owner: seq<int>, t: int,
                    prm2: seq<int>, count2: seq<int>, owner2: seq<int>)
    requires MoveInv(at, bh, H, prm0, i, prm, count, owner)
    requires H >= 1 && 0 <= t && t + H < |at| && at[t + H] == i
    requires Took(prm, count, owner, t, S, slot, prm2, count2, owner2) && S == prm0[t]
    requires forall t' :: Moved(at, H, i + 1, t') <==> Moved(at, H, i, t') || t' == t
    ensures Ordered(at, H, prm0, i + 1, prm2)
  {
    forall t1, t2 | 0 <= t1 < |at| && 0 <= t2 < |at| && Moved(at, H, i + 1, t1) && Moved(at, H, i + 1, t2) &&
                    prm0[t1] == prm0[t2] && at[t1 + H] < at[t2 + H]
      ensures prm2[t1] < prm2[t2]
    {
      if t2 == t {
        assert Moved(at, H, i, t1);
      } else {
        assert Moved(at, H, i, t2);
      }
    }
  }

  /** Visiting an index whose offset q has no predecessor at distance H changes nothing. */
  lemma MoveSkipKeeps(at: seq<int>, bh: seq<int>, H: int, prm0: seq<int>, i: int,
                      prm: seq<int>, count: seq<int>, owner: seq<int>, q: int)
    requires MoveInv(at, bh, H, prm0, i, prm, count, owner)
    requires Indexing(at) && 0 <= q < |at| && q < H && at[q] == i
    ensures MoveInv(at, bh, H, prm0, i + 1, prm, count, owner)
  {
    assert forall t' :: Moved(at, H, i + 1, t') <==> Moved(at, H, i, t');
  }

  /** In a repetition-free pos, the offset at index i is not among pos[..i]. */
  lemma FreshAtIndex(pos: seq<int>, i: int)
    requires Distinct(pos) && 0 <= i < |pos|
    ensures pos[i] !in pos[..i]
  {
  }

  /** Moving offset t keeps the facts every scan state has. */
  lemma SafeStep(pos: seq<int>, H: int, prm0: seq<int>, i: int, prm: seq<int>, count: seq<int>,
                 t: int, S: int, slot: int, prm2: seq<int>, count2: seq<int>)
    requires Safe(pos, H, prm0, i, prm, count) && H >= 1 && i < |pos| && t == pos[i] - H && t >= 0
    requires S == prm[t] && S <= slot < |pos|
    requires prm2 == prm[t := slot] && count2 == count[S := count[S] + 1]
    ensures Safe(pos, H, prm0, i + 1, prm2, count2)
  {
    assert pos[..i + 1] == pos[..i] + [pos[i]];
  }

  /** Visiting an index without a predecessor keeps the facts every scan state has. */
  lemma SafeSkip(pos: seq<int>, H: int, prm0: seq<int>, i: int, prm: seq<int>, count: seq<int>)
    requires Safe(pos, H, prm0, i, prm, count) && H >= 1 && i < |pos| && pos[i] < H
    ensures Safe(pos, H, prm0, i + 1, prm, count)
  {
    assert pos[..i + 1] == pos[..i] + [pos[i]];
  }

  /** Taking the next slot of bucket S and marking it keeps the marks' meaning. */
  lemma MarksStep(b2h: seq<int>, count: seq<int>, owner: seq<int>, S: int, slot: int, t: int,
                  count2: seq<int>, owner2: seq<int>, b2h2: seq<int>)
    requires Marks(b2h, count, owner) && 0 <= t
    requires 0 <= S < |count| && 0 <= count[S] && slot == S + count[S] && slot < |count|
    requires count2 == count[S := count[S] + 1] && owner2 == owner[slot := t]
    requires b2h2 == b2h[slot := 1]
    ensures Marks(b2h2, count2, owner2)
  {
  }

  /** In a reset state, the slot the offset whose successor sits at index i is about to
      take lies inside the arrays. */
  lemma MoveFits(pos: seq<int>, at: seq<int>, bh: seq<int>, H: int, prm0: seq<int>, i: int,
                 prm: seq<int>, count: seq<int>, owner: seq<int>, t: int)
    requires ResetState(pos, prm0, bh) && at == Positions(pos) && H >= 1
    requires Safe(pos, H, prm0, i, prm, count)
    requires MoveInv(at, bh, H, prm0, i, prm, count, owner)
    requires 0 <= i < |pos| && t == pos[i] - H && t >= 0
    ensures prm[t] == prm0[t] && prm[t] + count[prm[t]] < |pos|
  {
    ResetIndexing(pos, prm0, bh);
    FreshAtIndex(pos, i);
    SlotBound(at, bh, H, prm0, i, prm, count, owner, t);
  }
  /** In a reset state, the offset whose successor sits at index i taking the next slot of
      its bucket, and marking it, keeps the move bookkeeping and the marks. */
  lemma MoveTaken(pos: seq<int>, at: seq<int>, bh: seq<int>, H: int, prm0: seq<int>, i: int,
                  prm: seq<int>, count: seq<int>, owner: seq<int>, b2h: seq<int>, t: int, S: int, slot: int,
                  prm2: seq<int>, count2: seq<int>, owner2: seq<int>, b2h2: seq<int>)
    requires ResetState(pos, prm0, bh) && at == Positions(pos) && H >= 1
    requires Safe(pos, H, prm0, i, prm, count)
    requires MoveInv(at, bh, H, prm0, i, prm, count, owner) && Marks(b2h, count, owner)
    requires 0 <= i < |pos| && t == pos[i] - H && t >= 0
    requires S == prm[t] && slot == S + count[S] && slot < |pos|
    requires prm2 == prm[t := slot] && count2 == count[S := count[S] + 1]
    requires owner2 == owner[slot := t] && b2h2 == b2h[slot := 1]
    ensures MoveInv(at, bh, H, prm0, i + 1, prm2, count2, owner2)
    ensures Marks(b2h2, count2, owner2)
  {
    MoveFits(pos, at, bh, H, prm0, i, prm, count, owner, t);
    ResetIndexing(pos, prm0, bh);
    MoveStepKeeps(at, bh, H, prm0, i, S, slot, prm, count, owner, t, prm2, count2, owner2);
    MarksStep(b2h, count, owner, S, slot, t, count2, owner2, b2h2);
  }


  /** Visiting an index without a predecessor keeps the bookkeeping of a reset state. */
  lemma SkipState(pos: seq<int>, at: seq<int>, bh: seq<int>, H: int, prm0: seq<int>, i: int,
                  prm: seq<int>, count: seq<int>, owner: seq<int>)
    requires ResetState(pos, prm0, bh) && at == Positions(pos) && H >= 1
    requires MoveInv(at, bh, H, prm0, i, prm, count, owner)
    requires 0 <= i < |pos| && pos[i] < H
    ensures MoveInv(at, bh, H, prm0, i + 1, prm, count, owner)
  {
    ResetIndexing(pos, prm0, bh);
    MoveSkipKeeps(at, bh, H, prm0, i, prm, count, owner, pos[i]);
  }

  /** Clearing keeps the marks' meaning: no mark appears, and bucket heads that received
      a move are never cleared. */
  lemma ClearKeepsMarks(at: seq<int>, bh: seq<int>, prm0: seq<int>,
                        count: seq<int>, owner: seq<int>, b2h: seq<int>, b2h': seq<int>)
    requires |bh| == |at| && |prm0| == |at| && |count| == |at| && |owner| == |at|
    requires Filled(at, prm0, count, owner) && Marks(b2h, count, owner)
    requires Indexing(at) && RanksAreStarts(at, prm0, bh)
    requires |b2h'| == |b2h|
    requires forall k :: 0 <= k < |b2h| && b2h'[k] != b2h[k] ==> b2h'[k] == 0 && bh[k] == 0 && 0 < k
    ensures Marks(b2h', count, owner)
  {
    forall S | 0 <= S < |count| && count[S] > 0
      ensures b2h'[S] == 1
    {
      assert S <= S < S + count[S];
      var o := owner[S];
      assert prm0[o] == S;
    }
  }

  /** What any completed scan provides: ranks only rise, stay below len, and an offset whose
      successor is not listed keeps its reset rank; the counters are non-negative and the
      marks are bits. */
  predicate ScanShape(pos: seq<int>, prm0: seq<int>, H: int, sc: Scan) {
    && |prm0| == |pos| && |sc.prm| == |pos| && |sc.count| == |pos| && |sc.b2h| == |pos|
    && Bits(sc.b2h)
    && (forall t :: 0 <= t < |pos| ==> prm0[t] <= sc.prm[t] < |pos|)
    && (forall S :: 0 <= S < |pos| ==> 0 <= sc.count[S])
    && (forall t :: 0 <= t < |pos| && t + H !in pos ==> sc.prm[t] == prm0[t])
  }

  /** Slot v is the new rank of the predecessor of some listed offset whose old rank is S. */
  predicate TakenFrom(pos: seq<int>, prm0: seq<int>, H: int, prm: seq<int>, S: int, v: int)
    requires |prm0| == |pos| && |prm| == |pos| && H >= 1
    requires forall x :: 0 <= x < |pos| ==> 0 <= pos[x] < |pos|
  {
    exists x :: 0 <= x < |pos| && pos[x] >= H && prm0[pos[x] - H] == S && prm[pos[x] - H] == v
  }

  /** How the predecessors t = pos[x] - H are placed: no two share a slot, those of one
      rank follow the order of their successors' indices, and the slots taken from rank S
      are exactly S up to S + count[S] - 1. */
  predicate SlotsPlaced(pos: seq<int>, prm0: seq<int>, H: int, sc: Scan)
    requires |prm0| == |pos| && |sc.prm| == |pos| && |sc.count| == |pos| && H >= 1
    requires forall x :: 0 <= x < |pos| ==> 0 <= pos[x] < |pos|
    requires forall t :: 0 <= t < |prm0| ==> 0 <= prm0[t] < |pos|
  {
    var prm := sc.prm;
    && (forall x1, x2 :: 0 <= x1 < x2 < |pos| && pos[x1] >= H && pos[x2] >= H ==>
          prm[pos[x1] - H] != prm[pos[x2] - H])
    && (forall x1, x2 ::
          (0 <= x1 < x2 < |pos| && pos[x1] >= H && pos[x2] >= H && prm0[pos[x1] - H] == prm0[pos[x2] - H]) ==>
          prm[pos[x1] - H] < prm[pos[x2] - H])
    && (forall x :: 0 <= x < |pos| && pos[x] >= H ==>
          prm[pos[x] - H] < prm0[pos[x] - H] + sc.count[prm0[pos[x] - H]])
    && (forall S, v :: 0 <= S < |pos| && S <= v < S + sc.count[S] ==> TakenFrom(pos, prm0, H, prm, S, v))
  }

  /** What a scan from a reset state provides: every offset t with a successor t + H moves
      inside its own bucket, two such offsets never share a slot, inside a bucket they are
      ordered by the index of their successors, the slots taken from rank S are exactly S up
      to S + count[S] - 1, every mark sits on a taken slot, and the head of every bucket that
      received a move is marked. */
  predicate ScanOrder(pos: seq<int>, prm0: seq<int>, bh: seq<int>, H: int, sc: Scan)
    requires |prm0| == |pos| && |bh| == |pos| && |sc.prm| == |pos| && |sc.count| == |pos| && |sc.b2h| == |pos| && H >= 1
    requires forall x :: 0 <= x < |pos| ==> 0 <= pos[x] < |pos|
    requires forall t :: 0 <= t < |prm0| ==> 0 <= prm0[t] < |pos|
  {
    var prm := sc.prm;
    && (forall x :: 0 <= x < |pos| && pos[x] >= H ==>
          prm0[pos[x] - H] <= prm[pos[x] - H] <= BucketEnd(bh, prm0[pos[x] - H]))
    && SlotsPlaced(pos, prm0, H, sc)
    && (forall v :: 0 <= v < |pos| && sc.b2h[v] == 1 ==>
          exists x :: 0 <= x < |pos| && pos[x] >= H && prm[pos[x] - H] == v)
    && (forall x :: 0 <= x < |pos| && pos[x] >= H ==> sc.b2h[prm0[pos[x] - H]] == 1)
  }

  /** Once every bucket is scanned, the bookkeeping yields both descriptions of the result. */
  lemma ScanDone(pos: seq<int>, prm0: seq<int>, bh: seq<int>, H: int, sc: Scan, at: seq<int>, owner: seq<int>)
    requires 1 <= |bh| && |pos| == |bh| && |prm0| == |bh| && H >= 1
    requires forall x :: 0 <= x < |pos| ==> 0 <= pos[x] < |pos|
    requires Safe(pos, H, prm0, |pos|, sc.prm, sc.count) && |sc.b2h| == |pos| && Bits(sc.b2h)
    requires ResetState(pos, prm0, bh) ==>
      at == Positions(pos) && MoveInv(at, bh, H, prm0, |pos|, sc.prm, sc.count, owner) && Marks(sc.b2h, sc.count, owner)
    ensures ScanShape(pos, prm0, H, sc)
    ensures ResetState(pos, prm0, bh) ==> ScanOrder(pos, prm0, bh, H, sc)
  {
    assert pos[..|pos|] == pos;
    if ResetState(pos, prm0, bh) {
      ScanFacts(pos, at, bh, H, prm0, sc.prm, sc.count, owner, sc.b2h);
    }
  }

  /** Before any move, nothing is held, counted or marked. */
  lemma ScanStart(at: seq<int>, bh: seq<int>, H: int, prm0: seq<int>, count: seq<int>, owner: seq<int>, b2h: seq<int>)
    requires |bh| == |at| && |prm0| == |at| && |count| == |at| && |owner| == |at| && |b2h| == |at|
    requires forall t :: 0 <= t < |at| ==> 0 <= prm0[t] < |at|
    requires forall k :: 0 <= k < |at| ==> count[k] == 0 && owner[k] == -1 && b2h[k] == 0
    requires Indexing(at)
    ensures MoveInv(at, bh, H, prm0, 0, prm0, count, owner) && Marks(b2h, count, owner)
  {
  }

  /** The facts a completed scan from a reset state provides, read back from the move
      bookkeeping in terms of indices into pos. */
  lemma ScanFacts(pos: seq<int>, at: seq<int>, bh: seq<int>, H: int, prm0: seq<int>,
                  prm: seq<int>, count: seq<int>, owner: seq<int>, b2h: seq<int>)
    requires ResetState(pos, prm0, bh) && at == Positions(pos) && H >= 1
    requires MoveInv(at, bh, H, prm0, |pos|, prm, count, owner) && Marks(b2h, count, owner)
    requires |b2h| == |pos|
    ensures ScanOrder(pos, prm0, bh, H, Scan(prm, count, b2h))
  {
    MovedAll(pos, at, H);
    FactsInBucket(pos, at, bh, H, prm0, prm, count, owner);
    FactsDistinct(pos, at, bh, H, prm0, prm, count, owner);
    FactsOrdered(pos, at, bh, H, prm0, prm, count, owner);
    FactsMarked(pos, at, H, prm, count, owner, b2h);
    FactsHeadsMarked(pos, at, bh, H, prm0, prm, count, owner, b2h);
    FactsBelowCount(pos, at, bh, H, prm0, prm, count, owner);
    FactsDense(pos, at, bh, H, prm0, prm, count, owner);
  }

  /** After the whole scan, every offset with a successor has moved. */
  lemma MovedAll(pos: seq<int>, at: seq<int>, H: int)
    requires IsPermutation(pos, |pos|) && at == Positions(pos) && H >= 1
    ensures forall x :: 0 <= x < |pos| && pos[x] >= H ==> Moved(at, H, |pos|, pos[x] - H)
  {
    forall x | 0 <= x < |pos| && pos[x] >= H
      ensures Moved(at, H, |pos|, pos[x] - H)
    {
      assert at[pos[x] - H + H] == x;
    }
  }

  lemma FactsInBucket(pos: seq<int>, at: seq<int>, bh: seq<int>, H: int, prm0: seq<int>,
                      prm: seq<int>, count: seq<int>, owner: seq<int>)
    requires ResetState(pos, prm0, bh) && at == Positions(pos) && H >= 1
    requires MoveInv(at, bh, H, prm0, |pos|, prm, count, owner)
    requires forall x :: 0 <= x < |pos| && pos[x] >= H ==> Moved(at, H, |pos|, pos[x] - H)
    ensures forall x :: 0 <= x < |pos| && pos[x] >= H ==>
      prm0[pos[x] - H] <= prm[pos[x] - H] <= BucketEnd(bh, prm0[pos[x] - H])
  {
  }

  lemma FactsDistinct(pos: seq<int>, at: seq<int>, bh: seq<int>, H: int, prm0: seq<int>,
                      prm: seq<int>, count: seq<int>, owner: seq<int>)
    requires ResetState(pos, prm0, bh) && at == Positions(pos) && H >= 1
    requires MoveInv(at, bh, H, prm0, |pos|, prm, count, owner)
    requires forall x :: 0 <= x < |pos| && pos[x] >= H ==> Moved(at, H, |pos|, pos[x] - H)
    ensures forall x1, x2 :: 0 <= x1 < x2 < |pos| && pos[x1] >= H && pos[x2] >= H ==>
      prm[pos[x1] - H] != prm[pos[x2] - H]
  {
    forall x1, x2 | 0 <= x1 < x2 < |pos| && pos[x1] >= H && pos[x2] >= H
      ensures prm[pos[x1] - H] != prm[pos[x2] - H]
    {
      assert owner[prm[pos[x1] - H]] == pos[x1] - H;
      assert owner[prm[pos[x2] - H]] == pos[x2] - H;
    }
  }

  lemma FactsOrdered(pos: seq<int>, at: seq<int>, bh: seq<int>, H: int, prm0: seq<int>,
                     prm: seq<int>, count: seq<int>, owner: seq<int>)
    requires ResetState(pos, prm0, bh) && at == Positions(pos) && H >= 1
    requires MoveInv(at, bh, H, prm0, |pos|, prm, count, owner)
    requires forall x :: 0 <= x < |pos| && pos[x] >= H ==> Moved(at, H, |pos|, pos[x] - H)
    ensures forall x1, x2 ::
      (0 <= x1 < x2 < |pos| && pos[x1] >= H && pos[x2] >= H && prm0[pos[x1] - H] == prm0[pos[x2] - H]) ==>
      prm[pos[x1] - H] < prm[pos[x2] - H]
  {
    forall x1, x2 | 0 <= x1 < x2 < |pos| && pos[x1] >= H && pos[x2] >= H && prm0[pos[x1] - H] == prm0[pos[x2] - H]
      ensures prm[pos[x1] - H] < prm[pos[x2] - H]
    {
      assert at[pos[x1] - H + H] == x1 && at[pos[x2] - H + H] == x2;
    }
  }

  /** The slot v held by the moved offset owner[v] is the slot of the predecessor of the
      offset listed at that offset's successor's index. */
  lemma HolderListed(pos: seq<int>, at: seq<int>, H: int, prm: seq<int>, owner: seq<int>, v: int)
    requires IsPermutation(pos, |pos|) && at == Positions(pos)
    requires |prm| == |pos| && |owner| == |pos| && 0 <= v < |pos|
    requires 0 <= owner[v] < |pos| && Moved(at, H, |pos|, owner[v]) && prm[owner[v]] == v
    ensures 0 <= at[owner[v] + H] < |pos| && pos[at[owner[v] + H]] == owner[v] + H
  {
  }

  /** Every mark sits on a slot taken by the predecessor of some listed offset. */
  lemma FactsMarked(pos: seq<int>, at: seq<int>, H: int, prm: seq<int>, count: seq<int>,
                    owner: seq<int>, b2h: seq<int>)
    requires IsPermutation(pos, |pos|) && at == Positions(pos) && H >= 1
    requires |prm| == |pos| && |count| == |pos| && |owner| == |pos| && |b2h| == |pos|
    requires Owners(at, H, |pos|, prm, owner) && Marks(b2h, count, owner)
    ensures forall v :: 0 <= v < |pos| && b2h[v] == 1 ==>
      exists x :: 0 <= x < |pos| && pos[x] >= H && prm[pos[x] - H] == v
  {
    forall v | 0 <= v < |pos| && b2h[v] == 1
      ensures exists x :: 0 <= x < |pos| && pos[x] >= H && prm[pos[x] - H] == v
    {
      HolderListed(pos, at, H, prm, owner, v);
      var x := at[owner[v] + H];
      assert pos[x] >= H && prm[pos[x] - H] == v;
    }
  }

  /** The head of every bucket that received a move is marked. */
  lemma FactsHeadsMarked(pos: seq<int>, at: seq<int>, bh: seq<int>, H: int, prm0: seq<int>,
                         prm: seq<int>, count: seq<int>, owner: seq<int>, b2h: seq<int>)
    requires Shapes(at, bh, prm0, prm, count, owner) && Held(at, bh, H, prm0, |pos|, prm, count, owner)
    requires |at| == |pos| && (forall x :: 0 <= x < |pos| ==> 0 <= pos[x] < |pos|) && H >= 1
    requires Marks(b2h, count, owner)
    requires forall x :: 0 <= x < |pos| && pos[x] >= H ==> Moved(at, H, |pos|, pos[x] - H)
    ensures forall x :: 0 <= x < |pos| && pos[x] >= H ==> b2h[prm0[pos[x] - H]] == 1
  {
    forall x | 0 <= x < |pos| && pos[x] >= H
      ensures b2h[prm0[pos[x] - H]] == 1
    {
      var t := pos[x] - H;
      assert Moved(at, H, |pos|, t);
      assert count[prm0[t]] > 0;
    }
  }

  /** Every moved offset holds a slot below its rank's counter. */
  lemma FactsBelowCount(pos: seq<int>, at: seq<int>, bh: seq<int>, H: int, prm0: seq<int>,
                        prm: seq<int>, count: seq<int>, owner: seq<int>)
    requires Shapes(at, bh, prm0, prm, count, owner) && Held(at, bh, H, prm0, |pos|, prm, count, owner)
    requires |at| == |pos| && (forall x :: 0 <= x < |pos| ==> 0 <= pos[x] < |pos|) && H >= 1
    requires forall x :: 0 <= x < |pos| && pos[x] >= H ==> Moved(at, H, |pos|, pos[x] - H)
    ensures forall x :: 0 <= x < |pos| && pos[x] >= H ==>
      prm[pos[x] - H] < prm0[pos[x] - H] + count[prm0[pos[x] - H]]
  {
    forall x | 0 <= x < |pos| && pos[x] >= H
      ensures prm[pos[x] - H] < prm0[pos[x] - H] + count[prm0[pos[x] - H]]
    {
      assert Moved(at, H, |pos|, pos[x] - H);
    }
  }

  /** Slot v, below the counter of rank S, is held by the predecessor of some listed offset
      whose rank is S. */
  lemma SlotTaken(pos: seq<int>, at: seq<int>, H: int, prm0: seq<int>, prm: seq<int>, owner: seq<int>, S: int, v: int)
    requires IsPermutation(pos, |pos|) && at == Positions(pos) && H >= 1
    requires |prm0| == |pos| && |prm| == |pos| && |owner| == |pos| && 0 <= v < |pos|
    requires 0 <= owner[v] < |pos| && prm0[owner[v]] == S
    requires Moved(at, H, |pos|, owner[v]) && prm[owner[v]] == v
    ensures TakenFrom(pos, prm0, H, prm, S, v)
  {
    HolderListed(pos, at, H, prm, owner, v);
    var x := at[owner[v] + H];
    assert pos[x] >= H && prm0[pos[x] - H] == S && prm[pos[x] - H] == v;
  }

  /** Every slot below a counter is held by a moved offset of that rank. */
  lemma FactsDense(pos: seq<int>, at: seq<int>, bh: seq<int>, H: int, prm0: seq<int>,
                   prm: seq<int>, count: seq<int>, owner: seq<int>)
    requires IsPermutation(pos, |pos|) && at == Positions(pos) && H >= 1
    requires Shapes(at, bh, prm0, prm, count, owner)
    requires Owners(at, H, |pos|, prm, owner) && Filled(at, prm0, count, owner)
    ensures forall S, v :: 0 <= S < |pos| && S <= v < S + count[S] ==> TakenFrom(pos, prm0, H, prm, S, v)
  {
    forall S, v | 0 <= S < |pos| && S <= v < S + count[S]
      ensures TakenFrom(pos, prm0, H, prm, S, v)
    {
      assert owner[v] != -1 && prm0[owner[v]] == S;
      SlotTaken(pos, at, H, prm0, prm, owner, S, v);
    }
  }
}
