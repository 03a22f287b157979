/** The contract of the bucket scan from a reset state leaves no choice: two scans that
    both satisfy ScanShape, ScanOrder and LeadMarks are the same scan. So the new ranks,
    the counters and the marks of lines 165-226 are fully fixed by what those predicates
    say. */
module ScanUnique {
  import opened Counting
  import opened ScanState
  import opened ScanMarks

  /** The placement facts of two scans over the same pos, prm0 and H. */
  predicate BothPlaced(pos: seq<int>, prm0: seq<int>, H: int, a: Scan, b: Scan) {
    && (forall x :: 0 <= x < |pos| ==> 0 <= pos[x] < |pos|) && H >= 1
    && (forall t :: 0 <= t < |prm0| ==> 0 <= prm0[t] < |pos|)
    && |prm0| == |pos| && |a.prm| == |pos| && |a.count| == |pos| && |b.prm| == |pos| && |b.count| == |pos|
    && SlotsPlaced(pos, prm0, H, a) && SlotsPlaced(pos, prm0, H, b)
  }

  /** The placement facts together with the shape of both scans. */
  predicate BothScans(pos: seq<int>, prm0: seq<int>, H: int, a: Scan, b: Scan) {
    && BothPlaced(pos, prm0, H, a, b)
    && ScanShape(pos, prm0, H, a) && ScanShape(pos, prm0, H, b)
  }

  /** Predecessors of rank S whose slot in a or in b lies below S + k hold the same slot
      in both. */
  predicate AgreeBelow(pos: seq<int>, prm0: seq<int>, H: int, a: Scan, b: Scan, S: int, k: int)
    requires |prm0| == |pos| && |a.prm| == |pos| && |b.prm| == |pos| && H >= 1
    requires forall x :: 0 <= x < |pos| ==> 0 <= pos[x] < |pos|
  {
    forall x ::
      (0 <= x < |pos| && pos[x] >= H && prm0[pos[x] - H] == S &&
       (a.prm[pos[x] - H] < S + k || b.prm[pos[x] - H] < S + k)) ==>
      a.prm[pos[x] - H] == b.prm[pos[x] - H]
  }

  /** An index x through which the predecessor pos[x] - H of rank S got slot v, when there
      is one. */
  ghost function Holder(pos: seq<int>, prm0: seq<int>, H: int, prm: seq<int>, S: int, v: int): (x: int)
    requires |prm0| == |pos| && |prm| == |pos| && H >= 1
    requires forall x :: 0 <= x < |pos| ==> 0 <= pos[x] < |pos|
    ensures TakenFrom(pos, prm0, H, prm, S, v) ==>
      0 <= x < |pos| && pos[x] >= H && prm0[pos[x] - H] == S && prm[pos[x] - H] == v
  {
    if TakenFrom(pos, prm0, H, prm, S, v) then
      var x :| 0 <= x < |pos| && pos[x] >= H && prm0[pos[x] - H] == S && prm[pos[x] - H] == v; x
    else -1
  }

  /** If a gives the predecessor listed through x the slot S + k, so does b: otherwise the
      predecessor holding S + k in b sits below x's in b and above it in a. */
  lemma {:induction false} StepAgree(pos: seq<int>, prm0: seq<int>, H: int, a: Scan, b: Scan,
                                     S: int, k: nat, x: int)
    requires BothPlaced(pos, prm0, H, a, b)
    requires AgreeBelow(pos, prm0, H, a, b, S, k)
    requires 0 <= x < |pos| && pos[x] >= H && prm0[pos[x] - H] == S && a.prm[pos[x] - H] == S + k
    ensures b.prm[pos[x] - H] == S + k
  {
    var x' := Holder(pos, prm0, H, b.prm, S, S + k);
  }

  /** One predecessor of rank S whose slot in a or in b lies below S + k + 1 holds the same
      slot in both, given agreement below S + k. */
  lemma AgreeAt(pos: seq<int>, prm0: seq<int>, H: int, a: Scan, b: Scan, S: int, k: nat, x: int)
    requires BothPlaced(pos, prm0, H, a, b)
    requires AgreeBelow(pos, prm0, H, a, b, S, k)
    requires 0 <= x < |pos| && pos[x] >= H && prm0[pos[x] - H] == S
    requires a.prm[pos[x] - H] < S + k + 1 || b.prm[pos[x] - H] < S + k + 1
    ensures a.prm[pos[x] - H] == b.prm[pos[x] - H]
  {
    var t := pos[x] - H;
    if a.prm[t] < S + k || b.prm[t] < S + k {
    } else if a.prm[t] == S + k {
      StepAgree(pos, prm0, H, a, b, S, k, x);
    } else {
      StepAgree(pos, prm0, H, b, a, S, k, x);
    }
  }

  /** Agreement below S + k, by induction on k. */
  lemma {:induction false} AgreeUpTo(pos: seq<int>, prm0: seq<int>, H: int, a: Scan, b: Scan,
                                     S: int, k: nat)
    requires BothScans(pos, prm0, H, a, b)
    ensures AgreeBelow(pos, prm0, H, a, b, S, k)
  {
    if k > 0 {
      AgreeUpTo(pos, prm0, H, a, b, S, k - 1);
      forall x | 0 <= x < |pos| && pos[x] >= H && prm0[pos[x] - H] == S &&
                 (a.prm[pos[x] - H] < S + k || b.prm[pos[x] - H] < S + k)
        ensures a.prm[pos[x] - H] == b.prm[pos[x] - H]
      {
        AgreeAt(pos, prm0, H, a, b, S, k - 1, x);
      }
    }
  }

  /** The two scans give every offset the same new rank. */
  lemma RanksAgree(pos: seq<int>, prm0: seq<int>, H: int, a: Scan, b: Scan)
    requires BothScans(pos, prm0, H, a, b)
    ensures a.prm == b.prm
  {
    forall t | 0 <= t < |pos|
      ensures a.prm[t] == b.prm[t]
    {
      if t + H in pos {
        var x :| 0 <= x < |pos| && pos[x] == t + H;
        var S := prm0[t];
        AgreeUpTo(pos, prm0, H, a, b, S, |pos|);
        assert AgreeBelow(pos, prm0, H, a, b, S, |pos|);
      }
    }
  }

  /** With equal ranks the counter of a never exceeds that of b: slot S + count_b[S] of a
      would be held by a predecessor whose slot in b lies below it. */
  lemma CountBelow(pos: seq<int>, prm0: seq<int>, H: int, a: Scan, b: Scan, S: int)
    requires BothPlaced(pos, prm0, H, a, b) && a.prm == b.prm && 0 <= S < |pos| && 0 <= b.count[S]
    ensures a.count[S] <= b.count[S]
  {
    var x := Holder(pos, prm0, H, a.prm, S, S + b.count[S]);
  }

  /** With equal ranks the two scans have the same counters. */
  lemma CountsAgree(pos: seq<int>, prm0: seq<int>, H: int, a: Scan, b: Scan)
    requires BothScans(pos, prm0, H, a, b) && a.prm == b.prm
    ensures a.count == b.count
  {
    forall S | 0 <= S < |pos|
      ensures a.count[S] == b.count[S]
    {
      CountBelow(pos, prm0, H, a, b, S);
      CountBelow(pos, prm0, H, b, a, S);
    }
  }

  /** With equal ranks, a slot v marked in a is marked in b: the mark sits on the slot of
      some predecessor, and LeadMarks ties both marks to the same leading index. */
  lemma MarkCarries(pos: seq<int>, prm0: seq<int>, bh: seq<int>, H: int, a: Scan, b: Scan, v: int)
    requires BothScans(pos, prm0, H, a, b) && a.prm == b.prm && |bh| == |pos|
    requires ScanOrder(pos, prm0, bh, H, a)
    requires LeadMarks(pos, bh, H, prm0, a) && LeadMarks(pos, bh, H, prm0, b)
    requires 0 <= v < |pos| && a.b2h[v] == 1
    ensures b.b2h[v] == 1
  {
    var x :| 0 <= x < |pos| && pos[x] >= H && a.prm[pos[x] - H] == v;
    assert a.b2h[a.prm[pos[x] - H]] == 1;
  }

  /** With equal ranks the two scans have the same marks. */
  lemma MarksAgree(pos: seq<int>, prm0: seq<int>, bh: seq<int>, H: int, a: Scan, b: Scan)
    requires BothScans(pos, prm0, H, a, b) && a.prm == b.prm && |bh| == |pos|
    requires ScanOrder(pos, prm0, bh, H, a) && ScanOrder(pos, prm0, bh, H, b)
    requires LeadMarks(pos, bh, H, prm0, a) && LeadMarks(pos, bh, H, prm0, b)
    ensures a.b2h == b.b2h
  {
    forall v | 0 <= v < |pos|
      ensures a.b2h[v] == b.b2h[v]
    {
      if a.b2h[v] == 1 {
        MarkCarries(pos, prm0, bh, H, a, b, v);
      }
      if b.b2h[v] == 1 {
        MarkCarries(pos, prm0, bh, H, b, a, v);
      }
    }
  }

  /** From a reset state, ScanShape, ScanOrder and LeadMarks fix the scan: any two scans
      satisfying all three are equal. */
  lemma ScanDetermined(pos: seq<int>, prm0: seq<int>, bh: seq<int>, H: int, a: Scan, b: Scan)
    requires ResetState(pos, prm0, bh) && H >= 1
    requires forall t :: 0 <= t < |prm0| ==> 0 <= prm0[t] < |pos|
    requires ScanShape(pos, prm0, H, a) && ScanOrder(pos, prm0, bh, H, a) && LeadMarks(pos, bh, H, prm0, a)
    requires ScanShape(pos, prm0, H, b) && ScanOrder(pos, prm0, bh, H, b) && LeadMarks(pos, bh, H, prm0, b)
    ensures a == b
  {
    assert SlotsPlaced(pos, prm0, H, a) && SlotsPlaced(pos, prm0, H, b);
    RanksAgree(pos, prm0, H, a, b);
    CountsAgree(pos, prm0, H, a, b);
    MarksAgree(pos, prm0, bh, H, a, b);
  }
}
