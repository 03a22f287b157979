# Suffix sorting over the DNA alphabet, in Dafny

A model of `suffix_sort/suffix_sort.c`, a small C library with two suffix-array constructors
for strings over the alphabet `$ < a < c < g < t`:

- `suffix_sorting_0`, the naive constructor. It sorts all suffixes with `qsort` and the
  `strcmp` comparator `suffix_compare`.
- `suffix_sorting_1`, a Manber–Myers prefix-doubling constructor. Its first stage
  counting-sorts the offsets by first symbol (`pos`), inverts that order (`prm`) and flags
  bucket heads (`bh`). Each round then, for H = 1, 2, 4, …:
  1. counts heads and leaves early once at most H positions are non-heads;
  2. resets every rank to the left-most rank of its bin;
  3. scans each bucket, moving every offset `t` whose successor `t + H` is visited to the
     next slot kept for its rank and marking that slot in `b2h` (from a reset state, where
     every rank is its bucket's start, that is the next free slot of `t`'s own bucket);
  4. clears the runs of marks after each moved offset's slot;
  5. rebuilds `pos` from the new ranks and copies the marks into `bh`.

Arrays are `seq<int>`. The loops that compute something are methods with loop invariants,
or recursive methods where one call handles one bucket or one index. Three kinds of loop
are plain expressions instead:
- the zero fills (lines 76-77, 126-127, 166-171) are `seq(n, _ => 0)`;
- the fill of `left_most` with 2147483647 (lines 143-144) is `seq(|binOffset|, _ => IntMax)`;
- the copy of `b2h` into `bh` followed by `bh[0] = 1` (lines 233-235) is `b2h[0 := 1]`.

Undefined behaviour of the C code is an explicit error value:
- `None` when a slot write would land past the end of `b2h`;
- `None` when `H <<= 1` would overflow a 32-bit `int`.

Modules follow the program's structure:

| module | file | contents |
|---|---|---|
| `Alphabet` | alphabet.dfy | `alpha_rank` and the alphabet |
| `LexOrder` | lexorder.dfy | `strcmp` as a three-way comparison; the strict order it induces |
| `Counting` | counting.dfy | repetition-free sequences, permutations, inverses, pigeonhole |
| `SuffixArray` | suffixarray.dfy | what a suffix array is, and that it is unique |
| `Naive` | naive.dfy | `suffix_compare` and `suffix_sorting_0` |
| `FirstStage` | firststage.dfy | lines 74-100 |
| `Buckets` | buckets.dfy | lines 109-163: head counting, bin sizes and offsets, the reset to bucket starts |
| `ScanState` | scanstate.dfy | the bookkeeping the bucket scan is proved against (offsets moved, slots taken, marks) |
| `Refine` | refine.dfy | the bucket scan, lines 165-226 |
| `ScanMarks` | marks.dfy | which slots the bucket scan leaves marked in `b2h` |
| `ScanUnique` | scanunique.dfy | the bucket scan's contract leaves exactly one possible result |
| `Doubling` | doubling.dfy | one round (lines 104-241) and the whole constructor |
| `Divergence` | divergence.dfy | the run of both constructors on `aa$` |
| `Options` | options.dfy | the `Option` result type |

The doubling constructor is not shown to produce a suffix array, because in general it does
not. On `aa$` its first early-exit test fires right after the first stage: there is one
non-head, which is not more than H = 1. So it returns the first-symbol order `[2, 0, 1]`.
The naive constructor returns the suffix array `[2, 1, 0]`. `Divergence.DivergenceOnAa`
proves both results. Each round is instead specified by the local properties it keeps:
- bucket starts after the reset;
- moves that stay inside their own bucket and never share a slot;
- order by the successor's index within a bucket;
- the slots taken from rank S are exactly S up to S + count[S] - 1;
- marks exactly on the slots that start new buckets: the slot of a moved offset stays
  marked exactly when no earlier index of its successor's bucket lists the successor of an
  offset of the same rank (`ScanMarks.LeadMarks`);
- `pos` sending every new rank some offset took to the last offset that took it, and
  keeping its old entry at every other rank;
- `pos` inverse to the new ranks when they list every offset once;
- `bh[0] == 1`.

From a reset state these properties fix the scan completely: `ScanUnique.ScanDetermined`
proves that two scans satisfying them are equal.

The number of rounds is bounded by ⌈log2 len⌉.

## Model

| member | source | states |
|---|---|---|
| Alphabet.AlphaRank | suffix_sort/suffix_sort.c:7-19 | The rank is -1 exactly for characters outside `$acgt`. Otherwise it is the position of the character in the alphabet listing, so it lies in [0, 5). |
| Alphabet.RankOfListedSymbol | suffix_sort/suffix_sort.c:7-19 | The rank of the i-th symbol of the listing `$acgt` is i, so every rank in [0, 5) is taken by exactly the symbol at that place. |
| Alphabet.RankMonotone | suffix_sort/suffix_sort.c:9-16 | On alphabet symbols, character-code order and rank order agree, in both directions, and equal ranks mean equal symbols. |
| LexOrder.Compare | suffix_sort/suffix_sort.c:34 | The strcmp model returns -1, 0 or 1, and returns 0 exactly when the strings are equal. |
| LexOrder.CompareAntisymmetric | suffix_sort/suffix_sort.c:34 | Swapping the arguments negates the comparison. |
| LexOrder.LessTransitive | suffix_sort/suffix_sort.c:34 | The order strcmp induces is transitive, as qsort requires of its comparator. |
| LexOrder.LessTotal | suffix_sort/suffix_sort.c:34 | Any two different strings are ordered one way or the other. |
| LexOrder.CompareIsRankCompare | suffix_sort/suffix_sort.c:30-35 | On alphabet strings, strcmp's byte order equals comparison by alphabet rank, with the end of the string lowest. |
| Naive.SuffixCompare | suffix_sort/suffix_sort.c:30-35 | On a NUL-free string the comparator is negative exactly when suffix i precedes suffix j, positive exactly in the other case, and zero exactly when i == j. |
| Naive.InsertSuffix | suffix_sort/suffix_sort.c:49 | Inserting an offset into a suffix-sorted list gives a suffix-sorted list holding exactly the old entries and the new offset. |
| Naive.SortOffsets | suffix_sort/suffix_sort.c:41-49 | Sorting offsets 0..k-1 gives k entries, exactly those offsets, strictly increasing by suffix. |
| Naive.SuffixSorting0 | suffix_sort/suffix_sort.c:38-58 | The naive constructor returns a suffix array: a permutation of the offsets, sorted by suffix. |
| Naive.NaiveIsTheSuffixArray | suffix_sort/suffix_sort.c:38-58 | A sequence is a suffix array of s if and only if it equals the naive constructor's result. |
| Naive.NaiveOnRepeatedLetter | suffix_sort/suffix_sort.c:38-58 | On `gggg$` the naive constructor returns `[4, 3, 2, 1, 0]`. |
| SuffixArray.SuffixArrayUnique | suffix_sort/suffix_sort.c:49-54 | Two suffix arrays of the same string are equal, so any correct sort gives qsort's result. |
| Counting.InverseOfPermutation | suffix_sort/suffix_sort.c:94-95 | If pos is a permutation and prm[pos[i]] == i for all i, then prm is a permutation and pos[prm[t]] == t for all t. |
| FirstStage.RankClassesSorted | suffix_sort/suffix_sort.c:90-91 | The rank classes laid end to end hold every offset of rank below r, each entry is such an offset, and the list is ordered by rank and then by offset. |
| FirstStage.FirstSymbolOrder | suffix_sort/suffix_sort.c:74-91 | The intended first-stage order is a permutation of the offsets, ordered by first-symbol rank and, within a rank, by increasing offset (a stable sort). |
| FirstStage.FirstHeadsStartClasses | suffix_sort/suffix_sort.c:98-100 | A first-stage head sits exactly where the first-symbol rank changes. |
| FirstStage.CountSymbols | suffix_sort/suffix_sort.c:75-81 | bin[r] is the number of offsets whose symbol has rank r, for every r below ALPHA_SIZE + 1. |
| FirstStage.ClassOffsets | suffix_sort/suffix_sort.c:84-87 | offset[r] is the position where rank class r starts, namely the number of offsets of smaller rank. |
| FirstStage.PlaceOffsets | suffix_sort/suffix_sort.c:90-91 | Dropping each offset into the next free slot of its class yields exactly the first-stage order. |
| FirstStage.PlacingStep | suffix_sort/suffix_sort.c:91 | One step of the placing loop keeps its invariant: every class's next free slot follows its members so far, and those members sit in their slots. |
| FirstStage.PlacedEntry | suffix_sort/suffix_sort.c:91 | After offset i is written to its class's next free slot, every member placed so far, in every class, still sits in its slot. |
| FirstStage.InvertOrder | suffix_sort/suffix_sort.c:94-95 | The rank array is the inverse of the first-stage order. |
| FirstStage.FirstBucketHeads | suffix_sort/suffix_sort.c:98-100 | bh[0] == 1. For i ≥ 1, bh[i] == 1 exactly when the symbol at pos[i] differs from the one at pos[i-1]. |
| FirstStage.BuildFirstStage | suffix_sort/suffix_sort.c:74-100 | The first stage yields: pos, a permutation sorted stably by first symbol; prm, its inverse; and bh, with bh[0] == 1 and heads exactly where the symbol changes. |
| Buckets.HeadsBelowSorted | suffix_sort/suffix_sort.c:123-139 | The head list holds exactly the flagged positions, each entry is a flagged position, and the list is strictly increasing. |
| Buckets.CountHeads | suffix_sort/suffix_sort.c:110-117 | num_bin is the number of heads, and num_zero is the number of all other positions. |
| Buckets.BinSizes | suffix_sort/suffix_sort.c:123-133 | bin_size[k] is the distance from the k-th head to the next head, or to len for the last bucket. |
| Buckets.BinOffsets | suffix_sort/suffix_sort.c:123-139 | The exclusive prefix sums of the bucket sizes are exactly the head positions, in order. |
| Buckets.FindBin | suffix_sort/suffix_sort.c:147-150 | The scan returns the bin whose offset is at most p and whose successor's offset, if any, is above p. |
| Buckets.InBinUnique | suffix_sort/suffix_sort.c:147-150 | With increasing offsets, a position lies in at most one bin. |
| Buckets.InBinIsBucket | suffix_sort/suffix_sort.c:155-163 | For the head list, the bin holding p starts at the head of p's bucket. |
| Buckets.LeftMost | suffix_sort/suffix_sort.c:141-153 | left_most[j] is at most every rank in bin j, equals one of them when the bin is hit, and stays 2147483647 when no rank falls in bin j. |
| Buckets.ResetEntry | suffix_sort/suffix_sort.c:156-163 | The least rank in the bin of prm[i] lies between the start of prm[i]'s bucket and prm[i]. When every position is some offset's rank, it equals that bucket start. |
| Buckets.ResetToBucketStarts | suffix_sort/suffix_sort.c:141-163 | Every new rank lies between the start of its old rank's bucket and the old rank. When the ranks cover every position, each new rank is exactly that bucket start. |
| Buckets.SameBucket | suffix_sort/suffix_sort.c:175-187 | Every position between a bucket's head and its end has that same head. |
| Refine.BucketRight | suffix_sort/suffix_sort.c:178-187 | The right boundary found from head l is the last position before the next head, or len - 1. |
| Refine.ClearRun | suffix_sort/suffix_sort.c:211-218 | Exactly the marks strictly after slot p, up to the first head, unmarked position or array end, are cleared. Every other entry is kept. |
| Refine.RunEndIs | suffix_sort/suffix_sort.c:212-213 | When every entry from k up to e is a marked non-head and e is the end, a head or unmarked, the run search from k stops exactly at e. |
| Refine.ClearAt | suffix_sort/suffix_sort.c:205-219 | Visiting index i changes a mark only from 1 to 0, only on a non-head, and only after the slot of pos[i]'s predecessor. From a reset state it advances the clearing marks (ClearPhase) past index i. |
| Refine.ClearVisit | suffix_sort/suffix_sort.c:207-218 | From a reset state, clearing the run after a predecessor's marked slot clears exactly the other slots of its group, which advances ClearPhase past its index. |
| Refine.ClearBucket | suffix_sort/suffix_sort.c:204-221 | A mark changes only from 1 to 0, only on a non-head, and only after the slot of some predecessor from the bucket. From a reset state, of the slots each rank took from the bucket only the first keeps its mark (MovePhase for the next bucket). |
| Refine.MoveAt | suffix_sort/suffix_sort.c:193-199 | Visiting index i keeps ranks in range and only growing, and reports the out-of-bounds slot write. From a reset state the write never leaves the arrays, and the move bookkeeping and the marks of the move phase (MovePhase) are kept for index i + 1. |
| Refine.MoveBucket | suffix_sort/suffix_sort.c:191-201 | The same for the whole bucket [l, r]: a completed pass keeps ranks in range and growing. From a reset state it always completes with the bookkeeping and the move-phase marks carried to r + 1. |
| Refine.MoveHeaded | suffix_sort/suffix_sort.c:191-201 | The moving pass of one bucket from its head: from a reset state it completes, and every predecessor whose successor lies in the bucket takes a slot from the counters as they stood at the bucket's start. |
| Refine.MovesDone | suffix_sort/suffix_sort.c:191-201 | After the moves for a bucket from a reset state, every slot and every offset can be read off the bookkeeping, as the clearing pass needs. |
| Refine.ClearMoved | suffix_sort/suffix_sort.c:204-221 | The clearing pass of one bucket keeps the marks bits and, from a reset state, keeps every bucket that received a move marked at its head and leaves the marks the next bucket's moves start from. |
| Refine.ScanFrom | suffix_sort/suffix_sort.c:174-226 | Scanning from head l to the end yields a scan with ScanShape. From a reset state it always completes and satisfies ScanOrder, including that the slots taken from rank S are exactly S up to S + count[S] - 1. With bit-valued heads its marks satisfy LeadMarks. |
| Refine.ScanBuckets | suffix_sort/suffix_sort.c:165-226 | A completed scan satisfies ScanShape: ranks only rise, stay below len, and offsets without a visited successor keep their rank. From a reset state the scan always completes and satisfies ScanOrder: each predecessor moves inside its own bucket, no two predecessors share a slot, within a bucket they follow their successors' order, the slots taken from rank S are exactly S up to S + count[S] - 1 (line 196 raises the counter of S and line 197 gives the slot S + count[S] - 1), every mark lies on a taken slot, and every bucket that received a move has its head marked. With bit-valued heads the marks also satisfy LeadMarks: a moved offset's slot is marked exactly when its successor is the first in its bucket whose predecessor has that rank. |
| ScanMarks.PhaseStart | suffix_sort/suffix_sort.c:166-171 | With no slot taken and every mark zero, the marks are those of the move phase of the first bucket. |
| ScanMarks.PhaseTaken | suffix_sort/suffix_sort.c:196-198 | Taking a free slot and marking it keeps the move-phase marks: a slot is marked exactly when its holder's successor lies in the current bucket or the slot starts its group. |
| ScanMarks.MarksTaken | suffix_sort/suffix_sort.c:193-199 | The move at index i of a reset state keeps both the counter snapshot of the bucket (Block) and the move-phase marks. |
| ScanMarks.MarksSkip | suffix_sort/suffix_sort.c:193-195 | Visiting an index whose offset has no predecessor keeps the counter snapshot of the bucket. |
| ScanMarks.HeadIsFirst | suffix_sort/suffix_sort.c:191-201 | After the moves for a bucket, a slot taken by a predecessor whose successor lies in the bucket starts its group exactly when it is the first slot its rank took from the bucket. |
| ScanMarks.ClearStart | suffix_sort/suffix_sort.c:201-204 | After the moves for a bucket, the move-phase marks are the marks the clearing pass starts from. |
| ScanMarks.VisitMark | suffix_sort/suffix_sort.c:205-219 | Visiting index i removes from the marks exactly the later slots of the group whose first slot the predecessor of pos[i] holds, and nothing else. |
| ScanMarks.RunFacts | suffix_sort/suffix_sort.c:207-213 | When a predecessor's slot is marked during clearing, it is the first slot its rank took from the bucket, the later slots of that rank follow as marked non-heads, and the entry after them is the end, a head, or unmarked. |
| ScanMarks.ClearLeadStep | suffix_sort/suffix_sort.c:207-218 | Clearing the rest of the group of the predecessor at index i advances the clearing marks past i. |
| ScanMarks.ClearSkipStep | suffix_sort/suffix_sort.c:205-207 | Visiting an index whose offset has no predecessor, or whose predecessor's slot is unmarked, advances the clearing marks past it without a change. |
| ScanMarks.ClearEnd | suffix_sort/suffix_sort.c:204-221 | Once the clearing pass has visited the whole bucket, the marks are those of the move phase of the next bucket. |
| ScanMarks.HeadLeads | suffix_sort/suffix_sort.c:165-226 | After the whole scan, the slot of the predecessor of pos[x] starts its group exactly when x leads: no earlier index of x's bucket lists a successor of an offset of the same rank. |
| ScanMarks.FactsLead | suffix_sort/suffix_sort.c:165-226 | The move-phase marks after the last bucket are LeadMarks: the slot of every moved offset is marked exactly when its successor's index leads. |
| ScanState.FactsBelowCount | suffix_sort/suffix_sort.c:196-197 | After the whole scan, every predecessor's slot lies below its rank's start plus the final counter of that rank. |
| ScanState.FactsDense | suffix_sort/suffix_sort.c:196-197 | After the whole scan, every slot from S up to S + count[S] - 1 is held by the predecessor of some listed offset of rank S. |
| ScanUnique.ScanDetermined | suffix_sort/suffix_sort.c:165-226 | From a reset state, two scans that both satisfy ScanShape, ScanOrder and LeadMarks are equal: the contract fixes the new ranks, the counters and the marks. |
| ScanState.SlotBound | suffix_sort/suffix_sort.c:196-197 | In a reset state, the next slot an unmoved offset would take, bucket start plus count, is still inside the offset's bucket. |
| ScanState.MoveTaken | suffix_sort/suffix_sort.c:196-198 | Taking the next slot of a bucket and marking it keeps the move bookkeeping and the meaning of the marks. |
| ScanState.ClearKeepsMarks | suffix_sort/suffix_sort.c:209-218 | Clearing marks only on non-heads keeps every mark on a taken slot, and keeps every bucket that received a move marked at its head. |
| Doubling.ConsistentReset | suffix_sort/suffix_sort.c:141-163 | When pos is a permutation and prm its inverse, the reset sends every rank to the start of its bucket, which is the reset state the scan is specified from. |
| Doubling.UpdatePos | suffix_sort/suffix_sort.c:228-230 | An entry v named by the new ranks ends up holding the last i with prm[i] == v. Other entries are unchanged. When the ranks are repetition-free, pos and prm are inverse. When they are a permutation, so is the new pos. |
| Doubling.FinishRound | suffix_sort/suffix_sort.c:228-235 | The new stage takes its ranks from the scan and its heads from the marks, with bh[0] == 1. Its pos holds, at every rank v some offset took, the last offset with rank v, and keeps the old entry at every other v. It is well shaped, and it is consistent whenever the new ranks are a permutation. |
| Doubling.RefineRound | suffix_sort/suffix_sort.c:123-235 | A completed round has RoundShape: reset ranks between bucket start and old rank, a scan with ScanShape, and a well-shaped next stage with bh[0] == 1 whose pos sends every rank v some offset took to the last offset with rank v and keeps the old entry elsewhere. From a consistent stage the round always completes, the reset ranks are the bucket starts, the scan satisfies ScanOrder, and its marks satisfy LeadMarks. |
| Doubling.CeilLog2 | suffix_sort/suffix_sort.c:104 | The least k with n ≤ 2^k. |
| Doubling.CeilLog2Least | suffix_sort/suffix_sort.c:104 | Any exponent whose power of two reaches n is at least CeilLog2 n. |
| Doubling.RoundsBound | suffix_sort/suffix_sort.c:104 | If every completed round ran with H = 2^(rounds-1) < n, there were at most ⌈log2 n⌉ rounds. |
| Doubling.SuffixSorting1 | suffix_sort/suffix_sort.c:62-253 | The constructor runs at most ⌈log2 len⌉ rounds. A result lists len offsets below len. When the first stage leaves at most one non-head, the result is the first-stage order after zero rounds. |
| Divergence.FirstStageOnAa | suffix_sort/suffix_sort.c:74-100 | On `aa$` the first stage gives pos = `[2, 0, 1]` and bh = `[1, 1, 0]`, which leaves one non-head. |
| Divergence.SuffixArrayOfAa | suffix_sort/suffix_sort.c:38-58 | `[2, 1, 0]` is the suffix array of `aa$`, and `[2, 0, 1]` is not. |
| Divergence.DivergenceOnAa | suffix_sort/suffix_sort.c:62-253 | On `aa$` the doubling constructor returns `[2, 0, 1]` after zero rounds, which is not a suffix array, while the naive constructor returns `[2, 1, 0]`, which is. |

## Left out

- Memory management (`malloc`/`free`) and the commented-out `printf` calls have no
  counterpart. Arrays are immutable sequences.
- Whole-algorithm correctness of `suffix_sorting_1` is not claimed. It does not hold:
  `Divergence.DivergenceOnAa` exhibits an input where the result is not a suffix array.
- Doubling.SuffixSorting1: requires `1 <= len` and every symbol in the alphabet. With
  `len == 0` the C code writes `bh[0]`, and a foreign symbol indexes `bin[-1]`; both are
  undefined behaviour. It also requires `len <= 2147483647`, the range of a C `int` length.
- Doubling.SuffixSorting1: the C code has undefined behaviour in two places, and the model
  returns `None` for both:
  - a slot write `b2h[prm[Ti]]` past the end of the array;
  - `H <<= 1` overflowing.
- Buckets.FindBin: lines 148 and 159 read `bin_offset[num_bin]`, one past the end of
  `bin_offset`, whenever the scan reaches the last bin. That read is undefined behaviour,
  and it is the only one here. Otherwise the model and the C loop agree on every input:
  at `j == num_bin` the test `j < num_bin` is false whatever the stray value is, so both
  loops stop there and step back to bin `num_bin - 1`. The model tests the bound first
  and never reads past it.
- Refine.ClearRun: line 212 may read `bh[len]` past the end. The model treats index `len` as a
  head sentinel, so every run ends at the array's end at the latest.
- `ALPHA_SIZE` is taken as 4 (the letters a, c, g, t), giving 5 counting-sort bins, one
  per rank 0..4 of `$acgt`. `suffix_sort/suffix_sort.h` is not part of this model.
- The bucket counter `n` (line 225) is never read and is not modelled. The `rounds`
  out-parameter of `SuffixSorting1` counts the completed rounds, to state the bound.
- Refine.ClearBucket: which marks it leaves is stated exactly only from a reset state with
  bit-valued heads (MovePhase and ClearPhase). For other inputs it states only which marks
  may change: 1 to 0, on a non-head, after a predecessor's slot.
- Refine.ScanBuckets: LeadMarks is stated only when every `bh` entry is 0 or 1. Every
  stage the constructor builds has that property (`Doubling.WellShaped`), since `bh` is a
  copy of the marks.
- Doubling.RefineRound: the ordering facts (ScanOrder, LeadMarks, reset ranks equal to
  bucket starts) are stated only for a consistent stage, where pos is a permutation and prm its inverse.
  The C code does not keep that state in general, so for other inputs only RoundShape is
  claimed.
- LexOrder.Compare: compares characters by code point, while `strcmp` compares unsigned
  bytes. Characters above U+00FF have no C counterpart. Below U+0100, and so on the
  alphabet `$acgt`, the two orders agree.
- Naive.SortOffsets: `qsort` is modelled by an insertion sort. Any correct sort gives the
  same result: by `SuffixArray.SuffixArrayUnique` a suffix array is unique, and the
  comparator is a strict total order on distinct suffixes.
- Naive.SuffixCompare: requires a string without NUL characters. `strcmp` would stop at
  an embedded NUL.
- Naive.SuffixCompare: relies on `str[len] == '\0'`. `strcmp` at line 34 reads each
  suffix up to the terminator, so the C string must be NUL-terminated. The model's
  strings carry their length and need no terminator.
