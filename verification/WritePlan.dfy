/** The compressed-write plan of one forward: rows that each own a range of
    blocks are compacted into a fixed number of entries by a running sum and a
    right-sided search, and the entries left over write the reserved slot 0. */
module WritePlan {
  import opened Arithmetic

  // One entry of the plan. The block is not returned by the source but fixes
  // the group's last position, `block * ratio + ratio - 1`.
  datatype Entry = Entry(loc: nat, groupEnd: nat, row: nat, member: int)

  // What extend forwards add: where each row's tokens start in the packed
  // tensors, and how many tokens precede the chunk.
  datatype Chunks = Paged | Extend(tokenStarts: seq<nat>, prefixes: seq<nat>)

  // --- Tensor arithmetic of the source ---------------------------------

  // `(end - start).clamp_min(0)`
  function Count(start: nat, end: nat): nat {
    if start < end then end - start else 0
  }

  // The sum of the first n counts, entry n - 1 of the running sum.
  function Total(starts: seq<nat>, ends: seq<nat>, n: nat): nat
    requires n <= |starts| == |ends|
  {
    if n == 0 then 0 else Total(starts, ends, n - 1) + Count(starts[n - 1], ends[n - 1])
  }

  function RunningSum(starts: seq<nat>, ends: seq<nat>): (sums: seq<nat>)
    requires |starts| == |ends|
    ensures |sums| == |starts|
  {
    seq(|starts|, i requires 0 <= i < |starts| => Total(starts, ends, i + 1))
  }

  // `searchsorted(right=True)`: the first index whose value exceeds e.
  function SearchRight(sums: seq<nat>, e: nat, from: nat := 0): (i: nat)
    requires from <= |sums|
    ensures from <= i <= |sums|
    ensures forall j | from <= j < i :: sums[j] <= e
    ensures i < |sums| ==> e < sums[i]
    decreases |sums| - from
  {
    if from == |sums| || e < sums[from] then from else SearchRight(sums, e, from + 1)
  }

  // The table is wide enough for every planned block.
  predicate Covers(table: seq<seq<nat>>, ends: seq<nat>, ratio: nat) {
    && |table| == |ends|
    && forall r | 0 <= r < |ends| :: ends[r] * ratio <= |table[r]|
  }

  predicate ChunksFit(chunks: Chunks, rows: nat) {
    chunks.Extend? ==> |chunks.tokenStarts| == rows && |chunks.prefixes| == rows
  }

  function Member(chunks: Chunks, row: nat, block: nat, ratio: nat): int
    requires chunks.Extend? ==> row < |chunks.tokenStarts| && row < |chunks.prefixes|
  {
    if chunks.Paged? then 0 else chunks.tokenStarts[row] + block * ratio - chunks.prefixes[row]
  }

  function Inert(ratio: nat): Entry
    requires 0 < ratio
  {
    Entry(0, ratio - 1, 0, 0)
  }

  predicate Planned(starts: seq<nat>, ends: seq<nat>, n: nat, pair: (nat, nat))
    requires n <= |starts| == |ends|
  {
    pair.0 < n && starts[pair.0] <= pair.1 < ends[pair.0]
  }

  // The entry that writes one (row, block) pair: the group's slot is its first
  // raw slot divided by the ratio.
  function PairEntry(table: seq<seq<nat>>, starts: seq<nat>, ends: seq<nat>, ratio: nat, chunks: Chunks,
                     pair: (nat, nat)): Entry
    requires 0 < ratio && |starts| == |ends| && Planned(starts, ends, |starts|, pair)
    requires Covers(table, ends, ratio) && ChunksFit(chunks, |starts|)
  {
    var (row, block) := pair;
    MulMonotone(block + 1, ends[row], ratio);
    Entry(table[row][block * ratio] / ratio, block * ratio + (ratio - 1), row, Member(chunks, row, block, ratio))
  }

  function PlanEntry(table: seq<seq<nat>>, starts: seq<nat>, ends: seq<nat>, ratio: nat, chunks: Chunks, e: nat): Entry
    requires 0 < ratio && |starts| == |ends| > 0
    requires Covers(table, ends, ratio) && ChunksFit(chunks, |starts|)
  {
    var sums := RunningSum(starts, ends);
    if e < sums[|sums| - 1] then
      var row := SearchRight(sums, e);
      assert row <= |sums| - 1;
      var rowStart := sums[row] - Count(starts[row], ends[row]);
      OwnerInRange(starts, ends, row, e);
      PairEntry(table, starts, ends, ratio, chunks, (row, starts[row] + e - rowStart))
    else
      Inert(ratio)
  }

  function Plan(table: seq<seq<nat>>, starts: seq<nat>, ends: seq<nat>, capacity: nat, ratio: nat,
        chunks: Chunks): (plan: seq<Entry>)
    requires 0 < ratio && |starts| == |ends| > 0
    requires Covers(table, ends, ratio) && ChunksFit(chunks, |starts|)
    ensures |plan| == capacity
  {
    seq(capacity, e requires 0 <= e < capacity => PlanEntry(table, starts, ends, ratio, chunks, e))
  }

  // --- Reference: the pairs written out row by row -----------------------

  function RowPairs(row: nat, start: nat, end: nat): seq<(nat, nat)> {
    seq(Count(start, end), j requires 0 <= j => (row, start + j))
  }

  function Pairs(starts: seq<nat>, ends: seq<nat>, n: nat): (pairs: seq<(nat, nat)>)
    requires n <= |starts| == |ends|
    ensures |pairs| == Total(starts, ends, n)
  {
    if n == 0 then [] else Pairs(starts, ends, n - 1) + RowPairs(n - 1, starts[n - 1], ends[n - 1])
  }

  function AllPairs(starts: seq<nat>, ends: seq<nat>): seq<(nat, nat)>
    requires |starts| == |ends|
  {
    Pairs(starts, ends, |starts|)
  }

  // --- Proofs --------------------------------------------------------------

  // The row the search returns owns entry e, at a block inside its range.
  lemma OwnerInRange(starts: seq<nat>, ends: seq<nat>, row: nat, e: nat)
    requires |starts| == |ends| && row < |starts|
    requires row == SearchRight(RunningSum(starts, ends), e)
    ensures Total(starts, ends, row) <= e < Total(starts, ends, row + 1)
    ensures RunningSum(starts, ends)[row] - Count(starts[row], ends[row]) == Total(starts, ends, row)
    ensures starts[row] <= starts[row] + e - Total(starts, ends, row) < ends[row]
  {
    if row > 0 {
      assert RunningSum(starts, ends)[row - 1] == Total(starts, ends, row);
    }
  }

  lemma {:induction false} PairAt(starts: seq<nat>, ends: seq<nat>, n: nat, row: nat, e: nat)
    requires row < n <= |starts| == |ends|
    requires Total(starts, ends, row) <= e < Total(starts, ends, row + 1)
    ensures e < |Pairs(starts, ends, n)|
    ensures Pairs(starts, ends, n)[e] == (row, starts[row] + e - Total(starts, ends, row))
  {
    if row < n - 1 {
      PairAt(starts, ends, n - 1, row, e);
    }
  }

  // Entry e of the plan writes the e-th pair; the entries past the last pair
  // are inert, whatever the capacity.
  lemma PlanListsPairs(table: seq<seq<nat>>, starts: seq<nat>, ends: seq<nat>, capacity: nat, ratio: nat,
        chunks: Chunks, e: nat)
    requires 0 < ratio && |starts| == |ends| > 0
    requires Covers(table, ends, ratio) && ChunksFit(chunks, |starts|)
    requires e < capacity
    ensures var pairs := AllPairs(starts, ends);
            var entry := Plan(table, starts, ends, capacity, ratio, chunks)[e];
            if e < |pairs| then
              && Planned(starts, ends, |starts|, pairs[e])
              && entry == PairEntry(table, starts, ends, ratio, chunks, pairs[e])
              && entry.row == pairs[e].0 && entry.groupEnd + 1 == (pairs[e].1 + 1) * ratio
            else
              entry == Inert(ratio) && entry.loc == entry.row == entry.member == 0 && entry.groupEnd + 1 == ratio
  {
    if e < |AllPairs(starts, ends)| {
      var sums := RunningSum(starts, ends);
      var row := SearchRight(sums, e);
      assert e < sums[|sums| - 1];
      OwnerInRange(starts, ends, row, e);
      PairAt(starts, ends, |starts|, row, e);
      Successor(AllPairs(starts, ends)[e].1, ratio);
    }
  }

  predicate Precedes(a: (nat, nat), b: (nat, nat)) {
    a.0 < b.0 || (a.0 == b.0 && a.1 < b.1)
  }

  // The pairs are exactly the planned blocks, in row-major order, each once.
  lemma {:induction false} PairsAreThePlannedBlocks(starts: seq<nat>, ends: seq<nat>, n: nat)
    requires n <= |starts| == |ends|
    ensures forall pair: (nat, nat) :: pair in Pairs(starts, ends, n) <==> Planned(starts, ends, n, pair)
    ensures forall i, j | 0 <= i < j < |Pairs(starts, ends, n)| ::
        Precedes(Pairs(starts, ends, n)[i], Pairs(starts, ends, n)[j])
  {
    if n > 0 {
      PairsAreThePlannedBlocks(starts, ends, n - 1);
      var before, last := Pairs(starts, ends, n - 1), RowPairs(n - 1, starts[n - 1], ends[n - 1]);
      forall pair: (nat, nat) | Planned(starts, ends, n, pair) && pair.0 == n - 1
        ensures pair in last
      {
        assert last[pair.1 - starts[n - 1]] == pair;
      }
      forall i | 0 <= i < |before|
        ensures before[i].0 < n - 1
      {
        assert before[i] in before;
      }
    }
  }

  // --- Capacity ------------------------------------------------------------

  // First block of the range a paged row owns: the one block its length
  // completes, if any. A length of zero would start at block -1; a paged row
  // always holds its own token.
  function PagedStart(length: nat, ratio: nat): (start: nat)
    requires 0 < ratio && 0 < length
  {
    Split(length, ratio);
    length / ratio - if length % ratio == 0 then 1 else 0
  }

  lemma PagedRange(length: nat, ratio: nat, block: nat)
    requires 0 < ratio && 0 < length
    ensures PagedStart(length, ratio) <= block < length / ratio <==> length == (block + 1) * ratio
  {
    Split(length, ratio);
    if length == (block + 1) * ratio {
      QuotientUnique(length, ratio, block + 1, 0);
    }
    if PagedStart(length, ratio) <= block < length / ratio {
      assert length % ratio == 0;
      assert block + 1 == length / ratio;
    }
  }

  // At most one block per paged row, so as many entries as rows suffice.
  lemma {:induction false} PagedCapacity(starts: seq<nat>, ends: seq<nat>, lengths: seq<nat>, ratio: nat, n: nat)
    requires 0 < ratio && n <= |starts| == |ends| == |lengths|
    requires forall i | 0 <= i < |lengths| ::
               0 < lengths[i] && starts[i] == PagedStart(lengths[i], ratio) && ends[i] == lengths[i] / ratio
    ensures |Pairs(starts, ends, n)| <= n
  {
    if n > 0 {
      PagedCapacity(starts, ends, lengths, ratio, n - 1);
    }
  }

  // A chunk of x tokens after an aligned prefix of p completes floor(x / ratio)
  // groups.
  lemma AlignedChunkCount(p: nat, x: nat, ratio: nat)
    requires 0 < ratio && p % ratio == 0
    ensures (p + x) / ratio == p / ratio + x / ratio
  {
    Split(p, ratio);
    DivAddMultiple(p / ratio, ratio, x);
  }

  function WholeGroups(chunkLengths: seq<nat>, ratio: nat): seq<nat>
    requires 0 < ratio
  {
    seq(|chunkLengths|, i requires 0 <= i < |chunkLengths| => chunkLengths[i] / ratio)
  }

  lemma {:induction false} PairsWithinGroups(starts: seq<nat>, ends: seq<nat>, groups: seq<nat>, n: nat)
    requires n <= |starts| == |ends| == |groups|
    requires forall i | 0 <= i < |starts| :: ends[i] <= starts[i] + groups[i]
    ensures |Pairs(starts, ends, n)| <= SumTo(groups, n)
  {
    if n > 0 {
      PairsWithinGroups(starts, ends, groups, n - 1);
    }
  }

  lemma {:induction false} FloorsWithinTotal(chunkLengths: seq<nat>, ratio: nat, n: nat)
    requires 0 < ratio && n <= |chunkLengths|
    ensures SumTo(WholeGroups(chunkLengths, ratio), n) <= SumTo(chunkLengths, n) / ratio
  {
    if n > 0 {
      FloorsWithinTotal(chunkLengths, ratio, n - 1);
      FloorsAdd(SumTo(chunkLengths, n - 1), chunkLengths[n - 1], ratio);
    }
  }

  // Chunks that start on a group boundary complete at most floor(tokens / ratio)
  // groups between them; the source adds one spare entry per row.
  lemma ExtendCapacity(starts: seq<nat>, ends: seq<nat>, chunkLengths: seq<nat>, ratio: nat)
    requires 0 < ratio && |starts| == |ends| == |chunkLengths|
    requires forall i | 0 <= i < |starts| :: ends[i] <= starts[i] + WholeGroups(chunkLengths, ratio)[i]
    ensures |AllPairs(starts, ends)| <= SumTo(chunkLengths, |chunkLengths|) / ratio
  {
    PairsWithinGroups(starts, ends, WholeGroups(chunkLengths, ratio), |starts|);
    FloorsWithinTotal(chunkLengths, ratio, |starts|);
  }

  lemma FloorsAdd(a: nat, b: nat, ratio: nat)
    requires 0 < ratio
    ensures a / ratio + b / ratio <= (a + b) / ratio
  {
    Split(a, ratio);
    Split(b, ratio);
    DivGalois(a + b, ratio, a / ratio + b / ratio);
    assert (a / ratio + b / ratio) * ratio == a / ratio * ratio + b / ratio * ratio;
  }
}
