/** Sparse index packing and K/V extraction. Each row's valid indices move to the
    front in order; their K/V entries are then copied, row after row, into one
    packed buffer. Kernel instances store in any order. */
module IndexPacking {
  import opened Arithmetic
  import Scatter

  predicate Valid(row: seq<int>, length: int, c: nat)
    requires c < |row|
  {
    0 <= row[c] < length
  }

  // How many of the first n indices are valid.
  function Count(row: seq<int>, length: int, n: nat): (count: nat)
    requires n <= |row|
    ensures count <= n
  {
    if n == 0 then 0 else Count(row, length, n - 1) + if Valid(row, length, n - 1) then 1 else 0
  }

  // The valid indices, in order.
  function Filter(row: seq<int>, length: int, n: nat): (kept: seq<int>)
    requires n <= |row|
    ensures |kept| == Count(row, length, n)
    ensures forall i | 0 <= i < |kept| :: 0 <= kept[i] < length
  {
    if n == 0 then []
    else Filter(row, length, n - 1) + if 0 <= row[n - 1] < length then [row[n - 1]] else []
  }

  function Selected(row: seq<int>, length: int): seq<int> {
    Filter(row, length, |row|)
  }

  // The stable filter, padded with -1 to the row's width.
  function Packed(row: seq<int>, length: int): (packed: seq<int>)
    ensures |packed| == |row|
  {
    Selected(row, length) + seq(|row| - |Selected(row, length)|, _ => -1)
  }

  // --- Destinations ---------------------------------------------------------------

  // Where column c goes: an inclusive prefix sum places the valid columns, the
  // rest follow.
  function Destination(row: seq<int>, length: int, c: nat): int
    requires c < |row|
  {
    var prefix := Count(row, length, c + 1);
    if Valid(row, length, c) then prefix - 1 else Count(row, length, |row|) + c - prefix
  }

  lemma {:induction false} CountGrows(row: seq<int>, length: int, a: nat, b: nat)
    requires a <= b <= |row|
    ensures Count(row, length, a) <= Count(row, length, b) <= Count(row, length, a) + (b - a)
  {
    if a < b { CountGrows(row, length, a, b - 1); }
  }

  lemma DestinationInRow(row: seq<int>, length: int, c: nat)
    requires c < |row|
    ensures 0 <= Destination(row, length, c) < |row|
    ensures Destination(row, length, c) < Count(row, length, |row|) <==> Valid(row, length, c)
  {
    CountGrows(row, length, c + 1, |row|);
  }

  lemma DestinationsDiffer(row: seq<int>, length: int, a: nat, b: nat)
    requires a < b < |row|
    ensures Destination(row, length, a) != Destination(row, length, b)
  {
    CountGrows(row, length, a + 1, b);
    DestinationInRow(row, length, a);
    DestinationInRow(row, length, b);
  }

  // The column that lands at place k.
  lemma {:induction false} ColumnAt(row: seq<int>, length: int, n: nat, k: nat, valid: bool) returns (c: nat)
    requires n <= |row| && k < if valid then Count(row, length, n) else n - Count(row, length, n)
    ensures c < n && (Valid(row, length, c) <==> valid)
    ensures k == if valid then Count(row, length, c) else c - Count(row, length, c)
  {
    var before := if valid then Count(row, length, n - 1) else n - 1 - Count(row, length, n - 1);
    if Valid(row, length, n - 1) == valid && k == before {
      c := n - 1;
    } else {
      c := ColumnAt(row, length, n - 1, k, valid);
    }
  }

  // Destinations stay in the row and no two columns share one; with `Source`, a
  // permutation of the row's places.
  lemma DestinationsPermute(row: seq<int>, length: int)
    ensures forall c: nat | c < |row| :: 0 <= Destination(row, length, c) < |row|
    ensures forall a: nat, b: nat | a < b < |row| :: Destination(row, length, a) != Destination(row, length, b)
  {
    forall c: nat | c < |row| ensures 0 <= Destination(row, length, c) < |row| { DestinationInRow(row, length, c); }
    forall a: nat, b: nat | a < b < |row| ensures Destination(row, length, a) != Destination(row, length, b) {
      DestinationsDiffer(row, length, a, b);
    }
  }

  lemma Source(row: seq<int>, length: int, k: nat) returns (c: nat)
    requires k < |row|
    ensures c < |row| && Destination(row, length, c) == k
  {
    var total := Count(row, length, |row|);
    if k < total {
      c := ColumnAt(row, length, |row|, k, true);
    } else {
      c := ColumnAt(row, length, |row|, k - total, false);
    }
  }

  lemma {:induction false} FilterAt(row: seq<int>, length: int, n: nat, c: nat)
    requires c < n <= |row| && Valid(row, length, c)
    ensures Count(row, length, c) < |Filter(row, length, n)| && Filter(row, length, n)[Count(row, length, c)] == row[c]
  {
    CountGrows(row, length, c + 1, n);
    if c < n - 1 {
      FilterAt(row, length, n - 1, c);
      CountGrows(row, length, c + 1, n - 1);
    }
  }

  // What column c stores: its index, or the filler.
  function Kept(row: seq<int>, length: int, c: nat): int
    requires c < |row|
  {
    if Valid(row, length, c) then row[c] else -1
  }

  // The packed row holds it at the column's destination.
  lemma StoresPacked(row: seq<int>, length: int, c: nat)
    requires c < |row|
    ensures 0 <= Destination(row, length, c) < |row|
    ensures Packed(row, length)[Destination(row, length, c)] == Kept(row, length, c)
  {
    DestinationInRow(row, length, c);
    if Valid(row, length, c) { FilterAt(row, length, |row|, c); }
  }

  // --- The packing kernel -------------------------------------------------------------

  function RowStores(row: seq<int>, length: int, base: nat, n: nat): (stores: seq<(nat, int)>)
    requires n <= |row|
    ensures |stores| == n
  {
    if n == 0 then []
    else
      var c: nat := n - 1;
      DestinationInRow(row, length, c);
      RowStores(row, length, base, n - 1) + [(base + Destination(row, length, c), Kept(row, length, c))]
  }

  lemma {:induction false} RowStoresPacked(row: seq<int>, length: int, base: nat, n: nat, s: (nat, int))
    requires n <= |row|
    ensures s in RowStores(row, length, base, n) <==>
            exists c | 0 <= c < n :: s == (base + Destination(row, length, c), Kept(row, length, c))
  {
    if n > 0 { RowStoresPacked(row, length, base, n - 1, s); }
  }

  predicate PackedAt(row: seq<int>, length: int, base: nat, before: seq<int>, after: seq<int>, k: nat)
    requires k < |before| == |after|
  {
    after[k] == if base <= k < base + |row| then Packed(row, length)[k - base] else before[k]
  }

  lemma AnyStoreIsPacked(row: seq<int>, length: int, base: nat, s: (nat, int))
    requires s in RowStores(row, length, base, |row|)
    ensures base <= s.0 < base + |row| && s.1 == Packed(row, length)[s.0 - base]
  {
    RowStoresPacked(row, length, base, |row|, s);
    var c :| 0 <= c < |row| && s == (base + Destination(row, length, c), Kept(row, length, c));
    StoresPacked(row, length, c);
  }

  // Whatever order a row's stores take, its place holds the packed row and
  // nothing else moved.
  lemma PackOutcome(row: seq<int>, length: int, base: nat, before: seq<int>, after: seq<int>, k: nat)
    requires base + |row| <= |before| && k < |before|
    requires Scatter.Outcome(before, RowStores(row, length, base, |row|), after)
    ensures PackedAt(row, length, base, before, after, k)
  {
    var stores := RowStores(row, length, base, |row|);
    forall s | s in stores ensures base <= s.0 < base + |row| && s.1 == Packed(row, length)[s.0 - base] {
      AnyStoreIsPacked(row, length, base, s);
    }
    if base <= k < base + |row| {
      var c := Source(row, length, k - base);
      StoresPacked(row, length, c);
      RowStoresPacked(row, length, base, |row|, (k, Packed(row, length)[k - base]));
      Scatter.Written(before, stores, after, k, Packed(row, length)[k - base]);
    } else {
      Scatter.Untouched(before, stores, after, k);
    }
  }

  // One instance packs one row.
  method PackRow(row: seq<int>, length: int, output: array<int>, base: nat)
    requires base + |row| <= output.Length
    modifies output
    ensures forall k: nat | k < output.Length :: PackedAt(row, length, base, old(output[..]), output[..], k)
  {
    ghost var before := output[..];
    var stores := RowStores(row, length, base, |row|);
    forall s | s in stores ensures s.0 < output.Length { AnyStoreIsPacked(row, length, base, s); }
    Scatter.ScatterInto(output, stores);
    forall k: nat | k < output.Length ensures PackedAt(row, length, base, before, output[..], k) {
      PackOutcome(row, length, base, before, output[..], k);
    }
  }

  // Row r of the packed indices, as the extraction kernel loads it.
  function LoadRow(output: seq<int>, width: nat, r: nat): seq<int>
    requires r * width + width <= |output|
  {
    output[r * width..r * width + width]
  }

  predicate RowIs(output: seq<int>, width: nat, r: nat, row: seq<int>) {
    r * width + width <= |output| && LoadRow(output, width, r) == row
  }

  // `compact_sparse_indices`: the rows of the result, back to back.
  predicate PackedRows(indices: seq<seq<int>>, lengths: seq<int>, width: nat, output: seq<int>, n: nat)
    requires n <= |indices| == |lengths|
  {
    forall r: nat | r < n :: RowIs(output, width, r, Packed(indices[r], lengths[r]))
  }

  method CompactSparseIndices(indices: seq<seq<int>>, lengths: seq<int>, width: nat) returns (output: array<int>)
    requires |indices| == |lengths| && forall r | 0 <= r < |indices| :: |indices[r]| == width
    ensures fresh(output) && output.Length == |indices| * width
    ensures PackedRows(indices, lengths, width, output[..], |indices|)
  {
    output := new int[|indices| * width];
    for r := 0 to |indices|
      invariant PackedRows(indices, lengths, width, output[..], r)
    {
      MulMonotone(r + 1, |indices|, width);
      ghost var before := output[..];
      PackRow(indices[r], lengths[r], output, r * width);
      RowAdded(indices, lengths, width, before, output[..], r);
    }
  }

  lemma RowAdded(indices: seq<seq<int>>, lengths: seq<int>, width: nat, before: seq<int>, after: seq<int>, r: nat)
    requires r < |indices| == |lengths| && |indices[r]| == width
    requires PackedRows(indices, lengths, width, before, r) && |before| == |after| == |indices| * width
    requires forall k: nat | k < |before| :: PackedAt(indices[r], lengths[r], r * width, before, after, k)
    ensures PackedRows(indices, lengths, width, after, r + 1)
  {
    RowsInOrder(r, |indices|, width);
    var done := r + 1;
    forall i: nat | i < done ensures RowIs(after, width, i, Packed(indices[i], lengths[i])) {
      if i < r {
        RowsInOrder(i, r, width);
        assert RowIs(before, width, i, Packed(indices[i], lengths[i]));
        EarlierRowStays(indices[r], lengths[r], width, before, after, i, r);
      } else {
        OwnRowPacked(indices[r], lengths[r], width, before, after, r);
      }
    }
  }

  lemma EarlierRowStays(row: seq<int>, length: int, width: nat, before: seq<int>, after: seq<int>, i: nat, r: nat)
    requires |before| == |after| && |row| == width && i * width + width <= r * width && r * width + width <= |before|
    requires forall k: nat | k < |before| :: PackedAt(row, length, r * width, before, after, k)
    ensures i * width + width <= |after| && LoadRow(after, width, i) == LoadRow(before, width, i)
  {
    forall k: nat | i * width <= k < i * width + width ensures after[k] == before[k] {
      assert PackedAt(row, length, r * width, before, after, k);
    }
  }

  lemma OwnRowPacked(row: seq<int>, length: int, width: nat, before: seq<int>, after: seq<int>, r: nat)
    requires |before| == |after| && |row| == width && r * width + width <= |before|
    requires forall k: nat | k < |before| :: PackedAt(row, length, r * width, before, after, k)
    ensures RowIs(after, width, r, Packed(row, length))
  {
    var base := r * width;
    forall k: nat | base <= k < base + width ensures after[k] == Packed(row, length)[k - base] {
      assert PackedAt(row, length, base, before, after, k);
    }
  }

  // --- Counts and prefix sums -----------------------------------------------------------

  // Where each row's segment starts: a tight prefix sum of the valid counts, or
  // one fixed stride.
  function Counts(indices: seq<seq<int>>, lengths: seq<int>): (counts: seq<nat>)
    requires |indices| == |lengths|
    ensures |counts| == |indices|
    ensures forall r | 0 <= r < |indices| :: counts[r] == |Selected(indices[r], lengths[r])|
  {
    if indices == [] then []
    else
      var n := |indices| - 1;
      Counts(indices[..n], lengths[..n]) + [Count(indices[n], lengths[n], |indices[n]|)]
  }

  method PrefixSum(counts: seq<nat>) returns (cu: array<nat>)
    ensures fresh(cu) && cu.Length == |counts| + 1
    ensures forall r | 0 <= r <= |counts| :: cu[r] == SumTo(counts, r)
  {
    cu := new nat[|counts| + 1];
    cu[0] := 0;
    for r := 0 to |counts|
      invariant forall k | 0 <= k <= r :: cu[k] == SumTo(counts, k)
    {
      cu[r + 1] := cu[r] + counts[r];
    }
  }

  // Segments that hold their rows' valid entries and do not overlap.
  predicate Segments(indices: seq<seq<int>>, lengths: seq<int>, cu: seq<nat>)
    requires |indices| == |lengths|
  {
    && |cu| == |indices| + 1
    && forall r | 0 <= r < |indices| :: cu[r] + |Selected(indices[r], lengths[r])| <= cu[r + 1]
  }

  lemma TightSegments(indices: seq<seq<int>>, lengths: seq<int>, cu: seq<nat>)
    requires |indices| == |lengths| && |cu| == |indices| + 1
    requires forall r | 0 <= r <= |indices| :: cu[r] == SumTo(Counts(indices, lengths), r)
    ensures Segments(indices, lengths, cu)
  {
    forall r | 0 <= r < |indices| ensures cu[r] + |Selected(indices[r], lengths[r])| <= cu[r + 1] {
      var next := r + 1;
      assert cu[next] == SumTo(Counts(indices, lengths), next);
    }
  }

  lemma StridedSegments(indices: seq<seq<int>>, lengths: seq<int>, cu: seq<nat>, stride: nat)
    requires |indices| == |lengths| && |cu| == |indices| + 1 && forall r | 0 <= r <= |indices| :: cu[r] == r * stride
    requires forall r | 0 <= r < |indices| :: |indices[r]| <= stride
    ensures Segments(indices, lengths, cu)
  {
    forall r | 0 <= r < |indices| ensures cu[r] + |Selected(indices[r], lengths[r])| <= cu[r + 1] {
      assert (r + 1) * stride == r * stride + stride;
    }
  }

  lemma {:induction false} SegmentsApart(indices: seq<seq<int>>, lengths: seq<int>, cu: seq<nat>, a: nat, b: nat)
    requires |indices| == |lengths| && Segments(indices, lengths, cu) && a < b <= |indices|
    ensures cu[a] + |Selected(indices[a], lengths[a])| <= cu[b]
  {
    if a < b - 1 { SegmentsApart(indices, lengths, cu, a, b - 1); }
  }

  // --- Extraction ----------------------------------------------------------------------

  // The K/V pool seen through the token table; one entry stands for all heads and
  // dimensions of a slot.
  datatype Pool<T> = Pool(entries: seq<T>, table: seq<seq<nat>>)

  predicate HasSlot<T>(p: Pool<T>, request: nat, i: nat)
    requires request < |p.table|
  {
    i < |p.table[request]| && p.table[request][i] < |p.entries|
  }

  datatype Batch = Batch(indices: seq<seq<int>>, packed: seq<seq<int>>, lengths: seq<int>, requests: seq<nat>,
      cu: seq<nat>)
  {
    predicate Valid<T>(p: Pool<T>) {
      && |indices| == |lengths| == |requests| == |packed| && Segments(indices, lengths, cu)
      && (forall r | 0 <= r < |indices| :: packed[r] == Packed(indices[r], lengths[r]))
      && forall r | 0 <= r < |requests| :: requests[r] < |p.table| && Readable(p, requests[r], lengths[r])
    }

    // Position i of a request is in its table row and its slot in the pool.
    predicate Readable<T>(p: Pool<T>, request: nat, length: int)
      requires request < |p.table|
    {
      forall i | 0 <= i < length :: HasSlot(p, request, i)
    }

    function Row(r: nat): seq<int>
      requires r < |indices| == |lengths|
    {
      Selected(indices[r], lengths[r])
    }
  }

  function Entry<T>(p: Pool<T>, b: Batch, r: nat, position: int): T
    requires b.Valid(p) && r < |b.indices| && 0 <= position < b.lengths[r]
  {
    assert b.Readable(p, b.requests[r], b.lengths[r]) && HasSlot(p, b.requests[r], position);
    p.entries[p.table[b.requests[r]][position]]
  }

  // Column c of row r is copied when the count and the packed index say so.
  predicate Copies<T>(p: Pool<T>, b: Batch, r: nat, c: nat)
    requires b.Valid(p) && r < |b.indices| && c < |b.indices[r]|
  {
    && c < b.cu[r + 1] - b.cu[r]
    && 0 <= b.packed[r][c] < b.lengths[r]
  }

  function RowCopies<T>(p: Pool<T>, b: Batch, r: nat, n: nat): (stores: seq<(nat, T)>)
    requires b.Valid(p) && r < |b.indices| && n <= |b.indices[r]|
  {
    if n == 0 then []
    else if !Copies(p, b, r, n - 1) then RowCopies(p, b, r, n - 1)
    else RowCopies(p, b, r, n - 1) + [(b.cu[r] + n - 1, Entry(p, b, r, b.packed[r][n - 1]))]
  }

  function AllCopies<T>(p: Pool<T>, b: Batch, n: nat): (stores: seq<(nat, T)>)
    requires b.Valid(p) && n <= |b.indices|
  {
    if n == 0 then [] else AllCopies(p, b, n - 1) + RowCopies(p, b, n - 1, |b.indices[n - 1]|)
  }

  // A store into segment r of the j-th valid entry of row r.
  ghost predicate CopyOf<T>(p: Pool<T>, b: Batch, r: nat, j: nat, s: (nat, T))
    requires b.Valid(p) && r < |b.indices|
  {
    j < |b.Row(r)| && s == (b.cu[r] + j, Entry(p, b, r, b.Row(r)[j]))
  }

  lemma {:induction false} RowCopiesAre<T>(p: Pool<T>, b: Batch, r: nat, n: nat, s: (nat, T))
    requires b.Valid(p) && r < |b.indices| && n <= |b.indices[r]|
    ensures s in RowCopies(p, b, r, n) <==> exists j: nat :: j < n && CopyOf(p, b, r, j, s)
  {
    if n > 0 {
      RowCopiesAre(p, b, r, n - 1, s);
      var c: nat := n - 1;
      assert Copies(p, b, r, c) <==> c < |b.Row(r)|;
      assert s in RowCopies(p, b, r, n) <==> s in RowCopies(p, b, r, c) || CopyOf(p, b, r, c, s);
    }
  }

  lemma {:induction false} AllCopiesAre<T>(p: Pool<T>, b: Batch, n: nat, s: (nat, T))
    requires b.Valid(p) && n <= |b.indices|
    ensures s in AllCopies(p, b, n) <==> exists r: nat, j: nat :: r < n && CopyOf(p, b, r, j, s)
  {
    if n > 0 {
      AllCopiesAre(p, b, n - 1, s);
      RowCopiesAre(p, b, n - 1, |b.indices[n - 1]|, s);
    }
  }

  // After the extraction, entry cu[r] + j is the K/V of row r's j-th valid index.
  ghost predicate Extracted<T>(p: Pool<T>, b: Batch, out: seq<T>)
    requires b.Valid(p)
  {
    forall r: nat, j: nat | r < |b.indices| && j < |b.Row(r)| ::
      b.cu[r] + j < |out| && IsEntry(p, b.requests[r], b.Row(r)[j], out[b.cu[r] + j])
  }

  // The pool's entry at the slot that the token table names for a position.
  ghost predicate IsEntry<T>(p: Pool<T>, request: nat, position: nat, x: T)
    requires request < |p.table|
  {
    HasSlot(p, request, position) && x == p.entries[p.table[request][position]]
  }

  predicate InSegment(b: Batch, k: nat, r: nat)
    requires |b.indices| == |b.lengths| && Segments(b.indices, b.lengths, b.cu) && r < |b.indices|
  {
    b.cu[r] <= k < b.cu[r] + |b.Row(r)|
  }

  predicate InNoSegment(b: Batch, k: nat)
    requires |b.indices| == |b.lengths| && Segments(b.indices, b.lengths, b.cu)
  {
    forall r: nat | r < |b.indices| :: !InSegment(b, k, r)
  }

  lemma ExtractionOutcome<T>(p: Pool<T>, b: Batch, before: seq<T>, after: seq<T>)
    requires b.Valid(p) && b.cu[|b.indices|] <= |before|
    requires Scatter.Outcome(before, AllCopies(p, b, |b.indices|), after)
    ensures Extracted(p, b, after)
    ensures forall k: nat | k < |before| && InNoSegment(b, k) :: after[k] == before[k]
  {
    var stores := AllCopies(p, b, |b.indices|);
    forall r: nat, j: nat | r < |b.indices| && j < |b.Row(r)|
      ensures b.cu[r] + j < |after| && IsEntry(p, b.requests[r], b.Row(r)[j], after[b.cu[r] + j])
    {
      EntryWritten(p, b, before, after, r, j);
      assert b.Readable(p, b.requests[r], b.lengths[r]);
    }
    forall k: nat | k < |before| && InNoSegment(b, k) ensures after[k] == before[k] {
      forall s | s in stores ensures s.0 != k {
        AllCopiesAre(p, b, |b.indices|, s);
        var r: nat, j: nat :| r < |b.indices| && CopyOf(p, b, r, j, s);
        assert InSegment(b, s.0, r);
      }
      Scatter.Untouched(before, stores, after, k);
    }
  }

  // A copy to the place of row r's j-th entry copies that entry.
  lemma OnlyItsCopy<T>(p: Pool<T>, b: Batch, r: nat, j: nat, s: (nat, T))
    requires b.Valid(p) && r < |b.indices| && j < |b.Row(r)|
    requires s in AllCopies(p, b, |b.indices|) && s.0 == b.cu[r] + j
    ensures s.1 == Entry(p, b, r, b.Row(r)[j])
  {
    AllCopiesAre(p, b, |b.indices|, s);
    var q: nat, i: nat :| q < |b.indices| && CopyOf(p, b, q, i, s);
    if q < r { SegmentsApart(b.indices, b.lengths, b.cu, q, r); }
    if r < q { SegmentsApart(b.indices, b.lengths, b.cu, r, q); }
  }

  lemma EntryWritten<T>(p: Pool<T>, b: Batch, before: seq<T>, after: seq<T>, r: nat, j: nat)
    requires b.Valid(p) && b.cu[|b.indices|] <= |before| && r < |b.indices| && j < |b.Row(r)|
    requires Scatter.Outcome(before, AllCopies(p, b, |b.indices|), after)
    ensures b.cu[r] + j < |after| && after[b.cu[r] + j] == Entry(p, b, r, b.Row(r)[j])
  {
    var (stores, k, v) := (AllCopies(p, b, |b.indices|), b.cu[r] + j, Entry(p, b, r, b.Row(r)[j]));
    SegmentsApart(b.indices, b.lengths, b.cu, r, |b.indices|);
    assert CopyOf(p, b, r, j, (k, v));
    AllCopiesAre(p, b, |b.indices|, (k, v));
    forall s | s in stores && s.0 == k ensures s.1 == v { OnlyItsCopy(p, b, r, j, s); }
    Scatter.Written(before, stores, after, k, v);
  }

  lemma CopiesInBounds<T>(p: Pool<T>, b: Batch, size: nat)
    requires b.Valid(p) && b.cu[|b.indices|] <= size
    ensures Scatter.InBounds(AllCopies(p, b, |b.indices|), size)
  {
    forall s | s in AllCopies(p, b, |b.indices|) ensures s.0 < size {
      AllCopiesAre(p, b, |b.indices|, s);
      var r: nat, j: nat :| r < |b.indices| && CopyOf(p, b, r, j, s);
      SegmentsApart(b.indices, b.lengths, b.cu, r, |b.indices|);
    }
  }

  // `_compact_kv` over all its instances.
  method CompactKV<T>(p: Pool<T>, b: Batch, out: array<T>)
    requires b.Valid(p) && b.cu[|b.indices|] <= out.Length
    modifies out
    ensures Extracted(p, b, out[..])
    ensures forall k: nat | k < out.Length && InNoSegment(b, k) :: out[k] == old(out[k])
  {
    ghost var before := out[..];
    CopiesInBounds(p, b, out.Length);
    Scatter.ScatterInto(out, AllCopies(p, b, |b.indices|));
    ExtractionOutcome(p, b, before, out[..]);
  }

  function LoadRows(output: seq<int>, width: nat, n: nat): (rows: seq<seq<int>>)
    requires n * width <= |output|
    ensures |rows| == n
    ensures forall r | 0 <= r < n :: r * width + width <= |output| && rows[r] == LoadRow(output, width, r)
  {
    if n == 0 then []
    else
      assert n * width == (n - 1) * width + width;
      LoadRows(output, width, n - 1) + [LoadRow(output, width, n - 1)]
  }

  lemma LoadedRowsArePacked(indices: seq<seq<int>>, lengths: seq<int>, width: nat, output: seq<int>)
    requires |indices| == |lengths| && |output| == |indices| * width
    requires PackedRows(indices, lengths, width, output, |indices|)
    ensures forall r | 0 <= r < |indices| :: LoadRows(output, width, |indices|)[r] == Packed(indices[r], lengths[r])
  {
    forall r: nat | r < |indices| ensures LoadRows(output, width, |indices|)[r] == Packed(indices[r], lengths[r]) {
      assert RowIs(output, width, r, Packed(indices[r], lengths[r]));
    }
  }

  // Where the segments start.
  method SegmentStarts(indices: seq<seq<int>>, lengths: seq<int>, width: nat, tight: bool, stride: nat)
    returns (cu: seq<nat>)
    requires |indices| == |lengths| && width <= stride && forall r | 0 <= r < |indices| :: |indices[r]| == width
    ensures Segments(indices, lengths, cu) && cu[|indices|] <= |indices| * stride
    ensures forall r | 0 <= r < |indices| ::
              cu[r] == if tight then SumTo(Counts(indices, lengths), r) else r * stride
  {
    if tight {
      var sums := PrefixSum(Counts(indices, lengths));
      cu := sums[..];
      TightSegments(indices, lengths, cu);
      TightFits(indices, lengths, width, stride, |indices|);
    } else {
      var starts := new nat[|indices| + 1](r => if r < 0 then 0 else r * stride);
      cu := starts[..];
      StridedSegments(indices, lengths, cu, stride);
    }
  }

  // Packing, counting and extraction together, in tight segments or in segments
  // of one fixed stride: entry cu[r] + j of the result is the K/V of the j-th
  // valid index of row r.
  method ExtractSelected<T>(p: Pool<T>, indices: seq<seq<int>>, lengths: seq<int>, requests: seq<nat>, width: nat,
                            tight: bool, stride: nat, out: array<T>)
    returns (b: Batch)
    requires |indices| == |lengths| == |requests| && forall r | 0 <= r < |indices| :: |indices[r]| == width
    requires forall r | 0 <= r < |requests| :: requests[r] < |p.table|
    requires forall r, i | 0 <= r < |requests| && 0 <= i < lengths[r] :: HasSlot(p, requests[r], i)
    requires width <= stride && |indices| * stride <= out.Length
    modifies out
    ensures b.indices == indices && b.lengths == lengths && b.requests == requests && b.Valid(p)
    ensures forall r | 0 <= r < |indices| ::
              b.cu[r] == if tight then SumTo(Counts(indices, lengths), r) else r * stride
    ensures Extracted(p, b, out[..])
  {
    var cu := SegmentStarts(indices, lengths, width, tight, stride);
    var output := CompactSparseIndices(indices, lengths, width);
    LoadedRowsArePacked(indices, lengths, width, output[..]);
    b := Batch(indices, LoadRows(output[..], width, |indices|), lengths, requests, cu);
    CompactKV(p, b, out);
  }

  lemma {:induction false} TightFits(indices: seq<seq<int>>, lengths: seq<int>, width: nat, stride: nat, n: nat)
    requires |indices| == |lengths| && n <= |indices| && width <= stride
    requires forall r | 0 <= r < |indices| :: |indices[r]| == width
    ensures SumTo(Counts(indices, lengths), n) <= n * stride
  {
    if n > 0 {
      TightFits(indices, lengths, width, stride, n - 1);
      assert n * stride == (n - 1) * stride + stride;
    }
  }
}
