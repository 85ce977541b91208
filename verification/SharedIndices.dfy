/** The sparse selection shared across one speculative iteration: the draft-extend
    pass captures each request's last accepted row, and every later draft step
    reads it back with the positions drafted since. One layer's slot is modelled. */
module SharedIndices {
  import Arithmetic
  import opened Options
  import Scatter

  // --- What a lookup returns --------------------------------------------------

  // The positions from the captured length on, as far as the current one.
  function Tail(base: int, current: int, width: nat): (tail: seq<int>)
    ensures |tail| == width
    ensures forall j | 0 <= j < width :: tail[j] == if base + j <= current then base + j else -1
  {
    seq(width, j requires 0 <= j => if base + j <= current then base + j else -1)
  }

  function Attended(row: seq<int>): set<int> {
    set e | e in row && 0 <= e
  }

  predicate NoDuplicates(row: seq<int>) {
    forall i, j | 0 <= i < j < |row| && 0 <= row[i] :: row[i] != row[j]
  }

  predicate Within(a: int, p: int, b: int) {
    a <= p <= b
  }

  function Span(a: int, b: int): set<int> {
    set p | a <= p <= b && Within(a, p, b)
  }

  // A selection made when the request had `len` tokens.
  predicate Causal(selection: seq<int>, len: int) {
    0 <= len && forall i | 0 <= i < |selection| :: selection[i] < len
  }

  lemma TailAttends(base: int, current: int, width: nat)
    requires 0 <= base
    ensures forall p :: p in Attended(Tail(base, current, width)) <==> base <= p <= current && p < base + width
  {
    var tail := Tail(base, current, width);
    forall p ensures p in Attended(tail) <==> base <= p <= current && p < base + width {
      if base <= p <= current && p < base + width { assert tail[p - base] == p; }
    }
  }

  // The frozen selection plus exactly the positions since the capture, if and only
  // if the gap fits the tail.
  lemma LookupAttends(selection: seq<int>, len: int, current: int, width: nat)
    requires Causal(selection, len) && len <= current + 1
    ensures Attended(selection + Tail(len, current, width)) == Attended(selection) + Span(len, current)
            <==> current < len + width
  {
    var row := selection + Tail(len, current, width);
    TailAttends(len, current, width);
    assert Attended(row) == Attended(selection) + Attended(Tail(len, current, width));
    if len + width <= current {
      assert len + width in Span(len, current) && len + width !in Attended(row);
    } else {
      assert Attended(Tail(len, current, width)) == Span(len, current);
    }
  }

  // It looks at nothing past the current position, and repeats a position exactly
  // when the frozen selection does.
  lemma LookupIsSound(selection: seq<int>, len: int, current: int, width: nat)
    requires Causal(selection, len) && len <= current + 1
    ensures var row := selection + Tail(len, current, width);
      (NoDuplicates(row) <==> NoDuplicates(selection)) && forall e | e in Attended(row) :: e <= current
  {
    var row := selection + Tail(len, current, width);
    if NoDuplicates(row) {
      forall i, j | 0 <= i < j < |selection| && 0 <= selection[i] ensures selection[i] != selection[j] {
        assert row[i] == selection[i] && row[j] == selection[j];
      }
    }
  }

  function Zeros(n: nat): seq<int> {
    seq(n, _ => 0)
  }

  // A row that was never captured attends position 0 and what has been drafted
  // since, but it repeats position 0 in every column of its selection.
  lemma NeverCaptured(topk: nat, current: int, width: nat)
    requires 0 < topk && 0 <= current
    ensures var row := Zeros(topk) + Tail(1, current, width);
      && (Attended(row) == {0} + Span(1, current) <==> current <= width)
      && (NoDuplicates(row) <==> topk == 1)
  {
    var zeros := Zeros(topk);
    assert zeros[0] == 0 && Attended(zeros) == {0};
    LookupAttends(zeros, 1, current, width);
    LookupIsSound(zeros, 1, current, width);
    if topk > 1 { assert zeros[0] == zeros[1]; }
  }

  // The buffers as values: row by row, the selection and the captured length.
  datatype Store = Store(selections: seq<seq<int>>, lens: seq<int>)

  // What a lookup of request r finds: its frozen columns and the tail.
  predicate LookedUp(store: Store, r: nat, current: int, topk: nat, width: nat, row: seq<int>) {
    && r < |store.selections| && r < |store.lens| && topk <= |store.selections[r]|
    && row == store.selections[r][..topk] + Tail(store.lens[r], current, width)
  }

  // --- The persistent buffers -------------------------------------------------------

  class LayerSlot {
    const topk: nat
    const tailWidth: nat
    const trashRow: nat
    const indices: array<seq<int>>
    const captured: array<int>

    predicate Valid()
      reads indices
    {
      && indices.Length == captured.Length == trashRow + 1
      && forall r | 0 <= r < indices.Length :: |indices[r]| == topk + tailWidth
    }

    constructor (requests: nat, topk: nat, tailWidth: nat)
      ensures Valid() && this.topk == topk && this.tailWidth == tailWidth && trashRow == requests
      ensures fresh(indices) && fresh(captured)
      ensures forall r | 0 <= r <= requests :: indices[r] == Zeros(topk + tailWidth) && captured[r] == 1
    {
      this.topk, this.tailWidth, trashRow := topk, tailWidth, requests;
      indices := new seq<int>[requests + 1](_ => Zeros(topk + tailWidth));
      captured := new int[requests + 1](_ => 1);
    }

    ghost function Contents(): Store
      reads indices, captured
    {
      Store(indices[..], captured[..])
    }

    ghost function Selection(r: nat): seq<int>
      requires Valid() && r <= trashRow
      reads indices
    {
      indices[r][..topk]
    }

    // Row r as it was, or as one of the captures that target it leaves it.
    twostate predicate RowCaptured(selections: seq<seq<int>>, targets: seq<nat>, lens: seq<int>, r: nat)
      requires Valid() && old(Valid()) && r <= trashRow && |selections| == |targets| == |lens|
      reads indices, captured
    {
      if r !in targets then indices[r] == old(indices[r]) && captured[r] == old(captured[r])
      else
        && (exists i :: 0 <= i < |targets| && targets[i] == r && Selection(r) == selections[i])
        && (exists i :: 0 <= i < |targets| && targets[i] == r && captured[r] == lens[i])
    }

    // `capture`: two indexed copies; rows that are targeted twice keep one of the
    // values.
    method Capture(selections: seq<seq<int>>, targets: seq<nat>, lens: seq<int>)
      requires Valid() && |selections| == |targets| == |lens|
      requires forall i | 0 <= i < |targets| :: |selections[i]| == topk && targets[i] <= trashRow
      modifies indices, captured
      ensures Valid()
      ensures forall r: nat | r <= trashRow :: RowCaptured(selections, targets, lens, r)
    {
      ghost var (rows, olds) := (indices[..], captured[..]);
      var rowStores, lenStores := [], [];
      for i := 0 to |targets|
        invariant |rowStores| == |lenStores| == i
        invariant forall k | 0 <= k < i :: rowStores[k] == (targets[k], selections[k] + indices[targets[k]][topk..])
        invariant forall k | 0 <= k < i :: lenStores[k] == (targets[k], lens[k])
      {
        rowStores := rowStores + [(targets[i], selections[i] + indices[targets[i]][topk..])];
        lenStores := lenStores + [(targets[i], lens[i])];
      }
      Scatter.ScatterInto(indices, rowStores);
      Scatter.ScatterInto(captured, lenStores);
      forall r: nat | r <= trashRow
        ensures |indices[r]| == topk + tailWidth && RowFrom(selections, targets, rows[r], indices[r], r)
        ensures LenFrom(targets, lens, olds[r], captured[r], r)
      {
        assert Scatter.Cell(rows, rowStores, indices[..], r);
        assert Scatter.Cell(olds, lenStores, captured[..], r);
        assert forall k | 0 <= k < |targets| :: rowStores[k].0 == targets[k] && lenStores[k].0 == targets[k];
      }
    }

    ghost predicate RowFrom(selections: seq<seq<int>>, targets: seq<nat>, before: seq<int>, after: seq<int>, r: nat)
      requires |selections| == |targets| && topk <= |after|
    {
      if r !in targets then after == before
      else exists i :: 0 <= i < |targets| && targets[i] == r && after[..topk] == selections[i]
    }

    ghost predicate LenFrom(targets: seq<nat>, lens: seq<int>, before: int, after: int, r: nat)
      requires |lens| == |targets|
    {
      if r !in targets then after == before else exists i :: 0 <= i < |targets| && targets[i] == r && after == lens[i]
    }

    // `lookup`
    method Lookup(requests: seq<nat>, positions: seq<int>) returns (out: seq<seq<int>>)
      requires Valid() && |requests| == |positions| && forall i | 0 <= i < |requests| :: requests[i] <= trashRow
      ensures |out| == |requests|
      ensures forall i | 0 <= i < |requests| ::
                LookedUp(Contents(), requests[i], positions[i], topk, tailWidth, out[i])
    {
      out := [];
      for i := 0 to |requests|
        invariant |out| == i
        invariant forall k | 0 <= k < i ::
          LookedUp(Contents(), requests[k], positions[k], topk, tailWidth, out[k])
      {
        var row := indices[requests[i]];
        var base := captured[requests[i]];
        out := out + [row[..|row| - tailWidth] + Tail(base, positions[i], tailWidth)];
      }
    }
  }

  // --- Capturing a draft-extend batch ---------------------------------------------

  // Rows are packed request-major; `accepts` is absent for a prefill.
  datatype Batch = Batch(extendLens: seq<nat>, accepts: Option<seq<int>>, front: int, pool: seq<nat>,
                         selections: seq<seq<int>>, seqLens: seq<int>)
  {
    predicate Valid(topk: nat, trashRow: nat) {
      && |seqLens| == |selections| && (forall i | 0 <= i < |selections| :: |selections[i]| == topk)
      && forall i | 0 <= i < |pool| :: pool[i] < trashRow
    }

    predicate Captures() {
      selections != [] && extendLens != [] && |extendLens| <= |pool|
    }

    // Rows of the requests before request i.
    function Start(i: nat): nat
      requires i <= |extendLens|
    {
      Arithmetic.SumTo(extendLens, i)
    }

    predicate HasAccepts() {
      accepts.Some? && |extendLens| <= |accepts.value|
    }

    // The row the capture takes for request i.
    function Anchor(i: nat): nat
      requires i < |extendLens| && selections != []
    {
      var end := Start(i + 1) - 1;
      var row := if HasAccepts() then end - (extendLens[i] - front - accepts.value[i]) else end;
      if row < 0 then 0 else if |selections| - 1 < row then |selections| - 1 else row
    }
  }

  // The anchor is the last accepted row of the request's own block: `front` rows,
  // then the accepted ones; for a prefill, the last row.
  lemma AnchorIsLastAccepted(b: Batch, i: nat)
    requires i < |b.extendLens| && b.selections != [] && b.Start(|b.extendLens|) <= |b.selections|
    requires b.extendLens[i] > 0
    requires b.accepts.Some? && |b.extendLens| <= |b.accepts.value| ==>
      1 <= b.front + b.accepts.value[i] <= b.extendLens[i]
    ensures b.Start(i) <= b.Anchor(i) < b.Start(i + 1)
    ensures b.Anchor(i) == b.Start(i) - 1 + if b.accepts.Some? && |b.extendLens| <= |b.accepts.value|
                                            then b.front + b.accepts.value[i] else b.extendLens[i]
  {
    Arithmetic.SumToGrows(b.extendLens, i + 1, |b.extendLens|);
  }

  // Whatever the accept counts are, the anchor is the row nearest to where they point.
  lemma AnchorIsNearest(b: Batch, i: nat, row: int)
    requires i < |b.extendLens| && b.selections != [] && 0 <= row < |b.selections|
    ensures 0 <= b.Anchor(i) < |b.selections|
    ensures var place := b.Start(i) - 1 + if b.accepts.Some? && |b.extendLens| <= |b.accepts.value|
                                          then b.front + b.accepts.value[i] else b.extendLens[i];
      && (place <= b.Anchor(i) ==> b.Anchor(i) <= row || row < place)
      && (b.Anchor(i) <= place ==> row <= b.Anchor(i) || place < row)
  {
  }

  // Request i has a real row and the slot r, not the reserved one that padding
  // points at.
  predicate Owns(b: Batch, i: nat, r: nat)
    requires i < |b.extendLens| && |b.extendLens| <= |b.pool|
  {
    b.pool[i] == r && r != 0 && b.extendLens[i] != 0
  }

  // What a batch capture leaves in row r: the seed of the one request that owns it,
  // or what was there; the trash row takes the rest.
  ghost predicate RowAfter(b: Batch, before: seq<int>, beforeLen: int, after: seq<int>, afterLen: int, topk: nat,
                           r: nat)
    requires b.Captures() && |b.seqLens| == |b.selections| && topk <= |after|
  {
    && ((forall i: nat | i < |b.extendLens| :: !Owns(b, i, r)) ==> after == before && afterLen == beforeLen)
    && (forall i: nat | i < |b.extendLens| && Owns(b, i, r) && OnlyOwner(b, i, r) ::
          after[..topk] == b.selections[b.Anchor(i)] && afterLen == b.seqLens[b.Anchor(i)])
  }

  predicate OnlyOwner(b: Batch, i: nat, r: nat)
    requires i < |b.extendLens| && |b.extendLens| <= |b.pool|
  {
    forall j: nat | j < |b.extendLens| && j != i :: !Owns(b, j, r)
  }

  // `_capture_mtp_sparse_indices_from_extend_lens`
  method CaptureBatch(s: LayerSlot, b: Batch)
    requires s.Valid() && b.Valid(s.topk, s.trashRow)
    modifies s.indices, s.captured
    ensures s.Valid()
    ensures !b.Captures() ==> s.indices[..] == old(s.indices[..]) && s.captured[..] == old(s.captured[..])
    ensures Step(b, old(s.Contents()), s.Contents(), s.trashRow, s.topk)
  {
    if !b.Captures() { return; }
    ghost var (rows, olds) := (s.indices[..], s.captured[..]);
    var selections, targets, lens := [], [], [];
    var end := -1;
    for i := 0 to |b.extendLens|
      invariant end == b.Start(i) - 1 && |selections| == |targets| == |lens| == i
      invariant forall k | 0 <= k < i :: selections[k] == b.selections[b.Anchor(k)] && lens[k] == b.seqLens[b.Anchor(k)]
      invariant forall k | 0 <= k < i ::
                  targets[k] == if b.extendLens[k] > 0 && b.pool[k] > 0 then b.pool[k] else s.trashRow
    {
      end := end + b.extendLens[i];
      var anchor := if b.HasAccepts() then end - (b.extendLens[i] - b.front - b.accepts.value[i]) else end;
      anchor := if anchor < 0 then 0 else if |b.selections| - 1 < anchor then |b.selections| - 1 else anchor;
      selections := selections + [b.selections[anchor]];
      lens := lens + [b.seqLens[anchor]];
      targets := targets + [if b.extendLens[i] > 0 && b.pool[i] > 0 then b.pool[i] else s.trashRow];
    }
    s.Capture(selections, targets, lens);
    forall r: nat | r < s.trashRow
      ensures RowAfter(b, rows[r], olds[r], s.indices[r], s.captured[r], s.topk, r)
    {
      assert s.RowCaptured(selections, targets, lens, r);
      assert forall i: nat | i < |targets| :: targets[i] == r <==> Owns(b, i, r);
      forall i: nat | i < |b.extendLens| && Owns(b, i, r) && OnlyOwner(b, i, r)
        ensures s.indices[r][..s.topk] == b.selections[b.Anchor(i)] && s.captured[r] == b.seqLens[b.Anchor(i)]
      {
        assert targets[i] == r;
        assert forall j | 0 <= j < |targets| && targets[j] == r :: j == i;
      }
    }
  }

  // --- Over a run -----------------------------------------------------------------

  ghost predicate Step(b: Batch, before: Store, after: Store, trashRow: nat, topk: nat) {
    && |before.selections| == |before.lens| == |after.selections| == |after.lens| == trashRow + 1
    && b.Valid(topk, trashRow)
    && (forall r | 0 <= r <= trashRow :: topk <= |after.selections[r]|)
    && forall r: nat | r < trashRow ::
         if b.Captures()
         then RowAfter(b, before.selections[r], before.lens[r], after.selections[r], after.lens[r], topk, r)
         else after.selections[r] == before.selections[r] && after.lens[r] == before.lens[r]
  }

  ghost predicate Run(batches: seq<Batch>, stores: seq<Store>, trashRow: nat, topk: nat) {
    && |stores| == |batches| + 1
    && forall k | 0 <= k < |batches| :: Step(batches[k], stores[k], stores[k + 1], trashRow, topk)
  }

  predicate Seeds(b: Batch, i: nat, r: nat) {
    && |b.seqLens| == |b.selections| && b.selections != [] && i < |b.extendLens| <= |b.pool|
    && Owns(b, i, r) && OnlyOwner(b, i, r)
  }

  predicate Touches(b: Batch, r: nat) {
    |b.extendLens| <= |b.pool| && exists i: nat :: i < |b.extendLens| && Owns(b, i, r)
  }

  // Through any later batches that do not capture request r, its row still holds
  // the seed of its last capture: the selection and length of its last accepted row.
  lemma {:induction false} SeedSurvives(batches: seq<Batch>, stores: seq<Store>, trashRow: nat, topk: nat, k: nat,
        n: nat, i: nat, r: nat)
    requires Run(batches, stores, trashRow, topk) && k < n <= |batches| && r < trashRow
    requires Seeds(batches[k], i, r) && forall m | k < m < n :: !Touches(batches[m], r)
    ensures |stores[n].selections| == |stores[n].lens| == trashRow + 1 && topk <= |stores[n].selections[r]|
    ensures stores[n].selections[r][..topk] == batches[k].selections[batches[k].Anchor(i)]
    ensures stores[n].lens[r] == batches[k].seqLens[batches[k].Anchor(i)]
  {
    if k < n - 1 {
      SeedSurvives(batches, stores, trashRow, topk, k, n - 1, i, r);
      assert Step(batches[n - 1], stores[n - 1], stores[n], trashRow, topk) && !Touches(batches[n - 1], r);
    } else {
      assert Step(batches[k], stores[k], stores[n], trashRow, topk);
    }
  }

  // A row is as it was at the start as long as its request is not captured: the
  // reserved row 0 always, the row of a request while it has no rows of its own.
  lemma {:induction false} IdleRowStays(batches: seq<Batch>, stores: seq<Store>, trashRow: nat, topk: nat, n: nat,
                                        r: nat)
    requires Run(batches, stores, trashRow, topk) && n <= |batches| && r < trashRow
    requires |stores[0].selections| == |stores[0].lens| == trashRow + 1
    requires forall m: nat, i: nat | m < n && i < |batches[m].extendLens| && i < |batches[m].pool| ::
               r == 0 || batches[m].extendLens[i] == 0 || batches[m].pool[i] != r
    ensures |stores[n].selections| == |stores[n].lens| == trashRow + 1
    ensures stores[n].selections[r] == stores[0].selections[r] && stores[n].lens[r] == stores[0].lens[r]
  {
    if n > 0 {
      IdleRowStays(batches, stores, trashRow, topk, n - 1, r);
      assert Step(batches[n - 1], stores[n - 1], stores[n], trashRow, topk);
    }
  }

  // So at every later draft step a lookup attends that selection, and exactly the
  // positions since, if and only if they fit the tail; it repeats none and looks at
  // nothing past the current one.
  lemma LaterLookupAttendsSeed(batches: seq<Batch>, stores: seq<Store>, trashRow: nat, topk: nat, k: nat, n: nat,
                               i: nat, r: nat, current: int, width: nat, row: seq<int>)
    requires Run(batches, stores, trashRow, topk) && k < n <= |batches| && r < trashRow
    requires Seeds(batches[k], i, r) && forall m | k < m < n :: !Touches(batches[m], r)
    requires LookedUp(stores[n], r, current, topk, width, row)
    requires var (seed, len) := (batches[k].selections[batches[k].Anchor(i)], batches[k].seqLens[batches[k].Anchor(i)]);
      Causal(seed, len) && NoDuplicates(seed) && len <= current + 1
    ensures var (seed, len) := (batches[k].selections[batches[k].Anchor(i)], batches[k].seqLens[batches[k].Anchor(i)]);
      && (Attended(row) == Attended(seed) + Span(len, current) <==> current < len + width)
      && NoDuplicates(row) && forall e | e in Attended(row) :: e <= current
  {
    var (seed, len) := (batches[k].selections[batches[k].Anchor(i)], batches[k].seqLens[batches[k].Anchor(i)]);
    SeedSurvives(batches, stores, trashRow, topk, k, n, i, r);
    LookupAttends(seed, len, current, width);
    LookupIsSound(seed, len, current, width);
  }
}
