/** What a prefill query scores against: the pooled keys of all sequences are
    gathered back to back, and each query reads one range of them. */
module QsaPrefill {
  import opened QsaAddressing
  import opened QsaCache
  import opened QsaRun

  // A sequence of the batch: its pages and keys, and its token-slot row.
  datatype Sequence = Sequence(pages: seq<nat>, keys: seq<Key>, row: seq<nat>)

  ghost predicate Readable(m: Model, compressed: seq<Pooled>, x: Sequence)
    requires m.g.Valid()
  {
    BlocksHold(m, compressed, x.pages, x.keys) && RowOf(m.g, x.pages, x.row) && |x.keys| <= |x.row|
  }

  // `build_qsa_row_ranges`: where the blocks of sequence n start.
  function PackedStart(m: Model, xs: seq<Sequence>, n: nat): nat
    requires m.g.Valid() && n <= |xs|
  {
    if n == 0 then 0 else PackedStart(m, xs, n - 1) + Groups(m.g, |xs[n - 1].keys|)
  }

  // Blocks that a query at `position` of a sequence may see.
  function VisibleBlocks(m: Model, length: nat, position: nat): nat
    requires m.g.Valid()
  {
    var (visible, blocks) := (Groups(m.g, position + 1), Groups(m.g, length));
    if visible < blocks then visible else blocks
  }

  // Each sequence's range holds its own recomputed blocks.
  ghost predicate HoldsSequences(m: Model, xs: seq<Sequence>, packed: seq<Pooled>, n: nat)
    requires m.g.Valid() && n <= |xs|
  {
    |packed| == PackedStart(m, xs, n) && forall i: nat | i < n :: HoldsSequence(m, xs, packed, i)
  }

  ghost predicate HoldsSequence(m: Model, xs: seq<Sequence>, packed: seq<Pooled>, i: nat)
    requires m.g.Valid() && i < |xs|
  {
    && PackedStart(m, xs, i) + Groups(m.g, |xs[i].keys|) <= |packed|
    && packed[PackedStart(m, xs, i)..PackedStart(m, xs, i) + Groups(m.g, |xs[i].keys|)] == Recomputed(m, xs[i].keys)
  }

  lemma AppendedSequence(m: Model, xs: seq<Sequence>, packed: seq<Pooled>, n: nat)
    requires m.g.Valid() && n < |xs| && HoldsSequences(m, xs, packed, n)
    ensures HoldsSequences(m, xs, packed + Recomputed(m, xs[n].keys), n + 1)
  {
    var (more, next) := (packed + Recomputed(m, xs[n].keys), n + 1);
    forall i: nat | i < next ensures HoldsSequence(m, xs, more, i) {
      if i < n {
        assert HoldsSequence(m, xs, packed, i);
        var (a, b) := (PackedStart(m, xs, i), PackedStart(m, xs, i) + Groups(m.g, |xs[i].keys|));
        assert more[a..b] == packed[a..b];
      }
    }
  }

  lemma RowRecomputes(m: Model, compressed: seq<Pooled>, x: Sequence)
    requires m.g.Valid() && Readable(m, compressed, x)
    ensures CanReadPacked(m, compressed, x.row, |x.keys|)
    ensures ReadPacked(m, compressed, x.row, |x.keys|) == Recomputed(m, x.keys)
  {
    ReadersRecompute(m, compressed, x.pages, x.keys, x.row, |x.keys|);
    assert x.keys[..|x.keys|] == x.keys;
  }

  // `get_prefill_mqa_inputs`: gather every sequence's complete blocks by the
  // slots of its row, skipping sequences without one.
  method GatherPrefillKeys(m: Model, compressed: seq<Pooled>, xs: seq<Sequence>) returns (packed: seq<Pooled>)
    requires m.g.Valid() && forall i | 0 <= i < |xs| :: Readable(m, compressed, xs[i])
    ensures HoldsSequences(m, xs, packed, |xs|)
  {
    packed := [];
    for n := 0 to |xs|
      invariant HoldsSequences(m, xs, packed, n)
    {
      var x := xs[n];
      RowRecomputes(m, compressed, x);
      AppendedSequence(m, xs, packed, n);
      if Groups(m.g, |x.keys|) > 0 {
        packed := packed + ReadPacked(m, compressed, x.row, |x.keys|);
      } else {
        assert packed + Recomputed(m, x.keys) == packed;
      }
    }
  }

  // A query at `position` of sequence i reads exactly the recomputed blocks of the
  // keys up to and including its own: nothing later, nothing of another sequence.
  lemma QuerySeesOwnPrefix(m: Model, xs: seq<Sequence>, packed: seq<Pooled>, i: nat, position: nat)
    requires m.g.Valid() && HoldsSequences(m, xs, packed, |xs|) && i < |xs| && position < |xs[i].keys|
    ensures var start := PackedStart(m, xs, i);
      var end := start + VisibleBlocks(m, |xs[i].keys|, position);
      end <= |packed| && packed[start..end] == Recomputed(m, xs[i].keys[..position + 1])
  {
    var (start, keys) := (PackedStart(m, xs, i), xs[i].keys);
    assert HoldsSequence(m, xs, packed, i);
    RecomputedPrefix(m, keys, position + 1);
    var (visible, blocks) := (Groups(m.g, position + 1), Groups(m.g, |keys|));
    assert packed[start..start + blocks][..visible] == packed[start..start + visible];
  }

  // --- During a prefill of a run ---------------------------------------------------

  // The sequences of an extend step: each request of the batch with its new keys.
  ghost predicate OfBatch(m: Model, s: State, batch: seq<Growth>, xs: seq<Sequence>)
    requires m.g.Valid() && ValidBatch(m, s, batch)
  {
    && |xs| == |batch|
    && forall i | 0 <= i < |xs| ::
         && xs[i].pages == Before(s, batch[i]).pages && xs[i].keys == Grown(s, batch[i])
         && RowOf(m.g, xs[i].pages, xs[i].row) && |xs[i].keys| <= |xs[i].row|
  }

  lemma ExtendedAreReadable(m: Model, s: State, op: Op, t: State, xs: seq<Sequence>)
    requires m.g.Valid() && Inv(m, s) && op.Extend? && Step(m, s, op, t) && OfBatch(m, s, op.batch, xs)
    ensures forall i | 0 <= i < |xs| :: Readable(m, t.compressed, xs[i])
  {
    StepKeepsInv(m, s, op, t);
    forall i | 0 <= i < |xs| ensures Readable(m, t.compressed, xs[i]) {
      var h := Live(op.batch[i].slot);
      ChunksKeptWhole(s, op.batch, h, |op.batch|);
      InFlightCases(s, op.batch, h, |op.batch|);
      assert t.holders[h] == Request(xs[i].pages, xs[i].keys);
      assert BlocksHold(m, t.compressed, t.holders[h].pages, t.holders[h].keys);
    }
  }

  // In any extend step of any run, the query at `position` of request i reads the
  // recomputation of its own committed and new keys up to its own.
  method ReadForQuery(m: Model, compressed: seq<Pooled>, xs: seq<Sequence>, i: nat, position: nat,
                      ghost states: seq<State>, ghost ops: seq<Op>, ghost k: nat)
    returns (seen: seq<Pooled>)
    requires m.g.Valid() && Run(m, states, ops) && k < |ops| && ops[k].Extend?
    requires compressed == states[k + 1].compressed && OfBatch(m, states[k], ops[k].batch, xs)
    requires i < |xs| && position < |xs[i].keys|
    ensures seen == Recomputed(m, Grown(states[k], ops[k].batch[i])[..position + 1])
  {
    RunKeepsInv(m, states, ops, k);
    ExtendedAreReadable(m, states[k], ops[k], states[k + 1], xs);
    var packed := GatherPrefillKeys(m, compressed, xs);
    QuerySeesOwnPrefix(m, xs, packed, i, position);
    var start := PackedStart(m, xs, i);
    seen := packed[start..start + VisibleBlocks(m, |xs[i].keys|, position)];
  }
}
