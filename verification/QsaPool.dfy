/** The pool object: its two buffers are updated in place by the store and
    compress step of each forward. */
module QsaPool {
  import opened Scatter
  import opened QsaAddressing
  import opened QsaCache
  import opened QsaForward
  import opened QsaRun
  import opened QsaHistory

  class QsaTokenToKVPool {
    const m: Model
    // `qsa_key_state_buffer` and the layer's compressed buffer.
    var ring: array<Key>
    var compressed: array<Pooled>
    // Page tables and committed keys of the requests and cached prefixes.
    var holders: map<Holder, Request>

    function Snapshot(): State
      reads this, ring, compressed
    {
      State(ring[..], compressed[..], holders)
    }

    ghost predicate Valid()
      reads this, ring, compressed
    {
      m.g.Valid() && Inv(m, Snapshot())
    }

    constructor (m: Model, zeroKey: Key, zeroPooled: Pooled)
      requires m.g.Valid()
      ensures Valid() && this.m == m && holders == map[]
      ensures Initial(m, Snapshot())
      ensures fresh(ring) && fresh(compressed)
    {
      this.m := m;
      ring := new Key[m.g.requests * m.g.ring](_ => zeroKey);
      compressed := new Pooled[m.g.capacity](_ => zeroPooled);
      holders := map[];
    }

    method SetKeyState(stores: seq<(nat, Key)>)
      requires InBounds(stores, ring.Length)
      modifies ring
      ensures Outcome(old(ring[..]), stores, ring[..])
    {
      ScatterInto(ring, stores);
    }

    method SetCompressed(stores: seq<(nat, Pooled)>)
      requires InBounds(stores, compressed.Length)
      modifies compressed
      ensures Outcome(old(compressed[..]), stores, compressed[..])
    {
      ScatterInto(compressed, stores);
    }

    method AllocateOrRelease(op: Allocation)
      requires Valid() && CanAllocate(m.g, holders, op)
      modifies this`holders
      ensures Valid() && Step(m, old(Snapshot()), Allocator(op), Snapshot())
    {
      AllocationKeepsInv(m, Snapshot(), op);
      holders := Allocate(m.g, holders, op);
    }

    // Extend branch of `update_key_state_and_compress`: the ring keeps only the
    // pending tails, and group members come from the packed chunk.
    method ExtendForward(batch: seq<Growth>, tables: seq<seq<nat>>, inputs: nat, overrun: Pooled)
      requires Valid() && ring != compressed as object && ExtendReady(m, Snapshot(), batch, tables, inputs)
      modifies this`holders, ring, compressed
      ensures Valid() && ring == old(ring) && compressed == old(compressed)
      ensures Step(m, old(Snapshot()), Extend(batch, tables, inputs), Snapshot())
      ensures Appends(old(holders), holders, batch, Whole(batch))
    {
      var s := Snapshot();
      var stores := ExtendStores(m, s, batch, tables, inputs, overrun);
      ExtendStoresAreGroupStores(m, s, batch, tables, inputs, stores);
      RingStoresInBounds(m, s, batch, true, 0, []);
      GroupStoresInBounds(m, s, batch, stores);
      SetKeyState(RingStores(m, s, batch, true, 0, []));
      SetCompressed(stores);
      holders := Commit(s, batch, ChunkLengths(batch));
      StepKeepsInv(m, s, Extend(batch, tables, inputs), Snapshot());
      ExtendCommits(m, s, Extend(batch, tables, inputs), Snapshot());
    }

    // Paged branch, eager or graph: store the rows, then pool each completed
    // group from the ring as it is after the store.
    method PagedForward(batch: seq<Growth>, tables: seq<seq<nat>>, padding: seq<Key>, accepts: seq<nat>, path: Path)
      requires Valid() && ring != compressed as object
      requires PagedReady(m, Snapshot(), batch, tables, padding, accepts, path)
      modifies this`holders, ring, compressed
      ensures Valid() && ring == old(ring) && compressed == old(compressed)
      ensures Step(m, old(Snapshot()), Paged(batch, tables, padding, accepts, path), Snapshot())
      ensures Appends(old(holders), holders, batch, accepts)
    {
      var s := Snapshot();
      RingStoresInBounds(m, s, batch, false, PadSlot(batch, path), padding);
      SetKeyState(PaddedStores(m, s, batch, path, padding));
      var stores := PagedStores(m, s, batch, tables, |padding|, path, ring[..]);
      PagedStoresAreGroupStores(m, s, batch, tables, padding, accepts, path, ring[..]);
      GroupStoresInBounds(m, s, batch, stores);
      SetCompressed(stores);
      holders := Commit(s, batch, accepts);
      StepKeepsInv(m, s, Paged(batch, tables, padding, accepts, path), Snapshot());
      PagedCommits(m, s, Paged(batch, tables, padding, accepts, path), Snapshot());
    }
  }

  // `overrun` is whatever follows the packed tokens in memory.
  function ExtendStores(m: Model, s: State, batch: seq<Growth>, tables: seq<seq<nat>>, inputs: nat,
        overrun: Pooled): (stores: seq<(nat, Pooled)>)
    requires m.g.Valid() && ExtendReady(m, s, batch, tables, inputs)
    ensures IsExtendStores(m, s, batch, ExtendPlan(m, s, batch, tables, inputs), stores)
  {
    var plan := ExtendPlan(m, s, batch, tables, inputs);
    var tokens := Tokens(batch, |batch|);
    seq(|plan|, e requires 0 <= e < |plan| =>
      var inChunk := MembersInChunk(m, batch, plan[e]);
      (plan[e].loc, if inChunk then m.pool(tokens[plan[e].member..plan[e].member + m.g.ratio]) else overrun))
  }

  lemma RingStoresInBounds(m: Model, s: State, batch: seq<Growth>, isExtend: bool, padSlot: nat, padding: seq<Key>)
    requires m.g.Valid() && Inv(m, s) && ValidBatch(m, s, batch) && padSlot < m.g.requests
    ensures InBounds(RingStores(m, s, batch, isExtend, padSlot, padding), |s.ring|)
  {
    RingCellInBounds(m.g, padSlot, 0);
    forall st | st in RingStores(m, s, batch, isExtend, padSlot, padding)
      ensures st.0 < |s.ring|
    {
      StoreOrigin(m, s, batch, isExtend, padSlot, padding, st);
      if i: nat, j: nat :| FromToken(m, s, batch, isExtend, st, i, j) {
        TokenInBounds(m, s, batch[i], isExtend, j);
      }
    }
  }

  lemma TokenInBounds(m: Model, s: State, x: Growth, isExtend: bool, j: nat)
    requires m.g.Valid() && Sized(m, s) && Live(x.slot) in s.holders && x.slot < m.g.requests && j < |x.keys|
    ensures TokenStore(m, s, x, isExtend, j).0 < |s.ring|
  {
    var p := |Before(s, x).keys| + j;
    RingCellInBounds(m.g, x.slot, p);
    RingCellInBounds(m.g, 0, p);
  }

  lemma GroupStoresInBounds(m: Model, s: State, batch: seq<Growth>, stores: seq<(nat, Pooled)>)
    requires m.g.Valid() && Inv(m, s) && ValidBatch(m, s, batch) && GroupStores(m, s, batch, stores)
    ensures InBounds(stores, |s.compressed|)
  {
    forall st | st in stores
      ensures st.0 < |s.compressed|
    {
      if st.0 != 0 {
        var i: nat, b: nat :| Completes(m, s, batch, i, b) && IsGroupStore(m, s, batch, i, b, st);
        assert WellPaged(m.g, Before(s, batch[i]));
        SlotInCapacity(m.g, Before(s, batch[i]).pages, b);
      } else {
        assert 0 < m.g.capacity;
      }
    }
  }
}
