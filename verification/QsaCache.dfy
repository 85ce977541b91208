/** The compressed index cache over a run: prefill chunks, decode steps and
    speculative verify rounds write it; the claim is that it always equals a
    recomputation from the committed keys. */
module QsaCache {
  import opened Arithmetic
  import opened Scatter
  import opened QsaAddressing

  // A token's index key with its rotary coordinates, and a pooled group.
  type Key(==, 0, !new)
  type Pooled(==, 0, !new)

  // The pooling kernel is any function of a group's keys, oldest first.
  datatype Model = Model(g: Geometry, pool: seq<Key> -> Pooled)

  // Pages are held by requests in a request slot and by cached prefixes.
  datatype Holder = Live(slot: nat) | Cached(node: nat)

  // `keys` are the committed tokens' keys: the reference, not stored anywhere.
  datatype Request = Request(pages: seq<nat>, keys: seq<Key>)

  datatype State = State(ring: seq<Key>, compressed: seq<Pooled>, holders: map<Holder, Request>)

  // --- Reference ------------------------------------------------------------

  function Group(keys: seq<Key>, ratio: nat, block: nat): (group: seq<Key>)
    requires (block + 1) * ratio <= |keys|
    ensures |group| == ratio
  {
    assert (block + 1) * ratio == block * ratio + ratio;
    keys[block * ratio..block * ratio + ratio]
  }

  // Pool every complete group afresh.
  function Recomputed(m: Model, keys: seq<Key>): (pooled: seq<Pooled>)
    requires 0 < m.g.ratio
    ensures |pooled| == |keys| / m.g.ratio
  {
    seq(|keys| / m.g.ratio, b requires 0 <= b < |keys| / m.g.ratio =>
      DivGalois(|keys|, m.g.ratio, b + 1);
      m.pool(Group(keys, m.g.ratio, b)))
  }

  // Fewer keys, fewer groups, and the same ones.
  lemma RecomputedPrefix(m: Model, keys: seq<Key>, n: nat)
    requires m.g.Valid() && n <= |keys|
    ensures Groups(m.g, n) <= Groups(m.g, |keys|)
    ensures Recomputed(m, keys[..n]) == Recomputed(m, keys)[..Groups(m.g, n)]
  {
    DivMonotone(n, |keys|, m.g.ratio);
    forall b: nat | b < Groups(m.g, n) ensures Recomputed(m, keys[..n])[b] == Recomputed(m, keys)[b] {
      BlockOfPrefix(m, keys, n, b);
    }
  }

  lemma BlockOfPrefix(m: Model, keys: seq<Key>, n: nat, b: nat)
    requires m.g.Valid() && n <= |keys| && b < Groups(m.g, n) <= Groups(m.g, |keys|)
    ensures Recomputed(m, keys[..n])[b] == Recomputed(m, keys)[b]
  {
    DivGalois(n, m.g.ratio, b + 1);
    DivGalois(|keys|, m.g.ratio, b + 1);
    Successor(b, m.g.ratio);
    assert Group(keys[..n], m.g.ratio, b) == Group(keys, m.g.ratio, b);
  }

  // --- The invariant ----------------------------------------------------------

  function RingAt(g: Geometry, slot: nat, p: nat): nat
    requires 0 < g.ring
  {
    slot * g.ring + p % g.ring
  }

  ghost predicate BlockHolds(m: Model, compressed: seq<Pooled>, pages: seq<nat>, keys: seq<Key>, block: nat)
    requires m.g.Valid() && (block + 1) * m.g.ratio <= |keys|
  {
    && HasBlock(m.g, pages, block)
    && CompressedSlot(m.g, pages, block) < |compressed|
    && compressed[CompressedSlot(m.g, pages, block)] == m.pool(Group(keys, m.g.ratio, block))
  }

  ghost predicate BlocksHold(m: Model, compressed: seq<Pooled>, pages: seq<nat>, keys: seq<Key>)
    requires m.g.Valid()
  {
    forall b: nat | (b + 1) * m.g.ratio <= |keys| :: BlockHolds(m, compressed, pages, keys, b)
  }

  ghost predicate RingHolds(m: Model, ring: seq<Key>, slot: nat, keys: seq<Key>, p: nat)
    requires m.g.Valid() && p < |keys|
  {
    RingAt(m.g, slot, p) < |ring| && ring[RingAt(m.g, slot, p)] == keys[p]
  }

  // First position of the group a request of this length is still filling.
  function TailStart(g: Geometry, length: nat): (start: nat)
    requires g.Valid()
    ensures start <= length < start + g.ratio
  {
    Split(length, g.ratio);
    length / g.ratio * g.ratio
  }

  ghost predicate TailHolds(m: Model, ring: seq<Key>, slot: nat, keys: seq<Key>)
    requires m.g.Valid()
  {
    forall p: nat | TailStart(m.g, |keys|) <= p < |keys| :: RingHolds(m, ring, slot, keys, p)
  }

  predicate InPool(g: Geometry, pg: nat)
    requires g.Valid()
  {
    0 < pg && (pg + 1) * g.GroupsPerPage() <= g.capacity
  }

  // The allocated pages hold this many positions.
  predicate Holds(g: Geometry, pages: seq<nat>, length: nat) {
    length <= |pages| * g.page
  }

  ghost predicate WellPaged(g: Geometry, r: Request)
    requires g.Valid()
  {
    && Holds(g, r.pages, |r.keys|)
    && (forall i | 0 <= i < |r.pages| :: InPool(g, r.pages[i]))
    && (forall i, j | 0 <= i < j < |r.pages| :: r.pages[i] != r.pages[j])
  }

  // Prefix sharing is page-granular: a page two holders both map is at the same
  // place in both, and both have committed it in full.
  ghost predicate SharedWhenFull(g: Geometry, a: Request, b: Request) {
    forall i, j | 0 <= i < |a.pages| && 0 <= j < |b.pages| && a.pages[i] == b.pages[j] ::
      i == j && (i + 1) * g.page <= |a.keys| && (i + 1) * g.page <= |b.keys|
  }

  // What the allocator guarantees: no aliasing but full shared pages, and
  // request slot 0 and page 0 stay reserved.
  ghost predicate Allocated(g: Geometry, holders: map<Holder, Request>)
    requires g.Valid()
  {
    && (forall h | h in holders :: WellPaged(g, holders[h]))
    && (forall h | h in holders && h.Live? :: 0 < h.slot < g.requests)
    && (forall a, b | a in holders && b in holders && a != b :: SharedWhenFull(g, holders[a], holders[b]))
  }

  ghost predicate Sized(m: Model, s: State) {
    |s.ring| == m.g.requests * m.g.ring && |s.compressed| == m.g.capacity
  }

  ghost predicate Inv(m: Model, s: State)
    requires m.g.Valid()
  {
    && Sized(m, s)
    && Allocated(m.g, s.holders)
    && (forall h | h in s.holders :: BlocksHold(m, s.compressed, s.holders[h].pages, s.holders[h].keys))
    && (forall h | h in s.holders && h.Live? :: TailHolds(m, s.ring, h.slot, s.holders[h].keys))
  }

  // --- A forward's batch -------------------------------------------------------

  // New tokens of one request: a prefill chunk, or the rows of a paged forward.
  datatype Growth = Growth(slot: nat, keys: seq<Key>)

  function Before(s: State, x: Growth): Request
    requires Live(x.slot) in s.holders
  {
    s.holders[Live(x.slot)]
  }

  function Grown(s: State, x: Growth): seq<Key>
    requires Live(x.slot) in s.holders
  {
    Before(s, x).keys + x.keys
  }

  ghost predicate ValidBatch(m: Model, s: State, batch: seq<Growth>) {
    && 0 < |batch|
    && (forall i | 0 <= i < |batch| ::
          Live(batch[i].slot) in s.holders && Holds(m.g, Before(s, batch[i]).pages, |Grown(s, batch[i])|))
    && (forall i, j | 0 <= i < j < |batch| :: batch[i].slot != batch[j].slot)
  }

  // Extend chunks start on a group boundary (the source asserts it on device).
  ghost predicate Aligned(m: Model, s: State, batch: seq<Growth>)
    requires m.g.Valid() && ValidBatch(m, s, batch)
  {
    forall i | 0 <= i < |batch| :: |Before(s, batch[i]).keys| % m.g.ratio == 0
  }

  // The rows a paged forward writes fit the ring beside the pending group.
  ghost predicate FitsRing(m: Model, batch: seq<Growth>) {
    forall i | 0 <= i < |batch| :: 0 < |batch[i].keys| && |batch[i].keys| + m.g.ratio <= m.g.ring + 1
  }

  // --- Ring stores ---------------------------------------------------------------

  // `build_pending_ring_slots` for one token. Extend forwards keep only the
  // pending tail and dump older tokens into request slot 0.
  function StateSlot(g: Geometry, slot: nat, p: nat, length: nat, isExtend: bool): nat
    requires g.Valid()
  {
    if isExtend && p < TailStart(g, length) then p % g.ring else RingAt(g, slot, p)
  }

  function TokenStore(m: Model, s: State, x: Growth, isExtend: bool, j: nat): (nat, Key)
    requires m.g.Valid() && Live(x.slot) in s.holders && j < |x.keys|
  {
    (StateSlot(m.g, x.slot, |Before(s, x).keys| + j, |Grown(s, x)|, isExtend), x.keys[j])
  }

  function TokenStores(m: Model, s: State, batch: seq<Growth>, isExtend: bool, n: nat): seq<(nat, Key)>
    requires m.g.Valid() && n <= |batch| && forall i | 0 <= i < n :: Live(batch[i].slot) in s.holders
  {
    if n == 0 then []
    else
      var x := batch[n - 1];
      TokenStores(m, s, batch, isExtend, n - 1) +
      seq(|x.keys|, j requires 0 <= j < |x.keys| => TokenStore(m, s, x, isExtend, j))
  }

  // Padding rows carry length 1 and store at position 0 of request `padSlot`.
  function PaddingStores(g: Geometry, padSlot: nat, padding: seq<Key>): seq<(nat, Key)>
    requires g.Valid()
  {
    seq(|padding|, i requires 0 <= i < |padding| => (RingAt(g, padSlot, 0), padding[i]))
  }

  function RingStores(m: Model, s: State, batch: seq<Growth>, isExtend: bool, padSlot: nat,
        padding: seq<Key>): seq<(nat, Key)>
    requires m.g.Valid() && forall i | 0 <= i < |batch| :: Live(batch[i].slot) in s.holders
  {
    TokenStores(m, s, batch, isExtend, |batch|) + PaddingStores(m.g, padSlot, padding)
  }

  lemma {:induction false} TokenStoreMembers(m: Model, s: State, batch: seq<Growth>, isExtend: bool, n: nat)
    requires m.g.Valid() && n <= |batch| && forall i | 0 <= i < |batch| :: Live(batch[i].slot) in s.holders
    ensures forall i, j | 0 <= i < n && 0 <= j < |batch[i].keys| ::
              TokenStore(m, s, batch[i], isExtend, j) in TokenStores(m, s, batch, isExtend, n)
    ensures forall st | st in TokenStores(m, s, batch, isExtend, n) ::
              exists i, j :: 0 <= i < n && 0 <= j < |batch[i].keys| && st == TokenStore(m, s, batch[i], isExtend, j)
  {
    if n > 0 {
      TokenStoreMembers(m, s, batch, isExtend, n - 1);
      var x := batch[n - 1];
      var last := seq(|x.keys|, j requires 0 <= j < |x.keys| => TokenStore(m, s, x, isExtend, j));
      forall j | 0 <= j < |x.keys|
        ensures TokenStore(m, s, x, isExtend, j) in last
      {
        assert last[j] == TokenStore(m, s, x, isExtend, j);
      }
      forall st | st in last
        ensures exists j :: 0 <= j < |x.keys| && st == TokenStore(m, s, x, isExtend, j)
      {
        var j :| 0 <= j < |last| && last[j] == st;
        assert st == TokenStore(m, s, x, isExtend, j);
      }
    }
  }

  // Ring cells of different requests, and of different positions in a window no
  // longer than the ring, are different.
  lemma RingCell(g: Geometry, a: nat, p: nat, b: nat, q: nat)
    requires g.Valid() && RingAt(g, a, p) == RingAt(g, b, q)
    ensures a == b && p % g.ring == q % g.ring
    ensures p <= q < p + g.ring ==> p == q
  {
    Split(p, g.ring);
    Split(q, g.ring);
    RowsDisjoint(a, p % g.ring, b, q % g.ring, g.ring);
    if p <= q < p + g.ring {
      RingInjective(p, q, g.ring);
    }
  }

  lemma RingCellInBounds(g: Geometry, slot: nat, p: nat)
    requires g.Valid() && slot < g.requests
    ensures RingAt(g, slot, p) < g.requests * g.ring
  {
    Split(p, g.ring);
    RowInBounds(slot, p % g.ring, g.requests, g.ring);
  }

  ghost predicate FromToken(m: Model, s: State, batch: seq<Growth>, isExtend: bool, st: (nat, Key), i: nat, j: nat)
    requires m.g.Valid() && forall i | 0 <= i < |batch| :: Live(batch[i].slot) in s.holders
  {
    i < |batch| && j < |batch[i].keys| && st == TokenStore(m, s, batch[i], isExtend, j)
  }

  lemma StoreOrigin(m: Model, s: State, batch: seq<Growth>, isExtend: bool, padSlot: nat, padding: seq<Key>,
        st: (nat, Key))
    requires m.g.Valid() && forall i | 0 <= i < |batch| :: Live(batch[i].slot) in s.holders
    requires st in RingStores(m, s, batch, isExtend, padSlot, padding)
    ensures st.0 == RingAt(m.g, padSlot, 0) || exists i: nat, j: nat :: FromToken(m, s, batch, isExtend, st, i, j)
  {
    TokenStoreMembers(m, s, batch, isExtend, |batch|);
    if st in TokenStores(m, s, batch, isExtend, |batch|) {
      var i, j :| 0 <= i < |batch| && 0 <= j < |batch[i].keys| && st == TokenStore(m, s, batch[i], isExtend, j);
      assert FromToken(m, s, batch, isExtend, st, i, j);
    } else {
      assert st in PaddingStores(m.g, padSlot, padding);
    }
  }

  // A store that hits a live request's cell comes from that request's own batch
  // entry, at a position that entry adds and that shares the ring cell.
  lemma StoreHitsOwnCell(m: Model, s: State, batch: seq<Growth>, isExtend: bool, padSlot: nat, padding: seq<Key>,
        st: (nat, Key), slot: nat, p: nat)
    returns (i: nat, j: nat)
    requires m.g.Valid() && Allocated(m.g, s.holders) && ValidBatch(m, s, batch)
    requires st in RingStores(m, s, batch, isExtend, padSlot, padding)
    requires 0 < slot != padSlot && st.0 == RingAt(m.g, slot, p)
    ensures FromToken(m, s, batch, isExtend, st, i, j) && batch[i].slot == slot
    ensures st.0 == RingAt(m.g, slot, |Before(s, batch[i]).keys| + j)
    ensures isExtend ==> TailStart(m.g, |Grown(s, batch[i])|) <= |Before(s, batch[i]).keys| + j
  {
    StoreOrigin(m, s, batch, isExtend, padSlot, padding, st);
    if st.0 == RingAt(m.g, padSlot, 0) {
      RingCell(m.g, slot, p, padSlot, 0);
    }
    i, j :| FromToken(m, s, batch, isExtend, st, i, j);
    var q := |Before(s, batch[i]).keys| + j;
    if st.0 == RingAt(m.g, 0, q) {
      RingCell(m.g, slot, p, 0, q);
    }
    RingCell(m.g, slot, p, batch[i].slot, q);
  }

  // Requests outside the batch keep their pending keys: no row of another
  // request, no dumped token and no padding row lands in their ring.
  lemma OthersKeepTail(m: Model, s: State, batch: seq<Growth>, isExtend: bool, padSlot: nat, padding: seq<Key>,
        ring: seq<Key>, slot: nat)
    requires m.g.Valid() && Inv(m, s) && ValidBatch(m, s, batch)
    requires Outcome(s.ring, RingStores(m, s, batch, isExtend, padSlot, padding), ring)
    requires Live(slot) in s.holders && slot != padSlot && forall i | 0 <= i < |batch| :: batch[i].slot != slot
    ensures TailHolds(m, ring, slot, s.holders[Live(slot)].keys)
  {
    var keys := s.holders[Live(slot)].keys;
    var stores := RingStores(m, s, batch, isExtend, padSlot, padding);
    forall p: nat | TailStart(m.g, |keys|) <= p < |keys|
      ensures RingHolds(m, ring, slot, keys, p)
    {
      assert RingHolds(m, s.ring, slot, keys, p);
      forall st | st in stores
        ensures st.0 != RingAt(m.g, slot, p)
      {
        if st.0 == RingAt(m.g, slot, p) {
          var i, j := StoreHitsOwnCell(m, s, batch, isExtend, padSlot, padding, st, slot, p);
        }
      }
      Untouched(s.ring, stores, ring, RingAt(m.g, slot, p));
    }
  }

  // A token the batch adds is found at its ring cell, if its cell is kept.
  lemma StoredTokenHolds(m: Model, s: State, batch: seq<Growth>, isExtend: bool, padding: seq<Key>, ring: seq<Key>,
        i: nat, p: nat)
    requires m.g.Valid() && Allocated(m.g, s.holders) && |s.ring| == m.g.requests * m.g.ring
    requires ValidBatch(m, s, batch) && i < |batch|
    requires Outcome(s.ring, RingStores(m, s, batch, isExtend, 0, padding), ring)
    requires |Before(s, batch[i]).keys| <= p < |Grown(s, batch[i])|
    requires if isExtend then TailStart(m.g, |Grown(s, batch[i])|) <= p else FitsRing(m, batch)
    ensures RingHolds(m, ring, batch[i].slot, Grown(s, batch[i]), p)
  {
    var x := batch[i];
    var c := |Before(s, x).keys|;
    var cell := RingAt(m.g, x.slot, p);
    var stores := RingStores(m, s, batch, isExtend, 0, padding);
    assert (cell, x.keys[p - c]) in stores by {
      TokenStoreMembers(m, s, batch, isExtend, |batch|);
      assert TokenStore(m, s, x, isExtend, p - c) == (cell, x.keys[p - c]);
    }
    RingCellInBounds(m.g, x.slot, p);
    forall st | st in stores && st.0 == cell
      ensures st.1 == x.keys[p - c]
    {
      OnlyItsToken(m, s, batch, isExtend, padding, st, i, p);
    }
    Written(s.ring, stores, ring, cell, x.keys[p - c]);
  }

  lemma OnlyItsToken(m: Model, s: State, batch: seq<Growth>, isExtend: bool, padding: seq<Key>, st: (nat, Key),
        i: nat, p: nat)
    requires m.g.Valid() && Allocated(m.g, s.holders) && ValidBatch(m, s, batch) && i < |batch|
    requires |Before(s, batch[i]).keys| <= p < |Grown(s, batch[i])|
    requires if isExtend then TailStart(m.g, |Grown(s, batch[i])|) <= p else FitsRing(m, batch)
    requires st in RingStores(m, s, batch, isExtend, 0, padding) && st.0 == RingAt(m.g, batch[i].slot, p)
    ensures st.1 == batch[i].keys[p - |Before(s, batch[i]).keys|]
  {
    var c := |Before(s, batch[i]).keys|;
    var k, j := StoreHitsOwnCell(m, s, batch, isExtend, 0, padding, st, batch[i].slot, p);
    assert k == i;
    if c + j <= p {
      RingCell(m.g, batch[i].slot, c + j, batch[i].slot, p);
    } else {
      RingCell(m.g, batch[i].slot, p, batch[i].slot, c + j);
    }
  }

  // After a paged forward the ring holds a batch request's whole window: the
  // committed pending tail, which no uncommitted row aliases, and every new row.
  lemma WindowHolds(m: Model, s: State, batch: seq<Growth>, padding: seq<Key>, ring: seq<Key>, i: nat, p: nat)
    requires m.g.Valid() && Inv(m, s) && ValidBatch(m, s, batch) && FitsRing(m, batch) && i < |batch|
    requires Outcome(s.ring, RingStores(m, s, batch, false, 0, padding), ring)
    requires TailStart(m.g, |Before(s, batch[i]).keys|) <= p < |Grown(s, batch[i])|
    ensures RingHolds(m, ring, batch[i].slot, Grown(s, batch[i]), p)
  {
    var x := batch[i];
    var keys := Before(s, x).keys;
    if |keys| <= p {
      StoredTokenHolds(m, s, batch, false, padding, ring, i, p);
    } else {
      var stores := RingStores(m, s, batch, false, 0, padding);
      assert RingHolds(m, s.ring, x.slot, keys, p);
      forall st | st in stores
        ensures st.0 != RingAt(m.g, x.slot, p)
      {
        if st.0 == RingAt(m.g, x.slot, p) {
          var k, j := StoreHitsOwnCell(m, s, batch, false, 0, padding, st, x.slot, p);
          assert k == i;
          RingCell(m.g, x.slot, p, x.slot, |keys| + j);
        }
      }
      Untouched(s.ring, stores, ring, RingAt(m.g, x.slot, p));
    }
  }

  // After an extend forward the ring holds the new pending tail.
  lemma ExtendTailHolds(m: Model, s: State, batch: seq<Growth>, padding: seq<Key>, ring: seq<Key>, i: nat)
    requires m.g.Valid() && Inv(m, s) && ValidBatch(m, s, batch) && Aligned(m, s, batch) && i < |batch|
    requires Outcome(s.ring, RingStores(m, s, batch, true, 0, padding), ring)
    ensures TailHolds(m, ring, batch[i].slot, Grown(s, batch[i]))
  {
    var x := batch[i];
    AlignedTail(m.g, |Before(s, x).keys|, |Grown(s, x)|);
    forall p: nat | TailStart(m.g, |Grown(s, x)|) <= p < |Grown(s, x)|
      ensures RingHolds(m, ring, x.slot, Grown(s, x), p)
    {
      StoredTokenHolds(m, s, batch, true, padding, ring, i, p);
    }
  }

  lemma AlignedTail(g: Geometry, prefix: nat, length: nat)
    requires g.Valid() && prefix % g.ratio == 0 && prefix <= length
    ensures prefix <= TailStart(g, length)
  {
    Split(prefix, g.ratio);
    DivMonotone(prefix, length, g.ratio);
    MulMonotone(prefix / g.ratio, length / g.ratio, g.ratio);
  }

  // --- Compressed stores -----------------------------------------------------------

  // Block b of batch entry i is completed by this forward.
  predicate Completes(m: Model, s: State, batch: seq<Growth>, i: nat, b: nat)
    requires m.g.Valid() && forall i | 0 <= i < |batch| :: Live(batch[i].slot) in s.holders
  {
    i < |batch| && |Before(s, batch[i]).keys| < (b + 1) * m.g.ratio <= |Grown(s, batch[i])|
  }

  // The store a completed block calls for.
  ghost predicate IsGroupStore(m: Model, s: State, batch: seq<Growth>, i: nat, b: nat, st: (nat, Pooled))
    requires m.g.Valid() && forall i | 0 <= i < |batch| :: Live(batch[i].slot) in s.holders
    requires Completes(m, s, batch, i, b)
  {
    && HasBlock(m.g, Before(s, batch[i]).pages, b)
    && st == (CompressedSlot(m.g, Before(s, batch[i]).pages, b), m.pool(Group(Grown(s, batch[i]), m.g.ratio, b)))
  }

  ghost predicate FromGroup(m: Model, s: State, batch: seq<Growth>, st: (nat, Pooled))
    requires m.g.Valid() && forall i | 0 <= i < |batch| :: Live(batch[i].slot) in s.holders
  {
    exists i: nat, b: nat :: Completes(m, s, batch, i, b) && IsGroupStore(m, s, batch, i, b, st)
  }

  ghost predicate StoresGroup(m: Model, s: State, batch: seq<Growth>, i: nat, b: nat, stores: seq<(nat, Pooled)>)
    requires m.g.Valid() && forall i | 0 <= i < |batch| :: Live(batch[i].slot) in s.holders
    requires Completes(m, s, batch, i, b)
  {
    exists st :: st in stores && IsGroupStore(m, s, batch, i, b, st)
  }

  // The stores of a forward are one per completed block, plus writes to slot 0.
  ghost predicate GroupStores(m: Model, s: State, batch: seq<Growth>, stores: seq<(nat, Pooled)>)
    requires m.g.Valid() && forall i | 0 <= i < |batch| :: Live(batch[i].slot) in s.holders
  {
    && (forall st | st in stores :: st.0 == 0 || FromGroup(m, s, batch, st))
    && (forall i: nat, b: nat | Completes(m, s, batch, i, b) :: StoresGroup(m, s, batch, i, b, stores))
  }

  // A holder's keys while the forward is in flight.
  function InFlight(s: State, batch: seq<Growth>, h: Holder, n: nat): seq<Key>
    requires h in s.holders && n <= |batch| && forall i | 0 <= i < |batch| :: Live(batch[i].slot) in s.holders
  {
    if n == 0 then s.holders[h].keys
    else if h == Live(batch[n - 1].slot) then Grown(s, batch[n - 1])
    else InFlight(s, batch, h, n - 1)
  }

  lemma {:induction false} InFlightCases(s: State, batch: seq<Growth>, h: Holder, n: nat)
    requires h in s.holders && n <= |batch| && forall i | 0 <= i < |batch| :: Live(batch[i].slot) in s.holders
    requires forall i, j | 0 <= i < j < |batch| :: batch[i].slot != batch[j].slot
    ensures forall i | 0 <= i < n && h == Live(batch[i].slot) :: InFlight(s, batch, h, n) == Grown(s, batch[i])
    ensures (forall i | 0 <= i < n :: h != Live(batch[i].slot)) ==> InFlight(s, batch, h, n) == s.holders[h].keys
  {
    if n > 0 {
      InFlightCases(s, batch, h, n - 1);
    }
  }

  lemma SharedPageIsFull(g: Geometry, a: Request, b: Request, i: nat, j: nat)
    requires SharedWhenFull(g, a, b) && i < |a.pages| && j < |b.pages| && a.pages[i] == b.pages[j]
    ensures (i + 1) * g.page <= |a.keys|
  {
  }

  lemma PageIsNotFull(g: Geometry, length: nat, b: nat, i: nat)
    requires g.Valid() && length < (b + 1) * g.ratio && i == b / g.GroupsPerPage()
    ensures length < (i + 1) * g.page
  {
    BlockEndsInPage(g, b);
  }

  // A group completed now lies on a page its request has not filled, so no
  // other holder maps that page.
  lemma FreshGroupIsPrivate(g: Geometry, mine: Request, b: nat, other: Request, c: nat)
    requires g.Valid() && SharedWhenFull(g, mine, other) && |mine.keys| < (b + 1) * g.ratio
    requires HasBlock(g, mine.pages, b) && HasBlock(g, other.pages, c)
    ensures CompressedSlot(g, mine.pages, b) != CompressedSlot(g, other.pages, c)
  {
    var (i, j) := (b / g.GroupsPerPage(), c / g.GroupsPerPage());
    PageIsNotFull(g, |mine.keys|, b, i);
    if CompressedSlot(g, mine.pages, b) == CompressedSlot(g, other.pages, c) {
      SlotsIdentifyGroups(g, mine.pages, b, other.pages, c);
      SharedPageIsFull(g, mine, other, i, j);
    }
  }

  // A store at some holder's block comes from that holder's own batch entry and
  // is that very block.
  lemma StoreHitsOwnBlock(m: Model, s: State, batch: seq<Growth>, st: (nat, Pooled), h: Holder, b: nat)
    returns (i: nat)
    requires m.g.Valid() && Allocated(m.g, s.holders) && ValidBatch(m, s, batch)
    requires h in s.holders && HasBlock(m.g, s.holders[h].pages, b)
    requires FromGroup(m, s, batch, st) && st.0 == CompressedSlot(m.g, s.holders[h].pages, b)
    ensures Completes(m, s, batch, i, b) && h == Live(batch[i].slot)
    ensures IsGroupStore(m, s, batch, i, b, st)
  {
    var b': nat;
    i, b' :| Completes(m, s, batch, i, b') && IsGroupStore(m, s, batch, i, b', st);
    var mine := Live(batch[i].slot);
    if mine != h {
      assert SharedWhenFull(m.g, s.holders[mine], s.holders[h]);
      FreshGroupIsPrivate(m.g, s.holders[mine], b', s.holders[h], b);
    }
    assert mine == h;
    assert WellPaged(m.g, s.holders[h]);
    BlocksHaveOwnSlots(m.g, s.holders[h].pages, b', b);
  }

  // The compressed cache after a forward: every holder's complete blocks, those
  // of uncommitted rows included, pool exactly that holder's in-flight keys.
  lemma CompressKeepsBlocks(m: Model, s: State, batch: seq<Growth>, stores: seq<(nat, Pooled)>,
        compressed: seq<Pooled>, h: Holder)
    requires m.g.Valid() && Inv(m, s) && ValidBatch(m, s, batch) && h in s.holders
    requires GroupStores(m, s, batch, stores) && Outcome(s.compressed, stores, compressed)
    ensures BlocksHold(m, compressed, s.holders[h].pages, InFlight(s, batch, h, |batch|))
  {
    var pages := s.holders[h].pages;
    var keys := InFlight(s, batch, h, |batch|);
    InFlightCases(s, batch, h, |batch|);
    assert Holds(m.g, pages, |keys|) && s.holders[h].keys <= keys by {
      assert WellPaged(m.g, s.holders[h]);
      if i :| 0 <= i < |batch| && h == Live(batch[i].slot) {
        assert keys == Grown(s, batch[i]);
      }
    }
    forall b: nat | (b + 1) * m.g.ratio <= |keys|
      ensures BlockHolds(m, compressed, pages, keys, b)
    {
      CompletedBlockHasPage(m.g, pages, |keys|, b);
      SlotInCapacity(m.g, pages, b);
      BlockAfterForward(m, s, batch, stores, compressed, h, keys, b);
    }
  }

  lemma BlockAfterForward(m: Model, s: State, batch: seq<Growth>, stores: seq<(nat, Pooled)>,
        compressed: seq<Pooled>, h: Holder, keys: seq<Key>, b: nat)
    requires m.g.Valid() && Inv(m, s) && ValidBatch(m, s, batch) && h in s.holders
    requires GroupStores(m, s, batch, stores) && Outcome(s.compressed, stores, compressed)
    requires keys == InFlight(s, batch, h, |batch|) && s.holders[h].keys <= keys
    requires (b + 1) * m.g.ratio <= |keys|
    requires HasBlock(m.g, s.holders[h].pages, b)
    requires 0 < CompressedSlot(m.g, s.holders[h].pages, b) < m.g.capacity
    ensures BlockHolds(m, compressed, s.holders[h].pages, keys, b)
  {
    if (b + 1) * m.g.ratio <= |s.holders[h].keys| {
      OldBlockStays(m, s, batch, stores, compressed, h, keys, b);
    } else {
      NewBlockIsWritten(m, s, batch, stores, compressed, h, keys, b);
    }
  }

  lemma OldBlockStays(m: Model, s: State, batch: seq<Growth>, stores: seq<(nat, Pooled)>, compressed: seq<Pooled>,
        h: Holder, keys: seq<Key>, b: nat)
    requires m.g.Valid() && Inv(m, s) && ValidBatch(m, s, batch) && h in s.holders
    requires GroupStores(m, s, batch, stores) && Outcome(s.compressed, stores, compressed)
    requires s.holders[h].keys <= keys && (b + 1) * m.g.ratio <= |s.holders[h].keys|
    requires HasBlock(m.g, s.holders[h].pages, b)
    requires 0 < CompressedSlot(m.g, s.holders[h].pages, b) < m.g.capacity
    ensures BlockHolds(m, compressed, s.holders[h].pages, keys, b)
  {
    var cell := CompressedSlot(m.g, s.holders[h].pages, b);
    forall st | st in stores
      ensures st.0 != cell
    {
      if st.0 == cell {
        var i := StoreHitsOwnBlock(m, s, batch, st, h, b);
      }
    }
    Untouched(s.compressed, stores, compressed, cell);
    assert BlocksHold(m, s.compressed, s.holders[h].pages, s.holders[h].keys);
    assert BlockHolds(m, s.compressed, s.holders[h].pages, s.holders[h].keys, b);
    Successor(b, m.g.ratio);
    assert Group(keys, m.g.ratio, b) == Group(s.holders[h].keys, m.g.ratio, b);
  }

  lemma NewBlockIsWritten(m: Model, s: State, batch: seq<Growth>, stores: seq<(nat, Pooled)>,
        compressed: seq<Pooled>, h: Holder, keys: seq<Key>, b: nat)
    requires m.g.Valid() && Allocated(m.g, s.holders) && |s.compressed| == m.g.capacity
    requires ValidBatch(m, s, batch) && h in s.holders
    requires GroupStores(m, s, batch, stores) && Outcome(s.compressed, stores, compressed)
    requires keys == InFlight(s, batch, h, |batch|)
    requires |s.holders[h].keys| < (b + 1) * m.g.ratio <= |keys|
    requires HasBlock(m.g, s.holders[h].pages, b)
    requires 0 < CompressedSlot(m.g, s.holders[h].pages, b) < m.g.capacity
    ensures BlockHolds(m, compressed, s.holders[h].pages, keys, b)
  {
    var cell := CompressedSlot(m.g, s.holders[h].pages, b);
    var value := m.pool(Group(keys, m.g.ratio, b));
    InFlightCases(s, batch, h, |batch|);
    var i: nat :| i < |batch| && h == Live(batch[i].slot);
    assert (cell, value) in stores by {
      assert Completes(m, s, batch, i, b);
      assert StoresGroup(m, s, batch, i, b, stores);
    }
    forall st | st in stores && st.0 == cell
      ensures st.1 == value
    {
      var k := StoreHitsOwnBlock(m, s, batch, st, h, b);
    }
    Written(s.compressed, stores, compressed, cell, value);
  }
}
