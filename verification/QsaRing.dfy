/** The exact size the pending ring needs, and the exact condition under which
    padding rows that alias a live request leave its window intact. */
module QsaRing {
  import opened Arithmetic
  import opened Scatter
  import opened QsaAddressing
  import opened QsaCache

  // A committed pending position and a row written by the same paged forward
  // that fall on the same ring cell.
  ghost predicate Aliases(g: Geometry, rows: nat, length: nat, p: nat, q: nat)
    requires g.Valid()
  {
    TailStart(g, length) <= p < length <= q < length + rows && p % g.ring == q % g.ring
  }

  // The ring keeps every committed tail apart from n new rows exactly when it
  // spans one group less one position plus n. The pool sizes it as the ratio plus
  // the draft window, and target verification checks for one position more than
  // this needs.
  lemma RingSizeIsExact(g: Geometry, rows: nat)
    requires g.Valid() && 0 < rows
    ensures (forall length: nat, p: nat, q: nat :: !Aliases(g, rows, length, p, q)) <==> rows + g.ratio <= g.ring + 1
  {
    if rows + g.ratio <= g.ring + 1 {
      forall length: nat, p: nat, q: nat
        ensures !Aliases(g, rows, length, p, q)
      {
        if Aliases(g, rows, length, p, q) {
          RingInjective(p, q, g.ring);
        }
      }
    } else {
      QuotientUnique(0, g.ring, 0, 0);
      QuotientUnique(g.ring, g.ring, 1, 0);
      QuotientUnique(g.ratio - 1, g.ratio, 0, g.ratio - 1);
      assert Aliases(g, rows, g.ratio - 1, 0, g.ring);
    }
  }

  // The host layout gives its padding rows the first request instead of the
  // reserved slot 0, so their keys land on that request's position 0.
  ghost predicate WindowIntact(m: Model, s: State, x: Growth, ring: seq<Key>)
    requires m.g.Valid() && Live(x.slot) in s.holders
  {
    forall p: nat | TailStart(m.g, |Before(s, x).keys|) <= p < |Grown(s, x)| ::
        RingHolds(m, ring, x.slot, Grown(s, x), p)
  }

  // Position p of the window shares its ring cell with the padding rows.
  predicate MeetsPadding(m: Model, s: State, x: Growth, p: nat)
    requires m.g.Valid() && Live(x.slot) in s.holders
  {
    TailStart(m.g, |Before(s, x).keys|) <= p < |Grown(s, x)| && p % m.g.ring == 0
  }

  ghost predicate PaddingHarmless(m: Model, s: State, x: Growth, padding: seq<Key>)
    requires m.g.Valid() && Live(x.slot) in s.holders
  {
    forall p: nat, i | MeetsPadding(m, s, x, p) && 0 <= i < |padding| :: padding[i] == Grown(s, x)[p]
  }

  // What a forward of this batch may leave in the ring when its padding rows alias
  // the first request.
  ghost predicate HostOutcome(m: Model, s: State, batch: seq<Growth>, padding: seq<Key>, ring: seq<Key>)
    requires m.g.Valid() && ValidBatch(m, s, batch)
  {
    Outcome(s.ring, RingStores(m, s, batch, false, batch[0].slot, padding), ring)
  }

  ghost predicate AllIntact(m: Model, s: State, batch: seq<Growth>, ring: seq<Key>)
    requires m.g.Valid() && ValidBatch(m, s, batch)
  {
    forall i | 0 <= i < |batch| :: WindowIntact(m, s, batch[i], ring)
  }

  // Every order of the stores leaves the window of every request intact exactly
  // when no window position of the first request falls on the ring's first cell,
  // or the padding keys happen to equal the key that belongs there.
  lemma HostPaddingIsExact(m: Model, s: State, batch: seq<Growth>, padding: seq<Key>)
    requires m.g.Valid() && Inv(m, s) && ValidBatch(m, s, batch) && FitsRing(m, batch)
    ensures (forall ring | HostOutcome(m, s, batch, padding, ring) :: AllIntact(m, s, batch, ring))
            <==> PaddingHarmless(m, s, batch[0], padding)
  {
    var x := batch[0];
    if PaddingHarmless(m, s, x, padding) {
      forall ring, i, p: nat | HostOutcome(m, s, batch, padding, ring) && 0 <= i < |batch|
          && TailStart(m.g, |Before(s, batch[i]).keys|) <= p < |Grown(s, batch[i])|
        ensures RingHolds(m, ring, batch[i].slot, Grown(s, batch[i]), p)
      {
        HarmlessKeeps(m, s, batch, padding, ring, i, p);
      }
    } else {
      var p: nat, i :| MeetsPadding(m, s, x, p) && 0 <= i < |padding| && padding[i] != Grown(s, x)[p];
      var ring := ClobberingOutcome(m, s, batch, padding, i);
      assert RingAt(m.g, x.slot, p) == RingAt(m.g, x.slot, 0);
      assert !RingHolds(m, ring, x.slot, Grown(s, x), p);
      assert !WindowIntact(m, s, x, ring);
    }
  }

  // A store is a padding row's or one of the batch's own tokens.
  lemma StoreSource(m: Model, s: State, batch: seq<Growth>, padding: seq<Key>, st: (nat, Key))
    returns (i: nat, p: nat)
    requires m.g.Valid() && ValidBatch(m, s, batch)
    requires st in RingStores(m, s, batch, false, batch[0].slot, padding)
    ensures i < |batch|
    ensures st in PaddingStores(m.g, batch[0].slot, padding)
            || (|Before(s, batch[i]).keys| <= p < |Grown(s, batch[i])|
                && st == (RingAt(m.g, batch[i].slot, p), Grown(s, batch[i])[p]))
  {
    i, p := 0, 0;
    TokenStoreMembers(m, s, batch, false, |batch|);
    if st in TokenStores(m, s, batch, false, |batch|) {
      var k, j :| 0 <= k < |batch| && 0 <= j < |batch[k].keys| && st == TokenStore(m, s, batch[k], false, j);
      i, p := k, |Before(s, batch[k]).keys| + j;
    }
  }

  lemma HarmlessKeeps(m: Model, s: State, batch: seq<Growth>, padding: seq<Key>, ring: seq<Key>, i: nat, p: nat)
    requires m.g.Valid() && Inv(m, s) && ValidBatch(m, s, batch) && FitsRing(m, batch) && i < |batch|
    requires PaddingHarmless(m, s, batch[0], padding) && HostOutcome(m, s, batch, padding, ring)
    requires TailStart(m.g, |Before(s, batch[i]).keys|) <= p < |Grown(s, batch[i])|
    ensures RingHolds(m, ring, batch[i].slot, Grown(s, batch[i]), p)
  {
    var x := batch[i];
    var stores := RingStores(m, s, batch, false, batch[0].slot, padding);
    var c, cell := |Before(s, x).keys|, RingAt(m.g, x.slot, p);
    RingCellInBounds(m.g, x.slot, p);
    forall st | st in stores && st.0 == cell
      ensures st.1 == Grown(s, x)[p]
    {
      HarmlessStore(m, s, batch, padding, st, i, p);
    }
    if c <= p {
      OwnStore(m, s, batch, padding, i, p);
      Written(s.ring, stores, ring, cell, Grown(s, x)[p]);
    } else {
      assert TailHolds(m, s.ring, x.slot, Before(s, x).keys);
      assert RingHolds(m, s.ring, x.slot, Before(s, x).keys, p);
      assert Cell(s.ring, stores, ring, cell);
    }
  }

  lemma OwnStore(m: Model, s: State, batch: seq<Growth>, padding: seq<Key>, i: nat, p: nat)
    requires m.g.Valid() && ValidBatch(m, s, batch) && i < |batch|
    requires |Before(s, batch[i]).keys| <= p < |Grown(s, batch[i])|
    ensures (RingAt(m.g, batch[i].slot, p), Grown(s, batch[i])[p])
            in RingStores(m, s, batch, false, batch[0].slot, padding)
  {
    TokenStoreMembers(m, s, batch, false, |batch|);
    var j := p - |Before(s, batch[i]).keys|;
    assert TokenStore(m, s, batch[i], false, j) == (RingAt(m.g, batch[i].slot, p), Grown(s, batch[i])[p]);
  }

  lemma HarmlessStore(m: Model, s: State, batch: seq<Growth>, padding: seq<Key>, st: (nat, Key), i: nat, p: nat)
    requires m.g.Valid() && ValidBatch(m, s, batch) && FitsRing(m, batch) && i < |batch|
    requires PaddingHarmless(m, s, batch[0], padding)
    requires TailStart(m.g, |Before(s, batch[i]).keys|) <= p < |Grown(s, batch[i])|
    requires st in RingStores(m, s, batch, false, batch[0].slot, padding) && st.0 == RingAt(m.g, batch[i].slot, p)
    ensures st.1 == Grown(s, batch[i])[p]
  {
    var k, q := StoreSource(m, s, batch, padding, st);
    if st in PaddingStores(m.g, batch[0].slot, padding) {
      RingCell(m.g, batch[i].slot, p, batch[0].slot, 0);
      QuotientUnique(0, m.g.ring, 0, 0);
      assert MeetsPadding(m, s, batch[0], p);
    } else {
      SameCellSamePosition(m, s, batch, i, p, k, q);
    }
  }

  // No two window positions of a batch share a ring cell.
  lemma SameCellSamePosition(m: Model, s: State, batch: seq<Growth>, i: nat, p: nat, k: nat, q: nat)
    requires m.g.Valid() && ValidBatch(m, s, batch) && FitsRing(m, batch) && i < |batch| && k < |batch|
    requires TailStart(m.g, |Before(s, batch[i]).keys|) <= p < |Grown(s, batch[i])|
    requires TailStart(m.g, |Before(s, batch[k]).keys|) <= q < |Grown(s, batch[k])|
    requires RingAt(m.g, batch[i].slot, p) == RingAt(m.g, batch[k].slot, q)
    ensures i == k && p == q
  {
    RingCell(m.g, batch[i].slot, p, batch[k].slot, q);
    if p <= q { RingInjective(p, q, m.g.ring); } else { RingInjective(q, p, m.g.ring); }
  }

  // An order in which padding row i stores last.
  lemma ClobberingOutcome(m: Model, s: State, batch: seq<Growth>, padding: seq<Key>, i: nat) returns (ring: seq<Key>)
    requires m.g.Valid() && Inv(m, s) && ValidBatch(m, s, batch) && i < |padding|
    ensures HostOutcome(m, s, batch, padding, ring)
    ensures RingAt(m.g, batch[0].slot, 0) < |ring| && ring[RingAt(m.g, batch[0].slot, 0)] == padding[i]
  {
    var x := batch[0];
    var stores := RingStores(m, s, batch, false, x.slot, padding);
    forall st | st in stores
      ensures st.0 < |s.ring|
    {
      var k, q := StoreSource(m, s, batch, padding, st);
      RingCellInBounds(m.g, batch[k].slot, q);
      RingCellInBounds(m.g, x.slot, 0);
    }
    RingCellInBounds(m.g, x.slot, 0);
    ApplyIsOutcome(s.ring, stores);
    var cell := RingAt(m.g, x.slot, 0);
    var applied := Apply(s.ring, stores);
    ring := applied[cell := padding[i]];
    assert PaddingStores(m.g, x.slot, padding)[i] == (cell, padding[i]);
    assert (cell, padding[i]) in stores;
    forall k: nat | k < |s.ring|
      ensures Cell(s.ring, stores, ring, k)
    {
      assert Cell(s.ring, stores, applied, k);
    }
  }
}
