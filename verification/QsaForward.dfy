/** One forward's writes to the index cache, as each execution path computes
    them: the eager write plan, the CUDA-graph row metadata, and the extend plan.
    All three store exactly the groups the forward completes. */
module QsaForward {
  import opened Arithmetic
  import opened QsaAddressing
  import opened QsaCache
  import WP = WritePlan

  // --- Paged forwards: one row per query token -------------------------------

  datatype Row = Row(slot: nat, length: nat)

  function BatchRows(s: State, batch: seq<Growth>, n: nat): (rows: seq<Row>)
    requires n <= |batch| && forall i | 0 <= i < |batch| :: Live(batch[i].slot) in s.holders
  {
    if n == 0 then []
    else
      var x := batch[n - 1];
      BatchRows(s, batch, n - 1) + seq(|x.keys|, j requires 0 <= j => Row(x.slot, |Before(s, x).keys| + 1 + j))
  }

  // The request rows followed by the padding rows of a static graph shape.
  function Rows(s: State, batch: seq<Growth>, padSlot: nat, padding: nat): seq<Row>
    requires forall i | 0 <= i < |batch| :: Live(batch[i].slot) in s.holders
  {
    BatchRows(s, batch, |batch|) + seq(padding, _ => Row(padSlot, 1))
  }

  ghost predicate IsBatchRow(s: State, batch: seq<Growth>, row: Row, i: nat)
    requires forall i | 0 <= i < |batch| :: Live(batch[i].slot) in s.holders
  {
    && i < |batch| && row.slot == batch[i].slot
    && |Before(s, batch[i]).keys| < row.length <= |Grown(s, batch[i])|
  }

  lemma {:induction false} BatchRowMembers(s: State, batch: seq<Growth>, n: nat)
    requires n <= |batch| && forall i | 0 <= i < |batch| :: Live(batch[i].slot) in s.holders
    ensures forall row | row in BatchRows(s, batch, n) :: exists i: nat :: i < n && IsBatchRow(s, batch, row, i)
    ensures forall row, i: nat | i < n && IsBatchRow(s, batch, row, i) :: row in BatchRows(s, batch, n)
  {
    if n > 0 {
      BatchRowMembers(s, batch, n - 1);
      var x := batch[n - 1];
      var last := seq(|x.keys|, j requires 0 <= j => Row(x.slot, |Before(s, x).keys| + 1 + j));
      forall row | IsBatchRow(s, batch, row, n - 1)
        ensures row in last
      {
        assert last[row.length - |Before(s, x).keys| - 1] == row;
      }
      forall row | row in last
        ensures IsBatchRow(s, batch, row, n - 1)
      {
        var j :| 0 <= j < |last| && last[j] == row;
      }
    }
  }

  // Every row's `req_to_token` row is right where the request has pages and
  // reaches the row's last position.
  ghost predicate Tabled(m: Model, s: State, rows: seq<Row>, tables: seq<seq<nat>>)
    requires m.g.Valid()
  {
    && |tables| == |rows|
    && (forall k | 0 <= k < |rows| :: 0 < rows[k].length <= |tables[k]| && rows[k].slot < m.g.requests)
    && (forall k | 0 <= k < |rows| && Live(rows[k].slot) in s.holders ::
          RowOf(m.g, s.holders[Live(rows[k].slot)].pages, tables[k]))
  }

  // Position of member k of the group ending at `end`, clamped at zero.
  function MemberPosition(end: nat, ratio: nat, k: nat): nat
    requires k < ratio
  {
    if end < ratio - 1 - k then 0 else end - (ratio - 1 - k)
  }

  // `build_group_ring_slots` followed by the gather of the members' keys.
  function Members(g: Geometry, ring: seq<Key>, slot: nat, end: nat): (members: seq<Key>)
    requires g.Valid() && |ring| == g.requests * g.ring && slot < g.requests
    ensures |members| == g.ratio
  {
    seq(g.ratio, k requires 0 <= k < g.ratio =>
      RingCellInBounds(g, slot, MemberPosition(end, g.ratio, k));
      ring[RingAt(g, slot, MemberPosition(end, g.ratio, k))])
  }

  // Eager: plan the rows' block ranges, then pool each entry's ring members.
  function RowStarts(g: Geometry, rows: seq<Row>): seq<nat>
    requires g.Valid() && forall k | 0 <= k < |rows| :: 0 < rows[k].length
  {
    seq(|rows|, k requires 0 <= k < |rows| => WP.PagedStart(rows[k].length, g.ratio))
  }

  function RowEnds(g: Geometry, rows: seq<Row>): seq<nat>
    requires g.Valid()
  {
    seq(|rows|, k requires 0 <= k < |rows| => Groups(g, rows[k].length))
  }

  lemma RowsCovered(m: Model, s: State, rows: seq<Row>, tables: seq<seq<nat>>)
    requires m.g.Valid() && Tabled(m, s, rows, tables)
    ensures WP.Covers(tables, RowEnds(m.g, rows), m.g.ratio)
  {
  }

  function EagerPlan(m: Model, s: State, rows: seq<Row>, tables: seq<seq<nat>>): (plan: seq<WP.Entry>)
    requires m.g.Valid() && 0 < |rows| && Tabled(m, s, rows, tables)
    ensures |plan| == |rows|
  {
    RowsCovered(m, s, rows, tables);
    WP.Plan(tables, RowStarts(m.g, rows), RowEnds(m.g, rows), |rows|, m.g.ratio, WP.Paged)
  }

  lemma PlanRowInRange(m: Model, s: State, rows: seq<Row>, tables: seq<seq<nat>>, e: nat)
    requires m.g.Valid() && 0 < |rows| && Tabled(m, s, rows, tables) && e < |rows|
    ensures EagerPlan(m, s, rows, tables)[e].row < |rows|
  {
  }

  function EagerStore(m: Model, s: State, rows: seq<Row>, tables: seq<seq<nat>>, ring: seq<Key>, e: nat): (nat, Pooled)
    requires m.g.Valid() && 0 < |rows| && Tabled(m, s, rows, tables) && |ring| == m.g.requests * m.g.ring && e < |rows|
  {
    PlanRowInRange(m, s, rows, tables, e);
    var entry := EagerPlan(m, s, rows, tables)[e];
    (entry.loc, m.pool(Members(m.g, ring, rows[entry.row].slot, entry.groupEnd)))
  }

  function EagerStores(m: Model, s: State, rows: seq<Row>, tables: seq<seq<nat>>, ring: seq<Key>): seq<(nat, Pooled)>
    requires m.g.Valid() && 0 < |rows| && Tabled(m, s, rows, tables) && |ring| == m.g.requests * m.g.ring
  {
    seq(|rows|, e requires 0 <= e < |rows| => EagerStore(m, s, rows, tables, ring, e))
  }

  // Graph: every row stores; rows off a group boundary write the reserved slot.
  function GraphStore(m: Model, row: Row, table: seq<nat>, ring: seq<Key>): (nat, Pooled)
    requires m.g.Valid() && 0 < row.length <= |table| && row.slot < m.g.requests && |ring| == m.g.requests * m.g.ring
  {
    var current := row.length - 1;
    (if row.length % m.g.ratio == 0 then table[current] / m.g.ratio else 0,
     m.pool(Members(m.g, ring, row.slot, current)))
  }

  function GraphStores(m: Model, s: State, rows: seq<Row>, tables: seq<seq<nat>>, ring: seq<Key>): seq<(nat, Pooled)>
    requires m.g.Valid() && Tabled(m, s, rows, tables) && |ring| == m.g.requests * m.g.ring
  {
    seq(|rows|, k requires 0 <= k < |rows| => GraphStore(m, rows[k], tables[k], ring))
  }

  // --- Both paged paths store exactly the completed groups ----------------------

  // What the ring must hold for the members of a completed group to be found.
  ghost predicate WindowsHold(m: Model, s: State, batch: seq<Growth>, ring: seq<Key>)
    requires m.g.Valid() && forall i | 0 <= i < |batch| :: Live(batch[i].slot) in s.holders
  {
    forall i: nat, p: nat | i < |batch| && TailStart(m.g, |Before(s, batch[i]).keys|) <= p < |Grown(s, batch[i])| ::
      RingHolds(m, ring, batch[i].slot, Grown(s, batch[i]), p)
  }

  lemma MembersAreSlice(m: Model, ring: seq<Key>, slot: nat, keys: seq<Key>, base: nat)
    requires m.g.Valid() && |ring| == m.g.requests * m.g.ring && slot < m.g.requests
    requires base + m.g.ratio <= |keys|
    requires forall p: nat | base <= p < base + m.g.ratio :: RingHolds(m, ring, slot, keys, p)
    ensures Members(m.g, ring, slot, base + m.g.ratio - 1) == keys[base..base + m.g.ratio]
  {
    var members := Members(m.g, ring, slot, base + m.g.ratio - 1);
    forall k | 0 <= k < m.g.ratio
      ensures members[k] == keys[base + k]
    {
      assert RingHolds(m, ring, slot, keys, base + k);
      assert MemberPosition(base + m.g.ratio - 1, m.g.ratio, k) == base + k;
    }
  }

  // A group completed now starts no earlier than the committed pending tail.
  lemma CompletedStartsInWindow(g: Geometry, length: nat, b: nat)
    requires g.Valid() && length < (b + 1) * g.ratio
    ensures TailStart(g, length) <= b * g.ratio
    ensures (b + 1) * g.ratio == b * g.ratio + g.ratio
  {
    DivGalois(length, g.ratio, b + 1);
    MulMonotone(length / g.ratio, b, g.ratio);
  }

  lemma MembersAreGroup(m: Model, s: State, batch: seq<Growth>, ring: seq<Key>, i: nat, b: nat)
    requires m.g.Valid() && Inv(m, s) && ValidBatch(m, s, batch) && |ring| == |s.ring|
    requires WindowsHold(m, s, batch, ring) && Completes(m, s, batch, i, b)
    ensures batch[i].slot < m.g.requests
    ensures Members(m.g, ring, batch[i].slot, b * m.g.ratio + m.g.ratio - 1) == Group(Grown(s, batch[i]), m.g.ratio, b)
  {
    CompletedStartsInWindow(m.g, |Before(s, batch[i]).keys|, b);
    var base := b * m.g.ratio;
    forall p: nat | base <= p < base + m.g.ratio
      ensures RingHolds(m, ring, batch[i].slot, Grown(s, batch[i]), p)
    {
    }
    MembersAreSlice(m, ring, batch[i].slot, Grown(s, batch[i]), base);
  }

  // A boundary row's store is its group's store, from either addressing.
  lemma BoundaryRowStore(m: Model, s: State, batch: seq<Growth>, ring: seq<Key>, i: nat, b: nat, table: seq<nat>)
    requires m.g.Valid() && Inv(m, s) && ValidBatch(m, s, batch) && |ring| == |s.ring|
    requires WindowsHold(m, s, batch, ring) && Completes(m, s, batch, i, b)
    requires RowOf(m.g, Before(s, batch[i]).pages, table) && b * m.g.ratio + m.g.ratio <= |table|
    ensures batch[i].slot < m.g.requests
    ensures var value := m.pool(Members(m.g, ring, batch[i].slot, b * m.g.ratio + m.g.ratio - 1));
            && IsGroupStore(m, s, batch, i, b, (FirstRawSlot(m.g, table, b), value))
            && IsGroupStore(m, s, batch, i, b, (LastRawSlot(m.g, table, b), value))
  {
    var pages := Before(s, batch[i]).pages;
    Successor(b, m.g.ratio);
    CompletedBlockHasPage(m.g, pages, |Grown(s, batch[i])|, b);
    AddressesAgree(m.g, pages, b, 0);
    AddressesAgree(m.g, pages, b, m.g.ratio - 1);
    MembersAreGroup(m, s, batch, ring, i, b);
  }

  lemma RowCases(m: Model, s: State, batch: seq<Growth>, padSlot: nat, padding: nat, k: nat)
    requires m.g.Valid() && Inv(m, s) && ValidBatch(m, s, batch) && k < |Rows(s, batch, padSlot, padding)|
    ensures var row := Rows(s, batch, padSlot, padding)[k];
            row == Row(padSlot, 1) || exists i: nat :: IsBatchRow(s, batch, row, i)
  {
    BatchRowMembers(s, batch, |batch|);
    var rows := BatchRows(s, batch, |batch|);
    if k < |rows| {
      assert rows[k] in rows;
    }
  }

  lemma RowOfCompleted(m: Model, s: State, batch: seq<Growth>, padSlot: nat, padding: nat, i: nat, b: nat)
    returns (k: nat)
    requires m.g.Valid() && Inv(m, s) && ValidBatch(m, s, batch) && Completes(m, s, batch, i, b)
    ensures k < |Rows(s, batch, padSlot, padding)|
    ensures Rows(s, batch, padSlot, padding)[k] == Row(batch[i].slot, (b + 1) * m.g.ratio)
  {
    BatchRowMembers(s, batch, |batch|);
    var row := Row(batch[i].slot, (b + 1) * m.g.ratio);
    assert IsBatchRow(s, batch, row, i);
    var rows := BatchRows(s, batch, |batch|);
    k :| 0 <= k < |rows| && rows[k] == row;
  }

  lemma GraphStoresAreGroupStores(m: Model, s: State, batch: seq<Growth>, padSlot: nat, padding: nat,
                                  tables: seq<seq<nat>>, ring: seq<Key>)
    requires m.g.Valid() && Inv(m, s) && ValidBatch(m, s, batch) && |ring| == |s.ring|
    requires WindowsHold(m, s, batch, ring)
    requires Tabled(m, s, Rows(s, batch, padSlot, padding), tables)
    ensures GroupStores(m, s, batch, GraphStores(m, s, Rows(s, batch, padSlot, padding), tables, ring))
  {
    var stores := GraphStores(m, s, Rows(s, batch, padSlot, padding), tables, ring);
    forall st | st in stores
      ensures st.0 == 0 || FromGroup(m, s, batch, st)
    {
      var k: nat :| k < |stores| && stores[k] == st;
      GraphEntry(m, s, batch, padSlot, padding, tables, ring, k);
    }
    forall i: nat, b: nat | Completes(m, s, batch, i, b)
      ensures StoresGroup(m, s, batch, i, b, stores)
    {
      var k := GraphEntryOf(m, s, batch, padSlot, padding, tables, ring, i, b);
      assert stores[k] in stores;
    }
  }

  lemma GraphEntry(m: Model, s: State, batch: seq<Growth>, padSlot: nat, padding: nat, tables: seq<seq<nat>>,
                   ring: seq<Key>, k: nat)
    requires m.g.Valid() && Inv(m, s) && ValidBatch(m, s, batch) && |ring| == |s.ring|
    requires WindowsHold(m, s, batch, ring)
    requires k < |Rows(s, batch, padSlot, padding)| && Tabled(m, s, Rows(s, batch, padSlot, padding), tables)
    ensures var st := GraphStore(m, Rows(s, batch, padSlot, padding)[k], tables[k], ring);
            st.0 == 0 || FromGroup(m, s, batch, st)
  {
    var row := Rows(s, batch, padSlot, padding)[k];
    RowCases(m, s, batch, padSlot, padding, k);
    if row == Row(padSlot, 1) {
      QuotientUnique(1, m.g.ratio, 0, 1);
    } else if row.length % m.g.ratio == 0 {
      var i: nat :| IsBatchRow(s, batch, row, i);
      GraphBoundary(m, s, batch, ring, i, row, tables[k]);
    }
  }

  lemma GraphEntryOf(m: Model, s: State, batch: seq<Growth>, padSlot: nat, padding: nat, tables: seq<seq<nat>>,
                     ring: seq<Key>, i: nat, b: nat)
    returns (k: nat)
    requires m.g.Valid() && Inv(m, s) && ValidBatch(m, s, batch) && |ring| == |s.ring|
    requires WindowsHold(m, s, batch, ring) && Completes(m, s, batch, i, b)
    requires Tabled(m, s, Rows(s, batch, padSlot, padding), tables)
    ensures k < |Rows(s, batch, padSlot, padding)|
    ensures IsGroupStore(m, s, batch, i, b, GraphStore(m, Rows(s, batch, padSlot, padding)[k], tables[k], ring))
  {
    k := RowOfCompleted(m, s, batch, padSlot, padding, i, b);
    Successor(b, m.g.ratio);
    QuotientUnique((b + 1) * m.g.ratio, m.g.ratio, b + 1, 0);
    BoundaryRowStore(m, s, batch, ring, i, b, tables[k]);
  }

  lemma GraphBoundary(m: Model, s: State, batch: seq<Growth>, ring: seq<Key>, i: nat, row: Row, table: seq<nat>)
    requires m.g.Valid() && Inv(m, s) && ValidBatch(m, s, batch) && |ring| == |s.ring|
    requires WindowsHold(m, s, batch, ring) && IsBatchRow(s, batch, row, i)
    requires 0 < row.length <= |table| && row.slot < m.g.requests && row.length % m.g.ratio == 0
    requires RowOf(m.g, Before(s, batch[i]).pages, table)
    ensures FromGroup(m, s, batch, GraphStore(m, row, table, ring))
  {
    var b := BoundaryBlock(row.length, m.g.ratio);
    assert Completes(m, s, batch, i, b);
    BoundaryRowStore(m, s, batch, ring, i, b, table);
  }

  lemma BoundaryBlock(length: nat, ratio: nat) returns (b: nat)
    requires 0 < ratio && 0 < length && length % ratio == 0
    ensures length == (b + 1) * ratio == b * ratio + ratio
  {
    Split(length, ratio);
    b := length / ratio - 1;
  }

  lemma EagerStoresAreGroupStores(m: Model, s: State, batch: seq<Growth>, padSlot: nat, padding: nat,
                                  tables: seq<seq<nat>>, ring: seq<Key>)
    requires m.g.Valid() && Inv(m, s) && ValidBatch(m, s, batch) && |ring| == |s.ring|
    requires WindowsHold(m, s, batch, ring)
    requires 0 < |Rows(s, batch, padSlot, padding)| && Tabled(m, s, Rows(s, batch, padSlot, padding), tables)
    ensures GroupStores(m, s, batch, EagerStores(m, s, Rows(s, batch, padSlot, padding), tables, ring))
  {
    var rows := Rows(s, batch, padSlot, padding);
    var stores := EagerStores(m, s, rows, tables, ring);
    forall st | st in stores
      ensures st.0 == 0 || FromGroup(m, s, batch, st)
    {
      var e: nat :| e < |stores| && stores[e] == st;
      EagerEntry(m, s, batch, padSlot, padding, tables, ring, e);
    }
    forall i: nat, b: nat | Completes(m, s, batch, i, b)
      ensures StoresGroup(m, s, batch, i, b, stores)
    {
      var e := EagerEntryOf(m, s, batch, padSlot, padding, tables, ring, i, b);
      assert stores[e] in stores;
    }
  }

  // What an entry says of a block of its row.
  predicate EntryIsBlock(g: Geometry, tables: seq<seq<nat>>, entry: WP.Entry, k: nat, b: nat)
    requires g.Valid()
  {
    && entry.row == k < |tables| && b * g.ratio < |tables[k]|
    && entry.loc == FirstRawSlot(g, tables[k], b) && entry.groupEnd == b * g.ratio + (g.ratio - 1)
  }

  lemma PairEntryIsBlock(g: Geometry, tables: seq<seq<nat>>, starts: seq<nat>, ends: seq<nat>, chunks: WP.Chunks,
                         k: nat, b: nat)
    requires g.Valid() && |starts| == |ends| && WP.Planned(starts, ends, |starts|, (k, b))
    requires WP.Covers(tables, ends, g.ratio) && WP.ChunksFit(chunks, |starts|)
    ensures EntryIsBlock(g, tables, WP.PairEntry(tables, starts, ends, g.ratio, chunks, (k, b)), k, b)
  {
    MulMonotone(b + 1, ends[k], g.ratio);
    Successor(b, g.ratio);
  }

  // An entry of the paged plan is inert or completes its row's last block.
  lemma EagerPlanEntry(m: Model, s: State, rows: seq<Row>, tables: seq<seq<nat>>, e: nat) returns (k: nat, b: nat)
    requires m.g.Valid() && 0 < |rows| && Tabled(m, s, rows, tables) && e < |rows|
    ensures var entry := EagerPlan(m, s, rows, tables)[e];
            || entry == WP.Inert(m.g.ratio)
            || (k < |rows| && rows[k].length == (b + 1) * m.g.ratio && EntryIsBlock(m.g, tables, entry, k, b))
  {
    var starts, ends := RowStarts(m.g, rows), RowEnds(m.g, rows);
    RowsCovered(m, s, rows, tables);
    WP.PlanListsPairs(tables, starts, ends, |rows|, m.g.ratio, WP.Paged, e);
    var pairs := WP.AllPairs(starts, ends);
    k, b := 0, 0;
    if e < |pairs| {
      k, b := pairs[e].0, pairs[e].1;
      WP.PagedRange(rows[k].length, m.g.ratio, b);
      PairEntryIsBlock(m.g, tables, starts, ends, WP.Paged, k, b);
    }
  }

  lemma PaddingCompletesNothing(ratio: nat, b: nat)
    requires 2 <= ratio
    ensures (b + 1) * ratio != 1
  {
  }

  lemma EagerEntry(m: Model, s: State, batch: seq<Growth>, padSlot: nat, padding: nat, tables: seq<seq<nat>>,
                   ring: seq<Key>, e: nat)
    requires m.g.Valid() && Inv(m, s) && ValidBatch(m, s, batch) && |ring| == |s.ring|
    requires WindowsHold(m, s, batch, ring)
    requires e < |Rows(s, batch, padSlot, padding)| && Tabled(m, s, Rows(s, batch, padSlot, padding), tables)
    ensures var st := EagerStore(m, s, Rows(s, batch, padSlot, padding), tables, ring, e);
            st.0 == 0 || FromGroup(m, s, batch, st)
  {
    var rows := Rows(s, batch, padSlot, padding);
    var k, b := EagerPlanEntry(m, s, rows, tables, e);
    if EagerPlan(m, s, rows, tables)[e] != WP.Inert(m.g.ratio) {
      var i := BoundaryRow(m, s, batch, padSlot, padding, k, b);
      BoundaryRowStore(m, s, batch, ring, i, b, tables[k]);
    }
  }

  // A row that ends a group is a batch row that completes it.
  lemma BoundaryRow(m: Model, s: State, batch: seq<Growth>, padSlot: nat, padding: nat, k: nat, b: nat) returns (i: nat)
    requires m.g.Valid() && Inv(m, s) && ValidBatch(m, s, batch) && k < |Rows(s, batch, padSlot, padding)|
    requires Rows(s, batch, padSlot, padding)[k].length == (b + 1) * m.g.ratio
    ensures Completes(m, s, batch, i, b) && Rows(s, batch, padSlot, padding)[k].slot == batch[i].slot
  {
    PaddingCompletesNothing(m.g.ratio, b);
    RowCases(m, s, batch, padSlot, padding, k);
    i :| IsBatchRow(s, batch, Rows(s, batch, padSlot, padding)[k], i);
  }

  // The plan holds an entry for every completed group: its row's pair is
  // planned, and one entry per row is capacity enough.
  lemma EntryOfPair(m: Model, s: State, rows: seq<Row>, tables: seq<seq<nat>>, k: nat, b: nat) returns (e: nat)
    requires m.g.Valid() && 0 < |rows| && Tabled(m, s, rows, tables) && k < |rows|
    requires rows[k].length == (b + 1) * m.g.ratio
    ensures e < |rows| && (b + 1) * m.g.ratio == b * m.g.ratio + m.g.ratio <= |tables[k]|
    ensures EagerPlan(m, s, rows, tables)[e] ==
        WP.Entry(FirstRawSlot(m.g, tables[k], b), b * m.g.ratio + (m.g.ratio - 1), k, 0)
  {
    var starts, ends := RowStarts(m.g, rows), RowEnds(m.g, rows);
    e := PlannedPair(m.g, rows, k, b);
    RowsCovered(m, s, rows, tables);
    WP.PlanListsPairs(tables, starts, ends, |rows|, m.g.ratio, WP.Paged, e);
    Successor(b, m.g.ratio);
  }

  lemma PlannedPair(g: Geometry, rows: seq<Row>, k: nat, b: nat) returns (e: nat)
    requires g.Valid() && (forall j | 0 <= j < |rows| :: 0 < rows[j].length)
    requires k < |rows| && rows[k].length == (b + 1) * g.ratio
    ensures e < |rows| && e < |WP.AllPairs(RowStarts(g, rows), RowEnds(g, rows))|
    ensures WP.AllPairs(RowStarts(g, rows), RowEnds(g, rows))[e] == (k, b)
  {
    var starts, ends := RowStarts(g, rows), RowEnds(g, rows);
    WP.PagedRange(rows[k].length, g.ratio, b);
    WP.PairsAreThePlannedBlocks(starts, ends, |starts|);
    var pairs := WP.AllPairs(starts, ends);
    assert WP.Planned(starts, ends, |starts|, (k, b));
    assert (k, b) in pairs;
    e :| 0 <= e < |pairs| && pairs[e] == (k, b);
    var lengths := seq(|rows|, j requires 0 <= j < |rows| => rows[j].length);
    WP.PagedCapacity(starts, ends, lengths, g.ratio, |starts|);
  }

  lemma EagerEntryOf(m: Model, s: State, batch: seq<Growth>, padSlot: nat, padding: nat, tables: seq<seq<nat>>,
                     ring: seq<Key>, i: nat, b: nat)
    returns (e: nat)
    requires m.g.Valid() && Inv(m, s) && ValidBatch(m, s, batch) && |ring| == |s.ring|
    requires WindowsHold(m, s, batch, ring) && Completes(m, s, batch, i, b)
    requires 0 < |Rows(s, batch, padSlot, padding)| && Tabled(m, s, Rows(s, batch, padSlot, padding), tables)
    ensures e < |Rows(s, batch, padSlot, padding)|
    ensures IsGroupStore(m, s, batch, i, b, EagerStore(m, s, Rows(s, batch, padSlot, padding), tables, ring, e))
  {
    var rows := Rows(s, batch, padSlot, padding);
    var k := RowOfCompleted(m, s, batch, padSlot, padding, i, b);
    e := EntryOfPair(m, s, rows, tables, k, b);
    BoundaryRowStore(m, s, batch, ring, i, b, tables[k]);
  }

  // --- Extend forwards: the members come from the packed chunk ------------------

  function Tokens(batch: seq<Growth>, n: nat): seq<Key>
    requires n <= |batch|
  {
    if n == 0 then [] else Tokens(batch, n - 1) + batch[n - 1].keys
  }

  lemma {:induction false} TokensOf(batch: seq<Growth>, n: nat, i: nat)
    requires i < n <= |batch|
    ensures |Tokens(batch, i)| + |batch[i].keys| <= |Tokens(batch, n)|
    ensures Tokens(batch, n)[|Tokens(batch, i)|..|Tokens(batch, i)| + |batch[i].keys|] == batch[i].keys
  {
    if i < n - 1 {
      TokensOf(batch, n - 1, i);
    }
  }

  function ChunkLengths(batch: seq<Growth>): seq<nat> {
    seq(|batch|, i requires 0 <= i < |batch| => |batch[i].keys|)
  }

  lemma {:induction false} TokensCounted(batch: seq<Growth>, n: nat)
    requires n <= |batch|
    ensures SumTo(ChunkLengths(batch), n) == |Tokens(batch, n)|
  {
    if n > 0 {
      TokensCounted(batch, n - 1);
    }
  }

  ghost predicate ChunksTabled(m: Model, s: State, batch: seq<Growth>, tables: seq<seq<nat>>)
    requires m.g.Valid() && ValidBatch(m, s, batch)
  {
    && |tables| == |batch|
    && forall i | 0 <= i < |batch| ::
         RowOf(m.g, Before(s, batch[i]).pages, tables[i]) && |Grown(s, batch[i])| <= |tables[i]|
  }

  function Prefixes(s: State, batch: seq<Growth>): seq<nat>
    requires forall i | 0 <= i < |batch| :: Live(batch[i].slot) in s.holders
  {
    seq(|batch|, i requires 0 <= i < |batch| => |Before(s, batch[i]).keys|)
  }

  function ChunkStarts(m: Model, s: State, batch: seq<Growth>): seq<nat>
    requires m.g.Valid() && forall i | 0 <= i < |batch| :: Live(batch[i].slot) in s.holders
  {
    seq(|batch|, i requires 0 <= i < |batch| => Groups(m.g, |Before(s, batch[i]).keys|))
  }

  function ChunkEnds(m: Model, s: State, batch: seq<Growth>): seq<nat>
    requires m.g.Valid() && forall i | 0 <= i < |batch| :: Live(batch[i].slot) in s.holders
  {
    seq(|batch|, i requires 0 <= i < |batch| => Groups(m.g, |Grown(s, batch[i])|))
  }

  function ChunkLayout(s: State, batch: seq<Growth>): WP.Chunks
    requires forall i | 0 <= i < |batch| :: Live(batch[i].slot) in s.holders
  {
    WP.Extend(seq(|batch|, i requires 0 <= i < |batch| => |Tokens(batch, i)|), Prefixes(s, batch))
  }

  lemma ChunksCovered(m: Model, s: State, batch: seq<Growth>, tables: seq<seq<nat>>)
    requires m.g.Valid() && ValidBatch(m, s, batch) && ChunksTabled(m, s, batch, tables)
    ensures WP.Covers(tables, ChunkEnds(m, s, batch), m.g.ratio)
  {
  }

  // `inputs` counts the physical token rows, padding included.
  function ExtendPlan(m: Model, s: State, batch: seq<Growth>, tables: seq<seq<nat>>, inputs: nat): (plan: seq<WP.Entry>)
    requires m.g.Valid() && ValidBatch(m, s, batch) && ChunksTabled(m, s, batch, tables)
    ensures |plan| == inputs / m.g.ratio + |batch|
  {
    ChunksCovered(m, s, batch, tables);
    WP.Plan(tables, ChunkStarts(m, s, batch), ChunkEnds(m, s, batch), inputs / m.g.ratio + |batch|, m.g.ratio,
        ChunkLayout(s, batch))
  }

  predicate MembersInChunk(m: Model, batch: seq<Growth>, entry: WP.Entry) {
    0 <= entry.member && entry.member + m.g.ratio <= |Tokens(batch, |batch|)|
  }

  // The stores of the extend plan. An entry whose members run past the packed
  // tokens reads whatever follows them, so its value is left open.
  ghost predicate IsExtendStores(m: Model, s: State, batch: seq<Growth>, plan: seq<WP.Entry>,
                                  stores: seq<(nat, Pooled)>)
  {
    && |stores| == |plan|
    && forall e | 0 <= e < |plan| ::
         && stores[e].0 == plan[e].loc
         && (MembersInChunk(m, batch, plan[e]) ==>
               stores[e].1 == m.pool(Tokens(batch, |batch|)[plan[e].member..plan[e].member + m.g.ratio]))
  }

  // Chunk-local index of a block's first member, in the packed tokens.
  function MemberStart(m: Model, s: State, batch: seq<Growth>, i: nat, b: nat): int
    requires i < |batch| && forall i | 0 <= i < |batch| :: Live(batch[i].slot) in s.holders
  {
    |Tokens(batch, i)| + b * m.g.ratio - |Before(s, batch[i]).keys|
  }

  // A chunk plans exactly the blocks it completes.
  lemma ChunkBlock(m: Model, s: State, batch: seq<Growth>, i: nat, b: nat)
    requires m.g.Valid() && ValidBatch(m, s, batch) && Aligned(m, s, batch) && i < |batch|
    ensures |Before(s, batch[i]).keys| / m.g.ratio <= b < |Grown(s, batch[i])| / m.g.ratio <==>
        Completes(m, s, batch, i, b)
    ensures Completes(m, s, batch, i, b) ==> |Before(s, batch[i]).keys| <= b * m.g.ratio
    ensures (b + 1) * m.g.ratio == b * m.g.ratio + m.g.ratio
  {
    var c := |Before(s, batch[i]).keys|;
    DivGalois(|Grown(s, batch[i])|, m.g.ratio, b + 1);
    DivGalois(c, m.g.ratio, b + 1);
    Split(c, m.g.ratio);
    if c / m.g.ratio <= b {
      MulMonotone(c / m.g.ratio, b, m.g.ratio);
    }
  }

  // ... and finds their members in the chunk, in order.
  lemma ChunkMembers(m: Model, s: State, batch: seq<Growth>, i: nat, b: nat)
    requires m.g.Valid() && ValidBatch(m, s, batch) && Aligned(m, s, batch)
    requires Completes(m, s, batch, i, b)
    ensures 0 <= MemberStart(m, s, batch, i, b) <= |Tokens(batch, |batch|)| - m.g.ratio
    ensures var start := MemberStart(m, s, batch, i, b);
            Tokens(batch, |batch|)[start..start + m.g.ratio] == Group(Grown(s, batch[i]), m.g.ratio, b)
  {
    ChunkBlock(m, s, batch, i, b);
    var c, base := |Before(s, batch[i]).keys|, b * m.g.ratio;
    TokensOf(batch, |batch|, i);
    SliceOfSlice(Tokens(batch, |batch|), |Tokens(batch, i)|, batch[i].keys, base - c, m.g.ratio);
    SliceOfSlice(Grown(s, batch[i]), c, batch[i].keys, base - c, m.g.ratio);
  }

  lemma SliceOfSlice(all: seq<Key>, at: nat, part: seq<Key>, from: nat, n: nat)
    requires at + |part| <= |all| && all[at..at + |part|] == part && from + n <= |part|
    ensures all[at + from..at + from + n] == part[from..from + n]
  {
    var a, b := all[at + from..at + from + n], part[from..from + n];
    forall k | 0 <= k < n
      ensures a[k] == b[k]
    {
      assert all[at..at + |part|][from + k] == part[from + k];
    }
  }

  lemma ExtendPlanEntry(m: Model, s: State, batch: seq<Growth>, tables: seq<seq<nat>>, inputs: nat, e: nat)
    requires m.g.Valid() && ValidBatch(m, s, batch) && Aligned(m, s, batch)
    requires ChunksTabled(m, s, batch, tables) && e < inputs / m.g.ratio + |batch|
    ensures var pairs := WP.AllPairs(ChunkStarts(m, s, batch), ChunkEnds(m, s, batch));
            var entry := ExtendPlan(m, s, batch, tables, inputs)[e];
            if e < |pairs| then
              var (i, b) := pairs[e];
              && Completes(m, s, batch, i, b) && b * m.g.ratio < |tables[i]|
              && entry.loc == FirstRawSlot(m.g, tables[i], b)
              && entry.member == MemberStart(m, s, batch, i, b)
            else
              entry == WP.Inert(m.g.ratio)
  {
    var starts, ends := ChunkStarts(m, s, batch), ChunkEnds(m, s, batch);
    var pairs := WP.AllPairs(starts, ends);
    ChunksCovered(m, s, batch, tables);
    WP.PlanListsPairs(tables, starts, ends, inputs / m.g.ratio + |batch|, m.g.ratio, ChunkLayout(s, batch), e);
    if e < |pairs| {
      ChunkBlock(m, s, batch, pairs[e].0, pairs[e].1);
    }
  }

  lemma ChunkStore(m: Model, s: State, batch: seq<Growth>, i: nat, b: nat, table: seq<nat>)
    requires m.g.Valid() && ValidBatch(m, s, batch) && Aligned(m, s, batch) && Completes(m, s, batch, i, b)
    requires RowOf(m.g, Before(s, batch[i]).pages, table) && b * m.g.ratio < |table|
    ensures 0 <= MemberStart(m, s, batch, i, b) <= |Tokens(batch, |batch|)| - m.g.ratio
    ensures var start := MemberStart(m, s, batch, i, b);
            var value := m.pool(Tokens(batch, |batch|)[start..start + m.g.ratio]);
            IsGroupStore(m, s, batch, i, b, (FirstRawSlot(m.g, table, b), value))
  {
    ChunkMembers(m, s, batch, i, b);
    CompletedBlockHasPage(m.g, Before(s, batch[i]).pages, |Grown(s, batch[i])|, b);
    AddressesAgree(m.g, Before(s, batch[i]).pages, b, 0);
  }

  // Entry e of the extend plan is a completed group's store or writes slot 0.
  lemma ExtendEntry(m: Model, s: State, batch: seq<Growth>, tables: seq<seq<nat>>, inputs: nat,
                    stores: seq<(nat, Pooled)>, e: nat)
    requires m.g.Valid() && ValidBatch(m, s, batch) && Aligned(m, s, batch)
    requires ChunksTabled(m, s, batch, tables)
    requires IsExtendStores(m, s, batch, ExtendPlan(m, s, batch, tables, inputs), stores)
    requires e < |stores|
    ensures var pairs := WP.AllPairs(ChunkStarts(m, s, batch), ChunkEnds(m, s, batch));
            if e < |pairs| then
              && Completes(m, s, batch, pairs[e].0, pairs[e].1)
              && IsGroupStore(m, s, batch, pairs[e].0, pairs[e].1, stores[e])
            else
              stores[e].0 == 0
  {
    ExtendPlanEntry(m, s, batch, tables, inputs, e);
    var pairs := WP.AllPairs(ChunkStarts(m, s, batch), ChunkEnds(m, s, batch));
    if e < |pairs| {
      var (i, b) := pairs[e];
      ChunkStore(m, s, batch, i, b, tables[i]);
    }
  }

  lemma ExtendStoresAreGroupStores(m: Model, s: State, batch: seq<Growth>, tables: seq<seq<nat>>, inputs: nat,
        stores: seq<(nat, Pooled)>)
    requires m.g.Valid() && Inv(m, s) && ValidBatch(m, s, batch) && Aligned(m, s, batch)
    requires ChunksTabled(m, s, batch, tables) && |Tokens(batch, |batch|)| <= inputs
    requires IsExtendStores(m, s, batch, ExtendPlan(m, s, batch, tables, inputs), stores)
    ensures GroupStores(m, s, batch, stores)
  {
    var starts, ends := ChunkStarts(m, s, batch), ChunkEnds(m, s, batch);
    var pairs := WP.AllPairs(starts, ends);
    forall st | st in stores
      ensures st.0 == 0 || FromGroup(m, s, batch, st)
    {
      var e: nat :| e < |stores| && stores[e] == st;
      ExtendEntry(m, s, batch, tables, inputs, stores, e);
    }
    ExtendPlanLongEnough(m, s, batch, inputs);
    forall i: nat, b: nat | Completes(m, s, batch, i, b)
      ensures StoresGroup(m, s, batch, i, b, stores)
    {
      ChunkBlock(m, s, batch, i, b);
      WP.PairsAreThePlannedBlocks(starts, ends, |starts|);
      assert WP.Planned(starts, ends, |starts|, (i, b));
      assert (i, b) in pairs;
      var e: nat :| e < |pairs| && pairs[e] == (i, b);
      ExtendEntry(m, s, batch, tables, inputs, stores, e);
      assert stores[e] in stores;
    }
  }

  // The shape-derived capacity always exceeds the number of planned blocks, so
  // every extend forward has at least one inert entry.
  lemma ExtendPlanLongEnough(m: Model, s: State, batch: seq<Growth>, inputs: nat)
    requires m.g.Valid() && ValidBatch(m, s, batch) && Aligned(m, s, batch)
    requires |Tokens(batch, |batch|)| <= inputs
    ensures |WP.AllPairs(ChunkStarts(m, s, batch), ChunkEnds(m, s, batch))| <= inputs / m.g.ratio
    ensures inputs / m.g.ratio < inputs / m.g.ratio + |batch|
  {
    TokensCounted(batch, |batch|);
    forall i | 0 <= i < |batch|
      ensures ChunkEnds(m, s, batch)[i]
           <= ChunkStarts(m, s, batch)[i] + WP.WholeGroups(ChunkLengths(batch), m.g.ratio)[i]
    {
      WP.AlignedChunkCount(|Before(s, batch[i]).keys|, |batch[i].keys|, m.g.ratio);
    }
    WP.ExtendCapacity(ChunkStarts(m, s, batch), ChunkEnds(m, s, batch), ChunkLengths(batch), m.g.ratio);
    DivMonotone(|Tokens(batch, |batch|)|, inputs, m.g.ratio);
  }

  // Every entry of an extend plan gathers its members inside the packed tokens
  // exactly when the forward carries at least one group's worth of tokens: the
  // inert entries all gather rows 0 to ratio - 1.
  lemma ExtendGathersInBounds(m: Model, s: State, batch: seq<Growth>, tables: seq<seq<nat>>, inputs: nat)
    requires m.g.Valid() && Inv(m, s) && ValidBatch(m, s, batch) && Aligned(m, s, batch)
    requires ChunksTabled(m, s, batch, tables) && |Tokens(batch, |batch|)| <= inputs
    ensures var plan := ExtendPlan(m, s, batch, tables, inputs);
            (forall e | 0 <= e < |plan| :: MembersInChunk(m, batch, plan[e]))
            <==> m.g.ratio <= |Tokens(batch, |batch|)|
  {
    var plan := ExtendPlan(m, s, batch, tables, inputs);
    var pairs := WP.AllPairs(ChunkStarts(m, s, batch), ChunkEnds(m, s, batch));
    ExtendPlanLongEnough(m, s, batch, inputs);
    ExtendPlanEntry(m, s, batch, tables, inputs, |plan| - 1);
    if m.g.ratio <= |Tokens(batch, |batch|)| {
      forall e | 0 <= e < |plan|
        ensures MembersInChunk(m, batch, plan[e])
      {
        ExtendPlanEntry(m, s, batch, tables, inputs, e);
        if e < |pairs| {
          ChunkMembers(m, s, batch, pairs[e].0, pairs[e].1);
        }
      }
    }
  }
}
