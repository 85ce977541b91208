/** Runs of the index cache: allocation, extend forwards and paged forwards in
    any mix. Every reachable cache equals a recomputation from committed keys. */
module QsaRun {
  import opened Arithmetic
  import opened Scatter
  import opened QsaAddressing
  import opened QsaCache
  import opened QsaForward
  import opened QsaRing

  // --- The allocator's moves ----------------------------------------------------

  datatype Allocation =
    | Admit(slot: nat, donor: Holder, fullPages: nat, added: seq<nat>)
    | Grow(slot: nat, added: seq<nat>)
    | Cache(node: nat, source: Holder, fullPages: nat)
    | Release(holder: Holder)

  ghost predicate Unused(g: Geometry, holders: map<Holder, Request>, added: seq<nat>)
    requires g.Valid()
  {
    && (forall i | 0 <= i < |added| :: InPool(g, added[i]))
    && (forall i, j | 0 <= i < j < |added| :: added[i] != added[j])
    && (forall h, i | h in holders && 0 <= i < |holders[h].pages| :: holders[h].pages[i] !in added)
  }

  // A page-granular prefix of what a holder has committed.
  predicate HasPrefix(g: Geometry, holders: map<Holder, Request>, h: Holder, fullPages: nat) {
    h in holders && fullPages <= |holders[h].pages| && fullPages * g.page <= |holders[h].keys|
  }

  function PrefixOf(g: Geometry, r: Request, fullPages: nat, added: seq<nat>): Request
    requires fullPages <= |r.pages| && fullPages * g.page <= |r.keys|
  {
    Request(r.pages[..fullPages] + added, r.keys[..fullPages * g.page])
  }

  ghost predicate CanAllocate(g: Geometry, holders: map<Holder, Request>, op: Allocation)
    requires g.Valid()
  {
    match op
    case Admit(slot, donor, fullPages, added) =>
      && 0 < slot < g.requests && Live(slot) !in holders
      && (fullPages == 0 || HasPrefix(g, holders, donor, fullPages)) && Unused(g, holders, added)
    case Grow(slot, added) => Live(slot) in holders && Unused(g, holders, added)
    case Cache(node, source, fullPages) => Cached(node) !in holders && HasPrefix(g, holders, source, fullPages)
    case Release(holder) => holder in holders
  }

  function Allocate(g: Geometry, holders: map<Holder, Request>, op: Allocation): map<Holder, Request>
    requires g.Valid()
    requires match op
             case Admit(_, donor, fullPages, _) => fullPages == 0 || HasPrefix(g, holders, donor, fullPages)
             case Grow(slot, _) => Live(slot) in holders
             case Cache(_, source, fullPages) => HasPrefix(g, holders, source, fullPages)
             case Release(_) => true
  {
    match op
    case Admit(slot, donor, fullPages, added) =>
      var r := if fullPages == 0 then Request(added, []) else PrefixOf(g, holders[donor], fullPages, added);
      holders[Live(slot) := r]
    case Grow(slot, added) =>
      var r := holders[Live(slot)];
      holders[Live(slot) := Request(r.pages + added, r.keys)]
    case Cache(node, source, fullPages) => holders[Cached(node) := PrefixOf(g, holders[source], fullPages, [])]
    case Release(holder) => holders - {holder}
  }

  // Blocks inside a prefix keep their slots and their values.
  lemma BlocksOfPrefix(m: Model, compressed: seq<Pooled>, r: Request, pages: seq<nat>, length: nat)
    requires m.g.Valid() && BlocksHold(m, compressed, r.pages, r.keys)
    requires length <= |r.keys| && length <= |pages| * m.g.page
    requires forall i | 0 <= i < |pages| && i * m.g.page < length :: i < |r.pages| && pages[i] == r.pages[i]
    ensures BlocksHold(m, compressed, pages, r.keys[..length])
  {
    var keys := r.keys[..length];
    forall b: nat | (b + 1) * m.g.ratio <= |keys|
      ensures BlockHolds(m, compressed, pages, keys, b)
    {
      assert BlockHolds(m, compressed, r.pages, r.keys, b);
      CompletedBlockHasPage(m.g, pages, length, b);
      BlockStartsInPage(m.g, b, length);
      Successor(b, m.g.ratio);
      assert Group(keys, m.g.ratio, b) == Group(r.keys, m.g.ratio, b);
    }
  }

  lemma BlockStartsInPage(g: Geometry, b: nat, length: nat)
    requires g.Valid() && (b + 1) * g.ratio <= length
    ensures b / g.GroupsPerPage() * g.page < length
  {
    var n := g.GroupsPerPage();
    Split(b, n);
    GroupsOfPages(g, b / n);
    MulMonotone(b / n * n, b, g.ratio);
    Successor(b, g.ratio);
  }

  // A page-aligned length leaves nothing pending.
  lemma PageAlignedHasNoTail(g: Geometry, fullPages: nat)
    requires g.Valid()
    ensures TailStart(g, fullPages * g.page) == fullPages * g.page
  {
    var n := g.GroupsPerPage();
    assert fullPages * g.page == fullPages * n * g.ratio;
    QuotientUnique(fullPages * g.page, g.ratio, fullPages * n, 0);
  }

  // One holder is added or replaced; it keeps the invariant if it is well
  // paged, shares only full pages, and its blocks and tail are in place.
  lemma HolderReplaced(m: Model, s: State, h: Holder, r: Request)
    requires m.g.Valid() && Inv(m, s)
    requires WellPaged(m.g, r) && (h.Live? ==> 0 < h.slot < m.g.requests)
    requires forall o | o in s.holders && o != h ::
        SharedWhenFull(m.g, r, s.holders[o]) && SharedWhenFull(m.g, s.holders[o], r)
    requires BlocksHold(m, s.compressed, r.pages, r.keys)
    requires h.Live? ==> TailHolds(m, s.ring, h.slot, r.keys)
    ensures Inv(m, s.(holders := s.holders[h := r]))
  {
  }

  // Sharing is inherited by a prefix extended with unused pages.
  lemma PrefixShares(g: Geometry, holders: map<Holder, Request>, h: Holder, fullPages: nat, added: seq<nat>, o: Holder)
    requires g.Valid() && Allocated(g, holders) && HasPrefix(g, holders, h, fullPages) && o in holders
    requires Unused(g, holders, added)
    ensures SharedWhenFull(g, PrefixOf(g, holders[h], fullPages, added), holders[o])
    ensures SharedWhenFull(g, holders[o], PrefixOf(g, holders[h], fullPages, added))
  {
    var r, a, other := PrefixOf(g, holders[h], fullPages, added), holders[h], holders[o];
    forall i, j | 0 <= i < |r.pages| && 0 <= j < |other.pages| && r.pages[i] == other.pages[j]
      ensures i == j && (i + 1) * g.page <= |r.keys| && (i + 1) * g.page <= |other.keys|
    {
      assert a.pages[i] == r.pages[i];
      MulMonotone(i + 1, fullPages, g.page);
      if h == o {
        assert WellPaged(g, a);
      } else {
        assert SharedWhenFull(g, a, other);
      }
    }
  }

  lemma PrefixWellPaged(g: Geometry, holders: map<Holder, Request>, h: Holder, fullPages: nat, added: seq<nat>)
    requires g.Valid() && Allocated(g, holders) && HasPrefix(g, holders, h, fullPages) && Unused(g, holders, added)
    ensures WellPaged(g, PrefixOf(g, holders[h], fullPages, added))
  {
    var r := PrefixOf(g, holders[h], fullPages, added);
    assert WellPaged(g, holders[h]);
    MulMonotone(fullPages, |r.pages|, g.page);
    forall i, j | 0 <= i < j < |r.pages|
      ensures r.pages[i] != r.pages[j]
    {
      if i < fullPages <= j {
        assert holders[h].pages[i] !in added;
        assert added[j - fullPages] in added;
      }
    }
  }

  lemma PrefixKeepsInv(m: Model, s: State, h: Holder, source: Holder, fullPages: nat, added: seq<nat>)
    requires m.g.Valid() && Inv(m, s) && h !in s.holders && (h.Live? ==> 0 < h.slot < m.g.requests)
    requires HasPrefix(m.g, s.holders, source, fullPages) && Unused(m.g, s.holders, added)
    ensures Inv(m, s.(holders := s.holders[h := PrefixOf(m.g, s.holders[source], fullPages, added)]))
  {
    var r := PrefixOf(m.g, s.holders[source], fullPages, added);
    PrefixWellPaged(m.g, s.holders, source, fullPages, added);
    forall o | o in s.holders
      ensures SharedWhenFull(m.g, r, s.holders[o]) && SharedWhenFull(m.g, s.holders[o], r)
    {
      PrefixShares(m.g, s.holders, source, fullPages, added, o);
    }
    forall i | 0 <= i < |r.pages| && i * m.g.page < fullPages * m.g.page
      ensures i < |s.holders[source].pages| && r.pages[i] == s.holders[source].pages[i]
    {
      if fullPages <= i {
        MulMonotone(fullPages, i, m.g.page);
      }
    }
    BlocksOfPrefix(m, s.compressed, s.holders[source], r.pages, fullPages * m.g.page);
    PageAlignedHasNoTail(m.g, fullPages);
    HolderReplaced(m, s, h, r);
  }

  lemma DistinctPages(g: Geometry, holders: map<Holder, Request>, h: Holder, added: seq<nat>, i: nat, j: nat)
    requires g.Valid() && Allocated(g, holders) && h in holders && Unused(g, holders, added)
    requires i < j < |holders[h].pages + added|
    ensures (holders[h].pages + added)[i] != (holders[h].pages + added)[j]
  {
  }

  lemma GrownWellPaged(g: Geometry, holders: map<Holder, Request>, h: Holder, added: seq<nat>)
    requires g.Valid() && Allocated(g, holders) && h in holders && Unused(g, holders, added)
    ensures WellPaged(g, Request(holders[h].pages + added, holders[h].keys))
  {
    var pages := holders[h].pages + added;
    assert WellPaged(g, holders[h]);
    assert Holds(g, pages, |holders[h].keys|) by {
      MulMonotone(|holders[h].pages|, |pages|, g.page);
    }
    forall i, j | 0 <= i < j < |pages|
      ensures pages[i] != pages[j]
    {
      DistinctPages(g, holders, h, added, i, j);
    }
  }

  lemma GrownShares(g: Geometry, holders: map<Holder, Request>, h: Holder, added: seq<nat>, o: Holder)
    requires g.Valid() && Allocated(g, holders) && h in holders && o in holders && o != h && Unused(g, holders, added)
    ensures SharedWhenFull(g, Request(holders[h].pages + added, holders[h].keys), holders[o])
    ensures SharedWhenFull(g, holders[o], Request(holders[h].pages + added, holders[h].keys))
  {
  }

  lemma GrowKeepsInv(m: Model, s: State, slot: nat, added: seq<nat>)
    requires m.g.Valid() && Inv(m, s) && Live(slot) in s.holders && Unused(m.g, s.holders, added)
    ensures var r := s.holders[Live(slot)];
            Inv(m, s.(holders := s.holders[Live(slot) := Request(r.pages + added, r.keys)]))
  {
    var h := Live(slot);
    var a := s.holders[h];
    var r := Request(a.pages + added, a.keys);
    GrownWellPaged(m.g, s.holders, h, added);
    forall o | o in s.holders && o != h
      ensures SharedWhenFull(m.g, r, s.holders[o]) && SharedWhenFull(m.g, s.holders[o], r)
    {
      GrownShares(m.g, s.holders, h, added, o);
    }
    GrownBlocks(m, s.compressed, a, added);
    HolderReplaced(m, s, h, r);
  }

  lemma GrownBlocks(m: Model, compressed: seq<Pooled>, a: Request, added: seq<nat>)
    requires m.g.Valid() && WellPaged(m.g, a) && BlocksHold(m, compressed, a.pages, a.keys)
    ensures BlocksHold(m, compressed, a.pages + added, a.keys)
  {
    forall b: nat | (b + 1) * m.g.ratio <= |a.keys|
      ensures BlockHolds(m, compressed, a.pages + added, a.keys, b)
    {
      assert BlockHolds(m, compressed, a.pages, a.keys, b);
    }
  }

  lemma AllocationKeepsInv(m: Model, s: State, op: Allocation)
    requires m.g.Valid() && Inv(m, s) && CanAllocate(m.g, s.holders, op)
    ensures Inv(m, s.(holders := Allocate(m.g, s.holders, op)))
  {
    match op
    case Admit(slot, donor, fullPages, added) =>
      if fullPages == 0 {
        var empty := Request(added, []);
        assert forall o | o in s.holders ::
            SharedWhenFull(m.g, empty, s.holders[o]) && SharedWhenFull(m.g, s.holders[o], empty);
        HolderReplaced(m, s, Live(slot), Request(added, []));
      } else {
        PrefixKeepsInv(m, s, Live(slot), donor, fullPages, added);
      }
    case Grow(slot, added) => GrowKeepsInv(m, s, slot, added);
    case Cache(node, source, fullPages) => PrefixKeepsInv(m, s, Cached(node), source, fullPages, []);
    case Release(holder) =>
  }

  // --- Steps ------------------------------------------------------------------------

  // A graph's row metadata comes from the kernels, or from the host; the host's
  // padding rows alias the first request instead of the reserved one.
  datatype Path = Eager | Graph | HostGraph

  function PadSlot(batch: seq<Growth>, path: Path): nat
    requires batch != []
  {
    if path.HostGraph? then batch[0].slot else 0
  }

  datatype Op =
    | Allocator(op: Allocation)
    | Extend(batch: seq<Growth>, tables: seq<seq<nat>>, inputs: nat)
      // Decode, verify and draft-extend: entry i keeps its first accepts[i] rows.
    | Paged(batch: seq<Growth>, tables: seq<seq<nat>>, padding: seq<Key>, accepts: seq<nat>, path: Path)
      // Draft steps past the committed length, one after another; none is committed.
    | Drafts(rounds: seq<Round>)

  datatype Round = Round(batch: seq<Growth>, tables: seq<seq<nat>>, padding: seq<Key>, path: Path)

  // A holder's keys once the accepted prefix of every batch entry is committed.
  function KeptKeys(s: State, batch: seq<Growth>, accepts: seq<nat>, h: Holder, n: nat): (keys: seq<Key>)
    requires h in s.holders && n <= |batch| == |accepts|
    requires forall i | 0 <= i < |batch| :: Live(batch[i].slot) in s.holders && accepts[i] <= |batch[i].keys|
  {
    if n == 0 then s.holders[h].keys
    else if h == Live(batch[n - 1].slot) then s.holders[h].keys + batch[n - 1].keys[..accepts[n - 1]]
    else KeptKeys(s, batch, accepts, h, n - 1)
  }

  function Commit(s: State, batch: seq<Growth>, accepts: seq<nat>): map<Holder, Request>
    requires |batch| == |accepts|
    requires forall i | 0 <= i < |batch| :: Live(batch[i].slot) in s.holders && accepts[i] <= |batch[i].keys|
  {
    map h | h in s.holders :: Request(s.holders[h].pages, KeptKeys(s, batch, accepts, h, |batch|))
  }

  ghost predicate Accepts(batch: seq<Growth>, accepts: seq<nat>) {
    |accepts| == |batch| && forall i | 0 <= i < |batch| :: accepts[i] <= |batch[i].keys|
  }

  ghost predicate ExtendReady(m: Model, s: State, batch: seq<Growth>, tables: seq<seq<nat>>, inputs: nat)
    requires m.g.Valid()
  {
    && ValidBatch(m, s, batch) && Aligned(m, s, batch) && ChunksTabled(m, s, batch, tables)
    && |Tokens(batch, |batch|)| <= inputs
  }

  function PaddedRows(s: State, batch: seq<Growth>, path: Path, padding: nat): seq<Row>
    requires batch != [] && forall i | 0 <= i < |batch| :: Live(batch[i].slot) in s.holders
  {
    Rows(s, batch, PadSlot(batch, path), padding)
  }

  function PaddedStores(m: Model, s: State, batch: seq<Growth>, path: Path, padding: seq<Key>): seq<(nat, Key)>
    requires m.g.Valid() && batch != [] && forall i | 0 <= i < |batch| :: Live(batch[i].slot) in s.holders
  {
    RingStores(m, s, batch, false, PadSlot(batch, path), padding)
  }

  // Padding rows that alias a live request do it no harm.
  ghost predicate PagedReady(m: Model, s: State, batch: seq<Growth>, tables: seq<seq<nat>>, padding: seq<Key>,
                             accepts: seq<nat>, path: Path)
    requires m.g.Valid()
  {
    && ValidBatch(m, s, batch) && FitsRing(m, batch) && Accepts(batch, accepts)
    && 0 < |PaddedRows(s, batch, path, |padding|)| && Tabled(m, s, PaddedRows(s, batch, path, |padding|), tables)
    && (path.HostGraph? ==> PaddingHarmless(m, s, batch[0], padding))
  }

  function PagedStores(m: Model, s: State, batch: seq<Growth>, tables: seq<seq<nat>>, padding: nat, path: Path,
        ring: seq<Key>): seq<(nat, Pooled)>
    requires m.g.Valid() && ValidBatch(m, s, batch) && |ring| == m.g.requests * m.g.ring
    requires 0 < |PaddedRows(s, batch, path, padding)| && Tabled(m, s, PaddedRows(s, batch, path, padding), tables)
  {
    var rows := PaddedRows(s, batch, path, padding);
    if path.Eager? then EagerStores(m, s, rows, tables, ring) else GraphStores(m, s, rows, tables, ring)
  }

  // The buffers a forward leaves behind, before anything is committed.
  ghost predicate Writes(m: Model, s: State, op: Op, ring: seq<Key>, compressed: seq<Pooled>)
    requires m.g.Valid() && Sized(m, s)
  {
    match op
    case Allocator(_) => ring == s.ring && compressed == s.compressed
    case Extend(batch, tables, inputs) =>
      && ExtendReady(m, s, batch, tables, inputs)
      && Outcome(s.ring, RingStores(m, s, batch, true, 0, []), ring)
      && exists stores :: IsExtendStores(m, s, batch, ExtendPlan(m, s, batch, tables, inputs), stores)
                          && Outcome(s.compressed, stores, compressed)
    case Paged(batch, tables, padding, accepts, path) =>
      && PagedReady(m, s, batch, tables, padding, accepts, path)
      && Outcome(s.ring, PaddedStores(m, s, batch, path, padding), ring)
      && Outcome(s.compressed, PagedStores(m, s, batch, tables, |padding|, path, ring), compressed)
    case Drafts(rounds) =>
      exists drafted: seq<State> ::
        && DraftChain(m, rounds, drafted) && drafted[0] == s && DraftsFitRing(m.g, s, drafted[|rounds|])
        && ring == drafted[|rounds|].ring && compressed == drafted[|rounds|].compressed
  }

  // One draft step: a paged forward whose rows the next step counts as its own.
  // The host's layout is for verify and draft-extend forwards only.
  ghost predicate DraftStep(m: Model, s: State, r: Round, t: State)
    requires m.g.Valid() && Sized(m, s)
  {
    && !r.path.HostGraph? && PagedReady(m, s, r.batch, r.tables, r.padding, ChunkLengths(r.batch), r.path)
    && Outcome(s.ring, PaddedStores(m, s, r.batch, r.path, r.padding), t.ring)
    && Outcome(s.compressed, PagedStores(m, s, r.batch, r.tables, |r.padding|, r.path, t.ring), t.compressed)
    && t.holders == Commit(s, r.batch, ChunkLengths(r.batch))
  }

  // The states between draft steps, drafted keys included.
  ghost predicate DraftChain(m: Model, rounds: seq<Round>, drafted: seq<State>)
    requires m.g.Valid()
  {
    |drafted| == |rounds| + 1 && forall k: nat | k < |rounds| :: ChainStep(m, rounds, drafted, k)
  }

  ghost predicate ChainStep(m: Model, rounds: seq<Round>, drafted: seq<State>, k: nat)
    requires m.g.Valid() && k < |rounds| < |drafted|
  {
    Sized(m, drafted[k]) && DraftStep(m, drafted[k], rounds[k], drafted[k + 1])
  }

  // All that a request has drafted fits the ring beside its pending group.
  predicate DraftsFitRing(g: Geometry, s: State, t: State) {
    forall h | h in s.holders && h in t.holders ::
      |t.holders[h].keys| + g.ratio <= |s.holders[h].keys| + g.ring + 1
  }

  ghost predicate Step(m: Model, s: State, op: Op, t: State)
    requires m.g.Valid() && Sized(m, s)
  {
    && Writes(m, s, op, t.ring, t.compressed)
    && match op
       case Allocator(a) => CanAllocate(m.g, s.holders, a) && t.holders == Allocate(m.g, s.holders, a)
       case Extend(batch, _, _) => t.holders == Commit(s, batch, ChunkLengths(batch))
       case Paged(batch, _, _, accepts, _) => t.holders == Commit(s, batch, accepts)
       case Drafts(_) => t.holders == s.holders
  }

  // --- Every step keeps the invariant -------------------------------------------------

  lemma {:induction false} KeptCases(s: State, batch: seq<Growth>, accepts: seq<nat>, h: Holder, n: nat)
    requires h in s.holders && n <= |batch| == |accepts|
    requires forall i | 0 <= i < |batch| :: Live(batch[i].slot) in s.holders && accepts[i] <= |batch[i].keys|
    ensures s.holders[h].keys <= KeptKeys(s, batch, accepts, h, n) <= InFlight(s, batch, h, n)
    ensures (forall i | 0 <= i < n :: h != Live(batch[i].slot)) ==>
              KeptKeys(s, batch, accepts, h, n) == s.holders[h].keys
  {
    if n > 0 && h != Live(batch[n - 1].slot) {
      KeptCases(s, batch, accepts, h, n - 1);
    }
  }

  // Entry i of a batch gains its first counts[i] keys, and nothing else changes.
  ghost predicate Appends(before: map<Holder, Request>, after: map<Holder, Request>, batch: seq<Growth>,
                          counts: seq<nat>)
  {
    && |counts| == |batch| && after.Keys == before.Keys
    && (forall i: nat | i < |batch| :: AppendsEntry(before, after, batch[i], counts[i]))
    && (forall h | h in before && (forall i | 0 <= i < |batch| :: h != Live(batch[i].slot)) :: after[h] == before[h])
  }

  predicate AppendsEntry(before: map<Holder, Request>, after: map<Holder, Request>, x: Growth, count: nat) {
    && Live(x.slot) in before && Live(x.slot) in after && count <= |x.keys|
    && after[Live(x.slot)].pages == before[Live(x.slot)].pages
    && after[Live(x.slot)].keys == before[Live(x.slot)].keys + x.keys[..count]
  }

  lemma {:induction false} KeptOfEntry(s: State, batch: seq<Growth>, accepts: seq<nat>, i: nat, n: nat)
    requires i < n <= |batch| == |accepts|
    requires forall k | 0 <= k < |batch| :: Live(batch[k].slot) in s.holders && accepts[k] <= |batch[k].keys|
    requires forall j, k | 0 <= j < k < |batch| :: batch[j].slot != batch[k].slot
    ensures KeptKeys(s, batch, accepts, Live(batch[i].slot), n)
            == Before(s, batch[i]).keys + batch[i].keys[..accepts[i]]
  {
    if i < n - 1 {
      KeptOfEntry(s, batch, accepts, i, n - 1);
    }
  }

  lemma CommitAppends(m: Model, s: State, batch: seq<Growth>, accepts: seq<nat>)
    requires ValidBatch(m, s, batch) && Accepts(batch, accepts)
    ensures Appends(s.holders, Commit(s, batch, accepts), batch, accepts)
  {
    var after := Commit(s, batch, accepts);
    forall i: nat | i < |batch| ensures AppendsEntry(s.holders, after, batch[i], accepts[i]) {
      KeptOfEntry(s, batch, accepts, i, |batch|);
    }
    forall h | h in s.holders && forall i | 0 <= i < |batch| :: h != Live(batch[i].slot)
      ensures after[h] == s.holders[h]
    {
      KeptCases(s, batch, accepts, h, |batch|);
    }
  }

  // An extend forward commits its chunks whole.
  function Whole(batch: seq<Growth>): (counts: seq<nat>)
    ensures |counts| == |batch| && forall i | 0 <= i < |batch| :: counts[i] == |batch[i].keys|
  {
    seq(|batch|, i requires 0 <= i < |batch| => |batch[i].keys|)
  }

  lemma WholeChunks(m: Model, s: State, batch: seq<Growth>)
    requires ValidBatch(m, s, batch)
    ensures Appends(s.holders, Commit(s, batch, ChunkLengths(batch)), batch, Whole(batch))
  {
    CommitAppends(m, s, batch, ChunkLengths(batch));
    assert ChunkLengths(batch) == Whole(batch);
  }

  // A chunk is committed in full.
  lemma {:induction false} ChunksKeptWhole(s: State, batch: seq<Growth>, h: Holder, n: nat)
    requires h in s.holders && n <= |batch| && forall i | 0 <= i < |batch| :: Live(batch[i].slot) in s.holders
    ensures KeptKeys(s, batch, ChunkLengths(batch), h, n) == InFlight(s, batch, h, n)
  {
    if n > 0 && h != Live(batch[n - 1].slot) {
      ChunksKeptWhole(s, batch, h, n - 1);
    } else if n > 0 {
      assert batch[n - 1].keys[..|batch[n - 1].keys|] == batch[n - 1].keys;
    }
  }

  // Committing only lengthens keys, inside what the pages hold.
  ghost predicate Lengthened(g: Geometry, a: Request, b: Request) {
    a.pages == b.pages && a.keys <= b.keys && Holds(g, b.pages, |b.keys|)
  }

  lemma LengtheningKeepsAllocation(g: Geometry, before: map<Holder, Request>, after: map<Holder, Request>)
    requires g.Valid() && Allocated(g, before) && before.Keys == after.Keys
    requires forall h | h in before :: Lengthened(g, before[h], after[h])
    ensures Allocated(g, after)
  {
  }

  lemma ShorterFits(g: Geometry, pages: seq<nat>, a: nat, b: nat)
    requires a <= b && Holds(g, pages, b)
    ensures Holds(g, pages, a)
  {
  }

  lemma CommitLengthens(m: Model, s: State, batch: seq<Growth>, accepts: seq<nat>, h: Holder)
    requires m.g.Valid() && Allocated(m.g, s.holders) && ValidBatch(m, s, batch) && Accepts(batch, accepts)
    requires h in s.holders
    ensures Lengthened(m.g, s.holders[h], Commit(s, batch, accepts)[h])
    ensures Commit(s, batch, accepts)[h].keys <= InFlight(s, batch, h, |batch|)
  {
    KeptCases(s, batch, accepts, h, |batch|);
    InFlightFits(m, s, batch, h);
    ShorterFits(m.g, s.holders[h].pages, |KeptKeys(s, batch, accepts, h, |batch|)|, |InFlight(s, batch, h, |batch|)|);
  }

  lemma InFlightFits(m: Model, s: State, batch: seq<Growth>, h: Holder)
    requires m.g.Valid() && Allocated(m.g, s.holders) && ValidBatch(m, s, batch) && h in s.holders
    ensures Holds(m.g, s.holders[h].pages, |InFlight(s, batch, h, |batch|)|)
  {
    InFlightCases(s, batch, h, |batch|);
    assert WellPaged(m.g, s.holders[h]);
    if i: nat :| i < |batch| && h == Live(batch[i].slot) {
      assert Holds(m.g, Before(s, batch[i]).pages, |Grown(s, batch[i])|);
    }
  }

  // What a forward's stores leave in the buffers, for any accepted prefix.
  lemma ForwardKeepsInv(m: Model, s: State, batch: seq<Growth>, accepts: seq<nat>, stores: seq<(nat, Pooled)>, t: State)
    requires m.g.Valid() && Inv(m, s) && ValidBatch(m, s, batch) && Accepts(batch, accepts) && Sized(m, t)
    requires GroupStores(m, s, batch, stores) && Outcome(s.compressed, stores, t.compressed)
    requires t.holders == Commit(s, batch, accepts)
    requires forall h | h in t.holders && h.Live? :: TailHolds(m, t.ring, h.slot, t.holders[h].keys)
    ensures Inv(m, t)
  {
    forall h | h in s.holders
      ensures Lengthened(m.g, s.holders[h], t.holders[h])
      ensures BlocksHold(m, t.compressed, t.holders[h].pages, t.holders[h].keys)
    {
      CommitLengthens(m, s, batch, accepts, h);
      CompressKeepsBlocks(m, s, batch, stores, t.compressed, h);
      var keys, flight := t.holders[h].keys, InFlight(s, batch, h, |batch|);
      assert keys == flight[..|keys|];
      ShorterBlocksHold(m, t.compressed, s.holders[h].pages, flight, |keys|);
    }
    LengtheningKeepsAllocation(m.g, s.holders, t.holders);
  }

  lemma ShorterBlocksHold(m: Model, compressed: seq<Pooled>, pages: seq<nat>, keys: seq<Key>, length: nat)
    requires m.g.Valid() && BlocksHold(m, compressed, pages, keys) && length <= |keys|
    ensures BlocksHold(m, compressed, pages, keys[..length])
  {
    forall b: nat | (b + 1) * m.g.ratio <= length
      ensures BlockHolds(m, compressed, pages, keys[..length], b)
    {
      assert BlockHolds(m, compressed, pages, keys, b);
      Successor(b, m.g.ratio);
      assert Group(keys[..length], m.g.ratio, b) == Group(keys, m.g.ratio, b);
    }
  }

  lemma TailStartMonotone(g: Geometry, a: nat, b: nat)
    requires g.Valid() && a <= b
    ensures TailStart(g, a) <= TailStart(g, b)
  {
    DivMonotone(a, b, g.ratio);
    MulMonotone(a / g.ratio, b / g.ratio, g.ratio);
  }

  // After the stores of a paged forward the ring holds every window of the batch.
  lemma PagedWindowHolds(m: Model, s: State, batch: seq<Growth>, path: Path, padding: seq<Key>, ring: seq<Key>,
                         i: nat, p: nat)
    requires m.g.Valid() && Inv(m, s) && ValidBatch(m, s, batch) && FitsRing(m, batch) && i < |batch|
    requires Outcome(s.ring, PaddedStores(m, s, batch, path, padding), ring)
    requires path.HostGraph? ==> PaddingHarmless(m, s, batch[0], padding)
    requires TailStart(m.g, |Before(s, batch[i]).keys|) <= p < |Grown(s, batch[i])|
    ensures RingHolds(m, ring, batch[i].slot, Grown(s, batch[i]), p)
  {
    if path.HostGraph? {
      HarmlessKeeps(m, s, batch, padding, ring, i, p);
    } else {
      WindowHolds(m, s, batch, padding, ring, i, p);
    }
  }

  // Any accepted prefix of the rows leaves its own pending group in the ring.
  lemma AcceptedTailHolds(m: Model, s: State, batch: seq<Growth>, ring: seq<Key>, i: nat, kept: seq<Key>)
    requires m.g.Valid() && ValidBatch(m, s, batch) && WindowsHold(m, s, batch, ring) && i < |batch|
    requires Before(s, batch[i]).keys <= kept <= Grown(s, batch[i])
    ensures TailHolds(m, ring, batch[i].slot, kept)
  {
    TailStartMonotone(m.g, |Before(s, batch[i]).keys|, |kept|);
    forall p: nat | TailStart(m.g, |kept|) <= p < |kept|
      ensures RingHolds(m, ring, batch[i].slot, kept, p)
    {
      assert RingHolds(m, ring, batch[i].slot, Grown(s, batch[i]), p);
    }
  }

  lemma PagedTails(m: Model, s: State, batch: seq<Growth>, accepts: seq<nat>, path: Path, padding: seq<Key>,
                   ring: seq<Key>, h: Holder)
    requires m.g.Valid() && Inv(m, s) && ValidBatch(m, s, batch) && Accepts(batch, accepts)
    requires Outcome(s.ring, PaddedStores(m, s, batch, path, padding), ring) && WindowsHold(m, s, batch, ring)
    requires h in s.holders && h.Live?
    ensures TailHolds(m, ring, h.slot, Commit(s, batch, accepts)[h].keys)
  {
    KeptCases(s, batch, accepts, h, |batch|);
    if i: nat :| i < |batch| && h == Live(batch[i].slot) {
      InFlightCases(s, batch, h, |batch|);
      AcceptedTailHolds(m, s, batch, ring, i, KeptKeys(s, batch, accepts, h, |batch|));
    } else {
      OthersKeepTail(m, s, batch, false, PadSlot(batch, path), padding, ring, h.slot);
    }
  }

  lemma ExtendTails(m: Model, s: State, batch: seq<Growth>, ring: seq<Key>, h: Holder)
    requires m.g.Valid() && Inv(m, s) && ValidBatch(m, s, batch) && Aligned(m, s, batch)
    requires Outcome(s.ring, RingStores(m, s, batch, true, 0, []), ring)
    requires h in s.holders && h.Live?
    ensures TailHolds(m, ring, h.slot, Commit(s, batch, ChunkLengths(batch))[h].keys)
  {
    ChunksKeptWhole(s, batch, h, |batch|);
    InFlightCases(s, batch, h, |batch|);
    if i: nat :| i < |batch| && h == Live(batch[i].slot) {
      ExtendTailHolds(m, s, batch, [], ring, i);
    } else {
      OthersKeepTail(m, s, batch, true, 0, [], ring, h.slot);
    }
  }

  lemma WindowsAfterPaged(m: Model, s: State, batch: seq<Growth>, path: Path, padding: seq<Key>, ring: seq<Key>)
    requires m.g.Valid() && Inv(m, s) && ValidBatch(m, s, batch) && FitsRing(m, batch)
    requires Outcome(s.ring, PaddedStores(m, s, batch, path, padding), ring)
    requires path.HostGraph? ==> PaddingHarmless(m, s, batch[0], padding)
    ensures WindowsHold(m, s, batch, ring)
  {
    forall i: nat, p: nat | i < |batch| && TailStart(m.g, |Before(s, batch[i]).keys|) <= p < |Grown(s, batch[i])|
      ensures RingHolds(m, ring, batch[i].slot, Grown(s, batch[i]), p)
    {
      PagedWindowHolds(m, s, batch, path, padding, ring, i, p);
    }
  }

  lemma PagedStoresAreGroupStores(m: Model, s: State, batch: seq<Growth>, tables: seq<seq<nat>>, padding: seq<Key>,
        accepts: seq<nat>, path: Path, ring: seq<Key>)
    requires m.g.Valid() && Inv(m, s) && PagedReady(m, s, batch, tables, padding, accepts, path)
    requires Outcome(s.ring, PaddedStores(m, s, batch, path, padding), ring)
    ensures GroupStores(m, s, batch, PagedStores(m, s, batch, tables, |padding|, path, ring))
  {
    WindowsAfterPaged(m, s, batch, path, padding, ring);
    if path.Eager? {
      EagerStoresAreGroupStores(m, s, batch, PadSlot(batch, path), |padding|, tables, ring);
    } else {
      GraphStoresAreGroupStores(m, s, batch, PadSlot(batch, path), |padding|, tables, ring);
    }
  }

  lemma ExtendKeepsInv(m: Model, s: State, batch: seq<Growth>, tables: seq<seq<nat>>, inputs: nat,
                        stores: seq<(nat, Pooled)>, t: State)
    requires m.g.Valid() && Inv(m, s) && ExtendReady(m, s, batch, tables, inputs)
    requires Outcome(s.ring, RingStores(m, s, batch, true, 0, []), t.ring)
    requires IsExtendStores(m, s, batch, ExtendPlan(m, s, batch, tables, inputs), stores)
    requires Outcome(s.compressed, stores, t.compressed)
    requires t.holders == Commit(s, batch, ChunkLengths(batch))
    ensures Inv(m, t) && Appends(s.holders, t.holders, batch, Whole(batch))
  {
    WholeChunks(m, s, batch);
    ExtendStoresAreGroupStores(m, s, batch, tables, inputs, stores);
    forall h | h in t.holders && h.Live?
      ensures TailHolds(m, t.ring, h.slot, t.holders[h].keys)
    {
      ExtendTails(m, s, batch, t.ring, h);
    }
    ForwardKeepsInv(m, s, batch, ChunkLengths(batch), stores, t);
  }

  lemma PagedKeepsInv(m: Model, s: State, batch: seq<Growth>, tables: seq<seq<nat>>, padding: seq<Key>,
        accepts: seq<nat>, path: Path, t: State)
    requires m.g.Valid() && Inv(m, s) && PagedReady(m, s, batch, tables, padding, accepts, path)
    requires Outcome(s.ring, PaddedStores(m, s, batch, path, padding), t.ring)
    requires Outcome(s.compressed, PagedStores(m, s, batch, tables, |padding|, path, t.ring), t.compressed)
    requires t.holders == Commit(s, batch, accepts)
    ensures Inv(m, t) && Appends(s.holders, t.holders, batch, accepts)
  {
    CommitAppends(m, s, batch, accepts);
    PagedStoresAreGroupStores(m, s, batch, tables, padding, accepts, path, t.ring);
    WindowsAfterPaged(m, s, batch, path, padding, t.ring);
    forall h | h in t.holders && h.Live?
      ensures TailHolds(m, t.ring, h.slot, t.holders[h].keys)
    {
      PagedTails(m, s, batch, accepts, path, padding, t.ring, h);
    }
    ForwardKeepsInv(m, s, batch, accepts, PagedStores(m, s, batch, tables, |padding|, path, t.ring), t);
  }

  // --- Draft steps -----------------------------------------------------------------------

  // A cell stays if the rows that a request adds do not wrap round to it.
  lemma CellStays(m: Model, s: State, batch: seq<Growth>, padding: seq<Key>, ring: seq<Key>, slot: nat, p: nat)
    requires m.g.Valid() && Inv(m, s) && ValidBatch(m, s, batch) && Live(slot) in s.holders
    requires Outcome(s.ring, RingStores(m, s, batch, false, 0, padding), ring)
    requires forall i | 0 <= i < |batch| && batch[i].slot == slot ::
               p < |Before(s, batch[i]).keys| && |Grown(s, batch[i])| <= p + m.g.ring
    ensures RingAt(m.g, slot, p) < |ring| == |s.ring|
    ensures ring[RingAt(m.g, slot, p)] == s.ring[RingAt(m.g, slot, p)]
  {
    RingCellInBounds(m.g, slot, p);
    var stores := RingStores(m, s, batch, false, 0, padding);
    forall st | st in stores ensures st.0 != RingAt(m.g, slot, p) {
      if st.0 == RingAt(m.g, slot, p) {
        var i, j := StoreHitsOwnCell(m, s, batch, false, 0, padding, st, slot, p);
        RingCell(m.g, slot, p, slot, |Before(s, batch[i]).keys| + j);
      }
    }
    Untouched(s.ring, stores, ring, RingAt(m.g, slot, p));
  }

  // What draft steps leave of a holder: its committed keys, longer by its drafts,
  // and in the ring everything since its pending group began.
  ghost predicate DraftedOn(m: Model, s: State, t: State, h: Holder)
    requires m.g.Valid() && h in s.holders && h in t.holders
  {
    && t.holders[h].pages == s.holders[h].pages && s.holders[h].keys <= t.holders[h].keys
    && (h.Live? ==> forall p: nat | TailStart(m.g, |s.holders[h].keys|) <= p < |t.holders[h].keys| ::
                      RingHolds(m, t.ring, h.slot, t.holders[h].keys, p))
  }

  lemma DraftedPosition(m: Model, s: State, u: State, r: Round, v: State, h: Holder, p: nat)
    requires m.g.Valid() && Inv(m, u) && DraftStep(m, u, r, v)
    requires h in s.holders && h in u.holders && h.Live? && DraftedOn(m, s, u, h)
    requires |v.holders[h].keys| + m.g.ratio <= |s.holders[h].keys| + m.g.ring + 1
    requires u.holders[h].keys <= v.holders[h].keys == InFlight(u, r.batch, h, |r.batch|)
    requires TailStart(m.g, |s.holders[h].keys|) <= p < |v.holders[h].keys|
    ensures RingHolds(m, v.ring, h.slot, v.holders[h].keys, p)
  {
    InFlightCases(u, r.batch, h, |r.batch|);
    if p < |u.holders[h].keys| {
      assert RingHolds(m, u.ring, h.slot, u.holders[h].keys, p);
      CellStays(m, u, r.batch, r.padding, v.ring, h.slot, p);
    } else {
      var i: nat :| i < |r.batch| && h == Live(r.batch[i].slot);
      WindowHolds(m, u, r.batch, r.padding, v.ring, i, p);
    }
  }

  lemma DraftStepLengthens(m: Model, u: State, r: Round, v: State, h: Holder)
    requires m.g.Valid() && Allocated(m.g, u.holders) && Sized(m, u) && DraftStep(m, u, r, v) && h in u.holders
    ensures h in v.holders && v.holders[h].pages == u.holders[h].pages
    ensures u.holders[h].keys <= v.holders[h].keys == InFlight(u, r.batch, h, |r.batch|)
  {
    CommitLengthens(m, u, r.batch, ChunkLengths(r.batch), h);
    ChunksKeptWhole(u, r.batch, h, |r.batch|);
  }

  lemma DraftStepHolders(m: Model, u: State, r: Round, v: State)
    requires m.g.Valid() && Sized(m, u) && DraftStep(m, u, r, v)
    ensures v.holders.Keys == u.holders.Keys
  {
  }

  lemma DraftStepKeeps(m: Model, s: State, u: State, r: Round, v: State, h: Holder)
    requires m.g.Valid() && Inv(m, u) && DraftStep(m, u, r, v)
    requires h in s.holders && h in u.holders && DraftedOn(m, s, u, h)
    requires h in v.holders ==> |v.holders[h].keys| + m.g.ratio <= |s.holders[h].keys| + m.g.ring + 1
    ensures h in v.holders && DraftedOn(m, s, v, h)
  {
    DraftStepLengthens(m, u, r, v, h);
    if h.Live? {
      forall p: nat | TailStart(m.g, |s.holders[h].keys|) <= p < |v.holders[h].keys|
        ensures RingHolds(m, v.ring, h.slot, v.holders[h].keys, p)
      {
        DraftedPosition(m, s, u, r, v, h, p);
      }
    }
  }

  ghost predicate AllDraftedOn(m: Model, s: State, t: State)
    requires m.g.Valid()
  {
    s.holders.Keys == t.holders.Keys && forall h | h in s.holders :: DraftedOn(m, s, t, h)
  }

  // Every draft step keeps the invariant, its drafts counted as keys; and what it
  // drafts is no longer than what the whole chain drafts.
  lemma {:induction false} ChainKeepsInv(m: Model, rounds: seq<Round>, drafted: seq<State>, k: nat)
    requires m.g.Valid() && DraftChain(m, rounds, drafted) && Inv(m, drafted[0]) && k <= |rounds|
    ensures Inv(m, drafted[k])
  {
    if k > 0 {
      var last: nat := k - 1;
      ChainKeepsInv(m, rounds, drafted, last);
      var (u, r) := (drafted[last], rounds[last]);
      assert ChainStep(m, rounds, drafted, last);
      PagedKeepsInv(m, u, r.batch, r.tables, r.padding, ChunkLengths(r.batch), r.path, drafted[k]);
    }
  }

  lemma {:induction false} ChainLengthens(m: Model, rounds: seq<Round>, drafted: seq<State>, k: nat, n: nat, h: Holder)
    requires m.g.Valid() && DraftChain(m, rounds, drafted) && Inv(m, drafted[0]) && k <= n <= |rounds|
    requires h in drafted[k].holders
    ensures h in drafted[n].holders && |drafted[k].holders[h].keys| <= |drafted[n].holders[h].keys|
  {
    if k < n {
      var last: nat := n - 1;
      ChainLengthens(m, rounds, drafted, k, last, h);
      ChainKeepsInv(m, rounds, drafted, last);
      assert ChainStep(m, rounds, drafted, last);
      DraftStepLengthens(m, drafted[last], rounds[last], drafted[n], h);
    }
  }

  lemma HolderDrafts(m: Model, rounds: seq<Round>, drafted: seq<State>, last: nat, h: Holder)
    requires m.g.Valid() && DraftChain(m, rounds, drafted) && Inv(m, drafted[0]) && last < |rounds|
    requires DraftsFitRing(m.g, drafted[0], drafted[|rounds|])
    requires h in drafted[0].holders && h in drafted[last].holders && DraftedOn(m, drafted[0], drafted[last], h)
    ensures h in drafted[last + 1].holders && DraftedOn(m, drafted[0], drafted[last + 1], h)
  {
    var k := last + 1;
    ChainKeepsInv(m, rounds, drafted, last);
    assert ChainStep(m, rounds, drafted, last);
    DraftStepLengthens(m, drafted[last], rounds[last], drafted[k], h);
    ChainLengthens(m, rounds, drafted, k, |rounds|, h);
    DraftStepKeeps(m, drafted[0], drafted[last], rounds[last], drafted[k], h);
  }

  lemma {:induction false} ChainDrafts(m: Model, rounds: seq<Round>, drafted: seq<State>, k: nat)
    requires m.g.Valid() && DraftChain(m, rounds, drafted) && Inv(m, drafted[0]) && k <= |rounds|
    requires DraftsFitRing(m.g, drafted[0], drafted[|rounds|])
    ensures AllDraftedOn(m, drafted[0], drafted[k])
  {
    var s := drafted[0];
    if k == 0 {
      forall h | h in s.holders ensures DraftedOn(m, s, s, h) {
        if h.Live? { assert TailHolds(m, s.ring, h.slot, s.holders[h].keys); }
      }
    } else {
      var last: nat := k - 1;
      ChainDrafts(m, rounds, drafted, last);
      assert ChainStep(m, rounds, drafted, last);
      DraftStepHolders(m, drafted[last], rounds[last], drafted[k]);
      forall h | h in s.holders ensures DraftedOn(m, s, drafted[k], h) { HolderDrafts(m, rounds, drafted, last, h); }
    }
  }

  // Dropping the drafts leaves the cache of the committed keys.
  lemma DraftsKeepInv(m: Model, s: State, rounds: seq<Round>, drafted: seq<State>, t: State)
    requires m.g.Valid() && Inv(m, s) && DraftChain(m, rounds, drafted) && drafted[0] == s
    requires DraftsFitRing(m.g, s, drafted[|rounds|])
    requires t == State(drafted[|rounds|].ring, drafted[|rounds|].compressed, s.holders)
    ensures Inv(m, t)
  {
    var last := drafted[|rounds|];
    ChainKeepsInv(m, rounds, drafted, |rounds|);
    ChainDrafts(m, rounds, drafted, |rounds|);
    forall h | h in s.holders
      ensures BlocksHold(m, t.compressed, s.holders[h].pages, s.holders[h].keys)
      ensures h.Live? ==> TailHolds(m, t.ring, h.slot, s.holders[h].keys)
    {
      DroppedDrafts(m, s, last, h);
    }
  }

  lemma DroppedDrafts(m: Model, s: State, last: State, h: Holder)
    requires m.g.Valid() && Inv(m, last) && h in s.holders && h in last.holders && DraftedOn(m, s, last, h)
    ensures BlocksHold(m, last.compressed, s.holders[h].pages, s.holders[h].keys)
    ensures h.Live? ==> TailHolds(m, last.ring, h.slot, s.holders[h].keys)
  {
    var (keys, drafts) := (s.holders[h].keys, last.holders[h].keys);
    ShorterBlocksHold(m, last.compressed, s.holders[h].pages, drafts, |keys|);
    assert drafts[..|keys|] == keys;
    if h.Live? {
      forall p: nat | TailStart(m.g, |keys|) <= p < |keys| ensures RingHolds(m, last.ring, h.slot, keys, p) {
        assert RingHolds(m, last.ring, h.slot, drafts, p);
      }
    }
  }

  lemma StepKeepsInv(m: Model, s: State, op: Op, t: State)
    requires m.g.Valid() && Inv(m, s) && Step(m, s, op, t)
    ensures Inv(m, t)
  {
    match op
    case Allocator(a) =>
      AllocationKeepsInv(m, s, a);
      assert t == s.(holders := Allocate(m.g, s.holders, a));
    case Extend(batch, tables, inputs) =>
      var stores :| IsExtendStores(m, s, batch, ExtendPlan(m, s, batch, tables, inputs), stores)
                    && Outcome(s.compressed, stores, t.compressed);
      ExtendKeepsInv(m, s, batch, tables, inputs, stores, t);
    case Paged(batch, tables, padding, accepts, path) =>
      PagedKeepsInv(m, s, batch, tables, padding, accepts, path, t);
    case Drafts(rounds) =>
      var drafted: seq<State> :|
        && DraftChain(m, rounds, drafted) && drafted[0] == s && DraftsFitRing(m.g, s, drafted[|rounds|])
        && t.ring == drafted[|rounds|].ring && t.compressed == drafted[|rounds|].compressed;
      DraftsKeepInv(m, s, rounds, drafted, t);
  }

  // --- Runs -----------------------------------------------------------------------------

  ghost predicate Initial(m: Model, s: State) {
    Sized(m, s) && s.holders == map[]
  }

  ghost predicate Run(m: Model, states: seq<State>, ops: seq<Op>)
    requires m.g.Valid()
  {
    && |states| == |ops| + 1
    && Initial(m, states[0])
    && forall i | 0 <= i < |ops| :: Sized(m, states[i]) && Step(m, states[i], ops[i], states[i + 1])
  }

  lemma {:induction false} RunKeepsInv(m: Model, states: seq<State>, ops: seq<Op>, k: nat)
    requires m.g.Valid() && Run(m, states, ops) && k < |states|
    ensures Inv(m, states[k])
  {
    if k > 0 {
      RunKeepsInv(m, states, ops, k - 1);
      StepKeepsInv(m, states[k - 1], ops[k - 1], states[k]);
    }
  }

  // --- Reads ------------------------------------------------------------------------------

  // `get_prefill_mqa_inputs`: every ratio-th slot of the row, divided by the ratio.
  ghost predicate CanReadPacked(m: Model, compressed: seq<Pooled>, row: seq<nat>, length: nat)
    requires m.g.Valid()
  {
    forall b: nat | b < length / m.g.ratio :: b * m.g.ratio < |row| && FirstRawSlot(m.g, row, b) < |compressed|
  }

  function ReadPacked(m: Model, compressed: seq<Pooled>, row: seq<nat>, length: nat): seq<Pooled>
    requires m.g.Valid() && CanReadPacked(m, compressed, row, length)
  {
    seq(length / m.g.ratio, b requires 0 <= b < length / m.g.ratio => compressed[FirstRawSlot(m.g, row, b)])
  }

  // The scoring kernel's address for block b, from the page table of the row.
  function PagedAddress(g: Geometry, row: seq<nat>, b: nat): nat
    requires g.Valid() && b / g.GroupsPerPage() * g.page < |row|
  {
    var n := g.GroupsPerPage();
    Split(b, n);
    MulMonotone(0, b / n, g.page);
    var entry: nat := row[b / n * g.page] / g.page;
    MulMonotone(0, entry, n);
    entry * n + b % n
  }

  ghost predicate CanReadPaged(m: Model, compressed: seq<Pooled>, row: seq<nat>, length: nat)
    requires m.g.Valid()
  {
    forall b: nat | b < length / m.g.ratio ::
      b / m.g.GroupsPerPage() * m.g.page < |row| && PagedAddress(m.g, row, b) < |compressed|
  }

  ghost function ReadPaged(m: Model, compressed: seq<Pooled>, row: seq<nat>, length: nat): seq<Pooled>
    requires m.g.Valid() && CanReadPaged(m, compressed, row, length)
  {
    seq(length / m.g.ratio, b requires 0 <= b < length / m.g.ratio => compressed[PagedAddress(m.g, row, b)])
  }

  // Both readers return the recomputation, for any visible prefix of the keys.
  lemma ReadersRecompute(m: Model, compressed: seq<Pooled>, pages: seq<nat>, keys: seq<Key>, row: seq<nat>, length: nat)
    requires m.g.Valid() && BlocksHold(m, compressed, pages, keys)
    requires RowOf(m.g, pages, row) && length <= |keys| && length <= |row|
    ensures CanReadPacked(m, compressed, row, length) && CanReadPaged(m, compressed, row, length)
    ensures ReadPacked(m, compressed, row, length) == Recomputed(m, keys[..length])
    ensures ReadPaged(m, compressed, row, length) == Recomputed(m, keys[..length])
  {
    forall b: nat | b < length / m.g.ratio
      ensures b * m.g.ratio < |row| && FirstRawSlot(m.g, row, b) < |compressed|
      ensures b / m.g.GroupsPerPage() * m.g.page < |row| && PagedAddress(m.g, row, b) < |compressed|
      ensures compressed[FirstRawSlot(m.g, row, b)] == Recomputed(m, keys[..length])[b]
      ensures compressed[PagedAddress(m.g, row, b)] == Recomputed(m, keys[..length])[b]
    {
      BlockReads(m, compressed, pages, keys, row, length, b);
    }
  }

  lemma PackedAddressIsSlot(g: Geometry, pages: seq<nat>, row: seq<nat>, b: nat)
    requires g.Valid() && RowOf(g, pages, row) && HasBlock(g, pages, b) && b * g.ratio < |row|
    ensures FirstRawSlot(g, row, b) == CompressedSlot(g, pages, b)
  {
    AddressesAgree(g, pages, b, 0);
    assert row[b * g.ratio] == RawSlot(g, pages, b * g.ratio);
  }

  lemma PagedAddressIsSlot(g: Geometry, pages: seq<nat>, row: seq<nat>, b: nat)
    requires g.Valid() && RowOf(g, pages, row) && HasBlock(g, pages, b)
    requires b / g.GroupsPerPage() * g.page < |row|
    ensures PagedAddress(g, row, b) == CompressedSlot(g, pages, b)
  {
    var i := b / g.GroupsPerPage();
    PageTableEntry(g, pages, i);
    assert row[i * g.page] == RawSlot(g, pages, i * g.page);
  }

  lemma BlockReads(m: Model, compressed: seq<Pooled>, pages: seq<nat>, keys: seq<Key>, row: seq<nat>, length: nat,
        b: nat)
    requires m.g.Valid() && BlocksHold(m, compressed, pages, keys)
    requires RowOf(m.g, pages, row) && length <= |keys| && length <= |row| && b < length / m.g.ratio
    ensures b * m.g.ratio < |row| && FirstRawSlot(m.g, row, b) < |compressed|
    ensures b / m.g.GroupsPerPage() * m.g.page < |row| && PagedAddress(m.g, row, b) < |compressed|
    ensures compressed[FirstRawSlot(m.g, row, b)] == Recomputed(m, keys[..length])[b]
    ensures compressed[PagedAddress(m.g, row, b)] == Recomputed(m, keys[..length])[b]
  {
    DivGalois(length, m.g.ratio, b + 1);
    Successor(b, m.g.ratio);
    assert BlockHolds(m, compressed, pages, keys, b);
    assert Group(keys[..length], m.g.ratio, b) == Group(keys, m.g.ratio, b);
    BlockStartsInPage(m.g, b, length);
    PackedAddressIsSlot(m.g, pages, row, b);
    PagedAddressIsSlot(m.g, pages, row, b);
  }

  // Main result: at every point of every run, whatever mix of prefill chunks,
  // decode steps, verify rounds and allocator moves led there, and in whatever
  // order each forward's stores landed, both readers see for every holder the
  // pooled groups of exactly its committed keys, and the ring still holds the
  // keys of the group it is filling.
  lemma CacheEqualsRecomputation(m: Model, states: seq<State>, ops: seq<Op>, k: nat, h: Holder, row: seq<nat>)
    requires m.g.Valid() && Run(m, states, ops) && k < |states| && h in states[k].holders
    requires RowOf(m.g, states[k].holders[h].pages, row) && |states[k].holders[h].keys| <= |row|
    ensures var keys := states[k].holders[h].keys;
            && CanReadPacked(m, states[k].compressed, row, |keys|)
            && CanReadPaged(m, states[k].compressed, row, |keys|)
            && ReadPacked(m, states[k].compressed, row, |keys|) == Recomputed(m, keys)
            && ReadPaged(m, states[k].compressed, row, |keys|) == Recomputed(m, keys)
    ensures h.Live? ==> TailHolds(m, states[k].ring, h.slot, states[k].holders[h].keys)
  {
    RunKeepsInv(m, states, ops, k);
    var r := states[k].holders[h];
    ReadersRecompute(m, states[k].compressed, r.pages, r.keys, row, |r.keys|);
    assert r.keys[..|r.keys|] == r.keys;
  }

  // While a paged forward is in flight, the row of visible length L scores
  // against exactly the groups of its own request's committed and drafted keys
  // up to L, however many of them are later accepted.
  lemma RowsScoreOwnDrafts(m: Model, s: State, op: Op, t: State, i: nat, length: nat, row: seq<nat>)
    requires m.g.Valid() && Inv(m, s) && op.Paged? && Step(m, s, op, t)
    requires i < |op.batch| && length <= |Grown(s, op.batch[i])| && length <= |row|
    requires RowOf(m.g, Before(s, op.batch[i]).pages, row)
    ensures CanReadPaged(m, t.compressed, row, length)
    ensures ReadPaged(m, t.compressed, row, length) == Recomputed(m, Grown(s, op.batch[i])[..length])
  {
    var Paged(batch, tables, padding, accepts, path) := op;
    PagedStoresAreGroupStores(m, s, batch, tables, padding, accepts, path, t.ring);
    var h := Live(batch[i].slot);
    CompressKeepsBlocks(m, s, batch, PagedStores(m, s, batch, tables, |padding|, path, t.ring), t.compressed, h);
    InFlightCases(s, batch, h, |batch|);
    ReadersRecompute(m, t.compressed, Before(s, batch[i]).pages, Grown(s, batch[i]), row, length);
  }

  // A draft step scores its row against its own request's committed keys and the
  // drafts so far, its own included.
  lemma DraftRowsScoreDrafts(m: Model, rounds: seq<Round>, drafted: seq<State>, k: nat, i: nat, length: nat,
                             row: seq<nat>)
    requires m.g.Valid() && DraftChain(m, rounds, drafted) && Inv(m, drafted[0]) && k < |rounds|
    requires i < |rounds[k].batch| && Live(rounds[k].batch[i].slot) in drafted[k].holders
    requires length <= |Grown(drafted[k], rounds[k].batch[i])| && length <= |row|
    requires RowOf(m.g, Before(drafted[k], rounds[k].batch[i]).pages, row)
    ensures CanReadPaged(m, drafted[k + 1].compressed, row, length)
    ensures ReadPaged(m, drafted[k + 1].compressed, row, length)
            == Recomputed(m, Grown(drafted[k], rounds[k].batch[i])[..length])
  {
    ChainKeepsInv(m, rounds, drafted, k);
    var r := rounds[k];
    assert ChainStep(m, rounds, drafted, k);
    var op := Paged(r.batch, r.tables, r.padding, ChunkLengths(r.batch), r.path);
    RowsScoreOwnDrafts(m, drafted[k], op, drafted[k + 1], i, length, row);
  }
}
