/** Where the compressed index cache keeps a group: the page-aligned allocator
    puts position p of a request at `pages[p / page] * page + p % page`, and a
    group's compressed slot is any of its raw slots divided by the ratio. */
module QsaAddressing {
  import opened Arithmetic

  datatype Geometry = Geometry(ratio: nat, page: nat, ring: nat, requests: nat, capacity: nat) {
    // The constructor's checks of the pool and the indexer.
    predicate Valid() {
      2 <= ratio && 1 < page && page % ratio == 0 && ratio <= ring && 0 < requests && 0 < capacity
    }

    // Groups of one full page: `qsa_compressed_page_size`.
    function GroupsPerPage(): (n: nat)
      requires Valid()
      ensures 0 < n && page == n * ratio
    {
      Split(page, ratio);
      assert page / ratio * ratio == page;
      page / ratio
    }
  }

  // Groups that this many tokens complete.
  function Groups(g: Geometry, length: nat): (n: nat)
    requires g.Valid()
  {
    Split(length, g.ratio);
    length / g.ratio
  }

  // The compressed slot of a block, from the first of its raw slots in a table row.
  function FirstRawSlot(g: Geometry, row: seq<nat>, block: nat): (slot: nat)
    requires g.Valid() && block * g.ratio < |row|
  {
    MulMonotone(0, block, g.ratio);
    Split(row[block * g.ratio], g.ratio);
    row[block * g.ratio] / g.ratio
  }

  // ... and from the last of them.
  function LastRawSlot(g: Geometry, row: seq<nat>, block: nat): (slot: nat)
    requires g.Valid() && block * g.ratio + g.ratio <= |row|
  {
    MulMonotone(0, block, g.ratio);
    Split(row[block * g.ratio + (g.ratio - 1)], g.ratio);
    row[block * g.ratio + (g.ratio - 1)] / g.ratio
  }

  predicate HasPosition(g: Geometry, pages: seq<nat>, p: nat)
    requires g.Valid()
  {
    p / g.page < |pages|
  }

  // Entry p of the request's `req_to_token` row.
  function RawSlot(g: Geometry, pages: seq<nat>, p: nat): nat
    requires g.Valid() && HasPosition(g, pages, p)
  {
    pages[p / g.page] * g.page + p % g.page
  }

  predicate HasBlock(g: Geometry, pages: seq<nat>, block: nat)
    requires g.Valid()
  {
    block / g.GroupsPerPage() < |pages|
  }

  // The slot the scoring kernels read through the page table:
  // `page_id * compressed_page_size + block_in_page`.
  function CompressedSlot(g: Geometry, pages: seq<nat>, block: nat): nat
    requires g.Valid() && HasBlock(g, pages, block)
  {
    var n := g.GroupsPerPage();
    pages[block / n] * n + block % n
  }

  // A table row is right wherever the request has a page.
  ghost predicate RowOf(g: Geometry, pages: seq<nat>, row: seq<nat>)
    requires g.Valid()
  {
    forall p: nat | p < |row| && HasPosition(g, pages, p) :: row[p] == RawSlot(g, pages, p)
  }

  // Slot o of the m-th group after q pages.
  lemma GroupInPages(g: Geometry, q: nat, m: nat, o: nat)
    requires g.Valid() && m < g.GroupsPerPage() && o < g.ratio
    ensures (q * g.GroupsPerPage() + m) * g.ratio + o == q * g.page + (m * g.ratio + o)
    ensures m * g.ratio + o < g.page
  {
    var n := g.GroupsPerPage();
    Distributes(q * n, m, g.ratio);
    Associates(q, n, g.ratio);
    RowsInOrder(m, n, g.ratio);
  }

  // A position's page and place in it, counted in groups.
  lemma PositionInPage(g: Geometry, block: nat, o: nat)
    requires g.Valid() && o < g.ratio
    ensures (block * g.ratio + o) / g.page == block / g.GroupsPerPage()
    ensures (block * g.ratio + o) % g.page == block % g.GroupsPerPage() * g.ratio + o
  {
    var n := g.GroupsPerPage();
    Split(block, n);
    GroupInPages(g, block / n, block % n, o);
    QuotientUnique(block * g.ratio + o, g.page, block / n, block % n * g.ratio + o);
  }

  // Every address computed for a group is the same compressed slot: from its
  // first raw slot (eager plan and packed prefill), from its last raw slot
  // (graph kernel), from any member, and through the page table.
  lemma AddressesAgree(g: Geometry, pages: seq<nat>, block: nat, o: nat)
    requires g.Valid() && HasBlock(g, pages, block) && o < g.ratio
    ensures HasPosition(g, pages, block * g.ratio + o)
    ensures RawSlot(g, pages, block * g.ratio + o) / g.ratio == CompressedSlot(g, pages, block)
  {
    var n := g.GroupsPerPage();
    PositionInPage(g, block, o);
    Split(block, n);
    GroupInPages(g, pages[block / n], block % n, o);
    QuotientUnique(RawSlot(g, pages, block * g.ratio + o), g.ratio, CompressedSlot(g, pages, block), o);
  }

  // The page-table entry, `row[i * full_page] / full_page`, is the page id.
  lemma PageTableEntry(g: Geometry, pages: seq<nat>, i: nat)
    requires g.Valid() && i < |pages|
    ensures HasPosition(g, pages, i * g.page)
    ensures RawSlot(g, pages, i * g.page) / g.page == pages[i]
  {
    RawSlotAt(g, pages, i * g.page, i, 0);
    QuotientUnique(pages[i] * g.page, g.page, pages[i], 0);
  }

  lemma RawSlotAt(g: Geometry, pages: seq<nat>, p: nat, i: nat, o: nat)
    requires g.Valid() && i < |pages| && o < g.page && p == i * g.page + o
    ensures HasPosition(g, pages, p) && RawSlot(g, pages, p) == pages[i] * g.page + o
  {
    QuotientUnique(p, g.page, i, o);
  }

  // Equal slots come from the same page and the same place in it.
  lemma SlotsIdentifyGroups(g: Geometry, a: seq<nat>, x: nat, b: seq<nat>, y: nat)
    requires g.Valid() && HasBlock(g, a, x) && HasBlock(g, b, y)
    requires CompressedSlot(g, a, x) == CompressedSlot(g, b, y)
    ensures a[x / g.GroupsPerPage()] == b[y / g.GroupsPerPage()]
    ensures x % g.GroupsPerPage() == y % g.GroupsPerPage()
  {
    var n := g.GroupsPerPage();
    Split(x, n);
    Split(y, n);
    RowsDisjoint(a[x / n], x % n, b[y / n], y % n, n);
  }

  // Within one request whose pages are distinct, blocks never share a slot.
  lemma BlocksHaveOwnSlots(g: Geometry, pages: seq<nat>, x: nat, y: nat)
    requires g.Valid() && HasBlock(g, pages, x) && HasBlock(g, pages, y)
    requires forall i, j | 0 <= i < j < |pages| :: pages[i] != pages[j]
    requires CompressedSlot(g, pages, x) == CompressedSlot(g, pages, y)
    ensures x == y
  {
    SlotsIdentifyGroups(g, pages, x, pages, y);
    var n := g.GroupsPerPage();
    Split(x, n);
    Split(y, n);
  }

  // Pages other than the reserved page 0 never reach the inert slot 0, and the
  // pages of a pool stay inside its compressed cache.
  lemma SlotInCapacity(g: Geometry, pages: seq<nat>, block: nat)
    requires g.Valid() && HasBlock(g, pages, block)
    requires forall i | 0 <= i < |pages| :: 0 < pages[i] && (pages[i] + 1) * g.GroupsPerPage() <= g.capacity
    ensures 0 < CompressedSlot(g, pages, block) < g.capacity
  {
  }

  // The constructor's `ceil((size + page) / ratio)` slots hold every page of a
  // raw pool of `size + page` slots.
  lemma CapacityHoldsPages(g: Geometry, size: nat, pg: nat)
    requires g.Valid() && (pg + 1) * g.page <= size + g.page
    ensures (pg + 1) * g.GroupsPerPage() <= (size + g.page + g.ratio - 1) / g.ratio
  {
  }

  lemma GroupsOfPages(g: Geometry, k: nat)
    requires g.Valid()
    ensures k * g.page == k * g.GroupsPerPage() * g.ratio
  {
    Associates(k, g.GroupsPerPage(), g.ratio);
  }

  // A block completed within the allocated positions has a page.
  lemma CompletedBlockHasPage(g: Geometry, pages: seq<nat>, length: nat, block: nat)
    requires g.Valid() && length <= |pages| * g.page && (block + 1) * g.ratio <= length
    ensures HasBlock(g, pages, block)
    ensures (block + 1) * g.ratio <= (block / g.GroupsPerPage() + 1) * g.page
  {
    var n := g.GroupsPerPage();
    GroupsOfPages(g, |pages|);
    Successor(block, g.ratio);
    if |pages| * n <= block { MulMonotone(|pages| * n, block, g.ratio); }
    DivGalois(block, n, |pages|);
    BlockEndsInPage(g, block);
  }

  lemma BlockEndsInPage(g: Geometry, block: nat)
    requires g.Valid()
    ensures (block + 1) * g.ratio <= (block / g.GroupsPerPage() + 1) * g.page
  {
    var n := g.GroupsPerPage();
    var next := block / n + 1;
    DivGalois(block, n, next);
    MulMonotone(block + 1, next * n, g.ratio);
    GroupsOfPages(g, next);
  }
}
