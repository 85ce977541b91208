/** The SSD page reader: rows are split at page boundaries, the pieces are sorted
    and grouped by page, pages are read in batches and waves whose completions
    arrive in any order, and the pieces are scattered to the output. */
module PageReader {
  import opened Arithmetic

  const PAGE_SIZE: nat := 4096
  const POOL_BYTES: nat := 33554432
  const QUEUE_DEPTH: nat := 256
  const MAX_BATCH_PAGES: nat := 4096
  const U32_MAX: nat := 0xFFFF_FFFF

  newtype byte = x: int | 0 <= x < 0x100
  newtype u16 = x: int | 0 <= x < 0x1_0000
  newtype u32 = x: int | 0 <= x < 0x1_0000_0000
  newtype u64 = x: int | 0 <= x < 0x1_0000_0000_0000_0000

  // The narrow fields of the source; every cast into them is proved exact.
  datatype Piece = Piece(pageId: u64, outputOffset: u32, pageOffset: u16, len: u16)
  datatype PageGroup = PageGroup(pageId: u64, pieceStart: u32, pieceEnd: u32)

  datatype Failure = Unusable | InvalidInput | Io
  datatype Status = Ok | Err(failure: Failure)

  // The table slice one reader serves: rows [tpStart, tpEnd) of a file whose
  // first row is fileRowStart.
  datatype Table = Table(file: seq<byte>, rowBytes: nat, fileRowStart: int, tpStart: int, tpEnd: int) {
    // The checks of the constructor.
    predicate Valid() {
      && 0 < rowBytes && |file| <= 0xFFFF_FFFF_FFFF_FFFF
      && 0 <= fileRowStart <= tpStart < tpEnd
      && (tpEnd - fileRowStart) * rowBytes <= |file|
    }

    predicate Serves(id: int) {
      tpStart <= id < tpEnd
    }

    function RowStart(id: int): (start: nat)
      requires Valid() && Serves(id)
      ensures start == (id - fileRowStart) * rowBytes
      ensures start + rowBytes <= |file|
    {
      MulMonotone(id - fileRowStart + 1, tpEnd - fileRowStart, rowBytes);
      MulMonotone(0, id - fileRowStart, rowBytes);
      (id - fileRowStart) * rowBytes
    }

    // Byte c of the output row for an id: the reference definition of a gather.
    function RowByte(id: int, c: nat): byte
      requires Valid() && c < rowBytes
    {
      if tpStart <= id < tpEnd then file[RowStart(id) + c] else 0
    }
  }

  // Output position o belongs to row o / rowBytes.
  function SpecByte(t: Table, ids: seq<int>, o: nat): byte
    requires t.Valid() && o / t.rowBytes < |ids|
  {
    Split(o, t.rowBytes);
    t.RowByte(ids[o / t.rowBytes], o % t.rowBytes)
  }

  predicate Served(t: Table, ids: seq<int>, o: nat)
    requires t.Valid() && o / t.rowBytes < |ids|
  {
    t.Serves(ids[o / t.rowBytes])
  }

  lemma PositionOfRow(t: Table, i: nat, c: nat)
    requires t.Valid() && c < t.rowBytes
    ensures (i * t.rowBytes + c) / t.rowBytes == i && (i * t.rowBytes + c) % t.rowBytes == c
  {
    QuotientUnique(i * t.rowBytes + c, t.rowBytes, i, c);
  }

  // --- Pieces ---------------------------------------------------------------

  predicate Covers(p: Piece, o: nat) {
    p.outputOffset as nat <= o < p.outputOffset as nat + p.len as nat
  }

  function FileOffset(p: Piece): nat {
    p.pageId as nat * PAGE_SIZE + p.pageOffset as nat
  }

  // What a piece brings to output position o.
  function FileByte(t: Table, p: Piece, o: nat): byte
    requires Covers(p, o) && FileOffset(p) + p.len as nat <= |t.file|
  {
    t.file[FileOffset(p) + (o - p.outputOffset as nat)]
  }

  // A piece lies inside one page, the file and the output, and moves bytes to
  // where the reference wants them.
  ghost predicate Sound(t: Table, ids: seq<int>, p: Piece)
    requires t.Valid()
  {
    && 0 < p.len
    && p.pageOffset as nat + p.len as nat <= PAGE_SIZE
    && FileOffset(p) + p.len as nat <= |t.file|
    && p.outputOffset as nat + p.len as nat <= |ids| * t.rowBytes
    && forall o: nat | Covers(p, o) :: MovesByte(t, ids, p, o)
  }

  ghost predicate MovesByte(t: Table, ids: seq<int>, p: Piece, o: nat)
    requires t.Valid() && Covers(p, o) && FileOffset(p) + p.len as nat <= |t.file|
  {
    && o / t.rowBytes < |ids|
    && FileByte(t, p, o) == SpecByte(t, ids, o)
  }

  ghost predicate AllSound(t: Table, ids: seq<int>, pieces: seq<Piece>)
    requires t.Valid()
  {
    forall p | p in pieces :: Sound(t, ids, p)
  }

  ghost predicate Covered(pieces: seq<Piece>, o: nat) {
    exists p :: p in pieces && Covers(p, o)
  }

  // Every served output position below `end` has a piece.
  ghost predicate AllCovered(t: Table, ids: seq<int>, pieces: seq<Piece>, end: nat)
    requires t.Valid()
  {
    forall o: nat | o < end && o / t.rowBytes < |ids| && Served(t, ids, o) :: Covered(pieces, o)
  }

  // The piece that continues a served row at byte `offset`.
  lemma NextPiece(t: Table, ids: seq<int>, i: nat, offset: nat, p: Piece)
    requires t.Valid() && i < |ids| && t.Serves(ids[i]) && offset < t.rowBytes
    requires p.outputOffset as nat == i * t.rowBytes + offset
    requires FileOffset(p) == t.RowStart(ids[i]) + offset
    requires 0 < p.len && p.pageOffset as nat + p.len as nat <= PAGE_SIZE && offset + p.len as nat <= t.rowBytes
    ensures Sound(t, ids, p)
  {
    RowsInOrder(i, |ids|, t.rowBytes);
    forall o: nat | Covers(p, o)
      ensures MovesByte(t, ids, p, o)
    {
      var c: nat := o - i * t.rowBytes;
      PositionOfRow(t, i, c);
    }
  }

  // The piece of row i at byte `offset`: up to the end of its page or of the row.
  // The result type's narrow fields make every cast an obligation.
  function PieceAt(t: Table, ids: seq<int>, i: nat, offset: nat): (p: Piece)
    requires t.Valid() && i < |ids| && t.Serves(ids[i]) && offset < t.rowBytes && |ids| * t.rowBytes <= U32_MAX
    ensures Sound(t, ids, p) && p.outputOffset as nat == i * t.rowBytes + offset && offset + p.len as nat <= t.rowBytes
  {
    var fileOffset := t.RowStart(ids[i]) + offset;
    var pageOffset := fileOffset % PAGE_SIZE;
    var len := if PAGE_SIZE - pageOffset < t.rowBytes - offset then PAGE_SIZE - pageOffset else t.rowBytes - offset;
    Split(fileOffset, PAGE_SIZE);
    RowInBounds(i, offset, |ids|, t.rowBytes);
    var p := Piece((fileOffset / PAGE_SIZE) as u64, (i * t.rowBytes + offset) as u32, pageOffset as u16, len as u16);
    NextPiece(t, ids, i, offset, p);
    p
  }

  predicate SortedByPage(pieces: seq<Piece>) {
    forall i, j | 0 <= i < j < |pieces| :: pieces[i].pageId <= pieces[j].pageId
  }

  // First index whose page is not below the given one.
  function PageBound(pieces: seq<Piece>, pageId: u64, from: nat := 0): (k: nat)
    requires from <= |pieces|
    ensures from <= k <= |pieces|
    ensures forall j | from <= j < k :: pieces[j].pageId < pageId
    ensures k < |pieces| ==> pageId <= pieces[k].pageId
    decreases |pieces| - from
  {
    if from == |pieces| || pageId <= pieces[from].pageId then from else PageBound(pieces, pageId, from + 1)
  }

  function Insert(rest: seq<Piece>, k: nat, p: Piece): seq<Piece>
    requires k <= |rest|
  {
    rest[..k] + [p] + rest[k..]
  }

  lemma InsertKeepsOrder(rest: seq<Piece>, k: nat, p: Piece)
    requires SortedByPage(rest) && k <= |rest|
    requires forall j | 0 <= j < k :: rest[j].pageId < p.pageId
    requires k < |rest| ==> p.pageId <= rest[k].pageId
    ensures SortedByPage(Insert(rest, k, p))
  {
  }

  lemma InsertRestores(pieces: seq<Piece>, rest: seq<Piece>, k: nat)
    requires 0 < |pieces| && multiset(rest) == multiset(pieces[1..]) && k <= |rest|
    ensures multiset(Insert(rest, k, pieces[0])) == multiset(pieces)
  {
    assert rest == rest[..k] + rest[k..];
    assert pieces == [pieces[0]] + pieces[1..];
  }

  // Any sort by page will do: nothing depends on the order within a page.
  function SortByPage(pieces: seq<Piece>): (r: seq<Piece>)
    ensures SortedByPage(r) && multiset(r) == multiset(pieces)
  {
    if pieces == [] then []
    else
      var rest := SortByPage(pieces[1..]);
      var k := PageBound(rest, pieces[0].pageId);
      InsertKeepsOrder(rest, k, pieces[0]);
      InsertRestores(pieces, rest, k);
      Insert(rest, k, pieces[0])
  }

  // --- Groups -----------------------------------------------------------------

  predicate GroupOf(pieces: seq<Piece>, group: PageGroup) {
    && group.pieceStart < group.pieceEnd && group.pieceEnd as nat <= |pieces|
    && forall k | group.pieceStart as nat <= k < group.pieceEnd as nat :: pieces[k].pageId == group.pageId
  }

  // The groups split the first n pieces into consecutive runs, one per page.
  predicate Grouped(pieces: seq<Piece>, groups: seq<PageGroup>, n: nat) {
    && (forall g | 0 <= g < |groups| :: GroupOf(pieces, groups[g]))
    && (forall g | 0 <= g < |groups| - 1 ::
          groups[g].pieceEnd == groups[g + 1].pieceStart && groups[g].pageId < groups[g + 1].pageId)
    && (if groups == [] then n == 0
        else groups[0].pieceStart == 0 && groups[|groups| - 1].pieceEnd as nat == n)
  }

  // First piece of group g, or one past the last piece.
  function StartOf(pieces: seq<Piece>, groups: seq<PageGroup>, g: nat): nat
    requires g <= |groups|
  {
    if g < |groups| then groups[g].pieceStart as nat else |pieces|
  }

  // --- Output -------------------------------------------------------------------

  ghost predicate CoveredUpTo(pieces: seq<Piece>, n: nat, o: nat)
    requires n <= |pieces|
  {
    exists k :: 0 <= k < n && Covers(pieces[k], o)
  }

  // Every byte is right, or still zero because no finished piece covers it.
  ghost predicate Filled(t: Table, ids: seq<int>, output: seq<byte>, pieces: seq<Piece>, n: nat)
    requires t.Valid() && n <= |pieces| && |output| == |ids| * t.rowBytes
  {
    forall o: nat | o < |output| :: ByteFilled(t, ids, output, pieces, n, o)
  }

  ghost predicate ByteFilled(t: Table, ids: seq<int>, output: seq<byte>, pieces: seq<Piece>, n: nat, o: nat)
    requires t.Valid() && n <= |pieces| && o < |output|
  {
    && o / t.rowBytes < |ids|
    && (output[o] == SpecByte(t, ids, o) || (output[o] == 0 && !CoveredUpTo(pieces, n, o)))
  }

  // A finished gather: output row i is the file's row, or zeros.
  ghost predicate Gathered(t: Table, ids: seq<int>, output: seq<byte>)
    requires t.Valid()
  {
    && |output| == |ids| * t.rowBytes
    && forall i: nat, c: nat | i < |ids| && c < t.rowBytes :: RowGathered(t, ids, output, i, c)
  }

  ghost predicate RowGathered(t: Table, ids: seq<int>, output: seq<byte>, i: nat, c: nat)
    requires t.Valid() && i < |ids| && c < t.rowBytes
  {
    i * t.rowBytes + c < |output| && output[i * t.rowBytes + c] == t.RowByte(ids[i], c)
  }

  // Once every piece is scattered, the output is the row-by-row copy.
  lemma FilledIsGathered(t: Table, ids: seq<int>, output: seq<byte>, pieces: seq<Piece>)
    requires t.Valid() && |output| == |ids| * t.rowBytes
    requires Filled(t, ids, output, pieces, |pieces|) && AllCovered(t, ids, pieces, |output|)
    ensures Gathered(t, ids, output)
  {
    forall i: nat, c: nat | i < |ids| && c < t.rowBytes
      ensures RowGathered(t, ids, output, i, c)
    {
      var o := i * t.rowBytes + c;
      RowInBounds(i, c, |ids|, t.rowBytes);
      PositionOfRow(t, i, c);
      assert ByteFilled(t, ids, output, pieces, |pieces|, o);
      if Served(t, ids, o) {
        assert Covered(pieces, o);
        var p :| p in pieces && Covers(p, o);
        var k :| 0 <= k < |pieces| && pieces[k] == p;
        assert CoveredUpTo(pieces, |pieces|, o);
      }
    }
  }

  // Copying a sound piece's bytes advances the fill by one piece.
  lemma PieceFills(t: Table, ids: seq<int>, before: seq<byte>, after: seq<byte>, pieces: seq<Piece>, k: nat)
    requires t.Valid() && k < |pieces| && |before| == |after| == |ids| * t.rowBytes
    requires Sound(t, ids, pieces[k]) && Filled(t, ids, before, pieces, k)
    requires forall o: nat | o < |after| ::
               after[o] == if Covers(pieces[k], o) then FileByte(t, pieces[k], o) else before[o]
    ensures Filled(t, ids, after, pieces, k + 1)
  {
    var n := k + 1;
    forall o: nat | o < |after|
      ensures ByteFilled(t, ids, after, pieces, n, o)
    {
      assert ByteFilled(t, ids, before, pieces, k, o);
      if Covers(pieces[k], o) {
        assert MovesByte(t, ids, pieces[k], o);
      } else if CoveredUpTo(pieces, n, o) {
        assert CoveredUpTo(pieces, k, o);
      }
    }
  }

  // --- The pool -------------------------------------------------------------------

  // Bytes a full read of a page returns; the last page may be short.
  function Expected(t: Table, page: nat): (n: nat)
    requires page * PAGE_SIZE <= |t.file|
    ensures n <= PAGE_SIZE && page * PAGE_SIZE + n <= |t.file|
  {
    if |t.file| - page * PAGE_SIZE < PAGE_SIZE then |t.file| - page * PAGE_SIZE else PAGE_SIZE
  }

  ghost predicate SlotHolds(t: Table, pool: seq<byte>, slot: nat, page: nat) {
    && (slot + 1) * PAGE_SIZE <= |pool| && page * PAGE_SIZE <= |t.file|
    && forall k: nat | k < Expected(t, page) :: PoolByte(t, pool, slot, page, k)
  }

  ghost predicate PoolByte(t: Table, pool: seq<byte>, slot: nat, page: nat, k: nat)
    requires (slot + 1) * PAGE_SIZE <= |pool| && page * PAGE_SIZE <= |t.file| && k < Expected(t, page)
  {
    pool[slot * PAGE_SIZE + k] == t.file[page * PAGE_SIZE + k]
  }

  // Only slots with a read outstanding may have changed.
  ghost predicate OthersKept(before: seq<byte>, after: seq<byte>, outstanding: set<nat>) {
    && |before| == |after|
    && forall k: nat | k < |before| && k / PAGE_SIZE !in outstanding :: after[k] == before[k]
  }

  lemma SlotKept(t: Table, before: seq<byte>, after: seq<byte>, outstanding: set<nat>, slot: nat, page: nat)
    requires OthersKept(before, after, outstanding) && slot !in outstanding && SlotHolds(t, before, slot, page)
    ensures SlotHolds(t, after, slot, page)
  {
    forall k: nat | k < Expected(t, page)
      ensures PoolByte(t, after, slot, page, k)
    {
      assert PoolByte(t, before, slot, page, k);
      assert (slot * PAGE_SIZE + k) / PAGE_SIZE == slot;
    }
  }

  // A sound piece ends within the bytes its page's read returned.
  lemma PieceInRead(t: Table, ids: seq<int>, p: Piece)
    requires t.Valid() && Sound(t, ids, p)
    ensures p.pageId as nat * PAGE_SIZE <= |t.file|
    ensures p.pageOffset as nat + p.len as nat <= Expected(t, p.pageId as nat)
  {
  }

  // --- What the kernel did ------------------------------------------------------------

  // A submission, with its wait for completions, or one completion: a read of a page
  // with the number of bytes or the error it returned, or an unknown tag.
  datatype Event = Wait(ok: bool) | Read(page: nat, result: int) | Unknown(tag: nat)

  // A read is good if it returns the whole page, or what the file has of it.
  predicate Fault(t: Table, e: Event) {
    match e
    case Wait(ok) => !ok
    case Read(page, result) =>
      result < 0 || result != (if |t.file| < page * 4096 + 4096 then |t.file| - page * 4096 else 4096)
    case Unknown(_) => true
  }

  predicate Clean(t: Table, events: seq<Event>) {
    forall i | 0 <= i < |events| :: !Fault(t, events[i])
  }

  // What was recorded since the record was `before`.
  function Since(before: seq<Event>, after: seq<Event>): seq<Event>
    requires before <= after
  {
    after[|before|..]
  }

  lemma CleanGrows(t: Table, before: seq<Event>, middle: seq<Event>, after: seq<Event>)
    requires before <= middle <= after
    ensures Clean(t, Since(before, after)) <==> Clean(t, Since(before, middle)) && Clean(t, Since(middle, after))
  {
    var (a, b) := (Since(before, middle), Since(middle, after));
    assert Since(before, after) == a + b;
    forall i | 0 <= i < |b| ensures (a + b)[|a| + i] == b[i] {
    }
    if Clean(t, a + b) {
      assert forall i | 0 <= i < |a| :: (a + b)[i] == a[i];
    }
  }

  class ReaderState {
    const t: Table
    const pool: array<byte>
    // All that the kernel has done for this reader.
    ghost var events: seq<Event>
    var pieces: seq<Piece>
    var groups: seq<PageGroup>
    var broken: bool

    predicate Valid() {
      t.Valid() && pool.Length == POOL_BYTES
    }

    constructor (t: Table)
      requires t.Valid()
      ensures Valid() && this.t == t && !broken && fresh(pool)
    {
      this.t := t;
      pool := new byte[POOL_BYTES];
      pieces, groups, broken, events := [], [], false, [];
    }

    // --- Planning -----------------------------------------------------------

    method PlanRow(ids: seq<int>, i: nat)
      requires Valid() && i < |ids| && t.Serves(ids[i]) && |ids| * t.rowBytes <= U32_MAX
      requires AllSound(t, ids, pieces) && AllCovered(t, ids, pieces, i * t.rowBytes) && |pieces| <= i * t.rowBytes
      modifies this`pieces
      ensures AllSound(t, ids, pieces) && AllCovered(t, ids, pieces, (i + 1) * t.rowBytes)
      ensures |pieces| <= (i + 1) * t.rowBytes
    {
      var base := i * t.rowBytes;
      Successor(i, t.rowBytes);
      var offset := 0;
      while offset < t.rowBytes
        invariant offset <= t.rowBytes
        invariant AllSound(t, ids, pieces) && AllCovered(t, ids, pieces, base + offset)
        invariant |pieces| <= base + offset
      {
        var p := PieceAt(t, ids, i, offset);
        CoverNext(t, ids, pieces, base + offset, p);
        pieces := pieces + [p];
        offset := offset + p.len as nat;
      }
    }

    method PlanPieces(ids: seq<int>)
      requires Valid() && |ids| * t.rowBytes <= U32_MAX
      modifies this`pieces
      ensures AllSound(t, ids, pieces) && AllCovered(t, ids, pieces, |ids| * t.rowBytes)
      ensures |pieces| <= |ids| * t.rowBytes
    {
      pieces := [];
      for i := 0 to |ids|
        invariant AllSound(t, ids, pieces) && AllCovered(t, ids, pieces, i * t.rowBytes)
        invariant |pieces| <= i * t.rowBytes
      {
        if t.Serves(ids[i]) {
          PlanRow(ids, i);
        } else {
          SkipRow(t, ids, pieces, i);
        }
      }
    }

    method GroupPages()
      requires SortedByPage(pieces) && |pieces| <= U32_MAX
      modifies this`groups
      ensures Grouped(pieces, groups, |pieces|)
    {
      groups := [];
      var start := 0;
      while start < |pieces|
        invariant start <= |pieces| && Grouped(pieces, groups, start)
        invariant groups != [] && start < |pieces| ==> groups[|groups| - 1].pageId < pieces[start].pageId
      {
        var page := pieces[start].pageId;
        var end := start + 1;
        while end < |pieces| && pieces[end].pageId == page
          invariant start < end <= |pieces|
          invariant forall k | start <= k < end :: pieces[k].pageId == page
        {
          end := end + 1;
        }
        groups := groups + [PageGroup(page, start as u32, end as u32)];
        start := end;
      }
    }

    // --- Reading --------------------------------------------------------------

    // One completion, under the kernel's contract: its tag names a slot whose
    // read is outstanding, or no slot of this wave at all. A read of n bytes has
    // put the file's bytes there; slots without an outstanding read are untouched.
    method NextCompletion(outstanding: set<nat>, pages: seq<nat>, waveStart: nat, waveEnd: nat)
      returns (slot: nat, result: int)
      requires Valid() && waveStart <= waveEnd <= |pages| <= MAX_BATCH_PAGES && outstanding != {}
      requires forall x | x in outstanding :: waveStart <= x < waveEnd
      requires forall k | 0 <= k < |pages| :: pages[k] * PAGE_SIZE <= |t.file|
      modifies pool, this`events
      ensures waveStart <= slot < waveEnd ==> slot in outstanding
      ensures events == old(events) + [if slot in outstanding then Read(pages[slot], result) else Unknown(slot)]
      ensures OthersKept(old(pool[..]), pool[..], outstanding)
      ensures slot in outstanding && result == Expected(t, pages[slot]) ==> SlotHolds(t, pool[..], slot, pages[slot])
    {
      slot :| slot in outstanding;
      result := *;
      if 0 <= result <= Expected(t, pages[slot]) {
        ghost var before := pool[..];
        for k := 0 to result
          invariant OthersKept(before, pool[..], outstanding) && events == old(events)
          invariant forall j: nat | j < k :: PoolByte(t, pool[..], slot, pages[slot], j)
        {
          ghost var prev := pool[..];
          pool[slot * PAGE_SIZE + k] := t.file[pages[slot] * PAGE_SIZE + k];
          assert (slot * PAGE_SIZE + k) / PAGE_SIZE == slot;
          forall j: nat | j <= k
            ensures PoolByte(t, pool[..], slot, pages[slot], j)
          {
            assert j < k ==> PoolByte(t, prev, slot, pages[slot], j);
          }
        }
      }
      events := events + [Read(pages[slot], result)];
    }

    // Submit what is queued and wait; a full queue counts as a failed wait.
    method SubmitAndWait() returns (ok: bool)
      modifies this`events
      ensures events == old(events) + [Wait(ok)]
    {
      ok := *;
      events := events + [Wait(ok)];
    }

    ghost predicate SlotsHold(pages: seq<nat>, n: nat)
      requires n <= |pages|
      reads pool
    {
      forall slot: nat | slot < n :: SlotHolds(t, pool[..], slot, pages[slot])
    }

    // One wave of at most a queue's worth of reads. Waits return with at least
    // one completion; how many, and in which order, is open. The wave fails exactly
    // when something went wrong with one of them.
    method ReadWave(pages: seq<nat>, waveStart: nat, waveEnd: nat) returns (ok: bool)
      requires Valid() && waveStart < waveEnd <= |pages| <= MAX_BATCH_PAGES
      requires forall k | 0 <= k < |pages| :: pages[k] * PAGE_SIZE <= |t.file|
      requires SlotsHold(pages, waveStart)
      modifies pool, this`events
      ensures ok ==> SlotsHold(pages, waveEnd)
      ensures old(events) <= events && (ok <==> Clean(t, Since(old(events), events)))
    {
      ghost var record := events;
      var outstanding := SlotRange(waveStart, waveEnd);
      var waveLen := waveEnd - waveStart;
      var completions := 0;
      while completions < waveLen
        invariant completions <= waveLen && |outstanding| == waveLen - completions
        invariant forall x | x in outstanding :: waveStart <= x < waveEnd
        invariant forall slot: nat | slot < waveEnd && slot !in outstanding :: SlotHolds(t, pool[..], slot, pages[slot])
        invariant record <= events && Clean(t, Since(record, events))
      {
        var submitted := SubmitAndWait();
        if !submitted {
          assert Fault(t, Since(record, events)[|Since(record, events)| - 1]);
          return false;
        }
        var available :| 1 <= available <= |outstanding|;
        var drained := 0;
        while drained < available
          invariant drained <= available <= waveLen - completions
          invariant |outstanding| == waveLen - completions - drained
          invariant forall x | x in outstanding :: waveStart <= x < waveEnd
          invariant forall slot: nat | slot < waveEnd && slot !in outstanding ::
                      SlotHolds(t, pool[..], slot, pages[slot])
          invariant record <= events && Clean(t, Since(record, events))
        {
          var slot, result := TakeCompletion(outstanding, pages, waveStart, waveEnd, record);
          if slot < waveStart || waveEnd <= slot {
            return false;
          }
          if result < 0 || result != Expected(t, pages[slot]) {
            return false;
          }
          outstanding := outstanding - {slot};
          drained := drained + 1;
        }
        completions := completions + drained;
      }
      return true;
    }

    // The next completion, and what it does to the slots that are done.
    method TakeCompletion(outstanding: set<nat>, pages: seq<nat>, waveStart: nat, waveEnd: nat,
                          ghost record: seq<Event>)
      returns (slot: nat, result: int)
      requires Valid() && waveStart <= waveEnd <= |pages| <= MAX_BATCH_PAGES && outstanding != {}
      requires forall x | x in outstanding :: waveStart <= x < waveEnd
      requires forall k | 0 <= k < |pages| :: pages[k] * PAGE_SIZE <= |t.file|
      requires forall x: nat | x < waveEnd && x !in outstanding :: SlotHolds(t, pool[..], x, pages[x])
      requires record <= events && Clean(t, Since(record, events))
      modifies pool, this`events
      ensures waveStart <= slot < waveEnd ==> slot in outstanding
      ensures forall x: nat | x < waveEnd && x !in outstanding :: SlotHolds(t, pool[..], x, pages[x])
      ensures slot in outstanding && result == Expected(t, pages[slot]) ==> SlotHolds(t, pool[..], slot, pages[slot])
      ensures record <= events
      ensures Clean(t, Since(record, events)) <==> slot in outstanding && result == Expected(t, pages[slot])
    {
      ghost var before, earlier := pool[..], events;
      slot, result := NextCompletion(outstanding, pages, waveStart, waveEnd);
      forall x: nat | x < waveEnd && x !in outstanding ensures SlotHolds(t, pool[..], x, pages[x]) {
        SlotKept(t, before, pool[..], outstanding, x, pages[x]);
      }
      CleanGrows(t, record, earlier, events);
      assert Since(earlier, events) == [events[|earlier|]];
    }

    // Whatever the completion order and the split across waits, a batch that
    // reads without error leaves every slot holding its own page.
    method ReadPageBatch(pages: seq<nat>) returns (ok: bool)
      requires Valid() && |pages| <= MAX_BATCH_PAGES
      requires forall k | 0 <= k < |pages| :: pages[k] * PAGE_SIZE <= |t.file|
      modifies pool, this`events
      ensures ok ==> SlotsHold(pages, |pages|)
      ensures old(events) <= events && (ok <==> Clean(t, Since(old(events), events)))
    {
      ghost var record := events;
      var waveStart := 0;
      while waveStart < |pages|
        invariant waveStart <= |pages| && SlotsHold(pages, waveStart)
        invariant record <= events && Clean(t, Since(record, events))
      {
        ghost var earlier := events;
        var waveEnd := if waveStart + QUEUE_DEPTH < |pages| then waveStart + QUEUE_DEPTH else |pages|;
        var read := ReadWave(pages, waveStart, waveEnd);
        CleanGrows(t, record, earlier, events);
        if !read {
          return false;
        }
        waveStart := waveEnd;
      }
      return true;
    }

    // --- Scattering -------------------------------------------------------------

    method CopyPiece(ids: seq<int>, p: Piece, slot: nat, output: array<byte>)
      requires Valid() && output != pool && output.Length == |ids| * t.rowBytes
      requires Sound(t, ids, p) && SlotHolds(t, pool[..], slot, p.pageId as nat)
      modifies output
      ensures forall o: nat | o < output.Length ::
                output[o] == if Covers(p, o) then FileByte(t, p, o) else old(output[o])
    {
      var source, destination, len := slot * PAGE_SIZE + p.pageOffset as nat, p.outputOffset as nat, p.len as nat;
      for k := 0 to len
        invariant forall o: nat | o < output.Length ::
                    output[o] == if destination <= o < destination + k then t.file[FileOffset(p) + (o - destination)]
                                 else old(output[o])
      {
        assert PoolByte(t, pool[..], slot, p.pageId as nat, p.pageOffset as nat + k);
        output[destination + k] := pool[source + k];
      }
    }

    method ScatterGroup(ids: seq<int>, g: nat, slot: nat, output: array<byte>)
      requires Valid() && output != pool && output.Length == |ids| * t.rowBytes
      requires AllSound(t, ids, pieces) && g < |groups| && GroupOf(pieces, groups[g])
      requires SlotHolds(t, pool[..], slot, groups[g].pageId as nat)
      requires Filled(t, ids, output[..], pieces, groups[g].pieceStart as nat)
      modifies output
      ensures Filled(t, ids, output[..], pieces, groups[g].pieceEnd as nat)
    {
      var group := groups[g];
      for k := group.pieceStart as nat to group.pieceEnd as nat
        invariant Filled(t, ids, output[..], pieces, k)
      {
        ghost var before := output[..];
        CopyPiece(ids, pieces[k], slot, output);
        PieceFills(t, ids, before, output[..], pieces, k);
      }
    }

    // --- The gather -----------------------------------------------------------------

    // Scatter the groups of a batch from the slots that hold their pages.
    method ScatterBatch(ids: seq<int>, batchStart: nat, batchEnd: nat, pages: seq<nat>, output: array<byte>)
      requires Valid() && output != pool && output.Length == |ids| * t.rowBytes
      requires AllSound(t, ids, pieces) && Grouped(pieces, groups, |pieces|)
      requires batchStart <= batchEnd <= |groups| && StartOf(pieces, groups, batchStart) <= |pieces|
      requires pages == PagesOf(groups[batchStart..batchEnd]) && SlotsHold(pages, |pages|)
      requires Filled(t, ids, output[..], pieces, StartOf(pieces, groups, batchStart))
      modifies output
      ensures StartOf(pieces, groups, batchEnd) <= |pieces|
      ensures Filled(t, ids, output[..], pieces, StartOf(pieces, groups, batchEnd))
    {
      for g := batchStart to batchEnd
        invariant StartOf(pieces, groups, g) <= |pieces|
        invariant Filled(t, ids, output[..], pieces, StartOf(pieces, groups, g))
        invariant SlotsHold(pages, |pages|)
      {
        assert SlotHolds(t, pool[..], g - batchStart, pages[g - batchStart]);
        ScatterGroup(ids, g, g - batchStart, output);
      }
    }

    method ReadAndScatter(ids: seq<int>, output: array<byte>) returns (ok: bool)
      requires Valid() && output != pool && output.Length == |ids| * t.rowBytes
      requires AllSound(t, ids, pieces) && Grouped(pieces, groups, |pieces|)
      requires Filled(t, ids, output[..], pieces, 0)
      modifies pool, output, this`events
      ensures ok ==> Filled(t, ids, output[..], pieces, |pieces|)
      ensures old(events) <= events && (ok <==> Clean(t, Since(old(events), events)))
    {
      ghost var record := events;
      var batchStart := 0;
      while batchStart < |groups|
        invariant batchStart <= |groups| && StartOf(pieces, groups, batchStart) <= |pieces|
        invariant Filled(t, ids, output[..], pieces, StartOf(pieces, groups, batchStart))
        invariant record <= events && Clean(t, Since(record, events))
      {
        ghost var earlier := events;
        var batchEnd := if batchStart + MAX_BATCH_PAGES < |groups| then batchStart + MAX_BATCH_PAGES else |groups|;
        var pages := PagesOf(groups[batchStart..batchEnd]);
        GroupPagesInFile(t, ids, pieces, groups);
        var read := ReadPageBatch(pages);
        CleanGrows(t, record, earlier, events);
        if !read {
          return false;
        }
        ScatterBatch(ids, batchStart, batchEnd, pages, output);
        batchStart := batchEnd;
      }
      return true;
    }

    // Clear the output, then split, sort and group the rows by page.
    method Prepare(ids: seq<int>, output: array<byte>)
      requires Valid() && output.Length == |ids| * t.rowBytes <= U32_MAX
      modifies this`pieces, this`groups, output
      ensures AllSound(t, ids, pieces) && AllCovered(t, ids, pieces, output.Length)
      ensures Grouped(pieces, groups, |pieces|) && |groups| <= |pieces| <= output.Length
      ensures Filled(t, ids, output[..], pieces, 0)
    {
      for o := 0 to output.Length
        invariant forall k | 0 <= k < o :: output[k] == 0
      {
        output[o] := 0;
      }
      PlanPieces(ids);
      SortKeepsPlan(t, ids, pieces, output.Length);
      pieces := SortByPage(pieces);
      GroupPages();
      StartsFilled(t, ids, output[..], pieces);
      GroupsWithinPieces(pieces, groups, |groups|);
    }

    // A reader that failed once refuses every later gather. An accepted gather
    // fails only on an output of the wrong size or on I/O, on I/O exactly when the
    // kernel reported a fault, and one that succeeds has produced the row-by-row copy.
    method Gather(ids: seq<int>, output: array<byte>) returns (status: Status)
      requires Valid() && output != pool
      modifies this`pieces, this`groups, this`broken, this`events, pool, output
      ensures old(broken) <==> status == Err(Unusable)
      ensures old(events) <= events && (status == Err(Io) <==> !Clean(t, Since(old(events), events)))
      ensures status == Err(Unusable) || status == Err(InvalidInput) ==> events == old(events)
      ensures broken <==> old(broken) || status == Err(Io)
      ensures status == Err(InvalidInput) <==>
                !old(broken) && (output.Length != |ids| * t.rowBytes || output.Length > U32_MAX)
      ensures status == Err(Unusable) || status == Err(InvalidInput) ==> output[..] == old(output[..])
      ensures status == Ok ==> Gathered(t, ids, output[..])
      ensures status == Ok ==> Grouped(pieces, groups, |pieces|) && |groups| <= |pieces| <= output.Length
    {
      if broken {
        return Err(Unusable);
      }
      if output.Length != |ids| * t.rowBytes {
        return Err(InvalidInput);
      }
      if output.Length > U32_MAX {
        return Err(InvalidInput);
      }
      Prepare(ids, output);
      var done := ReadAndScatter(ids, output);
      if !done {
        broken := true;
        return Err(Io);
      }
      FilledIsGathered(t, ids, output[..], pieces);
      return Ok;
    }
  }

  function SlotRange(a: nat, b: nat): (slots: set<nat>)
    requires a <= b
    ensures forall x: nat :: x in slots <==> a <= x < b
    ensures |slots| == b - a
  {
    if a == b then {} else SlotRange(a, b - 1) + {b - 1}
  }

  function PagesOf(batch: seq<PageGroup>): (pages: seq<nat>)
    ensures |pages| == |batch|
    ensures forall k | 0 <= k < |batch| :: pages[k] == batch[k].pageId as nat
  {
    if batch == [] then [] else PagesOf(batch[..|batch| - 1]) + [batch[|batch| - 1].pageId as nat]
  }

  // Sorting moves pieces about but keeps all of them.
  lemma SortKeepsPlan(t: Table, ids: seq<int>, pieces: seq<Piece>, end: nat)
    requires t.Valid() && AllSound(t, ids, pieces) && AllCovered(t, ids, pieces, end)
    ensures AllSound(t, ids, SortByPage(pieces)) && AllCovered(t, ids, SortByPage(pieces), end)
    ensures |SortByPage(pieces)| == |pieces|
  {
    var sorted := SortByPage(pieces);
    assert |multiset(sorted)| == |sorted| && |multiset(pieces)| == |pieces|;
    forall p
      ensures p in sorted <==> p in pieces
    {
      assert p in sorted <==> p in multiset(sorted);
      assert p in pieces <==> p in multiset(pieces);
    }
    forall o: nat | o < end && o / t.rowBytes < |ids| && Served(t, ids, o)
      ensures Covered(sorted, o)
    {
      assert Covered(pieces, o);
      var p :| p in pieces && Covers(p, o);
      assert p in sorted;
    }
  }

  lemma StartsFilled(t: Table, ids: seq<int>, output: seq<byte>, pieces: seq<Piece>)
    requires t.Valid() && |output| == |ids| * t.rowBytes
    requires forall o | 0 <= o < |output| :: output[o] == 0
    ensures Filled(t, ids, output, pieces, 0)
  {
  }

  lemma GroupPagesInFile(t: Table, ids: seq<int>, pieces: seq<Piece>, groups: seq<PageGroup>)
    requires t.Valid() && AllSound(t, ids, pieces) && Grouped(pieces, groups, |pieces|)
    ensures forall g | 0 <= g < |groups| :: groups[g].pageId as nat * PAGE_SIZE <= |t.file|
  {
    forall g | 0 <= g < |groups|
      ensures groups[g].pageId as nat * PAGE_SIZE <= |t.file|
    {
      assert GroupOf(pieces, groups[g]);
      var p := pieces[groups[g].pieceStart as nat];
      assert p in pieces;
      PieceInRead(t, ids, p);
    }
  }

  // No page is read twice.
  lemma {:induction false} PagesReadOnce(pieces: seq<Piece>, groups: seq<PageGroup>, a: nat, b: nat)
    requires Grouped(pieces, groups, |pieces|) && a < b < |groups|
    ensures groups[a].pageId < groups[b].pageId
  {
    if a < b - 1 {
      PagesReadOnce(pieces, groups, a, b - 1);
    }
    assert groups[b - 1].pageId < groups[b - 1 + 1].pageId;
  }

  // Every page read has at least one piece, so counts of pages fit too.
  lemma {:induction false} GroupsWithinPieces(pieces: seq<Piece>, groups: seq<PageGroup>, n: nat)
    requires Grouped(pieces, groups, |pieces|) && n <= |groups|
    ensures n <= StartOf(pieces, groups, n) <= |pieces|
  {
    if n > 0 {
      GroupsWithinPieces(pieces, groups, n - 1);
      assert GroupOf(pieces, groups[n - 1]);
    }
  }

  lemma CoverNext(t: Table, ids: seq<int>, pieces: seq<Piece>, end: nat, p: Piece)
    requires t.Valid() && AllCovered(t, ids, pieces, end) && p.outputOffset as nat == end
    ensures AllCovered(t, ids, pieces + [p], end + p.len as nat)
  {
    forall o: nat | o < end + p.len as nat && o / t.rowBytes < |ids| && Served(t, ids, o)
      ensures Covered(pieces + [p], o)
    {
      if o < end {
        assert Covered(pieces, o);
        var q :| q in pieces && Covers(q, o);
        assert q in pieces + [p];
      } else {
        assert p in pieces + [p] && Covers(p, o);
      }
    }
  }

  lemma SkipRow(t: Table, ids: seq<int>, pieces: seq<Piece>, i: nat)
    requires t.Valid() && i < |ids| && !t.Serves(ids[i]) && AllCovered(t, ids, pieces, i * t.rowBytes)
    ensures AllCovered(t, ids, pieces, (i + 1) * t.rowBytes)
  {
    forall o: nat | o < (i + 1) * t.rowBytes && o / t.rowBytes < |ids| && Served(t, ids, o)
      ensures Covered(pieces, o)
    {
      if i * t.rowBytes <= o {
        PositionOfRow(t, i, o - i * t.rowBytes);
      }
    }
  }
}
