/** The row layout of a captured graph. On the device one program instance per
    request, and one for the tail, stores into shared row buffers in any order;
    on the host a loop concatenates lists. Both must describe the same rows. */
module GraphLayout {
  import Arithmetic
  import opened Options
  import Scatter

  datatype Mode = Decode | Verify | DraftExtend

  // `extendLens` is read in DraftExtend only, `extendLen` in Verify only.
  datatype Launch = Launch(mode: Mode, seqLens: seq<nat>, requests: seq<nat>, extendLens: seq<nat>, extendLen: nat,
                           rows: nat, padding: nat)
  {
    predicate Valid() {
      && |requests| == |seqLens| && padding <= |seqLens|
      && (mode.DraftExtend? ==> |extendLens| == |seqLens|) && (mode.Decode? ==> rows == |seqLens|)
    }

    function Real(): nat
      requires Valid()
    {
      |seqLens| - padding
    }

    // Rows of a request; a padding request has none, but one in decode.
    function Rows(pid: nat): nat
      requires Valid() && pid < |seqLens|
    {
      match mode
      case Decode => 1
      case Verify => if pid < Real() then extendLen else 0
      case DraftExtend => if pid < Real() then extendLens[pid] else 0
    }

    function Offset(pid: nat): nat
      requires Valid() && pid <= |seqLens|
    {
      if pid == 0 then 0 else Offset(pid - 1) + Rows(pid - 1)
    }
  }

  datatype Row = Row(length: nat, prefix: nat, request: nat)

  function Max(a: int, b: int): (m: int)
    ensures a <= m && b <= m
  {
    if a < b then b else a
  }

  // --- What the rows are --------------------------------------------------------

  // Row j of a request: its j-th new token sees the prefix and itself.
  function RequestRow(c: Launch, pid: nat, j: nat): Row
    requires c.Valid() && pid < |c.seqLens|
  {
    var (base, n) := (c.seqLens[pid], c.Rows(pid));
    match c.mode
    case Decode => if pid < c.Real() then Row(base, Max(base - 1, 0), c.requests[pid]) else Row(1, 0, 0)
    case Verify => Row(Arithmetic.Min(base + 1 + j, base + n), base, c.requests[pid])
    case DraftExtend => Row(Arithmetic.Min(Max(base - n, 0) + 1 + j, base), Max(base - n, 0), c.requests[pid])
  }

  function RequestRows(c: Launch, pid: nat): (rows: seq<Row>)
    requires c.Valid() && pid < |c.seqLens|
    ensures |rows| == c.Rows(pid)
  {
    seq(c.Rows(pid), j requires 0 <= j => RequestRow(c, pid, j))
  }

  // The rows of the first requests, back to back.
  function FirstRows(c: Launch, n: nat): (rows: seq<Row>)
    requires c.Valid() && n <= |c.seqLens|
    ensures |rows| == c.Offset(n)
  {
    if n == 0 then [] else FirstRows(c, n - 1) + RequestRows(c, n - 1)
  }

  predicate Fits(c: Launch)
    requires c.Valid()
  {
    c.Offset(|c.seqLens|) <= c.rows
  }

  function Tail(c: Launch, request: nat): (rows: seq<Row>)
    requires c.Valid() && Fits(c)
    ensures |rows| == c.rows - c.Offset(|c.seqLens|)
  {
    seq(c.rows - c.Offset(|c.seqLens|), _ => Row(1, 0, request))
  }

  // Real rows first, then dummy rows that alias one request.
  function Layout(c: Launch, dummy: nat): (rows: seq<Row>)
    requires c.Valid() && Fits(c)
    ensures |rows| == c.rows
  {
    FirstRows(c, |c.seqLens|) + Tail(c, dummy)
  }

  // --- Who writes a row -----------------------------------------------------------

  // Instance pid writes the rows [First, Last); the last instance, the tail.
  function First(c: Launch, pid: nat): nat
    requires c.Valid() && pid <= |c.seqLens|
  {
    c.Offset(pid)
  }

  function Last(c: Launch, pid: nat): nat
    requires c.Valid() && pid <= |c.seqLens|
  {
    if pid < |c.seqLens| then c.Offset(pid + 1) else c.rows
  }

  predicate Writes(c: Launch, pid: nat, row: nat)
    requires c.Valid() && pid <= |c.seqLens|
  {
    First(c, pid) <= row < Last(c, pid)
  }

  lemma {:induction false} OffsetsGrow(c: Launch, a: nat, b: nat)
    requires c.Valid() && a <= b <= |c.seqLens|
    ensures c.Offset(a) <= c.Offset(b)
  {
    if a < b { OffsetsGrow(c, a, b - 1); }
  }

  // The owner of a real row.
  lemma {:induction false} RealOwner(c: Launch, n: nat, row: nat) returns (pid: nat)
    requires c.Valid() && n <= |c.seqLens| && row < c.Offset(n)
    ensures pid < n && Writes(c, pid, row)
  {
    if c.Offset(n - 1) <= row { pid := n - 1; } else { pid := RealOwner(c, n - 1, row); }
  }

  // Every row has exactly one writer.
  lemma OneWriter(c: Launch, row: nat) returns (pid: nat)
    requires c.Valid() && Fits(c) && row < c.rows
    ensures pid <= |c.seqLens| && Writes(c, pid, row)
    ensures forall other | 0 <= other <= |c.seqLens| && Writes(c, other, row) :: other == pid
  {
    if row < c.Offset(|c.seqLens|) { pid := RealOwner(c, |c.seqLens|, row); } else { pid := |c.seqLens|; }
    forall other | 0 <= other <= |c.seqLens| && Writes(c, other, row) ensures other == pid {
      SameWriter(c, pid, other, row);
    }
  }

  lemma SameWriter(c: Launch, a: nat, b: nat, row: nat)
    requires c.Valid() && Fits(c) && a <= |c.seqLens| && b <= |c.seqLens| && Writes(c, a, row) && Writes(c, b, row)
    ensures a == b
  {
    if a < b { OffsetsGrow(c, a + 1, b); }
    if b < a { OffsetsGrow(c, b + 1, a); }
  }

  // What the writer of a row puts there.
  function Stored(c: Launch, pid: nat, row: nat): Row
    requires c.Valid() && pid <= |c.seqLens| && Writes(c, pid, row)
  {
    if pid < |c.seqLens| then RequestRow(c, pid, row - First(c, pid)) else Row(1, 0, 0)
  }

  lemma {:induction false} FirstRowsAt(c: Launch, n: nat, pid: nat, row: nat)
    requires c.Valid() && pid < n <= |c.seqLens| && Writes(c, pid, row)
    ensures row < c.Offset(n) && FirstRows(c, n)[row] == Stored(c, pid, row)
  {
    if pid < n - 1 {
      FirstRowsAt(c, n - 1, pid, row);
    }
  }

  lemma LayoutAt(c: Launch, pid: nat, row: nat)
    requires c.Valid() && Fits(c) && pid <= |c.seqLens| && Writes(c, pid, row)
    ensures row < c.rows && Layout(c, 0)[row] == Stored(c, pid, row)
  {
    if pid < |c.seqLens| { FirstRowsAt(c, |c.seqLens|, pid, row); }
  }

  // --- The device kernel -----------------------------------------------------------

  class RowBuffers {
    const lengths: array<nat>
    const prefixes: array<nat>
    const requests: array<nat>

    constructor (rows: nat)
      ensures Valid(rows) && fresh(lengths) && fresh(prefixes) && fresh(requests)
    {
      lengths, prefixes, requests := new nat[rows], new nat[rows], new nat[rows];
    }

    predicate Valid(rows: nat) {
      && lengths.Length == prefixes.Length == requests.Length == rows
      && lengths != prefixes && prefixes != requests && requests != lengths
    }

    function At(row: nat): Row
      requires Valid(lengths.Length) && row < lengths.Length
      reads lengths, prefixes, requests
    {
      Row(lengths[row], prefixes[row], requests[row])
    }

    method Store(row: nat, r: Row)
      requires Valid(lengths.Length) && row < lengths.Length
      modifies lengths, prefixes, requests
      ensures At(row) == r
      ensures forall other | 0 <= other < lengths.Length && other != row :: At(other) == old(At(other))
    {
      lengths[row], prefixes[row], requests[row] := r.length, r.prefix, r.request;
    }
  }

  // One program instance.
  method Instance(c: Launch, pid: nat, b: RowBuffers)
    requires c.Valid() && Fits(c) && pid <= |c.seqLens| && b.Valid(c.rows)
    modifies b.lengths, b.prefixes, b.requests
    ensures forall row | 0 <= row < c.rows ::
              b.At(row) == if Writes(c, pid, row) then Stored(c, pid, row) else old(b.At(row))
  {
    var (bs, live) := (|c.seqLens|, c.Real());
    if c.mode.Decode? {
      DecodeOffsets(c, pid);
      if pid < bs {
        DecodeOffsets(c, pid + 1);
        var request := if pid < live then c.requests[pid] else 0;
        var length: int := if pid < live then c.seqLens[pid] else 1;
        b.Store(pid, Row(length, Max(length - 1, 0), request));
      }
      return;
    }
    if pid == bs {
      var start := TailStart(c);
      for row := start to c.rows
        invariant forall r | 0 <= r < c.rows :: b.At(r) == if start <= r < row then Row(1, 0, 0) else old(b.At(r))
      {
        b.Store(row, Row(1, 0, 0));
      }
      return;
    }
    var offset, n := RequestSpan(c, pid);
    OffsetsGrow(c, pid + 1, bs);
    var base: int := c.seqLens[pid];
    var (prefix, limit) := if c.mode.Verify? then (base, base + n) else (Max(base - n, 0), base);
    for j := 0 to n
      invariant forall r | 0 <= r < c.rows ::
        b.At(r) == if offset <= r < offset + j then RequestRow(c, pid, r - offset) else old(b.At(r))
    {
      b.Store(offset + j, Row(Arithmetic.Min(prefix + 1 + j, limit), prefix, c.requests[pid]));
    }
  }

  lemma {:induction false} DecodeOffsets(c: Launch, n: nat)
    requires c.Valid() && c.mode.Decode? && n <= |c.seqLens|
    ensures c.Offset(n) == n
  {
    if n > 0 { DecodeOffsets(c, n - 1); }
  }

  lemma {:induction false} VerifyOffsets(c: Launch, n: nat)
    requires c.Valid() && c.mode.Verify? && n <= |c.seqLens|
    ensures c.Offset(n) == Arithmetic.Min(n, c.Real()) * c.extendLen
  {
    if n > 0 {
      VerifyOffsets(c, n - 1);
      if n <= c.Real() { assert n * c.extendLen == (n - 1) * c.extendLen + c.extendLen; }
    }
  }

  lemma {:induction false} PaddingIsEmpty(c: Launch, n: nat)
    requires c.Valid() && !c.mode.Decode? && c.Real() <= n <= |c.seqLens|
    ensures c.Offset(n) == c.Offset(c.Real())
  {
    if c.Real() < n { PaddingIsEmpty(c, n - 1); }
  }

  // Where the tail instance starts: the extents of the real requests.
  method TailStart(c: Launch) returns (start: nat)
    requires c.Valid() && !c.mode.Decode?
    ensures start == c.Offset(|c.seqLens|)
  {
    if c.mode.Verify? {
      start := c.Real() * c.extendLen;
      VerifyOffsets(c, |c.seqLens|);
    } else {
      start := 0;
      for j := 0 to c.Real()
        invariant start == c.Offset(j)
      {
        start := start + c.extendLens[j];
      }
      PaddingIsEmpty(c, |c.seqLens|);
    }
  }

  // Where a request's rows start and how many there are.
  method RequestSpan(c: Launch, pid: nat) returns (offset: nat, n: nat)
    requires c.Valid() && !c.mode.Decode? && pid < |c.seqLens|
    ensures offset == c.Offset(pid) && n == c.Rows(pid)
  {
    if c.mode.Verify? {
      n := if pid < c.Real() then c.extendLen else 0;
      offset := Arithmetic.Min(pid, c.Real()) * c.extendLen;
      VerifyOffsets(c, pid);
    } else {
      offset, n := DraftExtendSpan(c, pid);
    }
  }

  method DraftExtendSpan(c: Launch, pid: nat) returns (offset: nat, n: nat)
    requires c.Valid() && c.mode.DraftExtend? && pid < |c.seqLens|
    ensures offset == c.Offset(pid) && n == c.Rows(pid)
  {
    n, offset := 0, 0;
    for j := 0 to |c.seqLens|
      invariant offset == c.Offset(if j < pid then j else pid)
      invariant n == if pid < j then c.Rows(pid) else 0
    {
      var e := if j < c.Real() then c.extendLens[j] else 0;
      assert e == c.Rows(j);
      offset := offset + if j < pid then e else 0;
      n := if j == pid then e else n;
    }
  }

  // Whatever order the instances run in, the buffers hold the layout.
  method LaunchKernel(c: Launch, order: seq<nat>, b: RowBuffers)
    requires c.Valid() && Fits(c) && b.Valid(c.rows)
    requires forall pid | 0 <= pid <= |c.seqLens| :: pid in order
    requires forall i | 0 <= i < |order| :: order[i] <= |c.seqLens|
    modifies b.lengths, b.prefixes, b.requests
    ensures forall row | 0 <= row < c.rows :: b.At(row) == Layout(c, 0)[row]
  {
    for i := 0 to |order|
      invariant forall k, row | 0 <= k < i && 0 <= row < c.rows && Writes(c, order[k], row) ::
                  b.At(row) == Layout(c, 0)[row]
    {
      Instance(c, order[i], b);
      forall k, row | 0 <= k < i + 1 && 0 <= row < c.rows && Writes(c, order[k], row)
        ensures b.At(row) == Layout(c, 0)[row]
      {
        if Writes(c, order[i], row) { LayoutAt(c, order[i], row); }
      }
    }
    forall row | 0 <= row < c.rows ensures b.At(row) == Layout(c, 0)[row] {
      var pid := OneWriter(c, row);
      assert pid in order;
      var k :| 0 <= k < |order| && order[k] == pid;
    }
  }

  // --- Any interleaving of stores ------------------------------------------------------

  // The stores of one instance, up to row `last`.
  function StoresUpTo(c: Launch, pid: nat, last: nat): (stores: seq<(nat, Row)>)
    requires c.Valid() && pid <= |c.seqLens| && First(c, pid) <= last <= Last(c, pid)
    ensures forall s | s in stores :: Writes(c, pid, s.0) && s.1 == Stored(c, pid, s.0)
    ensures forall row | First(c, pid) <= row < last :: (row, Stored(c, pid, row)) in stores
  {
    if last == First(c, pid) then [] else StoresUpTo(c, pid, last - 1) + [(last - 1, Stored(c, pid, last - 1))]
  }

  function InstanceStores(c: Launch, pid: nat): (stores: seq<(nat, Row)>)
    requires c.Valid() && Fits(c) && pid <= |c.seqLens|
    ensures forall s | s in stores :: Writes(c, pid, s.0) && s.1 == Stored(c, pid, s.0)
    ensures forall row: nat | Writes(c, pid, row) :: (row, Stored(c, pid, row)) in stores
  {
    StoresUpTo(c, pid, Last(c, pid))
  }

  function AllStores(c: Launch, n: nat): seq<(nat, Row)>
    requires c.Valid() && Fits(c) && n <= |c.seqLens| + 1
  {
    if n == 0 then [] else AllStores(c, n - 1) + InstanceStores(c, n - 1)
  }

  predicate StoredBy(c: Launch, pid: nat, s: (nat, Row))
    requires c.Valid() && pid <= |c.seqLens|
  {
    Writes(c, pid, s.0) && s.1 == Stored(c, pid, s.0)
  }

  lemma {:induction false} WriterOfStore(c: Launch, n: nat, s: (nat, Row)) returns (pid: nat)
    requires c.Valid() && Fits(c) && n <= |c.seqLens| + 1 && s in AllStores(c, n)
    ensures pid < n && StoredBy(c, pid, s)
  {
    if s in InstanceStores(c, n - 1) { pid := n - 1; } else { pid := WriterOfStore(c, n - 1, s); }
  }

  lemma {:induction false} StoreOfWriter(c: Launch, n: nat, pid: nat, s: (nat, Row))
    requires c.Valid() && Fits(c) && pid < n <= |c.seqLens| + 1 && StoredBy(c, pid, s)
    ensures s in AllStores(c, n)
  {
    if pid < n - 1 { StoreOfWriter(c, n - 1, pid, s); } else { assert s in InstanceStores(c, pid); }
  }

  // Every store is in bounds and holds the layout's row.
  lemma StoresAreLayout(c: Launch, s: (nat, Row))
    requires c.Valid() && Fits(c) && s in AllStores(c, |c.seqLens| + 1)
    ensures s.0 < c.rows && s.1 == Layout(c, 0)[s.0]
  {
    var pid := WriterOfStore(c, |c.seqLens| + 1, s);
    LayoutAt(c, pid, s.0);
  }

  // ... and every row is stored.
  lemma RowIsStored(c: Launch, row: nat)
    requires c.Valid() && Fits(c) && row < c.rows
    ensures (row, Layout(c, 0)[row]) in AllStores(c, |c.seqLens| + 1)
  {
    var pid := OneWriter(c, row);
    LayoutAt(c, pid, row);
    StoreOfWriter(c, |c.seqLens| + 1, pid, (row, Layout(c, 0)[row]));
  }

  // Two instances never store to one row, so the stores of all instances,
  // however they interleave, leave the layout behind.
  lemma AnyInterleaving(c: Launch, before: seq<Row>, order: seq<(nat, Row)>)
    requires c.Valid() && Fits(c) && |before| == c.rows
    requires multiset(order) == multiset(AllStores(c, |c.seqLens| + 1))
    ensures Scatter.InBounds(order, c.rows) && Scatter.Apply(before, order) == Layout(c, 0)
  {
    var stores := AllStores(c, |c.seqLens| + 1);
    forall s | s in stores ensures s.0 < c.rows && s.1 == Layout(c, 0)[s.0] { StoresAreLayout(c, s); }
    Scatter.AnyOrderIsOutcome(before, stores, order);
    forall row: nat | row < c.rows ensures Scatter.Apply(before, order)[row] == Layout(c, 0)[row] {
      RowIsStored(c, row);
      Scatter.Written(before, stores, Scatter.Apply(before, order), row, Layout(c, 0)[row]);
    }
  }

  // --- The host layout ---------------------------------------------------------------

  datatype Error = InconsistentTokenCount

  datatype HostLaunch = HostLaunch(mode: Mode, seqLens: seq<nat>, pool: seq<nat>, extendLensCpu: seq<nat>,
                                   hasExtendLens: bool, extendLen: nat, rows: nat, padding: int)
  {
    predicate Valid() {
      !mode.Decode? && |seqLens| <= |pool|
    }

    function Real(): (n: nat)
      ensures n <= |seqLens|
    {
      |seqLens| - Max(0, Arithmetic.Min(padding, |seqLens|))
    }

    // How many rows request i gets, ...
    function RowsOf(i: nat): nat
      requires i < |seqLens|
    {
      if Real() <= i then 0
      else if mode.Verify? then extendLen
      else if !hasExtendLens then rows / |seqLens|
      else if i < |extendLensCpu| then extendLensCpu[i]
      else 0
    }

    // ... where they begin, ...
    function Start(i: nat): nat
      requires i <= |seqLens|
    {
      if i == 0 then 0 else Start(i - 1) + RowsOf(i - 1)
    }

    // ... and its length with them.
    function Limit(i: nat): nat
      requires i < |seqLens|
    {
      if mode.Verify? then seqLens[i] + RowsOf(i) else seqLens[i]
    }

    function Dummy(): nat {
      if pool == [] then 0 else pool[0]
    }

    // Row j of request i, from the launch alone.
    function RowAt(i: nat, j: nat): Row
      requires |seqLens| <= |pool| && i < |seqLens|
    {
      var prefix := Max(Limit(i) - RowsOf(i), 0);
      Row(Arithmetic.Min(prefix + 1 + j, Limit(i)), prefix, pool[i])
    }

    // The device launch for the same batch.
    function Device(): (c: Launch)
      requires Valid()
      ensures c.Valid() && c.Real() == Real()
    {
      Launch(mode, seqLens, pool[..|seqLens|], seq(|seqLens|, i requires 0 <= i < |seqLens| => RowsOf(i)), extendLen,
             rows, |seqLens| - Real())
    }
  }

  lemma {:induction false} SameStarts(h: HostLaunch, n: nat)
    requires h.Valid() && n <= |h.seqLens|
    ensures h.Start(n) == h.Device().Offset(n)
    ensures forall i | 0 <= i < n :: h.RowsOf(i) == h.Device().Rows(i)
  {
    if n > 0 { SameStarts(h, n - 1); }
  }

  // The lengths prefix + 1, prefix + 2, ... of n rows, none above the limit.
  function RowLengths(prefix: nat, n: nat, limit: nat): (lengths: seq<nat>)
    ensures |lengths| == n && forall j | 0 <= j < n :: lengths[j] == Arithmetic.Min(prefix + 1 + j, limit)
  {
    if n == 0 then [] else RowLengths(prefix, n - 1, limit) + [Arithmetic.Min(prefix + n, limit)]
  }

  function Repeat(value: nat, n: nat): seq<nat> {
    seq(n, _ => value)
  }

  // Three lists that describe rows, column by column.
  predicate Columns(lengths: seq<nat>, requests: seq<nat>, prefixes: seq<nat>, rows: seq<Row>) {
    && |lengths| == |requests| == |prefixes| == |rows|
    && forall k | 0 <= k < |rows| :: Row(lengths[k], prefixes[k], requests[k]) == rows[k]
  }

  lemma ColumnsAppend(a: (seq<nat>, seq<nat>, seq<nat>), rows: seq<Row>, b: (seq<nat>, seq<nat>, seq<nat>),
        more: seq<Row>)
    requires Columns(a.0, a.1, a.2, rows) && Columns(b.0, b.1, b.2, more)
    ensures Columns(a.0 + b.0, a.1 + b.1, a.2 + b.2, rows + more)
  {
  }

  lemma HostRequest(h: HostLaunch, i: nat, n: nat, prefix: nat, effective: nat)
    requires h.Valid() && i < |h.seqLens| && n == h.Device().Rows(i)
    requires effective == (if h.mode.Verify? then h.seqLens[i] + n else h.seqLens[i]) && prefix == Max(effective - n, 0)
    ensures Columns(RowLengths(prefix, n, effective), Repeat(h.pool[i], n), Repeat(prefix, n),
                    RequestRows(h.Device(), i))
  {
  }

  // The extents: those of the mode, then zeros for the padding requests.
  method HostExtents(h: HostLaunch) returns (extents: seq<nat>)
    requires h.Valid()
    ensures |extents| == |h.seqLens| && forall i | 0 <= i < |extents| :: extents[i] == h.RowsOf(i)
  {
    var bs := |h.seqLens|;
    if h.mode.Verify? {
      extents := Repeat(h.extendLen, bs);
    } else if h.hasExtendLens {
      extents := h.extendLensCpu[..Arithmetic.Min(bs, |h.extendLensCpu|)];
      if |extents| < bs { extents := extents + Repeat(0, bs - |extents|); }
    } else {
      extents := Repeat(h.rows / Max(bs, 1), bs);
    }
    var padding := Max(0, Arithmetic.Min(h.padding, bs));
    if padding != 0 { extents := extents[..bs - padding] + Repeat(0, padding); }
  }

  // What the three columns say: request by request the rows of the launch, then
  // dummy rows.
  predicate DescribesRows(h: HostLaunch, lengths: seq<nat>, requests: seq<nat>, prefixes: seq<nat>)
    requires h.Valid()
  {
    && |lengths| == |requests| == |prefixes| == h.rows
    && (forall i: nat, j: nat | i < |h.seqLens| && j < h.RowsOf(i) ::
          HostRowAt(lengths, requests, prefixes, h.Start(i) + j, h.RowAt(i, j)))
    && (forall k: nat | h.Start(|h.seqLens|) <= k < h.rows ::
          HostRowAt(lengths, requests, prefixes, k, Row(1, 0, h.Dummy())))
  }

  predicate HostRowAt(lengths: seq<nat>, requests: seq<nat>, prefixes: seq<nat>, k: nat, row: Row)
    requires |lengths| == |requests| == |prefixes|
  {
    k < |lengths| && Row(lengths[k], prefixes[k], requests[k]) == row
  }

  lemma LayoutDescribesRows(h: HostLaunch, lengths: seq<nat>, requests: seq<nat>, prefixes: seq<nat>)
    requires h.Valid() && Fits(h.Device())
    requires Columns(lengths, requests, prefixes, Layout(h.Device(), h.Dummy()))
    ensures DescribesRows(h, lengths, requests, prefixes)
  {
    var (c, bs) := (h.Device(), |h.seqLens|);
    SameStarts(h, bs);
    forall i: nat, j: nat | i < bs && j < h.RowsOf(i)
      ensures HostRowAt(lengths, requests, prefixes, h.Start(i) + j, h.RowAt(i, j))
    {
      SameStarts(h, i);
      FirstRowsAt(c, bs, i, c.Offset(i) + j);
    }
  }

  // `_graph_speculative_layout`: a loop over the requests appends row lengths and
  // prefixes; an inconsistent row count is an error.
  method HostLayout(h: HostLaunch) returns (r: Result<(seq<nat>, seq<nat>, seq<nat>), Error>)
    requires h.Valid()
    ensures r.Ok? <==> h.Start(|h.seqLens|) <= h.rows
    ensures r.Ok? ==> DescribesRows(h, r.value.0, r.value.1, r.value.2)
    ensures r.Ok? ==> Fits(h.Device()) && Columns(r.value.0, r.value.1, r.value.2, Layout(h.Device(), h.Dummy()))
  {
    var bs := |h.seqLens|;
    var extents := HostExtents(h);
    ghost var c := h.Device();
    SameStarts(h, bs);
    var lengths: seq<nat>, prefixes: seq<nat>, requests: seq<nat> := [], [], [];
    for i := 0 to bs
      invariant Columns(lengths, requests, prefixes, FirstRows(c, i))
    {
      var n := extents[i];
      var effective: int := if h.mode.Verify? then h.seqLens[i] + n else h.seqLens[i];
      var prefix: nat := Max(effective - n, 0);
      var own: (seq<nat>, seq<nat>, seq<nat>) :=
        (RowLengths(prefix, n, effective), Repeat(h.pool[i], n), Repeat(prefix, n));
      HostRequest(h, i, n, prefix, effective);
      ColumnsAppend((lengths, requests, prefixes), FirstRows(c, i), own, RequestRows(c, i));
      lengths, requests, prefixes := lengths + own.0, requests + own.1, prefixes + own.2;
    }
    if |lengths| > h.rows { return Err(InconsistentTokenCount); }
    var tail := h.rows - |lengths|;
    var dummy := if h.pool == [] then 0 else h.pool[0];
    ColumnsAppend((lengths, requests, prefixes), FirstRows(c, bs),
                  (Repeat(1, tail), Repeat(dummy, tail), Repeat(0, tail)), Tail(c, dummy));
    lengths, prefixes := lengths + Repeat(1, tail), prefixes + Repeat(0, tail);
    requests := requests + Repeat(dummy, tail);
    LayoutDescribesRows(h, lengths, requests, prefixes);
    return Ok((lengths, requests, prefixes));
  }

  // The two layouts agree in every length and prefix and in the request of every
  // real row; in the tail's requests they agree exactly when the host's dummy is
  // the reserved request 0 or there is no tail.
  lemma HostAndDeviceAgree(c: Launch, dummy: nat)
    requires c.Valid() && Fits(c)
    ensures forall i | 0 <= i < c.rows ::
              && Layout(c, 0)[i].length == Layout(c, dummy)[i].length
              && Layout(c, 0)[i].prefix == Layout(c, dummy)[i].prefix
              && (i < c.Offset(|c.seqLens|) ==> Layout(c, 0)[i] == Layout(c, dummy)[i])
    ensures Layout(c, 0) == Layout(c, dummy) <==> dummy == 0 || c.Offset(|c.seqLens|) == c.rows
  {
    var tail := c.Offset(|c.seqLens|);
    if tail < c.rows {
      assert Layout(c, 0)[tail].request == 0 && Layout(c, dummy)[tail].request == dummy;
    }
  }

  // The kernel does not check the row count: its instances stay inside the
  // buffers exactly when the host layout does not raise.
  lemma StoresFitExactly(c: Launch)
    requires c.Valid()
    ensures Fits(c) <==> forall pid, row | 0 <= pid < |c.seqLens| && 0 <= row && Writes(c, pid, row) :: row < c.rows
  {
    var bs := |c.seqLens|;
    if Fits(c) {
      forall pid, row | 0 <= pid < bs && 0 <= row && Writes(c, pid, row) ensures row < c.rows {
        OffsetsGrow(c, pid + 1, bs);
      }
    } else {
      var pid := RealOwner(c, bs, c.Offset(bs) - 1);
      assert Writes(c, pid, c.Offset(bs) - 1);
    }
  }
}
