/** Staged graph replays and eager prefetches. Before each replay the rows of the
    batch are copied on the prefetch stream into the buffer the graph was captured
    with, and the graph on the compute stream waits for one shared event before it
    reads. An eager prefetch copies on the same stream and is consumed later. */
module GraphReplay {
  import opened Options

  type Row(==, 0, !new)

  // How a gather goes. `begin_gather` refuses one that exceeds the staging buffer
  // or lands on a slot whose last gather failed, and then there is no ticket; with
  // a ticket, the page reader fails or delivers the rows.
  datatype Gather = Refused | Failed | Delivered

  // What the model asks of the layer, in order. `rows` are the rows to look up
  // (None: the batch has no layer input). Start and Consume are the eager path.
  datatype Call =
    | Replay(size: nat, rows: Option<seq<Row>>, gather: Gather)
    | Start(lookups: seq<Row>, gather: Gather)
    | Consume

  // `captured` holds the buffer sizes the graphs were captured with; all eager
  // prefetches share one buffer of `eager` rows.
  datatype Config = Config(calls: seq<Call>, captured: set<nat>, eager: nat) {
    predicate Valid() {
      forall k | 0 <= k < |calls| && calls[k].Start? :: |calls[k].lookups| <= eager
    }
  }

  datatype Buffer = Graph(size: nat) | Eager

  datatype Stream = Prefetch | Compute

  datatype Op =
    | WaitStream(on: Stream)
    | Copy
    | Record
    | WaitEvent(at: nat)
      // A graph, or the consumer of an eager prefetch, reads what call `of` copied.
    | Read(of: nat)

  datatype Entry = Entry(call: nat, stream: Stream, op: Op)

  // How a call ends. A replay that raises may have made the prefetch stream wait.
  datatype Outcome =
    | Skipped | Raised(waits: bool)
    | Returned | Staged
    | Started | Lost
    | Consumed(of: nat)

  // --- The host ---------------------------------------------------------------

  // The eager prefetch that waits to be consumed after n calls. It is stored once
  // it has a ticket, and cleared once its gather has delivered.
  function Pending(c: Config, n: nat): (pending: Option<nat>)
    requires n <= |c.calls|
    ensures pending.Some? ==> pending.value < n && c.calls[pending.value].Start?
  {
    if n == 0 then None
    else
      var before := Pending(c, n - 1);
      match c.calls[n - 1]
      case Start(rows, gather) => if before.Some? || rows == [] || gather.Refused? then before else Some(n - 1)
      case Consume => if before.Some? && c.calls[before.value].gather.Delivered? then None else before
      case Replay(_, _, _) => before
  }

  // How `prepare_ssd_stream_graph_replay`, `start_prefetch` or
  // `_consume_prefetched_embeddings` leaves call k.
  function Result(c: Config, k: nat): Outcome
    requires k < |c.calls|
  {
    var pending := Pending(c, k);
    match c.calls[k]
    case Replay(size, rows, gather) =>
      if pending.Some? || size !in c.captured then Raised(false)
      else if rows.None? || |rows.value| == 0 then Returned
      else if |rows.value| > size || !gather.Delivered? then Raised(true)
      else Staged
    case Start(rows, gather) =>
      if pending.Some? then Raised(false)
      else if rows == [] then Skipped
      else if gather.Refused? then Raised(false)
      else if gather.Failed? then Lost
      else Started
    case Consume =>
      if pending.Some? && c.calls[pending.value].gather.Delivered? then Consumed(pending.value) else Raised(false)
  }

  // Calls that copy rows into a buffer.
  predicate Moves(c: Config, k: nat)
    requires k < |c.calls|
  {
    Result(c, k) == Staged || Result(c, k) == Started
  }

  function Rows(c: Config, k: nat): seq<Row>
    requires k < |c.calls| && Moves(c, k)
  {
    if c.calls[k].Start? then c.calls[k].lookups else c.calls[k].rows.value
  }

  // The buffer a call copies to or reads, and how much of it is read.
  function Target(c: Config, k: nat): Buffer
    requires k < |c.calls| && !c.calls[k].Consume?
  {
    if c.calls[k].Start? then Eager else Graph(c.calls[k].size)
  }

  function Extent(c: Config, k: nat): nat
    requires k < |c.calls| && !c.calls[k].Consume?
  {
    if c.calls[k].Start? then |c.calls[k].lookups| else c.calls[k].size
  }

  // The work that call k enqueues before a graph is launched. The copy of an eager
  // prefetch is launched by the worker some time before it is consumed; until then
  // nothing else is enqueued on its stream.
  function Prepared(c: Config, k: nat): seq<Entry>
    requires k < |c.calls|
  {
    var wait := Entry(k, Prefetch, WaitStream(Compute));
    match Result(c, k)
    case Skipped => []
    case Raised(waits) => if waits then [wait] else []
    case Returned => [wait, Entry(k, Prefetch, Record)]
    case Staged => [wait, Entry(k, Prefetch, Copy), Entry(k, Prefetch, Record)]
    case Started => [wait, Entry(k, Prefetch, Copy)]
    case Lost => [wait]
    case Consumed(of) => [Entry(k, Compute, WaitStream(Prefetch)), Entry(k, Compute, Read(of))]
  }

  // The latest record of the event is what a wait enqueued now waits for.
  function LatestRecord(program: seq<Entry>): nat {
    if program == [] then 0
    else if program[|program| - 1].op.Record? then |program| - 1
    else LatestRecord(program[..|program| - 1])
  }

  predicate Launches(c: Config, k: nat)
    requires k < |c.calls|
  {
    Result(c, k) == Returned || Result(c, k) == Staged
  }

  // Launching the graph, if preparing it returned.
  function Launched(c: Config, k: nat, program: seq<Entry>): seq<Entry>
    requires k < |c.calls|
  {
    if Launches(c, k)
    then [Entry(k, Compute, WaitEvent(LatestRecord(program))), Entry(k, Compute, Read(k))]
    else []
  }

  function Segment(c: Config, k: nat, program: seq<Entry>): (segment: seq<Entry>)
    requires k < |c.calls|
    ensures |segment| == Length(c, k)
  {
    Prepared(c, k) + Launched(c, k, program + Prepared(c, k))
  }

  // How many entries call k enqueues, and where they begin.
  function Length(c: Config, k: nat): nat
    requires k < |c.calls|
  {
    match Result(c, k)
    case Skipped => 0
    case Raised(waits) => if waits then 1 else 0
    case Returned => 4
    case Staged => 5
    case Started => 2
    case Lost => 1
    case Consumed(_) => 2
  }

  function Begin(c: Config, k: nat): nat
    requires k <= |c.calls|
  {
    if k == 0 then 1 else Begin(c, k - 1) + Length(c, k - 1)
  }

  // Everything enqueued by the first n calls, in host order. The layer records
  // its event once when it is built.
  function Program(c: Config, n: nat): (program: seq<Entry>)
    requires n <= |c.calls|
    ensures |program| == Begin(c, n)
  {
    if n == 0 then [Entry(0, Compute, Record)]
    else Program(c, n - 1) + Segment(c, n - 1, Program(c, n - 1))
  }

  // What the proofs use of a program: call k's entries are its segment, resolved
  // against everything before it.
  predicate SegmentAt(c: Config, p: seq<Entry>, k: nat)
    requires k < |c.calls|
  {
    && Begin(c, k) + Length(c, k) <= |p|
    && p[Begin(c, k)..Begin(c, k) + Length(c, k)] == Segment(c, k, p[..Begin(c, k)])
  }

  predicate IsProgram(c: Config, p: seq<Entry>, n: nat)
    requires n <= |c.calls|
  {
    && |p| == Begin(c, n) && 0 < |p| && p[0] == Entry(0, Compute, Record)
    && forall k: nat | k < n :: SegmentAt(c, p, k)
  }

  // The host never looks at the streams, so its program is fixed in advance.
  lemma {:induction false} ProgramIs(c: Config, n: nat)
    requires n <= |c.calls|
    ensures IsProgram(c, Program(c, n), n)
  {
    if n > 0 {
      ProgramIs(c, n - 1);
      var earlier := Program(c, n - 1);
      ProgramExtends(c, earlier, n);
    }
  }

  lemma ProgramExtends(c: Config, p: seq<Entry>, n: nat)
    requires 0 < n <= |c.calls| && IsProgram(c, p, n - 1)
    ensures IsProgram(c, p + Segment(c, n - 1, p), n)
  {
    var segment := Segment(c, n - 1, p);
    var all := p + segment;
    forall k: nat | k < n ensures SegmentAt(c, all, k) {
      if k < n - 1 { SegmentStays(c, p, segment, k); } else { LastSegment(c, p, k); }
    }
  }

  lemma LastSegment(c: Config, p: seq<Entry>, k: nat)
    requires k < |c.calls| && |p| == Begin(c, k)
    ensures SegmentAt(c, p + Segment(c, k, p), k)
  {
    var segment := Segment(c, k, p);
    assert (p + segment)[..|p|] == p && (p + segment)[|p|..|p| + |segment|] == segment;
  }

  lemma SegmentStays(c: Config, p: seq<Entry>, more: seq<Entry>, k: nat)
    requires k < |c.calls| && SegmentAt(c, p, k)
    ensures SegmentAt(c, p + more, k)
  {
    var (a, b) := (Begin(c, k), Begin(c, k) + Length(c, k));
    assert (p + more)[a..b] == p[a..b] && (p + more)[..a] == p[..a];
  }

  lemma {:induction false} BeginGrows(c: Config, k: nat, n: nat)
    requires k <= n <= |c.calls|
    ensures Begin(c, k) <= Begin(c, n)
  {
    if k < n { BeginGrows(c, k, n - 1); }
  }

  // The call whose segment an index falls into.
  lemma {:induction false} CallOf(c: Config, n: nat, i: nat) returns (k: nat)
    requires n <= |c.calls| && 0 < i < Begin(c, n)
    ensures k < n && Begin(c, k) <= i < Begin(c, k + 1)
  {
    if Begin(c, n - 1) <= i { k := n - 1; } else { k := CallOf(c, n - 1, i); }
  }

  // --- Where the entries of a call stand -----------------------------------------

  predicate StagedAt(p: seq<Entry>, k: nat, b: nat) {
    && b + 5 <= |p|
    && p[b] == Entry(k, Prefetch, WaitStream(Compute))
    && p[b + 1] == Entry(k, Prefetch, Copy)
    && p[b + 2] == Entry(k, Prefetch, Record)
    && p[b + 3] == Entry(k, Compute, WaitEvent(b + 2))
    && p[b + 4] == Entry(k, Compute, Read(k))
  }

  predicate StartedAt(p: seq<Entry>, k: nat, b: nat) {
    && b + 2 <= |p|
    && p[b] == Entry(k, Prefetch, WaitStream(Compute))
    && p[b + 1] == Entry(k, Prefetch, Copy)
  }

  predicate ConsumedAt(p: seq<Entry>, k: nat, of: nat, b: nat) {
    && b + 2 <= |p|
    && p[b] == Entry(k, Compute, WaitStream(Prefetch))
    && p[b + 1] == Entry(k, Compute, Read(of))
  }

  lemma StagedLength(c: Config, k: nat)
    requires k < |c.calls| && Result(c, k) == Staged
    ensures Length(c, k) == 5 && Begin(c, k + 1) == Begin(c, k) + 5
  {
  }

  lemma StagedSegmentIs(c: Config, k: nat, program: seq<Entry>)
    requires k < |c.calls| && Result(c, k) == Staged
    ensures Segment(c, k, program) ==
            [Entry(k, Prefetch, WaitStream(Compute)), Entry(k, Prefetch, Copy), Entry(k, Prefetch, Record),
             Entry(k, Compute, WaitEvent(|program| + 2)), Entry(k, Compute, Read(k))]
  {
    var prepared := program + Prepared(c, k);
    assert prepared[|prepared| - 1] == Entry(k, Prefetch, Record);
    assert LatestRecord(prepared) == |program| + 2;
  }

  // A staged call waits for compute, copies, records; its graph waits for that
  // very record, which is behind this batch's copy, and then reads.
  lemma StagedSegment(c: Config, p: seq<Entry>, k: nat)
    requires k < |c.calls| && Result(c, k) == Staged && SegmentAt(c, p, k)
    ensures StagedAt(p, k, Begin(c, k))
  {
    var b := Begin(c, k);
    StagedLength(c, k);
    StagedSegmentIs(c, k, p[..b]);
    var segment := p[b..b + 5];
    assert segment == Segment(c, k, p[..b]);
    assert segment[0] == p[b] && segment[1] == p[b + 1] && segment[2] == p[b + 2];
    assert segment[3] == p[b + 3] && segment[4] == p[b + 4];
  }

  // An eager prefetch waits for compute and copies ...
  lemma StartedSegment(c: Config, p: seq<Entry>, k: nat)
    requires k < |c.calls| && Result(c, k) == Started && SegmentAt(c, p, k)
    ensures StartedAt(p, k, Begin(c, k)) && Begin(c, k + 1) == Begin(c, k) + 2
  {
    var b := Begin(c, k);
    var segment := p[b..b + 2];
    assert segment == Segment(c, k, p[..b]);
    assert segment[0] == p[b] && segment[1] == p[b + 1];
  }

  // ... and its consumer waits for all that is on the prefetch stream, and reads.
  lemma ConsumedSegment(c: Config, p: seq<Entry>, k: nat)
    requires k < |c.calls| && Result(c, k).Consumed? && SegmentAt(c, p, k)
    ensures ConsumedAt(p, k, Result(c, k).of, Begin(c, k)) && Begin(c, k + 1) == Begin(c, k) + 2
  {
    var b := Begin(c, k);
    var segment := p[b..b + 2];
    assert segment == Segment(c, k, p[..b]);
    assert segment[0] == p[b] && segment[1] == p[b + 1];
  }

  lemma SegmentEntry(c: Config, k: nat, program: seq<Entry>, i: nat)
    requires k < |c.calls| && i < |Segment(c, k, program)|
    ensures var (segment, e) := (Segment(c, k, program), Segment(c, k, program)[i]);
      && e.call == k
      && (e.op.Copy? ==> Moves(c, k) && i == 1)
      && (e.op.Read? ==>
            i == |segment| - 1 && if Launches(c, k) then e.op.of == k else Result(c, k) == Consumed(e.op.of))
  {
  }

  // A copy, or a read, stands where its call put it.
  predicate Home(c: Config, e: Entry, i: nat) {
    && e.call < |c.calls| && Begin(c, e.call) <= i < Begin(c, e.call + 1)
    && (e.op.Copy? ==> Moves(c, e.call) && i == Begin(c, e.call) + 1)
    && (e.op.Read? ==>
          i == Begin(c, e.call + 1) - 1
          && if Launches(c, e.call) then e.op.of == e.call else Result(c, e.call) == Consumed(e.op.of))
  }

  lemma EntryHome(c: Config, p: seq<Entry>, i: nat)
    requires IsProgram(c, p, |c.calls|) && 0 < i < |p|
    ensures Home(c, p[i], i)
  {
    var k := CallOf(c, |c.calls|, i);
    EntryOfSegment(c, p, k, i);
    SegmentEntry(c, k, p[..Begin(c, k)], i - Begin(c, k));
  }

  lemma EntryOfSegment(c: Config, p: seq<Entry>, k: nat, i: nat)
    requires IsProgram(c, p, |c.calls|) && k < |c.calls| && Begin(c, k) <= i < Begin(c, k + 1) && i < |p|
    ensures i - Begin(c, k) < Length(c, k) && p[i] == Segment(c, k, p[..Begin(c, k)])[i - Begin(c, k)]
  {
    assert SegmentAt(c, p, k);
    var b := Begin(c, k);
    assert p[b..b + Length(c, k)][i - b] == p[i];
  }

  // A copy runs on the prefetch stream, right behind a wait for compute.
  lemma CopyHome(c: Config, p: seq<Entry>, i: nat)
    requires IsProgram(c, p, |c.calls|) && i < |p| && p[i].op.Copy?
    ensures var k := p[i].call;
      && k < |c.calls| && Moves(c, k) && i == Begin(c, k) + 1
      && p[i] == Entry(k, Prefetch, Copy) && p[i - 1] == Entry(k, Prefetch, WaitStream(Compute))
  {
    EntryHome(c, p, i);
    var k := p[i].call;
    assert SegmentAt(c, p, k);
    if Result(c, k) == Staged { StagedSegment(c, p, k); } else { StartedSegment(c, p, k); }
  }

  // The entry before a read waits for the copy: for its record, or for its stream.
  predicate WaitsFor(p: seq<Entry>, copy: nat, r: nat) {
    && copy + 1 < r < |p| && p[r - 1].stream == Compute
    && (p[r - 1].op == WaitStream(Prefetch) || (p[r - 1].op == WaitEvent(copy + 1) && p[copy + 1].stream == Prefetch))
  }

  // No call between a pending prefetch and its consumer copies anything.
  lemma {:induction false} PendingIsLast(c: Config, n: nat, k: nat, x: nat)
    requires n <= |c.calls| && Pending(c, n) == Some(k)
    ensures c.calls[k].Start? && (Result(c, k) == Started || Result(c, k) == Lost)
    ensures k < x < n ==> !Moves(c, x)
  {
    if k < n - 1 { PendingIsLast(c, n - 1, k, x); }
  }

  // What a read reads: call `of`, copied by the latest call that copies.
  predicate Reads(c: Config, m: nat, of: nat) {
    m < |c.calls| && (if Launches(c, m) then of == m else Result(c, m) == Consumed(of))
  }

  lemma ReadsLatest(c: Config, m: nat, of: nat, x: nat)
    requires Reads(c, m, of) && of < |c.calls| && Moves(c, of) && x < |c.calls| && Moves(c, x) && of < x
    ensures m < x
  {
    if !Launches(c, m) { PendingIsLast(c, m, of, x); }
  }

  // A read of a call that copies waits for the copy.
  lemma ReadHome(c: Config, p: seq<Entry>, r: nat)
    requires IsProgram(c, p, |c.calls|) && r < |p| && p[r].op.Read?
    ensures Reads(c, p[r].call, p[r].op.of) && p[r].op.of < |c.calls| && !c.calls[p[r].op.of].Consume?
    ensures r + 1 == Begin(c, p[r].call + 1)
    ensures Moves(c, p[r].op.of) ==>
      var copy := Begin(c, p[r].op.of) + 1;
      p[r].stream == Compute && WaitsFor(p, copy, r) && p[copy] == Entry(p[r].op.of, Prefetch, Copy)
  {
    EntryHome(c, p, r);
    var (m, k) := (p[r].call, p[r].op.of);
    assert SegmentAt(c, p, m);
    if Result(c, m) == Staged {
      StagedSegment(c, p, m);
    } else if Result(c, m).Consumed? {
      PendingIsLast(c, m, k, k);
      ConsumedSegment(c, p, m);
      if Moves(c, k) {
        assert SegmentAt(c, p, k);
        StartedSegment(c, p, k);
        BeginGrows(c, k + 1, m);
      }
    }
  }

  // --- The streams ------------------------------------------------------------

  datatype State = State(
    enqueued: nat,
    done: seq<bool>,
    progress: seq<nat>,
    buffers: map<Buffer, seq<Row>>,
      // What each read has seen so far, by the index of its entry.
    seen: map<nat, seq<Row>>)

  predicate Shaped(p: seq<Entry>, s: State) {
    |s.done| == |s.progress| == |p| && s.enqueued <= |p|
  }

  // A stream runs in order; a stream wait is behind all that was enqueued on
  // the other stream, an event wait behind the record it was resolved to.
  predicate Before(p: seq<Entry>, i: nat, j: nat)
    requires i < |p| && j < |p|
  {
    (i < j && (p[i].stream == p[j].stream || p[j].op == WaitStream(p[i].stream))) || p[j].op == WaitEvent(i)
  }

  predicate Runnable(p: seq<Entry>, s: State, j: nat)
    requires Shaped(p, s)
  {
    j < s.enqueued && !s.done[j] && forall i | 0 <= i < |p| && Before(p, i, j) :: s.done[i]
  }

  // The buffer of a call is there, in its size.
  predicate HasBuffer(c: Config, s: State, k: nat) {
    && k < |c.calls| && !c.calls[k].Consume? && Target(c, k) in s.buffers
    && |s.buffers[Target(c, k)]| == (if c.calls[k].Start? then c.eager else c.calls[k].size)
    && Extent(c, k) <= |s.buffers[Target(c, k)]|
  }

  predicate Enabled(c: Config, p: seq<Entry>, s: State, j: nat) {
    && Shaped(p, s) && Runnable(p, s, j)
    && match p[j].op
       case Copy => HasBuffer(c, s, p[j].call) && Moves(c, p[j].call) && |Rows(c, p[j].call)| <= Extent(c, p[j].call)
       case Read(k) => HasBuffer(c, s, k) && j in s.seen
       case _ => true
  }

  // One row of a copy or of a read, or the end of an entry.
  function Next(c: Config, p: seq<Entry>, s: State, j: nat): State
    requires Enabled(c, p, s, j)
  {
    var (e, row) := (p[j], s.progress[j]);
    var finished := s.(done := s.done[j := true]);
    match e.op
    case Copy =>
      var (target, rows) := (Target(c, e.call), Rows(c, e.call));
      if row < |rows| then
        s.(buffers := s.buffers[target := s.buffers[target][row := rows[row]]], progress := s.progress[j := row + 1])
      else finished
    case Read(k) =>
      if row < Extent(c, k) then
        s.(seen := s.seen[j := s.seen[j] + [s.buffers[Target(c, k)][row]]], progress := s.progress[j := row + 1])
      else finished
    case _ => finished
  }

  function Issue(s: State): State {
    s.(enqueued := s.enqueued + 1)
  }

  ghost predicate Step(c: Config, p: seq<Entry>, s: State, t: State) {
    || (s.enqueued < |p| && t == Issue(s))
    || exists j: nat :: Enabled(c, p, s, j) && t == Next(c, p, s, j)
  }

  predicate BuffersThere(c: Config, s: State) {
    && (forall size | size in c.captured :: Graph(size) in s.buffers && |s.buffers[Graph(size)]| == size)
    && Eager in s.buffers && |s.buffers[Eager]| == c.eager
  }

  ghost predicate Initial(c: Config, p: seq<Entry>, s: State) {
    && Shaped(p, s) && s.enqueued == 0 && BuffersThere(c, s)
    && (forall i | 0 <= i < |p| :: !s.done[i] && s.progress[i] == 0 && i in s.seen && s.seen[i] == [])
  }

  // A run of the streams on the program that the host enqueues.
  ghost predicate Run(c: Config, p: seq<Entry>, states: seq<State>) {
    && c.Valid() && p == Program(c, |c.calls|) && states != [] && Initial(c, p, states[0])
    && forall i | 0 <= i < |states| - 1 :: Step(c, p, states[i], states[i + 1])
  }

  // --- Invariant ----------------------------------------------------------------

  predicate Underway(s: State, i: nat)
    requires i < |s.done| && |s.done| == |s.progress|
  {
    s.done[i] || s.progress[i] > 0
  }

  predicate InOrder(p: seq<Entry>, s: State, i: nat, j: nat)
    requires Shaped(p, s) && i < |p| && j < |p|
  {
    Before(p, i, j) && Underway(s, j) ==> s.done[i]
  }

  predicate AllInOrder(p: seq<Entry>, s: State)
    requires Shaped(p, s)
  {
    forall i, j | 0 <= i < |p| && 0 <= j < |p| :: InOrder(p, s, i, j)
  }

  predicate LaterCopyStarted(p: seq<Entry>, s: State, i: nat)
    requires Shaped(p, s)
  {
    exists j | i < j < |p| :: p[j].op.Copy? && Underway(s, j)
  }

  // Rows are in their buffer from when they are copied until the next copy starts.
  predicate CopyData(c: Config, p: seq<Entry>, s: State, i: nat)
    requires Shaped(p, s) && i < |p|
  {
    var k := p[i].call;
    && HasBuffer(c, s, k) && Moves(c, k) && |Rows(c, k)| <= Extent(c, k)
    && s.progress[i] <= |Rows(c, k)| && (s.done[i] ==> s.progress[i] == |Rows(c, k)|)
    && (!LaterCopyStarted(p, s, i) ==>
          s.buffers[Target(c, k)][..s.progress[i]] == Rows(c, k)[..s.progress[i]])
  }

  // What a read has seen of the copied rows is right.
  predicate ReadData(c: Config, p: seq<Entry>, s: State, r: nat, k: nat)
    requires Shaped(p, s) && r < |p|
  {
    && HasBuffer(c, s, k) && r in s.seen
    && |s.seen[r]| == s.progress[r] <= Extent(c, k) && (s.done[r] ==> s.progress[r] == Extent(c, k))
    && (Moves(c, k) ==> forall i | 0 <= i < |s.seen[r]| && i < |Rows(c, k)| :: s.seen[r][i] == Rows(c, k)[i])
  }

  predicate EntryData(c: Config, p: seq<Entry>, s: State, i: nat)
    requires Shaped(p, s) && i < |p|
  {
    match p[i].op
    case Copy => CopyData(c, p, s, i)
    case Read(k) => ReadData(c, p, s, i, k)
    case _ => true
  }

  ghost predicate Inv(c: Config, p: seq<Entry>, s: State) {
    && IsProgram(c, p, |c.calls|)
    && Shaped(p, s) && AllInOrder(p, s)
    && forall i | 0 <= i < |p| :: EntryData(c, p, s, i)
  }

  lemma CallOrder(c: Config, k: nat, m: nat)
    requires k < |c.calls| && m < |c.calls|
    ensures m < k ==> Begin(c, m + 1) <= Begin(c, k)
    ensures k < m ==> Begin(c, k + 1) <= Begin(c, m)
  {
    if m < k { BeginGrows(c, m + 1, k); }
    if k < m { BeginGrows(c, k + 1, m); }
  }

  // A later copy, and the wait before it, are behind the read of the earlier one.
  lemma LaterCopyIsBehind(c: Config, p: seq<Entry>, r: nat, j: nat)
    requires IsProgram(c, p, |c.calls|) && r < |p| && p[r].op.Read? && p[r].op.of < |c.calls| && Moves(c, p[r].op.of)
    requires Begin(c, p[r].op.of) + 1 < j < |p| && p[j].op.Copy?
    ensures r < j - 1
  {
    var k := p[r].op.of;
    CopyHome(c, p, j);
    ReadHome(c, p, r);
    CallOrder(c, k, p[j].call);
    assert Length(c, p[j].call) >= 2;
    ReadsLatest(c, p[r].call, k, p[j].call);
    CallOrder(c, p[r].call, p[j].call);
  }

  // So it starts only when that read is done.
  lemma LaterCopyWaits(c: Config, p: seq<Entry>, s: State, r: nat, j: nat)
    requires IsProgram(c, p, |c.calls|) && Shaped(p, s) && AllInOrder(p, s)
    requires r < |p| && p[r].op.Read? && p[r].op.of < |c.calls| && Moves(c, p[r].op.of)
    requires Begin(c, p[r].op.of) + 1 < j < |p| && p[j].op.Copy? && Underway(s, j)
    ensures s.done[r]
  {
    LaterCopyIsBehind(c, p, r, j);
    CopyHome(c, p, j);
    ReadHome(c, p, r);
    assert Before(p, r, j - 1) && Before(p, j - 1, j);
    assert InOrder(p, s, j - 1, j) && InOrder(p, s, r, j - 1);
  }

  lemma OwnCopyDone(p: seq<Entry>, s: State, copy: nat, r: nat)
    requires Shaped(p, s) && AllInOrder(p, s) && WaitsFor(p, copy, r) && Runnable(p, s, r)
    requires p[copy].stream == Prefetch && p[r].stream == Compute
    ensures s.done[copy]
  {
    assert Before(p, r - 1, r);
    assert s.done[r - 1];
    if p[r - 1].op == WaitStream(Prefetch) {
      assert Before(p, copy, r - 1) && InOrder(p, s, copy, r - 1);
    } else {
      assert Before(p, copy, copy + 1) && Before(p, copy + 1, r - 1);
      assert InOrder(p, s, copy + 1, r - 1) && InOrder(p, s, copy, copy + 1);
    }
  }

  // While a graph or a consumer reads, the copy it reads is finished and no later
  // one has started.
  lemma ReadIsCurrent(c: Config, p: seq<Entry>, s: State, r: nat)
    requires IsProgram(c, p, |c.calls|) && Shaped(p, s) && AllInOrder(p, s)
    requires Runnable(p, s, r) && p[r].op.Read? && p[r].op.of < |c.calls| && Moves(c, p[r].op.of)
    ensures var copy := Begin(c, p[r].op.of) + 1;
      copy < |p| && p[copy] == Entry(p[r].op.of, Prefetch, Copy) && s.done[copy] && !LaterCopyStarted(p, s, copy)
  {
    ReadHome(c, p, r);
    var copy := Begin(c, p[r].op.of) + 1;
    OwnCopyDone(p, s, copy, r);
    forall j | copy < j < |p| && p[j].op.Copy? ensures !Underway(s, j) {
      if Underway(s, j) { LaterCopyWaits(c, p, s, r, j); }
    }
  }

  // --- Every step keeps it --------------------------------------------------------

  // What one entry's step may change besides the data.
  predicate Advances(s: State, t: State, x: nat) {
    && x < |s.done| == |s.progress| == |t.done| == |t.progress|
    && (s.done[x] ==> t.done[x]) && s.progress[x] <= t.progress[x] && (t.done[x] ==> t.progress[x] == s.progress[x])
    && forall y | 0 <= y < |s.done| && y != x :: t.done[y] == s.done[y] && t.progress[y] == s.progress[y]
  }

  lemma NextAdvances(c: Config, p: seq<Entry>, s: State, x: nat)
    requires Enabled(c, p, s, x)
    ensures Advances(s, Next(c, p, s, x), x) && Shaped(p, Next(c, p, s, x)) && Underway(Next(c, p, s, x), x)
  {
  }

  lemma StepKeepsOrder(p: seq<Entry>, s: State, t: State, x: nat)
    requires Shaped(p, s) && AllInOrder(p, s) && Runnable(p, s, x) && Shaped(p, t) && Advances(s, t, x)
    ensures AllInOrder(p, t)
  {
    forall i, j | 0 <= i < |p| && 0 <= j < |p| ensures InOrder(p, t, i, j) {
      assert InOrder(p, s, i, j);
    }
  }

  // Copies start one after another: none is behind one that has started.
  lemma EarlierCopyFirst(p: seq<Entry>, s: State, x: nat, i: nat)
    requires Shaped(p, s) && AllInOrder(p, s) && x < i < |p| && p[x].stream == p[i].stream && !s.done[x]
    ensures !Underway(s, i)
  {
    assert InOrder(p, s, x, i);
  }

  lemma OwnCopyKeeps(c: Config, p: seq<Entry>, s: State, i: nat)
    requires Enabled(c, p, s, i) && p[i].op.Copy? && CopyData(c, p, s, i)
    ensures Shaped(p, Next(c, p, s, i)) && CopyData(c, p, Next(c, p, s, i), i)
  {
  }

  lemma OtherCopyKeeps(c: Config, p: seq<Entry>, s: State, x: nat, i: nat)
    requires Enabled(c, p, s, x) && p[x].op.Copy? && x != i && i < |p| && p[i].op.Copy? && CopyData(c, p, s, i)
    requires x < i ==> !Underway(s, i)
    ensures Shaped(p, Next(c, p, s, x)) && CopyData(c, p, Next(c, p, s, x), i)
  {
  }

  lemma OthersKeepCopy(c: Config, p: seq<Entry>, s: State, x: nat, i: nat)
    requires Enabled(c, p, s, x) && !p[x].op.Copy? && i < |p| && p[i].op.Copy? && CopyData(c, p, s, i)
    ensures Shaped(p, Next(c, p, s, x)) && CopyData(c, p, Next(c, p, s, x), i)
  {
  }

  lemma OwnReadKeeps(c: Config, p: seq<Entry>, s: State, r: nat, k: nat, copy: nat)
    requires Enabled(c, p, s, r) && p[r].op == Read(k) && ReadData(c, p, s, r, k)
    requires Moves(c, k) ==>
      && copy < |p| && p[copy] == Entry(k, Prefetch, Copy) && CopyData(c, p, s, copy)
      && s.done[copy] && !LaterCopyStarted(p, s, copy)
    ensures Shaped(p, Next(c, p, s, r)) && ReadData(c, p, Next(c, p, s, r), r, k)
  {
    if Moves(c, k) {
      var rows := Rows(c, k);
      assert s.buffers[Target(c, k)][..|rows|] == rows[..|rows|] == rows;
      assert forall i | 0 <= i < |rows| :: s.buffers[Target(c, k)][i] == s.buffers[Target(c, k)][..|rows|][i];
    }
  }

  lemma OthersKeepRead(c: Config, p: seq<Entry>, s: State, x: nat, r: nat, k: nat)
    requires Enabled(c, p, s, x) && x != r && r < |p| && p[r].op == Read(k) && ReadData(c, p, s, r, k)
    ensures Shaped(p, Next(c, p, s, x)) && ReadData(c, p, Next(c, p, s, x), r, k)
  {
  }

  lemma NextKeepsCopy(c: Config, p: seq<Entry>, s: State, x: nat, i: nat)
    requires Inv(c, p, s) && Enabled(c, p, s, x) && i < |p| && p[i].op.Copy?
    ensures Shaped(p, Next(c, p, s, x)) && CopyData(c, p, Next(c, p, s, x), i)
  {
    assert EntryData(c, p, s, i);
    if x == i {
      OwnCopyKeeps(c, p, s, i);
    } else if p[x].op.Copy? {
      CopyHome(c, p, i);
      CopyHome(c, p, x);
      if x < i { EarlierCopyFirst(p, s, x, i); }
      OtherCopyKeeps(c, p, s, x, i);
    } else {
      OthersKeepCopy(c, p, s, x, i);
    }
  }

  lemma NextKeepsRead(c: Config, p: seq<Entry>, s: State, x: nat, r: nat, k: nat)
    requires Inv(c, p, s) && Enabled(c, p, s, x) && r < |p| && p[r].op == Read(k)
    ensures Shaped(p, Next(c, p, s, x)) && ReadData(c, p, Next(c, p, s, x), r, k)
  {
    assert EntryData(c, p, s, r);
    if x == r {
      var copy := Begin(c, k) + 1;
      if Moves(c, k) {
        ReadIsCurrent(c, p, s, r);
        assert EntryData(c, p, s, copy);
      }
      OwnReadKeeps(c, p, s, r, k, copy);
    } else {
      OthersKeepRead(c, p, s, x, r, k);
    }
  }

  lemma NextKeepsInv(c: Config, p: seq<Entry>, s: State, x: nat)
    requires Inv(c, p, s) && Enabled(c, p, s, x)
    ensures Inv(c, p, Next(c, p, s, x))
  {
    var t := Next(c, p, s, x);
    NextAdvances(c, p, s, x);
    StepKeepsOrder(p, s, t, x);
    forall i | 0 <= i < |p| ensures EntryData(c, p, t, i) {
      match p[i].op
      case Copy => NextKeepsCopy(c, p, s, x, i);
      case Read(k) => NextKeepsRead(c, p, s, x, i, k);
      case _ =>
    }
  }

  lemma IssueKeepsEntry(c: Config, p: seq<Entry>, s: State, i: nat)
    requires Shaped(p, s) && s.enqueued < |p| && i < |p| && EntryData(c, p, s, i)
    ensures EntryData(c, p, Issue(s), i)
  {
  }

  lemma IssueKeepsInv(c: Config, p: seq<Entry>, s: State)
    requires Inv(c, p, s) && s.enqueued < |p|
    ensures Inv(c, p, Issue(s))
  {
    var t := Issue(s);
    forall i, j | 0 <= i < |p| && 0 <= j < |p| ensures InOrder(p, t, i, j) { assert InOrder(p, s, i, j); }
    forall i | 0 <= i < |p| ensures EntryData(c, p, t, i) { IssueKeepsEntry(c, p, s, i); }
  }

  lemma BufferThere(c: Config, s: State, k: nat)
    requires c.Valid() && BuffersThere(c, s) && k < |c.calls| && (Launches(c, k) || Moves(c, k) || c.calls[k].Start?)
    ensures HasBuffer(c, s, k)
    ensures Moves(c, k) ==> |Rows(c, k)| <= Extent(c, k)
  {
  }

  lemma InitialInv(c: Config, p: seq<Entry>, s: State)
    requires c.Valid() && IsProgram(c, p, |c.calls|) && Initial(c, p, s)
    ensures Inv(c, p, s)
  {
    forall i | 0 <= i < |p| ensures EntryData(c, p, s, i) {
      if p[i].op.Copy? {
        CopyHome(c, p, i);
        BufferThere(c, s, p[i].call);
      } else if p[i].op.Read? {
        ReadHome(c, p, i);
        ReadTarget(c, p[i].call, p[i].op.of);
        BufferThere(c, s, p[i].op.of);
      }
    }
  }

  lemma ReadTarget(c: Config, m: nat, of: nat)
    requires Reads(c, m, of)
    ensures of < |c.calls| && (Launches(c, of) || c.calls[of].Start?)
  {
  }

  lemma {:induction false} RunKeepsInv(c: Config, p: seq<Entry>, states: seq<State>, n: nat)
    requires Run(c, p, states) && n < |states|
    ensures Inv(c, p, states[n])
  {
    if n == 0 {
      ProgramIs(c, |c.calls|);
      InitialInv(c, p, states[0]);
    } else {
      RunKeepsInv(c, p, states, n - 1);
      StepKeepsInv(c, p, states[n - 1], states[n]);
    }
  }

  lemma StepKeepsInv(c: Config, p: seq<Entry>, s: State, t: State)
    requires Inv(c, p, s) && Step(c, p, s, t)
    ensures Inv(c, p, t)
  {
    if s.enqueued < |p| && t == Issue(s) {
      IssueKeepsInv(c, p, s);
    } else {
      var x: nat :| Enabled(c, p, s, x) && t == Next(c, p, s, x);
      NextKeepsInv(c, p, s, x);
    }
  }

  // --- What is read -----------------------------------------------------------------

  // Whatever the streams do, a finished read has seen the rows that its call
  // copied, in order, in the first rows of the buffer.
  lemma ReadIsExact(c: Config, p: seq<Entry>, states: seq<State>, n: nat, r: nat)
    requires Run(c, p, states) && n < |states| && Shaped(p, states[n])
    requires r < |p| && p[r].op.Read? && states[n].done[r] && p[r].op.of < |c.calls| && Moves(c, p[r].op.of)
    ensures r in states[n].seen && |states[n].seen[r]| == Extent(c, p[r].op.of)
    ensures |Rows(c, p[r].op.of)| <= |states[n].seen[r]|
    ensures states[n].seen[r][..|Rows(c, p[r].op.of)|] == Rows(c, p[r].op.of)
  {
    RunKeepsInv(c, p, states, n);
    ProgramIs(c, |c.calls|);
    ReadHome(c, p, r);
    assert EntryData(c, p, states[n], Begin(c, p[r].op.of) + 1);
    assert EntryData(c, p, states[n], r);
  }

  // A staged replay that has read holds the rows staged for its own batch.
  lemma ReplayReadsItsBatch(c: Config, p: seq<Entry>, states: seq<State>, n: nat, k: nat)
    requires Run(c, p, states) && n < |states| && k < |c.calls| && Result(c, k) == Staged
    requires Shaped(p, states[n])
    ensures StagedAt(p, k, Begin(c, k))
    ensures var r := Begin(c, k) + 4;
      states[n].done[r] ==>
        && r in states[n].seen && |states[n].seen[r]| == c.calls[k].size
        && states[n].seen[r][..|c.calls[k].rows.value|] == c.calls[k].rows.value
  {
    ProgramIs(c, |c.calls|);
    assert SegmentAt(c, p, k);
    StagedSegment(c, p, k);
    if states[n].done[Begin(c, k) + 4] { ReadIsExact(c, p, states, n, Begin(c, k) + 4); }
  }

  // The consumer of an eager prefetch that has read holds just its rows.
  lemma ConsumerReadsItsBatch(c: Config, p: seq<Entry>, states: seq<State>, n: nat, m: nat)
    requires Run(c, p, states) && n < |states| && m < |c.calls| && Result(c, m).Consumed?
    requires Shaped(p, states[n])
    ensures var k := Result(c, m).of; k < m && c.calls[k].Start? && ConsumedAt(p, m, k, Begin(c, m))
    ensures var r := Begin(c, m) + 1;
      states[n].done[r] ==> r in states[n].seen && states[n].seen[r] == c.calls[Result(c, m).of].lookups
  {
    var (k, r) := (Result(c, m).of, Begin(c, m) + 1);
    ProgramIs(c, |c.calls|);
    assert SegmentAt(c, p, m);
    ConsumedSegment(c, p, m);
    PendingIsLast(c, m, k, k);
    if states[n].done[r] {
      ReadIsExact(c, p, states, n, r);
      assert states[n].seen[r][..|Rows(c, k)|] == states[n].seen[r];
    }
  }

  // Work is never stuck: what was enqueued first and is unfinished can run.
  lemma NoDeadlock(c: Config, p: seq<Entry>, states: seq<State>, n: nat, j: nat)
    requires Run(c, p, states) && n < |states| && Shaped(p, states[n])
    requires j < states[n].enqueued && !states[n].done[j] && forall i | 0 <= i < j :: states[n].done[i]
    ensures Enabled(c, p, states[n], j)
  {
    RunKeepsInv(c, p, states, n);
    if j > 0 {
      EntryHome(c, p, j);
      WaitsLookBack(c, p, j);
      assert EntryData(c, p, states[n], j);
    }
  }

  lemma LatestRecordBounded(program: seq<Entry>)
    ensures program != [] ==> LatestRecord(program) < |program|
  {
  }

  predicate LooksBack(e: Entry, i: nat) {
    e.op.WaitEvent? ==> e.op.at < i
  }

  lemma SegmentLooksBack(c: Config, k: nat, program: seq<Entry>, i: nat)
    requires k < |c.calls| && program != [] && i < |Segment(c, k, program)|
    ensures LooksBack(Segment(c, k, program)[i], |program| + i)
  {
    LatestRecordBounded(program + Prepared(c, k));
  }

  // An event wait is for a record enqueued before it.
  lemma WaitsLookBack(c: Config, p: seq<Entry>, i: nat)
    requires IsProgram(c, p, |c.calls|) && 0 < i < |p|
    ensures LooksBack(p[i], i)
  {
    var k := CallOf(c, |c.calls|, i);
    BeginGrows(c, 0, k);
    EntryOfSegment(c, p, k, i);
    SegmentLooksBack(c, k, p[..Begin(c, k)], i - Begin(c, k));
  }

  // --- Prefetches that are never cleared --------------------------------------------

  // What a call does depends on the calls before it only.
  lemma {:induction false} SamePast(c: Config, d: Config, n: nat)
    requires SameCalls(c, d, n)
    ensures Pending(c, n) == Pending(d, n)
    ensures forall k | 0 <= k < n :: Result(c, k) == Result(d, k)
  {
    if n > 0 { SamePast(c, d, n - 1); }
  }

  predicate SameCalls(c: Config, d: Config, n: nat) {
    && n <= |c.calls| && n <= |d.calls| && c.captured == d.captured
    && forall k | 0 <= k < n :: c.calls[k] == d.calls[k]
  }

  // The first n calls, gone on with.
  function Continued(c: Config, n: nat, more: seq<Call>): (d: Config)
    requires n <= |c.calls|
    ensures SameCalls(c, d, n) && |d.calls| == n + |more| && d.calls[n..] == more
  {
    c.(calls := c.calls[..n] + more)
  }

  // A prefetch with a ticket whose gather fails stays pending, and every later call
  // raises.
  lemma {:induction false} LostPrefetchStays(c: Config, k: nat, n: nat)
    requires k < n <= |c.calls| && Result(c, k) == Lost
    ensures Pending(c, n) == Some(k)
    ensures n < |c.calls| ==> Result(c, n) == Raised(false)
  {
    if k < n - 1 { LostPrefetchStays(c, k, n - 1); }
  }

  predicate PendingFrom(c: Config, k: nat) {
    forall n: nat | k < n <= |c.calls| :: Pending(c, n) == Some(k)
  }

  // However the calls go on, prefetch k is still pending.
  ghost predicate PendingForGood(c: Config, k: nat)
    requires k < |c.calls|
  {
    forall more: seq<Call> :: PendingWith(c, k, more)
  }

  predicate PendingWith(c: Config, k: nat, more: seq<Call>)
    requires k < |c.calls|
  {
    PendingFrom(Continued(c, k + 1, more), k)
  }

  // A start stays pending for good exactly when nothing else was pending, it had
  // something to look up, got a ticket, and its gather failed.
  lemma PendingForGoodExactly(c: Config, k: nat)
    requires k < |c.calls| && c.calls[k].Start?
    ensures PendingForGood(c, k) <==> Pending(c, k) == None && c.calls[k].lookups != [] && c.calls[k].gather == Failed
  {
    var after := k + 1;
    if Result(c, k) == Lost {
      forall more: seq<Call> ensures PendingWith(c, k, more) {
        var d := Continued(c, after, more);
        SamePast(c, d, after);
        forall n: nat | k < n <= |d.calls| ensures Pending(d, n) == Some(k) { LostPrefetchStays(d, k, n); }
      }
    } else {
      var d := Continued(c, after, [Consume]);
      SamePast(c, d, after);
      ConsumeClears(d, k);
      assert !PendingWith(c, k, [Consume]);
    }
  }

  // A delivered prefetch is cleared by a consumer; one that was not stored is not
  // pending in the first place.
  lemma ConsumeClears(d: Config, k: nat)
    requires |d.calls| == k + 2 && d.calls[k].Start? && d.calls[k + 1] == Consume && Result(d, k) != Lost
    ensures Result(d, k) == Started ==> Result(d, k + 1) == Consumed(k) && Pending(d, k + 2) == None
    ensures !PendingFrom(d, k)
  {
    var after := k + 1;
    assert Pending(d, after) == if Result(d, k) == Started then Some(k) else Pending(d, k);
    if Result(d, k) == Started { assert Pending(d, after + 1) == None; }
  }

  predicate RaiseFrom(c: Config, n: nat) {
    forall m: nat | n <= m < |c.calls| :: Result(c, m) == Raised(false)
  }

  // However the calls go on after the first n, all of them raise.
  ghost predicate Stuck(c: Config, n: nat)
    requires n <= |c.calls|
  {
    forall more: seq<Call> :: RaiseFrom(Continued(c, n, more), n)
  }

  // The layer raises from now on exactly when it has lost a prefetch.
  lemma StuckExactly(c: Config, n: nat)
    requires n <= |c.calls|
    ensures Stuck(c, n) <==> exists k: nat :: k < n && Result(c, k) == Lost
  {
    if k: nat :| k < n && Result(c, k) == Lost {
      forall more: seq<Call> ensures RaiseFrom(Continued(c, n, more), n) {
        var d := Continued(c, n, more);
        SamePast(c, d, n);
        forall m: nat | n <= m < |d.calls| ensures Result(d, m) == Raised(false) { LostPrefetchStays(d, k, m); }
      }
    } else {
      // Otherwise a prefetch with nothing to look up, or the consumer of the one
      // that is pending, goes through.
      var next := if Pending(c, n) == None then Start([], Delivered) else Consume;
      var d := Continued(c, n, [next]);
      SamePast(c, d, n);
      if Pending(c, n).Some? { PendingIsLast(c, n, Pending(c, n).value, n); }
      assert d.calls[n] == d.calls[n..][0] == next;
      assert Result(d, n) != Raised(false);
      assert !RaiseFrom(d, n);
    }
  }

  // A prefetch whose gather fails: a replay without layer input raises after it,
  // and so does its consumer.
  lemma LostPrefetchBlocksReplay(row: Row)
    ensures var c := Config([Start([row], Failed), Replay(1, None, Delivered), Consume], {1}, 1);
      Result(c, 0) == Lost && Result(c, 1) == Raised(false) && Result(c, 2) == Raised(false)
  {
    var c := Config([Start([row], Failed), Replay(1, None, Delivered), Consume], {1}, 1);
    LostPrefetchStays(c, 0, 1);
    LostPrefetchStays(c, 0, 2);
  }

  // A prefetch that is refused, here because two failed replays have retired both
  // slots, leaves nothing pending: the same replay returns.
  lemma RefusedPrefetchBlocksNothing(row: Row)
    ensures var failing := Replay(1, Some([row]), Failed);
      var c := Config([failing, failing, Start([row], Refused), Replay(1, None, Delivered)], {1}, 1);
      Result(c, 2) == Raised(false) && Pending(c, 3) == None && Result(c, 3) == Returned
  {
    var failing := Replay(1, Some([row]), Failed);
    var c := Config([failing, failing, Start([row], Refused), Replay(1, None, Delivered)], {1}, 1);
    assert Pending(c, 1) == None && Pending(c, 2) == None;
  }
}
