/** What each call of the layer enqueues, from its arguments and the prefetch that is
    pending alone: when a replay stages its rows, when it raises, and when it returns
    without a copy; when a prefetch copies, and when it is consumed. */
module GraphOutcomes {
  import opened GraphReplay

  predicate CopiesIn(p: seq<Entry>, k: nat) {
    exists i :: 0 < i < |p| && p[i].call == k && p[i].op.Copy?
  }

  predicate ReadsIn(p: seq<Entry>, k: nat, of: nat) {
    exists i :: 0 < i < |p| && p[i].call == k && p[i].op == Read(of)
  }

  lemma CopiesExactly(c: Config, p: seq<Entry>, k: nat)
    requires IsProgram(c, p, |c.calls|) && k < |c.calls|
    ensures CopiesIn(p, k) <==> Moves(c, k)
  {
    BeginGrows(c, 0, k);
    assert SegmentAt(c, p, k);
    if Result(c, k) == Staged {
      StagedSegment(c, p, k);
      assert p[Begin(c, k) + 1].op.Copy?;
    } else if Result(c, k) == Started {
      StartedSegment(c, p, k);
      assert p[Begin(c, k) + 1].op.Copy?;
    }
    if i :| 0 < i < |p| && p[i].call == k && p[i].op.Copy? { CopyHome(c, p, i); }
  }

  // The last entry of a call that reads.
  lemma LastEntryReads(c: Config, p: seq<Entry>, k: nat, of: nat)
    requires IsProgram(c, p, |c.calls|) && Reads(c, k, of)
    ensures var r := Begin(c, k + 1) - 1; 0 < r < |p| && p[r] == Entry(k, Compute, Read(of))
  {
    BeginGrows(c, 0, k);
    assert SegmentAt(c, p, k);
    EntryOfSegment(c, p, k, Begin(c, k + 1) - 1);
  }

  lemma ReadsExactly(c: Config, p: seq<Entry>, k: nat, of: nat)
    requires IsProgram(c, p, |c.calls|) && k < |c.calls|
    ensures ReadsIn(p, k, of) <==> Reads(c, k, of)
  {
    if Reads(c, k, of) { LastEntryReads(c, p, k, of); }
    if i :| 0 < i < |p| && p[i].call == k && p[i].op == Read(of) { ReadHome(c, p, i); }
  }

  predicate WaitsIn(p: seq<Entry>, k: nat) {
    exists i :: 0 < i < |p| && p[i] == Entry(k, Prefetch, WaitStream(Compute))
  }

  // --- Replays ----------------------------------------------------------------------

  // A replay raises when a prefetch is pending, its size was not captured, or it has
  // rows that do not fit or are not delivered.
  predicate ReplayRaises(c: Config, k: nat, size: nat, rows: seq<Row>, gather: Gather)
    requires k < |c.calls|
  {
    || Pending(c, k).Some? || size !in c.captured
    || (rows != [] && (|rows| > size || gather != Delivered))
  }

  function RowsToLookUp(rows: Options.Option<seq<Row>>): seq<Row> {
    if rows.Some? then rows.value else []
  }

  // Its graph is launched exactly when it does not raise, and rows are copied for it
  // exactly when there are some besides. The prefetch stream is made to wait unless it
  // raises for one of the first two reasons.
  lemma ReplayExactly(c: Config, p: seq<Entry>, k: nat)
    requires IsProgram(c, p, |c.calls|) && k < |c.calls| && c.calls[k].Replay?
    ensures var Replay(size, rows, gather) := c.calls[k];
      && (ReadsIn(p, k, k) <==> !ReplayRaises(c, k, size, RowsToLookUp(rows), gather))
      && (CopiesIn(p, k) <==> RowsToLookUp(rows) != [] && !ReplayRaises(c, k, size, RowsToLookUp(rows), gather))
      && (Result(c, k).Raised? <==> ReplayRaises(c, k, size, RowsToLookUp(rows), gather))
      && (WaitsIn(p, k) <==> Pending(c, k).None? && size in c.captured)
  {
    CopiesExactly(c, p, k);
    ReadsExactly(c, p, k, k);
    ReplayWaits(c, p, k);
  }

  lemma ReplayWaits(c: Config, p: seq<Entry>, k: nat)
    requires IsProgram(c, p, |c.calls|) && k < |c.calls| && c.calls[k].Replay?
    ensures WaitsIn(p, k) <==> Result(c, k) != Raised(false)
  {
    BeginGrows(c, 0, k);
    assert SegmentAt(c, p, k);
    if Result(c, k) != Raised(false) { EntryOfSegment(c, p, k, Begin(c, k)); }
    if i :| 0 < i < |p| && p[i] == Entry(k, Prefetch, WaitStream(Compute)) { EntryHome(c, p, i); }
  }

  // What a finished read has seen begins with these rows.
  predicate Saw(s: State, r: nat, extent: nat, rows: seq<Row>) {
    r in s.seen && |s.seen[r]| == extent && |rows| <= extent && s.seen[r][..|rows|] == rows
  }

  lemma FinishedReadSaw(c: Config, p: seq<Entry>, states: seq<State>, n: nat, r: nat, m: nat, k: nat)
    requires Run(c, p, states) && n < |states| && Shaped(p, states[n])
    requires k < |c.calls| && Moves(c, k)
    requires r < |p| && p[r] == Entry(m, Compute, Read(k)) && states[n].done[r]
    ensures !c.calls[k].Consume? && Saw(states[n], r, Extent(c, k), Rows(c, k))
  {
    ReadIsExact(c, p, states, n, r);
  }

  // A batch of rows that fits a captured buffer: its copy is ahead of the record that
  // its graph waits for, ...
  lemma BatchIsStaged(c: Config, p: seq<Entry>, k: nat, size: nat, rows: seq<Row>)
    requires p == Program(c, |c.calls|)
    requires k < |c.calls| && c.calls[k] == Replay(size, Options.Some(rows), Delivered)
    requires Pending(c, k).None? && size in c.captured && 0 < |rows| <= size
    ensures StagedAt(p, k, Begin(c, k)) && CopiesIn(p, k) && ReadsIn(p, k, k)
  {
    ProgramIs(c, |c.calls|);
    ReplayExactly(c, p, k);
    assert SegmentAt(c, p, k);
    StagedSegment(c, p, k);
  }

  // ... and its read, once done, begins with those rows, whatever the streams do.
  lemma BatchIsRead(c: Config, p: seq<Entry>, states: seq<State>, n: nat, k: nat, size: nat, rows: seq<Row>, r: nat)
    requires Run(c, p, states) && n < |states| && Shaped(p, states[n])
    requires k < |c.calls| && c.calls[k] == Replay(size, Options.Some(rows), Delivered)
    requires Pending(c, k).None? && size in c.captured && 0 < |rows| <= size
    requires r < |p| && p[r] == Entry(k, Compute, Read(k)) && states[n].done[r]
    ensures Saw(states[n], r, size, rows)
  {
    FinishedReadSaw(c, p, states, n, r, k, k);
  }

  function ReturnedSegment(k: nat, at: nat): seq<Entry> {
    [Entry(k, Prefetch, WaitStream(Compute)), Entry(k, Prefetch, Record), Entry(k, Compute, WaitEvent(at + 1)),
     Entry(k, Compute, Read(k))]
  }

  lemma ReturnedSegmentIs(c: Config, k: nat, program: seq<Entry>)
    requires k < |c.calls| && Result(c, k) == Returned
    ensures Segment(c, k, program) == ReturnedSegment(k, |program|)
  {
    var prepared := program + Prepared(c, k);
    assert prepared[|prepared| - 1] == Entry(k, Prefetch, Record);
    assert LatestRecord(prepared) == |program| + 1;
  }

  // Without rows the event is recorded anew, and the graph waits for that record.
  lemma NothingToStage(c: Config, p: seq<Entry>, k: nat)
    requires p == Program(c, |c.calls|) && k < |c.calls| && c.calls[k].Replay? && RowsToLookUp(c.calls[k].rows) == []
    requires Pending(c, k).None? && c.calls[k].size in c.captured
    ensures Begin(c, k) + 4 <= |p| && p[Begin(c, k)..Begin(c, k) + 4] == ReturnedSegment(k, Begin(c, k))
  {
    ProgramIs(c, |c.calls|);
    assert SegmentAt(c, p, k);
    ReturnedSegmentIs(c, k, p[..Begin(c, k)]);
  }

  // --- Prefetches -------------------------------------------------------------------

  // What a start leaves behind, if nothing was pending.
  predicate Stored(call: Call) {
    call.Start? && call.lookups != [] && call.gather != Refused
  }

  // Prefetch k is pending after n calls.
  predicate StillPending(c: Config, n: nat, k: nat)
    requires n <= |c.calls|
  {
    && k < n && Stored(c.calls[k])
    && (forall j: nat | k < j < n && c.calls[j].Consume? :: c.calls[k].gather == Failed)
  }

  // A prefetch is pending exactly from its start, if none was pending then, to the
  // first consumer after its gather delivered; no replay ends it.
  lemma {:induction false} PendingExactly(c: Config, n: nat, k: nat)
    requires n <= |c.calls|
    ensures Pending(c, n) == Options.Some(k) <==> k < n && StillPending(c, n, k) && Pending(c, k).None?
  {
    if n > 0 {
      PendingExactly(c, n - 1, k);
      if Pending(c, n - 1).Some? {
        var other := Pending(c, n - 1).value;
        PendingExactly(c, n - 1, other);
        NoneUntilStored(c, n - 1, other, k);
      }
    }
  }

  // While one prefetch is pending, no other becomes so.
  lemma {:induction false} NoneUntilStored(c: Config, n: nat, other: nat, k: nat)
    requires n <= |c.calls| && Pending(c, n) == Options.Some(other) && other < n
    ensures other < k <= n ==> Pending(c, k) == Options.Some(other)
  {
    if other < k < n {
      NoneUntilStored(c, n - 1, other, k);
    }
  }

  // A prefetch copies exactly when none is pending, it has rows, and they are delivered.
  lemma StartExactly(c: Config, p: seq<Entry>, k: nat)
    requires IsProgram(c, p, |c.calls|) && k < |c.calls| && c.calls[k].Start?
    ensures CopiesIn(p, k) <==> Pending(c, k).None? && c.calls[k].lookups != [] && c.calls[k].gather == Delivered
  {
    CopiesExactly(c, p, k);
  }

  // A consumer reads exactly a pending prefetch that is delivered.
  lemma ConsumeExactly(c: Config, p: seq<Entry>, m: nat, k: nat)
    requires IsProgram(c, p, |c.calls|) && m < |c.calls| && c.calls[m].Consume?
    ensures ReadsIn(p, m, k) <==> Pending(c, m) == Options.Some(k) && c.calls[k].gather == Delivered
  {
    ReadsExactly(c, p, m, k);
  }

  // The first consumer after a delivered prefetch reads it, whatever replays there
  // are in between, ...
  lemma PrefetchIsConsumed(c: Config, p: seq<Entry>, k: nat, m: nat)
    requires p == Program(c, |c.calls|)
    requires k < m < |c.calls| && c.calls[m].Consume? && c.calls[k].Start? && Pending(c, k).None?
    requires c.calls[k].lookups != [] && c.calls[k].gather == Delivered
    requires forall j | k < j < m :: !c.calls[j].Consume?
    ensures CopiesIn(p, k) && ReadsIn(p, m, k)
  {
    ProgramIs(c, |c.calls|);
    PendingExactly(c, m, k);
    StartExactly(c, p, k);
    ConsumeExactly(c, p, m, k);
  }

  // ... and sees just its rows, whatever the streams do.
  lemma PrefetchIsRead(c: Config, p: seq<Entry>, states: seq<State>, n: nat, k: nat, m: nat, r: nat)
    requires Run(c, p, states) && n < |states| && Shaped(p, states[n])
    requires k < |c.calls| && c.calls[k].Start? && Pending(c, k).None?
    requires c.calls[k].lookups != [] && c.calls[k].gather == Delivered
    requires r < |p| && p[r] == Entry(m, Compute, Read(k)) && states[n].done[r]
    ensures r in states[n].seen && states[n].seen[r] == c.calls[k].lookups
  {
    FinishedReadSaw(c, p, states, n, r, m, k);
    assert states[n].seen[r][..|c.calls[k].lookups|] == states[n].seen[r];
  }
}
