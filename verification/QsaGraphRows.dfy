/** The rows that the layout kernel writes are the rows of the forward it is
    launched for: what the cache proof assumes about a captured graph's rows is
    what any order of the kernel's stores leaves in the buffers. */
module QsaGraphRows {
  import opened QsaAddressing
  import opened QsaCache
  import opened QsaForward
  import opened QsaRun
  import GL = GraphLayout

  // --- The ring stores follow the rows -------------------------------------------

  // A row's key goes to the cell of its own request at its own position.
  predicate FollowsRow(g: Geometry, st: (nat, Key), row: Row, key: Key)
    requires g.Valid()
  {
    0 < row.length && st == (RingAt(g, row.slot, row.length - 1), key)
  }

  predicate FollowRows(g: Geometry, stores: seq<(nat, Key)>, rows: seq<Row>, keys: seq<Key>)
    requires g.Valid()
  {
    && |stores| == |rows| == |keys|
    && forall k | 0 <= k < |stores| :: FollowsRow(g, stores[k], rows[k], keys[k])
  }

  lemma FollowingJoins(g: Geometry, stores: seq<(nat, Key)>, rows: seq<Row>, keys: seq<Key>,
                       moreStores: seq<(nat, Key)>, moreRows: seq<Row>, moreKeys: seq<Key>)
    requires g.Valid() && FollowRows(g, stores, rows, keys) && FollowRows(g, moreStores, moreRows, moreKeys)
    ensures FollowRows(g, stores + moreStores, rows + moreRows, keys + moreKeys)
  {
  }

  lemma EntryFollows(m: Model, s: State, x: Growth)
    requires m.g.Valid() && Live(x.slot) in s.holders
    ensures FollowRows(m.g, seq(|x.keys|, j requires 0 <= j < |x.keys| => TokenStore(m, s, x, false, j)),
                       seq(|x.keys|, j requires 0 <= j => Row(x.slot, |Before(s, x).keys| + 1 + j)), x.keys)
  {
  }

  lemma PaddingFollows(g: Geometry, padSlot: nat, padding: seq<Key>)
    requires g.Valid()
    ensures FollowRows(g, PaddingStores(g, padSlot, padding), seq(|padding|, _ => Row(padSlot, 1)), padding)
  {
  }

  lemma {:induction false} TokenStoresFollowRows(m: Model, s: State, batch: seq<Growth>, n: nat)
    requires m.g.Valid() && n <= |batch| && forall i | 0 <= i < |batch| :: Live(batch[i].slot) in s.holders
    ensures FollowRows(m.g, TokenStores(m, s, batch, false, n), BatchRows(s, batch, n), Tokens(batch, n))
  {
    if n > 0 {
      var x := batch[n - 1];
      TokenStoresFollowRows(m, s, batch, n - 1);
      EntryFollows(m, s, x);
      FollowingJoins(m.g, TokenStores(m, s, batch, false, n - 1), BatchRows(s, batch, n - 1), Tokens(batch, n - 1),
                     seq(|x.keys|, j requires 0 <= j < |x.keys| => TokenStore(m, s, x, false, j)),
                     seq(|x.keys|, j requires 0 <= j => Row(x.slot, |Before(s, x).keys| + 1 + j)), x.keys);
    }
  }

  lemma StoresFollowRows(m: Model, s: State, batch: seq<Growth>, path: Path, padding: seq<Key>)
    requires m.g.Valid() && ValidBatch(m, s, batch)
    ensures FollowRows(m.g, PaddedStores(m, s, batch, path, padding), PaddedRows(s, batch, path, |padding|),
                       Tokens(batch, |batch|) + padding)
  {
    var padSlot := PadSlot(batch, path);
    TokenStoresFollowRows(m, s, batch, |batch|);
    PaddingFollows(m.g, padSlot, padding);
    FollowingJoins(m.g, TokenStores(m, s, batch, false, |batch|), BatchRows(s, batch, |batch|), Tokens(batch, |batch|),
                   PaddingStores(m.g, padSlot, padding), seq(|padding|, _ => Row(padSlot, 1)), padding);
  }

  // --- The layouts give the rows -------------------------------------------------

  // A launch whose real requests are the entries of a batch.
  ghost predicate LaunchedFor(m: Model, s: State, batch: seq<Growth>, c: GL.Launch)
    requires m.g.Valid() && ValidBatch(m, s, batch)
  {
    && c.Valid() && c.Real() == |batch|
    && forall i | 0 <= i < |batch| :: LaunchesEntry(s, batch[i], c, i)
  }

  // The kernel's inputs for one request: the committed length before a verify, the
  // length with the new rows otherwise.
  predicate LaunchesEntry(s: State, x: Growth, c: GL.Launch, i: nat)
    requires c.Valid() && Live(x.slot) in s.holders && i < c.Real()
  {
    && c.requests[i] == x.slot && c.Rows(i) == |x.keys|
    && c.seqLens[i] == if c.mode.Verify? then |Before(s, x).keys| else |Grown(s, x)|
  }

  predicate Same(a: GL.Row, b: Row) {
    a.length == b.length && a.request == b.slot
  }

  predicate SameRows(a: seq<GL.Row>, b: seq<Row>) {
    |a| == |b| && forall k | 0 <= k < |a| :: Same(a[k], b[k])
  }

  lemma EntryRows(s: State, x: Growth, c: GL.Launch, i: nat)
    requires c.Valid() && Live(x.slot) in s.holders && i < c.Real() && LaunchesEntry(s, x, c, i)
    ensures SameRows(GL.RequestRows(c, i), seq(|x.keys|, j requires 0 <= j => Row(x.slot, |Before(s, x).keys| + 1 + j)))
  {
  }

  lemma {:induction false} RealRows(m: Model, s: State, batch: seq<Growth>, c: GL.Launch, n: nat)
    requires m.g.Valid() && ValidBatch(m, s, batch) && LaunchedFor(m, s, batch, c) && n <= |batch|
    ensures SameRows(GL.FirstRows(c, n), BatchRows(s, batch, n))
  {
    if n > 0 {
      RealRows(m, s, batch, c, n - 1);
      assert LaunchesEntry(s, batch[n - 1], c, n - 1);
      EntryRows(s, batch[n - 1], c, n - 1);
    }
  }

  // Padding requests add nothing, or in decode one inert row each.
  lemma {:induction false} PaddingRows(m: Model, s: State, batch: seq<Growth>, c: GL.Launch, n: nat)
    requires m.g.Valid() && ValidBatch(m, s, batch) && LaunchedFor(m, s, batch, c) && |batch| <= n <= |c.seqLens|
    ensures |GL.FirstRows(c, n)| >= |BatchRows(s, batch, |batch|)|
    ensures SameRows(GL.FirstRows(c, n), Rows(s, batch, 0, |GL.FirstRows(c, n)| - |BatchRows(s, batch, |batch|)|))
  {
    if n == |batch| {
      RealRows(m, s, batch, c, n);
    } else {
      PaddingRows(m, s, batch, c, n - 1);
    }
  }

  // For decode, verify and draft-extend: after any interleaving of the kernel's
  // stores, the row buffers hold the lengths and requests of the forward's rows,
  // followed by inert rows of the reserved request.
  lemma LayoutIsForwardRows(m: Model, s: State, batch: seq<Growth>, c: GL.Launch, before: seq<GL.Row>,
        order: seq<(nat, GL.Row)>)
    requires m.g.Valid() && ValidBatch(m, s, batch) && LaunchedFor(m, s, batch, c) && GL.Fits(c) && |before| == c.rows
    requires multiset(order) == multiset(GL.AllStores(c, |c.seqLens| + 1))
    ensures GL.Scatter.InBounds(order, c.rows) && |BatchRows(s, batch, |batch|)| <= c.rows
    ensures SameRows(GL.Scatter.Apply(before, order),
                     PaddedRows(s, batch, Graph, c.rows - |BatchRows(s, batch, |batch|)|))
  {
    GL.AnyInterleaving(c, before, order);
    PaddingRows(m, s, batch, c, |c.seqLens|);
  }

  // Without padding rows in decode, the rows of padding requests are none.
  lemma {:induction false} NoPaddingRows(c: GL.Launch, n: nat)
    requires c.Valid() && !c.mode.Decode? && c.Real() <= n <= |c.seqLens|
    ensures GL.FirstRows(c, n) == GL.FirstRows(c, c.Real())
  {
    if c.Real() < n { NoPaddingRows(c, n - 1); }
  }

  // For verify and draft-extend on the host: the layout whose tail goes to the first
  // request is the forward's rows, followed by inert rows of that request.
  lemma HostLayoutIsForwardRows(m: Model, s: State, batch: seq<Growth>, c: GL.Launch)
    requires m.g.Valid() && ValidBatch(m, s, batch) && LaunchedFor(m, s, batch, c) && GL.Fits(c) && !c.mode.Decode?
    ensures |BatchRows(s, batch, |batch|)| <= c.rows
    ensures SameRows(GL.Layout(c, batch[0].slot),
                     PaddedRows(s, batch, HostGraph, c.rows - |BatchRows(s, batch, |batch|)|))
  {
    RealRows(m, s, batch, c, |batch|);
    NoPaddingRows(c, |c.seqLens|);
  }

  // The host's inputs for a batch. Draft-extend takes the number of new tokens from
  // the list of lengths, or else from an even share of the rows.
  predicate HostLaunchesEntry(s: State, x: Growth, h: GL.HostLaunch, i: nat)
    requires h.Valid() && Live(x.slot) in s.holders && i < |h.seqLens|
  {
    && h.pool[i] == x.slot
    && match h.mode
       case Verify => h.seqLens[i] == |Before(s, x).keys| && h.extendLen == |x.keys|
       case _ =>
         && h.seqLens[i] == |Grown(s, x)|
         && if h.hasExtendLens then i < |h.extendLensCpu| && h.extendLensCpu[i] == |x.keys|
            else h.rows / |h.seqLens| == |x.keys|
  }

  ghost predicate HostLaunchedFor(m: Model, s: State, batch: seq<Growth>, h: GL.HostLaunch)
    requires m.g.Valid() && ValidBatch(m, s, batch)
  {
    h.Valid() && h.Real() == |batch| && forall i | 0 <= i < |batch| :: HostLaunchesEntry(s, batch[i], h, i)
  }

  // The host counts the rows of the forward; its dummy is the first request.
  lemma LaunchedOnHost(m: Model, s: State, batch: seq<Growth>, h: GL.HostLaunch)
    requires m.g.Valid() && ValidBatch(m, s, batch) && HostLaunchedFor(m, s, batch, h)
    ensures LaunchedFor(m, s, batch, h.Device())
    ensures h.Start(|h.seqLens|) == |BatchRows(s, batch, |batch|)|
    ensures h.Dummy() == batch[0].slot
  {
    var c := h.Device();
    GL.SameStarts(h, |h.seqLens|);
    forall i | 0 <= i < |batch| ensures LaunchesEntry(s, batch[i], c, i) {
      assert HostLaunchesEntry(s, batch[i], h, i) && c.Rows(i) == h.RowsOf(i);
    }
    RealRows(m, s, batch, c, |batch|);
    NoPaddingRows(c, |c.seqLens|);
    assert HostLaunchesEntry(s, batch[0], h, 0);
  }

  // What the host layout returns for a batch are the lengths and requests of the
  // forward's rows, the dummy rows on the first request.
  lemma HostColumnsAreForwardRows(m: Model, s: State, batch: seq<Growth>, h: GL.HostLaunch, lengths: seq<nat>,
                                  requests: seq<nat>, prefixes: seq<nat>)
    requires m.g.Valid() && ValidBatch(m, s, batch) && HostLaunchedFor(m, s, batch, h)
    requires GL.Fits(h.Device()) && GL.Columns(lengths, requests, prefixes, GL.Layout(h.Device(), h.Dummy()))
    ensures |BatchRows(s, batch, |batch|)| <= h.rows == |lengths| == |requests|
    ensures var rows := PaddedRows(s, batch, HostGraph, h.rows - |BatchRows(s, batch, |batch|)|);
            forall k | 0 <= k < h.rows :: lengths[k] == rows[k].length && requests[k] == rows[k].slot
  {
    LaunchedOnHost(m, s, batch, h);
    HostLayoutIsForwardRows(m, s, batch, h.Device());
    var rows := PaddedRows(s, batch, HostGraph, h.rows - |BatchRows(s, batch, |batch|)|);
    assert SameRows(GL.Layout(h.Device(), h.Dummy()), rows);
    forall k | 0 <= k < h.rows ensures lengths[k] == rows[k].length && requests[k] == rows[k].slot {
      assert Same(GL.Layout(h.Device(), h.Dummy())[k], rows[k]);
    }
  }
}
