/** Which draft step is committed after a verify round, and which step's recurrent
    state is kept so that every multiple of the tracking interval has one. */
module CommitSteps {
  import opened Arithmetic

  // `acceptIndex[r]` lists the accepted nodes of request r, as indices into the
  // flat draft of the batch; D rows per request.
  datatype Batch = Batch(acceptIndex: seq<seq<int>>, acceptLens: seq<nat>, draftTokens: nat, seqLens: seq<nat>) {
    predicate Valid() {
      && |acceptIndex| == |acceptLens| == |seqLens|
      && forall r | 0 <= r < |acceptLens| :: 1 <= acceptLens[r] <= |acceptIndex[r]|
    }

    // Chain acceptance: the accepted nodes of a request are its first rows.
    predicate Chain(r: nat)
      requires Valid() && r < |acceptLens|
    {
      forall j | 0 <= j < acceptLens[r] :: acceptIndex[r][j] == r * draftTokens + j
    }

    // In any tree the accepted nodes of a request are rows of its own.
    predicate OwnNodes(r: nat)
      requires Valid() && r < |acceptLens|
    {
      forall j | 0 <= j < acceptLens[r] :: 0 <= acceptIndex[r][j] - r * draftTokens < draftTokens
    }
  }

  // `last_correct_step_indices`
  function Committed(b: Batch, r: nat): int
    requires b.Valid() && r < |b.acceptLens|
  {
    b.acceptIndex[r][b.acceptLens[r] - 1] - r * b.draftTokens
  }

  function ToTrack(pre: nat, post: nat, interval: nat): int
    requires 0 < interval
  {
    var ith := post / interval * interval - pre - 1;
    if ith < 0 then 0 else ith
  }

  lemma ToTrackInRange(pre: nat, accept: nat, interval: nat)
    requires 0 < interval && 1 <= accept
    ensures 0 <= ToTrack(pre, pre + accept, interval) < accept
  {
  }

  // `mamba_steps_to_track`: -1 when the round crosses no multiple.
  function Tracked(b: Batch, r: nat, interval: nat): int
    requires b.Valid() && r < |b.acceptLens| && 0 < interval
  {
    var (pre, post) := (b.seqLens[r], b.seqLens[r] + b.acceptLens[r]);
    ToTrackInRange(pre, b.acceptLens[r], interval);
    if pre / interval != post / interval
    then b.acceptIndex[r][ToTrack(pre, post, interval)] - r * b.draftTokens
    else -1
  }

  predicate IsMultiple(n: nat, interval: nat)
    requires 0 < interval
  {
    n % interval == 0
  }

  // The committed step is the own row of the last accepted node, ...
  lemma CommitsLastNode(b: Batch, r: nat)
    requires b.Valid() && r < |b.acceptLens| && b.OwnNodes(r)
    ensures 0 <= Committed(b, r) < b.draftTokens
    ensures b.acceptIndex[r][b.acceptLens[r] - 1] == r * b.draftTokens + Committed(b, r)
  {
  }

  // ... which in a chain is the last accepted token.
  lemma ChainCommitsLast(b: Batch, r: nat)
    requires b.Valid() && r < |b.acceptLens| && b.Chain(r)
    ensures Committed(b, r) == b.acceptLens[r] - 1
  {
  }

  lemma MultiplesBetween(pre: nat, post: nat, n: nat, interval: nat)
    requires 0 < interval && pre < n <= post && IsMultiple(n, interval)
    ensures pre / interval < n / interval <= post / interval && n == n / interval * interval
  {
    Split(n, interval);
    DivMonotone(n, post, interval);
    DivGalois(pre, interval, n / interval);
  }

  lemma LastMultiple(post: nat, interval: nat)
    requires 0 < interval
    ensures var m := post / interval * interval; m <= post && IsMultiple(m, interval) && m / interval == post / interval
  {
  }

  // A round crosses a multiple exactly when the largest one below `post` is past
  // `pre`; after it there is none.
  lemma Crossing(pre: nat, post: nat, interval: nat)
    requires 0 < interval && pre <= post
    ensures pre < post / interval * interval <==> pre / interval != post / interval
    ensures forall n | post / interval * interval < n <= post :: !IsMultiple(n, interval)
  {
    DivMonotone(pre, post, interval);
    DivGalois(pre, interval, post / interval);
    forall n | post / interval * interval < n <= post ensures !IsMultiple(n, interval) {
      if IsMultiple(n, interval) { NoneAfterLast(n, post, interval); }
    }
  }

  lemma NoneAfterLast(n: nat, post: nat, interval: nat)
    requires 0 < interval && n <= post && IsMultiple(n, interval)
    ensures n <= post / interval * interval
  {
    Split(n, interval);
    DivMonotone(n, post, interval);
    MulMonotone(n / interval, post / interval, interval);
  }

  lemma ChainTracks(b: Batch, r: nat, interval: nat)
    requires b.Valid() && r < |b.acceptLens| && b.Chain(r) && 0 < interval
    ensures var (pre, post) := (b.seqLens[r], b.seqLens[r] + b.acceptLens[r]);
      Tracked(b, r, interval) == if pre / interval != post / interval then ToTrack(pre, post, interval) else -1
  {
  }

  // The tracked step is within the accepted ones and ends at the largest multiple
  // in (pre, post]; it is -1 exactly when there is none.
  lemma TracksLargestMultiple(b: Batch, r: nat, interval: nat)
    requires b.Valid() && r < |b.acceptLens| && b.Chain(r) && 0 < interval
    ensures var (pre, post, s) := (b.seqLens[r], b.seqLens[r] + b.acceptLens[r], Tracked(b, r, interval));
      && (s == -1 <==> forall n | pre < n <= post :: !IsMultiple(n, interval))
      && (s != -1 ==>
            && 0 <= s < b.acceptLens[r] && IsMultiple(pre + s + 1, interval)
            && forall n | pre + s + 1 < n <= post :: !IsMultiple(n, interval))
  {
    var (pre, post) := (b.seqLens[r], b.seqLens[r] + b.acceptLens[r]);
    ChainTracks(b, r, interval);
    LargestMultiple(pre, post, interval);
  }

  // In any tree it is the own row of the accepted node that ends there.
  lemma TracksNodeAtMultiple(b: Batch, r: nat, interval: nat)
    requires b.Valid() && r < |b.acceptLens| && b.OwnNodes(r) && 0 < interval
    ensures var (pre, post, s) := (b.seqLens[r], b.seqLens[r] + b.acceptLens[r], Tracked(b, r, interval));
      && (s == -1 <==> forall n | pre < n <= post :: !IsMultiple(n, interval))
      && (s != -1 ==> 0 <= s < b.draftTokens)
      && (forall m | pre < m <= post && IsLastMultiple(m, post, interval) ::
            b.acceptIndex[r][m - pre - 1] == r * b.draftTokens + s)
  {
    var (pre, post) := (b.seqLens[r], b.seqLens[r] + b.acceptLens[r]);
    LargestMultiple(pre, post, interval);
    var ith := ToTrack(pre, post, interval);
    ToTrackInRange(pre, b.acceptLens[r], interval);
    forall m | pre < m <= post && IsLastMultiple(m, post, interval)
      ensures pre / interval != post / interval && m == pre + ith + 1
    {
      assert IsMultiple(m, interval);
    }
  }

  predicate IsLastMultiple(m: nat, post: nat, interval: nat)
    requires 0 < interval
  {
    IsMultiple(m, interval) && forall n | m < n <= post :: !IsMultiple(n, interval)
  }

  lemma LargestMultiple(pre: nat, post: nat, interval: nat)
    requires 0 < interval && pre < post
    ensures var s := if pre / interval != post / interval then ToTrack(pre, post, interval) else -1;
      && (s == -1 <==> forall n | pre < n <= post :: !IsMultiple(n, interval))
      && (s != -1 ==>
            && 0 <= s < post - pre && pre + s + 1 == post / interval * interval && IsMultiple(pre + s + 1, interval)
            && forall n | pre + s + 1 < n <= post :: !IsMultiple(n, interval))
  {
    Crossing(pre, post, interval);
    LastMultiple(post, interval);
    if pre / interval != post / interval { assert IsMultiple(post / interval * interval, interval); }
  }

  // --- Over a run --------------------------------------------------------------

  // The length of a request after the first n rounds.
  function Length(start: nat, accepts: seq<nat>, n: nat): nat
    requires n <= |accepts|
  {
    if n == 0 then start else Length(start, accepts, n - 1) + accepts[n - 1]
  }

  // The multiple that round n keeps a state for, if it keeps one: what
  // TracksLargestMultiple says of a round from `pre` to `post`.
  predicate Keeps(pre: nat, post: nat, m: nat, interval: nat)
    requires 0 < interval
  {
    pre < m <= post && m == post / interval * interval
  }

  lemma KeepsTracked(b: Batch, r: nat, interval: nat, m: nat)
    requires b.Valid() && r < |b.acceptLens| && b.Chain(r) && 0 < interval
    ensures Keeps(b.seqLens[r], b.seqLens[r] + b.acceptLens[r], m, interval)
            <==> Tracked(b, r, interval) != -1 && m == b.seqLens[r] + Tracked(b, r, interval) + 1
  {
    ChainTracks(b, r, interval);
    KeepsLargest(b.seqLens[r], b.seqLens[r] + b.acceptLens[r], m, interval);
  }

  lemma KeepsLargest(pre: nat, post: nat, m: nat, interval: nat)
    requires 0 < interval && pre < post
    ensures var s := if pre / interval != post / interval then ToTrack(pre, post, interval) else -1;
      Keeps(pre, post, m, interval) <==> s != -1 && m == pre + s + 1
  {
    Crossing(pre, post, interval);
    LastMultiple(post, interval);
  }

  predicate Kept(start: nat, accepts: seq<nat>, m: nat, interval: nat)
    requires 0 < interval
  {
    exists n: nat :: n < |accepts| && KeptBy(start, accepts, n, m, interval)
  }

  predicate KeptBy(start: nat, accepts: seq<nat>, n: nat, m: nat, interval: nat)
    requires 0 < interval && n < |accepts|
  {
    Keeps(Length(start, accepts, n), Length(start, accepts, n + 1), m, interval)
  }

  // A round crosses at most one multiple.
  predicate Narrow(pre: nat, post: nat, interval: nat)
    requires 0 < interval
  {
    post / interval <= pre / interval + 1
  }

  lemma ShortRoundsAreNarrow(pre: nat, accept: nat, interval: nat)
    requires 0 < interval && accept <= interval
    ensures Narrow(pre, pre + accept, interval)
  {
    var q := pre / interval + 1;
    DivGalois(pre, interval, q);
    DivGalois(pre + accept, interval, q + 1);
    assert (q + 1) * interval == q * interval + interval;
  }

  // A round misses no multiple exactly when it is narrow.
  lemma RoundMissesNone(pre: nat, post: nat, interval: nat)
    requires 0 < interval && pre <= post
    ensures Narrow(pre, post, interval) <==>
            forall m: nat | pre < m <= post && IsMultiple(m, interval) :: Keeps(pre, post, m, interval)
  {
    if Narrow(pre, post, interval) {
      forall m: nat | pre < m <= post && IsMultiple(m, interval) ensures Keeps(pre, post, m, interval) {
        MultiplesBetween(pre, post, m, interval);
      }
    } else {
      var m := SkippedMultiple(pre, post, interval);
      assert IsMultiple(m, interval) && !Keeps(pre, post, m, interval);
    }
  }

  lemma SkippedMultiple(pre: nat, post: nat, interval: nat) returns (m: nat)
    requires 0 < interval && !Narrow(pre, post, interval)
    ensures IsMultiple(m, interval) && pre < m < post / interval * interval <= post
  {
    var q := pre / interval + 1;
    m := q * interval;
    DivGalois(pre, interval, q);
    QuotientUnique(m, interval, q, 0);
    Split(post, interval);
    MulMonotone(q + 1, post / interval, interval);
    assert (q + 1) * interval == m + interval;
  }

  lemma {:induction false} LengthsGrow(start: nat, accepts: seq<nat>, a: nat, b: nat)
    requires a <= b <= |accepts|
    ensures Length(start, accepts, a) <= Length(start, accepts, b)
  {
    if a < b { LengthsGrow(start, accepts, a, b - 1); }
  }

  // The round in which a request passes a length.
  lemma {:induction false} RoundOf(start: nat, accepts: seq<nat>, n: nat, m: nat) returns (k: nat)
    requires n <= |accepts| && start < m <= Length(start, accepts, n)
    ensures k < n && Length(start, accepts, k) < m <= Length(start, accepts, k + 1)
  {
    if Length(start, accepts, n - 1) < m { k := n - 1; } else { k := RoundOf(start, accepts, n - 1, m); }
  }

  predicate AllNarrow(start: nat, accepts: seq<nat>, interval: nat)
    requires 0 < interval
  {
    forall n: nat | n < |accepts| :: NarrowRound(start, accepts, n, interval)
  }

  predicate NarrowRound(start: nat, accepts: seq<nat>, n: nat, interval: nat)
    requires 0 < interval && n < |accepts|
  {
    Narrow(Length(start, accepts, n), Length(start, accepts, n + 1), interval)
  }

  // Over a whole run a state is kept for every multiple passed, if and only if no
  // round crosses two.
  lemma RunMissesNone(start: nat, accepts: seq<nat>, interval: nat)
    requires 0 < interval
    ensures AllNarrow(start, accepts, interval) <==>
            forall m: nat | start < m <= Length(start, accepts, |accepts|) && IsMultiple(m, interval) ::
              Kept(start, accepts, m, interval)
  {
    if AllNarrow(start, accepts, interval) {
      forall m: nat | start < m <= Length(start, accepts, |accepts|) && IsMultiple(m, interval)
        ensures Kept(start, accepts, m, interval)
      {
        NarrowRunKeeps(start, accepts, m, interval);
      }
    } else {
      var m := WideRunMisses(start, accepts, interval);
    }
  }

  lemma NarrowRunKeeps(start: nat, accepts: seq<nat>, m: nat, interval: nat)
    requires 0 < interval && AllNarrow(start, accepts, interval)
    requires start < m <= Length(start, accepts, |accepts|) && IsMultiple(m, interval)
    ensures Kept(start, accepts, m, interval)
  {
    var k := RoundOf(start, accepts, |accepts|, m);
    assert NarrowRound(start, accepts, k, interval);
    RoundMissesNone(Length(start, accepts, k), Length(start, accepts, k + 1), interval);
    assert KeptBy(start, accepts, k, m, interval);
  }

  lemma WideRunMisses(start: nat, accepts: seq<nat>, interval: nat) returns (m: nat)
    requires 0 < interval && !AllNarrow(start, accepts, interval)
    ensures start < m <= Length(start, accepts, |accepts|) && IsMultiple(m, interval)
    ensures !Kept(start, accepts, m, interval)
  {
    var n: nat :| n < |accepts| && !NarrowRound(start, accepts, n, interval);
    var (pre, post) := (Length(start, accepts, n), Length(start, accepts, n + 1));
    RoundMissesNone(pre, post, interval);
    m :| pre < m <= post && IsMultiple(m, interval) && !Keeps(pre, post, m, interval);
    LengthsGrow(start, accepts, 0, n);
    LengthsGrow(start, accepts, n + 1, |accepts|);
    OnlyItsRound(start, accepts, n, m, interval);
  }

  lemma OnlyItsRound(start: nat, accepts: seq<nat>, n: nat, m: nat, interval: nat)
    requires 0 < interval && n < |accepts| && Length(start, accepts, n) < m <= Length(start, accepts, n + 1)
    ensures forall k: nat | k < |accepts| && KeptBy(start, accepts, k, m, interval) :: k == n
  {
    forall k: nat | k < |accepts| && KeptBy(start, accepts, k, m, interval) ensures k == n {
      if k < n { LengthsGrow(start, accepts, k + 1, n); }
      if n < k { LengthsGrow(start, accepts, n + 1, k); }
    }
  }

  // Accept lengths within the interval never miss a multiple.
  lemma ShortRoundsMissNone(start: nat, accepts: seq<nat>, interval: nat)
    requires 0 < interval && forall n | 0 <= n < |accepts| :: accepts[n] <= interval
    ensures forall m: nat | start < m <= Length(start, accepts, |accepts|) && IsMultiple(m, interval) ::
              Kept(start, accepts, m, interval)
  {
    forall n: nat | n < |accepts| ensures NarrowRound(start, accepts, n, interval) {
      ShortRoundsAreNarrow(Length(start, accepts, n), accepts[n], interval);
    }
    RunMissesNone(start, accepts, interval);
  }

  // An input that misses one: four tokens accepted at once, a state every two.
  lemma LongRoundMisses()
    ensures IsMultiple(2, 2) && 0 < 2 <= Length(0, [4], 1) && !Kept(0, [4], 2, 2)
  {
    assert Length(0, [4], 1) == 4;
  }
}
