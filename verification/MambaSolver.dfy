/** How the cache configurator sizes the recurrent-state pool: the slots, their
    padding slot and the intermediate buffers of speculation must fit one share of
    the memory, and no more requests are admitted than the slots can hold. Floats
    are taken as reals. */
module MambaSolver {
  import Arithmetic
  import opened Options

  const GIB := 1073741824.0

  datatype Error = OutOfMemory | AssertionFailed

  // --- Slots per request -------------------------------------------------------

  datatype Flags = Flags(disableRadixCache: bool, skipDecodeLock: bool, extraBuffer: bool, lazyBuffer: bool,
      disableOverlap: bool)

  // `_calculate_mamba_ratio`; the lazy extra buffer is a kind of extra buffer.
  function SlotRatio(f: Flags): (r: Result<nat, Error>)
    ensures r.Ok? ==> 1 <= r.value <= 5
    ensures r.Ok? <==> f.disableRadixCache || !f.extraBuffer || !f.disableOverlap || !f.lazyBuffer
  {
    if f.disableRadixCache then Ok(1)
    else
      var base := if f.skipDecodeLock then 2 else 3;
      if f.extraBuffer then
        if !f.disableOverlap then Ok(base + if f.lazyBuffer then 1 else 2)
        else if f.lazyBuffer then Err(AssertionFailed)
        else Ok(base + 1)
      else Ok(base + if f.skipDecodeLock then 1 else 0)
  }

  // Where the ratio is defined: one slot without a radix cache; three without an
  // extra buffer, whether or not the decode lock is skipped. An extra buffer costs
  // two more in overlap mode, and one fewer if lazy or out of overlap mode; skipping
  // the decode lock then saves one.
  lemma SlotsPerRequest(f: Flags)
    requires SlotRatio(f).Ok?
    ensures f.disableRadixCache ==> SlotRatio(f).value == 1
    ensures !f.disableRadixCache && !f.extraBuffer ==> SlotRatio(f).value == 3
    ensures !f.disableRadixCache && f.extraBuffer ==>
              && (!f.disableOverlap && !f.lazyBuffer && !f.skipDecodeLock ==> SlotRatio(f).value == 5)
              && (f.skipDecodeLock ==> SlotRatio(f).value == SlotRatio(f.(skipDecodeLock := false)).value - 1)
              && (!f.disableOverlap && f.lazyBuffer ==>
                    SlotRatio(f).value == SlotRatio(f.(lazyBuffer := false)).value - 1)
              && (f.disableOverlap ==> SlotRatio(f).value == SlotRatio(f.(disableOverlap := false)).value - 1)
  {
  }

  // --- The solver ----------------------------------------------------------------

  // Bytes per request and per ring entry; D draft tokens; requests per worker.
  datatype Setup = Setup(perRequest: nat, ring: nat, speculative: bool, replay: bool, draftTokens: nat,
                         maxRunning: nat, workers: nat, flags: Flags, memoryRatio: real)
  {
    predicate Valid() {
      && 0 < perRequest && 0 < workers && 0.0 <= memoryRatio
      && (!replay ==> ring == 0)
    }

    // Slots per request; only meaningful where `_calculate_mamba_ratio` returns.
    function Ratio(): (ratio: nat)
      ensures 1 <= ratio
    {
      if SlotRatio(flags).Ok? then SlotRatio(flags).value else 1
    }

    predicate Intermediate() {
      speculative && !replay
    }
  }

  // Python's `//` on floats.
  function FloorDiv(x: real, y: real): int
    requires 0.0 < y
  {
    (x / y).Floor
  }

  lemma FloorDivGalois(x: real, y: real, n: int)
    requires 0.0 < y
    ensures n <= FloorDiv(x, y) <==> n as real * y <= x
  {
    var q := x / y;
    FloorGalois(q, n);
    QuotientGalois(q, y, x, n as real);
  }

  lemma QuotientGalois(q: real, y: real, x: real, n: real)
    requires 0.0 < y && q * y == x
    ensures n <= q <==> n * y <= x
  {
    if n <= q { Scaled(n, q, y); } else { StrictlyScaled(q, n, y); }
  }

  lemma FloorGalois(q: real, n: int)
    ensures n <= q.Floor <==> n as real <= q
  {
  }

  lemma Scaled(a: real, b: real, c: real)
    requires a <= b && 0.0 <= c
    ensures a * c <= b * c
  {
  }

  lemma StrictlyScaled(a: real, b: real, c: real)
    requires a < b && 0.0 < c
    ensures a * c < b * c
  {
  }

  function Share(s: Setup, total: real): real
    requires s.Valid()
  {
    total * s.memoryRatio / (1.0 + s.memoryRatio) * GIB
  }

  // Bytes of the state pool with `slots` slots, padding slot included.
  function StateBytes(s: Setup, slots: int): int {
    (slots + 1) * (s.perRequest + s.ring)
  }

  // Requests that get intermediate buffers, and their bytes, padding included.
  function BufferedRequests(s: Setup, slots: int): int
    requires s.Valid()
  {
    Arithmetic.Min(s.maxRunning / s.workers, slots / s.Ratio())
  }

  function IntermediateBytes(s: Setup, slots: int): int
    requires s.Valid()
  {
    if s.Intermediate() then s.perRequest * (BufferedRequests(s, slots) + 1) * s.draftTokens else 0
  }

  // What a size takes in all.
  function UsedBytes(s: Setup, slots: int): int
    requires s.Valid()
  {
    StateBytes(s, slots) + IntermediateBytes(s, slots)
  }

  // Bytes one more slot costs, its share of the intermediate buffers included.
  function SlotBytes(s: Setup): (bytes: real)
    requires s.Valid()
    ensures 0.0 < bytes
  {
    if s.Intermediate() then s.perRequest as real * (1.0 + s.draftTokens as real / s.Ratio() as real)
    else s.perRequest as real + s.ring as real
  }

  // Bytes of the padding slots.
  function PaddingBytes(s: Setup): real {
    if s.Intermediate() then s.perRequest as real * (1.0 + s.draftTokens as real)
    else s.perRequest as real + s.ring as real
  }

  // The solver's estimate: as if every slot brought its share of the buffers.
  function EstimatedBytes(s: Setup, slots: int): real
    requires s.Valid()
  {
    slots as real * SlotBytes(s) + PaddingBytes(s)
  }

  function FittedSlots(s: Setup, total: real): int
    requires s.Valid()
  {
    FloorDiv(Share(s, total) - PaddingBytes(s), SlotBytes(s))
  }

  // A size that uses its share of the buffers in full: whole requests, no more
  // of them than may run.
  predicate Exact(s: Setup, slots: int)
    requires s.Valid()
  {
    s.Intermediate() ==> slots % s.Ratio() == 0 && slots / s.Ratio() <= s.maxRunning / s.workers
  }

  // --- Against the estimate ------------------------------------------------------

  lemma RealProduct(a: int, b: int)
    ensures (a * b) as real == a as real * b as real
  {
  }

  // The estimate is ahead by the buffers of the requests that do not get one.
  lemma EstimateAhead(n: real, b: real, r: real, d: real, p: real)
    requires 0.0 < r
    ensures n * (p * (1.0 + d / r)) + p * (1.0 + d) - ((n + 1.0) * p + p * (b + 1.0) * d) == (n - b * r) * (p * (d / r))
  {
    var x := d / r;
    assert x * r == d;
    assert n * (p * (1.0 + x)) == n * p + n * (p * x) by { assert p * (1.0 + x) == p + p * x; }
    assert p * (b + 1.0) * d == p * b * d + p * d by { assert p * (b + 1.0) == p * b + p; }
    assert (n - b * r) * (p * x) == n * (p * x) - b * r * (p * x);
    Regroup(b, r, p, x, d);
  }

  lemma Regroup(b: real, r: real, p: real, x: real, d: real)
    requires x * r == d
    ensures p * b * d == b * r * (p * x)
  {
  }

  function Buffers(n: int, b: int, d: nat, p: nat): int {
    (n + 1) * p + p * (b + 1) * d
  }

  function Estimate(n: int, r: nat, d: nat, p: nat): real
    requires 0 < r
  {
    n as real * (p as real * (1.0 + d as real / r as real)) + p as real * (1.0 + d as real)
  }

  lemma BuffersAgainstEstimate(n: int, b: int, r: nat, d: nat, p: nat)
    requires 0 < r && b * r <= n
    ensures Buffers(n, b, d, p) as real <= Estimate(n, r, d, p)
    ensures b * r == n ==> Buffers(n, b, d, p) as real == Estimate(n, r, d, p)
  {
    EstimateIsAhead(n, b, r, d, p);
    GapIsFree(n, b, r, d, p);
  }

  // What the estimate counts for requests without a buffer.
  function Gap(n: int, b: int, r: nat, d: nat, p: nat): real
    requires 0 < r
  {
    (n as real - b as real * r as real) * (p as real * (d as real / r as real))
  }

  lemma EstimateIsAhead(n: int, b: int, r: nat, d: nat, p: nat)
    requires 0 < r
    ensures Estimate(n, r, d, p) == Buffers(n, b, d, p) as real + Gap(n, b, r, d, p)
  {
    EstimateAhead(n as real, b as real, r as real, d as real, p as real);
    BuffersAsReal(n, b, d, p);
  }

  lemma BuffersAsReal(n: int, b: int, d: nat, p: nat)
    ensures Buffers(n, b, d, p) as real
         == (n as real + 1.0) * p as real + p as real * (b as real + 1.0) * d as real
  {
    RealProduct(n + 1, p);
    RealProduct(p, b + 1);
    RealProduct(p * (b + 1), d);
  }

  lemma GapIsFree(n: int, b: int, r: nat, d: nat, p: nat)
    requires 0 < r && b * r <= n
    ensures 0.0 <= Gap(n, b, r, d, p) && (b * r == n ==> Gap(n, b, r, d, p) == 0.0)
  {
    var x := d as real / r as real;
    RealProduct(b, r);
    Scaled(0.0, x, p as real);
    Scaled(0.0, n as real - b as real * r as real, p as real * x);
  }

  lemma BuffersWithinShare(s: Setup, slots: nat)
    requires s.Valid()
    ensures BufferedRequests(s, slots) * s.Ratio() <= slots
    ensures slots % s.Ratio() == 0 && slots / s.Ratio() <= s.maxRunning / s.workers ==>
      BufferedRequests(s, slots) * s.Ratio() == slots
  {
    var ratio := s.Ratio();
    Arithmetic.Split(slots, ratio);
    if s.maxRunning / s.workers < slots / ratio {
      Arithmetic.MulMonotone(s.maxRunning / s.workers, slots / ratio, ratio);
    }
  }

  lemma PlainBytes(slots: int, q: nat)
    ensures ((slots + 1) * q) as real == slots as real * q as real + q as real
  {
    RealProduct(slots + 1, q);
  }

  // No size takes more than the estimate, and an exact one takes just that.
  lemma UsedWithinEstimate(s: Setup, slots: nat)
    requires s.Valid()
    ensures UsedBytes(s, slots) as real <= EstimatedBytes(s, slots)
    ensures Exact(s, slots) ==> UsedBytes(s, slots) as real == EstimatedBytes(s, slots)
  {
    if s.Intermediate() {
      UsedIsBuffers(s, slots);
      EstimatedIsEstimate(s, slots);
      BuffersWithinShare(s, slots);
      BuffersAgainstEstimate(slots, BufferedRequests(s, slots), s.Ratio(), s.draftTokens, s.perRequest);
    } else {
      PlainIsEstimate(s, slots);
    }
  }

  lemma UsedIsBuffers(s: Setup, slots: nat)
    requires s.Valid() && s.Intermediate()
    ensures UsedBytes(s, slots) == Buffers(slots, BufferedRequests(s, slots), s.draftTokens, s.perRequest)
  {
    assert s.perRequest + s.ring == s.perRequest;
  }

  lemma EstimatedIsEstimate(s: Setup, slots: nat)
    requires s.Valid() && s.Intermediate()
    ensures EstimatedBytes(s, slots) == Estimate(slots, s.Ratio(), s.draftTokens, s.perRequest)
  {
  }

  lemma PlainIsEstimate(s: Setup, slots: nat)
    requires s.Valid() && !s.Intermediate()
    ensures UsedBytes(s, slots) as real == EstimatedBytes(s, slots)
  {
    PlainBytes(slots, s.perRequest + s.ring);
  }

  // Every size up to the chosen one fits the share; an exact size fits if and
  // only if it is no larger.
  lemma FitsUpToChosen(s: Setup, total: real, slots: nat)
    requires s.Valid()
    ensures slots <= FittedSlots(s, total) ==> UsedBytes(s, slots) as real <= Share(s, total)
    ensures Exact(s, slots) ==> (UsedBytes(s, slots) as real <= Share(s, total) <==> slots <= FittedSlots(s, total))
  {
    UsedWithinEstimate(s, slots);
    EstimateFits(s, total, slots);
  }

  lemma EstimateFits(s: Setup, total: real, slots: int)
    requires s.Valid()
    ensures EstimatedBytes(s, slots) <= Share(s, total) <==> slots <= FittedSlots(s, total)
  {
    FloorDivGalois(Share(s, total) - PaddingBytes(s), SlotBytes(s), slots);
  }

  // A size at which one more request gets its buffer.
  predicate OpensBuffer(s: Setup, slots: int)
    requires s.Valid()
  {
    s.Intermediate() && Exact(s, slots)
  }

  lemma NextQuotient(n: nat, ratio: nat)
    requires 0 < ratio
    ensures (n + 1) / ratio == n / ratio + if (n + 1) % ratio == 0 then 1 else 0
  {
    var (q, r) := (n / ratio, n % ratio);
    Arithmetic.Split(n, ratio);
    Arithmetic.Successor(q, ratio);
    if r + 1 == ratio {
      Arithmetic.QuotientUnique(n + 1, ratio, q + 1, 0);
    } else {
      Arithmetic.QuotientUnique(n + 1, ratio, q, r + 1);
    }
  }

  lemma NextBuffered(s: Setup, slots: nat)
    requires s.Valid() && s.Intermediate()
    ensures BufferedRequests(s, slots + 1) == BufferedRequests(s, slots) + if OpensBuffer(s, slots + 1) then 1 else 0
  {
    NextQuotient(slots, s.Ratio());
  }

  lemma BufferProduct(p: int, b: int, d: int)
    ensures p * (b + 2) * d == p * (b + 1) * d + p * d
  {
    assert p * (b + 2) == p * (b + 1) + p;
    Arithmetic.Distributes(p * (b + 1), p, d);
  }

  // One more slot costs its own state, and a buffer if it opens one.
  lemma NextSlotBytes(s: Setup, slots: nat)
    requires s.Valid()
    ensures UsedBytes(s, slots + 1)
         == UsedBytes(s, slots) + s.perRequest + s.ring
            + if OpensBuffer(s, slots + 1) then s.perRequest * s.draftTokens else 0
  {
    Arithmetic.Successor(slots + 1, s.perRequest + s.ring);
    if s.Intermediate() {
      NextBuffered(s, slots);
      BufferProduct(s.perRequest, BufferedRequests(s, slots), s.draftTokens);
    }
  }

  lemma {:induction false} UsedGrows(s: Setup, a: nat, b: nat)
    requires s.Valid() && a <= b
    ensures UsedBytes(s, a) <= UsedBytes(s, b)
  {
    if a < b {
      UsedGrows(s, a, b - 1);
      NextSlotBytes(s, b - 1);
      Arithmetic.MulMonotone(0, s.perRequest, s.draftTokens);
    }
  }

  // The chosen size leaves room for one more slot's state, and that slot would not
  // open a buffer.
  predicate LeavesRoom(s: Setup, total: real)
    requires s.Valid()
  {
    var k := FittedSlots(s, total);
    !Exact(s, k + 1) && (UsedBytes(s, k) + s.perRequest + s.ring) as real <= Share(s, total)
  }

  // Some larger size fits exactly when the next one does, and that is when the
  // chosen size leaves such room.
  lemma LargerSizeFits(s: Setup, total: real)
    requires s.Valid() && 0 < FittedSlots(s, total)
    ensures var k := FittedSlots(s, total);
      && (UsedBytes(s, k + 1) as real <= Share(s, total) <==> LeavesRoom(s, total))
      && ((exists n: nat :: k < n && UsedBytes(s, n) as real <= Share(s, total)) <==> LeavesRoom(s, total))
  {
    var k: nat := FittedSlots(s, total);
    var next := k + 1;
    NextSlotFits(s, total, k);
    if n: nat :| k < n && UsedBytes(s, n) as real <= Share(s, total) { UsedGrows(s, next, n); }
    if LeavesRoom(s, total) { assert k < next && UsedBytes(s, next) as real <= Share(s, total); }
  }

  lemma NextSlotFits(s: Setup, total: real, k: nat)
    requires s.Valid() && k == FittedSlots(s, total)
    ensures UsedBytes(s, k + 1) as real <= Share(s, total) <==> LeavesRoom(s, total)
  {
    FitsUpToChosen(s, total, k + 1);
    NextSlotBytes(s, k);
  }

  // An inexact size beyond the chosen one may still fit: one request runs at most
  // here, so that further slots bring no buffers, but the estimate counts some.
  lemma LargerSizeMayFit()
    ensures var s := Setup(1, 0, true, false, 3, 1, 1, Flags(false, false, false, false, false), 1.0);
      var total := 208.0 / GIB;
      s.Valid() && FittedSlots(s, total) == 50 && !Exact(s, 51) && UsedBytes(s, 51) as real <= Share(s, total)
  {
    var s := Setup(1, 0, true, false, 3, 1, 1, Flags(false, false, false, false, false), 1.0);
    var total := 208.0 / GIB;
    assert s.Ratio() == 3 && Share(s, total) == 104.0;
    assert SlotBytes(s) == 2.0 && PaddingBytes(s) == 4.0;
    assert FittedSlots(s, total) == 50;
    assert BufferedRequests(s, 51) == 1;
  }

  lemma Remainder(s: Setup, total: real, used: real)
    requires s.Valid() && used <= Share(s, total)
    ensures total - used / GIB >= total / (1.0 + s.memoryRatio)
  {
  }

  // The auto-fit branch of `_handle_max_mamba_cache`: the memory left, in GiB, and
  // the number of slots.
  method AutoFit(s: Setup, total: real) returns (r: Result<(real, int), Error>)
    requires s.Valid()
    ensures r == Err(AssertionFailed) <==> s.Intermediate() && !SlotRatio(s.flags).Ok?
    ensures r.Ok? <==> r != Err(AssertionFailed) && 0 < FittedSlots(s, total)
    ensures r.Ok? ==>
      && r.value.1 == FittedSlots(s, total)
      && UsedBytes(s, r.value.1) as real <= Share(s, total)
      && r.value.0 == total - UsedBytes(s, r.value.1) as real / GIB
      && r.value.0 >= total / (1.0 + s.memoryRatio)
  {
    if s.Intermediate() && !SlotRatio(s.flags).Ok? { return Err(AssertionFailed); }
    var slots := FittedSlots(s, total);
    var rest := total;
    if s.Intermediate() {
      rest := rest - IntermediateBytes(s, slots) as real / GIB;
    }
    if slots <= 0 { return Err(OutOfMemory); }
    FitsUpToChosen(s, total, slots);
    rest := rest - StateBytes(s, slots) as real / GIB;
    Remainder(s, total, UsedBytes(s, slots) as real);
    return Ok((rest, slots));
  }

  // --- Admission --------------------------------------------------------------------

  // `resolve_max_num_reqs` for a model with recurrent state; `estimated` is the
  // profiled bound, `requested` the user's limit over all workers.
  function AdmittedRequests(tokenCapacity: nat, estimated: nat, requested: Option<nat>, workers: nat, cacheSize: nat,
                            ratio: Result<nat, Error>): (r: Result<nat, Error>)
    requires 0 < workers && (ratio.Ok? ==> 0 < ratio.value)
    ensures r.Ok? ==> ratio.Ok? && 0 < r.value <= cacheSize / ratio.value && r.value <= tokenCapacity / 2
    ensures r.Ok? && requested.Some? ==> r.value <= requested.value / workers
  {
    if !ratio.Ok? then ratio
    else
      var wanted := if requested.Some? then requested.value / workers else estimated;
      var bounded := Arithmetic.Min(Arithmetic.Min(wanted, tokenCapacity / 2), cacheSize / ratio.value);
      if bounded <= 0 then Err(OutOfMemory) else Ok(bounded)
  }

  // What may be admitted: two tokens and the slots for each, no more than wanted.
  predicate Admissible(n: nat, tokenCapacity: nat, estimated: nat, requested: Option<nat>, workers: nat,
                       cacheSize: nat, ratio: nat)
  {
    && 2 * n <= tokenCapacity && n * ratio <= cacheSize
    && if requested.Some? then n * workers <= requested.value else n <= estimated
  }

  // As many as possible are admitted, and none only if not even one can be.
  lemma AdmitsMost(n: nat, tokenCapacity: nat, estimated: nat, requested: Option<nat>, workers: nat, cacheSize: nat,
                   ratio: nat)
    requires 0 < n && 0 < workers && 0 < ratio
    ensures var r := AdmittedRequests(tokenCapacity, estimated, requested, workers, cacheSize, Ok(ratio));
      Admissible(n, tokenCapacity, estimated, requested, workers, cacheSize, ratio) <==> r.Ok? && n <= r.value
  {
    Arithmetic.DivGalois(tokenCapacity, 2, n);
    Arithmetic.DivGalois(cacheSize, ratio, n);
    if requested.Some? { Arithmetic.DivGalois(requested.value, workers, n); }
  }

  // The slots of every admitted request fit the cache, and every admitted request
  // has the intermediate buffer that the solver paid for.
  lemma AdmittedHaveMemory(s: Setup, total: real, tokenCapacity: nat, estimated: nat)
    requires s.Valid() && 0 < FittedSlots(s, total)
    ensures var k := FittedSlots(s, total);
      var r := AdmittedRequests(tokenCapacity, estimated, Some(s.maxRunning), s.workers, k, SlotRatio(s.flags));
      r.Ok? ==> r.value * s.Ratio() <= k && r.value <= BufferedRequests(s, k)
  {
    var k := FittedSlots(s, total);
    var r := AdmittedRequests(tokenCapacity, estimated, Some(s.maxRunning), s.workers, k, SlotRatio(s.flags));
    if r.Ok? { Arithmetic.DivGalois(k, s.Ratio(), r.value); }
  }
}
