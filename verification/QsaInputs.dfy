/** Inputs on which the cache code does less than one might expect: a prompt of one
    token, and the same request one token later with the host's padding rows. */
module QsaInputs {
  import opened Arithmetic
  import opened Scatter
  import opened QsaAddressing
  import opened QsaCache
  import opened QsaForward
  import opened QsaRun
  import opened QsaPool
  import opened QsaRing

  // A pool with a request slot and a page besides the reserved ones.
  predicate HasRoom(g: Geometry) {
    g.Valid() && 2 <= g.requests && 2 * g.GroupsPerPage() <= g.capacity
  }

  // The `req_to_token` row of a request on page 1.
  function FirstPageRow(g: Geometry): seq<nat>
    requires g.Valid()
  {
    seq(g.page, p requires 0 <= p < g.page => g.page + p)
  }

  lemma FirstPageRowIs(g: Geometry)
    requires g.Valid()
    ensures RowOf(g, [1], FirstPageRow(g))
  {
    forall p: nat | p < g.page ensures FirstPageRow(g)[p] == RawSlot(g, [1], p) {
      QuotientUnique(p, g.page, 0, p);
    }
  }

  function Prompt(key: Key): seq<Growth> {
    [Growth(1, [key])]
  }

  lemma PromptReady(m: Model, s: State, key: Key)
    requires HasRoom(m.g) && s.holders == map[Live(1) := Request([1], [])]
    ensures ExtendReady(m, s, Prompt(key), [FirstPageRow(m.g)], 1)
    ensures Commit(s, Prompt(key), ChunkLengths(Prompt(key))) == map[Live(1) := Request([1], [key])]
  {
    FirstPageRowIs(m.g);
    QuotientUnique(0, m.g.ratio, 0, 0);
    assert Tokens(Prompt(key), 1) == [key] by { assert Tokens(Prompt(key), 0) == []; }
    assert Grown(s, Prompt(key)[0]) == [key] && [key][..1] == [key];
    assert KeptKeys(s, Prompt(key), ChunkLengths(Prompt(key)), Live(1), 1) == [key];
  }

  // A request is admitted and its prompt of one token prefilled.
  lemma OneTokenPrompt(m: Model, empty: State, key: Key, overrun: Pooled) returns (states: seq<State>, ops: seq<Op>)
    requires HasRoom(m.g) && Initial(m, empty)
    ensures Run(m, states, ops) && ops == [Allocator(Admit(1, Cached(0), 0, [1])),
                                           Extend(Prompt(key), [FirstPageRow(m.g)], 1)]
    ensures states[1].holders == map[Live(1) := Request([1], [])]
    ensures states[2].holders == map[Live(1) := Request([1], [key])]
  {
    var admit := Allocator(Admit(1, Cached(0), 0, [1]));
    var admitted := empty.(holders := map[Live(1) := Request([1], [])]);
    assert Step(m, empty, admit, admitted);
    StepKeepsInv(m, empty, admit, admitted);
    PromptReady(m, admitted, key);
    var extend := Extend(Prompt(key), [FirstPageRow(m.g)], 1);
    var prefilled := Prefilled(m, admitted, key, overrun);
    states, ops := [empty, admitted, prefilled], [admit, extend];
  }

  lemma Prefilled(m: Model, s: State, key: Key, overrun: Pooled) returns (t: State)
    requires HasRoom(m.g) && Inv(m, s) && ExtendReady(m, s, Prompt(key), [FirstPageRow(m.g)], 1)
    ensures Step(m, s, Extend(Prompt(key), [FirstPageRow(m.g)], 1), t)
  {
    var (batch, tables) := (Prompt(key), [FirstPageRow(m.g)]);
    var stores := ExtendStores(m, s, batch, tables, 1, overrun);
    ExtendStoresAreGroupStores(m, s, batch, tables, 1, stores);
    RingStoresInBounds(m, s, batch, true, 0, []);
    GroupStoresInBounds(m, s, batch, stores);
    ApplyIsOutcome(s.ring, RingStores(m, s, batch, true, 0, []));
    ApplyIsOutcome(s.compressed, stores);
    t := State(Apply(s.ring, RingStores(m, s, batch, true, 0, [])), Apply(s.compressed, stores),
               Commit(s, batch, ChunkLengths(batch)));
  }

  // Its inert entry gathers a whole group from a chunk of one token.
  lemma OneTokenPromptGathersPast(m: Model, empty: State, key: Key, overrun: Pooled)
    returns (states: seq<State>, ops: seq<Op>, e: nat)
    requires HasRoom(m.g) && Initial(m, empty)
    ensures Run(m, states, ops) && |ops| == 2
    ensures ExtendReady(m, states[1], Prompt(key), [FirstPageRow(m.g)], 1)
    ensures var plan := ExtendPlan(m, states[1], Prompt(key), [FirstPageRow(m.g)], 1);
            e < |plan| && !MembersInChunk(m, Prompt(key), plan[e])
  {
    states, ops := OneTokenPrompt(m, empty, key, overrun);
    RunKeepsInv(m, states, ops, 1);
    PromptReady(m, states[1], key);
    ExtendGathersInBounds(m, states[1], Prompt(key), [FirstPageRow(m.g)], 1);
    assert |Tokens(Prompt(key), 1)| <= 1;
    e :| e < |ExtendPlan(m, states[1], Prompt(key), [FirstPageRow(m.g)], 1)|
         && !MembersInChunk(m, Prompt(key), ExtendPlan(m, states[1], Prompt(key), [FirstPageRow(m.g)], 1)[e]);
  }

  // One decode step later, a padding row of the host layout may overwrite the
  // key of the prompt, which the unfinished group still needs.
  lemma HostPaddingClobbers(m: Model, empty: State, key: Key, next: Key, padding: Key, overrun: Pooled)
    returns (states: seq<State>, ops: seq<Op>, ring: seq<Key>)
    requires HasRoom(m.g) && Initial(m, empty) && padding != key
    ensures Run(m, states, ops) && |ops| == 2
    ensures ValidBatch(m, states[2], Prompt(next)) && FitsRing(m, Prompt(next))
    ensures HostOutcome(m, states[2], Prompt(next), [padding], ring)
    ensures !AllIntact(m, states[2], Prompt(next), ring)
  {
    states, ops := OneTokenPrompt(m, empty, key, overrun);
    RunKeepsInv(m, states, ops, 2);
    var (s, batch) := (states[2], Prompt(next));
    QuotientUnique(1, m.g.ratio, 0, 1);
    QuotientUnique(0, m.g.ring, 0, 0);
    assert Grown(s, batch[0]) == [key, next];
    assert MeetsPadding(m, s, batch[0], 0) && [padding][0] != Grown(s, batch[0])[0];
    HostPaddingIsExact(m, s, batch, [padding]);
    ring :| HostOutcome(m, s, batch, [padding], ring) && !AllIntact(m, s, batch, ring);
  }
}
