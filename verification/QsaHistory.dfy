/** What a run has committed: the keys of a request, and the pages that hold them,
    follow from the operations since its admission alone. */
module QsaHistory {
  import opened QsaAddressing
  import opened QsaCache
  import opened QsaRun

  // --- One step -----------------------------------------------------------------

  // A paged forward commits the accepted rows of each entry; ...
  lemma PagedCommits(m: Model, s: State, op: Op, t: State)
    requires m.g.Valid() && Sized(m, s) && Step(m, s, op, t) && op.Paged?
    ensures Appends(s.holders, t.holders, op.batch, op.accepts)
  {
    CommitAppends(m, s, op.batch, op.accepts);
  }

  // ... an extend forward commits its chunks whole; ...
  lemma ExtendCommits(m: Model, s: State, op: Op, t: State)
    requires m.g.Valid() && Sized(m, s) && Step(m, s, op, t) && op.Extend?
    ensures Appends(s.holders, t.holders, op.batch, Whole(op.batch))
  {
    WholeChunks(m, s, op.batch);
  }

  // The holder that an allocator move is about.
  function Mover(op: Allocation): Holder {
    match op
    case Admit(slot, _, _, _) => Live(slot)
    case Grow(slot, _) => Live(slot)
    case Cache(node, _, _) => Cached(node)
    case Release(holder) => holder
  }

  // What some full pages of a holder pass on.
  function SharedPages(holders: map<Holder, Request>, donor: Holder, fullPages: nat): seq<nat> {
    if fullPages != 0 && donor in holders && fullPages <= |holders[donor].pages|
    then holders[donor].pages[..fullPages] else []
  }

  function SharedKeys(g: Geometry, holders: map<Holder, Request>, donor: Holder, fullPages: nat): seq<Key> {
    if fullPages != 0 && donor in holders && fullPages * g.page <= |holders[donor].keys|
    then holders[donor].keys[..fullPages * g.page] else []
  }

  // ... and an allocator move is about one holder: a request is admitted with the
  // shared pages and their keys, gains pages, is cached, or is gone.
  lemma AllocatorMoves(m: Model, s: State, op: Allocation, t: State)
    requires m.g.Valid() && Sized(m, s) && Step(m, s, Allocator(op), t)
    ensures forall h | h != Mover(op) ::
              (h in t.holders <==> h in s.holders) && (h in s.holders ==> t.holders[h] == s.holders[h])
    ensures Mover(op) in t.holders <==> !op.Release?
    ensures op.Admit? ==> Shares(m.g, s.holders, op.donor, op.fullPages, op.added, t.holders[Live(op.slot)])
    ensures op.Grow? ==> Live(op.slot) in s.holders
    ensures op.Grow? ==> t.holders[Live(op.slot)].pages == s.holders[Live(op.slot)].pages + op.added
    ensures op.Grow? ==> t.holders[Live(op.slot)].keys == s.holders[Live(op.slot)].keys
    ensures op.Cache? ==> Shares(m.g, s.holders, op.source, op.fullPages, [], t.holders[Cached(op.node)])
  {
  }

  predicate Shares(g: Geometry, holders: map<Holder, Request>, donor: Holder, fullPages: nat, added: seq<nat>,
                   r: Request)
  {
    r.pages == SharedPages(holders, donor, fullPages) + added && r.keys == SharedKeys(g, holders, donor, fullPages)
  }

  // --- A run ------------------------------------------------------------------------

  // What one operation adds to the keys of a request: the accepted rows of its own
  // batch entry, or its whole chunk.
  function RowsOf(batch: seq<Growth>, slot: nat): seq<Key> {
    if batch == [] then [] else if batch[0].slot == slot then batch[0].keys else RowsOf(batch[1..], slot)
  }

  function AcceptedRows(batch: seq<Growth>, accepts: seq<nat>, slot: nat): seq<Key> {
    if batch == [] || accepts == [] then []
    else if batch[0].slot == slot && accepts[0] <= |batch[0].keys| then batch[0].keys[..accepts[0]]
    else AcceptedRows(batch[1..], accepts[1..], slot)
  }

  function NewKeys(op: Op, slot: nat): seq<Key> {
    match op
    case Extend(batch, _, _) => RowsOf(batch, slot)
    case Paged(batch, _, _, accepts, _) => AcceptedRows(batch, accepts, slot)
    case _ => []
  }

  function NewPages(op: Op, slot: nat): seq<nat> {
    if op.Allocator? && op.op.Grow? && op.op.slot == slot then op.op.added else []
  }

  // The keys and pages that operations a .. k add, in order.
  function KeysSince(ops: seq<Op>, a: nat, k: nat, slot: nat): seq<Key>
    requires a <= k <= |ops|
  {
    if k == a then [] else KeysSince(ops, a, k - 1, slot) + NewKeys(ops[k - 1], slot)
  }

  function PagesSince(ops: seq<Op>, a: nat, k: nat, slot: nat): seq<nat>
    requires a <= k <= |ops|
  {
    if k == a then [] else PagesSince(ops, a, k - 1, slot) + NewPages(ops[k - 1], slot)
  }

  lemma {:induction false} WholeRows(batch: seq<Growth>, counts: seq<nat>, slot: nat)
    requires |counts| == |batch| && forall i | 0 <= i < |batch| :: counts[i] == |batch[i].keys|
    ensures AcceptedRows(batch, counts, slot) == RowsOf(batch, slot)
  {
    if batch != [] {
      assert batch[0].keys[..counts[0]] == batch[0].keys;
      WholeRows(batch[1..], counts[1..], slot);
    }
  }

  lemma {:induction false} AcceptedOfEntry(batch: seq<Growth>, accepts: seq<nat>, i: nat)
    requires i < |batch| == |accepts| && forall j, k | 0 <= j < k < |batch| :: batch[j].slot != batch[k].slot
    requires accepts[i] <= |batch[i].keys|
    ensures AcceptedRows(batch, accepts, batch[i].slot) == batch[i].keys[..accepts[i]]
  {
    if i > 0 {
      assert batch[1..][i - 1] == batch[i] && accepts[1..][i - 1] == accepts[i];
      AcceptedOfEntry(batch[1..], accepts[1..], i - 1);
    }
  }

  lemma {:induction false} AcceptedOfNone(batch: seq<Growth>, accepts: seq<nat>, slot: nat)
    requires forall i | 0 <= i < |batch| :: batch[i].slot != slot
    ensures AcceptedRows(batch, accepts, slot) == []
  {
    if batch != [] && accepts != [] { AcceptedOfNone(batch[1..], accepts[1..], slot); }
  }

  // A request longer by some keys and pages.
  predicate Extends(before: Request, after: Request, keys: seq<Key>, pages: seq<nat>) {
    after.keys == before.keys + keys && after.pages == before.pages + pages
  }

  predicate DistinctSlots(batch: seq<Growth>) {
    forall i, j | 0 <= i < j < |batch| :: batch[i].slot != batch[j].slot
  }

  lemma AppendsAdds(before: map<Holder, Request>, after: map<Holder, Request>, batch: seq<Growth>, counts: seq<nat>,
                    slot: nat)
    requires Appends(before, after, batch, counts) && DistinctSlots(batch) && Live(slot) in before
    ensures Live(slot) in after
    ensures Extends(before[Live(slot)], after[Live(slot)], AcceptedRows(batch, counts, slot), [])
  {
    if i: nat :| i < |batch| && batch[i].slot == slot {
      assert AppendsEntry(before, after, batch[i], counts[i]);
      AcceptedOfEntry(batch, counts, i);
    } else {
      AcceptedOfNone(batch, counts, slot);
    }
  }

  lemma ForwardAdds(m: Model, s: State, op: Op, t: State, slot: nat)
    requires m.g.Valid() && Sized(m, s) && Step(m, s, op, t) && (op.Extend? || op.Paged?) && Live(slot) in s.holders
    ensures Live(slot) in t.holders
    ensures Extends(s.holders[Live(slot)], t.holders[Live(slot)], NewKeys(op, slot), [])
  {
    if op.Paged? {
      PagedCommits(m, s, op, t);
      AppendsAdds(s.holders, t.holders, op.batch, op.accepts, slot);
    } else {
      ExtendCommits(m, s, op, t);
      AppendsAdds(s.holders, t.holders, op.batch, Whole(op.batch), slot);
      WholeRows(op.batch, Whole(op.batch), slot);
    }
  }

  // A step adds to a request just what its operation has for it, unless it releases
  // the request.
  lemma StepAdds(m: Model, s: State, op: Op, t: State, slot: nat)
    requires m.g.Valid() && Sized(m, s) && Step(m, s, op, t) && Live(slot) in s.holders
    requires op != Allocator(Release(Live(slot)))
    ensures Live(slot) in t.holders
    ensures Extends(s.holders[Live(slot)], t.holders[Live(slot)], NewKeys(op, slot), NewPages(op, slot))
  {
    match op
    case Allocator(a) => AllocatorMoves(m, s, a, t);
    case Drafts(_) =>
    case _ => ForwardAdds(m, s, op, t, slot);
  }

  // Request `slot` was admitted by operation a and has not been released before k.
  predicate Resident(ops: seq<Op>, a: nat, k: nat, slot: nat) {
    && a < k <= |ops| && ops[a].Allocator? && ops[a].op.Admit? && ops[a].op.slot == slot
    && forall i | a < i < k :: ops[i] != Allocator(Release(Live(slot)))
  }

  // The keys of a request: those of the pages it was admitted with, then all that
  // was prefilled or accepted for it since, in order. Nothing rejected is among
  // them, nothing of another request, and no draft.
  function HistoryOf(m: Model, states: seq<State>, ops: seq<Op>, a: nat, k: nat, slot: nat): Request
    requires Resident(ops, a, k, slot) && |states| == |ops| + 1
  {
    var (holders, admit) := (states[a].holders, ops[a].op);
    Request(SharedPages(holders, admit.donor, admit.fullPages) + admit.added + PagesSince(ops, a + 1, k, slot),
            SharedKeys(m.g, holders, admit.donor, admit.fullPages) + KeysSince(ops, a + 1, k, slot))
  }

  lemma Regroup<T>(a: seq<T>, b: seq<T>, c: seq<T>)
    ensures a + b + c == a + (b + c)
  {
  }

  lemma HistoryStep(m: Model, states: seq<State>, ops: seq<Op>, a: nat, k: nat, slot: nat, after: Request)
    requires Resident(ops, a, k, slot) && Resident(ops, a, k + 1, slot) && |states| == |ops| + 1
    requires Extends(HistoryOf(m, states, ops, a, k, slot), after, NewKeys(ops[k], slot), NewPages(ops[k], slot))
    ensures after == HistoryOf(m, states, ops, a, k + 1, slot)
  {
    var (holders, admit) := (states[a].holders, ops[a].op);
    var keys, pages := SharedKeys(m.g, holders, admit.donor, admit.fullPages),
                       SharedPages(holders, admit.donor, admit.fullPages) + admit.added;
    Regroup(keys, KeysSince(ops, a + 1, k, slot), NewKeys(ops[k], slot));
    Regroup(pages, PagesSince(ops, a + 1, k, slot), NewPages(ops[k], slot));
  }

  lemma Admitted(m: Model, states: seq<State>, ops: seq<Op>, a: nat, slot: nat)
    requires m.g.Valid() && Run(m, states, ops) && Resident(ops, a, a + 1, slot)
    ensures Live(slot) in states[a + 1].holders
    ensures states[a + 1].holders[Live(slot)] == HistoryOf(m, states, ops, a, a + 1, slot)
  {
    assert Step(m, states[a], ops[a], states[a + 1]);
    AllocatorMoves(m, states[a], ops[a].op, states[a + 1]);
  }

  lemma HistoryGoesOn(m: Model, states: seq<State>, ops: seq<Op>, a: nat, k: nat, slot: nat)
    requires m.g.Valid() && |states| == |ops| + 1 && Resident(ops, a, k, slot) && Resident(ops, a, k + 1, slot)
    requires Sized(m, states[k]) && Step(m, states[k], ops[k], states[k + 1]) && Live(slot) in states[k].holders
    requires states[k].holders[Live(slot)] == HistoryOf(m, states, ops, a, k, slot)
    ensures Live(slot) in states[k + 1].holders
    ensures states[k + 1].holders[Live(slot)] == HistoryOf(m, states, ops, a, k + 1, slot)
  {
    StepAdds(m, states[k], ops[k], states[k + 1], slot);
    HistoryStep(m, states, ops, a, k, slot, states[k + 1].holders[Live(slot)]);
  }

  lemma {:induction false} KeysAreHistory(m: Model, states: seq<State>, ops: seq<Op>, a: nat, k: nat, slot: nat)
    requires m.g.Valid() && Run(m, states, ops) && Resident(ops, a, k, slot)
    ensures Live(slot) in states[k].holders
    ensures states[k].holders[Live(slot)] == HistoryOf(m, states, ops, a, k, slot)
  {
    if k == a + 1 {
      Admitted(m, states, ops, a, slot);
    } else {
      KeysAreHistory(m, states, ops, a, k - 1, slot);
      HistoryGoesOn(m, states, ops, a, k - 1, slot);
    }
  }

  // So both readers return the pooling of that history, and the ring holds its
  // unfinished group.
  lemma CacheEqualsHistory(m: Model, states: seq<State>, ops: seq<Op>, a: nat, k: nat, slot: nat, row: seq<nat>)
    requires m.g.Valid() && Run(m, states, ops) && Resident(ops, a, k, slot)
    requires var r := HistoryOf(m, states, ops, a, k, slot); RowOf(m.g, r.pages, row) && |r.keys| <= |row|
    ensures var keys := HistoryOf(m, states, ops, a, k, slot).keys;
      && CanReadPacked(m, states[k].compressed, row, |keys|) && CanReadPaged(m, states[k].compressed, row, |keys|)
      && ReadPacked(m, states[k].compressed, row, |keys|) == Recomputed(m, keys)
      && ReadPaged(m, states[k].compressed, row, |keys|) == Recomputed(m, keys)
      && TailHolds(m, states[k].ring, slot, keys)
  {
    KeysAreHistory(m, states, ops, a, k, slot);
    CacheEqualsRecomputation(m, states, ops, k, Live(slot), row);
  }
}
