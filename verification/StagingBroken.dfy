/** What one failure of the page reader does to the rest of a run: the reader stays
    broken, the gathers that take the next turn of each slot fail, and all later ones
    are refused. */
module StagingBroken {
  import opened Arithmetic
  import opened Staging
  import opened StagingRuns
  import opened StagingService

  // --- The worker takes calls in order ---------------------------------------------

  // A call that has ended came before all that the worker still has to do.
  predicate BeforeWork(s: State, call: nat) {
    (s.worker != Free ==> call < s.worker.call) && forall i | 0 <= i < |s.queue| :: call < s.queue[i]
  }

  predicate WorkInOrder(s: State) {
    && (forall i, j | 0 <= i < j < |s.queue| :: s.queue[i] < s.queue[j])
    && (s.worker != Free ==> forall i | 0 <= i < |s.queue| :: s.worker.call < s.queue[i])
    && forall call | call in s.tickets && !s.tickets[call].status.Running? :: BeforeWork(s, call)
  }

  // A call whose rows have begun to arrive has met a sound reader.
  predicate ReaderSound(s: State) {
    (s.worker.Gathering? && s.worker.row > 0) || s.worker.Launching? || s.worker.Marking? || s.worker.Resolving? ==>
      !Broken(s)
  }

  predicate LaunchedFirst(s: State, e: nat, call: nat) {
    HasStatus(s, e, Failed) && HasStatus(s, call, Launched) ==> call < e
  }

  ghost predicate OneBreak(s: State) {
    && WorkInOrder(s) && ReaderSound(s)
    && forall e: nat, call: nat :: LaunchedFirst(s, e, call)
  }

  // What the caller submits comes after all that it has submitted.
  predicate SubmitsLast(s: State) {
    s.caller.Submitting? ==> forall call | call in s.tickets :: call < s.next
  }

  lemma CallerSubmitsLast(c: Config, s: State)
    requires Sized(c, s) && Calls(c, s)
    ensures SubmitsLast(s)
  {
    forall call | call in s.tickets && s.caller.Submitting? ensures call < s.next { assert CallInv(c, s, call); }
  }

  lemma CallerKeepsOrder(s: State, t: State)
    requires Jobs(s) && WorkInOrder(s) && SubmitsLast(s) && SubmitsNext(s, t)
    ensures WorkInOrder(t)
  {
    forall call | call in t.tickets && !t.tickets[call].status.Running? ensures BeforeWork(t, call) {
      assert BeforeWork(s, call);
    }
  }

  lemma CallerStaysSound(s: State, t: State)
    requires Jobs(s) && ReaderSound(s) && SubmitsLast(s) && SubmitsNext(s, t)
    ensures ReaderSound(t)
  {
  }

  lemma CallerKeepsFirst(s: State, t: State, e: nat, call: nat)
    requires LaunchedFirst(s, e, call) && SubmitsLast(s) && SubmitsNext(s, t)
    ensures LaunchedFirst(t, e, call)
  {
  }

  lemma CallerKeepsBreak(s: State, t: State)
    requires Jobs(s) && OneBreak(s) && SubmitsLast(s) && SubmitsNext(s, t)
    ensures OneBreak(t)
  {
    CallerKeepsOrder(s, t);
    CallerStaysSound(s, t);
    forall e: nat, call: nat ensures LaunchedFirst(t, e, call) { CallerKeepsFirst(s, t, e, call); }
  }

  lemma WorkerKeepsQueue(c: Config, s: State)
    requires Sized(c, s) && WorkerEnabled(c, s)
    ensures var t := WorkerNext(c, s);
      || (t.queue == s.queue && (t.worker == Free || (s.worker != Free && t.worker.call == s.worker.call)))
      || (s.worker == Free && s.queue != [] && t.worker == Syncing(s.queue[0]) && t.queue == s.queue[1..]
          && t.tickets == s.tickets)
  {
  }

  lemma WorkerEnds(c: Config, s: State, call: nat)
    requires Sized(c, s) && Jobs(s) && WorkerEnabled(c, s) && call in WorkerNext(c, s).tickets
    ensures !WorkerNext(c, s).tickets[call].status.Running? ==>
      call in s.tickets
      && (!s.tickets[call].status.Running?
          || (s.worker != Free && call == s.worker.call && WorkerNext(c, s).worker == Free))
  {
  }

  lemma WorkerKeepsOrder(c: Config, s: State)
    requires Sized(c, s) && Jobs(s) && WorkerEnabled(c, s) && WorkInOrder(s)
    ensures WorkInOrder(WorkerNext(c, s))
  {
    var t := WorkerNext(c, s);
    WorkerKeepsQueue(c, s);
    forall call | call in t.tickets && !t.tickets[call].status.Running? ensures BeforeWork(t, call) {
      WorkerEnds(c, s, call);
      if !s.tickets[call].status.Running? { assert BeforeWork(s, call); }
    }
  }

  lemma WorkerStaysSound(c: Config, s: State)
    requires Sized(c, s) && Jobs(s) && WorkerEnabled(c, s) && ReaderSound(s)
    ensures ReaderSound(WorkerNext(c, s))
  {
  }

  // A call is launched by a reader that has never failed, and fails behind all
  // that have been launched.
  lemma WorkerKeepsFirst(c: Config, s: State, e: nat, call: nat)
    requires Sized(c, s) && Jobs(s) && WorkerEnabled(c, s) && OneBreak(s)
    ensures LaunchedFirst(WorkerNext(c, s), e, call)
  {
    assert LaunchedFirst(s, e, call);
    if HasStatus(s, call, Launched) { assert BeforeWork(s, call); }
  }

  lemma FailKeepsBreak(s: State)
    requires Jobs(s) && FailEnabled(s) && OneBreak(s)
    ensures OneBreak(FailNext(s))
  {
    forall e: nat, call: nat ensures LaunchedFirst(FailNext(s), e, call) {
      assert LaunchedFirst(s, e, call);
      if HasStatus(s, call, Launched) { assert BeforeWork(s, call); }
    }
  }

  lemma StreamKeepsBreak(s: State, t: State, i: nat)
    requires OneBreak(s) && StreamFrame(s, t, i)
    ensures OneBreak(t)
  {
    forall e: nat, call: nat ensures LaunchedFirst(t, e, call) { assert LaunchedFirst(s, e, call); }
    forall call | call in t.tickets && !t.tickets[call].status.Running? ensures BeforeWork(t, call) {
      assert BeforeWork(s, call);
    }
  }

  lemma StepKeepsBreak(c: Config, s: State, a: Action)
    requires Inv(c, s) && OneBreak(s) && Enabled(c, s, a)
    ensures OneBreak(Next(c, s, a))
  {
    match a
    case CallerStep =>
      CallerSubmits(c, s);
      CallerSubmitsLast(c, s);
      CallerKeepsBreak(s, CallerNext(c, s));
    case WorkerStep =>
      WorkerKeepsOrder(c, s);
      WorkerStaysSound(c, s);
      forall e: nat, call: nat ensures LaunchedFirst(WorkerNext(c, s), e, call) { WorkerKeepsFirst(c, s, e, call); }
    case WorkerFails => FailKeepsBreak(s);
    case StreamStep(i) =>
      StreamKeepsFrame(c, s, i);
      StreamKeepsBreak(s, StreamNext(c, s, i), i);
  }

  lemma {:induction false} RunKeepsBreak(c: Config, s: State, actions: seq<Action>, t: State)
    requires Inv(c, s) && OneBreak(s) && Run(c, s, actions, t)
    ensures Inv(c, t) && OneBreak(t)
    decreases |actions|
  {
    if actions != [] {
      StepKeepsInv(c, s, actions[0]);
      StepKeepsBreak(c, s, actions[0]);
      RunKeepsBreak(c, Next(c, s, actions[0]), actions[1..], t);
    }
  }

  // --- After the first failure --------------------------------------------------------

  // In every reachable state: nothing that was called after a failed gather has
  // been launched.
  lemma NothingLaunchedAfter(c: Config, start: State, actions: seq<Action>, s: State, f: nat, call: nat)
    requires Initial(c, start) && Run(c, start, actions, s) && HasStatus(s, f, Failed) && f < call
    ensures !HasStatus(s, call, Launched)
  {
    assert OneBreak(start);
    RunKeepsBreak(c, start, actions, s);
    assert LaunchedFirst(s, f, call);
  }

  predicate FirstFailed(s: State, f: nat) {
    HasStatus(s, f, Failed) && forall e | e in s.tickets && s.tickets[e].status.Failed? :: f <= e
  }

  // How a gather ends when gather f is the first that fails: exact before it; failed
  // if it takes the next turn of its slot; refused from then on.
  predicate EndsBroken(c: Config, s: State, f: nat, call: nat)
    requires f < |c.commands| && call < |c.commands|
  {
    if call < f then HasStatus(s, call, Launched) && IsGather(c, call) && call in s.outputs
                     && s.outputs[call] == Wanted(c, call)
    else if Gathers(c, call) < Gathers(c, f) + c.slots then HasStatus(s, call, Failed)
    else call !in s.tickets
  }

  lemma {:induction false} GathersGrow(c: Config, a: nat, b: nat)
    requires a <= b <= |c.commands|
    ensures Gathers(c, a) <= Gathers(c, b)
    ensures a < b && IsGather(c, a) ==> Gathers(c, a) < Gathers(c, b)
  {
    if a < b { GathersGrow(c, a, b - 1); }
  }

  lemma {:induction false} GatherAt(c: Config, n: nat, i: nat) returns (h: nat)
    requires n <= |c.commands| && i < Gathers(c, n)
    ensures h < n && IsGather(c, h) && Gathers(c, h) == i
  {
    if IsGather(c, n - 1) && Gathers(c, n - 1) == i { h := n - 1; } else { h := GatherAt(c, n - 1, i); }
  }

  lemma NotRefusedYet(c: Config, s: State, f: nat, call: nat)
    requires Inv(c, s) && Service(c, s) && FirstFailed(s, f) && IsGather(c, call)
    requires call < f || (f <= call && Gathers(c, call) < Gathers(c, f) + c.slots)
    ensures !RetiredBefore(s, Landing(c, call), call)
  {
    var k := Landing(c, call);
    if k < |s.slots| && s.slots[k].future.Some? && RetiredBefore(s, k, call) {
      var e := s.slots[k].future.value;
      assert SlotInv(c, s, k) && CallInv(c, s, e) && LandsAt(c, e, k);
      OtherTurn(c, f, e, call);
    }
  }

  // Gathers less than a round apart take different slots.
  lemma OtherTurn(c: Config, f: nat, e: nat, call: nat)
    requires 0 < c.slots && f <= e < call < |c.commands| && IsGather(c, e)
    requires Gathers(c, call) < Gathers(c, f) + c.slots
    ensures Landing(c, e) != Landing(c, call)
  {
    GathersGrow(c, f, e);
    GathersGrow(c, e, call);
    if Landing(c, e) == Landing(c, call) { RingInjective(Gathers(c, e), Gathers(c, call), c.slots); }
  }

  // The gather that last took the slot of `call` in the first round from f on.
  lemma SameTurn(c: Config, f: nat, call: nat) returns (h: nat)
    requires 0 < c.slots && f <= call < |c.commands| && IsGather(c, f)
    requires Gathers(c, f) + c.slots <= Gathers(c, call)
    ensures f <= h < call && IsGather(c, h) && Gathers(c, h) < Gathers(c, f) + c.slots
    ensures Landing(c, h) == Landing(c, call)
  {
    var (first, ahead) := (Gathers(c, f), Gathers(c, call) - Gathers(c, f));
    Split(ahead, c.slots);
    var i := first + ahead % c.slots;
    assert Gathers(c, call) == ahead / c.slots * c.slots + i;
    DivAddMultiple(ahead / c.slots, c.slots, i);
    h := GatherAt(c, call, i);
    if h < f { GathersGrow(c, h, f); }
  }

  lemma FirstRoundEnds(c: Config, start: State, actions: seq<Action>, s: State, f: nat, call: nat)
    requires Initial(c, start) && Run(c, start, actions, s) && Finished(c, s) && FirstFailed(s, f) && IsGather(c, call)
    requires f < |c.commands| && (call < f || Gathers(c, call) < Gathers(c, f) + c.slots)
    ensures EndsBroken(c, s, f, call)
  {
    ReachableService(c, start, actions, s);
    ServedUnlessRetired(c, start, actions, s, call);
    NotRefusedYet(c, s, f, call);
    FinishedTicket(c, s, call);
    if f < call { NothingLaunchedAfter(c, start, actions, s, f, call); }
  }

  lemma LaterIsRefused(c: Config, start: State, actions: seq<Action>, s: State, f: nat, call: nat)
    requires Initial(c, start) && Run(c, start, actions, s) && Finished(c, s) && FirstFailed(s, f) && IsGather(c, call)
    requires f <= call && f < |c.commands| && IsGather(c, f) && Gathers(c, f) + c.slots <= Gathers(c, call)
    ensures call !in s.tickets
  {
    ReachableService(c, start, actions, s);
    var h := SameTurn(c, f, call);
    FirstRoundEnds(c, start, actions, s, f, h);
    assert FailureStored(s, h) && LandsAt(c, h, s.tickets[h].slot);
    ServedUnlessRetired(c, start, actions, s, call);
  }

  // At the end of a run whose reader has failed, every valid gather before the first
  // failure is exact, the next one on each slot has failed, and all later ones have
  // been refused.
  lemma FailureBreaksTheRest(c: Config, start: State, actions: seq<Action>, s: State, f: nat, call: nat)
    requires Initial(c, start) && Run(c, start, actions, s) && Finished(c, s) && FirstFailed(s, f) && IsGather(c, call)
    ensures f < |c.commands| && EndsBroken(c, s, f, call)
  {
    ReachableInv(c, start, actions, s);
    assert CallInv(c, s, f);
    if f <= call && Gathers(c, f) + c.slots <= Gathers(c, call) {
      LaterIsRefused(c, start, actions, s, f, call);
    } else {
      FirstRoundEnds(c, start, actions, s, f, call);
    }
  }
}
