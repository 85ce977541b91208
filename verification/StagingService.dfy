/** Which gathers the staging protocol serves. Slots are taken in turn; a gather
    gets a ticket unless an earlier one failed on the slot it lands on, and every
    consumer of a launched gather reads. */
module StagingService {
  import opened Arithmetic
  import opened Options
  import opened Staging
  import opened StagingRuns

  // Gathers among the first n commands; each takes the next slot in turn.
  function Gathers(c: Config, n: nat): nat
    requires n <= |c.commands|
  {
    if n == 0 then 0 else Gathers(c, n - 1) + if IsGather(c, n - 1) then 1 else 0
  }

  // The slot that a gather lands on.
  function Landing(c: Config, call: nat): nat
    requires call < |c.commands| && 0 < c.slots
  {
    Gathers(c, call) % c.slots
  }

  predicate Acquires(caller: Caller) {
    !caller.Ready? && !caller.Reading?
  }

  predicate InTurn(c: Config, s: State) {
    && Sized(c, s) && s.next <= |c.commands|
    && if Acquires(s.caller)
       then s.next < |c.commands| && IsGather(c, s.next) && s.caller.slot == Landing(c, s.next)
            && s.nextSlot == Gathers(c, s.next + 1) % c.slots
       else s.nextSlot == Gathers(c, s.next) % c.slots
  }

  predicate LandsAt(c: Config, call: nat, k: nat) {
    call < |c.commands| && 0 < c.slots && Landing(c, call) == k
  }

  // The slot's stored future has failed.
  predicate Retired(s: State, k: nat, call: nat) {
    k < |s.slots| && s.slots[k].future == Some(call) && HasStatus(s, call, Failed)
  }

  predicate RetiredBefore(s: State, k: nat, call: nat) {
    k < |s.slots| && s.slots[k].future.Some? && s.slots[k].future.value < call
    && Retired(s, k, s.slots[k].future.value)
  }

  // A failed future is in its slot, or on its way there.
  predicate FailureStored(s: State, call: nat)
    requires call in s.tickets
  {
    HasStatus(s, call, Failed) ==>
      Retired(s, s.tickets[call].slot, call) || (s.caller == Storing(s.tickets[call].slot) && s.next == call)
  }

  // Calls served by one slot before another one there have all been launched.
  predicate Succeeded(s: State, e: nat, call: nat)
    requires e in s.tickets && call in s.tickets
  {
    e < call && s.tickets[e].slot == s.tickets[call].slot ==> s.tickets[e].status.Launched?
  }

  predicate Refused(c: Config, s: State, call: nat) {
    call < s.next && IsGather(c, call) && call !in s.tickets ==>
      0 < c.slots && RetiredBefore(s, Landing(c, call), call)
  }

  // A consumer that has passed a served call has read it, or met its failure.
  ghost predicate Consumed(c: Config, s: State, n: nat) {
    n < s.next && n < |c.commands| && c.commands[n].Consume? && c.commands[n].call < n
    && c.commands[n].call in s.tickets ==>
      HasStatus(s, c.commands[n].call, Failed)
      || exists i: nat :: At(s.log, i, Read(c.commands[n].call)) && s.log[i].stream == c.commands[n].stream
  }

  ghost predicate Service(c: Config, s: State) {
    && InTurn(c, s)
    && (forall call | call in s.tickets :: LandsAt(c, call, s.tickets[call].slot) && FailureStored(s, call))
    && (forall e, call | e in s.tickets && call in s.tickets :: Succeeded(s, e, call))
    && (forall call: nat :: Refused(c, s, call))
    && (forall n: nat :: Consumed(c, s, n))
  }

  // --- What every step keeps ---------------------------------------------------

  // Tickets keep their slots and their outcomes, and streams only grow.
  predicate Grows(s: State, t: State) {
    && s.next <= t.next && |t.slots| == |s.slots|
    && (forall call | call in s.tickets ::
          && call in t.tickets && t.tickets[call].slot == s.tickets[call].slot
          && (!s.tickets[call].status.Running? ==> t.tickets[call].status == s.tickets[call].status))
    && |s.log| <= |t.log|
    && (forall i | 0 <= i < |s.log| :: t.log[i].op == s.log[i].op && t.log[i].stream == s.log[i].stream)
  }

  lemma StepGrows(c: Config, s: State, a: Action)
    requires Inv(c, s) && Enabled(c, s, a)
    ensures Grows(s, Next(c, s, a))
  {
    match a
    case CallerStep =>
      if s.next in s.tickets { assert CallInv(c, s, s.next); }
      CallerKeepsFrame(c, s);
    case WorkerStep => WorkerGrows(c, s);
    case WorkerFails =>
    case StreamStep(i) => StreamKeepsFrame(c, s, i);
  }

  lemma WorkerGrows(c: Config, s: State)
    requires Control(c, s) && Jobs(s) && WorkerEnabled(c, s)
    ensures Grows(s, WorkerNext(c, s)) && WorkerNext(c, s).tickets.Keys == s.tickets.Keys
    ensures WorkerNext(c, s).next == s.next && WorkerNext(c, s).caller == s.caller
  {
    WorkerKeepsFrame(c, s);
  }

  // Only the caller takes slots and moves on; it refuses a call at most.
  lemma CallerKeepsTurn(c: Config, s: State)
    requires Control(c, s) && CallerEnabled(c, s) && InTurn(c, s)
    ensures InTurn(c, CallerNext(c, s))
  {
    NextInTurn(Gathers(c, s.next), c.slots);
  }

  lemma NextInTurn(n: nat, slots: nat)
    requires 0 < slots
    ensures (n % slots + 1) % slots == (n + 1) % slots
  {
    Split(n, slots);
    DivAddMultiple(n / slots, slots, n % slots + 1);
  }

  lemma OthersKeepTurn(c: Config, s: State, a: Action)
    requires Inv(c, s) && Enabled(c, s, a) && !a.CallerStep? && InTurn(c, s)
    ensures InTurn(c, Next(c, s, a))
  {
    if a.StreamStep? { StreamKeepsFrame(c, s, a.index); }
  }

  lemma CallerKeepsRetired(c: Config, s: State, k: nat, call: nat)
    requires Control(c, s) && CallerEnabled(c, s) && Retired(s, k, call)
    requires s.next in s.tickets ==> s.caller.Storing?
    ensures Retired(CallerNext(c, s), k, call)
  {
  }

  lemma WorkerKeepsRetired(c: Config, s: State, k: nat, call: nat)
    requires Control(c, s) && Jobs(s) && WorkerEnabled(c, s) && Retired(s, k, call)
    ensures Retired(WorkerNext(c, s), k, call)
  {
  }

  // A failed future is never cleared.
  lemma StepKeepsRetired(c: Config, s: State, a: Action, k: nat, call: nat)
    requires Inv(c, s) && Enabled(c, s, a) && Retired(s, k, call)
    ensures Retired(Next(c, s, a), k, call)
  {
    match a
    case CallerStep =>
      if s.next in s.tickets { assert CallInv(c, s, s.next); }
      CallerKeepsRetired(c, s, k, call);
    case WorkerStep => WorkerKeepsRetired(c, s, k, call);
    case WorkerFails =>
    case StreamStep(i) =>
      StreamKeepsFrame(c, s, i);
      assert SameEvents(s, StreamNext(c, s, i), k);
  }

  // --- Each part of the invariant ------------------------------------------------

  lemma CallerKeepsFailure(c: Config, s: State, call: nat)
    requires Inv(c, s) && CallerEnabled(c, s) && call in s.tickets && FailureStored(s, call)
    ensures call in CallerNext(c, s).tickets && FailureStored(CallerNext(c, s), call)
  {
    assert CallInv(c, s, call);
    if s.next in s.tickets { assert CallInv(c, s, s.next); }
    if Retired(s, s.tickets[call].slot, call) { CallerKeepsRetired(c, s, s.tickets[call].slot, call); }
  }

  lemma FailureIsStored(c: Config, s: State)
    requires Inv(c, s) && FailEnabled(s)
    ensures FailureStored(FailNext(s), s.worker.call)
  {
    assert CallInv(c, s, s.worker.call);
  }

  lemma StepKeepsFailure(c: Config, s: State, a: Action, call: nat)
    requires Inv(c, s) && Enabled(c, s, a) && call in s.tickets && FailureStored(s, call)
    ensures call in Next(c, s, a).tickets && FailureStored(Next(c, s, a), call)
  {
    StepGrows(c, s, a);
    if Retired(s, s.tickets[call].slot, call) {
      StepKeepsRetired(c, s, a, s.tickets[call].slot, call);
    } else {
      match a
      case CallerStep => CallerKeepsFailure(c, s, call);
      case WorkerStep =>
        WorkerFailsOwn(c, s, call);
        if FailEnabled(s) && call == s.worker.call { FailureIsStored(c, s); }
      case WorkerFails => if call == s.worker.call { FailureIsStored(c, s); }
      case StreamStep(i) => StreamKeepsFrame(c, s, i);
    }
  }

  // The worker fails no call but its own.
  lemma WorkerFailsOwn(c: Config, s: State, call: nat)
    requires Sized(c, s) && WorkerEnabled(c, s) && call in s.tickets
    ensures HasStatus(WorkerNext(c, s), call, Failed) ==>
              HasStatus(s, call, Failed) || (FailEnabled(s) && call == s.worker.call && WorkerNext(c, s) == FailNext(s))
    ensures WorkerNext(c, s).caller == s.caller && WorkerNext(c, s).next == s.next
  {
  }

  // What the caller submits is behind launched calls only.
  lemma SubmittedSucceeds(c: Config, s: State, e: nat)
    requires Inv(c, s) && CallerEnabled(c, s) && s.caller.Submitting? && s.next !in s.tickets
    requires e in s.tickets && FailureStored(s, e) && s.tickets[e].slot == s.caller.slot
    ensures s.tickets[e].status.Launched?
  {
    assert CallInv(c, s, e) && s.caller.Owns(s.caller.slot);
  }

  lemma NewTicket(c: Config, s: State, a: Action, call: nat)
    requires Inv(c, s) && Enabled(c, s, a) && call !in s.tickets && call in Next(c, s, a).tickets
    ensures a.CallerStep? && s.caller.Submitting? && call == s.next
    ensures Next(c, s, a).tickets[call] == Ticket(s.caller.slot, Running)
  {
    match a
    case CallerStep => CallersTicket(c, s, call);
    case WorkerStep => WorkerGrows(c, s);
    case WorkerFails =>
    case StreamStep(i) => StreamKeepsFrame(c, s, i);
  }

  lemma CallersTicket(c: Config, s: State, call: nat)
    requires Sized(c, s) && CallerEnabled(c, s) && call !in s.tickets && call in CallerNext(c, s).tickets
    ensures s.caller.Submitting? && call == s.next && CallerNext(c, s).tickets[call] == Ticket(s.caller.slot, Running)
  {
  }

  lemma StepKeepsTicket(c: Config, s: State, a: Action, call: nat)
    requires Inv(c, s) && Service(c, s) && Enabled(c, s, a) && call in Next(c, s, a).tickets
    ensures var t := Next(c, s, a); LandsAt(c, call, t.tickets[call].slot) && FailureStored(t, call)
  {
    StepGrows(c, s, a);
    if call in s.tickets {
      StepKeepsFailure(c, s, a, call);
    } else {
      NewTicket(c, s, a, call);
    }
  }

  lemma StepKeepsSuccession(c: Config, s: State, a: Action, e: nat, call: nat)
    requires Inv(c, s) && Service(c, s) && Enabled(c, s, a)
    requires e in Next(c, s, a).tickets && call in Next(c, s, a).tickets
    ensures Succeeded(Next(c, s, a), e, call)
  {
    StepGrows(c, s, a);
    if e in s.tickets && call in s.tickets {
      assert Succeeded(s, e, call);
    } else if e in s.tickets {
      NewTicket(c, s, a, call);
      if s.tickets[e].slot == s.caller.slot { SubmittedSucceeds(c, s, e); }
    } else {
      NewTicket(c, s, a, e);
      if call in s.tickets { assert CallInv(c, s, call); } else { NewTicket(c, s, a, call); }
    }
  }

  // A call is refused only where the caller meets a failed future.
  lemma CallerRefuses(c: Config, s: State, call: nat)
    requires Inv(c, s) && CallerEnabled(c, s) && InTurn(c, s)
    requires s.next <= call < CallerNext(c, s).next && IsGather(c, call) && call !in CallerNext(c, s).tickets
    ensures RetiredBefore(CallerNext(c, s), Landing(c, call), call)
  {
    CallerPassesRetired(c, s);
    assert SlotInv(c, s, s.caller.slot);
  }

  lemma CallerPassesRetired(c: Config, s: State)
    requires Control(c, s) && CallerEnabled(c, s) && CallerNext(c, s).next > s.next && IsGather(c, s.next)
    requires s.next !in CallerNext(c, s).tickets
    ensures s.caller.AwaitFuture? && CallerNext(c, s) == s.(next := s.next + 1, caller := Ready)
    ensures HasStatus(s, s.slots[s.caller.slot].future.value, Failed)
  {
  }

  lemma StepKeepsRefusal(c: Config, s: State, a: Action, call: nat)
    requires Inv(c, s) && Service(c, s) && Enabled(c, s, a)
    ensures Refused(c, Next(c, s, a), call)
  {
    var t := Next(c, s, a);
    StepGrows(c, s, a);
    if call < t.next && IsGather(c, call) && call !in t.tickets {
      if call < s.next {
        assert Refused(c, s, call);
        var k := Landing(c, call);
        StepKeepsRetired(c, s, a, k, s.slots[k].future.value);
      } else {
        OnlyCallerMovesOn(c, s, a);
        CallerRefuses(c, s, call);
      }
    }
  }

  lemma OnlyCallerMovesOn(c: Config, s: State, a: Action)
    requires Inv(c, s) && Enabled(c, s, a)
    ensures !a.CallerStep? ==> Next(c, s, a).next == s.next
    ensures Next(c, s, a).next <= s.next + 1
  {
    match a
    case CallerStep => CallerMovesOn(c, s);
    case WorkerStep => WorkerKeepsFrame(c, s);
    case WorkerFails =>
    case StreamStep(i) => StreamKeepsFrame(c, s, i);
  }

  lemma CallerMovesOn(c: Config, s: State)
    requires Sized(c, s) && CallerEnabled(c, s)
    ensures CallerNext(c, s).next <= s.next + 1
  {
  }

  // The consumer that the caller has just dealt with.
  lemma CallerConsumes(c: Config, s: State)
    requires Inv(c, s) && CallerEnabled(c, s) && s.next < CallerNext(c, s).next
    ensures Consumed(c, CallerNext(c, s), s.next)
  {
    if s.caller.Reading? {
      assert At(CallerNext(c, s).log, |s.log|, Read(c.commands[s.next].call));
    }
  }

  // A finished consumer stays so: tickets for calls before it are there already.
  lemma ConsumedStays(c: Config, s: State, t: State, n: nat)
    requires Grows(s, t) && Consumed(c, s, n) && n < s.next
    requires n < |c.commands| && c.commands[n].Consume? && c.commands[n].call in t.tickets ==>
      c.commands[n].call in s.tickets || n <= c.commands[n].call
    ensures Consumed(c, t, n)
  {
    if n < |c.commands| && c.commands[n].Consume? {
      if i: nat :| At(s.log, i, Read(c.commands[n].call)) && s.log[i].stream == c.commands[n].stream {
        assert At(t.log, i, Read(c.commands[n].call));
      }
    }
  }

  lemma OldStaysConsumed(c: Config, s: State, a: Action, n: nat)
    requires Inv(c, s) && Consumed(c, s, n) && Enabled(c, s, a) && n < s.next
    ensures Consumed(c, Next(c, s, a), n)
  {
    StepGrows(c, s, a);
    if n < |c.commands| && c.commands[n].Consume? && c.commands[n].call in Next(c, s, a).tickets {
      OnlyNextIsNew(c, s, a, c.commands[n].call);
    }
    ConsumedStays(c, s, Next(c, s, a), n);
  }

  lemma NewIsConsumed(c: Config, s: State, a: Action, n: nat)
    requires Inv(c, s) && Enabled(c, s, a) && s.next <= n < Next(c, s, a).next
    ensures Consumed(c, Next(c, s, a), n)
  {
    OnlyCallerMovesOn(c, s, a);
    CallerConsumes(c, s);
  }

  lemma OnlyNextIsNew(c: Config, s: State, a: Action, call: nat)
    requires Inv(c, s) && Enabled(c, s, a) && call in Next(c, s, a).tickets
    ensures call in s.tickets || call == s.next
  {
    if call !in s.tickets { NewTicket(c, s, a, call); }
  }

  lemma StepKeepsService(c: Config, s: State, a: Action)
    requires Inv(c, s) && Service(c, s) && Enabled(c, s, a)
    ensures Service(c, Next(c, s, a))
  {
    var t := Next(c, s, a);
    if a.CallerStep? { CallerKeepsTurn(c, s); } else { OthersKeepTurn(c, s, a); }
    forall call | call in t.tickets ensures LandsAt(c, call, t.tickets[call].slot) && FailureStored(t, call) {
      StepKeepsTicket(c, s, a, call);
    }
    forall e, call | e in t.tickets && call in t.tickets ensures Succeeded(t, e, call) {
      StepKeepsSuccession(c, s, a, e, call);
    }
    forall call: nat ensures Refused(c, t, call) { StepKeepsRefusal(c, s, a, call); }
    forall n: nat ensures Consumed(c, t, n) {
      if n < s.next { OldStaysConsumed(c, s, a, n); } else if n < t.next { NewIsConsumed(c, s, a, n); }
    }
  }

  lemma InitialService(c: Config, s: State)
    requires Initial(c, s)
    ensures Service(c, s)
  {
    QuotientUnique(0, c.slots, 0, 0);
  }

  lemma {:induction false} RunKeepsService(c: Config, s: State, actions: seq<Action>, t: State)
    requires Inv(c, s) && Service(c, s) && Run(c, s, actions, t)
    ensures Inv(c, t) && Service(c, t)
    decreases |actions|
  {
    if actions != [] {
      StepKeepsInv(c, s, actions[0]);
      StepKeepsService(c, s, actions[0]);
      RunKeepsService(c, Next(c, s, actions[0]), actions[1..], t);
    }
  }

  // --- Who is served -----------------------------------------------------------------

  // In every reachable state: a gather that the caller is done with has a ticket
  // exactly when it fits the staging buffer, its output has a row for each id, and no
  // earlier gather has failed on the slot it landed on.
  lemma ServedUnlessRetired(c: Config, start: State, actions: seq<Action>, s: State, call: nat)
    requires Initial(c, start) && Run(c, start, actions, s) && call < s.next <= |c.commands|
    requires c.commands[call].Begin?
    ensures 0 < c.slots
    ensures call in s.tickets <==>
            && |c.commands[call].ids| <= c.capacity && |c.commands[call].out| == |c.commands[call].ids|
            && !RetiredBefore(s, Landing(c, call), call)
    ensures call in s.tickets ==> s.tickets[call].slot == Landing(c, call)
  {
    ReachableService(c, start, actions, s);
    var k := Landing(c, call);
    if call in s.tickets { assert CallInv(c, s, call); }
    assert Refused(c, s, call);
    assert SlotInv(c, s, k);
    if call in s.tickets && s.slots[k].future.Some? && s.slots[k].future.value in s.tickets {
      assert Succeeded(s, s.slots[k].future.value, call);
    }
  }

  lemma ReachableService(c: Config, start: State, actions: seq<Action>, s: State)
    requires Initial(c, start) && Run(c, start, actions, s)
    ensures Inv(c, s) && Service(c, s)
  {
    InitialService(c, start);
    RunKeepsService(c, start, actions, s);
  }

  // --- Failures -----------------------------------------------------------------------

  // A gather that fails retires its slot: at once, or with the caller's next step,
  // which stores the failed future.
  lemma FailureRetires(c: Config, s: State)
    requires Inv(c, s) && FailEnabled(s)
    ensures var (t, call, k) := (FailNext(s), s.worker.call, s.tickets[s.worker.call].slot);
      || Retired(t, k, call)
      || (Sized(c, t) && t.caller == Storing(k) && CallerEnabled(c, t) && Retired(CallerNext(c, t), k, call))
  {
    assert CallInv(c, s, s.worker.call);
  }

  // A retired slot stays retired and serves no later call.
  lemma {:induction false} FailureRetiresSlot(c: Config, s: State, actions: seq<Action>, t: State, k: nat, call: nat)
    requires Inv(c, s) && Run(c, s, actions, t) && Retired(s, k, call)
    ensures Retired(t, k, call) && !t.caller.Owns(k)
    ensures forall later | later in t.tickets && t.tickets[later].slot == k :: later in s.tickets
    decreases |actions|
  {
    if actions != [] {
      var u := Next(c, s, actions[0]);
      StepKeepsInv(c, s, actions[0]);
      StepKeepsRetired(c, s, actions[0], k, call);
      FailureRetiresSlot(c, u, actions[1..], t, k, call);
      forall later | later in t.tickets && t.tickets[later].slot == k ensures later in s.tickets {
        RunGrows(c, u, actions[1..], t);
        if later !in s.tickets { NewTicket(c, s, actions[0], later); }
      }
    }
  }

  lemma {:induction false} RunGrows(c: Config, s: State, actions: seq<Action>, t: State)
    requires Inv(c, s) && Run(c, s, actions, t)
    ensures Grows(s, t)
    decreases |actions|
  {
    if actions != [] {
      StepGrows(c, s, actions[0]);
      StepKeepsInv(c, s, actions[0]);
      RunGrows(c, Next(c, s, actions[0]), actions[1..], t);
    }
  }

  // A begin that lands on a retired slot raises: the next command's turn comes and
  // nothing else has changed.
  lemma BeginOnRetiredRaises(c: Config, s: State, k: nat, call: nat)
    requires Inv(c, s) && Retired(s, k, call) && s.caller == AwaitFuture(k)
    ensures CallerEnabled(c, s) && CallerNext(c, s) == s.(next := s.next + 1, caller := Ready)
    ensures s.next !in CallerNext(c, s).tickets
  {
    assert s.next in s.tickets ==> CallInv(c, s, s.next);
  }

  // --- Runs without a failure ----------------------------------------------------------

  predicate NoFailures(actions: seq<Action>) {
    forall i | 0 <= i < |actions| :: !actions[i].WorkerFails?
  }

  predicate NoneFailed(s: State) {
    forall call | call in s.tickets :: !s.tickets[call].status.Failed?
  }

  lemma WorkerFailsNone(c: Config, s: State)
    requires Sized(c, s) && WorkerEnabled(c, s) && NoneFailed(s)
    ensures NoneFailed(WorkerNext(c, s))
  {
  }

  lemma StepFailsNone(c: Config, s: State, a: Action)
    requires Inv(c, s) && Enabled(c, s, a) && !a.WorkerFails? && NoneFailed(s)
    ensures NoneFailed(Next(c, s, a))
  {
    match a
    case CallerStep =>
    case WorkerStep => WorkerFailsNone(c, s);
    case StreamStep(i) => StreamKeepsFrame(c, s, i);
  }

  lemma {:induction false} RunFailsNone(c: Config, s: State, actions: seq<Action>, t: State)
    requires Inv(c, s) && Run(c, s, actions, t) && NoFailures(actions) && NoneFailed(s)
    ensures NoneFailed(t)
    decreases |actions|
  {
    if actions != [] {
      StepKeepsInv(c, s, actions[0]);
      StepFailsNone(c, s, actions[0]);
      RunFailsNone(c, Next(c, s, actions[0]), actions[1..], t);
    }
  }

  ghost predicate ReadExactly(c: Config, s: State, n: nat)
    requires n < |c.commands| && c.commands[n].Consume? && IsGather(c, c.commands[n].call)
  {
    exists i: nat ::
      && At(s.log, i, Read(c.commands[n].call)) && s.log[i].stream == c.commands[n].stream && s.log[i].done
      && i in s.seen && s.seen[i] == Wanted(c, c.commands[n].call)
  }

  // If the page reader never fails, every valid gather is served, and at the end
  // it has left exactly its rows and all its consumers have read them.
  lemma FaultFreeRunsServeAll(c: Config, start: State, actions: seq<Action>, s: State)
    requires Initial(c, start) && Run(c, start, actions, s) && NoFailures(actions) && Finished(c, s)
    ensures forall call: nat | IsGather(c, call) ::
              HasStatus(s, call, Launched) && call in s.outputs && s.outputs[call] == Wanted(c, call)
    ensures forall n: nat | n < |c.commands| && c.commands[n].Consume? && c.commands[n].call < n
                            && IsGather(c, c.commands[n].call) :: ReadExactly(c, s, n)
  {
    ReachableService(c, start, actions, s);
    RunFailsNone(c, start, actions, s);
    forall call: nat | IsGather(c, call)
      ensures HasStatus(s, call, Launched) && call in s.outputs && s.outputs[call] == Wanted(c, call)
    {
      ServedUnlessRetired(c, start, actions, s, call);
      FinishedTicket(c, s, call);
    }
    forall n: nat | n < |c.commands| && c.commands[n].Consume? && c.commands[n].call < n
                    && IsGather(c, c.commands[n].call)
      ensures ReadExactly(c, s, n)
    {
      FinishedConsumer(c, s, n);
    }
  }

  lemma FinishedConsumer(c: Config, s: State, n: nat)
    requires Inv(c, s) && Finished(c, s) && Consumed(c, s, n)
    requires n < |c.commands| && c.commands[n].Consume? && c.commands[n].call < n && IsGather(c, c.commands[n].call)
    requires HasStatus(s, c.commands[n].call, Launched)
    ensures ReadExactly(c, s, n)
  {
    var i: nat :| At(s.log, i, Read(c.commands[n].call)) && s.log[i].stream == c.commands[n].stream;
    assert EntryData(c, s, i);
  }

  // At the end a ticket has failed or its rows are out.
  lemma FinishedTicket(c: Config, s: State, call: nat)
    requires Inv(c, s) && Finished(c, s) && call in s.tickets
    ensures IsGather(c, call) && !s.tickets[call].status.Running?
    ensures s.tickets[call].status.Launched? ==> call in s.outputs && s.outputs[call] == Wanted(c, call)
  {
    assert CallInv(c, s, call);
    if s.tickets[call].status.Launched? {
      var h: nat :| At(s.log, h, CopyRows(call, s.tickets[call].slot));
      FinishedCopy(c, s, h);
    }
  }
}
