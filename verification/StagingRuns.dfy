/** Whole runs of the staging protocol: no buffer in use is overwritten, every
    read and every finished output is exact, some actor can always move, and no
    run goes on for ever. */
module StagingRuns {
  import opened Options
  import opened Staging

  predicate Run(c: Config, s: State, actions: seq<Action>, t: State)
    decreases |actions|
  {
    if actions == [] then s == t
    else Sized(c, s) && Enabled(c, s, actions[0]) && Run(c, Next(c, s, actions[0]), actions[1..], t)
  }

  lemma {:induction false} RunKeepsInv(c: Config, s: State, actions: seq<Action>, t: State)
    requires Inv(c, s) && Run(c, s, actions, t)
    ensures Inv(c, t)
    decreases |actions|
  {
    if actions != [] {
      StepKeepsInv(c, s, actions[0]);
      RunKeepsInv(c, Next(c, s, actions[0]), actions[1..], t);
    }
  }

  lemma {:induction false} RunExtends(c: Config, start: State, actions: seq<Action>, s: State, a: Action)
    requires Run(c, start, actions, s) && Sized(c, s) && Enabled(c, s, a)
    ensures Run(c, start, actions + [a], Next(c, s, a))
    decreases |actions|
  {
    if actions == [] {
      assert actions + [a] == [a];
      assert Run(c, Next(c, s, a), [], Next(c, s, a));
    } else {
      RunExtends(c, Next(c, start, actions[0]), actions[1..], s, a);
      assert (actions + [a])[1..] == actions[1..] + [a];
    }
  }

  lemma ReachableInv(c: Config, s: State, actions: seq<Action>, t: State)
    requires Initial(c, s) && Run(c, s, actions, t)
    ensures Inv(c, t)
  {
    RunKeepsInv(c, s, actions, t);
  }

  // --- Safety ---------------------------------------------------------------

  // Unfinished work on a slot, on a stream or with the worker, is for one call.
  lemma OneCallPerSlot(c: Config, start: State, actions: seq<Action>, s: State)
    requires Initial(c, start) && Run(c, start, actions, s)
    ensures forall i, j | 0 <= i < j < |s.log| && !s.log[i].done && !s.log[j].done
              && s.log[i].op.UsesSlot() && s.log[j].op.UsesSlot() && s.log[i].op.slot == s.log[j].op.slot ::
              s.log[i].op.call == s.log[j].op.call
    ensures forall i, call | 0 <= i < |s.log| && !s.log[i].done && s.log[i].op.UsesSlot()
              && call in s.tickets && s.tickets[call].status.Running? && s.tickets[call].slot == s.log[i].op.slot ::
              s.log[i].op.call == call
    ensures forall a, b | a in s.tickets && b in s.tickets
              && s.tickets[a].status.Running? && s.tickets[b].status.Running?
              && s.tickets[a].slot == s.tickets[b].slot :: a == b
  {
    ReachableInv(c, start, actions, s);
    forall i | 0 <= i < |s.log| && !s.log[i].done && s.log[i].op.UsesSlot()
      ensures s.log[i].op.slot < c.slots && Active(s, s.log[i].op.slot) == Some(s.log[i].op.call)
    {
      assert EntryOwner(c, s, i);
    }
    forall call | call in s.tickets && s.tickets[call].status.Running?
      ensures s.tickets[call].slot < c.slots && Active(s, s.tickets[call].slot) == Some(call)
    {
      assert CallInv(c, s, call);
    }
  }

  // Rows that an unfinished copy may still read stay put, whoever steps.
  lemma UnreadRowsStay(c: Config, start: State, actions: seq<Action>, s: State, a: Action, i: nat)
    requires Initial(c, start) && Run(c, start, actions, s) && Sized(c, s) && Enabled(c, s, a)
    requires i < |s.log| && s.log[i].op.CopyRows? && i < |Next(c, s, a).log| && !Next(c, s, a).log[i].done
    ensures var (call, k, t) := (s.log[i].op.call, s.log[i].op.slot, Next(c, s, a));
            Fits(c, s, call, k) && Fits(c, t, call, k)
            && s.slots[k].rows[..|c.commands[call].ids|] == t.slots[k].rows[..|c.commands[call].ids|] == Wanted(c, call)
  {
    ReachableInv(c, start, actions, s);
    StepKeepsInv(c, s, a);
    EntriesStay(c, s, a, i);
    RowsReady(c, s, i);
    RowsReady(c, Next(c, s, a), i);
  }

  // Ids that the page reader is still reading stay put, whoever steps.
  lemma UnreadIdsStay(c: Config, start: State, actions: seq<Action>, s: State, a: Action)
    requires Initial(c, start) && Run(c, start, actions, s) && Sized(c, s) && Enabled(c, s, a)
    requires s.worker.Gathering? && Next(c, s, a).worker.Gathering?
    ensures var (call, t) := (s.worker.call, Next(c, s, a));
            call in s.tickets && Fits(c, s, call, s.tickets[call].slot) && Fits(c, t, call, s.tickets[call].slot)
            && t.worker.call == call
            && s.slots[s.tickets[call].slot].ids[..|c.commands[call].ids|] == c.commands[call].ids
            && t.slots[s.tickets[call].slot].ids[..|c.commands[call].ids|] == c.commands[call].ids
  {
    ReachableInv(c, start, actions, s);
    StepKeepsInv(c, s, a);
    GathererStays(c, s, a);
    var n := |c.commands[s.worker.call].ids|;
    assert IdsUpTo(c, s, s.worker.call, s.tickets[s.worker.call].slot, n);
    assert IdsUpTo(c, Next(c, s, a), s.worker.call, s.tickets[s.worker.call].slot, n);
    assert c.commands[s.worker.call].ids[..n] == c.commands[s.worker.call].ids;
  }

  lemma GathererStays(c: Config, s: State, a: Action)
    requires Inv(c, s) && Enabled(c, s, a) && s.worker.Gathering? && Next(c, s, a).worker.Gathering?
    ensures var (call, t) := (s.worker.call, Next(c, s, a));
            && t.worker.call == call && call in s.tickets && call in t.tickets
            && t.tickets[call].slot == s.tickets[call].slot
  {
    match a
    case CallerStep =>
      if s.next in s.tickets { assert CallInv(c, s, s.next); }
      CallerKeepsFrame(c, s);
    case WorkerStep => GathererGathers(c, s);
    case WorkerFails =>
    case StreamStep(i) => StreamKeepsFrame(c, s, i);
  }

  lemma GathererGathers(c: Config, s: State)
    requires Sized(c, s) && WorkerEnabled(c, s) && s.worker.Gathering? && WorkerNext(c, s).worker.Gathering?
    ensures WorkerNext(c, s).worker.call == s.worker.call && WorkerNext(c, s).tickets == s.tickets
    ensures s.worker.call in s.tickets
  {
  }

  lemma RowsReady(c: Config, s: State, i: nat)
    requires Inv(c, s) && i < |s.log| && s.log[i].op.CopyRows? && !s.log[i].done
    ensures var (call, k) := (s.log[i].op.call, s.log[i].op.slot);
            Fits(c, s, call, k) && s.slots[k].rows[..|c.commands[call].ids|] == Wanted(c, call)
  {
    assert EntryOwner(c, s, i) && EntryData(c, s, i);
    var call := s.log[i].op.call;
    assert Wanted(c, call)[..|c.commands[call].ids|] == Wanted(c, call);
  }

  lemma EntriesStay(c: Config, s: State, a: Action, i: nat)
    requires Inv(c, s) && Enabled(c, s, a) && i < |s.log|
    ensures i < |Next(c, s, a).log| && Next(c, s, a).log[i].op == s.log[i].op
    ensures s.log[i].done ==> Next(c, s, a).log[i].done
  {
    match a
    case CallerStep =>
      if s.next in s.tickets { assert CallInv(c, s, s.next); }
      CallerKeepsFrame(c, s);
    case WorkerStep => WorkerKeepsFrame(c, s);
    case WorkerFails =>
    case StreamStep(j) => StreamKeepsFrame(c, s, j);
  }

  // --- Results --------------------------------------------------------------

  // A finished copy leaves exactly the rows of the call's ids, and every read
  // that waited for a launched call saw them.
  lemma OutputsAreExact(c: Config, start: State, actions: seq<Action>, s: State)
    requires Initial(c, start) && Run(c, start, actions, s)
    ensures forall i | 0 <= i < |s.log| && s.log[i].op.CopyRows? && s.log[i].done ::
              IsGather(c, s.log[i].op.call) && s.log[i].op.call in s.outputs
              && s.outputs[s.log[i].op.call] == Wanted(c, s.log[i].op.call)
    ensures forall i | 0 <= i < |s.log| && s.log[i].op.Read? && s.log[i].done ::
              IsGather(c, s.log[i].op.read) && i in s.seen && s.seen[i] == Wanted(c, s.log[i].op.read)
  {
    ReachableInv(c, start, actions, s);
    forall i | 0 <= i < |s.log| && s.log[i].op.CopyRows? && s.log[i].done
      ensures IsGather(c, s.log[i].op.call) && s.log[i].op.call in s.outputs
              && s.outputs[s.log[i].op.call] == Wanted(c, s.log[i].op.call)
    {
      FinishedCopy(c, s, i);
    }
    forall i | 0 <= i < |s.log| && s.log[i].op.Read? && s.log[i].done
      ensures IsGather(c, s.log[i].op.read) && i in s.seen && s.seen[i] == Wanted(c, s.log[i].op.read)
    {
      assert EntryData(c, s, i);
    }
  }

  lemma FinishedCopy(c: Config, s: State, i: nat)
    requires Inv(c, s) && i < |s.log| && s.log[i].op.CopyRows? && s.log[i].done
    ensures IsGather(c, s.log[i].op.call) && s.log[i].op.call in s.outputs
    ensures s.outputs[s.log[i].op.call] == Wanted(c, s.log[i].op.call)
  {
    assert EntryOwner(c, s, i) && EntryData(c, s, i);
    var (call, n) := (s.log[i].op.call, |c.commands[s.log[i].op.call].ids|);
    assert s.outputs[call][..n] == s.outputs[call] && Wanted(c, call)[..n] == Wanted(c, call);
  }

  // --- Progress -------------------------------------------------------------

  predicate Finished(c: Config, s: State) {
    && s.next == |c.commands| && s.queue == [] && s.worker == Free
    && forall i | 0 <= i < |s.log| :: s.log[i].done
  }

  lemma {:induction false} EarliestUndone(log: seq<Entry>, i: nat) returns (first: nat)
    requires i < |log| && !log[i].done
    ensures first < |log| && !log[first].done && forall j | 0 <= j < first :: log[j].done
  {
    if j: nat :| j < i && !log[j].done {
      first := EarliestUndone(log, j);
    } else {
      first := i;
    }
  }

  lemma EarliestRuns(c: Config, s: State, i: nat)
    requires Inv(c, s) && i < |s.log| && !s.log[i].done && forall j | 0 <= j < i :: s.log[j].done
    ensures StreamEnabled(c, s, i)
  {
    assert EntryOwner(c, s, i) && EntryData(c, s, i);
    match s.log[i].op
    case CopyRows(call, k) => assert CallInv(c, s, call);
    case Read(call) => assert CallInv(c, s, call);
    case _ =>
  }

  lemma WorkerRuns(c: Config, s: State)
    requires Inv(c, s) && (forall j | 0 <= j < |s.log| :: s.log[j].done) && (s.worker != Free || s.queue != [])
    ensures WorkerEnabled(c, s)
  {
    if s.worker != Free {
      assert CallInv(c, s, s.worker.call);
      assert SlotInv(c, s, s.tickets[s.worker.call].slot);
    }
  }

  lemma CallerRuns(c: Config, s: State)
    requires Inv(c, s) && (forall j | 0 <= j < |s.log| :: s.log[j].done) && s.worker == Free && s.queue == []
    requires s.next < |c.commands|
    ensures CallerEnabled(c, s)
  {
    forall call | call in s.tickets ensures IsGather(c, call) && !s.tickets[call].status.Running? {
      assert CallInv(c, s, call);
    }
    if !s.caller.Ready? && !s.caller.Reading? { assert SlotInv(c, s, s.caller.slot); }
  }

  // Until everything has finished some actor can step, no failure needed.
  lemma NoDeadlock(c: Config, start: State, actions: seq<Action>, s: State) returns (a: Action)
    requires Initial(c, start) && Run(c, start, actions, s) && !Finished(c, s)
    ensures Sized(c, s) && Enabled(c, s, a) && !a.WorkerFails?
  {
    ReachableInv(c, start, actions, s);
    if i: nat :| i < |s.log| && !s.log[i].done {
      var first := EarliestUndone(s.log, i);
      EarliestRuns(c, s, first);
      a := StreamStep(first);
    } else if s.worker != Free || s.queue != [] {
      WorkerRuns(c, s);
      a := WorkerStep;
    } else {
      CallerRuns(c, s);
      a := CallerStep;
    }
  }
}
