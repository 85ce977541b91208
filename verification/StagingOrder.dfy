/** The ids of a gather are copied behind the producer: when one of them is about to
    be copied, all that was on the producer's stream before the gather is done. */
module StagingOrder {
  import opened Staging
  import opened StagingRuns
  import opened StagingService

  // From index `from` on, the stream of a gather waits for its producer.
  predicate WaitsFrom(c: Config, log: seq<Entry>, call: nat, from: nat, i: nat)
    requires IsGather(c, call)
  {
    exists w: nat :: from <= w < i && WaitsAt(c, log, call, w)
  }

  predicate WaitsAt(c: Config, log: seq<Entry>, call: nat, w: nat)
    requires IsGather(c, call)
  {
    At(log, w, WaitStream(c.commands[call].producer)) && log[w].stream == c.commands[call].stream
  }

  predicate CopiesIds(s: State, call: nat, i: nat) {
    i < |s.log| && s.log[i].op.CopyIds? && s.log[i].op.call == call
  }

  // Every copy of the ids of a call, enqueued or about to be, is behind such a wait.
  ghost predicate Behind(c: Config, s: State, call: nat, from: nat)
    requires IsGather(c, call)
  {
    && from <= |s.log| && call <= s.next
    && (s.next == call && s.caller.Copying? ==> WaitsFrom(c, s.log, call, from, |s.log|))
    && forall i: nat | CopiesIds(s, call, i) :: WaitsFrom(c, s.log, call, from, i)
  }

  lemma WaitStays(c: Config, s: State, t: State, call: nat, from: nat, i: nat, j: nat)
    requires IsGather(c, call) && Grows(s, t) && WaitsFrom(c, s.log, call, from, i) && i <= j
    ensures WaitsFrom(c, t.log, call, from, j)
  {
    var w: nat :| from <= w < i && WaitsAt(c, s.log, call, w);
    assert WaitsAt(c, t.log, call, w);
  }

  // What a caller step may enqueue for the call.
  lemma CallerKeepsBehind(c: Config, s: State, call: nat, from: nat)
    requires Inv(c, s) && CallerEnabled(c, s) && IsGather(c, call) && Behind(c, s, call, from)
    ensures Behind(c, CallerNext(c, s), call, from)
  {
    var t := CallerNext(c, s);
    StepGrows(c, s, CallerStep);
    if t.next == call && t.caller.Copying? {
      assert WaitsAt(c, t.log, call, |s.log|);
    }
    forall i: nat | CopiesIds(t, call, i) ensures WaitsFrom(c, t.log, call, from, i) {
      if i < |s.log| {
        assert CopiesIds(s, call, i);
        WaitStays(c, s, t, call, from, i, i);
      } else {
        NewCopyOfIds(c, s, call, i);
        WaitStays(c, s, t, call, from, |s.log|, i);
      }
    }
  }

  lemma NewCopyOfIds(c: Config, s: State, call: nat, i: nat)
    requires Sized(c, s) && CallerEnabled(c, s) && |s.log| <= i && CopiesIds(CallerNext(c, s), call, i)
    ensures s.caller.Copying? && s.next == call && i == |s.log|
  {
  }

  // The other actors enqueue no copy of ids.
  lemma OthersEnqueueNoIds(c: Config, s: State, a: Action, call: nat, i: nat)
    requires Inv(c, s) && Enabled(c, s, a) && !a.CallerStep? && CopiesIds(Next(c, s, a), call, i)
    ensures CopiesIds(s, call, i)
  {
    StepGrows(c, s, a);
    if a.StreamStep? { StreamKeepsFrame(c, s, a.index); }
  }

  lemma OthersKeepCaller(c: Config, s: State, a: Action)
    requires Inv(c, s) && Enabled(c, s, a) && !a.CallerStep?
    ensures Next(c, s, a).caller == s.caller && Next(c, s, a).next == s.next
  {
    match a
    case WorkerStep => WorkerGrows(c, s);
    case WorkerFails =>
    case StreamStep(i) => StreamKeepsFrame(c, s, i);
  }

  lemma StepKeepsBehind(c: Config, s: State, a: Action, call: nat, from: nat)
    requires Inv(c, s) && Enabled(c, s, a) && IsGather(c, call) && Behind(c, s, call, from)
    ensures Behind(c, Next(c, s, a), call, from)
  {
    if a.CallerStep? {
      CallerKeepsBehind(c, s, call, from);
    } else {
      var t := Next(c, s, a);
      StepGrows(c, s, a);
      OthersKeepCaller(c, s, a);
      if t.next == call && t.caller.Copying? { WaitStays(c, s, t, call, from, |s.log|, |t.log|); }
      forall i: nat | CopiesIds(t, call, i) ensures WaitsFrom(c, t.log, call, from, i) {
        OthersEnqueueNoIds(c, s, a, call, i);
        WaitStays(c, s, t, call, from, i, i);
      }
    }
  }

  lemma {:induction false} RunKeepsBehind(c: Config, s: State, actions: seq<Action>, t: State, call: nat, from: nat)
    requires Inv(c, s) && Run(c, s, actions, t) && IsGather(c, call) && Behind(c, s, call, from)
    ensures Inv(c, t) && Behind(c, t, call, from)
    decreases |actions|
  {
    if actions != [] {
      StepKeepsInv(c, s, actions[0]);
      StepKeepsBehind(c, s, actions[0], call, from);
      RunKeepsBehind(c, Next(c, s, actions[0]), actions[1..], t, call, from);
    }
  }

  lemma NoneYet(c: Config, s: State, call: nat, h: nat)
    requires Inv(c, s) && s.next == call && s.caller.Ready?
    ensures !CopiesIds(s, call, h)
  {
    assert h < |s.log| ==> EntryOwner(c, s, h);
  }

  // A gather that begins in state s of a run: at any later point, when the copy of its
  // ids can take a step, whatever was on the producer's stream in s is done.
  lemma IdsBehindProducer(c: Config, start: State, before: seq<Action>, s: State, actions: seq<Action>, t: State,
                          call: nat, i: nat, j: nat)
    requires Initial(c, start) && Run(c, start, before, s) && Run(c, s, actions, t)
    requires IsGather(c, call) && s.next == call && s.caller.Ready?
    requires CopiesIds(t, call, i) && StreamEnabled(c, t, i)
    requires j < |s.log| && s.log[j].stream == c.commands[call].producer
    ensures j < |t.log| && t.log[j].op == s.log[j].op && t.log[j].done
  {
    ReachableInv(c, start, before, s);
    forall h: nat ensures !CopiesIds(s, call, h) { NoneYet(c, s, call, h); }
    RunKeepsBehind(c, s, actions, t, call, |s.log|);
    RunGrows(c, s, actions, t);
    var w: nat :| |s.log| <= w < i && WaitsAt(c, t.log, call, w);
    assert EntryOwner(c, t, i);
    assert Fifo(t.log, j, w);
  }
}
