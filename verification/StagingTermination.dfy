/** Every run of the staging protocol ends, and at the end every gather is exact,
    has failed, or met a slot that an earlier failure had retired. */
module StagingTermination {
  import opened Staging
  import opened StagingRuns
  import opened StagingService

  function Times(n: nat, cost: nat): nat {
    if n == 0 then 0 else cost + Times(n - 1, cost)
  }

  // Steps a stream may still take on an entry.
  function EntryCost(c: Config, e: Entry): nat {
    if e.done then 0 else 1 + (if e.progress <= c.capacity then c.capacity - e.progress else 0)
  }

  function LogCost(c: Config, log: seq<Entry>): nat {
    if log == [] then 0 else LogCost(c, log[..|log| - 1]) + EntryCost(c, log[|log| - 1])
  }

  function JobCost(c: Config): nat {
    8 + 3 * c.capacity
  }

  function WorkerCost(c: Config, w: Worker): nat {
    match w
    case Free => 0
    case Syncing(_) => 7 + 3 * c.capacity
    case Gathering(_, row) => 6 + 2 * c.capacity + (if row <= c.capacity then c.capacity - row else 0)
    case Launching(_) => 5 + 2 * c.capacity
    case Marking(_) => 3 + c.capacity
    case Resolving(_) => 1
  }

  function CommandCost(c: Config): nat {
    11 + 3 * c.capacity + JobCost(c)
  }

  function CallerCost(c: Config, caller: Caller): nat {
    match caller
    case Ready => CommandCost(c)
    case AwaitFuture(_) => 10 + 3 * c.capacity + JobCost(c)
    case AwaitGpu(_) => 9 + 3 * c.capacity + JobCost(c)
    case Ordering(_) => 8 + 3 * c.capacity + JobCost(c)
    case Copying(_) => 6 + 2 * c.capacity + JobCost(c)
    case Recording(_) => 4 + c.capacity + JobCost(c)
    case Submitting(_) => 2 + JobCost(c)
    case Storing(_) => 1
    case Reading => 2 + c.capacity
  }

  function ProgramCost(c: Config, s: State): nat {
    if s.next < |c.commands| then Times(|c.commands| - s.next - 1, CommandCost(c)) + CallerCost(c, s.caller) else 0
  }

  // An upper bound on the steps that all actors together may still take.
  function Remaining(c: Config, s: State): nat {
    ProgramCost(c, s) + Times(|s.queue|, JobCost(c)) + WorkerCost(c, s.worker) + LogCost(c, s.log)
  }

  lemma EnqueueCost(c: Config, log: seq<Entry>, stream: nat, op: Op)
    ensures LogCost(c, Enqueue(log, stream, op)) == LogCost(c, log) + 1 + c.capacity
  {
  }

  lemma {:induction false} UpdateCost(c: Config, log: seq<Entry>, i: nat, e: Entry)
    requires i < |log|
    ensures LogCost(c, log[i := e]) + EntryCost(c, log[i]) == LogCost(c, log) + EntryCost(c, e)
  {
    var n := |log| - 1;
    if i == n {
      assert log[i := e][..n] == log[..n];
    } else {
      assert log[i := e][..n] == log[..n][i := e];
      UpdateCost(c, log[..n], i, e);
    }
  }

  lemma CallerLogCost(c: Config, s: State)
    requires Sized(c, s) && CallerEnabled(c, s)
    ensures LogCost(c, CallerNext(c, s).log)
         <= LogCost(c, s.log)
            + (if s.caller.Ready? || s.caller.Ordering? || s.caller.Copying? || s.caller.Recording? || s.caller.Reading?
               then 1 + c.capacity else 0)
    ensures s.caller.Ready? && CallerNext(c, s).caller != Reading ==> CallerNext(c, s).log == s.log
  {
    var command := c.commands[s.next];
    match s.caller
    case Ready => if command.Consume? { EnqueueCost(c, s.log, command.stream, WaitStream(CallerStream(c, s))); }
    case Ordering(k) => EnqueueCost(c, s.log, command.stream, WaitStream(command.producer));
    case Copying(k) => EnqueueCost(c, s.log, command.stream, CopyIds(s.next, k));
    case Recording(k) => EnqueueCost(c, s.log, command.stream, RecordIds(s.next, k));
    case Reading => EnqueueCost(c, s.log, command.stream, Read(command.call));
    case _ =>
  }

  // What a caller step adds to the queue and to the streams.
  function Added(c: Config, s: State): nat {
    match s.caller
    case Submitting(_) => JobCost(c)
    case Ready => if s.next < |c.commands| && c.commands[s.next].Consume? then 1 + c.capacity else 0
    case AwaitFuture(_) => 0
    case AwaitGpu(_) => 0
    case Storing(_) => 0
    case _ => 1 + c.capacity
  }

  lemma CallerProgramCost(c: Config, s: State)
    requires Sized(c, s) && CallerEnabled(c, s)
    ensures ProgramCost(c, CallerNext(c, s)) + Added(c, s) < ProgramCost(c, s)
  {
  }

  lemma CallerQueueCost(c: Config, s: State)
    requires Sized(c, s) && CallerEnabled(c, s)
    ensures CallerNext(c, s).worker == s.worker
    ensures Times(|CallerNext(c, s).queue|, JobCost(c)) + LogCost(c, CallerNext(c, s).log)
         <= Times(|s.queue|, JobCost(c)) + LogCost(c, s.log) + Added(c, s)
  {
    CallerLogCost(c, s);
  }

  lemma CallerSpends(c: Config, s: State, t: State)
    requires Sized(c, s) && CallerEnabled(c, s) && t == CallerNext(c, s)
    ensures Remaining(c, t) < Remaining(c, s)
  {
    CallerProgramCost(c, s);
    CallerQueueCost(c, s);
  }

  // The stream a consumer orders itself behind.
  function CallerStream(c: Config, s: State): nat {
    if s.next < |c.commands| && c.commands[s.next].Consume? && IsGather(c, c.commands[s.next].call)
    then c.commands[c.commands[s.next].call].stream else 0
  }

  // What a worker step adds to the streams.
  function Enqueues(c: Config, w: Worker): nat {
    if w.Launching? || w.Marking? then 1 + c.capacity else 0
  }

  lemma WorkerLogCost(c: Config, s: State)
    requires Sized(c, s) && WorkerEnabled(c, s)
    ensures LogCost(c, WorkerNext(c, s).log) == LogCost(c, s.log) + Enqueues(c, s.worker)
    ensures ProgramCost(c, WorkerNext(c, s)) == ProgramCost(c, s)
  {
    var stream := if s.worker.Free? then 0 else c.commands[s.worker.call].stream;
    match s.worker
    case Launching(call) => EnqueueCost(c, s.log, stream, CopyRows(call, s.tickets[call].slot));
    case Marking(call) => EnqueueCost(c, s.log, stream, RecordDone(call, s.tickets[call].slot));
    case _ =>
  }

  lemma WorkerQueueCost(c: Config, s: State)
    requires Sized(c, s) && WorkerEnabled(c, s) && WorkerData(c, s)
    ensures var t := WorkerNext(c, s);
      Times(|t.queue|, JobCost(c)) + WorkerCost(c, t.worker) + Enqueues(c, s.worker)
      < Times(|s.queue|, JobCost(c)) + WorkerCost(c, s.worker)
  {
  }

  lemma WorkerSpends(c: Config, s: State)
    requires Sized(c, s) && WorkerEnabled(c, s) && WorkerData(c, s)
    ensures Remaining(c, WorkerNext(c, s)) < Remaining(c, s)
  {
    WorkerLogCost(c, s);
    WorkerQueueCost(c, s);
  }

  // A stream step finishes its entry or moves one more element of it.
  lemma EntrySpends(c: Config, s: State, i: nat)
    requires Sized(c, s) && StreamEnabled(c, s, i) && EntryOwner(c, s, i) && EntryData(c, s, i)
    ensures |StreamNext(c, s, i).log| == |s.log|
    ensures EntryCost(c, StreamNext(c, s, i).log[i]) < EntryCost(c, s.log[i])
    ensures StreamNext(c, s, i).log == s.log[i := StreamNext(c, s, i).log[i]]
  {
  }

  lemma StreamSpends(c: Config, s: State, i: nat)
    requires Inv(c, s) && StreamEnabled(c, s, i)
    ensures Remaining(c, StreamNext(c, s, i)) < Remaining(c, s)
  {
    assert EntryOwner(c, s, i) && EntryData(c, s, i);
    EntrySpends(c, s, i);
    UpdateCost(c, s.log, i, StreamNext(c, s, i).log[i]);
    StreamKeepsFrame(c, s, i);
  }

  lemma StepSpends(c: Config, s: State, a: Action)
    requires Inv(c, s) && Enabled(c, s, a)
    ensures Remaining(c, Next(c, s, a)) < Remaining(c, s)
  {
    match a
    case CallerStep => CallerSpends(c, s, CallerNext(c, s));
    case WorkerStep => WorkerSpends(c, s);
    case WorkerFails =>
    case StreamStep(i) => StreamSpends(c, s, i);
  }

  // No run is longer than a bound fixed before it starts.
  lemma {:induction false} RunsAreBounded(c: Config, s: State, actions: seq<Action>, t: State)
    requires Inv(c, s) && Run(c, s, actions, t)
    ensures |actions| + Remaining(c, t) <= Remaining(c, s)
    decreases |actions|
  {
    if actions != [] {
      StepKeepsInv(c, s, actions[0]);
      StepSpends(c, s, actions[0]);
      RunsAreBounded(c, Next(c, s, actions[0]), actions[1..], t);
    }
  }

  // How a gather ends: refused because its slot was retired, failed, or exact.
  predicate Ends(c: Config, s: State, call: nat) {
    && 0 < c.slots && call < |c.commands| && IsGather(c, call)
    && if RetiredBefore(s, Landing(c, call), call) then call !in s.tickets
       else call in s.tickets && s.tickets[call].slot == Landing(c, call)
            && (HasStatus(s, call, Failed)
                || (HasStatus(s, call, Launched) && call in s.outputs && s.outputs[call] == Wanted(c, call)))
  }

  // Every valid gather has ended.
  ghost predicate AllEnd(c: Config, s: State) {
    forall call | IsGather(c, call) :: Ends(c, s, call)
  }

  lemma FinishedCall(c: Config, start: State, actions: seq<Action>, s: State, call: nat)
    requires Initial(c, start) && Run(c, start, actions, s) && Finished(c, s) && IsGather(c, call)
    ensures Ends(c, s, call)
  {
    ReachableInv(c, start, actions, s);
    ServedUnlessRetired(c, start, actions, s, call);
    if call in s.tickets { FinishedTicket(c, s, call); }
  }

  lemma FinishedCalls(c: Config, start: State, actions: seq<Action>, s: State)
    requires Initial(c, start) && Run(c, start, actions, s) && Finished(c, s)
    ensures AllEnd(c, s)
  {
    forall call | IsGather(c, call) ensures Ends(c, s, call) { FinishedCall(c, start, actions, s, call); }
  }

  // An unfinished run has a next step, which leaves less to do.
  lemma Advance(c: Config, start: State, actions: seq<Action>, s: State) returns (a: Action, t: State)
    requires Initial(c, start) && Run(c, start, actions, s) && !Finished(c, s)
    ensures !a.WorkerFails? && Run(c, start, actions + [a], t) && Remaining(c, t) < Remaining(c, s)
  {
    ReachableInv(c, start, actions, s);
    a := NoDeadlock(c, start, actions, s);
    t := Next(c, s, a);
    RunExtends(c, start, actions, s, a);
    StepSpends(c, s, a);
  }

  // However a run went, it can be carried on to the end without another I/O failure,
  // and at the end every valid gather has been refused, has failed, or has left
  // exactly its rows; the first of these only behind an earlier failure.
  lemma {:induction false} EveryRunFinishes(c: Config, start: State, actions: seq<Action>, s: State)
    returns (more: seq<Action>, t: State)
    requires Initial(c, start) && Run(c, start, actions, s)
    ensures Run(c, start, actions + more, t) && Finished(c, t)
    ensures NoFailures(more)
    ensures AllEnd(c, t)
    decreases Remaining(c, s)
  {
    if Finished(c, s) {
      more, t := [], s;
      assert actions + more == actions;
      FinishedCalls(c, start, actions, s);
    } else {
      var a, u := Advance(c, start, actions, s);
      var rest;
      rest, t := EveryRunFinishes(c, start, actions + [a], u);
      more := [a] + rest;
      assert actions + more == actions + [a] + rest;
    }
  }
}
