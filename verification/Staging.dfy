/** The asynchronous staging protocol: one caller thread, a one-thread FIFO
    executor and CUDA streams share a fixed number of pinned staging slots. Each
    actor moves one element or one host call at a time, in any interleaving. */
module Staging {
  import opened Options

  type Row(==, 0, !new)

  // The caller's program. `out` is the destination tensor as it is before the
  // gather. A consumer waits for the launch, orders its stream behind the
  // ticket's stream, and reads.
  datatype Command =
    | Begin(ids: seq<int>, out: seq<Row>, stream: nat, producer: nat)
    | Consume(call: nat, stream: nat)

  // `read` is the page reader: the table row of an id.
  datatype Config = Config(commands: seq<Command>, slots: nat, capacity: nat, read: int -> Row)

  // Work enqueued on a stream. Records fire events; WaitStream orders a stream
  // behind everything enqueued earlier on another one.
  datatype Op =
    | CopyIds(call: nat, slot: nat)
    | RecordIds(call: nat, slot: nat)
    | CopyRows(call: nat, slot: nat)
    | RecordDone(call: nat, slot: nat)
    | WaitStream(on: nat)
    | Read(read: nat)
  {
    predicate UsesSlot() {
      CopyIds? || RecordIds? || CopyRows? || RecordDone?
    }
  }

  datatype Entry = Entry(stream: nat, op: Op, progress: nat, done: bool)

  // An event is the log index of its latest record.
  datatype Slot = Slot(ids: seq<int>, rows: seq<Row>, idsReady: Option<nat>, gpuDone: Option<nat>, future: Option<nat>)

  datatype Status = Running | Launched | Failed
  datatype Ticket = Ticket(slot: nat, status: Status)

  datatype Caller =
    | Ready
    | AwaitFuture(slot: nat) | AwaitGpu(slot: nat)
    | Ordering(slot: nat) | Copying(slot: nat) | Recording(slot: nat) | Submitting(slot: nat) | Storing(slot: nat)
    | Reading
  {
    // The caller owns the slot it has acquired until it stores the future.
    predicate Owns(s: nat) {
      (Ordering? || Copying? || HasCopied()) && slot == s
    }

    predicate HasCopied() {
      Recording? || Submitting? || Storing?
    }
  }

  datatype Worker =
    | Free
    | Syncing(call: nat) | Gathering(call: nat, row: nat)
    | Launching(call: nat) | Marking(call: nat) | Resolving(call: nat)

  datatype State = State(
    next: nat,
    caller: Caller,
    nextSlot: nat,
    slots: seq<Slot>,
    tickets: map<nat, Ticket>,
    queue: seq<nat>,
    worker: Worker,
    log: seq<Entry>,
    outputs: map<nat, seq<Row>>,
    seen: map<nat, seq<Row>>)

  datatype Action = CallerStep | WorkerStep | WorkerFails | StreamStep(index: nat)

  // --- Reference -----------------------------------------------------------

  predicate IsGather(c: Config, call: nat) {
    && call < |c.commands| && c.commands[call].Begin?
    && |c.commands[call].ids| <= c.capacity && |c.commands[call].out| == |c.commands[call].ids|
  }

  // What a gather is for: the rows of its ids, in order.
  function Wanted(c: Config, call: nat): (rows: seq<Row>)
    requires IsGather(c, call)
    ensures |rows| == |c.commands[call].ids|
  {
    seq(|c.commands[call].ids|, i requires 0 <= i < |c.commands[call].ids| => c.read(c.commands[call].ids[i]))
  }

  // --- Steps ----------------------------------------------------------------

  function Enqueue(log: seq<Entry>, stream: nat, op: Op): seq<Entry> {
    log + [Entry(stream, op, 0, false)]
  }

  predicate Fired(log: seq<Entry>, event: Option<nat>) {
    event.Some? ==> event.value < |log| && log[event.value].done
  }

  // Entry i may run: its stream is FIFO, and a wait needs the awaited stream.
  predicate Runnable(log: seq<Entry>, i: nat) {
    && i < |log| && !log[i].done
    && (forall j | 0 <= j < i && log[j].stream == log[i].stream :: log[j].done)
    && (log[i].op.WaitStream? ==> forall j | 0 <= j < i && log[j].stream == log[i].op.on :: log[j].done)
  }

  predicate Sized(c: Config, s: State) {
    |s.slots| == c.slots && 0 < c.slots && s.nextSlot < c.slots
  }

  // The pinned buffers of a slot hold the rows of a call.
  predicate Fits(c: Config, s: State, call: nat, k: nat) {
    && IsGather(c, call) && k < |s.slots|
    && |c.commands[call].ids| <= |s.slots[k].ids| && |c.commands[call].ids| <= |s.slots[k].rows|
  }

  predicate CallerEnabled(c: Config, s: State) {
    && s.next < |c.commands|
    && match s.caller
       case Ready =>
         (c.commands[s.next].Consume? && c.commands[s.next].call in s.tickets ==>
            !s.tickets[c.commands[s.next].call].status.Running? && IsGather(c, c.commands[s.next].call))
       case AwaitFuture(k) =>
         k < |s.slots| && s.slots[k].future.Some? && s.slots[k].future.value in s.tickets
         && !s.tickets[s.slots[k].future.value].status.Running?
       case AwaitGpu(k) => k < |s.slots| && Fired(s.log, s.slots[k].gpuDone)
       case Reading => c.commands[s.next].Consume?
       case _ => s.caller.slot < |s.slots| && IsGather(c, s.next)
  }

  // `begin_gather` and the consumer, one host call at a time. A call that
  // raises leaves the protocol state as it is and the program moves on.
  function CallerNext(c: Config, s: State): State
    requires Sized(c, s) && CallerEnabled(c, s)
  {
    match s.caller
    case Ready =>
      if c.commands[s.next].Begin? then
        if !IsGather(c, s.next) then s.(next := s.next + 1)
        else
          var k := s.nextSlot;
          s.(nextSlot := (k + 1) % c.slots, caller := if s.slots[k].future.Some? then AwaitFuture(k) else Ordering(k))
      else
        var call := c.commands[s.next].call;
        if call in s.tickets && s.tickets[call].status.Launched? then
          s.(log := Enqueue(s.log, c.commands[s.next].stream, WaitStream(c.commands[call].stream)), caller := Reading)
        else
          s.(next := s.next + 1)
    case AwaitFuture(k) =>
      if s.tickets[s.slots[k].future.value].status.Launched? then s.(caller := AwaitGpu(k))
      else s.(next := s.next + 1, caller := Ready)
    case AwaitGpu(k) => s.(slots := s.slots[k := s.slots[k].(future := None)], caller := Ordering(k))
    case Ordering(k) =>
      s.(log := Enqueue(s.log, c.commands[s.next].stream, WaitStream(c.commands[s.next].producer)),
         caller := Copying(k))
    case Copying(k) => s.(log := Enqueue(s.log, c.commands[s.next].stream, CopyIds(s.next, k)), caller := Recording(k))
    case Recording(k) =>
      s.(log := Enqueue(s.log, c.commands[s.next].stream, RecordIds(s.next, k)),
         slots := s.slots[k := s.slots[k].(idsReady := Some(|s.log|))], caller := Submitting(k))
    case Submitting(k) =>
      s.(queue := s.queue + [s.next], tickets := s.tickets[s.next := Ticket(k, Running)],
         outputs := s.outputs[s.next := c.commands[s.next].out], caller := Storing(k))
    case Storing(k) =>
      s.(slots := s.slots[k := s.slots[k].(future := Some(s.next))], next := s.next + 1, caller := Ready)
    case Reading =>
      s.(log := Enqueue(s.log, c.commands[s.next].stream, Read(c.commands[s.next].call)),
         next := s.next + 1, caller := Ready)
  }

  // The page reader has failed once, and so fails from now on.
  predicate Broken(s: State) {
    exists call :: call in s.tickets && s.tickets[call].status.Failed?
  }

  predicate OnSlot(c: Config, s: State, call: nat) {
    IsGather(c, call) && call in s.tickets && s.tickets[call].slot < |s.slots|
  }

  predicate WorkerEnabled(c: Config, s: State) {
    match s.worker
    case Free => s.queue != []
    case Syncing(call) => OnSlot(c, s, call) && Fired(s.log, s.slots[s.tickets[call].slot].idsReady)
    case Gathering(call, row) => OnSlot(c, s, call) && Fits(c, s, call, s.tickets[call].slot)
    case _ => OnSlot(c, s, s.worker.call)
  }

  // `_stage_rows_and_launch`, one row or one host call at a time.
  function WorkerNext(c: Config, s: State): State
    requires Sized(c, s) && WorkerEnabled(c, s)
  {
    match s.worker
    case Free => s.(worker := Syncing(s.queue[0]), queue := s.queue[1..])
    case Syncing(call) => s.(worker := Gathering(call, 0))
    case Gathering(call, row) =>
      if Broken(s) then FailNext(s)
      else if row < |c.commands[call].ids| then
        var k := s.tickets[call].slot;
        var slot := s.slots[k];
        s.(slots := s.slots[k := slot.(rows := slot.rows[row := c.read(slot.ids[row])])],
           worker := Gathering(call, row + 1))
      else
        s.(worker := Launching(call))
    case Launching(call) =>
      s.(log := Enqueue(s.log, c.commands[call].stream, CopyRows(call, s.tickets[call].slot)), worker := Marking(call))
    case Marking(call) =>
      var k := s.tickets[call].slot;
      s.(log := Enqueue(s.log, c.commands[call].stream, RecordDone(call, k)),
         slots := s.slots[k := s.slots[k].(gpuDone := Some(|s.log|))], worker := Resolving(call))
    case Resolving(call) => s.(tickets := s.tickets[call := s.tickets[call].(status := Launched)], worker := Free)
  }

  // The page reader may raise while it gathers; from then on every gather raises.
  predicate FailEnabled(s: State) {
    s.worker.Gathering? && s.worker.call in s.tickets
  }

  function FailNext(s: State): State
    requires FailEnabled(s)
  {
    s.(tickets := s.tickets[s.worker.call := s.tickets[s.worker.call].(status := Failed)], worker := Free)
  }

  predicate StreamEnabled(c: Config, s: State, i: nat) {
    && Runnable(s.log, i)
    && match s.log[i].op
       case CopyIds(call, k) =>
         Fits(c, s, call, k)
       case CopyRows(call, k) =>
         Fits(c, s, call, k) && call in s.outputs && |s.outputs[call]| == |c.commands[call].ids|
       case Read(call) => call in s.outputs
       case _ => true
  }

  function StreamNext(c: Config, s: State, i: nat): State
    requires Sized(c, s) && StreamEnabled(c, s, i)
  {
    var e := s.log[i];
    var p := e.progress;
    var advanced, finished := s.log[i := e.(progress := p + 1)], s.log[i := e.(done := true)];
    match e.op
    case CopyIds(call, k) =>
      if p < |c.commands[call].ids| then
        s.(slots := s.slots[k := s.slots[k].(ids := s.slots[k].ids[p := c.commands[call].ids[p]])], log := advanced)
      else s.(log := finished)
    case CopyRows(call, k) =>
      if p < |c.commands[call].ids| then
        s.(outputs := s.outputs[call := s.outputs[call][p := s.slots[k].rows[p]]], log := advanced)
      else s.(log := finished)
    case Read(call) => s.(seen := s.seen[i := s.outputs[call]], log := finished)
    case _ => s.(log := finished)
  }

  predicate Enabled(c: Config, s: State, a: Action) {
    match a
    case CallerStep => CallerEnabled(c, s)
    case WorkerStep => WorkerEnabled(c, s)
    case WorkerFails => FailEnabled(s)
    case StreamStep(i) => StreamEnabled(c, s, i)
  }

  function Next(c: Config, s: State, a: Action): State
    requires Sized(c, s) && Enabled(c, s, a)
  {
    match a
    case CallerStep => CallerNext(c, s)
    case WorkerStep => WorkerNext(c, s)
    case WorkerFails => FailNext(s)
    case StreamStep(i) => StreamNext(c, s, i)
  }

  predicate Initial(c: Config, s: State) {
    && Sized(c, s)
    && s.next == 0 && s.nextSlot == 0 && s.caller == Ready && s.queue == [] && s.worker == Free && s.log == []
    && s.tickets == map[] && s.outputs == map[] && s.seen == map[]
    && forall k | 0 <= k < |s.slots| ::
         && |s.slots[k].ids| == |s.slots[k].rows| == c.capacity
         && s.slots[k].idsReady == None && s.slots[k].gpuDone == None && s.slots[k].future == None
  }

  // --- Invariant ------------------------------------------------------------

  // The call a slot serves: the one that is acquiring it, else the last stored.
  function Active(s: State, k: nat): Option<nat>
    requires k < |s.slots|
  {
    if s.caller.Owns(k) then Some(s.next) else s.slots[k].future
  }

  predicate HasStatus(s: State, call: nat, status: Status) {
    call in s.tickets && s.tickets[call].status == status
  }

  // The copy out of the slot, and the event after it, are on the stream.
  predicate Copied(s: State, call: nat) {
    HasStatus(s, call, Launched) || s.worker == Marking(call) || s.worker == Resolving(call)
  }

  predicate Marked(s: State, call: nat) {
    HasStatus(s, call, Launched) || s.worker == Resolving(call)
  }

  predicate At(log: seq<Entry>, i: nat, op: Op) {
    i < |log| && log[i].op == op
  }

  predicate Control(c: Config, s: State) {
    && Sized(c, s) && s.next <= |c.commands| && (!s.caller.Ready? ==> s.next < |c.commands|)
    && (!s.caller.Ready? && !s.caller.Reading? ==> IsGather(c, s.next) && s.caller.slot < c.slots)
    && (s.caller.AwaitFuture? ==> s.slots[s.caller.slot].future.Some?)
    && (s.caller.AwaitGpu? ==>
          s.slots[s.caller.slot].future.Some? && HasStatus(s, s.slots[s.caller.slot].future.value, Launched))
    && (s.caller.Storing? ==> s.next in s.tickets && s.tickets[s.next].slot == s.caller.slot)
    && (s.caller.Reading? ==> c.commands[s.next].Consume? && HasStatus(s, c.commands[s.next].call, Launched))
    && forall k | 0 <= k < c.slots && s.caller.Owns(k) :: s.slots[k].future == None
  }

  predicate Jobs(s: State) {
    && (s.worker != Free ==> HasStatus(s, s.worker.call, Running) && s.worker.call !in s.queue)
    && (forall i | 0 <= i < |s.queue| :: HasStatus(s, s.queue[i], Running))
    && (forall i, j | 0 <= i < j < |s.queue| :: s.queue[i] != s.queue[j])
  }

  ghost predicate CallInv(c: Config, s: State, call: nat)
    requires Sized(c, s) && call in s.tickets
  {
    && IsGather(c, call) && call <= s.next && (call == s.next ==> s.caller.Storing?) && s.tickets[call].slot < c.slots
    && call in s.outputs && |s.outputs[call]| == |c.commands[call].ids|
    && (HasStatus(s, call, Running) ==>
          && Active(s, s.tickets[call].slot) == Some(call)
          && (call in s.queue || (s.worker != Free && s.worker.call == call)))
    && (Copied(s, call) ==> exists h: nat :: At(s.log, h, CopyRows(call, s.tickets[call].slot)))
  }

  // In order on one stream, and in order with what a wait was enqueued behind.
  predicate Fifo(log: seq<Entry>, i: nat, j: nat)
    requires i < j < |log|
  {
    log[j].done && (log[i].stream == log[j].stream || log[j].op == WaitStream(log[i].stream)) ==> log[i].done
  }

  predicate IdsUpTo(c: Config, s: State, call: nat, k: nat, n: nat)
    requires Sized(c, s) && Fits(c, s, call, k) && n <= |c.commands[call].ids|
  {
    s.slots[k].ids[..n] == c.commands[call].ids[..n]
  }

  predicate RowsUpTo(c: Config, s: State, call: nat, k: nat, n: nat)
    requires Sized(c, s) && Fits(c, s, call, k) && n <= |c.commands[call].ids|
  {
    s.slots[k].rows[..n] == Wanted(c, call)[..n]
  }

  predicate OutUpTo(c: Config, s: State, call: nat, n: nat)
    requires IsGather(c, call) && n <= |c.commands[call].ids|
  {
    && call in s.outputs && |s.outputs[call]| == |c.commands[call].ids|
    && s.outputs[call][..n] == Wanted(c, call)[..n]
  }

  // Who an entry on a stream works for.
  predicate EntryOwner(c: Config, s: State, i: nat)
    requires Sized(c, s) && i < |s.log|
  {
    var op := s.log[i].op;
    op.UsesSlot() ==>
      && Fits(c, s, op.call, op.slot) && s.log[i].stream == c.commands[op.call].stream
      && op.call <= s.next
      && (op.call == s.next ==> s.caller.HasCopied() && s.caller.slot == op.slot)
      && (op.CopyRows? || op.RecordDone? ==> op.call in s.tickets && s.tickets[op.call].slot == op.slot)
      && (!s.log[i].done ==> Active(s, op.slot) == Some(op.call))
  }

  // What an entry has done so far, and what it will find.
  ghost predicate EntryData(c: Config, s: State, i: nat)
    requires Sized(c, s) && i < |s.log| && EntryOwner(c, s, i)
  {
    var e := s.log[i];
    match e.op
    case CopyIds(call, k) =>
      && e.progress <= |c.commands[call].ids| && (e.done ==> e.progress == |c.commands[call].ids|)
      && (Active(s, k) == Some(call) ==> IdsUpTo(c, s, call, k, e.progress))
    case CopyRows(call, k) =>
      && e.progress <= |c.commands[call].ids| && (e.done ==> e.progress == |c.commands[call].ids|)
      && (Active(s, k) == Some(call) ==> RowsUpTo(c, s, call, k, |c.commands[call].ids|))
      && OutUpTo(c, s, call, e.progress)
    case Read(call) =>
      && e.progress == 0 && IsGather(c, call) && call in s.tickets && Ordered(c, s.log, call, e.stream, i)
      && (e.done ==> i in s.seen && s.seen[i] == Wanted(c, call))
    case _ => e.progress == 0
  }

  // Ahead of index i, the stream waits behind the copy of the call's rows.
  ghost predicate Ordered(c: Config, log: seq<Entry>, call: nat, stream: nat, i: nat)
    requires IsGather(c, call)
  {
    exists h: nat, w: nat, k: nat ::
      && h < w < i && At(log, h, CopyRows(call, k)) && log[h].stream == c.commands[call].stream
      && At(log, w, WaitStream(c.commands[call].stream)) && log[w].stream == stream
  }

  ghost predicate SlotInv(c: Config, s: State, k: nat)
    requires Sized(c, s) && k < c.slots
  {
    && |s.slots[k].ids| == |s.slots[k].rows| == c.capacity
    && (Active(s, k).Some? ==>
          var call := Active(s, k).value;
          && (call in s.tickets || s.caller == Submitting(k) ==>
                s.slots[k].idsReady.Some? && At(s.log, s.slots[k].idsReady.value, RecordIds(call, k))
                && exists h: nat :: h < s.slots[k].idsReady.value && At(s.log, h, CopyIds(call, k)))
          && (Marked(s, call) ==> MarkedLast(s.log, s.slots[k].gpuDone, call, k)))
    && (s.caller == Recording(k) ==> exists h: nat :: At(s.log, h, CopyIds(s.next, k)))
    && (s.slots[k].future.Some? ==>
          var call := s.slots[k].future.value;
          call in s.tickets && call < s.next && s.tickets[call].slot == k)
    && (s.slots[k].idsReady.Some? ==> s.slots[k].idsReady.value < |s.log|)
    && (s.slots[k].gpuDone.Some? ==> s.slots[k].gpuDone.value < |s.log|)
  }

  ghost predicate WorkerData(c: Config, s: State)
    requires Sized(c, s)
  {
    var w := s.worker;
    !w.Free? && !w.Syncing? ==>
      && w.call in s.tickets && Fits(c, s, w.call, s.tickets[w.call].slot)
      && var (k, n) := (s.tickets[w.call].slot, |c.commands[w.call].ids|);
         && (w.Gathering? ==> w.row <= n && IdsUpTo(c, s, w.call, k, n) && RowsUpTo(c, s, w.call, k, w.row))
         && (!w.Gathering? ==> RowsUpTo(c, s, w.call, k, n))
  }

  ghost predicate CallerData(c: Config, s: State) {
    s.caller.Reading? ==>
      && s.next < |c.commands| && c.commands[s.next].Consume? && IsGather(c, c.commands[s.next].call)
      && Ordered(c, s.log, c.commands[s.next].call, c.commands[s.next].stream, |s.log|)
  }

  ghost predicate Calls(c: Config, s: State)
    requires Sized(c, s)
  {
    forall call | call in s.tickets :: CallInv(c, s, call)
  }

  predicate InOrder(log: seq<Entry>) {
    forall i, j | 0 <= i < j < |log| :: Fifo(log, i, j)
  }

  ghost predicate Entries(c: Config, s: State)
    requires Sized(c, s)
  {
    forall i | 0 <= i < |s.log| :: EntryOwner(c, s, i) && EntryData(c, s, i)
  }

  ghost predicate Slots(c: Config, s: State)
    requires Sized(c, s)
  {
    forall k | 0 <= k < c.slots :: SlotInv(c, s, k)
  }

  ghost predicate Inv(c: Config, s: State) {
    && Control(c, s) && Jobs(s)
    && Calls(c, s) && InOrder(s.log) && Entries(c, s) && Slots(c, s)
    && WorkerData(c, s) && CallerData(c, s)
  }

  // --- Each actor keeps it ---------------------------------------------------

  lemma CallerKeepsControl(c: Config, s: State)
    requires Control(c, s) && CallerEnabled(c, s)
    ensures Control(c, CallerNext(c, s))
  {
    match s.caller
    case Ready =>
    case AwaitFuture(k) =>
    case AwaitGpu(k) =>
    case Ordering(k) =>
    case Copying(k) =>
    case Recording(k) =>
    case Submitting(k) =>
    case Storing(k) =>
    case Reading =>
  }

  // The caller hands the worker at most the call it is making.
  predicate SubmitsNext(s: State, t: State) {
    && t.worker == s.worker
    && ((t.queue == s.queue && t.tickets == s.tickets)
        || (s.caller.Submitting? && t.queue == s.queue + [s.next]
            && t.tickets == s.tickets[s.next := Ticket(s.caller.slot, Running)]))
  }

  lemma CallerSubmits(c: Config, s: State)
    requires Sized(c, s) && CallerEnabled(c, s)
    ensures SubmitsNext(s, CallerNext(c, s))
  {
  }

  lemma CallerKeepsJobs(s: State, t: State)
    requires Jobs(s) && SubmitsNext(s, t) && (s.next in s.tickets ==> s.caller.Storing?)
    ensures Jobs(t)
  {
  }

  lemma WorkerKeepsJobs(c: Config, s: State)
    requires Sized(c, s) && Jobs(s) && WorkerEnabled(c, s)
    ensures Jobs(WorkerNext(c, s))
  {
  }

  lemma FailKeepsControl(c: Config, s: State)
    requires Control(c, s) && Jobs(s) && FailEnabled(s)
    ensures Control(c, FailNext(s)) && Jobs(FailNext(s))
  {
  }

  // A stream touches only buffers, outputs and its own entry.
  predicate StreamFrame(s: State, t: State, i: nat) {
    && t.next == s.next && t.caller == s.caller && t.nextSlot == s.nextSlot
    && t.tickets == s.tickets && t.queue == s.queue && t.worker == s.worker
    && |t.slots| == |s.slots| && (forall k | 0 <= k < |s.slots| :: SameEvents(s, t, k))
    && |t.log| == |s.log| && i < |s.log| && (forall j | 0 <= j < |s.log| && j != i :: t.log[j] == s.log[j])
    && t.log[i].op == s.log[i].op && t.log[i].stream == s.log[i].stream
    && t.outputs.Keys == s.outputs.Keys && (forall call | call in s.outputs :: |t.outputs[call]| == |s.outputs[call]|)
  }

  predicate SameEvents(s: State, t: State, k: nat)
    requires k < |s.slots| && k < |t.slots|
  {
    && t.slots[k].idsReady == s.slots[k].idsReady && t.slots[k].gpuDone == s.slots[k].gpuDone
    && t.slots[k].future == s.slots[k].future
    && |t.slots[k].ids| == |s.slots[k].ids| && |t.slots[k].rows| == |s.slots[k].rows|
  }

  lemma StreamKeepsFrame(c: Config, s: State, i: nat)
    requires Sized(c, s) && StreamEnabled(c, s, i)
    ensures StreamFrame(s, StreamNext(c, s, i), i)
  {
  }

  lemma StreamKeepsControl(c: Config, s: State, t: State, i: nat)
    requires Control(c, s) && Jobs(s) && StreamFrame(s, t, i)
    ensures Control(c, t) && Jobs(t)
  {
    if !s.caller.Ready? && !s.caller.Reading? { assert SameEvents(s, t, s.caller.slot); }
    forall k | 0 <= k < c.slots && t.caller.Owns(k) ensures t.slots[k].future == None {
      assert SameEvents(s, t, k);
    }
  }

  lemma StreamKeepsCall(c: Config, s: State, t: State, i: nat, call: nat)
    requires Sized(c, s) && StreamFrame(s, t, i) && Sized(c, t)
    requires call in s.tickets && CallInv(c, s, call)
    ensures CallInv(c, t, call)
  {
    assert SameEvents(s, t, s.tickets[call].slot);
    if Copied(s, call) {
      var h: nat :| At(s.log, h, CopyRows(call, s.tickets[call].slot));
      assert At(t.log, h, CopyRows(call, s.tickets[call].slot));
    }
  }

  lemma StreamKeepsSlot(c: Config, s: State, t: State, i: nat, k: nat)
    requires Sized(c, s) && StreamFrame(s, t, i) && Sized(c, t)
    requires k < c.slots && SlotInv(c, s, k)
    ensures SlotInv(c, t, k)
  {
    assert SameEvents(s, t, k);
    if s.caller == Recording(k) {
      var h: nat :| At(s.log, h, CopyIds(s.next, k));
      assert At(t.log, h, CopyIds(s.next, k));
    }
    if Active(s, k).Some? {
      var call := Active(s, k).value;
      if call in s.tickets || s.caller == Submitting(k) {
        var h: nat :| h < s.slots[k].idsReady.value && At(s.log, h, CopyIds(call, k));
        assert At(t.log, h, CopyIds(call, k));
      }
    }
  }

  lemma StreamKeepsOwner(c: Config, s: State, t: State, i: nat, j: nat)
    requires Sized(c, s) && StreamFrame(s, t, i) && Sized(c, t) && !s.log[i].done
    requires j < |s.log| && EntryOwner(c, s, j)
    ensures EntryOwner(c, t, j)
  {
    var op := s.log[j].op;
    if op.UsesSlot() {
      assert SameEvents(s, t, op.slot);
    }
  }

  lemma OrderedKept(c: Config, log: seq<Entry>, more: seq<Entry>, call: nat, stream: nat, i: nat)
    requires IsGather(c, call) && Ordered(c, log, call, stream, i)
    requires |log| <= |more|
    requires forall j | 0 <= j < |log| :: more[j].op == log[j].op && more[j].stream == log[j].stream
    ensures Ordered(c, more, call, stream, i)
  {
  }

  lemma StreamKeepsFifo(c: Config, s: State, i: nat)
    requires Sized(c, s) && StreamEnabled(c, s, i)
    requires InOrder(s.log)
    ensures InOrder(StreamNext(c, s, i).log)
  {
    var t := StreamNext(c, s, i);
    forall a, b | 0 <= a < b < |t.log| ensures Fifo(t.log, a, b) {
      assert Fifo(s.log, a, b);
    }
  }

  // A finished read waited for the copy of the rows it reads.
  lemma ReadSeesRows(c: Config, s: State, i: nat)
    requires Sized(c, s) && Runnable(s.log, i) && s.log[i].op.Read?
    requires InOrder(s.log)
    requires Entries(c, s)
    ensures IsGather(c, s.log[i].op.read) && s.log[i].op.read in s.outputs
    ensures s.outputs[s.log[i].op.read] == Wanted(c, s.log[i].op.read)
  {
    var call := s.log[i].op.read;
    assert EntryData(c, s, i);
    var h: nat, w: nat, k: nat :|
      && h < w < i && At(s.log, h, CopyRows(call, k)) && s.log[h].stream == c.commands[call].stream
      && At(s.log, w, WaitStream(c.commands[call].stream)) && s.log[w].stream == s.log[i].stream;
    assert s.log[w].done;
    assert Fifo(s.log, h, w);
    assert EntryData(c, s, h) && EntryOwner(c, s, h);
    var n := |c.commands[call].ids|;
    assert s.outputs[call][..n] == s.outputs[call] && Wanted(c, call)[..n] == Wanted(c, call);
  }

  // One id more is right, and none that was right is not.
  lemma CopyIdsKeepsIds(c: Config, s: State, i: nat, call: nat, k: nat, n: nat)
    requires Sized(c, s) && StreamEnabled(c, s, i) && s.log[i].op.CopyIds? && EntryOwner(c, s, i)
    requires Fits(c, s, call, k) && Active(s, k) == Some(call)
    requires n <= |c.commands[call].ids| && IdsUpTo(c, s, call, k, n)
    ensures var t := StreamNext(c, s, i);
      && Sized(c, t) && Fits(c, t, call, k) && IdsUpTo(c, t, call, k, n)
      && (s.log[i].op == CopyIds(call, k) && s.log[i].progress == n < |c.commands[call].ids| ==>
            IdsUpTo(c, t, call, k, n + 1))
  {
    var (ids, wanted, row) := (s.slots[k].ids, c.commands[call].ids, s.log[i].progress);
    if s.log[i].op.slot == k && row < |wanted| {
      assert s.log[i].op.call == call;
      assert StreamNext(c, s, i).slots[k].ids == ids[row := wanted[row]];
      assert forall x | 0 <= x < n :: ids[x] == ids[..n][x] == wanted[..n][x] == wanted[x];
    }
  }

  lemma CopyIdsKeepsRows(c: Config, s: State, i: nat)
    requires Sized(c, s) && StreamEnabled(c, s, i) && s.log[i].op.CopyIds?
    ensures var t := StreamNext(c, s, i);
      && t.caller == s.caller && t.next == s.next && t.outputs == s.outputs && t.seen == s.seen
      && |t.slots| == |s.slots|
      && (forall k | 0 <= k < |s.slots| :: t.slots[k].rows == s.slots[k].rows && t.slots[k].future == s.slots[k].future)
  {
  }

  // An entry that has not moved, and what it speaks of has not either.
  lemma OtherEntryKept(c: Config, s: State, t: State, i: nat, j: nat)
    requires Sized(c, s) && Sized(c, t) && StreamFrame(s, t, i) && j < |s.log| && j != i
    requires EntryOwner(c, s, j) && EntryData(c, s, j) && EntryOwner(c, t, j)
    requires match s.log[j].op
             case CopyIds(call, k) => Active(s, k) == Some(call) ==> IdsUpTo(c, t, call, k, s.log[j].progress)
             case CopyRows(call, k) =>
               (Active(s, k) == Some(call) ==> RowsUpTo(c, t, call, k, |c.commands[call].ids|))
               && OutUpTo(c, t, call, s.log[j].progress)
             case Read(call) => j in s.seen ==> j in t.seen && t.seen[j] == s.seen[j]
             case _ => true
    ensures EntryData(c, t, j)
  {
    match s.log[j].op
    case CopyIds(call, k) => assert SameEvents(s, t, k);
    case CopyRows(call, k) => assert SameEvents(s, t, k);
    case Read(call) => OrderedKept(c, s.log, t.log, call, s.log[j].stream, j);
    case _ =>
  }

  lemma CopyIdsKeepsOwn(c: Config, s: State, i: nat)
    requires Sized(c, s) && StreamEnabled(c, s, i) && s.log[i].op.CopyIds? && EntryOwner(c, s, i) && EntryData(c, s, i)
    requires StreamFrame(s, StreamNext(c, s, i), i) && EntryOwner(c, StreamNext(c, s, i), i)
    ensures EntryData(c, StreamNext(c, s, i), i)
  {
    CopyIdsKeepsIds(c, s, i, s.log[i].op.call, s.log[i].op.slot, s.log[i].progress);
  }

  lemma CopyIdsKeepsData(c: Config, s: State, i: nat, j: nat)
    requires Sized(c, s) && StreamEnabled(c, s, i) && j < |s.log| && s.log[i].op.CopyIds?
    requires EntryOwner(c, s, i) && EntryData(c, s, i) && EntryOwner(c, s, j) && EntryData(c, s, j)
    requires StreamFrame(s, StreamNext(c, s, i), i) && EntryOwner(c, StreamNext(c, s, i), j)
    ensures EntryData(c, StreamNext(c, s, i), j)
  {
    if j == i {
      CopyIdsKeepsOwn(c, s, i);
    } else {
      CopyIdsKeepsRows(c, s, i);
      var op := s.log[j].op;
      if op.CopyIds? && Active(s, op.slot) == Some(op.call) {
        CopyIdsKeepsIds(c, s, i, op.call, op.slot, s.log[j].progress);
      }
      OtherEntryKept(c, s, StreamNext(c, s, i), i, j);
    }
  }

  // One row more is right in the output, and none that was right is not.
  lemma CopyRowsKeepsOut(c: Config, s: State, i: nat, call: nat, n: nat)
    requires Sized(c, s) && StreamEnabled(c, s, i) && s.log[i].op.CopyRows? && EntryOwner(c, s, i) && EntryData(c, s, i)
    requires IsGather(c, call) && n <= |c.commands[call].ids| && OutUpTo(c, s, call, n)
    ensures var t := StreamNext(c, s, i);
      && OutUpTo(c, t, call, n)
      && (s.log[i].op.call == call && s.log[i].progress == n < |c.commands[call].ids| ==> OutUpTo(c, t, call, n + 1))
  {
    var (k, row) := (s.log[i].op.slot, s.log[i].progress);
    if s.log[i].op.call == call && row < |c.commands[call].ids| {
      var (out, wanted, all) := (s.outputs[call], Wanted(c, call), |c.commands[call].ids|);
      assert s.slots[k].rows[row] == s.slots[k].rows[..all][row] == wanted[..all][row] == wanted[row];
      assert StreamNext(c, s, i).outputs[call] == out[row := wanted[row]];
      assert forall x | 0 <= x < n :: out[x] == out[..n][x] == wanted[..n][x] == wanted[x];
    }
  }

  lemma CopyRowsKeepsSlots(c: Config, s: State, i: nat)
    requires Sized(c, s) && StreamEnabled(c, s, i) && s.log[i].op.CopyRows?
    ensures var t := StreamNext(c, s, i);
      t.caller == s.caller && t.next == s.next && t.slots == s.slots && t.seen == s.seen
  {
  }

  lemma CopyRowsKeepsOwn(c: Config, s: State, i: nat)
    requires Sized(c, s) && StreamEnabled(c, s, i) && s.log[i].op.CopyRows? && EntryOwner(c, s, i) && EntryData(c, s, i)
    requires StreamFrame(s, StreamNext(c, s, i), i) && EntryOwner(c, StreamNext(c, s, i), i)
    ensures EntryData(c, StreamNext(c, s, i), i)
  {
    CopyRowsKeepsSlots(c, s, i);
    CopyRowsKeepsOut(c, s, i, s.log[i].op.call, s.log[i].progress);
  }

  lemma CopyRowsKeepsData(c: Config, s: State, i: nat, j: nat)
    requires Sized(c, s) && StreamEnabled(c, s, i) && j < |s.log| && s.log[i].op.CopyRows?
    requires EntryOwner(c, s, i) && EntryData(c, s, i) && EntryOwner(c, s, j) && EntryData(c, s, j)
    requires StreamFrame(s, StreamNext(c, s, i), i) && EntryOwner(c, StreamNext(c, s, i), j)
    ensures EntryData(c, StreamNext(c, s, i), j)
  {
    if j == i {
      CopyRowsKeepsOwn(c, s, i);
    } else {
      CopyRowsKeepsSlots(c, s, i);
      if s.log[j].op.CopyRows? { CopyRowsKeepsOut(c, s, i, s.log[j].op.call, s.log[j].progress); }
      OtherEntryKept(c, s, StreamNext(c, s, i), i, j);
    }
  }

  lemma OthersKeepData(c: Config, s: State, i: nat, j: nat)
    requires Sized(c, s) && StreamEnabled(c, s, i) && j < |s.log| && !s.log[i].op.CopyIds? && !s.log[i].op.CopyRows?
    requires EntryOwner(c, s, j) && EntryData(c, s, j)
    requires i == j && s.log[i].op.Read? ==>
      s.log[i].op.read in s.outputs && s.outputs[s.log[i].op.read] == Wanted(c, s.log[i].op.read)
    requires StreamFrame(s, StreamNext(c, s, i), i) && EntryOwner(c, StreamNext(c, s, i), j)
    ensures EntryData(c, StreamNext(c, s, i), j)
  {
  }

  // Whose job is whose after a step of the worker.
  lemma WorkerHandles(c: Config, s: State, call: nat)
    requires Sized(c, s) && Jobs(s) && WorkerEnabled(c, s) && call in s.tickets
    ensures var t := WorkerNext(c, s);
      && (HasStatus(t, call, Running) && (call in s.queue || (s.worker != Free && s.worker.call == call)) ==>
            call in t.queue || (t.worker != Free && t.worker.call == call))
      && (HasStatus(t, call, Running) ==> HasStatus(s, call, Running))
      && (Copied(t, call) ==> Copied(s, call) || s.worker == Launching(call))
  {
  }

  // The copy that the worker launches is on the stream.
  lemma WorkerLaunches(c: Config, s: State, call: nat)
    requires Sized(c, s) && WorkerEnabled(c, s) && s.worker == Launching(call)
    ensures call in s.tickets && At(WorkerNext(c, s).log, |s.log|, CopyRows(call, s.tickets[call].slot))
  {
  }

  lemma WorkerKeepsCall(c: Config, s: State, call: nat)
    requires Sized(c, s) && Jobs(s) && WorkerEnabled(c, s) && WorkerFrame(s, WorkerNext(c, s))
    requires Sized(c, WorkerNext(c, s)) && call in s.tickets && CallInv(c, s, call)
    ensures CallInv(c, WorkerNext(c, s), call)
  {
    var (t, k) := (WorkerNext(c, s), s.tickets[call].slot);
    WorkerHandles(c, s, call);
    assert SameIds(s, t, k);
    if s.worker == Launching(call) { WorkerLaunches(c, s, call); }
    if Copied(s, call) {
      var h: nat :| At(s.log, h, CopyRows(call, k));
      assert At(t.log, h, CopyRows(call, k));
    }
  }

  // The worker writes rows, one event, and appends to the log.
  predicate WorkerFrame(s: State, t: State) {
    && t.next == s.next && t.caller == s.caller && t.nextSlot == s.nextSlot
    && t.outputs == s.outputs && t.tickets.Keys == s.tickets.Keys
    && (forall call | call in s.tickets :: t.tickets[call].slot == s.tickets[call].slot)
    && |t.slots| == |s.slots| && (forall k | 0 <= k < |s.slots| :: SameIds(s, t, k))
    && |s.log| <= |t.log| && (forall j | 0 <= j < |s.log| :: t.log[j] == s.log[j])
  }

  predicate SameIds(s: State, t: State, k: nat)
    requires k < |s.slots| && k < |t.slots|
  {
    && t.slots[k].idsReady == s.slots[k].idsReady && t.slots[k].future == s.slots[k].future
    && t.slots[k].ids == s.slots[k].ids && |t.slots[k].rows| == |s.slots[k].rows|
  }

  lemma WorkerKeepsFrame(c: Config, s: State)
    requires Sized(c, s) && WorkerEnabled(c, s)
    ensures WorkerFrame(s, WorkerNext(c, s))
  {
  }

  // The event after a call's copy is behind everything enqueued for the call.
  predicate MarkedLast(log: seq<Entry>, event: Option<nat>, call: nat, k: nat) {
    && event.Some? && At(log, event.value, RecordDone(call, k))
    && forall i | 0 <= i < |log| && log[i].op.UsesSlot() && log[i].op.call == call :: i <= event.value
  }

  lemma WorkerKeepsMark(c: Config, s: State, k: nat)
    requires Control(c, s) && Jobs(s) && WorkerEnabled(c, s) && k < c.slots
    requires s.worker != Free && s.tickets[s.worker.call].slot == k ==> Active(s, k) == Some(s.worker.call)
    requires Active(s, k).Some? && Active(s, k).value in s.tickets ==> s.tickets[Active(s, k).value].slot == k
    requires Active(s, k).Some? && Marked(s, Active(s, k).value) ==>
      MarkedLast(s.log, s.slots[k].gpuDone, Active(s, k).value, k)
    requires s.slots[k].gpuDone.Some? ==> s.slots[k].gpuDone.value < |s.log|
    ensures var t := WorkerNext(c, s);
      && (t.slots[k].gpuDone.Some? ==> t.slots[k].gpuDone.value < |t.log|)
      && (Active(s, k).Some? && Marked(t, Active(s, k).value) ==>
            MarkedLast(t.log, t.slots[k].gpuDone, Active(s, k).value, k))
  {
  }

  lemma WorkerKeepsSlot(c: Config, s: State, t: State, k: nat)
    requires Sized(c, s) && WorkerFrame(s, t) && Sized(c, t)
    requires k < c.slots && SlotInv(c, s, k)
    requires t.slots[k].gpuDone.Some? ==> t.slots[k].gpuDone.value < |t.log|
    requires Active(s, k).Some? && Marked(t, Active(s, k).value) ==>
      MarkedLast(t.log, t.slots[k].gpuDone, Active(s, k).value, k)
    ensures SlotInv(c, t, k)
  {
    assert SameIds(s, t, k);
    if s.caller == Recording(k) {
      var h: nat :| At(s.log, h, CopyIds(s.next, k));
      assert At(t.log, h, CopyIds(s.next, k));
    }
    if Active(s, k).Some? {
      var call := Active(s, k).value;
      if call in s.tickets || s.caller == Submitting(k) {
        var h: nat :| h < s.slots[k].idsReady.value && At(s.log, h, CopyIds(call, k));
        assert At(t.log, h, CopyIds(call, k));
      }
    }
  }

  lemma WorkerKeepsOwner(c: Config, s: State, t: State, j: nat)
    requires Sized(c, s) && WorkerFrame(s, t) && Sized(c, t) && j < |s.log| && EntryOwner(c, s, j)
    ensures EntryOwner(c, t, j)
  {
    if s.log[j].op.UsesSlot() { assert SameIds(s, t, s.log[j].op.slot); }
  }

  lemma WorkerKeepsData(c: Config, s: State, t: State, j: nat)
    requires Sized(c, s) && WorkerFrame(s, t) && Sized(c, t) && j < |s.log|
    requires EntryOwner(c, s, j) && EntryData(c, s, j) && EntryOwner(c, t, j)
    requires s.log[j].op.CopyRows? && Active(s, s.log[j].op.slot) == Some(s.log[j].op.call) ==>
      RowsUpTo(c, t, s.log[j].op.call, s.log[j].op.slot, |c.commands[s.log[j].op.call].ids|)
    requires t.seen == s.seen
    ensures EntryData(c, t, j)
  {
    match s.log[j].op
    case CopyIds(call, k) => assert SameIds(s, t, k);
    case CopyRows(call, k) => assert SameIds(s, t, k);
    case Read(call) => OrderedKept(c, s.log, t.log, call, s.log[j].stream, j);
    case _ =>
  }

  lemma WorkerKeepsRows(c: Config, s: State, call: nat, k: nat)
    requires Control(c, s) && Jobs(s) && WorkerEnabled(c, s) && WorkerData(c, s)
    requires s.worker != Free ==> s.worker.call in s.tickets && CallInv(c, s, s.worker.call)
    requires Fits(c, s, call, k) && Active(s, k) == Some(call) && RowsUpTo(c, s, call, k, |c.commands[call].ids|)
    ensures Sized(c, WorkerNext(c, s)) && Fits(c, WorkerNext(c, s), call, k)
    ensures RowsUpTo(c, WorkerNext(c, s), call, k, |c.commands[call].ids|)
  {
    if s.worker.Gathering? && s.tickets[s.worker.call].slot == k { GatherWritesWanted(c, s); }
  }

  // The worker enqueues at most one entry, for the call it works on.
  lemma WorkerEnqueues(c: Config, s: State)
    requires Control(c, s) && Jobs(s) && WorkerEnabled(c, s)
    requires s.worker != Free ==>
      && s.worker.call in s.tickets && CallInv(c, s, s.worker.call)
      && Fits(c, s, s.worker.call, s.tickets[s.worker.call].slot)
    ensures var t := WorkerNext(c, s);
      && t.seen == s.seen && |s.log| <= |t.log| <= |s.log| + 1
      && (|s.log| < |t.log| ==> !t.log[|s.log|].done && EntryOwner(c, t, |s.log|))
  {
  }

  lemma WorkerEnqueuesData(c: Config, s: State)
    requires Control(c, s) && Jobs(s) && WorkerEnabled(c, s) && WorkerData(c, s)
    requires s.worker != Free ==> s.worker.call in s.tickets && CallInv(c, s, s.worker.call)
    requires |s.log| < |WorkerNext(c, s).log| && EntryOwner(c, WorkerNext(c, s), |s.log|)
    ensures EntryData(c, WorkerNext(c, s), |s.log|)
  {
  }

  // A row staged again is staged the same.
  lemma GatherWritesWanted(c: Config, s: State)
    requires Sized(c, s) && WorkerEnabled(c, s) && WorkerData(c, s) && s.worker.Gathering?
    ensures var (call, n) := (s.worker.call, |c.commands[s.worker.call].ids|);
      var (k, t) := (s.tickets[call].slot, WorkerNext(c, s));
      && (s.worker.row < n && !Broken(s) ==> RowsUpTo(c, t, call, k, s.worker.row + 1))
      && (RowsUpTo(c, s, call, k, n) ==> RowsUpTo(c, t, call, k, n))
  {
    var (call, k, row) := (s.worker.call, s.tickets[s.worker.call].slot, s.worker.row);
    var n := |c.commands[call].ids|;
    if !Broken(s) && row < n {
      var (rows, wanted) := (WorkerNext(c, s).slots[k].rows, Wanted(c, call));
      assert s.slots[k].ids[..n][row] == c.commands[call].ids[..n][row];
      assert rows == s.slots[k].rows[row := wanted[row]];
      assert rows[..row + 1] == s.slots[k].rows[..row] + [wanted[row]];
      assert wanted[..row + 1] == wanted[..row] + [wanted[row]];
      assert rows[..n] == s.slots[k].rows[..n][row := wanted[row]];
    }
  }

  // Once the ids event has fired the slot holds the ids of its call.
  lemma IdsArrived(c: Config, s: State)
    requires Control(c, s) && Jobs(s) && WorkerEnabled(c, s) && s.worker.Syncing?
    requires CallInv(c, s, s.worker.call) && SlotInv(c, s, s.tickets[s.worker.call].slot)
    requires Entries(c, s)
    requires InOrder(s.log)
    ensures var (call, k) := (s.worker.call, s.tickets[s.worker.call].slot);
      Fits(c, s, call, k) && IdsUpTo(c, s, call, k, |c.commands[call].ids|)
  {
    var (call, k) := (s.worker.call, s.tickets[s.worker.call].slot);
    var i := s.slots[k].idsReady.value;
    var h: nat :| h < i && At(s.log, h, CopyIds(call, k));
    assert EntryOwner(c, s, h) && EntryOwner(c, s, i) && EntryData(c, s, h);
    assert Fifo(s.log, h, i);
  }

  lemma WorkerKeepsWorker(c: Config, s: State)
    requires Control(c, s) && Jobs(s) && WorkerEnabled(c, s) && WorkerData(c, s)
    requires s.worker.Syncing? ==> var (call, k) := (s.worker.call, s.tickets[s.worker.call].slot);
      Fits(c, s, call, k) && IdsUpTo(c, s, call, k, |c.commands[call].ids|)
    ensures WorkerData(c, WorkerNext(c, s))
  {
  }

  lemma WorkerKeepsSlots(c: Config, s: State)
    requires Inv(c, s) && WorkerEnabled(c, s) && WorkerFrame(s, WorkerNext(c, s))
    ensures Sized(c, WorkerNext(c, s)) && Slots(c, WorkerNext(c, s))
  {
    forall k | 0 <= k < c.slots ensures SlotInv(c, WorkerNext(c, s), k) {
      assert SlotInv(c, s, k);
      ActiveSlot(c, s, k);
      if s.worker != Free { assert CallInv(c, s, s.worker.call); }
      WorkerKeepsMark(c, s, k);
      WorkerKeepsSlot(c, s, WorkerNext(c, s), k);
    }
  }

  lemma WorkerKeepsOutcome(c: Config, s: State, call: nat)
    requires Sized(c, s) && Jobs(s) && WorkerEnabled(c, s)
    ensures HasStatus(s, call, Launched) ==> HasStatus(WorkerNext(c, s), call, Launched)
  {
  }

  lemma WorkerKeepsControl(c: Config, s: State)
    requires Control(c, s) && Jobs(s) && WorkerEnabled(c, s)
    ensures Control(c, WorkerNext(c, s))
  {
    var t := WorkerNext(c, s);
    WorkerKeepsFrame(c, s);
    if s.caller.AwaitGpu? { WorkerKeepsOutcome(c, s, s.slots[s.caller.slot].future.value); }
    if s.caller.Reading? { WorkerKeepsOutcome(c, s, c.commands[s.next].call); }
    FramedControl(c, s, t);
  }

  lemma FramedControl(c: Config, s: State, t: State)
    requires Control(c, s) && WorkerFrame(s, t)
    requires s.caller.AwaitGpu? ==> HasStatus(t, s.slots[s.caller.slot].future.value, Launched)
    requires s.caller.Reading? ==> HasStatus(t, c.commands[s.next].call, Launched)
    ensures Control(c, t)
  {
    if !s.caller.Ready? && !s.caller.Reading? { assert SameIds(s, t, s.caller.slot); }
    forall k | 0 <= k < c.slots && t.caller.Owns(k) ensures t.slots[k].future == None { assert SameIds(s, t, k); }
  }

  lemma WorkerKeepsCalls(c: Config, s: State)
    requires Inv(c, s) && WorkerEnabled(c, s) && WorkerFrame(s, WorkerNext(c, s))
    ensures Sized(c, WorkerNext(c, s)) && Calls(c, WorkerNext(c, s))
  {
    WorkerKeepsControl(c, s);
    forall call | call in WorkerNext(c, s).tickets ensures CallInv(c, WorkerNext(c, s), call) {
      WorkerKeepsCall(c, s, call);
    }
  }

  lemma WorkerKeepsEntry(c: Config, s: State, j: nat)
    requires Inv(c, s) && WorkerEnabled(c, s) && WorkerFrame(s, WorkerNext(c, s)) && j < |s.log|
    requires Sized(c, WorkerNext(c, s)) && WorkerNext(c, s).seen == s.seen
    ensures EntryOwner(c, WorkerNext(c, s), j) && EntryData(c, WorkerNext(c, s), j)
  {
    var t := WorkerNext(c, s);
    assert EntryOwner(c, s, j) && EntryData(c, s, j);
    if s.worker != Free { assert CallInv(c, s, s.worker.call); }
    WorkerKeepsOwner(c, s, t, j);
    var op := s.log[j].op;
    if op.CopyRows? && Active(s, op.slot) == Some(op.call) { WorkerKeepsRows(c, s, op.call, op.slot); }
    WorkerKeepsData(c, s, t, j);
  }

  lemma AppendKeepsFifo(log: seq<Entry>, more: seq<Entry>)
    requires InOrder(log) && |log| <= |more| <= |log| + 1 && forall j | 0 <= j < |log| :: more[j] == log[j]
    requires |log| < |more| ==> !more[|log|].done
    ensures InOrder(more)
  {
    forall i, j | 0 <= i < j < |more| ensures Fifo(more, i, j) {
      if j < |log| { assert Fifo(log, i, j); }
    }
  }

  lemma WorkerKeepsLog(c: Config, s: State)
    requires Inv(c, s) && WorkerEnabled(c, s) && WorkerFrame(s, WorkerNext(c, s)) && Sized(c, WorkerNext(c, s))
    ensures InOrder(WorkerNext(c, s).log) && Entries(c, WorkerNext(c, s))
  {
    var t := WorkerNext(c, s);
    if s.worker != Free {
      assert CallInv(c, s, s.worker.call) && SlotInv(c, s, s.tickets[s.worker.call].slot);
    }
    WorkerEnqueues(c, s);
    AppendKeepsFifo(s.log, t.log);
    if |s.log| < |t.log| { WorkerEnqueuesData(c, s); }
    forall j | 0 <= j < |s.log| ensures EntryOwner(c, t, j) && EntryData(c, t, j) { WorkerKeepsEntry(c, s, j); }
    EntriesJoin(c, t, |s.log|);
  }

  lemma WorkerKeepsInv(c: Config, s: State)
    requires Inv(c, s) && WorkerEnabled(c, s)
    ensures Inv(c, WorkerNext(c, s))
  {
    var t := WorkerNext(c, s);
    WorkerKeepsControl(c, s);
    WorkerKeepsJobs(c, s);
    WorkerKeepsFrame(c, s);
    WorkerKeepsCalls(c, s);
    WorkerKeepsSlots(c, s);
    WorkerKeepsLog(c, s);
    WorkerFindsIds(c, s);
    WorkerKeepsWorker(c, s);
    WorkerKeepsReading(c, s, t);
  }

  lemma WorkerFindsIds(c: Config, s: State)
    requires Inv(c, s) && WorkerEnabled(c, s)
    ensures s.worker.Syncing? ==> var (call, k) := (s.worker.call, s.tickets[s.worker.call].slot);
      Fits(c, s, call, k) && IdsUpTo(c, s, call, k, |c.commands[call].ids|)
  {
    if s.worker.Syncing? {
      assert CallInv(c, s, s.worker.call) && SlotInv(c, s, s.tickets[s.worker.call].slot);
      IdsArrived(c, s);
    }
  }

  lemma WorkerKeepsReading(c: Config, s: State, t: State)
    requires CallerData(c, s) && WorkerFrame(s, t)
    ensures CallerData(c, t)
  {
    if s.caller.Reading? {
      OrderedKept(c, s.log, t.log, c.commands[s.next].call, c.commands[s.next].stream, |s.log|);
      OrderedLater(c, t.log, c.commands[s.next].call, c.commands[s.next].stream, |s.log|, |t.log|);
    }
  }

  lemma OrderedLater(c: Config, log: seq<Entry>, call: nat, stream: nat, i: nat, j: nat)
    requires IsGather(c, call) && Ordered(c, log, call, stream, i) && i <= j
    ensures Ordered(c, log, call, stream, j)
  {
  }

  lemma ActiveSlot(c: Config, s: State, k: nat)
    requires Control(c, s) && k < c.slots && SlotInv(c, s, k)
    requires Calls(c, s)
    ensures Active(s, k).Some? && Active(s, k).value in s.tickets ==> s.tickets[Active(s, k).value].slot == k
  {
  }

  // --- The caller -------------------------------------------------------------

  // A slot that serves nobody.
  predicate Drained(s: State, k: nat) {
    && (forall i | 0 <= i < |s.log| && s.log[i].op.UsesSlot() && s.log[i].op.slot == k :: s.log[i].done)
    && (forall call | call in s.tickets && s.tickets[call].status.Running? :: s.tickets[call].slot != k)
  }

  // Before the caller takes a slot over, everything on it has finished.
  lemma SlotDrained(c: Config, s: State, k: nat)
    requires Inv(c, s) && CallerEnabled(c, s) && s.caller == AwaitGpu(k)
    ensures Drained(s, k)
  {
    var call := s.slots[k].future.value;
    assert SlotInv(c, s, k) && Active(s, k) == Some(call) && Marked(s, call);
    var last := s.slots[k].gpuDone.value;
    forall i | 0 <= i < |s.log| && s.log[i].op.UsesSlot() && s.log[i].op.slot == k ensures s.log[i].done {
      assert EntryOwner(c, s, i) && EntryOwner(c, s, last);
      if i < last { assert Fifo(s.log, i, last); }
    }
    forall other | other in s.tickets && s.tickets[other].status.Running? ensures s.tickets[other].slot != k {
      assert CallInv(c, s, other);
    }
  }

  predicate Takes(s: State, k: nat) {
    s.caller == AwaitGpu(k) || (s.caller == Ready && s.nextSlot == k && k < |s.slots| && s.slots[k].future == None)
  }

  lemma TakenIsDrained(c: Config, s: State, k: nat)
    requires Inv(c, s) && CallerEnabled(c, s) && Takes(s, k)
    ensures Drained(s, k)
  {
    if s.caller == AwaitGpu(k) {
      SlotDrained(c, s, k);
    } else {
      assert SlotInv(c, s, k) && Active(s, k) == None;
      forall i | 0 <= i < |s.log| && s.log[i].op.UsesSlot() && s.log[i].op.slot == k ensures s.log[i].done {
        assert EntryOwner(c, s, i);
      }
      forall other | other in s.tickets && s.tickets[other].status.Running? ensures s.tickets[other].slot != k {
        assert CallInv(c, s, other);
      }
    }
  }

  // The caller appends: earlier jobs, entries and buffers stay as they are.
  predicate CallerFrame(s: State, t: State) {
    && t.worker == s.worker && t.seen == s.seen
    && s.next <= t.next && (s.caller.Storing? ==> s.next < t.next)
    && (s.caller.HasCopied() && s.next == t.next ==> t.caller.HasCopied() && t.caller.slot == s.caller.slot)
    && (forall call | call in s.tickets ::
          && call in t.tickets && t.tickets[call] == s.tickets[call] && (call in s.queue ==> call in t.queue)
          && (call in s.outputs ==> call in t.outputs && t.outputs[call] == s.outputs[call]))
    && |s.log| <= |t.log| && (forall j | 0 <= j < |s.log| :: t.log[j] == s.log[j])
    && |t.slots| == |s.slots| && (forall k | 0 <= k < |s.slots| :: SameBuffers(s, t, k))
  }

  predicate SameBuffers(s: State, t: State, k: nat)
    requires k < |s.slots| && k < |t.slots|
  {
    && t.slots[k].ids == s.slots[k].ids && t.slots[k].rows == s.slots[k].rows
    && t.slots[k].gpuDone == s.slots[k].gpuDone
    && (Active(t, k) == Active(s, k) || (Takes(s, k) && Active(t, k) == Some(s.next) && t.caller == Ordering(k)))
  }

  lemma CallerKeepsBuffers(c: Config, s: State, k: nat)
    requires Control(c, s) && CallerEnabled(c, s) && k < c.slots
    ensures Sized(c, CallerNext(c, s)) && SameBuffers(s, CallerNext(c, s), k)
  {
  }

  lemma CallerKeepsFrame(c: Config, s: State)
    requires Control(c, s) && CallerEnabled(c, s) && (s.next in s.tickets ==> s.caller.Storing?)
    ensures CallerFrame(s, CallerNext(c, s))
  {
    forall k | 0 <= k < c.slots ensures SameBuffers(s, CallerNext(c, s), k) {
      CallerKeepsBuffers(c, s, k);
    }
  }

  lemma CallerKeepsCall(c: Config, s: State, t: State, call: nat)
    requires Sized(c, s) && CallerFrame(s, t) && Sized(c, t)
    requires call in s.tickets && CallInv(c, s, call)
    requires Takes(s, s.tickets[call].slot) ==> Drained(s, s.tickets[call].slot)
    ensures CallInv(c, t, call)
  {
    assert SameBuffers(s, t, s.tickets[call].slot);
    if Copied(s, call) {
      var h: nat :| At(s.log, h, CopyRows(call, s.tickets[call].slot));
      assert At(t.log, h, CopyRows(call, s.tickets[call].slot));
    }
  }

  lemma SubmittedCall(c: Config, s: State)
    requires Control(c, s) && Jobs(s) && CallerEnabled(c, s) && s.caller.Submitting? && s.next !in s.tickets
    ensures CallInv(c, CallerNext(c, s), s.next)
  {
  }

  lemma CallerKeepsOwner(c: Config, s: State, t: State, j: nat)
    requires Sized(c, s) && CallerFrame(s, t) && Sized(c, t)
    requires j < |s.log| && EntryOwner(c, s, j)
    requires s.log[j].op.UsesSlot() && Takes(s, s.log[j].op.slot) ==> Drained(s, s.log[j].op.slot)
    ensures EntryOwner(c, t, j)
  {
    if s.log[j].op.UsesSlot() { assert SameBuffers(s, t, s.log[j].op.slot); }
  }

  lemma CallerKeepsData(c: Config, s: State, t: State, j: nat)
    requires Sized(c, s) && CallerFrame(s, t) && Sized(c, t)
    requires j < |s.log| && EntryOwner(c, s, j) && EntryData(c, s, j) && EntryOwner(c, t, j)
    requires s.log[j].op.CopyRows? ==> s.log[j].op.call in s.tickets
    ensures EntryData(c, t, j)
  {
    match s.log[j].op
    case CopyIds(call, k) => assert SameBuffers(s, t, k);
    case CopyRows(call, k) => assert SameBuffers(s, t, k);
    case Read(call) => OrderedKept(c, s.log, t.log, call, s.log[j].stream, j);
    case _ =>
  }

  // What the caller has just enqueued.
  lemma EnqueuedCopyOfIds(c: Config, s: State, k: nat)
    requires Control(c, s) && CallerEnabled(c, s) && s.caller == Copying(k) && Fits(c, s, s.next, k)
    ensures var t := CallerNext(c, s);
      && |t.log| == |s.log| + 1 && Sized(c, t) && EntryOwner(c, t, |s.log|) && EntryData(c, t, |s.log|)
  {
  }

  lemma EnqueuedRecordOfIds(c: Config, s: State, k: nat)
    requires Control(c, s) && CallerEnabled(c, s) && s.caller == Recording(k) && Fits(c, s, s.next, k)
    ensures var t := CallerNext(c, s);
      && |t.log| == |s.log| + 1 && Sized(c, t) && EntryOwner(c, t, |s.log|) && EntryData(c, t, |s.log|)
  {
  }

  lemma EnqueuedRead(c: Config, s: State)
    requires Control(c, s) && CallerEnabled(c, s) && CallerData(c, s) && s.caller.Reading?
    requires CallInv(c, s, c.commands[s.next].call)
    ensures var t := CallerNext(c, s);
      && |t.log| == |s.log| + 1 && Sized(c, t) && EntryOwner(c, t, |s.log|) && EntryData(c, t, |s.log|)
  {
    OrderedKept(c, s.log, CallerNext(c, s).log, c.commands[s.next].call, c.commands[s.next].stream, |s.log|);
  }

  // All else that the caller enqueues are waits.
  lemma EnqueuedWait(c: Config, s: State)
    requires Control(c, s) && CallerEnabled(c, s) && |CallerNext(c, s).log| > |s.log|
    requires !s.caller.Copying? && !s.caller.Recording? && !s.caller.Reading?
    ensures var t := CallerNext(c, s);
      Sized(c, t) && t.log[|s.log|].op.WaitStream? && t.log[|s.log|].progress == 0
  {
  }

  lemma EnqueuedEntry(c: Config, s: State)
    requires Inv(c, s) && CallerEnabled(c, s) && |CallerNext(c, s).log| > |s.log|
    ensures var t := CallerNext(c, s); Sized(c, t) && EntryOwner(c, t, |s.log|) && EntryData(c, t, |s.log|)
  {
    if !s.caller.Ready? && !s.caller.Reading? { assert SlotInv(c, s, s.caller.slot); }
    match s.caller
    case Copying(k) => EnqueuedCopyOfIds(c, s, k);
    case Recording(k) => EnqueuedRecordOfIds(c, s, k);
    case Reading =>
      assert CallInv(c, s, c.commands[s.next].call);
      EnqueuedRead(c, s);
    case _ => EnqueuedWait(c, s);
  }

  lemma CallerKeepsEntries(c: Config, s: State, t: State)
    requires Inv(c, s) && CallerEnabled(c, s) && CallerFrame(s, t) && Sized(c, t)
    ensures forall j | 0 <= j < |s.log| :: EntryOwner(c, t, j) && EntryData(c, t, j)
  {
    forall j | 0 <= j < |s.log| ensures EntryOwner(c, t, j) && EntryData(c, t, j) {
      assert EntryOwner(c, s, j) && EntryData(c, s, j);
      if s.log[j].op.UsesSlot() && Takes(s, s.log[j].op.slot) { TakenIsDrained(c, s, s.log[j].op.slot); }
      CallerKeepsOwner(c, s, t, j);
      CallerKeepsData(c, s, t, j);
    }
  }

  lemma EntriesJoin(c: Config, t: State, n: nat)
    requires Sized(c, t) && |t.log| <= n + 1
    requires forall j | 0 <= j < n && j < |t.log| :: EntryOwner(c, t, j) && EntryData(c, t, j)
    requires n < |t.log| ==> EntryOwner(c, t, n) && EntryData(c, t, n)
    ensures Entries(c, t)
  {
  }

  lemma CallerEnqueuesOne(c: Config, s: State)
    requires Control(c, s) && CallerEnabled(c, s)
    ensures |s.log| <= |CallerNext(c, s).log| <= |s.log| + 1
    ensures |CallerNext(c, s).log| > |s.log| ==> !CallerNext(c, s).log[|s.log|].done
  {
  }

  lemma CallerKeepsLog(c: Config, s: State, t: State)
    requires Inv(c, s) && CallerEnabled(c, s) && CallerFrame(s, t) && t == CallerNext(c, s) && Sized(c, t)
    ensures InOrder(t.log) && Entries(c, t)
  {
    CallerEnqueuesOne(c, s);
    CallerKeepsEntries(c, s, t);
    AppendKeepsFifo(s.log, t.log);
    if |s.log| < |t.log| { EnqueuedEntry(c, s); }
    EntriesJoin(c, t, |s.log|);
  }

  // Slots the caller is not working on.
  lemma CallerLeavesSlot(c: Config, s: State, k: nat)
    requires Control(c, s) && CallerEnabled(c, s) && k < c.slots && !s.caller.Owns(k) && !Takes(s, k)
    ensures CallerNext(c, s).slots[k] == s.slots[k]
  {
  }

  lemma CallerStaysOff(c: Config, s: State, k: nat)
    requires Sized(c, s) && CallerEnabled(c, s) && k < c.slots && !s.caller.Owns(k) && !Takes(s, k)
    ensures !CallerNext(c, s).caller.Owns(k)
  {
  }

  // What the caller enqueues is for the call it is making.
  predicate ForNext(s: State, t: State) {
    forall i | |s.log| <= i < |t.log| && t.log[i].op.UsesSlot() :: t.log[i].op.call == s.next
  }

  lemma CallerEnqueuesForNext(c: Config, s: State)
    requires Sized(c, s) && CallerEnabled(c, s)
    ensures ForNext(s, CallerNext(c, s))
  {
  }

  lemma CallerKeepsOtherSlot(c: Config, s: State, t: State, k: nat)
    requires Sized(c, s) && CallerFrame(s, t) && Sized(c, t)
    requires k < c.slots && SlotInv(c, s, k) && !s.caller.Owns(k)
    requires t.slots[k] == s.slots[k] && !t.caller.Owns(k) && ForNext(s, t)
    ensures SlotInv(c, t, k)
  {
    if Active(s, k).Some? {
      var call := Active(s, k).value;
      assert Active(s, k) == s.slots[k].future;
      var h: nat :| h < s.slots[k].idsReady.value && At(s.log, h, CopyIds(call, k));
      assert At(t.log, h, CopyIds(call, k));
    }
  }

  // Taking a slot clears its future, if it has one, and nothing else.
  lemma TakingClears(c: Config, s: State, k: nat)
    requires Sized(c, s) && CallerEnabled(c, s) && Takes(s, k) && k < c.slots
    ensures var t := CallerNext(c, s);
      && Sized(c, t) && t.tickets == s.tickets && t.worker == s.worker && t.next >= s.next
      && (t.slots[k] == s.slots[k] || t.slots[k] == s.slots[k].(future := None))
      && (if t.caller.Owns(k) then t.caller == Ordering(k) && t.next == s.next && t.slots[k].future == None
          else t.slots[k] == s.slots[k])
  {
  }

  lemma TakenSlot(c: Config, s: State, k: nat)
    requires Control(c, s) && Jobs(s) && CallerEnabled(c, s) && Takes(s, k) && k < c.slots && SlotInv(c, s, k)
    requires CallerFrame(s, CallerNext(c, s)) && s.next !in s.tickets
    ensures Sized(c, CallerNext(c, s)) && SlotInv(c, CallerNext(c, s), k)
  {
    TakingClears(c, s, k);
  }

  // The slot the caller is filling, call by call.
  lemma CallerKeepsOwnSlot(c: Config, s: State, k: nat)
    requires Control(c, s) && Jobs(s) && CallerEnabled(c, s) && k < c.slots && SlotInv(c, s, k) && s.caller.Owns(k)
    requires s.next in s.tickets ==> s.caller.Storing?
    requires CallerFrame(s, CallerNext(c, s)) && Sized(c, CallerNext(c, s))
    ensures SlotInv(c, CallerNext(c, s), k)
  {
    var t := CallerNext(c, s);
    assert SameBuffers(s, t, k);
    match s.caller
    case Copying(_) => assert At(t.log, |s.log|, CopyIds(s.next, k));
    case Recording(_) =>
      var h: nat :| At(s.log, h, CopyIds(s.next, k));
      assert At(t.log, h, CopyIds(s.next, k));
    case _ =>
  }

  lemma CallerKeepsSlots(c: Config, s: State)
    requires Inv(c, s) && CallerEnabled(c, s) && CallerFrame(s, CallerNext(c, s)) && Sized(c, CallerNext(c, s))
    ensures Slots(c, CallerNext(c, s))
  {
    if s.next in s.tickets { assert CallInv(c, s, s.next); }
    forall k | 0 <= k < c.slots ensures SlotInv(c, CallerNext(c, s), k) {
      assert SlotInv(c, s, k);
      if Takes(s, k) { TakenSlot(c, s, k); }
      else if s.caller.Owns(k) { CallerKeepsOwnSlot(c, s, k); }
      else {
        CallerLeavesSlot(c, s, k);
        CallerStaysOff(c, s, k);
        CallerEnqueuesForNext(c, s);
        CallerKeepsOtherSlot(c, s, CallerNext(c, s), k);
      }
    }
  }

  lemma CallerKeepsCalls(c: Config, s: State, t: State)
    requires Inv(c, s) && CallerEnabled(c, s) && CallerFrame(s, t) && t == CallerNext(c, s) && Sized(c, t)
    ensures Calls(c, t)
  {
    if s.next in s.tickets { assert CallInv(c, s, s.next); }
    forall call | call in t.tickets ensures CallInv(c, t, call) {
      if call in s.tickets {
        var k := s.tickets[call].slot;
        assert CallInv(c, s, call);
        if Takes(s, k) { TakenIsDrained(c, s, k); }
        CallerKeepsCall(c, s, t, call);
      } else {
        SubmittedCall(c, s);
      }
    }
  }

  lemma CallerKeepsWorker(c: Config, s: State, t: State)
    requires Sized(c, s) && WorkerData(c, s) && CallerFrame(s, t) && Sized(c, t)
    ensures WorkerData(c, t)
  {
    var w := s.worker;
    if !w.Free? && !w.Syncing? { assert SameBuffers(s, t, s.tickets[w.call].slot); }
  }

  // A read is enqueued behind a wait for a launched call.
  lemma CallerKeepsReading(c: Config, s: State)
    requires Inv(c, s) && CallerEnabled(c, s)
    ensures CallerData(c, CallerNext(c, s))
  {
    var t := CallerNext(c, s);
    if t.caller.Reading? {
      var call := c.commands[s.next].call;
      assert CallInv(c, s, call);
      var h: nat :| At(s.log, h, CopyRows(call, s.tickets[call].slot));
      assert EntryOwner(c, s, h);
      assert At(t.log, h, CopyRows(call, s.tickets[call].slot));
      assert At(t.log, |s.log|, WaitStream(c.commands[call].stream));
    }
  }

  lemma CallerKeepsInv(c: Config, s: State)
    requires Inv(c, s) && CallerEnabled(c, s)
    ensures Inv(c, CallerNext(c, s))
  {
    var t := CallerNext(c, s);
    if s.next in s.tickets { assert CallInv(c, s, s.next); }
    CallerKeepsControl(c, s);
    CallerSubmits(c, s);
    CallerKeepsJobs(s, t);
    CallerKeepsFrame(c, s);
    CallerKeepsCalls(c, s, t);
    CallerKeepsSlots(c, s);
    CallerKeepsLog(c, s, t);
    CallerKeepsWorker(c, s, t);
    CallerKeepsReading(c, s);
  }

  // --- Streams and failures -----------------------------------------------------

  lemma StreamKeepsEntries(c: Config, s: State, t: State, i: nat)
    requires Inv(c, s) && StreamEnabled(c, s, i) && t == StreamNext(c, s, i) && StreamFrame(s, t, i) && Sized(c, t)
    ensures Entries(c, t)
  {
    assert EntryOwner(c, s, i) && EntryData(c, s, i);
    if s.log[i].op.Read? { ReadSeesRows(c, s, i); }
    forall j | 0 <= j < |t.log| ensures EntryOwner(c, t, j) && EntryData(c, t, j) {
      assert EntryOwner(c, s, j) && EntryData(c, s, j);
      StreamKeepsOwner(c, s, t, i, j);
      if s.log[i].op.CopyIds? { CopyIdsKeepsData(c, s, i, j); }
      else if s.log[i].op.CopyRows? { CopyRowsKeepsData(c, s, i, j); }
      else { OthersKeepData(c, s, i, j); }
    }
  }

  // A copy of ids lands only in the slot of the call it was enqueued for.
  lemma StreamKeepsWorker(c: Config, s: State, i: nat)
    requires Control(c, s) && Jobs(s) && StreamEnabled(c, s, i) && WorkerData(c, s)
    requires EntryOwner(c, s, i) && EntryData(c, s, i)
    requires s.worker != Free ==> s.worker.call in s.tickets && CallInv(c, s, s.worker.call)
    requires Sized(c, StreamNext(c, s, i))
    ensures WorkerData(c, StreamNext(c, s, i))
  {
  }

  lemma StreamKeepsInv(c: Config, s: State, i: nat)
    requires Inv(c, s) && StreamEnabled(c, s, i)
    ensures Inv(c, StreamNext(c, s, i))
  {
    var t := StreamNext(c, s, i);
    StreamKeepsFrame(c, s, i);
    StreamKeepsControl(c, s, t, i);
    forall call | call in t.tickets ensures CallInv(c, t, call) { StreamKeepsCall(c, s, t, i, call); }
    forall k | 0 <= k < c.slots ensures SlotInv(c, t, k) { StreamKeepsSlot(c, s, t, i, k); }
    StreamKeepsFifo(c, s, i);
    StreamKeepsEntries(c, s, t, i);
    StreamKeepsWorker(c, s, i);
    if s.caller.Reading? {
      OrderedKept(c, s.log, t.log, c.commands[s.next].call, c.commands[s.next].stream, |s.log|);
    }
  }

  lemma FailKeepsCalls(c: Config, s: State)
    requires Control(c, s) && Jobs(s) && FailEnabled(s) && Calls(c, s)
    ensures Sized(c, FailNext(s)) && Calls(c, FailNext(s))
  {
  }

  lemma FailKeepsLog(c: Config, s: State)
    requires Control(c, s) && Jobs(s) && FailEnabled(s) && Entries(c, s) && Slots(c, s)
    ensures Sized(c, FailNext(s)) && Entries(c, FailNext(s)) && Slots(c, FailNext(s))
  {
    forall k | 0 <= k < c.slots ensures SlotInv(c, FailNext(s), k) { assert SlotInv(c, s, k); }
    forall j | 0 <= j < |s.log| ensures EntryOwner(c, FailNext(s), j) && EntryData(c, FailNext(s), j) {
      assert EntryOwner(c, s, j) && EntryData(c, s, j);
    }
  }

  lemma FailKeepsInv(c: Config, s: State)
    requires Inv(c, s) && FailEnabled(s)
    ensures Inv(c, FailNext(s))
  {
    FailKeepsControl(c, s);
    FailKeepsCalls(c, s);
    FailKeepsLog(c, s);
  }

  lemma StepKeepsInv(c: Config, s: State, a: Action)
    requires Inv(c, s) && Enabled(c, s, a)
    ensures Inv(c, Next(c, s, a))
  {
    match a
    case CallerStep => CallerKeepsInv(c, s);
    case WorkerStep => WorkerKeepsInv(c, s);
    case WorkerFails => FailKeepsInv(c, s);
    case StreamStep(i) => StreamKeepsInv(c, s, i);
  }
}
