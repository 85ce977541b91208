/** A run in which the reader fails once and a later, valid gather is refused. */
module StagingRefusal {
  import opened Options
  import opened Staging
  import opened StagingRuns
  import opened StagingService

  // Two slots and three gathers of one row, all on one stream.
  function ThreeGathers(read: int -> Row, out: Row): Config {
    var begin := Begin([7], [out], 0, 1);
    Config([begin, begin, begin], 2, 1, read)
  }

  function Fresh(row: Row): State {
    var slot := Slot([0], [row], None, None, None);
    State(0, Ready, 0, [slot, slot], map[], [], Free, [], map[], map[])
  }

  // What five steps of the caller make of a gather that has acquired slot k.
  function Begun(c: Config, s: State, k: nat): State
    requires k < |s.slots| && IsGather(c, s.next)
  {
    var stream := c.commands[s.next].stream;
    var log := Enqueue(Enqueue(Enqueue(s.log, stream, WaitStream(c.commands[s.next].producer)), stream,
                               CopyIds(s.next, k)), stream, RecordIds(s.next, k));
    s.(next := s.next + 1, caller := Ready, log := log, queue := s.queue + [s.next],
       slots := s.slots[k := s.slots[k].(idsReady := Some(|s.log| + 2), future := Some(s.next))],
       tickets := s.tickets[s.next := Ticket(k, Running)], outputs := s.outputs[s.next := c.commands[s.next].out])
  }

  predicate CallerTo(c: Config, s: State, t: State) {
    Sized(c, s) && CallerEnabled(c, s) && t == CallerNext(c, s)
  }

  lemma CallerGoes(c: Config, start: State, actions: seq<Action>, s: State, t: State) returns (more: seq<Action>)
    requires Run(c, start, actions, s) && CallerTo(c, s, t)
    ensures Run(c, start, more, t)
  {
    RunExtends(c, start, actions, s, CallerStep);
    more := actions + [CallerStep];
  }

  lemma BeginSteps(c: Config, s: State, k: nat) returns (a: State, b: State, d: State, e: State)
    requires Sized(c, s) && k < c.slots && s.next < |c.commands| && IsGather(c, s.next) && s.caller == Ordering(k)
    ensures CallerTo(c, s, a) && CallerTo(c, a, b) && CallerTo(c, b, d) && CallerTo(c, d, e)
    ensures CallerTo(c, e, Begun(c, s, k))
  {
    var stream := c.commands[s.next].stream;
    a := s.(log := Enqueue(s.log, stream, WaitStream(c.commands[s.next].producer)), caller := Copying(k));
    b := a.(log := Enqueue(a.log, stream, CopyIds(s.next, k)), caller := Recording(k));
    d := b.(log := Enqueue(b.log, stream, RecordIds(s.next, k)), caller := Submitting(k),
            slots := b.slots[k := b.slots[k].(idsReady := Some(|b.log|))]);
    e := d.(queue := s.queue + [s.next], tickets := s.tickets[s.next := Ticket(k, Running)],
            outputs := s.outputs[s.next := c.commands[s.next].out], caller := Storing(k));
  }

  lemma BeginRuns(c: Config, start: State, actions: seq<Action>, s: State, k: nat) returns (more: seq<Action>)
    requires Run(c, start, actions, s) && Sized(c, s) && k < c.slots
    requires s.next < |c.commands| && IsGather(c, s.next) && s.caller == Ordering(k)
    ensures Run(c, start, more, Begun(c, s, k))
  {
    var a, b, d, e := BeginSteps(c, s, k);
    more := CallerGoes(c, start, actions, s, a);
    more := CallerGoes(c, start, more, a, b);
    more := CallerGoes(c, start, more, b, d);
    more := CallerGoes(c, start, more, d, e);
    more := CallerGoes(c, start, more, e, Begun(c, s, k));
  }

  // The first gather is with the worker and its ids are on the stream.
  predicate FirstBegun(c: Config, t: State) {
    && c.slots == 2 && Sized(c, t) && IsGather(c, 0) && |c.commands[0].ids| == 1 && Fits(c, t, 0, 0)
    && t.caller == Ready && t.next == 1 && t.nextSlot == 1 && t.worker == Free && t.queue == [0]
    && t.tickets == map[0 := Ticket(0, Running)]
    && t.slots[0].future == Some(0) && t.slots[1].future == None && t.slots[0].idsReady == Some(2)
  }

  // The streams copy its ids ...
  lemma FirstSteps(c: Config, t: State) returns (states: seq<State>)
    requires FirstBegun(c, t)
    requires t.log == [Entry(0, WaitStream(1), 0, false), Entry(0, CopyIds(0, 0), 0, false),
                       Entry(0, RecordIds(0, 0), 0, false)]
    ensures |states| == 4 && StreamTo(c, t, 0, states[0]) && StreamTo(c, states[0], 1, states[1])
    ensures StreamTo(c, states[1], 1, states[2]) && StreamTo(c, states[2], 2, states[3])
    ensures FirstBegun(c, states[3]) && |states[3].log| == 3 && states[3].log[2].done
  {
    var a := t.(log := t.log[0 := t.log[0].(done := true)]);
    var b := a.(log := a.log[1 := a.log[1].(progress := 1)],
                slots := a.slots[0 := a.slots[0].(ids := a.slots[0].ids[0 := c.commands[0].ids[0]])]);
    var d := b.(log := b.log[1 := b.log[1].(done := true)]);
    var e := d.(log := d.log[2 := d.log[2].(done := true)]);
    states := [a, b, d, e];
  }

  predicate StreamTo(c: Config, s: State, i: nat, t: State) {
    Sized(c, s) && StreamEnabled(c, s, i) && t == StreamNext(c, s, i)
  }

  lemma Goes(c: Config, start: State, actions: seq<Action>, s: State, a: Action, t: State) returns (more: seq<Action>)
    requires Run(c, start, actions, s) && Sized(c, s) && Enabled(c, s, a) && t == Next(c, s, a)
    ensures Run(c, start, more, t)
  {
    RunExtends(c, start, actions, s, a);
    more := actions + [a];
  }

  // The state after the first gather has failed.
  ghost predicate FirstFailed(s: State) {
    && s.caller == Ready && s.next == 1 && s.nextSlot == 1 && |s.slots| == 2 && s.slots[1].future == None
    && s.tickets.Keys == {0} && Retired(s, 0, 0)
  }

  // ... and reading its row fails.
  lemma FirstFails(c: Config, start: State, actions: seq<Action>, t: State) returns (more: seq<Action>, u: State)
    requires Run(c, start, actions, t) && FirstBegun(c, t)
    requires t.log == [Entry(0, WaitStream(1), 0, false), Entry(0, CopyIds(0, 0), 0, false),
                       Entry(0, RecordIds(0, 0), 0, false)]
    ensures Run(c, start, more, u) && FirstFailed(u)
  {
    var states := FirstSteps(c, t);
    more := Goes(c, start, actions, t, StreamStep(0), states[0]);
    more := Goes(c, start, more, states[0], StreamStep(1), states[1]);
    more := Goes(c, start, more, states[1], StreamStep(1), states[2]);
    more := Goes(c, start, more, states[2], StreamStep(2), states[3]);
    more, u := ReadFails(c, start, more, states[3]);
  }

  lemma ReadFails(c: Config, start: State, actions: seq<Action>, t: State) returns (more: seq<Action>, u: State)
    requires Run(c, start, actions, t) && FirstBegun(c, t) && |t.log| == 3 && t.log[2].done
    ensures Run(c, start, more, u) && FirstFailed(u)
  {
    var w := t.(worker := Syncing(0), queue := []);
    more := Goes(c, start, actions, t, WorkerStep, w);
    var g := w.(worker := Gathering(0, 0));
    more := Goes(c, start, more, w, WorkerStep, g);
    u := FailNext(g);
    more := Goes(c, start, more, g, WorkerFails, u);
  }

  // With the other slot in use meanwhile, the third gather meets the failed future
  // of the first and is refused, although it is as valid as they are.
  lemma ThirdIsRefused(read: int -> Row, out: Row, row: Row) returns (actions: seq<Action>, s: State)
    ensures var c := ThreeGathers(read, out);
      && Initial(c, Fresh(row)) && Run(c, Fresh(row), actions, s)
      && s.next == 3 && IsGather(c, 2) && 2 !in s.tickets && RetiredBefore(s, Landing(c, 2), 2)
  {
    var (c, start) := (ThreeGathers(read, out), Fresh(row));
    var first := start.(nextSlot := 1, caller := Ordering(0));
    assert CallerTo(c, start, first);
    actions := CallerGoes(c, start, [], start, first);
    actions := BeginRuns(c, start, actions, first, 0);
    var failed;
    actions, failed := FirstFails(c, start, actions, Begun(c, first, 0));
    actions, s := LaterAreRefused(c, start, actions, failed);
    ReachableService(c, start, actions, s);
    ServedUnlessRetired(c, start, actions, s, 2);
  }

  lemma LaterAreRefused(c: Config, start: State, actions: seq<Action>, s: State) returns (more: seq<Action>, t: State)
    requires Run(c, start, actions, s) && FirstFailed(s) && c.slots == 2 && |c.commands| == 3
    requires IsGather(c, 1) && IsGather(c, 2)
    ensures Run(c, start, more, t) && t.next == 3 && 2 !in t.tickets
  {
    var second := s.(nextSlot := 0, caller := Ordering(1));
    more := CallerGoes(c, start, actions, s, second);
    more := BeginRuns(c, start, more, second, 1);
    var u := Begun(c, second, 1);
    var waiting := u.(nextSlot := 1, caller := AwaitFuture(0));
    more := CallerGoes(c, start, more, u, waiting);
    t := waiting.(next := 3, caller := Ready);
    more := CallerGoes(c, start, more, waiting, t);
  }
}
