/** Switching the speculative depth at run time. Pre-built states are applied to
    the worker, its draft worker, the target and the context; building one
    overrides the same fields for a while and must put them back. */
module AdaptiveState {
  import opened Options

  // Attention backends and graph runners are known by number.
  datatype RuntimeState = RuntimeState(
    steps: nat, tokens: nat, draftBackend: nat, draftGraph: Option<nat>, targetBackend: nat, targetGraph: Option<nat>,
    extendBackend: Option<nat>, extendGraph: Option<nat>)

  // The switched fields, object by object: the draft worker, its runner, the
  // target and the context; the worker itself holds the two counts.
  datatype Counts = Counts(steps: nat, tokens: nat)
  datatype Draft = Draft(counts: Counts, backend: nat, extendBackend: Option<nat>, graph: Option<nat>,
      extendGraph: Option<nat>)
  datatype Runner = Runner(draftBackend: nat, backend: nat)
  datatype Target = Target(backend: nat, graph: Option<nat>)
  datatype Context = Context(counts: Counts, graphBs: seq<nat>, disableGraph: bool)

  // `chain` is what the chain buffers were last built for.
  datatype Fields = Fields(counts: Counts, draft: Draft, runner: Runner, chain: Counts, target: Target,
      context: Context)

  // Where a build may raise: rebuilding the chain buffers before the guarded
  // region, at one of its stages, or rebuilding them on the way out.
  datatype Fault = NoFault | RebuildBefore | DraftBackend | ExtendBackend | CaptureGraphs | TargetBackend | RebuildAfter

  // --- Meaning -----------------------------------------------------------------

  // All fields belong to one state; `base` is the backend the draft runner was
  // initialized with, which stays when a state has no draft-extend backend.
  predicate Coherent(f: Fields, s: RuntimeState, base: nat) {
    && f.counts == f.draft.counts == f.chain == f.context.counts == Counts(s.steps, s.tokens)
    && f.draft.backend == f.runner.draftBackend == s.draftBackend
    && f.draft.extendBackend == s.extendBackend && f.draft.graph == s.draftGraph && f.draft.extendGraph == s.extendGraph
    && f.runner.backend == (if s.extendBackend.Some? then s.extendBackend.value else base)
    && f.target == Target(s.targetBackend, s.targetGraph)
  }

  // `apply_runtime_state`; rebuilding the chain buffers may raise half-way.
  function Applied(f: Fields, s: RuntimeState, raises: bool): Fields {
    if f.counts.steps == s.steps then f
    else
      var counts := Counts(s.steps, s.tokens);
      var backend := if s.extendBackend.Some? then s.extendBackend.value else f.runner.backend;
      var draft := Draft(counts, s.draftBackend, s.extendBackend, s.draftGraph, s.extendGraph);
      var g := f.(counts := counts, draft := draft, runner := Runner(s.draftBackend, backend));
      if raises then g
      else
        g.(chain := counts, target := Target(s.targetBackend, s.targetGraph), context := f.context.(counts := counts))
  }

  // The fields that a build overrides before its guarded region.
  function Overridden(f: Fields, counts: Counts, graphBs: Option<seq<nat>>): Fields {
    f.(counts := counts, draft := f.draft.(counts := counts),
       context := Context(counts, if graphBs.Some? then graphBs.value else f.context.graphBs,
                          f.context.disableGraph || graphBs == Some([])))
  }

  // What a build leaves behind.
  function Built(f: Fields, counts: Counts, graphBs: Option<seq<nat>>, fault: Fault): Fields {
    if fault.RebuildBefore? then Overridden(f, counts, graphBs)
    else f.(chain := if fault.RebuildAfter? then counts else f.draft.counts)
  }

  // --- The worker ----------------------------------------------------------------

  class Worker {
    var counts: Counts
    var draft: Draft
    var runner: Runner
    var chain: Counts
    var target: Target
    var context: Context

    ghost function Contents(): Fields
      reads this
    {
      Fields(counts, draft, runner, chain, target, context)
    }

    constructor (f: Fields)
      ensures Contents() == f
    {
      counts, draft, runner, chain, target, context := f.counts, f.draft, f.runner, f.chain, f.target, f.context;
    }

    // `_rebuild_topk1_chain_buffers`: the buffers follow the draft worker's counts.
    method RebuildChain(raises: bool) returns (raised: bool)
      modifies this`chain
      ensures raised == raises && chain == if raises then old(chain) else draft.counts
    {
      if !raises { chain := draft.counts; }
      raised := raises;
    }

    method ApplyRuntimeState(s: RuntimeState, raises: bool) returns (raised: bool)
      modifies this
      ensures Contents() == Applied(old(Contents()), s, raises)
      ensures raised <==> raises && old(counts.steps) != s.steps
    {
      if counts.steps == s.steps { return false; }
      counts := Counts(s.steps, s.tokens);
      draft := draft.(counts := Counts(s.steps, s.tokens));
      draft := draft.(backend := s.draftBackend);
      runner := runner.(draftBackend := s.draftBackend);
      draft := draft.(graph := s.draftGraph, extendBackend := s.extendBackend);
      if s.extendBackend.Some? { runner := runner.(backend := s.extendBackend.value); }
      draft := draft.(extendGraph := s.extendGraph);
      raised := RebuildChain(raises);
      if raised { return; }
      target := Target(s.targetBackend, s.targetGraph);
      context := context.(counts := Counts(s.steps, s.tokens));
    }

    // The guarded region: new backends and graphs, created on the overridden worker.
    method BuildInside(parts: RuntimeState, fault: Fault) returns (r: Option<RuntimeState>)
      modifies this`draft, this`runner
      ensures r.None? <==> fault in {DraftBackend, ExtendBackend, CaptureGraphs, TargetBackend}
      ensures r.Some? ==> r.value == parts.(steps := counts.steps, tokens := counts.tokens)
    {
      draft := draft.(extendBackend := None);
      if fault.DraftBackend? { return None; }
      draft := draft.(backend := parts.draftBackend);
      if fault.ExtendBackend? { return None; }
      draft := draft.(extendBackend := parts.extendBackend);
      runner := runner.(draftBackend := draft.backend);
      if draft.extendBackend.Some? { runner := runner.(backend := draft.extendBackend.value); }
      draft := draft.(graph := None, extendGraph := None);
      if fault.CaptureGraphs? { return None; }
      draft := draft.(graph := parts.draftGraph, extendGraph := parts.extendGraph);
      if fault.TargetBackend? { return None; }
      return Some(RuntimeState(counts.steps, counts.tokens, draft.backend, draft.graph,
                               parts.targetBackend, parts.targetGraph, draft.extendBackend, draft.extendGraph));
    }

    // `build_adaptive_runtime_state` inside `_override_worker_state`
    method Build(wanted: Counts, captureBs: Option<seq<nat>>, parts: RuntimeState, fault: Fault)
      returns (r: Option<RuntimeState>)
      modifies this
      ensures Contents() == Built(old(Contents()), wanted, captureBs, fault)
      ensures r.Some? <==> fault.NoFault?
      ensures r.Some? ==> r.value == parts.(steps := wanted.steps, tokens := wanted.tokens)
    {
      var (counts0, draft0, runner0, context0) := (counts, draft, runner, context);
      counts := wanted;
      draft := draft.(counts := wanted);
      context := context.(counts := wanted);
      if captureBs.Some? {
        context := context.(graphBs := captureBs.value);
        if captureBs.value == [] { context := context.(disableGraph := true); }
      }
      var raised := RebuildChain(fault.RebuildBefore?);
      if raised { return None; }
      r := BuildInside(parts, fault);
      counts, draft, runner, context := counts0, draft0, runner0, context0;
      raised := RebuildChain(fault.RebuildAfter?);
      if raised { return None; }
    }
  }

  // --- Builds put everything back ---------------------------------------------------

  // A build leaves every field of a coherent worker as it was, whatever stage of
  // its guarded region raised. Outside of it: a fault on the way in leaves the
  // override in place, a fault on the way out leaves foreign chain buffers.
  lemma BuildRestores(f: Fields, s: RuntimeState, base: nat, counts: Counts, graphBs: Option<seq<nat>>, fault: Fault)
    requires Coherent(f, s, base)
    ensures Built(f, counts, graphBs, fault) == f
            <==> match fault
                 case RebuildBefore =>
                   counts == f.counts
                   && (graphBs.Some? ==> graphBs.value == f.context.graphBs)
                   && (graphBs == Some([]) ==> f.context.disableGraph)
                 case RebuildAfter => counts == f.counts
                 case _ => true
  {
  }

  // --- Switching keeps the fields together --------------------------------------------

  predicate DistinctSteps(states: seq<RuntimeState>) {
    forall i, j | 0 <= i < j < |states| :: states[i].steps != states[j].steps
  }

  // Applying another state moves every field to it, except that a state without a
  // draft-extend backend inherits the runner's: it is right exactly when that is
  // the initial one.
  lemma ApplySwitches(f: Fields, was: RuntimeState, s: RuntimeState, base: nat)
    requires Coherent(f, was, base) && was.steps != s.steps
    ensures Coherent(Applied(f, s, false), s, base) <==> s.extendBackend.Some? || f.runner.backend == base
  {
  }

  // If rebuilding the chain buffers raises, the worker names the new state but the
  // target still runs the old one, and applying the state again changes nothing.
  lemma FailedApplySticks(f: Fields, was: RuntimeState, s: RuntimeState, base: nat)
    requires Coherent(f, was, base) && was.steps != s.steps
    ensures var g := Applied(f, s, true);
      && g.counts.steps == s.steps && g.target.backend == was.targetBackend && g.context.counts.steps == was.steps
      && !Coherent(g, s, base) && Applied(g, s, false) == g
  {
  }

  datatype Event = Apply(index: nat) | Construct(counts: Counts, graphBs: Option<seq<nat>>, fault: Fault)

  // What the controller may do: apply a registered state, or build one, with any
  // fault inside the guarded region.
  predicate Allowed(states: seq<RuntimeState>, e: Event) {
    match e
    case Apply(i) => i < |states|
    case Construct(_, _, fault) => !fault.RebuildBefore? && !fault.RebuildAfter?
  }

  function After(states: seq<RuntimeState>, f: Fields, e: Event): Fields
    requires Allowed(states, e)
  {
    match e
    case Apply(i) => Applied(f, states[i], false)
    case Construct(counts, graphBs, fault) => Built(f, counts, graphBs, fault)
  }

  predicate AllAllowed(states: seq<RuntimeState>, events: seq<Event>) {
    forall i | 0 <= i < |events| :: Allowed(states, events[i])
  }

  function Run(states: seq<RuntimeState>, f: Fields, events: seq<Event>): Fields
    requires AllAllowed(states, events)
    decreases |events|
  {
    if events == [] then f else Run(states, After(states, f, events[0]), events[1..])
  }

  // A state that brings a draft-extend backend leaves the runner on the initial
  // one if some other state counts on finding that.
  predicate Compatible(states: seq<RuntimeState>, base: nat) {
    forall i, j | 0 <= i < |states| && 0 <= j < |states|
                  && states[i].extendBackend.Some? && states[j].extendBackend.None? ::
      states[i].extendBackend.value == base
  }

  // All fields belong to one registered state.
  ghost predicate Together(states: seq<RuntimeState>, f: Fields, base: nat) {
    exists n: nat :: n < |states| && Coherent(f, states[n], base)
  }

  ghost predicate StaysTogether(states: seq<RuntimeState>, f: Fields, base: nat) {
    forall events | AllAllowed(states, events) :: Together(states, Run(states, f, events), base)
  }

  // After any sequence of builds and switches all fields belong to one registered
  // state, and it is the one that the current step count names.
  lemma {:induction false} RunStaysCoherent(states: seq<RuntimeState>, f: Fields, base: nat, k: nat,
                                            events: seq<Event>)
    returns (n: nat)
    requires DistinctSteps(states) && Compatible(states, base) && k < |states| && Coherent(f, states[k], base)
    requires AllAllowed(states, events)
    ensures n < |states| && Coherent(Run(states, f, events), states[n], base)
    ensures forall m | 0 <= m < |states| && states[m].steps == Run(states, f, events).counts.steps :: m == n
    decreases |events|
  {
    if events == [] {
      n := k;
    } else {
      var g := After(states, f, events[0]);
      var next := k;
      match events[0] {
        case Apply(i) =>
          if states[i].steps != f.counts.steps {
            next := i;
            ApplySwitches(f, states[k], states[i], base);
          }
        case Construct(counts, graphBs, fault) => BuildRestores(f, states[k], base, counts, graphBs, fault);
      }
      n := RunStaysCoherent(states, g, base, next, events[1..]);
    }
  }

  // No switch and no build changes for good which batch sizes have graphs, or whether
  // graphs are used.
  lemma {:induction false} RunKeepsGraphSettings(states: seq<RuntimeState>, f: Fields, events: seq<Event>)
    requires AllAllowed(states, events)
    ensures Run(states, f, events).context.graphBs == f.context.graphBs
    ensures Run(states, f, events).context.disableGraph == f.context.disableGraph
    decreases |events|
  {
    if events != [] {
      RunKeepsGraphSettings(states, After(states, f, events[0]), events[1..]);
    }
  }

  // An incompatible pair is applied one after the other: the runner keeps the
  // backend of the first.
  lemma IncompatiblePairParts(states: seq<RuntimeState>, f: Fields, base: nat, k: nat, i: nat, j: nat)
    requires DistinctSteps(states) && k < |states| && Coherent(f, states[k], base)
    requires i < |states| && j < |states| && states[i].extendBackend.Some? && states[j].extendBackend.None?
    requires states[i].extendBackend.value != base
    ensures AllAllowed(states, [Apply(i), Apply(j)]) && !Together(states, Run(states, f, [Apply(i), Apply(j)]), base)
  {
    var events := [Apply(i), Apply(j)];
    var g := Applied(f, states[i], false);
    assert Run(states, f, events) == Applied(g, states[j], false) by {
      assert events[1..] == [Apply(j)];
      assert Run(states, g, [Apply(j)]) == Applied(g, states[j], false);
    }
  }

  // Whatever coherent worker a run starts from, the fields stay together in every
  // run exactly when the registered states are compatible.
  lemma RunsStayCoherentExactly(states: seq<RuntimeState>, f: Fields, base: nat, k: nat)
    requires DistinctSteps(states) && k < |states| && Coherent(f, states[k], base)
    ensures StaysTogether(states, f, base) <==> Compatible(states, base)
  {
    if Compatible(states, base) {
      forall events | AllAllowed(states, events) ensures Together(states, Run(states, f, events), base) {
        var n := RunStaysCoherent(states, f, base, k, events);
      }
    } else {
      var i: nat, j: nat :| i < |states| && j < |states| && states[i].extendBackend.Some?
                            && states[j].extendBackend.None? && states[i].extendBackend.value != base;
      IncompatiblePairParts(states, f, base, k, i, j);
    }
  }

  // --- Inputs ------------------------------------------------------------------------

  // A worker on which a state has been applied and nothing has failed.
  function On(s: RuntimeState, base: nat): (f: Fields)
    ensures Coherent(f, s, base)
  {
    var counts := Counts(s.steps, s.tokens);
    Fields(counts, Draft(counts, s.draftBackend, s.extendBackend, s.draftGraph, s.extendGraph),
           Runner(s.draftBackend, if s.extendBackend.Some? then s.extendBackend.value else base), counts,
           Target(s.targetBackend, s.targetGraph), Context(counts, [1, 2, 4], false))
  }

  const ONE := RuntimeState(1, 2, 10, None, 11, Some(12), Some(13), None)
  const THREE := RuntimeState(3, 4, 30, Some(31), 32, Some(33), Some(34), Some(35))

  // Running out of memory for the chain buffers of a one-step state, while the
  // worker runs three steps: nothing is put back, and the fields belong to neither.
  lemma FailedBuildTearsFields()
    ensures !Together([ONE, THREE], Built(On(THREE, 5), Counts(1, 2), None, RebuildBefore), 5)
  {
  }

  // The same while switching to it, and the second attempt does nothing.
  lemma FailedSwitchTearsFields()
    ensures var g := Applied(On(THREE, 5), ONE, true);
      Applied(g, ONE, false) == g && !Together([ONE, THREE], g, 5)
  {
  }

  const MIXED := [THREE, ONE.(extendBackend := None)]

  // States that do and do not bring a draft-extend backend may be mixed when the
  // one that is brought is the initial one; otherwise switching from one to the
  // other tears the fields.
  lemma MixedStates(base: nat)
    requires base != 34
    ensures StaysTogether(MIXED, On(THREE, 34), 34)
    ensures AllAllowed(MIXED, [Apply(0), Apply(1)])
    ensures !Together(MIXED, Run(MIXED, On(THREE, base), [Apply(0), Apply(1)]), base)
  {
    assert MIXED[0] == THREE && MIXED[1] == ONE.(extendBackend := None);
    RunsStayCoherentExactly(MIXED, On(THREE, 34), 34, 0);
    IncompatiblePairParts(MIXED, On(THREE, base), base, 0, 0, 1);
  }
}
