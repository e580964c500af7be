/** Theorems about uncancelled runs of the scheduler loop: outcome, progress, termination, final states. */
module Schedule {
  import opened Values
  import opened States
  import opened CycleDetection
  import opened Graph
  import opened Binding
  import opened Machine
  import opened Safety
  import opened Evaluator

  /** A step of the loop itself whose tool outcome and repair are the ones the environment gives. */
  ghost predicate LoopStep(cfg: Config, env: Env, s: Sys, step: Step)
    requires Enabled(cfg, s, step)
  {
    match step
    case Block => true
    case Dispatch(_) => true
    case Finish(id, outcome, fix) =>
      && outcome == env.tool(id, s.nodes[id], Upstream(cfg.specs[id], s.nodes))
      && fix == FixFor(env, cfg.specs[id], cfg.repairers, id, s.nodes[id], outcome)
    case _ => false
  }

  ghost predicate LoopRun(cfg: Config, env: Env, s: Sys, steps: seq<Step>)
    requires Runs(cfg, s, steps)
    decreases |steps|
  {
    steps == [] || (LoopStep(cfg, env, s, steps[0]) && LoopRun(cfg, env, Apply(cfg, s, steps[0]), steps[1..]))
  }

  lemma {:induction false} ExtendRun(cfg: Config, env: Env, s: Sys, steps: seq<Step>, step: Step)
    requires Runs(cfg, s, steps) && LoopRun(cfg, env, s, steps)
    requires Enabled(cfg, Exec(cfg, s, steps), step) && LoopStep(cfg, env, Exec(cfg, s, steps), step)
    ensures Runs(cfg, s, steps + [step]) && LoopRun(cfg, env, s, steps + [step])
    ensures Exec(cfg, s, steps + [step]) == Apply(cfg, Exec(cfg, s, steps), step)
    decreases |steps|
  {
    if steps == [] {
      assert [step][1..] == [];
    } else {
      assert (steps + [step])[0] == steps[0] && (steps + [step])[1..] == steps[1..] + [step];
      ExtendRun(cfg, env, Apply(cfg, s, steps[0]), steps[1..], step);
    }
  }

  /** Loop entry after `create`, `resume` or a retry: nothing is in flight. */
  ghost predicate AtEntry(cfg: Config, s: Sys) {
    Inv(cfg, s) && s.live && s.flying == {}
  }

  lemma EntryTracks(cfg: Config, job: Job, s: Sys, final: Nodes)
    requires AtEntry(cfg, s) && job.specs == cfg.specs && Solves(job, s.nodes, final)
    ensures Tracks(job, s.nodes, final, s.nodes)
  {
    forall id | id in job.specs
      ensures OnTheWay(job, s.nodes, final, id, s.nodes[id])
    {
      assert s.nodes[id].state == Running ==> id in RunningIds(s.nodes);
      assert final[id] == EvalNode(job, s.nodes, id, final);
    }
  }

  lemma UpdateTracks(job: Job, start: Nodes, final: Nodes, nodes: Nodes, id: Id, n: Node)
    requires Tracks(job, start, final, nodes) && id in job.specs && OnTheWay(job, start, final, id, n)
    ensures Tracks(job, start, final, nodes[id := n])
  {
  }

  lemma StepTracks(cfg: Config, env: Env, start: Nodes, final: Nodes, s: Sys, step: Step)
    requires SpecsOk(cfg) && WellBound(cfg) && Inv(cfg, s) && Enabled(cfg, s, step) && LoopStep(cfg, env, s, step)
    requires Solves(JobOf(cfg, env), start, final) && Tracks(JobOf(cfg, env), start, final, s.nodes)
    ensures Tracks(JobOf(cfg, env), start, final, Apply(cfg, s, step).nodes)
  {
    var job := JobOf(cfg, env);
    if step.Block? {
      BlockPassTracks(cfg, job, start, final, s.nodes, |cfg.listing|);
    } else if step.Dispatch? {
      DispatchTracks(cfg, env, start, final, s, step.id);
    } else {
      FinishStepTracks(cfg, env, start, final, s, step.id, step.outcome, step.fix);
    }
  }

  lemma DispatchTracks(cfg: Config, env: Env, start: Nodes, final: Nodes, s: Sys, id: Id)
    requires SpecsOk(cfg) && WellBound(cfg) && Enabled(cfg, s, Dispatch(id))
    requires Solves(JobOf(cfg, env), start, final) && Tracks(JobOf(cfg, env), start, final, s.nodes)
    ensures Tracks(JobOf(cfg, env), start, final, Apply(cfg, s, Dispatch(id)).nodes)
  {
    var job := JobOf(cfg, env);
    assert SpecOk(cfg, id);
    LaunchTracks(job, start, final, s.nodes, id);
    UpdateTracks(job, start, final, s.nodes, id, StartNode(cfg, s.nodes, id).value);
  }

  lemma FinishStepTracks(cfg: Config, env: Env, start: Nodes, final: Nodes, s: Sys, id: Id, outcome: Outcome, fix: Fix)
    requires SpecsOk(cfg) && Inv(cfg, s) && Enabled(cfg, s, Finish(id, outcome, fix))
    requires LoopStep(cfg, env, s, Finish(id, outcome, fix)) && Tracks(JobOf(cfg, env), start, final, s.nodes)
    ensures Tracks(JobOf(cfg, env), start, final, Apply(cfg, s, Finish(id, outcome, fix)).nodes)
  {
    var job := JobOf(cfg, env);
    FlyingIsRunning(cfg, s, id);
    FinishApplies(cfg, s, id, outcome, fix);
    assert SpecOk(cfg, id) && DepsSucceeded(cfg.specs[id], s.nodes);
    FinishTracks(job, start, final, s.nodes, id);
    UpdateTracks(job, start, final, s.nodes, id, RunTool(job, id, s.nodes[id], Upstream(cfg.specs[id], s.nodes)));
  }

  lemma {:induction false} RunTracks(cfg: Config, env: Env, start: Nodes, final: Nodes, s: Sys, steps: seq<Step>)
    requires SpecsOk(cfg) && WellBound(cfg) && Inv(cfg, s) && s.live
    requires Runs(cfg, s, steps) && LoopRun(cfg, env, s, steps)
    requires Solves(JobOf(cfg, env), start, final) && Tracks(JobOf(cfg, env), start, final, s.nodes)
    ensures Tracks(JobOf(cfg, env), start, final, Exec(cfg, s, steps).nodes)
    ensures Inv(cfg, Exec(cfg, s, steps)) && Exec(cfg, s, steps).live
    decreases |steps|
  {
    if steps != [] {
      StepTracks(cfg, env, start, final, s, steps[0]);
      StepKeeps(cfg, s, steps[0]);
      LoopStaysLive(cfg, env, s, steps[0]);
      RunTracks(cfg, env, start, final, Apply(cfg, s, steps[0]), steps[1..]);
    }
  }

  lemma LoopStaysLive(cfg: Config, env: Env, s: Sys, step: Step)
    requires Enabled(cfg, s, step) && LoopStep(cfg, env, s, step)
    ensures Apply(cfg, s, step).live
  {
  }

  // What is left of a loop run after its first step.
  lemma LoopTail(cfg: Config, env: Env, s: Sys, steps: seq<Step>)
    requires SpecsOk(cfg) && Inv(cfg, s) && s.live && Runs(cfg, s, steps) && LoopRun(cfg, env, s, steps) && steps != []
    ensures Enabled(cfg, s, steps[0]) && LoopStep(cfg, env, s, steps[0])
    ensures var after := Apply(cfg, s, steps[0]);
            Inv(cfg, after) && after.live && Runs(cfg, after, steps[1..]) && LoopRun(cfg, env, after, steps[1..])
  {
    StepKeeps(cfg, s, steps[0]);
    LoopStaysLive(cfg, env, s, steps[0]);
  }

  /** The sequential evaluator on a job, from the records at loop entry. */
  function Evaluate(job: Job, start: Nodes, order: seq<Id>): Nodes
    requires forall id | id in order :: id in job.specs && id in start
  {
    EvalAlong(job, start, order, |order|)
  }

  /**
   * Schedule independence. From any loop entry, whatever the interleaving of completions, the concurrency limit
   * and the template order, once all nodes are terminal they are what the sequential evaluator computes along
   * any topological order: states, outputs, parameters, attempt and repair counts.
   */
  lemma ScheduleIndependence(cfg: Config, env: Env, s: Sys, steps: seq<Step>, order: seq<Id>)
    requires SpecsOk(cfg) && WellBound(cfg) && Ordered(cfg, order)
    requires AtEntry(cfg, s) && Runs(cfg, s, steps) && LoopRun(cfg, env, s, steps)
    requires AllTerminal(Exec(cfg, s, steps).nodes)
    ensures Exec(cfg, s, steps).nodes == Evaluate(JobOf(cfg, env), s.nodes, order)
  {
    var job := JobOf(cfg, env);
    EvalSolves(cfg, job, s.nodes, order);
    var final := Evaluate(job, s.nodes, order);
    EntryTracks(cfg, job, s, final);
    RunTracks(cfg, env, s.nodes, final, s, steps);
    TerminalIsFinal(job, s.nodes, final, Exec(cfg, s, steps).nodes);
  }

  // Two schedulers that differ in concurrency and template order, and in the interleavings they happened on.
  lemma AnyTwoSchedulesAgree(a: Config, b: Config, env: Env, s: Sys, stepsA: seq<Step>, stepsB: seq<Step>,
                             order: seq<Id>)
    requires SpecsOk(a) && WellBound(a) && Ordered(a, order)
    requires b.specs == a.specs && b.inputs == a.inputs && b.repairers == a.repairers
    requires AtEntry(a, s) && AtEntry(b, s)
    requires Runs(a, s, stepsA) && LoopRun(a, env, s, stepsA) && AllTerminal(Exec(a, s, stepsA).nodes)
    requires Runs(b, s, stepsB) && LoopRun(b, env, s, stepsB) && AllTerminal(Exec(b, s, stepsB).nodes)
    ensures Exec(a, s, stepsA).nodes == Exec(b, s, stepsB).nodes
  {
    assert SpecsOk(b) by { forall id | id in b.specs ensures SpecOk(b, id) { assert SpecOk(a, id); } }
    ScheduleIndependence(a, env, s, stepsA, order);
    ScheduleIndependence(b, env, s, stepsB, order);
  }

  // ------------------------------------------------------------------------------------ termination

  function TotalWeight(cfg: Config, nodes: Nodes, k: nat): nat
    requires k <= |cfg.listing|
  {
    if k == 0 then 0
    else
      var id := cfg.listing[k - 1];
      TotalWeight(cfg, nodes, k - 1) + if id in cfg.specs && id in nodes then Weight(cfg.specs[id], nodes[id]) else 0
  }

  /** The termination measure of the loop. */
  function Measure(cfg: Config, nodes: Nodes): nat { TotalWeight(cfg, nodes, |cfg.listing|) }

  ghost predicate Lighter(cfg: Config, a: Nodes, b: Nodes) {
    && a.Keys == b.Keys
    && forall id | id in cfg.specs && id in a :: Weight(cfg.specs[id], b[id]) <= Weight(cfg.specs[id], a[id])
  }

  lemma {:induction false} LighterTotal(cfg: Config, a: Nodes, b: Nodes, k: nat, id: Id)
    requires k <= |cfg.listing| && Lighter(cfg, a, b)
    ensures TotalWeight(cfg, b, k) <= TotalWeight(cfg, a, k)
    ensures id in cfg.listing[..k] && id in cfg.specs && id in a
            && Weight(cfg.specs[id], b[id]) < Weight(cfg.specs[id], a[id]) ==>
              TotalWeight(cfg, b, k) < TotalWeight(cfg, a, k)
  {
    if k > 0 {
      LighterTotal(cfg, a, b, k - 1, id);
      assert cfg.listing[..k] == cfg.listing[..k - 1] + [cfg.listing[k - 1]];
    }
  }

  lemma MeasureFalls(cfg: Config, a: Nodes, b: Nodes, id: Id)
    requires Lighter(cfg, a, b) && id in cfg.listing && id in cfg.specs && id in a
    requires Weight(cfg.specs[id], b[id]) < Weight(cfg.specs[id], a[id])
    ensures Measure(cfg, b) < Measure(cfg, a)
  {
    assert cfg.listing[..|cfg.listing|] == cfg.listing;
    LighterTotal(cfg, a, b, |cfg.listing|, id);
  }

  lemma BlockLightens(cfg: Config, nodes: Nodes)
    ensures Lighter(cfg, nodes, BlockPass(cfg, nodes)) && Measure(cfg, BlockPass(cfg, nodes)) <= Measure(cfg, nodes)
  {
    BlockFrame(cfg, nodes, |cfg.listing|);
    LighterTotal(cfg, nodes, BlockPass(cfg, nodes), |cfg.listing|, "");
  }

  lemma DispatchLightens(cfg: Config, nodes: Nodes, id: Id)
    requires WellFormed(cfg) && IsReady(cfg, nodes, id) && StartNode(cfg, nodes, id).Some?
    ensures Measure(cfg, nodes[id := StartNode(cfg, nodes, id).value]) < Measure(cfg, nodes)
  {
    MeasureFalls(cfg, nodes, nodes[id := StartNode(cfg, nodes, id).value], id);
  }

  lemma FinishMeasure(cfg: Config, nodes: Nodes, id: Id, outcome: Outcome, fix: Fix)
    requires WellFormed(cfg) && id in cfg.specs && id in nodes && nodes[id].state == Running
    ensures Measure(cfg, nodes[id := FinishNode(cfg.specs[id], cfg.repairers, nodes[id], outcome, fix)]) < Measure(cfg,
              nodes)
  {
    FinishLightens(cfg.specs[id], cfg.repairers, nodes[id], outcome, fix);
    MeasureFalls(cfg, nodes, nodes[id := FinishNode(cfg.specs[id], cfg.repairers, nodes[id], outcome, fix)], id);
  }

  // In topological order, the first node that is not terminal has only terminal dependencies.
  lemma {:induction false} FirstOpenNode(cfg: Config, nodes: Nodes, order: seq<Id>, k: nat) returns (id: Id)
    requires Ordered(cfg, order) && nodes.Keys == cfg.specs.Keys
    requires k < |order| && !IsTerminal(nodes[order[k]].state)
    ensures id in cfg.specs && !IsTerminal(nodes[id].state)
    ensures forall d | d in cfg.specs[id].dependsOn :: d in nodes && IsTerminal(nodes[d].state)
  {
    if j :| 0 <= j < k && !IsTerminal(nodes[order[j]].state) {
      id := FirstOpenNode(cfg, nodes, order, j);
    } else {
      id := order[k];
      forall d | d in cfg.specs[id].dependsOn
        ensures d in nodes && IsTerminal(nodes[d].state)
      {
        assert d in order[..k];
      }
    }
  }

  // No reachable state is stuck: with no future and no ready node, some node is about to be blocked.
  lemma IdleHasBlockable(cfg: Config, nodes: Nodes, order: seq<Id>) returns (id: Id)
    requires Ordered(cfg, order) && MemoryOk(cfg, nodes, {}) && !AnyReady(cfg, nodes) && !AllTerminal(nodes)
    ensures id in cfg.specs && nodes[id].state == Pending && HasDeadDep(cfg.specs[id], nodes)
  {
    var open :| open in nodes && !IsTerminal(nodes[open].state);
    var k: nat :| k < |order| && order[k] == open;
    id := FirstOpenNode(cfg, nodes, order, k);
    assert id !in RunningIds(nodes);
    assert !IsReady(cfg, nodes, id);
    assert !DepsSucceeded(cfg.specs[id], nodes);
    var d :| d in cfg.specs[id].dependsOn && StateOf(nodes, d) != Succeeded;
    assert IsDead(StateOf(nodes, d));
  }

  // A pass blocks every Pending node that already has a dead dependency.
  lemma {:induction false} PassBlocks(cfg: Config, nodes: Nodes, k: nat, id: Id)
    requires k <= |cfg.listing| && id in cfg.listing[..k] && id in cfg.specs && id in nodes
    requires nodes[id].state == Pending && HasDeadDep(cfg.specs[id], nodes)
    ensures BlockPrefix(cfg, nodes, k).Keys == nodes.Keys && BlockPrefix(cfg, nodes, k)[id].state == Blocked
  {
    BlockFrame(cfg, nodes, k - 1);
    BlockFrame(cfg, nodes, k);
    if id != cfg.listing[k - 1] {
      assert cfg.listing[..k] == cfg.listing[..k - 1] + [cfg.listing[k - 1]];
      PassBlocks(cfg, nodes, k - 1, id);
    } else {
      var before := BlockPrefix(cfg, nodes, k - 1);
      var d :| d in cfg.specs[id].dependsOn && IsDead(StateOf(nodes, d));
      assert IsDead(StateOf(before, d));
    }
  }

  /** Progress: an idle loop that is not done makes its measure fall with the next pass. */
  lemma IdleProgress(cfg: Config, nodes: Nodes, order: seq<Id>)
    requires WellFormed(cfg) && Ordered(cfg, order) && MemoryOk(cfg, nodes, {}) && Idle(cfg, nodes)
    ensures Measure(cfg, BlockPass(cfg, nodes)) < Measure(cfg, nodes)
  {
    var id := IdleHasBlockable(cfg, nodes, order);
    BlockableLightens(cfg, nodes, id);
  }

  lemma BlockableLightens(cfg: Config, nodes: Nodes, id: Id)
    requires id in cfg.listing && id in cfg.specs && id in nodes
    requires nodes[id].state == Pending && HasDeadDep(cfg.specs[id], nodes)
    ensures Measure(cfg, BlockPass(cfg, nodes)) < Measure(cfg, nodes)
  {
    assert cfg.listing[..|cfg.listing|] == cfg.listing;
    PassBlocks(cfg, nodes, |cfg.listing|, id);
    BlockLightens(cfg, nodes);
    MeasureFalls(cfg, nodes, BlockPass(cfg, nodes), id);
  }

  lemma {:induction false} NoWeight(cfg: Config, nodes: Nodes, k: nat)
    requires k <= |cfg.listing| && AllTerminal(nodes)
    ensures TotalWeight(cfg, nodes, k) == 0
  {
    if k > 0 { NoWeight(cfg, nodes, k - 1); }
  }

  /** Nothing is ready although some node is still open: the next pass has something to block. */
  ghost predicate Idle(cfg: Config, nodes: Nodes) {
    !AnyReady(cfg, nodes) && !AllTerminal(nodes)
  }

  function WorkSteps(steps: seq<Step>): nat {
    if steps == [] then 0 else (if steps[0].Block? then 0 else 1) + WorkSteps(steps[1..])
  }

  /** Every loop run makes only finitely many dispatches and completions: at most the measure of its start. */
  lemma {:induction false} BoundedWork(cfg: Config, env: Env, s: Sys, steps: seq<Step>)
    requires WellFormed(cfg) && Inv(cfg, s) && s.live && Runs(cfg, s, steps) && LoopRun(cfg, env, s, steps)
    ensures WorkSteps(steps) + Measure(cfg, Exec(cfg, s, steps).nodes) <= Measure(cfg, s.nodes)
    decreases |steps|
  {
    if steps != [] {
      StepKeeps(cfg, s, steps[0]);
      LoopStaysLive(cfg, env, s, steps[0]);
      StepMeasure(cfg, env, s, steps[0]);
      BoundedWork(cfg, env, Apply(cfg, s, steps[0]), steps[1..]);
    }
  }

  lemma StepMeasure(cfg: Config, env: Env, s: Sys, step: Step)
    requires WellFormed(cfg) && Inv(cfg, s) && Enabled(cfg, s, step) && LoopStep(cfg, env, s, step)
    ensures Measure(cfg, Apply(cfg, s, step).nodes) + (if step.Block? then 0 else 1) <= Measure(cfg, s.nodes)
  {
    if step.Block? {
      BlockLightens(cfg, s.nodes);
    } else if step.Dispatch? {
      DispatchLightens(cfg, s.nodes, step.id);
    } else {
      FlyingIsRunning(cfg, s, step.id);
      FinishApplies(cfg, s, step.id, step.outcome, step.fix);
      FinishMeasure(cfg, s.nodes, step.id, step.outcome, step.fix);
    }
  }

  /** A loop run with its intermediate states, as the imperative loop builds it up. */
  datatype Trace = Entered(s: Sys) | Then(before: Trace, step: Step, s: Sys)

  /** A trace starts at a loop entry of a well-formed configuration, and each state leads to the next. */
  ghost predicate Traced(cfg: Config, env: Env, t: Trace)
    decreases t, 1
  {
    TracedLast(cfg, env, t)
  }

  ghost predicate TracedLast(cfg: Config, env: Env, t: Trace)
    decreases t, 0
  {
    match t
    case Entered(s) => WellFormed(cfg) && AtEntry(cfg, s)
    case Then(before, step, s) => Traced(cfg, env, before) && Leads(cfg, env, before.s, step, s)
  }

  ghost predicate Leads(cfg: Config, env: Env, s: Sys, step: Step, after: Sys) {
    Enabled(cfg, s, step) && LoopStep(cfg, env, s, step) && after == Apply(cfg, s, step)
  }

  function EntryOf(t: Trace): Sys { if t.Entered? then t.s else EntryOf(t.before) }

  function StepsOf(t: Trace): seq<Step> { if t.Entered? then [] else StepsOf(t.before) + [t.step] }

  /** A trace is a loop run of the machine, from its entry to its last state. */
  lemma {:induction false} TraceRuns(cfg: Config, env: Env, t: Trace)
    requires Traced(cfg, env, t)
    ensures WellFormed(cfg) && AtEntry(cfg, EntryOf(t))
    ensures Runs(cfg, EntryOf(t), StepsOf(t)) && LoopRun(cfg, env, EntryOf(t), StepsOf(t))
    ensures Exec(cfg, EntryOf(t), StepsOf(t)) == t.s
    decreases t
  {
    assert TracedLast(cfg, env, t);
    if t.Then? {
      TraceRuns(cfg, env, t.before);
      ExtendRun(cfg, env, EntryOf(t), StepsOf(t.before), t.step);
    }
  }

  lemma TraceFormed(cfg: Config, env: Env, t: Trace)
    requires Traced(cfg, env, t)
    ensures WellFormed(cfg)
  {
    TraceRuns(cfg, env, t);
  }

  lemma TraceKeeps(cfg: Config, env: Env, t: Trace)
    requires Traced(cfg, env, t)
    ensures WellFormed(cfg) && Inv(cfg, t.s) && t.s.live
  {
    TraceRuns(cfg, env, t);
    LoopRunKeeps(cfg, env, EntryOf(t), StepsOf(t));
  }

  lemma {:induction false} LoopRunKeeps(cfg: Config, env: Env, s: Sys, steps: seq<Step>)
    requires SpecsOk(cfg) && Inv(cfg, s) && s.live && Runs(cfg, s, steps) && LoopRun(cfg, env, s, steps)
    ensures Inv(cfg, Exec(cfg, s, steps)) && Exec(cfg, s, steps).live
    decreases |steps|
  {
    if steps != [] {
      StepKeeps(cfg, s, steps[0]);
      LoopStaysLive(cfg, env, s, steps[0]);
      LoopRunKeeps(cfg, env, Apply(cfg, s, steps[0]), steps[1..]);
    }
  }

  /** One more step of a loop run: still a loop run, measure no higher, and lower if work was done. */
  lemma Advance(cfg: Config, env: Env, t: Trace, step: Step)
    requires Traced(cfg, env, t) && Enabled(cfg, t.s, step) && LoopStep(cfg, env, t.s, step)
    ensures Traced(cfg, env, Then(t, step, Apply(cfg, t.s, step)))
    ensures EntryOf(Then(t, step, Apply(cfg, t.s, step))) == EntryOf(t)
    ensures Measure(cfg, Apply(cfg, t.s, step).nodes) + (if step.Block? then 0 else 1) <= Measure(cfg, t.s.nodes)
  {
    assert TracedLast(cfg, env, Then(t, step, Apply(cfg, t.s, step)));
    TraceKeeps(cfg, env, t);
    StepMeasure(cfg, env, t.s, step);
  }
}
