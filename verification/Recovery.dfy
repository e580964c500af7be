/** Crash recovery, cancellation and retry: what they preserve, and what they do not. */
module Recovery {
  import opened Values
  import opened States
  import opened CycleDetection
  import opened Graph
  import opened Binding
  import opened Machine
  import opened Safety
  import opened Evaluator
  import opened Schedule
  import opened Outcomes
  import opened Blocking

  // ------------------------------------------------------------------------------------ reliable tools

  /** What a tool yields that cannot fail: by its node, its parameters and the upstream outputs. */
  type ReliableTool = (Id, Params, map<Id, Outputs>) -> Outputs

  /** Tools that always succeed, with outputs that depend on the parameters and the upstream outputs only. */
  ghost predicate Reliable(env: Env, good: ReliableTool) {
    forall id, n, upstream :: env.tool(id, n, upstream) == Success(good(id, n.params, upstream))
  }

  lemma SettleReliable(job: Job, good: ReliableTool, upstream: map<Id, Outputs>, id: Id, n: Node)
    requires id in job.specs && Reliable(job.env, good) && n.state == Running
    ensures Settle(job, upstream, id, n) == n.(state := Succeeded, outputs := good(id, n.params, upstream))
  {
    assert job.env.tool(id, n, upstream) == Success(good(id, n.params, upstream));
    var next := RunTool(job, id, n, upstream);
    assert next == n.(state := Succeeded, outputs := good(id, n.params, upstream));
    assert Settle(job, upstream, id, n) == Settle(job, upstream, id, next);
  }

  /** A record whose success, if any, is the one of the uninterrupted run. */
  ghost predicate Matches(final: Nodes, id: Id, n: Node) {
    n.state == Succeeded ==>
      id in final && final[id].state == Succeeded && final[id].outputs == n.outputs && final[id].params == n.params
  }

  ghost predicate RunsRight(job: Job, final: Nodes, id: Id, n: Node)
    requires id in job.specs
  {
    && n.resolved && DepsSucceeded(job.specs[id], final)
    && ResolveParams(job.specs[id].params, job.inputs, final) == Some(n.params)
  }

  ghost predicate NodeAgrees(job: Job, final: Nodes, id: Id, n: Node)
    requires id in job.specs
  {
    match n.state
    case Pending => !n.resolved
    case Running => RunsRight(job, final, id, n)
    case Succeeded => Matches(final, id, n)
    case _ => false
  }

  ghost predicate RowAgrees(final: Nodes, id: Id, n: Node) {
    (n.state == Running || n.state == Succeeded) && Matches(final, id, n)
  }

  ghost predicate Agrees(cfg: Config, job: Job, final: Nodes, s: Sys) {
    && (forall id | id in s.rows :: RowAgrees(final, id, s.rows[id]))
    && (forall id | id in s.nodes && id in cfg.specs :: id in job.specs && NodeAgrees(job, final, id, s.nodes[id]))
  }

  /** The steps of a process that is never cancelled or retried, but may die and be resumed at any boundary. */
  predicate CrashOnly(step: Step) {
    step.Block? || step.Dispatch? || step.Finish? || step.Complete? || step.Crash? || step.Start? || step.Resume?
  }

  ghost predicate CrashRun(cfg: Config, env: Env, s: Sys, steps: seq<Step>)
    requires Runs(cfg, s, steps)
    decreases |steps|
  {
    steps == [] ||
    (&& CrashOnly(steps[0])
     && (steps[0].Finish? ==> LoopStep(cfg, env, s, steps[0]))
     && CrashRun(cfg, env, Apply(cfg, s, steps[0]), steps[1..]))
  }

  // Where dependencies have succeeded they carry the outputs of the uninterrupted run.
  lemma AgreedDeps(job: Job, final: Nodes, nodes: Nodes, id: Id)
    requires id in job.specs && KnownDeps(job, id) && Bound(job) && nodes.Keys == job.specs.Keys
    requires forall d | d in nodes :: NodeAgrees(job, final, d, nodes[d])
    requires DepsSucceeded(job.specs[id], nodes)
    ensures DepsSucceeded(job.specs[id], final)
    ensures Upstream(job.specs[id], nodes) == Upstream(job.specs[id], final)
    ensures ResolveParams(job.specs[id].params, job.inputs, nodes) ==
              ResolveParams(job.specs[id].params, job.inputs, final)
  {
    forall d | d in job.specs[id].dependsOn
      ensures d in nodes && d in final && nodes[d].state == final[d].state && nodes[d].outputs == final[d].outputs
    {
      assert NodeAgrees(job, final, d, nodes[d]);
    }
    ResolveUsesDeclaredDeps(job.specs[id], job.inputs, nodes, final);
  }

  // One record changes, in memory and in the store.
  lemma UpdateAgrees(cfg: Config, job: Job, final: Nodes, s: Sys, id: Id, n: Node, flying: set<Id>)
    requires Agrees(cfg, job, final, s) && id in job.specs
    requires NodeAgrees(job, final, id, n) && RowAgrees(final, id, Row(n))
    ensures Agrees(cfg, job, final, s.(nodes := s.nodes[id := n], flying := flying, rows := s.rows[id := Row(n)]))
  {
  }

  lemma LaunchAgrees(job: Job, final: Nodes, nodes: Nodes, id: Id, n: Node)
    requires id in job.specs && KnownDeps(job, id) && Bound(job) && nodes.Keys == job.specs.Keys
    requires forall d | d in nodes :: NodeAgrees(job, final, d, nodes[d])
    requires Runnable(nodes[id].state) && DepsSucceeded(job.specs[id], nodes)
    requires Launch(job.specs[id], job.inputs, nodes[id], nodes) == Some(n)
    ensures NodeAgrees(job, final, id, n) && RowAgrees(final, id, Row(n))
  {
    AgreedDeps(job, final, nodes, id);
    assert NodeAgrees(job, final, id, nodes[id]);
  }

  lemma DispatchAgrees(cfg: Config, env: Env, final: Nodes, s: Sys, id: Id)
    requires SpecsOk(cfg) && WellBound(cfg) && s.nodes.Keys == cfg.specs.Keys && Enabled(cfg, s, Dispatch(id))
    requires Agrees(cfg, JobOf(cfg, env), final, s)
    ensures Agrees(cfg, JobOf(cfg, env), final, Apply(cfg, s, Dispatch(id)))
  {
    var n := StartNode(cfg, s.nodes, id).value;
    assert SpecOk(cfg, id);
    LaunchAgrees(JobOf(cfg, env), final, s.nodes, id, n);
    UpdateAgrees(cfg, JobOf(cfg, env), final, s, id, n, s.flying + {id});
  }

  lemma SuccessAgrees(cfg: Config, env: Env, good: ReliableTool, final: Nodes, nodes: Nodes, id: Id, n: Node)
    requires SpecsOk(cfg) && WellBound(cfg) && Reliable(env, good) && id in cfg.specs && nodes.Keys == cfg.specs.Keys
    requires Solves(JobOf(cfg, env), Load(cfg, map[]), final)
    requires forall d | d in nodes :: NodeAgrees(JobOf(cfg, env), final, d, nodes[d])
    requires nodes[id].state == Running && DepsSucceeded(cfg.specs[id], nodes)
    requires n == nodes[id].(state := Succeeded, outputs := good(id, nodes[id].params, Upstream(cfg.specs[id], nodes)))
    ensures NodeAgrees(JobOf(cfg, env), final, id, n) && RowAgrees(final, id, Row(n))
  {
    var job := JobOf(cfg, env);
    assert SpecOk(cfg, id);
    AgreedDeps(job, final, nodes, id);
    assert NodeAgrees(job, final, id, nodes[id]);
    ReliableFinal(cfg, env, good, final, id, nodes[id]);
  }

  lemma ReliableOutcome(cfg: Config, env: Env, good: ReliableTool, s: Sys, step: Step)
    requires Enabled(cfg, s, step) && step.Finish? && LoopStep(cfg, env, s, step) && Reliable(env, good)
    ensures step.outcome == Success(good(step.id, s.nodes[step.id].params, Upstream(cfg.specs[step.id], s.nodes)))
  {
  }

  lemma FinishAgrees(cfg: Config, env: Env, good: ReliableTool, final: Nodes, s: Sys, step: Step)
    requires SpecsOk(cfg) && WellBound(cfg) && Inv(cfg, s) && Enabled(cfg, s, step) && step.Finish?
    requires LoopStep(cfg, env, s, step) && Reliable(env, good)
    requires Solves(JobOf(cfg, env), Load(cfg, map[]), final) && Agrees(cfg, JobOf(cfg, env), final, s)
    ensures Agrees(cfg, JobOf(cfg, env), final, Apply(cfg, s, step))
  {
    var id := step.id;
    FlyingIsRunning(cfg, s, id);
    FinishApplies(cfg, s, id, step.outcome, step.fix);
    ReliableOutcome(cfg, env, good, s, step);
    var n := FinishNode(cfg.specs[id], cfg.repairers, s.nodes[id], step.outcome, step.fix);
    SuccessAgrees(cfg, env, good, final, s.nodes, id, n);
    UpdateAgrees(cfg, JobOf(cfg, env), final, s, id, n, s.flying - {id});
  }

  /** What becomes of a fresh record none of whose dependencies is dead. */
  function FreshResult(job: Job, good: ReliableTool, n: Node, final: Nodes, id: Id): Node
    requires id in job.specs
  {
    var params := ResolveParams(job.specs[id].params, job.inputs, final);
    if (forall d | d in job.specs[id].dependsOn :: StateOf(final, d) == Succeeded) && params.Some? then
      var outputs := good(id, params.value, Upstream(job.specs[id], final));
      n.(state := Succeeded, attempt := n.attempt + 1, params := params.value, resolved := true, outputs := outputs)
    else n
  }

  lemma FreshTurn(job: Job, good: ReliableTool, start: Nodes, final: Nodes, id: Id)
    requires Solves(job, start, final) && Reliable(job.env, good) && id in job.specs
    requires start[id].state == Pending && !start[id].resolved && !HasDeadDep(job.specs[id], final)
    ensures final[id] == FreshResult(job, good, start[id], final, id)
  {
    var spec := job.specs[id];
    assert final[id] == EvalNode(job, start, id, final);
    var running := Launch(spec, job.inputs, start[id], final);
    if running.Some? { SettleReliable(job, good, Upstream(spec, final), id, running.value); }
  }

  lemma FreshBindFailure(job: Job, start: Nodes, final: Nodes, id: Id)
    requires id in job.specs && id in start && start[id].state == Pending && !start[id].resolved
    ensures BindFailure(job, start, final, id) <==>
            DepsSucceeded(job.specs[id], final) && ResolveParams(job.specs[id].params, job.inputs, final).None?
  {
  }

  // The uninterrupted run gives a node that runs with the right parameters the outputs of its reliable tool.
  lemma ReliableFinal(cfg: Config, env: Env, good: ReliableTool, final: Nodes, id: Id, n: Node)
    requires Reliable(env, good) && Solves(JobOf(cfg, env), Load(cfg, map[]), final)
    requires id in cfg.specs && RunsRight(JobOf(cfg, env), final, id, n)
    ensures id in final && final[id].state == Succeeded && final[id].params == n.params
    ensures final[id].outputs == good(id, n.params, Upstream(cfg.specs[id], final))
  {
    var job := JobOf(cfg, env);
    assert Load(cfg, map[])[id] == FRESH;
    NoneDead(job.specs[id], final);
    FreshTurn(job, good, Load(cfg, map[]), final, id);
  }

  lemma NoneDead(spec: NodeSpec, nodes: Nodes)
    requires DepsSucceeded(spec, nodes)
    ensures !HasDeadDep(spec, nodes)
  {
  }

  lemma {:induction false} NothingDead(cfg: Config, nodes: Nodes, k: nat)
    requires k <= |cfg.listing| && forall id | id in nodes :: !IsDead(nodes[id].state)
    ensures BlockPrefix(cfg, nodes, k) == nodes
  {
    if k > 0 { NothingDead(cfg, nodes, k - 1); }
  }

  lemma AgreedNotDead(cfg: Config, job: Job, final: Nodes, s: Sys, id: Id)
    requires Agrees(cfg, job, final, s) && id in s.nodes && id in cfg.specs
    ensures !IsDead(s.nodes[id].state)
  {
    assert NodeAgrees(job, final, id, s.nodes[id]);
  }

  lemma RestartAgrees(cfg: Config, job: Job, final: Nodes, s: Sys, step: Step)
    requires job.specs == cfg.specs && Inv(cfg, s) && Enabled(cfg, s, step) && (step == Start || step == Resume)
    requires Agrees(cfg, job, final, s)
    ensures Agrees(cfg, job, final, Apply(cfg, s, step))
  {
    var after := Apply(cfg, s, step).nodes;
    forall id | id in cfg.specs
      ensures NodeAgrees(job, final, id, after[id])
    {
      assert id in s.rows ==> RowAgrees(final, id, s.rows[id]);
    }
  }

  lemma CrashStepAgrees(cfg: Config, env: Env, good: ReliableTool, final: Nodes, s: Sys, step: Step)
    requires SpecsOk(cfg) && WellBound(cfg) && Inv(cfg, s) && Enabled(cfg, s, step) && Reliable(env, good)
    requires CrashOnly(step) && (step.Finish? ==> LoopStep(cfg, env, s, step))
    requires Solves(JobOf(cfg, env), Load(cfg, map[]), final) && Agrees(cfg, JobOf(cfg, env), final, s)
    ensures Agrees(cfg, JobOf(cfg, env), final, Apply(cfg, s, step))
  {
    var job := JobOf(cfg, env);
    if step.Block? {
      forall id | id in s.nodes ensures !IsDead(s.nodes[id].state) { AgreedNotDead(cfg, job, final, s, id); }
      NothingDead(cfg, s.nodes, |cfg.listing|);
    } else if step.Dispatch? {
      DispatchAgrees(cfg, env, final, s, step.id);
    } else if step.Finish? {
      FinishAgrees(cfg, env, good, final, s, step);
    } else if step == Start || step == Resume {
      RestartAgrees(cfg, job, final, s, step);
    }
  }

  lemma {:induction false} CrashRunAgrees(cfg: Config, env: Env, good: ReliableTool, final: Nodes, s: Sys,
                                          steps: seq<Step>)
    requires SpecsOk(cfg) && WellBound(cfg) && Inv(cfg, s) && Runs(cfg, s, steps)
    requires CrashRun(cfg, env, s, steps) && Reliable(env, good)
    requires Solves(JobOf(cfg, env), Load(cfg, map[]), final) && Agrees(cfg, JobOf(cfg, env), final, s)
    ensures Agrees(cfg, JobOf(cfg, env), final, Exec(cfg, s, steps)) && Inv(cfg, Exec(cfg, s, steps))
    decreases |steps|
  {
    if steps != [] {
      CrashStepAgrees(cfg, env, good, final, s, steps[0]);
      StepKeeps(cfg, s, steps[0]);
      CrashRunAgrees(cfg, env, good, final, Apply(cfg, s, steps[0]), steps[1..]);
    }
  }

  /** The records the uninterrupted run ends with, by the sequential evaluator. */
  function Uninterrupted(cfg: Config, env: Env, order: seq<Id>): Nodes
    requires Ordered(cfg, order)
  {
    Evaluate(JobOf(cfg, env), Load(cfg, map[]), order)
  }

  /** The same for a run that is resumed on stored rows. */
  function Resumed(cfg: Config, env: Env, rows: Nodes, order: seq<Id>): Nodes
    requires Ordered(cfg, order)
  {
    Evaluate(JobOf(cfg, env), Recover(Load(cfg, rows)), order)
  }

  /**
   * Crashes do not show: with tools that always succeed, any sequence of crashes and resumes at step boundaries
   * that gets to the end has every node Succeeded with the outputs and parameters of the uninterrupted run.
   */
  lemma CrashesDoNotShow(cfg: Config, env: Env, good: ReliableTool, order: seq<Id>, steps: seq<Step>)
    requires SpecsOk(cfg) && WellBound(cfg) && Ordered(cfg, order) && Reliable(env, good)
    requires Runs(cfg, CREATED, steps) && CrashRun(cfg, env, CREATED, steps)
    requires Exec(cfg, CREATED, steps).live && AllTerminal(Exec(cfg, CREATED, steps).nodes)
    ensures var nodes, final := Exec(cfg, CREATED, steps).nodes, Uninterrupted(cfg, env, order);
            nodes.Keys == final.Keys == cfg.specs.Keys &&
            forall id | id in cfg.specs :: nodes[id].state == final[id].state == Succeeded &&
              nodes[id].outputs == final[id].outputs && nodes[id].params == final[id].params
  {
    var final := Uninterrupted(cfg, env, order);
    EvalSolves(cfg, JobOf(cfg, env), Load(cfg, map[]), order);
    CrashRunAgrees(cfg, env, good, final, CREATED, steps);
    AgreedEnd(cfg, JobOf(cfg, env), final, Exec(cfg, CREATED, steps));
  }

  lemma AgreedEnd(cfg: Config, job: Job, final: Nodes, s: Sys)
    requires job.specs == cfg.specs && s.nodes.Keys == cfg.specs.Keys
    requires Agrees(cfg, job, final, s) && AllTerminal(s.nodes)
    ensures forall id | id in cfg.specs ::
              id in final && s.nodes[id].state == final[id].state == Succeeded &&
              s.nodes[id].outputs == final[id].outputs && s.nodes[id].params == final[id].params
  {
    forall id | id in cfg.specs
      ensures s.nodes[id].state == Succeeded && Matches(final, id, s.nodes[id])
    {
      assert NodeAgrees(job, final, id, s.nodes[id]);
    }
  }

  /** The dispatches of a crash-only history never raise when those of the uninterrupted run do not. */
  lemma CrashesDoNotAbort(cfg: Config, env: Env, good: ReliableTool, order: seq<Id>, steps: seq<Step>, id: Id)
    requires SpecsOk(cfg) && WellBound(cfg) && Ordered(cfg, order) && Reliable(env, good)
    requires Runs(cfg, CREATED, steps) && CrashRun(cfg, env, CREATED, steps)
    requires !SomeBindFailure(JobOf(cfg, env), Load(cfg, map[]), Uninterrupted(cfg, env, order))
    requires IsReady(cfg, Exec(cfg, CREATED, steps).nodes, id)
    ensures StartNode(cfg, Exec(cfg, CREATED, steps).nodes, id).Some?
  {
    HistoryAgrees(cfg, env, good, order, steps);
    AgreedLaunch(cfg, JobOf(cfg, env), Uninterrupted(cfg, env, order), Exec(cfg, CREATED, steps), id);
  }

  lemma HistoryAgrees(cfg: Config, env: Env, good: ReliableTool, order: seq<Id>, steps: seq<Step>)
    requires SpecsOk(cfg) && WellBound(cfg) && Ordered(cfg, order) && Reliable(env, good)
    requires Runs(cfg, CREATED, steps) && CrashRun(cfg, env, CREATED, steps)
    ensures Inv(cfg, Exec(cfg, CREATED, steps))
    ensures Agrees(cfg, JobOf(cfg, env), Uninterrupted(cfg, env, order), Exec(cfg, CREATED, steps))
  {
    EvalSolves(cfg, JobOf(cfg, env), Load(cfg, map[]), order);
    CrashRunAgrees(cfg, env, good, Uninterrupted(cfg, env, order), CREATED, steps);
  }

  lemma AgreedLaunch(cfg: Config, job: Job, final: Nodes, s: Sys, id: Id)
    requires SpecsOk(cfg) && job.specs == cfg.specs && job.inputs == cfg.inputs && Bound(job)
    requires Inv(cfg, s) && Agrees(cfg, job, final, s) && IsReady(cfg, s.nodes, id)
    requires !BindFailure(job, Load(cfg, map[]), final, id)
    ensures StartNode(cfg, s.nodes, id).Some?
  {
    assert SpecOk(cfg, id);
    AgreedDeps(job, final, s.nodes, id);
  }

  /** Neither record is dead, and both succeeded, with the same outputs and parameters, or neither did. */
  predicate SameSuccess(a: Node, b: Node) {
    && !IsDead(a.state) && !IsDead(b.state)
    && (a.state == Succeeded <==> b.state == Succeeded)
    && (a.state == Succeeded ==> a.outputs == b.outputs && a.params == b.params)
  }

  /** What a resume loads after crashes: successes of the uninterrupted run, and nodes to be run from the start. */
  ghost predicate CrashStart(final: Nodes, start: Nodes) {
    forall id | id in start :: CrashRecord(final, id, start[id])
  }

  ghost predicate CrashRecord(final: Nodes, id: Id, n: Node) {
    if n.state == Succeeded then Matches(final, id, n) else n.state == Pending && !n.resolved
  }

  lemma CrashStartOf(cfg: Config, job: Job, final: Nodes, s: Sys)
    requires RowsOk(cfg, s.rows) && Agrees(cfg, job, final, s)
    ensures CrashStart(final, Recover(Load(cfg, s.rows)))
  {
    forall id | id in cfg.specs
      ensures CrashRecord(final, id, Recover(Load(cfg, s.rows))[id])
    {
      assert id in s.rows ==> RowAgrees(final, id, s.rows[id]) && !s.rows[id].resolved;
    }
  }

  // Dependencies that agree make a node agree: it is launched with the same parameters, or in neither evaluation.
  lemma SameTurn(job: Job, good: ReliableTool, blank: Nodes, start: Nodes, once: Nodes, again: Nodes, id: Id)
    requires Reliable(job.env, good) && Bound(job) && id in job.specs && KnownDeps(job, id)
    requires Solves(job, blank, once) && Solves(job, start, again)
    requires blank[id] == FRESH && start[id].state == Pending && !start[id].resolved
    requires forall d | d in job.specs[id].dependsOn :: SameSuccess(once[d], again[d])
    ensures SameSuccess(once[id], again[id])
  {
    SameDeps(job, once, again, id);
    FreshTurn(job, good, blank, once, id);
    FreshTurn(job, good, start, again, id);
    SameResult(job, good, start[id], once, again, id);
  }

  lemma SameResult(job: Job, good: ReliableTool, n: Node, once: Nodes, again: Nodes, id: Id)
    requires id in job.specs && n.state == Pending
    requires DepsSucceeded(job.specs[id], once) <==> DepsSucceeded(job.specs[id], again)
    requires DepsSucceeded(job.specs[id], once) ==>
               && Upstream(job.specs[id], again) == Upstream(job.specs[id], once)
               && ResolveParams(job.specs[id].params, job.inputs, again) ==
                    ResolveParams(job.specs[id].params, job.inputs, once)
    ensures SameSuccess(FreshResult(job, good, FRESH, once, id), FreshResult(job, good, n, again, id))
  {
  }

  lemma SameBinding(job: Job, blank: Nodes, start: Nodes, once: Nodes, again: Nodes, id: Id)
    requires Bound(job) && id in job.specs && KnownDeps(job, id) && once.Keys == again.Keys == job.specs.Keys
    requires id in blank && id in start && blank[id] == FRESH && start[id].state == Pending && !start[id].resolved
    requires forall d | d in job.specs[id].dependsOn :: SameSuccess(once[d], again[d])
    ensures BindFailure(job, start, again, id) <==> BindFailure(job, blank, once, id)
  {
    SameDeps(job, once, again, id);
    FreshBindFailure(job, blank, once, id);
    FreshBindFailure(job, start, again, id);
  }

  lemma SameDeps(job: Job, once: Nodes, again: Nodes, id: Id)
    requires id in job.specs && Bound(job) && KnownDeps(job, id) && once.Keys == again.Keys == job.specs.Keys
    requires forall d | d in job.specs[id].dependsOn :: SameSuccess(once[d], again[d])
    ensures !HasDeadDep(job.specs[id], once) && !HasDeadDep(job.specs[id], again)
    ensures DepsSucceeded(job.specs[id], once) <==> DepsSucceeded(job.specs[id], again)
    ensures DepsSucceeded(job.specs[id], once) ==>
              && Upstream(job.specs[id], again) == Upstream(job.specs[id], once)
              && ResolveParams(job.specs[id].params, job.inputs, again) ==
                  ResolveParams(job.specs[id].params, job.inputs, once)
  {
    if DepsSucceeded(job.specs[id], once) { SameUpstream(job, once, again, id); }
  }

  lemma SameUpstream(job: Job, once: Nodes, again: Nodes, id: Id)
    requires id in job.specs && Bound(job) && KnownDeps(job, id) && once.Keys == again.Keys == job.specs.Keys
    requires DepsSucceeded(job.specs[id], once)
    requires forall d | d in job.specs[id].dependsOn :: SameSuccess(once[d], again[d])
    ensures Upstream(job.specs[id], again) == Upstream(job.specs[id], once)
    ensures ResolveParams(job.specs[id].params, job.inputs, again) ==
              ResolveParams(job.specs[id].params, job.inputs, once)
  {
    ResolveUsesDeclaredDeps(job.specs[id], job.inputs, again, once);
  }

  lemma {:induction false} SamePrefix(cfg: Config, job: Job, good: ReliableTool, blank: Nodes, start: Nodes,
                                      once: Nodes, again: Nodes, order: seq<Id>, k: nat)
    requires SpecsOk(cfg) && Ordered(cfg, order) && job.specs == cfg.specs && Bound(job) && Reliable(job.env, good)
    requires Solves(job, blank, once) && Solves(job, start, again)
    requires (forall id | id in blank :: blank[id] == FRESH) && CrashStart(once, start)
    requires k < |order|
    ensures SameSuccess(once[order[k]], again[order[k]])
    ensures BindFailure(job, start, again, order[k]) ==> BindFailure(job, blank, once, order[k])
  {
    var id := order[k];
    assert SpecOk(cfg, id) && CrashRecord(once, id, start[id]);
    if start[id].state == Succeeded {
      StartKeepsTerminal(job, start, again, id);
    } else {
      forall d | d in cfg.specs[id].dependsOn
        ensures SameSuccess(once[d], again[d])
      {
        assert d in order[..k];
        var j: nat :| j < k && order[j] == d;
        SamePrefix(cfg, job, good, blank, start, once, again, order, j);
      }
      SameTurn(job, good, blank, start, once, again, id);
      SameBinding(job, blank, start, once, again, id);
    }
  }

  lemma SameEvaluation(cfg: Config, job: Job, good: ReliableTool, blank: Nodes, start: Nodes, once: Nodes, again: Nodes,
                       order: seq<Id>)
    requires SpecsOk(cfg) && Ordered(cfg, order) && job.specs == cfg.specs && Bound(job) && Reliable(job.env, good)
    requires Solves(job, blank, once) && Solves(job, start, again)
    requires (forall id | id in blank :: blank[id] == FRESH) && CrashStart(once, start)
    ensures forall id | id in cfg.specs :: SameSuccess(once[id], again[id])
    ensures SomeBindFailure(job, start, again) ==> SomeBindFailure(job, blank, once)
  {
    forall id | id in cfg.specs
      ensures SameSuccess(once[id], again[id])
      ensures BindFailure(job, start, again, id) ==> BindFailure(job, blank, once, id)
    {
      var k: nat :| k < |order| && order[k] == id;
      SamePrefix(cfg, job, good, blank, start, once, again, order, k);
    }
  }

  /**
   * A resume after any crash-only history evaluates to the successes, outputs and parameters of the uninterrupted
   * run, and its bindings fail only if that run's do: what `resume` returns is what an uninterrupted `start` returns.
   */
  lemma ResumeEvaluatesAlike(cfg: Config, env: Env, good: ReliableTool, order: seq<Id>, steps: seq<Step>)
    requires SpecsOk(cfg) && WellBound(cfg) && Ordered(cfg, order) && Reliable(env, good)
    requires Runs(cfg, CREATED, steps) && CrashRun(cfg, env, CREATED, steps)
    ensures var rows := Exec(cfg, CREATED, steps).rows;
            AlikeFrom(cfg, env, Recover(Load(cfg, rows)), Uninterrupted(cfg, env, order),
                Resumed(cfg, env, rows, order))
  {
    var job, rows := JobOf(cfg, env), Exec(cfg, CREATED, steps).rows;
    EvalSolves(cfg, job, Load(cfg, map[]), order);
    EvalSolves(cfg, job, Recover(Load(cfg, rows)), order);
    CrashHistoryStart(cfg, env, good, Uninterrupted(cfg, env, order), steps);
    SameEvaluation(cfg, job, good, Load(cfg, map[]), Recover(Load(cfg, rows)),
                   Uninterrupted(cfg, env, order), Resumed(cfg, env, rows, order), order);
  }

  /** The same successes, outputs and parameters, and no binding failure that is not there without the interruptions. */
  ghost predicate AlikeFrom(cfg: Config, env: Env, start: Nodes, once: Nodes, again: Nodes)
    requires start.Keys == cfg.specs.Keys
  {
    && once.Keys == again.Keys == cfg.specs.Keys
    && (forall id | id in cfg.specs :: SameSuccess(once[id], again[id]))
    && (SomeBindFailure(JobOf(cfg, env), start, again) ==> SomeBindFailure(JobOf(cfg, env), Load(cfg, map[]), once))
  }

  lemma CrashHistoryStart(cfg: Config, env: Env, good: ReliableTool, final: Nodes, steps: seq<Step>)
    requires SpecsOk(cfg) && WellBound(cfg) && Reliable(env, good) && Solves(JobOf(cfg, env), Load(cfg, map[]), final)
    requires Runs(cfg, CREATED, steps) && CrashRun(cfg, env, CREATED, steps)
    ensures CrashStart(final, Recover(Load(cfg, Exec(cfg, CREATED, steps).rows)))
  {
    CrashRunAgrees(cfg, env, good, final, CREATED, steps);
    CrashStartOf(cfg, JobOf(cfg, env), final, Exec(cfg, CREATED, steps));
  }

  // ------------------------------------------------------------------------------------ cancel, then resume

  ghost predicate NoDeadRecord(nodes: Nodes) { forall id | id in nodes :: !IsDead(nodes[id].state) }

  // Without failed or cancelled records and without binding failures, reliable tools bring everything to success.
  lemma {:induction false} ReliableSucceeds(cfg: Config, env: Env, good: ReliableTool, start: Nodes, final: Nodes,
                                            order: seq<Id>, k: nat)
    requires SpecsOk(cfg) && Ordered(cfg, order) && Reliable(env, good)
    requires Loaded(cfg, start) && Solves(JobOf(cfg, env), start, final)
    requires !SomeBindFailure(JobOf(cfg, env), start, final)
    requires NoDeadRecord(start)
    requires k < |order|
    ensures final[order[k]].state == Succeeded
  {
    var job, id := JobOf(cfg, env), order[k];
    forall d | d in cfg.specs[id].dependsOn
      ensures StateOf(final, d) == Succeeded
    {
      assert d in order[..k];
      var j: nat :| j < k && order[j] == d;
      ReliableSucceeds(cfg, env, good, start, final, order, j);
    }
    if Runnable(start[id].state) { ReliableTurn(cfg, env, good, start, final, id); }
  }

  lemma ReliableTurn(cfg: Config, env: Env, good: ReliableTool, start: Nodes, final: Nodes, id: Id)
    requires Reliable(env, good) && Solves(JobOf(cfg, env), start, final) && id in cfg.specs
    requires Runnable(start[id].state) && DepsSucceeded(cfg.specs[id], final)
    requires !BindFailure(JobOf(cfg, env), start, final, id)
    ensures final[id].state == Succeeded
  {
    var job := JobOf(cfg, env);
    assert final[id] == EvalNode(job, start, id, final);
    SettleReliable(job, good, Upstream(cfg.specs[id], final), id,
        Launch(cfg.specs[id], cfg.inputs, start[id], final).value);
  }

  lemma ReliableEnd(cfg: Config, env: Env, good: ReliableTool, start: Nodes, final: Nodes, order: seq<Id>)
    requires SpecsOk(cfg) && Ordered(cfg, order) && Reliable(env, good)
    requires Loaded(cfg, start) && Solves(JobOf(cfg, env), start, final)
    requires !SomeBindFailure(JobOf(cfg, env), start, final)
    requires NoDeadRecord(start)
    ensures AllSucceeded(final)
  {
    forall id | id in final
      ensures final[id].state == Succeeded
    {
      var k: nat :| k < |order| && order[k] == id;
      ReliableSucceeds(cfg, env, good, start, final, order, k);
    }
  }

  lemma ReliableSucceedsIff(cfg: Config, env: Env, good: ReliableTool, start: Nodes, final: Nodes, order: seq<Id>)
    requires SpecsOk(cfg) && Ordered(cfg, order) && Reliable(env, good)
    requires Loaded(cfg, start) && Solves(JobOf(cfg, env), start, final)
    requires !SomeBindFailure(JobOf(cfg, env), start, final)
    ensures AllSucceeded(final) <==> NoDeadRecord(start)
  {
    if NoDeadRecord(start) {
      ReliableEnd(cfg, env, good, start, final, order);
    } else {
      var id :| id in start && IsDead(start[id].state);
      StartKeepsTerminal(JobOf(cfg, env), start, final, id);
    }
  }

  /** The node map a resume enters the loop with after a cancellation in `s`. */
  function CancelledStart(cfg: Config, s: Sys): Nodes {
    Recover(Load(cfg, CancelRows(s.nodes, s.rows, s.flying)))
  }

  // Its dead records are exactly the nodes that were in flight.
  lemma CancelledImage(cfg: Config, s: Sys, id: Id)
    requires Inv(cfg, s) && s.live && id in cfg.specs && !IsDead(s.nodes[id].state)
    ensures IsDead(CancelledStart(cfg, s)[id].state) <==> id in s.flying
  {
    SyncedAt(cfg, s, id);
    CancelledRecord(cfg, s.nodes, s.rows, s.flying, id);
  }

  // The record a resume loads after a cancellation: Cancelled for the nodes in flight, else as without it.
  lemma CancelledRecord(cfg: Config, nodes: Nodes, rows: Nodes, flying: set<Id>, id: Id)
    requires flying == RunningIds(nodes) && id in cfg.specs && id in nodes
    requires Durable(nodes[id]) == Durable(Load(cfg, rows)[id]) && Load(cfg, rows)[id].state != Blocked
    ensures var n := Recover(Load(cfg, CancelRows(nodes, rows, flying)))[id];
            if id in flying then n.state == Cancelled else Durable(n) == Durable(nodes[id])
    ensures !IsDead(nodes[id].state) ==>
              (IsDead(Recover(Load(cfg, CancelRows(nodes, rows, flying)))[id].state) <==> id in flying)
  {
    CancelledLoad(cfg, nodes, rows, flying, id);
  }

  lemma CancelledImages(cfg: Config, s: Sys)
    requires Inv(cfg, s) && s.live && NoDeadRecord(s.nodes)
    ensures NoDeadRecord(CancelledStart(cfg, s)) <==> s.flying == {}
  {
    forall id | id in cfg.specs { CancelledImage(cfg, s, id); }
    if s.flying != {} {
      var id :| id in s.flying;
      FlyingIsRunning(cfg, s, id);
    }
  }

  lemma CancelResumeRuns(cfg: Config, s: Sys)
    requires Inv(cfg, s) && s.live
    ensures Runs(cfg, s, [Cancel, Resume]) && Exec(cfg, s, [Cancel, Resume]).nodes == CancelledStart(cfg, s)
  {
    TwoSteps(cfg, s, Cancel, Resume);
  }

  /**
   * Cancelling is documented as resumable, but `resume_run` leaves Cancelled nodes as they are. With reliable
   * tools and no dead node so far, the resumed run completes if and only if nothing was in flight at the cancel.
   */
  lemma CancelThenResumeCompletesIff(cfg: Config, env: Env, good: ReliableTool, s: Sys, order: seq<Id>, start: Nodes,
                                     final: Nodes)
    requires SpecsOk(cfg) && WellBound(cfg) && Ordered(cfg, order) && Reliable(env, good) && Inv(cfg, s) && s.live
    requires NoDeadRecord(s.nodes)
    requires start == CancelledStart(cfg, s) && final == Evaluate(JobOf(cfg, env), start, order)
    requires !SomeBindFailure(JobOf(cfg, env), start, final)
    ensures AllSucceeded(final) <==> s.flying == {}
  {
    CancelledImages(cfg, s);
    CancelledOutcome(cfg, env, good, s, order, start, final);
  }

  lemma CancelledOutcome(cfg: Config, env: Env, good: ReliableTool, s: Sys, order: seq<Id>, start: Nodes, final: Nodes)
    requires SpecsOk(cfg) && WellBound(cfg) && Ordered(cfg, order) && Reliable(env, good) && Inv(cfg, s) && s.live
    requires start == CancelledStart(cfg, s) && final == Evaluate(JobOf(cfg, env), start, order)
    requires !SomeBindFailure(JobOf(cfg, env), start, final)
    ensures AllSucceeded(final) <==> NoDeadRecord(start)
  {
    CancelledStartIsLoaded(cfg, s);
    ReliableOutcomeIff(cfg, env, good, order, start, final);
  }

  /**
   * For tools that may fail, too, the cancellation shows in the end: the resumed run ends without a Cancelled node
   * if and only if nothing was in flight at the cancel.
   */
  lemma CancelShowsIff(cfg: Config, env: Env, s: Sys, order: seq<Id>, start: Nodes, final: Nodes)
    requires SpecsOk(cfg) && WellBound(cfg) && Ordered(cfg, order) && Inv(cfg, s) && s.live && NoneCancelled(s.nodes)
    requires start == CancelledStart(cfg, s) && final == Evaluate(JobOf(cfg, env), start, order)
    ensures NoneCancelled(final) <==> s.flying == {}
  {
    CancelledStartIsLoaded(cfg, s);
    EvalSolves(cfg, JobOf(cfg, env), start, order);
    forall id | id in cfg.specs { CancelledShows(cfg, s, id); }
    if s.flying == {} {
      NoneCancelledAtEnd(cfg, JobOf(cfg, env), start, final);
    } else {
      var id :| id in s.flying;
      FlyingIsRunning(cfg, s, id);
      StartKeepsTerminal(JobOf(cfg, env), start, final, id);
    }
  }

  lemma CancelledShows(cfg: Config, s: Sys, id: Id)
    requires Inv(cfg, s) && s.live && id in cfg.specs && s.nodes[id].state != Cancelled
    ensures CancelledStart(cfg, s)[id].state == Cancelled <==> id in s.flying
  {
    SyncedAt(cfg, s, id);
    CancelledRecord(cfg, s.nodes, s.rows, s.flying, id);
  }

  // From loaded records without binding failures, reliable tools complete the run iff no record is dead.
  lemma ReliableOutcomeIff(cfg: Config, env: Env, good: ReliableTool, order: seq<Id>, start: Nodes, final: Nodes)
    requires SpecsOk(cfg) && WellBound(cfg) && Ordered(cfg, order) && Reliable(env, good) && Loaded(cfg, start)
    requires final == Evaluate(JobOf(cfg, env), start, order) && !SomeBindFailure(JobOf(cfg, env), start, final)
    ensures AllSucceeded(final) <==> NoDeadRecord(start)
  {
    EvalSolves(cfg, JobOf(cfg, env), start, order);
    ReliableSucceedsIff(cfg, env, good, start, final, order);
  }

  lemma CancelledStartIsLoaded(cfg: Config, s: Sys)
    requires SpecsOk(cfg) && Inv(cfg, s) && s.live
    ensures Loaded(cfg, CancelledStart(cfg, s))
  {
    CancelKeeps(cfg, s.nodes, s.flying, s.rows, s.flying);
    RecoveredIsLoaded(cfg, CancelRows(s.nodes, s.rows, s.flying));
  }

  lemma RecoveredIsLoaded(cfg: Config, rows: Nodes)
    requires RowsOk(cfg, rows)
    ensures Loaded(cfg, Recover(Load(cfg, rows)))
  {
    StartDepSafe(cfg, Load(cfg, rows), Recover(Load(cfg, rows)));
  }

  // ------------------------------------------------------------------------------------ retry

  predicate CanReset(cfg: Config, rows: Nodes, id: Id) {
    id in cfg.specs && CanTransition(Load(cfg, rows)[id].state, Pending)
  }

  /** How many of `ids`, in order, `retry` resets before it raises; all of them when it does not. */
  function ResetCount(cfg: Config, rows: Nodes, ids: seq<Id>): (n: nat)
    ensures n <= |ids|
  {
    if ids == [] || !CanReset(cfg, rows, ids[0]) then 0
    else 1 + ResetCount(cfg, ResetRow(cfg, rows, ids[0]), ids[1..])
  }

  function ResetRow(cfg: Config, rows: Nodes, id: Id): Nodes
    requires id in cfg.specs
  {
    rows[id := Row(ResetNode(Load(cfg, rows)[id]))]
  }

  /** The rows after `retry`'s loop over `ids`, which stops at the first illegal transition. */
  function ResetRows(cfg: Config, rows: Nodes, ids: seq<Id>): Nodes {
    if ids == [] || !CanReset(cfg, rows, ids[0]) then rows
    else ResetRows(cfg, ResetRow(cfg, rows, ids[0]), ids[1..])
  }

  lemma ResetRowOk(cfg: Config, rows: Nodes, id: Id)
    requires RowsOk(cfg, rows) && CanReset(cfg, rows, id)
    ensures RowsOk(cfg, ResetRow(cfg, rows, id))
    ensures NoOrphans(rows) ==> NoOrphans(ResetRow(cfg, rows, id))
  {
    RowKeeps(cfg, rows, id, Row(ResetNode(Load(cfg, rows)[id])));
  }

  // A reset keeps what the rows promise, and leaves no orphan where there was none.
  lemma {:induction false} ResetRowsOk(cfg: Config, rows: Nodes, ids: seq<Id>)
    requires RowsOk(cfg, rows)
    ensures RowsOk(cfg, ResetRows(cfg, rows, ids))
    ensures NoOrphans(rows) ==> NoOrphans(ResetRows(cfg, rows, ids))
    decreases |ids|
  {
    if ids != [] && CanReset(cfg, rows, ids[0]) {
      ResetRowOk(cfg, rows, ids[0]);
      ResetRowsOk(cfg, ResetRow(cfg, rows, ids[0]), ids[1..]);
    }
  }

  // What each row is after a retry of distinct resettable nodes: reset if it was named, else as it was.
  lemma {:induction false} ResetRowsAt(cfg: Config, rows: Nodes, ids: seq<Id>, id: Id)
    requires id in cfg.specs && Distinct(ids) && forall x | x in ids :: CanReset(cfg, rows, x)
    ensures ResetCount(cfg, rows, ids) == |ids|
    ensures Load(cfg, ResetRows(cfg, rows, ids))[id] ==
            if id in ids then Row(ResetNode(Load(cfg, rows)[id])) else Load(cfg, rows)[id]
    decreases |ids|
  {
    if ids != [] {
      var x, rest := ids[0], ids[1..];
      assert ids == [x] + rest && x !in rest;
      assert CanReset(cfg, rows, x);
      LoadUpdate(cfg, rows, x, Row(ResetNode(Load(cfg, rows)[x])));
      forall y | y in rest
        ensures CanReset(cfg, ResetRow(cfg, rows, x), y)
      {
        assert y in ids && y != x;
      }
      ResetRowsAt(cfg, ResetRow(cfg, rows, x), rest, id);
    }
  }

  /** The records a retry without node ids resets: every loaded one that is Failed or Blocked. */
  ghost predicate DefaultTargets(cfg: Config, rows: Nodes, ids: seq<Id>) {
    Distinct(ids) && forall id :: id in ids <==>
      id in cfg.specs && (Load(cfg, rows)[id].state == Failed || Load(cfg, rows)[id].state == Blocked)
  }

  /** Records of a run that ended without a cancellation, as they are loaded again. */
  ghost predicate FinishedRows(cfg: Config, rows: Nodes) {
    forall id | id in cfg.specs ::
      Load(cfg, rows)[id].state == Succeeded || Load(cfg, rows)[id].state == Failed || Load(cfg, rows)[id].state ==
          Pending
  }

  /** Retrying a finished run enters the loop with successes and Pending nodes only; a success is untouched. */
  lemma RetryEntry(cfg: Config, rows: Nodes, ids: seq<Id>, id: Id)
    requires FinishedRows(cfg, rows) && DefaultTargets(cfg, rows, ids) && id in cfg.specs
    ensures ResetCount(cfg, rows, ids) == |ids|
    ensures var before, after := Load(cfg, rows)[id], Load(cfg, ResetRows(cfg, rows, ids))[id];
            && (before.state == Succeeded ==> after == before)
            && (before.state == Failed ==>
                  after == Node(Pending, 0, 0, map[], false, before.outputs))
            && (before.state == Pending ==> after == before)
  {
    forall x | x in ids
      ensures CanReset(cfg, rows, x)
    {
    }
    ResetRowsAt(cfg, rows, ids, id);
  }

  // The rows an uncancelled run leaves behind: Blocked was never written and reads back as Pending,
  // so naming a blocked node in a retry is an illegal transition.
  lemma UncancelledRows(cfg: Config, s: Sys, id: Id)
    requires SpecsOk(cfg) && Inv(cfg, s) && s.live && BlockedCaused(cfg, s.nodes)
    requires id in cfg.specs && IsTerminal(s.nodes[id].state) && s.nodes[id].state != Cancelled
    ensures var state := Load(cfg, s.rows)[id].state;
            && (state == Succeeded || state == Failed || state == Pending)
            && (CanTransition(state, Pending) <==> s.nodes[id].state == Failed)
  {
    ReloadedState(cfg, s, id);
    NeverSkipped(cfg, s, id);
    ResettableIffFailed(s.nodes[id].state);
  }

  lemma FinishedRunRows(cfg: Config, s: Sys)
    requires SpecsOk(cfg) && Inv(cfg, s) && s.live && BlockedCaused(cfg, s.nodes)
    requires AllTerminal(s.nodes) && NoneCancelled(s.nodes)
    ensures FinishedRows(cfg, s.rows)
  {
    forall id | id in cfg.specs { UncancelledRows(cfg, s, id); }
  }

  lemma ResettableIffFailed(state: NodeState)
    requires IsTerminal(state) && state != Cancelled && state != Skipped
    ensures CanTransition(if state == Blocked then Pending else state, Pending) <==> state == Failed
  {
  }

  lemma NeverSkipped(cfg: Config, s: Sys, id: Id)
    requires Inv(cfg, s) && s.live && id in cfg.specs
    ensures id in s.nodes && s.nodes[id].state != Skipped
  {
  }

  /** When every node has succeeded, a loop run from there dispatches and completes nothing. */
  lemma RetryOfSuccessDoesNothing(cfg: Config, env: Env, s: Sys, steps: seq<Step>)
    requires WellFormed(cfg) && AtEntry(cfg, s) && AllSucceeded(s.nodes)
    requires Runs(cfg, s, steps) && LoopRun(cfg, env, s, steps)
    ensures WorkSteps(steps) == 0 && Enabled(cfg, s, Complete)
  {
    NoWeight(cfg, s.nodes, |cfg.listing|);
    BoundedWork(cfg, env, s, steps);
  }
}
