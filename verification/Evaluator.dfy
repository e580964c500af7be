/**
 * Schedule independence: with tools and repairers that are functions of what they are given, every interleaving
 * ends where a sequential evaluator in topological order does.
 */
module Evaluator {
  import opened Values
  import opened States
  import opened CycleDetection
  import opened Graph
  import opened Binding
  import opened Machine

  /** Deterministic tools and named repair handlers: a tool sees the running record and the upstream outputs. */
  datatype Env = Env(
    tool: (Id, Node, map<Id, Outputs>) -> Outcome,
    repair: (string, Id, Node, ToolError) -> Fix)

  /** What a result may depend on; the concurrency limit and the template order are not in it. */
  datatype Job = Job(specs: map<Id, NodeSpec>, inputs: Params, repairers: seq<string>, env: Env)

  function JobOf(cfg: Config, env: Env): Job { Job(cfg.specs, cfg.inputs, cfg.repairers, env) }

  function Upstream(spec: NodeSpec, nodes: Nodes): map<Id, Outputs> {
    map d | d in spec.dependsOn && d in nodes :: nodes[d].outputs
  }

  function FixFor(env: Env, spec: NodeSpec, repairers: seq<string>, id: Id, n: Node, outcome: Outcome): Fix {
    match outcome
    case Success(_) => Fix(false, n.params)
    case Failure(error) => env.repair(HandlerName(spec, repairers), id, n, error)
  }

  function RunTool(job: Job, id: Id, n: Node, upstream: map<Id, Outputs>): Node
    requires id in job.specs
  {
    var outcome := job.env.tool(id, n, upstream);
    FinishNode(job.specs[id], job.repairers, n, outcome, FixFor(job.env, job.specs[id], job.repairers, id, n, outcome))
  }

  function Sub(a: int, b: int): nat { if a > b then a - b else 0 }

  /** Twice the dispatches still possible, plus one while a tool is running; zero once terminal. */
  function Weight(spec: NodeSpec, n: Node): nat {
    var repairsLeft := Sub(spec.maxRepairAttempts, n.repairs);
    match n.state
    case Pending => 2 * (1 + Sub(spec.maxAttempts, n.attempt + 1) + repairsLeft)
    case Ready => 2 * (1 + Sub(spec.maxAttempts, n.attempt + 1) + repairsLeft)
    case Running => 2 * (Sub(spec.maxAttempts, n.attempt) + repairsLeft) + 1
    case Repairing => 2 * (Sub(spec.maxAttempts, n.attempt) + repairsLeft) + 1
    case _ => 0
  }

  lemma FinishLightens(spec: NodeSpec, repairers: seq<string>, n: Node, outcome: Outcome, fix: Fix)
    requires n.state == Running
    ensures Weight(spec, FinishNode(spec, repairers, n, outcome, fix)) < Weight(spec, n)
  {
  }

  function Redispatch(n: Node): Node { n.(state := Running, attempt := n.attempt + 1) }

  /** The local life of one node, run to the end: finish, retry or repair, dispatch again. */
  function Settle(job: Job, upstream: map<Id, Outputs>, id: Id, n: Node): Node
    requires id in job.specs
    decreases Weight(job.specs[id], n)
  {
    if n.state == Running then
      var outcome := job.env.tool(id, n, upstream);
      var fix := FixFor(job.env, job.specs[id], job.repairers, id, n, outcome);
      FinishLightens(job.specs[id], job.repairers, n, outcome, fix);
      Settle(job, upstream, id, RunTool(job, id, n, upstream))
    else if n.state == Ready then Settle(job, upstream, id, Redispatch(n))
    else n
  }

  lemma {:induction false} SettleEnds(job: Job, upstream: map<Id, Outputs>, id: Id, n: Node)
    requires id in job.specs && (n.state == Running || n.state == Ready)
    ensures Settle(job, upstream, id, n).state == Succeeded || Settle(job, upstream, id, n).state == Failed
    decreases Weight(job.specs[id], n)
  {
    if n.state == Ready {
      SettleEnds(job, upstream, id, Redispatch(n));
    } else {
      var outcome := job.env.tool(id, n, upstream);
      var fix := FixFor(job.env, job.specs[id], job.repairers, id, n, outcome);
      FinishLightens(job.specs[id], job.repairers, n, outcome, fix);
      var next := RunTool(job, id, n, upstream);
      if next.state == Ready { SettleEnds(job, upstream, id, next); }
    }
  }

  /**
   * The final record of one node, from its record at loop entry and the final records of its dependencies.
   * A node whose bindings cannot be resolved keeps its entry record.
   */
  function EvalNode(job: Job, start: Nodes, id: Id, final: Nodes): Node
    requires id in job.specs && id in start
  {
    var spec, n := job.specs[id], start[id];
    if !Runnable(n.state) then n
    else if n.state == Pending && HasDeadDep(spec, final) then n.(state := Blocked)
    else if forall d | d in spec.dependsOn :: StateOf(final, d) == Succeeded then
      match Launch(spec, job.inputs, n, final)
      case Some(running) => Settle(job, Upstream(spec, final), id, running)
      case None => n
    else n
  }

  /** The sequential evaluator: nodes one after the other, each run to its end. */
  function EvalAlong(job: Job, start: Nodes, order: seq<Id>, k: nat): Nodes
    requires k <= |order| && forall id | id in order :: id in job.specs && id in start
  {
    if k == 0 then map[]
    else
      var before := EvalAlong(job, start, order, k - 1);
      before[order[k - 1] := EvalNode(job, start, order[k - 1], before)]
  }

  ghost predicate Solves(job: Job, start: Nodes, final: Nodes) {
    && start.Keys == job.specs.Keys == final.Keys
    && forall id | id in job.specs :: final[id] == EvalNode(job, start, id, final)
  }

  ghost predicate Bound(job: Job) {
    forall id | id in job.specs :: RefsDeclared(job.specs[id], job.inputs.Keys)
  }

  lemma LaunchCongruent(spec: NodeSpec, inputs: Params, n: Node, a: Nodes, b: Nodes)
    requires RefsDeclared(spec, inputs.Keys)
    requires forall d | d in spec.dependsOn :: d in a && d in b && a[d] == b[d]
    ensures Launch(spec, inputs, n, a) == Launch(spec, inputs, n, b)
    ensures Upstream(spec, a) == Upstream(spec, b)
  {
    ResolveUsesDeclaredDeps(spec, inputs, a, b);
  }

  lemma EvalCongruent(job: Job, start: Nodes, id: Id, a: Nodes, b: Nodes)
    requires Bound(job) && id in job.specs && id in start
    requires forall d | d in job.specs[id].dependsOn :: d in a && d in b && a[d] == b[d]
    ensures EvalNode(job, start, id, a) == EvalNode(job, start, id, b)
  {
    LaunchCongruent(job.specs[id], job.inputs, start[id], a, b);
  }

  lemma {:induction false} EvalKeys(job: Job, start: Nodes, order: seq<Id>, k: nat)
    requires k <= |order| && forall id | id in order :: id in job.specs && id in start
    ensures forall id :: id in EvalAlong(job, start, order, k) <==> id in order[..k]
  {
    if k > 0 {
      EvalKeys(job, start, order, k - 1);
      assert order[..k] == order[..k - 1] + [order[k - 1]];
    }
  }

  // Entries, once evaluated, satisfy their own equation in every longer evaluation.
  lemma {:induction false} EvalPrefixSolves(cfg: Config, job: Job, start: Nodes, order: seq<Id>, k: nat, j: nat)
    requires Ordered(cfg, order) && job.specs == cfg.specs && Bound(job) && start.Keys == job.specs.Keys
    requires j < k <= |order|
    ensures order[j] in EvalAlong(job, start, order, k)
    ensures EvalAlong(job, start, order, k)[order[j]] == EvalNode(job, start, order[j], EvalAlong(job, start, order, k))
  {
    var before, after := EvalAlong(job, start, order, k - 1), EvalAlong(job, start, order, k);
    EvalKeys(job, start, order, k - 1);
    assert order[k - 1] !in order[..k - 1];
    forall d | d in job.specs[order[j]].dependsOn
      ensures d in before && d in after && before[d] == after[d]
    {
      assert d in order[..j];
      assert order[..j] <= order[..k - 1];
    }
    EvalCongruent(job, start, order[j], before, after);
    if j < k - 1 { EvalPrefixSolves(cfg, job, start, order, k - 1, j); }
  }

  /** The evaluator computes a solution of the per-node equations. */
  lemma EvalSolves(cfg: Config, job: Job, start: Nodes, order: seq<Id>)
    requires Ordered(cfg, order) && job.specs == cfg.specs && Bound(job) && start.Keys == job.specs.Keys
    ensures Solves(job, start, EvalAlong(job, start, order, |order|))
  {
    var final := EvalAlong(job, start, order, |order|);
    EvalCovers(cfg, job, start, order);
    forall id | id in job.specs
      ensures final[id] == EvalNode(job, start, id, final)
    {
      EvalSolvesAt(cfg, job, start, order, id);
    }
  }

  lemma EvalCovers(cfg: Config, job: Job, start: Nodes, order: seq<Id>)
    requires Ordered(cfg, order) && job.specs == cfg.specs && start.Keys == job.specs.Keys
    ensures EvalAlong(job, start, order, |order|).Keys == job.specs.Keys
  {
    EvalKeys(job, start, order, |order|);
    assert order[..|order|] == order;
  }

  lemma EvalSolvesAt(cfg: Config, job: Job, start: Nodes, order: seq<Id>, id: Id)
    requires Ordered(cfg, order) && job.specs == cfg.specs && Bound(job)
    requires start.Keys == job.specs.Keys && id in job.specs
    ensures var final := EvalAlong(job, start, order, |order|);
            id in final && final[id] == EvalNode(job, start, id, final)
  {
    var j: nat :| j < |order| && order[j] == id;
    EvalPrefixSolves(cfg, job, start, order, |order|, j);
  }

  // ------------------------------------------------------------------------------------ tracking a run

  /** A node of a running system is somewhere on the way from its entry record to its final one. */
  ghost predicate OnTheWay(job: Job, start: Nodes, final: Nodes, id: Id, n: Node)
    requires id in job.specs && id in start && id in final
  {
    match n.state
    case Pending => n == start[id]
    case Ready => n == start[id] || (n.resolved && Settle(job, Upstream(job.specs[id], final), id, n) == final[id])
    case Running => n.resolved && Settle(job, Upstream(job.specs[id], final), id, n) == final[id]
    case Repairing => false
    case _ => n == final[id]
  }

  ghost predicate Tracks(job: Job, start: Nodes, final: Nodes, nodes: Nodes) {
    && nodes.Keys == job.specs.Keys == start.Keys == final.Keys
    && forall id | id in job.specs :: OnTheWay(job, start, final, id, nodes[id])
  }

  ghost predicate KnownDeps(job: Job, id: Id)
    requires id in job.specs
  {
    forall d | d in job.specs[id].dependsOn :: d in job.specs
  }

  // Where a node's dependencies have succeeded, memory already holds their final records.
  lemma SucceededAreFinal(job: Job, start: Nodes, final: Nodes, nodes: Nodes, id: Id)
    requires Tracks(job, start, final, nodes) && id in job.specs && KnownDeps(job, id)
    requires DepsSucceeded(job.specs[id], nodes)
    ensures forall d | d in job.specs[id].dependsOn :: d in nodes && d in final && nodes[d] == final[d]
  {
    forall d | d in job.specs[id].dependsOn
      ensures d in nodes && nodes[d] == final[d]
    {
      assert OnTheWay(job, start, final, d, nodes[d]);
    }
  }

  lemma LaunchTracks(job: Job, start: Nodes, final: Nodes, nodes: Nodes, id: Id)
    requires Solves(job, start, final) && Bound(job) && Tracks(job, start, final, nodes)
    requires id in job.specs && KnownDeps(job, id) && Runnable(nodes[id].state) && DepsSucceeded(job.specs[id], nodes)
    ensures match Launch(job.specs[id], job.inputs, nodes[id], nodes)
            case Some(running) => OnTheWay(job, start, final, id, running)
            case None => final[id] == nodes[id]
  {
    var spec, n := job.specs[id], nodes[id];
    SucceededAreFinal(job, start, final, nodes, id);
    LaunchCongruent(spec, job.inputs, n, nodes, final);
    assert OnTheWay(job, start, final, id, n);
    if n == start[id] {
      assert final[id] == EvalNode(job, start, id, final);
    }
  }

  lemma FinishTracks(job: Job, start: Nodes, final: Nodes, nodes: Nodes, id: Id)
    requires Tracks(job, start, final, nodes) && id in job.specs && KnownDeps(job, id)
    requires nodes[id].state == Running && DepsSucceeded(job.specs[id], nodes)
    ensures OnTheWay(job, start, final, id, RunTool(job, id, nodes[id], Upstream(job.specs[id], nodes)))
  {
    SucceededAreFinal(job, start, final, nodes, id);
    assert Upstream(job.specs[id], nodes) == Upstream(job.specs[id], final);
    assert OnTheWay(job, start, final, id, nodes[id]);
  }

  lemma BlockTracks(job: Job, start: Nodes, final: Nodes, nodes: Nodes, id: Id)
    requires Solves(job, start, final) && Tracks(job, start, final, nodes)
    requires id in job.specs && KnownDeps(job, id) && nodes[id].state == Pending && HasDeadDep(job.specs[id], nodes)
    ensures OnTheWay(job, start, final, id, nodes[id].(state := Blocked))
  {
    var d :| d in job.specs[id].dependsOn && IsDead(StateOf(nodes, d));
    assert OnTheWay(job, start, final, d, nodes[d]);
    assert StateOf(final, d) == nodes[d].state;
    assert HasDeadDep(job.specs[id], final);
    assert OnTheWay(job, start, final, id, nodes[id]);
    assert final[id] == EvalNode(job, start, id, final);
  }

  lemma {:induction false} BlockPassTracks(cfg: Config, job: Job, start: Nodes, final: Nodes, nodes: Nodes, k: nat)
    requires SpecsOk(cfg) && job.specs == cfg.specs && Solves(job, start, final) && Tracks(job, start, final, nodes)
    requires k <= |cfg.listing|
    ensures Tracks(job, start, final, BlockPrefix(cfg, nodes, k))
  {
    if k > 0 {
      BlockPassTracks(cfg, job, start, final, nodes, k - 1);
      BlockNodeTracks(cfg, job, start, final, BlockPrefix(cfg, nodes, k - 1), cfg.listing[k - 1]);
    }
  }

  lemma BlockNodeTracks(cfg: Config, job: Job, start: Nodes, final: Nodes, nodes: Nodes, id: Id)
    requires SpecsOk(cfg) && job.specs == cfg.specs && Solves(job, start, final) && Tracks(job, start, final, nodes)
    ensures Tracks(job, start, final, BlockNode(cfg, nodes, id))
  {
    if BlockNode(cfg, nodes, id) != nodes {
      assert SpecOk(cfg, id);
      BlockTracks(job, start, final, nodes, id);
    }
  }

  // When every node is terminal the way has ended: memory is the solution.
  lemma TerminalIsFinal(job: Job, start: Nodes, final: Nodes, nodes: Nodes)
    requires Tracks(job, start, final, nodes) && AllTerminal(nodes)
    ensures nodes == final
  {
    forall id | id in job.specs
      ensures nodes[id] == final[id]
    {
      assert OnTheWay(job, start, final, id, nodes[id]);
    }
  }
}
