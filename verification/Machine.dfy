/**
 * The graph runtime as a transition system: an in-memory node map, the set of in-flight nodes, and the durable
 * rows. One step is one scheduler action up to its last database write, plus the crash points in between.
 */
module Machine {
  import opened Values
  import opened States
  import opened CycleDetection
  import opened Graph
  import opened Binding

  datatype ToolError = ToolError(message: string, category: string, repairable: bool)

  /** What a tool call came to; an unexpected exception is an unrepairable failure of category "unknown". */
  datatype Outcome = Success(outputs: Outputs) | Failure(error: ToolError)

  /** What a repair handler left behind; a handler that raised counts as one that did not requeue. */
  datatype Fix = Fix(requeue: bool, params: Params)

  /** A run's fixed data: the template's specs by id, their order in the template, and the merged inputs. */
  datatype Config = Config(
    specs: map<Id, NodeSpec>,
    listing: seq<Id>,
    inputs: Params,
    maxConcurrency: nat,
    repairers: seq<string>)

  function Listing(nodes: seq<NodeSpec>): seq<Id> {
    seq(|nodes|, i requires 0 <= i < |nodes| => nodes[i].id)
  }

  function SpecMap(nodes: seq<NodeSpec>): map<Id, NodeSpec> {
    map id | id in Ids(nodes) :: FindNode(nodes, id).value
  }

  /** `create_run` on a template, with the scheduler's settings; the concurrency limit is at least one. */
  function ConfigFor(t: GraphTemplate, inputs: Params, maxConcurrency: int, repairers: seq<string>): Config {
    var limit := if maxConcurrency < 1 then 1 else maxConcurrency;
    Config(SpecMap(t.nodes), Listing(t.nodes), t.inputs + inputs, limit, repairers)
  }

  ghost predicate SpecOk(cfg: Config, id: Id)
    requires id in cfg.specs
  {
    && cfg.specs[id].id == id
    && (forall d | d in cfg.specs[id].dependsOn :: d in cfg.specs)
    && cfg.specs[id].maxAttempts >= 1
    && cfg.specs[id].maxRepairAttempts >= 0
  }

  ghost predicate SpecsOk(cfg: Config) {
    forall id | id in cfg.specs :: SpecOk(cfg, id)
  }

  ghost predicate WellFormed(cfg: Config) {
    && SpecsOk(cfg)
    && Distinct(cfg.listing)
    && (forall id :: id in cfg.listing <==> id in cfg.specs)
    && cfg.maxConcurrency >= 1
  }

  ghost predicate WellBound(cfg: Config) {
    forall id | id in cfg.specs :: RefsDeclared(cfg.specs[id], cfg.inputs.Keys)
  }

  /** `order` lists every node after all its dependencies. */
  ghost predicate Ordered(cfg: Config, order: seq<Id>) {
    && Distinct(order)
    && (forall id :: id in order <==> id in cfg.specs)
    && forall k, d | 0 <= k < |order| && d in cfg.specs[order[k]].dependsOn :: d in order[..k]
  }

  lemma ListingCovers(nodes: seq<NodeSpec>)
    requires DistinctIds(nodes)
    ensures Distinct(Listing(nodes))
    ensures forall id :: id in Listing(nodes) <==> id in Ids(nodes)
  {
    forall id | id in Ids(nodes)
      ensures id in Listing(nodes)
    {
      var n :| n in nodes && n.id == id;
      var k :| 0 <= k < |nodes| && nodes[k] == n;
      assert Listing(nodes)[k] == id;
    }
    forall id | id in Listing(nodes)
      ensures id in Ids(nodes)
    {
      var k :| 0 <= k < |nodes| && Listing(nodes)[k] == id;
      assert nodes[k] in nodes;
    }
  }

  lemma ValidatedSpec(t: GraphTemplate, tools: Option<set<string>>, cfg: Config, id: Id)
    requires ValidTemplate(t, tools) && id in Ids(t.nodes)
    requires cfg.specs == SpecMap(t.nodes) && t.inputs.Keys <= cfg.inputs.Keys
    ensures SpecOk(cfg, id) && RefsDeclared(cfg.specs[id], cfg.inputs.Keys)
    ensures DependencyMap(t.nodes)[id] == cfg.specs[id].dependsOn
  {
    var n := cfg.specs[id];
    assert NodeOk(t, n);
    ValidationDeclaresRefs(t, n);
    DependencyMapOf(t.nodes, n);
  }

  // A template that `validate` accepts gives a configuration with everything the scheduler relies on,
  // and the order in which the cycle search finished its nodes is a topological one.
  lemma ValidatedConfig(t: GraphTemplate, tools: Option<set<string>>, order: seq<Id>,
                        inputs: Params, maxConcurrency: int, repairers: seq<string>)
    requires ValidTemplate(t, tools) && IsTopologicalOrder(DependencyMap(t.nodes), order)
    ensures var cfg := ConfigFor(t, inputs, maxConcurrency, repairers);
            WellFormed(cfg) && WellBound(cfg) && Ordered(cfg, order)
  {
    var cfg := ConfigFor(t, inputs, maxConcurrency, repairers);
    ListingCovers(t.nodes);
    forall id | id in cfg.specs { ValidatedSpec(t, tools, cfg, id); }
    forall k, d | 0 <= k < |order| && d in cfg.specs[order[k]].dependsOn
      ensures d in order[..k]
    {
      assert SpecOk(cfg, order[k]);
      assert Edge(DependencyMap(t.nodes), order[k], d);
    }
  }

  /** What registration of a template establishes once and for all inputs. */
  ghost predicate Usable(t: GraphTemplate, order: seq<Id>) {
    var cfg := ConfigFor(t, map[], 1, []);
    WellFormed(cfg) && WellBound(cfg) && Ordered(cfg, order)
  }

  lemma UsableConfig(t: GraphTemplate, order: seq<Id>, inputs: Params, maxConcurrency: int, repairers: seq<string>)
    requires Usable(t, order)
    ensures var cfg := ConfigFor(t, inputs, maxConcurrency, repairers);
            WellFormed(cfg) && WellBound(cfg) && Ordered(cfg, order)
  {
    var base, cfg := ConfigFor(t, map[], 1, []), ConfigFor(t, inputs, maxConcurrency, repairers);
    forall id | id in cfg.specs
      ensures SpecOk(cfg, id) && RefsDeclared(cfg.specs[id], cfg.inputs.Keys)
    {
      assert SpecOk(base, id) && RefsDeclared(base.specs[id], base.inputs.Keys);
      assert base.inputs.Keys <= cfg.inputs.Keys;
    }
  }

  /**
   * A configuration is the template with the run's inputs and the given settings: the handlers in their order, a limit
   * of at least one, and each node under its own id as the template declares it, listed in the template's order.
   */
  ghost predicate Executes(cfg: Config, t: GraphTemplate, inputs: Params, maxConcurrency: int, repairers: seq<string>) {
    && cfg.repairers == repairers
    && (if maxConcurrency > 1 then cfg.maxConcurrency == maxConcurrency else cfg.maxConcurrency == 1)
    && cfg.inputs == inputs
    && |cfg.listing| == |t.nodes|
    && (forall k | 0 <= k < |t.nodes| :: cfg.listing[k] == t.nodes[k].id)
    && (forall n | n in t.nodes :: n.id in cfg.specs && cfg.specs[n.id] == n)
    && (forall id | id in cfg.specs :: cfg.specs[id] in t.nodes && cfg.specs[id].id == id)
  }

  lemma ConfigExecutes(t: GraphTemplate, inputs: Params, maxConcurrency: int, repairers: seq<string>)
    requires DistinctIds(t.nodes) && t.inputs.Keys <= inputs.Keys
    ensures Executes(ConfigFor(t, inputs, maxConcurrency, repairers), t, inputs, maxConcurrency, repairers)
  {
    forall n | n in t.nodes { FindNodeUnique(t.nodes, n); }
    assert t.inputs + inputs == inputs;
  }

  lemma UsableIsDistinct(t: GraphTemplate, order: seq<Id>)
    requires Usable(t, order)
    ensures DistinctIds(t.nodes)
  {
    var listing := ConfigFor(t, map[], 1, []).listing;
    forall i, j | 0 <= i < j < |t.nodes|
      ensures t.nodes[i].id != t.nodes[j].id
    {
      assert listing[i] != listing[j];
    }
  }

  /** `_repairer_for`: an empty name disables repair, no name picks the first registered handler. */
  function RepairerFor(spec: NodeSpec, repairers: seq<string>): Option<string> {
    match spec.repair
    case Some(name) => if name != "" && name in repairers then Some(name) else None
    case None => if repairers != [] then Some(repairers[0]) else None
  }

  /** The name of the handler to ask, if there is one. */
  function HandlerName(spec: NodeSpec, repairers: seq<string>): string {
    var name := RepairerFor(spec, repairers); if name.Some? then name.value else ""
  }

  // ---------------------------------------------------------------------------------------- node steps

  predicate Runnable(state: NodeState) { state == Pending || state == Ready }

  predicate IsReady(cfg: Config, nodes: Nodes, id: Id) {
    && id in nodes && id in cfg.specs
    && Runnable(nodes[id].state)
    && forall d | d in cfg.specs[id].dependsOn :: StateOf(nodes, d) == Succeeded
  }

  /** `_prepare_dispatch`: bindings are resolved once, then kept; None is the ValueError that ends the loop. */
  function BoundParams(spec: NodeSpec, inputs: Params, n: Node, nodes: Nodes): Option<Params> {
    if n.resolved then Some(n.params) else ResolveParams(spec.params, inputs, nodes)
  }

  function Launch(spec: NodeSpec, inputs: Params, n: Node, nodes: Nodes): Option<Node> {
    match BoundParams(spec, inputs, n, nodes)
    case Some(p) => Some(n.(state := Running, attempt := n.attempt + 1, params := p, resolved := true))
    case None => None
  }

  function StartNode(cfg: Config, nodes: Nodes, id: Id): Option<Node>
    requires id in nodes && id in cfg.specs
  {
    Launch(cfg.specs[id], cfg.inputs, nodes[id], nodes)
  }

  predicate WantsRepair(spec: NodeSpec, repairers: seq<string>, n: Node, error: ToolError) {
    error.repairable && RepairerFor(spec, repairers).Some? && n.repairs < spec.maxRepairAttempts
  }

  /** `_finish` with `_handle_failure` on a running node. */
  function FinishNode(spec: NodeSpec, repairers: seq<string>, n: Node, outcome: Outcome, fix: Fix): (r: Node)
    ensures r.state == Succeeded || r.state == Ready || r.state == Failed
    ensures r.state == Succeeded <==> outcome.Success?
  {
    match outcome
    case Success(outputs) => n.(state := Succeeded, outputs := outputs)
    case Failure(error) =>
      if WantsRepair(spec, repairers, n, error) then
        n.(repairs := n.repairs + 1, params := fix.params, state := if fix.requeue then Ready else Failed)
      else if n.attempt < spec.maxAttempts then n.(state := Ready)
      else n.(state := Failed)
  }

  predicate HasDeadDep(spec: NodeSpec, nodes: Nodes) {
    exists d | d in spec.dependsOn :: IsDead(StateOf(nodes, d))
  }

  function BlockNode(cfg: Config, nodes: Nodes, id: Id): Nodes {
    if id in nodes && id in cfg.specs && nodes[id].state == Pending && HasDeadDep(cfg.specs[id], nodes)
    then nodes[id := nodes[id].(state := Blocked)]
    else nodes
  }

  /** `process_blocked` after its first `k` template entries: later entries see earlier ones already blocked. */
  function BlockPrefix(cfg: Config, nodes: Nodes, k: nat): Nodes
    requires k <= |cfg.listing|
  {
    if k == 0 then nodes else BlockNode(cfg, BlockPrefix(cfg, nodes, k - 1), cfg.listing[k - 1])
  }

  function BlockPass(cfg: Config, nodes: Nodes): Nodes {
    BlockPrefix(cfg, nodes, |cfg.listing|)
  }

  // ---------------------------------------------------------------------------------------- persistence

  /** What `save_node_run` writes: everything but the `params_resolved` flag. */
  function Row(n: Node): Node { n.(resolved := false) }

  /** `load_run`: one record per template node, fresh where no row was ever written. */
  function Load(cfg: Config, rows: Nodes): Nodes {
    map id | id in cfg.specs :: if id in rows then rows[id] else FRESH
  }

  predicate InFlightState(state: NodeState) { state == Running || state == Ready || state == Repairing }

  function RecoverNode(n: Node): Node {
    if InFlightState(n.state) then n.(state := Pending) else n
  }

  /** `resume_run`'s reset of in-flight nodes. */
  function Recover(nodes: Nodes): Nodes {
    map id | id in nodes :: RecoverNode(nodes[id])
  }

  /** `retry`'s reset of one node; outputs and the rest of the record stay. */
  function ResetNode(n: Node): Node {
    n.(state := Pending, attempt := 0, repairs := 0, params := map[], resolved := false)
  }

  // ---------------------------------------------------------------------------------------- the system

  datatype Sys = Sys(live: bool, nodes: Nodes, flying: set<Id>, rows: Nodes, status: RunState)

  datatype Step =
    | Block
    | Dispatch(id: Id)
    | Finish(id: Id, outcome: Outcome, fix: Fix)
    | Cancel
    | Complete
    | Crash
    | CrashRepairing(id: Id)          // died after the Repairing row was written, inside the repair handler
    | CrashCancelling(ids: set<Id>)   // died after cancelling some of the in-flight nodes
    | Start
    | Resume
    | Reset(id: Id)                   // one write of the `retry` loop
    | Reopen                          // `retry`'s final `save_run`

  /** After `create`: only the run row exists. */
  const CREATED := Sys(false, map[], {}, map[], RunCreated)

  predicate AllTerminal(nodes: Nodes) {
    forall id | id in nodes :: IsTerminal(nodes[id].state)
  }

  predicate AnyReady(cfg: Config, nodes: Nodes) {
    exists id | id in cfg.specs :: IsReady(cfg, nodes, id)
  }

  /** The states of the nodes, in template order. */
  function StatesOf(cfg: Config, nodes: Nodes): seq<NodeState> {
    seq(|cfg.listing|, i requires 0 <= i < |cfg.listing| => StateOf(nodes, cfg.listing[i]))
  }

  predicate NoOrphans(rows: Nodes) {
    forall id | id in rows :: rows[id].state != Running && rows[id].state != Repairing
  }

  predicate Enabled(cfg: Config, s: Sys, step: Step) {
    match step
    case Block => s.live
    case Dispatch(id) =>
      s.live && IsReady(cfg, s.nodes, id) && |s.flying| < cfg.maxConcurrency && StartNode(cfg, s.nodes, id).Some?
    case Finish(id, _, _) => s.live && id in s.flying && id in s.nodes && id in cfg.specs
    case Cancel => s.live
    case Complete => s.live && s.flying == {} && !AnyReady(cfg, s.nodes) && AllTerminal(s.nodes)
    case Crash => s.live
    case CrashRepairing(id) => s.live && id in s.flying && id in s.nodes && id in cfg.specs
                               && s.nodes[id].repairs < cfg.specs[id].maxRepairAttempts
    case CrashCancelling(ids) => s.live && ids <= s.flying
    case Start => !s.live && !IsTerminalRun(s.status) && NoOrphans(s.rows)
    case Resume => !s.live && !IsTerminalRun(s.status)
    case Reset(id) => !s.live && id in cfg.specs && CanTransition(Load(cfg, s.rows)[id].state, Pending)
    case Reopen => !s.live
  }

  function CancelNodes(nodes: Nodes, ids: set<Id>): Nodes {
    map id | id in nodes ::
      if id in ids && nodes[id].state == Running then nodes[id].(state := Cancelled) else nodes[id]
  }

  // The rows that cancelling writes: one for every running in-flight node.
  function WrittenByCancel(nodes: Nodes, ids: set<Id>): Nodes {
    map id | id in ids && id in nodes && nodes[id].state == Running :: Row(nodes[id].(state := Cancelled))
  }

  function CancelRows(nodes: Nodes, rows: Nodes, ids: set<Id>): Nodes {
    rows + WrittenByCancel(nodes, ids)
  }

  // The in-flight node `id` leaves its slot with record `n`, written to memory and to the store.
  function Saved(s: Sys, id: Id, n: Node): Sys {
    s.(nodes := s.nodes[id := n], flying := s.flying - {id}, rows := s.rows[id := Row(n)])
  }

  function Down(s: Sys): Sys { s.(live := false, nodes := map[], flying := {}) }

  function Apply(cfg: Config, s: Sys, step: Step): Sys
    requires Enabled(cfg, s, step)
  {
    match step
    case Block => s.(nodes := BlockPass(cfg, s.nodes))
    case Dispatch(id) =>
      var n := StartNode(cfg, s.nodes, id).value;
      s.(nodes := s.nodes[id := n], flying := s.flying + {id}, rows := s.rows[id := Row(n)])
    case Finish(id, outcome, fix) =>
      if IsTerminal(s.nodes[id].state) then s.(flying := s.flying - {id})
      else
        Saved(s, id, FinishNode(cfg.specs[id], cfg.repairers, s.nodes[id], outcome, fix))
    case Cancel => Down(s.(rows := CancelRows(s.nodes, s.rows, s.flying), status := RunPaused))
    case Complete => Down(s.(status := DetermineRunStatus(StatesOf(cfg, s.nodes))))
    case Crash => Down(s)
    case CrashRepairing(id) => Down(s.(rows := s.rows[id := Row(s.nodes[id].(state := Repairing))]))
    case CrashCancelling(ids) => Down(s.(rows := CancelRows(s.nodes, s.rows, ids)))
    case Start => s.(live := true, nodes := Load(cfg, s.rows), status := RunRunning)
    case Resume => s.(live := true, nodes := Recover(Load(cfg, s.rows)), status := RunRunning)
    case Reset(id) => s.(rows := s.rows[id := Row(ResetNode(Load(cfg, s.rows)[id]))])
    case Reopen => s.(status := RunValidated)
  }

  /** `steps` can be taken one after the other from `s`. */
  predicate Runs(cfg: Config, s: Sys, steps: seq<Step>)
    decreases |steps|
  {
    steps == [] || (Enabled(cfg, s, steps[0]) && Runs(cfg, Apply(cfg, s, steps[0]), steps[1..]))
  }

  function Exec(cfg: Config, s: Sys, steps: seq<Step>): Sys
    requires Runs(cfg, s, steps)
    decreases |steps|
  {
    if steps == [] then s else Exec(cfg, Apply(cfg, s, steps[0]), steps[1..])
  }
}
