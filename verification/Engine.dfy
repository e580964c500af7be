/** The facade over scheduler and store: register, create, start, resume, retry. */
module Engine {
  import opened Values
  import opened States
  import opened CycleDetection
  import opened Graph
  import opened Binding
  import opened Machine
  import opened Safety
  import opened Evaluator
  import opened Schedule
  import opened Supply
  import opened Leaving
  import opened Outcomes
  import opened Recovery
  import opened RunRecords
  import opened Store
  import opened Scheduler
  import Notation
  import Rules

  /** How a lifecycle call comes back; the first, second and last stand for raised ValueErrors. */
  datatype Outcome = UnknownRun | UnknownTemplate | AlreadyEnded | LoopEnded(end: End) | IllegalRetry

  predicate DidAbort(outcome: Outcome) { outcome.LoopEnded? && outcome.end.Aborted? }

  predicate DidPause(outcome: Outcome) { outcome.LoopEnded? && outcome.end.Paused? }

  class GraphEngine {
    const store: SQLiteStateStore
    const env: Env
    const tools: set<string>
    const repairers: seq<string>
    const maxConcurrency: int
    const useAsyncio: bool
    var templates: map<string, GraphTemplate>
    ghost var orders: map<string, seq<Id>>

    constructor (stateStore: SQLiteStateStore, environment: Env, toolNames: set<string>, repairerNames: seq<string>,
                 concurrency: int, asyncio: bool)
      ensures store == stateStore && env == environment && tools == toolNames && repairers == repairerNames
      ensures maxConcurrency == concurrency && useAsyncio == asyncio && templates == map[] && Valid()
    {
      store, env, tools, repairers := stateStore, environment, toolNames, repairerNames;
      maxConcurrency, useAsyncio := concurrency, asyncio;
      templates, orders := map[], map[];
    }

    /** Every registered template is usable, along the order in which the cycle search finished its nodes. */
    ghost predicate Valid()
      reads this
    {
      templates.Keys == orders.Keys &&
      forall name | name in templates ::
        Usable(templates[name], orders[name])
    }

    /** `register_template`: kept exactly when validation reports nothing. */
    method RegisterTemplate(t: GraphTemplate) returns (errors: seq<ValidationError>)
      requires Valid()
      modifies this
      ensures Valid()
      ensures errors == [] <==> ValidTemplate(t, Some(tools))
      ensures errors == [] <==> Notation.TemplatePasses(t, Some(tools))
      ensures templates == if errors == [] then old(templates)[t.templateId := t] else old(templates)
    {
      ghost var order;
      errors, order := Validate(t, Some(tools));
      Notation.ValidMeans(t, Some(tools));
      if errors == [] {
        ValidatedConfig(t, Some(tools), order, map[], 1, []);
        templates := templates[t.templateId := t];
        orders := orders[t.templateId := order];
      }
    }

    /** A run of a registered template, with all its inputs. */
    ghost predicate Hosted(runId: string)
      reads this, store
    {
      && runId in store.runRows && store.runRows[runId].templateId in templates
      && templates[store.runRows[runId].templateId].inputs.Keys <= store.runRows[runId].inputs.Keys
    }

    /** The configuration a stored run is executed with. */
    function ConfigOf(runId: string): Config
      requires Hosted(runId)
      reads this, store
    {
      var row := store.runRows[runId];
      ConfigFor(templates[row.templateId], row.inputs, maxConcurrency, repairers)
    }

    /** `create`: false for an unknown template or input; else the run row is saved, with the merged inputs. */
    method Create(templateId: string, inputs: Params, runId: string) returns (ok: bool)
      modifies store`runRows
      ensures ok <==> templateId in templates && inputs.Keys <= templates[templateId].inputs.Keys
      ensures !ok ==> store.runRows == old(store.runRows)
      ensures ok ==> Hosted(runId)
      ensures ok ==>
                var row := RunRow(templateId, RunCreated, templates[templateId].inputs + inputs);
                store.runRows == old(store.runRows)[runId := row]
      ensures store.Elsewhere(runId) == old(store.Elsewhere(runId))
      ensures ok && Valid() && store.Rows(runId) == map[] ==> Loadable(runId)
    {
      if templateId !in templates || !(inputs.Keys <= templates[templateId].inputs.Keys) { return false; }
      var run := new GraphRun(runId, templateId, templates[templateId].inputs + inputs, RunCreated);
      store.SaveRun(run);
      ok := true;
      if Valid() && store.Rows(runId) == map[] { NewIsLoadable(runId); }
    }

    lemma NewIsLoadable(runId: string)
      requires Valid() && Hosted(runId) && store.Rows(runId) == map[]
      ensures Loadable(runId)
    {
      HostedConfig(runId);
      FreshRowsOk(ConfigOf(runId));
    }

    static lemma FreshRowsOk(cfg: Config)
      ensures RowsOk(cfg, map[])
    {
    }

    /** The configuration is the run's own: its template and inputs, with the engine's handlers and limit. */
    ghost predicate RunsOwn(cfg: Config, runRows: map<string, RunRow>, runId: string)
      reads this
    {
      && runId in runRows && runRows[runId].templateId in templates
      && Executes(cfg, templates[runRows[runId].templateId], runRows[runId].inputs, maxConcurrency, repairers)
    }

    lemma HostedConfig(runId: string)
      requires Valid() && Hosted(runId)
      ensures RunsOwn(ConfigOf(runId), store.runRows, runId)
      ensures var cfg, order := ConfigOf(runId), orders[store.runRows[runId].templateId];
              && WellFormed(cfg) && WellBound(cfg) && Ordered(cfg, order) && cfg.inputs == store.runRows[runId].inputs
    {
      var row := store.runRows[runId];
      UsableConfig(templates[row.templateId], orders[row.templateId], row.inputs, maxConcurrency, repairers);
      UsableIsDistinct(templates[row.templateId], orders[row.templateId]);
      ConfigExecutes(templates[row.templateId], row.inputs, maxConcurrency, repairers);
    }

    /** The environment keeps the promise of the mode the engine runs in. */
    ghost predicate Serves(world: World) {
      if useAsyncio then Eager(world) else Fair(world)
    }

    /** A configuration and an order fit for the scheduler, and rows of the run that can be loaded with it. */
    ghost predicate Fit(cfg: Config, order: seq<Id>, runId: string)
      reads store
    {
      && WellFormed(cfg) && WellBound(cfg) && Ordered(cfg, order)
      && runId in store.runRows && store.runRows[runId].inputs == cfg.inputs && RowsOk(cfg, store.Rows(runId))
    }

    /** Hands a loaded run to the scheduler, in the engine's mode. */
    method RunLoop(run: GraphRun, cfg: Config, world: World, ghost order: seq<Id>) returns (end: End)
      requires Enterable(cfg, store, run) && WellBound(cfg) && Ordered(cfg, order) && Serves(world)
      modifies run`state, run.nodes.Values, store
      ensures AsEvaluated(cfg, env, run, end, old(run.View()), order)
      ensures Left(cfg, env, store, run, end, old(store.Rows(run.runId)))
      ensures store.Elsewhere(run.runId) == old(store.Elsewhere(run.runId))
      ensures end == Paused ==> exists tick :: world.cancelled(tick)
    {
      ghost var start := run.View();
      var scheduler := new GraphScheduler(store, cfg, env);
      assert scheduler.cfg == cfg && scheduler.env == env && scheduler.store == store && run.View() == start;
      end := scheduler.Run(run, useAsyncio, world, order);
      SameAnswer(cfg, env, scheduler.cfg, scheduler.env, run, end, start, order);
    }

    static lemma SameAnswer(cfg: Config, env: Env, c: Config, e: Env, run: GraphRun, end: End, start: Nodes,
                            order: seq<Id>)
      requires c == cfg && e == env && WellFormed(c) && Ordered(c, order) && start.Keys == c.specs.Keys
      requires AsEvaluated(c, e, run, end, start, order)
      ensures AsEvaluated(cfg, env, run, end, start, order)
    {
    }

    static lemma StartEntry(cfg: Config, rows: Nodes)
      requires SpecsOk(cfg) && RowsOk(cfg, rows) && NoOrphans(rows)
      ensures LoopEntry(cfg, Sys(true, Load(cfg, rows), {}, rows, RunRunning))
    {
      var down := Sys(false, map[], {}, rows, RunCreated);
      EntryIsLoaded(cfg, down, Machine.Start);
    }

    static lemma ResumeEntry(cfg: Config, rows: Nodes)
      requires SpecsOk(cfg) && RowsOk(cfg, rows)
      ensures LoopEntry(cfg, Sys(true, Recover(Load(cfg, rows)), {}, rows, RunRunning))
    {
      var down := Sys(false, map[], {}, rows, RunCreated);
      EntryIsLoaded(cfg, down, Machine.Resume);
    }

    // A run that has not ended, as `start` (as it stands) or `resume` (recovered) load it.
    method LoadEntry(runId: string, recover: bool, cfg: Config, ghost order: seq<Id>) returns (run: GraphRun)
      requires Fit(cfg, order, runId) && store.Valid()
      requires !IsTerminalRun(store.runRows[runId].status) && (recover || NoOrphans(store.Rows(runId)))
      modifies store`runRows
      ensures fresh(run) && run.runId == runId && (forall id | id in run.nodes :: fresh(run.nodes[id]))
      ensures run.templateId == old(store.runRows)[runId].templateId
      ensures run.View() == if recover then Recover(Load(cfg, store.Rows(runId))) else Load(cfg, store.Rows(runId))
      ensures Enterable(cfg, store, run) && store.Elsewhere(runId) == old(store.Elsewhere(runId))
    {
      if recover {
        run := store.ResumeRun(runId, cfg);
        ResumeEntry(cfg, store.Rows(runId));
      } else {
        run := store.LoadRun(runId, cfg);
        StartEntry(cfg, store.Rows(runId));
      }
      run.KeysOf();
    }

    // `start` and `resume` on a run that has not ended.
    method RunStored(runId: string, recover: bool, cfg: Config, world: World, ghost order: seq<Id>)
      returns (end: End, run: GraphRun, ghost start: Nodes)
      requires Fit(cfg, order, runId) && store.Valid() && Serves(world)
      requires !IsTerminalRun(store.runRows[runId].status) && (recover || NoOrphans(store.Rows(runId)))
      modifies store
      ensures start == if recover then old(Recover(Load(cfg, store.Rows(runId)))) else old(Load(cfg, store.Rows(runId)))
      ensures fresh(run) && run.runId == runId && run.templateId == old(store.runRows)[runId].templateId
      ensures start.Keys == cfg.specs.Keys && AsEvaluated(cfg, env, run, end, start, order)
      ensures Left(cfg, env, store, run, end, old(store.Rows(runId)))
      ensures store.Valid() && store.Elsewhere(runId) == old(store.Elsewhere(runId))
      ensures end == Paused ==> exists tick :: world.cancelled(tick)
    {
      run := LoadEntry(runId, recover, cfg, order);
      start := run.View();
      end := RunLoop(run, cfg, world, order);
      store.ValidApart(runId);
    }

    /** The run id is unknown, or its template is; the run is then not looked at. */
    ghost predicate Missing(runId: string)
      reads this, store
    {
      runId !in store.runRows || store.runRows[runId].templateId !in templates
    }

    /** A stored run that `create`, the scheduler and `retry` may have left: its rows can be loaded. */
    ghost predicate Loadable(runId: string)
      reads this, store
    {
      !Missing(runId) ==> Hosted(runId) && RowsOk(ConfigOf(runId), store.Rows(runId))
    }

    /** The loop ran from `start`, under the run's own configuration, to what the evaluator says. */
    ghost predicate RanFrom(cfg: Config, order: seq<Id>, runId: string, outcome: Outcome, run: GraphRun?, start: Nodes)
      reads store, run, if run != null then run.nodes.Values else {}
    {
      outcome.LoopEnded? ==>
        && run != null && Fit(cfg, order, runId) && start.Keys == cfg.specs.Keys
        && AsEvaluated(cfg, env, run, outcome.end, start, order) && store.runRows[runId].status == run.state
    }

    static function RowsIn(nodeRows: map<string, Nodes>, runId: string): Nodes {
      if runId in nodeRows then nodeRows[runId] else map[]
    }

    /**
     * What every call on a run keeps of what was stored before it: all other runs, the run's template and inputs and
     * each of its successes; and the store stays valid and the run loadable.
     */
    ghost predicate Keeps(runId: string, runRows: map<string, RunRow>, nodeRows: map<string, Nodes>)
      reads this, store
    {
      && store.Valid() && Loadable(runId)
      && store.Elsewhere(runId) == (nodeRows - {runId}, runRows - {runId})
      && SuccessesKept(RowsIn(nodeRows, runId), store.Rows(runId))
      && (runId in store.runRows <==> runId in runRows)
      && (runId in runRows ==>
            && store.runRows[runId].templateId == runRows[runId].templateId
            && store.runRows[runId].inputs == runRows[runId].inputs)
    }

    // A run whose row names the same template and inputs is executed with the same configuration.
    lemma StaysLoadable(cfg: Config, run: GraphRun, row: RunRow)
      requires row.templateId in templates
      requires templates[row.templateId].inputs.Keys <= row.inputs.Keys && cfg.inputs == row.inputs
      requires cfg == ConfigFor(templates[row.templateId], row.inputs, maxConcurrency, repairers)
      requires run.templateId == row.templateId && LeftLoadable(cfg, store, run)
      ensures Hosted(run.runId) && ConfigOf(run.runId) == cfg && Loadable(run.runId)
      ensures store.runRows[run.runId].templateId == row.templateId && store.runRows[run.runId].inputs == row.inputs
    {
    }

    /** Tools that yield every referenced key, on successes that carry theirs. */
    ghost predicate Provided(cfg: Config, rows: Nodes) {
      Generous(cfg.specs, env) && Supplied(cfg.specs, rows)
    }

    method Lookup(runId: string) returns (outcome: Outcome, cfg: Config, ghost order: seq<Id>)
      requires Valid() && store.Valid() && Loadable(runId)
      ensures Missing(runId) <==> outcome.UnknownRun? || outcome.UnknownTemplate?
      ensures outcome.AlreadyEnded? <==> !Missing(runId) && IsTerminalRun(store.runRows[runId].status)
      ensures !outcome.IllegalRetry?
      ensures !Missing(runId) ==> Hosted(runId) && cfg == ConfigOf(runId) && Fit(cfg, order, runId)
      ensures !Missing(runId) ==> RunsOwn(cfg, store.runRows, runId)
      ensures outcome.LoopEnded? ==> !Missing(runId) && !IsTerminalRun(store.runRows[runId].status)
    {
      cfg, order := Config(map[], [], map[], 1, []), [];
      if runId !in store.runRows { return UnknownRun, cfg, order; }
      if store.runRows[runId].templateId !in templates { return UnknownTemplate, cfg, order; }
      cfg, order := ConfigOf(runId), orders[store.runRows[runId].templateId];
      HostedConfig(runId);
      outcome := if IsTerminalRun(store.runRows[runId].status) then AlreadyEnded else LoopEnded(Done);
    }

    // `start` and `resume` on a run that is there and has not ended.
    method RunKept(runId: string, recover: bool, cfg: Config, world: World, ghost order: seq<Id>)
      returns (outcome: Outcome, run: GraphRun, ghost start: Nodes)
      requires Valid() && store.Valid() && Hosted(runId) && cfg == ConfigOf(runId)
      requires Fit(cfg, order, runId) && Serves(world)
      requires !IsTerminalRun(store.runRows[runId].status) && (recover || NoOrphans(store.Rows(runId)))
      modifies store
      ensures outcome.LoopEnded? && RanFrom(cfg, order, runId, outcome, run, start)
      ensures start == if recover then old(Recover(Load(cfg, store.Rows(runId)))) else old(Load(cfg, store.Rows(runId)))
      ensures outcome.end.Paused? ==> exists tick :: world.cancelled(tick)
      ensures Keeps(runId, old(store.runRows), old(store.nodeRows))
      ensures outcome.end.Done? || (outcome.end.Paused? && !recover) ==> NoOrphans(store.Rows(runId))
      ensures Provided(cfg, old(store.Rows(runId))) ==> !outcome.end.Aborted? && Provided(cfg, store.Rows(runId))
    {
      ghost var row := store.runRows[runId];
      var end;
      end, run, start := RunStored(runId, recover, cfg, world, order);
      StaysLoadable(cfg, run, row);
      outcome := LoopEnded(end);
    }

    /**
     * `start`: a run that has ended is left alone; any other is loaded as it stands and run to an end. Rows that are
     * still Running or Repairing belong to a process that died, and are for `resume`: with them the loop never ends.
     */
    method Start(runId: string, world: World)
      returns (outcome: Outcome, run: GraphRun?, ghost cfg: Config, ghost order: seq<Id>, ghost start: Nodes)
      requires Valid() && store.Valid() && Loadable(runId) && Serves(world) && NoOrphans(store.Rows(runId))
      modifies store
      ensures old(Missing(runId)) <==> outcome.UnknownRun? || outcome.UnknownTemplate?
      ensures outcome.AlreadyEnded? <==> !old(Missing(runId)) && IsTerminalRun(old(store.runRows)[runId].status)
      ensures !outcome.IllegalRetry?
      ensures !outcome.LoopEnded? ==> store.runRows == old(store.runRows) && store.nodeRows == old(store.nodeRows)
      ensures outcome.LoopEnded? ==> old(Hosted(runId)) && cfg == old(ConfigOf(runId))
      ensures outcome.LoopEnded? ==> RunsOwn(cfg, old(store.runRows), runId)
      ensures outcome.LoopEnded? ==> start == Load(cfg, old(store.Rows(runId)))
      ensures RanFrom(cfg, order, runId, outcome, run, start)
      ensures DidPause(outcome) ==> exists tick :: world.cancelled(tick)
      ensures Keeps(runId, old(store.runRows), old(store.nodeRows))
      ensures DidAbort(outcome) || NoOrphans(store.Rows(runId))
      ensures outcome.LoopEnded? && Provided(cfg, old(store.Rows(runId))) ==>
                !outcome.end.Aborted? && Provided(cfg, store.Rows(runId))
    {
      var config;
      run, start := null, map[];
      outcome, config, order := Lookup(runId);
      cfg := config;
      if outcome.LoopEnded? {
        outcome, run, start := RunKept(runId, false, config, world, order);
      }
    }

    /** No cancel event is passed on by `resume` and `retry`. */
    static function Quiet(world: World): World { World(_ => false, world.done) }

    lemma QuietServes(world: World)
      requires Serves(world)
      ensures Serves(Quiet(world))
    {
      forall tick: nat, futures: set<nat>
        ensures SomeDone(Quiet(world), tick, futures) <==> SomeDone(world, tick, futures)
      {
      }
      forall tick: nat, futures: set<nat> | futures != {} && !useAsyncio
        ensures DoneLater(Quiet(world), tick, futures)
      {
        assert DoneLater(world, tick, futures);
        var later: nat :| tick <= later && SomeDone(world, later, futures);
        assert SomeDone(Quiet(world), later, futures);
      }
    }

    /** `resume`: as `start`, but the in-flight records of a process that died go back to Pending first. */
    method Resume(runId: string, world: World)
      returns (outcome: Outcome, run: GraphRun?, ghost cfg: Config, ghost order: seq<Id>, ghost start: Nodes)
      requires Valid() && store.Valid() && Loadable(runId) && Serves(world)
      modifies store
      ensures old(Missing(runId)) <==> outcome.UnknownRun? || outcome.UnknownTemplate?
      ensures outcome.AlreadyEnded? <==> !old(Missing(runId)) && IsTerminalRun(old(store.runRows)[runId].status)
      ensures !outcome.IllegalRetry? && !DidPause(outcome)
      ensures !outcome.LoopEnded? ==> store.runRows == old(store.runRows) && store.nodeRows == old(store.nodeRows)
      ensures outcome.LoopEnded? ==> old(Hosted(runId)) && cfg == old(ConfigOf(runId))
      ensures outcome.LoopEnded? ==> RunsOwn(cfg, old(store.runRows), runId)
      ensures outcome.LoopEnded? ==> start == Recover(Load(cfg, old(store.Rows(runId))))
      ensures RanFrom(cfg, order, runId, outcome, run, start)
      ensures Keeps(runId, old(store.runRows), old(store.nodeRows))
      ensures outcome.LoopEnded? && outcome.end.Done? ==> NoOrphans(store.Rows(runId))
      ensures outcome.LoopEnded? && Provided(cfg, old(store.Rows(runId))) ==>
                !outcome.end.Aborted? && Provided(cfg, store.Rows(runId))
    {
      var config;
      run, start := null, map[];
      outcome, config, order := Lookup(runId);
      cfg := config;
      if outcome.LoopEnded? {
        QuietServes(world);
        outcome, run, start := RunKept(runId, true, config, Quiet(world), order);
      }
    }

    /** `run_template`: create, then start; false when the template or an input is unknown. */
    method RunTemplate(templateId: string, inputs: Params, runId: string, world: World)
      returns (ok: bool, outcome: Outcome, run: GraphRun?, ghost cfg: Config, ghost order: seq<Id>, ghost start: Nodes)
      requires Valid() && store.Valid() && Serves(world) && store.Rows(runId) == map[]
      modifies store
      ensures ok <==> templateId in templates && inputs.Keys <= templates[templateId].inputs.Keys
      ensures !ok ==> store.runRows == old(store.runRows) && store.nodeRows == old(store.nodeRows)
      ensures ok ==> outcome.LoopEnded? && start == Load(cfg, map[]) && RanFrom(cfg, order, runId, outcome, run, start)
      ensures ok ==>
                var t := templates[templateId];
                && cfg == ConfigFor(t, t.inputs + inputs, maxConcurrency, repairers)
                && Executes(cfg, t, t.inputs + inputs, maxConcurrency, repairers)
      ensures ok ==> store.Valid() && Loadable(runId) && store.Elsewhere(runId) == old(store.Elsewhere(runId))
      ensures DidPause(outcome) ==> exists tick :: world.cancelled(tick)
      ensures ok ==> DidAbort(outcome) || NoOrphans(store.Rows(runId))
      ensures ok && Generous(cfg.specs, env) ==> !DidAbort(outcome) && Supplied(cfg.specs, store.Rows(runId))
    {
      outcome, run, cfg, order, start := UnknownTemplate, null, Config(map[], [], map[], 1, []), [], map[];
      ok := Create(templateId, inputs, runId);
      if ok {
        outcome, run, cfg, order, start := Start(runId, world);
      }
    }

    // The nodes a retry without ids goes for.
    method FailedNodes(run: GraphRun, cfg: Config, ghost rows: Nodes) returns (ids: seq<Id>)
      requires run.View() == Load(cfg, rows)
      requires forall id :: id in cfg.listing <==> id in cfg.specs
      requires Distinct(cfg.listing)
      ensures DefaultTargets(cfg, rows, ids)
    {
      run.KeysOf();
      ids := [];
      for k := 0 to |cfg.listing|
        invariant Distinct(ids)
        invariant forall id :: id in ids <==> id in cfg.listing[..k] && FailedOrBlocked(Load(cfg, rows), id)
      {
        var id := cfg.listing[k];
        assert id in cfg.listing && id !in cfg.listing[..k];
        assert run.nodes[id].View() == run.View()[id];
        if run.nodes[id].state == Failed || run.nodes[id].state == Blocked { ids := ids + [id]; }
        assert cfg.listing[..k + 1] == cfg.listing[..k] + [id];
      }
      assert cfg.listing[..|cfg.listing|] == cfg.listing;
    }

    static predicate FailedOrBlocked(nodes: Nodes, id: Id) {
      StateOf(nodes, id) == Failed || StateOf(nodes, id) == Blocked
    }

    /** What `retry` resets: the nodes it was given, or every Failed and Blocked one. */
    static ghost predicate RetryTargets(cfg: Config, rows: Nodes, ids: seq<Id>, targets: seq<Id>) {
      if ids == [] then DefaultTargets(cfg, rows, targets) else targets == ids
    }

    method ChooseTargets(run: GraphRun, cfg: Config, ids: seq<Id>, ghost rows: Nodes) returns (goal: seq<Id>)
      requires run.View() == Load(cfg, rows)
      requires forall id :: id in cfg.listing <==> id in cfg.specs
      requires Distinct(cfg.listing)
      ensures RetryTargets(cfg, rows, ids, goal)
    {
      goal := ids;
      if ids == [] { goal := FailedNodes(run, cfg, rows); }
    }

    static function Validated(runId: string, runRows: map<string, RunRow>): map<string, RunRow>
      requires runId in runRows
    {
      runRows[runId := runRows[runId].(status := RunValidated)]
    }

    // The record of a node after a legal reset; memory and the row change together.
    method ResetNodeRun(run: GraphRun, node: NodeRun) returns (legal: bool)
      requires run.Valid() && node.nodeId in run.nodes && run.nodes[node.nodeId] == node
      modifies node, store`nodeRows
      ensures legal <==> CanTransition(old(node.state), Pending)
      ensures node.View() == if legal then ResetNode(old(node.View())) else old(node.View())
      ensures run.Valid() && run.View() == old(run.View())[node.nodeId := node.View()]
      ensures var rows := old(store.Rows(run.runId));
              store.Rows(run.runId) == if legal then rows[node.nodeId := Row(node.View())] else rows
      ensures old(store.Valid()) ==> store.Valid()
      ensures !legal ==> store.nodeRows == old(store.nodeRows)
      ensures store.Elsewhere(run.runId) == old(store.Elsewhere(run.runId))
    {
      legal := node.Transition(Pending);
      if legal {
        node.attempt, node.repairAttempts, node.params, node.paramsResolved := 0, 0, map[], false;
        store.SaveNodeRun(run, node);
      }
      if old(store.Valid()) { store.ValidApart(run.runId); }
      run.OnlyChanged(node.nodeId);
    }

    // One round of `retry`'s loop: an illegal transition or an unknown node raises before anything is written.
    method ResetOne(run: GraphRun, cfg: Config, id: Id) returns (legal: bool)
      requires run.Valid() && run.View() == Load(cfg, store.Rows(run.runId)) && store.Valid()
      modifies run.nodes.Values, store`nodeRows
      ensures legal <==> CanReset(cfg, old(store.Rows(run.runId)), id)
      ensures !legal ==> store.nodeRows == old(store.nodeRows)
      ensures legal ==> store.Rows(run.runId) == ResetRow(cfg, old(store.Rows(run.runId)), id)
      ensures store.Valid() && (legal ==> run.View() == Load(cfg, store.Rows(run.runId)))
      ensures store.Elsewhere(run.runId) == old(store.Elsewhere(run.runId))
    {
      run.KeysOf();
      if id !in run.nodes { return false; }
      ghost var rows := store.Rows(run.runId);
      assert run.nodes[id].View() == Load(cfg, rows)[id] by { assert run.nodes[id].View() == run.View()[id]; }
      legal := ResetNodeRun(run, run.nodes[id]);
      if legal { LoadUpdate(cfg, rows, id, ResetNode(Load(cfg, rows)[id])); }
    }

    method ResetAll(run: GraphRun, cfg: Config, ids: seq<Id>) returns (legal: bool)
      requires run.Valid() && run.View() == Load(cfg, store.Rows(run.runId)) && store.Valid()
      modifies run.nodes.Values, store`nodeRows
      ensures store.Valid() && store.Rows(run.runId) == ResetRows(cfg, old(store.Rows(run.runId)), ids)
      ensures legal <==> ResetCount(cfg, old(store.Rows(run.runId)), ids) == |ids|
      ensures var rows := old(store.Rows(run.runId));
              Rules.RetryRule(cfg, rows, ids, ResetCount(cfg, rows, ids), store.Rows(run.runId))
      ensures store.Elsewhere(run.runId) == old(store.Elsewhere(run.runId))
    {
      ghost var rows := store.Rows(run.runId);
      Rules.RetryFollows(cfg, rows, ids);
      var k := 0;
      while k < |ids|
        invariant 0 <= k <= |ids| && store.Valid()
        invariant run.View() == Load(cfg, store.Rows(run.runId))
        invariant store.Elsewhere(run.runId) == old(store.Elsewhere(run.runId))
        invariant ResetRows(cfg, rows, ids) == ResetRows(cfg, store.Rows(run.runId), ids[k..])
        invariant ResetCount(cfg, rows, ids) == k + ResetCount(cfg, store.Rows(run.runId), ids[k..])
      {
        assert ids[k..][0] == ids[k] && ids[k..][1..] == ids[k + 1..];
        legal := ResetOne(run, cfg, ids[k]);
        if !legal { return; }
        k := k + 1;
      }
      legal := true;
    }

    /**
     * `retry`: the named nodes, or every Failed and Blocked one, are reset row by row, then the run starts again.
     * An illegal reset raises after the resets before it have been written, and the run does not start.
     */
    method Retry(runId: string, ids: seq<Id>, world: World)
      returns (outcome: Outcome, run: GraphRun?, ghost cfg: Config, ghost order: seq<Id>, ghost start: Nodes,
          ghost targets: seq<Id>)
      requires Valid() && store.Valid() && Loadable(runId) && Serves(world) && NoOrphans(store.Rows(runId))
      modifies store
      ensures old(Missing(runId)) <==> outcome.UnknownRun? || outcome.UnknownTemplate?
      ensures !outcome.AlreadyEnded? && !DidPause(outcome)
      ensures !old(Missing(runId)) ==> old(Hosted(runId)) && cfg == old(ConfigOf(runId))
      ensures !old(Missing(runId)) ==> RunsOwn(cfg, old(store.runRows), runId)
      ensures !old(Missing(runId)) ==> RetryTargets(cfg, old(store.Rows(runId)), ids, targets)
      ensures outcome.IllegalRetry? <==>
                !old(Missing(runId)) && ResetCount(cfg, old(store.Rows(runId)), targets) < |targets|
      ensures outcome.IllegalRetry? ==> store.Rows(runId) == ResetRows(cfg, old(store.Rows(runId)), targets)
      ensures outcome.IllegalRetry? ==> store.runRows == old(store.runRows)
      ensures outcome.LoopEnded? ==> start == Load(cfg, ResetRows(cfg, old(store.Rows(runId)), targets))
      ensures RanFrom(cfg, order, runId, outcome, run, start)
      ensures Keeps(runId, old(store.runRows), old(store.nodeRows))
      ensures DidAbort(outcome) || NoOrphans(store.Rows(runId))
      ensures outcome.LoopEnded? && Provided(cfg, old(store.Rows(runId))) ==>
                !outcome.end.Aborted? && Provided(cfg, store.Rows(runId))
    {
      var config;
      run, start, targets := null, map[], [];
      outcome, config, order := Lookup(runId);
      cfg := config;
      if outcome.UnknownRun? || outcome.UnknownTemplate? { return; }
      outcome, run, start, targets := RetryHosted(runId, config, ids, world, order);
    }

    // `retry` on a run that is there.
    method RetryHosted(runId: string, cfg: Config, ids: seq<Id>, world: World, ghost order: seq<Id>)
      returns (outcome: Outcome, run: GraphRun?, ghost start: Nodes, ghost targets: seq<Id>)
      requires Valid() && store.Valid() && Hosted(runId) && cfg == ConfigOf(runId)
      requires Fit(cfg, order, runId) && Serves(world)
      requires NoOrphans(store.Rows(runId))
      modifies store
      ensures RetryTargets(cfg, old(store.Rows(runId)), ids, targets)
      ensures outcome.IllegalRetry? || (outcome.LoopEnded? && !outcome.end.Paused?)
      ensures outcome.IllegalRetry? <==> ResetCount(cfg, old(store.Rows(runId)), targets) < |targets|
      ensures outcome.IllegalRetry? ==> store.Rows(runId) == ResetRows(cfg, old(store.Rows(runId)), targets)
      ensures outcome.IllegalRetry? ==> store.runRows == old(store.runRows)
      ensures outcome.LoopEnded? ==> start == Load(cfg, ResetRows(cfg, old(store.Rows(runId)), targets))
      ensures RanFrom(cfg, order, runId, outcome, run, start)
      ensures Keeps(runId, old(store.runRows), old(store.nodeRows))
      ensures DidAbort(outcome) || NoOrphans(store.Rows(runId))
      ensures outcome.LoopEnded? && Provided(cfg, old(store.Rows(runId))) ==>
                !outcome.end.Aborted? && Provided(cfg, store.Rows(runId))
    {
      ghost var runRows, nodeRows, rows := store.runRows, store.nodeRows, store.Rows(runId);
      var legal;
      legal, targets := ResetHosted(runId, cfg, ids, order);
      StillFit(cfg, order, runId, runRows, nodeRows);
      if legal {
        outcome, run, start := RunReset(runId, cfg, world, order, runRows, nodeRows);
      } else {
        outcome, run, start := IllegalRetry, null, map[];
      }
    }

    // The start after a legal retry, seen from the store before its resets.
    method RunReset(runId: string, cfg: Config, world: World, ghost order: seq<Id>,
                    ghost runRows: map<string, RunRow>, ghost nodeRows: map<string, Nodes>)
      returns (outcome: Outcome, run: GraphRun, ghost start: Nodes)
      requires Valid() && Hosted(runId) && cfg == ConfigOf(runId) && Fit(cfg, order, runId) && Serves(world)
      requires store.runRows[runId].status == RunValidated && NoOrphans(store.Rows(runId))
      requires runId in runRows && Keeps(runId, runRows, nodeRows)
      modifies store
      ensures outcome.LoopEnded? && !outcome.end.Paused? && RanFrom(cfg, order, runId, outcome, run, start)
      ensures start == old(Load(cfg, store.Rows(runId)))
      ensures Keeps(runId, runRows, nodeRows) && (outcome.end.Aborted? || NoOrphans(store.Rows(runId)))
      ensures Provided(cfg, old(store.Rows(runId))) ==> !outcome.end.Aborted? && Provided(cfg, store.Rows(runId))
    {
      ghost var runRows', nodeRows' := store.runRows, store.nodeRows;
      QuietServes(world);
      outcome, run, start := RunKept(runId, false, cfg, Quiet(world), order);
      KeepsFrom(runId, runRows, nodeRows, runRows', nodeRows');
    }

    static predicate Apart(runId: string, a: (map<string, Nodes>, map<string, RunRow>),
                           b: (map<string, Nodes>, map<string, RunRow>)) {
      a.0 - {runId} == b.0 - {runId} && a.1 - {runId} == b.1 - {runId}
    }

    // What a call keeps of the store it finds, it keeps of an earlier one that had the same successes and other runs.
    lemma KeepsFrom(runId: string, runRows: map<string, RunRow>, nodeRows: map<string, Nodes>,
                    runRows': map<string, RunRow>, nodeRows': map<string, Nodes>)
      requires Keeps(runId, runRows', nodeRows') && Apart(runId, (nodeRows', runRows'), (nodeRows, runRows))
      requires SuccessesKept(RowsIn(nodeRows, runId), RowsIn(nodeRows', runId))
      requires runId in runRows && runId in runRows'
      requires runRows'[runId].templateId == runRows[runId].templateId
      requires runRows'[runId].inputs == runRows[runId].inputs
      ensures Keeps(runId, runRows, nodeRows)
    {
    }

    lemma SameRow(cfg: Config, runId: string, row: RunRow)
      requires row.templateId in templates && templates[row.templateId].inputs.Keys <= row.inputs.Keys
      requires cfg == ConfigFor(templates[row.templateId], row.inputs, maxConcurrency, repairers)
      requires runId in store.runRows && RowsOk(cfg, store.Rows(runId))
      requires store.runRows[runId].templateId == row.templateId && store.runRows[runId].inputs == row.inputs
      ensures Hosted(runId) && ConfigOf(runId) == cfg && Loadable(runId)
    {
    }

    // A run that kept its template and inputs is still fit for the configuration it had.
    lemma StillFit(cfg: Config, order: seq<Id>, runId: string,
                   runRows: map<string, RunRow>, nodeRows: map<string, Nodes>)
      requires runId in runRows && Keeps(runId, runRows, nodeRows)
      requires WellFormed(cfg) && WellBound(cfg) && Ordered(cfg, order) && cfg.inputs == runRows[runId].inputs
      requires runRows[runId].templateId in templates
      requires var row := runRows[runId];
               cfg == ConfigFor(templates[row.templateId], row.inputs, maxConcurrency, repairers)
      ensures Hosted(runId) && cfg == ConfigOf(runId) && Fit(cfg, order, runId)
    {
    }

    // The resets of a retry leave a run that can be started, with everything else as it was.
    method ResetHosted(runId: string, cfg: Config, ids: seq<Id>, ghost order: seq<Id>)
      returns (legal: bool, ghost targets: seq<Id>)
      requires Valid() && store.Valid() && Hosted(runId) && cfg == ConfigOf(runId) && Fit(cfg, order, runId)
      requires NoOrphans(store.Rows(runId))
      modifies store
      ensures RetryTargets(cfg, old(store.Rows(runId)), ids, targets)
      ensures legal <==> ResetCount(cfg, old(store.Rows(runId)), targets) == |targets|
      ensures store.Rows(runId) == ResetRows(cfg, old(store.Rows(runId)), targets)
      ensures store.runRows == if legal then Validated(runId, old(store.runRows)) else old(store.runRows)
      ensures NoOrphans(store.Rows(runId)) && Keeps(runId, old(store.runRows), old(store.nodeRows))
      ensures Provided(cfg, old(store.Rows(runId))) ==> Provided(cfg, store.Rows(runId))
    {
      ghost var rows, row := store.Rows(runId), store.runRows[runId];
      legal, targets := ResetForRetry(runId, cfg, order, ids);
      ResetRowsOk(cfg, rows, targets);
      ResetKeepsSuccesses(cfg, rows, targets);
      SameRow(cfg, runId, row);
      if Supplied(cfg.specs, rows) { ResetKeepsSupply(cfg, rows, targets); }
    }

    // `retry` up to its final `start`.
    method ResetForRetry(runId: string, cfg: Config, ghost order: seq<Id>, ids: seq<Id>)
      returns (legal: bool, ghost targets: seq<Id>)
      requires Fit(cfg, order, runId) && store.Valid()
      modifies store
      ensures store.Valid() && store.Rows(runId) == ResetRows(cfg, old(store.Rows(runId)), targets)
      ensures RetryTargets(cfg, old(store.Rows(runId)), ids, targets)
      ensures legal <==> ResetCount(cfg, old(store.Rows(runId)), targets) == |targets|
      ensures store.runRows == if legal then Validated(runId, old(store.runRows)) else old(store.runRows)
      ensures store.Elsewhere(runId) == old(store.Elsewhere(runId))
    {
      var run := store.LoadRun(runId, cfg);
      var goal := ChooseTargets(run, cfg, ids, store.Rows(runId));
      targets := goal;
      legal := ResetAll(run, cfg, goal);
      if legal { store.MarkValidated(run); }
    }
  }
}
