/** The dependency-driven scheduler loop, in its threaded and its asyncio form, on mutable records and a store. */
module Scheduler {
  import opened Values
  import opened States
  import opened CycleDetection
  import opened Graph
  import opened Binding
  import opened Machine
  import opened Safety
  import opened Evaluator
  import opened Schedule
  import opened Outcomes
  import opened Supply
  import opened Leaving
  import opened Rules
  import opened RunRecords
  import opened Store

  /** What a tick came to: go on, all nodes terminal and the run saved, or a binding that raised. */
  datatype Verdict = Continue | AllDone | Unbound

  /** How the loop ends: at a derived status, paused by a cancellation, or aborted by an unresolvable binding. */
  datatype End = Done | Paused | Aborted

  /** The environment of a run: when the cancel event is seen, and which of the futures are done at a tick. */
  datatype World = World(cancelled: nat -> bool, done: (nat, set<nat>) -> set<nat>)

  ghost predicate SomeDone(world: World, tick: nat, futures: set<nat>) {
    world.done(tick, futures) * futures != {}
  }

  ghost predicate DoneLater(world: World, tick: nat, futures: set<nat>) {
    exists later: nat :: tick <= later && SomeDone(world, later, futures)
  }

  /** Every tool returns: a set of futures does not stay unfinished for ever. */
  ghost predicate Fair(world: World) {
    forall tick: nat, futures: set<nat> | futures != {} :: DoneLater(world, tick, futures)
  }

  /** What `asyncio.wait` with FIRST_COMPLETED promises: it returns with at least one task done. */
  ghost predicate Eager(world: World) {
    forall tick: nat, futures: set<nat> | futures != {} :: SomeDone(world, tick, futures)
  }

  /** The loop's variant: work left, then whether it is idle, then ticks to wait for a completion. */
  datatype Patience = Patience(work: nat, idle: bool, wait: nat)

  ghost predicate Shorter(p: Patience, q: Patience) {
    p.work < q.work || (p.work == q.work && ((p.idle && !q.idle) || (p.idle == q.idle && p.wait < q.wait)))
  }

  /** What an ended run amounts to, in terms of the sequential evaluator. */
  ghost predicate AsEvaluated(cfg: Config, env: Env, run: GraphRun, end: End, start: Nodes, order: seq<Id>)
    requires WellFormed(cfg) && Ordered(cfg, order) && start.Keys == cfg.specs.Keys
    reads run, run.nodes.Values
  {
    var final := Evaluate(JobOf(cfg, env), start, order);
    && (end.Done? ==> run.View() == final && run.state == DetermineRunStatus(StatesOf(cfg, final))
                      && !SomeBindFailure(JobOf(cfg, env), start, final))
    && (end.Aborted? ==> SomeBindFailure(JobOf(cfg, env), start, final))
  }

  /** A loaded run that a scheduler of this configuration can enter its loop with. */
  ghost predicate Enterable(cfg: Config, store: SQLiteStateStore, run: GraphRun)
    reads run, run.nodes.Values, store
  {
    && WellFormed(cfg) && run.Valid() && run.nodes.Keys == cfg.specs.Keys && run.inputs == cfg.inputs
    && LoopEntry(cfg, Sys(true, run.View(), {}, store.Rows(run.runId), RunRunning))
  }

  /** The run's row is up to date, and its node rows can be loaded again. */
  ghost predicate LeftLoadable(cfg: Config, store: SQLiteStateStore, run: GraphRun)
    reads run, store
  {
    && run.runId in store.runRows && run.inputs == cfg.inputs
    && store.runRows[run.runId] == RunRow(run.templateId, run.state, run.inputs)
    && RowsOk(cfg, store.Rows(run.runId))
  }

  /** What a caller may rely on after the loop, whichever form it took, given the rows before it. */
  ghost predicate Left(cfg: Config, env: Env, store: SQLiteStateStore, run: GraphRun, end: End, before: Nodes)
    reads run, store
  {
    var rows := store.Rows(run.runId);
    && LeftLoadable(cfg, store, run)
    && SuccessesKept(before, rows)
    && (end.Done? || (end.Paused? && NoOrphans(before)) ==> NoOrphans(rows))
    && (Generous(cfg.specs, env) && Supplied(cfg.specs, before) ==> !end.Aborted? && Supplied(cfg.specs, rows))
  }

  class GraphScheduler {
    const store: SQLiteStateStore
    const cfg: Config
    const env: Env
    ghost const nodeRowsBefore: map<string, Nodes>
    ghost const runRowsBefore: map<string, RunRow>

    constructor (stateStore: SQLiteStateStore, config: Config, tools: Env)
      ensures store == stateStore && cfg == config && env == tools
      ensures nodeRowsBefore == store.nodeRows && runRowsBefore == store.runRows
    {
      store, cfg, env := stateStore, config, tools;
      nodeRowsBefore, runRowsBefore := stateStore.nodeRows, stateStore.runRows;
    }

    /** The scheduler has not touched any other run. */
    ghost predicate Apart(runId: string)
      reads store
    {
      store.Elsewhere(runId) == (nodeRowsBefore - {runId}, runRowsBefore - {runId})
    }

    /** The run is a run of this configuration, its row is up to date, and other runs are left alone. */
    ghost predicate Linked(run: GraphRun)
      reads run, store
    {
      && Apart(run.runId)
      && run.Valid() && run.nodes.Keys == cfg.specs.Keys && run.inputs == cfg.inputs
      && run.runId in store.runRows && store.runRows[run.runId] == RunRow(run.templateId, run.state, run.inputs)
    }

    /** The system state the machine model speaks about. */
    ghost function Abs(run: GraphRun, flying: set<Id>): Sys
      reads run, run.nodes.Values, store
    {
      Sys(true, run.View(), flying, store.Rows(run.runId), run.state)
    }

    /** `process_blocked`: every transition it makes is legal. */
    method ProcessBlocked(run: GraphRun)
      requires SpecsOk(cfg) && run.Valid() && run.nodes.Keys == cfg.specs.Keys
      requires forall k | 0 <= k < |cfg.listing| :: cfg.listing[k] in cfg.specs
      modifies run.nodes.Values
      ensures run.View() == BlockPass(cfg, old(run.View()))
    {
      ghost var before := run.View();
      for k := 0 to |cfg.listing|
        invariant run.Valid() && run.nodes == old(run.nodes)
        invariant run.View() == BlockPrefix(cfg, before, k)
      {
        BlockListed(run, cfg.listing[k]);
      }
    }

    method BlockListed(run: GraphRun, id: Id)
      requires SpecsOk(cfg) && run.Valid() && run.nodes.Keys == cfg.specs.Keys && id in cfg.specs
      modifies run.nodes.Values
      ensures run.View() == BlockNode(cfg, old(run.View()), id)
    {
      assert SpecOk(cfg, id);
      var spec, node := cfg.specs[id], run.nodes[id];
      if node.state == Pending && exists d | d in spec.dependsOn :: IsDead(run.nodes[d].state) {
        assert HasDeadDep(spec, run.View());
        var legal := node.Transition(Blocked);
        assert legal;
        run.OnlyChanged(id);
      } else {
        assert node.state == Pending ==> !HasDeadDep(spec, run.View());
      }
    }

    /** `find_ready_nodes`, in template order. */
    method FindReadyNodes(run: GraphRun) returns (ready: seq<Id>)
      requires WellFormed(cfg) && run.Valid() && run.nodes.Keys == cfg.specs.Keys
      ensures Distinct(ready) && run.View() == old(run.View())
      ensures forall id :: id in ready <==> IsReady(cfg, run.View(), id)
    {
      ready := [];
      ghost var nodes := run.View();
      for k := 0 to |cfg.listing|
        invariant ReadyAmong(cfg, nodes, cfg.listing[..k], ready)
      {
        var id := cfg.listing[k];
        assert id in cfg.listing && SpecOk(cfg, id);
        var now := NodeIsReady(run, id);
        NextListed(cfg, nodes, k, ready, now);
        if now { ready := ready + [id]; }
      }
      assert cfg.listing[..|cfg.listing|] == cfg.listing;
    }

    /** `ready` lists the ready nodes among `ids`, without repeats. */
    static ghost predicate ReadyAmong(cfg: Config, nodes: Nodes, ids: seq<Id>, ready: seq<Id>) {
      Distinct(ready) && forall id :: id in ready <==> id in ids && IsReady(cfg, nodes, id)
    }

    static lemma NextListed(cfg: Config, nodes: Nodes, k: nat, ready: seq<Id>, now: bool)
      requires k < |cfg.listing| && Distinct(cfg.listing) && ReadyAmong(cfg, nodes, cfg.listing[..k], ready)
      requires now <==> IsReady(cfg, nodes, cfg.listing[k])
      ensures var more := if now then ready + [cfg.listing[k]] else ready;
              ReadyAmong(cfg, nodes, cfg.listing[..k + 1], more)
    {
      var id := cfg.listing[k];
      assert cfg.listing[..k + 1] == cfg.listing[..k] + [id] && id !in cfg.listing[..k];
    }

    method NodeIsReady(run: GraphRun, id: Id) returns (now: bool)
      requires run.Valid() && run.nodes.Keys == cfg.specs.Keys && id in cfg.specs && SpecOk(cfg, id)
      ensures now <==> IsReady(cfg, run.View(), id)
    {
      var spec, node := cfg.specs[id], run.nodes[id];
      now := node.state == Pending || node.state == Ready;
      now := now && forall d | d in spec.dependsOn :: run.nodes[d].state == Succeeded;
      assert forall d | d in spec.dependsOn :: StateOf(run.View(), d) == run.nodes[d].state;
    }

    /** `_prepare_dispatch`: false when the bindings do not resolve, and then nothing has changed. */
    method PrepareDispatch(run: GraphRun, id: Id) returns (ok: bool)
      requires run.Valid() && IsReady(cfg, run.View(), id)
      modifies run.nodes[id], store`nodeRows
      ensures ok <==> StartNode(cfg, old(run.View()), id).Some?
      ensures !ok ==> run.View() == old(run.View()) && store.nodeRows == old(store.nodeRows)
      ensures ok ==> var n := StartNode(cfg, old(run.View()), id).value;
                     run.View() == old(run.View())[id := n] &&
                     store.Rows(run.runId) == old(store.Rows(run.runId))[id := Row(n)]
      ensures store.Elsewhere(run.runId) == old(store.Elsewhere(run.runId))
    {
      ok := BindParams(run, id);
      if ok { MarkRunning(run, id); }
    }

    // Bindings are resolved once per run; later dispatches keep what repairs made of the parameters.
    method BindParams(run: GraphRun, id: Id) returns (ok: bool)
      requires run.Valid() && id in run.nodes && id in cfg.specs
      modifies run.nodes[id]
      ensures var n := old(run.View())[id];
              var bound := BoundParams(cfg.specs[id], cfg.inputs, n, old(run.View()));
              && (ok <==> bound.Some?)
              && run.View() ==
                 if ok then old(run.View())[id := n.(params := bound.value, resolved := true)] else old(run.View())
    {
      var spec, node := cfg.specs[id], run.nodes[id];
      ok := true;
      if !node.paramsResolved {
        var resolved := ResolveIn(run, spec.params);
        if resolved.None? { return false; }
        node.params := resolved.value;
        node.paramsResolved := true;
      }
      run.OnlyChanged(id);
    }

    method MarkRunning(run: GraphRun, id: Id)
      requires run.Valid() && id in run.nodes && Runnable(run.nodes[id].state)
      modifies run.nodes[id], store`nodeRows
      ensures var n := old(run.View())[id].(state := Running, attempt := old(run.View())[id].attempt + 1);
              run.View() == old(run.View())[id := n] &&
              store.Rows(run.runId) == old(store.Rows(run.runId))[id := Row(n)]
      ensures store.Elsewhere(run.runId) == old(store.Elsewhere(run.runId))
    {
      var node := run.nodes[id];
      node.attempt := node.attempt + 1;
      if node.state == Pending {
        var legal := node.Transition(Ready);
        assert legal;
      }
      var legal := node.Transition(Running);
      assert legal;
      store.SaveNodeRun(run, node);
      run.OnlyChanged(id);
    }

    // `resolve_params` reads the current records of the run.
    method ResolveIn(run: GraphRun, params: Params) returns (r: Option<Params>)
      requires run.Valid()
      ensures r == ResolveParams(params, cfg.inputs, run.View())
    {
      var current := map id | id in run.nodes :: ReadNode(run.nodes[id]);
      assert current == run.View();
      r := ResolveParams(params, cfg.inputs, current);
    }

    static function ReadNode(node: NodeRun): (n: Node)
      reads node
      ensures n == node.View()
    {
      Node(node.state, node.attempt, node.repairAttempts, node.params, node.paramsResolved, node.outputs)
    }

    /** `_handle_failure`: repair and requeue, plain retry, or final failure; every transition is legal. */
    method HandleFailure(run: GraphRun, id: Id, error: ToolError)
      requires run.Valid() && id in run.nodes && id in cfg.specs && run.nodes[id].state == Running
      modifies run.nodes[id], store`nodeRows
      ensures run.nodes[id].View() ==
              FinishNode(cfg.specs[id], cfg.repairers, old(run.nodes[id].View()), Failure(error),
                         env.repair(HandlerName(cfg.specs[id], cfg.repairers), id, old(run.nodes[id].View()), error))
      ensures OutcomeRule(cfg, id, old(run.nodes[id].View()), Failure(error),
                          AnswerOf(cfg, env, id, old(run.nodes[id].View()), error), run.nodes[id].View())
      ensures var row := Row(run.nodes[id].View());
              store.Rows(run.runId)[id := row] == old(store.Rows(run.runId))[id := row]
      ensures store.Elsewhere(run.runId) == old(store.Elsewhere(run.runId))
    {
      FailedNode(cfg, env, id, run.nodes[id].View(), error);
      var spec, node := cfg.specs[id], run.nodes[id];
      var before := ReadNode(node);
      var handler := RepairerFor(spec, cfg.repairers);
      if error.repairable && handler.Some? && node.repairAttempts < spec.maxRepairAttempts {
        var legal := node.Transition(Repairing);
        assert legal;
        store.SaveNodeRun(run, node);
        node.repairAttempts := node.repairAttempts + 1;
        var fix := env.repair(handler.value, id, before, error);
        node.params := fix.params;
        legal := node.Transition(if fix.requeue then Ready else Failed);
        assert legal;
        return;
      }
      var target := if node.attempt < spec.maxAttempts then Ready else Failed;
      var legal := node.Transition(target);
      assert legal;
    }

    /** `_finish`: a node cancelled in flight keeps its record; otherwise the outcome is applied and saved. */
    method Finish(run: GraphRun, id: Id, outcome: Outcome)
      requires run.Valid() && id in run.nodes && id in cfg.specs
      requires run.nodes[id].state == Running || IsTerminal(run.nodes[id].state)
      modifies run.nodes[id], store`nodeRows
      ensures IsTerminal(old(run.nodes[id].state)) ==>
                run.View() == old(run.View()) && store.nodeRows == old(store.nodeRows)
      ensures old(run.nodes[id].state) == Running ==>
                var n := FinishNode(cfg.specs[id], cfg.repairers, old(run.nodes[id].View()), outcome,
                                    FixFor(env, cfg.specs[id], cfg.repairers, id, old(run.nodes[id].View()), outcome));
                run.View() == old(run.View())[id := n] &&
                store.Rows(run.runId) == old(store.Rows(run.runId))[id := Row(n)]
      ensures store.Elsewhere(run.runId) == old(store.Elsewhere(run.runId))
    {
      var node := run.nodes[id];
      if IsTerminal(node.state) { return; }
      match outcome {
        case Success(outputs) =>
          node.outputs := outputs;
          var legal := node.Transition(Succeeded);
          assert legal;
        case Failure(error) =>
          HandleFailure(run, id, error);
      }
      store.SaveNodeRun(run, node);
      run.OnlyChanged(id);
    }

    /** `_cancel`: running in-flight nodes are cancelled and saved, and the run is paused. */
    method CancelRun(run: GraphRun, futures: map<nat, Id>)
      requires Linked(run) && futures.Values <= run.nodes.Keys
      modifies run`state, run.nodes.Values, store
      ensures Linked(run) && run.state == RunPaused
      ensures run.View() == CancelNodes(old(run.View()), futures.Values)
      ensures store.Rows(run.runId) == CancelRows(old(run.View()), old(store.Rows(run.runId)), futures.Values)
      ensures forall id | id in futures.Values :: run.nodes[id].state != Running
    {
      CancelFlying(run, futures.Values);
      PauseRun(run);
    }

    method PauseRun(run: GraphRun)
      requires Linked(run)
      modifies run`state, store`runRows
      ensures Linked(run) && run.state == RunPaused && run.View() == old(run.View())
      ensures store.Rows(run.runId) == old(store.Rows(run.runId))
    {
      run.state := RunPaused;
      store.SaveRun(run);
    }

    method CancelFlying(run: GraphRun, flying: set<Id>)
      requires run.Valid() && flying <= run.nodes.Keys
      modifies run.nodes.Values, store`nodeRows
      ensures run.View() == CancelNodes(old(run.View()), flying)
      ensures store.Rows(run.runId) == CancelRows(old(run.View()), old(store.Rows(run.runId)), flying)
      ensures store.Elsewhere(run.runId) == old(store.Elsewhere(run.runId))
    {
      ghost var before, rows := run.View(), store.Rows(run.runId);
      var done: set<Id> := {};
      CancelNone(before, rows);
      while flying - done != {}
        invariant done <= flying && run.Valid() && run.nodes == old(run.nodes)
        invariant run.View() == CancelNodes(before, done) && store.Rows(run.runId) == CancelRows(before, rows, done)
        invariant store.Elsewhere(run.runId) == old(store.Elsewhere(run.runId))
        decreases flying - done
      {
        var id :| id in flying - done;
        CancelOne(run, id, before, rows, done);
        done := done + {id};
      }
      forall x | x in flying ensures x in done { assert x !in flying - done; }
      assert done == flying;
    }

    method CancelOne(run: GraphRun, id: Id, ghost before: Nodes, ghost rows: Nodes, ghost done: set<Id>)
      requires run.Valid() && id in run.nodes && id !in done && before.Keys == run.nodes.Keys
      requires run.View() == CancelNodes(before, done) && store.Rows(run.runId) == CancelRows(before, rows, done)
      modifies run.nodes[id], store`nodeRows
      ensures run.View() == CancelNodes(before, done + {id})
      ensures store.Rows(run.runId) == CancelRows(before, rows, done + {id})
      ensures store.Elsewhere(run.runId) == old(store.Elsewhere(run.runId))
    {
      CancelMore(before, rows, done, id);
      var node := run.nodes[id];
      assert node.View() == run.View()[id];
      if node.state == Running {
        var legal := node.Transition(Cancelled);
        assert legal;
        store.SaveNodeRun(run, node);
        run.OnlyChanged(id);
      }
    }

    static lemma CancelNone(before: Nodes, rows: Nodes)
      ensures CancelNodes(before, {}) == before && CancelRows(before, rows, {}) == rows
    {
    }

    static lemma CancelMore(before: Nodes, rows: Nodes, done: set<Id>, id: Id)
      requires id in before && id !in done
      ensures CancelNodes(before, done)[id] == before[id]
      ensures CancelNodes(before, done + {id}) ==
              if before[id].state == Running then CancelNodes(before, done)[id := before[id].(state := Cancelled)]
              else CancelNodes(before, done)
      ensures CancelRows(before, rows, done + {id}) ==
              var rest := CancelRows(before, rows, done);
              if before[id].state == Running then rest[id := Row(before[id].(state := Cancelled))] else rest
    {
      CancelMoreRows(before, rows, done, id);
    }

    static lemma CancelMoreRows(before: Nodes, rows: Nodes, done: set<Id>, id: Id)
      requires id in before && id !in done
      ensures CancelRows(before, rows, done + {id}) ==
              var rest := CancelRows(before, rows, done);
              if before[id].state == Running then rest[id := Row(before[id].(state := Cancelled))] else rest
    {
      var row := Row(before[id].(state := Cancelled));
      if before[id].state == Running {
        assert WrittenByCancel(before, done + {id}) == WrittenByCancel(before, done)[id := row];
        MergeUpdate(rows, WrittenByCancel(before, done), id, row);
      } else {
        assert WrittenByCancel(before, done + {id}) == WrittenByCancel(before, done);
      }
    }

    static lemma MergeUpdate(a: Nodes, b: Nodes, id: Id, n: Node)
      ensures a + b[id := n] == (a + b)[id := n]
    {
    }

    // ------------------------------------------------------------------------------ one action, and the step it is

    /** What happened since loop entry in `s0` is the run `trace` of the machine, and it led to the present records. */
    ghost predicate Follows(run: GraphRun, flying: set<Id>, s0: Sys, trace: Trace)
      reads run, run.nodes.Values, store
    {
      Traced(cfg, env, trace) && EntryOf(trace) == s0 && trace.s == Abs(run, flying)
    }

    /** The run is linked to its rows, and a loop run from `s0` leads to the present records. */
    ghost predicate InLoop(run: GraphRun, flying: set<Id>, s0: Sys, trace: Trace)
      reads run, run.nodes.Values, store
    {
      Linked(run) && Follows(run, flying, s0, trace)
    }

    method BlockTick(run: GraphRun, ghost flying: set<Id>, ghost s0: Sys, ghost trace0: Trace)
      returns (ghost trace: Trace)
      requires InLoop(run, flying, s0, trace0)
      modifies run.nodes.Values
      ensures InLoop(run, flying, s0, trace)
      ensures run.View() == BlockPass(cfg, old(run.View()))
    {
      TraceFormed(cfg, env, trace0);
      ProcessBlocked(run);
      Advance(cfg, env, trace0, Block);
      trace := Then(trace0, Block, Abs(run, flying));
    }

    method DispatchStep(run: GraphRun, id: Id, ghost flying: set<Id>) returns (ok: bool)
      requires Linked(run) && IsReady(cfg, run.View(), id) && |flying| < cfg.maxConcurrency
      modifies run.nodes.Values, store`nodeRows
      ensures Linked(run)
      ensures ok ==> Enabled(cfg, old(Abs(run, flying)), Dispatch(id))
                     && Abs(run, flying + {id}) == Apply(cfg, old(Abs(run, flying)), Dispatch(id))
      ensures !ok ==> Abs(run, flying) == old(Abs(run, flying)) && StartNode(cfg, run.View(), id).None?
    {
      ok := PrepareDispatch(run, id);
    }

    method DispatchOne(run: GraphRun, id: Id, ghost flying: set<Id>, ghost s0: Sys, ghost trace0: Trace)
      returns (ok: bool, ghost trace: Trace)
      requires InLoop(run, flying, s0, trace0)
      requires IsReady(cfg, run.View(), id) && |flying| < cfg.maxConcurrency
      modifies run.nodes.Values, store`nodeRows
      ensures InLoop(run, if ok then flying + {id} else flying, s0, trace)
      ensures ok ==> Measure(cfg, run.View()) < old(Measure(cfg, run.View()))
      ensures ok ==> forall x :: IsReady(cfg, run.View(), x) <==> x != id && IsReady(cfg, old(run.View()), x)
      ensures !ok ==> run.View() == old(run.View()) && StartNode(cfg, run.View(), id).None?
    {
      ok := DispatchStep(run, id, flying);
      trace := trace0;
      if ok {
        Advance(cfg, env, trace0, Dispatch(id));
        trace := Then(trace0, Dispatch(id), Abs(run, flying + {id}));
        StillReady(cfg, trace0.s.nodes, id, run.View());
      }
    }

    static lemma StillReady(cfg: Config, before: Nodes, id: Id, after: Nodes)
      requires IsReady(cfg, before, id) && id in after && after == before[id := after[id]]
      requires after[id].state == Running
      ensures forall x :: IsReady(cfg, after, x) <==> x != id && IsReady(cfg, before, x)
    {
      assert forall d :: StateOf(after, d) == Succeeded <==> StateOf(before, d) == Succeeded;
    }

    /** A future is done: the tool's result, a function of the record and the upstream outputs, is applied. */
    method FinishStep(run: GraphRun, id: Id, ghost flying: set<Id>) returns (ghost step: Step)
      requires Linked(run) && id in cfg.specs && run.nodes[id].state == Running && id in flying
      modifies run.nodes.Values, store`nodeRows
      ensures Linked(run) && step.Finish? && step.id == id
      ensures Enabled(cfg, old(Abs(run, flying)), step) && LoopStep(cfg, env, old(Abs(run, flying)), step)
      ensures Abs(run, flying - {id}) == Apply(cfg, old(Abs(run, flying)), step)
    {
      ghost var before := Abs(run, flying);
      var n := ReadNode(run.nodes[id]);
      assert before.nodes[id] == n;
      var upstream := ReadUpstream(run, cfg.specs[id]);
      var outcome := env.tool(id, n, upstream);
      ghost var fix := FixFor(env, cfg.specs[id], cfg.repairers, id, n, outcome);
      step := Step.Finish(id, outcome, fix);
      Finish(run, id, outcome);
      FinishApplies(cfg, before, id, outcome, fix);
    }

    method FinishOne(run: GraphRun, id: Id, ghost flying: set<Id>, ghost s0: Sys, ghost trace0: Trace)
      returns (ghost trace: Trace)
      requires InLoop(run, flying, s0, trace0) && id in flying
      modifies run.nodes.Values, store`nodeRows
      ensures InLoop(run, flying - {id}, s0, trace)
      ensures Measure(cfg, run.View()) < old(Measure(cfg, run.View()))
    {
      TraceKeeps(cfg, env, trace0);
      FlyingIsRunning(cfg, trace0.s, id);
      assert run.nodes[id].View() == run.View()[id];
      ghost var step := FinishStep(run, id, flying);
      Advance(cfg, env, trace0, step);
      trace := Then(trace0, step, Abs(run, flying - {id}));
    }

    static method ReadUpstream(run: GraphRun, spec: NodeSpec) returns (upstream: map<Id, Outputs>)
      ensures upstream == Upstream(spec, run.View())
    {
      upstream := map d | d in spec.dependsOn && d in run.nodes :: run.nodes[d].outputs;
    }

    // ------------------------------------------------------------------------------ the futures dictionary

    /** No node is in flight twice. */
    static ghost predicate Slots(futures: map<nat, Id>, next: nat) {
      && (forall f | f in futures :: f < next)
      && (forall f, g | f in futures && g in futures && futures[f] == futures[g] :: f == g)
      && |futures| == |futures.Values|
    }

    static lemma AddSlot(futures: map<nat, Id>, next: nat, id: Id)
      requires Slots(futures, next) && id !in futures.Values
      ensures Slots(futures[next := id], next + 1)
      ensures futures[next := id].Values == futures.Values + {id} && |futures[next := id]| == |futures| + 1
    {
      AddedValues(futures, next, id);
    }

    static lemma AddedValues(futures: map<nat, Id>, next: nat, id: Id)
      requires next !in futures
      ensures futures[next := id].Values == futures.Values + {id}
    {
      var more := futures[next := id];
      assert more[next] == id;
      forall x | x in futures.Values
        ensures x in more.Values
      {
        var f :| f in futures && futures[f] == x;
        assert more[f] == x;
      }
    }

    static lemma FreeSlot(futures: map<nat, Id>, next: nat, f: nat)
      requires Slots(futures, next) && f in futures
      ensures Slots(futures - {f}, next) && (futures - {f}).Values == futures.Values - {futures[f]}
    {
      var less := futures - {f};
      assert less.Values == futures.Values - {futures[f]} by {
        forall x | x in futures.Values && x != futures[f]
          ensures x in less.Values
        {
          var g :| g in futures && futures[g] == x;
          assert less[g] == x;
        }
      }
      assert futures.Keys == less.Keys + {f};
    }

    /** A tick in progress: a loop run so far, and a futures dictionary without repeats. */
    ghost predicate Ticking(run: GraphRun, futures: map<nat, Id>, next: nat, s0: Sys, trace: Trace)
      reads run, run.nodes.Values, store
    {
      InLoop(run, futures.Values, s0, trace) && Slots(futures, next)
    }

    /** Some node is ready whose bindings do not resolve. */
    ghost predicate Unbindable(nodes: Nodes) {
      exists id :: IsReady(cfg, nodes, id) && StartNode(cfg, nodes, id).None?
    }

    lemma ReadyNotFlying(run: GraphRun, id: Id, flying: set<Id>, s0: Sys, trace: Trace)
      requires InLoop(run, flying, s0, trace) && IsReady(cfg, run.View(), id)
      ensures id !in flying
    {
      TraceKeeps(cfg, env, trace);
      if id in flying { FlyingIsRunning(cfg, Abs(run, flying), id); }
    }

    /** The ready nodes are exactly those from position `k` on. */
    ghost predicate StillToDispatch(nodes: Nodes, ready: seq<Id>, k: nat)
      requires k <= |ready|
    {
      forall x :: x in ready[k..] <==> IsReady(cfg, nodes, x)
    }

    lemma AllToDispatch(nodes: Nodes, ready: seq<Id>)
      requires forall id :: id in ready <==> IsReady(cfg, nodes, id)
      ensures StillToDispatch(nodes, ready, 0)
    {
      assert ready[0..] == ready;
    }

    lemma DispatchRest(before: Nodes, after: Nodes, ready: seq<Id>, k: nat)
      requires k < |ready| && Distinct(ready) && StillToDispatch(before, ready, k)
      requires forall x :: IsReady(cfg, after, x) <==> x != ready[k] && IsReady(cfg, before, x)
      ensures StillToDispatch(after, ready, k + 1)
    {
      assert ready[k..] == [ready[k]] + ready[k + 1..];
    }

    method DispatchInto(run: GraphRun, ready: seq<Id>, k: nat, futures0: map<nat, Id>, next: nat, ghost s0: Sys,
                        ghost trace0: Trace)
      returns (ok: bool, futures: map<nat, Id>, ghost trace: Trace)
      requires Ticking(run, futures0, next, s0, trace0) && |futures0| < cfg.maxConcurrency
      requires k < |ready| && Distinct(ready) && StillToDispatch(run.View(), ready, k)
      modifies run.nodes.Values, store`nodeRows
      ensures Ticking(run, futures, if ok then next + 1 else next, s0, trace)
      ensures ok ==> |futures| == |futures0| + 1 && StillToDispatch(run.View(), ready, k + 1)
      ensures ok ==> Measure(cfg, run.View()) < old(Measure(cfg, run.View()))
      ensures !ok ==> futures == futures0 && run.View() == old(run.View()) && Unbindable(run.View())
    {
      var id := ready[k];
      assert id in ready[k..];
      ghost var before := run.View();
      ReadyNotFlying(run, id, futures0.Values, s0, trace0);
      ok, trace := DispatchOne(run, id, futures0.Values, s0, trace0);
      futures := futures0;
      if ok {
        AddSlot(futures0, next, id);
        futures := futures0[next := id];
        DispatchRest(before, run.View(), ready, k);
      }
    }

    // What the dispatch part of a tick starts from: the ready nodes and the free slots.
    method ReadyAndSlots(run: GraphRun, futures: map<nat, Id>, ghost next: nat, ghost s0: Sys, ghost trace: Trace)
      returns (ready: seq<Id>, slots: nat)
      requires Ticking(run, futures, next, s0, trace)
      ensures Ticking(run, futures, next, s0, trace) && run.View() == old(run.View())
      ensures Distinct(ready) && StillToDispatch(run.View(), ready, 0)
      ensures |futures| + slots == cfg.maxConcurrency >= 1
    {
      SlotsFit(run, futures, next, s0, trace);
      TraceFormed(cfg, env, trace);
      slots := cfg.maxConcurrency - |futures|;
      ready := FindReadyNodes(run);
      AllToDispatch(run.View(), ready);
    }

    method DispatchAll(run: GraphRun, ready: seq<Id>, slots: nat, futures0: map<nat, Id>, next0: nat, ghost s0: Sys,
                       ghost trace0: Trace)
      returns (ok: bool, futures: map<nat, Id>, next: nat, ghost trace: Trace)
      requires Ticking(run, futures0, next0, s0, trace0) && |futures0| + slots <= cfg.maxConcurrency
      requires Distinct(ready) && StillToDispatch(run.View(), ready, 0)
      modifies run.nodes.Values, store`nodeRows
      ensures Ticking(run, futures, next, s0, trace)
      ensures !ok ==> Unbindable(run.View())
      ensures ok ==> |futures| == |futures0| + if |ready| < slots then |ready| else slots
      ensures ok && |futures| < |futures0| + slots ==> !AnyReady(cfg, run.View())
      ensures |futures| >= |futures0|
      ensures |futures| == |futures0| ==> futures == futures0 && run.View() == old(run.View())
      ensures |futures| != |futures0| ==> Measure(cfg, run.View()) < old(Measure(cfg, run.View()))
    {
      ok, futures, next, trace := true, futures0, next0, trace0;
      ghost var before := Measure(cfg, run.View());
      var k := 0;
      while k < |ready| && k < slots
        invariant 0 <= k <= |ready| && k <= slots && |futures| == |futures0| + k
        invariant Ticking(run, futures, next, s0, trace)
        invariant StillToDispatch(run.View(), ready, k)
        invariant k > 0 ==> Measure(cfg, run.View()) < before
        invariant k == 0 ==> futures == futures0 && run.View() == old(run.View())
      {
        ok, futures, trace := DispatchInto(run, ready, k, futures, next, s0, trace);
        if !ok { return; }
        next := next + 1;
        k := k + 1;
      }
    }

    /** The dispatch part of a tick: ready nodes as far as there are slots; none is left ready beside a free slot. */
    method FillSlots(run: GraphRun, futures0: map<nat, Id>, next0: nat, ghost s0: Sys, ghost trace0: Trace)
      returns (ok: bool, futures: map<nat, Id>, next: nat, ghost trace: Trace)
      requires Ticking(run, futures0, next0, s0, trace0)
      modifies run.nodes.Values, store`nodeRows
      ensures Ticking(run, futures, next, s0, trace)
      ensures !ok ==> Unbindable(run.View())
      ensures |futures| >= |futures0|
      ensures |futures| == |futures0| ==> futures == futures0 && run.View() == old(run.View())
      ensures |futures| != |futures0| ==> Measure(cfg, run.View()) < old(Measure(cfg, run.View()))
      ensures ok && |futures| < cfg.maxConcurrency ==> !AnyReady(cfg, run.View())
    {
      var ready, slots := ReadyAndSlots(run, futures0, next0, s0, trace0);
      ok, futures, next, trace := DispatchAll(run, ready, slots, futures0, next0, s0, trace0);
    }

    lemma SlotsFit(run: GraphRun, futures: map<nat, Id>, next: nat, s0: Sys, trace: Trace)
      requires Ticking(run, futures, next, s0, trace)
      ensures |futures| <= cfg.maxConcurrency && cfg.maxConcurrency >= 1
    {
      TraceKeeps(cfg, env, trace);
    }

    method FinishFrom(run: GraphRun, fut: nat, futures0: map<nat, Id>, next: nat, ghost s0: Sys, ghost trace0: Trace)
      returns (futures: map<nat, Id>, ghost trace: Trace)
      requires Ticking(run, futures0, next, s0, trace0) && fut in futures0
      modifies run.nodes.Values, store`nodeRows
      ensures Ticking(run, futures, next, s0, trace) && futures == futures0 - {fut}
      ensures Measure(cfg, run.View()) < old(Measure(cfg, run.View()))
    {
      var id := futures0[fut];
      FreeSlot(futures0, next, fut);
      trace := FinishOne(run, id, futures0.Values, s0, trace0);
      futures := futures0 - {fut};
    }

    /** The collection part of a tick: every future that is done is popped and finished. */
    method Collect(run: GraphRun, futures0: map<nat, Id>, next: nat, done: set<nat>, ghost s0: Sys, ghost trace0: Trace)
      returns (futures: map<nat, Id>, ghost trace: Trace)
      requires Ticking(run, futures0, next, s0, trace0) && done <= futures0.Keys
      modifies run.nodes.Values, store`nodeRows
      ensures Ticking(run, futures, next, s0, trace)
      ensures done == {} ==> futures == futures0 && run.View() == old(run.View())
      ensures done != {} ==> Measure(cfg, run.View()) < old(Measure(cfg, run.View()))
    {
      futures, trace := futures0, trace0;
      var todo := done;
      ghost var before, moved := Measure(cfg, run.View()), false;
      while todo != {}
        invariant Ticking(run, futures, next, s0, trace)
        invariant todo <= futures.Keys && (moved || todo == done)
        invariant moved ==> done != {} && Measure(cfg, run.View()) < before
        invariant !moved ==> futures == futures0 && run.View() == old(run.View())
        decreases todo
      {
        var fut :| fut in todo;
        futures, trace := FinishFrom(run, fut, futures, next, s0, trace);
        todo := todo - {fut};
        moved := true;
      }
    }

    /** The end of a run: derive the status from the node states and save it. */
    method CompleteRun(run: GraphRun)
      requires Linked(run)
      modifies run`state, store`runRows
      ensures Linked(run) && run.View() == old(run.View()) && store.Rows(run.runId) == old(store.Rows(run.runId))
      ensures run.state == DetermineRunStatus(StatesOf(cfg, run.View()))
    {
      var states := seq(|cfg.listing|, i requires 0 <= i < |cfg.listing| reads run, run.nodes.Values =>
        if cfg.listing[i] in run.nodes then run.nodes[cfg.listing[i]].state else Pending);
      assert states == StatesOf(cfg, run.View());
      run.state := DetermineRunStatus(states);
      store.SaveRun(run);
    }

    method EnterLoop(run: GraphRun)
      requires run.Valid() && run.nodes.Keys == cfg.specs.Keys && run.inputs == cfg.inputs && Apart(run.runId)
      modifies run`state, store`runRows
      ensures Linked(run) && run.state == RunRunning
      ensures run.View() == old(run.View()) && store.Rows(run.runId) == old(store.Rows(run.runId))
    {
      run.state := RunRunning;
      store.SaveRun(run);
    }

    // ------------------------------------------------------------------------------ ticks

    /** The run has ended: the machine can take its Complete step, which leads to the present rows and status. */
    ghost predicate Completed(run: GraphRun, s0: Sys, trace: Trace)
      reads run, run.nodes.Values, store
    {
      && Linked(run) && Traced(cfg, env, trace) && EntryOf(trace) == s0 && trace.s.nodes == run.View()
      && Enabled(cfg, trace.s, Complete)
      && Apply(cfg, trace.s, Complete) == Sys(false, map[], {}, store.Rows(run.runId), run.state)
    }

    static lemma CompleteApplies(cfg: Config, s: Sys)
      requires s.live && s.flying == {} && !AnyReady(cfg, s.nodes) && AllTerminal(s.nodes)
      ensures Enabled(cfg, s, Complete)
      ensures Apply(cfg, s, Complete) == Sys(false, map[], {}, s.rows, DetermineRunStatus(StatesOf(cfg, s.nodes)))
    {
    }

    // The first half of a tick in either mode: block, then dispatch. An idle loop makes progress here.
    method TickStart(run: GraphRun, futures0: map<nat, Id>, next0: nat, ghost idle: bool,
                     ghost s0: Sys, ghost trace0: Trace, ghost order: seq<Id>)
      returns (ok: bool, futures: map<nat, Id>, next: nat, ghost trace: Trace)
      requires Ordered(cfg, order) && Ticking(run, futures0, next0, s0, trace0)
      requires idle ==> |futures0| == 0 && Idle(cfg, run.View())
      modifies run.nodes.Values, store`nodeRows
      ensures Ticking(run, futures, next, s0, trace)
      ensures !ok ==> Unbindable(run.View())
      ensures Measure(cfg, run.View()) <= old(Measure(cfg, run.View()))
      ensures Measure(cfg, run.View()) == old(Measure(cfg, run.View())) ==> futures == futures0 && !idle
      ensures ok && |futures| < cfg.maxConcurrency ==> !AnyReady(cfg, run.View())
      ensures cfg.maxConcurrency >= 1
    {
      SlotsFit(run, futures0, next0, s0, trace0);
      BlockMeasure(run, futures0, next0, idle, s0, trace0, order);
      ghost var blocked := BlockTick(run, futures0.Values, s0, trace0);
      ok, futures, next, trace := FillSlots(run, futures0, next0, s0, blocked);
    }

    lemma BlockMeasure(run: GraphRun, futures: map<nat, Id>, next: nat, idle: bool, s0: Sys, trace: Trace,
                       order: seq<Id>)
      requires Ordered(cfg, order) && Ticking(run, futures, next, s0, trace)
      requires idle ==> |futures| == 0 && Idle(cfg, run.View())
      ensures Measure(cfg, BlockPass(cfg, run.View())) <= Measure(cfg, run.View())
      ensures idle ==> Measure(cfg, BlockPass(cfg, run.View())) < Measure(cfg, run.View())
    {
      BlockLightens(cfg, run.View());
      if idle {
        TraceKeeps(cfg, env, trace);
        NoSlots(futures);
        IdleProgress(cfg, run.View(), order);
      }
    }

    method EndRun(run: GraphRun, ghost s0: Sys, ghost trace: Trace)
      requires InLoop(run, {}, s0, trace) && !AnyReady(cfg, run.View()) && AllTerminal(run.View())
      modifies run`state, store`runRows
      ensures run.View() == old(run.View()) && Completed(run, s0, trace)
    {
      CompleteApplies(cfg, Abs(run, {}));
      CompleteRun(run);
    }

    /** The end check of both loops: no future, no ready node, and every node terminal. */
    method EndCheck(run: GraphRun, ghost s0: Sys, ghost trace: Trace) returns (done: bool)
      requires InLoop(run, {}, s0, trace)
      modifies run`state, store`runRows
      ensures run.View() == old(run.View())
      ensures done <==> !AnyReady(cfg, run.View()) && AllTerminal(run.View())
      ensures done ==> Completed(run, s0, trace)
      ensures !done ==> InLoop(run, {}, s0, trace)
    {
      done := ReadyToEnd(run, s0, trace);
      if done { EndRun(run, s0, trace); }
    }

    static lemma NoSlots(futures: map<nat, Id>)
      requires |futures| == 0
      ensures futures.Values == {}
    {
      assert futures == map[];
    }

    method ReadyToEnd(run: GraphRun, ghost s0: Sys, ghost trace: Trace) returns (done: bool)
      requires InLoop(run, {}, s0, trace)
      ensures InLoop(run, {}, s0, trace) && run.View() == old(run.View())
      ensures done <==> !AnyReady(cfg, run.View()) && AllTerminal(run.View())
    {
      TraceFormed(cfg, env, trace);
      var ready := FindReadyNodes(run);
      assert ready != [] ==> ready[0] in ready;
      done := ready == [] && forall id | id in run.nodes :: IsTerminal(run.nodes[id].state);
      assert forall id | id in run.nodes :: run.View()[id].state == run.nodes[id].state;
    }

    // The second half of a tick: collect what is done, then see whether the run has ended.
    method TickEnd(run: GraphRun, futures0: map<nat, Id>, next: nat, done: set<nat>, ghost s0: Sys, ghost trace0: Trace)
      returns (verdict: Verdict, futures: map<nat, Id>, ghost idle: bool, ghost trace: Trace)
      requires Ticking(run, futures0, next, s0, trace0) && done <= futures0.Keys
      requires |futures0| == 0 ==> !AnyReady(cfg, run.View())
      modifies run`state, run.nodes.Values, store
      ensures !verdict.Unbound?
      ensures verdict.AllDone? ==> Completed(run, s0, trace)
      ensures verdict.Continue? ==> Ticking(run, futures, next, s0, trace)
      ensures idle ==> |futures| == 0 && Idle(cfg, run.View())
      ensures done != {} ==> Measure(cfg, run.View()) < old(Measure(cfg, run.View()))
      ensures done == {} ==> futures == futures0 && run.View() == old(run.View())
      ensures done == {} && |futures| == 0 && verdict.Continue? ==> idle
    {
      futures, trace := Collect(run, futures0, next, done, s0, trace0);
      verdict := Continue;
      idle := false;
      if |futures| == 0 {
        NoSlots(futures);
        var ended := EndCheck(run, s0, trace);
        if ended { verdict := AllDone; } else { idle := done == {}; }
      }
    }

    /** One tick of `_run_threaded`, after the cancel check: work is done, the loop turns idle, or it waits. */
    method ThreadedTick(run: GraphRun, world: World, tick: nat, futures0: map<nat, Id>, next0: nat, ghost idle0: bool,
                        ghost s0: Sys, ghost trace0: Trace, ghost order: seq<Id>)
      returns (verdict: Verdict, futures: map<nat, Id>, next: nat, ghost idle: bool, ghost trace: Trace)
      requires Ordered(cfg, order) && Ticking(run, futures0, next0, s0, trace0)
      requires idle0 ==> |futures0| == 0 && Idle(cfg, run.View())
      modifies run`state, run.nodes.Values, store
      ensures verdict.AllDone? ==> Completed(run, s0, trace)
      ensures !verdict.AllDone? ==> Ticking(run, futures, next, s0, trace)
      ensures verdict.Unbound? ==> Unbindable(run.View())
      ensures idle ==> |futures| == 0 && Idle(cfg, run.View())
      ensures Measure(cfg, run.View()) <= old(Measure(cfg, run.View()))
      ensures verdict.Continue? && Measure(cfg, run.View()) == old(Measure(cfg, run.View())) ==>
                !idle0 && futures == futures0 && (|futures| == 0 ==> idle) && !SomeDone(world, tick, futures.Keys)
    {
      var ok;
      ok, futures, next, trace := TickStart(run, futures0, next0, idle0, s0, trace0, order);
      if !ok { return Unbound, futures, next, false, trace; }
      var done := world.done(tick, futures.Keys) * futures.Keys;
      verdict, futures, idle, trace := TickEnd(run, futures, next, done, s0, trace);
    }

    /** One tick of `run_async`: with tasks pending it waits for the first to complete, else it looks for the end. */
    method AsyncTick(run: GraphRun, world: World, tick: nat, futures0: map<nat, Id>, next0: nat, ghost idle0: bool,
                     ghost s0: Sys, ghost trace0: Trace, ghost order: seq<Id>)
      returns (verdict: Verdict, futures: map<nat, Id>, next: nat, ghost idle: bool, ghost trace: Trace)
      requires Ordered(cfg, order) && Ticking(run, futures0, next0, s0, trace0)
      requires idle0 ==> |futures0| == 0 && Idle(cfg, run.View())
      modifies run`state, run.nodes.Values, store
      ensures verdict.AllDone? ==> Completed(run, s0, trace)
      ensures !verdict.AllDone? ==> Ticking(run, futures, next, s0, trace)
      ensures verdict.Unbound? ==> Unbindable(run.View())
      ensures idle ==> |futures| == 0 && Idle(cfg, run.View())
      ensures Measure(cfg, run.View()) <= old(Measure(cfg, run.View()))
      ensures verdict.Continue? && Measure(cfg, run.View()) == old(Measure(cfg, run.View())) ==>
                && !idle0 && futures == futures0
                && (|futures| == 0 ==> idle) && (|futures| > 0 ==> !SomeDone(world, tick, futures.Keys))
    {
      var ok;
      ok, futures, next, trace := TickStart(run, futures0, next0, idle0, s0, trace0, order);
      if !ok { return Unbound, futures, next, false, trace; }
      if |futures| > 0 {
        var done := world.done(tick, futures.Keys) * futures.Keys;
        futures, trace := Collect(run, futures, next, done, s0, trace);
        return Continue, futures, next, false, trace;
      }
      verdict, futures, idle, trace := TickEnd(run, futures, next, {}, s0, trace);
    }

    // ------------------------------------------------------------------------------ the two loops

    /** What the loop is entered with. */
    ghost function EntrySys(run: GraphRun): Sys
      reads run, run.nodes.Values, store
    {
      Sys(true, run.View(), {}, store.Rows(run.runId), RunRunning)
    }

    ghost predicate CanEnter(run: GraphRun)
      reads run, run.nodes.Values, store
    {
      Enterable(cfg, store, run) && Apart(run.runId)
    }

    /** The run was paused: the machine's Cancel step leads to the present rows, and nothing is Running any more. */
    ghost predicate PausedAfter(run: GraphRun, trace: Trace)
      reads run, run.nodes.Values, store
    {
      && Linked(run) && Traced(cfg, env, trace) && Enabled(cfg, trace.s, Cancel)
      && Apply(cfg, trace.s, Cancel) == Sys(false, map[], {}, store.Rows(run.runId), run.state)
      && run.View() == CancelNodes(trace.s.nodes, trace.s.flying)
      && forall id | id in run.View() :: run.View()[id].state != Running
    }

    method CancelTick(run: GraphRun, futures: map<nat, Id>, ghost next: nat, ghost s0: Sys, ghost trace: Trace)
      requires Ticking(run, futures, next, s0, trace)
      modifies run`state, run.nodes.Values, store
      ensures PausedAfter(run, trace) && run.state == RunPaused
    {
      ghost var before := Abs(run, futures.Values);
      FlyingKnown(before, trace);
      CancelApplies(cfg, before);
      CancelRun(run, futures);
      CancelStops(before, run.View());
    }

    static lemma CancelApplies(cfg: Config, s: Sys)
      requires s.live
      ensures Enabled(cfg, s, Cancel)
      ensures Apply(cfg, s, Cancel) == Sys(false, map[], {}, CancelRows(s.nodes, s.rows, s.flying), RunPaused)
    {
    }

    lemma FlyingKnown(s: Sys, trace: Trace)
      requires Traced(cfg, env, trace) && trace.s == s
      ensures s.live && s.flying == RunningIds(s.nodes) && s.flying <= s.nodes.Keys
    {
      TraceKeeps(cfg, env, trace);
    }

    lemma CancelStops(s: Sys, nodes: Nodes)
      requires s.flying == RunningIds(s.nodes) && nodes == CancelNodes(s.nodes, s.flying)
      ensures forall id | id in nodes :: nodes[id].state != Running
    {
    }

    method BeginLoop(run: GraphRun) returns (ghost s0: Sys, ghost trace: Trace)
      requires CanEnter(run)
      modifies run`state, store`runRows
      ensures s0 == old(EntrySys(run)) && Ticking(run, map[], 0, s0, trace)
    {
      EnterLoop(run);
      s0 := Abs(run, {});
      trace := Entered(s0);
      StartTicking(run);
    }

    lemma StartTicking(run: GraphRun)
      requires WellFormed(cfg) && Linked(run) && AtEntry(cfg, Abs(run, {}))
      ensures Ticking(run, map[], 0, Abs(run, {}), Entered(Abs(run, {})))
    {
      var none: map<nat, Id> := map[];
      assert none.Values == {};
      assert TracedLast(cfg, env, Entered(Abs(run, {})));
    }

    // If the loop only waited it is one tick nearer to the same completion; else a new one is looked up.
    static lemma NextPatience(world: World, tick: nat, p0: Patience, work: nat, idle: bool, futures: map<nat, Id>)
      returns (p: Patience)
      requires Fair(world) && work <= p0.work
      requires work == p0.work ==> !p0.idle && (|futures| == 0 ==> idle)
      requires work == p0.work && |futures| > 0 ==>
                 !SomeDone(world, tick, futures.Keys) && SomeDone(world, tick + p0.wait, futures.Keys)
      ensures p.work == work && p.idle == idle && Shorter(p, p0)
      ensures |futures| > 0 ==> SomeDone(world, tick + 1 + p.wait, futures.Keys)
    {
      if |futures| == 0 {
        p := Patience(work, idle, 0);
      } else if work == p0.work {
        assert p0.wait > 0;
        p := Patience(work, idle, p0.wait - 1);
      } else {
        assert futures.Keys != {} && DoneLater(world, tick + 1, futures.Keys);
        var later: nat :| tick + 1 <= later && SomeDone(world, later, futures.Keys);
        p := Patience(work, idle, later - tick - 1);
      }
    }

    /** What a finished loop says about the records, by the way it ended. */
    ghost predicate EndedAs(run: GraphRun, end: End, trace: Trace)
      reads run, run.nodes.Values, store
    {
      && Traced(cfg, env, trace) && Linked(run)
      && match end
         case Done => Completed(run, EntryOf(trace), trace)
         case Paused => PausedAfter(run, trace)
         case Aborted => trace.s.nodes == run.View() && trace.s.rows == store.Rows(run.runId) && Unbindable(run.View())
    }

    /** Where the threaded loop stands between two ticks. */
    ghost predicate Standing(run: GraphRun, world: World, futures: map<nat, Id>, next: nat, tick: nat, p: Patience,
                             s0: Sys, trace: Trace)
      reads run, run.nodes.Values, store
    {
      && Ticking(run, futures, next, s0, trace) && p.work == Measure(cfg, run.View())
      && (p.idle ==> |futures| == 0 && Idle(cfg, run.View()))
      && (|futures| > 0 ==> SomeDone(world, tick + p.wait, futures.Keys))
    }

    /** One round of the threaded loop: the cancel check, then a tick. */
    method ThreadedRound(run: GraphRun, world: World, tick: nat, futures0: map<nat, Id>, next0: nat, ghost p0: Patience,
                         ghost s0: Sys, ghost trace0: Trace, ghost order: seq<Id>)
      returns (end: Option<End>, futures: map<nat, Id>, next: nat, ghost p: Patience, ghost trace: Trace)
      requires Standing(run, world, futures0, next0, tick, p0, s0, trace0) && Ordered(cfg, order) && Fair(world)
      modifies run`state, run.nodes.Values, store
      ensures end.None? ==> Standing(run, world, futures, next, tick + 1, p, s0, trace) && Shorter(p, p0)
      ensures end.Some? ==> EntryOf(trace) == s0 && EndedAs(run, end.value, trace)
      ensures end == Some(Paused) ==> world.cancelled(tick)
    {
      p, trace := p0, trace0;
      if world.cancelled(tick) {
        CancelTick(run, futures0, next0, s0, trace0);
        return Some(Paused), futures0, next0, p, trace;
      }
      var verdict;
      ghost var idle;
      verdict, futures, next, idle, trace := ThreadedTick(run, world, tick, futures0, next0, p0.idle, s0, trace0,
          order);
      match verdict {
        case Unbound => end := Some(Aborted);
        case AllDone => end := Some(Done);
        case Continue =>
          end := None;
          p := NextPatience(world, tick, p0, Measure(cfg, run.View()), idle, futures);
      }
    }

    /** The `while True` of `_run_threaded`: it returns whenever every tool does. */
    method ThreadedLoop(run: GraphRun, world: World, ghost p0: Patience, ghost s0: Sys, ghost trace0: Trace,
                        ghost order: seq<Id>)
      returns (end: End, ghost trace: Trace)
      requires Standing(run, world, map[], 0, 0, p0, s0, trace0) && Ordered(cfg, order) && Fair(world)
      modifies run`state, run.nodes.Values, store
      ensures EntryOf(trace) == s0 && EndedAs(run, end, trace)
      ensures end == Paused ==> exists tick :: world.cancelled(tick)
    {
      var futures, next, tick := map[], 0, 0;
      ghost var p := p0;
      trace := trace0;
      while true
        invariant Standing(run, world, futures, next, tick, p, s0, trace)
        decreases p.work, !p.idle, p.wait
      {
        var over;
        over, futures, next, p, trace := ThreadedRound(run, world, tick, futures, next, p, s0, trace, order);
        if over.Some? { return over.value, trace; }
        tick := tick + 1;
      }
    }

    /** One round of the asyncio loop: the cancel check, then a tick that waits for the first completion. */
    method AsyncRound(run: GraphRun, world: World, tick: nat, futures0: map<nat, Id>, next0: nat, ghost p0: Patience,
                      ghost s0: Sys, ghost trace0: Trace, ghost order: seq<Id>)
      returns (end: Option<End>, futures: map<nat, Id>, next: nat, ghost p: Patience, ghost trace: Trace)
      requires Standing(run, world, futures0, next0, tick, p0, s0, trace0) && Ordered(cfg, order) && Eager(world)
      modifies run`state, run.nodes.Values, store
      ensures end.None? ==> Standing(run, world, futures, next, tick + 1, p, s0, trace) && Shorter(p, p0)
      ensures end.Some? ==> EntryOf(trace) == s0 && EndedAs(run, end.value, trace)
      ensures end == Some(Paused) ==> world.cancelled(tick)
    {
      p, trace := p0, trace0;
      if world.cancelled(tick) {
        CancelTick(run, futures0, next0, s0, trace0);
        return Some(Paused), futures0, next0, p, trace;
      }
      var verdict;
      ghost var idle;
      verdict, futures, next, idle, trace := AsyncTick(run, world, tick, futures0, next0, p0.idle, s0, trace0, order);
      match verdict {
        case Unbound => end := Some(Aborted);
        case AllDone => end := Some(Done);
        case Continue =>
          end := None;
          p := Patience(Measure(cfg, run.View()), idle, 0);
          assert |futures| > 0 ==> futures.Keys != {};
      }
    }

    /** The `while True` of `run_async`. */
    method AsyncLoop(run: GraphRun, world: World, ghost p0: Patience, ghost s0: Sys, ghost trace0: Trace,
                     ghost order: seq<Id>)
      returns (end: End, ghost trace: Trace)
      requires Standing(run, world, map[], 0, 0, p0, s0, trace0) && Ordered(cfg, order) && Eager(world)
      modifies run`state, run.nodes.Values, store
      ensures EntryOf(trace) == s0 && EndedAs(run, end, trace)
      ensures end == Paused ==> exists tick :: world.cancelled(tick)
    {
      var futures, next, tick := map[], 0, 0;
      ghost var p := p0;
      trace := trace0;
      while true
        invariant Standing(run, world, futures, next, tick, p, s0, trace)
        decreases p.work, !p.idle, p.wait
      {
        var over;
        over, futures, next, p, trace := AsyncRound(run, world, tick, futures, next, p, s0, trace, order);
        if over.Some? { return over.value, trace; }
        tick := tick + 1;
      }
    }

    // What the trace of a loop tells about the evaluator's answer.
    lemma TraceTracks(trace: Trace, order: seq<Id>)
      requires WellBound(cfg) && Ordered(cfg, order) && Traced(cfg, env, trace)
      ensures WellFormed(cfg) && EntryOf(trace).nodes.Keys == cfg.specs.Keys
      ensures var job, start := JobOf(cfg, env), EntryOf(trace).nodes; var final := Evaluate(job, start, order);
              Solves(job, start, final) && Tracks(job, start, final, trace.s.nodes)
    {
      var s0, job := EntryOf(trace), JobOf(cfg, env);
      TraceRuns(cfg, env, trace);
      EvalSolves(cfg, job, s0.nodes, order);
      EntryTracks(cfg, job, s0, Evaluate(job, s0.nodes, order));
      RunTracks(cfg, env, s0.nodes, Evaluate(job, s0.nodes, order), s0, StepsOf(trace));
    }

    lemma DoneIsAnswer(run: GraphRun, trace: Trace, order: seq<Id>)
      requires WellBound(cfg) && Ordered(cfg, order) && Completed(run, EntryOf(trace), trace)
      ensures WellFormed(cfg) && EntryOf(trace).nodes.Keys == cfg.specs.Keys
      ensures AsEvaluated(cfg, env, run, Done, EntryOf(trace).nodes, order)
    {
      TraceTracks(trace, order);
      CompletedNodes(run, trace);
      var job, start := JobOf(cfg, env), EntryOf(trace).nodes;
      NoFailureAtEnd(job, start, Evaluate(job, start, order), run.View());
    }

    lemma CompletedNodes(run: GraphRun, trace: Trace)
      requires Completed(run, EntryOf(trace), trace)
      ensures AllTerminal(run.View()) && trace.s.nodes == run.View()
      ensures run.state == DetermineRunStatus(StatesOf(cfg, run.View()))
    {
    }

    static lemma NoFailureAtEnd(job: Job, start: Nodes, final: Nodes, nodes: Nodes)
      requires Solves(job, start, final) && Tracks(job, start, final, nodes) && AllTerminal(nodes)
      ensures nodes == final && !SomeBindFailure(job, start, final)
    {
      TerminalIsFinal(job, start, final, nodes);
      forall id | id in job.specs
        ensures !BindFailure(job, start, final, id)
      {
        if BindFailure(job, start, final, id) { BindFailureLeavesOpen(job, start, final, id); }
      }
    }

    lemma AbortedIsBindFailure(run: GraphRun, trace: Trace, order: seq<Id>)
      requires WellBound(cfg) && Ordered(cfg, order) && Traced(cfg, env, trace)
      requires trace.s.nodes == run.View() && Unbindable(run.View())
      ensures WellFormed(cfg) && EntryOf(trace).nodes.Keys == cfg.specs.Keys
      ensures AsEvaluated(cfg, env, run, Aborted, EntryOf(trace).nodes, order)
    {
      TraceTracks(trace, order);
      var start := EntryOf(trace).nodes;
      var id :| IsReady(cfg, run.View(), id) && StartNode(cfg, run.View(), id).None?;
      AbortIsBindFailure(cfg, JobOf(cfg, env), start, Evaluate(JobOf(cfg, env), start, order), run.View(), id);
    }

    lemma EndIsAnswer(run: GraphRun, end: End, trace: Trace, order: seq<Id>)
      requires WellBound(cfg) && Ordered(cfg, order) && EndedAs(run, end, trace)
      ensures WellFormed(cfg) && EntryOf(trace).nodes.Keys == cfg.specs.Keys
      ensures AsEvaluated(cfg, env, run, end, EntryOf(trace).nodes, order)
    {
      TraceRuns(cfg, env, trace);
      match end
      case Done => DoneIsAnswer(run, trace, order);
      case Aborted => AbortedIsBindFailure(run, trace, order);
      case Paused =>
    }

    /**
     * `_run_threaded`. It terminates if the tools do. It ends Done with the evaluator's records and their status,
     * Aborted only if some binding fails in the evaluator, or Paused if the cancel event was seen.
     */
    method RunThreaded(run: GraphRun, world: World, ghost order: seq<Id>) returns (end: End, ghost trace: Trace)
      requires CanEnter(run) && WellBound(cfg) && Ordered(cfg, order) && Fair(world)
      modifies run`state, run.nodes.Values, store
      ensures EntryOf(trace) == old(EntrySys(run)) && EndedAs(run, end, trace)
      ensures TraceByTheRules(cfg, env, trace)
      ensures AsEvaluated(cfg, env, run, end, old(run.View()), order)
      ensures Generous(cfg.specs, env) && Supplied(cfg.specs, old(store.Rows(run.runId))) ==> !end.Aborted?
      ensures end == Paused ==> exists tick :: world.cancelled(tick)
    {
      ghost var s0, begun;
      s0, begun := BeginLoop(run);
      end, trace := ThreadedLoop(run, world, Patience(Measure(cfg, run.View()), false, 0), s0, begun, order);
      EndIsAnswer(run, end, trace, order);
      NeverAborts(run, end, s0, order);
      TraceFollowsRules(cfg, env, trace);
    }

    /** `run_async`: the same ends, reached under asyncio's own promise about waiting. */
    method RunAsync(run: GraphRun, world: World, ghost order: seq<Id>) returns (end: End, ghost trace: Trace)
      requires CanEnter(run) && WellBound(cfg) && Ordered(cfg, order) && Eager(world)
      modifies run`state, run.nodes.Values, store
      ensures EntryOf(trace) == old(EntrySys(run)) && EndedAs(run, end, trace)
      ensures TraceByTheRules(cfg, env, trace)
      ensures AsEvaluated(cfg, env, run, end, old(run.View()), order)
      ensures Generous(cfg.specs, env) && Supplied(cfg.specs, old(store.Rows(run.runId))) ==> !end.Aborted?
      ensures end == Paused ==> exists tick :: world.cancelled(tick)
    {
      ghost var s0, begun;
      s0, begun := BeginLoop(run);
      end, trace := AsyncLoop(run, world, Patience(Measure(cfg, run.View()), false, 0), s0, begun, order);
      EndIsAnswer(run, end, trace, order);
      NeverAborts(run, end, s0, order);
      TraceFollowsRules(cfg, env, trace);
    }

    // ------------------------------------------------------------------------------ what is left behind

    /** The loop run behind an end: its steps, and the rows it left. */
    ghost predicate LeftBy(s0: Sys, end: End, rows: Nodes, steps: seq<Step>) {
      && WellFormed(cfg) && LoopEntry(cfg, s0) && Runs(cfg, s0, steps) && LoopRun(cfg, env, s0, steps)
      && var last := Exec(cfg, s0, steps);
         match end
         case Done => Enabled(cfg, last, Complete) && rows == last.rows
         case Paused => Enabled(cfg, last, Cancel) && rows == CancelRows(last.nodes, last.rows, last.flying)
         case Aborted => rows == last.rows
    }

    lemma EndLeaves(run: GraphRun, end: End, trace: Trace)
      requires EndedAs(run, end, trace) && LoopEntry(cfg, EntryOf(trace))
      ensures LeftBy(EntryOf(trace), end, store.Rows(run.runId), StepsOf(trace))
    {
      TraceRuns(cfg, env, trace);
      EndRows(run, end, trace);
    }

    lemma EndRows(run: GraphRun, end: End, trace: Trace)
      requires EndedAs(run, end, trace)
      ensures match end
              case Done => Enabled(cfg, trace.s, Complete) && store.Rows(run.runId) == trace.s.rows
              case Paused =>
                && Enabled(cfg, trace.s, Cancel)
                && store.Rows(run.runId) == CancelRows(trace.s.nodes, trace.s.rows, trace.s.flying)
              case Aborted => store.Rows(run.runId) == trace.s.rows
    {
    }

    /** Rows that can be loaded, with every success that was there before. */
    lemma LeftRows(s0: Sys, end: End, rows: Nodes, steps: seq<Step>)
      requires LeftBy(s0, end, rows, steps)
      ensures RowsOk(cfg, rows) && SuccessesKept(s0.rows, rows)
    {
      var last := Exec(cfg, s0, steps);
      RunKeeps(cfg, s0, steps);
      RunKeepsSuccesses(cfg, s0, steps);
      if end.Paused? {
        StepKeeps(cfg, last, Cancel);
        StepKeepsSuccesses(cfg, last, Cancel);
      }
    }

    /** An ended run leaves no orphan; a paused one none that was not there before. */
    lemma LeftOrphans(s0: Sys, end: End, rows: Nodes, steps: seq<Step>)
      requires LeftBy(s0, end, rows, steps)
      ensures end.Done? || (end.Paused? && NoOrphans(s0.rows)) ==> NoOrphans(rows)
    {
      if end.Done? {
        DoneLeavesNoOrphans(cfg, env, s0, steps);
      } else if end.Paused? && NoOrphans(s0.rows) {
        PausedLeavesNoOrphans(cfg, env, s0, steps);
      }
    }

    /** Tools that yield what is referenced leave rows that carry it. */
    lemma LeftSupply(s0: Sys, end: End, rows: Nodes, steps: seq<Step>)
      requires LeftBy(s0, end, rows, steps) && Generous(cfg.specs, env) && Supplied(cfg.specs, s0.rows)
      ensures Supplied(cfg.specs, rows)
    {
      RunSupplies(cfg, env, s0, steps);
      LoopRunKeeps(cfg, env, s0, steps);
      if end.Paused? { CancelSupply(cfg, Exec(cfg, s0, steps)); }
    }

    /** ... and never make the loop abort. */
    lemma NeverAborts(run: GraphRun, end: End, s0: Sys, order: seq<Id>)
      requires WellFormed(cfg) && WellBound(cfg) && Ordered(cfg, order) && AtEntry(cfg, s0)
      requires AsEvaluated(cfg, env, run, end, s0.nodes, order)
      ensures Generous(cfg.specs, env) && Supplied(cfg.specs, s0.rows) ==> !end.Aborted?
    {
      if Generous(cfg.specs, env) && Supplied(cfg.specs, s0.rows) {
        SyncedSupply(cfg, s0);
        EvalSolves(cfg, JobOf(cfg, env), s0.nodes, order);
        GenerousToolsBind(cfg, env, s0.nodes, Evaluate(JobOf(cfg, env), s0.nodes, order));
      }
    }

    lemma LoopLeaves(run: GraphRun, end: End, trace: Trace, order: seq<Id>)
      requires EndedAs(run, end, trace) && WellBound(cfg) && Ordered(cfg, order) && LoopEntry(cfg, EntryOf(trace))
      requires WellFormed(cfg)
      requires AsEvaluated(cfg, env, run, end, EntryOf(trace).nodes, order)
      ensures Left(cfg, env, store, run, end, EntryOf(trace).rows)
    {
      var s0, rows, steps := EntryOf(trace), store.Rows(run.runId), StepsOf(trace);
      EndLeaves(run, end, trace);
      LeftRows(s0, end, rows, steps);
      LeftOrphans(s0, end, rows, steps);
      if Generous(cfg.specs, env) && Supplied(cfg.specs, s0.rows) {
        LeftSupply(s0, end, rows, steps);
        NeverAborts(run, end, s0, order);
      }
    }

    /** `GraphScheduler.run`: one of the two loops, and the run of the machine that leads from the entry to its end. */
    method RunMode(run: GraphRun, useAsyncio: bool, world: World, ghost order: seq<Id>)
      returns (end: End, ghost trace: Trace)
      requires CanEnter(run) && WellBound(cfg) && Ordered(cfg, order)
      requires (if useAsyncio then Eager(world) else Fair(world))
      modifies run`state, run.nodes.Values, store
      ensures EntryOf(trace) == old(EntrySys(run)) && EndedAs(run, end, trace)
      ensures TraceByTheRules(cfg, env, trace)
      ensures AsEvaluated(cfg, env, run, end, old(run.View()), order)
      ensures end == Paused ==> exists tick :: world.cancelled(tick)
    {
      if useAsyncio {
        end, trace := RunAsync(run, world, order);
      } else {
        end, trace := RunThreaded(run, world, order);
      }
    }

    /**
     * The same, with what it means for the caller: successes, loadable rows and other runs survive the loop; an ended
     * run leaves no orphaned row; and with tools that yield every referenced key the loop does not abort.
     */
    method Run(run: GraphRun, useAsyncio: bool, world: World, ghost order: seq<Id>) returns (end: End)
      requires CanEnter(run) && WellBound(cfg) && Ordered(cfg, order)
      requires (if useAsyncio then Eager(world) else Fair(world))
      modifies run`state, run.nodes.Values, store
      ensures AsEvaluated(cfg, env, run, end, old(run.View()), order)
      ensures Left(cfg, env, store, run, end, old(store.Rows(run.runId)))
      ensures store.Elsewhere(run.runId) == old(store.Elsewhere(run.runId))
      ensures end == Paused ==> (exists tick :: world.cancelled(tick)) && NothingRuns(run)
    {
      ghost var trace;
      end, trace := RunMode(run, useAsyncio, world, order);
      LoopLeaves(run, end, trace, order);
      AllStopped(run, end, trace);
    }

    ghost predicate NothingRuns(run: GraphRun)
      reads run, run.nodes.Values
    {
      forall id | id in run.View() :: run.View()[id].state != Running
    }

    lemma AllStopped(run: GraphRun, end: End, trace: Trace)
      requires EndedAs(run, end, trace)
      ensures end.Paused? ==> NothingRuns(run)
    {
    }
  }
}
