/** Repaired parameters: what keeps them within a run, when they outlive a crash, and what the handler makes of them. */
module Repairs {
  import opened Values
  import opened States
  import opened CycleDetection
  import opened Graph
  import opened Binding
  import opened Machine
  import opened Safety
  import opened Evaluator
  import opened Schedule
  import QERepair

  // ------------------------------------------------------------------------------------ within one run

  /** The step finishes `id` with a failure that goes to the repair handler. */
  predicate Handled(cfg: Config, s: Sys, step: Step, id: Id) {
    step.Finish? && step.outcome.Failure? && step.id == id && id in cfg.specs && id in s.nodes &&
    WantsRepair(cfg.specs[id], cfg.repairers, s.nodes[id], step.outcome.error)
  }

  /** The answer of the node's own handler. */
  function Asked(cfg: Config, env: Env, id: Id, n: Node, error: ToolError): Fix
    requires id in cfg.specs
  {
    env.repair(HandlerName(cfg.specs[id], cfg.repairers), id, n, error)
  }

  /** The handler applied to `params` for every failure of `id` that reaches it, in order. */
  function HandlerParams(cfg: Config, env: Env, s: Sys, steps: seq<Step>, id: Id, params: Params): Params
    requires Runs(cfg, s, steps)
    decreases |steps|
  {
    if steps == [] then params
    else
      var next := if Handled(cfg, s, steps[0], id)
                  then Asked(cfg, env, id, s.nodes[id].(params := params), steps[0].outcome.error).params else params;
      HandlerParams(cfg, env, Apply(cfg, s, steps[0]), steps[1..], id, next)
  }

  lemma FinishParams(cfg: Config, env: Env, s: Sys, step: Step, id: Id)
    requires Inv(cfg, s) && s.live && Enabled(cfg, s, step) && step.Finish? && LoopStep(cfg, env, s, step)
    requires id in cfg.specs && s.nodes[id].resolved
    ensures var after := Apply(cfg, s, step);
            && id in after.nodes && after.nodes[id].resolved
            && after.nodes[id].params ==
               if Handled(cfg, s, step, id) then Asked(cfg, env, id, s.nodes[id], step.outcome.error).params
               else s.nodes[id].params
  {
    FlyingIsRunning(cfg, s, step.id);
    FinishedParams(cfg, env, s, step, id);
  }

  lemma FinishedParams(cfg: Config, env: Env, s: Sys, step: Step, id: Id)
    requires Enabled(cfg, s, step) && step.Finish? && LoopStep(cfg, env, s, step) && s.nodes[step.id].state == Running
    requires id in cfg.specs && id in s.nodes && s.nodes[id].resolved
    ensures var after := Apply(cfg, s, step);
            && id in after.nodes && after.nodes[id].resolved
            && after.nodes[id].params ==
               if Handled(cfg, s, step, id) then Asked(cfg, env, id, s.nodes[id], step.outcome.error).params
               else s.nodes[id].params
  {
    FinishApplies(cfg, s, step.id, step.outcome, step.fix);
    FinishNodeParams(cfg.specs[step.id], cfg.repairers, s.nodes[step.id], step.outcome, step.fix);
  }

  lemma FinishNodeParams(spec: NodeSpec, repairers: seq<string>, n: Node, outcome: Outcome, fix: Fix)
    ensures var after := FinishNode(spec, repairers, n, outcome, fix);
            && after.resolved == n.resolved
            && after.params ==
               if outcome.Failure? && WantsRepair(spec, repairers, n, outcome.error) then fix.params else n.params
  {
  }

  lemma StepParams(cfg: Config, env: Env, s: Sys, step: Step, id: Id)
    requires Inv(cfg, s) && s.live && Enabled(cfg, s, step) && LoopStep(cfg, env, s, step)
    requires id in cfg.specs && s.nodes[id].resolved
    ensures var after := Apply(cfg, s, step);
            && id in after.nodes && after.nodes[id].resolved
            && after.nodes[id].params ==
               if Handled(cfg, s, step, id) then Asked(cfg, env, id, s.nodes[id], step.outcome.error).params
               else s.nodes[id].params
  {
    if step.Block? {
      BlockFrame(cfg, s.nodes, |cfg.listing|);
    } else if step.Finish? {
      FinishParams(cfg, env, s, step, id);
    }
  }

  /**
   * Repairs survive requeue: from the first dispatch on, the parameters are the handler's answers to the failures so
   * far, each computed from the one before; bindings are never resolved again, not even empty ones.
   */
  lemma {:induction false} RepairsSurviveRequeue(cfg: Config, env: Env, s: Sys, steps: seq<Step>, id: Id)
    requires SpecsOk(cfg) && Inv(cfg, s) && s.live && Runs(cfg, s, steps) && LoopRun(cfg, env, s, steps)
    requires id in cfg.specs && s.nodes[id].resolved
    ensures var after := Exec(cfg, s, steps);
            && id in after.nodes && after.nodes[id].resolved
            && after.nodes[id].params == HandlerParams(cfg, env, s, steps, id, s.nodes[id].params)
    decreases |steps|
  {
    if steps != [] {
      StepParams(cfg, env, s, steps[0], id);
      LoopTail(cfg, env, s, steps);
      RepairsSurviveRequeue(cfg, env, Apply(cfg, s, steps[0]), steps[1..], id);
    }
  }

  // ------------------------------------------------------------------------------------ across a crash

  lemma DurableRef(r: Ref, inputs: Params, nodes: Nodes, after: Nodes)
    requires after == map id | id in nodes :: Durable(nodes[id])
    ensures RefValue(r, inputs, after) == RefValue(r, inputs, nodes)
  {
  }

  lemma DurableResolve(params: Params, inputs: Params, nodes: Nodes, after: Nodes)
    requires after == map id | id in nodes :: Durable(nodes[id])
    ensures ResolveParams(params, inputs, after) == ResolveParams(params, inputs, nodes)
  {
    forall raw | raw in Strings(params) && ParseRef(raw).Some?
      ensures RefValue(ParseRef(raw).value, inputs, after) == RefValue(ParseRef(raw).value, inputs, nodes)
    {
      DurableRef(ParseRef(raw).value, inputs, nodes, after);
    }
    ResolveCongruent(Dict(params), inputs, after, nodes);
  }

  lemma DurableDeps(spec: NodeSpec, nodes: Nodes, after: Nodes)
    requires after == map id | id in nodes :: Durable(nodes[id])
    ensures DepsSucceeded(spec, after) <==> DepsSucceeded(spec, nodes)
  {
    assert forall d :: StateOf(nodes, d) == Succeeded <==> StateOf(after, d) == Succeeded;
  }

  /** What the next dispatch of `id` after a recovery makes of its bindings, seen from the memory that was lost. */
  lemma RecoveredLaunch(cfg: Config, nodes: Nodes, after: Nodes, id: Id)
    requires after == (map x | x in nodes :: Durable(nodes[x])) && id in nodes && id in cfg.specs
    requires Runnable(nodes[id].state) || nodes[id].state == Running
    ensures id in after && after[id].state == Pending && after[id].repairs == nodes[id].repairs
    ensures IsReady(cfg, after, id) <==> DepsSucceeded(cfg.specs[id], nodes)
    ensures match StartNode(cfg, after, id)
            case Some(again) => ResolveParams(cfg.specs[id].params, cfg.inputs, nodes) == Some(again.params)
            case None => ResolveParams(cfg.specs[id].params, cfg.inputs, nodes) == None
  {
    DurableDeps(cfg.specs[id], nodes, after);
    DurableResolve(cfg.specs[id].params, cfg.inputs, nodes, after);
  }

  /** The node is dispatched again with the parameters it had. */
  predicate Kept(cfg: Config, nodes: Nodes, id: Id, params: Params)
    requires id in nodes && id in cfg.specs
  {
    StartNode(cfg, nodes, id).Some? && StartNode(cfg, nodes, id).value.params == params
  }

  /**
   * A crash drops repairs, of a node that waits for its next dispatch as of one that is running: it is Pending again
   * and its next dispatch resolves the spec's parameters, so the repaired ones come back exactly when they are what
   * the spec resolves to anyway. Without the crash they are simply kept.
   */
  lemma RepairSurvivesCrashIff(cfg: Config, s: Sys, id: Id)
    requires Inv(cfg, s) && s.live && !IsTerminalRun(s.status) && id in cfg.specs
    requires s.nodes[id].resolved && (Runnable(s.nodes[id].state) || s.nodes[id].state == Running)
    ensures Kept(cfg, s.nodes, id, s.nodes[id].params)
    ensures Runs(cfg, s, [Crash, Resume])
    ensures var after := Exec(cfg, s, [Crash, Resume]).nodes;
            && id in after && after[id].state == Pending
            && (IsReady(cfg, after, id) <==> DepsSucceeded(cfg.specs[id], s.nodes))
            && (Kept(cfg, after, id, s.nodes[id].params) <==>
                ResolveParams(cfg.specs[id].params, cfg.inputs, s.nodes) == Some(s.nodes[id].params))
  {
    CrashThenResume(cfg, s);
    RecoveredLaunch(cfg, s.nodes, Exec(cfg, s, [Crash, Resume]).nodes, id);
  }

  // A crash inside the handler leaves the row that says Repairing, with the parameters from before.
  lemma RepairingRecovers(cfg: Config, s: Sys, id: Id)
    requires Inv(cfg, s) && s.live && id in s.flying
    ensures Recover(Load(cfg, s.rows[id := Row(s.nodes[id].(state := Repairing))])) ==
            map x | x in s.nodes :: Durable(s.nodes[x])
  {
    FlyingIsRunning(cfg, s, id);
    RecoveryCommutes(cfg, s);
    var n := Row(s.nodes[id].(state := Repairing));
    LoadUpdate(cfg, s.rows, id, n);
    RecoverUpdate(Load(cfg, s.rows), id, n);
    assert RecoverNode(n) == Durable(s.nodes[id]);
    DurableUpdate(s.nodes, id);
  }

  lemma RecoverUpdate(nodes: Nodes, id: Id, n: Node)
    ensures Recover(nodes[id := n]) == Recover(nodes)[id := RecoverNode(n)]
  {
  }

  lemma DurableUpdate(nodes: Nodes, id: Id)
    requires id in nodes
    ensures var image := map x | x in nodes :: Durable(nodes[x]); image[id := Durable(nodes[id])] == image
  {
  }

  lemma CrashRepairingRuns(cfg: Config, s: Sys, id: Id)
    requires Inv(cfg, s) && Enabled(cfg, s, CrashRepairing(id)) && !IsTerminalRun(s.status)
    ensures Runs(cfg, s, [CrashRepairing(id), Resume])
    ensures Exec(cfg, s, [CrashRepairing(id), Resume]).nodes == map x | x in s.nodes :: Durable(s.nodes[x])
  {
    RepairingRecovers(cfg, s, id);
    TwoSteps(cfg, s, CrashRepairing(id), Resume);
  }

  /**
   * The same for a process that dies inside the repair handler: the repair in progress leaves no trace, not even in the
   * repair count, and the earlier ones survive exactly when the spec resolves to them.
   */
  lemma CrashInHandler(cfg: Config, s: Sys, id: Id)
    requires Inv(cfg, s) && Enabled(cfg, s, CrashRepairing(id)) && !IsTerminalRun(s.status)
    ensures Runs(cfg, s, [CrashRepairing(id), Resume])
    ensures var after := Exec(cfg, s, [CrashRepairing(id), Resume]).nodes;
            && id in after && after[id].state == Pending && after[id].repairs == s.nodes[id].repairs
            && IsReady(cfg, after, id)
            && (Kept(cfg, after, id, s.nodes[id].params) <==>
                ResolveParams(cfg.specs[id].params, cfg.inputs, s.nodes) == Some(s.nodes[id].params))
  {
    CrashRepairingRuns(cfg, s, id);
    FlyingIsRunning(cfg, s, id);
    RecoveredLaunch(cfg, s.nodes, Exec(cfg, s, [CrashRepairing(id), Resume]).nodes, id);
    RunningDeps(cfg, s, id);
  }

  lemma RunningDeps(cfg: Config, s: Sys, id: Id)
    requires Inv(cfg, s) && s.live && id in s.flying
    ensures id in cfg.specs && DepsSucceeded(cfg.specs[id], s.nodes)
  {
    FlyingIsRunning(cfg, s, id);
  }

  // ------------------------------------------------------------------------------------ with the parameter repairer

  /**
   * The failures of `id` go to the Quantum ESPRESSO parameter repairer: the node names it, or names none and it is the
   * first one registered.
   */
  ghost predicate UsesQERepair(cfg: Config, env: Env, parser: QERepair.Parser, id: Id) {
    && id in cfg.specs
    && (if cfg.specs[id].repair.Some? then cfg.specs[id].repair.value == "qe_param_bump"
        else |cfg.repairers| > 0 && cfg.repairers[0] == "qe_param_bump")
    && forall n, error :: env.repair("qe_param_bump", id, n, error) == QERepair.Repaired(parser, n.params, error)
  }

  lemma AskedIsQERepair(cfg: Config, env: Env, parser: QERepair.Parser, id: Id, n: Node, error: ToolError)
    requires UsesQERepair(cfg, env, parser, id) && WantsRepair(cfg.specs[id], cfg.repairers, n, error)
    ensures Asked(cfg, env, id, n, error) == QERepair.Repaired(parser, n.params, error)
  {
  }

  /** The failures of `id` that reach the handler, in order. */
  function Failures(cfg: Config, s: Sys, steps: seq<Step>, id: Id): seq<ToolError>
    requires Runs(cfg, s, steps)
    decreases |steps|
  {
    if steps == [] then []
    else
      var now := if Handled(cfg, s, steps[0], id) then [steps[0].outcome.error] else [];
      now + Failures(cfg, Apply(cfg, s, steps[0]), steps[1..], id)
  }

  lemma {:induction false} HandlerIsQERepair(cfg: Config, env: Env, parser: QERepair.Parser, s: Sys, steps: seq<Step>,
                                             id: Id, params: Params)
    requires Runs(cfg, s, steps) && UsesQERepair(cfg, env, parser, id)
    ensures HandlerParams(cfg, env, s, steps, id, params) == QERepair.After(parser, params, Failures(cfg, s, steps, id))
    decreases |steps|
  {
    if steps != [] {
      var rest := Failures(cfg, Apply(cfg, s, steps[0]), steps[1..], id);
      if Handled(cfg, s, steps[0], id) {
        var error := steps[0].outcome.error;
        assert ([error] + rest)[1..] == rest;
        AskedIsQERepair(cfg, env, parser, id, s.nodes[id].(params := params), error);
        var next := QERepair.Repaired(parser, params, error).params;
        HandlerIsQERepair(cfg, env, parser, Apply(cfg, s, steps[0]), steps[1..], id, next);
      } else {
        assert [] + rest == rest;
        HandlerIsQERepair(cfg, env, parser, Apply(cfg, s, steps[0]), steps[1..], id, params);
      }
    }
  }

  /**
   * A node in a run with the parameter repairer: its parameters are the repairer's answers to its failures, in order;
   * so its cutoff has only risen, its band points and mesh axes have only fallen, each within its bound, and the
   * measure of what is left to repair has paid for every repair but the added bands.
   */
  lemma QERunParams(cfg: Config, env: Env, parser: QERepair.Parser, s: Sys, steps: seq<Step>, id: Id)
    requires SpecsOk(cfg) && Inv(cfg, s) && s.live && Runs(cfg, s, steps) && LoopRun(cfg, env, s, steps)
    requires id in cfg.specs && s.nodes[id].resolved && UsesQERepair(cfg, env, parser, id)
    ensures var before, errors := s.nodes[id].params, Failures(cfg, s, steps, id);
            && id in Exec(cfg, s, steps).nodes
            && var after := Exec(cfg, s, steps).nodes[id].params;
            && after == QERepair.After(parser, before, errors)
            && QERepair.Milder(parser, before, after)
            && QERepair.Accepted(parser, before, errors) + QERepair.Work(parser, after) <= QERepair.Work(parser, before)
  {
    RepairsSurviveRequeue(cfg, env, s, steps, id);
    HandlerIsQERepair(cfg, env, parser, s, steps, id, s.nodes[id].params);
    QERepair.RepairsTerminate(parser, s.nodes[id].params, Failures(cfg, s, steps, id));
    QERepair.RepairsStayInBounds(parser, s.nodes[id].params, Failures(cfg, s, steps, id));
  }

  // How many failures the handler gets that are not about too few bands.
  function OtherFailures(errors: seq<ToolError>): nat {
    if errors == [] then 0
    else (if QERepair.KindOf(errors[0]) == QERepair.TooFewBands then 0 else 1) + OtherFailures(errors[1..])
  }

  lemma TerminalStays(cfg: Config, env: Env, s: Sys, step: Step, id: Id)
    requires Inv(cfg, s) && s.live && Enabled(cfg, s, step) && LoopStep(cfg, env, s, step)
    requires id in cfg.specs && IsTerminal(s.nodes[id].state)
    ensures !Handled(cfg, s, step, id)
    ensures id in Apply(cfg, s, step).nodes && IsTerminal(Apply(cfg, s, step).nodes[id].state)
  {
    if step.Block? {
      BlockFrame(cfg, s.nodes, |cfg.listing|);
    } else if step.Finish? {
      FlyingIsRunning(cfg, s, step.id);
      FinishApplies(cfg, s, step.id, step.outcome, step.fix);
    }
  }

  lemma {:induction false} TerminalIsSilent(cfg: Config, env: Env, s: Sys, steps: seq<Step>, id: Id)
    requires SpecsOk(cfg) && Inv(cfg, s) && s.live && Runs(cfg, s, steps) && LoopRun(cfg, env, s, steps)
    requires id in cfg.specs && IsTerminal(s.nodes[id].state)
    ensures Failures(cfg, s, steps, id) == []
    decreases |steps|
  {
    if steps != [] {
      TerminalStays(cfg, env, s, steps[0], id);
      LoopTail(cfg, env, s, steps);
      TerminalIsSilent(cfg, env, Apply(cfg, s, steps[0]), steps[1..], id);
    }
  }

  // A failure that the repairer refuses fails the node.
  lemma RefusalFails(cfg: Config, env: Env, parser: QERepair.Parser, s: Sys, step: Step, id: Id)
    requires Inv(cfg, s) && Enabled(cfg, s, step) && LoopStep(cfg, env, s, step) && UsesQERepair(cfg, env, parser, id)
    requires Handled(cfg, s, step, id) && !QERepair.Repaired(parser, s.nodes[id].params, step.outcome.error).requeue
    ensures Apply(cfg, s, step).nodes[id].state == Failed
  {
    FlyingIsRunning(cfg, s, step.id);
    FinishApplies(cfg, s, step.id, step.outcome, step.fix);
    AskedIsQERepair(cfg, env, parser, id, s.nodes[id], step.outcome.error);
  }

  /**
   * Whatever repair budget the template grants, the repairer bounds the failures it is asked about, added bands apart:
   * one more than the measure of the parameters, the last of them final.
   */
  lemma {:induction false} QEFailuresBounded(cfg: Config, env: Env, parser: QERepair.Parser, s: Sys, steps: seq<Step>,
                                             id: Id)
    requires SpecsOk(cfg) && Inv(cfg, s) && s.live && Runs(cfg, s, steps) && LoopRun(cfg, env, s, steps)
    requires id in cfg.specs && s.nodes[id].resolved && UsesQERepair(cfg, env, parser, id)
    ensures OtherFailures(Failures(cfg, s, steps, id)) <= QERepair.Work(parser, s.nodes[id].params) + 1
    decreases |steps|
  {
    if steps != [] {
      var after, rest := Apply(cfg, s, steps[0]), steps[1..];
      LoopTail(cfg, env, s, steps);
      StepParams(cfg, env, s, steps[0], id);
      QEFailuresBounded(cfg, env, parser, after, rest, id);
      if Handled(cfg, s, steps[0], id) {
        AskedIsQERepair(cfg, env, parser, id, s.nodes[id], steps[0].outcome.error);
        QEStep(cfg, env, parser, s, steps, id);
      } else {
        QuietStep(cfg, s, steps, id);
      }
    }
  }

  lemma QuietStep(cfg: Config, s: Sys, steps: seq<Step>, id: Id)
    requires Runs(cfg, s, steps) && steps != [] && !Handled(cfg, s, steps[0], id)
    ensures Failures(cfg, s, steps, id) == Failures(cfg, Apply(cfg, s, steps[0]), steps[1..], id)
  {
  }

  lemma QEStep(cfg: Config, env: Env, parser: QERepair.Parser, s: Sys, steps: seq<Step>, id: Id)
    requires SpecsOk(cfg) && Inv(cfg, s) && s.live && Runs(cfg, s, steps) && LoopRun(cfg, env, s, steps) && steps != []
    requires id in cfg.specs && s.nodes[id].resolved && UsesQERepair(cfg, env, parser, id)
    requires Handled(cfg, s, steps[0], id)
    requires var after := Apply(cfg, s, steps[0]);
             && Inv(cfg, after) && after.live && id in after.nodes
             && after.nodes[id].params == QERepair.Repaired(parser, s.nodes[id].params, steps[0].outcome.error).params
             && OtherFailures(Failures(cfg, after, steps[1..], id)) <= QERepair.Work(parser, after.nodes[id].params) + 1
    ensures OtherFailures(Failures(cfg, s, steps, id)) <= QERepair.Work(parser, s.nodes[id].params) + 1
  {
    var error, after := steps[0].outcome.error, Apply(cfg, s, steps[0]);
    var rest := Failures(cfg, after, steps[1..], id);
    assert ([error] + rest)[1..] == rest;
    QERepair.RepairLightens(parser, s.nodes[id].params, error);
    if !QERepair.Repaired(parser, s.nodes[id].params, error).requeue {
      RefusalFails(cfg, env, parser, s, steps[0], id);
      TerminalIsSilent(cfg, env, after, steps[1..], id);
    }
  }
}
