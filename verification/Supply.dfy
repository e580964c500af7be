/** Tools that produce every output key their dependents refer to: then no dispatch ever raises. */
module Supply {
  import opened Values
  import opened States
  import opened CycleDetection
  import opened Graph
  import opened Binding
  import opened Machine
  import opened Safety
  import opened Evaluator
  import opened Schedule
  import opened Outcomes

  /** Some node's parameters refer to output `key` of node `id`. */
  ghost predicate Referenced(specs: map<Id, NodeSpec>, id: Id, key: string) {
    exists user, raw :: user in specs && raw in Strings(specs[user].params)
        && ParseRef(raw) == Some(Ref(Nodes, id, Some(key)))
  }

  ghost predicate Carries(specs: map<Id, NodeSpec>, id: Id, outputs: Outputs) {
    forall key | Referenced(specs, id, key) :: key in outputs
  }

  /** Whenever a tool succeeds it yields every key that is referenced of its node. */
  ghost predicate Generous(specs: map<Id, NodeSpec>, env: Env) {
    forall id, n, upstream | env.tool(id, n, upstream).Success? ::
      Carries(specs, id, env.tool(id, n, upstream).outputs)
  }

  /** The successes among these records carry every key that is referenced of them. */
  ghost predicate Supplied(specs: map<Id, NodeSpec>, nodes: Nodes) {
    forall id | id in nodes && nodes[id].state == Succeeded :: Carries(specs, id, nodes[id].outputs)
  }

  lemma {:induction false} SettleSupplies(job: Job, upstream: map<Id, Outputs>, id: Id, n: Node)
    requires id in job.specs && Generous(job.specs, job.env) && (n.state == Running || n.state == Ready)
    ensures var r := Settle(job, upstream, id, n); r.state == Succeeded ==> Carries(job.specs, id, r.outputs)
    decreases Weight(job.specs[id], n)
  {
    if n.state == Ready {
      SettleSupplies(job, upstream, id, Redispatch(n));
    } else {
      var outcome := job.env.tool(id, n, upstream);
      var fix := FixFor(job.env, job.specs[id], job.repairers, id, n, outcome);
      FinishLightens(job.specs[id], job.repairers, n, outcome, fix);
      var next := RunTool(job, id, n, upstream);
      if next.state == Ready { SettleSupplies(job, upstream, id, next); }
    }
  }

  // Every success of a solution carries what is referenced of it.
  lemma FinalSupplied(job: Job, start: Nodes, final: Nodes, id: Id)
    requires Solves(job, start, final) && Generous(job.specs, job.env) && Supplied(job.specs, start)
    requires id in job.specs && final[id].state == Succeeded
    ensures Carries(job.specs, id, final[id].outputs)
  {
    assert final[id] == EvalNode(job, start, id, final);
    var spec := job.specs[id];
    if final[id] != start[id] {
      SettleSupplies(job, Upstream(spec, final), id, Launch(spec, job.inputs, start[id], final).value);
    }
  }

  lemma SuppliedBinds(job: Job, final: Nodes, id: Id)
    requires id in job.specs && Bound(job) && KnownDeps(job, id) && DepsSucceeded(job.specs[id], final)
    requires final.Keys == job.specs.Keys && Supplied(job.specs, final)
    ensures ResolveParams(job.specs[id].params, job.inputs, final).Some?
  {
    var spec := job.specs[id];
    BindingSafe(spec, job.inputs, final);
    forall raw, d, out | raw in Strings(spec.params) && ParseRef(raw) == Some(Ref(Nodes, d, Some(out))) &&
                         d in spec.dependsOn && d in final
      ensures out in final[d].outputs
    {
      assert Referenced(job.specs, d, out);
    }
  }

  /**
   * No binding fails: with tools that yield every referenced key, and loaded successes that carry them, every node
   * that gets its turn can be launched. Both conditions can be checked before the run.
   */
  lemma GenerousToolsBind(cfg: Config, env: Env, start: Nodes, final: Nodes)
    requires SpecsOk(cfg) && WellBound(cfg) && Solves(JobOf(cfg, env), start, final)
    requires Generous(cfg.specs, env) && Supplied(cfg.specs, start)
    ensures !SomeBindFailure(JobOf(cfg, env), start, final)
  {
    var job := JobOf(cfg, env);
    forall id | id in cfg.specs && final[id].state == Succeeded { FinalSupplied(job, start, final, id); }
    if id :| id in job.specs && BindFailure(job, start, final, id) {
      assert SpecOk(cfg, id);
      SuppliedBinds(job, final, id);
    }
  }

  // ------------------------------------------------------------------------------------ along a run

  // A loop step commits a success only with the outputs of a tool.
  lemma StepSupplies(cfg: Config, env: Env, s: Sys, step: Step)
    requires Inv(cfg, s) && Enabled(cfg, s, step) && LoopStep(cfg, env, s, step) && Generous(cfg.specs, env)
    requires Supplied(cfg.specs, s.rows)
    ensures Supplied(cfg.specs, Apply(cfg, s, step).rows)
  {
    if step.Finish? {
      FlyingIsRunning(cfg, s, step.id);
      FinishSupplies(cfg, env, s, step);
    }
  }

  lemma FinishSupplies(cfg: Config, env: Env, s: Sys, step: Step)
    requires Enabled(cfg, s, step) && step.Finish? && LoopStep(cfg, env, s, step) && s.nodes[step.id].state == Running
    requires Generous(cfg.specs, env) && Supplied(cfg.specs, s.rows)
    ensures Supplied(cfg.specs, Apply(cfg, s, step).rows)
  {
    var n := FinishNode(cfg.specs[step.id], cfg.repairers, s.nodes[step.id], step.outcome, step.fix);
    FinishApplies(cfg, s, step.id, step.outcome, step.fix);
    OutcomeCarries(cfg, env, s, step);
    SaveSupplies(cfg.specs, s.rows, step.id, Row(n));
  }

  lemma OutcomeCarries(cfg: Config, env: Env, s: Sys, step: Step)
    requires Enabled(cfg, s, step) && step.Finish? && LoopStep(cfg, env, s, step) && Generous(cfg.specs, env)
    ensures step.outcome.Success? ==> Carries(cfg.specs, step.id, step.outcome.outputs)
  {
  }

  lemma SaveSupplies(specs: map<Id, NodeSpec>, rows: Nodes, id: Id, n: Node)
    requires Supplied(specs, rows) && (n.state == Succeeded ==> Carries(specs, id, n.outputs))
    ensures Supplied(specs, rows[id := n])
  {
  }

  /** The successes a loop run commits carry what is referenced of them, so that a later run can be started on them. */
  lemma {:induction false} RunSupplies(cfg: Config, env: Env, s: Sys, steps: seq<Step>)
    requires SpecsOk(cfg) && Inv(cfg, s) && s.live && Runs(cfg, s, steps) && LoopRun(cfg, env, s, steps)
    requires Generous(cfg.specs, env) && Supplied(cfg.specs, s.rows)
    ensures Supplied(cfg.specs, Exec(cfg, s, steps).rows)
    decreases |steps|
  {
    if steps != [] {
      StepSupplies(cfg, env, s, steps[0]);
      StepKeeps(cfg, s, steps[0]);
      LoopStaysLive(cfg, env, s, steps[0]);
      RunSupplies(cfg, env, Apply(cfg, s, steps[0]), steps[1..]);
    }
  }
}
