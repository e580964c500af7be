/** Starting on the rows of a process that died: when the loop can complete, and when it never does. */
module Orphans {
  import opened Values
  import opened States
  import opened CycleDetection
  import opened Graph
  import opened Binding
  import opened Machine
  import opened Safety
  import opened Evaluator
  import opened Schedule
  import opened Outcomes
  import opened Supply

  /** The loop entered on rows as they stand, whatever they say. */
  function StartedOn(cfg: Config, rows: Nodes): Sys { Sys(true, Load(cfg, rows), {}, rows, RunRunning) }

  /** A record that says it is executing although no future belongs to it. */
  predicate Orphaned(s: Sys, id: Id) {
    id in s.nodes && (s.nodes[id].state == Running || s.nodes[id].state == Repairing) && id !in s.flying
  }

  lemma StepKeepsOrphan(cfg: Config, env: Env, s: Sys, step: Step, id: Id)
    requires Enabled(cfg, s, step) && LoopStep(cfg, env, s, step) && Orphaned(s, id)
    ensures Orphaned(Apply(cfg, s, step), id)
  {
    if step.Block? { BlockFrame(cfg, s.nodes, |cfg.listing|); }
  }

  // No step of the loop ever touches an orphan.
  lemma {:induction false} RunKeepsOrphan(cfg: Config, env: Env, s: Sys, steps: seq<Step>, id: Id)
    requires Runs(cfg, s, steps) && LoopRun(cfg, env, s, steps) && Orphaned(s, id)
    ensures Orphaned(Exec(cfg, s, steps), id)
    decreases |steps|
  {
    if steps != [] {
      StepKeepsOrphan(cfg, env, s, steps[0], id);
      RunKeepsOrphan(cfg, env, Apply(cfg, s, steps[0]), steps[1..], id);
    }
  }

  /** The loop can get to its end from `s`. */
  ghost predicate CanComplete(cfg: Config, env: Env, s: Sys) {
    exists steps :: CompletesAfter(cfg, env, s, steps)
  }

  ghost predicate CompletesAfter(cfg: Config, env: Env, s: Sys, steps: seq<Step>) {
    Runs(cfg, s, steps) && LoopRun(cfg, env, s, steps) && Enabled(cfg, Exec(cfg, s, steps), Complete)
  }

  lemma OrphanNeverCompletes(cfg: Config, env: Env, s: Sys, steps: seq<Step>, id: Id)
    requires Orphaned(s, id)
    ensures !CompletesAfter(cfg, env, s, steps)
  {
    if CompletesAfter(cfg, env, s, steps) {
      RunKeepsOrphan(cfg, env, s, steps, id);
      assert false;
    }
  }

  // A step that does some of the work that is left.
  lemma NextStep(cfg: Config, env: Env, start: Nodes, final: Nodes, order: seq<Id>, s: Sys) returns (step: Step)
    requires WellFormed(cfg) && WellBound(cfg) && Ordered(cfg, order) && Inv(cfg, s) && s.live && !AllTerminal(s.nodes)
    requires Solves(JobOf(cfg, env), start, final) && Tracks(JobOf(cfg, env), start, final, s.nodes)
    requires !SomeBindFailure(JobOf(cfg, env), start, final)
    ensures Enabled(cfg, s, step) && LoopStep(cfg, env, s, step)
    ensures Measure(cfg, Apply(cfg, s, step).nodes) < Measure(cfg, s.nodes)
  {
    if s.flying != {} {
      step := NextFinish(cfg, env, s);
    } else if AnyReady(cfg, s.nodes) {
      step := NextDispatch(cfg, env, start, final, s);
    } else {
      step := Block;
      IdleProgress(cfg, s.nodes, order);
    }
  }

  lemma NextFinish(cfg: Config, env: Env, s: Sys) returns (step: Step)
    requires WellFormed(cfg) && Inv(cfg, s) && s.live && s.flying != {}
    ensures Enabled(cfg, s, step) && LoopStep(cfg, env, s, step)
    ensures Measure(cfg, Apply(cfg, s, step).nodes) < Measure(cfg, s.nodes)
  {
    var id :| id in s.flying;
    FlyingIsRunning(cfg, s, id);
    var outcome := env.tool(id, s.nodes[id], Upstream(cfg.specs[id], s.nodes));
    step := Finish(id, outcome, FixFor(env, cfg.specs[id], cfg.repairers, id, s.nodes[id], outcome));
    StepMeasure(cfg, env, s, step);
  }

  lemma NextDispatch(cfg: Config, env: Env, start: Nodes, final: Nodes, s: Sys) returns (step: Step)
    requires WellFormed(cfg) && WellBound(cfg) && Inv(cfg, s) && s.live && s.flying == {} && AnyReady(cfg, s.nodes)
    requires Solves(JobOf(cfg, env), start, final) && Tracks(JobOf(cfg, env), start, final, s.nodes)
    requires !SomeBindFailure(JobOf(cfg, env), start, final)
    ensures Enabled(cfg, s, step) && LoopStep(cfg, env, s, step)
    ensures Measure(cfg, Apply(cfg, s, step).nodes) < Measure(cfg, s.nodes)
  {
    var id :| id in cfg.specs && IsReady(cfg, s.nodes, id);
    if StartNode(cfg, s.nodes, id).None? {
      AbortIsBindFailure(cfg, JobOf(cfg, env), start, final, s.nodes, id);
      assert false;
    }
    step := Dispatch(id);
    StepMeasure(cfg, env, s, step);
  }

  lemma {:induction false} SomeRunEnds(cfg: Config, env: Env, start: Nodes, final: Nodes, order: seq<Id>, s: Sys)
    returns (steps: seq<Step>)
    requires WellFormed(cfg) && WellBound(cfg) && Ordered(cfg, order) && Inv(cfg, s) && s.live
    requires Solves(JobOf(cfg, env), start, final) && Tracks(JobOf(cfg, env), start, final, s.nodes)
    requires !SomeBindFailure(JobOf(cfg, env), start, final)
    ensures CompletesAfter(cfg, env, s, steps)
    decreases Measure(cfg, s.nodes)
  {
    if AllTerminal(s.nodes) {
      steps := [];
      EndCanComplete(cfg, s);
    } else {
      var step := NextStep(cfg, env, start, final, order, s);
      StepTracks(cfg, env, start, final, s, step);
      StepKeeps(cfg, s, step);
      LoopStaysLive(cfg, env, s, step);
      var rest := SomeRunEnds(cfg, env, start, final, order, Apply(cfg, s, step));
      steps := [step] + rest;
      assert steps[1..] == rest;
    }
  }

  /**
   * With tools that yield every referenced key, `start` on loadable rows can complete if and only if no row says
   * Running or Repairing: a row left by a process that died keeps the loop turning for ever, and is for `resume`.
   */
  lemma StartCompletesIff(cfg: Config, env: Env, rows: Nodes, order: seq<Id>)
    requires WellFormed(cfg) && WellBound(cfg) && Ordered(cfg, order) && RowsOk(cfg, rows)
    requires Generous(cfg.specs, env) && Supplied(cfg.specs, Load(cfg, rows))
    ensures CanComplete(cfg, env, StartedOn(cfg, rows)) <==> NoOrphans(rows)
  {
    var s, job := StartedOn(cfg, rows), JobOf(cfg, env);
    if NoOrphans(rows) {
      StartKeeps(cfg, s);
      EvalSolves(cfg, job, s.nodes, order);
      var final := Evaluate(job, s.nodes, order);
      GenerousToolsBind(cfg, env, s.nodes, final);
      EntryTracks(cfg, job, s, final);
      var steps := SomeRunEnds(cfg, env, s.nodes, final, order, s);
    } else {
      var id :| id in rows && (rows[id].state == Running || rows[id].state == Repairing);
      assert Orphaned(s, id);
      forall steps ensures !CompletesAfter(cfg, env, s, steps) { OrphanNeverCompletes(cfg, env, s, steps, id); }
    }
  }
}
