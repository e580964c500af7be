/** How uncancelled runs end: which nodes are blocked, when the loop aborts, and the derived run status. */
module Outcomes {
  import opened Values
  import opened States
  import opened CycleDetection
  import opened Graph
  import opened Binding
  import opened Machine
  import opened Safety
  import opened Evaluator
  import opened Schedule

  /** Records as `load_run`, `resume_run` or a retry hand them to the loop. */
  ghost predicate Loaded(cfg: Config, start: Nodes) {
    && start.Keys == cfg.specs.Keys
    && DepSafe(cfg, start)
    && forall id | id in start :: LoadedState(start[id].state)
  }

  predicate LoadedState(s: NodeState) {
    s == Pending || s == Ready || s == Succeeded || s == Failed || s == Cancelled
  }

  /** Where the loop begins: nothing in flight, and the records as they were loaded. */
  ghost predicate LoopEntry(cfg: Config, s: Sys) {
    AtEntry(cfg, s) && Loaded(cfg, s.nodes)
  }

  /** `start` and `resume` lead to such a state from anything a run, a crash or a retry leaves behind. */
  lemma EntryIsLoaded(cfg: Config, s: Sys, step: Step)
    requires Inv(cfg, s) && SpecsOk(cfg) && Enabled(cfg, s, step) && (step == Start || step == Resume)
    ensures LoopEntry(cfg, Apply(cfg, s, step))
  {
    StepKeeps(cfg, s, step);
  }

  /** `final` gives node `id` its turn, and its bindings cannot be resolved. */
  ghost predicate BindFailure(job: Job, start: Nodes, final: Nodes, id: Id)
    requires id in job.specs && id in start
  {
    Runnable(start[id].state) && DepsSucceeded(job.specs[id], final) &&
    Launch(job.specs[id], job.inputs, start[id], final).None?
  }

  ghost predicate SomeBindFailure(job: Job, start: Nodes, final: Nodes)
    requires start.Keys == job.specs.Keys
  {
    exists id :: id in job.specs && BindFailure(job, start, final, id)
  }

  lemma StartKeepsTerminal(job: Job, start: Nodes, final: Nodes, id: Id)
    requires Solves(job, start, final) && id in job.specs && IsTerminal(start[id].state)
    ensures final[id] == start[id]
  {
  }

  // The shapes a final record can take.
  lemma FinalShape(cfg: Config, job: Job, start: Nodes, final: Nodes, id: Id)
    requires job.specs == cfg.specs && Loaded(cfg, start) && Solves(job, start, final) && id in job.specs
    ensures LoadedState(final[id].state) || final[id].state == Blocked
    ensures Runnable(final[id].state) ==> final[id] == start[id]
    ensures final[id].state == Blocked <==> start[id].state == Pending && HasDeadDep(job.specs[id], final)
    ensures final[id].state == Cancelled ==> start[id].state == Cancelled
  {
    assert final[id] == EvalNode(job, start, id, final);
    var spec := job.specs[id];
    if Runnable(start[id].state) {
      match Launch(spec, job.inputs, start[id], final)
      case Some(running) => SettleEnds(job, Upstream(spec, final), id, running);
      case None =>
    }
  }

  // A node that was Ready at entry has succeeded dependencies, then and at the end.
  lemma ReadyDeps(cfg: Config, job: Job, start: Nodes, final: Nodes, id: Id)
    requires SpecsOk(cfg) && job.specs == cfg.specs && Loaded(cfg, start) && Solves(job, start, final)
    requires id in job.specs && Engaged(start[id].state)
    ensures DepsSucceeded(job.specs[id], final)
  {
    assert SpecOk(cfg, id) && DepsSucceeded(cfg.specs[id], start);
    forall d | d in job.specs[id].dependsOn
      ensures StateOf(final, d) == Succeeded
    {
      StartKeepsTerminal(job, start, final, d);
    }
  }

  // A node whose dependencies all succeed gets its turn: it is run to its end unless its bindings fail.
  lemma TurnOutcome(job: Job, start: Nodes, final: Nodes, id: Id)
    requires Solves(job, start, final) && id in job.specs
    requires Runnable(start[id].state) && DepsSucceeded(job.specs[id], final)
    ensures BindFailure(job, start, final, id) <==> final[id] == start[id]
    ensures !BindFailure(job, start, final, id) <==> final[id].state == Succeeded || final[id].state == Failed
  {
    assert final[id] == EvalNode(job, start, id, final);
    var spec := job.specs[id];
    match Launch(spec, job.inputs, start[id], final)
    case Some(running) => SettleEnds(job, Upstream(spec, final), id, running);
    case None =>
  }

  lemma NotAllSucceeded(spec: NodeSpec, nodes: Nodes)
    requires forall d | d in spec.dependsOn :: d in nodes && IsTerminal(nodes[d].state)
    ensures DepsSucceeded(spec, nodes) || HasDeadDep(spec, nodes)
  {
  }

  // Of a node that did not end, with ended dependencies, the bindings have failed.
  lemma OpenNodeFailsToBind(cfg: Config, job: Job, start: Nodes, final: Nodes, id: Id)
    requires SpecsOk(cfg) && job.specs == cfg.specs && Loaded(cfg, start) && Solves(job, start, final)
    requires id in cfg.specs && !IsTerminal(final[id].state)
    requires forall d | d in cfg.specs[id].dependsOn :: d in final && IsTerminal(final[d].state)
    ensures BindFailure(job, start, final, id)
  {
    FinalShape(cfg, job, start, final, id);
    NotAllSucceeded(cfg.specs[id], final);
    if start[id].state == Ready { ReadyDeps(cfg, job, start, final, id); }
    TurnOutcome(job, start, final, id);
  }

  /** The loop can finish exactly when no node's bindings fail: an unfinished record means a failed binding. */
  lemma UnfinishedIffBindFailure(cfg: Config, job: Job, start: Nodes, final: Nodes, order: seq<Id>)
    requires SpecsOk(cfg) && Ordered(cfg, order) && job.specs == cfg.specs
    requires Loaded(cfg, start) && Solves(job, start, final)
    ensures AllTerminal(final) <==> !SomeBindFailure(job, start, final)
  {
    if SomeBindFailure(job, start, final) {
      var id :| id in job.specs && BindFailure(job, start, final, id);
      BindFailureLeavesOpen(job, start, final, id);
    }
    if !AllTerminal(final) {
      var open :| open in final && !IsTerminal(final[open].state);
      var k: nat :| k < |order| && order[k] == open;
      var id := FirstOpenNode(cfg, final, order, k);
      OpenNodeFailsToBind(cfg, job, start, final, id);
    }
  }

  lemma BindFailureLeavesOpen(job: Job, start: Nodes, final: Nodes, id: Id)
    requires Solves(job, start, final) && id in job.specs && BindFailure(job, start, final, id)
    ensures id in final && !IsTerminal(final[id].state)
  {
    assert final[id] == EvalNode(job, start, id, final);
  }

  // A dispatch that raises in some schedule is a binding failure of the evaluator too.
  lemma AbortIsBindFailure(cfg: Config, job: Job, start: Nodes, final: Nodes, nodes: Nodes, id: Id)
    requires SpecsOk(cfg) && job.specs == cfg.specs && job.inputs == cfg.inputs && Bound(job)
    requires Solves(job, start, final) && Tracks(job, start, final, nodes)
    requires IsReady(cfg, nodes, id) && StartNode(cfg, nodes, id).None?
    ensures BindFailure(job, start, final, id)
  {
    assert SpecOk(cfg, id);
    SucceededAreFinal(job, start, final, nodes, id);
    LaunchCongruent(job.specs[id], job.inputs, nodes[id], nodes, final);
    assert OnTheWay(job, start, final, id, nodes[id]);
  }

  // ------------------------------------------------------------------------------------ blocked nodes

  /** A walk along `depends_on`, from a node to one of its ancestors. */
  ghost predicate Chain(cfg: Config, p: seq<Id>) {
    forall i | 0 <= i < |p| - 1 :: p[i] in cfg.specs && p[i + 1] in cfg.specs[p[i]].dependsOn
  }

  ghost predicate ChainTo(cfg: Config, id: Id, p: seq<Id>, ancestor: Id) {
    |p| >= 2 && p[0] == id && p[|p| - 1] == ancestor && Chain(cfg, p)
  }

  ghost predicate StrictAncestor(cfg: Config, id: Id, ancestor: Id) {
    exists p :: ChainTo(cfg, id, p, ancestor)
  }

  ghost predicate Killed(nodes: Nodes, id: Id) {
    StateOf(nodes, id) == Failed || StateOf(nodes, id) == Cancelled
  }

  lemma ConsChain(cfg: Config, id: Id, d: Id, p: seq<Id>, ancestor: Id)
    requires id in cfg.specs && d in cfg.specs[id].dependsOn && ChainTo(cfg, d, p, ancestor)
    ensures StrictAncestor(cfg, id, ancestor)
  {
    var q := [id] + p;
    forall i | 0 <= i < |q| - 1
      ensures q[i] in cfg.specs && q[i + 1] in cfg.specs[q[i]].dependsOn
    {
      assert i > 0 ==> q[i] == p[i - 1] && q[i + 1] == p[i - 1 + 1];
    }
    assert ChainTo(cfg, id, q, ancestor);
  }

  // Below a killed ancestor everything is blocked.
  lemma {:induction false} ChainBlocks(cfg: Config, job: Job, start: Nodes, final: Nodes, id: Id, p: seq<Id>,
                                       ancestor: Id)
    requires SpecsOk(cfg) && job.specs == cfg.specs && Loaded(cfg, start) && Solves(job, start, final)
    requires ChainTo(cfg, id, p, ancestor) && Killed(final, ancestor)
    ensures id in final && final[id].state == Blocked
    decreases |p|
  {
    var d := p[1];
    assert id in cfg.specs && d in cfg.specs[id].dependsOn;
    if |p| > 2 {
      var tail := p[1..];
      forall i | 0 <= i < |tail| - 1
        ensures tail[i] in cfg.specs && tail[i + 1] in cfg.specs[tail[i]].dependsOn
      {
        assert tail[i] == p[i + 1] && tail[i + 1] == p[i + 1 + 1];
      }
      ChainBlocks(cfg, job, start, final, d, tail, ancestor);
    }
    assert IsDead(StateOf(final, d));
    if Engaged(start[id].state) {
      ReadyDeps(cfg, job, start, final, id);
      assert false;
    }
    FinalShape(cfg, job, start, final, id);
  }

  lemma DeadDepOf(cfg: Config, job: Job, start: Nodes, final: Nodes, id: Id) returns (d: Id)
    requires SpecsOk(cfg) && job.specs == cfg.specs && Loaded(cfg, start) && Solves(job, start, final)
    requires id in cfg.specs && final[id].state == Blocked
    ensures d in cfg.specs[id].dependsOn && d in cfg.specs && (Killed(final, d) || final[d].state == Blocked)
  {
    FinalShape(cfg, job, start, final, id);
    d :| d in cfg.specs[id].dependsOn && IsDead(StateOf(final, d));
    assert SpecOk(cfg, id);
    FinalShape(cfg, job, start, final, d);
  }

  // A blocked node has a killed strict ancestor: follow dead dependencies down the order.
  lemma {:induction false} BlockedHasCause(cfg: Config, job: Job, start: Nodes, final: Nodes, order: seq<Id>, k: nat)
    returns (ancestor: Id)
    requires SpecsOk(cfg) && Ordered(cfg, order) && job.specs == cfg.specs
    requires Loaded(cfg, start) && Solves(job, start, final)
    requires k < |order| && final[order[k]].state == Blocked
    ensures StrictAncestor(cfg, order[k], ancestor) && Killed(final, ancestor)
  {
    var id := order[k];
    var d := DeadDepOf(cfg, job, start, final, id);
    if final[d].state == Blocked {
      assert d in order[..k];
      var j: nat :| j < k && order[j] == d;
      ancestor := BlockedHasCause(cfg, job, start, final, order, j);
      var p :| ChainTo(cfg, d, p, ancestor);
      ConsChain(cfg, id, d, p, ancestor);
    } else {
      ancestor := d;
      assert ChainTo(cfg, id, [id, d], d);
    }
  }

  /** A node ends Blocked if and only if one of its strict ancestors ended Failed (or was left Cancelled). */
  lemma BlockedIffKilledAncestor(cfg: Config, job: Job, start: Nodes, final: Nodes, order: seq<Id>, id: Id)
    requires SpecsOk(cfg) && Ordered(cfg, order) && job.specs == cfg.specs
    requires Loaded(cfg, start) && Solves(job, start, final) && id in cfg.specs
    ensures final[id].state == Blocked <==> exists a :: StrictAncestor(cfg, id, a) && Killed(final, a)
  {
    if final[id].state == Blocked {
      var k: nat :| k < |order| && order[k] == id;
      var a := BlockedHasCause(cfg, job, start, final, order, k);
    }
    if a :| StrictAncestor(cfg, id, a) && Killed(final, a) {
      var p :| ChainTo(cfg, id, p, a);
      ChainBlocks(cfg, job, start, final, id, p, a);
    }
  }

  // ------------------------------------------------------------------------------------ the final status

  lemma StatesOfCovers(cfg: Config, nodes: Nodes, state: NodeState)
    requires WellFormed(cfg) && nodes.Keys == cfg.specs.Keys
    ensures state in StatesOf(cfg, nodes) <==> exists id :: id in nodes && nodes[id].state == state
  {
    if id :| id in nodes && nodes[id].state == state {
      var k: nat :| k < |cfg.listing| && cfg.listing[k] == id;
      assert StatesOf(cfg, nodes)[k] == state;
    }
    if state in StatesOf(cfg, nodes) {
      var k: nat :| k < |cfg.listing| && StatesOf(cfg, nodes)[k] == state;
      assert cfg.listing[k] in nodes;
    }
  }

  ghost predicate AllSucceeded(nodes: Nodes) { forall id | id in nodes :: nodes[id].state == Succeeded }

  ghost predicate NoneSucceeded(nodes: Nodes) { forall id | id in nodes :: nodes[id].state != Succeeded }

  ghost predicate NoneCancelled(nodes: Nodes) { forall id | id in nodes :: nodes[id].state != Cancelled }

  predicate Concluded(s: NodeState) { s == Succeeded || s == Failed || s == Blocked }

  lemma StatusOfNodes(cfg: Config, nodes: Nodes)
    requires WellFormed(cfg) && cfg.specs.Keys != {} && nodes.Keys == cfg.specs.Keys && NoneCancelled(nodes)
    ensures var status := DetermineRunStatus(StatesOf(cfg, nodes));
            && (status == RunSucceeded <==> AllSucceeded(nodes))
            && (status == RunFailed <==> NoneSucceeded(nodes))
            && (status == RunSucceeded || status == RunFailed || status == RunPartial)
  {
    var states := StatesOf(cfg, nodes);
    var some :| some in cfg.specs.Keys;
    StatesOfCovers(cfg, nodes, nodes[some].state);
    StatesOfCovers(cfg, nodes, Cancelled);
    StatesOfCovers(cfg, nodes, Succeeded);
    StatusWithoutCancel(states);
    if AllSucceeded(nodes) {
      forall state | state in states ensures state == Succeeded { StatesOfCovers(cfg, nodes, state); }
    } else {
      var id :| id in nodes && nodes[id].state != Succeeded;
      StatesOfCovers(cfg, nodes, nodes[id].state);
    }
  }

  /**
   * The end of an uncancelled run that started with no cancelled record: Succeeded, Failed or Blocked nodes only,
   * and a status that says whether all, some or none of them succeeded, never Cancelled.
   */
  lemma FinalStatus(cfg: Config, job: Job, start: Nodes, final: Nodes)
    requires WellFormed(cfg) && cfg.specs.Keys != {} && job.specs == cfg.specs
    requires Loaded(cfg, start) && NoneCancelled(start) && Solves(job, start, final) && AllTerminal(final)
    ensures forall id | id in final :: Concluded(final[id].state)
    ensures var status := DetermineRunStatus(StatesOf(cfg, final));
            && (status == RunSucceeded <==> AllSucceeded(final))
            && (status == RunFailed <==> NoneSucceeded(final))
            && (status == RunSucceeded || status == RunFailed || status == RunPartial)
  {
    forall id | id in final
      ensures Concluded(final[id].state)
    {
      FinalShape(cfg, job, start, final, id);
    }
    StatusOfNodes(cfg, final);
  }

  // ------------------------------------------------------------------------------------ ends of runs

  // The nodes at the end of a loop run are a solution of the evaluator's equations.
  lemma EndSolves(cfg: Config, env: Env, s: Sys, steps: seq<Step>, order: seq<Id>)
    requires SpecsOk(cfg) && WellBound(cfg) && Ordered(cfg, order) && AtEntry(cfg, s)
    requires Runs(cfg, s, steps) && LoopRun(cfg, env, s, steps) && AllTerminal(Exec(cfg, s, steps).nodes)
    ensures Solves(JobOf(cfg, env), s.nodes, Exec(cfg, s, steps).nodes)
  {
    ScheduleIndependence(cfg, env, s, steps, order);
    EvalSolves(cfg, JobOf(cfg, env), s.nodes, order);
  }

  /**
   * When a run has ended, a node is Blocked if and only if one of its strict ancestors Failed or was left Cancelled;
   * without cancelled records at the entry, if and only if one of them Failed.
   */
  lemma RunBlocksIff(cfg: Config, env: Env, s: Sys, steps: seq<Step>, order: seq<Id>, id: Id)
    requires SpecsOk(cfg) && WellBound(cfg) && Ordered(cfg, order) && LoopEntry(cfg, s) && id in cfg.specs
    requires Runs(cfg, s, steps) && LoopRun(cfg, env, s, steps) && AllTerminal(Exec(cfg, s, steps).nodes)
    ensures var end := Exec(cfg, s, steps).nodes;
            && id in end
            && (end[id].state == Blocked <==> exists a :: StrictAncestor(cfg, id, a) && Killed(end, a))
            && (NoneCancelled(s.nodes) ==>
                  (end[id].state == Blocked <==> exists a :: StrictAncestor(cfg, id, a) && StateOf(end, a) == Failed))
  {
    EndSolves(cfg, env, s, steps, order);
    BlockedIffKilledAncestor(cfg, JobOf(cfg, env), s.nodes, Exec(cfg, s, steps).nodes, order, id);
    if NoneCancelled(s.nodes) { NoneCancelledAtEnd(cfg, JobOf(cfg, env), s.nodes, Exec(cfg, s, steps).nodes); }
  }

  lemma NoneCancelledAtEnd(cfg: Config, job: Job, start: Nodes, final: Nodes)
    requires job.specs == cfg.specs && Loaded(cfg, start) && NoneCancelled(start) && Solves(job, start, final)
    ensures NoneCancelled(final)
  {
    forall id | id in final
      ensures final[id].state != Cancelled
    {
      FinalShape(cfg, job, start, final, id);
    }
  }

  /**
   * A run without cancelled records that has ended can be completed, has Succeeded, Failed and Blocked nodes only, and
   * gets a status that says whether all, none or some of them succeeded.
   */
  lemma RunStatus(cfg: Config, env: Env, s: Sys, steps: seq<Step>, order: seq<Id>)
    requires WellFormed(cfg) && WellBound(cfg) && Ordered(cfg, order) && LoopEntry(cfg, s) && NoneCancelled(s.nodes)
    requires Runs(cfg, s, steps) && LoopRun(cfg, env, s, steps) && AllTerminal(Exec(cfg, s, steps).nodes)
    requires cfg.specs.Keys != {}
    ensures Enabled(cfg, Exec(cfg, s, steps), Complete)
    ensures var end := Exec(cfg, s, steps).nodes; var status := Apply(cfg, Exec(cfg, s, steps), Complete).status;
            && (forall id | id in end :: Concluded(end[id].state))
            && (status == RunSucceeded <==> AllSucceeded(end))
            && (status == RunFailed <==> NoneSucceeded(end))
            && (status == RunSucceeded || status == RunFailed || status == RunPartial)
  {
    EndSolves(cfg, env, s, steps, order);
    FinalStatus(cfg, JobOf(cfg, env), s.nodes, Exec(cfg, s, steps).nodes);
    LoopRunKeeps(cfg, env, s, steps);
    EndCanComplete(cfg, Exec(cfg, s, steps));
  }

  lemma EndCanComplete(cfg: Config, s: Sys)
    requires Inv(cfg, s) && s.live && AllTerminal(s.nodes)
    ensures Enabled(cfg, s, Complete)
    ensures Apply(cfg, s, Complete).status == DetermineRunStatus(StatesOf(cfg, s.nodes))
  {
    NothingRuns(cfg, s.nodes, s.flying);
  }

  lemma NothingRuns(cfg: Config, nodes: Nodes, flying: set<Id>)
    requires flying == RunningIds(nodes) && AllTerminal(nodes)
    ensures flying == {} && !AnyReady(cfg, nodes)
  {
  }
}
