/**
 * The rules of the scheduler loop, action by action, in terms of templates, errors, handlers and stored rows only: what
 * a node is dispatched with, what its tool is run with, and what becomes of it by what the tool answers.
 */
module Rules {
  import opened Values
  import opened States
  import opened CycleDetection
  import opened Graph
  import opened Binding
  import opened Machine
  import opened Safety
  import opened Evaluator
  import opened Schedule
  import opened Outcomes
  import opened Recovery

  /** The only thing that changes among the records is node `id`. */
  ghost predicate OnlyAt(before: Nodes, after: Nodes, id: Id) {
    && id in after
    && (forall x | x != id :: x in after <==> x in before)
    && (forall x | x != id && x in before :: after[x] == before[x])
  }

  /** The stored row carries everything of the record but the flag of resolved bindings. */
  ghost predicate StoredAs(row: Node, n: Node) {
    && row.state == n.state && row.attempt == n.attempt && row.repairs == n.repairs
    && row.params == n.params && row.outputs == n.outputs && !row.resolved
  }

  // ------------------------------------------------------------------------------------ dispatch

  /** A dispatch: dependencies stored as succeeded, a free slot, one more attempt, bindings resolved only once. */
  ghost predicate DispatchRule(cfg: Config, s: Sys, id: Id, after: Sys) {
    && id in cfg.specs && id in s.nodes && |s.flying| < cfg.maxConcurrency
    && (s.nodes[id].state == Pending || s.nodes[id].state == Ready)
    && (forall d | d in cfg.specs[id].dependsOn :: d in s.rows && s.rows[d].state == Succeeded)
    && OnlyAt(s.nodes, after.nodes, id) && OnlyAt(s.rows, after.rows, id)
    && after.flying == s.flying + {id} && StoredAs(after.rows[id], after.nodes[id])
    && LaunchRule(cfg, s.nodes, id, after.nodes[id])
  }

  ghost predicate LaunchRule(cfg: Config, nodes: Nodes, id: Id, m: Node)
    requires id in cfg.specs && id in nodes
  {
    var n := nodes[id];
    && m.state == Running && m.attempt == n.attempt + 1 && m.repairs == n.repairs && m.outputs == n.outputs
    && m.resolved
    && (if n.resolved then m.params == n.params
        else ResolveParams(cfg.specs[id].params, cfg.inputs, nodes) == Some(m.params))
  }

  // A success in memory is stored, with its outputs.
  lemma SuccessIsStored(cfg: Config, nodes: Nodes, rows: Nodes, id: Id)
    requires Synced(cfg, nodes, rows) && id in cfg.specs && nodes[id].state == Succeeded
    ensures id in rows && rows[id].state == Succeeded && rows[id].outputs == nodes[id].outputs
  {
    assert Durable(nodes[id]) == Durable(Load(cfg, rows)[id]);
  }

  lemma DependenciesAreStored(cfg: Config, s: Sys, id: Id)
    requires SpecsOk(cfg) && Inv(cfg, s) && s.live && id in cfg.specs && DepsSucceeded(cfg.specs[id], s.nodes)
    ensures forall d | d in cfg.specs[id].dependsOn ::
              && d in s.nodes && d in s.rows && s.rows[d].state == Succeeded && s.rows[d].outputs == s.nodes[d].outputs
  {
    assert SpecOk(cfg, id);
    forall d | d in cfg.specs[id].dependsOn { SuccessIsStored(cfg, s.nodes, s.rows, d); }
  }

  lemma DispatchFollows(cfg: Config, s: Sys, id: Id)
    requires SpecsOk(cfg) && Inv(cfg, s) && Enabled(cfg, s, Dispatch(id))
    ensures DispatchRule(cfg, s, id, Apply(cfg, s, Dispatch(id)))
  {
    var after := Apply(cfg, s, Dispatch(id));
    DispatchSaves(cfg, s, id);
    Launched(cfg, s.nodes, id);
    assert id in cfg.specs && id in s.nodes && OnlyAt(s.nodes, after.nodes, id) && OnlyAt(s.rows, after.rows, id);
    assert DepsSucceeded(cfg.specs[id], s.nodes);
    DependenciesAreStored(cfg, s, id);
  }

  lemma Launched(cfg: Config, nodes: Nodes, id: Id)
    requires id in cfg.specs && id in nodes && StartNode(cfg, nodes, id).Some?
    ensures LaunchRule(cfg, nodes, id, StartNode(cfg, nodes, id).value)
  {
  }

  lemma DispatchSaves(cfg: Config, s: Sys, id: Id)
    requires Enabled(cfg, s, Dispatch(id))
    ensures var n, after := StartNode(cfg, s.nodes, id).value, Apply(cfg, s, Dispatch(id));
            && OnlyAt(s.nodes, after.nodes, id) && OnlyAt(s.rows, after.rows, id)
            && after.flying == s.flying + {id} && after.nodes[id] == n && StoredAs(after.rows[id], n)
  {
  }

  // ------------------------------------------------------------------------------------ finish

  /** What the tool of `id` is run with: the committed outputs of exactly its declared dependencies. */
  ghost predicate CommittedUpstream(cfg: Config, s: Sys, id: Id, upstream: map<Id, Outputs>)
    requires id in cfg.specs
  {
    && (forall d :: d in upstream <==> d in cfg.specs[id].dependsOn)
    && (forall d | d in upstream :: d in s.rows && s.rows[d].state == Succeeded && upstream[d] == s.rows[d].outputs)
  }

  /** The outcome is the tool's answer to the running record and its committed upstream outputs. */
  ghost predicate ToolAnswered(cfg: Config, env: Env, s: Sys, id: Id, outcome: Outcome)
    requires id in cfg.specs && id in s.nodes
  {
    exists upstream :: CommittedUpstream(cfg, s, id, upstream) && outcome == env.tool(id, s.nodes[id], upstream)
  }

  /**
   * The failure goes to a repair handler: it is repairable, repairs are left, and there is a handler: the named one if
   * the node names one, none if it names the empty string, else any that is registered.
   */
  predicate GoesToHandler(cfg: Config, n: Node, id: Id, error: ToolError)
    requires id in cfg.specs
  {
    && error.repairable
    && n.repairs < cfg.specs[id].maxRepairAttempts
    && (if cfg.specs[id].repair.Some?
        then cfg.specs[id].repair.value != "" && cfg.specs[id].repair.value in cfg.repairers
        else |cfg.repairers| > 0)
  }

  /** The record after a success, or after a failure that a handler answered, or after one that none did. */
  ghost predicate OutcomeRule(cfg: Config, id: Id, n: Node, outcome: Outcome, answer: Fix, m: Node)
    requires id in cfg.specs
  {
    && m.attempt == n.attempt && m.resolved == n.resolved
    && if outcome.Success? then
         m.state == Succeeded && m.outputs == outcome.outputs && m.params == n.params && m.repairs == n.repairs
       else if GoesToHandler(cfg, n, id, outcome.error) then
         && m.repairs == n.repairs + 1 && m.params == answer.params && m.outputs == n.outputs
         && m.state == (if answer.requeue then Ready else Failed)
       else
         && m.repairs == n.repairs && m.params == n.params && m.outputs == n.outputs
         && m.state == (if n.attempt < cfg.specs[id].maxAttempts then Ready else Failed)
  }

  /** A failure that goes to a handler goes to the one the node names, else to the first one registered. */
  ghost function AnswerOf(cfg: Config, env: Env, id: Id, n: Node, error: ToolError): Fix
    requires id in cfg.specs
  {
    if !GoesToHandler(cfg, n, id, error) then Fix(false, n.params)
    else if cfg.specs[id].repair.Some? then env.repair(cfg.specs[id].repair.value, id, n, error)
    else env.repair(cfg.repairers[0], id, n, error)
  }

  /** A finish: the tool's answer, the handler's answer to a failure that goes to it, and the record that results. */
  ghost predicate FinishRule(cfg: Config, env: Env, s: Sys, id: Id, outcome: Outcome, after: Sys) {
    && id in cfg.specs && id in s.nodes && id in s.flying && s.nodes[id].state == Running
    && ToolAnswered(cfg, env, s, id, outcome)
    && OnlyAt(s.nodes, after.nodes, id) && OnlyAt(s.rows, after.rows, id)
    && after.flying == s.flying - {id} && StoredAs(after.rows[id], after.nodes[id])
    && var n := s.nodes[id];
       var answer := if outcome.Failure? then AnswerOf(cfg, env, id, n, outcome.error) else Fix(false, n.params);
       OutcomeRule(cfg, id, n, outcome, answer, after.nodes[id])
  }

  lemma UpstreamIsCommitted(cfg: Config, s: Sys, id: Id)
    requires SpecsOk(cfg) && Inv(cfg, s) && s.live && id in s.flying
    ensures id in cfg.specs && CommittedUpstream(cfg, s, id, Upstream(cfg.specs[id], s.nodes))
  {
    FlyingIsRunning(cfg, s, id);
    assert DepsSucceeded(cfg.specs[id], s.nodes);
    DependenciesAreStored(cfg, s, id);
  }

  lemma FinishedNode(cfg: Config, id: Id, n: Node, outcome: Outcome, answer: Fix)
    requires id in cfg.specs
    ensures OutcomeRule(cfg, id, n, outcome, answer, FinishNode(cfg.specs[id], cfg.repairers, n, outcome, answer))
  {
  }

  lemma FailedNode(cfg: Config, env: Env, id: Id, n: Node, error: ToolError)
    requires id in cfg.specs
    ensures var fix := env.repair(HandlerName(cfg.specs[id], cfg.repairers), id, n, error);
            OutcomeRule(cfg, id, n, Failure(error), AnswerOf(cfg, env, id, n, error),
                        FinishNode(cfg.specs[id], cfg.repairers, n, Failure(error), fix))
  {
  }

  lemma SavedFrame(s: Sys, id: Id, n: Node)
    ensures var after := Saved(s, id, n);
            && OnlyAt(s.nodes, after.nodes, id) && OnlyAt(s.rows, after.rows, id)
            && after.flying == s.flying - {id} && after.nodes[id] == n && StoredAs(after.rows[id], n)
  {
  }

  lemma AnswerIsTools(cfg: Config, env: Env, s: Sys, id: Id, outcome: Outcome)
    requires SpecsOk(cfg) && Inv(cfg, s) && s.live && id in s.flying && id in cfg.specs && id in s.nodes
    requires outcome == env.tool(id, s.nodes[id], Upstream(cfg.specs[id], s.nodes))
    ensures ToolAnswered(cfg, env, s, id, outcome)
  {
    UpstreamIsCommitted(cfg, s, id);
  }

  lemma FinishFollows(cfg: Config, env: Env, s: Sys, step: Step)
    requires SpecsOk(cfg) && Inv(cfg, s) && Enabled(cfg, s, step) && step.Finish? && LoopStep(cfg, env, s, step)
    ensures FinishRule(cfg, env, s, step.id, step.outcome, Apply(cfg, s, step))
  {
    var id := step.id;
    AnswerIsTools(cfg, env, s, id, step.outcome);
    FlyingIsRunning(cfg, s, id);
    FinishApplies(cfg, s, id, step.outcome, step.fix);
    FinishedNode(cfg, id, s.nodes[id], step.outcome, step.fix);
    SavedFrame(s, id, FinishNode(cfg.specs[id], cfg.repairers, s.nodes[id], step.outcome, step.fix));
  }

  // ------------------------------------------------------------------------------------ block

  /** Some dependency of `id` can no longer succeed. */
  ghost predicate DeadDependency(cfg: Config, nodes: Nodes, id: Id)
    requires id in cfg.specs
  {
    exists d | d in cfg.specs[id].dependsOn && d in nodes ::
      nodes[d].state == Failed || nodes[d].state == Blocked || nodes[d].state == Cancelled || nodes[d].state == Skipped
  }

  /**
   * A blocking pass turns the Pending nodes with a dead dependency Blocked, possibly one that it has just blocked
   * itself, and does nothing else.
   */
  ghost predicate BlockRule(cfg: Config, s: Sys, after: Sys) {
    && after.flying == s.flying && after.rows == s.rows
    && (forall id :: id in after.nodes <==> id in s.nodes)
    && (forall id | id in s.nodes :: BlockedOrSame(cfg, s.nodes, after.nodes, id))
    && forall id | id in cfg.listing && id in s.nodes && id in cfg.specs ::
         s.nodes[id].state == Pending && DeadDependency(cfg, s.nodes, id) ==> after.nodes[id].state == Blocked
  }

  ghost predicate BlockedOrSame(cfg: Config, before: Nodes, after: Nodes, id: Id)
    requires id in before && id in after
  {
    || after[id] == before[id]
    || (&& before[id].state == Pending && after[id] == before[id].(state := Blocked)
        && id in cfg.specs && DeadDependency(cfg, after, id))
  }

  lemma DeadDependencyMeans(cfg: Config, nodes: Nodes, id: Id)
    requires id in cfg.specs
    ensures HasDeadDep(cfg.specs[id], nodes) <==> DeadDependency(cfg, nodes, id)
  {
  }

  lemma {:induction false} PassHasCause(cfg: Config, nodes: Nodes, k: nat)
    requires k <= |cfg.listing|
    ensures BlockPrefix(cfg, nodes, k).Keys == nodes.Keys
    ensures forall id | id in nodes :: BlockedOrSame(cfg, nodes, BlockPrefix(cfg, nodes, k), id)
  {
    if k > 0 {
      var before, x := BlockPrefix(cfg, nodes, k - 1), cfg.listing[k - 1];
      PassHasCause(cfg, nodes, k - 1);
      if x in cfg.specs { DeadDependencyMeans(cfg, before, x); }
      forall id | id in nodes
        ensures BlockedOrSame(cfg, nodes, BlockNode(cfg, before, x), id)
      {
        if id in cfg.specs { StillDead(cfg, before, x, id); }
      }
    }
  }

  // Blocking one more node leaves a dead dependency dead.
  lemma StillDead(cfg: Config, nodes: Nodes, x: Id, id: Id)
    requires id in cfg.specs
    ensures DeadDependency(cfg, nodes, id) ==> DeadDependency(cfg, BlockNode(cfg, nodes, x), id)
  {
  }

  lemma BlockFollows(cfg: Config, s: Sys)
    requires Enabled(cfg, s, Block)
    ensures BlockRule(cfg, s, Apply(cfg, s, Block))
  {
    PassHasCause(cfg, s.nodes, |cfg.listing|);
    forall id | id in cfg.listing && id in s.nodes && id in cfg.specs && s.nodes[id].state == Pending
                && DeadDependency(cfg, s.nodes, id)
      ensures BlockPass(cfg, s.nodes)[id].state == Blocked
    {
      DeadDependencyMeans(cfg, s.nodes, id);
      PassBlocks(cfg, s.nodes, |cfg.listing|, id);
    }
  }

  // ------------------------------------------------------------------------------------ whole runs

  /** The step is one of the loop's three actions and follows its rule. */
  ghost predicate ByTheRules(cfg: Config, env: Env, s: Sys, step: Step, after: Sys) {
    match step
    case Block => BlockRule(cfg, s, after)
    case Dispatch(id) => DispatchRule(cfg, s, id, after)
    case Finish(id, outcome, _) => FinishRule(cfg, env, s, id, outcome, after)
    case _ => false
  }

  lemma StepFollows(cfg: Config, env: Env, s: Sys, step: Step)
    requires SpecsOk(cfg) && Inv(cfg, s) && Enabled(cfg, s, step) && LoopStep(cfg, env, s, step)
    ensures ByTheRules(cfg, env, s, step, Apply(cfg, s, step))
  {
    if step.Block? {
      BlockFollows(cfg, s);
    } else if step.Dispatch? {
      DispatchFollows(cfg, s, step.id);
    } else {
      FinishFollows(cfg, env, s, step);
    }
  }

  /** Every step of the run follows the rules. */
  ghost predicate RunByTheRules(cfg: Config, env: Env, s: Sys, steps: seq<Step>)
    requires Runs(cfg, s, steps)
    decreases |steps|
  {
    steps == [] ||
    (&& ByTheRules(cfg, env, s, steps[0], Apply(cfg, s, steps[0]))
     && RunByTheRules(cfg, env, Apply(cfg, s, steps[0]), steps[1..]))
  }

  /** Every step of every loop run follows the rules. */
  lemma {:induction false} LoopFollowsRules(cfg: Config, env: Env, s: Sys, steps: seq<Step>)
    requires SpecsOk(cfg) && Inv(cfg, s) && s.live && Runs(cfg, s, steps) && LoopRun(cfg, env, s, steps)
    ensures RunByTheRules(cfg, env, s, steps)
    decreases |steps|
  {
    if steps != [] {
      StepFollows(cfg, env, s, steps[0]);
      LoopTail(cfg, env, s, steps);
      LoopFollowsRules(cfg, env, Apply(cfg, s, steps[0]), steps[1..]);
    }
  }

  /** The same of the trace that the imperative loop builds up. */
  ghost predicate TraceByTheRules(cfg: Config, env: Env, t: Trace) {
    t.Then? ==> ByTheRules(cfg, env, t.before.s, t.step, t.s) && TraceByTheRules(cfg, env, t.before)
  }

  lemma {:induction false} TraceFollowsRules(cfg: Config, env: Env, t: Trace)
    requires Traced(cfg, env, t)
    ensures TraceByTheRules(cfg, env, t)
    decreases t
  {
    assert TracedLast(cfg, env, t);
    if t.Then? {
      TraceKeeps(cfg, env, t.before);
      StepFollows(cfg, env, t.before.s, t.step);
      TraceFollowsRules(cfg, env, t.before);
    }
  }

  // ------------------------------------------------------------------------------------ the other steps

  /** A record as it is read back: its row, or a blank one where none was ever written. */
  ghost predicate ReadBack(rows: Nodes, id: Id, n: Node) {
    if id in rows then n == rows[id] else n == Node(Pending, 0, 0, map[], false, map[])
  }

  /** `start`: every node of the template, read back as it stands. */
  ghost predicate StartRule(cfg: Config, s: Sys, after: Sys) {
    && after.live && after.flying == {} && after.rows == s.rows && after.status == RunRunning
    && (forall id :: id in after.nodes <==> id in cfg.specs)
    && (forall id | id in after.nodes :: ReadBack(s.rows, id, after.nodes[id]))
  }

  /** The record a resume makes of the one it reads back: what was under way is Pending again, all else is kept. */
  ghost predicate Resumed(read: Node, n: Node) {
    if read.state == Running || read.state == Ready || read.state == Repairing then n == read.(state := Pending)
    else n == read
  }

  ghost predicate ResumeRule(cfg: Config, s: Sys, after: Sys) {
    && after.live && after.flying == {} && after.rows == s.rows && after.status == RunRunning
    && (forall id :: id in after.nodes <==> id in cfg.specs)
    && forall id | id in after.nodes :: exists read :: ReadBack(s.rows, id, read) && Resumed(read, after.nodes[id])
  }

  /** A cancellation stores every node in flight as Cancelled, otherwise as it was, and touches no other row. */
  ghost predicate CancelRule(s: Sys, flying: set<Id>, after: Sys) {
    && !after.live && (forall id :: id in after.rows <==> id in s.rows || id in flying)
    && (forall id | id in flying :: id in s.nodes && StoredAs(after.rows[id], s.nodes[id].(state := Cancelled)))
    && (forall id | id in after.rows && id !in flying :: after.rows[id] == s.rows[id])
  }

  /** A reset: Pending, counters and parameters gone, outputs kept; only from Failed, Blocked and Cancelled. */
  ghost predicate ResetRule(cfg: Config, s: Sys, id: Id, after: Sys) {
    && id in cfg.specs && OnlyAt(s.rows, after.rows, id) && after.status == s.status
    && exists read :: ReadBack(s.rows, id, read)
         && (read.state == Failed || read.state == Blocked || read.state == Cancelled)
         && after.rows[id] == Node(Pending, 0, 0, map[], false, read.outputs)
  }

  /** The status of a run that has ended, from its node states. */
  ghost predicate StatusRule(nodes: Nodes, status: RunState) {
    if nodes == map[] then status == RunFailed
    else if forall id | id in nodes :: nodes[id].state == Succeeded then status == RunSucceeded
    else if exists id :: id in nodes && nodes[id].state == Succeeded then status == RunPartial
    else if exists id :: id in nodes && nodes[id].state == Cancelled then status == RunCancelled
    else status == RunFailed
  }

  lemma StartFollows(cfg: Config, s: Sys)
    requires Inv(cfg, s) && Enabled(cfg, s, Start)
    ensures StartRule(cfg, s, Apply(cfg, s, Start))
  {
  }

  lemma ResumeFollows(cfg: Config, s: Sys)
    requires Inv(cfg, s) && Enabled(cfg, s, Resume)
    ensures ResumeRule(cfg, s, Apply(cfg, s, Resume))
  {
    var after := Apply(cfg, s, Resume);
    forall id | id in after.nodes
      ensures exists read :: ReadBack(s.rows, id, read) && Resumed(read, after.nodes[id])
    {
      assert ReadBack(s.rows, id, Load(cfg, s.rows)[id]) && Resumed(Load(cfg, s.rows)[id], after.nodes[id]);
    }
  }

  lemma CancelledRowsFollow(nodes: Nodes, rows: Nodes, ids: set<Id>)
    requires ids <= RunningIds(nodes)
    ensures forall id :: id in CancelRows(nodes, rows, ids) <==> id in rows || id in ids
    ensures forall id | id in ids ::
              id in nodes && StoredAs(CancelRows(nodes, rows, ids)[id], nodes[id].(state := Cancelled))
    ensures forall id | id in rows && id !in ids :: CancelRows(nodes, rows, ids)[id] == rows[id]
  {
  }

  /** `_cancel` stores all nodes in flight as Cancelled and pauses the run; dying on the way stores some of them. */
  lemma CancelFollows(cfg: Config, s: Sys, ids: set<Id>)
    requires Inv(cfg, s) && s.live && ids <= s.flying
    ensures Enabled(cfg, s, Cancel) && CancelRule(s, s.flying, Apply(cfg, s, Cancel))
    ensures Apply(cfg, s, Cancel).status == RunPaused
    ensures Enabled(cfg, s, CrashCancelling(ids)) && CancelRule(s, ids, Apply(cfg, s, CrashCancelling(ids)))
  {
    CancelledRowsFollow(s.nodes, s.rows, s.flying);
    CancelledRowsFollow(s.nodes, s.rows, ids);
  }

  lemma ResetFollows(cfg: Config, s: Sys, id: Id)
    requires Enabled(cfg, s, Reset(id))
    ensures ResetRule(cfg, s, id, Apply(cfg, s, Reset(id)))
  {
    var read := Load(cfg, s.rows)[id];
    assert ReadBack(s.rows, id, read);
    assert Apply(cfg, s, Reset(id)).rows[id] == Node(Pending, 0, 0, map[], false, read.outputs);
  }

  lemma CompleteFollows(cfg: Config, s: Sys)
    requires WellFormed(cfg) && Inv(cfg, s) && Enabled(cfg, s, Complete)
    ensures StatusRule(s.nodes, Apply(cfg, s, Complete).status) && Apply(cfg, s, Complete).rows == s.rows
    ensures s.flying == {} && AllEnded(s.nodes)
  {
    assert s.nodes.Keys == cfg.specs.Keys;
    StatusFollows(cfg, s.nodes);
    EndedNodes(cfg, s);
  }

  ghost predicate AllEnded(nodes: Nodes) {
    forall id | id in nodes ::
      || nodes[id].state == Succeeded || nodes[id].state == Failed
      || nodes[id].state == Blocked || nodes[id].state == Cancelled
  }

  lemma EndedNodes(cfg: Config, s: Sys)
    requires Inv(cfg, s) && s.live && AllTerminal(s.nodes)
    ensures AllEnded(s.nodes)
  {
  }

  /** Dying loses memory only; inside a repair handler, the node is stored as Repairing and otherwise as it was. */
  lemma CrashFollows(cfg: Config, s: Sys, id: Id)
    ensures Enabled(cfg, s, Crash) ==>
              var after := Apply(cfg, s, Crash); !after.live && after.rows == s.rows && after.status == s.status
    ensures Enabled(cfg, s, CrashRepairing(id)) ==>
              var after := Apply(cfg, s, CrashRepairing(id));
              && !after.live && after.status == s.status && OnlyAt(s.rows, after.rows, id)
              && StoredAs(after.rows[id], s.nodes[id].(state := Repairing))
  {
  }

  // ------------------------------------------------------------------------------------ retry

  /** A reset is legal for a node of the template that is read back as failed, blocked or cancelled. */
  ghost predicate Resettable(cfg: Config, rows: Nodes, id: Id) {
    id in cfg.specs && id in rows
    && (rows[id].state == Failed || rows[id].state == Blocked || rows[id].state == Cancelled)
  }

  /**
   * The loop of `retry` over `ids`: it resets the first `count`, and stops there only because the next one is not
   * resettable or has just been reset; all other rows are as they were.
   */
  ghost predicate RetryRule(cfg: Config, rows: Nodes, ids: seq<Id>, count: nat, after: Nodes) {
    && count <= |ids|
    && (forall k | 0 <= k < count :: Resettable(cfg, rows, ids[k]) && ids[k] !in ids[..k])
    && (count < |ids| ==> !Resettable(cfg, rows, ids[count]) || ids[count] in ids[..count])
    && (forall id :: id in after <==> id in rows)
    && forall id | id in rows ::
         after[id] == if id in ids[..count] then Node(Pending, 0, 0, map[], false, rows[id].outputs) else rows[id]
  }

  lemma ResettableMeans(cfg: Config, rows: Nodes, id: Id)
    ensures CanReset(cfg, rows, id) <==> Resettable(cfg, rows, id)
    ensures Resettable(cfg, rows, id) ==>
              ResetRow(cfg, rows, id) == rows[id := Node(Pending, 0, 0, map[], false, rows[id].outputs)]
  {
    if id in cfg.specs { TransitionEntries(Load(cfg, rows)[id].state, Pending); }
  }

  lemma RetryOneMore(cfg: Config, rows: Nodes, ids: seq<Id>, count: nat, after: Nodes)
    requires ids != [] && Resettable(cfg, rows, ids[0])
    requires RetryRule(cfg, ResetRow(cfg, rows, ids[0]), ids[1..], count, after)
    ensures RetryRule(cfg, rows, ids, count + 1, after)
  {
    var x, rest := ids[0], ids[1..];
    ResettableMeans(cfg, rows, x);
    assert ids == [x] + rest && ids[..count + 1] == [x] + rest[..count];
    forall k | 0 <= k < count + 1
      ensures Resettable(cfg, rows, ids[k]) && ids[k] !in ids[..k]
    {
      if k > 0 {
        assert ids[k] == rest[k - 1] && ids[..k] == [x] + rest[..k - 1];
        ResettableLater(cfg, rows, x, ids[k]);
      }
    }
    if count + 1 < |ids| {
      assert ids[count + 1] == rest[count];
      ResettableLater(cfg, rows, x, ids[count + 1]);
    }
  }

  // After a reset the same other nodes can be reset, and the node itself cannot.
  lemma ResettableLater(cfg: Config, rows: Nodes, x: Id, y: Id)
    requires Resettable(cfg, rows, x)
    ensures Resettable(cfg, ResetRow(cfg, rows, x), y) <==> Resettable(cfg, rows, y) && y != x
  {
    ResettableMeans(cfg, rows, x);
  }

  /** Whatever ids are named, in whatever order and however often. */
  lemma {:induction false} RetryFollows(cfg: Config, rows: Nodes, ids: seq<Id>)
    ensures RetryRule(cfg, rows, ids, ResetCount(cfg, rows, ids), ResetRows(cfg, rows, ids))
    decreases |ids|
  {
    if ids != [] {
      ResettableMeans(cfg, rows, ids[0]);
      if Resettable(cfg, rows, ids[0]) {
        var after := ResetRow(cfg, rows, ids[0]);
        RetryFollows(cfg, after, ids[1..]);
        RetryOneMore(cfg, rows, ids, ResetCount(cfg, after, ids[1..]), ResetRows(cfg, after, ids[1..]));
      }
    }
  }

  lemma StatusFollows(cfg: Config, nodes: Nodes)
    requires nodes.Keys == cfg.specs.Keys && WellFormed(cfg)
    ensures StatusRule(nodes, DetermineRunStatus(StatesOf(cfg, nodes)))
  {
    var states := StatesOf(cfg, nodes);
    if nodes == map[] {
      if states != [] {
        StatesOfCovers(cfg, nodes, states[0]);
        assert false;
      }
    } else {
      var id :| id in nodes;
      StatesOfCovers(cfg, nodes, nodes[id].state);
      StatesOfCovers(cfg, nodes, Succeeded);
      StatesOfCovers(cfg, nodes, Cancelled);
      if forall state | state in states :: state == Succeeded {
        forall x | x in nodes ensures nodes[x].state == Succeeded { StatesOfCovers(cfg, nodes, nodes[x].state); }
      } else {
        var state :| state in states && state != Succeeded;
        StatesOfCovers(cfg, nodes, state);
      }
    }
  }

  // ------------------------------------------------------------------------------------ why nodes fail

  ghost predicate FailedRow(s: Sys, id: Id) { id in s.rows && s.rows[id].state == Failed }

  /** The step fails `id`: its handler refused, or no handler was asked and the attempts are used up. */
  ghost predicate Fails(cfg: Config, s: Sys, step: Step, id: Id) {
    && step.Finish? && step.id == id && step.outcome.Failure? && id in cfg.specs && id in s.nodes
    && if GoesToHandler(cfg, s.nodes[id], id, step.outcome.error) then !step.fix.requeue
       else s.nodes[id].attempt >= cfg.specs[id].maxAttempts
  }

  // A stored failure is in memory, and no step but a reset touches it.
  lemma FailureInMemory(cfg: Config, s: Sys, id: Id)
    requires Inv(cfg, s) && s.live && FailedRow(s, id)
    ensures id in s.nodes && s.nodes[id].state == Failed && id !in s.flying
  {
    assert Durable(s.nodes[id]) == Durable(Load(cfg, s.rows)[id]);
  }

  lemma FailureKept(cfg: Config, s: Sys, step: Step, id: Id)
    requires Inv(cfg, s) && Enabled(cfg, s, step) && FailedRow(s, id) && step != Reset(id)
    ensures id in Apply(cfg, s, step).rows && Apply(cfg, s, step).rows[id] == s.rows[id]
  {
    if !s.live {
      OtherRowsStay(cfg, s, step, id);
    } else {
      FailureInMemory(cfg, s, id);
      if step.Dispatch? || step.Finish? || step.CrashRepairing? {
        assert step.id != id;
        OtherRowsStay(cfg, s, step, id);
      } else {
        FailuresStay(cfg, s, step, id);
      }
    }
  }

  lemma OtherRowsStay(cfg: Config, s: Sys, step: Step, id: Id)
    requires Enabled(cfg, s, step) && id in s.rows
    requires step.Start? || step.Resume? || step.Reopen? ||
             ((step.Dispatch? || step.Finish? || step.CrashRepairing? || step.Reset?) && step.id != id)
    ensures id in Apply(cfg, s, step).rows && Apply(cfg, s, step).rows[id] == s.rows[id]
  {
  }

  lemma FailuresStay(cfg: Config, s: Sys, step: Step, id: Id)
    requires Enabled(cfg, s, step) && id in s.rows && id in s.nodes && s.nodes[id].state == Failed
    requires step.Block? || step.Cancel? || step.Complete? || step.Crash? || step.CrashCancelling?
    ensures id in Apply(cfg, s, step).rows && Apply(cfg, s, step).rows[id] == s.rows[id]
  {
    CancelSpares(s, id);
  }

  // A cancellation writes the rows of running nodes only.
  lemma CancelSpares(s: Sys, id: Id)
    requires id in s.nodes && s.nodes[id].state == Failed && id in s.rows
    ensures forall ids :: id in CancelRows(s.nodes, s.rows, ids) && CancelRows(s.nodes, s.rows, ids)[id] == s.rows[id]
  {
  }

  lemma FailureHasCause(cfg: Config, s: Sys, step: Step, id: Id)
    requires Inv(cfg, s) && Enabled(cfg, s, step) && !FailedRow(s, id) && FailedRow(Apply(cfg, s, step), id)
    ensures Fails(cfg, s, step, id)
  {
    assert step.Finish?;
    FlyingIsRunning(cfg, s, step.id);
    FinishApplies(cfg, s, step.id, step.outcome, step.fix);
    FinishedNode(cfg, step.id, s.nodes[step.id], step.outcome, step.fix);
  }

  /** Step `k` of the run fails `id`, and its row stays as that step left it. */
  ghost predicate FailsAt(cfg: Config, s: Sys, steps: seq<Step>, k: nat, id: Id)
    requires Runs(cfg, s, steps)
    decreases |steps|
  {
    k < |steps| &&
    var after := Apply(cfg, s, steps[0]);
    if k > 0 then FailsAt(cfg, after, steps[1..], k - 1, id)
    else
      && Fails(cfg, s, steps[0], id) && FailedRow(after, id)
      && id in Exec(cfg, s, steps).rows && Exec(cfg, s, steps).rows[id] == after.rows[id]
  }

  /**
   * Over any run, with crashes, cancellations and retries: a node that is stored as Failed was so at the start, or some
   * step failed it for one of the two reasons and nothing has happened to it since.
   */
  lemma {:induction false} EveryFailureHasCause(cfg: Config, s: Sys, steps: seq<Step>, id: Id) returns (k: int)
    requires SpecsOk(cfg) && Inv(cfg, s) && Runs(cfg, s, steps) && FailedRow(Exec(cfg, s, steps), id)
    ensures if k < 0 then FailedRow(s, id) && Exec(cfg, s, steps).rows[id] == s.rows[id]
            else FailsAt(cfg, s, steps, k, id)
    decreases |steps|
  {
    if steps == [] { return -1; }
    var after := Apply(cfg, s, steps[0]);
    StepKeeps(cfg, s, steps[0]);
    k := EveryFailureHasCause(cfg, after, steps[1..], id);
    if k >= 0 {
      k := k + 1;
    } else if FailedRow(s, id) {
      ResetIsNoFailure(cfg, s, id, steps[0]);
      FailureKept(cfg, s, steps[0], id);
    } else {
      FailureHasCause(cfg, s, steps[0], id);
      k := 0;
    }
  }

  lemma ResetIsNoFailure(cfg: Config, s: Sys, id: Id, step: Step)
    requires Enabled(cfg, s, step) && FailedRow(Apply(cfg, s, step), id)
    ensures step != Reset(id)
  {
  }
}
