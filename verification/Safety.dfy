/** What every step keeps, over all runs with crashes, resumes, cancellations and retries. */
module Safety {
  import opened Values
  import opened States
  import opened CycleDetection
  import opened Graph
  import opened Binding
  import opened Machine

  /** States a node only reaches once all its dependencies have succeeded. */
  predicate Engaged(s: NodeState) {
    s.Ready? || s.Running? || s.Repairing? || s.Succeeded? || s.Failed? || s.Cancelled?
  }

  ghost predicate DepSafe(cfg: Config, nodes: Nodes) {
    forall id | id in nodes && id in cfg.specs && Engaged(nodes[id].state) :: DepsSucceeded(cfg.specs[id], nodes)
  }

  function RunningIds(nodes: Nodes): set<Id> {
    set id | id in nodes && nodes[id].state == Running
  }

  /** What a crash keeps of a record: in-flight and blocked states fall back to Pending, bindings are forgotten. */
  function Durable(n: Node): Node {
    n.(state := if InFlightState(n.state) || n.state == Blocked then Pending else n.state, resolved := false)
  }

  ghost predicate Synced(cfg: Config, nodes: Nodes, rows: Nodes) {
    forall id | id in cfg.specs :: id in nodes && Durable(nodes[id]) == Durable(Load(cfg, rows)[id])
  }

  ghost predicate RowsOk(cfg: Config, rows: Nodes) {
    && rows.Keys <= cfg.specs.Keys
    && (forall id | id in rows :: rows[id].state != Blocked && rows[id].state != Skipped && !rows[id].resolved)
    && DepSafe(cfg, Load(cfg, rows))
  }

  ghost predicate MemoryOk(cfg: Config, nodes: Nodes, flying: set<Id>) {
    && nodes.Keys == cfg.specs.Keys
    && flying == RunningIds(nodes)
    && |flying| <= cfg.maxConcurrency
    && (forall id | id in nodes :: nodes[id].state != Repairing && nodes[id].state != Skipped)
    && DepSafe(cfg, nodes)
  }

  ghost predicate Inv(cfg: Config, s: Sys) {
    && RowsOk(cfg, s.rows)
    && (if s.live then MemoryOk(cfg, s.nodes, s.flying) && Synced(cfg, s.nodes, s.rows)
        else s.nodes == map[] && s.flying == {})
  }

  // A pass only turns Pending records into Blocked ones, each with a dead dependency afterwards.
  lemma {:induction false} BlockFrame(cfg: Config, nodes: Nodes, k: nat)
    requires k <= |cfg.listing|
    ensures BlockPrefix(cfg, nodes, k).Keys == nodes.Keys
    ensures forall id | id in nodes ::
              var after := BlockPrefix(cfg, nodes, k)[id];
              after == nodes[id] || (nodes[id].state == Pending && after == nodes[id].(state := Blocked))
  {
    if k > 0 { BlockFrame(cfg, nodes, k - 1); }
  }

  lemma BlockKeeps(cfg: Config, nodes: Nodes, flying: set<Id>, rows: Nodes)
    requires MemoryOk(cfg, nodes, flying) && Synced(cfg, nodes, rows)
    ensures MemoryOk(cfg, BlockPass(cfg, nodes), flying) && Synced(cfg, BlockPass(cfg, nodes), rows)
  {
    BlockFrame(cfg, nodes, |cfg.listing|);
    BlockedOnly(cfg, nodes, BlockPass(cfg, nodes), flying);
    forall id | id in cfg.specs
      ensures id in BlockPass(cfg, nodes) && Durable(BlockPass(cfg, nodes)[id]) == Durable(Load(cfg, rows)[id])
    {
      assert Durable(BlockPass(cfg, nodes)[id]) == Durable(nodes[id]);
    }
  }

  // Blocking Pending records frees no slot and undoes no success.
  lemma BlockedOnly(cfg: Config, nodes: Nodes, after: Nodes, flying: set<Id>)
    requires MemoryOk(cfg, nodes, flying) && after.Keys == nodes.Keys
    requires forall id | id in nodes ::
               after[id] == nodes[id] || (nodes[id].state == Pending && after[id] == nodes[id].(state := Blocked))
    ensures MemoryOk(cfg, after, flying)
  {
    assert RunningIds(after) == RunningIds(nodes);
    assert forall d :: StateOf(nodes, d) == Succeeded ==> StateOf(after, d) == Succeeded;
  }

  // Replacing one record by one with fewer commitments to others keeps dependency safety.
  lemma DepSafeUpdate(cfg: Config, nodes: Nodes, id: Id, n: Node)
    requires DepSafe(cfg, nodes) && id in cfg.specs
    requires StateOf(nodes, id) == Succeeded ==> n.state == Succeeded
    requires Engaged(n.state) ==> DepsSucceeded(cfg.specs[id], nodes)
    ensures DepSafe(cfg, nodes[id := n])
  {
    assert forall d :: StateOf(nodes, d) == Succeeded ==> StateOf(nodes[id := n], d) == Succeeded;
  }

  lemma LoadUpdate(cfg: Config, rows: Nodes, id: Id, n: Node)
    requires id in cfg.specs
    ensures Load(cfg, rows[id := n]) == Load(cfg, rows)[id := n]
  {
  }

  // Synced maps agree on which nodes succeeded.
  lemma SyncedSuccess(cfg: Config, nodes: Nodes, rows: Nodes, id: Id)
    requires Synced(cfg, nodes, rows) && id in cfg.specs
    ensures StateOf(nodes, id) == Succeeded <==> StateOf(Load(cfg, rows), id) == Succeeded
  {
    assert Durable(nodes[id]) == Durable(Load(cfg, rows)[id]);
  }

  lemma SyncedDeps(cfg: Config, nodes: Nodes, rows: Nodes, id: Id)
    requires SpecsOk(cfg) && Synced(cfg, nodes, rows) && id in cfg.specs
    ensures DepsSucceeded(cfg.specs[id], nodes) <==> DepsSucceeded(cfg.specs[id], Load(cfg, rows))
  {
    assert SpecOk(cfg, id);
    forall d | d in cfg.specs[id].dependsOn { SyncedSuccess(cfg, nodes, rows, d); }
  }

  lemma RowKeeps(cfg: Config, rows: Nodes, id: Id, n: Node)
    requires RowsOk(cfg, rows) && id in cfg.specs && n.state != Blocked && n.state != Skipped && !n.resolved
    requires StateOf(Load(cfg, rows), id) == Succeeded ==> n.state == Succeeded
    requires Engaged(n.state) ==> DepsSucceeded(cfg.specs[id], Load(cfg, rows))
    ensures RowsOk(cfg, rows[id := n])
  {
    DepSafeUpdate(cfg, Load(cfg, rows), id, n);
    LoadUpdate(cfg, rows, id, n);
  }

  // Writing one record to memory and to the store together.
  lemma SaveKeeps(cfg: Config, nodes: Nodes, rows: Nodes, id: Id, n: Node)
    requires SpecsOk(cfg) && id in cfg.specs
    requires RowsOk(cfg, rows) && DepSafe(cfg, nodes) && Synced(cfg, nodes, rows)
    requires nodes[id].state != Succeeded && n.state != Blocked && n.state != Skipped
    requires DepsSucceeded(cfg.specs[id], nodes)
    ensures RowsOk(cfg, rows[id := Row(n)])
    ensures DepSafe(cfg, nodes[id := n]) && Synced(cfg, nodes[id := n], rows[id := Row(n)])
  {
    DepSafeUpdate(cfg, nodes, id, n);
    SyncedUpdate(cfg, nodes, rows, id, n);
    SyncedDeps(cfg, nodes, rows, id);
    SyncedSuccess(cfg, nodes, rows, id);
    RowKeeps(cfg, rows, id, Row(n));
  }

  lemma SyncedUpdate(cfg: Config, nodes: Nodes, rows: Nodes, id: Id, n: Node)
    requires Synced(cfg, nodes, rows) && id in cfg.specs
    ensures Synced(cfg, nodes[id := n], rows[id := Row(n)])
  {
  }

  // What memory and store agree on, one node at a time.
  lemma SyncedAt(cfg: Config, s: Sys, id: Id)
    requires Inv(cfg, s) && s.live && id in cfg.specs
    ensures id in s.nodes && Durable(s.nodes[id]) == Durable(Load(cfg, s.rows)[id])
    ensures Load(cfg, s.rows)[id].state != Blocked
  {
  }

  lemma RunningUpdate(nodes: Nodes, id: Id, n: Node)
    requires id in nodes
    ensures RunningIds(nodes[id := n]) ==
            if n.state == Running then RunningIds(nodes) + {id} else RunningIds(nodes) - {id}
  {
  }

  // A dispatch or a finish: one record changes and its slot is taken or freed.
  lemma SlotKeeps(cfg: Config, nodes: Nodes, flying: set<Id>, id: Id, n: Node)
    requires id in cfg.specs && MemoryOk(cfg, nodes, flying) && DepSafe(cfg, nodes[id := n])
    requires n.state != Skipped && n.state != Repairing
    requires n.state == Running ==> |flying| < cfg.maxConcurrency
    ensures MemoryOk(cfg, nodes[id := n], if n.state == Running then flying + {id} else flying - {id})
  {
    RunningUpdate(nodes, id, n);
  }

  lemma CancelledLoad(cfg: Config, nodes: Nodes, rows: Nodes, ids: set<Id>, x: Id)
    requires x in cfg.specs && ids <= RunningIds(nodes)
    ensures Load(cfg, CancelRows(nodes, rows, ids))[x] ==
            if x in ids then Row(nodes[x].(state := Cancelled)) else Load(cfg, rows)[x]
  {
  }

  lemma CancelDepSafe(cfg: Config, nodes: Nodes, rows: Nodes, ids: set<Id>, x: Id)
    requires SpecsOk(cfg) && x in cfg.specs && ids <= RunningIds(nodes)
    requires DepsSucceeded(cfg.specs[x], Load(cfg, rows)) && Synced(cfg, nodes, rows)
    ensures DepsSucceeded(cfg.specs[x], Load(cfg, CancelRows(nodes, rows, ids)))
  {
    assert SpecOk(cfg, x);
    forall d | d in cfg.specs[x].dependsOn
      ensures StateOf(Load(cfg, CancelRows(nodes, rows, ids)), d) == Succeeded
    {
      SyncedSuccess(cfg, nodes, rows, d);
      CancelledLoad(cfg, nodes, rows, ids, d);
    }
  }

  lemma CancelKeeps(cfg: Config, nodes: Nodes, flying: set<Id>, rows: Nodes, ids: set<Id>)
    requires SpecsOk(cfg) && RowsOk(cfg, rows) && MemoryOk(cfg, nodes, flying)
    requires Synced(cfg, nodes, rows) && ids <= flying
    ensures RowsOk(cfg, CancelRows(nodes, rows, ids))
  {
    var after := CancelRows(nodes, rows, ids);
    forall x | x in cfg.specs && Engaged(Load(cfg, after)[x].state)
      ensures DepsSucceeded(cfg.specs[x], Load(cfg, after))
    {
      CancelledLoad(cfg, nodes, rows, ids, x);
      SyncedDeps(cfg, nodes, rows, x);
      assert x in ids ==> DepsSucceeded(cfg.specs[x], nodes);
      assert DepsSucceeded(cfg.specs[x], Load(cfg, rows));
      CancelDepSafe(cfg, nodes, rows, ids, x);
    }
  }

  lemma StartDepSafe(cfg: Config, loaded: Nodes, nodes: Nodes)
    requires DepSafe(cfg, loaded) && nodes.Keys == loaded.Keys
    requires forall id | id in nodes :: nodes[id] == loaded[id] || nodes[id] == RecoverNode(loaded[id])
    ensures DepSafe(cfg, nodes)
  {
    assert forall d :: StateOf(loaded, d) == Succeeded ==> StateOf(nodes, d) == Succeeded;
  }

  lemma ResumeKeeps(cfg: Config, s: Sys)
    requires RowsOk(cfg, s.rows)
    ensures Inv(cfg, Sys(true, Recover(Load(cfg, s.rows)), {}, s.rows, RunRunning))
  {
    RecoveredMemory(cfg, s.rows);
    RecoveredSynced(cfg, s.rows);
  }

  lemma RecoveredMemory(cfg: Config, rows: Nodes)
    requires RowsOk(cfg, rows)
    ensures MemoryOk(cfg, Recover(Load(cfg, rows)), {})
  {
    StartDepSafe(cfg, Load(cfg, rows), Recover(Load(cfg, rows)));
    assert RunningIds(Recover(Load(cfg, rows))) == {};
  }

  lemma RecoveredSynced(cfg: Config, rows: Nodes)
    ensures Synced(cfg, Recover(Load(cfg, rows)), rows)
  {
  }

  lemma StartKeeps(cfg: Config, s: Sys)
    requires RowsOk(cfg, s.rows) && NoOrphans(s.rows)
    ensures Inv(cfg, Sys(true, Load(cfg, s.rows), {}, s.rows, RunRunning))
  {
    assert RunningIds(Load(cfg, s.rows)) == {};
    assert Synced(cfg, Load(cfg, s.rows), s.rows);
  }

  lemma FinishKeeps(cfg: Config, s: Sys, id: Id, n: Node)
    requires SpecsOk(cfg) && Inv(cfg, s) && s.live && id in s.flying && id in cfg.specs
    requires n.state == Succeeded || n.state == Ready || n.state == Failed
    ensures Inv(cfg, Saved(s, id, n))
  {
    SaveKeeps(cfg, s.nodes, s.rows, id, n);
    SlotKeeps(cfg, s.nodes, s.flying, id, n);
  }

  lemma DispatchKeeps(cfg: Config, s: Sys, id: Id, n: Node)
    requires SpecsOk(cfg) && Inv(cfg, s) && s.live && IsReady(cfg, s.nodes, id)
    requires |s.flying| < cfg.maxConcurrency && n.state == Running
    ensures Inv(cfg, s.(nodes := s.nodes[id := n], flying := s.flying + {id}, rows := s.rows[id := Row(n)]))
  {
    SaveKeeps(cfg, s.nodes, s.rows, id, n);
    SlotKeeps(cfg, s.nodes, s.flying, id, n);
  }

  lemma CrashRepairingKeeps(cfg: Config, s: Sys, id: Id)
    requires SpecsOk(cfg) && Inv(cfg, s) && s.live && id in s.flying
    ensures RowsOk(cfg, s.rows[id := Row(s.nodes[id].(state := Repairing))])
  {
    SaveKeeps(cfg, s.nodes, s.rows, id, s.nodes[id].(state := Repairing));
  }

  lemma BlockStep(cfg: Config, s: Sys)
    requires Inv(cfg, s) && s.live
    ensures Inv(cfg, s.(nodes := BlockPass(cfg, s.nodes)))
  {
    BlockKeeps(cfg, s.nodes, s.flying, s.rows);
  }

  lemma DownStep(cfg: Config, s: Sys, rows: Nodes, status: RunState)
    requires RowsOk(cfg, rows)
    ensures Inv(cfg, Down(s.(rows := rows, status := status)))
  {
  }

  lemma FlyingIsRunning(cfg: Config, s: Sys, id: Id)
    requires Inv(cfg, s) && s.live && id in s.flying
    ensures id in s.nodes && id in cfg.specs && s.nodes[id].state == Running
  {
  }

  lemma FinishApplies(cfg: Config, s: Sys, id: Id, outcome: Outcome, fix: Fix)
    requires Enabled(cfg, s, Finish(id, outcome, fix)) && s.nodes[id].state == Running
    ensures Apply(cfg, s, Finish(id, outcome, fix)) ==
            Saved(s, id, FinishNode(cfg.specs[id], cfg.repairers, s.nodes[id], outcome, fix))
  {
  }

  lemma FinishStep(cfg: Config, s: Sys, id: Id, outcome: Outcome, fix: Fix)
    requires SpecsOk(cfg) && Inv(cfg, s) && Enabled(cfg, s, Finish(id, outcome, fix))
    ensures Inv(cfg, Apply(cfg, s, Finish(id, outcome, fix)))
  {
    FlyingIsRunning(cfg, s, id);
    FinishApplies(cfg, s, id, outcome, fix);
    FinishKeeps(cfg, s, id, FinishNode(cfg.specs[id], cfg.repairers, s.nodes[id], outcome, fix));
  }

  lemma DispatchStep(cfg: Config, s: Sys, id: Id)
    requires SpecsOk(cfg) && Inv(cfg, s) && Enabled(cfg, s, Dispatch(id))
    ensures Inv(cfg, Apply(cfg, s, Dispatch(id)))
  {
    DispatchKeeps(cfg, s, id, StartNode(cfg, s.nodes, id).value);
  }

  lemma ExitStepKeeps(cfg: Config, s: Sys, step: Step)
    requires SpecsOk(cfg) && Inv(cfg, s) && Enabled(cfg, s, step)
    requires step.Cancel? || step.Complete? || step.Crash? || step.CrashRepairing? || step.CrashCancelling?
    ensures Inv(cfg, Apply(cfg, s, step))
  {
    var after := Apply(cfg, s, step);
    match step {
      case Cancel => CancelKeeps(cfg, s.nodes, s.flying, s.rows, s.flying);
      case CrashRepairing(id) => CrashRepairingKeeps(cfg, s, id);
      case CrashCancelling(ids) => CancelKeeps(cfg, s.nodes, s.flying, s.rows, ids);
      case _ =>
    }
    DownStep(cfg, s, after.rows, after.status);
  }

  lemma DownStepKeeps(cfg: Config, s: Sys, step: Step)
    requires SpecsOk(cfg) && Inv(cfg, s) && Enabled(cfg, s, step) && !s.live
    ensures Inv(cfg, Apply(cfg, s, step))
  {
    match step
    case Start => StartKeeps(cfg, s);
    case Resume => ResumeKeeps(cfg, s);
    case Reset(id) => RowKeeps(cfg, s.rows, id, Row(ResetNode(Load(cfg, s.rows)[id])));
    case _ =>
  }

  /** Every step keeps the invariant: slots, dependency safety, and memory in step with the store. */
  lemma StepKeeps(cfg: Config, s: Sys, step: Step)
    requires SpecsOk(cfg) && Inv(cfg, s) && Enabled(cfg, s, step)
    ensures Inv(cfg, Apply(cfg, s, step))
  {
    match step
    case Block => BlockStep(cfg, s);
    case Dispatch(id) => DispatchStep(cfg, s, id);
    case Finish(id, outcome, fix) => FinishStep(cfg, s, id, outcome, fix);
    case Start => DownStepKeeps(cfg, s, step);
    case Resume => DownStepKeeps(cfg, s, step);
    case Reset(_) => DownStepKeeps(cfg, s, step);
    case Reopen => DownStepKeeps(cfg, s, step);
    case _ => ExitStepKeeps(cfg, s, step);
  }

  lemma {:induction false} RunKeeps(cfg: Config, s: Sys, steps: seq<Step>)
    requires SpecsOk(cfg) && Inv(cfg, s) && Runs(cfg, s, steps)
    ensures Inv(cfg, Exec(cfg, s, steps))
    decreases |steps|
  {
    if steps != [] {
      StepKeeps(cfg, s, steps[0]);
      RunKeeps(cfg, Apply(cfg, s, steps[0]), steps[1..]);
    }
  }

  /** Slots, futures and dependencies at every step boundary of every run from `create`. */
  lemma RunSafety(cfg: Config, steps: seq<Step>)
    requires SpecsOk(cfg) && Runs(cfg, CREATED, steps)
    ensures var s := Exec(cfg, CREATED, steps);
            && Inv(cfg, s)
            && (s.live ==> s.flying == RunningIds(s.nodes) && |s.flying| <= cfg.maxConcurrency && DepSafe(cfg, s.nodes))
            && DepSafe(cfg, Load(cfg, s.rows))
  {
    RunKeeps(cfg, CREATED, steps);
  }

  // ------------------------------------------------------------------------------------ crash recovery

  lemma SyncedRecovers(cfg: Config, nodes: Nodes, rows: Nodes)
    requires RowsOk(cfg, rows) && Synced(cfg, nodes, rows) && nodes.Keys == cfg.specs.Keys
    ensures Recover(Load(cfg, rows)) == map id | id in nodes :: Durable(nodes[id])
  {
    forall id | id in nodes
      ensures Recover(Load(cfg, rows))[id] == Durable(nodes[id])
    {
      assert Durable(nodes[id]) == Durable(Load(cfg, rows)[id]);
    }
  }

  /** Recovering from the store and recovering from memory give the same node map. */
  lemma RecoveryCommutes(cfg: Config, s: Sys)
    requires Inv(cfg, s) && s.live
    ensures Recover(Load(cfg, s.rows)) == map id | id in s.nodes :: Durable(s.nodes[id])
  {
    SyncedRecovers(cfg, s.nodes, s.rows);
  }

  // A run interrupted between two steps and resumed continues from the durable image of its own memory.
  lemma CrashThenResume(cfg: Config, s: Sys)
    requires Inv(cfg, s) && s.live && !IsTerminalRun(s.status)
    ensures Runs(cfg, s, [Crash, Resume])
    ensures Exec(cfg, s, [Crash, Resume]).nodes == map id | id in s.nodes :: Durable(s.nodes[id])
  {
    RecoveryCommutes(cfg, s);
    TwoSteps(cfg, s, Crash, Resume);
  }

  lemma TwoSteps(cfg: Config, s: Sys, a: Step, b: Step)
    requires Enabled(cfg, s, a) && Enabled(cfg, Apply(cfg, s, a), b)
    ensures Runs(cfg, s, [a, b]) && Exec(cfg, s, [a, b]) == Apply(cfg, Apply(cfg, s, a), b)
  {
    var after := Apply(cfg, s, a);
    assert [a, b][1..] == [b] && [b][1..] == [];
    assert Runs(cfg, Apply(cfg, after, b), []);
    assert Runs(cfg, after, [b]);
    assert Exec(cfg, s, [a, b]) == Exec(cfg, after, [b]) == Exec(cfg, Apply(cfg, after, b), []);
  }

  ghost predicate SucceededRow(s: Sys, id: Id) {
    id in s.rows && s.rows[id].state == Succeeded
  }

  lemma SuccessInMemory(cfg: Config, s: Sys, id: Id)
    requires Inv(cfg, s) && s.live && SucceededRow(s, id)
    ensures id in s.nodes && s.nodes[id].state == Succeeded
    ensures s.nodes[id].outputs == s.rows[id].outputs && id !in s.flying
  {
    assert Durable(s.nodes[id]) == Durable(Load(cfg, s.rows)[id]);
  }

  // No step, whatever it is, starts a persisted success again or touches its row.
  lemma SuccessKept(cfg: Config, s: Sys, step: Step, id: Id)
    requires SpecsOk(cfg) && Inv(cfg, s) && Enabled(cfg, s, step) && SucceededRow(s, id)
    ensures step != Dispatch(id) && step != Reset(id)
    ensures id in Apply(cfg, s, step).rows && Apply(cfg, s, step).rows[id] == s.rows[id]
  {
    if s.live { SuccessKeptLive(cfg, s, step, id); }
  }

  lemma SuccessKeptLive(cfg: Config, s: Sys, step: Step, id: Id)
    requires Inv(cfg, s) && s.live && Enabled(cfg, s, step) && SucceededRow(s, id)
    ensures step != Dispatch(id)
    ensures id in Apply(cfg, s, step).rows && Apply(cfg, s, step).rows[id] == s.rows[id]
  {
    SuccessInMemory(cfg, s, id);
    if step.Finish? { assert step.id != id; } else if step.CrashRepairing? { assert step.id != id; }
  }

  /** Over any run with crashes, resumes, cancellations and retries a success is final: row, outputs and all. */
  lemma {:induction false} SuccessForever(cfg: Config, s: Sys, steps: seq<Step>, id: Id)
    requires SpecsOk(cfg) && Inv(cfg, s) && Runs(cfg, s, steps) && SucceededRow(s, id)
    ensures SucceededRow(Exec(cfg, s, steps), id) && Exec(cfg, s, steps).rows[id] == s.rows[id]
    ensures Dispatch(id) !in steps && Reset(id) !in steps
    decreases |steps|
  {
    if steps != [] {
      SuccessKept(cfg, s, steps[0], id);
      StepKeeps(cfg, s, steps[0]);
      SuccessForever(cfg, Apply(cfg, s, steps[0]), steps[1..], id);
      assert steps == [steps[0]] + steps[1..];
    }
  }

  lemma OnlyFinishCommits(cfg: Config, s: Sys, step: Step, id: Id)
    requires Inv(cfg, s) && Enabled(cfg, s, step)
    requires !SucceededRow(s, id) && SucceededRow(Apply(cfg, s, step), id)
    ensures step.Finish? && step.id == id && step.outcome.Success?
  {
    assert step.Finish?;
    FlyingIsRunning(cfg, s, step.id);
    FinishApplies(cfg, s, step.id, step.outcome, step.fix);
  }

  /** A success is committed only after all the dependencies have been: commits follow the DAG. */
  lemma CommitOrder(cfg: Config, s: Sys, step: Step, id: Id)
    requires SpecsOk(cfg) && Inv(cfg, s) && Enabled(cfg, s, step)
    requires !SucceededRow(s, id) && SucceededRow(Apply(cfg, s, step), id)
    ensures step.Finish? && step.id == id && step.outcome.Success? && id in cfg.specs
    ensures forall d | d in cfg.specs[id].dependsOn :: SucceededRow(s, d)
  {
    OnlyFinishCommits(cfg, s, step, id);
    FlyingIsRunning(cfg, s, id);
    assert DepsSucceeded(cfg.specs[id], s.nodes);
    SyncedDeps(cfg, s.nodes, s.rows, id);
    assert SpecOk(cfg, id);
  }

  // ------------------------------------------------------------------------------------ budgets

  /**
   * After `k` resumes: repairs within their limit, attempts within both limits plus one per resume, and no failure
   * before the attempts are used up or a repair handler has given the node up.
   */
  ghost predicate NodeBudget(spec: NodeSpec, n: Node, k: nat) {
    && n.repairs <= spec.maxRepairAttempts
    && n.attempt <= spec.maxAttempts + n.repairs + k
    && (Runnable(n.state) ==> n.attempt < spec.maxAttempts + n.repairs + k)
    && (n.state == Failed ==> n.attempt >= spec.maxAttempts || n.repairs > 0)
  }

  ghost predicate Budgets(cfg: Config, nodes: Nodes, k: nat) {
    forall id | id in nodes && id in cfg.specs :: NodeBudget(cfg.specs[id], nodes[id], k)
  }

  function ResumeCount(steps: seq<Step>): nat {
    if steps == [] then 0 else (if steps[0] == Resume then 1 else 0) + ResumeCount(steps[1..])
  }

  lemma FinishBudget(spec: NodeSpec, repairers: seq<string>, n: Node, outcome: Outcome, fix: Fix, k: nat)
    requires NodeBudget(spec, n, k)
    ensures NodeBudget(spec, FinishNode(spec, repairers, n, outcome, fix), k)
  {
  }

  // One record, within its budget, is written to memory and to the store.
  lemma SaveBudget(cfg: Config, nodes: Nodes, rows: Nodes, id: Id, n: Node, k: nat)
    requires id in cfg.specs && Budgets(cfg, nodes, k) && Budgets(cfg, rows, k) && NodeBudget(cfg.specs[id], n, k)
    ensures Budgets(cfg, nodes[id := n], k) && Budgets(cfg, rows[id := Row(n)], k)
  {
  }

  lemma DispatchBudget(cfg: Config, s: Sys, id: Id, k: nat)
    requires Enabled(cfg, s, Dispatch(id)) && Budgets(cfg, s.nodes, k) && Budgets(cfg, s.rows, k)
    ensures var after := Apply(cfg, s, Dispatch(id)); Budgets(cfg, after.nodes, k) && Budgets(cfg, after.rows, k)
  {
    var n := StartNode(cfg, s.nodes, id).value;
    assert n.attempt == s.nodes[id].attempt + 1 && n.repairs == s.nodes[id].repairs && n.state == Running;
    SaveBudget(cfg, s.nodes, s.rows, id, n, k);
  }

  lemma FreshBudgets(cfg: Config, rows: Nodes, k: nat)
    requires SpecsOk(cfg) && Budgets(cfg, rows, k)
    ensures Budgets(cfg, Load(cfg, rows), k) && Budgets(cfg, Recover(Load(cfg, rows)), k + 1)
  {
    forall id | id in cfg.specs
      ensures NodeBudget(cfg.specs[id], FRESH, k)
    {
      assert SpecOk(cfg, id);
    }
  }

  lemma ExitBudget(cfg: Config, s: Sys, ids: set<Id>, k: nat)
    requires Budgets(cfg, s.nodes, k) && Budgets(cfg, s.rows, k)
    ensures Budgets(cfg, CancelRows(s.nodes, s.rows, ids), k)
  {
  }

  lemma RestartBudget(cfg: Config, s: Sys, step: Step, k: nat)
    requires SpecsOk(cfg) && Enabled(cfg, s, step) && (step == Start || step == Resume)
    requires Budgets(cfg, s.rows, k)
    ensures Budgets(cfg, Apply(cfg, s, step).nodes, if step == Resume then k + 1 else k)
    ensures Budgets(cfg, Apply(cfg, s, step).rows, k)
  {
    FreshBudgets(cfg, s.rows, k);
  }

  lemma ResetBudget(cfg: Config, s: Sys, id: Id, k: nat)
    requires SpecsOk(cfg) && Enabled(cfg, s, Reset(id)) && Budgets(cfg, s.nodes, k) && Budgets(cfg, s.rows, k)
    ensures var after := Apply(cfg, s, Reset(id)); Budgets(cfg, after.nodes, k) && Budgets(cfg, after.rows, k)
  {
    assert SpecOk(cfg, id);
    SaveBudget(cfg, s.nodes, s.rows, id, ResetNode(Load(cfg, s.rows)[id]), k);
  }

  lemma LeaveBudget(cfg: Config, s: Sys, step: Step, k: nat)
    requires Inv(cfg, s) && Enabled(cfg, s, step) && Budgets(cfg, s.nodes, k) && Budgets(cfg, s.rows, k)
    requires step.Cancel? || step.Complete? || step.Crash? || step.CrashRepairing? || step.CrashCancelling?
    ensures var after := Apply(cfg, s, step); Budgets(cfg, after.nodes, k) && Budgets(cfg, after.rows, k)
  {
    match step
    case Cancel => ExitBudget(cfg, s, s.flying, k);
    case CrashCancelling(ids) => ExitBudget(cfg, s, ids, k);
    case CrashRepairing(id) => CrashRepairingBudget(cfg, s, id, k);
    case _ =>
  }

  lemma CrashRepairingBudget(cfg: Config, s: Sys, id: Id, k: nat)
    requires Inv(cfg, s) && s.live && id in s.flying && Budgets(cfg, s.nodes, k) && Budgets(cfg, s.rows, k)
    ensures id in s.nodes && Budgets(cfg, s.rows[id := Row(s.nodes[id].(state := Repairing))], k)
  {
    FlyingIsRunning(cfg, s, id);
    SaveBudget(cfg, s.nodes, s.rows, id, s.nodes[id].(state := Repairing), k);
  }

  lemma FinishStepBudget(cfg: Config, s: Sys, id: Id, outcome: Outcome, fix: Fix, k: nat)
    requires Inv(cfg, s) && Enabled(cfg, s, Finish(id, outcome, fix))
    requires Budgets(cfg, s.nodes, k) && Budgets(cfg, s.rows, k)
    ensures var after := Apply(cfg, s, Finish(id, outcome, fix));
            Budgets(cfg, after.nodes, k) && Budgets(cfg, after.rows, k)
  {
    FlyingIsRunning(cfg, s, id);
    FinishApplies(cfg, s, id, outcome, fix);
    FinishBudget(cfg.specs[id], cfg.repairers, s.nodes[id], outcome, fix, k);
    SaveBudget(cfg, s.nodes, s.rows, id, FinishNode(cfg.specs[id], cfg.repairers, s.nodes[id], outcome, fix), k);
  }

  lemma BlockBudget(cfg: Config, nodes: Nodes, k: nat)
    requires Budgets(cfg, nodes, k)
    ensures Budgets(cfg, BlockPass(cfg, nodes), k)
  {
    BlockFrame(cfg, nodes, |cfg.listing|);
  }

  lemma DownStepBudget(cfg: Config, s: Sys, step: Step, k: nat)
    requires SpecsOk(cfg) && Enabled(cfg, s, step) && !s.live
    requires Budgets(cfg, s.nodes, k) && Budgets(cfg, s.rows, k)
    ensures var k' := if step == Resume then k + 1 else k;
            Budgets(cfg, Apply(cfg, s, step).nodes, k') && Budgets(cfg, Apply(cfg, s, step).rows, k')
  {
    match step
    case Start => RestartBudget(cfg, s, step, k);
    case Resume => RestartBudget(cfg, s, step, k); MoreBudget(cfg, s.rows, k);
    case Reset(id) => ResetBudget(cfg, s, id, k);
    case _ =>
  }

  lemma MoreBudget(cfg: Config, nodes: Nodes, k: nat)
    requires Budgets(cfg, nodes, k)
    ensures Budgets(cfg, nodes, k + 1)
  {
  }

  lemma LiveStepBudget(cfg: Config, s: Sys, step: Step, k: nat)
    requires Inv(cfg, s) && Enabled(cfg, s, step) && s.live
    requires Budgets(cfg, s.nodes, k) && Budgets(cfg, s.rows, k)
    ensures Budgets(cfg, Apply(cfg, s, step).nodes, k) && Budgets(cfg, Apply(cfg, s, step).rows, k)
  {
    if step.Block? {
      BlockBudget(cfg, s.nodes, k);
    } else if step.Dispatch? {
      DispatchBudget(cfg, s, step.id, k);
    } else if step.Finish? {
      FinishStepBudget(cfg, s, step.id, step.outcome, step.fix, k);
    } else {
      LeaveBudget(cfg, s, step, k);
    }
  }

  lemma StepBudget(cfg: Config, s: Sys, step: Step, k: nat)
    requires SpecsOk(cfg) && Inv(cfg, s) && Enabled(cfg, s, step)
    requires Budgets(cfg, s.nodes, k) && Budgets(cfg, s.rows, k)
    ensures var k' := if step == Resume then k + 1 else k;
            Budgets(cfg, Apply(cfg, s, step).nodes, k') && Budgets(cfg, Apply(cfg, s, step).rows, k')
  {
    if s.live { LiveStepBudget(cfg, s, step, k); } else { DownStepBudget(cfg, s, step, k); }
  }

  lemma {:induction false} RunBudget(cfg: Config, s: Sys, steps: seq<Step>, k: nat)
    requires SpecsOk(cfg) && Inv(cfg, s) && Runs(cfg, s, steps)
    requires Budgets(cfg, s.nodes, k) && Budgets(cfg, s.rows, k)
    ensures var last := Exec(cfg, s, steps);
            Budgets(cfg, last.nodes, k + ResumeCount(steps)) && Budgets(cfg, last.rows, k + ResumeCount(steps))
    decreases |steps|
  {
    if steps != [] {
      StepBudget(cfg, s, steps[0], k);
      StepKeeps(cfg, s, steps[0]);
      RunBudget(cfg, Apply(cfg, s, steps[0]), steps[1..], if steps[0] == Resume then k + 1 else k);
    }
  }

  /** Retry and repair budgets of any run from `create`: the attempt bound grows by at most one per resume. */
  lemma BudgetsHold(cfg: Config, steps: seq<Step>)
    requires SpecsOk(cfg) && Runs(cfg, CREATED, steps)
    ensures Budgets(cfg, Exec(cfg, CREATED, steps).nodes, ResumeCount(steps))
    ensures Budgets(cfg, Exec(cfg, CREATED, steps).rows, ResumeCount(steps))
  {
    RunBudget(cfg, CREATED, steps, 0);
  }
}
