/** What a loop run leaves in the store: untouched successes, loadable rows, and no orphans. */
module Leaving {
  import opened Values
  import opened States
  import opened CycleDetection
  import opened Graph
  import opened Binding
  import opened Machine
  import opened Safety
  import opened Evaluator
  import opened Schedule
  import opened Outcomes
  import opened Blocking
  import opened Supply
  import opened Recovery

  /** Every success among `before` is still there, the whole row as it was. */
  ghost predicate SuccessesKept(before: Nodes, after: Nodes) {
    forall id | id in before && before[id].state == Succeeded :: id in after && after[id] == before[id]
  }

  lemma RunKeepsSuccesses(cfg: Config, s: Sys, steps: seq<Step>)
    requires SpecsOk(cfg) && Inv(cfg, s) && Runs(cfg, s, steps)
    ensures SuccessesKept(s.rows, Exec(cfg, s, steps).rows)
  {
    forall id | id in s.rows && s.rows[id].state == Succeeded { SuccessForever(cfg, s, steps, id); }
  }

  lemma StepKeepsSuccesses(cfg: Config, s: Sys, step: Step)
    requires SpecsOk(cfg) && Inv(cfg, s) && Enabled(cfg, s, step)
    ensures SuccessesKept(s.rows, Apply(cfg, s, step).rows)
  {
    forall id | id in s.rows && s.rows[id].state == Succeeded { SuccessKept(cfg, s, step, id); }
  }

  // ------------------------------------------------------------------------------------ orphans

  /** Every row that says Running or Repairing is the row of a node that runs in this process. */
  ghost predicate Owned(s: Sys) {
    forall id | id in s.rows && (s.rows[id].state == Running || s.rows[id].state == Repairing) ::
      id in s.nodes && s.nodes[id].state == Running
  }

  lemma StepOwned(cfg: Config, env: Env, s: Sys, step: Step)
    requires Inv(cfg, s) && Enabled(cfg, s, step) && LoopStep(cfg, env, s, step) && Owned(s)
    ensures Owned(Apply(cfg, s, step))
  {
    if step.Block? {
      BlockFrame(cfg, s.nodes, |cfg.listing|);
    } else if step.Finish? {
      FlyingIsRunning(cfg, s, step.id);
      FinishApplies(cfg, s, step.id, step.outcome, step.fix);
    }
  }

  lemma {:induction false} RunOwned(cfg: Config, env: Env, s: Sys, steps: seq<Step>)
    requires SpecsOk(cfg) && Inv(cfg, s) && s.live && Runs(cfg, s, steps) && LoopRun(cfg, env, s, steps) && Owned(s)
    ensures Owned(Exec(cfg, s, steps))
    decreases |steps|
  {
    if steps != [] {
      StepOwned(cfg, env, s, steps[0]);
      LoopTail(cfg, env, s, steps);
      RunOwned(cfg, env, Apply(cfg, s, steps[0]), steps[1..]);
    }
  }

  // A cancellation writes every row that was owned.
  lemma CancelLeavesNoOrphans(cfg: Config, s: Sys)
    requires Inv(cfg, s) && s.live && Owned(s)
    ensures NoOrphans(CancelRows(s.nodes, s.rows, s.flying))
  {
    assert s.flying == RunningIds(s.nodes);
  }

  // A run that has ended leaves none either, whatever rows it began with.
  lemma EndLeavesNoOrphans(cfg: Config, s: Sys)
    requires SpecsOk(cfg) && Inv(cfg, s) && s.live && AllTerminal(s.nodes) && BlockedCaused(cfg, s.nodes)
    ensures NoOrphans(s.rows)
  {
    forall id | id in s.rows
      ensures s.rows[id].state != Running && s.rows[id].state != Repairing
    {
      assert id in cfg.specs && id in s.nodes;
      ReloadedState(cfg, s, id);
    }
  }

  /** A run from loaded records that has ended leaves no orphan, whatever rows it began with. */
  lemma DoneLeavesNoOrphans(cfg: Config, env: Env, s: Sys, steps: seq<Step>)
    requires SpecsOk(cfg) && LoopEntry(cfg, s) && Runs(cfg, s, steps) && LoopRun(cfg, env, s, steps)
    requires AllTerminal(Exec(cfg, s, steps).nodes)
    ensures NoOrphans(Exec(cfg, s, steps).rows)
  {
    LoopRunKeeps(cfg, env, s, steps);
    NoneBlocked(cfg, s.nodes);
    RunCaused(cfg, s, steps);
    EndLeavesNoOrphans(cfg, Exec(cfg, s, steps));
  }

  lemma NoneBlocked(cfg: Config, nodes: Nodes)
    requires Loaded(cfg, nodes)
    ensures BlockedCaused(cfg, nodes)
  {
  }

  /** A run that is cancelled leaves no orphan that was not there before. */
  lemma PausedLeavesNoOrphans(cfg: Config, env: Env, s: Sys, steps: seq<Step>)
    requires SpecsOk(cfg) && LoopEntry(cfg, s) && Runs(cfg, s, steps)
    requires LoopRun(cfg, env, s, steps) && NoOrphans(s.rows)
    ensures var end := Exec(cfg, s, steps); NoOrphans(CancelRows(end.nodes, end.rows, end.flying))
  {
    LoopRunKeeps(cfg, env, s, steps);
    RunOwned(cfg, env, s, steps);
    CancelLeavesNoOrphans(cfg, Exec(cfg, s, steps));
  }

  // ------------------------------------------------------------------------------------ supply

  // Memory and rows carry the same successes.
  lemma SyncedSupply(cfg: Config, s: Sys)
    requires Inv(cfg, s) && s.live && Supplied(cfg.specs, s.rows)
    ensures Supplied(cfg.specs, s.nodes)
  {
    forall id | id in s.nodes && s.nodes[id].state == Succeeded
      ensures id in s.rows && s.rows[id].state == Succeeded && s.rows[id].outputs == s.nodes[id].outputs
    {
      SucceededHasRow(cfg, s, id);
    }
  }

  lemma SucceededHasRow(cfg: Config, s: Sys, id: Id)
    requires Inv(cfg, s) && s.live && id in s.nodes && s.nodes[id].state == Succeeded
    ensures id in s.rows && s.rows[id].state == Succeeded && s.rows[id].outputs == s.nodes[id].outputs
  {
    assert Durable(s.nodes[id]) == Durable(Load(cfg, s.rows)[id]);
  }

  // A cancellation commits nothing.
  lemma CancelSupply(cfg: Config, s: Sys)
    requires Inv(cfg, s) && s.live && Supplied(cfg.specs, s.rows)
    ensures Supplied(cfg.specs, CancelRows(s.nodes, s.rows, s.flying))
  {
  }

  // ------------------------------------------------------------------------------------ retry

  /** A retry, legal or not, never touches a success, and makes none. */
  lemma {:induction false} ResetKeepsSuccesses(cfg: Config, rows: Nodes, ids: seq<Id>)
    ensures SuccessesKept(rows, ResetRows(cfg, rows, ids))
    ensures forall id | id in ResetRows(cfg, rows, ids) && ResetRows(cfg, rows, ids)[id].state == Succeeded ::
              id in rows && rows[id] == ResetRows(cfg, rows, ids)[id]
    decreases |ids|
  {
    if ids != [] && CanReset(cfg, rows, ids[0]) {
      ResetKeepsSuccesses(cfg, ResetRow(cfg, rows, ids[0]), ids[1..]);
    }
  }

  lemma ResetKeepsSupply(cfg: Config, rows: Nodes, ids: seq<Id>)
    requires Supplied(cfg.specs, rows)
    ensures Supplied(cfg.specs, ResetRows(cfg, rows, ids))
  {
    ResetKeepsSuccesses(cfg, rows, ids);
  }
}
