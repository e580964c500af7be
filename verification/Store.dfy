/** The durable store: one row per run and one per node of a run, each written atomically. */
module Store {
  import opened Values
  import opened States
  import opened CycleDetection
  import opened Graph
  import opened Binding
  import opened Machine
  import opened RunRecords

  datatype RunRow = RunRow(templateId: string, status: RunState, inputs: Params)

  class SQLiteStateStore {
    var runRows: map<string, RunRow>
    var nodeRows: map<string, Nodes>

    constructor ()
      ensures runRows == map[] && nodeRows == map[]
    {
      runRows, nodeRows := map[], map[];
    }

    /** The node rows of one run. */
    function Rows(runId: string): Nodes
      reads this
    {
      if runId in nodeRows then nodeRows[runId] else map[]
    }

    /** All that is stored about other runs. */
    ghost function Elsewhere(runId: string): (map<string, Nodes>, map<string, RunRow>)
      reads this
    {
      (nodeRows - {runId}, runRows - {runId})
    }

    method SaveRun(run: GraphRun)
      modifies this`runRows
      ensures runRows == old(runRows)[run.runId := RunRow(run.templateId, run.state, run.inputs)]
      ensures Elsewhere(run.runId) == old(Elsewhere(run.runId))
    {
      runRows := runRows[run.runId := RunRow(run.templateId, run.state, run.inputs)];
      assert runRows - {run.runId} == old(runRows) - {run.runId};
    }

    method SaveNodeRun(run: GraphRun, node: NodeRun)
      modifies this`nodeRows
      ensures Rows(run.runId) == old(Rows(run.runId))[node.nodeId := Row(node.View())]
      ensures Elsewhere(run.runId) == old(Elsewhere(run.runId))
    {
      var row := Node(node.state, node.attempt, node.repairAttempts, node.params, false, node.outputs);
      nodeRows := nodeRows[run.runId := Rows(run.runId)[node.nodeId := row]];
      assert nodeRows - {run.runId} == old(nodeRows) - {run.runId};
    }

    static predicate Clean(rows: Nodes) {
      forall id | id in rows :: !rows[id].resolved
    }

    /** Rows never carry the unpersisted flag. */
    ghost predicate Valid()
      reads this
    {
      forall r | r in nodeRows :: Clean(nodeRows[r])
    }

    // The invariant only has to be looked at for the run that changes.
    twostate lemma ValidApart(runId: string)
      requires old(Valid()) && Elsewhere(runId) == old(Elsewhere(runId)) && Clean(Rows(runId))
      ensures Valid()
    {
      forall r | r in nodeRows
        ensures Clean(nodeRows[r])
      {
        if r != runId {
          assert r in nodeRows - {runId} && (nodeRows - {runId})[r] == nodeRows[r];
          assert r in old(nodeRows - {runId}) && old(nodeRows - {runId})[r] == old(nodeRows)[r];
        }
      }
    }

    // The first loop of `load_run`: rows of nodes the template no longer has are skipped.
    method AddStored(run: GraphRun, rows: Nodes, cfg: Config)
      requires run.Valid() && run.nodes == map[] && Clean(rows)
      modifies run
      ensures run.Valid() && run.state == old(run.state)
      ensures forall id :: id in run.nodes <==> id in rows && id in cfg.specs
      ensures forall id | id in run.nodes :: fresh(run.nodes[id]) && run.nodes[id].View() == rows[id]
    {
      var todo := rows.Keys;
      while todo != {}
        invariant todo <= rows.Keys && run.Valid() && run.state == old(run.state)
        invariant forall id :: id in run.nodes <==> id in rows && id in cfg.specs && id !in todo
        invariant forall id | id in run.nodes :: fresh(run.nodes[id]) && run.nodes[id].View() == rows[id]
        decreases todo
      {
        var id :| id in todo;
        if id in cfg.specs {
          var node := new NodeRun.FromRow(id, rows[id]);
          run.nodes := run.nodes[id := node];
        }
        todo := todo - {id};
      }
    }

    // The second loop: `setdefault` with a fresh record for every node of the template.
    method AddMissing(run: GraphRun, rows: Nodes, cfg: Config)
      requires run.Valid()
      requires forall id :: id in cfg.listing <==> id in cfg.specs
      requires forall id :: id in run.nodes <==> id in rows && id in cfg.specs
      requires forall id | id in run.nodes :: run.nodes[id].View() == rows[id]
      modifies run
      ensures run.Valid() && run.state == old(run.state)
      ensures forall id | id in run.nodes ::
                  if id in old(run.nodes) then run.nodes[id] == old(run.nodes[id]) else fresh(run.nodes[id])
      ensures run.View() == Load(cfg, rows)
    {
      for k := 0 to |cfg.listing|
        invariant run.Valid() && run.state == old(run.state)
        invariant forall id | id in run.nodes ::
                  if id in old(run.nodes) then run.nodes[id] == old(run.nodes[id]) else fresh(run.nodes[id])
        invariant forall id :: id in run.nodes <==> id in cfg.specs && (id in rows || id in cfg.listing[..k])
        invariant forall id | id in run.nodes :: run.nodes[id].View() == if id in rows then rows[id] else FRESH
      {
        var id := cfg.listing[k];
        if id !in run.nodes {
          var node := new NodeRun(id);
          run.nodes := run.nodes[id := node];
        }
        assert cfg.listing[..k + 1] == cfg.listing[..k] + [id];
      }
      assert cfg.listing[..|cfg.listing|] == cfg.listing;
    }

    /** None for an unknown run; otherwise fresh records, one per template node. */
    method LoadRun(runId: string, cfg: Config) returns (run: GraphRun?)
      requires Valid() && forall id :: id in cfg.listing <==> id in cfg.specs
      ensures run == null <==> runId !in runRows
      ensures run != null ==>
                && fresh(run) && run.Valid() && (forall id | id in run.nodes :: fresh(run.nodes[id]))
                && run.runId == runId && runRows[runId] == RunRow(run.templateId, run.state, run.inputs)
                && run.View() == Load(cfg, Rows(runId))
    {
      if runId !in runRows { return null; }
      run := new GraphRun(runId, runRows[runId].templateId, runRows[runId].inputs, runRows[runId].status);
      AddStored(run, Rows(runId), cfg);
      AddMissing(run, Rows(runId), cfg);
    }

    // `resume_run`'s loop: crash recovery assigns states the transition table forbids.
    method RecoverNodes(run: GraphRun)
      requires run.Valid()
      modifies run.nodes.Values
      ensures run.View() == Recover(old(run.View()))
    {
      var todo := run.nodes.Keys;
      while todo != {}
        invariant todo <= run.nodes.Keys
        invariant forall id | id in run.nodes ::
                    var n := old(run.nodes[id].View()); run.nodes[id].View() == if id in todo then n else RecoverNode(n)
        decreases todo
      {
        var id :| id in todo;
        var node := run.nodes[id];
        if node.state == Running || node.state == Ready || node.state == Repairing {
          node.state := Pending;
        }
        todo := todo - {id};
      }
    }

    method MarkValidated(run: GraphRun)
      modifies run`state, this`runRows
      ensures run.state == RunValidated && run.View() == old(run.View())
      ensures runRows == old(runRows)[run.runId := RunRow(run.templateId, RunValidated, run.inputs)]
      ensures old(Valid()) ==> Valid()
      ensures Elsewhere(run.runId) == old(Elsewhere(run.runId))
    {
      run.state := RunValidated;
      SaveRun(run);
      assert forall r :: Rows(r) == old(Rows(r));
    }

    /** `resume_run`: in-flight nodes go back to Pending in memory; only the run row is written. */
    method ResumeRun(runId: string, cfg: Config) returns (run: GraphRun?)
      requires Valid() && forall id :: id in cfg.listing <==> id in cfg.specs
      modifies this`runRows
      ensures run == null <==> runId !in old(runRows)
      ensures run == null ==> runRows == old(runRows)
      ensures run != null ==>
                && fresh(run) && run.Valid() && (forall id | id in run.nodes :: fresh(run.nodes[id]))
                && run.runId == runId && run.inputs == old(runRows)[runId].inputs
                && run.templateId == old(runRows)[runId].templateId
      ensures run != null && IsTerminalRun(old(runRows)[runId].status) ==>
                && run.state == old(runRows)[runId].status && run.View() == Load(cfg, Rows(runId))
                && runRows == old(runRows)
      ensures run != null && !IsTerminalRun(old(runRows)[runId].status) ==>
                run.state == RunValidated && run.View() == Recover(Load(cfg, Rows(runId))) &&
                runRows == old(runRows)[runId := RunRow(run.templateId, RunValidated, run.inputs)]
      ensures Elsewhere(runId) == old(Elsewhere(runId))
    {
      run := LoadRun(runId, cfg);
      if run == null || IsTerminalRun(run.state) { return; }
      RecoverNodes(run);
      MarkValidated(run);
    }
  }
}
