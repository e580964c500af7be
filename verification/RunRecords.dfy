/** The mutable node and run records of the graph runtime. */
module RunRecords {
  import opened Values
  import opened States
  import opened CycleDetection
  import opened Binding
  import opened Machine

  class NodeRun {
    const nodeId: Id
    var state: NodeState
    var attempt: nat
    var repairAttempts: nat
    var params: Params
    var paramsResolved: bool
    var outputs: Outputs

    ghost function View(): Node
      reads this
    {
      Node(state, attempt, repairAttempts, params, paramsResolved, outputs)
    }

    constructor (id: Id)
      ensures nodeId == id && View() == FRESH
      ensures state == Pending && attempt == 0 && repairAttempts == 0 && params == map[] && outputs == map[]
      ensures !paramsResolved
    {
      nodeId := id;
      state, attempt, repairAttempts := Pending, 0, 0;
      params, paramsResolved, outputs := map[], false, map[];
    }

    /** A record read back from its row: the `params_resolved` flag is not stored. */
    constructor FromRow(id: Id, row: Node)
      ensures nodeId == id && View() == Row(row)
      ensures state == row.state && attempt == row.attempt && repairAttempts == row.repairs
      ensures params == row.params && outputs == row.outputs && !paramsResolved
    {
      nodeId := id;
      state, attempt, repairAttempts := row.state, row.attempt, row.repairs;
      params, paramsResolved, outputs := row.params, false, row.outputs;
    }

    /** False stands for the ValueError of an illegal transition, which leaves the record as it was. */
    method Transition(target: NodeState) returns (legal: bool)
      modifies this`state
      ensures legal <==> CanTransition(old(state), target)
      ensures View() == if legal then old(View()).(state := target) else old(View())
    {
      legal := CanTransition(state, target);
      if legal { state := target; }
    }
  }

  class GraphRun {
    const runId: string
    const templateId: string
    const inputs: Params
    var state: RunState
    var nodes: map<Id, NodeRun>

    ghost predicate Valid()
      reads this
    {
      forall id | id in nodes :: nodes[id].nodeId == id
    }

    ghost function View(): Nodes
      reads this, nodes.Values
    {
      map id | id in nodes :: nodes[id].View()
    }

    lemma KeysOf()
      ensures View().Keys == nodes.Keys
    {
    }

    constructor (id: string, template: string, runInputs: Params, runState: RunState)
      ensures Valid() && View() == map[] && nodes == map[]
      ensures runId == id && templateId == template && inputs == runInputs && state == runState
    {
      runId, templateId, inputs, state, nodes := id, template, runInputs, runState, map[];
    }

    /** Ghost record of a single-node change: every other record is untouched because records are not shared. */
    twostate lemma OnlyChanged(id: Id)
      requires old(Valid()) && Valid() && nodes == old(nodes) && id in nodes
      requires forall x | x in nodes && x != id :: unchanged(nodes[x])
      ensures View() == old(View())[id := nodes[id].View()]
    {
    }
  }
}
