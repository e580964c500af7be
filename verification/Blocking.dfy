/** `process_blocked` iterated: one closure, whatever the template order, and what it restores after a reload. */
module Blocking {
  import opened States
  import opened CycleDetection
  import opened Graph
  import opened Binding
  import opened Machine
  import opened Safety
  import opened Schedule
  import opened Outcomes

  /** A chain of Pending nodes from `id` down to a dead ancestor. */
  ghost predicate DoomedBy(cfg: Config, nodes: Nodes, id: Id, p: seq<Id>) {
    && |p| >= 2 && p[0] == id && Chain(cfg, p)
    && (forall i | 0 <= i < |p| - 1 :: p[i] in nodes && nodes[p[i]].state == Pending)
    && IsDead(StateOf(nodes, p[|p| - 1]))
  }

  ghost predicate Doomed(cfg: Config, nodes: Nodes, id: Id) {
    exists p :: DoomedBy(cfg, nodes, id, p)
  }

  /** The reference: block every doomed node at once. No template order in sight. */
  ghost function Closure(cfg: Config, nodes: Nodes): Nodes {
    map id | id in nodes :: if Doomed(cfg, nodes, id) then nodes[id].(state := Blocked) else nodes[id]
  }

  ghost predicate Settled(cfg: Config, nodes: Nodes) {
    forall id | id in cfg.specs && id in nodes && nodes[id].state == Pending :: !HasDeadDep(cfg.specs[id], nodes)
  }

  lemma DoomedHead(cfg: Config, nodes: Nodes, id: Id, p: seq<Id>)
    requires DoomedBy(cfg, nodes, id, p)
    ensures id in cfg.specs && id in nodes && nodes[id].state == Pending && p[1] in cfg.specs[id].dependsOn
    ensures |p| == 2 ==> IsDead(StateOf(nodes, p[1]))
    ensures |p| > 2 ==> DoomedBy(cfg, nodes, p[1], p[1..])
  {
    if |p| > 2 {
      var tail := p[1..];
      forall i | 0 <= i < |tail| - 1
        ensures tail[i] in cfg.specs && tail[i + 1] in cfg.specs[tail[i]].dependsOn
        ensures tail[i] in nodes && nodes[tail[i]].state == Pending
      {
        assert tail[i] == p[i + 1] && tail[i + 1] == p[i + 1 + 1];
      }
    }
  }

  lemma DoomedCons(cfg: Config, nodes: Nodes, id: Id, d: Id)
    requires id in cfg.specs && id in nodes && nodes[id].state == Pending && d in cfg.specs[id].dependsOn
    requires IsDead(StateOf(nodes, d)) || Doomed(cfg, nodes, d)
    ensures Doomed(cfg, nodes, id)
  {
    if IsDead(StateOf(nodes, d)) {
      assert DoomedBy(cfg, nodes, id, [id, d]);
    } else {
      var p :| DoomedBy(cfg, nodes, d, p);
      var q := [id] + p;
      forall i | 0 <= i < |q| - 1
        ensures q[i] in cfg.specs && q[i + 1] in cfg.specs[q[i]].dependsOn
        ensures q[i] in nodes && nodes[q[i]].state == Pending
      {
        assert i > 0 ==> q[i] == p[i - 1] && q[i + 1] == p[i - 1 + 1];
      }
      assert DoomedBy(cfg, nodes, id, q);
    }
  }

  // Blocking one doomed node does not change who is doomed or already blocked.
  lemma {:induction false} DoomedStill(cfg: Config, nodes: Nodes, x: Id, id: Id, p: seq<Id>)
    requires x in nodes && nodes[x].state == Pending && id != x
    requires DoomedBy(cfg, nodes, id, p)
    ensures Doomed(cfg, nodes[x := nodes[x].(state := Blocked)], id)
    decreases |p|
  {
    var after := nodes[x := nodes[x].(state := Blocked)];
    DoomedHead(cfg, nodes, id, p);
    if |p| > 2 && p[1] != x { DoomedStill(cfg, nodes, x, p[1], p[1..]); }
    DoomedCons(cfg, after, id, p[1]);
  }

  lemma {:induction false} DoomedBefore(cfg: Config, nodes: Nodes, x: Id, id: Id, p: seq<Id>)
    requires x in nodes && Doomed(cfg, nodes, x)
    requires DoomedBy(cfg, nodes[x := nodes[x].(state := Blocked)], id, p)
    ensures Doomed(cfg, nodes, id)
    decreases |p|
  {
    var after := nodes[x := nodes[x].(state := Blocked)];
    DoomedHead(cfg, after, id, p);
    if |p| > 2 { DoomedBefore(cfg, nodes, x, p[1], p[1..]); }
    DoomedCons(cfg, nodes, id, p[1]);
  }

  lemma BlockOneClosure(cfg: Config, nodes: Nodes, x: Id)
    ensures Closure(cfg, BlockNode(cfg, nodes, x)) == Closure(cfg, nodes)
  {
    var after := BlockNode(cfg, nodes, x);
    if after != nodes {
      var d :| d in cfg.specs[x].dependsOn && IsDead(StateOf(nodes, d));
      DoomedCons(cfg, nodes, x, d);
      forall id | id in nodes
        ensures Closure(cfg, after)[id] == Closure(cfg, nodes)[id]
      {
        if id != x && Doomed(cfg, nodes, id) {
          var p :| DoomedBy(cfg, nodes, id, p);
          DoomedStill(cfg, nodes, x, id, p);
        }
        if Doomed(cfg, after, id) {
          var p :| DoomedBy(cfg, after, id, p);
          DoomedBefore(cfg, nodes, x, id, p);
        }
      }
    }
  }

  lemma {:induction false} PassClosure(cfg: Config, nodes: Nodes, k: nat)
    requires k <= |cfg.listing|
    ensures Closure(cfg, BlockPrefix(cfg, nodes, k)) == Closure(cfg, nodes)
  {
    if k > 0 {
      PassClosure(cfg, nodes, k - 1);
      BlockOneClosure(cfg, BlockPrefix(cfg, nodes, k - 1), cfg.listing[k - 1]);
    }
  }

  lemma SettledIsClosed(cfg: Config, nodes: Nodes)
    requires Settled(cfg, nodes)
    ensures Closure(cfg, nodes) == nodes
  {
    forall id | id in nodes
      ensures !Doomed(cfg, nodes, id)
    {
      if p :| DoomedBy(cfg, nodes, id, p) { SettledNotDoomed(cfg, nodes, id, p); }
    }
  }

  lemma {:induction false} SettledNotDoomed(cfg: Config, nodes: Nodes, id: Id, p: seq<Id>)
    requires Settled(cfg, nodes)
    ensures !DoomedBy(cfg, nodes, id, p)
    decreases |p|
  {
    if |p| > 2 { SettledNotDoomed(cfg, nodes, p[1], p[1..]); }
    if DoomedBy(cfg, nodes, id, p) {
      DoomedHead(cfg, nodes, id, p);
      assert false;
    }
  }

  function PendingIds(nodes: Nodes): set<Id> { set id | id in nodes && nodes[id].state == Pending }

  // A pass over a map that is not settled blocks at least one more node.
  lemma PassShrinks(cfg: Config, nodes: Nodes)
    requires WellFormed(cfg)
    ensures BlockPass(cfg, nodes).Keys == nodes.Keys
    ensures Settled(cfg, nodes) || PendingIds(BlockPass(cfg, nodes)) < PendingIds(nodes)
  {
    BlockFrame(cfg, nodes, |cfg.listing|);
    if !Settled(cfg, nodes) {
      var id :| id in cfg.specs && id in nodes && nodes[id].state == Pending && HasDeadDep(cfg.specs[id], nodes);
      assert cfg.listing[..|cfg.listing|] == cfg.listing;
      PassBlocks(cfg, nodes, |cfg.listing|, id);
      assert id in PendingIds(nodes) && id !in PendingIds(BlockPass(cfg, nodes));
    }
  }

  lemma {:induction false} SettledPass(cfg: Config, nodes: Nodes, k: nat)
    requires k <= |cfg.listing| && Settled(cfg, nodes)
    ensures BlockPrefix(cfg, nodes, k) == nodes
  {
    if k > 0 { SettledPass(cfg, nodes, k - 1); }
  }

  function Iterate(cfg: Config, nodes: Nodes, passes: nat): Nodes
    decreases passes
  {
    if passes == 0 then nodes else Iterate(cfg, BlockPass(cfg, nodes), passes - 1)
  }

  lemma SubsetSmaller(a: set<Id>, b: set<Id>)
    requires a < b
    ensures |a| < |b|
  {
    assert !(b <= a);
    var x :| x in b && x !in a;
    assert a <= b - {x};
    Cardinality(a, b - {x});
  }

  lemma {:induction false} Cardinality(a: set<Id>, b: set<Id>)
    requires a <= b
    ensures |a| <= |b|
  {
    if a != {} {
      var x :| x in a;
      Cardinality(a - {x}, b - {x});
    }
  }

  lemma {:induction false} IterateCloses(cfg: Config, nodes: Nodes, passes: nat)
    requires WellFormed(cfg) && passes >= |PendingIds(nodes)|
    ensures Iterate(cfg, nodes, passes) == Closure(cfg, nodes)
    decreases passes
  {
    var next := BlockPass(cfg, nodes);
    PassShrinks(cfg, nodes);
    if Settled(cfg, nodes) {
      SettledIsClosed(cfg, nodes);
      SettledPass(cfg, nodes, |cfg.listing|);
      if passes > 0 { IterateSettled(cfg, nodes, passes); }
    } else {
      SubsetSmaller(PendingIds(next), PendingIds(nodes));
      IterateCloses(cfg, next, passes - 1);
      PassClosure(cfg, nodes, |cfg.listing|);
    }
  }

  lemma {:induction false} IterateSettled(cfg: Config, nodes: Nodes, passes: nat)
    requires Settled(cfg, nodes)
    ensures Iterate(cfg, nodes, passes) == nodes
  {
    SettledPass(cfg, nodes, |cfg.listing|);
    if passes > 0 { IterateSettled(cfg, nodes, passes - 1); }
  }

  /**
   * Blocking closure: after as many passes as there are nodes the result is the closure, which mentions no
   * template order; any further pass changes nothing.
   */
  lemma BlockingCloses(cfg: Config, nodes: Nodes)
    requires WellFormed(cfg) && nodes.Keys == cfg.specs.Keys
    ensures Iterate(cfg, nodes, |cfg.specs|) == Closure(cfg, nodes)
    ensures BlockPass(cfg, Closure(cfg, nodes)) == Closure(cfg, nodes)
  {
    Cardinality(PendingIds(nodes), nodes.Keys);
    assert |cfg.specs.Keys| == |cfg.specs|;
    IterateCloses(cfg, nodes, |cfg.specs|);
    ClosureSettled(cfg, nodes);
    SettledPass(cfg, Closure(cfg, nodes), |cfg.listing|);
  }

  lemma ClosureSettled(cfg: Config, nodes: Nodes)
    ensures Settled(cfg, Closure(cfg, nodes))
  {
    var closed := Closure(cfg, nodes);
    forall id | id in cfg.specs && id in closed && closed[id].state == Pending
      ensures !HasDeadDep(cfg.specs[id], closed)
    {
      if d :| d in cfg.specs[id].dependsOn && IsDead(StateOf(closed, d)) {
        assert IsDead(StateOf(nodes, d)) || Doomed(cfg, nodes, d);
        DoomedCons(cfg, nodes, id, d);
        assert false;
      }
    }
  }

  ghost predicate SettledAt(cfg: Config, nodes: Nodes, id: Id) {
    id in nodes && id in cfg.specs && (nodes[id].state == Pending ==> !HasDeadDep(cfg.specs[id], nodes))
  }

  // With the template listed topologically, a prefix pass leaves its own part settled.
  lemma {:induction false} OrderedPrefixSettled(cfg: Config, nodes: Nodes, k: nat)
    requires Ordered(cfg, cfg.listing) && nodes.Keys == cfg.specs.Keys && k <= |cfg.listing|
    ensures BlockPrefix(cfg, nodes, k).Keys == nodes.Keys
    ensures forall j | 0 <= j < k :: SettledAt(cfg, BlockPrefix(cfg, nodes, k), cfg.listing[j])
  {
    if k > 0 {
      OrderedPrefixSettled(cfg, nodes, k - 1);
      forall j | 0 <= j < k { NextSettled(cfg, BlockPrefix(cfg, nodes, k - 1), k - 1, j); }
    }
  }

  // Blocking entry `k` changes no dependency of an entry up to `k`.
  lemma NextSettled(cfg: Config, before: Nodes, k: nat, j: nat)
    requires Ordered(cfg, cfg.listing) && before.Keys == cfg.specs.Keys && j <= k < |cfg.listing|
    requires j < k ==> SettledAt(cfg, before, cfg.listing[j])
    ensures SettledAt(cfg, BlockNode(cfg, before, cfg.listing[k]), cfg.listing[j])
  {
    var after := BlockNode(cfg, before, cfg.listing[k]);
    assert cfg.listing[j] in cfg.specs;
    forall d | d in cfg.specs[cfg.listing[j]].dependsOn
      ensures StateOf(before, d) == StateOf(after, d)
    {
      assert d in cfg.listing[..j];
    }
  }

  /** One pass suffices when the template lists its nodes in topological order. */
  lemma OnePassSuffices(cfg: Config, nodes: Nodes)
    requires WellFormed(cfg) && Ordered(cfg, cfg.listing) && nodes.Keys == cfg.specs.Keys
    ensures BlockPass(cfg, nodes) == Closure(cfg, nodes)
  {
    OrderedPrefixSettled(cfg, nodes, |cfg.listing|);
    var after := BlockPass(cfg, nodes);
    forall id | id in cfg.specs
      ensures SettledAt(cfg, after, id)
    {
      var j: nat :| j < |cfg.listing| && cfg.listing[j] == id;
    }
    assert Settled(cfg, after);
    SettledIsClosed(cfg, after);
    PassClosure(cfg, nodes, |cfg.listing|);
  }

  // ------------------------------------------------------------------------------------ reload of a finished run

  /** Every blocked node in memory has a dead dependency. */
  ghost predicate BlockedCaused(cfg: Config, nodes: Nodes) {
    forall id | id in cfg.specs && id in nodes && nodes[id].state == Blocked :: HasDeadDep(cfg.specs[id], nodes)
  }

  lemma {:induction false} PassCaused(cfg: Config, nodes: Nodes, k: nat)
    requires k <= |cfg.listing| && BlockedCaused(cfg, nodes)
    ensures BlockedCaused(cfg, BlockPrefix(cfg, nodes, k))
  {
    if k > 0 {
      PassCaused(cfg, nodes, k - 1);
      BlockOneCaused(cfg, BlockPrefix(cfg, nodes, k - 1), cfg.listing[k - 1]);
    }
  }

  lemma BlockOneCaused(cfg: Config, nodes: Nodes, x: Id)
    requires BlockedCaused(cfg, nodes)
    ensures BlockedCaused(cfg, BlockNode(cfg, nodes, x))
  {
    var after := BlockNode(cfg, nodes, x);
    forall id | id in cfg.specs && id in after && after[id].state == Blocked
      ensures HasDeadDep(cfg.specs[id], after)
    {
      assert HasDeadDep(cfg.specs[id], nodes);
      var d :| d in cfg.specs[id].dependsOn && IsDead(StateOf(nodes, d));
      assert IsDead(StateOf(after, d));
    }
  }

  // A step of the loop only writes over a node that is not dead.
  lemma UpdateCaused(cfg: Config, nodes: Nodes, id: Id, n: Node)
    requires BlockedCaused(cfg, nodes) && !IsDead(StateOf(nodes, id)) && n.state != Blocked
    ensures BlockedCaused(cfg, nodes[id := n])
  {
    forall x | x in cfg.specs && x in nodes[id := n] && nodes[id := n][x].state == Blocked
      ensures HasDeadDep(cfg.specs[x], nodes[id := n])
    {
      var d :| d in cfg.specs[x].dependsOn && IsDead(StateOf(nodes, d));
      assert IsDead(StateOf(nodes[id := n], d));
    }
  }

  lemma FinishCaused(cfg: Config, s: Sys, id: Id, outcome: Outcome, fix: Fix)
    requires Inv(cfg, s) && Enabled(cfg, s, Finish(id, outcome, fix)) && BlockedCaused(cfg, s.nodes)
    ensures BlockedCaused(cfg, Apply(cfg, s, Finish(id, outcome, fix)).nodes)
  {
    FlyingIsRunning(cfg, s, id);
    FinishApplies(cfg, s, id, outcome, fix);
    UpdateCaused(cfg, s.nodes, id, FinishNode(cfg.specs[id], cfg.repairers, s.nodes[id], outcome, fix));
  }

  lemma DispatchCaused(cfg: Config, s: Sys, id: Id)
    requires Enabled(cfg, s, Dispatch(id)) && BlockedCaused(cfg, s.nodes)
    ensures BlockedCaused(cfg, Apply(cfg, s, Dispatch(id)).nodes)
  {
    UpdateCaused(cfg, s.nodes, id, StartNode(cfg, s.nodes, id).value);
  }

  lemma StepCaused(cfg: Config, s: Sys, step: Step)
    requires Inv(cfg, s) && Enabled(cfg, s, step) && BlockedCaused(cfg, s.nodes)
    ensures BlockedCaused(cfg, Apply(cfg, s, step).nodes)
  {
    if step.Block? {
      PassCaused(cfg, s.nodes, |cfg.listing|);
    } else if step.Dispatch? {
      DispatchCaused(cfg, s, step.id);
    } else if step.Finish? {
      FinishCaused(cfg, s, step.id, step.outcome, step.fix);
    }
  }

  lemma {:induction false} RunCaused(cfg: Config, s: Sys, steps: seq<Step>)
    requires SpecsOk(cfg) && Inv(cfg, s) && Runs(cfg, s, steps) && BlockedCaused(cfg, s.nodes)
    ensures BlockedCaused(cfg, Exec(cfg, s, steps).nodes)
    decreases |steps|
  {
    if steps != [] {
      StepCaused(cfg, s, steps[0]);
      StepKeeps(cfg, s, steps[0]);
      RunCaused(cfg, Apply(cfg, s, steps[0]), steps[1..]);
    }
  }

  // A finished run's rows hold every final state but Blocked, which reads back as Pending.
  lemma ReloadedState(cfg: Config, s: Sys, id: Id)
    requires SpecsOk(cfg) && Inv(cfg, s) && s.live && BlockedCaused(cfg, s.nodes)
    requires id in cfg.specs && IsTerminal(s.nodes[id].state)
    ensures id in Load(cfg, s.rows)
    ensures Load(cfg, s.rows)[id].state == if s.nodes[id].state == Blocked then Pending else s.nodes[id].state
  {
    SyncedAt(cfg, s, id);
    if s.nodes[id].state == Blocked { BlockedReloads(cfg, s.nodes, s.rows, id); }
  }

  lemma BlockedReloads(cfg: Config, nodes: Nodes, rows: Nodes, id: Id)
    requires SpecsOk(cfg) && RowsOk(cfg, rows) && Synced(cfg, nodes, rows) && nodes.Keys == cfg.specs.Keys
    requires id in cfg.specs && nodes[id].state == Blocked && HasDeadDep(cfg.specs[id], nodes)
    ensures Load(cfg, rows)[id].state == Pending
  {
    assert Durable(nodes[id]) == Durable(Load(cfg, rows)[id]);
    SyncedDeps(cfg, nodes, rows, id);
    assert !DepsSucceeded(cfg.specs[id], nodes);
    assert !Engaged(Load(cfg, rows)[id].state);
  }

  lemma {:induction false} ReloadedDoomed(cfg: Config, s: Sys, order: seq<Id>, k: nat)
    requires SpecsOk(cfg) && Ordered(cfg, order)
    requires Inv(cfg, s) && s.live && AllTerminal(s.nodes) && BlockedCaused(cfg, s.nodes)
    requires k < |order| && s.nodes[order[k]].state == Blocked
    ensures Doomed(cfg, Load(cfg, s.rows), order[k])
  {
    var id := order[k];
    var d :| d in cfg.specs[id].dependsOn && IsDead(StateOf(s.nodes, d));
    assert d in order[..k];
    var j: nat :| j < k && order[j] == d;
    ReloadedState(cfg, s, id);
    ReloadedState(cfg, s, d);
    if s.nodes[d].state == Blocked { ReloadedDoomed(cfg, s, order, j); }
    DoomedCons(cfg, Load(cfg, s.rows), id, d);
  }

  // A node that did not end blocked is not doomed in the image: its row is not Pending.
  lemma ReloadedNotDoomed(cfg: Config, s: Sys, id: Id)
    requires SpecsOk(cfg) && Inv(cfg, s) && s.live && AllTerminal(s.nodes) && BlockedCaused(cfg, s.nodes)
    requires id in cfg.specs && s.nodes[id].state != Blocked
    ensures !Doomed(cfg, Load(cfg, s.rows), id)
  {
    ReloadedState(cfg, s, id);
  }

  /** Applied to the reloaded image of a finished run, the closure restores exactly the states that memory had. */
  lemma ReloadRestoresBlocked(cfg: Config, steps: seq<Step>, order: seq<Id>, id: Id)
    requires SpecsOk(cfg) && Ordered(cfg, order) && Runs(cfg, CREATED, steps) && id in cfg.specs
    requires Exec(cfg, CREATED, steps).live && AllTerminal(Exec(cfg, CREATED, steps).nodes)
    ensures var s := Exec(cfg, CREATED, steps);
            id in s.nodes && Closure(cfg, Load(cfg, s.rows))[id].state == s.nodes[id].state
  {
    RunKeeps(cfg, CREATED, steps);
    RunCaused(cfg, CREATED, steps);
    RestoresBlocked(cfg, Exec(cfg, CREATED, steps), order, id);
  }

  lemma RestoresBlocked(cfg: Config, s: Sys, order: seq<Id>, id: Id)
    requires SpecsOk(cfg) && Ordered(cfg, order) && id in cfg.specs
    requires Inv(cfg, s) && s.live && AllTerminal(s.nodes) && BlockedCaused(cfg, s.nodes)
    ensures Closure(cfg, Load(cfg, s.rows))[id].state == s.nodes[id].state
  {
    ReloadedState(cfg, s, id);
    var k: nat :| k < |order| && order[k] == id;
    if s.nodes[id].state == Blocked { ReloadedDoomed(cfg, s, order, k); } else { ReloadedNotDoomed(cfg, s, id); }
  }
}
