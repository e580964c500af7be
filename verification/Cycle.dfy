/** Three-colour depth-first cycle search over the dependency map. */
module CycleDetection {
  import opened Values

  type Id = string
  type Adjacency = map<Id, seq<Id>>

  datatype Color = White | Gray | Black

  /** A dependency edge between two known nodes; dependencies on unknown names are skipped. */
  ghost predicate Edge(adj: Adjacency, a: Id, b: Id) {
    a in adj && b in adj[a] && b in adj
  }

  ghost predicate IsWalk(adj: Adjacency, p: seq<Id>) {
    forall i | 0 <= i < |p| - 1 :: Edge(adj, p[i], p[i + 1])
  }

  ghost predicate IsCycle(adj: Adjacency, p: seq<Id>) {
    |p| >= 2 && p[0] == p[|p| - 1] && IsWalk(adj, p)
  }

  ghost predicate Acyclic(adj: Adjacency) {
    forall p: seq<Id> :: !IsCycle(adj, p)
  }

  ghost predicate Distinct(s: seq<Id>) {
    forall i, j | 0 <= i < j < |s| :: s[i] != s[j]
  }

  /** Every known dependency of an entry stands strictly before it. */
  ghost predicate DependenciesFirst(adj: Adjacency, order: seq<Id>) {
    && Distinct(order)
    && (forall x | x in order :: x in adj)
    && forall k, d | 0 <= k < |order| && Edge(adj, order[k], d) :: d in order[..k]
  }

  ghost predicate IsTopologicalOrder(adj: Adjacency, order: seq<Id>) {
    DependenciesFirst(adj, order) && forall x | x in adj :: x in order
  }

  ghost function Unvisited(adj: Adjacency, path: seq<Id>): set<Id> {
    set x | x in adj && x !in path
  }

  lemma PushShrinks(adj: Adjacency, path: seq<Id>, node: Id)
    requires node in adj && node !in path
    ensures Unvisited(adj, path + [node]) < Unvisited(adj, path)
  {
    assert node in Unvisited(adj, path) && node !in Unvisited(adj, path + [node]);
  }

  // Along a walk the position in a topological order falls at every step.
  lemma {:induction false} WalkDescends(adj: Adjacency, order: seq<Id>, p: seq<Id>) returns (first: nat, last: nat)
    requires IsTopologicalOrder(adj, order)
    requires |p| >= 2 && IsWalk(adj, p)
    ensures last < first < |order| && order[first] == p[0] && order[last] == p[|p| - 1]
  {
    assert Edge(adj, p[0], p[1]);
    first :| 0 <= first < |order| && order[first] == p[0];
    var second: nat :| 0 <= second < first && order[second] == p[1];
    if |p| == 2 {
      last := second;
    } else {
      var tail := p[1..];
      forall i | 0 <= i < |tail| - 1
        ensures Edge(adj, tail[i], tail[i + 1])
      {
        assert Edge(adj, p[i + 1], p[i + 1 + 1]);
      }
      var f, l := WalkDescends(adj, order, tail);
      last := l;
    }
  }

  lemma OrderImpliesAcyclic(adj: Adjacency, order: seq<Id>)
    requires IsTopologicalOrder(adj, order)
    ensures Acyclic(adj)
  {
    forall p: seq<Id>
      ensures !IsCycle(adj, p)
    {
      if IsCycle(adj, p) {
        var first, last := WalkDescends(adj, order, p);
        assert false;
      }
    }
  }

  /** The shared state of the nested `dfs` closure: colours, the path stack, and (ghost) the finishing order. */
  class CycleDetector {
    const adj: Adjacency
    var color: map<Id, Color>
    var path: seq<Id>
    ghost var finished: seq<Id>

    ghost predicate Valid()
      reads this
    {
      && color.Keys == adj.Keys
      && Distinct(path)
      && IsWalk(adj, path)
      && (forall x | x in adj :: color[x] == Gray <==> x in path)
      && (forall x | x in path :: x in adj)
      && (forall x | x in adj :: color[x] == Black <==> x in finished)
      && DependenciesFirst(adj, finished)
    }

    constructor (adjacency: Adjacency)
      ensures adj == adjacency && Valid() && path == [] && finished == []
      ensures forall x | x in adj :: color[x] == White
    {
      adj := adjacency;
      color := map x | x in adjacency :: White;
      path := [];
      finished := [];
    }

    static method IndexOf(s: seq<Id>, x: Id) returns (k: nat)
      requires x in s
      ensures k < |s| && s[k] == x && x !in s[..k]
    {
      k := 0;
      while s[k] != x
        invariant k < |s| && x !in s[..k]
        decreases |s| - k
      {
        k := k + 1;
      }
    }

    // The gray node found again closes the part of the stack above it.
    method CloseCycle(node: Id) returns (cycle: seq<Id>)
      requires Valid() && node in path && Edge(adj, path[|path| - 1], node)
      ensures IsCycle(adj, cycle)
    {
      var start := IndexOf(path, node);
      cycle := path[start..] + [node];
      forall i | 0 <= i < |cycle| - 1
        ensures Edge(adj, cycle[i], cycle[i + 1])
      {
        assert cycle[i] == path[start + i];
        assert i < |cycle| - 2 ==> Edge(adj, path[start + i], path[start + i + 1]);
      }
    }

    method Enter(node: Id)
      requires Valid() && node in adj && color[node] == White
      requires path != [] ==> Edge(adj, path[|path| - 1], node)
      modifies this
      ensures Valid() && path == old(path) + [node] && finished == old(finished)
      ensures color == old(color)[node := Gray]
      ensures Unvisited(adj, path) < old(Unvisited(adj, path))
    {
      assert node !in path;
      PushShrinks(adj, path, node);
      ghost var before := path;
      color := color[node := Gray];
      path := path + [node];
      forall i | 0 <= i < |path| - 1
        ensures Edge(adj, path[i], path[i + 1])
      {
        assert i < |before| - 1 ==> Edge(adj, before[i], before[i + 1]);
      }
    }

    method Leave(node: Id, ghost before: seq<Id>)
      requires Valid() && path == before + [node]
      requires forall d | d in adj[node] && d in adj :: color[d] == Black
      modifies this
      ensures Valid() && path == before && finished == old(finished) + [node]
      ensures color == old(color)[node := Black]
    {
      assert path[|before|] == node;
      forall i | 0 <= i < |before| - 1
        ensures Edge(adj, before[i], before[i + 1])
      {
        assert Edge(adj, path[i], path[i + 1]);
      }
      path := path[..|path| - 1];
      assert path == before;
      color := color[node := Black];
      finished := finished + [node];
      assert forall k | 0 <= k < |finished| - 1 :: finished[..k] == old(finished)[..k];
    }

    method Dfs(node: Id) returns (found: Option<seq<Id>>)
      requires Valid() && node in adj
      requires path != [] ==> Edge(adj, path[|path| - 1], node)
      modifies this
      ensures found.Some? ==> IsCycle(adj, found.value)
      ensures found.None? ==> Valid() && path == old(path) && color[node] == Black
      ensures found.None? ==> forall x | x in adj && old(color[x]) == Black :: color[x] == Black
      decreases Unvisited(adj, path)
    {
      if color[node] == Gray {
        var cycle := CloseCycle(node);
        return Some(cycle);
      }
      if color[node] == Black { return None; }
      ghost var before := path;
      Enter(node);
      var deps := adj[node];
      var k := 0;
      while k < |deps|
        invariant 0 <= k <= |deps|
        invariant Valid() && path == before + [node]
        invariant forall x | x in adj && old(color[x]) == Black :: color[x] == Black
        invariant forall j | 0 <= j < k && deps[j] in adj :: color[deps[j]] == Black
      {
        if deps[k] in color {
          assert path[|path| - 1] == node;
          found := Dfs(deps[k]);
          if found.Some? { return; }
        }
        k := k + 1;
      }
      Leave(node, before);
      found := None;
    }

    /** The outer loop over the template's nodes: None exactly when the dependency map is acyclic. */
    method Detect(ids: seq<Id>) returns (found: Option<seq<Id>>)
      requires Valid() && path == []
      requires forall x :: x in ids <==> x in adj
      modifies this
      ensures found.None? <==> Acyclic(adj)
      ensures found.Some? ==> IsCycle(adj, found.value)
      ensures found.None? ==> IsTopologicalOrder(adj, finished)
    {
      var k := 0;
      while k < |ids|
        invariant 0 <= k <= |ids|
        invariant Valid() && path == []
        invariant forall j | 0 <= j < k :: color[ids[j]] == Black
      {
        if color[ids[k]] == White {
          found := Dfs(ids[k]);
          if found.Some? {
            assert IsCycle(adj, found.value);
            return;
          }
        }
        k := k + 1;
      }
      assert IsTopologicalOrder(adj, finished);
      OrderImpliesAcyclic(adj, finished);
      found := None;
    }
  }
}
