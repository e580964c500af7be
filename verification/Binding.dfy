/** Node records and the resolution of `${...}` bindings against a run. */
module Binding {
  import opened Values
  import opened States
  import opened CycleDetection
  import opened Graph

  type Outputs = map<string, Value>

  /** The data of one `NodeRun`; `resolved` is the unpersisted `params_resolved` flag. */
  datatype Node = Node(
    state: NodeState,
    attempt: nat,
    repairs: nat,
    params: Params,
    resolved: bool,
    outputs: Outputs)

  type Nodes = map<Id, Node>

  const FRESH := Node(Pending, 0, 0, map[], false, map[])

  /** Nodes of a validated template always have a record, so the default is only there for totality. */
  function StateOf(nodes: Nodes, id: Id): NodeState {
    if id in nodes then nodes[id].state else Pending
  }

  /** The value a parsed reference stands for; None is a raised ValueError. */
  function RefValue(r: Ref, inputs: Params, nodes: Nodes): Option<Value> {
    match r
    case Ref(Inputs, key, _) => if key in inputs then Some(inputs[key]) else None
    case Ref(Nodes, _, None) => None
    case Ref(Nodes, key, Some(out)) =>
      if StateOf(nodes, key) != Succeeded || key !in nodes then None
      else if out in nodes[key].outputs then Some(nodes[key].outputs[out])
      else None
  }

  function ResolveValue(v: Value, inputs: Params, nodes: Nodes): Option<Value> {
    match v
    case Str(s) =>
      (match ParseRef(Strip(s))
       case Some(r) => RefValue(r, inputs, nodes)
       case None => Some(v))
    case List(items) =>
      if forall i | 0 <= i < |items| :: ResolveValue(items[i], inputs, nodes).Some? then
        Some(List(seq(|items|, i requires 0 <= i < |items| => ResolveValue(items[i], inputs, nodes).value)))
      else None
    case Dict(fields) =>
      if forall k | k in fields :: ResolveValue(fields[k], inputs, nodes).Some? then
        Some(Dict(map k | k in fields :: ResolveValue(fields[k], inputs, nodes).value))
      else None
    case _ => Some(v)
  }

  function ResolveParams(params: Params, inputs: Params, nodes: Nodes): Option<Params> {
    match ResolveValue(Dict(params), inputs, nodes)
    case Some(Dict(fields)) => Some(fields)
    case _ => None
  }

  /** `raw` is a reference that cannot be resolved. */
  predicate Unresolvable(raw: string, inputs: Params, nodes: Nodes) {
    ParseRef(raw).Some? && RefValue(ParseRef(raw).value, inputs, nodes).None?
  }

  // Resolution fails exactly when one of the strings inside the value is an unresolvable reference.
  lemma {:induction false} ResolvesIff(v: Value, inputs: Params, nodes: Nodes)
    ensures ResolveValue(v, inputs, nodes).None? <==>
              exists raw :: raw in ParamStrings(v) && Unresolvable(raw, inputs, nodes)
    ensures v.Dict? && ResolveValue(v, inputs, nodes).Some? ==> ResolveValue(v, inputs, nodes).value.Dict?
  {
    match v
    case Str(s) =>
      assert ParamStrings(v) == {Strip(s)};
      assert ResolveValue(v, inputs, nodes).None? <==> Unresolvable(Strip(s), inputs, nodes);
    case List(items) =>
      forall i | 0 <= i < |items| { ResolvesIff(items[i], inputs, nodes); }
    case Dict(fields) =>
      forall k | k in fields { ResolvesIff(fields[k], inputs, nodes); }
    case _ =>
  }

  /** The two node maps give every reference among `raws` the same value. */
  ghost predicate SameMeaning(raws: set<string>, inputs: Params, a: Nodes, b: Nodes) {
    forall raw | raw in raws && ParseRef(raw).Some? ::
      RefValue(ParseRef(raw).value, inputs, a) == RefValue(ParseRef(raw).value, inputs, b)
  }

  lemma {:induction false} ResolveCongruent(v: Value, inputs: Params, a: Nodes, b: Nodes)
    requires SameMeaning(ParamStrings(v), inputs, a, b)
    ensures ResolveValue(v, inputs, a) == ResolveValue(v, inputs, b)
  {
    match v
    case Str(s) =>
      assert Strip(s) in ParamStrings(v);
    case List(items) =>
      forall i | 0 <= i < |items|
        ensures ResolveValue(items[i], inputs, a) == ResolveValue(items[i], inputs, b)
      {
        assert forall raw | raw in ParamStrings(items[i]) :: raw in ParamStrings(v);
        ResolveCongruent(items[i], inputs, a, b);
      }
      var ra, rb := ResolveValue(v, inputs, a), ResolveValue(v, inputs, b);
      assert ra.Some? ==> rb.Some? && ra.value.items == rb.value.items;
    case Dict(fields) =>
      forall k | k in fields
        ensures ResolveValue(fields[k], inputs, a) == ResolveValue(fields[k], inputs, b)
      {
        assert forall raw | raw in ParamStrings(fields[k]) :: raw in ParamStrings(v);
        ResolveCongruent(fields[k], inputs, a, b);
      }
      var ra, rb := ResolveValue(v, inputs, a), ResolveValue(v, inputs, b);
      assert ra.Some? ==> rb.Some? && ra.value.fields == rb.value.fields;
    case _ =>
  }

  // A value without references resolves to itself, so resolving it again is a no-op.
  lemma {:induction false} LiteralResolvesToItself(v: Value, inputs: Params, nodes: Nodes)
    requires forall raw | raw in ParamStrings(v) :: ParseRef(raw).None?
    ensures ResolveValue(v, inputs, nodes) == Some(v)
    decreases v
  {
    match v
    case Str(s) =>
      assert Strip(s) in ParamStrings(v);
    case List(items) =>
      forall i | 0 <= i < |items|
        ensures ResolveValue(items[i], inputs, nodes) == Some(items[i])
      {
        assert forall raw | raw in ParamStrings(items[i]) :: raw in ParamStrings(v);
        LiteralResolvesToItself(items[i], inputs, nodes);
      }
      assert ResolveValue(v, inputs, nodes).value.items == items;
    case Dict(fields) =>
      forall k | k in fields
        ensures ResolveValue(fields[k], inputs, nodes) == Some(fields[k])
      {
        assert forall raw | raw in ParamStrings(fields[k]) :: raw in ParamStrings(v);
        LiteralResolvesToItself(fields[k], inputs, nodes);
      }
      assert ResolveValue(v, inputs, nodes).value.fields == fields;
    case _ =>
  }

  /** A reference, written out, resolves to the input it names or to the committed output of the node it names. */
  lemma ReferenceResolves(r: Ref, inputs: Params, nodes: Nodes, value: Value)
    requires WordRef(r)
    ensures ResolveValue(Str(Render(r)), inputs, nodes) == Some(value) <==>
              (if r.scope == Inputs then r.key in inputs && inputs[r.key] == value
               else r.outKey.Some? && r.key in nodes && nodes[r.key].state == Succeeded
                    && r.outKey.value in nodes[r.key].outputs && nodes[r.key].outputs[r.outKey.value] == value)
  {
    var s := Render(r);
    assert s[0] == '$' && s[|s| - 1] == '}';
    assert Strip(s) == s;
    ParseRefExact(s, r);
  }

  ghost predicate DepsSucceeded(n: NodeSpec, nodes: Nodes) {
    forall d | d in n.dependsOn :: StateOf(nodes, d) == Succeeded
  }

  /** What validation leaves of the references: known inputs, and output keys of declared dependencies. */
  ghost predicate RefsDeclared(n: NodeSpec, inputKeys: set<string>) {
    forall raw | raw in Strings(n.params) && ParseRef(raw).Some? ::
      match ParseRef(raw).value
      case Ref(Inputs, key, _) => key in inputKeys
      case Ref(Nodes, key, outKey) => outKey.Some? && key in n.dependsOn
  }

  lemma ValidationDeclaresRefs(t: GraphTemplate, n: NodeSpec)
    requires NodeOk(t, n)
    ensures RefsDeclared(n, t.inputs.Keys)
  {
    forall raw | raw in Strings(n.params) && ParseRef(raw).Some?
      ensures RefOk(t, n, raw) && REF_OPEN <= raw
    {
      ReferenceStartsOpen(raw);
    }
  }

  // Only the states and outputs of the declared dependencies matter to a validated node's parameters.
  lemma ResolveUsesDeclaredDeps(n: NodeSpec, inputs: Params, a: Nodes, b: Nodes)
    requires RefsDeclared(n, inputs.Keys)
    requires forall d | d in n.dependsOn :: d in a && d in b && a[d].state == b[d].state && a[d].outputs == b[d].outputs
    ensures ResolveParams(n.params, inputs, a) == ResolveParams(n.params, inputs, b)
  {
    ResolveCongruent(Dict(n.params), inputs, a, b);
  }

  lemma ReferenceStartsOpen(raw: string)
    requires ParseRef(raw).Some?
    ensures REF_OPEN <= raw
  {
    var r := ParseRef(raw).value;
    assert ScopePrefix(r.scope)[..2] == REF_OPEN;
    ParseRefExact(raw, r);
  }

  /** A declared dependency did not produce an output key that the parameters of `n` refer to. */
  ghost predicate MissingOutput(n: NodeSpec, nodes: Nodes) {
    exists raw, d, out ::
      raw in Strings(n.params) && ParseRef(raw) == Some(Ref(Nodes, d, Some(out))) &&
      d in n.dependsOn && d in nodes && out !in nodes[d].outputs
  }

  // Binding is safe at dispatch: with declared references, resolution fails exactly when a succeeded,
  // declared dependency did not produce a referenced output key.
  lemma BindingSafe(n: NodeSpec, inputs: Params, nodes: Nodes)
    requires RefsDeclared(n, inputs.Keys)
    requires DepsSucceeded(n, nodes) && forall d | d in n.dependsOn :: d in nodes
    ensures ResolveParams(n.params, inputs, nodes).None? <==> MissingOutput(n, nodes)
  {
    ResolvesIff(Dict(n.params), inputs, nodes);
    if raw :| raw in Strings(n.params) && Unresolvable(raw, inputs, nodes) {
      var r := ParseRef(raw).value;
      assert r.scope == Nodes && r.outKey.Some?;
      assert ParseRef(raw) == Some(Ref(Nodes, r.key, Some(r.outKey.value)));
    }
    if MissingOutput(n, nodes) {
      var raw, d, out :| raw in Strings(n.params) && ParseRef(raw) == Some(Ref(Nodes, d, Some(out))) &&
                         d in n.dependsOn && d in nodes && out !in nodes[d].outputs;
      assert Unresolvable(raw, inputs, nodes);
    }
  }
}
