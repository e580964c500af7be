/** Declarative graph templates and their validation. */
module Graph {
  import opened Values
  import opened CycleDetection

  datatype NodeSpec = NodeSpec(
    id: Id,
    tool: string,
    params: Params,
    dependsOn: seq<Id>,
    maxAttempts: int,
    maxRepairAttempts: int,
    repair: Option<string>,
    timeoutSeconds: Option<real>,
    executionMode: string)

  datatype GraphTemplate = GraphTemplate(
    templateId: string,
    nodes: seq<NodeSpec>,
    inputs: Params,
    outputs: map<string, Value>)

  datatype ValidationError =
    | EmptyTemplateId
    | NoNodes
    | DuplicateIds
    | EmptyNodeId
    | BadNodeId(node: Id)
    | EmptyTool(node: Id)
    | BadMaxAttempts(node: Id)
    | BadMaxRepairAttempts(node: Id)
    | BadTimeout(node: Id)
    | BadExecutionMode(node: Id)
    | DuplicateDependencies(node: Id)
    | UnknownDependency(node: Id, dep: Id)
    | SelfDependency(node: Id)
    | MalformedReference(node: Id, raw: string)
    | UnknownInput(node: Id, key: string)
    | MissingOutputsKey(node: Id, raw: string)
    | UnknownNodeReference(node: Id, key: string)
    | UndeclaredReference(node: Id, key: string)
    | CycleDetected(path: seq<Id>)
    | BadOutputReference(name: string)
    | UnknownOutputNode(name: string, key: string)
    | UnknownTool(node: Id, tool: string)

  function Ids(nodes: seq<NodeSpec>): set<Id> {
    set n | n in nodes :: n.id
  }

  predicate DistinctIds(nodes: seq<NodeSpec>) {
    forall i, j | 0 <= i < j < |nodes| :: nodes[i].id != nodes[j].id
  }

  /** `GraphTemplate.node`: the first spec with this id. */
  function FindNode(nodes: seq<NodeSpec>, id: Id): (r: Option<NodeSpec>)
    ensures r.Some? <==> id in Ids(nodes)
    ensures r.Some? ==> r.value in nodes && r.value.id == id
  {
    if nodes == [] then None
    else if nodes[0].id == id then Some(nodes[0])
    else
      assert nodes == [nodes[0]] + nodes[1..];
      FindNode(nodes[1..], id)
  }

  lemma {:induction false} FindNodeUnique(nodes: seq<NodeSpec>, n: NodeSpec)
    requires DistinctIds(nodes) && n in nodes
    ensures FindNode(nodes, n.id) == Some(n)
  {
    if nodes[0] != n {
      assert n in nodes[1..];
      FindNodeUnique(nodes[1..], n);
      var k :| 0 <= k < |nodes| && nodes[k] == n;
      assert nodes[0].id != nodes[k].id;
    }
  }

  // The adjacency dictionary of `_detect_cycle`: a later spec with the same id replaces an earlier one.
  function DependencyMap(nodes: seq<NodeSpec>): (m: Adjacency)
    ensures m.Keys == Ids(nodes)
  {
    if nodes == [] then map[]
    else
      var last := nodes[|nodes| - 1];
      assert nodes == nodes[..|nodes| - 1] + [last];
      DependencyMap(nodes[..|nodes| - 1])[last.id := last.dependsOn]
  }

  lemma {:induction false} DependencyMapOf(nodes: seq<NodeSpec>, n: NodeSpec)
    requires DistinctIds(nodes) && n in nodes
    ensures DependencyMap(nodes)[n.id] == n.dependsOn
  {
    var init, last := nodes[..|nodes| - 1], nodes[|nodes| - 1];
    assert nodes == init + [last];
    if n != last {
      assert n in init;
      DependencyMapOf(init, n);
      var k :| 0 <= k < |init| && init[k] == n;
      assert nodes[k].id != nodes[|nodes| - 1].id;
    }
  }

  /** `_iter_param_strings`: every string inside a value, stripped. */
  function ParamStrings(v: Value): set<string> {
    match v
    case Str(s) => {Strip(s)}
    case List(items) => set i, s | 0 <= i < |items| && s in ParamStrings(items[i]) :: s
    case Dict(fields) => set k, s | k in fields && s in ParamStrings(fields[k]) :: s
    case _ => {}
  }

  function Strings(params: Params): set<string> {
    ParamStrings(Dict(params))
  }

  const REF_OPEN := "${"

  predicate RefOk(t: GraphTemplate, n: NodeSpec, raw: string) {
    REF_OPEN <= raw ==>
      match ParseRef(raw)
      case None => false
      case Some(Ref(Inputs, key, outKey)) => outKey.None? && key in t.inputs
      case Some(Ref(Nodes, key, outKey)) => outKey.Some? && key in Ids(t.nodes) && key in n.dependsOn
  }

  predicate DependenciesOk(t: GraphTemplate, n: NodeSpec) {
    && (forall i, j | 0 <= i < j < |n.dependsOn| :: n.dependsOn[i] != n.dependsOn[j])
    && (forall d | d in n.dependsOn :: d in Ids(t.nodes))
    && n.id !in n.dependsOn
  }

  predicate NodeOk(t: GraphTemplate, n: NodeSpec) {
    && FieldsOk(n)
    && DependenciesOk(t, n)
    && forall raw | raw in Strings(n.params) :: RefOk(t, n, raw)
  }

  // `OUTPUT_REF_RE.match`: the `$` also accepts one trailing newline.
  function ParseOutputRef(v: Value): Option<Ref> {
    if !v.Str? then None
    else
      match ParseRef(Bare(v.s))
      case Some(Ref(Nodes, key, Some(out))) => Some(Ref(Nodes, key, Some(out)))
      case _ => None
  }

  function Bare(s: string): string {
    if s != "" && s[|s| - 1] == '\n' then s[..|s| - 1] else s
  }

  predicate OutputOk(t: GraphTemplate, v: Value) {
    ParseOutputRef(v).Some? && ParseOutputRef(v).value.key in Ids(t.nodes)
  }

  /** What an empty error list means. */
  ghost predicate ValidTemplate(t: GraphTemplate, knownTools: Option<set<string>>) {
    && Strip(t.templateId) != ""
    && t.nodes != []
    && DistinctIds(t.nodes)
    && (forall n | n in t.nodes :: Strip(n.id) != "" && NodeOk(t, n))
    && Acyclic(DependencyMap(t.nodes))
    && (forall name | name in t.outputs :: OutputOk(t, t.outputs[name]))
    && (knownTools.Some? ==> forall n | n in t.nodes :: n.tool in knownTools.value)
  }

  // ---------------------------------------------------------------------------------------- what is reported

  ghost predicate DependencyFault(t: GraphTemplate, n: NodeSpec, e: ValidationError) {
    match e
    case DuplicateDependencies(node) =>
      node == n.id && exists i, j :: 0 <= i < j < |n.dependsOn| && n.dependsOn[i] == n.dependsOn[j]
    case UnknownDependency(node, dep) => node == n.id && dep in n.dependsOn && dep !in Ids(t.nodes)
    case SelfDependency(node) => node == n.id && n.id in n.dependsOn
    case _ => false
  }

  ghost predicate InputFault(t: GraphTemplate, n: NodeSpec, r: Ref, e: ValidationError) {
    r.scope == Inputs && (r.outKey.Some? || r.key !in t.inputs) && e == UnknownInput(n.id, r.key)
  }

  /** A reference to a node lacks its outputs key, or names no node, or one that is not a dependency. */
  ghost predicate NodeRefFault(t: GraphTemplate, n: NodeSpec, raw: string, r: Ref, e: ValidationError) {
    r.scope == Nodes &&
    if r.outKey.None? then e == MissingOutputsKey(n.id, raw)
    else if r.key !in Ids(t.nodes) then e == UnknownNodeReference(n.id, r.key)
    else r.key !in n.dependsOn && e == UndeclaredReference(n.id, r.key)
  }

  /** What is wrong with one parameter string; strings that do not open a reference are never reported. */
  ghost predicate ReferenceFault(t: GraphTemplate, n: NodeSpec, raw: string, e: ValidationError) {
    REF_OPEN <= raw &&
    match ParseRef(raw)
    case None => e == MalformedReference(n.id, raw)
    case Some(r) => InputFault(t, n, r, e) || NodeRefFault(t, n, raw, r, e)
  }

  ghost predicate FieldFault(n: NodeSpec, e: ValidationError) {
    match e
    case BadNodeId(node) => node == n.id && n.id != "" && !IsWord(n.id)
    case EmptyTool(node) => node == n.id && Strip(n.tool) == ""
    case BadMaxAttempts(node) => node == n.id && n.maxAttempts < 1
    case BadMaxRepairAttempts(node) => node == n.id && n.maxRepairAttempts < 0
    case BadTimeout(node) => node == n.id && n.timeoutSeconds.Some? && n.timeoutSeconds.value <= 0.0
    case BadExecutionMode(node) => node == n.id && n.executionMode != "local" && n.executionMode != "hpc"
    case _ => false
  }

  ghost predicate NodeFault(t: GraphTemplate, n: NodeSpec, e: ValidationError) {
    || FieldFault(n, e)
    || DependencyFault(t, n, e)
    || exists raw :: raw in Strings(n.params) && ReferenceFault(t, n, raw, e)
  }

  ghost predicate OutputFault(t: GraphTemplate, name: string, e: ValidationError)
    requires name in t.outputs
  {
    match ParseOutputRef(t.outputs[name])
    case None => e == BadOutputReference(name)
    case Some(r) => r.key !in Ids(t.nodes) && e == UnknownOutputNode(name, r.key)
  }

  ghost predicate SomeOutputFault(t: GraphTemplate, e: ValidationError) {
    exists name :: name in t.outputs && OutputFault(t, name, e)
  }

  ghost predicate HeaderFault(t: GraphTemplate, e: ValidationError) {
    match e
    case EmptyTemplateId => Strip(t.templateId) == ""
    case NoNodes => t.nodes == []
    case DuplicateIds => !DistinctIds(t.nodes)
    case EmptyNodeId => exists n :: n in t.nodes && Strip(n.id) == ""
    case _ => false
  }

  ghost predicate ToolFault(t: GraphTemplate, tools: set<string>, e: ValidationError) {
    exists n :: n in t.nodes && n.tool !in tools && e == UnknownTool(n.id, n.tool)
  }

  /** Everything `validate` reports besides a cycle, and nothing else. */
  ghost predicate Fault(t: GraphTemplate, knownTools: Option<set<string>>, e: ValidationError) {
    || HeaderFault(t, e)
    || SomeNodeFault(t, e)
    || SomeOutputFault(t, e)
    || (knownTools.Some? && ToolFault(t, knownTools.value, e))
  }

  ghost predicate SomeNodeFault(t: GraphTemplate, e: ValidationError) {
    exists n :: n in t.nodes && NodeFault(t, n, e)
  }

  predicate UnknownAmong(t: GraphTemplate, n: NodeSpec, deps: seq<Id>, e: ValidationError) {
    e.UnknownDependency? && e.node == n.id && e.dep in deps && e.dep !in Ids(t.nodes)
  }

  method CheckDependencies(t: GraphTemplate, n: NodeSpec) returns (errors: seq<ValidationError>)
    ensures errors == [] <==> DependenciesOk(t, n)
    ensures forall e :: e in errors <==> DependencyFault(t, n, e)
  {
    errors := [];
    if exists i, j :: 0 <= i < j < |n.dependsOn| && n.dependsOn[i] == n.dependsOn[j] {
      errors := errors + [DuplicateDependencies(n.id)];
    }
    ghost var before := errors;
    for k := 0 to |n.dependsOn|
      invariant errors == [] <==> before == [] && forall d | d in n.dependsOn[..k] :: d in Ids(t.nodes)
      invariant forall e: ValidationError :: e in errors <==> (e in before || UnknownAmong(t, n, n.dependsOn[..k], e))
    {
      if n.dependsOn[k] !in Ids(t.nodes) {
        errors := errors + [UnknownDependency(n.id, n.dependsOn[k])];
      }
    }
    assert n.dependsOn[..|n.dependsOn|] == n.dependsOn;
    if n.id in n.dependsOn {
      errors := errors + [SelfDependency(n.id)];
    }
  }

  method CheckReference(t: GraphTemplate, n: NodeSpec, raw: string) returns (errors: seq<ValidationError>)
    ensures errors == [] <==> RefOk(t, n, raw)
    ensures forall e :: e in errors <==> ReferenceFault(t, n, raw, e)
  {
    errors := [];
    if REF_OPEN <= raw {
      match ParseRef(raw)
      case None => errors := [MalformedReference(n.id, raw)];
      case Some(r) => errors := CheckParsed(t, n, raw, r);
    }
  }

  method CheckParsed(t: GraphTemplate, n: NodeSpec, raw: string, r: Ref) returns (errors: seq<ValidationError>)
    ensures errors == [] <==> if r.scope == Inputs then r.outKey.None? && r.key in t.inputs
                              else r.outKey.Some? && r.key in Ids(t.nodes) && r.key in n.dependsOn
    ensures forall e :: e in errors <==> InputFault(t, n, r, e) || NodeRefFault(t, n, raw, r, e)
  {
    errors := [];
    if r.scope == Inputs {
      if r.outKey.Some? || r.key !in t.inputs { errors := [UnknownInput(n.id, r.key)]; }
    } else if r.outKey.None? {
      errors := [MissingOutputsKey(n.id, raw)];
    } else if r.key !in Ids(t.nodes) {
      errors := [UnknownNodeReference(n.id, r.key)];
    } else if r.key !in n.dependsOn {
      errors := [UndeclaredReference(n.id, r.key)];
    }
  }

  method CheckReferences(t: GraphTemplate, n: NodeSpec) returns (errors: seq<ValidationError>)
    ensures errors == [] <==> forall raw | raw in Strings(n.params) :: RefOk(t, n, raw)
    ensures forall e :: e in errors <==> exists raw :: raw in Strings(n.params) && ReferenceFault(t, n, raw, e)
  {
    errors := [];
    var todo := Strings(n.params);
    while todo != {}
      invariant todo <= Strings(n.params)
      invariant errors == [] <==> forall raw | raw in Strings(n.params) - todo :: RefOk(t, n, raw)
      invariant forall e :: e in errors <==>
                  exists raw :: raw in Strings(n.params) - todo && ReferenceFault(t, n, raw, e)
      decreases todo
    {
      var raw :| raw in todo;
      var found := CheckReference(t, n, raw);
      errors := errors + found;
      todo := todo - {raw};
    }
  }

  method CheckNode(t: GraphTemplate, n: NodeSpec) returns (errors: seq<ValidationError>)
    ensures errors == [] <==> NodeOk(t, n)
    ensures forall e :: e in errors <==> NodeFault(t, n, e)
  {
    var fields := CheckFields(n);
    var deps := CheckDependencies(t, n);
    var refs := CheckReferences(t, n);
    errors := fields + deps + refs;
  }

  predicate FieldsOk(n: NodeSpec) {
    && (n.id != "" ==> IsWord(n.id))
    && Strip(n.tool) != ""
    && n.maxAttempts >= 1
    && n.maxRepairAttempts >= 0
    && (n.timeoutSeconds.Some? ==> n.timeoutSeconds.value > 0.0)
    && (n.executionMode == "local" || n.executionMode == "hpc")
  }

  method CheckFields(n: NodeSpec) returns (errors: seq<ValidationError>)
    ensures errors == [] <==> FieldsOk(n)
    ensures forall e :: e in errors <==> FieldFault(n, e)
  {
    errors := [];
    if n.id != "" && !IsWord(n.id) { errors := errors + [BadNodeId(n.id)]; }
    if Strip(n.tool) == "" { errors := errors + [EmptyTool(n.id)]; }
    if n.maxAttempts < 1 { errors := errors + [BadMaxAttempts(n.id)]; }
    if n.maxRepairAttempts < 0 { errors := errors + [BadMaxRepairAttempts(n.id)]; }
    if n.timeoutSeconds.Some? && n.timeoutSeconds.value <= 0.0 { errors := errors + [BadTimeout(n.id)]; }
    if n.executionMode != "local" && n.executionMode != "hpc" { errors := errors + [BadExecutionMode(n.id)]; }
  }

  method CheckOutputs(t: GraphTemplate) returns (errors: seq<ValidationError>)
    ensures errors == [] <==> forall name | name in t.outputs :: OutputOk(t, t.outputs[name])
    ensures forall e :: e in errors <==> SomeOutputFault(t, e)
  {
    errors := [];
    var todo := t.outputs.Keys;
    while todo != {}
      invariant todo <= t.outputs.Keys
      invariant errors == [] <==> forall name | name in t.outputs.Keys - todo :: OutputOk(t, t.outputs[name])
      invariant forall e :: e in errors <==>
                  exists name :: name in t.outputs && name !in todo && OutputFault(t, name, e)
      decreases todo
    {
      var name :| name in todo;
      var found := CheckOutput(t, name);
      errors := errors + found;
      todo := todo - {name};
    }
  }

  method CheckOutput(t: GraphTemplate, name: string) returns (errors: seq<ValidationError>)
    requires name in t.outputs
    ensures errors == [] <==> OutputOk(t, t.outputs[name])
    ensures forall e :: e in errors <==> OutputFault(t, name, e)
  {
    errors := [];
    var r := ParseOutputRef(t.outputs[name]);
    if r.None? {
      errors := [BadOutputReference(name)];
    } else if r.value.key !in Ids(t.nodes) {
      errors := [UnknownOutputNode(name, r.value.key)];
    }
  }

  method CheckHeader(t: GraphTemplate) returns (errors: seq<ValidationError>)
    ensures errors == [] <==>
              Strip(t.templateId) != "" && t.nodes != [] && DistinctIds(t.nodes) &&
              forall n | n in t.nodes :: Strip(n.id) != ""
    ensures forall e :: e in errors <==> HeaderFault(t, e)
  {
    errors := [];
    if Strip(t.templateId) == "" { errors := errors + [EmptyTemplateId]; }
    if t.nodes == [] { errors := errors + [NoNodes]; }
    if !DistinctIds(t.nodes) { errors := errors + [DuplicateIds]; }
    if exists n | n in t.nodes :: Strip(n.id) == "" { errors := errors + [EmptyNodeId]; }
  }

  // An empty result means acyclic, with the finishing order as evidence; a reported path is a real cycle.
  method CheckCycle(t: GraphTemplate) returns (errors: seq<ValidationError>, ghost order: seq<Id>)
    ensures errors == [] ==> IsTopologicalOrder(DependencyMap(t.nodes), order)
    ensures errors == [] <==> Acyclic(DependencyMap(t.nodes))
    ensures errors != [] ==> exists p :: errors == [CycleDetected(p)] && IsCycle(DependencyMap(t.nodes), p)
  {
    var detector := new CycleDetector(DependencyMap(t.nodes));
    var ids := seq(|t.nodes|, i requires 0 <= i < |t.nodes| => t.nodes[i].id);
    forall x | x in Ids(t.nodes)
      ensures x in ids
    {
      var n :| n in t.nodes && n.id == x;
      var k :| 0 <= k < |t.nodes| && t.nodes[k] == n;
      assert ids[k] == x;
    }
    var cycle := detector.Detect(ids);
    order := detector.finished;
    errors := if cycle.Some? then [CycleDetected(cycle.value)] else [];
  }

  /** `GraphTemplate.validate`: no error exactly for the valid templates; for a cyclic one a real cycle is reported. */
  method Validate(t: GraphTemplate, knownTools: Option<set<string>>)
    returns (errors: seq<ValidationError>, ghost order: seq<Id>)
    ensures errors == [] <==> ValidTemplate(t, knownTools)
    ensures !Acyclic(DependencyMap(t.nodes)) ==>
              exists p :: CycleDetected(p) in errors && IsCycle(DependencyMap(t.nodes), p)
    ensures errors == [] ==> IsTopologicalOrder(DependencyMap(t.nodes), order)
    ensures forall e: ValidationError | !e.CycleDetected? :: e in errors <==> Fault(t, knownTools, e)
    ensures forall e: ValidationError | e.CycleDetected? && e in errors :: IsCycle(DependencyMap(t.nodes), e.path)
  {
    var header := CheckHeader(t);
    var nodeErrors := CheckNodes(t);
    var cycleErrors;
    cycleErrors, order := CheckCycle(t);
    var outputErrors := CheckOutputs(t);
    var toolErrors := CheckKnownTools(t, knownTools);
    errors := header + nodeErrors + cycleErrors + outputErrors + toolErrors;
    assert cycleErrors != [] ==> cycleErrors[0] in errors;
    forall p { OnlyCycleCheckFindsCycles(t, knownTools, CycleDetected(p)); }
  }

  lemma OnlyCycleCheckFindsCycles(t: GraphTemplate, knownTools: Option<set<string>>, e: ValidationError)
    requires e.CycleDetected?
    ensures !HeaderFault(t, e) && !SomeNodeFault(t, e) && !SomeOutputFault(t, e)
    ensures knownTools.Some? ==> !ToolFault(t, knownTools.value, e)
  {
  }

  method CheckKnownTools(t: GraphTemplate, knownTools: Option<set<string>>) returns (errors: seq<ValidationError>)
    ensures errors == [] <==> (knownTools.Some? ==> forall n | n in t.nodes :: n.tool in knownTools.value)
    ensures forall e :: e in errors <==> knownTools.Some? && ToolFault(t, knownTools.value, e)
  {
    errors := [];
    if knownTools.Some? { errors := CheckTools(t, knownTools.value); }
  }

  method CheckNodes(t: GraphTemplate) returns (errors: seq<ValidationError>)
    ensures errors == [] <==> forall n | n in t.nodes :: NodeOk(t, n)
    ensures forall e :: e in errors <==> SomeNodeFault(t, e)
  {
    errors := [];
    for k := 0 to |t.nodes|
      invariant errors == [] <==> forall n | n in t.nodes[..k] :: NodeOk(t, n)
      invariant forall e :: e in errors <==> exists n :: n in t.nodes[..k] && NodeFault(t, n, e)
    {
      var found := CheckNode(t, t.nodes[k]);
      errors := errors + found;
      assert t.nodes[..k + 1] == t.nodes[..k] + [t.nodes[k]];
    }
    assert t.nodes[..|t.nodes|] == t.nodes;
  }

  method CheckTools(t: GraphTemplate, tools: set<string>) returns (errors: seq<ValidationError>)
    ensures errors == [] <==> forall n | n in t.nodes :: n.tool in tools
    ensures forall e :: e in errors <==> ToolFault(t, tools, e)
  {
    errors := [];
    for k := 0 to |t.nodes|
      invariant errors == [] <==> forall n | n in t.nodes[..k] :: n.tool in tools
      invariant forall e :: e in errors <==>
                  exists n :: n in t.nodes[..k] && n.tool !in tools && e == UnknownTool(n.id, n.tool)
    {
      if t.nodes[k].tool !in tools { errors := errors + [UnknownTool(t.nodes[k].id, t.nodes[k].tool)]; }
      assert t.nodes[..k + 1] == t.nodes[..k] + [t.nodes[k]];
    }
    assert t.nodes[..|t.nodes|] == t.nodes;
  }
}
