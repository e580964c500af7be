/** Names, references and blanks as they are written out, and what validation and binding make of them. */
module Notation {
  import opened Values
  import opened States
  import opened CycleDetection
  import opened Graph
  import opened Binding

  // ------------------------------------------------------------------------------------ characters

  /** A name: one or more of the 63 letters, digits and the underscore. */
  ghost predicate Name(w: string) { w != "" && forall c | c in w :: NameCharacter(c) }

  ghost predicate NameCharacter(c: char) {
    c in {
      'A', 'B', 'C', 'D', 'E', 'F', 'G', 'H', 'I', 'J', 'K', 'L', 'M',
      'N', 'O', 'P', 'Q', 'R', 'S', 'T', 'U', 'V', 'W', 'X', 'Y', 'Z',
      'a', 'b', 'c', 'd', 'e', 'f', 'g', 'h', 'i', 'j', 'k', 'l', 'm',
      'n', 'o', 'p', 'q', 'r', 's', 't', 'u', 'v', 'w', 'x', 'y', 'z',
      '0', '1', '2', '3', '4', '5', '6', '7', '8', '9', '_'}
  }

  /** The alphabet of names is exactly these 63 characters. */
  lemma NameCharacters(c: char)
    ensures IsWordChar(c) <==> NameCharacter(c)
  {
  }

  lemma WordsAreNames(w: string)
    ensures IsWord(w) <==> Name(w)
  {
    forall c { NameCharacters(c); }
    assert forall i | 0 <= i < |w| :: w[i] in w;
  }

  // ------------------------------------------------------------------------------------ references

  lemma Flat(a: string, b: string, c: string)
    ensures a + (b + c) == a + b + c
  {
  }

  lemma FlatFive(a: string, b: string, c: string, d: string, e: string)
    ensures a + (b + (c + (d + e))) == a + b + c + d + e
  {
    Flat(a, b, c + (d + e));
    Flat(a + b, c, d + e);
    Flat(a + b + c, d, e);
  }

  /** A string refers to input `key` exactly when it is `${inputs.key}` with a name for its key. */
  lemma InputReference(s: string, key: string)
    ensures ParseRef(s) == Some(Ref(Inputs, key, None)) <==> Name(key) && s == "${inputs." + key + "}"
  {
    Flat("${inputs.", key, "}");
    WordsAreNames(key);
    ParseRefExact(s, Ref(Inputs, key, None));
  }

  /** A string refers to an output exactly when it is `${nodes.node.outputs.key}` with names for both. */
  lemma OutputReference(s: string, node: string, key: string)
    ensures ParseRef(s) == Some(Ref(Nodes, node, Some(key))) <==>
            Name(node) && Name(key) && s == "${nodes." + node + ".outputs." + key + "}"
  {
    FlatFive("${nodes.", node, ".outputs.", key, "}");
    WordsAreNames(node);
    WordsAreNames(key);
    ParseRefExact(s, Ref(Nodes, node, Some(key)));
  }

  /** The two other forms of the syntax, which no template may use. */
  lemma BareNodeReference(s: string, node: string)
    ensures ParseRef(s) == Some(Ref(Nodes, node, None)) <==> Name(node) && s == "${nodes." + node + "}"
  {
    WordsAreNames(node);
    Flat("${nodes.", node, "}");
    ParseRefExact(s, Ref(Nodes, node, None));
  }

  lemma InputOutputReference(s: string, name: string, key: string)
    ensures ParseRef(s) == Some(Ref(Inputs, name, Some(key))) <==>
            Name(name) && Name(key) && s == "${inputs." + name + ".outputs." + key + "}"
  {
    WordsAreNames(name);
    WordsAreNames(key);
    FlatFive("${inputs.", name, ".outputs.", key, "}");
    ParseRefExact(s, Ref(Inputs, name, Some(key)));
  }

  // ------------------------------------------------------------------------------------ validation

  /** A stripped parameter string that validation lets pass. */
  ghost predicate Passes(t: GraphTemplate, n: NodeSpec, raw: string) {
    || !("${" <= raw)
    || (exists key :: InputPasses(t, raw, key))
    || (exists node, key :: NodeOutputPasses(t, n, raw, node, key))
  }

  ghost predicate InputPasses(t: GraphTemplate, raw: string, key: string) {
    Name(key) && raw == "${inputs." + key + "}" && key in t.inputs
  }

  ghost predicate NodeOutputPasses(t: GraphTemplate, n: NodeSpec, raw: string, node: string, key: string) {
    && Name(node) && Name(key) && raw == "${nodes." + node + ".outputs." + key + "}"
    && Known(t, node) && node in n.dependsOn
  }

  ghost predicate Known(t: GraphTemplate, id: Id) { exists n :: n in t.nodes && n.id == id }

  lemma AcceptedPasses(t: GraphTemplate, n: NodeSpec, raw: string)
    requires RefOk(t, n, raw)
    ensures Passes(t, n, raw)
  {
    if "${" <= raw {
      var r := ParseRef(raw).value;
      if r.scope == Inputs {
        InputReference(raw, r.key);
        assert InputPasses(t, raw, r.key);
      } else {
        OutputReference(raw, r.key, r.outKey.value);
        assert NodeOutputPasses(t, n, raw, r.key, r.outKey.value);
      }
    }
  }

  /** Validation lets pass what opens no reference, known inputs, and outputs of declared known dependencies. */
  lemma ReferenceAccepted(t: GraphTemplate, n: NodeSpec, raw: string)
    ensures RefOk(t, n, raw) <==> Passes(t, n, raw)
  {
    if RefOk(t, n, raw) { AcceptedPasses(t, n, raw); }
    if key :| InputPasses(t, raw, key) { InputReference(raw, key); }
    if node, key :| NodeOutputPasses(t, n, raw, node, key) { OutputReference(raw, node, key); }
  }

  /** A template output: the text of an output reference to a known node, with at most one newline behind it. */
  ghost predicate OutputPasses(t: GraphTemplate, v: Value) {
    v.Str? && exists bare, node, key ::
      (v.s == bare || v.s == bare + "\n") && KnownOutput(t, bare, node, key)
  }

  ghost predicate KnownOutput(t: GraphTemplate, text: string, node: string, key: string) {
    Name(node) && Name(key) && Known(t, node) && text == "${nodes." + node + ".outputs." + key + "}"
  }

  // What is left of a text without the newline that the regular expression lets pass.
  lemma BareMeans(s: string)
    ensures s == Bare(s) || s == Bare(s) + "\n"
  {
  }

  lemma BareOf(t: GraphTemplate, bare: string, node: string, key: string)
    requires KnownOutput(t, bare, node, key)
    ensures Bare(bare) == bare && Bare(bare + "\n") == bare
  {
    assert bare[|bare| - 1] == '}' && (bare + "\n")[..|bare|] == bare;
  }

  lemma OutputParsed(t: GraphTemplate, v: Value, node: string, key: string)
    requires v.Str?
    ensures KnownOutput(t, Bare(v.s), node, key) ==> OutputOk(t, v)
    ensures ParseRef(Bare(v.s)) == Some(Ref(Nodes, node, Some(key))) && Known(t, node) ==>
              KnownOutput(t, Bare(v.s), node, key)
  {
    OutputReference(Bare(v.s), node, key);
  }

  lemma OutputAccepted(t: GraphTemplate, v: Value)
    ensures OutputOk(t, v) <==> OutputPasses(t, v)
  {
    if OutputOk(t, v) {
      var r := ParseOutputRef(v).value;
      OutputParsed(t, v, r.key, r.outKey.value);
      BareMeans(v.s);
    }
    if OutputPasses(t, v) {
      var bare, node, key :| (v.s == bare || v.s == bare + "\n") && KnownOutput(t, bare, node, key);
      BareOf(t, bare, node, key);
      OutputParsed(t, v, node, key);
    }
  }

  /** A node that validation finds no fault with. */
  ghost predicate NodePasses(t: GraphTemplate, n: NodeSpec) {
    && (n.id != "" ==> Name(n.id))
    && !Blank(n.tool)
    && n.maxAttempts >= 1 && n.maxRepairAttempts >= 0
    && (n.timeoutSeconds.Some? ==> n.timeoutSeconds.value > 0.0)
    && (n.executionMode == "local" || n.executionMode == "hpc")
    && (forall i, j | 0 <= i < j < |n.dependsOn| :: n.dependsOn[i] != n.dependsOn[j])
    && (forall d | d in n.dependsOn :: Known(t, d)) && n.id !in n.dependsOn
    && forall raw | raw in Strings(n.params) :: Passes(t, n, raw)
  }

  lemma NodeAccepted(t: GraphTemplate, n: NodeSpec)
    ensures NodeOk(t, n) <==> NodePasses(t, n)
  {
    WordsAreNames(n.id);
    BlankIsStripped(n.tool);
    forall raw { ReferenceAccepted(t, n, raw); }
  }

  /** A closed walk along `depends_on`, from node to node of the template. */
  ghost predicate ClosedWalk(t: GraphTemplate, p: seq<Id>) {
    |p| >= 2 && p[0] == p[|p| - 1] && forall i | 0 <= i < |p| - 1 :: DependsOn(t, p[i], p[i + 1])
  }

  ghost predicate DependsOn(t: GraphTemplate, a: Id, b: Id) {
    exists n :: n in t.nodes && n.id == a && b in n.dependsOn
  }

  /** A template that validation finds no fault with, spelled out. */
  ghost predicate TemplatePasses(t: GraphTemplate, knownTools: Option<set<string>>) {
    && !Blank(t.templateId)
    && |t.nodes| > 0
    && (forall i, j | 0 <= i < j < |t.nodes| :: t.nodes[i].id != t.nodes[j].id)
    && (forall n | n in t.nodes :: !Blank(n.id) && NodePasses(t, n))
    && (forall p :: !ClosedWalk(t, p))
    && (forall name | name in t.outputs :: OutputPasses(t, t.outputs[name]))
    && (knownTools.Some? ==> forall n | n in t.nodes :: n.tool in knownTools.value)
  }

  lemma WalksAreCycles(t: GraphTemplate, p: seq<Id>)
    requires DistinctIds(t.nodes) && forall n | n in t.nodes :: forall d | d in n.dependsOn :: Known(t, d)
    ensures IsCycle(DependencyMap(t.nodes), p) <==> ClosedWalk(t, p)
  {
    forall a, b
      ensures Edge(DependencyMap(t.nodes), a, b) <==> DependsOn(t, a, b)
    {
      EdgesDepend(t, a, b);
    }
  }

  lemma EdgesDepend(t: GraphTemplate, a: Id, b: Id)
    requires DistinctIds(t.nodes) && forall n | n in t.nodes :: forall d | d in n.dependsOn :: Known(t, d)
    ensures Edge(DependencyMap(t.nodes), a, b) <==> DependsOn(t, a, b)
  {
    if a in DependencyMap(t.nodes) {
      var n :| n in t.nodes && n.id == a;
      DependencyMapOf(t.nodes, n);
    }
    if DependsOn(t, a, b) {
      var n :| n in t.nodes && n.id == a && b in n.dependsOn;
      DependencyMapOf(t.nodes, n);
      assert Known(t, b);
    }
  }

  /** `validate` accepts exactly the templates described here. */
  lemma ValidMeans(t: GraphTemplate, knownTools: Option<set<string>>)
    ensures ValidTemplate(t, knownTools) <==> TemplatePasses(t, knownTools)
  {
    BlankIsStripped(t.templateId);
    forall n | n in t.nodes
      ensures Strip(n.id) == "" <==> Blank(n.id)
      ensures NodeOk(t, n) <==> NodePasses(t, n)
    {
      BlankIsStripped(n.id);
      NodeAccepted(t, n);
    }
    forall name | name in t.outputs { OutputAccepted(t, t.outputs[name]); }
    if DistinctIds(t.nodes) && forall n | n in t.nodes :: NodePasses(t, n) {
      forall p { WalksAreCycles(t, p); }
    }
  }

  // ------------------------------------------------------------------------------------ blanks

  /** Nothing but the white space that `str.strip` removes. */
  ghost predicate Blank(s: string) { forall c | c in s :: BlankCharacter(c) }

  ghost predicate BlankCharacter(c: char) {
    c as int in
      {9, 10, 11, 12, 13, 28, 29, 30, 31, 32, 133, 160, 5760, 8192, 8193, 8194, 8195, 8196, 8197, 8198, 8199, 8200,
       8201, 8202, 8232, 8233, 8239, 8287, 12288}
  }

  /** The white space that is stripped is exactly these 29 characters. */
  lemma BlankCharacters(c: char)
    ensures IsSpace(c) <==> BlankCharacter(c)
  {
  }

  lemma BlankWith(a: string, c: char)
    requires Blank(a) && BlankCharacter(c)
    ensures Blank([c] + a) && Blank(a + [c])
  {
  }

  lemma {:induction false} LeftStripped(s: string) returns (a: string)
    ensures Blank(a) && s == a + StripLeft(s)
    ensures StripLeft(s) == "" || !BlankCharacter(StripLeft(s)[0])
    decreases |s|
  {
    if s != "" && IsSpace(s[0]) {
      a := LeftStripped(s[1..]);
      BlankCharacters(s[0]);
      BlankWith(a, s[0]);
      Flat([s[0]], a, StripLeft(s[1..]));
      a := [s[0]] + a;
      assert s == [s[0]] + s[1..];
    } else {
      a := "";
      if s != "" { BlankCharacters(s[0]); }
    }
  }

  lemma {:induction false} RightStripped(s: string) returns (b: string)
    ensures Blank(b) && s == StripRight(s) + b
    ensures StripRight(s) == "" || !BlankCharacter(StripRight(s)[|StripRight(s)| - 1])
    decreases |s|
  {
    if s != "" && IsSpace(s[|s| - 1]) {
      b := RightStripped(s[..|s| - 1]);
      BlankCharacters(s[|s| - 1]);
      BlankWith(b, s[|s| - 1]);
      Flat(StripRight(s[..|s| - 1]), b, [s[|s| - 1]]);
      b := b + [s[|s| - 1]];
      assert s == s[..|s| - 1] + [s[|s| - 1]];
    } else {
      b := "";
      if s != "" { BlankCharacters(s[|s| - 1]); }
    }
  }

  /** Stripping takes white space off both ends, all of it and nothing else. */
  lemma StripMeans(s: string) returns (a: string, b: string)
    ensures Blank(a) && Blank(b) && s == a + Strip(s) + b
    ensures Strip(s) != "" ==> !BlankCharacter(Strip(s)[0]) && !BlankCharacter(Strip(s)[|Strip(s)| - 1])
  {
    a := LeftStripped(s);
    b := RightStripped(StripLeft(s));
    assert Strip(s) != "" ==> Strip(s)[0] == StripLeft(s)[0];
  }

  lemma BlankIsStripped(s: string)
    ensures Strip(s) == "" <==> Blank(s)
  {
    var a, b := StripMeans(s);
    if Strip(s) != "" {
      var c := Strip(s)[0];
      assert s[|a|] == c && c in s;
      BlankCharacters(c);
    } else {
      assert s == a + b;
    }
  }

  // ------------------------------------------------------------------------------------ binding

  // Blanks around a text that neither starts nor ends with one are what is stripped.
  lemma {:induction false} StripLeftOf(a: string, s: string)
    requires Blank(a) && (s == "" || !BlankCharacter(s[0]))
    ensures StripLeft(a + s) == s
    decreases |a|
  {
    if a == "" {
      assert a + s == s;
      if s != "" { BlankCharacters(s[0]); }
    } else {
      assert a[0] in a;
      BlankCharacters(a[0]);
      forall c | c in a[1..] ensures c in a { }
      assert (a + s)[1..] == a[1..] + s;
      StripLeftOf(a[1..], s);
    }
  }

  lemma {:induction false} StripRightOf(s: string, b: string)
    requires Blank(b) && (s == "" || !BlankCharacter(s[|s| - 1]))
    ensures StripRight(s + b) == s
    decreases |b|
  {
    if b == "" {
      assert s + b == s;
      if s != "" { BlankCharacters(s[|s| - 1]); }
    } else {
      var last, most := b[|b| - 1], b[..|b| - 1];
      assert last in b;
      BlankCharacters(last);
      forall c | c in most ensures c in b { }
      assert (s + b)[..|s + b| - 1] == s + most;
      StripRightOf(s, most);
    }
  }

  lemma StripAround(a: string, s: string, b: string)
    requires Blank(a) && Blank(b) && s != "" && !BlankCharacter(s[0]) && !BlankCharacter(s[|s| - 1])
    ensures Strip(a + s + b) == s
  {
    assert a + s + b == a + (s + b);
    StripLeftOf(a, s + b);
    StripRightOf(s, b);
  }

  lemma BracesAreNotBlank()
    ensures !BlankCharacter('$') && !BlankCharacter('}')
  {
  }

  /** A parameter `${inputs.key}`, blanks around it or not, is replaced by that input. */
  lemma InputIsBound(a: string, key: string, b: string, inputs: Params, nodes: Nodes)
    requires Blank(a) && Blank(b) && Name(key)
    ensures ResolveValue(Str(a + ("${inputs." + key + "}") + b), inputs, nodes) ==
            if key in inputs then Some(inputs[key]) else None
  {
    var s := "${inputs." + key + "}";
    BracesAreNotBlank();
    assert s[0] == '$' && s[|s| - 1] == '}';
    StripAround(a, s, b);
    InputReference(s, key);
  }

  /** A parameter `${nodes.node.outputs.key}` is replaced by that output of a node that has succeeded. */
  lemma OutputIsBound(a: string, node: string, key: string, b: string, inputs: Params, nodes: Nodes)
    requires Blank(a) && Blank(b) && Name(node) && Name(key)
    ensures ResolveValue(Str(a + ("${nodes." + node + ".outputs." + key + "}") + b), inputs, nodes) ==
            if node in nodes && nodes[node].state == Succeeded && key in nodes[node].outputs
            then Some(nodes[node].outputs[key]) else None
  {
    var s := "${nodes." + node + ".outputs." + key + "}";
    BracesAreNotBlank();
    assert s[0] == '$' && s[|s| - 1] == '}';
    StripAround(a, s, b);
    OutputReference(s, node, key);
  }

  /** Lists and dictionaries are resolved entry by entry; numbers, booleans and null stay as they are. */
  lemma EntriesAreBound(v: Value, inputs: Params, nodes: Nodes)
    ensures v.List? && ResolveValue(v, inputs, nodes).Some? ==>
              var r := ResolveValue(v, inputs, nodes).value;
              && r.List? && |r.items| == |v.items|
              && forall i | 0 <= i < |r.items| :: ResolveValue(v.items[i], inputs, nodes) == Some(r.items[i])
    ensures v.Dict? && ResolveValue(v, inputs, nodes).Some? ==>
              var r := ResolveValue(v, inputs, nodes).value;
              && r.Dict? && r.fields.Keys == v.fields.Keys
              && forall k | k in r.fields :: ResolveValue(v.fields[k], inputs, nodes) == Some(r.fields[k])
    ensures v.Null? || v.Bool? || v.Num? ==> ResolveValue(v, inputs, nodes) == Some(v)
  {
  }
}
