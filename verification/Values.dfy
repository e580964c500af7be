/** JSON-shaped parameter values and the `${...}` reference syntax. */
module Values {

  datatype Option<+T> = None | Some(value: T)

  datatype Value =
    | Null
    | Bool(b: bool)
    | Num(x: real)
    | Str(s: string)
    | List(items: seq<Value>)
    | Dict(fields: map<string, Value>)

  type Params = map<string, Value>

  /** A parsed reference: `${inputs.key}`, `${nodes.key}`, each with an optional `.outputs.outKey`. */
  datatype Scope = Inputs | Nodes
  datatype Ref = Ref(scope: Scope, key: string, outKey: Option<string>)

  /** What `str.strip` removes. */
  predicate IsSpace(c: char) {
    var k := c as int;
    || 0x09 <= k <= 0x0D || 0x1C <= k <= 0x20 || k == 0x85 || k == 0xA0 || k == 0x1680
    || 0x2000 <= k <= 0x200A || k == 0x2028 || k == 0x2029 || k == 0x202F || k == 0x205F || k == 0x3000
  }

  function StripLeft(s: string): string {
    if s != "" && IsSpace(s[0]) then StripLeft(s[1..]) else s
  }

  function StripRight(s: string): string {
    if s != "" && IsSpace(s[|s| - 1]) then StripRight(s[..|s| - 1]) else s
  }

  function Strip(s: string): string { StripRight(StripLeft(s)) }

  predicate IsWordChar(c: char) {
    'A' <= c <= 'Z' || 'a' <= c <= 'z' || '0' <= c <= '9' || c == '_'
  }

  predicate IsWord(s: string) {
    s != "" && forall i | 0 <= i < |s| :: IsWordChar(s[i])
  }

  // Length of the longest prefix of word characters.
  function WordLength(s: string): (n: nat)
    ensures n <= |s|
    ensures forall i | 0 <= i < n :: IsWordChar(s[i])
    ensures n < |s| ==> !IsWordChar(s[n])
  {
    if s == "" || !IsWordChar(s[0]) then 0 else 1 + WordLength(s[1..])
  }

  const OUTPUTS_INFIX := ".outputs."

  function ScopePrefix(scope: Scope): string {
    match scope
    case Inputs => "${inputs."
    case Nodes => "${nodes."
  }

  function ParseTail(scope: Scope, s: string): Option<Ref> {
    var n := WordLength(s);
    var rest := s[n..];
    if n == 0 then None
    else if rest == "}" then Some(Ref(scope, s[..n], None))
    else if OUTPUTS_INFIX <= rest then
      var tail := rest[|OUTPUTS_INFIX|..];
      var m := WordLength(tail);
      if m > 0 && tail[m..] == "}" then Some(Ref(scope, s[..n], Some(tail[..m]))) else None
    else None
  }

  /** The full match of the reference regular expression used by `validate` and by `resolve_value`. */
  function ParseRef(s: string): Option<Ref> {
    if ScopePrefix(Inputs) <= s then ParseTail(Inputs, s[|ScopePrefix(Inputs)|..])
    else if ScopePrefix(Nodes) <= s then ParseTail(Nodes, s[|ScopePrefix(Nodes)|..])
    else None
  }

  function RenderTail(r: Ref): string {
    match r.outKey
    case None => r.key + "}"
    case Some(o) => r.key + (OUTPUTS_INFIX + (o + "}"))
  }

  function Render(r: Ref): string { ScopePrefix(r.scope) + RenderTail(r) }

  predicate WordRef(r: Ref) {
    IsWord(r.key) && (r.outKey.Some? ==> IsWord(r.outKey.value))
  }

  lemma {:induction false} WordLengthOfPrefix(w: string, rest: string)
    requires forall i | 0 <= i < |w| :: IsWordChar(w[i])
    requires rest == "" || !IsWordChar(rest[0])
    ensures WordLength(w + rest) == |w|
  {
    assert forall i | 0 <= i < |w| :: (w + rest)[i] == w[i];
    assert rest != "" ==> (w + rest)[|w|] == rest[0];
  }

  lemma ParseTailRendered(r: Ref)
    requires WordRef(r)
    ensures ParseTail(r.scope, RenderTail(r)) == Some(r)
  {
    var s := RenderTail(r);
    match r.outKey
    case None =>
      WordLengthOfPrefix(r.key, "}");
      assert s[|r.key|..] == "}" && s[..|r.key|] == r.key;
    case Some(o) =>
      var rest := OUTPUTS_INFIX + (o + "}");
      WordLengthOfPrefix(r.key, rest);
      assert s[|r.key|..] == rest && s[..|r.key|] == r.key;
      var tail := rest[|OUTPUTS_INFIX|..];
      assert tail == o + "}";
      WordLengthOfPrefix(o, "}");
      assert tail[|o|..] == "}" && tail[..|o|] == o;
  }

  lemma ParseTailExact(scope: Scope, s: string)
    requires ParseTail(scope, s).Some?
    ensures var r := ParseTail(scope, s).value; WordRef(r) && r.scope == scope && s == RenderTail(r)
  {
    var n := WordLength(s);
    var rest := s[n..];
    assert s == s[..n] + rest;
    if rest != "}" {
      var tail := rest[|OUTPUTS_INFIX|..];
      var m := WordLength(tail);
      assert tail == tail[..m] + "}";
      assert rest == OUTPUTS_INFIX + tail;
      assert s == s[..n] + (OUTPUTS_INFIX + (tail[..m] + "}"));
    }
  }

  // The parser accepts exactly the rendered references: both directions of the regular expression.
  lemma ParseRefExact(s: string, r: Ref)
    ensures ParseRef(s) == Some(r) <==> WordRef(r) && s == Render(r)
  {
    if WordRef(r) && s == Render(r) { RenderedParses(r); }
    if ParseRef(s) == Some(r) { ParsedIsRendered(s, r); }
  }

  lemma RenderedParses(r: Ref)
    requires WordRef(r)
    ensures ParseRef(Render(r)) == Some(r)
  {
    ParseTailRendered(r);
    ScopeRecognised(r.scope, RenderTail(r));
  }

  lemma ScopeRecognised(scope: Scope, tail: string)
    ensures ParseRef(ScopePrefix(scope) + tail) == ParseTail(scope, tail)
  {
    var s := ScopePrefix(scope) + tail;
    assert s[|ScopePrefix(scope)|..] == tail;
    assert scope == Nodes ==> s[2] == 'n';
  }

  lemma ParsedIsRendered(s: string, r: Ref)
    requires ParseRef(s) == Some(r)
    ensures WordRef(r) && s == Render(r)
  {
    var tail := s[|ScopePrefix(r.scope)|..];
    if ScopePrefix(Inputs) <= s {
      ParseTailExact(Inputs, s[|ScopePrefix(Inputs)|..]);
    } else {
      ParseTailExact(Nodes, s[|ScopePrefix(Nodes)|..]);
    }
    assert s == ScopePrefix(r.scope) + tail;
  }
}
