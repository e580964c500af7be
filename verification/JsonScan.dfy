/** The string-aware brace scanner that recovers JSON objects from polluted output. */
module JsonScan {
  import opened Values

  /** What the scanner carries from one character to the next, besides the start of the open object. */
  datatype Scan = Scan(depth: nat, inStr: bool, escape: bool)

  const OUTSIDE := Scan(0, false, false)

  function Next(s: Scan, ch: char): Scan {
    if s.inStr then
      if s.escape then s.(escape := false)
      else if ch == '\\' then s.(escape := true)
      else if ch == '"' then s.(inStr := false)
      else s
    else if ch == '"' then s.(inStr := true)
    else if ch == '{' then s.(depth := s.depth + 1)
    else if ch == '}' && s.depth > 0 then s.(depth := s.depth - 1)
    else s
  }

  /** The state after reading `text` from state `s`. */
  function Run(s: Scan, text: string): Scan {
    if text == "" then s else Next(Run(s, text[..|text| - 1]), text[|text| - 1])
  }

  /** The state before character `k` of a whole text. */
  function At(text: string, k: int): Scan
    requires 0 <= k <= |text|
    decreases k
  {
    if k == 0 then OUTSIDE else Next(At(text, k - 1), text[k - 1])
  }

  type Span = (int, int)

  /** A top-level balanced object: braces outside strings open at `a` and balance for the first time at `b`. */
  ghost predicate IsChunk(text: string, a: int, b: int) {
    && 0 <= a < b <= |text|
    && At(text, a) == OUTSIDE && text[a] == '{'
    && At(text, b).depth == 0
    && forall k | a < k < b :: At(text, k).depth > 0
  }

  /** `spans` are the chunks that end within the first `k` characters, disjoint and from left to right. */
  ghost predicate ListsTo(text: string, k: nat, spans: seq<Span>) {
    && (forall i | 0 <= i < |spans| :: IsChunk(text, spans[i].0, spans[i].1) && spans[i].1 <= k)
    && (forall a, b {:trigger Has(spans, a, b)} | IsChunk(text, a, b) && b <= k :: Has(spans, a, b))
    && Ascending(spans)
  }

  predicate Has(spans: seq<Span>, a: int, b: int) { (a, b) in spans }

  predicate Ascending(spans: seq<Span>) {
    forall i, j | 0 <= i < j < |spans| :: spans[i].1 <= spans[j].0
  }

  ghost predicate Lists(text: string, spans: seq<Span>) { ListsTo(text, |text|, spans) }

  predicate Within(text: string, spans: seq<Span>) {
    forall i | 0 <= i < |spans| :: 0 <= spans[i].0 <= spans[i].1 <= |text|
  }

  function Slices(text: string, spans: seq<Span>): (r: seq<string>)
    requires Within(text, spans)
  {
    seq(|spans|, i requires 0 <= i < |spans| => text[spans[i].0..spans[i].1])
  }

  /** What the scanner has to return. */
  ghost predicate ChunksAre(text: string, objects: seq<string>) {
    exists spans :: Lists(text, spans) && Within(text, spans) && objects == Slices(text, spans)
  }

  // ---------------------------------------------------------------------------------------- the scanner

  // The object that is open before character `k` started at `a`.
  ghost predicate OpenFrom(text: string, a: int, k: int) {
    && 0 <= a < k <= |text| && At(text, a) == OUTSIDE && text[a] == '{'
    && forall m | a < m <= k :: At(text, m).depth > 0
  }

  lemma {:induction false} EscapeOnlyInStrings(text: string, k: nat)
    requires k <= |text|
    ensures At(text, k).escape ==> At(text, k).inStr
  {
    if k > 0 {
      EscapeOnlyInStrings(text, k - 1);
    }
  }

  // The open object closes: it is the only chunk that ends here.
  lemma Closes(text: string, k: nat, spans: seq<Span>, a: nat)
    requires k < |text| && ListsTo(text, k, spans) && OpenFrom(text, a, k) && At(text, k + 1).depth == 0
    requires forall i | 0 <= i < |spans| :: spans[i].1 <= a
    ensures ListsTo(text, k + 1, spans + [(a, k + 1)])
  {
    var more := spans + [(a, k + 1)];
    assert IsChunk(text, a, k + 1);
    forall c, b | IsChunk(text, c, b) && b <= k + 1
      ensures Has(more, c, b)
    {
      assert Has(spans, c, b) || b == k + 1;
      assert b == k + 1 ==> c == a;
      assert more[|spans|] == (a, k + 1);
    }
  }

  lemma NothingEnds(text: string, k: nat, spans: seq<Span>)
    requires k < |text| && ListsTo(text, k, spans) && (At(text, k).depth == 0 || At(text, k + 1).depth > 0)
    ensures ListsTo(text, k + 1, spans)
  {
    forall a, b | IsChunk(text, a, b) && b <= k + 1
      ensures Has(spans, a, b)
    {
      assert b <= k;
    }
  }

  // The scanner's memory of where the open object starts.
  ghost predicate Remembers(text: string, k: nat, spans: seq<Span>, start: Option<nat>)
    requires k <= |text|
  {
    if At(text, k).depth == 0 then start.None?
    else start.Some? && OpenFrom(text, start.value, k) && forall i | 0 <= i < |spans| :: spans[i].1 <= start.value
  }

  // One character: the list of finished chunks grows exactly when the open object closes.
  lemma ScanStep(text: string, k: nat, spans: seq<Span>, start: Option<nat>)
    requires k < |text| && ListsTo(text, k, spans) && Remembers(text, k, spans, start)
    ensures var s, t := At(text, k).depth, At(text, k + 1).depth;
            && At(text, k + 1) == Next(At(text, k), text[k])
            && (s > 0 && t == 0 ==>
                  start.Some? && start.value <= k && ListsTo(text, k + 1, spans + [(start.value, k + 1)]))
            && (s == 0 || t > 0 ==> ListsTo(text, k + 1, spans))
            && (t > 0 ==> Remembers(text, k + 1, spans, if s == 0 then Some(k) else start))
  {
    EscapeOnlyInStrings(text, k);
    if At(text, k).depth > 0 && At(text, k + 1).depth == 0 {
      Closes(text, k, spans, start.value);
    } else {
      NothingEnds(text, k, spans);
    }
  }

  /** `_balanced_json_objects`: the texts of all top-level balanced objects, in order. */
  method BalancedJsonObjects(text: string) returns (objects: seq<string>)
    ensures ChunksAre(text, objects)
  {
    objects := [];
    var depth: nat, start: Option<nat>, inStr, escape := 0, None, false, false;
    ghost var spans: seq<Span> := [];
    for i := 0 to |text|
      invariant Scan(depth, inStr, escape) == At(text, i)
      invariant ListsTo(text, i, spans) && Within(text, spans)
      invariant Remembers(text, i, spans, start) && objects == Slices(text, spans)
    {
      ScanStep(text, i, spans, start);
      var ch := text[i];
      if inStr {
        if escape { escape := false; }
        else if ch == '\\' { escape := true; }
        else if ch == '"' { inStr := false; }
      } else if ch == '"' {
        inStr := true;
      } else if ch == '{' {
        if depth == 0 { start := Some(i); }
        depth := depth + 1;
      } else if ch == '}' && depth > 0 {
        depth := depth - 1;
        if depth == 0 && start.Some? {
          objects := objects + [text[start.value..i + 1]];
          spans := spans + [(start.value, i + 1)];
          start := None;
        }
      }
    }
  }

  // ---------------------------------------------------------------------------------------- composition

  lemma {:induction false} RunConcat(s: Scan, a: string, b: string)
    ensures Run(s, a + b) == Run(Run(s, a), b)
    decreases |b|
  {
    if b == "" {
      assert a + b == a;
    } else {
      assert (a + b)[..|a + b| - 1] == a + b[..|b| - 1];
      RunConcat(s, a, b[..|b| - 1]);
    }
  }

  lemma RunOne(s: Scan, c: char)
    ensures Run(s, [c]) == Next(s, c)
  {
    assert [c][..0] == "";
  }

  lemma {:induction false} AtIsRun(text: string, k: int)
    requires 0 <= k <= |text|
    ensures At(text, k) == Run(OUTSIDE, text[..k])
    decreases k
  {
    if k > 0 {
      AtIsRun(text, k - 1);
      assert text[..k][..k - 1] == text[..k - 1];
    }
  }

  lemma RunPrefix(s: Scan, a: string, b: string, k: nat)
    requires k <= |a + b|
    ensures Run(s, (a + b)[..k]) == if k <= |a| then Run(s, a[..k]) else Run(Run(s, a), b[..k - |a|])
  {
    if k <= |a| {
      assert (a + b)[..k] == a[..k];
    } else {
      assert (a + b)[..k] == a + b[..k - |a|];
      RunConcat(s, a, b[..k - |a|]);
    }
  }

  lemma AtConcat(p: string, t: string, k: int)
    requires Run(OUTSIDE, p) == OUTSIDE && 0 <= k <= |p + t|
    ensures At(p + t, k) == if k <= |p| then At(p, k) else At(t, k - |p|)
  {
    AtIsRun(p + t, k);
    RunPrefix(OUTSIDE, p, t, k);
    if k <= |p| { AtIsRun(p, k); } else { AtIsRun(t, k - |p|); }
  }

  lemma ChunkFromLeft(p: string, t: string, a: int, b: int)
    requires Run(OUTSIDE, p) == OUTSIDE && IsChunk(p, a, b)
    ensures IsChunk(p + t, a, b)
  {
    forall k | a <= k <= b { AtConcat(p, t, k); }
  }

  lemma ChunkFromRight(p: string, t: string, a: int, b: int)
    requires Run(OUTSIDE, p) == OUTSIDE && IsChunk(t, a, b)
    ensures IsChunk(p + t, a + |p|, b + |p|)
  {
    forall k | a + |p| <= k <= b + |p|
      ensures At(p + t, k) == At(t, k - |p|)
    {
      AtConcat(p, t, k);
      AtConcat(p, t, |p|);
      AtIsRun(p, |p|);
      assert p[..|p|] == p;
    }
  }

  // After a text that leaves the scanner outside everything, scanning starts afresh.
  lemma ChunkOfConcat(p: string, t: string, a: int, b: int)
    requires Run(OUTSIDE, p) == OUTSIDE && IsChunk(p + t, a, b)
    ensures IsChunk(p, a, b) || (a >= |p| && IsChunk(t, a - |p|, b - |p|))
  {
    AtIsRun(p, |p|);
    assert p[..|p|] == p;
    AtConcat(p, t, |p|);
    assert !(a < |p| < b);
    if a >= |p| {
      forall k | a - |p| <= k <= b - |p|
        ensures At(t, k) == At(p + t, k + |p|)
      {
        AtConcat(p, t, k + |p|);
      }
    } else {
      forall k | a <= k <= b { AtConcat(p, t, k); }
    }
  }

  function Shift(spans: seq<Span>, offset: nat): seq<Span> {
    seq(|spans|, i requires 0 <= i < |spans| => (spans[i].0 + offset, spans[i].1 + offset))
  }

  lemma InShift(spans: seq<Span>, offset: nat, a: int, b: int)
    ensures (a, b) in Shift(spans, offset) <==> (a - offset, b - offset) in spans
  {
    if (a - offset, b - offset) in spans {
      var i :| 0 <= i < |spans| && spans[i] == (a - offset, b - offset);
      assert Shift(spans, offset)[i] == (a, b);
    }
  }

  lemma ConcatAscends(p: string, t: string, left: seq<Span>, right: seq<Span>)
    requires Lists(p, left) && Lists(t, right)
    ensures Ascending(left + Shift(right, |p|))
  {
    var all := left + Shift(right, |p|);
    forall i, j | 0 <= i < j < |all|
      ensures all[i].1 <= all[j].0
    {
      assert i < |left| ==> left[i] in left;
      assert j >= |left| ==> right[j - |left|] in right;
    }
  }

  lemma AllListed(p: string, t: string, left: seq<Span>, right: seq<Span>, a: int, b: int)
    requires Run(OUTSIDE, p) == OUTSIDE && IsChunk(p + t, a, b)
    requires IsChunk(p, a, b) ==> Has(left, a, b)
    requires IsChunk(t, a - |p|, b - |p|) ==> Has(right, a - |p|, b - |p|)
    ensures Has(left + Shift(right, |p|), a, b)
  {
    ChunkOfConcat(p, t, a, b);
    InShift(right, |p|, a, b);
  }

  lemma ListedAt(text: string, spans: seq<Span>, i: nat)
    requires Lists(text, spans) && i < |spans|
    ensures IsChunk(text, spans[i].0, spans[i].1)
  {
    assert spans[i] in spans;
  }

  lemma ListsFrom(text: string, spans: seq<Span>)
    requires Ascending(spans) && forall a, b {:trigger Has(spans, a, b)} | IsChunk(text, a, b) :: Has(spans, a, b)
    requires forall i | 0 <= i < |spans| :: IsChunk(text, spans[i].0, spans[i].1)
    ensures Lists(text, spans)
  {
  }

  lemma LeftListed(p: string, t: string, left: seq<Span>)
    requires Run(OUTSIDE, p) == OUTSIDE && Lists(p, left)
    ensures forall i | 0 <= i < |left| :: IsChunk(p + t, left[i].0, left[i].1)
  {
    forall i | 0 <= i < |left|
      ensures IsChunk(p + t, left[i].0, left[i].1)
    {
      ListedAt(p, left, i);
      ChunkFromLeft(p, t, left[i].0, left[i].1);
    }
  }

  lemma RightListed(p: string, t: string, right: seq<Span>)
    requires Run(OUTSIDE, p) == OUTSIDE && Lists(t, right)
    ensures forall i | 0 <= i < |right| :: IsChunk(p + t, right[i].0 + |p|, right[i].1 + |p|)
  {
    forall i | 0 <= i < |right|
      ensures IsChunk(p + t, right[i].0 + |p|, right[i].1 + |p|)
    {
      ListedAt(t, right, i);
      ChunkFromRight(p, t, right[i].0, right[i].1);
    }
  }

  lemma JoinedListed(left: seq<Span>, right: seq<Span>, offset: nat, text: string)
    requires forall i | 0 <= i < |left| :: IsChunk(text, left[i].0, left[i].1)
    requires forall i | 0 <= i < |right| :: IsChunk(text, right[i].0 + offset, right[i].1 + offset)
    ensures var all := left + Shift(right, offset); forall i | 0 <= i < |all| :: IsChunk(text, all[i].0, all[i].1)
  {
  }

  lemma AllJoined(p: string, t: string, left: seq<Span>, right: seq<Span>)
    requires Run(OUTSIDE, p) == OUTSIDE && Lists(p, left) && Lists(t, right)
    ensures var all := left + Shift(right, |p|);
            forall a, b {:trigger Has(all, a, b)} | IsChunk(p + t, a, b) :: Has(all, a, b)
  {
    forall a, b | IsChunk(p + t, a, b)
      ensures Has(left + Shift(right, |p|), a, b)
    {
      assert IsChunk(p, a, b) ==> Has(left, a, b);
      assert IsChunk(t, a - |p|, b - |p|) ==> Has(right, a - |p|, b - |p|);
      AllListed(p, t, left, right, a, b);
    }
  }

  lemma ListsConcat(p: string, t: string, left: seq<Span>, right: seq<Span>)
    requires Run(OUTSIDE, p) == OUTSIDE && Lists(p, left) && Lists(t, right)
    ensures Lists(p + t, left + Shift(right, |p|))
  {
    AllJoined(p, t, left, right);
    LeftListed(p, t, left);
    RightListed(p, t, right);
    JoinedListed(left, right, |p|, p + t);
    ConcatAscends(p, t, left, right);
    ListsFrom(p + t, left + Shift(right, |p|));
  }

  lemma SlicesConcat(p: string, t: string, left: seq<Span>, right: seq<Span>)
    requires Within(p, left) && Within(t, right)
    ensures Within(p + t, left + Shift(right, |p|))
    ensures Slices(p + t, left + Shift(right, |p|)) == Slices(p, left) + Slices(t, right)
  {
    var all := left + Shift(right, |p|);
    forall i | 0 <= i < |left|
      ensures Slices(p + t, all)[i] == Slices(p, left)[i]
    {
      assert all[i] == left[i];
    }
    forall i | 0 <= i < |right|
      ensures Slices(p + t, all)[|left| + i] == Slices(t, right)[i]
    {
      assert all[|left| + i] == (right[i].0 + |p|, right[i].1 + |p|);
    }
  }

  lemma NextEqual(one: seq<Span>, other: seq<Span>, k: nat)
    requires Ascending(one) && Ascending(other) && (forall p | p in one :: p.0 < p.1)
    requires (forall p :: p in one <==> p in other)
    requires k < |one| && k <= |other| && forall i | 0 <= i < k :: one[i] == other[i]
    ensures k < |other| && one[k] == other[k]
  {
    assert one[k] in one;
    var m :| 0 <= m < |other| && other[m] == one[k];
    assert k <= m && other[k] in other;
    var l :| 0 <= l < |one| && one[l] == other[k];
    assert k <= l;
  }

  // Ascending lists of the same non-empty spans are equal.
  lemma {:induction false} AscendingUnique(one: seq<Span>, other: seq<Span>, n: nat)
    requires Ascending(one) && Ascending(other) && (forall p | p in one :: p.0 < p.1)
    requires (forall p :: p in one <==> p in other)
    requires n <= |one|
    ensures n <= |other| && one[..n] == other[..n]
  {
    if n > 0 {
      var k := n - 1;
      AscendingUnique(one, other, k);
      forall i | 0 <= i < k ensures one[i] == other[i] { assert one[..k][i] == other[..k][i]; }
      NextEqual(one, other, k);
      assert one[..n] == one[..k] + [one[k]] && other[..n] == other[..k] + [other[k]];
    }
  }

  /** The scanner's answer is determined by the text. */
  lemma ChunksUnique(text: string, one: seq<string>, other: seq<string>)
    requires ChunksAre(text, one) && ChunksAre(text, other)
    ensures one == other
  {
    var s: seq<Span> :| Lists(text, s) && Within(text, s) && one == Slices(text, s);
    var t: seq<Span> :| Lists(text, t) && Within(text, t) && other == Slices(text, t);
    forall p
      ensures p in s <==> p in t
    {
      assert IsChunk(text, p.0, p.1) ==> Has(s, p.0, p.1) && Has(t, p.0, p.1);
    }
    AscendingUnique(s, t, |s|);
    AscendingUnique(t, s, |t|);
    assert s[..|s|] == s && t[..|t|] == t;
  }

  lemma ChunksConcat(p: string, t: string, left: seq<string>, right: seq<string>)
    requires Run(OUTSIDE, p) == OUTSIDE && ChunksAre(p, left) && ChunksAre(t, right)
    ensures ChunksAre(p + t, left + right)
  {
    var l: seq<Span> :| Lists(p, l) && Within(p, l) && left == Slices(p, l);
    var r: seq<Span> :| Lists(t, r) && Within(t, r) && right == Slices(t, r);
    ListsConcat(p, t, l, r);
    SlicesConcat(p, t, l, r);
  }

  // ---------------------------------------------------------------------------------------- arbitrary text

  // A chunk read on its own is scanned as it was inside the text.
  lemma ChunkStates(text: string, a: int, b: int, k: int)
    requires IsChunk(text, a, b) && 0 <= k <= b - a
    ensures At(text[a..b], k) == At(text, a + k)
  {
    AtIsRun(text, a);
    AtIsRun(text, a + k);
    AtIsRun(text[a..b], k);
    assert text[..a + k] == text[..a] + text[a..b][..k];
    RunConcat(OUTSIDE, text[..a], text[a..b][..k]);
  }

  lemma ChunkIsWhole(chunk: string)
    requires IsChunk(chunk, 0, |chunk|)
    ensures ChunksAre(chunk, [chunk])
  {
    var spans: seq<Span> := [(0, |chunk|)];
    forall a, b | IsChunk(chunk, a, b)
      ensures Has(spans, a, b)
    {
      assert (a, b) == spans[0];
    }
    assert chunk[0..|chunk|] == chunk;
    assert Lists(chunk, spans) && Slices(chunk, spans) == [chunk];
  }

  lemma ChunkAlone(text: string, a: int, b: int)
    requires IsChunk(text, a, b)
    ensures IsChunk(text[a..b], 0, b - a)
  {
    forall k | 0 <= k <= b - a
      ensures At(text[a..b], k) == At(text, a + k)
    {
      ChunkStates(text, a, b, k);
    }
  }

  lemma ChunkInText(text: string, objects: seq<string>, chunk: string) returns (a: int, b: int)
    requires ChunksAre(text, objects) && chunk in objects
    ensures IsChunk(text, a, b) && chunk == text[a..b]
  {
    var spans: seq<Span> :| Lists(text, spans) && Within(text, spans) && objects == Slices(text, spans);
    var i :| 0 <= i < |objects| && objects[i] == chunk;
    assert spans[i] in spans;
    a, b := spans[i].0, spans[i].1;
  }

  /** Every chunk, of any text, scans to itself alone. */
  lemma ChunksRescan(text: string, objects: seq<string>, chunk: string)
    requires ChunksAre(text, objects) && chunk in objects
    ensures ChunksAre(chunk, [chunk])
  {
    var a, b := ChunkInText(text, objects, chunk);
    ChunkAlone(text, a, b);
    ChunkIsWhole(chunk);
  }

  // ---------------------------------------------------------------------------------------- JSON texts

  /** One character of a JSON string, RFC 8259 section 7. */
  datatype StringChar = Plain(c: char) | Escaped(c: char) | Unicode(hex: string)

  predicate CharOk(x: StringChar) {
    match x
    case Plain(c) => c >= ' ' && c != '"' && c != '\\'
    case Escaped(c) => c in "\"\\/bfnrt"
    case Unicode(hex) => |hex| == 4 && forall h | h in hex :: h in "0123456789abcdefABCDEF"
  }

  function CharText(x: StringChar): string {
    match x
    case Plain(c) => [c]
    case Escaped(c) => ['\\', c]
    case Unicode(hex) => "\\u" + hex
  }

  function CharsText(chars: seq<StringChar>): string {
    if chars == [] then "" else CharText(chars[0]) + CharsText(chars[1..])
  }

  function StringText(chars: seq<StringChar>): string { "\"" + CharsText(chars) + "\"" }

  /** JSON values as written, with their insignificant white space, RFC 8259 sections 2 to 6. */
  datatype Json =
    | Token(text: string)
    | Text(chars: seq<StringChar>)
    | EmptyArray(pad: string)
    | Array(elements: Elements)
    | EmptyObject(pad: string)
    | Object(members: Members)

  datatype Elements =
    | LastElement(before: string, value: Json, after: string)
    | Element(before: string, value: Json, after: string, rest: Elements)

  datatype Members =
    | LastMember(before: string, name: seq<StringChar>, colonBefore: string, colonAfter: string,
                 value: Json, after: string)
    | Member(before: string, name: seq<StringChar>, colonBefore: string, colonAfter: string,
             value: Json, after: string, rest: Members)

  predicate IsSpace(s: string) { forall c | c in s :: c in " \t\n\r" }

  predicate IsDigits(s: string) { s != "" && forall c | c in s :: '0' <= c <= '9' }

  /** A number, RFC 8259 section 6. */
  ghost predicate IsNumber(s: string) {
    exists minus, whole, frac, exp ::
      && s == minus + whole + frac + exp
      && (minus == "" || minus == "-")
      && IsDigits(whole) && (whole[0] == '0' ==> |whole| == 1)
      && (frac == "" || (frac[0] == '.' && IsDigits(frac[1..])))
      && (exp == "" || (exp[0] in "eE" && IsDigits(if |exp| > 1 && exp[1] in "+-" then exp[2..] else exp[1..])))
  }

  ghost predicate JsonOk(v: Json) {
    match v
    case Token(text) => text == "true" || text == "false" || text == "null" || IsNumber(text)
    case Text(chars) => forall c | c in chars :: CharOk(c)
    case EmptyArray(pad) => IsSpace(pad)
    case Array(elements) => ElementsOk(elements)
    case EmptyObject(pad) => IsSpace(pad)
    case Object(members) => MembersOk(members)
  }

  ghost predicate ElementsOk(e: Elements) {
    && IsSpace(e.before) && JsonOk(e.value) && IsSpace(e.after)
    && (e.Element? ==> ElementsOk(e.rest))
  }

  ghost predicate MembersOk(m: Members) {
    && IsSpace(m.before) && (forall c | c in m.name :: CharOk(c)) && IsSpace(m.colonBefore)
    && IsSpace(m.colonAfter) && JsonOk(m.value) && IsSpace(m.after)
    && (m.Member? ==> MembersOk(m.rest))
  }

  function Written(v: Json): string {
    match v
    case Token(text) => text
    case Text(chars) => StringText(chars)
    case EmptyArray(pad) => "[" + pad + "]"
    case Array(elements) => "[" + ElementsText(elements) + "]"
    case EmptyObject(pad) => Braced(pad)
    case Object(members) => Braced(MembersText(members))
  }

  function Braced(inner: string): string { "{" + inner + "}" }

  function ElementsText(e: Elements): string {
    e.before + Written(e.value) + e.after + if e.Element? then "," + ElementsText(e.rest) else ""
  }

  function MembersText(m: Members): string {
    m.before + StringText(m.name) + (m.colonBefore + ":" + m.colonAfter) + Written(m.value) + m.after +
    if m.Member? then "," + MembersText(m.rest) else ""
  }

  // ---------------------------------------------------------------------------------------- level texts

  /** Inside an object, reading `s` comes back to where it began and never closes the object on the way. */
  ghost predicate Level(s: string) {
    forall d: nat | d > 0 :: LevelAt(s, d)
  }

  ghost predicate LevelAt(s: string, d: nat) {
    && Run(Scan(d, false, false), s) == Scan(d, false, false)
    && forall k | 0 <= k <= |s| :: Run(Scan(d, false, false), s[..k]).depth >= d
  }

  lemma LevelConcat(a: string, b: string)
    requires Level(a) && Level(b)
    ensures Level(a + b)
  {
    forall d: nat | d > 0
      ensures LevelAt(a + b, d)
    {
      assert LevelAt(a, d) && LevelAt(b, d);
      var s := Scan(d, false, false);
      RunConcat(s, a, b);
      forall k | 0 <= k <= |a + b|
        ensures Run(s, (a + b)[..k]).depth >= d
      {
        RunPrefix(s, a, b, k);
      }
    }
  }

  predicate Inert(c: char) { c != '"' && c != '{' && c != '}' }

  lemma {:induction false} InertRun(s: string, d: nat)
    requires forall c | c in s :: Inert(c)
    ensures Run(Scan(d, false, false), s) == Scan(d, false, false)
    decreases |s|
  {
    if s != "" {
      assert s[|s| - 1] in s;
      InertRun(s[..|s| - 1], d);
    }
  }

  lemma LevelInert(s: string)
    requires forall c | c in s :: Inert(c)
    ensures Level(s)
  {
    forall d: nat | d > 0
      ensures LevelAt(s, d)
    {
      InertRun(s, d);
      forall k | 0 <= k <= |s| { InertRun(s[..k], d); }
    }
  }

  lemma BracedLevelAt(inner: string, d: nat)
    requires Level(inner) && d > 0
    ensures LevelAt(Braced(inner), d)
  {
    BracedRun(inner, d);
    assert Braced(inner)[..|Braced(inner)|] == Braced(inner) && Braced(inner)[..0] == "";
  }

  lemma LevelBraced(inner: string)
    requires Level(inner)
    ensures Level(Braced(inner)) && IsChunk(Braced(inner), 0, |Braced(inner)|)
  {
    forall d: nat | d > 0 { BracedLevelAt(inner, d); }
    var s := Braced(inner);
    BracedRun(inner, 0);
    forall k | 0 <= k <= |s| { AtIsRun(s, k); }
    assert s[..|s|] == s;
  }

  lemma BracedRun(inner: string, d: nat)
    requires Level(inner)
    ensures var s, from := Braced(inner), Scan(d, false, false);
            Run(from, s) == from && forall k | 0 < k < |s| :: Run(from, s[..k]).depth >= d + 1
  {
    var s, from := Braced(inner), Scan(d, false, false);
    assert LevelAt(inner, d + 1);
    assert s == ("{" + inner) + "}";
    RunConcat(from, "{" + inner, "}");
    RunConcat(from, "{", inner);
    RunOne(from, '{');
    RunOne(Scan(d + 1, false, false), '}');
    forall k | 0 < k < |s|
      ensures Run(from, s[..k]).depth >= d + 1
    {
      assert s[..k] == "{" + inner[..k - 1];
      RunConcat(from, "{", inner[..k - 1]);
    }
  }

  // Inside a string the depth does not move, and only an unescaped quote ends it.
  ghost predicate StaysInString(s: string, d: nat) {
    && Run(Scan(d, true, false), s) == Scan(d, true, false)
    && forall k | 0 <= k <= |s| :: Run(Scan(d, true, false), s[..k]).depth == d
  }

  lemma {:induction false} PlainInString(s: string, d: nat)
    requires forall c | c in s :: c != '"' && c != '\\'
    ensures StaysInString(s, d)
    decreases |s|
  {
    if s != "" {
      var most := s[..|s| - 1];
      forall c | c in most ensures c != '"' && c != '\\' { assert c in s; }
      assert s[|s| - 1] in s;
      PlainInString(most, d);
      forall k | 0 <= k <= |s|
        ensures Run(Scan(d, true, false), s[..k]).depth == d
      {
        assert k <= |most| ==> s[..k] == most[..k];
        assert k == |s| ==> s[..k] == s;
      }
    }
  }

  // A backslash and the character after it.
  lemma PairInString(c: char, d: nat)
    ensures StaysInString(['\\', c], d)
  {
    var s, from := ['\\', c], Scan(d, true, false);
    assert s[..0] == "" && s[..1] == ['\\'] && s[..1][..0] == "" && s[..2] == s;
    assert Run(from, s[..1]) == Scan(d, true, true);
    forall k | 0 <= k <= |s|
      ensures Run(from, s[..k]).depth == d
    {
    }
  }

  lemma StringConcat(a: string, b: string, d: nat)
    requires StaysInString(a, d) && StaysInString(b, d)
    ensures StaysInString(a + b, d)
  {
    RunConcat(Scan(d, true, false), a, b);
    forall k | 0 <= k <= |a + b|
      ensures Run(Scan(d, true, false), (a + b)[..k]).depth == d
    {
      RunPrefix(Scan(d, true, false), a, b, k);
    }
  }

  lemma CharInString(x: StringChar, d: nat)
    requires CharOk(x)
    ensures StaysInString(CharText(x), d)
  {
    match x
    case Plain(c) => PlainInString([c], d);
    case Escaped(c) => PairInString(c, d);
    case Unicode(hex) => UnicodeInString(hex, d);
  }

  lemma UnicodeInString(hex: string, d: nat)
    requires forall h | h in hex :: h in "0123456789abcdefABCDEF"
    ensures StaysInString("\\u" + hex, d)
  {
    PairInString('u', d);
    PlainInString(hex, d);
    StringConcat("\\u", hex, d);
  }

  lemma {:induction false} CharsInString(chars: seq<StringChar>, d: nat)
    requires forall c | c in chars :: CharOk(c)
    ensures StaysInString(CharsText(chars), d)
  {
    if chars == [] {
      PlainInString("", d);
    } else {
      assert chars[0] in chars && forall c | c in chars[1..] :: c in chars;
      CharInString(chars[0], d);
      CharsInString(chars[1..], d);
      StringConcat(CharText(chars[0]), CharsText(chars[1..]), d);
    }
  }

  lemma LevelString(chars: seq<StringChar>)
    requires forall c | c in chars :: CharOk(c)
    ensures Level(StringText(chars))
  {
    var inner, s := CharsText(chars), StringText(chars);
    forall d: nat | d > 0
      ensures LevelAt(s, d)
    {
      CharsInString(chars, d);
      QuotedRun(inner, d);
    }
  }

  lemma QuotedRun(inner: string, d: nat)
    requires StaysInString(inner, d)
    ensures LevelAt("\"" + inner + "\"", d)
  {
    var from, s := Scan(d, false, false), "\"" + inner + "\"";
    RunOne(from, '"');
    RunOne(Scan(d, true, false), '"');
    RunConcat(from, "\"" + inner, "\"");
    RunConcat(from, "\"", inner);
    forall k | 0 <= k <= |s|
      ensures Run(from, s[..k]).depth >= d
    {
      if k == |s| {
        assert s[..k] == s;
      } else if k > 0 {
        assert s[..k] == "\"" + inner[..k - 1];
        RunConcat(from, "\"", inner[..k - 1]);
      } else {
        assert s[..k] == "";
      }
    }
  }

  lemma NumberIsInert(s: string)
    requires IsNumber(s)
    ensures forall c | c in s :: Inert(c)
  {
    var minus, whole, frac, exp :|
      && s == minus + whole + frac + exp
      && (minus == "" || minus == "-")
      && IsDigits(whole) && (whole[0] == '0' ==> |whole| == 1)
      && (frac == "" || (frac[0] == '.' && IsDigits(frac[1..])))
      && (exp == "" || (exp[0] in "eE" && IsDigits(if |exp| > 1 && exp[1] in "+-" then exp[2..] else exp[1..])));
    assert frac == "" || frac == [frac[0]] + frac[1..];
    assert |exp| <= 1 || exp == [exp[0], exp[1]] + exp[2..];
    assert |exp| <= 1 || exp == [exp[0]] + exp[1..];
  }

  lemma {:induction false} LevelJson(v: Json)
    requires JsonOk(v)
    ensures Level(Written(v))
    decreases v
  {
    match v
    case Token(text) =>
      if IsNumber(text) { NumberIsInert(text); }
      LevelInert(text);
    case Text(chars) => LevelString(chars);
    case EmptyArray(pad) => LevelInert("[" + pad + "]");
    case Array(elements) =>
      LevelElements(elements);
      LevelInert("[");
      LevelInert("]");
      LevelConcat("[", ElementsText(elements));
      LevelConcat("[" + ElementsText(elements), "]");
    case EmptyObject(pad) =>
      LevelInert(pad);
      LevelBraced(pad);
    case Object(members) =>
      LevelMembers(members);
      LevelBraced(MembersText(members));
  }

  lemma {:induction false} LevelElements(e: Elements)
    requires ElementsOk(e)
    ensures Level(ElementsText(e))
    decreases e
  {
    LevelJson(e.value);
    LevelInert(e.before);
    LevelInert(e.after);
    LevelConcat(e.before, Written(e.value));
    LevelConcat(e.before + Written(e.value), e.after);
    LevelInert("");
    var tail := if e.Element? then "," + ElementsText(e.rest) else "";
    if e.Element? {
      LevelElements(e.rest);
      LevelInert(",");
      LevelConcat(",", ElementsText(e.rest));
    }
    LevelConcat(e.before + Written(e.value) + e.after, tail);
  }

  lemma {:induction false} LevelMembers(m: Members)
    requires MembersOk(m)
    ensures Level(MembersText(m))
    decreases m
  {
    LevelString(m.name);
    LevelJson(m.value);
    LevelInert(m.before);
    LevelInert(m.colonBefore + ":" + m.colonAfter);
    LevelInert(m.after);
    LevelInert("");
    var colon := m.colonBefore + ":" + m.colonAfter;
    LevelConcat(m.before, StringText(m.name));
    LevelConcat(m.before + StringText(m.name), colon);
    LevelConcat(m.before + StringText(m.name) + colon, Written(m.value));
    LevelConcat(m.before + StringText(m.name) + colon + Written(m.value), m.after);
    var tail := if m.Member? then "," + MembersText(m.rest) else "";
    if m.Member? {
      LevelMembers(m.rest);
      LevelInert(",");
      LevelConcat(",", MembersText(m.rest));
    }
    LevelConcat(m.before + StringText(m.name) + colon + Written(m.value) + m.after, tail);
  }

  // ---------------------------------------------------------------------------------------- polluted output

  ghost predicate IsObject(v: Json) { JsonOk(v) && (v.Object? || v.EmptyObject?) }

  /** An object text is one chunk, whatever strings and escapes it holds. */
  lemma ObjectIsChunk(v: Json)
    requires IsObject(v)
    ensures ChunksAre(Written(v), [Written(v)]) && Run(OUTSIDE, Written(v)) == OUTSIDE
  {
    var inner := if v.Object? then MembersText(v.members) else v.pad;
    if v.Object? { LevelMembers(v.members); } else { LevelInert(v.pad); }
    LevelBraced(inner);
    BracedRun(inner, 0);
    ChunkIsWhole(Written(v));
  }

  predicate NoBrace(noise: string) { forall c | c in noise :: c != '{' }

  // Text without an opening brace yields nothing and stays at depth zero.
  lemma {:induction false} NoiseState(noise: string, k: nat)
    requires NoBrace(noise) && k <= |noise|
    ensures At(noise, k).depth == 0
  {
    if k > 0 {
      assert noise[k - 1] in noise;
      NoiseState(noise, k - 1);
    }
  }

  lemma NoiseHasNoChunks(noise: string)
    requires NoBrace(noise)
    ensures ChunksAre(noise, [])
  {
    forall a, b ensures !IsChunk(noise, a, b) { assert 0 <= a < |noise| ==> noise[a] in noise; }
    assert Lists(noise, []) && Slices(noise, []) == [];
  }

  /** Noise leaves the scanner outside strings: it has no quote, or every string it opens is closed. */
  predicate Harmless(noise: string) { NoBrace(noise) && !Run(OUTSIDE, noise).inStr }

  lemma HarmlessRun(noise: string)
    requires Harmless(noise)
    ensures Run(OUTSIDE, noise) == OUTSIDE
  {
    assert noise[..|noise|] == noise;
    AtIsRun(noise, |noise|);
    NoiseState(noise, |noise|);
    EscapeOnlyInStrings(noise, |noise|);
  }

  lemma {:induction false} QuoteFreeIsHarmless(noise: string)
    requires NoBrace(noise) && '"' !in noise
    ensures Harmless(noise)
    decreases |noise|
  {
    if noise != "" {
      var most := noise[..|noise| - 1];
      forall c | c in most ensures c != '{' && c != '"' { assert c in noise; }
      QuoteFreeIsHarmless(most);
    }
  }

  /** Noise, then each object followed by its own noise. */
  function Polluted(lead: string, parts: seq<(Json, string)>): string
    decreases |parts|
  {
    if parts == [] then lead else lead + (Written(parts[0].0) + Polluted(parts[0].1, parts[1..]))
  }

  function ObjectTexts(parts: seq<(Json, string)>): seq<string> {
    seq(|parts|, i requires 0 <= i < |parts| => Written(parts[i].0))
  }

  lemma ObjectTextsSplit(parts: seq<(Json, string)>)
    requires parts != []
    ensures ObjectTexts(parts) == [Written(parts[0].0)] + ObjectTexts(parts[1..])
  {
  }

  /** From output polluted by harmless noise the scanner returns exactly the objects, in order. */
  lemma {:induction false} RecoversObjects(lead: string, parts: seq<(Json, string)>)
    requires Harmless(lead) && forall p | p in parts :: IsObject(p.0) && Harmless(p.1)
    ensures ChunksAre(Polluted(lead, parts), ObjectTexts(parts))
    decreases |parts|
  {
    NoiseHasNoChunks(lead);
    if parts == [] {
      assert ObjectTexts(parts) == [];
    } else {
      assert parts[0] in parts;
      RecoversObjects(parts[0].1, parts[1..]);
      ObjectBehindNoise(lead, parts[0].0, Polluted(parts[0].1, parts[1..]), ObjectTexts(parts[1..]));
      ObjectTextsSplit(parts);
    }
  }

  lemma ObjectBehindNoise(lead: string, v: Json, tail: string, rest: seq<string>)
    requires Harmless(lead) && IsObject(v) && ChunksAre(tail, rest)
    ensures ChunksAre(lead + (Written(v) + tail), [Written(v)] + rest)
  {
    NoiseHasNoChunks(lead);
    HarmlessRun(lead);
    ObjectIsChunk(v);
    ChunksConcat(Written(v), tail, [Written(v)], rest);
    ChunksConcat(lead, Written(v) + tail, [], [Written(v)] + rest);
    assert [] + ([Written(v)] + rest) == [Written(v)] + rest;
  }

  // If the only chunk is the object itself, the scanner was outside strings when it reached it.
  lemma FoundInPlace(noise: string, o: string)
    requires NoBrace(noise) && ChunksAre(noise + o, [o])
    ensures Run(OUTSIDE, noise) == OUTSIDE
  {
    var spans: seq<Span> :| Lists(noise + o, spans) && Within(noise + o, spans) && [o] == Slices(noise + o, spans);
    assert |spans| == |[o]|;
    var (a, b) := spans[0];
    assert spans[0] in spans && Slices(noise + o, spans)[0] == o;
    assert forall i | 0 <= i < |noise| :: (noise + o)[i] in noise;
    AtIsRun(noise + o, |noise|);
    assert (noise + o)[..|noise|] == noise;
  }

  /** An object behind brace-free noise is found if and only if the noise leaves no string open. */
  lemma FoundIffQuotesClosed(noise: string, v: Json)
    requires NoBrace(noise) && IsObject(v)
    ensures ChunksAre(noise + Written(v), [Written(v)]) <==> !Run(OUTSIDE, noise).inStr
  {
    var o := Written(v);
    ObjectIsChunk(v);
    if Harmless(noise) {
      HarmlessRun(noise);
      NoiseHasNoChunks(noise);
      ChunksConcat(noise, o, [], [o]);
      assert [] + [o] == [o];
    } else if ChunksAre(noise + o, [o]) {
      FoundInPlace(noise, o);
    }
  }

  // ---------------------------------------------------------------------------------------- payload choice

  predicate Blank(text: string) { Strip(text) == "" }

  /**
   * `_parse_payload`: `parse` stands for `json.loads`, `size` for the length of the dumped value. Blank text has no
   * payload; parseable text is its own; otherwise the first of the largest parseable objects.
   */
  method ParsePayload<V>(text: string, parse: string -> Option<V>, size: V -> nat) returns (payload: Option<V>)
    ensures Blank(text) ==> payload == None
    ensures !Blank(text) && parse(text).Some? ==> payload == parse(text)
    ensures !Blank(text) && parse(text).None? ==>
              exists chunks :: ChunksAre(text, chunks) && IsLargest(chunks, parse, size, payload)
  {
    if Blank(text) { return None; }
    payload := parse(text);
    if payload.Some? { return; }
    var chunks := BalancedJsonObjects(text);
    payload := LargestOf(chunks, parse, size);
  }

  method LargestOf<V>(chunks: seq<string>, parse: string -> Option<V>, size: V -> nat) returns (payload: Option<V>)
    ensures IsLargest(chunks, parse, size, payload)
  {
    payload := None;
    for k := 0 to |chunks|
      invariant IsLargest(chunks[..k], parse, size, payload)
    {
      assert chunks[..k + 1] == chunks[..k] + [chunks[k]];
      LargerOf(chunks[..k], parse, size, payload, chunks[k]);
      var candidate := parse(chunks[k]);
      if candidate.Some? && (payload.None? || size(candidate.value) > size(payload.value)) { payload := candidate; }
    }
    assert chunks[..|chunks|] == chunks;
  }

  /** None when nothing parses; otherwise the first value of the greatest size. */
  ghost predicate IsLargest<V>(chunks: seq<string>, parse: string -> Option<V>, size: V -> nat, payload: Option<V>) {
    if payload.None? then forall c | c in chunks :: parse(c).None?
    else exists i :: FirstLargest(chunks, parse, size, i) && parse(chunks[i]) == payload
  }

  ghost predicate FirstLargest<V>(chunks: seq<string>, parse: string -> Option<V>, size: V -> nat, i: int) {
    && 0 <= i < |chunks| && parse(chunks[i]).Some?
    && (forall j | 0 <= j < |chunks| && parse(chunks[j]).Some? ::
          size(parse(chunks[j]).value) <= size(parse(chunks[i]).value))
    && (forall j | 0 <= j < i && parse(chunks[j]).Some? :: size(parse(chunks[j]).value) < size(parse(chunks[i]).value))
  }

  lemma LargerOf<V>(chunks: seq<string>, parse: string -> Option<V>, size: V -> nat, payload: Option<V>, c: string)
    requires IsLargest(chunks, parse, size, payload)
    ensures var candidate := parse(c);
            var larger := candidate.Some? && (payload.None? || size(candidate.value) > size(payload.value));
            IsLargest(chunks + [c], parse, size, if larger then candidate else payload)
  {
    var candidate, more := parse(c), chunks + [c];
    assert more[|chunks|] == c;
    if payload.Some? {
      var i :| FirstLargest(chunks, parse, size, i) && parse(chunks[i]) == payload;
      if candidate.None? || size(candidate.value) <= size(payload.value) {
        assert FirstLargest(more, parse, size, i);
      } else {
        assert FirstLargest(more, parse, size, |chunks|);
      }
    } else if candidate.Some? {
      assert forall j | 0 <= j < |chunks| :: chunks[j] in chunks;
      assert FirstLargest(more, parse, size, |chunks|);
    }
  }

  /** A payload larger than every other parseable object of the polluted output is the one that is found. */
  lemma PayloadDominates<V>(lead: string, parts: seq<(Json, string)>, parse: string -> Option<V>, size: V -> nat,
                            p: nat, chunks: seq<string>, payload: Option<V>)
    requires Harmless(lead) && forall q | q in parts :: IsObject(q.0) && Harmless(q.1)
    requires p < |parts| && parse(Written(parts[p].0)).Some?
    requires forall j | 0 <= j < |parts| && j != p && parse(Written(parts[j].0)).Some? ::
               size(parse(Written(parts[j].0)).value) < size(parse(Written(parts[p].0)).value)
    requires ChunksAre(Polluted(lead, parts), chunks) && IsLargest(chunks, parse, size, payload)
    ensures payload == parse(Written(parts[p].0))
  {
    RecoversObjects(lead, parts);
    ChunksUnique(Polluted(lead, parts), chunks, ObjectTexts(parts));
    assert chunks[p] == Written(parts[p].0) && chunks[p] in chunks;
  }
}
