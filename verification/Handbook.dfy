/** What the parameter repairer does with each failure, in terms of its category, its message and the parameters. */
module Handbook {
  import opened Values
  import opened Machine
  import opened QERepair

  // ------------------------------------------------------------------------------------ failures

  ghost predicate Says(message: string, part: string) {
    exists a, b :: message == a + part + b
  }

  /** `b` is the small letter `a`, or its capital, or the same character. */
  ghost predicate SameLetter(a: char, b: char) {
    b == a || ('A' <= b <= 'Z' && a as int == b as int + 32)
  }

  ghost predicate SaysInAnyCase(message: string, part: string) {
    exists a, m, b :: message == a + m + b && InAnyCase(m, part)
  }

  ghost predicate InAnyCase(m: string, part: string) {
    |m| == |part| && forall k | 0 <= k < |part| :: SameLetter(part[k], m[k])
  }

  ghost predicate Eligible(error: ToolError) {
    error.category == "scf_not_converged" || error.category == "verification" || error.category == "execution"
  }

  ghost predicate TooFewBandsReported(error: ToolError) { Eligible(error) && Says(error.message, "too few bands") }

  ghost predicate TimeoutReported(error: ToolError) {
    Eligible(error) && !Says(error.message, "too few bands") && SaysInAnyCase(error.message, "timed out")
  }

  ghost predicate ConvergenceReported(error: ToolError) {
    Eligible(error) && !Says(error.message, "too few bands") && !SaysInAnyCase(error.message, "timed out")
  }

  lemma ContainsMeans(s: string, part: string)
    ensures Contains(s, part) <==> Says(s, part)
  {
    if Contains(s, part) {
      var i :| 0 <= i <= |s| && part <= s[i..];
      FoundAt(s, part, i);
    }
    if a, b :| s == a + part + b { PartAt(s, a, part, b); }
  }

  lemma FoundAt(s: string, part: string, i: int)
    requires 0 <= i <= |s| && part <= s[i..]
    ensures s[i..i + |part|] == part && s == s[..i] + part + s[i + |part|..]
  {
    assert s[i..i + |part|] == s[i..][..|part|];
  }

  lemma PartAt(s: string, a: string, part: string, b: string)
    requires s == a + part + b
    ensures |a| <= |s| && s[|a|..] == part + b && part <= s[|a|..]
  {
  }

  lemma LoweredMeans(m: string, part: string)
    requires |m| == |part| && forall k | 0 <= k < |part| :: !('A' <= part[k] <= 'Z')
    ensures Lowered(m) == part <==> InAnyCase(m, part)
  {
    forall k | 0 <= k < |part|
      ensures Lowered(m)[k] == part[k] <==> SameLetter(part[k], m[k])
    {
    }
  }

  lemma LoweredParts(a: string, m: string, b: string)
    ensures Lowered(a + m + b) == Lowered(a) + Lowered(m) + Lowered(b)
  {
  }

  lemma LoweredSlice(s: string, i: int, j: int)
    requires 0 <= i <= j <= |s|
    ensures Lowered(s[i..j]) == Lowered(s)[i..j] && s == s[..i] + s[i..j] + s[j..]
  {
  }

  lemma ContainsLoweredMeans(s: string, part: string)
    requires forall k | 0 <= k < |part| :: !('A' <= part[k] <= 'Z')
    ensures Contains(Lowered(s), part) <==> SaysInAnyCase(s, part)
  {
    if Contains(Lowered(s), part) {
      var i :| 0 <= i <= |Lowered(s)| && part <= Lowered(s)[i..];
      FoundAt(Lowered(s), part, i);
      LoweredSlice(s, i, i + |part|);
      LoweredMeans(s[i..i + |part|], part);
    }
    if a, m, b :| s == a + m + b && InAnyCase(m, part) {
      LoweredMeans(m, part);
      LoweredParts(a, m, b);
      PartAt(Lowered(s), Lowered(a), part, Lowered(b));
    }
  }

  /** The four kinds of failure, by category and message. */
  lemma KindsMean(error: ToolError)
    ensures KindOf(error) == NotRepairable <==> !Eligible(error)
    ensures KindOf(error) == TooFewBands <==> TooFewBandsReported(error)
    ensures KindOf(error) == TimedOut <==> TimeoutReported(error)
    ensures KindOf(error) == Convergence <==> ConvergenceReported(error)
  {
    ContainsMeans(error.message, "too few bands");
    ContainsLoweredMeans(error.message, "timed out");
  }

  // ------------------------------------------------------------------------------------ readings

  ghost predicate Falsy(v: Value) {
    v == Null || v == Bool(false) || v == Num(0.0) || v == Str("") || v == List([]) || v == Dict(map[])
  }

  ghost predicate Given(p: Params, key: string) { key in p && !Falsy(p[key]) }

  ghost predicate IsTheNumber(v: Value, x: real) {
    v == Num(x) || (v == Bool(true) && x == 1.0) || (v == Bool(false) && x == 0.0)
  }

  ghost predicate ReadsAs(parser: Parser, v: Value, x: real) {
    IsTheNumber(v, x) || (v.Str? && parser.asFloat(v.s) == Some(x))
  }

  /** `n` is `x` without its fraction. */
  ghost predicate Truncates(x: real, n: int) {
    if x >= 0.0 then n as real <= x < n as real + 1.0 else n as real - 1.0 < x <= n as real
  }

  ghost predicate ReadsAsInt(parser: Parser, v: Value, n: int) {
    || (exists x :: IsTheNumber(v, x) && Truncates(x, n))
    || (v.Str? && parser.asInt(v.s) == Some(n))
  }

  lemma TruncMeans(x: real, n: int)
    ensures Trunc(x) == n <==> Truncates(x, n)
  {
    var f := x.Floor;
    assert f as real <= x < f as real + 1.0;
    if x < 0.0 {
      var g := (-x).Floor;
      assert g as real <= -x < g as real + 1.0;
    }
  }

  lemma NumberMeans(v: Value, x: real)
    ensures NumberOf(v) == Some(x) <==> IsTheNumber(v, x)
  {
  }

  lemma FloatMeans(parser: Parser, v: Value, x: real)
    ensures FloatOf(parser, v) == Some(x) <==> ReadsAs(parser, v, x)
  {
  }

  lemma IntMeans(parser: Parser, v: Value, n: int)
    ensures IntOf(parser, v) == Some(n) <==> ReadsAsInt(parser, v, n)
  {
    if !v.Str? && NumberOf(v).Some? {
      TruncMeans(NumberOf(v).value, n);
      NumberMeans(v, NumberOf(v).value);
    }
    if x :| IsTheNumber(v, x) && Truncates(x, n) { TruncMeans(x, n); }
  }

  /** The wave-function cutoff in force: what is given, else 45. */
  ghost predicate CutoffIs(parser: Parser, p: Params, c: real) {
    if Given(p, "ecutwfc") then ReadsAs(parser, p["ecutwfc"], c) else c == 45.0
  }

  /** The number of bands in force: what is given, else none. */
  ghost predicate BandsAre(parser: Parser, p: Params, n: int) {
    if Given(p, "nbnd") then ReadsAsInt(parser, p["nbnd"], n) else n == 0
  }

  ghost predicate PointsAre(parser: Parser, p: Params, n: int) {
    Given(p, "nkpoints_bands") && ReadsAsInt(parser, p["nkpoints_bands"], n)
  }

  lemma TruthyMeans(v: Value)
    ensures Truthy(v) <==> !Falsy(v)
  {
  }

  lemma CutoffMeans(parser: Parser, p: Params, c: real)
    ensures Cutoff(parser, p) == Some(c) <==> CutoffIs(parser, p, c)
  {
    if "ecutwfc" in p { TruthyMeans(p["ecutwfc"]); }
    FloatMeans(parser, GetOr(p, "ecutwfc", 45.0), c);
  }

  lemma BandCountMeans(parser: Parser, p: Params, n: int)
    ensures BandCount(parser, p) == Some(n) <==> BandsAre(parser, p, n)
  {
    if "nbnd" in p { TruthyMeans(p["nbnd"]); }
    IntMeans(parser, GetOr(p, "nbnd", 0.0), n);
    TruncMeans(0.0, 0);
  }

  lemma PointsMean(parser: Parser, p: Params, n: int)
    ensures HasBandPath(p) <==> Given(p, "nkpoints_bands")
    ensures BandPoints(parser, p) == Some(n) <==> PointsAre(parser, p, n)
  {
    if "nkpoints_bands" in p {
      TruthyMeans(p["nkpoints_bands"]);
      IntMeans(parser, p["nkpoints_bands"], n);
    }
  }

  // ------------------------------------------------------------------------------------ effects

  /** The cutoff goes up by ten, to at most 120, and the density cutoff becomes eight times it; nothing else changes. */
  ghost predicate CutoffRaised(p: Params, c: real, q: Params) {
    var e := if c <= 110.0 then c + 10.0 else 120.0;
    q == p["ecutwfc" := Num(e)]["ecutrho" := Num(8.0 * e)]
  }

  /** A convergence failure is repaired exactly when a cutoff below 120 is in force. */
  lemma ConvergenceEffect(parser: Parser, p: Params, error: ToolError)
    requires ConvergenceReported(error)
    ensures var fix := Repaired(parser, p, error);
            if exists c :: CutoffIs(parser, p, c) && c < 120.0
            then fix.requeue && exists c :: CutoffIs(parser, p, c) && CutoffRaised(p, c, fix.params)
            else !fix.requeue && fix.params == p
  {
    KindsMean(error);
    var c := Cutoff(parser, p);
    if c.Some? { CutoffMeans(parser, p, c.value); }
    if x :| CutoffIs(parser, p, x) && x < 120.0 { CutoffMeans(parser, p, x); }
  }

  /** Too few bands: the count in force is doubled, to at least 24, whenever it can be read; nothing else changes. */
  lemma TooFewBandsEffect(parser: Parser, p: Params, error: ToolError)
    requires TooFewBandsReported(error)
    ensures var fix := Repaired(parser, p, error);
            if exists n :: BandsAre(parser, p, n)
            then fix.requeue && exists n :: BandsAre(parser, p, n)
                                         && fix.params == p["nbnd" := Num((if n >= 12 then 2 * n else 24) as real)]
            else !fix.requeue && fix.params == p
  {
    KindsMean(error);
    var n := BandCount(parser, p);
    if n.Some? { BandCountMeans(parser, p, n.value); }
    if m :| BandsAre(parser, p, m) { BandCountMeans(parser, p, m); }
  }

  /** Other categories are not repaired. */
  lemma NotEligibleEffect(parser: Parser, p: Params, error: ToolError)
    requires !Eligible(error)
    ensures Repaired(parser, p, error) == Fix(false, p)
  {
    KindsMean(error);
  }

  /** Three fifths of `n`, without its fraction, and at least 24. */
  ghost predicate ThreeFifths(n: int, m: int) {
    if 3 * n >= 120 then 5 * m <= 3 * n < 5 * m + 5 else m == 24
  }

  lemma ReducedMeans(n: int)
    requires n > 24
    ensures ThreeFifths(n, Reduced(n))
  {
    TruncMeans(n as real * 0.6, Trunc(n as real * 0.6));
  }

  /** A timeout with a band path: its points are cut to three fifths if there are more than 24; nothing else changes. */
  lemma BandPathEffect(parser: Parser, p: Params, error: ToolError)
    requires TimeoutReported(error) && Given(p, "nkpoints_bands")
    ensures var fix := Repaired(parser, p, error);
            if exists n :: PointsAre(parser, p, n) && n > 24
            then fix.requeue && exists n, m :: PointsAre(parser, p, n) && ThreeFifths(n, m)
                                            && fix.params == p["nkpoints_bands" := Num(m as real)]
            else !fix.requeue && fix.params == p
  {
    KindsMean(error);
    PointsMean(parser, p, 0);
    var n := BandPoints(parser, p);
    if n.Some? {
      PointsMean(parser, p, n.value);
      if n.value > 24 { ReducedMeans(n.value); }
    }
    if m :| PointsAre(parser, p, m) && m > 24 { PointsMean(parser, p, m); }
  }

  /** An axis above two becomes half of itself without fractions, and at least two; any other loses its fraction. */
  ghost predicate AxisHalved(x: real, m: int) {
    exists t :: Truncates(x, t) &&
                if x > 2.0 && t >= 4 then 2 * m <= t < 2 * m + 2 else if x > 2.0 then m == 2 else m == t
  }

  ghost predicate IsMesh(v: Value) {
    v.List? && |v.items| >= 3 && IsNumeric(v.items[0]) && IsNumeric(v.items[1]) && IsNumeric(v.items[2])
  }

  ghost predicate IsNumeric(v: Value) { v.Num? || v.Bool? }

  ghost predicate AboveTwo(v: Value) { v.Num? && v.x > 2.0 }

  /** A list of three numbers, one of them above two, whose further entries can be read as integers. */
  ghost predicate Reducible(parser: Parser, v: Value) {
    && IsMesh(v)
    && (AboveTwo(v.items[0]) || AboveTwo(v.items[1]) || AboveTwo(v.items[2]))
    && forall i | 3 <= i < |v.items| :: Readable(parser, v.items[i])
  }

  ghost predicate Readable(parser: Parser, v: Value) { exists n :: ReadsAsInt(parser, v, n) }

  ghost predicate MeshReduced(parser: Parser, v: Value, w: Value)
    requires Reducible(parser, v)
  {
    && w.List? && |w.items| == |v.items|
    && (forall i | 0 <= i < 3 :: AxisReduced(v.items[i], w.items[i]))
    && (forall i | 3 <= i < |v.items| :: EntryRead(parser, v.items[i], w.items[i]))
  }

  ghost predicate AxisReduced(v: Value, w: Value) {
    exists x, m :: IsTheNumber(v, x) && AxisHalved(x, m) && w == Num(m as real)
  }

  ghost predicate EntryRead(parser: Parser, v: Value, w: Value) {
    exists n :: ReadsAsInt(parser, v, n) && w == Num(n as real)
  }

  lemma HalvedMeans(v: Value, x: real)
    requires IsTheNumber(v, x)
    ensures AxisReduced(v, Num(HalvedAxis(x)))
  {
    var t := Trunc(x);
    TruncMeans(x, t);
    var m := if x > 2.0 then (if t / 2 < 2 then 2 else t / 2) else t;
    assert AxisHalved(x, m);
  }

  lemma MeshMeans(p: Params)
    ensures Mesh(p).Some? <==> "kpoints" in p && IsMesh(p["kpoints"])
    ensures Mesh(p).Some? ==>
              var v, m := p["kpoints"], Mesh(p).value;
              IsTheNumber(v.items[0], m.0) && IsTheNumber(v.items[1], m.1) && IsTheNumber(v.items[2], m.2)
  {
  }

  lemma TailMeans(parser: Parser, items: seq<Value>)
    ensures AllInts(parser, items) <==> forall i | 0 <= i < |items| :: Readable(parser, items[i])
    ensures AllInts(parser, items) ==>
              forall i | 0 <= i < |items| :: EntryRead(parser, items[i], AsInts(parser, items)[i])
  {
    forall i | 0 <= i < |items|
      ensures IntOf(parser, items[i]).Some? <==> Readable(parser, items[i])
      ensures IntOf(parser, items[i]).Some? ==> EntryRead(parser, items[i], Num(IntOf(parser, items[i]).value as real))
    {
      if IntOf(parser, items[i]).Some? { IntMeans(parser, items[i], IntOf(parser, items[i]).value); }
      if n :| ReadsAsInt(parser, items[i], n) { IntMeans(parser, items[i], n); }
    }
  }

  lemma ReducibleMeans(parser: Parser, p: Params)
    ensures ShrinkMesh(parser, p).requeue <==> "kpoints" in p && Reducible(parser, p["kpoints"])
    ensures !ShrinkMesh(parser, p).requeue ==> ShrinkMesh(parser, p).params == p
  {
    MeshMeans(p);
    if Mesh(p).Some? {
      var items := p["kpoints"].items;
      TailMeans(parser, items[3..]);
      var tail := items[3..];
      assert forall i | 3 <= i < |items| :: items[i] == tail[i - 3];
      assert forall i | 0 <= i < |tail| :: tail[i] == items[i + 3];
      assert forall i | 0 <= i < |tail| :: Readable(parser, items[i + 3]) <==> Readable(parser, tail[i]);
    }
  }

  lemma ReductionMeans(parser: Parser, p: Params)
    requires "kpoints" in p && Reducible(parser, p["kpoints"])
    ensures ShrinkMesh(parser, p).requeue
    ensures exists w :: MeshReduced(parser, p["kpoints"], w) && ShrinkMesh(parser, p).params == p["kpoints" := w]
  {
    ReducibleMeans(parser, p);
    MeshMeans(p);
    var items, m := p["kpoints"].items, Mesh(p).value;
    var w := ShrinkMesh(parser, p).params["kpoints"];
    TailMeans(parser, items[3..]);
    HalvedMeans(items[0], m.0);
    HalvedMeans(items[1], m.1);
    HalvedMeans(items[2], m.2);
    forall i | 3 <= i < |items|
      ensures EntryRead(parser, items[i], w.items[i])
    {
      assert items[i] == items[3..][i - 3] && w.items[i] == AsInts(parser, items[3..])[i - 3];
    }
    assert MeshReduced(parser, p["kpoints"], w);
  }

  /** A timeout without a band path: a mesh with an axis above two is halved, and nothing else changes. */
  lemma MeshEffect(parser: Parser, p: Params, error: ToolError)
    requires TimeoutReported(error) && !Given(p, "nkpoints_bands")
    ensures var fix := Repaired(parser, p, error);
            if "kpoints" in p && Reducible(parser, p["kpoints"])
            then fix.requeue && exists w :: MeshReduced(parser, p["kpoints"], w) && fix.params == p["kpoints" := w]
            else !fix.requeue && fix.params == p
  {
    KindsMean(error);
    PointsMean(parser, p, 0);
    ReducibleMeans(parser, p);
    if "kpoints" in p && Reducible(parser, p["kpoints"]) { ReductionMeans(parser, p); }
  }

  /** So a timeout never touches a cutoff or the number of bands, and an accepted one means less work. */
  lemma TimeoutEffect(parser: Parser, p: Params, error: ToolError)
    requires TimeoutReported(error)
    ensures var q := Repaired(parser, p, error).params;
            forall k | k != "nkpoints_bands" && k != "kpoints" :: (k in q <==> k in p) && (k in p ==> q[k] == p[k])
    ensures Repaired(parser, p, error).requeue ==> Work(parser, Repaired(parser, p, error).params) < Work(parser, p)
  {
    if Given(p, "nkpoints_bands") { BandPathEffect(parser, p, error); } else { MeshEffect(parser, p, error); }
    KindsMean(error);
    RepairLightens(parser, p, error);
  }
}
