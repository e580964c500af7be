/** The Quantum ESPRESSO repair handler: raise the cutoff, or shrink the k-point work after a timeout. */
module QERepair {
  import opened Values
  import opened States
  import opened Graph
  import opened Binding
  import opened Machine
  import opened RunRecords

  const CUTOFF_BUMP_STEP := 10.0
  const MAX_ECUT := 120.0
  const MIN_BAND_PATH_POINTS := 24

  /** How the host reads numbers out of strings; None is a ValueError. */
  datatype Parser = Parser(asFloat: string -> Option<real>, asInt: string -> Option<int>)

  datatype Kind = NotRepairable | TooFewBands | TimedOut | Convergence

  predicate Contains(s: string, part: string) {
    exists i | 0 <= i <= |s| :: part <= s[i..]
  }

  function Lower(c: char): char { if 'A' <= c <= 'Z' then 'a' + (c - 'A') else c }

  function Lowered(s: string): string { seq(|s|, i requires 0 <= i < |s| => Lower(s[i])) }

  predicate IsRepairable(category: string) {
    category == "scf_not_converged" || category == "verification" || category == "execution"
  }

  function KindOf(error: ToolError): Kind {
    if !IsRepairable(error.category) then NotRepairable
    else if Contains(error.message, "too few bands") then TooFewBands
    else if Contains(Lowered(error.message), "timed out") then TimedOut
    else Convergence
  }

  // ---------------------------------------------------------------------------------------- reading parameters

  predicate Truthy(v: Value) {
    match v
    case Null => false
    case Bool(b) => b
    case Num(x) => x != 0.0
    case Str(s) => s != ""
    case List(items) => items != []
    case Dict(fields) => fields != map[]
  }

  function Trunc(x: real): int { if x >= 0.0 then x.Floor else -((-x).Floor) }

  /** What compares with a number without a TypeError. */
  function NumberOf(v: Value): Option<real> {
    match v
    case Num(x) => Some(x)
    case Bool(b) => Some(if b then 1.0 else 0.0)
    case _ => None
  }

  /** `float(v)`; None is a raised error. */
  function FloatOf(parser: Parser, v: Value): Option<real> {
    if v.Str? then parser.asFloat(v.s) else NumberOf(v)
  }

  /** `int(v)`; None is a raised error. */
  function IntOf(parser: Parser, v: Value): Option<int> {
    if v.Str? then parser.asInt(v.s)
    else match NumberOf(v)
         case Some(x) => Some(Trunc(x))
         case None => None
  }

  function GetOr(params: Params, key: string, default: real): Value {
    if key in params && Truthy(params[key]) then params[key] else Num(default)
  }

  function Cutoff(parser: Parser, params: Params): Option<real> { FloatOf(parser, GetOr(params, "ecutwfc", 45.0)) }

  function BandCount(parser: Parser, params: Params): Option<int> { IntOf(parser, GetOr(params, "nbnd", 0.0)) }

  predicate HasBandPath(params: Params) { "nkpoints_bands" in params && Truthy(params["nkpoints_bands"]) }

  function BandPoints(parser: Parser, params: Params): Option<int> {
    if HasBandPath(params) then IntOf(parser, params["nkpoints_bands"]) else None
  }

  /** The three mesh axes, when the mesh is a list whose first three entries are numbers. */
  function Mesh(params: Params): Option<(real, real, real)> {
    if "kpoints" in params && params["kpoints"].List? && |params["kpoints"].items| >= 3 then
      var k := params["kpoints"].items;
      match (NumberOf(k[0]), NumberOf(k[1]), NumberOf(k[2]))
      case (Some(x), Some(y), Some(z)) => Some((x, y, z))
      case _ => None
    else None
  }

  function HalvedAxis(n: real): real {
    if n > 2.0 then (if Trunc(n) / 2 < 2 then 2 else Trunc(n) / 2) as real else Trunc(n) as real
  }

  predicate AllInts(parser: Parser, items: seq<Value>) {
    forall i | 0 <= i < |items| :: IntOf(parser, items[i]).Some?
  }

  function AsInts(parser: Parser, items: seq<Value>): seq<Value>
    requires AllInts(parser, items)
  {
    seq(|items|, i requires 0 <= i < |items| => Num(IntOf(parser, items[i]).value as real))
  }

  function Reduced(points: int): int {
    var shrunk := Trunc(points as real * 0.6);
    if shrunk < MIN_BAND_PATH_POINTS then MIN_BAND_PATH_POINTS else shrunk
  }

  function Bumped(cutoff: real): real {
    if cutoff + CUTOFF_BUMP_STEP < MAX_ECUT then cutoff + CUTOFF_BUMP_STEP else MAX_ECUT
  }

  // ---------------------------------------------------------------------------------------- the handler

  function RaiseCutoff(parser: Parser, params: Params): Fix {
    match Cutoff(parser, params)
    case None => Fix(false, params)
    case Some(c) =>
      if c >= MAX_ECUT then Fix(false, params)
      else Fix(true, params["ecutwfc" := Num(Bumped(c))]["ecutrho" := Num(Bumped(c) * 8.0)])
  }

  function ShrinkMesh(parser: Parser, params: Params): Fix {
    match Mesh(params)
    case None => Fix(false, params)
    case Some((x, y, z)) =>
      var tail := params["kpoints"].items[3..];
      if (x > 2.0 || y > 2.0 || z > 2.0) && AllInts(parser, tail) then
        var axes := [Num(HalvedAxis(x)), Num(HalvedAxis(y)), Num(HalvedAxis(z))];
        Fix(true, params["kpoints" := List(axes + AsInts(parser, tail))])
      else Fix(false, params)
  }

  function RepairTimeout(parser: Parser, params: Params): Fix {
    if HasBandPath(params) then
      match BandPoints(parser, params)
      case None => Fix(false, params)
      case Some(n) =>
        if n <= MIN_BAND_PATH_POINTS then Fix(false, params)
        else Fix(true, params["nkpoints_bands" := Num(Reduced(n) as real)])
    else ShrinkMesh(parser, params)
  }

  function AddBands(parser: Parser, params: Params): Fix {
    match BandCount(parser, params)
    case None => Fix(false, params)
    case Some(n) => Fix(true, params["nbnd" := Num((if n * 2 < 24 then 24 else n * 2) as real)])
  }

  /** What a repair comes to; a handler that raises has changed nothing and does not requeue. */
  function Repaired(parser: Parser, params: Params, error: ToolError): Fix {
    match KindOf(error)
    case NotRepairable => Fix(false, params)
    case TooFewBands => AddBands(parser, params)
    case TimedOut => RepairTimeout(parser, params)
    case Convergence => RaiseCutoff(parser, params)
  }

  class QEParamRepairer {
    const parser: Parser

    constructor (host: Parser)
      ensures parser == host
    {
      parser := host;
    }

    /** `repair`; false also stands for a raised error, which the scheduler treats alike. */
    method Repair(node: NodeRun, error: ToolError) returns (requeue: bool)
      modifies node`params
      ensures Fix(requeue, node.params) == Repaired(parser, old(node.params), error)
    {
      requeue := false;
      var kind := KindOf(error);
      if kind == NotRepairable { return; }
      if kind == TooFewBands {
        var current := BandCount(parser, node.params);
        if current.None? { return; }
        var bumped := if current.value * 2 < 24 then 24 else current.value * 2;
        node.params := node.params["nbnd" := Num(bumped as real)];
        return true;
      }
      if kind == TimedOut {
        requeue := ReduceKPoints(node);
        return;
      }
      var current := Cutoff(parser, node.params);
      if current.None? || current.value >= MAX_ECUT { return; }
      node.params := node.params["ecutwfc" := Num(Bumped(current.value))];
      node.params := node.params["ecutrho" := Num(Bumped(current.value) * 8.0)];
      requeue := true;
    }

    /** `_repair_timeout`: band-path sampling first, and then never the mesh; otherwise the mesh. */
    method ReduceKPoints(node: NodeRun) returns (requeue: bool)
      modifies node`params
      ensures Fix(requeue, node.params) == RepairTimeout(parser, old(node.params))
    {
      requeue := false;
      if HasBandPath(node.params) {
        var current := BandPoints(parser, node.params);
        if current.None? || current.value <= MIN_BAND_PATH_POINTS { return; }
        node.params := node.params["nkpoints_bands" := Num(Reduced(current.value) as real)];
        return true;
      }
      var fix := ShrinkMesh(parser, node.params);
      node.params := fix.params;
      requeue := fix.requeue;
    }
  }

  // ---------------------------------------------------------------------------------------- termination

  /** How many times a cutoff can still be raised. */
  function CutoffWork(c: Option<real>): nat {
    if c.None? || c.value >= MAX_ECUT then 0 else 1 + ((MAX_ECUT - c.value) / CUTOFF_BUMP_STEP).Floor
  }

  function BandWork(n: Option<int>): nat {
    if n.None? || n.value <= MIN_BAND_PATH_POINTS then 0 else n.value - MIN_BAND_PATH_POINTS
  }

  function AxisWork(n: real): nat { if n > 2.0 then n.Floor - 1 else 0 }

  function MeshWork(m: Option<(real, real, real)>): nat {
    match m
    case None => 0
    case Some((x, y, z)) => AxisWork(x) + AxisWork(y) + AxisWork(z)
  }

  /** One measure for all repairs but adding bands. */
  function Work(parser: Parser, params: Params): nat {
    CutoffWork(Cutoff(parser, params)) + BandWork(BandPoints(parser, params)) + MeshWork(Mesh(params))
  }

  lemma BumpLightens(c: real)
    requires c < MAX_ECUT
    ensures c < Bumped(c) <= MAX_ECUT && CutoffWork(Some(Bumped(c))) < CutoffWork(Some(c))
  {
    if c + CUTOFF_BUMP_STEP < MAX_ECUT {
      assert (MAX_ECUT - Bumped(c)) / CUTOFF_BUMP_STEP == (MAX_ECUT - c) / CUTOFF_BUMP_STEP - 1.0;
    }
  }

  lemma ReducedBetween(n: int)
    requires n > MIN_BAND_PATH_POINTS
    ensures MIN_BAND_PATH_POINTS <= Reduced(n) < n
  {
    assert (n as real * 0.6).Floor as real <= n as real * 0.6 < n as real;
  }

  lemma HalvedLightens(n: real)
    ensures n > 2.0 ==> 2.0 <= HalvedAxis(n) < n && AxisWork(HalvedAxis(n)) < AxisWork(n)
    ensures n <= 2.0 ==> AxisWork(HalvedAxis(n)) == AxisWork(n)
    ensures 0.0 <= n ==> 0.0 <= HalvedAxis(n) <= n
    ensures n < 0.0 ==> n <= HalvedAxis(n) <= 0.0
    ensures n >= 2.0 ==> HalvedAxis(n) >= 2.0
  {
    var f := n.Floor;
    assert f as real <= n < (f + 1) as real;
    if n < 0.0 { assert (-n).Floor as real <= -n; }
  }

  /** What an accepted convergence repair does: a strictly higher cutoff within the limit, and eight times it. */
  lemma CutoffRepair(parser: Parser, p: Params)
    ensures var fix := RaiseCutoff(parser, p); var q := fix.params;
            && (fix.requeue <==> Cutoff(parser, p).Some? && Cutoff(parser, p).value < MAX_ECUT)
            && (fix.requeue ==>
                  && Cutoff(parser, q).Some? && Cutoff(parser, p).value < Cutoff(parser, q).value <= MAX_ECUT
                  && CutoffWork(Cutoff(parser, q)) < CutoffWork(Cutoff(parser, p))
                  && q["ecutwfc"].Num? && q["ecutrho"] == Num(8.0 * q["ecutwfc"].x)
                  && Others(p, q, "ecutwfc", "ecutrho"))
  {
    var c, q := Cutoff(parser, p), RaiseCutoff(parser, p).params;
    if c.Some? && c.value < MAX_ECUT {
      BumpLightens(c.value);
      // A bump to exactly zero reads back as the default, which is higher still.
      if Bumped(c.value) == 0.0 {
        assert Cutoff(parser, q) == Some(45.0);
        assert CutoffWork(Some(45.0)) == 8;
      }
    }
  }

  // The keys other than `a` and `b` are there, and with the same values, in both maps.
  ghost predicate Others(p: Params, q: Params, a: string, b: string) {
    forall k | k != a && k != b :: (k in p <==> k in q) && (k in p ==> q[k] == p[k])
  }

  /** What an accepted timeout repair does, and when a timeout is repaired at all. */
  lemma BandPathRepair(parser: Parser, p: Params)
    requires HasBandPath(p)
    ensures var fix := RepairTimeout(parser, p); var q := fix.params;
            && (fix.requeue <==> BandPoints(parser, p).Some? && BandPoints(parser, p).value > MIN_BAND_PATH_POINTS)
            && (fix.requeue ==>
                  && BandPoints(parser, q).Some?
                  && MIN_BAND_PATH_POINTS <= BandPoints(parser, q).value < BandPoints(parser, p).value
                  && Others(p, q, "nkpoints_bands", "nkpoints_bands"))
  {
    var n := BandPoints(parser, p);
    if n.Some? && n.value > MIN_BAND_PATH_POINTS { ReducedBetween(n.value); }
  }

  lemma MeshRepair(parser: Parser, p: Params)
    requires !HasBandPath(p)
    ensures var fix := RepairTimeout(parser, p); var q := fix.params;
            && (fix.requeue <==> MeshWork(Mesh(p)) > 0 && AllInts(parser, p["kpoints"].items[3..]))
            && (fix.requeue ==>
                  && Mesh(q).Some? && MeshWork(Mesh(q)) < MeshWork(Mesh(p))
                  && Mesh(q).value ==
                       (HalvedAxis(Mesh(p).value.0), HalvedAxis(Mesh(p).value.1), HalvedAxis(Mesh(p).value.2))
                  && Others(p, q, "kpoints", "kpoints"))
  {
    if Mesh(p).Some? {
      HalvedLightens(Mesh(p).value.0);
      HalvedLightens(Mesh(p).value.1);
      HalvedLightens(Mesh(p).value.2);
    }
  }

  lemma BandsRepair(parser: Parser, p: Params)
    ensures var fix := AddBands(parser, p); var q := fix.params;
            && (fix.requeue <==> BandCount(parser, p).Some?)
            && (fix.requeue ==>
                  && BandCount(parser, q).Some? && BandCount(parser, q).value >= 24
                  && BandCount(parser, q).value >= 2 * BandCount(parser, p).value
                  && Others(p, q, "nbnd", "nbnd"))
  {
  }

  // What the measure reads: cutoff, band path and mesh.
  lemma SameReading(parser: Parser, p: Params, q: Params, a: string, b: string)
    requires Others(p, q, a, b)
    ensures a != "ecutwfc" && b != "ecutwfc" ==> Cutoff(parser, q) == Cutoff(parser, p)
    ensures a != "nkpoints_bands" && b != "nkpoints_bands" ==> BandPoints(parser, q) == BandPoints(parser, p)
    ensures a != "kpoints" && b != "kpoints" ==> Mesh(q) == Mesh(p)
  {
  }

  /** Every accepted repair but adding bands lowers the measure; nothing ever raises it. */
  lemma RepairLightens(parser: Parser, p: Params, error: ToolError)
    ensures var fix := Repaired(parser, p, error);
            && (!fix.requeue ==> fix.params == p)
            && (fix.requeue && KindOf(error) != TooFewBands ==> Work(parser, fix.params) < Work(parser, p))
            && Work(parser, fix.params) <= Work(parser, p)
  {
    var q := Repaired(parser, p, error).params;
    match KindOf(error)
    case NotRepairable =>
    case TooFewBands =>
      BandsRepair(parser, p);
      if AddBands(parser, p).requeue { SameReading(parser, p, q, "nbnd", "nbnd"); }
    case TimedOut => TimeoutLightens(parser, p);
    case Convergence =>
      CutoffRepair(parser, p);
      if RaiseCutoff(parser, p).requeue { SameReading(parser, p, q, "ecutwfc", "ecutrho"); }
  }

  lemma TimeoutLightens(parser: Parser, p: Params)
    ensures var fix := RepairTimeout(parser, p);
            if fix.requeue then Work(parser, fix.params) < Work(parser, p) else fix.params == p
  {
    var fix := RepairTimeout(parser, p);
    if HasBandPath(p) {
      BandPathRepair(parser, p);
      if fix.requeue { SameReading(parser, p, fix.params, "nkpoints_bands", "nkpoints_bands"); }
    } else {
      MeshRepair(parser, p);
      if fix.requeue { SameReading(parser, p, fix.params, "kpoints", "kpoints"); }
    }
  }

  /** The parameters after a whole sequence of failures. */
  function After(parser: Parser, p: Params, errors: seq<ToolError>): Params
    decreases |errors|
  {
    if errors == [] then p else After(parser, Repaired(parser, p, errors[0]).params, errors[1..])
  }

  /** How many of a sequence of failures are repaired otherwise than by adding bands. */
  function Accepted(parser: Parser, p: Params, errors: seq<ToolError>): nat
    decreases |errors|
  {
    if errors == [] then 0
    else
      var fix := Repaired(parser, p, errors[0]);
      (if fix.requeue && KindOf(errors[0]) != TooFewBands then 1 else 0) + Accepted(parser, fix.params, errors[1..])
  }

  /** Over any sequence of failures, of all kinds mixed, only so many repairs are accepted as the measure allows. */
  lemma {:induction false} RepairsTerminate(parser: Parser, p: Params, errors: seq<ToolError>)
    ensures Accepted(parser, p, errors) + Work(parser, After(parser, p, errors)) <= Work(parser, p)
    decreases |errors|
  {
    if errors != [] {
      RepairLightens(parser, p, errors[0]);
      RepairsTerminate(parser, Repaired(parser, p, errors[0]).params, errors[1..]);
    }
  }

  // ---------------------------------------------------------------------------------------- bounds over a sequence

  predicate AxisMilder(before: real, after: real) {
    && (before >= 0.0 ==> 0.0 <= after <= before)
    && (before < 0.0 ==> before <= after <= 0.0)
    && (before >= 2.0 ==> after >= 2.0)
  }

  ghost predicate CutoffMilder(before: Option<real>, after: Option<real>) {
    if before.None? then after.None?
    else
      && after.Some? && before.value <= after.value
      && (before.value <= MAX_ECUT ==> after.value <= MAX_ECUT)
      && (before.value > MAX_ECUT ==> after == before)
  }

  ghost predicate BandsMilder(before: Option<int>, after: Option<int>) {
    if before.None? then after.None?
    else
      && after.Some? && after.value <= before.value
      && (before.value >= MIN_BAND_PATH_POINTS ==> after.value >= MIN_BAND_PATH_POINTS)
      && (before.value < MIN_BAND_PATH_POINTS ==> after == before)
  }

  ghost predicate MeshMilder(before: Option<(real, real, real)>, after: Option<(real, real, real)>) {
    if before.None? then after.None?
    else
      && after.Some?
      && AxisMilder(before.value.0, after.value.0)
      && AxisMilder(before.value.1, after.value.1)
      && AxisMilder(before.value.2, after.value.2)
  }

  /** The density cutoff is as it was found, together with the cutoff, or eight times the cutoff. */
  ghost predicate DensityFollows(p: Params, q: Params) {
    || (("ecutrho" in q && "ecutwfc" in q && q["ecutwfc"].Num?) && q["ecutrho"] == Num(8.0 * q["ecutwfc"].x))
    || (forall k | k == "ecutrho" || k == "ecutwfc" :: (k in p <==> k in q) && (k in p ==> q[k] == p[k]))
  }

  ghost predicate Milder(parser: Parser, p: Params, q: Params) {
    && CutoffMilder(Cutoff(parser, p), Cutoff(parser, q))
    && BandsMilder(BandPoints(parser, p), BandPoints(parser, q))
    && MeshMilder(Mesh(p), Mesh(q))
    && DensityFollows(p, q)
  }

  lemma RepairIsMild(parser: Parser, p: Params, error: ToolError)
    ensures Milder(parser, p, Repaired(parser, p, error).params)
  {
    var fix := Repaired(parser, p, error);
    var q := fix.params;
    RepairLightens(parser, p, error);
    if fix.requeue {
      match KindOf(error)
      case TooFewBands =>
        BandsRepair(parser, p);
        SameReading(parser, p, q, "nbnd", "nbnd");
      case TimedOut => TimeoutIsMild(parser, p);
      case Convergence =>
        CutoffRepair(parser, p);
        SameReading(parser, p, q, "ecutwfc", "ecutrho");
    }
  }

  lemma TimeoutIsMild(parser: Parser, p: Params)
    requires RepairTimeout(parser, p).requeue
    ensures Milder(parser, p, RepairTimeout(parser, p).params)
  {
    var q := RepairTimeout(parser, p).params;
    if HasBandPath(p) {
      BandPathRepair(parser, p);
      SameReading(parser, p, q, "nkpoints_bands", "nkpoints_bands");
    } else {
      MeshRepair(parser, p);
      SameReading(parser, p, q, "kpoints", "kpoints");
      HalvedLightens(Mesh(p).value.0);
      HalvedLightens(Mesh(p).value.1);
      HalvedLightens(Mesh(p).value.2);
    }
  }

  /** Over any failures: the cutoff only rises, band points and axes only fall, each within its floor or ceiling. */
  lemma {:induction false} RepairsStayInBounds(parser: Parser, p: Params, errors: seq<ToolError>)
    ensures Milder(parser, p, After(parser, p, errors))
    decreases |errors|
  {
    if errors != [] {
      var q := Repaired(parser, p, errors[0]).params;
      RepairIsMild(parser, p, errors[0]);
      RepairsStayInBounds(parser, q, errors[1..]);
    }
  }

  // ---------------------------------------------------------------------------------------- the two ends

  function Power2(n: nat): nat { if n == 0 then 1 else 2 * Power2(n - 1) }

  /** `n` failures, every one of which is repaired. */
  predicate AllRepaired(parser: Parser, p: Params, error: ToolError, n: nat)
    decreases n
  {
    n == 0 || (Repaired(parser, p, error).requeue
        && AllRepaired(parser, Repaired(parser, p, error).params, error, n - 1))
  }

  function Repeated(error: ToolError, n: nat): seq<ToolError> { seq(n, _ => error) }

  /** Adding bands has no end of its own: every such failure is repaired, and the count doubles each time. */
  lemma {:induction false} AddingBandsNeverStops(parser: Parser, p: Params, error: ToolError, n: nat)
    requires KindOf(error) == TooFewBands && BandCount(parser, p).Some?
    ensures AllRepaired(parser, p, error, n)
    ensures var q := After(parser, p, Repeated(error, n));
            n > 0 ==> BandCount(parser, q).Some? && BandCount(parser, q).value >= 24 * Power2(n - 1)
    decreases n
  {
    if n > 0 {
      var q := Repaired(parser, p, error).params;
      BandsRepair(parser, p);
      AddingBandsNeverStops(parser, q, error, n - 1);
      assert Repeated(error, n)[1..] == Repeated(error, n - 1);
      DoublingFrom(parser, q, error, n - 1, 24);
    }
  }

  lemma {:induction false} DoublingFrom(parser: Parser, p: Params, error: ToolError, n: nat, floor: nat)
    requires KindOf(error) == TooFewBands && BandCount(parser, p).Some? && BandCount(parser, p).value >= floor
    ensures var q := After(parser, p, Repeated(error, n));
            BandCount(parser, q).Some? && BandCount(parser, q).value >= floor * Power2(n)
    decreases n
  {
    if n > 0 {
      BandsRepair(parser, p);
      assert Repeated(error, n)[1..] == Repeated(error, n - 1);
      DoublingFrom(parser, Repaired(parser, p, error).params, error, n - 1, 2 * floor);
      PowerStep(floor, n);
    }
  }

  lemma PowerStep(floor: nat, n: nat)
    requires n > 0
    ensures 2 * floor * Power2(n - 1) == floor * Power2(n)
  {
  }

  /** Once the measure is spent, the next failure the handler takes for itself fails the node for good. */
  lemma SpentHandlerFails(parser: Parser, spec: NodeSpec, repairers: seq<string>, n: Node, error: ToolError)
    requires WantsRepair(spec, repairers, n, error) && KindOf(error) != TooFewBands && Work(parser, n.params) == 0
    ensures FinishNode(spec, repairers, n, Failure(error), Repaired(parser, n.params, error)).state == Failed
  {
    RepairLightens(parser, n.params, error);
  }
}
