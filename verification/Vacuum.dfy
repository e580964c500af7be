/** Vacuum detection: an axis with an empty arc of more than half the cell is not periodic. */
module Vacuum {

  predicate InCell(xs: seq<real>) { forall x | x in xs :: 0.0 <= x < 1.0 }

  predicate Ascending(f: seq<real>) { forall i, j | 0 <= i < j < |f| :: f[i] <= f[j] }

  function Insert(x: real, f: seq<real>): seq<real> {
    if f == [] || x <= f[0] then [x] + f else [f[0]] + Insert(x, f[1..])
  }

  function Sorted(xs: seq<real>): seq<real> {
    if xs == [] then [] else Insert(xs[0], Sorted(xs[1..]))
  }

  /** The distances between neighbours around the cell; the last one closes the circle. */
  function Gaps(f: seq<real>): (gaps: seq<real>)
    ensures |gaps| == |f|
  {
    seq(|f|, k requires 0 <= k < |f| => if k + 1 < |f| then f[k + 1] - f[k] else f[0] + 1.0 - f[k])
  }

  function Max(s: seq<real>): (m: real)
    requires s != []
    ensures m in s && forall x | x in s :: x <= m
  {
    if |s| == 1 then s[0]
    else
      var rest := Max(s[1..]);
      assert s == [s[0]] + s[1..];
      if rest < s[0] then s[0] else rest
  }

  function LargestGap(xs: seq<real>): real
    requires xs != []
  {
    SortedSame(xs);
    Max(Gaps(Sorted(xs)))
  }

  const MIN_AXIS := 8.0

  /** Whether an axis stays periodic. */
  predicate Periodic(length: real, xs: seq<real>) {
    length < MIN_AXIS || |xs| < 2 || LargestGap(xs) <= 0.5
  }

  type Position = (real, real, real)

  function Column(atoms: seq<Position>, axis: int): seq<real>
    requires 0 <= axis < 3
  {
    seq(|atoms|, k requires 0 <= k < |atoms| =>
      if axis == 0 then atoms[k].0 else if axis == 1 then atoms[k].1 else atoms[k].2)
  }

  /** `read_structure` once the file is read: the flag of each axis, from its length and the wrapped coordinates. */
  method DetectVacuum(lengths: seq<real>, atoms: seq<Position>) returns (pbc: seq<bool>)
    requires |lengths| == 3
    ensures |pbc| == 3 && forall i | 0 <= i < 3 :: pbc[i] == Periodic(lengths[i], Column(atoms, i))
  {
    pbc := [true, true, true];
    for i := 0 to 3
      invariant |pbc| == 3 && forall k | 0 <= k < 3 :: pbc[k] == (k < i ==> Periodic(lengths[k], Column(atoms, k)))
    {
      if lengths[i] < MIN_AXIS || |atoms| < 2 { continue; }
      var gap := LargestGap(Column(atoms, i));
      if gap > 0.5 { pbc := pbc[i := false]; }
    }
  }

  /** Column `axis` holds the coordinate of that axis, atom by atom. */
  lemma ColumnHolds(atoms: seq<Position>)
    ensures forall axis | 0 <= axis < 3 :: |Column(atoms, axis)| == |atoms|
    ensures forall k | 0 <= k < |atoms| ::
              atoms[k] == (Column(atoms, 0)[k], Column(atoms, 1)[k], Column(atoms, 2)[k])
  {
  }

  // ---------------------------------------------------------------------------------------- sorting

  lemma {:induction false} InsertSame(x: real, f: seq<real>)
    ensures multiset(Insert(x, f)) == multiset(f) + multiset{x}
    ensures forall y :: y in Insert(x, f) <==> y == x || y in f
  {
    if f != [] && x > f[0] {
      InsertSame(x, f[1..]);
      assert f == [f[0]] + f[1..] && Insert(x, f) == [f[0]] + Insert(x, f[1..]);
    } else {
      assert Insert(x, f) == [x] + f;
    }
  }

  lemma {:induction false} InsertSorted(x: real, f: seq<real>)
    requires Ascending(f)
    ensures Ascending(Insert(x, f))
  {
    if f != [] && x > f[0] {
      var rest := Insert(x, f[1..]);
      InsertSorted(x, f[1..]);
      InsertSame(x, f[1..]);
      forall k | 0 <= k < |rest|
        ensures f[0] <= rest[k]
      {
        assert rest[k] in rest;
        assert rest[k] == x || rest[k] in f[1..];
      }
      AscendingCons(f[0], rest);
    }
  }

  lemma AscendingCons(x: real, f: seq<real>)
    requires Ascending(f) && forall k | 0 <= k < |f| :: x <= f[k]
    ensures Ascending([x] + f)
  {
  }

  lemma {:induction false} SortedSame(xs: seq<real>)
    ensures Ascending(Sorted(xs)) && multiset(Sorted(xs)) == multiset(xs) && |Sorted(xs)| == |xs|
    ensures forall x :: x in Sorted(xs) <==> x in xs
  {
    if xs != [] {
      SortedSame(xs[1..]);
      InsertSorted(xs[0], Sorted(xs[1..]));
      InsertSame(xs[0], Sorted(xs[1..]));
      assert xs == [xs[0]] + xs[1..];
      assert |multiset(Sorted(xs))| == |multiset(xs)|;
    }
  }

  // ---------------------------------------------------------------------------------------- the circle

  function Sum(s: seq<real>): real {
    if s == [] then 0.0 else Sum(s[..|s| - 1]) + s[|s| - 1]
  }

  lemma {:induction false} PartialSum(f: seq<real>, k: nat)
    requires k < |f|
    ensures Sum(Gaps(f)[..k]) == f[k] - f[0]
  {
    if k > 0 {
      PartialSum(f, k - 1);
      assert Gaps(f)[..k][..k - 1] == Gaps(f)[..k - 1];
    }
  }

  /** The gaps are not negative, sum to the whole cell, and at most one exceeds half of it. */
  lemma GapsPartitionTheCell(xs: seq<real>)
    requires xs != [] && InCell(xs)
    ensures var gaps := Gaps(Sorted(xs));
            && |gaps| == |xs| && Sum(gaps) == 1.0
            && (forall g | g in gaps :: 0.0 <= g <= 1.0)
            && (forall i, j | 0 <= i < j < |gaps| :: !(gaps[i] > 0.5 && gaps[j] > 0.5))
  {
    SortedSame(xs);
    var f := Sorted(xs);
    SumOfGaps(f);
    GapBounds(f);
  }

  lemma SumOfGaps(f: seq<real>)
    requires f != []
    ensures Sum(Gaps(f)) == 1.0
  {
    PartialSum(f, |f| - 1);
  }

  lemma GapBounds(f: seq<real>)
    requires f != [] && Ascending(f) && InCell(f)
    ensures forall g | g in Gaps(f) :: 0.0 <= g <= 1.0
    ensures forall i, j | 0 <= i < j < |f| :: Gaps(f)[i] + Gaps(f)[j] <= 1.0
  {
    var n := |f|;
    assert f[0] in f && f[n - 1] in f;
    forall k | 0 <= k < n
      ensures 0.0 <= Gaps(f)[k] <= 1.0
    {
      assert f[k] in f && (k + 1 < n ==> f[k + 1] in f);
    }
    forall i, j | 0 <= i < j < n
      ensures Gaps(f)[i] + Gaps(f)[j] <= 1.0
    {
      assert f[0] <= f[i] || i == 0;
      assert f[i + 1] <= f[j] || i + 1 == j;
    }
  }

  /** The way from `x` clockwise to `y`, a whole turn when they coincide. */
  function Clockwise(x: real, y: real): real { if y > x then y - x else y - x + 1.0 }

  /** Some atom has nothing within `g` after it, and no atom has more room than `g`: no order is involved. */
  ghost predicate LargestArc(xs: seq<real>, g: real) {
    && (exists x | x in xs :: FreeAfter(xs, x, g))
    && (forall x {:trigger NextWithin(xs, x, g)} | x in xs :: NextWithin(xs, x, g))
  }

  ghost predicate NextWithin(xs: seq<real>, x: real, g: real) {
    exists y | y in xs :: Clockwise(x, y) <= g
  }

  ghost predicate FreeAfter(xs: seq<real>, x: real, g: real) {
    forall y | y in xs :: Clockwise(x, y) >= g
  }

  lemma LargestArcUnique(xs: seq<real>, g: real, h: real)
    requires LargestArc(xs, g) && LargestArc(xs, h)
    ensures g == h
  {
    var x :| x in xs && FreeAfter(xs, x, g);
    assert NextWithin(xs, x, h);
    var u :| u in xs && FreeAfter(xs, u, h);
    assert NextWithin(xs, u, g);
  }

  // From each atom the next different one is a gap away.
  lemma {:induction false} NextAtom(f: seq<real>, k: nat) returns (m: nat)
    requires Ascending(f) && k < |f|
    ensures m < |f| && Clockwise(f[k], f[m]) in Gaps(f)
    decreases |f| - k
  {
    if k + 1 == |f| {
      m := 0;
      assert Gaps(f)[k] == Clockwise(f[k], f[0]);
    } else if f[k] < f[k + 1] {
      m := k + 1;
      assert Gaps(f)[k] == Clockwise(f[k], f[m]);
    } else {
      assert f[k] == f[k + 1];
      m := NextAtom(f, k + 1);
    }
  }

  // Nothing lies inside a gap.
  lemma GapIsFree(f: seq<real>, k: nat)
    requires Ascending(f) && InCell(f) && k < |f| && Gaps(f)[k] > 0.0
    ensures FreeAfter(f, f[k], Gaps(f)[k])
  {
    forall m | 0 <= m < |f|
      ensures Clockwise(f[k], f[m]) >= Gaps(f)[k]
    {
      assert f[m] in f && f[k] in f && (k + 1 < |f| ==> f[k + 1] in f);
      assert m > k + 1 ==> f[k + 1] <= f[m];
      assert m > 0 ==> f[0] <= f[m];
    }
  }

  lemma NextIsNear(f: seq<real>, x: real)
    requires f != [] && Ascending(f) && x in f
    ensures NextWithin(f, x, Max(Gaps(f)))
  {
    var j :| 0 <= j < |f| && f[j] == x;
    var m := NextAtom(f, j);
    assert f[m] in f;
  }

  lemma SortedArc(f: seq<real>)
    requires f != [] && Ascending(f) && InCell(f)
    ensures LargestArc(f, Max(Gaps(f)))
  {
    var gaps := Gaps(f);
    var g := Max(gaps);
    assert gaps[|f| - 1] in gaps && f[|f| - 1] in f && f[0] in f;
    var k :| 0 <= k < |f| && gaps[k] == g;
    GapIsFree(f, k);
    assert f[k] in f;
    forall x | x in f { NextIsNear(f, x); }
  }

  lemma SameAtoms(xs: seq<real>, ys: seq<real>, g: real)
    requires LargestArc(xs, g) && forall x :: x in xs <==> x in ys
    ensures LargestArc(ys, g)
  {
    var x :| x in xs && FreeAfter(xs, x, g);
    assert FreeAfter(ys, x, g);
    forall z | z in ys
      ensures NextWithin(ys, z, g)
    {
      assert NextWithin(xs, z, g);
    }
  }

  /** The largest gap, found by sorting, is the largest empty arc. */
  lemma LargestGapIsArc(xs: seq<real>)
    requires xs != [] && InCell(xs)
    ensures LargestArc(xs, LargestGap(xs))
  {
    SortedSame(xs);
    SortedArc(Sorted(xs));
    SameAtoms(Sorted(xs), xs, LargestGap(xs));
  }

  // ---------------------------------------------------------------------------------------- shifting

  function Wrapped(x: real): real { x - x.Floor as real }

  function Shifted(xs: seq<real>, t: real): seq<real> {
    seq(|xs|, k requires 0 <= k < |xs| => Wrapped(xs[k] + t))
  }

  lemma ShiftKeepsClockwise(x: real, y: real, t: real)
    requires 0.0 <= x < 1.0 && 0.0 <= y < 1.0
    ensures 0.0 <= Wrapped(x + t) < 1.0
    ensures Clockwise(Wrapped(x + t), Wrapped(y + t)) == Clockwise(x, y)
  {
    var a, b := (x + t).Floor, (y + t).Floor;
    assert (a - b) as real == a as real - b as real;
    assert -1 <= a - b <= 1;
  }

  lemma ShiftKeepsDistances(xs: seq<real>, t: real, k: nat, m: nat)
    requires InCell(xs) && k < |xs| && m < |xs|
    ensures Clockwise(Shifted(xs, t)[k], Shifted(xs, t)[m]) == Clockwise(xs[k], xs[m])
  {
    assert xs[k] in xs && xs[m] in xs;
    ShiftKeepsClockwise(xs[k], xs[m], t);
  }

  lemma ShiftKeepsFree(xs: seq<real>, t: real, k: nat, g: real)
    requires InCell(xs) && k < |xs| && FreeAfter(xs, xs[k], g)
    ensures FreeAfter(Shifted(xs, t), Shifted(xs, t)[k], g)
  {
    forall m | 0 <= m < |xs|
      ensures Clockwise(Shifted(xs, t)[k], Shifted(xs, t)[m]) >= g
    {
      ShiftKeepsDistances(xs, t, k, m);
      assert xs[m] in xs;
    }
  }

  lemma ShiftKeepsNext(xs: seq<real>, t: real, k: nat, g: real)
    requires InCell(xs) && k < |xs| && NextWithin(xs, xs[k], g)
    ensures NextWithin(Shifted(xs, t), Shifted(xs, t)[k], g)
  {
    var y :| y in xs && Clockwise(xs[k], y) <= g;
    var m :| 0 <= m < |xs| && xs[m] == y;
    ShiftKeepsDistances(xs, t, k, m);
    assert Shifted(xs, t)[m] in Shifted(xs, t);
  }

  lemma ShiftKeepsArc(xs: seq<real>, t: real, g: real)
    requires InCell(xs) && LargestArc(xs, g)
    ensures LargestArc(Shifted(xs, t), g)
  {
    var ys := Shifted(xs, t);
    var x :| x in xs && FreeAfter(xs, x, g);
    var i :| 0 <= i < |xs| && xs[i] == x;
    ShiftKeepsFree(xs, t, i, g);
    assert ys[i] in ys;
    forall y | y in ys
      ensures NextWithin(ys, y, g)
    {
      var k :| 0 <= k < |ys| && ys[k] == y;
      assert xs[k] in xs && NextWithin(xs, xs[k], g);
      ShiftKeepsNext(xs, t, k, g);
    }
  }

  /** Moving all atoms along the axis, by any amount and modulo the cell, changes neither gap nor decision. */
  lemma ShiftKeepsDecision(xs: seq<real>, t: real, length: real)
    requires InCell(xs)
    ensures InCell(Shifted(xs, t))
    ensures xs != [] ==> LargestGap(Shifted(xs, t)) == LargestGap(xs)
    ensures Periodic(length, Shifted(xs, t)) == Periodic(length, xs)
  {
    forall k | 0 <= k < |xs|
      ensures 0.0 <= Shifted(xs, t)[k] < 1.0
    {
      assert xs[k] in xs;
      ShiftKeepsClockwise(xs[k], xs[k], t);
    }
    if xs != [] {
      LargestGapIsArc(xs);
      ShiftKeepsArc(xs, t, LargestGap(xs));
      LargestGapIsArc(Shifted(xs, t));
      LargestArcUnique(Shifted(xs, t), LargestGap(xs), LargestGap(Shifted(xs, t)));
    }
  }

  // ---------------------------------------------------------------------------------------- occupied arc

  /** How far clockwise of `s` the atom `y` lies. */
  function Along(s: real, y: real): real { if y >= s then y - s else y - s + 1.0 }

  /** All atoms lie within less than half the cell, clockwise from one of them. */
  ghost predicate WithinHalf(xs: seq<real>) {
    exists s | s in xs :: FitsAfter(xs, s)
  }

  ghost predicate FitsAfter(xs: seq<real>, s: real) {
    forall y | y in xs :: Along(s, y) < 0.5
  }

  // The atom furthest along from `s`.
  lemma {:induction false} Furthest(xs: seq<real>, s: real) returns (x: real)
    requires xs != []
    ensures x in xs && forall y | y in xs :: Along(s, y) <= Along(s, x)
    decreases |xs|
  {
    x := xs[0];
    assert xs == [xs[0]] + xs[1..];
    if |xs| > 1 {
      var far := Furthest(xs[1..], s);
      if Along(s, far) > Along(s, x) { x := far; }
    }
  }

  lemma WideArcFits(xs: seq<real>, g: real)
    requires InCell(xs) && LargestArc(xs, g) && g > 0.5
    ensures WithinHalf(xs)
  {
    var x :| x in xs && FreeAfter(xs, x, g);
    assert NextWithin(xs, x, g);
    var s :| s in xs && Clockwise(x, s) <= g;
    forall y | y in xs
      ensures Along(s, y) < 0.5
    {
      assert Clockwise(x, y) >= g && Clockwise(x, s) >= g;
    }
    assert FitsAfter(xs, s);
  }

  lemma FitLeavesWideArc(xs: seq<real>, g: real)
    requires InCell(xs) && LargestArc(xs, g) && WithinHalf(xs)
    ensures g > 0.5
  {
    var from :| from in xs && FitsAfter(xs, from);
    var far := Furthest(xs, from);
    assert NextWithin(xs, far, g);
    var y :| y in xs && Clockwise(far, y) <= g;
    assert Along(from, y) <= Along(from, far) < 0.5;
  }

  /** An axis loses periodicity exactly when it is at least 8 long and several atoms fill less than half of it. */
  lemma VacuumIffWithinHalf(xs: seq<real>, length: real)
    requires InCell(xs)
    ensures !Periodic(length, xs) <==> length >= 8.0 && |xs| >= 2 && WithinHalf(xs)
  {
    if |xs| >= 2 {
      LargestGapIsArc(xs);
      if LargestGap(xs) > 0.5 { WideArcFits(xs, LargestGap(xs)); }
      if WithinHalf(xs) { FitLeavesWideArc(xs, LargestGap(xs)); }
    }
  }

  /** Along axis `axis`, all atoms lie within half a cell behind atom `first`, around the cell. */
  ghost predicate SlabFrom(atoms: seq<Position>, axis: int, first: int)
    requires 0 <= axis < 3 && 0 <= first < |atoms|
  {
    forall k | 0 <= k < |atoms| ::
      var x, y := Coordinate(atoms[first], axis), Coordinate(atoms[k], axis);
      0.0 <= y - x < 0.5 || y - x < -0.5
  }

  function Coordinate(p: Position, axis: int): real { if axis == 0 then p.0 else if axis == 1 then p.1 else p.2 }

  /** The flag of an axis is false exactly for a long axis along which several atoms lie within half the cell. */
  lemma AxisDecision(lengths: seq<real>, atoms: seq<Position>, axis: int)
    requires |lengths| == 3 && 0 <= axis < 3
    requires forall k | 0 <= k < |atoms| :: 0.0 <= Coordinate(atoms[k], axis) < 1.0
    ensures !Periodic(lengths[axis], Column(atoms, axis)) <==>
            lengths[axis] >= 8.0 && |atoms| >= 2 && exists first | 0 <= first < |atoms| :: SlabFrom(atoms, axis, first)
  {
    var xs := Column(atoms, axis);
    forall k | 0 <= k < |atoms| ensures xs[k] == Coordinate(atoms[k], axis) && xs[k] in xs { }
    VacuumIffWithinHalf(xs, lengths[axis]);
    forall first | 0 <= first < |atoms|
      ensures FitsAfter(xs, xs[first]) <==> SlabFrom(atoms, axis, first)
    {
      SlabIsFit(atoms, axis, first);
    }
    if WithinHalf(xs) {
      var s :| s in xs && FitsAfter(xs, s);
      var first :| 0 <= first < |xs| && xs[first] == s;
    }
  }

  lemma SlabIsFit(atoms: seq<Position>, axis: int, first: int)
    requires 0 <= axis < 3 && 0 <= first < |atoms|
    requires forall k | 0 <= k < |atoms| :: 0.0 <= Coordinate(atoms[k], axis) < 1.0
    ensures FitsAfter(Column(atoms, axis), Column(atoms, axis)[first]) <==> SlabFrom(atoms, axis, first)
  {
    var xs := Column(atoms, axis);
    forall k | 0 <= k < |atoms|
      ensures xs[k] in xs && (Along(xs[first], xs[k]) < 0.5 <==>
              var x, y := Coordinate(atoms[first], axis), Coordinate(atoms[k], axis);
              0.0 <= y - x < 0.5 || y - x < -0.5)
    {
    }
  }
}
