/** What the tables of the bond analysis hold, in terms of the neighbour candidates and the element symbols only. */
module BondTables {
  import opened Bonds

  // ------------------------------------------------------------------------------------ bonds

  /** `y` is `x`, or `x` seen from its other end: the atoms swapped and the offset negated. */
  ghost predicate SameBond(x: Image, y: Image) {
    || y == x
    || (y.i == x.j && y.j == x.i && y.off.0 == -x.off.0 && y.off.1 == -x.off.1 && y.off.2 == -x.off.2)
  }

  /** A candidate brings a bond unless an earlier one is the same bond; bonds keep the order of the candidates. */
  lemma NextBond(cs: seq<Candidate>, c: Candidate)
    ensures FirstSeen([]) == []
    ensures FirstSeen(cs + [c]) ==
              if exists x :: x in cs && SameBond(x.image, c.image) then FirstSeen(cs) else FirstSeen(cs) + [c]
  {
    FirstSeenKeys(cs);
    assert (cs + [c])[..|cs|] == cs;
    forall x | x in cs
      ensures Key(x.image) == Key(c.image) <==> SameBond(x.image, c.image)
    {
      KeyIdentifiesReversals(x.image, c.image);
    }
    if Key(c.image) in Keys(cs) {
      var x :| x in cs && Key(x.image) == Key(c.image);
      assert SameBond(x.image, c.image);
    }
  }

  /** A bond names the two atoms of its candidate, the smaller first, and has its length. */
  lemma BondNames(cs: seq<Candidate>, k: nat)
    requires k < |cs|
    ensures |BondsOf(cs)| == |cs|
    ensures var b, c := BondsOf(cs)[k], cs[k];
            b.i <= b.j && b.d == c.d && {b.i, b.j} == {c.image.i, c.image.j}
  {
  }

  /** The neighbours of an atom are the candidates that leave it, in their order. */
  lemma {:induction false} NeighboursJoin(a: seq<Candidate>, b: seq<Candidate>, i: nat)
    ensures NeighboursOf(a + b, i) == NeighboursOf(a, i) + NeighboursOf(b, i)
    decreases |b|
  {
    if b == [] {
      assert a + b == a;
    } else {
      NeighboursJoin(a, b[..|b| - 1], i);
      assert (a + b)[..|a + b| - 1] == a + b[..|b| - 1];
    }
  }

  lemma NeighboursOne(c: Candidate, i: nat)
    ensures NeighboursOf([], i) == [] && NeighboursOf([c], i) == if c.image.i == i then [c] else []
  {
    assert [c][..0] == [];
  }

  // ------------------------------------------------------------------------------------ labels

  /** Dictionary order by character codes: `a` is a proper prefix of `b`, or smaller where they first differ. */
  ghost predicate Before(a: string, b: string) {
    exists k :: DiffersAt(a, b, k)
  }

  ghost predicate DiffersAt(a: string, b: string, k: int) {
    && 0 <= k <= |a| && k < |b| && (forall m | 0 <= m < k :: a[m] == b[m])
    && (k == |a| || a[k] < b[k])
  }

  lemma {:induction false} OrderMeans(a: string, b: string)
    ensures StringLess(a, b) <==> Before(a, b)
    decreases |a|
  {
    if b != "" && (a == "" || a[0] != b[0]) {
      assert DiffersAt(a, b, 0) <==> a == "" || a[0] < b[0];
    } else if b != "" {
      OrderMeans(a[1..], b[1..]);
      if k :| DiffersAt(a[1..], b[1..], k) {
        forall m | 0 <= m < k + 1 ensures a[m] == b[m] { assert m > 0 ==> a[1..][m - 1] == b[1..][m - 1]; }
        assert DiffersAt(a, b, k + 1);
      }
      if k :| DiffersAt(a, b, k) { assert DiffersAt(a[1..], b[1..], k - 1); }
    }
  }

  lemma {:induction false} OrderIsTotal(a: string, b: string)
    ensures !(StringLess(a, b) && StringLess(b, a)) && (a != b ==> StringLess(a, b) || StringLess(b, a))
    decreases |a|
  {
    if a != "" && b != "" && a[0] == b[0] {
      OrderIsTotal(a[1..], b[1..]);
      assert a == [a[0]] + a[1..] && b == [b[0]] + b[1..];
    }
  }

  /** A pair is labelled by its two symbols in dictionary order, whichever atom comes first. */
  lemma PairLabel(a: string, b: string)
    ensures PairName(a, b) == PairName(b, a)
    ensures Before(a, b) || a == b ==> PairName(a, b) == a + "-" + b
    ensures Before(a, b) || Before(b, a) || a == b
  {
    OrderMeans(a, b);
    OrderMeans(b, a);
    OrderIsTotal(a, b);
  }

  /** `name` is the pair label of the symbols `a` and `b`. */
  ghost predicate LabelsPair(name: string, a: string, b: string) {
    || ((Before(a, b) || a == b) && name == a + "-" + b)
    || (Before(b, a) && name == b + "-" + a)
  }

  lemma LabelMeans(name: string, a: string, b: string)
    ensures PairName(a, b) == name <==> LabelsPair(name, a, b)
  {
    PairLabel(a, b);
    PairLabel(b, a);
    OrderMeans(a, b);
    OrderMeans(b, a);
    OrderIsTotal(a, b);
  }

  // ------------------------------------------------------------------------------------ groups

  lemma {:induction false} ValuesJoin(a: seq<(string, real)>, b: seq<(string, real)>, key: string)
    ensures ValuesUnder(a + b, key) == ValuesUnder(a, key) + ValuesUnder(b, key)
    decreases |b|
  {
    if b == [] {
      assert a + b == a;
    } else {
      ValuesJoin(a, b[..|b| - 1], key);
      assert (a + b)[..|a + b| - 1] == a + b[..|b| - 1];
    }
  }

  lemma ValuesOne(name: string, v: real, key: string)
    ensures ValuesUnder([], key) == [] && ValuesUnder([(name, v)], key) == if name == key then [v] else []
  {
    assert [(name, v)][..0] == [];
  }

  lemma UnderHolds(most: seq<real>, last: real, v: real)
    ensures v in most + [last] <==> v in most || v == last
  {
  }

  lemma {:induction false} ValuesHold(entries: seq<(string, real)>, key: string, v: real)
    ensures v in ValuesUnder(entries, key) <==> (key, v) in entries
    decreases |entries|
  {
    if entries != [] {
      var most, last := entries[..|entries| - 1], entries[|entries| - 1];
      ValuesHold(most, key, v);
      UnderHolds(ValuesUnder(most, key), last.1, v);
      assert entries == most + [last];
    }
  }

  /** A group holds exactly the values entered under its label. */
  lemma GroupHolds(entries: seq<(string, real)>, key: string, v: real)
    ensures (key in Grouped(entries) && v in Grouped(entries)[key]) <==> (key, v) in entries
  {
    GroupedAt(entries, key);
    ValuesHold(entries, key, v);
  }

  /** The length `v` is listed under `name` exactly when a bond of that length joins atoms with that pair label. */
  lemma LengthsListed(symbols: seq<string>, bonds: seq<Bond>, name: string, v: real)
    requires BondsInRange(bonds, |symbols|)
    ensures var table := Grouped(PairEntries(symbols, bonds));
            (name in table && v in table[name]) <==>
              exists b | b in bonds :: b.d == v && LabelsPair(name, symbols[b.i], symbols[b.j])
  {
    var entries := PairEntries(symbols, bonds);
    GroupHolds(entries, name, v);
    forall k | 0 <= k < |bonds|
      ensures bonds[k] in bonds
      ensures entries[k] == (name, v) <==>
                bonds[k].d == v && LabelsPair(name, symbols[bonds[k].i], symbols[bonds[k].j])
    {
      LabelMeans(name, symbols[bonds[k].i], symbols[bonds[k].j]);
    }
  }

  /** A species lists the coordination of each of its atoms. */
  lemma CoordinationsListed(symbols: seq<string>, coord: map<nat, nat>, species: string, v: real)
    requires forall i | 0 <= i < |symbols| :: i in coord
    ensures var table := Grouped(SpeciesEntries(symbols, coord));
            (species in table && v in table[species]) <==>
              exists i | 0 <= i < |symbols| :: symbols[i] == species && v == coord[i] as real
  {
    var entries := SpeciesEntries(symbols, coord);
    GroupHolds(entries, species, v);
    forall i | 0 <= i < |symbols|
      ensures entries[i] == (species, v) <==> symbols[i] == species && v == coord[i] as real
    {
    }
  }

  lemma {:induction false} SumJoins(a: seq<real>, b: seq<real>)
    ensures SumOf(a + b) == SumOf(a) + SumOf(b)
    decreases |b|
  {
    if b == [] {
      assert a + b == a;
    } else {
      SumJoins(a, b[..|b| - 1]);
      assert (a + b)[..|a + b| - 1] == a + b[..|b| - 1];
    }
  }

  lemma SumOne(x: real)
    ensures SumOf([]) == 0.0 && SumOf([x]) == x
  {
    assert [x][..0] == [];
  }

  // ------------------------------------------------------------------------------------ angles

  /**
   * The angle at atom `b` between its neighbours `x` and `y`, `x` listed first and neither closer than 1e-9: named by
   * the three symbols with the centre in the middle.
   */
  ghost predicate AngleAt(s: Shell, b: int, x: int, y: int, name: string, value: real)
    requires ShellOk(s)
  {
    && 0 <= b < |s.symbols| && 0 <= x < y < |s.neighbours[b]|
    && var first, second := s.neighbours[b][x], s.neighbours[b][y];
       && first in s.neighbours[b] && second in s.neighbours[b]
       && first.d >= 0.000000001 && second.d >= 0.000000001
       && name == s.symbols[first.image.j] + "-" + s.symbols[b] + "-" + s.symbols[second.image.j]
       && value == s.angle(first, second)
  }

  lemma {:induction false} RowHolds(s: Shell, b: nat, x: nat, end: nat, name: string, value: real)
    requires ShellOk(s) && b < |s.symbols| && end <= |s.neighbours[b]|
    ensures (name, value) in RowAngles(s, b, x, end) <==> exists y | y < end :: AngleAt(s, b, x, y, name, value)
    decreases end
  {
    if end > x + 1 {
      RowHolds(s, b, x, end - 1, name, value);
      assert s.neighbours[b][x] in s.neighbours[b] && s.neighbours[b][end - 1] in s.neighbours[b];
      assert (if Degenerate(s, b, x, end - 1) then false else Triplet(s, b, x, end - 1) == (name, value)) <==>
             AngleAt(s, b, x, end - 1, name, value);
    }
  }

  ghost predicate AngleIn(s: Shell, b: int, x: int, name: string, value: real)
    requires ShellOk(s)
  {
    exists y :: AngleAt(s, b, x, y, name, value)
  }

  lemma {:induction false} CentreHolds(s: Shell, b: nat, end: nat, name: string, value: real)
    requires ShellOk(s) && b < |s.symbols| && end <= |s.neighbours[b]|
    ensures (name, value) in CentreAngles(s, b, end) <==> exists x | 0 <= x < end :: AngleIn(s, b, x, name, value)
  {
    if end > 0 {
      CentreHolds(s, b, end - 1, name, value);
      CentreStep(s, b, end, name, value);
      OneRowMore(s, b, end, name, value);
    }
  }

  lemma CentreStep(s: Shell, b: nat, end: nat, name: string, value: real)
    requires ShellOk(s) && b < |s.symbols| && 0 < end <= |s.neighbours[b]|
    ensures (name, value) in CentreAngles(s, b, end) <==>
            (name, value) in CentreAngles(s, b, end - 1) || AngleIn(s, b, end - 1, name, value)
  {
    WholeRow(s, b, end - 1, name, value);
    InJoin(CentreAngles(s, b, end - 1), RowAngles(s, b, end - 1, |s.neighbours[b]|), (name, value));
  }

  lemma InJoin<T>(a: seq<T>, b: seq<T>, x: T)
    ensures x in a + b <==> x in a || x in b
  {
  }

  lemma OneRowMore(s: Shell, b: nat, end: nat, name: string, value: real)
    requires ShellOk(s) && end > 0
    ensures (exists x | 0 <= x < end :: AngleIn(s, b, x, name, value)) <==>
            AngleIn(s, b, end - 1, name, value) || exists x | 0 <= x < end - 1 :: AngleIn(s, b, x, name, value)
  {
  }

  lemma WholeRow(s: Shell, b: nat, x: nat, name: string, value: real)
    requires ShellOk(s) && b < |s.symbols|
    ensures (name, value) in RowAngles(s, b, x, |s.neighbours[b]|) <==> AngleIn(s, b, x, name, value)
  {
    RowHolds(s, b, x, |s.neighbours[b]|, name, value);
    if y :| AngleAt(s, b, x, y, name, value) { assert y < |s.neighbours[b]|; }
  }

  ghost predicate AngleAround(s: Shell, b: int, name: string, value: real)
    requires ShellOk(s)
  {
    exists x :: AngleIn(s, b, x, name, value)
  }

  lemma WholeCentre(s: Shell, b: nat, name: string, value: real)
    requires ShellOk(s) && b < |s.symbols|
    ensures (name, value) in CentreAngles(s, b, |s.neighbours[b]|) <==> AngleAround(s, b, name, value)
  {
    CentreHolds(s, b, |s.neighbours[b]|, name, value);
    if x :| AngleIn(s, b, x, name, value) {
      var y :| AngleAt(s, b, x, y, name, value);
      assert 0 <= x < |s.neighbours[b]|;
    }
  }

  lemma {:induction false} AnglesHold(s: Shell, end: nat, name: string, value: real)
    requires ShellOk(s) && end <= |s.symbols|
    ensures (name, value) in Angles(s, end) <==> exists b | 0 <= b < end :: AngleAround(s, b, name, value)
  {
    if end > 0 {
      AnglesHold(s, end - 1, name, value);
      WholeCentre(s, end - 1, name, value);
    }
  }

  /** An angle is listed under `name` exactly when two neighbours of some atom give it. */
  lemma AnglesListed(s: Shell, name: string, value: real)
    requires ShellOk(s)
    ensures var table := Grouped(Angles(s, |s.symbols|));
            (name in table && value in table[name]) <==> exists b, x, y :: AngleAt(s, b, x, y, name, value)
  {
    GroupHolds(Angles(s, |s.symbols|), name, value);
    AnglesHold(s, |s.symbols|, name, value);
    if b, x, y :| AngleAt(s, b, x, y, name, value) {
      assert AngleIn(s, b, x, name, value) && AngleAround(s, b, name, value) && 0 <= b < |s.symbols|;
    }
    if b :| 0 <= b < |s.symbols| && AngleAround(s, b, name, value) {
      var x :| AngleIn(s, b, x, name, value);
      var y :| AngleAt(s, b, x, y, name, value);
    }
  }
}
