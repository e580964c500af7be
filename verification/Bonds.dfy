/** Bonds, coordination numbers and bond angles from the periodic neighbour list. */
module Bonds {

  type Offset = (int, int, int)

  /** Atom `i` of the home cell and atom `j` of the cell at `off`. */
  datatype Image = Image(i: nat, j: nat, off: Offset)

  /** One entry of the neighbour list, with the length of the vector between the two. */
  datatype Candidate = Candidate(image: Image, d: real)

  datatype Bond = Bond(i: nat, j: nat, d: real)

  function Neg(o: Offset): Offset { (-o.0, -o.1, -o.2) }

  function Reversed(x: Image): Image { Image(x.j, x.i, Neg(x.off)) }

  predicate LexLess(a: Offset, b: Offset) {
    a.0 < b.0 || (a.0 == b.0 && (a.1 < b.1 || (a.1 == b.1 && a.2 < b.2)))
  }

  /** The deduplication key: the image itself or its reversal. */
  function Key(x: Image): Image {
    if x.i < x.j then x
    else if x.i > x.j then Reversed(x)
    else Image(x.i, x.i, if LexLess(x.off, Neg(x.off)) then Neg(x.off) else x.off)
  }

  /** Two candidates share a key exactly when they are the same bond seen from either end. */
  lemma KeyIdentifiesReversals(x: Image, y: Image)
    ensures Key(x) == Key(y) <==> y == x || y == Reversed(x)
    ensures Key(x) == x || Key(x) == Reversed(x)
    ensures Reversed(Reversed(x)) == x && Key(Key(x)) == Key(x)
    ensures Reversed(x) == x <==> x.i == x.j && x.off == (0, 0, 0)
  {
  }

  function Images(cs: seq<Candidate>): set<Image> { set c | c in cs :: c.image }

  predicate DistinctImages(cs: seq<Candidate>) {
    forall a, b | 0 <= a < b < |cs| :: cs[a].image != cs[b].image
  }

  ghost predicate InRange(cs: seq<Candidate>, n: nat) {
    forall c | c in cs :: c.image.i < n && c.image.j < n
  }

  const MIN_DISTANCE := 0.000001

  /** The same bond seen from its other end. */
  function Back(c: Candidate): Candidate { Candidate(Reversed(c.image), c.d) }

  predicate HasReversal(cs: seq<Candidate>, c: Candidate) { Back(c) in cs }

  /** What the two-way neighbour list without self-interaction guarantees, after the distance filter. */
  ghost predicate FullList(cs: seq<Candidate>, n: nat) {
    && InRange(cs, n) && DistinctImages(cs)
    && (forall c {:trigger HasReversal(cs, c)} | c in cs :: HasReversal(cs, c))
    && (forall c | c in cs :: c.d > MIN_DISTANCE && !(c.image.i == c.image.j && c.image.off == (0, 0, 0)))
  }

  // ---------------------------------------------------------------------------------------- bonds

  /** The entries that bring a new key, in order. */
  function FirstSeen(cs: seq<Candidate>): seq<Candidate> {
    if cs == [] then []
    else
      var most, c := FirstSeen(cs[..|cs| - 1]), cs[|cs| - 1];
      if Key(c.image) in Keys(most) then most else most + [c]
  }

  function Keys(cs: seq<Candidate>): set<Image> { set c | c in cs :: Key(c.image) }

  function BondOf(c: Candidate): Bond { Bond(Key(c.image).i, Key(c.image).j, c.d) }

  function BondsOf(cs: seq<Candidate>): seq<Bond> {
    seq(|cs|, k requires 0 <= k < |cs| => BondOf(cs[k]))
  }

  /** The neighbour list of atom `i`. */
  function NeighboursOf(cs: seq<Candidate>, i: nat): seq<Candidate> {
    if cs == [] then []
    else NeighboursOf(cs[..|cs| - 1], i) + OfAtom(cs[|cs| - 1], i)
  }

  function OfAtom(c: Candidate, i: nat): seq<Candidate> { if c.image.i == i then [c] else [] }

  lemma {:induction false} NeighboursIn(cs: seq<Candidate>, i: nat)
    ensures forall c | c in NeighboursOf(cs, i) :: c in cs && c.image.i == i
    decreases |cs|
  {
    if cs != [] { NeighboursIn(cs[..|cs| - 1], i); }
  }

  /** One entry per atom, all alike. */
  function Filled<T>(n: nat, value: T): (m: map<nat, T>)
    ensures forall i :: i in m <==> 0 <= i < n
    ensures forall i | i in m :: m[i] == value
  {
    if n == 0 then map[] else Filled(n - 1, value)[n - 1 := value]
  }

  lemma SeenStep(cs: seq<Candidate>, k: nat)
    requires k < |cs|
    ensures var before, c := FirstSeen(cs[..k]), cs[k];
            FirstSeen(cs[..k + 1]) == if Key(c.image) in Keys(before) then before else before + [c]
    ensures forall i: nat :: NeighboursOf(cs[..k + 1], i) == NeighboursOf(cs[..k], i) + OfAtom(cs[k], i)
  {
    assert cs[..k + 1][..k] == cs[..k];
  }

  method CollectBonds(n: nat, cs: seq<Candidate>) returns (bonds: seq<Bond>, neighbours: map<nat, seq<Candidate>>)
    requires InRange(cs, n)
    ensures bonds == BondsOf(FirstSeen(cs))
    ensures forall i :: i in neighbours <==> 0 <= i < n
    ensures forall i | 0 <= i < n :: neighbours[i] == NeighboursOf(cs, i)
  {
    bonds := [];
    var seen: set<Image> := {};
    neighbours := Filled(n, []);
    for k := 0 to |cs|
      invariant seen == Keys(FirstSeen(cs[..k])) && bonds == BondsOf(FirstSeen(cs[..k]))
      invariant forall i :: i in neighbours <==> 0 <= i < n
      invariant forall i | 0 <= i < n :: neighbours[i] == NeighboursOf(cs[..k], i)
    {
      var c := cs[k];
      assert c in cs;
      SeenStep(cs, k);
      neighbours := AddNeighbour(n, neighbours, c);
      seen, bonds := AddBond(seen, bonds, c, FirstSeen(cs[..k]));
    }
    assert cs[..|cs|] == cs;
  }

  method AddNeighbour(n: nat, neighbours: map<nat, seq<Candidate>>, c: Candidate)
    returns (more: map<nat, seq<Candidate>>)
    requires (forall i :: i in neighbours <==> 0 <= i < n) && c.image.i < n
    ensures forall i :: i in more <==> 0 <= i < n
    ensures forall i | 0 <= i < n :: more[i] == neighbours[i] + OfAtom(c, i)
  {
    more := neighbours[c.image.i := neighbours[c.image.i] + [c]];
  }

  // A candidate with a new key brings a bond between the key's atoms.
  method AddBond(seen: set<Image>, bonds: seq<Bond>, c: Candidate, ghost us: seq<Candidate>)
    returns (keys: set<Image>, more: seq<Bond>)
    requires seen == Keys(us) && bonds == BondsOf(us)
    ensures var next := if Key(c.image) in seen then us else us + [c]; keys == Keys(next) && more == BondsOf(next)
  {
    keys, more := seen, bonds;
    var key := Key(c.image);
    if key !in seen {
      KeysAppend(us, c);
      keys := seen + {key};
      more := bonds + [Bond(key.i, key.j, c.d)];
    }
  }

  predicate DistinctKeys(cs: seq<Candidate>) {
    forall a, b | 0 <= a < b < |cs| :: Key(cs[a].image) != Key(cs[b].image)
  }

  lemma KeysAppend(cs: seq<Candidate>, c: Candidate)
    ensures Keys(cs + [c]) == Keys(cs) + {Key(c.image)}
    ensures Images(cs + [c]) == Images(cs) + {c.image}
  {
    forall x | x in cs + [c] ensures x in cs || x == c {}
    assert (cs + [c])[|cs|] == c;
  }

  lemma {:induction false} FirstSeenKeys(cs: seq<Candidate>)
    ensures DistinctKeys(FirstSeen(cs)) && Keys(FirstSeen(cs)) == Keys(cs)
    ensures forall c | c in FirstSeen(cs) :: c in cs
    decreases |cs|
  {
    if cs != [] {
      var most, c := cs[..|cs| - 1], cs[|cs| - 1];
      FirstSeenKeys(most);
      assert cs == most + [c];
      KeysAppend(most, c);
      KeysAppend(FirstSeen(most), c);
      forall a | 0 <= a < |FirstSeen(most)|
        ensures Key(FirstSeen(most)[a].image) in Keys(FirstSeen(most))
      {
        assert FirstSeen(most)[a] in FirstSeen(most);
      }
    }
  }

  /** Each reversal pair of candidates has exactly one bond, of their common length. */
  lemma OneBondPerPair(cs: seq<Candidate>, n: nat, c: Candidate)
    requires FullList(cs, n) && c in cs
    ensures exists k :: OnlyBondOf(FirstSeen(cs), k, c)
  {
    var us := FirstSeen(cs);
    FirstSeenKeys(cs);
    assert Key(c.image) in Keys(us);
    var u :| u in us && Key(u.image) == Key(c.image);
    var k :| 0 <= k < |us| && us[k] == u;
    KeyIdentifiesReversals(c.image, u.image);
    SameImage(cs, u, c);
    assert HasReversal(cs, c);
    SameImage(cs, u, Back(c));
    assert us[k] == c || us[k] == Back(c);
    OnlyAt(us, k, c);
    assert OnlyBondOf(us, k, c);
  }

  /** Bond `k` comes from `c` or its reversal, with their length, and no other bond does. */
  ghost predicate OnlyBondOf(us: seq<Candidate>, k: int, c: Candidate) {
    && 0 <= k < |us| && (us[k] == c || us[k] == Back(c))
    && BondsOf(us)[k].d == c.d
    && forall l | 0 <= l < |us| && l != k :: us[l].image != c.image && us[l].image != Reversed(c.image)
  }

  lemma OnlyAt(us: seq<Candidate>, k: nat, c: Candidate)
    requires DistinctKeys(us) && k < |us| && Key(us[k].image) == Key(c.image)
    ensures forall l | 0 <= l < |us| && l != k :: us[l].image != c.image && us[l].image != Reversed(c.image)
  {
    forall l | 0 <= l < |us| && l != k
      ensures us[l].image != c.image && us[l].image != Reversed(c.image)
    {
      KeyIdentifiesReversals(c.image, us[l].image);
      assert Key(us[l].image) != Key(us[k].image);
    }
  }

  lemma SameImage(cs: seq<Candidate>, a: Candidate, b: Candidate)
    requires DistinctImages(cs) && a in cs && b in cs
    ensures a.image == b.image ==> a == b
  {
  }

  // ---------------------------------------------------------------------------------------- degrees

  function Ends(b: Bond, i: nat): nat { (if b.i == i then 1 else 0) + (if b.j == i then 1 else 0) }

  /** How often atom `i` is an end of a bond; a bond to its own image counts twice. */
  function Incidences(bonds: seq<Bond>, i: nat): nat {
    if bonds == [] then 0 else Incidences(bonds[..|bonds| - 1], i) + Ends(bonds[|bonds| - 1], i)
  }

  function From(s: set<Image>, i: nat): set<Image> { set x | x in s && x.i == i }
  function To(s: set<Image>, i: nat): set<Image> { set x | x in s && x.j == i }
  function Flip(s: set<Image>): set<Image> { set x | x in s :: Reversed(x) }

  lemma FromAdded(s: set<Image>, k: Image, i: nat)
    requires k !in s
    ensures |From(s + {k}, i)| == |From(s, i)| + (if k.i == i then 1 else 0)
  {
    assert From(s + {k}, i) == if k.i == i then From(s, i) + {k} else From(s, i);
  }

  lemma ToAdded(s: set<Image>, k: Image, i: nat)
    requires k !in s
    ensures |To(s + {k}, i)| == |To(s, i)| + (if k.j == i then 1 else 0)
  {
    assert To(s + {k}, i) == if k.j == i then To(s, i) + {k} else To(s, i);
  }

  lemma IncidencesAppend(us: seq<Candidate>, u: Candidate, i: nat)
    ensures Incidences(BondsOf(us + [u]), i) == Incidences(BondsOf(us), i) + Ends(BondOf(u), i)
  {
    assert BondsOf(us + [u])[..|us|] == BondsOf(us);
  }

  lemma {:induction false} IncidencesCounted(us: seq<Candidate>, i: nat)
    requires DistinctKeys(us)
    ensures Incidences(BondsOf(us), i) == |From(Keys(us), i)| + |To(Keys(us), i)|
    decreases |us|
  {
    if us != [] {
      var most, u := us[..|us| - 1], us[|us| - 1];
      IncidencesCounted(most, i);
      assert us == most + [u];
      assert Key(u.image) !in Keys(most);
      KeysAppend(most, u);
      FromAdded(Keys(most), Key(u.image), i);
      ToAdded(Keys(most), Key(u.image), i);
      IncidencesAppend(most, u, i);
    }
  }

  lemma {:induction false} NeighboursCounted(cs: seq<Candidate>, i: nat)
    requires DistinctImages(cs)
    ensures |NeighboursOf(cs, i)| == |From(Images(cs), i)|
    decreases |cs|
  {
    if cs != [] {
      var most, c := cs[..|cs| - 1], cs[|cs| - 1];
      NeighboursCounted(most, i);
      assert cs == most + [c] && c.image !in Images(most);
      KeysAppend(most, c);
      FromAdded(Images(most), c.image, i);
    }
  }

  lemma {:induction false} FlipKeepsSize(s: set<Image>)
    ensures |Flip(s)| == |s|
    decreases s
  {
    if s != {} {
      var x :| x in s;
      FlipKeepsSize(s - {x});
      assert Flip(s) == Flip(s - {x}) + {Reversed(x)};
      assert Reversed(x) !in Flip(s - {x}) by {
        forall y | y in s - {x}
          ensures Reversed(y) != Reversed(x)
        {
          KeyIdentifiesReversals(x, y);
          KeyIdentifiesReversals(y, x);
        }
      }
    }
  }

  // The images leaving atom `i` are the keys that leave it and the reversals of the keys that enter it.
  lemma ImagesSplit(cs: seq<Candidate>, n: nat, i: nat)
    requires FullList(cs, n)
    ensures From(Images(cs), i) == From(Keys(cs), i) + Flip(To(Keys(cs), i))
    ensures From(Keys(cs), i) !! Flip(To(Keys(cs), i))
  {
    forall x
      ensures x in Images(cs) <==> x in Keys(cs) || Reversed(x) in Keys(cs)
      ensures !(x in Keys(cs) && Reversed(x) in Keys(cs))
    {
      ImageOrReversal(cs, n, x);
    }
    forall x
      ensures x in Flip(To(Keys(cs), i)) <==> Reversed(x) in Keys(cs) && x.i == i
    {
      KeyIdentifiesReversals(x, x);
    }
  }

  lemma KeyIsCandidate(cs: seq<Candidate>, n: nat, k: Image)
    requires FullList(cs, n) && k in Keys(cs)
    ensures Key(k) == k && k in Images(cs) && Reversed(k) in Images(cs) && Reversed(k) != k
  {
    var c :| c in cs && Key(c.image) == k;
    KeyIdentifiesReversals(c.image, k);
    KeyIdentifiesReversals(k, k);
    assert HasReversal(cs, c) && Back(c).image == Reversed(c.image);
  }

  lemma ImageOrReversal(cs: seq<Candidate>, n: nat, x: Image)
    requires FullList(cs, n)
    ensures x in Images(cs) <==> x in Keys(cs) || Reversed(x) in Keys(cs)
    ensures !(x in Keys(cs) && Reversed(x) in Keys(cs))
  {
    KeyIdentifiesReversals(x, Reversed(x));
    if x in Keys(cs) { KeyIsCandidate(cs, n, x); }
    if Reversed(x) in Keys(cs) { KeyIsCandidate(cs, n, Reversed(x)); }
    if x in Images(cs) {
      var c :| c in cs && c.image == x;
      assert Key(c.image) in Keys(cs);
    }
  }

  /** Coordination from deduplicated bonds is the length of the full neighbour list, own images included. */
  lemma CoordinationIsDegree(cs: seq<Candidate>, n: nat, i: nat)
    requires FullList(cs, n)
    ensures Incidences(BondsOf(FirstSeen(cs)), i) == |NeighboursOf(cs, i)|
  {
    FirstSeenKeys(cs);
    IncidencesCounted(FirstSeen(cs), i);
    NeighboursCounted(cs, i);
    ImagesSplit(cs, n, i);
    FlipKeepsSize(To(Keys(cs), i));
  }

  function SumTo(coord: map<nat, nat>, n: nat): nat
    requires forall i | 0 <= i < n :: i in coord
  {
    if n == 0 then 0 else SumTo(coord, n - 1) + coord[n - 1]
  }

  lemma {:induction false} SumBump(coord: map<nat, nat>, n: nat, i: nat)
    requires (forall k | 0 <= k < n :: k in coord) && i in coord
    ensures SumTo(coord[i := coord[i] + 1], n) == SumTo(coord, n) + if i < n then 1 else 0
  {
    if n > 0 { SumBump(coord, n - 1, i); }
  }

  lemma {:induction false} SumZero(coord: map<nat, nat>, n: nat)
    requires forall k | 0 <= k < n :: k in coord && coord[k] == 0
    ensures SumTo(coord, n) == 0
  {
    if n > 0 { SumZero(coord, n - 1); }
  }

  // ---------------------------------------------------------------------------------------- grouping

  type Groups = map<string, seq<real>>

  /** `setdefault(key, []).append(value)`. */
  function Added(groups: Groups, key: string, value: real): Groups {
    groups[key := (if key in groups then groups[key] else []) + [value]]
  }

  function Grouped(entries: seq<(string, real)>): Groups {
    if entries == [] then map[]
    else Added(Grouped(entries[..|entries| - 1]), entries[|entries| - 1].0, entries[|entries| - 1].1)
  }

  /** How many values all groups hold together. */
  ghost function Total(groups: Groups): nat {
    if groups == map[] then 0
    else var key :| key in groups; |groups[key]| + Total(groups - {key})
  }

  lemma {:induction false} TotalWithout(groups: Groups, key: string)
    requires key in groups
    ensures Total(groups) == |groups[key]| + Total(groups - {key})
    decreases groups
  {
    var first :| key in groups && first in groups && Total(groups) == |groups[first]| + Total(groups - {first});
    if first != key {
      TotalWithout(groups - {first}, key);
      TotalWithout(groups - {key}, first);
      assert groups - {first} - {key} == groups - {key} - {first};
    }
  }

  lemma TotalAdded(groups: Groups, key: string, value: real)
    ensures Total(Added(groups, key, value)) == Total(groups) + 1
  {
    var more := Added(groups, key, value);
    TotalWithout(more, key);
    assert more - {key} == groups - {key};
    if key in groups { TotalWithout(groups, key); } else { assert groups - {key} == groups; }
  }

  /** Grouping loses and invents nothing. */
  lemma {:induction false} GroupedTotal(entries: seq<(string, real)>)
    ensures Total(Grouped(entries)) == |entries|
    decreases |entries|
  {
    if entries != [] {
      var last := entries[|entries| - 1];
      GroupedTotal(entries[..|entries| - 1]);
      TotalAdded(Grouped(entries[..|entries| - 1]), last.0, last.1);
    }
  }

  function ValuesUnder(entries: seq<(string, real)>, key: string): seq<real> {
    if entries == [] then []
    else
      var (name, value) := entries[|entries| - 1];
      ValuesUnder(entries[..|entries| - 1], key) + if name == key then [value] else []
  }

  /** Each group holds its own values, in order. */
  lemma {:induction false} GroupedAt(entries: seq<(string, real)>, key: string)
    ensures (if key in Grouped(entries) then Grouped(entries)[key] else []) == ValuesUnder(entries, key)
    ensures key in Grouped(entries) <==> ValuesUnder(entries, key) != []
    decreases |entries|
  {
    if entries != [] { GroupedAt(entries[..|entries| - 1], key); }
  }

  // ---------------------------------------------------------------------------------------- statistics

  /** What is reported of a group, before rounding. */
  datatype Summary = Summary(count: nat, min: real, mean: real, max: real)

  function SumOf(v: seq<real>): real { if v == [] then 0.0 else SumOf(v[..|v| - 1]) + v[|v| - 1] }

  function Least(v: seq<real>): (m: real)
    requires v != []
    ensures m in v && forall x | x in v :: m <= x
  {
    var last := v[|v| - 1];
    if |v| == 1 then last
    else
      assert v == v[..|v| - 1] + [last];
      var rest := Least(v[..|v| - 1]);
      if last < rest then last else rest
  }

  function Greatest(v: seq<real>): (m: real)
    requires v != []
    ensures m in v && forall x | x in v :: x <= m
  {
    var last := v[|v| - 1];
    if |v| == 1 then last
    else
      assert v == v[..|v| - 1] + [last];
      var rest := Greatest(v[..|v| - 1]);
      if last > rest then last else rest
  }

  function SummaryOf(v: seq<real>): Summary
    requires v != []
  {
    Summary(|v|, Least(v), SumOf(v) / |v| as real, Greatest(v))
  }

  lemma {:induction false} SumBetween(v: seq<real>, low: real, high: real)
    requires forall x | x in v :: low <= x <= high
    ensures low * |v| as real <= SumOf(v) <= high * |v| as real
  {
    if v != [] {
      var most := v[..|v| - 1];
      assert v[|v| - 1] in v;
      forall x | x in most ensures low <= x <= high { assert x in v; }
      SumBetween(most, low, high);
    }
  }

  /** The extremes are values of the group, and all values lie between them. */
  lemma SummaryExtremes(v: seq<real>)
    requires v != []
    ensures var s := SummaryOf(v); s.min in v && s.max in v && forall x | x in v :: s.min <= x <= s.max
  {
  }

  /** The mean lies between the extremes and gives back the sum. */
  lemma SummaryMean(v: seq<real>, s: Summary)
    requires v != [] && s == SummaryOf(v)
    ensures s.count == |v| && s.min <= s.mean <= s.max && s.mean * s.count as real == SumOf(v)
  {
    MeanOf(v, s.min, s.max, s.mean, s.count as real);
  }

  lemma MeanOf(v: seq<real>, low: real, high: real, mean: real, n: real)
    requires v != [] && (forall x | x in v :: low <= x <= high) && n == |v| as real && mean == SumOf(v) / n
    ensures low <= mean <= high && mean * n == SumOf(v)
  {
    SumBetween(v, low, high);
    MeanBetween(n, low, high, SumOf(v), mean);
  }

  lemma MeanBetween(n: real, low: real, high: real, sum: real, mean: real)
    requires n > 0.0 && low * n <= sum <= high * n && mean == sum / n
    ensures low <= mean <= high && mean * n == sum
  {
    assert mean * n == sum;
    CancelFactor(low, mean, n);
    CancelFactor(mean, high, n);
  }

  lemma CancelFactor(a: real, b: real, n: real)
    requires n > 0.0 && a * n <= b * n
    ensures a <= b
  {
    assert (b - a) * n >= 0.0;
  }

  method Summaries(groups: Groups) returns (report: map<string, Summary>)
    requires forall key | key in groups :: groups[key] != []
    ensures report.Keys == groups.Keys
    ensures forall key | key in groups :: report[key] == SummaryOf(groups[key])
  {
    report := map[];
    var todo := groups.Keys;
    while todo != {}
      invariant todo <= groups.Keys && report.Keys == groups.Keys - todo
      invariant forall key | key in report :: report[key] == SummaryOf(groups[key])
      decreases todo
    {
      var key :| key in todo;
      report := report[key := SummaryOf(groups[key])];
      todo := todo - {key};
    }
  }

  // A label only gets a group with its first value.
  lemma GroupsHaveValues(entries: seq<(string, real)>)
    ensures forall key | key in Grouped(entries) :: Grouped(entries)[key] != []
  {
    forall key | key in Grouped(entries) { GroupedAt(entries, key); }
  }

  /** The sum of all values in all groups: of count times mean over the labels. */
  ghost function SumAll(groups: Groups): real {
    if groups == map[] then 0.0
    else var key :| key in groups; SumOf(groups[key]) + SumAll(groups - {key})
  }

  lemma {:induction false} SumAllWithout(groups: Groups, key: string)
    requires key in groups
    ensures SumAll(groups) == SumOf(groups[key]) + SumAll(groups - {key})
    decreases groups
  {
    var first :| key in groups && first in groups && SumAll(groups) == SumOf(groups[first]) + SumAll(groups - {first});
    if first != key {
      SumAllWithout(groups - {first}, key);
      SumAllWithout(groups - {key}, first);
      assert groups - {first} - {key} == groups - {key} - {first};
    }
  }

  lemma SumAllAdded(groups: Groups, key: string, value: real)
    ensures SumAll(Added(groups, key, value)) == SumAll(groups) + value
  {
    var more, had := Added(groups, key, value), if key in groups then groups[key] else [];
    SumAllWithout(more, key);
    assert more - {key} == groups - {key} && (had + [value])[..|had|] == had;
    if key in groups { SumAllWithout(groups, key); } else { assert groups - {key} == groups; }
  }

  function SumValues(entries: seq<(string, real)>): real {
    if entries == [] then 0.0 else SumValues(entries[..|entries| - 1]) + entries[|entries| - 1].1
  }

  /** Grouping keeps the sum of the values. */
  lemma {:induction false} GroupedSum(entries: seq<(string, real)>)
    ensures SumAll(Grouped(entries)) == SumValues(entries)
    decreases |entries|
  {
    if entries != [] {
      var last := entries[|entries| - 1];
      GroupedSum(entries[..|entries| - 1]);
      SumAllAdded(Grouped(entries[..|entries| - 1]), last.0, last.1);
    }
  }

  // ---------------------------------------------------------------------------------------- coordination

  function SpeciesEntries(symbols: seq<string>, coord: map<nat, nat>): seq<(string, real)>
    requires forall i | 0 <= i < |symbols| :: i in coord
  {
    seq(|symbols|, i requires 0 <= i < |symbols| => (symbols[i], coord[i] as real))
  }

  lemma {:induction false} SpeciesSum(symbols: seq<string>, coord: map<nat, nat>, n: nat)
    requires n <= |symbols| && forall i | 0 <= i < |symbols| :: i in coord
    ensures SumValues(SpeciesEntries(symbols, coord)[..n]) == SumTo(coord, n) as real
  {
    if n > 0 {
      SpeciesSum(symbols, coord, n - 1);
      assert SpeciesEntries(symbols, coord)[..n][..n - 1] == SpeciesEntries(symbols, coord)[..n - 1];
    }
  }

  method SpeciesCoordination(symbols: seq<string>, coord: map<nat, nat>) returns (bySpecies: Groups)
    requires forall i | 0 <= i < |symbols| :: i in coord
    ensures bySpecies == Grouped(SpeciesEntries(symbols, coord))
    ensures SumAll(bySpecies) == SumTo(coord, |symbols|) as real
  {
    bySpecies := map[];
    ghost var entries := SpeciesEntries(symbols, coord);
    for i := 0 to |symbols|
      invariant bySpecies == Grouped(entries[..i])
    {
      assert entries[..i + 1][..i] == entries[..i];
      bySpecies := Added(bySpecies, symbols[i], coord[i] as real);
    }
    assert entries[..|symbols|] == entries;
    GroupedSum(entries);
    SpeciesSum(symbols, coord, |symbols|);
  }

  predicate StringLess(a: string, b: string) {
    b != "" && (a == "" || a[0] < b[0] || (a[0] == b[0] && StringLess(a[1..], b[1..])))
  }

  function PairName(a: string, b: string): string {
    if StringLess(b, a) then b + "-" + a else a + "-" + b
  }

  ghost predicate BondsInRange(bonds: seq<Bond>, n: nat) {
    forall b | b in bonds :: b.i < n && b.j < n
  }

  function PairEntries(symbols: seq<string>, bonds: seq<Bond>): seq<(string, real)>
    requires BondsInRange(bonds, |symbols|)
  {
    seq(|bonds|, k requires 0 <= k < |bonds| =>
      assert bonds[k] in bonds; (PairName(symbols[bonds[k].i], symbols[bonds[k].j]), bonds[k].d))
  }

  lemma CoordinationStep(symbols: seq<string>, bonds: seq<Bond>, k: nat)
    requires BondsInRange(bonds, |symbols|) && k < |bonds|
    ensures bonds[k].i < |symbols| && bonds[k].j < |symbols|
    ensures forall i: nat :: Incidences(bonds[..k + 1], i) == Incidences(bonds[..k], i) + Ends(bonds[k], i)
    ensures var entries := PairEntries(symbols, bonds);
            Grouped(entries[..k + 1]) ==
              Added(Grouped(entries[..k]), PairName(symbols[bonds[k].i], symbols[bonds[k].j]), bonds[k].d)
  {
    var entries := PairEntries(symbols, bonds);
    assert bonds[k] in bonds && bonds[..k + 1][..k] == bonds[..k] && entries[..k + 1][..k] == entries[..k];
  }

  method Coordination(symbols: seq<string>, bonds: seq<Bond>) returns (coord: map<nat, nat>, byPair: Groups)
    requires BondsInRange(bonds, |symbols|)
    ensures forall i :: i in coord <==> 0 <= i < |symbols|
    ensures forall i | 0 <= i < |symbols| :: coord[i] == Incidences(bonds, i)
    ensures SumTo(coord, |symbols|) == 2 * |bonds|
    ensures byPair == Grouped(PairEntries(symbols, bonds))
  {
    coord := Filled(|symbols|, 0);
    byPair := map[];
    SumZero(coord, |symbols|);
    for k := 0 to |bonds|
      invariant forall i :: i in coord <==> 0 <= i < |symbols|
      invariant forall i | 0 <= i < |symbols| :: coord[i] == Incidences(bonds[..k], i)
      invariant SumTo(coord, |symbols|) == 2 * k
      invariant byPair == Grouped(PairEntries(symbols, bonds)[..k])
    {
      var b := bonds[k];
      CoordinationStep(symbols, bonds, k);
      coord := CountBond(coord, b, |symbols|);
      byPair := Added(byPair, PairName(symbols[b.i], symbols[b.j]), b.d);
    }
    assert bonds[..|bonds|] == bonds;
    assert PairEntries(symbols, bonds)[..|bonds|] == PairEntries(symbols, bonds);
  }

  // Both ends of a bond are counted, also when they are the same atom.
  method CountBond(coord: map<nat, nat>, b: Bond, n: nat) returns (more: map<nat, nat>)
    requires (forall i :: i in coord <==> 0 <= i < n) && b.i < n && b.j < n
    ensures forall i :: i in more <==> 0 <= i < n
    ensures forall i | 0 <= i < n :: more[i] == coord[i] + Ends(b, i)
    ensures SumTo(more, n) == SumTo(coord, n) + 2
  {
    SumBump(coord, n, b.i);
    more := coord[b.i := coord[b.i] + 1];
    SumBump(more, n, b.j);
    more := more[b.j := more[b.j] + 1];
  }

  // ---------------------------------------------------------------------------------------- angles

  /** The analysed structure: element symbols, per-atom neighbour lists, and the angle between two vectors. */
  datatype Shell = Shell(symbols: seq<string>, neighbours: map<nat, seq<Candidate>>,
      angle: (Candidate, Candidate) -> real)

  ghost predicate ShellOk(s: Shell) {
    forall i | 0 <= i < |s.symbols| ::
      i in s.neighbours && forall c | c in s.neighbours[i] :: c.image.j < |s.symbols|
  }

  const SHORT := 0.000000001

  predicate Degenerate(s: Shell, b: nat, x: int, y: int)
    requires ShellOk(s) && b < |s.symbols| && 0 <= x < |s.neighbours[b]| && 0 <= y < |s.neighbours[b]|
  {
    s.neighbours[b][x].d < SHORT || s.neighbours[b][y].d < SHORT
  }

  /** The triplet's name and its angle. */
  function Triplet(s: Shell, b: nat, x: int, y: int): (string, real)
    requires ShellOk(s) && b < |s.symbols| && 0 <= x < |s.neighbours[b]| && 0 <= y < |s.neighbours[b]|
  {
    var v1, v2 := s.neighbours[b][x], s.neighbours[b][y];
    assert v1 in s.neighbours[b] && v2 in s.neighbours[b];
    (s.symbols[v1.image.j] + "-" + s.symbols[b] + "-" + s.symbols[v2.image.j], s.angle(v1, v2))
  }

  /** The angles of centre `b` with first neighbour `x` and a later one before `y`. */
  function RowAngles(s: Shell, b: nat, x: nat, y: nat): seq<(string, real)>
    requires ShellOk(s) && b < |s.symbols| && y <= |s.neighbours[b]|
  {
    if y <= x + 1 then []
    else RowAngles(s, b, x, y - 1) + if Degenerate(s, b, x, y - 1) then [] else [Triplet(s, b, x, y - 1)]
  }

  function CentreAngles(s: Shell, b: nat, x: nat): seq<(string, real)>
    requires ShellOk(s) && b < |s.symbols| && x <= |s.neighbours[b]|
  {
    if x == 0 then [] else CentreAngles(s, b, x - 1) + RowAngles(s, b, x - 1, |s.neighbours[b]|)
  }

  /** All angles over unordered pairs of neighbours, centre by centre. */
  function Angles(s: Shell, b: nat): seq<(string, real)>
    requires ShellOk(s) && b <= |s.symbols|
  {
    if b == 0 then [] else Angles(s, b - 1) + CentreAngles(s, b - 1, |s.neighbours[b - 1]|)
  }

  method BondAngles(s: Shell) returns (groups: Groups)
    requires ShellOk(s)
    ensures groups == Grouped(Angles(s, |s.symbols|))
  {
    groups := map[];
    for b := 0 to |s.symbols|
      invariant groups == Grouped(Angles(s, b))
    {
      groups := AddCentre(s, b, groups);
    }
  }

  method AddCentre(s: Shell, b: nat, before: Groups) returns (groups: Groups)
    requires ShellOk(s) && b < |s.symbols| && before == Grouped(Angles(s, b))
    ensures groups == Grouped(Angles(s, b + 1))
  {
    groups := before;
    assert Angles(s, b) + CentreAngles(s, b, 0) == Angles(s, b);
    for x := 0 to |s.neighbours[b]|
      invariant groups == Grouped(Angles(s, b) + CentreAngles(s, b, x))
    {
      groups := AddRow(s, b, x, groups, Angles(s, b) + CentreAngles(s, b, x));
      assert Angles(s, b) + CentreAngles(s, b, x) + RowAngles(s, b, x, |s.neighbours[b]|) ==
          Angles(s, b) + CentreAngles(s, b, x + 1);
    }
  }

  method AddRow(s: Shell, b: nat, x: nat, before: Groups, ghost done: seq<(string, real)>) returns (groups: Groups)
    requires ShellOk(s) && b < |s.symbols| && x < |s.neighbours[b]| && before == Grouped(done)
    ensures groups == Grouped(done + RowAngles(s, b, x, |s.neighbours[b]|))
  {
    groups := before;
    assert done + RowAngles(s, b, x, x + 1) == done;
    for y := x + 1 to |s.neighbours[b]|
      invariant groups == Grouped(done + RowAngles(s, b, x, y))
    {
      AddEntry(s, b, x, y, done);
      if Degenerate(s, b, x, y) { continue; }
      var (name, value) := Triplet(s, b, x, y);
      groups := Added(groups, name, value);
    }
  }

  lemma AddEntry(s: Shell, b: nat, x: nat, y: nat, done: seq<(string, real)>)
    requires ShellOk(s) && b < |s.symbols| && x < y < |s.neighbours[b]|
    ensures var before, t := Grouped(done + RowAngles(s, b, x, y)), Triplet(s, b, x, y);
            Grouped(done + RowAngles(s, b, x, y + 1)) ==
              if Degenerate(s, b, x, y) then before else Added(before, t.0, t.1)
  {
    var before, t := done + RowAngles(s, b, x, y), Triplet(s, b, x, y);
    if !Degenerate(s, b, x, y) {
      assert done + RowAngles(s, b, x, y + 1) == before + [t];
      assert (before + [t])[..|before|] == before;
    } else {
      assert RowAngles(s, b, x, y + 1) == RowAngles(s, b, x, y);
    }
  }

  ghost predicate NoShort(s: Shell) {
    forall i, c | i in s.neighbours && c in s.neighbours[i] :: c.d >= SHORT
  }

  lemma {:induction false} RowCount(s: Shell, b: nat, x: nat, y: nat)
    requires ShellOk(s) && NoShort(s) && b < |s.symbols| && x < y <= |s.neighbours[b]|
    ensures |RowAngles(s, b, x, y)| == y - x - 1
    decreases y
  {
    if y > x + 1 {
      RowCount(s, b, x, y - 1);
      assert s.neighbours[b][x] in s.neighbours[b] && s.neighbours[b][y - 1] in s.neighbours[b];
    }
  }

  lemma {:induction false} CentreCount(s: Shell, b: nat, x: nat)
    requires ShellOk(s) && NoShort(s) && b < |s.symbols| && x <= |s.neighbours[b]|
    ensures 2 * |CentreAngles(s, b, x)| == x * (2 * |s.neighbours[b]| - x - 1)
  {
    if x > 0 {
      var n := |s.neighbours[b]|;
      assert x * (2 * n - x - 1) == (x - 1) * (2 * n - x) + 2 * (n - x);
      CentreCount(s, b, x - 1);
      RowCount(s, b, x - 1, |s.neighbours[b]|);
    }
  }

  function PairSum(s: Shell, b: nat): int
    requires ShellOk(s) && b <= |s.symbols|
  {
    if b == 0 then 0 else PairSum(s, b - 1) + |s.neighbours[b - 1]| * (|s.neighbours[b - 1]| - 1)
  }

  /** The angles collected are one per unordered pair of neighbours: n(n-1)/2 at each centre. */
  lemma {:induction false} AngleCount(s: Shell, b: nat)
    requires ShellOk(s) && NoShort(s) && b <= |s.symbols|
    ensures 2 * |Angles(s, b)| == PairSum(s, b)
  {
    if b > 0 {
      AngleCount(s, b - 1);
      CentreCount(s, b - 1, |s.neighbours[b - 1]|);
    }
  }

  // ---------------------------------------------------------------------------------------- the whole analysis

  lemma BondsStayInRange(cs: seq<Candidate>, n: nat)
    requires InRange(cs, n)
    ensures BondsInRange(BondsOf(FirstSeen(cs)), n)
  {
    FirstSeenKeys(cs);
    var us := FirstSeen(cs);
    forall k | 0 <= k < |us|
      ensures BondsOf(us)[k].i < n && BondsOf(us)[k].j < n
    {
      assert us[k] in us;
    }
  }

  function DegreePairs(coord: map<nat, nat>, n: nat): int
    requires forall i | 0 <= i < n :: i in coord
  {
    if n == 0 then 0 else DegreePairs(coord, n - 1) + coord[n - 1] * (coord[n - 1] as int - 1)
  }

  lemma {:induction false} PairSumOfDegrees(s: Shell, coord: map<nat, nat>, b: nat)
    requires ShellOk(s) && b <= |s.symbols|
    requires forall i | 0 <= i < |s.symbols| :: i in coord && coord[i] == |s.neighbours[i]|
    ensures PairSum(s, b) == DegreePairs(coord, b)
  {
    if b > 0 { PairSumOfDegrees(s, coord, b - 1); }
  }

  /**
   * `coordination_and_bonds` after the neighbour search: the counts on the deduplicated bonds agree with the
   * degrees in the full neighbour list.
   */
  method CoordinationAndBonds(symbols: seq<string>, cs: seq<Candidate>, angle: (Candidate, Candidate) -> real)
    returns (coord: map<nat, nat>, bonds: seq<Bond>, bySpecies: Groups, byPair: Groups, byTriplet: Groups,
             report: Report)
    requires FullList(cs, |symbols|)
    ensures forall i :: i in coord <==> 0 <= i < |symbols|
    ensures forall i | 0 <= i < |symbols| :: coord[i] == |NeighboursOf(cs, i)|
    ensures bonds == BondsOf(FirstSeen(cs)) && BondsInRange(bonds, |symbols|)
    ensures SumTo(coord, |symbols|) == 2 * |bonds| && Total(byPair) == |bonds|
    ensures byPair == Grouped(PairEntries(symbols, bonds))
    ensures bySpecies == Grouped(SpeciesEntries(symbols, coord)) && SumAll(bySpecies) == (2 * |bonds|) as real
    ensures 2 * Total(byTriplet) == DegreePairs(coord, |symbols|)
    ensures Reports(report.coordination, bySpecies) && Reports(report.lengths, byPair)
    ensures Reports(report.angles, byTriplet)
  {
    var neighbours;
    bonds, neighbours := CollectBonds(|symbols|, cs);
    BondsStayInRange(cs, |symbols|);
    coord, byPair := Coordination(symbols, bonds);
    GroupedTotal(PairEntries(symbols, bonds));
    var shell := Shell(symbols, neighbours, angle);
    ShellOfList(cs, shell);
    byTriplet := BondAngles(shell);
    GroupedTotal(Angles(shell, |symbols|));
    AngleCount(shell, |symbols|);
    forall i | 0 <= i < |symbols| { CoordinationIsDegree(cs, |symbols|, i); }
    PairSumOfDegrees(shell, coord, |symbols|);
    bySpecies := SpeciesCoordination(symbols, coord);
    GroupsHaveValues(SpeciesEntries(symbols, coord));
    GroupsHaveValues(PairEntries(symbols, bonds));
    GroupsHaveValues(Angles(shell, |symbols|));
    report := ReportOf(bySpecies, byPair, byTriplet);
  }

  /** The three tables of the analysis. */
  datatype Report = Report(
    coordination: map<string, Summary>,
    lengths: map<string, Summary>,
    angles: map<string, Summary>)

  ghost predicate Reports(table: map<string, Summary>, groups: Groups) {
    && table.Keys == groups.Keys
    && forall key | key in groups :: groups[key] != [] && table[key] == SummaryOf(groups[key])
  }

  method ReportOf(bySpecies: Groups, byPair: Groups, byTriplet: Groups) returns (report: Report)
    requires forall key | key in bySpecies :: bySpecies[key] != []
    requires forall key | key in byPair :: byPair[key] != []
    requires forall key | key in byTriplet :: byTriplet[key] != []
    ensures Reports(report.coordination, bySpecies) && Reports(report.lengths, byPair)
    ensures Reports(report.angles, byTriplet)
  {
    var coordination := Summaries(bySpecies);
    var lengths := Summaries(byPair);
    var angles := Summaries(byTriplet);
    report := Report(coordination, lengths, angles);
  }

  lemma ShellOfList(cs: seq<Candidate>, s: Shell)
    requires FullList(cs, |s.symbols|)
    requires forall i :: i in s.neighbours <==> 0 <= i < |s.symbols|
    requires forall i | 0 <= i < |s.symbols| :: s.neighbours[i] == NeighboursOf(cs, i)
    ensures ShellOk(s) && NoShort(s)
  {
    forall i | 0 <= i < |s.symbols| { NeighboursIn(cs, i); }
  }
}
