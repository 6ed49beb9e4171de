/** Krippendorff's alpha with the ordinal distance, as the human summary computes it. */
module OrdinalAlpha {
  import opened Options
  import opened RealArithmetic
  import opened Sums
  import opened Sorting
  import opened Sequences

  /** One rated unit: the mapping's key and its scores, in iteration order. */
  datatype Unit = Unit(name: string, scores: seq<int>)

  function ScoreLists(groups: seq<Unit>): seq<seq<int>> {
    seq(|groups|, i requires 0 <= i < |groups| => groups[i].scores)
  }

  /** Units with fewer than two ratings contribute nothing. */
  function Pairable(units: seq<seq<int>>): seq<seq<int>> {
    if units == [] then []
    else (if |units[0]| >= 2 then [units[0]] else []) + Pairable(units[1..])
  }

  function Flatten(units: seq<seq<int>>): seq<int> {
    if units == [] then [] else units[0] + Flatten(units[1..])
  }

  /** The counter's entry for a category. */
  function Tally(values: seq<int>, category: int): nat {
    multiset(values)[category]
  }

  /** The counter's entries summed over the categories lower, ..., upper. */
  function Cumulative(values: seq<int>, lower: int, upper: int): nat
    decreases upper - lower
  {
    if lower > upper then 0 else Tally(values, lower) + Cumulative(values, lower + 1, upper)
  }

  function Gap(values: seq<int>, first: int, second: int): real {
    var lower, upper := if first <= second then first else second, if first <= second then second else first;
    Cumulative(values, lower, upper) as real - (Tally(values, first) + Tally(values, second)) as real / 2.0
  }

  function DistanceSquared(values: seq<int>, first: int, second: int): real {
    if first == second then 0.0 else Square(Gap(values, first, second))
  }

  function UnitTerm(values: seq<int>, scores: seq<int>): real
    requires |scores| >= 2
  {
    DoubleSum(scores, scores, (a, b) => DistanceSquared(values, a, b)) / (|scores| - 1) as real
  }

  function ObservedNumerator(values: seq<int>, units: seq<seq<int>>): real
    requires forall u :: u in units ==> |u| >= 2
  {
    if units == [] then 0.0 else UnitTerm(values, units[0]) + ObservedNumerator(values, units[1..])
  }

  function WeightedDistance(values: seq<int>, first: int, second: int): real {
    Product((Tally(values, first) * Tally(values, second)) as real, DistanceSquared(values, first, second))
  }

  /** Over the counter's keys: each category once, in order of first appearance. */
  function ExpectedNumerator(values: seq<int>): real {
    DoubleSum(Distinct(values), Distinct(values), (a, b) => WeightedDistance(values, a, b))
  }

  lemma {:induction false} PairableLengths(units: seq<seq<int>>)
    ensures forall u :: u in Pairable(units) ==> |u| >= 2 && u in units
    ensures forall u :: u in units && |u| >= 2 ==> u in Pairable(units)
  {
    if units != [] { PairableLengths(units[1..]); }
  }

  function PairableValues(groups: seq<Unit>): seq<int> {
    Flatten(Pairable(ScoreLists(groups)))
  }

  function OrderedPairs(n: nat): real {
    (n * (n - 1)) as real
  }

  function ObservedSum(groups: seq<Unit>): real {
    PairableLengths(ScoreLists(groups));
    ObservedNumerator(PairableValues(groups), Pairable(ScoreLists(groups)))
  }

  function Observed(groups: seq<Unit>): real
    requires PairableValues(groups) != []
  {
    ObservedSum(groups) / |PairableValues(groups)| as real
  }

  function Expected(groups: seq<Unit>): real
    requires OrderedPairs(|PairableValues(groups)|) != 0.0
  {
    ExpectedNumerator(PairableValues(groups)) / OrderedPairs(|PairableValues(groups)|)
  }

  lemma PairsPositive(n: nat)
    requires n >= 2
    ensures OrderedPairs(n) > 0.0
    ensures OrderedPairs(n) == Product(n as real, n as real - 1.0)
  {
  }

  function Alpha(groups: seq<Unit>): Option<real> {
    if |PairableValues(groups)| < 2 then None
    else
      PairsPositive(|PairableValues(groups)|);
      if Expected(groups) == 0.0 then Some(if Observed(groups) == 0.0 then 1.0 else 0.0)
      else Some(1.0 - Observed(groups) / Expected(groups))
  }

  // ----- The distance -----

  lemma TallyIsCount(values: seq<int>, category: int)
    ensures Tally(values, category) == Count(values, v => v == category)
  {
    MultiplicityIsCount(values, category, v => v == category);
  }

  /** The cumulative frequency counts the values between the two ends. */
  lemma {:induction false} CumulativeIsCount(values: seq<int>, lower: int, upper: int)
    ensures Cumulative(values, lower, upper) == Count(values, v => lower <= v <= upper)
    decreases upper - lower
  {
    if lower > upper {
      CountNone(values, v => lower <= v <= upper);
    } else {
      CumulativeIsCount(values, lower + 1, upper);
      TallyIsCount(values, lower);
      CountSplit(values, v => v == lower, v => lower + 1 <= v <= upper, v => lower <= v <= upper);
    }
  }

  /** Distances are nonnegative, and positive between different observed categories. */
  lemma DistanceSign(values: seq<int>, a: int, b: int)
    ensures DistanceSquared(values, a, b) >= 0.0
    ensures a in values && b in values && a != b ==> DistanceSquared(values, a, b) > 0.0
  {
    SquareSign(Gap(values, a, b));
    if a in values && b in values && a != b {
      var lower, upper := if a < b then a else b, if a < b then b else a;
      CumulativeIsCount(values, lower, upper);
      CumulativeIsCount(values, lower + 1, upper - 1);
      TallyIsCount(values, lower);
      TallyIsCount(values, upper);
      CountSplit(values, v => lower <= v <= upper - 1, v => v == upper, v => lower <= v <= upper);
      CountSplit(values, v => v == lower, v => lower + 1 <= v <= upper - 1, v => lower <= v <= upper - 1);
      assert lower in multiset(values) && upper in multiset(values);
      assert Gap(values, a, b) > 0.0;
    }
  }

  // ----- The counter form equals the form over all rating pairs -----

  /** Summing over the counter's entries, with multiplicity, is summing over the values. */
  lemma {:induction false} CounterSum(keys: seq<int>, values: seq<int>, w: int -> real, g: int -> real)
    requires NoDuplicates(keys) && forall v :: v in values ==> v in keys
    requires forall c :: w(c) == Product(Tally(values, c) as real, g(c))
    ensures SumBy(keys, w) == SumBy(values, g)
  {
    if values == [] {
      forall c ensures w(c) == 0.0 { assert Tally(values, c) == 0; }
      SumConstant(keys, 0.0, w);
    } else {
      var rest, k := values[1..], values[0];
      var before, one := c => Product(Tally(rest, c) as real, g(c)), c => if c == k then g(c) else 0.0;
      CounterSum(keys, rest, before, g);
      forall c ensures w(c) == before(c) + one(c) { TallyStep(values, c, g(c)); }
      SumAdd(keys, before, one, w);
      IndicatorSum(keys, k, one);
    }
  }

  lemma TallyStep(values: seq<int>, c: int, x: real)
    requires values != []
    ensures Product(Tally(values, c) as real, x)
      == Product(Tally(values[1..], c) as real, x) + if c == values[0] then x else 0.0
  {
    assert values == [values[0]] + values[1..];
    assert Tally(values, c) == (if c == values[0] then 1 else 0) + Tally(values[1..], c);
    ProductDistributes(1.0, Tally(values[1..], c) as real, x);
  }

  lemma ExpectedOverPairs(values: seq<int>)
    ensures ExpectedNumerator(values) == DoubleSum(values, values, (a, b) => DistanceSquared(values, a, b))
  {
    var keys := Distinct(values);
    DistinctSpec(values);
    var d := (a, b) => DistanceSquared(values, a, b);
    var w := (a, b) => WeightedDistance(values, a, b);
    var row := a => RowSum(a, values, d);
    var weighted := a => Product(Tally(values, a) as real, row(a));
    forall a ensures RowSum(a, keys, w) == weighted(a) { WeightedRow(values, a, keys, w, d); }
    DoubleSumIsSum(keys, keys, w, weighted);
    CounterSum(keys, values, weighted, row);
    DoubleSumIsSum(values, values, d, row);
  }

  lemma WeightedSplits(values: seq<int>, a: int, c: int)
    ensures WeightedDistance(values, a, c) ==
      Product(Tally(values, a) as real, Product(Tally(values, c) as real, DistanceSquared(values, a, c)))
  {
    ProductAssociates(Tally(values, a) as real, Tally(values, c) as real, DistanceSquared(values, a, c));
    assert (Tally(values, a) * Tally(values, c)) as real == Product(Tally(values, a) as real, Tally(values, c) as real);
  }

  lemma WeightedRow(values: seq<int>, a: int, keys: seq<int>, w: (int, int) -> real, d: (int, int) -> real)
    requires keys == Distinct(values)
    requires forall x, y :: w(x, y) == WeightedDistance(values, x, y)
    requires forall x, y :: d(x, y) == DistanceSquared(values, x, y)
    ensures RowSum(a, keys, w) == Product(Tally(values, a) as real, RowSum(a, values, d))
  {
    DistinctSpec(values);
    var t := Tally(values, a) as real;
    var entry, weighted := b => d(a, b), c => Product(Tally(values, c) as real, d(a, c));
    forall c ensures w(a, c) == Product(t, weighted(c)) { WeightedSplits(values, a, c); }
    var scaled := c => Product(t, weighted(c));
    RowSumIsSum(a, keys, w, scaled);
    SumScale(keys, t, weighted, scaled);
    CounterSum(keys, values, weighted, entry);
    RowSumIsSum(a, values, d, entry);
  }

  // ----- Range -----

  function PairTotal(values: seq<int>, a: seq<int>, b: seq<int>): real {
    DoubleSum(a, b, (x, y) => DistanceSquared(values, x, y))
  }

  lemma PairTotalNonnegative(values: seq<int>, a: seq<int>, b: seq<int>)
    ensures PairTotal(values, a, b) >= 0.0
  {
    forall x, y ensures DistanceSquared(values, x, y) >= 0.0 { DistanceSign(values, x, y); }
    DoubleSumNonnegative(a, b, (x, y) => DistanceSquared(values, x, y));
  }

  lemma PairTotalConcat(values: seq<int>, a: seq<int>, b: seq<int>)
    ensures PairTotal(values, a + b, a + b) >= PairTotal(values, a, a) + PairTotal(values, b, b)
  {
    var d := (x, y) => DistanceSquared(values, x, y);
    DoubleSumConcatLeft(a, b, a + b, d);
    DoubleSumConcatRight(a, a, b, d);
    DoubleSumConcatRight(b, a, b, d);
    PairTotalNonnegative(values, a, b);
    PairTotalNonnegative(values, b, a);
  }

  /** Pairs of one list have no distance exactly when the list is unanimous. */
  lemma PairTotalZero(values: seq<int>, a: seq<int>)
    requires forall v :: v in a ==> v in values
    ensures PairTotal(values, a, a) == 0.0 <==> AllEqual(a)
  {
    var d := (x, y) => DistanceSquared(values, x, y);
    forall x, y ensures d(x, y) >= 0.0 { DistanceSign(values, x, y); }
    var row := x => RowSum(x, a, d);
    forall x ensures row(x) >= 0.0 && (row(x) == 0.0 <==> forall y :: y in a ==> d(x, y) == 0.0) {
      RowSumIsSum(x, a, d, y => d(x, y));
      SumNonnegative(a, y => d(x, y));
      SumZero(a, y => d(x, y));
    }
    DoubleSumIsSum(a, a, d, row);
    SumZero(a, row);
    forall x, y | x in a && y in a ensures d(x, y) == 0.0 <==> x == y { DistanceSign(values, x, y); }
    if PairTotal(values, a, a) == 0.0 {
      forall i, j | 0 <= i < |a| && 0 <= j < |a| ensures a[i] == a[j] {
        assert a[i] in a && a[j] in a;
        assert row(a[i]) == 0.0;
      }
    }
  }

  lemma UnitTermFacts(values: seq<int>, scores: seq<int>)
    requires |scores| >= 2 && forall v :: v in scores ==> v in values
    ensures 0.0 <= UnitTerm(values, scores) <= PairTotal(values, scores, scores)
    ensures UnitTerm(values, scores) == 0.0 <==> AllEqual(scores)
  {
    var total, m := PairTotal(values, scores, scores), (|scores| - 1) as real;
    PairTotalNonnegative(values, scores, scores);
    PairTotalZero(values, scores);
    QuotientSign(total, m);
    ShrinkingQuotient(total, m);
  }

  /** Within-unit disagreement never exceeds the disagreement over all pairs, and vanishes on unanimity. */
  lemma {:induction false} ObservedBound(values: seq<int>, units: seq<seq<int>>)
    requires forall u :: u in units ==> |u| >= 2
    requires forall v :: v in Flatten(units) ==> v in values
    ensures 0.0 <= ObservedNumerator(values, units) <= PairTotal(values, Flatten(units), Flatten(units))
    ensures ObservedNumerator(values, units) == 0.0 <==> forall u :: u in units ==> AllEqual(u)
  {
    if units != [] {
      assert forall v :: v in Flatten(units) <==> v in units[0] || v in Flatten(units[1..]);
      assert forall u :: u in units <==> u == units[0] || u in units[1..];
      ObservedBound(values, units[1..]);
      UnitTermFacts(values, units[0]);
      PairTotalConcat(values, units[0], Flatten(units[1..]));
    }
  }

  /** The two numerators: disagreement within units, and over all pairs of ratings. */
  lemma NumeratorFacts(groups: seq<Unit>)
    ensures 0.0 <= ObservedSum(groups) <= ExpectedNumerator(PairableValues(groups))
    ensures ObservedSum(groups) == 0.0 <==> forall u :: u in Pairable(ScoreLists(groups)) ==> AllEqual(u)
  {
    PairableLengths(ScoreLists(groups));
    ObservedBound(PairableValues(groups), Pairable(ScoreLists(groups)));
    ExpectedOverPairs(PairableValues(groups));
  }

  /** The 0.0 fallback is never taken: with nothing expected, nothing is observed either. */
  lemma FallbackUnreached(groups: seq<Unit>)
    requires |PairableValues(groups)| >= 2 && OrderedPairs(|PairableValues(groups)|) != 0.0
    requires Expected(groups) == 0.0
    ensures Observed(groups) == 0.0 && Alpha(groups) == Some(1.0)
  {
    NumeratorFacts(groups);
    PairsPositive(|PairableValues(groups)|);
    QuotientSign(ExpectedNumerator(PairableValues(groups)), OrderedPairs(|PairableValues(groups)|));
    QuotientSign(ObservedSum(groups), |PairableValues(groups)| as real);
  }

  /** With n pairable ratings, 2 - n <= alpha <= 1, and alpha is 1 exactly when every pairable unit is unanimous. */
  lemma AlphaRange(groups: seq<Unit>)
    requires Alpha(groups).Some?
    ensures 2.0 - |PairableValues(groups)| as real <= Alpha(groups).value <= 1.0
    ensures Alpha(groups).value == 1.0 <==> forall u :: u in Pairable(ScoreLists(groups)) ==> AllEqual(u)
  {
    NumeratorFacts(groups);
    var n := |PairableValues(groups)|;
    PairsPositive(n);
    var o, e := ObservedSum(groups), ExpectedNumerator(PairableValues(groups));
    QuotientSign(e, OrderedPairs(n));
    if e == 0.0 {
      FallbackUnreached(groups);
    } else {
      DisagreementRatio(o, e, n as real, OrderedPairs(n));
    }
  }

  /** (o / n) / (e / p), with p = n(n - 1), lies between 0 and n - 1 when 0 <= o <= e, and is 0 only for o = 0. */
  lemma DisagreementRatio(o: real, e: real, n: real, p: real)
    requires 0.0 <= o <= e && e > 0.0 && n >= 2.0 && p > 0.0 && p == Product(n, n - 1.0)
    ensures e / p > 0.0
    ensures 0.0 <= (o / n) / (e / p) <= n - 1.0
    ensures (o / n) / (e / p) == 0.0 <==> o == 0.0
  {
    var a, b := o / n, e / p;
    QuotientSign(o, n);
    QuotientSign(e, p);
    QuotientSign(a, b);
    QuotientMonotone(o, n, e);
    QuotientMonotone(a, b, Product(b, n - 1.0));
    CancelQuotient(b, n - 1.0);
  }

  lemma CancelQuotient(b: real, c: real)
    requires b != 0.0
    ensures Product(b, c) / b == c
  {
  }

  /** Alpha is missing exactly when no unit has two ratings. */
  lemma AlphaMissing(groups: seq<Unit>)
    ensures Alpha(groups).None? <==> forall i :: 0 <= i < |groups| ==> |groups[i].scores| < 2
  {
    var lists := ScoreLists(groups);
    PairableLengths(lists);
    if Pairable(lists) != [] {
      assert |Pairable(lists)[0]| >= 2;
      var k :| 0 <= k < |lists| && lists[k] == Pairable(lists)[0];
      assert |groups[k].scores| >= 2;
    } else {
      forall i | 0 <= i < |groups| ensures |groups[i].scores| < 2 { assert lists[i] in lists; }
    }
  }

  // ----- Invariance -----

  function Relabel(f: int -> int, scores: seq<int>): seq<int> {
    seq(|scores|, i requires 0 <= i < |scores| => f(scores[i]))
  }

  predicate StrictlyIncreasing(f: int -> int, values: seq<int>) {
    forall a, b :: a in values && b in values && a < b ==> f(a) < f(b)
  }

  predicate StrictlyDecreasing(f: int -> int, values: seq<int>) {
    forall a, b :: a in values && b in values && a < b ==> f(a) > f(b)
  }

  /** An order-preserving or order-reversing change of scale. */
  predicate Rescales(f: int -> int, values: seq<int>) {
    StrictlyIncreasing(f, values) || StrictlyDecreasing(f, values)
  }

  /** Unit by unit, units' holds the relabelled ratings of units in some order. */
  predicate Aligned(units: seq<seq<int>>, units': seq<seq<int>>, f: int -> int) {
    && |units| == |units'|
    && forall i :: 0 <= i < |units| ==> multiset(units'[i]) == multiset(Relabel(f, units[i]))
  }

  lemma {:induction false} AlignedParts(units: seq<seq<int>>, units': seq<seq<int>>, f: int -> int)
    requires Aligned(units, units', f)
    ensures Aligned(Pairable(units), Pairable(units'), f)
    ensures multiset(Flatten(units')) == multiset(Relabel(f, Flatten(units)))
  {
    if units != [] {
      assert forall i :: 0 <= i < |units| - 1 ==> units[1..][i] == units[i + 1] && units'[1..][i] == units'[i + 1];
      AlignedParts(units[1..], units'[1..], f);
      SameElements(units'[0], Relabel(f, units[0]));
      assert Relabel(f, Flatten(units)) == Relabel(f, units[0]) + Relabel(f, Flatten(units[1..]));
    }
  }

  /** Gaps survive any reordering of the ratings and any rescaling of the categories. */
  lemma GapInvariant(values: seq<int>, values': seq<int>, f: int -> int, a: int, b: int)
    requires multiset(values') == multiset(Relabel(f, values))
    requires Rescales(f, values) && a in values && b in values && a < b
    ensures f(a) != f(b) && Gap(values', f(a), f(b)) == Gap(values, a, b)
  {
    var lower', upper' := if f(a) <= f(b) then f(a) else f(b), if f(a) <= f(b) then f(b) else f(a);
    CumulativeTransfer(values, values', f, a, b, lower', upper');
    TallyTransfer(values, values', f, a);
    TallyTransfer(values, values', f, b);
  }

  lemma CumulativeTransfer(values: seq<int>, values': seq<int>, f: int -> int, a: int, b: int, lower': int, upper': int)
    requires multiset(values') == multiset(Relabel(f, values))
    requires forall v :: v in values ==> (a <= v <= b <==> lower' <= f(v) <= upper')
    ensures Cumulative(values', lower', upper') == Cumulative(values, a, b)
  {
    CountTransfer(values, values', f, v => a <= v <= b, v => lower' <= v <= upper');
    CumulativeIsCount(values, a, b);
    CumulativeIsCount(values', lower', upper');
  }

  lemma TallyTransfer(values: seq<int>, values': seq<int>, f: int -> int, a: int)
    requires multiset(values') == multiset(Relabel(f, values)) && Rescales(f, values) && a in values
    ensures Tally(values', f(a)) == Tally(values, a)
  {
    forall v | v in values ensures v == a <==> f(v) == f(a) { assert v < a || v == a || a < v; }
    CountTransfer(values, values', f, v => v == a, v => v == f(a));
    TallyIsCount(values, a);
    TallyIsCount(values', f(a));
  }

  lemma DistanceInvariant(values: seq<int>, values': seq<int>, f: int -> int, a: int, b: int)
    requires multiset(values') == multiset(Relabel(f, values))
    requires Rescales(f, values) && a in values && b in values
    ensures DistanceSquared(values', f(a), f(b)) == DistanceSquared(values, a, b)
  {
    if a < b {
      GapInvariant(values, values', f, a, b);
    } else if b < a {
      GapInvariant(values, values', f, b, a);
    }
  }

  lemma CountTransfer(values: seq<int>, values': seq<int>, f: int -> int, p: int -> bool, q: int -> bool)
    requires multiset(values') == multiset(Relabel(f, values))
    requires forall v :: v in values ==> (p(v) <==> q(f(v)))
    ensures Count(values, p) == Count(values', q)
  {
    forall i | 0 <= i < |values| ensures p(values[i]) == q(Relabel(f, values)[i]) {
      var v := values[i];
      assert v in values;
      assert p(v) == q(f(v));
    }
    CountReindex(values, Relabel(f, values), p, q);
    CountPermuted(values', Relabel(f, values), q);
  }

  lemma PairTotalInvariant(values: seq<int>, values': seq<int>, f: int -> int, a: seq<int>, a': seq<int>)
    requires multiset(values') == multiset(Relabel(f, values)) && Rescales(f, values)
    requires multiset(a') == multiset(Relabel(f, a)) && forall v :: v in a ==> v in values
    ensures PairTotal(values', a', a') == PairTotal(values, a, a)
  {
    var d, d' := (x, y) => DistanceSquared(values, x, y), (x, y) => DistanceSquared(values', x, y);
    var mapped := Relabel(f, a);
    DoubleSumPermuted(a', mapped, a', mapped, d');
    forall i, j | 0 <= i < |a| && 0 <= j < |a| ensures d(a[i], a[j]) == d'(mapped[i], mapped[j]) {
      DistanceInvariant(values, values', f, a[i], a[j]);
    }
    DoubleSumReindex(a, a, mapped, mapped, d, d');
  }

  lemma {:induction false} ObservedInvariant(values: seq<int>, values': seq<int>, f: int -> int,
                                             units: seq<seq<int>>, units': seq<seq<int>>)
    requires multiset(values') == multiset(Relabel(f, values)) && Rescales(f, values)
    requires Aligned(units, units', f) && forall v :: v in Flatten(units) ==> v in values
    requires (forall u :: u in units ==> |u| >= 2) && forall u :: u in units' ==> |u| >= 2
    ensures ObservedNumerator(values', units') == ObservedNumerator(values, units)
  {
    if units != [] {
      assert forall i :: 0 <= i < |units| - 1 ==> units[1..][i] == units[i + 1] && units'[1..][i] == units'[i + 1];
      ObservedInvariant(values, values', f, units[1..], units'[1..]);
      UnitTermInvariant(values, values', f, units[0], units'[0]);
    }
  }

  lemma UnitTermInvariant(values: seq<int>, values': seq<int>, f: int -> int, scores: seq<int>, scores': seq<int>)
    requires multiset(values') == multiset(Relabel(f, values)) && Rescales(f, values)
    requires multiset(scores') == multiset(Relabel(f, scores)) && forall v :: v in scores ==> v in values
    requires |scores| >= 2 && |scores'| >= 2
    ensures UnitTerm(values', scores') == UnitTerm(values, scores)
  {
    PairTotalInvariant(values, values', f, scores, scores');
    SameElements(scores', Relabel(f, scores));
  }

  /** Alpha is a function of the three quantities it is computed from. */
  lemma AlphaCongruent(groups: seq<Unit>, groups': seq<Unit>)
    requires |PairableValues(groups)| == |PairableValues(groups')|
    requires ObservedSum(groups) == ObservedSum(groups')
    requires ExpectedNumerator(PairableValues(groups)) == ExpectedNumerator(PairableValues(groups'))
    ensures Alpha(groups) == Alpha(groups')
  {
  }

  /** Reordering ratings within units, renaming units, and order-preserving or order-reversing
      relabelling of the categories, all at once, leave alpha unchanged. */
  lemma RescalingInvariant(groups: seq<Unit>, groups': seq<Unit>, f: int -> int)
    requires Aligned(ScoreLists(groups), ScoreLists(groups'), f)
    requires Rescales(f, PairableValues(groups))
    ensures Alpha(groups') == Alpha(groups)
  {
    var units, units' := Pairable(ScoreLists(groups)), Pairable(ScoreLists(groups'));
    AlignedParts(ScoreLists(groups), ScoreLists(groups'), f);
    AlignedParts(units, units', f);
    PairableLengths(ScoreLists(groups));
    PairableLengths(ScoreLists(groups'));
    var values, values' := Flatten(units), Flatten(units');
    SameElements(values', Relabel(f, values));
    ObservedInvariant(values, values', f, units, units');
    PairTotalInvariant(values, values', f, values, values');
    ExpectedOverPairs(values);
    ExpectedOverPairs(values');
    AlphaCongruent(groups, groups');
  }

  lemma {:induction false} FlattenTally(units: seq<seq<int>>, v: int, tally: seq<int> -> real)
    requires forall u :: tally(u) == Tally(u, v) as real
    ensures Tally(Flatten(units), v) as real == SumBy(units, tally)
  {
    if units != [] { FlattenTally(units[1..], v, tally); }
  }

  lemma {:induction false} PairableMultiplicity(units: seq<seq<int>>, u: seq<int>)
    ensures multiset(Pairable(units))[u] == if |u| >= 2 then multiset(units)[u] else 0
  {
    if units != [] {
      PairableMultiplicity(units[1..], u);
      assert units == [units[0]] + units[1..];
      assert multiset(units) == multiset{units[0]} + multiset(units[1..]);
    }
  }

  lemma PartsPermuted(a: seq<seq<int>>, b: seq<seq<int>>)
    requires multiset(a) == multiset(b)
    ensures multiset(Pairable(a)) == multiset(Pairable(b))
    ensures multiset(Flatten(a)) == multiset(Flatten(b))
  {
    forall u ensures multiset(Pairable(a))[u] == multiset(Pairable(b))[u] {
      PairableMultiplicity(a, u);
      PairableMultiplicity(b, u);
    }
    forall v ensures multiset(Flatten(a))[v] == multiset(Flatten(b))[v] {
      var tally := u => Tally(u, v) as real;
      FlattenTally(a, v, tally);
      FlattenTally(b, v, tally);
      SumPermuted(a, b, tally);
    }
  }

  lemma {:induction false} ObservedAsSum(values: seq<int>, units: seq<seq<int>>, term: seq<int> -> real)
    requires forall u :: u in units ==> |u| >= 2
    requires forall u :: |u| >= 2 ==> term(u) == UnitTerm(values, u)
    ensures ObservedNumerator(values, units) == SumBy(units, term)
  {
    if units != [] { ObservedAsSum(values, units[1..], term); }
  }

  lemma UnitTermPermuted(values: seq<int>, values': seq<int>, scores: seq<int>)
    requires multiset(values) == multiset(values')
    requires |scores| >= 2 && forall v :: v in scores ==> v in values
    ensures UnitTerm(values', scores) == UnitTerm(values, scores)
  {
    assert Relabel(x => x, values) == values && Relabel(x => x, scores) == scores;
    UnitTermInvariant(values, values', x => x, scores, scores);
  }

  lemma {:induction false} FlattenMembers(units: seq<seq<int>>)
    ensures forall u, v :: u in units && v in u ==> v in Flatten(units)
  {
    if units != [] {
      FlattenMembers(units[1..]);
      assert forall u :: u in units <==> u == units[0] || u in units[1..];
    }
  }

  /** The order in which the units are listed, and their names, do not matter. */
  lemma UnitOrderIrrelevant(groups: seq<Unit>, groups': seq<Unit>)
    requires multiset(ScoreLists(groups)) == multiset(ScoreLists(groups'))
    ensures Alpha(groups') == Alpha(groups)
  {
    var units, units' := Pairable(ScoreLists(groups)), Pairable(ScoreLists(groups'));
    PartsPermuted(ScoreLists(groups), ScoreLists(groups'));
    PartsPermuted(units, units');
    PairableLengths(ScoreLists(groups));
    PairableLengths(ScoreLists(groups'));
    var values, values' := Flatten(units), Flatten(units');
    SameElements(values, values');
    FlattenMembers(units);
    ObservedPermuted(values, values', units, units');
    ExpectedPermuted(values, values');
    AlphaCongruent(groups, groups');
  }

  lemma ObservedPermuted(values: seq<int>, values': seq<int>, units: seq<seq<int>>, units': seq<seq<int>>)
    requires multiset(values) == multiset(values') && multiset(units) == multiset(units')
    requires (forall u :: u in units ==> |u| >= 2) && forall u, v :: u in units && v in u ==> v in values
    ensures (forall u :: u in units' ==> |u| >= 2) && ObservedNumerator(values', units') == ObservedNumerator(values, units)
  {
    SameElements(units, units');
    var term: seq<int> -> real := u => if |u| >= 2 then UnitTerm(values, u) else 0.0;
    var term': seq<int> -> real := u => if |u| >= 2 then UnitTerm(values', u) else 0.0;
    ObservedAsSum(values, units, term);
    ObservedAsSum(values', units', term');
    SumPermuted(units', units, term');
    forall u | u in units ensures term'(u) == term(u) { UnitTermPermuted(values, values', u); }
    SumCongruent(units, term', term);
  }

  lemma ExpectedPermuted(values: seq<int>, values': seq<int>)
    requires multiset(values) == multiset(values')
    ensures ExpectedNumerator(values') == ExpectedNumerator(values)
  {
    SameElements(values, values');
    assert Relabel(x => x, values) == values;
    PairTotalInvariant(values, values', x => x, values, values');
    ExpectedOverPairs(values);
    ExpectedOverPairs(values');
  }
}
