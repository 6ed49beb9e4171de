/** Percentiles by linear interpolation at (n - 1)q, as the latency summary and the bootstrap take them. */
module Quantiles {
  import opened RealArithmetic
  import opened Sums
  import opened Sorting

  predicate AtMost(a: real, b: real) {
    a <= b
  }

  function Ceiling(x: real): int {
    if x.Floor as real == x then x.Floor else x.Floor + 1
  }

  /** The value at a fractional position of an ordered list. */
  function ValueAt(ordered: seq<real>, position: real): real
    requires ordered != [] && 0.0 <= position <= (|ordered| - 1) as real
  {
    var low, high := position.Floor, Ceiling(position);
    ordered[low] + Product(ordered[high] - ordered[low], position - low as real)
  }

  function Position(n: nat, quantile: real): real
    requires n > 0
  {
    Product((n - 1) as real, quantile)
  }

  lemma PositionInRange(n: nat, quantile: real)
    requires n > 0 && 0.0 <= quantile <= 1.0
    ensures 0.0 <= Position(n, quantile) <= (n - 1) as real
  {
    var m := (n - 1) as real;
    assert m * 0.0 == 0.0 && m * 1.0 == m;
    ScaleMonotone(m, 0.0, quantile);
    ScaleMonotone(m, quantile, 1.0);
    assert 0.0 <= m * quantile <= m;
    assert Position(n, quantile) == m * quantile;
  }

  function Quantile(values: seq<real>, quantile: real): real
    requires values != [] && 0.0 <= quantile <= 1.0
  {
    SortedSpec(values, AtMost);
    PositionInRange(|values|, quantile);
    ValueAt(Sorted(values, AtMost), Position(|values|, quantile))
  }

  /** The percentile of integer latencies; an empty population reports zero. */
  function Percentile(values: seq<int>, quantile: real): real
    requires 0.0 <= quantile <= 1.0
  {
    if values == [] then 0.0 else Quantile(AsReals(values), quantile)
  }

  /** Inside one cell the value is linear, also at the cell's two ends. */
  lemma InCell(s: seq<real>, p: real, k: nat)
    requires k + 1 < |s| && k as real <= p <= (k + 1) as real
    ensures ValueAt(s, p) == s[k] + Product(s[k + 1] - s[k], p - k as real)
  {
    if p == (k + 1) as real {
      assert p.Floor == k + 1 && Ceiling(p) == k + 1;
    } else {
      assert p.Floor == k;
    }
  }

  /** Linear interpolation moves up with its argument and stays between the ends of the cell. */
  lemma CellMonotone(lo: real, hi: real, x: real, y: real)
    requires lo <= hi && 0.0 <= x <= y <= 1.0
    ensures lo <= lo + Product(hi - lo, x) <= lo + Product(hi - lo, y) <= hi
  {
    ScaleMonotone(hi - lo, 0.0, x);
    ScaleMonotone(hi - lo, x, y);
    ScaleMonotone(hi - lo, y, 1.0);
  }

  /** Every position but the last lies in the cell of its floor. */
  lemma CellOf(s: seq<real>, p: real) returns (k: nat)
    requires |s| >= 2 && 0.0 <= p <= (|s| - 1) as real
    ensures k + 1 < |s| && k as real <= p <= (k + 1) as real
    ensures p < (|s| - 1) as real ==> k == p.Floor
  {
    k := if p == (|s| - 1) as real then |s| - 2 else p.Floor;
  }

  lemma ValueAtMonotone(s: seq<real>, p: real, q: real)
    requires Ordered(s, AtMost) && s != [] && 0.0 <= p <= q <= (|s| - 1) as real
    ensures s[0] <= ValueAt(s, p) <= ValueAt(s, q) <= s[|s| - 1]
  {
    if |s| >= 2 {
      var j := CellOf(s, p);
      var k := CellOf(s, q);
      InCell(s, p, j);
      InCell(s, q, k);
      assert AtMost(s[j], s[j + 1]) && AtMost(s[k], s[k + 1]);
      if j == k {
        CellMonotone(s[k], s[k + 1], p - k as real, q - k as real);
      } else {
        CellMonotone(s[j], s[j + 1], p - j as real, p - j as real);
        CellMonotone(s[k], s[k + 1], q - k as real, q - k as real);
        assert j < k;
        assert j + 1 == k || AtMost(s[j + 1], s[k]);
      }
      assert j == 0 || AtMost(s[0], s[j]);
      assert k + 1 == |s| - 1 || AtMost(s[k + 1], s[|s| - 1]);
    }
  }

  lemma SortedReals(values: seq<real>) returns (s: seq<real>)
    ensures s == Sorted(values, AtMost) && |s| == |values|
    ensures Ordered(s, AtMost) && multiset(s) == multiset(values) && forall x :: x in values <==> x in s
  {
    s := Sorted(values, AtMost);
    SortedSpec(values, AtMost);
    SameElements(values, s);
  }

  lemma PositionMonotone(n: nat, q: real, r: real)
    requires n > 0 && 0.0 <= q <= r <= 1.0
    ensures 0.0 <= Position(n, q) <= Position(n, r) <= (n - 1) as real
  {
    PositionInRange(n, q);
    PositionInRange(n, r);
    ScaleMonotone((n - 1) as real, q, r);
  }

  /** A larger quantile gives a value at least as large, and all lie between two elements of the list. */
  lemma QuantileMonotone(values: seq<real>, q: real, r: real) returns (least: real, most: real)
    requires values != [] && 0.0 <= q <= r <= 1.0
    ensures least <= Quantile(values, q) <= Quantile(values, r) <= most
    ensures least in values && most in values
  {
    var s := SortedReals(values);
    PositionMonotone(|values|, q, r);
    ValueAtMonotone(s, Position(|values|, q), Position(|values|, r));
    least, most := s[0], s[|s| - 1];
  }

  /** Bounds on every element bound the quantiles. */
  lemma QuantileBetween(values: seq<real>, q: real, least: real, most: real)
    requires values != [] && 0.0 <= q <= 1.0
    requires forall x :: x in values ==> least <= x <= most
    ensures least <= Quantile(values, q) <= most
  {
    var lo, hi := QuantileMonotone(values, q, q);
  }

  /** The two ends are attained: quantile 0 is the minimum and quantile 1 the maximum. */
  lemma QuantileExtremes(values: seq<real>)
    requires values != []
    ensures Quantile(values, 0.0) in values && forall x :: x in values ==> Quantile(values, 0.0) <= x
    ensures Quantile(values, 1.0) in values && forall x :: x in values ==> x <= Quantile(values, 1.0)
  {
    var s := SortedReals(values);
    assert Position(|values|, 0.0) == 0.0 && Position(|values|, 1.0) == (|s| - 1) as real;
    assert Quantile(values, 0.0) == s[0] && Quantile(values, 1.0) == s[|s| - 1];
    assert s[0] in s && s[|s| - 1] in s;
    forall x | x in values ensures s[0] <= x <= s[|s| - 1] {
      var i :| 0 <= i < |s| && s[i] == x;
      assert i == 0 || AtMost(s[0], s[i]);
      assert i == |s| - 1 || AtMost(s[i], s[|s| - 1]);
    }
  }

  lemma QuantilePermuted(values: seq<real>, values': seq<real>, q: real)
    requires values != [] && 0.0 <= q <= 1.0 && multiset(values) == multiset(values')
    ensures values' != [] && Quantile(values, q) == Quantile(values', q)
  {
    SameElements(values, values');
    SortedPermuted(values, values', AtMost);
  }

  /** Percentiles of the latencies: monotone in the quantile, between minimum and maximum, order irrelevant. */
  lemma PercentileFacts(values: seq<int>, values': seq<int>, q: real, r: real)
    requires 0.0 <= q <= r <= 1.0 && multiset(values) == multiset(values')
    ensures Percentile(values, q) <= Percentile(values, r)
    ensures Percentile(values', q) == Percentile(values, q)
    ensures values != [] ==> exists x, y :: x in values && y in values
                                 && x as real <= Percentile(values, q) <= Percentile(values, r) <= y as real
  {
    SameElements(values, values');
    if values != [] {
      var reals, reals' := AsReals(values), AsReals(values');
      ImagePermuted(values, values', x => x as real, reals, reals');
      QuantilePermuted(reals, reals', q);
      var x, y := QuantileMonotone(reals, q, r);
      var i, j :| 0 <= i < |values| && 0 <= j < |values| && reals[i] == x && reals[j] == y;
      assert values[i] in values && values[j] in values;
    }
  }

  // ----- Which value a quantile is -----

  /** At the fraction t between neighbours i and i + 1 of the values in order, the quantile is their weighted mean. */
  lemma QuantileInterpolates(values: seq<real>, ordered: seq<real>, q: real, i: nat, t: real)
    requires multiset(ordered) == multiset(values) && Ordered(ordered, AtMost) && i + 1 < |ordered|
    requires 0.0 <= q <= 1.0 && 0.0 <= t <= 1.0 && Product((|ordered| - 1) as real, q) == i as real + t
    ensures values != [] && Quantile(values, q) == Product(1.0 - t, ordered[i]) + Product(t, ordered[i + 1])
  {
    OrderedIsSorted(values, ordered);
    InCell(ordered, i as real + t, i);
    WeightedMean(ordered[i], ordered[i + 1], t);
  }

  lemma OrderedIsSorted(values: seq<real>, ordered: seq<real>)
    requires multiset(ordered) == multiset(values) && Ordered(ordered, AtMost)
    ensures |values| == |ordered| && ordered == Sorted(values, AtMost)
  {
    var s := SortedReals(values);
    SameElements(ordered, values);
    OrderedUnique(ordered, s, AtMost);
  }

  lemma WeightedMean(lo: real, hi: real, t: real)
    ensures lo + Product(hi - lo, t) == Product(1.0 - t, lo) + Product(t, hi)
  {
  }

  function Below(v: real): real -> bool {
    x => x < v
  }

  function UpTo(v: real): real -> bool {
    x => x <= v
  }

  lemma CountWithin(s: seq<real>, p: real -> bool, k: nat)
    requires k <= |s|
    ensures (forall i :: 0 <= i < |s| && p(s[i]) ==> i < k) ==> Count(s, p) <= k
    ensures (forall i :: 0 <= i < k ==> p(s[i])) ==> Count(s, p) >= k
  {
    CountConcat(s[..k], s[k..], p);
    assert s[..k] + s[k..] == s;
    if forall i :: 0 <= i < |s| && p(s[i]) ==> i < k {
      forall x | x in s[k..] ensures !p(x) {
        var i :| 0 <= i < |s[k..]| && s[k..][i] == x;
        assert s[k + i] == x;
      }
      CountNone(s[k..], p);
      CountAtMost(s[..k], p);
    }
    if forall i :: 0 <= i < k ==> p(s[i]) { CountInterval(s[..k], p, 0, k); }
  }

  lemma {:induction false} CountAtMost(s: seq<real>, p: real -> bool)
    ensures Count(s, p) <= |s|
  {
    if s != [] { CountAtMost(s[1..], p); }
  }

  /** The value at a position lies between its two neighbours. */
  lemma ValueBetween(s: seq<real>, p: real)
    requires Ordered(s, AtMost) && s != [] && 0.0 <= p <= (|s| - 1) as real
    ensures s[p.Floor] <= ValueAt(s, p) <= s[Ceiling(p)]
  {
    var low, high := p.Floor, Ceiling(p);
    if low < high {
      assert AtMost(s[low], s[high]);
      CellMonotone(s[low], s[high], p - low as real, p - low as real);
    }
  }

  /** How many values lie below a quantile, and how many do not exceed it: with n values, less than (n - 1)q + 1 and more
      than (n - 1)q. */
  lemma QuantileCoverage(values: seq<real>, q: real)
    requires values != [] && 0.0 <= q <= 1.0
    ensures Count(values, Below(Quantile(values, q))) as real < Product((|values| - 1) as real, q) + 1.0
    ensures Count(values, UpTo(Quantile(values, q))) as real > Product((|values| - 1) as real, q)
  {
    var s := SortedReals(values);
    var p, v := Position(|values|, q), Quantile(values, q);
    PositionInRange(|values|, q);
    ValueBetween(s, p);
    CountPermuted(values, s, Below(v));
    CountPermuted(values, s, UpTo(v));
    CountBelow(s, v, Ceiling(p));
    CountUpTo(s, v, p.Floor);
  }

  lemma CountBelow(s: seq<real>, v: real, k: nat)
    requires Ordered(s, AtMost) && k < |s| && v <= s[k]
    ensures Count(s, Below(v)) <= k
  {
    forall i | k <= i < |s| ensures !Below(v)(s[i]) { assert i == k || AtMost(s[k], s[i]); }
    CountWithin(s, Below(v), k);
  }

  lemma CountUpTo(s: seq<real>, v: real, k: nat)
    requires Ordered(s, AtMost) && k < |s| && s[k] <= v
    ensures Count(s, UpTo(v)) >= k + 1
  {
    forall i | 0 <= i < k + 1 ensures UpTo(v)(s[i]) { assert i == k || AtMost(s[i], s[k]); }
    CountWithin(s, UpTo(v), k + 1);
  }

  // ----- Negation -----

  function Negated(s: seq<real>): seq<real> {
    seq(|s|, i requires 0 <= i < |s| => -s[i])
  }

  function NegatedReversed(s: seq<real>): seq<real> {
    seq(|s|, i requires 0 <= i < |s| => -s[|s| - 1 - i])
  }

  lemma {:induction false} NegatedReversedMultiset(s: seq<real>)
    ensures multiset(NegatedReversed(s)) == multiset(Negated(s))
  {
    if s != [] {
      NegatedReversedMultiset(s[1..]);
      assert NegatedReversed(s) == NegatedReversed(s[1..]) + [-s[0]];
      assert Negated(s) == [-s[0]] + Negated(s[1..]);
    }
  }

  lemma SortedNegated(values: seq<real>)
    ensures Sorted(Negated(values), AtMost) == NegatedReversed(Sorted(values, AtMost))
  {
    var s := SortedReals(values);
    var t := SortedReals(Negated(values));
    NegatedPermuted(values, s);
    OrderedUnique(NegatedReversed(s), t, AtMost);
  }

  lemma NegatedPermuted(s: seq<real>, t: seq<real>)
    requires multiset(s) == multiset(t)
    ensures multiset(Negated(s)) == multiset(NegatedReversed(t))
  {
    SameElements(s, t);
    NegatedReversedMultiset(t);
    ImagePermuted(s, t, x => -x, Negated(s), Negated(t));
  }

  lemma ValueAtMirrored(s: seq<real>, p: real)
    requires s != [] && 0.0 <= p <= (|s| - 1) as real
    ensures ValueAt(NegatedReversed(s), (|s| - 1) as real - p) == -ValueAt(s, p)
  {
    if |s| >= 2 {
      var k := CellOf(s, p);
      InCell(s, p, k);
      InCell(NegatedReversed(s), (|s| - 1) as real - p, |s| - 2 - k);
      MirroredCell(s[k], s[k + 1], p - k as real);
    }
  }

  lemma MirroredCell(lo: real, hi: real, x: real)
    ensures -hi + Product(-lo - -hi, 1.0 - x) == -(lo + Product(hi - lo, x))
  {
    ProductDistributes(1.0 - x, x, hi - lo);
  }

  /** The quantiles of the negated values are the negated mirror quantiles. */
  lemma QuantileNegated(values: seq<real>, q: real)
    requires values != [] && 0.0 <= q <= 1.0
    ensures Quantile(Negated(values), q) == -Quantile(values, 1.0 - q)
  {
    SortedNegated(values);
    var s := SortedReals(values);
    MirroredValue(s, q);
  }

  lemma MirroredValue(s: seq<real>, q: real)
    requires s != [] && 0.0 <= q <= 1.0
    ensures 0.0 <= Position(|s|, q) <= (|s| - 1) as real && 0.0 <= Position(|s|, 1.0 - q) <= (|s| - 1) as real
    ensures ValueAt(NegatedReversed(s), Position(|s|, q)) == -ValueAt(s, Position(|s|, 1.0 - q))
  {
    PositionInRange(|s|, q);
    PositionInRange(|s|, 1.0 - q);
    MirroredPosition(|s|, q);
    ValueAtMirrored(s, Position(|s|, 1.0 - q));
  }

  lemma MirroredPosition(n: nat, q: real)
    requires n > 0
    ensures (n - 1) as real - Position(n, 1.0 - q) == Position(n, q)
  {
    ProductDistributes(1.0 - q, q, (n - 1) as real);
  }
}
