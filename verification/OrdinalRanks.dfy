/** The ordinal distance is the distance of average ranks, and alpha is a formula in these ranks and the unit sizes. */
module OrdinalRanks {
  import opened Options
  import opened RealArithmetic
  import opened Sums
  import opened Sequences
  import opened OrdinalAlpha
  import Ranks

  /** The average rank of a category among the pooled ratings. */
  function RankAmong(values: seq<int>, category: int): real {
    Ranks.RankOf(AsReals(values), category as real)
  }

  lemma CountsAsReals(values: seq<int>, c: int)
    ensures Count(AsReals(values), Ranks.Less(c as real)) == Count(values, v => v < c)
    ensures Count(AsReals(values), Ranks.Same(c as real)) == Tally(values, c)
  {
    CountReindex(values, AsReals(values), v => v < c, Ranks.Less(c as real));
    CountReindex(values, AsReals(values), v => v == c, Ranks.Same(c as real));
    TallyIsCount(values, c);
  }

  /** The half-weighted cumulative gap is the difference of the ranks. */
  lemma GapIsRankDifference(values: seq<int>, a: int, b: int)
    requires a < b
    ensures Gap(values, a, b) == RankAmong(values, b) - RankAmong(values, a)
    ensures Gap(values, b, a) == RankAmong(values, b) - RankAmong(values, a)
  {
    CountsAsReals(values, a);
    CountsAsReals(values, b);
    CumulativeIsCount(values, a, b);
    TallyIsCount(values, b);
    var below, upTo := (v: int) => v < a, (v: int) => v <= b;
    var between, less, same := (v: int) => a <= v <= b, (v: int) => v < b, (v: int) => v == b;
    CountSplit(values, below, between, upTo);
    CountSplit(values, less, same, upTo);
    SameCounts(values, a, b, below, between, less, same);
  }

  lemma SameCounts(values: seq<int>, a: int, b: int, below: int -> bool, between: int -> bool, less: int -> bool, same: int -> bool)
    requires forall v :: (below(v) <==> v < a) && (between(v) <==> a <= v <= b) && (less(v) <==> v < b) && (same(v) <==> v == b)
    ensures Count(values, below) == Count(values, v => v < a) && Count(values, between) == Count(values, v => a <= v <= b)
    ensures Count(values, less) == Count(values, v => v < b) && Count(values, same) == Count(values, v => v == b)
  {
    CountReindex(values, values, below, v => v < a);
    CountReindex(values, values, between, v => a <= v <= b);
    CountReindex(values, values, less, v => v < b);
    CountReindex(values, values, same, v => v == b);
  }

  /** The squared ordinal distance is the squared difference of the average ranks. */
  lemma DistanceIsRankDistance(values: seq<int>, a: int, b: int)
    ensures DistanceSquared(values, a, b) == Square(RankAmong(values, a) - RankAmong(values, b))
  {
    var d := RankAmong(values, a) - RankAmong(values, b);
    if a < b {
      GapIsRankDifference(values, a, b);
      NegatedSquare(d);
    } else if b < a {
      GapIsRankDifference(values, b, a);
    } else {
      SquareSign(d);
    }
  }

  lemma NegatedSquare(d: real)
    ensures Square(-d) == Square(d)
  {
  }

  /** The squared rank differences over all ordered pairs of a list of ratings. */
  function RankSpread(values: seq<int>, scores: seq<int>): real {
    DoubleSum(scores, scores, (a, b) => Square(RankAmong(values, a) - RankAmong(values, b)))
  }

  /** The spread within units, each weighted by one over its size less one; a single rating has none. */
  function SpreadWithin(values: seq<int>, units: seq<seq<int>>): real {
    if units == [] then 0.0
    else (if |units[0]| >= 2 then RankSpread(values, units[0]) / (|units[0]| - 1) as real else 0.0) + SpreadWithin(values, units[1..])
  }

  lemma SpreadIsDoubleSum(values: seq<int>, scores: seq<int>, d: (int, int) -> real)
    requires forall a, b :: d(a, b) == DistanceSquared(values, a, b)
    ensures DoubleSum(scores, scores, d) == RankSpread(values, scores)
  {
    forall i, j | 0 <= i < |scores| && 0 <= j < |scores|
      ensures d(scores[i], scores[j]) == Square(RankAmong(values, scores[i]) - RankAmong(values, scores[j]))
    {
      DistanceIsRankDistance(values, scores[i], scores[j]);
    }
    DoubleSumReindex(scores, scores, scores, scores, d, (a, b) => Square(RankAmong(values, a) - RankAmong(values, b)));
  }

  lemma {:induction false} ObservedIsWithin(values: seq<int>, units: seq<seq<int>>)
    ensures forall u :: u in Pairable(units) ==> |u| >= 2
    ensures ObservedNumerator(values, Pairable(units)) == SpreadWithin(values, units)
  {
    if units != [] {
      ObservedIsWithin(values, units[1..]);
      if |units[0]| >= 2 {
        assert Pairable(units) == [units[0]] + Pairable(units[1..]);
        TermIsSpread(values, units[0]);
        ObservedFirst(values, units[0], Pairable(units[1..]));
      } else {
        assert Pairable(units) == Pairable(units[1..]);
      }
    }
  }

  lemma TermIsSpread(values: seq<int>, u: seq<int>)
    requires |u| >= 2
    ensures UnitTerm(values, u) == RankSpread(values, u) / (|u| - 1) as real
  {
    SpreadIsDoubleSum(values, u, (a, b) => DistanceSquared(values, a, b));
  }

  lemma ObservedFirst(values: seq<int>, u: seq<int>, rest: seq<seq<int>>)
    requires |u| >= 2 && forall v :: v in rest ==> |v| >= 2
    ensures ObservedNumerator(values, [u] + rest) == UnitTerm(values, u) + ObservedNumerator(values, rest)
  {
    assert ([u] + rest)[1..] == rest;
  }

  function FromSpreads(n: nat, within: real, total: real): real {
    if total == 0.0 then 1.0 else 1.0 - Product(n as real - 1.0, within) / total
  }

  lemma ObservedSumIsWithin(groups: seq<Unit>)
    ensures ObservedSum(groups) == SpreadWithin(PairableValues(groups), ScoreLists(groups))
  {
    ObservedIsWithin(PairableValues(groups), ScoreLists(groups));
  }

  /** Alpha from the average ranks of the pooled ratings and the unit sizes alone: with n ratings in units of two or more,
      one less n - 1 times the spread within units over the spread of all of them, and 1 if they do not spread. */
  lemma AlphaFromRanks(groups: seq<Unit>)
    requires |PairableValues(groups)| >= 2
    ensures var values := PairableValues(groups);
      Alpha(groups) == Some(FromSpreads(|values|, SpreadWithin(values, ScoreLists(groups)), RankSpread(values, values)))
  {
    var values := PairableValues(groups);
    ObservedSumIsWithin(groups);
    ExpectedIsSpread(values);
    AlphaOfSums(groups, SpreadWithin(values, ScoreLists(groups)), RankSpread(values, values));
  }

  lemma ExpectedIsSpread(values: seq<int>)
    ensures ExpectedNumerator(values) == RankSpread(values, values)
  {
    ExpectedOverPairs(values);
    SpreadIsDoubleSum(values, values, (a, b) => DistanceSquared(values, a, b));
  }

  lemma AlphaOfSums(groups: seq<Unit>, within: real, total: real)
    requires |PairableValues(groups)| >= 2
    requires ObservedSum(groups) == within && ExpectedNumerator(PairableValues(groups)) == total
    ensures Alpha(groups) == Some(FromSpreads(|PairableValues(groups)|, within, total))
  {
    var n := |PairableValues(groups)|;
    PairsPositive(n);
    ValueOfSums(n, within, total);
    if Expected(groups) == 0.0 { FallbackUnreached(groups); }
  }

  lemma ValueOfSums(n: nat, within: real, total: real)
    requires n >= 2 && OrderedPairs(n) > 0.0
    ensures total / OrderedPairs(n) == 0.0 <==> total == 0.0
    ensures total != 0.0 ==> 1.0 - (within / n as real) / (total / OrderedPairs(n)) == FromSpreads(n, within, total)
  {
    PairsAsProduct(n);
    QuotientSign(total, OrderedPairs(n));
    if total != 0.0 { QuotientOfShares(within, total, n as real, OrderedPairs(n)); }
  }

  lemma PairsAsProduct(n: nat)
    requires n >= 2
    ensures OrderedPairs(n) == Product(n as real, n as real - 1.0) > 0.0
  {
    PairsPositive(n);
  }

  lemma QuotientOfShares(o: real, e: real, n: real, p: real)
    requires n > 0.0 && e != 0.0 && p > 0.0 && p == Product(n, n - 1.0) && e / p != 0.0
    ensures (o / n) / (e / p) == Product(n - 1.0, o) / e
  {
    var share, part, q := e / p, o / n, Product(n - 1.0, o) / e;
    QuotientSign(e, p);
    QuotientSign(o, n);
    QuotientTimes(Product(n - 1.0, o), e);
    calc {
      (q * share) * p;
      q * (share * p);
      (n - 1.0) * o;
      (n - 1.0) * (part * n);
      { assert p == n * (n - 1.0); }
      part * p;
    }
    CancelFactor(q * share, part, p);
    QuotientUnique(part, share, q);
  }

  lemma QuotientTimes(a: real, b: real)
    requires b != 0.0
    ensures (a / b) * b == a
  {
  }

  lemma CancelFactor(x: real, y: real, p: real)
    requires p > 0.0 && x * p == y * p
    ensures x == y
  {
    QuotientUnique(x * p, p, x);
    QuotientUnique(x * p, p, y);
  }
}
