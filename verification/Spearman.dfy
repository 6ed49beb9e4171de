/** The Spearman correlation of the human summary, on exact reals. */
module Spearman {
  import opened RealArithmetic
  import opened Sums
  import opened Sequences
  import opened Ranks

  /** A defined correlation stands for numerator / sqrt(xVariance * yVariance). */
  datatype Correlation = Undefined | Rho(numerator: real, xVariance: real, yVariance: real)

  type Pair = (real, real)

  function Mean(s: seq<real>): real
    requires s != []
  {
    Total(s) / |s| as real
  }

  function Variance(s: seq<real>, mean: real): real {
    SumBy(s, a => Square(a - mean))
  }

  function Covariance(a: seq<real>, b: seq<real>, aMean: real, bMean: real): real
    requires |a| == |b|
  {
    SumBy(Zip(a, b), (p: Pair) => Product(p.0 - aMean, p.1 - bMean))
  }

  function Zip(a: seq<real>, b: seq<real>): seq<Pair>
    requires |a| == |b|
  {
    seq(|a|, i requires 0 <= i < |a| => (a[i], b[i]))
  }

  function Correlate(x: seq<real>, y: seq<real>): Correlation {
    if |x| != |y| || |x| < 2 then Undefined
    else
      var xRanks, yRanks := CountingRanks(x), CountingRanks(y);
      var xMean, yMean := Mean(xRanks), Mean(yRanks);
      var xVariance, yVariance := Variance(xRanks, xMean), Variance(yRanks, yMean);
      if xVariance == 0.0 || yVariance == 0.0 then Undefined
      else Rho(Covariance(xRanks, yRanks, xMean, yMean), xVariance, yVariance)
  }

  lemma VarianceNonnegative(s: seq<real>, mean: real)
    ensures Variance(s, mean) >= 0.0
    ensures Variance(s, mean) == 0.0 <==> forall a :: a in s ==> a == mean
  {
    var f := a => Square(a - mean);
    forall a ensures f(a) >= 0.0 && (f(a) == 0.0 <==> a == mean) { SquareSign(a - mean); }
    SumNonnegative(s, f);
    SumZero(s, f);
  }

  /** The sum of products of two readings of each pair. */
  function Moment(s: seq<Pair>, f: Pair -> real, g: Pair -> real): real {
    SumBy(s, p => Product(f(p), g(p)))
  }

  lemma MomentSquare(s: seq<Pair>, f: Pair -> real)
    ensures Moment(s, f, f) >= 0.0
    ensures Moment(s, f, f) == 0.0 <==> forall p :: p in s ==> f(p) == 0.0
  {
    var square := p => Square(f(p));
    forall p ensures square(p) >= 0.0 && (square(p) == 0.0 <==> f(p) == 0.0) { SquareSign(f(p)); }
    SumNonnegative(s, square);
    SumZero(s, square);
    SumCongruent(s, p => Product(f(p), f(p)), square);
  }

  /** Summing (yf - ng)^2 term by term. */
  lemma {:induction false} SquareExpands(s: seq<Pair>, f: Pair -> real, g: Pair -> real, h: Pair -> real, y: real, n: real)
    requires forall p :: h(p) == y * f(p) - n * g(p)
    ensures Moment(s, h, h) == y * y * Moment(s, f, f) - 2.0 * y * n * Moment(s, f, g) + n * n * Moment(s, g, g)
  {
    if s != [] {
      SquareExpands(s[1..], f, g, h, y, n);
      var a, b := f(s[0]), g(s[0]);
      var ff, fg, gg := Moment(s[1..], f, f), Moment(s[1..], f, g), Moment(s[1..], g, g);
      assert y * y * (a * a + ff) == y * y * (a * a) + y * y * ff;
      assert 2.0 * y * n * (a * b + fg) == 2.0 * y * n * (a * b) + 2.0 * y * n * fg;
      assert n * n * (b * b + gg) == n * n * (b * b) + n * n * gg;
    }
  }

  /** The Cauchy-Schwarz inequality over a list of pairs. */
  lemma CauchySchwarz(s: seq<Pair>, f: Pair -> real, g: Pair -> real)
    ensures Moment(s, f, g) * Moment(s, f, g) <= Moment(s, f, f) * Moment(s, g, g)
  {
    var n, y := Moment(s, f, g), Moment(s, g, g);
    MomentSquare(s, g);
    if y == 0.0 {
      SumConstant(s, 0.0, p => Product(f(p), g(p)));
    } else {
      var h := p => y * f(p) - n * g(p);
      SquareExpands(s, f, g, h, y, n);
      MomentSquare(s, h);
      Discriminant(Moment(s, f, f), y, n);
    }
  }

  lemma VarianceIsMoment(s: seq<Pair>, r: seq<real>, m: real, f: Pair -> real)
    requires |s| == |r| && forall i :: 0 <= i < |r| ==> f(s[i]) == r[i] - m
    ensures Variance(r, m) == Moment(s, f, f)
  {
    var square, deviation := p => Product(f(p), f(p)), u => Square(u - m);
    forall i | 0 <= i < |r| ensures square(s[i]) == deviation(r[i]) {
      var d := r[i] - m;
      assert f(s[i]) == d;
      assert Product(f(s[i]), f(s[i])) == Square(d);
    }
    SumReindex(s, r, square, deviation);
  }

  /** The covariance of two lists is bounded by their variances about the same means. */
  lemma CovarianceBound(a: seq<real>, b: seq<real>, am: real, bm: real)
    requires |a| == |b|
    ensures Covariance(a, b, am, bm) * Covariance(a, b, am, bm) <= Variance(a, am) * Variance(b, bm)
  {
    var f, g := (p: Pair) => p.0 - am, (p: Pair) => p.1 - bm;
    CauchySchwarz(Zip(a, b), f, g);
    VarianceIsMoment(Zip(a, b), a, am, f);
    VarianceIsMoment(Zip(a, b), b, bm, g);
    assert Covariance(a, b, am, bm) == Moment(Zip(a, b), f, g) by {
      SumCongruent(Zip(a, b), p => Product(f(p), g(p)), (p: Pair) => Product(p.0 - am, p.1 - bm));
    }
  }

  /** A defined correlation has positive variances and |numerator| at most their geometric mean. */
  lemma Bounded(x: seq<real>, y: seq<real>)
    ensures var r := Correlate(x, y);
      r.Rho? ==> r.xVariance > 0.0 && r.yVariance > 0.0 && r.numerator * r.numerator <= r.xVariance * r.yVariance
  {
    if Correlate(x, y).Rho? {
      var a, b := CountingRanks(x), CountingRanks(y);
      CovarianceBound(a, b, Mean(a), Mean(b));
      VarianceNonnegative(a, Mean(a));
      VarianceNonnegative(b, Mean(b));
    }
  }

  /** Whatever nonnegative square root the division uses, the returned quotient lies in [-1, 1]. */
  lemma QuotientInUnitInterval(x: seq<real>, y: seq<real>, root: real)
    requires Correlate(x, y).Rho? && root >= 0.0
    requires root * root == Correlate(x, y).xVariance * Correlate(x, y).yVariance
    ensures root > 0.0 && -1.0 <= Correlate(x, y).numerator / root <= 1.0
  {
    Bounded(x, y);
    PositiveProduct(Correlate(x, y).xVariance, Correlate(x, y).yVariance);
    SquareSign(root);
    SquareCompare(Correlate(x, y).numerator, root);
    QuotientBound(Correlate(x, y).numerator, root);
  }

  lemma Symmetric(x: seq<real>, y: seq<real>)
    ensures Correlate(y, x) == (match Correlate(x, y)
      case Undefined => Undefined
      case Rho(n, xv, yv) => Rho(n, yv, xv))
  {
    if |x| == |y| && |x| >= 2 {
      var a, b := CountingRanks(x), CountingRanks(y);
      var am, bm := Mean(a), Mean(b);
      CovarianceSymmetric(a, b, am, bm);
    }
  }

  lemma CovarianceSymmetric(a: seq<real>, b: seq<real>, am: real, bm: real)
    requires |a| == |b|
    ensures Covariance(b, a, bm, am) == Covariance(a, b, am, bm)
  {
    var f, g := (p: Pair) => Product(p.0 - am, p.1 - bm), (p: Pair) => Product(p.0 - bm, p.1 - am);
    forall i | 0 <= i < |a| ensures f(Zip(a, b)[i]) == g(Zip(b, a)[i]) { ProductCommutes(a[i] - am, b[i] - bm); }
    SumReindex(Zip(a, b), Zip(b, a), f, g);
  }

  /** g preserves the strict order of the entries of s. */
  predicate IncreasingOn(g: real -> real, s: seq<real>) {
    forall a, b :: a in s && b in s && a < b ==> g(a) < g(b)
  }

  function Mapped(g: real -> real, s: seq<real>): seq<real> {
    seq(|s|, i requires 0 <= i < |s| => g(s[i]))
  }

  lemma RanksInvariant(s: seq<real>, g: real -> real)
    requires IncreasingOn(g, s)
    ensures CountingRanks(Mapped(g, s)) == CountingRanks(s)
  {
    forall i | 0 <= i < |s| ensures RankOf(Mapped(g, s), g(s[i])) == RankOf(s, s[i]) {
      CountReindex(s, Mapped(g, s), u => u < s[i], u => u < g(s[i]));
      CountReindex(s, Mapped(g, s), u => u == s[i], u => u == g(s[i]));
    }
  }

  /** Strictly increasing transforms of either input change nothing. */
  lemma Invariant(x: seq<real>, y: seq<real>, g: real -> real, h: real -> real)
    requires IncreasingOn(g, x) && IncreasingOn(h, y)
    ensures Correlate(Mapped(g, x), Mapped(h, y)) == Correlate(x, y)
  {
    RanksInvariant(x, g);
    RanksInvariant(y, h);
  }

  lemma TiedRanksConstant(s: seq<real>)
    requires s != [] && AllEqual(s)
    ensures forall a :: a in CountingRanks(s) ==> a == Mean(CountingRanks(s))
  {
    var ranks := CountingRanks(s);
    assert forall a :: a in ranks ==> a == ranks[0];
    SumConstant(ranks, ranks[0], Identity);
    ConstantMean(Total(ranks), ranks[0], |ranks| as real);
  }

  lemma ConstantRanksTied(s: seq<real>, mean: real)
    requires forall a :: a in CountingRanks(s) ==> a == mean
    ensures AllEqual(s)
  {
    var ranks := CountingRanks(s);
    forall i, j | 0 <= i < |s| && 0 <= j < |s| ensures s[i] == s[j] {
      assert ranks[i] in ranks && ranks[j] in ranks;
      if s[i] < s[j] { RankStrictlyMonotone(s, s[i], s[j]); }
      if s[j] < s[i] { RankStrictlyMonotone(s, s[j], s[i]); }
    }
  }

  /** The ranks have no spread exactly when the values are all tied. */
  lemma RankVarianceZero(s: seq<real>)
    requires s != []
    ensures Variance(CountingRanks(s), Mean(CountingRanks(s))) == 0.0 <==> AllEqual(s)
  {
    VarianceNonnegative(CountingRanks(s), Mean(CountingRanks(s)));
    if AllEqual(s) { TiedRanksConstant(s); }
    if Variance(CountingRanks(s), Mean(CountingRanks(s))) == 0.0 {
      ConstantRanksTied(s, Mean(CountingRanks(s)));
    }
  }

  /** For two inputs of one length n >= 2, no correlation is reported exactly when one of them is all ties. */
  lemma UndefinedExactlyOnTies(x: seq<real>, y: seq<real>)
    requires |x| == |y| && |x| >= 2
    ensures Correlate(x, y).Undefined? <==> AllEqual(x) || AllEqual(y)
  {
    RankVarianceZero(x);
    RankVarianceZero(y);
  }

  /** Agreement in order is a correlation of exactly 1: numerator and both variances coincide. */
  lemma PerfectAgreement(x: seq<real>, g: real -> real)
    requires |x| >= 2 && !AllEqual(x) && IncreasingOn(g, x)
    ensures var r := Correlate(x, Mapped(g, x)); r.Rho? && r.numerator == r.xVariance == r.yVariance
  {
    RanksInvariant(x, g);
    RankVarianceZero(x);
    var a := CountingRanks(x);
    var m := Mean(a);
    var product, deviation := (p: Pair) => Product(p.0 - m, p.1 - m), u => Square(u - m);
    forall i | 0 <= i < |a| ensures product(Zip(a, a)[i]) == deviation(a[i]) {
      var d := a[i] - m;
      assert Product(d, d) == Square(d);
    }
    SumReindex(Zip(a, a), a, product, deviation);
  }

  // ----- The coefficient from rank differences, and its sign -----

  /** The squared distance of a value's rank from the middle rank. */
  function FromMiddle(values: seq<real>): real -> real {
    v => Square(RankOf(values, v) - (|values| as real + 1.0) / 2.0)
  }

  function SquaredDifference(): Pair -> real {
    (p: Pair) => Square(p.0 - p.1)
  }

  /** The counting ranks of the two inputs, place by place. */
  function RankPairs(x: seq<real>, y: seq<real>): seq<Pair>
    requires |x| == |y|
  {
    seq(|x|, i requires 0 <= i < |x| => (RankOf(x, x[i]), RankOf(y, y[i])))
  }

  lemma MeanRank(x: seq<real>)
    requires x != []
    ensures Mean(CountingRanks(x)) == (|x| as real + 1.0) / 2.0
  {
    RanksTotal(x);
    ConstantMean(Total(CountingRanks(x)), (|x| as real + 1.0) / 2.0, |x| as real);
  }

  lemma {:induction false} Polarised(s: seq<Pair>, am: real, bm: real, f: Pair -> real, v: Pair -> real, w: Pair -> real, d: Pair -> real)
    requires forall p: Pair :: f(p) == Product(p.0 - am, p.1 - bm) && d(p) == Square((p.0 - am) - (p.1 - bm))
    requires forall p: Pair :: v(p) == Square(p.0 - am) && w(p) == Square(p.1 - bm)
    ensures 2.0 * SumBy(s, f) == SumBy(s, v) + SumBy(s, w) - SumBy(s, d)
  {
    if s != [] {
      Polarised(s[1..], am, bm, f, v, w, d);
      SquareOfDifference(s[0].0 - am, s[0].1 - bm);
    }
  }

  lemma SquareOfDifference(a: real, b: real)
    ensures 2.0 * Product(a, b) == Square(a) + Square(b) - Square(a - b)
  {
  }

  lemma VarianceFromRanks(x: seq<real>)
    requires x != []
    ensures Variance(CountingRanks(x), Mean(CountingRanks(x))) == SumBy(x, FromMiddle(x))
  {
    var m := Mean(CountingRanks(x));
    MeanRank(x);
    SumReindex(CountingRanks(x), x, a => Square(a - m), FromMiddle(x));
  }

  /** A reported coefficient from the counting ranks alone: the variances are the squared distances from the middle rank,
      and twice the numerator is their sum less the squared rank differences. */
  lemma FromRankDifferences(x: seq<real>, y: seq<real>)
    requires Correlate(x, y).Rho?
    ensures var r := Correlate(x, y);
      r.xVariance == SumBy(x, FromMiddle(x)) && r.yVariance == SumBy(y, FromMiddle(y))
      && 2.0 * r.numerator == r.xVariance + r.yVariance - SumBy(RankPairs(x, y), SquaredDifference())
  {
    var a, b := CountingRanks(x), CountingRanks(y);
    var m := Mean(a);
    MeanRank(x);
    MeanRank(y);
    VarianceFromRanks(x);
    VarianceFromRanks(y);
    CovarianceFromDifferences(a, b, m);
    assert RankPairs(x, y) == Zip(a, b);
  }

  lemma CovarianceFromDifferences(a: seq<real>, b: seq<real>, m: real)
    requires |a| == |b|
    ensures 2.0 * Covariance(a, b, m, m) == Variance(a, m) + Variance(b, m) - SumBy(Zip(a, b), SquaredDifference())
  {
    var f, d := (p: Pair) => Product(p.0 - m, p.1 - m), (p: Pair) => Square((p.0 - m) - (p.1 - m));
    var v, w := (p: Pair) => Square(p.0 - m), (p: Pair) => Square(p.1 - m);
    Polarised(Zip(a, b), m, m, f, v, w, d);
    forall p: Pair ensures d(p) == SquaredDifference()(p) { assert (p.0 - m) - (p.1 - m) == p.0 - p.1; }
    SumCongruent(Zip(a, b), d, SquaredDifference());
    var deviation := (u: real) => Square(u - m);
    SumReindex(a, Zip(a, b), deviation, v);
    SumReindex(b, Zip(a, b), deviation, w);
  }

  /** g reverses the strict order of the entries of s. */
  predicate DecreasingOn(g: real -> real, s: seq<real>) {
    forall a, b :: a in s && b in s && a < b ==> g(a) > g(b)
  }

  /** Reversing the order reverses the ranks. */
  lemma RankReversed(s: seq<real>, g: real -> real, v: real)
    requires DecreasingOn(g, s) && v in s
    ensures RankOf(Mapped(g, s), g(v)) == |s| as real + 1.0 - RankOf(s, v)
  {
    var above, atMost := (u: real) => u > v, (u: real) => u <= v;
    CountReindex(s, Mapped(g, s), above, Less(g(v)));
    CountReindex(s, Mapped(g, s), Same(v), Same(g(v)));
    CountSplit(s, Less(v), Same(v), atMost);
    CountSplit(s, atMost, above, (u: real) => true);
    CountInterval(s, (u: real) => true, 0, |s|);
  }

  lemma RanksReversed(s: seq<real>, g: real -> real)
    requires DecreasingOn(g, s)
    ensures |CountingRanks(Mapped(g, s))| == |s|
    ensures forall i :: 0 <= i < |s| ==> CountingRanks(Mapped(g, s))[i] == |s| as real + 1.0 - CountingRanks(s)[i]
  {
    forall i | 0 <= i < |s| ensures CountingRanks(Mapped(g, s))[i] == |s| as real + 1.0 - CountingRanks(s)[i] {
      RankReversed(s, g, s[i]);
    }
  }

  lemma NegatedProduct(a: real, b: real)
    ensures Product(-a, b) == -Product(a, b) == Product(-1.0, Product(a, b)) && Square(-a) == Square(a)
  {
  }

  /** A strictly decreasing transform of one input changes the sign of the numerator and nothing else. */
  lemma ReversedInput(x: seq<real>, y: seq<real>, g: real -> real)
    requires DecreasingOn(g, x)
    ensures Correlate(Mapped(g, x), y) == (match Correlate(x, y)
      case Undefined => Undefined
      case Rho(n, xv, yv) => Rho(-n, xv, yv))
  {
    if |x| == |y| && |x| >= 2 {
      var a, a', b := CountingRanks(x), CountingRanks(Mapped(g, x)), CountingRanks(y);
      RanksReversed(x, g);
      MeanRank(x);
      MeanRank(Mapped(g, x));
      assert Mean(a') == Mean(a);
      CovarianceReversed(a, a', b, Mean(a), Mean(b), |x| as real + 1.0);
    }
  }

  lemma CovarianceReversed(a: seq<real>, a': seq<real>, b: seq<real>, am: real, bm: real, twice: real)
    requires |a| == |a'| == |b| && twice == 2.0 * am && forall i :: 0 <= i < |a| ==> a'[i] == twice - a[i]
    ensures Covariance(a', b, am, bm) == -Covariance(a, b, am, bm) && Variance(a', am) == Variance(a, am)
  {
    var f := (p: Pair) => Product(p.0 - am, p.1 - bm);
    var negated := (p: Pair) => Product(-1.0, f(p));
    forall i | 0 <= i < |a| ensures f(Zip(a', b)[i]) == negated(Zip(a, b)[i]) {
      assert a'[i] - am == -(a[i] - am);
      NegatedProduct(a[i] - am, b[i] - bm);
    }
    SumReindex(Zip(a', b), Zip(a, b), f, negated);
    SumScale(Zip(a, b), -1.0, f, negated);
    var v := (u: real) => Square(u - am);
    forall i | 0 <= i < |a| ensures v(a'[i]) == v(a[i]) {
      assert a'[i] - am == -(a[i] - am);
      NegatedProduct(a[i] - am, 0.0);
    }
    SumReindex(a', a, v, v);
  }

  /** Disagreement in order is a correlation of exactly -1. */
  lemma PerfectDisagreement(x: seq<real>, g: real -> real)
    requires |x| >= 2 && !AllEqual(x) && DecreasingOn(g, x)
    ensures var r := Correlate(Mapped(g, x), x); r.Rho? && r.xVariance == r.yVariance == -r.numerator
  {
    assert Mapped(u => u, x) == x;
    PerfectAgreement(x, u => u);
    ReversedInput(x, x, g);
  }
}
