/** The paired, stratified bootstrap over tasks, with the random generator left abstract. */
module Bootstrap {
  import Options
  import opened RealArithmetic
  import opened Sums
  import opened Sorting
  import opened Sequences
  import opened Quantiles
  import Aggregation
  import Alignment

  type Row = Alignment.Row
  type Category = Aggregation.Category
  type Budget = Aggregation.Budget

  datatype Error =
    | BadResamples
    | BadSeed
    | EmptyRows
    | Unaligned(why: Alignment.Error)
    | Unaggregated(reason: Aggregation.Error)

  datatype Result<T> = Ok(value: T) | Err(error: Error)

  datatype Interval = Interval(estimate: real, lower: real, upper: real, tasks: nat, resamples: nat, seed: nat)

  /** One draw below `size` at (row, column): a function of the seed, the number of resamples,
      the sizes of the strata drawn before, and the size of this one. */
  type Rng = (nat, nat, seq<nat>, nat, nat, nat) -> nat

  ghost predicate DrawsInRange(rng: Rng) {
    forall seed: nat, n: nat, prior: seq<nat>, size: nat, row: nat, column: nat ::
      size > 0 ==> rng(seed, n, prior, size, row, column) < size
  }

  const CATEGORIES: seq<Category> := [
    Aggregation.TechnicalSurvey, Aggregation.MethodComparison, Aggregation.MultiHopHistory,
    Aggregation.Freshness, Aggregation.Bilingual, Aggregation.SourceConflict]

  /** How many rows a category has. */
  function Members(rows: seq<Row>, c: Category): nat {
    Count(rows, (r: Row) => r.category == c)
  }

  /** The positions of the rows of one category, ascending, counted from `start`. */
  function PositionsFrom(rows: seq<Row>, category: Category, start: nat): (p: seq<nat>)
    ensures |p| == Members(rows, category)
    ensures forall i :: 0 <= i < |p| ==> start <= p[i] < start + |rows| && rows[p[i] - start].category == category
  {
    if rows == [] then []
    else
      var rest := PositionsFrom(rows[1..], category, start + 1);
      if rows[0].category == category then [start] + rest else rest
  }

  function Positions(rows: seq<Row>, category: Category): seq<nat> {
    PositionsFrom(rows, category, 0)
  }

  /** One resample of one stratum: as many draws, with replacement, as it has rows. */
  function Stratum(positions: seq<nat>, rng: Rng, seed: nat, n: nat, prior: seq<nat>, row: nat): seq<nat>
    requires DrawsInRange(rng)
  {
    seq(|positions|, column requires 0 <= column < |positions| =>
      positions[rng(seed, n, prior, |positions|, row, column)])
  }

  /** One resample: the strata side by side, empty strata contributing nothing and drawing nothing. */
  function ResampleRow(rows: seq<Row>, categories: seq<Category>, rng: Rng, seed: nat, n: nat, prior: seq<nat>, row: nat): seq<nat>
    requires DrawsInRange(rng)
  {
    if categories == [] then []
    else
      var positions := Positions(rows, categories[0]);
      if positions == [] then ResampleRow(rows, categories[1..], rng, seed, n, prior, row)
      else
        var rest := ResampleRow(rows, categories[1..], rng, seed, n, prior + [|positions|], row);
        Stratum(positions, rng, seed, n, prior, row) + rest
  }

  function ResampleIndices(rows: seq<Row>, n: int, seed: int, rng: Rng): Result<seq<seq<nat>>>
    requires DrawsInRange(rng)
  {
    if n < 1 then Err(BadResamples)
    else if seed < 0 then Err(BadSeed)
    else if rows == [] then Err(EmptyRows)
    else Ok(seq(n, row requires 0 <= row < n => ResampleRow(rows, CATEGORIES, rng, seed, n, [], row)))
  }

  function Mean(s: seq<real>): real
    requires s != []
  {
    SumBy(s, (x: real) => x) / |s| as real
  }

  function Differences(left: seq<Row>, right: seq<Row>): seq<real>
    requires |left| == |right|
  {
    seq(|left|, i requires 0 <= i < |left| => right[i].mean - left[i].mean)
  }

  function Picked(values: seq<real>, indices: seq<nat>): seq<real>
    requires forall i :: 0 <= i < |indices| ==> indices[i] < |values|
  {
    seq(|indices|, i requires 0 <= i < |indices| => values[indices[i]])
  }

  function MeansOf(values: seq<real>, draws: seq<seq<nat>>): seq<real>
    requires forall d :: 0 <= d < |draws| ==> draws[d] != [] && forall i :: 0 <= i < |draws[d]| ==> draws[d][i] < |values|
  {
    seq(|draws|, d requires 0 <= d < |draws| => Mean(Picked(values, draws[d])))
  }

  // ----- What a draw preserves -----

  predicate Within(indices: seq<nat>, bound: nat) {
    forall i :: 0 <= i < |indices| ==> indices[i] < bound
  }

  predicate InStratum(rows: seq<Row>, c: Category, i: int) {
    0 <= i < |rows| && rows[i].category == c
  }

  /** How many draws fall in a category. */
  function Drawn(indices: seq<int>, rows: seq<Row>, c: Category): nat {
    Count(indices, (i: int) => InStratum(rows, c, i))
  }

  lemma DrawnConcat(a: seq<int>, b: seq<int>, rows: seq<Row>, c: Category)
    ensures Drawn(a + b, rows, c) == Drawn(a, rows, c) + Drawn(b, rows, c)
  {
    CountConcat(a, b, (i: int) => InStratum(rows, c, i));
  }

  /** A stratum's draws all fall in its own category. */
  lemma StratumCounts(rows: seq<Row>, c: Category, rng: Rng, seed: nat, n: nat, prior: seq<nat>, row: nat, k: Category)
    requires DrawsInRange(rng)
    ensures var s := Stratum(Positions(rows, c), rng, seed, n, prior, row);
      Within(s, |rows|) && Drawn(s, rows, k) == if k == c then Members(rows, c) else 0
  {
    var positions := Positions(rows, c);
    var s: seq<int> := Stratum(positions, rng, seed, n, prior, row);
    forall i | 0 <= i < |s| ensures s[i] < |rows| && rows[s[i]].category == c {
      assert s[i] == positions[rng(seed, n, prior, |positions|, row, i)];
    }
    if k == c {
      CountInterval(s, (i: int) => InStratum(rows, k, i), 0, |s|);
    } else {
      CountNone(s, (i: int) => InStratum(rows, k, i));
    }
  }

  lemma {:induction false} ResampleCounts(rows: seq<Row>, categories: seq<Category>, rng: Rng, seed: nat, n: nat,
                                          prior: seq<nat>, row: nat, k: Category)
    requires DrawsInRange(rng) && NoDuplicates(categories)
    ensures var s := ResampleRow(rows, categories, rng, seed, n, prior, row);
      Within(s, |rows|) && Drawn(s, rows, k) == if k in categories then Members(rows, k) else 0
  {
    if categories != [] {
      var c := categories[0];
      assert c !in categories[1..];
      var positions := Positions(rows, c);
      if positions == [] {
        ResampleCounts(rows, categories[1..], rng, seed, n, prior, row, k);
      } else {
        var prior' := prior + [|positions|];
        StratumCounts(rows, c, rng, seed, n, prior, row, k);
        ResampleCounts(rows, categories[1..], rng, seed, n, prior', row, k);
        DrawnConcat(Stratum(positions, rng, seed, n, prior, row),
          ResampleRow(rows, categories[1..], rng, seed, n, prior', row), rows, k);
      }
    }
  }

  /** The sum of the stratum sizes over a list of categories. */
  function SizeTotal(rows: seq<Row>, categories: seq<Category>): nat {
    if categories == [] then 0 else Members(rows, categories[0]) + SizeTotal(rows, categories[1..])
  }

  lemma {:induction false} ResampleLength(rows: seq<Row>, categories: seq<Category>, rng: Rng, seed: nat, n: nat,
                                          prior: seq<nat>, row: nat)
    requires DrawsInRange(rng)
    ensures |ResampleRow(rows, categories, rng, seed, n, prior, row)| == SizeTotal(rows, categories)
  {
    if categories != [] {
      ResampleLength(rows, categories[1..], rng, seed, n, prior, row);
      ResampleLength(rows, categories[1..], rng, seed, n, prior + [|Positions(rows, categories[0])|], row);
    }
  }

  lemma {:induction false} SizeStep(rows: seq<Row>, categories: seq<Category>)
    requires rows != [] && NoDuplicates(categories)
    ensures SizeTotal(rows, categories) == SizeTotal(rows[1..], categories) + if rows[0].category in categories then 1 else 0
  {
    if categories != [] {
      assert categories[0] !in categories[1..];
      SizeStep(rows, categories[1..]);
    }
  }

  lemma {:induction false} StrataPartition(rows: seq<Row>)
    ensures SizeTotal(rows, CATEGORIES) == |rows|
  {
    if rows == [] {
      EmptyStrata(CATEGORIES);
    } else {
      StrataPartition(rows[1..]);
      SizeStep(rows, CATEGORIES);
    }
  }

  lemma {:induction false} EmptyStrata(categories: seq<Category>)
    ensures SizeTotal([], categories) == 0
  {
    if categories != [] { EmptyStrata(categories[1..]); }
  }

  /** Every resample has one entry per task row and, for each category, exactly the observed number
      of entries drawn from that category's rows. */
  lemma StratifiedDraws(rows: seq<Row>, n: int, seed: int, rng: Rng)
    requires DrawsInRange(rng)
    ensures ResampleIndices(rows, n, seed, rng).Ok? <==> n >= 1 && seed >= 0 && rows != []
    ensures ResampleIndices(rows, n, seed, rng).Ok? ==>
      var draws := ResampleIndices(rows, n, seed, rng).value;
      |draws| == n && forall d :: 0 <= d < n ==>
        |draws[d]| == |rows| && Within(draws[d], |rows|)
        && forall c :: Drawn(draws[d], rows, c) == Members(rows, c)
  {
    if n >= 1 && seed >= 0 && rows != [] {
      var draws := ResampleIndices(rows, n, seed, rng).value;
      forall d | 0 <= d < n
        ensures |draws[d]| == |rows| && Within(draws[d], |rows|)
        ensures forall c :: Drawn(draws[d], rows, c) == Members(rows, c)
      {
        ResampleLength(rows, CATEGORIES, rng, seed, n, [], d);
        StrataPartition(rows);
        ResampleCounts(rows, CATEGORIES, rng, seed, n, [], d, Aggregation.Freshness);
        forall c ensures Drawn(draws[d], rows, c) == Members(rows, c) {
          ResampleCounts(rows, CATEGORIES, rng, seed, n, [], d, c);
        }
      }
    }
  }

  // ----- The same draws for two sides -----

  predicate SameCategories(a: seq<Row>, b: seq<Row>) {
    |a| == |b| && forall i :: 0 <= i < |a| ==> a[i].category == b[i].category
  }

  lemma {:induction false} SamePositions(a: seq<Row>, b: seq<Row>, c: Category, start: nat)
    requires SameCategories(a, b)
    ensures PositionsFrom(a, c, start) == PositionsFrom(b, c, start)
  {
    if a != [] {
      assert forall i :: 0 <= i < |a| - 1 ==> a[1..][i] == a[i + 1] && b[1..][i] == b[i + 1];
      SamePositions(a[1..], b[1..], c, start + 1);
    }
  }

  lemma {:induction false} SameResample(a: seq<Row>, b: seq<Row>, categories: seq<Category>, rng: Rng, seed: nat, n: nat,
                                        prior: seq<nat>, row: nat)
    requires DrawsInRange(rng) && SameCategories(a, b)
    ensures ResampleRow(a, categories, rng, seed, n, prior, row) == ResampleRow(b, categories, rng, seed, n, prior, row)
  {
    if categories != [] {
      SamePositions(a, b, categories[0], 0);
      SameResample(a, b, categories[1..], rng, seed, n, prior, row);
      SameResample(a, b, categories[1..], rng, seed, n, prior + [|Positions(a, categories[0])|], row);
    }
  }

  /** The draws depend on the rows only through their categories, so paired sides reuse them. */
  lemma SharedDraws(a: seq<Row>, b: seq<Row>, n: int, seed: int, rng: Rng)
    requires DrawsInRange(rng) && SameCategories(a, b)
    ensures ResampleIndices(a, n, seed, rng) == ResampleIndices(b, n, seed, rng)
  {
    if n >= 1 && seed >= 0 && a != [] {
      forall row: nat | row < n
        ensures ResampleRow(a, CATEGORIES, rng, seed, n, [], row) == ResampleRow(b, CATEGORIES, rng, seed, n, [], row)
      {
        SameResample(a, b, CATEGORIES, rng, seed, n, [], row);
      }
      assert ResampleIndices(a, n, seed, rng).value == ResampleIndices(b, n, seed, rng).value;
    }
  }

  // ----- The interval -----

  lemma DrawsUsable(rows: seq<Row>, n: int, seed: int, rng: Rng)
    requires DrawsInRange(rng) && ResampleIndices(rows, n, seed, rng).Ok?
    ensures var draws := ResampleIndices(rows, n, seed, rng).value;
      draws != [] && forall d :: 0 <= d < |draws| ==>
        draws[d] != [] && forall i :: 0 <= i < |draws[d]| ==> draws[d][i] < |rows|
  {
    StratifiedDraws(rows, n, seed, rng);
  }

  /** The interval of paired sides already in task order. */
  function PairedInterval(left: seq<Row>, right: seq<Row>, n: int, seed: int, rng: Rng): Result<Interval>
    requires DrawsInRange(rng) && |left| == |right|
  {
    var draws := ResampleIndices(left, n, seed, rng);
    if draws.Err? then Err(draws.error)
    else
      DrawsUsable(left, n, seed, rng);
      var differences := Differences(left, right);
      var means := MeansOf(differences, draws.value);
      Ok(Interval(Mean(differences), Quantile(means, 0.025), Quantile(means, 0.975), |left|, n, seed))
  }

  function PairedBootstrap(left: seq<Row>, right: seq<Row>, categories: map<string, Category>,
                           budget: Options.Option<Budget>, n: int, seed: int, rng: Rng): Result<Interval>
    requires DrawsInRange(rng)
  {
    var aligned := Alignment.Aligned(left, right, categories, budget);
    if aligned.Err? then Err(Unaligned(aligned.error))
    else
      Alignment.AlignedShape(left, right, categories, budget);
      PairedInterval(aligned.value.0, aligned.value.1, n, seed, rng)
  }

  /** The interval seen from the other side. */
  function Mirrored(i: Interval): Interval {
    i.(estimate := -i.estimate, lower := -i.upper, upper := -i.lower)
  }

  lemma {:induction false} NegatedSum(s: seq<real>)
    ensures SumBy(Negated(s), (x: real) => x) == -SumBy(s, (x: real) => x)
  {
    if s != [] {
      assert Negated(s)[1..] == Negated(s[1..]);
      NegatedSum(s[1..]);
    }
  }

  lemma NegatedMean(s: seq<real>)
    requires s != []
    ensures Mean(Negated(s)) == -Mean(s)
  {
    NegatedSum(s);
  }

  lemma NegatedMeans(values: seq<real>, draws: seq<seq<nat>>)
    requires forall d :: 0 <= d < |draws| ==> draws[d] != [] && forall i :: 0 <= i < |draws[d]| ==> draws[d][i] < |values|
    ensures MeansOf(Negated(values), draws) == Negated(MeansOf(values, draws))
  {
    forall d | 0 <= d < |draws| ensures Mean(Picked(Negated(values), draws[d])) == -Mean(Picked(values, draws[d])) {
      assert Picked(Negated(values), draws[d]) == Negated(Picked(values, draws[d]));
      NegatedMean(Picked(values, draws[d]));
    }
  }

  lemma IntervalMirrored(left: seq<Row>, right: seq<Row>, n: int, seed: int, rng: Rng)
    requires DrawsInRange(rng) && SameCategories(left, right)
    requires PairedInterval(left, right, n, seed, rng).Ok?
    ensures PairedInterval(right, left, n, seed, rng) == Ok(Mirrored(PairedInterval(left, right, n, seed, rng).value))
  {
    SharedDraws(left, right, n, seed, rng);
    DrawsUsable(left, n, seed, rng);
    var draws := ResampleIndices(left, n, seed, rng).value;
    assert Differences(right, left) == Negated(Differences(left, right));
    BoundsMirrored(Differences(left, right), draws);
  }

  lemma BoundsMirrored(d: seq<real>, draws: seq<seq<nat>>)
    requires d != [] && draws != []
    requires forall k :: 0 <= k < |draws| ==> draws[k] != [] && forall i :: 0 <= i < |draws[k]| ==> draws[k][i] < |d|
    ensures Mean(Negated(d)) == -Mean(d)
    ensures Quantile(MeansOf(Negated(d), draws), 0.025) == -Quantile(MeansOf(d, draws), 0.975)
    ensures Quantile(MeansOf(Negated(d), draws), 0.975) == -Quantile(MeansOf(d, draws), 0.025)
  {
    NegatedMean(d);
    NegatedMeans(d, draws);
    QuantileNegated(MeansOf(d, draws), 0.025);
    QuantileNegated(MeansOf(d, draws), 0.975);
  }

  /** Swapping the two sides keeps acceptance, negates the estimate and mirrors the bounds, for the same seed. */
  lemma SwappedSides(left: seq<Row>, right: seq<Row>, categories: map<string, Category>,
                     budget: Options.Option<Budget>, n: int, seed: int, rng: Rng)
    requires DrawsInRange(rng)
    ensures PairedBootstrap(left, right, categories, budget, n, seed, rng).Ok?
      <==> PairedBootstrap(right, left, categories, budget, n, seed, rng).Ok?
    ensures PairedBootstrap(left, right, categories, budget, n, seed, rng).Ok? ==>
      PairedBootstrap(right, left, categories, budget, n, seed, rng)
        == Ok(Mirrored(PairedBootstrap(left, right, categories, budget, n, seed, rng).value))
  {
    Alignment.AlignedSwapped(left, right, categories, budget);
    if Alignment.Aligned(left, right, categories, budget).Ok? {
      Alignment.AlignedShape(left, right, categories, budget);
      var (l, r) := Alignment.Aligned(left, right, categories, budget).value;
      SharedDraws(l, r, n, seed, rng);
      if PairedInterval(l, r, n, seed, rng).Ok? { IntervalMirrored(l, r, n, seed, rng); }
    }
  }

  // ----- Bounds -----

  lemma {:induction false} SumBetween(s: seq<real>, least: real, most: real)
    requires forall x :: x in s ==> least <= x <= most
    ensures Product(|s| as real, least) <= SumBy(s, (x: real) => x) <= Product(|s| as real, most)
  {
    if s != [] {
      forall x | x in s[1..] ensures least <= x <= most { assert x in s; }
      SumBetween(s[1..], least, most);
      ProductDistributes(1.0, (|s| - 1) as real, least);
      ProductDistributes(1.0, (|s| - 1) as real, most);
      assert s[0] in s;
    }
  }

  lemma MeanBetween(s: seq<real>, least: real, most: real)
    requires s != [] && forall x :: x in s ==> least <= x <= most
    ensures least <= Mean(s) <= most
  {
    SumBetween(s, least, most);
    var n, total := |s| as real, SumBy(s, (x: real) => x);
    QuotientMonotone(Product(n, least), n, total);
    QuotientMonotone(total, n, Product(n, most));
    QuotientUnique(Product(n, least), n, least);
    QuotientUnique(Product(n, most), n, most);
  }

  lemma SidesWithinDifferences(left: seq<Row>, right: seq<Row>, n: int, seed: int, rng: Rng, least: real, most: real)
    requires DrawsInRange(rng) && |left| == |right|
    requires PairedInterval(left, right, n, seed, rng).Ok?
    requires forall i :: 0 <= i < |left| ==> least <= right[i].mean - left[i].mean <= most
    ensures var ci := PairedInterval(left, right, n, seed, rng).value;
      least <= ci.lower <= ci.upper <= most && least <= ci.estimate <= most
  {
    DrawsUsable(left, n, seed, rng);
    var draws := ResampleIndices(left, n, seed, rng).value;
    var d := Differences(left, right);
    var means := MeansOf(d, draws);
    MeanBetween(d, least, most);
    forall x | x in means ensures least <= x <= most {
      var k :| 0 <= k < |means| && means[k] == x;
      MeanBetween(Picked(d, draws[k]), least, most);
    }
    var lo, hi := QuantileMonotone(means, 0.025, 0.975);
  }

  /** Every bound on the differences of selected rows about the same task bounds the whole interval: no interval leaves
      the range from the smallest to the largest task difference. */
  lemma IntervalWithinDifferences(left: seq<Row>, right: seq<Row>, categories: map<string, Category>,
                                  budget: Options.Option<Budget>, n: int, seed: int, rng: Rng, least: real, most: real)
    requires DrawsInRange(rng) && PairedBootstrap(left, right, categories, budget, n, seed, rng).Ok?
    requires forall x, y ::
      x in Alignment.Selected(left, budget) && y in Alignment.Selected(right, budget)
      && Alignment.TaskKeyOf(x) == Alignment.TaskKeyOf(y) ==>
        least <= y.mean - x.mean <= most
    ensures var ci := PairedBootstrap(left, right, categories, budget, n, seed, rng).value;
      least <= ci.lower <= ci.upper <= most && least <= ci.estimate <= most
  {
    Alignment.AlignedShape(left, right, categories, budget);
    var (l, r) := Alignment.Aligned(left, right, categories, budget).value;
    SameElements(l, Alignment.Selected(left, budget));
    SameElements(r, Alignment.Selected(right, budget));
    forall i | 0 <= i < |l| ensures least <= r[i].mean - l[i].mean <= most {
      assert l[i] in l && r[i] in r;
    }
    SidesWithinDifferences(l, r, n, seed, rng, least, most);
  }

  // ----- Which interval it is -----

  /** The difference of the paired rows at a position. */
  function DifferenceAt(left: seq<Row>, right: seq<Row>): nat -> real {
    (i: nat) => if i < |left| && i < |right| then right[i].mean - left[i].mean else 0.0
  }

  function MeanField(): Row -> real {
    (r: Row) => r.mean
  }

  function Above(v: real): real -> bool {
    x => x > v
  }

  function From(v: real): real -> bool {
    x => x >= v
  }

  lemma MeanTimes(s: seq<real>)
    requires s != []
    ensures Product(|s| as real, Mean(s)) == SumBy(s, (x: real) => x)
  {
    QuotientSign(SumBy(s, (x: real) => x), |s| as real);
  }

  /** The mean of one resample, times the number of its entries, is the sum of the differences it drew. */
  lemma ResampleMean(left: seq<Row>, right: seq<Row>, draw: seq<nat>)
    requires |left| == |right| && draw != [] && forall i :: 0 <= i < |draw| ==> draw[i] < |left|
    ensures Product(|draw| as real, Mean(Picked(Differences(left, right), draw))) == SumBy(draw, DifferenceAt(left, right))
  {
    var picked := Picked(Differences(left, right), draw);
    MeanTimes(picked);
    SumReindex(picked, draw, (x: real) => x, DifferenceAt(left, right));
  }

  /** The two bounds cut off at most a fortieth of the resample means on either side, up to rounding, and no less. */
  lemma FortiethsCutOff(means: seq<real>, n: nat)
    requires |means| == n >= 1
    ensures 40 * Count(means, Below(Quantile(means, 0.025))) <= n + 38 && 40 * Count(means, UpTo(Quantile(means, 0.025))) >= n
    ensures 40 * Count(means, Above(Quantile(means, 0.975))) <= n + 38 && 40 * Count(means, From(Quantile(means, 0.975))) >= n
  {
    QuantileCoverage(means, 0.025);
    QuantileCoverage(means, 0.975);
    Fortieths(n);
    var upper := Quantile(means, 0.975);
    CountSplit(means, UpTo(upper), Above(upper), (x: real) => true);
    CountSplit(means, Below(upper), From(upper), (x: real) => true);
    CountInterval(means, (x: real) => true, 0, n);
  }

  lemma Fortieths(n: nat)
    requires n >= 1
    ensures 40.0 * Product((n - 1) as real, 0.025) == (n - 1) as real
    ensures 40.0 * Product((n - 1) as real, 0.975) == 39.0 * (n - 1) as real
  {
  }

  /** The interval of an accepted comparison: times the number of tasks, the estimate is the difference of the two sides'
      totals and each resample mean the sum of the differences drawn; and the bounds are the 2.5 and 97.5 percent points
      of the resample means. */
  lemma IntervalMeans(left: seq<Row>, right: seq<Row>, categories: map<string, Category>,
                      budget: Options.Option<Budget>, n: int, seed: int, rng: Rng) returns (means: seq<real>)
    requires DrawsInRange(rng) && PairedBootstrap(left, right, categories, budget, n, seed, rng).Ok?
    ensures var ci := PairedBootstrap(left, right, categories, budget, n, seed, rng).value;
      var (l, r) := Alignment.Aligned(left, right, categories, budget).value;
      var draws := ResampleIndices(l, n, seed, rng);
      && Product(|l| as real, ci.estimate) == SumBy(Alignment.Selected(right, budget), MeanField())
                                              - SumBy(Alignment.Selected(left, budget), MeanField())
      && draws.Ok? && |means| == |draws.value| == n >= 1
      && (forall d :: 0 <= d < n ==> Product(|l| as real, means[d]) == SumBy(draws.value[d], DifferenceAt(l, r)))
      && 40 * Count(means, Below(ci.lower)) <= n + 38 && 40 * Count(means, UpTo(ci.lower)) >= n
      && 40 * Count(means, Above(ci.upper)) <= n + 38 && 40 * Count(means, From(ci.upper)) >= n
  {
    Alignment.AlignedShape(left, right, categories, budget);
    var (l, r) := Alignment.Aligned(left, right, categories, budget).value;
    StratifiedDraws(l, n, seed, rng);
    DrawsUsable(l, n, seed, rng);
    var draws := ResampleIndices(l, n, seed, rng).value;
    means := MeansOf(Differences(l, r), draws);
    forall d | 0 <= d < n ensures Product(|l| as real, means[d]) == SumBy(draws[d], DifferenceAt(l, r)) {
      ResampleMean(l, r, draws[d]);
    }
    FortiethsCutOff(means, n);
    EstimateIsDifference(left, right, l, r, budget);
  }

  lemma EstimateIsDifference(left: seq<Row>, right: seq<Row>, l: seq<Row>, r: seq<Row>, budget: Options.Option<Budget>)
    requires l != [] && |l| == |r|
    requires multiset(l) == multiset(Alignment.Selected(left, budget)) && multiset(r) == multiset(Alignment.Selected(right, budget))
    ensures Product(|l| as real, Mean(Differences(l, r)))
      == SumBy(Alignment.Selected(right, budget), MeanField()) - SumBy(Alignment.Selected(left, budget), MeanField())
  {
    MeanTimes(Differences(l, r));
    DifferenceTotals(l, r);
    SumPermuted(l, Alignment.Selected(left, budget), MeanField());
    SumPermuted(r, Alignment.Selected(right, budget), MeanField());
  }

  lemma {:induction false} DifferenceTotals(l: seq<Row>, r: seq<Row>)
    requires |l| == |r|
    ensures SumBy(Differences(l, r), (x: real) => x) == SumBy(r, MeanField()) - SumBy(l, MeanField())
  {
    if l != [] {
      assert Differences(l, r)[1..] == Differences(l[1..], r[1..]);
      DifferenceTotals(l[1..], r[1..]);
    }
  }

  // ----- Which row a draw selects -----

  function IsOf(c: Category): Row -> bool {
    (r: Row) => r.category == c
  }

  /** The sizes of the strata drawn before, empty ones left out. */
  function Sizes(rows: seq<Row>, categories: seq<Category>): seq<nat> {
    if categories == [] then []
    else (if Members(rows, categories[0]) == 0 then [] else [Members(rows, categories[0])]) + Sizes(rows, categories[1..])
  }

  /** How many of the first p rows are of the category. */
  function Preceding(rows: seq<Row>, p: nat, c: Category): nat
    requires p <= |rows|
  {
    if p == 0 then 0 else Preceding(rows[1..], p - 1, c) + if rows[0].category == c then 1 else 0
  }

  lemma {:induction false} PrecedingIsCount(rows: seq<Row>, p: nat, c: Category)
    requires p <= |rows|
    ensures Preceding(rows, p, c) == Count(rows[..p], IsOf(c))
  {
    if p > 0 {
      PrecedingIsCount(rows[1..], p - 1, c);
      assert rows[..p][1..] == rows[1..][..p - 1];
    }
  }

  /** The k-th of these positions, counted from `start`, is that of the category's k-th row. */
  predicate Lists(rows: seq<Row>, c: Category, start: nat, positions: seq<nat>) {
    forall k :: 0 <= k < |positions| ==> IsKth(rows, c, positions[k] - start, k)
  }

  predicate IsKth(rows: seq<Row>, c: Category, p: int, k: nat) {
    0 <= p < |rows| && rows[p].category == c && Preceding(rows, p, c) == k
  }

  lemma KthNext(rows: seq<Row>, c: Category, p: int, k: nat)
    requires rows != [] && IsKth(rows[1..], c, p, k)
    ensures IsKth(rows, c, p + 1, if rows[0].category == c then k + 1 else k)
  {
    assert rows[1..][p] == rows[p + 1];
  }

  lemma KthShifted(rows: seq<Row>, c: Category, start: nat, rest: seq<nat>, k: nat)
    requires rows != [] && Lists(rows[1..], c, start + 1, rest) && k < |rest|
    ensures IsKth(rows, c, rest[k] - start, if rows[0].category == c then k + 1 else k)
  {
    KthNext(rows, c, rest[k] - (start + 1), k);
  }

  lemma ListsSkip(rows: seq<Row>, c: Category, start: nat, rest: seq<nat>)
    requires rows != [] && Lists(rows[1..], c, start + 1, rest) && rows[0].category != c
    ensures Lists(rows, c, start, rest)
  {
    forall k | 0 <= k < |rest| ensures IsKth(rows, c, rest[k] - start, k) {
      KthShifted(rows, c, start, rest, k);
    }
  }

  lemma ListsFirst(rows: seq<Row>, c: Category, start: nat, rest: seq<nat>, all: seq<nat>)
    requires rows != [] && Lists(rows[1..], c, start + 1, rest) && rows[0].category == c && all == [start] + rest
    ensures Lists(rows, c, start, all)
  {
    forall k | 0 <= k < |all| ensures IsKth(rows, c, all[k] - start, k) {
      if k > 0 {
        KthShifted(rows, c, start, rest, k - 1);
        assert all[k] == rest[k - 1];
      }
    }
  }

  lemma {:induction false} PositionsList(rows: seq<Row>, c: Category, start: nat)
    ensures Lists(rows, c, start, PositionsFrom(rows, c, start))
  {
    if rows != [] {
      PositionsList(rows[1..], c, start + 1);
      var rest := PositionsFrom(rows[1..], c, start + 1);
      if rows[0].category == c {
        ListsFirst(rows, c, start, rest, [start] + rest);
      } else {
        ListsSkip(rows, c, start, rest);
      }
    }
  }

  lemma SelectedIsKth(rows: seq<Row>, c: Category, k: nat)
    requires k < Members(rows, c)
    ensures var p := Positions(rows, c)[k]; p < |rows| && rows[p].category == c && Count(rows[..p], IsOf(c)) == k
  {
    PositionsList(rows, c, 0);
    assert IsKth(rows, c, Positions(rows, c)[k] - 0, k);
    PrecedingIsCount(rows, Positions(rows, c)[k], c);
  }

  /** The sizes drawn before, once the stratum of a category is drawn. */
  function Extended(rows: seq<Row>, c: Category, prior: seq<nat>): seq<nat> {
    if Members(rows, c) == 0 then prior else prior + [Members(rows, c)]
  }

  lemma ResampleFirst(rows: seq<Row>, categories: seq<Category>, rng: Rng, seed: nat, n: nat, prior: seq<nat>, row: nat)
    requires DrawsInRange(rng) && categories != []
    ensures var c := categories[0];
      var stratum := Stratum(Positions(rows, c), rng, seed, n, prior, row);
      && |stratum| == Members(rows, c)
      && ResampleRow(rows, categories, rng, seed, n, prior, row)
         == stratum + ResampleRow(rows, categories[1..], rng, seed, n, Extended(rows, c, prior), row)
  {
    if Positions(rows, categories[0]) == [] {
      var rest := ResampleRow(rows, categories[1..], rng, seed, n, prior, row);
      assert [] + rest == rest;
    }
  }

  lemma SizesFirst(rows: seq<Row>, categories: seq<Category>, m: nat, prior: seq<nat>)
    requires 1 <= m <= |categories|
    ensures SizeTotal(rows, categories[..m]) == Members(rows, categories[0]) + SizeTotal(rows, categories[1..][..m - 1])
    ensures Extended(rows, categories[0], prior) + Sizes(rows, categories[1..][..m - 1]) == prior + Sizes(rows, categories[..m])
  {
    assert categories[..m][1..] == categories[1..][..m - 1];
  }

  lemma StratumEntry(rows: seq<Row>, c: Category, rng: Rng, seed: nat, n: nat, prior: seq<nat>, row: nat, column: nat)
    requires DrawsInRange(rng) && column < Members(rows, c)
    ensures Stratum(Positions(rows, c), rng, seed, n, prior, row)[column]
      == Positions(rows, c)[rng(seed, n, prior, Members(rows, c), row, column)]
  {
  }

  lemma {:induction false} ResampleSelects(rows: seq<Row>, categories: seq<Category>, m: nat, rng: Rng, seed: nat, n: nat,
                                           prior: seq<nat>, row: nat, column: nat)
    requires DrawsInRange(rng) && m < |categories| && column < Members(rows, categories[m])
    ensures var s, at := ResampleRow(rows, categories, rng, seed, n, prior, row), SizeTotal(rows, categories[..m]) + column;
      at < |s| && s[at] == Positions(rows, categories[m])
        [rng(seed, n, prior + Sizes(rows, categories[..m]), Members(rows, categories[m]), row, column)]
  {
    ResampleFirst(rows, categories, rng, seed, n, prior, row);
    if m == 0 {
      assert categories[..0] == [] && prior + [] == prior;
      StratumEntry(rows, categories[0], rng, seed, n, prior, row, column);
    } else {
      ResampleSelects(rows, categories[1..], m - 1, rng, seed, n, Extended(rows, categories[0], prior), row, column);
      SizesFirst(rows, categories, m, prior);
    }
  }

  /** Each entry of a resample is the row its generator draw selects: in the part of a category, the entry in a column is the
      category's row with as many of its rows before it as the draw for that resample and column says. */
  lemma DrawSelects(rows: seq<Row>, n: int, seed: int, rng: Rng, row: nat, m: nat, column: nat)
    requires DrawsInRange(rng) && n >= 1 && seed >= 0 && rows != [] && row < n
    requires m < |CATEGORIES| && column < Members(rows, CATEGORIES[m])
    ensures var c, draws, at := CATEGORIES[m], ResampleIndices(rows, n, seed, rng), SizeTotal(rows, CATEGORIES[..m]) + column;
      && draws.Ok? && row < |draws.value| && at < |draws.value[row]|
      && var p := draws.value[row][at];
         p < |rows| && rows[p].category == c
         && Count(rows[..p], IsOf(c)) == rng(seed, n, Sizes(rows, CATEGORIES[..m]), Members(rows, c), row, column)
  {
    ResampleSelects(rows, CATEGORIES, m, rng, seed, n, [], row, column);
    var sizes := Sizes(rows, CATEGORIES[..m]);
    assert [] + sizes == sizes;
    SelectedIsKth(rows, CATEGORIES[m], rng(seed, n, sizes, Members(rows, CATEGORIES[m]), row, column));
  }

  // ----- Comparing two variants of one group of runs -----

  type Run = Aggregation.SeedRun

  function CategoriesOf(rows: seq<Row>): map<string, Category> {
    if rows == [] then map[]
    else CategoriesOf(rows[..|rows| - 1])[rows[|rows| - 1].taskId := rows[|rows| - 1].category]
  }

  function OfVariant(rows: seq<Row>, variant: string): seq<Row> {
    Filter(rows, (r: Row) => r.variant == variant)
  }

  function Comparison(records: seq<Run>, metric: string, baseline: string, candidate: string, budget: Budget,
                      n: int, seed: int, rng: Rng, reduction: bool): Result<Interval>
    requires DrawsInRange(rng)
  {
    var chosen := Filter(records, (r: Run) => (r.variant == baseline || r.variant == candidate) && r.budget == budget);
    var rows := Aggregation.Aggregated(chosen, metric);
    if rows.Err? then Err(Unaggregated(rows.error))
    else
      var left, right := OfVariant(rows.value, baseline), OfVariant(rows.value, candidate);
      PairedBootstrap(if reduction then right else left, if reduction then left else right,
        CategoriesOf(rows.value), Options.Some(budget), n, seed, rng)
  }

  /** A reduction interval is exactly the mirrored improvement interval. */
  lemma ReductionIsMirroredImprovement(records: seq<Run>, metric: string, baseline: string, candidate: string,
                                       budget: Budget, n: int, seed: int, rng: Rng)
    requires DrawsInRange(rng)
    ensures Comparison(records, metric, baseline, candidate, budget, n, seed, rng, true).Ok?
      <==> Comparison(records, metric, baseline, candidate, budget, n, seed, rng, false).Ok?
    ensures Comparison(records, metric, baseline, candidate, budget, n, seed, rng, false).Ok? ==>
      Comparison(records, metric, baseline, candidate, budget, n, seed, rng, true)
        == Ok(Mirrored(Comparison(records, metric, baseline, candidate, budget, n, seed, rng, false).value))
  {
    var chosen := Filter(records, (r: Run) => (r.variant == baseline || r.variant == candidate) && r.budget == budget);
    var rows := Aggregation.Aggregated(chosen, metric);
    if rows.Ok? {
      SwappedSides(OfVariant(rows.value, baseline), OfVariant(rows.value, candidate),
        CategoriesOf(rows.value), Options.Some(budget), n, seed, rng);
    }
  }

  /** The order of the run records never reaches the interval. */
  lemma ComparisonPermuted(records: seq<Run>, records': seq<Run>, metric: string, baseline: string, candidate: string,
                           budget: Budget, n: int, seed: int, rng: Rng, reduction: bool)
    requires DrawsInRange(rng) && multiset(records) == multiset(records')
    requires Comparison(records, metric, baseline, candidate, budget, n, seed, rng, reduction).Ok?
    ensures Comparison(records', metric, baseline, candidate, budget, n, seed, rng, reduction)
      == Comparison(records, metric, baseline, candidate, budget, n, seed, rng, reduction)
  {
    var chosen := (r: Run) => (r.variant == baseline || r.variant == candidate) && r.budget == budget;
    FilterPermuted(records, records', chosen);
    Aggregation.OrderIrrelevant(Filter(records, chosen), Filter(records', chosen), metric);
  }
}
