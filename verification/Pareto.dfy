/** Joint quality/cost dominance over shared task draws. */
module Pareto {
  import Options
  import opened RealArithmetic
  import opened Sums
  import Sorting
  import opened Sequences
  import Aggregation
  import Alignment
  import opened Bootstrap

  datatype QualityCost = QualityCost(quality: real, cost: real)

  datatype PlaneResult = PlaneResult(
    qualityMetric: string, costMetric: string, baseline: QualityCost, candidate: QualityCost,
    dominates: bool, proportion: real, tasks: nat, resamples: nat, seed: nat)

  datatype Outcome<T> = Done(value: T) | Rejected

  predicate Dominates(baseline: QualityCost, candidate: QualityCost) {
    && candidate.quality >= baseline.quality
    && candidate.cost <= baseline.cost
    && (candidate.quality > baseline.quality || candidate.cost < baseline.cost)
  }

  /** Dominance is a strict partial order. */
  lemma DominanceStrict(a: QualityCost, b: QualityCost, c: QualityCost)
    ensures !(Dominates(a, b) && Dominates(b, a))
    ensures Dominates(a, b) && Dominates(b, c) ==> Dominates(a, c)
  {
  }

  /** The per-task means of one metric for both variants, in task order. */
  datatype Sides = Sides(left: seq<Row>, right: seq<Row>)

  function PlaneSides(records: seq<Run>, metric: string, categories: map<string, Category>, baseline: string,
                      candidate: string, budget: Budget): Outcome<Sides>
  {
    var rows := Aggregation.Aggregated(records, metric);
    if rows.Err? then Rejected
    else
      var aligned := Alignment.Aligned(OfVariant(rows.value, baseline), OfVariant(rows.value, candidate),
                                       categories, Options.Some(budget));
      if aligned.Err? then Rejected else Done(Sides(aligned.value.0, aligned.value.1))
  }

  // ----- Both coordinates are about the same tasks in the same order -----

  /** Two listings that differ in their measured values only. */
  predicate SameLabels(a: seq<Row>, b: seq<Row>) {
    && |a| == |b|
    && forall i :: 0 <= i < |a| ==>
      a[i].taskId == b[i].taskId && a[i].variant == b[i].variant && a[i].budget == b[i].budget && a[i].category == b[i].category
  }

  lemma {:induction false} FilterSameLabels(a: seq<Row>, b: seq<Row>, p: Row -> bool)
    requires SameLabels(a, b) && forall i :: 0 <= i < |a| ==> (p(a[i]) <==> p(b[i]))
    ensures SameLabels(Filter(a, p), Filter(b, p))
  {
    if a != [] {
      assert forall i :: 0 <= i < |a| - 1 ==> a[1..][i] == a[i + 1] && b[1..][i] == b[i + 1];
      FilterSameLabels(a[1..], b[1..], p);
    }
  }

  lemma AggregatesSameLabels(records: seq<Run>, m: string, m': string)
    requires Aggregation.Aggregated(records, m).Ok? && Aggregation.Aggregated(records, m').Ok?
    ensures SameLabels(Aggregation.Aggregated(records, m).value, Aggregation.Aggregated(records, m').value)
  {
    Aggregation.AcceptedExactly(records, m);
    Aggregation.AcceptedExactly(records, m');
    Aggregation.RowsIndexed(records, Aggregation.SortedKeys(records), m);
    Aggregation.RowsIndexed(records, Aggregation.SortedKeys(records), m');
  }

  lemma SelectionSameLabels(q: seq<Row>, c: seq<Row>, variant: string, budget: Options.Option<Budget>)
    requires SameLabels(q, c)
    ensures Alignment.TaskKeys(Alignment.Selected(OfVariant(q, variant), budget))
         == Alignment.TaskKeys(Alignment.Selected(OfVariant(c, variant), budget))
  {
    FilterSameLabels(q, c, (r: Row) => r.variant == variant);
    FilterSameLabels(OfVariant(q, variant), OfVariant(c, variant), (r: Row) => budget.None? || r.budget == budget.value);
  }

  lemma AlignedTaskKeys(left: seq<Row>, right: seq<Row>, categories: map<string, Category>, budget: Options.Option<Budget>)
    requires Alignment.Aligned(left, right, categories, budget).Ok?
    ensures var (l, r) := Alignment.Aligned(left, right, categories, budget).value;
      && l != [] && |l| == |r| && SameCategories(l, r) && Alignment.TaskKeys(l) == Alignment.TaskKeys(r)
      && Alignment.TaskKeys(l) == Sorting.Sorted(Alignment.TaskKeys(Alignment.Selected(left, budget)), Alignment.TaskKeyAtMost)
  {
    Alignment.AlignedShape(left, right, categories, budget);
    Alignment.SortedTaskKeys(Alignment.Selected(left, budget));
  }

  /** The tasks of both metrics line up position by position. */
  lemma SidesMatch(records: seq<Run>, names: (string, string), categories: map<string, Category>,
                   baseline: string, candidate: string, budget: Budget)
    requires PlaneSides(records, names.0, categories, baseline, candidate, budget).Done?
    requires PlaneSides(records, names.1, categories, baseline, candidate, budget).Done?
    ensures var quality := PlaneSides(records, names.0, categories, baseline, candidate, budget).value;
      var cost := PlaneSides(records, names.1, categories, baseline, candidate, budget).value;
      && quality.left != [] && |quality.left| == |quality.right| == |cost.left| == |cost.right|
      && SameCategories(quality.left, quality.right)
      && Alignment.TaskKeys(quality.left) == Alignment.TaskKeys(quality.right)
      && Alignment.TaskKeys(cost.left) == Alignment.TaskKeys(cost.right)
      && Alignment.TaskKeys(quality.left) == Alignment.TaskKeys(cost.left)
  {
    var q, c := Aggregation.Aggregated(records, names.0).value, Aggregation.Aggregated(records, names.1).value;
    AggregatesSameLabels(records, names.0, names.1);
    SelectionSameLabels(q, c, baseline, Options.Some(budget));
    AlignedTaskKeys(OfVariant(q, baseline), OfVariant(q, candidate), categories, Options.Some(budget));
    AlignedTaskKeys(OfVariant(c, baseline), OfVariant(c, candidate), categories, Options.Some(budget));
    var quality := PlaneSides(records, names.0, categories, baseline, candidate, budget).value;
    var cost := PlaneSides(records, names.1, categories, baseline, candidate, budget).value;
    assert |Alignment.TaskKeys(quality.left)| == |quality.left| && |Alignment.TaskKeys(cost.left)| == |cost.left|;
  }

  function Means(rows: seq<Row>): seq<real> {
    seq(|rows|, i requires 0 <= i < |rows| => rows[i].mean)
  }

  /** Whether the candidate dominates in each draw. */
  function DrawVerdicts(quality: Sides, cost: Sides, draws: seq<seq<nat>>): seq<bool>
    requires UsableDraws(quality, cost, draws)
  {
    seq(|draws|, d requires 0 <= d < |draws| =>
      Dominates(
        QualityCost(Mean(Picked(Means(quality.left), draws[d])), Mean(Picked(Means(cost.left), draws[d]))),
        QualityCost(Mean(Picked(Means(quality.right), draws[d])), Mean(Picked(Means(cost.right), draws[d])))))
  }

  predicate UsableDraws(quality: Sides, cost: Sides, draws: seq<seq<nat>>) {
    && |quality.left| == |quality.right| == |cost.left| == |cost.right|
    && draws != []
    && forall d :: 0 <= d < |draws| ==> draws[d] != [] && forall i :: 0 <= i < |draws[d]| ==> draws[d][i] < |quality.left|
  }

  function Proportion(verdicts: seq<bool>): real
    requires verdicts != []
  {
    Count(verdicts, (v: bool) => v) as real / |verdicts| as real
  }

  predicate NonnegativeCosts(cost: Sides) {
    forall i :: 0 <= i < |cost.left + cost.right| ==> (cost.left + cost.right)[i].mean >= 0.0
  }

  function PlaneOf(quality: Sides, cost: Sides, names: (string, string), n: int, seed: int, rng: Rng): Outcome<PlaneResult>
    requires DrawsInRange(rng)
    requires quality.left != [] && |quality.left| == |quality.right| == |cost.left| == |cost.right|
  {
    if !NonnegativeCosts(cost) then Rejected
    else
      var base := QualityCost(Mean(Means(quality.left)), Mean(Means(cost.left)));
      var cand := QualityCost(Mean(Means(quality.right)), Mean(Means(cost.right)));
      var draws := ResampleIndices(quality.left, n, seed, rng);
      if draws.Err? then Rejected
      else
        StratifiedDraws(quality.left, n, seed, rng);
        DrawsUsable(quality.left, n, seed, rng);
        Done(PlaneResult(names.0, names.1, base, cand, Dominates(base, cand),
          Proportion(DrawVerdicts(quality, cost, draws.value)), |quality.left|, n, seed))
  }

  function Chosen(records: seq<Run>, budget: Budget, baseline: string, candidate: string): seq<Run> {
    Filter(records, (r: Run) => (r.variant == baseline || r.variant == candidate) && r.budget == budget)
  }

  /** The sides of the quality metric and of the cost metric, over the categories of the quality rows. */
  function BothSides(selected: seq<Run>, names: (string, string), budget: Budget, baseline: string, candidate: string)
    : Outcome<(Sides, Sides)>
  {
    var rows := Aggregation.Aggregated(selected, names.0);
    if rows.Err? then Rejected
    else
      var categories := CategoriesOf(rows.value);
      var quality := PlaneSides(selected, names.0, categories, baseline, candidate, budget);
      var cost := PlaneSides(selected, names.1, categories, baseline, candidate, budget);
      if quality.Rejected? || cost.Rejected? then Rejected else Done((quality.value, cost.value))
  }

  lemma BothSidesShape(selected: seq<Run>, names: (string, string), budget: Budget, baseline: string, candidate: string)
    requires BothSides(selected, names, budget, baseline, candidate).Done?
    ensures var (quality, cost) := BothSides(selected, names, budget, baseline, candidate).value;
      quality.left != [] && |quality.left| == |quality.right| == |cost.left| == |cost.right|
      && SameCategories(quality.left, quality.right)
  {
    SidesMatch(selected, names, CategoriesOf(Aggregation.Aggregated(selected, names.0).value), baseline, candidate, budget);
  }

  /** One plane of the analysis, from the chosen records. */
  function PlaneFrom(selected: seq<Run>, names: (string, string), budget: Budget, baseline: string, candidate: string,
                     n: int, seed: int, rng: Rng): Outcome<PlaneResult>
    requires DrawsInRange(rng)
  {
    var sides := BothSides(selected, names, budget, baseline, candidate);
    if sides.Rejected? then Rejected
    else
      BothSidesShape(selected, names, budget, baseline, candidate);
      PlaneOf(sides.value.0, sides.value.1, names, n, seed, rng)
  }

  function Plane(records: seq<Run>, names: (string, string), budget: Budget, baseline: string, candidate: string,
                 n: int, seed: int, rng: Rng): Outcome<PlaneResult>
    requires DrawsInRange(rng)
  {
    PlaneFrom(Chosen(records, budget, baseline, candidate), names, budget, baseline, candidate, n, seed, rng)
  }

  // ----- Proportions -----

  lemma {:induction false} CountAll(verdicts: seq<bool>)
    requires forall d :: 0 <= d < |verdicts| ==> verdicts[d]
    ensures Count(verdicts, (v: bool) => v) == |verdicts|
  {
    if verdicts != [] { CountAll(verdicts[1..]); }
  }

  lemma {:induction false} CountExclusive(a: seq<bool>, b: seq<bool>)
    requires |a| == |b| && forall d :: 0 <= d < |a| ==> !(a[d] && b[d])
    ensures Count(a, (v: bool) => v) + Count(b, (v: bool) => v) <= |a|
  {
    if a != [] {
      assert forall d :: 0 <= d < |a| - 1 ==> a[1..][d] == a[d + 1] && b[1..][d] == b[d + 1];
      CountExclusive(a[1..], b[1..]);
    }
  }

  lemma ProportionsExclusive(a: seq<bool>, b: seq<bool>)
    requires a != [] && |a| == |b| && forall d :: 0 <= d < |a| ==> !(a[d] && b[d])
    ensures Proportion(a) + Proportion(b) <= 1.0
  {
    CountExclusive(a, b);
    SumOfShares(Count(a, (v: bool) => v) as real, Count(b, (v: bool) => v) as real, |a| as real);
  }

  /** With the sides exchanged, the same records give the exchanged sides. */
  lemma PlaneSidesSwapped(records: seq<Run>, metric: string, categories: map<string, Category>,
                          baseline: string, candidate: string, budget: Budget)
    ensures var forth := PlaneSides(records, metric, categories, baseline, candidate, budget);
      PlaneSides(records, metric, categories, candidate, baseline, budget)
        == if forth.Done? then Done(Flip(forth.value)) else Rejected
  {
    var rows := Aggregation.Aggregated(records, metric);
    if rows.Ok? {
      Alignment.AlignedSwapped(OfVariant(rows.value, baseline), OfVariant(rows.value, candidate), categories, Options.Some(budget));
    }
  }

  /** In each shared draw at most one of the two sides dominates: the proportion of the candidate over the
      baseline and that of the baseline over the candidate add up to at most 1, and the overall verdicts exclude each other. */
  lemma OppositeProportions(records: seq<Run>, names: (string, string), budget: Budget, baseline: string, candidate: string,
                            n: int, seed: int, rng: Rng)
    requires DrawsInRange(rng)
    ensures Plane(records, names, budget, baseline, candidate, n, seed, rng).Done?
      <==> Plane(records, names, budget, candidate, baseline, n, seed, rng).Done?
    ensures Plane(records, names, budget, baseline, candidate, n, seed, rng).Done? ==>
      var forth := Plane(records, names, budget, baseline, candidate, n, seed, rng).value;
      var back := Plane(records, names, budget, candidate, baseline, n, seed, rng).value;
      forth.proportion + back.proportion <= 1.0 && !(forth.dominates && back.dominates)
  {
    FilterCongruent(records, (r: Run) => (r.variant == baseline || r.variant == candidate) && r.budget == budget,
      (r: Run) => (r.variant == candidate || r.variant == baseline) && r.budget == budget);
    PlaneFromSwapped(Chosen(records, budget, baseline, candidate), names, budget, baseline, candidate, n, seed, rng);
  }

  lemma PlaneFromSwapped(selected: seq<Run>, names: (string, string), budget: Budget, baseline: string, candidate: string,
                         n: int, seed: int, rng: Rng)
    requires DrawsInRange(rng)
    ensures var forth := PlaneFrom(selected, names, budget, baseline, candidate, n, seed, rng);
      var back := PlaneFrom(selected, names, budget, candidate, baseline, n, seed, rng);
      (forth.Done? <==> back.Done?)
      && (forth.Done? ==> forth.value.proportion + back.value.proportion <= 1.0 && !(forth.value.dominates && back.value.dominates))
  {
    BothSidesSwapped(selected, names, budget, baseline, candidate);
    var sides := BothSides(selected, names, budget, baseline, candidate);
    if sides.Done? {
      BothSidesShape(selected, names, budget, baseline, candidate);
      PlaneOfSwapped(sides.value.0, sides.value.1, names, n, seed, rng);
    }
  }

  lemma BothSidesSwapped(selected: seq<Run>, names: (string, string), budget: Budget, baseline: string, candidate: string)
    ensures var forth := BothSides(selected, names, budget, baseline, candidate);
      BothSides(selected, names, budget, candidate, baseline)
        == if forth.Done? then Done((Flip(forth.value.0), Flip(forth.value.1))) else Rejected
  {
    var rows := Aggregation.Aggregated(selected, names.0);
    if rows.Ok? {
      PlaneSidesSwapped(selected, names.0, CategoriesOf(rows.value), baseline, candidate, budget);
      PlaneSidesSwapped(selected, names.1, CategoriesOf(rows.value), baseline, candidate, budget);
    }
  }

  function Flip(s: Sides): Sides {
    Sides(s.right, s.left)
  }

  lemma PlaneOfSwapped(quality: Sides, cost: Sides, names: (string, string), n: int, seed: int, rng: Rng)
    requires DrawsInRange(rng)
    requires quality.left != [] && |quality.left| == |quality.right| == |cost.left| == |cost.right|
    requires SameCategories(quality.left, quality.right)
    ensures var forth, back := PlaneOf(quality, cost, names, n, seed, rng), PlaneOf(Flip(quality), Flip(cost), names, n, seed, rng);
      (forth.Done? <==> back.Done?)
      && (forth.Done? ==> forth.value.proportion + back.value.proportion <= 1.0 && !(forth.value.dominates && back.value.dominates))
  {
    var both, flipped := cost.left + cost.right, cost.right + cost.left;
    assert NonnegativeCosts(cost) <==> NonnegativeCosts(Flip(cost)) by {
      forall i | 0 <= i < |both| ensures both[i] in flipped && flipped[i] in both { }
    }
    SharedDraws(quality.left, quality.right, n, seed, rng);
    var draws := ResampleIndices(quality.left, n, seed, rng);
    if draws.Ok? && NonnegativeCosts(cost) {
      DrawsUsable(quality.left, n, seed, rng);
      StratifiedDraws(quality.left, n, seed, rng);
      ProportionsExclusive(DrawVerdicts(quality, cost, draws.value), DrawVerdicts(Flip(quality), Flip(cost), draws.value));
    }
  }

  // ----- Uniform improvement -----

  lemma {:induction false} SumComparison(a: seq<real>, b: seq<real>)
    requires |a| == |b| && forall i :: 0 <= i < |a| ==> a[i] <= b[i]
    ensures SumBy(a, (x: real) => x) <= SumBy(b, (x: real) => x)
    ensures (a != [] && forall i :: 0 <= i < |a| ==> a[i] < b[i]) ==> SumBy(a, (x: real) => x) < SumBy(b, (x: real) => x)
  {
    if a != [] {
      assert forall i :: 0 <= i < |a| - 1 ==> a[1..][i] == a[i + 1] && b[1..][i] == b[i + 1];
      SumComparison(a[1..], b[1..]);
    }
  }

  lemma MeanComparison(a: seq<real>, b: seq<real>)
    requires a != [] && |a| == |b| && forall i :: 0 <= i < |a| ==> a[i] <= b[i]
    ensures Mean(a) <= Mean(b)
    ensures (forall i :: 0 <= i < |a| ==> a[i] < b[i]) ==> Mean(a) < Mean(b)
  {
    SumComparison(a, b);
    QuotientMonotone(SumBy(a, (x: real) => x), |a| as real, SumBy(b, (x: real) => x));
    if forall i :: 0 <= i < |a| ==> a[i] < b[i] {
      QuotientStrict(SumBy(a, (x: real) => x), |a| as real, SumBy(b, (x: real) => x));
    }
  }

  /** Every task gains quality and no task costs more. */
  predicate UniformGain(quality: Sides, cost: Sides) {
    |quality.left| == |quality.right| && |cost.left| == |cost.right|
    && (forall i :: 0 <= i < |quality.left| ==> quality.right[i].mean > quality.left[i].mean)
    && forall i :: 0 <= i < |cost.left| ==> cost.right[i].mean <= cost.left[i].mean
  }

  /** If in the records every task gains quality and no task costs more, the candidate dominates overall and in every draw. */
  lemma UniformGainDominates(records: seq<Run>, names: (string, string), budget: Budget, baseline: string, candidate: string,
                             n: int, seed: int, rng: Rng)
    requires DrawsInRange(rng)
    requires Plane(records, names, budget, baseline, candidate, n, seed, rng).Done?
    requires var sides := BothSides(Chosen(records, budget, baseline, candidate), names, budget, baseline, candidate);
      sides.Done? && UniformGain(sides.value.0, sides.value.1)
    ensures var plane := Plane(records, names, budget, baseline, candidate, n, seed, rng).value;
      plane.proportion == 1.0 && plane.dominates
  {
    var selected := Chosen(records, budget, baseline, candidate);
    BothSidesShape(selected, names, budget, baseline, candidate);
    var sides := BothSides(selected, names, budget, baseline, candidate).value;
    UniformGainOnSides(sides.0, sides.1, names, n, seed, rng);
  }

  lemma UniformGainOnSides(quality: Sides, cost: Sides, names: (string, string), n: int, seed: int, rng: Rng)
    requires DrawsInRange(rng)
    requires quality.left != [] && |quality.left| == |quality.right| == |cost.left| == |cost.right|
    requires forall i :: 0 <= i < |quality.left| ==> quality.right[i].mean > quality.left[i].mean
    requires forall i :: 0 <= i < |cost.left| ==> cost.right[i].mean <= cost.left[i].mean
    requires PlaneOf(quality, cost, names, n, seed, rng).Done?
    ensures PlaneOf(quality, cost, names, n, seed, rng).value.proportion == 1.0
    ensures PlaneOf(quality, cost, names, n, seed, rng).value.dominates
  {
    MeanComparison(Means(quality.left), Means(quality.right));
    MeanComparison(Means(cost.right), Means(cost.left));
    DrawsUsable(quality.left, n, seed, rng);
    StratifiedDraws(quality.left, n, seed, rng);
    var draws := ResampleIndices(quality.left, n, seed, rng).value;
    EveryDrawDominated(quality, cost, draws);
    UnanimousProportion(DrawVerdicts(quality, cost, draws));
  }

  lemma UnanimousProportion(verdicts: seq<bool>)
    requires verdicts != [] && forall d :: 0 <= d < |verdicts| ==> verdicts[d]
    ensures Proportion(verdicts) == 1.0
  {
    CountAll(verdicts);
    QuotientUnique(|verdicts| as real, |verdicts| as real, 1.0);
  }

  lemma EveryDrawDominated(quality: Sides, cost: Sides, draws: seq<seq<nat>>)
    requires UsableDraws(quality, cost, draws)
    requires forall i :: 0 <= i < |quality.left| ==> quality.right[i].mean > quality.left[i].mean
    requires forall i :: 0 <= i < |cost.left| ==> cost.right[i].mean <= cost.left[i].mean
    ensures forall d :: 0 <= d < |draws| ==> DrawVerdicts(quality, cost, draws)[d]
  {
    forall d | 0 <= d < |draws| ensures DrawVerdicts(quality, cost, draws)[d] {
      MeanComparison(Picked(Means(quality.left), draws[d]), Picked(Means(quality.right), draws[d]));
      MeanComparison(Picked(Means(cost.right), draws[d]), Picked(Means(cost.left), draws[d]));
    }
  }

  // ----- The plane in terms of sums -----

  /** In a draw the candidate wins: over the drawn tasks it is no worse in total on either metric, and not equal on both. */
  function DrawWon(quality: Sides, cost: Sides): seq<nat> -> bool {
    (draw: seq<nat>) =>
      var gained, spent := SumBy(draw, DifferenceAt(quality.left, quality.right)), SumBy(draw, DifferenceAt(cost.left, cost.right));
      gained >= 0.0 && spent <= 0.0 && !(gained == 0.0 && spent == 0.0)
  }

  /** Comparing the means of what a draw picks is comparing the sum of its differences with zero. */
  lemma DrawComparison(left: seq<Row>, right: seq<Row>, draw: seq<nat>)
    requires |left| == |right| && draw != [] && forall i :: 0 <= i < |draw| ==> draw[i] < |left|
    ensures var a, b := Mean(Picked(Means(left), draw)), Mean(Picked(Means(right), draw));
      var difference := SumBy(draw, DifferenceAt(left, right));
      (b >= a <==> difference >= 0.0) && (b <= a <==> difference <= 0.0)
  {
    var x, y := Picked(Means(left), draw), Picked(Means(right), draw);
    MeanTimes(x);
    MeanTimes(y);
    var f, g := (i: nat) => if i < |left| then left[i].mean else 0.0, (i: nat) => if i < |right| then right[i].mean else 0.0;
    SumReindex(x, draw, (v: real) => v, f);
    SumReindex(y, draw, (v: real) => v, g);
    SumAdd(draw, f, DifferenceAt(left, right), g);
    ScaledComparison(|draw| as real, Mean(x), Mean(y));
  }

  lemma ScaledComparison(k: real, a: real, b: real)
    requires k > 0.0
    ensures (b >= a <==> Product(k, b) >= Product(k, a)) && (b <= a <==> Product(k, b) <= Product(k, a))
  {
    ProductMonotone(k, a, b);
    ProductMonotone(k, b, a);
  }

  lemma VerdictIsWin(quality: Sides, cost: Sides, draws: seq<seq<nat>>, d: nat)
    requires UsableDraws(quality, cost, draws) && d < |draws|
    ensures DrawVerdicts(quality, cost, draws)[d] <==> DrawWon(quality, cost)(draws[d])
  {
    DrawComparison(quality.left, quality.right, draws[d]);
    DrawComparison(cost.left, cost.right, draws[d]);
  }

  lemma VerdictsAreWins(quality: Sides, cost: Sides, draws: seq<seq<nat>>)
    requires UsableDraws(quality, cost, draws)
    ensures Product(|draws| as real, Proportion(DrawVerdicts(quality, cost, draws))) == Count(draws, DrawWon(quality, cost)) as real
  {
    var verdicts := DrawVerdicts(quality, cost, draws);
    forall d | 0 <= d < |draws| ensures verdicts[d] <==> DrawWon(quality, cost)(draws[d]) {
      VerdictIsWin(quality, cost, draws, d);
    }
    WinsCounted(verdicts, draws, DrawWon(quality, cost));
  }

  lemma WinsCounted(verdicts: seq<bool>, draws: seq<seq<nat>>, won: seq<nat> -> bool)
    requires |verdicts| == |draws| >= 1 && forall d :: 0 <= d < |draws| ==> (verdicts[d] <==> won(draws[d]))
    ensures Product(|draws| as real, Proportion(verdicts)) == Count(draws, won) as real
  {
    VerdictsCounted(verdicts, draws, won);
    ProportionTimes(verdicts);
  }

  lemma VerdictsCounted(verdicts: seq<bool>, draws: seq<seq<nat>>, won: seq<nat> -> bool)
    requires |verdicts| == |draws| && forall d :: 0 <= d < |draws| ==> (verdicts[d] <==> won(draws[d]))
    ensures Count(verdicts, (v: bool) => v) == Count(draws, won)
  {
    CountReindex(verdicts, draws, (v: bool) => v, won);
  }

  lemma ProportionTimes(verdicts: seq<bool>)
    requires verdicts != []
    ensures Product(|verdicts| as real, Proportion(verdicts)) == Count(verdicts, (v: bool) => v) as real
  {
    QuotientTimes(Count(verdicts, (v: bool) => v) as real, |verdicts| as real);
  }

  lemma QuotientTimes(c: real, n: real)
    requires n > 0.0
    ensures Product(n, c / n) == c
  {
    QuotientSign(c, n);
    ProductCommutes(n, c / n);
  }

  lemma PointTimes(rows: seq<Row>)
    requires rows != []
    ensures Product(|rows| as real, Mean(Means(rows))) == SumBy(rows, MeanField())
  {
    MeanTimes(Means(rows));
    SumReindex(Means(rows), rows, (v: real) => v, MeanField());
  }

  /** A plane computed from the records: times the number of tasks the reported coordinates are the sides' totals; the
      candidate dominates exactly when the points differ and it is no worse in either coordinate; and times the number of
      resamples the proportion is the number of draws it wins. */
  lemma PlaneFromSums(records: seq<Run>, names: (string, string), budget: Budget, baseline: string, candidate: string,
                      n: int, seed: int, rng: Rng)
    requires DrawsInRange(rng) && Plane(records, names, budget, baseline, candidate, n, seed, rng).Done?
    ensures var plane := Plane(records, names, budget, baseline, candidate, n, seed, rng).value;
      var sides := BothSides(Chosen(records, budget, baseline, candidate), names, budget, baseline, candidate);
      && sides.Done? && var (quality, cost) := sides.value;
      var tasks, draws := |quality.left| as real, ResampleIndices(quality.left, n, seed, rng);
      && tasks > 0.0
      && Product(tasks, plane.baseline.quality) == SumBy(quality.left, MeanField())
      && Product(tasks, plane.candidate.quality) == SumBy(quality.right, MeanField())
      && Product(tasks, plane.baseline.cost) == SumBy(cost.left, MeanField())
      && Product(tasks, plane.candidate.cost) == SumBy(cost.right, MeanField())
      && (plane.dominates <==>
            plane.baseline != plane.candidate
            && plane.candidate.quality >= plane.baseline.quality && plane.candidate.cost <= plane.baseline.cost)
      && draws.Ok? && |draws.value| == n >= 1
      && Product(n as real, plane.proportion) == Count(draws.value, DrawWon(quality, cost)) as real
  {
    var selected := Chosen(records, budget, baseline, candidate);
    BothSidesShape(selected, names, budget, baseline, candidate);
    var (quality, cost) := BothSides(selected, names, budget, baseline, candidate).value;
    PointTimes(quality.left);
    PointTimes(quality.right);
    PointTimes(cost.left);
    PointTimes(cost.right);
    DrawsUsable(quality.left, n, seed, rng);
    StratifiedDraws(quality.left, n, seed, rng);
    VerdictsAreWins(quality, cost, ResampleIndices(quality.left, n, seed, rng).value);
  }

  /** Which way all tasks move on a metric. */
  predicate Moves(sides: Sides, sign: real, strictly: bool) {
    |sides.left| == |sides.right| && forall i :: 0 <= i < |sides.left| ==>
      var change := Product(sign, sides.right[i].mean - sides.left[i].mean); if strictly then change > 0.0 else change >= 0.0
  }

  lemma {:induction false} DrawMoves(sides: Sides, sign: real, strictly: bool, draw: seq<nat>)
    requires Moves(sides, sign, strictly) && forall i :: 0 <= i < |draw| ==> draw[i] < |sides.left|
    ensures var total := Product(sign, SumBy(draw, DifferenceAt(sides.left, sides.right)));
      total >= 0.0 && (strictly && draw != [] ==> total > 0.0)
  {
    var f := DifferenceAt(sides.left, sides.right);
    if draw == [] {
      ProductDistributes(0.0, 0.0, sign);
    } else {
      DrawMoves(sides, sign, strictly, draw[1..]);
      ProductDistributes(f(draw[0]), SumBy(draw[1..], f), sign);
    }
  }

  lemma Signed(x: real)
    ensures Product(1.0, x) == x && Product(-1.0, x) == -x
  {
  }

  /** What a uniform movement decides: no loss of quality with every task saving cost wins every draw; every task losing
      quality, or every task costing more, loses every draw. */
  lemma UniformDraws(quality: Sides, cost: Sides, draws: seq<seq<nat>>)
    requires UsableDraws(quality, cost, draws)
    ensures Moves(quality, 1.0, false) && Moves(cost, -1.0, true) ==> Count(draws, DrawWon(quality, cost)) == |draws|
    ensures Moves(quality, -1.0, true) || Moves(cost, 1.0, true) ==> Count(draws, DrawWon(quality, cost)) == 0
  {
    forall d | 0 <= d < |draws|
      ensures Moves(quality, 1.0, false) && Moves(cost, -1.0, true) ==> DrawWon(quality, cost)(draws[d])
      ensures Moves(quality, -1.0, true) || Moves(cost, 1.0, true) ==> !DrawWon(quality, cost)(draws[d])
    {
      var gained, spent := SumBy(draws[d], DifferenceAt(quality.left, quality.right)), SumBy(draws[d], DifferenceAt(cost.left, cost.right));
      Signed(gained);
      Signed(spent);
      if Moves(quality, 1.0, false) { DrawMoves(quality, 1.0, false, draws[d]); }
      if Moves(quality, -1.0, true) { DrawMoves(quality, -1.0, true, draws[d]); }
      if Moves(cost, -1.0, true) { DrawMoves(cost, -1.0, true, draws[d]); }
      if Moves(cost, 1.0, true) { DrawMoves(cost, 1.0, true, draws[d]); }
    }
    if Moves(quality, 1.0, false) && Moves(cost, -1.0, true) { CountInterval(draws, DrawWon(quality, cost), 0, |draws|); }
    if Moves(quality, -1.0, true) || Moves(cost, 1.0, true) { CountInterval(draws, DrawWon(quality, cost), 0, 0); }
  }

  /** Over the draw of every task once. */
  lemma EveryoneTotals(sides: Sides)
    requires |sides.left| == |sides.right|
    ensures SumBy(Indices(|sides.left|), DifferenceAt(sides.left, sides.right))
      == SumBy(sides.right, MeanField()) - SumBy(sides.left, MeanField())
  {
    var differences := Differences(sides.left, sides.right);
    SumReindex(Indices(|sides.left|), differences, DifferenceAt(sides.left, sides.right), (v: real) => v);
    DifferenceTotals(sides.left, sides.right);
  }

  lemma PointComparison(tasks: real, a: real, b: real, total: real)
    requires tasks > 0.0 && total == Product(tasks, b) - Product(tasks, a)
    ensures (b >= a <==> total >= 0.0) && (b <= a <==> total <= 0.0)
  {
    ScaledComparison(tasks, a, b);
  }

  /** Of the plane computed from the records: no task losing quality and every task saving cost gives dominance and
      proportion 1; every task losing quality, or every task costing more, gives no dominance and proportion 0. */
  lemma UniformMovementDecides(records: seq<Run>, names: (string, string), budget: Budget, baseline: string, candidate: string,
                               n: int, seed: int, rng: Rng)
    requires DrawsInRange(rng) && Plane(records, names, budget, baseline, candidate, n, seed, rng).Done?
    ensures var plane := Plane(records, names, budget, baseline, candidate, n, seed, rng).value;
      var sides := BothSides(Chosen(records, budget, baseline, candidate), names, budget, baseline, candidate);
      && sides.Done? && var (quality, cost) := sides.value;
      && (Moves(quality, 1.0, false) && Moves(cost, -1.0, true) ==> plane.dominates && plane.proportion == 1.0)
      && (Moves(quality, -1.0, true) || Moves(cost, 1.0, true) ==> !plane.dominates && plane.proportion == 0.0)
  {
    var selected := Chosen(records, budget, baseline, candidate);
    var plane := Plane(records, names, budget, baseline, candidate, n, seed, rng).value;
    PlaneFromSums(records, names, budget, baseline, candidate, n, seed, rng);
    BothSidesShape(selected, names, budget, baseline, candidate);
    var (quality, cost) := BothSides(selected, names, budget, baseline, candidate).value;
    DrawsUsable(quality.left, n, seed, rng);
    StratifiedDraws(quality.left, n, seed, rng);
    UniformDraws(quality, cost, ResampleIndices(quality.left, n, seed, rng).value);
    UniformPoints(quality, cost, plane.baseline, plane.candidate);
    Shares(n as real, plane.proportion);
  }

  lemma Shares(n: real, proportion: real)
    requires n > 0.0
    ensures Product(n, proportion) == n ==> proportion == 1.0
    ensures Product(n, proportion) == 0.0 ==> proportion == 0.0
  {
    ScaledComparison(n, proportion, 1.0);
    ScaledComparison(n, proportion, 0.0);
    Signed(n);
    ProductCommutes(n, 1.0);
    ProductMonotone(n, 0.0, 0.0);
  }

  lemma UniformPoints(quality: Sides, cost: Sides, base: QualityCost, cand: QualityCost)
    requires quality.left != [] && |quality.left| == |quality.right| == |cost.left| == |cost.right|
    requires var tasks := |quality.left| as real;
      && Product(tasks, base.quality) == SumBy(quality.left, MeanField())
      && Product(tasks, cand.quality) == SumBy(quality.right, MeanField())
      && Product(tasks, base.cost) == SumBy(cost.left, MeanField())
      && Product(tasks, cand.cost) == SumBy(cost.right, MeanField())
    ensures var wins := base != cand && cand.quality >= base.quality && cand.cost <= base.cost;
      && (Moves(quality, 1.0, false) && Moves(cost, -1.0, true) ==> wins)
      && (Moves(quality, -1.0, true) || Moves(cost, 1.0, true) ==> !wins)
  {
    var all, tasks := Indices(|quality.left|), |quality.left| as real;
    EveryoneTotals(quality);
    EveryoneTotals(cost);
    var gained, spent := SumBy(all, DifferenceAt(quality.left, quality.right)), SumBy(all, DifferenceAt(cost.left, cost.right));
    PointComparison(tasks, base.quality, cand.quality, gained);
    PointComparison(tasks, base.cost, cand.cost, spent);
    Signed(gained);
    Signed(spent);
    if Moves(quality, 1.0, false) { DrawMoves(quality, 1.0, false, all); }
    if Moves(quality, -1.0, true) { DrawMoves(quality, -1.0, true, all); }
    if Moves(cost, -1.0, true) { DrawMoves(cost, -1.0, true, all); }
    if Moves(cost, 1.0, true) { DrawMoves(cost, 1.0, true, all); }
  }

  const PLANES: seq<(string, string)> := [
    ("citation_support_precision", "cost_usd"),
    ("information_completeness", "search_calls")]

  /** Both planes in order; the first rejection ends the analysis. */
  method AnalyzePareto(records: seq<Run>, budget: Budget, baseline: string, candidate: string, n: int, seed: int, rng: Rng)
    returns (r: Outcome<seq<PlaneResult>>)
    requires DrawsInRange(rng)
    ensures r.Done? <==> forall p :: 0 <= p < |PLANES| ==> Plane(records, PLANES[p], budget, baseline, candidate, n, seed, rng).Done?
    ensures r.Done? ==> |r.value| == |PLANES| && forall p :: 0 <= p < |PLANES| ==>
      Done(r.value[p]) == Plane(records, PLANES[p], budget, baseline, candidate, n, seed, rng)
  {
    var results := [];
    for i := 0 to |PLANES|
      invariant |results| == i
      invariant forall p :: 0 <= p < i ==> Done(results[p]) == Plane(records, PLANES[p], budget, baseline, candidate, n, seed, rng)
    {
      var plane := Plane(records, PLANES[i], budget, baseline, candidate, n, seed, rng);
      if plane.Rejected? { return Rejected; }
      results := results + [plane.value];
    }
    return Done(results);
  }
}
