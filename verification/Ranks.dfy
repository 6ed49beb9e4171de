/** Average ranks with ties, and the Spearman correlation built on them. */
module Ranks {
  import opened Sums
  import opened Sorting

  /** The rank of v among values: one more than the entries below it, ties sharing the midpoint. */
  function RankOf(values: seq<real>, v: real): real {
    Count(values, Less(v)) as real + (Count(values, Same(v)) as real + 1.0) / 2.0
  }

  function Less(v: real): real -> bool {
    u => u < v
  }

  function Same(v: real): real -> bool {
    u => u == v
  }

  function CountingRanks(values: seq<real>): seq<real> {
    seq(|values|, i requires 0 <= i < |values| => RankOf(values, values[i]))
  }

  type Indexed = (int, real)

  function Enumerated(values: seq<real>): seq<Indexed> {
    seq(|values|, i requires 0 <= i < |values| => (i, values[i]))
  }

  predicate ByValue(a: Indexed, b: Indexed) {
    a.1 <= b.1
  }

  /** Every index once, beside its value, in order of the values. */
  ghost predicate Arranges(ordered: seq<Indexed>, values: seq<real>) {
    && multiset(ordered) == multiset(Enumerated(values)) && |ordered| == |values|
    && (forall p :: 0 <= p < |ordered| ==> 0 <= ordered[p].0 < |values| && ordered[p].1 == values[ordered[p].0])
    && (forall p, q :: 0 <= p < q < |ordered| ==> ordered[p].0 != ordered[q].0)
    && (forall p, q :: 0 <= p < q < |ordered| ==> ordered[p].1 <= ordered[q].1)
    && (forall i :: 0 <= i < |values| ==> (i, values[i]) in ordered)
  }

  /** Sort the enumerated values. */
  method SortEnumerated(values: seq<real>) returns (ordered: seq<Indexed>)
    ensures Arranges(ordered, values)
  {
    ordered := Sorted(Enumerated(values), ByValue);
    SortedSpec(Enumerated(values), ByValue);
    SameElements(ordered, Enumerated(values));
    assert NoDuplicates(Enumerated(values));
    SortedNoDuplicates(Enumerated(values), ByValue);
    forall p | 0 <= p < |ordered|
      ensures 0 <= ordered[p].0 < |values| && ordered[p].1 == values[ordered[p].0]
    {
      assert ordered[p] in ordered;
    }
    forall i | 0 <= i < |values| ensures (i, values[i]) in ordered {
      assert Enumerated(values)[i] in ordered;
    }
  }

  predicate Tied(ordered: seq<Indexed>, lo: nat, hi: nat)
    requires lo < hi <= |ordered|
  {
    forall p :: lo <= p < hi ==> ordered[p].1 == ordered[lo].1
  }

  /** A maximal run of ties at positions [lo, hi) of the order. */
  predicate TieBlock(ordered: seq<Indexed>, lo: nat, hi: nat) {
    && lo < hi <= |ordered| && Tied(ordered, lo, hi)
    && BlockBoundary(ordered, lo) && BlockBoundary(ordered, hi)
  }

  /** No tie straddles the position. */
  predicate BlockBoundary(ordered: seq<Indexed>, p: nat) {
    0 < p < |ordered| ==> ordered[p - 1].1 < ordered[p].1
  }

  /** Values satisfying p are counted by the positions of the order that hold them. */
  lemma CountByPosition(values: seq<real>, ordered: seq<Indexed>, p: real -> bool, q: Indexed -> bool, lo: nat, hi: nat)
    requires multiset(ordered) == multiset(Enumerated(values)) && lo <= hi <= |ordered|
    requires forall e: Indexed :: q(e) <==> p(e.1)
    requires forall i :: 0 <= i < |ordered| ==> (p(ordered[i].1) <==> lo <= i < hi)
    ensures Count(values, p) == hi - lo
  {
    CountReindex(values, Enumerated(values), p, q);
    CountPermuted(Enumerated(values), ordered, q);
    CountInterval(ordered, q, lo, hi);
  }

  lemma BelowBlock(values: seq<real>, ordered: seq<Indexed>, lo: nat, hi: nat)
    requires Arranges(ordered, values) && TieBlock(ordered, lo, hi)
    ensures Count(values, Less(ordered[lo].1)) == lo
  {
    var v := ordered[lo].1;
    CountByPosition(values, ordered, Less(v), (e: Indexed) => e.1 < v, 0, lo);
  }

  lemma WithinBlock(values: seq<real>, ordered: seq<Indexed>, lo: nat, hi: nat)
    requires Arranges(ordered, values) && TieBlock(ordered, lo, hi)
    ensures Count(values, Same(ordered[lo].1)) == hi - lo
  {
    var v := ordered[lo].1;
    CountByPosition(values, ordered, Same(v), (e: Indexed) => e.1 == v, lo, hi);
  }

  /** A maximal run of ties at positions [lo, hi) of the order has rank (lo + 1 + hi) / 2. */
  lemma TieBlockRank(values: seq<real>, ordered: seq<Indexed>, lo: nat, hi: nat)
    requires Arranges(ordered, values) && TieBlock(ordered, lo, hi)
    ensures RankOf(values, ordered[lo].1) == (lo + 1 + hi) as real / 2.0
  {
    BelowBlock(values, ordered, lo, hi);
    WithinBlock(values, ordered, lo, hi);
  }

  /** The entries at positions [index, end) of the order hold the rank, all others what they held before. */
  predicate Rewritten(before: seq<real>, ranks: seq<real>, ordered: seq<Indexed>, index: nat, end: nat, rank: real)
    requires forall p :: 0 <= p < |ordered| ==> 0 <= ordered[p].0 < |before|
  {
    |ranks| == |before| && forall p :: 0 <= p < |ordered| ==>
      ranks[ordered[p].0] == if index <= p < end then rank else before[ordered[p].0]
  }

  /** The first `index` positions of the order have their counting ranks. */
  ghost predicate RankedUpTo(values: seq<real>, ordered: seq<Indexed>, ranks: seq<real>, index: nat)
    requires Arranges(ordered, values) && index <= |ordered|
  {
    |ranks| == |values| && forall p :: 0 <= p < index ==> ranks[ordered[p].0] == RankOf(values, ordered[p].1)
  }

  /** Writing a block's rank extends the ranked positions by the block. */
  lemma BlockRanked(values: seq<real>, ordered: seq<Indexed>, before: seq<real>, ranks: seq<real>, index: nat, end: nat)
    requires Arranges(ordered, values) && TieBlock(ordered, index, end)
    requires RankedUpTo(values, ordered, before, index)
    requires Rewritten(before, ranks, ordered, index, end, (index + 1 + end) as real / 2.0)
    ensures RankedUpTo(values, ordered, ranks, end)
  {
    TieBlockRank(values, ordered, index, end);
  }

  /** Give the entries of a block of ties one rank, and no other entry: the ranked positions grow by the block. */
  method WriteRank(ghost values: seq<real>, before: seq<real>, ordered: seq<Indexed>, index: nat, end: nat, rank: real)
    returns (ranks: seq<real>)
    requires Arranges(ordered, values) && TieBlock(ordered, index, end) && RankedUpTo(values, ordered, before, index)
    requires rank == (index + 1 + end) as real / 2.0
    ensures Rewritten(before, ranks, ordered, index, end, rank) && RankedUpTo(values, ordered, ranks, end)
  {
    ranks := before;
    for position := index to end
      invariant Rewritten(before, ranks, ordered, index, position, rank)
    {
      ranks := ranks[ordered[position].0 := rank];
    }
    BlockRanked(values, ordered, before, ranks, index, end);
  }

  /** Walk the sorted order, giving each run of ties its midpoint. */
  method AverageRanks(values: seq<real>) returns (ranks: seq<real>)
    ensures ranks == CountingRanks(values)
  {
    var ordered := SortEnumerated(values);
    ranks := seq(|values|, _ => 0.0);
    var index := 0;
    while index < |ordered|
      invariant 0 <= index <= |ordered| && RankedUpTo(values, ordered, ranks, index)
      invariant BlockBoundary(ordered, index)
    {
      var end := index + 1;
      while end < |ordered| && ordered[end].1 == ordered[index].1
        invariant index < end <= |ordered| && Tied(ordered, index, end)
      {
        end := end + 1;
      }
      ranks := WriteRank(values, ranks, ordered, index, end, (index + 1 + end) as real / 2.0);
      index := end;
    }
  }

  /** The weight of u towards the rank of v; the two weights of a pair add up to 1. */
  function Below(v: real, u: real): real {
    if u < v then 1.0 else if u == v then 0.5 else 0.0
  }

  lemma {:induction false} RankIsRowSum(values: seq<real>, v: real)
    ensures RankOf(values, v) == 0.5 + RowSum(v, values, Below)
  {
    if values == [] {
    } else {
      RankIsRowSum(values[1..], v);
    }
  }

  /** Ranks grow strictly with the values, and ties are exactly equal ranks. */
  lemma RankStrictlyMonotone(values: seq<real>, v: real, w: real)
    requires v in values && w in values && v < w
    ensures RankOf(values, v) < RankOf(values, w)
  {
    var f := u => Below(v, u);
    var g := u => Below(w, u);
    RankIsRowSum(values, v);
    RankIsRowSum(values, w);
    RowSumIsSum(v, values, Below, f);
    RowSumIsSum(w, values, Below, g);
    var i :| 0 <= i < |values| && values[i] == w;
    SumRemove(values, i, f);
    SumRemove(values, i, g);
    SumMonotone(values[..i] + values[i + 1..], f, g);
  }

  function Identity(x: real): real { x }

  function Total(s: seq<real>): real { SumBy(s, Identity) }

  /** Over all ordered pairs the weights add up to half the number of pairs. */
  lemma BelowTotal(values: seq<real>)
    ensures 2.0 * DoubleSum(values, values, Below) == |values| as real * |values| as real
  {
    var flip := (v, u) => 1.0 - Below(v, u);
    DoubleSumExchange(values, values, Below, flip);
    forall v ensures RowSum(v, values, flip) == |values| as real - RowSum(v, values, Below) {
      ComplementRow(v, values, flip);
    }
    var n := |values| as real;
    DoubleSumIsSum(values, values, flip, v => n - RowSum(v, values, Below));
    ComplementSum(values, values, n);
  }

  lemma {:induction false} ComplementRow(v: real, b: seq<real>, flip: (real, real) -> real)
    requires forall x, y :: flip(x, y) == 1.0 - Below(x, y)
    ensures RowSum(v, b, flip) == |b| as real - RowSum(v, b, Below)
  {
    if b != [] { ComplementRow(v, b[1..], flip); }
  }

  lemma {:induction false} ComplementSum(a: seq<real>, b: seq<real>, n: real)
    ensures SumBy(a, v => n - RowSum(v, b, Below)) == n * |a| as real - DoubleSum(a, b, Below)
  {
    if a != [] { ComplementSum(a[1..], b, n); }
  }

  /** However many ties there are, the ranks of n values add up to n(n + 1)/2. */
  lemma RanksTotal(values: seq<real>)
    ensures Total(CountingRanks(values)) == |values| as real * (|values| as real + 1.0) / 2.0
  {
    SumReindex(CountingRanks(values), values, Identity, v => RankOf(values, v));
    RanksAsPairs(values, values);
    BelowTotal(values);
  }

  lemma {:induction false} RanksAsPairs(some: seq<real>, values: seq<real>)
    ensures SumBy(some, v => RankOf(values, v)) == 0.5 * |some| as real + DoubleSum(some, values, Below)
  {
    if some != [] {
      RanksAsPairs(some[1..], values);
      RankIsRowSum(values, some[0]);
    }
  }
}
