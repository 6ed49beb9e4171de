/** Normalised discounted cumulative gain of a ranking, with the logarithmic discount left abstract. */
module Ndcg {
  import opened RealArithmetic
  import opened Sums
  import opened Sorting
  import opened Sequences

  datatype Result<T> = Ok(value: T) | ValueError

  datatype Entry = Entry(id: string, grade: int)

  predicate UniqueIds(entries: seq<Entry>) {
    forall i, j :: 0 <= i < j < |entries| ==> entries[i].id != entries[j].id
  }

  /** A relevance mapping, in iteration order. */
  type Grades = entries: seq<Entry> | UniqueIds(entries) witness []

  /** log2(rank + 1) for ranks from 1: positive and strictly increasing is all that is used. */
  ghost predicate LogDiscount(log: nat -> real) {
    && (forall r: nat :: r >= 1 ==> log(r) > 0.0)
    && (forall r: nat, s: nat :: 1 <= r < s ==> log(r) < log(s))
  }

  predicate InRange(grade: int) {
    0 <= grade <= 3
  }

  function Gain(grade: int): real {
    if grade <= 0 then 0.0 else if grade == 1 then 1.0 else if grade == 2 then 3.0 else 7.0
  }

  /** The discounted gains of grades at ranks rank, rank + 1, ... */
  function DcgFrom(grades: seq<int>, rank: nat, log: nat -> real): real
    requires forall r: nat :: r >= rank ==> log(r) != 0.0
  {
    if grades == [] then 0.0 else Gain(grades[0]) / log(rank) + DcgFrom(grades[1..], rank + 1, log)
  }

  function Dcg(grades: seq<int>, log: nat -> real): Result<real>
    requires LogDiscount(log)
  {
    if exists i :: 0 <= i < |grades| && !InRange(grades[i]) then ValueError
    else Ok(DcgFrom(grades, 1, log))
  }

  function Ratio(numerator: real, denominator: real): Result<real> {
    if denominator < 0.0 then ValueError
    else Ok(if denominator != 0.0 then numerator / denominator else 0.0)
  }

  /** The mapping's `get(id, 0)`. */
  function Lookup(entries: seq<Entry>, id: string): int {
    if entries == [] then 0
    else if entries[0].id == id then entries[0].grade
    else Lookup(entries[1..], id)
  }

  /** The Python slice s[:k] for k >= 0. */
  function Take<T>(s: seq<T>, k: nat): seq<T> {
    if k < |s| then s[..k] else s
  }

  function GradesOf(entries: seq<Entry>, ids: seq<string>): seq<int> {
    seq(|ids|, i requires 0 <= i < |ids| => Lookup(entries, ids[i]))
  }

  function Values(entries: seq<Entry>): seq<int> {
    seq(|entries|, i requires 0 <= i < |entries| => entries[i].grade)
  }

  predicate Descending(a: int, b: int) {
    a >= b
  }

  function Ideal(entries: Grades, k: nat): seq<int> {
    Take(Sorted(Values(entries), Descending), k)
  }

  function NdcgAtK(ranked: seq<string>, entries: Grades, k: int, log: nat -> real): Result<real>
    requires LogDiscount(log)
  {
    if k < 0 || exists i :: 0 <= i < |entries| && !InRange(entries[i].grade) then ValueError
    else
      var observed := Dcg(GradesOf(entries, Take(ranked, k)), log);
      var ideal := Dcg(Ideal(entries, k), log);
      if observed.ValueError? || ideal.ValueError? then ValueError
      else Ratio(observed.value, ideal.value)
  }

  // ----- Counting by threshold -----

  function AtLeast(t: int): int -> bool {
    g => g >= t
  }

  /** Total gain is a weighted sum of how many grades reach 1, 2 and 3. */
  function GainTotal(grades: seq<int>): real {
    Count(grades, AtLeast(1)) as real + 2.0 * Count(grades, AtLeast(2)) as real + 4.0 * Count(grades, AtLeast(3)) as real
  }

  lemma {:induction false} CountBounded<T>(s: seq<T>, p: T -> bool)
    ensures Count(s, p) <= |s|
  {
    if s != [] { CountBounded(s[1..], p); }
  }

  /** Granting one id a new verdict raises the count over distinct ids by at most one. */
  lemma {:induction false} OneMore(ids: seq<string>, p: string -> bool, q: string -> bool, x: string)
    requires NoDuplicates(ids) && forall y :: y != x ==> (p(y) <==> q(y))
    ensures Count(ids, p) <= Count(ids, q) + if p(x) then 1 else 0
  {
    if ids != [] {
      if ids[0] == x {
        assert x !in ids[1..];
        CountSame(ids[1..], p, q);
      } else {
        OneMore(ids[1..], p, q, x);
      }
    }
  }

  lemma {:induction false} CountSame(ids: seq<string>, p: string -> bool, q: string -> bool)
    requires forall y :: y in ids ==> (p(y) <==> q(y))
    ensures Count(ids, p) == Count(ids, q)
  {
    if ids != [] { CountSame(ids[1..], p, q); }
  }

  /** Distinct ids cannot reach a threshold more often than the mapping's entries do. */
  lemma {:induction false} DistinctIdsBounded(entries: seq<Entry>, ids: seq<string>, t: int)
    requires NoDuplicates(ids) && t >= 1
    ensures Count(ids, id => Lookup(entries, id) >= t) <= Count(entries, (e: Entry) => e.grade >= t)
  {
    if entries == [] {
      CountNone(ids, id => Lookup(entries, id) >= t);
    } else {
      DistinctIdsBounded(entries[1..], ids, t);
      OneMore(ids, id => Lookup(entries, id) >= t, id => Lookup(entries[1..], id) >= t, entries[0].id);
    }
  }

  /** In a descending list, the first i entries hold as many grades >= t as any i entries could. */
  lemma {:induction false} DescendingCount(s: seq<int>, i: nat, t: int)
    requires Ordered(s, Descending) && i <= |s|
    ensures Count(s[..i], AtLeast(t)) == if Count(s, AtLeast(t)) < i then Count(s, AtLeast(t)) else i
  {
    CountConcat(s[..i], s[i..], AtLeast(t));
    assert s == s[..i] + s[i..];
    CountBounded(s[..i], AtLeast(t));
    if (i < |s| && s[i] >= t) || (i == |s| && i > 0 && s[i - 1] >= t) {
      CountInterval(s[..i], AtLeast(t), 0, i);
    } else {
      CountNone(s[i..], AtLeast(t));
    }
  }

  /** Only ids of grade 0 repeat. */
  predicate PositiveDistinct(entries: seq<Entry>, ids: seq<string>) {
    forall i, j :: 0 <= i < j < |ids| && ids[i] == ids[j] ==> Lookup(entries, ids[i]) <= 0
  }

  /** The first i grades of any ranking that repeats no id of positive grade gain at most what the i best grades gain. */
  lemma PrefixDominated(entries: Grades, ids: seq<string>)
    requires PositiveDistinct(entries, ids)
    ensures var best := Sorted(Values(entries), Descending);
      GainTotal(GradesOf(entries, ids)) <= GainTotal(Take(best, |ids|))
  {
    ThresholdDominated(entries, ids, 1);
    ThresholdDominated(entries, ids, 2);
    ThresholdDominated(entries, ids, 3);
  }

  lemma {:induction false} FilterDistinct(ids: seq<string>, p: string -> bool)
    requires forall i, j :: 0 <= i < j < |ids| && ids[i] == ids[j] ==> !p(ids[i])
    ensures NoDuplicates(Filter(ids, p)) && Count(Filter(ids, p), p) == Count(ids, p)
  {
    if ids != [] {
      assert forall i :: 0 <= i < |ids| - 1 ==> ids[1..][i] == ids[i + 1];
      FilterDistinct(ids[1..], p);
      FilterMembers(ids[1..], p);
      assert p(ids[0]) ==> ids[0] !in ids[1..];
      assert Filter(ids, p) == if p(ids[0]) then [ids[0]] + Filter(ids[1..], p) else Filter(ids[1..], p);
      if p(ids[0]) { assert Filter(ids, p)[0] == ids[0] && Filter(ids, p)[1..] == Filter(ids[1..], p); }
    }
  }

  lemma ThresholdDominated(entries: Grades, ids: seq<string>, t: int)
    requires PositiveDistinct(entries, ids) && t >= 1
    ensures Count(GradesOf(entries, ids), AtLeast(t)) <= Count(Take(Sorted(Values(entries), Descending), |ids|), AtLeast(t))
  {
    var values, best := Values(entries), Sorted(Values(entries), Descending);
    SortedSpec(values, Descending);
    CountReindex(ids, GradesOf(entries, ids), id => Lookup(entries, id) >= t, AtLeast(t));
    FilterDistinct(ids, id => Lookup(entries, id) >= t);
    DistinctIdsBounded(entries, Filter(ids, id => Lookup(entries, id) >= t), t);
    CountReindex(entries, values, (e: Entry) => e.grade >= t, AtLeast(t));
    CountPermuted(values, best, AtLeast(t));
    CountBounded(GradesOf(entries, ids), AtLeast(t));
    if |ids| <= |best| { DescendingCount(best, |ids|, t); }
    assert best[..|best|] == best;
  }

  // ----- Discounting -----

  function Padded(grades: seq<int>, n: nat): seq<int>
    requires |grades| <= n
  {
    grades + seq(n - |grades|, _ => 0)
  }

  lemma {:induction false} PaddedDcg(grades: seq<int>, n: nat, rank: nat, log: nat -> real)
    requires |grades| <= n && forall r: nat :: r >= rank ==> log(r) > 0.0
    ensures DcgFrom(Padded(grades, n), rank, log) == DcgFrom(grades, rank, log)
    decreases n
  {
    var p := Padded(grades, n);
    if n > 0 {
      if grades == [] {
        assert p[1..] == Padded([], n - 1);
        PaddedDcg([], n - 1, rank + 1, log);
        assert Gain(p[0]) / log(rank) == 0.0;
      } else {
        assert p[1..] == Padded(grades[1..], n - 1);
        PaddedDcg(grades[1..], n - 1, rank + 1, log);
      }
    }
  }

  lemma PaddedGain(grades: seq<int>, n: nat)
    requires |grades| <= n
    ensures GainTotal(Padded(grades, n)) == GainTotal(grades)
  {
    var zeros := seq(n - |grades|, _ => 0);
    forall t | t in {1, 2, 3} ensures Count(Padded(grades, n), AtLeast(t)) == Count(grades, AtLeast(t)) {
      CountConcat(grades, zeros, AtLeast(t));
      CountNone(zeros, AtLeast(t));
    }
  }

  /** Rearrangement: if every prefix of b, with a head start of carry, gains at least as much as that
      prefix of a, then the decreasing discount keeps b ahead. */
  lemma {:induction false} DiscountedDominance(a: seq<int>, b: seq<int>, carry: real, rank: nat, log: nat -> real)
    requires LogDiscount(log) && rank >= 1 && |a| == |b|
    requires forall i :: 0 <= i <= |a| ==> GainTotal(a[..i]) <= carry + GainTotal(b[..i])
    ensures DcgFrom(a, rank, log) <= carry / log(rank) + DcgFrom(b, rank, log)
  {
    assert GainTotal(a[..0]) == 0.0 == GainTotal(b[..0]);
    if a == [] {
      QuotientSign(carry, log(rank));
    } else {
      var carry' := carry + Gain(b[0]) - Gain(a[0]);
      forall i | 0 <= i <= |a| - 1 ensures GainTotal(a[1..][..i]) <= carry' + GainTotal(b[1..][..i]) {
        assert a[..i + 1][1..] == a[1..][..i] && b[..i + 1][1..] == b[1..][..i];
      }
      DiscountedDominance(a[1..], b[1..], carry', rank + 1, log);
      assert GainTotal(a[1..][..0]) == 0.0 == GainTotal(b[1..][..0]);
      LargerDivisor(carry', log(rank), log(rank + 1));
      SplitQuotient(carry, Gain(b[0]), Gain(a[0]), log(rank));
    }
  }

  lemma LargerDivisor(c: real, x: real, y: real)
    requires c >= 0.0 && 0.0 < x <= y
    ensures c / y <= c / x
  {
    QuotientSign(c, x);
    ScaleMonotone(c / x, x, y);
    QuotientMonotone(c, y, (c / x) * y);
    QuotientUnique((c / x) * y, y, c / x);
  }

  lemma SplitQuotient(c: real, b: real, a: real, x: real)
    requires x > 0.0
    ensures (c + b - a) / x == c / x + b / x - a / x
  {
  }

  lemma {:induction false} DcgNonnegative(grades: seq<int>, rank: nat, log: nat -> real)
    requires forall r: nat :: r >= rank ==> log(r) > 0.0
    ensures DcgFrom(grades, rank, log) >= 0.0
  {
    if grades != [] {
      QuotientSign(Gain(grades[0]), log(rank));
      DcgNonnegative(grades[1..], rank + 1, log);
    }
  }

  lemma LookupInRange(entries: seq<Entry>, id: string)
    requires forall i :: 0 <= i < |entries| ==> InRange(entries[i].grade)
    ensures InRange(Lookup(entries, id))
  {
  }

  lemma SortedInRange(entries: Grades)
    requires forall i :: 0 <= i < |entries| ==> InRange(entries[i].grade)
    ensures forall i :: 0 <= i < |Sorted(Values(entries), Descending)| ==> InRange(Sorted(Values(entries), Descending)[i])
  {
    SortedSpec(Values(entries), Descending);
    SameElements(Values(entries), Sorted(Values(entries), Descending));
    forall i | 0 <= i < |Sorted(Values(entries), Descending)|
      ensures InRange(Sorted(Values(entries), Descending)[i])
    {
      assert Sorted(Values(entries), Descending)[i] in Values(entries);
    }
  }

  /** Every prefix of the observed grades gains at most what that prefix of the ideal grades gains. */
  ghost predicate PrefixesDominated(ranked: seq<string>, entries: Grades, k: nat) {
    forall i: nat :: i <= k ==> GainTotal(Take(GradesOf(entries, Take(ranked, k)), i)) <= GainTotal(Take(Ideal(entries, k), i))
  }

  /** So it is when the first k ids repeat none of positive grade. */
  lemma DistinctDominated(ranked: seq<string>, entries: Grades, k: nat)
    requires PositiveDistinct(entries, Take(ranked, k))
    ensures PrefixesDominated(ranked, entries, k)
  {
    var observed, ideal := GradesOf(entries, Take(ranked, k)), Ideal(entries, k);
    var best := Sorted(Values(entries), Descending);
    forall i: nat | i <= k ensures GainTotal(Take(observed, i)) <= GainTotal(Take(ideal, i)) {
      var ids := Take(Take(ranked, k), i);
      assert forall j :: 0 <= j < |ids| ==> ids[j] == Take(ranked, k)[j];
      PrefixDominated(entries, ids);
      assert Take(observed, i) == GradesOf(entries, ids);
      TakeGain(best, |ids|, i);
      assert Take(ideal, i) == Take(best, i);
    }
  }

  /** A ranking with dominated prefixes never beats the ideal ordering at the cutoff. */
  lemma ObservedAtMostIdeal(ranked: seq<string>, entries: Grades, k: nat, log: nat -> real)
    requires LogDiscount(log) && PrefixesDominated(ranked, entries, k)
    ensures DcgFrom(GradesOf(entries, Take(ranked, k)), 1, log) <= DcgFrom(Ideal(entries, k), 1, log)
  {
    var observed, ideal := GradesOf(entries, Take(ranked, k)), Ideal(entries, k);
    var a, b := Padded(observed, k), Padded(ideal, k);
    PaddedDcg(observed, k, 1, log);
    PaddedDcg(ideal, k, 1, log);
    forall i | 0 <= i <= k ensures GainTotal(a[..i]) <= GainTotal(b[..i]) {
      PrefixOfPadded(observed, k, i);
      PrefixOfPadded(ideal, k, i);
    }
    DiscountedDominance(a, b, 0.0, 1, log);
    assert 0.0 / log(1) == 0.0;
  }

  lemma PrefixOfPadded(grades: seq<int>, n: nat, i: nat)
    requires |grades| <= n && i <= n
    ensures GainTotal(Padded(grades, n)[..i]) == GainTotal(Take(grades, i))
  {
    if i <= |grades| {
      assert Padded(grades, n)[..i] == Take(grades, i);
    } else {
      assert Padded(grades, n)[..i] == Padded(grades, i);
      PaddedGain(grades, i);
    }
  }

  lemma TakeGain(grades: seq<int>, i: nat, j: nat)
    requires i <= j
    ensures GainTotal(Take(grades, i)) <= GainTotal(Take(grades, j))
  {
    var rest := Take(grades, j)[|Take(grades, i)|..];
    assert Take(grades, j) == Take(grades, i) + rest;
    CountConcat(Take(grades, i), rest, AtLeast(1));
    CountConcat(Take(grades, i), rest, AtLeast(2));
    CountConcat(Take(grades, i), rest, AtLeast(3));
  }

  /** The score exists exactly for k >= 0 and grades 0..3. */
  lemma ScoreExists(ranked: seq<string>, entries: Grades, k: int, log: nat -> real)
    requires LogDiscount(log)
    ensures NdcgAtK(ranked, entries, k, log).Ok? <==>
      k >= 0 && forall i :: 0 <= i < |entries| ==> InRange(entries[i].grade)
    ensures NdcgAtK(ranked, entries, k, log).Ok? ==>
      var o, d := DcgFrom(GradesOf(entries, Take(ranked, k)), 1, log), DcgFrom(Ideal(entries, k), 1, log);
      o >= 0.0 && d >= 0.0 && NdcgAtK(ranked, entries, k, log).value == if d > 0.0 then o / d else 0.0
  {
    if k >= 0 && forall i :: 0 <= i < |entries| ==> InRange(entries[i].grade) {
      forall id ensures InRange(Lookup(entries, id)) { LookupInRange(entries, id); }
      SortedInRange(entries);
      DcgNonnegative(GradesOf(entries, Take(ranked, k)), 1, log);
      DcgNonnegative(Ideal(entries, k), 1, log);
    }
  }

  /** A ranking with dominated prefixes always scores between 0 and 1. */
  lemma DominatedUnitInterval(ranked: seq<string>, entries: Grades, k: nat, log: nat -> real)
    requires LogDiscount(log) && PrefixesDominated(ranked, entries, k) && NdcgAtK(ranked, entries, k, log).Ok?
    ensures 0.0 <= NdcgAtK(ranked, entries, k, log).value <= 1.0
  {
    ScoreExists(ranked, entries, k, log);
    ObservedAtMostIdeal(ranked, entries, k, log);
    var o, d := DcgFrom(GradesOf(entries, Take(ranked, k)), 1, log), DcgFrom(Ideal(entries, k), 1, log);
    if d > 0.0 { QuotientSign(o, d); QuotientBound(o, d); }
  }

  /** For grades 0..3, a ranking whose first k ids repeat none of positive grade always scores between 0 and 1. */
  lemma UnitInterval(ranked: seq<string>, entries: Grades, k: int, log: nat -> real)
    requires LogDiscount(log) && (k >= 0 ==> PositiveDistinct(entries, Take(ranked, k)))
    ensures NdcgAtK(ranked, entries, k, log).Ok? <==>
      k >= 0 && forall i :: 0 <= i < |entries| ==> InRange(entries[i].grade)
    ensures NdcgAtK(ranked, entries, k, log).Ok? ==> 0.0 <= NdcgAtK(ranked, entries, k, log).value <= 1.0
  {
    ScoreExists(ranked, entries, k, log);
    if NdcgAtK(ranked, entries, k, log).Ok? {
      DistinctDominated(ranked, entries, k);
      DominatedUnitInterval(ranked, entries, k, log);
    }
  }

  // ----- When the score is at most 1 under every discount -----

  lemma {:induction false} DcgSplit(grades: seq<int>, m: nat, rank: nat, log: nat -> real)
    requires m <= |grades| && forall r: nat :: r >= rank ==> log(r) > 0.0
    ensures DcgFrom(grades, rank, log) == DcgFrom(grades[..m], rank, log) + DcgFrom(grades[m..], rank + m, log)
    decreases m
  {
    if m == 0 {
      assert grades[0..] == grades;
    } else {
      DcgSplit(grades[1..], m - 1, rank + 1, log);
      assert grades[..m][1..] == grades[1..][..m - 1] && grades[m..] == grades[1..][m - 1..];
    }
  }

  /** Discounts of at most `bound` leave at least the bound's share of the gain, discounts of at least it at most that. */
  lemma {:induction false} DcgBounds(grades: seq<int>, rank: nat, bound: real, log: nat -> real)
    requires bound > 0.0 && forall r: nat :: r >= rank ==> log(r) > 0.0
    ensures (forall r: nat :: rank <= r < rank + |grades| ==> log(r) <= bound) ==>
      DcgFrom(grades, rank, log) >= GainTotal(grades) / bound
    ensures (forall r: nat :: rank <= r < rank + |grades| ==> log(r) >= bound) ==>
      DcgFrom(grades, rank, log) <= GainTotal(grades) / bound
  {
    if grades == [] {
      QuotientUnique(0.0, bound, 0.0);
    } else {
      var gain, rest := Gain(grades[0]), GainTotal(grades[1..]);
      DcgBounds(grades[1..], rank + 1, bound, log);
      SumOfQuotients(gain, rest, bound);
      if log(rank) <= bound { LargerDivisor(gain, log(rank), bound); }
      if log(rank) >= bound { LargerDivisor(gain, bound, log(rank)); }
    }
  }

  lemma SumOfQuotients(a: real, b: real, c: real)
    requires c > 0.0
    ensures (a + b) / c == a / c + b / c
  {
  }

  lemma GainNonnegative(grades: seq<int>)
    ensures GainTotal(grades) >= 0.0
  {
  }

  /** A discount that hardly grows up to rank m and then jumps. */
  function Steep(m: nat, slope: real, jump: real): nat -> real {
    (r: nat) => if r <= m then 1.0 + Product(slope, r as real) else jump + r as real
  }

  lemma SteepIncreases(m: nat, slope: real, jump: real, r: nat, t: nat)
    requires slope > 0.0 && jump >= 1.0 + Product(slope, m as real) && r < t
    ensures Steep(m, slope, jump)(r) < Steep(m, slope, jump)(t)
  {
    var x, y := r as real, t as real;
    ProductMonotone(slope, x, y);
    ProductMonotone(slope, x, m as real);
  }

  lemma SteepDiscount(m: nat, slope: real, jump: real)
    requires slope > 0.0 && jump >= 1.0 + Product(slope, m as real)
    ensures LogDiscount(Steep(m, slope, jump))
  {
    var log := Steep(m, slope, jump);
    forall r: nat, t: nat | 1 <= r < t ensures log(r) < log(t) { SteepIncreases(m, slope, jump, r, t); }
    forall r: nat | r >= 1 ensures log(r) > 0.0 {
      ProductMonotone(slope, 0.0, r as real);
    }
  }

  /** The numbers behind the steep discount: divisors top and far for which a / top exceeds b + c / far. */
  lemma Separation(a: real, b: real, c: real) returns (top: real, far: real)
    requires a > b >= 0.0 && c >= 0.0
    ensures top > 1.0 && far > top && a / top > b + c / far
  {
    top := 2.0 * a / (a + b);
    far := top + 1.0 + 2.0 * c / (a - b);
    QuotientStrict(a + b, a + b, 2.0 * a);
    QuotientUnique(a + b, a + b, 1.0);
    QuotientUnique(a, top, (a + b) / 2.0) by {
      assert top * (a + b) == 2.0 * a;
    }
    QuotientSign(2.0 * c, a - b);
    FarShare(a, b, c, far);
  }

  lemma FarShare(a: real, b: real, c: real, far: real)
    requires a > b && c >= 0.0 && far > 2.0 * c / (a - b) >= 0.0
    ensures c / far < (a - b) / 2.0
  {
    var half := (a - b) / 2.0;
    QuotientSign(2.0 * c, a - b);
    PositiveProduct(far - 2.0 * c / (a - b), a - b);
    assert far * half > c;
    QuotientStrict(c, far, far * half);
    QuotientUnique(far * half, far, half);
  }

  /** If some prefix of a gains more than that prefix of b, a steep enough discount puts a ahead. */
  lemma SteepBeats(a: seq<int>, b: seq<int>, m: nat) returns (log: nat -> real)
    requires |a| == |b| && m <= |a| && GainTotal(a[..m]) > GainTotal(b[..m])
    ensures LogDiscount(log) && DcgFrom(a, 1, log) > DcgFrom(b, 1, log)
  {
    assert a[..0] == b[..0];
    assert m > 0;
    GainNonnegative(b[..m]);
    GainNonnegative(b[m..]);
    var top, far := Separation(GainTotal(a[..m]), GainTotal(b[..m]), GainTotal(b[m..]));
    var slope := SlopeFor(m, top);
    log := Steep(m, slope, far);
    SteepDiscount(m, slope, far);
    SteepSides(m, slope, far, top);
    SteepFloor(a, m, top, log);
    SteepCeiling(b, m, far, log);
  }

  lemma SlopeFor(m: nat, top: real) returns (slope: real)
    requires m > 0 && top > 1.0
    ensures slope > 0.0 && Product(slope, m as real) == top - 1.0
  {
    slope := (top - 1.0) / m as real;
    QuotientSign(top - 1.0, m as real);
  }

  lemma {:induction false} DcgAtMostGain(grades: seq<int>, rank: nat, log: nat -> real)
    requires forall r: nat :: r >= rank ==> log(r) > 0.0
    requires forall r: nat :: rank <= r < rank + |grades| ==> log(r) >= 1.0
    ensures DcgFrom(grades, rank, log) <= GainTotal(grades)
  {
    if grades != [] {
      DcgAtMostGain(grades[1..], rank + 1, log);
      LargerDivisor(Gain(grades[0]), 1.0, log(rank));
      QuotientUnique(Gain(grades[0]), 1.0, Gain(grades[0]));
    }
  }

  lemma SteepFloor(grades: seq<int>, m: nat, top: real, log: nat -> real)
    requires LogDiscount(log) && m <= |grades| && top > 0.0 && forall r: nat :: 1 <= r <= m ==> log(r) <= top
    ensures DcgFrom(grades, 1, log) >= GainTotal(grades[..m]) / top
  {
    DcgSplit(grades, m, 1, log);
    DcgBounds(grades[..m], 1, top, log);
    DcgNonnegative(grades[m..], m + 1, log);
  }

  lemma SteepCeiling(grades: seq<int>, m: nat, far: real, log: nat -> real)
    requires LogDiscount(log) && m <= |grades| && far > 0.0
    requires (forall r: nat :: 1 <= r <= m ==> log(r) >= 1.0) && forall r: nat :: r > m ==> log(r) >= far
    ensures DcgFrom(grades, 1, log) <= GainTotal(grades[..m]) + GainTotal(grades[m..]) / far
  {
    DcgSplit(grades, m, 1, log);
    DcgAtMostGain(grades[..m], 1, log);
    DcgBounds(grades[m..], m + 1, far, log);
  }

  lemma SteepSides(m: nat, slope: real, jump: real, top: real)
    requires slope > 0.0 && Product(slope, m as real) == top - 1.0
    ensures forall r: nat :: 1 <= r <= m ==> 1.0 <= Steep(m, slope, jump)(r) <= top
    ensures forall r: nat :: r > m ==> Steep(m, slope, jump)(r) >= jump
  {
    forall r: nat | 1 <= r <= m ensures 1.0 <= Steep(m, slope, jump)(r) <= top {
      ProductMonotone(slope, 0.0, r as real);
      ProductMonotone(slope, r as real, m as real);
    }
  }

  /** A ranking with an undominated prefix scores above 1 under some discount. */
  lemma UndominatedExceedsOne(ranked: seq<string>, entries: Grades, k: nat) returns (log: nat -> real)
    requires (forall i :: 0 <= i < |entries| ==> InRange(entries[i].grade)) && !PrefixesDominated(ranked, entries, k)
    ensures LogDiscount(log) && NdcgAtK(ranked, entries, k, log).Ok? && NdcgAtK(ranked, entries, k, log).value > 1.0
  {
    var observed, ideal := GradesOf(entries, Take(ranked, k)), Ideal(entries, k);
    var i: nat :| i <= k && GainTotal(Take(observed, i)) > GainTotal(Take(ideal, i));
    PrefixOfPadded(observed, k, i);
    PrefixOfPadded(ideal, k, i);
    log := SteepBeats(Padded(observed, k), Padded(ideal, k), i);
    PaddedDcg(observed, k, 1, log);
    PaddedDcg(ideal, k, 1, log);
    ScoreExists(ranked, entries, k, log);
    var o, d := DcgFrom(observed, 1, log), DcgFrom(ideal, 1, log);
    IdealPositive(ranked, entries, k, i, log);
    QuotientStrict(d, d, o);
    QuotientUnique(d, d, 1.0);
  }

  /** Some observed gain means some ideal gain. */
  lemma IdealPositive(ranked: seq<string>, entries: Grades, k: nat, i: nat, log: nat -> real)
    requires LogDiscount(log) && i <= k && GainTotal(Take(GradesOf(entries, Take(ranked, k)), i)) > 0.0
    ensures DcgFrom(Ideal(entries, k), 1, log) > 0.0
  {
    var observed, best := GradesOf(entries, Take(ranked, k)), Sorted(Values(entries), Descending);
    var prefix := Take(observed, i);
    if forall j :: 0 <= j < |prefix| ==> prefix[j] < 1 { NoGain(prefix); }
    var j :| 0 <= j < |prefix| && prefix[j] >= 1;
    LookupAmong(entries, Take(ranked, k)[j]);
    SortedSpec(Values(entries), Descending);
    SameElements(Values(entries), best);
    assert prefix[j] in Values(entries);
    var l :| 0 <= l < |best| && best[l] == prefix[j];
    assert l > 0 ==> Descending(best[0], best[l]);
    var ideal := Ideal(entries, k);
    assert ideal[0] == best[0];
    QuotientSign(Gain(ideal[0]), log(1));
    DcgNonnegative(ideal[1..], 2, log);
  }

  lemma {:induction false} NoGain(grades: seq<int>)
    requires forall j :: 0 <= j < |grades| ==> grades[j] < 1
    ensures GainTotal(grades) == 0.0
  {
    if grades != [] { NoGain(grades[1..]); }
  }

  lemma {:induction false} LookupAmong(entries: seq<Entry>, id: string)
    requires Lookup(entries, id) != 0
    ensures Lookup(entries, id) in Values(entries)
  {
    if entries[0].id == id {
      assert Values(entries)[0] == Lookup(entries, id);
    } else {
      LookupAmong(entries[1..], id);
      assert Values(entries)[1..] == Values(entries[1..]);
    }
  }

  /** The score is at most 1 under every admissible discount exactly when all prefixes are dominated. */
  lemma UnitIntervalExactly(ranked: seq<string>, entries: Grades, k: nat)
    requires forall i :: 0 <= i < |entries| ==> InRange(entries[i].grade)
    ensures PrefixesDominated(ranked, entries, k) <==>
      forall log: nat -> real :: LogDiscount(log) ==>
        NdcgAtK(ranked, entries, k, log).Ok? && NdcgAtK(ranked, entries, k, log).value <= 1.0
  {
    if PrefixesDominated(ranked, entries, k) {
      forall log: nat -> real | LogDiscount(log)
        ensures NdcgAtK(ranked, entries, k, log).Ok? && NdcgAtK(ranked, entries, k, log).value <= 1.0
      {
        ScoreExists(ranked, entries, k, log);
        DominatedUnitInterval(ranked, entries, k, log);
      }
    } else {
      var log := UndominatedExceedsOne(ranked, entries, k);
    }
  }

  function Ids(entries: seq<Entry>): seq<string> {
    seq(|entries|, i requires 0 <= i < |entries| => entries[i].id)
  }

  lemma {:induction false} LookupFinds(entries: Grades, i: nat)
    requires i < |entries|
    ensures Lookup(entries, entries[i].id) == entries[i].grade
  {
    if i > 0 {
      var rest: seq<Entry> := entries[1..];
      assert UniqueIds(rest);
      assert entries[0].id != entries[i].id;
      LookupFinds(rest, i - 1);
    }
  }

  lemma RankingIsSorted(ranked: seq<string>, entries: Grades)
    requires NoDuplicates(ranked) && forall id :: id in ranked <==> id in Ids(entries)
    requires Ordered(GradesOf(entries, ranked), Descending)
    ensures GradesOf(entries, ranked) == Sorted(Values(entries), Descending)
  {
    SameSetPermuted(ranked, Ids(entries));
    forall i | 0 <= i < |entries| ensures Values(entries)[i] == Lookup(entries, Ids(entries)[i]) { LookupFinds(entries, i); }
    ImagePermuted(ranked, Ids(entries), id => Lookup(entries, id), GradesOf(entries, ranked), Values(entries));
    SortedSpec(Values(entries), Descending);
    OrderedUnique(GradesOf(entries, ranked), Sorted(Values(entries), Descending), Descending);
  }

  /** Ranking all graded ids by descending grade is ideal: the score is 1 wherever the ideal gain is positive. */
  lemma IdealRankingScoresOne(ranked: seq<string>, entries: Grades, k: nat, log: nat -> real)
    requires LogDiscount(log) && forall i :: 0 <= i < |entries| ==> InRange(entries[i].grade)
    requires NoDuplicates(ranked) && forall id :: id in ranked <==> id in Ids(entries)
    requires Ordered(GradesOf(entries, ranked), Descending)
    ensures NdcgAtK(ranked, entries, k, log) == Ok(if DcgFrom(Ideal(entries, k), 1, log) > 0.0 then 1.0 else 0.0)
  {
    RankingIsSorted(ranked, entries);
    assert GradesOf(entries, Take(ranked, k)) == Ideal(entries, k);
    SortedInRange(entries);
    var d := DcgFrom(Ideal(entries, k), 1, log);
    DcgNonnegative(Ideal(entries, k), 1, log);
    if d > 0.0 { QuotientUnique(d, d, 1.0); }
  }

  /** The distinctness is needed: repeating the best id scores above 1. */
  lemma RepetitionExceedsOne(log: nat -> real)
    requires LogDiscount(log)
    ensures var r := NdcgAtK(["a", "a"], [Entry("a", 3)], 2, log); r.Ok? && r.value > 1.0
  {
    var entries: Grades := [Entry("a", 3)];
    var grades := GradesOf(entries, Take(["a", "a"], 2));
    assert grades == [3, 3];
    assert Ideal(entries, 2) == [3];
    var x, y := 7.0 / log(1), 7.0 / log(2);
    QuotientSign(7.0, log(1));
    QuotientSign(7.0, log(2));
    assert DcgFrom([3], 1, log) == x;
    assert DcgFrom([3, 3][1..], 2, log) == y;
    QuotientStrict(x, x, x + y);
  }

  // ----- The score from gains, ranks and grades alone -----

  function PowerOfTwo(n: int): real {
    if n <= 0 then 1.0 else 2.0 * PowerOfTwo(n - 1)
  }

  /** The discounted gain at the 0-based position i. */
  function TermAt(grades: seq<int>, log: nat -> real): nat -> real
    requires LogDiscount(log)
  {
    (i: nat) => if i < |grades| then (PowerOfTwo(grades[i]) - 1.0) / log(i + 1) else 0.0
  }

  lemma {:induction false} DcgIsSum(grades: seq<int>, rank: nat, positions: seq<nat>, term: nat -> real, log: nat -> real)
    requires LogDiscount(log) && rank >= 1 && |positions| == |grades| && forall i :: 0 <= i < |grades| ==> InRange(grades[i])
    requires forall i :: 0 <= i < |grades| ==> term(positions[i]) == (PowerOfTwo(grades[i]) - 1.0) / log(rank + i)
    ensures DcgFrom(grades, rank, log) == SumBy(positions, term)
  {
    if grades != [] {
      assert Gain(grades[0]) == PowerOfTwo(grades[0]) - 1.0 by {
        assert PowerOfTwo(0) == 1.0 && PowerOfTwo(1) == 2.0 && PowerOfTwo(2) == 4.0 && PowerOfTwo(3) == 8.0;
      }
      assert forall i :: 0 <= i < |grades| - 1 ==> grades[1..][i] == grades[i + 1] && positions[1..][i] == positions[i + 1];
      DcgIsSum(grades[1..], rank + 1, positions[1..], term, log);
    }
  }

  /** The grade an id has: that of the entry with this id, or 0 if there is none. */
  predicate Graded(entries: seq<Entry>, id: string, grade: int) {
    (exists e :: e in entries && e.id == id && e.grade == grade)
    || (grade == 0 && forall e :: e in entries ==> e.id != id)
  }

  lemma {:induction false} LookupGraded(entries: Grades, id: string, grade: int)
    requires Graded(entries, id, grade)
    ensures Lookup(entries, id) == grade
  {
    if entries != [] {
      var tail: Grades := entries[1..];
      assert forall e :: e in entries <==> e == entries[0] || e in tail;
      if entries[0].id != id {
        LookupGraded(tail, id, grade);
      } else {
        forall e | e in tail ensures e.id != id {
          var j :| 0 <= j < |tail| && tail[j] == e;
          assert entries[j + 1] == e;
        }
      }
    }
  }

  lemma SortedIs(entries: Grades, best: seq<int>)
    requires multiset(best) == multiset(Values(entries)) && Ordered(best, Descending)
    ensures Sorted(Values(entries), Descending) == best
  {
    SortedSpec(Values(entries), Descending);
    OrderedUnique(Sorted(Values(entries), Descending), best, Descending);
  }

  /** For grades 0 to 3 and k >= 0: whatever the first k ids' grades are and however all grades are arranged in descending
      order, the score times the sum of (2^grade - 1) / log(rank) over the first k of that order is the same sum over the
      ids; if that ideal sum is not positive, the score is 0. Anything else is refused. */
  lemma ScoreFromGains(ranked: seq<string>, entries: Grades, k: int, log: nat -> real, grades: seq<int>, best: seq<int>)
    requires LogDiscount(log)
    requires multiset(best) == multiset(Values(entries)) && Ordered(best, Descending)
    requires |grades| == |ranked| && forall i :: 0 <= i < |ranked| ==> Graded(entries, ranked[i], grades[i])
    ensures var r := NdcgAtK(ranked, entries, k, log);
      && (r.Ok? <==> k >= 0 && forall g :: g in best ==> InRange(g))
      && (r.Ok? ==>
            var shown, top := if k < |ranked| then k else |ranked|, if k < |best| then k else |best|;
            var gained, ideal := SumBy(Indices(shown), TermAt(grades, log)), SumBy(Indices(top), TermAt(best, log));
            if ideal > 0.0 then Product(r.value, ideal) == gained else r.value == 0.0)
  {
    ScoreExists(ranked, entries, k, log);
    SameElements(best, Values(entries));
    SameGrades(entries, best);
    if NdcgAtK(ranked, entries, k, log).Ok? {
      ShownSum(ranked, entries, k, log, grades);
      TopSum(entries, k, log, best);
      RatioTimes(DcgFrom(GradesOf(entries, Take(ranked, k)), 1, log), DcgFrom(Ideal(entries, k), 1, log));
    }
  }

  lemma RatioTimes(gained: real, ideal: real)
    ensures ideal > 0.0 ==> Product(gained / ideal, ideal) == gained
  {
    if ideal > 0.0 { QuotientSign(gained, ideal); }
  }

  lemma ShownSum(ranked: seq<string>, entries: Grades, k: nat, log: nat -> real, grades: seq<int>)
    requires LogDiscount(log) && forall i :: 0 <= i < |entries| ==> InRange(entries[i].grade)
    requires |grades| == |ranked| && forall i :: 0 <= i < |ranked| ==> Graded(entries, ranked[i], grades[i])
    ensures DcgFrom(GradesOf(entries, Take(ranked, k)), 1, log)
      == SumBy(Indices(if k < |ranked| then k else |ranked|), TermAt(grades, log))
  {
    var shown := if k < |ranked| then k else |ranked|;
    forall i | 0 <= i < shown ensures Lookup(entries, ranked[i]) == grades[i] && InRange(grades[i]) {
      LookupGraded(entries, ranked[i], grades[i]);
      LookupInRange(entries, ranked[i]);
    }
    assert GradesOf(entries, Take(ranked, k)) == grades[..shown];
    DcgIsSum(grades[..shown], 1, Indices(shown), TermAt(grades, log), log);
  }

  lemma TopSum(entries: Grades, k: nat, log: nat -> real, best: seq<int>)
    requires LogDiscount(log) && forall g :: g in best ==> InRange(g)
    requires multiset(best) == multiset(Values(entries)) && Ordered(best, Descending)
    ensures DcgFrom(Ideal(entries, k), 1, log) == SumBy(Indices(if k < |best| then k else |best|), TermAt(best, log))
  {
    var top := if k < |best| then k else |best|;
    assert Ideal(entries, k) == best[..top] by { SortedIs(entries, best); }
    assert forall i :: 0 <= i < top ==> best[..top][i] in best;
    DcgIsSum(best[..top], 1, Indices(top), TermAt(best, log), log);
  }

  lemma SameGrades(entries: Grades, best: seq<int>)
    requires |best| == |entries| && forall g :: g in best <==> g in Values(entries)
    ensures (forall g :: g in best ==> InRange(g)) <==> forall i :: 0 <= i < |entries| ==> InRange(entries[i].grade)
  {
    forall i | 0 <= i < |entries| ensures entries[i].grade in best { assert Values(entries)[i] in Values(entries); }
  }
}
