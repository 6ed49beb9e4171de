/** Finite sums over sequences of reals, as the evaluators form them with `math.fsum`.
    Everything here is about exact real arithmetic. */
module Sums {
  import opened RealArithmetic

  /** The sum of f over the elements of s, in order. */
  function SumBy<T>(s: seq<T>, f: T -> real): real {
    if s == [] then 0.0 else f(s[0]) + SumBy(s[1..], f)
  }

  lemma {:induction false} SumConcat<T>(a: seq<T>, b: seq<T>, f: T -> real)
    ensures SumBy(a + b, f) == SumBy(a, f) + SumBy(b, f)
  {
    if a == [] {
      assert a + b == b;
    } else {
      assert (a + b)[1..] == a[1..] + b;
      SumConcat(a[1..], b, f);
    }
  }

  lemma {:induction false} SumRemove<T>(s: seq<T>, i: nat, f: T -> real)
    requires i < |s|
    ensures SumBy(s, f) == f(s[i]) + SumBy(s[..i] + s[i + 1..], f)
  {
    SumConcat(s[..i], s[i..], f);
    SumConcat(s[..i], s[i + 1..], f);
    assert s == s[..i] + s[i..];
    assert s[i..][1..] == s[i + 1..];
  }

  lemma RemoveMultiset<T>(s: seq<T>, i: nat)
    requires i < |s|
    ensures multiset(s) == multiset(s[..i] + s[i + 1..]) + multiset{s[i]}
  {
    assert s == s[..i] + ([s[i]] + s[i + 1..]);
    assert multiset(s) == multiset(s[..i]) + (multiset{s[i]} + multiset(s[i + 1..]));
    assert multiset(s[..i] + s[i + 1..]) == multiset(s[..i]) + multiset(s[i + 1..]);
  }

  /** A sum does not depend on the order of its terms. */
  lemma {:induction false} SumPermuted<T>(s: seq<T>, t: seq<T>, f: T -> real)
    requires multiset(s) == multiset(t)
    ensures SumBy(s, f) == SumBy(t, f)
    decreases |s|
  {
    if s == [] {
      assert |t| == |multiset(t)| == 0;
    } else {
      assert s[0] in multiset(t);
      var i :| 0 <= i < |t| && t[i] == s[0];
      SumRemove(t, i, f);
      RemoveMultiset(t, i);
      RemoveMultiset(s, 0);
      var rest := t[..i] + t[i + 1..];
      assert s[..0] + s[0 + 1..] == s[1..];
      assert multiset(s[1..]) == multiset(s) - multiset{s[0]};
      assert multiset(rest) == multiset(t) - multiset{s[0]};
      SumPermuted(s[1..], rest, f);
    }
  }

  lemma {:induction false} SumCongruent<T>(s: seq<T>, f: T -> real, g: T -> real)
    requires forall x :: x in s ==> f(x) == g(x)
    ensures SumBy(s, f) == SumBy(s, g)
  {
    if s != [] { SumCongruent(s[1..], f, g); }
  }

  lemma {:induction false} SumMonotone<T>(s: seq<T>, f: T -> real, g: T -> real)
    requires forall x :: x in s ==> f(x) <= g(x)
    ensures SumBy(s, f) <= SumBy(s, g)
  {
    if s != [] { SumMonotone(s[1..], f, g); }
  }

  lemma {:induction false} SumAdd<T>(s: seq<T>, f: T -> real, g: T -> real, h: T -> real)
    requires forall x :: x in s ==> h(x) == f(x) + g(x)
    ensures SumBy(s, h) == SumBy(s, f) + SumBy(s, g)
  {
    if s != [] { SumAdd(s[1..], f, g, h); }
  }

  lemma {:induction false} SumScale<T>(s: seq<T>, k: real, f: T -> real, h: T -> real)
    requires forall x :: x in s ==> h(x) == Product(k, f(x))
    ensures SumBy(s, h) == Product(k, SumBy(s, f))
  {
    if s != [] {
      SumScale(s[1..], k, f, h);
      ProductDistributes(f(s[0]), SumBy(s[1..], f), k);
    }
  }

  lemma {:induction false} SumConstant<T>(s: seq<T>, k: real, f: T -> real)
    requires forall x :: x in s ==> f(x) == k
    ensures SumBy(s, f) == Product(|s| as real, k)
  {
    if s != [] {
      SumConstant(s[1..], k, f);
      ProductDistributes(1.0, (|s| - 1) as real, k);
    }
  }

  lemma {:induction false} SumNonnegative<T>(s: seq<T>, f: T -> real)
    requires forall x :: x in s ==> f(x) >= 0.0
    ensures SumBy(s, f) >= 0.0
  {
    if s != [] { SumNonnegative(s[1..], f); }
  }

  /** A sum of nonnegative terms vanishes exactly when every term does. */
  lemma {:induction false} SumZero<T>(s: seq<T>, f: T -> real)
    requires forall x :: x in s ==> f(x) >= 0.0
    ensures SumBy(s, f) == 0.0 <==> forall x :: x in s ==> f(x) == 0.0
  {
    if s != [] {
      SumNonnegative(s[1..], f);
      SumZero(s[1..], f);
      assert forall x :: x in s <==> x == s[0] || x in s[1..];
    }
  }

  /** Changing the index: summing f over the images is summing the composition. */
  lemma {:induction false} SumReindex<S, T>(s: seq<S>, t: seq<T>, f: S -> real, g: T -> real)
    requires |s| == |t|
    requires forall i :: 0 <= i < |s| ==> f(s[i]) == g(t[i])
    ensures SumBy(s, f) == SumBy(t, g)
  {
    if s != [] {
      assert forall i :: 0 <= i < |s| - 1 ==> s[1..][i] == s[i + 1] && t[1..][i] == t[i + 1];
      SumReindex(s[1..], t[1..], f, g);
    }
  }

  /** The positions 0 .. n - 1. */
  function Indices(n: nat): seq<nat> {
    seq(n, i => i)
  }

  /** How many elements of s satisfy p. */
  function Count<T>(s: seq<T>, p: T -> bool): nat {
    if s == [] then 0 else (if p(s[0]) then 1 else 0) + Count(s[1..], p)
  }

  lemma {:induction false} CountIsSum<T>(s: seq<T>, p: T -> bool)
    ensures Count(s, p) as real == SumBy(s, x => if p(x) then 1.0 else 0.0)
  {
    if s != [] { CountIsSum(s[1..], p); }
  }

  /** Counts of disjoint conditions add up. */
  lemma {:induction false} CountSplit<T>(s: seq<T>, p: T -> bool, q: T -> bool, r: T -> bool)
    requires forall x :: x in s ==> (r(x) <==> p(x) || q(x)) && !(p(x) && q(x))
    ensures Count(s, r) == Count(s, p) + Count(s, q)
  {
    if s != [] { CountSplit(s[1..], p, q, r); }
  }

  lemma {:induction false} CountNone<T>(s: seq<T>, p: T -> bool)
    ensures Count(s, p) == 0 <==> forall x :: x in s ==> !p(x)
  {
    if s != [] {
      CountNone(s[1..], p);
      assert forall x :: x in s <==> x == s[0] || x in s[1..];
    }
  }

  lemma {:induction false} CountConcat<T>(a: seq<T>, b: seq<T>, p: T -> bool)
    ensures Count(a + b, p) == Count(a, p) + Count(b, p)
  {
    if a == [] {
      assert a + b == b;
    } else {
      assert (a + b)[1..] == a[1..] + b;
      CountConcat(a[1..], b, p);
    }
  }

  lemma CountPermuted<T>(s: seq<T>, t: seq<T>, p: T -> bool)
    requires multiset(s) == multiset(t)
    ensures Count(s, p) == Count(t, p)
  {
    CountIsSum(s, p);
    CountIsSum(t, p);
    SumPermuted(s, t, x => if p(x) then 1.0 else 0.0);
  }

  lemma {:induction false} CountReindex<S, T>(s: seq<S>, t: seq<T>, p: S -> bool, q: T -> bool)
    requires |s| == |t|
    requires forall i :: 0 <= i < |s| ==> p(s[i]) == q(t[i])
    ensures Count(s, p) == Count(t, q)
  {
    if s != [] {
      assert forall i :: 0 <= i < |s| - 1 ==> s[1..][i] == s[i + 1] && t[1..][i] == t[i + 1];
      CountReindex(s[1..], t[1..], p, q);
    }
  }

  lemma {:induction false} MultiplicityIsCount<T>(s: seq<T>, x: T, p: T -> bool)
    requires forall y :: y in s ==> (p(y) <==> y == x)
    ensures multiset(s)[x] == Count(s, p)
  {
    if s != [] {
      MultiplicityIsCount(s[1..], x, p);
      assert s == [s[0]] + s[1..];
      assert multiset(s) == multiset{s[0]} + multiset(s[1..]);
    }
  }

  /** Element by element images of permutations are permutations. */
  lemma ImagePermuted<S, T>(s: seq<S>, t: seq<S>, f: S -> T, s': seq<T>, t': seq<T>)
    requires multiset(s) == multiset(t) && |s'| == |s| && |t'| == |t|
    requires forall i :: 0 <= i < |s| ==> s'[i] == f(s[i])
    requires forall i :: 0 <= i < |t| ==> t'[i] == f(t[i])
    ensures multiset(s') == multiset(t')
  {
    forall y ensures multiset(s')[y] == multiset(t')[y] {
      MultiplicityIsCount(s', y, z => z == y);
      MultiplicityIsCount(t', y, z => z == y);
      CountReindex(s, s', x => f(x) == y, z => z == y);
      CountReindex(t, t', x => f(x) == y, z => z == y);
      CountPermuted(s, t, x => f(x) == y);
    }
  }

  /** When p holds exactly on the index interval [lo, hi), its count is the width. */
  lemma {:induction false} CountInterval<T>(s: seq<T>, p: T -> bool, lo: nat, hi: nat)
    requires lo <= hi <= |s|
    requires forall i :: 0 <= i < |s| ==> (p(s[i]) <==> lo <= i < hi)
    ensures Count(s, p) == hi - lo
  {
    if s != [] {
      forall i | 0 <= i < |s| - 1
        ensures p(s[1..][i]) <==> (if lo == 0 then 0 else lo - 1) <= i < (if hi == 0 then 0 else hi - 1)
      {
        assert s[1..][i] == s[i + 1];
      }
      CountInterval(s[1..], p, if lo == 0 then 0 else lo - 1, if hi == 0 then 0 else hi - 1);
      assert p(s[0]) <==> lo <= 0 < hi;
    }
  }

  /** The sum of f(x, y) over the elements y of b, for one x. */
  function RowSum<S, T>(x: S, b: seq<T>, f: (S, T) -> real): real {
    if b == [] then 0.0 else f(x, b[0]) + RowSum(x, b[1..], f)
  }

  /** The sum of f(x, y) over the elements x of a and y of b. */
  function DoubleSum<S, T>(a: seq<S>, b: seq<T>, f: (S, T) -> real): real {
    if a == [] then 0.0 else RowSum(a[0], b, f) + DoubleSum(a[1..], b, f)
  }

  lemma {:induction false} RowSumConcat<S, T>(x: S, b: seq<T>, c: seq<T>, f: (S, T) -> real)
    ensures RowSum(x, b + c, f) == RowSum(x, b, f) + RowSum(x, c, f)
  {
    if b == [] {
      assert b + c == c;
    } else {
      assert (b + c)[1..] == b[1..] + c;
      RowSumConcat(x, b[1..], c, f);
    }
  }

  lemma {:induction false} DoubleSumConcatLeft<S, T>(a: seq<S>, b: seq<S>, c: seq<T>, f: (S, T) -> real)
    ensures DoubleSum(a + b, c, f) == DoubleSum(a, c, f) + DoubleSum(b, c, f)
  {
    if a == [] {
      assert a + b == b;
    } else {
      assert (a + b)[1..] == a[1..] + b;
      DoubleSumConcatLeft(a[1..], b, c, f);
    }
  }

  lemma {:induction false} DoubleSumConcatRight<S, T>(a: seq<S>, b: seq<T>, c: seq<T>, f: (S, T) -> real)
    ensures DoubleSum(a, b + c, f) == DoubleSum(a, b, f) + DoubleSum(a, c, f)
  {
    if a != [] {
      RowSumConcat(a[0], b, c, f);
      DoubleSumConcatRight(a[1..], b, c, f);
    }
  }

  lemma {:induction false} RowSumIsSum<S, T>(x: S, b: seq<T>, f: (S, T) -> real, g: T -> real)
    requires forall y :: y in b ==> f(x, y) == g(y)
    ensures RowSum(x, b, f) == SumBy(b, g)
  {
    if b != [] { RowSumIsSum(x, b[1..], f, g); }
  }

  lemma {:induction false} DoubleSumIsSum<S, T>(a: seq<S>, b: seq<T>, f: (S, T) -> real, g: S -> real)
    requires forall x :: x in a ==> RowSum(x, b, f) == g(x)
    ensures DoubleSum(a, b, f) == SumBy(a, g)
  {
    if a != [] { DoubleSumIsSum(a[1..], b, f, g); }
  }

  /** Splitting off the first column. */
  lemma {:induction false} DoubleSumColumn<S, T>(a: seq<S>, b: seq<T>, f: (S, T) -> real, flip: (T, S) -> real)
    requires b != []
    requires forall x, y :: x in a && y in b ==> f(x, y) == flip(y, x)
    ensures DoubleSum(a, b, f) == RowSum(b[0], a, flip) + DoubleSum(a, b[1..], f)
  {
    if a != [] { DoubleSumColumn(a[1..], b, f, flip); }
  }

  /** The order of summation may be exchanged. */
  lemma {:induction false} DoubleSumExchange<S, T>(a: seq<S>, b: seq<T>, f: (S, T) -> real, flip: (T, S) -> real)
    requires forall x, y :: x in a && y in b ==> f(x, y) == flip(y, x)
    ensures DoubleSum(a, b, f) == DoubleSum(b, a, flip)
  {
    if b == [] {
      var zero := (_: S) => 0.0;
      SumConstant(a, 0.0, zero);
      DoubleSumIsSum(a, b, f, zero);
    } else {
      DoubleSumColumn(a, b, f, flip);
      DoubleSumExchange(a, b[1..], f, flip);
    }
  }

  /** Changing both indices of a double sum at once. */
  lemma {:induction false} DoubleSumReindex<S, T>(a: seq<S>, b: seq<S>, c: seq<T>, d: seq<T>,
                                                  f: (S, S) -> real, g: (T, T) -> real)
    requires |a| == |c| && |b| == |d|
    requires forall i, j :: 0 <= i < |a| && 0 <= j < |b| ==> f(a[i], b[j]) == g(c[i], d[j])
    ensures DoubleSum(a, b, f) == DoubleSum(c, d, g)
  {
    if a != [] {
      RowSumReindex(a[0], b, c[0], d, f, g);
      assert forall i :: 0 <= i < |a| - 1 ==> a[1..][i] == a[i + 1] && c[1..][i] == c[i + 1];
      DoubleSumReindex(a[1..], b, c[1..], d, f, g);
    }
  }

  lemma {:induction false} RowSumReindex<S, T>(x: S, b: seq<S>, y: T, d: seq<T>, f: (S, S) -> real, g: (T, T) -> real)
    requires |b| == |d| && forall j :: 0 <= j < |b| ==> f(x, b[j]) == g(y, d[j])
    ensures RowSum(x, b, f) == RowSum(y, d, g)
  {
    if b != [] {
      assert forall j :: 0 <= j < |b| - 1 ==> b[1..][j] == b[j + 1] && d[1..][j] == d[j + 1];
      RowSumReindex(x, b[1..], y, d[1..], f, g);
    }
  }

  lemma {:induction false} DoubleSumNonnegative<S, T>(a: seq<S>, b: seq<T>, f: (S, T) -> real)
    requires forall x, y :: x in a && y in b ==> f(x, y) >= 0.0
    ensures DoubleSum(a, b, f) >= 0.0
  {
    if a != [] {
      RowSumIsSum(a[0], b, f, y => f(a[0], y));
      SumNonnegative(b, y => f(a[0], y));
      DoubleSumNonnegative(a[1..], b, f);
    }
  }

  /** A double sum does not depend on the order of either index. */
  lemma DoubleSumPermuted<S, T>(a: seq<S>, a': seq<S>, b: seq<T>, b': seq<T>, f: (S, T) -> real)
    requires multiset(a) == multiset(a') && multiset(b) == multiset(b')
    ensures DoubleSum(a, b, f) == DoubleSum(a', b', f)
  {
    forall x ensures RowSum(x, b, f) == RowSum(x, b', f) {
      RowSumIsSum(x, b, f, y => f(x, y));
      RowSumIsSum(x, b', f, y => f(x, y));
      SumPermuted(b, b', y => f(x, y));
    }
    DoubleSumIsSum(a, b, f, x => RowSum(x, b, f));
    DoubleSumIsSum(a', b', f, x => RowSum(x, b, f));
    SumPermuted(a, a', x => RowSum(x, b, f));
  }
}
