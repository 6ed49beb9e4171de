/** Filtering, listing without repetition, and the order of strings. */
module Sequences {
  import opened Sums
  import opened Sorting

  function Filter<T>(s: seq<T>, p: T -> bool): seq<T> {
    if s == [] then [] else (if p(s[0]) then [s[0]] else []) + Filter(s[1..], p)
  }

  lemma {:induction false} FilterMembers<T>(s: seq<T>, p: T -> bool)
    ensures forall x :: x in Filter(s, p) <==> x in s && p(x)
    ensures |Filter(s, p)| == Count(s, p)
  {
    if s != [] {
      FilterMembers(s[1..], p);
      assert forall x :: x in s <==> x == s[0] || x in s[1..];
    }
  }

  lemma {:induction false} FilterConcat<T>(a: seq<T>, b: seq<T>, p: T -> bool)
    ensures Filter(a + b, p) == Filter(a, p) + Filter(b, p)
  {
    if a == [] {
      assert a + b == b;
    } else {
      var head := if p(a[0]) then [a[0]] else [];
      assert (a + b)[0] == a[0] && (a + b)[1..] == a[1..] + b;
      FilterConcat(a[1..], b, p);
      assert Filter(a + b, p) == head + (Filter(a[1..], p) + Filter(b, p));
    }
  }

  lemma FilterSnoc<T>(a: seq<T>, x: T, p: T -> bool)
    ensures Filter(a + [x], p) == if p(x) then Filter(a, p) + [x] else Filter(a, p)
  {
    FilterConcat(a, [x], p);
    assert Filter([x], p) == (if p(x) then [x] else []) + Filter([], p);
  }

  lemma {:induction false} FilterCongruent<T>(s: seq<T>, p: T -> bool, q: T -> bool)
    requires forall x :: x in s ==> (p(x) <==> q(x))
    ensures Filter(s, p) == Filter(s, q)
  {
    if s != [] { FilterCongruent(s[1..], p, q); }
  }

  lemma {:induction false} FilterMultiplicity<T>(s: seq<T>, p: T -> bool, x: T)
    ensures multiset(Filter(s, p))[x] == if p(x) then multiset(s)[x] else 0
  {
    if s != [] {
      FilterMultiplicity(s[1..], p, x);
      assert s == [s[0]] + s[1..];
      assert multiset(s) == multiset{s[0]} + multiset(s[1..]);
    }
  }

  lemma FilterPermuted<T(!new)>(s: seq<T>, t: seq<T>, p: T -> bool)
    requires multiset(s) == multiset(t)
    ensures multiset(Filter(s, p)) == multiset(Filter(t, p))
  {
    var a, b := multiset(Filter(s, p)), multiset(Filter(t, p));
    forall x ensures a[x] == b[x] {
      FilterMultiplicity(s, p, x);
      FilterMultiplicity(t, p, x);
    }
  }

  /** Each element once, in order of first appearance. */
  function Distinct<T(==)>(s: seq<T>): seq<T> {
    if s == [] then []
    else
      var before := Distinct(s[..|s| - 1]);
      if s[|s| - 1] in before then before else before + [s[|s| - 1]]
  }

  lemma {:induction false} DistinctSpec<T>(s: seq<T>)
    ensures NoDuplicates(Distinct(s))
    ensures forall x :: x in Distinct(s) <==> x in s
  {
    if s != [] {
      DistinctSpec(s[..|s| - 1]);
      assert s == s[..|s| - 1] + [s[|s| - 1]];
    }
  }

  lemma DistinctSnoc<T>(s: seq<T>, x: T)
    ensures Distinct(s + [x]) == if x in s then Distinct(s) else Distinct(s) + [x]
  {
    assert (s + [x])[..|s + [x]| - 1] == s;
    DistinctSpec(s);
  }

  lemma DistinctPermuted<T>(s: seq<T>, t: seq<T>)
    requires multiset(s) == multiset(t)
    ensures multiset(Distinct(s)) == multiset(Distinct(t))
  {
    DistinctSpec(s);
    DistinctSpec(t);
    SameElements(s, t);
    SameSetPermuted(Distinct(s), Distinct(t));
  }

  lemma NoDuplicatesPermuted<T>(s: seq<T>, t: seq<T>)
    requires multiset(s) == multiset(t) && NoDuplicates(s)
    ensures NoDuplicates(t)
  {
    NoDuplicatesMultiset(s);
    MultisetNoDuplicates(t);
  }

  function Elements<T(==)>(s: seq<T>): set<T> {
    set x | x in s
  }

  lemma {:induction false} ElementsSize<T>(s: seq<T>)
    requires NoDuplicates(s)
    ensures |Elements(s)| == |s|
  {
    if s != [] {
      ElementsSize(s[1..]);
      assert Elements(s) == Elements(s[1..]) + {s[0]};
    }
  }

  /** Every entry equals every other. */
  predicate AllEqual<T(==)>(s: seq<T>) {
    forall i, j :: 0 <= i < |s| && 0 <= j < |s| ==> s[i] == s[j]
  }

  /** The sum over distinct keys of a weight that only one key carries. */
  lemma {:induction false} IndicatorSum<T>(keys: seq<T>, k: T, one: T -> real)
    requires NoDuplicates(keys) && forall c :: c != k ==> one(c) == 0.0
    ensures SumBy(keys, one) == if k in keys then one(k) else 0.0
  {
    if keys != [] { IndicatorSum(keys[1..], k, one); }
  }

  /** Python's order on strings: lexicographic by code point. */
  predicate StringAtMost(a: string, b: string) {
    a == "" || (b != "" && (a[0] < b[0] || (a[0] == b[0] && StringAtMost(a[1..], b[1..]))))
  }

  lemma {:induction false} StringTotal(a: string, b: string)
    ensures StringAtMost(a, b) || StringAtMost(b, a)
    ensures StringAtMost(a, b) && StringAtMost(b, a) ==> a == b
  {
    if a != "" && b != "" {
      StringTotal(a[1..], b[1..]);
      assert a == [a[0]] + a[1..] && b == [b[0]] + b[1..];
    }
  }

  lemma {:induction false} StringTransitive(a: string, b: string, c: string)
    requires StringAtMost(a, b) && StringAtMost(b, c)
    ensures StringAtMost(a, c)
  {
    if a != "" && a[0] == b[0] == c[0] { StringTransitive(a[1..], b[1..], c[1..]); }
  }
}
