/** Python's `sorted`: a stable sort under a total preorder. */
module Sorting {
  import opened Sums

  ghost predicate TotalPreorder<T(!new)>(le: (T, T) -> bool) {
    && (forall a, b :: le(a, b) || le(b, a))
    && (forall a, b, c :: le(a, b) && le(b, c) ==> le(a, c))
  }

  predicate Ordered<T>(s: seq<T>, le: (T, T) -> bool) {
    forall i, j :: 0 <= i < j < |s| ==> le(s[i], s[j])
  }

  /** No two distinct elements of s tie under le. */
  predicate Antisymmetric<T(==)>(s: seq<T>, le: (T, T) -> bool) {
    forall a, b :: a in s && b in s && le(a, b) && le(b, a) ==> a == b
  }

  predicate NoDuplicates<T(==)>(s: seq<T>) {
    forall i, j :: 0 <= i < j < |s| ==> s[i] != s[j]
  }

  /** Place x in front of the first element it does not exceed. */
  function Insert<T>(x: T, s: seq<T>, le: (T, T) -> bool): seq<T> {
    if s == [] then [x]
    else if le(x, s[0]) then [x] + s
    else [s[0]] + Insert(x, s[1..], le)
  }

  function Sorted<T>(s: seq<T>, le: (T, T) -> bool): seq<T> {
    if s == [] then [] else Insert(s[0], Sorted(s[1..], le), le)
  }

  lemma {:induction false} InsertMultiset<T>(x: T, s: seq<T>, le: (T, T) -> bool)
    ensures multiset(Insert(x, s, le)) == multiset{x} + multiset(s)
  {
    if s != [] && !le(x, s[0]) {
      InsertMultiset(x, s[1..], le);
      assert s == [s[0]] + s[1..];
    }
  }

  lemma {:induction false} InsertOrdered<T(!new)>(x: T, s: seq<T>, le: (T, T) -> bool)
    requires TotalPreorder(le) && Ordered(s, le)
    ensures Ordered(Insert(x, s, le), le)
  {
    if s != [] {
      if !le(x, s[0]) {
        InsertOrdered(x, s[1..], le);
        InsertMultiset(x, s[1..], le);
        var rest := Insert(x, s[1..], le);
        forall j | 0 <= j < |rest| ensures le(s[0], rest[j]) {
          assert rest[j] in multiset(rest);
          assert rest[j] == x || rest[j] in s[1..];
        }
      }
    }
  }

  /** Sorting permutes its input and puts it in order. */
  lemma {:induction false} SortedSpec<T(!new)>(s: seq<T>, le: (T, T) -> bool)
    requires TotalPreorder(le)
    ensures multiset(Sorted(s, le)) == multiset(s) && |Sorted(s, le)| == |s|
    ensures Ordered(Sorted(s, le), le)
  {
    if s != [] {
      SortedSpec(s[1..], le);
      InsertMultiset(s[0], Sorted(s[1..], le), le);
      InsertOrdered(s[0], Sorted(s[1..], le), le);
      assert s == [s[0]] + s[1..];
    }
    assert |Sorted(s, le)| == |multiset(Sorted(s, le))| == |multiset(s)|;
  }

  lemma SameElements<T>(s: seq<T>, t: seq<T>)
    requires multiset(s) == multiset(t)
    ensures |s| == |t| && forall x :: x in s <==> x in t
  {
    assert |s| == |multiset(s)| == |multiset(t)|;
    forall x ensures x in s <==> x in t {
      assert x in s <==> x in multiset(s);
      assert x in t <==> x in multiset(t);
    }
  }

  lemma TailMultiset<T>(s: seq<T>)
    requires s != []
    ensures multiset(s[1..]) == multiset(s) - multiset{s[0]}
  {
    assert s == [s[0]] + s[1..];
  }

  lemma FirstsAgree<T(!new)>(s: seq<T>, t: seq<T>, le: (T, T) -> bool)
    requires TotalPreorder(le) && Antisymmetric(s, le) && s != [] && t != []
    requires Ordered(s, le) && Ordered(t, le) && forall x :: x in s <==> x in t
    ensures s[0] == t[0]
  {
    assert s[0] in s && t[0] in t;
    var i :| 0 <= i < |s| && s[i] == t[0];
    var j :| 0 <= j < |t| && t[j] == s[0];
    assert i > 0 ==> le(s[0], s[i]);
    assert j > 0 ==> le(t[0], t[j]);
  }

  /** Two ordered arrangements of the same elements agree when only equal elements tie. */
  lemma {:induction false} OrderedUnique<T(!new)>(s: seq<T>, t: seq<T>, le: (T, T) -> bool)
    requires TotalPreorder(le) && Antisymmetric(s, le)
    requires multiset(s) == multiset(t) && Ordered(s, le) && Ordered(t, le)
    ensures s == t
    decreases |s|
  {
    SameElements(s, t);
    if s != [] {
      FirstsAgree(s, t, le);
      TailMultiset(s);
      TailMultiset(t);
      OrderedUnique(s[1..], t[1..], le);
      assert s == [s[0]] + s[1..] && t == [t[0]] + t[1..];
    }
  }

  /** Sorting forgets the order of its input when only equal elements tie. */
  lemma SortedPermuted<T(!new)>(s: seq<T>, t: seq<T>, le: (T, T) -> bool)
    requires TotalPreorder(le) && Antisymmetric(s, le)
    requires multiset(s) == multiset(t)
    ensures Sorted(s, le) == Sorted(t, le)
  {
    SortedSpec(s, le);
    SortedSpec(t, le);
    SameElements(s, Sorted(s, le));
    OrderedUnique(Sorted(s, le), Sorted(t, le), le);
  }

  lemma NoDuplicatesMultiset<T>(s: seq<T>)
    requires NoDuplicates(s)
    ensures forall x :: multiset(s)[x] <= 1
  {
    forall x ensures multiset(s)[x] <= 1 {
      if multiset(s)[x] > 0 {
        assert x in s;
        var i :| 0 <= i < |s| && s[i] == x;
        RemoveMultiset(s, i);
        var rest := s[..i] + s[i + 1..];
        forall j | 0 <= j < |rest| ensures rest[j] != x {
          assert rest[j] == s[if j < i then j else j + 1];
        }
        assert x !in multiset(rest);
      }
    }
  }

  /** Two listings of one set are permutations of each other. */
  lemma SameSetPermuted<T>(s: seq<T>, t: seq<T>)
    requires NoDuplicates(s) && NoDuplicates(t) && forall x :: x in s <==> x in t
    ensures multiset(s) == multiset(t)
  {
    NoDuplicatesMultiset(s);
    NoDuplicatesMultiset(t);
    forall x ensures multiset(s)[x] == multiset(t)[x] {
      assert x in s <==> x in multiset(s);
      assert x in t <==> x in multiset(t);
    }
  }

  lemma {:induction false} MultisetNoDuplicates<T>(s: seq<T>)
    requires forall x :: multiset(s)[x] <= 1
    ensures NoDuplicates(s)
  {
    forall i, j | 0 <= i < j < |s| ensures s[i] != s[j] {
      assert s == s[..j] + s[j..];
      assert multiset(s) == multiset(s[..j]) + multiset(s[j..]);
      assert s[j] in s[j..] && s[i] in s[..j];
      assert s[i] in multiset(s[..j]) && s[j] in multiset(s[j..]);
      assert multiset(s)[s[i]] >= multiset(s[..j])[s[i]] + multiset(s[j..])[s[i]];
    }
  }

  /** Sorting a listing without repetition leaves it without repetition. */
  lemma SortedNoDuplicates<T(!new)>(s: seq<T>, le: (T, T) -> bool)
    requires TotalPreorder(le) && NoDuplicates(s)
    ensures NoDuplicates(Sorted(s, le))
  {
    SortedSpec(s, le);
    NoDuplicatesMultiset(s);
    MultisetNoDuplicates(Sorted(s, le));
  }
}
