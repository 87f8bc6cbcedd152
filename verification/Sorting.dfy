/** Sorting by a strict order: what a library sort returns, and when that leaves no choice. */
module Sorting {

  ghost predicate StrictOrder<T(!new)>(less: (T, T) -> bool) {
    && (forall x :: !less(x, x))
    && (forall x, y, z :: less(x, y) && less(y, z) ==> less(x, z))
  }

  /** Any two different elements are ordered. */
  ghost predicate Comparable<T>(less: (T, T) -> bool, s: seq<T>) {
    forall x, y | x in s && y in s :: x == y || less(x, y) || less(y, x)
  }

  ghost predicate Sorted<T>(less: (T, T) -> bool, s: seq<T>) {
    forall i, j :: 0 <= i < j < |s| ==> !less(s[j], s[i])
  }

  function Insert<T>(less: (T, T) -> bool, s: seq<T>, x: T): seq<T> {
    if s == [] || less(x, s[0]) then [x] + s else [s[0]] + Insert(less, s[1..], x)
  }

  function Sort<T>(less: (T, T) -> bool, s: seq<T>): seq<T> {
    if s == [] then [] else Insert(less, Sort(less, s[..|s| - 1]), s[|s| - 1])
  }

  lemma {:induction false} InsertKeeps<T>(less: (T, T) -> bool, s: seq<T>, x: T)
    ensures multiset(Insert(less, s, x)) == multiset(s) + multiset{x}
  {
    if s == [] || less(x, s[0]) {
    } else {
      assert s == [s[0]] + s[1..];
      InsertKeeps(less, s[1..], x);
    }
  }

  lemma FirstIsLeast<T(!new)>(less: (T, T) -> bool, s: seq<T>, x: T)
    requires StrictOrder(less) && Sorted(less, s) && s != [] && less(x, s[0])
    ensures forall j :: 0 <= j < |s| ==> !less(s[j], x)
  {
    var first := s[0];
    forall y | less(y, x)
      ensures y !in s
    {
      assert less(y, first);
    }
    assert forall j :: 0 <= j < |s| ==> s[j] in s;
  }

  lemma {:induction false} InsertSorts<T(!new)>(less: (T, T) -> bool, s: seq<T>, x: T)
    requires StrictOrder(less) && Sorted(less, s) && Comparable(less, s + [x])
    ensures Sorted(less, Insert(less, s, x))
  {
    var r := Insert(less, s, x);
    assert forall y :: y in s || y == x <==> y in s + [x];
    if s == [] {
    } else if less(x, s[0]) {
      FirstIsLeast(less, s, x);
    } else {
      var rest := Insert(less, s[1..], x);
      assert forall y :: y in s[1..] + [x] ==> y in s + [x];
      InsertSorts(less, s[1..], x);
      InsertKeeps(less, s[1..], x);
      forall j | 0 <= j < |rest|
        ensures !less(rest[j], s[0])
      {
        assert rest[j] in multiset(rest);
        if rest[j] != x {
          assert rest[j] in s[1..];
          var i :| 1 <= i < |s| && s[i] == rest[j];
        }
      }
    }
  }

  /** Sorting permutes and sorts. */
  lemma {:induction false} SortSorts<T(!new)>(less: (T, T) -> bool, s: seq<T>)
    requires StrictOrder(less) && Comparable(less, s)
    ensures multiset(Sort(less, s)) == multiset(s)
    ensures Sorted(less, Sort(less, s))
  {
    if s != [] {
      var n := |s| - 1;
      assert s == s[..n] + [s[n]];
      assert forall y :: y in s[..n] ==> y in s;
      SortSorts(less, s[..n]);
      var before := Sort(less, s[..n]);
      SameElements(before, s[..n]);
      assert forall y :: y in before + [s[n]] ==> y in s;
      InsertKeeps(less, before, s[n]);
      InsertSorts(less, before, s[n]);
    }
  }

  lemma SameElements<T>(a: seq<T>, b: seq<T>)
    requires multiset(a) == multiset(b)
    ensures forall x :: x in a <==> x in b
    ensures |a| == |b|
  {
    assert forall x :: x in a <==> x in multiset(a);
    assert forall x :: x in b <==> x in multiset(b);
    assert |a| == |multiset(a)| == |multiset(b)| == |b|;
  }

  /** Where any two elements are ordered there is only one sorted arrangement. */
  lemma {:induction false} SortedIsUnique<T(!new)>(less: (T, T) -> bool, a: seq<T>, b: seq<T>)
    requires StrictOrder(less) && Comparable(less, a)
    requires Sorted(less, a) && Sorted(less, b) && multiset(a) == multiset(b)
    ensures a == b
  {
    SameElements(a, b);
    if a != [] {
      hide StrictOrder, Sorted, Comparable;
      SameFirst(less, a, b);
      TailsAlike(a, b);
      TailOrdered(less, a);
      TailOrdered(less, b);
      SortedIsUnique(less, a[1..], b[1..]);
      assert a == [a[0]] + a[1..] && b == [b[0]] + b[1..];
    }
  }

  lemma TailOrdered<T(!new)>(less: (T, T) -> bool, a: seq<T>)
    requires Sorted(less, a) && a != []
    ensures Sorted(less, a[1..]) && (Comparable(less, a) ==> Comparable(less, a[1..]))
  {
  }

  lemma TailsAlike<T>(a: seq<T>, b: seq<T>)
    requires a != [] && b != [] && a[0] == b[0] && multiset(a) == multiset(b)
    ensures multiset(a[1..]) == multiset(b[1..])
  {
    assert a == [a[0]] + a[1..] && b == [b[0]] + b[1..];
    assert multiset(a[1..]) == multiset(a) - multiset{a[0]};
    assert multiset(b[1..]) == multiset(b) - multiset{b[0]};
  }

  lemma SameFirst<T(!new)>(less: (T, T) -> bool, a: seq<T>, b: seq<T>)
    requires Comparable(less, a) && Sorted(less, a) && Sorted(less, b)
    requires a != [] && b != [] && forall x :: x in a <==> x in b
    ensures a[0] == b[0]
  {
    assert a[0] in b && b[0] in a;
    var i :| 0 <= i < |b| && b[i] == a[0];
    var j :| 0 <= j < |a| && a[j] == b[0];
  }

  /** A sort by a total order does not depend on the order it is given. */
  lemma SortIgnoresOrder<T(!new)>(less: (T, T) -> bool, a: seq<T>, b: seq<T>)
    requires StrictOrder(less) && Comparable(less, a) && multiset(a) == multiset(b)
    ensures Sort(less, a) == Sort(less, b)
  {
    SameElements(a, b);
    SortSorts(less, a);
    SortSorts(less, b);
    SameElements(Sort(less, a), a);
    SortedIsUnique(less, Sort(less, a), Sort(less, b));
  }
}
