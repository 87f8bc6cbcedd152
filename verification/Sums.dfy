/** Sums over sequences: order does not matter, and grouping loses nothing. */
module Sums {

  /** An addition with its zero: token counts, cost breakdowns, reals. */
  datatype Adder<!V> = Adder(zero: V, plus: (V, V) -> V)

  ghost predicate Lawful<V(!new)>(m: Adder<V>) {
    && (forall a :: m.plus(m.zero, a) == a)
    && (forall a, b :: m.plus(a, b) == m.plus(b, a))
    && (forall a, b, c :: m.plus(m.plus(a, b), c) == m.plus(a, m.plus(b, c)))
  }

  function Sum<T, V>(m: Adder<V>, s: seq<T>, f: T -> V): V {
    if s == [] then m.zero else m.plus(Sum(m, s[..|s| - 1], f), f(s[|s| - 1]))
  }

  lemma SumOne<T, V(!new)>(m: Adder<V>, s: seq<T>, x: T, f: T -> V)
    ensures Sum(m, s + [x], f) == m.plus(Sum(m, s, f), f(x))
  {
    assert (s + [x])[..|s|] == s;
  }

  lemma {:induction false} SumAppend<T, V(!new)>(m: Adder<V>, a: seq<T>, b: seq<T>, f: T -> V)
    requires Lawful(m)
    ensures Sum(m, a + b, f) == m.plus(Sum(m, a, f), Sum(m, b, f))
  {
    if b == [] {
      assert a + b == a;
      assert m.plus(Sum(m, a, f), m.zero) == m.plus(m.zero, Sum(m, a, f));
    } else {
      var n := |b| - 1;
      assert a + b == (a + b[..n]) + [b[n]];
      SumAppend(m, a, b[..n], f);
      SumOne(m, a + b[..n], b[n], f);
    }
  }

  /** Taking one element out of the middle. */
  lemma SumWithout<T, V(!new)>(m: Adder<V>, s: seq<T>, i: nat, f: T -> V)
    requires Lawful(m) && i < |s|
    ensures Sum(m, s, f) == m.plus(Sum(m, s[..i] + s[i + 1..], f), f(s[i]))
  {
    var a, b := s[..i], s[i + 1..];
    assert s == (a + [s[i]]) + b;
    SumAppend(m, a + [s[i]], b, f);
    SumOne(m, a, s[i], f);
    SumAppend(m, a, b, f);
    var x, y, z := Sum(m, a, f), f(s[i]), Sum(m, b, f);
    assert m.plus(m.plus(x, y), z) == m.plus(x, m.plus(y, z));
    assert m.plus(m.plus(x, z), y) == m.plus(x, m.plus(z, y));
  }

  lemma WithoutOne<T>(a: seq<T>, b: seq<T>, i: nat)
    requires i < |b| && multiset(a + [b[i]]) == multiset(b)
    ensures multiset(a) == multiset(b[..i] + b[i + 1..])
  {
    var x, front, back := b[i], b[..i], b[i + 1..];
    assert b == front + ([x] + back);
    assert multiset(front + ([x] + back)) == multiset(front) + multiset([x] + back);
    assert multiset([x] + back) == multiset{x} + multiset(back);
    assert multiset(front + back) == multiset(b) - multiset{x};
    assert multiset(a + [x]) == multiset(a) + multiset{x};
    assert multiset(a) == multiset(b) - multiset{x};
  }

  lemma {:induction false} SumPermuted<T, V(!new)>(m: Adder<V>, a: seq<T>, b: seq<T>, f: T -> V)
    requires Lawful(m) && multiset(a) == multiset(b)
    ensures Sum(m, a, f) == Sum(m, b, f)
    decreases |a|
  {
    if a == [] {
      assert |multiset(b)| == 0;
    } else {
      var n := |a| - 1;
      var x := a[n];
      assert x in multiset(b);
      var i :| 0 <= i < |b| && b[i] == x;
      var rest := b[..i] + b[i + 1..];
      assert a == a[..n] + [x];
      WithoutOne(a[..n], b, i);
      SumPermuted(m, a[..n], rest, f);
      SumWithout(m, b, i, f);
    }
  }

  // ------------------------------------------------------------------ groups

  /** The elements with a given key, in order. */
  function Group<T, K(==)>(s: seq<T>, key: T -> K, k: K): (g: seq<T>)
    ensures forall x <- g :: key(x) == k
  {
    if s == [] then []
    else Group(s[..|s| - 1], key, k) + if key(s[|s| - 1]) == k then [s[|s| - 1]] else []
  }

  lemma GroupOne<T, K>(s: seq<T>, x: T, key: T -> K, k: K)
    ensures Group(s + [x], key, k) == Group(s, key, k) + if key(x) == k then [x] else []
  {
    assert (s + [x])[..|s|] == s;
  }

  lemma {:induction false} GroupAppend<T, K>(a: seq<T>, b: seq<T>, key: T -> K, k: K)
    ensures Group(a + b, key, k) == Group(a, key, k) + Group(b, key, k)
  {
    if b == [] {
      assert a + b == a;
    } else {
      var n := |b| - 1;
      assert a + b == (a + b[..n]) + [b[n]];
      GroupAppend(a, b[..n], key, k);
      GroupOne(a + b[..n], b[n], key, k);
    }
  }

  /** How often an element is in its group. */
  lemma {:induction false} GroupCounts<T, K>(s: seq<T>, key: T -> K, k: K, x: T)
    ensures multiset(Group(s, key, k))[x] == if key(x) == k then multiset(s)[x] else 0
  {
    if s != [] {
      var n := |s| - 1;
      assert s == s[..n] + [s[n]];
      GroupCounts(s[..n], key, k, x);
    }
  }

  /** A group depends on the elements, not on their order, up to its own order. */
  lemma GroupIgnoresOrder<T(!new), K>(a: seq<T>, b: seq<T>, key: T -> K, k: K)
    requires multiset(a) == multiset(b)
    ensures multiset(Group(a, key, k)) == multiset(Group(b, key, k))
  {
    forall x: T
      ensures multiset(Group(a, key, k))[x] == multiset(Group(b, key, k))[x]
    {
      GroupCounts(a, key, k, x);
      GroupCounts(b, key, k, x);
    }
  }

  function GroupSum<T, K(==), V>(m: Adder<V>, s: seq<T>, f: T -> V, key: T -> K, k: K): V {
    Sum(m, Group(s, key, k), f)
  }

  /** The sums of the groups, added up. */
  function GroupSums<T, K(==), V>(m: Adder<V>, s: seq<T>, f: T -> V, key: T -> K, ks: seq<K>): V {
    if ks == [] then m.zero
    else m.plus(GroupSums(m, s, f, key, ks[..|ks| - 1]), GroupSum(m, s, f, key, ks[|ks| - 1]))
  }

  lemma GroupSumsStep<T, K, V(!new)>(m: Adder<V>, s: seq<T>, f: T -> V, key: T -> K, ks: seq<K>, k: K)
    ensures GroupSums(m, s, f, key, ks + [k]) == m.plus(GroupSums(m, s, f, key, ks), GroupSum(m, s, f, key, k))
  {
    assert (ks + [k])[..|ks|] == ks;
  }

  ghost predicate Distinct<K>(ks: seq<K>) {
    forall i, j :: 0 <= i < j < |ks| ==> ks[i] != ks[j]
  }

  lemma {:induction false} NoGroups<T, K, V(!new)>(m: Adder<V>, f: T -> V, key: T -> K, ks: seq<K>)
    requires Lawful(m)
    ensures GroupSums(m, [], f, key, ks) == m.zero
  {
    if ks != [] {
      NoGroups(m, f, key, ks[..|ks| - 1]);
    }
  }

  /** One more element goes to one group, once. */
  lemma {:induction false} GroupSumsOne<T, K, V(!new)>(m: Adder<V>, s: seq<T>, x: T, f: T -> V, key: T -> K, ks: seq<K>)
    requires Lawful(m) && Distinct(ks)
    ensures GroupSums(m, s + [x], f, key, ks)
         == if key(x) in ks then m.plus(GroupSums(m, s, f, key, ks), f(x)) else GroupSums(m, s, f, key, ks)
  {
    if ks != [] {
      var n := |ks| - 1;
      var k, before := ks[n], ks[..n];
      assert ks == before + [k];
      GroupSumsOne(m, s, x, f, key, before);
      GroupOne(s, x, key, k);
      if key(x) == k {
        SumOne(m, Group(s, key, k), x, f);
        assert k !in before;
      } else {
        assert Group(s, key, k) + [] == Group(s, key, k);
        var a, b := GroupSums(m, s, f, key, before), GroupSum(m, s, f, key, k);
        assert m.plus(m.plus(a, f(x)), b) == m.plus(a, m.plus(f(x), b)) == m.plus(a, m.plus(b, f(x)));
      }
    }
  }

  /** Grouping conserves the sum: every element is counted in exactly one group. */
  lemma {:induction false} GroupsConserve<T, K, V(!new)>(m: Adder<V>, s: seq<T>, f: T -> V, key: T -> K, ks: seq<K>)
    requires Lawful(m) && Distinct(ks)
    requires forall x <- s :: key(x) in ks
    ensures GroupSums(m, s, f, key, ks) == Sum(m, s, f)
  {
    if s == [] {
      NoGroups(m, f, key, ks);
    } else {
      var n := |s| - 1;
      assert s == s[..n] + [s[n]];
      GroupsConserve(m, s[..n], f, key, ks);
      GroupSumsOne(m, s[..n], s[n], f, key, ks);
    }
  }

  /** The elements whose key is none of the given ones, in order. */
  function Outside<T, K(==)>(s: seq<T>, key: T -> K, ks: seq<K>): (r: seq<T>)
    ensures forall x <- r :: x in s && key(x) !in ks
    ensures forall x <- s :: key(x) in ks || x in r
  {
    if s == [] then []
    else Outside(s[..|s| - 1], key, ks) + if key(s[|s| - 1]) in ks then [] else [s[|s| - 1]]
  }

  /** Groups over some of the keys leave out what lies outside them, and nothing else. */
  lemma {:induction false} GroupsAndOutside<T, K, V(!new)>(m: Adder<V>, s: seq<T>, f: T -> V, key: T -> K, ks: seq<K>)
    requires Lawful(m) && Distinct(ks)
    ensures m.plus(GroupSums(m, s, f, key, ks), Sum(m, Outside(s, key, ks), f)) == Sum(m, s, f)
  {
    if s == [] {
      NoGroups(m, f, key, ks);
    } else {
      var n := |s| - 1;
      var before, x := s[..n], s[n];
      assert s == before + [x];
      GroupsAndOutside(m, before, f, key, ks);
      GroupSumsOne(m, before, x, f, key, ks);
      var a, b := GroupSums(m, before, f, key, ks), Sum(m, Outside(before, key, ks), f);
      if key(x) in ks {
        assert Outside(s, key, ks) == Outside(before, key, ks) + [] == Outside(before, key, ks);
        Regroup(m, a, b, f(x));
      } else {
        SumOne(m, Outside(before, key, ks), x, f);
      }
    }
  }

  lemma Regroup<V(!new)>(m: Adder<V>, a: V, b: V, x: V)
    requires Lawful(m)
    ensures m.plus(m.plus(a, x), b) == m.plus(m.plus(a, b), x)
  {
    assert m.plus(m.plus(a, x), b) == m.plus(a, m.plus(x, b)) == m.plus(a, m.plus(b, x));
  }

  // ------------------------------------------------------------------ sums over a set

  /** Some listing of a set: what iterating over a map yields. */
  ghost predicate Lists<K>(ks: seq<K>, s: set<K>) {
    Distinct(ks) && (set k <- ks) == s
  }

  /** Two listings of a set hold the same elements. */
  lemma ListingsAgree<K>(a: seq<K>, b: seq<K>, s: set<K>)
    requires Lists(a, s) && Lists(b, s)
    ensures multiset(a) == multiset(b)
  {
    OnceEach(a);
    OnceEach(b);
    forall k: K
      ensures multiset(a)[k] == multiset(b)[k]
    {
      assert k in (set x <- a) <==> k in s;
      assert k in (set x <- b) <==> k in s;
    }
  }

  /** Taking one more key out of those that remain. */
  lemma ListedOneMore<K>(ks: seq<K>, all: set<K>, remaining: set<K>, k: K)
    requires Lists(ks, all - remaining) && remaining <= all && k in remaining
    ensures Lists(ks + [k], all - (remaining - {k}))
  {
    assert k !in ks by {
      assert forall x <- ks :: x in (set y <- ks);
    }
    assert (set x <- ks + [k]) == (set x <- ks) + {k};
  }

  lemma {:induction false} OnceEach<K>(a: seq<K>)
    requires Distinct(a)
    ensures forall k :: multiset(a)[k] == if k in a then 1 else 0
  {
    if a != [] {
      var n := |a| - 1;
      OnceEach(a[..n]);
      assert a == a[..n] + [a[n]];
      assert a[n] !in a[..n];
    }
  }

  /** The order of iteration does not change a sum. */
  lemma SumOfListings<K, V(!new)>(m: Adder<V>, a: seq<K>, b: seq<K>, s: set<K>, f: K -> V)
    requires Lawful(m) && Lists(a, s) && Lists(b, s)
    ensures Sum(m, a, f) == Sum(m, b, f)
  {
    ListingsAgree(a, b, s);
    SumPermuted(m, a, b, f);
  }

  /** Nor the sum of a group. */
  lemma GroupSumOfListings<K(!new), G, V(!new)>(m: Adder<V>, a: seq<K>, b: seq<K>, s: set<K>, f: K -> V, key: K -> G,
                                                g: G)
    requires Lawful(m) && Lists(a, s) && Lists(b, s)
    ensures GroupSum(m, a, f, key, g) == GroupSum(m, b, f, key, g)
  {
    ListingsAgree(a, b, s);
    GroupIgnoresOrder(a, b, key, g);
    SumPermuted(m, Group(a, key, g), Group(b, key, g), f);
  }

  lemma {:induction false} SameSum<T, V(!new)>(m: Adder<V>, s: seq<T>, f: T -> V, g: T -> V)
    requires forall x <- s :: f(x) == g(x)
    ensures Sum(m, s, f) == Sum(m, s, g)
  {
    if s != [] {
      SameSum(m, s[..|s| - 1], f, g);
    }
  }
}
