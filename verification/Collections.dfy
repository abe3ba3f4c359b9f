/** Sequences as enumerations of sets, sums over sequences, and sorting. */
module Collections {

  ghost predicate NoDuplicates<T>(s: seq<T>) {
    forall i, j | 0 <= i < j < |s| :: s[i] != s[j]
  }

  /** `s` lists every element of `elems` exactly once. */
  ghost predicate Enumerates<T>(s: seq<T>, elems: set<T>) {
    && NoDuplicates(s)
    && (forall x | x in s :: x in elems)
    && (forall x | x in elems :: x in s)
  }

  lemma EnumeratesOneMore<T>(s: seq<T>, elems: set<T>, more: set<T>, x: T)
    requires Enumerates(s, elems) && x !in elems
    requires x in more
    requires forall y | y in elems :: y in more
    requires forall y | y in more :: y == x || y in elems
    ensures Enumerates(s + [x], more)
  {
  }

  /** A sequence built by looking up distinct keys in an injective map enumerates the map's values. */
  lemma EnumeratesByKey<K, V>(s: seq<V>, keys: seq<K>, m: map<K, V>)
    requires |s| == |keys| && NoDuplicates(keys)
    requires forall i | 0 <= i < |s| :: keys[i] in m && s[i] == m[keys[i]]
    requires forall k | k in m :: k in keys
    requires forall k, l | k in m && l in m && k != l :: m[k] != m[l]
    ensures Enumerates(s, m.Values)
  {
    forall x | x in m.Values
      ensures x in s
    {
      var k :| k in m && m[k] == x;
      var i :| 0 <= i < |keys| && keys[i] == k;
      assert s[i] == x;
    }
  }

  lemma {:induction false} MultiplicityAtMostOne<T>(s: seq<T>, x: T)
    requires NoDuplicates(s)
    ensures multiset(s)[x] <= 1
  {
    if s != [] {
      var last := |s| - 1;
      assert s == s[..last] + [s[last]];
      MultiplicityAtMostOne(s[..last], x);
      assert s[last] !in s[..last];
    }
  }

  lemma MultiplicityForbidsDuplicates<T>(s: seq<T>)
    requires forall x :: multiset(s)[x] <= 1
    ensures NoDuplicates(s)
  {
    forall i, j | 0 <= i < j < |s|
      ensures s[i] != s[j]
    {
      assert s == s[..j] + s[j..];
      assert s[i] in s[..j] && s[j] in s[j..];
      assert multiset(s) == multiset(s[..j]) + multiset(s[j..]);
      assert multiset(s)[s[i]] == multiset(s[..j])[s[i]] + multiset(s[j..])[s[i]];
    }
  }

  /** Reordering an enumeration gives an enumeration of the same set. */
  lemma ReorderedEnumerates<T>(a: seq<T>, b: seq<T>, elems: set<T>)
    requires Enumerates(a, elems) && multiset(a) == multiset(b)
    ensures Enumerates(b, elems)
  {
    forall x {
      MultiplicityAtMostOne(a, x);
    }
    MultiplicityForbidsDuplicates(b);
    forall x
      ensures x in b <==> x in elems
    {
      assert x in b <==> x in multiset(b);
      assert x in a <==> x in multiset(a);
    }
  }

  /** Two enumerations of one set are permutations of each other. */
  lemma EnumerationsArePermutations<T>(a: seq<T>, b: seq<T>, elems: set<T>)
    requires Enumerates(a, elems) && Enumerates(b, elems)
    ensures multiset(a) == multiset(b)
  {
    forall x
      ensures multiset(a)[x] == multiset(b)[x]
    {
      MultiplicityAtMostOne(a, x);
      MultiplicityAtMostOne(b, x);
      assert x in multiset(a) <==> x in a;
      assert x in multiset(b) <==> x in b;
    }
  }

  lemma {:induction false} EnumerationSize<T>(a: seq<T>, elems: set<T>)
    requires Enumerates(a, elems)
    ensures |a| == |elems|
  {
    if a == [] {
      assert elems == {};
    } else {
      var last := |a| - 1;
      var x := a[last];
      forall y
        ensures y in a[..last] <==> y in elems - {x}
      {
        assert a == a[..last] + [x];
      }
      EnumerationSize(a[..last], elems - {x});
    }
  }

  /** Cardinality respects inclusion. */
  lemma SubsetIsNotLarger<T>(a: set<T>, b: set<T>)
    requires a <= b
    ensures |a| <= |b|
  {
    assert b == a + (b - a);
  }

  // ---- Sums ----

  function Sum<T>(f: T -> int, s: seq<T>): int {
    if s == [] then 0 else Sum(f, s[..|s| - 1]) + f(s[|s| - 1])
  }

  lemma {:induction false} SumOfParts<T>(f: T -> int, a: seq<T>, b: seq<T>)
    ensures Sum(f, a + b) == Sum(f, a) + Sum(f, b)
  {
    if b == [] {
      assert a + b == a;
    } else {
      var last := |b| - 1;
      assert (a + b)[..|a + b| - 1] == a + b[..last];
      SumOfParts(f, a, b[..last]);
    }
  }

  /** A sum does not depend on the order of the terms. */
  lemma {:induction false} SumOfPermutation<T>(f: T -> int, a: seq<T>, b: seq<T>)
    requires multiset(a) == multiset(b)
    ensures Sum(f, a) == Sum(f, b)
    decreases |a|
  {
    if a == [] {
      assert multiset(b) == multiset{};
      assert b == [];
    } else {
      var last := |a| - 1;
      var x := a[last];
      assert a == a[..last] + [x];
      assert x in multiset(b);
      var k :| 0 <= k < |b| && b[k] == x;
      assert b == b[..k] + [x] + b[k + 1..];
      assert multiset(b[..k] + b[k + 1..]) == multiset(b) - multiset{x};
      assert multiset(a[..last]) == multiset(a) - multiset{x};
      SumOfPermutation(f, a[..last], b[..k] + b[k + 1..]);
      SumOfParts(f, b[..k], b[k + 1..]);
      SumOfParts(f, b[..k] + [x], b[k + 1..]);
      SumOfParts(f, b[..k], [x]);
      assert [x][..0] == [];
    }
  }

  lemma {:induction false} SumOfEqualTerms<T>(f: T -> int, g: T -> int, s: seq<T>)
    requires forall x | x in s :: f(x) == g(x)
    ensures Sum(f, s) == Sum(g, s)
  {
    if s != [] {
      SumOfEqualTerms(f, g, s[..|s| - 1]);
    }
  }

  lemma {:induction false} SumOfMatchingTerms<S, T>(f: S -> int, g: T -> int, a: seq<S>, b: seq<T>)
    requires |a| == |b| && forall i | 0 <= i < |a| :: f(a[i]) == g(b[i])
    ensures Sum(f, a) == Sum(g, b)
  {
    if a != [] {
      SumOfMatchingTerms(f, g, a[..|a| - 1], b[..|b| - 1]);
    }
  }

  // ---- Sorting ----

  /** What `std::sort` demands of a comparator. */
  ghost predicate StrictWeakOrder<T(!new)>(less: (T, T) -> bool) {
    && (forall x :: !less(x, x))
    && (forall x, y, z :: less(x, y) && less(y, z) ==> less(x, z))
    && (forall x, y, z :: !less(x, y) && !less(y, z) ==> !less(x, z))
  }

  ghost predicate Sorted<T>(s: seq<T>, less: (T, T) -> bool) {
    forall i, j | 0 <= i < j < |s| :: !less(s[j], s[i])
  }

  /** The library sort: callers learn only that the result is some sorted permutation. */
  method Sort<T(!new)>(s: seq<T>, less: (T, T) -> bool) returns (r: seq<T>)
    requires StrictWeakOrder(less)
    ensures multiset(r) == multiset(s)
    ensures Sorted(r, less)
  {
    hide StrictWeakOrder, Sorted;
    r := [];
    EmptyIsSorted(less);
    for n := 0 to |s|
      invariant multiset(r) == multiset(s[..n])
      invariant Sorted(r, less)
    {
      var k := 0;
      while k < |r| && !less(s[n], r[k])
        invariant 0 <= k <= |r|
        invariant forall i | 0 <= i < k :: !less(s[n], r[i])
      {
        k := k + 1;
      }
      assert s[..n + 1] == s[..n] + [s[n]];
      InsertionKeepsMembers(r, k, s[n]);
      InsertionKeepsSorted(r, k, s[n], less);
      r := r[..k] + [s[n]] + r[k..];
    }
    assert s[..|s|] == s;
  }

  lemma EmptyIsSorted<T(!new)>(less: (T, T) -> bool)
    ensures Sorted([], less)
  {
  }

  lemma InsertionKeepsMembers<T>(r: seq<T>, k: nat, x: T)
    requires k <= |r|
    ensures multiset(r[..k] + [x] + r[k..]) == multiset(r) + multiset{x}
  {
    assert r == r[..k] + r[k..];
  }

  lemma InsertionKeepsSorted<T(!new)>(r: seq<T>, k: nat, x: T, less: (T, T) -> bool)
    requires StrictWeakOrder(less) && Sorted(r, less) && k <= |r|
    requires forall i | 0 <= i < k :: !less(x, r[i])
    requires k < |r| ==> less(x, r[k])
    ensures Sorted(r[..k] + [x] + r[k..], less)
  {
    forall i | k <= i < |r|
      ensures !less(r[i], x)
    {
      assert !less(r[i], r[k]);
    }
  }
}
