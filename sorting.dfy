/** `Array.prototype.sort` with the comparator `(a, b) => key(b) - key(a)`,
    which every listing of the pipeline uses to put the newest first.
    Modelled as a stable insertion sort, as the engine's sort is stable. */
module Sorting {

  predicate SortedDesc<T>(xs: seq<T>, key: T -> int) {
    forall i, j :: 0 <= i < j < |xs| ==> key(xs[i]) >= key(xs[j])
  }

  predicate AllAtLeast<T>(xs: seq<T>, key: T -> int, k: int) {
    forall i :: 0 <= i < |xs| ==> key(xs[i]) >= k
  }

  /** Puts `x` after every element at the end of `s` whose key is at least its own. */
  function Insert<T(==)>(s: seq<T>, x: T, key: T -> int): (r: seq<T>)
    ensures multiset(r) == multiset(s) + multiset{x}
  {
    if s == [] || key(s[|s| - 1]) >= key(x) then s + [x]
    else
      assert s == s[..|s| - 1] + [s[|s| - 1]];
      Insert(s[..|s| - 1], x, key) + [s[|s| - 1]]
  }

  lemma {:induction false} InsertAtLeast<T>(s: seq<T>, x: T, key: T -> int, k: int)
    requires AllAtLeast(s, key, k) && key(x) >= k
    ensures AllAtLeast(Insert(s, x, key), key, k)
    decreases |s|
  {
    if !(s == [] || key(s[|s| - 1]) >= key(x)) {
      InsertAtLeast(s[..|s| - 1], x, key, k);
    }
  }

  lemma {:induction false} InsertSorted<T>(s: seq<T>, x: T, key: T -> int)
    requires SortedDesc(s, key)
    ensures SortedDesc(Insert(s, x, key), key)
    decreases |s|
  {
    if !(s == [] || key(s[|s| - 1]) >= key(x)) {
      var init, last := s[..|s| - 1], s[|s| - 1];
      InsertSorted(init, x, key);
      assert AllAtLeast(init, key, key(last)) by {
        forall i | 0 <= i < |init| ensures key(init[i]) >= key(last) {
          assert init[i] == s[i];
        }
      }
      InsertAtLeast(init, x, key, key(last));
      var m := Insert(init, x, key);
      assert Insert(s, x, key) == m + [last];
    }
  }

  /** The elements of `xs`, newest (largest key) first. */
  function SortDesc<T(==)>(xs: seq<T>, key: T -> int): (r: seq<T>)
    ensures multiset(r) == multiset(xs)
  {
    if xs == [] then []
    else
      assert xs == xs[..|xs| - 1] + [xs[|xs| - 1]];
      Insert(SortDesc(xs[..|xs| - 1], key), xs[|xs| - 1], key)
  }

  /** The sort's result is ordered newest first. */
  lemma {:induction false} SortDescSorted<T>(xs: seq<T>, key: T -> int)
    ensures SortedDesc(SortDesc(xs, key), key)
    decreases |xs|
  {
    if xs != [] {
      SortDescSorted(xs[..|xs| - 1], key);
      InsertSorted(SortDesc(xs[..|xs| - 1], key), xs[|xs| - 1], key);
    }
  }

  /** The elements of `xs` whose key is `k`, in their order in `xs`. */
  function WithKey<T>(xs: seq<T>, key: T -> int, k: int): seq<T> {
    if xs == [] then []
    else WithKey(xs[..|xs| - 1], key, k) + (if key(xs[|xs| - 1]) == k then [xs[|xs| - 1]] else [])
  }

  lemma {:induction false} InsertWithKey<T>(s: seq<T>, x: T, key: T -> int, k: int)
    ensures WithKey(Insert(s, x, key), key, k) == WithKey(s, key, k) + (if key(x) == k then [x] else [])
    decreases |s|
  {
    if s == [] || key(s[|s| - 1]) >= key(x) {
      assert (s + [x])[..|s|] == s;
    } else {
      var init, last := s[..|s| - 1], s[|s| - 1];
      InsertWithKey(init, x, key, k);
      var m := Insert(init, x, key);
      assert (m + [last])[..|m|] == m;
    }
  }

  /** The sort is stable: for every key, the elements with that key keep
      their input order, so ties are decided by position. */
  lemma {:induction false} SortDescStable<T>(xs: seq<T>, key: T -> int, k: int)
    ensures WithKey(SortDesc(xs, key), key, k) == WithKey(xs, key, k)
    decreases |xs|
  {
    if xs != [] {
      SortDescStable(xs[..|xs| - 1], key, k);
      InsertWithKey(SortDesc(xs[..|xs| - 1], key), xs[|xs| - 1], key, k);
    }
  }

  /** Sorting is a permutation: the same elements with the same multiplicities. */
  lemma SortDescPermutes<T>(xs: seq<T>, key: T -> int)
    ensures |SortDesc(xs, key)| == |xs|
    ensures forall y :: y in SortDesc(xs, key) <==> y in xs
  {
    var r := SortDesc(xs, key);
    assert multiset(r) == multiset(xs);
    assert |r| == |multiset(r)| == |multiset(xs)| == |xs|;
    forall y ensures y in r <==> y in xs {
      assert y in r <==> y in multiset(r);
      assert y in xs <==> y in multiset(xs);
    }
  }
}
