/** The stable ascending sort behind `sorted(..., key=...)` and `list.sort(key=...)`. */
module StableSort {
  /** Inserts after every element whose key is not greater. */
  function InsertBy<T>(xs: seq<T>, x: T, key: T -> real): seq<T> {
    if xs == [] || key(xs[|xs| - 1]) <= key(x) then xs + [x]
    else InsertBy(xs[..|xs| - 1], x, key) + [xs[|xs| - 1]]
  }

  function SortBy<T>(xs: seq<T>, key: T -> real): seq<T> {
    if xs == [] then [] else InsertBy(SortBy(xs[..|xs| - 1], key), xs[|xs| - 1], key)
  }

  ghost predicate Ascends<T>(xs: seq<T>, key: T -> real) {
    forall i, j :: 0 <= i < j < |xs| ==> key(xs[i]) <= key(xs[j])
  }

  /** The elements with key `v`, in order. */
  function WithKey<T>(xs: seq<T>, key: T -> real, v: real): seq<T> {
    if xs == [] then []
    else WithKey(xs[..|xs| - 1], key, v) + (if key(xs[|xs| - 1]) == v then [xs[|xs| - 1]] else [])
  }

  lemma {:induction false} InsertPermutes<T>(xs: seq<T>, x: T, key: T -> real)
    ensures multiset(InsertBy(xs, x, key)) == multiset(xs) + multiset{x}
  {
    if xs != [] && key(xs[|xs| - 1]) > key(x) {
      InsertPermutes(xs[..|xs| - 1], x, key);
      assert xs == xs[..|xs| - 1] + [xs[|xs| - 1]];
    }
  }

  lemma {:induction false} InsertAscends<T>(xs: seq<T>, x: T, key: T -> real)
    requires Ascends(xs, key)
    ensures Ascends(InsertBy(xs, x, key), key)
  {
    if xs != [] && key(xs[|xs| - 1]) > key(x) {
      var front, last := xs[..|xs| - 1], xs[|xs| - 1];
      InsertAscends(front, x, key);
      InsertPermutes(front, x, key);
      var inserted := InsertBy(front, x, key);
      forall i | 0 <= i < |inserted|
        ensures key(inserted[i]) <= key(last)
      {
        assert inserted[i] in multiset(inserted);
        assert inserted[i] in front || inserted[i] == x;
      }
    }
  }

  lemma WithKeyAppend<T>(xs: seq<T>, x: T, key: T -> real, v: real)
    ensures WithKey(xs + [x], key, v) == WithKey(xs, key, v) + (if key(x) == v then [x] else [])
  {
    assert (xs + [x])[..|xs|] == xs;
  }

  lemma {:induction false} InsertIsStable<T>(xs: seq<T>, x: T, key: T -> real, v: real)
    ensures WithKey(InsertBy(xs, x, key), key, v) == WithKey(xs, key, v) + (if key(x) == v then [x] else [])
  {
    if xs == [] || key(xs[|xs| - 1]) <= key(x) {
      WithKeyAppend(xs, x, key, v);
    } else {
      InsertIsStable(xs[..|xs| - 1], x, key, v);
      WithKeyAppend(InsertBy(xs[..|xs| - 1], x, key), xs[|xs| - 1], key, v);
    }
  }

  /** Sorting rearranges the elements into ascending order of key. */
  lemma {:induction false} SortOrders<T>(xs: seq<T>, key: T -> real)
    ensures multiset(SortBy(xs, key)) == multiset(xs) && Ascends(SortBy(xs, key), key)
  {
    if xs != [] {
      var front, last := xs[..|xs| - 1], xs[|xs| - 1];
      SortOrders(front, key);
      InsertPermutes(SortBy(front, key), last, key);
      InsertAscends(SortBy(front, key), last, key);
      assert xs == front + [last];
    }
  }

  /** Elements with the same key keep their order. */
  lemma {:induction false} SortIsStable<T>(xs: seq<T>, key: T -> real, v: real)
    ensures WithKey(SortBy(xs, key), key, v) == WithKey(xs, key, v)
  {
    if xs != [] {
      SortIsStable(xs[..|xs| - 1], key, v);
      InsertIsStable(SortBy(xs[..|xs| - 1], key), xs[|xs| - 1], key, v);
    }
  }

  lemma SortMembers<T>(xs: seq<T>, key: T -> real)
    ensures |SortBy(xs, key)| == |xs| && forall x :: x in SortBy(xs, key) <==> x in xs
  {
    SortOrders(xs, key);
    assert |multiset(SortBy(xs, key))| == |multiset(xs)|;
    forall x
      ensures x in SortBy(xs, key) <==> x in xs
    {
      assert x in multiset(SortBy(xs, key)) <==> x in multiset(xs);
    }
  }
}
