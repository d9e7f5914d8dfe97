/**
 * Stable sorting by an integer key, largest key first. Python's `sorted(xs,
 * key=k, reverse=True)` and `list.sort(key=k, reverse=True)` both sort this way
 * (reverse keeps equal keys in their original order), and so does
 * `Array.prototype.sort` with the comparator `(a, b) => k(b) - k(a)`, which
 * ECMAScript has required to be stable since its 2019 edition.
 */
module Sorting {

  /** Keys never increase from left to right. */
  predicate SortedDesc<T>(xs: seq<T>, key: T -> int)
  {
    forall i, j :: 0 <= i < j < |xs| ==> key(xs[i]) >= key(xs[j])
  }

  /** The elements of `xs` whose key is `c`, in their order in `xs`. */
  function WithKey<T>(xs: seq<T>, key: T -> int, c: int): (r: seq<T>)
    ensures |r| <= |xs|
  {
    if xs == [] then []
    else (if key(xs[0]) == c then [xs[0]] else []) + WithKey(xs[1..], key, c)
  }

  /** Puts `x` in front of the first element whose key is not larger than its own. */
  function Insert<T>(x: T, ys: seq<T>, key: T -> int): (r: seq<T>)
    ensures |r| == |ys| + 1
  {
    if ys == [] || key(ys[0]) <= key(x) then [x] + ys
    else [ys[0]] + Insert(x, ys[1..], key)
  }

  /** Insertion sort from the back, so that earlier elements land before later ones with equal keys. */
  function SortDesc<T>(xs: seq<T>, key: T -> int): (r: seq<T>)
    ensures |r| == |xs|
  {
    if xs == [] then [] else Insert(xs[0], SortDesc(xs[1..], key), key)
  }

  lemma {:induction false} InsertFacts<T>(x: T, ys: seq<T>, key: T -> int)
    requires SortedDesc(ys, key)
    ensures SortedDesc(Insert(x, ys, key), key)
    ensures multiset(Insert(x, ys, key)) == multiset{x} + multiset(ys)
  {
    InsertSorted(x, ys, key);
    InsertPermutes(x, ys, key);
  }

  lemma {:induction false} InsertSorted<T>(x: T, ys: seq<T>, key: T -> int)
    requires SortedDesc(ys, key)
    ensures SortedDesc(Insert(x, ys, key), key)
  {
    if ys != [] && key(ys[0]) > key(x) {
      InsertSorted(x, ys[1..], key);
      InsertAtMost(x, ys[1..], key, key(ys[0]));
    }
  }

  lemma {:induction false} InsertPermutes<T>(x: T, ys: seq<T>, key: T -> int)
    ensures multiset(Insert(x, ys, key)) == multiset{x} + multiset(ys)
  {
    if ys != [] && key(ys[0]) > key(x) {
      InsertPermutes(x, ys[1..], key);
      assert ys == [ys[0]] + ys[1..];
    }
  }

  /** Inserting an element no larger than `b` into elements no larger than `b` keeps them so. */
  lemma {:induction false} InsertAtMost<T>(x: T, ys: seq<T>, key: T -> int, b: int)
    requires key(x) <= b && forall k :: 0 <= k < |ys| ==> key(ys[k]) <= b
    ensures forall k :: 0 <= k < |ys| + 1 ==> key(Insert(x, ys, key)[k]) <= b
  {
    if ys != [] && key(ys[0]) > key(x) {
      InsertAtMost(x, ys[1..], key, b);
    }
  }

  lemma {:induction false} InsertWithKey<T>(x: T, ys: seq<T>, key: T -> int, c: int)
    requires SortedDesc(ys, key)
    ensures WithKey(Insert(x, ys, key), key, c)
      == (if key(x) == c then [x] else []) + WithKey(ys, key, c)
  {
    if ys != [] && key(ys[0]) > key(x) {
      InsertWithKey(x, ys[1..], key, c);
      assert Insert(x, ys, key)[1..] == Insert(x, ys[1..], key);
    }
  }

  /** The sort returns the same elements, keys in descending order. */
  lemma {:induction false} SortDescPermutes<T>(xs: seq<T>, key: T -> int)
    ensures SortedDesc(SortDesc(xs, key), key)
    ensures multiset(SortDesc(xs, key)) == multiset(xs)
  {
    if xs != [] {
      SortDescPermutes(xs[1..], key);
      InsertFacts(xs[0], SortDesc(xs[1..], key), key);
      assert xs == [xs[0]] + xs[1..];
    }
  }

  /** Stability: for every key, the elements carrying it keep their original relative order. */
  lemma {:induction false} SortDescStable<T>(xs: seq<T>, key: T -> int, c: int)
    ensures WithKey(SortDesc(xs, key), key, c) == WithKey(xs, key, c)
  {
    if xs != [] {
      SortDescStable(xs[1..], key, c);
      SortDescPermutes(xs[1..], key);
      InsertWithKey(xs[0], SortDesc(xs[1..], key), key, c);
    }
  }
}
