/**
 * Python's ordering of `str` values, code point by code point, with a proper
 * prefix coming first, and `sorted` over a list of distinct strings.
 */
module StrOrder {
  import opened Strs

  /** `a < b` on Python strings. */
  predicate Below(a: string, b: string)
  {
    if a == [] then b != []
    else b != [] && (a[0] < b[0] || (a[0] == b[0] && Below(a[1..], b[1..])))
  }

  lemma {:induction false} BelowIrreflexive(a: string)
    ensures !Below(a, a)
  {
    if a != [] {
      BelowIrreflexive(a[1..]);
    }
  }

  lemma {:induction false} BelowTransitive(a: string, b: string, c: string)
    requires Below(a, b) && Below(b, c)
    ensures Below(a, c)
  {
    if a != [] && a[0] == b[0] && b[0] == c[0] {
      BelowTransitive(a[1..], b[1..], c[1..]);
    }
  }

  /** Two different strings are always ordered one way or the other. */
  lemma {:induction false} BelowTotal(a: string, b: string)
    requires a != b
    ensures Below(a, b) || Below(b, a)
  {
    if a != [] && b != [] && a[0] == b[0] {
      assert a == [a[0]] + a[1..] && b == [b[0]] + b[1..];
      BelowTotal(a[1..], b[1..]);
    }
  }

  /** Strictly ascending, hence without repeats. */
  predicate Ascending(xs: seq<string>)
  {
    forall i, j :: 0 <= i < j < |xs| ==> Below(xs[i], xs[j])
  }

  /** Puts `x` before the first element above it. */
  function InsertStr(x: string, ys: seq<string>): (r: seq<string>)
    ensures |r| == |ys| + 1
  {
    if ys == [] || Below(x, ys[0]) then [x] + ys
    else [ys[0]] + InsertStr(x, ys[1..])
  }

  /** `sorted(xs)`, by insertion. */
  function SortStr(xs: seq<string>): (r: seq<string>)
    ensures |r| == |xs|
  {
    if xs == [] then [] else InsertStr(xs[0], SortStr(xs[1..]))
  }

  lemma {:induction false} InsertStrPermutes(x: string, ys: seq<string>)
    ensures multiset(InsertStr(x, ys)) == multiset{x} + multiset(ys)
  {
    if ys != [] && !Below(x, ys[0]) {
      InsertStrPermutes(x, ys[1..]);
      assert ys == [ys[0]] + ys[1..];
    }
  }

  /** Every element of the result is above `b` when `x` and every element of `ys` are. */
  lemma {:induction false} InsertStrAbove(b: string, x: string, ys: seq<string>)
    requires Below(b, x) && forall k :: 0 <= k < |ys| ==> Below(b, ys[k])
    ensures forall k :: 0 <= k < |ys| + 1 ==> Below(b, InsertStr(x, ys)[k])
  {
    if ys != [] && !Below(x, ys[0]) {
      InsertStrAbove(b, x, ys[1..]);
    }
  }

  lemma {:induction false} InsertStrAscending(x: string, ys: seq<string>)
    requires Ascending(ys) && x !in ys
    ensures Ascending(InsertStr(x, ys))
  {
    if ys != [] {
      if Below(x, ys[0]) {
        forall k | 0 <= k < |ys| ensures Below(x, ys[k]) {
          if k > 0 {
            BelowTransitive(x, ys[0], ys[k]);
          }
        }
      } else {
        BelowTotal(x, ys[0]);
        InsertStrAscending(x, ys[1..]);
        InsertStrAbove(ys[0], x, ys[1..]);
      }
    }
  }

  /** Sorting distinct strings gives them in strictly ascending order, each exactly once. */
  lemma {:induction false} SortStrFacts(xs: seq<string>)
    requires NoDup(xs)
    ensures Ascending(SortStr(xs))
    ensures multiset(SortStr(xs)) == multiset(xs)
  {
    if xs != [] {
      assert xs == [xs[0]] + xs[1..];
      SortStrFacts(xs[1..]);
      assert xs[0] !in SortStr(xs[1..]) by {
        assert xs[0] !in multiset(xs[1..]);
      }
      InsertStrAscending(xs[0], SortStr(xs[1..]));
      InsertStrPermutes(xs[0], SortStr(xs[1..]));
    }
  }

  lemma {:induction false} BelowAsymmetric(a: string, b: string)
    ensures !(Below(a, b) && Below(b, a))
  {
    if a != [] && b != [] && a[0] == b[0] {
      BelowAsymmetric(a[1..], b[1..]);
    }
  }

  /** The first element of an ascending sequence is its least. */
  lemma MinFirst(a: seq<string>, x: string)
    requires Ascending(a) && x in a
    ensures x == a[0] || Below(a[0], x)
  {
    var k :| 0 <= k < |a| && a[k] == x;
  }

  /** The strictly ascending order of a set of strings is unique. */
  lemma {:induction false} AscendingUnique(a: seq<string>, b: seq<string>)
    requires Ascending(a) && Ascending(b)
    requires forall x :: x in a <==> x in b
    ensures a == b
  {
    assert a != [] ==> a[0] in b;
    assert b != [] ==> b[0] in a;
    if a != [] && b != [] {
      MinFirst(a, b[0]);
      MinFirst(b, a[0]);
      BelowAsymmetric(a[0], b[0]);
      assert a == [a[0]] + a[1..] && b == [b[0]] + b[1..];
      forall x ensures x in a[1..] <==> x in b[1..] {
        BelowIrreflexive(x);
        if x in a[1..] {
          var i :| 1 <= i < |a| && a[i] == x;
          assert x in b && x != b[0];
        }
        if x in b[1..] {
          var i :| 1 <= i < |b| && b[i] == x;
          assert x in a && x != a[0];
        }
      }
      AscendingUnique(a[1..], b[1..]);
    }
  }
}
