/**
 * String helpers shared by the Python back end and the TypeScript front end:
 * whitespace classes, stripping, splitting on one character, joining,
 * order-preserving de-duplication, substring search and ASCII lower-casing.
 */
module Strs {

  /** Python's `str.isspace`; the class `\s` of Python's `re` on `str` patterns is the same set. */
  predicate PySpace(c: char)
  {
    c == ' ' || ('\t' <= c <= '\r') || ('\U{1c}' <= c <= '\U{1f}')
    || c == '\U{85}' || c == '\U{a0}' || c == '\U{1680}'
    || ('\U{2000}' <= c <= '\U{200a}') || c == '\U{2028}' || c == '\U{2029}'
    || c == '\U{202f}' || c == '\U{205f}' || c == '\U{3000}'
  }

  /** ECMAScript WhiteSpace and LineTerminator, the set `String.prototype.trim` removes. */
  predicate JsSpace(c: char)
  {
    c == ' ' || ('\t' <= c <= '\r') || c == '\U{a0}' || c == '\U{1680}'
    || ('\U{2000}' <= c <= '\U{200a}') || c == '\U{2028}' || c == '\U{2029}'
    || c == '\U{202f}' || c == '\U{205f}' || c == '\U{3000}' || c == '\U{feff}'
  }

  /** Every character of `s` is whitespace for `ws`. */
  predicate AllSpace(s: string, ws: char -> bool)
  {
    forall i :: 0 <= i < |s| ==> ws(s[i])
  }

  /** Neither the first nor the last character of `s` is whitespace for `ws`. */
  predicate Stripped(s: string, ws: char -> bool)
  {
    s == [] || (!ws(s[0]) && !ws(s[|s| - 1]))
  }

  function TrimStart(s: string, ws: char -> bool): (r: string)
    ensures |r| <= |s| && r == s[|s| - |r|..]
    ensures r == [] || !ws(r[0])
    ensures AllSpace(s[..|s| - |r|], ws)
  {
    if |s| > 0 && ws(s[0]) then TrimStart(s[1..], ws) else s
  }

  function TrimEnd(s: string, ws: char -> bool): (r: string)
    ensures |r| <= |s| && r == s[..|r|]
    ensures r == [] || !ws(r[|r| - 1])
    ensures AllSpace(s[|r|..], ws)
  {
    if |s| > 0 && ws(s[|s| - 1]) then TrimEnd(s[..|s| - 1], ws) else s
  }

  /** Removes leading and trailing whitespace, as Python's `strip()` and JavaScript's `trim()` do. */
  function Strip(s: string, ws: char -> bool): (r: string)
    ensures Stripped(r, ws)
    ensures |r| <= |s|
    ensures r == [] <==> AllSpace(s, ws)
    ensures r != [] ==> Contains(s, r)
    ensures forall c :: c in r ==> c in s
  {
    var t := TrimStart(s, ws);
    var r := TrimEnd(t, ws);
    StripFacts(s, t, r, ws);
    r
  }

  lemma StripFacts(s: string, t: string, r: string, ws: char -> bool)
    requires t == TrimStart(s, ws) && r == TrimEnd(t, ws)
    ensures Stripped(r, ws)
    ensures r == [] <==> AllSpace(s, ws)
    ensures r != [] ==> Contains(s, r)
  {
    if r == [] {
      StripEmpty(s, t, r, ws);
    } else {
      StripNonEmpty(s, t, r, ws);
    }
  }

  lemma StripEmpty(s: string, t: string, r: string, ws: char -> bool)
    requires t == TrimStart(s, ws) && r == TrimEnd(t, ws)
    requires r == []
    ensures AllSpace(s, ws)
  {
    var k := |s| - |t|;
    assert t[|r|..] == t;
    assert t == [];
    assert s[..k] == s;
  }

  lemma StripNonEmpty(s: string, t: string, r: string, ws: char -> bool)
    requires t == TrimStart(s, ws) && r == TrimEnd(t, ws)
    requires r != []
    ensures !AllSpace(s, ws) && Stripped(r, ws) && Contains(s, r)
  {
    var k := |s| - |t|;
    assert r[0] == t[0] == s[k];
    assert s[k..k + |r|] == r;
    assert InfixAt(s, r, k);
  }

  function PyStrip(s: string): (r: string)
    ensures Stripped(r, PySpace)
  {
    Strip(s, PySpace)
  }

  function JsTrim(s: string): (r: string)
    ensures Stripped(r, JsSpace)
  {
    Strip(s, JsSpace)
  }

  lemma StripStripped(s: string, ws: char -> bool)
    requires Stripped(s, ws)
    ensures Strip(s, ws) == s
  {
  }

  lemma {:induction false} StripIdempotent(s: string, ws: char -> bool)
    ensures Strip(Strip(s, ws), ws) == Strip(s, ws)
  {
    StripStripped(Strip(s, ws), ws);
  }

  /** Stripping removes exactly the whitespace padding around a stripped, non-empty core. */
  lemma StripPadded(a: string, x: string, b: string, ws: char -> bool)
    requires AllSpace(a, ws) && AllSpace(b, ws) && x != [] && Stripped(x, ws)
    ensures Strip(a + x + b, ws) == x
  {
    var s := a + x + b;
    assert s == a + (x + b);
    TrimStartPadded(a, x + b, ws);
    TrimEndPadded(x, b, ws);
    assert TrimEnd(TrimStart(s, ws), ws) == x;
  }

  lemma {:induction false} TrimStartPadded(a: string, y: string, ws: char -> bool)
    requires AllSpace(a, ws) && y != [] && !ws(y[0])
    ensures TrimStart(a + y, ws) == y
  {
    if a != [] {
      assert (a + y)[1..] == a[1..] + y;
      TrimStartPadded(a[1..], y, ws);
    } else {
      assert a + y == y;
    }
  }

  lemma {:induction false} TrimEndPadded(y: string, b: string, ws: char -> bool)
    requires AllSpace(b, ws) && y != [] && !ws(y[|y| - 1])
    ensures TrimEnd(y + b, ws) == y
  {
    if b != [] {
      assert (y + b)[..|y + b| - 1] == y + b[..|b| - 1];
      TrimEndPadded(y, b[..|b| - 1], ws);
    } else {
      assert y + b == y;
    }
  }

  lemma StripAfterSpace(c: char, s: string, ws: char -> bool)
    requires ws(c) && s != [] && Stripped(s, ws)
    ensures Strip([c] + s, ws) == s
  {
    assert TrimStart([c] + s, ws) == TrimStart(s, ws) by {
      assert ([c] + s)[1..] == s;
    }
  }

  /** `xs` joined with `sep` between consecutive elements (Python `sep.join`, JavaScript `join`). */
  function Join(xs: seq<string>, sep: string): string
  {
    if xs == [] then [] else if |xs| == 1 then xs[0] else xs[0] + sep + Join(xs[1..], sep)
  }

  /**
   * Splits `s` at every occurrence of `sep`; both Python's `str.split(',')` and
   * JavaScript's `split(',')` behave this way, and both give `['']` for the empty string.
   */
  function Split(s: string, sep: char): (r: seq<string>)
    ensures |r| >= 1
    ensures forall i :: 0 <= i < |r| ==> sep !in r[i]
    ensures Join(r, [sep]) == s
  {
    if s == [] then [[]]
    else if s[0] == sep then
      var rest := Split(s[1..], sep);
      assert [s[0]] + s[1..] == s;
      [[]] + rest
    else
      var rest := Split(s[1..], sep);
      var r := [[s[0]] + rest[0]] + rest[1..];
      assert [s[0]] + s[1..] == s;
      assert r[1..] == rest[1..];
      r
  }

  lemma {:induction false} SplitNoSep(x: string, sep: char)
    requires sep !in x
    ensures Split(x, sep) == [x]
  {
    if x != [] {
      SplitNoSep(x[1..], sep);
      assert [x[0]] + x[1..] == x;
    }
  }

  lemma {:induction false} SplitPrefix(x: string, sep: char, rest: string)
    requires sep !in x
    ensures Split(x + [sep] + rest, sep) == [x] + Split(rest, sep)
  {
    if x == [] {
      assert ([sep] + rest)[1..] == rest;
    } else {
      var s := x + [sep] + rest;
      assert s[1..] == x[1..] + [sep] + rest;
      SplitPrefix(x[1..], sep, rest);
      assert [x[0]] + x[1..] == x;
    }
  }

  /** Joining pieces that do not contain the separator and splitting again gives the pieces back. */
  lemma {:induction false} SplitJoin(xs: seq<string>, sep: char)
    requires |xs| >= 1
    requires forall i :: 0 <= i < |xs| ==> sep !in xs[i]
    ensures Split(Join(xs, [sep]), sep) == xs
  {
    if |xs| == 1 {
      SplitNoSep(xs[0], sep);
    } else {
      SplitJoin(xs[1..], sep);
      SplitPrefix(xs[0], sep, Join(xs[1..], [sep]));
      assert [xs[0]] + xs[1..] == xs;
    }
  }

  /** Strips every element (`[x.strip() for x in xs]`, `xs.map(x => x.trim())`). */
  function StripAll(xs: seq<string>, ws: char -> bool): (r: seq<string>)
    ensures |r| == |xs|
    ensures forall i :: 0 <= i < |xs| ==> r[i] == Strip(xs[i], ws)
  {
    if xs == [] then [] else [Strip(xs[0], ws)] + StripAll(xs[1..], ws)
  }

  /** Drops the empty strings and keeps the rest in order (`[x for x in xs if x]`). */
  function NonEmpty(xs: seq<string>): (r: seq<string>)
    ensures |r| <= |xs|
    ensures forall i :: 0 <= i < |r| ==> r[i] != [] && r[i] in xs
    ensures forall x :: x in xs && x != [] ==> x in r
  {
    if xs == [] then []
    else if xs[0] == [] then NonEmpty(xs[1..])
    else [xs[0]] + NonEmpty(xs[1..])
  }

  /** The non-empty elements of one more element of `xs`, after a fixed prefix. */
  lemma NonEmptyStep(seen: seq<string>, xs: seq<string>, k: nat)
    requires k < |xs|
    ensures seen + NonEmpty(xs[..k + 1]) == seen + NonEmpty(xs[..k]) + (if xs[k] != [] then [xs[k]] else [])
  {
    assert xs[..k + 1] == xs[..k] + [xs[k]];
    NonEmptySnoc(xs[..k], xs[k]);
  }

  lemma {:induction false} NonEmptySnoc(xs: seq<string>, x: string)
    ensures NonEmpty(xs + [x]) == NonEmpty(xs) + (if x != [] then [x] else [])
  {
    if xs != [] {
      NonEmptySnoc(xs[1..], x);
      assert (xs + [x])[1..] == xs[1..] + [x];
    }
  }

  /** Keeps the strings that are not blank for `ws`, unchanged, in order. */
  function KeepNonBlank(xs: seq<string>, ws: char -> bool): (r: seq<string>)
    ensures |r| <= |xs|
    ensures forall i :: 0 <= i < |r| ==> !AllSpace(r[i], ws) && r[i] in xs
  {
    if xs == [] then []
    else if AllSpace(xs[0], ws) then KeepNonBlank(xs[1..], ws)
    else [xs[0]] + KeepNonBlank(xs[1..], ws)
  }

  lemma {:induction false} KeepNonBlankId(xs: seq<string>, ws: char -> bool)
    requires forall i :: 0 <= i < |xs| ==> Strip(xs[i], ws) != []
    ensures KeepNonBlank(xs, ws) == xs
  {
    if xs != [] {
      KeepNonBlankId(xs[1..], ws);
    }
  }

  lemma {:induction false} NonEmptyId(xs: seq<string>)
    requires forall i :: 0 <= i < |xs| ==> xs[i] != []
    ensures NonEmpty(xs) == xs
  {
    if xs != [] {
      NonEmptyId(xs[1..]);
    }
  }

  lemma StripAllId(xs: seq<string>, ws: char -> bool)
    requires forall i :: 0 <= i < |xs| ==> Stripped(xs[i], ws)
    ensures StripAll(xs, ws) == xs
  {
    var r := StripAll(xs, ws);
    forall i | 0 <= i < |xs| ensures r[i] == xs[i] {
      StripStripped(xs[i], ws);
    }
  }

  /** Stripping then dropping empties is the same as dropping blanks then stripping. */
  lemma {:induction false} NonEmptyStripAll(xs: seq<string>, ws: char -> bool)
    ensures NonEmpty(StripAll(xs, ws)) == StripAll(KeepNonBlank(xs, ws), ws)
  {
    if xs != [] {
      NonEmptyStripAll(xs[1..], ws);
      assert StripAll(xs, ws)[1..] == StripAll(xs[1..], ws);
    }
  }

  /** Joining is empty exactly when every piece is empty and the separator never appears. */
  lemma {:induction false} JoinEmpty(xs: seq<string>, sep: string)
    requires sep != []
    ensures Join(xs, sep) == [] <==> (|xs| <= 1 && forall i :: 0 <= i < |xs| ==> xs[i] == [])
  {
  }

  predicate NoDup<T(==)>(xs: seq<T>)
  {
    forall i, j :: 0 <= i < j < |xs| ==> xs[i] != xs[j]
  }

  /** Keeps the first occurrence of every element, in order (Python `list(dict.fromkeys(xs))`). */
  function Dedupe(xs: seq<string>): (r: seq<string>)
    ensures NoDup(r)
    ensures forall x :: x in r <==> x in xs
    ensures |r| <= |xs|
  {
    if xs == [] then []
    else
      var d := Dedupe(xs[..|xs| - 1]);
      var last := xs[|xs| - 1];
      assert forall x :: x in xs <==> x in xs[..|xs| - 1] || x == last by {
        assert xs == xs[..|xs| - 1] + [last];
      }
      if last in d then d else d + [last]
  }

  /** Adding one element at the end appends it to the de-duplicated list unless it was seen before. */
  lemma DedupeSnoc(xs: seq<string>, x: string)
    ensures Dedupe(xs + [x]) == if x in Dedupe(xs) then Dedupe(xs) else Dedupe(xs) + [x]
  {
    assert (xs + [x])[..|xs|] == xs;
  }

  lemma {:induction false} DedupeNoDup(xs: seq<string>)
    requires NoDup(xs)
    ensures Dedupe(xs) == xs
  {
    if xs != [] {
      var init := xs[..|xs| - 1];
      DedupeNoDup(init);
      assert xs[|xs| - 1] !in init;
      assert init + [xs[|xs| - 1]] == xs;
    }
  }

  /** `sub` occurs in `s` as a contiguous piece (Python `in`, JavaScript `includes`, SQL `LIKE '%sub%'`). */
  predicate Contains(s: string, sub: string)
  {
    exists i :: 0 <= i <= |s| - |sub| && InfixAt(s, sub, i)
  }

  predicate InfixAt(s: string, sub: string, i: int)
  {
    0 <= i <= |s| - |sub| && s[i..i + |sub|] == sub
  }

  function LowerChar(c: char): char
  {
    if 'A' <= c <= 'Z' then (c as int + 32) as char else c
  }

  /** Lower-cases the letters A to Z and leaves every other character alone. */
  function LowerAscii(s: string): (r: string)
    ensures |r| == |s|
    ensures forall i :: 0 <= i < |s| ==> r[i] == LowerChar(s[i])
  {
    if s == [] then [] else [LowerChar(s[0])] + LowerAscii(s[1..])
  }

  /** Decimal rendering of an integer, as Python's `str` and JavaScript template strings give it. */
  function IntToString(n: int): string
  {
    if n < 0 then "-" + NatToString(-n) else NatToString(n)
  }

  function NatToString(n: nat): (r: string)
    ensures r != []
    decreases n
  {
    var d := ['0' + (n % 10) as char];
    if n < 10 then d else NatToString(n / 10) + d
  }

}
