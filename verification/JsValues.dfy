/**
 * JavaScript's `||` defaulting on possibly absent numbers and strings, and
 * `Math.ceil(a / b)` on integers, as the front end uses them for page numbers,
 * page counts and error messages.
 */
module JsValues {
  import opened Wrappers

  /**
   * `n || d` for a number that may be undefined: undefined and `0` are falsy,
   * every other integer (negative ones included) is kept.
   */
  function NumOr(n: Option<int>, d: int): (r: int)
    ensures n.Some? && n.value != 0 ==> r == n.value
    ensures n.None? || n.value == 0 ==> r == d
  {
    match n
    case Some(v) => if v != 0 then v else d
    case None => d
  }

  /** `s || d` for a string that may be undefined or null: both and `''` are falsy. */
  function StrOr(s: Option<string>, d: string): (r: string)
    ensures s.Some? && s.value != [] ==> r == s.value
    ensures s.None? || s.value == [] ==> r == d
  {
    if s.Some? && s.value != [] then s.value else d
  }

  /** A defaulted value is never falsy when the default is not. */
  lemma NumOrNonZero(n: Option<int>, d: int)
    requires d != 0
    ensures NumOr(n, d) != 0
  {
  }

  /**
   * `Math.ceil(a / b)` for integers: the least `q` with `a / b <= q`, so
   * `q - 1 < a / b <= q`, multiplied out by `b` with the sign of `b` in mind.
   */
  function CeilDiv(a: int, b: int): (q: int)
    requires b != 0
    ensures b > 0 ==> (q - 1) * b < a <= q * b
    ensures b < 0 ==> q * b <= a < (q - 1) * b
  {
    if b > 0 then
      var m := (-a) / b;
      assert -a == m * b + (-a) % b;
      -m
    else
      var m := a / (-b);
      assert a == m * (-b) + a % (-b);
      -m
  }

  /** With a positive divisor, no items means no pages and some items means at least one page. */
  lemma CeilDivPages(a: int, b: int)
    requires a >= 0 && b > 0
    ensures CeilDiv(a, b) >= 0
    ensures CeilDiv(a, b) == 0 <==> a == 0
  {
    var q := CeilDiv(a, b);
    if q == 0 {
      assert a <= 0;
    }
    if a == 0 {
      assert (q - 1) * b < 0;
      assert q - 1 < 0;
    }
  }
}
