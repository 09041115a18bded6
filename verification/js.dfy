/**
 * The few JavaScript value semantics the presence logic relies on:
 * truthiness (used by `&&`, `?:`, `!` and `filter`) and `Math.round`.
 */
module Js {
  import opened Wrappers

  /** A JSON/JavaScript value as far as truthiness is concerned. Numbers are kept as reals. */
  datatype JsValue =
    | Undefined
    | Null
    | Bool(b: bool)
    | Num(x: real)
    | NaN
    | Str(s: string)
    | Object

  /** JavaScript truthiness: false, 0, NaN, "", null and undefined are falsy; everything else is truthy */
  predicate Truthy(v: JsValue) {
    match v
    case Undefined => false
    case Null => false
    case Bool(b) => b
    case Num(x) => x != 0.0
    case NaN => false
    case Str(s) => s != ""
    case Object => true
  }

  /** An optional string field of a JSON record: absent reads as undefined */
  function OfString(o: Option<string>): JsValue {
    match o
    case None => Undefined
    case Some(s) => Str(s)
  }

  /** An optional integer field of a JSON record: absent reads as undefined */
  function OfInt(o: Option<int>): JsValue {
    match o
    case None => Undefined
    case Some(n) => Num(n as real)
  }

  /**
   * `Math.round(n / d)` for integers n and a positive divisor d: the integer nearest to n/d,
   * halves rounded up (towards +infinity), i.e. floor(n/d + 1/2).
   */
  function RoundDiv(n: int, d: int): (r: int)
    requires d > 0
    ensures 2 * d * r - d <= 2 * n < 2 * d * r + d
  {
    (2 * n + d) / (2 * d)
  }

  /** A positive factor can be cancelled from a strict inequality */
  lemma MulCancel(d: int, a: int, b: int)
    requires d > 0
    ensures d * a < d * b ==> a < b
  {
    assert d * b - d * a == d * (b - a);
  }

  /** The bound in RoundDiv's contract pins its result down: no other integer is within half of n/d that way */
  lemma RoundDivUnique(n: int, d: int, k: int)
    requires d > 0
    requires 2 * d * k - d <= 2 * n < 2 * d * k + d
    ensures k == RoundDiv(n, d)
  {
    var r := RoundDiv(n, d);
    assert 2 * d * (k + 1) == 2 * d * k + 2 * d;
    assert 2 * d * (r + 1) == 2 * d * r + 2 * d;
    MulCancel(2 * d, k, r + 1);
    MulCancel(2 * d, r, k + 1);
  }

  /** Rounding n/d after adding a multiple of the divisor: Math.round(x + m) == Math.round(x) + m for integer m */
  lemma RoundDivShift(n: int, d: int, m: int)
    requires d > 0
    ensures RoundDiv(n + d * m, d) == RoundDiv(n, d) + m
  {
    var r := RoundDiv(n, d);
    assert 2 * d * (r + m) == 2 * d * r + 2 * d * m;
    RoundDivUnique(n + d * m, d, r + m);
  }
}
