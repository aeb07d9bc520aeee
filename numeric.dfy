/** Arithmetic helpers shared by the models: JavaScript's Math.min, Math.max,
    the Math.max(lo, Math.min(v, hi)) clamp idiom, Math.round, parseInt and the truthiness of a number, over reals. */
module Numeric {
  import opened Wrappers

  function Min(a: real, b: real): (m: real)
    ensures m <= a && m <= b && (m == a || m == b)
  {
    if a <= b then a else b
  }

  function Max(a: real, b: real): (m: real)
    ensures m >= a && m >= b && (m == a || m == b)
  {
    if a >= b then a else b
  }

  /** Math.max(lo, Math.min(v, hi)). When lo > hi the lower bound wins. */
  function Clamp(v: real, lo: real, hi: real): (c: real)
    ensures c >= lo
    ensures lo <= hi ==> c <= hi
    ensures lo <= v <= hi ==> c == v
    ensures v <= hi ==> c == Max(lo, v)
    ensures hi <= v ==> c == Max(lo, hi)
  {
    Max(lo, Min(v, hi))
  }

  /** Math.round: the nearest integer, halves rounded up. */
  function Round(x: real): (n: int)
    ensures x - 0.5 < n as real <= x + 0.5
  {
    (x + 0.5).Floor
  }

  /** Rounding is determined by the half-open window it promises. */
  lemma RoundUnique(x: real, n: int)
    requires x - 0.5 < n as real <= x + 0.5
    ensures Round(x) == n
  {
  }

  /** Rounding an integer value gives that integer back. */
  lemma RoundOfInteger(k: int)
    ensures Round(k as real) == k
  {
    RoundUnique(k as real, k);
  }

  /** JavaScript truthiness of a number: present (not NaN) and other than zero. */
  predicate Truthy<T(==)>(x: Option<T>, zero: T)
  {
    x.Some? && x.value != zero
  }

  /** ParseInt on a field that spells the number x: the digits before the point
      (truncation toward zero). A field that spells no number is None. */
  function ParseInt(x: Option<real>): (n: Option<int>)
    ensures n.Some? <==> x.Some?
    ensures x.Some? && x.value >= 0.0 ==> 0 <= n.value && n.value as real <= x.value < n.value as real + 1.0
    ensures x.Some? && x.value < 0.0 ==> n.value <= 0 && n.value as real - 1.0 < x.value <= n.value as real
  {
    match x
    case None => None
    case Some(v) => if v >= 0.0 then Some(v.Floor) else Some(-((-v).Floor))
  }
}
