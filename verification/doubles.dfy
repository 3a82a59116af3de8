/** The double arithmetic that TCP_C/cJSON.c reads numbers with: section 4.3 of IEEE 754-2008 makes the result of a sum
    or product the exact one, rounded. Which way it is rounded is left open. */
module Doubles {
  import opened Basics

  /** A double is a real number, an infinity or not a number. The two zeros are one here. */
  datatype Double = Finite(r: real) | NotFinite

  /** How results are rounded, what pow(10.0, e) gives, and what int a double too large for one is converted to, which C
      leaves undefined. */
  datatype Arith = Arith(round: real -> Double, pow10: int -> Double, wild: Double -> int)

  const TWO53: int := 0x20_0000_0000_0000

  function Round(fp: Arith, x: real): (d: Double) {
    fp.round(x)
  }

  /** pow(10.0, e) */
  function Ten(fp: Arith, e: int): (d: Double) {
    fp.pow10(e)
  }

  /** Once infinite or not a number, neither a sum nor a product is finite again. */
  function Add(fp: Arith, x: Double, y: Double): (z: Double) {
    if x.Finite? && y.Finite? then Round(fp, x.r + y.r) else NotFinite
  }

  function Times(x: real, y: real): (z: real) {
    x * y
  }

  function Mul(fp: Arith, x: Double, y: Double): (z: Double) {
    if x.Finite? && y.Finite? then Round(fp, Times(x.r, y.r)) else NotFinite
  }

  /** (int)d: towards zero. */
  function ToInt(fp: Arith, d: Double): (n: int)
    ensures d.Finite? && d.r == d.r.Floor as real && INT_MIN <= d.r.Floor <= INT_MAX ==> n == d.r.Floor
  {
    if d.Finite? && INT_MIN as real - 1.0 < d.r < INT_MAX as real + 1.0 then
      if d.r < 0.0 then 0 - (0.0 - d.r).Floor else d.r.Floor
    else fp.wild(d)
  }

  /** A double that an int can hold is cut off at the point. */
  lemma ToIntCuts(fp: Arith, d: Double)
    requires d.Finite? && INT_MIN as real - 1.0 < d.r < INT_MAX as real + 1.0
    ensures var n := ToInt(fp, d);
            && INT_MIN <= n <= INT_MAX && (d.r >= 0.0 ==> 0 <= n && n as real <= d.r < n as real + 1.0)
            && (d.r <= 0.0 ==> n <= 0 && n as real - 1.0 < d.r <= n as real)
  {
  }

  function Power10(e: int): (p: real)
    ensures p > 0.0
    decreases if e < 0 then -e else e
  {
    if e == 0 then 1.0 else if e > 0 then 10.0 * Power10(e - 1) else Power10(e + 1) / 10.0
  }

  /** An integer of at most 53 bits. */
  predicate Small(x: real) {
    x == x.Floor as real && -TWO53 <= x.Floor <= TWO53
  }

  /** The integers of 53 bits are doubles, and so are the powers of ten up to the 22nd, which pow gives. */
  ghost predicate Exact(fp: Arith) {
    && (forall x :: Small(x) ==> Round(fp, x) == Finite(x))
    && (forall e :: 0 <= e <= 22 ==> Ten(fp, e) == Finite(Power10(e)))
  }

  lemma ExactInteger(fp: Arith, n: int)
    requires Exact(fp) && -TWO53 <= n <= TWO53
    ensures Round(fp, n as real) == Finite(n as real)
  {
  }

  lemma ExactPower(fp: Arith, e: int)
    requires Exact(fp) && 0 <= e <= 22
    ensures Ten(fp, e) == Finite(Power10(e))
  {
  }

  /** n * 10.0 + d, where the result has at most 53 bits. */
  lemma ExactDigit(fp: Arith, n: nat, d: nat)
    requires Exact(fp) && n * 10 + d <= TWO53
    ensures Add(fp, Mul(fp, Finite(n as real), Finite(10.0)), Finite(d as real)) == Finite((n * 10 + d) as real)
  {
    ExactInteger(fp, n * 10);
    ExactInteger(fp, n * 10 + d);
    assert n as real * 10.0 == (n * 10) as real;
  }
}
