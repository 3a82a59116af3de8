/** What parse_number makes of a decimal literal: sign, integer digits, fraction and exponent. */
module JsonNumber {
  import opened Basics
  import opened Doubles
  import opened JsonText

  predicate AllDigits(ds: Text) {
    forall i :: 0 <= i < |ds| ==> IsDigit(ds[i])
  }

  /** The number that a run of digits denotes. */
  function Value(ds: Text): (n: nat)
    requires AllDigits(ds)
    decreases |ds|
  {
    if ds == [] then 0 else Value(ds[..|ds| - 1]) * 10 + (ds[|ds| - 1] - 48)
  }

  /** The number that the digits of n and then ds denote. */
  function Numeral(n: nat, ds: Text): (m: nat)
    requires AllDigits(ds)
    decreases |ds|
  {
    if ds == [] then n else Numeral(n, ds[..|ds| - 1]) * 10 + (ds[|ds| - 1] - 48)
  }

  lemma {:induction false} NumeralOfDigits(n: nat)
    ensures Numeral(0, Digits(n)) == n
  {
    if n < 10 {
      assert [48 + n][..0] == [];
      assert Digits(n) == [48 + n];
    } else {
      NumeralOfDigits(n / 10);
      var ds := Digits(n);
      assert ds[..|ds| - 1] == Digits(n / 10);
    }
  }

  lemma {:induction false} PowerAdd(a: int, b: int)
    ensures Power10(a + b) == Power10(a) * Power10(b)
    decreases if b < 0 then -b else b
  {
    hide Power10;
    PowerUp(0);
    if b > 0 {
      PowerAdd(a, b - 1);
      PowerUp(a + b - 1);
      PowerUp(b - 1);
      Tenfold(Power10(a), Power10(b - 1));
      assert a + b - 1 == a + (b - 1);
    } else if b < 0 {
      PowerAdd(a, b + 1);
      PowerUp(a + b);
      PowerUp(b);
      Tenfold(Power10(a), Power10(b));
      assert a + b + 1 == a + (b + 1);
    }
  }

  lemma PowerUp(e: int)
    ensures Power10(e) > 0.0 && Power10(0) == 1.0 && Power10(e + 1) == 10.0 * Power10(e)
  {
  }

  lemma Tenfold(x: real, y: real)
    ensures x * (10.0 * y) == 10.0 * (x * y)
  {
  }

  lemma {:induction false} NumeralReal(n: nat, ds: Text)
    requires AllDigits(ds)
    ensures Numeral(n, ds) as real == Times(n as real, Power10(|ds|)) + Value(ds) as real
    decreases |ds|
  {
    hide Power10, Times;
    if ds == [] {
      PowerUp(0);
      TimesOne(n as real);
    } else {
      var k := |ds| - 1;
      NumeralReal(n, ds[..k]);
      PowerUp(k);
      AppendReal(n as real, Power10(k), Numeral(n, ds[..k]), Value(ds[..k]), ds[k] - 48);
    }
  }

  lemma TimesOne(x: real)
    ensures Times(x, 1.0) == x
  {
  }

  lemma AppendReal(n: real, p: real, m: nat, v: nat, d: nat)
    requires m as real == Times(n, p) + v as real
    ensures (m * 10 + d) as real == Times(n, 10.0 * p) + (v * 10 + d) as real
  {
    Tenfold(n, p);
    assert (m * 10 + d) as real == m as real * 10.0 + d as real;
    assert (v * 10 + d) as real == v as real * 10.0 + d as real;
  }

  /** The digits read: their number, if no more than 53 bits are needed for it, and in any case how many they are. */
  lemma {:induction false} TakeValue(fp: Arith, ds: Text, n: nat)
    requires AllDigits(ds) && Exact(fp) && Numeral(n, ds) <= TWO53
    ensures TakeDigits(fp, ds, Finite(n as real), 0) == (Finite(Numeral(n, ds) as real), |ds|, [])
    decreases |ds|
  {
    hide TakeDigits, Exact;
    if ds == [] {
      TakeNone(fp, Finite(n as real), 0);
    } else {
      var k := |ds| - 1;
      TakeValue(fp, ds[..k], n);
      assert ds == ds[..k] + [ds[k]];
      TakeDigitsConcat(fp, ds[..k], [ds[k]], Finite(n as real), 0);
      TakeOne(fp, Numeral(n, ds[..k]), ds[k] - 48, k);
      assert [48 + (ds[k] - 48)] == [ds[k]];
    }
  }

  lemma TakeNone(fp: Arith, n: Double, count: nat)
    ensures TakeDigits(fp, [], n, count) == (n, count, [])
  {
  }

  lemma {:induction false} TakeCount(fp: Arith, ds: Text, n: Double, count: nat, rest: Text)
    requires AllDigits(ds) && !IsDigit(At(rest))
    ensures var r := TakeDigits(fp, ds + rest, n, count); r.1 == count + |ds| && r.2 == rest
    decreases |ds|
  {
    if ds == [] {
      assert ds + rest == rest;
    } else {
      assert (ds + rest)[1..] == ds[1..] + rest;
      TakeCount(fp, ds[1..], Add(fp, Mul(fp, n, Finite(10.0)), Finite((ds[0] - 48) as real)), count + 1, rest);
    }
  }

  lemma TakeRun(fp: Arith, ds: Text, n: nat, rest: Text)
    requires AllDigits(ds) && !IsDigit(At(rest)) && Exact(fp) && Numeral(n, ds) <= TWO53
    ensures TakeDigits(fp, ds + rest, Finite(n as real), 0) == (Finite(Numeral(n, ds) as real), |ds|, rest)
  {
    hide Numeral, Exact;
    TakeValue(fp, ds, n);
    TakeDigitsConcat(fp, ds, rest, Finite(n as real), 0);
  }

  lemma {:induction false} TakeExponentConcat(a: Text, b: Text, e: nat)
    requires AllDigits(a)
    ensures TakeExponent(a + b, e) == TakeExponent(b, TakeExponent(a, e).0)
    decreases |a|
  {
    if a == [] {
      assert a + b == b;
    } else {
      assert (a + b)[1..] == a[1..] + b;
      TakeExponentConcat(a[1..], b, e * 10 + (a[0] - 48));
    }
  }

  lemma ExponentOf(ds: Text, rest: Text)
    requires AllDigits(ds) && !IsDigit(At(rest))
    ensures TakeExponent(ds + rest, 0) == (Value(ds), rest)
  {
    ExponentValue(ds);
    TakeExponentConcat(ds, rest, 0);
  }

  lemma {:induction false} ExponentValue(ds: Text)
    requires AllDigits(ds)
    ensures TakeExponent(ds, 0).0 == Value(ds)
    decreases |ds|
  {
    if ds != [] {
      var k := |ds| - 1;
      ExponentValue(ds[..k]);
      assert ds == ds[..k] + [ds[k]];
      TakeExponentConcat(ds[..k], [ds[k]], 0);
      assert [ds[k]][1..] == [];
    }
  }

  // ---------- literals

  /** The letter, a sign or none, and a run of digits, which the code lets be empty or start with zeros. */
  datatype Exponent = NoExponent | Plain(e: byte, ds: Text) | Plus(e: byte, ds: Text) | Minus(e: byte, ds: Text)

  predicate GoodExponent(e: Exponent) {
    e.NoExponent? || ((e.e == 101 || e.e == 69) && AllDigits(e.ds))
  }

  function ExponentText(e: Exponent): (t: Text) {
    match e
    case NoExponent => []
    case Plain(c, ds) => [c] + ds
    case Plus(c, ds) => [c, 43] + ds
    case Minus(c, ds) => [c, MINUS] + ds
  }

  function ExponentSize(e: Exponent): (n: nat)
    requires GoodExponent(e)
  {
    if e.NoExponent? then 0 else Value(e.ds)
  }

  function ExponentNumber(e: Exponent): (n: int)
    requires GoodExponent(e)
  {
    if e.Minus? then 0 - ExponentSize(e) else ExponentSize(e)
  }

  function FractionText(frac: Text): (t: Text) {
    if frac == [] then [] else [46] + frac
  }

  /** What may follow a literal without being taken for a part of it. */
  predicate EndsLiteral(frac: Text, e: Exponent, rest: Text) {
    EndsExponent(e, rest) && (e.NoExponent? && frac == [] ==> At(rest) != 46)
  }

  predicate EndsExponent(e: Exponent, rest: Text) {
    && !IsDigit(At(rest))
    && (e.NoExponent? ==> At(rest) != 101 && At(rest) != 69)
    && (e.Plain? && e.ds == [] ==> At(rest) != 43 && At(rest) != MINUS)
  }

  lemma ExponentRead(e: Exponent, rest: Text)
    requires GoodExponent(e) && EndsExponent(e, rest)
    ensures ParseExponent(ExponentText(e) + rest) ==
            if ExponentSize(e) > INT_MAX then Undefined else Ok(ExponentNumber(e), rest)
  {
    hide TakeExponent, ParseExponent, Value;
    var t := ExponentText(e) + rest;
    if e.NoExponent? {
      assert t == rest;
      ExponentStep(t);
    } else {
      ExponentOf(e.ds, rest);
      ExponentStep(t);
      if e.Plain? {
        assert t[1..] == e.ds + rest;
      } else {
        assert t[2..] == e.ds + rest;
      }
    }
  }

  lemma ExponentStep(t: Text)
    ensures At(t) != 101 && At(t) != 69 ==> ParseExponent(t) == Ok(0, t)
    ensures At(t) == 101 || At(t) == 69 ==>
            var sign := At(t[1..]);
            var r := TakeExponent(if sign == 43 || sign == MINUS then t[2..] else t[1..], 0);
            ParseExponent(t) == if r.0 > INT_MAX then Undefined else Ok(if sign == MINUS then 0 - r.0 else r.0, r.1)
  {
    hide TakeExponent;
  }

  function Tail(e: Exponent, rest: Text): (t: Text) {
    ExponentText(e) + rest
  }

  lemma TailStart(frac: Text, e: Exponent, rest: Text)
    requires GoodExponent(e) && EndsLiteral(frac, e, rest)
    ensures !IsDigit(At(Tail(e, rest))) && (frac == [] ==> At(Tail(e, rest)) != 46)
  {
  }

  /** The digits after the point, where there are any. */
  function AfterPoint(fp: Arith, t: Text, n: Double): (r: (Double, nat, Text)) {
    if At(t) == 46 && |t| > 1 && IsDigit(t[1]) then TakeDigits(fp, t[1..], n, 0) else (n, 0, t)
  }

  lemma NoFraction(fp: Arith, n: Double, tail: Text)
    requires At(tail) != 46
    ensures AfterPoint(fp, FractionText([]) + tail, n) == (n, 0, tail)
  {
    assert FractionText([]) + tail == tail;
  }

  lemma SomeFraction(fp: Arith, frac: Text, n: Double, tail: Text)
    requires AllDigits(frac) && frac != []
    ensures AfterPoint(fp, FractionText(frac) + tail, n) == TakeDigits(fp, frac + tail, n, 0)
  {
    hide TakeDigits;
    var t := FractionText(frac) + tail;
    assert t[1..] == frac + tail;
  }

  lemma FractionRead(fp: Arith, frac: Text, n: Double, tail: Text)
    requires AllDigits(frac) && !IsDigit(At(tail)) && (frac == [] ==> At(tail) != 46)
    ensures var r := AfterPoint(fp, FractionText(frac) + tail, n); r.1 == |frac| && r.2 == tail
  {
    hide TakeDigits, AfterPoint, FractionText;
    if frac == [] {
      NoFraction(fp, n, tail);
    } else {
      SomeFraction(fp, frac, n, tail);
      TakeCount(fp, frac, n, 0, tail);
    }
  }

  lemma FractionExact(fp: Arith, frac: Text, i: nat, tail: Text)
    requires AllDigits(frac) && !IsDigit(At(tail)) && (frac == [] ==> At(tail) != 46) && Exact(fp)
    requires Numeral(i, frac) <= TWO53
    ensures AfterPoint(fp, FractionText(frac) + tail, Finite(i as real)).0 == Finite(Numeral(i, frac) as real)
  {
    hide TakeDigits, AfterPoint, Exact, FractionText;
    if frac == [] {
      NoFraction(fp, Finite(i as real), tail);
    } else {
      SomeFraction(fp, frac, Finite(i as real), tail);
      TakeRun(fp, frac, i, tail);
    }
  }

  function BeforePoint(fp: Arith, t: Text): (r: (Double, nat, Text)) {
    var t2 := if At(t) == 48 then t[1..] else t;
    if 49 <= At(t2) <= 57 then TakeDigits(fp, t2, Finite(0.0), 0) else (Finite(0.0), 0, t2)
  }

  lemma IntegerRead(fp: Arith, i: nat, tail: Text)
    requires !IsDigit(At(tail))
    ensures BeforePoint(fp, Digits(i) + tail).2 == tail
    ensures Exact(fp) && i <= TWO53 ==> BeforePoint(fp, Digits(i) + tail).0 == Finite(i as real)
  {
    hide TakeDigits, Digits, Exact;
    DigitsStart(i);
    var t := Digits(i) + tail;
    if i == 0 {
      ZeroDigits();
      assert t[1..] == tail;
    } else {
      TakeCount(fp, Digits(i), Finite(0.0), 0, tail);
      NumeralOfDigits(i);
      if Exact(fp) && i <= TWO53 {
        TakeRun(fp, Digits(i), 0, tail);
      }
    }
  }

  function LiteralText(neg: bool, i: nat, frac: Text, e: Exponent): (t: Text) {
    (if neg then [MINUS] else []) + Digits(i) + FractionText(frac) + ExponentText(e)
  }

  /** The number that a literal denotes. */
  function LiteralValue(neg: bool, i: nat, frac: Text, e: Exponent): (x: real)
    requires AllDigits(frac) && GoodExponent(e)
  {
    (if neg then -1.0 else 1.0) * (i as real + Value(frac) as real / Power10(|frac|)) * Power10(ExponentNumber(e))
  }

  /** A literal, and a text after it that is not taken for a part of it. */
  predicate Literal(frac: Text, e: Exponent, rest: Text) {
    AllDigits(frac) && GoodExponent(e) && EndsLiteral(frac, e, rest)
  }

  /** The mantissa that parse_number gathers from the digits before and after the point. */
  function Mantissa(fp: Arith, i: nat, frac: Text, e: Exponent, rest: Text): (m: Double) {
    var n := BeforePoint(fp, Digits(i) + (FractionText(frac) + Tail(e, rest)));
    AfterPoint(fp, n.2, n.0).0
  }

  /** parse_number's parts, in the order in which it reads them. */
  lemma NumberParts(fp: Arith, t: Text)
    ensures var t1 := if At(t) == MINUS then t[1..] else t;
            var n := BeforePoint(fp, t1);
            var m := AfterPoint(fp, n.2, n.0);
            ParseNumber(fp, t) ==
              match ParseExponent(m.2)
              case Ok(e, rest) =>
                Ok(Mul(fp, Mul(fp, if At(t) == MINUS then Finite(-1.0) else Finite(1.0), m.0), Ten(fp, e - m.1)), rest)
              case _ => Undefined
  {
    hide TakeDigits, ParseExponent, Mul;
  }

  lemma LiteralSplit(neg: bool, i: nat, frac: Text, e: Exponent, rest: Text)
    ensures var t := LiteralText(neg, i, frac, e) + rest;
            && (At(t) == MINUS <==> neg)
            && (if neg then t[1..] else t) == Digits(i) + (FractionText(frac) + Tail(e, rest))
  {
    hide ExponentText, FractionText, Digits;
    DigitsStart(i);
  }

  /** A literal is read to its end, and in the steps of the code; an exponent that is no int overflows. */
  lemma LiteralRead(fp: Arith, neg: bool, i: nat, frac: Text, e: Exponent, rest: Text)
    requires Literal(frac, e, rest)
    ensures ParseNumber(fp, LiteralText(neg, i, frac, e) + rest) ==
            if ExponentSize(e) > INT_MAX then Undefined
            else Ok(Mul(fp, Mul(fp, Finite(if neg then -1.0 else 1.0), Mantissa(fp, i, frac, e, rest)),
                        Ten(fp, ExponentNumber(e) - |frac|)), rest)
  {
    hide LiteralText, ParseNumber, BeforePoint, AfterPoint, ParseExponent, Digits, FractionText, ExponentText,
      ExponentNumber, Mul;
    LiteralSplit(neg, i, frac, e, rest);
    NumberParts(fp, LiteralText(neg, i, frac, e) + rest);
    TailStart(frac, e, rest);
    PointStart(frac, Tail(e, rest));
    IntegerRead(fp, i, FractionText(frac) + Tail(e, rest));
    var n := BeforePoint(fp, Digits(i) + (FractionText(frac) + Tail(e, rest)));
    FractionRead(fp, frac, n.0, Tail(e, rest));
    ExponentRead(e, rest);
  }

  lemma PointStart(frac: Text, tail: Text)
    requires !IsDigit(At(tail))
    ensures !IsDigit(At(FractionText(frac) + tail))
  {
    if frac == [] {
      assert FractionText(frac) + tail == tail;
    }
  }

  lemma {:induction false} NumeralGrows(i: nat, frac: Text)
    requires AllDigits(frac)
    ensures i <= Numeral(i, frac)
    decreases |frac|
  {
    if frac != [] {
      NumeralGrows(i, frac[..|frac| - 1]);
    }
  }

  lemma MantissaExact(fp: Arith, i: nat, frac: Text, e: Exponent, rest: Text)
    requires Literal(frac, e, rest) && Exact(fp) && Numeral(i, frac) <= TWO53
    ensures Mantissa(fp, i, frac, e, rest) == Finite(Numeral(i, frac) as real)
  {
    hide BeforePoint, AfterPoint, Digits, FractionText, ExponentText, Exact, Numeral;
    TailStart(frac, e, rest);
    PointStart(frac, Tail(e, rest));
    NumeralGrows(i, frac);
    IntegerRead(fp, i, FractionText(frac) + Tail(e, rest));
    FractionExact(fp, frac, i, Tail(e, rest));
  }

  /** The value of a literal is its digits' number times a power of ten. */
  lemma ValueOfLiteral(neg: bool, i: nat, frac: Text, e: Exponent)
    requires AllDigits(frac) && GoodExponent(e)
    ensures LiteralValue(neg, i, frac, e) ==
            Times(Signed(neg, Numeral(i, frac)) as real, Power10(ExponentNumber(e) - |frac|))
  {
    hide Power10, Value, ExponentNumber, Numeral, Signed;
    var x := if neg then -1.0 else 1.0;
    var k, en := |frac|, ExponentNumber(e);
    var v := Value(frac) as real;
    NumeralReal(i, frac);
    SignedReal(neg, Numeral(i, frac));
    Scale(x, i as real, v, k, en);
    assert Signed(neg, Numeral(i, frac)) as real * Power10(en - k) == x * (i as real * Power10(k) + v) * Power10(en - k);
  }

  lemma Scale(s: real, i: real, v: real, k: nat, e: int)
    ensures s * (i * Power10(k) + v) * Power10(e - k) == s * (i + v / Power10(k)) * Power10(e)
  {
    hide Power10;
    PowerUp(k);
    PowerAdd(k, e - k);
    assert k + (e - k) == e;
    ScaleReal(s, i, v, Power10(k), Power10(e - k));
  }

  lemma ScaleReal(s: real, i: real, v: real, p: real, q: real)
    requires p > 0.0
    ensures s * (i * p + v) * q == s * (i + v / p) * (p * q)
  {
    var w := v / p;
    assert w * p == v;
    assert (i + w) * p == i * p + v;
    MulSwap(s, i + w, p, q);
  }

  lemma MulSwap(s: real, x: real, p: real, q: real)
    ensures s * (x * p) * q == s * x * (p * q)
  {
  }

  function Signed(neg: bool, n: nat): (m: int) {
    if neg then 0 - n else n
  }

  /** sign * n * pow(10.0, e) is rounded once. */
  lemma RoundedOnce(fp: Arith, neg: bool, n: nat, e: int)
    requires Exact(fp) && n <= TWO53 && 0 <= e <= 22
    ensures Mul(fp, Mul(fp, Finite(if neg then -1.0 else 1.0), Finite(n as real)), Ten(fp, e)) ==
            Round(fp, Times(Signed(neg, n) as real, Power10(e)))
  {
    hide Power10, Exact;
    var x := if neg then -1.0 else 1.0;
    var m := Signed(neg, n) as real;
    ExactPower(fp, e);
    ExactInteger(fp, Signed(neg, n));
    SignedReal(neg, n);
    assert Times(x, n as real) == m;
  }

  lemma SignedReal(neg: bool, n: nat)
    ensures Signed(neg, n) as real == (if neg then -1.0 else 1.0) * n as real
  {
    assert (0 - n) as real == 0.0 - n as real;
  }

  /** A literal whose digits make an integer of at most 53 bits, to be multiplied by a power of ten from 0 to 22, is read
      as its value correctly rounded: exactly, if its value is a double. */
  lemma LiteralMeaning(fp: Arith, neg: bool, i: nat, frac: Text, e: Exponent, rest: Text)
    requires Literal(frac, e, rest) && Exact(fp) && ExponentSize(e) <= INT_MAX
    requires Numeral(i, frac) <= TWO53 && 0 <= ExponentNumber(e) - |frac| <= 22
    ensures ParseNumber(fp, LiteralText(neg, i, frac, e) + rest) == Ok(Round(fp, LiteralValue(neg, i, frac, e)), rest)
  {
    hide Power10, ParseNumber, LiteralText, LiteralValue, ExponentNumber, Mantissa, Exact, Mul, Signed;
    LiteralRead(fp, neg, i, frac, e, rest);
    MantissaExact(fp, i, frac, e, rest);
    ValueOfLiteral(neg, i, frac, e);
    RoundedOnce(fp, neg, Numeral(i, frac), ExponentNumber(e) - |frac|);
  }

  // ---------- literals that are never read exactly

  function Pow2(j: nat): (p: int)
    ensures p > 0
  {
    if j == 0 then 1 else 2 * Pow2(j - 1)
  }

  function Pow5(k: nat): (p: int)
    ensures p > 0
  {
    if k == 0 then 1 else 5 * Pow5(k - 1)
  }

  /** x is an integer over a power of two, as every finite double is. */
  ghost predicate Dyadic(x: real) {
    exists j: nat :: Integer(Times(x, Pow2(j) as real))
  }

  predicate Integer(x: real) {
    x == x.Floor as real
  }

  ghost predicate Binary(fp: Arith) {
    forall x {:trigger Round(fp, x)} :: Round(fp, x).Finite? ==> Dyadic(Round(fp, x).r)
  }

  lemma {:induction false} PowerInteger(k: nat)
    ensures Power10(k) == (Pow5(k) * Pow2(k)) as real
  {
    if k == 0 {
      PowerUp(0);
    } else {
      PowerInteger(k - 1);
      PowerUp(k - 1);
      TenAsInteger(Pow5(k - 1), Pow2(k - 1));
      assert Power10(k) == 10.0 * Power10(k - 1);
    }
  }

  lemma TenAsInteger(p: int, q: int)
    ensures (5 * p) * (2 * q) == 10 * (p * q) && (10 * (p * q)) as real == 10.0 * (p * q) as real
  {
  }

  lemma HalfOfEven(m: int, p: int, x: int)
    requires m * p == 2 * x && p % 2 == 1
    ensures m % 2 == 0 && m / 2 * p == x
  {
    var q := p / 2;
    assert p == 2 * q + 1;
    assert m * p == 2 * (m * q) + m;
    assert m == 2 * (m / 2);
    assert m * p == 2 * (m / 2 * p);
  }

  /** A power of two takes no part in being a multiple of a power of five. */
  lemma {:induction false} CancelTwos(n: int, j: nat, m: int, p: int) returns (q: int)
    requires n * Pow2(j) == m * p && p % 2 == 1
    ensures n == q * p
    decreases j
  {
    if j == 0 {
      q := m;
    } else {
      assert n * Pow2(j) == 2 * (n * Pow2(j - 1));
      HalfOfEven(m, p, n * Pow2(j - 1));
      q := CancelTwos(n, j - 1, m / 2, p);
    }
  }

  lemma Multiple(q: int, p: int)
    requires p > 0
    ensures q * p % p == 0 && (0 - q * p) % p == 0
  {
    assert 0 - q * p == (0 - q) * p;
    MultipleOf(q, p);
    MultipleOf(0 - q, p);
  }

  lemma MultipleOf(q: int, p: int)
    requires p > 0
    ensures q * p % p == 0
  {
    var r := q * p % p;
    var d := q * p / p - q;
    assert d * p + r == 0;
    assert d >= 1 ==> d * p >= p;
    assert d <= -1 ==> d * p <= -p;
  }

  lemma Inverse(k: nat)
    ensures Power10(0 - k) * Power10(k) == 1.0
  {
    PowerAdd(0 - k, k);
  }

  lemma CrossMultiply(n: int, q: real, p: int, t: int, m: int)
    requires q * p as real == 1.0 && n as real * q * t as real == m as real
    ensures n * t == m * p
  {
    CrossReal(n as real, q, p as real, t as real, m as real);
    assert (n * t) as real == n as real * t as real && (m * p) as real == m as real * p as real;
  }

  lemma CrossReal(n: real, q: real, p: real, t: real, m: real)
    requires q * p == 1.0 && n * q * t == m
    ensures n * t == m * p
  {
    assert n * t * (q * p) == n * q * t * p;
  }

  lemma OverTwos(n: int, k: nat, j: nat)
    requires Integer(Times(Times(n as real, Power10(0 - k)), Pow2(j) as real))
    ensures n % Pow5(k) == 0
  {
    hide Power10, Pow2, Pow5;
    var q, t := Power10(0 - k), Pow2(j);
    var y := Times(Times(n as real, q), t as real);
    PowerInteger(k);
    Inverse(k);
    CrossMultiply(n, q, Pow5(k) * Pow2(k), t, y.Floor);
    assert y.Floor * (Pow5(k) * Pow2(k)) == y.Floor * Pow2(k) * Pow5(k);
    FivesFacts(k);
    var m := CancelTwos(n, j, y.Floor * Pow2(k), Pow5(k));
    Multiple(m, Pow5(k));
  }

  lemma {:induction false} FivesFacts(k: nat)
    ensures Pow5(k) > 0 && Pow5(k) % 2 == 1
  {
    if k > 0 {
      FivesFacts(k - 1);
      var q := Pow5(k - 1) / 2;
      assert Pow5(k) == 2 * (5 * q + 2) + 1;
    }
  }

  lemma OverFives(n: int, k: nat)
    requires n % Pow5(k) == 0
    ensures Integer(Times(Times(n as real, Power10(0 - k)), Pow2(k) as real))
  {
    hide Power10, Pow2, Pow5, Times;
    FivesFacts(k);
    var m, f, t := n / Pow5(k), Pow5(k), Pow2(k);
    assert n == m * f;
    PowerInteger(k);
    Inverse(k);
    ProductReal(m, f);
    ProductReal(f, t);
    Quotient(m as real, f as real, t as real, Power10(0 - k), n as real);
    assert Integer(m as real);
  }

  lemma ProductReal(m: int, f: int)
    ensures (m * f) as real == m as real * f as real
  {
  }

  lemma Quotient(m: real, f: real, t: real, q: real, n: real)
    requires q * (f * t) == 1.0 && n == m * f
    ensures Times(Times(n, q), t) == m
  {
    assert n * q * t == m * (q * (f * t));
  }

  /** An integer over a power of ten is dyadic exactly when it is a multiple of that power of five. */
  lemma DyadicIff(n: int, k: nat)
    ensures Dyadic(Times(n as real, Power10(0 - k))) <==> n % Pow5(k) == 0
  {
    hide Power10, Pow2, Pow5, Times, Integer;
    var x := Times(n as real, Power10(0 - k));
    FivesFacts(k);
    if Dyadic(x) {
      var j: nat :| Integer(Times(x, Pow2(j) as real));
      OverTwos(n, k, j);
    }
    if n % Pow5(k) == 0 {
      OverFives(n, k);
    }
  }

  lemma SignedMultiple(neg: bool, n: nat, p: int)
    requires p > 0 && Signed(neg, n) % p == 0
    ensures n % p == 0
  {
    var q := Signed(neg, n) / p;
    assert Signed(neg, n) == q * p;
    Multiple(q, p);
  }

  /** A literal that no double has the value of, as it has more digits after the point than its exponent makes up for and
      they are no multiple of that power of five, is never read as the number it denotes, however results are rounded. */
  lemma NeverExact(fp: Arith, neg: bool, i: nat, frac: Text, e: Exponent, rest: Text)
    requires Literal(frac, e, rest) && Binary(fp) && ExponentSize(e) <= INT_MAX
    requires ExponentNumber(e) < |frac| && Numeral(i, frac) % Pow5(|frac| - ExponentNumber(e)) != 0
    ensures !Dyadic(LiteralValue(neg, i, frac, e))
    ensures var r := ParseNumber(fp, LiteralText(neg, i, frac, e) + rest);
            r.Ok? && r.rest == rest && r.value != Finite(LiteralValue(neg, i, frac, e))
  {
    hide Power10, ParseNumber, LiteralText, LiteralValue, ExponentNumber, Mantissa, Dyadic, Pow5;
    LiteralRead(fp, neg, i, frac, e, rest);
    ValueOfLiteral(neg, i, frac, e);
    var n, k := Numeral(i, frac), |frac| - ExponentNumber(e);
    DyadicIff(Signed(neg, n), k);
    FivesFacts(k);
    if Signed(neg, n) % Pow5(k) == 0 {
      SignedMultiple(neg, n, Pow5(k));
    }
  }

  /** The others have a value that is an integer over a power of two. */
  lemma OthersDyadic(neg: bool, i: nat, frac: Text, e: Exponent)
    requires AllDigits(frac) && GoodExponent(e)
    requires ExponentNumber(e) < |frac| && Numeral(i, frac) % Pow5(|frac| - ExponentNumber(e)) == 0
    ensures Dyadic(LiteralValue(neg, i, frac, e))
  {
    hide Power10, LiteralValue, ExponentNumber, Dyadic, Pow5;
    ValueOfLiteral(neg, i, frac, e);
    var n, k := Numeral(i, frac), |frac| - ExponentNumber(e);
    FivesFacts(k);
    assert n == n / Pow5(k) * Pow5(k);
    Multiple(n / Pow5(k), Pow5(k));
    DyadicIff(Signed(neg, n), k);
  }

  /** "0.3" is not read as 3/10. */
  lemma ThreeTenths(fp: Arith)
    requires Binary(fp)
    ensures ParseNumber(fp, [48, 46, 51]).Ok? && ParseNumber(fp, [48, 46, 51]).value != Finite(0.3)
  {
    hide ParseNumber, Dyadic;
    var frac := [51];
    assert frac[..0] == [];
    assert Value(frac) == 3 && Numeral(0, frac) == 3;
    assert Power10(0) == 1.0 && Power10(1) == 10.0 && Pow5(1) == 5;
    assert LiteralText(false, 0, frac, NoExponent) + [] == [48, 46, 51];
    NeverExact(fp, false, 0, frac, NoExponent, []);
  }
}
