/**
 * Exact decimal arithmetic, the part of Python's `decimal.Decimal` the swap helper
 * uses: construction from a finite decimal, `*`, `-`, `Decimal('10') ** n`, and
 * `int(...)`, which truncates toward zero. Real numbers give the meaning of each
 * operation.
 */
module Decimals {

  /** `10^n` on naturals. */
  function Pow10(n: nat): (p: nat)
    ensures p >= 1
  {
    if n == 0 then 1 else 10 * Pow10(n - 1)
  }

  lemma {:induction false} Pow10Add(a: nat, b: nat)
    ensures Pow10(a + b) == Pow10(a) * Pow10(b)
  {
    if a > 0 {
      Pow10Add(a - 1, b);
      assert Pow10(a + b) == 10 * Pow10(a - 1 + b);
    }
  }

  /** `10^n` for any integer exponent, as a real: the reference for `Decimal('10') ** n`. */
  function RealPow10(n: int): (r: real)
    ensures r > 0.0
    decreases if n >= 0 then n else -n
  {
    if n == 0 then 1.0
    else if n > 0 then 10.0 * RealPow10(n - 1)
    else RealPow10(n + 1) / 10.0
  }

  /** A finite decimal `digits × 10^-scale`; a positive exponent is folded into `digits`. */
  datatype Dec = Dec(digits: int, scale: nat)

  /** The number a decimal denotes. */
  function Value(x: Dec): real {
    x.digits as real / Pow10(x.scale) as real
  }

  /** `Decimal('1')`. */
  const One: Dec := Dec(1, 0)

  lemma CastMul(a: int, b: int)
    ensures (a * b) as real == a as real * b as real
  {
  }

  /** Dividing numerator and denominator by the same positive factor. */
  lemma ScaleFraction(a: int, p: nat, q: nat)
    requires p >= 1 && q >= 1
    ensures (a * q) as real / (p * q) as real == a as real / p as real
  {
    CastMul(a, q);
    CastMul(p, q);
  }

  /** The product of two fractions is the fraction of the products. */
  lemma FractionProduct(a: real, p: real, b: real, q: real)
    requires p > 0.0 && q > 0.0
    ensures (a * b) / (p * q) == (a / p) * (b / q)
  {
    var x, y := a / p, b / q;
    assert a == x * p && b == y * q;
    assert a * b == (x * y) * (p * q);
  }

  /** Equal numerators over equal denominators give equal quotients. */
  lemma QuotientOfEquals(n: real, d: real, n': real, d': real)
    requires d != 0.0 && n == n' && d == d'
    ensures n / d == n' / d'
  {
  }

  /** `x * y`: exact. */
  function Mul(x: Dec, y: Dec): (r: Dec)
    ensures Value(r) == Value(x) * Value(y)
  {
    ProductFraction(x, y);
    FractionProduct(x.digits as real, Pow10(x.scale) as real, y.digits as real, Pow10(y.scale) as real);
    Dec(x.digits * y.digits, x.scale + y.scale)
  }

  /** The value of the digit product is the fraction of the products. */
  lemma ProductFraction(x: Dec, y: Dec)
    ensures Value(Dec(x.digits * y.digits, x.scale + y.scale))
         == (x.digits as real * y.digits as real) / (Pow10(x.scale) as real * Pow10(y.scale) as real)
  {
    Pow10Add(x.scale, y.scale);
    CastMul(x.digits, y.digits);
    CastMul(Pow10(x.scale), Pow10(y.scale));
    QuotientOfEquals((x.digits * y.digits) as real, Pow10(x.scale + y.scale) as real,
                     x.digits as real * y.digits as real, Pow10(x.scale) as real * Pow10(y.scale) as real);
  }

  /** `x` rewritten with a finer scale, same value. */
  function Rescale(x: Dec, k: nat): (r: Dec)
    requires x.scale <= k
    ensures r.scale == k && Value(r) == Value(x)
  {
    Pow10Add(k - x.scale, x.scale);
    ScaleFraction(x.digits, Pow10(x.scale), Pow10(k - x.scale));
    Dec(x.digits * Pow10(k - x.scale), k)
  }

  /** `x - y`: both operands brought to the finer scale, then digits subtracted. */
  function Sub(x: Dec, y: Dec): (r: Dec)
    ensures Value(r) == Value(x) - Value(y)
  {
    var k := if x.scale >= y.scale then x.scale else y.scale;
    var x', y' := Rescale(x, k), Rescale(y, k);
    FractionDifference(x'.digits as real, y'.digits as real, Pow10(k) as real);
    Dec(x'.digits - y'.digits, k)
  }

  /** Fractions over one denominator subtract by their numerators. */
  lemma FractionDifference(a: real, b: real, p: real)
    requires p > 0.0
    ensures (a - b) / p == a / p - b / p
  {
  }

  /** `Decimal('10') ** n`: exact for every integer exponent. */
  function PowTen(n: int): (r: Dec)
    ensures Value(r) == RealPow10(n)
  {
    RealPow10Nat(if n >= 0 then n else -n);
    if n >= 0 then Dec(Pow10(n), 0) else Dec(1, -n)
  }

  /** The real power agrees with the natural one, and a negative exponent is its inverse. */
  lemma {:induction false} RealPow10Nat(n: nat)
    ensures RealPow10(n) == Pow10(n) as real
    ensures RealPow10(-(n as int)) == 1.0 / Pow10(n) as real
  {
    if n > 0 {
      RealPow10Nat(n - 1);
      assert RealPow10(-(n as int)) == RealPow10(-(n as int) + 1) / 10.0;
    }
  }

  /** `n` is `v` truncated toward zero: what Python's `int()` gives for `v`. */
  predicate TruncatesTo(v: real, n: int) {
    && (v >= 0.0 ==> n as real <= v < n as real + 1.0)
    && (v < 0.0 ==> n as real - 1.0 < v <= n as real)
  }

  /** Python's `int()` on a real, through `Floor`. */
  function Trunc(x: real): (n: int)
    ensures TruncatesTo(x, n)
  {
    if x >= 0.0 then x.Floor else -((-x).Floor)
  }

  /** Each real truncates to exactly one integer. */
  lemma TruncatesToUnique(v: real, n: int, m: int)
    requires TruncatesTo(v, n) && TruncatesTo(v, m)
    ensures n == m
  {
  }

  /** Truncation never decreases as its argument grows. */
  lemma TruncatesToMonotone(v: real, n: int, w: real, m: int)
    requires TruncatesTo(v, n) && TruncatesTo(w, m) && v <= w
    ensures n <= m
  {
  }

  /** `int(x)` on a decimal: integer division of the digits, truncating toward zero. */
  function ToInt(x: Dec): (n: int)
    ensures TruncatesTo(Value(x), n)
  {
    var p := Pow10(x.scale);
    var a := if x.digits >= 0 then x.digits else -x.digits;
    DivBounds(a, p);
    assert x.digits < 0 ==> Value(x) == -(a as real / p as real);
    if x.digits >= 0 then a / p else -(a / p)
  }

  /** Natural division lies within one of the real quotient, below it. */
  lemma DivBounds(a: nat, p: nat)
    requires p >= 1
    ensures (a / p) as real <= a as real / p as real < (a / p) as real + 1.0
    ensures (a as real / p as real).Floor == a / p
  {
    var q, m := a / p, a % p;
    assert a == q * p + m && 0 <= m < p;
    CastMul(q, p);
    var P := p as real;
    assert a as real == q as real * P + m as real;
    assert a as real / P == q as real + m as real / P;
    assert m as real / P < 1.0;
  }
}
