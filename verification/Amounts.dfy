/** Exact integer division and half-even rounding on unbounded integers. The host's own
    division truncates toward zero (ECMA-262, sections 6.1.6.2.5 and 6.1.6.2.6); Dafny's
    is Euclidean, so the host operators are defined first. */
module Amounts {

  datatype Division = Division(quotient: int, remainder: int)

  datatype Rounded = Rounded(value: int, remainderNumerator: int, denominator: int)

  /** A completed operation, or the domain error for a zero divisor. */
  datatype Outcome<+T> = Success(value: T) | ZeroDivisor

  function Abs(x: int): (r: nat)
    ensures r == x || r == -x
  {
    if x < 0 then -x else x
  }

  /** The host's `/`: the quotient of the magnitudes, negated when the signs differ. */
  function TruncDiv(n: int, d: int): int
    requires d != 0
  {
    if (n < 0) == (d < 0) then Abs(n) / Abs(d) else -(Abs(n) / Abs(d))
  }

  /** The host's `%`. */
  function TruncRem(n: int, d: int): int
    requires d != 0
  {
    n - d * TruncDiv(n, d)
  }

  /** What the host operators mean: the remainder is short and never of the opposite sign
      to the numerator. */
  ghost predicate IsTruncated(n: int, d: int, q: int, r: int) {
    n == q * d + r && Abs(r) < Abs(d) && (r < 0 ==> n < 0) && (r > 0 ==> n > 0)
  }

  ghost predicate IsEuclidean(n: int, d: int, q: int, r: int) {
    n == q * d + r && 0 <= r < Abs(d)
  }

  /** `value` is a nearest integer to n/d, the even one of two that are equally near; the
      rest is kept exactly over the positive denominator. */
  ghost predicate IsHalfEven(n: int, d: int, out: Rounded) {
    && out.denominator == Abs(d)
    && out.value * out.denominator + out.remainderNumerator == (if d < 0 then -n else n)
    && 2 * Abs(out.remainderNumerator) <= out.denominator
    && (2 * Abs(out.remainderNumerator) == out.denominator ==> out.value % 2 == 0)
  }

  lemma {:induction false} TruncatedParts(n: int, d: int)
    requires d != 0
    ensures IsTruncated(n, d, TruncDiv(n, d), TruncRem(n, d))
  {
    var q := Magnitudes(Abs(n), Abs(d));
    var t := TruncDiv(n, d);
    assert t == if (n < 0) == (d < 0) then q else -q;
    SignedParts(n, d, q, t);
  }

  lemma {:induction false} SignedParts(n: int, d: int, q: int, t: int)
    requires d != 0 && q >= 0 && 0 <= Abs(n) - q * Abs(d) < Abs(d)
    requires t == if (n < 0) == (d < 0) then q else -q
    ensures IsTruncated(n, d, t, n - d * t)
  {
    Signs(q, d);
    LinearParts(n, d, Abs(n), Abs(d), q * d, q * Abs(d), t * d, d * t);
  }

  /** The sign cases, with the products named. */
  lemma {:induction false} LinearParts(n: int, d: int, a: int, b: int, qd: int, qb: int, td: int, dt: int)
    requires a == Abs(n) && b == Abs(d) && 0 <= qb && 0 <= a - qb < b && dt == td
    requires qb == (if d < 0 then -qd else qd) && td == (if (n < 0) == (d < 0) then qd else -qd)
    ensures n == td + (n - dt) && Abs(n - dt) < b && (n - dt < 0 ==> n < 0) && (n - dt > 0 ==> n > 0)
  {
  }

  lemma {:induction false} Magnitudes(a: nat, b: nat) returns (q: int)
    requires b > 0
    ensures q == a / b && q >= 0 && 0 <= a - q * b < b
  {
    q := a / b;
    assert a == a / b * b + a % b;
  }

  lemma {:induction false} Signs(q: int, d: int)
    ensures d * q == q * d && d * -q == -(q * d) && q * -d == -(q * d) && (-q) * d == -(q * d)
  {
  }

  /** A multiple of b is at least as far from zero as its factor says. */
  lemma {:induction false} Multiples(k: int, b: int)
    requires b > 0
    ensures k >= 1 ==> k * b >= b
    ensures k >= 2 ==> k * b >= 2 * b
    ensures k <= -1 ==> k * b <= -b
    ensures k <= -2 ==> k * b <= -2 * b
  {
    if k >= 2 {
      AtLeast(k, 2, b);
    } else if k <= -2 {
      AtLeast(-k, 2, b);
      Signs(b, k);
    }
  }

  lemma {:induction false} AtLeast(k: int, m: nat, b: int)
    requires b > 0 && k >= m
    ensures k * b >= m * b
  {
  }

  lemma {:induction false} TruncatedUnique(n: int, d: int, q: int, r: int)
    requires d != 0 && IsTruncated(n, d, q, r)
    ensures q == TruncDiv(n, d) && r == TruncRem(n, d)
  {
    TruncatedParts(n, d);
    SameQuotient(n, d, q, r, TruncDiv(n, d), TruncRem(n, d));
  }

  /** Two decompositions whose remainders differ by less than |d| are the same. */
  lemma {:induction false} SameQuotient(n: int, d: int, q: int, r: int, q': int, r': int)
    requires d != 0 && n == q * d + r && n == q' * d + r' && Abs(r - r') < Abs(d)
    ensures q == q' && r == r'
  {
    Difference(q', q, d);
    Signs(q' - q, d);
    Multiples(q' - q, Abs(d));
  }

  lemma {:induction false} Difference(x: int, y: int, d: int)
    ensures (x - y) * d == x * d - y * d
  {
  }

  lemma {:induction false} EuclideanUnique(n: int, d: int, q: int, r: int, q': int, r': int)
    requires d != 0 && IsEuclidean(n, d, q, r) && IsEuclidean(n, d, q', r')
    ensures q == q' && r == r'
  {
    SameQuotient(n, d, q, r, q', r');
  }

  method Divmod(numerator: int, denominator: int) returns (out: Outcome<Division>)
    ensures out.ZeroDivisor? <==> denominator == 0
    ensures out.Success? ==> IsTruncated(numerator, denominator, out.value.quotient, out.value.remainder)
  {
    if denominator == 0 {
      return ZeroDivisor;
    }
    TruncatedParts(numerator, denominator);
    out := Success(Division(TruncDiv(numerator, denominator), TruncRem(numerator, denominator)));
  }

  method EuclideanDivmod(numerator: int, denominator: int) returns (out: Outcome<Division>)
    ensures out.ZeroDivisor? <==> denominator == 0
    ensures out.Success? ==> IsEuclidean(numerator, denominator, out.value.quotient, out.value.remainder)
  {
    if denominator == 0 {
      return ZeroDivisor;
    }
    var quotient, remainder := TruncDiv(numerator, denominator), TruncRem(numerator, denominator);
    TruncatedParts(numerator, denominator);
    if remainder < 0 {
      remainder := remainder + (if denominator < 0 then -denominator else denominator);
      quotient := quotient + (if denominator < 0 then 1 else -1);
    }
    out := Success(Division(quotient, remainder));
  }

  method RoundRatioHalfEven(numerator: int, denominator: int) returns (out: Outcome<Rounded>)
    ensures out.ZeroDivisor? <==> denominator == 0
    ensures out.Success? ==> IsHalfEven(numerator, denominator, out.value)
  {
    if denominator == 0 {
      return ZeroDivisor;
    }
    var n := if denominator < 0 then -numerator else numerator;
    var d := if denominator < 0 then -denominator else denominator;
    var quotient := TruncDiv(n, d);
    var remainder := TruncRem(n, d);
    TruncatedParts(n, d);
    Parity(quotient);
    var twice := 2 * (if remainder < 0 then -remainder else remainder);
    ghost var before := quotient;
    if twice > d || (twice == d && TruncRem(quotient, 2) != 0) {
      quotient := quotient + (if n < 0 then -1 else 1);
    }
    Adjusted(n, d, before, remainder, quotient);
    out := Success(Rounded(quotient, n - quotient * d, d));
  }

  /** One step away from the truncated quotient, taken exactly when it is due. */
  lemma {:induction false} Adjusted(n: int, d: int, q: int, r: int, v: int)
    requires d > 0 && IsTruncated(n, d, q, r)
    requires v == if 2 * Abs(r) > d || (2 * Abs(r) == d && q % 2 == 1) then q + (if n < 0 then -1 else 1) else q
    ensures IsHalfEven(n, d, Rounded(v, n - v * d, d))
  {
    Difference(v, q, d);
  }

  lemma {:induction false} Parity(x: int)
    ensures TruncRem(x, 2) != 0 <==> x % 2 == 1
  {
    TruncatedParts(x, 2);
  }

  /** No integer is nearer to n/d than the rounded value. */
  lemma {:induction false} HalfEvenIsNearest(n: int, d: int, out: Rounded, other: int)
    requires d != 0 && IsHalfEven(n, d, out)
    ensures Abs((if d < 0 then -n else n) - out.value * Abs(d))
         <= Abs((if d < 0 then -n else n) - other * Abs(d))
  {
    Difference(other, out.value, Abs(d));
    Multiples(other - out.value, Abs(d));
  }

  lemma {:induction false} HalfEvenUnique(n: int, d: int, x: Rounded, y: Rounded)
    requires d != 0 && IsHalfEven(n, d, x) && IsHalfEven(n, d, y)
    ensures x == y
  {
    // Two different values are one apart with both rests exactly half, so not both even.
    Difference(x.value, y.value, Abs(d));
    Multiples(x.value - y.value, Abs(d));
  }

  /** Negating both arguments changes nothing; negating one negates value and rest. Together
      with uniqueness this fixes what the operation returns on the negated arguments. */
  lemma {:induction false} HalfEvenNegation(n: int, d: int, out: Rounded)
    requires d != 0 && IsHalfEven(n, d, out)
    ensures IsHalfEven(-n, -d, out)
    ensures IsHalfEven(-n, d, Rounded(-out.value, -out.remainderNumerator, out.denominator))
  {
    assert (-out.value) * out.denominator == -(out.value * out.denominator);
  }

  /** The operation itself is odd in the numerator and even in the pair. */
  method NegatedRounding(n: int, d: int) returns (plain: Rounded, both: Rounded, one: Rounded)
    requires d != 0
    ensures both == plain
    ensures one == Rounded(-plain.value, -plain.remainderNumerator, plain.denominator)
  {
    var p := RoundRatioHalfEven(n, d);
    var b := RoundRatioHalfEven(-n, -d);
    var o := RoundRatioHalfEven(-n, d);
    plain, both, one := p.value, b.value, o.value;
    HalfEvenNegation(n, d, plain);
    HalfEvenUnique(-n, -d, plain, both);
    HalfEvenUnique(-n, d, one, Rounded(-plain.value, -plain.remainderNumerator, plain.denominator));
  }
}
