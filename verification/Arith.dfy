/** Division facts for mixed-radix digits; every divisor is a positive product. */
module Arith {

  lemma SmallMultiple(d: int, m: int)
    requires m > 0 && -m < d * m < m
    ensures d == 0
  {
    if d >= 1 {
      MulMono(1, d, m);
    } else if d <= -1 {
      MulMono(d, -1, m);
    }
  }

  lemma DivUnique(x: int, m: int, q: int, r: int)
    requires m > 0 && 0 <= r < m && x == q * m + r
    ensures x / m == q && x % m == r
  {
    var q', r' := x / m, x % m;
    MulDistr(q, q', m);
    assert (q - q') * m == r' - r;
    SmallMultiple(q - q', m);
  }

  lemma MulMono(a: int, b: int, m: int)
    requires a <= b && m >= 0
    ensures a * m <= b * m
  {
  }

  lemma DivNonneg(x: int, m: int)
    requires x >= 0 && m > 0
    ensures x / m >= 0 && 0 <= x % m < m && x == (x / m) * m + x % m
  {
    if x / m <= -1 {
      MulMono(x / m, -1, m);
    }
  }

  lemma ExactQuotient(x: int, m: int)
    requires x > 0 && m > 0 && x % m == 0
    ensures x / m > 0 && x == m * (x / m)
  {
    DivNonneg(x, m);
  }

  lemma MulAssoc(a: int, b: int, c: int)
    ensures a * (b * c) == (a * b) * c
  {
  }

  lemma MulPos(a: int, b: int)
    requires a > 0 && b > 0
    ensures a * b > 0
  {
  }

  lemma MulDistr(a: int, b: int, c: int)
    ensures (a + b) * c == a * c + b * c && (a - b) * c == a * c - b * c
  {
  }

  /** Splitting off one digit: x is read in base s*k through its quotient by s. */
  lemma DivMul(x: int, s: int, k: int)
    requires x >= 0 && s > 0 && k > 0
    ensures s * k > 0
    ensures x / (s * k) == x / s / k
    ensures x % (s * k) == (x / s % k) * s + x % s
  {
    MulPos(s, k);
    var q, r := x / s, x % s;
    var hi, d := q / k, q % k;
    MulMono(d, k - 1, s);
    calc {
      x;
      q * s + r;
      (hi * k + d) * s + r;
      { MulDistr(hi * k, d, s); MulAssoc(hi, k, s); }
      hi * (k * s) + (d * s + r);
      hi * (s * k) + (d * s + r);
    }
    MulDistr(k, 1, s);
    assert 0 <= d * s by { MulMono(0, d, s); }
    DivUnique(x, s * k, hi, d * s + r);
  }

  /** Adding a multiple of s*k leaves the digit at s, and everything below it, alone. */
  lemma AddHigh(x: int, s: int, k: int, m: int)
    requires x >= 0 && x + m * (s * k) >= 0 && s > 0 && k > 0
    ensures (x + m * (s * k)) / s % k == x / s % k
  {
    var y := x + m * (s * k);
    calc {
      y;
      (x / s) * s + x % s + m * (s * k);
      { MulAssoc(m, k, s); }
      (x / s) * s + x % s + (m * k) * s;
      { MulDistr(x / s, m * k, s); }
      (x / s + m * k) * s + x % s;
    }
    DivUnique(y, s, x / s + m * k, x % s);
    var q, d := x / s / k, x / s % k;
    MulDistr(q, m, k);
    DivUnique(x / s + m * k, k, q + m, d);
  }

  /** Replacing the digit of x at s by v. */
  function SetDigit(x: int, s: int, k: int, v: int): int
    requires s > 0 && k > 0
  {
    x - (x / s % k) * s + v * s
  }

  lemma SetDigitSpec(x: int, s: int, k: int, v: int)
    requires x >= 0 && s > 0 && 0 <= v < k
    ensures s * k > 0
    ensures var y := SetDigit(x, s, k, v);
            y >= 0 && y / s % k == v && y / (s * k) == x / (s * k) && y % s == x % s
  {
    DivMul(x, s, k);
    var y := SetDigit(x, s, k, v);
    var hi, r := x / (s * k), x % s;
    assert x == hi * (s * k) + (x / s % k) * s + r;
    assert y == hi * (s * k) + (v * s + r);
    MulMono(v, k - 1, s);
    MulDistr(k, 1, s);
    assert 0 <= v * s by { MulMono(0, v, s); }
    assert 0 <= hi * (s * k) by { MulMono(0, hi, s * k); }
    DivUnique(y, s * k, hi, v * s + r);
    DivMul(y, s, k);
    MulAssoc(hi, k, s);
    MulDistr(hi * k, v, s);
    assert y == (hi * k + v) * s + r;
    DivUnique(y, s, hi * k + v, r);
    DivUnique(hi * k + v, k, hi, v);
  }

  lemma SetDigitBelow(x: int, t: int, j: int, v: int, k: int, m: int)
    requires x >= 0 && t > 0 && 0 <= v < j && k > 0 && m > 0
    ensures SetDigit(x, t, j, v) >= 0 && t * j > 0 && m * (t * j) > 0
    ensures SetDigit(x, t, j, v) / (m * (t * j)) % k == x / (m * (t * j)) % k
  {
    SetDigitSpec(x, t, j, v);
    var y := SetDigit(x, t, j, v);
    DivMul(x, t * j, m);
    DivMul(y, t * j, m);
    assert (t * j) * m == m * (t * j);
  }

  lemma SetDigitAbove(x: int, j: int, v: int, s: int, k: int, m: int)
    requires x >= 0 && 0 <= v < j && s > 0 && k > 0 && m > 0
    ensures m * (s * k) > 0
    ensures SetDigit(x, m * (s * k), j, v) >= 0
    ensures SetDigit(x, m * (s * k), j, v) / s % k == x / s % k
  {
    MulPos(s, k);
    MulPos(m, s * k);
    var t := m * (s * k);
    SetDigitSpec(x, t, j, v);
    var w := x / t % j;
    MulDistr(v, w, t);
    MulAssoc(v - w, m, s * k);
    AddHigh(x, s, k, (v - w) * m);
  }

  /** The digit at s is untouched when the digit at t changes and one place value divides the other. */
  lemma SetDigitOther(x: int, t: int, j: int, v: int, s: int, k: int, m: int)
    requires x >= 0 && t > 0 && 0 <= v < j && s > 0 && k > 0 && m > 0
    requires s == m * (t * j) || t == m * (s * k)
    ensures SetDigit(x, t, j, v) >= 0
    ensures SetDigit(x, t, j, v) / s % k == x / s % k
  {
    if s == m * (t * j) {
      SetDigitBelow(x, t, j, v, k, m);
    } else {
      SetDigitAbove(x, j, v, s, k, m);
    }
  }

  lemma QuotientBound(x: int, p: int, m: int)
    requires p > 0 && 0 <= x
    ensures x < m * p <==> x / p < m
  {
    if x / p < m {
      MulMono(x / p + 1, m, p);
      MulDistr(x / p, 1, p);
    } else {
      MulMono(m, x / p, p);
    }
  }

  /** Values below n stay below n when a digit whose place range divides n changes. */
  lemma SetDigitRange(x: int, s: int, k: int, v: int, n: int, m: int)
    requires 0 <= x < n && s > 0 && 0 <= v < k && n == m * (s * k)
    ensures 0 <= SetDigit(x, s, k, v) < n
  {
    SetDigitSpec(x, s, k, v);
    QuotientBound(x, s * k, m);
    QuotientBound(SetDigit(x, s, k, v), s * k, m);
  }

  /** Two values that agree above and at one digit agree from that digit on. */
  lemma AgreeAtDigit(x: int, y: int, s: int, k: int)
    requires x >= 0 && y >= 0 && s > 0 && k > 0 && k * s > 0
    requires x / (k * s) == y / (k * s) && x / s % k == y / s % k
    ensures x / s == y / s
  {
    assert k * s == s * k;
    DivMul(x, s, k);
    DivMul(y, s, k);
    DivNonneg(x, s);
    DivNonneg(y, s);
    DivNonneg(x / s, k);
    DivNonneg(y / s, k);
  }

  /** Two values that agree below and at one digit agree up to that digit. */
  lemma AgreeBelowDigit(x: int, y: int, s: int, k: int)
    requires x >= 0 && y >= 0 && s > 0 && k > 0
    requires x % s == y % s && x / s % k == y / s % k
    ensures s * k > 0 && x % (s * k) == y % (s * k)
  {
    DivMul(x, s, k);
    DivMul(y, s, k);
  }
}
