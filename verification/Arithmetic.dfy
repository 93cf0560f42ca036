/** Division facts shared by the resampler, the pager and the throttle. */
module Arithmetic {

  function Min(a: int, b: int): int {
    if a <= b then a else b
  }

  function Max(a: int, b: int): int {
    if a >= b then a else b
  }

  /** C's `/` on signed operands: the quotient is cut toward zero. */
  function TruncDiv(a: int, b: int): int
    requires b > 0
  {
    if a >= 0 then a / b else -((-a) / b)
  }

  function CeilDiv(a: nat, b: nat): nat
    requires b > 0
  {
    (a + b - 1) / b
  }

  lemma MulMono(a: int, b: int, c: int)
    requires a <= b && 0 <= c
    ensures a * c <= b * c
  {
  }

  lemma DivUnique(a: int, b: int, q: int, r: int)
    requires b > 0 && 0 <= r < b && a == q * b + r
    ensures a / b == q && a % b == r
  {
    var d := a / b - q;
    assert a == (a / b) * b + a % b;
    assert d * b == r - a % b by {
      assert d * b == (a / b) * b - q * b;
    }
    if d >= 1 {
      MulMono(1, d, b);
    } else if d <= -1 {
      MulMono(d, -1, b);
    }
  }

  /** The ceiling is the only multiple count that reaches `a` without overshooting by a whole step. */
  lemma CeilDivUnique(a: nat, b: nat, q: int)
    requires b > 0 && (q - 1) * b < a <= q * b
    ensures q >= 0 && CeilDiv(a, b) == q
  {
    assert (q - 1) * b == q * b - b;
    if q < 0 {
      MulMono(q, -1, b);
    }
    DivUnique(a + b - 1, b, q, a + b - 1 - q * b);
  }

  lemma CeilDivBounds(a: nat, b: nat)
    requires b > 0
    ensures (CeilDiv(a, b) - 1) * b < a <= CeilDiv(a, b) * b
  {
    var n := a + b - 1;
    assert n == (n / b) * b + n % b;
    assert (CeilDiv(a, b) - 1) * b == CeilDiv(a, b) * b - b;
  }

  lemma CeilDivMono(a: nat, a': nat, b: nat)
    requires b > 0 && a <= a'
    ensures CeilDiv(a, b) <= CeilDiv(a', b)
  {
    CeilDivBounds(a, b);
    CeilDivBounds(a', b);
    if CeilDiv(a', b) < CeilDiv(a, b) {
      MulMono(CeilDiv(a', b), CeilDiv(a, b) - 1, b);
    }
  }

  lemma DivBelow(a: int, n: int, t: int)
    requires t > 0 && 0 <= a < n * t
    ensures 0 <= a / t < n
  {
    assert a == (a / t) * t + a % t;
    if a / t >= n {
      MulMono(n, a / t, t);
    }
  }

  lemma DivBetween(a: int, b: int, lo: int, hi: int)
    requires b > 0 && lo * b <= a <= hi * b
    ensures lo <= a / b <= hi
  {
    var q := a / b;
    assert a == q * b + a % b;
    assert (hi + 1) * b == hi * b + b && (q + 1) * b == q * b + b;
    if q > hi {
      MulMono(hi + 1, q, b);
    }
    if q < lo {
      MulMono(q + 1, lo, b);
    }
  }

  /** Cut toward zero: the quotient is the nearest whole number not farther from zero than the exact one. */
  lemma TruncDivRounds(a: int, b: int)
    requires b > 0
    ensures a >= 0 ==> TruncDiv(a, b) * b <= a < (TruncDiv(a, b) + 1) * b
    ensures a <= 0 ==> (TruncDiv(a, b) - 1) * b < a <= TruncDiv(a, b) * b
  {
    var n := if a >= 0 then a else -a;
    var q := n / b;
    assert n == q * b + n % b && (q + 1) * b == q * b + b && (-q) * b == -(q * b) && (-q - 1) * b == -(q * b) - b;
  }

  /** A truncated quotient stays inside any integer bounds of the exact quotient. */
  lemma TruncDivBetween(a: int, b: int, lo: int, hi: int)
    requires b > 0 && lo * b <= a <= hi * b
    ensures lo <= TruncDiv(a, b) <= hi
  {
    if a >= 0 {
      DivBetween(a, b, lo, hi);
    } else {
      assert (-hi) * b == -(hi * b) && (-lo) * b == -(lo * b);
      DivBetween(-a, b, -hi, -lo);
    }
  }
}
