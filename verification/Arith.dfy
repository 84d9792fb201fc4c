/** Products, quotients and remainders where the divisor is not a constant. */
module Arith {

  lemma DistributeLeft(a: int, b: int, c: int)
    ensures (a + b) * c == a * c + b * c
    ensures (a - b) * c == a * c - b * c
  {
  }

  lemma Associate(a: int, b: int, c: int)
    ensures a * b * c == a * (b * c)
  {
  }

  lemma AtLeast(q: int, m: int)
    requires q >= 1 && m > 0
    ensures q * m >= m
  {
    DistributeLeft(q - 1, 1, m);
  }

  lemma DivModUnique(x: int, q: int, r: int, m: int)
    requires 0 <= r < m && x == q * m + r
    ensures x / m == q && x % m == r
  {
    var q', r' := x / m, x % m;
    DistributeLeft(q, q', m);
    DistributeLeft(q', q, m);
    if q > q' {
      AtLeast(q - q', m);
    } else if q < q' {
      AtLeast(q' - q, m);
    }
  }

  lemma ModShift(x: int, k: int, m: int)
    requires m > 0
    ensures (x + k * m) % m == x % m
  {
    DistributeLeft(x / m, k, m);
    DivModUnique(x + k * m, x / m + k, x % m, m);
  }

  lemma ModStep(x: int, a: int, c: int, m: int)
    requires m > 0
    ensures (a * x + c) % m == (a * (x % m) + c) % m
  {
    var q, r := x / m, x % m;
    assert a * x == a * (q * m) + a * r;
    Associate(a, q, m);
    ModShift(a * r + c, a * q, m);
  }

  lemma MultipleOf(d: nat, p: nat)
    requires d > 0
    ensures (d * p) % d == 0 && (d * p) / d == p
  {
    DivModUnique(d * p, p, 0, d);
  }

  /** Sums and differences of multiples are multiples. */
  lemma ModSum(x: nat, y: nat, d: nat)
    requires d > 0 && x % d == 0 && y % d == 0
    ensures (x + y) % d == 0 && (x >= y ==> (x - y) % d == 0)
  {
    var p, q := x / d, y / d;
    DistributeLeft(p, q, d);
    DivModUnique(x + y, p + q, 0, d);
    DivModUnique(x - y, p - q, 0, d);
  }

  /** Between multiples there is a whole unit. */
  lemma MultipleGap(a: nat, b: nat, d: nat)
    requires d > 0 && a % d == 0 && b % d == 0 && a < b
    ensures a + d <= b
  {
    var p, q := a / d, b / d;
    DistributeLeft(q, p, d);
    if q <= p {
      DistributeLeft(p, q, d);
      AtLeastZero(p - q, d);
    } else {
      AtLeast(q - p, d);
    }
  }

  lemma AtLeastZero(q: int, m: int)
    requires q >= 0 && m >= 0
    ensures q * m >= 0
  {
  }

  /** A multiple of a multiple is a multiple. */
  lemma MultipleAgain(x: nat, d: nat, e: nat)
    requires d > 0 && e > 0 && x % d == 0 && d % e == 0
    ensures x % e == 0
  {
    var p, q := x / d, d / e;
    Associate(p, q, e);
    DivModUnique(x, p * q, 0, e);
  }

  lemma MulMono(a: int, b: int, c: int)
    requires a <= b && c >= 0
    ensures a * c <= b * c
  {
    DistributeLeft(b, a, c);
    AtLeastZero(b - a, c);
  }

  /** The quotient, known by what it is between. */
  function Quot(x: nat, d: nat): (q: nat)
    requires d > 0
    ensures q * d <= x < q * d + d
  {
    QuotientNonNegative(x, d);
    x / d
  }

  lemma QuotientNonNegative(x: nat, d: nat)
    requires d > 0
    ensures x / d >= 0 && x == x / d * d + x % d
  {
    var q := x / d;
    if q < 0 {
      MulMono(q, -1, d);
    }
  }

  lemma QuotIs(x: nat, q: nat, d: nat)
    requires d > 0 && q * d <= x < q * d + d
    ensures Quot(x, d) == q
  {
    DivModUnique(x, q, x - q * d, d);
  }

  lemma QuotBelow(x: nat, d: nat, p: nat)
    requires d > 0 && x < p * d
    ensures Quot(x, d) < p
  {
    var q := Quot(x, d);
    if q >= p {
      MulMono(p, q, d);
    }
  }
}
