/**
 Region addresses in a small run, and the index of a region found again from its address with a
 multiplication and a shift in place of a division.
 */
module Regind {
  import opened Arith
  import opened Pow2

  const WORD_BITS: nat := 64
  const LARGEST_INVERSE: nat := 31

  /** ffs_zu() - 1: the number of trailing zero bits. */
  function Trailing(x: nat): (n: nat)
    requires x > 0
  {
    if x % 2 == 1 then 0 else 1 + Trailing(x / 2)
  }

  /** What is left of a number without its trailing zero bits. */
  function Odd(x: nat): (r: nat)
    requires x > 0
    ensures r > 0 && r % 2 == 1
  {
    if x % 2 == 1 then x else Odd(x / 2)
  }

  lemma {:induction false} OddPart(x: nat)
    requires x > 0
    ensures x == Odd(x) * P(Trailing(x))
  {
    if x % 2 == 0 {
      var y := x / 2;
      OddPart(y);
      TwiceProduct(Odd(y), P(Trailing(y)));
    }
  }

  lemma TwiceProduct(a: nat, p: nat)
    ensures a * (2 * p) == 2 * (a * p)
  {
  }

  lemma Rescale(x: nat)
    requires x > 0
    ensures x == Odd(x) * P(Trailing(x)) && Quot(x, P(Trailing(x))) == Odd(x)
  {
    OddPart(x);
    QuotIs(x, Odd(x), P(Trailing(x)));
  }

  /** SIZE_INV_SHIFT and SIZE_INV(), for 2^m regions at most. */
  function Shift(m: nat): nat
    requires m <= WORD_BITS
  {
    WORD_BITS - m
  }

  function Inverse(d: nat, m: nat): nat
    requires d > 0 && m <= WORD_BITS
  {
    Quot(P(Shift(m)), d) + 1
  }

  function Mul(x: nat, y: nat): (r: nat)
    ensures r == x * y
  {
    AtLeastZero(x, y);
    x * y
  }

  /** The product of two words; it wraps. */
  function Times(x: nat, y: nat): nat {
    Mul(x, y) % P(WORD_BITS)
  }

  /** arena_run_regind(), from the distance to the first region. */
  function Regind(diff0: nat, interval0: nat, m: nat): nat
    requires interval0 > 0 && m <= WORD_BITS
  {
    var shift := Trailing(interval0);
    Rescale(interval0);
    var diff, interval := Quot(diff0, P(shift)), Quot(interval0, P(shift));
    if interval == 1 then diff
    else if interval <= LARGEST_INVERSE then Quot(Times(diff, Inverse(interval, m)), P(Shift(m)))
    else Quot(diff, interval)
  }

  /** arena_run_reg_alloc(): where a region is. */
  function RegAddr(rpages: nat, reg0Offset: nat, interval: nat, i: nat): nat {
    rpages + reg0Offset + interval * i
  }

  /** Multiplying by the rounded-up inverse and shifting is dividing, as long as the quotient is below
      2^m; nothing overflows the word. */
  lemma InverseDivides(x: nat, d: nat, m: nat)
    requires 3 <= d <= LARGEST_INVERSE && 2 * m + 10 <= WORD_BITS && x < d * P(m)
    ensures Mul(x, Inverse(d, m)) < P(WORD_BITS)
    ensures Quot(Mul(x, Inverse(d, m)), P(Shift(m))) == Quot(x, d)
  {
    InverseFine(x, d, m);
    WholeWord(m);
    hide Inverse, Fine, Quot, Mul, P, Shift;
    Rounded(x, d, P(m), P(Shift(m)), Inverse(d, m));
  }

  /** What makes `inv`, a rounded-up inverse of `d` scaled by `s`, exact on `x`. */
  ghost predicate Fine(x: nat, d: nat, p: nat, s: nat, inv: nat) {
    d > 0 && s > 0 && s < inv * d && Quot(x, d) < p && (Quot(x, d) + 1) * (inv * d - s) < inv
  }

  lemma InverseFine(x: nat, d: nat, m: nat)
    requires 3 <= d <= LARGEST_INVERSE && 2 * m + 10 <= WORD_BITS && x < d * P(m)
    ensures Fine(x, d, P(m), P(Shift(m)), Inverse(d, m))
  {
    hide Inverse, Quot, P, Shift;
    QuotBelow(x, d, P(m));
    ErrorSmall(Quot(x, d), d, m);
  }

  lemma Rounded(x: nat, d: nat, p: nat, s: nat, inv: nat)
    requires Fine(x, d, p, s, inv)
    ensures s > 0 && d > 0 && Mul(x, inv) < p * s && Quot(Mul(x, inv), s) == Quot(x, d)
  {
    var i := Quot(x, d);
    var e := x - i * d;
    hide Quot, Mul;
    RoundedProduct(i, d, e, inv, s, inv * d - s);
    ProductFits(x * inv, i, p, s);
    QuotIs(Mul(x, inv), i, s);
  }

  /** The product lies between two multiples of the shifted-out power. */
  lemma RoundedProduct(i: nat, d: nat, e: nat, inv: nat, s: nat, t: nat)
    requires inv * d == s + t && e < d && (i + 1) * t < inv
    ensures i * s <= (i * d + e) * inv < i * s + s
  {
    SplitProduct(i, d, e, inv, s, t);
    EdgeBelow(i, t, e, d, inv, s);
  }

  lemma ProductFits(y: int, i: nat, p: nat, s: nat)
    requires i < p && y < i * s + s
    ensures y < p * s
  {
    MulMono(i + 1, p, s);
    DistributeLeft(i, 1, s);
  }

  lemma ErrorSmall(i: nat, d: nat, m: nat)
    requires 3 <= d <= LARGEST_INVERSE && 2 * m + 10 <= WORD_BITS && i < P(m)
    ensures P(Shift(m)) < Inverse(d, m) * d && (i + 1) * (Inverse(d, m) * d - P(Shift(m))) < Inverse(d, m)
  {
    InverseError(d, m);
    var inv := Inverse(d, m);
    hide Inverse, P, Shift;
    ErrorBelow(i, inv * d - P(Shift(m)), d, m, inv);
  }

  /** The inverse is rounded up by less than the divisor. */
  lemma InverseError(d: nat, m: nat)
    requires d > 0 && m <= WORD_BITS
    ensures 0 < Inverse(d, m) * d - P(Shift(m)) <= d
  {
    DistributeLeft(Quot(P(Shift(m)), d), 1, d);
  }

  lemma WholeWord(m: nat)
    requires m <= WORD_BITS
    ensures P(m) * P(Shift(m)) == P(WORD_BITS)
  {
    Add(m, Shift(m));
  }

  lemma SplitProduct(i: nat, d: nat, e: nat, inv: nat, s: nat, t: nat)
    requires inv * d == s + t
    ensures (i * d + e) * inv == i * s + (i * t + e * inv)
  {
    DistributeLeft(i * d, e, inv);
    Associate(i, d, inv);
    assert i * (s + t) == i * s + i * t;
  }

  /** The error that rounding adds stays below the inverse. */
  lemma ErrorBelow(i: nat, t: nat, d: nat, m: nat, inv: nat)
    requires d <= LARGEST_INVERSE && 2 * m + 10 <= WORD_BITS && i < P(m) && t <= d && P(Shift(m)) < inv * d
    ensures (i + 1) * t < inv
  {
    var p := P(m);
    RoomForError(m, d);
    MulMono(i + 1, p, t);
    MulMono(t, d, p);
    if inv <= p * d {
      MulMono(inv, p * d, d);
    }
  }

  lemma RoomForError(m: nat, d: nat)
    requires d <= LARGEST_INVERSE && 2 * m + 10 <= WORD_BITS
    ensures P(m) * d * d <= P(Shift(m))
  {
    SquareBound(P(m), d);
    Mono(m + 10, Shift(m));
    Add(m, 10);
    assert P(10) == 1024;
  }

  lemma SquareBound(p: nat, d: nat)
    requires d <= LARGEST_INVERSE
    ensures p * d * d <= p * 1024
  {
    Associate(p, d, d);
    Square(d);
    MulMono(d * d, 1024, p);
  }

  lemma Square(d: nat)
    requires d <= LARGEST_INVERSE
    ensures d * d <= 1024
  {
    MulMono(d, LARGEST_INVERSE, d);
  }

  lemma EdgeBelow(i: nat, t: nat, e: nat, d: nat, inv: nat, s: nat)
    requires e < d && inv * d == s + t && (i + 1) * t < inv
    ensures 0 <= i * t + e * inv < s
  {
    MulMono(e + 1, d, inv);
    DistributeLeft(e, 1, inv);
    DistributeLeft(i, 1, t);
    AtLeastZero(i, t);
    AtLeastZero(e, inv);
  }

  /** Shifting both numbers first does not change the quotient. */
  lemma ShiftFirst(x: nat, d: nat, p: nat)
    requires d > 0 && p > 0
    ensures d * p > 0 && Quot(Quot(x, p), d) == Quot(x, d * p)
  {
    AtLeast(d, p);
    var y := Quot(x, p);
    var i := Quot(y, d);
    Associate(i, d, p);
    MulMono(i * d, y, p);
    MulMono(y + 1, i * d + d, p);
    DistributeLeft(y, 1, p);
    DistributeLeft(i * d, d, p);
    QuotIs(x, i, d * p);
  }

  /** The index is the quotient, for every distance that the regions of a run can have. */
  lemma RegindIsQuotient(diff: nat, interval: nat, m: nat)
    requires interval > 0 && 2 * m + 10 <= WORD_BITS && diff < interval * P(m)
    ensures Regind(diff, interval, m) == Quot(diff, interval)
  {
    var p := P(Trailing(interval));
    var x, d := Quot(diff, p), Odd(interval);
    Rescale(interval);
    ShiftFirst(diff, d, p);
    hide Quot, Odd, Trailing, P, Inverse, Mul, Shift;
    if d == 1 {
      QuotIs(x, x, 1);
    } else if d <= LARGEST_INVERSE {
      ScaledBelow(diff, d, p, P(m));
      InverseDivides(x, d, m);
      InWord(Mul(x, Inverse(d, m)));
    }
  }

  lemma InWord(x: nat)
    requires x < P(WORD_BITS)
    ensures x % P(WORD_BITS) == x
  {
    DivModUnique(x, 0, x, P(WORD_BITS));
  }

  lemma ScaledBelow(diff: nat, d: nat, p: nat, n: nat)
    requires p > 0 && diff < d * p * n
    ensures Quot(diff, p) < d * n
  {
    Associate(d, p, n);
    Associate(d, n, p);
    assert p * n == n * p;
    QuotBelow(diff, p, d * n);
  }

  /** Every region is found again from its address. */
  lemma RegindInvertsAlloc(rpages: nat, reg0Offset: nat, interval: nat, i: nat, m: nat)
    requires interval > 0 && 2 * m + 10 <= WORD_BITS && i < P(m)
    ensures Regind(RegAddr(rpages, reg0Offset, interval, i) - rpages - reg0Offset, interval, m) == i
  {
    hide Regind, Quot, P;
    MulMono(i + 1, P(m), interval);
    DistributeLeft(i, 1, interval);
    RegindIsQuotient(interval * i, interval, m);
    QuotIs(interval * i, i, interval);
  }
}
