/**
 The linear congruential generator: with a multiplier of the form 4t + 1 and an odd increment it
 walks through every state of the word before it repeats, so the rejection loop that draws a
 number below a bound always ends.
 */
module Prng {
  import opened Arith
  import opened Pow2

  const PRNG_A_32 := 1103515241
  const PRNG_C_32 := 12347
  const PRNG_A_64 := 6364136223846793005
  const PRNG_C_64 := 1442695040888963407

  /** A generator over words of `width` bits. */
  datatype Lcg = Lcg(width: nat, a: nat, c: nat) {
    /** Knuth's conditions for a maximal period when the modulus is a power of two. */
    predicate Good() {
      width >= 1 && a % 4 == 1 && c % 2 == 1
    }

    function Next(state: nat): nat {
      (state * a + c) % P(width)
    }

    ghost function Iter(state: nat, n: nat): nat
      decreases n
    {
      if n == 0 then state else Iter(Next(state), n - 1)
    }
  }

  const U32 := Lcg(32, PRNG_A_32, PRNG_C_32)
  const U64 := Lcg(64, PRNG_A_64, PRNG_C_64)

  // ---------------------------------------------------------------- walks without reduction

  /** `n` steps over the unbounded integers. */
  ghost function Walk(a: int, c: int, x: int, n: nat): int
    decreases n
  {
    if n == 0 then x else Walk(a, c, a * x + c, n - 1)
  }

  lemma {:induction false} WalkAdd(a: int, c: int, x: int, m: nat, n: nat)
    ensures Walk(a, c, x, m + n) == Walk(a, c, Walk(a, c, x, m), n)
    decreases m
  {
    if m > 0 {
      WalkAdd(a, c, a * x + c, m - 1, n);
    }
  }

  /** The generator is the walk, reduced. */
  lemma {:induction false} IterIsWalk(g: Lcg, x: int, n: nat)
    ensures g.Iter(x % P(g.width), n) == Walk(g.a, g.c, x, n) % P(g.width)
    decreases n
  {
    if n > 0 {
      NextIsStep(g, x);
      var next := g.a * x + g.c;
      hide P, Lcg.Next;
      IterIsWalk(g, next, n - 1);
    }
  }

  lemma NextIsStep(g: Lcg, x: int)
    ensures g.Next(x % P(g.width)) == (g.a * x + g.c) % P(g.width)
  {
    ModStep(x, g.a, g.c, P(g.width));
  }

  /** 2^k steps are one affine map whose multiplier is 1 modulo 2^(k+2) and whose increment is an
      odd multiple of 2^k. */
  ghost predicate Affine(a: int, c: int, n: nat, h: int, t: int, o: int) {
    forall x :: Walk(a, c, x, n) == x + (4 * t * x + o) * h
  }

  lemma AffineOnce(a: int, c: int)
    requires a % 4 == 1
    ensures Affine(a, c, 1, 1, a / 4, c)
  {
    var t := a / 4;
    forall x ensures Walk(a, c, x, 1) == x + (4 * t * x + c) * 1 {
      assert Walk(a, c, x, 1) == Walk(a, c, a * x + c, 0) == a * x + c;
      assert a * x == (4 * t + 1) * x;
      DistributeLeft(4 * t, 1, x);
    }
  }

  lemma AffineTwice(a: int, c: int, h: nat, t: int, o: int)
    requires Affine(a, c, h, h, t, o)
    ensures Affine(a, c, 2 * h, 2 * h, t + 2 * (t * t * h), o + 2 * (t * o * h))
  {
    hide Walk;
    var t', o' := t + 2 * (t * t * h), o + 2 * (t * o * h);
    forall x ensures Walk(a, c, x, 2 * h) == x + (4 * t' * x + o') * (2 * h) {
      var y := Walk(a, c, x, h);
      WalkAdd(a, c, x, h, h);
      assert Walk(a, c, x, 2 * h) == y + (4 * t * y + o) * h;
      Squaring(h, t, o, x, y);
    }
  }

  lemma {:induction false} Doubling(a: int, c: int, k: nat) returns (t: int, o: int)
    requires a % 4 == 1 && c % 2 == 1
    ensures o % 2 == 1 && Affine(a, c, P(k), P(k), t, o)
    decreases k
  {
    hide Affine, Walk;
    if k == 0 {
      AffineOnce(a, c);
      t, o := a / 4, c;
    } else {
      var h := P(k - 1);
      t, o := Doubling(a, c, k - 1);
      AffineTwice(a, c, h, t, o);
      t, o := t + 2 * (t * t * h), o + 2 * (t * o * h);
    }
  }

  lemma SquaredSlope(h: int, t: int, o: int, x: int)
    ensures 4 * (t + 2 * (t * t * h)) * x + (o + 2 * (t * o * h))
            == (4 * t * x + o) + 2 * (t * h * (4 * t * x + o))
  {
    assert (t * t * h) * x == t * h * (t * x);
    assert t * o * h == t * h * o;
  }

  lemma SquaredStep(h: int, t: int, d: int, x: int)
    ensures x + d * h + (d + 4 * (t * (d * h))) * h == x + (d + 2 * (t * h * d)) * (2 * h)
  {
    assert t * (d * h) == t * h * d;
    DistributeLeft(d, 4 * (t * h * d), h);
    DistributeLeft(d, 2 * (t * h * d), 2 * h);
  }

  lemma Squaring(h: int, t: int, o: int, x: int, y: int)
    requires y == x + (4 * t * x + o) * h
    ensures y + (4 * t * y + o) * h
            == x + (4 * (t + 2 * (t * t * h)) * x + (o + 2 * (t * o * h))) * (2 * h)
  {
    var d := 4 * t * x + o;
    assert 4 * t * y + o == d + 4 * (t * (d * h)) by {
      DistributeLeft(x, d * h, 4 * t);
    }
    SquaredSlope(h, t, o, x);
    SquaredStep(h, t, d, x);
  }

  /** m * 2^k steps add m * 2^k, up to a multiple of 2^(k+1). */
  lemma {:induction false} Strides(a: int, c: int, x: int, k: nat, m: nat) returns (q: int)
    requires a % 4 == 1 && c % 2 == 1
    ensures Walk(a, c, x, m * P(k)) == x + (m + 2 * q) * P(k)
    decreases m
  {
    var h := P(k);
    if m == 0 {
      q := 0;
      assert 0 * h == 0;
    } else {
      var t, o := Doubling(a, c, k);
      var y := Walk(a, c, x, h);
      var z := 4 * t * x + o;
      assert y == x + z * h;
      DistributeLeft(m - 1, 1, h);
      assert m * h == h + (m - 1) * h;
      WalkAdd(a, c, x, h, (m - 1) * h);
      var r := Strides(a, c, y, k, m - 1);
      q := r + 2 * t * x + o / 2;
      assert z == 1 + 2 * (2 * t * x + o / 2);
      DistributeLeft(z, m - 1 + 2 * r, h);
    }
  }

  /** Every positive number is an odd multiple of a power of two. */
  lemma {:induction false} OddPart(n: nat) returns (k: nat, m: nat)
    requires n > 0
    ensures n == m * P(k) && m % 2 == 1
  {
    if n % 2 == 1 {
      k, m := 0, n;
    } else {
      k, m := OddPart(n / 2);
      k := k + 1;
      assert n == m * P(k);
    }
  }

  /** Fewer than 2^width steps never lead back. */
  lemma NoShortCycle(a: int, c: int, x: int, n: nat, w: nat, z: int)
    requires a % 4 == 1 && c % 2 == 1 && 0 < n < P(w)
    ensures Walk(a, c, x, n) != x + z * P(w)
  {
    hide P, Walk;
    var k, m := OddPart(n);
    if k >= w {
      Mono(w, k);
      AtLeast(m, P(k));
      assert false;
    }
    var q := Strides(a, c, x, k, m);
    OddIsNotEven(m + 2 * q, k, w, z);
  }

  lemma OddIsNotEven(odd: int, k: nat, w: nat, z: int)
    requires odd % 2 == 1 && k < w
    ensures odd * P(k) != z * P(w)
  {
    var h, e := P(k), P(w - k - 1);
    Add(k + 1, w - k - 1);
    TwiceOut(h, e, z);
    if odd * h == z * P(w) {
      CancelRight(odd, 2 * (z * e), h);
    }
  }

  lemma TwiceOut(h: int, e: int, z: int)
    ensures z * (2 * h * e) == 2 * (z * e) * h
  {
    Associate(2, h, e);
    Associate(2, z * e, h);
    Associate(z, e, h);
    assert z * (2 * (h * e)) == 2 * (z * (h * e));
  }

  lemma CancelRight(a: int, b: int, h: int)
    requires h > 0 && a * h == b * h
    ensures a == b
  {
    DistributeLeft(a, b, h);
    DistributeLeft(b, a, h);
    if a > b {
      AtLeast(a - b, h);
    } else if b > a {
      AtLeast(b - a, h);
    }
  }

  // ---------------------------------------------------------------- the period

  lemma {:induction false} IterAdd(g: Lcg, x: nat, m: nat, n: nat)
    ensures g.Iter(x, m + n) == g.Iter(g.Iter(x, m), n)
    decreases m
  {
    if m > 0 {
      IterAdd(g, g.Next(x), m - 1, n);
    }
  }

  lemma {:induction false} IterBound(g: Lcg, x: nat, n: nat)
    requires x < P(g.width)
    ensures g.Iter(x, n) < P(g.width)
    decreases n
  {
    if n > 0 {
      IterBound(g, g.Next(x), n - 1);
    }
  }

  /** A full turn of the word leads back to the start, and nothing shorter does. */
  lemma ReturnTime(g: Lcg, x: nat, n: nat)
    requires g.Good() && x < P(g.width) && 0 < n <= P(g.width)
    ensures g.Iter(x, n) == x <==> n == P(g.width)
  {
    var m := P(g.width);
    DivModUnique(x, 0, x, m);
    IterIsWalk(g, x, n);
    var y := Walk(g.a, g.c, x, n);
    if n < m {
      NoShortCycle(g.a, g.c, x, n, g.width, y / m);
      assert y == (y / m) * m + y % m;
    } else {
      var q := Strides(g.a, g.c, x, g.width, 1);
      ModShift(x, 1 + 2 * q, m);
    }
  }

  lemma NoRepeat(g: Lcg, x: nat, i: nat, j: nat)
    requires g.Good() && x < P(g.width) && i < j < P(g.width)
    ensures g.Iter(x, i) != g.Iter(x, j)
  {
    IterBound(g, x, i);
    IterAdd(g, x, i, j - i);
    ReturnTime(g, g.Iter(x, i), j - i);
  }

  ghost function Visited(g: Lcg, x: nat, n: nat): set<nat> {
    set i | 0 <= i < n :: g.Iter(x, i)
  }

  lemma {:induction false} VisitedCount(g: Lcg, x: nat, n: nat)
    requires g.Good() && x < P(g.width) && n <= P(g.width)
    ensures |Visited(g, x, n)| == n
  {
    if n == 0 {
      assert Visited(g, x, n) == {};
    } else {
      VisitedCount(g, x, n - 1);
      var last := g.Iter(x, n - 1);
      forall i | 0 <= i < n - 1 ensures g.Iter(x, i) != last {
        NoRepeat(g, x, i, n - 1);
      }
      assert Visited(g, x, n) == Visited(g, x, n - 1) + {last};
    }
  }

  ghost function Below(n: nat): set<nat> {
    if n == 0 then {} else Below(n - 1) + {n - 1}
  }

  lemma {:induction false} BelowIs(n: nat)
    ensures |Below(n)| == n
    ensures forall y: nat :: y in Below(n) <==> y < n
  {
    if n > 0 {
      BelowIs(n - 1);
    }
  }

  lemma SubsetOfSameSize(s: set<nat>, t: set<nat>)
    requires s <= t && |s| == |t|
    ensures s == t
  {
    if y :| y in t && y !in s {
      SubsetSize(s + {y}, t);
    }
  }

  lemma {:induction false} SubsetSize<T>(s: set<T>, t: set<T>)
    requires s <= t
    ensures |s| <= |t|
  {
    if s != {} {
      var y :| y in s;
      SubsetSize(s - {y}, t - {y});
    }
  }

  /** The maximal period: from any state, every state is reached within one turn of the word. */
  lemma FullPeriod(g: Lcg, x: nat, y: nat) returns (n: nat)
    requires g.Good() && x < P(g.width) && y < P(g.width)
    ensures n < P(g.width) && g.Iter(x, n) == y
  {
    var m := P(g.width);
    forall i | 0 <= i < m ensures g.Iter(x, i) < m {
      IterBound(g, x, i);
    }
    VisitedCount(g, x, m);
    BelowIs(m);
    SubsetOfSameSize(Visited(g, x, m), Below(m));
    assert y in Below(m);
    n :| 0 <= n < m && g.Iter(x, n) == y;
  }

  /** Both generators of the source meet the conditions. */
  lemma SourceConstants()
    ensures U32.Good() && U64.Good()
    ensures P(U32.width) == 0x1_0000_0000 && P(U64.width) == 0x1_0000_0000_0000_0000
  {
    Word32();
    Word64();
  }

  // ---------------------------------------------------------------- drawing below a bound

  /** The exponent of the smallest power of two that is at least `x`. */
  function LgCeil(x: nat): (k: nat)
    ensures x <= P(k)
    ensures forall j :: 0 <= j < k ==> P(j) < x
  {
    LgCeilFrom(x, 0)
  }

  function LgCeilFrom(x: nat, k: nat): (r: nat)
    requires forall j :: 0 <= j < k ==> P(j) < x
    ensures x <= P(r)
    ensures forall j :: 0 <= j < r ==> P(j) < x
    decreases x - k
  {
    Exceeds(k);
    if x <= P(k) then k else LgCeilFrom(x, k + 1)
  }

  /** pow2_ceil_*(): the power wraps to zero when it does not fit the word. */
  function Pow2Ceil(width: nat, x: nat): nat {
    P(LgCeil(x)) % P(width)
  }

  /** ffs_*() of a power of two, or of zero. */
  function Ffs(x: nat): nat {
    if x == 0 then 0 else LgCeil(x) + 1
  }

  /** The argument that prng_range_*() computes for prng_lg_range_*(), an `unsigned`. */
  function RangeExponent(width: nat, range: nat): nat {
    (Ffs(Pow2Ceil(width, range)) - 1) % 0x1_0000_0000
  }

  lemma LgCeilOfPower(k: nat)
    ensures LgCeil(P(k)) == k
  {
    var r := LgCeil(P(k));
    if r < k {
      Mono(r, k);
    } else if k < r {
      assert false;
    }
  }

  lemma LgCeilFits(width: nat, range: nat)
    requires width >= 1 && 1 < range < P(width)
    ensures 1 <= LgCeil(range) <= width
    ensures LgCeil(range) < width <==> range <= P(width - 1)
  {
    var k := LgCeil(range);
    assert P(0) == 1;
    if k > width {
      assert false;
    }
    if k < width {
      Mono(k, width - 1);
    } else {
      assert P(width - 1) < range;
    }
  }

  lemma SmallRange(width: nat, range: nat)
    requires 1 <= width <= 64 && 1 < range <= P(width - 1) && LgCeil(range) < width
    ensures RangeExponent(width, range) == LgCeil(range)
  {
    var k := LgCeil(range);
    Mono(k, width);
    DivModUnique(P(k), 0, P(k), P(width));
    LgCeilOfPower(k);
  }

  lemma LargeRange(width: nat, range: nat)
    requires LgCeil(range) == width
    ensures RangeExponent(width, range) == 0xffff_ffff
  {
    DivModUnique(P(width), 1, 0, P(width));
  }

  /** The exponent is one that prng_lg_range_*() accepts exactly for ranges up to half the word;
      for a larger range the ceiling wraps to zero and the assertion there fails. */
  lemma RangeIsAccepted(width: nat, range: nat)
    requires 1 <= width <= 64 && 1 < range < P(width)
    ensures 0 < RangeExponent(width, range) <= width <==> range <= P(width - 1)
    ensures range <= P(width - 1) ==> RangeExponent(width, range) == LgCeil(range)
  {
    hide P, RangeExponent, LgCeil;
    LgCeilFits(width, range);
    if LgCeil(range) < width {
      SmallRange(width, range);
    } else {
      LargeRange(width, range);
    }
  }

  function Shifted(x: nat, bits: nat): nat {
    Quot(x, P(bits))
  }

  lemma TopBits(width: nat, lg: nat, x: nat)
    requires lg <= width && x < P(width)
    ensures Shifted(x, width - lg) < P(lg)
  {
    Add(lg, width - lg);
    QuotBelow(x, P(width - lg), P(lg));
  }

  /** The `n`-th number that prng_lg_range_*() draws from `state`. */
  ghost function Draw(g: Lcg, state: nat, lg: nat, n: nat): nat
    requires lg <= g.width
  {
    Shifted(g.Iter(state, n), g.width - lg)
  }

  /** Some state ahead is zero, and it draws zero. */
  lemma ZeroAhead(g: Lcg, state: nat) returns (n: nat)
    requires g.Good() && state < P(g.width)
    ensures n > 0 && g.Iter(state, n) == 0
  {
    if state == 0 {
      n := P(g.width);
      ReturnTime(g, 0, n);
    } else {
      n := FullPeriod(g, state, 0);
    }
  }

  lemma StepAhead(g: Lcg, start: nat, state: nat, n: nat, left: nat)
    requires state == g.Iter(start, n) && left > 0 && g.Iter(state, left) == 0
    ensures g.Next(state) == g.Iter(start, n + 1) && g.Iter(g.Next(state), left - 1) == 0
  {
    IterAdd(g, start, n, 1);
    assert g.Iter(state, 1) == g.Iter(g.Next(state), 0);
  }

  /** A generator with its state, as the callers keep it. */
  class Generator {
    const g: Lcg
    var state: nat

    ghost predicate Valid()
      reads this
    {
      g.Good() && g.width <= 64 && state < P(g.width)
    }

    constructor (g: Lcg, seed: nat)
      requires g.Good() && g.width <= 64 && seed < P(g.width)
      ensures Valid() && this.g == g && state == seed
    {
      this.g := g;
      state := seed;
    }

    /** prng_lg_range_*(), not atomic */
    method LgRange(lg: nat) returns (ret: nat)
      requires Valid() && 0 < lg <= g.width
      modifies this
      ensures Valid() && state == g.Next(old(state))
      ensures ret == Shifted(state, g.width - lg) && ret < P(lg)
    {
      var state1 := g.Next(state);
      state := state1;
      ret := Shifted(state1, g.width - lg);
      TopBits(g.width, lg, state1);
    }

    /** prng_range_*(), not atomic: the first number drawn that is below `range`; the loop ends from
        every state. */
    method Range(range: nat) returns (ret: nat, ghost n: nat)
      requires Valid() && 1 < range <= P(g.width - 1)
      modifies this
      ensures Valid() && ret < range
      ensures n > 0 && state == g.Iter(old(state), n)
      ensures ret == Draw(g, old(state), LgCeil(range), n)
      ensures forall i :: 0 < i < n ==> Draw(g, old(state), LgCeil(range), i) >= range
    {
      hide P, Shifted, LgCeil, RangeExponent, Lcg.Next;
      Mono(g.width - 1, g.width);
      RangeIsAccepted(g.width, range);
      var lg := RangeExponent(g.width, range);
      ghost var left := ZeroAhead(g, state);
      StepAhead(g, state, state, 0, left);
      ret := LgRange(lg);
      n, left := 1, left - 1;
      while ret >= range
        invariant Valid() && n > 0
        invariant g.Iter(state, left) == 0
        invariant state == g.Iter(old(state), n)
        invariant ret == Draw(g, old(state), lg, n)
        invariant forall i :: 0 < i < n ==> Draw(g, old(state), lg, i) >= range
        decreases left
      {
        ZeroDraws(g.width - lg);
        StepAhead(g, old(state), state, n, left);
        ret := LgRange(lg);
        n, left := n + 1, left - 1;
      }
    }
  }

  lemma ZeroDraws(bits: nat)
    ensures Shifted(0, bits) == 0
  {
    QuotIs(0, 0, P(bits));
  }
}
