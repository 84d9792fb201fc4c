/** Printing numbers into the end of a buffer, and parsing them again. */
module NumText {
  import opened Wrappers
  import opened Arith
  import opened Pow2

  const UINTMAX_MAX: nat := 0xffff_ffff_ffff_ffff
  const WORD: nat := 0x1_0000_0000_0000_0000
  const U2S_BUFSIZE: nat := 65

  // ---------------------------------------------------------------- digits

  /** What a character is worth as a digit. */
  function DigitOf(c: char): Option<nat> {
    if '0' <= c <= '9' then Some(c as nat - '0' as nat)
    else if 'A' <= c <= 'Z' then Some(10 + (c as nat - 'A' as nat))
    else if 'a' <= c <= 'z' then Some(10 + (c as nat - 'a' as nat))
    else None
  }

  function DigitChar(d: nat, uppercase: bool): (c: char)
    requires d < 36
    ensures DigitOf(c) == Some(d)
  {
    if d < 10 then '0' + d as char
    else if uppercase then 'A' + (d - 10) as char
    else 'a' + (d - 10) as char
  }

  /** The digits of `x`, most significant first. */
  function Digits(x: nat, base: nat, uppercase: bool): (s: string)
    requires 2 <= base <= 36
    ensures s != []
    decreases x
  {
    var q := Quot(x, base);
    SmallerQuot(x, base);
    (if q == 0 then [] else Digits(q, base, uppercase)) + [DigitChar(x - q * base, uppercase)]
  }

  lemma SmallerQuot(x: nat, base: nat)
    requires 2 <= base
    ensures Quot(x, base) <= x && (x > 0 ==> Quot(x, base) < x)
  {
    var q := Quot(x, base);
    MulMono(2, base, q);
  }

  /** The number that digits stand for, after `ret`. */
  function Fold(ret: nat, s: string, base: nat): nat
    requires forall i :: 0 <= i < |s| ==> IsDigit(s[i], base)
    decreases |s|
  {
    if s == [] then ret else Fold(Step(ret, s[0], base), s[1..], base)
  }

  predicate IsDigit(c: char, base: nat) {
    DigitOf(c).Some? && DigitOf(c).value < base
  }

  function Step(ret: nat, c: char, base: nat): (r: nat)
    requires IsDigit(c, base)
    ensures base > 0 ==> r >= ret
  {
    AtLeastZero(ret, base);
    StepGrows(ret, base);
    ret * base + DigitOf(c).value
  }

  lemma StepGrows(ret: nat, base: nat)
    ensures base > 0 ==> ret * base >= ret
  {
    if base > 0 {
      MulMono(1, base, ret);
    }
  }

  lemma {:induction false} FoldAppend(ret: nat, s: string, c: char, base: nat)
    requires (forall i :: 0 <= i < |s| ==> IsDigit(s[i], base)) && IsDigit(c, base)
    ensures forall i :: 0 <= i < |s + [c]| ==> IsDigit((s + [c])[i], base)
    ensures Fold(ret, s + [c], base) == Step(Fold(ret, s, base), c, base)
    decreases s
  {
    if s == [] {
      assert s + [c] == [c] && [c][1..] == [];
    } else {
      assert (s + [c])[1..] == s[1..] + [c];
      FoldAppend(Step(ret, s[0], base), s[1..], c, base);
    }
  }

  /** The digits of a number stand for it. */
  lemma {:induction false} DigitsFold(x: nat, base: nat, uppercase: bool)
    requires 2 <= base <= 36
    ensures forall i :: 0 <= i < |Digits(x, base, uppercase)| ==> IsDigit(Digits(x, base, uppercase)[i], base)
    ensures Fold(0, Digits(x, base, uppercase), base) == x
    decreases x
  {
    var q := Quot(x, base);
    var c := DigitChar(x - q * base, uppercase);
    SmallerQuot(x, base);
    if q != 0 {
      DigitsFold(q, base, uppercase);
      FoldAppend(0, Digits(q, base, uppercase), c, base);
    } else {
      FoldAppend(0, [], c, base);
      assert [] + [c] == [c];
    }
  }

  /** Only zero begins with the digit zero. */
  lemma {:induction false} DigitsHead(x: nat, base: nat, uppercase: bool)
    requires 2 <= base <= 36
    ensures var s := Digits(x, base, uppercase);
            IsDigit(s[0], base) && (s[0] == '0' <==> x == 0) && (x == 0 ==> s == "0" && |s| == 1)
    decreases x
  {
    var q := Quot(x, base);
    SmallerQuot(x, base);
    if q != 0 {
      DigitsHead(q, base, uppercase);
    }
  }

  /** Digits of a word fit the buffer: 64 of them at most, and 32 from base four on. */
  lemma {:induction false} DigitsShort(x: nat, base: nat, uppercase: bool, n: nat)
    requires 2 <= base <= 36 && 1 <= n && x < P(n)
    ensures |Digits(x, base, uppercase)| <= n
    decreases n
  {
    var q := Quot(x, base);
    if q != 0 {
      MulMono(2, base, q);
      DigitsShort(q, base, uppercase, n - 1);
    }
  }

  lemma {:induction false} DigitsShorter(x: nat, base: nat, uppercase: bool, n: nat)
    requires 4 <= base <= 36 && 1 <= n && x < P(2 * n)
    ensures |Digits(x, base, uppercase)| <= n
    decreases n
  {
    var q := Quot(x, base);
    if q != 0 {
      MulMono(4, base, q);
      assert P(2 * n) == 4 * P(2 * (n - 1));
      DigitsShorter(q, base, uppercase, n - 1);
    }
  }

  lemma WordIs()
    ensures WORD == P(64)
  {
    Word64();
  }

  // ---------------------------------------------------------------- printing

  /** One character in front of those that are there. */
  method PutBefore(s: array<char>, i: nat, c: char) returns (j: nat)
    requires 0 < i <= U2S_BUFSIZE <= s.Length
    modifies s
    ensures j == i - 1 && s[j..U2S_BUFSIZE] == [c] + old(s[i..U2S_BUFSIZE])
    ensures s[U2S_BUFSIZE..] == old(s[U2S_BUFSIZE..])
  {
    j := i - 1;
    s[j] := c;
    assert s[i..U2S_BUFSIZE] == old(s[i..U2S_BUFSIZE]);
    assert s[j..U2S_BUFSIZE] == [s[j]] + s[i..U2S_BUFSIZE];
  }

  function LastDigit(x: nat, base: nat, uppercase: bool): char
    requires 2 <= base <= 36
  {
    DigitChar(x - Quot(x, base) * base, uppercase)
  }

  lemma DigitsLast(x: nat, base: nat, uppercase: bool)
    requires 2 <= base <= 36
    ensures var q := Quot(x, base);
            Digits(x, base, uppercase) ==
            (if q == 0 then [] else Digits(q, base, uppercase)) + [LastDigit(x, base, uppercase)]
  {
  }

  /** u2s(): the digits end just before the terminator, which is the last character of the buffer. */
  method U2s(x: nat, base: nat, uppercase: bool, s: array<char>) returns (i: nat)
    requires x < WORD && 2 <= base <= 36 && s.Length >= U2S_BUFSIZE
    modifies s
    ensures i < U2S_BUFSIZE && s[i..U2S_BUFSIZE] == Digits(x, base, uppercase) + ['\0']
    ensures base >= 4 ==> i >= 32
    ensures s[U2S_BUFSIZE..] == old(s[U2S_BUFSIZE..])
  {
    hide Quot, LastDigit, Digits, P;
    WordIs();
    DigitsShort(x, base, uppercase, 64);
    if base >= 4 {
      DigitsShorter(x, base, uppercase, 32);
    }
    ghost var all := Digits(x, base, uppercase);
    i := PutBefore(s, U2S_BUFSIZE, '\0');
    DigitsLast(x, base, uppercase);
    i := PutBefore(s, i, LastDigit(x, base, uppercase));
    var y: nat := Quot(x, base);
    while y > 0
      invariant i < U2S_BUFSIZE - 1 && s[U2S_BUFSIZE..] == old(s[U2S_BUFSIZE..])
      invariant all + ['\0'] == (if y == 0 then [] else Digits(y, base, uppercase)) + s[i..U2S_BUFSIZE]
      decreases y
    {
      SmallerQuot(y, base);
      DigitsLast(y, base, uppercase);
      ghost var front := if Quot(y, base) == 0 then [] else Digits(Quot(y, base), base, uppercase);
      ghost var c, back := LastDigit(y, base, uppercase), s[i..U2S_BUFSIZE];
      assert (front + [c]) + back == front + ([c] + back);
      i := PutBefore(s, i, LastDigit(y, base, uppercase));
      y := Quot(y, base);
    }
  }

  /** d2s(), as text; `sign` is one of '-', ' ' and '+'. */
  function D2sText(x: int, sign: char): string {
    if x < 0 then "-" + Digits(-x, 10, false)
    else (if sign == ' ' || sign == '+' then [sign] else "") + Digits(x, 10, false)
  }

  /** o2s() and x2s(), as text. */
  function O2sText(x: nat, altForm: bool): string {
    var s := Digits(x, 8, false);
    if altForm && s[0] != '0' then "0" + s else s
  }

  function X2sText(x: nat, altForm: bool, uppercase: bool): string {
    (if altForm then if uppercase then "0X" else "0x" else "") + Digits(x, 16, uppercase)
  }

  lemma {:induction false} DigitsCase(x: nat, base: nat, uppercase: bool, i: nat)
    requires 2 <= base <= 36 && i < |Digits(x, base, uppercase)|
    ensures var c := Digits(x, base, uppercase)[i];
            '0' <= c <= '9' || if uppercase then 'A' <= c <= 'Z' else 'a' <= c <= 'z'
    decreases x
  {
    var q := Quot(x, base);
    SmallerQuot(x, base);
    if q != 0 && i < |Digits(q, base, uppercase)| {
      DigitsCase(q, base, uppercase, i);
    }
  }

  /** What stands in front of the digits: the sign or what was asked for in its place, and the mark of the base. */
  lemma Fronts(x: int, y: nat, sign: char, altForm: bool, uppercase: bool)
    requires sign in {'-', ' ', '+'}
    ensures var s := D2sText(x, sign);
            && (s[0] == '-' <==> x < 0) && (s[0] == sign != '-' <==> x >= 0 && sign != '-')
            && (x >= 0 && sign == '-' ==> s == Digits(x, 10, false))
            && (s[0] in {'-', ' ', '+'} ==> s[1..] == Digits(if x < 0 then -x else x, 10, false))
    ensures var s := X2sText(y, altForm, uppercase);
            if altForm then s[0] == '0' && s[1] == (if uppercase then 'X' else 'x') && s[2..] == Digits(y, 16, uppercase)
            else s == Digits(y, 16, uppercase)
    ensures var s, d := O2sText(y, altForm), Digits(y, 8, false);
            (altForm ==> s[0] == '0') && (!altForm || y == 0 ==> s == d) && (altForm && y != 0 ==> s[1..] == d)
  {
    DigitsHead(y, 8, false);
    var z: nat := if x < 0 then -x else x;
    DigitsHead(z, 10, false);
    hide Digits;
  }

  /** d2s(); negating the most negative number is undefined. */
  method D2s(x: int, sign: char, s: array<char>) returns (i: nat)
    requires -0x8000_0000_0000_0000 < x < 0x8000_0000_0000_0000 && sign in {'-', ' ', '+'}
    requires s.Length >= U2S_BUFSIZE
    modifies s
    ensures i < U2S_BUFSIZE && s[i..U2S_BUFSIZE] == D2sText(x, sign) + ['\0']
  {
    hide Digits;
    var neg := x < 0;
    i := U2s(if neg then -x else x, 10, false, s);
    var c := if neg then '-' else sign;
    if neg || c != '-' {
      i := PutBefore(s, i, c);
    }
  }

  method O2s(x: nat, altForm: bool, s: array<char>) returns (i: nat)
    requires x < WORD && s.Length >= U2S_BUFSIZE
    modifies s
    ensures i < U2S_BUFSIZE && s[i..U2S_BUFSIZE] == O2sText(x, altForm) + ['\0']
  {
    hide Digits;
    i := U2s(x, 8, false, s);
    assert s[i] == s[i..U2S_BUFSIZE][0];
    if altForm && s[i] != '0' {
      i := PutBefore(s, i, '0');
    }
  }

  method X2s(x: nat, altForm: bool, uppercase: bool, s: array<char>) returns (i: nat)
    requires x < WORD && s.Length >= U2S_BUFSIZE
    modifies s
    ensures i < U2S_BUFSIZE && s[i..U2S_BUFSIZE] == X2sText(x, altForm, uppercase) + ['\0']
  {
    hide Digits;
    i := U2s(x, 16, uppercase, s);
    if altForm {
      i := PutBefore(s, i, if uppercase then 'X' else 'x');
      i := PutBefore(s, i, '0');
    }
  }

  // ---------------------------------------------------------------- parsing

  datatype Errno = NoError | EInval | ERange

  /** What malloc_strtoumax() returns, where it stopped, and the error it set. */
  datatype Parsed = Parsed(value: nat, end: nat, errno: Errno)

  /** A character of a terminated string. */
  function At(s: string, i: nat): char {
    if i < |s| then s[i] else '\0'
  }

  predicate IsSpace(c: char) {
    c == '\t' || c == '\n' || c == 11 as char || c == 12 as char || c == '\r' || c == ' '
  }

  function SkipSpace(s: string, p: nat): (q: nat)
    requires p <= |s|
    ensures p <= q <= |s|
    decreases |s| - p
  {
    if p < |s| && IsSpace(s[p]) then SkipSpace(s, p + 1) else p
  }

  /** What stands before the digits: the base, and where the digits begin; or a lone zero. */
  datatype Prefix = Base(b: nat, p: nat) | Zero(p: nat)

  function PrefixOf(s: string, p: nat, base: nat): Prefix {
    var c := At(s, p + 1);
    if At(s, p) != '0' then Base(if base == 0 then 10 else base, p)
    else if '0' <= c <= '7' then
      var b := if base == 0 then 8 else base;
      Base(b, if b == 8 then p + 1 else p)
    else if c == 'X' || c == 'x' then
      if IsDigit(At(s, p + 2), 16) then
        var b := if base == 0 then 16 else base;
        Base(b, if b == 16 then p + 2 else p)
      else Base(if base == 0 then 10 else base, p)
    else Zero(p + 1)
  }

  /** The conversion loop from `p` on: its value and where it stops, or where it noticed an overflow. */
  datatype Converted = Value(ret: nat, p: nat) | Overflow(p: nat)

  function Convert(s: string, p: nat, b: nat, ret: nat): Converted
    requires p <= |s|
    decreases |s| - p
  {
    if p < |s| && IsDigit(s[p], b) then
      var next := Step(ret, s[p], b) % WORD;
      if next < ret then Overflow(p) else Convert(s, p + 1, b, next)
    else Value(ret, p)
  }

  /** Negation of a word. */
  function Negated(ret: nat): nat
    requires ret < WORD
  {
    (WORD - ret) % WORD
  }

  function Strtoumax(s: string, base: int): Parsed {
    if base < 0 || base == 1 || base > 36 then Parsed(UINTMAX_MAX, 0, EInval)
    else
      var q := SkipSpace(s, 0);
      var neg := At(s, q) == '-';
      var ns := if neg || At(s, q) == '+' then q + 1 else q;
      match PrefixOf(s, ns, base)
      case Zero(p) => Parsed(0, p, NoError)
      case Base(b, p) => Finish(s, neg, ns, b, p)
  }

  function Finish(s: string, neg: bool, ns: nat, b: nat, p: nat): Parsed {
    if p > |s| then Parsed(UINTMAX_MAX, 0, EInval)
    else
      match Convert(s, p, b, 0)
      case Overflow(e) => Parsed(UINTMAX_MAX, if e == ns then 0 else e, ERange)
      case Value(ret, e) =>
        if e == ns then Parsed(UINTMAX_MAX, 0, EInval)
        else Parsed(if neg then (WORD - ret) % WORD else ret, e, NoError)
  }

  /** malloc_strtoumax() */
  method MallocStrtoumax(s: string, base: int) returns (r: Parsed)
    requires forall i :: 0 <= i < |s| ==> s[i] != '\0'
    ensures r == Strtoumax(s, base)
  {
    if base < 0 || base == 1 || base > 36 {
      return Parsed(UINTMAX_MAX, 0, EInval);
    }
    var p := 0;
    while p < |s| && IsSpace(s[p])
      invariant p <= |s| && SkipSpace(s, p) == SkipSpace(s, 0)
    {
      p := p + 1;
    }
    var neg := At(s, p) == '-';
    if neg || At(s, p) == '+' {
      p := p + 1;
    }
    var ns := p;
    var prefix := PrefixOf(s, p, base);
    if prefix.Zero? {
      return Parsed(0, prefix.p, NoError);
    }
    PrefixInside(s, p, base);
    r := ConvertDigits(s, neg, ns, prefix.b, prefix.p);
  }

  lemma PrefixInside(s: string, p: nat, base: nat)
    requires p <= |s|
    ensures PrefixOf(s, p, base).Base? ==> PrefixOf(s, p, base).p <= |s|
  {
  }

  /** The conversion loop of malloc_strtoumax(), and what follows it. */
  method ConvertDigits(s: string, neg: bool, ns: nat, b: nat, start: nat) returns (r: Parsed)
    requires start <= |s|
    ensures r == Finish(s, neg, ns, b, start)
  {
    var p, ret := start, 0;
    while p < |s| && IsDigit(s[p], b)
      invariant p <= |s| && ret < WORD
      invariant Convert(s, p, b, ret) == Convert(s, start, b, 0)
      decreases |s| - p
    {
      var pret := ret;
      ret := Step(ret, s[p], b) % WORD;
      if ret < pret {
        return Parsed(UINTMAX_MAX, if p == ns then 0 else p, ERange);
      }
      p := p + 1;
    }
    if neg {
      ret := Negated(ret);
    }
    if p == ns {
      return Parsed(UINTMAX_MAX, 0, EInval);
    }
    return Parsed(ret, p, NoError);
  }

  // ---------------------------------------------------------------- parsing undoes printing

  predicate AllDigits(s: string, b: nat) {
    forall i :: 0 <= i < |s| ==> IsDigit(s[i], b)
  }

  lemma {:induction false} FoldGrows(ret: nat, s: string, b: nat)
    requires AllDigits(s, b) && b > 0
    ensures Fold(ret, s, b) >= ret
    decreases |s|
  {
    if s != [] {
      FoldGrows(Step(ret, s[0], b), s[1..], b);
    }
  }

  /** Digits to the end of the string, whose value fits a word, are converted to that value. */
  lemma {:induction false} ConvertFold(s: string, p: nat, b: nat, ret: nat)
    requires p <= |s| && b > 0 && AllDigits(s[p..], b) && Fold(ret, s[p..], b) < WORD
    ensures Convert(s, p, b, ret) == Value(Fold(ret, s[p..], b), |s|)
    decreases |s| - p
  {
    if p < |s| {
      var next := Step(ret, s[p], b);
      assert s[p..][0] == s[p] && s[p..][1..] == s[p + 1..];
      FoldGrows(next, s[p + 1..], b);
      assert next % WORD == next;
      ConvertFold(s, p + 1, b, next);
    }
  }

  /** A digit is neither white space nor a sign. */
  lemma DigitFirst(s: string, b: nat)
    requires s != [] && b <= 36 && IsDigit(s[0], b)
    ensures SkipSpace(s, 0) == 0 && At(s, 0) != '-' && At(s, 0) != '+'
  {
  }

  /** The end of parsing, when everything from `p` on is digits of a number that fits. */
  lemma FinishDigits(s: string, neg: bool, ns: nat, b: nat, p: nat, x: nat)
    requires b > 0 && ns <= p < |s| && x < WORD && AllDigits(s[p..], b) && Fold(0, s[p..], b) == x
    ensures Finish(s, neg, ns, b, p) == Parsed(if neg then (WORD - x) % WORD else x, |s|, NoError)
  {
    ConvertFold(s, p, b, 0);
    hide Fold, Convert;
  }

  /** A string of digits that does not begin with zero. */
  lemma PlainText(s: string, base: nat, b: nat, x: nat)
    requires (base == 0 && b == 10) || 2 <= base == b <= 36
    requires s != [] && s[0] != '0' && AllDigits(s, b) && Fold(0, s, b) == x < WORD
    ensures Strtoumax(s, base) == Parsed(x, |s|, NoError)
  {
    DigitFirst(s, b);
    assert s[0..] == s;
    FinishDigits(s, false, 0, b, 0, x);
    hide Fold, Finish, AllDigits;
  }

  lemma ZeroText(base: nat)
    requires base == 0 || 2 <= base <= 36
    ensures Strtoumax("0", base) == Parsed(0, 1, NoError)
  {
    DigitFirst("0", 10);
  }

  lemma OctalText(s: string, base: nat, x: nat)
    requires (base == 0 || base == 8) && |s| > 1 && s[0] == '0' && x < WORD
    requires AllDigits(s[1..], 8) && Fold(0, s[1..], 8) == x
    ensures Strtoumax(s, base) == Parsed(x, |s|, NoError)
  {
    assert IsDigit(s[1..][0], 8);
    DigitFirst(s, 8);
    FinishDigits(s, false, 0, 8, 1, x);
    hide Fold, Finish, AllDigits;
  }

  lemma HexText(s: string, base: nat, x: nat)
    requires (base == 0 || base == 16) && |s| > 2 && s[0] == '0' && (s[1] == 'x' || s[1] == 'X') && x < WORD
    requires AllDigits(s[2..], 16) && Fold(0, s[2..], 16) == x
    ensures Strtoumax(s, base) == Parsed(x, |s|, NoError)
  {
    assert IsDigit(s[2..][0], 16);
    DigitFirst(s, 16);
    FinishDigits(s, false, 0, 16, 2, x);
    hide Fold, Finish, AllDigits;
  }

  /** Digits behind a sign or a space. */
  lemma SignedText(s: string, base: nat, x: nat)
    requires (base == 0 || base == 10) && |s| > 1 && s[0] in {'-', ' ', '+'} && x < WORD
    requires AllDigits(s[1..], 10) && Fold(0, s[1..], 10) == x && (s[1] == '0' ==> |s| == 2)
    ensures Strtoumax(s, base) == Parsed(if s[0] == '-' then (WORD - x) % WORD else x, |s|, NoError)
  {
    assert IsDigit(s[1..][0], 10);
    SignSkipped(s);
    FinishDigits(s, s[0] == '-', 1, 10, 1, x);
    if s[1] == '0' {
      assert s[1..] == "0";
      OneZero();
    }
    hide Fold, Finish, AllDigits;
  }

  lemma OneZero()
    ensures AllDigits("0", 10) && Fold(0, "0", 10) == 0
  {
    assert "0"[1..] == "";
  }

  lemma SignSkipped(s: string)
    requires |s| > 1 && s[0] in {'-', ' ', '+'} && IsDigit(s[1], 10)
    ensures var q := SkipSpace(s, 0);
            && (At(s, q) == '-' <==> s[0] == '-') && (At(s, q) == '+' <==> s[0] == '+')
            && (if s[0] == ' ' then q == 1 else q == 0)
  {
    assert SkipSpace(s, 1) == 1;
  }

  /** For every word and every base, the printed number is parsed to itself and to the end; decimal
      digits also without a base. */
  lemma RoundTrip(x: nat, base: nat, uppercase: bool)
    requires x < WORD && 2 <= base <= 36
    ensures var s := Digits(x, base, uppercase);
            && Strtoumax(s, base) == Parsed(x, |s|, NoError)
            && (base == 10 ==> Strtoumax(s, 0) == Parsed(x, |s|, NoError))
  {
    DigitsHead(x, base, uppercase);
    DigitsFold(x, base, uppercase);
    hide Digits, Strtoumax, Fold;
    var s := Digits(x, base, uppercase);
    if x == 0 {
      ZeroText(base);
      ZeroText(0);
    } else {
      PlainText(s, base, base, x);
      if base == 10 {
        PlainText(s, 0, base, x);
      }
    }
  }

  /** The alternate form of octal says its base. */
  lemma RoundTripOctal(x: nat, base: nat)
    requires x < WORD && (base == 0 || base == 8)
    ensures var s := O2sText(x, true);
            Strtoumax(s, base) == Parsed(x, |s|, NoError)
  {
    DigitsHead(x, 8, false);
    DigitsFold(x, 8, false);
    hide Digits, Strtoumax, Fold;
    var d, s := Digits(x, 8, false), O2sText(x, true);
    if x == 0 {
      ZeroText(base);
    } else {
      assert s[1..] == d;
      OctalText(s, base, x);
    }
  }

  /** The alternate form of hexadecimal says its base. */
  lemma RoundTripHex(x: nat, uppercase: bool, base: nat)
    requires x < WORD && (base == 0 || base == 16)
    ensures var s := X2sText(x, true, uppercase);
            Strtoumax(s, base) == Parsed(x, |s|, NoError)
  {
    DigitsFold(x, 16, uppercase);
    hide Digits, Strtoumax, Fold;
    var d, s := Digits(x, 16, uppercase), X2sText(x, true, uppercase);
    assert s[2..] == d;
    HexText(s, base, x);
  }

  /** Signed decimals are parsed to the same number, modulo the word, whatever the sign policy. */
  lemma RoundTripSigned(x: int, sign: char, base: nat)
    requires -0x8000_0000_0000_0000 < x < 0x8000_0000_0000_0000 && sign in {'-', ' ', '+'}
    requires base == 0 || base == 10
    ensures var s := D2sText(x, sign);
            Strtoumax(s, base) == Parsed(if x < 0 then WORD + x else x, |s|, NoError)
  {
    var y := if x < 0 then -x else x;
    hide Strtoumax, Digits;
    if x < 0 || sign != '-' {
      var c := if x < 0 then '-' else sign;
      assert D2sText(x, sign) == [c] + Digits(y, 10, false);
      SignedDigits(y, base, c);
    } else {
      assert D2sText(x, sign) == Digits(y, 10, false);
      RoundTrip(y, 10, false);
    }
  }

  lemma SignedDigits(y: nat, base: nat, sign: char)
    requires y < WORD && sign in {'-', ' ', '+'} && (base == 0 || base == 10)
    ensures var s := [sign] + Digits(y, 10, false);
            Strtoumax(s, base) == Parsed(if sign == '-' then (WORD - y) % WORD else y, |s|, NoError)
  {
    DigitsHead(y, 10, false);
    DigitsFold(y, 10, false);
    SignBefore(Digits(y, 10, false), y, base, sign);
  }

  lemma SignBefore(d: string, y: nat, base: nat, sign: char)
    requires y < WORD && sign in {'-', ' ', '+'} && (base == 0 || base == 10)
    requires d != [] && AllDigits(d, 10) && Fold(0, d, 10) == y && (d[0] == '0' ==> |d| == 1)
    ensures var s := [sign] + d;
            Strtoumax(s, base) == Parsed(if sign == '-' then (WORD - y) % WORD else y, |s|, NoError)
  {
    hide Strtoumax, Fold, IsDigit;
    var s := [sign] + d;
    assert s[1..] == d && s[1] == d[0];
    SignedText(s, base, y);
  }

  // ---------------------------------------------------------------- where parsing goes wrong

  /** The digits of a string are converted to their value exactly when that value fits a word. */
  lemma ConvertExact(s: string, b: nat)
    requires 2 <= b <= 36 && AllDigits(s, b)
    ensures Convert(s, 0, b, 0) == Value(Fold(0, s, b), |s|) <==> Fold(0, s, b) < WORD
  {
    assert s[0..] == s;
    if Fold(0, s, b) < WORD {
      ConvertFold(s, 0, b, 0);
    } else {
      ConvertInWord(s, 0, b, 0);
    }
  }

  lemma {:induction false} ConvertInWord(s: string, p: nat, b: nat, ret: nat)
    requires p <= |s| && ret < WORD
    ensures Convert(s, p, b, ret).Value? ==> Convert(s, p, b, ret).ret < WORD
    decreases |s| - p
  {
    if p < |s| && IsDigit(s[p], b) {
      ConvertInWord(s, p + 1, b, Step(ret, s[p], b) % WORD);
    }
  }

  /** A digit after digits whose value fits: an overflow is noticed exactly when the product wraps to
      something below the value so far. */
  lemma {:induction false} OneMoreDigit(s: string, c: char, p: nat, b: nat, ret: nat)
    requires p <= |s| && 2 <= b <= 36 && AllDigits(s[p..], b) && IsDigit(c, b) && Fold(ret, s[p..], b) < WORD
    ensures var v := Fold(ret, s[p..], b);
            var w := Step(v, c, b) % WORD;
            Convert(s + [c], p, b, ret) == if w < v then Overflow(|s|) else Value(w, |s| + 1)
    decreases |s| - p
  {
    hide Step, IsDigit;
    var t := s + [c];
    if p < |s| {
      var next := Step(ret, s[p], b);
      assert s[p..][0] == s[p] && s[p..][1..] == s[p + 1..] && t[p] == s[p];
      FoldGrows(next, s[p + 1..], b);
      assert next % WORD == next;
      OneMoreDigit(s, c, p + 1, b, next);
    }
  }

  /** The test for overflow misses some: ten times three quintillions wraps past three quintillions. */
  lemma OverflowMissed()
    ensures var s := Digits(3000000000000000000, 10, false) + "0";
            && AllDigits(s, 10) && Fold(0, s, 10) == 30000000000000000000 > UINTMAX_MAX
            && Convert(s, 0, 10, 0) == Value(11553255926290448384, |s|)
            && Strtoumax(s, 10) == Parsed(11553255926290448384, |s|, NoError)
  {
    var x := 3000000000000000000;
    DigitsHead(x, 10, false);
    DigitsFold(x, 10, false);
    hide *;
    WrapsPast(Digits(x, 10, false));
  }

  lemma WrapsPast(d: string)
    requires d != [] && d[0] != '0' && AllDigits(d, 10) && Fold(0, d, 10) == 3000000000000000000
    ensures var s := d + "0";
            && AllDigits(s, 10) && Fold(0, s, 10) == 30000000000000000000 > UINTMAX_MAX
            && Convert(s, 0, 10, 0) == Value(11553255926290448384, |s|)
            && Strtoumax(s, 10) == Parsed(11553255926290448384, |s|, NoError)
  {
    hide Fold, Convert, Strtoumax;
    FoldAppend(0, d, '0', 10);
    assert d[0..] == d;
    OneMoreDigit(d, '0', 0, 10, 0);
    PlainFinish(d + "0", 10);
  }

  lemma PlainFinish(s: string, b: nat)
    requires 2 <= b <= 36 && s != [] && IsDigit(s[0], b) && s[0] != '0'
    ensures Strtoumax(s, b) == Finish(s, false, 0, b, 0)
  {
    DigitFirst(s, b);
    hide Finish;
  }

  /** A zero before anything but an octal digit or an `x` ends the number, in every base: "08" is 0. */
  lemma LeadingZeroStops(s: string, base: int)
    requires (base == 0 || 2 <= base <= 36) && |s| > 0 && s[0] == '0'
    requires !('0' <= At(s, 1) <= '7') && At(s, 1) != 'x' && At(s, 1) != 'X'
    ensures Strtoumax(s, base) == Parsed(0, 1, NoError)
  {
    DigitFirst(s, 10);
  }

  /** The text is cut short behind its leading zero. */
  predicate Swallowed(s: string) {
    |s| > 1 && s[0] == '0' && !('0' <= s[1] <= '7') && s[1] != 'x' && s[1] != 'X'
  }

  /** Where the parser begins to convert digits that are not swallowed. */
  lemma DigitsFrom(s: string, b: nat) returns (p: nat)
    requires 2 <= b <= 36 && s != [] && AllDigits(s, b) && s != "0" && !Swallowed(s)
    ensures p <= |s| && Strtoumax(s, b) == Finish(s, false, 0, b, p) && Convert(s, p, b, 0) == Convert(s, 0, b, 0)
  {
    DigitFirst(s, b);
    p := if b == 8 && s[0] == '0' then 1 else 0;
    if p == 1 {
      ZeroFirst(s);
    }
    if s[0] == '0' && b == 16 && |s| > 2 {
      assert IsDigit(s[1], b);
    }
    hide Finish, Convert;
  }

  lemma ZeroFirst(s: string)
    requires s != [] && s[0] == '0'
    ensures Convert(s, 1, 8, 0) == Convert(s, 0, 8, 0)
  {
    assert Step(0, s[0], 8) % WORD == 0;
  }

  lemma FinishExact(s: string, b: nat, p: nat, x: nat)
    requires s != [] && p <= |s| && Convert(s, p, b, 0) == Convert(s, 0, b, 0)
    ensures Finish(s, false, 0, b, p) == Parsed(x, |s|, NoError) <==> Convert(s, 0, b, 0) == Value(x, |s|)
  {
    hide Convert;
  }

  /** A string of digits is parsed to its value, and to its end, if and only if the value fits a word and no
      leading zero swallows the rest. */
  lemma ParseExact(s: string, b: nat)
    requires 2 <= b <= 36 && s != [] && AllDigits(s, b)
    ensures Strtoumax(s, b) == Parsed(Fold(0, s, b), |s|, NoError) <==> Fold(0, s, b) < WORD && !Swallowed(s)
  {
    if Swallowed(s) {
      LeadingZeroStops(s, b);
    } else if s == "0" {
      ZeroText(b);
      ZeroIs(b);
    } else {
      var p := DigitsFrom(s, b);
      hide Strtoumax, Finish, Convert, Fold, AllDigits;
      FinishExact(s, b, p, Fold(0, s, b));
      ConvertExact(s, b);
    }
  }

  lemma ZeroIs(b: nat)
    requires AllDigits("0", b)
    ensures Fold(0, "0", b) == 0
  {
    var z := "0";
    assert IsDigit(z[0], b) && z[1..] == "";
    assert Step(0, z[0], b) == 0;
  }

  /** The value of the first `k` digits, in a word. */
  function Wrapped(s: string, k: nat, b: nat): (r: nat)
    requires k <= |s| && AllDigits(s, b)
    ensures r < WORD
  {
    Fold(0, s[..k], b) % WORD
  }

  lemma WrappedNext(s: string, k: nat, b: nat)
    requires k < |s| && 2 <= b <= 36 && AllDigits(s, b)
    ensures Wrapped(s, k + 1, b) == Step(Wrapped(s, k, b), s[k], b) % WORD
  {
    FoldAppend(0, s[..k], s[k], b);
    assert s[..k] + [s[k]] == s[..k + 1];
    StepWrapped(Fold(0, s[..k], b), s[k], b);
  }

  lemma StepWrapped(v: nat, c: char, b: nat)
    requires 2 <= b <= 36 && IsDigit(c, b)
    ensures Step(v % WORD, c, b) % WORD == Step(v, c, b) % WORD
  {
    var d := DigitOf(c).value;
    ModStep(v, b, d, WORD);
    assert Step(v, c, b) == b * v + d && Step(v % WORD, c, b) == b * (v % WORD) + d;
  }

  /** Some digit makes the wrapped value smaller. */
  ghost predicate Drops(s: string, p: nat, b: nat)
    requires AllDigits(s, b)
  {
    exists k :: p <= k < |s| && Wrapped(s, k + 1, b) < Wrapped(s, k, b)
  }

  lemma {:induction false} ConvertDrops(s: string, p: nat, b: nat)
    requires p <= |s| && 2 <= b <= 36 && AllDigits(s, b)
    ensures Convert(s, p, b, Wrapped(s, p, b)).Overflow? <==> Drops(s, p, b)
    decreases |s| - p
  {
    hide Wrapped, Step, IsDigit;
    if p < |s| {
      WrappedNext(s, p, b);
      ConvertDrops(s, p + 1, b);
    }
  }

  lemma FinishRange(s: string, b: nat, p: nat)
    requires s != [] && p <= |s| && Convert(s, p, b, 0) == Convert(s, 0, b, 0)
    ensures Finish(s, false, 0, b, p).errno == ERange <==> Convert(s, 0, b, 0).Overflow?
  {
    hide Convert;
  }

  lemma NothingDrops(b: nat)
    requires 2 <= b <= 36 && AllDigits("0", b)
    ensures !Drops("0", 0, b)
  {
    ZeroIs(b);
    var z := "0";
    assert z[..1] == z && z[..0] == "";
  }

  /** A range error is reported for a string of digits if and only if no leading zero swallows the rest and
      some digit makes the value, taken in a word, smaller than it was. */
  lemma RangeExactly(s: string, b: nat)
    requires 2 <= b <= 36 && s != [] && AllDigits(s, b)
    ensures Strtoumax(s, b).errno == ERange <==> !Swallowed(s) && Drops(s, 0, b)
  {
    if Swallowed(s) {
      LeadingZeroStops(s, b);
    } else if s == "0" {
      ZeroText(b);
      NothingDrops(b);
    } else {
      var p := DigitsFrom(s, b);
      assert Wrapped(s, 0, b) == 0;
      ConvertDrops(s, 0, b);
      FinishRange(s, b, p);
      hide Strtoumax, Finish, Convert, Drops;
    }
  }

  // ---------------------------------------------------------------- any text

  /** What stands in front of a number: white space, and at most one sign. */
  predicate IsFront(w: string, sign: string) {
    (forall i :: 0 <= i < |w| ==> IsSpace(w[i])) && sign in {"", "+", "-"}
  }

  /** The digits end here. */
  predicate Stops(t: string, b: nat) {
    t == "" || !IsDigit(t[0], b)
  }

  /** The digits from `d` on are not a lone zero that the prefix of a hexadecimal number begins with. */
  predicate HexPrefix(d: string, t: string) {
    d == "0" && |t| > 1 && (t[0] == 'x' || t[0] == 'X') && IsDigit(t[1], 16)
  }

  /** A zero at the head, and behind it no octal digit and no `x`. */
  predicate ZeroCut(d: string, t: string) {
    d != "" && d[0] == '0' && !('0' <= At(d + t, 1) <= '7') && At(d + t, 1) != 'x' && At(d + t, 1) != 'X'
  }

  /** The base that a text without one is read in. */
  predicate ReadIn(d: string, t: string, base: nat, b: nat) {
    if base != 0 then b == base
    else b == if d == "" || d[0] != '0' || !('0' <= At(d + t, 1) <= '7') then 10 else 8
  }

  /** The first digit with which the value, taken in a word, becomes smaller. */
  ghost predicate DropsAt(s: string, b: nat, k: nat)
    requires AllDigits(s, b)
  {
    k < |s| && Wrapped(s, k + 1, b) < Wrapped(s, k, b)
    && forall j: nat :: j < k ==> Wrapped(s, j + 1, b) >= Wrapped(s, j, b)
  }

  lemma {:induction false} SpacesSkipped(s: string, p: nat, q: nat)
    requires p <= q <= |s| && (forall i :: p <= i < q ==> IsSpace(s[i])) && (q < |s| ==> !IsSpace(s[q]))
    ensures SkipSpace(s, p) == q
    decreases q - p
  {
    if p < q {
      SpacesSkipped(s, p + 1, q);
    }
  }

  /** The loop over digits that stand anywhere, and what it makes of them, whatever follows. */
  lemma {:induction false} ConvertInside(a: string, d: string, t: string, b: nat, k: nat, ret: nat)
    requires k <= |d| && 2 <= b <= 36 && AllDigits(d, b) && Stops(t, b)
    ensures Convert(a + d + t, |a| + k, b, ret) ==
              match Convert(d, k, b, ret)
              case Overflow(e) => Overflow(|a| + e)
              case Value(v, e) => Value(v, |a| + e)
    decreases |d| - k
  {
    hide Step, IsDigit;
    var s := a + d + t;
    if k < |d| {
      assert s[|a| + k] == d[k];
      ConvertInside(a, d, t, b, k + 1, Step(ret, d[k], b) % WORD);
    } else if t != "" {
      assert s[|a| + k] == t[0];
    }
  }

  lemma {:induction false} ConvertWrapped(d: string, p: nat, b: nat)
    requires p <= |d| && 2 <= b <= 36 && AllDigits(d, b)
    requires forall j: nat :: j < p ==> Wrapped(d, j + 1, b) >= Wrapped(d, j, b)
    ensures match Convert(d, p, b, Wrapped(d, p, b))
            case Overflow(e) => DropsAt(d, b, e)
            case Value(v, e) => v == Wrapped(d, |d|, b) && e == |d| && !Drops(d, 0, b)
    decreases |d| - p
  {
    hide Wrapped, Step, IsDigit;
    if p < |d| {
      WrappedNext(d, p, b);
      if Wrapped(d, p + 1, b) >= Wrapped(d, p, b) {
        ConvertWrapped(d, p + 1, b);
      }
    }
  }

  lemma ConvertText(a: string, d: string, t: string, b: nat)
    requires 2 <= b <= 36 && AllDigits(d, b) && Stops(t, b)
    ensures match Convert(a + d + t, |a|, b, 0)
            case Overflow(e) => e >= |a| && DropsAt(d, b, e - |a|)
            case Value(v, e) => v == Wrapped(d, |d|, b) && e == |a| + |d| && !Drops(d, 0, b)
  {
    assert Wrapped(d, 0, b) == 0;
    ConvertInside(a, d, t, b, 0, 0);
    ConvertWrapped(d, 0, b);
    hide Convert, Wrapped, Drops, DropsAt;
  }

  lemma FrontSkipped(w: string, sign: string, r: string, b: nat)
    requires IsFront(w, sign) && b <= 36
    requires sign == "" ==> r == "" || (!IsSpace(r[0]) && r[0] != '-' && r[0] != '+')
    ensures var s := w + sign + r;
            var q := SkipSpace(s, 0);
            && q == |w| && (At(s, q) == '-' <==> sign == "-") && (At(s, q) == '+' <==> sign == "+")
  {
    var s := w + sign + r;
    assert forall i :: 0 <= i < |w| ==> s[i] == w[i];
    assert |w| < |s| ==> s[|w|] == if sign == "" then r[0] else sign[0];
    SpacesSkipped(s, 0, |w|);
  }

  lemma PrefixText(a: string, d: string, t: string, base: nat, b: nat)
    requires (base == 0 || 2 <= base) && b <= 36 && ReadIn(d, t, base, b) && AllDigits(d, b) && Stops(t, b)
    requires base == 0 || base == 16 ==> !HexPrefix(d, t)
    ensures var s := a + d + t;
            if ZeroCut(d, t) then PrefixOf(s, |a|, base) == Zero(|a| + 1)
            else PrefixOf(s, |a|, base) == Base(b, |a|)
                 || (b == 8 && d != "" && d[0] == '0' && PrefixOf(s, |a|, base) == Base(b, |a| + 1))
  {
    var s, r := a + d + t, d + t;
    assert forall i :: 0 <= i < |r| ==> s[|a| + i] == r[i];
    assert d != "" ==> r[0] == d[0];
    assert d == "" && t != "" ==> r[0] == t[0];
    assert d == "0" && t != "" ==> r[1] == t[0];
    assert d == "0" && |t| > 1 ==> r[2] == t[1];
    assert |d| > 1 ==> r[1] == d[1] && IsDigit(d[1], b);
  }

  lemma ZeroAhead(s: string, p: nat)
    requires p < |s| && s[p] == '0'
    ensures Convert(s, p, 8, 0) == Convert(s, p + 1, 8, 0)
  {
    assert Step(0, s[p], 8) % WORD == 0;
  }

  /** The word that a value stands for behind a sign or none. */
  function Signed(sign: string, v: nat): nat {
    if sign == "-" then (WORD - v) % WORD else v
  }

  lemma SignedZero(sign: string)
    ensures Signed(sign, 0) == 0
  {
  }

  /** The whole answer of the parser for digits that anything may follow, behind white space and a sign. */
  lemma ParseText(w: string, sign: string, d: string, t: string, base: nat, b: nat)
    requires IsFront(w, sign) && (base == 0 || 2 <= base) && b <= 36 && ReadIn(d, t, base, b)
    requires AllDigits(d, b) && Stops(t, b) && (base == 0 || base == 16 ==> !HexPrefix(d, t))
    requires d == "" && sign == "" && t != "" ==> !IsSpace(t[0]) && t[0] != '-' && t[0] != '+'
    ensures var r, n, v := Strtoumax(w + sign + d + t, base), |w| + |sign|, Wrapped(d, |d|, b);
            && (d == "" ==> r == Parsed(UINTMAX_MAX, 0, EInval))
            && (ZeroCut(d, t) ==> r == Parsed(0, n + 1, NoError))
            && (d != "" && !ZeroCut(d, t) && !Drops(d, 0, b) ==>
                  r == Parsed(Signed(sign, v), n + |d|, NoError))
            && (!ZeroCut(d, t) && Drops(d, 0, b) ==>
                  exists k: nat :: DropsAt(d, b, k) && r == Parsed(UINTMAX_MAX, n + k, ERange))
  {
    var a, rest := w + sign, d + t;
    var s := a + d + t;
    assert s == w + sign + rest;
    assert d != "" ==> rest[0] == d[0] && IsDigit(d[0], b);
    FrontSkipped(w, sign, rest, b);
    PrefixText(a, d, t, base, b);
    StrtoumaxIs(s, base, w, sign);
    hide Strtoumax;
    if !ZeroCut(d, t) {
      FinishText(a, d, t, b, sign == "-", PrefixOf(s, |a|, base).p);
    }
    hide IsFront, ReadIn, Stops, HexPrefix, AllDigits, PrefixOf, Wrapped, Finish, ZeroCut, Drops, DropsAt;
  }

  lemma StrtoumaxIs(s: string, base: nat, w: string, sign: string)
    requires (base == 0 || 2 <= base) && base <= 36 && sign in {"", "+", "-"}
    requires var q := SkipSpace(s, 0);
             && q == |w| && (At(s, q) == '-' <==> sign == "-") && (At(s, q) == '+' <==> sign == "+")
    ensures var n := |w| + |sign|;
            Strtoumax(s, base) == match PrefixOf(s, n, base)
                                  case Zero(p) => Parsed(0, p, NoError)
                                  case Base(b, p) => Finish(s, sign == "-", n, b, p)
  {
    hide PrefixOf, Finish, SkipSpace;
  }

  /** The digits are converted from their first one on, or from the next if that is an octal zero. */
  lemma FinishText(a: string, d: string, t: string, b: nat, neg: bool, p: nat)
    requires 2 <= b <= 36 && AllDigits(d, b) && Stops(t, b)
    requires p == |a| || (b == 8 && d != "" && d[0] == '0' && p == |a| + 1)
    ensures var r, n, v := Finish(a + d + t, neg, |a|, b, p), |a|, Wrapped(d, |d|, b);
            && (d == "" ==> r == Parsed(UINTMAX_MAX, 0, EInval))
            && (d != "" && !Drops(d, 0, b) ==>
                  r == Parsed(if neg then (WORD - v) % WORD else v, n + |d|, NoError))
            && (Drops(d, 0, b) ==> exists k: nat :: DropsAt(d, b, k) && r == Parsed(UINTMAX_MAX, n + k, ERange))
  {
    var s := a + d + t;
    ConvertText(a, d, t, b);
    if p > |a| {
      assert s[|a|] == d[0];
      ZeroAhead(s, |a|);
    }
    FirstDrop(d, b);
    hide Convert, Wrapped, Drops, AllDigits, Stops;
    match Convert(s, |a|, b, 0)
    case Overflow(e) =>
      assert DropsAt(d, b, e - |a|);
    case Value(v, e) =>
  }

  /** The value never drops with the first digit. */
  lemma FirstDrop(d: string, b: nat)
    requires 2 <= b <= 36 && AllDigits(d, b)
    ensures forall k: nat :: DropsAt(d, b, k) ==> k > 0 && Drops(d, 0, b)
    ensures d == "" ==> !Drops(d, 0, b) && Wrapped(d, 0, b) == 0
  {
  }

  lemma {:induction false} FoldParts(ret: nat, d: string, e: string, b: nat)
    requires AllDigits(d, b) && AllDigits(e, b)
    ensures AllDigits(d + e, b) && Fold(ret, d + e, b) == Fold(Fold(ret, d, b), e, b)
    decreases |d|
  {
    if d == "" {
      assert d + e == e;
    } else {
      assert (d + e)[1..] == d[1..] + e;
      FoldParts(Step(ret, d[0], b), d[1..], e, b);
    }
  }

  /** The first digits stand for no more than all of them. */
  lemma FrontLess(d: string, k: nat, b: nat)
    requires k <= |d| && b > 0 && AllDigits(d, b)
    ensures Fold(0, d[..k], b) <= Fold(0, d, b)
  {
    assert d[..k] + d[k..] == d;
    FoldParts(0, d[..k], d[k..], b);
    FoldGrows(Fold(0, d[..k], b), d[k..], b);
  }

  lemma FitsFront(d: string, k: nat, b: nat)
    requires k < |d| && 2 <= b <= 36 && AllDigits(d, b) && Fold(0, d, b) < WORD
    ensures Wrapped(d, k, b) <= Wrapped(d, k + 1, b)
  {
    hide Fold, IsDigit;
    FrontLess(d, k, b);
    FrontLess(d, k + 1, b);
    assert d[..k + 1][..k] == d[..k];
    FrontLess(d[..k + 1], k, b);
  }

  /** A value that fits a word was never wrapped. */
  lemma FitsWhole(d: string, b: nat)
    requires 2 <= b <= 36 && AllDigits(d, b) && Fold(0, d, b) < WORD
    ensures Wrapped(d, |d|, b) == Fold(0, d, b) && !Drops(d, 0, b)
  {
    assert Wrapped(d, |d|, b) == Fold(0, d, b) by {
      assert d[..|d|] == d;
      hide Fold;
    }
    forall k: nat | k < |d| ensures Wrapped(d, k, b) <= Wrapped(d, k + 1, b) {
      FitsFront(d, k, b);
    }
    hide Fold, Wrapped, AllDigits;
  }

  /** A number that fits a word is parsed to its value and to its last digit, whatever follows. */
  lemma ParseFits(w: string, sign: string, d: string, t: string, base: nat, b: nat)
    requires IsFront(w, sign) && (base == 0 || 2 <= base) && b <= 36 && ReadIn(d, t, base, b)
    requires AllDigits(d, b) && Stops(t, b) && (base == 0 || base == 16 ==> !HexPrefix(d, t))
    requires d != "" && (d == "0" || !ZeroCut(d, t)) && Fold(0, d, b) < WORD
    ensures var v := Fold(0, d, b);
            Strtoumax(w + sign + d + t, base)
            == Parsed(Signed(sign, v), |w| + |sign| + |d|, NoError)
  {
    assert 2 <= b;
    hide Strtoumax, Signed, Fold, Wrapped, Drops, DropsAt, IsDigit, IsFront, ReadIn, Stops, HexPrefix, ZeroCut;
    ParseText(w, sign, d, t, base, b);
    FitsWhole(d, b);
    if d == "0" {
      ZeroIs(b);
      SignedZero(sign);
    }
  }

  /** The same behind the prefix of a hexadecimal number. */
  lemma ParseHex(w: string, sign: string, x: char, d: string, t: string, base: nat)
    requires IsFront(w, sign) && (base == 0 || base == 16) && x in {'x', 'X'}
    requires d != "" && AllDigits(d, 16) && Stops(t, 16)
    ensures var r, n, v := Strtoumax(w + sign + "0" + [x] + d + t, base), |w| + |sign| + 2, Wrapped(d, |d|, 16);
            && (!Drops(d, 0, 16) ==> r == Parsed(Signed(sign, v), n + |d|, NoError))
            && (Drops(d, 0, 16) ==>
                  exists k: nat :: DropsAt(d, 16, k) && r == Parsed(UINTMAX_MAX, n + k, ERange))
  {
    var a, rest := w + sign + "0" + [x], "0" + [x] + d + t;
    var s := a + d + t;
    var n := |w| + |sign|;
    assert s == w + sign + rest && s == w + sign + "0" + [x] + d + t;
    assert s[n] == '0' && s[n + 1] == x && s[n + 2] == d[0] && IsDigit(d[0], 16);
    FrontSkipped(w, sign, rest, 16);
    StrtoumaxIs(s, base, w, sign);
    assert PrefixOf(s, n, base) == Base(16, n + 2);
    ConvertText(a, d, t, 16);
    hide IsFront, Stops, AllDigits, PrefixOf, Wrapped, Drops, Convert, Strtoumax;
    match Convert(s, n + 2, 16, 0)
    case Overflow(e) =>
      assert DropsAt(d, 16, e - |a|);
    case Value(v, e) =>
  }

  /** There are 35 bases, and the one that the text says. */
  lemma NoBase(s: string, base: int)
    ensures base < 0 || base == 1 || base > 36 ==> Strtoumax(s, base) == Parsed(UINTMAX_MAX, 0, EInval)
  {
  }
}
