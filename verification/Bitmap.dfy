/**
 Region bitmaps.  A word is the sequence of its 64 bits, lowest first.  As in the source the stored
 bits are inverted: a stored one means that the logical bit is unset.

 The tree variant keeps, above the words that store the bits, levels in which one bit says whether
 one word of the level below is non-zero.  The linear variant has no such levels.  Both are proved
 against the same specification on the set of logical bits that are set.
 */
module Bitmap {

  const NBITS: nat := 64

  type Word = w: seq<bool> | |w| == 64 witness seq(64, _ => false)

  /** BITMAP_BITS2GROUPS() */
  function Groups(n: int): int {
    (n + NBITS - 1) / NBITS
  }

  predicate IsZero(w: Word) {
    forall k :: 0 <= k < NBITS ==> !w[k]
  }

  function AllOnes(): Word {
    seq(NBITS, _ => true)
  }

  function ShiftRight(w: Word, count: nat): Word {
    seq(NBITS, k requires 0 <= k < NBITS => k + count < NBITS && w[k + count])
  }

  /** w ^= ZU(1) << k */
  function Toggle(w: Word, k: nat): Word
    requires k < NBITS
  {
    w[k := !w[k]]
  }

  /** ffs_lu(w) - 1 */
  function Lowest(w: Word): (k: nat)
    requires !IsZero(w)
    ensures k < NBITS && w[k] && forall j :: 0 <= j < k ==> !w[j]
  {
    LowestFrom(w, 0)
  }

  function LowestFrom(w: Word, i: nat): (k: nat)
    requires !IsZero(w) && i < NBITS && forall j :: 0 <= j < i ==> !w[j]
    ensures k < NBITS && w[k] && forall j :: 0 <= j < k ==> !w[j]
    decreases NBITS - i
  {
    if w[i] then i else LowestFrom(w, i + 1)
  }

  /** The number of unused high bits in the last word of a level of `n` bits. */
  function Extra(n: nat): nat {
    (NBITS - n % NBITS) % NBITS
  }

  lemma GroupsShrink()
    ensures forall m: nat :: m > 0 ==> Groups(m) > 0
    ensures forall m: nat :: m > 1 ==> Groups(m) < m
  {
  }

  // ---------------------------------------------------------------- the levels as a tree

  type Tree = seq<seq<Word>>

  /** The number of bits that level `i` stores. */
  function Size(t: Tree, n: nat, i: nat): nat
    requires i <= |t|
  {
    if i == 0 then n else |t[i - 1]|
  }

  ghost predicate Shape(t: Tree, n: nat) {
    && n > 0 && |t| > 0
    && (forall i :: 0 <= i < |t| ==> |t[i]| == Groups(Size(t, n, i)) > 0)
    && |t[|t| - 1]| == 1
  }

  /** Bit `b` of level `i`. */
  predicate Bit(t: Tree, i: nat, b: nat) {
    i < |t| && b / NBITS < |t[i]| && t[i][b / NBITS][b % NBITS]
  }

  /** Unused bits are zero. */
  ghost predicate Tidy(t: Tree, n: nat) {
    forall i, j, k :: 0 <= i < |t| && 0 <= j < |t[i]| && 0 <= k < NBITS && t[i][j][k] ==>
      NBITS * j + k < Size(t, n, i)
  }

  /** Bit `j` of level `i` tells the truth about word `j` of the level below. */
  ghost predicate Truthful(t: Tree, i: nat, j: nat)
    requires 0 < i < |t| && j < |t[i - 1]|
  {
    Bit(t, i, j) <==> !IsZero(t[i - 1][j])
  }

  /** Every upper bit tells the truth, except bit `j0` of level `i0`, if there is one, which lies. */
  ghost predicate TruthfulBut(t: Tree, i0: nat, j0: nat) {
    forall i, j :: 0 < i < |t| && 0 <= j < |t[i - 1]| ==>
      (Truthful(t, i, j) <==> !(i == i0 && j == j0))
  }

  ghost predicate ValidTree(t: Tree, n: nat) {
    Shape(t, n) && Tidy(t, n) && TruthfulBut(t, |t|, 0)
  }

  /** The logical bits that are set. */
  ghost function Members(t: Tree, n: nat): set<nat> {
    set b: nat | b < n && !Bit(t, 0, b)
  }

  ghost predicate IsFull(s: set<nat>, n: nat) {
    forall b: nat :: b < n ==> b in s
  }

  lemma InLevel(t: Tree, n: nat, i: nat, b: nat)
    requires Shape(t, n) && i < |t| && b < Size(t, n, i)
    ensures b / NBITS < |t[i]|
  {
  }

  /** Level `l` with bit `b` flipped. */
  function Flipped(l: seq<Word>, b: nat): (r: seq<Word>)
    requires b / NBITS < |l|
    ensures |r| == |l|
  {
    l[b / NBITS := Toggle(l[b / NBITS], b % NBITS)]
  }

  /** A tree with the same numbers of words has the same shape. */
  lemma SameShape(t: Tree, n: nat, t': Tree)
    requires Shape(t, n) && |t'| == |t| && forall j :: 0 <= j < |t| ==> |t'[j]| == |t[j]|
    ensures Shape(t', n)
    ensures forall j :: 0 <= j <= |t| ==> Size(t', n, j) == Size(t, n, j)
  {
    hide Groups;
    forall j: nat | j <= |t| ensures Size(t', n, j) == Size(t, n, j) {
      if j > 0 {
        assert |t'[j - 1]| == |t[j - 1]|;
      }
    }
    assert |t'[|t| - 1]| == |t[|t| - 1]|;
  }

  lemma FlipShape(t: Tree, n: nat, i: nat, b: nat, t': Tree)
    requires Shape(t, n) && i < |t| && b / NBITS < |t[i]| && t' == t[i := Flipped(t[i], b)]
    ensures Shape(t', n)
    ensures forall j :: 0 <= j <= |t| ==> Size(t', n, j) == Size(t, n, j)
  {
    hide Shape;
    SameShape(t, n, t');
  }

  lemma FlipTidy(t: Tree, n: nat, i: nat, b: nat, t': Tree)
    requires i < |t| && b / NBITS < |t[i]| && t' == t[i := Flipped(t[i], b)]
    requires Tidy(t, n) && b < Size(t, n, i)
    requires forall j :: 0 <= j <= |t| ==> Size(t', n, j) == Size(t, n, j)
    ensures Tidy(t', n)
  {
    hide Size;
    forall j, c, k | 0 <= j < |t'| && 0 <= c < |t'[j]| && 0 <= k < NBITS && t'[j][c][k]
      ensures NBITS * c + k < Size(t', n, j)
    {
      if j == i && c == b / NBITS && k == b % NBITS {
        assert b == NBITS * c + k;
      } else {
        assert t[j][c][k];
      }
    }
  }

  /** Flipping one bit of level `i` moves the lie, if there is any, one level up. */
  lemma FlipTruth(t: Tree, i: nat, b: nat, t': Tree)
    requires i < |t| && b / NBITS < |t[i]| && t' == t[i := Flipped(t[i], b)]
    requires TruthfulBut(t, i, b)
    ensures IsZero(t[i][b / NBITS]) == IsZero(t'[i][b / NBITS]) ==> TruthfulBut(t', |t|, 0)
    ensures IsZero(t[i][b / NBITS]) != IsZero(t'[i][b / NBITS]) ==> TruthfulBut(t', i + 1, b / NBITS)
  {
    var g := b / NBITS;
    forall j, c | 0 < j < |t'| && 0 <= c < |t'[j - 1]|
      ensures Truthful(t', j, c) == (Truthful(t, j, c) != ((j == i && c == b)
                || (j == i + 1 && c == g && IsZero(t[i][g]) != IsZero(t'[i][g]))))
    {
      FlipBit(t, i, b, t', j, c);
    }
  }

  lemma FlipBit(t: Tree, i: nat, b: nat, t': Tree, j: nat, c: nat)
    requires i < |t| && b / NBITS < |t[i]|
    requires t' == t[i := Flipped(t[i], b)]
    ensures Bit(t', j, c) <==> Bit(t, j, c) != (j == i && c == b)
  {
    if j == i && c / NBITS == b / NBITS && c % NBITS == b % NBITS {
      assert c == NBITS * (c / NBITS) + c % NBITS;
      assert b == NBITS * (b / NBITS) + b % NBITS;
    }
  }

  /** Setting or clearing one logical bit, seen from the bits. */
  lemma FlipMembers(t: Tree, n: nat, b: nat, t': Tree)
    requires |t| > 0 && b < n && b / NBITS < |t[0]|
    requires t' == t[0 := Flipped(t[0], b)]
    ensures Members(t', n) == if b in Members(t, n) then Members(t, n) - {b} else Members(t, n) + {b}
  {
    forall c: nat ensures Bit(t', 0, c) <==> Bit(t, 0, c) != (c == b) {
      FlipBit(t, 0, b, t', 0, c);
    }
  }

  /** Flipping above the bottom changes no logical bit. */
  lemma FlipAbove(t: Tree, n: nat, i: nat, l: seq<Word>)
    requires 0 < i < |t|
    ensures Members(t[i := l], n) == Members(t, n)
  {
    forall c: nat ensures Bit(t[i := l], 0, c) <==> Bit(t, 0, c) {
    }
  }

  // ---------------------------------------------------------------- the tree in one array

  /** `offs` holds the offset of every level's words, and the total at the end. */
  ghost predicate Offsets(offs: seq<nat>, n: nat) {
    && |offs| >= 2 && offs[0] == 0 && n > 0
    && (forall i, j :: 0 <= i < j < |offs| ==> offs[i] < offs[j])
    && (forall i :: 0 <= i < |offs| - 1 ==> Count(offs, i) == Groups(Below(offs, n, i)))
    && Count(offs, |offs| - 2) == 1
  }

  /** The number of words of level `i`. */
  function Count(offs: seq<nat>, i: nat): int
    requires i + 1 < |offs|
  {
    offs[i + 1] as int - offs[i] as int
  }

  /** The number of bits of level `i`. */
  function Below(offs: seq<nat>, n: nat, i: nat): int
    requires i < |offs|
  {
    if i == 0 then n else Count(offs, i - 1)
  }

  ghost predicate Fits(a: seq<Word>, offs: seq<nat>) {
    && |offs| >= 2 && |a| == offs[|offs| - 1]
    && (forall i, j :: 0 <= i < j < |offs| ==> offs[i] < offs[j])
  }

  ghost function View(a: seq<Word>, offs: seq<nat>): (t: Tree)
    requires Fits(a, offs)
    ensures |t| == |offs| - 1
    ensures forall i :: 0 <= i < |t| ==> t[i] == a[offs[i]..offs[i + 1]]
  {
    seq(|offs| - 1, i requires 0 <= i < |offs| - 1 && Fits(a, offs) => a[offs[i]..offs[i + 1]])
  }

  lemma ViewSizes(a: seq<Word>, offs: seq<nat>, n: nat, i: nat)
    requires Fits(a, offs) && i < |offs| - 1
    ensures |View(a, offs)[i]| == Count(offs, i) > 0
    ensures Size(View(a, offs), n, i) == Below(offs, n, i)
  {
  }

  lemma ViewShape(a: seq<Word>, offs: seq<nat>, n: nat)
    requires Offsets(offs, n) && Fits(a, offs)
    ensures Shape(View(a, offs), n)
  {
    hide Groups, Count, Below, Size, Fits;
    var t := View(a, offs);
    forall i | 0 <= i < |t| ensures |t[i]| == Groups(Size(t, n, i)) > 0 {
      ViewSizes(a, offs, n, i);
    }
    ViewSizes(a, offs, n, |offs| - 2);
  }

  /** Word `j` of level `i`. */
  lemma ViewWord(a: seq<Word>, offs: seq<nat>, i: nat, j: nat)
    requires Fits(a, offs) && i < |offs| - 1 && j < |View(a, offs)[i]|
    ensures offs[i] + j < offs[i + 1] <= |a| && View(a, offs)[i][j] == a[offs[i] + j]
  {
  }

  lemma ViewUpdate(a: seq<Word>, offs: seq<nat>, i: nat, j: nat, w: Word, l: seq<Word>)
    requires Fits(a, offs) && i < |offs| - 1 && j < |View(a, offs)[i]|
    requires l == View(a, offs)[i][j := w]
    ensures offs[i] + j < |a|
    ensures View(a[offs[i] + j := w], offs) == View(a, offs)[i := l]
  {
    var a' := a[offs[i] + j := w];
    var t, t' := View(a, offs), View(a', offs);
    forall k | 0 <= k < |t| ensures t'[k] == t[i := l][k] {
      ViewLevel(a, offs, i, j, w, k);
    }
  }

  lemma ViewLevel(a: seq<Word>, offs: seq<nat>, i: nat, j: nat, w: Word, k: nat)
    requires Fits(a, offs) && i < |offs| - 1 && k < |offs| - 1 && offs[i] + j < offs[i + 1]
    ensures offs[i] + j < |a| && offs[k] <= offs[k + 1] <= |a|
    ensures var a' := a[offs[i] + j := w];
            a'[offs[k]..offs[k + 1]] == if k == i then a[offs[k]..offs[k + 1]][j := w]
                                        else a[offs[k]..offs[k + 1]]
  {
  }

  // ---------------------------------------------------------------- what full and first mean

  ghost predicate NoneLeft(t: Tree, i: nat)
    requires i < |t|
  {
    forall j :: 0 <= j < |t[i]| ==> IsZero(t[i][j])
  }

  /** The words of a level are all zero exactly if those of the level below are. */
  lemma NoneLeftBelow(t: Tree, n: nat, i: nat)
    requires ValidTree(t, n) && 0 < i < |t|
    ensures NoneLeft(t, i) <==> NoneLeft(t, i - 1)
  {
    if NoneLeft(t, i) {
      var below := t[i - 1];
      forall j | 0 <= j < |below| ensures IsZero(below[j]) {
        assert Truthful(t, i, j);
        InLevel(t, n, i, j);
      }
    }
    if NoneLeft(t, i - 1) {
      forall j | 0 <= j < |t[i]| ensures IsZero(t[i][j]) {
        forall k | 0 <= k < NBITS ensures !t[i][j][k] {
          var b := NBITS * j + k;
          assert b / NBITS == j && b % NBITS == k;
          if b < |t[i - 1]| {
            assert Truthful(t, i, b);
          }
        }
      }
    }
  }

  lemma {:induction false} NoneLeftAnywhere(t: Tree, n: nat, i: nat)
    requires ValidTree(t, n) && i < |t|
    ensures NoneLeft(t, i) <==> NoneLeft(t, 0)
  {
    if i > 0 {
      NoneLeftBelow(t, n, i);
      NoneLeftAnywhere(t, n, i - 1);
    }
  }

  lemma NoneLeftIsFull(t: Tree, n: nat)
    requires ValidTree(t, n)
    ensures NoneLeft(t, 0) <==> IsFull(Members(t, n), n)
  {
    if NoneLeft(t, 0) {
      forall b: nat | b < n ensures b in Members(t, n) {
        InLevel(t, n, 0, b);
      }
    }
    if IsFull(Members(t, n), n) {
      forall j, k | 0 <= j < |t[0]| && 0 <= k < NBITS ensures !t[0][j][k] {
        var b := NBITS * j + k;
        assert b / NBITS == j && b % NBITS == k;
        if b < n {
          assert b in Members(t, n);
        }
      }
    }
  }

  /** The root word is zero exactly when every logical bit is set. */
  lemma RootTells(t: Tree, n: nat)
    requires ValidTree(t, n)
    ensures IsZero(t[|t| - 1][0]) <==> IsFull(Members(t, n), n)
  {
    hide Groups, Members, IsFull;
    NoneLeftAnywhere(t, n, |t| - 1);
    NoneLeftIsFull(t, n);
  }

  /** `b` is the first stored one of level `i`. */
  ghost predicate FirstOne(t: Tree, i: nat, b: nat) {
    Bit(t, i, b) && forall c: nat :: c < b ==> !Bit(t, i, c)
  }

  /** The first one of a level leads to the first one of the level below. */
  lemma Descend(t: Tree, n: nat, i: nat, b: nat)
    requires ValidTree(t, n) && 0 < i < |t| && FirstOne(t, i, b)
    ensures b < |t[i - 1]| && !IsZero(t[i - 1][b])
    ensures FirstOne(t, i - 1, NBITS * b + Lowest(t[i - 1][b]))
  {
    hide Groups;
    assert NBITS * (b / NBITS) + b % NBITS == b;
    assert b < Size(t, n, i) && Truthful(t, i, b);
    var below := t[i - 1];
    forall g: nat | g < b ensures IsZero(below[g]) {
      assert !Bit(t, i, g) && Truthful(t, i, g);
    }
    FirstInLevel(t, i - 1, b);
  }

  lemma FirstInLevel(t: Tree, i: nat, b: nat)
    requires i < |t| && b < |t[i]| && !IsZero(t[i][b])
    requires forall g: nat :: g < b ==> IsZero(t[i][g])
    ensures FirstOne(t, i, NBITS * b + Lowest(t[i][b]))
  {
    var r := NBITS * b + Lowest(t[i][b]);
    assert r / NBITS == b && r % NBITS == Lowest(t[i][b]);
    forall c: nat | c < r ensures !Bit(t, i, c) {
      assert c / NBITS < b || (c / NBITS == b && c % NBITS < Lowest(t[i][b]));
    }
  }

  // ---------------------------------------------------------------- the tree variant

  /** bitmap_info_init(): the level offsets. */
  method InfoInit(nbits: nat) returns (levels: seq<nat>)
    requires nbits > 0
    ensures Offsets(levels, nbits)
  {
    hide Groups, Count, Below;
    GroupsShrink();
    BelowFirst([0], nbits);
    levels := [0];
    var count := Groups(nbits);
    var i := 1;
    while count > 1
      invariant |levels| == i >= 1 && levels[0] == 0 && count > 0
      invariant forall j, k :: 0 <= j < k < i ==> levels[j] < levels[k]
      invariant forall j :: 0 <= j < i - 1 ==> Count(levels, j) == Groups(Below(levels, nbits, j))
      invariant count == Groups(Below(levels, nbits, i - 1))
      decreases count
    {
      levels := Extend(levels, nbits, count);
      count := Groups(count);
      i := i + 1;
    }
    levels := Extend(levels, nbits, count);
  }

  lemma BelowFirst(levels: seq<nat>, nbits: nat)
    requires |levels| > 0
    ensures Below(levels, nbits, 0) == nbits
  {
  }

  function Extend(levels: seq<nat>, nbits: nat, count: nat): (r: seq<nat>)
    requires |levels| > 0
    ensures |r| == |levels| + 1 && r[..|levels|] == levels
    ensures Count(r, |levels| - 1) == count
    ensures forall j :: 0 <= j < |levels| - 1 ==> Count(r, j) == Count(levels, j)
    ensures forall j :: 0 <= j < |levels| ==> Below(r, nbits, j) == Below(levels, nbits, j)
    ensures Below(r, nbits, |levels|) == count
  {
    levels + [levels[|levels| - 1] + count]
  }

  class TreeBitmap {
    const nbits: nat
    const levels: seq<nat>
    const bitmap: array<Word>

    ghost predicate Valid()
      reads this, bitmap
    {
      && Offsets(levels, nbits) && Fits(bitmap[..], levels)
      && ValidTree(View(bitmap[..], levels), nbits)
    }

    /** The logical bits that are set. */
    ghost function Contents(): set<nat>
      requires Valid()
      reads this, bitmap
    {
      Members(View(bitmap[..], levels), nbits)
    }

    method Full() returns (r: bool)
      requires Valid()
      ensures r <==> IsFull(Contents(), nbits)
    {
      hide Groups, ValidTree, Members, IsFull;
      var rgoff := levels[|levels| - 1] - 1;
      RootTells(View(bitmap[..], levels), nbits);
      ViewWord(bitmap[..], levels, |levels| - 2, 0);
      r := IsZero(bitmap[rgoff]);
    }

    method Get(bit: nat) returns (r: bool)
      requires Valid() && bit < nbits
      ensures r <==> bit in Contents()
    {
      hide Members, View, Fits, ValidTree, Offsets;
      WordOfBit(bitmap[..], levels, nbits, bit);
      r := !bitmap[bit / NBITS][bit % NBITS];
    }

    method Set(bit: nat)
      requires Valid() && bit < nbits && bit !in Contents()
      modifies bitmap
      ensures Valid() && Contents() == old(Contents()) + {bit}
    {
      hide Members, View, Fits, ValidTree, Offsets, Lying, IsZero, Toggle;
      ghost var s := Contents() + {bit};
      var goff := bit / NBITS;
      OffsetZero(levels, nbits);
      FlipBottom(bitmap[..], levels, nbits, bit);
      ghost var a := bitmap[..];
      var g := Toggle(bitmap[goff], bit % NBITS);
      bitmap[goff] := g;
      assert bitmap[..] == a[goff := g];
      if IsZero(g) {
        SetUpper(goff, s);
      }
    }

    /** The levels above the bottom, as long as words turn zero. */
    method SetUpper(bit: nat, ghost s: set<nat>)
      requires Offsets(levels, nbits) && Fits(bitmap[..], levels)
      requires Lying(View(bitmap[..], levels), nbits, 1, bit, s, true)
      modifies bitmap
      ensures Valid() && Contents() == s
    {
      hide Members, View, Fits, ValidTree, Offsets, Lying, IsZero, Toggle;
      OffsetZero(levels, nbits);
      var i: nat, bit': nat := 1, bit;
      while i < |levels| - 1
        invariant 1 <= i <= |levels| - 1 && Fits(bitmap[..], levels)
        invariant Lying(View(bitmap[..], levels), nbits, i, bit', s, true)
      {
        var goff := bit' / NBITS;
        FlipUpper(bitmap[..], levels, nbits, i, bit', s, true);
        ghost var a := bitmap[..];
        var g := Toggle(bitmap[levels[i] + goff], bit' % NBITS);
        bitmap[levels[i] + goff] := g;
        assert bitmap[..] == a[levels[i] + goff := g];
        if !IsZero(g) {
          return;
        }
        bit', i := goff, i + 1;
      }
      LyingAtTop(bitmap[..], levels, nbits, bit', s, true);
    }

    /** Returns the least unset bit, and sets it. */
    method Sfu() returns (bit: nat)
      requires Valid() && !IsFull(Contents(), nbits)
      modifies bitmap
      ensures Valid() && bit < nbits && Contents() == old(Contents()) + {bit}
      ensures bit !in old(Contents()) && forall b: nat :: b < bit ==> b in old(Contents())
    {
      hide Members, View, Fits, ValidTree, Offsets, IsZero, FirstOne, IsFull;
      ghost var a := bitmap[..];
      var i := |levels| - 2;
      StartAtRoot(a, levels, nbits);
      bit := Lowest(bitmap[levels[i]]);
      while i > 0
        invariant i <= |levels| - 2 && bitmap[..] == a && Fits(a, levels)
        invariant FirstOne(View(a, levels), i, bit)
      {
        DescendArray(a, levels, nbits, i, bit);
        i := i - 1;
        bit := NBITS * bit + Lowest(bitmap[levels[i] + bit]);
      }
      FirstIsLeast(a, levels, nbits, bit);
      Set(bit);
    }

    method Unset(bit: nat)
      requires Valid() && bit < nbits && bit in Contents()
      modifies bitmap
      ensures Valid() && Contents() == old(Contents()) - {bit}
    {
      hide Members, View, Fits, ValidTree, Offsets, Lying, IsZero, Toggle;
      ghost var s := Contents() - {bit};
      var goff := bit / NBITS;
      OffsetZero(levels, nbits);
      FlipBottom(bitmap[..], levels, nbits, bit);
      ghost var a := bitmap[..];
      var g := bitmap[goff];
      var propagate := IsZero(g);
      g := Toggle(g, bit % NBITS);
      bitmap[goff] := g;
      assert bitmap[..] == a[goff := g];
      if propagate {
        UnsetUpper(goff, s);
      }
    }

    /** The levels above the bottom, as long as words turn from zero. */
    method UnsetUpper(bit: nat, ghost s: set<nat>)
      requires Offsets(levels, nbits) && Fits(bitmap[..], levels)
      requires Lying(View(bitmap[..], levels), nbits, 1, bit, s, false)
      modifies bitmap
      ensures Valid() && Contents() == s
    {
      hide Members, View, Fits, ValidTree, Offsets, Lying, IsZero, Toggle;
      OffsetZero(levels, nbits);
      var i: nat, bit': nat := 1, bit;
      while i < |levels| - 1
        invariant 1 <= i <= |levels| - 1 && Fits(bitmap[..], levels)
        invariant Lying(View(bitmap[..], levels), nbits, i, bit', s, false)
      {
        var goff := bit' / NBITS;
        FlipUpper(bitmap[..], levels, nbits, i, bit', s, false);
        ghost var a := bitmap[..];
        var g := bitmap[levels[i] + goff];
        var propagate := IsZero(g);
        g := Toggle(g, bit' % NBITS);
        bitmap[levels[i] + goff] := g;
        assert bitmap[..] == a[levels[i] + goff := g];
        if !propagate {
          return;
        }
        bit', i := goff, i + 1;
      }
      LyingAtTop(bitmap[..], levels, nbits, bit', s, false);
    }

    /** bitmap_init(): every logical bit starts out unset. */
    constructor (nbits: nat, levels: seq<nat>)
      requires Offsets(levels, nbits)
      ensures Valid() && this.nbits == nbits && this.levels == levels && fresh(bitmap)
      ensures Contents() == {}
    {
      this.nbits := nbits;
      this.levels := levels;
      bitmap := new Word[levels[|levels| - 1]](_ => AllOnes());
      new;
      hide Members, View, Fits, ValidTree, Offsets, Trimmed;
      FreshArray(bitmap[..], levels, nbits);
      TrimLevel(0, nbits);
      var i := 1;
      while i < |levels| - 1
        invariant 1 <= i <= |levels| - 1 && Fits(bitmap[..], levels)
        invariant Trimmed(View(bitmap[..], levels), nbits, i)
      {
        LevelBits(levels, nbits, i);
        TrimLevel(i, levels[i] - levels[i - 1]);
        i := i + 1;
      }
      TrimmedIsValid(View(bitmap[..], levels), nbits);
    }

    /** Clears the unused high bits of the last word of level `i`, which stores `count` bits. */
    method TrimLevel(i: nat, count: nat)
      requires Offsets(levels, nbits) && Fits(bitmap[..], levels) && i < |levels| - 1
      requires count == Below(levels, nbits, i)
      requires Trimmed(View(bitmap[..], levels), nbits, i)
      modifies bitmap
      ensures Fits(bitmap[..], levels) && Trimmed(View(bitmap[..], levels), nbits, i + 1)
    {
      hide Below, View, Fits, Offsets, Trimmed;
      FitsTotal(bitmap[..], levels);
      LastWord(levels, nbits, i, bitmap.Length);
      var last := levels[i + 1] - 1;
      var extra := Extra(count);
      ghost var a := bitmap[..];
      TrimArray(a, levels, nbits, i, last, count, a[last := ShiftRight(a[last], extra)]);
      if extra != 0 {
        bitmap[last] := ShiftRight(bitmap[last], extra);
        assert bitmap[..] == a[last := ShiftRight(a[last], extra)];
      }
    }
  }

  /** The bit of level `i` that speaks of word `j` below lies, and nothing else does; if `i` is
      above the root nothing lies at all.  `gone` tells whether that word is zero. */
  ghost predicate Lying(t: Tree, n: nat, i: nat, j: nat, s: set<nat>, gone: bool) {
    && Shape(t, n) && Tidy(t, n) && 0 < i <= |t| && j < |t[i - 1]|
    && TruthfulBut(t, i, j) && Members(t, n) == s && IsZero(t[i - 1][j]) == gone
  }

  lemma FlipBottomTree(t: Tree, n: nat, b: nat, t': Tree)
    requires ValidTree(t, n) && b < n && b / NBITS < |t[0]| && t' == t[0 := Flipped(t[0], b)]
    ensures var s := if b in Members(t, n) then Members(t, n) - {b} else Members(t, n) + {b};
            if IsZero(t[0][b / NBITS]) == IsZero(t'[0][b / NBITS])
            then ValidTree(t', n) && Members(t', n) == s
            else Lying(t', n, 1, b / NBITS, s, IsZero(t'[0][b / NBITS]))
  {
    hide Groups, Members, IsZero;
    FlipShape(t, n, 0, b, t');
    FlipTidy(t, n, 0, b, t');
    FlipTruth(t, 0, b, t');
    FlipMembers(t, n, b, t');
  }

  lemma FlipUpperTree(t: Tree, n: nat, i: nat, b: nat, s: set<nat>, gone: bool, t': Tree)
    requires Lying(t, n, i, b, s, gone) && i < |t| && b / NBITS < |t[i]|
    requires t' == t[i := Flipped(t[i], b)]
    ensures if IsZero(t[i][b / NBITS]) == IsZero(t'[i][b / NBITS])
            then ValidTree(t', n) && Members(t', n) == s
            else Lying(t', n, i + 1, b / NBITS, s, IsZero(t'[i][b / NBITS]))
    ensures t[i][b / NBITS][b % NBITS] == gone
  {
    hide Groups, Members, IsZero;
    FlipShape(t, n, i, b, t');
    FlipTidy(t, n, i, b, t');
    FlipTruth(t, i, b, t');
    FlipAbove(t, n, i, Flipped(t[i], b));
    assert !Truthful(t, i, b);
  }

  lemma ToggleZero(w: Word, k: nat)
    requires k < NBITS
    ensures w[k] ==> !IsZero(w)
    ensures !w[k] ==> !IsZero(Toggle(w, k))
  {
    assert Toggle(w, k)[k] != w[k];
  }

  /** What storing the flipped bottom word does. */
  lemma FlipBottom(a: seq<Word>, offs: seq<nat>, n: nat, b: nat)
    requires Offsets(offs, n) && Fits(a, offs) && ValidTree(View(a, offs), n) && b < n
    ensures b / NBITS < |a|
    ensures var w := a[b / NBITS];
            var w' := Toggle(w, b % NBITS);
            var a' := a[b / NBITS := w'];
            var s := Members(View(a, offs), n);
            && Fits(a', offs)
            && (b !in s ==>
                 if IsZero(w') then Lying(View(a', offs), n, 1, b / NBITS, s + {b}, true)
                 else ValidTree(View(a', offs), n) && Members(View(a', offs), n) == s + {b})
            && (b in s ==>
                 if IsZero(w) then Lying(View(a', offs), n, 1, b / NBITS, s - {b}, false)
                 else ValidTree(View(a', offs), n) && Members(View(a', offs), n) == s - {b})
  {
    hide Groups, Below, Size, ValidTree, Lying, Members, IsZero, Offsets;
    WordOfBit(a, offs, n, b);
    var t := View(a, offs);
    ValidShape(t, n);
    BitInLevel(t, n, b);
    ViewWord(a, offs, 0, b / NBITS);
    OffsetZero(offs, n);
    var w' := Toggle(a[b / NBITS], b % NBITS);
    ToggleZero(a[b / NBITS], b % NBITS);
    ViewUpdate(a, offs, 0, b / NBITS, w', Flipped(t[0], b));
    FlipBottomTree(t, n, b, t[0 := Flipped(t[0], b)]);
  }

  lemma OffsetZero(offs: seq<nat>, n: nat)
    requires Offsets(offs, n)
    ensures |offs| >= 2 && offs[0] == 0
  {
  }

  lemma ValidShape(t: Tree, n: nat)
    requires ValidTree(t, n)
    ensures Shape(t, n)
  {
  }

  lemma LyingShape(t: Tree, n: nat, i: nat, j: nat, s: set<nat>, gone: bool)
    requires Lying(t, n, i, j, s, gone) && i < |t|
    ensures i > 0 && j / NBITS < |t[i]|
  {
    InLevel(t, n, i, j);
  }

  /** What storing the flipped word of an upper level does. */
  lemma FlipUpper(a: seq<Word>, offs: seq<nat>, n: nat, i: nat, b: nat, s: set<nat>, gone: bool)
    requires Fits(a, offs) && i < |offs| - 1
    requires Lying(View(a, offs), n, i, b, s, gone)
    ensures offs[i] + b / NBITS < |a|
    ensures var w := a[offs[i] + b / NBITS];
            var w' := Toggle(w, b % NBITS);
            var a' := a[offs[i] + b / NBITS := w'];
            && w[b % NBITS] == gone
            && Fits(a', offs)
            && if IsZero(if gone then w' else w)
               then Lying(View(a', offs), n, i + 1, b / NBITS, s, gone)
               else ValidTree(View(a', offs), n) && Members(View(a', offs), n) == s
  {
    hide Groups, Below, Size, ValidTree, Lying, Members, IsZero, Offsets;
    var t := View(a, offs);
    LyingShape(t, n, i, b, s, gone);
    ViewWord(a, offs, i, b / NBITS);
    var w := a[offs[i] + b / NBITS];
    ToggleZero(w, b % NBITS);
    ViewUpdate(a, offs, i, b / NBITS, Toggle(w, b % NBITS), Flipped(t[i], b));
    FlipUpperTree(t, n, i, b, s, gone, t[i := Flipped(t[i], b)]);
  }

  lemma LyingAtTop(a: seq<Word>, offs: seq<nat>, n: nat, j: nat, s: set<nat>, gone: bool)
    requires Fits(a, offs) && Lying(View(a, offs), n, |offs| - 1, j, s, gone)
    ensures ValidTree(View(a, offs), n) && Members(View(a, offs), n) == s
  {
  }

  // ---------------------------------------------------------------- finding the first unset bit

  lemma RootWord(t: Tree, n: nat)
    requires ValidTree(t, n) && !IsFull(Members(t, n), n)
    ensures |t| > 0 && |t[|t| - 1]| == 1 && !IsZero(t[|t| - 1][0])
    ensures FirstOne(t, |t| - 1, Lowest(t[|t| - 1][0]))
  {
    hide Groups, Members, IsFull, Size;
    RootTells(t, n);
    FirstInLevel(t, |t| - 1, 0);
  }

  lemma StartAtRoot(a: seq<Word>, offs: seq<nat>, n: nat)
    requires Fits(a, offs) && ValidTree(View(a, offs), n)
    requires !IsFull(Members(View(a, offs), n), n)
    ensures |offs| >= 2 && offs[|offs| - 2] < |a| && !IsZero(a[offs[|offs| - 2]])
    ensures FirstOne(View(a, offs), |offs| - 2, Lowest(a[offs[|offs| - 2]]))
  {
    hide ValidTree, Members, IsFull, FirstOne, IsZero;
    RootWord(View(a, offs), n);
    ViewWord(a, offs, |offs| - 2, 0);
  }

  lemma DescendArray(a: seq<Word>, offs: seq<nat>, n: nat, i: nat, b: nat)
    requires Fits(a, offs) && ValidTree(View(a, offs), n)
    requires 0 < i < |offs| - 1 && FirstOne(View(a, offs), i, b)
    ensures offs[i - 1] + b < |a| && !IsZero(a[offs[i - 1] + b])
    ensures FirstOne(View(a, offs), i - 1, NBITS * b + Lowest(a[offs[i - 1] + b]))
  {
    hide ValidTree, FirstOne, IsZero;
    Descend(View(a, offs), n, i, b);
    ViewWord(a, offs, i - 1, b);
  }

  lemma FirstIsLeast(a: seq<Word>, offs: seq<nat>, n: nat, b: nat)
    requires Fits(a, offs) && ValidTree(View(a, offs), n) && FirstOne(View(a, offs), 0, b)
    ensures b < n && b !in Members(View(a, offs), n)
    ensures forall c: nat :: c < b ==> c in Members(View(a, offs), n)
  {
    hide Groups;
    assert NBITS * (b / NBITS) + b % NBITS == b;
    assert b < Size(View(a, offs), n, 0);
  }

  lemma BitInLevel(t: Tree, n: nat, b: nat)
    requires Shape(t, n) && b < n
    ensures b / NBITS < |t[0]|
  {
    InLevel(t, n, 0, b);
  }

  lemma WordOfBit(a: seq<Word>, offs: seq<nat>, n: nat, bit: nat)
    requires Offsets(offs, n) && Fits(a, offs) && ValidTree(View(a, offs), n) && bit < n
    ensures bit / NBITS < |a|
    ensures a[bit / NBITS][bit % NBITS] <==> bit !in Members(View(a, offs), n)
  {
    hide Groups, Below, Size;
    BitInLevel(View(a, offs), n, bit);
    ViewWord(a, offs, 0, bit / NBITS);
  }

  lemma LevelBits(offs: seq<nat>, n: nat, i: nat)
    requires Offsets(offs, n) && 0 < i < |offs| - 1
    ensures offs[i] - offs[i - 1] == Below(offs, n, i) > 0
  {
  }

  lemma FreshArray(a: seq<Word>, offs: seq<nat>, n: nat)
    requires Offsets(offs, n) && |a| == offs[|offs| - 1]
    requires forall j :: 0 <= j < |a| ==> a[j] == AllOnes()
    ensures Fits(a, offs) && Trimmed(View(a, offs), n, 0) && Below(offs, n, 0) == n
  {
    hide Groups, Below, Size;
    BelowFirst(offs, n);
    ViewShape(a, offs, n);
  }

  lemma FitsTotal(a: seq<Word>, offs: seq<nat>)
    requires Fits(a, offs)
    ensures |offs| >= 2 && |a| == offs[|offs| - 1]
  {
  }

  lemma LastWord(offs: seq<nat>, n: nat, i: nat, total: nat)
    requires Offsets(offs, n) && i < |offs| - 1 && total == offs[|offs| - 1]
    ensures 0 < offs[i + 1] <= total
  {
    hide Groups, Below;
  }

  lemma TrimArray(a: seq<Word>, offs: seq<nat>, n: nat, i: nat, last: nat, size: nat, a': seq<Word>)
    requires Fits(a, offs) && i < |offs| - 1
    requires Trimmed(View(a, offs), n, i)
    requires size == Below(offs, n, i) && last + 1 == offs[i + 1] <= |a|
    requires a' == a[last := ShiftRight(a[last], Extra(size))]
    ensures Fits(a', offs) && Trimmed(View(a', offs), n, i + 1)
    ensures Extra(size) == 0 ==> a' == a
  {
    hide Groups, Fresh, Below, Size, Shape, Extra;
    var t := View(a, offs);
    ViewSizes(a, offs, n, i);
    ViewWord(a, offs, i, |t[i]| - 1);
    ViewUpdate(a, offs, i, |t[i]| - 1, ShiftRight(a[last], Extra(size)), Trim(t[i], size));
    TrimKeeps(t, n, i);
    ShiftNone(a[last]);
  }

  lemma ShiftNone(w: Word)
    ensures ShiftRight(w, 0) == w
  {
  }

  /** Level `l`, of `size` bits, without the unused high bits of its last word. */
  ghost function Trim(l: seq<Word>, size: nat): (r: seq<Word>)
    requires |l| > 0
    ensures |r| == |l|
  {
    l[|l| - 1 := ShiftRight(l[|l| - 1], Extra(size))]
  }

  /** A level that says that everything below is there. */
  ghost predicate Fresh(l: seq<Word>, size: nat) {
    forall j, k :: 0 <= j < |l| && 0 <= k < NBITS ==> (l[j][k] <==> NBITS * j + k < size)
  }

  /** The first `i` levels are done, the others are still all ones. */
  ghost predicate Trimmed(t: Tree, n: nat, i: nat) {
    && Shape(t, n) && i <= |t|
    && (forall j :: 0 <= j < i ==> Fresh(t[j], Size(t, n, j)))
    && (forall j, c :: i <= j < |t| && 0 <= c < |t[j]| ==> t[j][c] == AllOnes())
  }

  lemma TrimFresh(l: seq<Word>, size: nat)
    requires size > 0 && |l| == Groups(size) && forall c :: 0 <= c < |l| ==> l[c] == AllOnes()
    ensures Fresh(Trim(l, size), size)
  {
  }

  lemma TrimKeeps(t: Tree, n: nat, i: nat)
    requires Trimmed(t, n, i) && i < |t| && |t[i]| > 0
    ensures Trimmed(t[i := Trim(t[i], Size(t, n, i))], n, i + 1)
  {
    hide Groups, Fresh, Trim;
    TrimFresh(t[i], Size(t, n, i));
    SameShape(t, n, t[i := Trim(t[i], Size(t, n, i))]);
  }

  lemma TrimmedIsValid(t: Tree, n: nat)
    requires Trimmed(t, n, |t|)
    ensures ValidTree(t, n) && Members(t, n) == {}
  {
    forall i, j | 0 < i < |t| && 0 <= j < |t[i - 1]| ensures Truthful(t, i, j) {
      InLevel(t, n, i, j);
      assert NBITS * (j / NBITS) + j % NBITS == j;
      assert t[i - 1][j][0];
    }
    forall b: nat | b < n ensures Bit(t, 0, b) {
      InLevel(t, n, 0, b);
      assert NBITS * (b / NBITS) + b % NBITS == b;
    }
  }

  // ---------------------------------------------------------------- the linear variant

  ghost predicate LinearValid(a: seq<Word>, n: nat) {
    n > 0 && |a| == Groups(n) && Tidy([a], n)
  }

  lemma LinearBit(a: seq<Word>, n: nat, b: nat)
    requires LinearValid(a, n) && b < n
    ensures b / NBITS < |a|
    ensures a[b / NBITS][b % NBITS] <==> b !in Members([a], n)
  {
  }

  lemma LinearFlip(a: seq<Word>, n: nat, b: nat, a': seq<Word>)
    requires LinearValid(a, n) && b < n && b / NBITS < |a| && a' == Flipped(a, b)
    ensures LinearValid(a', n)
    ensures Members([a'], n) == if b in Members([a], n) then Members([a], n) - {b} else Members([a], n) + {b}
  {
    assert [a'] == [a][0 := a'];
    FlipTidy([a], n, 0, b, [a']);
    FlipMembers([a], n, b, [a']);
  }

  lemma LinearFull(a: seq<Word>, n: nat)
    requires LinearValid(a, n)
    ensures IsFull(Members([a], n), n) <==> forall j :: 0 <= j < |a| ==> IsZero(a[j])
  {
    hide Groups;
    if IsFull(Members([a], n), n) {
      forall j | 0 <= j < |a| ensures IsZero(a[j]) {
        forall k | 0 <= k < NBITS ensures !a[j][k] {
          var b := NBITS * j + k;
          assert b / NBITS == j && b % NBITS == k;
          assert [a][0] == a;
          if b < n {
            assert b in Members([a], n);
          }
        }
      }
    }
    if forall j :: 0 <= j < |a| ==> IsZero(a[j]) {
      forall b: nat | b < n ensures b in Members([a], n) {
        assert !Bit([a], 0, b);
      }
    }
  }

  lemma LinearFirst(a: seq<Word>, n: nat, i: nat)
    requires LinearValid(a, n) && i < |a| && !IsZero(a[i])
    requires forall j :: 0 <= j < i ==> IsZero(a[j])
    ensures var b := NBITS * i + Lowest(a[i]);
            b < n && b !in Members([a], n) && forall c: nat :: c < b ==> c in Members([a], n)
  {
    hide Groups;
    var b := NBITS * i + Lowest(a[i]);
    assert [a][0][i][Lowest(a[i])];
    forall g: nat | g < i ensures IsZero([a][0][g]) {
    }
    FirstInLevel([a], 0, i);
    assert b < Size([a], n, 0);
  }

  lemma LinearInit(a: seq<Word>, n: nat, a': seq<Word>)
    requires n > 0 && |a| == Groups(n) && |a| > 0 && forall j :: 0 <= j < |a| ==> a[j] == AllOnes()
    requires a' == Trim(a, n)
    ensures LinearValid(a', n) && Members([a'], n) == {}
  {
    TrimFresh(a, n);
    hide Trim, Extra;
    forall j, k | 0 <= j < |a'| && 0 <= k < NBITS && a'[j][k] ensures NBITS * j + k < n {
    }
    forall b: nat | b < n ensures Bit([a'], 0, b) {
      assert NBITS * (b / NBITS) + b % NBITS == b;
      assert b / NBITS < |a'|;
    }
  }

  class LinearBitmap {
    const nbits: nat
    const bitmap: array<Word>

    ghost predicate Valid()
      reads this, bitmap
    {
      LinearValid(bitmap[..], nbits)
    }

    ghost function Contents(): set<nat>
      requires Valid()
      reads this, bitmap
    {
      Members([bitmap[..]], nbits)
    }

    constructor (nbits: nat)
      requires nbits > 0
      ensures Valid() && this.nbits == nbits && fresh(bitmap) && Contents() == {}
    {
      this.nbits := nbits;
      bitmap := new Word[Groups(nbits)](_ => AllOnes());
      new;
      GroupsShrink();
      var extra := Extra(nbits);
      ghost var a := bitmap[..];
      ShiftNone(bitmap[Groups(nbits) - 1]);
      if extra != 0 {
        bitmap[Groups(nbits) - 1] := ShiftRight(bitmap[Groups(nbits) - 1], extra);
      }
      assert bitmap[..] == Trim(a, nbits);
      LinearInit(a, nbits, bitmap[..]);
    }

    method Full() returns (r: bool)
      requires Valid()
      ensures r <==> IsFull(Contents(), nbits)
    {
      hide Groups, Members, IsFull;
      LinearFull(bitmap[..], nbits);
      var i := 0;
      while i < bitmap.Length
        invariant i <= bitmap.Length
        invariant forall j :: 0 <= j < i ==> IsZero(bitmap[j])
      {
        if !IsZero(bitmap[i]) {
          return false;
        }
        i := i + 1;
      }
      return true;
    }

    method Get(bit: nat) returns (r: bool)
      requires Valid() && bit < nbits
      ensures r <==> bit in Contents()
    {
      hide Members, LinearValid;
      LinearBit(bitmap[..], nbits, bit);
      r := !bitmap[bit / NBITS][bit % NBITS];
    }

    method Set(bit: nat)
      requires Valid() && bit < nbits && bit !in Contents()
      modifies bitmap
      ensures Valid() && Contents() == old(Contents()) + {bit}
    {
      hide Members, LinearValid;
      LinearBit(bitmap[..], nbits, bit);
      LinearFlip(bitmap[..], nbits, bit, Flipped(bitmap[..], bit));
      var goff := bit / NBITS;
      bitmap[goff] := Toggle(bitmap[goff], bit % NBITS);
      assert bitmap[..] == old(Flipped(bitmap[..], bit));
    }

    method Sfu() returns (bit: nat)
      requires Valid() && !IsFull(Contents(), nbits)
      modifies bitmap
      ensures Valid() && bit < nbits && Contents() == old(Contents()) + {bit}
      ensures bit !in old(Contents()) && forall b: nat :: b < bit ==> b in old(Contents())
    {
      hide Members, LinearValid, IsFull, IsZero;
      LinearFull(bitmap[..], nbits);
      var i := 0;
      while IsZero(bitmap[i])
        invariant i < bitmap.Length
        invariant forall j :: 0 <= j < i ==> IsZero(bitmap[j])
        decreases bitmap.Length - i
      {
        if i + 1 == bitmap.Length {
          assert forall j :: 0 <= j < bitmap.Length ==> IsZero(bitmap[..][j]);
        }
        i := i + 1;
      }
      LinearFirst(bitmap[..], nbits, i);
      bit := NBITS * i + Lowest(bitmap[i]);
      Set(bit);
    }

    method Unset(bit: nat)
      requires Valid() && bit < nbits && bit in Contents()
      modifies bitmap
      ensures Valid() && Contents() == old(Contents()) - {bit}
    {
      hide Members, LinearValid;
      LinearBit(bitmap[..], nbits, bit);
      LinearFlip(bitmap[..], nbits, bit, Flipped(bitmap[..], bit));
      var goff := bit / NBITS;
      bitmap[goff] := Toggle(bitmap[goff], bit % NBITS);
      assert bitmap[..] == old(Flipped(bitmap[..], bit));
    }
  }

  // ---------------------------------------------------------------- the two variants agree

  datatype Op = OpSet(bit: nat) | OpUnset(bit: nat) | OpSfu | OpGet(bit: nat) | OpFull

  datatype Answer = Nothing | Truth(b: bool) | Index(bit: nat)

  /** The least bit from `k` on that is not in the set. */
  ghost function LeastOut(s: set<nat>, n: nat, k: nat): (b: nat)
    requires k <= n && !IsFull(s, n) && forall c: nat :: c < k ==> c in s
    ensures b < n && b !in s && forall c: nat :: c < b ==> c in s
    decreases n - k
  {
    if k == n || k !in s then k else LeastOut(s, n, k + 1)
  }

  lemma LeastOutIs(s: set<nat>, n: nat, b: nat)
    requires b < n && b !in s && forall c: nat :: c < b ==> c in s
    ensures !IsFull(s, n) && LeastOut(s, n, 0) == b
  {
    var a := LeastOut(s, n, 0);
    assert !(a < b) && !(b < a);
  }

  /** What an operation does to the set of bits that are set.  One whose assertion would fail does nothing. */
  ghost function After(s: set<nat>, n: nat, op: Op): set<nat> {
    match op
    case OpSet(bit) => if bit < n then s + {bit} else s
    case OpUnset(bit) => if bit < n then s - {bit} else s
    case OpSfu => if IsFull(s, n) then s else s + {LeastOut(s, n, 0)}
    case OpGet(_) => s
    case OpFull => s
  }

  ghost function Reply(s: set<nat>, n: nat, op: Op): Answer {
    match op
    case OpSet(_) => Nothing
    case OpUnset(_) => Nothing
    case OpSfu => if IsFull(s, n) then Nothing else Index(LeastOut(s, n, 0))
    case OpGet(bit) => if bit < n then Truth(bit in s) else Nothing
    case OpFull => Truth(IsFull(s, n))
  }

  /** The bits that are set after some operations on a fresh bitmap. */
  ghost function Reached(n: nat, ops: seq<Op>): set<nat>
    decreases |ops|
  {
    if ops == [] then {} else After(Reached(n, ops[..|ops| - 1]), n, ops[|ops| - 1])
  }

  /** The answers to a run of operations, from the sets of bits alone. */
  ghost function Expected(n: nat, ops: seq<Op>): (r: seq<Answer>)
    ensures |r| == |ops|
    decreases |ops|
  {
    if ops == [] then []
    else
      var k := |ops| - 1;
      Expected(n, ops[..k]) + [Reply(Reached(n, ops[..k]), n, ops[k])]
  }

  lemma ReachedNext(n: nat, ops: seq<Op>, i: nat)
    requires i < |ops|
    ensures Reached(n, ops[..i + 1]) == After(Reached(n, ops[..i]), n, ops[i])
    ensures Expected(n, ops[..i + 1]) == Expected(n, ops[..i]) + [Reply(Reached(n, ops[..i]), n, ops[i])]
  {
    assert ops[..i + 1][..i] == ops[..i];
  }

  /** Any run of operations gets from both variants the answers that the set of bits gives; an operation
      whose assertion would fail is skipped. */
  method RunBoth(nbits: nat, ops: seq<Op>) returns (tree: seq<Answer>, linear: seq<Answer>)
    requires nbits > 0
    ensures tree == Expected(nbits, ops) == linear
  {
    hide *;
    var levels := InfoInit(nbits);
    var t := new TreeBitmap(nbits, levels);
    var l := new LinearBitmap(nbits);
    tree, linear := [], [];
    var i := 0;
    NothingReached(nbits);
    assert ops[..0] == [];
    while i < |ops|
      invariant i <= |ops| && t.nbits == l.nbits == nbits
      invariant fresh(t.bitmap) && fresh(l.bitmap) && t.bitmap != l.bitmap
      invariant t.Valid() && l.Valid() && t.Contents() == Reached(nbits, ops[..i]) == l.Contents()
      invariant tree == Expected(nbits, ops[..i]) == linear
    {
      var x, y := Step(t, l, ops[i]);
      ReachedNext(nbits, ops, i);
      tree, linear := tree + [x], linear + [y];
      i := i + 1;
    }
    assert ops[..i] == ops;
  }

  lemma NothingReached(n: nat)
    ensures Reached(n, []) == {} && Expected(n, []) == []
  {
  }

  /** One operation on both. */
  method Step(t: TreeBitmap, l: LinearBitmap, op: Op) returns (x: Answer, y: Answer)
    requires t.nbits == l.nbits && t.bitmap != l.bitmap
    requires t.Valid() && l.Valid() && t.Contents() == l.Contents()
    modifies t.bitmap, l.bitmap
    ensures t.Valid() && l.Valid()
    ensures t.Contents() == After(old(t.Contents()), t.nbits, op) == l.Contents()
    ensures x == Reply(old(t.Contents()), t.nbits, op) == y
  {
    x, y := Nothing, Nothing;
    hide *;
    ghost var s, n := t.Contents(), t.nbits;
    Replies(s, n, op);
    match op
    case OpFull =>
      var a := t.Full();
      var b := l.Full();
      x, y := Truth(a), Truth(b);
    case OpGet(bit) =>
      if bit < t.nbits {
        var a := t.Get(bit);
        var b := l.Get(bit);
        x, y := Truth(a), Truth(b);
      }
    case OpSet(bit) =>
      if bit < t.nbits {
        var a := t.Get(bit);
        if a {
          assert s + {bit} == s;
        } else {
          t.Set(bit);
          l.Set(bit);
        }
      }
    case OpUnset(bit) =>
      if bit < t.nbits {
        var a := t.Get(bit);
        if a {
          t.Unset(bit);
          l.Unset(bit);
        } else {
          assert s - {bit} == s;
        }
      }
    case OpSfu =>
      var full := t.Full();
      if !full {
        var a := t.Sfu();
        LeastOutIs(s, n, a);
        var b := l.Sfu();
        LeastOutIs(s, n, b);
        x, y := Index(a), Index(b);
      }
  }

  /** The definitions, case by case. */
  lemma Replies(s: set<nat>, n: nat, op: Op)
    ensures op.OpFull? ==> Reply(s, n, op) == Truth(IsFull(s, n)) && After(s, n, op) == s
    ensures op.OpGet? ==> Reply(s, n, op) == (if op.bit < n then Truth(op.bit in s) else Nothing)
    ensures op.OpGet? ==> After(s, n, op) == s
    ensures op.OpSet? ==> Reply(s, n, op) == Nothing && After(s, n, op) == if op.bit < n then s + {op.bit} else s
    ensures op.OpUnset? ==> Reply(s, n, op) == Nothing && After(s, n, op) == if op.bit < n then s - {op.bit} else s
    ensures op.OpSfu? && IsFull(s, n) ==> Reply(s, n, op) == Nothing && After(s, n, op) == s
    ensures op.OpSfu? && !IsFull(s, n) ==>
              Reply(s, n, op) == Index(LeastOut(s, n, 0)) && After(s, n, op) == s + {LeastOut(s, n, 0)}
  {
  }
}
