/**
 One bin of a thread cache: a stack of cached pointers, flushed from the bottom to the arenas that own
 them.  Index k of the array is the pointer that the code reads at `avail - 1 - k`.
 */
module Tcache {
  import opened Arith
  import opened Pow2

  type Ptr = nat
  type Owner = Ptr -> nat

  // ---------------------------------------------------------------- what flushing returns

  /** The pointers that another arena than `a` owns, in order. */
  function Others(s: seq<Ptr>, owner: Owner, a: nat): (r: seq<Ptr>)
    ensures |r| <= |s|
    ensures forall k :: 0 <= k < |r| ==> owner(r[k]) != a
  {
    if s == [] then []
    else
      var n := |s| - 1;
      Others(s[..n], owner, a) + if owner(s[n]) != a then [s[n]] else []
  }

  /** The pointers that `a` owns, each with the arena it is returned to. */
  function Returned(s: seq<Ptr>, owner: Owner, a: nat): (r: seq<(nat, Ptr)>)
    ensures forall k :: 0 <= k < |r| ==> r[k].0 == a == owner(r[k].1)
  {
    if s == [] then []
    else
      var n := |s| - 1;
      Returned(s[..n], owner, a) + if owner(s[n]) == a then [(a, s[n])] else []
  }

  /** Pass by pass: the arena of the first pointer gets all of its pointers, then the rest follow. */
  function Flushed(s: seq<Ptr>, owner: Owner): (r: seq<(nat, Ptr)>)
    decreases |s|
  {
    if s == [] then []
    else
      var a := owner(s[0]);
      OthersShrink(s, owner);
      Returned(s, owner, a) + Flushed(Others(s, owner, a), owner)
  }

  lemma {:induction false} OthersShrink(s: seq<Ptr>, owner: Owner)
    requires s != []
    ensures |Others(s, owner, owner(s[0]))| < |s|
  {
    var n := |s| - 1;
    if n > 0 {
      assert s[..n][0] == s[0];
      OthersShrink(s[..n], owner);
    }
  }

  lemma {:induction false} OthersFrom(s: seq<Ptr>, owner: Owner, a: nat)
    ensures forall k :: 0 <= k < |Others(s, owner, a)| ==> Others(s, owner, a)[k] in s
  {
    if s != [] {
      OthersFrom(s[..|s| - 1], owner, a);
    }
  }

  ghost predicate NoneOwned(s: seq<Ptr>, owner: Owner, a: nat) {
    forall k :: 0 <= k < |s| ==> owner(s[k]) != a
  }

  lemma FirstOwned(s: seq<Ptr>, owner: Owner)
    requires s != []
    ensures !NoneOwned(s, owner, owner(s[0]))
  {
  }

  /** Once an arena got its pointers, or if it has none, it owns none of those deferred. */
  lemma OthersNone(s: seq<Ptr>, owner: Owner, b: nat, a: nat)
    ensures b == a || NoneOwned(s, owner, a) ==> NoneOwned(Others(s, owner, b), owner, a)
  {
    OthersFrom(s, owner, b);
  }

  lemma FlushedNone(owner: Owner)
    ensures Flushed([], owner) == []
  {
  }

  lemma FlushedStep(s: seq<Ptr>, owner: Owner)
    requires s != []
    ensures Flushed(s, owner) == Returned(s, owner, owner(s[0])) + Flushed(Others(s, owner, owner(s[0])), owner)
  {
    OthersShrink(s, owner);
  }

  function Pointers(r: seq<(nat, Ptr)>): seq<Ptr> {
    seq(|r|, i requires 0 <= i < |r| => r[i].1)
  }

  lemma PointersAdd(r: seq<(nat, Ptr)>, q: seq<(nat, Ptr)>)
    ensures multiset(Pointers(r + q)) == multiset(Pointers(r)) + multiset(Pointers(q))
  {
    assert Pointers(r + q) == Pointers(r) + Pointers(q);
  }

  lemma NothingYet(s: seq<Ptr>, owner: Owner, a: nat)
    ensures Others(s[..0], owner, a) == [] && Returned(s[..0], owner, a) == []
  {
  }

  /** One more pointer looked at. */
  lemma PassStep(s: seq<Ptr>, owner: Owner, a: nat, i: nat)
    requires i < |s|
    ensures Others(s[..i + 1], owner, a) == Others(s[..i], owner, a) + if owner(s[i]) != a then [s[i]] else []
    ensures Returned(s[..i + 1], owner, a) == Returned(s[..i], owner, a) + if owner(s[i]) == a then [(a, s[i])] else []
    ensures s[..|s|] == s
  {
    assert s[..i + 1][..i] == s[..i];
  }

  /** `s` is what `o` and the pointers of `r` are together. */
  ghost predicate Splits(o: seq<Ptr>, r: seq<(nat, Ptr)>, s: seq<Ptr>) {
    multiset(o) + multiset(Pointers(r)) == multiset(s)
  }

  lemma SplitsNone(s: seq<Ptr>, owner: Owner, a: nat)
    ensures Splits(Others(s[..0], owner, a), Returned(s[..0], owner, a), s[..0])
  {
    NothingYet(s, owner, a);
    assert Pointers([]) == [];
  }

  lemma BagReturned(o: seq<Ptr>, r: seq<(nat, Ptr)>, s: seq<Ptr>, a: nat, x: Ptr)
    requires Splits(o, r, s)
    ensures Splits(o, r + [(a, x)], s + [x])
  {
    PointersAdd(r, [(a, x)]);
    assert Pointers([(a, x)]) == [x];
    hide Pointers;
    assert multiset(s + [x]) == multiset(s) + multiset{x};
  }

  lemma BagDeferred(o: seq<Ptr>, r: seq<(nat, Ptr)>, s: seq<Ptr>, x: Ptr)
    requires Splits(o, r, s)
    ensures Splits(o + [x], r, s + [x])
  {
    hide Pointers;
    assert multiset(s + [x]) == multiset(s) + multiset{x};
    assert multiset(o + [x]) == multiset(o) + multiset{x};
  }

  lemma {:induction false} PassSplits(s: seq<Ptr>, owner: Owner, a: nat, i: nat)
    requires i <= |s|
    ensures Splits(Others(s[..i], owner, a), Returned(s[..i], owner, a), s[..i])
  {
    hide Others, Returned, Splits;
    if i == 0 {
      SplitsNone(s, owner, a);
    } else {
      var t, x := s[..i - 1], s[i - 1];
      PassSplits(s, owner, a, i - 1);
      PassStep(s, owner, a, i - 1);
      assert s[..i] == t + [x];
      var o, r := Others(t, owner, a), Returned(t, owner, a);
      if owner(x) == a {
        BagReturned(o, r, t, a, x);
        assert o + [] == o;
      } else {
        BagDeferred(o, r, t, x);
        assert r + [] == r;
      }
    }
  }

  /** Every pointer is returned exactly as often as it was cached, and to its own arena. */
  lemma {:induction false} FlushedOnce(s: seq<Ptr>, owner: Owner)
    ensures multiset(Pointers(Flushed(s, owner))) == multiset(s)
    ensures forall k :: 0 <= k < |Flushed(s, owner)| ==> Flushed(s, owner)[k].0 == owner(Flushed(s, owner)[k].1)
    decreases |s|
  {
    if s != [] {
      var a := owner(s[0]);
      OthersShrink(s, owner);
      PassSplits(s, owner, a, |s|);
      assert s[..|s|] == s;
      FlushedOnce(Others(s, owner, a), owner);
      PointersAdd(Returned(s, owner, a), Flushed(Others(s, owner, a), owner));
    }
  }

  /** An arena that nobody's pointer needs gets nothing. */
  lemma {:induction false} FlushedOwners(s: seq<Ptr>, owner: Owner, a: nat)
    requires forall k :: 0 <= k < |s| ==> owner(s[k]) != a
    ensures forall k :: 0 <= k < |Flushed(s, owner)| ==> Flushed(s, owner)[k].0 != a
  {
    FlushedOnce(s, owner);
    var f := Flushed(s, owner);
    forall k | 0 <= k < |f| ensures f[k].0 != a {
      assert Pointers(f)[k] in multiset(Pointers(f));
      assert f[k].1 in multiset(s);
    }
  }

  /** No arena is locked in two passes: what one arena gets is contiguous. */
  lemma {:induction false} FlushedGrouped(s: seq<Ptr>, owner: Owner, i: nat, j: nat, k: nat)
    requires i < j < k < |Flushed(s, owner)| && Flushed(s, owner)[i].0 == Flushed(s, owner)[k].0
    ensures Flushed(s, owner)[j].0 == Flushed(s, owner)[i].0
    decreases |s|
  {
    var a := owner(s[0]);
    OthersShrink(s, owner);
    var rest := Others(s, owner, a);
    var n := |Returned(s, owner, a)|;
    FlushedOwners(rest, owner, a);
    if i >= n {
      FlushedGrouped(rest, owner, i - n, j - n, k - n);
    }
  }

  // ---------------------------------------------------------------- the bin

  lemma Quarter(low: nat)
    ensures low - low / 4 == (3 * low + 3) / 4
  {
  }

  lemma FillDoubles(max: nat, lg: nat)
    ensures max / P(lg) >= 1 <==> P(lg) <= max
    ensures P(lg) <= max < P(lg + 1) ==> max / P(lg) == 1
    ensures max / P(lg + 1) >= 1 <==> P(lg + 1) <= max
  {
    QuotientAtLeast(max, P(lg));
    QuotientAtLeast(max, P(lg + 1));
  }

  lemma QuotientAtLeast(x: nat, d: nat)
    requires d > 0
    ensures x / d >= 1 <==> d <= x
    ensures d <= x < 2 * d ==> x / d == 1
  {
    if x < d {
      DivModUnique(x, 0, x, d);
    } else if x < 2 * d {
      DivModUnique(x, 1, x - d, d);
    } else {
      var q := x / d;
      if q <= 0 {
        AtLeastZero(-q, d);
      }
    }
  }

  lemma TwoAtLeast(max: nat, lg: nat)
    requires 1 <= lg && P(lg) <= max
    ensures 2 <= max
  {
    Mono(1, lg);
    assert P(1) == 2;
  }

  class Bin {
    const owner: Owner
    const ncachedMax: nat
    const avail: array<Ptr>
    var ncached: nat
    var lowWater: int
    var lgFillDiv: nat
    /** Requests not yet added to the statistics of an arena. */
    var nrequests: nat
    /** What the arenas were given: pointers, and request counts. */
    var freed: seq<(nat, Ptr)>
    var merges: seq<(nat, nat)>

    ghost predicate Valid()
      reads this
    {
      && avail.Length == ncachedMax && ncached <= ncachedMax && -1 <= lowWater <= ncached
      && 1 <= lgFillDiv && P(lgFillDiv) <= ncachedMax
    }

    /** The cached pointers, the top of the stack last. */
    ghost function Contents(): seq<Ptr>
      reads this, avail
      requires Valid()
    {
      avail[..ncached]
    }

    constructor (owner: Owner, ncachedMax: nat)
      requires 2 <= ncachedMax
      ensures Valid() && Contents() == [] && this.ncachedMax == ncachedMax && fresh(avail)
    {
      this.owner, this.ncachedMax := owner, ncachedMax;
      avail := new Ptr[ncachedMax];
      ncached, lowWater, lgFillDiv, nrequests := 0, 0, 1, 0;
      freed, merges := [], [];
      assert P(1) == 2;
    }

    /** The loop under the lock of arena `a`: its pointers are returned, the others are moved to the
        front of the part that is being flushed. */
    method Pass(nflush: nat, a: nat) returns (ndeferred: nat)
      requires nflush <= avail.Length
      modifies avail, this`freed
      ensures ndeferred <= nflush && avail[..ndeferred] == Others(old(avail[..nflush]), owner, a)
      ensures avail[nflush..] == old(avail[nflush..])
      ensures freed == old(freed) + Returned(old(avail[..nflush]), owner, a)
    {
      hide Others, Returned;
      ghost var s := avail[..nflush];
      NothingYet(s, owner, a);
      ndeferred := 0;
      for i := 0 to nflush
        invariant ndeferred <= i && avail[i..] == old(avail[i..])
        invariant avail[..ndeferred] == Others(s[..i], owner, a)
        invariant freed == old(freed) + Returned(s[..i], owner, a)
      {
        var ptr := avail[i];
        assert ptr == avail[i..][0] == s[i];
        PassStep(s, owner, a, i);
        ghost var before := avail[i..];
        if owner(ptr) == a {
          freed := freed + [(a, ptr)];
        } else {
          avail[ndeferred] := ptr;
          ndeferred := ndeferred + 1;
        }
        assert avail[i + 1..] == before[1..];
      }
      assert s[..nflush] == s;
    }

    /** The pointers above the flushed ones move down. */
    method MoveDown(rem: nat, nflush: nat)
      requires rem + nflush <= avail.Length
      modifies avail
      ensures avail[..rem] == old(avail[nflush..nflush + rem])
    {
      forall k | 0 <= k < rem {
        avail[k] := avail[k + nflush];
      }
    }

    /** The passes over the `n` pointers at the bottom of the stack: each arena that owns one of them is
        locked once, so the statistics of `arena` are merged at most once. */
    method FlushPasses(arena: nat, n: nat) returns (mergedStats: bool)
      requires n <= avail.Length
      modifies avail, this`freed, this`merges, this`nrequests
      ensures freed == old(freed) + Flushed(old(avail[..n]), owner) && avail[n..] == old(avail[n..])
      ensures if mergedStats then merges == old(merges) + [(arena, old(nrequests))] && nrequests == 0
              else merges == old(merges) && nrequests == old(nrequests)
    {
      hide Returned, Others, Flushed, NoneOwned;
      ghost var s := avail[..n];
      mergedStats := false;
      var nflush: nat := n;
      while nflush > 0
        invariant nflush <= n && avail[n..] == old(avail[n..])
        invariant freed + Flushed(avail[..nflush], owner) == old(freed) + Flushed(s, owner)
        invariant mergedStats ==> NoneOwned(avail[..nflush], owner, arena)
        invariant if mergedStats then merges == old(merges) + [(arena, old(nrequests))] && nrequests == 0
                  else merges == old(merges) && nrequests == old(nrequests)
        decreases nflush
      {
        var binArena := owner(avail[0]);
        FirstOwned(avail[..nflush], owner);
        if binArena == arena {
          assert !mergedStats;
          mergedStats := true;
          merges, nrequests := merges + [(arena, nrequests)], 0;
        }
        ghost var cur, above := avail[..nflush], avail[nflush..];
        OthersShrink(cur, owner);
        OthersNone(cur, owner, binArena, arena);
        FlushedStep(cur, owner);
        assert above[n - |cur|..] == avail[n..];
        nflush := Pass(nflush, binArena);
        assert avail[n..] == above[n - |cur|..];
      }
      assert avail[..0] == [];
      FlushedNone(owner);
    }

    /** tcache_bin_flush_small(), and tcache_bin_flush_large() but for the lock that is taken: all but the
        `rem` pointers on top of the stack are returned, each once and to its own arena; the requests are
        added to the statistics of `arena`, the thread's own, exactly once. */
    method Flush(arena: nat, rem: nat)
      requires Valid() && rem <= ncached
      modifies avail, this`freed, this`merges, this`nrequests, this`ncached, this`lowWater
      ensures Valid() && Contents() == old(Contents())[old(ncached) - rem..]
      ensures freed == old(freed) + Flushed(old(Contents())[..old(ncached) - rem], owner)
      ensures merges == old(merges) + [(arena, old(nrequests))] && nrequests == 0
      ensures lowWater == if rem < old(lowWater) then rem else old(lowWater)
    {
      hide Flushed, P;
      var n := ncached - rem;
      ghost var all := avail[..ncached];
      assert all[..n] == avail[..n] && avail[n..][..rem] == all[n..];
      var mergedStats := FlushPasses(arena, n);
      if !mergedStats {
        merges, nrequests := merges + [(arena, nrequests)], 0;
      }
      assert avail[n..n + rem] == avail[n..][..rem];
      MoveDown(rem, n);
      ncached := rem;
      if ncached < lowWater {
        lowWater := ncached;
      }
    }

    /** tcache_event_hard(): three quarters, rounded up, of what stayed unused since the last time are
        flushed; the fill count is halved or doubled, but never falls below one. */
    method EventHard(arena: nat)
      requires Valid()
      modifies avail, this`freed, this`merges, this`nrequests, this`ncached, this`lowWater, this`lgFillDiv
      ensures Valid() && lowWater == ncached
      ensures var low := old(lowWater);
              var n := if low > 0 then (3 * low + 3) / 4 else 0;
              && n <= old(ncached) && Contents() == old(Contents())[n..]
              && freed == old(freed) + Flushed(old(Contents())[..n], owner)
              && (merges == if low > 0 then old(merges) + [(arena, old(nrequests))] else old(merges))
              && nrequests == if low > 0 then 0 else old(nrequests)
      ensures FillCount() >= 1
      ensures old(lowWater) > 0 ==> lgFillDiv == old(lgFillDiv) + 1 || (lgFillDiv == old(lgFillDiv) && FillCount() == 1)
      ensures old(lowWater) < 0 ==> lgFillDiv == old(lgFillDiv) - 1 || lgFillDiv == old(lgFillDiv) == 1
      ensures old(lowWater) == 0 ==> lgFillDiv == old(lgFillDiv)
    {
      hide Flushed, P;
      FlushedNone(owner);
      if lowWater > 0 {
        Quarter(lowWater);
        Flush(arena, ncached - lowWater + lowWater / 4);
        FillLess();
      } else if lowWater < 0 {
        FillMore();
      } else {
        FillDoubles(ncachedMax, lgFillDiv);
      }
      lowWater := ncached;
    }

    /** Half the fill count, if that is at least one. */
    method FillLess()
      requires 1 <= lgFillDiv && P(lgFillDiv) <= ncachedMax
      modifies this`lgFillDiv
      ensures 1 <= lgFillDiv && P(lgFillDiv) <= ncachedMax && FillCount() >= 1
      ensures lgFillDiv == old(lgFillDiv) + 1 || (lgFillDiv == old(lgFillDiv) && FillCount() == 1)
    {
      FillDoubles(ncachedMax, lgFillDiv);
      if ncachedMax / P(lgFillDiv + 1) >= 1 {
        lgFillDiv := lgFillDiv + 1;
      }
      FillDoubles(ncachedMax, lgFillDiv);
    }

    /** Twice the fill count, up to half of what fits. */
    method FillMore()
      requires 1 <= lgFillDiv && P(lgFillDiv) <= ncachedMax
      modifies this`lgFillDiv
      ensures 1 <= lgFillDiv && P(lgFillDiv) <= ncachedMax && FillCount() >= 1
      ensures lgFillDiv == old(lgFillDiv) - 1 || lgFillDiv == old(lgFillDiv) == 1
    {
      if lgFillDiv > 1 {
        Mono(lgFillDiv - 1, lgFillDiv);
        lgFillDiv := lgFillDiv - 1;
      }
      FillDoubles(ncachedMax, lgFillDiv);
    }

    /** How many regions are fetched at once. */
    function FillCount(): int
      reads this
    {
      ncachedMax / P(lgFillDiv)
    }

    /** tcache_alloc_easy(): pops the top of the stack. */
    method AllocEasy() returns (success: bool, ret: Ptr)
      requires Valid()
      modifies this`ncached, this`lowWater
      ensures Valid() && (success <==> old(ncached) > 0)
      ensures success ==> old(Contents()) == Contents() + [ret]
      ensures !success ==> lowWater == -1 && Contents() == old(Contents())
      ensures success ==> lowWater == if old(lowWater) < old(ncached) then old(lowWater) else old(ncached) - 1
    {
      if ncached == 0 {
        lowWater := -1;
        return false, 0;
      }
      success, ret := true, avail[ncached - 1];
      ncached := ncached - 1;
      if ncached < lowWater {
        lowWater := ncached;
      }
    }

    /** tcache_dalloc_small(): pushes, after flushing the older half of a full stack. */
    method Dalloc(ptr: Ptr, arena: nat)
      requires Valid()
      modifies avail, this`freed, this`merges, this`nrequests, this`ncached, this`lowWater
      ensures Valid()
      ensures var n := if old(ncached) == ncachedMax then ncachedMax - ncachedMax / 2 else 0;
              && Contents() == old(Contents())[n..] + [ptr]
              && freed == old(freed) + Flushed(old(Contents())[..n], owner)
              && (merges == if n > 0 then old(merges) + [(arena, old(nrequests))] else old(merges))
              && nrequests == (if n > 0 then 0 else old(nrequests))
              && lowWater == if n > 0 && ncachedMax / 2 < old(lowWater) then ncachedMax / 2 else old(lowWater)
    {
      hide Flushed, P;
      TwoAtLeast(ncachedMax, lgFillDiv);
      if ncached == ncachedMax {
        Flush(arena, ncachedMax / 2);
      } else {
        FlushedNone(owner);
      }
      ghost var kept := Contents();
      avail[ncached] := ptr;
      ncached := ncached + 1;
      assert Contents() == kept + [ptr];
    }
  }
}
