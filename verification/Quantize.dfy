/**
 Size classes and quantized best fit.  Runs and extents are indexed by a size class rounded down,
 and requests are rounded up, so that anything found in the index is large enough.
 */
module Quantize {
  import opened Wrappers

  /** A strictly increasing table of positive class sizes. */
  ghost predicate Table(c: seq<nat>) {
    && |c| > 0 && c[0] > 0
    && (forall i, j :: 0 <= i < j < |c| ==> c[i] < c[j])
  }

  /** size2index(), psz2ind(): the least class that is at least `s`, or the number of classes. */
  function Ind(c: seq<nat>, s: nat): (i: nat)
    ensures i <= |c|
    ensures forall j :: 0 <= j < i ==> c[j] < s
    ensures i < |c| ==> s <= c[i]
  {
    IndFrom(c, s, 0)
  }

  function IndFrom(c: seq<nat>, s: nat, k: nat): (i: nat)
    requires k <= |c| && forall j :: 0 <= j < k ==> c[j] < s
    ensures i <= |c|
    ensures forall j :: 0 <= j < i ==> c[j] < s
    ensures i < |c| ==> s <= c[i]
    decreases |c| - k
  {
    if k == |c| || s <= c[k] then k else IndFrom(c, s, k + 1)
  }

  lemma IndOfClass(c: seq<nat>, i: nat)
    requires Table(c) && i < |c|
    ensures Ind(c, c[i]) == i
  {
  }

  /** A larger size has no smaller index, and the index tells on which side of a class a size is. */
  lemma IndOrder(c: seq<nat>, s: nat, i: nat)
    requires Table(c) && i < |c|
    ensures Ind(c, s) <= i <==> s <= c[i]
  {
  }

  // ---------------------------------------------------------------- runs

  /** run_quantize_floor(), for a `pad` of zero or one page. */
  function RunFloor(c: seq<nat>, pad: nat, size: nat): nat
    requires pad <= size
  {
    var pind := Ind(c, size - pad + 1);
    if pind == 0 then size else c[pind - 1] + pad
  }

  /** run_quantize_ceil() */
  function RunCeil(c: seq<nat>, pad: nat, size: nat): nat
    requires Table(c) && pad <= size && size - pad <= c[|c| - 1]
  {
    var ret := RunFloor(c, pad, size);
    if ret < size then
      FloorBelow(c, pad, size);
      c[Ind(c, ret - pad + 1)] + pad
    else ret
  }

  lemma FloorBelow(c: seq<nat>, pad: nat, size: nat)
    requires Table(c) && pad <= size && size - pad <= c[|c| - 1] && RunFloor(c, pad, size) < size
    ensures pad <= RunFloor(c, pad, size) && Ind(c, RunFloor(c, pad, size) - pad + 1) < |c|
  {
  }

  /** Page classes: every size is a whole number of pages, and the first class is one page.  Runs
      are padded by nothing or by one page. */
  ghost predicate PageTable(c: seq<nat>, page: nat, pad: nat) {
    && Table(c) && page > 0 && c[0] == page && (pad == 0 || pad == page)
    && (forall i, j :: 0 <= i < j < |c| ==> c[i] + page <= c[j])
  }

  /** The heap that arena_avail_insert() uses for a run of `size` bytes. */
  function HeapIndex(c: seq<nat>, pad: nat, size: nat): nat
    requires pad <= size
  {
    Ind(c, RunFloor(c, pad, size))
  }

  /** A run size that the allocator meets: whole pages and, without the pad, no larger than the
      largest class. */
  ghost predicate RunSize(c: seq<nat>, page: nat, pad: nat, size: nat)
    requires |c| > 0
  {
    size >= page && pad <= size && size - pad <= c[|c| - 1] && (size == pad || size >= pad + page)
  }

  lemma WholePages(c: seq<nat>, page: nat, pad: nat, n: nat)
    requires PageTable(c, page, pad) && n > 0 && n * page <= c[|c| - 1]
    ensures RunSize(c, page, pad, n * page)
  {
    if n >= 2 {
      assert n * page == page + (n - 1) * page;
      assert (n - 1) * page == page + (n - 2) * page;
      assert (n - 2) * page >= 0;
    } else {
      assert n * page == page;
    }
  }

  /** Rounding down gives the largest padded class that is not larger. */
  lemma FloorIs(c: seq<nat>, page: nat, pad: nat, size: nat)
    requires PageTable(c, page, pad) && RunSize(c, page, pad, size) && size >= pad + page
    ensures RunFloor(c, pad, size) <= size && Padded(c, pad, RunFloor(c, pad, size))
    ensures forall i :: 0 <= i < |c| && c[i] + pad <= size ==> c[i] + pad <= RunFloor(c, pad, size)
  {
    var pind := Ind(c, size - pad + 1);
    assert pind > 0 && RunFloor(c, pad, size) == c[pind - 1] + pad;
  }

  /** Rounding up gives the smallest padded class that is not smaller. */
  lemma CeilIs(c: seq<nat>, page: nat, pad: nat, size: nat)
    requires PageTable(c, page, pad) && RunSize(c, page, pad, size) && size >= pad + page
    ensures size <= RunCeil(c, pad, size) && Padded(c, pad, RunCeil(c, pad, size))
    ensures forall i :: 0 <= i < |c| && size <= c[i] + pad ==> RunCeil(c, pad, size) <= c[i] + pad
  {
    hide Ind, IndFrom;
    var pind := Ind(c, size - pad + 1);
    assert pind > 0;
    var ret := RunFloor(c, pad, size);
    assert ret == c[pind - 1] + pad;
    if ret < size {
      FloorBelow(c, pad, size);
      assert Ind(c, ret - pad + 1) == pind;
      assert RunCeil(c, pad, size) == c[pind] + pad;
    }
  }

  /** Best fit is exact up to quantization: a run sits in a heap that a request looks at if and only
      if the run is at least as large as the request rounded up. */
  lemma BestFitExact(c: seq<nat>, page: nat, pad: nat, run: nat, request: nat)
    requires PageTable(c, page, pad)
    requires RunSize(c, page, pad, run) && RunSize(c, page, pad, request)
    ensures HeapIndex(c, pad, run) >= Ind(c, RunCeil(c, pad, request)) <==> run >= RunCeil(c, pad, request)
    ensures RunCeil(c, pad, request) >= request
  {
    hide Ind, IndFrom;
    if run == pad {
      PadAlone(c, page, pad);
    } else {
      FloorIs(c, page, pad, run);
    }
    if request == pad {
      PadAlone(c, page, pad);
    } else {
      CeilIs(c, page, pad, request);
    }
    PaddedOrder(c, page, pad, RunFloor(c, pad, run), RunCeil(c, pad, request));
  }

  lemma PadAlone(c: seq<nat>, page: nat, pad: nat)
    requires PageTable(c, page, pad) && pad > 0
    ensures RunFloor(c, pad, pad) == pad == RunCeil(c, pad, pad)
  {
    IndOrder(c, 1, 0);
  }

  /** A padded class, or the pad alone. */
  ghost predicate Padded(c: seq<nat>, pad: nat, s: nat) {
    (s == pad && pad > 0) || exists i :: 0 <= i < |c| && s == c[i] + pad
  }

  /** The class index separates padded classes: the pad is no larger than the gaps between them. */
  lemma PaddedOrder(c: seq<nat>, page: nat, pad: nat, f: nat, q: nat)
    requires PageTable(c, page, pad) && Padded(c, pad, f) && Padded(c, pad, q)
    ensures Ind(c, f) >= Ind(c, q) <==> f >= q
  {
    if f < q {
      if f == pad {
        IndOfClass(c, 0);
        assert Ind(c, q) > 0;
      } else {
        var i :| 0 <= i < |c| && f == c[i] + pad;
        var j :| 0 <= j < |c| && q == c[j] + pad;
        IndOrder(c, f, j);
        assert f <= c[j];
        if pad == 0 {
          IndOfClass(c, i);
          IndOfClass(c, j);
        } else {
          IndOrder(c, q, j);
        }
      }
    }
  }

  // ---------------------------------------------------------------- extents

  /** extent_size_quantize_floor() */
  function ExtentFloor(c: seq<nat>, size: nat): nat
    requires Table(c)
  {
    var ind := Ind(c, size + 1);
    if ind == 0 then c[0] else c[ind - 1]
  }

  /** extent_size_quantize_ceil(); nothing if index2size() is asked for a class past the last one. */
  function ExtentCeil(c: seq<nat>, size: nat): Option<nat>
    requires Table(c)
  {
    var ret := ExtentFloor(c, size);
    if ret < size then
      var ind := Ind(c, ret + 1);
      if ind < |c| then Some(c[ind]) else None
    else Some(ret)
  }

  /** The floor of an extent is not larger than the extent exactly from the first class on. */
  lemma ExtentFloorIs(c: seq<nat>, size: nat)
    requires Table(c)
    ensures ExtentFloor(c, size) <= size <==> c[0] <= size
    ensures ExtentFloor(c, size) in c
    ensures forall i :: 0 <= i < |c| && c[i] <= size ==> c[i] <= ExtentFloor(c, size)
  {
  }

  /** The ceiling is the smallest class that is not smaller; it is there exactly up to the largest class. */
  lemma ExtentCeilIs(c: seq<nat>, size: nat)
    requires Table(c)
    ensures ExtentCeil(c, size).Some? <==> size <= c[|c| - 1]
    ensures ExtentCeil(c, size).Some? ==> size <= ExtentCeil(c, size).value && ExtentCeil(c, size).value in c
    ensures ExtentCeil(c, size).Some? ==>
              forall i :: 0 <= i < |c| && size <= c[i] ==> ExtentCeil(c, size).value <= c[i]
  {
    var ind := Ind(c, size + 1);
    var ret := ExtentFloor(c, size);
    if ret < size {
      assert ind > 0 && Ind(c, ret + 1) == ind;
    }
  }

  /** An extent ranks at or above a request rounded up if and only if it is at least that large. */
  lemma ExtentFitExact(c: seq<nat>, extent: nat, request: nat)
    requires Table(c) && c[0] <= extent
    ensures ExtentCeil(c, request).Some? ==>
              var q := ExtentCeil(c, request).value;
              && (ExtentFloor(c, extent) >= q <==> extent >= q)
              && ExtentFloor(c, q) == q
  {
    ExtentFloorIs(c, extent);
    ExtentCeilIs(c, request);
    if ExtentCeil(c, request).Some? {
      var i :| 0 <= i < |c| && c[i] == ExtentCeil(c, request).value;
      IndOrder(c, c[i] + 1, i);
      if i + 1 < |c| {
        IndOrder(c, c[i] + 1, i + 1);
      }
    }
  }

  lemma HeapBelowChunk(c: seq<nat>, page: nat, pad: nat, chunk: nat, size: nat)
    requires PageTable(c, page, pad) && chunk < |c| && RunSize(c, page, pad, size) && size < c[chunk]
    ensures HeapIndex(c, pad, size) <= chunk
  {
    if size == pad {
      PadAlone(c, page, pad);
    } else {
      FloorIs(c, page, pad, size);
    }
    IndOrder(c, RunFloor(c, pad, size), chunk);
  }
}
