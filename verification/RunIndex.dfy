/**
 The indexes over the free runs of an arena: one heap per size class, the set of dirty runs, and the
 page counters.  A place is a chunk and a page in it.
 */
module RunIndex {
  import opened Wrappers
  import opened Quantize
  import opened PageMap
  import opened RunMaps

  /** What boot fixes: the page classes, the page size, the large pad, the pages of a chunk and of
      its header, the class of a whole chunk, and the pages of the run of each bin. */
  datatype Params = Params(classes: seq<nat>, page: nat, pad: nat, bias: nat, npages: nat,
                           chunk: nat, binPages: seq<nat>)

  ghost predicate ParamsOk(c: Params) {
    && PageTable(c.classes, c.page, c.pad) && 0 < c.bias && c.bias + 1 < c.npages
    && c.chunk + 1 < |c.classes| && c.classes[c.chunk] == c.npages * c.page
    && forall b :: 0 <= b < |c.binPages| ==> 0 < c.binPages[b] <= c.npages - c.bias
  }

  // ---------------------------------------------------------------- heaps

  lemma PagesOrder(n: nat, m: nat, page: nat)
    requires 0 < n < m && 0 < page
    ensures page <= n * page < m * page
  {
    assert m * page == n * page + (m - n) * page;
    assert n * page == page + (n - 1) * page;
  }

  lemma LargestLast(c: seq<nat>, i: nat)
    requires Table(c) && i < |c|
    ensures c[i] <= c[|c| - 1]
  {
  }

  /** A run is smaller than a chunk, and so has a heap. */
  lemma PagesFit(c: Params, n: nat)
    requires ParamsOk(c) && 0 < n < c.npages
    ensures RunSize(c.classes, c.page, c.pad, n * c.page) && c.pad <= n * c.page
    ensures HeapIndex(c.classes, c.pad, n * c.page) <= c.chunk
  {
    hide Table, RunSize, RunFloor, HeapIndex, Ind, IndFrom;
    PagesOrder(n, c.npages, c.page);
    LargestLast(c.classes, c.chunk);
    WholePages(c.classes, c.page, c.pad, n);
    HeapBelowChunk(c.classes, c.page, c.pad, c.chunk, n * c.page);
  }

  /** The heap of a run of `n` pages. */
  function Heap(c: Params, n: nat): (k: nat)
    requires ParamsOk(c) && 0 < n < c.npages
    ensures k < |c.classes|
  {
    PagesFit(c, n);
    HeapIndex(c.classes, c.pad, n * c.page)
  }

  /** A request of `n` pages, rounded up to a class. */
  function Ceil(c: Params, n: nat): nat
    requires ParamsOk(c) && 0 < n < c.npages
  {
    PagesFit(c, n);
    RunCeil(c.classes, c.pad, n * c.page)
  }

  /** The heap of a run is one that a request looks at exactly when the run reaches the rounded
      request, and then the run is large enough. */
  lemma LookedAt(c: Params, n: nat, need: nat)
    requires ParamsOk(c) && 0 < n < c.npages && 0 < need < c.npages
    ensures Heap(c, n) <= c.chunk
    ensures Heap(c, n) >= Ind(c.classes, Ceil(c, need)) <==> n * c.page >= Ceil(c, need)
    ensures n * c.page >= Ceil(c, need) ==> n >= need
  {
    PagesFit(c, n);
    PagesFit(c, need);
    BestFitExact(c.classes, c.page, c.pad, n * c.page, need * c.page);
    if n < need {
      PagesOrder(n, need, c.page);
    }
  }

  /** `free` gives the pages of each indexed run; every one is in the heap of its size, and nothing
      else is in a heap. */
  ghost predicate Indexed(c: Params, avail: seq<set<Place>>, free: map<Place, nat>)
    requires ParamsOk(c)
  {
    && |avail| == |c.classes| && (forall x :: x in free ==> 0 < free[x] < c.npages)
    && forall k, x :: 0 <= k < |avail| ==> (x in avail[k] <==> x in free && Heap(c, free[x]) == k)
  }

  /** arena_avail_insert() */
  function Insert(c: Params, avail: seq<set<Place>>, x: Place, n: nat): (r: seq<set<Place>>)
    requires ParamsOk(c) && 0 < n < c.npages && |avail| == |c.classes|
  {
    var k := Heap(c, n);
    avail[k := avail[k] + {x}]
  }

  /** arena_avail_remove() */
  function Remove(c: Params, avail: seq<set<Place>>, x: Place, n: nat): (r: seq<set<Place>>)
    requires ParamsOk(c) && 0 < n < c.npages && |avail| == |c.classes|
  {
    var k := Heap(c, n);
    avail[k := avail[k] - {x}]
  }

  lemma InsertIndexed(c: Params, avail: seq<set<Place>>, free: map<Place, nat>, x: Place, n: nat)
    requires ParamsOk(c) && Indexed(c, avail, free) && 0 < n < c.npages && x !in free
    ensures |avail| == |c.classes| && Indexed(c, Insert(c, avail, x, n), free[x := n])
  {
    hide Heap;
  }

  lemma RemoveIndexed(c: Params, avail: seq<set<Place>>, free: map<Place, nat>, x: Place)
    requires ParamsOk(c) && Indexed(c, avail, free) && x in free
    ensures |avail| == |c.classes| && 0 < free[x] < c.npages
    ensures Indexed(c, Remove(c, avail, x, free[x]), free - {x})
  {
    hide Heap;
  }

  // ---------------------------------------------------------------- runs to be indexed

  type Tiles = map<nat, seq<Run>>

  /** `x` starts a free run that the heaps must hold: it is neither in the spare chunk nor in hand. */
  ghost predicate Indexable(c: Params, tiles: Tiles, spare: Option<nat>, hand: Option<Place>, x: Place) {
    x.0 in tiles && spare != Some(x.0) && hand != Some(x) && FreeAt(tiles[x.0], c.bias, x.1)
  }

  ghost predicate FreeIs(c: Params, free: map<Place, nat>, tiles: Tiles, spare: Option<nat>, hand: Option<Place>) {
    && (forall x :: x in free <==> Indexable(c, tiles, spare, hand, x))
    && (forall x :: x in free ==> free[x] == tiles[x.0][x.1].pages)
  }

  /** The dirty runs: those of the spare chunk are kept, the one in hand is not. */
  ghost predicate DirtyAt(c: Params, tiles: Tiles, hand: Option<Place>, x: Place) {
    x.0 in tiles && hand != Some(x) && FreeAt(tiles[x.0], c.bias, x.1) && tiles[x.0][x.1].kind.dirty
  }

  ghost predicate DirtyIs(c: Params, runsDirty: set<Place>, tiles: Tiles, hand: Option<Place>) {
    forall x :: x in runsDirty <==> DirtyAt(c, tiles, hand, x)
  }

  // ---------------------------------------------------------------- counting pages

  /** Pages counted in `ndirty`, or else in `nactive`. */
  predicate Marked(k: Kind, dirty: bool) {
    if dirty then k.Free? && k.dirty else !k.Free?
  }

  ghost function Pages(tiles: Tiles, bias: nat, dirty: bool): set<Place> {
    set ch, p | ch in tiles && bias <= p < |tiles[ch]| && Marked(tiles[ch][p].kind, dirty) :: (ch, p)
  }

  ghost predicate Counted(tiles: Tiles, bias: nat, dirty: bool, x: Place) {
    x.0 in tiles && bias <= x.1 < |tiles[x.0]| && Marked(tiles[x.0][x.1].kind, dirty)
  }

  lemma InPages(tiles: Tiles, bias: nat, dirty: bool)
    ensures forall x :: x in Pages(tiles, bias, dirty) <==> Counted(tiles, bias, dirty, x)
  {
  }

  ghost function Weight(k: Kind, dirty: bool, n: nat): nat {
    if Marked(k, dirty) then n else 0
  }

  lemma PagesOutside(tiles: Tiles, bias: nat, ch: nat, t': seq<Run>, lo: nat, hi: nat, dirty: bool)
    requires ch in tiles && |t'| == |tiles[ch]|
    requires forall p :: bias <= p < |t'| && !(lo <= p < hi) ==> t'[p].kind == tiles[ch][p].kind
    ensures Pages(tiles[ch := t'], bias, dirty) - Range(ch, lo, hi) == Pages(tiles, bias, dirty) - Range(ch, lo, hi)
  {
    InPages(tiles[ch := t'], bias, dirty);
    InPages(tiles, bias, dirty);
    hide Range, Pages;
  }

  lemma PagesInside(tiles: Tiles, bias: nat, ch: nat, lo: nat, hi: nat, k: Kind, dirty: bool)
    requires ch in tiles && bias <= lo <= hi <= |tiles[ch]|
    requires forall p :: lo <= p < hi ==> tiles[ch][p].kind == k
    ensures var all := Pages(tiles, bias, dirty);
            |all| == |all - Range(ch, lo, hi)| + Weight(k, dirty, hi - lo)
  {
    var all, range := Pages(tiles, bias, dirty), Range(ch, lo, hi);
    if Marked(k, dirty) {
      assert range <= all;
      assert all == (all - range) + range;
    } else {
      assert all - range == all;
    }
  }

  /** When only the pages of a range change kind, the count changes by the length of the range. */
  lemma Recount(tiles: Tiles, bias: nat, ch: nat, t': seq<Run>, lo: nat, hi: nat, k0: Kind, k1: Kind, dirty: bool)
    requires ch in tiles && |t'| == |tiles[ch]| && bias <= lo <= hi <= |t'|
    requires forall p :: lo <= p < hi ==> tiles[ch][p].kind == k0 && t'[p].kind == k1
    requires forall p :: bias <= p < |t'| && !(lo <= p < hi) ==> t'[p].kind == tiles[ch][p].kind
    ensures |Pages(tiles[ch := t'], bias, dirty)| + Weight(k0, dirty, hi - lo)
            == |Pages(tiles, bias, dirty)| + Weight(k1, dirty, hi - lo)
  {
    hide Pages, Range, Weight;
    PagesInside(tiles, bias, ch, lo, hi, k0, dirty);
    PagesInside(tiles[ch := t'], bias, ch, lo, hi, k1, dirty);
    PagesOutside(tiles, bias, ch, t', lo, hi, dirty);
  }

  /** A range of marked pages is part of the count. */
  lemma CountedPages(tiles: Tiles, bias: nat, ch: nat, lo: nat, hi: nat, k: Kind, dirty: bool)
    requires ch in tiles && bias <= lo <= hi <= |tiles[ch]|
    requires forall p :: lo <= p < hi ==> tiles[ch][p].kind == k
    ensures Weight(k, dirty, hi - lo) <= |Pages(tiles, bias, dirty)|
  {
    PagesInside(tiles, bias, ch, lo, hi, k, dirty);
  }

  lemma OtherChunks(tiles: Tiles, bias: nat, ch: nat, t: seq<Run>, dirty: bool)
    requires ch !in tiles
    ensures Pages(tiles[ch := t], bias, dirty) - Range(ch, bias, |t|) == Pages(tiles, bias, dirty)
  {
    InPages(tiles[ch := t], bias, dirty);
    InPages(tiles, bias, dirty);
    hide Range, Pages;
  }

  /** A chunk that is one free run brings its pages along. */
  lemma RecountChunk(tiles: Tiles, bias: nat, ch: nat, t: seq<Run>, k: Kind, dirty: bool)
    requires ch !in tiles && bias <= |t| && forall p :: bias <= p < |t| ==> t[p].kind == k
    ensures |Pages(tiles[ch := t], bias, dirty)| == |Pages(tiles, bias, dirty)| + Weight(k, dirty, |t| - bias)
  {
    PagesInside(tiles[ch := t], bias, ch, bias, |t|, k, dirty);
    OtherChunks(tiles, bias, ch, t, dirty);
  }

  // ---------------------------------------------------------------- what retiling does to the indexes

  /** The pages of the free runs after the first `need` pages of one were taken. */
  function SplitFree(free: map<Place, nat>, ch: nat, p: nat, need: nat, total: nat): map<Place, nat>
    requires need <= total
  {
    var m := free - {(ch, p)};
    if need < total then m[(ch, p + need) := total - need] else m
  }

  function SplitDirty(dirty: set<Place>, ch: nat, p: nat, need: nat, total: nat): set<Place> {
    dirty - {(ch, p)} + if need < total then {(ch, p + need)} else {}
  }

  lemma TakenStarts(t: seq<Run>, bias: nat, p: nat, need: nat, kind: Kind, q: nat)
    requires Tiled(t, bias) && FreeAt(t, bias, p) && 0 < need <= t[p].pages && !kind.Free?
    ensures var t' := Taken(t, p, need, kind);
            && (FreeAt(t', bias, q) <==>
                  if q == p + need && need < t[p].pages then true else q != p && FreeAt(t, bias, q))
            && (FreeAt(t', bias, q) && q != p + need ==> t'[q] == t[q])
            && (q == p + need && need < t[p].pages ==>
                  q < |t'| && t'[q] == Run(q, t[p].pages - need, t[p].kind))
            && (q == p + need && need == t[p].pages && q < |t'| ==> t'[q] == t[q])
            && (need < t[p].pages ==> !FreeAt(t, bias, p + need))
  {
    RunEnds(t, bias, p);
    if bias <= q < |t| && t[p].Covers(q) {
      assert t[q] == t[p];
    }
  }

  /** Splitting in the heaps and in the dirty set is splitting in the tiling. */
  lemma TakenFree(c: Params, free: map<Place, nat>, tiles: Tiles, spare: Option<nat>,
                  ch: nat, p: nat, need: nat, kind: Kind)
    requires ch in tiles && spare != Some(ch) && Tiled(tiles[ch], c.bias) && FreeAt(tiles[ch], c.bias, p)
    requires 0 < need <= tiles[ch][p].pages && !kind.Free? && FreeIs(c, free, tiles, spare, None)
    ensures FreeIs(c, SplitFree(free, ch, p, need, tiles[ch][p].pages),
                   tiles[ch := Taken(tiles[ch], p, need, kind)], spare, None)
    ensures need < tiles[ch][p].pages ==> (ch, p + need) !in free
  {
    var t := tiles[ch];
    TakenStarts(t, c.bias, p, need, kind, p);
    forall q: nat
      ensures var t' := Taken(t, p, need, kind);
              FreeAt(t', c.bias, q) <==>
                if q == p + need && need < t[p].pages then true else q != p && FreeAt(t, c.bias, q)
    {
      TakenStarts(t, c.bias, p, need, kind, q);
    }
  }

  lemma TakenDirty(c: Params, runsDirty: set<Place>, tiles: Tiles, ch: nat, p: nat, need: nat, kind: Kind)
    requires ch in tiles && Tiled(tiles[ch], c.bias) && FreeAt(tiles[ch], c.bias, p)
    requires 0 < need <= tiles[ch][p].pages && !kind.Free? && DirtyIs(c, runsDirty, tiles, None)
    ensures var t := tiles[ch];
            DirtyIs(c, if t[p].kind.dirty then SplitDirty(runsDirty, ch, p, need, t[p].pages) else runsDirty,
                    tiles[ch := Taken(t, p, need, kind)], None)
  {
    var t := tiles[ch];
    var t' := Taken(t, p, need, kind);
    forall q: nat
      ensures FreeAt(t', c.bias, q) && t'[q].kind.dirty <==>
              if q == p + need && need < t[p].pages then t[p].kind.dirty
              else q != p && FreeAt(t, c.bias, q) && t[q].kind.dirty
    {
      TakenStarts(t, c.bias, p, need, kind, q);
    }
    TakenStarts(t, c.bias, p, need, kind, p);
    hide Taken, FreeAt, Tiled, TiledAt;
  }

  /** Freeing a run, before it is coalesced or indexed: it is in hand. */
  lemma FreedFree(c: Params, free: map<Place, nat>, tiles: Tiles, spare: Option<nat>, ch: nat, p: nat, kind: Kind)
    requires ch in tiles && Tiled(tiles[ch], c.bias) && UsedAt(tiles[ch], c.bias, p) && kind.Free?
    requires FreeIs(c, free, tiles, spare, None)
    ensures var t := tiles[ch];
            FreeIs(c, free, tiles[ch := Paint(t, Run(p, t[p].pages, kind), NO_RUN)], spare, Some((ch, p)))
  {
    FreedStarts(tiles[ch], c.bias, p, kind);
    hide Tiled, TiledAt, Paint, UsedAt;
  }

  lemma FreedDirty(c: Params, runsDirty: set<Place>, tiles: Tiles, ch: nat, p: nat, kind: Kind)
    requires ch in tiles && Tiled(tiles[ch], c.bias) && UsedAt(tiles[ch], c.bias, p) && kind.Free?
    requires DirtyIs(c, runsDirty, tiles, None)
    ensures var t := tiles[ch];
            DirtyIs(c, runsDirty, tiles[ch := Paint(t, Run(p, t[p].pages, kind), NO_RUN)], Some((ch, p)))
  {
    FreedStarts(tiles[ch], c.bias, p, kind);
    hide Tiled, TiledAt, Paint, UsedAt;
  }

  lemma FreedStarts(t: seq<Run>, bias: nat, p: nat, kind: Kind)
    requires Tiled(t, bias) && UsedAt(t, bias, p) && kind.Free?
    ensures var t' := Paint(t, Run(p, t[p].pages, kind), NO_RUN);
            && FreeAt(t', bias, p) && !FreeAt(t, bias, p)
            && forall q: nat :: q != p ==>
                 (FreeAt(t', bias, q) <==> FreeAt(t, bias, q)) && (FreeAt(t, bias, q) ==> t'[q] == t[q])
  {
    RunEnds(t, bias, p);
  }

  lemma JoinedStarts(t: seq<Run>, bias: nat, p: nat, q: nat)
    requires Tiled(t, bias) && FreeAt(t, bias, p) && FreeAt(t, bias, q)
    requires t[p].End() == q && t[p].kind == t[q].kind
    ensures var t' := Joined(t, p, q);
            && FreeAt(t', bias, p) && t'[p] == Run(p, t[p].pages + t[q].pages, t[p].kind) && !FreeAt(t', bias, q)
            && (forall i: nat :: i != p && i != q ==>
                  (FreeAt(t', bias, i) <==> FreeAt(t, bias, i)) && (FreeAt(t, bias, i) ==> t'[i] == t[i]))
            && (forall i :: bias <= i < |t| ==> t'[i].kind == t[i].kind)
  {
    RunEnds(t, bias, p);
    RunEnds(t, bias, q);
  }

  /** Joining the run in hand with a neighbour `x` that leaves the indexes. */
  lemma JoinedFree(c: Params, free: map<Place, nat>, tiles: Tiles, spare: Option<nat>, ch: nat, p: nat, q: nat,
                   hand: nat, x: nat)
    requires ch in tiles && spare != Some(ch) && Tiled(tiles[ch], c.bias)
    requires FreeAt(tiles[ch], c.bias, p) && FreeAt(tiles[ch], c.bias, q)
    requires tiles[ch][p].End() == q && tiles[ch][p].kind == tiles[ch][q].kind
    requires (hand == p && x == q) || (hand == q && x == p)
    requires FreeIs(c, free, tiles, spare, Some((ch, hand)))
    ensures (ch, x) in free && free[(ch, x)] == tiles[ch][x].pages
    ensures FreeIs(c, free - {(ch, x)}, tiles[ch := Joined(tiles[ch], p, q)], spare, Some((ch, p)))
  {
    JoinedStarts(tiles[ch], c.bias, p, q);
    assert Indexable(c, tiles, spare, Some((ch, hand)), (ch, x)) by {
      RunEnds(tiles[ch], c.bias, p);
    }
    hide Tiled, TiledAt, Joined;
  }

  lemma JoinedDirty(c: Params, runsDirty: set<Place>, tiles: Tiles, ch: nat, p: nat, q: nat, hand: nat, x: nat)
    requires ch in tiles && Tiled(tiles[ch], c.bias)
    requires FreeAt(tiles[ch], c.bias, p) && FreeAt(tiles[ch], c.bias, q)
    requires tiles[ch][p].End() == q && tiles[ch][p].kind == tiles[ch][q].kind
    requires (hand == p && x == q) || (hand == q && x == p)
    requires DirtyIs(c, runsDirty, tiles, Some((ch, hand)))
    ensures var rest := if tiles[ch][p].kind.dirty then runsDirty - {(ch, x)} else runsDirty;
            DirtyIs(c, rest, tiles[ch := Joined(tiles[ch], p, q)], Some((ch, p)))
  {
    JoinedStarts(tiles[ch], c.bias, p, q);
    hide Tiled, TiledAt, Joined;
  }

  /** Putting the run in hand into the indexes. */
  lemma HandIn(c: Params, free: map<Place, nat>, runsDirty: set<Place>, tiles: Tiles, spare: Option<nat>, x: Place)
    requires FreeIs(c, free, tiles, spare, Some(x)) && DirtyIs(c, runsDirty, tiles, Some(x))
    requires Indexable(c, tiles, spare, None, x)
    ensures x !in free && FreeIs(c, free[x := tiles[x.0][x.1].pages], tiles, spare, None)
    ensures DirtyIs(c, if tiles[x.0][x.1].kind.dirty then runsDirty + {x} else runsDirty, tiles, None)
  {
  }

  /** A large run cut in two: nothing free changes. */
  lemma CutIndexes(c: Params, free: map<Place, nat>, runsDirty: set<Place>, tiles: Tiles, spare: Option<nat>,
                   ch: nat, p: nat, head: nat)
    requires ch in tiles && Tiled(tiles[ch], c.bias) && UsedAt(tiles[ch], c.bias, p) && 0 < head < tiles[ch][p].pages
    requires FreeIs(c, free, tiles, spare, None) && DirtyIs(c, runsDirty, tiles, None)
    ensures var tiles' := tiles[ch := Halved(tiles[ch], p, head)];
            FreeIs(c, free, tiles', spare, None) && DirtyIs(c, runsDirty, tiles', None)
  {
    CutStarts(tiles[ch], c.bias, p, head);
    hide Tiled, TiledAt, Halved, UsedAt;
  }

  lemma CutStarts(t: seq<Run>, bias: nat, p: nat, head: nat)
    requires Tiled(t, bias) && UsedAt(t, bias, p) && 0 < head < t[p].pages
    ensures var t' := Halved(t, p, head);
            && (forall q: nat :: (FreeAt(t', bias, q) <==> FreeAt(t, bias, q)) && (FreeAt(t, bias, q) ==> t'[q] == t[q]))
            && (forall q :: bias <= q < |t| ==> t'[q].kind == t[q].kind)
  {
    RunEnds(t, bias, p);
  }

  // ---------------------------------------------------------------- chunks

  /** The one free run of an unused chunk. */
  lemma WholeStarts(t: seq<Run>, bias: nat)
    requires Whole(t, bias)
    ensures FreeAt(t, bias, bias) && t[bias] == Run(bias, |t| - bias, t[bias].kind)
    ensures forall q :: FreeAt(t, bias, q) ==> q == bias
  {
  }

  /** A chunk that becomes the spare leaves the heaps, and keeps its dirty run. */
  lemma SpareFree(c: Params, free: map<Place, nat>, runsDirty: set<Place>, tiles: Tiles, spare: Option<nat>, ch: nat)
    requires ch in tiles && spare != Some(ch) && Whole(tiles[ch], c.bias)
    requires FreeIs(c, free, tiles, spare, None) && DirtyIs(c, runsDirty, tiles, None)
    ensures (ch, c.bias) in free && free[(ch, c.bias)] == |tiles[ch]| - c.bias
    ensures FreeIs(c, free - {(ch, c.bias)}, Without(tiles, spare), Some(ch), None)
  {
    WholeStarts(tiles[ch], c.bias);
    assert Indexable(c, tiles, spare, None, (ch, c.bias));
    hide Whole;
  }

  /** The tiling after the old spare, if there is one, is given back. */
  function Without(tiles: Tiles, spare: Option<nat>): Tiles {
    if spare.Some? then tiles - {spare.value} else tiles
  }

  lemma DiscardDirty(c: Params, runsDirty: set<Place>, tiles: Tiles, sp: nat)
    requires sp in tiles && Whole(tiles[sp], c.bias) && DirtyIs(c, runsDirty, tiles, None)
    ensures var rest := if tiles[sp][c.bias].kind.dirty then runsDirty - {(sp, c.bias)} else runsDirty;
            DirtyIs(c, rest, tiles - {sp}, None)
  {
    WholeStarts(tiles[sp], c.bias);
    hide Whole;
  }

  /** The spare chunk taken back. */
  lemma SpareBack(c: Params, free: map<Place, nat>, tiles: Tiles, ch: nat)
    requires ch in tiles && Whole(tiles[ch], c.bias) && FreeIs(c, free, tiles, Some(ch), None)
    ensures (ch, c.bias) !in free
    ensures FreeIs(c, free[(ch, c.bias) := |tiles[ch]| - c.bias], tiles, None, None)
  {
    WholeStarts(tiles[ch], c.bias);
    hide Whole;
  }

  /** A new chunk. */
  lemma NewFree(c: Params, free: map<Place, nat>, tiles: Tiles, spare: Option<nat>, ch: nat, t: seq<Run>)
    requires ch !in tiles && spare != Some(ch) && Whole(t, c.bias) && FreeIs(c, free, tiles, spare, None)
    ensures (ch, c.bias) !in free
    ensures FreeIs(c, free[(ch, c.bias) := |t| - c.bias], tiles[ch := t], spare, None)
  {
    WholeStarts(t, c.bias);
    hide Whole;
  }

  lemma NewDirty(c: Params, runsDirty: set<Place>, tiles: Tiles, ch: nat, t: seq<Run>)
    requires ch !in tiles && Whole(t, c.bias) && !t[c.bias].kind.dirty && DirtyIs(c, runsDirty, tiles, None)
    ensures DirtyIs(c, runsDirty, tiles[ch := t], None)
  {
    WholeStarts(t, c.bias);
    hide Whole;
  }
}
