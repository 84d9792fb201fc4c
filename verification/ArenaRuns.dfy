/**
 The page runs of an arena: splitting, freeing with coalescing, and trimming, over the page maps of
 its chunks, the heaps of free runs, the dirty runs and the page counters.
 */
module ArenaRuns {
  import opened Wrappers
  import opened Quantize
  import opened PageMap
  import opened RunMaps
  import opened RunIndex
  import opened RunZero

  /** Every map tells its tiling.  A virgin chunk came decommitted and was never split. */
  ghost predicate MapsOk(c: Params, maps: map<nat, seq<Entry>>, tiles: Tiles, virgin: set<nat>) {
    && maps.Keys == tiles.Keys && virgin <= tiles.Keys
    && forall ch :: ch in tiles ==> MapsAt(c, maps, tiles, virgin, ch)
  }

  ghost predicate MapsAt(c: Params, maps: map<nat, seq<Entry>>, tiles: Tiles, virgin: set<nat>, ch: nat)
    requires ch in tiles && maps.Keys == tiles.Keys
  {
    && |tiles[ch]| == c.npages && MapOk(maps[ch], tiles[ch], c.bias, c.binPages, ch in virgin)
    && (ch in virgin ==> Whole(tiles[ch], c.bias))
  }

  ghost predicate AllApart(c: Params, tiles: Tiles) {
    forall ch :: ch in tiles ==> Apart(tiles[ch], c.bias)
  }

  /** The spare chunk is one free run. */
  ghost predicate SpareOk(c: Params, tiles: Tiles, virgin: set<nat>, spare: Option<nat>) {
    spare.Some? ==> spare.value in tiles && spare.value !in virgin && Whole(tiles[spare.value], c.bias)
  }

  /** The pages that wait to be counted as dirty: those of the run in hand. */
  ghost function Pending(tiles: Tiles, hand: Option<Place>): nat {
    match hand
    case None => 0
    case Some(x) =>
      if x.0 in tiles && x.1 < |tiles[x.0]| then
        Weight(tiles[x.0][x.1].kind, true, tiles[x.0][x.1].pages)
      else 0
  }

  ghost predicate Counts(c: Params, tiles: Tiles, hand: Option<Place>, ndirty: nat, nactive: nat) {
    && ndirty + Pending(tiles, hand) == |Pages(tiles, c.bias, true)|
    && nactive == |Pages(tiles, c.bias, false)|
  }

  lemma OneMap(c: Params, maps: map<nat, seq<Entry>>, tiles: Tiles, virgin: set<nat>, ch: nat,
               m: seq<Entry>, t: seq<Run>)
    requires MapsOk(c, maps, tiles, virgin) && ch in tiles
    requires |t| == c.npages && MapOk(m, t, c.bias, c.binPages, false)
    ensures MapsOk(c, maps[ch := m], tiles[ch := t], virgin - {ch})
    ensures ch !in virgin ==> MapsOk(c, maps[ch := m], tiles[ch := t], virgin)
  {
    assert ch !in virgin ==> virgin - {ch} == virgin;
    hide MapOk, Whole;
    var maps', tiles', virgin' := maps[ch := m], tiles[ch := t], virgin - {ch};
    forall k | k in tiles' ensures MapsAt(c, maps', tiles', virgin', k) {
      if k != ch {
        assert MapsAt(c, maps, tiles, virgin, k);
      }
    }
  }

  /** What the map of a chunk and its tiling have in common. */
  lemma MapOf(c: Params, maps: map<nat, seq<Entry>>, tiles: Tiles, virgin: set<nat>, ch: nat)
    requires MapsOk(c, maps, tiles, virgin) && ch in tiles
    ensures maps.Keys == tiles.Keys && |maps[ch]| == |tiles[ch]| == c.npages && Tiled(tiles[ch], c.bias)
    ensures MapOk(maps[ch], tiles[ch], c.bias, c.binPages, ch in virgin)
    ensures ch in virgin ==> Whole(tiles[ch], c.bias)
  {
    assert MapsAt(c, maps, tiles, virgin, ch);
  }

  /** A chunk with a used run is neither virgin nor the spare. */
  lemma UsedChunk(c: Params, maps: map<nat, seq<Entry>>, tiles: Tiles, virgin: set<nat>, spare: Option<nat>,
                  ch: nat, p: nat)
    requires MapsOk(c, maps, tiles, virgin) && SpareOk(c, tiles, virgin, spare)
    requires ch in tiles && UsedAt(tiles[ch], c.bias, p)
    ensures ch !in virgin && spare != Some(ch)
  {
    assert MapsAt(c, maps, tiles, virgin, ch);
  }

  // ---------------------------------------------------------------- what each operation does to the tiling

  /** The tiling of a chunk after the run at `p` was freed and coalesced. */
  function Freed(t: seq<Run>, bias: nat, p: nat, kind: Kind): (r: seq<Run>)
    requires p < |t|
    ensures |r| == |t|
  {
    Paint(t, Coalesced(t, bias, Run(p, t[p].pages, kind)), NO_RUN)
  }

  /** A run is dirty if its user dirtied it, or if it was and its user did not clean it. */
  predicate BecomesDirty(k: Kind, dirty: bool, cleaned: bool, decommitted: bool) {
    dirty || (k.Large? && k.dirty && !cleaned && !decommitted)
  }

  // ---------------------------------------------------------------- which pages are zero

  lemma RunThere(c: Params, maps: map<nat, seq<Entry>>, tiles: Tiles, virgin: set<nat>, ch: nat, p: nat)
    requires MapsOk(c, maps, tiles, virgin) && ch in tiles && c.bias <= p < |tiles[ch]| && tiles[ch][p].start == p
    ensures ch in maps && HasRun(maps[ch], tiles[ch], c.bias, p)
    ensures |maps[ch]| == |tiles[ch]| && 0 < tiles[ch][p].pages && tiles[ch][p].End() <= |tiles[ch]|
  {
    MapOf(c, maps, tiles, virgin, ch);
    RunEnds(tiles[ch], c.bias, p);
  }

  lemma SplitLargeZeroAt(c: Params, maps: map<nat, seq<Entry>>, tiles: Tiles, virgin: set<nat>, ch: nat, p: nat, need: nat)
    requires MapsOk(c, maps, tiles, virgin) && ch in tiles && FreeAt(tiles[ch], c.bias, p)
    requires 0 < need <= tiles[ch][p].pages
    ensures ch in maps && HasRun(maps[ch], tiles[ch], c.bias, p)
    ensures var k := tiles[ch][p].kind;
            var m1 := Remainder(maps[ch], p, need, tiles[ch][p].pages, k.dirty, k.decommitted);
            var m' := LargeEnds(m1, p, need, k.dirty, k.decommitted);
            && ZeroKept(c.bias, maps, tiles, maps[ch := m'], tiles[ch := Taken(tiles[ch], p, need, Large(k.dirty))])
            && (!k.dirty ==> ZeroKnown(c.bias, maps, tiles, m', p, need, ch))
  {
    hide MapsOk, Tiled, HasRun, Remainder, LargeEnds, Taken, Known, PagesOk;
    RunThere(c, maps, tiles, virgin, ch, p);
    var k := tiles[ch][p].kind;
    var m1 := Remainder(maps[ch], p, need, tiles[ch][p].pages, k.dirty, k.decommitted);
    var m' := LargeEnds(m1, p, need, k.dirty, k.decommitted);
    forall nz | ZeroOk(c.bias, maps, tiles, nz)
      ensures ZeroOk(c.bias, maps[ch := m'], tiles[ch := Taken(tiles[ch], p, need, Large(k.dirty))], nz)
      ensures !k.dirty ==> Known(m', p, need, ch, nz)
    {
      SplitLargeZero(maps[ch], tiles[ch], c.bias, p, need, ch, nz);
      OneZero(c.bias, maps, tiles, ch, m', Taken(tiles[ch], p, need, Large(k.dirty)), nz);
    }
  }

  lemma SplitSmallZeroAt(c: Params, maps: map<nat, seq<Entry>>, tiles: Tiles, virgin: set<nat>, ch: nat, p: nat, need: nat,
                         binind: nat)
    requires MapsOk(c, maps, tiles, virgin) && ch in tiles && FreeAt(tiles[ch], c.bias, p)
    requires 0 < need <= tiles[ch][p].pages
    ensures ch in maps && HasRun(maps[ch], tiles[ch], c.bias, p)
    ensures var k := tiles[ch][p].kind;
            var m1 := Remainder(maps[ch], p, need, tiles[ch][p].pages, k.dirty, k.decommitted);
            ZeroKept(c.bias, maps, tiles, maps[ch := SmallPages(m1, p, p + need, binind)],
                     tiles[ch := Taken(tiles[ch], p, need, Small(binind))])
  {
    hide MapsOk, Tiled, HasRun, Remainder, SmallPages, Taken, PagesOk;
    RunThere(c, maps, tiles, virgin, ch, p);
    var k := tiles[ch][p].kind;
    var m1 := Remainder(maps[ch], p, need, tiles[ch][p].pages, k.dirty, k.decommitted);
    forall nz | ZeroOk(c.bias, maps, tiles, nz)
      ensures ZeroOk(c.bias, maps[ch := SmallPages(m1, p, p + need, binind)],
                     tiles[ch := Taken(tiles[ch], p, need, Small(binind))], nz)
    {
      SplitSmallZero(maps[ch], tiles[ch], c.bias, p, need, binind, ch, nz);
      OneZero(c.bias, maps, tiles, ch, SmallPages(m1, p, p + need, binind), Taken(tiles[ch], p, need, Small(binind)), nz);
    }
  }

  lemma FreeZeroAt(c: Params, maps: map<nat, seq<Entry>>, tiles: Tiles, virgin: set<nat>, ch: nat, p: nat,
                   dirty: bool, decommitted: bool)
    requires MapsOk(c, maps, tiles, virgin) && ch in tiles && UsedAt(tiles[ch], c.bias, p)
    ensures ch in maps && HasRun(maps[ch], tiles[ch], c.bias, p)
    ensures var n := tiles[ch][p].pages;
            ZeroFreed(c.bias, maps, tiles, maps[ch := FreeEnds(maps[ch], p, n, dirty, decommitted)],
                      tiles[ch := Paint(tiles[ch], Run(p, n, Free(dirty, decommitted)), NO_RUN)], ch, p, n, dirty,
                      decommitted)
  {
    hide MapsOk, Tiled, HasRun, FreeEnds, Paint, PagesOk, GivesBack;
    RunThere(c, maps, tiles, virgin, ch, p);
    var n := tiles[ch][p].pages;
    forall nz | ZeroOk(c.bias, maps, tiles, nz) && GivesBack(maps[ch], p, n, dirty, decommitted, ch, nz)
      ensures ZeroOk(c.bias, maps[ch := FreeEnds(maps[ch], p, n, dirty, decommitted)],
                     tiles[ch := Paint(tiles[ch], Run(p, n, Free(dirty, decommitted)), NO_RUN)], nz)
    {
      FreeZero(maps[ch], tiles[ch], c.bias, p, dirty, decommitted, ch, nz);
      OneZero(c.bias, maps, tiles, ch, FreeEnds(maps[ch], p, n, dirty, decommitted),
              Paint(tiles[ch], Run(p, n, Free(dirty, decommitted)), NO_RUN), nz);
    }
  }

  lemma JoinZeroAt(c: Params, maps: map<nat, seq<Entry>>, tiles: Tiles, virgin: set<nat>, ch: nat, p: nat, q: nat)
    requires MapsOk(c, maps, tiles, virgin) && ch in tiles && FreeAt(tiles[ch], c.bias, p) && FreeAt(tiles[ch], c.bias, q)
    requires tiles[ch][p].End() == q && tiles[ch][p].kind == tiles[ch][q].kind
    ensures ch in maps && HasRun(maps[ch], tiles[ch], c.bias, p) && HasRun(maps[ch], tiles[ch], c.bias, q)
    ensures var n := tiles[ch][p].pages + tiles[ch][q].pages;
            ZeroKept(c.bias, maps, tiles, maps[ch := Resized(maps[ch], p, n)], tiles[ch := Joined(tiles[ch], p, q)])
  {
    hide MapsOk, Tiled, HasRun, Resized, Joined, PagesOk;
    RunThere(c, maps, tiles, virgin, ch, p);
    RunThere(c, maps, tiles, virgin, ch, q);
    var n := tiles[ch][p].pages + tiles[ch][q].pages;
    forall nz | ZeroOk(c.bias, maps, tiles, nz)
      ensures ZeroOk(c.bias, maps[ch := Resized(maps[ch], p, n)], tiles[ch := Joined(tiles[ch], p, q)], nz)
    {
      JoinZero(maps[ch], tiles[ch], c.bias, p, q, ch, nz);
      OneZero(c.bias, maps, tiles, ch, Resized(maps[ch], p, n), Joined(tiles[ch], p, q), nz);
    }
  }

  lemma CutZeroAt(c: Params, maps: map<nat, seq<Entry>>, tiles: Tiles, virgin: set<nat>, spare: Option<nat>, ch: nat, p: nat,
                  head: nat)
    requires MapsOk(c, maps, tiles, virgin) && ch in tiles && UsedAt(tiles[ch], c.bias, p) && tiles[ch][p].kind.Large?
    requires 0 < head < tiles[ch][p].pages && SpareOk(c, tiles, virgin, spare)
    ensures ch in maps && HasRun(maps[ch], tiles[ch], c.bias, p)
    ensures |maps[ch]| == |tiles[ch]| && tiles[ch][p].End() <= |tiles[ch]|
    ensures var n := tiles[ch][p].pages;
            var m' := Cut(maps[ch], p, n, head);
            CutKnown(c.bias, maps, tiles, maps[ch := m'], tiles[ch := Halved(tiles[ch], p, head)], ch, p, n, head,
                     tiles[ch][p].kind.dirty)
  {
    hide MapsOk, Tiled, HasRun, Cut, Halved, PagesOk, Known, SpareOk, MapOk;
    UsedChunk(c, maps, tiles, virgin, spare, ch, p);
    MapOf(c, maps, tiles, virgin, ch);
    RunThere(c, maps, tiles, virgin, ch, p);
    ReadLarge(maps[ch], tiles[ch], c.bias, c.binPages, p);
    var n := tiles[ch][p].pages;
    var m' := Cut(maps[ch], p, n, head);
    forall nz | ZeroOk(c.bias, maps, tiles, nz)
      ensures ZeroOk(c.bias, maps[ch := m'], tiles[ch := Halved(tiles[ch], p, head)], nz)
      ensures !tiles[ch][p].kind.dirty && Known(maps[ch], p, n, ch, nz) ==>
                Known(m', p, head, ch, nz) && Known(m', p + head, n - head, ch, nz)
    {
      CutZero(maps[ch], tiles[ch], c.bias, p, head, ch, nz);
      OneZero(c.bias, maps, tiles, ch, m', Halved(tiles[ch], p, head), nz);
    }
  }

  /** That is enough: whatever may hold something is made zero. */
  lemma ZeroingEnough(c: Params, maps: map<nat, seq<Entry>>, tiles: Tiles, virgin: set<nat>, ch: nat, p: nat, need: nat)
    requires MapsOk(c, maps, tiles, virgin) && ch in tiles && FreeAt(tiles[ch], c.bias, p)
    requires 0 < need <= tiles[ch][p].pages && ParamsOk(c)
    ensures ch in maps && p + tiles[ch][p].pages <= |maps[ch]|
    ensures var k := tiles[ch][p].kind;
            var m1 := Remainder(maps[ch], p, need, tiles[ch][p].pages, k.dirty, k.decommitted);
            var pages := ToZero(m1, p, need, k.dirty, k.decommitted);
            && Zeroes(c.bias, maps, tiles, p, need, ch, pages) && (forall i :: i in pages ==> p <= i < p + need)
            && (!k.dirty ==> forall i :: i in pages ==> maps[ch][i].unzeroed)
  {
    FlagsApart(c, maps, tiles, virgin, ch, p);
    hide MapsOk, HasRun, PagesOk, Remainder, ToZero, ParamsOk;
    RunThere(c, maps, tiles, virgin, ch, p);
    var k := tiles[ch][p].kind;
    var m1 := Remainder(maps[ch], p, need, tiles[ch][p].pages, k.dirty, k.decommitted);
    var pages := ToZero(m1, p, need, k.dirty, k.decommitted);
    ToZeroPages(maps[ch], p, need, tiles[ch][p].pages, k.dirty, k.decommitted);
    forall nz, i: nat | ZeroOk(c.bias, maps, tiles, nz) && p <= i < p + need && (ch, i) in nz ensures i in pages {
      ToZeroEnough(maps[ch], tiles[ch], c.bias, p, need, ch, nz, i);
    }
  }

  lemma FlagsApart(c: Params, maps: map<nat, seq<Entry>>, tiles: Tiles, virgin: set<nat>, ch: nat, p: nat)
    requires MapsOk(c, maps, tiles, virgin) && ch in tiles && FreeAt(tiles[ch], c.bias, p) && ParamsOk(c)
    ensures !(tiles[ch][p].kind.dirty && tiles[ch][p].kind.decommitted)
  {
    MapOf(c, maps, tiles, virgin, ch);
    SplitReads(c, maps, tiles, virgin, ch, p);
    assert Sound(maps[ch][p]);
  }

  // ---------------------------------------------------------------- what each operation does, page by page

  /** Page by page: of the run at `p` the first `need` pages are a run of kind `kind`, and the rest stays free as it
      was; no other page changes. */
  ghost predicate SplitPages(t: seq<Run>, t': seq<Run>, p: nat, need: nat, kind: Kind)
    requires p < |t|
  {
    |t'| == |t| && forall i :: 0 <= i < |t| ==>
      t'[i] == if p <= i < p + need then Run(p, need, kind)
               else if p + need <= i < t[p].End() then Run(p + need, t[p].End() - p - need, t[p].kind)
               else t[i]
  }

  lemma TakenPages(t: seq<Run>, p: nat, need: nat, kind: Kind)
    requires p < |t| && t[p].start == p && need <= t[p].pages
    ensures SplitPages(t, Taken(t, p, need, kind), p, need, kind)
  {
  }

  lemma BecomesIs(k: Kind, dirty: bool, cleaned: bool, decommitted: bool)
    ensures BecomesDirty(k, dirty, cleaned, decommitted)
            <==> dirty || (k.Large? && k.dirty && !cleaned && !decommitted)
  {
  }

  /** What splitting reads from the map. */
  lemma SplitReads(c: Params, maps: map<nat, seq<Entry>>, tiles: Tiles, virgin: set<nat>, ch: nat, p: nat)
    requires ParamsOk(c) && MapsOk(c, maps, tiles, virgin) && ch in tiles && FreeAt(tiles[ch], c.bias, p)
    ensures ch in maps && |maps[ch]| == |tiles[ch]|
    ensures var r, m := tiles[ch][p], maps[ch];
            && p + r.pages <= |m| && m[p].size == r.pages < c.npages
            && m[p].dirty == r.kind.dirty == m[p + r.pages - 1].dirty
            && m[p].decommitted == r.kind.decommitted
  {
    MapOf(c, maps, tiles, virgin, ch);
    hide MapsOk;
    EntriesOf(maps[ch], tiles[ch], c.bias, c.binPages, ch in virgin, p);
  }

  /** What splitting needs of the indexes. */
  lemma SplitIndexes(c: Params, tiles: Tiles, spare: Option<nat>, free: map<Place, nat>, ndirty: nat, nactive: nat,
                     ch: nat, p: nat, need: nat)
    requires FreeIs(c, free, tiles, spare, None) && Counts(c, tiles, None, ndirty, nactive)
    requires ch in tiles && Tiled(tiles[ch], c.bias)
    requires spare != Some(ch) && FreeAt(tiles[ch], c.bias, p) && 0 < need <= tiles[ch][p].pages
    ensures (ch, p) in free && free[(ch, p)] == tiles[ch][p].pages
    ensures need < tiles[ch][p].pages ==> (ch, p + need) !in free
    ensures tiles[ch][p].kind.dirty ==> tiles[ch][p].pages <= ndirty
  {
    assert Indexable(c, tiles, spare, None, (ch, p));
    TakenFree(c, free, tiles, spare, ch, p, need, Large(false));
    RunEnds(tiles[ch], c.bias, p);
    CountedPages(tiles, c.bias, ch, p, tiles[ch][p].End(), tiles[ch][p].kind, true);
  }

  /** Taking the head of a free run keeps everything but the map. */
  lemma TakenCore(c: Params, maps: map<nat, seq<Entry>>, tiles: Tiles, virgin: set<nat>, spare: Option<nat>,
                  free: map<Place, nat>, runsDirty: set<Place>, ndirty: nat, nactive: nat,
                  ch: nat, p: nat, need: nat, kind: Kind)
    requires MapsOk(c, maps, tiles, virgin) && SpareOk(c, tiles, virgin, spare) && AllApart(c, tiles)
    requires FreeIs(c, free, tiles, spare, None) && DirtyIs(c, runsDirty, tiles, None)
    requires Counts(c, tiles, None, ndirty, nactive)
    requires ch in tiles && spare != Some(ch) && FreeAt(tiles[ch], c.bias, p) && 0 < need <= tiles[ch][p].pages
    requires !kind.Free?
    ensures var t := tiles[ch];
            var r, tiles' := t[p], tiles[ch := Taken(t, p, need, kind)];
            var less := if r.kind.dirty then need else 0;
            && SpareOk(c, tiles', virgin - {ch}, spare) && AllApart(c, tiles')
            && FreeIs(c, SplitFree(free, ch, p, need, r.pages), tiles', spare, None)
            && DirtyIs(c, if r.kind.dirty then SplitDirty(runsDirty, ch, p, need, r.pages) else runsDirty,
                       tiles', None)
            && less <= ndirty && Counts(c, tiles', None, ndirty - less, nactive + need)
  {
    MapOf(c, maps, tiles, virgin, ch);
    SplitApart(tiles[ch], c.bias, p, need, kind);
    TakenFree(c, free, tiles, spare, ch, p, need, kind);
    TakenDirty(c, runsDirty, tiles, ch, p, need, kind);
    TakenCounts(c, tiles, ndirty, nactive, ch, p, need, kind);
    hide Tiled, MapsOk, FreeIs, DirtyIs, Counts, Apart, Taken, Whole, SplitFree, SplitDirty;
  }

  lemma TakenCounts(c: Params, tiles: Tiles, ndirty: nat, nactive: nat, ch: nat, p: nat, need: nat, kind: Kind)
    requires Counts(c, tiles, None, ndirty, nactive) && ch in tiles && Tiled(tiles[ch], c.bias)
    requires FreeAt(tiles[ch], c.bias, p) && 0 < need <= tiles[ch][p].pages && !kind.Free?
    ensures var less := if tiles[ch][p].kind.dirty then need else 0;
            less <= ndirty
            && Counts(c, tiles[ch := Taken(tiles[ch], p, need, kind)], None, ndirty - less, nactive + need)
  {
    var t := tiles[ch];
    var t' := Taken(t, p, need, kind);
    RunEnds(t, c.bias, p);
    CountedPages(tiles, c.bias, ch, p, p + need, t[p].kind, true);
    Recount(tiles, c.bias, ch, t', p, p + need, t[p].kind, kind, true);
    Recount(tiles, c.bias, ch, t', p, p + need, t[p].kind, kind, false);
  }

  lemma SplitLargeMapAt(c: Params, maps: map<nat, seq<Entry>>, tiles: Tiles, virgin: set<nat>,
                        ch: nat, p: nat, need: nat)
    requires MapsOk(c, maps, tiles, virgin) && ch in tiles && FreeAt(tiles[ch], c.bias, p)
    requires 0 < need <= tiles[ch][p].pages
    ensures ch in maps && p + tiles[ch][p].pages <= |maps[ch]|
    ensures var t := tiles[ch];
            var k := t[p].kind;
            var m := LargeEnds(Remainder(maps[ch], p, need, t[p].pages, k.dirty, k.decommitted),
                               p, need, k.dirty, k.decommitted);
            MapsOk(c, maps[ch := m], tiles[ch := Taken(t, p, need, Large(k.dirty))], virgin - {ch})
  {
    MapOf(c, maps, tiles, virgin, ch);
    var t := tiles[ch];
    var k := t[p].kind;
    RunEnds(t, c.bias, p);
    SplitLargeMap(maps[ch], t, c.bias, c.binPages, ch in virgin, p, need);
    hide MapsOk, MapOk, Remainder, LargeEnds, Taken, Tiled, Whole;
    var m := LargeEnds(Remainder(maps[ch], p, need, t[p].pages, k.dirty, k.decommitted),
                       p, need, k.dirty, k.decommitted);
    OneMap(c, maps, tiles, virgin, ch, m, Taken(t, p, need, Large(k.dirty)));
  }

  lemma SplitSmallMapAt(c: Params, maps: map<nat, seq<Entry>>, tiles: Tiles, virgin: set<nat>,
                        ch: nat, p: nat, need: nat, binind: nat)
    requires MapsOk(c, maps, tiles, virgin) && ch in tiles && FreeAt(tiles[ch], c.bias, p)
    requires 0 < need <= tiles[ch][p].pages && binind < |c.binPages| && need == c.binPages[binind]
    ensures ch in maps && p + tiles[ch][p].pages <= |maps[ch]|
    ensures var t := tiles[ch];
            var k := t[p].kind;
            var m := SmallPages(Remainder(maps[ch], p, need, t[p].pages, k.dirty, k.decommitted),
                                p, p + need, binind);
            MapsOk(c, maps[ch := m], tiles[ch := Taken(t, p, need, Small(binind))], virgin - {ch})
  {
    MapOf(c, maps, tiles, virgin, ch);
    var t := tiles[ch];
    var k := t[p].kind;
    RunEnds(t, c.bias, p);
    SplitSmallMap(maps[ch], t, c.bias, c.binPages, ch in virgin, p, need, binind);
    hide MapsOk, MapOk, Remainder, SmallPages, Taken, Tiled, Whole;
    var m := SmallPages(Remainder(maps[ch], p, need, t[p].pages, k.dirty, k.decommitted), p, p + need, binind);
    OneMap(c, maps, tiles, virgin, ch, m, Taken(t, p, need, Small(binind)));
  }

  // ---------------------------------------------------------------- joining and freeing

  /** Joining the run in hand with the neighbour `x` keeps everything but the map. */
  lemma JoinedCore(c: Params, maps: map<nat, seq<Entry>>, tiles: Tiles, virgin: set<nat>, spare: Option<nat>,
                   free: map<Place, nat>, runsDirty: set<Place>, ndirty: nat, nactive: nat,
                   ch: nat, p: nat, q: nat, hand: nat, x: nat)
    requires MapsOk(c, maps, tiles, virgin) && SpareOk(c, tiles, virgin, spare)
    requires ch in tiles && spare != Some(ch) && ch !in virgin
    requires FreeAt(tiles[ch], c.bias, p) && FreeAt(tiles[ch], c.bias, q)
    requires tiles[ch][p].End() == q && tiles[ch][p].kind == tiles[ch][q].kind
    requires (hand == p && x == q) || (hand == q && x == p)
    requires FreeIs(c, free, tiles, spare, Some((ch, hand))) && DirtyIs(c, runsDirty, tiles, Some((ch, hand)))
    requires Counts(c, tiles, Some((ch, hand)), ndirty, nactive)
    ensures (ch, x) in free && free[(ch, x)] == tiles[ch][x].pages
    ensures var t := tiles[ch];
            var kind, tiles' := t[p].kind, tiles[ch := Joined(t, p, q)];
            var less := if kind.dirty then t[x].pages else 0;
            && SpareOk(c, tiles', virgin, spare)
            && FreeIs(c, free - {(ch, x)}, tiles', spare, Some((ch, p)))
            && DirtyIs(c, if kind.dirty then runsDirty - {(ch, x)} else runsDirty, tiles', Some((ch, p)))
            && less <= ndirty && Counts(c, tiles', Some((ch, p)), ndirty - less, nactive)
  {
    MapOf(c, maps, tiles, virgin, ch);
    JoinedFree(c, free, tiles, spare, ch, p, q, hand, x);
    JoinedDirty(c, runsDirty, tiles, ch, p, q, hand, x);
    JoinedCounts(c, tiles, ndirty, nactive, ch, p, q, hand, x);
    hide Tiled, MapsOk, FreeIs, DirtyIs, Counts, Joined, Whole, FreeAt;
  }

  lemma JoinedCounts(c: Params, tiles: Tiles, ndirty: nat, nactive: nat, ch: nat, p: nat, q: nat, hand: nat, x: nat)
    requires ch in tiles && Tiled(tiles[ch], c.bias)
    requires FreeAt(tiles[ch], c.bias, p) && FreeAt(tiles[ch], c.bias, q)
    requires tiles[ch][p].End() == q && tiles[ch][p].kind == tiles[ch][q].kind
    requires (hand == p && x == q) || (hand == q && x == p)
    requires Counts(c, tiles, Some((ch, hand)), ndirty, nactive)
    ensures var t := tiles[ch];
            var less := if t[p].kind.dirty then t[x].pages else 0;
            less <= ndirty && Counts(c, tiles[ch := Joined(t, p, q)], Some((ch, p)), ndirty - less, nactive)
  {
    var t := tiles[ch];
    JoinedStarts(t, c.bias, p, q);
    RunEnds(t, c.bias, p);
    RunEnds(t, c.bias, q);
    CountedPages(tiles, c.bias, ch, p, t[q].End(), t[p].kind, true);
    Recount(tiles, c.bias, ch, Joined(t, p, q), p, p, t[p].kind, t[p].kind, true);
    Recount(tiles, c.bias, ch, Joined(t, p, q), p, p, t[p].kind, t[p].kind, false);
  }

  lemma JoinMapAt(c: Params, maps: map<nat, seq<Entry>>, tiles: Tiles, virgin: set<nat>, ch: nat, p: nat, q: nat)
    requires MapsOk(c, maps, tiles, virgin) && ch in tiles && ch !in virgin
    requires FreeAt(tiles[ch], c.bias, p) && FreeAt(tiles[ch], c.bias, q)
    requires tiles[ch][p].End() == q && tiles[ch][p].kind == tiles[ch][q].kind
    ensures var n := tiles[ch][p].pages + tiles[ch][q].pages;
            ch in maps && 0 < n && p + n <= |maps[ch]|
            && MapsOk(c, maps[ch := Resized(maps[ch], p, n)], tiles[ch := Joined(tiles[ch], p, q)], virgin)
  {
    MapOf(c, maps, tiles, virgin, ch);
    var t := tiles[ch];
    JoinReplaces(t, c.bias, p, q);
    hide MapsOk, MapOk, Resized, Joined, Tiled, Whole, Replaces, FreeAt;
    JoinMap(maps[ch], t, c.bias, c.binPages, p, q);
    OneMap(c, maps, tiles, virgin, ch, Resized(maps[ch], p, t[p].pages + t[q].pages), Joined(t, p, q));
  }

  /** The two joins of arena_run_coalesce(), one after the other. */
  lemma CoalescedSteps(t: seq<Run>, bias: nat, p: nat)
    requires Tiled(t, bias) && FreeAt(t, bias, p)
    ensures var r := t[p];
            var fwd := r.End() < |t| && t[r.End()].kind == r.kind;
            var t2 := if fwd then Joined(t, p, r.End()) else t;
            var bwd := p > bias && t2[p - 1].kind == r.kind;
            && (bwd ==> t2[p - 1].start < p)
            && var t3 := if bwd then Joined(t2, t2[p - 1].start, p) else t2;
            var q := if bwd then t2[p - 1].start else p;
            q < |t3| && t3[q] == Coalesced(t, bias, r) && t3 == Paint(t, Coalesced(t, bias, r), NO_RUN)
  {
    var r, j := t[p], Forward(t, p);
    CoalescedForward(t, bias, p);
    CoalescedIs(t, bias, p);
    hide Tiled, Coalesced, Forward, Paint;
    if p > bias && t[p - 1].kind == r.kind {
      var l := t[p - 1];
      PaintOver(t, j, Run(l.start, l.pages + j.pages, r.kind));
      assert Paint(t, j, NO_RUN)[l.start] == t[l.start] == l;
    }
  }

  /** The run at `p` with its successor, if that can be joined. */
  function Forward(t: seq<Run>, p: nat): (r: Run)
    requires p < |t|
  {
    var r := t[p];
    if r.End() < |t| && t[r.End()].kind == r.kind then Run(p, r.pages + t[r.End()].pages, r.kind) else r
  }

  lemma CoalescedForward(t: seq<Run>, bias: nat, p: nat)
    requires Tiled(t, bias) && FreeAt(t, bias, p)
    ensures var r, j := t[p], Forward(t, p);
            && (if r.End() < |t| && t[r.End()].kind == r.kind then Joined(t, p, r.End()) else t) == Paint(t, j, NO_RUN)
            && j.start == p && j.kind == r.kind && Paint(t, j, NO_RUN)[p] == j
            && (p > bias ==> Paint(t, j, NO_RUN)[p - 1] == t[p - 1])
  {
    RunEnds(t, bias, p);
    PaintSame(t, bias, p);
    PaintOver(t, Forward(t, p), Forward(t, p));
  }

  lemma CoalescedIs(t: seq<Run>, bias: nat, p: nat)
    requires Tiled(t, bias) && FreeAt(t, bias, p)
    ensures var l, j := t[if p > bias then p - 1 else p], Forward(t, p);
            if p > bias && l.kind == t[p].kind
            then l.End() == p && l.start < p && t[l.start] == l
                 && Coalesced(t, bias, t[p]) == Run(l.start, l.pages + j.pages, j.kind)
            else Coalesced(t, bias, t[p]) == j
  {
    RunEnds(t, bias, p);
    if t[p].End() < |t| {
      RunEnds(t, bias, t[p].End());
    }
    if p > bias {
      RunEnds(t, bias, p - 1);
    }
  }

  lemma PaintSame(t: seq<Run>, bias: nat, p: nat)
    requires Tiled(t, bias) && FreeAt(t, bias, p)
    ensures Paint(t, t[p], NO_RUN) == t
  {
    RunEnds(t, bias, p);
  }

  /** A run painted and covered again leaves no trace, and changes nothing outside itself. */
  lemma PaintOver(t: seq<Run>, a: Run, b: Run)
    requires b.start <= a.start && a.End() <= b.End()
    ensures Paint(Paint(t, a, NO_RUN), b, NO_RUN) == Paint(t, b, NO_RUN)
    ensures forall i :: 0 <= i < |t| && !a.Covers(i) ==> Paint(t, a, NO_RUN)[i] == t[i]
    ensures forall i :: 0 <= i < |t| && a.Covers(i) ==> Paint(t, a, NO_RUN)[i] == a
    ensures forall i :: 0 <= i < |t| && b.Covers(i) ==> Paint(t, b, NO_RUN)[i] == b
  {
  }

  /** Freeing the run at `p`, before coalescing: its pages change kind and are pending. */
  lemma FreedCore(c: Params, maps: map<nat, seq<Entry>>, tiles: Tiles, virgin: set<nat>, spare: Option<nat>,
                  free: map<Place, nat>, runsDirty: set<Place>, ndirty: nat, nactive: nat,
                  ch: nat, p: nat, kind: Kind)
    requires MapsOk(c, maps, tiles, virgin) && SpareOk(c, tiles, virgin, spare)
    requires FreeIs(c, free, tiles, spare, None) && DirtyIs(c, runsDirty, tiles, None)
    requires Counts(c, tiles, None, ndirty, nactive)
    requires ch in tiles && UsedAt(tiles[ch], c.bias, p) && kind.Free?
    ensures ch !in virgin && spare != Some(ch)
    ensures var t := tiles[ch];
            var tiles' := tiles[ch := Paint(t, Run(p, t[p].pages, kind), NO_RUN)];
            && SpareOk(c, tiles', virgin, spare)
            && FreeIs(c, free, tiles', spare, Some((ch, p))) && DirtyIs(c, runsDirty, tiles', Some((ch, p)))
            && t[p].pages <= nactive && Counts(c, tiles', Some((ch, p)), ndirty, nactive - t[p].pages)
  {
    MapOf(c, maps, tiles, virgin, ch);
    UsedChunk(c, maps, tiles, virgin, spare, ch, p);
    FreedFree(c, free, tiles, spare, ch, p, kind);
    FreedDirty(c, runsDirty, tiles, ch, p, kind);
    FreedCounts(c, tiles, ndirty, nactive, ch, p, kind);
    hide Tiled, MapsOk, FreeIs, DirtyIs, Counts, Paint, Whole, UsedAt;
  }

  lemma FreedCounts(c: Params, tiles: Tiles, ndirty: nat, nactive: nat, ch: nat, p: nat, kind: Kind)
    requires Counts(c, tiles, None, ndirty, nactive) && ch in tiles && Tiled(tiles[ch], c.bias)
    requires UsedAt(tiles[ch], c.bias, p) && kind.Free?
    ensures var t := tiles[ch];
            var tiles' := tiles[ch := Paint(t, Run(p, t[p].pages, kind), NO_RUN)];
            t[p].pages <= nactive && Counts(c, tiles', Some((ch, p)), ndirty, nactive - t[p].pages)
  {
    var t := tiles[ch];
    var t' := Paint(t, Run(p, t[p].pages, kind), NO_RUN);
    RunEnds(t, c.bias, p);
    CountedPages(tiles, c.bias, ch, p, t[p].End(), t[p].kind, false);
    Recount(tiles, c.bias, ch, t', p, t[p].End(), t[p].kind, kind, true);
    Recount(tiles, c.bias, ch, t', p, t[p].End(), t[p].kind, kind, false);
  }

  lemma FreeMapAt(c: Params, maps: map<nat, seq<Entry>>, tiles: Tiles, virgin: set<nat>, ch: nat, p: nat,
                  dirty: bool, decommitted: bool)
    requires MapsOk(c, maps, tiles, virgin) && ch in tiles && ch !in virgin && UsedAt(tiles[ch], c.bias, p)
    requires !(dirty && decommitted)
    ensures var t := tiles[ch];
            ch in maps && 0 < t[p].pages && p + t[p].pages <= |maps[ch]|
            && MapsOk(c, maps[ch := FreeEnds(maps[ch], p, t[p].pages, dirty, decommitted)],
                      tiles[ch := Paint(t, Run(p, t[p].pages, Free(dirty, decommitted)), NO_RUN)], virgin)
  {
    MapOf(c, maps, tiles, virgin, ch);
    var t := tiles[ch];
    RunEnds(t, c.bias, p);
    FreeMap(maps[ch], t, c.bias, c.binPages, p, dirty, decommitted);
    hide MapsOk, MapOk, FreeEnds, Paint, Tiled, Whole;
    OneMap(c, maps, tiles, virgin, ch, FreeEnds(maps[ch], p, t[p].pages, dirty, decommitted),
           Paint(t, Run(p, t[p].pages, Free(dirty, decommitted)), NO_RUN));
  }

  /** The freed run coalesces as it would in the old tiling. */
  lemma FreedThenCoalesced(t: seq<Run>, bias: nat, p: nat, kind: Kind)
    requires Tiled(t, bias) && Apart(t, bias) && UsedAt(t, bias, p) && kind.Free?
    ensures var r := Run(p, t[p].pages, kind);
            var t1 := Paint(t, r, NO_RUN);
            && Tiled(t1, bias) && FreeAt(t1, bias, p) && t1[p] == r
            && Coalesced(t1, bias, r) == Coalesced(t, bias, r)
            && Paint(t1, Coalesced(t1, bias, r), NO_RUN) == Freed(t, bias, p, kind)
            && Apart(Freed(t, bias, p, kind), bias)
  {
    RunEnds(t, bias, p);
    var r := Run(p, t[p].pages, kind);
    PaintTiled(t, bias, r, NO_RUN);
    CoalescedApart(t, bias, r);
    CoalescedFits(t, bias, r);
  }

  lemma JoinedStartsAt(c: Params, maps: map<nat, seq<Entry>>, tiles: Tiles, virgin: set<nat>, ch: nat, p: nat, q: nat)
    requires MapsOk(c, maps, tiles, virgin) && ch in tiles
    requires FreeAt(tiles[ch], c.bias, p) && FreeAt(tiles[ch], c.bias, q)
    requires tiles[ch][p].End() == q && tiles[ch][p].kind == tiles[ch][q].kind
    ensures var t := tiles[ch];
            var t' := Joined(t, p, q);
            FreeAt(t', c.bias, p) && t'[p] == Run(p, t[p].pages + t[q].pages, t[p].kind)
  {
    MapOf(c, maps, tiles, virgin, ch);
    JoinedStarts(tiles[ch], c.bias, p, q);
  }

  lemma CoalescedStepsAt(c: Params, maps: map<nat, seq<Entry>>, tiles: Tiles, virgin: set<nat>, ch: nat, p: nat)
    requires MapsOk(c, maps, tiles, virgin) && ch in tiles && FreeAt(tiles[ch], c.bias, p)
    ensures var t := tiles[ch];
            var r := t[p];
            var fwd := r.End() < |t| && t[r.End()].kind == r.kind;
            var t2 := if fwd then Joined(t, p, r.End()) else t;
            var bwd := p > c.bias && t2[p - 1].kind == r.kind;
            && (bwd ==> t2[p - 1].start < p)
            && var t3 := if bwd then Joined(t2, t2[p - 1].start, p) else t2;
            var q := if bwd then t2[p - 1].start else p;
            q < |t3| && t3[q] == Coalesced(t, c.bias, r) && t3 == Paint(t, Coalesced(t, c.bias, r), NO_RUN)
  {
    MapOf(c, maps, tiles, virgin, ch);
    CoalescedSteps(tiles[ch], c.bias, p);
  }

  /** The map tells which neighbours of the free run at `p` are free and of its kind. */
  lemma ReadNeighbours(c: Params, maps: map<nat, seq<Entry>>, tiles: Tiles, virgin: set<nat>, ch: nat, p: nat)
    requires MapsOk(c, maps, tiles, virgin) && ch in tiles && ch !in virgin && FreeAt(tiles[ch], c.bias, p)
    ensures ch in maps && |tiles[ch]| == |maps[ch]| == c.npages && tiles[ch][p].End() <= c.npages
    ensures var t, m, r := tiles[ch], maps[ch], tiles[ch][p];
            && (r.End() < |t| ==>
                  var q := r.End();
                  && (Joins(m[q], r.kind.dirty, r.kind.decommitted) <==> t[q].kind == r.kind)
                  && (t[q].kind == r.kind ==> FreeAt(t, c.bias, q) && m[q].size == t[q].pages > 0))
            && (p > c.bias ==>
                  && (Joins(m[p - 1], r.kind.dirty, r.kind.decommitted) <==> t[p - 1].kind == r.kind)
                  && (t[p - 1].kind == r.kind ==>
                        var k := m[p - 1].size;
                        && 0 < k <= p && t[p - 1].start == p - k && FreeAt(t, c.bias, p - k)
                        && t[p - k] == t[p - 1] == Run(p - k, k, r.kind)))
  {
    MapOf(c, maps, tiles, virgin, ch);
    var t, m := tiles[ch], maps[ch];
    RunEnds(t, c.bias, p);
    if t[p].End() < |t| {
      ReadNext(m, t, c.bias, c.binPages, t[p]);
    }
    if p > c.bias {
      ReadPrev(m, t, c.bias, c.binPages, t[p]);
      RunEnds(t, c.bias, p - 1);
    }
  }

  /** What arena_run_size_get() and the dirty test read from the map of a used run. */
  lemma ReadUsed(c: Params, maps: map<nat, seq<Entry>>, tiles: Tiles, virgin: set<nat>, ch: nat, p: nat)
    requires ParamsOk(c) && MapsOk(c, maps, tiles, virgin) && ch in tiles && ch !in virgin
    requires UsedAt(tiles[ch], c.bias, p)
    ensures ch in maps && p < |maps[ch]| && 0 < tiles[ch][p].pages < c.npages
    ensures var e, r := maps[ch][p], tiles[ch][p];
            && (e.large <==> r.kind.Large?) && (e.large ==> e.size == r.pages)
            && (!e.large ==> e.binind < |c.binPages| && c.binPages[e.binind] == r.pages)
            && (e.dirty <==> r.kind.Large? && r.kind.dirty)
  {
    MapOf(c, maps, tiles, virgin, ch);
    hide MapsOk;
    EntriesOf(maps[ch], tiles[ch], c.bias, c.binPages, false, p);
  }

  /** The pages of the run that the freed run grows into are those of one run again. */
  lemma FreedWhole(t: seq<Run>, bias: nat, p: nat, kind: Kind)
    requires Tiled(t, bias) && Apart(t, bias) && UsedAt(t, bias, p) && kind.Free?
    ensures var g := Coalesced(t, bias, Run(p, t[p].pages, kind));
            && Fits(t, bias, g) && (g.pages == |t| - bias <==> Whole(Freed(t, bias, p, kind), bias))
  {
    RunEnds(t, bias, p);
    CoalescedFits(t, bias, Run(p, t[p].pages, kind));
    var g := Coalesced(t, bias, Run(p, t[p].pages, kind));
    assert Freed(t, bias, p, kind)[g.start] == g;
  }

  /** The tiling and the spare after a run was freed: a chunk that became one free run is the new
      spare, and the old spare is given back. */
  function AfterFree(c: Params, tiles: Tiles, spare: Option<nat>, ch: nat, p: nat, kind: Kind): (Tiles, Option<nat>)
    requires ch in tiles && p < |tiles[ch]|
  {
    var t := tiles[ch];
    var tiles' := tiles[ch := Freed(t, c.bias, p, kind)];
    if Coalesced(t, c.bias, Run(p, t[p].pages, kind)).pages == c.npages - c.bias
    then (Without(tiles', spare), Some(ch))
    else (tiles', spare)
  }

  /** A chunk that has no used run any more is the spare, and the spare that was there is gone; otherwise chunks
      and spare stay as they were.  The other chunks are not touched. */
  ghost predicate SpareRule(c: Params, tiles: Tiles, spare: Option<nat>, tiles': Tiles, spare': Option<nat>, ch: nat) {
    && ch in tiles' && (forall k :: k in tiles' && k != ch ==> k in tiles && tiles'[k] == tiles[k])
    && (if Whole(tiles'[ch], c.bias)
        then spare' == Some(ch) && tiles'.Keys == (if spare.Some? then tiles.Keys - {spare.value} else tiles.Keys)
        else spare' == spare && tiles'.Keys == tiles.Keys)
  }

  /** Page by page: those from `lo` up to `hi` are free and of that kind; those of `rest` are a run of their own;
      the others are used by the run that used them, or are as free as they were. */
  ghost predicate Released(t: seq<Run>, t': seq<Run>, bias: nat, lo: nat, hi: nat, kind: Kind, rest: Run) {
    |t'| == |t| && forall i :: bias <= i < |t| ==>
      if lo <= i < hi then t'[i].kind == kind
      else if rest.Covers(i) then t'[i] == rest
      else if t[i].kind.Free? then t'[i].kind == t[i].kind
      else t'[i] == t[i]
  }

  lemma FreedPages(t: seq<Run>, bias: nat, p: nat, kind: Kind)
    requires Tiled(t, bias) && UsedAt(t, bias, p) && kind.Free?
    ensures Released(t, Freed(t, bias, p, kind), bias, p, t[p].End(), kind, NO_RUN)
  {
    RunEnds(t, bias, p);
    if t[p].End() < |t| {
      RunEnds(t, bias, t[p].End());
    }
    if p > bias {
      RunEnds(t, bias, p - 1);
    }
  }

  lemma AfterFreeIs(c: Params, tiles: Tiles, spare: Option<nat>, ch: nat, p: nat, kind: Kind)
    requires ch in tiles && |tiles[ch]| == c.npages && Tiled(tiles[ch], c.bias) && Apart(tiles[ch], c.bias)
    requires UsedAt(tiles[ch], c.bias, p) && kind.Free? && spare != Some(ch)
    ensures var (tiles', spare') := AfterFree(c, tiles, spare, ch, p, kind);
            && SpareRule(c, tiles, spare, tiles', spare', ch)
            && Released(tiles[ch], tiles'[ch], c.bias, p, tiles[ch][p].End(), kind, NO_RUN)
  {
    FreedWhole(tiles[ch], c.bias, p, kind);
    FreedPages(tiles[ch], c.bias, p, kind);
    hide Whole, Freed, Coalesced, Released, Tiled, Apart;
  }

  /** The run at `p` was cut in two, and then one of its parts was freed. */
  lemma CutPages(t: seq<Run>, t': seq<Run>, bias: nat, p: nat, head: nat, q: nat, kind: Kind)
    requires p < |t| && t[p].kind.Large? && 0 < head < t[p].pages && (q == p || q == p + head)
    requires var hi := if q == p then p + head else p + t[p].pages;
             Released(Halved(t, p, head), t', bias, q, hi, kind, NO_RUN)
    ensures var hi := if q == p then p + head else p + t[p].pages;
            var rest := if q == p then Run(p + head, t[p].pages - head, t[p].kind) else Run(p, head, t[p].kind);
            Released(t, t', bias, q, hi, kind, rest)
  {
  }

  lemma CutChunk(c: Params, tiles: Tiles, spare: Option<nat>, tiles': Tiles, spare': Option<nat>, ch: nat, h: seq<Run>)
    requires ch in tiles && SpareRule(c, tiles[ch := h], spare, tiles', spare', ch)
    ensures SpareRule(c, tiles, spare, tiles', spare', ch)
  {
    hide Whole;
    assert tiles[ch := h].Keys == tiles.Keys;
  }

  lemma DiscardCounts(c: Params, tiles: Tiles, ndirty: nat, nactive: nat, sp: nat)
    requires sp in tiles && Whole(tiles[sp], c.bias) && Counts(c, tiles, None, ndirty, nactive)
    ensures var less := if tiles[sp][c.bias].kind.dirty then |tiles[sp]| - c.bias else 0;
            less <= ndirty && Counts(c, tiles - {sp}, None, ndirty - less, nactive)
  {
    var t, rest := tiles[sp], tiles - {sp};
    assert tiles == rest[sp := t];
    RecountChunk(rest, c.bias, sp, t, t[c.bias].kind, true);
    RecountChunk(rest, c.bias, sp, t, t[c.bias].kind, false);
  }

  lemma DiscardMaps(c: Params, maps: map<nat, seq<Entry>>, tiles: Tiles, virgin: set<nat>, sp: nat)
    requires MapsOk(c, maps, tiles, virgin) && sp in tiles && sp !in virgin
    ensures MapsOk(c, maps - {sp}, tiles - {sp}, virgin)
  {
    hide MapOk, Whole;
    var maps', tiles' := maps - {sp}, tiles - {sp};
    forall k | k in tiles' ensures MapsAt(c, maps', tiles', virgin, k) {
      assert MapsAt(c, maps, tiles, virgin, k);
    }
  }

  /** What the map of an unused chunk says about it. */
  lemma ReadWhole(c: Params, maps: map<nat, seq<Entry>>, tiles: Tiles, virgin: set<nat>, ch: nat)
    requires ParamsOk(c) && MapsOk(c, maps, tiles, virgin) && ch in tiles && ch !in virgin && Whole(tiles[ch], c.bias)
    ensures ch in maps && |maps[ch]| == |tiles[ch]| == c.npages && c.bias < c.npages
    ensures var first, last := maps[ch][c.bias], maps[ch][c.npages - 1];
            && !first.used && !last.used && first.size == c.npages - c.bias == last.size
            && first.dirty == tiles[ch][c.bias].kind.dirty == last.dirty && first.decommitted == last.decommitted
  {
    MapOf(c, maps, tiles, virgin, ch);
    EntriesOf(maps[ch], tiles[ch], c.bias, c.binPages, false, c.bias);
  }

  lemma PutBack(c: Params, tiles: Tiles, x: Place, ndirty: nat, nactive: nat)
    requires Counts(c, tiles, Some(x), ndirty, nactive) && x.0 in tiles && x.1 < |tiles[x.0]|
    requires tiles[x.0][x.1].kind.Free?
    ensures var more := if tiles[x.0][x.1].kind.dirty then tiles[x.0][x.1].pages else 0;
            Counts(c, tiles, None, ndirty + more, nactive)
  {
  }

  lemma HandFits(c: Params, maps: map<nat, seq<Entry>>, tiles: Tiles, virgin: set<nat>, ch: nat, p: nat)
    requires ParamsOk(c) && MapsOk(c, maps, tiles, virgin) && ch in tiles && FreeAt(tiles[ch], c.bias, p)
    ensures 0 < tiles[ch][p].pages < c.npages
  {
    MapOf(c, maps, tiles, virgin, ch);
    RunEnds(tiles[ch], c.bias, p);
  }

  lemma FreedStartsAt(c: Params, maps: map<nat, seq<Entry>>, tiles: Tiles, virgin: set<nat>, ch: nat, p: nat,
                      kind: Kind)
    requires MapsOk(c, maps, tiles, virgin) && ch in tiles && UsedAt(tiles[ch], c.bias, p) && kind.Free?
    ensures var r := Run(p, tiles[ch][p].pages, kind);
            var t' := Paint(tiles[ch], r, NO_RUN);
            FreeAt(t', c.bias, p) && t'[p] == r && r.pages > 0
  {
    MapOf(c, maps, tiles, virgin, ch);
    RunEnds(tiles[ch], c.bias, p);
    FreedStarts(tiles[ch], c.bias, p, kind);
  }

  // ---------------------------------------------------------------- chunks and trimming

  /** The map of a new chunk: one maximal untouched run. */
  ghost predicate FreshMap(c: Params, m: seq<Entry>, zero: bool, commit: bool) {
    var n, unzeroed := c.npages - c.bias, !zero && commit;
    && |m| == c.npages && 0 < c.bias && c.bias + 1 < c.npages
    && m[c.bias] == Unallocated(n, false, !commit, unzeroed)
    && m[c.npages - 1] == Unallocated(n, false, false, unzeroed)
    && forall i :: c.bias < i < c.npages - 1 ==> Sound(m[i]) && m[i].unzeroed == unzeroed
  }

  function FreshTiles(c: Params, commit: bool): seq<Run>
    requires c.bias < c.npages
  {
    seq(c.npages, i => Run(c.bias, c.npages - c.bias, Free(false, !commit)))
  }

  /** Only the chunks that came committed have first and last entries that agree. */
  lemma FreshMapOk(c: Params, m: seq<Entry>, zero: bool, commit: bool)
    requires FreshMap(c, m, zero, commit)
    ensures MapOk(m, FreshTiles(c, commit), c.bias, c.binPages, !commit)
    ensures MapOk(m, FreshTiles(c, commit), c.bias, c.binPages, false) <==> commit
    ensures Whole(FreshTiles(c, commit), c.bias) && Apart(FreshTiles(c, commit), c.bias)
  {
    var t := FreshTiles(c, commit);
    forall p | c.bias <= p < |t| ensures TiledAt(t, c.bias, p) && Told(m, t[p], c.binPages, !commit) {
    }
    if MapOk(m, t, c.bias, c.binPages, false) {
      assert Told(m, t[c.bias], c.binPages, false);
    }
  }

  /** The pages of a new chunk are marked, unless they are known to be zero. */
  lemma FreshZero(c: Params, m: seq<Entry>, zero: bool, commit: bool, ch: nat)
    requires FreshMap(c, m, zero, commit)
    ensures forall nz :: (zero || !commit ==> NoneOf(c.bias, c.npages - c.bias, ch, nz)) ==>
              PagesOk(m, FreshTiles(c, commit), c.bias, ch, nz)
  {
  }

  lemma FreshMaps(c: Params, maps: map<nat, seq<Entry>>, tiles: Tiles, virgin: set<nat>, ch: nat,
                  m: seq<Entry>, zero: bool, commit: bool)
    requires MapsOk(c, maps, tiles, virgin) && ch !in tiles && FreshMap(c, m, zero, commit)
    ensures MapsOk(c, maps[ch := m], tiles[ch := FreshTiles(c, commit)], if commit then virgin else virgin + {ch})
  {
    FreshMapOk(c, m, zero, commit);
    hide MapOk, Whole, FreshTiles, FreshMap, Apart;
    var maps', tiles' := maps[ch := m], tiles[ch := FreshTiles(c, commit)];
    var virgin' := if commit then virgin else virgin + {ch};
    assert |FreshTiles(c, commit)| == c.npages by {
      MapLength(m, FreshTiles(c, commit), c, !commit);
    }
    forall k | k in tiles' ensures MapsAt(c, maps', tiles', virgin', k) {
      if k != ch {
        assert MapsAt(c, maps, tiles, virgin, k);
      }
    }
  }

  lemma FreshCounts(c: Params, tiles: Tiles, ndirty: nat, nactive: nat, ch: nat, t: seq<Run>)
    requires ch !in tiles && Whole(t, c.bias) && !t[c.bias].kind.dirty && Counts(c, tiles, None, ndirty, nactive)
    ensures Counts(c, tiles[ch := t], None, ndirty, nactive)
  {
    RecountChunk(tiles, c.bias, ch, t, t[c.bias].kind, true);
    RecountChunk(tiles, c.bias, ch, t, t[c.bias].kind, false);
  }

  lemma MapLength(m: seq<Entry>, t: seq<Run>, c: Params, exempt: bool)
    requires MapOk(m, t, c.bias, c.binPages, exempt)
    ensures |m| == |t|
  {
  }

  /** Cutting a large run in two keeps everything. */
  lemma CutCore(c: Params, maps: map<nat, seq<Entry>>, tiles: Tiles, virgin: set<nat>, spare: Option<nat>,
                free: map<Place, nat>, runsDirty: set<Place>, ndirty: nat, nactive: nat,
                ch: nat, p: nat, head: nat)
    requires MapsOk(c, maps, tiles, virgin) && SpareOk(c, tiles, virgin, spare) && AllApart(c, tiles)
    requires FreeIs(c, free, tiles, spare, None) && DirtyIs(c, runsDirty, tiles, None)
    requires Counts(c, tiles, None, ndirty, nactive)
    requires ch in tiles && UsedAt(tiles[ch], c.bias, p) && tiles[ch][p].kind.Large? && 0 < head < tiles[ch][p].pages
    ensures ch in maps && p < |maps[ch]| && maps[ch][p].size == tiles[ch][p].pages <= |maps[ch]| - p
    ensures var t := tiles[ch];
            var tiles' := tiles[ch := Halved(t, p, head)];
            && MapsOk(c, maps[ch := Cut(maps[ch], p, t[p].pages, head)], tiles', virgin)
            && SpareOk(c, tiles', virgin, spare) && AllApart(c, tiles')
            && FreeIs(c, free, tiles', spare, None) && DirtyIs(c, runsDirty, tiles', None)
            && Counts(c, tiles', None, ndirty, nactive)
  {
    MapOf(c, maps, tiles, virgin, ch);
    var t := tiles[ch];
    UsedChunk(c, maps, tiles, virgin, spare, ch, p);
    RunEnds(t, c.bias, p);
    ReadLarge(maps[ch], t, c.bias, c.binPages, p);
    CutMap(maps[ch], t, c.bias, c.binPages, p, head);
    CutApart(t, c.bias, p, head);
    CutIndexes(c, free, runsDirty, tiles, spare, ch, p, head);
    CutCounts(c, tiles, ndirty, nactive, ch, p, head);
    hide MapsOk, MapOk, FreeIs, DirtyIs, Counts, Apart, Whole, Cut, Halved, Tiled;
    OneMap(c, maps, tiles, virgin, ch, Cut(maps[ch], p, t[p].pages, head), Halved(t, p, head));
  }

  lemma CutCounts(c: Params, tiles: Tiles, ndirty: nat, nactive: nat, ch: nat, p: nat, head: nat)
    requires Counts(c, tiles, None, ndirty, nactive) && ch in tiles && Tiled(tiles[ch], c.bias)
    requires UsedAt(tiles[ch], c.bias, p) && 0 < head < tiles[ch][p].pages
    ensures Counts(c, tiles[ch := Halved(tiles[ch], p, head)], None, ndirty, nactive)
  {
    var t := tiles[ch];
    CutStarts(t, c.bias, p, head);
    Recount(tiles, c.bias, ch, Halved(t, p, head), p, p, t[p].kind, t[p].kind, true);
    Recount(tiles, c.bias, ch, Halved(t, p, head), p, p, t[p].kind, t[p].kind, false);
  }

  /** The two halves of a large run that was cut. */
  lemma HalvedRuns(t: seq<Run>, bias: nat, p: nat, head: nat)
    requires Tiled(t, bias) && UsedAt(t, bias, p) && 0 < head < t[p].pages
    ensures var t' := Halved(t, p, head);
            && UsedAt(t', bias, p) && t'[p] == Run(p, head, t[p].kind)
            && UsedAt(t', bias, p + head) && t'[p + head] == Run(p + head, t[p].pages - head, t[p].kind)
  {
    RunEnds(t, bias, p);
  }

  lemma FreshFacts(c: Params, commit: bool)
    requires c.bias < c.npages
    ensures var t := FreshTiles(c, commit);
            |t| == c.npages && FreeAt(t, c.bias, c.bias)
            && t[c.bias] == Run(c.bias, c.npages - c.bias, Free(false, !commit))
  {
  }

  lemma NewSpare(c: Params, maps: map<nat, seq<Entry>>, tiles: Tiles, virgin: set<nat>, spare: Option<nat>,
                 ch: nat, t: seq<Run>, commit: bool)
    requires ch !in tiles && SpareOk(c, tiles, virgin, spare)
    ensures SpareOk(c, tiles[ch := t], if commit then virgin else virgin + {ch}, spare) && spare != Some(ch)
  {
    hide Whole;
  }

  // ---------------------------------------------------------------- what validity promises

  ghost predicate Placed(tiles: Tiles, s: set<Place>) {
    forall x :: x in s ==> x.0 in tiles && x.1 < |tiles[x.0]|
  }

  /** The pages of the runs that start at the places in `s`. */
  ghost function PagesOf(tiles: Tiles, s: set<Place>): nat
    requires Placed(tiles, s)
  {
    if s == {} then 0
    else
      var x :| x in s;
      tiles[x.0][x.1].pages + PagesOf(tiles, s - {x})
  }

  /** The marked pages of runs that start in `s`. */
  ghost predicate StartsIn(c: Params, tiles: Tiles, s: set<Place>, dirtyPages: set<Place>) {
    forall x :: x in dirtyPages <==>
      x.0 in tiles && c.bias <= x.1 < |tiles[x.0]| && (x.0, tiles[x.0][x.1].start) in s
  }

  lemma PartSize(all: set<Place>, part: set<Place>)
    requires part <= all
    ensures |all| == |all - part| + |part|
  {
    assert all == (all - part) + part;
  }

  lemma TakeStart(c: Params, tiles: Tiles, s: set<Place>, covered: set<Place>, x: Place)
    requires forall ch :: ch in tiles ==> Tiled(tiles[ch], c.bias)
    requires StartsIn(c, tiles, s, covered) && x in s && x.0 in tiles && FreeAt(tiles[x.0], c.bias, x.1)
    ensures var r := tiles[x.0][x.1];
            var range := Range(x.0, r.start, r.End());
            && |covered| == |covered - range| + r.pages && StartsIn(c, tiles, s - {x}, covered - range)
  {
    var r := tiles[x.0][x.1];
    RunEnds(tiles[x.0], c.bias, x.1);
    forall y: Place | y.0 in tiles && c.bias <= y.1 < |tiles[y.0]|
      ensures y in Range(x.0, r.start, r.End()) <==> y.0 == x.0 && tiles[y.0][y.1].start == x.1
    {
      RunEnds(tiles[y.0], c.bias, y.1);
    }
    var range := Range(x.0, r.start, r.End());
    assert range <= covered;
    PartSize(covered, range);
    hide Tiled, FreeAt, Range;
  }

  lemma {:induction false} PagesOfAre(c: Params, tiles: Tiles, s: set<Place>, covered: set<Place>)
    requires forall ch :: ch in tiles ==> Tiled(tiles[ch], c.bias)
    requires forall x :: x in s ==> x.0 in tiles && FreeAt(tiles[x.0], c.bias, x.1)
    requires StartsIn(c, tiles, s, covered)
    ensures Placed(tiles, s) && PagesOf(tiles, s) == |covered|
    decreases s
  {
    assert Placed(tiles, s);
    if s == {} {
      assert covered == {};
    } else {
      hide Tiled, StartsIn, Range, FreeAt;
      var x :| x in s && PagesOf(tiles, s) == tiles[x.0][x.1].pages + PagesOf(tiles, s - {x});
      var r := tiles[x.0][x.1];
      var range := Range(x.0, r.start, r.End());
      TakeStart(c, tiles, s, covered, x);
      PagesOfAre(c, tiles, s - {x}, covered - range);
    }
  }

  /** `ndirty` is the sum of the pages of the dirty free runs. */
  lemma DirtySum(c: Params, maps: map<nat, seq<Entry>>, tiles: Tiles, virgin: set<nat>,
                 runsDirty: set<Place>, ndirty: nat, nactive: nat)
    requires MapsOk(c, maps, tiles, virgin) && DirtyIs(c, runsDirty, tiles, None)
    requires Counts(c, tiles, None, ndirty, nactive)
    ensures Placed(tiles, runsDirty) && ndirty == PagesOf(tiles, runsDirty)
  {
    forall ch | ch in tiles ensures Tiled(tiles[ch], c.bias) {
      MapOf(c, maps, tiles, virgin, ch);
    }
    forall x | x in runsDirty ensures x.0 in tiles && FreeAt(tiles[x.0], c.bias, x.1) {
      assert DirtyAt(c, tiles, None, x);
    }
    InPages(tiles, c.bias, true);
    var dirty := Pages(tiles, c.bias, true);
    assert StartsIn(c, tiles, runsDirty, dirty) by {
      forall x: Place | x.0 in tiles && c.bias <= x.1 < |tiles[x.0]|
        ensures x in dirty <==> (x.0, tiles[x.0][x.1].start) in runsDirty
      {
        DirtyStart(c, runsDirty, tiles, x);
      }
    }
    PagesOfAre(c, tiles, runsDirty, dirty);
  }

  lemma DirtyStart(c: Params, runsDirty: set<Place>, tiles: Tiles, x: Place)
    requires x.0 in tiles && Tiled(tiles[x.0], c.bias) && c.bias <= x.1 < |tiles[x.0]|
    requires DirtyIs(c, runsDirty, tiles, None)
    ensures Counted(tiles, c.bias, true, x) <==> (x.0, tiles[x.0][x.1].start) in runsDirty
  {
    RunEnds(tiles[x.0], c.bias, x.1);
    var s := (x.0, tiles[x.0][x.1].start);
    assert s in runsDirty <==> DirtyAt(c, tiles, None, s);
  }

  /** The first and last map entries of every run agree, except in a virgin chunk. */
  lemma EndsAgree(c: Params, maps: map<nat, seq<Entry>>, tiles: Tiles, virgin: set<nat>, ch: nat, p: nat)
    requires MapsOk(c, maps, tiles, virgin) && ch in tiles && c.bias <= p < |tiles[ch]| && ch !in virgin
    ensures ch in maps && tiles[ch][p].pages > 0 && tiles[ch][p].End() <= |maps[ch]|
    ensures var r := tiles[ch][p];
            var first, last := maps[ch][r.start], maps[ch][r.End() - 1];
            && first.used == last.used == !r.kind.Free? && first.large == last.large == r.kind.Large?
            && first.dirty == last.dirty && first.decommitted == last.decommitted
            && (r.kind.Free? ==> first.size == last.size == r.pages)
            && (r.kind.Large? ==> first.size == r.pages && (r.pages == 1 || last.size == 0))
            && (r.kind.Small? ==> first.binind == last.binind && first.size == 0 && last.size == r.pages - 1)
  {
    MapOf(c, maps, tiles, virgin, ch);
    EntriesOf(maps[ch], tiles[ch], c.bias, c.binPages, false, p);
    RunEnds(tiles[ch], c.bias, p);
  }

  /** A free run outside the spare chunk is in the heap of its size and in no other. */
  lemma OneHeap(c: Params, maps: map<nat, seq<Entry>>, tiles: Tiles, virgin: set<nat>, spare: Option<nat>,
                avail: seq<set<Place>>, free: map<Place, nat>, ch: nat, p: nat, k: nat)
    requires ParamsOk(c) && MapsOk(c, maps, tiles, virgin) && Indexed(c, avail, free)
    requires FreeIs(c, free, tiles, spare, None) && k < |avail|
    requires ch in tiles && FreeAt(tiles[ch], c.bias, p)
    ensures 0 < tiles[ch][p].pages < c.npages
    ensures (ch, p) in avail[k] <==> spare != Some(ch) && k == Heap(c, tiles[ch][p].pages)
  {
    HandFits(c, maps, tiles, virgin, ch, p);
    hide Heap;
    assert (ch, p) in free <==> Indexable(c, tiles, spare, None, (ch, p));
  }

  lemma TableOf(c: Params)
    requires ParamsOk(c)
    ensures Table(c.classes) && |c.classes| > c.chunk && c.classes[c.chunk] == c.npages * c.page
    ensures forall i, j :: 0 <= i <= j < |c.classes| ==> c.classes[i] <= c.classes[j]
  {
  }

  /** No free run that the heaps hold reaches the rounded request. */
  ghost predicate NoneReaches(c: Params, tiles: Tiles, spare: Option<nat>, need: nat) {
    && ParamsOk(c) && 0 < need < c.npages
    && forall x: Place :: Indexable(c, tiles, spare, None, x) ==> tiles[x.0][x.1].pages * c.page < Ceil(c, need)
  }

  /** What the heaps hold, from the first one that a request looks at. */
  lemma HeapsHold(c: Params, tiles: Tiles, spare: Option<nat>, avail: seq<set<Place>>, free: map<Place, nat>, need: nat)
    requires ParamsOk(c) && Indexed(c, avail, free) && FreeIs(c, free, tiles, spare, None) && 0 < need < c.npages
    ensures |avail| == |c.classes|
    ensures var pind := Ind(c.classes, Ceil(c, need));
            && (forall k, x :: pind <= k < |avail| && x in avail[k] ==>
                  x.0 in tiles && spare != Some(x.0) && FreeAt(tiles[x.0], c.bias, x.1)
                  && need <= tiles[x.0][x.1].pages)
            && ((forall k :: pind <= k <= c.chunk ==> avail[k] == {}) ==> NoneReaches(c, tiles, spare, need))
  {
    hide Ind, IndFrom, Heap, Ceil, PageTable;
    var pind := Ind(c.classes, Ceil(c, need));
    forall x | x in free
      ensures Heap(c, free[x]) <= c.chunk && (Heap(c, free[x]) >= pind <==> free[x] * c.page >= Ceil(c, need))
      ensures Heap(c, free[x]) >= pind ==> free[x] >= need
    {
      LookedAt(c, free[x], need);
    }
    forall k, x | pind <= k < |avail| && x in avail[k]
      ensures x.0 in tiles && spare != Some(x.0) && FreeAt(tiles[x.0], c.bias, x.1) && need <= tiles[x.0][x.1].pages
    {
      assert Indexable(c, tiles, spare, None, x);
    }
    if forall k :: pind <= k <= c.chunk ==> avail[k] == {} {
      forall x: Place | Indexable(c, tiles, spare, None, x) ensures tiles[x.0][x.1].pages * c.page < Ceil(c, need) {
        assert x in free;
        assert x in avail[Heap(c, free[x])];
      }
    }
  }

  /** arena_snad_comp(): the run in the oldest chunk first, then the lowest address. */
  predicate PlaceLeq(sn: nat -> nat, x: Place, y: Place) {
    sn(x.0) < sn(y.0) || (sn(x.0) == sn(y.0) && (x.0 < y.0 || (x.0 == y.0 && x.1 <= y.1)))
  }

  ghost predicate IsFirst(sn: nat -> nat, h: set<Place>, x: Place) {
    x in h && forall y :: y in h ==> PlaceLeq(sn, x, y)
  }

  lemma {:induction false} FirstOf(sn: nat -> nat, h: set<Place>)
    requires h != {}
    ensures exists x :: IsFirst(sn, h, x)
    decreases h
  {
    var x :| x in h;
    if h == {x} {
      assert IsFirst(sn, h, x);
    } else {
      assert h - {x} != {};
      FirstOf(sn, h - {x});
      var z :| IsFirst(sn, h - {x}, z);
      assert forall y :: y in h ==> y == x || y in h - {x};
      assert IsFirst(sn, h, if PlaceLeq(sn, x, z) then x else z);
    }
  }

  /** A run that the heaps hold and that reaches `bytes`. */
  ghost predicate Reaches(c: Params, tiles: Tiles, spare: Option<nat>, bytes: nat, x: Place) {
    Indexable(c, tiles, spare, None, x) && tiles[x.0][x.1].pages * c.page >= bytes
  }

  /** Of the runs that reach the rounded request `x` is in the smallest class, and first in its heap. */
  ghost predicate Best(c: Params, tiles: Tiles, spare: Option<nat>, sn: nat -> nat, need: nat, x: Place) {
    && ParamsOk(c) && 0 < need < c.npages && Reaches(c, tiles, spare, Ceil(c, need), x)
    && forall y: Place :: Reaches(c, tiles, spare, Ceil(c, need), y) ==>
         var m, n := tiles[x.0][x.1].pages, tiles[y.0][y.1].pages;
         && 0 < m < c.npages && 0 < n < c.npages
         && (Heap(c, m) < Heap(c, n) || (Heap(c, m) == Heap(c, n) && PlaceLeq(sn, x, y)))
  }

  /** The first run of the first heap that is not empty is the best. */
  lemma FirstIsBest(c: Params, tiles: Tiles, spare: Option<nat>, avail: seq<set<Place>>, free: map<Place, nat>,
                    sn: nat -> nat, need: nat, i: nat, x: Place)
    requires ParamsOk(c) && Indexed(c, avail, free) && FreeIs(c, free, tiles, spare, None) && 0 < need < c.npages
    requires Ind(c.classes, Ceil(c, need)) <= i < |avail| && IsFirst(sn, avail[i], x)
    requires forall k :: Ind(c.classes, Ceil(c, need)) <= k < i ==> avail[k] == {}
    ensures Best(c, tiles, spare, sn, need, x)
  {
    hide Ind, IndFrom, Heap, Ceil, PageTable;
    assert x in free && Heap(c, free[x]) == i;
    LookedAt(c, free[x], need);
    forall y: Place | Reaches(c, tiles, spare, Ceil(c, need), y)
      ensures y in free && 0 < free[y] < c.npages
      ensures i < Heap(c, free[y]) || (i == Heap(c, free[y]) && PlaceLeq(sn, x, y))
    {
      assert y in free;
      LookedAt(c, free[y], need);
      assert y in avail[Heap(c, free[y])];
    }
  }

  class Arena {
    const c: Params
    var maps: map<nat, seq<Entry>>
    var avail: seq<set<Place>>
    var runsDirty: set<Place>
    var ndirty: nat
    var nactive: nat
    var spare: Option<nat>
    ghost var tiles: Tiles
    ghost var virgin: set<nat>
    ghost var free: map<Place, nat>

    /** All but that no two neighbours could be coalesced; the run in hand is not indexed. */
    ghost predicate Core(hand: Option<Place>)
      reads this
    {
      && ParamsOk(c) && MapsOk(c, maps, tiles, virgin) && SpareOk(c, tiles, virgin, spare)
      && Indexed(c, avail, free) && FreeIs(c, free, tiles, spare, hand) && DirtyIs(c, runsDirty, tiles, hand)
      && Counts(c, tiles, hand, ndirty, nactive)
    }

    ghost predicate Valid()
      reads this
    {
      Core(None) && AllApart(c, tiles)
    }

    constructor (c: Params)
      requires ParamsOk(c)
      ensures Valid() && this.c == c && tiles == map[] && spare == None
    {
      this.c := c;
      maps, tiles, virgin, free, spare := map[], map[], {}, map[], None;
      avail := seq(|c.classes|, i => {});
      runsDirty, ndirty, nactive := {}, 0, 0;
      new;
      assert Pages(tiles, c.bias, true) == {} == Pages(tiles, c.bias, false);
    }

    /** A free run that the heaps offer, large enough for `need` pages. */
    ghost predicate CanSplit(ch: nat, p: nat, need: nat)
      reads this
    {
      ch in tiles && spare != Some(ch) && FreeAt(tiles[ch], c.bias, p) && 0 < need <= tiles[ch][p].pages
    }

    /** arena_run_split_remove(): takes `need` pages of a free run out of the indexes, and gives the
        rest back. */
    method SplitRemove(ch: nat, p: nat, need: nat)
      requires Valid() && CanSplit(ch, p, need)
      modifies this`maps, this`avail, this`free, this`runsDirty, this`ndirty, this`nactive
      ensures var r := tiles[ch][p];
              && ch in old(maps) && p + r.pages <= |old(maps[ch])|
              && maps == old(maps)[ch := Remainder(old(maps[ch]), p, need, r.pages, r.kind.dirty, r.kind.decommitted)]
              && free == SplitFree(old(free), ch, p, need, r.pages) && Indexed(c, avail, free)
              && runsDirty == (if r.kind.dirty then SplitDirty(old(runsDirty), ch, p, need, r.pages) else old(runsDirty))
              && ndirty == old(ndirty) - (if r.kind.dirty then need else 0)
              && nactive == old(nactive) + need
    {
      hide MapsOk, SpareOk, Indexed, FreeIs, DirtyIs, Counts, Heap, Insert, Remove, Remainder, AllApart, ParamsOk;
      ghost var r := tiles[ch][p];
      SplitReads(c, maps, tiles, virgin, ch, p);
      MapOf(c, maps, tiles, virgin, ch);
      SplitIndexes(c, tiles, spare, free, ndirty, nactive, ch, p, need);
      var m := maps[ch];
      var total := m[p].size;
      var dirty, decommitted := m[p].dirty, m[p].decommitted;
      assert m[p + total - 1].dirty == dirty;
      var rem := total - need;
      RemoveIndexed(c, avail, free, (ch, p));
      avail := Remove(c, avail, (ch, p), total);
      free := free - {(ch, p)};
      if dirty {
        runsDirty, ndirty := runsDirty - {(ch, p)}, ndirty - total;
      }
      nactive := nactive + need;
      if rem > 0 {
        if dirty {
          runsDirty, ndirty := runsDirty + {(ch, p + need)}, ndirty + rem;
        }
        InsertIndexed(c, avail, free, (ch, p + need), rem);
        avail := Insert(c, avail, (ch, p + need), rem);
        free := free[(ch, p + need) := rem];
      }
      maps := maps[ch := Remainder(m, p, need, total, dirty, decommitted)];
    }

    /** arena_run_split_large_helper(), for a run that the heaps hold: fails, leaving everything as it
        was, exactly when the pages are decommitted and cannot be committed. */
    method SplitLarge(ch: nat, p: nat, need: nat, commitOk: bool, zero: bool) returns (failed: bool, zeroed: set<nat>)
      requires Valid() && CanSplit(ch, p, need)
      modifies this
      ensures Valid() && spare == old(spare)
      ensures failed <==> old(tiles[ch][p]).kind.decommitted && !commitOk
      ensures failed ==> tiles == old(tiles) && maps == old(maps) && avail == old(avail)
      ensures failed ==> ndirty == old(ndirty) && nactive == old(nactive) && runsDirty == old(runsDirty)
      ensures !failed ==>
                tiles == old(tiles)[ch := Taken(old(tiles[ch]), p, need, Large(old(tiles[ch][p]).kind.dirty))]
      ensures !failed ==> SplitPages(old(tiles[ch]), tiles[ch], p, need, Large(old(tiles[ch][p]).kind.dirty))
      ensures ZeroKept(c.bias, old(maps), old(tiles), maps, tiles)
      ensures !failed && !old(tiles[ch][p]).kind.dirty ==>
                ch in maps && ZeroKnown(c.bias, old(maps), old(tiles), maps[ch], p, need, ch)
      ensures forall i :: i in zeroed ==> p <= i < p + need
      ensures !failed && zero ==> Zeroes(c.bias, old(maps), old(tiles), p, need, ch, zeroed)
      ensures !failed && !zero ==> zeroed == {}
      ensures !old(tiles[ch][p]).kind.dirty ==>
                ch in old(maps) && forall i :: i in zeroed ==> i < |old(maps[ch])| && old(maps[ch])[i].unzeroed
    {
      hide MapsOk, SpareOk, Indexed, FreeIs, DirtyIs, Counts, Remainder, LargeEnds, Taken, AllApart, ParamsOk,
           SplitFree, SplitDirty, Pending, SplitPages, ZeroKept, ZeroKnown, Zeroes, HasRun, ToZero;
      zeroed := {};
      KeptSame(c.bias, maps, tiles);
      ghost var r := tiles[ch][p];
      TakenPages(tiles[ch], p, need, Large(tiles[ch][p].kind.dirty));
      SplitReads(c, maps, tiles, virgin, ch, p);
      var dirty, decommitted := maps[ch][p].dirty, maps[ch][p].decommitted;
      if decommitted && !commitOk {
        return true, {};
      }
      TakenCore(c, maps, tiles, virgin, spare, free, runsDirty, ndirty, nactive, ch, p, need, Large(dirty));
      SplitLargeMapAt(c, maps, tiles, virgin, ch, p, need);
      SplitLargeZeroAt(c, maps, tiles, virgin, ch, p, need);
      ZeroingEnough(c, maps, tiles, virgin, ch, p, need);
      SplitRemove(ch, p, need);
      if zero {
        zeroed := ZeroPages(maps[ch], p, need, dirty, decommitted);
      }
      maps := maps[ch := LargeEnds(maps[ch], p, need, dirty, decommitted)];
      assert maps == old(maps)[ch := maps[ch]];
      tiles, virgin := tiles[ch := Taken(tiles[ch], p, need, Large(dirty))], virgin - {ch};
      return false, zeroed;
    }

    /** The part of arena_run_split_large_helper() that makes a run zero: every page of a dirty one, none of one that
        was decommitted, and of others those that are marked. */
    method ZeroPages(m: seq<Entry>, p: nat, need: nat, dirty: bool, decommitted: bool) returns (zeroed: set<nat>)
      requires p + need <= |m|
      ensures zeroed == ToZero(m, p, need, dirty, decommitted)
    {
      if decommitted {
        return {};
      }
      zeroed := {};
      for i := 0 to need
        invariant zeroed == set k: nat | p <= k < p + i && (dirty || m[k].unzeroed)
      {
        if dirty || m[p + i].unzeroed {
          zeroed := zeroed + {p + i};
        }
      }
    }

    /** arena_run_split_small(): likewise for a run of the bin `binind`. */
    method SplitSmall(ch: nat, p: nat, need: nat, binind: nat, commitOk: bool) returns (failed: bool)
      requires Valid() && CanSplit(ch, p, need) && binind < |c.binPages| && need == c.binPages[binind]
      modifies this
      ensures Valid() && spare == old(spare)
      ensures failed <==> old(tiles[ch][p]).kind.decommitted && !commitOk
      ensures failed ==> tiles == old(tiles) && maps == old(maps) && avail == old(avail)
      ensures failed ==> ndirty == old(ndirty) && nactive == old(nactive) && runsDirty == old(runsDirty)
      ensures !failed ==> tiles == old(tiles)[ch := Taken(old(tiles[ch]), p, need, Small(binind))]
      ensures !failed ==> SplitPages(old(tiles[ch]), tiles[ch], p, need, Small(binind))
      ensures ZeroKept(c.bias, old(maps), old(tiles), maps, tiles)
    {
      hide MapsOk, SpareOk, Indexed, FreeIs, DirtyIs, Counts, Remainder, SmallPages, Taken, AllApart, ParamsOk,
           SplitFree, SplitDirty, Pending, SplitPages, ZeroKept, HasRun;
      KeptSame(c.bias, maps, tiles);
      ghost var r := tiles[ch][p];
      TakenPages(tiles[ch], p, need, Small(binind));
      SplitReads(c, maps, tiles, virgin, ch, p);
      if maps[ch][p].decommitted && !commitOk {
        return true;
      }
      TakenCore(c, maps, tiles, virgin, spare, free, runsDirty, ndirty, nactive, ch, p, need, Small(binind));
      SplitSmallMapAt(c, maps, tiles, virgin, ch, p, need, binind);
      SplitSmallZeroAt(c, maps, tiles, virgin, ch, p, need, binind);
      SplitRemove(ch, p, need);
      var m := MarkSmall(maps[ch], p, need, binind);
      maps := maps[ch := m];
      assert maps == old(maps)[ch := maps[ch]];
      tiles, virgin := tiles[ch := Taken(tiles[ch], p, need, Small(binind))], virgin - {ch};
      return false;
    }

    /** The loop over the pages of a small run. */
    method MarkSmall(m0: seq<Entry>, p: nat, need: nat, binind: nat) returns (m: seq<Entry>)
      requires p + need <= |m0|
      ensures m == SmallPages(m0, p, p + need, binind)
    {
      m := m0;
      for i := 0 to need
        invariant m == SmallPages(m0, p, p + i, binind)
      {
        m := m[p + i := SmallEntry(i, binind, m[p + i].unzeroed)];
      }
    }

    /** A free run that is in hand: marked free in the map, but not indexed. */
    ghost predicate InHand(ch: nat, p: nat)
      reads this
    {
      && Core(Some((ch, p))) && ch in tiles && spare != Some(ch) && ch !in virgin
      && FreeAt(tiles[ch], c.bias, p) && tiles[ch][p].pages > 0
    }

    /** One half of arena_run_coalesce(): the free run at `x`, a neighbour of the run in hand, leaves
        the indexes, and the new size is written at both ends. */
    method Absorb(ch: nat, p: nat, q: nat, n: nat, x: nat, k: nat, dirty: bool)
      requires InHand(ch, if x == p then q else p) && (x == p || x == q) && p < q
      requires FreeAt(tiles[ch], c.bias, p) && FreeAt(tiles[ch], c.bias, q) && tiles[ch][p].End() == q
      requires tiles[ch][p].kind == tiles[ch][q].kind && dirty == tiles[ch][p].kind.dirty
      requires n == tiles[ch][p].pages + tiles[ch][q].pages && k == tiles[ch][x].pages
      modifies this
      ensures InHand(ch, p) && tiles == old(tiles)[ch := Joined(old(tiles[ch]), p, q)]
      ensures tiles[ch][p] == Run(p, n, old(tiles[ch][p]).kind)
      ensures spare == old(spare) && virgin == old(virgin) && nactive == old(nactive)
      ensures ZeroKept(c.bias, old(maps), old(tiles), maps, tiles)
    {
      hide MapsOk, SpareOk, Indexed, FreeIs, DirtyIs, Counts, Resized, Joined, Remove, ParamsOk, Pending, ZeroKept, HasRun;
      JoinZeroAt(c, maps, tiles, virgin, ch, p, q);
      JoinedCore(c, maps, tiles, virgin, spare, free, runsDirty, ndirty, nactive, ch, p, q,
                 if x == p then q else p, x);
      JoinMapAt(c, maps, tiles, virgin, ch, p, q);
      JoinedStartsAt(c, maps, tiles, virgin, ch, p, q);
      RemoveIndexed(c, avail, free, (ch, x));
      avail, free := Remove(c, avail, (ch, x), k), free - {(ch, x)};
      if dirty {
        runsDirty, ndirty := runsDirty - {(ch, x)}, ndirty - k;
      }
      maps := maps[ch := Resized(maps[ch], p, n)];
      tiles := tiles[ch := Joined(tiles[ch], p, q)];
    }

    /** arena_run_coalesce(): grows the run in hand over its free neighbours of the same kind. */
    method Coalesce(ch: nat, runInd: nat, runPages: nat, dirty: bool, decommitted: bool)
      returns (p: nat, n: nat)
      requires InHand(ch, runInd) && tiles[ch][runInd] == Run(runInd, runPages, Free(dirty, decommitted))
      modifies this
      ensures InHand(ch, p) && tiles[ch][p] == Run(p, n, Free(dirty, decommitted))
      ensures spare == old(spare) && virgin == old(virgin) && nactive == old(nactive)
      ensures Run(p, n, Free(dirty, decommitted)) == Coalesced(old(tiles[ch]), c.bias, old(tiles[ch][runInd]))
      ensures tiles == old(tiles)[ch := Paint(old(tiles[ch]),
                                              Coalesced(old(tiles[ch]), c.bias, old(tiles[ch][runInd])), NO_RUN)]
      ensures ZeroKept(c.bias, old(maps), old(tiles), maps, tiles)
    {
      hide MapsOk, SpareOk, Indexed, FreeIs, DirtyIs, Counts, Resized, Joined, ParamsOk, Pending, Coalesced, Paint,
           ZeroKept;
      KeptSame(c.bias, maps, tiles);
      p, n := runInd, runPages;
      ghost var t := tiles[ch];
      CoalescedStepsAt(c, maps, tiles, virgin, ch, p);
      ReadNeighbours(c, maps, tiles, virgin, ch, p);
      if p + n < c.npages && Joins(maps[ch][p + n], dirty, decommitted) {
        var k := maps[ch][p + n].size;
        Absorb(ch, p, p + n, n + k, p + n, k, dirty);
        n := n + k;
      }
      ReadNeighbours(c, maps, tiles, virgin, ch, p);
      if p > c.bias && Joins(maps[ch][p - 1], dirty, decommitted) {
        var k := maps[ch][p - 1].size;
        ghost var maps1, tiles1 := maps, tiles;
        Absorb(ch, p - k, p, n + k, p - k, k, dirty);
        KeptTwice(c.bias, old(maps), old(tiles), maps1, tiles1, maps, tiles);
        p, n := p - k, n + k;
      }
    }

    /** arena_chunk_dalloc(): an unused chunk becomes the spare, and the old spare is given back. */
    method ChunkDalloc(ch: nat)
      requires Valid() && ch in tiles && spare != Some(ch) && ch !in virgin && Whole(tiles[ch], c.bias)
      modifies this
      ensures Valid() && spare == Some(ch) && tiles == Without(old(tiles), old(spare)) && nactive == old(nactive)
      ensures ZeroKept(c.bias, old(maps), old(tiles), maps, tiles)
    {
      hide MapsOk, Indexed, FreeIs, DirtyIs, Counts, Remove, ParamsOk, Whole;
      ReadWhole(c, maps, tiles, virgin, ch);
      SpareFree(c, free, runsDirty, tiles, spare, ch);
      RemoveIndexed(c, avail, free, (ch, c.bias));
      avail, free := Remove(c, avail, (ch, c.bias), c.npages - c.bias), free - {(ch, c.bias)};
      var former := spare;
      spare := Some(ch);
      if former.Some? {
        SpareDiscard(former.value);
      }
      LessKept(c.bias, old(maps), old(tiles), maps, tiles);
    }

    /** arena_spare_discard() */
    method SpareDiscard(sp: nat)
      requires ParamsOk(c) && MapsOk(c, maps, tiles, virgin) && SpareOk(c, tiles, virgin, spare) && AllApart(c, tiles)
      requires sp in tiles && sp !in virgin && spare != Some(sp) && Whole(tiles[sp], c.bias)
      requires DirtyIs(c, runsDirty, tiles, None) && Counts(c, tiles, None, ndirty, nactive)
      modifies this`maps, this`tiles, this`runsDirty, this`ndirty
      ensures MapsOk(c, maps, tiles, virgin) && SpareOk(c, tiles, virgin, spare) && AllApart(c, tiles)
      ensures DirtyIs(c, runsDirty, tiles, None) && Counts(c, tiles, None, ndirty, nactive)
      ensures tiles == old(tiles) - {sp} && maps == old(maps) - {sp}
    {
      hide MapsOk, DirtyIs, Counts, ParamsOk, Whole;
      ReadWhole(c, maps, tiles, virgin, sp);
      DiscardMaps(c, maps, tiles, virgin, sp);
      DiscardDirty(c, runsDirty, tiles, sp);
      DiscardCounts(c, tiles, ndirty, nactive, sp);
      if maps[sp][c.bias].dirty {
        runsDirty, ndirty := runsDirty - {(sp, c.bias)}, ndirty - (c.npages - c.bias);
      }
      maps, tiles := maps - {sp}, tiles - {sp};
    }

    /** The first part of arena_run_dalloc(): the run is marked free, and is in hand. */
    method MarkFree(ch: nat, p: nat, dirty: bool, cleaned: bool, decommitted: bool) returns (n: nat, d: bool)
      requires Valid() && ch in tiles && UsedAt(tiles[ch], c.bias, p) && !(dirty && decommitted)
      modifies this`nactive, this`maps, this`tiles
      ensures InHand(ch, p) && n == old(tiles[ch][p].pages) <= old(nactive) && nactive == old(nactive) - n
      ensures d == BecomesDirty(old(tiles[ch][p].kind), dirty, cleaned, decommitted)
      ensures tiles == old(tiles)[ch := Paint(old(tiles[ch]), Run(p, n, Free(d, decommitted)), NO_RUN)]
      ensures ZeroFreed(c.bias, old(maps), old(tiles), maps, tiles, ch, p, n, d, decommitted)
    {
      hide MapsOk, SpareOk, Indexed, FreeIs, DirtyIs, Counts, ParamsOk, Pending, FreeEnds, AllApart, Paint, ZeroFreed,
           HasRun;
      UsedChunk(c, maps, tiles, virgin, spare, ch, p);
      ReadUsed(c, maps, tiles, virgin, ch, p);
      var e := maps[ch][p];
      n := if e.large then e.size else c.binPages[e.binind];
      d := dirty || (!cleaned && !decommitted && e.dirty);
      FreedCore(c, maps, tiles, virgin, spare, free, runsDirty, ndirty, nactive, ch, p, Free(d, decommitted));
      FreeMapAt(c, maps, tiles, virgin, ch, p, d, decommitted);
      FreeZeroAt(c, maps, tiles, virgin, ch, p, d, decommitted);
      FreedStartsAt(c, maps, tiles, virgin, ch, p, Free(d, decommitted));
      nactive := nactive - n;
      maps := maps[ch := FreeEnds(maps[ch], p, n, d, decommitted)];
      tiles := tiles[ch := Paint(tiles[ch], Run(p, n, Free(d, decommitted)), NO_RUN)];
    }

    lemma FreeFits(ch: nat, p: nat, dirty: bool, cleaned: bool, decommitted: bool)
      requires Valid() && ch in tiles && UsedAt(tiles[ch], c.bias, p)
      ensures var r := tiles[ch][p];
              var kept := r.kind.Large? && r.kind.dirty && !cleaned && !decommitted;
              var (tiles', spare') := AfterFree(c, tiles, spare, ch, p,
                                                Free(BecomesDirty(r.kind, dirty, cleaned, decommitted), decommitted));
              && SpareRule(c, tiles, spare, tiles', spare', ch)
              && Released(tiles[ch], tiles'[ch], c.bias, p, r.End(), Free(dirty || kept, decommitted), NO_RUN)
    {
      MapOf(c, maps, tiles, virgin, ch);
      UsedChunk(c, maps, tiles, virgin, spare, ch, p);
      var r := tiles[ch][p];
      BecomesIs(r.kind, dirty, cleaned, decommitted);
      hide MapsOk, Indexed, FreeIs, DirtyIs, Counts, SpareOk, Apart, UsedAt, AfterFree, SpareRule, Released, BecomesDirty;
      AfterFreeIs(c, tiles, spare, ch, p, Free(BecomesDirty(r.kind, dirty, cleaned, decommitted), decommitted));
    }

    /** arena_run_dalloc(): the run becomes free, grows over its free neighbours of the same kind, and
        is indexed; a chunk that is unused now becomes the spare. */
    method RunDalloc(ch: nat, p: nat, dirty: bool, cleaned: bool, decommitted: bool)
      requires Valid() && ch in tiles && UsedAt(tiles[ch], c.bias, p) && !(dirty && decommitted)
      modifies this
      ensures Valid() && nactive == old(nactive) - old(tiles[ch][p].pages)
      ensures (tiles, spare) == AfterFree(c, old(tiles), old(spare), ch, p,
                                          Free(BecomesDirty(old(tiles[ch][p].kind), dirty, cleaned, decommitted),
                                               decommitted))
      ensures ch in tiles && SpareRule(c, old(tiles), old(spare), tiles, spare, ch)
      ensures var r := old(tiles[ch][p]);
              var kept := r.kind.Large? && r.kind.dirty && !cleaned && !decommitted;
              Released(old(tiles[ch]), tiles[ch], c.bias, p, r.End(), Free(dirty || kept, decommitted), NO_RUN)
      ensures ZeroFreed(c.bias, old(maps), old(tiles), maps, tiles, ch, p, old(tiles[ch][p]).pages,
                        BecomesDirty(old(tiles[ch][p].kind), dirty, cleaned, decommitted), decommitted)
    {
      hide MapsOk, SpareOk, Indexed, FreeIs, DirtyIs, Counts, ParamsOk, Pending, Coalesced, Paint,
           Whole, Freed, Apart, UsedAt, BecomesDirty, ZeroKept, ZeroFreed;
      ghost var t := tiles[ch];
      MapOf(c, maps, tiles, virgin, ch);
      FreeFits(ch, p, dirty, cleaned, decommitted);
      hide SpareRule, Released;
      var n, d := MarkFree(ch, p, dirty, cleaned, decommitted);
      ghost var kind := Free(d, decommitted);
      FreedThenCoalesced(t, c.bias, p, kind);
      FreedWhole(t, c.bias, p, kind);
      ghost var maps1, tiles1 := maps, tiles;
      var q, k := Coalesce(ch, p, n, d, decommitted);
      FreedThenKept(c.bias, old(maps), old(tiles), maps1, tiles1, maps, tiles, ch, p, n, d, decommitted);
      ghost var maps2, tiles2 := maps, tiles;
      assert tiles == old(tiles)[ch := Freed(t, c.bias, p, kind)];
      Settle(ch, q, k, d);
      if k == c.npages - c.bias {
        ChunkDalloc(ch);
        FreedThenKept(c.bias, old(maps), old(tiles), maps2, tiles2, maps, tiles, ch, p, n, d, decommitted);
      }
    }

    /** The run in hand joins the indexes. */
    method Settle(ch: nat, p: nat, n: nat, dirty: bool)
      requires InHand(ch, p) && n == tiles[ch][p].pages && dirty == tiles[ch][p].kind.dirty && AllApart(c, tiles)
      modifies this`avail, this`free, this`runsDirty, this`ndirty
      ensures Valid()
    {
      hide MapsOk, SpareOk, Indexed, FreeIs, DirtyIs, Counts, ParamsOk, Pending, Insert, AllApart;
      HandFits(c, maps, tiles, virgin, ch, p);
      HandIn(c, free, runsDirty, tiles, spare, (ch, p));
      PutBack(c, tiles, (ch, p), ndirty, nactive);
      InsertIndexed(c, avail, free, (ch, p), n);
      avail, free := Insert(c, avail, (ch, p), n), free[(ch, p) := n];
      if dirty {
        runsDirty, ndirty := runsDirty + {(ch, p)}, ndirty + n;
      }
    }

    /** arena_chunk_alloc() with a spare: it is offered again. */
    method TakeSpare() returns (ch: nat)
      requires Valid() && spare.Some?
      modifies this`spare, this`avail, this`free
      ensures Valid() && spare == None && Some(ch) == old(spare) && CanSplit(ch, c.bias, c.npages - c.bias)
    {
      hide MapsOk, Indexed, FreeIs, DirtyIs, Counts, Insert, Whole;
      ch := spare.value;
      ReadWhole(c, maps, tiles, virgin, ch);
      SpareBack(c, free, tiles, ch);
      WholeStarts(tiles[ch], c.bias);
      InsertIndexed(c, avail, free, (ch, c.bias), c.npages - c.bias);
      spare := None;
      avail, free := Insert(c, avail, (ch, c.bias), c.npages - c.bias), free[(ch, c.bias) := c.npages - c.bias];
    }

    /** The map that arena_chunk_init_hard() writes. */
    method FreshEntries(zero: bool, commit: bool) returns (m: seq<Entry>)
      requires ParamsOk(c)
      ensures FreshMap(c, m, zero, commit)
    {
      var n, unzeroed := c.npages - c.bias, !zero && commit;
      var blank := Entry(false, false, false, false, false, 0, 0);
      m := seq(c.npages, i => blank);
      m := m[c.bias := Unallocated(n, false, !commit, unzeroed)];
      if !zero {
        for i := c.bias + 1 to c.npages - 1
          invariant |m| == c.npages && m[c.bias] == Unallocated(n, false, !commit, unzeroed)
          invariant forall k :: c.bias < k < c.npages ==> Sound(m[k])
          invariant forall k :: c.bias < k < i ==> m[k].unzeroed == unzeroed
        {
          m := m[i := blank.(unzeroed := unzeroed)];
        }
      }
      m := m[c.npages - 1 := Unallocated(n, false, false, unzeroed)];
    }

    /** arena_chunk_init_hard() and the rest of arena_chunk_alloc(), once a chunk was obtained: its map
        holds one maximal untouched run.  The lock was dropped to obtain the chunk, so nothing is
        assumed about the spare. */
    method AddChunk(ch: nat, zero: bool, commit: bool)
      requires Valid() && ch !in tiles
      modifies this
      ensures Valid() && spare == old(spare) && ndirty == old(ndirty) && nactive == old(nactive)
      ensures tiles == old(tiles)[ch := FreshTiles(c, commit)] && CanSplit(ch, c.bias, c.npages - c.bias)
      ensures ch in maps && FreshMap(c, maps[ch], zero, commit)
      ensures ZeroAdded(c.bias, old(maps), old(tiles), maps, tiles, ch, c.npages, zero || !commit)
    {
      hide MapsOk, Indexed, FreeIs, DirtyIs, Counts, Insert, Whole, FreshTiles, SpareOk, FreshMap, ZeroAdded, ParamsOk;
      var m := FreshEntries(zero, commit);
      var n := c.npages - c.bias;
      ghost var t := FreshTiles(c, commit);
      FreshMapOk(c, m, zero, commit);
      FreshFacts(c, commit);
      FreshZero(c, m, zero, commit, ch);
      OneAdded(c.bias, maps, tiles, ch, m, t, c.npages, zero || !commit);
      FreshMaps(c, maps, tiles, virgin, ch, m, zero, commit);
      NewSpare(c, maps, tiles, virgin, spare, ch, t, commit);
      NewFree(c, free, tiles, spare, ch, t);
      NewDirty(c, runsDirty, tiles, ch, t);
      FreshCounts(c, tiles, ndirty, nactive, ch, t);
      InsertIndexed(c, avail, free, (ch, c.bias), n);
      avail, free := Insert(c, avail, (ch, c.bias), n), free[(ch, c.bias) := n];
      maps, tiles, virgin := maps[ch := m], tiles[ch := t], if commit then virgin else virgin + {ch};
    }

    /** The map writes that arena_run_trim_head() and arena_run_trim_tail() share. */
    method CutRun(ch: nat, p: nat, oldsize: nat, head: nat)
      requires Valid() && ch in tiles && UsedAt(tiles[ch], c.bias, p) && tiles[ch][p].kind.Large?
      requires oldsize == tiles[ch][p].pages && 0 < head < oldsize
      modifies this`maps, this`tiles
      ensures Valid() && tiles == old(tiles)[ch := Halved(old(tiles[ch]), p, head)]
      ensures UsedAt(tiles[ch], c.bias, p) && tiles[ch][p] == Run(p, head, old(tiles[ch][p].kind))
      ensures UsedAt(tiles[ch], c.bias, p + head)
      ensures tiles[ch][p + head] == Run(p + head, oldsize - head, old(tiles[ch][p].kind))
      ensures ch in maps && CutKnown(c.bias, old(maps), old(tiles), maps, tiles, ch, p, oldsize, head,
                                     old(tiles[ch][p].kind).dirty)
    {
      hide MapsOk, Indexed, FreeIs, DirtyIs, Counts, SpareOk, AllApart, Cut, Halved, UsedAt, HasRun, CutKnown, Known;
      MapOf(c, maps, tiles, virgin, ch);
      CutZeroAt(c, maps, tiles, virgin, spare, ch, p, head);
      CutCore(c, maps, tiles, virgin, spare, free, runsDirty, ndirty, nactive, ch, p, head);
      HalvedRuns(tiles[ch], c.bias, p, head);
      maps := maps[ch := Cut(maps[ch], p, oldsize, head)];
      tiles := tiles[ch := Halved(tiles[ch], p, head)];
    }

    lemma HasMap(ch: nat)
      requires Valid() && ch in tiles
      ensures ch in maps
    {
      MapOf(c, maps, tiles, virgin, ch);
    }

    /** arena_run_trim_head(): the leading pages of a large run are freed; dirty pages stay dirty. */
    method TrimHead(ch: nat, p: nat, oldsize: nat, newsize: nat)
      requires Valid() && ch in tiles && UsedAt(tiles[ch], c.bias, p) && tiles[ch][p].kind.Large?
      requires oldsize == tiles[ch][p].pages && 0 < newsize < oldsize
      modifies this
      ensures Valid() && nactive == old(nactive) - (oldsize - newsize)
      ensures (tiles, spare) == AfterFree(c, old(tiles)[ch := Halved(old(tiles[ch]), p, oldsize - newsize)],
                                          old(spare), ch, p, Free(old(tiles[ch][p].kind.dirty), false))
      ensures ch in tiles && SpareRule(c, old(tiles), old(spare), tiles, spare, ch)
      ensures var k, head := old(tiles[ch][p].kind), oldsize - newsize;
              Released(old(tiles[ch]), tiles[ch], c.bias, p, p + head, Free(k.dirty, false), Run(p + head, newsize, k))
      ensures ZeroFreed(c.bias, old(maps), old(tiles), maps, tiles, ch, p, oldsize, old(tiles[ch][p]).kind.dirty, false)
    {
      hide Valid, Core, AllApart, Halved, AfterFree, SpareRule, Released, CutKnown, ZeroFreed;
      HasMap(ch);
      CutRun(ch, p, oldsize, oldsize - newsize);
      ghost var t, mid, m := old(tiles[ch]), tiles, maps;
      RunDalloc(ch, p, false, false, false);
      CutPages(t, tiles[ch], c.bias, p, oldsize - newsize, p, Free(t[p].kind.dirty, false));
      CutThenFreed(c.bias, old(maps), old(tiles), m, mid, maps, tiles, ch, p, oldsize, oldsize - newsize, p,
                   t[p].kind.dirty, t[p].kind.dirty);
      CutChunk(c, old(tiles), old(spare), tiles, spare, ch, mid[ch]);
    }

    /** arena_run_trim_tail(): the trailing pages are freed; the caller may have dirtied them. */
    method TrimTail(ch: nat, p: nat, oldsize: nat, newsize: nat, dirty: bool)
      requires Valid() && ch in tiles && UsedAt(tiles[ch], c.bias, p) && tiles[ch][p].kind.Large?
      requires oldsize == tiles[ch][p].pages && 0 < newsize < oldsize
      modifies this
      ensures Valid() && nactive == old(nactive) - (oldsize - newsize)
      ensures (tiles, spare) == AfterFree(c, old(tiles)[ch := Halved(old(tiles[ch]), p, newsize)], old(spare), ch,
                                          p + newsize, Free(dirty || old(tiles[ch][p].kind.dirty), false))
      ensures ch in tiles && SpareRule(c, old(tiles), old(spare), tiles, spare, ch)
      ensures var k := old(tiles[ch][p].kind);
              Released(old(tiles[ch]), tiles[ch], c.bias, p + newsize, p + oldsize, Free(dirty || k.dirty, false),
                       Run(p, newsize, k))
      ensures ZeroFreed(c.bias, old(maps), old(tiles), maps, tiles, ch, p, oldsize, dirty || old(tiles[ch][p]).kind.dirty,
                        false)
    {
      hide Valid, Core, AllApart, Halved, AfterFree, SpareRule, Released, CutKnown, ZeroFreed;
      HasMap(ch);
      CutRun(ch, p, oldsize, newsize);
      ghost var t, mid, m := old(tiles[ch]), tiles, maps;
      RunDalloc(ch, p + newsize, dirty, false, false);
      CutPages(t, tiles[ch], c.bias, p, newsize, p + newsize, Free(dirty || t[p].kind.dirty, false));
      CutThenFreed(c.bias, old(maps), old(tiles), m, mid, maps, tiles, ch, p, oldsize, newsize, p + newsize,
                   t[p].kind.dirty, dirty || t[p].kind.dirty);
      CutChunk(c, old(tiles), old(spare), tiles, spare, ch, mid[ch]);
    }

    /** arena_run_first_best_fit(): the best run that reaches the rounded request, or there is none.
        `sn` gives the serial numbers of the chunks. */
    method BestFit(need: nat, sn: nat -> nat) returns (r: Option<Place>)
      requires Valid() && 0 < need < c.npages
      ensures r.Some? ==> CanSplit(r.value.0, r.value.1, need)
      ensures r.Some? ==> Best(c, tiles, spare, sn, need, r.value)
      ensures r.None? ==> NoneReaches(c, tiles, spare, need)
    {
      hide Ind, IndFrom, MapsOk, SpareOk, DirtyIs, Counts, AllApart, Heap, Ceil, PageTable, ParamsOk,
           Indexed, FreeIs, NoneReaches, Best, PlaceLeq;
      TableOf(c);
      HeapsHold(c, tiles, spare, avail, free, need);
      var i := Ind(c.classes, Ceil(c, need));
      ghost var pind := i;
      while i < |c.classes| && c.classes[i] <= c.npages * c.page
        invariant pind <= i
        invariant forall k :: pind <= k < i && k < |avail| ==> avail[k] == {}
        decreases |c.classes| - i
      {
        if avail[i] != {} {
          FirstOf(sn, avail[i]);
          var x :| x in avail[i] && forall y :: y in avail[i] ==> PlaceLeq(sn, x, y);
          FirstIsBest(c, tiles, spare, avail, free, sn, need, i, x);
          return Some(x);
        }
        i := i + 1;
      }
      return None;
    }

    /** arena_run_alloc_large_helper(): a large run of `need` pages at the best place, or nothing changes,
        because no run is large enough or its pages cannot be committed. */
    method AllocLarge(need: nat, sn: nat -> nat, commitOk: bool, zero: bool) returns (r: Option<Place>, zeroed: set<nat>)
      requires Valid() && 0 < need < c.npages
      modifies this
      ensures Valid() && spare == old(spare)
      ensures r.None? ==> tiles == old(tiles) && maps == old(maps)
      ensures r.None? ==>
                || NoneReaches(c, tiles, spare, need)
                || (!commitOk && exists x: Place ::
                     Best(c, tiles, spare, sn, need, x) && CanSplit(x.0, x.1, need) && tiles[x.0][x.1].kind.decommitted)
      ensures r.Some? ==> Best(c, old(tiles), old(spare), sn, need, r.value)
      ensures r.Some? ==>
                var (ch, p) := r.value;
                && old(CanSplit(ch, p, need)) && (old(tiles[ch][p]).kind.decommitted ==> commitOk)
                && tiles == old(tiles)[ch := Taken(old(tiles[ch]), p, need, Large(old(tiles[ch][p]).kind.dirty))]
                && SplitPages(old(tiles[ch]), tiles[ch], p, need, Large(old(tiles[ch][p]).kind.dirty))
      ensures ZeroKept(c.bias, old(maps), old(tiles), maps, tiles)
      ensures r.Some? && zero ==>
                var (ch, p) := r.value;
                Zeroes(c.bias, old(maps), old(tiles), p, need, ch, zeroed)
    {
      hide Core, AllApart, Taken, Ceil, NoneReaches, Best, SplitPages, ZeroKept, ZeroKnown, Zeroes;
      zeroed := {};
      KeptSame(c.bias, maps, tiles);
      r := BestFit(need, sn);
      if r.Some? {
        var failed;
        failed, zeroed := SplitLarge(r.value.0, r.value.1, need, commitOk, zero);
        if failed {
          assert Best(c, tiles, spare, sn, need, r.value) && CanSplit(r.value.0, r.value.1, need);
          r := None;
        }
      }
    }
  }
}
