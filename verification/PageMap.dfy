/**
 The page map of one arena chunk.  The map is the truth that the allocator reads: only the first
 and last entries of a free or large run mean anything.  The tiling is what the map stands for: for
 every page, the run that the page belongs to.  Sizes are in pages.
 */
module PageMap {

  const BININD_INVALID: nat := 0xff

  datatype Entry = Entry(used: bool, large: bool, dirty: bool, decommitted: bool, unzeroed: bool,
                         binind: nat, size: nat)

  datatype Kind = Free(dirty: bool, decommitted: bool) | Large(dirty: bool) | Small(binind: nat)

  datatype Run = Run(start: nat, pages: nat, kind: Kind) {
    function End(): nat {
      start + pages
    }

    predicate Covers(p: nat) {
      start <= p < start + pages
    }
  }

  // ---------------------------------------------------------------- map entries

  /** arena_mapbits_unallocated_set() */
  function Unallocated(size: nat, dirty: bool, decommitted: bool, unzeroed: bool): Entry {
    Entry(false, false, dirty, decommitted, unzeroed, BININD_INVALID, size)
  }

  /** arena_mapbits_large_set() */
  function LargeEntry(size: nat, dirty: bool, unzeroed: bool): Entry {
    Entry(true, true, dirty, false, unzeroed, BININD_INVALID, size)
  }

  /** arena_mapbits_small_set() */
  function SmallEntry(runind: nat, binind: nat, unzeroed: bool): Entry {
    Entry(true, false, false, false, unzeroed, binind, runind)
  }

  /** What the assertions of the flag getters demand. */
  predicate Sound(e: Entry) {
    e.decommitted ==> !e.dirty && !e.unzeroed
  }

  // ---------------------------------------------------------------- tilings

  /** Pages from `bias` on are tiled exactly by runs. */
  ghost predicate Tiled(t: seq<Run>, bias: nat) {
    forall p :: bias <= p < |t| ==> TiledAt(t, bias, p)
  }

  ghost predicate TiledAt(t: seq<Run>, bias: nat, p: nat)
    requires p < |t|
  {
    && bias <= t[p].start && t[p].Covers(p) && t[p].End() <= |t|
    && forall q :: t[p].start <= q < t[p].End() ==> t[q] == t[p]
  }

  /** A run begins, or the chunk ends, at `p`. */
  predicate Boundary(t: seq<Run>, bias: nat, p: nat) {
    p == |t| || (bias <= p < |t| && t[p].start == p)
  }

  /** The map entries of `r` say what `r` is.  A chunk that was mapped decommitted and never split
      is exempt: the last entry of its only run lacks the decommitted flag. */
  ghost predicate Told(m: seq<Entry>, r: Run, binPages: seq<nat>, exempt: bool)
    requires 0 < r.pages && r.End() <= |m|
  {
    var first, last := m[r.start], m[r.End() - 1];
    match r.kind
    case Free(dirty, decommitted) =>
      && !(dirty && decommitted)
      && !first.used && !last.used && !first.large && !last.large
      && first.size == r.pages == last.size && first.dirty == dirty == last.dirty
      && first.decommitted == decommitted && (last.decommitted == decommitted || exempt)
    case Large(dirty) =>
      && first.used && last.used && first.large && last.large
      && first.size == r.pages && (r.pages > 1 ==> last.size == 0)
      && first.dirty == dirty == last.dirty && !first.decommitted && !last.decommitted
    case Small(binind) =>
      && binind < |binPages| && r.pages == binPages[binind]
      && forall p :: r.start <= p < r.End() ==> m[p] == SmallEntry(p - r.start, binind, m[p].unzeroed)
  }

  /** The map tells the tiling. */
  ghost predicate MapOk(m: seq<Entry>, t: seq<Run>, bias: nat, binPages: seq<nat>, exempt: bool) {
    && |m| == |t| && Tiled(t, bias)
    && (forall p :: bias <= p < |t| ==> TiledAt(t, bias, p) && Told(m, t[p], binPages, exempt))
    && (forall p :: bias <= p < |m| ==> Sound(m[p]))
  }

  /** Neighbours across the boundary before `p` could not be coalesced. */
  ghost predicate ApartAt(t: seq<Run>, p: nat)
    requires 0 < p < |t|
  {
    t[p - 1] != t[p] && t[p - 1].kind.Free? && t[p].kind.Free? ==> t[p - 1].kind != t[p].kind
  }

  ghost predicate Apart(t: seq<Run>, bias: nat) {
    forall p :: bias < p < |t| ==> ApartAt(t, p)
  }

  // ---------------------------------------------------------------- repainting

  /** The tiling in which the pages of `a`, and then of `b`, belong to them. */
  function Paint(t: seq<Run>, a: Run, b: Run): (r: seq<Run>)
    ensures |r| == |t|
  {
    seq(|t|, p requires 0 <= p < |t| => if a.Covers(p) then a else if b.Covers(p) then b else t[p])
  }

  const NO_RUN := Run(0, 0, Free(false, false))

  /** `b` continues `a`, or is empty; together they replace whole runs. */
  ghost predicate Replaces(t: seq<Run>, bias: nat, a: Run, b: Run) {
    && a.pages > 0 && bias <= a.start && (b.pages > 0 ==> b.start == a.End())
    && a.End() + b.pages <= |t|
    && Boundary(t, bias, a.start) && Boundary(t, bias, a.End() + b.pages)
  }

  /** Runs begin and end at boundaries. */
  lemma RunEnds(t: seq<Run>, bias: nat, p: nat)
    requires Tiled(t, bias) && bias <= p < |t|
    ensures TiledAt(t, bias, p) && Boundary(t, bias, t[p].start) && Boundary(t, bias, t[p].End())
    ensures p + 1 == t[p].End() <==> Boundary(t, bias, p + 1)
  {
    assert TiledAt(t, bias, p);
    var e := t[p].End();
    if e < |t| {
      assert TiledAt(t, bias, e) && t[e - 1] == t[p];
    }
    if p + 1 < |t| {
      assert TiledAt(t, bias, p + 1);
    }
  }

  lemma OutsideStays(t: seq<Run>, bias: nat, a: Run, b: Run, p: nat)
    requires Tiled(t, bias) && Replaces(t, bias, a, b) && bias <= p < |t| && !a.Covers(p) && !b.Covers(p)
    ensures TiledAt(t, bias, p)
    ensures t[p].End() <= a.start || a.End() + b.pages <= t[p].start
  {
    assert TiledAt(t, bias, p);
  }

  lemma PaintTiled(t: seq<Run>, bias: nat, a: Run, b: Run)
    requires Tiled(t, bias) && Replaces(t, bias, a, b)
    ensures Tiled(Paint(t, a, b), bias)
  {
    var t' := Paint(t, a, b);
    forall p | bias <= p < |t'| ensures TiledAt(t', bias, p) {
      if !a.Covers(p) && !b.Covers(p) {
        OutsideStays(t, bias, a, b, p);
      }
    }
  }

  /** `m'` differs from `m` inside `a` and `b` only, and says there what they are. */
  ghost predicate Rewritten(m: seq<Entry>, bias: nat, binPages: seq<nat>, a: Run, b: Run, m': seq<Entry>) {
    && |m'| == |m| && a.pages > 0 && a.End() + b.pages <= |m| && (b.pages > 0 ==> b.start == a.End())
    && (forall p :: bias <= p < |m| && !a.Covers(p) && !b.Covers(p) ==> m'[p] == m[p])
    && (forall p :: bias <= p < |m| && (a.Covers(p) || b.Covers(p)) ==> Sound(m'[p]))
    && Told(m', a, binPages, false) && (b.pages > 0 ==> Told(m', b, binPages, false))
  }

  /** Repainting whole runs, and rewriting the map inside them only, keeps the map telling. */
  lemma PaintMap(m: seq<Entry>, t: seq<Run>, bias: nat, binPages: seq<nat>, exempt: bool,
                 a: Run, b: Run, m': seq<Entry>)
    requires MapOk(m, t, bias, binPages, exempt) && Replaces(t, bias, a, b)
    requires exempt ==> a.start == bias && a.End() + b.pages == |t|
    requires Rewritten(m, bias, binPages, a, b, m')
    ensures MapOk(m', Paint(t, a, b), bias, binPages, false)
  {
    PaintTiled(t, bias, a, b);
    var t' := Paint(t, a, b);
    forall p | bias <= p < |t'| ensures TiledAt(t', bias, p) && Told(m', t'[p], binPages, false) {
      assert TiledAt(t', bias, p);
      if !a.Covers(p) && !b.Covers(p) {
        OutsideStays(t, bias, a, b, p);
        ToldSame(m, t[p], binPages, exempt, m');
      }
    }
  }

  lemma ToldSame(m: seq<Entry>, r: Run, binPages: seq<nat>, exempt: bool, m': seq<Entry>)
    requires 0 < r.pages && r.End() <= |m| == |m'| && Told(m, r, binPages, exempt) && !exempt
    requires forall p :: r.start <= p < r.End() ==> m'[p] == m[p]
    ensures Told(m', r, binPages, false)
  {
  }

  /** Two neighbours that coalescing would leave alone. */
  predicate KeptApart(x: Run, y: Run) {
    x.kind.Free? && y.kind.Free? ==> x.kind != y.kind
  }

  lemma PaintApart(t: seq<Run>, bias: nat, a: Run, b: Run)
    requires Tiled(t, bias) && Apart(t, bias) && Replaces(t, bias, a, b)
    requires a.start > bias ==> KeptApart(t[a.start - 1], a)
    requires b.pages > 0 ==> KeptApart(a, b)
    requires a.End() + b.pages < |t| ==> KeptApart(if b.pages > 0 then b else a, t[a.End() + b.pages])
    ensures Apart(Paint(t, a, b), bias)
  {
    var t' := Paint(t, a, b);
    forall p | bias < p < |t'| ensures ApartAt(t', p) {
      assert ApartAt(t, p);
    }
  }

  /** A free run begins at `p`. */
  predicate FreeAt(t: seq<Run>, bias: nat, p: nat) {
    bias <= p < |t| && t[p].start == p && t[p].kind.Free?
  }

  // ---------------------------------------------------------------- coalescing

  /** The run that a new free run `r` grows into: it swallows the neighbours of its own kind. */
  function Coalesced(t: seq<Run>, bias: nat, r: Run): Run {
    var hi := if r.End() < |t| && t[r.End()].kind == r.kind then t[r.End()].End() else r.End();
    var lo := if bias < r.start <= |t| && t[r.start - 1].kind == r.kind then t[r.start - 1].start
              else r.start;
    if lo <= hi then Run(lo, hi - lo, r.kind) else r
  }

  /** Where a run lies among whole runs. */
  ghost predicate Fits(t: seq<Run>, bias: nat, r: Run) {
    bias <= r.start && r.pages > 0 && r.End() <= |t|
    && Boundary(t, bias, r.start) && Boundary(t, bias, r.End())
  }

  lemma CoalescedFits(t: seq<Run>, bias: nat, r: Run)
    requires Tiled(t, bias) && Fits(t, bias, r)
    ensures var c := Coalesced(t, bias, r);
            Fits(t, bias, c) && c.kind == r.kind && c.start <= r.start && r.End() <= c.End()
  {
    if r.End() < |t| {
      RunEnds(t, bias, r.End());
    }
    if bias < r.start {
      RunEnds(t, bias, r.start - 1);
    }
  }

  /** What lies outside a coalesced run is not free, or of another kind. */
  lemma CoalescedEnds(t: seq<Run>, bias: nat, r: Run)
    requires Tiled(t, bias) && Apart(t, bias) && Fits(t, bias, r) && r.kind.Free?
    ensures var c := Coalesced(t, bias, r);
            && Fits(t, bias, c)
            && (c.start > bias ==> KeptApart(t[c.start - 1], c))
            && (c.End() < |t| ==> KeptApart(c, t[c.End()]))
  {
    var c := Coalesced(t, bias, r);
    CoalescedFits(t, bias, r);
    if r.End() < |t| {
      RunEnds(t, bias, r.End());
      if r.End() < c.End() < |t| {
        assert ApartAt(t, c.End());
      }
    }
    if bias < r.start {
      RunEnds(t, bias, r.start - 1);
      if bias < c.start < r.start {
        assert ApartAt(t, c.start);
        RunEnds(t, bias, c.start - 1);
      }
    }
  }

  /** Coalescing leaves no neighbours that could be coalesced. */
  lemma CoalescedApart(t: seq<Run>, bias: nat, r: Run)
    requires Tiled(t, bias) && Apart(t, bias) && Fits(t, bias, r) && r.kind.Free?
    ensures Apart(Paint(t, Coalesced(t, bias, r), NO_RUN), bias)
  {
    CoalescedEnds(t, bias, r);
    PaintApart(t, bias, Coalesced(t, bias, r), NO_RUN);
  }

  // ---------------------------------------------------------------- counting pages

  type Place = (nat, nat)

  /** The pages of chunk `ch` from `lo` up to `hi`. */
  ghost function Range(ch: nat, lo: nat, hi: nat): (r: set<Place>)
    ensures lo <= hi ==> |r| == hi - lo
    ensures forall x :: x in r <==> x.0 == ch && lo <= x.1 < hi
    decreases hi - lo
  {
    if lo >= hi then {} else Range(ch, lo, hi - 1) + {(ch, hi - 1)}
  }
}
