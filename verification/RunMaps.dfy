/**
 How splitting, freeing, coalescing and trimming runs rewrite the page map of one chunk, and that
 the rewritten map tells the repainted tiling.
 */
module RunMaps {
  import opened PageMap

  /** `unzeroed` survives only on clean, committed pages. */
  predicate Unz(e: Entry, dirty: bool, decommitted: bool) {
    e.unzeroed && !dirty && !decommitted
  }

  // ---------------------------------------------------------------- splitting

  /** arena_run_split_remove(): the two map writes for the pages left over. */
  function Remainder(m: seq<Entry>, p: nat, need: nat, total: nat, dirty: bool, decommitted: bool): (r: seq<Entry>)
    requires 0 < need <= total && p + total <= |m|
    ensures |r| == |m|
  {
    var rem := total - need;
    if rem == 0 then m
    else
      var m1 := m[p + need := Unallocated(rem, dirty, decommitted, Unz(m[p + need], dirty, decommitted))];
      m1[p + total - 1 :=
         Unallocated(rem, dirty, decommitted, Unz(m1[p + total - 1], dirty, decommitted))]
  }

  /** The last entry, then the first, of a large run of `need` pages. */
  function LargeEnds(m: seq<Entry>, p: nat, need: nat, dirty: bool, decommitted: bool): (r: seq<Entry>)
    requires 0 < need && p + need <= |m|
    ensures |r| == |m|
  {
    var last := p + need - 1;
    var m1 := m[last := LargeEntry(0, dirty, Unz(m[last], dirty, decommitted))];
    m1[p := LargeEntry(need, dirty, Unz(m1[p], dirty, decommitted))]
  }

  /** Every entry of a small run. */
  function SmallPages(m: seq<Entry>, p: nat, upto: nat, binind: nat): (r: seq<Entry>)
    ensures |r| == |m|
  {
    seq(|m|, i requires 0 <= i < |m| =>
      if p <= i < upto then SmallEntry(i - p, binind, m[i].unzeroed) else m[i])
  }

  /** The free run at `p`, its first `need` pages taken for `kind`. */
  function Taken(t: seq<Run>, p: nat, need: nat, kind: Kind): (r: seq<Run>)
    requires p < |t| && need <= t[p].pages
    ensures |r| == |t|
  {
    Paint(t, Run(p, need, kind), Run(p + need, t[p].pages - need, t[p].kind))
  }

  /** The run at `p`, cut in two after `need` pages. */
  lemma PairReplaces(t: seq<Run>, bias: nat, p: nat, need: nat, ka: Kind, kb: Kind)
    requires Tiled(t, bias) && bias <= p < |t| && t[p].start == p && 0 < need <= t[p].pages
    ensures Replaces(t, bias, Run(p, need, ka), Run(p + need, t[p].pages - need, kb))
  {
    RunEnds(t, bias, p);
  }

  lemma SplitApart(t: seq<Run>, bias: nat, p: nat, need: nat, kind: Kind)
    requires Tiled(t, bias) && Apart(t, bias) && FreeAt(t, bias, p) && 0 < need <= t[p].pages && !kind.Free?
    ensures Apart(Taken(t, p, need, kind), bias)
  {
    PairReplaces(t, bias, p, need, kind, t[p].kind);
    RunEnds(t, bias, p);
    var e := t[p].End();
    if e < |t| {
      assert ApartAt(t, e);
    }
    PaintApart(t, bias, Run(p, need, kind), Run(p + need, t[p].pages - need, t[p].kind));
  }

  /** An unused chunk is one free run. */
  ghost predicate Whole(t: seq<Run>, bias: nat) {
    bias < |t| && forall p :: bias <= p < |t| ==> t[p] == Run(bias, |t| - bias, t[bias].kind) && t[p].kind.Free?
  }

  /** The entries at both ends of the run that `p` belongs to. */
  lemma EntriesOf(m: seq<Entry>, t: seq<Run>, bias: nat, binPages: seq<nat>, exempt: bool, p: nat)
    requires MapOk(m, t, bias, binPages, exempt) && bias <= p < |t|
    ensures |m| == |t| && t[p].Covers(p) && bias <= t[p].start && t[p].End() <= |m|
    ensures Tiled(t, bias) && Told(m, t[p], binPages, exempt)
    ensures forall i :: bias <= i < |m| ==> Sound(m[i])
  {
    assert TiledAt(t, bias, p);
  }

  /** The writes for the pages left over. */
  lemma RemainderEntries(m: seq<Entry>, bias: nat, r: Run, binPages: seq<nat>, exempt: bool, need: nat)
    requires bias <= r.start && 0 < need <= r.pages && r.End() <= |m| && r.kind.Free?
    requires Told(m, r, binPages, exempt)
    requires forall i :: bias <= i < |m| ==> Sound(m[i])
    ensures var m1 := Remainder(m, r.start, need, r.pages, r.kind.dirty, r.kind.decommitted);
            && (forall i :: bias <= i < |m1| ==> Sound(m1[i]))
            && (forall i :: bias <= i < |m1| && !r.Covers(i) ==> m1[i] == m[i])
            && (need < r.pages ==> Told(m1, Run(r.start + need, r.pages - need, r.kind), binPages, false))
  {
  }

  lemma SplitLargeEntries(m: seq<Entry>, bias: nat, r: Run, binPages: seq<nat>, exempt: bool, need: nat)
    requires bias <= r.start && 0 < need <= r.pages && r.End() <= |m| && r.kind.Free?
    requires Told(m, r, binPages, exempt)
    requires forall i :: bias <= i < |m| ==> Sound(m[i])
    ensures var k := r.kind;
            var m1 := Remainder(m, r.start, need, r.pages, k.dirty, k.decommitted);
            Rewritten(m, bias, binPages, Run(r.start, need, Large(k.dirty)),
                      Run(r.start + need, r.pages - need, k),
                      LargeEnds(m1, r.start, need, k.dirty, k.decommitted))
  {
    RemainderEntries(m, bias, r, binPages, exempt, need);
    hide Remainder;
  }

  lemma SplitLargeMap(m: seq<Entry>, t: seq<Run>, bias: nat, binPages: seq<nat>, exempt: bool, p: nat, need: nat)
    requires MapOk(m, t, bias, binPages, exempt) && (exempt ==> Whole(t, bias))
    requires FreeAt(t, bias, p) && 0 < need <= t[p].pages <= |m| - p
    ensures var k := t[p].kind;
            var m1 := Remainder(m, p, need, t[p].pages, k.dirty, k.decommitted);
            MapOk(LargeEnds(m1, p, need, k.dirty, k.decommitted), Taken(t, p, need, Large(k.dirty)),
                  bias, binPages, false)
  {
    hide MapOk, Tiled, Told, Replaces, Rewritten, Remainder, LargeEnds, Paint, Sound;
    var k := t[p].kind;
    EntriesOf(m, t, bias, binPages, exempt, p);
    PairReplaces(t, bias, p, need, Large(k.dirty), k);
    SplitLargeEntries(m, bias, t[p], binPages, exempt, need);
    var m1 := Remainder(m, p, need, t[p].pages, k.dirty, k.decommitted);
    PaintMap(m, t, bias, binPages, exempt, Run(p, need, Large(k.dirty)),
             Run(p + need, t[p].pages - need, k), LargeEnds(m1, p, need, k.dirty, k.decommitted));
  }

  lemma SplitSmallEntries(m: seq<Entry>, bias: nat, r: Run, binPages: seq<nat>, exempt: bool, need: nat, binind: nat)
    requires bias <= r.start && 0 < need <= r.pages && r.End() <= |m| && r.kind.Free?
    requires Told(m, r, binPages, exempt) && binind < |binPages| && binPages[binind] == need
    requires forall i :: bias <= i < |m| ==> Sound(m[i])
    ensures var k := r.kind;
            var m1 := Remainder(m, r.start, need, r.pages, k.dirty, k.decommitted);
            Rewritten(m, bias, binPages, Run(r.start, need, Small(binind)),
                      Run(r.start + need, r.pages - need, k), SmallPages(m1, r.start, r.start + need, binind))
  {
    RemainderEntries(m, bias, r, binPages, exempt, need);
    hide Remainder;
  }

  lemma SplitSmallMap(m: seq<Entry>, t: seq<Run>, bias: nat, binPages: seq<nat>, exempt: bool,
                      p: nat, need: nat, binind: nat)
    requires MapOk(m, t, bias, binPages, exempt) && (exempt ==> Whole(t, bias))
    requires FreeAt(t, bias, p) && 0 < need <= t[p].pages <= |m| - p
    requires binind < |binPages| && binPages[binind] == need
    ensures var k := t[p].kind;
            var m1 := Remainder(m, p, need, t[p].pages, k.dirty, k.decommitted);
            MapOk(SmallPages(m1, p, p + need, binind), Taken(t, p, need, Small(binind)), bias, binPages, false)
  {
    hide MapOk, Tiled, Told, Replaces, Rewritten, Remainder, SmallPages, Paint, Sound;
    var k := t[p].kind;
    EntriesOf(m, t, bias, binPages, exempt, p);
    PairReplaces(t, bias, p, need, Small(binind), k);
    SplitSmallEntries(m, bias, t[p], binPages, exempt, need, binind);
    var m1 := Remainder(m, p, need, t[p].pages, k.dirty, k.decommitted);
    PaintMap(m, t, bias, binPages, exempt, Run(p, need, Small(binind)),
             Run(p + need, t[p].pages - need, k), SmallPages(m1, p, p + need, binind));
  }

  // ---------------------------------------------------------------- freeing

  /** The two map writes with which arena_run_dalloc() marks a run as free. */
  function FreeEnds(m: seq<Entry>, p: nat, n: nat, dirty: bool, decommitted: bool): (r: seq<Entry>)
    requires 0 < n && p + n <= |m|
    ensures |r| == |m|
  {
    var m1 := m[p := Unallocated(n, dirty, decommitted, Unz(m[p], dirty, decommitted))];
    m1[p + n - 1 := Unallocated(n, dirty, decommitted, Unz(m1[p + n - 1], dirty, decommitted))]
  }

  /** A used run begins at `p`. */
  predicate UsedAt(t: seq<Run>, bias: nat, p: nat) {
    bias <= p < |t| && t[p].start == p && !t[p].kind.Free?
  }

  lemma FreeMap(m: seq<Entry>, t: seq<Run>, bias: nat, binPages: seq<nat>, p: nat, dirty: bool, decommitted: bool)
    requires MapOk(m, t, bias, binPages, false) && UsedAt(t, bias, p) && !(dirty && decommitted)
    requires 0 < t[p].pages <= |m| - p
    ensures MapOk(FreeEnds(m, p, t[p].pages, dirty, decommitted),
                  Paint(t, Run(p, t[p].pages, Free(dirty, decommitted)), NO_RUN), bias, binPages, false)
  {
    RunEnds(t, bias, p);
    PaintMap(m, t, bias, binPages, false, Run(p, t[p].pages, Free(dirty, decommitted)), NO_RUN,
             FreeEnds(m, p, t[p].pages, dirty, decommitted));
  }

  // ---------------------------------------------------------------- coalescing

  /** The test that arena_run_coalesce() makes on the map entry of a neighbour. */
  predicate Joins(e: Entry, dirty: bool, decommitted: bool) {
    !e.used && e.dirty == dirty && e.decommitted == decommitted
  }

  /** The size of a free run, written at both of its ends. */
  function Resized(m: seq<Entry>, p: nat, n: nat): (r: seq<Entry>)
    requires 0 < n && p + n <= |m|
    ensures |r| == |m|
  {
    var m1 := m[p := m[p].(size := n)];
    m1[p + n - 1 := m1[p + n - 1].(size := n)]
  }

  /** What the map says about the run that follows `r`. */
  lemma ReadNext(m: seq<Entry>, t: seq<Run>, bias: nat, binPages: seq<nat>, r: Run)
    requires MapOk(m, t, bias, binPages, false) && Fits(t, bias, r) && r.kind.Free? && r.End() < |t|
    ensures var q := r.End();
            && (Joins(m[q], r.kind.dirty, r.kind.decommitted) <==> t[q].kind == r.kind)
            && (t[q].kind == r.kind ==>
                  t[q].start == q && t[q].End() <= |t| && m[q].size == t[q].pages > 0)
  {
    RunEnds(t, bias, r.End());
    assert Told(m, t[r.End()], binPages, false);
  }

  /** What the map says about the run that `r` follows. */
  lemma ReadPrev(m: seq<Entry>, t: seq<Run>, bias: nat, binPages: seq<nat>, r: Run)
    requires MapOk(m, t, bias, binPages, false) && Fits(t, bias, r) && r.kind.Free? && bias < r.start
    ensures var q := r.start - 1;
            && (Joins(m[q], r.kind.dirty, r.kind.decommitted) <==> t[q].kind == r.kind)
            && (t[q].kind == r.kind ==>
                  t[q].End() == r.start && bias <= t[q].start && m[q].size == t[q].pages > 0)
  {
    RunEnds(t, bias, r.start - 1);
    assert Told(m, t[r.start - 1], binPages, false);
  }

  /** The run at `p` and its successor at `q` joined: no other run is affected. */
  function Joined(t: seq<Run>, p: nat, q: nat): (r: seq<Run>)
    requires p < |t| && q < |t|
    ensures |r| == |t|
  {
    Paint(t, Run(p, t[p].pages + t[q].pages, t[p].kind), NO_RUN)
  }

  lemma ResizedEntries(m: seq<Entry>, bias: nat, x: Run, y: Run, binPages: seq<nat>)
    requires 0 < x.pages && 0 < y.pages && x.End() == y.start && y.End() <= |m|
    requires x.kind == y.kind && x.kind.Free? && Told(m, x, binPages, false) && Told(m, y, binPages, false)
    requires forall i :: x.start <= i < y.End() ==> Sound(m[i])
    ensures var j := Run(x.start, x.pages + y.pages, x.kind);
            Rewritten(m, bias, binPages, j, NO_RUN, Resized(m, j.start, j.pages))
  {
  }

  lemma JoinReplaces(t: seq<Run>, bias: nat, p: nat, q: nat)
    requires Tiled(t, bias) && FreeAt(t, bias, p) && FreeAt(t, bias, q) && t[p].End() == q
    ensures t[q].End() <= |t| && 0 < t[p].pages && 0 < t[q].pages
    ensures Replaces(t, bias, Run(p, t[p].pages + t[q].pages, t[p].kind), NO_RUN)
  {
    RunEnds(t, bias, p);
    RunEnds(t, bias, q);
  }

  /** Two free neighbours of one kind, written and painted as one run. */
  lemma JoinMap(m: seq<Entry>, t: seq<Run>, bias: nat, binPages: seq<nat>, p: nat, q: nat)
    requires MapOk(m, t, bias, binPages, false) && FreeAt(t, bias, p) && FreeAt(t, bias, q)
    requires t[p].End() == q && t[q].End() <= |m| && t[p].kind == t[q].kind && 0 < t[p].pages
    ensures MapOk(Resized(m, p, t[p].pages + t[q].pages), Joined(t, p, q), bias, binPages, false)
  {
    hide MapOk, Tiled, Told, Replaces, Rewritten, Resized, Paint, Sound;
    var j := Run(p, t[p].pages + t[q].pages, t[p].kind);
    EntriesOf(m, t, bias, binPages, false, p);
    EntriesOf(m, t, bias, binPages, false, q);
    JoinReplaces(t, bias, p, q);
    ResizedEntries(m, bias, t[p], t[q], binPages);
    PaintMap(m, t, bias, binPages, false, j, NO_RUN, Resized(m, p, j.pages));
  }

  // ---------------------------------------------------------------- trimming

  /** The map writes of arena_run_trim_head() and arena_run_trim_tail(): a large run of `old` pages
      becomes two, the first of `head` pages. */
  function Cut(m: seq<Entry>, p: nat, old_: nat, head: nat): (r: seq<Entry>)
    requires 0 < head < old_ && p + old_ <= |m|
    ensures |r| == |m|
  {
    var dirty, decommitted := m[p].dirty, m[p].decommitted;
    var m1 := LargeEnds(m, p, head, dirty, decommitted);
    m1[p + head := LargeEntry(old_ - head, dirty, Unz(m1[p + head], dirty, decommitted))]
  }

  /** The large run at `p`, cut in two after `head` pages. */
  function Halved(t: seq<Run>, p: nat, head: nat): (r: seq<Run>)
    requires p < |t| && head <= t[p].pages
    ensures |r| == |t|
  {
    Paint(t, Run(p, head, t[p].kind), Run(p + head, t[p].pages - head, t[p].kind))
  }

  /** Cutting touches the run only, and leaves two large runs. */
  lemma CutEntries(m: seq<Entry>, bias: nat, r: Run, binPages: seq<nat>, head: nat)
    requires 0 < head < r.pages && r.End() <= |m| && r.kind.Large? && Told(m, r, binPages, false)
    requires forall i :: r.start <= i < r.End() ==> Sound(m[i])
    ensures Rewritten(m, bias, binPages, Run(r.start, head, r.kind), Run(r.start + head, r.pages - head, r.kind),
                      Cut(m, r.start, r.pages, head))
  {
  }

  lemma CutMap(m: seq<Entry>, t: seq<Run>, bias: nat, binPages: seq<nat>, p: nat, head: nat)
    requires MapOk(m, t, bias, binPages, false) && UsedAt(t, bias, p) && t[p].kind.Large?
    requires 0 < head < t[p].pages <= |m| - p
    ensures MapOk(Cut(m, p, t[p].pages, head), Halved(t, p, head), bias, binPages, false)
  {
    hide MapOk, Tiled, Told, Replaces, Rewritten, Cut, Paint, Sound;
    var a, b := Run(p, head, t[p].kind), Run(p + head, t[p].pages - head, t[p].kind);
    EntriesOf(m, t, bias, binPages, false, p);
    PairReplaces(t, bias, p, head, t[p].kind, t[p].kind);
    CutEntries(m, bias, t[p], binPages, head);
    PaintMap(m, t, bias, binPages, false, a, b, Cut(m, p, t[p].pages, head));
  }

  /** What the trimming functions read from the map. */
  lemma ReadLarge(m: seq<Entry>, t: seq<Run>, bias: nat, binPages: seq<nat>, p: nat)
    requires MapOk(m, t, bias, binPages, false) && UsedAt(t, bias, p) && t[p].kind.Large?
    ensures p < |m| && m[p].size == t[p].pages && m[p].dirty == t[p].kind.dirty && !m[p].decommitted
  {
    EntriesOf(m, t, bias, binPages, false, p);
  }

  lemma CutApart(t: seq<Run>, bias: nat, p: nat, head: nat)
    requires Tiled(t, bias) && Apart(t, bias) && UsedAt(t, bias, p) && 0 < head < t[p].pages
    ensures Apart(Halved(t, p, head), bias)
  {
    RunEnds(t, bias, p);
    PaintApart(t, bias, Run(p, head, t[p].kind), Run(p + head, t[p].pages - head, t[p].kind));
  }
}
