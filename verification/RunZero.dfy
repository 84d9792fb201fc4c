/**
 Which pages may hold something, and what the map says about it: in a clean, committed free run the pages that are
 not marked as unzeroed are zero, and so is every decommitted one.
 */
module RunZero {
  import opened PageMap
  import opened RunMaps
  import opened RunIndex

  /** `nz` are the pages that may hold something other than zeros. */
  ghost predicate PagesOk(m: seq<Entry>, t: seq<Run>, bias: nat, ch: nat, nz: set<Place>) {
    |m| == |t| && forall i: nat :: bias <= i < |t| && (ch, i) in nz && t[i].kind.Free? ==>
      t[i].kind.dirty || (!t[i].kind.decommitted && m[i].unzeroed)
  }

  /** The pages of a run that may hold something are marked. */
  ghost predicate Known(m: seq<Entry>, p: nat, n: nat, ch: nat, nz: set<Place>) {
    p + n <= |m| && forall i: nat :: p <= i < p + n && (ch, i) in nz ==> m[i].unzeroed
  }

  ghost predicate NoneOf(p: nat, n: nat, ch: nat, nz: set<Place>) {
    forall i: nat :: p <= i < p + n ==> (ch, i) !in nz
  }

  /** All chunks. */
  ghost predicate ZeroOk(bias: nat, maps: map<nat, seq<Entry>>, tiles: Tiles, nz: set<Place>) {
    forall ch :: ch in tiles ==> ch in maps && PagesOk(maps[ch], tiles[ch], bias, ch, nz)
  }

  /** Whatever may be taken for the pages that hold something still may be. */
  ghost predicate ZeroKept(bias: nat, maps: map<nat, seq<Entry>>, tiles: Tiles, maps': map<nat, seq<Entry>>, tiles': Tiles) {
    forall nz :: ZeroOk(bias, maps, tiles, nz) ==> ZeroOk(bias, maps', tiles', nz)
  }

  /** And the pages of a run are marked if they may hold something. */
  ghost predicate ZeroKnown(bias: nat, maps: map<nat, seq<Entry>>, tiles: Tiles, m: seq<Entry>, p: nat, n: nat, ch: nat) {
    forall nz :: ZeroOk(bias, maps, tiles, nz) ==> Known(m, p, n, ch, nz)
  }

  /** All that may hold something is made zero. */
  ghost predicate Zeroes(bias: nat, maps: map<nat, seq<Entry>>, tiles: Tiles, p: nat, n: nat, ch: nat, zeroed: set<nat>) {
    forall nz, i: nat :: ZeroOk(bias, maps, tiles, nz) && p <= i < p + n && (ch, i) in nz ==> i in zeroed
  }

  lemma KeptTwice(bias: nat, maps: map<nat, seq<Entry>>, tiles: Tiles, maps1: map<nat, seq<Entry>>, tiles1: Tiles,
                  maps2: map<nat, seq<Entry>>, tiles2: Tiles)
    requires ZeroKept(bias, maps, tiles, maps1, tiles1) && ZeroKept(bias, maps1, tiles1, maps2, tiles2)
    ensures ZeroKept(bias, maps, tiles, maps2, tiles2)
  {
    hide ZeroOk;
  }

  lemma KeptSame(bias: nat, maps: map<nat, seq<Entry>>, tiles: Tiles)
    ensures ZeroKept(bias, maps, tiles, maps, tiles)
  {
  }

  /** A run was given back as one of which all that it must be is known. */
  ghost predicate ZeroFreed(bias: nat, maps: map<nat, seq<Entry>>, tiles: Tiles, maps': map<nat, seq<Entry>>,
                            tiles': Tiles, ch: nat, p: nat, n: nat, dirty: bool, decommitted: bool) {
    ch in maps && forall nz ::
      ZeroOk(bias, maps, tiles, nz) && GivesBack(maps[ch], p, n, dirty, decommitted, ch, nz) ==> ZeroOk(bias, maps', tiles', nz)
  }

  lemma FreedThenKept(bias: nat, maps: map<nat, seq<Entry>>, tiles: Tiles, maps1: map<nat, seq<Entry>>, tiles1: Tiles,
                      maps2: map<nat, seq<Entry>>, tiles2: Tiles, ch: nat, p: nat, n: nat, dirty: bool, decommitted: bool)
    requires ZeroFreed(bias, maps, tiles, maps1, tiles1, ch, p, n, dirty, decommitted)
    requires ZeroKept(bias, maps1, tiles1, maps2, tiles2)
    ensures ZeroFreed(bias, maps, tiles, maps2, tiles2, ch, p, n, dirty, decommitted)
  {
    hide ZeroOk, GivesBack;
  }

  /** A large run was cut in two: if it is not dirty, what was known of its pages still is. */
  ghost predicate CutKnown(bias: nat, maps: map<nat, seq<Entry>>, tiles: Tiles, maps': map<nat, seq<Entry>>,
                           tiles': Tiles, ch: nat, p: nat, n: nat, head: nat, dirty: bool) {
    ch in maps && ch in maps' && head <= n && forall nz :: ZeroOk(bias, maps, tiles, nz) ==>
      && ZeroOk(bias, maps', tiles', nz)
      && (!dirty && Known(maps[ch], p, n, ch, nz) ==>
            Known(maps'[ch], p, head, ch, nz) && Known(maps'[ch], p + head, n - head, ch, nz))
  }

  /** And then one of its parts was given back. */
  lemma CutThenFreed(bias: nat, maps: map<nat, seq<Entry>>, tiles: Tiles, maps1: map<nat, seq<Entry>>, tiles1: Tiles,
                     maps2: map<nat, seq<Entry>>, tiles2: Tiles, ch: nat, p: nat, n: nat, head: nat, q: nat,
                     dirty: bool, d: bool)
    requires CutKnown(bias, maps, tiles, maps1, tiles1, ch, p, n, head, dirty) && (dirty ==> d)
    requires q == p || q == p + head
    requires ZeroFreed(bias, maps1, tiles1, maps2, tiles2, ch, q, if q == p then head else n - head, d, false)
    ensures ZeroFreed(bias, maps, tiles, maps2, tiles2, ch, p, n, d, false)
  {
    hide ZeroOk, Known;
  }

  /** A chunk was added, of which all pages are known to be zero, or not. */
  ghost predicate ZeroAdded(bias: nat, maps: map<nat, seq<Entry>>, tiles: Tiles, maps': map<nat, seq<Entry>>,
                            tiles': Tiles, ch: nat, npages: nat, blank: bool) {
    bias <= npages && forall nz :: ZeroOk(bias, maps, tiles, nz) && (blank ==> NoneOf(bias, npages - bias, ch, nz)) ==>
      ZeroOk(bias, maps', tiles', nz)
  }

  lemma OneAdded(bias: nat, maps: map<nat, seq<Entry>>, tiles: Tiles, ch: nat, m: seq<Entry>, t: seq<Run>, npages: nat,
                 blank: bool)
    requires bias <= npages
    requires forall nz :: (blank ==> NoneOf(bias, npages - bias, ch, nz)) ==> PagesOk(m, t, bias, ch, nz)
    ensures ZeroAdded(bias, maps, tiles, maps[ch := m], tiles[ch := t], ch, npages, blank)
  {
    hide PagesOk, NoneOf;
  }

  lemma LessKept(bias: nat, maps: map<nat, seq<Entry>>, tiles: Tiles, maps': map<nat, seq<Entry>>, tiles': Tiles)
    requires forall ch :: ch in tiles' ==> ch in tiles && tiles'[ch] == tiles[ch]
    requires forall ch :: ch in tiles' && ch in maps ==> ch in maps' && maps'[ch] == maps[ch]
    ensures ZeroKept(bias, maps, tiles, maps', tiles')
  {
  }

  lemma OneZero(bias: nat, maps: map<nat, seq<Entry>>, tiles: Tiles, ch: nat, m: seq<Entry>, t: seq<Run>, nz: set<Place>)
    requires ZeroOk(bias, maps, tiles, nz) && PagesOk(m, t, bias, ch, nz)
    ensures ZeroOk(bias, maps[ch := m], tiles[ch := t], nz)
  {
  }

  // ---------------------------------------------------------------- splitting

  /** A free run at `p` that a chunk of that tiling has. */
  ghost predicate HasRun(m: seq<Entry>, t: seq<Run>, bias: nat, p: nat) {
    && |m| == |t| && bias <= p < |t| && t[p].start == p && 0 < t[p].pages && t[p].End() <= |t|
    && forall i :: p <= i < t[p].End() ==> t[i] == t[p]
  }

  lemma RemainderZero(m: seq<Entry>, t: seq<Run>, bias: nat, p: nat, need: nat, kind: Kind, ch: nat, nz: set<Place>)
    requires HasRun(m, t, bias, p) && t[p].kind.Free? && 0 < need <= t[p].pages && !kind.Free?
    requires PagesOk(m, t, bias, ch, nz)
    ensures var k := t[p].kind;
            var m1 := Remainder(m, p, need, t[p].pages, k.dirty, k.decommitted);
            && PagesOk(m1, Taken(t, p, need, kind), bias, ch, nz)
            && (forall i :: p <= i < p + need ==> m1[i] == m[i])
            && (k.decommitted && !k.dirty ==> NoneOf(p, need, ch, nz)) && (!k.dirty ==> Known(m1, p, need, ch, nz))
  {
    var k := t[p].kind;
    var m1, t1 := Remainder(m, p, need, t[p].pages, k.dirty, k.decommitted), Taken(t, p, need, kind);
    forall i: nat | bias <= i < |t| && (ch, i) in nz && t1[i].kind.Free?
      ensures t1[i].kind.dirty || (!t1[i].kind.decommitted && m1[i].unzeroed)
    {
      assert t[i].kind.Free? && t1[i].kind == t[i].kind;
    }
    forall i: nat | p <= i < p + need && (ch, i) in nz ensures k.dirty || (!k.decommitted && m1[i].unzeroed) {
      assert t[i] == t[p] && m1[i] == m[i];
    }
  }

  lemma LargeZero(m: seq<Entry>, t: seq<Run>, bias: nat, p: nat, need: nat, dirty: bool, decommitted: bool,
                  ch: nat, nz: set<Place>)
    requires 0 < need && p + need <= |m| && PagesOk(m, t, bias, ch, nz)
    requires forall i :: p <= i < p + need && i < |t| ==> !t[i].kind.Free?
    ensures var m' := LargeEnds(m, p, need, dirty, decommitted);
            && PagesOk(m', t, bias, ch, nz)
            && (Known(m, p, need, ch, nz) && !dirty && (decommitted ==> NoneOf(p, need, ch, nz)) ==>
                  Known(m', p, need, ch, nz))
  {
  }

  /** Splitting for a large run: its pages are as they are marked, unless they are dirty. */
  lemma SplitLargeZero(m: seq<Entry>, t: seq<Run>, bias: nat, p: nat, need: nat, ch: nat, nz: set<Place>)
    requires HasRun(m, t, bias, p) && t[p].kind.Free? && 0 < need <= t[p].pages && PagesOk(m, t, bias, ch, nz)
    ensures var k := t[p].kind;
            var m1 := Remainder(m, p, need, t[p].pages, k.dirty, k.decommitted);
            var m' := LargeEnds(m1, p, need, k.dirty, k.decommitted);
            && PagesOk(m', Taken(t, p, need, Large(k.dirty)), bias, ch, nz)
            && (!k.dirty ==> Known(m', p, need, ch, nz))
  {
    var k := t[p].kind;
    RemainderZero(m, t, bias, p, need, Large(k.dirty), ch, nz);
    var m1, t1 := Remainder(m, p, need, t[p].pages, k.dirty, k.decommitted), Taken(t, p, need, Large(k.dirty));
    assert forall i :: p <= i < p + need ==> !t1[i].kind.Free?;
    hide Remainder, Taken, LargeEnds, Known, NoneOf, PagesOk;
    LargeZero(m1, t1, bias, p, need, k.dirty, k.decommitted, ch, nz);
  }

  lemma SplitSmallZero(m: seq<Entry>, t: seq<Run>, bias: nat, p: nat, need: nat, binind: nat, ch: nat, nz: set<Place>)
    requires HasRun(m, t, bias, p) && t[p].kind.Free? && 0 < need <= t[p].pages && PagesOk(m, t, bias, ch, nz)
    ensures var k := t[p].kind;
            var m1 := Remainder(m, p, need, t[p].pages, k.dirty, k.decommitted);
            PagesOk(SmallPages(m1, p, p + need, binind), Taken(t, p, need, Small(binind)), bias, ch, nz)
  {
    var k := t[p].kind;
    RemainderZero(m, t, bias, p, need, Small(binind), ch, nz);
    hide Remainder;
  }

  // ---------------------------------------------------------------- freeing

  /** What may be said of a run that is given back: that it is dirty; or else that it was decommitted, or that the
      pages that may hold something are marked. */
  ghost predicate GivesBack(m: seq<Entry>, p: nat, n: nat, dirty: bool, decommitted: bool, ch: nat, nz: set<Place>) {
    dirty || if decommitted then NoneOf(p, n, ch, nz) else Known(m, p, n, ch, nz)
  }

  lemma FreeZero(m: seq<Entry>, t: seq<Run>, bias: nat, p: nat, dirty: bool, decommitted: bool, ch: nat, nz: set<Place>)
    requires HasRun(m, t, bias, p) && PagesOk(m, t, bias, ch, nz)
    requires GivesBack(m, p, t[p].pages, dirty, decommitted, ch, nz)
    ensures PagesOk(FreeEnds(m, p, t[p].pages, dirty, decommitted),
                    Paint(t, Run(p, t[p].pages, Free(dirty, decommitted)), NO_RUN), bias, ch, nz)
  {
  }

  lemma JoinZero(m: seq<Entry>, t: seq<Run>, bias: nat, p: nat, q: nat, ch: nat, nz: set<Place>)
    requires HasRun(m, t, bias, p) && HasRun(m, t, bias, q) && t[p].End() == q && t[p].kind == t[q].kind
    requires t[p].kind.Free? && PagesOk(m, t, bias, ch, nz)
    ensures PagesOk(Resized(m, p, t[p].pages + t[q].pages), Joined(t, p, q), bias, ch, nz)
  {
  }

  lemma CutZero(m: seq<Entry>, t: seq<Run>, bias: nat, p: nat, head: nat, ch: nat, nz: set<Place>)
    requires HasRun(m, t, bias, p) && t[p].kind.Large? && 0 < head < t[p].pages && PagesOk(m, t, bias, ch, nz)
    ensures var n := t[p].pages;
            var m' := Cut(m, p, n, head);
            && PagesOk(m', Halved(t, p, head), bias, ch, nz)
            && (!m[p].dirty && !m[p].decommitted && Known(m, p, n, ch, nz) ==>
                  Known(m', p, head, ch, nz) && Known(m', p + head, n - head, ch, nz))
  {
  }

  // ---------------------------------------------------------------- making pages zero

  /** Every page of a dirty run, none of one that was decommitted, and of others those that are marked. */
  function ToZero(m: seq<Entry>, p: nat, need: nat, dirty: bool, decommitted: bool): set<nat>
    requires p + need <= |m|
  {
    if decommitted then {} else set k: nat | p <= k < p + need && (dirty || m[k].unzeroed)
  }

  lemma ToZeroPages(m: seq<Entry>, p: nat, need: nat, total: nat, dirty: bool, decommitted: bool)
    requires 0 < need <= total && p + total <= |m|
    ensures var pages := ToZero(Remainder(m, p, need, total, dirty, decommitted), p, need, dirty, decommitted);
            (forall i :: i in pages ==> p <= i < p + need) && (!dirty ==> forall i :: i in pages ==> m[i].unzeroed)
  {
  }

  lemma ToZeroEnough(m: seq<Entry>, t: seq<Run>, bias: nat, p: nat, need: nat, ch: nat, nz: set<Place>, i: nat)
    requires HasRun(m, t, bias, p) && t[p].kind.Free? && 0 < need <= t[p].pages && PagesOk(m, t, bias, ch, nz)
    requires !(t[p].kind.dirty && t[p].kind.decommitted) && p <= i < p + need && (ch, i) in nz
    ensures var k := t[p].kind;
            i in ToZero(Remainder(m, p, need, t[p].pages, k.dirty, k.decommitted), p, need, k.dirty, k.decommitted)
  {
    RemainderZero(m, t, bias, p, need, Small(0), ch, nz);
    hide Remainder;
  }
}
