/** What a sampled allocation adds to the profile, and that freeing it takes all of it away again. */
module ProfRounds {
  import opened Wrappers
  import opened Tally
  import opened Prof
  import opened ProfSafety

  /** No dump runs, the big lock is free, and the thread is between calls. */
  ghost predicate Calm(s: State, th: Thr) {
    s.dump.NoDump? && s.mtx.Free? && PcOf(s, th).Idle?
  }

  lemma CalmDump(s: State, th: Thr)
    requires Calm(s, th)
    ensures s.dump.NoDump?
  {
  }

  lemma RunOne(s: State, a: Action, acts: seq<Action>)
    ensures Run(s, [a] + acts) == Run(Step(s, a), acts)
  {
    assert ([a] + acts)[1..] == acts;
  }

  // ---------------------------------------------------------------- a new backtrace

  /** `s` with a new gctx, and perhaps a new tctx, and a thread at `pc`. */
  function Begun(s: State, mtx: Owner, bt: Bt, x: Gctx, th: Thr, pc: Pc): State {
    s.(mtx := mtx, bt2gctx := s.bt2gctx[bt := s.nextG], gctxs := s.gctxs[s.nextG := x],
       pcs := s.pcs[th := pc], nextG := s.nextG + 1)
  }

  function Grown(s: State, bt: Bt, x: Gctx, owner: Thr, y: Tctx, pcs: map<Thr, Pc>): State {
    s.(bt2gctx := s.bt2gctx[bt := s.nextG], gctxs := s.gctxs[s.nextG := x],
       tctxs := s.tctxs[s.nextT := y], bt2tctx := s.bt2tctx[(owner, bt) := s.nextT], pcs := pcs,
       nextG := s.nextG + 1, nextT := s.nextT + 1)
  }

  function One(accum: bool, usize: nat): Cnt {
    if accum then Cnt(1, usize, 1, usize) else Cnt(1, usize, 0, 0)
  }

  function Fresh(s: State, th: Thr, state: TctxState, prepared: bool, c: Cnt, objs: seq<nat>): Tctx {
    Tctx(th, s.nextG, state, prepared, c, objs, ZERO)
  }

  lemma NewFacts(s: State, bt: Bt)
    requires Inv(s) && bt !in s.bt2gctx
    ensures s.nextG !in s.gctxs && s.nextT !in s.tctxs && forall th :: (th, bt) !in s.bt2tctx
  {
    hide SumInv, ScanInv, DumpListInv, InitializingInv, LinkInv, TctxOk, DoomedOnce, DoomedInv, DoomedOk,
         ThreadInv, PcInv, OrphanInv, LimboInv, MtxInv;
    assert s.nextT in s.tctxs ==> s.nextT < s.nextT;
  }

  lemma LookupMisses(s: State, th: Thr, bt: Bt)
    requires Calm(s, th) && (th, bt) !in s.bt2tctx
    ensures Step(s, Lookup(th, bt)) == At(s, th, Seeking(bt))
  {
  }

  lemma NewEnter(s: State, th: Thr, bt: Bt)
    requires Calm(s, th) && bt !in s.bt2gctx
    ensures Step(At(s, th, Seeking(bt)), Enter(th, Stored))
            == Begun(s, ByThread(th), bt, Gctx(bt, 1, {}, ZERO, 0), th, Leaving(bt, s.nextG, true))
  {
  }

  lemma NewLeave(s: State, th: Thr, bt: Bt)
    ensures Step(Begun(s, ByThread(th), bt, Gctx(bt, 1, {}, ZERO, 0), th, Leaving(bt, s.nextG, true)), Leave(th))
            == Begun(s, Free, bt, Gctx(bt, 1, {}, ZERO, 0), th, Attaching(bt, s.nextG, true))
  {
  }

  lemma NewAttach(s: State, th: Thr, bt: Bt)
    requires Calm(s, th) && (th, bt) !in s.bt2tctx
    ensures var x, t := Gctx(bt, 1, {}, ZERO, 0), s.nextT;
            Step(Begun(s, Free, bt, x, th, Attaching(bt, s.nextG, true)), Attach(th, Stored))
            == Grown(s, bt, x, th, Fresh(s, th, Initializing, true, ZERO, []), s.pcs[th := Inserted(bt, s.nextG, t)])
  {
  }

  lemma NewLink(s: State, th: Thr, bt: Bt)
    requires Calm(s, th)
    ensures var x, t := Gctx(bt, 1, {}, ZERO, 0), s.nextT;
            Step(Grown(s, bt, x, th, Fresh(s, th, Initializing, true, ZERO, []), s.pcs[th := Inserted(bt, s.nextG, t)]),
                 Link(th))
            == Grown(s, bt, Gctx(bt, 0, {t}, ZERO, 0), th, Fresh(s, th, Nominal, true, ZERO, []), s.pcs[th := Prepared(t)])
  {
    assert {} + {s.nextT} == {s.nextT};
  }

  lemma NewSample(s: State, th: Thr, bt: Bt, usize: nat)
    requires Calm(s, th)
    ensures var x, t := Gctx(bt, 0, {s.nextT}, ZERO, 0), s.nextT;
            Step(Grown(s, bt, x, th, Fresh(s, th, Nominal, true, ZERO, []), s.pcs[th := Prepared(t)]), Sample(th, usize))
            == Grown(s, bt, x, th, Fresh(s, th, Nominal, false, One(s.accum, usize), [usize]), s.pcs[th := Idle])
  {
    assert [] + [usize] == [usize];
  }

  /** A sampled allocation from a backtrace that was not known leaves one gctx with one tctx that counts it. */
  lemma SampleNew(s: State, th: Thr, bt: Bt, usize: nat)
    requires Inv(s) && Calm(s, th) && bt !in s.bt2gctx
    ensures Run(s, [Lookup(th, bt), Enter(th, Stored), Leave(th), Attach(th, Stored), Link(th), Sample(th, usize)])
            == Grown(s, bt, Gctx(bt, 0, {s.nextT}, ZERO, 0), th,
                     Fresh(s, th, Nominal, false, One(s.accum, usize), [usize]), s.pcs[th := Idle])
  {
    NewFacts(s, bt);
    LookupMisses(s, th, bt);
    NewEnter(s, th, bt);
    NewLeave(s, th, bt);
    NewAttach(s, th, bt);
    NewLink(s, th, bt);
    NewSample(s, th, bt, usize);
    hide Inv, Step, Calm, Begun, Grown, Run, Fresh;
    Six(s, Lookup(th, bt), Enter(th, Stored), Leave(th), Attach(th, Stored), Link(th), Sample(th, usize));
  }

  lemma Six(s: State, a: Action, b: Action, c: Action, d: Action, e: Action, f: Action)
    ensures Run(s, [a, b, c, d, e, f]) == Step(Step(Step(Step(Step(Step(s, a), b), c), d), e), f)
  {
    hide Step;
    var s1 := Step(s, a);
    var s2 := Step(s1, b);
    var s3 := Step(s2, c);
    var s4 := Step(s3, d);
    var s5 := Step(s4, e);
    assert [a, b, c, d, e, f] == [a] + [b, c, d, e, f] && [b, c, d, e, f] == [b] + [c, d, e, f];
    assert [c, d, e, f] == [c] + [d, e, f] && [d, e, f] == [d] + [e, f] && [e, f] == [e] + [f] && [f] == [f] + [];
    RunOne(s, a, [b, c, d, e, f]);
    RunOne(s1, b, [c, d, e, f]);
    RunOne(s2, c, [d, e, f]);
    RunOne(s3, d, [e, f]);
    RunOne(s4, e, [f]);
    RunOne(s5, f, []);
  }

  // ---------------------------------------------------------------- a known backtrace

  /** `s` with one gctx changed, and a thread at `pc`. */
  function Moved(s: State, mtx: Owner, g: Gid, x: Gctx, th: Thr, pc: Pc): State {
    s.(mtx := mtx, gctxs := s.gctxs[g := x], pcs := s.pcs[th := pc])
  }

  function Joined(s: State, bt: Bt, g: Gid, x: Gctx, owner: Thr, y: Tctx, pc: Pc): State {
    s.(gctxs := s.gctxs[g := x], tctxs := s.tctxs[s.nextT := y], bt2tctx := s.bt2tctx[(owner, bt) := s.nextT],
       pcs := s.pcs[owner := pc], nextT := s.nextT + 1)
  }

  function Member(th: Thr, g: Gid, state: TctxState, prepared: bool, c: Cnt, objs: seq<nat>): Tctx {
    Tctx(th, g, state, prepared, c, objs, ZERO)
  }

  lemma KnownFacts(s: State, bt: Bt)
    requires Inv(s) && bt in s.bt2gctx && s.dump.NoDump?
    ensures s.bt2gctx[bt] in s.gctxs && s.gctxs[s.bt2gctx[bt]].nlimbo >= 0 && s.nextT !in s.tctxs
    ensures s.nextT !in s.gctxs[s.bt2gctx[bt]].linked
  {
    hide SumInv, ScanInv, DumpListInv, InitializingInv, TctxOk, DoomedOnce, DoomedInv, DoomedOk,
         ThreadInv, PcInv, OrphanInv, MtxInv;
    assert s.nextT in s.tctxs ==> s.nextT < s.nextT;
  }

  lemma KnownEnter(s: State, th: Thr, bt: Bt)
    requires Calm(s, th) && bt in s.bt2gctx && s.bt2gctx[bt] in s.gctxs
    ensures var g := s.bt2gctx[bt];
            Step(At(s, th, Seeking(bt)), Enter(th, Stored)) == Moved(s, ByThread(th), g, s.gctxs[g], th, Found(bt, g))
  {
  }

  lemma KnownHold(s: State, th: Thr, bt: Bt, g: Gid)
    requires g in s.gctxs
    ensures var x := s.gctxs[g];
            Step(Moved(s, ByThread(th), g, x, th, Found(bt, g)), Hold(th))
            == Moved(s, ByThread(th), g, x.(nlimbo := x.nlimbo + 1), th, Leaving(bt, g, false))
  {
  }

  lemma KnownLeave(s: State, th: Thr, bt: Bt, g: Gid, x: Gctx)
    ensures Step(Moved(s, ByThread(th), g, x, th, Leaving(bt, g, false)), Leave(th))
            == Moved(s, Free, g, x, th, Attaching(bt, g, false))
  {
  }

  lemma KnownAttach(s: State, th: Thr, bt: Bt, g: Gid, x: Gctx)
    requires Calm(s, th) && (th, bt) !in s.bt2tctx
    ensures Step(Moved(s, Free, g, x, th, Attaching(bt, g, false)), Attach(th, Stored))
            == Joined(s, bt, g, x, th, Member(th, g, Initializing, true, ZERO, []), Inserted(bt, g, s.nextT))
  {
  }

  lemma KnownLink(s: State, th: Thr, bt: Bt, g: Gid, x: Gctx)
    requires Calm(s, th) && x.nlimbo > 0
    ensures Step(Joined(s, bt, g, x, th, Member(th, g, Initializing, true, ZERO, []), Inserted(bt, g, s.nextT)), Link(th))
            == Joined(s, bt, g, x.(nlimbo := x.nlimbo - 1, linked := x.linked + {s.nextT}), th,
                      Member(th, g, Nominal, true, ZERO, []), Prepared(s.nextT))
  {
  }

  lemma KnownSample(s: State, th: Thr, bt: Bt, g: Gid, x: Gctx, usize: nat)
    requires Calm(s, th)
    ensures Step(Joined(s, bt, g, x, th, Member(th, g, Nominal, true, ZERO, []), Prepared(s.nextT)), Sample(th, usize))
            == Joined(s, bt, g, x, th, Member(th, g, Nominal, false, One(s.accum, usize), [usize]), Idle)
  {
    assert [] + [usize] == [usize];
  }

  /** A first sampled allocation of a thread from a known backtrace adds one tctx, to the gctx that there is. */
  lemma SampleKnown(s: State, th: Thr, bt: Bt, usize: nat)
    requires Inv(s) && Calm(s, th) && bt in s.bt2gctx && (th, bt) !in s.bt2tctx
    ensures s.bt2gctx[bt] in s.gctxs
    ensures var g := s.bt2gctx[bt];
            var x := s.gctxs[g];
            Run(s, [Lookup(th, bt), Enter(th, Stored), Hold(th), Leave(th), Attach(th, Stored), Link(th),
                    Sample(th, usize)])
            == Joined(s, bt, g, x.(linked := x.linked + {s.nextT}), th,
                      Member(th, g, Nominal, false, One(s.accum, usize), [usize]), Idle)
  {
    hide Inv, Step, Calm, Moved, Joined, Run, Member;
    CalmDump(s, th);
    KnownFacts(s, bt);
    var g := s.bt2gctx[bt];
    var x := s.gctxs[g];
    var x1 := x.(nlimbo := x.nlimbo + 1);
    LookupMisses(s, th, bt);
    KnownEnter(s, th, bt);
    KnownHold(s, th, bt, g);
    KnownLeave(s, th, bt, g, x1);
    KnownAttach(s, th, bt, g, x1);
    KnownLink(s, th, bt, g, x1);
    KnownSample(s, th, bt, g, x.(linked := x.linked + {s.nextT}), usize);
    var rest := [Enter(th, Stored), Hold(th), Leave(th), Attach(th, Stored), Link(th), Sample(th, usize)];
    assert [Lookup(th, bt)] + rest
        == [Lookup(th, bt), Enter(th, Stored), Hold(th), Leave(th), Attach(th, Stored), Link(th), Sample(th, usize)];
    RunOne(s, Lookup(th, bt), rest);
    Six(Step(s, Lookup(th, bt)), Enter(th, Stored), Hold(th), Leave(th), Attach(th, Stored), Link(th), Sample(th, usize));
  }

  // ---------------------------------------------------------------- a known backtrace of the same thread

  function More(c: Cnt, accum: bool, usize: nat): Cnt {
    Plus(c, One(accum, usize))
  }

  lemma CachedFacts(s: State, th: Thr, bt: Bt)
    requires Inv(s) && (th, bt) in s.bt2tctx
    ensures s.bt2tctx[(th, bt)] in s.tctxs && s.tctxs[s.bt2tctx[(th, bt)]].owner == th
  {
    hide SumInv, ScanInv, DumpListInv, InitializingInv, LinkInv, TctxInv, TctxOk, DoomedOnce, DoomedInv,
         DoomedOk, ThreadInv, PcInv, OrphanInv, LimboInv, RegInv, MtxInv;
    assert (th, bt) in s.bt2tctx;
  }

  /** Further ones only count. */
  lemma SampleAgain(s: State, th: Thr, bt: Bt, usize: nat)
    requires Inv(s) && Calm(s, th) && (th, bt) in s.bt2tctx
    ensures s.bt2tctx[(th, bt)] in s.tctxs
    ensures var t := s.bt2tctx[(th, bt)];
            var y := s.tctxs[t];
            Run(s, [Lookup(th, bt), Sample(th, usize)])
            == s.(tctxs := s.tctxs[t := y.(cnts := More(y.cnts, s.accum, usize), objs := y.objs + [usize],
                                           prepared := false)],
                  pcs := s.pcs[th := Idle])
  {
    hide Inv, Step, Calm, Run;
    CachedFacts(s, th, bt);
    AgainLookup(s, th, bt);
    AgainSample(s, th, s.bt2tctx[(th, bt)], usize);
    assert [Lookup(th, bt), Sample(th, usize)] == [Lookup(th, bt)] + [Sample(th, usize)];
    assert [Sample(th, usize)] == [Sample(th, usize)] + [];
    RunOne(s, Lookup(th, bt), [Sample(th, usize)]);
    RunOne(Step(s, Lookup(th, bt)), Sample(th, usize), []);
    RunNone(Step(Step(s, Lookup(th, bt)), Sample(th, usize)));
  }

  lemma RunNone(s: State)
    ensures Run(s, []) == s
  {
  }

  lemma AgainLookup(s: State, th: Thr, bt: Bt)
    requires Calm(s, th) && (th, bt) in s.bt2tctx && s.bt2tctx[(th, bt)] in s.tctxs
    ensures var t := s.bt2tctx[(th, bt)];
            Step(s, Lookup(th, bt)) == s.(tctxs := s.tctxs[t := s.tctxs[t].(prepared := true)],
                                          pcs := s.pcs[th := Prepared(t)])
  {
  }

  lemma AgainSample(s: State, th: Thr, t: Tid, usize: nat)
    requires Calm(s, th) && t in s.tctxs
    ensures var y := s.tctxs[t];
            Step(s.(tctxs := s.tctxs[t := y.(prepared := true)], pcs := s.pcs[th := Prepared(t)]), Sample(th, usize))
            == s.(tctxs := s.tctxs[t := y.(cnts := More(y.cnts, s.accum, usize), objs := y.objs + [usize],
                                           prepared := false)],
                  pcs := s.pcs[th := Idle])
  {
  }

  // ---------------------------------------------------------------- freeing

  /** The counters without one object; what was accumulated stays. */
  function Less(y: Tctx, i: nat): Tctx
    requires i < |y.objs| && y.cnts.curobjs > 0 && y.cnts.curbytes >= y.objs[i]
  {
    y.(cnts := y.cnts.(curobjs := y.cnts.curobjs - 1, curbytes := y.cnts.curbytes - y.objs[i]),
       objs := y.objs[..i] + y.objs[i + 1..])
  }

  lemma FreeFacts(s: State, t: Tid, i: nat)
    requires Inv(s) && t in s.tctxs && i < |s.tctxs[t].objs|
    ensures var y := s.tctxs[t];
            && y.cnts.curobjs == |y.objs| && y.cnts.curbytes >= y.objs[i]
            && (|y.objs| == 1 ==> y.cnts.curbytes == y.objs[i])
            && (!s.accum ==> y.cnts.accumobjs == 0 == y.cnts.accumbytes)
  {
    hide SumInv, ScanInv, DumpListInv, InitializingInv, LinkInv, CacheInv, DoomedOnce, DoomedInv,
         DoomedOk, ThreadInv, PcInv, OrphanInv, LimboInv, RegInv, MtxInv;
    assert TctxOk(s.accum, s.gctxs, s.tctxs, s.bt2tctx, t);
    TotalRemove(s.tctxs[t].objs, i);
    if |s.tctxs[t].objs| == 1 {
      assert s.tctxs[t].objs[..i] + s.tctxs[t].objs[i + 1..] == [];
    }
  }

  /** Freeing an object takes it out of the counters, and no more happens if others are left, if a further one is
      being allocated, or if what was accumulated is to be kept. */
  lemma FreeOne(s: State, w: Thr, t: Tid, i: nat)
    requires Inv(s) && Calm(s, w) && t in s.tctxs && i < |s.tctxs[t].objs|
    requires s.accum || |s.tctxs[t].objs| > 1 || s.tctxs[t].prepared
    ensures s.tctxs[t].cnts.curobjs > 0 && s.tctxs[t].cnts.curbytes >= s.tctxs[t].objs[i]
    ensures Step(s, FreeObject(w, t, i))
            == s.(tctxs := s.tctxs[t := Less(s.tctxs[t], i)], pcs := s.pcs[w := Idle])
  {
    hide Inv, MaybeDestroy;
    FreeFacts(s, t, i);
    MaybeNot(s.(tctxs := s.tctxs[t := Less(s.tctxs[t], i)]), w, t);
  }

  lemma MaybeNot(s: State, w: Thr, t: Tid)
    requires t in s.tctxs && (s.accum || s.tctxs[t].cnts.curobjs > 0 || s.tctxs[t].prepared)
    ensures MaybeDestroy(s, w, t) == At(s, w, Idle)
  {
  }

  /** `s` while a tctx is on its way out, and a thread at `pc` sees to it. */
  function Dying(s: State, mtx: Owner, reg: map<Bt, Gid>, gs: map<Gid, Gctx>, t: Tid, y: Tctx, key: (Thr, Bt), w: Thr,
                 pc: Pc): State {
    s.(mtx := mtx, bt2gctx := reg, gctxs := gs, tctxs := s.tctxs[t := y], bt2tctx := s.bt2tctx - {key},
       pcs := s.pcs[w := pc])
  }

  /** The last object of a tctx, and nothing that keeps it. */
  ghost predicate LastObject(s: State, t: Tid) {
    t in s.tctxs && |s.tctxs[t].objs| == 1 && !s.tctxs[t].prepared && !s.accum
  }

  lemma LastFacts(s: State, t: Tid)
    requires Inv(s) && s.dump.NoDump? && LastObject(s, t)
    ensures var y := s.tctxs[t];
            && y.state.Nominal? && y.gctx in s.gctxs && t in s.gctxs[y.gctx].linked && s.gctxs[y.gctx].nlimbo >= 0
            && s.gctxs[y.gctx].bt in s.bt2gctx && s.bt2gctx[s.gctxs[y.gctx].bt] == y.gctx
            && y.cnts == Cnt(1, y.objs[0], 0, 0)
  {
    FreeFacts(s, t, 0);
    hide SumInv, ScanInv, InitializingInv, LinkInv, DoomedOnce, DoomedInv, DoomedOk, ThreadInv, PcInv, OrphanInv, MtxInv;
    assert TctxOk(s.accum, s.gctxs, s.tctxs, s.bt2tctx, t);
    assert Cached(s.gctxs, s.tctxs, s.bt2tctx, t);
  }

  /** What is left of a tctx whose last object was freed. */
  function Emptied(y: Tctx): Tctx {
    y.(cnts := ZERO, objs := [])
  }

  lemma LastFree(s: State, w: Thr, t: Tid)
    requires Calm(s, w) && LastObject(s, t) && s.tctxs[t].gctx in s.gctxs
    requires s.tctxs[t].cnts == Cnt(1, s.tctxs[t].objs[0], 0, 0)
    ensures var y := s.tctxs[t];
            Step(s, FreeObject(w, t, 0))
            == Dying(s, Free, s.bt2gctx, s.gctxs, t, Emptied(y), (y.owner, s.gctxs[y.gctx].bt), w, Destroying(t))
  {
    hide MaybeDestroy;
    var y := s.tctxs[t];
    assert y.objs[..0] + y.objs[1..] == [];
    MaybeDoes(s.(tctxs := s.tctxs[t := Emptied(y)]), w, t);
  }

  lemma MaybeDoes(s: State, w: Thr, t: Tid)
    requires t in s.tctxs && !s.accum && s.tctxs[t].cnts == ZERO && !s.tctxs[t].prepared && s.tctxs[t].gctx in s.gctxs
    ensures var key := (s.tctxs[t].owner, s.gctxs[s.tctxs[t].gctx].bt);
            MaybeDestroy(s, w, t) == At(s.(bt2tctx := s.bt2tctx - {key}), w, Destroying(t))
  {
  }

  /** The tctx leaves the tree of its gctx, which stays if others use it. */
  lemma LastUnlink(s: State, w: Thr, t: Tid, y: Tctx, key: (Thr, Bt))
    requires y.state.Nominal? && y.gctx in s.gctxs && !s.accum
    ensures var g, x := y.gctx, s.gctxs[y.gctx].(linked := s.gctxs[y.gctx].linked - {t});
            Step(Dying(s, Free, s.bt2gctx, s.gctxs, t, y, key, w, Destroying(t)), Unlink(w))
            == if x.linked == {} && x.nlimbo == 0
               then Dying(s, Free, s.bt2gctx, s.gctxs[g := x.(nlimbo := 1)], t, y, key, w, WantDestroy(g, Some(t)))
               else Dying(s, Free, s.bt2gctx, s.gctxs[g := x], t, y, key, w, FreeingTctx(t))
  {
  }

  lemma LastEnter(s: State, w: Thr, gs: map<Gid, Gctx>, t: Tid, y: Tctx, key: (Thr, Bt), g: Gid)
    ensures Step(Dying(s, Free, s.bt2gctx, gs, t, y, key, w, WantDestroy(g, Some(t))), EnterDestroy(w))
            == Dying(s, ByThread(w), s.bt2gctx, gs, t, y, key, w, InDestroy(g, Some(t)))
  {
  }

  lemma LastTry(s: State, w: Thr, gs: map<Gid, Gctx>, t: Tid, y: Tctx, key: (Thr, Bt), g: Gid)
    requires g in gs && gs[g].linked == {} && gs[g].nlimbo == 1 && gs[g].bt in s.bt2gctx
    ensures Step(Dying(s, ByThread(w), s.bt2gctx, gs, t, y, key, w, InDestroy(g, Some(t))), TryDestroy(w))
            == Dying(s, Free, s.bt2gctx - {gs[g].bt}, gs, t, y, key, w, Freeing(g, Some(t)))
  {
  }

  lemma LastGctx(s: State, w: Thr, reg: map<Bt, Gid>, gs: map<Gid, Gctx>, t: Tid, y: Tctx, key: (Thr, Bt), g: Gid)
    requires g in gs
    ensures Step(Dying(s, Free, reg, gs, t, y, key, w, Freeing(g, Some(t))), FreeGctx(w))
            == Dying(s, Free, reg, gs - {g}, t, y, key, w, FreeingTctx(t))
  {
  }

  /** `s` without the tctx. */
  function Dropped(s: State, reg: map<Bt, Gid>, gs: map<Gid, Gctx>, t: Tid, key: (Thr, Bt), w: Thr): State {
    s.(bt2gctx := reg, gctxs := gs, tctxs := s.tctxs - {t}, bt2tctx := s.bt2tctx - {key}, pcs := s.pcs[w := Idle])
  }

  lemma LastTctx(s: State, w: Thr, reg: map<Bt, Gid>, gs: map<Gid, Gctx>, t: Tid, y: Tctx, key: (Thr, Bt))
    requires Calm(s, w) && y.objs == [] && !y.prepared
    ensures Step(Dying(s, Free, reg, gs, t, y, key, w, FreeingTctx(t)), FreeTctx(w)) == Dropped(s, reg, gs, t, key, w)
  {
    assert s.tctxs[t := y] - {t} == s.tctxs - {t};
  }

  /** Freeing the last object of a tctx takes the tctx away, and nothing else if its gctx is used otherwise. */
  lemma FreeLast(s: State, w: Thr, t: Tid)
    requires Inv(s) && Calm(s, w) && LastObject(s, t) && s.tctxs[t].gctx in s.gctxs
    requires s.gctxs[s.tctxs[t].gctx].linked != {t} || s.gctxs[s.tctxs[t].gctx].nlimbo > 0
    ensures var y := s.tctxs[t];
            var x := s.gctxs[y.gctx];
            Run(s, [FreeObject(w, t, 0), Unlink(w), FreeTctx(w)])
            == Dropped(s, s.bt2gctx, s.gctxs[y.gctx := x.(linked := x.linked - {t})], t, (y.owner, x.bt), w)
  {
    hide Inv, Step, Calm, LastObject, Dying, Dropped, Run, Emptied;
    CalmDump(s, w);
    LastFacts(s, t);
    LastFree(s, w, t);
    NotAccum(s, t);
    var y := Emptied(s.tctxs[t]);
    EmptiedIs(s.tctxs[t]);
    var x := s.gctxs[y.gctx];
    var key := (y.owner, x.bt);
    LastUnlink(s, w, t, y, key);
    OthersLeft(x.linked, t);
    LastTctx(s, w, s.bt2gctx, s.gctxs[y.gctx := x.(linked := x.linked - {t})], t, y, key);
    Three(s, FreeObject(w, t, 0), Unlink(w), FreeTctx(w));
  }

  lemma OthersLeft(linked: set<Tid>, t: Tid)
    requires t in linked
    ensures linked - {t} == {} <==> linked == {t}
  {
    if linked - {t} == {} {
      assert linked == {t};
    }
  }

  lemma NotAccum(s: State, t: Tid)
    requires LastObject(s, t)
    ensures t in s.tctxs && !s.accum && !s.tctxs[t].prepared
  {
  }

  lemma EmptiedIs(y: Tctx)
    ensures var z := Emptied(y);
            && z.owner == y.owner && z.gctx == y.gctx && z.state == y.state && z.prepared == y.prepared && z.objs == []
  {
  }

  lemma Three(s: State, a: Action, b: Action, c: Action)
    ensures Run(s, [a, b, c]) == Step(Step(Step(s, a), b), c)
  {
    hide Step;
    assert [a, b, c] == [a] + [b, c] && [b, c] == [b] + [c] && [c] == [c] + [];
    RunOne(s, a, [b, c]);
    RunOne(Step(s, a), b, [c]);
    RunOne(Step(Step(s, a), b), c, []);
  }

  /** And if nothing else uses the gctx, that goes too, and its place in the global table. */
  lemma FreeAll(s: State, w: Thr, t: Tid)
    requires Inv(s) && Calm(s, w) && LastObject(s, t) && s.tctxs[t].gctx in s.gctxs
    requires s.gctxs[s.tctxs[t].gctx].linked == {t} && s.gctxs[s.tctxs[t].gctx].nlimbo == 0
    ensures var y := s.tctxs[t];
            var x := s.gctxs[y.gctx];
            Run(s, [FreeObject(w, t, 0), Unlink(w), EnterDestroy(w), TryDestroy(w), FreeGctx(w), FreeTctx(w)])
            == Dropped(s, s.bt2gctx - {x.bt}, s.gctxs - {y.gctx}, t, (y.owner, x.bt), w)
  {
    hide Inv, Step, Calm, LastObject, Dying, Dropped, Run, Emptied;
    CalmDump(s, w);
    LastFacts(s, t);
    LastFree(s, w, t);
    NotAccum(s, t);
    var y := Emptied(s.tctxs[t]);
    EmptiedIs(s.tctxs[t]);
    var g, x := y.gctx, s.gctxs[y.gctx];
    var key := (y.owner, x.bt);
    LastUnlink(s, w, t, y, key);
    OthersLeft(x.linked, t);
    var gs := s.gctxs[g := x.(linked := x.linked - {t}).(nlimbo := 1)];
    LastEnter(s, w, gs, t, y, key, g);
    LastTry(s, w, gs, t, y, key, g);
    LastGctx(s, w, s.bt2gctx - {x.bt}, gs, t, y, key, g);
    assert gs - {g} == s.gctxs - {g};
    LastTctx(s, w, s.bt2gctx - {x.bt}, s.gctxs - {g}, t, y, key);
    Six(s, FreeObject(w, t, 0), Unlink(w), EnterDestroy(w), TryDestroy(w), FreeGctx(w), FreeTctx(w));
  }

  function Sampling(th: Thr, bt: Bt, usize: nat): seq<Action> {
    [Lookup(th, bt), Enter(th, Stored), Leave(th), Attach(th, Stored), Link(th), Sample(th, usize)]
  }

  /** A sampled allocation from a new backtrace, and its being freed by any thread, leave no trace; only the names
      were used. */
  lemma NoTrace(s: State, th: Thr, bt: Bt, usize: nat, w: Thr)
    requires Inv(s) && Calm(s, th) && Calm(s, w) && bt !in s.bt2gctx && !s.accum
    ensures var s1 := Run(s, Sampling(th, bt, usize));
            Run(s1, [FreeObject(w, s.nextT, 0), Unlink(w), EnterDestroy(w), TryDestroy(w), FreeGctx(w), FreeTctx(w)])
            == s.(pcs := s.pcs[th := Idle][w := Idle], nextG := s.nextG + 1, nextT := s.nextT + 1)
  {
    var s1 := Run(s, Sampling(th, bt, usize));
    SampleNew(s, th, bt, usize);
    KeepRun(s, Sampling(th, bt, usize));
    NewFacts(s, bt);
    hide Inv, Run;
    GrownFacts(s, th, bt, usize, w);
    FreeAll(s1, w, s.nextT);
    Undone(s, th, bt, usize, w);
  }

  lemma GrownFacts(s: State, th: Thr, bt: Bt, usize: nat, w: Thr)
    requires Calm(s, th) && Calm(s, w) && !s.accum
    ensures var s1 := Grown(s, bt, Gctx(bt, 0, {s.nextT}, ZERO, 0), th,
                            Fresh(s, th, Nominal, false, One(s.accum, usize), [usize]), s.pcs[th := Idle]);
            && Calm(s1, w) && LastObject(s1, s.nextT) && s1.tctxs[s.nextT].gctx == s.nextG && s.nextG in s1.gctxs
            && s1.gctxs[s.nextG] == Gctx(bt, 0, {s.nextT}, ZERO, 0) && s1.tctxs[s.nextT].owner == th
  {
  }

  lemma Undone(s: State, th: Thr, bt: Bt, usize: nat, w: Thr)
    requires s.nextG !in s.gctxs && s.nextT !in s.tctxs && bt !in s.bt2gctx && (th, bt) !in s.bt2tctx
    ensures var s1 := Grown(s, bt, Gctx(bt, 0, {s.nextT}, ZERO, 0), th,
                            Fresh(s, th, Nominal, false, One(s.accum, usize), [usize]), s.pcs[th := Idle]);
            Dropped(s1, s1.bt2gctx - {bt}, s1.gctxs - {s.nextG}, s.nextT, (th, bt), w)
            == s.(pcs := s.pcs[th := Idle][w := Idle], nextG := s.nextG + 1, nextT := s.nextT + 1)
  {
    var s1 := Grown(s, bt, Gctx(bt, 0, {s.nextT}, ZERO, 0), th,
                    Fresh(s, th, Nominal, false, One(s.accum, usize), [usize]), s.pcs[th := Idle]);
    assert s1.bt2gctx - {bt} == s.bt2gctx && s1.gctxs - {s.nextG} == s.gctxs;
    assert s1.tctxs - {s.nextT} == s.tctxs && s1.bt2tctx - {(th, bt)} == s.bt2tctx;
  }

  /** A sampled allocation that fails in the end is taken back: the mark goes, and the tctx if nothing keeps it. */
  lemma RollbackIs(s: State, th: Thr, t: Tid)
    requires PcOf(s, th) == Prepared(t) && t in s.tctxs && !TdataLocked(s, s.tctxs[t].owner)
    requires s.tctxs[t].gctx in s.gctxs && (s.tctxs[t].cnts.curobjs == 0 && !s.accum ==> s.tctxs[t].cnts == ZERO)
    ensures var y := s.tctxs[t].(prepared := false);
            var key := (y.owner, s.gctxs[y.gctx].bt);
            Step(s, Rollback(th))
            == if s.accum || y.cnts.curobjs > 0
               then s.(tctxs := s.tctxs[t := y], pcs := s.pcs[th := Idle])
               else s.(tctxs := s.tctxs[t := y], bt2tctx := s.bt2tctx - {key}, pcs := s.pcs[th := Destroying(t)])
  {
    hide MaybeDestroy;
    var y := s.tctxs[t].(prepared := false);
    if s.accum || y.cnts.curobjs > 0 {
      MaybeNot(s.(tctxs := s.tctxs[t := y]), th, t);
    } else {
      MaybeDoes(s.(tctxs := s.tctxs[t := y]), th, t);
    }
  }
}
