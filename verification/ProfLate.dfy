/**
 The assertion near the end of prof_tctx_destroy() reads the tctx once more.  After a tctx was left in
 purgatory that read can come too late: exactly when the dump is through with the gctx before.
 */
module ProfLate {
  import opened Wrappers
  import opened Tally
  import opened Prof
  import opened ProfSafety

  ghost predicate InPurgatory(s: State, t: Tid, g: Gid) {
    t in s.tctxs && s.tctxs[t].state.Purgatory? && s.tctxs[t].gctx == g
  }

  ghost predicate Gone(s: State, t: Tid) {
    t !in s.tctxs && t < s.nextT
  }

  /** What is in purgatory stays there, and what is gone stays gone. */
  ghost predicate Keeps(s: State, s': State, t: Tid) {
    && (t in s.tctxs && s.tctxs[t].state.Purgatory? ==> InPurgatory(s', t, s.tctxs[t].gctx))
    && (Gone(s, t) ==> Gone(s', t))
  }

  /** The thread does not come to the check. */
  ghost predicate Elsewhere(s: State, s': State, th: Thr, t: Tid) {
    PcOf(s', th) == Checking(t) ==> PcOf(s, th) == Checking(t)
  }

  ghost predicate Quiet(s: State, s': State, th: Thr, t: Tid) {
    Keeps(s, s', t) && Elsewhere(s, s', th, t)
  }

  lemma FreshTid(s: State, t: Tid)
    requires Inv(s)
    ensures t in s.tctxs ==> t < s.nextT
  {
    hide SumInv, ScanInv, DumpListInv, InitializingInv, CacheInv, LinkInv, TctxOk, DoomedOnce, DoomedInv, DoomedOk,
         ThreadInv, PcInv, OrphanInv, LimboInv, RegInv, MtxInv;
  }

  // ---------------------------------------------------------------- single steps

  /** A step that is not about tctxs. */
  ghost predicate Apart(s: State, s': State, th: Thr, t: Tid) {
    s'.tctxs == s.tctxs && s'.nextT == s.nextT && Elsewhere(s, s', th, t)
  }

  lemma ApartQuiet(s: State, s': State, th: Thr, t: Tid)
    requires Apart(s, s', th, t)
    ensures Quiet(s, s', th, t)
  {
  }

  lemma EnterElsewhere(s: State, u: Thr, how: Insertion, th: Thr, t: Tid)
    ensures Elsewhere(s, DoEnter(s, u, how), th, t)
  {
  }

  lemma ApartEnter(s: State, u: Thr, how: Insertion, th: Thr, t: Tid)
    ensures Apart(s, DoEnter(s, u, how), th, t)
  {
    EnterElsewhere(s, u, how, th, t);
    hide Elsewhere;
  }

  lemma ApartHold(s: State, u: Thr, th: Thr, t: Tid)
    ensures Apart(s, DoHold(s, u), th, t)
  {
  }

  lemma ApartLeave(s: State, u: Thr, th: Thr, t: Tid)
    ensures Apart(s, DoLeave(s, u), th, t)
  {
    if PcOf(s, u).Leaving? || PcOf(s, u).Discarding? {
      assert !PcOf(DoLeave(s, u), u).Checking?;
    } else if PcOf(s, u).LeaveMtx? {
      assert PcOf(DoLeave(s, u), u) == Done(PcOf(s, u).fin);
    } else {
      assert DoLeave(s, u) == s;
    }
  }

  lemma ApartDestroy(s: State, u: Thr, th: Thr, t: Tid)
    ensures Apart(s, DoEnterDestroy(s, u), th, t)
  {
  }

  lemma ApartFree(s: State, u: Thr, th: Thr, t: Tid)
    ensures Apart(s, DoFreeGctx(s, u), th, t)
  {
  }

  lemma ApartTry(s: State, u: Thr, th: Thr, t: Tid)
    ensures Apart(s, DoTryDestroy(s, u), th, t)
  {
  }

  lemma ApartBegin(s: State, u: Thr, th: Thr, t: Tid)
    ensures Apart(s, DoDumpBegin(s, u), th, t)
  {
  }

  lemma ApartPrep(s: State, g: Gid, th: Thr, t: Tid)
    ensures Apart(s, DoDumpPrep(s, g), th, t)
  {
  }

  lemma ApartPrepared(s: State, threads: set<Thr>, th: Thr, t: Tid)
    ensures Apart(s, DoDumpPrepDone(s, threads), th, t)
  {
  }

  lemma ApartScan(s: State, owner: Thr, th: Thr, t: Tid)
    ensures Apart(s, DoDumpLockTdata(s, owner), th, t)
    ensures Apart(s, DoDumpSkipTdata(s, owner), th, t)
  {
  }

  lemma ApartScanned(s: State, th: Thr, t: Tid)
    ensures Apart(s, DoDumpUnlockTdata(s), th, t)
    ensures Apart(s, DoDumpScanDone(s), th, t)
  {
  }

  lemma ApartMerge(s: State, g: Gid, th: Thr, t: Tid)
    ensures Apart(s, DoDumpMerge(s, g), th, t)
  {
    hide CapturedOf, Accumulate, Unreached;
  }

  lemma ApartMerged(s: State, th: Thr, t: Tid)
    ensures Apart(s, DoDumpMergeDone(s), th, t)
  {
  }

  lemma ApartRead(s: State, g: Gid, th: Thr, t: Tid)
    ensures Apart(s, DoDumpRead(s, g), th, t)
  {
  }

  lemma ApartEnd(s: State, th: Thr, t: Tid)
    ensures Apart(s, DoDumpOutputDone(s), th, t)
    ensures Apart(s, DoDumpEnd(s), th, t)
  {
  }

  lemma LookupKeeps(s: State, u: Thr, bt: Bt, t: Tid)
    ensures Keeps(s, DoLookup(s, u, bt), t)
  {
  }

  lemma LookupElsewhere(s: State, u: Thr, bt: Bt, th: Thr, t: Tid)
    ensures Elsewhere(s, DoLookup(s, u, bt), th, t)
  {
  }

  lemma QuietLookup(s: State, u: Thr, bt: Bt, th: Thr, t: Tid)
    ensures Quiet(s, DoLookup(s, u, bt), th, t)
  {
    hide Keeps, Elsewhere, DoLookup;
    LookupKeeps(s, u, bt, t);
    LookupElsewhere(s, u, bt, th, t);
  }

  lemma GiveUpTctxs(s: State, u: Thr, g: Gid, isNew: bool, fin: Option<Tid>)
    ensures GiveUp(s, u, g, isNew, fin).tctxs == s.tctxs && GiveUp(s, u, g, isNew, fin).nextT == s.nextT
  {
  }

  lemma AttachTctxs(s: State, u: Thr, how: Insertion, t: Tid)
    requires t < s.nextT
    ensures t in DoAttach(s, u, how).tctxs <==> t in s.tctxs
    ensures t in s.tctxs ==> DoAttach(s, u, how).tctxs[t] == s.tctxs[t]
    ensures s.nextT <= DoAttach(s, u, how).nextT
  {
    if PcOf(s, u).Attaching? && how.Displaced? && (u, how.victim) in s.bt2tctx {
      var Attaching(bt, g, isNew) := PcOf(s, u);
      var x := Tctx(u, g, Initializing, false, ZERO, [], ZERO);
      GiveUpTctxs(s.(tctxs := s.tctxs[s.nextT := x], nextT := s.nextT + 1,
                     bt2tctx := (s.bt2tctx - {(u, how.victim)})[(u, bt) := s.nextT]), u, g, isNew, Some(s.nextT));
    } else if PcOf(s, u).Attaching? && how.NoMemory? {
      GiveUpTctxs(s, u, PcOf(s, u).g, PcOf(s, u).isNew, None);
    }
    hide GiveUp, TdataLocked;
  }

  lemma AttachKeeps(s: State, u: Thr, how: Insertion, t: Tid)
    requires Inv(s)
    ensures Keeps(s, DoAttach(s, u, how), t)
  {
    FreshTid(s, t);
    hide Inv, DoAttach;
    if t < s.nextT {
      AttachTctxs(s, u, how, t);
    }
  }

  lemma AttachElsewhere(s: State, u: Thr, how: Insertion, th: Thr, t: Tid)
    ensures Elsewhere(s, DoAttach(s, u, how), th, t)
  {
  }

  lemma QuietAttach(s: State, u: Thr, how: Insertion, th: Thr, t: Tid)
    requires Inv(s)
    ensures Quiet(s, DoAttach(s, u, how), th, t)
  {
    hide Inv, Keeps, Elsewhere, DoAttach;
    AttachKeeps(s, u, how, t);
    AttachElsewhere(s, u, how, th, t);
  }

  lemma QuietLink(s: State, u: Thr, th: Thr, t: Tid)
    requires Inv(s)
    ensures Quiet(s, DoLink(s, u), th, t)
  {
    hide Inv;
    SnapshotFacts(s, t);
    FreshTid(s, t);
  }

  lemma QuietSample(s: State, u: Thr, usize: nat, th: Thr, t: Tid)
    ensures Quiet(s, DoSample(s, u, usize), th, t)
  {
  }

  lemma RollbackKeeps(s: State, u: Thr, t: Tid)
    ensures Keeps(s, DoRollback(s, u), t)
  {
  }

  lemma RollbackElsewhere(s: State, u: Thr, th: Thr, t: Tid)
    ensures Elsewhere(s, DoRollback(s, u), th, t)
  {
  }

  lemma QuietRollback(s: State, u: Thr, th: Thr, t: Tid)
    ensures Quiet(s, DoRollback(s, u), th, t)
  {
    hide Keeps, Elsewhere, DoRollback;
    RollbackKeeps(s, u, t);
    RollbackElsewhere(s, u, th, t);
  }

  lemma FreeKeeps(s: State, u: Thr, k: Tid, i: nat, t: Tid)
    ensures Keeps(s, DoFreeObject(s, u, k, i), t)
  {
    if PcOf(s, u).Idle? && k in s.tctxs && i < |s.tctxs[k].objs| && !TdataLocked(s, s.tctxs[k].owner)
       && s.tctxs[k].cnts.curobjs > 0 && s.tctxs[k].cnts.curbytes >= s.tctxs[k].objs[i] {
      var x := s.tctxs[k];
      var c := x.cnts.(curobjs := x.cnts.curobjs - 1, curbytes := x.cnts.curbytes - x.objs[i]);
      var s1 := s.(tctxs := s.tctxs[k := x.(cnts := c, objs := x.objs[..i] + x.objs[i + 1..])]);
      DestroyKeeps(s1, u, k);
      assert DoFreeObject(s, u, k, i) == MaybeDestroy(s1, u, k);
    } else {
      assert DoFreeObject(s, u, k, i).tctxs == s.tctxs;
    }
    hide MaybeDestroy, DoFreeObject, TdataLocked;
  }

  lemma DestroyKeeps(s: State, u: Thr, k: Tid)
    requires k in s.tctxs
    ensures MaybeDestroy(s, u, k).tctxs == s.tctxs && MaybeDestroy(s, u, k).nextT == s.nextT
  {
  }

  lemma FreeElsewhere(s: State, u: Thr, k: Tid, i: nat, th: Thr, t: Tid)
    ensures Elsewhere(s, DoFreeObject(s, u, k, i), th, t)
  {
  }

  lemma QuietFree(s: State, u: Thr, k: Tid, i: nat, th: Thr, t: Tid)
    ensures Quiet(s, DoFreeObject(s, u, k, i), th, t)
  {
    hide Keeps, Elsewhere, DoFreeObject;
    FreeKeeps(s, u, k, i, t);
    FreeElsewhere(s, u, k, i, th, t);
  }

  lemma QuietFreeTctx(s: State, u: Thr, th: Thr, t: Tid)
    requires Inv(s)
    ensures Quiet(s, DoFreeTctx(s, u), th, t)
  {
    hide Inv;
    SnapshotFacts(s, t);
    FreshTid(s, t);
  }

  lemma QuietCheck(s: State, u: Thr, th: Thr, t: Tid)
    ensures Quiet(s, DoCheck(s, u), th, t)
  {
  }

  lemma TctxKeeps(s: State, u: Tid, t: Tid)
    ensures Keeps(s, DoDumpTctx(s, u), t)
  {
  }

  lemma TctxElsewhere(s: State, u: Tid, th: Thr, t: Tid)
    ensures Elsewhere(s, DoDumpTctx(s, u), th, t)
  {
  }

  lemma QuietTctx(s: State, u: Tid, th: Thr, t: Tid)
    ensures Quiet(s, DoDumpTctx(s, u), th, t)
  {
    hide Keeps, Elsewhere, DoDumpTctx;
    TctxKeeps(s, u, t);
    TctxElsewhere(s, u, th, t);
  }

  /** The dump is through with `g`. */
  predicate Finishes(s: State, a: Action, g: Gid) {
    a == DumpFinish(g) && s.dump.Dump? && s.dump.phase.Finish? && g in s.dump.list && PcOf(s, s.dump.self).Idle?
  }

  lemma FinishPcs(s: State, g: Gid, th: Thr, t: Tid)
    ensures PcOf(DoDumpFinish(s, g), th) == Checking(t) ==> PcOf(s, th) == Checking(t)
    ensures DoDumpFinish(s, g).nextT == s.nextT
    ensures t !in s.tctxs ==> t !in DoDumpFinish(s, g).tctxs
  {
    hide Unreached, InUse, PurgatoryOf;
  }

  lemma FinishKeeps(s: State, g: Gid, t: Tid)
    requires Inv(s) && t in s.tctxs && s.tctxs[t].gctx != g
    ensures Keeps(s, DoDumpFinish(s, g), t)
  {
    SnapshotFacts(s, t);
    FinishLeaves(s, g, t);
    hide Inv, DoDumpFinish;
  }

  lemma NotFinished(s: State, g: Gid)
    requires !Finishes(s, DumpFinish(g), g)
    ensures DoDumpFinish(s, g) == s
  {
  }

  lemma QuietFinish(s: State, g: Gid, th: Thr, t: Tid)
    requires Inv(s) && (t in s.tctxs && s.tctxs[t].state.Purgatory? ==> !Finishes(s, DumpFinish(g), s.tctxs[t].gctx))
    ensures Quiet(s, DoDumpFinish(s, g), th, t)
  {
    FinishPcs(s, g, th, t);
    hide Inv, DoDumpFinish;
    if !Finishes(s, DumpFinish(g), g) {
      NotFinished(s, g);
    } else if t in s.tctxs && s.tctxs[t].gctx != g {
      FinishKeeps(s, g, t);
    }
  }

  lemma UnlinkKeeps(s: State, u: Thr, t: Tid)
    requires Inv(s)
    ensures Keeps(s, DoUnlink(s, u), t)
  {
    hide Inv;
    if PcOf(s, u).Destroying? {
      UnlinkFacts(s, u);
    }
  }

  /** Unlinking is the way to the check. */
  lemma UnlinkPcs(s: State, u: Thr)
    requires PcOf(s, u).Destroying? && PcOf(s, u).t in s.tctxs && s.tctxs[PcOf(s, u).t].gctx in s.gctxs
    ensures var s', x := DoUnlink(s, u), s.tctxs[PcOf(s, u).t];
            && (x.state.Dumping? ==> s'.pcs == s.pcs[u := Checking(PcOf(s, u).t)]
                                     && s'.tctxs == s.tctxs[PcOf(s, u).t := x.(state := Purgatory)])
            && (x.state.Nominal? ==> u in s'.pcs && !s'.pcs[u].Checking? && s'.pcs == s.pcs[u := s'.pcs[u]])
  {
    hide GctxShouldDestroy;
  }

  lemma UnlinkLeads(s: State, u: Thr, th: Thr, t: Tid)
    requires Inv(s) && PcOf(DoUnlink(s, u), th) == Checking(t) && PcOf(s, th) != Checking(t)
    ensures u == th && PcOf(s, th) == Destroying(t) && t in s.tctxs && s.tctxs[t].state.Dumping?
    ensures InPurgatory(DoUnlink(s, u), t, s.tctxs[t].gctx)
  {
    hide Inv;
    assert PcOf(s, u).Destroying?;
    UnlinkFacts(s, u);
    UnlinkPcs(s, u);
    hide DoUnlink;
  }

  lemma ApartStep(s: State, a: Action, th: Thr, t: Tid)
    requires a.Enter? || a.Hold? || a.Leave? || a.EnterDestroy? || a.TryDestroy? || a.FreeGctx? || a.DumpBegin?
             || a.DumpPrep? || a.DumpPrepDone? || a.DumpLockTdata? || a.DumpSkipTdata? || a.DumpUnlockTdata?
             || a.DumpScanDone? || a.DumpMerge? || a.DumpMergeDone? || a.DumpRead? || a.DumpOutputDone? || a.DumpEnd?
    ensures Apart(s, Step(s, a), th, t)
  {
    hide DoEnter, DoHold, DoLeave, DoEnterDestroy, DoTryDestroy, DoFreeGctx, DoDumpBegin, DoDumpPrep,
         DoDumpPrepDone, DoDumpLockTdata, DoDumpSkipTdata, DoDumpUnlockTdata, DoDumpScanDone, DoDumpMerge,
         DoDumpMergeDone, DoDumpRead, DoDumpOutputDone, DoDumpEnd, Apart;
    match a
    case Enter(u, how) => ApartEnter(s, u, how, th, t);
    case Hold(u) => ApartHold(s, u, th, t);
    case Leave(u) => ApartLeave(s, u, th, t);
    case EnterDestroy(u) => ApartDestroy(s, u, th, t);
    case TryDestroy(u) => ApartTry(s, u, th, t);
    case FreeGctx(u) => ApartFree(s, u, th, t);
    case DumpBegin(u) => ApartBegin(s, u, th, t);
    case DumpPrep(g) => ApartPrep(s, g, th, t);
    case DumpPrepDone(threads) => ApartPrepared(s, threads, th, t);
    case DumpLockTdata(owner) => ApartScan(s, owner, th, t);
    case DumpSkipTdata(owner) => ApartScan(s, owner, th, t);
    case DumpUnlockTdata => ApartScanned(s, th, t);
    case DumpScanDone => ApartScanned(s, th, t);
    case DumpMerge(g) => ApartMerge(s, g, th, t);
    case DumpMergeDone => ApartMerged(s, th, t);
    case DumpRead(g) => ApartRead(s, g, th, t);
    case DumpOutputDone => ApartEnd(s, th, t);
    case DumpEnd => ApartEnd(s, th, t);
  }

  lemma QuietStep(s: State, a: Action, th: Thr, t: Tid)
    requires Inv(s) && !a.Unlink?
    requires t in s.tctxs && s.tctxs[t].state.Purgatory? ==> !Finishes(s, a, s.tctxs[t].gctx)
    ensures Quiet(s, Step(s, a), th, t)
  {
    hide Inv, DoLookup, DoEnter, DoHold, DoLeave, DoAttach, DoLink, DoSample, DoRollback, DoFreeObject, DoUnlink,
         DoEnterDestroy, DoTryDestroy, DoFreeGctx, DoFreeTctx, DoCheck, DoDumpBegin, DoDumpPrep, DoDumpPrepDone,
         DoDumpLockTdata, DoDumpSkipTdata, DoDumpTctx, DoDumpUnlockTdata, DoDumpScanDone, DoDumpMerge,
         DoDumpMergeDone, DoDumpRead, DoDumpOutputDone, DoDumpFinish, DoDumpEnd, Quiet;
    match a
    case Lookup(u, bt) => QuietLookup(s, u, bt, th, t);
    case Attach(u, how) => QuietAttach(s, u, how, th, t);
    case Link(u) => QuietLink(s, u, th, t);
    case Sample(u, usize) => QuietSample(s, u, usize, th, t);
    case Rollback(u) => QuietRollback(s, u, th, t);
    case FreeObject(u, k, i) => QuietFree(s, u, k, i, th, t);
    case FreeTctx(u) => QuietFreeTctx(s, u, th, t);
    case Check(u) => QuietCheck(s, u, th, t);
    case DumpTctx(u) => QuietTctx(s, u, th, t);
    case DumpFinish(g) => QuietFinish(s, g, th, t);
    case _ =>
      ApartStep(s, a, th, t);
      ApartQuiet(s, Step(s, a), th, t);
  }

  /** One step, for a tctx in purgatory or gone: only the dump, when it is through with its gctx, takes it out
      of purgatory, and then it is gone. */
  lemma PurgatoryStep(s: State, a: Action, t: Tid, g: Gid)
    requires Inv(s)
    ensures InPurgatory(s, t, g) && !Finishes(s, a, g) ==> InPurgatory(Step(s, a), t, g)
    ensures InPurgatory(s, t, g) && Finishes(s, a, g) ==> Gone(Step(s, a), t)
    ensures Gone(s, t) ==> Gone(Step(s, a), t)
  {
    hide Inv, DoDumpFinish, DoUnlink;
    if InPurgatory(s, t, g) && Finishes(s, a, g) {
      FinishFrees(s, g, t);
    } else if a.Unlink? {
      UnlinkKeeps(s, a.th, t);
    } else if InPurgatory(s, t, g) || Gone(s, t) {
      QuietStep(s, a, 0, t);
    }
  }

  lemma FinishFrees(s: State, g: Gid, t: Tid)
    requires Inv(s) && InPurgatory(s, t, g) && Finishes(s, DumpFinish(g), g)
    ensures Gone(DoDumpFinish(s, g), t)
  {
    FreshTid(s, t);
    FinishPcs(s, g, 0, t);
    FinishTakes(s, g, t);
    hide DoDumpFinish;
  }

  lemma FinishTakes(s: State, g: Gid, t: Tid)
    requires Inv(s) && InPurgatory(s, t, g) && Finishes(s, DumpFinish(g), g)
    ensures t !in DoDumpFinish(s, g).tctxs
  {
    PurgatoryLinked(s, t, g);
    KeepDumpFinish(s, g);
    NotBad(s, DoDumpFinish(s, g));
    TakenOut(s, g, t);
  }

  lemma TakenOut(s: State, g: Gid, t: Tid)
    requires InPurgatory(s, t, g) && Finishes(s, DumpFinish(g), g) && g in s.gctxs && t in s.gctxs[g].linked
    requires !DoDumpFinish(s, g).bad
    ensures t !in DoDumpFinish(s, g).tctxs
  {
    assert t in PurgatoryOf(s.gctxs, s.tctxs, g);
    hide Unreached, InUse, PurgatoryOf;
  }

  lemma PurgatoryLinked(s: State, t: Tid, g: Gid)
    requires Inv(s) && InPurgatory(s, t, g)
    ensures g in s.gctxs && t in s.gctxs[g].linked
  {
    hide SumInv, ScanInv, DumpListInv, InitializingInv, CacheInv, LinkInv, DoomedOnce, DoomedInv, DoomedOk,
         ThreadInv, PcInv, OrphanInv, LimboInv, RegInv, MtxInv;
    assert TctxOk(s.accum, s.gctxs, s.tctxs, s.bt2tctx, t);
  }

  lemma NotBad(s: State, s': State)
    requires Inv(s) && Inv(s')
    ensures !s.bad && !s'.bad
  {
  }

  // ---------------------------------------------------------------- runs

  /** The dump gets through with `g` along a run. */
  ghost predicate FinishesAlong(s: State, acts: seq<Action>, g: Gid)
    decreases |acts|
  {
    acts != [] && (Finishes(s, acts[0], g) || FinishesAlong(Step(s, acts[0]), acts[1..], g))
  }

  lemma {:induction false} Append(s: State, p: seq<Action>, q: seq<Action>)
    ensures Run(s, p + q) == Run(Run(s, p), q)
    decreases |p|
  {
    hide Step;
    if p == [] {
      assert p + q == q;
    } else {
      assert (p + q)[1..] == p[1..] + q;
      Append(Step(s, p[0]), p[1..], q);
    }
  }

  lemma {:induction false} GoneAlong(s: State, acts: seq<Action>, t: Tid)
    requires Inv(s) && Clean(acts) && Gone(s, t)
    ensures Gone(Run(s, acts), t)
    decreases |acts|
  {
    hide Inv, Step, Gone;
    if acts != [] {
      assert !MayDisplace(acts[0]);
      KeepStep(s, acts[0]);
      PurgatoryStep(s, acts[0], t, 0);
      GoneAlong(Step(s, acts[0]), acts[1..], t);
    }
  }

  /** A tctx in purgatory is freed along a run if and only if the dump gets through with its gctx. */
  lemma {:induction false} FreedExactly(s: State, acts: seq<Action>, t: Tid, g: Gid)
    requires Inv(s) && Clean(acts) && InPurgatory(s, t, g)
    ensures t !in Run(s, acts).tctxs <==> FinishesAlong(s, acts, g)
    decreases |acts|
  {
    hide Inv, Step;
    if acts != [] {
      assert !MayDisplace(acts[0]);
      var s1 := Step(s, acts[0]);
      KeepStep(s, acts[0]);
      PurgatoryStep(s, acts[0], t, g);
      if Finishes(s, acts[0], g) {
        GoneAlong(s1, acts[1..], t);
      } else {
        FreedExactly(s1, acts[1..], t, g);
      }
    }
  }

  /** Only the unlinking of a captured tctx leads a thread to the check. */
  lemma {:induction false} CameByUnlink(s: State, acts: seq<Action>, th: Thr, t: Tid) returns (i: nat)
    requires Inv(s) && Clean(acts) && PcOf(s, th) != Checking(t) && PcOf(Run(s, acts), th) == Checking(t)
    ensures i < |acts| && acts[i] == Unlink(th) && Inv(Run(s, acts[..i + 1]))
    ensures var before, after := Run(s, acts[..i]), Run(s, acts[..i + 1]);
            && PcOf(before, th) == Destroying(t) && t in before.tctxs && before.tctxs[t].state.Dumping?
            && InPurgatory(after, t, before.tctxs[t].gctx)
    decreases |acts|
  {
    hide Inv, Step, InPurgatory;
    assert !MayDisplace(acts[0]);
    var s1 := Step(s, acts[0]);
    KeepStep(s, acts[0]);
    if PcOf(s1, th) == Checking(t) {
      i := 0;
      CameAtOnce(s, acts[0], th, t);
      assert acts[..1] == [acts[0]] && acts[..0] == [] && [acts[0]][1..] == [];
    } else {
      i := CameByUnlink(s1, acts[1..], th, t);
      i := i + 1;
      assert acts[1..][..i] == acts[..i + 1][1..] && acts[1..][..i - 1] == acts[..i][1..];
    }
  }

  lemma CameAtOnce(s: State, a: Action, th: Thr, t: Tid)
    requires Inv(s) && PcOf(s, th) != Checking(t) && PcOf(Step(s, a), th) == Checking(t)
    ensures a == Unlink(th) && PcOf(s, th) == Destroying(t) && t in s.tctxs && s.tctxs[t].state.Dumping?
    ensures InPurgatory(Step(s, a), t, s.tctxs[t].gctx)
  {
    hide Inv, DoUnlink, DoDumpFinish;
    if a.Unlink? {
      UnlinkLeads(s, a.th, th, t);
    } else if a.DumpFinish? {
      FinishPcs(s, a.g, th, t);
    } else {
      QuietStep(s, a, th, t);
    }
  }

  /** The read of the check is of a freed tctx if and only if, after the thread had left the captured tctx in
      purgatory, the dump got through with its gctx. */
  lemma LateExactly(accum: bool, acts: seq<Action>, th: Thr) returns (i: nat)
    requires Clean(acts) && PcOf(Run(Init(accum), acts), th).Checking?
    ensures i < |acts| && acts[i] == Unlink(th)
    ensures var t, before := PcOf(Run(Init(accum), acts), th).t, Run(Init(accum), acts[..i]);
            && PcOf(before, th) == Destroying(t) && t in before.tctxs && before.tctxs[t].state.Dumping?
            && (ReadsFreed(Run(Init(accum), acts), Check(th)) <==>
                  FinishesAlong(Run(Init(accum), acts[..i + 1]), acts[i + 1..], before.tctxs[t].gctx))
  {
    var t := PcOf(Run(Init(accum), acts), th).t;
    InitInv(accum);
    assert PcOf(Init(accum), th) != Checking(t);
    hide Inv, Step, InPurgatory, Init, FinishesAlong, Clean, Run;
    i := CameByUnlink(Init(accum), acts, th, t);
    CleanRest(acts, i + 1);
    RunRest(Init(accum), acts, i + 1);
    FreedExactly(Run(Init(accum), acts[..i + 1]), acts[i + 1..], t, Run(Init(accum), acts[..i]).tctxs[t].gctx);
  }

  lemma RunRest(s: State, acts: seq<Action>, n: nat)
    requires n <= |acts|
    ensures Run(s, acts) == Run(Run(s, acts[..n]), acts[n..])
  {
    assert acts == acts[..n] + acts[n..];
    Append(s, acts[..n], acts[n..]);
  }

  lemma CleanRest(acts: seq<Action>, n: nat)
    requires Clean(acts) && n <= |acts|
    ensures Clean(acts[n..])
  {
  }

  /** A nominal tctx is there when it is read, since the thread that reads it is the one that frees it. */
  lemma NominalRead(accum: bool, acts: seq<Action>, th: Thr)
    requires Clean(acts) && PcOf(Run(Init(accum), acts), th).FreeingTctx?
    ensures PcOf(Run(Init(accum), acts), th).t in Run(Init(accum), acts).tctxs
  {
    InitInv(accum);
    hide Init, Step;
    KeepRun(Init(accum), acts);
    DropFacts(Run(Init(accum), acts), th);
  }
}
