/**
 What failures do to the profiling protocol.  An insertion that fails after it displaced an entry leaves a
 freed object in a table, and from then on, and only then, the protocol can go wrong.  A lookup that fails
 on a gctx it did not create keeps its limbo count for ever.
 */
module ProfFailures {
  import opened Wrappers
  import opened Tally
  import opened Prof
  import opened ProfSafety

  // ---------------------------------------------------------------- going wrong

  /** Some continuation, without a further failed insertion, goes wrong. */
  ghost predicate CanGoWrong(s: State) {
    exists more :: Clean(more) && Run(s, more).bad
  }

  lemma WrongNow(s: State)
    requires s.bad
    ensures CanGoWrong(s)
  {
    assert Clean([]) && Run(s, []).bad;
  }

  lemma WrongLater(s: State, a: Action)
    requires !MayDisplace(a) && CanGoWrong(Step(s, a))
    ensures CanGoWrong(s)
  {
    hide Step;
    var more :| Clean(more) && Run(Step(s, a), more).bad;
    var all := [a] + more;
    assert all[0] == a && all[1..] == more;
    assert Clean(all) && Run(s, all).bad;
  }

  // ---------------------------------------------------------------- a stale entry in the global table

  /** The global table leads to a gctx that is not there, and the big lock is free. */
  ghost predicate Dangling(s: State, bt: Bt, g: Gid) {
    bt in s.bt2gctx && s.bt2gctx[bt] == g && g !in s.gctxs && s.mtx.Free?
  }

  lemma FoundGoesWrong(s: State, th: Thr, bt: Bt, g: Gid)
    requires Dangling(s, bt, g) && PcOf(s, th) == Seeking(bt)
    ensures CanGoWrong(s)
  {
    hide CanGoWrong;
    var s1 := DoEnter(s, th, Stored);
    WrongNow(DoHold(s1, th));
    WrongLater(s1, Hold(th));
    WrongLater(s, Enter(th, Stored));
  }

  lemma IdleGoesWrong(s: State, th: Thr, bt: Bt, g: Gid)
    requires Dangling(s, bt, g) && PcOf(s, th).Idle? && (th, bt) !in s.bt2tctx && !TdataLocked(s, th)
    ensures CanGoWrong(s)
  {
    hide CanGoWrong;
    FoundGoesWrong(DoLookup(s, th, bt), th, bt, g);
    WrongLater(s, Lookup(th, bt));
  }

  lemma DiscardedGoesWrong(s: State, th: Thr, bt: Bt, g: Gid)
    requires bt in s.bt2gctx && s.bt2gctx[bt] == g && g in s.gctxs && s.mtx.Free?
    requires PcOf(s, th) == Freeing(g, None) && (th, bt) !in s.bt2tctx && !TdataLocked(s, th)
    ensures CanGoWrong(s)
  {
    hide CanGoWrong;
    IdleGoesWrong(DoFreeGctx(s, th), th, bt, g);
    WrongLater(s, FreeGctx(th));
  }

  lemma DiscardingGoesWrong(s: State, th: Thr, bt: Bt, g: Gid)
    requires bt in s.bt2gctx && s.bt2gctx[bt] == g && g in s.gctxs
    requires PcOf(s, th) == Discarding(g) && (th, bt) !in s.bt2tctx && !TdataLocked(s, th)
    ensures CanGoWrong(s)
  {
    hide CanGoWrong;
    DiscardedGoesWrong(DoLeave(s, th), th, bt, g);
    WrongLater(s, Leave(th));
  }

  /** The gctx of a failed insertion into the global table is freed, and found by the next lookup. */
  lemma EnterGoesWrong(s: State, th: Thr, victim: Bt)
    requires Inv(s) && Displaces(s, Enter(th, Displaced(victim)))
    ensures CanGoWrong(DoEnter(s, th, Displaced(victim)))
  {
    SeekingFacts(s, th);
    hide Inv, CanGoWrong;
    DiscardingGoesWrong(DoEnter(s, th, Displaced(victim)), th, PcOf(s, th).bt, s.nextG);
  }

  lemma SeekingFacts(s: State, th: Thr)
    requires Inv(s) && PcOf(s, th).Seeking? && s.mtx.Free?
    ensures (th, PcOf(s, th).bt) !in s.bt2tctx && !TdataLocked(s, th)
  {
    hide SumInv, ScanInv, DumpListInv, InitializingInv, CacheInv, LinkInv, TctxInv, TctxOk, DoomedOnce, DoomedInv,
         DoomedOk, OrphanInv, LimboInv, RegInv;
    assert PcInv(s.gctxs, s.tctxs, s.bt2gctx, s.bt2tctx, th, s.pcs[th]);
  }

  // ---------------------------------------------------------------- a stale entry in a thread's own table

  /** The thread's own table leads to a tctx that the thread is going to free. */
  ghost predicate Stale(s: State, th: Thr, bt: Bt, t: Tid) {
    && (th, bt) in s.bt2tctx && s.bt2tctx[(th, bt)] == t && t in s.tctxs
    && s.tctxs[t].state.Initializing? && s.tctxs[t].objs == [] && !s.tctxs[t].prepared
  }

  /** Once the tctx is freed, the thread's next lookup finds it. */
  lemma FreeingGoesWrong(s: State, th: Thr, bt: Bt, t: Tid)
    requires Stale(s, th, bt, t) && PcOf(s, th) == FreeingTctx(t) && !TdataLocked(s, th)
    ensures CanGoWrong(s)
  {
    hide CanGoWrong;
    var s1 := DoFreeTctx(s, th);
    var s2 := DoLookup(s1, th, bt);
    assert s2.bad;
    WrongNow(s2);
    WrongLater(s1, Lookup(th, bt));
    WrongLater(s, FreeTctx(th));
  }

  lemma GctxGoesWrong(s: State, th: Thr, bt: Bt, g: Gid, t: Tid)
    requires Stale(s, th, bt, t) && PcOf(s, th) == Freeing(g, Some(t)) && !TdataLocked(s, th)
    ensures CanGoWrong(s)
  {
    hide CanGoWrong;
    var s1 := DoFreeGctx(s, th);
    if s1.bad {
      WrongNow(s1);
    } else {
      FreeingGoesWrong(s1, th, bt, t);
    }
    WrongLater(s, FreeGctx(th));
  }

  lemma LeavingGoesWrong(s: State, th: Thr, bt: Bt, t: Tid)
    requires Stale(s, th, bt, t) && PcOf(s, th) == LeaveMtx(Some(t)) && !TdataLocked(s, th)
    ensures CanGoWrong(s)
  {
    hide CanGoWrong;
    FreeingGoesWrong(DoLeave(s, th), th, bt, t);
    WrongLater(s, Leave(th));
  }

  lemma TriedKeeps(s: State, th: Thr)
    ensures DoTryDestroy(s, th).tctxs == s.tctxs
    ensures DoTryDestroy(s, th).bt2tctx == s.bt2tctx
  {
    if PcOf(s, th).InDestroy? {
      var g := PcOf(s, th).g;
      if g in s.gctxs && s.gctxs[g].nlimbo > 0 {
        assert DoTryDestroy(s, th).tctxs == s.tctxs;
      }
    }
  }

  lemma TriedDump(s: State, th: Thr)
    ensures DoTryDestroy(s, th).dump == s.dump
  {
  }

  lemma Tried(s: State, th: Thr)
    requires PcOf(s, th).InDestroy?
    ensures var s1, fin := DoTryDestroy(s, th), PcOf(s, th).fin;
            || s1.bad || (PcOf(s1, th) == Freeing(PcOf(s, th).g, fin) && s1.mtx.Free?)
            || (PcOf(s1, th) == LeaveMtx(fin) && s1.mtx == s.mtx)
  {
    var InDestroy(g, fin) := PcOf(s, th);
    var s1 := DoTryDestroy(s, th);
    if g in s.gctxs && s.gctxs[g].nlimbo > 0 {
      if s.gctxs[g].linked == {} && s.gctxs[g].nlimbo == 1 {
        assert s1.bad || (s1.pcs == s.pcs[th := Freeing(g, fin)] && s1.mtx.Free?);
      } else {
        assert s1.pcs == s.pcs[th := LeaveMtx(fin)] && s1.mtx == s.mtx;
      }
    } else {
      assert s1.bad;
    }
    hide DoTryDestroy;
  }

  lemma TriedGoesWrong(s: State, th: Thr)
    requires CanGoWrong(DoTryDestroy(s, th))
    ensures CanGoWrong(s)
  {
    hide CanGoWrong;
    WrongLater(s, TryDestroy(th));
  }

  /** The thread gives the gctx up first. */
  lemma DestroyGoesWrong(s: State, th: Thr, bt: Bt, g: Gid, t: Tid)
    requires Stale(s, th, bt, t) && PcOf(s, th) == InDestroy(g, Some(t)) && !TdataLocked(s, th)
    ensures CanGoWrong(s)
  {
    hide CanGoWrong, DoTryDestroy;
    var s1 := DoTryDestroy(s, th);
    TriedKeeps(s, th);
    TriedDump(s, th);
    Tried(s, th);
    if s1.bad {
      WrongNow(s1);
    } else if PcOf(s1, th).Freeing? {
      GctxGoesWrong(s1, th, bt, g, t);
    } else {
      LeavingGoesWrong(s1, th, bt, t);
    }
    TriedGoesWrong(s, th);
  }

  lemma FreeMtxGoesWrong(s: State, th: Thr, bt: Bt, g: Gid, t: Tid)
    requires Stale(s, th, bt, t) && PcOf(s, th) == WantDestroy(g, Some(t)) && !TdataLocked(s, th) && s.mtx.Free?
    ensures CanGoWrong(s)
  {
    hide CanGoWrong;
    DestroyGoesWrong(DoEnterDestroy(s, th), th, bt, g, t);
    WrongLater(s, EnterDestroy(th));
  }

  /** Another thread has the big lock: it goes on until it leaves. */
  lemma ThreadGoesWrong(s: State, th: Thr, bt: Bt, g: Gid, t: Tid, u: Thr)
    requires Stale(s, th, bt, t) && PcOf(s, th) == WantDestroy(g, Some(t)) && !TdataLocked(s, th)
    requires u in s.pcs && HoldsMtx(s.pcs[u]) && s.mtx == ByThread(u)
    ensures CanGoWrong(s)
    decreases if s.pcs[u].Found? || s.pcs[u].InDestroy? then 1 else 0
  {
    hide CanGoWrong, OneStep;
    var s1 := OneStep(s, u);
    OneStepKeeps(s, u, th);
    if s1.bad {
      WrongNow(s1);
    } else if s1.mtx.Free? {
      FreeMtxGoesWrong(s1, th, bt, g, t);
    } else {
      ThreadGoesWrong(s1, th, bt, g, t, u);
    }
    StepGoesWrong(s, u);
  }

  /** What such a step leaves alone, and that it leaves the lock or comes closer to that. */
  ghost predicate GoesOn(s: State, s1: State, u: Thr, th: Thr) {
    && s1.tctxs == s.tctxs && s1.bt2tctx == s.bt2tctx && s1.dump == s.dump
    && (th != u ==> PcOf(s1, th) == PcOf(s, th))
    && (s1.bad || s1.mtx.Free?
        || (s1.mtx == s.mtx && u in s1.pcs && (s1.pcs[u].Leaving? || s1.pcs[u].LeaveMtx?)
            && (PcOf(s, u).Found? || PcOf(s, u).InDestroy?)))
  }

  lemma HoldGoesOn(s: State, u: Thr, th: Thr)
    requires PcOf(s, u).Found?
    ensures GoesOn(s, DoHold(s, u), u, th)
  {
  }

  lemma LeaveGoesOn(s: State, u: Thr, th: Thr)
    requires PcOf(s, u).Leaving? || PcOf(s, u).LeaveMtx? || PcOf(s, u).Discarding?
    ensures GoesOn(s, DoLeave(s, u), u, th)
  {
  }

  lemma TryGoesOn(s: State, u: Thr, th: Thr)
    requires PcOf(s, u).InDestroy?
    ensures GoesOn(s, DoTryDestroy(s, u), u, th)
  {
    TriedKeeps(s, u);
    TriedDump(s, u);
    TriedOthers(s, u, th);
    Tried(s, u);
    hide DoTryDestroy;
  }

  lemma OneStepKeeps(s: State, u: Thr, th: Thr)
    requires u in s.pcs && HoldsMtx(s.pcs[u]) && s.mtx == ByThread(u)
    ensures GoesOn(s, OneStep(s, u), u, th)
  {
    hide GoesOn, DoHold, DoTryDestroy, DoLeave;
    if s.pcs[u].Found? {
      HoldGoesOn(s, u, th);
    } else if s.pcs[u].InDestroy? {
      TryGoesOn(s, u, th);
    } else {
      LeaveGoesOn(s, u, th);
    }
  }

  lemma TriedOthers(s: State, u: Thr, th: Thr)
    ensures th != u ==> PcOf(DoTryDestroy(s, u), th) == PcOf(s, th)
    ensures u in s.pcs ==> u in DoTryDestroy(s, u).pcs
  {
    TriedPcs(s, u);
    hide DoTryDestroy;
  }

  lemma TriedPcs(s: State, u: Thr)
    ensures var s1 := DoTryDestroy(s, u);
            s1.pcs == s.pcs || s1.pcs == s.pcs[u := PcOf(s1, u)]
  {
  }

  /** What a thread does next that has the big lock. */
  function OneStep(s: State, u: Thr): State
    requires u in s.pcs && HoldsMtx(s.pcs[u])
  {
    if s.pcs[u].Found? then DoHold(s, u) else if s.pcs[u].InDestroy? then DoTryDestroy(s, u) else DoLeave(s, u)
  }

  lemma StepGoesWrong(s: State, u: Thr)
    requires u in s.pcs && HoldsMtx(s.pcs[u]) && CanGoWrong(OneStep(s, u))
    ensures CanGoWrong(s)
  {
    hide CanGoWrong;
    WrongLater(s, if s.pcs[u].Found? then Hold(u) else if s.pcs[u].InDestroy? then TryDestroy(u) else Leave(u));
  }

  ghost predicate Waits(s: State, th: Thr, bt: Bt, g: Gid, t: Tid) {
    Stale(s, th, bt, t) && PcOf(s, th) == WantDestroy(g, Some(t)) && s.dump.Dump?
  }

  /** A dump has the big lock: it goes on until it is through with merging. */
  lemma {:induction false} MergingGoesWrong(s: State, th: Thr, bt: Bt, g: Gid, t: Tid)
    requires Waits(s, th, bt, g, t) && s.dump.phase.Merge?
    ensures CanGoWrong(s)
    decreases s.dump.phase.todo
  {
    hide CanGoWrong;
    if s.dump.phase.todo == {} {
      FreeMtxGoesWrong(DoDumpMergeDone(s), th, bt, g, t);
      WrongLater(s, DumpMergeDone);
    } else {
      var k :| k in s.dump.phase.todo;
      var s1 := DoDumpMerge(s, k);
      if s1.bad {
        WrongNow(s1);
      } else {
        MergingGoesWrong(s1, th, bt, g, t);
      }
      WrongLater(s, DumpMerge(k));
    }
  }

  lemma {:induction false} ScanGoesWrong(s: State, th: Thr, bt: Bt, g: Gid, t: Tid)
    requires Waits(s, th, bt, g, t) && s.dump.phase.Scan?
    ensures CanGoWrong(s)
    decreases s.dump.phase.threads
  {
    hide CanGoWrong;
    if s.dump.phase.threads == {} {
      MergingGoesWrong(DoDumpScanDone(s), th, bt, g, t);
      WrongLater(s, DumpScanDone);
    } else {
      var u :| u in s.dump.phase.threads;
      ScanGoesWrong(DoDumpSkipTdata(s, u), th, bt, g, t);
      WrongLater(s, DumpSkipTdata(u));
    }
  }

  lemma {:induction false} TdataGoesWrong(s: State, th: Thr, bt: Bt, g: Gid, t: Tid)
    requires Waits(s, th, bt, g, t) && s.dump.phase.ScanTdata?
    ensures CanGoWrong(s)
    decreases s.dump.phase.rest
  {
    hide CanGoWrong;
    if s.dump.phase.rest == {} {
      ScanGoesWrong(DoDumpUnlockTdata(s), th, bt, g, t);
      WrongLater(s, DumpUnlockTdata);
    } else {
      var u :| u in s.dump.phase.rest;
      var s1 := DoDumpTctx(s, u);
      if s1.bad {
        WrongNow(s1);
      } else {
        TdataGoesWrong(s1, th, bt, g, t);
      }
      WrongLater(s, DumpTctx(u));
    }
  }

  lemma {:induction false} PrepGoesWrong(s: State, th: Thr, bt: Bt, g: Gid, t: Tid)
    requires Waits(s, th, bt, g, t) && s.dump.phase.Prep?
    ensures CanGoWrong(s)
    decreases s.dump.phase.todo
  {
    hide CanGoWrong;
    if s.dump.phase.todo == {} {
      ScanGoesWrong(DoDumpPrepDone(s, {}), th, bt, g, t);
      WrongLater(s, DumpPrepDone({}));
    } else {
      var k :| k in s.dump.phase.todo;
      var s1 := DoDumpPrep(s, k);
      if s1.bad {
        WrongNow(s1);
      } else {
        PrepGoesWrong(s1, th, bt, g, t);
      }
      WrongLater(s, DumpPrep(k));
    }
  }

  lemma WantGoesWrong(s: State, th: Thr, bt: Bt, g: Gid, t: Tid)
    requires Stale(s, th, bt, t) && PcOf(s, th) == WantDestroy(g, Some(t)) && !TdataLocked(s, th)
    requires MtxInv(s.mtx, s.pcs, s.dump)
    ensures CanGoWrong(s)
  {
    hide CanGoWrong;
    match s.mtx
    case Free => FreeMtxGoesWrong(s, th, bt, g, t);
    case ByThread(u) => ThreadGoesWrong(s, th, bt, g, t, u);
    case ByDump =>
      match s.dump.phase
      case Prep(_) => PrepGoesWrong(s, th, bt, g, t);
      case Scan(_) => ScanGoesWrong(s, th, bt, g, t);
      case ScanTdata(_, _, _, _) => TdataGoesWrong(s, th, bt, g, t);
      case Merge(_) => MergingGoesWrong(s, th, bt, g, t);
  }

  /** The tctx of a failed insertion into the thread's own table is freed, and found by its next lookup,
      whatever other threads and a dump are at. */
  lemma AttachGoesWrong(s: State, th: Thr, victim: Bt)
    requires Inv(s) && Displaces(s, Attach(th, Displaced(victim)))
    ensures CanGoWrong(DoAttach(s, th, Displaced(victim)))
  {
    hide CanGoWrong, SumInv, ScanInv, DumpListInv, InitializingInv, CacheInv, LinkInv, TctxInv, TctxOk, DoomedOnce,
         DoomedInv, DoomedOk, ThreadInv, PcInv, OrphanInv, LimboInv, RegInv;
    var Attaching(bt, g, isNew) := PcOf(s, th);
    var s1 := DoAttach(s, th, Displaced(victim));
    if isNew {
      WantGoesWrong(s1, th, bt, g, s.nextT);
    } else {
      FreeingGoesWrong(s1, th, bt, s.nextT);
    }
  }

  // ---------------------------------------------------------------- the exact condition

  /** From a state that a run without failed insertions reaches, the next action lets the protocol go wrong
      if and only if it is an insertion that fails and displaces an entry. */
  lemma WrongExactly(s: State, a: Action)
    requires Inv(s)
    ensures CanGoWrong(Step(s, a)) <==> Displaces(s, a)
  {
    hide Inv;
    if Displaces(s, a) {
      match a
      case Enter(th, Displaced(victim)) => EnterGoesWrong(s, th, victim);
      case Attach(th, Displaced(victim)) => AttachGoesWrong(s, th, victim);
    } else {
      KeepStep(s, a);
      forall more | Clean(more) ensures !Run(Step(s, a), more).bad {
        KeepRun(Step(s, a), more);
        NotBad(Run(Step(s, a), more));
      }
    }
  }

  lemma NotBad(s: State)
    requires Inv(s)
    ensures !s.bad
  {
  }

  lemma FailuresDecide(accum: bool, acts: seq<Action>, a: Action)
    requires Clean(acts)
    ensures CanGoWrong(Step(Run(Init(accum), acts), a)) <==> Displaces(Run(Init(accum), acts), a)
  {
    InitInv(accum);
    hide Inv, Init;
    KeepRun(Init(accum), acts);
    WrongExactly(Run(Init(accum), acts), a);
  }

  // ---------------------------------------------------------------- limbo counts that stay

  /** A lookup fails on a gctx that it did not create. */
  predicate Leaks(s: State, a: Action, g: Gid) {
    && a.Attach? && a.how.NoMemory? && !TdataLocked(s, a.th)
    && PcOf(s, a.th).Attaching? && PcOf(s, a.th).g == g && !PcOf(s, a.th).isNew
  }

  /** How many times that happens to `g` along a run. */
  ghost function LeakCount(s: State, acts: seq<Action>, g: Gid): nat
    decreases |acts|
  {
    if acts == [] then 0
    else (if Leaks(s, acts[0], g) then 1 else 0) + LeakCount(Step(s, acts[0]), acts[1..], g)
  }

  function LeakOf(s: State, g: Gid): Option<nat> {
    if g in s.gctxs then Some(s.gctxs[g].leaked) else None
  }

  ghost predicate SameLeak(s: State, s': State, g: Gid) {
    LeakOf(s', g) == LeakOf(s, g) && s'.nextG == s.nextG && s'.accum == s.accum
  }

  lemma LeakLookup(s: State, th: Thr, bt: Bt, g: Gid)
    ensures SameLeak(s, DoLookup(s, th, bt), g)
  {
  }

  lemma LeakHold(s: State, th: Thr, g: Gid)
    ensures SameLeak(s, DoHold(s, th), g)
  {
  }

  lemma LeakLeave(s: State, th: Thr, g: Gid)
    ensures SameLeak(s, DoLeave(s, th), g)
  {
  }

  lemma LeakUse(s: State, th: Thr, usize: nat, g: Gid)
    ensures SameLeak(s, DoLink(s, th), g)
    ensures SameLeak(s, DoSample(s, th, usize), g)
  {
  }

  lemma LeakRollback(s: State, th: Thr, g: Gid)
    ensures SameLeak(s, DoRollback(s, th), g)
    ensures SameLeak(s, DoFreeTctx(s, th), g)
  {
  }

  lemma LeakFree(s: State, th: Thr, t: Tid, i: nat, g: Gid)
    ensures SameLeak(s, DoFreeObject(s, th, t, i), g)
  {
  }

  lemma LeakUnlink(s: State, th: Thr, g: Gid)
    ensures SameLeak(s, DoUnlink(s, th), g)
  {
  }

  lemma LeakDestroy(s: State, th: Thr, g: Gid)
    ensures SameLeak(s, DoEnterDestroy(s, th), g)
  {
  }

  lemma LeakTry(s: State, th: Thr, g: Gid)
    ensures SameLeak(s, DoTryDestroy(s, th), g)
  {
  }

  lemma LeakDump(s: State, th: Thr, threads: set<Thr>, g: Gid)
    ensures SameLeak(s, DoDumpBegin(s, th), g)
    ensures SameLeak(s, DoDumpPrepDone(s, threads), g)
  {
  }

  lemma LeakPrep(s: State, k: Gid, g: Gid)
    ensures SameLeak(s, DoDumpPrep(s, k), g)
  {
  }

  lemma LeakScan(s: State, owner: Thr, g: Gid)
    ensures SameLeak(s, DoDumpLockTdata(s, owner), g)
    ensures SameLeak(s, DoDumpSkipTdata(s, owner), g)
  {
  }

  lemma LeakTctx(s: State, t: Tid, g: Gid)
    ensures SameLeak(s, DoDumpTctx(s, t), g)
  {
  }

  lemma LeakScanned(s: State, g: Gid)
    ensures SameLeak(s, DoDumpUnlockTdata(s), g)
    ensures SameLeak(s, DoDumpScanDone(s), g)
  {
  }

  lemma LeakMerged(s: State, g: Gid)
    ensures SameLeak(s, DoDumpMergeDone(s), g)
  {
  }

  lemma LeakDone(s: State, g: Gid)
    ensures SameLeak(s, DoDumpOutputDone(s), g)
    ensures SameLeak(s, DoDumpEnd(s), g)
  {
  }

  lemma LeakMerge(s: State, k: Gid, g: Gid)
    ensures SameLeak(s, DoDumpMerge(s, k), g)
  {
    hide CapturedOf, Accumulate, Unreached;
    if s.dump.Dump? && s.dump.phase.Merge? && k in s.dump.phase.todo && k in s.gctxs && !Unreached(s.tctxs, s.gctxs[k]) {
      var x := DoDumpMerge(s, k).gctxs[k];
      assert DoDumpMerge(s, k).gctxs == s.gctxs[k := x] && x.leaked == s.gctxs[k].leaked;
      hide DoDumpMerge;
    } else {
      assert DoDumpMerge(s, k).gctxs == s.gctxs;
    }
  }

  lemma LeakRead(s: State, k: Gid, g: Gid)
    ensures SameLeak(s, DoDumpRead(s, k), g)
  {
  }

  lemma LeakCheck(s: State, th: Thr, g: Gid)
    ensures SameLeak(s, DoCheck(s, th), g)
  {
  }

  lemma LeakFinish(s: State, k: Gid, g: Gid)
    ensures SameLeak(s, DoDumpFinish(s, k), g)
  {
    hide Unreached, InUse, PurgatoryOf;
  }

  /** What a step does to the count: a new gctx starts without, only a failed lookup adds to it, and a gctx
      with one is not freed. */
  ghost predicate LeakMoves(s: State, a: Action, g: Gid, s': State) {
    && s.nextG <= s'.nextG && s'.accum == s.accum
    && match LeakOf(s, g)
       case None => !Leaks(s, a, g) && (LeakOf(s', g) == None || (LeakOf(s', g) == Some(0) && s.nextG <= g))
       case Some(n) =>
         || (!Leaks(s, a, g) && n == 0 && LeakOf(s', g) == None && g < s'.nextG)
         || LeakOf(s', g) == Some(n + if Leaks(s, a, g) then 1 else 0)
  }

  lemma LeakEnter(s: State, th: Thr, how: Insertion, g: Gid)
    requires Inv(s) && !Displaces(s, Enter(th, how))
    ensures LeakMoves(s, Enter(th, how), g, DoEnter(s, th, how))
  {
    FreshNames(s, g);
    hide Inv, TdataLocked;
    var s' := DoEnter(s, th, how);
    if PcOf(s, th).Seeking? && s.mtx.Free? && PcOf(s, th).bt !in s.bt2gctx && how.Stored? {
      EnterNew(s, th, g);
    } else {
      assert s'.gctxs == s.gctxs && s'.nextG == s.nextG && s'.accum == s.accum;
      hide DoEnter;
      SameMoves(s, Enter(th, how), g, s');
    }
  }

  lemma EnterNew(s: State, th: Thr, g: Gid)
    requires PcOf(s, th).Seeking? && s.mtx.Free? && PcOf(s, th).bt !in s.bt2gctx && (g in s.gctxs ==> g < s.nextG)
    ensures LeakMoves(s, Enter(th, Stored), g, DoEnter(s, th, Stored))
  {
    var s' := DoEnter(s, th, Stored);
    assert s'.gctxs == s.gctxs[s.nextG := Gctx(PcOf(s, th).bt, 1, {}, ZERO, 0)];
    assert s'.nextG == s.nextG + 1 && s'.accum == s.accum;
    hide DoEnter;
  }

  lemma FreshNames(s: State, g: Gid)
    requires Inv(s)
    ensures g in s.gctxs ==> g < s.nextG
  {
    hide SumInv, ScanInv, DumpListInv, InitializingInv, CacheInv, LinkInv, TctxInv, TctxOk, DoomedOnce, DoomedInv,
         DoomedOk, ThreadInv, PcInv, OrphanInv, LimboInv, MtxInv;
  }

  lemma LeakAttach(s: State, th: Thr, how: Insertion, g: Gid)
    requires Inv(s) && !Displaces(s, Attach(th, how))
    ensures LeakMoves(s, Attach(th, how), g, DoAttach(s, th, how))
  {
    hide Inv;
    if PcOf(s, th).Attaching? {
      AttachFacts(s, th);
    }
  }

  lemma FreeingIsSpare(s: State, th: Thr)
    requires Inv(s) && PcOf(s, th).Freeing?
    ensures PcOf(s, th).g in s.gctxs && s.gctxs[PcOf(s, th).g].leaked == 0 && PcOf(s, th).g < s.nextG
  {
    hide SumInv, ScanInv, DumpListInv, InitializingInv, CacheInv, LinkInv, TctxInv, TctxOk, DoomedOnce, DoomedInv,
         DoomedOk, OrphanInv, LimboInv, MtxInv;
    assert PcInv(s.gctxs, s.tctxs, s.bt2gctx, s.bt2tctx, th, s.pcs[th]);
  }

  lemma LeakFreeGctx(s: State, th: Thr, g: Gid)
    requires Inv(s)
    ensures LeakMoves(s, FreeGctx(th), g, DoFreeGctx(s, th))
  {
    hide Inv;
    if PcOf(s, th).Freeing? {
      FreeingIsSpare(s, th);
    }
  }

  lemma SameMoves(s: State, a: Action, g: Gid, s': State)
    requires SameLeak(s, s', g) && !a.Attach?
    ensures LeakMoves(s, a, g, s')
  {
  }

  lemma LeakStep(s: State, a: Action, g: Gid)
    requires Inv(s) && !Displaces(s, a)
    ensures LeakMoves(s, a, g, Step(s, a))
  {
    hide Inv, DoLookup, DoEnter, DoHold, DoLeave, DoAttach, DoLink, DoSample, DoRollback, DoFreeObject, DoUnlink,
         DoEnterDestroy, DoTryDestroy, DoFreeGctx, DoFreeTctx, DoCheck, DoDumpBegin, DoDumpPrep, DoDumpPrepDone,
         DoDumpLockTdata, DoDumpSkipTdata, DoDumpTctx, DoDumpUnlockTdata, DoDumpScanDone, DoDumpMerge,
         DoDumpMergeDone, DoDumpRead, DoDumpOutputDone, DoDumpFinish, DoDumpEnd, LeakMoves, SameLeak;
    if !a.Enter? && !a.Attach? && !a.FreeGctx? && SameLeak(s, Step(s, a), g) {
      SameMoves(s, a, g, Step(s, a));
    }
    match a
    case Lookup(th, bt) => LeakLookup(s, th, bt, g);
    case Enter(th, how) => LeakEnter(s, th, how, g);
    case Hold(th) => LeakHold(s, th, g);
    case Leave(th) => LeakLeave(s, th, g);
    case Attach(th, how) => LeakAttach(s, th, how, g);
    case Link(th) => LeakUse(s, th, 0, g);
    case Sample(th, usize) => LeakUse(s, th, usize, g);
    case Rollback(th) => LeakRollback(s, th, g);
    case FreeObject(th, t, i) => LeakFree(s, th, t, i, g);
    case Unlink(th) => LeakUnlink(s, th, g);
    case EnterDestroy(th) => LeakDestroy(s, th, g);
    case TryDestroy(th) => LeakTry(s, th, g);
    case FreeGctx(th) => LeakFreeGctx(s, th, g);
    case FreeTctx(th) => LeakRollback(s, th, g);
    case Check(th) => LeakCheck(s, th, g);
    case DumpBegin(th) => LeakDump(s, th, {}, g);
    case DumpPrep(k) => LeakPrep(s, k, g);
    case DumpPrepDone(threads) => LeakDump(s, 0, threads, g);
    case DumpLockTdata(owner) => LeakScan(s, owner, g);
    case DumpSkipTdata(owner) => LeakScan(s, owner, g);
    case DumpTctx(t) => LeakTctx(s, t, g);
    case DumpUnlockTdata => LeakScanned(s, g);
    case DumpScanDone => LeakScanned(s, g);
    case DumpMerge(k) => LeakMerge(s, k, g);
    case DumpMergeDone => LeakMerged(s, g);
    case DumpRead(k) => LeakRead(s, k, g);
    case DumpOutputDone => LeakDone(s, g);
    case DumpFinish(k) => LeakFinish(s, k, g);
    case DumpEnd => LeakDone(s, g);
  }

  /** A gctx that was freed does not come back. */
  lemma {:induction false} GoneForGood(s: State, acts: seq<Action>, g: Gid)
    requires Inv(s) && Clean(acts) && g !in s.gctxs && g < s.nextG
    ensures g !in Run(s, acts).gctxs && LeakCount(s, acts, g) == 0
    decreases |acts|
  {
    hide Inv, Step;
    if acts != [] {
      assert !MayDisplace(acts[0]);
      KeepStep(s, acts[0]);
      LeakStep(s, acts[0], g);
      GoneForGood(Step(s, acts[0]), acts[1..], g);
    }
  }

  /** The limbo counts that nobody will give back are exactly the failed lookups that did not create the
      gctx; with one of them the gctx is there, after whatever else happens. */
  lemma {:induction false} LeakedIs(s: State, acts: seq<Action>, g: Gid)
    requires Inv(s) && Clean(acts)
    ensures var s', before := Run(s, acts), if g in s.gctxs then s.gctxs[g].leaked else 0;
            && (g in s'.gctxs ==> s'.gctxs[g].leaked == before + LeakCount(s, acts, g))
            && (before + LeakCount(s, acts, g) > 0 ==> g in s'.gctxs)
            && s'.accum == s.accum
    decreases |acts|
  {
    hide Inv, Step;
    if acts != [] {
      assert !MayDisplace(acts[0]);
      KeepStep(s, acts[0]);
      LeakStep(s, acts[0], g);
      var s1 := Step(s, acts[0]);
      LeakedIs(s1, acts[1..], g);
      if g in s.gctxs && g !in s1.gctxs {
        GoneForGood(s1, acts[1..], g);
      }
    }
  }

  /** Unless counters are accumulated: when all threads are between calls and no dump runs, a gctx without
      tctxs is there only if a lookup failed on it that did not create it; and a gctx on which that happened
      is there, and stays. */
  lemma OrphansExactly(acts: seq<Action>, g: Gid, more: seq<Action>)
    requires Clean(acts) && Clean(more)
    requires var s := Run(Init(false), acts); s.dump.NoDump? && forall th :: th in s.pcs ==> s.pcs[th].Idle?
    ensures var s, n := Run(Init(false), acts), LeakCount(Init(false), acts, g);
            && (g in s.gctxs && s.gctxs[g].linked == {} ==> n > 0)
            && (n > 0 ==> g in s.gctxs && g in Run(s, more).gctxs)
  {
    var s := Run(Init(false), acts);
    InitInv(false);
    hide Inv;
    KeepRun(Init(false), acts);
    LeakedIs(Init(false), acts, g);
    LeakedIs(s, more, g);
    if g in s.gctxs && s.gctxs[g].linked == {} && s.gctxs[g].leaked == 0 {
      assert Holders(s.pcs, g) == {} && g !in ListOf(s.dump);
      NoOrphans(false, acts, g);
    }
  }
}
