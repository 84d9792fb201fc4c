/** What a dump of the profile captures: all that it is to visit, with the counters of that moment. */
module ProfDump {
  import opened Wrappers
  import opened Tally
  import opened Prof
  import opened ProfSafety

  /** `t` is in the table of `owner`. */
  ghost predicate Owns(s: State, owner: Thr, t: Tid) {
    t in s.tctxs && s.tctxs[t].owner == owner && Cached(s.gctxs, s.tctxs, s.bt2tctx, t)
  }

  ghost predicate Scanning(s: State) {
    s.dump.Dump? && s.dump.phase.ScanTdata?
  }

  /** The scan has yet to visit `t`. */
  ghost predicate Awaits(s: State, t: Tid) {
    Scanning(s) && t in s.dump.phase.rest && t in s.tctxs
  }

  /** The action leaves the dump, the counters of `t`, and its being linked, alone. */
  ghost predicate Rests(s: State, s': State, t: Tid) {
    && s'.dump == s.dump && (t in s.tctxs ==> t in s'.tctxs && s'.tctxs[t].cnts == s.tctxs[t].cnts)
    && (t in s.tctxs && s.tctxs[t].state.Nominal? ==> s'.tctxs[t].state.Nominal?)
  }

  /** What keeps other threads from a tctx that is to be visited. */
  ghost predicate Guarded(s: State, t: Tid) {
    && Awaits(s, t) && TdataLocked(s, s.tctxs[t].owner) && t < s.nextT
    && (forall th :: Doomed(PcOf(s, th)) != Some(t))
    && (forall th, bt :: (th, bt) in s.bt2tctx && s.bt2tctx[(th, bt)] == t ==> th == s.tctxs[t].owner)
  }

  lemma AwaitsGuarded(s: State, t: Tid)
    requires Inv(s) && Scanning(s) && t in s.dump.phase.rest
    ensures Guarded(s, t) && Owns(s, s.dump.phase.th, t) && !IsCaptured(s.tctxs[t])
  {
    hide SumInv, DumpListInv, InitializingInv, LinkInv, DoomedOnce, ThreadInv, OrphanInv, LimboInv, RegInv, MtxInv,
         CntsInv;
    assert Cached(s.gctxs, s.tctxs, s.bt2tctx, t);
    assert t < s.nextT by {
      assert TctxOk(s.accum, s.gctxs, s.tctxs, s.bt2tctx, t);
    }
    forall th ensures Doomed(PcOf(s, th)) != Some(t) {
      assert th in s.pcs && Doomed(s.pcs[th]).Some? ==>
          DoomedOk(s.accum, s.gctxs, s.tctxs, s.bt2tctx, s.pcs[th], Doomed(s.pcs[th]).value);
    }
  }

  lemma LookupRests(s: State, th: Thr, bt: Bt, t: Tid)
    requires Guarded(s, t)
    ensures Rests(s, DoLookup(s, th, bt), t)
  {
  }

  lemma AttachRests(s: State, th: Thr, how: Insertion, t: Tid)
    requires Guarded(s, t)
    ensures Rests(s, DoAttach(s, th, how), t)
  {
  }

  lemma LinkRests(s: State, th: Thr, t: Tid)
    requires Guarded(s, t)
    ensures Rests(s, DoLink(s, th), t)
  {
  }

  lemma SampleRests(s: State, th: Thr, usize: nat, t: Tid)
    requires Guarded(s, t)
    ensures Rests(s, DoSample(s, th, usize), t)
  {
  }

  lemma MaybeRests(s: State, th: Thr, u: Tid)
    requires u in s.tctxs
    ensures MaybeDestroy(s, th, u).tctxs == s.tctxs && MaybeDestroy(s, th, u).dump == s.dump
  {
  }

  lemma RollbackRests(s: State, th: Thr, t: Tid)
    requires Guarded(s, t)
    ensures Rests(s, DoRollback(s, th), t)
  {
    hide MaybeDestroy;
    if PcOf(s, th).Prepared? && PcOf(s, th).t in s.tctxs {
      var u := PcOf(s, th).t;
      MaybeRests(s.(tctxs := s.tctxs[u := s.tctxs[u].(prepared := false)]), th, u);
    }
  }

  lemma FreeRests(s: State, th: Thr, u: Tid, i: nat, t: Tid)
    requires Guarded(s, t)
    ensures Rests(s, DoFreeObject(s, th, u, i), t)
  {
    hide MaybeDestroy;
    if u in s.tctxs && i < |s.tctxs[u].objs| {
      var x := s.tctxs[u];
      var usize := x.objs[i];
      if x.cnts.curobjs > 0 && x.cnts.curbytes >= usize {
        var c := x.cnts.(curobjs := x.cnts.curobjs - 1, curbytes := x.cnts.curbytes - usize);
        MaybeRests(s.(tctxs := s.tctxs[u := x.(cnts := c, objs := x.objs[..i] + x.objs[i + 1..])]), th, u);
      }
    }
  }

  lemma UnlinkRests(s: State, th: Thr, t: Tid)
    requires Guarded(s, t)
    ensures Rests(s, DoUnlink(s, th), t)
  {
    assert Doomed(PcOf(s, th)) != Some(t);
    hide Guarded;
  }

  lemma FreeTctxRests(s: State, th: Thr, t: Tid)
    requires Guarded(s, t)
    ensures Rests(s, DoFreeTctx(s, th), t)
  {
    assert Doomed(PcOf(s, th)) != Some(t);
    hide Guarded;
  }

  lemma EnterRests(s: State, th: Thr, how: Insertion, t: Tid)
    ensures Rests(s, DoEnter(s, th, how), t)
  {
  }

  lemma HoldRests(s: State, th: Thr, t: Tid)
    ensures Rests(s, DoHold(s, th), t)
    ensures Rests(s, DoLeave(s, th), t)
  {
  }

  lemma DestroyRests(s: State, th: Thr, t: Tid)
    ensures Rests(s, DoEnterDestroy(s, th), t)
    ensures Rests(s, DoFreeGctx(s, th), t)
    ensures Rests(s, DoCheck(s, th), t)
  {
  }

  lemma TryRests(s: State, th: Thr, t: Tid)
    ensures Rests(s, DoTryDestroy(s, th), t)
  {
  }

  lemma ThreadRests(s: State, a: Action, t: Tid)
    requires Guarded(s, t) && !OfDump(a)
    ensures Rests(s, Step(s, a), t)
  {
    hide Guarded, Rests, DoLookup, DoEnter, DoHold, DoLeave, DoAttach, DoLink, DoSample, DoRollback, DoFreeObject,
         DoUnlink, DoEnterDestroy, DoTryDestroy, DoFreeGctx, DoFreeTctx, DoCheck;
    match a
    case Lookup(th, bt) => LookupRests(s, th, bt, t);
    case Enter(th, how) => EnterRests(s, th, how, t);
    case Hold(th) => HoldRests(s, th, t);
    case Leave(th) => HoldRests(s, th, t);
    case Attach(th, how) => AttachRests(s, th, how, t);
    case Link(th) => LinkRests(s, th, t);
    case Sample(th, usize) => SampleRests(s, th, usize, t);
    case Rollback(th) => RollbackRests(s, th, t);
    case FreeObject(th, u, i) => FreeRests(s, th, u, i, t);
    case Unlink(th) => UnlinkRests(s, th, t);
    case EnterDestroy(th) => DestroyRests(s, th, t);
    case TryDestroy(th) => TryRests(s, th, t);
    case FreeGctx(th) => DestroyRests(s, th, t);
    case FreeTctx(th) => FreeTctxRests(s, th, t);
    case Check(th) => DestroyRests(s, th, t);
  }

  // ---------------------------------------------------------------- the scan of one table

  lemma OtherDump(s: State, a: Action)
    requires Scanning(s) && OfDump(a) && !a.DumpTctx? && !a.DumpUnlockTdata?
    ensures Step(s, a) == s
  {
  }

  lemma UnlockOnly(s: State)
    requires Scanning(s) && Scanning(Step(s, DumpUnlockTdata))
    ensures Step(s, DumpUnlockTdata) == s
  {
  }

  lemma Visit(s: State, u: Tid, t: Tid)
    requires Inv(s) && Scanning(s) && u in s.dump.phase.rest
    ensures var s' := Step(s, DumpTctx(u));
            && Scanning(s') && s'.dump.phase.th == s.dump.phase.th && s'.dump.phase.rest == s.dump.phase.rest - {u}
            && (t in s.tctxs && t != u ==> t in s'.tctxs && s'.tctxs[t] == s.tctxs[t])
            && (u in s.tctxs && s.tctxs[u].state.Nominal? ==> Snapshot(s', u) == Some(s.tctxs[u].cnts))
            && (u in s.tctxs && s.tctxs[u].state.Initializing? ==> Snapshot(s', u) == None)
  {
    hide Inv, Guarded;
    AwaitsGuarded(s, u);
    assert s.tctxs[u].gctx in s.gctxs;
    if s.tctxs[u].state.Nominal? {
      VisitNominal(s, u);
    }
  }

  lemma VisitNominal(s: State, u: Tid)
    requires Scanning(s) && u in s.dump.phase.rest && u in s.tctxs && s.tctxs[u].gctx in s.gctxs
    requires s.tctxs[u].state.Nominal?
    ensures Snapshot(Step(s, DumpTctx(u)), u) == Some(s.tctxs[u].cnts)
  {
  }

  /** How far the scan of `owner` has come with a tctx of that thread that had the counters `c` at the lock;
      `due` if it was nominal then. */
  ghost predicate Scanned(s: State, owner: Thr, t: Tid, c: Cnt, due: bool) {
    && Scanning(s) && s.dump.phase.th == owner
    && if t in s.dump.phase.rest then t in s.tctxs && s.tctxs[t].cnts == c && (due ==> s.tctxs[t].state.Nominal?)
       else Snapshot(s, t) == Some(c) || (!due && Snapshot(s, t) == None)
  }

  lemma NoFinish(s: State, a: Action, t: Tid)
    requires Inv(s) && Scanning(s) && !(a == DumpTctx(t) && t in s.dump.phase.rest)
    ensures Snapshot(Step(s, a), t) == Snapshot(s, t)
  {
    if a.DumpFinish? {
      OtherDump(s, a);
    } else if a == DumpTctx(t) {
      assert Step(s, a) == s;
    } else {
      hide Inv, Step, Snapshot;
      SnapshotKept(s, a, t);
    }
  }

  lemma ScanStep(s: State, a: Action, owner: Thr, t: Tid, c: Cnt, due: bool)
    requires Inv(s) && Scanned(s, owner, t, c, due) && Scanning(Step(s, a))
    ensures Scanned(Step(s, a), owner, t, c, due)
  {
    hide Inv, Step, Snapshot, OfDump;
    if t !in s.dump.phase.rest {
      NoFinish(s, a, t);
      RestShrinks(s, a, t);
    } else {
      AwaitsGuarded(s, t);
      if !OfDump(a) {
        ThreadRests(s, a, t);
      } else if a == DumpTctx(t) {
        Visit(s, t, t);
      } else if a.DumpTctx? && a.t in s.dump.phase.rest {
        Visit(s, a.t, t);
      } else {
        SameDump(s, a);
      }
    }
  }

  lemma SameDump(s: State, a: Action)
    requires Scanning(s) && Scanning(Step(s, a)) && OfDump(a) && !(a.DumpTctx? && a.t in s.dump.phase.rest)
    ensures Step(s, a) == s
  {
    if a.DumpUnlockTdata? {
      UnlockOnly(s);
    } else if !a.DumpTctx? {
      OtherDump(s, a);
    }
  }

  lemma RestShrinks(s: State, a: Action, t: Tid)
    requires Inv(s) && Scanning(s) && Scanning(Step(s, a)) && t !in s.dump.phase.rest
    ensures Step(s, a).dump.phase.th == s.dump.phase.th && t !in Step(s, a).dump.phase.rest
  {
    hide Inv, Step, OfDump;
    if !OfDump(a) {
      ThreadDump(s, a);
    } else if a.DumpTctx? && a.t in s.dump.phase.rest {
      Visit(s, a.t, t);
    } else {
      SameDump(s, a);
    }
  }

  /** What threads do is no concern of the dump. */
  lemma ThreadDump(s: State, a: Action)
    requires !OfDump(a)
    ensures Step(s, a).dump == s.dump
  {
    hide DoLookup, DoEnter, DoHold, DoLeave, DoAttach, DoLink, DoSample, DoRollback, DoFreeObject, DoUnlink,
         DoEnterDestroy, DoTryDestroy, DoFreeGctx, DoFreeTctx, DoCheck;
    var t: Tid := 0;
    match a
    case Lookup(th, bt) => LookupDump(s, th, bt);
    case Enter(th, how) => EnterRests(s, th, how, t);
    case Hold(th) => HoldRests(s, th, t);
    case Leave(th) => HoldRests(s, th, t);
    case Attach(th, how) => AttachDump(s, th, how);
    case Link(th) => LinkDump(s, th);
    case Sample(th, usize) => SampleDump(s, th, usize);
    case Rollback(th) => RollbackDump(s, th);
    case FreeObject(th, u, i) => FreeDump(s, th, u, i);
    case Unlink(th) => UnlinkDump(s, th);
    case EnterDestroy(th) => DestroyRests(s, th, t);
    case TryDestroy(th) => TryRests(s, th, t);
    case FreeGctx(th) => DestroyRests(s, th, t);
    case FreeTctx(th) => FreeTctxDump(s, th);
    case Check(th) => DestroyRests(s, th, t);
  }

  lemma LookupDump(s: State, th: Thr, bt: Bt)
    ensures DoLookup(s, th, bt).dump == s.dump
  {
  }

  lemma AttachDump(s: State, th: Thr, how: Insertion)
    ensures DoAttach(s, th, how).dump == s.dump
  {
  }

  lemma LinkDump(s: State, th: Thr)
    ensures DoLink(s, th).dump == s.dump
  {
  }

  lemma SampleDump(s: State, th: Thr, usize: nat)
    ensures DoSample(s, th, usize).dump == s.dump
  {
  }

  lemma RollbackDump(s: State, th: Thr)
    ensures DoRollback(s, th).dump == s.dump
  {
  }

  lemma FreeDump(s: State, th: Thr, u: Tid, i: nat)
    ensures DoFreeObject(s, th, u, i).dump == s.dump
  {
  }

  lemma UnlinkDump(s: State, th: Thr)
    ensures DoUnlink(s, th).dump == s.dump
  {
  }

  lemma FreeTctxDump(s: State, th: Thr)
    ensures DoFreeTctx(s, th).dump == s.dump
  {
  }

  // ---------------------------------------------------------------- main results

  /** What the lock of a table finds there is what its scan is to visit. */
  lemma Locked(s: State, owner: Thr)
    requires Inv(s) && !Scanning(s) && Scanning(Step(s, DumpLockTdata(owner)))
    ensures var s' := Step(s, DumpLockTdata(owner));
            && s' == s.(dump := s'.dump) && s'.dump.phase.th == owner
            && forall t :: t in s'.dump.phase.rest <==> Owns(s, owner, t)
  {
    hide SumInv, ScanInv, DumpListInv, InitializingInv, LinkInv, TctxInv, TctxOk, DoomedOnce, DoomedInv,
         DoomedOk, ThreadInv, PcInv, OrphanInv, LimboInv, RegInv, MtxInv;
    forall k | k in s.bt2tctx && k.0 == owner ensures Owns(s, owner, s.bt2tctx[k]) {
      assert k == (owner, k.1);
    }
  }

  /** During the whole of `acts` one and the same table is locked by the dump. */
  ghost predicate ScansAlong(s: State, acts: seq<Action>)
    decreases |acts|
  {
    Scanning(s) && (acts != [] ==> ScansAlong(Step(s, acts[0]), acts[1..]))
  }

  lemma {:induction false} ScanRun(s: State, acts: seq<Action>, owner: Thr, t: Tid, c: Cnt, due: bool)
    requires Inv(s) && Clean(acts) && ScansAlong(s, acts) && Scanned(s, owner, t, c, due)
    ensures Inv(Run(s, acts)) && Scanned(Run(s, acts), owner, t, c, due) && Scanning(Run(s, acts))
    decreases |acts|
  {
    hide Inv, Scanned, Step;
    if acts != [] {
      assert !MayDisplace(acts[0]);
      KeepStep(s, acts[0]);
      ScanStep(s, acts[0], owner, t, c, due);
      ScanRun(Step(s, acts[0]), acts[1..], owner, t, c, due);
    }
  }

  /** What the scan is not to visit keeps what a dump recorded of it, or that it recorded nothing. */
  lemma {:induction false} OutsideRun(s: State, acts: seq<Action>, t: Tid)
    requires Inv(s) && Clean(acts) && ScansAlong(s, acts) && t !in s.dump.phase.rest
    ensures Inv(Run(s, acts)) && Snapshot(Run(s, acts), t) == Snapshot(s, t) && Scanning(Run(s, acts))
    decreases |acts|
  {
    hide Inv, Snapshot, Step;
    if acts != [] {
      assert !MayDisplace(acts[0]);
      KeepStep(s, acts[0]);
      NoFinish(s, acts[0], t);
      assert Scanning(Step(s, acts[0]));
      RestShrinks(s, acts[0], t);
      OutsideRun(Step(s, acts[0]), acts[1..], t);
    }
  }

  lemma UnlockKeeps(s: State, t: Tid)
    requires Scanning(s) && !Scanning(Step(s, DumpUnlockTdata))
    ensures s.dump.phase.rest == {} && Snapshot(Step(s, DumpUnlockTdata), t) == Snapshot(s, t)
  {
  }

  /** The scan of the table of `owner`, from its lock to its unlock, whatever the threads do meanwhile: every
      tctx that was there and nominal is captured, with the counters that it had at the lock; one that was still
      being linked may be; and of all others nothing is recorded anew. */
  lemma ScanCaptures(accum: bool, before: seq<Action>, owner: Thr, mid: seq<Action>, t: Tid)
    requires Clean(before) && Clean(mid)
    requires var s0 := Run(Init(accum), before);
             var s1 := Step(s0, DumpLockTdata(owner));
             !Scanning(s0) && ScansAlong(s1, mid) && !Scanning(Step(Run(s1, mid), DumpUnlockTdata))
    ensures var s0 := Run(Init(accum), before);
            var s3 := Step(Run(Step(s0, DumpLockTdata(owner)), mid), DumpUnlockTdata);
            if Owns(s0, owner, t)
            then Snapshot(s3, t) == Some(s0.tctxs[t].cnts)
                 || (Snapshot(s3, t) == None && s0.tctxs[t].state.Initializing?)
            else Snapshot(s3, t) == Snapshot(s0, t)
  {
    var s0 := Run(Init(accum), before);
    var s1 := Step(s0, DumpLockTdata(owner));
    hide Inv;
    InitInv(accum);
    KeepRun(Init(accum), before);
    assert Scanning(s1);
    Locked(s0, owner);
    KeepStep(s0, DumpLockTdata(owner));
    hide Step;
    if Owns(s0, owner, t) {
      AwaitsGuarded(s1, t);
      ScanRun(s1, mid, owner, t, s0.tctxs[t].cnts, s0.tctxs[t].state.Nominal?);
    } else {
      OutsideRun(s1, mid, t);
    }
    hide Run, Snapshot;
    UnlockKeeps(Run(s1, mid), t);
  }

  /** The dump goes from thread to thread. */
  ghost predicate InScan(s: State) {
    s.dump.Dump? && (s.dump.phase.Scan? || s.dump.phase.ScanTdata?)
  }

  ghost predicate InScanAlong(s: State, acts: seq<Action>)
    decreases |acts|
  {
    InScan(s) && (acts != [] ==> InScanAlong(Step(s, acts[0]), acts[1..]))
  }

  lemma ThreadLeaves(s: State, a: Action, th: Thr)
    requires InScan(s) && InScan(Step(s, a)) && th in s.dump.phase.threads && th !in Step(s, a).dump.phase.threads
    ensures a == DumpLockTdata(th) || a == DumpSkipTdata(th)
  {
    hide Step, OfDump;
    if !OfDump(a) {
      ThreadDump(s, a);
    } else if a.DumpTctx? {
      VisitLeaves(s, a.t);
    } else if a.DumpUnlockTdata? {
      UnlockLeaves(s);
    } else if a.DumpScanDone? {
      DoneLeaves(s);
    } else if a.DumpLockTdata? {
      if a.owner != th {
        LockLeaves(s, a.owner, th);
      }
    } else if a.DumpSkipTdata? {
      if a.owner != th {
        SkipLeaves(s, a.owner, th);
      }
    } else {
      NotNow(s, a);
    }
  }

  lemma VisitLeaves(s: State, t: Tid)
    requires InScan(s)
    ensures var s' := Step(s, DumpTctx(t)); InScan(s') && s'.dump.phase.threads == s.dump.phase.threads
  {
  }

  lemma UnlockLeaves(s: State)
    requires InScan(s)
    ensures var s' := Step(s, DumpUnlockTdata); InScan(s') && s'.dump.phase.threads == s.dump.phase.threads
  {
  }

  lemma DoneLeaves(s: State)
    requires InScan(s)
    ensures var s' := Step(s, DumpScanDone); InScan(s') ==> s' == s
  {
  }

  lemma LockLeaves(s: State, owner: Thr, th: Thr)
    requires InScan(s) && th in s.dump.phase.threads && th != owner
    ensures var s' := Step(s, DumpLockTdata(owner)); InScan(s') && th in s'.dump.phase.threads
  {
  }

  lemma SkipLeaves(s: State, owner: Thr, th: Thr)
    requires InScan(s) && th in s.dump.phase.threads && th != owner
    ensures var s' := Step(s, DumpSkipTdata(owner)); InScan(s') && th in s'.dump.phase.threads
  {
  }

  lemma NotNow(s: State, a: Action)
    requires InScan(s) && OfDump(a)
    requires !a.DumpLockTdata? && !a.DumpSkipTdata? && !a.DumpUnlockTdata? && !a.DumpTctx? && !a.DumpScanDone?
    ensures Step(s, a) == s
  {
  }

  /** Every thread that the dump knows of has had its table locked for a scan, or was skipped, before the dump goes on
      to merge. */
  lemma {:induction false} EachScanned(s: State, acts: seq<Action>, th: Thr) returns (k: nat)
    requires InScanAlong(s, acts) && th in s.dump.phase.threads
    requires !InScan(Step(Run(s, acts), DumpScanDone))
    ensures k < |acts| && (acts[k] == DumpLockTdata(th) || acts[k] == DumpSkipTdata(th))
    ensures Step(Run(s, acts[..k]), acts[k]) != Run(s, acts[..k])
    decreases |acts|
  {
    if acts == [] {
      k := 0;
      DoneEmpty(s);
      assert false;
    } else {
      var s' := Step(s, acts[0]);
      assert InScan(s');
      if th in s'.dump.phase.threads {
        hide Step, InScan;
        var j := EachScanned(s', acts[1..], th);
        k := j + 1;
        assert acts[..k][0] == acts[0] && acts[..k][1..] == acts[1..][..j];
      } else {
        k := 0;
        ThreadLeaves(s, acts[0], th);
        assert acts[..0] == [];
      }
    }
  }

  lemma DoneEmpty(s: State)
    requires InScan(s) && !InScan(Step(s, DumpScanDone))
    ensures s.dump.phase.threads == {}
  {
  }

  // ---------------------------------------------------------------- a dump goes on

  lemma BeginStarts(s: State, th: Thr)
    requires s.dump.NoDump? && PcOf(s, th).Idle? && s.mtx.Free?
    ensures var s' := Step(s, DumpBegin(th));
            s' == s.(mtx := ByDump, dump := s'.dump) && s'.dump == Dump(th, Prep(s.bt2gctx.Values), {}, ZERO)
  {
  }

  lemma NotBad(s: State)
    requires Inv(s)
    ensures !s.bad
  {
  }

  lemma PrepTakes(s: State, g: Gid)
    requires s.dump.Dump? && s.dump.phase.Prep? && g in s.dump.phase.todo && !Step(s, DumpPrep(g)).bad
    ensures Step(s, DumpPrep(g)).dump != s.dump
  {
  }

  lemma PrepEnds(s: State)
    requires s.dump.Dump? && s.dump.phase.Prep? && s.dump.phase.todo == {}
    ensures Step(s, DumpPrepDone({})).dump != s.dump
  {
  }

  lemma PrepGoesOn(s: State) returns (a: Action)
    requires Inv(s) && s.dump.Dump? && s.dump.phase.Prep?
    ensures OfDump(a) && Step(s, a).dump != s.dump
  {
    hide Inv, Step;
    if g :| g in s.dump.phase.todo {
      a := DumpPrep(g);
      KeepStep(s, a);
      NotBad(Step(s, a));
      PrepTakes(s, g);
    } else {
      a := DumpPrepDone({});
      PrepEnds(s);
    }
  }

  lemma ScanGoesOn(s: State) returns (a: Action)
    requires Inv(s) && InScan(s)
    ensures OfDump(a) && Step(s, a).dump != s.dump
  {
    hide Inv;
    if s.dump.phase.Scan? {
      if th :| th in s.dump.phase.threads {
        a := DumpSkipTdata(th);
      } else {
        a := DumpScanDone;
      }
    } else {
      if t :| t in s.dump.phase.rest {
        a := DumpTctx(t);
        hide Step;
        Visit(s, t, t);
      } else {
        a := DumpUnlockTdata;
      }
    }
  }

  lemma MergeTakes(s: State, g: Gid)
    requires s.dump.Dump? && s.dump.phase.Merge? && g in s.dump.phase.todo && !Step(s, DumpMerge(g)).bad
    ensures Step(s, DumpMerge(g)).dump != s.dump
  {
    hide CapturedOf, Accumulate, Unreached;
  }

  lemma MergeEnds(s: State)
    requires s.dump.Dump? && s.dump.phase.Merge? && s.dump.phase.todo == {}
    ensures Step(s, DumpMergeDone).dump != s.dump
  {
  }

  lemma MergeGoesOn(s: State) returns (a: Action)
    requires Inv(s) && s.dump.Dump? && s.dump.phase.Merge?
    ensures OfDump(a) && Step(s, a).dump != s.dump
  {
    hide Inv, Step;
    if g :| g in s.dump.phase.todo {
      a := DumpMerge(g);
      KeepStep(s, a);
      NotBad(Step(s, a));
      MergeTakes(s, g);
    } else {
      a := DumpMergeDone;
      MergeEnds(s);
    }
  }

  lemma FinishTakes(s: State, g: Gid)
    requires s.dump.Dump? && s.dump.phase.Finish? && PcOf(s, s.dump.self).Idle? && g in s.dump.list
    requires !Step(s, DumpFinish(g)).bad
    ensures Step(s, DumpFinish(g)).dump != s.dump
  {
    hide PurgatoryOf, Unreached, InUse;
  }

  lemma FinishEnds(s: State)
    requires s.dump.Dump? && PcOf(s, s.dump.self).Idle?
    ensures s.dump.phase.Output? ==> Step(s, DumpOutputDone).dump != s.dump
    ensures s.dump.phase.Finish? && s.dump.list == {} ==> Step(s, DumpEnd).dump != s.dump
  {
  }

  lemma FinishGoesOn(s: State) returns (a: Action)
    requires Inv(s) && s.dump.Dump? && (s.dump.phase.Output? || s.dump.phase.Finish?) && PcOf(s, s.dump.self).Idle?
    ensures OfDump(a) && Step(s, a).dump != s.dump
  {
    hide Inv, Step;
    FinishEnds(s);
    if s.dump.phase.Output? {
      a := DumpOutputDone;
    } else if g :| g in s.dump.list {
      a := DumpFinish(g);
      KeepStep(s, a);
      NotBad(Step(s, a));
      FinishTakes(s, g);
    } else {
      a := DumpEnd;
    }
  }

  /** A dump is never stuck: unless its thread is destroying a gctx, it can take a step of its own. */
  lemma DumpGoesOn(s: State) returns (a: Action)
    requires Inv(s) && s.dump.Dump? && PcOf(s, s.dump.self).Idle?
    ensures OfDump(a) && Step(s, a).dump != s.dump
  {
    hide Inv, Step, OfDump;
    match s.dump.phase
    case Prep(_) => a := PrepGoesOn(s);
    case Merge(_) => a := MergeGoesOn(s);
    case Output => a := FinishGoesOn(s);
    case Finish => a := FinishGoesOn(s);
    case _ => a := ScanGoesOn(s);
  }
}
