/**
 Heap-profile contexts: the life cycle of the shared `gctx` objects, of the per-thread `tctx`
 objects linked to them, and of a heap dump that runs beside both.

 The protocol is a state machine.  One action is one critical section, or one piece of code that
 runs between two lock operations; any thread may take the next action, so a run is an arbitrary
 interleaving.  `bt2gctx_mtx` and the one `tdata` lock that a dump keeps over several sections are
 part of the state; every other lock is held inside a single action.

 Allocated objects are the keys of `gctxs` and `tctxs`, and freed names are never used again.  An
 action that would touch a freed object, fail an assertion, decrement a zero count or reach a
 `not_reached()` sets `bad` instead; that happens only after an insertion failed that displaced another
 entry (see Insertion).  One read is kept apart from `bad`: that of a tctx in purgatory by the assertion near
 the end of prof_tctx_destroy(), which a dump can make too late (see ReadsFreed()).
 */
module Prof {
  import opened Wrappers
  import opened Tally

  type Gid = nat
  type Tid = nat
  type Thr = nat
  type Bt = nat

  datatype TctxState = Initializing | Nominal | Dumping | Purgatory

  /** `objs` lists the usable sizes of the sampled objects that are still live. */
  datatype Tctx = Tctx(owner: Thr, gctx: Gid, state: TctxState, prepared: bool,
                       cnts: Cnt, objs: seq<nat>, dumpCnts: Cnt)

  /** `leaked` counts the limbo increments that no code will ever undo; it is bookkeeping only. */
  datatype Gctx = Gctx(bt: Bt, nlimbo: int, linked: set<Tid>, cntSummed: Cnt, leaked: nat)

  /** What a thread is about to do; `fin` is the tctx it will free when it is done with the gctx. */
  datatype Pc =
    | Idle
    | Seeking(bt: Bt)
    | Found(bt: Bt, g: Gid)
    | Leaving(bt: Bt, g: Gid, isNew: bool)
    | Attaching(bt: Bt, g: Gid, isNew: bool)
    | Inserted(bt: Bt, g: Gid, t: Tid)
    | Prepared(t: Tid)
    | Destroying(t: Tid)
    | WantDestroy(g: Gid, fin: Option<Tid>)
    | InDestroy(g: Gid, fin: Option<Tid>)
    | LeaveMtx(fin: Option<Tid>)
    | Freeing(g: Gid, fin: Option<Tid>)
    | Discarding(g: Gid)
    | FreeingTctx(t: Tid)
    | Checking(t: Tid)

  /** How ckh_insert() ends, as `Ckh.Table.Insert` has it: the entry is stored; or nothing changes, for want
      of memory for the object itself or because a table that had grown dropped the new entry again; or the
      new entry is stored, an old one is gone, and failure is reported. */
  datatype Insertion = Stored | NoMemory | Displaced(victim: Bt)

  datatype Owner = Free | ByThread(th: Thr) | ByDump

  datatype Phase =
    | Prep(todo: set<Gid>)
    | Scan(threads: set<Thr>)
    | ScanTdata(threads: set<Thr>, th: Thr, rest: set<Tid>, cntSummed: Cnt)
    | Merge(todo: set<Gid>)
    | Output
    | Finish

  datatype Dump = NoDump | Dump(self: Thr, phase: Phase, list: set<Gid>, cntAll: Cnt)

  datatype State = State(
    accum: bool,
    mtx: Owner,
    bt2gctx: map<Bt, Gid>,
    gctxs: map<Gid, Gctx>,
    tctxs: map<Tid, Tctx>,
    bt2tctx: map<(Thr, Bt), Tid>,
    pcs: map<Thr, Pc>,
    dump: Dump,
    nextG: Gid,
    nextT: Tid,
    bad: bool)

  datatype Action =
    | Lookup(th: Thr, bt: Bt)
    | Enter(th: Thr, how: Insertion)
    | Hold(th: Thr)
    | Leave(th: Thr)
    | Attach(th: Thr, how: Insertion)
    | Link(th: Thr)
    | Sample(th: Thr, usize: nat)
    | Rollback(th: Thr)
    | FreeObject(th: Thr, t: Tid, i: nat)
    | Unlink(th: Thr)
    | EnterDestroy(th: Thr)
    | TryDestroy(th: Thr)
    | FreeGctx(th: Thr)
    | FreeTctx(th: Thr)
    | Check(th: Thr)
    | DumpBegin(th: Thr)
    | DumpPrep(g: Gid)
    | DumpPrepDone(threads: set<Thr>)
    | DumpLockTdata(owner: Thr)
    | DumpSkipTdata(owner: Thr)
    | DumpTctx(t: Tid)
    | DumpUnlockTdata
    | DumpScanDone
    | DumpMerge(g: Gid)
    | DumpMergeDone
    | DumpRead(g: Gid)
    | DumpOutputDone
    | DumpFinish(g: Gid)
    | DumpEnd

  // ---------------------------------------------------------------- state access

  function Init(accum: bool): State {
    State(accum, Free, map[], map[], map[], map[], map[], NoDump, 0, 0, false)
  }

  function PcOf(s: State, th: Thr): Pc {
    if th in s.pcs then s.pcs[th] else Idle
  }

  function At(s: State, th: Thr, pc: Pc): State {
    s.(pcs := s.pcs[th := pc])
  }

  function Bad(s: State): State {
    s.(bad := true)
  }

  /** True while the dump keeps the lock of this thread's tdata. */
  predicate TdataLocked(s: State, th: Thr) {
    s.dump.Dump? && s.dump.phase.ScanTdata? && s.dump.phase.th == th
  }

  /** The limbo count that a thread at `pc` owns. */
  predicate HoldsG(pc: Pc, g: Gid) {
    match pc
    case Leaving(_, g', _) => g' == g
    case Attaching(_, g', _) => g' == g
    case Inserted(_, g', _) => g' == g
    case WantDestroy(g', _) => g' == g
    case InDestroy(g', _) => g' == g
    case Freeing(g', _) => g' == g
    case Discarding(g') => g' == g
    case _ => false
  }

  predicate HoldsMtx(pc: Pc) {
    pc.Found? || pc.Leaving? || pc.InDestroy? || pc.LeaveMtx? || pc.Discarding?
  }

  predicate IsCaptured(x: Tctx) {
    x.state.Dumping? || x.state.Purgatory?
  }

  function DumpCnts(ts: map<Tid, Tctx>): map<Tid, Cnt> {
    map t | t in ts :: ts[t].dumpCnts
  }

  /** The tctxs linked to `g` that the running dump has captured. */
  ghost function CapturedOf(gs: map<Gid, Gctx>, ts: map<Tid, Tctx>, g: Gid): set<Tid>
    requires g in gs
  {
    set t | t in ts && t in gs[g].linked && IsCaptured(ts[t])
  }

  /** The tctxs linked to `g` that were destroyed while the dump needed them. */
  ghost function PurgatoryOf(gs: map<Gid, Gctx>, ts: map<Tid, Tctx>, g: Gid): set<Tid>
    requires g in gs
  {
    set t | t in ts && t in gs[g].linked && ts[t].state.Purgatory?
  }

  function Done(fin: Option<Tid>): Pc {
    match fin case Some(t) => FreeingTctx(t) case None => Idle
  }

  predicate TctxShouldDestroy(accum: bool, x: Tctx) {
    !accum && x.cnts.curobjs == 0 && !x.prepared
  }

  predicate GctxShouldDestroy(accum: bool, x: Gctx) {
    !accum && x.linked == {} && x.nlimbo == 0
  }

  // ---------------------------------------------------------------- prof_lookup()

  /** The thread's own table is searched under its tdata lock. */
  function DoLookup(s: State, th: Thr, bt: Bt): State {
    if !PcOf(s, th).Idle? || TdataLocked(s, th) then s
    else if (th, bt) !in s.bt2tctx then At(s, th, Seeking(bt))
    else
      var t := s.bt2tctx[(th, bt)];
      if t !in s.tctxs then Bad(s)
      else At(s.(tctxs := s.tctxs[t := s.tctxs[t].(prepared := true)]), th, Prepared(t))
  }

  /** prof_enter(), then search the global table; create and insert the gctx when it is missing.  When the
      insertion fails the new gctx is discarded, although the table may hold it. */
  function DoEnter(s: State, th: Thr, how: Insertion): State {
    if !PcOf(s, th).Seeking? || !s.mtx.Free? then s
    else
      var bt := PcOf(s, th).bt;
      var s1 := s.(mtx := ByThread(th));
      if bt in s.bt2gctx then At(s1, th, Found(bt, s.bt2gctx[bt]))
      else
        var g := s.nextG;
        var s2 := s1.(gctxs := s.gctxs[g := Gctx(bt, 1, {}, ZERO, 0)], nextG := g + 1);
        match how
        case Stored => At(s2.(bt2gctx := s.bt2gctx[bt := g]), th, Leaving(bt, g, true))
        case NoMemory => At(s1, th, LeaveMtx(None))
        case Displaced(victim) =>
          if victim !in s.bt2gctx then s
          else At(s2.(bt2gctx := (s.bt2gctx - {victim})[bt := g]), th, Discarding(g))
  }

  function DoHold(s: State, th: Thr): State {
    if !PcOf(s, th).Found? then s
    else
      var Found(bt, g) := PcOf(s, th);
      if g !in s.gctxs then Bad(s)
      else At(s.(gctxs := s.gctxs[g := s.gctxs[g].(nlimbo := s.gctxs[g].nlimbo + 1)]),
              th, Leaving(bt, g, false))
  }

  /** prof_leave() */
  function DoLeave(s: State, th: Thr): State {
    match PcOf(s, th)
    case Leaving(bt, g, isNew) => At(s.(mtx := Free), th, Attaching(bt, g, isNew))
    case LeaveMtx(fin) => At(s.(mtx := Free), th, Done(fin))
    case Discarding(g) => At(s.(mtx := Free), th, Freeing(g, None))
    case _ => s
  }

  /** Allocates the tctx and inserts it into the thread's own table.  When that fails the tctx is freed
      after the gctx was given up, although the table may hold it; its `prepared` flag means nothing then
      and is left unset. */
  function DoAttach(s: State, th: Thr, how: Insertion): State {
    if !PcOf(s, th).Attaching? || TdataLocked(s, th) then s
    else
      var Attaching(bt, g, isNew) := PcOf(s, th);
      var t := s.nextT;
      if how.Stored? then
        var x := Tctx(th, g, Initializing, true, ZERO, [], ZERO);
        if g !in s.gctxs || (th, bt) in s.bt2tctx then Bad(s)
        else At(s.(tctxs := s.tctxs[t := x], bt2tctx := s.bt2tctx[(th, bt) := t], nextT := t + 1),
                th, Inserted(bt, g, t))
      else if how.NoMemory? then GiveUp(s, th, g, isNew, None)
      else if (th, how.victim) !in s.bt2tctx || g !in s.gctxs || (th, bt) in s.bt2tctx then s
      else
        var x := Tctx(th, g, Initializing, false, ZERO, [], ZERO);
        GiveUp(s.(tctxs := s.tctxs[t := x], nextT := t + 1,
                  bt2tctx := (s.bt2tctx - {(th, how.victim)})[(th, bt) := t]), th, g, isNew, Some(t))
  }

  /** A failed lookup gives its limbo count back only if it created the gctx. */
  function GiveUp(s: State, th: Thr, g: Gid, isNew: bool, fin: Option<Tid>): State {
    if isNew then At(s, th, WantDestroy(g, fin))
    else if g !in s.gctxs then Bad(s)
    else At(s.(gctxs := s.gctxs[g := s.gctxs[g].(leaked := s.gctxs[g].leaked + 1)]), th, Done(fin))
  }

  function DoLink(s: State, th: Thr): State {
    if !PcOf(s, th).Inserted? then s
    else
      var Inserted(_, g, t) := PcOf(s, th);
      if g !in s.gctxs || t !in s.tctxs || s.gctxs[g].nlimbo <= 0 then Bad(s)
      else
        var x := s.gctxs[g];
        At(s.(tctxs := s.tctxs[t := s.tctxs[t].(state := Nominal)],
              gctxs := s.gctxs[g := x.(linked := x.linked + {t}, nlimbo := x.nlimbo - 1)]),
           th, Prepared(t))
  }

  // ---------------------------------------------------------------- using a tctx

  /** prof_malloc_sample_object() */
  function DoSample(s: State, th: Thr, usize: nat): State {
    if !PcOf(s, th).Prepared? then s
    else
      var t := PcOf(s, th).t;
      if t !in s.tctxs then Bad(s)
      else
        var x := s.tctxs[t];
        if TdataLocked(s, x.owner) then s
        else
          var c := x.cnts.(curobjs := x.cnts.curobjs + 1, curbytes := x.cnts.curbytes + usize);
          var c' := if s.accum
                    then c.(accumobjs := c.accumobjs + 1, accumbytes := c.accumbytes + usize) else c;
          At(s.(tctxs := s.tctxs[t := x.(cnts := c', objs := x.objs + [usize], prepared := false)]),
             th, Idle)
  }

  /** The part of prof_tctx_destroy() that runs under the tdata lock, if it is called at all. */
  function MaybeDestroy(s: State, th: Thr, t: Tid): State
    requires t in s.tctxs
  {
    var x := s.tctxs[t];
    if !TctxShouldDestroy(s.accum, x) then At(s, th, Idle)
    else if x.gctx !in s.gctxs || x.cnts != ZERO then Bad(s)
    else
      var key := (x.owner, s.gctxs[x.gctx].bt);
      At(s.(bt2tctx := s.bt2tctx - {key}), th, Destroying(t))
  }

  /** prof_alloc_rollback() */
  function DoRollback(s: State, th: Thr): State {
    if !PcOf(s, th).Prepared? then s
    else
      var t := PcOf(s, th).t;
      if t !in s.tctxs then Bad(s)
      else if TdataLocked(s, s.tctxs[t].owner) then s
      else MaybeDestroy(s.(tctxs := s.tctxs[t := s.tctxs[t].(prepared := false)]), th, t)
  }

  /** prof_free_sampled_object(): any thread may free any live sampled object. */
  function DoFreeObject(s: State, th: Thr, t: Tid, i: nat): State {
    if !PcOf(s, th).Idle? || t !in s.tctxs || i >= |s.tctxs[t].objs|
       || TdataLocked(s, s.tctxs[t].owner) then s
    else
      var x := s.tctxs[t];
      var usize := x.objs[i];
      if x.cnts.curobjs <= 0 || x.cnts.curbytes < usize then Bad(s)
      else
        var c := x.cnts.(curobjs := x.cnts.curobjs - 1, curbytes := x.cnts.curbytes - usize);
        var x' := x.(cnts := c, objs := x.objs[..i] + x.objs[i + 1..]);
        MaybeDestroy(s.(tctxs := s.tctxs[t := x']), th, t)
  }

  /** The gctx-locked section of prof_tctx_destroy(). */
  function DoUnlink(s: State, th: Thr): State {
    if !PcOf(s, th).Destroying? then s
    else
      var t := PcOf(s, th).t;
      if t !in s.tctxs || s.tctxs[t].gctx !in s.gctxs then Bad(s)
      else
        var x := s.tctxs[t];
        var y := s.gctxs[x.gctx];
        match x.state
        case Nominal =>
          var y1 := y.(linked := y.linked - {t});
          if GctxShouldDestroy(s.accum, y1) then
            At(s.(gctxs := s.gctxs[x.gctx := y1.(nlimbo := y1.nlimbo + 1)]),
               th, WantDestroy(x.gctx, Some(t)))
          else
            At(s.(gctxs := s.gctxs[x.gctx := y1]), th, FreeingTctx(t))
        case Dumping =>
          At(s.(tctxs := s.tctxs[t := x.(state := Purgatory)]), th, Checking(t))
        case _ => Bad(s)
  }

  // ---------------------------------------------------------------- prof_gctx_try_destroy()

  function DoEnterDestroy(s: State, th: Thr): State {
    if !PcOf(s, th).WantDestroy? || !s.mtx.Free? then s
    else
      var WantDestroy(g, fin) := PcOf(s, th);
      At(s.(mtx := ByThread(th)), th, InDestroy(g, fin))
  }

  function DoTryDestroy(s: State, th: Thr): State {
    if !PcOf(s, th).InDestroy? then s
    else
      var InDestroy(g, fin) := PcOf(s, th);
      if g !in s.gctxs || s.gctxs[g].nlimbo <= 0 then Bad(s)
      else
        var x := s.gctxs[g];
        if x.linked == {} && x.nlimbo == 1 then
          if x.bt !in s.bt2gctx then Bad(s)
          else At(s.(bt2gctx := s.bt2gctx - {x.bt}, mtx := Free), th, Freeing(g, fin))
        else
          At(s.(gctxs := s.gctxs[g := x.(nlimbo := x.nlimbo - 1)]), th, LeaveMtx(fin))
  }

  function DoFreeGctx(s: State, th: Thr): State {
    if !PcOf(s, th).Freeing? then s
    else
      var Freeing(g, fin) := PcOf(s, th);
      if g !in s.gctxs then Bad(s)
      else At(s.(gctxs := s.gctxs - {g}), th, Done(fin))
  }

  /** The assertion near the end of prof_tctx_destroy() reads the tctx, and then it is freed.  Freeing one
      that an object or a pending allocation still refers to would leave a dangling pointer, so it counts as
      bad. */
  function DoFreeTctx(s: State, th: Thr): State {
    if !PcOf(s, th).FreeingTctx? then s
    else
      var t := PcOf(s, th).t;
      if t !in s.tctxs || s.tctxs[t].objs != [] || s.tctxs[t].prepared then Bad(s)
      else At(s.(tctxs := s.tctxs - {t}), th, Idle)
  }

  /** The same assertion after a tctx was left in purgatory.  It reads the tctx, see ReadsFreed(). */
  function DoCheck(s: State, th: Thr): State {
    if !PcOf(s, th).Checking? then s else At(s, th, Idle)
  }

  // ---------------------------------------------------------------- prof_dump()

  function InPhase(s: State, p: Phase): State
    requires s.dump.Dump?
  {
    s.(dump := s.dump.(phase := p))
  }

  function DoDumpBegin(s: State, th: Thr): State {
    if s.dump.Dump? || !PcOf(s, th).Idle? || !s.mtx.Free? then s
    else s.(mtx := ByDump, dump := Dump(th, Prep(s.bt2gctx.Values), {}, ZERO))
  }

  /** prof_dump_gctx_prep() */
  function DoDumpPrep(s: State, g: Gid): State {
    if !(s.dump.Dump? && s.dump.phase.Prep? && g in s.dump.phase.todo) then s
    else if g !in s.gctxs then Bad(s)
    else
      var x := s.gctxs[g];
      s.(gctxs := s.gctxs[g := x.(nlimbo := x.nlimbo + 1, cntSummed := ZERO)],
         dump := s.dump.(phase := Prep(s.dump.phase.todo - {g}), list := s.dump.list + {g}))
  }

  function DoDumpPrepDone(s: State, threads: set<Thr>): State {
    if !(s.dump.Dump? && s.dump.phase.Prep? && s.dump.phase.todo == {}) then s
    else InPhase(s, Scan(threads))
  }

  function DoDumpLockTdata(s: State, owner: Thr): State {
    if !(s.dump.Dump? && s.dump.phase.Scan? && owner in s.dump.phase.threads) then s
    else
      var rest := set k | k in s.bt2tctx && k.0 == owner :: s.bt2tctx[k];
      InPhase(s, ScanTdata(s.dump.phase.threads - {owner}, owner, rest, ZERO))
  }

  /** An expired tdata is not scanned. */
  function DoDumpSkipTdata(s: State, owner: Thr): State {
    if !(s.dump.Dump? && s.dump.phase.Scan? && owner in s.dump.phase.threads) then s
    else InPhase(s, Scan(s.dump.phase.threads - {owner}))
  }

  /** prof_tctx_merge_tdata() */
  function DoDumpTctx(s: State, t: Tid): State {
    if !(s.dump.Dump? && s.dump.phase.ScanTdata? && t in s.dump.phase.rest) then s
    else if t !in s.tctxs || s.tctxs[t].gctx !in s.gctxs then Bad(s)
    else
      var x := s.tctxs[t];
      var p := s.dump.phase.(rest := s.dump.phase.rest - {t});
      match x.state
      case Initializing => InPhase(s, p)
      case Nominal =>
        InPhase(s.(tctxs := s.tctxs[t := x.(state := Dumping, dumpCnts := x.cnts)]),
                p.(cntSummed := AddTo(p.cntSummed, x.cnts, s.accum)))
      case _ => Bad(s)
  }

  function DoDumpUnlockTdata(s: State): State {
    if !(s.dump.Dump? && s.dump.phase.ScanTdata? && s.dump.phase.rest == {}) then s
    else s.(dump := s.dump.(phase := Scan(s.dump.phase.threads),
                            cntAll := AddTo(s.dump.cntAll, s.dump.phase.cntSummed, s.accum)))
  }

  function DoDumpScanDone(s: State): State {
    if !(s.dump.Dump? && s.dump.phase.Scan? && s.dump.phase.threads == {}) then s
    else InPhase(s, Merge(s.dump.list))
  }

  /** The walk over the tree of a gctx meets a tctx that was freed or is in no state to be there. */
  ghost predicate Unreached(ts: map<Tid, Tctx>, x: Gctx) {
    exists t :: t in x.linked && (t !in ts || ts[t].state.Initializing?)
  }

  /** An object or a pending allocation refers to one of these. */
  ghost predicate InUse(ts: map<Tid, Tctx>, dead: set<Tid>)
    requires dead <= ts.Keys
  {
    exists t :: t in dead && (ts[t].objs != [] || ts[t].prepared)
  }

  /** prof_gctx_merge_iter(): the whole tree of one gctx is walked under its lock. */
  ghost function DoDumpMerge(s: State, g: Gid): State {
    if !(s.dump.Dump? && s.dump.phase.Merge? && g in s.dump.phase.todo) then s
    else if g !in s.gctxs then Bad(s)
    else
      var x := s.gctxs[g];
      if Unreached(s.tctxs, x) then Bad(s)
      else
        var sum := Accumulate(x.cntSummed, CapturedOf(s.gctxs, s.tctxs, g), DumpCnts(s.tctxs), s.accum);
        InPhase(s.(gctxs := s.gctxs[g := x.(cntSummed := sum)]),
                Merge(s.dump.phase.todo - {g}))
  }

  /** prof_leave() */
  ghost function DoDumpMergeDone(s: State): State {
    if !(s.dump.Dump? && s.dump.phase.Merge? && s.dump.phase.todo == {}) then s
    else InPhase(s.(mtx := Free), Output)
  }

  /** prof_gctx_dump_iter(): reads a listed gctx and the tctxs linked to it.  A gctx without useful data is
      skipped, and then all its sums are asserted to be zero. */
  function DoDumpRead(s: State, g: Gid): State {
    if !(s.dump.Dump? && s.dump.phase.Output? && g in s.dump.list) then s
    else if g !in s.gctxs || !(s.gctxs[g].linked <= s.tctxs.Keys) then Bad(s)
    else if Useless(s.gctxs[g].cntSummed, s.accum) && s.gctxs[g].cntSummed != ZERO then Bad(s)
    else s
  }

  predicate Useless(c: Cnt, accum: bool) {
    if accum then c.accumobjs == 0 else c.curobjs == 0
  }

  function DoDumpOutputDone(s: State): State {
    if !(s.dump.Dump? && s.dump.phase.Output?) then s
    else InPhase(s, Finish)
  }

  /** One turn of the loop in prof_gctx_finish(), up to the unlock. */
  ghost function DoDumpFinish(s: State, g: Gid): State {
    if !(s.dump.Dump? && s.dump.phase.Finish? && g in s.dump.list && PcOf(s, s.dump.self).Idle?) then s
    else if g !in s.gctxs then Bad(s)
    else
      var x := s.gctxs[g];
      if x.nlimbo <= 0 || Unreached(s.tctxs, x) then Bad(s)
      else
        var dead := PurgatoryOf(s.gctxs, s.tctxs, g);
        var tctxs := map t | t in s.tctxs && t !in dead ::
          if t in x.linked && s.tctxs[t].state.Dumping?
          then s.tctxs[t].(state := Nominal) else s.tctxs[t];
        var y := x.(linked := x.linked - dead, nlimbo := x.nlimbo - 1);
        var s1 := s.(tctxs := tctxs, dump := s.dump.(list := s.dump.list - {g}));
        if InUse(s.tctxs, dead) then Bad(s)
        else if GctxShouldDestroy(s.accum, y) then
          At(s1.(gctxs := s.gctxs[g := y.(nlimbo := y.nlimbo + 1)]), s.dump.self, WantDestroy(g, None))
        else s1.(gctxs := s.gctxs[g := y])
  }

  function DoDumpEnd(s: State): State {
    if !(s.dump.Dump? && s.dump.phase.Finish? && s.dump.list == {} && PcOf(s, s.dump.self).Idle?) then s
    else s.(dump := NoDump)
  }

  // ---------------------------------------------------------------- runs

  ghost function Step(s: State, a: Action): State {
    match a
    case Lookup(th, bt) => DoLookup(s, th, bt)
    case Enter(th, how) => DoEnter(s, th, how)
    case Hold(th) => DoHold(s, th)
    case Leave(th) => DoLeave(s, th)
    case Attach(th, how) => DoAttach(s, th, how)
    case Link(th) => DoLink(s, th)
    case Sample(th, usize) => DoSample(s, th, usize)
    case Rollback(th) => DoRollback(s, th)
    case FreeObject(th, t, i) => DoFreeObject(s, th, t, i)
    case Unlink(th) => DoUnlink(s, th)
    case EnterDestroy(th) => DoEnterDestroy(s, th)
    case TryDestroy(th) => DoTryDestroy(s, th)
    case FreeGctx(th) => DoFreeGctx(s, th)
    case FreeTctx(th) => DoFreeTctx(s, th)
    case Check(th) => DoCheck(s, th)
    case DumpBegin(th) => DoDumpBegin(s, th)
    case DumpPrep(g) => DoDumpPrep(s, g)
    case DumpPrepDone(threads) => DoDumpPrepDone(s, threads)
    case DumpLockTdata(owner) => DoDumpLockTdata(s, owner)
    case DumpSkipTdata(owner) => DoDumpSkipTdata(s, owner)
    case DumpTctx(t) => DoDumpTctx(s, t)
    case DumpUnlockTdata => DoDumpUnlockTdata(s)
    case DumpScanDone => DoDumpScanDone(s)
    case DumpMerge(g) => DoDumpMerge(s, g)
    case DumpMergeDone => DoDumpMergeDone(s)
    case DumpRead(g) => DoDumpRead(s, g)
    case DumpOutputDone => DoDumpOutputDone(s)
    case DumpFinish(g) => DoDumpFinish(s, g)
    case DumpEnd => DoDumpEnd(s)
  }

  ghost function Run(s: State, acts: seq<Action>): State
    decreases |acts|
  {
    if acts == [] then s else Run(Step(s, acts[0]), acts[1..])
  }

  /** The action is the check of a tctx that was left in purgatory, and the tctx was freed meanwhile. */
  predicate ReadsFreed(s: State, a: Action) {
    a.Check? && PcOf(s, a.th).Checking? && PcOf(s, a.th).t !in s.tctxs
  }

  /** No action is an insertion that fails after it displaced another entry. */
  ghost predicate Clean(acts: seq<Action>) {
    forall i :: 0 <= i < |acts| ==> !MayDisplace(acts[i])
  }

  predicate MayDisplace(a: Action) {
    (a.Enter? || a.Attach?) && a.how.Displaced?
  }

  /** The action is an insertion that fails and displaces. */
  predicate Displaces(s: State, a: Action) {
    match a
    case Enter(th, Displaced(victim)) =>
      PcOf(s, th).Seeking? && s.mtx.Free? && PcOf(s, th).bt !in s.bt2gctx && victim in s.bt2gctx
    case Attach(th, Displaced(victim)) =>
      && PcOf(s, th).Attaching? && !TdataLocked(s, th) && PcOf(s, th).g in s.gctxs
      && (th, PcOf(s, th).bt) !in s.bt2tctx && (th, victim) in s.bt2tctx
    case _ => false
  }
}
