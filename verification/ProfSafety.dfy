/** What every interleaving of the profiling protocol keeps. */
module ProfSafety {
  import opened Wrappers
  import opened Tally
  import opened Prof

  // Each conjunct of the invariant takes only the parts of the state that it speaks of.

  type Gctxs = map<Gid, Gctx>
  type Tctxs = map<Tid, Tctx>
  type Registry = map<Bt, Gid>
  type Caches = map<(Thr, Bt), Tid>
  type Pcs = map<Thr, Pc>

  // ---------------------------------------------------------------- vocabulary

  ghost function Holders(pcs: Pcs, g: Gid): set<Thr> {
    set th | th in pcs && HoldsG(pcs[th], g)
  }

  /** `g` is in the global table. */
  ghost predicate Registered(gs: Gctxs, reg: Registry, g: Gid) {
    g in gs && gs[g].bt in reg && reg[gs[g].bt] == g
  }

  /** `t` is in its owner's table. */
  ghost predicate Cached(gs: Gctxs, ts: Tctxs, caches: Caches, t: Tid) {
    t in ts && ts[t].gctx in gs
    && (ts[t].owner, gs[ts[t].gctx].bt) in caches && caches[(ts[t].owner, gs[ts[t].gctx].bt)] == t
  }

  /** `t` is in the tree of its gctx. */
  ghost predicate Linked(gs: Gctxs, ts: Tctxs, t: Tid) {
    t in ts && ts[t].gctx in gs && t in gs[ts[t].gctx].linked
  }

  /** The tctx that a thread at `pc` has taken out of its table and must finish off. */
  function Doomed(pc: Pc): Option<Tid> {
    match pc
    case Destroying(t) => Some(t)
    case WantDestroy(_, fin) => fin
    case InDestroy(_, fin) => fin
    case LeaveMtx(fin) => fin
    case Freeing(_, fin) => fin
    case FreeingTctx(t) => Some(t)
    case _ => None
  }

  ghost predicate DumpHoldsMtx(d: Dump) {
    d.Dump? && (d.phase.Prep? || d.phase.Scan? || d.phase.ScanTdata? || d.phase.Merge?)
  }

  function ListOf(d: Dump): set<Gid> {
    if d.Dump? then d.list else {}
  }

  ghost function Total(objs: seq<nat>): nat {
    if objs == [] then 0 else objs[0] + Total(objs[1..])
  }

  // ---------------------------------------------------------------- the invariant

  ghost predicate MtxInv(mtx: Owner, pcs: Pcs, d: Dump) {
    && (forall th :: th in pcs && HoldsMtx(pcs[th]) ==> mtx == ByThread(th))
    && (mtx.ByThread? ==> mtx.th in pcs && HoldsMtx(pcs[mtx.th]))
    && (mtx.ByDump? <==> DumpHoldsMtx(d))
  }

  ghost predicate RegInv(gs: Gctxs, reg: Registry, nextG: Gid) {
    && (forall g :: g in gs ==> g < nextG)
    && (forall bt :: bt in reg ==> reg[bt] in gs && gs[reg[bt]].bt == bt)
    && (forall g :: g in gs && !Registered(gs, reg, g) ==>
         gs[g].linked == {} && gs[g].leaked == 0 && gs[g].nlimbo == 1)
  }

  ghost predicate LimboInv(gs: Gctxs, pcs: Pcs, list: set<Gid>) {
    forall g :: g in gs ==>
      gs[g].nlimbo == |Holders(pcs, g)| + gs[g].leaked + (if g in list then 1 else 0)
  }

  /** A gctx that nobody uses is on its way out. */
  ghost predicate OrphanInv(gs: Gctxs, accum: bool) {
    forall g :: g in gs && gs[g].nlimbo == 0 && !accum ==> gs[g].linked != {}
  }

  ghost predicate PcInv(gs: Gctxs, ts: Tctxs, reg: Registry, caches: Caches, th: Thr, pc: Pc) {
    match pc
    case Idle => true
    case Seeking(bt) => (th, bt) !in caches
    case Found(bt, g) => (th, bt) !in caches && Registered(gs, reg, g) && gs[g].bt == bt
    case Leaving(bt, g, _) => (th, bt) !in caches && Registered(gs, reg, g) && gs[g].bt == bt
    case Attaching(bt, g, _) => (th, bt) !in caches && Registered(gs, reg, g) && gs[g].bt == bt
    case Inserted(bt, g, t) =>
      && Registered(gs, reg, g) && gs[g].bt == bt && Cached(gs, ts, caches, t)
      && ts[t].owner == th && ts[t].gctx == g && ts[t].state.Initializing? && ts[t].prepared
    case Prepared(t) =>
      && Cached(gs, ts, caches, t) && Linked(gs, ts, t)
      && ts[t].owner == th && ts[t].prepared
    case Destroying(t) => Linked(gs, ts, t) && (ts[t].state.Nominal? || ts[t].state.Dumping?)
    case WantDestroy(g, _) => Registered(gs, reg, g)
    case InDestroy(g, _) => Registered(gs, reg, g)
    case LeaveMtx(_) => true
    case Freeing(g, _) => g in gs && !Registered(gs, reg, g)
    case Discarding(_) => false
    case FreeingTctx(_) => true
    case Checking(_) => true
  }

  ghost predicate ThreadInv(gs: Gctxs, ts: Tctxs, reg: Registry, caches: Caches, pcs: Pcs) {
    forall th :: th in pcs ==> PcInv(gs, ts, reg, caches, th, pcs[th])
  }

  ghost predicate DoomedOk(accum: bool, gs: Gctxs, ts: Tctxs, caches: Caches, pc: Pc, t: Tid) {
    && t in ts && !accum && !ts[t].prepared && ts[t].objs == []
    && !Cached(gs, ts, caches, t)
    && (!pc.Destroying? ==> !Linked(gs, ts, t) && ts[t].state.Nominal?)
  }

  ghost predicate DoomedInv(accum: bool, gs: Gctxs, ts: Tctxs, caches: Caches, pcs: Pcs) {
    forall th :: th in pcs && Doomed(pcs[th]).Some? ==>
      DoomedOk(accum, gs, ts, caches, pcs[th], Doomed(pcs[th]).value)
  }

  ghost predicate DoomedOnce(pcs: Pcs) {
    forall th, th' :: th in pcs && th' in pcs && th != th' && Doomed(pcs[th]).Some? ==>
      Doomed(pcs[th']) != Doomed(pcs[th])
  }

  ghost predicate CntsInv(accum: bool, x: Tctx) {
    && x.cnts.curobjs == |x.objs| && x.cnts.curbytes == Total(x.objs)
    && Sane(x.cnts, accum) && Sane(x.dumpCnts, accum)
  }

  ghost predicate TctxOk(accum: bool, gs: Gctxs, ts: Tctxs, caches: Caches, t: Tid)
    requires t in ts
  {
    && CntsInv(accum, ts[t])
    && (ts[t].prepared || ts[t].objs != [] ==> Cached(gs, ts, caches, t))
    && (IsCaptured(ts[t]) ==> Linked(gs, ts, t))
    && (ts[t].state.Purgatory? ==> !Cached(gs, ts, caches, t))
    && (ts[t].state.Initializing? ==>
         !Linked(gs, ts, t) && Cached(gs, ts, caches, t) && ts[t].prepared && ts[t].objs == [])
    && (ts[t].state.Nominal? && Cached(gs, ts, caches, t) ==> Linked(gs, ts, t))
  }

  ghost predicate TctxInv(accum: bool, gs: Gctxs, ts: Tctxs, caches: Caches, nextT: Tid) {
    forall t :: t in ts ==> t < nextT && TctxOk(accum, gs, ts, caches, t)
  }

  ghost predicate LinkInv(gs: Gctxs, ts: Tctxs) {
    forall g, t :: g in gs && t in gs[g].linked ==> t in ts && ts[t].gctx == g
  }

  ghost predicate CacheInv(gs: Gctxs, ts: Tctxs, reg: Registry, caches: Caches) {
    forall k :: k in caches ==>
      caches[k] in ts && ts[caches[k]].owner == k.0
      && Registered(gs, reg, ts[caches[k]].gctx) && gs[ts[caches[k]].gctx].bt == k.1
  }

  /** Only the thread that is still linking a tctx keeps it in the initial state. */
  ghost predicate InitializingInv(ts: Tctxs, pcs: Pcs) {
    forall t :: t in ts && ts[t].state.Initializing? ==>
      ts[t].owner in pcs && pcs[ts[t].owner].Inserted? && pcs[ts[t].owner].t == t
  }

  ghost predicate DumpListInv(gs: Gctxs, ts: Tctxs, reg: Registry, d: Dump) {
    && (forall t :: t in ts && IsCaptured(ts[t]) ==> ts[t].gctx in ListOf(d))
    && (forall g :: g in ListOf(d) ==> Registered(gs, reg, g))
    && (d.Dump? ==>
         match d.phase
         case Prep(todo) =>
           && reg.Values == d.list + todo && d.list !! todo
           && forall t :: t in ts ==> !IsCaptured(ts[t])
         case Scan(_) => reg.Values == d.list
         case ScanTdata(_, _, _, _) => reg.Values == d.list
         case Merge(todo) => todo <= d.list
         case _ => true)
  }

  ghost predicate ScanInv(gs: Gctxs, ts: Tctxs, caches: Caches, d: Dump) {
    d.Dump? ==>
      match d.phase
      case Scan(threads) => forall t :: t in ts && IsCaptured(ts[t]) ==> ts[t].owner !in threads
      case ScanTdata(threads, th, rest, part) =>
        && th !in threads
        && (forall t :: t in ts && IsCaptured(ts[t]) ==> ts[t].owner !in threads)
        && (forall t :: t in rest ==>
             Cached(gs, ts, caches, t) && ts[t].owner == th && !IsCaptured(ts[t]))
      case _ => true
  }

  /** The tctxs that the running dump has captured. */
  ghost function Captured(ts: Tctxs): set<Tid> {
    set t | t in ts && IsCaptured(ts[t])
  }

  ghost predicate Unmerged(gs: Gctxs, list: set<Gid>) {
    forall g :: g in list && g in gs ==> gs[g].cntSummed == ZERO
  }

  ghost predicate Merged(gs: Gctxs, ts: Tctxs, list: set<Gid>) {
    forall g :: g in list && g in gs ==>
      gs[g].cntSummed == Sum(CapturedOf(gs, ts, g), DumpCnts(ts))
  }

  ghost predicate SumInv(accum: bool, gs: Gctxs, ts: Tctxs, d: Dump) {
    d.Dump? ==>
      var all := Sum(Captured(ts), DumpCnts(ts));
      match d.phase
      case Prep(_) => d.cntAll == ZERO && Unmerged(gs, d.list)
      case Scan(_) => d.cntAll == all && Unmerged(gs, d.list)
      case ScanTdata(_, _, _, part) =>
        Sane(part, accum) && Plus(d.cntAll, part) == all && Unmerged(gs, d.list)
      case Merge(todo) => d.cntAll == all && Unmerged(gs, todo) && Merged(gs, ts, d.list - todo)
      case Output => d.cntAll == all && Merged(gs, ts, d.list)
      case Finish => true
  }

  ghost predicate Locks(s: State) {
    && MtxInv(s.mtx, s.pcs, s.dump)
    && LimboInv(s.gctxs, s.pcs, ListOf(s.dump))
    && OrphanInv(s.gctxs, s.accum)
  }

  ghost predicate Tables(s: State) {
    && RegInv(s.gctxs, s.bt2gctx, s.nextG)
    && TctxInv(s.accum, s.gctxs, s.tctxs, s.bt2tctx, s.nextT)
    && LinkInv(s.gctxs, s.tctxs)
    && CacheInv(s.gctxs, s.tctxs, s.bt2gctx, s.bt2tctx)
  }

  ghost predicate Threads(s: State) {
    && ThreadInv(s.gctxs, s.tctxs, s.bt2gctx, s.bt2tctx, s.pcs)
    && DoomedInv(s.accum, s.gctxs, s.tctxs, s.bt2tctx, s.pcs)
    && DoomedOnce(s.pcs)
    && InitializingInv(s.tctxs, s.pcs)
  }

  ghost predicate Dumps(s: State) {
    && DumpListInv(s.gctxs, s.tctxs, s.bt2gctx, s.dump)
    && ScanInv(s.gctxs, s.tctxs, s.bt2tctx, s.dump)
    && SumInv(s.accum, s.gctxs, s.tctxs, s.dump)
  }

  ghost predicate Inv(s: State) {
    !s.bad && Locks(s) && Tables(s) && Threads(s) && Dumps(s)
  }

  lemma InitInv(accum: bool)
    ensures Inv(Init(accum))
  {
  }

  // ---------------------------------------------------------------- counting holders

  /** Moving one thread changes the holders of `g` by at most that thread. */
  lemma HoldersMove(pcs: Pcs, th: Thr, pc: Pc, g: Gid)
    ensures |Holders(pcs[th := pc], g)| ==
              |Holders(pcs, g)| + (if HoldsG(pc, g) then 1 else 0)
                                - (if th in pcs && HoldsG(pcs[th], g) then 1 else 0)
  {
    var before, after := Holders(pcs, g), Holders(pcs[th := pc], g);
    var others := before - {th};
    assert after == if HoldsG(pc, g) then others + {th} else others;
    assert before == if th in pcs && HoldsG(pcs[th], g) then others + {th} else others;
  }

  /** A thread moves on without gaining or losing a limbo count. */
  lemma LimboSame(gs: Gctxs, pcs: Pcs, list: set<Gid>, th: Thr, pc: Pc)
    requires LimboInv(gs, pcs, list)
    requires forall g :: HoldsG(pc, g) <==> th in pcs && HoldsG(pcs[th], g)
    ensures LimboInv(gs, pcs[th := pc], list)
  {
    forall g | g in gs ensures |Holders(pcs[th := pc], g)| == |Holders(pcs, g)| {
      HoldersMove(pcs, th, pc, g);
    }
  }

  // ---------------------------------------------------------------- moving a program counter

  /** A thread moves on; apart from its program counter only the owner of the big lock changes. */
  lemma MovePc(s: State, s': State, th: Thr, pc: Pc)
    requires Inv(s) && s' == s.(mtx := s'.mtx, pcs := s.pcs[th := pc])
    requires forall g :: HoldsG(pc, g) <==> th in s.pcs && HoldsG(s.pcs[th], g)
    requires PcInv(s.gctxs, s.tctxs, s.bt2gctx, s.bt2tctx, th, pc)
    requires Doomed(pc) == Doomed(PcOf(s, th)) && !pc.Destroying?
    requires !PcOf(s, th).Inserted? && !PcOf(s, th).Destroying?
    requires MtxInv(s'.mtx, s'.pcs, s.dump)
    ensures Inv(s')
  {
    hide SumInv, ScanInv, DumpListInv, CacheInv, LinkInv, TctxInv, TctxOk, PcInv, OrphanInv, LimboInv,
         RegInv, MtxInv;
    LimboSame(s.gctxs, s.pcs, ListOf(s.dump), th, pc);
  }

  /** Counters and the `prepared` mark of one cached tctx change. */
  ghost predicate Touches(ts: Tctxs, ts': Tctxs, t: Tid, x: Tctx) {
    t in ts && ts' == ts[t := x]
    && x.owner == ts[t].owner && x.gctx == ts[t].gctx && x.state == ts[t].state
    && x.dumpCnts == ts[t].dumpCnts
  }

  lemma Touch(s: State, s': State, t: Tid, x: Tctx)
    requires Inv(s) && s' == s.(tctxs := s'.tctxs) && Touches(s.tctxs, s'.tctxs, t, x)
    requires CntsInv(s.accum, x) && Cached(s.gctxs, s.tctxs, s.bt2tctx, t)
    requires x.state.Initializing? ==> x.prepared && x.objs == []
    requires !x.prepared ==> !PcOf(s, x.owner).Prepared? || PcOf(s, x.owner).t != t
    ensures Inv(s')
  {
    hide SumInv, ScanInv, DumpListInv, InitializingInv, CacheInv, LinkInv, TctxInv, TctxOk, DoomedOnce, DoomedInv,
         DoomedOk, ThreadInv, PcInv, OrphanInv, LimboInv, RegInv;
    TouchThreads(s, s', t, x);
    TouchDoomed(s, s', t, x);
    TouchTctxs(s, s', t, x);
    TouchTables(s, s', t, x);
    TouchDump(s, s', t, x);
  }

  lemma TouchThreads(s: State, s': State, t: Tid, x: Tctx)
    requires s' == s.(tctxs := s'.tctxs) && Touches(s.tctxs, s'.tctxs, t, x)
    requires x.state.Initializing? ==> x.prepared
    requires !x.prepared ==> !PcOf(s, x.owner).Prepared? || PcOf(s, x.owner).t != t
    requires Threads(s)
    ensures ThreadInv(s'.gctxs, s'.tctxs, s'.bt2gctx, s'.bt2tctx, s'.pcs)
    ensures InitializingInv(s'.tctxs, s'.pcs)
  {
  }

  lemma TouchDoomed(s: State, s': State, t: Tid, x: Tctx)
    requires s' == s.(tctxs := s'.tctxs) && Touches(s.tctxs, s'.tctxs, t, x)
    requires Cached(s.gctxs, s.tctxs, s.bt2tctx, t)
    requires Threads(s)
    ensures DoomedInv(s'.accum, s'.gctxs, s'.tctxs, s'.bt2tctx, s'.pcs)
  {
  }

  lemma TouchTctxs(s: State, s': State, t: Tid, x: Tctx)
    requires s' == s.(tctxs := s'.tctxs) && Touches(s.tctxs, s'.tctxs, t, x)
    requires CntsInv(s.accum, x) && Cached(s.gctxs, s.tctxs, s.bt2tctx, t)
    requires x.state.Initializing? ==> x.prepared && x.objs == []
    requires Tables(s)
    ensures TctxInv(s'.accum, s'.gctxs, s'.tctxs, s'.bt2tctx, s'.nextT)
  {
    forall u | u in s'.tctxs
      ensures u < s'.nextT && TctxOk(s'.accum, s'.gctxs, s'.tctxs, s'.bt2tctx, u)
    {
      assert TctxOk(s.accum, s.gctxs, s.tctxs, s.bt2tctx, u);
      assert Cached(s'.gctxs, s'.tctxs, s'.bt2tctx, u) <==> Cached(s.gctxs, s.tctxs, s.bt2tctx, u);
      assert Linked(s'.gctxs, s'.tctxs, u) <==> Linked(s.gctxs, s.tctxs, u);
    }
  }

  lemma TouchTables(s: State, s': State, t: Tid, x: Tctx)
    requires s' == s.(tctxs := s'.tctxs) && Touches(s.tctxs, s'.tctxs, t, x)
    requires Tables(s)
    ensures LinkInv(s'.gctxs, s'.tctxs) && CacheInv(s'.gctxs, s'.tctxs, s'.bt2gctx, s'.bt2tctx)
  {
  }

  lemma TouchDump(s: State, s': State, t: Tid, x: Tctx)
    requires s' == s.(tctxs := s'.tctxs) && Touches(s.tctxs, s'.tctxs, t, x)
    requires Dumps(s)
    ensures Dumps(s')
  {
    TouchSums(s, s', t, x);
  }

  lemma TouchSums(s: State, s': State, t: Tid, x: Tctx)
    requires s' == s.(tctxs := s'.tctxs) && Touches(s.tctxs, s'.tctxs, t, x)
    requires SumInv(s.accum, s.gctxs, s.tctxs, s.dump)
    ensures SumInv(s'.accum, s'.gctxs, s'.tctxs, s'.dump)
  {
    assert DumpCnts(s'.tctxs) == DumpCnts(s.tctxs);
    assert Captured(s'.tctxs) == Captured(s.tctxs);
    forall g | g in s.gctxs
      ensures CapturedOf(s'.gctxs, s'.tctxs, g) == CapturedOf(s.gctxs, s.tctxs, g)
    {
    }
  }

  // ---------------------------------------------------------------- moving a limbo count

  /** Only the limbo bookkeeping of `g` changes. */
  ghost predicate Recounts(gs: Gctxs, gs': Gctxs, g: Gid, y: Gctx) {
    g in gs && gs' == gs[g := y]
    && y.bt == gs[g].bt && y.linked == gs[g].linked
  }

  lemma RecountTables(s: State, s': State, g: Gid, y: Gctx)
    requires Registered(s.gctxs, s.bt2gctx, g)
    requires s' == s.(gctxs := s'.gctxs, mtx := s'.mtx, pcs := s'.pcs)
    requires Recounts(s.gctxs, s'.gctxs, g, y)
    requires Tables(s)
    ensures Tables(s')
  {
    forall u | u in s'.tctxs
      ensures u < s'.nextT && TctxOk(s'.accum, s'.gctxs, s'.tctxs, s'.bt2tctx, u)
    {
      assert TctxOk(s.accum, s.gctxs, s.tctxs, s.bt2tctx, u);
      assert Cached(s'.gctxs, s'.tctxs, s'.bt2tctx, u) <==> Cached(s.gctxs, s.tctxs, s.bt2tctx, u);
      assert Linked(s'.gctxs, s'.tctxs, u) <==> Linked(s.gctxs, s.tctxs, u);
    }
  }

  lemma RecountThreads(s: State, s': State, th: Thr, pc: Pc, g: Gid, y: Gctx)
    requires s' == s.(gctxs := s'.gctxs, mtx := s'.mtx, pcs := s.pcs[th := pc])
    requires Recounts(s.gctxs, s'.gctxs, g, y) && Registered(s.gctxs, s.bt2gctx, g)
    requires PcInv(s.gctxs, s.tctxs, s.bt2gctx, s.bt2tctx, th, pc)
    requires Doomed(pc) == Doomed(PcOf(s, th)) && !pc.Destroying? && !PcOf(s, th).Destroying?
    requires Threads(s)
    ensures ThreadInv(s'.gctxs, s'.tctxs, s'.bt2gctx, s'.bt2tctx, s'.pcs)
    ensures DoomedInv(s'.accum, s'.gctxs, s'.tctxs, s'.bt2tctx, s'.pcs)
  {
    forall u | u in s'.pcs
      ensures PcInv(s'.gctxs, s'.tctxs, s'.bt2gctx, s'.bt2tctx, u, s'.pcs[u])
    {
      assert PcInv(s.gctxs, s.tctxs, s.bt2gctx, s.bt2tctx, u, s'.pcs[u]);
    }
  }

  lemma RecountDump(s: State, s': State, g: Gid, y: Gctx)
    requires s' == s.(gctxs := s'.gctxs, mtx := s'.mtx, pcs := s'.pcs)
    requires Recounts(s.gctxs, s'.gctxs, g, y) && y.cntSummed == s.gctxs[g].cntSummed
    requires Dumps(s)
    ensures Dumps(s')
  {
    hide SumInv, ScanInv, DumpListInv;
    RecountLists(s.gctxs, s'.gctxs, s.tctxs, s.bt2gctx, s.bt2tctx, s.dump, g, y);
    RecountSums(s.accum, s.gctxs, s'.gctxs, s.tctxs, s.dump, g, y);
  }

  lemma RecountLists(gs: Gctxs, gs': Gctxs, ts: Tctxs, reg: Registry, caches: Caches, d: Dump, g: Gid, y: Gctx)
    requires Recounts(gs, gs', g, y)
    requires DumpListInv(gs, ts, reg, d) && ScanInv(gs, ts, caches, d)
    ensures DumpListInv(gs', ts, reg, d) && ScanInv(gs', ts, caches, d)
  {
  }

  lemma RecountSums(accum: bool, gs: Gctxs, gs': Gctxs, ts: Tctxs, d: Dump, g: Gid, y: Gctx)
    requires Recounts(gs, gs', g, y) && y.cntSummed == gs[g].cntSummed
    requires SumInv(accum, gs, ts, d)
    ensures SumInv(accum, gs', ts, d)
  {
    forall h | h in gs
      ensures CapturedOf(gs', ts, h) == CapturedOf(gs, ts, h)
    {
    }
  }

  /** How many limbo counts on `g` the move to `pc` gains. */
  function Gain(pcs: Pcs, th: Thr, pc: Pc, g: Gid): int {
    (if HoldsG(pc, g) then 1 else 0) - (if th in pcs && HoldsG(pcs[th], g) then 1 else 0)
  }

  lemma RecountLimbo(gs: Gctxs, gs': Gctxs, pcs: Pcs, list: set<Gid>, th: Thr, pc: Pc, g: Gid, y: Gctx)
    requires LimboInv(gs, pcs, list) && Recounts(gs, gs', g, y)
    requires y.nlimbo - gs[g].nlimbo == y.leaked - gs[g].leaked + Gain(pcs, th, pc, g)
    requires forall h :: h != g ==> Gain(pcs, th, pc, h) == 0
    ensures LimboInv(gs', pcs[th := pc], list)
  {
    forall h | h in gs
      ensures |Holders(pcs[th := pc], h)| == |Holders(pcs, h)| + Gain(pcs, th, pc, h)
    {
      HoldersMove(pcs, th, pc, h);
    }
  }

  /** Moving one thread that keeps its doomed tctx. */
  lemma PcsRest(ts: Tctxs, pcs: Pcs, th: Thr, pc: Pc)
    requires DoomedOnce(pcs) && InitializingInv(ts, pcs)
    requires th in pcs ==> Doomed(pc) == Doomed(pcs[th]) && !pcs[th].Inserted?
    requires th !in pcs ==> Doomed(pc).None?
    ensures DoomedOnce(pcs[th := pc]) && InitializingInv(ts, pcs[th := pc])
  {
  }

  /** A thread moves on and the limbo count of `g` follows. */
  lemma MoveCount(s: State, s': State, th: Thr, pc: Pc, g: Gid, y: Gctx)
    requires Inv(s) && s' == s.(gctxs := s'.gctxs, mtx := s'.mtx, pcs := s.pcs[th := pc])
    requires Recounts(s.gctxs, s'.gctxs, g, y) && Registered(s.gctxs, s.bt2gctx, g)
    requires y.cntSummed == s.gctxs[g].cntSummed
    requires y.nlimbo - s.gctxs[g].nlimbo == y.leaked - s.gctxs[g].leaked + Gain(s.pcs, th, pc, g)
    requires forall h :: h != g ==> Gain(s.pcs, th, pc, h) == 0
    requires y.nlimbo == 0 && !s.accum ==> y.linked != {}
    requires PcInv(s.gctxs, s.tctxs, s.bt2gctx, s.bt2tctx, th, pc)
    requires Doomed(pc) == Doomed(PcOf(s, th)) && !pc.Destroying?
    requires !PcOf(s, th).Inserted? && !PcOf(s, th).Destroying?
    requires MtxInv(s'.mtx, s'.pcs, s.dump)
    ensures Inv(s')
  {
    RecountTables(s, s', g, y);
    RecountThreads(s, s', th, pc, g, y);
    RecountDump(s, s', g, y);
    RecountLimbo(s.gctxs, s'.gctxs, s.pcs, ListOf(s.dump), th, pc, g, y);
    PcsRest(s.tctxs, s.pcs, th, pc);
  }

  // ---------------------------------------------------------------- one lemma for each step

  lemma KeepLookup(s: State, th: Thr, bt: Bt)
    requires Inv(s)
    ensures Inv(DoLookup(s, th, bt))
  {
    hide SumInv, ScanInv, DumpListInv, InitializingInv, CacheInv, LinkInv, TctxInv, TctxOk, DoomedOnce, DoomedInv,
         DoomedOk, OrphanInv, LimboInv, RegInv;
    if !PcOf(s, th).Idle? || TdataLocked(s, th) {
    } else if (th, bt) !in s.bt2tctx {
      MovePc(s, At(s, th, Seeking(bt)), th, Seeking(bt));
    } else {
      var t := s.bt2tctx[(th, bt)];
      KeepLookupFound(s, th, bt, t);
    }
  }

  lemma LookupFoundFacts(s: State, th: Thr, bt: Bt)
    requires Inv(s) && PcOf(s, th).Idle? && (th, bt) in s.bt2tctx
    ensures var t := s.bt2tctx[(th, bt)];
            && Cached(s.gctxs, s.tctxs, s.bt2tctx, t) && s.tctxs[t].owner == th
            && CntsInv(s.accum, s.tctxs[t]) && Linked(s.gctxs, s.tctxs, t)
            && !s.tctxs[t].state.Initializing?
            && MtxInv(s.mtx, s.pcs[th := Prepared(t)], s.dump)
  {
    hide SumInv, ScanInv, DumpListInv, LinkInv, DoomedOnce, DoomedInv, DoomedOk, ThreadInv, PcInv,
         OrphanInv, LimboInv, RegInv;
    var t := s.bt2tctx[(th, bt)];
    assert TctxOk(s.accum, s.gctxs, s.tctxs, s.bt2tctx, t);
  }

  lemma KeepLookupFound(s: State, th: Thr, bt: Bt, t: Tid)
    requires Inv(s) && PcOf(s, th).Idle?
    requires (th, bt) in s.bt2tctx && t == s.bt2tctx[(th, bt)]
    ensures t in s.tctxs
    ensures Inv(At(s.(tctxs := s.tctxs[t := s.tctxs[t].(prepared := true)]), th, Prepared(t)))
  {
    hide Inv;
    LookupFoundFacts(s, th, bt);
    var x := s.tctxs[t].(prepared := true);
    var s1 := s.(tctxs := s.tctxs[t := x]);
    Touch(s, s1, t, x);
    MovePc(s1, At(s1, th, Prepared(t)), th, Prepared(t));
  }

  lemma KeepEnter(s: State, th: Thr, how: Insertion)
    requires Inv(s) && !Displaces(s, Enter(th, how))
    ensures Inv(DoEnter(s, th, how))
  {
    hide SumInv, ScanInv, DumpListInv, InitializingInv, CacheInv, LinkInv, TctxInv, TctxOk, DoomedOnce, DoomedInv,
         DoomedOk, OrphanInv, LimboInv;
    if PcOf(s, th).Seeking? && s.mtx.Free? {
      var bt := PcOf(s, th).bt;
      var s1 := s.(mtx := ByThread(th));
      if bt in s.bt2gctx {
        MovePc(s, At(s1, th, Found(bt, s.bt2gctx[bt])), th, Found(bt, s.bt2gctx[bt]));
      } else if how.NoMemory? {
        MovePc(s, At(s1, th, LeaveMtx(None)), th, LeaveMtx(None));
      } else if how.Stored? {
        KeepEnterNew(s, DoEnter(s, th, how), th, bt, s.nextG);
      }
    }
  }

  /** A gctx that did not exist is created and registered. */
  ghost predicate Registers(s: State, s': State, th: Thr, bt: Bt, g: Gid) {
    && PcOf(s, th) == Seeking(bt) && s.mtx.Free? && bt !in s.bt2gctx && g == s.nextG
    && s' == s.(mtx := ByThread(th), gctxs := s.gctxs[g := Gctx(bt, 1, {}, ZERO, 0)],
                bt2gctx := s.bt2gctx[bt := g], nextG := g + 1,
                pcs := s.pcs[th := Leaving(bt, g, true)])
  }

  lemma RegisterTctxs(s: State, s': State, th: Thr, bt: Bt, g: Gid)
    requires Registers(s, s', th, bt, g)
    requires Tables(s)
    ensures TctxInv(s'.accum, s'.gctxs, s'.tctxs, s'.bt2tctx, s'.nextT)
  {
    forall u | u in s'.tctxs
      ensures u < s'.nextT && TctxOk(s'.accum, s'.gctxs, s'.tctxs, s'.bt2tctx, u)
    {
      assert TctxOk(s.accum, s.gctxs, s.tctxs, s.bt2tctx, u);
      NewKey(s, s', th, bt, g, u);
    }
  }

  lemma RegisterTables(s: State, s': State, th: Thr, bt: Bt, g: Gid)
    requires Registers(s, s', th, bt, g)
    requires Tables(s)
    ensures Tables(s')
  {
    hide TctxInv;
    RegisterTctxs(s, s', th, bt, g);
    RegisterRegistry(s, s', th, bt, g);
  }

  lemma RegisterRegistry(s: State, s': State, th: Thr, bt: Bt, g: Gid)
    requires Registers(s, s', th, bt, g)
    requires RegInv(s.gctxs, s.bt2gctx, s.nextG)
    ensures RegInv(s'.gctxs, s'.bt2gctx, s'.nextG)
  {
    forall h | h in s.gctxs
      ensures Registered(s'.gctxs, s'.bt2gctx, h) <==> Registered(s.gctxs, s.bt2gctx, h)
    {
    }
  }

  /** A fresh gctx has nothing to do with an old tctx. */
  lemma NewKey(s: State, s': State, th: Thr, bt: Bt, g: Gid, u: Tid)
    requires Registers(s, s', th, bt, g)
    requires Tables(s)
    ensures Cached(s'.gctxs, s'.tctxs, s'.bt2tctx, u) <==> Cached(s.gctxs, s.tctxs, s.bt2tctx, u)
    ensures Linked(s'.gctxs, s'.tctxs, u) <==> Linked(s.gctxs, s.tctxs, u)
  {
  }

  lemma RegisterPcs(s: State, s': State, th: Thr, bt: Bt, g: Gid)
    requires Registers(s, s', th, bt, g)
    requires Tables(s) && Threads(s)
    ensures ThreadInv(s'.gctxs, s'.tctxs, s'.bt2gctx, s'.bt2tctx, s'.pcs)
    ensures Holders(s.pcs, g) == {}
  {
    hide TctxInv, LinkInv, DoomedInv, DoomedOnce, InitializingInv, CacheInv;
    forall u | u in s.pcs
      ensures PcInv(s'.gctxs, s'.tctxs, s'.bt2gctx, s'.bt2tctx, u, s'.pcs[u])
      ensures !HoldsG(s.pcs[u], g)
    {
      assert PcInv(s.gctxs, s.tctxs, s.bt2gctx, s.bt2tctx, u, s.pcs[u]);
    }
  }

  lemma RegisterThreads(s: State, s': State, th: Thr, bt: Bt, g: Gid)
    requires Registers(s, s', th, bt, g)
    requires Tables(s) && Threads(s)
    ensures ThreadInv(s'.gctxs, s'.tctxs, s'.bt2gctx, s'.bt2tctx, s'.pcs)
    ensures DoomedInv(s'.accum, s'.gctxs, s'.tctxs, s'.bt2tctx, s'.pcs)
    ensures Holders(s.pcs, g) == {}
  {
    hide ThreadInv, PcInv, TctxInv, RegInv, LinkInv, CacheInv, DoomedOnce, InitializingInv;
    RegisterPcs(s, s', th, bt, g);
    forall u | u in s'.pcs && Doomed(s'.pcs[u]).Some?
      ensures DoomedOk(s'.accum, s'.gctxs, s'.tctxs, s'.bt2tctx, s'.pcs[u], Doomed(s'.pcs[u]).value)
    {
      NewKey(s, s', th, bt, g, Doomed(s'.pcs[u]).value);
    }
  }

  lemma RegisterDump(s: State, s': State, th: Thr, bt: Bt, g: Gid)
    requires Registers(s, s', th, bt, g)
    requires MtxInv(s.mtx, s.pcs, s.dump)
    requires Tables(s) && Dumps(s)
    ensures Dumps(s')
  {
  }

  lemma RegisterLimbo(s: State, s': State, th: Thr, bt: Bt, g: Gid)
    requires Registers(s, s', th, bt, g) && g !in s.gctxs && g !in ListOf(s.dump)
    requires LimboInv(s.gctxs, s.pcs, ListOf(s.dump)) && Holders(s.pcs, g) == {}
    ensures LimboInv(s'.gctxs, s'.pcs, ListOf(s'.dump))
  {
    forall h | h in s'.gctxs
      ensures |Holders(s'.pcs, h)| == |Holders(s.pcs, h)| + (if h == g then 1 else 0)
    {
      HoldersMove(s.pcs, th, Leaving(bt, g, true), h);
    }
  }

  lemma KeepEnterNew(s: State, s': State, th: Thr, bt: Bt, g: Gid)
    requires Inv(s) && Registers(s, s', th, bt, g)
    ensures Inv(s')
  {
    hide SumInv, ScanInv, InitializingInv, CacheInv, LinkInv, TctxInv, TctxOk, DoomedOnce, DoomedInv,
         DoomedOk, ThreadInv, PcInv, LimboInv;
    RegisterTables(s, s', th, bt, g);
    RegisterThreads(s, s', th, bt, g);
    RegisterDump(s, s', th, bt, g);
    RegisterLimbo(s, s', th, bt, g);
    PcsRest(s.tctxs, s.pcs, th, Leaving(bt, g, true));
  }

  lemma KeepHold(s: State, th: Thr)
    requires Inv(s)
    ensures Inv(DoHold(s, th))
  {
    hide SumInv, ScanInv, InitializingInv, CacheInv, LinkInv, TctxInv, TctxOk, DoomedOnce, DoomedInv, DoomedOk;
    if PcOf(s, th).Found? {
      var Found(bt, g) := PcOf(s, th);
      var y := s.gctxs[g].(nlimbo := s.gctxs[g].nlimbo + 1);
      MoveCount(s, DoHold(s, th), th, Leaving(bt, g, false), g, y);
    }
  }

  lemma KeepLeave(s: State, th: Thr)
    requires Inv(s)
    ensures Inv(DoLeave(s, th))
  {
    hide SumInv, ScanInv, DumpListInv, InitializingInv, CacheInv, LinkInv, TctxInv, TctxOk, DoomedOnce, DoomedInv,
         DoomedOk, OrphanInv, LimboInv, RegInv;
    match PcOf(s, th)
    case Leaving(bt, g, isNew) => MovePc(s, DoLeave(s, th), th, Attaching(bt, g, isNew));
    case LeaveMtx(fin) => MovePc(s, DoLeave(s, th), th, Done(fin));
    case _ =>
  }

  // ---- attaching a tctx

  ghost predicate Attaches(s: State, s': State, th: Thr, bt: Bt, g: Gid, t: Tid) {
    && PcOf(s, th).Attaching? && PcOf(s, th).bt == bt && PcOf(s, th).g == g
    && !TdataLocked(s, th) && t == s.nextT
    && s' == s.(tctxs := s.tctxs[t := Tctx(th, g, Initializing, true, ZERO, [], ZERO)],
                bt2tctx := s.bt2tctx[(th, bt) := t], nextT := t + 1,
                pcs := s.pcs[th := Inserted(bt, g, t)])
  }

  lemma AttachSame(s: State, s': State, th: Thr, bt: Bt, g: Gid, t: Tid, u: Tid)
    requires Attaches(s, s', th, bt, g, t) && t !in s.tctxs && (th, bt) !in s.bt2tctx
    requires u != t
    requires Tables(s)
    ensures Cached(s'.gctxs, s'.tctxs, s'.bt2tctx, u) <==> Cached(s.gctxs, s.tctxs, s.bt2tctx, u)
    ensures Linked(s'.gctxs, s'.tctxs, u) <==> Linked(s.gctxs, s.tctxs, u)
  {
  }

  lemma AttachTctxs(s: State, s': State, th: Thr, bt: Bt, g: Gid, t: Tid)
    requires Attaches(s, s', th, bt, g, t) && t !in s.tctxs && (th, bt) !in s.bt2tctx
    requires Registered(s.gctxs, s.bt2gctx, g) && s.gctxs[g].bt == bt
    requires Tables(s)
    ensures TctxInv(s'.accum, s'.gctxs, s'.tctxs, s'.bt2tctx, s'.nextT)
  {
    forall u | u in s'.tctxs
      ensures u < s'.nextT && TctxOk(s'.accum, s'.gctxs, s'.tctxs, s'.bt2tctx, u)
    {
      if u == t {
        AttachNew(s, s', th, bt, g, t);
      } else {
        assert TctxOk(s.accum, s.gctxs, s.tctxs, s.bt2tctx, u);
        AttachSame(s, s', th, bt, g, t, u);
      }
    }
  }

  lemma AttachNew(s: State, s': State, th: Thr, bt: Bt, g: Gid, t: Tid)
    requires Attaches(s, s', th, bt, g, t) && t !in s.tctxs
    requires Registered(s.gctxs, s.bt2gctx, g) && s.gctxs[g].bt == bt
    requires LinkInv(s.gctxs, s.tctxs)
    ensures TctxOk(s'.accum, s'.gctxs, s'.tctxs, s'.bt2tctx, t)
  {
  }

  lemma AttachTables(s: State, s': State, th: Thr, bt: Bt, g: Gid, t: Tid)
    requires Attaches(s, s', th, bt, g, t) && t !in s.tctxs && (th, bt) !in s.bt2tctx
    requires Registered(s.gctxs, s.bt2gctx, g) && s.gctxs[g].bt == bt
    requires Tables(s)
    ensures TctxInv(s'.accum, s'.gctxs, s'.tctxs, s'.bt2tctx, s'.nextT)
    ensures LinkInv(s'.gctxs, s'.tctxs) && CacheInv(s'.gctxs, s'.tctxs, s'.bt2gctx, s'.bt2tctx)
  {
    hide TctxInv, RegInv;
    AttachTctxs(s, s', th, bt, g, t);
  }

  lemma AttachThreads(s: State, s': State, th: Thr, bt: Bt, g: Gid, t: Tid)
    requires Attaches(s, s', th, bt, g, t) && t !in s.tctxs && (th, bt) !in s.bt2tctx
    requires Registered(s.gctxs, s.bt2gctx, g) && s.gctxs[g].bt == bt
    requires Tables(s) && Threads(s)
    ensures Threads(s')
  {
    hide SumInv, ScanInv, DumpListInv, CacheInv, LinkInv, TctxInv, TctxOk, OrphanInv, LimboInv, RegInv,
         MtxInv;
    forall u | u in s.pcs
      ensures PcInv(s'.gctxs, s'.tctxs, s'.bt2gctx, s'.bt2tctx, u, s'.pcs[u])
    {
      assert PcInv(s.gctxs, s.tctxs, s.bt2gctx, s.bt2tctx, u, s.pcs[u]);
    }
    forall u | u in s'.pcs && Doomed(s'.pcs[u]).Some?
      ensures DoomedOk(s'.accum, s'.gctxs, s'.tctxs, s'.bt2tctx, s'.pcs[u], Doomed(s'.pcs[u]).value)
    {
      AttachSame(s, s', th, bt, g, t, Doomed(s'.pcs[u]).value);
    }
  }

  lemma AttachLists(s: State, s': State, th: Thr, bt: Bt, g: Gid, t: Tid)
    requires Attaches(s, s', th, bt, g, t) && t !in s.tctxs && (th, bt) !in s.bt2tctx
    requires Tables(s) && DumpListInv(s.gctxs, s.tctxs, s.bt2gctx, s.dump)
    requires ScanInv(s.gctxs, s.tctxs, s.bt2tctx, s.dump)
    ensures DumpListInv(s'.gctxs, s'.tctxs, s'.bt2gctx, s'.dump)
    ensures ScanInv(s'.gctxs, s'.tctxs, s'.bt2tctx, s'.dump)
  {
    hide TctxInv, TctxOk, LinkInv, SumInv, RegInv;
  }

  lemma AttachDump(s: State, s': State, th: Thr, bt: Bt, g: Gid, t: Tid)
    requires Attaches(s, s', th, bt, g, t) && t !in s.tctxs && (th, bt) !in s.bt2tctx
    requires Tables(s) && Dumps(s)
    ensures Dumps(s')
  {
    hide SumInv, ScanInv, InitializingInv, CacheInv, LinkInv, TctxInv, TctxOk, DoomedOnce, DoomedInv,
         DoomedOk, ThreadInv, PcInv, OrphanInv, LimboInv, RegInv, MtxInv;
    AttachLists(s, s', th, bt, g, t);
    assert Captured(s'.tctxs) == Captured(s.tctxs);
    assert s.dump.Dump? && s.dump.phase.Merge? ==> s.dump.phase.todo <= s.dump.list;
    forall h | h in s.gctxs && h in ListOf(s.dump)
      ensures CapturedOf(s'.gctxs, s'.tctxs, h) == CapturedOf(s.gctxs, s.tctxs, h)
    {
      AttachLinks(s, h);
    }
    hide Tables, SumInv, DumpListInv, ScanInv;
    SameCaptures(s, s');
  }

  lemma AttachLinks(s: State, g: Gid)
    requires Tables(s) && g in s.gctxs
    ensures forall t :: t in s.gctxs[g].linked ==> t in s.tctxs
  {
  }

  /** The sums of a dump see only the captured tctxs and the listed gctxs. */
  lemma SameCaptures(s: State, s': State)
    requires s'.dump == s.dump && s'.accum == s.accum && Captured(s'.tctxs) == Captured(s.tctxs)
    requires forall t :: t in Captured(s.tctxs) ==> s'.tctxs[t].dumpCnts == s.tctxs[t].dumpCnts
    requires forall g :: g in s'.gctxs && g in ListOf(s.dump) ==>
               && g in s.gctxs && s'.gctxs[g].cntSummed == s.gctxs[g].cntSummed
               && CapturedOf(s'.gctxs, s'.tctxs, g) == CapturedOf(s.gctxs, s.tctxs, g)
    requires s.dump.Dump? && s.dump.phase.Merge? ==> s.dump.phase.todo <= s.dump.list
    requires SumInv(s.accum, s.gctxs, s.tctxs, s.dump)
    ensures SumInv(s'.accum, s'.gctxs, s'.tctxs, s'.dump)
  {
    SumAgree(Captured(s.tctxs), DumpCnts(s.tctxs), DumpCnts(s'.tctxs));
    forall g | g in s'.gctxs && g in ListOf(s.dump)
      ensures Sum(CapturedOf(s'.gctxs, s'.tctxs, g), DumpCnts(s'.tctxs))
              == Sum(CapturedOf(s.gctxs, s.tctxs, g), DumpCnts(s.tctxs))
    {
      SumAgree(CapturedOf(s.gctxs, s.tctxs, g), DumpCnts(s.tctxs), DumpCnts(s'.tctxs));
    }
  }

  lemma AttachFacts(s: State, th: Thr)
    requires Inv(s) && PcOf(s, th).Attaching?
    ensures var g := PcOf(s, th).g;
            && Registered(s.gctxs, s.bt2gctx, g) && s.gctxs[g].bt == PcOf(s, th).bt
            && (th, PcOf(s, th).bt) !in s.bt2tctx && s.nextT !in s.tctxs
            && s.gctxs[g].nlimbo >= 1
            && MtxInv(s.mtx, s.pcs[th := WantDestroy(g, None)], s.dump)
            && MtxInv(s.mtx, s.pcs[th := Idle], s.dump)
  {
    assert PcInv(s.gctxs, s.tctxs, s.bt2gctx, s.bt2tctx, th, s.pcs[th]);
    HolderCounts(s.gctxs, s.pcs, ListOf(s.dump), th, PcOf(s, th).g);
  }

  lemma KeepAttachOk(s: State, s': State, th: Thr, bt: Bt, g: Gid, t: Tid)
    requires Inv(s) && Attaches(s, s', th, bt, g, t)
    ensures Inv(s')
  {
    hide SumInv, ScanInv, DumpListInv, InitializingInv, CacheInv, LinkInv, TctxInv, TctxOk, DoomedOnce, DoomedInv,
         DoomedOk, ThreadInv, PcInv, OrphanInv, LimboInv, RegInv;
    AttachFacts(s, th);
    AttachTables(s, s', th, bt, g, t);
    AttachThreads(s, s', th, bt, g, t);
    AttachDump(s, s', th, bt, g, t);
    LimboSame(s.gctxs, s.pcs, ListOf(s.dump), th, Inserted(bt, g, t));
  }

  lemma KeepAttach(s: State, th: Thr, how: Insertion)
    requires Inv(s) && !Displaces(s, Attach(th, how))
    ensures Inv(DoAttach(s, th, how))
  {
    hide Inv;
    if PcOf(s, th).Attaching? && !TdataLocked(s, th) {
      var Attaching(bt, g, isNew) := PcOf(s, th);
      AttachFacts(s, th);
      if how.Stored? {
        KeepAttachOk(s, DoAttach(s, th, how), th, bt, g, s.nextT);
      } else if how.NoMemory? {
        if isNew {
          MovePc(s, DoAttach(s, th, how), th, WantDestroy(g, None));
        } else {
          var y := s.gctxs[g].(leaked := s.gctxs[g].leaked + 1);
          MoveCount(s, DoAttach(s, th, how), th, Idle, g, y);
        }
      }
    }
  }

  // ---- linking a tctx

  lemma HolderCounts(gs: Gctxs, pcs: Pcs, list: set<Gid>, th: Thr, g: Gid)
    requires LimboInv(gs, pcs, list) && g in gs && th in pcs && HoldsG(pcs[th], g)
    ensures gs[g].nlimbo >= 1
    ensures gs[g].nlimbo == 1 ==> gs[g].leaked == 0 && g !in list && Holders(pcs, g) == {th}
  {
    var hs := Holders(pcs, g);
    assert th in hs && |hs - {th}| == |hs| - 1;
  }

  ghost predicate Links(s: State, s': State, th: Thr, bt: Bt, g: Gid, t: Tid) {
    && PcOf(s, th) == Inserted(bt, g, t) && g in s.gctxs && t in s.tctxs
    && s' == s.(tctxs := s.tctxs[t := s.tctxs[t].(state := Nominal)],
                gctxs := s.gctxs[g := s.gctxs[g].(linked := s.gctxs[g].linked + {t},
                                                  nlimbo := s.gctxs[g].nlimbo - 1)],
                pcs := s.pcs[th := Prepared(t)])
  }

  ghost predicate LinkReady(s: State, th: Thr, bt: Bt, g: Gid, t: Tid) {
    PcInv(s.gctxs, s.tctxs, s.bt2gctx, s.bt2tctx, th, Inserted(bt, g, t))
  }

  lemma LinkSame(s: State, s': State, th: Thr, bt: Bt, g: Gid, t: Tid, u: Tid)
    requires Links(s, s', th, bt, g, t) && LinkReady(s, th, bt, g, t)
    ensures Cached(s'.gctxs, s'.tctxs, s'.bt2tctx, u) <==> Cached(s.gctxs, s.tctxs, s.bt2tctx, u)
    ensures Linked(s'.gctxs, s'.tctxs, u) <==> Linked(s.gctxs, s.tctxs, u) || u == t
  {
  }

  lemma LinkTctxs(s: State, s': State, th: Thr, bt: Bt, g: Gid, t: Tid)
    requires Links(s, s', th, bt, g, t) && LinkReady(s, th, bt, g, t)
    requires Tables(s)
    ensures TctxInv(s'.accum, s'.gctxs, s'.tctxs, s'.bt2tctx, s'.nextT)
  {
    forall u | u in s'.tctxs
      ensures u < s'.nextT && TctxOk(s'.accum, s'.gctxs, s'.tctxs, s'.bt2tctx, u)
    {
      assert TctxOk(s.accum, s.gctxs, s.tctxs, s.bt2tctx, u);
      LinkSame(s, s', th, bt, g, t, u);
    }
  }

  lemma LinkTables(s: State, s': State, th: Thr, bt: Bt, g: Gid, t: Tid)
    requires Links(s, s', th, bt, g, t) && LinkReady(s, th, bt, g, t)
    requires Tables(s)
    ensures Tables(s')
  {
    hide TctxInv;
    LinkTctxs(s, s', th, bt, g, t);
  }

  lemma LinkThreads(s: State, s': State, th: Thr, bt: Bt, g: Gid, t: Tid)
    requires Links(s, s', th, bt, g, t) && LinkReady(s, th, bt, g, t)
    requires Threads(s)
    ensures Threads(s')
  {
    forall u | u in s.pcs
      ensures PcInv(s'.gctxs, s'.tctxs, s'.bt2gctx, s'.bt2tctx, u, s'.pcs[u])
    {
      assert PcInv(s.gctxs, s.tctxs, s.bt2gctx, s.bt2tctx, u, s.pcs[u]);
    }
    forall u | u in s'.pcs && Doomed(s'.pcs[u]).Some?
      ensures DoomedOk(s'.accum, s'.gctxs, s'.tctxs, s'.bt2tctx, s'.pcs[u], Doomed(s'.pcs[u]).value)
    {
      LinkSame(s, s', th, bt, g, t, Doomed(s'.pcs[u]).value);
    }
  }

  lemma LinkDump(s: State, s': State, th: Thr, bt: Bt, g: Gid, t: Tid)
    requires Links(s, s', th, bt, g, t) && LinkReady(s, th, bt, g, t)
    requires Dumps(s)
    ensures Dumps(s')
  {
    LinkLists(s, s', th, bt, g, t);
    hide SumInv, ScanInv, LinkReady;
    SameCaptures(s, s');
  }

  lemma LinkLists(s: State, s': State, th: Thr, bt: Bt, g: Gid, t: Tid)
    requires Links(s, s', th, bt, g, t) && LinkReady(s, th, bt, g, t)
    requires DumpListInv(s.gctxs, s.tctxs, s.bt2gctx, s.dump) && ScanInv(s.gctxs, s.tctxs, s.bt2tctx, s.dump)
    ensures DumpListInv(s'.gctxs, s'.tctxs, s'.bt2gctx, s'.dump)
    ensures ScanInv(s'.gctxs, s'.tctxs, s'.bt2tctx, s'.dump)
    ensures forall u :: u in s.tctxs ==> (IsCaptured(s'.tctxs[u]) <==> IsCaptured(s.tctxs[u]))
    ensures !IsCaptured(s'.tctxs[t])
  {
  }

  lemma LinkLocks(s: State, s': State, th: Thr, bt: Bt, g: Gid, t: Tid)
    requires Links(s, s', th, bt, g, t)
    requires Locks(s)
    ensures Locks(s')
  {
    forall h | h in s'.gctxs
      ensures |Holders(s'.pcs, h)| == |Holders(s.pcs, h)| - (if h == g then 1 else 0)
    {
      HoldersMove(s.pcs, th, Prepared(t), h);
    }
  }

  lemma KeepLinkStep(s: State, s': State, th: Thr, bt: Bt, g: Gid, t: Tid)
    requires Inv(s) && Links(s, s', th, bt, g, t) && LinkReady(s, th, bt, g, t)
    ensures Inv(s')
  {
    hide Locks, Tables, Threads, Dumps, LinkReady;
    LinkTables(s, s', th, bt, g, t);
    LinkThreads(s, s', th, bt, g, t);
    LinkDump(s, s', th, bt, g, t);
    LinkLocks(s, s', th, bt, g, t);
  }

  lemma KeepLink(s: State, th: Thr)
    requires Inv(s)
    ensures Inv(DoLink(s, th))
  {
    hide SumInv, ScanInv, DumpListInv, InitializingInv, CacheInv, LinkInv, TctxInv, TctxOk, DoomedOnce,
         DoomedInv, DoomedOk, OrphanInv, LimboInv, RegInv, MtxInv;
    if PcOf(s, th).Inserted? {
      var Inserted(bt, g, t) := PcOf(s, th);
      assert LinkReady(s, th, bt, g, t);
      HolderCounts(s.gctxs, s.pcs, ListOf(s.dump), th, g);
      KeepLinkStep(s, DoLink(s, th), th, bt, g, t);
    }
  }

  // ---- using a tctx

  lemma {:induction false} TotalAppend(objs: seq<nat>, n: nat)
    ensures Total(objs + [n]) == Total(objs) + n
  {
    if objs == [] {
      assert Total([n]) == n;
    } else {
      assert (objs + [n])[1..] == objs[1..] + [n];
      TotalAppend(objs[1..], n);
    }
  }

  lemma {:induction false} TotalRemove(objs: seq<nat>, i: nat)
    requires i < |objs|
    ensures Total(objs) == objs[i] + Total(objs[..i] + objs[i + 1..])
  {
    var rest := objs[..i] + objs[i + 1..];
    if i == 0 {
      assert rest == objs[1..];
    } else {
      TotalRemove(objs[1..], i - 1);
      assert rest[1..] == objs[1..][..i - 1] + objs[1..][i..];
      assert rest[0] == objs[0];
    }
  }

  lemma PreparedFacts(s: State, th: Thr)
    requires Inv(s) && PcOf(s, th).Prepared?
    ensures var t := PcOf(s, th).t;
            && Cached(s.gctxs, s.tctxs, s.bt2tctx, t) && Linked(s.gctxs, s.tctxs, t)
            && s.tctxs[t].owner == th && CntsInv(s.accum, s.tctxs[t])
            && !s.tctxs[t].state.Initializing? && !s.tctxs[t].state.Purgatory?
  {
  }

  lemma KeepIdle(s: State, th: Thr)
    requires Inv(s) && PcOf(s, th).Prepared?
    ensures Inv(At(s, th, Idle))
  {
    hide SumInv, ScanInv, DumpListInv, InitializingInv, CacheInv, LinkInv, TctxInv, TctxOk, DoomedOnce, DoomedInv,
         DoomedOk, ThreadInv, OrphanInv, LimboInv, RegInv;
    MovePc(s, At(s, th, Idle), th, Idle);
  }

  lemma KeepSample(s: State, th: Thr, usize: nat)
    requires Inv(s)
    ensures Inv(DoSample(s, th, usize))
  {
    hide Inv;
    if PcOf(s, th).Prepared? {
      var t := PcOf(s, th).t;
      PreparedFacts(s, th);
      KeepIdle(s, th);
      TotalAppend(s.tctxs[t].objs, usize);
      var s' := DoSample(s, th, usize);
      if !TdataLocked(s, s.tctxs[t].owner) {
        Touch(At(s, th, Idle), s', t, s'.tctxs[t]);
      }
    }
  }

  /** A tctx leaves its owner's table. */
  ghost predicate Removes(s: State, s': State, th: Thr, t: Tid) {
    && PcOf(s, th).Idle? && Cached(s.gctxs, s.tctxs, s.bt2tctx, t)
    && TctxShouldDestroy(s.accum, s.tctxs[t]) && s.tctxs[t].objs == []
    && !s.tctxs[t].state.Initializing? && !s.tctxs[t].state.Purgatory?
    && Linked(s.gctxs, s.tctxs, t) && !TdataLocked(s, s.tctxs[t].owner)
    && s' == s.(bt2tctx := s.bt2tctx - {(s.tctxs[t].owner, s.gctxs[s.tctxs[t].gctx].bt)},
                pcs := s.pcs[th := Destroying(t)])
  }

  lemma RemoveSame(s: State, s': State, th: Thr, t: Tid, u: Tid)
    requires Removes(s, s', th, t)
    ensures Cached(s'.gctxs, s'.tctxs, s'.bt2tctx, u)
            <==> (Cached(s.gctxs, s.tctxs, s.bt2tctx, u) && u != t)
  {
  }

  lemma RemoveTables(s: State, s': State, th: Thr, t: Tid)
    requires Removes(s, s', th, t)
    requires Tables(s) && Dumps(s)
    ensures TctxInv(s'.accum, s'.gctxs, s'.tctxs, s'.bt2tctx, s'.nextT)
    ensures CacheInv(s'.gctxs, s'.tctxs, s'.bt2gctx, s'.bt2tctx)
    ensures ScanInv(s'.gctxs, s'.tctxs, s'.bt2tctx, s'.dump)
  {
    hide SumInv, DumpListInv, InitializingInv, LinkInv, DoomedOnce, DoomedInv, DoomedOk, ThreadInv, PcInv,
         OrphanInv, LimboInv, RegInv, MtxInv;
    forall u | u in s'.tctxs
      ensures u < s'.nextT && TctxOk(s'.accum, s'.gctxs, s'.tctxs, s'.bt2tctx, u)
    {
      assert TctxOk(s.accum, s.gctxs, s.tctxs, s.bt2tctx, u);
      RemoveSame(s, s', th, t, u);
    }
  }

  lemma RemoveThreads(s: State, s': State, th: Thr, t: Tid)
    requires Removes(s, s', th, t)
    requires Threads(s)
    ensures Threads(s')
  {
  }

  lemma KeepRemove(s: State, s': State, th: Thr, t: Tid)
    requires Inv(s) && Removes(s, s', th, t)
    ensures Inv(s')
  {
    hide SumInv, ScanInv, DumpListInv, InitializingInv, CacheInv, LinkInv, TctxInv, TctxOk, DoomedOnce, DoomedInv,
         DoomedOk, ThreadInv, PcInv, OrphanInv, LimboInv, RegInv;
    RemoveTables(s, s', th, t);
    RemoveThreads(s, s', th, t);
    LimboSame(s.gctxs, s.pcs, ListOf(s.dump), th, Destroying(t));
  }

  lemma KeepMaybeDestroy(s: State, th: Thr, t: Tid)
    requires Inv(s) && PcOf(s, th).Idle?
    requires Cached(s.gctxs, s.tctxs, s.bt2tctx, t) && Linked(s.gctxs, s.tctxs, t)
    requires CntsInv(s.accum, s.tctxs[t]) && !TdataLocked(s, s.tctxs[t].owner)
    requires !s.tctxs[t].state.Initializing? && !s.tctxs[t].state.Purgatory?
    ensures Inv(MaybeDestroy(s, th, t))
  {
    hide Inv;
    if TctxShouldDestroy(s.accum, s.tctxs[t]) {
      KeepRemove(s, MaybeDestroy(s, th, t), th, t);
    } else {
      KeepStay(s, th);
    }
  }

  lemma KeepStay(s: State, th: Thr)
    requires Inv(s) && PcOf(s, th).Idle?
    ensures Inv(At(s, th, Idle))
  {
    MovePc(s, At(s, th, Idle), th, Idle);
  }

  lemma KeepRollback(s: State, th: Thr)
    requires Inv(s)
    ensures Inv(DoRollback(s, th))
  {
    hide Inv;
    if PcOf(s, th).Prepared? {
      var t := PcOf(s, th).t;
      PreparedFacts(s, th);
      KeepIdle(s, th);
      if !TdataLocked(s, s.tctxs[t].owner) {
        var x := s.tctxs[t].(prepared := false);
        var s1 := At(s, th, Idle).(tctxs := s.tctxs[t := x]);
        Touch(At(s, th, Idle), s1, t, x);
        KeepMaybeDestroy(s1, th, t);
        assert s1.pcs[th := Destroying(t)] == s.pcs[th := Destroying(t)];
        assert s1.pcs[th := Idle] == s.pcs[th := Idle];
        assert MaybeDestroy(s1, th, t) == DoRollback(s, th);
      }
    }
  }

  lemma ObjectFacts(s: State, t: Tid)
    requires Inv(s) && t in s.tctxs && s.tctxs[t].objs != []
    ensures Cached(s.gctxs, s.tctxs, s.bt2tctx, t) && Linked(s.gctxs, s.tctxs, t)
    ensures CntsInv(s.accum, s.tctxs[t])
    ensures !s.tctxs[t].state.Initializing? && !s.tctxs[t].state.Purgatory?
    ensures forall th :: th in s.pcs && s.pcs[th] == Prepared(t) ==> s.tctxs[t].prepared
  {
  }

  lemma KeepFreeObject(s: State, th: Thr, t: Tid, i: nat)
    requires Inv(s)
    ensures Inv(DoFreeObject(s, th, t, i))
  {
    hide Inv;
    if PcOf(s, th).Idle? && t in s.tctxs && i < |s.tctxs[t].objs|
       && !TdataLocked(s, s.tctxs[t].owner) {
      var x := s.tctxs[t];
      ObjectFacts(s, t);
      TotalRemove(x.objs, i);
      var c := x.cnts.(curobjs := x.cnts.curobjs - 1, curbytes := x.cnts.curbytes - x.objs[i]);
      var x' := x.(cnts := c, objs := x.objs[..i] + x.objs[i + 1..]);
      var s1 := s.(tctxs := s.tctxs[t := x']);
      Touch(s, s1, t, x');
      KeepMaybeDestroy(s1, th, t);
    }
  }

  // ---- unlinking a tctx

  /** A nominal tctx leaves its gctx, whose limbo count may go from zero to one. */
  ghost predicate Unlinks(s: State, s': State, th: Thr, t: Tid, g: Gid, pc: Pc, up: nat) {
    && PcOf(s, th) == Destroying(t) && t in s.tctxs && s.tctxs[t].gctx == g && g in s.gctxs
    && s.tctxs[t].state.Nominal?
    && s' == s.(gctxs := s.gctxs[g := s.gctxs[g].(linked := s.gctxs[g].linked - {t},
                                                  nlimbo := s.gctxs[g].nlimbo + up)],
                pcs := s.pcs[th := pc])
    && ((pc == FreeingTctx(t) && up == 0) || (pc == WantDestroy(g, Some(t)) && up == 1))
    && (pc.FreeingTctx? ==> !GctxShouldDestroy(s.accum, s'.gctxs[g]))
  }

  lemma UnlinkSame(s: State, s': State, th: Thr, t: Tid, g: Gid, pc: Pc, up: nat, u: Tid)
    requires Unlinks(s, s', th, t, g, pc, up)
    ensures Cached(s'.gctxs, s'.tctxs, s'.bt2tctx, u) <==> Cached(s.gctxs, s.tctxs, s.bt2tctx, u)
    ensures Linked(s'.gctxs, s'.tctxs, u) <==> Linked(s.gctxs, s.tctxs, u) && u != t
  {
  }

  lemma UnlinkTctxs(s: State, s': State, th: Thr, t: Tid, g: Gid, pc: Pc, up: nat)
    requires Unlinks(s, s', th, t, g, pc, up) && !Cached(s.gctxs, s.tctxs, s.bt2tctx, t)
    requires Tables(s)
    ensures TctxInv(s'.accum, s'.gctxs, s'.tctxs, s'.bt2tctx, s'.nextT)
  {
    hide RegInv, LinkInv, CacheInv, CntsInv;
  }

  lemma UnlinkTables(s: State, s': State, th: Thr, t: Tid, g: Gid, pc: Pc, up: nat)
    requires Unlinks(s, s', th, t, g, pc, up) && Registered(s.gctxs, s.bt2gctx, g)
    requires OrphanInv(s.gctxs, s.accum)
    requires s.gctxs[g].nlimbo >= 0
    requires Tables(s)
    ensures RegInv(s'.gctxs, s'.bt2gctx, s'.nextG) && OrphanInv(s'.gctxs, s'.accum)
    ensures LinkInv(s'.gctxs, s'.tctxs) && CacheInv(s'.gctxs, s'.tctxs, s'.bt2gctx, s'.bt2tctx)
  {
  }

  lemma UnlinkThreads(s: State, s': State, th: Thr, t: Tid, g: Gid, pc: Pc, up: nat)
    requires Unlinks(s, s', th, t, g, pc, up) && Registered(s.gctxs, s.bt2gctx, g)
    requires !Cached(s.gctxs, s.tctxs, s.bt2tctx, t)
    requires Threads(s)
    ensures Threads(s')
  {
    forall u | u in s'.pcs
      ensures PcInv(s'.gctxs, s'.tctxs, s'.bt2gctx, s'.bt2tctx, u, s'.pcs[u])
    {
      if u != th {
        assert PcInv(s.gctxs, s.tctxs, s.bt2gctx, s.bt2tctx, u, s.pcs[u]);
        assert Doomed(s.pcs[u]) != Doomed(s.pcs[th]);
      }
    }
    forall u | u in s'.pcs && Doomed(s'.pcs[u]).Some?
      ensures DoomedOk(s'.accum, s'.gctxs, s'.tctxs, s'.bt2tctx, s'.pcs[u], Doomed(s'.pcs[u]).value)
    {
      UnlinkSame(s, s', th, t, g, pc, up, Doomed(s'.pcs[u]).value);
    }
  }

  lemma UnlinkDump(s: State, s': State, th: Thr, t: Tid, g: Gid, pc: Pc, up: nat)
    requires Unlinks(s, s', th, t, g, pc, up)
    requires Dumps(s)
    ensures Dumps(s')
  {
    SameCaptures(s, s');
  }

  lemma UnlinkLimbo(s: State, s': State, th: Thr, t: Tid, g: Gid, pc: Pc, up: nat)
    requires Unlinks(s, s', th, t, g, pc, up) && LimboInv(s.gctxs, s.pcs, ListOf(s.dump))
    ensures LimboInv(s'.gctxs, s'.pcs, ListOf(s'.dump))
  {
    forall h | h in s'.gctxs
      ensures |Holders(s'.pcs, h)| == |Holders(s.pcs, h)| + (if h == g then up else 0)
    {
      HoldersMove(s.pcs, th, pc, h);
    }
  }

  lemma UnlinkFacts(s: State, th: Thr)
    requires Inv(s) && PcOf(s, th).Destroying?
    ensures var t := PcOf(s, th).t;
            && Linked(s.gctxs, s.tctxs, t) && !Cached(s.gctxs, s.tctxs, s.bt2tctx, t)
            && (s.tctxs[t].state.Nominal? || s.tctxs[t].state.Dumping?)
            && Registered(s.gctxs, s.bt2gctx, s.tctxs[t].gctx)
            && s.gctxs[s.tctxs[t].gctx].nlimbo >= 0
  {
  }

  lemma KeepUnlinkNominal(s: State, s': State, th: Thr, t: Tid, g: Gid, pc: Pc, up: nat)
    requires Inv(s) && Unlinks(s, s', th, t, g, pc, up)
    ensures Inv(s')
  {
    hide SumInv, ScanInv, DumpListInv, InitializingInv, CacheInv, LinkInv, TctxInv, TctxOk, DoomedOnce, DoomedInv,
         DoomedOk, ThreadInv, PcInv, OrphanInv, LimboInv, RegInv;
    UnlinkFacts(s, th);
    UnlinkTctxs(s, s', th, t, g, pc, up);
    UnlinkTables(s, s', th, t, g, pc, up);
    UnlinkThreads(s, s', th, t, g, pc, up);
    UnlinkDump(s, s', th, t, g, pc, up);
    UnlinkLimbo(s, s', th, t, g, pc, up);
  }

  /** A captured tctx is left to the dump. */
  ghost predicate Retires(s: State, s': State, th: Thr, t: Tid) {
    && PcOf(s, th) == Destroying(t) && t in s.tctxs && s.tctxs[t].state.Dumping?
    && s' == s.(tctxs := s.tctxs[t := s.tctxs[t].(state := Purgatory)], pcs := s.pcs[th := Checking(t)])
  }

  lemma RetireSame(s: State, s': State, th: Thr, t: Tid, u: Tid)
    requires Retires(s, s', th, t)
    ensures Cached(s'.gctxs, s'.tctxs, s'.bt2tctx, u) <==> Cached(s.gctxs, s.tctxs, s.bt2tctx, u)
    ensures Linked(s'.gctxs, s'.tctxs, u) <==> Linked(s.gctxs, s.tctxs, u)
  {
  }

  lemma RetireTables(s: State, s': State, th: Thr, t: Tid)
    requires Retires(s, s', th, t)
    requires LinkInv(s.gctxs, s.tctxs) && CacheInv(s.gctxs, s.tctxs, s.bt2gctx, s.bt2tctx)
    ensures LinkInv(s'.gctxs, s'.tctxs) && CacheInv(s'.gctxs, s'.tctxs, s'.bt2gctx, s'.bt2tctx)
  {
  }

  lemma RetireTctxs(s: State, s': State, th: Thr, t: Tid)
    requires Retires(s, s', th, t) && !Cached(s.gctxs, s.tctxs, s.bt2tctx, t)
    requires TctxInv(s.accum, s.gctxs, s.tctxs, s.bt2tctx, s.nextT)
    ensures TctxInv(s'.accum, s'.gctxs, s'.tctxs, s'.bt2tctx, s'.nextT)
  {
    forall u | u in s'.tctxs
      ensures u < s'.nextT && TctxOk(s'.accum, s'.gctxs, s'.tctxs, s'.bt2tctx, u)
    {
      assert TctxOk(s.accum, s.gctxs, s.tctxs, s.bt2tctx, u);
      RetireSame(s, s', th, t, u);
    }
  }

  lemma RetirePcs(s: State, s': State, th: Thr, t: Tid)
    requires Retires(s, s', th, t) && !Cached(s.gctxs, s.tctxs, s.bt2tctx, t)
    requires ThreadInv(s.gctxs, s.tctxs, s.bt2gctx, s.bt2tctx, s.pcs) && DoomedOnce(s.pcs)
    ensures ThreadInv(s'.gctxs, s'.tctxs, s'.bt2gctx, s'.bt2tctx, s'.pcs)
  {
  }

  lemma RetireThreads(s: State, s': State, th: Thr, t: Tid)
    requires Retires(s, s', th, t) && !Cached(s.gctxs, s.tctxs, s.bt2tctx, t)
    requires Threads(s)
    ensures Threads(s')
  {
    hide ThreadInv, PcInv;
    RetirePcs(s, s', th, t);
  }

  lemma RetireDump(s: State, s': State, th: Thr, t: Tid)
    requires Retires(s, s', th, t)
    requires Dumps(s)
    ensures Dumps(s')
  {
    forall g | g in s.gctxs
      ensures CapturedOf(s'.gctxs, s'.tctxs, g) == CapturedOf(s.gctxs, s.tctxs, g)
    {
    }
    SameCaptures(s, s');
  }

  lemma KeepRetire(s: State, s': State, th: Thr, t: Tid)
    requires Inv(s) && Retires(s, s', th, t)
    ensures Inv(s')
  {
    hide SumInv, ScanInv, DumpListInv, InitializingInv, CacheInv, LinkInv, TctxInv, TctxOk, DoomedOnce, DoomedInv,
         DoomedOk, ThreadInv, PcInv, OrphanInv, LimboInv, RegInv;
    UnlinkFacts(s, th);
    RetireTables(s, s', th, t);
    RetireTctxs(s, s', th, t);
    RetireThreads(s, s', th, t);
    RetireDump(s, s', th, t);
    LimboSame(s.gctxs, s.pcs, ListOf(s.dump), th, Checking(t));
  }

  lemma KeepUnlink(s: State, th: Thr)
    requires Inv(s)
    ensures Inv(DoUnlink(s, th))
  {
    hide Inv;
    if PcOf(s, th).Destroying? {
      var t := PcOf(s, th).t;
      UnlinkFacts(s, th);
      var s' := DoUnlink(s, th);
      if s.tctxs[t].state.Nominal? {
        var pc := PcOf(s', th);
        KeepUnlinkNominal(s, s', th, t, s.tctxs[t].gctx, pc, if pc.WantDestroy? then 1 else 0);
      } else {
        KeepRetire(s, s', th, t);
      }
    }
  }

  lemma KeepCheck(s: State, th: Thr)
    requires Inv(s)
    ensures Inv(DoCheck(s, th))
  {
    hide SumInv, ScanInv, DumpListInv, InitializingInv, CacheInv, LinkInv, TctxInv, TctxOk, DoomedOnce, DoomedInv,
         DoomedOk, ThreadInv, OrphanInv, LimboInv, RegInv;
    if PcOf(s, th).Checking? {
      MovePc(s, At(s, th, Idle), th, Idle);
    }
  }

  // ---- destroying a gctx

  lemma KeepEnterDestroy(s: State, th: Thr)
    requires Inv(s)
    ensures Inv(DoEnterDestroy(s, th))
  {
    hide SumInv, ScanInv, DumpListInv, InitializingInv, CacheInv, LinkInv, TctxInv, TctxOk, DoomedOnce, DoomedInv,
         DoomedOk, OrphanInv, LimboInv, RegInv;
    if PcOf(s, th).WantDestroy? && s.mtx.Free? {
      var WantDestroy(g, fin) := PcOf(s, th);
      MovePc(s, DoEnterDestroy(s, th), th, InDestroy(g, fin));
    }
  }

  /** The last holder takes an empty gctx out of the global table. */
  ghost predicate Retracts(s: State, s': State, th: Thr, g: Gid, fin: Option<Tid>) {
    && PcOf(s, th) == InDestroy(g, fin) && Registered(s.gctxs, s.bt2gctx, g)
    && s.gctxs[g].linked == {} && s.gctxs[g].nlimbo == 1
    && s' == s.(bt2gctx := s.bt2gctx - {s.gctxs[g].bt}, mtx := Free,
                pcs := s.pcs[th := Freeing(g, fin)])
  }

  lemma RetractThreads(s: State, s': State, th: Thr, g: Gid, fin: Option<Tid>)
    requires Retracts(s, s', th, g, fin) && Holders(s.pcs, g) == {th}
    requires MtxInv(s.mtx, s.pcs, s.dump)
    requires Tables(s) && Threads(s)
    ensures ThreadInv(s'.gctxs, s'.tctxs, s'.bt2gctx, s'.bt2tctx, s'.pcs)
  {
    forall u | u in s'.pcs
      ensures PcInv(s'.gctxs, s'.tctxs, s'.bt2gctx, s'.bt2tctx, u, s'.pcs[u])
    {
      if u != th {
        assert PcInv(s.gctxs, s.tctxs, s.bt2gctx, s.bt2tctx, u, s.pcs[u]);
        assert u !in Holders(s.pcs, g) && !HoldsMtx(s.pcs[u]);
      }
    }
  }

  /** The thread that still links a tctx holds a count on its gctx. */
  lemma InitializingHolds(s: State, t: Tid)
    requires Threads(s) && t in s.tctxs && s.tctxs[t].state.Initializing?
    ensures var u := s.tctxs[t].owner;
            u in s.pcs && s.pcs[u].Inserted? && u in Holders(s.pcs, s.tctxs[t].gctx)
  {
    var u := s.tctxs[t].owner;
    assert PcInv(s.gctxs, s.tctxs, s.bt2gctx, s.bt2tctx, u, s.pcs[u]);
  }

  /** No table leads to the gctx that is going away. */
  lemma RetractTables(s: State, s': State, th: Thr, g: Gid, fin: Option<Tid>)
    requires Retracts(s, s', th, g, fin) && Holders(s.pcs, g) == {th}
    requires Tables(s) && Threads(s)
    ensures CacheInv(s'.gctxs, s'.tctxs, s'.bt2gctx, s'.bt2tctx)
  {
    forall k | k in s.bt2tctx ensures s.tctxs[s.bt2tctx[k]].gctx != g {
      var t := s.bt2tctx[k];
      assert TctxOk(s.accum, s.gctxs, s.tctxs, s.bt2tctx, t);
      if s.tctxs[t].state.Initializing? {
        InitializingHolds(s, t);
      }
    }
  }

  lemma RetractRegistry(s: State, s': State, th: Thr, g: Gid, fin: Option<Tid>)
    requires Retracts(s, s', th, g, fin) && s.gctxs[g].leaked == 0
    requires RegInv(s.gctxs, s.bt2gctx, s.nextG)
    ensures RegInv(s'.gctxs, s'.bt2gctx, s'.nextG)
  {
  }

  lemma RetractDump(s: State, s': State, th: Thr, g: Gid, fin: Option<Tid>)
    requires Retracts(s, s', th, g, fin) && g !in ListOf(s.dump)
    requires MtxInv(s.mtx, s.pcs, s.dump)
    requires Tables(s) && Dumps(s)
    ensures DumpListInv(s'.gctxs, s'.tctxs, s'.bt2gctx, s'.dump)
  {
  }

  lemma KeepRetract(s: State, s': State, th: Thr, g: Gid, fin: Option<Tid>)
    requires Inv(s) && Retracts(s, s', th, g, fin)
    ensures Inv(s')
  {
    hide SumInv, ScanInv, DumpListInv, InitializingInv, CacheInv, LinkInv, TctxInv, TctxOk, DoomedOnce,
         ThreadInv, PcInv, OrphanInv, LimboInv, RegInv;
    HolderCounts(s.gctxs, s.pcs, ListOf(s.dump), th, g);
    RetractThreads(s, s', th, g, fin);
    RetractTables(s, s', th, g, fin);
    RetractRegistry(s, s', th, g, fin);
    RetractDump(s, s', th, g, fin);
    LimboSame(s.gctxs, s.pcs, ListOf(s.dump), th, Freeing(g, fin));
    PcsRest(s.tctxs, s.pcs, th, Freeing(g, fin));
  }

  lemma InDestroyFacts(s: State, th: Thr)
    requires Inv(s) && PcOf(s, th).InDestroy?
    ensures Registered(s.gctxs, s.bt2gctx, PcOf(s, th).g)
    ensures s.gctxs[PcOf(s, th).g].nlimbo >= 1
    ensures MtxInv(s.mtx, s.pcs[th := LeaveMtx(PcOf(s, th).fin)], s.dump)
  {
    assert PcInv(s.gctxs, s.tctxs, s.bt2gctx, s.bt2tctx, th, s.pcs[th]);
    HolderCounts(s.gctxs, s.pcs, ListOf(s.dump), th, PcOf(s, th).g);
  }

  lemma KeepTryDestroy(s: State, th: Thr)
    requires Inv(s)
    ensures Inv(DoTryDestroy(s, th))
  {
    hide Inv;
    if PcOf(s, th).InDestroy? {
      var InDestroy(g, fin) := PcOf(s, th);
      InDestroyFacts(s, th);
      var x := s.gctxs[g];
      if x.linked == {} && x.nlimbo == 1 {
        KeepRetract(s, DoTryDestroy(s, th), th, g, fin);
      } else {
        MoveCount(s, DoTryDestroy(s, th), th, LeaveMtx(fin), g, x.(nlimbo := x.nlimbo - 1));
      }
    }
  }

  /** The memory of a gctx that is out of the global table goes. */
  ghost predicate Frees(s: State, s': State, th: Thr, g: Gid, fin: Option<Tid>) {
    && PcOf(s, th) == Freeing(g, fin) && g in s.gctxs && !Registered(s.gctxs, s.bt2gctx, g)
    && Holders(s.pcs, g) == {th} && g !in ListOf(s.dump) && s.gctxs[g].linked == {}
    && s' == s.(gctxs := s.gctxs - {g}, pcs := s.pcs[th := Done(fin)])
  }

  lemma FreeTables(s: State, s': State, th: Thr, g: Gid, fin: Option<Tid>)
    requires Frees(s, s', th, g, fin)
    requires Tables(s)
    ensures Tables(s')
  {
    forall u | u in s'.tctxs
      ensures u < s'.nextT && TctxOk(s'.accum, s'.gctxs, s'.tctxs, s'.bt2tctx, u)
    {
      assert TctxOk(s.accum, s.gctxs, s.tctxs, s.bt2tctx, u);
      FreeSame(s, s', th, g, fin, u);
    }
  }

  lemma FreeSame(s: State, s': State, th: Thr, g: Gid, fin: Option<Tid>, u: Tid)
    requires Frees(s, s', th, g, fin)
    requires Tables(s)
    ensures Cached(s'.gctxs, s'.tctxs, s'.bt2tctx, u) <==> Cached(s.gctxs, s.tctxs, s.bt2tctx, u)
    ensures Linked(s'.gctxs, s'.tctxs, u) <==> Linked(s.gctxs, s.tctxs, u)
  {
  }

  lemma FreeThreads(s: State, s': State, th: Thr, g: Gid, fin: Option<Tid>)
    requires Frees(s, s', th, g, fin)
    requires Tables(s) && Threads(s)
    ensures ThreadInv(s'.gctxs, s'.tctxs, s'.bt2gctx, s'.bt2tctx, s'.pcs)
    ensures DoomedInv(s'.accum, s'.gctxs, s'.tctxs, s'.bt2tctx, s'.pcs)
  {
    hide SumInv, ScanInv, DumpListInv, InitializingInv, CacheInv, LinkInv, TctxInv, TctxOk, DoomedOnce,
         OrphanInv, LimboInv, RegInv, MtxInv;
    forall u | u in s'.pcs
      ensures PcInv(s'.gctxs, s'.tctxs, s'.bt2gctx, s'.bt2tctx, u, s'.pcs[u])
    {
      if u != th {
        assert PcInv(s.gctxs, s.tctxs, s.bt2gctx, s.bt2tctx, u, s.pcs[u]);
        assert u !in Holders(s.pcs, g);
      }
    }
    forall u | u in s'.pcs && Doomed(s'.pcs[u]).Some?
      ensures DoomedOk(s'.accum, s'.gctxs, s'.tctxs, s'.bt2tctx, s'.pcs[u], Doomed(s'.pcs[u]).value)
    {
      FreeSame(s, s', th, g, fin, Doomed(s'.pcs[u]).value);
    }
  }

  lemma FreeDump(s: State, s': State, th: Thr, g: Gid, fin: Option<Tid>)
    requires Frees(s, s', th, g, fin)
    requires Tables(s) && Dumps(s)
    ensures Dumps(s')
  {
    hide InitializingInv, LinkInv, TctxInv, TctxOk, DoomedOnce, DoomedInv, DoomedOk, ThreadInv, PcInv,
         OrphanInv, LimboInv, RegInv, MtxInv;
  }

  lemma FreeLocks(s: State, s': State, th: Thr, g: Gid, fin: Option<Tid>)
    requires Frees(s, s', th, g, fin)
    requires Locks(s)
    ensures Locks(s')
  {
    forall h | h in s'.gctxs ensures |Holders(s'.pcs, h)| == |Holders(s.pcs, h)| {
      HoldersMove(s.pcs, th, Done(fin), h);
    }
  }

  lemma FreeingFacts(s: State, th: Thr)
    requires Inv(s) && PcOf(s, th).Freeing?
    ensures var g := PcOf(s, th).g;
            && g in s.gctxs && !Registered(s.gctxs, s.bt2gctx, g) && Holders(s.pcs, g) == {th}
            && g !in ListOf(s.dump) && s.gctxs[g].linked == {} && s.gctxs[g].leaked == 0
  {
    assert PcInv(s.gctxs, s.tctxs, s.bt2gctx, s.bt2tctx, th, s.pcs[th]);
    HolderCounts(s.gctxs, s.pcs, ListOf(s.dump), th, PcOf(s, th).g);
  }

  lemma KeepFreeGctxStep(s: State, s': State, th: Thr, g: Gid, fin: Option<Tid>)
    requires Inv(s) && Frees(s, s', th, g, fin)
    ensures Inv(s')
  {
    hide Locks, Tables, Dumps;
    FreeTables(s, s', th, g, fin);
    FreeThreads(s, s', th, g, fin);
    FreeDump(s, s', th, g, fin);
    FreeLocks(s, s', th, g, fin);
    PcsRest(s.tctxs, s.pcs, th, Done(fin));
  }

  lemma KeepFreeGctx(s: State, th: Thr)
    requires Inv(s)
    ensures Inv(DoFreeGctx(s, th))
  {
    hide Inv;
    if PcOf(s, th).Freeing? {
      FreeingFacts(s, th);
      KeepFreeGctxStep(s, DoFreeGctx(s, th), th, PcOf(s, th).g, PcOf(s, th).fin);
    }
  }

  /** The memory of a tctx that nothing leads to goes. */
  ghost predicate Drops(s: State, s': State, th: Thr, t: Tid) {
    && PcOf(s, th) == FreeingTctx(t) && t in s.tctxs
    && DoomedOk(s.accum, s.gctxs, s.tctxs, s.bt2tctx, FreeingTctx(t), t)
    && s' == s.(tctxs := s.tctxs - {t}, pcs := s.pcs[th := Idle])
  }

  lemma DropTables(s: State, s': State, th: Thr, t: Tid)
    requires Drops(s, s', th, t)
    requires Tables(s)
    ensures TctxInv(s'.accum, s'.gctxs, s'.tctxs, s'.bt2tctx, s'.nextT)
    ensures LinkInv(s'.gctxs, s'.tctxs) && CacheInv(s'.gctxs, s'.tctxs, s'.bt2gctx, s'.bt2tctx)
  {
    hide TctxInv;
    DropTctxs(s, s', th, t);
  }

  lemma DropTctxs(s: State, s': State, th: Thr, t: Tid)
    requires Drops(s, s', th, t)
    requires TctxInv(s.accum, s.gctxs, s.tctxs, s.bt2tctx, s.nextT)
    ensures TctxInv(s'.accum, s'.gctxs, s'.tctxs, s'.bt2tctx, s'.nextT)
  {
    forall u | u in s'.tctxs
      ensures u < s'.nextT && TctxOk(s'.accum, s'.gctxs, s'.tctxs, s'.bt2tctx, u)
    {
      assert TctxOk(s.accum, s.gctxs, s.tctxs, s.bt2tctx, u);
    }
  }

  lemma DropSame(s: State, s': State, th: Thr, t: Tid, u: Tid)
    requires Drops(s, s', th, t) && u != t
    ensures Cached(s'.gctxs, s'.tctxs, s'.bt2tctx, u) <==> Cached(s.gctxs, s.tctxs, s.bt2tctx, u)
    ensures Linked(s'.gctxs, s'.tctxs, u) <==> Linked(s.gctxs, s.tctxs, u)
  {
  }

  lemma DropThreads(s: State, s': State, th: Thr, t: Tid)
    requires Drops(s, s', th, t)
    requires Threads(s)
    ensures Threads(s')
  {
    forall u | u in s'.pcs
      ensures PcInv(s'.gctxs, s'.tctxs, s'.bt2gctx, s'.bt2tctx, u, s'.pcs[u])
    {
      if u != th {
        assert PcInv(s.gctxs, s.tctxs, s.bt2gctx, s.bt2tctx, u, s.pcs[u]);
        assert Doomed(s.pcs[u]) != Doomed(s.pcs[th]);
      }
    }
    forall u | u in s'.pcs && Doomed(s'.pcs[u]).Some?
      ensures DoomedOk(s'.accum, s'.gctxs, s'.tctxs, s'.bt2tctx, s'.pcs[u], Doomed(s'.pcs[u]).value)
    {
      assert Doomed(s.pcs[u]) != Doomed(s.pcs[th]);
      DropSame(s, s', th, t, Doomed(s'.pcs[u]).value);
    }
  }

  lemma DropDump(s: State, s': State, th: Thr, t: Tid)
    requires Drops(s, s', th, t)
    requires Dumps(s)
    ensures Dumps(s')
  {
    SameCaptures(s, s');
  }

  lemma DropFacts(s: State, th: Thr)
    requires Inv(s) && PcOf(s, th).FreeingTctx?
    ensures var t := PcOf(s, th).t;
            t in s.tctxs && DoomedOk(s.accum, s.gctxs, s.tctxs, s.bt2tctx, FreeingTctx(t), t)
  {
    hide Locks, Tables, Dumps, ThreadInv, DoomedOnce, InitializingInv;
    assert Doomed(s.pcs[th]).Some?;
  }

  lemma KeepDrop(s: State, s': State, th: Thr, t: Tid)
    requires Inv(s) && Drops(s, s', th, t)
    ensures Inv(s')
  {
    hide SumInv, ScanInv, DumpListInv, InitializingInv, CacheInv, LinkInv, TctxInv, TctxOk, DoomedOnce, DoomedInv,
         DoomedOk, ThreadInv, PcInv, OrphanInv, LimboInv, RegInv;
    DropTables(s, s', th, t);
    DropThreads(s, s', th, t);
    DropDump(s, s', th, t);
    LimboSame(s.gctxs, s.pcs, ListOf(s.dump), th, Idle);
  }

  lemma KeepFreeTctx(s: State, th: Thr)
    requires Inv(s)
    ensures Inv(DoFreeTctx(s, th))
  {
    hide Inv;
    if PcOf(s, th).FreeingTctx? {
      DropFacts(s, th);
      KeepDrop(s, DoFreeTctx(s, th), th, PcOf(s, th).t);
    }
  }

  // ---- dumping

  /** A phase change that touches nothing but the dump itself and the big lock. */
  lemma Rephase(s: State, s': State)
    requires Inv(s) && s' == s.(mtx := s'.mtx, dump := s'.dump) && ListOf(s'.dump) == ListOf(s.dump)
    requires MtxInv(s'.mtx, s'.pcs, s'.dump) && Dumps(s')
    ensures Inv(s')
  {
    hide SumInv, ScanInv, DumpListInv, InitializingInv, CacheInv, LinkInv, TctxInv, TctxOk, DoomedOnce,
         DoomedInv, DoomedOk, ThreadInv, PcInv, OrphanInv, LimboInv, RegInv, MtxInv;
  }

  lemma NothingCaptured(ts: Tctxs)
    requires forall t :: t in ts ==> !IsCaptured(ts[t])
    ensures Captured(ts) == {} && Sum(Captured(ts), DumpCnts(ts)) == ZERO
  {
  }

  lemma KeepDumpBegin(s: State, th: Thr)
    requires Inv(s)
    ensures Inv(DoDumpBegin(s, th))
  {
    hide InitializingInv, CacheInv, LinkInv, TctxInv, TctxOk, DoomedOnce, DoomedInv, DoomedOk, ThreadInv,
         PcInv, OrphanInv, LimboInv, RegInv;
  }

  lemma PrepLimbo(s: State, s': State, g: Gid, y: Gctx)
    requires LimboInv(s.gctxs, s.pcs, ListOf(s.dump)) && g in s.gctxs
    requires s'.gctxs == s.gctxs[g := y] && s'.pcs == s.pcs
    requires y.nlimbo == s.gctxs[g].nlimbo + 1 && y.leaked == s.gctxs[g].leaked
    requires g !in ListOf(s.dump) && ListOf(s'.dump) == ListOf(s.dump) + {g}
    ensures LimboInv(s'.gctxs, s'.pcs, ListOf(s'.dump))
  {
  }

  lemma PrepFacts(s: State, g: Gid)
    requires Inv(s) && s.dump.Dump? && s.dump.phase.Prep? && g in s.dump.phase.todo
    ensures Registered(s.gctxs, s.bt2gctx, g) && g !in s.dump.list
    ensures s.gctxs[g].nlimbo >= 0
  {
  }

  lemma KeepDumpPrep(s: State, g: Gid)
    requires Inv(s)
    ensures Inv(DoDumpPrep(s, g))
  {
    hide InitializingInv, CacheInv, LinkInv, TctxInv, TctxOk, DoomedOnce, DoomedInv, DoomedOk, ThreadInv,
         PcInv, LimboInv, RegInv;
    if s.dump.Dump? && s.dump.phase.Prep? && g in s.dump.phase.todo {
      PrepFacts(s, g);
      var s' := DoDumpPrep(s, g);
      var s1 := s.(gctxs := s'.gctxs);
      RecountTables(s, s1, g, s'.gctxs[g]);
      PrepThreads(s, s1, g, s'.gctxs[g]);
      PrepLimbo(s, s', g, s'.gctxs[g]);
      NothingCaptured(s.tctxs);
    }
  }

  lemma PrepThreads(s: State, s': State, g: Gid, y: Gctx)
    requires s' == s.(gctxs := s'.gctxs)
    requires Recounts(s.gctxs, s'.gctxs, g, y) && Registered(s.gctxs, s.bt2gctx, g)
    requires Threads(s)
    ensures Threads(s')
  {
  }

  lemma KeepDumpPrepDone(s: State, threads: set<Thr>)
    requires Inv(s)
    ensures Inv(DoDumpPrepDone(s, threads))
  {
    hide InitializingInv, CacheInv, LinkInv, TctxInv, TctxOk, DoomedOnce, DoomedInv, DoomedOk, ThreadInv,
         PcInv, OrphanInv, LimboInv, RegInv;
  }

  lemma CacheFacts(s: State, owner: Thr)
    requires CacheInv(s.gctxs, s.tctxs, s.bt2gctx, s.bt2tctx)
    ensures forall k :: k in s.bt2tctx && k.0 == owner ==>
              Cached(s.gctxs, s.tctxs, s.bt2tctx, s.bt2tctx[k]) && s.tctxs[s.bt2tctx[k]].owner == owner
  {
  }

  /** A scan of one tdata starts with all its tctxs still to capture. */
  ghost predicate Opens(s: State, s': State, owner: Thr, rest: set<Tid>) {
    && s.dump.Dump? && s.dump.phase.Scan? && owner in s.dump.phase.threads
    && (forall t :: t in rest ==> Cached(s.gctxs, s.tctxs, s.bt2tctx, t) && s.tctxs[t].owner == owner)
    && s' == s.(dump := s.dump.(phase := ScanTdata(s.dump.phase.threads - {owner}, owner, rest, ZERO)))
  }

  lemma OpenScan(s: State, s': State, owner: Thr, rest: set<Tid>)
    requires Opens(s, s', owner, rest) && Dumps(s) && MtxInv(s.mtx, s.pcs, s.dump)
    ensures Dumps(s') && MtxInv(s'.mtx, s'.pcs, s'.dump) && ListOf(s'.dump) == ListOf(s.dump)
  {
    hide Registered, Captured, Sum, Merged;
    PlusZero(s.dump.cntAll);
  }

  lemma OpenFacts(s: State, owner: Thr)
    requires CacheInv(s.gctxs, s.tctxs, s.bt2gctx, s.bt2tctx)
    requires s.dump.Dump? && s.dump.phase.Scan? && owner in s.dump.phase.threads
    ensures Opens(s, DoDumpLockTdata(s, owner), owner, set k | k in s.bt2tctx && k.0 == owner :: s.bt2tctx[k])
  {
    hide Cached, CacheInv;
    CacheFacts(s, owner);
  }

  lemma KeepDumpLockTdata(s: State, owner: Thr)
    requires Inv(s)
    ensures Inv(DoDumpLockTdata(s, owner))
  {
    hide InitializingInv, CacheInv, LinkInv, TctxInv, TctxOk, DoomedOnce, DoomedInv, DoomedOk, ThreadInv,
         PcInv, OrphanInv, LimboInv, RegInv, MtxInv, DumpListInv, ScanInv, SumInv;
    if s.dump.Dump? && s.dump.phase.Scan? && owner in s.dump.phase.threads {
      var s' := DoDumpLockTdata(s, owner);
      var rest := set k | k in s.bt2tctx && k.0 == owner :: s.bt2tctx[k];
      OpenFacts(s, owner);
      OpenScan(s, s', owner, rest);
      Rephase(s, s');
    }
  }

  lemma KeepDumpSkipTdata(s: State, owner: Thr)
    requires Inv(s)
    ensures Inv(DoDumpSkipTdata(s, owner))
  {
    hide InitializingInv, CacheInv, LinkInv, TctxInv, TctxOk, DoomedOnce, DoomedInv, DoomedOk, ThreadInv,
         PcInv, OrphanInv, LimboInv, RegInv;
  }

  /** The snapshot of one nominal tctx is taken. */
  ghost predicate Captures(s: State, s': State, t: Tid) {
    && s.dump.Dump? && s.dump.phase.ScanTdata? && t in s.dump.phase.rest
    && t in s.tctxs && s.tctxs[t].state.Nominal?
    && Cached(s.gctxs, s.tctxs, s.bt2tctx, t) && Linked(s.gctxs, s.tctxs, t)
    && Sane(s.tctxs[t].cnts, s.accum)
    && s' == s.(tctxs := s.tctxs[t := s.tctxs[t].(state := Dumping, dumpCnts := s.tctxs[t].cnts)],
                dump := s.dump.(phase := s.dump.phase.(rest := s.dump.phase.rest - {t},
                  cntSummed := AddTo(s.dump.phase.cntSummed, s.tctxs[t].cnts, s.accum))))
  }

  lemma CaptureTctxs(s: State, s': State, t: Tid)
    requires Captures(s, s', t)
    requires TctxInv(s.accum, s.gctxs, s.tctxs, s.bt2tctx, s.nextT)
    ensures TctxInv(s'.accum, s'.gctxs, s'.tctxs, s'.bt2tctx, s'.nextT)
  {
  }

  lemma CaptureTables(s: State, s': State, t: Tid)
    requires Captures(s, s', t)
    requires LinkInv(s.gctxs, s.tctxs) && CacheInv(s.gctxs, s.tctxs, s.bt2gctx, s.bt2tctx)
    ensures LinkInv(s'.gctxs, s'.tctxs) && CacheInv(s'.gctxs, s'.tctxs, s'.bt2gctx, s'.bt2tctx)
  {
  }

  lemma CaptureLists(s: State, s': State, t: Tid)
    requires Captures(s, s', t) && s.tctxs[t].gctx in s.dump.list
    requires DumpListInv(s.gctxs, s.tctxs, s.bt2gctx, s.dump)
    requires ScanInv(s.gctxs, s.tctxs, s.bt2tctx, s.dump)
    ensures DumpListInv(s'.gctxs, s'.tctxs, s'.bt2gctx, s'.dump)
    ensures ScanInv(s'.gctxs, s'.tctxs, s'.bt2tctx, s'.dump)
  {
  }

  lemma CaptureThreads(s: State, s': State, t: Tid)
    requires Captures(s, s', t)
    requires Threads(s)
    ensures Threads(s')
  {
  }

  /** The running totals gain exactly the counters that were snapshotted. */
  lemma CaptureSums(s: State, s': State, t: Tid)
    requires Captures(s, s', t)
    requires SumInv(s.accum, s.gctxs, s.tctxs, s.dump)
    ensures SumInv(s'.accum, s'.gctxs, s'.tctxs, s'.dump)
  {
    hide Sane, AddTo, Plus, Sum;
    var f, f' := DumpCnts(s.tctxs), DumpCnts(s'.tctxs);
    assert Captured(s'.tctxs) == Captured(s.tctxs) + {t};
    AddSane(s.dump.phase.cntSummed, s.tctxs[t].cnts, s.accum);
    SumAdd(Captured(s.tctxs), f', t);
    SumAgree(Captured(s.tctxs), f, f');
    PlusLaws(s.tctxs[t].cnts, s.dump.cntAll, s.dump.phase.cntSummed);
    PlusLaws(s.dump.phase.cntSummed, s.tctxs[t].cnts, ZERO);
  }

  lemma CaptureFacts(s: State, t: Tid)
    requires Inv(s) && s.dump.Dump? && s.dump.phase.ScanTdata? && t in s.dump.phase.rest
    ensures Cached(s.gctxs, s.tctxs, s.bt2tctx, t) && Sane(s.tctxs[t].cnts, s.accum)
    ensures s.tctxs[t].gctx in s.dump.list
    ensures s.tctxs[t].state.Initializing? || (s.tctxs[t].state.Nominal? && Linked(s.gctxs, s.tctxs, t))
  {
  }

  lemma KeepCapture(s: State, s': State, t: Tid)
    requires Inv(s) && Captures(s, s', t) && s.tctxs[t].gctx in s.dump.list
    ensures Inv(s')
  {
    hide SumInv, ScanInv, DumpListInv, InitializingInv, CacheInv, LinkInv, TctxInv, TctxOk, DoomedOnce, DoomedInv,
         DoomedOk, ThreadInv, PcInv, OrphanInv, LimboInv, RegInv;
    CaptureTctxs(s, s', t);
    CaptureTables(s, s', t);
    CaptureThreads(s, s', t);
    CaptureLists(s, s', t);
    CaptureSums(s, s', t);
  }

  lemma KeepPass(s: State, t: Tid)
    requires Inv(s) && s.dump.Dump? && s.dump.phase.ScanTdata? && t in s.dump.phase.rest
    ensures Inv(InPhase(s, s.dump.phase.(rest := s.dump.phase.rest - {t})))
  {
  }

  lemma KeepDumpTctx(s: State, t: Tid)
    requires Inv(s)
    ensures Inv(DoDumpTctx(s, t))
  {
    hide Inv;
    if s.dump.Dump? && s.dump.phase.ScanTdata? && t in s.dump.phase.rest {
      CaptureFacts(s, t);
      if s.tctxs[t].state.Initializing? {
        KeepPass(s, t);
      } else {
        KeepCapture(s, DoDumpTctx(s, t), t);
      }
    }
  }

  /** The scan of one tdata is over, and its sum joins the total. */
  ghost predicate Closes(s: State, s': State) {
    && s.dump.Dump? && s.dump.phase.ScanTdata? && s.dump.phase.rest == {}
    && s' == s.(dump := s.dump.(phase := Scan(s.dump.phase.threads),
                                cntAll := AddTo(s.dump.cntAll, s.dump.phase.cntSummed, s.accum)))
  }

  lemma CloseScan(s: State, s': State)
    requires Closes(s, s') && MtxInv(s.mtx, s.pcs, s.dump)
    requires DumpListInv(s.gctxs, s.tctxs, s.bt2gctx, s.dump) && ScanInv(s.gctxs, s.tctxs, s.bt2tctx, s.dump)
    ensures DumpListInv(s'.gctxs, s'.tctxs, s'.bt2gctx, s'.dump)
    ensures ScanInv(s'.gctxs, s'.tctxs, s'.bt2tctx, s'.dump) && MtxInv(s'.mtx, s'.pcs, s'.dump)
    ensures ListOf(s'.dump) == ListOf(s.dump)
  {
    hide Cached, Registered, AddTo;
  }

  lemma CloseSums(s: State, s': State)
    requires Closes(s, s') && SumInv(s.accum, s.gctxs, s.tctxs, s.dump) && Sane(s.dump.phase.cntSummed, s.accum)
    ensures SumInv(s'.accum, s'.gctxs, s'.tctxs, s'.dump)
  {
    hide Captured, Sum, Unmerged, Merged, Sane;
    AddSaneTo(s.dump.cntAll, s.dump.phase.cntSummed, s.accum);
  }

  lemma CloseSane(s: State)
    requires s.dump.Dump? && s.dump.phase.ScanTdata? && SumInv(s.accum, s.gctxs, s.tctxs, s.dump)
    ensures Sane(s.dump.phase.cntSummed, s.accum)
  {
  }

  lemma KeepDumpUnlockTdata(s: State)
    requires Inv(s)
    ensures Inv(DoDumpUnlockTdata(s))
  {
    hide InitializingInv, CacheInv, LinkInv, TctxInv, TctxOk, DoomedOnce, DoomedInv, DoomedOk, ThreadInv,
         PcInv, OrphanInv, LimboInv, RegInv, MtxInv, DumpListInv, ScanInv, SumInv, Sane;
    if s.dump.Dump? && s.dump.phase.ScanTdata? && s.dump.phase.rest == {} {
      var s' := DoDumpUnlockTdata(s);
      CloseScan(s, s');
      CloseSane(s);
      CloseSums(s, s');
      Rephase(s, s');
    }
  }

  lemma KeepDumpScanDone(s: State)
    requires Inv(s)
    ensures Inv(DoDumpScanDone(s))
  {
    hide InitializingInv, CacheInv, LinkInv, TctxInv, TctxOk, DoomedOnce, DoomedInv, DoomedOk, ThreadInv,
         PcInv, OrphanInv, LimboInv, RegInv;
  }

  /** The tree of `g` is summed into `g`. */
  ghost predicate Sums(s: State, s': State, g: Gid, c: Cnt) {
    && s.dump.Dump? && s.dump.phase.Merge? && g in s.dump.phase.todo && g in s.gctxs
    && s' == s.(gctxs := s.gctxs[g := s.gctxs[g].(cntSummed := c)],
                dump := s.dump.(phase := Merge(s.dump.phase.todo - {g})))
    && c == Sum(CapturedOf(s.gctxs, s.tctxs, g), DumpCnts(s.tctxs))
  }

  lemma MergeSums(s: State, s': State, g: Gid, c: Cnt)
    requires Sums(s, s', g, c) && s.dump.phase.todo <= s.dump.list
    requires SumInv(s.accum, s.gctxs, s.tctxs, s.dump)
    ensures SumInv(s'.accum, s'.gctxs, s'.tctxs, s'.dump)
  {
  }

  lemma MergeFacts(s: State, g: Gid)
    requires Inv(s) && s.dump.Dump? && s.dump.phase.Merge? && g in s.dump.phase.todo
    ensures Registered(s.gctxs, s.bt2gctx, g) && s.gctxs[g].cntSummed == ZERO
    ensures forall t :: t in s.gctxs[g].linked ==> t in s.tctxs && !s.tctxs[t].state.Initializing?
    ensures forall t :: t in s.tctxs ==> Sane(s.tctxs[t].dumpCnts, s.accum)
    ensures s.dump.phase.todo <= s.dump.list
  {
  }

  lemma KeepMergeStep(s: State, s': State, g: Gid, c: Cnt)
    requires Inv(s) && Sums(s, s', g, c) && Registered(s.gctxs, s.bt2gctx, g)
    requires s.dump.phase.todo <= s.dump.list
    ensures Inv(s')
  {
    hide SumInv, InitializingInv, CacheInv, LinkInv, TctxInv, TctxOk, DoomedOnce, DoomedInv, DoomedOk,
         ThreadInv, PcInv, RegInv;
    var s1 := s.(gctxs := s'.gctxs);
    RecountTables(s, s1, g, s'.gctxs[g]);
    PrepThreads(s, s1, g, s'.gctxs[g]);
    MergeSums(s, s', g, c);
  }

  lemma KeepDumpMerge(s: State, g: Gid)
    requires Inv(s)
    ensures Inv(DoDumpMerge(s, g))
  {
    hide Inv;
    hide Sum;
    hide Accumulate;
    if s.dump.Dump? && s.dump.phase.Merge? && g in s.dump.phase.todo {
      MergeFacts(s, g);
      var captured := CapturedOf(s.gctxs, s.tctxs, g);
      var c := Sum(captured, DumpCnts(s.tctxs));
      AccumulateIsSum(ZERO, captured, DumpCnts(s.tctxs), s.accum);
      PlusZero(c);
      KeepMergeStep(s, DoDumpMerge(s, g), g, c);
    }
  }

  lemma KeepDumpMergeDone(s: State)
    requires Inv(s)
    ensures Inv(DoDumpMergeDone(s))
  {
    hide InitializingInv, CacheInv, LinkInv, TctxInv, TctxOk, DoomedOnce, DoomedInv, DoomedOk, ThreadInv,
         PcInv, OrphanInv, LimboInv, RegInv;
  }

  lemma DumpCntsSane(s: State, u: set<Tid>)
    requires TctxInv(s.accum, s.gctxs, s.tctxs, s.bt2tctx, s.nextT) && u <= s.tctxs.Keys
    ensures Sane(Sum(u, DumpCnts(s.tctxs)), s.accum)
  {
    hide Sane;
    forall t | t in u ensures Sane(DumpCnts(s.tctxs)[t], s.accum) {
      assert TctxOk(s.accum, s.gctxs, s.tctxs, s.bt2tctx, t);
    }
    SumSane(u, DumpCnts(s.tctxs), s.accum);
  }

  /** A printed gctx that is skipped has nothing to print, as the assertions there say. */
  lemma ReadFacts(s: State, g: Gid)
    requires Inv(s) && s.dump.Dump? && s.dump.phase.Output? && g in s.dump.list
    ensures g in s.gctxs && s.gctxs[g].linked <= s.tctxs.Keys
    ensures Useless(s.gctxs[g].cntSummed, s.accum) ==> s.gctxs[g].cntSummed == ZERO
  {
    hide ScanInv, InitializingInv, CacheInv, TctxInv, TctxOk, DoomedOnce, DoomedInv, DoomedOk, ThreadInv,
         PcInv, OrphanInv, LimboInv, RegInv, MtxInv, Sum, Sane;
    assert Registered(s.gctxs, s.bt2gctx, g);
    var captured := CapturedOf(s.gctxs, s.tctxs, g);
    DumpCntsSane(s, captured);
    if Useless(Sum(captured, DumpCnts(s.tctxs)), s.accum) {
      SaneUseless(Sum(captured, DumpCnts(s.tctxs)), s.accum);
    }
  }

  lemma SaneUseless(c: Cnt, accum: bool)
    requires Sane(c, accum) && Useless(c, accum)
    ensures c == ZERO
  {
    if accum {
      assert c.curobjs <= c.accumobjs;
    }
  }

  lemma KeepDumpRead(s: State, g: Gid)
    requires Inv(s)
    ensures Inv(DoDumpRead(s, g))
  {
    hide Inv, Useless;
    if s.dump.Dump? && s.dump.phase.Output? && g in s.dump.list {
      ReadFacts(s, g);
    }
  }

  lemma KeepDumpOutputDone(s: State)
    requires Inv(s)
    ensures Inv(DoDumpOutputDone(s))
  {
    hide InitializingInv, CacheInv, LinkInv, TctxInv, TctxOk, DoomedOnce, DoomedInv, DoomedOk, ThreadInv,
         PcInv, OrphanInv, LimboInv, RegInv;
  }

  // ---- finishing a dump

  /** The captured tctxs of `g` go back to normal, or go away; `g` leaves the dump list. */
  ghost predicate Finishes(s: State, s': State, g: Gid, up: nat) {
    && s.dump.Dump? && s.dump.phase.Finish? && g in s.dump.list && g in s.gctxs
    && PcOf(s, s.dump.self).Idle? && Registered(s.gctxs, s.bt2gctx, g)
    && (forall t :: t in s'.tctxs <==> t in s.tctxs && t !in PurgatoryOf(s.gctxs, s.tctxs, g))
    && (forall t :: t in s'.tctxs ==>
         s'.tctxs[t] == if t in s.gctxs[g].linked && s.tctxs[t].state.Dumping?
                        then s.tctxs[t].(state := Nominal) else s.tctxs[t])
    && s' == s.(tctxs := s'.tctxs, pcs := s'.pcs,
                gctxs := s.gctxs[g := s.gctxs[g].(linked := s.gctxs[g].linked - PurgatoryOf(s.gctxs, s.tctxs, g),
                                                  nlimbo := s.gctxs[g].nlimbo - 1 + up)],
                dump := s.dump.(list := s.dump.list - {g}))
    && ((up == 0 && s'.pcs == s.pcs && !GctxShouldDestroy(s.accum, s'.gctxs[g]))
        || (up == 1 && s'.pcs == s.pcs[s.dump.self := WantDestroy(g, None)]))
  }

  lemma FinishSame(s: State, s': State, g: Gid, up: nat, u: Tid)
    requires Finishes(s, s', g, up) && u !in PurgatoryOf(s.gctxs, s.tctxs, g)
    ensures Cached(s'.gctxs, s'.tctxs, s'.bt2tctx, u) <==> Cached(s.gctxs, s.tctxs, s.bt2tctx, u)
    ensures Linked(s'.gctxs, s'.tctxs, u) <==> Linked(s.gctxs, s.tctxs, u)
  {
  }

  /** What a purgatory tctx cannot be. */
  lemma DeadFacts(s: State, g: Gid)
    requires g in s.gctxs && Tables(s)
    ensures forall t :: t in PurgatoryOf(s.gctxs, s.tctxs, g) ==>
              && !Cached(s.gctxs, s.tctxs, s.bt2tctx, t)
              && s.tctxs[t].objs == [] && !s.tctxs[t].prepared
  {
    hide RegInv, LinkInv, CacheInv, Cached, CntsInv;
  }

  lemma FinishTctxs(s: State, s': State, g: Gid, up: nat)
    requires Finishes(s, s', g, up)
    requires TctxInv(s.accum, s.gctxs, s.tctxs, s.bt2tctx, s.nextT)
    ensures TctxInv(s'.accum, s'.gctxs, s'.tctxs, s'.bt2tctx, s'.nextT)
  {
    forall u | u in s'.tctxs
      ensures u < s'.nextT && TctxOk(s'.accum, s'.gctxs, s'.tctxs, s'.bt2tctx, u)
    {
      assert TctxOk(s.accum, s.gctxs, s.tctxs, s.bt2tctx, u);
      FinishSame(s, s', g, up, u);
    }
  }

  lemma FinishLinks(s: State, s': State, g: Gid, up: nat)
    requires Finishes(s, s', g, up) && LinkInv(s.gctxs, s.tctxs)
    ensures LinkInv(s'.gctxs, s'.tctxs)
  {
  }

  lemma FinishRegistry(s: State, s': State, g: Gid, up: nat)
    requires Finishes(s, s', g, up) && RegInv(s.gctxs, s.bt2gctx, s.nextG)
    ensures RegInv(s'.gctxs, s'.bt2gctx, s'.nextG)
  {
    hide PurgatoryOf;
  }

  lemma FinishOrphans(s: State, s': State, g: Gid, up: nat)
    requires Finishes(s, s', g, up) && s.gctxs[g].nlimbo >= 1 && OrphanInv(s.gctxs, s.accum)
    ensures OrphanInv(s'.gctxs, s'.accum)
  {
    hide PurgatoryOf;
  }

  lemma FinishCaches(s: State, s': State, g: Gid, up: nat)
    requires Finishes(s, s', g, up) && Tables(s)
    ensures CacheInv(s'.gctxs, s'.tctxs, s'.bt2gctx, s'.bt2tctx)
  {
    hide RegInv, TctxInv, LinkInv;
    DeadFacts(s, g);
    forall k | k in s'.bt2tctx
      ensures s'.bt2tctx[k] in s'.tctxs && s'.tctxs[s'.bt2tctx[k]].owner == k.0
      ensures Registered(s'.gctxs, s'.bt2gctx, s'.tctxs[s'.bt2tctx[k]].gctx)
      ensures s'.gctxs[s'.tctxs[s'.bt2tctx[k]].gctx].bt == k.1
    {
      assert k == (k.0, k.1);
      assert s.bt2tctx[k] !in PurgatoryOf(s.gctxs, s.tctxs, g);
    }
  }

  lemma FinishPcs(s: State, s': State, g: Gid, up: nat)
    requires Finishes(s, s', g, up)
    requires forall t :: t in PurgatoryOf(s.gctxs, s.tctxs, g) ==> !Cached(s.gctxs, s.tctxs, s.bt2tctx, t)
    requires ThreadInv(s.gctxs, s.tctxs, s.bt2gctx, s.bt2tctx, s.pcs)
    ensures ThreadInv(s'.gctxs, s'.tctxs, s'.bt2gctx, s'.bt2tctx, s'.pcs)
  {
  }

  lemma FinishDoomed(s: State, s': State, g: Gid, up: nat)
    requires Finishes(s, s', g, up)
    requires ThreadInv(s.gctxs, s.tctxs, s.bt2gctx, s.bt2tctx, s.pcs)
    requires DoomedInv(s.accum, s.gctxs, s.tctxs, s.bt2tctx, s.pcs)
    ensures DoomedInv(s'.accum, s'.gctxs, s'.tctxs, s'.bt2tctx, s'.pcs)
  {
  }

  lemma FinishRest(s: State, s': State, g: Gid, up: nat)
    requires Finishes(s, s', g, up)
    requires forall t :: t in PurgatoryOf(s.gctxs, s.tctxs, g) ==> !Cached(s.gctxs, s.tctxs, s.bt2tctx, t)
    requires DoomedOnce(s.pcs) && InitializingInv(s.tctxs, s.pcs)
    ensures DoomedOnce(s'.pcs) && InitializingInv(s'.tctxs, s'.pcs)
  {
  }

  lemma FinishDump(s: State, s': State, g: Gid, up: nat)
    requires Finishes(s, s', g, up)
    requires forall t :: t in s.tctxs && IsCaptured(s.tctxs[t]) ==> Linked(s.gctxs, s.tctxs, t)
    requires DumpListInv(s.gctxs, s.tctxs, s.bt2gctx, s.dump)
    ensures Dumps(s')
  {
    forall h | h in s'.dump.list ensures Registered(s'.gctxs, s'.bt2gctx, h) {
      assert Registered(s.gctxs, s.bt2gctx, h);
    }
  }

  lemma CapturedLinked(s: State)
    requires TctxInv(s.accum, s.gctxs, s.tctxs, s.bt2tctx, s.nextT)
    ensures forall t :: t in s.tctxs && IsCaptured(s.tctxs[t]) ==> Linked(s.gctxs, s.tctxs, t)
  {
  }

  lemma FinishLimbo(s: State, s': State, g: Gid, up: nat)
    requires Finishes(s, s', g, up) && LimboInv(s.gctxs, s.pcs, ListOf(s.dump))
    ensures LimboInv(s'.gctxs, s'.pcs, ListOf(s'.dump))
  {
    if up == 1 {
      forall h | h in s'.gctxs
        ensures |Holders(s'.pcs, h)| == |Holders(s.pcs, h)| + (if h == g then 1 else 0)
      {
        HoldersMove(s.pcs, s.dump.self, WantDestroy(g, None), h);
      }
    }
  }

  lemma FinishFacts(s: State, g: Gid)
    requires Inv(s) && s.dump.Dump? && g in s.dump.list
    ensures Registered(s.gctxs, s.bt2gctx, g) && s.gctxs[g].nlimbo >= 1
    ensures forall t :: t in s.gctxs[g].linked ==> t in s.tctxs && !s.tctxs[t].state.Initializing?
    ensures forall t :: t in PurgatoryOf(s.gctxs, s.tctxs, g) ==> s.tctxs[t].objs == [] && !s.tctxs[t].prepared
  {
  }

  lemma KeepFinishStep(s: State, s': State, g: Gid, up: nat)
    requires Inv(s) && Finishes(s, s', g, up) && s.gctxs[g].nlimbo >= 1
    ensures Inv(s')
  {
    hide SumInv, ScanInv, DumpListInv, InitializingInv, CacheInv, LinkInv, TctxInv, TctxOk, DoomedOnce, DoomedInv,
         DoomedOk, ThreadInv, PcInv, OrphanInv, LimboInv, RegInv;
    FinishTctxs(s, s', g, up);
    FinishLinks(s, s', g, up);
    FinishRegistry(s, s', g, up);
    FinishOrphans(s, s', g, up);
    FinishCaches(s, s', g, up);
    DeadFacts(s, g);
    FinishPcs(s, s', g, up);
    FinishDoomed(s, s', g, up);
    FinishRest(s, s', g, up);
    CapturedLinked(s);
    FinishDump(s, s', g, up);
    FinishLimbo(s, s', g, up);
  }

  lemma KeepDumpFinish(s: State, g: Gid)
    requires Inv(s)
    ensures Inv(DoDumpFinish(s, g))
  {
    hide Inv;
    if s.dump.Dump? && s.dump.phase.Finish? && g in s.dump.list && PcOf(s, s.dump.self).Idle? {
      FinishFacts(s, g);
      var x := s.gctxs[g];
      var y := x.(linked := x.linked - PurgatoryOf(s.gctxs, s.tctxs, g), nlimbo := x.nlimbo - 1);
      var s' := DoDumpFinish(s, g);
      if GctxShouldDestroy(s.accum, y) {
        assert s'.gctxs == s.gctxs[g := y.(nlimbo := x.nlimbo)];
        assert Finishes(s, s', g, 1);
        KeepFinishStep(s, s', g, 1);
      } else {
        assert s'.gctxs == s.gctxs[g := y];
        assert Finishes(s, s', g, 0);
        KeepFinishStep(s, s', g, 0);
      }
    }
  }

  lemma KeepDumpEnd(s: State)
    requires Inv(s)
    ensures Inv(DoDumpEnd(s))
  {
    hide InitializingInv, CacheInv, LinkInv, TctxInv, TctxOk, DoomedOnce, DoomedInv, DoomedOk, ThreadInv,
         PcInv, OrphanInv, LimboInv, RegInv;
  }

  // ---------------------------------------------------------------- main results

  /** What the dumping thread does. */
  predicate OfDump(a: Action) {
    || a.DumpBegin? || a.DumpPrep? || a.DumpPrepDone? || a.DumpLockTdata? || a.DumpSkipTdata? || a.DumpTctx?
    || a.DumpUnlockTdata? || a.DumpScanDone? || a.DumpMerge? || a.DumpMergeDone? || a.DumpRead?
    || a.DumpOutputDone? || a.DumpFinish? || a.DumpEnd?
  }

  lemma KeepDumpStep(s: State, a: Action)
    requires Inv(s) && OfDump(a)
    ensures Inv(Step(s, a))
  {
    hide Inv, DoDumpBegin, DoDumpPrep, DoDumpPrepDone, DoDumpLockTdata, DoDumpSkipTdata, DoDumpTctx,
         DoDumpUnlockTdata, DoDumpScanDone, DoDumpMerge, DoDumpMergeDone, DoDumpRead, DoDumpOutputDone,
         DoDumpFinish, DoDumpEnd;
    match a
    case DumpBegin(th) => KeepDumpBegin(s, th);
    case DumpPrep(g) => KeepDumpPrep(s, g);
    case DumpPrepDone(threads) => KeepDumpPrepDone(s, threads);
    case DumpLockTdata(owner) => KeepDumpLockTdata(s, owner);
    case DumpSkipTdata(owner) => KeepDumpSkipTdata(s, owner);
    case DumpTctx(t) => KeepDumpTctx(s, t);
    case DumpUnlockTdata => KeepDumpUnlockTdata(s);
    case DumpScanDone => KeepDumpScanDone(s);
    case DumpMerge(g) => KeepDumpMerge(s, g);
    case DumpMergeDone => KeepDumpMergeDone(s);
    case DumpRead(g) => KeepDumpRead(s, g);
    case DumpOutputDone => KeepDumpOutputDone(s);
    case DumpFinish(g) => KeepDumpFinish(s, g);
    case DumpEnd => KeepDumpEnd(s);
  }

  lemma KeepThreadStep(s: State, a: Action)
    requires Inv(s) && !OfDump(a) && !Displaces(s, a)
    ensures Inv(Step(s, a))
  {
    hide Inv, DoLookup, DoEnter, DoHold, DoLeave, DoAttach, DoLink, DoSample, DoRollback, DoFreeObject, DoUnlink,
         DoEnterDestroy, DoTryDestroy, DoFreeGctx, DoFreeTctx, DoCheck;
    match a
    case Lookup(th, bt) => KeepLookup(s, th, bt);
    case Enter(th, how) => KeepEnter(s, th, how);
    case Hold(th) => KeepHold(s, th);
    case Leave(th) => KeepLeave(s, th);
    case Attach(th, how) => KeepAttach(s, th, how);
    case Link(th) => KeepLink(s, th);
    case Sample(th, usize) => KeepSample(s, th, usize);
    case Rollback(th) => KeepRollback(s, th);
    case FreeObject(th, t, i) => KeepFreeObject(s, th, t, i);
    case Unlink(th) => KeepUnlink(s, th);
    case EnterDestroy(th) => KeepEnterDestroy(s, th);
    case TryDestroy(th) => KeepTryDestroy(s, th);
    case FreeGctx(th) => KeepFreeGctx(s, th);
    case FreeTctx(th) => KeepFreeTctx(s, th);
    case Check(th) => KeepCheck(s, th);
  }

  /** Every atomic step of every thread keeps the invariant. */
  lemma KeepStep(s: State, a: Action)
    requires Inv(s) && !Displaces(s, a)
    ensures Inv(Step(s, a))
  {
    hide Inv, Step, OfDump;
    if OfDump(a) {
      KeepDumpStep(s, a);
    } else {
      KeepThreadStep(s, a);
    }
  }

  lemma {:induction false} KeepRun(s: State, acts: seq<Action>)
    requires Inv(s) && Clean(acts)
    ensures Inv(Run(s, acts))
    decreases |acts|
  {
    hide Inv;
    if acts != [] {
      assert !MayDisplace(acts[0]);
      KeepStep(s, acts[0]);
      KeepRun(Step(s, acts[0]), acts[1..]);
    }
  }

  /** In no interleaving is a freed context touched, a count decremented below zero, an assertion
      violated or a `not_reached()` reached. */
  lemma NeverBad(accum: bool, acts: seq<Action>)
    requires Clean(acts)
    ensures !Run(Init(accum), acts).bad
  {
    InitInv(accum);
    KeepRun(Init(accum), acts);
  }

  /** When a thread is about to release the memory of a gctx, that thread is the only holder of a
      limbo count, and no tctx, no table and no dump leads to the gctx any more. */
  lemma FreeIsExclusive(accum: bool, acts: seq<Action>, th: Thr)
    requires Clean(acts) && PcOf(Run(Init(accum), acts), th).Freeing?
    ensures var s, g := Run(Init(accum), acts), PcOf(Run(Init(accum), acts), th).g;
            && g in s.gctxs && s.gctxs[g].nlimbo == 1 && Holders(s.pcs, g) == {th}
            && s.gctxs[g].linked == {} && g !in s.bt2gctx.Values && g !in ListOf(s.dump)
            && (forall t :: t in s.tctxs && t in s.bt2tctx.Values ==> s.tctxs[t].gctx != g)
            && (forall u, bt :: u in s.pcs ==> s.pcs[u] != Found(bt, g))
  {
    hide SumInv, ScanInv, DumpListInv, InitializingInv, LinkInv, TctxInv, TctxOk, DoomedOnce, DoomedInv,
         DoomedOk, OrphanInv, LimboInv, MtxInv;
    var s := Run(Init(accum), acts);
    InitInv(accum);
    KeepRun(Init(accum), acts);
    FreeingFacts(s, th);
    var g := PcOf(s, th).g;
    forall u, bt | u in s.pcs ensures s.pcs[u] != Found(bt, g) {
      assert PcInv(s.gctxs, s.tctxs, s.bt2gctx, s.bt2tctx, u, s.pcs[u]);
    }
  }

  /** Whoever holds a limbo count, or has just found the gctx in the table, holds allocated memory. */
  lemma HeldIsAllocated(accum: bool, acts: seq<Action>, th: Thr, g: Gid)
    requires Clean(acts)
    requires HoldsG(PcOf(Run(Init(accum), acts), th), g)
             || exists bt :: PcOf(Run(Init(accum), acts), th) == Found(bt, g)
    ensures g in Run(Init(accum), acts).gctxs
  {
    hide SumInv, ScanInv, DumpListInv, InitializingInv, CacheInv, LinkInv, TctxInv, TctxOk, DoomedOnce, DoomedInv,
         DoomedOk, OrphanInv, LimboInv, RegInv, MtxInv;
    var s := Run(Init(accum), acts);
    InitInv(accum);
    KeepRun(Init(accum), acts);
    assert PcInv(s.gctxs, s.tctxs, s.bt2gctx, s.bt2tctx, th, s.pcs[th]);
  }

  lemma OrphanFacts(s: State, g: Gid)
    requires Locks(s) && !s.accum && g in s.gctxs && s.gctxs[g].linked == {} && s.gctxs[g].leaked == 0
    ensures Holders(s.pcs, g) != {} || g in ListOf(s.dump)
  {
  }

  /** Unless a lookup ran out of memory, a gctx that nothing uses is already being destroyed:
      without `opt_prof_accum`, one that holds no tctx has a holder that will see to it. */
  lemma NoOrphans(accum: bool, acts: seq<Action>, g: Gid)
    requires Clean(acts)
    requires var s := Run(Init(accum), acts);
             !s.accum && g in s.gctxs && s.gctxs[g].linked == {} && s.gctxs[g].leaked == 0
    ensures var s := Run(Init(accum), acts);
            Holders(s.pcs, g) != {} || g in ListOf(s.dump)
  {
    InitInv(accum);
    KeepRun(Init(accum), acts);
    OrphanFacts(Run(Init(accum), acts), g);
  }

  /** The counters of a tctx are those of its live sampled objects, whoever allocated and freed them and
      however often it was dumped; and once no dump runs, no tctx is left marked by one. */
  lemma CountsAreLive(accum: bool, acts: seq<Action>, t: Tid)
    requires Clean(acts) && t in Run(Init(accum), acts).tctxs
    ensures var s := Run(Init(accum), acts);
            && s.tctxs[t].cnts.curobjs == |s.tctxs[t].objs| && s.tctxs[t].cnts.curbytes == Total(s.tctxs[t].objs)
            && (IsCaptured(s.tctxs[t]) ==> s.dump.Dump? && s.tctxs[t].gctx in s.dump.list)
  {
    hide SumInv, ScanInv, InitializingInv, CacheInv, LinkInv, DoomedOnce, DoomedInv, ThreadInv, OrphanInv,
         LimboInv, RegInv, MtxInv;
    InitInv(accum);
    KeepRun(Init(accum), acts);
  }

  /** What a dump recorded of a tctx: the counters at the moment it was visited. */
  ghost function Snapshot(s: State, t: Tid): Option<Cnt> {
    if t in s.tctxs && IsCaptured(s.tctxs[t]) then Some(s.tctxs[t].dumpCnts) else None
  }

  lemma SnapshotFacts(s: State, t: Tid)
    requires Inv(s)
    ensures t in s.tctxs ==> t < s.nextT
    ensures t in s.tctxs && IsCaptured(s.tctxs[t]) ==>
              (forall th :: PcOf(s, th) != FreeingTctx(t)) && forall th, bt, g :: PcOf(s, th) != Inserted(bt, g, t)
    ensures forall g :: g in s.gctxs && t in s.gctxs[g].linked ==> t in s.tctxs && s.tctxs[t].gctx == g
    ensures forall th :: PcOf(s, th).Inserted? ==>
              PcOf(s, th).t in s.tctxs && s.tctxs[PcOf(s, th).t].state.Initializing?
  {
    hide SumInv, ScanInv, DumpListInv, CacheInv, OrphanInv, LimboInv, RegInv, MtxInv, DoomedOnce;
    hide InitializingInv;
    forall th | PcOf(s, th).Inserted?
      ensures PcOf(s, th).t in s.tctxs && s.tctxs[PcOf(s, th).t].state.Initializing?
    {
      assert PcInv(s.gctxs, s.tctxs, s.bt2gctx, s.bt2tctx, th, s.pcs[th]);
    }
    forall th | t in s.tctxs && IsCaptured(s.tctxs[t]) ensures PcOf(s, th) != FreeingTctx(t) {
      assert th in s.pcs && Doomed(s.pcs[th]).Some? ==>
          DoomedOk(s.accum, s.gctxs, s.tctxs, s.bt2tctx, s.pcs[th], Doomed(s.pcs[th]).value);
    }
  }

  ghost predicate SnapshotsStay(s: State, s': State, t: Tid) {
    Snapshot(s', t) == Snapshot(s, t)
  }

  lemma SnapshotLookup(s: State, th: Thr, bt: Bt, t: Tid)
    ensures SnapshotsStay(s, DoLookup(s, th, bt), t)
  {
  }

  lemma SnapshotAttach(s: State, th: Thr, how: Insertion, t: Tid)
    requires Inv(s)
    ensures SnapshotsStay(s, DoAttach(s, th, how), t)
  {
    hide Inv, Registered, Displaces;
    SnapshotFacts(s, t);
  }

  lemma SnapshotLink(s: State, th: Thr, t: Tid)
    requires Inv(s)
    ensures SnapshotsStay(s, DoLink(s, th), t)
  {
    hide Inv;
    SnapshotFacts(s, t);
  }

  lemma SnapshotSample(s: State, th: Thr, usize: nat, t: Tid)
    ensures SnapshotsStay(s, DoSample(s, th, usize), t)
  {
  }

  lemma SnapshotRollback(s: State, th: Thr, t: Tid)
    ensures SnapshotsStay(s, DoRollback(s, th), t)
  {
  }

  lemma SnapshotFree(s: State, th: Thr, u: Tid, i: nat, t: Tid)
    ensures SnapshotsStay(s, DoFreeObject(s, th, u, i), t)
  {
    hide MaybeDestroy;
    if u in s.tctxs && i < |s.tctxs[u].objs| {
      var x := s.tctxs[u];
      var usize := x.objs[i];
      if x.cnts.curobjs > 0 && x.cnts.curbytes >= usize {
        var c := x.cnts.(curobjs := x.cnts.curobjs - 1, curbytes := x.cnts.curbytes - usize);
        SnapshotMaybe(s.(tctxs := s.tctxs[u := x.(cnts := c, objs := x.objs[..i] + x.objs[i + 1..])]), th, u);
      }
    }
  }

  lemma SnapshotMaybe(s: State, th: Thr, u: Tid)
    requires u in s.tctxs
    ensures MaybeDestroy(s, th, u).tctxs == s.tctxs
  {
  }

  lemma SnapshotDestroy(s: State, th: Thr, t: Tid)
    requires Inv(s)
    ensures SnapshotsStay(s, DoUnlink(s, th), t) && SnapshotsStay(s, DoFreeTctx(s, th), t)
  {
    hide Inv;
    SnapshotFacts(s, t);
  }

  lemma SnapshotEnter(s: State, th: Thr, how: Insertion, t: Tid)
    ensures SnapshotsStay(s, DoEnter(s, th, how), t)
  {
  }

  lemma SnapshotHold(s: State, th: Thr, t: Tid)
    ensures SnapshotsStay(s, DoHold(s, th), t)
    ensures SnapshotsStay(s, DoLeave(s, th), t)
  {
  }

  lemma SnapshotApart(s: State, th: Thr, t: Tid)
    ensures SnapshotsStay(s, DoEnterDestroy(s, th), t)
    ensures SnapshotsStay(s, DoTryDestroy(s, th), t)
    ensures SnapshotsStay(s, DoFreeGctx(s, th), t)
  {
  }

  lemma SnapshotBegin(s: State, th: Thr, g: Gid, threads: set<Thr>, t: Tid)
    ensures SnapshotsStay(s, DoDumpBegin(s, th), t)
    ensures SnapshotsStay(s, DoDumpPrep(s, g), t)
    ensures SnapshotsStay(s, DoDumpPrepDone(s, threads), t)
  {
  }

  lemma SnapshotScan(s: State, owner: Thr, t: Tid)
    ensures SnapshotsStay(s, DoDumpLockTdata(s, owner), t)
    ensures SnapshotsStay(s, DoDumpSkipTdata(s, owner), t)
  {
  }

  lemma SnapshotScanned(s: State, t: Tid)
    ensures SnapshotsStay(s, DoDumpUnlockTdata(s), t)
    ensures SnapshotsStay(s, DoDumpScanDone(s), t)
    ensures SnapshotsStay(s, DoDumpMergeDone(s), t)
  {
  }

  lemma SnapshotMerge(s: State, g: Gid, t: Tid)
    ensures SnapshotsStay(s, DoDumpMerge(s, g), t)
  {
    hide CapturedOf, Accumulate, Unreached;
  }

  lemma SnapshotOutput(s: State, g: Gid, t: Tid)
    ensures SnapshotsStay(s, DoDumpRead(s, g), t)
    ensures SnapshotsStay(s, DoDumpOutputDone(s), t)
    ensures SnapshotsStay(s, DoDumpEnd(s), t)
  {
  }

  lemma SnapshotCheck(s: State, th: Thr, t: Tid)
    ensures SnapshotsStay(s, DoCheck(s, th), t)
  {
  }

  lemma SnapshotVisit(s: State, u: Tid, t: Tid)
    ensures var after := Snapshot(DoDumpTctx(s, u), t);
            after == Snapshot(s, t)
            || (u == t && Snapshot(s, t) == None && t in s.tctxs && after == Some(s.tctxs[t].cnts))
  {
  }

  /** Finishing a gctx leaves the tctxs of others alone. */
  lemma FinishLeaves(s: State, g: Gid, t: Tid)
    requires g in s.gctxs ==> t !in s.gctxs[g].linked
    ensures t in DoDumpFinish(s, g).tctxs <==> t in s.tctxs
    ensures t in s.tctxs ==> DoDumpFinish(s, g).tctxs[t] == s.tctxs[t]
  {
    hide Unreached, InUse;
  }

  lemma SnapshotFinish(s: State, g: Gid, t: Tid)
    requires Inv(s) && (t in s.tctxs ==> g != s.tctxs[t].gctx)
    ensures SnapshotsStay(s, DoDumpFinish(s, g), t)
  {
    hide Inv, DoDumpFinish;
    SnapshotFacts(s, t);
    FinishLeaves(s, g, t);
  }

  lemma SnapshotDump(s: State, a: Action, t: Tid)
    requires Inv(s) && OfDump(a)
    requires !(a.DumpFinish? && t in s.tctxs && a.g == s.tctxs[t].gctx)
    ensures SnapshotsStay(s, Step(s, a), t)
            || (a == DumpTctx(t) && Snapshot(s, t) == None && t in s.tctxs
                && Snapshot(Step(s, a), t) == Some(s.tctxs[t].cnts))
  {
    hide Inv, Snapshot, DoDumpBegin, DoDumpPrep, DoDumpPrepDone, DoDumpLockTdata, DoDumpSkipTdata, DoDumpTctx,
         DoDumpUnlockTdata, DoDumpScanDone, DoDumpMerge, DoDumpMergeDone, DoDumpRead, DoDumpOutputDone,
         DoDumpFinish, DoDumpEnd;
    match a
    case DumpBegin(th) => SnapshotBegin(s, th, 0, {}, t);
    case DumpPrep(g) => SnapshotBegin(s, 0, g, {}, t);
    case DumpPrepDone(threads) => SnapshotBegin(s, 0, 0, threads, t);
    case DumpLockTdata(owner) => SnapshotScan(s, owner, t);
    case DumpSkipTdata(owner) => SnapshotScan(s, owner, t);
    case DumpTctx(u) => SnapshotVisit(s, u, t);
    case DumpUnlockTdata => SnapshotScanned(s, t);
    case DumpScanDone => SnapshotScanned(s, t);
    case DumpMerge(g) => SnapshotMerge(s, g, t);
    case DumpMergeDone => SnapshotScanned(s, t);
    case DumpRead(g) => SnapshotOutput(s, g, t);
    case DumpOutputDone => SnapshotOutput(s, 0, t);
    case DumpFinish(g) => SnapshotFinish(s, g, t);
    case DumpEnd => SnapshotOutput(s, 0, t);
  }

  lemma SnapshotThread(s: State, a: Action, t: Tid)
    requires Inv(s) && !OfDump(a)
    ensures SnapshotsStay(s, Step(s, a), t)
  {
    hide Inv, SnapshotsStay, DoLookup, DoEnter, DoHold, DoLeave, DoAttach, DoLink, DoSample, DoRollback,
         DoFreeObject, DoUnlink, DoEnterDestroy, DoTryDestroy, DoFreeGctx, DoFreeTctx, DoCheck;
    match a
    case Lookup(th, bt) => SnapshotLookup(s, th, bt, t);
    case Enter(th, how) => SnapshotEnter(s, th, how, t);
    case Hold(th) => SnapshotHold(s, th, t);
    case Leave(th) => SnapshotHold(s, th, t);
    case Attach(th, how) => SnapshotAttach(s, th, how, t);
    case Link(th) => SnapshotLink(s, th, t);
    case Sample(th, usize) => SnapshotSample(s, th, usize, t);
    case Rollback(th) => SnapshotRollback(s, th, t);
    case FreeObject(th, u, i) => SnapshotFree(s, th, u, i, t);
    case Unlink(th) => SnapshotDestroy(s, th, t);
    case EnterDestroy(th) => SnapshotApart(s, th, t);
    case TryDestroy(th) => SnapshotApart(s, th, t);
    case FreeGctx(th) => SnapshotApart(s, th, t);
    case FreeTctx(th) => SnapshotDestroy(s, th, t);
    case Check(th) => SnapshotCheck(s, th, t);
  }

  /** A snapshot survives everything, even the destruction of its tctx, until the dump is through with the
      gctx; and none appears except by a visit of the dump. */
  lemma SnapshotKept(s: State, a: Action, t: Tid)
    requires Inv(s)
    requires !(a.DumpFinish? && t in s.tctxs && a.g == s.tctxs[t].gctx)
    ensures var after := Snapshot(Step(s, a), t);
            after == Snapshot(s, t)
            || (a == DumpTctx(t) && Snapshot(s, t) == None && t in s.tctxs && after == Some(s.tctxs[t].cnts))
  {
    hide Inv, Step, Snapshot, OfDump;
    if OfDump(a) {
      SnapshotDump(s, a, t);
    } else {
      SnapshotThread(s, a, t);
    }
  }

  /** A dump's grand total is the sum of the per-context sums it printed, and each per-context sum
      counts every captured tctx of that context exactly once. */
  lemma DumpTotals(accum: bool, acts: seq<Action>)
    requires Clean(acts)
    requires var s := Run(Init(accum), acts); s.dump.Dump? && s.dump.phase.Output?
    ensures var s := Run(Init(accum), acts);
            && s.dump.list <= s.gctxs.Keys
            && (forall g :: g in s.dump.list ==>
                 s.gctxs[g].cntSummed == Sum(CapturedOf(s.gctxs, s.tctxs, g), DumpCnts(s.tctxs)))
            && s.dump.cntAll == Sum(Captured(s.tctxs), DumpCnts(s.tctxs))
            && s.dump.cntAll == Sum(s.dump.list, map g | g in s.gctxs :: s.gctxs[g].cntSummed)
  {
    var s := Run(Init(accum), acts);
    InitInv(accum);
    KeepRun(Init(accum), acts);
    OutputTotals(s);
  }

  lemma OutputTotals(s: State)
    requires Inv(s) && s.dump.Dump? && s.dump.phase.Output?
    ensures s.dump.list <= s.gctxs.Keys
    ensures s.dump.cntAll == Sum(s.dump.list, map g | g in s.gctxs :: s.gctxs[g].cntSummed)
  {
    forall g | g in s.dump.list ensures g in s.gctxs {
      assert Registered(s.gctxs, s.bt2gctx, g);
    }
    var sums := map g | g in s.gctxs :: s.gctxs[g].cntSummed;
    var key := map t | t in s.tctxs :: s.tctxs[t].gctx;
    forall g | g in s.dump.list
      ensures sums[g] == Sum(Part(Captured(s.tctxs), key, g), DumpCnts(s.tctxs))
    {
      CapturedIsPart(s, g);
    }
    SumByParts(Captured(s.tctxs), DumpCnts(s.tctxs), key, s.dump.list, sums);
  }

  lemma CapturedIsPart(s: State, g: Gid)
    requires Tables(s) && g in s.gctxs
    ensures Part(Captured(s.tctxs), map t | t in s.tctxs :: s.tctxs[t].gctx, g)
            == CapturedOf(s.gctxs, s.tctxs, g)
  {
  }
}
