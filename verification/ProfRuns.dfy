/** Three short runs of the profiling protocol, state by state. */
module ProfRuns {
  import opened Wrappers
  import opened Tally
  import opened Prof
  import opened ProfLate

  /** `states` are what `acts` leads through. */
  ghost predicate Follows(states: seq<State>, acts: seq<Action>) {
    |states| == |acts| + 1 && forall i :: 0 <= i < |acts| ==> Step(states[i], acts[i]) == states[i + 1]
  }

  lemma {:induction false} FollowsRun(states: seq<State>, acts: seq<Action>)
    requires Follows(states, acts)
    ensures Run(states[0], acts) == states[|acts|]
    decreases |acts|
  {
    hide Step;
    if acts != [] {
      FollowsRun(states[1..], acts[1..]);
    }
  }

  // ---------------------------------------------------------------- the first lookup of a backtrace

  function Sought(): State {
    Init(false).(pcs := map[0 := Seeking(0)])
  }

  function Created(): State {
    State(false, ByThread(0), map[0 := 0], map[0 := Gctx(0, 1, {}, ZERO, 0)], map[], map[],
          map[0 := Leaving(0, 0, true)], NoDump, 1, 0, false)
  }

  function Alone(): State {
    Created().(mtx := Free, pcs := map[0 := Attaching(0, 0, true)])
  }

  lemma ToSought()
    ensures Step(Init(false), Lookup(0, 0)) == Sought()
  {
  }

  lemma ToCreated()
    ensures Step(Sought(), Enter(0, Stored)) == Created()
  {
  }

  lemma ToAlone()
    ensures Step(Created(), Leave(0)) == Alone()
  {
  }

  // ---------------------------------------------------------------- a limbo count that stays

  /** Thread 1 finds the gctx that thread 0 created; both run out of memory. */
  function LeakActs(): seq<Action> {
    [Lookup(0, 0), Enter(0, Stored), Leave(0), Lookup(1, 0), Enter(1, Stored), Hold(1), Leave(1),
     Attach(1, NoMemory), Attach(0, NoMemory), EnterDestroy(0), TryDestroy(0), Leave(0)]
  }

  function Leak(mtx: Owner, nlimbo: int, leaked: nat, pc0: Pc, pc1: Pc): State {
    State(false, mtx, map[0 := 0], map[0 := Gctx(0, nlimbo, {}, ZERO, leaked)], map[], map[],
          map[0 := pc0, 1 := pc1], NoDump, 1, 0, false)
  }

  function LeakStates(): seq<State> {
    var at := Attaching(0, 0, true);
    [Init(false), Sought(), Created(), Alone(),
     Leak(Free, 1, 0, at, Seeking(0)), Leak(ByThread(1), 1, 0, at, Found(0, 0)),
     Leak(ByThread(1), 2, 0, at, Leaving(0, 0, false)), Leak(Free, 2, 0, at, Attaching(0, 0, false)),
     Leak(Free, 2, 1, at, Idle), Leak(Free, 2, 1, WantDestroy(0, None), Idle),
     Leak(ByThread(0), 2, 1, InDestroy(0, None), Idle), Leak(ByThread(0), 1, 1, LeaveMtx(None), Idle),
     Leak(Free, 1, 1, Idle, Idle)]
  }

  lemma LeakLookup()
    ensures Step(Alone(), Lookup(1, 0)) == Leak(Free, 1, 0, Attaching(0, 0, true), Seeking(0))
  {
  }

  lemma LeakEnter(pc0: Pc)
    ensures Step(Leak(Free, 1, 0, pc0, Seeking(0)), Enter(1, Stored)) == Leak(ByThread(1), 1, 0, pc0, Found(0, 0))
  {
  }

  lemma LeakHold(pc0: Pc)
    ensures Step(Leak(ByThread(1), 1, 0, pc0, Found(0, 0)), Hold(1))
            == Leak(ByThread(1), 2, 0, pc0, Leaving(0, 0, false))
  {
  }

  lemma LeakLeave(pc0: Pc)
    ensures Step(Leak(ByThread(1), 2, 0, pc0, Leaving(0, 0, false)), Leave(1))
            == Leak(Free, 2, 0, pc0, Attaching(0, 0, false))
  {
  }

  lemma LeakAttach(pc0: Pc)
    ensures Step(Leak(Free, 2, 0, pc0, Attaching(0, 0, false)), Attach(1, NoMemory)) == Leak(Free, 2, 1, pc0, Idle)
  {
  }

  lemma LeakGiveUp()
    ensures Step(Leak(Free, 2, 1, Attaching(0, 0, true), Idle), Attach(0, NoMemory))
            == Leak(Free, 2, 1, WantDestroy(0, None), Idle)
  {
  }

  lemma LeakTry()
    ensures Step(Leak(Free, 2, 1, WantDestroy(0, None), Idle), EnterDestroy(0))
            == Leak(ByThread(0), 2, 1, InDestroy(0, None), Idle)
    ensures Step(Leak(ByThread(0), 2, 1, InDestroy(0, None), Idle), TryDestroy(0))
            == Leak(ByThread(0), 1, 1, LeaveMtx(None), Idle)
  {
  }

  lemma LeakEnd()
    ensures Step(Leak(ByThread(0), 1, 1, LeaveMtx(None), Idle), Leave(0)) == Leak(Free, 1, 1, Idle, Idle)
  {
  }

  /** Two threads look up one backtrace and run out of memory: at the end both are between calls, and the
      gctx is still there, with a limbo count that nobody owns and no tctx. */
  lemma LeakRuns()
    ensures Run(Init(false), LeakActs()) == Leak(Free, 1, 1, Idle, Idle)
  {
    hide Step, Leak, Sought, Created, Alone, Init;
    ToSought();
    ToCreated();
    ToAlone();
    LeakLookup();
    LeakEnter(Attaching(0, 0, true));
    LeakHold(Attaching(0, 0, true));
    LeakLeave(Attaching(0, 0, true));
    LeakAttach(Attaching(0, 0, true));
    LeakGiveUp();
    LeakTry();
    LeakEnd();
    FollowsRun(LeakStates(), LeakActs());
  }

  // ---------------------------------------------------------------- an insertion that fails

  /** Thread 0 samples an allocation with backtrace 0.  Its lookup of backtrace 1 creates a gctx that the
      table cannot take without dropping the old entry; and the next lookup finds the freed gctx. */
  function StaleActs(): seq<Action> {
    [Lookup(0, 0), Enter(0, Stored), Leave(0), Attach(0, Stored), Link(0), Sample(0, 8), Lookup(0, 1),
     Enter(0, Displaced(0)), Leave(0), FreeGctx(0), Lookup(0, 1), Enter(0, Stored), Hold(0)]
  }

  function Cached(state: TctxState, prepared: bool, linked: set<Tid>, nlimbo: int, pc: Pc): State {
    State(false, Free, map[0 := 0], map[0 := Gctx(0, nlimbo, linked, ZERO, 0)],
          map[0 := Tctx(0, 0, state, prepared, ZERO, [], ZERO)], map[(0, 0) := 0], map[0 := pc], NoDump, 1, 1, false)
  }

  function Sampled(pc: Pc): State {
    Cached(Nominal, false, {0}, 0, pc).(tctxs := map[0 := Tctx(0, 0, Nominal, false, Cnt(1, 8, 0, 0), [8], ZERO)])
  }

  /** The table leads to gctx 1 only. */
  function Stale(mtx: Owner, there: bool, pc: Pc): State {
    var gone := Gctx(0, 0, {0}, ZERO, 0);
    State(false, mtx, map[1 := 1], if there then map[0 := gone, 1 := Gctx(1, 1, {}, ZERO, 0)] else map[0 := gone],
          map[0 := Tctx(0, 0, Nominal, false, Cnt(1, 8, 0, 0), [8], ZERO)], map[(0, 0) := 0], map[0 := pc], NoDump,
          2, 1, false)
  }

  function StaleStates(): seq<State> {
    [Init(false), Sought(), Created(), Alone(), Cached(Initializing, true, {}, 1, Inserted(0, 0, 0)),
     Cached(Nominal, true, {0}, 0, Prepared(0)), Sampled(Idle), Sampled(Seeking(1)),
     Stale(ByThread(0), true, Discarding(1)), Stale(Free, true, Freeing(1, None)), Stale(Free, false, Idle),
     Stale(Free, false, Seeking(1)), Stale(ByThread(0), false, Found(1, 1)),
     Bad(Stale(ByThread(0), false, Found(1, 1)))]
  }

  lemma StaleAttach()
    ensures Step(Alone(), Attach(0, Stored)) == Cached(Initializing, true, {}, 1, Inserted(0, 0, 0))
  {
  }

  lemma StaleLink()
    ensures Step(Cached(Initializing, true, {}, 1, Inserted(0, 0, 0)), Link(0))
            == Cached(Nominal, true, {0}, 0, Prepared(0))
  {
    assert {} + {0} == {0};
  }

  lemma StaleSample()
    ensures Step(Cached(Nominal, true, {0}, 0, Prepared(0)), Sample(0, 8)) == Sampled(Idle)
  {
    assert [] + [8] == [8];
  }

  lemma StaleLookup()
    ensures Step(Sampled(Idle), Lookup(0, 1)) == Sampled(Seeking(1))
  {
  }

  lemma StaleEnter()
    ensures Step(Sampled(Seeking(1)), Enter(0, Displaced(0))) == Stale(ByThread(0), true, Discarding(1))
  {
    assert (map[0 := 0] - {0})[1 := 1] == map[1 := 1];
  }

  lemma StaleLeave()
    ensures Step(Stale(ByThread(0), true, Discarding(1)), Leave(0)) == Stale(Free, true, Freeing(1, None))
  {
  }

  lemma StaleFree()
    ensures Step(Stale(Free, true, Freeing(1, None)), FreeGctx(0)) == Stale(Free, false, Idle)
  {
  }

  lemma StaleAgain()
    ensures Step(Stale(Free, false, Idle), Lookup(0, 1)) == Stale(Free, false, Seeking(1))
    ensures Step(Stale(Free, false, Seeking(1)), Enter(0, Stored)) == Stale(ByThread(0), false, Found(1, 1))
  {
  }

  lemma StaleHold()
    ensures Step(Stale(ByThread(0), false, Found(1, 1)), Hold(0)) == Bad(Stale(ByThread(0), false, Found(1, 1)))
  {
  }

  /** A run with one failed insertion that ends with a use of freed memory. */
  lemma StaleRuns()
    ensures Run(Init(false), StaleActs()).bad
  {
    hide Step, Stale, Sampled, Cached, Sought, Created, Alone, Init;
    ToSought();
    ToCreated();
    ToAlone();
    StaleAttach();
    StaleLink();
    StaleSample();
    StaleLookup();
    StaleEnter();
    StaleLeave();
    StaleFree();
    StaleAgain();
    StaleHold();
    FollowsRun(StaleStates(), StaleActs());
  }

  // ---------------------------------------------------------------- a read that comes too late

  /** Thread 0 samples an object; a dump by thread 1 captures its tctx; thread 0 frees the object and leaves
      the tctx in purgatory; the dump gets through with the gctx, and frees the tctx.  Thread 0 has still to
      make its check. */
  function LateActs(): seq<Action> {
    SampleActs() + DumpActs()
  }

  function SampleActs(): seq<Action> {
    [Lookup(0, 0), Enter(0, Stored), Leave(0), Attach(0, Stored), Link(0), Sample(0, 8)]
  }

  function DumpActs(): seq<Action> {
    [DumpBegin(1), DumpPrep(0), DumpPrepDone({0}), DumpLockTdata(0), DumpTctx(0), DumpUnlockTdata, DumpScanDone,
     DumpMerge(0), DumpMergeDone, FreeObject(0, 0, 0), Unlink(0), DumpOutputDone, DumpFinish(0)]
  }

  const ONE := Cnt(1, 8, 0, 0)

  function Live(state: TctxState, dumped: Cnt): Tctx {
    Tctx(0, 0, state, false, ONE, [8], dumped)
  }

  function Freed(state: TctxState): Tctx {
    Tctx(0, 0, state, false, ZERO, [], ONE)
  }

  function Dumped(phase: Phase, list: set<Gid>, all: Cnt, sum: Cnt, x: Tctx): State {
    State(false, if phase.Output? || phase.Finish? then Free else ByDump, map[0 := 0],
          map[0 := Gctx(0, if list == {} then 0 else 1, {0}, sum, 0)], map[0 := x],
          if x.objs == [] then map[] else map[(0, 0) := 0],
          map[0 := if x.objs != [] then Idle else if x.state.Dumping? then Destroying(0) else Checking(0)],
          Dump(1, phase, list, all), 1, 1, false)
  }

  function Finished(): State {
    State(false, Free, map[0 := 0], map[0 := Gctx(0, 1, {}, ONE, 0)], map[], map[],
          map[0 := Checking(0), 1 := WantDestroy(0, None)], Dump(1, Finish, {}, ONE), 1, 1, false)
  }

  function SampleStates(): seq<State> {
    [Init(false), Sought(), Created(), Alone(), Cached(Initializing, true, {}, 1, Inserted(0, 0, 0)),
     Cached(Nominal, true, {0}, 0, Prepared(0)), Sampled(Idle)]
  }

  function DumpStates(): seq<State> {
    var x := Live(Dumping, ONE);
    [Sampled(Idle),
     Dumped(Prep({0}), {}, ZERO, ZERO, Live(Nominal, ZERO)), Dumped(Prep({}), {0}, ZERO, ZERO, Live(Nominal, ZERO)),
     Dumped(Scan({0}), {0}, ZERO, ZERO, Live(Nominal, ZERO)),
     Dumped(ScanTdata({}, 0, {0}, ZERO), {0}, ZERO, ZERO, Live(Nominal, ZERO)),
     Dumped(ScanTdata({}, 0, {}, ONE), {0}, ZERO, ZERO, x), Dumped(Scan({}), {0}, ONE, ZERO, x),
     Dumped(Merge({0}), {0}, ONE, ZERO, x), Dumped(Merge({}), {0}, ONE, ONE, x), Dumped(Output, {0}, ONE, ONE, x),
     Dumped(Output, {0}, ONE, ONE, Freed(Dumping)), Dumped(Output, {0}, ONE, ONE, Freed(Purgatory)),
     Dumped(Finish, {0}, ONE, ONE, Freed(Purgatory)), Finished()]
  }

  lemma LateBegin()
    ensures Step(Sampled(Idle), DumpBegin(1)) == Dumped(Prep({0}), {}, ZERO, ZERO, Live(Nominal, ZERO))
  {
    var table: map<Bt, Gid> := map[0 := 0];
    assert Sampled(Idle).bt2gctx == table && table[0] in table.Values;
    assert table.Values == {0};
  }

  lemma LatePrep(x: Tctx)
    requires x == Live(Nominal, ZERO)
    ensures Step(Dumped(Prep({0}), {}, ZERO, ZERO, x), DumpPrep(0)) == Dumped(Prep({}), {0}, ZERO, ZERO, x)
  {
    assert {0} - {0} == {} && {} + {0} == {0};
  }

  lemma LatePrepDone(x: Tctx)
    ensures Step(Dumped(Prep({}), {0}, ZERO, ZERO, x), DumpPrepDone({0})) == Dumped(Scan({0}), {0}, ZERO, ZERO, x)
  {
  }

  lemma LateLock(x: Tctx)
    requires x == Live(Nominal, ZERO)
    ensures Step(Dumped(Scan({0}), {0}, ZERO, ZERO, x), DumpLockTdata(0))
            == Dumped(ScanTdata({}, 0, {0}, ZERO), {0}, ZERO, ZERO, x)
  {
    var s := Dumped(Scan({0}), {0}, ZERO, ZERO, x);
    assert s.bt2tctx == map[(0, 0) := 0] && {0} - {0} == {};
    var rest := set k | k in s.bt2tctx && k.0 == 0 :: s.bt2tctx[k];
    assert s.bt2tctx[(0, 0)] in rest;
    assert rest == {0};
  }

  lemma LateTctx()
    ensures Step(Dumped(ScanTdata({}, 0, {0}, ZERO), {0}, ZERO, ZERO, Live(Nominal, ZERO)), DumpTctx(0))
            == Dumped(ScanTdata({}, 0, {}, ONE), {0}, ZERO, ZERO, Live(Dumping, ONE))
  {
    var s := Dumped(ScanTdata({}, 0, {0}, ZERO), {0}, ZERO, ZERO, Live(Nominal, ZERO));
    assert s.dump == Dump(1, ScanTdata({}, 0, {0}, ZERO), {0}, ZERO);
    assert s.tctxs[0 := Live(Dumping, ONE)] == map[0 := Live(Dumping, ONE)];
    assert AddTo(ZERO, ONE, false) == ONE;
    hide AddTo;
    assert {0} - {0} == {};
  }

  lemma LateUnlock(x: Tctx)
    ensures Step(Dumped(ScanTdata({}, 0, {}, ONE), {0}, ZERO, ZERO, x), DumpUnlockTdata)
            == Dumped(Scan({}), {0}, ONE, ZERO, x)
    ensures Step(Dumped(Scan({}), {0}, ONE, ZERO, x), DumpScanDone) == Dumped(Merge({0}), {0}, ONE, ZERO, x)
  {
  }

  lemma OneCaptured(s: State)
    requires s == Dumped(Merge({0}), {0}, ONE, ZERO, Live(Dumping, ONE))
    ensures CapturedOf(s.gctxs, s.tctxs, 0) == {0} && DumpCnts(s.tctxs) == map[0 := ONE]
    ensures !Unreached(s.tctxs, s.gctxs[0])
  {
    assert 0 in CapturedOf(s.gctxs, s.tctxs, 0);
  }

  lemma OneAccumulated()
    ensures Accumulate(ZERO, {0}, map[0 := ONE], false) == ONE
  {
    assert Accumulate(AddTo(ZERO, ONE, false), {0} - {0}, map[0 := ONE], false) == ONE;
  }

  lemma LateMerge(x: Tctx)
    requires x == Live(Dumping, ONE)
    ensures Step(Dumped(Merge({0}), {0}, ONE, ZERO, x), DumpMerge(0)) == Dumped(Merge({}), {0}, ONE, ONE, x)
  {
    var s := Dumped(Merge({0}), {0}, ONE, ZERO, x);
    OneCaptured(s);
    OneAccumulated();
    hide Accumulate, CapturedOf, Unreached, DumpCnts;
    assert {0} - {0} == {};
  }

  lemma LateMerged(x: Tctx)
    ensures Step(Dumped(Merge({}), {0}, ONE, ONE, x), DumpMergeDone) == Dumped(Output, {0}, ONE, ONE, x)
  {
  }

  lemma LateFree()
    ensures Step(Dumped(Output, {0}, ONE, ONE, Live(Dumping, ONE)), FreeObject(0, 0, 0))
            == Dumped(Output, {0}, ONE, ONE, Freed(Dumping))
  {
    assert [8][..0] + [8][1..] == [];
    assert map[(0, 0) := 0] - {(0, 0)} == map[];
  }

  lemma LateUnlink()
    ensures Step(Dumped(Output, {0}, ONE, ONE, Freed(Dumping)), Unlink(0))
            == Dumped(Output, {0}, ONE, ONE, Freed(Purgatory))
  {
  }

  lemma LateOutput(x: Tctx)
    ensures Step(Dumped(Output, {0}, ONE, ONE, x), DumpOutputDone) == Dumped(Finish, {0}, ONE, ONE, x)
  {
  }

  lemma LateFinish()
    ensures Step(Dumped(Finish, {0}, ONE, ONE, Freed(Purgatory)), DumpFinish(0)) == Finished()
  {
    var s := Dumped(Finish, {0}, ONE, ONE, Freed(Purgatory));
    assert 0 in PurgatoryOf(s.gctxs, s.tctxs, 0);
    assert PurgatoryOf(s.gctxs, s.tctxs, 0) == {0} && {0} - {0} == {};
    assert !Unreached(s.tctxs, s.gctxs[0]) && !InUse(s.tctxs, {0});
    hide PurgatoryOf, Unreached, InUse;
  }

  lemma SampleRuns()
    ensures Run(Init(false), SampleActs()) == Sampled(Idle)
  {
    hide Step, Sampled, Cached, Sought, Created, Alone, Init;
    ToSought();
    ToCreated();
    ToAlone();
    StaleAttach();
    StaleLink();
    StaleSample();
    FollowsRun(SampleStates(), SampleActs());
  }

  lemma DumpRuns()
    ensures Run(Sampled(Idle), DumpActs()) == Finished()
  {
    hide Step, Sampled, Dumped, Live, Freed, Finished;
    LateBegin();
    LatePrep(Live(Nominal, ZERO));
    LatePrepDone(Live(Nominal, ZERO));
    LateLock(Live(Nominal, ZERO));
    LateTctx();
    LateUnlock(Live(Dumping, ONE));
    LateMerge(Live(Dumping, ONE));
    LateMerged(Live(Dumping, ONE));
    LateFree();
    LateUnlink();
    LateOutput(Freed(Purgatory));
    LateFinish();
    FollowsRun(DumpStates(), DumpActs());
  }

  /** A run without any failure in which the check reads a freed tctx. */
  lemma LateRuns()
    ensures Clean(LateActs()) && ReadsFreed(Run(Init(false), LateActs()), Check(0))
  {
    LateClean();
    LateRead();
    hide *;
    SampleRuns();
    DumpRuns();
    Append(Init(false), SampleActs(), DumpActs());
    LateActsAre();
  }

  lemma LateActsAre()
    ensures LateActs() == SampleActs() + DumpActs()
  {
  }

  lemma LateClean()
    ensures Clean(LateActs())
  {
  }

  lemma LateRead()
    ensures ReadsFreed(Finished(), Check(0))
  {
  }
}
