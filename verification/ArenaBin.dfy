/**
 One small bin of an arena: runs of `nregs` regions each, the current run, the heap of partly used
 runs, and the threads that allocate and free regions.  The bin lock is dropped while a thread
 obtains or gives back the pages of a run; the steps below are the stretches between those points.
 A run is named by a number, and numbers are ordered as arena_snad_comp() orders runs.
 */
module ArenaBin {
  import opened Wrappers

  datatype Run = Run(nfree: nat, bits: seq<bool>)

  /** A region: its run, and its index there. */
  type Region = (nat, nat)

  datatype Bin = Bin(runs: map<nat, Run>, runcur: Option<nat>, heap: set<nat>, taken: set<Region>)

  /** Where a thread is: between calls, without the lock in arena_bin_nonfull_run_get() before and after
      the arena was asked for a run, or without it in arena_dalloc_bin_run(). */
  datatype Pc = Idle | NeedRun | HaveRun(run: nat) | NoRun | Releasing(run: nat)

  datatype State = State(bin: Bin, threads: map<nat, Pc>)

  datatype Event = Out(region: Region) | Back(region: Region) | Released(run: nat)

  datatype Action =
    | Malloc(t: nat)
    | RunAlloc(t: nat, run: nat)
    | RunAllocFails(t: nat)
    | Resume(t: nat)
    | Dalloc(t: nat, region: Region)
    | Release(t: nat)

  // ---------------------------------------------------------------- bitmaps

  function Clear(bits: seq<bool>): (c: nat)
    ensures c <= |bits|
  {
    if bits == [] then 0 else (if bits[0] then 0 else 1) + Clear(bits[1..])
  }

  /** bitmap_sfu(): the least clear bit. */
  function Lowest(bits: seq<bool>): (i: nat)
    requires Clear(bits) > 0
    ensures i < |bits| && !bits[i] && forall k :: 0 <= k < i ==> bits[k]
  {
    if !bits[0] then 0 else 1 + Lowest(bits[1..])
  }

  lemma {:induction false} ClearUpdate(bits: seq<bool>, i: nat, b: bool)
    requires i < |bits| && bits[i] != b
    ensures Clear(bits[i := b]) == if b then Clear(bits) - 1 else Clear(bits) + 1
  {
    if i > 0 {
      assert bits[i := b][1..] == bits[1..][i - 1 := b];
      ClearUpdate(bits[1..], i - 1, b);
    } else {
      assert bits[i := b][1..] == bits[1..];
    }
  }

  lemma {:induction false} ClearAll(bits: seq<bool>)
    ensures Clear(bits) == |bits| <==> forall i :: 0 <= i < |bits| ==> !bits[i]
    ensures Clear(bits) == 0 <==> forall i :: 0 <= i < |bits| ==> bits[i]
  {
    if bits != [] {
      ClearAll(bits[1..]);
      assert forall i :: 0 < i < |bits| ==> bits[i] == bits[1..][i - 1];
    }
  }

  // ---------------------------------------------------------------- the pieces of the code

  /** What arena_run_reg_alloc() asserts. */
  predicate CanAlloc(b: Bin, r: nat) {
    r in b.runs && b.runs[r].nfree > 0 && Clear(b.runs[r].bits) > 0
  }

  /** The region that arena_run_reg_alloc() hands out. */
  function Next(b: Bin, r: nat): Region
    requires CanAlloc(b, r)
  {
    (r, Lowest(b.runs[r].bits))
  }

  function RegAlloc(b: Bin, r: nat): Bin
    requires CanAlloc(b, r)
  {
    var run, x := b.runs[r], Next(b, r);
    b.(runs := b.runs[r := Run(run.nfree - 1, run.bits[x.1 := true])], taken := b.taken + {x})
  }

  /** What arena_run_reg_dalloc() asserts. */
  predicate CanDalloc(nregs: nat, b: Bin, x: Region) {
    && x.0 in b.runs && b.runs[x.0].nfree < nregs
    && x.1 < |b.runs[x.0].bits| && b.runs[x.0].bits[x.1]
  }

  function RegDalloc(b: Bin, x: Region): Bin
    requires x.0 in b.runs && x.1 < |b.runs[x.0].bits|
  {
    var run := b.runs[x.0];
    b.(runs := b.runs[x.0 := Run(run.nfree + 1, run.bits[x.1 := false])], taken := b.taken - {x})
  }

  /** Nothing enters the heap twice. */
  predicate CanLower(b: Bin, r: nat) {
    && (b.runcur.Some? ==> b.runcur.value in b.runs)
    && (Demotes(b, r) ==> b.runcur.value !in b.heap) && (!Demotes(b, r) ==> r !in b.heap)
  }

  predicate Demotes(b: Bin, r: nat) {
    b.runcur.Some? && b.runcur.value > r
  }

  /** arena_bin_lower_run() */
  function LowerRun(b: Bin, r: nat): Bin
    requires CanLower(b, r)
  {
    if Demotes(b, r) then
      var cur := b.runcur.value;
      b.(heap := if b.runs[cur].nfree > 0 then b.heap + {cur} else b.heap, runcur := Some(r))
    else
      b.(heap := b.heap + {r})
  }

  /** arena_dissociate_bin_run() removes from the heap only what is there. */
  predicate CanDissociate(nregs: nat, b: Bin, r: nat) {
    b.runcur == Some(r) || nregs == 1 || r in b.heap
  }

  function Dissociate(nregs: nat, b: Bin, r: nat): Bin {
    if b.runcur == Some(r) then b.(runcur := None)
    else if nregs != 1 then b.(heap := b.heap - {r})
    else b
  }

  predicate IsFirst(h: set<nat>, r: nat) {
    r in h && forall k :: k in h ==> r <= k
  }

  lemma {:induction false} FirstExists(h: set<nat>)
    requires h != {}
    ensures exists r: nat :: IsFirst(h, r)
  {
    var r :| r in h;
    if h - {r} == {} {
      assert h == {r};
      assert IsFirst(h, r);
    } else {
      FirstExists(h - {r});
      var s: nat :| IsFirst(h - {r}, s);
      assert forall k :: k in h ==> k == r || k in h - {r};
      assert IsFirst(h, if r < s then r else s);
    }
  }

  /** The run that arena_bin_nonfull_run_tryget() takes: the oldest, lowest one. */
  ghost function First(h: set<nat>): (r: nat)
    requires h != {}
    ensures IsFirst(h, r)
  {
    FirstExists(h);
    var r: nat :| IsFirst(h, r);
    r
  }

  // ---------------------------------------------------------------- stretches under the lock

  /** What a stretch comes to: the bin, where the thread is then, and what happened; or a failed
      assertion of the code. */
  datatype Outcome = Outcome(bin: Bin, pc: Pc, events: seq<Event>) | Bad

  /** The test on `runcur` before the fast path. */
  predicate HasRoom(b: Bin) {
    b.runcur.Some? && b.runcur.value in b.runs && b.runs[b.runcur.value].nfree > 0
  }

  function AllocFrom(b: Bin, r: nat): Outcome {
    if CanAlloc(b, r) then Outcome(RegAlloc(b, r), Idle, [Out(Next(b, r))]) else Bad
  }

  /** The end of arena_bin_malloc_hard(), with `run` in hand. */
  function Finish(nregs: nat, b: Bin, run: Option<nat>): Outcome {
    if HasRoom(b) then
      var o := AllocFrom(b, b.runcur.value);
      if o.Bad? || run.None? then o
      else if run.value !in b.runs || b.runcur == run then Bad
      else if b.runs[run.value].nfree == nregs then o.(pc := Releasing(run.value))
      else if CanLower(o.bin, run.value) then o.(bin := LowerRun(o.bin, run.value))
      else Bad
    else if run.None? then Outcome(b, Idle, [])
    else AllocFrom(b.(runcur := run), run.value)
  }

  /** arena_malloc_small(), to its end or to where the lock is dropped for want of a run. */
  ghost function MallocStep(nregs: nat, b: Bin): Outcome {
    if HasRoom(b) then AllocFrom(b, b.runcur.value)
    else
      var b1 := b.(runcur := None);
      if b.heap == {} then Outcome(b1, NeedRun, [])
      else Finish(nregs, b1.(heap := b.heap - {First(b.heap)}), Some(First(b.heap)))
  }

  /** The lock was retaken, with the run that the arena gave, or without one. */
  ghost function ResumeStep(nregs: nat, b: Bin, run: Option<nat>): Outcome {
    if run.Some? || b.heap == {} then Finish(nregs, b, run)
    else Finish(nregs, b.(heap := b.heap - {First(b.heap)}), Some(First(b.heap)))
  }

  /** arena_dalloc_bin_locked_impl() */
  function DallocStep(nregs: nat, b: Bin, x: Region): Outcome {
    if !CanDalloc(nregs, b, x) then Bad
    else
      var b1, r := RegDalloc(b, x), x.0;
      if b1.runs[r].nfree == nregs then
        if CanDissociate(nregs, b1, r) then Outcome(Dissociate(nregs, b1, r), Releasing(r), [Back(x)]) else Bad
      else if b1.runs[r].nfree == 1 && b1.runcur != Some(r) then
        if CanLower(b1, r) then Outcome(LowerRun(b1, r), Idle, [Back(x)]) else Bad
      else Outcome(b1, Idle, [Back(x)])
  }

  // ---------------------------------------------------------------- the whole machine

  /** The program frees only regions that it was given, and the arena gives only pages that are not in
      use. */
  predicate Enabled(s: State, a: Action) {
    && a.t in s.threads
    && match a
       case Malloc(t) => s.threads[t] == Idle
       case RunAlloc(t, run) => s.threads[t] == NeedRun && run !in s.bin.runs
       case RunAllocFails(t) => s.threads[t] == NeedRun
       case Resume(t) => s.threads[t].HaveRun? || s.threads[t] == NoRun
       case Dalloc(t, region) => s.threads[t] == Idle && region in s.bin.taken
       case Release(t) => s.threads[t].Releasing?
  }

  ghost function Do(nregs: nat, s: State, a: Action): Outcome
    requires Enabled(s, a)
  {
    var b := s.bin;
    match a
    case Malloc(t) => MallocStep(nregs, b)
    case RunAlloc(t, run) =>
      Outcome(b.(runs := b.runs[run := Run(nregs, seq(nregs, i => false))]), HaveRun(run), [])
    case RunAllocFails(t) => Outcome(b, NoRun, [])
    case Resume(t) =>
      ResumeStep(nregs, b, if s.threads[t].HaveRun? then Some(s.threads[t].run) else None)
    case Dalloc(t, region) => DallocStep(nregs, b, region)
    case Release(t) =>
      var r := s.threads[t].run;
      Outcome(b.(runs := b.runs - {r}), Idle, [Released(r)])
  }

  ghost function Step(nregs: nat, s: State, a: Action): State
    requires Enabled(s, a) && Do(nregs, s, a).Outcome?
  {
    var o := Do(nregs, s, a);
    State(o.bin, s.threads[a.t := o.pc])
  }

  // ---------------------------------------------------------------- the invariant

  /** `nfree` counts the clear bits, and a bit is set exactly when its region is with the program. */
  ghost predicate RunOk(nregs: nat, run: Run, r: nat, taken: set<Region>) {
    && |run.bits| == nregs && run.nfree == Clear(run.bits)
    && forall i: nat :: i < nregs ==> (run.bits[i] <==> (r, i) in taken)
  }

  /** The heap holds the partly used runs other than the current one and the one in hand. */
  ghost predicate HeapExact(nregs: nat, b: Bin, hand: Option<nat>) {
    forall r :: r in b.heap <==>
      r in b.runs && 0 < b.runs[r].nfree < nregs && b.runcur != Some(r) && hand != Some(r)
  }

  ghost predicate RunsOk(nregs: nat, b: Bin) {
    && (forall r :: r in b.runs ==> RunOk(nregs, b.runs[r], r, b.taken))
    && (forall x :: x in b.taken ==> x.0 in b.runs && x.1 < nregs)
  }

  /** The unused runs are those that threads hold, besides the one in hand. */
  ghost predicate UnusedHeld(nregs: nat, b: Bin, hand: Option<nat>, held: set<nat>) {
    && (forall r :: r in held ==> r in b.runs && b.runs[r].nfree == nregs && hand != Some(r))
    && (forall r :: r in b.runs && b.runs[r].nfree == nregs ==> r in held || hand == Some(r))
  }

  ghost predicate BinOk(nregs: nat, b: Bin, hand: Option<nat>, held: set<nat>) {
    && RunsOk(nregs, b) && HeapExact(nregs, b, hand) && UnusedHeld(nregs, b, hand, held)
    && (b.runcur.Some? ==>
          b.runcur.value in b.runs && b.runs[b.runcur.value].nfree < nregs && hand != b.runcur)
    && (hand.Some? ==> hand.value in b.runs && b.runs[hand.value].nfree > 0)
  }

  function Held(pc: Pc): Option<nat> {
    if pc.HaveRun? || pc.Releasing? then Some(pc.run) else None
  }

  /** Each held run is in the hands of exactly one thread. */
  ghost predicate ThreadsOk(threads: map<nat, Pc>, held: set<nat>) {
    && (forall t :: t in threads && Held(threads[t]).Some? ==> Held(threads[t]).value in held)
    && (forall r :: r in held ==> exists t :: t in threads && Held(threads[t]) == Some(r))
    && (forall t, u :: t in threads && u in threads && Held(threads[t]).Some? && Held(threads[t]) == Held(threads[u])
          ==> t == u)
  }

  ghost predicate Inv(nregs: nat, s: State) {
    exists held :: BinOk(nregs, s.bin, None, held) && ThreadsOk(s.threads, held)
  }

  // ---------------------------------------------------------------- the pieces keep it

  lemma RegAllocRuns(nregs: nat, b: Bin, r: nat)
    requires RunsOk(nregs, b) && r in b.runs && b.runs[r].nfree > 0
    ensures CanAlloc(b, r)
    ensures Next(b, r) !in b.taken && RunsOk(nregs, RegAlloc(b, r))
  {
    var run, x := b.runs[r], Next(b, r);
    assert RunOk(nregs, run, r, b.taken);
    ClearUpdate(run.bits, x.1, true);
    var b' := RegAlloc(b, r);
    forall k | k in b'.runs ensures RunOk(nregs, b'.runs[k], k, b'.taken) {
      assert RunOk(nregs, b.runs[k], k, b.taken);
    }
  }

  lemma RegDallocRuns(nregs: nat, b: Bin, x: Region)
    requires RunsOk(nregs, b) && x in b.taken
    ensures CanDalloc(nregs, b, x) && RunsOk(nregs, RegDalloc(b, x))
  {
    var run := b.runs[x.0];
    assert RunOk(nregs, run, x.0, b.taken);
    ClearAll(run.bits);
    ClearUpdate(run.bits, x.1, false);
    var b' := RegDalloc(b, x);
    forall k | k in b'.runs ensures RunOk(nregs, b'.runs[k], k, b'.taken) {
      assert RunOk(nregs, b.runs[k], k, b.taken);
    }
  }

  /** Allocating from the current run. */
  lemma AllocCurrent(nregs: nat, b: Bin, hand: Option<nat>, held: set<nat>)
    requires BinOk(nregs, b, hand, held) && HasRoom(b)
    ensures CanAlloc(b, b.runcur.value) && Next(b, b.runcur.value) !in b.taken
    ensures BinOk(nregs, RegAlloc(b, b.runcur.value), hand, held)
  {
    RegAllocRuns(nregs, b, b.runcur.value);
    hide RunsOk, Next;
  }

  /** The run in hand becomes the current run, and serves. */
  lemma AllocHand(nregs: nat, b: Bin, r: nat, held: set<nat>)
    requires BinOk(nregs, b, Some(r), held) && !HasRoom(b)
    ensures CanAlloc(b.(runcur := Some(r)), r) && Next(b.(runcur := Some(r)), r) !in b.taken
    ensures BinOk(nregs, RegAlloc(b.(runcur := Some(r)), r), None, held)
  {
    RegAllocRuns(nregs, b.(runcur := Some(r)), r);
    hide RunsOk, Next;
  }

  lemma LowerOk(nregs: nat, b: Bin, r: nat, held: set<nat>)
    requires BinOk(nregs, b, Some(r), held) && b.runs[r].nfree < nregs
    ensures CanLower(b, r) && BinOk(nregs, LowerRun(b, r), None, held)
  {
    hide RunOk;
  }

  // ---------------------------------------------------------------- the stretches keep it

  /** The runs that threads hold after a stretch. */
  function HeldAfter(o: Outcome, held: set<nat>): set<nat>
    requires o.Outcome?
  {
    if o.pc.Releasing? then held + {o.pc.run} else held
  }

  ghost predicate Good(nregs: nat, o: Outcome, taken: set<Region>, held: set<nat>) {
    && o.Outcome? && BinOk(nregs, o.bin, None, HeldAfter(o, held))
    && (o.pc.Releasing? ==> o.pc.run !in held) && !o.pc.HaveRun?
    && Plays(taken, o.events, o.bin.taken)
  }

  /** The events lead from one set of regions with the program to another: a region is handed out only
      when the program does not have it, taken back only when it does, and a run is released only when
      the program has none of its regions. */
  ghost predicate Plays(taken: set<Region>, events: seq<Event>, taken': set<Region>)
    decreases |events|
  {
    if events == [] then taken == taken'
    else
      var last, early := events[|events| - 1], events[..|events| - 1];
      match last
      case Out(x) => x in taken' && Plays(taken, early, taken' - {x})
      case Back(x) => x !in taken' && Plays(taken, early, taken' + {x})
      case Released(r) => (forall i :: (r, i) !in taken') && Plays(taken, early, taken')
  }

  lemma PlaysOne(taken: set<Region>, e: Event, taken': set<Region>)
    requires match e
             case Out(x) => x !in taken && taken' == taken + {x}
             case Back(x) => x in taken && taken' == taken - {x}
             case Released(r) => taken' == taken && forall i: nat :: (r, i) !in taken
    ensures Plays(taken, [e], taken')
  {
    assert [e][..0] == [];
    assert e.Out? ==> taken' - {e.region} == taken;
    assert e.Back? ==> taken' + {e.region} == taken;
  }

  lemma AllocGood(nregs: nat, b: Bin, held: set<nat>)
    requires BinOk(nregs, b, None, held) && HasRoom(b)
    ensures Good(nregs, AllocFrom(b, b.runcur.value), b.taken, held)
  {
    AllocCurrent(nregs, b, None, held);
    var x := Next(b, b.runcur.value);
    PlaysOne(b.taken, Out(x), b.taken + {x});
    hide BinOk, Plays, Next;
  }

  /** The run in hand is unused: it goes to the thread that will release it. */
  lemma HandHeld(nregs: nat, b: Bin, r: nat, held: set<nat>)
    requires BinOk(nregs, b, Some(r), held) && b.runs[r].nfree == nregs
    ensures r !in held && BinOk(nregs, b, None, held + {r})
  {
    hide RunOk;
  }

  lemma FinishGood(nregs: nat, b: Bin, run: Option<nat>, held: set<nat>)
    requires BinOk(nregs, b, run, held)
    ensures Good(nregs, Finish(nregs, b, run), b.taken, held)
  {
    if HasRoom(b) {
      if run.None? {
        AllocGood(nregs, b, held);
      } else {
        FinishBoth(nregs, b, run.value, held);
      }
    } else if run.Some? {
      AllocHand(nregs, b, run.value, held);
      var b1 := b.(runcur := run);
      var x := Next(b1, run.value);
      PlaysOne(b.taken, Out(x), b.taken + {x});
      hide BinOk, Plays, Next;
    }
  }

  /** The current run serves, and a run is in hand. */
  lemma FinishBoth(nregs: nat, b: Bin, r: nat, held: set<nat>)
    requires BinOk(nregs, b, Some(r), held) && HasRoom(b)
    ensures Good(nregs, Finish(nregs, b, Some(r)), b.taken, held)
  {
    AllocCurrent(nregs, b, Some(r), held);
    var x := Next(b, b.runcur.value);
    PlaysOne(b.taken, Out(x), b.taken + {x});
    HandOf(nregs, b, r, held);
    hide BinOk, Plays, Next, CanAlloc, LowerRun, CanLower;
    var b1 := RegAlloc(b, b.runcur.value);
    if b.runs[r].nfree == nregs {
      HandHeld(nregs, b1, r, held);
    } else {
      HandOf(nregs, b1, r, held);
      LowerOk(nregs, b1, r, held);
      LowerTaken(b1, r);
    }
  }

  lemma LowerTaken(b: Bin, r: nat)
    requires CanLower(b, r)
    ensures LowerRun(b, r).taken == b.taken
  {
  }

  lemma HandOf(nregs: nat, b: Bin, r: nat, held: set<nat>)
    requires BinOk(nregs, b, Some(r), held)
    ensures r in b.runs && b.runcur != Some(r) && b.runs[r].nfree <= nregs
  {
    assert RunOk(nregs, b.runs[r], r, b.taken);
  }

  /** A full current run is no longer current. */
  lemma Uncur(nregs: nat, b: Bin, held: set<nat>)
    requires BinOk(nregs, b, None, held) && !HasRoom(b)
    ensures BinOk(nregs, b.(runcur := None), None, held)
  {
    hide RunOk;
  }

  lemma TrygetOk(nregs: nat, b: Bin, held: set<nat>)
    requires BinOk(nregs, b, None, held) && b.heap != {}
    ensures BinOk(nregs, b.(heap := b.heap - {First(b.heap)}), Some(First(b.heap)), held)
  {
    hide RunOk;
  }

  lemma MallocGood(nregs: nat, b: Bin, held: set<nat>)
    requires BinOk(nregs, b, None, held)
    ensures Good(nregs, MallocStep(nregs, b), b.taken, held)
  {
    hide BinOk;
    if HasRoom(b) {
      AllocGood(nregs, b, held);
    } else {
      Uncur(nregs, b, held);
      var b1 := b.(runcur := None);
      if b.heap != {} {
        TrygetOk(nregs, b1, held);
        FinishGood(nregs, b1.(heap := b.heap - {First(b.heap)}), Some(First(b.heap)), held);
      }
    }
  }

  lemma ResumeGood(nregs: nat, b: Bin, run: Option<nat>, held: set<nat>)
    requires BinOk(nregs, b, run, held)
    ensures Good(nregs, ResumeStep(nregs, b, run), b.taken, held)
  {
    hide BinOk;
    if run.Some? || b.heap == {} {
      FinishGood(nregs, b, run, held);
    } else {
      TrygetOk(nregs, b, held);
      FinishGood(nregs, b.(heap := b.heap - {First(b.heap)}), Some(First(b.heap)), held);
    }
  }

  /** A region comes back: the last one of a run takes the run out of the bin. */
  lemma DallocLast(nregs: nat, b: Bin, x: Region, held: set<nat>)
    requires BinOk(nregs, b, None, held) && x in b.taken && x.0 in b.runs && x.1 < |b.runs[x.0].bits|
    requires b.runs[x.0].nfree + 1 == nregs
    ensures var b1 := RegDalloc(b, x);
            && CanDissociate(nregs, b1, x.0) && x.0 !in held
            && BinOk(nregs, Dissociate(nregs, b1, x.0), None, held + {x.0})
  {
    RegDallocRuns(nregs, b, x);
    hide RunOk, RunsOk;
  }

  /** The first free region of a full run makes it usable again. */
  lemma DallocFirst(nregs: nat, b: Bin, x: Region, held: set<nat>)
    requires BinOk(nregs, b, None, held) && x in b.taken && x.0 in b.runs && x.1 < |b.runs[x.0].bits|
    requires b.runs[x.0].nfree == 0 && nregs > 1 && b.runcur != Some(x.0)
    ensures BinOk(nregs, RegDalloc(b, x), Some(x.0), held)
  {
    RegDallocRuns(nregs, b, x);
    hide RunOk, RunsOk;
  }

  lemma DallocMiddle(nregs: nat, b: Bin, x: Region, held: set<nat>)
    requires BinOk(nregs, b, None, held) && x in b.taken && x.0 in b.runs && x.1 < |b.runs[x.0].bits|
    requires b.runs[x.0].nfree + 1 < nregs && (b.runs[x.0].nfree > 0 || b.runcur == Some(x.0))
    ensures BinOk(nregs, RegDalloc(b, x), None, held)
  {
    RegDallocRuns(nregs, b, x);
    hide RunOk, RunsOk;
  }

  lemma DallocGood(nregs: nat, b: Bin, x: Region, held: set<nat>)
    requires BinOk(nregs, b, None, held) && x in b.taken
    ensures Good(nregs, DallocStep(nregs, b, x), b.taken, held)
  {
    RegDallocRuns(nregs, b, x);
    PlaysOne(b.taken, Back(x), b.taken - {x});
    hide BinOk, Plays, LowerRun, CanLower, CanDissociate;
    var b1, r := RegDalloc(b, x), x.0;
    if b1.runs[r].nfree == nregs {
      DallocLast(nregs, b, x, held);
    } else if b1.runs[r].nfree == 1 && b1.runcur != Some(r) {
      DallocFirst(nregs, b, x, held);
      LowerOk(nregs, b1, r, held);
      LowerTaken(b1, r);
    } else {
      DallocMiddle(nregs, b, x, held);
    }
  }

  // ---------------------------------------------------------------- runs of the machine

  lemma TakeHand(nregs: nat, b: Bin, r: nat, held: set<nat>)
    requires BinOk(nregs, b, None, held) && r in held && nregs > 0
    ensures BinOk(nregs, b, Some(r), held - {r})
  {
    hide RunOk;
  }

  lemma NewRun(nregs: nat, b: Bin, r: nat, held: set<nat>)
    requires BinOk(nregs, b, None, held) && r !in b.runs && nregs > 0
    ensures var b' := b.(runs := b.runs[r := Run(nregs, seq(nregs, i => false))]);
            r !in held && BinOk(nregs, b', None, held + {r})
  {
    var run := Run(nregs, seq(nregs, i => false));
    ClearAll(run.bits);
    assert RunOk(nregs, run, r, b.taken);
    hide RunOk;
  }

  lemma ReleaseOk(nregs: nat, b: Bin, r: nat, held: set<nat>)
    requires BinOk(nregs, b, None, held) && r in held
    ensures forall i: nat :: (r, i) !in b.taken
    ensures BinOk(nregs, b.(runs := b.runs - {r}), None, held - {r})
  {
    var run := b.runs[r];
    assert RunOk(nregs, run, r, b.taken);
    ClearAll(run.bits);
    hide RunOk;
  }

  /** The runs that the other threads hold, and those held after thread `t` comes to `pc`. */
  function Others(s: State, t: nat, held: set<nat>): set<nat>
    requires t in s.threads
  {
    match Held(s.threads[t]) case Some(r) => held - {r} case None => held
  }

  function With(others: set<nat>, pc: Pc): set<nat> {
    match Held(pc) case Some(r) => others + {r} case None => others
  }

  /** What one action makes of the bin, given the runs that the threads hold. */
  ghost predicate Kept(nregs: nat, taken: set<Region>, o: Outcome, others: set<nat>) {
    && o.Outcome? && Plays(taken, o.events, o.bin.taken)
    && (Held(o.pc).Some? ==> Held(o.pc).value !in others) && BinOk(nregs, o.bin, None, With(others, o.pc))
  }

  lemma GoodKept(nregs: nat, o: Outcome, taken: set<Region>, held: set<nat>)
    requires Good(nregs, o, taken, held)
    ensures Kept(nregs, taken, o, held)
  {
    hide BinOk, Plays;
  }

  lemma DoKept(nregs: nat, s: State, a: Action, held: set<nat>)
    requires nregs > 0 && BinOk(nregs, s.bin, None, held) && ThreadsOk(s.threads, held) && Enabled(s, a)
    ensures Kept(nregs, s.bin.taken, Do(nregs, s, a), Others(s, a.t, held))
  {
    var b, pc := s.bin, s.threads[a.t];
    assert Held(pc).Some? ==> pc.run in held;
    hide BinOk, ThreadsOk, MallocStep, ResumeStep, DallocStep, Good, Clear;
    match a
    case Malloc(t) =>
      MallocGood(nregs, b, held);
      GoodKept(nregs, MallocStep(nregs, b), b.taken, held);
    case RunAlloc(t, r) =>
      NewRun(nregs, b, r, held);
    case RunAllocFails(t) =>
    case Resume(t) =>
      if pc.HaveRun? {
        TakeHand(nregs, b, pc.run, held);
        ResumeGood(nregs, b, Some(pc.run), held - {pc.run});
        GoodKept(nregs, ResumeStep(nregs, b, Some(pc.run)), b.taken, held - {pc.run});
      } else {
        ResumeGood(nregs, b, None, held);
        GoodKept(nregs, ResumeStep(nregs, b, None), b.taken, held);
      }
    case Dalloc(t, x) =>
      DallocGood(nregs, b, x, held);
      GoodKept(nregs, DallocStep(nregs, b, x), b.taken, held);
    case Release(t) =>
      ReleaseOk(nregs, b, pc.run, held);
      PlaysOne(b.taken, Released(pc.run), b.taken);
  }

  lemma ThreadsStep(s: State, held: set<nat>, t: nat, pc: Pc)
    requires ThreadsOk(s.threads, held) && t in s.threads
    requires Held(pc).Some? ==> Held(pc).value !in Others(s, t, held)
    ensures ThreadsOk(s.threads[t := pc], With(Others(s, t, held), pc))
  {
    var held', threads' := With(Others(s, t, held), pc), s.threads[t := pc];
    forall r | r in held' ensures exists u :: u in threads' && Held(threads'[u]) == Some(r) {
      if Held(pc) == Some(r) {
        assert t in threads' && Held(threads'[t]) == Some(r);
      } else {
        var u :| u in s.threads && Held(s.threads[u]) == Some(r);
        assert u in threads' && Held(threads'[u]) == Some(r);
      }
    }
  }

  /** Every action that can happen passes the assertions of the code and keeps the invariant. */
  lemma KeepStep(nregs: nat, s: State, a: Action)
    requires nregs > 0 && Inv(nregs, s) && Enabled(s, a)
    ensures Do(nregs, s, a).Outcome? && Inv(nregs, Step(nregs, s, a))
    ensures Plays(s.bin.taken, Do(nregs, s, a).events, Step(nregs, s, a).bin.taken)
  {
    hide BinOk, ThreadsOk, Do, Plays;
    var held :| BinOk(nregs, s.bin, None, held) && ThreadsOk(s.threads, held);
    DoKept(nregs, s, a, held);
    ThreadsStep(s, held, a.t, Do(nregs, s, a).pc);
  }

  /** A bin without runs, and threads that are between calls. */
  ghost predicate Start(s: State) {
    s.bin == Bin(map[], None, {}, {}) && forall t :: t in s.threads ==> s.threads[t] == Idle
  }

  /** `s` is reached from `s0` by `actions`, and `events` happened on the way. */
  ghost predicate Reaches(nregs: nat, s0: State, actions: seq<Action>, events: seq<Event>, s: State)
    decreases |actions|
  {
    if actions == [] then events == [] && s == s0
    else
      var n := |actions| - 1;
      exists mid, early ::
        && Reaches(nregs, s0, actions[..n], early, mid) && Enabled(mid, actions[n])
        && Do(nregs, mid, actions[n]).Outcome? && s == Step(nregs, mid, actions[n])
        && events == early + Do(nregs, mid, actions[n]).events
  }

  lemma {:induction false} PlaysJoin(x: set<Region>, es: seq<Event>, y: set<Region>, fs: seq<Event>, z: set<Region>)
    requires Plays(x, es, y) && Plays(y, fs, z)
    ensures Plays(x, es + fs, z)
    decreases |fs|
  {
    if fs == [] {
      assert es + fs == es;
    } else {
      var n := |fs| - 1;
      assert (es + fs)[..|es + fs| - 1] == es + fs[..n];
      match fs[n]
      case Out(r) => PlaysJoin(x, es, y, fs[..n], z - {r});
      case Back(r) => PlaysJoin(x, es, y, fs[..n], z + {r});
      case Released(r) => PlaysJoin(x, es, y, fs[..n], z);
    }
  }

  /** Over every interleaving the invariant holds, and the events play out. */
  lemma {:induction false} KeepRun(nregs: nat, s0: State, actions: seq<Action>, events: seq<Event>, s: State)
    requires nregs > 0 && Start(s0) && Reaches(nregs, s0, actions, events, s)
    ensures Inv(nregs, s) && Plays({}, events, s.bin.taken)
    decreases |actions|
  {
    if actions == [] {
      assert BinOk(nregs, s.bin, None, {}) && ThreadsOk(s.threads, {});
    } else {
      var n := |actions| - 1;
      var mid, early :|
        && Reaches(nregs, s0, actions[..n], early, mid) && Enabled(mid, actions[n])
        && Do(nregs, mid, actions[n]).Outcome? && s == Step(nregs, mid, actions[n])
        && events == early + Do(nregs, mid, actions[n]).events;
      hide Inv, Reaches, Do, Plays;
      KeepRun(nregs, s0, actions[..n], early, mid);
      KeepStep(nregs, mid, actions[n]);
      PlaysJoin({}, early, mid.bin.taken, Do(nregs, mid, actions[n]).events, s.bin.taken);
    }
  }

  /** A region that was handed out is handed out again, or its run released, only after it came back. */
  lemma {:induction false} HandedOutOnce(taken: set<Region>, events: seq<Event>, x: Region, i: nat)
    requires Plays({}, events, taken) && i < |events| && events[i] == Out(x)
    requires forall k :: i < k < |events| ==> events[k] != Back(x)
    ensures x in taken
    ensures forall k :: i < k < |events| ==> events[k] != Out(x) && events[k] != Released(x.0)
    decreases |events|
  {
    var n := |events| - 1;
    if i < n {
      var early := events[..n];
      var before := match events[n]
        case Out(r) => taken - {r}
        case Back(r) => taken + {r}
        case Released(r) => taken;
      assert early[i] == Out(x) && forall k :: i < k < n ==> early[k] == events[k];
      HandedOutOnce(before, early, x, i);
      assert events[n] == Released(x.0) ==> (x.0, x.1) !in taken;
    }
  }

  lemma {:induction false} PlaysPrefix(a: set<Region>, events: seq<Event>, b: set<Region>, n: nat)
    returns (t: set<Region>)
    requires Plays(a, events, b) && n <= |events|
    ensures Plays(a, events[..n], t)
    decreases |events|
  {
    if n == |events| {
      assert events[..n] == events;
      t := b;
    } else {
      var m := |events| - 1;
      var before := match events[m]
        case Out(r) => b - {r}
        case Back(r) => b + {r}
        case Released(r) => b;
      t := PlaysPrefix(a, events[..m], before, n);
      assert events[..m][..n] == events[..n];
    }
  }

  lemma BackBetween(events: seq<Event>, taken: set<Region>, x: Region, i: nat, j: nat)
    requires Plays({}, events, taken) && i < j < |events| && events[i] == Out(x)
    requires events[j] == Out(x) || events[j] == Released(x.0)
    ensures exists k :: i < k < j && events[k] == Back(x)
  {
    var before := PlaysPrefix({}, events, taken, j + 1);
    var upto := events[..j + 1];
    assert upto[i] == events[i] && upto[j] == events[j];
    if forall k :: i < k < |upto| ==> upto[k] != Back(x) {
      HandedOutOnce(before, upto, x, i);
      assert false;
    }
    var k :| i < k < |upto| && upto[k] == Back(x);
    assert events[k] == Back(x);
  }

  /** The property of the bin, over every interleaving of its threads: between two events that hand out
      one region, and between handing out a region and releasing its run, the region came back. */
  lemma NoRegionTwice(nregs: nat, s0: State, actions: seq<Action>, events: seq<Event>, s: State,
                      x: Region, i: nat, j: nat)
    requires nregs > 0 && Start(s0) && Reaches(nregs, s0, actions, events, s)
    requires i < j < |events| && events[i] == Out(x) && (events[j] == Out(x) || events[j] == Released(x.0))
    ensures exists k :: i < k < j && events[k] == Back(x)
  {
    hide Reaches, Plays, Inv, Start;
    KeepRun(nregs, s0, actions, events, s);
    BackBetween(events, s.bin.taken, x, i, j);
  }

  /** The heap holds exactly the partly used runs other than the current one, whatever the threads are
      at; and a run is held by a thread exactly when all its regions are free. */
  lemma HeapHolds(nregs: nat, s: State, r: nat)
    requires nregs > 0 && Inv(nregs, s)
    ensures r in s.bin.heap <==>
              r in s.bin.runs && 0 < s.bin.runs[r].nfree < nregs && s.bin.runcur != Some(r)
    ensures r in s.bin.runs ==> s.bin.runs[r].nfree == Clear(s.bin.runs[r].bits)
    ensures (exists t :: t in s.threads && Held(s.threads[t]) == Some(r)) <==>
              (r in s.bin.runs && s.bin.runs[r].nfree == nregs)
  {
    var held :| BinOk(nregs, s.bin, None, held) && ThreadsOk(s.threads, held);
    assert r in s.bin.runs ==> RunOk(nregs, s.bin.runs[r], r, s.bin.taken);
  }

  // ---------------------------------------------------------------- who is served, and from where

  ghost predicate InHands(s: State, r: nat) {
    exists t :: t in s.threads && Held(s.threads[t]) == Some(r)
  }

  /** A run of the bin that no thread has in hand, and of which the program does not have every region. */
  ghost predicate Usable(nregs: nat, s: State, r: nat) {
    r in s.bin.runs && !InHands(s, r) && exists i: nat :: i < nregs && (r, i) !in s.bin.taken
  }

  ghost predicate Least(nregs: nat, s: State, r: nat) {
    Usable(nregs, s, r) && forall k :: Usable(nregs, s, k) ==> r <= k
  }

  /** The first region of a run that the program does not have. */
  ghost predicate FirstOf(nregs: nat, s: State, x: Region) {
    x.1 < nregs && x !in s.bin.taken && forall i: nat :: i < x.1 ==> (x.0, i) in s.bin.taken
  }

  ghost predicate CurUsable(nregs: nat, s: State) {
    s.bin.runcur.Some? && Usable(nregs, s, s.bin.runcur.value)
  }

  /** The current run serves if it can, and else the oldest, lowest run that can. */
  ghost predicate Serves(nregs: nat, s: State, x: Region) {
    && FirstOf(nregs, s, x)
    && if CurUsable(nregs, s) then s.bin.runcur == Some(x.0) else Least(nregs, s, x.0)
  }

  ghost predicate Agrees(s: State, held: set<nat>) {
    forall r :: InHands(s, r) <==> r in held
  }

  lemma HeldAgrees(s: State, held: set<nat>)
    requires ThreadsOk(s.threads, held)
    ensures Agrees(s, held)
  {
  }

  /** What `nfree` says of a run, and what the heap holds. */
  lemma UsableIs(nregs: nat, s: State, held: set<nat>, r: nat)
    requires BinOk(nregs, s.bin, None, held) && Agrees(s, held)
    ensures Usable(nregs, s, r) <==> r in s.bin.runs && r !in held && s.bin.runs[r].nfree > 0
    ensures r in s.bin.heap <==> Usable(nregs, s, r) && s.bin.runcur != Some(r)
    ensures s.bin.runcur == Some(r) ==> (HasRoom(s.bin) <==> Usable(nregs, s, r))
  {
    if r in s.bin.runs {
      var run := s.bin.runs[r];
      assert RunOk(nregs, run, r, s.bin.taken);
      ClearAll(run.bits);
      assert run.nfree > 0 <==> exists i: nat :: i < nregs && (r, i) !in s.bin.taken;
    }
    hide RunOk, RunsOk;
  }

  /** What is handed out of a run is its first free region. */
  lemma NextFirst(nregs: nat, s: State, b: Bin, r: nat)
    requires b.runs == s.bin.runs && b.taken == s.bin.taken && CanAlloc(b, r) && RunsOk(nregs, b)
    ensures FirstOf(nregs, s, Next(b, r)) && Next(b, r).0 == r
  {
    assert RunOk(nregs, b.runs[r], r, b.taken);
  }

  lemma FirstLeast(nregs: nat, s: State, held: set<nat>)
    requires BinOk(nregs, s.bin, None, held) && Agrees(s, held) && s.bin.heap != {}
    ensures Usable(nregs, s, First(s.bin.heap)) && s.bin.runcur != Some(First(s.bin.heap))
    ensures forall k :: Usable(nregs, s, k) && s.bin.runcur != Some(k) ==> First(s.bin.heap) <= k
  {
    hide BinOk, Usable;
    forall k ensures k in s.bin.heap <==> Usable(nregs, s, k) && s.bin.runcur != Some(k) {
      UsableIs(nregs, s, held, k);
    }
  }

  /** An allocation is served exactly when the bin has a usable run; else the thread goes for a new one. */
  lemma MallocServes(nregs: nat, s: State, t: nat)
    requires nregs > 0 && Inv(nregs, s) && Enabled(s, Malloc(t))
    ensures var o := Do(nregs, s, Malloc(t));
            && o.Outcome? && o.bin.runs.Keys == s.bin.runs.Keys
            && if exists r :: Usable(nregs, s, r)
               then o.pc == Idle && exists x :: Serves(nregs, s, x) && o.events == [Out(x)] && o.bin.runcur == Some(x.0)
               else o.pc == NeedRun && o.events == [] && o.bin.runcur == None
  {
    var held :| BinOk(nregs, s.bin, None, held) && ThreadsOk(s.threads, held);
    HeldAgrees(s, held);
    MallocFrom(nregs, s, held);
  }

  lemma CurServes(nregs: nat, s: State, held: set<nat>)
    requires BinOk(nregs, s.bin, None, held) && Agrees(s, held) && HasRoom(s.bin)
    ensures var r := s.bin.runcur.value;
            && r in s.bin.runs && CanAlloc(s.bin, r) && Next(s.bin, r).0 == r
            && CurUsable(nregs, s) && FirstOf(nregs, s, Next(s.bin, r)) && Serves(nregs, s, Next(s.bin, r))
  {
    var b, r := s.bin, s.bin.runcur.value;
    UsableIs(nregs, s, held, r);
    AllocCurrent(nregs, b, None, held);
    NextFirst(nregs, s, b, r);
    hide BinOk, Usable, Next, FirstOf;
  }

  lemma NoRoom(nregs: nat, s: State, held: set<nat>)
    requires BinOk(nregs, s.bin, None, held) && Agrees(s, held) && !HasRoom(s.bin)
    ensures !CurUsable(nregs, s)
    ensures s.bin.heap == {} ==> forall r :: !Usable(nregs, s, r)
  {
    hide BinOk, Usable, HasRoom;
    forall r
      ensures r in s.bin.heap <==> Usable(nregs, s, r) && s.bin.runcur != Some(r)
      ensures s.bin.runcur == Some(r) ==> !Usable(nregs, s, r)
    {
      UsableIs(nregs, s, held, r);
    }
  }

  /** The first run of the heap serves when the current run cannot, whether that stays named or not. */
  lemma HeapServes(nregs: nat, s: State, held: set<nat>, b: Bin)
    requires BinOk(nregs, s.bin, None, held) && Agrees(s, held) && !HasRoom(s.bin) && s.bin.heap != {}
    requires var f := First(s.bin.heap);
             b.runs == s.bin.runs && b.taken == s.bin.taken && b.runcur == Some(f)
    ensures var f := First(s.bin.heap);
            && f in s.bin.runs && CanAlloc(b, f) && Next(b, f).0 == f && Serves(nregs, s, Next(b, f)) && Least(nregs, s, f)
  {
    var f := First(s.bin.heap);
    FirstLeast(nregs, s, held);
    NoRoom(nregs, s, held);
    RegAllocFits(nregs, b, held, s, f);
    NextFirst(nregs, s, b, f);
    hide BinOk, Usable, Next, FirstOf, HasRoom;
  }

  lemma RegAllocFits(nregs: nat, b: Bin, held: set<nat>, s: State, r: nat)
    requires BinOk(nregs, s.bin, None, held) && r in s.bin.heap && b.runs == s.bin.runs && b.taken == s.bin.taken
    ensures CanAlloc(b, r) && RunsOk(nregs, b)
  {
    RegAllocRuns(nregs, b, r);
  }

  lemma MallocFrom(nregs: nat, s: State, held: set<nat>)
    requires nregs > 0 && BinOk(nregs, s.bin, None, held) && Agrees(s, held)
    ensures var o := MallocStep(nregs, s.bin);
            && o.Outcome? && o.bin.runs.Keys == s.bin.runs.Keys
            && if exists r :: Usable(nregs, s, r)
               then o.pc == Idle && exists x :: Serves(nregs, s, x) && o.events == [Out(x)] && o.bin.runcur == Some(x.0)
               else o.pc == NeedRun && o.events == [] && o.bin.runcur == None
  {
    var b := s.bin;
    hide BinOk, Agrees, Usable, Next, Serves, FirstOf, CanAlloc;
    if HasRoom(b) {
      CurServes(nregs, s, held);
    } else {
      NoRoom(nregs, s, held);
      if b.heap != {} {
        var f := First(b.heap);
        HeapServes(nregs, s, held, b.(runcur := Some(f), heap := b.heap - {f}));
      }
    }
  }

  /** A thread that comes back with a run uses the current run if that can serve, and gives its own up again; else
      its own serves, and becomes the current one. */
  lemma ResumeHolding(nregs: nat, s: State, t: nat)
    requires nregs > 0 && Inv(nregs, s) && Enabled(s, Resume(t)) && s.threads[t].HaveRun?
    ensures var o, h := Do(nregs, s, Resume(t)), s.threads[t].run;
            && o.Outcome? && o.bin.runs.Keys == s.bin.runs.Keys
            && exists x :: FirstOf(nregs, s, x) && o.events == [Out(x)] && o.bin.runcur == Some(x.0)
                 && if CurUsable(nregs, s) then s.bin.runcur == Some(x.0) && o.pc == Releasing(h)
                    else x.0 == h && o.pc == Idle
  {
    var b, h := s.bin, s.threads[t].run;
    var held :| BinOk(nregs, b, None, held) && ThreadsOk(s.threads, held);
    HeldAgrees(s, held);
    HandFits(nregs, b, h, held, s);
    hide BinOk, ThreadsOk, Agrees, Usable, Next, FirstOf, CanAlloc, RunsOk, Clear;
    if HasRoom(b) {
      CurServes(nregs, s, held);
      assert FirstOf(nregs, s, Next(b, b.runcur.value));
    } else {
      NoRoom(nregs, s, held);
      NextFirst(nregs, s, b.(runcur := Some(h)), h);
      assert FirstOf(nregs, s, Next(b.(runcur := Some(h)), h));
    }
  }

  lemma HandFits(nregs: nat, b: Bin, h: nat, held: set<nat>, s: State)
    requires nregs > 0 && BinOk(nregs, b, None, held) && ThreadsOk(s.threads, held)
    requires exists t :: t in s.threads && s.threads[t] == HaveRun(h)
    ensures h in b.runs && b.runs[h].nfree == nregs && b.runcur != Some(h) && RunsOk(nregs, b)
    ensures CanAlloc(b.(runcur := Some(h)), h) && RunsOk(nregs, b.(runcur := Some(h)))
  {
    var t :| t in s.threads && s.threads[t] == HaveRun(h);
    assert Held(s.threads[t]) == Some(h);
    RegAllocRuns(nregs, b.(runcur := Some(h)), h);
  }

  lemma ResumeEmpty(nregs: nat, s: State, held: set<nat>)
    requires nregs > 0 && BinOk(nregs, s.bin, None, held) && Agrees(s, held) && s.bin.heap == {}
    ensures Resumed(nregs, s, ResumeStep(nregs, s.bin, None))
  {
    var b := s.bin;
    forall r: nat ensures !Usable(nregs, s, r) || b.runcur == Some(r) {
      UsableIs(nregs, s, held, r);
    }
    hide BinOk, Agrees, Usable, Next, FirstOf, CanAlloc;
    if HasRoom(b) {
      CurServes(nregs, s, held);
    } else {
      NoRoom(nregs, s, held);
    }
  }

  lemma ResumeHeap(nregs: nat, s: State, held: set<nat>)
    requires nregs > 0 && BinOk(nregs, s.bin, None, held) && Agrees(s, held) && s.bin.heap != {} && !HasRoom(s.bin)
    ensures Resumed(nregs, s, ResumeStep(nregs, s.bin, None))
  {
    var b, f := s.bin, First(s.bin.heap);
    HeapServes(nregs, s, held, b.(runcur := Some(f), heap := b.heap - {f}));
    hide BinOk, Agrees, Usable, Next, Serves, FirstOf, CanAlloc;
  }

  /** The run from the heap is not needed; the lower one of it and the current run is the current run then. */
  lemma ResumeBoth(nregs: nat, s: State, held: set<nat>)
    requires nregs > 0 && BinOk(nregs, s.bin, None, held) && Agrees(s, held) && s.bin.heap != {} && HasRoom(s.bin)
    ensures Resumed(nregs, s, ResumeStep(nregs, s.bin, None))
  {
    var b, f := s.bin, First(s.bin.heap);
    var cur, b1 := b.runcur.value, b.(heap := b.heap - {f});
    CurServes(nregs, s, held);
    FirstLeast(nregs, s, held);
    BothFits(nregs, b, held);
    NextSame(b1, b, cur);
    hide BinOk, Agrees, Usable, Next, FirstOf, CanLower, First, CanAlloc;
  }

  lemma BothFits(nregs: nat, b: Bin, held: set<nat>)
    requires nregs > 0 && BinOk(nregs, b, None, held) && b.heap != {} && HasRoom(b)
    ensures var f, cur := First(b.heap), b.runcur.value;
            var b1 := b.(heap := b.heap - {f});
            && f in b.runs && b.runs[f].nfree < nregs && f != cur
            && CanAlloc(b, cur) && CanAlloc(b1, cur) && CanLower(RegAlloc(b1, cur), f)
  {
    var f, b1 := First(b.heap), b.(heap := b.heap - {First(b.heap)});
    assert f in b.heap && f in b.runs && b.runs[f].nfree < nregs;
    TrygetOk(nregs, b, held);
    AllocCurrent(nregs, b1, Some(f), held);
    LowerOk(nregs, RegAlloc(b1, b.runcur.value), f, held);
    hide BinOk, CanLower;
  }

  lemma NextSame(b: Bin, b': Bin, r: nat)
    requires b.runs == b'.runs && CanAlloc(b, r) && CanAlloc(b', r)
    ensures Next(b, r) == Next(b', r)
  {
  }

  ghost predicate Resumed(nregs: nat, s: State, o: Outcome) {
    && o.Outcome? && o.pc == Idle && o.bin.runs.Keys == s.bin.runs.Keys
    && if exists r :: Usable(nregs, s, r)
       then (exists x :: Serves(nregs, s, x) && o.events == [Out(x)])
            && o.bin.runcur.Some? && Least(nregs, s, o.bin.runcur.value)
       else o.events == [] && o.bin == s.bin
  }

  /** A thread that got no run is served exactly when the bin has a usable run by then, and the least of them is the
      current run afterwards; else it goes away empty-handed, and nothing changes. */
  lemma ResumeWithout(nregs: nat, s: State, t: nat)
    requires nregs > 0 && Inv(nregs, s) && Enabled(s, Resume(t)) && s.threads[t] == NoRun
    ensures Resumed(nregs, s, Do(nregs, s, Resume(t)))
  {
    var held :| BinOk(nregs, s.bin, None, held) && ThreadsOk(s.threads, held);
    HeldAgrees(s, held);
    hide ThreadsOk, BinOk, Agrees, ResumeStep, Resumed;
    if s.bin.heap == {} {
      ResumeEmpty(nregs, s, held);
    } else if HasRoom(s.bin) {
      ResumeBoth(nregs, s, held);
    } else {
      ResumeHeap(nregs, s, held);
    }
  }

  /** Every region of the run but this one is back. */
  ghost predicate LastOut(nregs: nat, s: State, x: Region) {
    forall i: nat :: i < nregs && i != x.1 ==> (x.0, i) !in s.bin.taken
  }

  /** The program has every region of the run. */
  ghost predicate AllOut(nregs: nat, s: State, r: nat) {
    forall i: nat :: i < nregs ==> (r, i) in s.bin.taken
  }

  lemma CountIs(nregs: nat, s: State, held: set<nat>, x: Region)
    requires BinOk(nregs, s.bin, None, held) && x in s.bin.taken
    ensures x.0 in s.bin.runs && x.1 < nregs
    ensures s.bin.runs[x.0].nfree + 1 == nregs <==> LastOut(nregs, s, x)
    ensures s.bin.runs[x.0].nfree == 0 <==> AllOut(nregs, s, x.0)
  {
    var run := s.bin.runs[x.0];
    assert RunOk(nregs, run, x.0, s.bin.taken);
    ClearAll(run.bits);
    var bits := run.bits[x.1 := false];
    ClearAll(bits);
    ClearUpdate(run.bits, x.1, false);
    assert forall i: nat :: i < nregs ==> (bits[i] <==> i != x.1 && (x.0, i) in s.bin.taken);
  }

  /** A region that comes back: when it was the last one out its run leaves the bin, with the thread; when its run
      was full and is lower than the current run, it takes that one's place. */
  lemma DallocDoes(nregs: nat, s: State, t: nat, x: Region)
    requires nregs > 0 && Inv(nregs, s) && Enabled(s, Dalloc(t, x))
    ensures var o := Do(nregs, s, Dalloc(t, x));
            && o.Outcome? && o.events == [Back(x)] && o.bin.runs.Keys == s.bin.runs.Keys
            && o.pc == (if LastOut(nregs, s, x) then Releasing(x.0) else Idle)
            && o.bin.runcur ==
               if LastOut(nregs, s, x) then if s.bin.runcur == Some(x.0) then None else s.bin.runcur
               else if AllOut(nregs, s, x.0) && s.bin.runcur.Some? && x.0 < s.bin.runcur.value then Some(x.0)
               else s.bin.runcur
  {
    var held :| BinOk(nregs, s.bin, None, held) && ThreadsOk(s.threads, held);
    CountIs(nregs, s, held, x);
    RunNames(nregs, s.bin, held);
    DallocGood(nregs, s.bin, x, held);
    RegDallocRuns(nregs, s.bin, x);
    DallocShape(nregs, s.bin, x);
    hide BinOk, ThreadsOk, RunsOk, LastOut, AllOut, DallocStep, CanDalloc, Plays;
  }

  lemma RunNames(nregs: nat, b: Bin, held: set<nat>)
    requires BinOk(nregs, b, None, held)
    ensures b.runcur.Some? ==> b.runcur.value in b.runs && b.runs[b.runcur.value].nfree < nregs
  {
  }

  lemma DallocShape(nregs: nat, b: Bin, x: Region)
    requires CanDalloc(nregs, b, x) && DallocStep(nregs, b, x).Outcome?
    ensures var o, n, last := DallocStep(nregs, b, x), b.runs[x.0].nfree, b.runs[x.0].nfree + 1 == nregs;
            && o.events == [Back(x)] && o.bin.runs.Keys == b.runs.Keys
            && o.pc == (if last then Releasing(x.0) else Idle)
            && o.bin.runcur ==
               if last then if b.runcur == Some(x.0) then None else b.runcur
               else if n == 0 && b.runcur.Some? && x.0 < b.runcur.value then Some(x.0)
               else b.runcur
  {
    assert RegDalloc(b, x).runs.Keys == b.runs.Keys;
    hide CanDissociate, CanLower;
  }

  /** The runs of a bin, the regions with the program, the current run and the threads are all there is to know: the
      counts, the bitmaps and the heap follow from them. */
  lemma Determined(nregs: nat, s: State, s': State)
    requires nregs > 0 && Inv(nregs, s) && Inv(nregs, s')
    requires s.bin.runs.Keys == s'.bin.runs.Keys && s.bin.taken == s'.bin.taken
    requires s.bin.runcur == s'.bin.runcur && s.threads == s'.threads
    ensures s == s'
  {
    var held :| BinOk(nregs, s.bin, None, held) && ThreadsOk(s.threads, held);
    var held' :| BinOk(nregs, s'.bin, None, held') && ThreadsOk(s'.threads, held');
    forall r | r in s.bin.runs ensures s.bin.runs[r] == s'.bin.runs[r] {
      assert RunOk(nregs, s.bin.runs[r], r, s.bin.taken) && RunOk(nregs, s'.bin.runs[r], r, s'.bin.taken);
      assert s.bin.runs[r].bits == s'.bin.runs[r].bits;
    }
    assert s.bin.runs == s'.bin.runs;
    assert s.bin.heap == s'.bin.heap;
  }
}
