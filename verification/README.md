# Verified model of the allocator and the containers of atm-cache

atm-cache takes all its memory from a vendored jemalloc and keeps its data in containers of its own. This
project models the parts of both that are hardest to get right and proves what they are for.

| module | models |
|---|---|
| `Prof`, `ProfSafety`, `ProfDump`, `ProfRounds`, `ProfFailures`, `ProfLate`, `ProfRuns`, `Tally` | the life cycle of heap-profile contexts in `prof.c`: a state machine whose actions are the stretches between lock operations, run by any number of threads beside one heap dump; the invariant, the theorems about every interleaving, what a dump captures, what an allocation adds and freeing it takes away, what failed insertions and failed lookups do to them, a read that can come too late, and concrete runs |
| `Quantize`, `PageMap`, `RunMaps`, `RunIndex`, `RunZero`, `ArenaRuns`, `MapBits` | the page runs of an arena in `arena.c`: page maps with boundary tags, quantized best-fit heaps, dirty runs and page counters, split, coalesce, free and trim; which pages are known to be zero; the packing of map words in `arena.h` |
| `ArenaBin` | one small bin: `runcur`, the heap of partly used runs, a bitmap per run, and threads that interleave where the bin lock is dropped |
| `Regind` | region addresses, and the index of a region by shift and reciprocal multiplication |
| `Ckh`, `CuckooTable` | the cuckoo hash table, in place on its cell array, with eviction chains, growth and shrinking |
| `ChunkRecycler`, `ChunkSteps`, `Extents` | recycling of address ranges over two ordered trees; and threads that interleave between its locked stretches, over the cached and the retained trees |
| `Bitmap` | the bitmap tree and the linear bitmap, each in place on its array of words |
| `Prng` | the linear congruential generator and its rejection loop |
| `Tcache` | a bin of the thread cache: flushing with in-place deferral |
| `Quarantine` | the growing ring of freed objects with its byte budget |
| `Dict`, `DictTable` | the dictionary with two tables and incremental rehashing |
| `Buf`, `LineScan` | the byte buffer over pooled blocks, and line extraction |
| `LinkedList` | the doubly linked list under buffer and dictionary, node by node |
| `NumText` | number printing and parsing |
| `Arith`, `Pow2`, `Wrappers` | arithmetic on products and quotients, powers of two, and an option type |

How the pieces are stated:

- Code that changes things in place is a class, or an array, whose methods are proved against a function of
  the old state; what that function promises is proved beside it. Protocols that drop locks (`Prof`,
  `ArenaBin`, `ChunkSteps`) are state machines, because their properties are about all interleavings.
- Trees, pairing heaps and hash functions are ordered or unordered sets and arbitrary functions.
  `ffs`, `pow2_ceil` and the size-class lookups have their usual meaning over a strictly increasing table.
- Answers of the operating system, of memory allocation and of hooks are parameters: every theorem holds for
  all of them.
- A failed assertion of the code is an error state in the state machines, and a proof obligation elsewhere.

## What the proofs found out about the code

- The eviction loop of the cuckoo table has no bound on its turns; it ends all the same, because a turn can be
  undone and there are finitely many states (`Ckh.ChaseEnds`).
- A failed `ckh_insert` can leave the new entry in the table and drop an old one (`Ckh.Table.Insert`).
  `prof_lookup_global` and `prof_lookup` (deps/jemalloc/src/prof.c:737-743, 813-821) free the new object after
  such a failure, although the table still leads to it. `ProfRuns.StaleRuns` is a run in which the next lookup
  reaches freed memory. The condition is exact: as long as no insertion fails in this way nothing bad can
  happen but the read of the next item (`ProfSafety.NeverBad`), and after the first such failure something bad
  always can (`ProfFailures.WrongExactly`, an equivalence).
- The assertion near the end of `prof_tctx_destroy` (deps/jemalloc/src/prof.c:704) reads the tctx after the
  lock of its gctx was released. If the tctx was left in purgatory the dump may have freed it by then:
  `ProfRuns.LateRuns` is such a run, without any failure. `ProfLate.LateExactly` has the exact condition: the
  tctx was captured when it was unlinked, and the dump got through with its gctx before the read.
- `prof_lookup` (deps/jemalloc/src/prof.c:795-820): when the tctx cannot be allocated or cached and the gctx
  was not new, nothing gives back the limbo count that `prof_lookup_global` took. `ProfRuns.LeakRuns` is such a
  run; `ProfFailures.LeakedIs` counts these losses exactly and shows that such a gctx is never freed;
  `ProfFailures.OrphansExactly` says that they are the only reason for one to stay.
- A fresh chunk that comes decommitted gets the decommitted flag at its first page only
  (deps/jemalloc/src/arena.c:670-727): the two ends of its run agree if and only if the chunk came committed
  (`ArenaRuns.FreshMapOk`). The first split repairs it.
- `ckh_insert` exchanges key and data with the item it evicts. When the chain fails and the table cannot grow,
  the new item is in the table and an old one is dropped (`Ckh.Table.Insert`; with one full bucket and no
  memory it always happens).
- `chunk_first_best_fit` asks for the class of a search size that may be above the largest class: a request of
  2^62 bytes aligned to 2^62 passes the tests of `sa2u` and `huge_palloc` and gets there
  (`ChunkRecycler.PastTheTable`). Then `index2size` fails its assertion or reads past its table;
  `ChunkRecycler.Recycler.Recycle` says that this happens exactly above the largest class.
- When `chunk_recycle` takes a node that fits the request exactly and the range cannot be committed, it returns
  without freeing the node (deps/jemalloc/src/chunk.c:307-312), which no tree holds any more
  (`ChunkRecycler.Recycler.Cut`, an equivalence).
- The overflow test in `malloc_strtoumax` compares with the value before the multiplication only, and misses
  overflows that wrap past it: 30000000000000000000 is read as 11553255926290448384 (`NumText.OverflowMissed`;
  `NumText.RangeExactly` says exactly when it notices, `NumText.ConvertExact` that the value is right exactly
  when it fits). A leading zero before 8, 9 or a letter other than x ends the number in every base, so "08" is
  0 (`NumText.LeadingZeroStops`); `NumText.ParseExact` has the exact condition for the whole parser.
- `prng_range_*` needs a range of at most half the word: above that the rounding up wraps to zero
  (`Prng.RangeIsAccepted`, an equivalence).
- `atm_util_next_power` never returns for arguments above 2^31 (`Dict.NextPowerEnds`, an equivalence).
- `atm_dict_set` of a key that the active table still holds, while a migration is under way, stores the key
  twice, and later finds the old value (`Dict.SetTwice`; `Dict.Dictionary.Set` has the equivalence).

## Model

| member | source | states |
|---|---|---|
| ProfSafety.NeverBad | deps/jemalloc/src/prof.c:550-829 | for every interleaving of lookups, links, samples, frees, destructions and dumps in which no insertion fails after displacing an entry: no freed gctx or tctx is touched, no `nlimbo` falls below zero, no assertion fails, no `not_reached()` is reached; one read is kept apart, that of a tctx in purgatory by the assertion at prof.c:704, which `ProfLate.LateExactly` is about. Failed allocations are allowed; `ProfFailures.WrongExactly` shows that the condition is exact |
| ProfSafety.FreeIsExclusive | deps/jemalloc/src/prof.c:576-609 | in such runs, whoever is about to free a gctx is its only limbo holder, and no tctx, no table, no dump and no thread that just found it leads to it |
| ProfSafety.HeldIsAllocated | deps/jemalloc/src/prof.c:714-760 | in such runs, a gctx that a thread holds a limbo count on, or has just found in the global table, is allocated |
| ProfSafety.NoOrphans | deps/jemalloc/src/prof.c:627-638 | in such runs, without accumulation, a gctx with no linked tctx and no leaked limbo count has a holder or is on a running dump's list, so it is on its way out; `ProfFailures.LeakedIs` and `ProfFailures.OrphansExactly` are about the others |
| ProfSafety.DumpTotals | deps/jemalloc/src/prof.c:1545-1620 | in such runs, when a dump prints: each listed gctx's `cnt_summed` counts each of its captured tctxs exactly once, and `cnt_all` is the sum of the captured tctxs and of all `cnt_summed`, whatever entered purgatory meanwhile |
| ProfSafety.OutputTotals | deps/jemalloc/src/prof.c:1195-1209 | in any state that keeps the invariant, the grand total of a printing dump is the sum over the listed gctxs |
| ProfSafety.CapturedIsPart | deps/jemalloc/src/prof.c:1087-1107 | the captured tctxs in one gctx's tree are exactly the captured tctxs that name that gctx |
| ProfSafety.CaptureSums | deps/jemalloc/src/prof.c:1041-1072 | snapshotting one nominal tctx keeps the running totals equal to the sum over the captured ones |
| ProfSafety.MergeSums | deps/jemalloc/src/prof.c:1074-1086 | merging a gctx adds its captured tctxs into `cnt_summed` once, and keeps every other sum |
| ProfSafety.SnapshotKept | deps/jemalloc/src/prof.c:1041-1072 | a snapshot appears only by the dump's visit of a nominal tctx, with its counters of that moment, and stays unchanged through every step, destruction included, until the dump finishes that gctx |
| ProfSafety.CountsAreLive | deps/jemalloc/src/prof.c:226-257 | in such runs a tctx's counters are the number and bytes of its live sampled objects, and a tctx is marked by a dump only while that dump lists its gctx |
| ProfSafety.HoldersMove | deps/jemalloc/src/prof.c:714-760 | when a thread moves on, the set of limbo holders of a gctx gains or loses just that thread |
| ProfSafety.KeepStep | deps/jemalloc/src/prof.c:550-829 | every step that is not such a failed insertion keeps the whole invariant |
| ProfSafety.KeepRun | deps/jemalloc/src/prof.c:550-829 | every run without such a failed insertion keeps the whole invariant |
| ProfSafety.KeepAttach | deps/jemalloc/src/prof.c:795-820 | caching a new tctx, failing for want of memory, or failing with the table unchanged, keeps the invariant |
| ProfSafety.KeepUnlink | deps/jemalloc/src/prof.c:640-711 | unlinking a nominal tctx, or leaving a dumping one in purgatory on the way to the check, keeps the invariant |
| ProfSafety.KeepTryDestroy | deps/jemalloc/src/prof.c:576-609 | retracting a gctx from the table under both locks, or backing off, keeps the invariant |
| ProfSafety.KeepDumpPrep | deps/jemalloc/src/prof.c:1170-1188 | taking a limbo count for the dump and clearing `cnt_summed` keeps the invariant |
| ProfSafety.KeepDumpFinish | deps/jemalloc/src/prof.c:1143-1167 | finishing one gctx returns dumping tctxs to nominal, frees those in purgatory and gives up the limbo count, keeping the invariant |
| ProfSafety.ReadFacts | deps/jemalloc/src/prof.c:1342-1360 | a printed gctx that is skipped for want of useful data has all four sums zero, as the assertions there say |
| ProfDump.ScanCaptures | deps/jemalloc/src/prof.c:1041-1067 | over every run without displacing failures: a dump's scan of one thread's table captures every tctx that was there and nominal at the lock, with the counters of that moment, whatever threads do before the unlock; one that was still being linked may be captured or passed over, and nothing else is recorded anew |
| ProfDump.EachScanned | deps/jemalloc/src/prof.c:1568-1578 | before a dump goes on to merge, each thread that it knows of had its table locked for a scan or was skipped |
| ProfDump.DumpGoesOn | deps/jemalloc/src/prof.c:1545-1620 | a dump is never stuck: in every state that keeps the invariant it has a step of its own to take, unless its thread is destroying a gctx |
| ProfRounds.SampleNew | deps/jemalloc/src/prof.c:714-829 | a sampled allocation from a new backtrace ends with one new gctx in the global table and one new tctx that counts the object, and nothing else changed |
| ProfRounds.SampleKnown | deps/jemalloc/src/prof.c:714-829 | the first one of a thread from a known backtrace adds one tctx to the gctx that there is |
| ProfRounds.SampleAgain | deps/jemalloc/src/prof.c:771-777 | further ones only count |
| ProfRounds.FreeOne | deps/jemalloc/src/prof.c:243-257 | freeing an object that is not the last one, or with accumulation, only takes it out of the counters |
| ProfRounds.FreeLast | deps/jemalloc/src/prof.c:640-711 | freeing the last object takes its tctx away, and nothing else if the gctx is used otherwise |
| ProfRounds.FreeAll | deps/jemalloc/src/prof.c:576-711 | and if it is not, the gctx and its place in the global table go too |
| ProfRounds.NoTrace | deps/jemalloc/src/prof.c:714-829 | an allocation from a new backtrace, freed again by any thread, leaves the state as it was but for the names that were used |
| ProfRounds.RollbackIs | deps/jemalloc/src/prof.c:196-223 | a sampled allocation that failed is taken back: the mark goes, and the tctx on its way if nothing keeps it |
| ProfSafety.KeepCheck | deps/jemalloc/src/prof.c:699-711 | the check of a tctx in purgatory keeps the invariant, whatever it reads |
| ProfLate.LateExactly | deps/jemalloc/src/prof.c:640-711 | over every run without displacing failures: whenever a thread stands before the assertion at line 704 with a tctx that it left in purgatory, that tctx was captured when the thread unlinked it, and the read is of freed memory if and only if the dump got through with its gctx since then |
| ProfLate.FreedExactly | deps/jemalloc/src/prof.c:1212-1254 | a tctx in purgatory is freed along a run if and only if the dump gets through with its gctx |
| ProfLate.PurgatoryStep | deps/jemalloc/src/prof.c:1143-1167 | no other step takes a tctx out of purgatory, and a freed one does not come back |
| ProfLate.CameByUnlink | deps/jemalloc/src/prof.c:659-697 | only the unlinking of a captured tctx leads a thread to that check |
| ProfLate.NominalRead | deps/jemalloc/src/prof.c:699-711 | a tctx that was nominal when it was unlinked is there when the assertion reads it |
| ProfRuns.LateRuns | deps/jemalloc/src/prof.c:640-711 | a run of 19 steps, without any failure, after which the check reads a freed tctx |
| ProfFailures.WrongExactly | deps/jemalloc/src/prof.c:714-829 | from any state that keeps the invariant the next action opens a way to a bad state, by a continuation without further such failures, if and only if it is an insertion that fails after displacing an entry; the late read is not among the bad states here |
| ProfFailures.FailuresDecide | deps/jemalloc/src/prof.c:714-829 | the same after every run without such failures |
| ProfFailures.EnterGoesWrong | deps/jemalloc/src/prof.c:730-746 | after such a failure in the global table a lookup reaches the gctx that was freed |
| ProfFailures.AttachGoesWrong | deps/jemalloc/src/prof.c:812-822 | after such a failure in the thread's own table its next lookup reaches the tctx that was freed, whatever other threads and a dump are at |
| ProfRuns.StaleRuns | deps/jemalloc/src/prof.c:730-746 | a run of 13 steps with one failed insertion that uses a freed gctx |
| ProfRuns.LeakRuns | deps/jemalloc/src/prof.c:795-803 | a run of two threads that run out of memory: both end between calls, and the gctx is there with one limbo count that nobody owns |
| ProfFailures.LeakedIs | deps/jemalloc/src/prof.c:795-820 | the limbo counts of a gctx that nobody will give back are exactly as many as lookups failed on it without having created it; with one of them the gctx is never freed |
| ProfFailures.OrphansExactly | deps/jemalloc/src/prof.c:627-638 | without accumulation, when all threads are between calls and no dump runs, a gctx without tctxs is there only if such a lookup failed on it; and one on which such a lookup failed is there, and stays through every continuation |
| ProfFailures.GoneForGood | deps/jemalloc/src/prof.c:576-609 | a freed gctx does not come back |
| Prng.ReturnTime | deps/jemalloc/include/jemalloc/internal/prng.h:4-27 | a generator that meets Knuth's conditions returns to a state after n <= 2^width steps if and only if n is 2^width |
| Prng.NoRepeat | deps/jemalloc/include/jemalloc/internal/prng.h:4-27 | no state occurs twice within one turn |
| Prng.FullPeriod | deps/jemalloc/include/jemalloc/internal/prng.h:4-27 | from any state every state is reached within one turn |
| Prng.NoShortCycle | deps/jemalloc/include/jemalloc/internal/prng.h:4-27 | fewer than 2^w unreduced steps never differ from the start by a multiple of 2^w |
| Prng.Doubling | deps/jemalloc/include/jemalloc/internal/prng.h:57-82 | 2^k steps are one affine map: multiplier 1 modulo 2^(k+2), increment an odd multiple of 2^k, scaled as stated |
| Prng.SourceConstants | deps/jemalloc/include/jemalloc/internal/prng.h:23-27 | the 32-bit and 64-bit constants meet the conditions |
| Prng.RangeIsAccepted | deps/jemalloc/include/jemalloc/internal/prng.h:148-165 | the exponent that `prng_range_*` computes is accepted by `prng_lg_range_*` if and only if the range is at most half the word; then it is the ceiling of the logarithm |
| Prng.ZeroAhead | deps/jemalloc/include/jemalloc/internal/prng.h:148-184 | from every state, a state that draws zero lies ahead: why the rejection loop ends |
| Prng.Generator.LgRange | deps/jemalloc/include/jemalloc/internal/prng.h:84-122 | one step; the top `lg` bits of the new state, below 2^lg |
| Prng.Generator.Range | deps/jemalloc/include/jemalloc/internal/prng.h:148-184 | terminates from every state for every range from 2 to half the word, and returns the first draw below the range |
| Bitmap.RootTells | deps/jemalloc/include/jemalloc/internal/bitmap.h:134-151 | in a valid tree the root word is zero if and only if every logical bit is set |
| Bitmap.FlipTruth | deps/jemalloc/include/jemalloc/internal/bitmap.h:165-198 | flipping a bit keeps all upper bits truthful, or moves the one that lies exactly one level up: the invariant of the propagation loops |
| Bitmap.Descend | deps/jemalloc/include/jemalloc/internal/bitmap.h:201-230 | the first stored one of a level leads to the first stored one of the level below |
| Bitmap.InfoInit | deps/jemalloc/src/bitmap.c:8-35 | the level offsets of the tree, for every number of bits |
| Bitmap.TreeBitmap.constructor | deps/jemalloc/src/bitmap.c:44-70 | a valid tree in which no logical bit is set, spare high bits cleared on every level |
| Bitmap.TreeBitmap.Full | deps/jemalloc/include/jemalloc/internal/bitmap.h:134-151 | true if and only if every logical bit is set |
| Bitmap.TreeBitmap.Get | deps/jemalloc/include/jemalloc/internal/bitmap.h:153-163 | true if and only if the bit is set |
| Bitmap.TreeBitmap.Set | deps/jemalloc/include/jemalloc/internal/bitmap.h:165-198 | adds exactly that bit, and keeps the tree valid |
| Bitmap.TreeBitmap.Sfu | deps/jemalloc/include/jemalloc/internal/bitmap.h:201-230 | returns and sets the least unset bit |
| Bitmap.TreeBitmap.Unset | deps/jemalloc/include/jemalloc/internal/bitmap.h:232-269 | removes exactly that bit, and keeps the tree valid |
| Bitmap.LinearBitmap.constructor | deps/jemalloc/src/bitmap.c:92-102 | no logical bit is set |
| Bitmap.LinearBitmap.Full | deps/jemalloc/include/jemalloc/internal/bitmap.h:134-151 | true if and only if every logical bit is set |
| Bitmap.LinearBitmap.Set | deps/jemalloc/include/jemalloc/internal/bitmap.h:165-198 | adds exactly that bit |
| Bitmap.LinearBitmap.Sfu | deps/jemalloc/include/jemalloc/internal/bitmap.h:201-230 | returns and sets the least unset bit |
| Bitmap.LinearBitmap.Unset | deps/jemalloc/include/jemalloc/internal/bitmap.h:232-269 | removes exactly that bit |
| Bitmap.RunBoth | deps/jemalloc/include/jemalloc/internal/bitmap.h:134-269 | any sequence of operations gets from both variants the answers that the set of set bits gives: membership, fullness, least unset bit |
| Bitmap.Step | deps/jemalloc/include/jemalloc/internal/bitmap.h:134-269 | one operation on both variants: the answer and the new set of bits are those of the specification |
| Bitmap.LinearBitmap.Get | deps/jemalloc/include/jemalloc/internal/bitmap.h:153-163 | true if and only if the bit is set |
| Quantize.FloorIs | deps/jemalloc/src/arena.c:121-147 | `run_quantize_floor` is the largest padded class not above the size |
| Quantize.CeilIs | deps/jemalloc/src/arena.c:158-180 | `run_quantize_ceil` is the smallest padded class not below the size |
| Quantize.PaddedOrder | deps/jemalloc/src/arena.c:187-199 | the class index separates padded classes, since the pad is no larger than the gaps |
| Quantize.BestFitExact | deps/jemalloc/src/arena.c:1130-1145 | a run is in a heap that a request looks at if and only if it reaches the request's quantized ceiling |
| Quantize.ExtentFloorIs | deps/jemalloc/src/extent.c:9-24 | the largest class not above the size, when there is one; below the first class the floor is above the size |
| Quantize.ExtentCeilIs | deps/jemalloc/src/extent.c:26-45 | the smallest class not below the size; there is one, and the table of classes is read within its bounds, if and only if the size is at most the largest class |
| Quantize.ExtentFitExact | deps/jemalloc/src/extent.c:74-89 | an extent ranks at or above a quantized request if and only if it is at least that large |
| MapBits.UnallocatedMeans | deps/jemalloc/include/jemalloc/internal/arena.h:947-959 | every getter reads back what was stored for a free run, the size in bytes included |
| MapBits.LargeMeans | deps/jemalloc/include/jemalloc/internal/arena.h:983-996 | every getter reads back what was stored for a large run, whatever the flags |
| MapBits.SmallMeans | deps/jemalloc/include/jemalloc/internal/arena.h:1012-1023 | every getter reads back what was stored for a page of a small run |
| MapBits.ResizeMeans | deps/jemalloc/include/jemalloc/internal/arena.h:961-972 | for every word: the new size is the only change |
| MapBits.RebinMeans | deps/jemalloc/include/jemalloc/internal/arena.h:998-1010 | for every word: the new bin is the only change |
| MapBits.PackSize | deps/jemalloc/include/jemalloc/internal/arena.h:812-826 | decoding gives the size in bytes, whatever bin and flags share the word |
| PageMap.PaintTiled | deps/jemalloc/src/arena.c:383-423 | replacing whole runs by one or two runs over the same pages keeps the pages tiled exactly |
| PageMap.PaintMap | deps/jemalloc/src/arena.c:383-423 | if the map is rewritten inside the replaced runs only and tells the new ones, it tells the whole new tiling |
| PageMap.CoalescedEnds | deps/jemalloc/src/arena.c:2032-2122 | what lies on either side of a coalesced run is not free, or differs in a flag |
| PageMap.CoalescedApart | deps/jemalloc/src/arena.c:2032-2122 | after coalescing no two free neighbours share their dirty and decommitted flags |
| RunMaps.SplitLargeMap | deps/jemalloc/src/arena.c:425-496 | the map writes of a large split tell the tiling in which the head is a large run and the rest is free with the old flags |
| RunMaps.SplitSmallMap | deps/jemalloc/src/arena.c:512-548 | the same for a small run, with the page offset in every entry |
| RunMaps.FreeMap | deps/jemalloc/src/arena.c:2145-2219 | the two writes that mark a run free tell the tiling in which it is free |
| RunMaps.ReadNext | deps/jemalloc/src/arena.c:2041-2078 | the test on the following map entry is true if and only if a free run of the same kind follows, and reads its size |
| RunMaps.ReadPrev | deps/jemalloc/src/arena.c:2080-2117 | the test on the preceding map entry is true if and only if a free run of the same kind precedes, and reads its size |
| RunMaps.JoinMap | deps/jemalloc/src/arena.c:2032-2122 | writing the joined size at both ends tells the tiling in which the two runs are one |
| RunMaps.CutMap | deps/jemalloc/src/arena.c:2221-2305 | the trim functions' writes tell the tiling with two large runs |
| RunIndex.LookedAt | deps/jemalloc/src/arena.c:1130-1145 | the heap of a run is at or above the one a request starts from if and only if the run reaches the rounded request |
| RunIndex.InsertIndexed | deps/jemalloc/src/arena.c:187-199 | inserting keeps each indexed run in the heap of its size and in no other |
| RunIndex.RemoveIndexed | deps/jemalloc/src/arena.c:201-213 | removing takes out that run only |
| RunIndex.Recount | deps/jemalloc/src/arena.c:215-249 | when the pages of one range change kind, the number of dirty (or active) pages changes by the length of the range, by kind |
| RunIndex.TakenFree | deps/jemalloc/src/arena.c:383-423 | splitting in the heaps is splitting in the tiling |
| RunIndex.JoinedFree | deps/jemalloc/src/arena.c:2032-2122 | joining the run in hand with a neighbour is removing that neighbour from the heaps |
| ArenaRuns.Arena.constructor | deps/jemalloc/src/arena.c:3563-3671 | an arena with no chunks |
| ArenaRuns.Arena.SplitRemove | deps/jemalloc/src/arena.c:383-423 | heaps, dirty runs, map, `ndirty` and `nactive` all follow the split |
| ArenaRuns.Arena.SplitLarge | deps/jemalloc/src/arena.c:425-496 | fails, changing nothing, exactly if the pages are decommitted and cannot be committed; otherwise page by page the head is the large run and the rest is free as it was; on request every page that may hold something is made zero, and of a clean run only pages marked as unzeroed are |
| ArenaRuns.Arena.SplitSmall | deps/jemalloc/src/arena.c:512-548 | the same for a run of a bin |
| ArenaRuns.Arena.Absorb | deps/jemalloc/src/arena.c:2041-2117 | the neighbour leaves heap and dirty list and is joined to the run in hand |
| ArenaRuns.Arena.Coalesce | deps/jemalloc/src/arena.c:2032-2122 | the run in hand grows to exactly the maximal run of its kind |
| ArenaRuns.Arena.MarkFree | deps/jemalloc/src/arena.c:2145-2186 | the run is free in the map, dirty by the code's rule, `nactive` falls by its pages |
| ArenaRuns.Arena.RunDalloc | deps/jemalloc/src/arena.c:2145-2219 | page by page the run is free and of the stated kind and all else is as it was, with nothing left to coalesce; if the chunk has no used run any more it is the spare and the old spare is gone, and otherwise chunks and spare stay; what may hold something stays marked; all invariants hold |
| ArenaRuns.Arena.ChunkDalloc | deps/jemalloc/src/arena.c:810-834 | an unused chunk leaves the heaps and becomes the spare, and the old spare goes, with its dirty pages |
| ArenaRuns.Arena.SpareDiscard | deps/jemalloc/src/arena.c:796-808 | the chunk goes; only its dirty pages leave `ndirty` |
| ArenaRuns.Arena.TakeSpare | deps/jemalloc/src/arena.c:550-570 | the spare is offered again |
| ArenaRuns.Arena.AddChunk | deps/jemalloc/src/arena.c:670-727 | the new chunk is one free run in the right heap, with the map that the code writes; its pages are marked as unzeroed unless it came zeroed or decommitted |
| ArenaRuns.Arena.TrimHead | deps/jemalloc/src/arena.c:2221-2260 | page by page the leading pages are free, dirty if they were, and the rest is a large run; chunks and spare as for `arena_run_dalloc` |
| ArenaRuns.Arena.TrimTail | deps/jemalloc/src/arena.c:2262-2305 | page by page the trailing pages are free, dirty if they were or the caller says so, and the rest is a large run; chunks and spare as for `arena_run_dalloc` |
| ArenaRuns.Arena.BestFit | deps/jemalloc/src/arena.c:1130-1145 | finds the run of the smallest class that reaches the rounded request, in the oldest chunk and at the lowest address among those; none only if no indexed run reaches it |
| ArenaRuns.Arena.AllocLarge | deps/jemalloc/src/arena.c:1147-1156 | the best place now starts a large run, zero if asked; or nothing changed, because no run reaches the rounded request, or because the best one is decommitted and cannot be committed |
| ArenaRuns.FirstIsBest | deps/jemalloc/src/arena.c:1130-1145 | the first run of the first heap that is not empty is best among all runs that reach the rounded request |
| ArenaRuns.DirtySum | deps/jemalloc/src/arena.c:215-249 | the pages counted in `ndirty` for runs are the sum of the pages of the dirty free runs |
| ArenaRuns.EndsAgree | deps/jemalloc/src/arena.c:2124-2143 | the first and last map entries of every run agree, in every chunk but one that came decommitted and was never split |
| ArenaRuns.OneHeap | deps/jemalloc/src/arena.c:187-213 | a free run is in a heap if and only if it is outside the spare chunk and that heap is the one for its size |
| ArenaRuns.FreshMapOk | deps/jemalloc/src/arena.c:670-727 | the two ends of a fresh chunk agree if and only if the chunk came committed |
| ArenaRuns.FreedThenCoalesced | deps/jemalloc/src/arena.c:2145-2219 | freeing then coalescing gives a tiling in which nothing more can be coalesced |
| ArenaRuns.HeapsHold | deps/jemalloc/src/arena.c:1130-1145 | from the request's heap upwards all runs are large enough, and if those heaps are empty no indexed run reaches the request |
| ArenaRuns.TakenCore | deps/jemalloc/src/arena.c:383-423 | taking the head of a free run keeps tiling, separation, heaps, dirty runs and counters |
| ArenaRuns.JoinedCore | deps/jemalloc/src/arena.c:2032-2122 | joining keeps heaps, dirty runs and counters |
| ArenaRuns.FreedCore | deps/jemalloc/src/arena.c:2145-2186 | marking a run free keeps heaps, dirty runs and counters, with its pages pending |
| ArenaRuns.CutCore | deps/jemalloc/src/arena.c:2221-2305 | cutting a large run keeps everything |
| ArenaRuns.AfterFreeIs | deps/jemalloc/src/arena.c:2203-2219 | what freeing does to chunks, spare and pages, page by page |
| RunZero.SplitLargeZero | deps/jemalloc/src/arena.c:425-496 | splitting keeps, for every choice of the pages that may hold something: such a page of a clean, committed free run is marked, and no decommitted one is among them; and tells which pages of the large run are marked |
| RunZero.FreeZero | deps/jemalloc/src/arena.c:2145-2186 | freeing keeps this if the run is dirty, or was decommitted, or its pages are marked |
| RunZero.JoinZero | deps/jemalloc/src/arena.c:2041-2117 | coalescing keeps it |
| RunZero.CutZero | deps/jemalloc/src/arena.c:2221-2305 | cutting a large run keeps it, and what was known of the pages of the run |
| RunZero.ToZeroEnough | deps/jemalloc/src/arena.c:441-470 | the pages that are made zero include every one that may hold something |
| ArenaBin.NoRegionTwice | deps/jemalloc/src/arena.c:281-325 | over every interleaving at the lock drops: between two hand-outs of a region, or a hand-out and the release of its run, the region was given back |
| ArenaBin.KeepRun | deps/jemalloc/src/arena.c:2329-2428 | every run keeps the bin's invariant |
| ArenaBin.KeepStep | deps/jemalloc/src/arena.c:2943-2974 | every stretch under the lock keeps the invariant and fails no assertion of the code |
| ArenaBin.HeapHolds | deps/jemalloc/src/arena.c:2307-2327 | the heap holds exactly the partly used runs other than `runcur`; `nfree` is the number of clear bits; a run is with a thread exactly if it is unused |
| ArenaBin.HandedOutOnce | deps/jemalloc/src/arena.c:281-299 | a region that was handed out and not given back is not handed out again and its run is not released |
| ArenaBin.MallocGood | deps/jemalloc/src/arena.c:2590-2642 | every allocation from a good bin, to its end or to where the lock is dropped, passes the assertions and keeps the invariant; `ArenaBin.MallocServes` says which of the two it comes to |
| ArenaBin.FinishGood | deps/jemalloc/src/arena.c:2380-2428 | the end of `arena_bin_malloc_hard`, with or without a run in hand, whatever became of `runcur` meanwhile |
| ArenaBin.ResumeGood | deps/jemalloc/src/arena.c:2329-2377 | retaking the lock after the arena answered |
| ArenaBin.DallocGood | deps/jemalloc/src/arena.c:2943-2974 | freeing a region: the run is dissociated when it becomes unused, entered in the heap when it was full |
| ArenaBin.LowerOk | deps/jemalloc/src/arena.c:2920-2941 | `arena_bin_lower_run` keeps the heap exact, whichever of the two runs becomes current |
| ArenaBin.MallocServes | deps/jemalloc/src/arena.c:2336-2428 | an allocation ends with a region if and only if some run of the bin is usable: not full, and in no thread's hands; then it is the first free region of `runcur` if that is usable, else of the least usable run, which is `runcur` afterwards; otherwise the thread goes for a new run |
| ArenaBin.ResumeHolding | deps/jemalloc/src/arena.c:2388-2427 | a thread that comes back with a run is served from `runcur` if that is usable, and gives its own up, else from its own, which is `runcur` then |
| ArenaBin.ResumeWithout | deps/jemalloc/src/arena.c:2367-2377 | a thread that got no run is served if and only if some run is usable by then; the least usable one is `runcur` afterwards; else nothing changes |
| ArenaBin.DallocDoes | deps/jemalloc/src/arena.c:2943-2974 | a region that comes back: its run leaves the bin if and only if it was the last one out; and it takes the place of `runcur` if and only if it was full and is lower |
| ArenaBin.Determined | deps/jemalloc/src/arena.c:2307-2327 | the runs, the regions with the program, `runcur` and the threads determine the whole bin |
| Regind.RegindIsQuotient | deps/jemalloc/include/jemalloc/internal/arena.h:1148-1219 | for every interval and every distance below interval * 2^m, shift, table and multiplication give exactly the quotient, with 2m + 10 <= 64 (the source has m = 9) |
| Regind.RegindInvertsAlloc | deps/jemalloc/src/arena.c:281-299 | the index of every region is found again from its address |
| Regind.InverseDivides | deps/jemalloc/include/jemalloc/internal/arena.h:1178-1213 | multiplying by the rounded-up inverse does not overflow the word, and shifting gives the quotient |
| Regind.ShiftFirst | deps/jemalloc/include/jemalloc/internal/arena.h:1166-1176 | shifting both numbers by the trailing zeros first does not change the quotient |
| Ckh.Table.Insert | deps/jemalloc/src/ckh.c:459-481 | success: the old items and the new one, each once, each in one of its two buckets, `count` exact. Failure: all of these but one item, which is an old one unless the table had grown; only if both buckets were full, and the next size cannot be had or is too crowded: some item has more company in each of its buckets than fits. It grows only if both buckets were full, and past a size only if that is too crowded |
| Ckh.Table.Remove | deps/jemalloc/src/ckh.c:483-513 | exactly the item with the key goes, if any; the table is halved if and only if fewer than a quarter of its cells are used, it is above its minimum, the smaller one can be had, and rebuilding succeeds, as it does if that is not too crowded |
| Ckh.Table.Search | deps/jemalloc/src/ckh.c:515-532 | finds an item if and only if one with the key is in the table |
| Ckh.Table.Isearch | deps/jemalloc/src/ckh.c:70-89 | looks in both buckets, and a miss means that the key is nowhere |
| Ckh.Table.BucketSearch | deps/jemalloc/src/ckh.c:52-65 | finds the key in the bucket, or it is in none of its cells |
| Ckh.Table.TryBucketInsert | deps/jemalloc/src/ckh.c:91-116 | reports full if and only if every cell is occupied, whatever the random start |
| Ckh.Table.EvictRelocInsert | deps/jemalloc/src/ckh.c:124-193 | the loop ends: table and hand together stay the same items at every turn, and a failed chain leaves an old item in hand, never the new one; it makes exactly the turns of the specification that `Ckh.ChaseEnds` is about, up to the first that finds room or a cycle |
| Ckh.Table.TryInsert | deps/jemalloc/src/ckh.c:195-218 | fails only if both buckets are full, and then with an old item in hand |
| Ckh.Table.Rebuild | deps/jemalloc/src/ckh.c:224-245 | success: exactly the items of the old table; failure only if some item has more company in each of its buckets than fits |
| Ckh.Table.Grow | deps/jemalloc/src/ckh.c:247-300 | success: a larger table with the same items, and every size passed over was too crowded; failure: the previous table exactly, and the next size cannot be had or is too crowded |
| Ckh.Table.Shrink | deps/jemalloc/src/ckh.c:302-348 | success: half the table with the same items; failure: the previous table exactly, and the smaller one cannot be had or is too crowded |
| Ckh.Table.constructor | deps/jemalloc/src/ckh.c:350-405 | an empty table, at most three quarters full with `minitems` items, and no larger than that needs |
| Ckh.AllTried | deps/jemalloc/src/ckh.c:91-116 | starting at any cell, four steps see the whole bucket |
| Ckh.OffsetReaches | deps/jemalloc/src/ckh.c:138-149 | every other state of the generator, from any state on, draws every cell of a bucket some time: the loop draws twice a turn |
| Ckh.ComesBack | deps/jemalloc/src/ckh.c:138-149 | an item that a chain puts into a bucket is evicted from it again within 2^63 + 1 turns if the chain does not leave before |
| Ckh.ChainLeaves | deps/jemalloc/src/ckh.c:159-178 | a chain that entered a bucket with an item of two distinct buckets evicts one with another bucket within 2^63 + 1 turns |
| Ckh.StaysOn | deps/jemalloc/src/ckh.c:138-178 | an eviction of the loop after which the bucket does not change is a turn of the chain in that bucket |
| Ckh.ChaseMoves | deps/jemalloc/src/ckh.c:124-193 | as long as the eviction loop goes on, it changes its bucket at least once in any 2^63 + 1 turns |
| Ckh.ChaseEnds | deps/jemalloc/src/ckh.c:124-193 | every eviction chain ends: from every table, bucket, item in hand and state of the generator, the loop comes to a turn that finds room or sees the cycle |
| Ckh.EvictedOnce | deps/jemalloc/src/ckh.c:138-178 | a turn of the eviction loop can be undone: no two states of table, bucket, hand and generator lead to the same one |
| CuckooTable.Swap | deps/jemalloc/src/ckh.c:124-193 | exchanging the hand with an occupied cell of one of its buckets keeps the items of table and hand |
| CuckooTable.Put | deps/jemalloc/src/ckh.c:91-116 | filling an empty cell turns table and hand into the table alone |
| CuckooTable.Clear | deps/jemalloc/src/ckh.c:483-513 | emptying a cell takes exactly its item |
| CuckooTable.SearchMisses | deps/jemalloc/src/ckh.c:70-89 | a key in neither of its buckets is not in the table |
| CuckooTable.OccupiedIsSize | deps/jemalloc/src/ckh.c:430-437 | counting occupied cells is counting items |
| CuckooTable.TakeUp | deps/jemalloc/src/ckh.c:224-245 | the next old item is new to the table being built |
| CuckooTable.WithoutHand | deps/jemalloc/src/ckh.c:459-481 | what remains when the item in hand is dropped |
| Ckh.FullCrowds | deps/jemalloc/src/ckh.c:195-218 | if both buckets of an item in hand are full, it has more company in each of them than fits |
| ChunkRecycler.Recycler.Recycle | deps/jemalloc/src/chunk.c:204-332 | exactly the returned range leaves both trees: the first aligned address of the best fitting node or of the node asked for, with the serial number and the flags of that node; none is returned only if there is no such node or a hook refuses or a node cannot be had; then nothing is lost, except if a node for a range to be put back could not be allocated; every node is in the trees, freed or left to the caller, except one that is lost when an exactly fitting range cannot be committed; it fails, with nothing changed, if and only if the search size is above the largest class |
| ChunkRecycler.Recycler.RecycleLocked | deps/jemalloc/src/chunk.c:204-313 | exactly what is taken and from which node: the range asked for, or one that must be put back because splitting, a node or a commit failed, or nothing because there is no node or the lead cannot be split off; what stays of the node has its serial number and flags; the class table is overread exactly on search sizes above the largest class |
| ChunkRecycler.Recycler.Cut | deps/jemalloc/src/chunk.c:265-317 | what is cut out and what is left, and the number of nodes: one is lost if and only if the node fits the request exactly and the commit fails |
| ChunkRecycler.Recycler.Record | deps/jemalloc/src/chunk.c:514-608 | both trees gain exactly the range; every extent is then made of old ones or the range, with the least of their serial numbers, and zeroed if and only if they all are; with accepting hooks no two touching extents of equal commit state remain, and a hook that refuses is heeded; leaked only if a node cannot be had and none is at hand; no node is lost |
| ChunkRecycler.Recycler.Enter | deps/jemalloc/src/chunk.c:514-574 | forward merge or new node |
| ChunkRecycler.Recycler.MergeBack | deps/jemalloc/src/chunk.c:576-604 | backward merge |
| ChunkRecycler.Recycler.FirstBestFit | deps/jemalloc/src/chunk.c:188-202 | the first extent in size, serial, address order that reaches the rounded size, or none does; no class exactly above the largest one |
| ChunkRecycler.Reaching | deps/jemalloc/src/chunk.c:188-202 | the key of the search separates exactly the extents that reach the rounded size |
| ChunkRecycler.PastTheTable | deps/jemalloc/src/chunk.c:188-202 | 2^62 bytes aligned to 2^62 are a request whose search size no class reaches |
| ChunkRecycler.LeadFits | deps/jemalloc/src/chunk.c:245-249 | aligning inside a range of the search size leaves room for the request |
| ChunkRecycler.AllocExact | deps/jemalloc/src/chunk.c:226-229 | the guard on the search size passes if and only if the sum did not wrap |
| ChunkRecycler.NodeFits | deps/jemalloc/src/chunk.c:245-249 | the assertion on the node found holds, and lead and end are chunk-aligned |
| ChunkRecycler.CarveAll | deps/jemalloc/src/chunk.c:265-306 | cutting a range out of an extent keeps disjointness and the absence of touching extents, and removes exactly it |
| ChunkRecycler.BackAgain | deps/jemalloc/src/chunk.c:277-312 | a range that was taken and recorded again leaves the addresses as they were |
| ChunkSteps.Run | deps/jemalloc/src/chunk.c:204-332 | over every interleaving of recycling, putting back, returning, mapping and unmapping on both pairs of trees, each step of the code is one of the machine, and after it every address is with the system, in the cached trees, in the retained trees, in the hands of one thread, handed out or leaked, and in only one of these; and between two times that an address is handed out it was returned |
| ChunkSteps.KeepStep | deps/jemalloc/src/chunk.c:204-332 | every step of the machine keeps the six places apart and complete, the ranges in the hands of different threads apart, and only what is not out is handed out |
| ChunkSteps.Chunks.TakeRange | deps/jemalloc/src/chunk.c:204-317 | the locked stretch: a range of the size and alignment asked for goes from its trees to the caller, from the node that serves it, or one that must be put back goes into the hands of the thread, or nothing moves, for the same reasons as in `RecycleLocked` |
| ChunkSteps.Chunks.PutRange | deps/jemalloc/src/chunk.c:277-312 | the second stretch: what the thread has in hand goes back into the trees it came from, or is leaked when a node cannot be had, whatever others did in between |
| ChunkSteps.Chunks.DallocRange | deps/jemalloc/src/chunk.c:610-685 | a returned range goes into the cached or the retained trees, or is leaked when a node cannot be had |
| ChunkSteps.ProperIsFair | deps/jemalloc/src/chunk.c:204-332 | where only what is not out is handed out, and only what is out is returned, no address is handed out twice without a return between |
| ChunkSteps.LeakedOnly | deps/jemalloc/src/chunk.c:549-564 | nothing is leaked unless a node for the range could not be had, and what is leaked stays so |
| Extents.CarveLess | deps/jemalloc/src/chunk.c:265-306 | exactly the addresses of the carved range go |
| Extents.CarveNoTouch | deps/jemalloc/src/chunk.c:265-306 | carving makes no two extents touch |
| Extents.JoinOk | deps/jemalloc/src/chunk.c:576-604 | merging two touching extents changes no address |
| Extents.EnterBefore | deps/jemalloc/src/chunk.c:532-552 | the range put in front of its successor |
| Extents.EnterAfter | deps/jemalloc/src/chunk.c:576-604 | the range put behind its predecessor |
| Extents.JoinTouch | deps/jemalloc/src/chunk.c:576-604 | a merged extent touches only what its parts touched |
| Extents.ComposedTwice | deps/jemalloc/src/chunk.c:532-604 | merging forward and then backward is one merge: least serial number, zeroed if and only if all parts are |
| Tcache.Bin.Flush | deps/jemalloc/src/tcache.c:91-171 | for any mix of owners: terminates, returns each of the `ncached - rem` oldest pointers once to its own arena, keeps the other `rem` in order, merges the statistics exactly once |
| Tcache.Bin.FlushPasses | deps/jemalloc/src/tcache.c:105-164 | the passes return the pointers in the order of the specification and merge at most once |
| Tcache.Bin.Pass | deps/jemalloc/src/tcache.c:127-149 | one pass: the arena gets its pointers, the others are compacted to the front in order |
| Tcache.Bin.MoveDown | deps/jemalloc/src/tcache.c:166-168 | the kept pointers move down unchanged |
| Tcache.Bin.EventHard | deps/jemalloc/src/tcache.c:36-74 | flushes three quarters, rounded up, of the low-water mark; the fill divisor moves by at most one and the fill count never falls below one |
| Tcache.Bin.AllocEasy | deps/jemalloc/include/jemalloc/internal/tcache.h:255-280 | pops the newest pointer and lowers the low-water mark to what is left, if it is above that; or reports an empty stack and records it |
| Tcache.Bin.Dalloc | deps/jemalloc/include/jemalloc/internal/tcache.h:404-427 | pushes; a full stack is flushed of its older half first, with its statistics, and the low-water mark is at most what was left |
| Tcache.FlushedOnce | deps/jemalloc/src/tcache.c:91-171 | the returned pointers are a permutation of the flushed ones, each with its own arena |
| Tcache.FlushedGrouped | deps/jemalloc/src/tcache.c:105-152 | no arena is locked in two passes |
| Tcache.FlushedOwners | deps/jemalloc/src/tcache.c:91-171 | an arena that owns none of the pointers gets nothing |
| Tcache.PassSplits | deps/jemalloc/src/tcache.c:127-149 | what one pass returns and what it defers are together what it looked at |
| Dict.RunOps | src/core/atm_dict.c:675-729 | for every run of sets, gets, contains and changes of the resize mode in which no key is set twice, all answers are those of a plain map |
| Dict.Migrate | src/core/atm_dict.c:103-201 | a migration under way ends within as many sets of new keys as buckets are left to visit, and the table it leads to has fewer entries than buckets |
| Dict.SetTwice | src/core/atm_dict.c:713-729 | a run in which a key is set again during a migration: the dictionary no longer holds the map, and the old value is found |
| Dict.Dictionary.ResizeEnable | src/core/atm_dict.c:794-809 | nothing but the mode changes |
| Dict.Dictionary.Set | src/core/atm_dict.c:713-729 | the tables hold the updated map if and only if no migration is under way or the active table lacks the key; a migration begins exactly when the table is full, or five times full if resizing is off, to the first doubling that is at least twice its entries; it moves on by one bucket a set, and the table it leads to has fewer entries than buckets |
| Dict.Dictionary.Rehash | src/core/atm_dict.c:103-201 | no inconsistency exit is reachable; the map is unchanged; one bucket is visited |
| Dict.Dictionary.Visit | src/core/atm_dict.c:131-171 | one round of the loop: the counts are consistent and the map is unchanged |
| Dict.Dictionary.MoveBucket | src/core/atm_dict.c:160-170 | every entry of the bucket moves over, the map is unchanged at every entry |
| Dict.Dictionary.Start | src/core/atm_dict.c:118-127 | a backup of the first doubling that is at least twice the entries |
| Dict.Dictionary.Get | src/core/atm_dict.c:694-710 | the plain map's answer |
| Dict.Dictionary.Contains | src/core/atm_dict.c:675-691 | the plain map's answer |
| Dict.NextPowerEnds | src/core/atm_util.c:11-20 | the doubling loop on 32 bits reaches the number if and only if it is at most 2^31 |
| Dict.NextPower | src/core/atm_util.c:11-20 | the first doubling of four that is not below the number |
| Dict.MoveRefines | src/core/atm_dict.c:165-169 | moving the first entry of a bucket keeps the map |
| Dict.SetRefines | src/core/atm_dict.c:287-306 | setting in the right table updates the map at that key only |
| Dict.FinishRefines | src/core/atm_dict.c:178-200 | an empty active table can be dropped |
| DictTable.PushLookup | src/core/atm_dict.c:258-284 | a pushed entry is found unless its key was, and no other key changes |
| DictTable.SetLookup | src/core/atm_dict.c:287-306 | the key gets the value, no other changes |
| DictTable.PopLookup | src/core/atm_dict.c:165-169 | popping the first entry of a bucket removes exactly its key |
| DictTable.LeftOver | src/core/atm_dict.c:129-195 | nothing is left in the table if and only if no unvisited bucket exists: what rules out the inconsistency exits |
| Quarantine.Ring.Quarantine | deps/jemalloc/src/quarantine.c:116-167 | freed then held objects are the old ones then the new one, in order; the bytes held are exact and within the budget; an object larger than the budget empties the quarantine; otherwise nothing goes if the bytes fit, except one object of a full ring without memory, and else the fewest oldest ones go with which they fit; the ring doubles exactly when it is full and nothing had to go |
| Quarantine.Ring.Grow | deps/jemalloc/src/quarantine.c:61-94 | the sequence is preserved across a wrapped ring; without memory one object is freed |
| Quarantine.Ring.DrainOne | deps/jemalloc/src/quarantine.c:96-106 | the oldest object is freed |
| Quarantine.Ring.Drain | deps/jemalloc/src/quarantine.c:108-114 | frees from the front until the bound holds |
| Quarantine.Ring.MakeRoom | deps/jemalloc/src/quarantine.c:129-142 | room for the bytes and for one more object |
| Quarantine.Ring.Append | deps/jemalloc/src/quarantine.c:143-151 | the object goes behind the last one |
| Quarantine.Ring.Cleanup | deps/jemalloc/src/quarantine.c:169-183 | everything held is freed in order |
| Quarantine.Ring.constructor | deps/jemalloc/src/quarantine.c:22-40 | an empty ring |
| Quarantine.DrainedLeast | deps/jemalloc/src/quarantine.c:108-114 | no shorter drain would reach the bound |
| Quarantine.RoomStays | deps/jemalloc/src/quarantine.c:129-142 | how many of the oldest objects go: the least number with which the new one is within the budget |
| Quarantine.Unwrapped | deps/jemalloc/src/quarantine.c:72-89 | copying from a wrapped ring to the start of a larger one preserves the window |
| Buf.Buffer.Write | src/core/atm_buf.c:237-265 | all bytes are queued behind the unread ones, across blocks |
| Buf.Buffer.Read | src/core/atm_buf.c:203-234 | the oldest unread bytes in order, as many as asked or there are; the rest stays |
| Buf.Buffer.ReadLine | src/core/atm_buf.c:162-200 | a line is found if and only if a CR, LF or NUL is unread; then the bytes before the first one are returned and the whole run of such bytes goes with them; otherwise nothing is taken |
| Buf.Buffer.GetRblk | src/core/atm_buf.c:18-43 | a block with unread bytes, or none is left; used-up blocks go to the pool |
| Buf.Buffer.GetWblk | src/core/atm_buf.c:46-60 | a block with room at the end of the list |
| Buf.Buffer.ScanLine | src/core/atm_buf.c:162-200 | scanning block by block is scanning the flat bytes |
| Buf.Blk.Fill | src/core/atm_buf.c:237-265 | bytes copied into a block follow those it holds |
| Buf.Pool.Release | src/core/atm_blk.c:50-66 | the block is reset, and kept unless the pool is full |
| Buf.Pool.Fetch | src/core/atm_blk.c:69-129 | a pooled block, or a new one |
| LineScan.ScanFinds | src/core/atm_buf.c:162-200 | the scan finds the line exactly |
| LineScan.LineUnique | src/core/atm_buf.c:162-200 | there is only one way to cut the first line off |
| LineScan.FeedStopped | src/core/atm_buf.c:162-200 | bytes after the stop do not matter |
| LinkedList.List.Push | src/core/atm_list.c:195-222 | the value is last, both directions linked |
| LinkedList.List.Lpop | src/core/atm_list.c:281-295 | the first value goes |
| LinkedList.List.Rpop | src/core/atm_list.c:298-312 | the last value goes |
| LinkedList.List.Find | src/core/atm_list.c:265-278 | the first match, or none |
| LinkedList.List.FindEntry | src/core/atm_list.c:74-91 | the entry of the first match |
| LinkedList.List.Del | src/core/atm_list.c:225-262 | the first match goes, nothing else |
| LinkedList.List.Unlink | src/core/atm_list.c:225-262 | in all four cases exactly that entry leaves the chain |
| LinkedList.List.Walk | src/core/atm_list.c:361-398 | every value once, in order |
| NumText.RoundTrip | deps/jemalloc/src/util.c:108-264 | for every word and base 2 to 36 the parser returns the printed value and stops at the end, decimal also with base 0 |
| NumText.RoundTripOctal | deps/jemalloc/src/util.c:292-303 | alternate octal, with base 0 or 8 |
| NumText.RoundTripHex | deps/jemalloc/src/util.c:305-316 | alternate hexadecimal, either case, with base 0 or 16 |
| NumText.RoundTripSigned | deps/jemalloc/src/util.c:266-290 | signed decimal under every sign policy, modulo the word |
| NumText.U2s | deps/jemalloc/src/util.c:223-264 | the digits and the terminator at the end of the buffer, within it |
| NumText.D2s | deps/jemalloc/src/util.c:266-290 | the signed text |
| NumText.O2s | deps/jemalloc/src/util.c:292-303 | the octal text |
| NumText.X2s | deps/jemalloc/src/util.c:305-316 | the hexadecimal text |
| NumText.MallocStrtoumax | deps/jemalloc/src/util.c:108-221 | the loops compute the specification that `NumText.ParseText`, `NumText.ParseHex` and the round trips are about |
| NumText.ConvertExact | deps/jemalloc/src/util.c:186-201 | digits are converted to their value if and only if the value fits a word |
| NumText.ParseExact | deps/jemalloc/src/util.c:108-221 | a string of digits is parsed to its value and to its end if and only if the value fits a word and no leading zero swallows the rest |
| NumText.ParseText | deps/jemalloc/src/util.c:108-221 | for every base, any white space, either sign or none, any digits, and whatever follows them that is no digit: no digits are an error that ends at the start; a zero before anything but an octal digit or x ends the number; the first digit with which the value, taken in a word, becomes smaller is a range error that ends there; else the answer is the value in a word, negated behind a minus, and the end is behind the last digit |
| NumText.ParseHex | deps/jemalloc/src/util.c:163-177 | the same behind the prefix of a hexadecimal number, with base 0 or 16 |
| NumText.ParseFits | deps/jemalloc/src/util.c:108-221 | a number that fits a word is parsed to its value and to its last digit, whatever follows |
| NumText.NoBase | deps/jemalloc/src/util.c:113-117 | a base that is none is an error |
| NumText.Fronts | deps/jemalloc/src/util.c:266-316 | what printing puts in front of the digits: sign, blank, or mark of the base |
| NumText.DigitsCase | deps/jemalloc/src/util.c:223-264 | letters are of the case asked for |
| NumText.OneMoreDigit | deps/jemalloc/src/util.c:186-201 | an overflow is noticed if and only if the wrapped product is below the value so far |
| NumText.RangeExactly | deps/jemalloc/src/util.c:108-221 | a range error is reported for a string of digits if and only if no leading zero swallows the rest and some digit makes the value, taken in a word, smaller |
| NumText.OverflowMissed | deps/jemalloc/src/util.c:186-201 | a concrete number that overflows unnoticed |
| NumText.LeadingZeroStops | deps/jemalloc/src/util.c:151-182 | a zero followed by anything but an octal digit or x ends the number, in every base; `NumText.ParseExact` has the exact condition |
| NumText.DigitsFold | deps/jemalloc/src/util.c:223-264 | the digits of a number stand for it |

## Left out

- ArenaRuns.Arena.AddChunk: starts when the chunk was obtained; that the arena lock is dropped meanwhile shows in that nothing is assumed about the spare chunk.
- ArenaRuns.Arena.SplitLarge: the use with `remove` false (`arena_run_init_large`), which initialises a run that was trimmed from one just allocated, is not there; nor is the growth in place of a large run (`arena_ralloc_large_grow`), which splits with `remove` true.
- ArenaRuns.Arena.RunDalloc: the purging that may follow the release is not modelled.
- ArenaRuns.DirtySum: counts the runs; the cached chunks that the source adds to the same counter are not modelled.
- ProfSafety.NeverBad: has the condition that no insertion fails after displacing an entry, because it is false without; an insertion whose new entry is dropped again by a table that had grown counts as changing nothing. The read at line 704 is not counted as bad, since it can touch freed memory in runs without any failure; `ProfLate.LateExactly` says exactly when.
- ProfSafety.KeepAttach: has the same condition on insertions.
- ProfDump.ScanCaptures: the threads that a dump scans are a parameter; that they are all that have a table is with `prof_tdata` objects, which are not modelled.
- ProfSafety.DumpTotals: counters are unbounded integers; the `nlimbo` window of `prof_gctx_finish` before the unlock is one action with the tree walk.
- ChunkRecycler.Recycler.Recycle: both locked stretches run one after the other; what other threads do between them is in `ChunkSteps`.
- ChunkSteps.Run: serial numbers, commit state and zeroing of what others hold are not followed; decommitting and purging before a range is retained show in the range that is returned.
- Tcache.Bin.Flush: `tcache_bin_flush_large` differs in the lock it takes and in more counters; those counters are not modelled.
- Dict.RunOps: sets of distinct keys only, since the plain-map answer is false otherwise (`Dict.SetTwice`; `Dict.Dictionary.Set` has the exact condition); entry counts stay below 2^30 so that doubling fits 32 bits.
- Buf.Buffer.Write: one buffer per pool and one thread; the socket variants are not modelled.
- LinkedList.List.Lpop: head and tail are popped by the assignments of the unlinking that `atm_list_del` uses; freeing of values is not modelled.
- NumText.D2s: the most negative number is excluded, since its negation is undefined in C.
- Regind.RegindIsQuotient: needs 2m + 10 <= 64 for runs of at most 2^m regions; pages of 4 KiB give m = 9.
- MapBits.UnallocatedMeans: the words for pages of 4 KiB on a 64-bit machine.
- Prng.Generator.Range: the variants that update the state atomically are not modelled.
- Purging: stashing, decay and the limits on dirty pages, and the share of cached chunks in `ndirty`.
- Huge allocations, reallocation in place, `arena_reset`, statistics, tracing and junk filling.
- `prof_tdata` objects (their lifetime, detaching, expiry and reset), backtraces, the floating-point sampling threshold, and the text of a dump.
- `atm_dict_del`, dictionary locking, and concrete hash functions.
- Sockets, event loop, tasks, connections, logging, configuration and strings of atm-cache: plumbing without a comparable invariant.
- Operating-system calls, thread-specific data, fork handlers and boot code of the allocator.
