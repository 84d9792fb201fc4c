/**
 Recycling of address ranges: two trees over the same free extents, one ordered by quantized size,
 serial number and address, the other by address.
 */
module ChunkRecycler {
  import opened Wrappers
  import opened Arith
  import opened Pow2
  import opened Quantize
  import opened Extents

  const WORD := 0x1_0000_0000_0000_0000

  /** What the hooks and the allocator of tree nodes answer, in the order in which they are asked. */
  datatype Answers = Answers(splitLead: bool, splitTrail: bool, trailNode: bool, commit: bool,
                             mergeNext: bool, recordNode: bool, mergePrev: bool)

  /** What a locked stretch of chunk_recycle() comes to: nothing was done, a range was taken for the
      caller, or a range was taken that has to be recorded again; or the class table was read past its end. */
  datatype Taken = Nothing | OutOfRange | Got(addr: nat, sn: nat, zeroed: bool, committed: bool) | GiveBack(range: Extent)

  /** What chunk_first_best_fit() comes to. */
  datatype Found = Node(node: Extent) | NoNode | NoClass

  /** CHUNK_CEILING() and ALIGNMENT_CEILING() */
  function Ceiling(x: nat, unit: nat): nat
    requires unit > 0
  {
    (x + (unit - 1)) / unit * unit
  }

  /** The size that is searched for, so that any chunk address leaves room to align; size_t wraps. */
  function AllocSize(chunk: nat, size: nat, alignment: nat): nat
    requires chunk > 0
  {
    (size + Ceiling(alignment, chunk) - chunk) % WORD
  }

  /** extent_szsnad_comp() */
  predicate SzsnadLeq(c: seq<nat>, x: Extent, y: Extent)
    requires Table(c)
  {
    var p, q := ExtentFloor(c, x.size), ExtentFloor(c, y.size);
    p < q || (p == q && (x.sn < y.sn || (x.sn == y.sn && x.addr <= y.addr)))
  }

  /** The first node of the size-ordered tree that is not below a key of size `q`. */
  predicate FirstFrom(c: seq<nat>, s: set<Extent>, q: nat, x: Extent)
    requires Table(c)
  {
    && x in s && ExtentFloor(c, x.size) >= ExtentFloor(c, q)
    && forall y :: y in s && ExtentFloor(c, y.size) >= ExtentFloor(c, q) ==> SzsnadLeq(c, x, y)
  }

  lemma {:induction false} FirstFromExists(c: seq<nat>, s: set<Extent>, q: nat)
    requires Table(c) && exists x :: x in s && ExtentFloor(c, x.size) >= ExtentFloor(c, q)
    ensures exists x :: FirstFrom(c, s, q, x)
    decreases s
  {
    hide ExtentFloor;
    var x :| x in s && ExtentFloor(c, x.size) >= ExtentFloor(c, q);
    var rest := s - {x};
    if y :| y in rest && ExtentFloor(c, y.size) >= ExtentFloor(c, q) {
      FirstFromExists(c, rest, q);
      var z :| FirstFrom(c, rest, q, z);
      var w := if SzsnadLeq(c, x, z) then x else z;
      forall y | y in s && ExtentFloor(c, y.size) >= ExtentFloor(c, q) ensures SzsnadLeq(c, w, y) {
        assert y == x || y in rest;
      }
      assert FirstFrom(c, s, q, w);
    } else {
      assert FirstFrom(c, s, q, x);
    }
  }

  /** A node that the search can find is large enough, and one that reaches the rounded size is found. */
  lemma Reaching(c: seq<nat>, x: nat, alloc: nat)
    requires Table(c) && c[0] <= x
    ensures ExtentCeil(c, alloc).Some? ==>
              var q := ExtentCeil(c, alloc).value;
              && (ExtentFloor(c, x) >= ExtentFloor(c, q) <==> x >= q)
              && q >= alloc
  {
    ExtentFitExact(c, x, alloc);
    ExtentCeilIs(c, alloc);
  }

  /** HUGE_MAXCLASS with 64-bit addresses and four classes to a doubling. */
  const HUGE_MAXCLASS: nat := 0x7000_0000_0000_0000

  /** A request for 2^62 bytes aligned to as much, which sa2u() lets pass, searches for a size that no class
      reaches, and so reads past the table of classes. */
  lemma PastTheTable(c: seq<nat>)
    requires Table(c) && c[|c| - 1] == HUGE_MAXCLASS
    ensures var chunk, size := 0x20_0000, 0x4000_0000_0000_0000;
            && CanAsk(chunk, None, size, size)
            && AllocSize(chunk, size, size) == 0x8000_0000_0000_0000 - chunk > HUGE_MAXCLASS
            && ExtentCeil(c, AllocSize(chunk, size, size)) == None
  {
    var chunk, size := 0x20_0000, 0x4000_0000_0000_0000;
    assert Ceiling(size, chunk) == size;
    ExtentCeilIs(c, AllocSize(chunk, size, size));
  }

  /** A ceiling is the first multiple that is not below. */
  lemma CeilingIs(x: nat, unit: nat)
    requires unit > 0
    ensures Ceiling(x, unit) % unit == 0 && x <= Ceiling(x, unit) < x + unit
  {
    var y := x + (unit - 1);
    MultipleOf(unit, y / unit);
    assert y == y / unit * unit + y % unit;
  }

  /** Aligning inside a range that was searched for with the aligned size leaves room. */
  lemma LeadFits(chunk: nat, addr: nat, align: nat)
    requires chunk > 0 && align > 0 && addr % chunk == 0 && (align % chunk == 0 || chunk % align == 0)
    ensures var lead := Ceiling(addr, align) - addr;
            && 0 <= lead && chunk <= Ceiling(align, chunk) && lead <= Ceiling(align, chunk) - chunk
            && lead % chunk == 0 && (addr + lead) % align == 0
  {
    var r, a := Ceiling(addr, align), Ceiling(align, chunk);
    CeilingIs(addr, align);
    CeilingIs(align, chunk);
    hide Ceiling;
    MultipleGap(0, a, chunk);
    if chunk % align == 0 {
      MultipleAgain(addr, chunk, align);
      if addr < r {
        MultipleGap(addr, r, align);
      }
    } else {
      MultipleAgain(r, align, chunk);
      ModSum(r, addr, chunk);
      ModSum(align, 0, chunk);
      MultipleGap(r - addr, align, chunk);
    }
  }

  lemma AtLeastChunk(s: set<Extent>, chunk: nat, x: Extent)
    requires Ok(s, chunk) && x in s
    ensures chunk <= x.size
  {
    assert Aligned(x, chunk);
    MultipleGap(0, x.size, chunk);
  }

  predicate IsPrev(s: set<Extent>, node: Extent, x: Extent) {
    x.addr < node.addr && forall y :: y in s && y.addr < node.addr ==> y.addr <= x.addr
  }

  lemma {:induction false} PrevExists(s: set<Extent>, node: Extent)
    ensures (forall y :: y in s ==> y.addr >= node.addr) || exists x :: x in s && IsPrev(s, node, x)
    decreases s
  {
    if y :| y in s {
      var rest := s - {y};
      PrevExists(rest, node);
      if forall z :: z in rest ==> z.addr >= node.addr {
        assert y.addr < node.addr ==> IsPrev(s, node, y);
      } else {
        var x :| x in rest && IsPrev(rest, node, x);
        assert IsPrev(s, node, if y.addr < node.addr && x.addr < y.addr then y else x);
      }
    }
  }

  /** Every address of `y` was known to be zeroed. */
  ghost predicate AllZeroed(s: set<Extent>, y: Extent) {
    forall a :: y.Has(a) ==> exists x :: x in s && x.zeroed && x.Has(a)
  }

  /** What `s'` says is zeroed, `s` said already. */
  ghost predicate ZeroedFrom(s: set<Extent>, s': set<Extent>) {
    forall y :: y in s' && y.zeroed ==> AllZeroed(s, y)
  }

  ghost predicate NoneZeroed(s: set<Extent>) {
    forall y :: y in s ==> !y.zeroed
  }

  lemma ZeroedSame(s: set<Extent>)
    ensures ZeroedFrom(s, s)
  {
  }

  lemma ZeroedKept(s: set<Extent>, x: Extent)
    ensures ZeroedFrom(s + {x}, s) && ZeroedFrom(s + {x}, s + {x}) && ZeroedFrom(s + {x}, s + {x.(zeroed := false)})
  {
    forall y | y in s + {x} && y.zeroed ensures AllZeroed(s + {x}, y) {
    }
  }

  lemma ZeroedJoin(s: set<Extent>, x: Extent, next: Extent, j: Extent)
    requires next in s && x.End() == next.addr && j.addr == x.addr && j.size == x.size + next.size
    requires j.zeroed ==> x.zeroed && next.zeroed
    ensures ZeroedFrom(s + {x}, s - {next} + {j})
  {
    var s' := s + {x};
    forall a | j.zeroed && j.Has(a) ensures exists y :: y in s' && y.zeroed && y.Has(a) {
      assert if x.Has(a) then x in s' else next.Has(a) && next in s';
    }
    forall y | y in s && y.zeroed ensures AllZeroed(s', y) {
      assert y in s';
    }
  }

  lemma ZeroedBack(s: set<Extent>, p: Extent, n: Extent, j: Extent)
    requires p in s && n in s && p.End() == n.addr && j.addr == p.addr && j.size == p.size + n.size
    requires j.zeroed ==> p.zeroed && n.zeroed
    ensures ZeroedFrom(s, s - {p, n} + {j})
  {
    ZeroedJoin(s, p, n, j);
    assert s + {p} == s;
  }

  lemma ZeroedAgain(s: set<Extent>, s1: set<Extent>, s2: set<Extent>)
    requires ZeroedFrom(s, s1) && ZeroedFrom(s1, s2)
    ensures ZeroedFrom(s, s2)
  {
    forall y, a | y in s2 && y.zeroed && y.Has(a) ensures exists x :: x in s && x.zeroed && x.Has(a) {
      assert AllZeroed(s1, y);
      var z :| z in s1 && z.zeroed && z.Has(a);
      assert AllZeroed(s, z);
    }
  }

  lemma InEntered(s: set<Extent>, chunk: nat, x: Extent, s1: set<Extent>, n: Extent)
    requires Entered(s, chunk, x, s1, n)
    ensures n in s1 && Ok(s1, chunk) && n.addr == x.addr && n.committed == x.committed && More(s, x, s1)
  {
  }

  // ---------------------------------------------------------------- taking a range

  /** What chunk_recycle() asserts of its arguments; alignments are powers of two, as chunks are. */
  predicate CanAsk(chunk: nat, newAddr: Option<nat>, size: nat, alignment: nat) {
    && chunk > 0 && 0 < size < WORD && size % chunk == 0 && 0 < alignment
    && (alignment % chunk == 0 || chunk % alignment == 0) && Ceiling(alignment, chunk) <= WORD
    && (newAddr.Some? ==> alignment == chunk && newAddr.value % chunk == 0)
  }

  /** The range `x` was in `s` and is not in `s'`, and nothing else changed. */
  ghost predicate TakenOut(s: set<Extent>, s': set<Extent>, chunk: nat, x: Extent)
    requires chunk > 0
  {
    && Less(s, x.addr, x.End(), s') && Aligned(x, chunk) && Clear(s', x)
    && (forall a: int :: x.Has(a) ==> Covered(s, a, x.committed))
    && (x.zeroed ==> AllZeroed(s, x))
  }

  /** When the search size did not wrap, it is the size and the most that aligning can skip. */
  lemma AllocExact(chunk: nat, size: nat, ceiling: nat)
    requires chunk > 0 && size < WORD && chunk <= ceiling <= WORD
    ensures var sum := size + ceiling - chunk;
            sum % WORD >= size <==> sum % WORD == sum
  {
  }

  lemma OwnCeiling(chunk: nat)
    requires chunk > 0
    ensures Ceiling(chunk, chunk) == chunk
  {
    CeilingIs(chunk, chunk);
    hide Ceiling;
    ModSum(chunk, 0, chunk);
    if chunk < Ceiling(chunk, chunk) {
      MultipleGap(chunk, Ceiling(chunk, chunk), chunk);
    }
  }

  /** The assertion on the size of the node that was found. */
  lemma NodeFits(s: set<Extent>, chunk: nat, node: Extent, newAddr: Option<nat>, size: nat, alignment: nat)
    requires Ok(s, chunk) && node in s && CanAsk(chunk, newAddr, size, alignment)
    requires AllocSize(chunk, size, alignment) >= size
    requires if newAddr.Some? then node.addr == newAddr.value && node.size >= size
             else node.size >= AllocSize(chunk, size, alignment)
    ensures var lead := Ceiling(node.addr, alignment) - node.addr;
            && 0 <= lead && node.size >= lead + size && (newAddr.Some? ==> lead == 0)
            && (node.addr + lead) % alignment == 0 && (node.addr + lead) % chunk == 0
            && (node.addr + lead + size) % chunk == 0
  {
    assert Aligned(node, chunk);
    LeadFits(chunk, node.addr, alignment);
    AllocExact(chunk, size, Ceiling(alignment, chunk));
    OwnCeiling(chunk);
    hide Ceiling;
    var lead := Ceiling(node.addr, alignment) - node.addr;
    ModSum(node.addr, lead, chunk);
    ModSum(node.addr + lead, size, chunk);
  }

  lemma CarveAll(s: set<Extent>, chunk: nat, node: Extent, lo: nat, hi: nat, cache: bool)
    requires Ok(s, chunk) && node in s && node.addr <= lo < hi <= node.End() && (cache ==> NoneZeroed(s))
    requires lo % chunk == 0 && (hi % chunk == 0 || hi == node.End())
    ensures var s' := Carve(s, node, lo, hi);
            && Ok(s', chunk) && (cache ==> NoneZeroed(s') && !node.zeroed)
            && (NoTouch(s) ==> NoTouch(s')) && ZeroedFrom(s, s')
            && TakenOut(s, s', chunk, Extent(lo, hi - lo, node.sn, node.zeroed, node.committed))
  {
    assert Aligned(node, chunk);
    ModSum(node.addr, node.size, chunk);
    ModSum(hi, lo, chunk);
    CarveOk(s, chunk, node, lo, hi);
    CarveLess(s, chunk, node, lo, hi);
    if NoTouch(s) {
      CarveNoTouch(s, chunk, node, lo, hi);
    }
    assert node.zeroed ==> AllZeroed(s, node);
    hide Ok, NoTouch, Less;
    forall y | y in Carve(s, node, lo, hi) && y.zeroed ensures AllZeroed(s, y) {
    }
  }

  /** How many ranges carving leaves. */
  lemma CarveSize(s: set<Extent>, chunk: nat, node: Extent, lo: nat, hi: nat)
    requires Ok(s, chunk) && node in s && node.addr <= lo < hi <= node.End()
    ensures |Carve(s, node, lo, hi)|
            == |s| - 1 + (if node.addr < lo then 1 else 0) + (if hi < node.End() then 1 else 0)
  {
    hide Ok, Carve;
    CarvedParts(s, node, lo, hi);
    NewParts(s, chunk, node, lo, hi);
    var lead, trail := node.(size := lo - node.addr), Extent(hi, node.End() - hi, node.sn, node.zeroed, node.committed);
    if node.addr < lo {
      OneMore(s - {node}, lead);
      if hi < node.End() {
        OneMore(s - {node} + {lead}, trail);
      }
    } else if hi < node.End() {
      OneMore(s - {node}, trail);
    }
  }

  /** What is left of a node on either side was no node of its own. */
  lemma NewParts(s: set<Extent>, chunk: nat, node: Extent, lo: nat, hi: nat)
    requires Ok(s, chunk) && node in s && node.addr <= lo < hi <= node.End()
    ensures node.addr < lo ==> node.(size := lo - node.addr) !in s
    ensures hi < node.End() ==> Extent(hi, node.End() - hi, node.sn, node.zeroed, node.committed) !in s
  {
  }

  /** A range that is cut out of a node and is a node itself is all of it. */
  lemma WholeNode(s: set<Extent>, chunk: nat, node: Extent, lo: nat, size: nat)
    requires Ok(s, chunk) && node in s && node.addr <= lo && 0 < size && lo + size <= node.End()
    ensures Extent(lo, size, node.sn, node.zeroed, node.committed) in s <==> lo == node.addr && size == node.size
  {
  }

  lemma OneMore(s: set<Extent>, x: Extent)
    requires x !in s
    ensures |s + {x}| == |s| + 1
  {
  }

  lemma Exchanged(s: set<Extent>, x: Extent, y: Extent)
    requires x in s && y !in s
    ensures |s - {x} + {y}| == |s|
  {
  }

  lemma JoinedOut(s: set<Extent>, chunk: nat, p: Extent, n: Extent, j: Extent)
    requires Ok(s, chunk) && p in s && n in s && p.End() == n.addr && j.addr == p.addr && j.size == p.size + n.size
    ensures p != n && j !in s && |s - {p, n} + {j}| == |s| - 1
  {
    assert s == (s - {p, n}) + {p, n};
    assert |{p, n}| == 2;
  }

  /** The parts that carving leaves, as they are inserted. */
  lemma CarvedParts(s: set<Extent>, node: Extent, lo: nat, hi: nat)
    requires node in s && node.addr <= lo <= hi <= node.End()
    ensures var t := if node.addr < lo then s - {node} + {node.(size := lo - node.addr)} else s - {node};
            Carve(s, node, lo, hi)
            == if hi < node.End() then t + {Extent(hi, node.End() - hi, node.sn, node.zeroed, node.committed)} else t
  {
  }

  /** The same addresses, with the same commit state. */
  ghost predicate SameCover(s: set<Extent>, s': set<Extent>) {
    forall a: int, b: bool :: Covered(s', a, b) <==> Covered(s, a, b)
  }

  lemma SameCovers(s: set<Extent>)
    ensures SameCover(s, s)
  {
  }

  /** A range that was taken out and recorded again leaves the addresses as they were. */
  lemma BackAgain(s: set<Extent>, s1: set<Extent>, chunk: nat, x: Extent, s2: set<Extent>)
    requires chunk > 0 && Ok(s, chunk) && TakenOut(s, s1, chunk, x) && More(s1, x, s2)
    ensures SameCover(s, s2)
  {
    forall a: int, b: bool ensures Covered(s2, a, b) <==> Covered(s, a, b) {
      if x.Has(a) && Covered(s, a, b) {
        var y :| y in s && y.Has(a) && y.committed == b;
        var z :| z in s && z.Has(a) && z.committed == x.committed;
        assert y != z ==> Apart(y, z);
      }
    }
  }

  lemma ZeroedPart(s: set<Extent>, s1: set<Extent>, chunk: nat, x: Extent)
    requires chunk > 0 && TakenOut(s, s1, chunk, x) && ZeroedFrom(s, s1)
    ensures ZeroedFrom(s, s1 + {x})
  {
  }

  /** A range goes across the address. */
  ghost predicate Crossed(s: set<Extent>, a: nat) {
    exists y :: y in s && y.addr < a < y.End()
  }

  lemma NewCrosses(s: set<Extent>, chunk: nat, x: Extent)
    requires Ok(s, chunk) && Aligned(x, chunk) && Clear(s, x)
    ensures !Crossed(s + {x}, x.addr) && !Crossed(s + {x}, x.End()) && x !in s && Ok(s + {x}, chunk)
    ensures x in s + {x} && forall y :: y in s ==> y in s + {x}
  {
    AddOk(s, chunk, x);
    assert x in s ==> Apart(x, x);
  }

  lemma NextJoins(s: set<Extent>, chunk: nat, x: Extent, next: Extent, n: Extent)
    requires Ok(s, chunk) && Aligned(x, chunk) && Clear(s, x) && next in s && Touch(x, next)
    requires n == Extent(x.addr, x.size + next.size, if x.sn < next.sn then x.sn else next.sn, x.zeroed && next.zeroed, x.committed)
    ensures Composed(s + {x}, s - {next} + {n}) && !Crossed(s - {next} + {n}, x.addr)
  {
    hide Ok, Composed, Crossed, Clear, Touch, Aligned;
    NewCrosses(s, chunk, x);
    ComposedJoin(s + {x}, chunk, x, next, n);
    assert s + {x} - {x, next} + {n} == s - {next} + {n};
    LessCrosses(s + {x}, s - {next}, x.addr, n);
  }

  lemma LessCrosses(s: set<Extent>, s': set<Extent>, a: nat, n: Extent)
    requires !Crossed(s, a) && s' <= s && n.addr == a
    ensures !Crossed(s' + {n}, a)
  {
  }

  lemma PrevCrosses(s: set<Extent>, chunk: nat, p: Extent, n: Extent, j: Extent, a: nat)
    requires Ok(s, chunk) && p in s && n in s && Touch(p, n) && j.addr == p.addr && j.size == p.size + n.size
    requires n.addr < a && !Crossed(s, a)
    ensures !Crossed(s - {p, n} + {j}, a)
  {
    var s' := s - {p, n} + {j};
    forall y | y in s' ensures !(y.addr < a < y.End()) {
      if y == j {
        assert !(n.addr < a < n.End());
      }
    }
  }

  /** A trail cannot stay when the split hook refuses, or when the node is needed for a lead and no other can be
      had.  Then everything behind the lead is given back; otherwise only what was asked for is, if the commit hook
      refuses. */
  function CutTo(node: Extent, ret: nat, size: nat, ask: Answers): Taken
    requires node.addr <= ret && ret + size <= node.End()
  {
    var trail := ret + size < node.End();
    if trail && (ask.splitTrail || (node.addr < ret && !ask.trailNode))
    then GiveBack(Extent(ret, node.End() - ret, node.sn, node.zeroed, node.committed))
    else if !node.committed && ask.commit then GiveBack(Extent(ret, size, node.sn, node.zeroed, node.committed))
    else Got(ret, node.sn, node.zeroed, node.committed)
  }

  /** The node that a request is served from. */
  ghost predicate Chosen(c: seq<nat>, s: set<Extent>, newAddr: Option<nat>, alloc: nat, size: nat, node: Extent)
    requires Table(c)
  {
    && node in s
    && if newAddr.Some? then node.addr == newAddr.value && node.size >= size
       else ExtentCeil(c, alloc).Some? && node.size >= ExtentCeil(c, alloc).value
            && forall y :: y in s && y.size >= ExtentCeil(c, alloc).value ==> SzsnadLeq(c, node, y)
  }

  /** A request whose size does not overflow, and whose search is within the table, is served from the chosen node,
      at its first aligned address; unless there is none, or the split hook refuses to leave a lead. */
  ghost predicate Served(c: seq<nat>, s: set<Extent>, newAddr: Option<nat>, alloc: nat, size: nat, alignment: nat,
                         ask: Answers, r: Taken)
    requires Table(c) && alignment > 0
  {
    if alloc < size || r.OutOfRange? then !r.Got? && !r.GiveBack?
    else if forall node :: !Chosen(c, s, newAddr, alloc, size, node) then r.Nothing?
    else exists node ::
      && Chosen(c, s, newAddr, alloc, size, node) && node.addr <= Ceiling(node.addr, alignment)
      && Ceiling(node.addr, alignment) + size <= node.End()
      && r == if node.addr < Ceiling(node.addr, alignment) && ask.splitLead then Nothing
              else CutTo(node, Ceiling(node.addr, alignment), size, ask)
  }

  lemma ServedNever(c: seq<nat>, s: set<Extent>, newAddr: Option<nat>, alloc: nat, size: nat, alignment: nat, ask: Answers)
    requires Table(c) && alignment > 0
    ensures alloc < size ==> Served(c, s, newAddr, alloc, size, alignment, ask, Nothing)
    ensures Served(c, s, newAddr, alloc, size, alignment, ask, OutOfRange)
  {
  }

  lemma ServedNot(c: seq<nat>, s: set<Extent>, newAddr: Option<nat>, alloc: nat, size: nat, alignment: nat, ask: Answers)
    requires Table(c) && alignment > 0 && forall node :: !Chosen(c, s, newAddr, alloc, size, node)
    ensures Served(c, s, newAddr, alloc, size, alignment, ask, Nothing)
  {
  }

  lemma ServedFrom(c: seq<nat>, s: set<Extent>, newAddr: Option<nat>, alloc: nat, size: nat, alignment: nat,
                   ask: Answers, node: Extent, ret: nat)
    requires Table(c) && alignment > 0 && alloc >= size && Chosen(c, s, newAddr, alloc, size, node)
    requires ret == Ceiling(node.addr, alignment) && node.addr <= ret && ret + size <= node.End()
    ensures Served(c, s, newAddr, alloc, size, alignment, ask,
                   if node.addr < ret && ask.splitLead then Nothing else CutTo(node, ret, size, ask))
  {
    hide Chosen, Ceiling;
  }

  /** The first aligned address of the chosen node, and what the node says of it. */
  ghost predicate ComesFrom(c: seq<nat>, s: set<Extent>, newAddr: Option<nat>, alloc: nat, size: nat, alignment: nat,
                            addr: nat, sn: nat, zeroed: bool, committed: bool, node: Extent)
    requires Table(c) && alignment > 0
  {
    Chosen(c, s, newAddr, alloc, size, node) && addr == Ceiling(node.addr, alignment)
    && sn == node.sn && zeroed == node.zeroed && committed == node.committed
  }

  lemma GotFrom(c: seq<nat>, s: set<Extent>, newAddr: Option<nat>, alloc: nat, size: nat, alignment: nat, ask: Answers,
                r: Taken) returns (node: Extent)
    requires Table(c) && alignment > 0 && Served(c, s, newAddr, alloc, size, alignment, ask, r) && r.Got?
    ensures ComesFrom(c, s, newAddr, alloc, size, alignment, r.addr, r.sn, r.zeroed, r.committed, node)
  {
    hide Chosen, Ceiling;
    node :|
      && Chosen(c, s, newAddr, alloc, size, node) && node.addr <= Ceiling(node.addr, alignment)
      && Ceiling(node.addr, alignment) + size <= node.End()
      && r == if node.addr < Ceiling(node.addr, alignment) && ask.splitLead then Nothing
              else CutTo(node, Ceiling(node.addr, alignment), size, ask);
  }

  /** Only a missing node or a hook stands in the way. */
  lemma NotGot(c: seq<nat>, s: set<Extent>, newAddr: Option<nat>, alloc: nat, size: nat, alignment: nat, ask: Answers,
               r: Taken)
    requires Table(c) && alignment > 0 && Served(c, s, newAddr, alloc, size, alignment, ask, r)
    requires !r.Got? && !r.OutOfRange? && alloc >= size
    ensures || (forall node :: !Chosen(c, s, newAddr, alloc, size, node))
            || ask.splitLead || ask.splitTrail || !ask.trailNode || ask.commit
  {
    hide Chosen, Ceiling;
  }

  lemma NoneChosen(c: seq<nat>, s: set<Extent>, newAddr: Option<nat>, alloc: nat, size: nat)
    requires Table(c)
    requires if newAddr.Some? then forall y :: y in s && y.addr == newAddr.value ==> y.size < size
             else ExtentCeil(c, alloc).Some? ==> forall y :: y in s ==> y.size < ExtentCeil(c, alloc).value
    ensures forall node :: !Chosen(c, s, newAddr, alloc, size, node)
  {
    hide ExtentCeil;
  }

  lemma CarveParts(s: set<Extent>, node: Extent, lo: nat, hi: nat)
    requires node in s && node.addr <= lo <= hi <= node.End()
    ensures PartsOf(s, Carve(s, node, lo, hi))
  {
    forall y | y in Carve(s, node, lo, hi)
      ensures exists z :: z in s && Within(y, z) && y.sn == z.sn && y.zeroed == z.zeroed && y.committed == z.committed
    {
      if y in s {
        assert Within(y, y);
      } else {
        assert Within(y, node);
      }
    }
  }

  lemma PartsSelf(s: set<Extent>)
    ensures PartsOf(s, s)
  {
    forall y | y in s
      ensures exists z :: z in s && Within(y, z) && y.sn == z.sn && y.zeroed == z.zeroed && y.committed == z.committed
    {
      assert Within(y, y);
    }
  }

  // ---------------------------------------------------------------- the two trees

  class Recycler {
    const chunk: nat
    const classes: seq<nat>
    const cache: bool
    var szsnad: set<Extent>
    var ad: set<Extent>
    /** The nodes that were allocated and not freed or left to the caller. */
    var nodes: int

    ghost predicate Valid()
      reads this
    {
      && Table(classes) && classes[0] <= chunk && szsnad == ad && Ok(ad, chunk)
      && (cache ==> NoneZeroed(ad))
    }

    /** The nodes that no tree holds: they are lost. */
    ghost function Stray(): int
      reads this
    {
      nodes - |ad|
    }

    constructor (chunk: nat, classes: seq<nat>, cache: bool)
      requires chunk > 0 && Table(classes) && classes[0] <= chunk
      ensures Valid() && ad == {} && this.chunk == chunk && this.classes == classes && this.cache == cache
      ensures Stray() == 0
    {
      this.chunk, this.classes, this.cache := chunk, classes, cache;
      szsnad, ad, nodes := {}, {}, 0;
    }

    /** chunk_first_best_fit() */
    method FirstBestFit(size: nat) returns (r: Found)
      requires Valid()
      ensures r.NoClass? <==> size > classes[|classes| - 1]
      ensures !r.NoClass? ==> ExtentCeil(classes, size).Some?
      ensures r.Node? ==> r.node in ad && r.node.size >= ExtentCeil(classes, size).value >= size
      ensures r.Node? ==>
                forall y :: y in ad && y.size >= ExtentCeil(classes, size).value ==> SzsnadLeq(classes, r.node, y)
      ensures r.NoNode? ==> forall y :: y in ad ==> y.size < ExtentCeil(classes, size).value
    {
      ExtentCeilIs(classes, size);
      hide ExtentFloor, ExtentCeil;
      if ExtentCeil(classes, size).None? {
        return NoClass;
      }
      var q := ExtentCeil(classes, size).value;
      forall x | x in ad
        ensures ExtentFloor(classes, x.size) >= ExtentFloor(classes, q) <==> x.size >= q
      {
        AtLeastChunk(ad, chunk, x);
        Reaching(classes, x.size, size);
      }
      if exists x :: x in szsnad && ExtentFloor(classes, x.size) >= ExtentFloor(classes, q) {
        FirstFromExists(classes, szsnad, q);
        var x :| x in szsnad && FirstFrom(classes, szsnad, q, x);
        return Node(x);
      }
      return NoNode;
    }

    /** extent_tree_ad_search() */
    method AdSearch(addr: nat) returns (r: Option<Extent>)
      requires Valid()
      ensures r.Some? ==> r.value in ad && r.value.addr == addr
      ensures forall y :: y in ad && y.addr == addr ==> r == Some(y)
    {
      if x :| x in ad && x.addr == addr {
        SameAddr(ad, chunk, x);
        return Some(x);
      }
      return None;
    }

    /** extent_tree_ad_prev(): the range before `node`. */
    method AdPrev(node: Extent) returns (r: Option<Extent>)
      requires Valid() && node in ad
      ensures r.Some? ==> r.value in ad && r.value.addr < node.addr
      ensures forall y :: y in ad && y.End() == node.addr ==> r == Some(y)
    {
      PrevExists(ad, node);
      if x :| x in ad && IsPrev(ad, node, x) {
        forall y | y in ad && y.End() == node.addr ensures y == x {
          assert Aligned(y, chunk) && Aligned(node, chunk);
          assert y != x ==> Apart(x, y);
        }
        return Some(x);
      }
      return None;
    }

    /** The first half of chunk_record(): the range enters both trees, as the head of the range that
        follows it if that has its commit state and the merge hook agrees. */
    method Enter(x: Extent, merge: bool, nodeOk: bool) returns (leaked: bool, n: Extent)
      requires Valid() && Aligned(x, chunk) && Clear(ad, x) && (!cache || !x.zeroed)
      modifies this
      ensures Valid()
      ensures leaked ==> ad == old(ad) && !nodeOk
      ensures !leaked ==> Entered(old(ad), chunk, x, ad, n)
      ensures !leaked && merge && NoTouch(old(ad)) ==> forall y :: y in ad ==> !Touch(n, y)
      ensures ZeroedFrom(old(ad) + {x}, ad) && Stray() == old(Stray())
      ensures leaked ==> forall y :: y in ad && Touch(x, y) ==> !merge
      ensures !leaked ==> Composed(old(ad) + {x}, ad) && !Crossed(ad, x.addr) && (!merge ==> !Crossed(ad, x.End()))
    {
      hide Ok, More, NoTouch, NoTouchBut, Clear, Table, ZeroedFrom, Entered, Composed, Crossed;
      NewCrosses(ad, chunk, x);
      ComposedSelf(ad + {x}, chunk);
      var unzeroed := cache || !x.zeroed;
      var node := AdSearch(x.End());
      if node.Some? && node.value.committed == x.committed && merge {
        var next := node.value;
        n := Extent(x.addr, x.size + next.size, if x.sn < next.sn then x.sn else next.sn,
                    next.zeroed && !unzeroed, next.committed);
        EnterBefore(ad, chunk, x, next, n);
        NextJoins(ad, chunk, x, next, n);
        Exchanged(ad, next, n);
        ZeroedJoin(ad, x, next, n);
        InEntered(ad, chunk, x, ad - {next} + {n}, n);
        szsnad := szsnad - {next};
        ad := ad - {next} + {n};
        szsnad := szsnad + {n};
        return false, n;
      }
      n := x.(zeroed := !unzeroed);
      ZeroedKept(ad, x);
      leaked := EnterNew(n, nodeOk);
    }

    /** A range that is not merged with the one that follows it gets a node of its own. */
    method EnterNew(n: Extent, nodeOk: bool) returns (leaked: bool)
      requires Valid() && Aligned(n, chunk) && Clear(ad, n) && (!cache || !n.zeroed)
      modifies this
      ensures Valid() && Stray() == old(Stray()) && (leaked <==> !nodeOk)
      ensures ad == if leaked then old(ad) else old(ad) + {n}
      ensures !leaked ==> Entered(old(ad), chunk, n, ad, n)
      ensures (forall y :: y in old(ad) ==> !Touch(n, y)) ==> forall y :: y in ad && !leaked ==> !Touch(n, y)
    {
      hide Ok, More, NoTouch, NoTouchBut, Clear, Table, Entered;
      if !nodeOk {
        return true;
      }
      EnterAlone(ad, chunk, n);
      OneMore(ad, n);
      InEntered(ad, chunk, n, ad + {n}, n);
      nodes := nodes + 1;
      ad := ad + {n};
      szsnad := szsnad + {n};
      return false;
    }

    /** The second half: the node becomes the tail of the range before it, under the same conditions. */
    method MergeBack(n: Extent, merge: bool, ghost s: set<Extent>, ghost x: Extent)
      requires Valid() && Ok(s, chunk) && Entered(s, chunk, x, ad, n)
      modifies this
      ensures Composed(old(ad), ad) && (!merge ==> ad == old(ad))
      ensures forall a: nat :: n.addr < a && !Crossed(old(ad), a) ==> !Crossed(ad, a)
      ensures Valid() && More(s, x, ad) && ZeroedFrom(old(ad), ad) && Stray() == old(Stray())
      ensures merge && NoTouch(s) && (forall y :: y in old(ad) ==> !Touch(n, y)) ==> NoTouch(ad)
    {
      hide Ok, More, NoTouch, NoTouchBut, Clear, Table, ZeroedFrom, Entered, Composed, Crossed;
      InEntered(s, chunk, x, ad, n);
      ComposedSelf(ad, chunk);
      var prev := AdPrev(n);
      if prev.Some? && prev.value.End() == n.addr && prev.value.committed == n.committed && merge {
        var p := prev.value;
        var j := Extent(p.addr, p.size + n.size, if p.sn < n.sn then p.sn else n.sn, p.zeroed && n.zeroed, n.committed);
        EnterAfter(s, chunk, x, ad, n, p, j);
        JoinedOut(ad, chunk, p, n, j);
        ComposedJoin(ad, chunk, p, n, j);
        forall a: nat | n.addr < a && !Crossed(ad, a) ensures !Crossed(ad - {p, n} + {j}, a) {
          PrevCrosses(ad, chunk, p, n, j, a);
        }
        ZeroedBack(ad, p, n, j);
        szsnad, ad := szsnad - {p}, ad - {p};
        szsnad := szsnad - {n};
        ad := ad - {n} + {j};
        szsnad := szsnad + {j};
        assert ad == old(ad) - {p, n} + {j};
        nodes := nodes - 1;
      } else {
        ZeroedSame(ad);
        if merge && NoTouch(s) && forall y :: y in ad ==> !Touch(n, y) {
          EnteredNoTouch(s, chunk, x, ad, n);
        }
      }
    }

    /** chunk_record(): the range goes into both trees, merged with the ranges that it touches if those
        have its commit state and the merge hook agrees.  Only a failed node allocation leaks it.
        Nothing becomes known as zeroed that was not. */
    method Record(x: Extent, ask: Answers) returns (leaked: bool)
      requires Valid() && Aligned(x, chunk) && Clear(ad, x) && (!cache || !x.zeroed)
      modifies this
      ensures Valid()
      ensures leaked ==> ad == old(ad) && !ask.recordNode
      ensures !leaked ==> More(old(ad), x, ad)
      ensures ask.mergeNext && ask.mergePrev && NoTouch(old(ad)) ==> NoTouch(ad)
      ensures ZeroedFrom(old(ad) + {x}, ad) && Stray() == old(Stray())
      ensures leaked ==> forall y :: y in ad && Touch(x, y) ==> !ask.mergeNext
      ensures !leaked ==> Composed(old(ad) + {x}, ad)
      ensures !leaked && !ask.mergeNext ==> !Crossed(ad, x.End())
      ensures !leaked && !ask.mergePrev ==> !Crossed(ad, x.addr)
    {
      hide Ok, More, NoTouch, Clear, Table, ZeroedFrom, Entered, Touch, Composed, Crossed;
      NewCrosses(ad, chunk, x);
      var n;
      leaked, n := Enter(x, ask.mergeNext, ask.recordNode);
      if !leaked {
        ghost var entered := ad;
        InEntered(old(ad), chunk, x, ad, n);
        assert n.addr < x.End();
        MergeBack(n, ask.mergePrev, old(ad), x);
        ComposedTwice(old(ad) + {x}, entered, ad, chunk);
        ZeroedAgain(old(ad) + {x}, entered, ad);
      }
    }

    /** The search of chunk_recycle(). */
    method Find(newAddr: Option<nat>, alloc: nat, size: nat) returns (outside: bool, found: Option<Extent>)
      requires Valid()
      ensures outside <==> newAddr.None? && alloc > classes[|classes| - 1]
      ensures !outside && found.Some? ==>
                && Chosen(classes, ad, newAddr, alloc, size, found.value) && found.value in ad
                && if newAddr.Some? then found.value.addr == newAddr.value && found.value.size >= size
                   else found.value.size >= alloc
      ensures !outside && found.None? ==>
                && (forall node :: !Chosen(classes, ad, newAddr, alloc, size, node))
                && (newAddr.None? ==> ExtentCeil(classes, alloc).Some?
                                      && forall y :: y in ad ==> y.size < ExtentCeil(classes, alloc).value)
    {
      hide Ok, ExtentCeil, SzsnadLeq, NoneZeroed;
      outside := false;
      if newAddr.Some? {
        found := AdSearch(newAddr.value);
        if found.None? || found.value.size < size {
          found := None;
          NoneChosen(classes, ad, newAddr, alloc, size);
        }
      } else {
        var fit := FirstBestFit(alloc);
        outside := fit.NoClass?;
        found := if fit.Node? then Some(fit.node) else None;
        if fit.NoNode? {
          NoneChosen(classes, ad, newAddr, alloc, size);
        }
      }
    }

    /** The search asks for a size above the largest class: the assertion in index2size() fails, or memory
        past its table is read. */
    ghost predicate Overreaches(newAddr: Option<nat>, size: nat, alignment: nat)
      reads this
      requires chunk > 0 && |classes| > 0
    {
      var alloc := AllocSize(chunk, size, alignment);
      newAddr.None? && alloc >= size && alloc > classes[|classes| - 1]
    }

    /** chunk_recycle() under its lock.  A range is taken exactly, aligned as asked, or nothing is; or a
        range was taken that the caller cannot have and that must be recorded again. */
    method RecycleLocked(newAddr: Option<nat>, size: nat, alignment: nat, ask: Answers)
      returns (r: Taken, lost: bool)
      requires Valid() && CanAsk(chunk, newAddr, size, alignment)
      modifies this
      ensures Valid() && (NoTouch(old(ad)) ==> NoTouch(ad)) && ZeroedFrom(old(ad), ad)
      ensures r.Nothing? || r.OutOfRange? ==> ad == old(ad)
      ensures r.OutOfRange? <==> Overreaches(newAddr, size, alignment)
      ensures r.Got? ==> r.addr % alignment == 0 && (newAddr.Some? ==> r.addr == newAddr.value)
      ensures r.Got? ==> TakenOut(old(ad), ad, chunk, Extent(r.addr, size, r.sn, r.zeroed, r.committed))
      ensures r.GiveBack? ==> TakenOut(old(ad), ad, chunk, r.range) && (!cache || !r.range.zeroed)
      ensures r.GiveBack? ==> ask.splitTrail || !ask.trailNode || ask.commit
      ensures Stray() == old(Stray()) + if lost then 1 else 0
      ensures lost <==> r.GiveBack? && r.range in old(ad) && r.range.size == size
      ensures lost ==> ask.commit && !r.range.committed
      ensures newAddr.None? && r.Nothing? && AllocSize(chunk, size, alignment) >= size && !ask.splitLead ==>
                && ExtentCeil(classes, AllocSize(chunk, size, alignment)).Some?
                && forall y :: y in ad ==> y.size < ExtentCeil(classes, AllocSize(chunk, size, alignment)).value
      ensures PartsOf(old(ad), ad)
      ensures var alloc := AllocSize(chunk, size, alignment);
              Served(classes, old(ad), newAddr, alloc, size, alignment, ask, r)
    {
      hide Ok, NoTouch, Table, ExtentCeil, AllocSize, Ceiling, Carve, TakenOut, ZeroedFrom, NoneZeroed, SzsnadLeq,
           CutTo, PartsOf, Served, Chosen;
      PartsSelf(ad);
      ServedNever(classes, ad, newAddr, AllocSize(chunk, size, alignment), size, alignment, ask);
      var alloc := AllocSize(chunk, size, alignment);
      ZeroedSame(ad);
      if alloc < size {
        return Nothing, false;
      }
      var outside, found := Find(newAddr, alloc, size);
      if outside {
        return OutOfRange, false;
      }
      if found.None? {
        ServedNot(classes, ad, newAddr, alloc, size, alignment, ask);
        return Nothing, false;
      }
      var node := found.value;
      NodeFits(ad, chunk, node, newAddr, size, alignment);
      var leadsize := Ceiling(node.addr, alignment) - node.addr;
      var ret := node.addr + leadsize;
      ServedFrom(classes, ad, newAddr, alloc, size, alignment, ask, node, ret);
      if leadsize != 0 && ask.splitLead {
        return Nothing, false;
      }
      r, lost := CutOut(node, ret, size, ask);
    }

    /** What cutting means for the trees. */
    method CutOut(node: Extent, ret: nat, size: nat, ask: Answers) returns (r: Taken, lost: bool)
      requires Valid() && node in ad && node.addr <= ret && 0 < size && ret + size <= node.End()
      requires ret % chunk == 0 && (ret + size) % chunk == 0
      modifies this
      ensures Valid() && (NoTouch(old(ad)) ==> NoTouch(ad)) && ZeroedFrom(old(ad), ad) && PartsOf(old(ad), ad)
      ensures r == CutTo(node, ret, size, ask) && (r.Got? || r.GiveBack?) && (r.Got? ==> r.addr == ret)
      ensures r.Got? ==> TakenOut(old(ad), ad, chunk, Extent(r.addr, size, r.sn, r.zeroed, r.committed))
      ensures r.GiveBack? ==> TakenOut(old(ad), ad, chunk, r.range) && (!cache || !r.range.zeroed)
      ensures r.GiveBack? ==> ask.splitTrail || !ask.trailNode || ask.commit
      ensures Stray() == old(Stray()) + if lost then 1 else 0
      ensures lost <==> r.GiveBack? && r.range in old(ad) && r.range.size == size
      ensures lost ==> ask.commit && !r.range.committed
    {
      hide Ok, NoTouch, Table, Carve, TakenOut, ZeroedFrom, NoneZeroed, CutTo, PartsOf;
      CarveParts(ad, node, ret, ret + size);
      CarveParts(ad, node, ret, node.End());
      CarveAll(ad, chunk, node, ret, ret + size, cache);
      CarveAll(ad, chunk, node, ret, node.End(), cache);
      CarveSize(ad, chunk, node, ret, ret + size);
      CarveSize(ad, chunk, node, ret, node.End());
      WholeNode(ad, chunk, node, ret, size);
      r, lost := Cut(node, ret, size, ask);
    }

    /** A node leaves both trees; for a lead, it is inserted again. */
    method TakeNode(node: Extent, leadsize: nat) returns (has: bool)
      requires szsnad == ad
      modifies this`szsnad, this`ad
      ensures szsnad == ad && (has <==> leadsize == 0)
      ensures ad == if has then old(ad) - {node} else old(ad) - {node} + {node.(size := leadsize)}
    {
      has := true;
      szsnad, ad := szsnad - {node}, ad - {node};
      if leadsize != 0 {
        var lead := node.(size := leadsize);
        szsnad, ad := szsnad + {lead}, ad + {lead};
        has := false;
      }
    }

    /** The trail is inserted, with the node at hand or a new one. */
    method PutTrail(trail: Extent, has: bool)
      requires szsnad == ad
      modifies this`szsnad, this`ad, this`nodes
      ensures szsnad == ad == old(ad) + {trail} && nodes == if has then old(nodes) else old(nodes) + 1
    {
      if !has {
        nodes := nodes + 1;
      }
      szsnad, ad := szsnad + {trail}, ad + {trail};
    }

    /** A node that is not needed any more is freed, or left to the caller. */
    method DropNode(has: bool)
      modifies this`nodes
      ensures nodes == if has then old(nodes) - 1 else old(nodes)
    {
      if has {
        nodes := nodes - 1;
      }
    }

    /** The part of chunk_recycle() that cuts the range out of the node that was found, and what becomes of the
        node: it is inserted again for the lead or the trail, freed or left to the caller, or lost. */
    method Cut(node: Extent, ret: nat, size: nat, ask: Answers) returns (r: Taken, lost: bool)
      requires node in ad && szsnad == ad && node.addr <= ret && 0 < size && ret + size <= node.End()
      modifies this`szsnad, this`ad, this`nodes
      ensures szsnad == ad && (r.Got? || r.GiveBack?)
      ensures r.Got? ==>
                r == Got(ret, node.sn, node.zeroed, node.committed) && ad == Carve(old(ad), node, ret, ret + size)
      ensures r.GiveBack? && r.range.size == size ==>
                && r.range == Extent(ret, size, node.sn, node.zeroed, node.committed)
                && ad == Carve(old(ad), node, ret, ret + size) && ask.commit && !node.committed
      ensures r.GiveBack? && r.range.size != size ==>
                && r.range == Extent(ret, node.End() - ret, node.sn, node.zeroed, node.committed)
                && ad == Carve(old(ad), node, ret, node.End()) && (ask.splitTrail || !ask.trailNode)
      ensures r == CutTo(node, ret, size, ask)
      ensures nodes == old(nodes) - 1 + (if node.addr < ret then 1 else 0) + (if lost then 1 else 0)
                       + if ret + size < node.End() && !(r.GiveBack? && r.range.size != size) then 1 else 0
      ensures lost <==> r.GiveBack? && r.range.size == size && ret == node.addr && size == node.size
    {
      CarvedParts(ad, node, ret, ret + size);
      CarvedParts(ad, node, ret, node.End());
      hide Carve;
      ghost var before := ad;
      var leadsize, trailsize := ret - node.addr, node.End() - ret - size;
      var has := TakeNode(node, leadsize);
      if trailsize != 0 {
        if ask.splitTrail || (!has && !ask.trailNode) {
          DropNode(has);
          assert ad == Carve(before, node, ret, node.End());
          return GiveBack(Extent(ret, size + trailsize, node.sn, node.zeroed, node.committed)), false;
        }
        PutTrail(Extent(ret + size, trailsize, node.sn, node.zeroed, node.committed), has);
        has := false;
      }
      assert ad == Carve(before, node, ret, ret + size);
      if !node.committed && ask.commit {
        return GiveBack(Extent(ret, size, node.sn, node.zeroed, node.committed)), has;
      }
      DropNode(has);
      return Got(ret, node.sn, node.zeroed, node.committed), false;
    }

    /** chunk_recycle(): exactly the range that is returned leaves the trees.  When nothing is returned,
        nothing is lost, unless a range had to be recorded again and a node for it could not be had.  It fails,
        before anything was changed, exactly on requests whose search overreaches.  When a range that is
        exactly what was asked for cannot be committed, its node is lost. */
    method Recycle(newAddr: Option<nat>, size: nat, alignment: nat, zero: bool, commit: bool, ask: Answers)
      returns (ret: Option<nat>, sn: nat, zeroOut: bool, commitOut: bool, leaked: bool, failed: bool, lost: bool)
      requires Valid() && CanAsk(chunk, newAddr, size, alignment)
      modifies this
      ensures Valid() && (ask.mergeNext && ask.mergePrev && NoTouch(old(ad)) ==> NoTouch(ad))
      ensures ret.Some? ==>
                && ret.value % alignment == 0 && (newAddr.Some? ==> ret == newAddr)
                && exists zeroed, committed ::
                     && TakenOut(old(ad), ad, chunk, Extent(ret.value, size, sn, zeroed, committed))
                     && zeroOut == (zero || zeroed) && commitOut == (commit || committed)
      ensures Stray() == old(Stray()) + if lost then 1 else 0
      ensures lost ==> ret.None? && ask.commit && exists x :: x in old(ad) && x.size == size && !x.committed
      ensures failed <==> Overreaches(newAddr, size, alignment)
      ensures failed ==> ret.None? && !leaked && ad == old(ad)
      ensures ret.None? && !leaked ==> SameCover(old(ad), ad)
      ensures leaked ==> ret.None? && !ask.recordNode && (ask.splitTrail || !ask.trailNode || ask.commit)
      ensures ZeroedFrom(old(ad), ad)
      ensures ret.Some? ==>
                exists zeroed, committed, node ::
                  ComesFrom(classes, old(ad), newAddr, AllocSize(chunk, size, alignment), size, alignment,
                            ret.value, sn, zeroed, committed, node)
                  && zeroOut == (zero || zeroed) && commitOut == (commit || committed)
      ensures ret.None? && !failed && AllocSize(chunk, size, alignment) >= size ==>
                || (forall node :: !Chosen(classes, old(ad), newAddr, AllocSize(chunk, size, alignment), size, node))
                || ask.splitLead || ask.splitTrail || !ask.trailNode || ask.commit
    {
      hide Ok, NoTouch, Table, ExtentCeil, AllocSize, Ceiling, ZeroedFrom, NoneZeroed, SameCover, PartsOf, Served, Chosen,
           Composed, Crossed, Touch, ComesFrom;
      ghost var alloc := AllocSize(chunk, size, alignment);
      ret, sn, zeroOut, commitOut, leaked, failed := None, 0, zero, commit, false, false;
      var r;
      r, lost := RecycleLocked(newAddr, size, alignment, ask);
      SameCovers(old(ad));
      if !r.Got? && !r.OutOfRange? && alloc >= size {
        NotGot(classes, old(ad), newAddr, alloc, size, alignment, ask, r);
      }
      match r
      case Nothing =>
      case OutOfRange =>
        failed := true;
      case Got(addr, s, zeroed, committed) =>
        ghost var node := GotFrom(classes, old(ad), newAddr, alloc, size, alignment, ask, r);
        ret, sn, zeroOut, commitOut := Some(addr), s, zero || zeroed, commit || committed;
      case GiveBack(x) =>
        ghost var without := ad;
        leaked := Record(x, ask);
        ZeroedPart(old(ad), without, chunk, x);
        ZeroedAgain(old(ad), without + {x}, ad);
        if !leaked {
          BackAgain(old(ad), without, chunk, x, ad);
        }
    }
  }
}
