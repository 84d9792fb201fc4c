/**
 Address ranges between the system, the two pairs of trees of an arena and those who were handed them, while
 any number of threads take steps.  A step is one stretch under the lock of the chunks; a thread that has
 to put a range back is between two of them, and others may come first.
 */
module ChunkSteps {
  import opened Wrappers
  import opened Extents
  import opened ChunkRecycler
  import opened Quantize

  type Thr = nat

  /** Where an address can be. */
  datatype Place = System | InCached | InRetained | InHand | Out | Leaked

  /** The addresses at each place. */
  datatype Parts = Parts(system: set<nat>, cached: set<nat>, retained: set<nat>, hand: set<nat>, out: set<nat>,
                         leaked: set<nat>) {
    function At(p: Place): set<nat> {
      match p
      case System => system
      case InCached => cached
      case InRetained => retained
      case InHand => hand
      case Out => out
      case Leaked => leaked
    }

    function With(p: Place, xs: set<nat>): Parts {
      match p
      case System => this.(system := xs)
      case InCached => this.(cached := xs)
      case InRetained => this.(retained := xs)
      case InHand => this.(hand := xs)
      case Out => this.(out := xs)
      case Leaked => this.(leaked := xs)
    }
  }

  /** A range on its way back into the trees that it was taken from. */
  datatype Holding = Holding(cache: bool, range: Extent)

  datatype Event = Given(range: Extent) | Returned(range: Extent)

  /** The answers of the hooks come with the step that asks for them. */
  datatype Action =
    | Map(x: Extent)
    | Unmap(x: Extent)
    | Recycle(th: Thr, cache: bool, newAddr: Option<nat>, size: nat, alignment: nat, ask: Answers)
    | PutBack(th: Thr, ask: Answers)
    | Dalloc(cache: bool, x: Extent, ask: Answers)

  function Addresses(x: Extent): set<nat> {
    set a: nat | a < x.End() && x.Has(a)
  }

  ghost function Addrs(s: set<Extent>): set<nat> {
    set x, a | x in s && a in Addresses(x) :: a
  }

  // ---------------------------------------------------------------- places

  /** Each address of the space is in one place, and in one only. */
  ghost predicate Parted(parts: Parts, space: set<nat>) {
    && (forall p: Place, q: Place :: p != q ==> parts.At(p) !! parts.At(q))
    && (forall a :: a in space <==> exists p: Place :: a in parts.At(p))
  }

  function Moved(parts: Parts, p: Place, q: Place, xs: set<nat>): Parts {
    parts.With(p, parts.At(p) - xs).With(q, parts.At(q) + xs)
  }

  lemma MovedAt(parts: Parts, p: Place, q: Place, xs: set<nat>, r: Place)
    requires p != q
    ensures Moved(parts, p, q, xs).At(r) ==
              if r == p then parts.At(p) - xs else if r == q then parts.At(q) + xs else parts.At(r)
  {
  }

  lemma MoveParts(parts: Parts, space: set<nat>, p: Place, q: Place, xs: set<nat>)
    requires Parted(parts, space) && p != q && xs <= parts.At(p)
    ensures Parted(Moved(parts, p, q, xs), space)
  {
    var parts' := Moved(parts, p, q, xs);
    forall r: Place
      ensures parts'.At(r) ==
                if r == p then parts.At(p) - xs else if r == q then parts.At(q) + xs else parts.At(r)
    {
      MovedAt(parts, p, q, xs, r);
    }
    hide Moved, Parts.At;
    forall a ensures a in space <==> exists r: Place :: a in parts'.At(r) {
      forall r: Place | a in parts.At(r)
        ensures a in parts'.At(if r == p && a in xs then q else r)
      {
      }
      forall r: Place | a in parts'.At(r)
        ensures a in parts.At(r) || a in parts.At(p)
      {
      }
    }
  }

  lemma AllSystem(parts: Parts, space: set<nat>)
    requires parts == Parts(space, {}, {}, {}, {}, {})
    ensures Parted(parts, space)
  {
    assert forall a :: a in space ==> a in parts.At(System);
  }

  lemma Disjoint(parts: Parts, space: set<nat>, p: Place, q: Place)
    requires Parted(parts, space) && p != q
    ensures parts.At(p) !! parts.At(q)
  {
  }

  // ---------------------------------------------------------------- ranges and addresses

  lemma InAddrs(s: set<Extent>, a: nat)
    ensures a in Addrs(s) <==> Covered(s, a, true) || Covered(s, a, false)
  {
    if a in Addrs(s) {
      var x :| x in s && a in Addresses(x);
      assert Covered(s, a, x.committed);
    }
    if b: bool :| Covered(s, a, b) {
      var x :| x in s && x.Has(a);
      assert a in Addresses(x);
    }
  }

  lemma TakenAddrs(s: set<Extent>, s': set<Extent>, chunk: nat, x: Extent)
    requires chunk > 0 && TakenOut(s, s', chunk, x)
    ensures Aligned(x, chunk) && Addresses(x) <= Addrs(s) && Addrs(s') == Addrs(s) - Addresses(x)
  {
    forall a: nat
      ensures a in Addresses(x) ==> a in Addrs(s)
      ensures a in Addrs(s') <==> a in Addrs(s) && a !in Addresses(x)
    {
      InAddrs(s, a);
      InAddrs(s', a);
      assert a in Addresses(x) <==> x.Has(a);
    }
  }

  lemma MoreAddrs(s: set<Extent>, x: Extent, s': set<Extent>)
    requires More(s, x, s')
    ensures Addrs(s') == Addrs(s) + Addresses(x)
  {
    forall a: nat ensures a in Addrs(s') <==> a in Addrs(s) || a in Addresses(x) {
      InAddrs(s, a);
      InAddrs(s', a);
      assert a in Addresses(x) <==> x.Has(a);
    }
  }

  lemma ClearAddrs(s: set<Extent>, chunk: nat, x: Extent)
    requires Ok(s, chunk) && Aligned(x, chunk) && Addresses(x) !! Addrs(s)
    ensures Clear(s, x)
  {
    forall y | y in s ensures Apart(x, y) {
      assert Aligned(y, chunk);
      var a := if x.addr < y.addr then y.addr else x.addr;
      assert a in Addresses(x) ==> a !in Addrs(s);
      assert a in Addresses(y) ==> a in Addrs(s);
    }
  }

  // ---------------------------------------------------------------- ranges in hand

  /** No two threads have hold of the same address. */
  ghost predicate HandsOk(hands: map<Thr, Holding>, chunk: nat)
    requires chunk > 0
  {
    && (forall th :: th in hands ==> Aligned(hands[th].range, chunk) && (hands[th].cache ==> !hands[th].range.zeroed))
    && (forall t, u :: t in hands && u in hands && t != u ==>
          Addresses(hands[t].range) !! Addresses(hands[u].range))
  }

  ghost function HandAddrs(hands: map<Thr, Holding>): set<nat> {
    set th, a | th in hands && a in Addresses(hands[th].range) :: a
  }

  lemma TakeHold(hands: map<Thr, Holding>, chunk: nat, th: Thr, h: Holding)
    requires chunk > 0 && HandsOk(hands, chunk) && th !in hands
    requires Aligned(h.range, chunk) && (h.cache ==> !h.range.zeroed) && Addresses(h.range) !! HandAddrs(hands)
    ensures HandsOk(hands[th := h], chunk)
    ensures HandAddrs(hands[th := h]) == HandAddrs(hands) + Addresses(h.range)
  {
    var hands' := hands[th := h];
    forall a
      ensures a in HandAddrs(hands') <==> a in HandAddrs(hands) || a in Addresses(h.range)
    {
      if a in HandAddrs(hands) {
        var t :| t in hands && a in Addresses(hands[t].range);
        assert t in hands' && hands'[t] == hands[t];
      }
      if a in Addresses(h.range) {
        assert hands'[th] == h;
      }
    }
    forall t | t in hands ensures Addresses(hands[t].range) !! Addresses(h.range) {
      assert Addresses(hands[t].range) <= HandAddrs(hands);
    }
  }

  lemma LetGo(hands: map<Thr, Holding>, chunk: nat, th: Thr)
    requires chunk > 0 && HandsOk(hands, chunk) && th in hands
    ensures HandsOk(hands - {th}, chunk) && Addresses(hands[th].range) <= HandAddrs(hands)
    ensures HandAddrs(hands - {th}) == HandAddrs(hands) - Addresses(hands[th].range)
  {
    var hands', xs := hands - {th}, Addresses(hands[th].range);
    forall a ensures a in HandAddrs(hands') <==> a in HandAddrs(hands) && a !in xs {
      if a in HandAddrs(hands) && a !in xs {
        var t :| t in hands && a in Addresses(hands[t].range);
        assert t in hands' && hands'[t] == hands[t];
      }
      if a in HandAddrs(hands') {
        var t :| t in hands' && a in Addresses(hands'[t].range);
        assert t in hands && t != th;
      }
    }
  }

  // ---------------------------------------------------------------- who was handed what

  ghost function OutAfter(es: seq<Event>): set<nat> {
    if es == [] then {}
    else
      var before, e := OutAfter(es[..|es| - 1]), es[|es| - 1];
      if e.Given? then before + Addresses(e.range) else before - Addresses(e.range)
  }

  /** Only what is not out is handed out, and only what is out is returned. */
  ghost predicate Proper(es: seq<Event>) {
    forall i :: 0 <= i < |es| ==>
      if es[i].Given? then Addresses(es[i].range) !! OutAfter(es[..i]) else Addresses(es[i].range) <= OutAfter(es[..i])
  }

  lemma ProperNext(es: seq<Event>, e: Event)
    requires Proper(es)
    requires if e.Given? then Addresses(e.range) !! OutAfter(es) else Addresses(e.range) <= OutAfter(es)
    ensures Proper(es + [e])
    ensures OutAfter(es + [e]) ==
              if e.Given? then OutAfter(es) + Addresses(e.range) else OutAfter(es) - Addresses(e.range)
  {
    var es' := es + [e];
    assert es'[..|es|] == es;
    forall i | 0 <= i < |es| ensures es'[i] == es[i] && es'[..i] == es[..i] {
    }
  }

  lemma {:induction false} StaysOut(es: seq<Event>, i: nat, j: nat, a: nat)
    requires i < j <= |es| && es[i].Given? && a in Addresses(es[i].range)
    requires forall k :: i < k < j && es[k].Returned? ==> a !in Addresses(es[k].range)
    ensures a in OutAfter(es[..j])
  {
    assert es[..j][..j - 1] == es[..j - 1];
    if j > i + 1 {
      StaysOut(es, i, j - 1, a);
    }
  }

  /** Between two times that an address is handed out it was returned. */
  ghost predicate Fair(es: seq<Event>) {
    forall i, j, a :: 0 <= i < j < |es| && es[i].Given? && es[j].Given?
                      && a in Addresses(es[i].range) && a in Addresses(es[j].range) ==>
      exists k :: i < k < j && es[k].Returned? && a in Addresses(es[k].range)
  }

  lemma ProperIsFair(es: seq<Event>)
    requires Proper(es)
    ensures Fair(es)
  {
    forall i, j, a | 0 <= i < j < |es| && es[i].Given? && es[j].Given?
                     && a in Addresses(es[i].range) && a in Addresses(es[j].range)
      ensures exists k :: i < k < j && es[k].Returned? && a in Addresses(es[k].range)
    {
      if forall k :: i < k < j && es[k].Returned? ==> a !in Addresses(es[k].range) {
        StaysOut(es, i, j, a);
      }
    }
  }

  // ---------------------------------------------------------------- the machine

  /** What there is to see of an arena. */
  datatype Snap = Snap(parts: Parts, hands: map<Thr, Holding>, events: seq<Event>)

  ghost predicate Sound(s: Snap, space: set<nat>, chunk: nat) {
    && chunk > 0 && Parted(s.parts, space)
    && HandsOk(s.hands, chunk) && s.parts.At(InHand) == HandAddrs(s.hands)
    && Proper(s.events) && s.parts.At(Out) == OutAfter(s.events)
  }

  function InTrees(cache: bool): Place {
    if cache then InCached else InRetained
  }

  /** Whole chunks, and in the cache none that is known as zeroed. */
  predicate CanPut(chunk: nat, cache: bool, x: Extent) {
    chunk > 0 && Aligned(x, chunk) && (cache ==> !x.zeroed)
  }

  /** The system hands out what it has, a thread that has a range to put back does that first, and only what is
      out is returned. */
  predicate Enabled(chunk: nat, s: Snap, a: Action) {
    match a
    case Map(x) => Addresses(x) <= s.parts.At(System)
    case Unmap(x) => Addresses(x) <= s.parts.At(Out)
    case Recycle(th, _, newAddr, size, alignment, _) => th !in s.hands && CanAsk(chunk, newAddr, size, alignment)
    case PutBack(th, _) => th in s.hands
    case Dalloc(cache, x, _) => CanPut(chunk, cache, x) && Addresses(x) <= s.parts.At(Out)
  }

  /** A range goes from one place to another. */
  ghost predicate Carries(s: Snap, p: Place, q: Place, x: Extent, hands: map<Thr, Holding>, es: seq<Event>, s': Snap) {
    && Addresses(x) <= s.parts.At(p)
    && s' == Snap(Moved(s.parts, p, q, Addresses(x)), hands, es)
  }

  /** A range enters trees; it is leaked only for want of a node. */
  ghost predicate Stores(s: Snap, p: Place, cache: bool, x: Extent, ask: Answers, hands: map<Thr, Holding>,
                         es: seq<Event>, s': Snap) {
    || Carries(s, p, InTrees(cache), x, hands, es, s')
    || (!ask.recordNode && Carries(s, p, Leaked, x, hands, es, s'))
  }

  /** The size and the alignment that were asked for. */
  predicate Suits(x: Extent, size: nat, alignment: nat) {
    x.size == size && alignment > 0 && x.addr % alignment == 0
  }

  ghost predicate HandsOut(s: Snap, cache: bool, size: nat, alignment: nat, x: Extent, s': Snap) {
    && Suits(x, size, alignment)
    && Carries(s, InTrees(cache), Out, x, s.hands, s.events + [Given(x)], s')
  }

  ghost predicate Keeps(s: Snap, chunk: nat, cache: bool, th: Thr, x: Extent, s': Snap) {
    && CanPut(chunk, cache, x)
    && Carries(s, InTrees(cache), InHand, x, s.hands[th := Holding(cache, x)], s.events, s')
  }

  ghost predicate Does(chunk: nat, s: Snap, a: Action, s': Snap)
    requires Enabled(chunk, s, a)
  {
    match a
    case Map(x) => Carries(s, System, Out, x, s.hands, s.events + [Given(x)], s')
    case Unmap(x) => Carries(s, Out, System, x, s.hands, s.events + [Returned(x)], s')
    case Recycle(th, cache, _, size, alignment, _) =>
      || s' == s
      || (exists x :: HandsOut(s, cache, size, alignment, x, s'))
      || (exists x :: Keeps(s, chunk, cache, th, x, s'))
    case PutBack(th, ask) =>
      Stores(s, InHand, s.hands[th].cache, s.hands[th].range, ask, s.hands - {th}, s.events, s')
    case Dalloc(cache, x, ask) => Stores(s, Out, cache, x, ask, s.hands, s.events + [Returned(x)], s')
  }

  ghost predicate Follows(chunk: nat, s: Snap, a: Action, s': Snap) {
    if Enabled(chunk, s, a) then Does(chunk, s, a, s') else s' == s
  }

  // ---------------------------------------------------------------- every step keeps it

  lemma KeepGiven(s: Snap, space: set<nat>, chunk: nat, p: Place, x: Extent, s': Snap)
    requires Sound(s, space, chunk) && !p.Out? && !p.InHand?
    requires Carries(s, p, Out, x, s.hands, s.events + [Given(x)], s')
    ensures Sound(s', space, chunk)
  {
    hide Parted, HandsOk, HandAddrs, Proper, OutAfter, Addresses;
    MoveParts(s.parts, space, p, Out, Addresses(x));
    Disjoint(s.parts, space, p, Out);
    ProperNext(s.events, Given(x));
  }

  lemma KeepReturned(s: Snap, space: set<nat>, chunk: nat, q: Place, x: Extent, s': Snap)
    requires Sound(s, space, chunk) && !q.Out? && !q.InHand?
    requires Carries(s, Out, q, x, s.hands, s.events + [Returned(x)], s')
    ensures Sound(s', space, chunk)
  {
    hide Parted, HandsOk, HandAddrs, Proper, OutAfter, Addresses;
    MoveParts(s.parts, space, Out, q, Addresses(x));
    ProperNext(s.events, Returned(x));
  }

  lemma KeepHeld(s: Snap, space: set<nat>, chunk: nat, cache: bool, th: Thr, x: Extent, s': Snap)
    requires Sound(s, space, chunk) && th !in s.hands && Keeps(s, chunk, cache, th, x, s')
    ensures Sound(s', space, chunk)
  {
    hide Parted, HandsOk, HandAddrs, Proper, OutAfter, Addresses;
    MoveParts(s.parts, space, InTrees(cache), InHand, Addresses(x));
    Disjoint(s.parts, space, InTrees(cache), InHand);
    TakeHold(s.hands, chunk, th, Holding(cache, x));
  }

  lemma KeepPutBack(s: Snap, space: set<nat>, chunk: nat, th: Thr, q: Place, s': Snap)
    requires Sound(s, space, chunk) && th in s.hands && !q.Out? && !q.InHand?
    requires Carries(s, InHand, q, s.hands[th].range, s.hands - {th}, s.events, s')
    ensures Sound(s', space, chunk)
  {
    hide Parted, HandsOk, HandAddrs, Proper, OutAfter, Addresses;
    MoveParts(s.parts, space, InHand, q, Addresses(s.hands[th].range));
    LetGo(s.hands, chunk, th);
  }

  /** Every step of every thread keeps it. */
  lemma KeepStep(s: Snap, space: set<nat>, chunk: nat, a: Action, s': Snap)
    requires Sound(s, space, chunk) && Follows(chunk, s, a, s')
    ensures Sound(s', space, chunk)
  {
    hide Sound, Carries, CanAsk, Addresses;
    if Enabled(chunk, s, a) {
      match a
      case Map(x) => KeepGiven(s, space, chunk, System, x, s');
      case Unmap(x) => KeepReturned(s, space, chunk, System, x, s');
      case Recycle(th, cache, _, size, alignment, _) =>
        if x :| HandsOut(s, cache, size, alignment, x, s') {
          KeepGiven(s, space, chunk, InTrees(cache), x, s');
        } else if x :| Keeps(s, chunk, cache, th, x, s') {
          KeepHeld(s, space, chunk, cache, th, x, s');
        }
      case PutBack(th, ask) =>
        var h := s.hands[th];
        if Carries(s, InHand, InTrees(h.cache), h.range, s.hands - {th}, s.events, s') {
          KeepPutBack(s, space, chunk, th, InTrees(h.cache), s');
        } else {
          KeepPutBack(s, space, chunk, th, Leaked, s');
        }
      case Dalloc(cache, x, ask) =>
        if Carries(s, Out, InTrees(cache), x, s.hands, s.events + [Returned(x)], s') {
          KeepReturned(s, space, chunk, InTrees(cache), x, s');
        } else {
          KeepReturned(s, space, chunk, Leaked, x, s');
        }
    }
  }

  /** Nothing is leaked unless a node for a range could not be had, and what is leaked stays so. */
  lemma LeakedOnly(chunk: nat, s: Snap, a: Action, s': Snap)
    requires Follows(chunk, s, a, s')
    ensures s.parts.leaked <= s'.parts.leaked
    ensures s.parts.leaked != s'.parts.leaked ==> (a.PutBack? || a.Dalloc?) && !a.ask.recordNode
  {
    hide CanAsk, CanPut, Addresses;
  }

  lemma KeepNothing(s: Snap, space: set<nat>, chunk: nat, a: Action)
    requires Sound(s, space, chunk) && a.Recycle? && Enabled(chunk, s, a)
    ensures Does(chunk, s, a, s)
  {
  }

  lemma KeepGot(s: Snap, space: set<nat>, chunk: nat, a: Action, x: Extent, s': Snap)
    requires Sound(s, space, chunk) && a.Recycle? && Enabled(chunk, s, a)
    requires HandsOut(s, a.cache, a.size, a.alignment, x, s')
    ensures Does(chunk, s, a, s') && Sound(s', space, chunk)
  {
    hide Sound, CanAsk, HandsOut;
    KeepStep(s, space, chunk, a, s');
  }

  lemma KeepGiveBack(s: Snap, space: set<nat>, chunk: nat, a: Action, x: Extent, s': Snap)
    requires Sound(s, space, chunk) && a.Recycle? && Enabled(chunk, s, a)
    requires Keeps(s, chunk, a.cache, a.th, x, s')
    ensures Does(chunk, s, a, s') && Sound(s', space, chunk)
  {
    hide Sound, CanAsk, Keeps;
    KeepStep(s, space, chunk, a, s');
  }

  /** From which node, and why not. */
  ghost predicate ServedAsAsked(c: seq<nat>, chunk: nat, s: set<Extent>, newAddr: Option<nat>, size: nat, alignment: nat,
                                ask: Answers, r: Taken) {
    && chunk > 0 && alignment > 0 && Table(c)
    && Served(c, s, newAddr, AllocSize(chunk, size, alignment), size, alignment, ask, r)
  }

  /** Exactly the range that was taken is gone. */
  ghost predicate TakenAway(s: set<Extent>, s': set<Extent>, chunk: nat, cache: bool, size: nat, alignment: nat, r: Taken) {
    match r
    case Got(addr, sn, zeroed, committed) =>
      var x := Extent(addr, size, sn, zeroed, committed);
      Suits(x, size, alignment) && Addresses(x) <= Addrs(s) && Addrs(s') == Addrs(s) - Addresses(x)
    case GiveBack(x) =>
      CanPut(chunk, cache, x) && Addresses(x) <= Addrs(s) && Addrs(s') == Addrs(s) - Addresses(x)
    case _ => s' == s
  }

  lemma TakenAwayIs(s: set<Extent>, s': set<Extent>, chunk: nat, cache: bool, size: nat, alignment: nat, r: Taken)
    requires chunk > 0 && alignment > 0
    requires match r
             case Got(addr, sn, zeroed, committed) =>
               TakenOut(s, s', chunk, Extent(addr, size, sn, zeroed, committed)) && addr % alignment == 0
             case GiveBack(x) => TakenOut(s, s', chunk, x) && (!cache || !x.zeroed)
             case _ => s' == s
    ensures TakenAway(s, s', chunk, cache, size, alignment, r)
  {
    hide TakenOut, Addrs, Addresses;
    match r
    case Got(addr, sn, zeroed, committed) => TakenAddrs(s, s', chunk, Extent(addr, size, sn, zeroed, committed));
    case GiveBack(x) => TakenAddrs(s, s', chunk, x);
    case _ =>
  }

  lemma AsksPositive(chunk: nat, newAddr: Option<nat>, size: nat, alignment: nat)
    requires CanAsk(chunk, newAddr, size, alignment)
    ensures chunk > 0 && alignment > 0
  {
  }

  /** What chunk_recycle() does to its trees while it has the lock. */
  method RecycleFrom(rec: Recycler, newAddr: Option<nat>, size: nat, alignment: nat, ask: Answers) returns (r: Taken)
    requires rec.Valid() && CanAsk(rec.chunk, newAddr, size, alignment)
    modifies rec
    ensures rec.Valid() && TakenAway(old(rec.ad), rec.ad, rec.chunk, rec.cache, size, alignment, r)
    ensures ServedAsAsked(rec.classes, rec.chunk, old(rec.ad), newAddr, size, alignment, ask, r)
  {
    hide TakenAway, TakenOut, CanAsk, NoTouch, ZeroedFrom, Served, PartsOf, AllocSize, Ok, Table, NoneZeroed,
         ExtentCeil, Recycler.Overreaches, Recycler.Stray;
    AsksPositive(rec.chunk, newAddr, size, alignment);
    var lost;
    r, lost := rec.RecycleLocked(newAddr, size, alignment, ask);
    TakenAwayIs(old(rec.ad), rec.ad, rec.chunk, rec.cache, size, alignment, r);
  }

  // ---------------------------------------------------------------- the trees take the steps

  class Chunks {
    const space: set<nat>
    const chunk: nat
    const cached: Recycler
    const retained: Recycler
    var system: set<nat>
    var hands: map<Thr, Holding>
    var out: set<nat>
    var leaked: set<nat>
    ghost var events: seq<Event>

    function Trees(cache: bool): Recycler {
      if cache then cached else retained
    }

    ghost function Where(): Parts
      reads this, cached, retained
    {
      Parts(system, Addrs(cached.ad), Addrs(retained.ad), HandAddrs(hands), out, leaked)
    }

    ghost function Now(): Snap
      reads this, cached, retained
    {
      Snap(Where(), hands, events)
    }

    ghost predicate Valid()
      reads this, cached, retained
    {
      && cached != retained && cached.cache && !retained.cache && cached.chunk == retained.chunk == chunk
      && cached.Valid() && retained.Valid() && Sound(Now(), space, chunk)
    }

    constructor (space: set<nat>, chunk: nat, classes: seq<nat>)
      requires chunk > 0 && Table(classes) && classes[0] <= chunk
      ensures Valid() && this.space == space && this.chunk == chunk && events == []
      ensures fresh(cached) && fresh(retained)
      ensures Now() == Snap(Parts(space, {}, {}, {}, {}, {}), map[], [])
    {
      this.space, this.chunk := space, chunk;
      cached := new Recycler(chunk, classes, true);
      retained := new Recycler(chunk, classes, false);
      system, hands, out, leaked, events := space, map[], {}, {}, [];
      new;
      assert Addrs(cached.ad) == {} && Addrs(retained.ad) == {} && HandAddrs(hands) == {};
      AllSystem(Where(), space);
    }

    /** Memory comes from the system, for whoever asked. */
    method MapRange(x: Extent)
      requires Valid() && Addresses(x) <= system
      modifies this
      ensures Valid() && Does(chunk, old(Now()), Map(x), Now())
    {
      hide Sound, HandAddrs, Addrs, Addresses;
      ghost var s := Now();
      system, out, events := system - Addresses(x), out + Addresses(x), events + [Given(x)];
      assert Where() == Moved(s.parts, System, Out, Addresses(x));
      KeepStep(s, space, chunk, Map(x), Now());
    }

    /** The hook takes memory back for the system. */
    method UnmapRange(x: Extent)
      requires Valid() && Addresses(x) <= out
      modifies this
      ensures Valid() && Does(chunk, old(Now()), Unmap(x), Now())
    {
      hide Sound, HandAddrs, Addrs, Addresses;
      ghost var s := Now();
      system, out, events := system + Addresses(x), out - Addresses(x), events + [Returned(x)];
      assert Where() == Moved(s.parts, Out, System, Addresses(x));
      KeepStep(s, space, chunk, Unmap(x), Now());
    }

    /** What chunk_recycle() does to the trees while it has the lock. */
    method TakeLocked(cache: bool, newAddr: Option<nat>, size: nat, alignment: nat, ask: Answers) returns (r: Taken)
      requires Valid() && CanAsk(chunk, newAddr, size, alignment)
      modifies cached, retained
      ensures cached.Valid() && retained.Valid()
      ensures (if cache then retained.ad else cached.ad) == old(if cache then retained.ad else cached.ad)
      ensures TakenAway(old(Trees(cache).ad), Trees(cache).ad, chunk, cache, size, alignment, r)
      ensures ServedAsAsked(Trees(cache).classes, chunk, old(Trees(cache).ad), newAddr, size, alignment, ask, r)
    {
      hide Sound, HandAddrs, Addrs, Addresses, TakenAway, ServedAsAsked, CanAsk, Ok, Table, NoneZeroed;
      r := RecycleFrom(Trees(cache), newAddr, size, alignment, ask);
    }

    /** A stretch of chunk_recycle(): a range is handed out, or the thread keeps one that has to be put back. */
    method TakeRange(th: Thr, cache: bool, newAddr: Option<nat>, size: nat, alignment: nat, ask: Answers)
      returns (r: Taken)
      requires Valid() && th !in hands && CanAsk(chunk, newAddr, size, alignment)
      modifies this, cached, retained
      ensures Valid() && Does(chunk, old(Now()), Recycle(th, cache, newAddr, size, alignment, ask), Now())
      ensures r.GiveBack? <==> th in hands
      ensures r.Got? ==> events == old(events) + [Given(Extent(r.addr, size, r.sn, r.zeroed, r.committed))]
      ensures !r.Got? ==> events == old(events)
      ensures ServedAsAsked(Trees(cache).classes, chunk, old(Trees(cache).ad), newAddr, size, alignment, ask, r)
    {
      hide ServedAsAsked, Sound, HandAddrs, Addrs, Addresses, Recycler.Valid, CanAsk, CanPut, Suits, Does;
      ghost var s, a := Now(), Recycle(th, cache, newAddr, size, alignment, ask);
      r := TakeLocked(cache, newAddr, size, alignment, ask);
      match r
      case Got(addr, sn, zeroed, committed) =>
        var x := Extent(addr, size, sn, zeroed, committed);
        out, events := out + Addresses(x), events + [Given(x)];
        assert Where() == Moved(s.parts, InTrees(cache), Out, Addresses(x));
        KeepGot(s, space, chunk, a, x, Now());
      case GiveBack(x) =>
        Holds(s, space, chunk, cache, th, x);
        hands := hands[th := Holding(cache, x)];
        assert Where() == Moved(s.parts, InTrees(cache), InHand, Addresses(x));
        KeepGiveBack(s, space, chunk, a, x, Now());
      case _ =>
        KeepNothing(s, space, chunk, a);
        assert Where() == s.parts;
    }

    /** The range enters its trees, or cannot. */
    method Enter(cache: bool, x: Extent, ask: Answers, ghost from: Place) returns (lost: bool)
      requires Valid() && CanPut(chunk, cache, x)
      requires (from.Out? || from.InHand?) && Addresses(x) <= Where().At(from)
      modifies cached, retained
      ensures cached.Valid() && retained.Valid() && (lost ==> !ask.recordNode)
      ensures (if cache then retained.ad else cached.ad) == old(if cache then retained.ad else cached.ad)
      ensures var was, now := old(Addrs(Trees(cache).ad)), Addrs(Trees(cache).ad);
              now == if lost then was else was + Addresses(x)
    {
      hide Parted, HandsOk, Proper, OutAfter, HandAddrs, Addrs, Addresses, More, Clear, ZeroedFrom, NoTouch;
      Disjoint(Where(), space, from, InTrees(cache));
      ghost var s := Trees(cache).ad;
      ClearAddrs(s, chunk, x);
      lost := Trees(cache).Record(x, ask);
      if !lost {
        MoreAddrs(s, x, Trees(cache).ad);
      }
    }

    /** The other stretch: the thread puts its range back. */
    method PutRange(th: Thr, ask: Answers)
      requires Valid() && th in hands
      modifies this, cached, retained
      ensures Valid() && Does(chunk, old(Now()), PutBack(th, ask), Now())
    {
      InHands(Now(), space, chunk, th);
      hide Sound, HandAddrs, Addrs, Addresses, Recycler.Valid, CanPut;
      ghost var s := Now();
      var Holding(cache, x) := hands[th];
      var lost := Enter(cache, x, ask, InHand);
      hands := hands - {th};
      if lost {
        leaked := leaked + Addresses(x);
      }
      assert Where() == Moved(s.parts, InHand, if lost then Leaked else InTrees(cache), Addresses(x));
      KeepStep(s, space, chunk, PutBack(th, ask), Now());
    }

    /** chunk_dalloc_cache(), and chunk_dalloc_wrapper() when the hook does not take the range. */
    method DallocRange(cache: bool, x: Extent, ask: Answers)
      requires Valid() && CanPut(chunk, cache, x) && Addresses(x) <= out
      modifies this, cached, retained
      ensures Valid() && Does(chunk, old(Now()), Dalloc(cache, x, ask), Now())
    {
      hide Sound, HandAddrs, Addrs, Addresses, Recycler.Valid, CanPut;
      ghost var s := Now();
      var lost := Enter(cache, x, ask, Out);
      out, events := out - Addresses(x), events + [Returned(x)];
      if lost {
        leaked := leaked + Addresses(x);
      }
      assert Where() == Moved(s.parts, Out, if lost then Leaked else InTrees(cache), Addresses(x));
      KeepStep(s, space, chunk, Dalloc(cache, x, ask), Now());
    }

    /** One step, if it can be taken. */
    method Step(a: Action)
      requires Valid()
      modifies this, cached, retained
      ensures Valid() && Follows(chunk, old(Now()), a, Now())
    {
      hide Valid, CanAsk, CanPut, Does;
      match a
      case Map(x) =>
        if Addresses(x) <= system {
          MapRange(x);
        }
      case Unmap(x) =>
        if Addresses(x) <= out {
          UnmapRange(x);
        }
      case Recycle(th, cache, newAddr, size, alignment, ask) =>
        if th !in hands && CanAsk(chunk, newAddr, size, alignment) {
          var r := TakeRange(th, cache, newAddr, size, alignment, ask);
        }
      case PutBack(th, ask) =>
        if th in hands {
          PutRange(th, ask);
        }
      case Dalloc(cache, x, ask) =>
        if CanPut(chunk, cache, x) && Addresses(x) <= out {
          DallocRange(cache, x, ask);
        }
    }
  }

  lemma InHands(s: Snap, space: set<nat>, chunk: nat, th: Thr)
    requires Sound(s, space, chunk) && th in s.hands
    ensures CanPut(chunk, s.hands[th].cache, s.hands[th].range)
    ensures Addresses(s.hands[th].range) <= s.parts.At(InHand)
    ensures HandAddrs(s.hands - {th}) == s.parts.At(InHand) - Addresses(s.hands[th].range)
  {
    LetGo(s.hands, chunk, th);
  }

  lemma Holds(s: Snap, space: set<nat>, chunk: nat, cache: bool, th: Thr, x: Extent)
    requires Sound(s, space, chunk) && th !in s.hands && CanPut(chunk, cache, x)
    requires Addresses(x) <= s.parts.At(InTrees(cache))
    ensures HandAddrs(s.hands[th := Holding(cache, x)]) == s.parts.At(InHand) + Addresses(x)
  {
    Disjoint(s.parts, space, InTrees(cache), InHand);
    TakeHold(s.hands, chunk, th, Holding(cache, x));
  }

  // ---------------------------------------------------------------- whole runs

  /** From a space that is all the system's, one state after each action; each address is always in one place, and
      between two times that it is handed out it was returned. */
  ghost predicate IsRun(space: set<nat>, chunk: nat, acts: seq<Action>, run: seq<Snap>) {
    && |run| == |acts| + 1 && run[0] == Snap(Parts(space, {}, {}, {}, {}, {}), map[], [])
    && (forall n :: 0 <= n < |acts| ==> Follows(chunk, run[n], acts[n], run[n + 1]))
    && (forall n :: 0 <= n <= |acts| ==> Parted(run[n].parts, space) && Fair(run[n].events))
  }

  lemma RunStarts(space: set<nat>, chunk: nat, s: Snap)
    requires Sound(s, space, chunk) && s == Snap(Parts(space, {}, {}, {}, {}, {}), map[], [])
    ensures IsRun(space, chunk, [], [s])
  {
    ProperIsFair(s.events);
  }

  lemma RunGoesOn(space: set<nat>, chunk: nat, acts: seq<Action>, run: seq<Snap>, a: Action, s: Snap)
    requires IsRun(space, chunk, acts, run) && Follows(chunk, run[|acts|], a, s) && Sound(s, space, chunk)
    ensures IsRun(space, chunk, acts + [a], run + [s])
  {
    ProperIsFair(s.events);
    hide Follows, Parted, Fair;
  }

  /** Whatever the threads do, in whatever order, the code makes such a run. */
  method Run(space: set<nat>, chunk: nat, classes: seq<nat>, acts: seq<Action>)
    returns (c: Chunks, ghost run: seq<Snap>)
    requires chunk > 0 && Table(classes) && classes[0] <= chunk
    ensures fresh(c) && c.Valid() && c.space == space && c.chunk == chunk
    ensures IsRun(space, chunk, acts, run) && |run| == |acts| + 1 && run[|acts|] == c.Now()
  {
    c := new Chunks(space, chunk, classes);
    run := [c.Now()];
    RunStarts(space, chunk, c.Now());
    hide IsRun, Follows, Sound, Chunks.Now;
    for n := 0 to |acts|
      invariant fresh(c) && fresh(c.cached) && fresh(c.retained) && c.Valid()
      invariant c.space == space && c.chunk == chunk
      invariant IsRun(space, chunk, acts[..n], run) && |run| == n + 1 && run[n] == c.Now()
    {
      c.Step(acts[n]);
      RunGoesOn(space, chunk, acts[..n], run, acts[n], c.Now());
      assert acts[..n + 1] == acts[..n] + [acts[n]];
      run := run + [c.Now()];
    }
    assert acts[..|acts|] == acts;
  }
}
