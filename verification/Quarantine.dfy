/**
 The quarantine of freed objects: a ring that grows when it is full, and that frees its oldest objects
 to stay within a budget of bytes.
 */
module Quarantine {
  import opened Arith
  import opened Pow2

  const LG_MAXOBJS_INIT: nat := 10

  datatype Obj = Obj(ptr: nat, usize: nat)

  // ---------------------------------------------------------------- what the ring holds

  function Bytes(s: seq<Obj>): nat {
    if s == [] then 0 else s[0].usize + Bytes(s[1..])
  }

  lemma {:induction false} BytesAppend(s: seq<Obj>, x: Obj)
    ensures Bytes(s + [x]) == Bytes(s) + x.usize
  {
    if s == [] {
      assert [x][1..] == [];
    } else {
      assert (s + [x])[1..] == s[1..] + [x];
      BytesAppend(s[1..], x);
    }
  }

  /** The objects that draining to `bound` bytes leaves. */
  function Drained(s: seq<Obj>, bound: nat): (r: seq<Obj>)
    ensures |r| <= |s| && r == s[|s| - |r|..]
    ensures Bytes(r) <= bound
  {
    if s != [] && Bytes(s) > bound then Drained(s[1..], bound) else s
  }

  /** No more is drained than the bound asks for. */
  lemma {:induction false} DrainedLeast(s: seq<Obj>, bound: nat, k: nat)
    requires k <= |s| && Bytes(s[k..]) <= bound
    ensures |Drained(s, bound)| >= |s| - k
  {
    if k > 0 && Bytes(s) > bound {
      assert s[1..][k - 1..] == s[k..];
      DrainedLeast(s[1..], bound, k - 1);
    } else if k == 0 {
      assert s[0..] == s;
    }
  }

  lemma DrainedStep(s: seq<Obj>, bound: nat)
    requires s != []
    ensures Drained(s, bound) == if Bytes(s) > bound then Drained(s[1..], bound) else s
  {
  }

  lemma DrainedDone(s: seq<Obj>, bound: nat)
    requires s == [] || Bytes(s) <= bound
    ensures Drained(s, bound) == s
  {
  }

  /** An object that cannot fit empties the quarantine. */
  lemma EmptyAtZero(s: seq<Obj>)
    requires forall k :: 0 <= k < |s| ==> s[k].usize > 0
    ensures Bytes(s) == 0 <==> s == []
  {
  }

  /** What room is made for an object of `usize` bytes. */
  function Bound(opt: nat, usize: nat): nat {
    if opt >= usize then opt - usize else 0
  }

  /** What stays to make room for `usize` bytes and for one more object, where there is room for `cap`
      objects and memory for more can be had or not. */
  function Room(s: seq<Obj>, usize: nat, opt: nat, cap: nat, memory: bool): seq<Obj> {
    var d := if Bytes(s) + usize > opt then Drained(s, Bound(opt, usize)) else s;
    if |d| == cap && !memory && d != [] then d[1..] else d
  }

  /** What the quarantine holds after an object was handed to it. */
  function After(s: seq<Obj>, x: Obj, opt: nat, cap: nat, memory: bool): seq<Obj> {
    var g := Room(s, x.usize, opt, cap, memory);
    if Bytes(g) + x.usize <= opt then g + [x] else g
  }

  /** With the `k` oldest objects gone, and with no fewer, another `usize` bytes are within the budget. */
  ghost predicate LeastGone(s: seq<Obj>, usize: nat, opt: nat, k: nat) {
    k <= |s| && Bytes(s[k..]) + usize <= opt && forall j :: 0 <= j < k ==> Bytes(s[j..]) + usize > opt
  }

  lemma {:induction false} BytesRest(s: seq<Obj>, k: nat)
    requires k <= |s|
    ensures Bytes(s[k..]) <= Bytes(s)
  {
    if k > 0 {
      assert s[1..][k - 1..] == s[k..];
      BytesRest(s[1..], k - 1);
    } else {
      assert s[0..] == s;
    }
  }

  lemma DrainedIs(s: seq<Obj>, usize: nat, opt: nat)
    requires usize <= opt
    ensures var d := Drained(s, opt - usize);
            LeastGone(s, usize, opt, |s| - |d|) && d == s[|s| - |d|..]
  {
    hide Drained, Bytes;
    var k := |s| - |Drained(s, opt - usize)|;
    forall j: nat | j < k ensures Bytes(s[j..]) + usize > opt {
      if Bytes(s[j..]) <= opt - usize {
        DrainedLeast(s, opt - usize, j);
      }
    }
  }

  lemma GoneSome(s: seq<Obj>, usize: nat, opt: nat, k: nat)
    requires LeastGone(s, usize, opt, k) && Bytes(s) + usize > opt
    ensures k > 0
  {
    assert s[0..] == s;
  }

  /** A budget that is exceeded makes room. */
  lemma DrainedShorter(s: seq<Obj>, bound: nat)
    requires s != [] && Bytes(s) > bound
    ensures |Drained(s, bound)| < |s|
  {
    hide Bytes;
    DrainedStep(s, bound);
  }

  lemma SameFront(a: seq<Obj>, b: seq<Obj>, c: seq<Obj>)
    requires a + c == b + c
    ensures a == b
  {
    assert |a| == |b| && a == (a + c)[..|a|] && b == (b + c)[..|b|];
  }

  /** What stays is what was there less the `gone` oldest. */
  ghost predicate Stays(s: seq<Obj>, usize: nat, opt: nat, full: bool, memory: bool, gone: nat) {
    && gone <= |s| && (usize > opt ==> gone == |s|)
    && (usize <= opt && Bytes(s) + usize > opt ==> LeastGone(s, usize, opt, gone))
    && (Bytes(s) + usize <= opt ==> gone == if full && !memory then 1 else 0)
  }

  /** Of objects that can be within the budget with the new one, as many as possible stay; without memory one
      goes when the ring is full and none had to go. */
  lemma RoomStays(s: seq<Obj>, usize: nat, opt: nat, cap: nat, memory: bool) returns (gone: nat)
    requires |s| <= cap && 0 < cap && usize > 0 && forall k :: 0 <= k < |s| ==> s[k].usize > 0
    ensures Stays(s, usize, opt, |s| == cap, memory, gone) && Room(s, usize, opt, cap, memory) == s[gone..]
  {
    hide Drained, Bytes, LeastGone;
    gone := |s| - |Room(s, usize, opt, cap, memory)|;
    if usize > opt {
      EmptyAtZero(Drained(s, 0));
    } else if Bytes(s) + usize > opt {
      DrainedIs(s, usize, opt);
      GoneSome(s, usize, opt, |s| - |Drained(s, opt - usize)|);
    }
  }

  // ---------------------------------------------------------------- the ring

  /** The index of the object that is `k` after the one at `first`. */
  function Slot(first: nat, k: nat, c: nat): nat
    requires first < c && k < c
  {
    if first + k < c then first + k else first + k - c
  }

  /** The mask that the code applies to an index. */
  lemma SlotIs(first: nat, k: nat, c: nat)
    requires first < c && k < c
    ensures (first + k) % c == Slot(first, k, c)
  {
    var x := first + k;
    if x < c {
      DivModUnique(x, 0, x, c);
    } else {
      DivModUnique(x, 1, x - c, c);
    }
  }

  /** The `n` objects from `first` on, around the end of the array. */
  function Window(objs: seq<Obj>, first: nat, n: nat): (r: seq<Obj>)
    requires first < |objs| && n <= |objs|
    ensures |r| == n
  {
    seq(n, k requires 0 <= k < n => objs[Slot(first, k, |objs|)])
  }

  lemma WindowRest(objs: seq<Obj>, first: nat, n: nat)
    requires first < |objs| && 0 < n <= |objs|
    ensures var next := if first + 1 < |objs| then first + 1 else 0;
            Window(objs, next, n - 1) == Window(objs, first, n)[1..]
    ensures Window(objs, first, n)[0] == objs[first]
  {
  }

  /** The mask on the index after `first`. */
  lemma NextIs(first: nat, c: nat)
    requires first < c
    ensures (first + 1) % c == if first + 1 < c then first + 1 else 0
  {
    if first + 1 < c {
      DivModUnique(first + 1, 0, first + 1, c);
    } else {
      DivModUnique(first + 1, 1, 0, c);
    }
  }

  lemma WindowAppend(objs: seq<Obj>, first: nat, n: nat, x: Obj)
    requires first < |objs| && n < |objs|
    ensures Window(objs[Slot(first, n, |objs|) := x], first, n + 1) == Window(objs, first, n) + [x]
  {
  }

  lemma Unwrapped(objs: seq<Obj>, first: nat, n: nat, ret: seq<Obj>)
    requires first < |objs| && n <= |objs| <= |ret|
    requires forall k :: 0 <= k < n ==> ret[k] == objs[Slot(first, k, |objs|)]
    ensures Window(ret, 0, n) == Window(objs, first, n)
  {
  }

  lemma Positive(lg: nat)
    ensures P(lg + 1) == 2 * P(lg)
  {
  }

  class Ring {
    const opt: nat
    var objs: array<Obj>
    var lgMaxobjs: nat
    var first: nat
    var curobjs: nat
    var curbytes: nat
    /** The objects that were freed, in order. */
    var freed: seq<Obj>

    ghost predicate Valid()
      reads this, objs
    {
      && objs.Length == P(lgMaxobjs) && first < objs.Length && curobjs <= objs.Length
      && curbytes == Bytes(Contents())
      && forall k :: 0 <= k < curobjs ==> Contents()[k].usize > 0
    }

    /** The quarantined objects, oldest first. */
    ghost function Contents(): (r: seq<Obj>)
      reads this, objs
      requires first < objs.Length && curobjs <= objs.Length
    {
      Window(objs[..], first, curobjs)
    }

    /** quarantine_init() */
    constructor (opt: nat)
      ensures Valid() && Contents() == [] && freed == [] && this.opt == opt && fresh(objs)
    {
      this.opt := opt;
      objs := new Obj[P(LG_MAXOBJS_INIT)](i => Obj(0, 0));
      lgMaxobjs, first, curobjs, curbytes, freed := LG_MAXOBJS_INIT, 0, 0, 0, [];
    }

    /** quarantine_drain_one() */
    method DrainOne()
      requires Valid() && curobjs > 0
      modifies this`freed, this`curbytes, this`curobjs, this`first
      ensures Valid() && Contents() == old(Contents())[1..] && freed == old(freed) + [old(Contents())[0]]
      ensures curbytes <= old(curbytes)
    {
      hide P;
      var obj := objs[first];
      ghost var s := Contents();
      WindowRest(objs[..], first, curobjs);
      NextIs(first, objs.Length);
      freed := freed + [obj];
      curbytes := curbytes - obj.usize;
      curobjs := curobjs - 1;
      first := (first + 1) % objs.Length;
      assert Contents() == s[1..];
    }

    /** quarantine_drain() */
    method Drain(upperBound: nat)
      requires Valid()
      modifies this`freed, this`curbytes, this`curobjs, this`first
      ensures Valid() && Contents() == Drained(old(Contents()), upperBound)
      ensures freed + Contents() == old(freed) + old(Contents())
    {
      hide P, Window, Bytes, Drained;
      while curbytes > upperBound && curobjs > 0
        invariant Valid() && freed + Contents() == old(freed) + old(Contents())
        invariant Drained(Contents(), upperBound) == Drained(old(Contents()), upperBound)
        decreases curobjs
      {
        ghost var s := Contents();
        DrainedStep(s, upperBound);
        DrainOne();
        assert [s[0]] + s[1..] == s;
      }
      DrainedDone(Contents(), upperBound);
    }

    /** quarantine_grow(): twice the room, the objects in order from the start; without memory, the oldest
        object is freed instead. */
    method Grow(memory: bool)
      requires Valid() && curobjs == objs.Length
      modifies this
      ensures Valid() && curobjs < objs.Length && curbytes <= old(curbytes)
      ensures Contents() == if memory then old(Contents()) else old(Contents())[1..]
      ensures freed + Contents() == old(freed) + old(Contents())
      ensures objs == old(objs) || fresh(objs)
      ensures objs.Length == if memory then 2 * old(objs.Length) else old(objs.Length)
    {
      hide P, Bytes, Window;
      Positive(lgMaxobjs);
      if !memory {
        DrainOne();
        return;
      }
      var c := objs.Length;
      ghost var o := objs[..];
      var ret := new Obj[P(lgMaxobjs + 1)](i => Obj(0, 0));
      ghost var s := Contents();
      if first + curobjs <= c {
        forall k | 0 <= k < curobjs {
          ret[k] := objs[first + k];
        }
      } else {
        var ncopyA := c - first;
        var ncopyB := curobjs - ncopyA;
        forall k | 0 <= k < ncopyA {
          ret[k] := objs[first + k];
        }
        forall k | 0 <= k < ncopyB {
          ret[ncopyA + k] := objs[k];
        }
      }
      assert forall k :: 0 <= k < curobjs ==> ret[k] == objs[Slot(first, k, c)];
      assert objs[..] == o;
      Unwrapped(o, first, curobjs, ret[..]);
      objs, first, lgMaxobjs := ret, 0, lgMaxobjs + 1;
      assert Contents() == s;
    }

    /** The part of quarantine() that drains and grows. */
    method MakeRoom(usize: nat, memory: bool)
      requires Valid() && usize > 0 && curbytes <= opt
      modifies this
      ensures Valid() && curbytes <= opt && curobjs < objs.Length && (objs == old(objs) || fresh(objs))
      ensures Contents() == Room(old(Contents()), usize, opt, old(objs.Length), memory)
      ensures freed + Contents() == old(freed) + old(Contents())
      ensures curbytes + usize > opt ==> curbytes == 0
      ensures objs.Length ==
                if old(curbytes + usize <= opt && curobjs == objs.Length) && memory then 2 * old(objs.Length)
                else old(objs.Length)
    {
      hide P, Window, Drained, Bytes;
      if curbytes + usize > opt {
        var upperBound := if opt >= usize then opt - usize else 0;
        EmptyAtZero(Contents());
        if curobjs > 0 {
          DrainedShorter(Contents(), upperBound);
        }
        Drain(upperBound);
      }
      if curobjs == objs.Length {
        Grow(memory);
      }
    }

    /** quarantine(): the objects freed and those held are all that were handed over, in order; the bytes
        held are counted exactly and are within the budget. */
    method Quarantine(ptr: nat, usize: nat, memory: bool) returns (ghost gone: nat)
      requires Valid() && usize > 0 && curbytes <= opt
      modifies this, objs
      ensures Valid() && curbytes <= opt && (objs == old(objs) || fresh(objs))
      ensures freed + Contents() == old(freed) + old(Contents()) + [Obj(ptr, usize)]
      ensures Contents() == After(old(Contents()), Obj(ptr, usize), opt, old(objs.Length), memory)
      ensures Stays(old(Contents()), usize, opt, old(curobjs == objs.Length), memory, gone)
      ensures freed == old(freed) + old(Contents())[..gone] + (if usize <= opt then [] else [Obj(ptr, usize)])
      ensures Contents() == old(Contents())[gone..] + (if usize <= opt then [Obj(ptr, usize)] else [])
      ensures objs.Length ==
                if old(curbytes + usize <= opt && curobjs == objs.Length) && memory then 2 * old(objs.Length)
                else old(objs.Length)
    {
      hide P, Window, Drained, Bytes, Room;
      var x := Obj(ptr, usize);
      ghost var s := Contents();
      gone := RoomStays(s, usize, opt, objs.Length, memory);
      MakeRoom(usize, memory);
      assert (old(freed) + s[..gone]) + s[gone..] == old(freed) + s;
      SameFront(freed, old(freed) + s[..gone], s[gone..]);
      if curbytes + usize <= opt {
        Append(ptr, usize);
      } else {
        assert curbytes == 0;
        EmptyAtZero(Contents());
        freed := freed + [x];
      }
    }

    /** quarantine_cleanup(): nothing stays. */
    method Cleanup()
      requires Valid()
      modifies this`freed, this`curbytes, this`curobjs, this`first
      ensures Valid() && Contents() == [] && freed == old(freed) + old(Contents())
    {
      hide P, Window;
      Drain(0);
      EmptyAtZero(Contents());
    }

    /** The object takes the slot after the last one. */
    method Append(ptr: nat, usize: nat)
      requires Valid() && curobjs < objs.Length && usize > 0
      modifies objs, this`curbytes, this`curobjs
      ensures Valid() && Contents() == old(Contents()) + [Obj(ptr, usize)] && curbytes == old(curbytes) + usize
    {
      hide P;
      var offset := (first + curobjs) % objs.Length;
      ghost var s := Contents();
      SlotIs(first, curobjs, objs.Length);
      WindowAppend(objs[..], first, curobjs, Obj(ptr, usize));
      BytesAppend(s, Obj(ptr, usize));
      ghost var before := objs[..];
      objs[offset] := Obj(ptr, usize);
      assert objs[..] == before[offset := Obj(ptr, usize)];
      curbytes := curbytes + usize;
      curobjs := curobjs + 1;
      assert Contents() == s + [Obj(ptr, usize)];
    }


  }
}
