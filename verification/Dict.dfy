/**
 The dictionary with incremental rehashing: while a backup table exists, every set moves one bucket
 of the active table into it.
 */
module Dict {
  import opened Arith
  import opened Wrappers
  import opened DictTable

  const ATM_DICT_INITIAL_BUCKET_SIZE: nat := 256
  const ATM_UTIL_POWER_INIT_SIZE: nat := 4
  const FORCE_RESIZE_RATIO: nat := 5
  const REHASH_LOOP_TIME: nat := 1
  const UINT32: nat := 0x1_0000_0000

  // ---------------------------------------------------------------- atm_util_next_power()

  /** The candidate after `n` doublings of a 32-bit number. */
  function Doubled(n: nat): (r: nat)
    ensures r < UINT32
  {
    if n == 0 then ATM_UTIL_POWER_INIT_SIZE else Doubled(n - 1) * 2 % UINT32
  }

  lemma {:induction false} DoubledStays(n: nat)
    ensures Doubled(n) <= 0x8000_0000 && (n >= 30 ==> Doubled(n) == 0)
  {
    if n > 30 {
      DoubledStays(n - 1);
    } else {
      FirstDoublings();
      assert n in {0, 1, 2, 3, 4, 5, 6, 7, 8, 9, 10, 11, 12, 13, 14, 15, 16, 17, 18, 19, 20, 21, 22, 23, 24, 25,
                   26, 27, 28, 29, 30};
    }
  }

  lemma FirstDoublings()
    ensures Doubled(0) == 4 && Doubled(1) == 8 && Doubled(2) == 0x10 && Doubled(3) == 0x20 && Doubled(4) == 0x40
    ensures Doubled(5) == 0x80 && Doubled(6) == 0x100 && Doubled(7) == 0x200 && Doubled(8) == 0x400
    ensures Doubled(9) == 0x800 && Doubled(10) == 0x1000 && Doubled(11) == 0x2000 && Doubled(12) == 0x4000
    ensures Doubled(13) == 0x8000 && Doubled(14) == 0x1_0000 && Doubled(15) == 0x2_0000
    ensures Doubled(16) == 0x4_0000 && Doubled(17) == 0x8_0000 && Doubled(18) == 0x10_0000
    ensures Doubled(19) == 0x20_0000 && Doubled(20) == 0x40_0000 && Doubled(21) == 0x80_0000
    ensures Doubled(22) == 0x100_0000 && Doubled(23) == 0x200_0000 && Doubled(24) == 0x400_0000
    ensures Doubled(25) == 0x800_0000 && Doubled(26) == 0x1000_0000 && Doubled(27) == 0x2000_0000
    ensures Doubled(28) == 0x4000_0000 && Doubled(29) == 0x8000_0000 && Doubled(30) == 0
  {
  }

  /** The loop comes to a candidate that is large enough, and so ends, exactly up to 2^31. */
  lemma NextPowerEnds(num: nat)
    ensures (exists n :: Doubled(n) >= num) <==> num <= 0x8000_0000
  {
    if num <= 0x8000_0000 {
      FirstDoublings();
      assert Doubled(29) >= num;
    } else {
      forall n ensures Doubled(n) < num {
        DoubledStays(n);
      }
    }
  }

  /** The first candidate that is not below `num`. */
  ghost predicate FirstDoubling(res: nat, num: nat) {
    res >= num && exists n: nat :: res == Doubled(n) && forall k: nat :: k < n ==> Doubled(k) < num
  }

  /** atm_util_next_power(): the first candidate that is not below `num`. */
  method NextPower(num: nat) returns (res: nat, ghost n: nat)
    requires num <= 0x8000_0000
    ensures res == Doubled(n) >= num && forall k :: 0 <= k < n ==> Doubled(k) < num
    ensures res > 0
  {
    FirstDoublings();
    res, n := ATM_UTIL_POWER_INIT_SIZE, 0;
    while res < num
      invariant res == Doubled(n) && n <= 29 && forall k :: 0 <= k < n ==> Doubled(k) < num
      decreases 29 - n
    {
      res, n := res * 2 % UINT32, n + 1;
    }
    assert n in {0, 1, 2, 3, 4, 5, 6, 7, 8, 9, 10, 11, 12, 13, 14, 15, 16, 17, 18, 19, 20, 21, 22, 23, 24, 25,
                 26, 27, 28, 29};
  }

  // ---------------------------------------------------------------- what the two tables stand for

  function SizeOf(b: Option<Table>): nat {
    if b.Some? then b.value.size else 0
  }

  /** What the backup table, if there is one, says about a key. */
  function InBackup(h: Hash, b: Option<Table>, key: nat): Option<nat>
    requires b.Some? ==> |b.value.buckets| > 0
  {
    if b.Some? then Lookup(h, b.value, key) else None
  }

  /** The tables hold the map: every key once, in exactly one of them. */
  ghost predicate Refines(h: Hash, view: map<nat, nat>, active: Table, backup: Option<Table>) {
    && Ordered(h, active) && (backup.Some? ==> Ordered(h, backup.value))
    && (forall k :: KeyOk(h, view, active, backup, k))
    && |view| == active.size + SizeOf(backup)
  }

  ghost predicate KeyOk(h: Hash, view: map<nat, nat>, active: Table, backup: Option<Table>, k: nat)
    requires |active.buckets| > 0 && (backup.Some? ==> |backup.value.buckets| > 0)
  {
    var a, b := Lookup(h, active, k), InBackup(h, backup, k);
    if a.Some? then b.None? && k in view && view[k] == a.value
    else if b.Some? then k in view && view[k] == b.value
    else k !in view
  }

  /** Moving the first entry of a bucket over. */
  lemma MoveRefines(h: Hash, view: map<nat, nat>, active: Table, backup: Table, i: nat)
    requires Refines(h, view, active, Some(backup)) && i < |active.buckets| && Entries(active.buckets[i]) != []
    requires active.size > 0
    ensures Refines(h, view, Popped(active, i), Some(PushEntry(h, backup, Entries(active.buckets[i])[0])))
  {
    var e := Entries(active.buckets[i])[0];
    var active', backup' := Popped(active, i), PushEntry(h, backup, e);
    PopLookup(h, active, i, e.key);
    assert KeyOk(h, view, active, Some(backup), e.key);
    PushOrdered(h, backup, e);
    hide Ordered, Popped, PushEntry, Lookup;
    forall k ensures KeyOk(h, view, active', Some(backup'), k) {
      PopLookup(h, active, i, k);
      PushLookup(h, backup, e, k);
      assert KeyOk(h, view, active, Some(backup), k);
    }
    PushSize(h, backup, e);
    PopSize(active, i);
  }

  lemma PushSize(h: Hash, t: Table, e: Entry)
    requires |t.buckets| > 0
    ensures PushEntry(h, t, e).size == t.size + 1
  {
  }

  lemma PopSize(t: Table, i: nat)
    requires i < |t.buckets| && Entries(t.buckets[i]) != [] && t.size > 0
    ensures Popped(t, i).size == t.size - 1
  {
  }

  /** Setting a key in the only table, or in the backup when the active table does not have it. */
  lemma SetRefines(h: Hash, view: map<nat, nat>, active: Table, backup: Option<Table>, key: nat, val: nat)
    requires Refines(h, view, active, backup)
    requires Shape(if backup.Some? then backup.value else active, 0)
    requires backup.Some? ==> Lookup(h, active, key).None?
    ensures var view' := view[key := val];
            if backup.Some? then Refines(h, view', active, Some(TableSet(h, backup.value, key, val)))
            else Refines(h, view', TableSet(h, active, key, val), None)
  {
    var t := if backup.Some? then backup.value else active;
    SetOrdered(h, t, key, val);
    SetShape(h, t, key, val);
    assert KeyOk(h, view, active, backup, key);
    var t' := TableSet(h, t, key, val);
    hide Ordered, TableSet, Lookup, Shape;
    var a', b' := if backup.Some? then active else t', if backup.Some? then Some(t') else None;
    var view' := view[key := val];
    forall k ensures KeyOk(h, view', a', b', k) {
      SetLookup(h, t, key, val, k);
      assert KeyOk(h, view, active, backup, k);
    }
    SizeUpdate(view, key, val);
  }

  lemma SizeUpdate(view: map<nat, nat>, key: nat, val: nat)
    ensures |view[key := val]| == |view| + if key in view then 0 else 1
  {
    assert view[key := val].Keys == view.Keys + {key};
    assert |view[key := val]| == |view[key := val].Keys| && |view| == |view.Keys|;
  }

  /** The count of buckets says nothing about the entries. */
  lemma UsedRefines(h: Hash, view: map<nat, nat>, active: Table, backup: Option<Table>)
    ensures Refines(h, view, active, backup) ==> forall used :: Refines(h, view, active.(used := used), backup)
  {
    if Refines(h, view, active, backup) {
      forall used ensures Refines(h, view, active.(used := used), backup) {
        var t := active.(used := used);
        forall i | 0 <= i < |t.buckets| ensures ListOk(h, t, i) {
          assert ListOk(h, active, i);
        }
        forall k ensures KeyOk(h, view, t, backup, k) {
          assert KeyOk(h, view, active, backup, k);
        }
      }
    }
  }

  /** A fresh backup holds nothing. */
  lemma StartRefines(h: Hash, view: map<nat, nat>, active: Table, bsz: nat)
    requires bsz > 0
    ensures Refines(h, view, active, None) ==>
              Refines(h, view, active, Some(Table(seq(bsz, i => Option<seq<Entry>>.None), 0, 0)))
  {
    var b := Table(seq(bsz, i => Option<seq<Entry>>.None), 0, 0);
    if Refines(h, view, active, None) {
      forall k ensures KeyOk(h, view, active, Some(b), k) {
        assert KeyOk(h, view, active, None, k);
      }
    }
  }

  /** An active table without entries has nothing to say. */
  lemma FinishRefines(h: Hash, view: map<nat, nat>, active: Table, backup: Table)
    requires active.size == 0 == Total(active.buckets) && |active.buckets| > 0
    ensures Refines(h, view, active, Some(backup)) ==> Refines(h, view, backup, None)
  {
    if Refines(h, view, active, Some(backup)) {
      forall k ensures KeyOk(h, view, backup, None, k) {
        NothingThere(active.buckets, Hkey(h, active, k));
        assert KeyOk(h, view, active, Some(backup), k);
      }
    }
  }

  lemma {:induction false} NothingThere(bs: seq<Bucket>, i: nat)
    requires Total(bs) == 0 && i < |bs|
    ensures Entries(bs[i]) == []
  {
    if i < |bs| - 1 {
      NothingThere(bs[..|bs| - 1], i);
    }
  }

  /** A key of the active table is in the map, and not in the backup. */
  lemma KnownKey(h: Hash, view: map<nat, nat>, active: Table, backup: Option<Table>, key: nat)
    requires Refines(h, view, active, backup)
    ensures |active.buckets| > 0 && (backup.Some? ==> |backup.value.buckets| > 0)
    ensures |view| == active.size + SizeOf(backup)
    ensures Lookup(h, active, key).Some? ==> key in view && InBackup(h, backup, key).None?
  {
    assert KeyOk(h, view, active, backup, key);
  }

  lemma WrongSize(h: Hash, view: map<nat, nat>, active: Table, backup: Option<Table>)
    requires |view| != active.size + SizeOf(backup)
    ensures !Refines(h, view, active, backup)
  {
  }

  /** The ratio, which is rounded down, is reached with that many entries. */
  lemma RatioReached(t: Table)
    requires |t.buckets| > 0
    ensures t.size / |t.buckets| >= FORCE_RESIZE_RATIO <==> t.size >= FORCE_RESIZE_RATIO * |t.buckets|
  {
    var n := |t.buckets|;
    var q := t.size / n;
    assert t.size == q * n + t.size % n;
    if q >= FORCE_RESIZE_RATIO {
      assert q * n >= FORCE_RESIZE_RATIO * n;
    } else {
      assert q * n <= (FORCE_RESIZE_RATIO - 1) * n;
    }
  }

  // ---------------------------------------------------------------- the dictionary

  class Dictionary {
    const h: Hash
    var active: Table
    var backup: Option<Table>
    var rehashIndex: nat
    var enableResize: bool
    /** The number of entries when the migration began. */
    ghost var trigger: nat

    /** The shape of the dictionary; `pending` tells whether a set has still to move its bucket. */
    ghost predicate Sound(pending: nat)
      reads this
    {
      if backup.None? then Shape(active, 0) && rehashIndex == 0
      else
        && Shape(active, rehashIndex) && Shape(backup.value, 0) && active.size > 0
        && |active.buckets| <= trigger && 2 * trigger <= |backup.value.buckets|
        && 0 < rehashIndex < |active.buckets|
        && active.size + backup.value.size < trigger + rehashIndex + pending
    }

    ghost predicate Holds(view: map<nat, nat>)
      reads this
    {
      Refines(h, view, active, backup)
    }

    constructor (h: Hash)
      ensures Sound(0) && Holds(map[]) && this.h == h && enableResize && backup.None?
      ensures active == Table(seq(ATM_DICT_INITIAL_BUCKET_SIZE, i => None), 0, 0)
    {
      this.h := h;
      active := Table(seq(ATM_DICT_INITIAL_BUCKET_SIZE, i => None), 0, 0);
      backup, rehashIndex, enableResize, trigger := None, 0, true, 0;
      new;
      AbsentTotal(ATM_DICT_INITIAL_BUCKET_SIZE);
      forall k ensures KeyOk(h, map[], active, None, k) {
      }
    }

    /** atm_dict_rehash_needed() */
    function RehashNeeded(): bool
      reads this
      requires |active.buckets| > 0
    {
      if backup.Some? then true
      else if enableResize then active.size >= |active.buckets|
      else active.size / |active.buckets| >= FORCE_RESIZE_RATIO
    }

    lemma NeededIsFull()
      requires |active.buckets| > 0 && backup.None? && RehashNeeded()
      ensures |active.buckets| <= active.size
    {
      if !enableResize {
        AtLeast(active.size / |active.buckets|, |active.buckets|);
      }
    }

    /** The loop that empties one bucket of the active table into the backup. */
    method MoveBucket(i: nat, ghost view: map<nat, nat>)
      requires backup.Some? && i < |active.buckets| && active.buckets[i].Some? && Shape(backup.value, 0)
      requires active.size == Total(active.buckets)
      modifies this`active, this`backup
      ensures backup.Some? && Shape(backup.value, 0) && |backup.value.buckets| == |old(backup.value.buckets)|
      ensures active.buckets == old(active.buckets)[i := Some([])] && active.size == Total(active.buckets)
      ensures active.used == old(active.used)
      ensures active.size + backup.value.size == old(active.size + backup.value.size)
      ensures old(Holds(view)) ==> forall used :: Refines(h, view, active.(used := used), backup)
    {
      hide Refines;
      while Entries(active.buckets[i]) != []
        invariant backup.Some? && Shape(backup.value, 0) && |backup.value.buckets| == |old(backup.value.buckets)|
        invariant i < |active.buckets| && active.buckets[i].Some? && active.used == old(active.used)
        invariant active.buckets == old(active.buckets)[i := active.buckets[i]] && active.size == Total(active.buckets)
        invariant active.size + backup.value.size == old(active.size + backup.value.size)
        invariant old(Holds(view)) ==> Holds(view)
        decreases |Entries(active.buckets[i])|
      {
        var e := Entries(active.buckets[i])[0];
        TotalUpdate(active.buckets, i, Some(Entries(active.buckets[i])[1..]));
        if Holds(view) {
          MoveRefines(h, view, active, backup.value, i);
        }
        PushShape(h, backup.value, e);
        PushSize(h, backup.value, e);
        backup := Some(PushEntry(h, backup.value, e));
        active := Popped(active, i);
      }
      UsedRefines(h, view, active, backup);
    }

    /** The first part of atm_dict_rehash(): a backup table of at least twice as many buckets as there
        are entries. */
    method Start(ghost view: map<nat, nat>)
      requires backup.None? && Shape(active, 0) && rehashIndex == 0 && RehashNeeded() && active.size <= 0x4000_0000
      modifies this`backup, this`trigger
      ensures backup.Some? && Shape(backup.value, 0) && backup.value.size == 0 && trigger == active.size
      ensures |active.buckets| <= trigger && 2 * trigger <= |backup.value.buckets|
      ensures FirstDoubling(|backup.value.buckets|, 2 * active.size)
      ensures old(Holds(view)) ==> Holds(view)
    {
      hide Refines;
      NeededIsFull();
      var bsz, _ := NextPower(active.size * 2);
      AbsentTotal(bsz);
      StartRefines(h, view, active, bsz);
      trigger := active.size;
      backup := Some(Table(seq(bsz, i => None), 0, 0));
    }

    /** One round of its loop; the counts are never found inconsistent. */
    method Visit(ghost view: map<nat, nat>)
      requires backup.Some? && Shape(active, rehashIndex) && Shape(backup.value, 0)
      requires rehashIndex < |active.buckets| && active.size > 0
      modifies this`active, this`backup, this`rehashIndex
      ensures backup.Some? && Shape(active, rehashIndex) && Shape(backup.value, 0)
      ensures |active.buckets| == |old(active.buckets)| && |backup.value.buckets| == |old(backup.value.buckets)|
      ensures rehashIndex == old(rehashIndex) + 1
      ensures active.size + backup.value.size == old(active.size + backup.value.size)
      ensures old(active.buckets[rehashIndex]).None? ==> active == old(active)
      ensures old(Holds(view)) ==> Holds(view)
    {
      hide Refines;
      var i := rehashIndex;
      LeftOver(active.buckets, i);
      assert active.used != 0 && active.size != 0;
      var bkt := active.buckets[i];
      ExistingNext(active.buckets, i, if bkt.None? then None else Some([]));
      rehashIndex := rehashIndex + 1;
      if bkt.None? {
        assert active.buckets[i := None] == active.buckets;
        return;
      }
      MoveBucket(i, view);
      active := active.(used := active.used - 1);
    }

    /** atm_dict_rehash(): starts a migration when one is needed, and moves one bucket.  None of the
        inconsistencies on which the code gives up can occur. */
    method Rehash(ghost view: map<nat, nat>)
      requires Sound(1) && active.size + SizeOf(backup) <= 0x4000_0000
      modifies this`active, this`backup, this`rehashIndex, this`trigger
      ensures Sound(0) && (old(Holds(view)) ==> Holds(view))
      ensures active.size + SizeOf(backup) == old(active.size + SizeOf(backup))
      ensures old(backup).Some? && backup.Some? ==>
                rehashIndex == old(rehashIndex) + 1 && |active.buckets| == |old(active.buckets)|
      ensures old(backup).Some? && backup.None? ==> active.size < |active.buckets|
      ensures old(backup).None? && backup.Some? ==>
                rehashIndex == 1 && |active.buckets| == |old(active.buckets)|
      ensures |active.buckets| != |old(active.buckets)| ==> backup.None? && active.size < |active.buckets|
      ensures !old(RehashNeeded()) ==> active == old(active) && backup == old(backup)
      ensures old(backup).None? && old(RehashNeeded()) ==>
                FirstDoubling(if backup.Some? then |backup.value.buckets| else |active.buckets|, 2 * old(active.size))
      ensures old(RehashNeeded()) && old(active.buckets[rehashIndex]).None? ==> backup.Some? && active == old(active)
    {
      hide Refines, Swept, Total, Existing, FirstDoubling;
      if !RehashNeeded() {
        return;
      }
      if backup.None? {
        Start(view);
      }
      for loop := 0 to REHASH_LOOP_TIME
        invariant backup.Some? && Shape(active, rehashIndex) && Shape(backup.value, 0)
        invariant |active.buckets| <= trigger && 2 * trigger <= |backup.value.buckets|
        invariant |active.buckets| == |old(active.buckets)| && rehashIndex == old(rehashIndex) + loop <= |active.buckets|
        invariant loop == 0 ==> rehashIndex < |active.buckets| && active.size > 0
        invariant old(backup).None? ==> FirstDoubling(|backup.value.buckets|, 2 * old(active.size))
        invariant loop == 0 || old(active.buckets[rehashIndex]).None? ==> active == old(active)
        invariant active.size + backup.value.size < trigger + rehashIndex + (1 - loop)
        invariant active.size + backup.value.size == old(active.size + SizeOf(backup))
        invariant old(Holds(view)) ==> Holds(view)
      {
        Visit(view);
      }
      LeftOver(active.buckets, rehashIndex);
      if active.size == 0 {
        assert rehashIndex <= |active.buckets| && active.used == 0;
        FinishRefines(h, view, active, backup.value);
        active, backup, rehashIndex := backup.value, None, 0;
      }
    }

    /** atm_dict_resize_enable() and its opposite: nothing but when a migration starts depends on it. */
    method ResizeEnable(on: bool, ghost view: map<nat, nat>)
      requires Sound(0)
      modifies this`enableResize
      ensures enableResize == on && Sound(0) && (old(Holds(view)) ==> Holds(view))
    {
      enableResize := on;
    }

    /** atm_dict_set(): the map gets the value, unless a migration is under way and the active table has
        the key; then the key is counted twice.  While keys are set, a migration takes no more sets than
        the active table has buckets, and leaves a table with fewer entries than buckets. */
    method Set(key: nat, val: nat, ghost view: map<nat, nat>)
      requires Sound(0) && active.size + SizeOf(backup) < 0x4000_0000
      modifies this`active, this`backup, this`rehashIndex, this`trigger
      ensures Sound(0)
      ensures old(Holds(view)) ==> (Holds(view[key := val]) <==> old(backup.None? || Lookup(h, active, key).None?))
      ensures old(backup).Some? && backup.Some? ==>
                rehashIndex == old(rehashIndex) + 1 && |active.buckets| == |old(active.buckets)|
      ensures old(backup).Some? && backup.None? ==> active.size < |active.buckets|
      ensures old(backup).None? && backup.Some? ==>
                rehashIndex == 1 && |active.buckets| == |old(active.buckets)|
      ensures |active.buckets| != |old(active.buckets)| ==> backup.None? && active.size < |active.buckets|
      ensures old(backup).None? && enableResize ==>
                var t := TableSet(h, old(active), key, val);
                && (t.size < |t.buckets| ==> active == t && backup.None?)
                && (t.size >= |t.buckets| && t.buckets[0].None? ==> active == t && backup.Some?)
      ensures old(backup).Some? && old(active.buckets[rehashIndex]).None? ==> backup.Some? && active == old(active)
      ensures old(backup).None? ==>
                var t := TableSet(h, old(active), key, val);
                if (if enableResize then t.size >= |t.buckets| else t.size >= FORCE_RESIZE_RATIO * |t.buckets|)
                then FirstDoubling(if backup.Some? then |backup.value.buckets| else |active.buckets|, 2 * t.size)
                else active == t && backup.None?
    {
      hide Refines, Swept, Total, Existing, Ordered, Lookup, FirstDoubling;
      RatioReached(TableSet(h, active, key, val));
      ghost var fine := backup.None? || Lookup(h, active, key).None?;
      ghost var view' := view[key := val];
      ghost var held := Holds(view);
      ghost var count := active.size + SizeOf(backup);
      if held && fine {
        SetRefines(h, view, active, backup, key, val);
      }
      if held {
        KnownKey(h, view, active, backup, key);
        SizeUpdate(view, key, val);
      }
      if backup.Some? {
        SetShape(h, backup.value, key, val);
        backup := Some(TableSet(h, backup.value, key, val));
      } else {
        SetShape(h, active, key, val);
        active := TableSet(h, active, key, val);
      }
      assert held && fine ==> Holds(view');
      ghost var grown := active.size + SizeOf(backup);
      Rehash(view');
      if held && !fine {
        WrongSize(h, view', active, backup);
      }
    }

    /** atm_dict_get() */
    method Get(key: nat, ghost view: map<nat, nat>) returns (r: Option<nat>)
      requires Sound(0) && Holds(view)
      ensures r == if key in view then Some(view[key]) else None
    {
      assert KeyOk(h, view, active, backup, key);
      r := Lookup(h, active, key);
      if r.None? && backup.Some? {
        r := Lookup(h, backup.value, key);
      }
    }

    /** atm_dict_contains() */
    method Contains(key: nat, ghost view: map<nat, nat>) returns (r: bool)
      requires Sound(0) && Holds(view)
      ensures r <==> key in view
    {
      assert KeyOk(h, view, active, backup, key);
      r := Lookup(h, active, key).Some?;
      if !r && backup.Some? {
        r := Lookup(h, backup.value, key).Some?;
      }
    }
  }

  // ---------------------------------------------------------------- whole runs

  datatype Op = OpSet(key: nat, val: nat) | OpGet(key: nat) | OpContains(key: nat) | OpResize(on: bool)
  datatype Answer = Stored | Value(v: Option<nat>) | Truth(b: bool)

  /** The plain map after some operations. */
  ghost function Plain(ops: seq<Op>): map<nat, nat>
    decreases |ops|
  {
    if ops == [] then map[]
    else
      var n := |ops| - 1;
      if ops[n].OpSet? then Plain(ops[..n])[ops[n].key := ops[n].val] else Plain(ops[..n])
  }

  /** What the plain map answers. */
  ghost function Reply(view: map<nat, nat>, op: Op): Answer {
    match op
    case OpSet(_, _) => Stored
    case OpGet(k) => Value(if k in view then Some(view[k]) else None)
    case OpContains(k) => Truth(k in view)
    case OpResize(_) => Stored
  }

  /** No key is set twice. */
  ghost predicate SetsOnce(ops: seq<Op>) {
    forall i, j :: 0 <= i < j < |ops| && ops[i].OpSet? && ops[j].OpSet? ==> ops[i].key != ops[j].key
  }

  lemma {:induction false} PlainKeys(ops: seq<Op>)
    ensures |Plain(ops)| <= |ops|
    ensures forall k :: k in Plain(ops) ==> exists i :: 0 <= i < |ops| && ops[i].OpSet? && ops[i].key == k
    decreases |ops|
  {
    if ops != [] {
      var n := |ops| - 1;
      PlainKeys(ops[..n]);
      if ops[n].OpSet? {
        SizeUpdate(Plain(ops[..n]), ops[n].key, ops[n].val);
      }
      forall k | k in Plain(ops) ensures exists i :: 0 <= i < |ops| && ops[i].OpSet? && ops[i].key == k {
        if k in Plain(ops[..n]) {
          var i :| 0 <= i < n && ops[..n][i].OpSet? && ops[..n][i].key == k;
          assert ops[i].OpSet? && ops[i].key == k;
        } else {
          assert ops[n].OpSet? && ops[n].key == k;
        }
      }
    }
  }

  lemma PlainNext(ops: seq<Op>, i: nat)
    requires i < |ops|
    ensures Plain(ops[..i + 1]) == if ops[i].OpSet? then Plain(ops[..i])[ops[i].key := ops[i].val] else Plain(ops[..i])
    ensures ops[i].OpSet? && SetsOnce(ops) ==> ops[i].key !in Plain(ops[..i])
  {
    assert ops[..i + 1][..i] == ops[..i];
    PlainKeys(ops[..i]);
  }

  /** Any run of operations that sets no key twice gets the answers of a plain map, although every set may
      move a bucket, and whatever is said about resizing in between. */
  method RunOps(h: Hash, ops: seq<Op>) returns (answers: seq<Answer>)
    requires SetsOnce(ops) && |ops| < 0x4000_0000
    ensures |answers| == |ops| && forall i :: 0 <= i < |ops| ==> answers[i] == Reply(Plain(ops[..i]), ops[i])
  {
    hide Refines, Swept, Total, Existing, Ordered, Lookup, Plain;
    var d := new Dictionary(h);
    answers := [];
    assert ops[..0] == [];
    PlainNone();
    for n := 0 to |ops|
      invariant fresh(d) && d.Sound(0) && d.Holds(Plain(ops[..n]))
      invariant |answers| == n && forall i :: 0 <= i < n ==> answers[i] == Reply(Plain(ops[..i]), ops[i])
    {
      ghost var view := Plain(ops[..n]);
      PlainNext(ops, n);
      PlainKeys(ops[..n]);
      match ops[n]
      case OpSet(k, v) =>
        SetsNew(d, view, k);
        d.Set(k, v, view);
        answers := answers + [Stored];
      case OpGet(k) =>
        var r := d.Get(k, view);
        answers := answers + [Value(r)];
      case OpContains(k) =>
        var b := d.Contains(k, view);
        answers := answers + [Truth(b)];
      case OpResize(on) =>
        d.ResizeEnable(on, view);
        answers := answers + [Stored];
    }
  }

  /** The map after the first `n` entries were set. */
  ghost function WithEntries(view: map<nat, nat>, es: seq<Entry>, n: nat): map<nat, nat>
    requires n <= |es|
    decreases n
  {
    if n == 0 then view else WithEntries(view, es, n - 1)[es[n - 1].key := es[n - 1].val]
  }

  ghost predicate NewKeys(view: map<nat, nat>, es: seq<Entry>) {
    && (forall i :: 0 <= i < |es| ==> es[i].key !in view)
    && forall i, j :: 0 <= i < j < |es| ==> es[i].key != es[j].key
  }

  lemma {:induction false} WithEntriesKeys(view: map<nat, nat>, es: seq<Entry>, n: nat)
    requires NewKeys(view, es) && n <= |es|
    ensures |WithEntries(view, es, n)| == |view| + n
    ensures forall i :: n <= i < |es| ==> es[i].key !in WithEntries(view, es, n)
    decreases n
  {
    if n > 0 {
      WithEntriesKeys(view, es, n - 1);
      SizeUpdate(WithEntries(view, es, n - 1), es[n - 1].key, es[n - 1].val);
    }
  }

  method SetEntry(d: Dictionary, es: seq<Entry>, n: nat, ghost view: map<nat, nat>)
    requires n < |es| && NewKeys(view, es) && |view| + |es| < 0x4000_0000
    requires d.Sound(0) && d.Holds(WithEntries(view, es, n))
    modifies d
    ensures d.Sound(0) && d.Holds(WithEntries(view, es, n + 1))
    ensures old(d.backup).Some? && d.backup.Some? ==>
              d.rehashIndex == old(d.rehashIndex) + 1 && |d.active.buckets| == |old(d.active.buckets)|
    ensures old(d.backup).Some? && d.backup.None? ==> d.active.size < |d.active.buckets|
  {
    hide Refines, Swept, Total, Existing, Ordered, Lookup, WithEntries, Shape, PushEntry, TableSet;
    ghost var now := WithEntries(view, es, n);
    WithEntriesKeys(view, es, n);
    SetsNew(d, now, es[n].key);
    NextEntry(view, es, n);
    d.Set(es[n].key, es[n].val, now);
  }

  /** A migration under way ends within as many sets of new keys as there are buckets left to visit, at a
      table with fewer entries than buckets, so that it does not begin again at once. */
  method Migrate(d: Dictionary, es: seq<Entry>, ghost view: map<nat, nat>) returns (n: nat)
    requires d.Sound(0) && d.Holds(view) && d.backup.Some? && NewKeys(view, es)
    requires |es| >= |d.active.buckets| - d.rehashIndex && |view| + |es| < 0x4000_0000
    modifies d
    ensures 0 < n <= |es| && n <= old(|d.active.buckets| - d.rehashIndex)
    ensures d.Sound(0) && d.Holds(WithEntries(view, es, n))
    ensures d.backup.None? && d.active.size < |d.active.buckets|
  {
    hide Refines, Swept, Total, Existing, Ordered, Lookup, WithEntries, Shape, PushEntry, TableSet;
    n := 0;
    NoEntries(view, es);
    ghost var left := |d.active.buckets| - d.rehashIndex;
    while d.backup.Some?
      invariant n <= left <= |es| && d.Sound(0) && d.Holds(WithEntries(view, es, n))
      invariant d.backup.Some? ==> |d.active.buckets| - d.rehashIndex == left - n
      invariant n == 0 ==> d.backup.Some?
      invariant d.backup.None? ==> d.active.size < |d.active.buckets|
      decreases left - n
    {
      SetEntry(d, es, n, view);
      n := n + 1;
    }
  }

  lemma NoEntries(view: map<nat, nat>, es: seq<Entry>)
    ensures WithEntries(view, es, 0) == view
  {
  }

  lemma NextEntry(view: map<nat, nat>, es: seq<Entry>, n: nat)
    requires n < |es|
    ensures WithEntries(view, es, n + 1) == WithEntries(view, es, n)[es[n].key := es[n].val]
  {
  }

  /** The numbers below `n` under themselves, all in bucket 5, and no migration. */
  ghost predicate Counted(d: Dictionary, view: map<nat, nat>, n: nat)
    reads d
  {
    && d.Sound(0) && d.Holds(view) && d.backup.None? && d.enableResize && view == Numbers(n)
    && |d.active.buckets| == 256 && FirstAbsent(d.active) && d.h(255) == 5
  }

  method SetNumber(d: Dictionary, n: nat, ghost view: map<nat, nat>)
    requires Counted(d, view, n) && n < 255 && d.h(n) == 5
    modifies d
    ensures Counted(d, view[n := n], n + 1)
  {
    hide Refines, Swept, Total, Existing, Ordered, Lookup, Shape, PushEntry, TableSet, Numbers;
    NumbersAre(n);
    NumbersAre(n + 1);
    SetsNew(d, view, n);
    NotInFirst(d.h, d.active, n, n);
    d.Set(n, n, view);
  }

  /** A table one set short of a migration. */
  method OneShort() returns (d: Dictionary, ghost view: map<nat, nat>)
    ensures fresh(d) && Counted(d, view, 255)
  {
    var h: Hash := _ => 5;
    d := new Dictionary(h);
    view := map[];
    NumbersAre(0);
    hide Dictionary.Sound, Dictionary.Holds, FirstAbsent, Numbers;
    for n := 0 to 255
      invariant fresh(d) && Counted(d, view, n) && d.h == h
    {
      SetNumber(d, n, view);
      view := view[n := n];
    }
  }

  /** A migration that has not reached its keys: 256 of them, all in bucket 5. */
  method Crowded() returns (d: Dictionary, ghost view: map<nat, nat>)
    ensures fresh(d) && d.Sound(0) && d.Holds(view) && d.backup.Some? && d.active.size == 256
    ensures view == Numbers(256)
    ensures d.rehashIndex == 1 && d.active.buckets[1].None? && Lookup(d.h, d.active, 7) == Some(7)
  {
    hide Refines, Swept, Total, Existing, Ordered, Lookup, Shape, PushEntry, TableSet, Numbers;
    d, view := OneShort();
    NumbersAre(255);
    NumbersAre(256);
    SetsNew(d, view, 255);
    NotInFirst(d.h, d.active, 255, 255);
    SetLookup(d.h, d.active, 255, 255, 7);
    HeldInActive(d, view, 7);
    d.Set(255, 255, view);
    view := view[255 := 255];
  }

  ghost function Numbers(n: nat): map<nat, nat> {
    if n == 0 then map[] else Numbers(n - 1)[n - 1 := n - 1]
  }

  lemma {:induction false} NumbersAre(n: nat)
    ensures |Numbers(n)| == n && forall k: nat :: k in Numbers(n) <==> k < n
    ensures forall k: nat :: k < n ==> Numbers(n)[k] == k
    ensures n == 0 ==> Numbers(n) == map[]
    ensures n > 0 ==> Numbers(n) == Numbers(n - 1)[n - 1 := n - 1]
  {
    if n > 0 {
      NumbersAre(n - 1);
      SizeUpdate(Numbers(n - 1), n - 1, n - 1);
    }
  }

  ghost predicate FirstAbsent(t: Table) {
    |t.buckets| > 1 && t.buckets[0].None? && t.buckets[1].None?
  }

  lemma NotInFirst(h: Hash, t: Table, key: nat, val: nat)
    requires |t.buckets| == 256 && FirstAbsent(t) && h(key) == 5 && Lookup(h, t, key).None?
    ensures FirstAbsent(TableSet(h, t, key, val)) && TableSet(h, t, key, val).size == t.size + 1
  {
  }

  /** Without a backup a key of the map is found in the active table. */
  lemma HeldInActive(d: Dictionary, view: map<nat, nat>, key: nat)
    requires d.Holds(view) && d.backup.None? && key in view
    ensures |d.active.buckets| > 0 && Lookup(d.h, d.active, key) == Some(view[key])
  {
    assert KeyOk(d.h, view, d.active, d.backup, key);
  }

  /** A run that loses track: a key of a migration under way is set again, and its old value is found. */
  method SetTwice() returns (d: Dictionary, ghost want: map<nat, nat>)
    ensures want == Numbers(256)[7 := 0]
    ensures d.Sound(0) && !d.Holds(want) && Lookup(d.h, d.active, 7) == Some(7)
  {
    hide Refines, Swept, Total, Existing, Ordered, Lookup, Shape, PushEntry, TableSet, Numbers;
    ghost var view;
    d, view := Crowded();
    NumbersAre(256);
    KnownKey(d.h, view, d.active, d.backup, 7);
    d.Set(7, 0, view);
    want := view[7 := 0];
  }

  lemma PlainNone()
    ensures Plain([]) == map[]
  {
  }

  /** A key that the map does not have is in no table. */
  lemma SetsNew(d: Dictionary, view: map<nat, nat>, key: nat)
    requires d.Holds(view)
    ensures |view| == d.active.size + SizeOf(d.backup) && |d.active.buckets| > 0
    ensures key !in view ==> Lookup(d.h, d.active, key).None?
  {
    KnownKey(d.h, view, d.active, d.backup, key);
  }
}
