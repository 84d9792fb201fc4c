/**
 One table of the dictionary: an array of buckets, each absent or a list of entries; a key belongs to
 the bucket that its hash selects.
 */
module DictTable {
  import opened Wrappers

  datatype Entry = Entry(key: nat, val: nat)

  type Bucket = Option<seq<Entry>>

  type Hash = nat -> nat

  datatype Table = Table(buckets: seq<Bucket>, used: nat, size: nat)

  /** atm_dict_hkey() */
  function Hkey(h: Hash, t: Table, key: nat): (i: nat)
    requires |t.buckets| > 0
    ensures i < |t.buckets|
  {
    h(key) % |t.buckets|
  }

  /** atm_list_find(): the first entry with the key. */
  function Find(list: seq<Entry>, key: nat): (r: Option<nat>)
    ensures r.Some? <==> exists i :: 0 <= i < |list| && list[i].key == key
  {
    if list == [] then None
    else if list[0].key == key then Some(list[0].val)
    else
      var r := Find(list[1..], key);
      assert r.Some? ==> exists i :: 0 < i < |list| && list[i].key == key by {
        if r.Some? {
          var j :| 0 <= j < |list| - 1 && list[1..][j].key == key;
          assert list[j + 1].key == key;
        }
      }
      assert forall i :: 0 < i < |list| ==> list[i] == list[1..][i - 1];
      r
  }

  function Entries(b: Bucket): seq<Entry> {
    if b.Some? then b.value else []
  }

  /** atm_dict_table_get() */
  function Lookup(h: Hash, t: Table, key: nat): Option<nat>
    requires |t.buckets| > 0
  {
    Find(Entries(t.buckets[Hkey(h, t, key)]), key)
  }

  /** atm_dict_table_push_entry() */
  function PushEntry(h: Hash, t: Table, e: Entry): (r: Table)
    requires |t.buckets| > 0
    ensures |r.buckets| == |t.buckets|
  {
    var i := Hkey(h, t, e.key);
    var b := t.buckets[i];
    Table(t.buckets[i := Some(Entries(b) + [e])], if b.None? then t.used + 1 else t.used, t.size + 1)
  }

  /** The first entry with the key gets the value. */
  function Assign(list: seq<Entry>, key: nat, val: nat): (r: seq<Entry>)
    ensures |r| == |list|
  {
    if list == [] then []
    else if list[0].key == key then [list[0].(val := val)] + list[1..]
    else [list[0]] + Assign(list[1..], key, val)
  }

  /** atm_dict_table_set() */
  function TableSet(h: Hash, t: Table, key: nat, val: nat): (r: Table)
    requires |t.buckets| > 0
    ensures |r.buckets| == |t.buckets|
  {
    if Lookup(h, t, key).Some? then
      var i := Hkey(h, t, key);
      t.(buckets := t.buckets[i := Some(Assign(Entries(t.buckets[i]), key, val))])
    else
      PushEntry(h, t, Entry(key, val))
  }

  // ---------------------------------------------------------------- counting

  /** The entries in the first `n` buckets. */
  function Total(bs: seq<Bucket>): nat {
    if bs == [] then 0 else Total(bs[..|bs| - 1]) + |Entries(bs[|bs| - 1])|
  }

  /** The buckets that exist, from `from` on. */
  function Existing(bs: seq<Bucket>, from: nat): nat {
    if |bs| <= from then 0 else Existing(bs[..|bs| - 1], from) + if bs[|bs| - 1].Some? then 1 else 0
  }

  lemma {:induction false} TotalUpdate(bs: seq<Bucket>, i: nat, b: Bucket)
    requires i < |bs|
    ensures Total(bs[i := b]) + |Entries(bs[i])| == Total(bs) + |Entries(b)|
  {
    var n := |bs| - 1;
    if i == n {
      assert bs[i := b][..n] == bs[..n];
    } else {
      assert bs[i := b][..n] == bs[..n][i := b];
      TotalUpdate(bs[..n], i, b);
    }
  }

  lemma {:induction false} ExistingUpdate(bs: seq<Bucket>, from: nat, i: nat, b: Bucket)
    requires from <= i < |bs|
    ensures Existing(bs[i := b], from) + (if bs[i].Some? then 1 else 0)
            == Existing(bs, from) + if b.Some? then 1 else 0
  {
    var n := |bs| - 1;
    if i == n {
      assert bs[i := b][..n] == bs[..n];
    } else {
      assert bs[i := b][..n] == bs[..n][i := b];
      ExistingUpdate(bs[..n], from, i, b);
    }
  }

  /** Moving past a bucket, whatever it holds. */
  lemma {:induction false} ExistingNext(bs: seq<Bucket>, from: nat, b: Bucket)
    requires from < |bs|
    ensures Existing(bs, from) == Existing(bs[from := b], from + 1) + if bs[from].Some? then 1 else 0
  {
    var n := |bs| - 1;
    if from == n {
      assert Existing(bs[..n], from) == 0;
    } else {
      assert bs[from := b][..n] == bs[..n][from := b];
      ExistingNext(bs[..n], from, b);
    }
  }

  /** The buckets below `index` are absent or emptied, and those from there on hold something if they
      exist. */
  ghost predicate Swept(bs: seq<Bucket>, index: nat) {
    && (forall i :: 0 <= i < index && i < |bs| ==> Entries(bs[i]) == [])
    && (forall i :: index <= i < |bs| && bs[i].Some? ==> bs[i].value != [])
  }

  /** Nothing is left exactly when no bucket that was not visited exists. */
  lemma {:induction false} LeftOver(bs: seq<Bucket>, index: nat)
    requires Swept(bs, index)
    ensures Total(bs) == 0 <==> Existing(bs, index) == 0
    ensures index >= |bs| ==> Total(bs) == 0
  {
    if bs != [] {
      LeftOver(bs[..|bs| - 1], index);
    }
  }

  lemma {:induction false} AbsentTotal(n: nat)
    ensures var bs := seq(n, i => Option<seq<Entry>>.None);
            Total(bs) == 0 && Existing(bs, 0) == 0
  {
    var bs := seq(n, i => Option<seq<Entry>>.None);
    if n > 0 {
      AbsentTotal(n - 1);
      assert bs[..n - 1] == seq(n - 1, i => Option<seq<Entry>>.None);
    }
  }

  // ---------------------------------------------------------------- shape

  /** `size` and `used` count what is there, not counting the buckets that a migration visited. */
  ghost predicate Shape(t: Table, index: nat) {
    && |t.buckets| > 0 && Swept(t.buckets, index)
    && t.size == Total(t.buckets) && t.used == Existing(t.buckets, index)
  }

  lemma PushShape(h: Hash, t: Table, e: Entry)
    requires Shape(t, 0)
    ensures Shape(PushEntry(h, t, e), 0)
  {
    var i := Hkey(h, t, e.key);
    TotalUpdate(t.buckets, i, Some(Entries(t.buckets[i]) + [e]));
    ExistingUpdate(t.buckets, 0, i, Some(Entries(t.buckets[i]) + [e]));
  }

  lemma SetShape(h: Hash, t: Table, key: nat, val: nat)
    requires Shape(t, 0)
    ensures Shape(TableSet(h, t, key, val), 0)
    ensures TableSet(h, t, key, val).size == t.size + if Lookup(h, t, key).Some? then 0 else 1
  {
    if Lookup(h, t, key).Some? {
      var i := Hkey(h, t, key);
      var list := Entries(t.buckets[i]);
      TotalUpdate(t.buckets, i, Some(Assign(list, key, val)));
      ExistingUpdate(t.buckets, 0, i, Some(Assign(list, key, val)));
    } else {
      PushShape(h, t, Entry(key, val));
    }
  }

  // ---------------------------------------------------------------- content

  /** Every entry is in the bucket of its key, and no key is there twice. */
  ghost predicate Ordered(h: Hash, t: Table) {
    && |t.buckets| > 0
    && forall i :: 0 <= i < |t.buckets| ==> ListOk(h, t, i)
  }

  ghost predicate ListOk(h: Hash, t: Table, i: nat)
    requires i < |t.buckets|
  {
    var list := Entries(t.buckets[i]);
    && (forall j :: 0 <= j < |list| ==> h(list[j].key) % |t.buckets| == i)
    && Distinct(list)
  }

  ghost predicate Distinct(list: seq<Entry>) {
    forall j, k :: 0 <= j < k < |list| ==> list[j].key != list[k].key
  }

  lemma {:induction false} FindAppend(list: seq<Entry>, e: Entry, key: nat)
    ensures Find(list + [e], key) ==
            if Find(list, key).Some? then Find(list, key) else if e.key == key then Some(e.val) else None
  {
    if list != [] {
      assert (list + [e])[1..] == list[1..] + [e];
      FindAppend(list[1..], e, key);
    } else {
      assert list + [e] == [e];
      assert Find([e][1..], key).None?;
    }
  }

  /** Pushing an entry makes its key found, unless it was found already, and no other. */
  lemma PushLookup(h: Hash, t: Table, e: Entry, key: nat)
    requires |t.buckets| > 0
    ensures Lookup(h, PushEntry(h, t, e), key) ==
            if key == e.key && Lookup(h, t, key).None? then Some(e.val) else Lookup(h, t, key)
  {
    FindAppend(Entries(t.buckets[Hkey(h, t, key)]), e, key);
  }

  lemma PushOrdered(h: Hash, t: Table, e: Entry)
    requires Ordered(h, t) && Lookup(h, t, e.key).None?
    ensures Ordered(h, PushEntry(h, t, e))
  {
    var t' := PushEntry(h, t, e);
    forall i | 0 <= i < |t'.buckets| ensures ListOk(h, t', i) {
      assert ListOk(h, t, i);
    }
  }

  lemma {:induction false} AssignFind(list: seq<Entry>, key: nat, val: nat, k: nat)
    ensures Find(Assign(list, key, val), k) ==
            if k == key && Find(list, k).Some? then Some(val) else Find(list, k)
    ensures forall j :: 0 <= j < |list| ==> Assign(list, key, val)[j].key == list[j].key
  {
    if list != [] {
      AssignFind(list[1..], key, val, k);
      var a := Assign(list, key, val);
      if list[0].key == key {
        assert a[1..] == list[1..];
      } else {
        assert a[1..] == Assign(list[1..], key, val);
        forall j | 0 < j < |list| ensures a[j].key == list[j].key {
          assert a[j] == a[1..][j - 1] && list[j] == list[1..][j - 1];
        }
      }
    }
  }

  lemma SetLookup(h: Hash, t: Table, key: nat, val: nat, k: nat)
    requires |t.buckets| > 0
    ensures Lookup(h, TableSet(h, t, key, val), k) == if k == key then Some(val) else Lookup(h, t, k)
  {
    if Lookup(h, t, key).Some? {
      AssignFind(Entries(t.buckets[Hkey(h, t, key)]), key, val, k);
    } else {
      PushLookup(h, t, Entry(key, val), k);
    }
  }

  lemma SetOrdered(h: Hash, t: Table, key: nat, val: nat)
    requires Ordered(h, t)
    ensures Ordered(h, TableSet(h, t, key, val))
  {
    if Lookup(h, t, key).Some? {
      var t' := TableSet(h, t, key, val);
      forall i | 0 <= i < |t'.buckets| ensures ListOk(h, t', i) {
        assert ListOk(h, t, i);
        AssignFind(Entries(t.buckets[i]), key, val, key);
      }
    } else {
      PushOrdered(h, t, Entry(key, val));
    }
  }

  // ---------------------------------------------------------------- taking entries away

  /** Bucket `i` without its first entry; `size` follows later, entry by entry. */
  function Popped(t: Table, i: nat): Table
    requires i < |t.buckets| && Entries(t.buckets[i]) != []
  {
    t.(buckets := t.buckets[i := Some(Entries(t.buckets[i])[1..])], size := if t.size > 0 then t.size - 1 else 0)
  }

  lemma PopLookup(h: Hash, t: Table, i: nat, key: nat)
    requires Ordered(h, t) && i < |t.buckets| && Entries(t.buckets[i]) != []
    ensures Ordered(h, Popped(t, i))
    ensures var e := Entries(t.buckets[i])[0];
            && Lookup(h, t, e.key) == Some(e.val)
            && Lookup(h, Popped(t, i), key) == if key == e.key then None else Lookup(h, t, key)
  {
    var t', list := Popped(t, i), Entries(t.buckets[i]);
    assert ListOk(h, t, i);
    forall k | 0 <= k < |t'.buckets| ensures ListOk(h, t', k) {
      assert ListOk(h, t, k);
    }
  }
}
