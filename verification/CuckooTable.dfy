/**
 What a cuckoo hash table holds: cells in buckets of four, every item in one of its own two buckets.
 */
module CuckooTable {
  import opened Wrappers
  import opened Pow2

  const LG_CKH_BUCKET_CELLS: nat := 2
  const CELLS: nat := 4

  datatype Item = Item(key: nat, data: nat)

  type Cells = seq<Option<Item>>

  /** The two words that the hash function gives for a key. */
  type Hash = nat -> (nat, nat)

  function Primary(h: Hash, lg: nat, key: nat): (b: nat)
    ensures b < P(lg)
  {
    h(key).0 % P(lg)
  }

  function Secondary(h: Hash, lg: nat, key: nat): (b: nat)
    ensures b < P(lg)
  {
    h(key).1 % P(lg)
  }

  predicate Home(h: Hash, lg: nat, key: nat, bucket: nat) {
    bucket == Primary(h, lg, key) || bucket == Secondary(h, lg, key)
  }

  function Items(s: Cells): set<Item> {
    set i | 0 <= i < |s| && s[i].Some? :: s[i].value
  }

  function Occupied(s: Cells): (n: nat)
    ensures n <= |s|
  {
    if s == [] then 0 else Occupied(s[..|s| - 1]) + if s[|s| - 1].Some? then 1 else 0
  }

  /** No key occurs twice. */
  ghost predicate Distinct(s: Cells) {
    forall i, j :: 0 <= i < j < |s| && s[i].Some? && s[j].Some? ==> s[i].value.key != s[j].value.key
  }

  ghost predicate Absent(s: Cells, key: nat) {
    forall i :: 0 <= i < |s| && s[i].Some? ==> s[i].value.key != key
  }

  /** Every item is in one of its own two buckets. */
  ghost predicate Placed(h: Hash, lg: nat, s: Cells) {
    |s| == CELLS * P(lg) && forall i :: 0 <= i < |s| && s[i].Some? ==> Home(h, lg, s[i].value.key, i / CELLS)
  }

  /** The table holds `all`, each item once. */
  ghost predicate Holds(h: Hash, lg: nat, s: Cells, all: set<Item>) {
    Placed(h, lg, s) && Distinct(s) && Items(s) == all
  }

  /** The table and the item in hand make up `all`, each item once. */
  ghost predicate HoldsWith(h: Hash, lg: nat, s: Cells, hand: Item, all: set<Item>) {
    Placed(h, lg, s) && Distinct(s) && Absent(s, hand.key) && Items(s) + {hand} == all
  }

  // ---------------------------------------------------------------- one cell changes

  lemma {:induction false} OccupiedUpdate(s: Cells, i: nat, x: Option<Item>)
    requires i < |s|
    ensures Occupied(s[i := x]) + (if s[i].Some? then 1 else 0) == Occupied(s) + if x.Some? then 1 else 0
  {
    var n := |s| - 1;
    if i == n {
      assert s[i := x][..n] == s[..n];
    } else {
      assert s[i := x][..n] == s[..n][i := x];
      OccupiedUpdate(s[..n], i, x);
    }
  }

  /** A hand and an occupied cell in one of its buckets change places. */
  lemma Swap(h: Hash, lg: nat, s: Cells, hand: Item, all: set<Item>, i: nat)
    requires HoldsWith(h, lg, s, hand, all) && i < |s| && s[i].Some? && Home(h, lg, hand.key, i / CELLS)
    ensures HoldsWith(h, lg, s[i := Some(hand)], s[i].value, all)
    ensures Occupied(s[i := Some(hand)]) == Occupied(s)
    ensures Home(h, lg, s[i].value.key, i / CELLS)
  {
    hide Home;
    OccupiedUpdate(s, i, Some(hand));
    var s', y := s[i := Some(hand)], s[i].value;
    forall x: Item ensures x in Items(s') + {y} <==> x in Items(s) + {hand} {
      ItemsIn(s, x);
      ItemsIn(s', x);
      assert s'[i] == Some(hand);
      assert forall k :: 0 <= k < |s| && k != i ==> s'[k] == s[k];
    }
  }

  lemma ItemsIn(s: Cells, x: Item)
    ensures x in Items(s) <==> exists i :: 0 <= i < |s| && s[i] == Some(x)
  {
    if i :| 0 <= i < |s| && s[i] == Some(x) {
      assert s[i].value in Items(s);
    }
  }

  /** The item in hand fills an empty cell in one of its buckets. */
  lemma Put(h: Hash, lg: nat, s: Cells, hand: Item, all: set<Item>, i: nat)
    requires HoldsWith(h, lg, s, hand, all) && i < |s| && s[i].None? && Home(h, lg, hand.key, i / CELLS)
    ensures Holds(h, lg, s[i := Some(hand)], all)
    ensures Occupied(s[i := Some(hand)]) == Occupied(s) + 1
  {
    hide Home;
    OccupiedUpdate(s, i, Some(hand));
    var s' := s[i := Some(hand)];
    forall x: Item ensures x in Items(s') <==> x in Items(s) + {hand} {
      ItemsIn(s, x);
      ItemsIn(s', x);
      assert s'[i] == Some(hand);
      assert forall k :: 0 <= k < |s| && k != i ==> s'[k] == s[k];
    }
  }

  /** An occupied cell is emptied. */
  lemma Clear(h: Hash, lg: nat, s: Cells, all: set<Item>, i: nat)
    requires Holds(h, lg, s, all) && i < |s| && s[i].Some?
    ensures Holds(h, lg, s[i := None], all - {s[i].value})
    ensures Occupied(s[i := None]) + 1 == Occupied(s)
  {
    hide Home;
    OccupiedUpdate(s, i, None);
    var s' := s[i := None];
    forall x: Item ensures x in Items(s') <==> x in Items(s) - {s[i].value} {
      ItemsIn(s, x);
      ItemsIn(s', x);
      assert forall k :: 0 <= k < |s| && k != i ==> s'[k] == s[k];
    }
  }

  // ---------------------------------------------------------------- searching

  /** The cells of a bucket. */
  predicate InBucket(bucket: nat, i: nat) {
    CELLS * bucket <= i < CELLS * bucket + CELLS
  }

  /** A key that is in neither of its buckets is not in the table. */
  lemma SearchMisses(h: Hash, lg: nat, s: Cells, key: nat)
    requires Placed(h, lg, s)
    requires forall i :: 0 <= i < |s| && (InBucket(Primary(h, lg, key), i) || InBucket(Secondary(h, lg, key), i)) ==>
               s[i].None? || s[i].value.key != key
    ensures Absent(s, key)
  {
  }

  /** Counting the occupied cells is counting the items. */
  lemma {:induction false} OccupiedIsSize(s: Cells)
    requires Distinct(s)
    ensures Occupied(s) == |Items(s)|
  {
    if s == [] {
      assert Items(s) == {};
    } else {
      var n := |s| - 1;
      OccupiedIsSize(s[..n]);
      ItemsPrefix(s, n);
    }
  }

  lemma ItemsPrefix(s: Cells, n: nat)
    requires n < |s|
    ensures Items(s[..n + 1]) == if s[n].Some? then Items(s[..n]) + {s[n].value} else Items(s[..n])
    ensures Occupied(s[..n + 1]) == Occupied(s[..n]) + if s[n].Some? then 1 else 0
    ensures Distinct(s) && s[n].Some? ==> Absent(s[..n], s[n].value.key) && s[n].value !in Items(s[..n])
    ensures s[..|s|] == s
  {
    var a, b := s[..n + 1], s[..n];
    assert a[..n] == b;
    forall x: Item ensures x in Items(a) <==> x in Items(b) || s[n] == Some(x) {
      ItemsIn(a, x);
      ItemsIn(b, x);
      assert forall i :: 0 <= i < n ==> b[i] == a[i];
      assert a[n] == s[n];
    }
  }

  /** What is absent can be told from the items. */
  lemma AbsentItems(s: Cells, key: nat)
    ensures Absent(s, key) <==> forall x :: x in Items(s) ==> x.key != key
  {
    forall i | 0 <= i < |s| && s[i].Some? ensures s[i].value in Items(s) {
      ItemsIn(s, s[i].value);
    }
  }

  lemma {:induction false} OccupiedPrefix(s: Cells, n: nat)
    requires n <= |s|
    ensures Occupied(s[..n]) <= Occupied(s)
    ensures Occupied(s[..n]) == Occupied(s) ==> Items(s[..n]) == Items(s)
    decreases |s| - n
  {
    if n == |s| {
      assert s[..n] == s;
    } else {
      ItemsPrefix(s, n);
      OccupiedPrefix(s, n + 1);
    }
  }

  lemma {:induction false} EmptyTable(h: Hash, lg: nat, s: Cells)
    requires |s| == CELLS * P(lg) && forall i :: 0 <= i < |s| ==> s[i].None?
    ensures Holds(h, lg, s, {}) && Occupied(s) == 0
  {
    NoneOccupied(s);
  }

  lemma {:induction false} NoneOccupied(s: Cells)
    requires forall i :: 0 <= i < |s| ==> s[i].None?
    ensures Occupied(s) == 0
  {
    if s != [] {
      NoneOccupied(s[..|s| - 1]);
    }
  }

  /** The next item of the old table is the next one in hand. */
  lemma TakeUp(h: Hash, lg: nat, s: Cells, from: Cells, i: nat)
    requires i < |from| && from[i].Some? && Distinct(from) && Holds(h, lg, s, Items(from[..i]))
    ensures HoldsWith(h, lg, s, from[i].value, Items(from[..i + 1]))
  {
    ItemsPrefix(from, i);
    AbsentItems(from[..i], from[i].value.key);
    AbsentItems(s, from[i].value.key);
  }

  /** What the table holds without the item in hand. */
  lemma WithoutHand(h: Hash, lg: nat, s: Cells, hand: Item, all: set<Item>)
    requires HoldsWith(h, lg, s, hand, all)
    ensures hand in all && Holds(h, lg, s, all - {hand}) && Items(s) == all - {hand}
  {
    AbsentItems(s, hand.key);
  }

  lemma AddHand(h: Hash, lg: nat, s: Cells, hand: Item, all: set<Item>)
    requires Holds(h, lg, s, all - {hand}) && hand in all
    requires forall x :: x in all && x != hand ==> x.key != hand.key
    ensures HoldsWith(h, lg, s, hand, all)
  {
    AbsentItems(s, hand.key);
  }

  /** Keys are told apart in the table and the hand together. */
  lemma KeysApart(h: Hash, lg: nat, s: Cells, hand: Item, all: set<Item>)
    requires HoldsWith(h, lg, s, hand, all)
    ensures forall x :: x in all && x != hand ==> x.key != hand.key
  {
    AbsentItems(s, hand.key);
  }
}
