/**
 The cuckoo hash table: two buckets for every key, eviction chains when both are full, and tables
 that grow and shrink by rebuilding.
 */
module Ckh {
  import opened Wrappers
  import opened Arith
  import opened Pow2
  import opened Prng
  import opened CuckooTable

  /** Which cell of a bucket to start from: the top bits of the next generator state. */
  function Offset(state: nat): (r: nat)
    requires state < P(64)
    ensures r < CELLS
  {
    var r := Shifted(U64.Next(state), 64 - LG_CKH_BUCKET_CELLS);
    OffsetBelow(U64.Next(state));
    r
  }

  /** Every other state from any state on draws every cell some time. */
  lemma OffsetReaches(state: nat, r: nat) returns (m: nat)
    requires state < P(64) && r < CELLS
    ensures U64.Iter(state, 2 * m) < P(64) && Offset(U64.Iter(state, 2 * m)) == r && 2 * m < P(64)
  {
    SourceConstants();
    NextParity(state);
    hide P, Lcg.Next;
    var y := CellState(r, U64.Next(state) % 2);
    NextBelow(state);
    var n := FullPeriod(U64, U64.Next(state), y);
    IterParity(U64.Next(state), n);
    m := n / 2;
    IterBound(U64, state, n);
    IterAdd(U64, state, 1, n);
    IterAdd(U64, state, n, 1);
    OneStep(state);
    OneStep(U64.Iter(state, n));
  }

  /** A step flips the lowest bit. */
  lemma NextParity(x: nat)
    ensures U64.Next(x) % 2 == (x + 1) % 2
  {
    StepParity(U64, x);
  }

  lemma StepParity(g: Lcg, x: nat)
    requires g.width > 0 && g.a % 2 == 1 && g.c % 2 == 1
    ensures g.Next(x) % 2 == (x + 1) % 2
  {
    hide P;
    Halved(g.width);
    OddProduct(g.a, x);
    SumParity(g.a * x, g.c, x);
    EvenModulus(g.a * x + g.c, P(g.width - 1));
    assert g.Next(x) == (g.a * x + g.c) % (2 * P(g.width - 1));
    hide Lcg.Next;
  }

  lemma SumParity(p: nat, c: nat, x: nat)
    requires p % 2 == x % 2 && c % 2 == 1
    ensures (p + c) % 2 == (x + 1) % 2
  {
  }

  lemma Halved(w: nat)
    requires w > 0
    ensures P(w) == 2 * P(w - 1) && P(w - 1) > 0
  {
  }

  lemma OddProduct(a: nat, x: nat)
    requires a % 2 == 1
    ensures (a * x) % 2 == x % 2
  {
    DistributeLeft(2 * (a / 2), 1, x);
    assert a * x == 2 * ((a / 2) * x) + x;
  }

  lemma EvenModulus(y: nat, h: nat)
    requires h > 0
    ensures (y % (2 * h)) % 2 == y % 2
  {
    var q := y / (2 * h);
    assert y == 2 * h * q + y % (2 * h);
    assert 2 * h * q == 2 * (h * q);
  }

  lemma {:induction false} IterParity(x: nat, n: nat)
    ensures U64.Iter(x, n) % 2 == (x + n) % 2
    decreases n
  {
    hide Lcg.Next;
    if n > 0 {
      NextParity(x);
      IterParity(U64.Next(x), n - 1);
    }
  }

  lemma OneStep(x: nat)
    ensures U64.Iter(x, 1) == U64.Next(x)
  {
    hide Lcg.Next;
    assert U64.Iter(U64.Next(x), 0) == U64.Next(x);
  }

  /** A state whose top bits are `r` and whose lowest bit is `bit`. */
  lemma CellState(r: nat, bit: nat) returns (y: nat)
    requires r < CELLS && bit < 2
    ensures y < P(64) && Shifted(y, 64 - LG_CKH_BUCKET_CELLS) == r && y % 2 == bit
  {
    hide P;
    Halves();
    TopBitsFit(r, bit, P(62), P(61));
    y := r * P(62) + bit;
    QuotIs(y, r, P(62));
  }

  lemma Halves()
    ensures P(64) == 2 * P(63) && P(63) == 2 * P(62) && P(62) == 2 * P(61) && P(61) > 1
  {
  }

  lemma TopBitsFit(r: nat, bit: nat, p: nat, h: nat)
    requires r < CELLS && bit < 2 && p == 2 * h && h > 1
    ensures r * p <= r * p + bit < r * p + p && r * p + bit < 4 * p && (r * p + bit) % 2 == bit
  {
    MulMono(r, 3, p);
    assert r * p == 2 * (r * h);
  }

  // ---------------------------------------------------------------- a chain leaves every bucket

  /** A chain that evicts from one bucket again and again: its cells, the item in hand, the generator.  Each
      turn draws twice: for the cell to evict from, and for where the next bucket is entered. */
  datatype Chain = Chain(cells: seq<Item>, hand: Item, state: nat)

  ghost predicate IsChain(c: Chain) {
    |c.cells| == CELLS && c.state < P(64)
  }

  function Turn(c: Chain): (r: Chain)
    requires IsChain(c)
    ensures IsChain(r)
  {
    var i := Offset(c.state);
    NextBelow(c.state);
    NextBelow(U64.Next(c.state));
    Chain(c.cells[i := c.hand], c.cells[i], U64.Next(U64.Next(c.state)))
  }

  ghost function Turns(c: Chain, n: nat): (r: Chain)
    requires IsChain(c)
    ensures IsChain(r)
  {
    if n == 0 then c else Turn(Turns(c, n - 1))
  }

  lemma {:induction false} TurnsState(c: Chain, n: nat)
    requires IsChain(c)
    ensures Turns(c, n).state == U64.Iter(c.state, 2 * n)
  {
    hide Offset, Lcg.Next, P;
    if n > 0 {
      TurnsState(c, n - 1);
      var z := U64.Iter(c.state, 2 * (n - 1));
      IterAdd(U64, c.state, 2 * n - 2, 1);
      IterAdd(U64, c.state, 2 * n - 1, 1);
      OneStep(z);
      OneStep(U64.Next(z));
    }
  }

  /** An item stays in its cell until that cell is drawn. */
  lemma {:induction false} Stays(c: Chain, i: nat, n: nat)
    requires IsChain(c) && i < CELLS
    requires forall k :: 0 < k <= n ==> Turns(c, k).hand != c.cells[i]
    ensures Turns(c, n).cells[i] == c.cells[i]
  {
    hide Offset, Lcg.Next;
    if n > 0 {
      Stays(c, i, n - 1);
      assert Turns(c, n) == Turn(Turns(c, n - 1));
    }
  }

  lemma DrawnAt(c: Chain, m: nat)
    requires IsChain(c) && Offset(Turns(Turn(c), m).state) == Offset(c.state)
    requires forall k :: 0 < k <= m ==> Turns(Turn(c), k).hand != c.hand
    ensures Turns(c, m + 2).hand == c.hand
  {
    hide Offset, Lcg.Next, Turn, Turns, P;
    var d := Turn(c);
    TurnDraws(c);
    TurnDraws(Turns(d, m));
    LastTurn(d, m);
    Stays(d, Offset(c.state), m);
    TurnsShift(c, m + 1);
  }

  /** No chain stays longer in a bucket. */
  ghost function LongestStay(): (n: nat)
    ensures n > 0
  {
    P(63) + 1
  }

  /** The item in hand comes back to hand: its cell is drawn some time. */
  lemma ComesBack(c: Chain) returns (n: nat)
    requires IsChain(c)
    ensures 0 < n <= LongestStay() && Turns(c, n).hand == c.hand
  {
    hide Offset, Lcg.Next, Turn, Turns, P;
    Halves();
    var d := Turn(c);
    var m := OffsetReaches(d.state, Offset(c.state));
    TurnsState(d, m);
    if forall k :: 0 < k <= m ==> Turns(d, k).hand != c.hand {
      DrawnAt(c, m);
      n := m + 2;
    } else {
      var k :| 0 < k <= m && Turns(d, k).hand == c.hand;
      TurnsShift(c, k);
      n := k + 1;
    }
  }

  predicate OneHome(h: Hash, lg: nat, key: nat, bucket: nat) {
    Primary(h, lg, key) == bucket == Secondary(h, lg, key)
  }

  /** A chain does not stay in a bucket for ever: the item that came from elsewhere has another bucket, and
      is evicted again, if no other one with another bucket was before. */
  lemma ChainLeaves(h: Hash, lg: nat, c: Chain, bucket: nat) returns (n: nat)
    requires IsChain(c) && Primary(h, lg, c.hand.key) != Secondary(h, lg, c.hand.key)
    ensures 0 < n <= LongestStay() && !OneHome(h, lg, Turns(c, n).hand.key, bucket)
  {
    hide Turns, Primary, Secondary, LongestStay;
    n := ComesBack(c);
  }

  /** The items of a full bucket. */
  ghost function BucketItems(s: Cells, bucket: nat): (r: seq<Item>)
    requires CELLS * bucket + CELLS <= |s| && FullBucket(s, bucket)
    ensures |r| == CELLS
  {
    CellsFull(s, bucket);
    [s[CELLS * bucket].value, s[CELLS * bucket + 1].value, s[CELLS * bucket + 2].value, s[CELLS * bucket + 3].value]
  }

  lemma CellsFull(s: Cells, bucket: nat)
    requires CELLS * bucket + CELLS <= |s| && FullBucket(s, bucket)
    ensures s[CELLS * bucket].Some? && s[CELLS * bucket + 1].Some?
    ensures s[CELLS * bucket + 2].Some? && s[CELLS * bucket + 3].Some?
  {
  }

  /** In the table `s` a chain has made `stay` turns in `bucket` since it was entered, with `entry` then. */
  ghost predicate Staying(h: Hash, lg: nat, s: Cells, bucket: nat, hand: Item, state: nat, entry: Chain, stay: nat) {
    && CELLS * bucket + CELLS <= |s| && FullBucket(s, bucket) && IsChain(entry)
    && Chain(BucketItems(s, bucket), hand, state) == Turns(entry, stay)
    && forall k :: 0 < k <= stay ==> OneHome(h, lg, Turns(entry, k).hand.key, bucket)
  }

  lemma Enters(h: Hash, lg: nat, s: Cells, bucket: nat, hand: Item, state: nat)
    requires CELLS * bucket + CELLS <= |s| && FullBucket(s, bucket) && state < P(64)
    ensures Staying(h, lg, s, bucket, hand, state, Chain(BucketItems(s, bucket), hand, state), 0)
  {
  }

  /** An eviction after which the chain does not leave is a turn. */
  lemma StaysOn(h: Hash, lg: nat, s: Cells, bucket: nat, hand: Item, state: nat, entry: Chain, stay: nat,
                s': Cells, hand': Item)
    requires Staying(h, lg, s, bucket, hand, state, entry, stay) && OneHome(h, lg, hand'.key, bucket)
    requires state < P(64) && var c := CELLS * bucket + Offset(state);
             c < |s| && s[c] == Some(hand') && s' == s[c := Some(hand)]
    ensures Staying(h, lg, s', bucket, hand', U64.Next(U64.Next(state)), entry, stay + 1)
  {
    hide Offset, Lcg.Next, Turn, Turns, P, OneHome;
    var i := Offset(state);
    CellsFull(s, bucket);
    LastTurn(entry, stay);
    TurnIs(Chain(BucketItems(s, bucket), hand, state));
    assert FullBucket(s', bucket);
    assert BucketItems(s', bucket) == BucketItems(s, bucket)[i := hand] && BucketItems(s, bucket)[i] == hand';
  }

  lemma TurnIs(c: Chain)
    requires IsChain(c)
    ensures var i := Offset(c.state);
            Turn(c) == Chain(c.cells[i := c.hand], c.cells[i], U64.Next(U64.Next(c.state)))
  {
  }

  lemma StaysShort(h: Hash, lg: nat, s: Cells, bucket: nat, hand: Item, state: nat, entry: Chain, stay: nat)
    requires Staying(h, lg, s, bucket, hand, state, entry, stay)
    requires Primary(h, lg, entry.hand.key) != Secondary(h, lg, entry.hand.key)
    ensures stay < LongestStay()
  {
    hide Turns, OneHome, Primary, Secondary, LongestStay;
    var n := ChainLeaves(h, lg, entry, bucket);
  }

  predicate TwoHomes(h: Hash, lg: nat, key: nat) {
    Primary(h, lg, key) != Secondary(h, lg, key)
  }

  // ---------------------------------------------------------------- chains over the whole table

  /** Where the eviction loop is: the table, the bucket it evicts from, the item in hand, the generator. */
  datatype Chase = Chase(cells: Cells, bucket: nat, hand: Item, state: nat)

  /** One turn of the loop, as long as there is an item to evict. */
  function Evicted(h: Hash, lg: nat, c: Chase): Chase {
    if c.state < P(64) && CELLS * c.bucket + Offset(c.state) < |c.cells|
       && c.cells[CELLS * c.bucket + Offset(c.state)].Some? then
      var i := CELLS * c.bucket + Offset(c.state);
      var x := c.cells[i].value;
      Chase(c.cells[i := Some(c.hand)], NextBucket(h, lg, x.key, c.bucket), x, U64.Next(U64.Next(c.state)))
    else c
  }

  /** The other bucket of a key, or the same one if it has no other. */
  function NextBucket(h: Hash, lg: nat, key: nat, bucket: nat): nat {
    if Secondary(h, lg, key) == bucket then Primary(h, lg, key) else Secondary(h, lg, key)
  }

  ghost function After(h: Hash, lg: nat, c: Chase, n: nat): Chase {
    if n == 0 then c else Evicted(h, lg, After(h, lg, c, n - 1))
  }

  /** The loop goes on: no cycle, and no room in the bucket. */
  ghost predicate GoesOn(c: Chase, first: nat) {
    c.bucket != first && FullBucket(c.cells, c.bucket)
  }

  ghost predicate GoesOnFor(h: Hash, lg: nat, c: Chase, n: nat) {
    forall k :: 0 < k <= n ==> GoesOn(After(h, lg, c, k), c.bucket)
  }

  /** A table in order, a full bucket in it, and an item in hand that belongs there. */
  ghost predicate CanChase(h: Hash, lg: nat, c: Chase) {
    && Placed(h, lg, c.cells) && c.bucket < P(lg) && FullBucket(c.cells, c.bucket) && c.state < P(64)
    && Home(h, lg, c.hand.key, c.bucket)
  }

  lemma EvictedIs(h: Hash, lg: nat, c: Chase)
    requires CanChase(h, lg, c)
    ensures var d, i := Evicted(h, lg, c), CELLS * c.bucket + Offset(c.state);
            && i < |c.cells| && c.cells[i] == Some(d.hand) && d.cells == c.cells[i := Some(c.hand)]
            && d.bucket == NextBucket(h, lg, d.hand.key, c.bucket) && d.state == U64.Next(U64.Next(c.state))
            && Home(h, lg, d.hand.key, c.bucket)
  {
    CellInTable(lg, c.bucket, Offset(c.state));
    FullCell(c.cells, c.bucket, CELLS * c.bucket + Offset(c.state));
    hide P, Offset, Lcg.Next, FullBucket, Primary, Secondary;
  }

  lemma EvictedChases(h: Hash, lg: nat, c: Chase)
    requires CanChase(h, lg, c) && FullBucket(Evicted(h, lg, c).cells, Evicted(h, lg, c).bucket)
    ensures CanChase(h, lg, Evicted(h, lg, c))
  {
    EvictedIs(h, lg, c);
    NextBelow(U64.Next(c.state));
    CellInTable(lg, c.bucket, Offset(c.state));
    hide P, Offset, Lcg.Next, FullBucket, Evicted;
  }

  /** How a chain entered its bucket, and how many turns it has made there; in the bucket where everything
      began it makes one turn only. */
  datatype Track = Track(entry: Chain, stay: nat)

  ghost predicate Tracked(h: Hash, lg: nat, c: Chase, first: nat, t: Track) {
    && CanChase(h, lg, c) && Staying(h, lg, c.cells, c.bucket, c.hand, c.state, t.entry, t.stay)
    && if c.bucket == first then t.stay == 0 else TwoHomes(h, lg, t.entry.hand.key)
  }

  lemma TrackBegins(h: Hash, lg: nat, c: Chase) returns (t: Track)
    requires CanChase(h, lg, c)
    ensures Tracked(h, lg, c, c.bucket, t) && t.entry.hand == c.hand
  {
    hide P, FullBucket;
    t := Track(Chain(BucketItems(c.cells, c.bucket), c.hand, c.state), 0);
    Enters(h, lg, c.cells, c.bucket, c.hand, c.state);
  }

  /** A turn of the loop is a turn of the chain in its bucket, or enters another one. */
  lemma TrackTurn(h: Hash, lg: nat, c: Chase, first: nat, t: Track) returns (t': Track)
    requires Tracked(h, lg, c, first, t) && GoesOn(Evicted(h, lg, c), first)
    ensures Tracked(h, lg, Evicted(h, lg, c), first, t')
    ensures Evicted(h, lg, c).bucket == c.bucket ==> t'.stay == t.stay + 1
  {
    hide P, Offset, Lcg.Next, Staying, Primary, Secondary, FullBucket, Evicted, Placed, TwoHomes;
    EvictedIs(h, lg, c);
    EvictedChases(h, lg, c);
    var d := Evicted(h, lg, c);
    if d.bucket == c.bucket {
      StaysOn(h, lg, c.cells, c.bucket, c.hand, c.state, t.entry, t.stay, d.cells, d.hand);
      t' := Track(t.entry, t.stay + 1);
    } else {
      t' := TrackBegins(h, lg, d);
      OtherHome(h, lg, d.hand.key, c.bucket);
    }
  }

  lemma OtherHome(h: Hash, lg: nat, key: nat, bucket: nat)
    requires Home(h, lg, key, bucket) && NextBucket(h, lg, key, bucket) != bucket
    ensures TwoHomes(h, lg, key)
  {
    hide Primary, Secondary;
  }

  lemma TrackShort(h: Hash, lg: nat, c: Chase, first: nat, t: Track)
    requires Tracked(h, lg, c, first, t)
    ensures t.stay < LongestStay()
  {
    hide Staying, LongestStay;
    if c.bucket != first {
      StaysShort(h, lg, c.cells, c.bucket, c.hand, c.state, t.entry, t.stay);
    }
  }

  lemma {:induction false} TrackOf(h: Hash, lg: nat, c: Chase, n: nat) returns (t: Track)
    requires CanChase(h, lg, c) && GoesOnFor(h, lg, c, n)
    ensures Tracked(h, lg, After(h, lg, c, n), c.bucket, t)
    decreases n
  {
    hide CanChase, Tracked, Evicted, GoesOn;
    if n == 0 {
      t := TrackBegins(h, lg, c);
    } else {
      t := TrackOf(h, lg, c, n - 1);
      assert GoesOn(After(h, lg, c, n), c.bucket);
      t := TrackTurn(h, lg, After(h, lg, c, n - 1), c.bucket, t);
    }
  }

  /** The bucket does not change from turn `n` on for `j` turns. */
  ghost predicate SameBucket(h: Hash, lg: nat, c: Chase, n: nat, j: nat) {
    forall k :: n <= k <= n + j ==> After(h, lg, c, k).bucket == After(h, lg, c, n).bucket
  }

  lemma {:induction false} StaysLong(h: Hash, lg: nat, c: Chase, n: nat, j: nat) returns (t: Track)
    requires CanChase(h, lg, c) && GoesOnFor(h, lg, c, n + j) && SameBucket(h, lg, c, n, j)
    ensures Tracked(h, lg, After(h, lg, c, n + j), c.bucket, t) && t.stay >= j
    decreases j
  {
    hide CanChase, Tracked, Evicted, GoesOn;
    if j == 0 {
      t := TrackOf(h, lg, c, n);
    } else {
      t := StaysLong(h, lg, c, n, j - 1);
      assert GoesOn(After(h, lg, c, n + j), c.bucket);
      assert After(h, lg, c, n + j - 1).bucket == After(h, lg, c, n + j).bucket;
      t := TrackTurn(h, lg, After(h, lg, c, n + j - 1), c.bucket, t);
    }
  }

  /** The loop made `turns` turns, the first that does not go on being the last, and this is what it left. */
  ghost predicate Chased(h: Hash, lg: nat, start: Chase, failed: bool, turns: nat, cells: Cells, hand: Item) {
    var end := After(h, lg, start, turns);
    && CanChase(h, lg, start) && turns > 0 && GoesOnFor(h, lg, start, turns - 1) && hand == end.hand
    && if failed then end.bucket == start.bucket && cells == end.cells
       else end.bucket != start.bucket && !FullBucket(end.cells, end.bucket)
  }

  lemma CanChaseIf(h: Hash, lg: nat, c: Chase, all: set<Item>)
    requires HoldsWith(h, lg, c.cells, c.hand, all) && c.bucket < P(lg) && c.state < P(64)
    requires FullBucket(c.cells, c.bucket) && Home(h, lg, c.hand.key, c.bucket)
    ensures CanChase(h, lg, c)
  {
  }

  lemma NoTurns(h: Hash, lg: nat, c: Chase)
    ensures After(h, lg, c, 0) == c && GoesOnFor(h, lg, c, 0)
  {
  }

  lemma OneMoreTurn(h: Hash, lg: nat, c: Chase, n: nat)
    ensures After(h, lg, c, n + 1) == Evicted(h, lg, After(h, lg, c, n))
  {
  }

  lemma GoOn(h: Hash, lg: nat, c: Chase, n: nat)
    requires n > 0 && GoesOnFor(h, lg, c, n - 1)
    requires var d := After(h, lg, c, n); d.bucket != c.bucket && FullBucket(d.cells, d.bucket)
    ensures GoesOnFor(h, lg, c, n)
  {
  }

  lemma NotLast(h: Hash, lg: nat, c: Chase, n: nat, last: nat)
    requires GoesOnFor(h, lg, c, n) && n <= last && last > 0 && !GoesOn(After(h, lg, c, last), c.bucket)
    ensures n < last
  {
  }

  /** While the loop of ckh_evict_reloc_insert() goes on it does not stay in one bucket for longer than
      LongestStay() turns. */
  lemma ChaseMoves(h: Hash, lg: nat, c: Chase, n: nat)
    requires CanChase(h, lg, c) && GoesOnFor(h, lg, c, n + LongestStay())
    ensures exists k :: n < k <= n + LongestStay() && After(h, lg, c, k).bucket != After(h, lg, c, n).bucket
  {
    hide CanChase, Tracked, GoesOnFor, LongestStay, After;
    if SameBucket(h, lg, c, n, LongestStay()) {
      var t := StaysLong(h, lg, c, n, LongestStay());
      TrackShort(h, lg, After(h, lg, c, n + LongestStay()), c.bucket, t);
    }
  }

  // ---------------------------------------------------------------- a chain ends

  lemma NextInjective(x: nat, y: nat)
    requires x < P(64) && y < P(64) && U64.Next(x) == U64.Next(y)
    ensures x == y
  {
    SourceConstants();
    hide P, Lcg.Next;
    var n := P(64);
    ReturnTime(U64, x, n);
    ReturnTime(U64, y, n);
    assert U64.Iter(x, n) == U64.Iter(U64.Next(x), n - 1);
    assert U64.Iter(y, n) == U64.Iter(U64.Next(y), n - 1);
  }

  /** The bucket that an item was evicted from can be told from the item and the bucket that it goes to. */
  lemma NextBack(h: Hash, lg: nat, key: nat, bucket: nat)
    requires Home(h, lg, key, bucket)
    ensures NextBucket(h, lg, key, NextBucket(h, lg, key, bucket)) == bucket
  {
    hide Primary, Secondary;
  }

  /** A turn can be undone: no two states lead to the same one. */
  lemma EvictedOnce(h: Hash, lg: nat, c: Chase, c': Chase)
    requires CanChase(h, lg, c) && CanChase(h, lg, c') && Evicted(h, lg, c) == Evicted(h, lg, c')
    ensures c == c'
  {
    hide P, Offset, Lcg.Next, Placed, FullBucket, Evicted, NextBucket, Home;
    EvictedIs(h, lg, c);
    EvictedIs(h, lg, c');
    var d := Evicted(h, lg, c);
    NextBack(h, lg, d.hand.key, c.bucket);
    NextBack(h, lg, d.hand.key, c'.bucket);
    NextBelow(c.state);
    NextBelow(c'.state);
    NextInjective(U64.Next(c.state), U64.Next(c'.state));
    NextInjective(c.state, c'.state);
    var i := CELLS * c.bucket + Offset(c.state);
    assert c.cells == d.cells[i := Some(d.hand)] && d.cells[i] == Some(c.hand);
    assert c'.cells == d.cells[i := Some(d.hand)] && d.cells[i] == Some(c'.hand);
  }

  lemma {:induction false} AfterChases(h: Hash, lg: nat, c: Chase, n: nat)
    requires CanChase(h, lg, c) && GoesOnFor(h, lg, c, n)
    ensures CanChase(h, lg, After(h, lg, c, n))
    decreases n
  {
    hide CanChase, Evicted;
    if n > 0 {
      AfterChases(h, lg, c, n - 1);
      assert GoesOn(After(h, lg, c, n), c.bucket);
      EvictedChases(h, lg, After(h, lg, c, n - 1));
    }
  }

  /** While the loop goes on no state comes back: the first one has the bucket that would stop it. */
  lemma {:induction false} NeverBack(h: Hash, lg: nat, c: Chase, i: nat, j: nat)
    requires CanChase(h, lg, c) && GoesOnFor(h, lg, c, j) && i < j
    ensures After(h, lg, c, i) != After(h, lg, c, j)
    decreases i
  {
    hide CanChase, Evicted;
    if i == 0 {
      assert GoesOn(After(h, lg, c, j), c.bucket);
    } else {
      NeverBack(h, lg, c, i - 1, j - 1);
      AfterChases(h, lg, c, i - 1);
      AfterChases(h, lg, c, j - 1);
      if After(h, lg, c, i) == After(h, lg, c, j) {
        EvictedOnce(h, lg, After(h, lg, c, i - 1), After(h, lg, c, j - 1));
      }
    }
  }

  /** All tables of `n` cells over the items `all`. */
  ghost function Tables(n: nat, all: set<Item>): set<Cells> {
    if n == 0 then {[]}
    else set x, rest | x in Options(all) && rest in Tables(n - 1, all) :: [x] + rest
  }

  ghost function Options(all: set<Item>): set<Option<Item>> {
    {None} + set x | x in all :: Some(x)
  }

  ghost predicate Over(s: Cells, all: set<Item>) {
    forall i :: 0 <= i < |s| && s[i].Some? ==> s[i].value in all
  }

  lemma {:induction false} InTables(s: Cells, all: set<Item>)
    requires Over(s, all)
    ensures s in Tables(|s|, all)
  {
    if s != [] {
      InTables(s[1..], all);
      assert s == [s[0]] + s[1..];
      assert s[0].Some? ==> s[0] == Some(s[0].value) && s[0].value in all;
      assert s[0] in Options(all);
    }
  }

  ghost predicate Within(c: Chase, n: nat, lg: nat, all: set<Item>) {
    |c.cells| == n && Over(c.cells, all) && c.bucket < P(lg) && c.hand in all && c.state < P(64)
  }

  ghost function Product(ts: set<Cells>, bs: set<nat>, xs: set<Item>, sts: set<nat>): set<Chase> {
    set t, b, x, st | t in ts && b in bs && x in xs && st in sts :: Chase(t, b, x, st)
  }

  lemma InProduct(c: Chase, ts: set<Cells>, bs: set<nat>, xs: set<Item>, sts: set<nat>)
    requires c.cells in ts && c.bucket in bs && c.hand in xs && c.state in sts
    ensures c in Product(ts, bs, xs, sts)
  {
    assert c == Chase(c.cells, c.bucket, c.hand, c.state);
  }

  /** There are finitely many states. */
  ghost function Universe(n: nat, lg: nat, all: set<Item>): set<Chase> {
    Product(Tables(n, all), Below(P(lg)), all, Below(P(64)))
  }

  lemma InUniverse(c: Chase, n: nat, lg: nat, all: set<Item>)
    requires Within(c, n, lg, all)
    ensures c in Universe(n, lg, all)
  {
    hide P, Tables, Below, Over, Product;
    InTables(c.cells, all);
    BelowIs(P(lg));
    BelowIs(P(64));
    InProduct(c, Tables(n, all), Below(P(lg)), all, Below(P(64)));
  }

  lemma EvictedWithin(h: Hash, lg: nat, c: Chase, n: nat, all: set<Item>)
    requires CanChase(h, lg, c) && Within(c, n, lg, all)
    ensures Within(Evicted(h, lg, c), n, lg, all)
  {
    EvictedIs(h, lg, c);
    NextBelow(U64.Next(c.state));
    hide P, Offset, Lcg.Next, Placed, FullBucket, Evicted;
  }

  lemma {:induction false} AfterWithin(h: Hash, lg: nat, c: Chase, k: nat, n: nat, all: set<Item>)
    requires CanChase(h, lg, c) && GoesOnFor(h, lg, c, k) && Within(c, n, lg, all)
    ensures Within(After(h, lg, c, k), n, lg, all)
    decreases k
  {
    hide CanChase, Evicted, Within;
    if k > 0 {
      AfterWithin(h, lg, c, k - 1, n, all);
      AfterChases(h, lg, c, k - 1);
      EvictedWithin(h, lg, After(h, lg, c, k - 1), n, all);
    }
  }

  /** The states of the first `n` turns. */
  ghost function Seen(h: Hash, lg: nat, c: Chase, n: nat): set<Chase> {
    set k: nat | k < n :: After(h, lg, c, k)
  }

  lemma {:induction false} SeenCount(h: Hash, lg: nat, c: Chase, n: nat)
    requires CanChase(h, lg, c) && GoesOnFor(h, lg, c, n)
    ensures |Seen(h, lg, c, n)| == n
    decreases n
  {
    hide CanChase, After;
    if n > 0 {
      SeenCount(h, lg, c, n - 1);
      var last := After(h, lg, c, n - 1);
      assert Seen(h, lg, c, n) == Seen(h, lg, c, n - 1) + {last};
      if last in Seen(h, lg, c, n - 1) {
        var k: nat :| k < n - 1 && last == After(h, lg, c, k);
        NeverBack(h, lg, c, k, n - 1);
      }
    }
  }

  /** Every eviction chain ends: its turns can be undone, there are finitely many states, and a chain that
      went on for ever would come back to where it began, which ends it. */
  lemma ChaseEnds(h: Hash, lg: nat, c: Chase) returns (n: nat)
    requires CanChase(h, lg, c)
    ensures n > 0 && !GoesOn(After(h, lg, c, n), c.bucket)
  {
    var all := Items(c.cells) + {c.hand};
    StartWithin(h, lg, c);
    var universe := Universe(|c.cells|, lg, all);
    var m := |universe| + 1;
    hide CanChase, After, Universe, Within, Items, GoesOn;
    if GoesOnFor(h, lg, c, m) {
      SeenCount(h, lg, c, m);
      forall k: nat | k < m ensures After(h, lg, c, k) in universe {
        AfterWithin(h, lg, c, k, |c.cells|, all);
        InUniverse(After(h, lg, c, k), |c.cells|, lg, all);
      }
      assert Seen(h, lg, c, m) <= universe;
      SubsetSize(Seen(h, lg, c, m), universe);
      assert false;
    }
    n :| 0 < n <= m && !GoesOn(After(h, lg, c, n), c.bucket);
  }

  lemma StartWithin(h: Hash, lg: nat, c: Chase)
    requires CanChase(h, lg, c)
    ensures Within(c, |c.cells|, lg, Items(c.cells) + {c.hand})
  {
    forall i | 0 <= i < |c.cells| && c.cells[i].Some? ensures c.cells[i].value in Items(c.cells) {
      ItemsIn(c.cells, c.cells[i].value);
    }
  }

  lemma TurnDraws(c: Chain)
    requires IsChain(c)
    ensures Turn(c).hand == c.cells[Offset(c.state)] && Turn(c).cells[Offset(c.state)] == c.hand
  {
  }

  lemma LastTurn(c: Chain, n: nat)
    requires IsChain(c)
    ensures Turns(c, n + 1) == Turn(Turns(c, n))
  {
  }

  lemma {:induction false} TurnsShift(c: Chain, n: nat)
    requires IsChain(c)
    ensures Turns(c, n + 1) == Turns(Turn(c), n)
  {
    hide Offset, Lcg.Next;
    if n > 0 {
      TurnsShift(c, n - 1);
    } else {
      assert Turns(c, 0) == c;
    }
  }

  lemma OffsetBelow(x: nat)
    requires x < P(64)
    ensures Shifted(x, 64 - LG_CKH_BUCKET_CELLS) < CELLS
  {
    TopBits(64, LG_CKH_BUCKET_CELLS, x);
    assert P(2) == 4;
  }

  lemma NextBelow(state: nat)
    ensures U64.Next(state) < P(64)
  {
  }

  /** The cell of a bucket that step `j` looks at. */
  function Nth(bucket: nat, offset: nat, j: nat): nat {
    CELLS * bucket + (j + offset) % CELLS
  }

  ghost predicate Tried(s: Cells, bucket: nat, offset: nat, n: nat) {
    forall j: nat :: j < n ==> Nth(bucket, offset, j) < |s| && s[Nth(bucket, offset, j)].Some?
  }

  ghost predicate FullBucket(s: Cells, bucket: nat) {
    forall i :: 0 <= i < |s| && InBucket(bucket, i) ==> s[i].Some?
  }

  /** Starting anywhere, four steps visit every cell of a bucket. */
  lemma AllTried(s: Cells, bucket: nat, offset: nat)
    requires Tried(s, bucket, offset, CELLS)
    ensures FullBucket(s, bucket)
  {
    forall i | 0 <= i < |s| && InBucket(bucket, i) ensures s[i].Some? {
      var k := i - CELLS * bucket;
      var j := (k + CELLS - offset % CELLS) % CELLS;
      assert (j + offset) % CELLS == k;
      assert Nth(bucket, offset, j) == i;
    }
  }

  lemma NthInTable(lg: nat, bucket: nat, offset: nat, j: nat)
    requires bucket < P(lg)
    ensures Nth(bucket, offset, j) < CELLS * P(lg) && Nth(bucket, offset, j) / CELLS == bucket
  {
    CellInTable(lg, bucket, (j + offset) % CELLS);
  }

  lemma CellInTable(lg: nat, bucket: nat, k: nat)
    requires bucket < P(lg) && k < CELLS
    ensures CELLS * bucket + k < CELLS * P(lg) && (CELLS * bucket + k) / CELLS == bucket
  {
  }

  /** `x` is in a cell of `bucket`. */
  ghost predicate Sits(s: Cells, x: Item, bucket: nat) {
    exists i :: 0 <= i < |s| && InBucket(bucket, i) && s[i] == Some(x)
  }

  lemma SitsIn(s: Cells, x: Item, bucket: nat)
    requires Sits(s, x, bucket)
    ensures x in Items(s)
  {
    ItemsIn(s, x);
  }

  lemma FullCell(s: Cells, bucket: nat, c: nat)
    requires FullBucket(s, bucket) && c < |s| && InBucket(bucket, c)
    ensures s[c].Some?
  {
  }

  lemma EmptyCell(s: Cells, bucket: nat, c: nat)
    requires c < |s| && c / CELLS == bucket && s[c].None?
    ensures !FullBucket(s, bucket)
  {
    assert InBucket(bucket, c);
  }

  /** The new item stays where the chain put it first, since the chain never evicts from there again. */
  lemma SwapSits(s: Cells, x: Item, hand: Item, bucket: nat, argbucket: nat, c: nat)
    requires c < |s| && InBucket(bucket, c)
    requires if bucket == argbucket then hand == x else Sits(s, x, argbucket)
    ensures Sits(s[c := Some(hand)], x, argbucket)
  {
    var s' := s[c := Some(hand)];
    if bucket == argbucket {
      assert s'[c] == Some(x);
    } else {
      var i :| 0 <= i < |s| && InBucket(argbucket, i) && s[i] == Some(x);
      assert s'[i] == Some(x);
    }
  }

  lemma OnlyBucket(lg: nat, b: nat)
    requires b < P(lg) && lg == 0
    ensures b == 0
  {
  }

  lemma Homes(h: Hash, lg: nat, key: nat)
    ensures Home(h, lg, key, Primary(h, lg, key)) && Home(h, lg, key, Secondary(h, lg, key))
  {
  }

  lemma OneBucket(lg: nat, b: nat, c: nat)
    requires b < P(lg) && c < P(lg) && b != c
    ensures lg > 0
  {
  }

  lemma NonePrefix(s: Cells)
    ensures Items(s[..0]) == {} && Occupied(s[..0]) == 0
  {
  }

  /** There is more to take up while not everything was. */
  lemma PrefixIn(s: Cells, i: nat)
    requires i <= |s|
    ensures Items(s[..i]) <= Items(s)
  {
  }

  lemma WholePrefix(s: Cells, i: nat)
    requires i <= |s|
    ensures i == |s| ==> Occupied(s[..i]) == Occupied(s)
  {
    if i == |s| {
      assert s[..i] == s;
    }
  }

  lemma SizeOf(h: Hash, lg: nat, s: Cells, all: set<Item>, from: Cells, i: nat)
    requires Holds(h, lg, s, all) && i <= |from| && Distinct(from) && all == Items(from[..i])
    ensures Occupied(s) == Occupied(from[..i])
  {
    OccupiedIsSize(s);
    OccupiedIsSize(from[..i]);
  }

  ghost predicate BothFull(h: Hash, lg: nat, s: Cells, key: nat) {
    FullBucket(s, Primary(h, lg, key)) && FullBucket(s, Secondary(h, lg, key))
  }

  /** The items that may be in a bucket. */
  ghost function HomedIn(h: Hash, lg: nat, all: set<Item>, bucket: nat): set<Item> {
    set x | x in all && Home(h, lg, x.key, bucket)
  }

  /** Some item has more company in each of its buckets than fits. */
  ghost predicate Crowded(h: Hash, lg: nat, all: set<Item>) {
    exists x :: x in all && |HomedIn(h, lg, all, Primary(h, lg, x.key))| > CELLS
                && |HomedIn(h, lg, all, Secondary(h, lg, x.key))| > CELLS
  }

  lemma FullHomes(h: Hash, lg: nat, s: Cells, x: Item, all: set<Item>, bucket: nat)
    requires HoldsWith(h, lg, s, x, all) && bucket < P(lg) && FullBucket(s, bucket) && Home(h, lg, x.key, bucket)
    ensures |HomedIn(h, lg, all, bucket)| > CELLS
  {
    hide Home;
    var c := CELLS * bucket;
    assert c + 3 < |s|;
    assert x in all;
    forall i | c <= i < c + CELLS
      ensures s[i].Some? && s[i].value in HomedIn(h, lg, all, bucket) && s[i].value != x
      ensures forall j :: c <= j < i && s[j].Some? ==> s[j].value != s[i].value
    {
      FullCell(s, bucket, i);
      assert i / CELLS == bucket;
      assert s[i].value in Items(s);
    }
    hide HomedIn, HoldsWith;
    MoreThanFour(s[c].value, s[c + 1].value, s[c + 2].value, s[c + 3].value, x, HomedIn(h, lg, all, bucket));
  }

  lemma MoreThanFour(a: Item, b: Item, c: Item, d: Item, e: Item, all: set<Item>)
    requires {a, b, c, d, e} <= all
    requires a != b && a != c && a != d && a != e && b != c && b != d && b != e && c != d && c != e && d != e
    ensures |all| > CELLS
  {
    MoreIn({a, b, c, d, e}, all);
  }

  lemma MoreIn(a: set<Item>, b: set<Item>)
    requires a <= b
    ensures |a| <= |b|
  {
    assert b == a + (b - a);
  }

  lemma FullCrowds(h: Hash, lg: nat, s: Cells, x: Item, all: set<Item>)
    requires HoldsWith(h, lg, s, x, all) && BothFull(h, lg, s, x.key)
    ensures Crowded(h, lg, all)
  {
    FullHomes(h, lg, s, x, all, Primary(h, lg, x.key));
    FullHomes(h, lg, s, x, all, Secondary(h, lg, x.key));
    assert x in all;
  }

  lemma CrowdGrows(h: Hash, lg: nat, some: set<Item>, all: set<Item>)
    requires some <= all && Crowded(h, lg, some)
    ensures Crowded(h, lg, all)
  {
    var x :| x in some && |HomedIn(h, lg, some, Primary(h, lg, x.key))| > CELLS
             && |HomedIn(h, lg, some, Secondary(h, lg, x.key))| > CELLS;
    MoreIn(HomedIn(h, lg, some, Primary(h, lg, x.key)), HomedIn(h, lg, all, Primary(h, lg, x.key)));
    MoreIn(HomedIn(h, lg, some, Secondary(h, lg, x.key)), HomedIn(h, lg, all, Secondary(h, lg, x.key)));
  }

  lemma CrowdsGrow(h: Hash, some: set<Item>, all: set<Item>)
    requires some <= all
    ensures forall lg :: Crowded(h, lg, some) ==> Crowded(h, lg, all)
  {
    forall lg | Crowded(h, lg, some) ensures Crowded(h, lg, all) {
      CrowdGrows(h, lg, some, all);
    }
  }

  /** A table of that many buckets cannot be had. */
  predicate Refused(memory: nat -> bool, lgMaxcells: nat, lg: nat) {
    lg + LG_CKH_BUCKET_CELLS > lgMaxcells || !memory(lg + LG_CKH_BUCKET_CELLS)
  }

  ghost predicate NoMemory(memory: nat -> bool) {
    forall lg :: !memory(lg)
  }

  lemma HoldsOf(h: Hash, lg: nat, s: Cells, all: set<Item>)
    requires Holds(h, lg, s, all)
    ensures Distinct(s) && Items(s) == all
  {
  }

  lemma SizeIs(h: Hash, lg: nat, s: Cells, all: set<Item>)
    requires Holds(h, lg, s, all)
    ensures Occupied(s) == |all|
  {
    OccupiedIsSize(s);
  }

  lemma SizeKept(h: Hash, lg: nat, s: Cells, lg': nat, s': Cells, all: set<Item>)
    requires Holds(h, lg, s, all) && Holds(h, lg', s', all)
    ensures Occupied(s) == Occupied(s')
  {
    OccupiedIsSize(s);
    OccupiedIsSize(s');
  }

  lemma Joining(h: Hash, lg: nat, s: Cells, x: Item, all: set<Item>)
    requires Holds(h, lg, s, all) && forall y :: y in all ==> y.key != x.key
    ensures HoldsWith(h, lg, s, x, all + {x})
  {
    AbsentItems(s, x.key);
  }

  lemma MincellsIs(minitems: nat)
    ensures var m := (minitems + (3 - minitems % 3)) / 3 * 4;
            4 * minitems < 3 * m <= 4 * minitems + 12
  {
  }

  /** The number of buckets is large enough, and no larger than that needs. */
  lemma LeastBuckets(lg: nat, mincells: nat, minitems: nat)
    requires 2 <= lg && mincells <= P(lg) && (lg == 2 || P(lg - 1) < mincells)
    requires 4 * minitems < 3 * mincells <= 4 * minitems + 12
    ensures 4 * minitems < 3 * (CELLS * P(lg - 2))
    ensures lg == 2 || 3 * CELLS * P(lg - 3) < 4 * minitems + 12
  {
    Add(lg - 2, 2);
    if lg > 2 {
      Add(lg - 3, 2);
    }
  }

  /** The loop that finds the least table for `mincells` cells. */
  method LeastCells(mincells: nat) returns (lg: nat)
    ensures lg >= 2 && mincells <= P(lg) && (lg == 2 || P(lg - 1) < mincells)
  {
    Exceeds(mincells);
    Mono(2, mincells + 2);
    Mono(mincells, mincells + 2);
    lg := LG_CKH_BUCKET_CELLS;
    while P(lg) < mincells
      invariant 2 <= lg <= mincells + 2
      invariant lg == 2 || P(lg - 1) < mincells
      decreases mincells + 2 - lg
    {
      lg := lg + 1;
    }
  }

  lemma SmallSeed()
    ensures 42 < P(64)
  {
    Word64();
  }

  class Table {
    const hash: Hash
    var tab: array<Option<Item>>
    var lgCurbuckets: nat
    const lgMinbuckets: nat
    /** The largest table that the allocator could serve, as the logarithm of its cells. */
    const lgMaxcells: nat
    var count: nat
    var prngState: nat

    /** The shape of the table, which holds also in the middle of an operation. */
    ghost predicate Shaped()
      reads this
    {
      tab.Length == CELLS * P(lgCurbuckets) && prngState < P(64)
    }

    /** The table holds the items `all`, each once and in one of its own buckets. */
    ghost predicate Valid(all: set<Item>)
      reads this, tab
    {
      Shaped() && Holds(hash, lgCurbuckets, tab[..], all) && count == Occupied(tab[..])
    }

    /** The same for an item in hand besides the table. */
    ghost predicate ValidWith(hand: Item, all: set<Item>)
      reads this, tab
    {
      Shaped() && HoldsWith(hash, lgCurbuckets, tab[..], hand, all) && count == Occupied(tab[..])
    }

    /** ckh_bucket_search() */
    method BucketSearch(bucket: nat, key: nat) returns (cell: Option<nat>)
      requires Shaped() && bucket < P(lgCurbuckets)
      ensures cell.Some? ==> cell.value < tab.Length && tab[cell.value].Some? && tab[cell.value].value.key == key
      ensures cell.None? ==>
                forall i :: 0 <= i < tab.Length && InBucket(bucket, i) ==> tab[i].None? || tab[i].value.key != key
    {
      for i := 0 to CELLS
        invariant forall k :: CELLS * bucket <= k < CELLS * bucket + i && k < tab.Length ==>
                    tab[k].None? || tab[k].value.key != key
      {
        CellInTable(lgCurbuckets, bucket, i);
        var c := CELLS * bucket + i;
        if tab[c].Some? && tab[c].value.key == key {
          return Some(c);
        }
      }
      return None;
    }

    /** ckh_isearch() */
    method Isearch(key: nat, ghost all: set<Item>) returns (cell: Option<nat>)
      requires Valid(all)
      ensures cell.Some? ==> cell.value < tab.Length && tab[cell.value].Some? && tab[cell.value].value.key == key
      ensures cell.None? ==> Absent(tab[..], key)
    {
      cell := BucketSearch(Primary(hash, lgCurbuckets, key), key);
      if cell.Some? {
        return;
      }
      cell := BucketSearch(Secondary(hash, lgCurbuckets, key), key);
      if cell.None? {
        SearchMisses(hash, lgCurbuckets, tab[..], key);
      }
    }

    /** ckh_search(): finds exactly what the table holds. */
    method Search(key: nat, ghost all: set<Item>) returns (r: Option<Item>)
      requires Valid(all)
      ensures r.Some? ==> r.value in all && r.value.key == key
      ensures r.None? ==> forall x :: x in all ==> x.key != key
    {
      var cell := Isearch(key, all);
      if cell.None? {
        forall x | x in all ensures x.key != key {
          ItemsIn(tab[..], x);
        }
        return None;
      }
      ItemsIn(tab[..], tab[cell.value].value);
      return tab[cell.value];
    }

    /** ckh_try_bucket_insert() */
    method TryBucketInsert(bucket: nat, x: Item, ghost all: set<Item>) returns (full: bool)
      requires ValidWith(x, all) && bucket < P(lgCurbuckets) && Home(hash, lgCurbuckets, x.key, bucket)
      modifies this`count, this`prngState, tab
      ensures full <==> FullBucket(old(tab[..]), bucket)
      ensures full ==> ValidWith(x, all)
      ensures full ==> tab[..] == old(tab[..]) && count == old(count) && prngState == U64.Next(old(prngState))
      ensures !full ==> Valid(all)
    {
      hide P, Offset, Lcg.Next, Holds, HoldsWith, Occupied, Home, FullBucket, Nth;
      var offset := Offset(prngState);
      NextBelow(prngState);
      prngState := U64.Next(prngState);
      for i := 0 to CELLS
        invariant Shaped() && tab[..] == old(tab[..]) && count == old(count)
        invariant prngState == U64.Next(old(prngState))
        invariant Tried(tab[..], bucket, offset, i)
      {
        var c := Nth(bucket, offset, i);
        NthInTable(lgCurbuckets, bucket, offset, i);
        if tab[c].None? {
          Put(hash, lgCurbuckets, tab[..], x, all, c);
          EmptyCell(tab[..], bucket, c);
          tab[c] := Some(x);
          assert tab[..] == old(tab[..])[c := Some(x)];
          count := count + 1;
          return false;
        }
      }
      AllTried(tab[..], bucket, offset);
      return true;
    }

    /** ckh_evict_reloc_insert(): the chain of evictions; when it comes back to where it began, an item
        that was in the table before is left in hand, and the new one is in the table.  The loop
        makes the turns that After() describes, until one does not go on. */
    method EvictRelocInsert(argbucket: nat, x: Item, ghost all: set<Item>)
      returns (failed: bool, hand: Item, ghost turns: nat)
      requires ValidWith(x, all) && argbucket < P(lgCurbuckets)
      requires Home(hash, lgCurbuckets, x.key, argbucket) && FullBucket(tab[..], argbucket)
      modifies this`count, this`prngState, tab
      ensures !failed ==> Valid(all)
      ensures failed ==> ValidWith(hand, all) && count == old(count) && hand in all && hand != x
      ensures Chased(hash, lgCurbuckets, Chase(old(tab[..]), argbucket, x, old(prngState)), failed, turns,
                     tab[..], hand)
      ensures lgCurbuckets == 0 ==> failed
    {
      hide Offset, Lcg.Next, Holds, HoldsWith, Occupied, Home, FullBucket, Items, Primary, Secondary, P;
      hide CanChase, Evicted, GoesOn, GoesOnFor, After;
      var bucket: nat := argbucket;
      hand := x;
      ghost var start := Chase(tab[..], bucket, x, prngState);
      turns := 0;
      CanChaseIf(hash, lgCurbuckets, start, all);
      NoTurns(hash, lgCurbuckets, start);
      ghost var last := ChaseEnds(hash, lgCurbuckets, start);
      while true
        invariant ValidWith(hand, all) && count == old(count) && bucket < P(lgCurbuckets)
        invariant Home(hash, lgCurbuckets, hand.key, bucket) && FullBucket(tab[..], bucket)
        invariant bucket == argbucket ==> hand == x
        invariant bucket != argbucket ==> Sits(tab[..], x, argbucket)
        invariant bucket == argbucket || lgCurbuckets > 0
        invariant turns < last && GoesOnFor(hash, lgCurbuckets, start, turns)
        invariant Chase(tab[..], bucket, hand, prngState) == After(hash, lgCurbuckets, start, turns)
        decreases last - turns
      {
        ghost var now := Chase(tab[..], bucket, hand, prngState);
        CanChaseIf(hash, lgCurbuckets, now, all);
        EvictedIs(hash, lgCurbuckets, now);
        OneMoreTurn(hash, lgCurbuckets, start, turns);
        turns := turns + 1;
        var c := CELLS * bucket + Offset(prngState);
        CellInTable(lgCurbuckets, bucket, Offset(prngState));
        NextBelow(prngState);
        FullCell(tab[..], bucket, c);
        Swap(hash, lgCurbuckets, tab[..], hand, all, c);
        SwapSits(tab[..], x, hand, bucket, argbucket, c);
        prngState := U64.Next(prngState);
        var cell := tab[c];
        ghost var before := tab[..];
        tab[c] := Some(hand);
        assert tab[..] == before[c := Some(hand)];
        hand := cell.value;
        var tbucket := Secondary(hash, lgCurbuckets, hand.key);
        if tbucket == bucket {
          tbucket := Primary(hash, lgCurbuckets, hand.key);
        }
        Homes(hash, lgCurbuckets, hand.key);
        if tbucket == argbucket {
          WithoutHand(hash, lgCurbuckets, tab[..], hand, all);
          SitsIn(tab[..], x, argbucket);
          return true, hand, turns;
        }
        OneBucket(lgCurbuckets, tbucket, argbucket);
        bucket := tbucket;
        var full := TryBucketInsert(bucket, hand, all);
        if !full {
          return false, hand, turns;
        }
        GoOn(hash, lgCurbuckets, start, turns);
        NotLast(hash, lgCurbuckets, start, turns, last);
      }
    }

    /** ckh_try_insert() */
    method TryInsert(x: Item, ghost all: set<Item>) returns (failed: bool, hand: Item)
      requires ValidWith(x, all)
      modifies this`count, this`prngState, tab
      ensures !failed ==> Valid(all)
      ensures failed ==> ValidWith(hand, all) && count == old(count) && hand in all && hand != x
      ensures failed ==> BothFull(hash, lgCurbuckets, old(tab[..]), x.key)
      ensures lgCurbuckets == 0 && FullBucket(old(tab[..]), 0) ==> failed
    {
      hide Holds, HoldsWith, Occupied, FullBucket, Items, Primary, Secondary;
      Homes(hash, lgCurbuckets, x.key);
      hand := x;
      if lgCurbuckets == 0 {
        OnlyBucket(lgCurbuckets, Primary(hash, lgCurbuckets, x.key));
        OnlyBucket(lgCurbuckets, Secondary(hash, lgCurbuckets, x.key));
      }
      var full := TryBucketInsert(Primary(hash, lgCurbuckets, x.key), x, all);
      if !full {
        return false, hand;
      }
      full := TryBucketInsert(Secondary(hash, lgCurbuckets, x.key), x, all);
      if !full {
        return false, hand;
      }
      ghost var turns;
      failed, hand, turns := EvictRelocInsert(Secondary(hash, lgCurbuckets, x.key), x, all);
    }

    /** ckh_rebuild(): every item of the old table goes into the new, empty one. */
    method Rebuild(aTab: array<Option<Item>>) returns (failed: bool)
      requires Shaped() && aTab != tab && Distinct(aTab[..]) && count == Occupied(aTab[..])
      requires forall i :: 0 <= i < tab.Length ==> tab[i].None?
      modifies this`count, this`prngState, tab
      ensures !failed ==> Valid(Items(aTab[..]))
      ensures failed ==> prngState < P(64) && count == old(count)
      ensures failed ==> Crowded(hash, lgCurbuckets, Items(aTab[..]))
    {
      hide Holds, HoldsWith, Occupied, Items, Distinct, Crowded, BothFull;
      var n := count;
      count := 0;
      var i, nins := 0, 0;
      EmptyTable(hash, lgCurbuckets, tab[..]);
      NonePrefix(aTab[..]);
      while nins < n
        invariant i <= aTab.Length && Valid(Items(aTab[..][..i])) && count == nins == Occupied(aTab[..][..i]) <= n
        decreases aTab.Length - i
      {
        OccupiedPrefix(aTab[..], i);
        WholePrefix(aTab[..], i);
        if aTab[i].Some? {
          var x := aTab[i].value;
          ghost var all := Items(aTab[..][..i + 1]);
          TakeUp(hash, lgCurbuckets, tab[..], aTab[..], i);
          ItemsPrefix(aTab[..], i);
          OccupiedPrefix(aTab[..], i + 1);
          ghost var tried := tab[..];
          var t, hand := TryInsert(x, all);
          if t {
            FullCrowds(hash, lgCurbuckets, tried, x, all);
            PrefixIn(aTab[..], i + 1);
            CrowdGrows(hash, lgCurbuckets, all, Items(aTab[..]));
            count := n;
            return true;
          }
          SizeOf(hash, lgCurbuckets, tab[..], all, aTab[..], i + 1);
          nins := nins + 1;
        } else {
          ItemsPrefix(aTab[..], i);
        }
        i := i + 1;
      }
      OccupiedPrefix(aTab[..], i);
      return false;
    }

    /** The table and all that belongs to it are as they were. */
    twostate predicate Same()
      reads this, tab
    {
      tab == old(tab) && tab[..] == old(tab[..]) && lgCurbuckets == old(lgCurbuckets) && count == old(count)
    }

    /** ckh_grow(): doubles, more than once if rebuilding fails; `memory` says which sizes can be had.
        On failure the previous table is restored exactly. */
    method Grow(memory: nat -> bool, ghost all: set<Item>) returns (failed: bool)
      requires Valid(all)
      modifies this`tab, this`lgCurbuckets, this`count, this`prngState
      ensures !failed ==> Valid(all) && fresh(tab) && lgCurbuckets > old(lgCurbuckets) && count == old(count)
      ensures failed ==> Same() && Valid(all)
      ensures failed ==> Refused(memory, lgMaxcells, lgCurbuckets + 1) || Crowded(hash, lgCurbuckets + 1, all)
      ensures forall lg :: old(lgCurbuckets) < lg < lgCurbuckets ==> Crowded(hash, lg, all)
      ensures !failed ==> !Refused(memory, lgMaxcells, lgCurbuckets)
      ensures NoMemory(memory) ==> failed
      ensures lgCurbuckets + LG_CKH_BUCKET_CELLS <= lgMaxcells || lgCurbuckets == old(lgCurbuckets)
    {
      hide Holds, Occupied, Items, Distinct, Crowded;
      var lgPrevbuckets := lgCurbuckets;
      var lgCurcells := lgCurbuckets + LG_CKH_BUCKET_CELLS;
      HoldsOf(hash, lgCurbuckets, tab[..], all);
      while true
        invariant Same() && Valid(all) && lgCurcells >= lgPrevbuckets + LG_CKH_BUCKET_CELLS
        invariant forall lg :: lgPrevbuckets < lg <= lgCurcells - LG_CKH_BUCKET_CELLS ==> Crowded(hash, lg, all)
        decreases lgMaxcells - lgCurcells
      {
        lgCurcells := lgCurcells + 1;
        if lgCurcells > lgMaxcells || !memory(lgCurcells) {
          return true;
        }
        var ttab := tab;
        tab := new Option<Item>[CELLS * P(lgCurcells - LG_CKH_BUCKET_CELLS)](i => None);
        lgCurbuckets := lgCurcells - LG_CKH_BUCKET_CELLS;
        failed := Rebuild(ttab);
        if !failed {
          SizeKept(hash, lgCurbuckets, tab[..], lgPrevbuckets, old(tab[..]), all);
          return;
        }
        tab := ttab;
        lgCurbuckets := lgPrevbuckets;
      }
    }

    /** ckh_shrink(): halves the table if it can; on failure the previous table is restored exactly. */
    method Shrink(memory: nat -> bool, ghost all: set<Item>) returns (failed: bool)
      requires Valid(all) && lgCurbuckets > 0
      modifies this`tab, this`lgCurbuckets, this`count, this`prngState
      ensures !failed ==> Valid(all) && fresh(tab) && lgCurbuckets == old(lgCurbuckets) - 1
      ensures failed ==> Same() && Valid(all)
      ensures failed ==> Refused(memory, lgMaxcells, lgCurbuckets - 1) || Crowded(hash, lgCurbuckets - 1, all)
      ensures !failed ==> !Refused(memory, lgMaxcells, lgCurbuckets)
    {
      hide Holds, Occupied, Items, Distinct, Crowded;
      HoldsOf(hash, lgCurbuckets, tab[..], all);
      var lgCurcells := lgCurbuckets + LG_CKH_BUCKET_CELLS - 1;
      if lgCurcells > lgMaxcells || !memory(lgCurcells) {
        return true;
      }
      var ttab := tab;
      tab := new Option<Item>[CELLS * P(lgCurcells - LG_CKH_BUCKET_CELLS)](i => None);
      lgCurbuckets := lgCurbuckets - 1;
      failed := Rebuild(ttab);
      if failed {
        tab := ttab;
        lgCurbuckets := lgCurbuckets + 1;
      }
    }

    /** ckh_insert(): on success, certain when a bucket of the key has room, the table holds its old items
        and the new one.  On failure one item is lost, which is never the new one unless the table had
        grown; so a failed insertion that could not grow always drops an item that was there before, and
        with a single, full bucket that is what happens. */
    method Insert(x: Item, memory: nat -> bool, ghost all: set<Item>) returns (failed: bool, lost: Item)
      requires Valid(all) && forall y :: y in all ==> y.key != x.key
      modifies this`tab, this`lgCurbuckets, this`count, this`prngState, tab
      ensures !failed ==> Valid(all + {x}) && count == |all| + 1
      ensures failed ==> lost in all + {x} && Valid(all + {x} - {lost}) && count == |all|
      ensures failed && lgCurbuckets == old(lgCurbuckets) ==> lost in all
      ensures failed || lgCurbuckets != old(lgCurbuckets) ==> BothFull(hash, old(lgCurbuckets), old(tab[..]), x.key)
      ensures failed && lgCurbuckets == old(lgCurbuckets) ==>
                Refused(memory, lgMaxcells, lgCurbuckets + 1) || Crowded(hash, lgCurbuckets + 1, all + {x})
      ensures failed && lgCurbuckets != old(lgCurbuckets) ==> Crowded(hash, lgCurbuckets, all + {x})
      ensures forall lg :: old(lgCurbuckets) < lg < lgCurbuckets ==> Crowded(hash, lg, all + {x})
      ensures old(lgCurbuckets) == 0 && FullBucket(old(tab[..]), 0) && NoMemory(memory) ==> failed && lost in all
    {
      hide Holds, HoldsWith, Occupied, Items, FullBucket, Primary, Secondary, NoMemory, Crowded, BothFull, Refused;
      ghost var both := all + {x};
      Joining(hash, lgCurbuckets, tab[..], x, all);
      var hand := x;
      failed, hand := TryInsert(x, both);
      while failed
        invariant tab == old(tab) || fresh(tab)
        invariant if failed then ValidWith(hand, both) && hand in both else Valid(both)
        invariant old(lgCurbuckets) == 0 && FullBucket(old(tab[..]), 0) && NoMemory(memory) ==> failed
        invariant lgCurbuckets == old(lgCurbuckets) || !NoMemory(memory)
        invariant failed || lgCurbuckets != old(lgCurbuckets) ==>
                    BothFull(hash, old(lgCurbuckets), old(tab[..]), x.key)
        invariant failed && lgCurbuckets != old(lgCurbuckets) ==> Crowded(hash, lgCurbuckets, both)
        invariant forall lg :: old(lgCurbuckets) < lg < lgCurbuckets ==> Crowded(hash, lg, both)
        invariant lgCurbuckets >= old(lgCurbuckets) && (failed && lgCurbuckets == old(lgCurbuckets) ==> hand != x)
        decreases failed, lgMaxcells - lgCurbuckets
      {
        WithoutHand(hash, lgCurbuckets, tab[..], hand, both);
        KeysApart(hash, lgCurbuckets, tab[..], hand, both);
        ghost var lgBefore := lgCurbuckets;
        var g := Grow(memory, both - {hand});
        CrowdsGrow(hash, both - {hand}, both);
        if g {
          SizeIs(hash, lgCurbuckets, tab[..], both - {hand});
          return true, hand;
        }
        AddHand(hash, lgCurbuckets, tab[..], hand, both);
        ghost var grown, first := tab[..], hand;
        failed, hand := TryInsert(hand, both);
        if failed {
          FullCrowds(hash, lgCurbuckets, grown, first, both);
        }
      }
      lost := hand;
      SizeIs(hash, lgCurbuckets, tab[..], both);
    }

    /** ckh_remove(): takes out the item with the key, if there is one, and nothing else; the table may
        shrink, and is never smaller than its minimum. */
    method Remove(key: nat, memory: nat -> bool, ghost all: set<Item>) returns (r: Option<Item>)
      requires Valid(all)
      modifies this`tab, this`lgCurbuckets, this`count, this`prngState, tab
      ensures r.Some? ==> r.value in all && r.value.key == key
      ensures r.None? ==> Same() && forall x :: x in all ==> x.key != key
      ensures Valid(if r.Some? then all - {r.value} else all)
      ensures lgMinbuckets <= old(lgCurbuckets) ==> lgMinbuckets <= lgCurbuckets <= old(lgCurbuckets)
      ensures var lg, rest := old(lgCurbuckets), if r.Some? then all - {r.value} else all;
              var tries := r.Some? && |rest| < P(lg + LG_CKH_BUCKET_CELLS - 2) && lg > lgMinbuckets;
              && (lgCurbuckets != lg ==> tries && lgCurbuckets == lg - 1 && !Refused(memory, lgMaxcells, lg - 1))
              && (tries && lgCurbuckets == lg ==> Refused(memory, lgMaxcells, lg - 1) || Crowded(hash, lg - 1, rest))
    {
      hide Holds, HoldsWith, Occupied, Items, P, Crowded, Refused;
      var cell := Isearch(key, all);
      if cell.None? {
        AbsentItems(tab[..], key);
        HoldsOf(hash, lgCurbuckets, tab[..], all);
        return None;
      }
      r := tab[cell.value];
      ghost var before := tab[..];
      ItemsIn(before, r.value);
      HoldsOf(hash, lgCurbuckets, before, all);
      CuckooTable.Clear(hash, lgCurbuckets, before, all, cell.value);
      tab[cell.value] := None;
      assert tab[..] == before[cell.value := None];
      count := count - 1;
      SizeIs(hash, lgCurbuckets, tab[..], all - {r.value});
      if count < P(lgCurbuckets + LG_CKH_BUCKET_CELLS - 2) && lgCurbuckets > lgMinbuckets {
        var _ := Shrink(memory, all - {r.value});
      }
    }

    /** ckh_new(), once its table was allocated: at most three quarters full with `minitems` items. */
    constructor (minitems: nat, hash: Hash, lgMaxcells: nat)
      requires minitems > 0
      ensures Valid({}) && this.hash == hash && lgMinbuckets == lgCurbuckets
      ensures 4 * minitems < 3 * tab.Length
      ensures lgCurbuckets == 0 || 3 * CELLS * P(lgCurbuckets - 1) < 4 * minitems + 12
    {
      var mincells := (minitems + (3 - minitems % 3)) / 3 * 4;
      MincellsIs(minitems);
      var lg := LeastCells(mincells);
      LeastBuckets(lg, mincells, minitems);
      this.hash := hash;
      this.lgMaxcells := lgMaxcells;
      count := 0;
      prngState := 42;
      lgMinbuckets, lgCurbuckets := lg - LG_CKH_BUCKET_CELLS, lg - LG_CKH_BUCKET_CELLS;
      tab := new Option<Item>[CELLS * P(lg - LG_CKH_BUCKET_CELLS)](i => None);
      new;
      EmptyTable(hash, lgCurbuckets, tab[..]);
      SmallSeed();
    }
  }
}
