/** Sets of free address ranges, as the size-ordered and the address-ordered trees of chunk.c hold them. */
module Extents {
  import opened Arith

  datatype Extent = Extent(addr: nat, size: nat, sn: nat, zeroed: bool, committed: bool) {
    function End(): nat {
      addr + size
    }

    predicate Has(a: int) {
      addr <= a < addr + size
    }
  }

  predicate Apart(x: Extent, y: Extent) {
    x.End() <= y.addr || y.End() <= x.addr
  }

  /** Whole chunks at chunk addresses. */
  predicate Aligned(x: Extent, chunk: nat)
    requires chunk > 0
  {
    x.size > 0 && x.addr % chunk == 0 && x.size % chunk == 0
  }

  /** Non-empty ranges of whole chunks, pairwise disjoint. */
  ghost predicate Ok(s: set<Extent>, chunk: nat) {
    && chunk > 0 && (forall x :: x in s ==> Aligned(x, chunk))
    && (forall x, y :: x in s && y in s && x != y ==> Apart(x, y))
  }

  /** `x` is in none of the ranges. */
  ghost predicate Clear(s: set<Extent>, x: Extent) {
    forall y :: y in s ==> Apart(x, y)
  }

  /** An address is in a range that is committed, or in one that is not. */
  ghost predicate Covered(s: set<Extent>, a: int, committed: bool) {
    exists x :: x in s && x.Has(a) && x.committed == committed
  }

  /** `s'` covers what `s` covers, less the addresses from `lo` up to `hi`. */
  ghost predicate Less(s: set<Extent>, lo: nat, hi: nat, s': set<Extent>) {
    forall a: int, b: bool :: Covered(s', a, b) <==> Covered(s, a, b) && !(lo <= a < hi)
  }

  /** `s'` covers what `s` covers, and the addresses of `x`, which `s` does not. */
  ghost predicate More(s: set<Extent>, x: Extent, s': set<Extent>) {
    && (forall a: int, b: bool :: Covered(s', a, b) <==> Covered(s, a, b) || (x.Has(a) && b == x.committed))
    && (forall a: int, b: bool :: x.Has(a) ==> !Covered(s, a, b))
  }

  /** Two ranges that accepting merge hooks would have merged. */
  predicate Touch(x: Extent, y: Extent) {
    x.End() == y.addr && x.committed == y.committed
  }

  ghost predicate NoTouch(s: set<Extent>) {
    forall x, y :: x in s && y in s ==> !Touch(x, y)
  }

  // ---------------------------------------------------------------- taking a part away

  /** `node` without the addresses from `lo` up to `hi`. */
  function Carve(s: set<Extent>, node: Extent, lo: nat, hi: nat): set<Extent>
    requires node.addr <= lo <= hi <= node.End()
  {
    s - {node}
    + (if node.addr < lo then {node.(size := lo - node.addr)} else {})
    + (if hi < node.End() then {node.(addr := hi, size := node.End() - hi)} else {})
  }

  lemma CarveOk(s: set<Extent>, chunk: nat, node: Extent, lo: nat, hi: nat)
    requires Ok(s, chunk) && node in s && node.addr <= lo < hi <= node.End()
    requires lo % chunk == 0 && hi % chunk == 0
    ensures Ok(Carve(s, node, lo, hi), chunk)
    ensures forall x :: x in Carve(s, node, lo, hi) ==> x.End() <= lo || hi <= x.addr
  {
    assert Aligned(node, chunk);
    Multiples(node.addr, node.size, lo, hi, chunk);
    var s' := Carve(s, node, lo, hi);
    forall x | x in s' ensures Aligned(x, chunk) && (x.End() <= lo || hi <= x.addr) {
      assert x in s && x != node ==> Apart(x, node);
    }
    forall x, y | x in s' && y in s' && x != y ensures Apart(x, y) {
      assert x in s && x != node ==> Apart(x, node);
      assert y in s && y != node ==> Apart(y, node);
    }
  }

  lemma Multiples(addr: nat, size: nat, lo: nat, hi: nat, d: nat)
    requires d > 0 && addr % d == 0 && size % d == 0 && lo % d == 0 && hi % d == 0
    requires addr <= lo <= hi <= addr + size
    ensures (lo - addr) % d == 0 && (addr + size - hi) % d == 0
  {
    ModSum(lo, addr, d);
    ModSum(addr, size, d);
    ModSum(addr + size, hi, d);
  }

  /** Exactly the carved range goes. */
  lemma CarveLess(s: set<Extent>, chunk: nat, node: Extent, lo: nat, hi: nat)
    requires Ok(s, chunk) && node in s && node.addr <= lo < hi <= node.End()
    ensures Less(s, lo, hi, Carve(s, node, lo, hi))
  {
    var s' := Carve(s, node, lo, hi);
    forall a: int, b: bool ensures Covered(s', a, b) <==> Covered(s, a, b) && !(lo <= a < hi) {
      if Covered(s, a, b) && !(lo <= a < hi) {
        var x :| x in s && x.Has(a) && x.committed == b;
        if x == node {
          assert if a < lo then node.(size := lo - node.addr) in s' else
            node.(addr := hi, size := node.End() - hi) in s';
        } else {
          assert x in s';
        }
      }
      if Covered(s', a, b) {
        var x :| x in s' && x.Has(a) && x.committed == b;
        assert if x in s then x.Has(a) else node.Has(a);
        assert x in s ==> Apart(x, node);
      }
    }
  }

  lemma CarveNoTouch(s: set<Extent>, chunk: nat, node: Extent, lo: nat, hi: nat)
    requires Ok(s, chunk) && NoTouch(s) && node in s && node.addr <= lo < hi <= node.End()
    ensures NoTouch(Carve(s, node, lo, hi))
  {
    var s' := Carve(s, node, lo, hi);
    forall x, y | x in s' && y in s' ensures !Touch(x, y) {
      var p := if x in s - {node} then x else node;
      var q := if y in s - {node} then y else node;
      assert !Touch(p, q) && !Touch(p, node) && !Touch(node, q);
      assert Aligned(p, chunk) && Aligned(q, chunk);
      assert p != node ==> Apart(p, node);
      assert q != node ==> Apart(q, node);
    }
  }

  // ---------------------------------------------------------------- putting a range back

  lemma AddOk(s: set<Extent>, chunk: nat, x: Extent)
    requires Ok(s, chunk) && Aligned(x, chunk) && Clear(s, x)
    ensures Ok(s + {x}, chunk) && More(s, x, s + {x})
  {
    forall a: int, b: bool
      ensures Covered(s + {x}, a, b) <==> Covered(s, a, b) || (x.Has(a) && b == x.committed)
      ensures x.Has(a) ==> !Covered(s, a, b)
    {
      if x.Has(a) {
        assert x in s + {x};
      } else if Covered(s, a, b) {
        var y :| y in s && y.Has(a) && y.committed == b;
        assert y in s + {x};
      }
    }
  }

  /** Merging two ranges of a set changes nothing about the addresses. */
  lemma JoinOk(s: set<Extent>, chunk: nat, x: Extent, y: Extent, j: Extent)
    requires Ok(s, chunk) && x in s && y in s && x.End() == y.addr
    requires j.addr == x.addr && j.size == x.size + y.size && x.committed == y.committed == j.committed
    ensures Ok(s - {x, y} + {j}, chunk)
    ensures forall a: int, b: bool :: Covered(s - {x, y} + {j}, a, b) <==> Covered(s, a, b)
  {
    var s' := s - {x, y} + {j};
    assert Aligned(x, chunk) && Aligned(y, chunk);
    ModSum(x.size, y.size, chunk);
    forall z | z in s' && z != j ensures Apart(z, j) {
      assert Apart(z, x) && Apart(z, y) && Aligned(z, chunk);
    }
    forall a: int, b: bool ensures Covered(s', a, b) <==> Covered(s, a, b) {
      if Covered(s, a, b) {
        var z :| z in s && z.Has(a) && z.committed == b;
        assert if z == x || z == y then j.Has(a) else z in s';
        assert j in s';
      }
      if Covered(s', a, b) {
        var z :| z in s' && z.Has(a) && z.committed == b;
        assert z == j ==> x.Has(a) || y.Has(a);
      }
    }
  }

  // ---------------------------------------------------------------- what touches what

  /** Adding a range lets only its own neighbours touch. */
  ghost predicate NoTouchBut(s: set<Extent>, x: Extent) {
    forall y, z :: y in s && z in s && Touch(y, z) ==> y == x || z == x
  }

  /** A merged range touches only what its parts touched. */
  lemma JoinTouch(s: set<Extent>, chunk: nat, x: Extent, y: Extent, j: Extent)
    requires Ok(s, chunk) && x in s && y in s && x.End() == y.addr
    requires j.addr == x.addr && j.size == x.size + y.size && x.committed == y.committed == j.committed
    requires NoTouchBut(s, x) || NoTouchBut(s, y)
    ensures NoTouchBut(s - {x, y} + {j}, j)
    ensures (forall z :: z in s ==> !Touch(z, x)) && (forall z :: z in s ==> !Touch(y, z)) ==>
              NoTouch(s - {x, y} + {j})
  {
    var s' := s - {x, y} + {j};
    forall z | z in s' && (Touch(z, j) || Touch(j, z)) && z != j
      ensures Touch(z, x) || Touch(y, z)
    {
    }
    assert Aligned(x, chunk) && Aligned(y, chunk);
  }

  /** What recording has come to after its first part: `x` was put in, perhaps as part of `j`. */
  ghost predicate Entered(s: set<Extent>, chunk: nat, x: Extent, s1: set<Extent>, j: Extent) {
    && Ok(s1, chunk) && j in s1 && More(s, x, s1) && j.addr == x.addr && j.committed == x.committed
    && (NoTouch(s) ==> NoTouchBut(s1, j))
  }

  lemma EnterAlone(s: set<Extent>, chunk: nat, x: Extent)
    requires Ok(s, chunk) && Aligned(x, chunk) && Clear(s, x)
    ensures x !in s
    ensures Entered(s, chunk, x, s + {x}, x)
    ensures (forall y :: y in s ==> !Touch(x, y)) ==> forall y :: y in s + {x} ==> !Touch(x, y)
  {
    AddOk(s, chunk, x);
  }

  /** Forward: `x` becomes the head of `next`. */
  lemma EnterBefore(s: set<Extent>, chunk: nat, x: Extent, next: Extent, j: Extent)
    requires Ok(s, chunk) && Aligned(x, chunk) && Clear(s, x) && next in s && Touch(x, next)
    requires j.addr == x.addr && j.size == x.size + next.size && j.committed == x.committed
    ensures j !in s && Entered(s, chunk, x, s - {next} + {j}, j)
    ensures NoTouch(s) ==> forall y :: y in s - {next} + {j} ==> !Touch(j, y)
  {
    AddOk(s, chunk, x);
    JoinOk(s + {x}, chunk, x, next, j);
    assert Aligned(next, chunk) && Apart(x, next);
    assert x !in s;
    assert s + {x} - {x, next} + {j} == s - {next} + {j};
    if NoTouch(s) {
      JoinTouch(s + {x}, chunk, x, next, j);
    }
  }

  /** Backward: the range in which `x` begins becomes the tail of `prev`. */
  lemma EnterAfter(s: set<Extent>, chunk: nat, x: Extent, s1: set<Extent>, n: Extent, prev: Extent, j: Extent)
    requires Ok(s, chunk) && Entered(s, chunk, x, s1, n) && prev in s1 && Touch(prev, n)
    requires j.addr == prev.addr && j.size == prev.size + n.size && j.committed == x.committed
    ensures Ok(s1 - {prev, n} + {j}, chunk) && More(s, x, s1 - {prev, n} + {j})
    ensures NoTouch(s) && (forall y :: y in s1 ==> !Touch(n, y)) ==> NoTouch(s1 - {prev, n} + {j})
  {
    JoinOk(s1, chunk, prev, n, j);
    if NoTouch(s) && forall y :: y in s1 ==> !Touch(n, y) {
      assert forall y :: y in s1 ==> !Touch(y, prev) by {
        assert Aligned(n, chunk) && Aligned(prev, chunk);
        forall y | y in s1 ensures !Touch(y, prev) {
          assert y != n ==> (Touch(y, prev) ==> y == n || prev == n);
        }
      }
      JoinTouch(s1, chunk, prev, n, j);
    }
  }

  lemma EnteredNoTouch(s: set<Extent>, chunk: nat, x: Extent, s1: set<Extent>, n: Extent)
    requires Entered(s, chunk, x, s1, n) && NoTouch(s)
    requires forall y :: y in s1 ==> !Touch(n, y) && !Touch(y, n)
    ensures NoTouch(s1)
  {
  }

  lemma SameAddr(s: set<Extent>, chunk: nat, x: Extent)
    requires Ok(s, chunk) && x in s
    ensures forall y :: y in s && y.addr == x.addr ==> y == x
  {
    forall y | y in s && y.addr == x.addr ensures y == x {
      assert Aligned(x, chunk) && Aligned(y, chunk);
      assert y != x ==> Apart(x, y);
    }
  }

  // ---------------------------------------------------------------- the marks of ranges

  predicate Within(z: Extent, y: Extent) {
    y.addr <= z.addr && z.End() <= y.End()
  }

  /** Each range of `s'` is a part of one of `s`, and has its serial number, its commit state and its mark. */
  ghost predicate PartsOf(s: set<Extent>, s': set<Extent>) {
    forall y :: y in s' ==>
      exists z :: z in s && Within(y, z) && y.sn == z.sn && y.zeroed == z.zeroed && y.committed == z.committed
  }

  ghost predicate SnOfOne(s: set<Extent>, y: Extent) {
    exists z :: z in s && Within(z, y) && z.sn == y.sn
  }

  ghost predicate Unmarked(s: set<Extent>, y: Extent) {
    exists z :: z in s && Within(z, y) && !z.zeroed
  }

  ghost predicate BelowAll(s: set<Extent>, y: Extent) {
    forall z :: z in s && Within(z, y) ==> y.sn <= z.sn && y.committed == z.committed
  }

  /** `y` has the least serial number of the ranges of `s` that it is made of, their commit state, and is marked
      as zeroed if and only if they all are. */
  ghost predicate MadeOf(s: set<Extent>, y: Extent) {
    SnOfOne(s, y) && BelowAll(s, y) && (y.zeroed <==> !Unmarked(s, y))
  }

  /** Ranges were merged, and nothing else. */
  ghost predicate Composed(s: set<Extent>, s': set<Extent>) {
    Covering(s, s') && AllMade(s, s')
  }

  ghost predicate Covering(s: set<Extent>, s': set<Extent>) {
    forall z :: z in s ==> InOne(s', z)
  }

  ghost predicate InOne(s: set<Extent>, z: Extent) {
    exists y :: y in s && Within(z, y)
  }

  ghost predicate AllMade(s: set<Extent>, s': set<Extent>) {
    forall y :: y in s' ==> MadeOf(s, y)
  }

  lemma OnlyItself(s: set<Extent>, chunk: nat, z: Extent, y: Extent)
    requires Ok(s, chunk) && z in s && y in s && Within(z, y)
    ensures z == y
  {
    assert Aligned(z, chunk);
  }

  lemma ComposedSelf(s: set<Extent>, chunk: nat)
    requires Ok(s, chunk)
    ensures Composed(s, s)
  {
    forall y | y in s ensures MadeOf(s, y) && InOne(s, y) {
      MadeOfItself(s, chunk, y);
    }
  }

  lemma MadeOfItself(s: set<Extent>, chunk: nat, y: Extent)
    requires Ok(s, chunk) && y in s
    ensures MadeOf(s, y) && InOne(s, y)
  {
    assert Within(y, y);
    forall z | z in s && Within(z, y) ensures z == y {
      OnlyItself(s, chunk, z, y);
    }
    hide Within, Ok;
  }

  lemma ComposedJoin(s: set<Extent>, chunk: nat, a: Extent, b: Extent, j: Extent)
    requires Ok(s, chunk) && a in s && b in s && Touch(a, b)
    requires j == Extent(a.addr, a.size + b.size, if a.sn < b.sn then a.sn else b.sn, a.zeroed && b.zeroed, a.committed)
    ensures Composed(s, s - {a, b} + {j})
  {
    hide Ok, MadeOf, Covering, Within, Touch;
    JoinMade(s, chunk, a, b, j);
    JoinCovers(s, a, b, j);
    ComposedSelf(s, chunk);
  }

  lemma JoinCovers(s: set<Extent>, a: Extent, b: Extent, j: Extent)
    requires Within(a, j) && Within(b, j)
    ensures Covering(s, s - {a, b} + {j})
  {
    var s' := s - {a, b} + {j};
    forall z | z in s ensures InOne(s', z) {
      assert Within(z, z);
      assert z in s' || z == a || z == b;
      assert j in s';
    }
  }

  lemma JoinMade(s: set<Extent>, chunk: nat, a: Extent, b: Extent, j: Extent)
    requires Ok(s, chunk) && a in s && b in s && Touch(a, b)
    requires j == Extent(a.addr, a.size + b.size, if a.sn < b.sn then a.sn else b.sn, a.zeroed && b.zeroed, a.committed)
    ensures MadeOf(s, j) && Within(a, j) && Within(b, j)
  {
    assert Within(a, j) && Within(b, j);
    forall z | z in s && Within(z, j) ensures z == a || z == b {
      InJoined(s, chunk, a, b, j, z);
    }
    hide Within, Ok;
  }

  lemma InJoined(s: set<Extent>, chunk: nat, a: Extent, b: Extent, j: Extent, z: Extent)
    requires Ok(s, chunk) && a in s && b in s && Touch(a, b) && z in s && Within(z, j)
    requires j.addr == a.addr && j.size == a.size + b.size
    ensures z == a || z == b
  {
    assert Aligned(z, chunk);
    assert z != a ==> Apart(z, a);
    assert z != b ==> Apart(z, b);
  }

  lemma SameRange(s: set<Extent>, chunk: nat, z: Extent, k: Extent, y: Extent)
    requires Ok(s, chunk) && k in s && y in s && z.size > 0 && Within(z, k) && Within(z, y)
    ensures k == y
  {
  }

  /** A range of `s0` in a range of `s2` is in one of `s1` between the two. */
  lemma Between(s0: set<Extent>, s1: set<Extent>, s2: set<Extent>, chunk: nat, z: Extent, y: Extent) returns (m: Extent)
    requires Covering(s0, s1) && Covering(s1, s2) && Ok(s2, chunk) && y in s2 && z in s0 && z.size > 0 && Within(z, y)
    ensures m in s1 && Within(z, m) && Within(m, y)
  {
    hide Ok;
    assert InOne(s1, z);
    m :| m in s1 && Within(z, m);
    assert InOne(s2, m);
    var k :| k in s2 && Within(m, k);
    SameRange(s2, chunk, z, k, y);
  }

  lemma CoveringTwice(s0: set<Extent>, s1: set<Extent>, s2: set<Extent>)
    requires Covering(s0, s1) && Covering(s1, s2)
    ensures Covering(s0, s2)
  {
    forall z | z in s0 ensures InOne(s2, z) {
      assert InOne(s1, z);
      var m :| m in s1 && Within(z, m);
      assert InOne(s2, m);
      var y :| y in s2 && Within(m, y);
      assert Within(z, y);
    }
  }

  lemma ComposedTwice(s0: set<Extent>, s1: set<Extent>, s2: set<Extent>, chunk: nat)
    requires Ok(s0, chunk) && Ok(s2, chunk) && Composed(s0, s1) && Composed(s1, s2)
    ensures Composed(s0, s2)
  {
    hide Ok, Covering, MadeOf;
    CoveringTwice(s0, s1, s2);
    forall y | y in s2 ensures MadeOf(s0, y) {
      MadeTwice(s0, s1, s2, chunk, y);
    }
  }

  lemma MadeTwice(s0: set<Extent>, s1: set<Extent>, s2: set<Extent>, chunk: nat, y: Extent)
    requires Ok(s0, chunk) && Ok(s2, chunk) && Composed(s0, s1) && Composed(s1, s2) && y in s2
    ensures MadeOf(s0, y)
  {
    hide Ok, AllMade, Covering, Within, SnOfOne, Unmarked;
    assert MadeOf(s1, y) by {
      Made(s1, s2, y);
    }
    LeastMember(s0, s1, y);
    UnmarkedMember(s0, s1, y);
    forall z | z in s0 && Within(z, y)
      ensures y.sn <= z.sn && y.committed == z.committed && (y.zeroed ==> z.zeroed)
    {
      AnyMember(s0, s1, s2, chunk, y, z);
    }
    if y.zeroed {
      NotUnmarked(s0, y);
    }
  }

  lemma Made(s: set<Extent>, s': set<Extent>, y: Extent)
    requires AllMade(s, s') && y in s'
    ensures MadeOf(s, y)
  {
  }

  lemma NotUnmarked(s: set<Extent>, y: Extent)
    requires forall z :: z in s && Within(z, y) ==> z.zeroed
    ensures !Unmarked(s, y)
  {
  }

  lemma AnyMember(s0: set<Extent>, s1: set<Extent>, s2: set<Extent>, chunk: nat, y: Extent, z: Extent)
    requires Ok(s0, chunk) && Ok(s2, chunk) && Composed(s0, s1) && Composed(s1, s2) && y in s2
    requires z in s0 && Within(z, y)
    ensures y.sn <= z.sn && y.committed == z.committed && (y.zeroed ==> z.zeroed)
  {
    hide Ok, AllMade, Covering, MadeOf, Within;
    NotEmpty(s0, chunk, z);
    var m := Between(s0, s1, s2, chunk, z, y);
    Made(s0, s1, m);
    Made(s1, s2, y);
    Member(s0, m, z);
    Member(s1, y, m);
  }

  lemma NotEmpty(s: set<Extent>, chunk: nat, z: Extent)
    requires Ok(s, chunk) && z in s
    ensures z.size > 0
  {
    assert Aligned(z, chunk);
  }

  lemma Member(s: set<Extent>, y: Extent, z: Extent)
    requires MadeOf(s, y) && z in s && Within(z, y)
    ensures y.sn <= z.sn && y.committed == z.committed && (y.zeroed ==> z.zeroed)
  {
  }

  lemma LeastMember(s0: set<Extent>, s1: set<Extent>, y: Extent)
    requires AllMade(s0, s1) && SnOfOne(s1, y)
    ensures SnOfOne(s0, y)
  {
    var m :| m in s1 && Within(m, y) && m.sn == y.sn;
    hide AllMade;
    Made(s0, s1, m);
    var z :| z in s0 && Within(z, m) && z.sn == m.sn;
    assert Within(z, y);
  }

  lemma UnmarkedMember(s0: set<Extent>, s1: set<Extent>, y: Extent)
    requires AllMade(s0, s1)
    ensures Unmarked(s1, y) ==> Unmarked(s0, y)
  {
    hide AllMade;
    if Unmarked(s1, y) {
      var m :| m in s1 && Within(m, y) && !m.zeroed;
      Made(s0, s1, m);
      var z :| z in s0 && Within(z, m) && !z.zeroed;
      assert Within(z, y);
    }
  }
}
