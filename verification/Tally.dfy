/** Profile counters and their sums over finite families of contexts. */
module Tally {

  datatype Cnt = Cnt(curobjs: nat, curbytes: nat, accumobjs: nat, accumbytes: nat)

  const ZERO := Cnt(0, 0, 0, 0)

  function Plus(a: Cnt, b: Cnt): Cnt {
    Cnt(a.curobjs + b.curobjs, a.curbytes + b.curbytes,
        a.accumobjs + b.accumobjs, a.accumbytes + b.accumbytes)
  }

  lemma PlusZero(a: Cnt)
    ensures Plus(ZERO, a) == a == Plus(a, ZERO)
  {
  }

  lemma PlusLaws(a: Cnt, b: Cnt, c: Cnt)
    ensures Plus(a, b) == Plus(b, a)
    ensures Plus(a, Plus(b, c)) == Plus(Plus(a, b), c) == Plus(b, Plus(a, c))
  {
  }

  /** The code's `+=` over counters: the accumulated fields move only under `opt_prof_accum`. */
  function AddTo(a: Cnt, b: Cnt, accum: bool): Cnt {
    if accum then Plus(a, b)
    else a.(curobjs := a.curobjs + b.curobjs, curbytes := a.curbytes + b.curbytes)
  }

  /** Bytes are there only for objects. */
  predicate Backed(objs: nat, bytes: nat) {
    objs == 0 ==> bytes == 0
  }

  lemma BackedSum(o: nat, b: nat, o': nat, b': nat)
    requires Backed(o, b) && Backed(o', b')
    ensures Backed(o + o', b + b')
  {
  }

  /** Without `opt_prof_accum` the accumulated fields stay zero, and with
      it they count at least what is live. */
  predicate Sane(c: Cnt, accum: bool) {
    && Backed(c.curobjs, c.curbytes) && Backed(c.accumobjs, c.accumbytes)
    && (accum ==> c.curobjs <= c.accumobjs) && (!accum ==> c.accumobjs == 0)
  }

  lemma PlusSane(a: Cnt, b: Cnt, accum: bool)
    requires Sane(a, accum) && Sane(b, accum)
    ensures Sane(Plus(a, b), accum)
  {
    hide Backed;
    BackedSum(a.curobjs, a.curbytes, b.curobjs, b.curbytes);
    BackedSum(a.accumobjs, a.accumbytes, b.accumobjs, b.accumbytes);
  }

  /** Adding what is sane moves the accumulated fields rightly in either mode. */
  lemma AddSane(a: Cnt, b: Cnt, accum: bool)
    requires Sane(a, accum) && Sane(b, accum)
    ensures AddTo(a, b, accum) == Plus(a, b) && Sane(Plus(a, b), accum)
  {
    PlusSane(a, b, accum);
  }

  lemma AddSaneTo(a: Cnt, b: Cnt, accum: bool)
    requires Sane(b, accum)
    ensures AddTo(a, b, accum) == Plus(a, b)
  {
  }

  lemma {:induction false} SumSane(s: set<nat>, f: map<nat, Cnt>, accum: bool)
    requires s <= f.Keys && forall k :: k in s ==> Sane(f[k], accum)
    ensures Sane(Sum(s, f), accum)
  {
    if s != {} {
      var k :| k in s;
      SumTake(s, f, k);
      SumSane(s - {k}, f, accum);
      hide Sane, Plus;
      PlusSane(f[k], Sum(s - {k}, f), accum);
    }
  }

  /** The sum of the counters that `f` gives to the members of `s`. */
  ghost function Sum(s: set<nat>, f: map<nat, Cnt>): Cnt
    requires s <= f.Keys
  {
    if s == {} then ZERO
    else
      var k :| k in s;
      Plus(f[k], Sum(s - {k}, f))
  }

  /** The same counters added to `c` one after the other, as a tree walk does. */
  ghost function Accumulate(c: Cnt, s: set<nat>, f: map<nat, Cnt>, accum: bool): Cnt
    requires s <= f.Keys
    decreases s
  {
    if s == {} then c
    else
      var k :| k in s;
      Accumulate(AddTo(c, f[k], accum), s - {k}, f, accum)
  }

  lemma {:induction false} SumTake(s: set<nat>, f: map<nat, Cnt>, k: nat)
    requires s <= f.Keys && k in s
    ensures Sum(s, f) == Plus(f[k], Sum(s - {k}, f))
  {
    var j :| j in s && Sum(s, f) == Plus(f[j], Sum(s - {j}, f));
    if j != k {
      var rest := s - {j} - {k};
      assert s - {k} - {j} == rest;
      SumTake(s - {j}, f, k);
      SumTake(s - {k}, f, j);
      PlusLaws(f[j], f[k], Sum(rest, f));
    }
  }

  lemma SumAdd(s: set<nat>, f: map<nat, Cnt>, k: nat)
    requires s <= f.Keys && k in f && k !in s
    ensures Sum(s + {k}, f) == Plus(f[k], Sum(s, f))
  {
    SumTake(s + {k}, f, k);
    assert (s + {k}) - {k} == s;
  }

  lemma {:induction false} SumAgree(s: set<nat>, f: map<nat, Cnt>, g: map<nat, Cnt>)
    requires s <= f.Keys && s <= g.Keys
    requires forall k :: k in s ==> f[k] == g[k]
    ensures Sum(s, f) == Sum(s, g)
  {
    if s != {} {
      var k :| k in s;
      SumTake(s, f, k);
      SumTake(s, g, k);
      SumAgree(s - {k}, f, g);
    }
  }

  lemma {:induction false} AccumulateIsSum(c: Cnt, s: set<nat>, f: map<nat, Cnt>, accum: bool)
    requires s <= f.Keys
    requires forall k :: k in s ==> Sane(f[k], accum)
    ensures Accumulate(c, s, f, accum) == Plus(c, Sum(s, f))
    decreases s
  {
    if s != {} {
      var k :| k in s &&
        Accumulate(c, s, f, accum) == Accumulate(AddTo(c, f[k], accum), s - {k}, f, accum);
      SumTake(s, f, k);
      AccumulateIsSum(AddTo(c, f[k], accum), s - {k}, f, accum);
    }
  }

  lemma SumEmpty(f: map<nat, Cnt>, c: Cnt)
    ensures Plus(Sum({}, f), c) == c
  {
  }

  lemma {:induction false} SumUnion(s: set<nat>, u: set<nat>, f: map<nat, Cnt>)
    requires s <= f.Keys && u <= f.Keys && s !! u
    ensures Sum(s + u, f) == Plus(Sum(s, f), Sum(u, f))
    decreases s
  {
    if s == {} {
      assert s + u == u;
      SumEmpty(f, Sum(u, f));
    } else {
      var k :| k in s;
      SumTake(s, f, k);
      SumTake(s + u, f, k);
      assert (s + u) - {k} == (s - {k}) + u;
      SumUnion(s - {k}, u, f);
      PlusLaws(f[k], Sum(s - {k}, f), Sum(u, f));
    }
  }

  /** The members of `s` that `key` sends to `g`. */
  ghost function Part(s: set<nat>, key: map<nat, nat>, g: nat): set<nat>
    requires s <= key.Keys
  {
    set k | k in s && key[k] == g
  }

  /** Summing first inside every group and then over the groups gives the sum over everything. */
  lemma {:induction false} SumByParts(s: set<nat>, f: map<nat, Cnt>, key: map<nat, nat>,
                                      groups: set<nat>, sums: map<nat, Cnt>)
    requires s <= f.Keys && s <= key.Keys && groups <= sums.Keys
    requires forall k :: k in s ==> key[k] in groups
    requires forall g :: g in groups ==> sums[g] == Sum(Part(s, key, g), f)
    ensures Sum(groups, sums) == Sum(s, f)
  {
    if groups == {} {
      assert s == {};
    } else {
      var g :| g in groups;
      var inside := Part(s, key, g);
      SumTake(groups, sums, g);
      forall h | h in groups - {g} ensures sums[h] == Sum(Part(s - inside, key, h), f) {
        assert Part(s - inside, key, h) == Part(s, key, h);
      }
      SumByParts(s - inside, f, key, groups - {g}, sums);
      SumUnion(inside, s - inside, f);
      assert inside + (s - inside) == s;
    }
  }
}
