/** The doubly linked list that buckets and buffers are made of, as a sequence. */
module LinkedList {
  import opened Wrappers

  class Entry {
    const val: nat
    var prev: Entry?
    var next: Entry?

    /** atm_list_entry_new() */
    constructor (val: nat)
      ensures this.val == val && prev == null == next
    {
      this.val := val;
      prev, next := null, null;
    }
  }

  /** What `match` of a value type answers for a value and a hint. */
  type Match = (nat, nat) -> bool

  /** The entry before and after a place in the chain. */
  ghost function Before(es: seq<Entry>, i: nat): Entry?
    requires i < |es|
  {
    if i > 0 then es[i - 1] else null
  }

  ghost function After(es: seq<Entry>, i: nat): Entry?
    requires i < |es|
  {
    if i + 1 < |es| then es[i + 1] else null
  }

  ghost predicate Distinct(es: seq<Entry>) {
    forall i, j :: 0 <= i < j < |es| ==> es[i] != es[j]
  }

  ghost predicate Linked(es: seq<Entry>)
    reads es
  {
    forall i {:trigger es[i].prev} {:trigger es[i].next} :: 0 <= i < |es| ==>
      es[i].prev == Before(es, i) && es[i].next == After(es, i)
  }

  ghost function Without(s: seq<Entry>, k: nat): seq<Entry>
    requires k < |s|
  {
    s[..k] + s[k + 1..]
  }

  ghost function With(s: seq<Entry>, x: Entry): seq<Entry> {
    s + [x]
  }

  /** The values without the one at `k`. */
  function Dropped(s: seq<nat>, k: nat): seq<nat>
    requires k < |s|
  {
    s[..k] + s[k + 1..]
  }

  /** Where an entry of the chain without the one at `k` was. */
  ghost function Was(k: nat, i: nat): nat {
    if i < k then i else i + 1
  }

  /** In the chain without its entry at `k` only the neighbours of that entry get new neighbours. */
  lemma RemovedAt(es: seq<Entry>, k: nat, i: nat)
    requires Distinct(es) && k < |es| && i < |es| - 1
    ensures var r, j := Without(es, k), Was(k, i);
            && |r| == |es| - 1 && j < |es| && r[i] == es[j] && es[j] != es[k]
            && Before(r, i) == (if i == k then Before(es, k) else Before(es, j))
            && After(r, i) == (if i + 1 == k then After(es, k) else After(es, j))
            && (es[j] == Before(es, k) <==> i + 1 == k) && (es[j] == After(es, k) <==> i == k)
  {
  }

  lemma RemovedIs(es: seq<Entry>, k: nat)
    requires Distinct(es) && k < |es|
    ensures var r := Without(es, k);
            && |r| == |es| - 1 && Distinct(r)
            && (Before(es, k) == null <==> k == 0) && (After(es, k) == null <==> k == |es| - 1)
            && (r != [] ==> r[0] == (if k == 0 then es[1] else es[0]))
            && (r != [] ==> r[|r| - 1] == (if k == |r| then es[|r| - 1] else es[|r|]))
            && (Before(es, k) != null ==> Before(es, k) != After(es, k))
            && (k > 0 ==> Before(es, k) == es[k - 1]) && (k + 1 < |es| ==> After(es, k) == es[k + 1])
  {
  }

  lemma RemovedOut(es: seq<Entry>, k: nat)
    requires Distinct(es) && k < |es|
    ensures es[k] !in Without(es, k)
  {
  }

  /** The chain passes by its entry at `k`. */
  ghost predicate Passed(es: seq<Entry>, k: nat)
    reads es
    requires k < |es|
  {
    forall i {:trigger es[i].prev} {:trigger es[i].next} :: 0 <= i < |es| && i != k ==>
      && es[i].prev == (if i == k + 1 then Before(es, k) else Before(es, i))
      && es[i].next == (if i + 1 == k then After(es, k) else After(es, i))
  }

  lemma LinkedPassing(es: seq<Entry>, k: nat)
    requires Distinct(es) && k < |es| && Passed(es, k)
    ensures Linked(Without(es, k))
  {
    var r := Without(es, k);
    RemovedIs(es, k);
    forall i: nat | i < |r| ensures r[i].prev == Before(r, i) && r[i].next == After(r, i) {
      RemovedAt(es, k, i);
    }
  }

  /** The neighbours of an entry are no other entries. */
  lemma Apart(es: seq<Entry>, k: nat)
    requires Distinct(es) && k < |es|
    ensures forall i :: 0 <= i < |es| ==> (es[i] == Before(es, k) <==> i + 1 == k) && (es[i] == After(es, k) <==> i == k + 1)
  {
  }

  /** The chain with an entry at its end. */
  lemma ExtendedAt(es: seq<Entry>, e: Entry, i: nat)
    requires Distinct(es) && e !in es && i <= |es|
    ensures var r := With(es, e);
            && |r| == |es| + 1 && r[i] == (if i == |es| then e else es[i])
            && (i < |es| ==> es[i] != e && Before(r, i) == Before(es, i) && (es[i] == es[|es| - 1] <==> i == |es| - 1))
            && (i < |es| ==> After(r, i) == (if i + 1 == |es| then e else After(es, i)))
            && (i == |es| ==> Before(r, i) == (if es == [] then null else es[|es| - 1]) && After(r, i) == null)
  {
  }

  lemma ExtendedIs(es: seq<Entry>, e: Entry)
    requires Distinct(es) && e !in es
    ensures var r := With(es, e);
            && Distinct(r) && |r| == |es| + 1 && r[|es|] == e && (es != [] ==> r[0] == es[0])
            && forall x :: x in r ==> x in es || x == e
  {
  }

  lemma ValsWithout(es: seq<Entry>, k: nat)
    requires k < |es|
    ensures Vals(Without(es, k)) == Dropped(Vals(es), k)
  {
  }

  lemma ValsWith(es: seq<Entry>, e: Entry)
    ensures Vals(With(es, e)) == Vals(es) + [e.val]
  {
  }

  ghost function Vals(es: seq<Entry>): (r: seq<nat>)
    ensures |r| == |es|
  {
    seq(|es|, i requires 0 <= i < |es| => es[i].val)
  }

  /** The place of the first match, or the length. */
  ghost function FirstMatch(m: Match, s: seq<nat>, hint: nat): (k: nat)
    ensures k <= |s| && forall i :: 0 <= i < k ==> !m(s[i], hint)
    ensures k < |s| ==> m(s[k], hint)
  {
    if s == [] || m(s[0], hint) then 0
    else
      assert forall i :: 0 <= i < |s| - 1 ==> s[1..][i] == s[i + 1];
      1 + FirstMatch(m, s[1..], hint)
  }

  lemma FirstMatchIs(m: Match, s: seq<nat>, hint: nat, k: nat)
    requires k <= |s| && (forall i :: 0 <= i < k ==> !m(s[i], hint)) && (k < |s| ==> m(s[k], hint))
    ensures FirstMatch(m, s, hint) == k
  {
  }

  class List {
    const matches: Match
    var head: Entry?
    var tail: Entry?
    var size: nat
    ghost var entries: seq<Entry>

    ghost predicate Valid()
      reads this, entries
    {
      && Distinct(entries) && Linked(entries) && size == |entries|
      && head == (if entries == [] then null else entries[0])
      && tail == (if entries == [] then null else entries[|entries| - 1])
    }

    ghost function Contents(): seq<nat>
      reads this
    {
      Vals(entries)
    }

    /** atm_list_new() */
    constructor (matches: Match)
      ensures Valid() && Contents() == [] && this.matches == matches && entries == []
    {
      this.matches := matches;
      head, tail, size, entries := null, null, 0, [];
    }

    /** The linking of a new entry behind the last one. */
    method Link(entry: Entry)
      requires entry.prev == null == entry.next && entry != tail && (tail == null <==> head == null)
      modifies this`head, this`tail, entry, tail
      ensures tail == entry && head == (if old(tail) == null then entry else old(head))
      ensures entry.prev == old(tail) && entry.next == null
      ensures old(tail) != null ==> old(tail).next == entry && old(tail).prev == old(tail.prev)
    {
      if tail == null {
        head, tail := entry, entry;
      } else {
        tail.next := entry;
        entry.prev := tail;
        tail := entry;
      }
    }

    /** atm_list_push() */
    method Push(val: nat)
      requires Valid()
      modifies this, entries
      ensures Valid() && Contents() == old(Contents()) + [val]
      ensures forall e :: e in entries ==> e in old(entries) || fresh(e)
    {
      var entry := new Entry(val);
      ghost var es := entries;
      ExtendedIs(es, entry);
      ValsWith(es, entry);
      hide Before, After, Distinct, With, Vals;
      Link(entry);
      size := size + 1;
      entries := With(es, entry);
      forall i: nat | i < |entries|
        ensures entries[i].prev == Before(entries, i) && entries[i].next == After(entries, i)
      {
        ExtendedAt(es, entry, i);
      }
    }

    /** atm_list_lpop() */
    method Lpop() returns (r: Option<nat>)
      requires Valid()
      modifies this, entries
      ensures Valid()
      ensures if old(Contents()) == [] then r == None && Contents() == []
              else r == Some(old(Contents())[0]) && Contents() == old(Contents())[1..]
    {
      if head == null {
        return None;
      }
      var res := head;
      r := Some(res.val);
      ValsWithout(entries, 0);
      assert Dropped(Vals(entries), 0) == Vals(entries)[1..];
      RemovedOut(entries, 0);
      hide Without, Vals, Distinct, Linked;
      Unlink(res, 0);
      Isolate(res);
    }

    /** atm_list_rpop() */
    method Rpop() returns (r: Option<nat>)
      requires Valid()
      modifies this, entries
      ensures Valid()
      ensures if old(Contents()) == [] then r == None && Contents() == []
              else r == Some(old(Contents())[|old(Contents())| - 1])
                   && Contents() == old(Contents())[..|old(Contents())| - 1]
    {
      if tail == null {
        return None;
      }
      var res := tail;
      r := Some(res.val);
      ghost var n := |entries| - 1;
      ValsWithout(entries, n);
      assert Dropped(Vals(entries), n) == Vals(entries)[..n];
      RemovedOut(entries, n);
      hide Without, Vals, Distinct, Linked;
      Unlink(res, n);
      Isolate(res);
    }

    /** atm_list_entry_isol(): the chain does not notice. */
    method Isolate(entry: Entry)
      requires Valid() && entry !in entries
      modifies entry
      ensures Valid()
    {
      entry.prev, entry.next := null, null;
    }

    /** atm_list_find_linear() */
    method FindEntry(hint: nat) returns (r: Entry?, ghost k: nat)
      requires Valid()
      ensures k == FirstMatch(matches, Contents(), hint)
      ensures if k < |entries| then r == entries[k] else r == null
    {
      r, k := head, 0;
      while r != null
        invariant k <= |entries| && r == (if k < |entries| then entries[k] else null)
        invariant forall i :: 0 <= i < k ==> !matches(entries[i].val, hint)
        decreases |entries| - k
      {
        if matches(r.val, hint) {
          break;
        }
        r, k := r.next, k + 1;
      }
      FirstMatchIs(matches, Contents(), hint, k);
    }

    /** atm_list_find() */
    method Find(hint: nat) returns (r: Option<nat>)
      requires Valid()
      ensures var k := FirstMatch(matches, Contents(), hint);
              r == if k < |Contents()| then Some(Contents()[k]) else None
    {
      var entry, k := FindEntry(hint);
      return if entry == null then None else Some(entry.val);
    }

    /** The four cases of atm_list_del(): the neighbours of an entry become neighbours. */
    method Relink(prev: Entry?, next: Entry?)
      requires prev == null || prev != next
      modifies this`head, this`tail, prev, next
      ensures head == (if prev == null then next else old(head)) && tail == (if next == null then prev else old(tail))
      ensures prev != null ==> prev.next == next && prev.prev == old(prev.prev)
      ensures next != null ==> next.prev == prev && next.next == old(next.next)
    {
      if prev == null && next == null {
        head, tail := null, null;
      } else if prev == null {
        next.prev := null;
        head := next;
      } else if next == null {
        prev.next := null;
        tail := prev;
      } else {
        prev.next := next;
        next.prev := prev;
      }
    }

    /** The chain passes by one of its entries. */
    method PassBy(curr: Entry, ghost k: nat)
      requires Distinct(entries) && Linked(entries) && k < |entries| && curr == entries[k]
      modifies this`head, this`tail, entries
      ensures Passed(entries, k)
      ensures head == if k == 0 then After(entries, k) else old(head)
      ensures tail == if k == |entries| - 1 then Before(entries, k) else old(tail)
    {
      RemovedIs(entries, k);
      Apart(entries, k);
      var prev, next := curr.prev, curr.next;
      hide Distinct, Without, Was, Before, After;
      Relink(prev, next);
    }

    /** An entry is taken out of the chain. */
    method Unlink(curr: Entry, ghost k: nat)
      requires Valid() && k < |entries| && curr == entries[k]
      modifies this, entries
      ensures Valid() && entries == Without(old(entries), k)
    {
      ghost var es := entries;
      RemovedIs(es, k);
      hide Distinct, Without, Was, Before, After, Passed, Linked;
      PassBy(curr, k);
      LinkedPassing(es, k);
      size := size - 1;
      entries := Without(es, k);
    }

    /** atm_list_del(): the first match goes, and nothing else. */
    method Del(hint: nat)
      requires Valid()
      modifies this, entries
      ensures Valid()
      ensures var k := FirstMatch(matches, old(Contents()), hint);
              Contents() == if k < |old(Contents())| then Dropped(old(Contents()), k) else old(Contents())
    {
      hide Distinct, Linked, FirstMatch, Without;
      var curr, k := FindEntry(hint);
      if curr != null {
        ValsWithout(entries, k);
        Unlink(curr, k);
      }
    }

    /** atm_list_iter_new() and atm_list_next(), to the end: every value once, in order. */
    method Walk() returns (vals: seq<nat>)
      requires Valid()
      ensures vals == Contents()
    {
      vals := [];
      var curr := head;
      while curr != null
        invariant |vals| <= |entries| && vals == Contents()[..|vals|]
        invariant curr == (if |vals| < |entries| then entries[|vals|] else null)
        decreases |entries| - |vals|
      {
        vals := vals + [curr.val];
        curr := curr.next;
      }
    }
  }
}
