/**
 The byte buffer: a list of blocks that are filled at the end and read at the front, and that go back to
 a shared pool when they are used up.
 */
module Buf {
  import opened LineScan

  const ATM_BLK_DFT_LEN: nat := 65536
  const ATM_BLK_POOL_THRESHOLD: nat := 64

  class Blk {
    const head: array<Byte>
    var ridx: nat
    var widx: nat

    ghost predicate Valid()
      reads this
    {
      head.Length == ATM_BLK_DFT_LEN && ridx <= widx <= ATM_BLK_DFT_LEN
    }

    /** atm_blk_new_raw() */
    constructor ()
      ensures Valid() && ridx == 0 == widx && fresh(head)
    {
      head := new Byte[ATM_BLK_DFT_LEN](i => 0);
      ridx, widx := 0, 0;
    }

    /** The bytes that were written and not read. */
    ghost function Unread(): seq<Byte>
      reads this, head
      requires Valid()
    {
      head[ridx..widx]
    }

    /** Bytes copied behind what is held. */
    method Fill(src: array<Byte>, at: nat, l: nat)
      requires Valid() && widx + l <= ATM_BLK_DFT_LEN && src != head && at + l <= src.Length
      modifies this`widx, head
      ensures Valid() && ridx == old(ridx) && widx == old(widx) + l
      ensures Unread() == old(Unread()) + src[at..at + l]
    {
      forall k | 0 <= k < l {
        head[widx + k] := src[at + k];
      }
      assert head[ridx..widx] == old(head[ridx..widx]);
      assert head[widx..widx + l] == src[at..at + l];
      assert head[ridx..widx + l] == head[ridx..widx] + head[widx..widx + l];
      widx := widx + l;
    }
  }

  /** No block, and no array of one, is there twice. */
  ghost predicate Distinct(bs: seq<Blk>) {
    forall i, j :: 0 <= i < j < |bs| ==> bs[i] != bs[j] && bs[i].head != bs[j].head
  }

  /** The blocks and their arrays belong to `repr`. */
  ghost predicate Owned(bs: seq<Blk>, repr: set<object>) {
    forall i :: 0 <= i < |bs| ==> bs[i] in repr && bs[i].head in repr
  }

  /** Only the last block has room, and only the first one was read from. */
  ghost predicate Queued(bs: seq<Blk>)
    reads bs
  {
    && (forall i :: 0 <= i < |bs| ==> bs[i].Valid())
    && (forall i :: 0 <= i < |bs| - 1 ==> bs[i].widx == ATM_BLK_DFT_LEN)
    && (forall i :: 0 < i < |bs| ==> bs[i].ridx == 0)
  }

  /** What the blocks hold that was not read. */
  ghost predicate Hold(bs: seq<Blk>, parts: seq<seq<Byte>>)
    reads bs, set b: Blk | b in bs :: b.head
    requires Queued(bs)
  {
    |parts| == |bs| && forall i :: 0 <= i < |bs| ==> parts[i] == bs[i].Unread()
  }

  ghost predicate Clean(bs: seq<Blk>)
    reads bs
  {
    forall i :: 0 <= i < |bs| ==> bs[i].Valid() && bs[i].widx == 0
  }

  lemma TakeFirst(bs: seq<Blk>, ps: seq<Blk>)
    requires bs != [] && Distinct(bs + ps)
    ensures Distinct(bs[1..] + (ps + [bs[0]])) && Distinct(bs[1..] + ps) && bs[0] !in bs[1..] && bs[0] !in ps
    ensures forall i :: 0 <= i < |bs[1..]| ==> bs[1..][i].head != bs[0].head
    ensures forall i :: 0 <= i < |ps| ==> ps[i].head != bs[0].head
  {
    var all := bs + ps;
    var x, y := bs[1..] + (ps + [bs[0]]), bs[1..] + ps;
    assert all[0] == bs[0] && all[1..] == y && x == y + [bs[0]];
    assert bs[0] !in y;
    assert bs[0] !in bs[1..] && bs[0] !in ps;
    forall i | 0 <= i < |bs[1..]| ensures bs[1..][i].head != bs[0].head {
      assert bs[1..][i] == all[i + 1];
    }
    forall i | 0 <= i < |ps| ensures ps[i].head != bs[0].head {
      assert ps[i] == all[i + |bs|];
    }
  }

  /** A block from the pool, or a new one, at the end of the list. */
  lemma TakeOver(bs: seq<Blk>, ps: seq<Blk>, r: Blk, ps': seq<Blk>, repr: set<object>)
    requires Distinct(bs + ps) && Owned(bs, repr) && Owned(ps, repr)
    requires if ps == [] then ps' == [] && r !in repr && r.head !in repr else [r] + ps' == ps
    ensures Distinct((bs + [r]) + ps') && r !in bs
    ensures ps != [] ==> r in repr && r.head in repr
    ensures Owned(bs + [r], repr + {r, r.head}) && Owned(ps', repr + {r, r.head})
  {
    if ps == [] {
      assert (bs + [r]) + ps' == bs + [r] && bs + ps == bs;
    } else {
      assert (bs + [r]) + ps' == bs + ps && ps[0] == r && ps' == ps[1..];
      var all := bs + ps;
      assert all[|bs|] == r && forall i :: 0 <= i < |bs| ==> all[i] == bs[i];
    }
  }

  /** A block of the list is none of the others. */
  lemma OthersApart(bs: seq<Blk>, ps: seq<Blk>, k: nat)
    requires Distinct(bs + ps) && k < |bs|
    ensures forall i :: 0 <= i < |bs| && i != k ==> bs[i] != bs[k] && bs[i].head != bs[k].head
    ensures forall i :: 0 <= i < |ps| ==> ps[i] != bs[k] && ps[i].head != bs[k].head
  {
    var all := bs + ps;
    assert all[k] == bs[k];
    forall i | 0 <= i < |bs| && i != k ensures bs[i] != bs[k] && bs[i].head != bs[k].head {
      assert all[i] == bs[i];
    }
    forall i | 0 <= i < |ps| ensures ps[i] != bs[k] && ps[i].head != bs[k].head {
      assert all[|bs| + i] == ps[i];
    }
  }

  /** A chunk copied behind those that were copied. */
  lemma Spliced(all: seq<Byte>, orig: seq<Byte>, t: nat, l: nat)
    requires t + l <= |all| && t + l <= |orig|
    ensures var d := all[..t] + orig[t..];
            d[..t] + all[t..][..l] + d[t + l..] == all[..t + l] + orig[t + l..]
  {
  }

  /** The pool of used blocks. */
  class Pool {
    var blks: seq<Blk>

    constructor ()
      ensures blks == []
    {
      blks := [];
    }

    /** atm_blk_pool_release(): the block is reset, and kept unless the pool is full. */
    method Release(b: Blk)
      requires Clean(blks) && b !in blks && b.Valid()
      modifies this, b`ridx, b`widx
      ensures Clean(blks) && b.Valid() && b.ridx == 0 == b.widx
      ensures blks == if |old(blks)| < ATM_BLK_POOL_THRESHOLD then old(blks) + [b] else old(blks)
    {
      b.ridx, b.widx := 0, 0;
      if |blks| < ATM_BLK_POOL_THRESHOLD {
        blks := blks + [b];
      }
    }

    /** atm_blk_new(): a block from the pool, or a new one. */
    method Fetch() returns (b: Blk)
      requires Clean(blks)
      modifies this
      ensures Clean(blks) && b.Valid() && b.ridx == 0 == b.widx
      ensures if old(blks) == [] then blks == [] && fresh(b) && fresh(b.head) else [b] + blks == old(blks)
    {
      if blks != [] {
        b := blks[0];
        blks := blks[1..];
      } else {
        b := new Blk();
      }
    }
  }

  class Buffer {
    const pool: Pool
    var blks: seq<Blk>
    var aval: int
    /** The unread bytes, block by block, and everything that the buffer may change. */
    ghost var parts: seq<seq<Byte>>
    ghost var repr: set<object>

    ghost predicate Valid()
      reads this, pool, blks, pool.blks, set b: Blk | b in blks :: b.head
    {
      && this in repr && pool in repr && Owned(blks, repr) && Owned(pool.blks, repr)
      && Distinct(blks + pool.blks) && Queued(blks) && Clean(pool.blks) && Hold(blks, parts)
      && aval == |Contents()|
    }

    /** The bytes that were written and not read yet. */
    ghost function Contents(): seq<Byte>
      reads this
    {
      Flatten(parts)
    }

    constructor (pool: Pool, ghost own: set<object>)
      requires Distinct(pool.blks) && Clean(pool.blks) && Owned(pool.blks, own)
      ensures Valid() && Contents() == [] && this.pool == pool
    {
      this.pool := pool;
      blks, aval, parts := [], 0, [];
      new;
      repr := {this, pool} + own;
      assert blks + pool.blks == pool.blks;
    }

    /** The first block was read to its end: it is recycled. */
    method Recycle()
      requires Valid() && blks != [] && blks[0].ridx == blks[0].widx == ATM_BLK_DFT_LEN
      modifies repr
      ensures Valid() && repr == old(repr) && Contents() == old(Contents())
      ensures blks == old(blks)[1..] && (blks != [] ==> blks[0].ridx == 0)
    {
      hide Flatten;
      var bk := blks[0];
      TakeFirst(blks, pool.blks);
      FlattenPop(parts);
      blks, parts := blks[1..], parts[1..];
      pool.Release(bk);
    }

    /** atm_buf_get_rblk(): the block to read from, after one that is used up was recycled. */
    method GetRblk() returns (r: Blk?)
      requires Valid()
      modifies repr
      ensures Valid() && Contents() == old(Contents()) && repr == old(repr)
      ensures r == null ==> Contents() == []
      ensures r != null ==> blks != [] && r == blks[0] && r.ridx < r.widx
    {
      if blks == [] {
        return null;
      }
      if blks[0].ridx == blks[0].widx == ATM_BLK_DFT_LEN {
        Recycle();
        if blks == [] {
          return null;
        }
      }
      if blks[0].ridx < blks[0].widx {
        return blks[0];
      }
      assert |blks| == 1 && parts[0] == [] && parts[1..] == [];
      FlattenPop(parts);
      return null;
    }

    /** atm_buf_get_wblk(): the block to write to, a fresh one when the last has no room. */
    method GetWblk() returns (r: Blk)
      requires Valid()
      modifies repr
      ensures Valid() && Contents() == old(Contents()) && fresh(repr - old(repr)) && old(repr) <= repr
      ensures blks != [] && r == blks[|blks| - 1] && r.widx < ATM_BLK_DFT_LEN
      ensures this in repr && r in repr && r.head in repr
    {
      hide Flatten;
      if blks != [] && blks[|blks| - 1].widx < ATM_BLK_DFT_LEN {
        return blks[|blks| - 1];
      }
      ghost var before, ps := blks, pool.blks;
      r := pool.Fetch();
      TakeOver(before, ps, r, pool.blks, repr);
      FlattenAppend(parts, []);
      blks, parts := blks + [r], parts + [[]];
      repr := repr + {r, r.head};
      assert r.Unread() == [];
    }

    /** The bytes that a read took from the first block. */
    method Consume(bk: Blk, l: nat)
      requires Valid() && blks != [] && bk == blks[0] && l <= bk.widx - bk.ridx
      modifies bk`ridx, this`aval, this`parts
      ensures Valid() && Contents() == old(Contents())[l..] && l <= |old(Contents())|
    {
      hide Flatten;
      FlattenDrop(parts, l);
      OthersApart(blks, pool.blks, 0);
      bk.ridx := bk.ridx + l;
      aval := aval - l;
      parts := parts[0 := parts[0][l..]];
    }

    /** The bytes that a write puts into the last block. */
    method Produce(bk: Blk, src: array<Byte>, at: nat, l: nat)
      requires Valid() && blks != [] && bk == blks[|blks| - 1] && bk.widx + l <= ATM_BLK_DFT_LEN
      requires src !in repr && at + l <= src.Length
      modifies bk`widx, bk.head, this`aval, this`parts
      ensures Valid() && Contents() == old(Contents()) + src[at..at + l]
    {
      hide Flatten, Distinct;
      var n := |blks| - 1;
      ghost var data := src[at..at + l];
      FlattenGrow(parts, data);
      OthersApart(blks, pool.blks, n);
      bk.Fill(src, at, l);
      aval := aval + l;
      parts := parts[n := parts[n] + data];
    }

    /** atm_buf_read(): the oldest unread bytes, in order, as many as asked for or as there are. */
    method Read(dest: array<Byte>, nbyte: nat) returns (total: nat)
      requires Valid() && dest !in repr && nbyte <= dest.Length
      modifies repr, dest
      ensures Valid() && repr == old(repr)
      ensures total == if nbyte <= |old(Contents())| then nbyte else |old(Contents())|
      ensures dest[..] == old(Contents())[..total] + old(dest[..])[total..]
      ensures Contents() == old(Contents())[total..]
    {
      hide *;
      total := 0;
      var rmn: nat := nbyte;
      ghost var all, orig := Contents(), dest[..];
      while true
        invariant Valid() && repr == old(repr) && total + rmn == nbyte && total <= |all|
        invariant Contents() == all[total..] && dest[..] == all[..total] + orig[total..]
        decreases rmn
      {
        var bk := GetRblk();
        if bk == null {
          break;
        }
        var ri := bk.ridx;
        FirstBlock();
        var avl := bk.widx - bk.ridx;
        var l := if avl < rmn then avl else rmn;
        CopyOut(bk, dest, total, ri, l);
        Consume(bk, l);
        Spliced(all, orig, total, l);
        total, rmn := total + l, rmn - l;
        if rmn == 0 {
          break;
        }
      }
    }

    /** What the first block holds is what comes first. */
    lemma FirstBlock()
      requires Valid() && blks != []
      ensures blks[0] in repr && blks[0].head in repr && blks[0].Valid()
      ensures blks[0].Unread() <= Contents()
    {
    }

    method CopyOut(bk: Blk, dest: array<Byte>, at: nat, ri: nat, l: nat)
      requires Valid() && blks != [] && bk == blks[0] && ri == bk.ridx && l <= bk.widx - ri
      requires dest !in repr && at + l <= dest.Length
      modifies dest
      ensures Valid() && l <= |Contents()|
      ensures dest[..] == old(dest[..])[..at] + Contents()[..l] + old(dest[..])[at + l..]
    {
      hide Flatten;
      FlattenDrop(parts, l);
      assert parts[0][..l] == bk.head[ri..ri + l];
      forall k | 0 <= k < l {
        dest[at + k] := bk.head[ri + k];
      }
    }

    /** atm_buf_write(): all bytes are queued, in order. */
    method Write(src: array<Byte>, nbyte: nat) returns (total: nat)
      requires Valid() && src !in repr && nbyte <= src.Length
      modifies repr
      ensures Valid() && fresh(repr - old(repr)) && total == nbyte
      ensures Contents() == old(Contents()) + src[..nbyte] && src[..] == old(src[..])
    {
      hide *;
      total := 0;
      var rmn: nat := nbyte;
      ghost var all := Contents();
      while true
        invariant Valid() && fresh(repr - old(repr)) && src !in repr && src[..] == old(src[..])
        invariant total + rmn == nbyte && Contents() == all + src[..total]
        decreases rmn
      {
        var bk := GetWblk();
        var avl := ATM_BLK_DFT_LEN - bk.widx;
        var l := if avl < rmn then avl else rmn;
        Produce(bk, src, total, l);
        assert src[..total] + src[total..total + l] == src[..total + l];
        total, rmn := total + l, rmn - l;
        if rmn == 0 {
          break;
        }
      }
    }

    /** The inner loop of atm_buf_read_line(), over the unread bytes of one block. */
    method ScanBlock(k: nat, st0: Scan, ghost done: seq<Byte>) returns (st: Scan)
      requires Valid() && k < |blks| && st0 == FeedAll(BEGIN, done) && !st0.stopped
      ensures !st.stopped ==> st == FeedAll(BEGIN, done + parts[k])
      ensures st.stopped ==> exists j :: 0 <= j <= |parts[k]| && st == FeedAll(BEGIN, done + parts[k][..j])
    {
      hide Feed, FeedAll;
      var bk := blks[k];
      ghost var part := parts[k];
      assert part == bk.Unread() && bk.Valid();
      hide Valid;
      st := st0;
      assert done + part[..0] == done;
      for i := bk.ridx to bk.widx
        invariant !st.stopped && st == FeedAll(BEGIN, done + part[..i - bk.ridx])
      {
        var b := bk.head[i];
        ghost var j := i - bk.ridx;
        FeedNext(BEGIN, done + part[..j], b);
        assert done + part[..j + 1] == (done + part[..j]) + [b];
        st := Feed(st, b);
        if st.stopped {
          return;
        }
      }
      assert part[..|part|] == part;
    }

    /** The scan of atm_buf_read_line() over the blocks. */
    method ScanLine() returns (st: Scan)
      requires Valid()
      ensures st == FeedAll(BEGIN, Contents())
    {
      hide Feed, FeedAll, Flatten;
      assert |parts| == |blks|;
      st := BEGIN;
      NothingFed();
      assert parts[..0] == [];
      for k := 0 to |blks|
        invariant st == FeedAll(BEGIN, Flatten(parts[..k])) && !st.stopped
      {
        ghost var done := Flatten(parts[..k]);
        FlattenPrefix(parts, k);
        st := ScanBlock(k, st, done);
        if st.stopped {
          ghost var j :| 0 <= j <= |parts[k]| && st == FeedAll(BEGIN, done + parts[k][..j]);
          ghost var rest := parts[k][j..] + Flatten(parts[k + 1..]);
          FeedStopped(done + parts[k][..j], rest);
          assert Contents() == (done + parts[k][..j]) + rest;
          return;
        }
      }
      assert parts[..|blks|] == parts;
    }

    /** atm_buf_read_line(): the bytes before the first CR, LF or NUL, taken away together with the whole
        run of such bytes that is there; without one, nothing is taken. */
    method ReadLine() returns (found: bool, line: seq<Byte>)
      requires Valid()
      modifies repr
      ensures Valid() && repr == old(repr)
      ensures found <==> exists i :: 0 <= i < |old(Contents())| && IsNewline(old(Contents())[i])
      ensures !found ==> Contents() == old(Contents()) && line == []
      ensures found ==>
                exists len: nat :: LineAt(old(Contents()), |line|, len) && line == old(Contents())[..|line|]
                              && Contents() == old(Contents())[len..]
    {
      hide Valid, Feed, FeedAll;
      ghost var all := Contents();
      var st := ScanLine();
      ScanFinds(all);
      if st.len == 0 || !st.found {
        return false, [];
      }
      assert IsNewline(all[st.strlen]);
      var res := new Byte[st.len + 1](i => 0);
      NotMine(res);
      var n := Read(res, st.len);
      assert res[..][..st.strlen] == all[..st.strlen];
      return true, res[..st.strlen];
    }

    /** A new array is not part of the buffer. */
    twostate lemma NotMine(new res: array<Byte>)
      requires old(Valid()) && fresh(res) && repr == old(repr)
      ensures res !in repr
    {
    }
  }
}
