/** Flat views of chunked bytes, and where a line ends in them. */
module LineScan {

  type Byte = b: nat | b < 256

  const CR: Byte := 13
  const LF: Byte := 10

  /** strchr("\r\n", b): the terminator of the string itself is found too. */
  predicate IsNewline(b: Byte) {
    b == CR || b == LF || b == 0
  }

  // ---------------------------------------------------------------- chunks

  function Flatten(parts: seq<seq<Byte>>): seq<Byte> {
    if parts == [] then [] else parts[0] + Flatten(parts[1..])
  }

  lemma {:induction false} FlattenAppend(parts: seq<seq<Byte>>, x: seq<Byte>)
    ensures Flatten(parts + [x]) == Flatten(parts) + x
  {
    if parts == [] {
      assert parts + [x] == [x] && [x][1..] == [];
    } else {
      assert (parts + [x])[1..] == parts[1..] + [x];
      FlattenAppend(parts[1..], x);
    }
  }

  /** The last chunk grows. */
  lemma FlattenGrow(parts: seq<seq<Byte>>, x: seq<Byte>)
    requires parts != []
    ensures var n := |parts| - 1;
            Flatten(parts[n := parts[n] + x]) == Flatten(parts) + x
  {
    var n := |parts| - 1;
    FlattenAppend(parts[..n], parts[n]);
    FlattenAppend(parts[..n], parts[n] + x);
    assert parts == parts[..n] + [parts[n]];
    assert parts[n := parts[n] + x] == parts[..n] + [parts[n] + x];
  }

  /** The first chunk loses its first bytes. */
  lemma FlattenDrop(parts: seq<seq<Byte>>, l: nat)
    requires parts != [] && l <= |parts[0]|
    ensures Flatten(parts[0 := parts[0][l..]]) == Flatten(parts)[l..]
    ensures l <= |Flatten(parts)| && parts[0][..l] == Flatten(parts)[..l]
  {
    assert parts[0 := parts[0][l..]][1..] == parts[1..];
  }

  /** An empty first chunk goes. */
  lemma FlattenPop(parts: seq<seq<Byte>>)
    requires parts != [] && parts[0] == []
    ensures Flatten(parts[1..]) == Flatten(parts)
  {
  }

  /** The chunks up to one, and from it on. */
  lemma {:induction false} FlattenPrefix(parts: seq<seq<Byte>>, k: nat)
    requires k < |parts|
    ensures Flatten(parts[..k + 1]) == Flatten(parts[..k]) + parts[k]
    ensures Flatten(parts) == Flatten(parts[..k]) + parts[k] + Flatten(parts[k + 1..])
    decreases |parts| - k
  {
    FlattenAppend(parts[..k], parts[k]);
    assert parts[..k + 1] == parts[..k] + [parts[k]];
    if k + 1 < |parts| {
      FlattenPrefix(parts, k + 1);
      assert parts[k + 1..][0] == parts[k + 1] && parts[k + 1..][1..] == parts[k + 2..];
    } else {
      assert parts[..k + 1] == parts;
    }
  }

  // ---------------------------------------------------------------- lines

  /** The state of the loop over the bytes: the line so far, the terminators so far, and whether a byte
      of the next line was met. */
  datatype Scan = Scan(strlen: nat, len: nat, found: bool, stopped: bool)

  const BEGIN := Scan(0, 0, false, false)

  function Feed(st: Scan, b: Byte): Scan {
    if st.stopped then st
    else if !st.found then
      if IsNewline(b) then st.(found := true, len := st.len + 1)
      else st.(strlen := st.strlen + 1, len := st.len + 1)
    else if IsNewline(b) then st.(len := st.len + 1)
    else st.(stopped := true)
  }

  function FeedAll(st: Scan, s: seq<Byte>): Scan {
    if s == [] then st else Feed(FeedAll(st, s[..|s| - 1]), s[|s| - 1])
  }

  lemma NothingFed()
    ensures FeedAll(BEGIN, Flatten([])) == BEGIN
  {
  }

  lemma FeedNext(st: Scan, s: seq<Byte>, b: Byte)
    ensures FeedAll(st, s + [b]) == Feed(FeedAll(st, s), b)
  {
    assert (s + [b])[..|s|] == s;
  }

  lemma {:induction false} FeedStopped(s: seq<Byte>, t: seq<Byte>)
    requires FeedAll(BEGIN, s).stopped
    ensures FeedAll(BEGIN, s + t) == FeedAll(BEGIN, s)
    decreases |t|
  {
    if t == [] {
      assert s + t == s;
    } else {
      var n := |t| - 1;
      FeedStopped(s, t[..n]);
      assert s + t == (s + t[..n]) + [t[n]];
      FeedNext(BEGIN, s + t[..n], t[n]);
    }
  }

  /** `s` has a line of `strlen` bytes, with its terminators `len` bytes. */
  ghost predicate LineAt(s: seq<Byte>, strlen: nat, len: nat) {
    && strlen < len <= |s| && (forall i :: 0 <= i < strlen ==> !IsNewline(s[i]))
    && (forall i :: strlen <= i < len ==> IsNewline(s[i]))
    && (len < |s| ==> !IsNewline(s[len]))
  }

  /** What the scan has found in `s` so far. */
  lemma {:induction false} ScanFinds(s: seq<Byte>)
    ensures var st := FeedAll(BEGIN, s);
            && (if st.found then LineAt(s, st.strlen, st.len) else forall i :: 0 <= i < |s| ==> !IsNewline(s[i]))
            && (!st.found ==> !st.stopped && st.len == st.strlen == |s|)
            && (st.found ==> (st.stopped <==> st.len < |s|))
  {
    if s != [] {
      ScanFinds(s[..|s| - 1]);
    }
  }

  /** There is at most one way to cut the first line off. */
  lemma LineUnique(s: seq<Byte>, a: nat, b: nat, c: nat, d: nat)
    requires LineAt(s, a, b) && LineAt(s, c, d)
    ensures a == c && b == d
  {
    assert IsNewline(s[a]) && IsNewline(s[c]);
  }
}
