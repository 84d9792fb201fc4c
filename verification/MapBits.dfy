/**
 The words of the page map: how the size or page offset of a run, its bin and its flags are packed into the
 bits of one word, and that the getters read what the setters stored.
 */
module MapBits {
  import opened PageMap

  type Word = bv64

  // The lowest five bits are flags: allocated 0x01, large 0x02, decommitted 0x04, unzeroed 0x08, dirty 0x10;
  // then eight bits of bin index, 0x1fe0; and above them the size or offset in pages.

  // ---------------------------------------------------------------- the code, for pages of 4 KiB

  /** A number of pages in bytes. */
  function Bytes(n: Word): Word {
    n << 12
  }

  /** arena_mapbits_size_encode() and arena_mapbits_size_decode() */
  function SizeEncode(size: Word): Word {
    size << 1
  }

  function SizeDecode(w: Word): Word {
    (w & 0xffff_ffff_ffff_e000) >> 1
  }

  /** arena_mapbits_small_runind_get() and arena_mapbits_binind_get() */
  function RunindGet(w: Word): Word {
    w >> 13
  }

  function BinindGet(w: Word): Word {
    (w & 0x1fe0) >> 5
  }

  /** arena_mapbits_unallocated_set() */
  function UnallocatedSet(size: Word, flags: Word): Word {
    SizeEncode(size) | 0x1fe0 | flags
  }

  /** arena_mapbits_unallocated_size_set() */
  function UnallocatedSizeSet(w: Word, size: Word): Word {
    Resized(Rest(w), size)
  }

  /** A word without its size, and with another one. */
  function Rest(w: Word): Word {
    w & 0x1fff
  }

  function Resized(rest: Word, size: Word): Word {
    SizeEncode(size) | rest
  }

  /** arena_mapbits_large_set() */
  function LargeSet(size: Word, flags: Word): Word {
    SizeEncode(size) | 0x1fe0 | flags | 0x02 | 0x01
  }

  /** arena_mapbits_large_binind_set() */
  function LargeBinindSet(w: Word, binind: Word): Word {
    (w & 0xffff_ffff_ffff_e01f) | (binind << 5)
  }

  /** arena_mapbits_small_set() */
  function SmallSet(runind: Word, binind: Word, flags: Word): Word {
    (runind << 13) | (binind << 5) | flags | 0x01
  }

  // ---------------------------------------------------------------- the three parts of a word

  function Pack(n: Word, b: Word, f: Word): Word {
    (n << 13) | (b << 5) | f
  }

  lemma PackRunind(n: Word, b: Word, f: Word)
    requires n < 0x8_0000_0000_0000 && b < 0x100 && f < 0x20
    ensures RunindGet(Pack(n, b, f)) == n
  {
  }

  lemma PackBinind(n: Word, b: Word, f: Word)
    requires n < 0x8_0000_0000_0000 && b < 0x100 && f < 0x20
    ensures BinindGet(Pack(n, b, f)) == b
  {
  }

  lemma PackSize(n: Word, b: Word, f: Word)
    requires n < 0x8_0000_0000_0000 && b < 0x100 && f < 0x20
    ensures SizeDecode(Pack(n, b, f)) == Bytes(n)
  {
  }

  lemma PackFlag(n: Word, b: Word, f: Word, bit: Word)
    requires b < 0x100 && f < 0x20 && bit < 0x20
    ensures Pack(n, b, f) & bit == f & bit
  {
  }

  lemma UnallocatedPack(n: Word, flags: Word)
    requires n < 0x8_0000_0000_0000 && flags < 0x20
    ensures UnallocatedSet(Bytes(n), flags) == Pack(n, 0xff, flags)
  {
  }

  lemma LargePack(n: Word, flags: Word)
    requires n < 0x8_0000_0000_0000 && flags < 0x20
    ensures LargeSet(Bytes(n), flags) == Pack(n, 0xff, flags | 0x03)
  {
  }

  lemma SmallPack(n: Word, b: Word, flags: Word)
    requires n < 0x8_0000_0000_0000 && b < 0x100 && flags < 0x20
    ensures SmallSet(n, b, flags) == Pack(n, b, flags | 0x01)
  {
  }

  lemma RestPack(n: Word, b: Word, f: Word)
    requires b < 0x100 && f < 0x20
    ensures Rest(Pack(n, b, f)) == Pack(0, b, f)
  {
  }

  lemma ResizedPack(b: Word, f: Word, n: Word)
    requires n < 0x8_0000_0000_0000
    ensures Resized(Pack(0, b, f), Bytes(n)) == Pack(n, b, f)
  {
  }

  lemma ResizePack(n: Word, b: Word, f: Word, n': Word)
    requires b < 0x100 && f < 0x20 && n' < 0x8_0000_0000_0000
    ensures UnallocatedSizeSet(Pack(n, b, f), Bytes(n')) == Pack(n', b, f)
  {
    hide Rest, Resized, Pack, Bytes;
    RestPack(n, b, f);
    ResizedPack(b, f, n');
  }

  lemma RebinPack(n: Word, b: Word, f: Word, b': Word)
    requires n < 0x8_0000_0000_0000 && b < 0x100 && f < 0x20 && b' < 0x100
    ensures LargeBinindSet(Pack(n, b, f), b') == Pack(n, b', f)
  {
  }

  // ---------------------------------------------------------------- what the getters see

  /** The entry that a word stands for: with the size in pages, or the page offset of a small run. */
  function Meaning(w: Word): Entry {
    Entry(Flag(w, 0x01), Flag(w, 0x02), Flag(w, 0x10), Flag(w, 0x04), Flag(w, 0x08), BinindGet(w) as nat,
          RunindGet(w) as nat)
  }

  function Flag(w: Word, bit: Word): bool {
    w & bit != 0
  }

  lemma MeaningPack(n: Word, b: Word, f: Word)
    requires n < 0x8_0000_0000_0000 && b < 0x100 && f < 0x20
    ensures Meaning(Pack(n, b, f)) ==
            Entry(Flag(f, 0x01), Flag(f, 0x02), Flag(f, 0x10), Flag(f, 0x04), Flag(f, 0x08), b as nat, n as nat)
  {
    hide Pack, RunindGet, BinindGet;
    PackRunind(n, b, f);
    PackBinind(n, b, f);
    PackFlag(n, b, f, 0x01);
    PackFlag(n, b, f, 0x02);
    PackFlag(n, b, f, 0x04);
    PackFlag(n, b, f, 0x08);
    PackFlag(n, b, f, 0x10);
  }

  /** The flags that the setters for free and large runs accept. */
  predicate IsFlags(flags: Word) {
    flags & 0x1c == flags
  }

  lemma FreeFlags(flags: Word)
    requires IsFlags(flags)
    ensures flags < 0x20 && !Flag(flags, 0x01) && !Flag(flags, 0x02)
  {
  }

  lemma LargeFlags(flags: Word)
    requires IsFlags(flags)
    ensures flags < 0x20 && flags | 0x03 < 0x20 && Flag(flags | 0x03, 0x01) && Flag(flags | 0x03, 0x02)
    ensures Flag(flags | 0x03, 0x10) == Flag(flags, 0x10) && Flag(flags | 0x03, 0x08) == Flag(flags, 0x08)
    ensures Flag(flags | 0x03, 0x04) == Flag(flags, 0x04)
  {
  }

  lemma SmallFlags(flags: Word)
    requires flags & 0x08 == flags
    ensures flags < 0x20 && flags | 0x01 < 0x20 && Flag(flags | 0x01, 0x01) && !Flag(flags | 0x01, 0x02)
    ensures !Flag(flags | 0x01, 0x10) && !Flag(flags | 0x01, 0x04) && Flag(flags | 0x01, 0x08) == Flag(flags, 0x08)
  {
  }

  /** A stored free run is read back. */
  lemma UnallocatedMeans(n: Word, flags: Word)
    requires n < 0x8_0000_0000_0000 && IsFlags(flags)
    ensures Meaning(UnallocatedSet(Bytes(n), flags)) ==
            Unallocated(n as nat, Flag(flags, 0x10), Flag(flags, 0x04), Flag(flags, 0x08))
    ensures SizeDecode(UnallocatedSet(Bytes(n), flags)) == Bytes(n)
  {
    hide Pack, UnallocatedSet, Bytes, SizeDecode, Flag, Meaning;
    FreeFlags(flags);
    UnallocatedPack(n, flags);
    PackSize(n, 0xff, flags);
    MeaningPack(n, 0xff, flags);
  }

  /** A stored large run is read back. */
  lemma LargeMeans(n: Word, flags: Word)
    requires n < 0x8_0000_0000_0000 && IsFlags(flags)
    ensures Meaning(LargeSet(Bytes(n), flags)) ==
            LargeEntry(n as nat, Flag(flags, 0x10), Flag(flags, 0x08)).(decommitted := Flag(flags, 0x04))
    ensures SizeDecode(LargeSet(Bytes(n), flags)) == Bytes(n)
  {
    hide Pack, LargeSet, Bytes, SizeDecode, Flag, Meaning;
    LargeFlags(flags);
    var f := flags | 0x03;
    LargePack(n, flags);
    PackSize(n, 0xff, f);
    MeaningPack(n, 0xff, f);
  }

  /** A stored page of a small run is read back. */
  lemma SmallMeans(n: Word, b: Word, flags: Word)
    requires n < 0x8_0000_0000_0000 && b < 0xff && flags & 0x08 == flags
    ensures Meaning(SmallSet(n, b, flags)) == SmallEntry(n as nat, b as nat, Flag(flags, 0x08))
  {
    hide Pack, SmallSet, Flag, Meaning;
    SmallFlags(flags);
    SmallPack(n, b, flags);
    MeaningPack(n, b, flags | 0x01);
  }

  /** Every word has the three parts, so what is true of packed words is true of all. */
  lemma EveryWord(w: Word)
    ensures w == Pack(RunindGet(w), BinindGet(w), Low(w))
    ensures RunindGet(w) < 0x8_0000_0000_0000 && BinindGet(w) < 0x100 && Low(w) < 0x20
  {
  }

  function Low(w: Word): Word {
    w & 0x1f
  }

  /** The new size is the only change. */
  lemma ResizeMeans(w: Word, n: Word)
    requires n < 0x8_0000_0000_0000
    ensures Meaning(UnallocatedSizeSet(w, Bytes(n))) == Meaning(w).(size := n as nat)
  {
    hide Pack, UnallocatedSizeSet, Bytes, Flag, Meaning, RunindGet, BinindGet, Low;
    EveryWord(w);
    var n0, b, f := RunindGet(w), BinindGet(w), Low(w);
    ResizePack(n0, b, f, n);
    MeaningPack(n0, b, f);
    MeaningPack(n, b, f);
  }

  /** The new bin is the only change. */
  lemma RebinMeans(w: Word, b: Word)
    requires b < 0x100
    ensures Meaning(LargeBinindSet(w, b)) == Meaning(w).(binind := b as nat)
  {
    hide Pack, LargeBinindSet, Flag, Meaning, RunindGet, BinindGet, Low;
    EveryWord(w);
    var n0, b0, f := RunindGet(w), BinindGet(w), Low(w);
    RebinPack(n0, b0, f, b);
    MeaningPack(n0, b0, f);
    MeaningPack(n0, b, f);
  }
}
