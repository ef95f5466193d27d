/** Slab geometry: src/sizeclass.c and the interleaved map of include/nvalloc/internal/slab.h. */
module SizeClasses {

  const SLAB_SIZE := 65536
  const CACHELINE := 64
  const NBANKS := 6
  /** sizeof(slab_t): two 20-byte class descriptors and the morph counter, aligned to 4. */
  const SLAB_HEADER := 44

  /** struct sizeclass_s. */
  datatype SizeClass = SizeClass(
    moffset: nat,   // start of the metadata bits
    roffset: nat,   // start of slot 0
    nbits: nat,     // number of slots that fit entirely
    nBitmaps: nat,  // 64-bit words of the slot bitmap
    bitsize: nat,   // bytes per slot
    toffset: nat    // start of the table of old blocks; 0 until the slab is morphed
  )

  function RoundUp(n: nat, multiple: nat): nat {
    if multiple == 0 then n
    else if n % multiple == 0 then n
    else n + multiple - n % multiple
  }

  const HEAD_SIZE := RoundUp(SLAB_HEADER, CACHELINE)

  /** get_meta_size: bytes of the metadata area for nbits slots, in units of NBANKS cache lines. */
  function MetaSize(nbits: nat): nat {
    RoundUp((nbits + 7) / 8, CACHELINE * NBANKS)
  }

  function NumBitmaps(nbits: nat): nat {
    (nbits + 63) / 64
  }

  /** The metadata area is the least multiple of 384 bytes with a bit for every slot, and the bitmap has
      the least number of words. */
  lemma MetaSizeIs(nbits: nat)
    ensures MetaSize(nbits) % 384 == 0 && nbits <= 8 * MetaSize(nbits) < nbits + 8 * 384
    ensures nbits <= 64 * NumBitmaps(nbits) < nbits + 64
    ensures HEAD_SIZE == 64
  {
  }

  // ---------------------------------------------------------------------------------------
  // How many slots fit
  // ---------------------------------------------------------------------------------------

  /** Bytes used by nbits slots of a class cut by sizeclass_boot. */
  function BootTotal(bitsize: nat, nbits: nat): nat {
    nbits * bitsize + HEAD_SIZE + MetaSize(nbits)
  }

  /** Bytes used by nbits slots of a class re-cut by sizeclass_reset. */
  function ResetTotal(bitsize: nat, nbits: nat, metaSize: nat, tableSize: nat): nat {
    nbits * bitsize + HEAD_SIZE + metaSize + tableSize
  }

  /** sc is the class that sizeclass_boot makes for slots of sc.bitsize bytes. */
  ghost predicate IsBoot(sc: SizeClass) {
    && 0 < sc.bitsize
    && BootTotal(sc.bitsize, sc.nbits) <= SLAB_SIZE
    && (forall n :: n > sc.nbits ==> BootTotal(sc.bitsize, n) > SLAB_SIZE)
    && sc.moffset == HEAD_SIZE
    && sc.toffset == 0
    && sc.roffset == sc.moffset + MetaSize(sc.nbits)
    && sc.nBitmaps == NumBitmaps(sc.nbits)
  }

  /** sc is the class that sizeclass_reset makes from a boot class for a given table size. */
  ghost predicate IsReset(sc: SizeClass, metaSize: nat, tableSize: nat) {
    && 0 < sc.bitsize
    && ResetTotal(sc.bitsize, sc.nbits, metaSize, tableSize) <= SLAB_SIZE
    && (forall n :: n > sc.nbits ==> ResetTotal(sc.bitsize, n, metaSize, tableSize) > SLAB_SIZE)
    && sc.moffset == HEAD_SIZE
    && sc.toffset == sc.moffset + metaSize
    && sc.roffset == sc.toffset + tableSize
    && sc.nBitmaps == NumBitmaps(sc.nbits)
  }

  lemma {:induction false} ProductMonotone(m: nat, n: nat, b: nat)
    requires m <= n
    ensures m * b <= n * b
  {
  }

  lemma MetaSizeMonotone(m: nat, n: nat)
    requires m <= n
    ensures MetaSize(m) <= MetaSize(n)
  {
  }

  lemma BootTotalMonotone(bitsize: nat, m: nat, n: nat)
    requires m <= n
    ensures BootTotal(bitsize, m) <= BootTotal(bitsize, n)
  {
    ProductMonotone(m, n, bitsize);
    MetaSizeMonotone(m, n);
  }

  /** Both searches start one slot above SLAB_SIZE / bitsize, which cannot fit. */
  lemma StartTooBig(bitsize: nat)
    requires bitsize > 0
    ensures (SLAB_SIZE / bitsize + 1) * bitsize > SLAB_SIZE
  {
    var q := SLAB_SIZE / bitsize;
    assert (q + 1) * bitsize == q * bitsize + bitsize;
  }

  /** The countdown of sizeclass_boot. */
  method FitBoot(bitsize: nat) returns (nbits: nat)
    requires bitsize > 0
    ensures BootTotal(bitsize, nbits) <= SLAB_SIZE
    ensures forall n :: n > nbits ==> BootTotal(bitsize, n) > SLAB_SIZE
    ensures nbits * bitsize + 64 + MetaSize(nbits) <= 65536 < (nbits + 1) * bitsize + 64 + MetaSize(nbits + 1)
  {
    nbits := SLAB_SIZE / bitsize + 1;
    StartTooBig(bitsize);
    forall n | n > nbits ensures BootTotal(bitsize, n) > SLAB_SIZE {
      ProductMonotone(nbits, n, bitsize);
    }
    while BootTotal(bitsize, nbits) > SLAB_SIZE
      invariant forall n :: n > nbits ==> BootTotal(bitsize, n) > SLAB_SIZE
      decreases nbits
    {
      NothingFits(bitsize, nbits);
      nbits := nbits - 1;
    }
    assert BootTotal(bitsize, nbits + 1) > SLAB_SIZE;
  }

  lemma NothingFits(bitsize: nat, nbits: nat)
    requires BootTotal(bitsize, nbits) > SLAB_SIZE
    ensures nbits > 0
  {
  }

  /** The countdown of sizeclass_reset. */
  method FitReset(bitsize: nat, metaSize: nat, tableSize: nat) returns (nbits: nat)
    requires bitsize > 0 && HEAD_SIZE + metaSize + tableSize <= SLAB_SIZE
    ensures ResetTotal(bitsize, nbits, metaSize, tableSize) <= SLAB_SIZE
    ensures forall n :: n > nbits ==> ResetTotal(bitsize, n, metaSize, tableSize) > SLAB_SIZE
    ensures nbits * bitsize + 64 + metaSize + tableSize <= 65536 < (nbits + 1) * bitsize + 64 + metaSize + tableSize
  {
    nbits := SLAB_SIZE / bitsize + 1;
    StartTooBig(bitsize);
    forall n | n > nbits ensures ResetTotal(bitsize, n, metaSize, tableSize) > SLAB_SIZE {
      ProductMonotone(nbits, n, bitsize);
    }
    while ResetTotal(bitsize, nbits, metaSize, tableSize) > SLAB_SIZE
      invariant forall n :: n > nbits ==> ResetTotal(bitsize, n, metaSize, tableSize) > SLAB_SIZE
      decreases nbits
    {
      assert nbits > 0;
      nbits := nbits - 1;
    }
    assert ResetTotal(bitsize, nbits + 1, metaSize, tableSize) > SLAB_SIZE;
  }

  method BootOne(bitsize: nat) returns (sc: SizeClass)
    requires bitsize > 0
    ensures IsBoot(sc) && sc.bitsize == bitsize
  {
    var nbits := FitBoot(bitsize);
    sc := SizeClass(HEAD_SIZE, HEAD_SIZE + MetaSize(nbits), nbits, NumBitmaps(nbits), bitsize, 0);
  }

  /** The class loop of sizeclass_boot; the global meta_size is its second result. */
  method SizeclassBoot(bitsizes: seq<nat>) returns (classes: seq<SizeClass>, metaSize: nat)
    requires forall b :: b in bitsizes ==> b > 0
    ensures |classes| == |bitsizes|
    ensures forall i :: 0 <= i < |classes| ==> IsBoot(classes[i]) && classes[i].bitsize == bitsizes[i]
    ensures IsMetaBound(classes, metaSize)
  {
    classes, metaSize := [], 0;
    for i := 0 to |bitsizes|
      invariant |classes| == i
      invariant forall j :: 0 <= j < i ==> IsBoot(classes[j]) && classes[j].bitsize == bitsizes[j]
      invariant IsMetaBound(classes, metaSize)
    {
      assert bitsizes[i] in bitsizes;
      var sc := BootOne(bitsizes[i]);
      var tmp := MetaSize(sc.nbits + 1);
      MetaBoundSnoc(classes, metaSize, sc);
      classes := classes + [sc];
      if tmp > metaSize {
        metaSize := tmp;
      }
    }
  }

  /** metaSize is the largest metadata area any class may need, counting one partial tail slot. */
  ghost predicate IsMetaBound(classes: seq<SizeClass>, metaSize: nat) {
    && (forall i :: 0 <= i < |classes| ==> MetaSize(classes[i].nbits + 1) <= metaSize)
    && (if classes == [] then metaSize == 0
        else exists i :: 0 <= i < |classes| && MetaSize(classes[i].nbits + 1) == metaSize)
  }

  lemma MetaBoundSnoc(classes: seq<SizeClass>, metaSize: nat, sc: SizeClass)
    requires IsMetaBound(classes, metaSize)
    ensures IsMetaBound(classes + [sc], var m := MetaSize(sc.nbits + 1); if m > metaSize then m else metaSize)
  {
    var all, m := classes + [sc], MetaSize(sc.nbits + 1);
    assert all[|classes|] == sc;
    if m <= metaSize && classes != [] {
      var i :| 0 <= i < |classes| && MetaSize(classes[i].nbits + 1) == metaSize;
      assert all[i] == classes[i];
    }
  }

  /** sizeclass_reset. */
  method SizeclassReset(sc: SizeClass, metaSize: nat, tableSize: nat) returns (r: SizeClass)
    requires IsBoot(sc) && HEAD_SIZE + metaSize + tableSize <= SLAB_SIZE
    ensures IsReset(r, metaSize, tableSize) && r.bitsize == sc.bitsize
  {
    var nbits := FitReset(sc.bitsize, metaSize, tableSize);
    var toffset := sc.moffset + metaSize;
    r := sc.(nbits := nbits, toffset := toffset, roffset := toffset + tableSize, nBitmaps := NumBitmaps(nbits));
  }

  /** The table-filling loops of sizeclass_boot, for slab classes (first == 1) and page classes
      (first == 0): table[s] is the smallest class that holds s. */
  method FillLookup(sizes: seq<nat>, first: nat, table: array<nat>)
    requires first < |sizes|
    requires forall i, j :: first <= i < j < |sizes| ==> sizes[i] < sizes[j]
    requires table.Length > sizes[|sizes| - 1]
    modifies table
    ensures forall s :: 0 <= s <= sizes[|sizes| - 1] ==> IsCeilingClass(sizes, first, s, table[s])
  {
    var next := 0;
    for idx := first to |sizes|
      invariant idx == first ==> next == 0
      invariant idx > first ==> next == sizes[idx - 1] + 1
      invariant forall s :: 0 <= s < next ==> IsCeilingClass(sizes, first, s, table[s])
    {
      while next <= sizes[idx]
        invariant next <= sizes[idx] + 1
        invariant idx > first ==> sizes[idx - 1] < next
        invariant forall s :: 0 <= s < next ==> IsCeilingClass(sizes, first, s, table[s])
      {
        table[next] := idx;
        next := next + 1;
      }
    }
  }

  /** i is the first class, at or after `first`, of size at least s. */
  ghost predicate IsCeilingClass(sizes: seq<nat>, first: nat, s: nat, i: nat) {
    first <= i < |sizes| && s <= sizes[i] && (i > first ==> sizes[i - 1] < s)
  }

  /** SIZE_CLASSES of include/nvalloc/internal/sizeclass.h, without the unused class 0. */
  const BITSIZES: seq<nat> := [
    8, 16, 24, 32, 40, 48, 56, 64, 80, 96, 112, 128, 160, 192, 224, 256, 320, 384, 448, 512,
    640, 768, 896, 1024, 1280, 1536, 1792, 2048, 2560, 3072, 3584, 4096, 5120, 6144, 7168, 8192,
    10240, 12288, 14336
  ]

  // ---------------------------------------------------------------------------------------
  // The interleaved metadata map
  // ---------------------------------------------------------------------------------------

  /** Bits per cache line, and slots per interleaving group. */
  const LINE_BITS := 512
  const GROUP := LINE_BITS * NBANKS

  function BidToMid(bid: nat): nat {
    var i := bid % GROUP;
    (bid / GROUP) * GROUP + (bid % NBANKS) * LINE_BITS + i / NBANKS
  }

  function MidToBid(mid: nat): nat {
    var i := mid % GROUP;
    (mid / GROUP) * GROUP + (i % LINE_BITS) * NBANKS + i / LINE_BITS
  }

  /** Slot `line + NBANKS * pos` of group `group` has bit `pos` of cache line `line`. */
  lemma BidToMidParts(group: nat, line: nat, pos: nat)
    requires line < NBANKS && pos < LINE_BITS
    ensures BidToMid(group * GROUP + pos * NBANKS + line) == group * GROUP + line * LINE_BITS + pos
    ensures MidToBid(group * GROUP + line * LINE_BITS + pos) == group * GROUP + pos * NBANKS + line
  {
    hide BidToMid, MidToBid;
    BidParts(group, line, pos);
    MidParts(group, line, pos);
  }

  lemma BidParts(group: nat, line: nat, pos: nat)
    requires line < NBANKS && pos < LINE_BITS
    ensures BidToMid(group * GROUP + pos * NBANKS + line) == group * GROUP + line * LINE_BITS + pos
  {
    var bid := group * GROUP + pos * NBANKS + line;
    assert bid / GROUP == group && bid % GROUP == pos * NBANKS + line;
    assert bid % NBANKS == line;
    assert (pos * NBANKS + line) / NBANKS == pos;
  }

  lemma MidParts(group: nat, line: nat, pos: nat)
    requires line < NBANKS && pos < LINE_BITS
    ensures MidToBid(group * GROUP + line * LINE_BITS + pos) == group * GROUP + pos * NBANKS + line
  {
    var mid := group * GROUP + line * LINE_BITS + pos;
    assert mid / GROUP == group && mid % GROUP == line * LINE_BITS + pos;
    assert (line * LINE_BITS + pos) / LINE_BITS == line && (line * LINE_BITS + pos) % LINE_BITS == pos;
  }

  lemma BidSplit(n: nat) returns (group: nat, line: nat, pos: nat)
    ensures line < NBANKS && pos < LINE_BITS && n == group * GROUP + pos * NBANKS + line
    ensures group == n / GROUP && line == n % NBANKS
  {
    group, line := n / GROUP, n % NBANKS;
    pos := n / NBANKS - group * LINE_BITS;
  }

  lemma MidSplit(n: nat) returns (group: nat, line: nat, pos: nat)
    ensures line < NBANKS && pos < LINE_BITS && n == group * GROUP + line * LINE_BITS + pos
  {
    group, line, pos := n / GROUP, n % GROUP / LINE_BITS, n % GROUP % LINE_BITS;
  }

  /** bid_to_mid is a bijection on the naturals. */
  lemma BidToMidRoundTrip(n: nat)
    ensures MidToBid(BidToMid(n)) == n
    ensures BidToMid(MidToBid(n)) == n
  {
    BidRoundTrip(n);
    MidRoundTrip(n);
  }

  lemma BidRoundTrip(n: nat)
    ensures MidToBid(BidToMid(n)) == n
  {
    var g, l, p := BidSplit(n);
    BidToMidParts(g, l, p);
  }

  lemma MidRoundTrip(n: nat)
    ensures BidToMid(MidToBid(n)) == n
  {
    var g, l, p := MidSplit(n);
    BidToMidParts(g, l, p);
  }

  lemma BidToMidInjective(a: nat, b: nat)
    requires BidToMid(a) == BidToMid(b)
    ensures a == b
  {
    BidRoundTrip(a);
    BidRoundTrip(b);
  }

  lemma MetaSizeCoversGroup(nbits: nat, group: nat)
    requires group * GROUP < nbits
    ensures 8 * MetaSize(nbits) >= (group + 1) * GROUP
  {
    var bytes := (nbits + 7) / 8;
    assert bytes > group * 384;
    assert MetaSize(nbits) % 384 == 0;
  }

  /** The metadata bits of nbits slots stay inside the area that get_meta_size reserves. */
  lemma BidToMidInArea(bid: nat, nbits: nat)
    requires bid < nbits
    ensures BidToMid(bid) < 8 * MetaSize(nbits)
  {
    var g, l, p := BidSplit(bid);
    BidToMidParts(g, l, p);
    MetaSizeCoversGroup(nbits, g);
  }

  lemma MidLine(bid: nat)
    ensures BidToMid(bid) / LINE_BITS == (bid / GROUP) * NBANKS + bid % NBANKS
  {
    var g, l, p := BidSplit(bid);
    BidToMidParts(g, l, p);
    LineOf(g, l, p);
  }

  lemma LineOf(group: nat, line: nat, pos: nat)
    requires line < NBANKS && pos < LINE_BITS
    ensures (group * GROUP + line * LINE_BITS + pos) / LINE_BITS == group * NBANKS + line
  {
  }

  /** Slots whose numbers differ by less than NBANKS keep their bits on different cache lines. */
  lemma NeighboursOnDifferentLines(a: nat, b: nat)
    requires a < b < a + NBANKS
    ensures BidToMid(a) / LINE_BITS != BidToMid(b) / LINE_BITS
  {
    hide BidToMid, GROUP, LINE_BITS;
    MidLine(a);
    MidLine(b);
  }
}
