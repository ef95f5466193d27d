/** What a slab means: which byte ranges are in use while it is cut one way, or two ways at once
    after src/slab.c has morphed it. */
module SlabSpec {
  import opened SizeClasses

  // ---------------------------------------------------------------------------------------
  // Geometry
  // ---------------------------------------------------------------------------------------

  ghost predicate IsClass(sc: SizeClass, metaSize: nat) {
    || IsBoot(sc)
    || (sc.toffset <= sc.roffset && IsReset(sc, metaSize, sc.roffset - sc.toffset) && IsMetaFor(sc, metaSize))
  }

  /** meta_size covers the metadata of sc and of its partial tail slot. */
  ghost predicate IsMetaFor(sc: SizeClass, metaSize: nat) {
    MetaSize(sc.nbits + 1) <= metaSize
  }

  function Start(sc: SizeClass, k: nat): nat {
    sc.roffset + k * sc.bitsize
  }

  function End(sc: SizeClass, k: nat): nat {
    Start(sc, k) + sc.bitsize
  }

  /** Slot k of sc and block j of scB share a byte. */
  predicate Overlap(sc: SizeClass, k: nat, scB: SizeClass, j: nat) {
    Start(sc, k) < End(scB, j) && Start(scB, j) < End(sc, k)
  }

  lemma SlotsOrdered(sc: SizeClass, i: nat, j: nat)
    requires i < j
    ensures End(sc, i) <= Start(sc, j)
  {
    ProductMonotone(i + 1, j, sc.bitsize);
    assert (i + 1) * sc.bitsize == i * sc.bitsize + sc.bitsize;
  }

  lemma ClassFits(sc: SizeClass, metaSize: nat)
    requires IsClass(sc, metaSize)
    ensures sc.roffset + sc.nbits * sc.bitsize <= SLAB_SIZE
  {
  }

  /** Every whole slot lies between the slab's metadata and the end of the slab. */
  lemma SlotInSlab(sc: SizeClass, metaSize: nat, k: nat)
    requires IsClass(sc, metaSize) && k < sc.nbits
    ensures sc.roffset <= Start(sc, k) && End(sc, k) <= SLAB_SIZE
  {
    hide IsClass;
    ClassFits(sc, metaSize);
    ProductMonotone(k + 1, sc.nbits, sc.bitsize);
    assert (k + 1) * sc.bitsize == k * sc.bitsize + sc.bitsize;
  }

  /** The cut of a re-cut class is as tight as it can be: one slot more would leave the slab. */
  lemma TailEndsOutside(sc: SizeClass, metaSize: nat, tableSize: nat)
    requires IsReset(sc, metaSize, tableSize)
    ensures Start(sc, sc.nbits + 1) > SLAB_SIZE
  {
    assert ResetTotal(sc.bitsize, sc.nbits + 1, metaSize, tableSize) > SLAB_SIZE;
  }

  /** A byte range inside the slab touches slots up to the partial tail slot only, and the
      metadata bit of each of these lies inside the metadata area. */
  lemma OverlapReachesTailOnly(sc: SizeClass, k: nat, scB: SizeClass, j: nat, metaSize: nat)
    requires sc.toffset <= sc.roffset && IsReset(sc, metaSize, sc.roffset - sc.toffset) && IsMetaFor(sc, metaSize)
    requires End(scB, j) <= SLAB_SIZE
    requires Start(sc, k) < End(scB, j)
    ensures k <= sc.nbits
    ensures sc.moffset + BidToMid(k) / 8 < sc.toffset
  {
    TailEndsOutside(sc, metaSize, sc.roffset - sc.toffset);
    if k > sc.nbits {
      ProductMonotone(sc.nbits + 1, k, sc.bitsize);
      assert false;
    }
    BidToMidInArea(k, sc.nbits + 1);
  }

  /** Re-cutting never yields more slots than booting, so the global meta_size suffices. */
  lemma ResetFitsMeta(boot: SizeClass, sc: SizeClass, metaSize: nat, tableSize: nat)
    requires IsBoot(boot) && IsReset(sc, metaSize, tableSize) && sc.bitsize == boot.bitsize
    requires MetaSize(boot.nbits + 1) <= metaSize
    ensures sc.nbits <= boot.nbits && IsMetaFor(sc, metaSize)
  {
    var n := boot.nbits + 1;
    assert BootTotal(boot.bitsize, n) > SLAB_SIZE;
    if sc.nbits > boot.nbits {
      ProductMonotone(n, sc.nbits, sc.bitsize);
      assert false;
    }
    MetaSizeMonotone(sc.nbits + 1, boot.nbits + 1);
  }

  /** All slots of a re-cut class that block j of scB overlaps, as slab_morphing enumerates them:
      from the slot that holds its first byte while the slot starts before its end. */
  lemma OverlapIsScan(sc: SizeClass, k: nat, scB: SizeClass, j: nat)
    requires sc.bitsize > 0 && scB.bitsize > 0 && Start(scB, j) >= sc.roffset
    ensures Overlap(sc, k, scB, j) <==>
            (Start(scB, j) - sc.roffset) / sc.bitsize <= k && Start(sc, k) < End(scB, j)
  {
    var d := Start(scB, j) - sc.roffset;
    var first := d / sc.bitsize;
    assert first * sc.bitsize <= d < (first + 1) * sc.bitsize by {
      assert (first + 1) * sc.bitsize == first * sc.bitsize + sc.bitsize;
    }
    if first <= k {
      ProductMonotone(first + 1, k + 1, sc.bitsize);
      assert (k + 1) * sc.bitsize == k * sc.bitsize + sc.bitsize;
    } else {
      ProductMonotone(k + 1, first, sc.bitsize);
      assert (k + 1) * sc.bitsize == k * sc.bitsize + sc.bitsize;
    }
  }

  // ---------------------------------------------------------------------------------------
  // The real size classes
  // ---------------------------------------------------------------------------------------

  /** The classes that sizeclass_boot builds, smallest first. */
  ghost predicate AreBootClasses(classes: seq<SizeClass>, metaSize: nat) {
    && classes != []
    && classes[0].bitsize == 8
    && (forall i :: 0 <= i < |classes| ==> IsBoot(classes[i]) && 8 <= classes[i].bitsize)
    && IsMetaBound(classes, metaSize)
  }

  /** sizeclass_boot on the real table. */
  method BootAll() returns (classes: seq<SizeClass>, metaSize: nat)
    ensures |classes| == |BITSIZES| && forall i :: 0 <= i < |classes| ==> classes[i].bitsize == BITSIZES[i]
    ensures AreBootClasses(classes, metaSize)
  {
    forall i | 0 <= i < |BITSIZES| ensures 8 <= BITSIZES[i] {
      SmallestSize(i);
    }
    SmallestSize(0);
    classes, metaSize := SizeclassBoot(BITSIZES);
  }

  lemma SmallestSize(i: nat)
    requires i < |BITSIZES|
    ensures BITSIZES[0] == 8 <= BITSIZES[i]
  {
  }

  lemma SmallestClass(sc: SizeClass)
    requires IsBoot(sc) && sc.bitsize == 8
    ensures sc.nbits == 8040
  {
    assert BootTotal(8, 8040) == SLAB_SIZE;
    assert BootTotal(8, 8041) > SLAB_SIZE;
    if sc.nbits > 8040 {
      BootTotalMonotone(8, 8041, sc.nbits);
    }
  }

  lemma SmallerSlotsMoreOfThem(a: SizeClass, b: SizeClass)
    requires IsBoot(a) && IsBoot(b) && a.bitsize <= b.bitsize
    ensures b.nbits <= a.nbits
  {
    if b.nbits > a.nbits {
      assert BootTotal(a.bitsize, b.nbits) <= BootTotal(b.bitsize, b.nbits) by {
        ProductMonotone(a.bitsize, b.bitsize, b.nbits);
      }
    }
  }

  lemma SmallestClassMeta(sc: SizeClass)
    requires IsBoot(sc) && sc.bitsize == 8
    ensures MetaSize(sc.nbits + 1) == 1152
  {
    SmallestClass(sc);
  }

  lemma ClassMetaAtMost(smallest: SizeClass, sc: SizeClass)
    requires IsBoot(smallest) && smallest.bitsize == 8 && IsBoot(sc) && 8 <= sc.bitsize
    ensures MetaSize(sc.nbits + 1) <= 1152
  {
    SmallerSlotsMoreOfThem(smallest, sc);
    MetaSizeMonotone(sc.nbits + 1, smallest.nbits + 1);
    SmallestClassMeta(smallest);
  }

  /** The global meta_size is 1152 bytes: it is set by the 8-byte class. */
  lemma MetaSizeValue(classes: seq<SizeClass>, metaSize: nat)
    requires AreBootClasses(classes, metaSize)
    ensures metaSize == 1152
  {
    hide IsBoot, MetaSize;
    SmallestClassMeta(classes[0]);
    var i :| 0 <= i < |classes| && MetaSize(classes[i].nbits + 1) == metaSize;
    ClassMetaAtMost(classes[0], classes[i]);
  }

  /** The class sizes of at least a cache line: four per power of two.  Only these are asked for,
      because nvalloc_malloc_to rounds every request up to whole cache lines. */
  predicate IsServedSize(b: nat) {
    || (64 <= b <= 128 && b % 16 == 0)
    || (128 <= b <= 256 && b % 32 == 0)
    || (256 <= b <= 512 && b % 64 == 0)
    || (512 <= b <= 1024 && b % 128 == 0)
    || (1024 <= b <= 2048 && b % 256 == 0)
    || (2048 <= b <= 4096 && b % 512 == 0)
    || (4096 <= b <= 8192 && b % 1024 == 0)
    || (8192 <= b <= 14336 && b % 2048 == 0)
  }

  lemma ServedClassBits(nbits: nat, bitsize: nat)
    requires bitsize >= CACHELINE && nbits * bitsize + HEAD_SIZE + MetaSize(nbits) <= SLAB_SIZE
    ensures nbits <= 1017
  {
    ProductMonotone(CACHELINE, bitsize, nbits);
    assert CACHELINE * nbits <= nbits * bitsize;
    assert nbits > 0 ==> MetaSize(nbits) >= 384;
  }

  /** slab_get_one morphs a slab only while at most a fifth of its slots are taken, so the 8-bit
      vslab->num_b holds the count of live old blocks exactly. */
  lemma OldBlocksFitCounter(sc: SizeClass, metaSize: nat, used: nat)
    requires IsClass(sc, metaSize) && IsServedSize(sc.bitsize) && 5 * used <= sc.nbits
    ensures used <= 203
  {
    if !IsBoot(sc) {
      MetaSizeMonotone(sc.nbits, sc.nbits + 1);
    }
    ServedClassBits(sc.nbits, sc.bitsize);
  }

  lemma BootBounds(sc: SizeClass, n: nat)
    requires IsBoot(sc)
    ensures BootTotal(sc.bitsize, sc.nbits) <= SLAB_SIZE && (BootTotal(sc.bitsize, n) <= SLAB_SIZE ==> n <= sc.nbits)
  {
    hide BootTotal;
  }

  lemma FewSlots(bitsize: nat, nbits: nat)
    requires bitsize > 50 && BootTotal(bitsize, nbits) <= SLAB_SIZE
    ensures nbits < 1280
  {
    hide MetaSize;
    if nbits >= 1280 {
      ProductMonotone(51, bitsize, nbits);
      SomeMeta(nbits);
    }
  }

  lemma SomeMeta(nbits: nat)
    requires nbits > 0
    ensures MetaSize(nbits) >= 384
  {
  }

  lemma ManySlots(bitsize: nat)
    requires bitsize <= 50
    ensures BootTotal(bitsize, 1280) <= SLAB_SIZE
  {
    ProductMonotone(bitsize, 50, 1280);
  }

  /** Of all classes that sizeclass_boot makes, an 8-bit counter holds the blocks that the test lets
      through exactly for those of more than 50 bytes. */
  lemma CounterFitsAbove50(sc: SizeClass)
    requires IsBoot(sc)
    ensures (forall used: nat :: 5 * used <= sc.nbits ==> used % 256 == used) <==> sc.bitsize > 50
  {
    hide IsBoot, BootTotal;
    BootBounds(sc, 1280);
    if sc.bitsize > 50 {
      FewSlots(sc.bitsize, sc.nbits);
    } else {
      ManySlots(sc.bitsize);
      assert 5 * 256 <= sc.nbits && 256 % 256 != 256;
    }
  }

  /** get_sb_table_size: two bytes per old block, in whole cache lines. */
  function TableSize(used: nat): nat {
    RoundUp(2 * used, CACHELINE)
  }

  /** The table of old blocks is the least number of whole cache lines that holds them. */
  lemma TableSizeIs(used: nat)
    ensures TableSize(used) % 64 == 0 && 2 * used <= TableSize(used) < 2 * used + 64
    ensures TableSize(used) == (2 * used + 63) / 64 * 64
  {
  }

  /** slab_morphing may mark the partial tail slot, number nbits, in a bitmap sized for nbits
      slots.  For every class served and every admissible table the bitmap has that bit. */
  lemma TailSlotHasBitmapBit(sc: SizeClass, used: nat)
    requires IsReset(sc, 1152, TableSize(used)) && IsServedSize(sc.bitsize) && 0 < used <= 255
    ensures sc.nbits % 64 != 0
    ensures sc.nbits < 64 * sc.nBitmaps
  {
    hide IsServedSize, TableSize, NumBitmaps;
    var lines := TableSize(used) / 64;
    TableLines(used);
    assert ResetTotal(sc.bitsize, sc.nbits + 1, 1152, 64 * lines) > SLAB_SIZE;
    NotMultiple(sc.bitsize, sc.nbits, lines);
    BitmapHolds(sc.nbits);
  }

  lemma TableLines(used: nat)
    requires 0 < used <= 255
    ensures var lines := TableSize(used) / 64; TableSize(used) == 64 * lines && 1 <= lines <= 8
  {
  }

  lemma BitmapHolds(nbits: nat)
    requires nbits % 64 != 0
    ensures nbits < 64 * NumBitmaps(nbits)
  {
  }

  lemma NotMultiple(b: nat, n: nat, lines: nat)
    requires IsServedSize(b) && 1 <= lines <= 8
    requires n * b <= 64320 - 64 * lines < (n + 1) * b
    ensures n % 64 != 0
  {
    if n % 64 == 0 {
      WholeGroups(b, n, n / 64, lines);
      NoWholeGroups(b, n / 64, lines);
    }
  }

  lemma NoWholeGroups(b: nat, q: nat, lines: nat)
    requires IsServedSize(b) && 1 <= lines <= 8
    ensures !(0 <= 64 * (1005 - lines - q * b) < b)
  {
    if b <= 128 {
      Remainder(16, b, q, lines);
    } else if b <= 256 {
      Remainder(32, b, q, lines);
    } else if b <= 512 {
      Remainder(64, b, q, lines);
    } else if b <= 1024 {
      Remainder(128, b, q, lines);
    } else {
      FewLargeSlots(b, q, lines);
    }
  }

  lemma FewLargeSlots(b: nat, q: nat, lines: nat)
    requires 1024 < b <= 14336 && 1 <= lines <= 8
    ensures !(0 <= 64 * (1005 - lines - q * b) < b)
  {
    if q > 0 {
      ProductMonotone(1, q, b);
    }
  }

  lemma WholeGroups(b: nat, n: nat, q: nat, lines: nat)
    requires n == 64 * q && n * b <= 64320 - 64 * lines < (n + 1) * b
    ensures 0 <= 64 * (1005 - lines - q * b) < b
  {
    assert n * b == 64 * (q * b) && (n + 1) * b == n * b + b;
  }

  /** With slots of b = c * u bytes, q groups of 64 slots never fill the 1005 - lines cache lines
      that remain to within one slot. */
  lemma Remainder(u: nat, b: nat, q: nat, lines: nat)
    requires u in [16, 32, 64, 128] && 4 * u <= b <= 8 * u && b % u == 0 && 1 <= lines <= 8
    ensures !(0 <= 64 * (1005 - lines - q * b) < b)
  {
    var c := b / u;
    if c == 4 {
    } else if c == 5 {
    } else if c == 6 {
    } else if c == 7 {
    }
  }

  // ---------------------------------------------------------------------------------------
  // Slab states and the steps between them
  // ---------------------------------------------------------------------------------------

  /** `prior` holds the live blocks of the previous class scB; `live` and `cached` are slots of the
      current class sc, in the program's hands or in a thread cache. */
  datatype State = State(sc: SizeClass, scB: SizeClass, prior: set<nat>, live: set<nat>, cached: set<nat>)

  /** The old blocks that share bytes with slot k. */
  function Over(sc: SizeClass, k: nat, scB: SizeClass, prior: set<nat>): set<nat> {
    set j | j in prior && Overlap(sc, k, scB, j)
  }

  predicate Shadowed(st: State, k: nat) {
    Over(st.sc, k, st.scB, st.prior) != {}
  }

  predicate Available(st: State, k: nat) {
    k < st.sc.nbits && k !in st.live && k !in st.cached && !Shadowed(st, k)
  }

  ghost predicate NoneAvailable(st: State) {
    forall k :: !Available(st, k)
  }

  predicate OnlyAvailable(st: State, k: nat) {
    Available(st, k) && forall i :: 0 <= i < st.sc.nbits && Available(st, i) ==> i == k
  }

  /** When slab_pop_one_cache takes the slab for full: there is nothing to hand out, or an old block
      reaches into the partial tail slot and there is exactly one slot to hand out. */
  ghost predicate LooksFull(st: State) {
    NoneAvailable(st) || (Shadowed(st, st.sc.nbits) && exists k :: OnlyAvailable(st, k))
  }

  ghost predicate IsMorphed(sc: SizeClass, metaSize: nat) {
    sc.toffset <= sc.roffset && IsReset(sc, metaSize, sc.roffset - sc.toffset) && IsMetaFor(sc, metaSize)
  }

  ghost predicate Inv(st: State, metaSize: nat) {
    && IsClass(st.sc, metaSize)
    && (forall k :: k in st.live || k in st.cached ==> k < st.sc.nbits && !Shadowed(st, k))
    && st.live !! st.cached
    && (st.prior != {} ==>
          && IsMorphed(st.sc, metaSize)
          && IsClass(st.scB, metaSize)
          && forall j :: j in st.prior ==> j < st.scB.nbits && st.sc.roffset <= Start(st.scB, j))
  }

  datatype Op =
    | Morph(target: SizeClass)            // slab_morphing from step 2 on
    | Pop(slot: nat)                      // slab_pop_one_cache
    | Take(slot: nat)                     // nvalloc_malloc_to takes a cached slot
    | FreeNew(slot: nat, toCache: bool)   // slab_free_small on a block of the current class
    | FreeOld(block: nat)                 // slab_free_small on a block of the previous class

  /** The slab is re-cut for `target`, or left alone when the new area would reach a live block. */
  ghost predicate MorphTo(st: State, target: SizeClass, metaSize: nat, st': State) {
    if st.live == {} then
      st' == State(target, st.scB, {}, {}, {})
    else
      var sc := st'.sc;
      || (st' == st && exists r :: IsReset(r, metaSize, TableSize(|st.live|)) && r.bitsize == target.bitsize
                                   && exists j :: j in st.live && Start(st.sc, j) < r.roffset)
      || (IsReset(sc, metaSize, TableSize(|st.live|)) && sc.bitsize == target.bitsize
          && st' == State(sc, st.sc, st.live, {}, {})
          && forall j :: j in st.live ==> sc.roffset <= Start(st.sc, j))
  }

  ghost predicate Step(st: State, op: Op, st': State, metaSize: nat) {
    match op
    case Morph(target) =>
      && st.prior == {} && st.cached == {}
      && IsBoot(target) && MetaSize(target.nbits + 1) <= metaSize
      && MorphTo(st, target, metaSize, st')
    case Pop(k) =>
      && Available(st, k)
      && (forall i :: 0 <= i < k ==> !Available(st, i))
      && st' == st.(cached := st.cached + {k})
    case Take(k) =>
      k in st.cached && st' == st.(cached := st.cached - {k}, live := st.live + {k})
    case FreeNew(k, toCache) =>
      && k in st.live
      && st' == st.(live := st.live - {k}, cached := if toCache then st.cached + {k} else st.cached)
    case FreeOld(j) =>
      j in st.prior && st' == st.(prior := st.prior - {j})
  }

  lemma MorphKeepsInv(st: State, target: SizeClass, st': State, metaSize: nat)
    requires Inv(st, metaSize) && Step(st, Morph(target), st', metaSize)
    ensures Inv(st', metaSize)
  {
    if st.live != {} && st' != st {
      ResetFitsMeta(target, st'.sc, metaSize, TableSize(|st.live|));
    }
  }

  lemma StepKeepsInv(st: State, op: Op, st': State, metaSize: nat)
    requires Inv(st, metaSize) && Step(st, op, st', metaSize)
    ensures Inv(st', metaSize)
  {
    if op.Morph? {
      MorphKeepsInv(st, op.target, st', metaSize);
    } else {
      assert forall k :: Shadowed(st', k) ==> Shadowed(st, k);
    }
  }

  ghost predicate IsRun(states: seq<State>, ops: seq<Op>, metaSize: nat) {
    |states| == |ops| + 1 && forall i :: 0 <= i < |ops| ==> Step(states[i], ops[i], states[i + 1], metaSize)
  }

  // ---------------------------------------------------------------------------------------
  // Blocks in use
  // ---------------------------------------------------------------------------------------

  datatype Block = OldBlock(j: nat) | NewBlock(k: nat)

  predicate InUse(st: State, b: Block) {
    match b
    case OldBlock(j) => j in st.prior
    case NewBlock(k) => k in st.live || k in st.cached
  }

  function Lo(st: State, b: Block): nat {
    match b
    case OldBlock(j) => Start(st.scB, j)
    case NewBlock(k) => Start(st.sc, k)
  }

  function Hi(st: State, b: Block): nat {
    match b
    case OldBlock(j) => End(st.scB, j)
    case NewBlock(k) => End(st.sc, k)
  }

  predicate Disjoint(st: State, b: Block, c: Block) {
    Hi(st, b) <= Lo(st, c) || Hi(st, c) <= Lo(st, b)
  }

  /** Two blocks in use never share a byte, whichever classes they were cut by. */
  lemma BlocksDisjoint(st: State, b: Block, c: Block, metaSize: nat)
    requires Inv(st, metaSize) && InUse(st, b) && InUse(st, c) && b != c
    ensures Disjoint(st, b, c)
  {
    match (b, c) {
      case (OldBlock(i), OldBlock(j)) =>
        if i < j { SlotsOrdered(st.scB, i, j); } else { SlotsOrdered(st.scB, j, i); }
      case (NewBlock(i), NewBlock(j)) =>
        if i < j { SlotsOrdered(st.sc, i, j); } else { SlotsOrdered(st.sc, j, i); }
      case (OldBlock(j), NewBlock(k)) =>
        assert j !in Over(st.sc, k, st.scB, st.prior);
      case (NewBlock(k), OldBlock(j)) =>
        assert j !in Over(st.sc, k, st.scB, st.prior);
    }
  }

  /** Blocks in use keep clear of the header, metadata bits and table, and of the slab's end. */
  lemma BlocksInSlab(st: State, b: Block, metaSize: nat)
    requires Inv(st, metaSize) && InUse(st, b)
    ensures st.sc.roffset <= Lo(st, b) < Hi(st, b) <= SLAB_SIZE
  {
    match b {
      case OldBlock(j) => SlotInSlab(st.scB, metaSize, j);
      case NewBlock(k) => SlotInSlab(st.sc, metaSize, k);
    }
  }

  ghost predicate Safe(st: State) {
    && (forall b, c :: InUse(st, b) && InUse(st, c) && b != c ==> Disjoint(st, b, c))
    && (forall b :: InUse(st, b) ==> st.sc.roffset <= Lo(st, b) < Hi(st, b) <= SLAB_SIZE)
  }

  lemma InvIsSafe(st: State, metaSize: nat)
    requires Inv(st, metaSize)
    ensures Safe(st)
  {
    forall b, c | InUse(st, b) && InUse(st, c) && b != c ensures Disjoint(st, b, c) {
      BlocksDisjoint(st, b, c, metaSize);
    }
    forall b | InUse(st, b) ensures st.sc.roffset <= Lo(st, b) < Hi(st, b) <= SLAB_SIZE {
      BlocksInSlab(st, b, metaSize);
    }
  }

  /** In every run from an empty slab, through any number of morphs, all blocks in use are
      disjoint at every point. */
  lemma {:induction false} RunsAreSafe(states: seq<State>, ops: seq<Op>, metaSize: nat, i: nat)
    requires IsRun(states, ops, metaSize) && i < |states|
    requires IsBoot(states[0].sc) && states[0].prior == states[0].live == states[0].cached == {}
    ensures Inv(states[i], metaSize) && Safe(states[i])
  {
    if i > 0 {
      RunsAreSafe(states, ops, metaSize, i - 1);
      StepKeepsInv(states[i - 1], ops[i - 1], states[i], metaSize);
    }
    InvIsSafe(states[i], metaSize);
  }

  /** A slot reopens exactly when the last old block over it goes away. */
  lemma ReopensWithLastOldBlock(st: State, j: nat, st': State, metaSize: nat, k: nat)
    requires Inv(st, metaSize) && Step(st, FreeOld(j), st', metaSize) && k < st.sc.nbits
    ensures Available(st', k) && !Available(st, k) <==> Over(st.sc, k, st.scB, st.prior) == {j}
  {
    assert Over(st'.sc, k, st'.scB, st'.prior) == Over(st.sc, k, st.scB, st.prior) - {j};
  }

  /** The slot that holds byte `offset` of the slab. */
  function SlotAt(sc: SizeClass, offset: nat): nat
    requires sc.bitsize > 0 && sc.roffset <= offset
  {
    (offset - sc.roffset) / sc.bitsize
  }

  /** The address alone tells slab_free_small which kind of block it got: the slot that holds the
      first byte is shadowed exactly for old blocks. */
  lemma OldAddressIsShadowed(st: State, j: nat, metaSize: nat)
    requires Inv(st, metaSize) && j in st.prior
    ensures Shadowed(st, SlotAt(st.sc, Start(st.scB, j)))
  {
    var k := SlotAt(st.sc, Start(st.scB, j));
    FirstSlot(st.sc, Start(st.scB, j) - st.sc.roffset);
    OverlapIsScan(st.sc, k, st.scB, j);
    assert j in Over(st.sc, k, st.scB, st.prior);
  }

  lemma NewAddressIsOwnSlot(st: State, k: nat, metaSize: nat)
    requires Inv(st, metaSize) && (k in st.live || k in st.cached)
    ensures SlotAt(st.sc, Start(st.sc, k)) == k && !Shadowed(st, k)
  {
    ExactDivision(k, st.sc.bitsize);
  }

  lemma FirstSlot(sc: SizeClass, d: nat)
    requires sc.bitsize > 0
    ensures sc.roffset + (d / sc.bitsize) * sc.bitsize <= sc.roffset + d
  {
  }

  lemma ExactDivision(k: nat, b: nat)
    requires b > 0
    ensures (k * b) / b == k
  {
    var q := (k * b) / b;
    assert k * b == q * b + (k * b) % b;
    if q < k {
      ProductMonotone(q + 1, k, b);
    } else if q > k {
      ProductMonotone(k + 1, q, b);
    }
  }
}
