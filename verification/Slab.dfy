/** src/slab.c: a slab, its morphing into another size class, and the pop and free operations. */
module Slab {
  import opened SizeClasses
  import opened SlabSpec
  import opened SlabLayout
  import Bitmap

  datatype Option<T> = None | Some(value: T)

  datatype MorphOutcome =
    | Reset     // no block was live: the slab starts afresh in the new class
    | Recut     // old blocks stay live under the new cut
    | Refused   // the new header would overwrite a live block

  datatype FreeOutcome =
    | Released  // nothing is in use: the slab goes back to the arena
    | Rejoined  // the last old block is gone: the slab may be morphed again
    | Kept

  /** The number of slots that have a bitmap bit of their own: the partial tail slot of a morphed
      class is one of them. */
  function Slots(sc: SizeClass): nat {
    if sc.toffset == 0 then sc.nbits else sc.nbits + 1
  }

  /** For every slot, the old blocks over it. */
  ghost function CovOf(sc: SizeClass, scB: SizeClass, prior: set<nat>): seq<set<nat>> {
    seq(Slots(sc), k requires 0 <= k => Over(sc, k, scB, prior))
  }

  /** The table lists each old block once and marks the freed ones. */
  ghost predicate TableOk(table: seq<SbEntry>, prior: set<nat>) {
    && (forall i :: 0 <= i < |table| ==> (table[i].isFreed == 0 <==> table[i].bidB in prior))
    && (forall i, j :: 0 <= i < j < |table| ==> table[i].bidB != table[j].bidB)
    && (forall b :: b in prior ==> exists i :: 0 <= i < |table| && table[i].bidB == b)
  }

  /** The metadata bits fill the area in front of the slots, or of the table.  The table fills the rest up
      to the slots; an entry is marked twice when its block is freed, so that two bits hold the mark, and
      the entry behind the last, if there is one, names slot 0. */
  ghost predicate Laid(sc: SizeClass, metaBits: nat, table: seq<SbEntry>, num: nat) {
    && metaBits == 8 * ((if sc.toffset == 0 then sc.roffset else sc.toffset) - sc.moffset)
    && (sc.toffset != 0 ==> |table| == (sc.roffset - sc.toffset) / 2 && Marks(table, num))
  }

  ghost predicate Marks(table: seq<SbEntry>, num: nat) {
    (forall i :: 0 <= i < num <= |table| ==> table[i].isFreed == 0 || table[i].isFreed == 2) && (num < |table| ==> table[num].bidB == 0)
  }

  class VSlab {
    const metaSize: nat
    var sc: SizeClass          // the current cut
    var scB: SizeClass         // the previous cut
    var used: nat              // bitmap_header.nbits
    var numB: nat              // live old blocks, an 8-bit counter
    var bitmap: array<bool>
    var meta: array<bool>      // the persistent metadata bits, by bid_to_mid position
    var dmeta: array<DMeta>
    var table: array<SbEntry>  // the persistent table of old blocks
    ghost var tableNum: nat    // entries of the table that slab_morphing wrote
    ghost var st: State

    ghost predicate ArraysOk()
      reads this, bitmap, dmeta
    {
      && bitmap != meta
      && bitmap.Length == Bitmap.WORD * sc.nBitmaps && Bitmap.WholeWords(bitmap)
      && dmeta.Length == sc.nbits + 1
    }

    ghost predicate Layout(cov: seq<set<nat>>, live: set<nat>, cached: set<nat>)
      reads this, bitmap, meta, dmeta
    {
      && ArraysOk()
      && |cov| == Slots(sc)
      && SlotsOk(cov, live, cached, bitmap[..], meta[..], dmeta[..])
      && used == Taken(bitmap[..])
    }

    ghost predicate Valid()
      reads this, bitmap, meta, dmeta, table
    {
      && metaSize == 1152
      && st.sc == sc && st.scB == scB
      && Inv(st, metaSize)
      && Layout(CovOf(sc, scB, st.prior), st.live, st.cached)
      && numB == |st.prior|
      && tableNum <= table.Length
      && TableOk(table[..tableNum], st.prior)
      && Laid(sc, meta.Length, table[..], tableNum)
    }

    // -------------------------------------------------------------------------------------
    // slab_morphing, step 4.2 and its undoing in slab_free_small, one slot at a time
    // -------------------------------------------------------------------------------------

    method CoverSlot(bid: nat, j: nat, ghost cov: seq<set<nat>>)
      requires Layout(cov, {}, {}) && bid < |cov| && j !in cov[bid]
      modifies this`used, bitmap, meta, dmeta
      ensures Layout(cov[bid := cov[bid] + {j}], {}, {})
    {
      hide Taken, CovOf;
      ghost var over := cov[bid] + {j};
      var mid := BidToMid(bid);
      var d := dmeta[bid];
      SlotUpdate(cov, {}, {}, bitmap[..], meta[..], dmeta[..], bid, over, {}, {}, false, true, DMeta(true, d.numB + 1));
      TakenUpdate(bitmap[..], bid, false);
      if d.numB == 0 {
        Bitmap.SetBits(bitmap, bid);
        meta[mid] := true;
        dmeta[bid] := DMeta(true, d.numB);
        used := used + 1;
      }
      dmeta[bid] := DMeta(dmeta[bid].taken, d.numB + 1);
    }

    method UncoverSlot(bid: nat, j: nat, ghost cov: seq<set<nat>>, ghost live: set<nat>, ghost cached: set<nat>)
      requires Layout(cov, live, cached) && bid < |cov| && j in cov[bid]
      requires bid !in live && bid !in cached
      modifies this`used, bitmap, meta, dmeta
      ensures Layout(cov[bid := cov[bid] - {j}], live, cached)
    {
      ghost var over := cov[bid] - {j};
      var mid := BidToMid(bid);
      var d := dmeta[bid];
      ghost var last := d.numB == 1;
      SlotUpdate(cov, live, cached, bitmap[..], meta[..], dmeta[..], bid, over, live, cached, last, !last, DMeta(!last, d.numB - 1));
      TakenUpdate(bitmap[..], bid, last);
      dmeta[bid] := DMeta(d.taken, d.numB - 1);
      if dmeta[bid].numB == 0 {
        Bitmap.UnsetBits(bitmap, bid);
        meta[mid] := false;
        dmeta[bid] := DMeta(false, 0);
        used := used - 1;
      }
    }

    /** The inner loop of step 4.2: every slot that old block j overlaps is closed. */
    method CoverBlock(j: nat, ghost done: set<nat>)
      requires Layout(CovOf(sc, scB, done), {}, {}) && j !in done
      requires IsMorphed(sc, metaSize) && scB.bitsize > 0
      requires sc.roffset <= Start(scB, j) && End(scB, j) <= SLAB_SIZE
      modifies this`used, bitmap, meta, dmeta
      ensures Layout(CovOf(sc, scB, done + {j}), {}, {})
    {
      hide SlotsOk, Taken;
      var addr := scB.roffset + j * scB.bitsize;
      var bid := (addr - sc.roffset) / sc.bitsize;
      ghost var first := bid;
      ghost var cov := CovOf(sc, scB, done);
      FirstSlotExists(sc, scB, j, metaSize);
      while addr + scB.bitsize > sc.roffset + bid * sc.bitsize
        invariant first <= bid <= sc.nbits + 1
        invariant Layout(cov, {}, {})
        invariant forall k :: 0 <= k < |cov| ==>
                    cov[k] == Over(sc, k, scB, done) + if first <= k < bid then Over(sc, k, scB, {j}) else {}
        decreases sc.nbits + 1 - bid
      {
        ScannedSlot(sc, bid, scB, j, metaSize, {j});
        CoverSlot(bid, j, cov);
        cov := cov[bid := cov[bid] + {j}];
        bid := bid + 1;
      }
      ScanCovers(sc, scB, done, j, first, bid, cov);
    }

    /** The loop of slab_free_small over the slots that old block j overlapped. */
    method UncoverBlock(offset: nat, index: nat, j: nat, ghost prior: set<nat>, ghost live: set<nat>, ghost cached: set<nat>)
      requires Layout(CovOf(sc, scB, prior), live, cached) && j in prior
      requires forall k :: k in live || k in cached ==> Over(sc, k, scB, prior) == {}
      requires IsMorphed(sc, metaSize) && scB.bitsize > 0
      requires sc.roffset <= Start(scB, j) && End(scB, j) <= SLAB_SIZE
      requires offset == Start(scB, j) && index == SlotAt(sc, offset)
      modifies this`used, bitmap, meta, dmeta
      ensures Layout(CovOf(sc, scB, prior - {j}), live, cached)
    {
      var bid := index;
      ghost var cov := CovOf(sc, scB, prior);
      FirstSlotExists(sc, scB, j, metaSize);
      while offset + scB.bitsize > sc.roffset + bid * sc.bitsize
        invariant index <= bid <= sc.nbits + 1
        invariant Layout(cov, live, cached)
        invariant forall k :: 0 <= k < |cov| ==>
                    cov[k] == Over(sc, k, scB, prior) - if index <= k < bid then {j} else {}
        decreases sc.nbits + 1 - bid
      {
        ScannedSlot(sc, bid, scB, j, metaSize, prior);
        UncoverSlot(bid, j, cov, live, cached);
        cov := cov[bid := cov[bid] - {j}];
        bid := bid + 1;
      }
      ScanUncovers(sc, scB, prior, j, index, bid, cov);
    }

    // -------------------------------------------------------------------------------------
    // slab_create and slab_morphing
    // -------------------------------------------------------------------------------------

    /** slab_init and vslab_init: fresh records for the cut c, whose metadata area has `area` bytes. */
    method Reinit(c: SizeClass, area: nat)
      requires AreaOk(c, area)
      modifies this`sc, this`used, this`bitmap, this`meta, this`dmeta
      ensures sc == c && Layout(CovOf(sc, scB, {}), {}, {}) && used == 0
      ensures fresh(bitmap) && fresh(meta) && fresh(dmeta) && meta.Length == 8 * area
    {
      hide SlotsOk, CovOf, Taken, AreaOk;
      sc := c;
      used := 0;
      bitmap := new bool[Bitmap.WORD * c.nBitmaps](_ => true);
      meta := new bool[8 * area](_ => false);
      dmeta := new DMeta[c.nbits + 1](_ => DMeta(false, 0));
      BlankSlots(c, scB, area);
      assert bitmap[..] == Blanks(c.nBitmaps) && meta[..] == seq(8 * area, _ => false) && dmeta[..] == seq(c.nbits + 1, _ => DMeta(false, 0));
    }

    constructor (c: SizeClass)
      requires IsBoot(c)
      ensures Valid() && fresh(bitmap) && fresh(meta) && fresh(dmeta) && fresh(table)
      ensures st == State(c, c, {}, {}, {}) && used == 0
    {
      hide Inv, SlotsOk, Taken, AreaOk, CovOf, TableOk, Laid, IsBoot;
      metaSize := 1152;
      sc, scB, used, numB := c, c, 0, 0;
      table := new SbEntry[0];
      tableNum := 0;
      st := State(c, c, {}, {}, {});
      bitmap := new bool[0];
      meta := new bool[0];
      dmeta := new DMeta[0];
      new;
      BootArea(c);
      NewState(c);
      NoTable(c);
      Reinit(c, c.roffset - c.moffset);
      assert table[..] == table[..tableNum] == [];
    }

    /** Step 4.1: one table entry per old block. */
    method WriteTable(ids: seq<nat>)
      requires Bitmap.Ascending(ids) && sc.toffset <= sc.roffset && 2 * |ids| <= sc.roffset - sc.toffset
      modifies this`table, this`tableNum
      ensures fresh(table) && tableNum == |ids| <= table.Length
      ensures TableOk(table[..tableNum], Elements(ids))
      ensures table.Length == (sc.roffset - sc.toffset) / 2 && Marks(table[..], tableNum)
    {
      table := new SbEntry[(sc.roffset - sc.toffset) / 2];
      var num := 0;
      while num < |ids|
        invariant 0 <= num <= |ids| <= table.Length == (sc.roffset - sc.toffset) / 2 && fresh(table)
        invariant forall i :: 0 <= i < num ==> table[i] == SbEntry(ids[i], 0)
      {
        table[num] := SbEntry(ids[num], 0);
        num := num + 1;
      }
      if sc.toffset + 2 * (num + 1) <= sc.roffset {
        table[num] := table[num].(bidB := 0);
      }
      tableNum := num;
    }

    /** Step 4.2. */
    method CoverBlocks(ids: seq<nat>)
      requires Layout(CovOf(sc, scB, {}), {}, {}) && Bitmap.Ascending(ids)
      requires IsMorphed(sc, metaSize) && scB.bitsize > 0
      requires forall j :: j in ids ==> sc.roffset <= Start(scB, j) && End(scB, j) <= SLAB_SIZE
      modifies this`used, bitmap, meta, dmeta
      ensures Layout(CovOf(sc, scB, Elements(ids)), {}, {})
    {
      assert Elements(ids[..0]) == {};
      for i := 0 to |ids|
        invariant Layout(CovOf(sc, scB, Elements(ids[..i])), {}, {})
      {
        NextElement(ids, i);
        CoverBlock(ids[i], Elements(ids[..i]));
      }
      assert ids[..|ids|] == ids;
    }

    /** The current class becomes the previous one; the number of its blocks goes into 8 bits. */
    method KeepAsPrevious()
      requires used <= 255
      modifies this`scB, this`numB
      ensures scB == sc && numB == used
    {
      scB := sc;
      numB := used % 256;
    }

    /** Step 4 of slab_morphing: the taken slots `ids` become old blocks under the cut `tmp`. */
    method Recut(tmp: SizeClass, ids: seq<nat>)
      requires metaSize == 1152 && Bitmap.Ascending(ids) && |ids| == used
      requires 0 < used <= 255 && IsServedSize(tmp.bitsize)
      requires IsMorphed(tmp, metaSize) && tmp.roffset - tmp.toffset == TableSize(used)
      requires sc.bitsize > 0
      requires forall j :: j in ids ==> tmp.roffset <= Start(sc, j) && End(sc, j) <= SLAB_SIZE
      modifies this`sc, this`scB, this`used, this`numB, this`bitmap, this`meta, this`dmeta, this`table, this`tableNum
      ensures sc == tmp && scB == old(sc) && numB == |ids|
      ensures Layout(CovOf(sc, scB, Elements(ids)), {}, {})
      ensures tableNum <= table.Length && TableOk(table[..tableNum], Elements(ids))
      ensures fresh(bitmap) && fresh(meta) && fresh(dmeta) && fresh(table)
      ensures Laid(sc, meta.Length, table[..], tableNum)
    {
      hide SlotsOk, CovOf, TableOk, AreaOk, Over, Taken, Marks;
      KeepAsPrevious();
      RecutArea(tmp, |ids|);
      Reinit(tmp, tmp.toffset - tmp.moffset);
      WriteTable(ids);
      CoverBlocks(ids);
    }

    /** Steps 3 to 5 of slab_morphing, for a slab with live blocks. */
    method MorphLive(target: SizeClass) returns (outcome: MorphOutcome)
      requires Valid() && st.prior == {} && st.cached == {} && st.live != {}
      requires used == |st.live| <= 203
      requires (forall k :: 0 <= k < bitmap.Length ==> (bitmap[k] <==> k !in st.live)) && forall k :: k in st.live ==> k < bitmap.Length
      requires IsBoot(target) && IsServedSize(target.bitsize) && MetaSize(target.nbits + 1) <= metaSize
      modifies this
      ensures Valid() && MorphTo(old(st), target, metaSize, st)
      ensures outcome == MorphOutcome.Recut || outcome == Refused
      ensures outcome.Recut? ==> st.prior == old(st).live && st.scB == old(st).sc && st.live == {}
      ensures outcome.Refused? ==> st == old(st) && used == old(used)
      ensures outcome.Recut? <==> forall j :: j in old(st).live ==> 64 + 1152 + (2 * |old(st).live| + 63) / 64 * 64 <= Start(old(st).sc, j)
      ensures outcome.Recut? ==> IsReset(sc, 1152, (2 * |old(st).live| + 63) / 64 * 64) && sc.bitsize == target.bitsize
    {
      hide Inv, SlotsOk, Over, CovOf, TableOk, Laid, MorphTo, Taken, IsBoot, IsReset, IsMetaFor, IsMorphed, MetaSize, IsServedSize, TableSize;
      TableFits(used);
      var tmp := SizeclassReset(target, metaSize, TableSize(used));
      ResetFitsMeta(target, tmp, metaSize, TableSize(used));
      TableSizeIs(used);
      ResetStart(tmp, metaSize, TableSize(used));
      var ids := Bitmap.TakenSlots(bitmap);
      TakenIds(bitmap[..], ids, st.live);
      if tmp.roffset > sc.roffset + ids[0] * sc.bitsize {
        RefusedStep(st, target, tmp, metaSize, ids[0]);
        return Refused;
      }
      FirstIsLowest(sc, ids, tmp.roffset);
      RecutStep(st, target, tmp, metaSize);
      Recut(tmp, ids);
      st := State(tmp, scB, st.live, {}, {});
      return MorphOutcome.Recut;
    }

    /** Step 2 of slab_morphing: nothing is live, so the slab is initialised for the new class. */
    method MorphEmpty(target: SizeClass)
      requires metaSize == 1152 && IsBoot(target)
      modifies this
      ensures Valid() && st == State(target, old(scB), {}, {}, {}) && used == 0
    {
      BootArea(target);
      Reinit(target, target.roffset - target.moffset);
      numB, tableNum := 0, 0;
      st := State(target, scB, {}, {}, {});
    }

    /** slab_morphing from step 2 on; `target` is the boot class of the requested size. */
    method Morph(target: SizeClass) returns (outcome: MorphOutcome)
      requires Valid() && st.prior == {} && st.cached == {}
      requires IsServedSize(sc.bitsize) && 5 * used <= sc.nbits
      requires IsBoot(target) && IsServedSize(target.bitsize) && MetaSize(target.nbits + 1) <= metaSize
      modifies this
      ensures Valid() && Step(old(st), SlabSpec.Morph(target), st, metaSize)
      ensures outcome.Reset? <==> old(st).live == {}
      ensures outcome.Reset? ==> st == State(target, old(scB), {}, {}, {}) && used == 0 && old(used) == 0
      ensures outcome.Recut? ==> st.prior == old(st).live && st.scB == old(st).sc && st.live == {}
      ensures outcome.Recut? || outcome.Refused? ==> old(used) > 0
      ensures !outcome.Reset? ==>
                (outcome.Recut? <==> forall j :: j in old(st).live ==> 64 + 1152 + (2 * |old(st).live| + 63) / 64 * 64 <= Start(old(st).sc, j))
      ensures outcome.Recut? ==> IsReset(sc, 1152, (2 * |old(st).live| + 63) / 64 * 64) && sc.bitsize == target.bitsize
      ensures outcome.Refused? ==> st == old(st) && used == old(used)
    {
      hide Inv, SlotsOk, Over, CovOf, TableOk, Laid, MorphTo, Taken, IsBoot, MetaSize, IsServedSize, Step;
      LiveBits(st, metaSize, bitmap[..], meta[..], dmeta[..]);
      ghost var st0 := st;
      if used == 0 {
        MorphEmpty(target);
        ResetStep(st0, target, metaSize);
        return Reset;
      }
      ServedClass(st, metaSize);
      OldBlocksFitCounter(sc, metaSize, used);
      outcome := MorphLive(target);
      MorphIsStep(st0, target, metaSize, st);
    }

    // -------------------------------------------------------------------------------------
    // slab_pop_one_cache, the allocation of a cached slot, and slab_free_small
    // -------------------------------------------------------------------------------------

    /** slab_pop_one_cache for requests of `bitsize` bytes: the lowest available slot enters the
        thread cache.  A shadowed tail slot is counted as taken, so the request is refused exactly if
        the class differs, nothing is available, or the tail is shadowed and one slot is available. */
    method Pop(bitsize: nat) returns (r: Option<nat>)
      requires Valid()
      modifies this`used, this`st, bitmap
      ensures Valid()
      ensures r.Some? ==> Step(old(st), SlabSpec.Pop(r.value), st, metaSize)
      ensures r.None? ==> st == old(st) && used == old(used)
      ensures r.Some? ==> used == old(used) + 1
      ensures r.None? <==> sc.bitsize != bitsize || LooksFull(old(st))
    {
      if sc.bitsize != bitsize {
        return None;
      }
      BitmapShowsAvailable(st, bitmap[..], meta[..], dmeta[..]);
      FullSlab(st, metaSize, bitmap[..]);
      if used == sc.nbits + 1 {
        return None;
      }
      if used == sc.nbits {
        return None;
      }
      TakenAtMost(bitmap[..], Slots(sc));
      ghost var free := FreeBit(st, bitmap[..], used);
      var index := PopLowest();
      return Some(index);
    }

    method PopLowest() returns (index: nat)
      requires Valid() && true in bitmap[..]
      requires exists k :: 0 <= k < sc.nbits <= bitmap.Length && bitmap[k]
      modifies this`used, this`st, bitmap
      ensures Valid() && Step(old(st), SlabSpec.Pop(index), st, metaSize) && used == old(used) + 1
    {
      hide Inv, SlotsOk, CovOf, Over, Step, TableOk, Laid, Taken;
      ghost var before := bitmap[..];
      index := Bitmap.Sfu(bitmap, true);
      used := used + 1;
      PoppedSlot(st, metaSize, before, meta[..], dmeta[..], index);
      st := st.(cached := st.cached + {index});
    }

    /** nvalloc_malloc_to hands out a cached slot. */
    method Take(k: nat)
      requires Valid() && k in st.cached
      modifies this`st, meta, dmeta
      ensures Valid() && Step(old(st), SlabSpec.Take(k), st, metaSize)
    {
      ChangedSlot(st, SlabSpec.Take(k), st.(cached := st.cached - {k}, live := st.live + {k}), metaSize,
                  bitmap[..], meta[..], dmeta[..], k, false, true, dmeta[k].(taken := true));
      meta[BidToMid(k)] := true;
      dmeta[k] := dmeta[k].(taken := true);
      st := st.(cached := st.cached - {k}, live := st.live + {k});
    }

    /** The branch of slab_free_small for a block of the current class: its metadata bit is cleared
        and the slot goes to the thread cache or back to the slab. */
    method FreeNewBlock(index: nat, toCache: bool) returns (outcome: FreeOutcome)
      requires Valid() && index in st.live
      modifies this`used, this`st, bitmap, meta, dmeta
      ensures Valid() && Step(old(st), SlabSpec.FreeNew(index, toCache), st, metaSize)
      ensures used == old(used) - (if toCache then 0 else 1)
      ensures outcome.Released? <==> !toCache && used == 0
      ensures !outcome.Rejoined?
    {
      if toCache {
        ReturnToCache(index);
        outcome := Kept;
      } else {
        ReturnToSlab(index);
        outcome := if used == 0 then Released else Kept;
      }
    }

    method ReturnToCache(index: nat)
      requires Valid() && index in st.live
      modifies this`st, meta, dmeta
      ensures Valid() && Step(old(st), SlabSpec.FreeNew(index, true), st, metaSize)
    {
      ghost var st' := st.(live := st.live - {index}, cached := st.cached + {index});
      ChangedSlot(st, SlabSpec.FreeNew(index, true), st', metaSize,
                  bitmap[..], meta[..], dmeta[..], index, false, false, dmeta[index].(taken := false));
      meta[BidToMid(index)] := false;
      dmeta[index] := dmeta[index].(taken := false);
      st := st';
    }

    method ReturnToSlab(index: nat)
      requires Valid() && index in st.live
      modifies this`used, this`st, bitmap, meta, dmeta
      ensures Valid() && Step(old(st), SlabSpec.FreeNew(index, false), st, metaSize) && used == old(used) - 1
    {
      hide TableOk, Laid;
      ghost var st' := st.(live := st.live - {index});
      ChangedSlot(st, SlabSpec.FreeNew(index, false), st', metaSize,
                  bitmap[..], meta[..], dmeta[..], index, true, false, dmeta[index].(taken := false));
      TakenUpdate(bitmap[..], index, true);
      meta[BidToMid(index)] := false;
      dmeta[index] := dmeta[index].(taken := false);
      Bitmap.UnsetBits(bitmap, index);
      used := used - 1;
      st := st';
    }

    /** The walk along the table to the entry of old block bidB. */
    method FindEntry(bidB: nat) returns (pos: nat)
      requires tableNum <= table.Length && exists i :: 0 <= i < tableNum && table[i].bidB == bidB
      ensures pos < tableNum && table[pos].bidB == bidB
    {
      pos := 0;
      while table[pos].bidB != bidB
        invariant pos < tableNum && forall i :: 0 <= i < pos ==> table[i].bidB != bidB
        decreases table.Length - pos
      {
        pos := pos + 1;
      }
    }

    /** The first `table->is_freed += 1`: the table now records the block as freed. */
    method MarkFreed(bidB: nat, ghost prior: set<nat>) returns (pos: nat)
      requires tableNum <= table.Length && TableOk(table[..tableNum], prior) && bidB in prior
      modifies table
      ensures TableOk(table[..tableNum], prior - {bidB}) && pos < tableNum && old(table[pos].isFreed) == 0
      ensures table[..] == old(table[..])[pos := SbEntry(bidB, 1)] && old(table[pos].bidB) == bidB
    {
      EntryExists(table[..tableNum], prior, bidB);
      pos := FindEntry(bidB);
      FreedEntry(table[..tableNum], prior, pos);
      table[pos] := SbEntry(table[pos].bidB, table[pos].isFreed + 1);
    }

    /** The second one, after the slots have been reopened. */
    method MarkFreedAgain(pos: nat, ghost prior: set<nat>)
      requires pos < tableNum <= table.Length && TableOk(table[..tableNum], prior) && table[pos].isFreed > 0
      modifies table
      ensures TableOk(table[..tableNum], prior)
      ensures table[..] == old(table[..])[pos := SbEntry(old(table[pos].bidB), old(table[pos].isFreed) + 1)]
    {
      FreedEntry(table[..tableNum], prior, pos);
      assert prior - {table[pos].bidB} == prior;
      table[pos] := SbEntry(table[pos].bidB, table[pos].isFreed + 1);
    }

    /** The branch of slab_free_small for block j of the previous class. */
    method FreeOldBlock(offset: nat, index: nat, ghost j: nat) returns (outcome: FreeOutcome)
      requires Valid() && j in st.prior && offset == Start(scB, j) && index == SlotAt(sc, offset)
      modifies this`used, this`numB, this`st, bitmap, meta, dmeta, table
      ensures Valid() && Step(old(st), SlabSpec.FreeOld(j), st, metaSize)
      ensures outcome.Released? <==> used == 0
      ensures outcome.Rejoined? <==> used != 0 && st.prior == {}
    {
      hide Inv, SlotsOk, CovOf, Over, TableOk, Laid, Step, IsMorphed, Taken, Start, End, SlotAt;
      ghost var st' := FreedOldBlock(st, metaSize, j);
      numB := numB - 1;
      var bidB := (offset - scB.roffset) / scB.bitsize;
      var pos := MarkFreed(bidB, st.prior);
      MarkedTwice(sc, meta.Length, old(table[..]), tableNum, pos);
      UncoverBlock(offset, index, bidB, st.prior, st.live, st.cached);
      MarkFreedAgain(pos, st'.prior);
      assert table[..] == old(table[..])[pos := SbEntry(old(table[..])[pos].bidB, 2)];
      st := st';
      if used == 0 {
        outcome := Released;
      } else if numB == 0 {
        outcome := Rejoined;
      } else {
        outcome := Kept;
      }
    }

    /** slab_free_small.  The caller passes the offset of a block it holds; toCache tells whether
        its own thread cache has room. */
    method Free(offset: nat, toCache: bool, ghost b: Block) returns (outcome: FreeOutcome)
      requires Valid() && InUse(st, b) && (b.NewBlock? ==> b.k in st.live) && offset == Lo(st, b)
      modifies this`used, this`numB, this`st, bitmap, meta, dmeta, table
      ensures Valid()
      ensures b.OldBlock? ==> Step(old(st), SlabSpec.FreeOld(b.j), st, metaSize)
      ensures b.NewBlock? ==> Step(old(st), SlabSpec.FreeNew(b.k, toCache), st, metaSize)
      ensures b.NewBlock? ==> used == old(used) - (if toCache then 0 else 1)
      ensures outcome.Released? <==> used == 0
      ensures outcome.Released? <==> forall c :: !InUse(st, c)
      ensures outcome.Rejoined? <==> b.OldBlock? && st.prior == {} && exists c :: InUse(st, c)
    {
      hide Inv, SlotsOk, CovOf, Over, TableOk, Laid, Step, Taken, Start, End;
      OffsetTellsKind(st, b, metaSize, dmeta[..], bitmap[..], meta[..]);
      var index := (offset - sc.roffset) / sc.bitsize;
      if numB != 0 && dmeta[index].numB != 0 {
        outcome := FreeOldBlock(offset, index, b.j);
      } else {
        outcome := FreeNewBlock(index, toCache);
      }
      UnusedIsEmpty(st, metaSize, bitmap[..], meta[..], dmeta[..]);
    }
  }

  lemma FirstSlotExists(sc: SizeClass, scB: SizeClass, j: nat, metaSize: nat)
    requires IsMorphed(sc, metaSize) && scB.bitsize > 0
    requires sc.roffset <= Start(scB, j) && End(scB, j) <= SLAB_SIZE
    ensures SlotAt(sc, Start(scB, j)) <= sc.nbits
  {
    FirstSlot(sc, Start(scB, j) - sc.roffset);
    OverlapReachesTailOnly(sc, SlotAt(sc, Start(scB, j)), scB, j, metaSize);
  }

  lemma ScannedSlot(sc: SizeClass, bid: nat, scB: SizeClass, j: nat, metaSize: nat, prior: set<nat>)
    requires IsMorphed(sc, metaSize) && scB.bitsize > 0 && j in prior
    requires sc.roffset <= Start(scB, j) && End(scB, j) <= SLAB_SIZE
    requires SlotAt(sc, Start(scB, j)) <= bid && Start(sc, bid) < End(scB, j)
    ensures bid <= sc.nbits && j in Over(sc, bid, scB, prior) && Over(sc, bid, scB, {j}) == {j}
  {
    OverlapReachesTailOnly(sc, bid, scB, j, metaSize);
    OverlapIsScan(sc, bid, scB, j);
  }

  /** The scan from the first overlapped slot to the first slot past the block's end visits
      exactly the overlapped slots. */
  lemma ScanCovers(sc: SizeClass, scB: SizeClass, done: set<nat>, j: nat, first: nat, past: nat, cov: seq<set<nat>>)
    requires sc.bitsize > 0 && scB.bitsize > 0 && sc.roffset <= Start(scB, j) && j !in done
    requires first == SlotAt(sc, Start(scB, j)) <= past && End(scB, j) <= Start(sc, past)
    requires |cov| == Slots(sc)
    requires forall k :: 0 <= k < |cov| ==> cov[k] == Over(sc, k, scB, done) + if first <= k < past then Over(sc, k, scB, {j}) else {}
    ensures cov == CovOf(sc, scB, done + {j})
  {
    forall k | 0 <= k < |cov| ensures cov[k] == Over(sc, k, scB, done + {j}) {
      OverlapIsScan(sc, k, scB, j);
      if past <= k {
        ProductMonotone(past, k, sc.bitsize);
      }
    }
  }

  lemma ScanUncovers(sc: SizeClass, scB: SizeClass, prior: set<nat>, j: nat, first: nat, past: nat, cov: seq<set<nat>>)
    requires sc.bitsize > 0 && scB.bitsize > 0 && sc.roffset <= Start(scB, j)
    requires first == SlotAt(sc, Start(scB, j)) <= past && End(scB, j) <= Start(sc, past)
    requires |cov| == Slots(sc)
    requires forall k :: 0 <= k < |cov| ==> cov[k] == Over(sc, k, scB, prior) - if first <= k < past then {j} else {}
    ensures cov == CovOf(sc, scB, prior - {j})
  {
    forall k | 0 <= k < |cov| ensures cov[k] == Over(sc, k, scB, prior - {j}) {
      OverlapIsScan(sc, k, scB, j);
      if past <= k {
        ProductMonotone(past, k, sc.bitsize);
      }
    }
  }

  function Elements(ids: seq<nat>): set<nat> {
    set j | j in ids
  }

  lemma NextElement(ids: seq<nat>, i: nat)
    requires Bitmap.Ascending(ids) && i < |ids|
    ensures ids[i] in ids && ids[i] !in Elements(ids[..i])
    ensures Elements(ids[..i + 1]) == Elements(ids[..i]) + {ids[i]}
  {
    assert ids[..i + 1] == ids[..i] + [ids[i]];
  }

  /** The records of cut c fit: every slot has a bitmap bit and a metadata bit. */
  ghost predicate AreaOk(c: SizeClass, area: nat) {
    Slots(c) <= Bitmap.WORD * c.nBitmaps && forall k :: 0 <= k < Slots(c) ==> BidToMid(k) < 8 * area
  }

  lemma BootArea(c: SizeClass)
    requires IsBoot(c)
    ensures AreaOk(c, c.roffset - c.moffset)
  {
    forall k | 0 <= k < c.nbits ensures BidToMid(k) < 8 * MetaSize(c.nbits) {
      BidToMidInArea(k, c.nbits);
    }
  }

  lemma RecutArea(c: SizeClass, used: nat)
    requires IsReset(c, 1152, TableSize(used)) && IsMetaFor(c, 1152)
    requires IsServedSize(c.bitsize) && 0 < used <= 255
    ensures AreaOk(c, c.toffset - c.moffset)
  {
    TailSlotHasBitmapBit(c, used);
    forall k | 0 <= k < c.nbits + 1 ensures BidToMid(k) < 8 * 1152 {
      BidToMidInArea(k, c.nbits + 1);
    }
  }

  /** Without old and cached blocks, the zero bits are exactly the live slots. */
  lemma TakenAreLive(cov: seq<set<nat>>, live: set<nat>, bitmap: seq<bool>, meta: seq<bool>, dmeta: seq<DMeta>)
    requires SlotsOk(cov, live, {}, bitmap, meta, dmeta)
    requires forall k :: 0 <= k < |cov| ==> cov[k] == {}
    requires forall k :: k in live ==> k < |cov|
    ensures forall k :: 0 <= k < |bitmap| ==> (bitmap[k] <==> k !in live)
    ensures Taken(bitmap) == |live|
  {
    TakenIsCardinality(bitmap);
    assert (set k | 0 <= k < |bitmap| && !bitmap[k]) == live;
  }

  /** A bitmap without taken slots. */
  function Blanks(words: nat): seq<bool> {
    seq(Bitmap.WORD * words, _ => true)
  }

  lemma BlankSlots(c: SizeClass, scB: SizeClass, area: nat)
    requires AreaOk(c, area)
    ensures SlotsOk(CovOf(c, scB, {}), {}, {}, Blanks(c.nBitmaps), seq(8 * area, _ => false), seq(c.nbits + 1, _ => DMeta(false, 0)))
    ensures Taken(Blanks(c.nBitmaps)) == 0 && |CovOf(c, scB, {})| == Slots(c)
  {
    TakenNone(Blanks(c.nBitmaps));
  }

  lemma TableFits(used: nat)
    requires used <= 203
    ensures HEAD_SIZE + 1152 + TableSize(used) <= SLAB_SIZE
  {
  }

  /** Without old and cached blocks, the bitmap shows the live slots. */
  lemma LiveBits(st: State, metaSize: nat, bitmap: seq<bool>, meta: seq<bool>, dmeta: seq<DMeta>)
    requires Inv(st, metaSize) && st.prior == {} && st.cached == {}
    requires SlotsOk(CovOf(st.sc, st.scB, st.prior), st.live, st.cached, bitmap, meta, dmeta)
    ensures (forall k :: 0 <= k < |bitmap| ==> (bitmap[k] <==> k !in st.live)) && Taken(bitmap) == |st.live|
    ensures forall k :: k in st.live ==> k < |bitmap|
  {
    TakenAreLive(CovOf(st.sc, st.scB, st.prior), st.live, bitmap, meta, dmeta);
  }

  lemma ResetStep(st: State, target: SizeClass, metaSize: nat)
    requires st.live == {} && st.prior == {} && st.cached == {} && IsBoot(target) && MetaSize(target.nbits + 1) <= metaSize
    ensures Step(st, SlabSpec.Morph(target), State(target, st.scB, {}, {}, {}), metaSize)
  {
  }

  lemma MorphIsStep(st: State, target: SizeClass, metaSize: nat, st': State)
    requires st.prior == {} && st.cached == {} && IsBoot(target) && MetaSize(target.nbits + 1) <= metaSize && MorphTo(st, target, metaSize, st')
    ensures Step(st, SlabSpec.Morph(target), st', metaSize)
  {
  }

  lemma NewState(c: SizeClass)
    requires IsBoot(c)
    ensures Inv(State(c, c, {}, {}, {}), 1152)
  {
  }

  lemma ServedClass(st: State, metaSize: nat)
    requires Inv(st, metaSize)
    ensures IsClass(st.sc, metaSize)
  {
  }

  lemma TakenIds(bitmap: seq<bool>, ids: seq<nat>, live: set<nat>)
    requires forall k :: k in ids <==> 0 <= k < |bitmap| && !bitmap[k]
    requires forall k :: k in live ==> k < |bitmap|
    requires forall k :: 0 <= k < |bitmap| ==> (bitmap[k] <==> k !in live)
    requires Bitmap.Ascending(ids)
    ensures Elements(ids) == live && |ids| == |live|
  {
    AscendingCardinality(ids);
  }

  lemma {:induction false} AscendingCardinality(ids: seq<nat>)
    requires Bitmap.Ascending(ids)
    ensures |Elements(ids)| == |ids|
  {
    if ids != [] {
      var n := |ids| - 1;
      AscendingCardinality(ids[..n]);
      NextElement(ids, n);
      assert ids[..n + 1] == ids;
    }
  }

  lemma FirstIsLowest(sc: SizeClass, ids: seq<nat>, roffset: nat)
    requires Bitmap.Ascending(ids) && ids != [] && roffset <= Start(sc, ids[0])
    ensures forall j :: j in ids ==> roffset <= Start(sc, j)
  {
    forall j | j in ids ensures roffset <= Start(sc, j) {
      ProductMonotone(ids[0], j, sc.bitsize);
    }
  }

  lemma ResetStart(sc: SizeClass, metaSize: nat, tableSize: nat)
    requires IsReset(sc, metaSize, tableSize)
    ensures sc.roffset == 64 + metaSize + tableSize
  {
  }

  lemma RefusedStep(st: State, target: SizeClass, tmp: SizeClass, metaSize: nat, j: nat)
    requires st.live != {} && j in st.live && Start(st.sc, j) < tmp.roffset
    requires IsReset(tmp, metaSize, TableSize(|st.live|)) && tmp.bitsize == target.bitsize
    ensures MorphTo(st, target, metaSize, st)
  {
  }

  lemma RecutStep(st: State, target: SizeClass, tmp: SizeClass, metaSize: nat)
    requires Inv(st, metaSize) && st.live != {}
    requires IsReset(tmp, metaSize, TableSize(|st.live|)) && IsMetaFor(tmp, metaSize) && tmp.bitsize == target.bitsize
    requires forall j :: j in st.live ==> tmp.roffset <= Start(st.sc, j)
    ensures MorphTo(st, target, metaSize, State(tmp, st.sc, st.live, {}, {}))
    ensures Inv(State(tmp, st.sc, st.live, {}, {}), metaSize)
    ensures forall j :: j in st.live ==> End(st.sc, j) <= SLAB_SIZE
    ensures st.sc.bitsize > 0 && IsMorphed(tmp, metaSize) && tmp.roffset - tmp.toffset == TableSize(|st.live|)
  {
    forall j | j in st.live ensures End(st.sc, j) <= SLAB_SIZE {
      SlotInSlab(st.sc, metaSize, j);
    }
  }

  /** What the bitmap of a valid slab says. */
  ghost predicate ShowsAvailable(st: State, bitmap: seq<bool>) {
    && st.sc.nbits <= |bitmap|
    && (forall k :: 0 <= k < st.sc.nbits ==> (bitmap[k] <==> Available(st, k)))
    && (forall k :: Slots(st.sc) <= k < |bitmap| ==> bitmap[k])
    && (Slots(st.sc) > st.sc.nbits ==> st.sc.nbits < |bitmap| && (bitmap[st.sc.nbits] <==> !Shadowed(st, st.sc.nbits)))
  }

  lemma BitmapShowsAvailable(st: State, bitmap: seq<bool>, meta: seq<bool>, dmeta: seq<DMeta>)
    requires forall k :: k in st.live || k in st.cached ==> k < st.sc.nbits
    requires SlotsOk(CovOf(st.sc, st.scB, st.prior), st.live, st.cached, bitmap, meta, dmeta)
    ensures ShowsAvailable(st, bitmap)
  {
    var cov := CovOf(st.sc, st.scB, st.prior);
    forall k | 0 <= k < st.sc.nbits ensures bitmap[k] <==> Available(st, k) {
      assert cov[k] == Over(st.sc, k, st.scB, st.prior);
    }
  }

  lemma FullSlab(st: State, metaSize: nat, bitmap: seq<bool>)
    requires Inv(st, metaSize) && metaSize > 0 && ShowsAvailable(st, bitmap)
    ensures Taken(bitmap) >= st.sc.nbits <==> LooksFull(st)
  {
    if Shadowed(st, st.sc.nbits) {
      ShadowedTail(st, bitmap);
    } else {
      OpenTail(st, bitmap);
    }
  }

  lemma ShadowedTail(st: State, bitmap: seq<bool>)
    requires ShowsAvailable(st, bitmap) && Shadowed(st, st.sc.nbits) && Slots(st.sc) > st.sc.nbits
    ensures Taken(bitmap) >= st.sc.nbits <==> LooksFull(st)
  {
    hide Shadowed, AtMostOneFree, OnlyAvailable, NoneAvailable;
    FreeBelowTail(bitmap, st.sc.nbits);
    FreeMeansAvailable(st, bitmap);
  }

  lemma FreeMeansAvailable(st: State, bitmap: seq<bool>)
    requires ShowsAvailable(st, bitmap)
    ensures AtMostOneFree(bitmap, st.sc.nbits) <==> NoneAvailable(st) || exists k :: OnlyAvailable(st, k)
  {
    hide Shadowed, ShowsAvailable;
    var n := st.sc.nbits;
    ShowsBits(st, bitmap);
    if AtMostOneFree(bitmap, n) {
      if !NoneAvailable(st) {
        var k :| Available(st, k);
        OneFree(bitmap, n, k);
        assert OnlyAvailable(st, k);
      }
    } else {
      var i, j :| 0 <= i < j < n && bitmap[i] && bitmap[j];
      assert Available(st, i) && Available(st, j);
    }
  }

  lemma ShowsBits(st: State, bitmap: seq<bool>)
    requires ShowsAvailable(st, bitmap)
    ensures st.sc.nbits <= |bitmap| && forall k :: 0 <= k < st.sc.nbits ==> (bitmap[k] <==> Available(st, k))
  {
  }

  lemma OneFree(bitmap: seq<bool>, n: nat, k: nat)
    requires n <= |bitmap| && AtMostOneFree(bitmap, n) && k < n && bitmap[k]
    ensures forall i :: 0 <= i < n && bitmap[i] ==> i == k
  {
  }

  lemma OpenTail(st: State, bitmap: seq<bool>)
    requires ShowsAvailable(st, bitmap) && !Shadowed(st, st.sc.nbits)
    ensures Taken(bitmap) >= st.sc.nbits <==> NoneAvailable(st)
  {
    var n := st.sc.nbits;
    if Taken(bitmap) >= n {
      forall k | 0 <= k < n ensures !Available(st, k) {
        TakenAll(bitmap, n, k);
      }
    } else {
      var k := FreeSlotBelow(bitmap, n);
      assert Available(st, k);
    }
  }

  lemma FreeBit(st: State, bitmap: seq<bool>, used: nat) returns (k: nat)
    requires ShowsAvailable(st, bitmap) && used == Taken(bitmap)
    requires used != st.sc.nbits && used != st.sc.nbits + 1
    ensures k < st.sc.nbits && bitmap[k] && true in bitmap
  {
    TakenAtMost(bitmap, Slots(st.sc));
    k := FreeSlotBelow(bitmap, st.sc.nbits);
  }

  lemma PoppedSlot(st: State, metaSize: nat, bitmap: seq<bool>, meta: seq<bool>, dmeta: seq<DMeta>, index: nat)
    requires Inv(st, metaSize)
    requires SlotsOk(CovOf(st.sc, st.scB, st.prior), st.live, st.cached, bitmap, meta, dmeta)
    requires index < |bitmap| && bitmap[index]
    requires forall k :: 0 <= k < index ==> !bitmap[k]
    requires exists k :: 0 <= k < st.sc.nbits <= |bitmap| && bitmap[k]
    ensures var st' := st.(cached := st.cached + {index});
            Step(st, SlabSpec.Pop(index), st', metaSize) && Inv(st', metaSize)
    ensures SlotsOk(CovOf(st.sc, st.scB, st.prior), st.live, st.cached + {index}, bitmap[index := false], meta, dmeta)
    ensures Taken(bitmap[index := false]) == Taken(bitmap) + 1
  {
    BitmapShowsAvailable(st, bitmap, meta, dmeta);
    TakenUpdate(bitmap, index, false);
    StepKeepsInv(st, SlabSpec.Pop(index), st.(cached := st.cached + {index}), metaSize);
  }

  /** A step that changes the status of one slot keeps the records in agreement when the slot's
      own records are updated to match. */
  lemma ChangedSlot(st: State, op: Op, st': State, metaSize: nat, bitmap: seq<bool>, meta: seq<bool>, dmeta: seq<DMeta>,
                    k: nat, free: bool, metaBit: bool, d: DMeta)
    requires Inv(st, metaSize) && (op.Take? || op.FreeNew?) && Step(st, op, st', metaSize)
    requires k == op.slot && |dmeta| == st.sc.nbits + 1
    requires SlotsOk(CovOf(st.sc, st.scB, st.prior), st.live, st.cached, bitmap, meta, dmeta)
    requires free == (op.FreeNew? && !op.toCache) && metaBit == op.Take? && d == dmeta[k].(taken := op.Take?)
    ensures Inv(st', metaSize) && k < st.sc.nbits && !bitmap[k]
    ensures SlotsOk(CovOf(st.sc, st.scB, st.prior), st'.live, st'.cached,
                    bitmap[k := free], meta[BidToMid(k) := metaBit], dmeta[k := d])
    ensures bitmap[k := false] == bitmap
  {
    StepKeepsInv(st, op, st', metaSize);
    var cov := CovOf(st.sc, st.scB, st.prior);
    assert cov[k] == {};
    SlotUpdate(cov, st.live, st.cached, bitmap, meta, dmeta, k, {}, st'.live, st'.cached, free, metaBit, d);
    assert cov[k := {}] == cov;
  }

  lemma OldBlockInSlab(st: State, metaSize: nat, j: nat)
    requires Inv(st, metaSize) && j in st.prior
    ensures IsMorphed(st.sc, metaSize) && st.scB.bitsize > 0
    ensures st.sc.roffset <= Start(st.scB, j) && End(st.scB, j) <= SLAB_SIZE
    ensures (Start(st.scB, j) - st.scB.roffset) / st.scB.bitsize == j
  {
    SlotInSlab(st.scB, metaSize, j);
    ExactDivision(j, st.scB.bitsize);
  }

  lemma FreedOldBlock(st: State, metaSize: nat, j: nat) returns (st': State)
    requires Inv(st, metaSize) && j in st.prior
    ensures IsMorphed(st.sc, metaSize) && st.scB.bitsize > 0
    ensures st.sc.roffset <= Start(st.scB, j) && End(st.scB, j) <= SLAB_SIZE
    ensures (Start(st.scB, j) - st.scB.roffset) / st.scB.bitsize == j
    ensures forall k :: k in st.live || k in st.cached ==> Over(st.sc, k, st.scB, st.prior) == {}
    ensures st' == st.(prior := st.prior - {j}) && |st'.prior| == |st.prior| - 1
    ensures Step(st, SlabSpec.FreeOld(j), st', metaSize) && Inv(st', metaSize)
  {
    OldBlockInSlab(st, metaSize, j);
    st' := st.(prior := st.prior - {j});
    StepKeepsInv(st, SlabSpec.FreeOld(j), st', metaSize);
  }

  lemma EntryExists(table: seq<SbEntry>, prior: set<nat>, j: nat)
    requires TableOk(table, prior) && j in prior
    ensures exists i :: 0 <= i < |table| && table[i].bidB == j
  {
  }

  /** Freeing entry pos, once or twice, takes its block out of the set that the table encodes. */
  lemma NoTable(c: SizeClass)
    requires IsBoot(c)
    ensures c.moffset <= c.roffset && TableOk([], {}) && Laid(c, 8 * (c.roffset - c.moffset), [], 0)
  {
  }

  lemma MarkedTwice(sc: SizeClass, metaBits: nat, table: seq<SbEntry>, num: nat, pos: nat)
    requires Laid(sc, metaBits, table, num) && pos < num <= |table|
    ensures Laid(sc, metaBits, table[pos := SbEntry(table[pos].bidB, 2)], num)
  {
  }

  lemma FreedEntry(table: seq<SbEntry>, prior: set<nat>, pos: nat)
    requires TableOk(table, prior) && pos < |table|
    ensures forall n :: n > 0 ==> TableOk(table[pos := SbEntry(table[pos].bidB, n)], prior - {table[pos].bidB})
  {
    forall n | n > 0 ensures TableOk(table[pos := SbEntry(table[pos].bidB, n)], prior - {table[pos].bidB}) {
      var t := table[pos := SbEntry(table[pos].bidB, n)];
      forall b | b in prior - {table[pos].bidB} ensures exists i :: 0 <= i < |t| && t[i].bidB == b {
        var i :| 0 <= i < |table| && table[i].bidB == b;
        assert t[i].bidB == b;
      }
    }
  }

  lemma OffsetTellsKind(st: State, b: Block, metaSize: nat, dmeta: seq<DMeta>, bitmap: seq<bool>, meta: seq<bool>)
    requires Inv(st, metaSize) && InUse(st, b)
    requires SlotsOk(CovOf(st.sc, st.scB, st.prior), st.live, st.cached, bitmap, meta, dmeta)
    ensures st.sc.bitsize > 0 && st.sc.roffset <= Lo(st, b)
    ensures var index := SlotAt(st.sc, Lo(st, b));
            index < |dmeta| && (b.OldBlock? <==> dmeta[index].numB != 0) && (b.NewBlock? ==> index == b.k)
  {
    var cov := CovOf(st.sc, st.scB, st.prior);
    match b {
      case OldBlock(j) =>
        OldBlockInSlab(st, metaSize, j);
        OldAddressIsShadowed(st, j, metaSize);
        FirstSlotExists(st.sc, st.scB, j, metaSize);
        assert cov[SlotAt(st.sc, Start(st.scB, j))] != {};
      case NewBlock(k) =>
        NewAddressIsOwnSlot(st, k, metaSize);
        assert cov[k] == {};
    }
  }

  /** bitmap_header.nbits is zero exactly when no block is in use. */
  lemma UnusedIsEmpty(st: State, metaSize: nat, bitmap: seq<bool>, meta: seq<bool>, dmeta: seq<DMeta>)
    requires Inv(st, metaSize)
    requires SlotsOk(CovOf(st.sc, st.scB, st.prior), st.live, st.cached, bitmap, meta, dmeta)
    ensures Taken(bitmap) == 0 <==> forall c :: !InUse(st, c)
    ensures st.cached != {} ==> exists c :: InUse(st, c)
  {
    var cov := CovOf(st.sc, st.scB, st.prior);
    if Taken(bitmap) == 0 {
      forall c ensures !InUse(st, c) {
        if InUse(st, c) {
          OffsetTellsKind(st, c, metaSize, dmeta, bitmap, meta);
          var index := SlotAt(st.sc, Lo(st, c));
          if c.OldBlock? {
            OldBlockInSlab(st, metaSize, c.j);
            FirstSlotExists(st.sc, st.scB, c.j, metaSize);
          }
          TakenZero(bitmap, index);
        }
      }
    } else if forall c :: !InUse(st, c) {
      NothingInUse(st);
      TakenNone(bitmap);
    }
    if st.cached != {} {
      var k :| k in st.cached;
      assert InUse(st, NewBlock(k));
    }
  }

  lemma NothingInUse(st: State)
    requires forall c :: !InUse(st, c)
    ensures st.live == {} && st.cached == {} && st.prior == {}
    ensures forall k :: 0 <= k < Slots(st.sc) ==> CovOf(st.sc, st.scB, st.prior)[k] == {}
  {
    forall k ensures k !in st.live && k !in st.cached {
      assert !InUse(st, NewBlock(k));
    }
    forall j ensures j !in st.prior {
      assert !InUse(st, OldBlock(j));
    }
  }
}
