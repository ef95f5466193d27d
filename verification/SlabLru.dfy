/** One slab of src/slab.c and the counters of its arena together: what is counted is what the slab's
    records say, and a slab is on the LRU list exactly while no old block is live in it. */
module SlabLru {
  import opened SizeClasses
  import opened SlabSpec
  import opened SlabLayout
  import opened Slab
  import opened LruCounts

  ghost predicate Joint(arena: Arena, v: nat, slab: VSlab)
    reads arena, slab, slab.bitmap, slab.meta, slab.dmeta, slab.table
  {
    && arena.Valid() && slab.Valid()
    && (v in arena.lru <==> slab.numB == 0)
    && (v in arena.lru ==> arena.lru[v] == Use(slab.used, slab.sc.nbits))
  }

  /** The other slabs of the arena. */
  ghost function Others(arena: Arena, v: nat): map<nat, Use>
    reads arena
  {
    arena.lru - {v}
  }

  /** slab_create. */
  method CreateSlab(arena: Arena, v: nat, c: SizeClass) returns (slab: VSlab)
    requires arena.Valid() && v !in arena.lru && IsBoot(c)
    modifies arena
    ensures fresh(slab) && Joint(arena, v, slab) && slab.st == State(c, c, {}, {}, {}) && Others(arena, v) == old(Others(arena, v))
  {
    slab := new VSlab(c);
    arena.Create(v, c.nbits);
  }

  /** slab_pop_one_cache. */
  method PopSlab(arena: Arena, v: nat, slab: VSlab, bitsize: nat) returns (r: Slab.Option<nat>)
    requires Joint(arena, v, slab)
    modifies arena, slab`used, slab`st, slab.bitmap
    ensures Joint(arena, v, slab) && Others(arena, v) == old(Others(arena, v))
    ensures r.None? <==> slab.sc.bitsize != bitsize || LooksFull(old(slab.st))
    ensures if r.None? then slab.st == old(slab.st) else Step(old(slab.st), SlabSpec.Pop(r.value), slab.st, slab.metaSize)
  {
    hide Inv, SlotsOk, TableOk, Laid, CovOf, LowSlabs, LooksFull, Available, Shadowed;
    r := slab.Pop(bitsize);
    if r.Some? && slab.numB == 0 {
      arena.Pop(v);
    }
  }

  /** slab_free_small.  A slab that is released is off the list. */
  method FreeSlab(arena: Arena, v: nat, slab: VSlab, offset: nat, toCache: bool, ghost b: Block) returns (outcome: FreeOutcome)
    requires Joint(arena, v, slab) && InUse(slab.st, b) && (b.NewBlock? ==> b.k in slab.st.live) && offset == Lo(slab.st, b)
    modifies arena, slab`used, slab`numB, slab`st, slab.bitmap, slab.meta, slab.dmeta, slab.table
    ensures Others(arena, v) == old(Others(arena, v))
    ensures outcome.Released? <==> forall c :: !InUse(slab.st, c)
    ensures if outcome.Released? then arena.Valid() && v !in arena.lru else Joint(arena, v, slab)
  {
    hide Inv, SlotsOk, TableOk, Laid, CovOf, Step, InUse, Low, LowSlabs, Lo, Others;
    var mixed := slab.numB != 0;
    ghost var st := slab.st;
    BlockKind(st, b);
    outcome := slab.Free(offset, toCache, b);
    PriorAfter(st, b, toCache, slab.st, slab.metaSize);
    Account(arena, v, mixed, toCache, outcome, slab.used, slab.sc.nbits);
  }

  /** What slab_free_small does to the list and its counters. */
  method Account(arena: Arena, v: nat, mixed: bool, toCache: bool, outcome: FreeOutcome, used: nat, num: nat)
    requires arena.Valid() && (v in arena.lru <==> !mixed)
    requires !mixed ==> arena.lru[v] == Use(used + (if toCache then 0 else 1), num)
    modifies arena
    ensures arena.Valid() && Others(arena, v) == old(Others(arena, v))
    ensures v in arena.lru <==> if mixed then outcome.Rejoined? else toCache || used > 0
    ensures v in arena.lru ==> arena.lru[v] == Use(used, num)
  {
    if !mixed {
      if !toCache {
        arena.Free(v);
      }
    } else if outcome.Rejoined? {
      arena.Rejoin(v, used, num);
    }
  }

  lemma BlockKind(st: State, b: Block)
    requires InUse(st, b)
    ensures |st.prior| == 0 ==> b.NewBlock?
  {
  }

  lemma PriorAfter(st: State, b: Block, toCache: bool, st': State, metaSize: nat)
    requires b.OldBlock? ==> Step(st, SlabSpec.FreeOld(b.j), st', metaSize)
    requires b.NewBlock? ==> Step(st, SlabSpec.FreeNew(b.k, toCache), st', metaSize)
    ensures b.NewBlock? ==> st'.prior == st.prior
    ensures st'.prior != {} || (b.NewBlock? && toCache) ==> exists c :: InUse(st', c)
  {
    if b.NewBlock? && toCache {
      assert InUse(st', b);
    }
    if st'.prior != {} {
      var j :| j in st'.prior;
      assert InUse(st', OldBlock(j));
    }
  }

  /** slab_get_one and slab_morphing. */
  method MorphSlab(arena: Arena, v: nat, slab: VSlab, target: SizeClass) returns (may: bool, outcome: MorphOutcome)
    requires Joint(arena, v, slab) && v in arena.lru && slab.st.cached == {}
    requires IsServedSize(slab.sc.bitsize)
    requires IsBoot(target) && IsServedSize(target.bitsize) && MetaSize(target.nbits + 1) <= slab.metaSize
    modifies arena, slab
    ensures Joint(arena, v, slab) && Others(arena, v) == old(Others(arena, v))
    ensures may <==> 5 * old(slab.used) <= old(slab.sc.nbits)
    ensures !may ==> slab.st == old(slab.st)
    ensures may ==> Step(old(slab.st), SlabSpec.Morph(target), slab.st, slab.metaSize)
  {
    hide Inv, SlotsOk, TableOk, Laid, CovOf, LowSlabs, Available, Shadowed, IsBoot, IsServedSize, MetaSize, IsReset;
    may := arena.Test(v);
    outcome := Refused;
    if may {
      outcome := slab.Morph(target);
      if outcome.Reset? {
        arena.Renew(v, target.nbits);
      } else if outcome.Recut? {
        arena.Cut(v);
      }
    }
  }
}
