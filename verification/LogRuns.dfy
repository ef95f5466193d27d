/** Runs of the log: what callers of add_log do with it, in any order, with any collections. */
module LogRuns {
  import opened LogSpec
  import opened LogCrash
  import opened LogState
  import opened LogDisk
  import opened Log
  import opened LogGc
  import opened LogArena
  import opened LogFast

  /** An extent, slab or file is entered in the log and keeps the address of its item. */
  method Register(arena: Arena, kind: Kind, ptr: nat, size: nat, slab: bool) returns (ok: bool, ghost ms: seq<Disk>)
    requires arena.Indexed() && arena.log.nextId < SIZE_LIMIT && !kind.Free? && 0 < ptr < PTR_LIMIT
    requires OwnerOf(Word(kind, ptr, VersionOf(size, slab))) !in arena.owners
    modifies arena`owners, arena.log, arena.file
    ensures arena.file.moments == old(arena.file.moments) + ms && arena.log == old(arena.log)
    ensures var x := Word(kind, ptr, VersionOf(size, slab));
            && (ok ==> arena.Indexed() && arena.log.Live() == old(arena.log.Live()) + {x}
                       && arena.owners == old(arena.owners)[OwnerOf(x) := NewestAddr(arena.log.Records())])
            && (old(arena.Valid()) ==> AllRecover(ms, old(arena.log.Live()), old(arena.log.Live()) + {x}) && (ok ==> arena.Valid()))
    ensures ok ==> arena.log.Records() == Logged(arena.file.base, old(arena.log.Records()), kind, ptr)
    ensures ok ==> arena.log.Live() == old(arena.log.Live()) + {Item(kind, ptr, (if slab then size + 1 else size) % 0x4000)}
    ensures ok && size % 2 == 0 ==>
              arena.owners.Keys == old(arena.owners.Keys) + {if kind.File? then FileOf(ptr) else if slab then Slab(ptr) else Extent(ptr)}
    ensures !ok ==> arena.file.Full() && arena.file.used <= old(arena.file.used) + CHUNK_SIZE
  {
    hide IndexOk, Durable, OwnersOk, AllRecover, LiveOf, Space, LogChunks, OthersHeld, HeldBack, Holds, TruePredecessors, PresNotBefore, HasBit,
         Logged, NewestAddr;
    ghost var d, tree := arena.file.disk, arena.log.tree;
    var x := Word(kind, ptr, VersionOf(size, slab));
    if size % 2 == 0 {
      OwnerOfWord(kind, ptr, size, slab);
    }
    var item;
    item, ok, ms := arena.log.AddLog(kind, ptr, size, slab);
    if ok {
      OwnersMore(d, arena.file.disk, tree, arena.log.tree, arena.owners, item, x);
      arena.owners := arena.owners[OwnerOf(x) := item];
    }
  }

  lemma OwnersMore(d: Disk, d': Disk, tree: Tree, tree': Tree, owners: Owners, item: nat, x: Item)
    requires OwnersOk(d, tree, owners) && OwnerOf(x) !in owners && Holds(d', tree', item, x)
    requires OthersHeld(d, d', tree, tree') && HeldBack(d, d', tree, tree', item, x)
    ensures OwnersOk(d', tree', owners[OwnerOf(x) := item])
  {
    hide Holds;
    var owners' := owners[OwnerOf(x) := item];
    forall o | o in owners' ensures exists y :: OwnerOf(y) == o && Holds(d', tree', owners'[o], y) {
      if o != OwnerOf(x) {
        var y :| OwnerOf(y) == o && Holds(d, tree, owners[o], y);
        assert Holds(d', tree', owners'[o], y);
      } else {
        assert Holds(d', tree', owners'[o], x);
      }
    }
  }

  /** What an owner's item says. */
  ghost function ItemOf(arena: Arena, o: Owner): Item
    requires o in arena.owners
    reads arena, arena.file
  {
    ItemAt(arena.file.disk, arena.owners[o])
  }

  /** An extent, slab or file leaves: its item is freed. */
  method Release(arena: Arena, o: Owner, slab: bool) returns (ok: bool, ghost ms: seq<Disk>)
    requires arena.Indexed() && arena.log.nextId < SIZE_LIMIT && o in arena.owners
    requires arena.file.base + arena.file.used <= PTR_LIMIT
    modifies arena`owners, arena.log, arena.file
    ensures arena.file.moments == old(arena.file.moments) + ms && arena.log == old(arena.log)
    ensures ok ==> arena.Indexed() && arena.log.Live() == old(arena.log.Live()) - {old(ItemOf(arena, o))}
    ensures ok ==> arena.log.Live() == set x | x in old(arena.log.Live()) && OwnerOf(x) != o
    ensures ok ==> arena.owners == old(arena.owners) - {o} && HasBit(arena.log.tree, arena.log.tail)
    ensures ok ==> arena.log.Records() == Logged(arena.file.base, old(arena.log.Records()), Free, old(arena.owners)[o])
    ensures old(arena.Valid()) ==>
              AllRecover(ms, old(arena.log.Live()), old(arena.log.Live()) - {old(ItemOf(arena, o))}) && (ok ==> arena.Valid())
    ensures !ok ==> arena.file.Full() && arena.file.used <= old(arena.file.used) + CHUNK_SIZE
  {
    hide IndexOk, Durable, OwnersOk, AllRecover, LiveOf, Space, LogChunks, OthersHeldBut, NoneNew, Holds, TruePredecessors, PresNotBefore, HasBit, FreesLive, ItemAt,
         Logged;
    ghost var d, tree := arena.file.disk, arena.log.tree;
    OwnerIsLive(d, arena.log.slot, tree, arena.log.tail, arena.log.nextId, arena.owners, o, arena.file.base, arena.file.used, arena.file.free);
    RootIsThere(d, arena.log.slot, tree, arena.log.tail, arena.log.nextId);
    OwnersItem(d, tree, arena.owners, o);
    var ptr, item := arena.owners[o], 0;
    item, ok, ms := arena.log.AddLog(Free, ptr, 0, slab);
    if ok {
      OwnersLess(d, arena.file.disk, arena.log.slot, tree, arena.log.tree, arena.owners, o);
      arena.owners := arena.owners - {o};
    }
  }

  lemma OwnerIsLive(d: Disk, slot: nat, tree: Tree, tail: nat, nextId: nat, owners: Owners, o: Owner, base: nat, used: nat, free: seq<nat>)
    requires IndexOk(d, slot, tree, tail, nextId) && OwnersOk(d, tree, owners) && o in owners
    requires Space(d, base, used, free, LogChunks(d, slot, tree)) && base + used <= PTR_LIMIT
    ensures FreesLive(d, tree, owners[o]) && owners[o] < PTR_LIMIT
  {
    hide Tracked, NoTwins, LiveAs, PresCarved, Carved;
    IndexShape(d, slot, tree, tail, nextId);
    OwnersNoTwins(d, tree, owners);
    var x :| OwnerOf(x) == o && Holds(d, tree, owners[o], x);
    HeldBelow(d, tree, owners[o], x, base, used);
  }

  lemma HeldBelow(d: Disk, tree: Tree, item: nat, x: Item, base: nat, used: nat)
    requires Holds(d, tree, item, x) && tree.Keys <= Carved(base, used) && used % CHUNK_SIZE == 0
    ensures item < base + used
  {
    var a, i :| LiveAs(d.vol.chunks, tree.Keys, a, i, x) && item == ItemAddr(a, i);
    CarvedBelow(base, used, a);
  }

  lemma CarvedBelow(base: nat, used: nat, a: nat)
    requires a in Carved(base, used) && used % CHUNK_SIZE == 0
    ensures a + CHUNK_SIZE <= base + used
  {
    var k :| 1 <= k < used / CHUNK_SIZE && a == base + k * CHUNK_SIZE;
  }

  /** An address holds one item. */
  lemma HeldOnce(d: Disk, tree: Tree, item: nat, x: Item, y: Item)
    requires Holds(d, tree, item, x) && Holds(d, tree, item, y)
    ensures x == y && ItemAt(d, item) == x
  {
    WhatIsHeld(d, tree, item);
  }

  lemma OwnersLess(d: Disk, d': Disk, slot: nat, tree: Tree, tree': Tree, owners: Owners, o: Owner)
    requires OwnersOk(d, tree, owners) && o in owners
    requires OthersHeldBut(d, d', tree, tree', owners[o]) && NoneNew(d, d', tree, tree')
    requires LiveOf(d', tree') == LiveOf(d, tree) - {ItemAt(d, owners[o])}
    ensures OwnersOk(d', tree', owners - {o})
  {
    hide Holds, LiveOf, ItemAt;
    var x :| OwnerOf(x) == o && Holds(d, tree, owners[o], x);
    HeldOnce(d, tree, owners[o], x, x);
    var owners' := owners - {o};
    forall item, y | Holds(d', tree', item, y) ensures OwnerOf(y) in owners' && owners'[OwnerOf(y)] == item {
      assert Holds(d, tree, item, y);
      HeldIsLive(d', tree', item, y);
      if OwnerOf(y) == o {
        HeldOnce(d, tree, item, x, y);
      }
    }
    forall o' | o' in owners' ensures exists y :: OwnerOf(y) == o' && Holds(d', tree', owners'[o'], y) {
      var y :| OwnerOf(y) == o' && Holds(d, tree, owners[o'], y);
      if owners[o'] == owners[o] {
        HeldOnce(d, tree, owners[o], x, y);
      }
      assert Holds(d', tree', owners'[o'], y);
    }
  }

  lemma HeldIsLive(d: Disk, tree: Tree, item: nat, x: Item)
    requires Holds(d, tree, item, x)
    ensures x in LiveOf(d, tree)
  {
    LiveIsHeld(d, tree, x);
  }

  /** What add_log may do after a Free item, depending on its counters. */
  datatype Collector = Nothing | Slow | Fast

  /** The end of add_log after a Free item.  Whichever collector runs, the live set stays and the owners
      find their items.  A replay finds the log afterwards, if it found it before, unless fast_GC runs where
      FastSafe does not hold; then none does. */
  method Collect(arena: Arena, collector: Collector) returns (outcome: Outcome, ghost ms: seq<Disk>)
    requires arena.Indexed() && HasBit(arena.log.tree, arena.log.tail) && (collector.Slow? ==> arena.Valid())
    modifies arena`log, arena`owners, arena.file, arena.log
    ensures arena.file.moments == old(arena.file.moments) + ms && !outcome.Mismatch? && (outcome.FileFull? ==> arena.file.Full())
    ensures outcome.Done? ==> arena.Indexed() && arena.log.Live() == old(arena.log.Live()) && arena.owners.Keys == old(arena.owners.Keys)
    ensures !collector.Slow? ==> outcome.Done? && arena.log == old(arena.log) && arena.owners == old(arena.owners)
    ensures collector.Nothing? ==> arena.log.Records() == old(arena.log.Records())
    ensures collector.Slow? && outcome.Done? ==>
              fresh(arena.log) && arena.log.slot == 1 - old(arena.log.slot) && NoFrees(arena.file.disk.vol.chunks, arena.log.tree)
    ensures collector.Fast? ==> Collected(old(arena.log.Records()), arena.log.Records())
    ensures collector.Fast? ==> Unlinks(old(arena.file.disk), old(arena.log.tree), arena.file.disk)
    ensures old(arena.Valid()) && (collector.Fast? ==> old(Safe(arena))) ==>
              AllRecover(ms, old(arena.log.Live()), old(arena.log.Live())) && (outcome.Done? ==> arena.Valid())
    ensures old(arena.Valid() && collector.Fast? && !Safe(arena)) ==> !Found(arena)
    ensures arena.log == old(arena.log) || fresh(arena.log)
  {
    hide IndexOk, Durable, OwnersOk, AllRecover, LiveOf, Space, LogChunks, Holds, TruePredecessors, PresNotBefore, Harmless, FastSafe,
         NoDescent, Empties, NoFrees, NoBits, HeldAlike, HasBit, Collected, Unlinks;
    outcome, ms := Done, [];
    NoMoment(arena.log.Live());
    match collector {
      case Nothing =>
      case Slow =>
        outcome, ms := arena.SlowGc();
      case Fast =>
        ghost var d, tree := arena.file.disk, arena.log.tree;
        BitNotEmpty(tree, arena.log.tail);
        SafeIsHarmless(d, arena.log.slot, tree, arena.log.tail, arena.log.nextId, arena.log.chain);
        ms := FastGc(arena.log);
        OwnersAlike(d, arena.file.disk, tree, arena.log.tree, arena.owners);
    }
  }

  /** Whether fast_GC would leave the chain right. */
  ghost predicate Safe(arena: Arena)
    reads arena, arena.log, arena.log.file
  {
    FastSafe(arena.log.file.disk.vol.chunks, arena.log.tree, arena.log.Root())
  }

  /** A replay finds the log. */
  ghost predicate Found(arena: Arena)
    reads arena, arena.log, arena.log.file
  {
    exists s :: Durable(arena.log.file.disk, arena.log.slot, arena.log.tree, arena.log.tail, s)
  }

  lemma SafeIsHarmless(d: Disk, slot: nat, tree: Tree, tail: nat, nextId: nat, s: seq<nat>)
    requires IndexOk(d, slot, tree, tail, nextId)
    ensures Durable(d, slot, tree, tail, s) && (slot < |d.vol.roots| ==> FastSafe(d.vol.chunks, tree, d.vol.roots[slot])) ==>
              Harmless(tree, s, Empties(tree))
  {
    hide Tracked, FastSafe, Settled, PresCarved, Harmless;
    if Durable(d, slot, tree, tail, s) && FastSafe(d.vol.chunks, tree, d.vol.roots[slot]) {
      SafeMeans(d.vol.chunks, tree, s);
      KnownIsHarmless(tree, s, Empties(tree));
    }
  }

  lemma NoMoment(live: set<Item>)
    ensures AllRecover([], live, live)
  {
  }

  lemma BitNotEmpty(tree: Tree, tail: nat)
    requires HasBit(tree, tail)
    ensures tail in tree && !NoBits(tree[tail])
  {
  }

  lemma OwnersAlike(d: Disk, d': Disk, tree: Tree, tree': Tree, owners: Owners)
    requires OwnersOk(d, tree, owners) && HeldAlike(d, d', tree, tree')
    ensures OwnersOk(d', tree', owners)
  {
    hide Holds;
    forall o | o in owners ensures exists y :: OwnerOf(y) == o && Holds(d', tree', owners[o], y) {
      var y :| OwnerOf(y) == o && Holds(d, tree, owners[o], y);
      assert Holds(d', tree', owners[o], y);
    }
  }

  // ---------------------------------------------------------------------------------------
  // Whole runs
  // ---------------------------------------------------------------------------------------

  datatype Request = Enter(kind: Kind, ptr: nat, size: nat, slab: bool) | Leave(owner: Owner, slab: bool, collector: Collector)

  /** Requests that a caller makes: what enters is new, what leaves is there. */
  predicate Sensible(live: set<Item>, r: Request) {
    match r
    case Enter(kind, ptr, size, slab) =>
      !kind.Free? && 0 < ptr < PTR_LIMIT && forall x :: x in live ==> OwnerOf(x) != OwnerOf(Word(kind, ptr, VersionOf(size, slab)))
    case Leave(o, _, _) => exists x :: x in live && OwnerOf(x) == o
  }

  /** The reference: the live set after a request.  Requests that no caller makes change nothing. */
  function Served(live: set<Item>, r: Request): set<Item> {
    if !Sensible(live, r) then live
    else match r
      case Enter(kind, ptr, size, slab) => live + {Word(kind, ptr, VersionOf(size, slab))}
      case Leave(o, _, _) => set x | x in live && OwnerOf(x) != o
  }

  function ServedAll(live: set<Item>, rs: seq<Request>): set<Item> {
    if rs == [] then live else Served(ServedAll(live, rs[..|rs| - 1]), rs[|rs| - 1])
  }

  lemma ServedNext(live: set<Item>, rs: seq<Request>, i: nat)
    requires i < |rs|
    ensures ServedAll(live, rs[..i + 1]) == Served(ServedAll(live, rs[..i]), rs[i])
  {
    assert rs[..i + 1][..i] == rs[..i];
  }

  lemma OwnersAreLive(d: Disk, tree: Tree, owners: Owners, o: Owner)
    requires OwnersOk(d, tree, owners) && Shaped(d.vol.chunks, tree.Keys)
    ensures o in owners <==> exists x :: x in LiveOf(d, tree) && OwnerOf(x) == o
  {
    hide Holds, LiveOf;
    if o in owners {
      var x :| OwnerOf(x) == o && Holds(d, tree, owners[o], x);
      LiveIsHeld(d, tree, x);
    }
    if x :| x in LiveOf(d, tree) && OwnerOf(x) == o {
      LiveIsHeld(d, tree, x);
      var item :| Holds(d, tree, item, x);
    }
  }

  /** The item that an owner's pointer names is the only live one of the owner. */
  lemma OwnersItem(d: Disk, tree: Tree, owners: Owners, o: Owner)
    requires OwnersOk(d, tree, owners) && Shaped(d.vol.chunks, tree.Keys) && o in owners
    ensures LiveOf(d, tree) - {ItemAt(d, owners[o])} == set x | x in LiveOf(d, tree) && OwnerOf(x) != o
  {
    hide Holds, LiveOf, ItemAt;
    var x :| OwnerOf(x) == o && Holds(d, tree, owners[o], x);
    HeldOnce(d, tree, owners[o], x, x);
    forall y | y in LiveOf(d, tree) ensures y == x <==> OwnerOf(y) == o {
      LiveIsHeld(d, tree, y);
      var item :| Holds(d, tree, item, y);
      if OwnerOf(y) == o {
        OwnersDistinguish(d, tree, owners, owners[o], x, item, y);
      }
    }
  }

  /** Why a run ends. */
  datatype Stop =
    | Completed     // all requests are served
    | FileFull      // the log file has no chunk left: the program stops
    | Limits        // ids or addresses reach the width of their fields
    | FastUnsafe    // a fast collection is due that would break the chain

  /** The disks of one request recover to the set before or after it. */
  ghost predicate Atomic(mss: seq<seq<Disk>>, live: set<Item>, rs: seq<Request>) {
    |mss| <= |rs| && forall i :: 0 <= i < |mss| ==> AllRecover(mss[i], ServedAll(live, rs[..i]), ServedAll(live, rs[..i + 1]))
  }

  lemma AtomicMore(mss: seq<seq<Disk>>, live: set<Item>, rs: seq<Request>, ms: seq<Disk>)
    requires Atomic(mss, live, rs) && |mss| < |rs|
    requires AllRecover(ms, ServedAll(live, rs[..|mss|]), ServedAll(live, rs[..|mss| + 1]))
    ensures Atomic(mss + [ms], live, rs)
  {
    hide AllRecover, ServedAll;
  }

  function Flat(mss: seq<seq<Disk>>): seq<Disk> {
    if mss == [] then [] else Flat(mss[..|mss| - 1]) + mss[|mss| - 1]
  }

  lemma FlatMore(mss: seq<seq<Disk>>, ms: seq<Disk>)
    ensures Flat(mss + [ms]) == Flat(mss) + ms
  {
    assert (mss + [ms])[..|mss|] == mss;
  }

  lemma RecoverAfter(ms: seq<Disk>, ms': seq<Disk>, before: set<Item>, after: set<Item>)
    requires AllRecover(ms, before, after) && AllRecover(ms', after, after)
    ensures AllRecover(ms + ms', before, after)
  {
  }

  lemma RootIsThere(d: Disk, slot: nat, tree: Tree, tail: nat, nextId: nat)
    requires IndexOk(d, slot, tree, tail, nextId)
    ensures slot < |d.vol.roots| && Shaped(d.vol.chunks, tree.Keys)
  {
  }

  ghost predicate Reason(arena: Arena, requests: seq<Request>, done: nat, stop: Stop)
    reads arena, arena.log, arena.log.file, arena.file
  {
    match stop
    case Completed => done == |requests|
    case FileFull => done < |requests| && arena.file.Full()
    case Limits => done < |requests| && (arena.log.nextId >= SIZE_LIMIT || arena.file.base + arena.file.used > PTR_LIMIT)
    case FastUnsafe =>
      && 0 < done <= |requests| && requests[done - 1].Leave? && requests[done - 1].collector.Fast?
      && !FastSafe(arena.file.disk.vol.chunks, arena.log.tree, arena.log.Root())
  }

  /** One request. */
  method ServeOne(arena: Arena, r: Request) returns (stop: Stop, ghost ms: seq<Disk>)
    requires arena.Valid() && arena.log.nextId < SIZE_LIMIT && arena.file.base + arena.file.used <= PTR_LIMIT
    modifies arena`log, arena`owners, arena.file, arena.log
    ensures arena.file.moments == old(arena.file.moments) + ms && (arena.log == old(arena.log) || fresh(arena.log))
    ensures AllRecover(ms, old(arena.log.Live()), Served(old(arena.log.Live()), r))
    ensures !stop.FileFull? ==> arena.Valid() && arena.log.Live() == Served(old(arena.log.Live()), r)
    ensures stop.FileFull? ==> arena.file.Full()
    ensures stop.FastUnsafe? ==> r.Leave? && r.collector.Fast? && !FastSafe(arena.file.disk.vol.chunks, arena.log.tree, arena.log.Root())
    ensures !stop.Limits?
  {
    hide IndexOk, Durable, OwnersOk, AllRecover, LiveOf, Space, LogChunks, Holds, TruePredecessors, PresNotBefore, HasBit, ItemAt, FastSafe;
    ghost var live, d, tree := arena.log.Live(), arena.file.disk, arena.log.tree;
    RootIsThere(d, arena.log.slot, tree, arena.log.tail, arena.log.nextId);
    stop, ms := Completed, [];
    NoMoment(live);
    match r {
      case Enter(kind, ptr, size, slab) =>
        OwnersAreLive(d, tree, arena.owners, OwnerOf(Word(kind, ptr, VersionOf(size, slab))));
        if !kind.Free? && 0 < ptr < PTR_LIMIT && OwnerOf(Word(kind, ptr, VersionOf(size, slab))) !in arena.owners {
          var ok;
          ok, ms := Register(arena, kind, ptr, size, slab);
          stop := if ok then Completed else Stop.FileFull;
        }
      case Leave(o, slab, collector) =>
        OwnersAreLive(d, tree, arena.owners, o);
        if o in arena.owners {
          OwnersItem(d, tree, arena.owners, o);
          stop, ms := ServeLeave(arena, o, slab, collector);
        }
    }
  }

  method ServeLeave(arena: Arena, o: Owner, slab: bool, collector: Collector) returns (stop: Stop, ghost ms: seq<Disk>)
    requires arena.Valid() && arena.log.nextId < SIZE_LIMIT && arena.file.base + arena.file.used <= PTR_LIMIT && o in arena.owners
    modifies arena`log, arena`owners, arena.file, arena.log
    ensures arena.file.moments == old(arena.file.moments) + ms && (arena.log == old(arena.log) || fresh(arena.log))
    ensures AllRecover(ms, old(arena.log.Live()), old(arena.log.Live()) - {old(ItemOf(arena, o))})
    ensures !stop.FileFull? ==> arena.Valid() && arena.log.Live() == old(arena.log.Live()) - {old(ItemOf(arena, o))}
    ensures stop.FileFull? ==> arena.file.Full()
    ensures stop.FastUnsafe? ==> collector.Fast? && !FastSafe(arena.file.disk.vol.chunks, arena.log.tree, arena.log.Root())
    ensures !stop.Limits?
  {
    hide IndexOk, Durable, OwnersOk, AllRecover, LiveOf, Space, LogChunks, Holds, TruePredecessors, PresNotBefore, HasBit, ItemAt, FastSafe;
    ghost var live, x := arena.log.Live(), ItemOf(arena, o);
    var ok;
    ok, ms := Release(arena, o, slab);
    if !ok {
      return Stop.FileFull, ms;
    }
    RootIsThere(arena.file.disk, arena.log.slot, arena.log.tree, arena.log.tail, arena.log.nextId);
    if collector.Fast? && !FastSafe(arena.file.disk.vol.chunks, arena.log.tree, arena.file.disk.vol.roots[arena.log.slot]) {
      return FastUnsafe, ms;
    }
    var outcome;
    ghost var ms1;
    outcome, ms1 := Collect(arena, collector);
    RecoverAfter(ms, ms1, live, live - {x});
    ms := ms + ms1;
    stop := if outcome.Done? then Completed else Stop.FileFull;
  }

  /** Any sequence of entries and exits, with collections of either kind at will.  The live sets are those
      of the reference, request by request; a crash during a request leaves the live set before or after
      that request; and the run ends before its last request only for one of the reasons named. */
  method Serve(arena: Arena, requests: seq<Request>) returns (done: nat, stop: Stop, ghost mss: seq<seq<Disk>>)
    requires arena.Valid()
    modifies arena`log, arena`owners, arena.file, arena.log
    ensures arena.file.moments == old(arena.file.moments) + Flat(mss)
    ensures done <= |mss| <= done + 1 && Atomic(mss, old(arena.log.Live()), requests)
    ensures !stop.FileFull? ==> |mss| == done && arena.Valid() && arena.log.Live() == ServedAll(old(arena.log.Live()), requests[..done])
    ensures Reason(arena, requests, done, stop)
  {
    hide IndexOk, Durable, OwnersOk, AllRecover, LiveOf, Space, LogChunks, Holds, TruePredecessors, PresNotBefore, HasBit, Atomic, ItemAt, FastSafe, Served;
    done, mss := 0, [];
    ghost var log0, live0 := arena.log, arena.log.Live();
    RunStarts(live0, requests);
    while done < |requests|
      invariant done <= |requests| && |mss| == done && Atomic(mss, live0, requests)
      invariant arena.Valid() && arena.file.moments == old(arena.file.moments) + Flat(mss) && (arena.log == log0 || fresh(arena.log))
      invariant arena.log.Live() == ServedAll(live0, requests[..done])
      decreases |requests| - done
    {
      if arena.log.nextId >= SIZE_LIMIT || arena.file.base + arena.file.used > PTR_LIMIT {
        return done, Limits, mss;
      }
      ghost var ms;
      stop, ms := ServeOne(arena, requests[done]);
      ServedNext(live0, requests, done);
      AtomicMore(mss, live0, requests, ms);
      FlatMore(mss, ms);
      mss := mss + [ms];
      if stop.FileFull? {
        return;
      }
      done := done + 1;
      if stop.FastUnsafe? {
        return;
      }
    }
    assert requests[..done] == requests;
    stop := Completed;
  }

  lemma RunStarts(live: set<Item>, rs: seq<Request>)
    ensures Atomic([], live, rs) && ServedAll(live, rs[..0]) == live && Flat([]) == []
  {
  }

  // ---------------------------------------------------------------------------------------
  // Runs in memory
  // ---------------------------------------------------------------------------------------

  /** One request, with the fast collection that may follow it, safe or not. */
  method ServeOneFast(arena: Arena, r: Request) returns (stop: Stop)
    requires arena.Indexed() && arena.log.nextId < SIZE_LIMIT && arena.file.base + arena.file.used <= PTR_LIMIT
    requires r.Leave? ==> !r.collector.Slow?
    modifies arena`log, arena`owners, arena.file, arena.log
    ensures arena.log == old(arena.log) && (stop.Completed? || stop.FileFull?)
    ensures stop.Completed? ==> arena.Indexed() && arena.log.Live() == Served(old(arena.log.Live()), r)
    ensures stop.FileFull? ==> arena.file.Full()
  {
    hide IndexOk, Durable, OwnersOk, AllRecover, LiveOf, Space, LogChunks, Holds, TruePredecessors, PresNotBefore, HasBit, ItemAt, FastSafe,
         Collected, Logged, NewestAddr;
    ghost var d, tree, ms := arena.file.disk, arena.log.tree, [];
    RootIsThere(d, arena.log.slot, tree, arena.log.tail, arena.log.nextId);
    stop := Completed;
    match r {
      case Enter(kind, ptr, size, slab) =>
        OwnersAreLive(d, tree, arena.owners, OwnerOf(Word(kind, ptr, VersionOf(size, slab))));
        if !kind.Free? && 0 < ptr < PTR_LIMIT && OwnerOf(Word(kind, ptr, VersionOf(size, slab))) !in arena.owners {
          var ok;
          ok, ms := Register(arena, kind, ptr, size, slab);
          stop := if ok then Completed else Stop.FileFull;
        }
      case Leave(o, slab, collector) =>
        OwnersAreLive(d, tree, arena.owners, o);
        if o in arena.owners {
          OwnersItem(d, tree, arena.owners, o);
          var ok;
          ok, ms := Release(arena, o, slab);
          if !ok {
            return Stop.FileFull;
          }
          var outcome;
          outcome, ms := Collect(arena, collector);
        }
    }
  }

  /** Any sequence of entries and exits with fast collections at will, whether they are safe or not.  In
      memory the log stays right throughout: the live sets are those of the reference, the owners find
      their items, no Free item misses the tree, and every chunk of the file is the root, in the tree or
      on the free list. */
  method ServeFast(arena: Arena, requests: seq<Request>) returns (done: nat, stop: Stop)
    requires arena.Indexed() && forall r :: r in requests && r.Leave? ==> !r.collector.Slow?
    modifies arena`log, arena`owners, arena.file, arena.log
    ensures arena.log == old(arena.log) && !stop.FastUnsafe? && Reason(arena, requests, done, stop)
    ensures !stop.FileFull? ==> arena.Indexed() && arena.log.Live() == ServedAll(old(arena.log.Live()), requests[..done])
  {
    hide IndexOk, Durable, OwnersOk, LiveOf, Space, LogChunks, Holds, TruePredecessors, PresNotBefore, HasBit, ItemAt, FastSafe, Served;
    done := 0;
    ghost var log0, live0 := arena.log, arena.log.Live();
    RunStarts(live0, requests);
    while done < |requests|
      invariant done <= |requests| && arena.log == log0 && arena.Indexed()
      invariant arena.log.Live() == ServedAll(live0, requests[..done])
    {
      if arena.log.nextId >= SIZE_LIMIT || arena.file.base + arena.file.used > PTR_LIMIT {
        return done, Limits;
      }
      stop := ServeOneFast(arena, requests[done]);
      ServedNext(live0, requests, done);
      if stop.FileFull? {
        return;
      }
      done := done + 1;
    }
    assert requests[..done] == requests;
    stop := Completed;
  }
}
