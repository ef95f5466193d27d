/** The log of src/log.c: appending allocations, files and tombstones, with a volatile index. */
module Log {
  import opened LogSpec
  import opened LogCrash
  import opened LogState
  import opened LogDisk

  /** vlog_t: the volatile side of the log whose root chunk is in slot `slot` of the file's head.
      `chain` is the walk along its chunks while the log is durable. */
  class VLog {
    const file: LogFile
    const slot: nat
    var tree: Tree
    var tail: nat
    var nextId: nat
    ghost var chain: seq<nat>

    constructor Make(f: LogFile, k: nat, id: nat)
      ensures file == f && slot == k && nextId == id && tree == map[] && chain == []
    {
      file, slot, nextId, tree, tail := f, k, id, map[], 0;
      chain := [];
    }

    ghost function Root(): nat
      reads this, file
    {
      if slot < |file.disk.vol.roots| then file.disk.vol.roots[slot] else 0
    }

    ghost function Chunks(): set<nat>
      reads this, file
    {
      LogChunks(file.disk, slot, tree)
    }

    ghost function Live(): set<Item>
      reads this, file
    {
      LiveOf(file.disk, tree)
    }

    /** The volatile records of the log and of its file. */
    ghost function Records(): Book
      reads this, file
    {
      Book(tree, tail, nextId, chain, file.used, file.free)
    }

    ghost predicate Valid()
      reads this, file
    {
      IndexOk(file.disk, slot, tree, tail, nextId) && file.SpaceOk(Chunks())
    }

    /** A replay of the file finds this log. */
    ghost predicate IsDurable()
      reads this, file
    {
      Valid() && Durable(file.disk, slot, tree, tail, chain) && PresNotBefore(tree, chain)
    }

    ghost predicate TruePre()
      reads this
    {
      TruePredecessors(tree, chain)
    }

    /** vlchunk_alloc. */
    method VlchunkAlloc(ghost inUse: set<nat>) returns (n: nat, v: VChunk, ok: bool, ghost ms: seq<Disk>)
      requires file.SpaceOk(inUse)
      modifies this`nextId, file
      ensures file.moments == old(file.moments) + ms && AllAside(old(file.disk), ms, inUse)
      ensures !ok ==> ms == [] && file.Full() && file.used <= old(file.used) + CHUNK_SIZE
      ensures ok ==> n == NextChunk(file.base, old(file.used), old(file.free))
      ensures ok ==> file.used == UsedNext(old(file.used), old(file.free)) && file.free == FreeNext(old(file.free))
      ensures ok ==> n !in inUse && IsChunkAddr(n) && file.SpaceOk(inUse + {n}) && nextId == old(nextId) + 1
      ensures ok ==> v == NewVChunk(old(nextId), 0)
      ensures ok ==> Allocated(old(file.disk), file.disk, n, old(nextId))
    {
      hide Space, Aside, AllAside, Allocated, Took, NewChunk;
      ms := [];
      ghost var d0, used0, free0 := file.disk, file.used, file.free;
      NoneAside(d0, inUse);
      n, ok := file.Take(inUse);
      v := NewVChunk(nextId, 0);
      if ok {
        ghost var d1 := file.disk;
        var d2 := StoreChunk(file.disk, n, NewChunk(nextId));
        file.Do(d2);
        var d3 := FlushChunk(file.disk, n);
        file.Do(d3);
        AllocSteps(d0, d1, file.base, used0, free0, file.used, file.free, n, nextId, inUse);
        ms := [d2, d3];
        nextId := nextId + 1;
      }
    }

    /** The tail is full: a new chunk is linked behind it. */
    method OpenChunk() returns (ok: bool, ghost ms: seq<Disk>)
      requires Valid() && NextSlot(tree, tail) >= ITEMS
      modifies this, file
      ensures file.moments == old(file.moments) + ms
      ensures ok ==> Valid() && Live() == old(Live()) && nextId == old(nextId) + 1
      ensures ok ==> Records() == WithRoom(file.base, old(Records()))
      ensures !ok ==> file.Full() && file.used <= old(file.used) + CHUNK_SIZE
      ensures ok ==> Opened(old(file.disk), file.disk, old(tree), tree, old(tail), tail)
      ensures old(IsDurable()) ==> AllRecover(ms, old(Live()), old(Live()))
      ensures ok && old(IsDurable()) ==> IsDurable() && (old(TruePre()) ==> TruePre())
    {
      hide Tracked, Durable, Allocated, LiveSet, AllRecover, AllAside, Recovers, Opened, TruePredecessors, PresNotBefore, Space;
      ghost var d0, live, nextId0 := file.disk, Live(), nextId;
      var n, v;
      n, v, ok, ms := VlchunkAlloc(Chunks());
      AllocDurable(d0, slot, tree, tail, chain, nextId0, ms);
      if ok {
        ghost var ms2 := LinkChunk(n, v, d0, live);
        AllRecoverSum(ms, ms2, live);
        ms := ms + ms2;
      }
    }

    /** The new chunk n is linked, persistently before it joins the index. */
    method LinkChunk(n: nat, v: VChunk, ghost d0: Disk, ghost live: set<Item>) returns (ghost ms: seq<Disk>)
      requires nextId > 1 && v == NewVChunk(nextId - 1, 0)
      requires IndexOk(d0, slot, tree, tail, nextId - 1) && LiveOf(d0, tree) == live && NextSlot(tree, tail) >= ITEMS
      requires Unused(d0, slot, tree, n) && Allocated(d0, file.disk, n, nextId - 1)
      requires Space(file.disk, file.base, file.used, file.free, LogChunks(d0, slot, tree) + {n})
      modifies this`tree, this`tail, this`chain, file`disk, file`moments
      ensures file.moments == old(file.moments) + ms
      ensures Valid() && Live() == live
      ensures tree == old(tree)[n := NewVChunk(nextId - 1, old(tail))] && tail == n && chain == old(chain) + [n]
      ensures Opened(d0, file.disk, old(tree), tree, old(tail), tail)
      ensures old(Durable(d0, slot, tree, tail, chain) && PresNotBefore(tree, chain)) ==>
                AllRecover(ms, live, live) && IsDurable() && (old(TruePre()) ==> TruePre())
    {
      hide IndexOk, LiveOf, Durable, Allocated, LiveSet, AllRecover, Recovers, Unused, Opened, TruePredecessors, PresNotBefore, Space;
      IndexShape(d0, slot, tree, tail, nextId - 1);
      LinkAll(d0, file.disk, file.base, file.used, file.free, slot, tree, tail, chain, nextId - 1, n, v);
      ms := [StoreNext(file.disk, tail, n), Linking(file.disk, tail, n)];
      file.Do(StoreNext(file.disk, tail, n));
      file.Do(FlushNext(file.disk, tail));
      tree := tree[n := v.(pre := tail)];
      tail := n;
      chain := chain + [n];
    }

    /** The end of add_log for an allocation or a file: the word is written and persisted, then
        counted. */
    method AppendItem(x: Item) returns (item: nat, ghost ms: seq<Disk>)
      requires Valid() && NextSlot(tree, tail) < ITEMS && Written(x) && !x.kind.Free?
      modifies this`tree, file`disk, file`moments
      ensures file.moments == old(file.moments) + ms
      ensures Valid() && Live() == old(Live()) + {x}
      ensures item == ItemAddr(tail, NextSlot(old(tree), tail)) && Holds(file.disk, tree, item, x)
      ensures Records() == Noted(old(Records()), x.kind, x.ptr) && item == NewestAddr(Records())
      ensures OthersHeld(old(file.disk), file.disk, old(tree), tree) && HeldBack(old(file.disk), file.disk, old(tree), tree, item, x)
      ensures HasBit(tree, tail)
      ensures old(IsDurable()) ==> AllRecover(ms, old(Live()), Live()) && IsDurable() && (old(TruePre()) ==> TruePre())
    {
      hide IndexOk, LiveOf, Durable, AllRecover, TruePredecessors, PresNotBefore, Space, Holds, OthersHeld, HeldBack, Noted, NewestAddr;
      ghost var d0, b0 := file.disk, Records();
      IndexShape(d0, slot, tree, tail, nextId);
      var index := NextSlot(tree, tail);
      AppendAll(d0, file.base, file.used, file.free, slot, tree, tail, chain, nextId, x);
      NotedItem(b0, x.kind, x.ptr);
      ms := [StoreItem(d0, tail, index, x), FlushItem(StoreItem(d0, tail, index, x), tail, index)];
      file.Do(StoreItem(file.disk, tail, index, x));
      file.Do(FlushItem(file.disk, tail, index));
      tree := Counted(tree, tail, index);
      item := ItemAddr(tail, index);
      assert tree[tail].bits[index];
    }

    /** The end of add_log for a Free item: the word is written with a preliminary version, the bit
        of the freed item cleared, the version replaced by the id of its chunk, and the word
        persisted.  The cache may write the preliminary word back.  `ok` is false if the program
        stops because the chunk is not in the tree. */
    method AppendFree(ptr: nat, version: nat) returns (item: nat, ok: bool, ghost ms: seq<Disk>)
      requires Valid() && NextSlot(tree, tail) < ITEMS && nextId <= SIZE_LIMIT
      requires ptr < PTR_LIMIT && FreeOk(file.disk, tree, ptr)
      modifies this`tree, file`disk, file`moments
      ensures file.moments == old(file.moments) + ms
      ensures ok == (ChunkOf(ptr) in old(tree))
      ensures ok ==> Valid() && Live() == old(Live()) - {ItemAt(old(file.disk), ptr)}
      ensures ok ==> OthersHeldBut(old(file.disk), file.disk, old(tree), tree, ptr)
      ensures ok ==> NoneNew(old(file.disk), file.disk, old(tree), tree) && HasBit(tree, tail)
      ensures ok ==> Records() == Noted(old(Records()), Free, ptr) && item == NewestAddr(Records())
      ensures old(IsDurable()) && ok ==>
                AllRecover(ms, old(Live()), Live()) && IsDurable() && (old(TruePre()) ==> TruePre())
      ensures old(IsDurable()) && !ok ==> AllRecover(ms, old(Live()), old(Live()))
    {
      hide IndexOk, LiveOf, Durable, AllRecover, TruePredecessors, PresNotBefore, Space, FreeOk, OthersHeldBut, NoneNew, ItemAt, Noted, NewestAddr;
      ghost var d0 := file.disk;
      IndexShape(d0, slot, tree, tail, nextId);
      var index := NextSlot(tree, tail);
      var word := Word(Free, ptr, version);
      file.Do(StoreItem(file.disk, tail, index, word));
      ms := [file.disk];
      item := ItemAddr(tail, index);
      var a := ChunkOf(word.ptr);
      ok := a in tree;
      if !ok {
        StrayFree(d0, slot, tree, tail, chain, nextId, word);
        return;
      }
      var i := IndexOf(word.ptr, a);
      ghost var ms1;
      ms1 := Entomb(d0, word, a, i, index);
      ms := ms + ms1;
    }

    method Entomb(ghost d0: Disk, word: Item, a: nat, i: nat, index: nat) returns (ghost ms: seq<Disk>)
      requires IndexOk(d0, slot, tree, tail, nextId) && Space(d0, file.base, file.used, file.free, LogChunks(d0, slot, tree))
      requires tail in tree && index == NextSlot(tree, tail) < ITEMS && nextId <= SIZE_LIMIT
      requires DiskOk(d0) && tail in d0.vol.chunks && file.disk == StoreItem(d0, tail, index, word)
      requires word.kind.Free? && word.ptr < PTR_LIMIT && FreeOk(d0, tree, word.ptr)
      requires a == ChunkOf(word.ptr) && a in tree && i == IndexOf(word.ptr, a)
      modifies this`tree, file`disk, file`moments
      ensures file.moments == old(file.moments) + ms
      ensures Valid() && Live() == LiveOf(d0, old(tree)) - {ItemAt(d0, word.ptr)}
      ensures OthersHeldBut(d0, file.disk, old(tree), tree, word.ptr) && NoneNew(d0, file.disk, old(tree), tree)
      ensures HasBit(tree, tail) && Records() == Noted(old(Records()), Free, word.ptr) && NewestAddr(Records()) == ItemAddr(tail, index)
      ensures Durable(d0, slot, old(tree), tail, chain) && PresNotBefore(old(tree), chain) ==>
                && AllRecover([old(file.disk)] + ms, LiveOf(d0, old(tree)), Live())
                && IsDurable() && (old(TruePre()) ==> TruePre())
    {
      hide IndexOk, LiveOf, Durable, AllRecover, TruePredecessors, PresNotBefore, Space, FreeOk, OthersHeldBut, NoneNew, ItemAt, Noted, NewestAddr,
           PutItem, LogChunks;
      ghost var d1, tree0, nextId0 := file.disk, tree, nextId;
      FreeTarget(d0, slot, tree, tail, nextId, word.ptr);
      NotedFree(Records(), word.ptr, a, i);
      var early: bool := *;
      ghost var last := word.(size := tree[a].id % SIZE_LIMIT);
      FreeFlights(d0, tail, index, word, last, false);
      FreeFlights(d0, tail, index, word, last, early);
      FreeAll(d0, file.base, file.used, file.free, slot, tree0, tail, chain, nextId, word, a, i, early);
      tree := Cleared(tree, a, i);
      ms := [];
      if early {
        file.Do(FlushItem(file.disk, tail, index));
        ms := [file.disk];
      }
      var word' := word.(size := tree[a].id % SIZE_LIMIT);
      ghost var d2 := StoreItem(file.disk, tail, index, word');
      file.Do(StoreItem(file.disk, tail, index, word'));
      file.Do(FlushItem(file.disk, tail, index));
      ms := ms + [d2, file.disk];
      tree := Counted(tree, tail, index);
      assert [d1] + ms == FreeDisks(d0, tail, index, word, word', early);
      assert tree[tail].bits[index];
    }

    /** The first half of add_log: room for one word. */
    method MakeRoom(ghost ptr: nat) returns (ok: bool, ghost ms: seq<Disk>)
      requires Valid()
      modifies this, file
      ensures file.moments == old(file.moments) + ms
      ensures !ok ==> file.Full() && file.used <= old(file.used) + CHUNK_SIZE
      ensures ok ==> Valid() && Live() == old(Live()) && nextId <= old(nextId) + 1 && Records() == WithRoom(file.base, old(Records()))
      ensures ok ==> tail in tree && NextSlot(tree, tail) < ITEMS
      ensures ok ==> OthersHeld(old(file.disk), file.disk, old(tree), tree) && NoneNew(old(file.disk), file.disk, old(tree), tree)
      ensures ok && FreesLive(old(file.disk), old(tree), ptr) ==>
                FreesLive(file.disk, tree, ptr) && ItemAt(file.disk, ptr) == ItemAt(old(file.disk), ptr)
      ensures old(IsDurable()) ==>
                AllRecover(ms, old(Live()), old(Live())) && (ok ==> IsDurable() && (old(TruePre()) ==> TruePre()))
    {
      hide IndexOk, LiveOf, Durable, AllRecover, TruePredecessors, PresNotBefore, Space, FreesLive, OthersHeld, NoneNew, ItemAt, Opened, WithRoom;
      ghost var d0, tree0, tail0, nextId0 := file.disk, tree, tail, nextId;
      IndexShape(d0, slot, tree, tail, nextId);
      ok, ms := true, [];
      if NextSlot(tree, tail) >= ITEMS {
        ok, ms := OpenChunk();
        if ok {
          OpenedKeeps(d0, file.disk, slot, tree0, tree, tail0, tail, nextId0, nextId, ptr);
        }
      } else {
        NothingOpened(d0, tree0, Live());
        RoomAlready(file.base, Records());
      }
    }

    /** add_log up to the collection of garbage; `ok` is false if the program stops because the log
        file is full. */
    method AddLog(kind: Kind, ptr: nat, size: nat, slab: bool) returns (item: nat, ok: bool, ghost ms: seq<Disk>)
      requires Valid() && nextId < SIZE_LIMIT && ptr < PTR_LIMIT
      requires if kind.Free? then FreesLive(file.disk, tree, ptr) else ptr > 0
      modifies this, file
      ensures file.moments == old(file.moments) + ms
      ensures ok ==> Valid() && nextId <= old(nextId) + 1 && HasBit(tree, tail)
      ensures !ok ==> file.Full() && file.used <= old(file.used) + CHUNK_SIZE
      ensures ok ==> Records() == Logged(file.base, old(Records()), kind, ptr) && item == NewestAddr(Records())
      ensures ok ==> Live() == LiveNext(old(file.disk), old(tree), kind, ptr, size, slab)
      ensures ok && !kind.Free? ==> Live() == old(Live()) + {Item(kind, ptr, (if slab then size + 1 else size) % 0x4000)}
      ensures ok && kind.Free? ==> forall x :: Holds(old(file.disk), old(tree), ptr, x) ==> Live() == old(Live()) - {x}
      ensures ok && !kind.Free? ==>
                && Holds(file.disk, tree, item, Word(kind, ptr, VersionOf(size, slab)))
                && OthersHeld(old(file.disk), file.disk, old(tree), tree)
                && HeldBack(old(file.disk), file.disk, old(tree), tree, item, Word(kind, ptr, VersionOf(size, slab)))
      ensures ok && kind.Free? ==>
                && OthersHeldBut(old(file.disk), file.disk, old(tree), tree, ptr)
                && NoneNew(old(file.disk), file.disk, old(tree), tree)
      ensures old(IsDurable()) ==>
                && AllRecover(ms, old(Live()), LiveNext(old(file.disk), old(tree), kind, ptr, size, slab))
                && (ok ==> IsDurable() && (old(TruePre()) ==> TruePre()))
    {
      hide IndexOk, LiveOf, VersionOf, Durable, AllRecover, TruePredecessors, PresNotBefore, Space, FreesLive, OthersHeldBut, OthersHeld, HeldBack, NoneNew, ItemAt, Holds, FreeOk,
           Noted, NewestAddr, WithRoom;
      ghost var d0, tree0, live0 := file.disk, tree, Live();
      item := 0;
      VersionIs(size, slab);
      WordIs(kind, ptr, VersionOf(size, slab));
      WhatIsHeld(d0, tree0, ptr);
      ok, ms := MakeRoom(ptr);
      RecoverWider(ms, live0, LiveNext(d0, tree0, kind, ptr, size, slab));
      if !ok {
        return;
      }
      ghost var d1, tree1, ms1 := file.disk, tree, ms;
      if kind.Free? {
        FreesLiveIsOk(d1, tree1, ptr);
        item, ok, ms1 := AppendFree(ptr, VersionOf(size, slab));
        HeldThroughBut(d0, d1, file.disk, tree0, tree1, tree, ptr, ok);
      } else {
        item, ms1 := AppendItem(Word(kind, ptr, VersionOf(size, slab)));
        HeldThrough(d0, d1, file.disk, tree0, tree1, tree);
        HeldBackThrough(d0, d1, file.disk, tree0, tree1, tree, item, Word(kind, ptr, VersionOf(size, slab)));
      }
      RecoverSum(ms, ms1, live0, Live());
      ms := ms + ms1;
    }
  }

  // ---------------------------------------------------------------------------------------
  // The state of a log as values
  // ---------------------------------------------------------------------------------------

  /** The index is right: a chunk has its validity bits set exactly at the Free items and at the
      live ones. */
  ghost predicate IndexOk(d: Disk, slot: nat, tree: Tree, tail: nat, nextId: nat) {
    && slot < 2 && DiskOk(d) && nextId > 0
    && Tracked(d.vol.chunks, tree, nextId) && tail in tree && d.vol.roots[slot] !in tree
    && PresCarved(d.vol.chunks, tree) && FullBut(tree, tail)
  }

  /** A chunk behind which another was opened has taken all its items. */
  ghost predicate FullBut(tree: Tree, tail: nat) {
    forall a :: a in tree && a != tail ==> tree[a].count == TAKES
  }

  /** What the log and its file keep in volatile memory. */
  datatype Book = Book(tree: Tree, tail: nat, nextId: nat, chain: seq<nat>, used: nat, free: seq<nat>)

  /** A tail that is full gets a successor. */
  function WithRoom(base: nat, b: Book): Book {
    if b.tail in b.tree && NextSlot(b.tree, b.tail) < ITEMS then b
    else
      var n := NextChunk(base, b.used, b.free);
      Book(b.tree[n := NewVChunk(b.nextId, b.tail)], n, b.nextId + 1, b.chain + [n], UsedNext(b.used, b.free), FreeNext(b.free))
  }

  /** A word is counted in the tail; a Free item clears the bit of the item at ptr. */
  function Noted(b: Book, kind: Kind, ptr: nat): Book {
    var a := ChunkOf(ptr);
    var i := IndexOf(ptr, a);
    var tree := if kind.Free? && a in b.tree && i < |b.tree[a].bits| then Cleared(b.tree, a, i) else b.tree;
    if b.tail in tree && NextSlot(tree, b.tail) < |tree[b.tail].bits| then b.(tree := Counted(tree, b.tail, NextSlot(tree, b.tail))) else b
  }

  lemma RoomAlready(base: nat, b: Book)
    requires b.tail in b.tree && NextSlot(b.tree, b.tail) < ITEMS
    ensures WithRoom(base, b) == b
  {
  }

  lemma NotedItem(b: Book, kind: Kind, ptr: nat)
    requires !kind.Free? && b.tail in b.tree && NextSlot(b.tree, b.tail) < |b.tree[b.tail].bits|
    ensures var k := NextSlot(b.tree, b.tail); var b' := Noted(b, kind, ptr);
            b' == b.(tree := Counted(b.tree, b.tail, k)) && NewestAddr(b') == ItemAddr(b.tail, k)
  {
  }

  lemma NotedFree(b: Book, ptr: nat, a: nat, i: nat)
    requires a == ChunkOf(ptr) && a in b.tree && i == IndexOf(ptr, a) && i < |b.tree[a].bits|
    requires b.tail in b.tree && NextSlot(b.tree, b.tail) < |b.tree[b.tail].bits|
    ensures var k, cleared := NextSlot(b.tree, b.tail), Cleared(b.tree, a, i); var b' := Noted(b, Free, ptr);
            && k < |cleared[b.tail].bits| && b' == b.(tree := Counted(cleared, b.tail, k)) && NewestAddr(b') == ItemAddr(b.tail, k)
  {
  }

  /** add_log without a collection. */
  function Logged(base: nat, b: Book, kind: Kind, ptr: nat): Book {
    Noted(WithRoom(base, b), kind, ptr)
  }

  /** Where the last word was written. */
  function NewestAddr(b: Book): nat {
    if b.tail in b.tree && b.tree[b.tail].count > 0 then ItemAddr(b.tail, CountToIndex(b.tree[b.tail].count - 1)) else 0
  }

  /** Every chunk remembers some chunk of the file as the one before it. */
  ghost predicate PresCarved(ch: Chunks, tree: Tree) {
    forall a :: a in tree ==> tree[a].pre in ch
  }

  /** The chunks of a log. */
  ghost function LogChunks(d: Disk, slot: nat, tree: Tree): set<nat> {
    if slot < |d.vol.roots| then {d.vol.roots[slot]} + tree.Keys else tree.Keys
  }

  /** Some bit of the tail is set, as after every add_log. */
  ghost predicate HasBit(tree: Tree, tail: nat) {
    tail in tree && exists i :: 0 <= i < |tree[tail].bits| && tree[tail].bits[i]
  }

  /** What a log holds. */
  ghost function LiveOf(d: Disk, tree: Tree): set<Item> {
    if Shaped(d.vol.chunks, tree.Keys) then LiveSet(d.vol.chunks, tree.Keys) else {}
  }

  /** n is a chunk address outside the log. */
  ghost predicate Unused(d: Disk, slot: nat, tree: Tree, n: nat) {
    n !in LogChunks(d, slot, tree) && IsChunkAddr(n)
  }

  /** A fresh chunk was added behind the tail; the items are the same. */
  ghost predicate Opened(d: Disk, d': Disk, tree: Tree, tree': Tree, tail: nat, tail': nat) {
    && tail' !in tree && tail' in tree' && tree' == tree[tail' := tree'[tail']] && tree'[tail'].pre == tail
    && NextSlot(tree', tail') == 0
    && SameItems(d.vol.chunks, d'.vol.chunks, tree.Keys)
  }

  function Linking(d: Disk, t: nat, n: nat): Disk
    requires t in d.vol.chunks && t in d.per.chunks
  {
    FlushNext(StoreNext(d, t, n), t)
  }

  /** What vlchunk_alloc leaves: the chunk n zeroed with its id, in both views, and nothing else
      changed. */
  ghost predicate Allocated(d: Disk, d': Disk, n: nat, id: nat) {
    && Aside(d, d', d.vol.chunks.Keys - {n}) && d'.vol.roots == d.vol.roots && d'.per.roots == d.per.roots
    && d'.vol.chunks.Keys == d.vol.chunks.Keys + {n}
    && n in d'.vol.chunks && d'.vol.chunks[n] == NewChunk(id) && d'.per.chunks[n] == NewChunk(id)
  }

  lemma NoneAside(d: Disk, S: set<nat>)
    ensures AllAside(d, [], S)
  {
  }

  lemma AllocSteps(d0: Disk, d1: Disk, base: nat, used0: nat, free0: seq<nat>, used: nat, free: seq<nat>, n: nat, id: nat, inUse: set<nat>)
    requires Took(d0, d1, n) && n !in inUse && Space(d0, base, used0, free0, inUse) && Space(d1, base, used, free, inUse + {n})
    ensures var d2 := StoreChunk(d1, n, NewChunk(id)); var d3 := FlushChunk(d2, n);
            AllAside(d0, [d2, d3], inUse) && Allocated(d0, d3, n, id) && Space(d3, base, used, free, inUse + {n})
  {
    hide NoDuplicates, Members, Carved;
    assert inUse <= d0.vol.chunks.Keys;
    var d2 := StoreChunk(d1, n, NewChunk(id));
    AllocAside(d0, d1, d2, n, inUse);
    AllocAside(d0, d1, FlushChunk(d2, n), n, inUse);
  }

  lemma AllocAside(d0: Disk, d1: Disk, m: Disk, n: nat, inUse: set<nat>)
    requires Took(d0, d1, n) && n !in inUse && inUse <= d0.vol.chunks.Keys && DiskOk(m)
    requires m.vol.alt == d1.vol.alt && m.per.alt == d1.per.alt && m.vol.roots == d1.vol.roots && m.per.roots == d1.per.roots
    requires forall a :: a in d1.vol.chunks && a != n ==>
               && a in m.vol.chunks && a in m.per.chunks && m.vol.chunks[a] == d1.vol.chunks[a] && m.per.chunks[a] == d1.per.chunks[a]
    ensures Aside(d0, m, inUse)
  {
  }

  lemma AllRecoverSum(ms: seq<Disk>, ms': seq<Disk>, live: set<Item>)
    ensures AllRecover(ms, live, live) && AllRecover(ms', live, live) ==> AllRecover(ms + ms', live, live)
  {
  }

  /** The moments of vlchunk_alloc do not touch a durable log. */
  lemma AllocDurable(d: Disk, slot: nat, tree: Tree, tail: nat, s: seq<nat>, nextId: nat, ms: seq<Disk>)
    requires IndexOk(d, slot, tree, tail, nextId) && AllAside(d, ms, LogChunks(d, slot, tree))
    ensures Durable(d, slot, tree, tail, s) ==> AllRecover(ms, LiveOf(d, tree), LiveOf(d, tree))
  {
    if Durable(d, slot, tree, tail, s) {
      DurableLive(d, slot, tree, tail, s);
      InChain(s, d.vol.roots[slot]);
      AsideRecovers(d, ms, s, LogChunks(d, slot, tree));
    }
  }

  lemma InChain(s: seq<nat>, root: nat)
    requires |s| > 0 && s[0] == root
    ensures forall a :: a in s <==> a in {root} + Holding(s)
  {
    forall a | a in s ensures a in {root} + Holding(s) {
      var i :| 0 <= i < |s| && s[i] == a;
      assert i > 0 ==> s[i] in Holding(s);
    }
  }

  lemma LinkAll(d0: Disk, d1: Disk, base: nat, used: nat, free: seq<nat>,
                slot: nat, tree: Tree, tail: nat, s: seq<nat>, nextId: nat, n: nat, v: VChunk)
    requires IndexOk(d0, slot, tree, tail, nextId) && v == NewVChunk(nextId, 0) && tail in tree && NextSlot(tree, tail) >= ITEMS
    requires Unused(d0, slot, tree, n) && Allocated(d0, d1, n, nextId)
    requires Space(d1, base, used, free, LogChunks(d0, slot, tree) + {n})
    ensures tail in d1.vol.chunks && tail in d1.per.chunks && tail in StoreNext(d1, tail, n).vol.chunks
    ensures var d2, d3, tree' := StoreNext(d1, tail, n), Linking(d1, tail, n), tree[n := v.(pre := tail)];
            && IndexOk(d3, slot, tree', n, nextId + 1) && Space(d3, base, used, free, LogChunks(d3, slot, tree'))
            && LiveOf(d3, tree') == LiveOf(d0, tree) && Opened(d0, d3, tree, tree', tail, n)
    ensures var d2, d3, tree' := StoreNext(d1, tail, n), Linking(d1, tail, n), tree[n := v.(pre := tail)];
            Durable(d0, slot, tree, tail, s) ==>
              && AllRecover([d2, d3], LiveOf(d0, tree), LiveOf(d0, tree)) && Durable(d3, slot, tree', n, s + [n])
              && (TruePredecessors(tree, s) ==> TruePredecessors(tree', s + [n])) && (PresNotBefore(tree, s) ==> PresNotBefore(tree', s + [n]))
  {
    hide IndexOk, Unused, Allocated, Space, LiveOf, Opened, Durable, AllRecover, TruePredecessors, PresNotBefore;
    var v' := v.(pre := tail);
    LinkSpace(d0, d1, base, used, free, slot, tree, tail, nextId, n, v');
    LinkIndex(d0, d1, slot, tree, tail, nextId, n, v');
    LinkMoments(d0, d1, slot, tree, tail, s, nextId, n, v');
  }

  lemma LinkIndex(d0: Disk, d1: Disk, slot: nat, tree: Tree, tail: nat, nextId: nat, n: nat, v: VChunk)
    requires IndexOk(d0, slot, tree, tail, nextId) && v == NewVChunk(nextId, tail) && tail in tree && NextSlot(tree, tail) >= ITEMS
    requires Unused(d0, slot, tree, n) && Allocated(d0, d1, n, nextId)
    ensures tail in d1.vol.chunks && tail in d1.per.chunks
    ensures var d3 := Linking(d1, tail, n);
            && IndexOk(d3, slot, tree[n := v], n, nextId + 1) && LiveOf(d3, tree[n := v]) == LiveOf(d0, tree)
            && Opened(d0, d3, tree, tree[n := v], tail, n)
  {
    hide Tracked, LiveSet, PresCarved, FullBut, Allocated, SameItems, NewChunk;
    IndexShape(d0, slot, tree, tail, nextId);
    AllocatedItems(d0, d1, n, nextId, tree.Keys);
    OpenFull(d0.vol.chunks, tree, tail, nextId, n, v);
    OpenSpace(d0, d1, slot, tree, tail, n, v);
    SamePres(d0.vol.chunks, Linking(d1, tail, n).vol.chunks, tree, tree[n := v]);
    OpenIndex(d0.vol.chunks, d1.vol.chunks, tree, tail, nextId, n, v);
    IndexOkShaped(Linking(d1, tail, n).vol.chunks, tree[n := v], nextId + 1);
  }

  lemma AllocatedItems(d0: Disk, d1: Disk, n: nat, id: nat, A: set<nat>)
    requires Allocated(d0, d1, n, id) && n !in A && A <= d0.vol.chunks.Keys
    ensures SameItems(d0.vol.chunks, d1.vol.chunks, A) && n in d1.vol.chunks && d1.vol.chunks[n] == NewChunk(id)
    ensures d0.vol.chunks.Keys <= d1.vol.chunks.Keys
  {
  }

  lemma OpenFull(ch: Chunks, tree: Tree, tail: nat, nextId: nat, n: nat, v: VChunk)
    requires Tracked(ch, tree, nextId) && tail in tree && NextSlot(tree, tail) >= ITEMS && FullBut(tree, tail)
    ensures FullBut(tree[n := v], n)
  {
    assert ChunkOk(ch, tree, nextId, tail);
    TakesHundred(tree[tail].count);
  }

  lemma IndexOkShaped(ch: Chunks, tree: Tree, nextId: nat)
    requires Tracked(ch, tree, nextId)
    ensures Shaped(ch, tree.Keys)
  {
  }

  lemma SamePres(ch: Chunks, ch': Chunks, tree: Tree, tree': Tree)
    requires PresCarved(ch, tree) && ch.Keys <= ch'.Keys
    requires forall a :: a in tree' ==> (a in tree && tree'[a].pre == tree[a].pre) || tree'[a].pre in ch'
    ensures PresCarved(ch', tree')
  {
  }

  lemma IndexShape(d: Disk, slot: nat, tree: Tree, tail: nat, nextId: nat)
    requires IndexOk(d, slot, tree, tail, nextId)
    ensures Shaped(d.vol.chunks, tree.Keys) && tree.Keys <= d.vol.chunks.Keys && slot < 2 && DiskOk(d) && tail in tree
  {
  }

  lemma LinkSpace(d0: Disk, d1: Disk, base: nat, used: nat, free: seq<nat>, slot: nat, tree: Tree, tail: nat, nextId: nat, n: nat, v: VChunk)
    requires IndexOk(d0, slot, tree, tail, nextId) && Allocated(d0, d1, n, v.id)
    requires Space(d1, base, used, free, LogChunks(d0, slot, tree) + {n})
    ensures tail in d1.vol.chunks && tail in d1.per.chunks
    ensures var d3 := Linking(d1, tail, n); Space(d3, base, used, free, LogChunks(d3, slot, tree[n := v]))
  {
    IndexShape(d0, slot, tree, tail, nextId);
    OpenSpace(d0, d1, slot, tree, tail, n, v);
  }

  lemma LinkMoments(d0: Disk, d1: Disk, slot: nat, tree: Tree, tail: nat, s: seq<nat>, nextId: nat, n: nat, v: VChunk)
    requires IndexOk(d0, slot, tree, tail, nextId) && v == NewVChunk(nextId, tail)
    requires Unused(d0, slot, tree, n) && Allocated(d0, d1, n, nextId)
    ensures tail in d1.vol.chunks && tail in d1.per.chunks && tail in StoreNext(d1, tail, n).vol.chunks
    ensures var d2, d3 := StoreNext(d1, tail, n), Linking(d1, tail, n);
            Durable(d0, slot, tree, tail, s) ==>
              && AllRecover([d2, d3], LiveOf(d0, tree), LiveOf(d0, tree)) && Durable(d3, slot, tree[n := v], n, s + [n])
              && (TruePredecessors(tree, s) ==> TruePredecessors(tree[n := v], s + [n])) && (PresNotBefore(tree, s) ==> PresNotBefore(tree[n := v], s + [n]))
  {
    hide Tracked, LiveSet, Durable, Recovers, TruePredecessors, PresNotBefore;
    IndexShape(d0, slot, tree, tail, nextId);
    OpenDurable(d0, d1, slot, tree, tail, s, n, v);
  }

  lemma OpenDurable(d0: Disk, d1: Disk, slot: nat, tree: Tree, tail: nat, s: seq<nat>, n: nat, v: VChunk)
    requires DiskOk(d0) && Allocated(d0, d1, n, v.id) && n !in tree && IsChunkAddr(n) && v.pre == tail
    requires tail in tree && slot < 2 && d0.vol.roots[slot] != n && Shaped(d0.vol.chunks, tree.Keys)
    ensures tail in d1.vol.chunks && tail in d1.per.chunks
    ensures Durable(d0, slot, tree, tail, s) ==>
              var d2 := StoreNext(d1, tail, n); var d3 := FlushNext(d2, tail);
              var live := LiveSet(d0.vol.chunks, tree.Keys);
              && Recovers(d2, live, live) && Recovers(d3, live, live)
              && Durable(d3, slot, tree[n := v], n, s + [n])
              && (TruePredecessors(tree, s) ==> TruePredecessors(tree[n := v], s + [n])) && (PresNotBefore(tree, s) ==> PresNotBefore(tree[n := v], s + [n]))
  {
    if Durable(d0, slot, tree, tail, s) {
      InChain(s, d0.vol.roots[slot]);
      DurableLive(d0, slot, tree, tail, s);
      StillDurable(d0, d1, slot, tree, tail, s, n);
      LinkDurable(d1, slot, tree, tail, s, n, v);
    }
  }

  lemma StillDurable(d0: Disk, d1: Disk, slot: nat, tree: Tree, tail: nat, s: seq<nat>, n: nat)
    requires Durable(d0, slot, tree, tail, s) && Aside(d0, d1, d0.vol.chunks.Keys - {n}) && n !in s
    ensures Durable(d1, slot, tree, tail, s)
    ensures LiveSet(d1.per.chunks, Holding(s)) == LiveSet(d0.per.chunks, Holding(s))
  {
    AsideSettled(d0, d1, s, d0.vol.chunks.Keys - {n});
  }

  lemma OpenIndex(ch0: Chunks, ch1: Chunks, tree: Tree, tail: nat, nextId: nat, n: nat, v: VChunk)
    requires Tracked(ch0, tree, nextId) && nextId > 0 && SameItems(ch0, ch1, tree.Keys) && n !in tree
    requires tail in tree && n in ch1 && IsChunkAddr(n) && ch1[n] == NewChunk(nextId) && v == NewVChunk(nextId, tail)
    ensures tail in ch1
    ensures var ch2 := ch1[tail := ch1[tail].(next := n)];
            && Tracked(ch2, tree[n := v], nextId + 1) && SameItems(ch0, ch2, tree.Keys)
            && LiveSet(ch2, tree[n := v].Keys) == LiveSet(ch0, tree.Keys)
  {
    LinksDoNotMatter(ch0, ch1, tree, nextId);
    AddChunkKeeps(ch1, tree, nextId, n, tail);
    LinksDoNotMatter(ch1, ch1[tail := ch1[tail].(next := n)], tree[n := v], nextId + 1);
  }

  lemma OpenSpace(d0: Disk, d1: Disk, slot: nat, tree: Tree, tail: nat, n: nat, v: VChunk)
    requires DiskOk(d0) && Allocated(d0, d1, n, v.id) && tail in tree && tree.Keys <= d0.vol.chunks.Keys && slot < 2
    ensures tail in d1.vol.chunks && tail in d1.per.chunks
    ensures var d3 := Linking(d1, tail, n);
            && DiskOk(d3) && d3.vol.roots == d0.vol.roots && d3.vol.chunks.Keys == d1.vol.chunks.Keys
            && LogChunks(d3, slot, tree[n := v]) == LogChunks(d0, slot, tree) + {n}
  {
  }

  // ---------------------------------------------------------------------------------------
  // Appending an item
  // ---------------------------------------------------------------------------------------

  /** The item at address `item` is live and holds x. */
  ghost predicate Holds(d: Disk, tree: Tree, item: nat, x: Item) {
    && Shaped(d.vol.chunks, tree.Keys)
    && exists a, i :: LiveAs(d.vol.chunks, tree.Keys, a, i, x) && item == ItemAddr(a, i)
  }

  /** What was live at an address still is. */
  ghost predicate OthersHeld(d: Disk, d': Disk, tree: Tree, tree': Tree) {
    forall item, x :: Holds(d, tree, item, x) ==> Holds(d', tree', item, x)
  }

  /** Only x at `item` is new. */
  ghost predicate HeldBack(d: Disk, d': Disk, tree: Tree, tree': Tree, item: nat, x: Item) {
    forall item', x' :: Holds(d', tree', item', x') ==> Holds(d, tree, item', x') || (item' == item && x' == x)
  }

  /** Nothing is new. */
  ghost predicate NoneNew(d: Disk, d': Disk, tree: Tree, tree': Tree) {
    forall item, x :: Holds(d', tree', item, x) ==> Holds(d, tree, item, x)
  }

  lemma HeldBackThrough(d0: Disk, d1: Disk, d2: Disk, tree0: Tree, tree1: Tree, tree2: Tree, item: nat, x: Item)
    requires NoneNew(d0, d1, tree0, tree1) && HeldBack(d1, d2, tree1, tree2, item, x)
    ensures HeldBack(d0, d2, tree0, tree2, item, x)
  {
  }

  lemma SameHeld(d: Disk, tree: Tree)
    ensures NoneNew(d, d, tree, tree)
  {
  }

  /** The two steps of writing word x to the next slot. */
  function Written2(d: Disk, t: nat, k: nat, x: Item): Disk
    requires DiskOk(d) && t in d.vol.chunks && k < ITEMS
  {
    FlushItem(StoreItem(d, t, k, x), t, k)
  }

  lemma AppendAll(d: Disk, base: nat, used: nat, free: seq<nat>,
                  slot: nat, tree: Tree, tail: nat, s: seq<nat>, nextId: nat, x: Item)
    requires IndexOk(d, slot, tree, tail, nextId) && Space(d, base, used, free, LogChunks(d, slot, tree))
    requires tail in tree && NextSlot(tree, tail) < ITEMS && Written(x) && !x.kind.Free?
    ensures DiskOk(d) && tail in d.vol.chunks && NextSlot(tree, tail) < |tree[tail].bits|
    ensures var k := NextSlot(tree, tail); var d', tree' := Written2(d, tail, k, x), Counted(tree, tail, k);
            && IndexOk(d', slot, tree', tail, nextId) && Space(d', base, used, free, LogChunks(d', slot, tree'))
            && LiveOf(d', tree') == LiveOf(d, tree) + {x}
            && Holds(d', tree', ItemAddr(tail, k), x) && OthersHeld(d, d', tree, tree')
            && HeldBack(d, d', tree, tree', ItemAddr(tail, k), x)
            && (Durable(d, slot, tree, tail, s) ==>
                  && AllRecover([StoreItem(d, tail, k, x), d'], LiveOf(d, tree), LiveOf(d, tree) + {x})
                  && Durable(d', slot, tree', tail, s)
                  && (TruePredecessors(tree, s) ==> TruePredecessors(tree', s)) && (PresNotBefore(tree, s) ==> PresNotBefore(tree', s)))
  {
    hide IndexOk, Space, Durable, LiveOf, AllRecover, Holds, OthersHeld, HeldBack, TruePredecessors, PresNotBefore, Tracked, LiveSet;
    var k := NextSlot(tree, tail);
    AppendIndex(d, slot, tree, tail, nextId, x);
    var d', tree' := Written2(d, tail, k, x), Counted(tree, tail, k);
    WordSpace(d, base, used, free, slot, tree, tail, k, x, tree');
    AppendMoments(d, slot, tree, tail, s, nextId, x);
    SamePredecessors(tree, tree', s);
  }

  lemma SamePredecessors(tree: Tree, tree': Tree, s: seq<nat>)
    requires tree'.Keys == tree.Keys && forall a :: a in tree ==> tree'[a].pre == tree[a].pre
    ensures TruePredecessors(tree, s) ==> TruePredecessors(tree', s)
    ensures PresNotBefore(tree, s) ==> PresNotBefore(tree', s)
  {
  }

  lemma AppendIndex(d: Disk, slot: nat, tree: Tree, tail: nat, nextId: nat, x: Item)
    requires IndexOk(d, slot, tree, tail, nextId)
    requires tail in tree && NextSlot(tree, tail) < ITEMS && Written(x) && !x.kind.Free?
    ensures DiskOk(d) && tail in d.vol.chunks && NextSlot(tree, tail) < |tree[tail].bits|
    ensures var k := NextSlot(tree, tail); var d', tree' := Written2(d, tail, k, x), Counted(tree, tail, k);
            && IndexOk(d', slot, tree', tail, nextId)
            && LiveOf(d', tree') == LiveOf(d, tree) + {x} && LiveWith(d, tree, tail, k, x) == LiveOf(d, tree) + {x}
            && Holds(d', tree', ItemAddr(tail, k), x) && OthersHeld(d, d', tree, tree')
            && HeldBack(d, d', tree, tree', ItemAddr(tail, k), x)
  {
    hide Tracked, LiveSet, LiveAs;
    IndexShape(d, slot, tree, tail, nextId);
    var ch, k := d.vol.chunks, NextSlot(tree, tail);
    AppendKeeps(ch, tree, nextId, tail, x);
    IndexOkShaped(PutItem(ch, tail, k, x), Counted(tree, tail, k), nextId);
    assert Counted(tree, tail, k).Keys == tree.Keys;
    AppendHolds(ch, tree, nextId, tail, k, x);
    AppendHeldBack(ch, tree, nextId, tail, k, x);
  }

  lemma AppendHeldBack(ch: Chunks, tree: Tree, nextId: nat, t: nat, k: nat, x: Item)
    requires Tracked(ch, tree, nextId) && t in tree && k == NextSlot(tree, t) < ITEMS && Written(x) && !x.kind.Free?
    ensures Shaped(ch, tree.Keys) && Shaped(PutItem(ch, t, k, x), tree.Keys)
    ensures forall a, i, y :: LiveAs(PutItem(ch, t, k, x), tree.Keys, a, i, y) ==>
              LiveAs(ch, tree.Keys, a, i, y) || (a == t && i == k && y == x)
  {
    NextSlotIsFree(ch, tree, nextId, t);
    AppendAlloc(ch, tree.Keys, t, k, x);
    PutItemShaped(ch, tree.Keys, t, k, x);
  }

  lemma AppendHolds(ch: Chunks, tree: Tree, nextId: nat, t: nat, k: nat, x: Item)
    requires Tracked(ch, tree, nextId) && t in tree && k == NextSlot(tree, t) < ITEMS && Written(x) && !x.kind.Free?
    ensures Shaped(ch, tree.Keys) && Shaped(PutItem(ch, t, k, x), tree.Keys)
    ensures LiveAs(PutItem(ch, t, k, x), tree.Keys, t, k, x)
    ensures forall a, i, y :: LiveAs(ch, tree.Keys, a, i, y) ==> LiveAs(PutItem(ch, t, k, x), tree.Keys, a, i, y)
  {
    NextSlotIsFree(ch, tree, nextId, t);
    AppendAlloc(ch, tree.Keys, t, k, x);
    PutItemShaped(ch, tree.Keys, t, k, x);
  }

  /** Writing a word does not move chunks. */
  lemma WordSpace(d: Disk, base: nat, used: nat, free: seq<nat>, slot: nat, tree: Tree, t: nat, k: nat, x: Item, tree': Tree)
    requires Space(d, base, used, free, LogChunks(d, slot, tree)) && t in d.vol.chunks && k < ITEMS && tree'.Keys == tree.Keys
    ensures var d' := Flight(d, t, k, x, x); Space(d', base, used, free, LogChunks(d', slot, tree'))
  {
  }

  lemma AppendMoments(d: Disk, slot: nat, tree: Tree, tail: nat, s: seq<nat>, nextId: nat, x: Item)
    requires IndexOk(d, slot, tree, tail, nextId)
    requires tail in tree && NextSlot(tree, tail) < ITEMS && Written(x) && !x.kind.Free?
    ensures DiskOk(d) && tail in d.vol.chunks && NextSlot(tree, tail) < |tree[tail].bits|
    ensures var k := NextSlot(tree, tail); var d', tree' := Written2(d, tail, k, x), Counted(tree, tail, k);
            Durable(d, slot, tree, tail, s) ==>
              && AllRecover([StoreItem(d, tail, k, x), d'], LiveOf(d, tree), LiveOf(d, tree) + {x})
              && Durable(d', slot, tree', tail, s)
  {
    hide Tracked, LiveSet, Recovers, Durable, LiveOf, IndexOk, LiveWith, Holds, OthersHeld;
    AppendIndex(d, slot, tree, tail, nextId, x);
    IndexShape(d, slot, tree, tail, nextId);
    var k := NextSlot(tree, tail);
    if Durable(d, slot, tree, tail, s) {
      WordMoments(d, slot, tree, tail, s, tail, k, x);
      DurableTree(Written2(d, tail, k, x), slot, tree, Counted(tree, tail, k), tail, s);
      RecoversMore(Written2(d, tail, k, x), LiveWith(d, tree, tail, k, x), LiveOf(d, tree), LiveOf(d, tree) + {x});
    }
  }

  lemma DurableTree(d: Disk, slot: nat, tree: Tree, tree': Tree, tail: nat, s: seq<nat>)
    requires Durable(d, slot, tree, tail, s) && tree'.Keys == tree.Keys
    ensures Durable(d, slot, tree', tail, s)
  {
  }

  /** A word is written and persisted: before, after, and nothing between. */
  lemma WordMoments(d: Disk, slot: nat, tree: Tree, tail: nat, s: seq<nat>, t: nat, k: nat, x: Item)
    requires Durable(d, slot, tree, tail, s) && Shaped(d.vol.chunks, tree.Keys) && t in tree && k < ITEMS
    ensures DiskOk(d) && t in d.vol.chunks
    ensures Recovers(StoreItem(d, t, k, x), LiveOf(d, tree), LiveWith(d, tree, t, k, x))
    ensures var d', live' := Written2(d, t, k, x), LiveWith(d, tree, t, k, x);
            Recovers(d', live', live') && Durable(d', slot, tree, tail, s)
  {
    hide LiveSet, Recovers;
    DurableLive(d, slot, tree, tail, s);
    var w := d.per.chunks[t].items[k];
    assert d.per.chunks[t] == d.vol.chunks[t];
    PutSame(d.vol.chunks, t, k);
    FlightSteps(d, t, k, w, x, x);
    FlightRecovers(d, slot, tree, tail, s, t, k, w, x);
    FlightRecovers(d, slot, tree, tail, s, t, k, x, x);
  }

  // ---------------------------------------------------------------------------------------
  // Appending a Free item
  // ---------------------------------------------------------------------------------------

  /** The word at an item's address. */
  ghost function ItemAt(d: Disk, ptr: nat): Item {
    var a := ChunkOf(ptr);
    var i := IndexOf(ptr, a);
    if a in d.vol.chunks && i < |d.vol.chunks[a].items| then d.vol.chunks[a].items[i] else BLANK
  }

  /** ptr is what add_log returned for an item that is still live, unless its chunk is unknown; and
      no two live items are equal. */
  ghost predicate FreeOk(d: Disk, tree: Tree, ptr: nat) {
    && Shaped(d.vol.chunks, tree.Keys) && NoTwins(d.vol.chunks, tree.Keys)
    && (ChunkOf(ptr) in tree ==> exists x :: Holds(d, tree, ptr, x))
  }

  ghost predicate OthersHeldBut(d: Disk, d': Disk, tree: Tree, tree': Tree, ptr: nat) {
    forall item, x :: item != ptr && Holds(d, tree, item, x) ==> Holds(d', tree', item, x)
  }

  lemma FreeTarget(d: Disk, slot: nat, tree: Tree, tail: nat, nextId: nat, ptr: nat)
    requires IndexOk(d, slot, tree, tail, nextId) && FreeOk(d, tree, ptr) && ChunkOf(ptr) in tree
    ensures var a := ChunkOf(ptr); var i := IndexOf(ptr, a);
            && Shaped(d.vol.chunks, tree.Keys) && i < ITEMS && |tree[a].bits| == BITS && ptr == ItemAddr(a, i)
            && LiveAs(d.vol.chunks, tree.Keys, a, i, ItemAt(d, ptr)) && tree[a].id == d.vol.chunks[a].id < nextId
    ensures tail in tree ==> |tree[tail].bits| == BITS
  {
    var x :| Holds(d, tree, ptr, x);
    var a, i :| LiveAs(d.vol.chunks, tree.Keys, a, i, x) && ptr == ItemAddr(a, i);
    ItemAddrRoundTrip(a, i);
    assert ChunkOk(d.vol.chunks, tree, nextId, a);
    assert tail in tree ==> ChunkOk(d.vol.chunks, tree, nextId, tail);
  }

  /** The item at ptr is freed, and nothing else. */
  ghost predicate FreedTo(d: Disk, d': Disk, base: nat, used: nat, free: seq<nat>, slot: nat, tree: Tree, tree': Tree, tail: nat, nextId: nat, ptr: nat) {
    && IndexOk(d', slot, tree', tail, nextId) && Space(d', base, used, free, LogChunks(d', slot, tree'))
    && LiveOf(d', tree') == LiveOf(d, tree) - {ItemAt(d, ptr)} && OthersHeldBut(d, d', tree, tree', ptr) && NoneNew(d, d', tree, tree')
  }

  /** The disks of the three (or four) steps, as words in flight. */
  function FreeDisks(d: Disk, t: nat, k: nat, word: Item, x: Item, early: bool): seq<Disk>
    requires DiskOk(d) && t in d.vol.chunks && k < ITEMS
  {
    var w := d.per.chunks[t].items[k];
    [Flight(d, t, k, w, word)] + (if early then [Flight(d, t, k, word, word)] else [])
    + [Flight(d, t, k, if early then word else w, x), Flight(d, t, k, x, x)]
  }

  /** The disk after the first of them, or the first two. */
  function Buried1(d: Disk, t: nat, k: nat, word: Item, early: bool): Disk
    requires DiskOk(d) && t in d.vol.chunks && k < ITEMS
  {
    if early then FlushItem(StoreItem(d, t, k, word), t, k) else StoreItem(d, t, k, word)
  }

  lemma FreeFlights(d: Disk, t: nat, k: nat, word: Item, x: Item, early: bool)
    requires DiskOk(d) && t in d.vol.chunks && k < ITEMS
    ensures var w := d.per.chunks[t].items[k];
            var e, v := Buried1(d, t, k, word, early), if early then word else w;
            && StoreItem(d, t, k, word) == Flight(d, t, k, w, word) && e == Flight(d, t, k, v, word)
            && DiskOk(e) && t in e.vol.chunks
            && StoreItem(e, t, k, x) == Flight(d, t, k, v, x) && DiskOk(StoreItem(e, t, k, x)) && t in StoreItem(e, t, k, x).vol.chunks
            && FlushItem(StoreItem(e, t, k, x), t, k) == Flight(d, t, k, x, x)
  {
    hide PutItem;
    var w := d.per.chunks[t].items[k];
    var v := if early then word else w;
    FlightSteps(d, t, k, w, w, word);
    FlightSteps(d, t, k, w, word, word);
    FlightSteps(d, t, k, v, word, x);
    FlightSteps(d, t, k, v, x, x);
  }

  lemma FreeIndex(d: Disk, slot: nat, tree: Tree, tail: nat, nextId: nat, x: Item, a: nat, i: nat)
    requires IndexOk(d, slot, tree, tail, nextId) && tail in tree && NextSlot(tree, tail) < ITEMS
    requires FreeOk(d, tree, x.ptr) && a == ChunkOf(x.ptr) && a in tree && i == IndexOf(x.ptr, a)
    requires a in d.vol.chunks && x.kind.Free? && x.size == d.vol.chunks[a].id
    ensures DiskOk(d) && tail in d.vol.chunks && |tree[a].bits| == |tree[tail].bits| == BITS && i < ITEMS
    ensures var k := NextSlot(tree, tail); var d', tree' := Flight(d, tail, k, x, x), Counted(Cleared(tree, a, i), tail, k);
            && IndexOk(d', slot, tree', tail, nextId)
            && LiveOf(d', tree') == LiveOf(d, tree) - {ItemAt(d, x.ptr)}
            && OthersHeldBut(d, d', tree, tree', x.ptr) && NoneNew(d, d', tree, tree')
  {
    hide Tracked, LiveSet, LiveAs, FreeOk, PresCarved, FullBut, OthersHeldBut, NoneNew, Holds, Counted, Cleared;
    IndexShape(d, slot, tree, tail, nextId);
    FreeTarget(d, slot, tree, tail, nextId, x.ptr);
    var ch, k := d.vol.chunks, NextSlot(tree, tail);
    FreeChunks(ch, tree, nextId, tail, x, a, i, ItemAt(d, x.ptr), d);
    SamePres(ch, PutItem(ch, tail, k, x), tree, tree);
    FreedTree(d.vol.chunks, tree, a, i, tail, k);
    FreeHeld(d, Flight(d, tail, k, x, x), tree, Counted(Cleared(tree, a, i), tail, k), x.ptr);
  }

  lemma FreedTree(ch: Chunks, tree: Tree, a: nat, i: nat, t: nat, k: nat)
    requires a in tree && t in tree && |tree[a].bits| == |tree[t].bits| == BITS && i < BITS && k < BITS
    ensures t in Cleared(tree, a, i) && k < |Cleared(tree, a, i)[t].bits| && Counted(Cleared(tree, a, i), t, k).Keys == tree.Keys
    ensures forall ch': Chunks :: PresCarved(ch', tree) ==> PresCarved(ch', Counted(Cleared(tree, a, i), t, k))
    ensures FullBut(tree, t) ==> FullBut(Counted(Cleared(tree, a, i), t, k), t)
  {
  }

  lemma FreeHeld(d: Disk, d': Disk, tree: Tree, tree': Tree, ptr: nat)
    requires Shaped(d.vol.chunks, tree.Keys) && Shaped(d'.vol.chunks, tree'.Keys)
    requires forall b, j, z :: LiveAs(d.vol.chunks, tree.Keys, b, j, z) && ItemAddr(b, j) != ptr ==> LiveAs(d'.vol.chunks, tree'.Keys, b, j, z)
    requires forall b, j, z :: LiveAs(d'.vol.chunks, tree'.Keys, b, j, z) ==> LiveAs(d.vol.chunks, tree.Keys, b, j, z)
    ensures OthersHeldBut(d, d', tree, tree', ptr) && NoneNew(d, d', tree, tree')
  {
    hide LiveAs;
  }

  lemma FreeChunks(ch: Chunks, tree: Tree, nextId: nat, t: nat, x: Item, a: nat, i: nat, y: Item, d: Disk)
    requires Tracked(ch, tree, nextId) && t in tree && NextSlot(tree, t) < ITEMS && Shaped(ch, tree.Keys)
    requires d.vol.chunks == ch && FreeOk(d, tree, x.ptr) && LiveAs(ch, tree.Keys, a, i, y)
    requires x == Item(Free, ItemAddr(a, i), ch[a].id)
    ensures i < |tree[a].bits| && NextSlot(tree, t) < |Cleared(tree, a, i)[t].bits|
    ensures var k := NextSlot(tree, t); var ch' := PutItem(ch, t, k, x);
            && Tracked(ch', Counted(Cleared(tree, a, i), t, k), nextId) && Shaped(ch', tree.Keys)
            && LiveSet(ch', tree.Keys) == LiveSet(ch, tree.Keys) - {y}
            && (forall b, j, z :: LiveAs(ch, tree.Keys, b, j, z) && ItemAddr(b, j) != x.ptr ==> LiveAs(ch', tree.Keys, b, j, z))
            && (forall b, j, z :: LiveAs(ch', tree.Keys, b, j, z) ==> LiveAs(ch, tree.Keys, b, j, z))
  {
    hide Tracked, LiveSet, Live, NoTwins, Holds, PutItem, ItemAddr, ChunkOf;
    NextSlotIsFree(ch, tree, nextId, t);
    FreeKeeps(ch, tree, nextId, t, x, a, i);
    FreeMoves(ch, tree.Keys, t, NextSlot(tree, t), x, a, i, y);
  }

  lemma FreeMoves(ch: Chunks, A: set<nat>, t: nat, k: nat, x: Item, a: nat, i: nat, y: Item)
    requires Shaped(ch, A) && t in A && k < ITEMS && !Written(ch[t].items[k]) && NoTwins(ch, A) && LiveAs(ch, A, a, i, y)
    requires x == Item(Free, ItemAddr(a, i), ch[a].id)
    ensures var ch' := PutItem(ch, t, k, x);
            && Shaped(ch', A) && LiveSet(ch', A) == LiveSet(ch, A) - {y}
            && (forall b, j, z :: LiveAs(ch, A, b, j, z) && ItemAddr(b, j) != x.ptr ==> LiveAs(ch', A, b, j, z))
            && (forall b, j, z :: LiveAs(ch', A, b, j, z) ==> LiveAs(ch, A, b, j, z))
  {
    hide LiveSet, Live, PutItem, NoTwins;
    FreedLiveSet(ch, A, t, k, x, a, i);
    AppendFree(ch, A, t, k, x, a, i);
    PutItemShaped(ch, A, t, k, x);
    assert !Live(PutItem(ch, t, k, x), A, t, k) by {
      FreesNothingItself(ch, A, t, k, x);
    }
  }

  lemma FreesNothingItself(ch: Chunks, A: set<nat>, t: nat, k: nat, x: Item)
    requires Shaped(ch, A) && t in A && k < ITEMS && x.kind.Free? && Shaped(PutItem(ch, t, k, x), A)
    ensures !Live(PutItem(ch, t, k, x), A, t, k)
  {
  }

  /** The live set with a Free word of any version for (a, i) at the next slot. */
  lemma FreeLive(d: Disk, slot: nat, tree: Tree, tail: nat, nextId: nat, x: Item)
    requires IndexOk(d, slot, tree, tail, nextId) && tail in tree && NextSlot(tree, tail) < ITEMS
    requires FreeOk(d, tree, x.ptr) && ChunkOf(x.ptr) in tree && x.kind.Free?
    ensures Shaped(d.vol.chunks, tree.Keys) && ChunkOf(x.ptr) in d.vol.chunks
    ensures LiveWith(d, tree, tail, NextSlot(tree, tail), x)
         == if x.size == d.vol.chunks[ChunkOf(x.ptr)].id then LiveOf(d, tree) - {ItemAt(d, x.ptr)} else LiveOf(d, tree)
  {
    IndexShape(d, slot, tree, tail, nextId);
    FreeTarget(d, slot, tree, tail, nextId, x.ptr);
    NextSlotIsFree(d.vol.chunks, tree, nextId, tail);
    var a := ChunkOf(x.ptr);
    FreedLiveSet(d.vol.chunks, tree.Keys, tail, NextSlot(tree, tail), x, a, IndexOf(x.ptr, a));
  }

  lemma FreeMoments(d: Disk, slot: nat, tree: Tree, tail: nat, s: seq<nat>, nextId: nat, word: Item, x: Item, early: bool)
    requires IndexOk(d, slot, tree, tail, nextId) && tail in tree && NextSlot(tree, tail) < ITEMS
    requires word.kind.Free? && FreeOk(d, tree, word.ptr) && ChunkOf(word.ptr) in tree && ChunkOf(word.ptr) in d.vol.chunks
    requires x == word.(size := d.vol.chunks[ChunkOf(word.ptr)].id) && Durable(d, slot, tree, tail, s)
    ensures DiskOk(d) && tail in d.vol.chunks
    ensures var k := NextSlot(tree, tail); var before, after := LiveOf(d, tree), LiveOf(d, tree) - {ItemAt(d, word.ptr)};
            && AllRecover(FreeDisks(d, tail, k, word, x, early), before, after) && Durable(Flight(d, tail, k, x, x), slot, tree, tail, s)
  {
    hide Tracked, LiveSet, Recovers, Durable, LiveOf, LiveWith, FreeOk, ItemAt;
    IndexShape(d, slot, tree, tail, nextId);
    var k := NextSlot(tree, tail);
    var before, after := LiveOf(d, tree), LiveOf(d, tree) - {ItemAt(d, word.ptr)};
    FreeLive(d, slot, tree, tail, nextId, word);
    FreeLive(d, slot, tree, tail, nextId, x);
    var w := d.per.chunks[tail].items[k];
    var v := if early then word else w;
    CurrentWord(d, slot, tree, tail, s, tail, k);
    FlightEither(d, slot, tree, tail, s, tail, k, w, word, before, after);
    FlightEither(d, slot, tree, tail, s, tail, k, v, word, before, after);
    FlightEither(d, slot, tree, tail, s, tail, k, v, x, before, after);
    FlightEither(d, slot, tree, tail, s, tail, k, x, x, before, after);
  }

  lemma CurrentWord(d: Disk, slot: nat, tree: Tree, tail: nat, s: seq<nat>, t: nat, k: nat)
    requires Durable(d, slot, tree, tail, s) && Shaped(d.vol.chunks, tree.Keys) && t in tree && k < ITEMS
    ensures t in d.per.chunks && |d.per.chunks[t].items| == ITEMS
    ensures LiveWith(d, tree, t, k, d.per.chunks[t].items[k]) == LiveOf(d, tree)
  {
    DurableLive(d, slot, tree, tail, s);
    assert d.per.chunks[t] == d.vol.chunks[t];
    PutSame(d.vol.chunks, t, k);
  }

  lemma FlightEither(d: Disk, slot: nat, tree: Tree, tail: nat, s: seq<nat>, t: nat, k: nat, w: Item, x: Item,
                     before: set<Item>, after: set<Item>)
    requires Durable(d, slot, tree, tail, s) && Shaped(d.vol.chunks, tree.Keys) && t in tree && k < ITEMS
    requires LiveWith(d, tree, t, k, w) == before || LiveWith(d, tree, t, k, w) == after
    requires LiveWith(d, tree, t, k, x) == before || LiveWith(d, tree, t, k, x) == after
    ensures t in d.per.chunks && |d.per.chunks[t].items| == ITEMS
    ensures Recovers(Flight(d, t, k, w, x), before, after) && Durable(Flight(d, t, k, x, x), slot, tree, tail, s)
  {
    FlightRecovers(d, slot, tree, tail, s, t, k, w, x);
  }

  /** Everything that add_log does for a Free item whose chunk is in the tree. */
  lemma FreeAll(d: Disk, base: nat, used: nat, free: seq<nat>, slot: nat, tree: Tree, tail: nat, s: seq<nat>, nextId: nat,
                word: Item, a: nat, i: nat, early: bool)
    requires IndexOk(d, slot, tree, tail, nextId) && Space(d, base, used, free, LogChunks(d, slot, tree))
    requires tail in tree && NextSlot(tree, tail) < ITEMS && nextId <= SIZE_LIMIT
    requires word.kind.Free? && FreeOk(d, tree, word.ptr)
    requires a == ChunkOf(word.ptr) && a in tree && i == IndexOf(word.ptr, a)
    ensures DiskOk(d) && tail in d.vol.chunks && |tree[a].bits| == |tree[tail].bits| == BITS && i < ITEMS
    ensures var k, x := NextSlot(tree, tail), word.(size := tree[a].id % SIZE_LIMIT);
            var d', tree' := Flight(d, tail, k, x, x), Counted(Cleared(tree, a, i), tail, k);
            && FreedTo(d, d', base, used, free, slot, tree, tree', tail, nextId, word.ptr)
            && (Durable(d, slot, tree, tail, s) ==>
                  && AllRecover(FreeDisks(d, tail, k, word, x, early), LiveOf(d, tree), LiveOf(d', tree'))
                  && Durable(d', slot, tree', tail, s)
                  && (TruePredecessors(tree, s) ==> TruePredecessors(tree', s)) && (PresNotBefore(tree, s) ==> PresNotBefore(tree', s)))
  {
    hide IndexOk, Space, Durable, LiveOf, Recovers, AllRecover, TruePredecessors, PresNotBefore, FreeOk, OthersHeldBut, NoneNew, ItemAt, FreeDisks, LogChunks, PutItem;
    IndexShape(d, slot, tree, tail, nextId);
    FreeTarget(d, slot, tree, tail, nextId, word.ptr);
    var k, x := NextSlot(tree, tail), word.(size := tree[a].id % SIZE_LIMIT);
    var tree' := Counted(Cleared(tree, a, i), tail, k);
    FreeIndex(d, slot, tree, tail, nextId, x, a, i);
    assert tree'.Keys == tree.Keys;
    WordSpace(d, base, used, free, slot, tree, tail, k, x, tree');
    SamePredecessors(tree, tree', s);
    if Durable(d, slot, tree, tail, s) {
      FreeMoments(d, slot, tree, tail, s, nextId, word, x, early);
      DurableTree(Flight(d, tail, k, x, x), slot, tree, tree', tail, s);
    }
  }

  /** A Free word for a chunk that is not in the tree frees nothing. */
  lemma StrayFree(d: Disk, slot: nat, tree: Tree, tail: nat, s: seq<nat>, nextId: nat, word: Item)
    requires IndexOk(d, slot, tree, tail, nextId) && tail in tree && NextSlot(tree, tail) < ITEMS
    requires word.kind.Free? && ChunkOf(word.ptr) !in tree
    ensures DiskOk(d) && tail in d.vol.chunks
    ensures Durable(d, slot, tree, tail, s) ==>
              AllRecover([StoreItem(d, tail, NextSlot(tree, tail), word)], LiveOf(d, tree), LiveOf(d, tree))
  {
    IndexShape(d, slot, tree, tail, nextId);
    NextSlotIsFree(d.vol.chunks, tree, nextId, tail);
    var ch, k := d.vol.chunks, NextSlot(tree, tail);
    StrayLive(ch, tree.Keys, tail, k, word);
    if Durable(d, slot, tree, tail, s) {
      WordMoments(d, slot, tree, tail, s, tail, k, word);
    }
  }

  lemma StrayLive(ch: Chunks, A: set<nat>, t: nat, k: nat, x: Item)
    requires Shaped(ch, A) && t in A && k < ITEMS && !Written(ch[t].items[k]) && x.kind.Free? && ChunkOf(x.ptr) !in A
    ensures Shaped(PutItem(ch, t, k, x), A) && LiveSet(PutItem(ch, t, k, x), A) == LiveSet(ch, A)
  {
    var ch' := PutItem(ch, t, k, x);
    PutItemShaped(ch, A, t, k, x);
    forall a: nat, i: nat, y: Item ensures LiveAs(ch, A, a, i, y) <==> LiveAs(ch', A, a, i, y) {
      if a in A && 0 <= i < ITEMS {
        PutItemBuried(ch, A, t, k, x, a, i);
        ItemAddrRoundTrip(a, i);
      }
    }
    SameLiveSet(ch, A, ch', A);
  }

  // ---------------------------------------------------------------------------------------
  // A word in three stores
  // ---------------------------------------------------------------------------------------

  lemma BlankLive(ch: Chunks, A: set<nat>, t: nat, k: nat, x: Item)
    requires Shaped(ch, A) && t in A && k < ITEMS && !Written(ch[t].items[k]) && !Written(x)
    ensures Shaped(PutItem(ch, t, k, x), A) && LiveSet(PutItem(ch, t, k, x), A) == LiveSet(ch, A)
  {
    var ch' := PutItem(ch, t, k, x);
    PutItemShaped(ch, A, t, k, x);
    forall a: nat, i: nat, y: Item ensures LiveAs(ch, A, a, i, y) <==> LiveAs(ch', A, a, i, y) {
      if a in A && 0 <= i < ITEMS {
        PutItemBuried(ch, A, t, k, x, a, i);
      }
    }
    SameLiveSet(ch, A, ch', A);
  }

  /** Type, pointer and size are assigned one after the other.  After the first assignment nothing new is
      to be seen.  If the word is written back after the second, a replay finds an item of size 0: that is
      the set after the request only if the size is 0. */
  lemma TornItem(d: Disk, slot: nat, tree: Tree, tail: nat, s: seq<nat>, nextId: nat, kind: Kind, ptr: nat, size: nat)
    requires IndexOk(d, slot, tree, tail, nextId) && Durable(d, slot, tree, tail, s) && tail in tree && NextSlot(tree, tail) < ITEMS
    requires !kind.Free? && 0 < ptr < PTR_LIMIT && size < SIZE_LIMIT
    ensures DiskOk(d) && tail in d.vol.chunks
    ensures var k, live, typed, torn, x := NextSlot(tree, tail), LiveOf(d, tree), Item(kind, 0, 0), Item(kind, ptr, 0), Item(kind, ptr, size);
            && Recovers(StoreItem(d, tail, k, typed), live, live)
            && Recovers(StoreItem(d, tail, k, torn), live, live + {torn})
            && Recovers(Written2(d, tail, k, torn), live + {torn}, live + {torn})
            && (torn !in live ==> live + {torn} != live && (live + {torn} == live + {x} <==> size == 0))
  {
    hide Tracked, LiveSet, Recovers, Durable, LiveOf, LiveWith, Holds, OthersHeld, HeldBack;
    IndexShape(d, slot, tree, tail, nextId);
    var k, live, typed, torn, x := NextSlot(tree, tail), LiveOf(d, tree), Item(kind, 0, 0), Item(kind, ptr, 0), Item(kind, ptr, size);
    NextSlotIsFree(d.vol.chunks, tree, nextId, tail);
    TypedLive(d, tree, tail, k, typed);
    WordMoments(d, slot, tree, tail, s, tail, k, typed);
    AppendIndex(d, slot, tree, tail, nextId, torn);
    WordMoments(d, slot, tree, tail, s, tail, k, torn);
    if torn !in live {
      assert torn in live + {torn};
      if size != 0 {
        assert torn !in live + {x};
      }
    }
  }

  lemma TypedLive(d: Disk, tree: Tree, t: nat, k: nat, x: Item)
    requires Shaped(d.vol.chunks, tree.Keys) && t in tree && k < ITEMS && !Written(d.vol.chunks[t].items[k]) && !Written(x)
    ensures LiveWith(d, tree, t, k, x) == LiveOf(d, tree)
  {
    BlankLive(d.vol.chunks, tree.Keys, t, k, x);
  }

  /** For a Free item the partial words are harmless: no chunk has the id 0. */
  lemma TornFree(d: Disk, slot: nat, tree: Tree, tail: nat, s: seq<nat>, nextId: nat, ptr: nat)
    requires IndexOk(d, slot, tree, tail, nextId) && Durable(d, slot, tree, tail, s) && tail in tree && NextSlot(tree, tail) < ITEMS
    requires FreeOk(d, tree, ptr) && ChunkOf(ptr) in tree
    ensures DiskOk(d) && tail in d.vol.chunks
    ensures var k, live := NextSlot(tree, tail), LiveOf(d, tree);
            && Recovers(StoreItem(d, tail, k, Item(Free, 0, 0)), live, live)
            && Recovers(StoreItem(d, tail, k, Item(Free, ptr, 0)), live, live)
            && Recovers(Written2(d, tail, k, Item(Free, ptr, 0)), live, live)
  {
    hide Tracked, LiveSet, Recovers, Durable, LiveOf, LiveWith, FreeOk;
    IndexShape(d, slot, tree, tail, nextId);
    var k := NextSlot(tree, tail);
    NextSlotIsFree(d.vol.chunks, tree, nextId, tail);
    TypedLive(d, tree, tail, k, Item(Free, 0, 0));
    WordMoments(d, slot, tree, tail, s, tail, k, Item(Free, 0, 0));
    FreeLive(d, slot, tree, tail, nextId, Item(Free, ptr, 0));
    NoIdZero(d, slot, tree, tail, nextId, ChunkOf(ptr));
    WordMoments(d, slot, tree, tail, s, tail, k, Item(Free, ptr, 0));
  }

  lemma NoIdZero(d: Disk, slot: nat, tree: Tree, tail: nat, nextId: nat, a: nat)
    requires IndexOk(d, slot, tree, tail, nextId) && a in tree
    ensures a in d.vol.chunks && d.vol.chunks[a].id != 0
  {
    assert ChunkOk(d.vol.chunks, tree, nextId, a);
  }

  // ---------------------------------------------------------------------------------------
  // Steps together
  // ---------------------------------------------------------------------------------------

  /** The size or file id, with the mark of a slab. */
  function VersionOf(size: nat, slab: bool): nat {
    if slab then size + 1 else size
  }

  lemma VersionIs(size: nat, slab: bool)
    ensures VersionOf(size, slab) == if slab then size + 1 else size
  {
  }

  /** An address holds one item. */
  lemma WhatIsHeld(d: Disk, tree: Tree, ptr: nat)
    ensures forall x :: Holds(d, tree, ptr, x) ==> ItemAt(d, ptr) == x
  {
    forall x | Holds(d, tree, ptr, x) ensures ItemAt(d, ptr) == x {
      var a, i :| LiveAs(d.vol.chunks, tree.Keys, a, i, x) && ptr == ItemAddr(a, i);
      ItemAddrRoundTrip(a, i);
    }
  }

  /** The live set after add_log. */
  ghost function LiveNext(d: Disk, tree: Tree, kind: Kind, ptr: nat, size: nat, slab: bool): set<Item> {
    if kind.Free? then LiveOf(d, tree) - {ItemAt(d, ptr)} else LiveOf(d, tree) + {Word(kind, ptr, VersionOf(size, slab))}
  }

  /** ptr is what add_log returned for an item that is still live; no two live items are equal. */
  ghost predicate FreesLive(d: Disk, tree: Tree, ptr: nat) {
    && Shaped(d.vol.chunks, tree.Keys) && NoTwins(d.vol.chunks, tree.Keys)
    && exists x :: Holds(d, tree, ptr, x)
  }

  lemma FreesLiveIsOk(d: Disk, tree: Tree, ptr: nat)
    requires FreesLive(d, tree, ptr)
    ensures FreeOk(d, tree, ptr) && ChunkOf(ptr) in tree
  {
    var x :| Holds(d, tree, ptr, x);
    var a, i :| LiveAs(d.vol.chunks, tree.Keys, a, i, x) && ptr == ItemAddr(a, i);
    ItemAddrRoundTrip(a, i);
  }

  lemma NothingOpened(d: Disk, tree: Tree, live: set<Item>)
    ensures OthersHeld(d, d, tree, tree) && NoneNew(d, d, tree, tree) && AllRecover([], live, live)
  {
  }

  lemma HeldThrough(d0: Disk, d1: Disk, d2: Disk, tree0: Tree, tree1: Tree, tree2: Tree)
    requires OthersHeld(d0, d1, tree0, tree1) && OthersHeld(d1, d2, tree1, tree2)
    ensures OthersHeld(d0, d2, tree0, tree2)
  {
  }

  lemma HeldThroughBut(d0: Disk, d1: Disk, d2: Disk, tree0: Tree, tree1: Tree, tree2: Tree, ptr: nat, ok: bool)
    requires OthersHeld(d0, d1, tree0, tree1) && (ok ==> OthersHeldBut(d1, d2, tree1, tree2, ptr))
    requires NoneNew(d0, d1, tree0, tree1) && (ok ==> NoneNew(d1, d2, tree1, tree2))
    ensures ok ==> OthersHeldBut(d0, d2, tree0, tree2, ptr) && NoneNew(d0, d2, tree0, tree2)
  {
  }

  lemma RecoverWider(ms: seq<Disk>, live: set<Item>, after: set<Item>)
    ensures AllRecover(ms, live, live) ==> AllRecover(ms, live, after)
  {
  }

  lemma RecoverSum(ms: seq<Disk>, ms': seq<Disk>, before: set<Item>, after: set<Item>)
    ensures AllRecover(ms, before, after) && AllRecover(ms', before, after) ==> AllRecover(ms + ms', before, after)
  {
  }

  /** An empty chunk more leaves everything live where it is. */
  lemma OpenedKeeps(d: Disk, d': Disk, slot: nat, tree: Tree, tree': Tree, tail: nat, tail': nat, nextId: nat, nextId': nat, ptr: nat)
    requires IndexOk(d, slot, tree, tail, nextId) && IndexOk(d', slot, tree', tail', nextId')
    requires Opened(d, d', tree, tree', tail, tail')
    ensures OthersHeld(d, d', tree, tree') && NoneNew(d, d', tree, tree') && tail' in tree' && NextSlot(tree', tail') == 0
    ensures FreesLive(d, tree, ptr) ==> FreesLive(d', tree', ptr) && ItemAt(d', ptr) == ItemAt(d, ptr)
  {
    hide IndexOk, Opened, LiveAs, ItemAddr, ChunkOf, IndexOf, ItemAt;
    OpenedLive(d, d', slot, tree, tree', tail, tail', nextId, nextId');
    OpenedTail(d, d', tree, tree', tail, tail');
    if FreesLive(d, tree, ptr) {
      var x :| Holds(d, tree, ptr, x);
      var a, i :| LiveAs(d.vol.chunks, tree.Keys, a, i, x) && ptr == ItemAddr(a, i);
      OpenedItem(d, d', tree, tree', tail, tail', a, i, x);
      assert Holds(d', tree', ptr, x);
    }
  }

  lemma OpenedTail(d: Disk, d': Disk, tree: Tree, tree': Tree, tail: nat, tail': nat)
    requires Opened(d, d', tree, tree', tail, tail')
    ensures tail' in tree' && NextSlot(tree', tail') == 0
  {
  }

  lemma OpenedItem(d: Disk, d': Disk, tree: Tree, tree': Tree, tail: nat, tail': nat, a: nat, i: nat, x: Item)
    requires Opened(d, d', tree, tree', tail, tail') && Shaped(d.vol.chunks, tree.Keys) && LiveAs(d.vol.chunks, tree.Keys, a, i, x)
    ensures ItemAt(d', ItemAddr(a, i)) == ItemAt(d, ItemAddr(a, i))
  {
    ItemAddrRoundTrip(a, i);
  }

  lemma OpenedLive(d: Disk, d': Disk, slot: nat, tree: Tree, tree': Tree, tail: nat, tail': nat, nextId: nat, nextId': nat)
    requires IndexOk(d, slot, tree, tail, nextId) && IndexOk(d', slot, tree', tail', nextId')
    requires Opened(d, d', tree, tree', tail, tail')
    ensures Shaped(d.vol.chunks, tree.Keys) && Shaped(d'.vol.chunks, tree'.Keys)
    ensures forall a, i, x :: LiveAs(d'.vol.chunks, tree'.Keys, a, i, x) <==> LiveAs(d.vol.chunks, tree.Keys, a, i, x)
  {
    hide Tracked, PresCarved, FullBut, LiveSet, LiveAs, Dead;
    var ch, ch', A, A' := d.vol.chunks, d'.vol.chunks, tree.Keys, tree'.Keys;
    IndexOkShaped(ch, tree, nextId);
    IndexOkShaped(ch', tree', nextId');
    assert A == A' - {tail'};
    OpenedDead(ch', tree', tail', nextId');
    LiveWithout(ch', ch, A', A, {tail'});
  }

  lemma CountZero(count: nat)
    requires CountToIndex(count) == 0
    ensures count == 0
  {
    CountIndexRoundTrip(count);
  }

  lemma OpenedDead(ch: Chunks, tree: Tree, n: nat, nextId: nat)
    requires Tracked(ch, tree, nextId) && n in tree && NextSlot(tree, n) == 0
    ensures Shaped(ch, tree.Keys) && Dead(ch, tree.Keys, n)
  {
    hide CountToIndex, IndexToCount;
    assert ChunkOk(ch, tree, nextId, n);
    CountZero(tree[n].count);
    forall i | 0 <= i < ITEMS ensures !Written(ch[n].items[i]) {
    }
    EmptyIsDead(ch, tree.Keys, n);
  }
}
