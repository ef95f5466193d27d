/** Creating a log, and the collector of src/log.c that copies the live items to a new log. */
module LogGc {
  import opened LogSpec
  import opened LogCrash
  import opened LogState
  import opened LogDisk
  import opened Log

  /** A log under construction: indexed and linked, and persisted but for the tail chunk. */
  ghost predicate Building(d: Disk, slot: nat, tree: Tree, tail: nat, nextId: nat, s: seq<nat>) {
    && IndexOk(d, slot, tree, tail, nextId)
    && Threaded(d.vol.chunks, tree, tail, d.vol.roots[slot], s) && TruePredecessors(tree, s)
    && FlushedBut(d, s, tail) && d.per.roots[slot] == d.vol.roots[slot] && NoFrees(d.vol.chunks, tree)
  }

  ghost predicate NoFrees(ch: Chunks, tree: Tree) {
    forall a, i :: a in tree && a in ch && 0 <= i < |ch[a].items| ==> !ch[a].items[i].kind.Free?
  }

  ghost predicate FlushedBut(d: Disk, s: seq<nat>, tail: nat) {
    forall a :: a in s && a != tail ==> a in d.per.chunks && a in d.vol.chunks && d.per.chunks[a] == d.vol.chunks[a]
  }

  /** The two chunks of a new log. */
  method AllocTwo(log: VLog, ghost slot: nat, ghost inUse: set<nat>) returns (root: nat, first: nat, ok: bool, ghost ms: seq<Disk>)
    requires log.file.SpaceOk(inUse) && slot < 2
    modifies log`nextId, log.file
    ensures log.file.moments == old(log.file.moments) + ms && AllAsideBut(old(log.file.disk), ms, inUse, slot)
    ensures !ok ==> log.file.Full() && log.file.used <= old(log.file.used) + 2 * CHUNK_SIZE
    ensures ok ==> log.file.SpaceOk(inUse + {root} + {first}) && log.nextId == old(log.nextId) + 2
    ensures ok ==> TwoNew(log.file.disk, slot, old(log.nextId), root, first, inUse) && BesideAs(old(log.file.disk), log.file.disk, inUse, slot)
    ensures ok && old(log.file.free) == [] ==>
              && root == log.file.base + old(log.file.used) && first == root + CHUNK_SIZE
              && log.file.used == old(log.file.used) + 2 * CHUNK_SIZE && log.file.free == []
  {
    hide AllAside, AllAsideBut, Space, Allocated, TwoNew, BesideAs;
    ghost var d0, id := log.file.disk, log.nextId;
    SpaceKeys(d0, log.file.base, log.file.used, log.file.free, inUse);
    var v;
    ghost var ms2;
    first := 0;
    root, v, ok, ms := log.VlchunkAlloc(inUse);
    AsideAsideBut(d0, ms, inUse, slot);
    if !ok {
      return;
    }
    ghost var d1 := log.file.disk;
    first, v, ok, ms2 := log.VlchunkAlloc(inUse + {root});
    SecondAlloc(d0, d1, root, id, ms, ms2, inUse, slot);
    ms := ms + ms2;
    if ok {
      TwoAllocated(d0, d1, log.file.disk, slot, id, root, first, inUse);
    }
  }

  /** The common part of log_create and log_create_for_GC: a root chunk and a first chunk. */
  method StartLog(file: LogFile, slot: nat, id: nat, ghost inUse: set<nat>) returns (log: VLog, ok: bool, ghost ms: seq<Disk>)
    requires file.SpaceOk(inUse) && slot < 2
    modifies file
    ensures fresh(log) && log.file == file && log.slot == slot
    ensures file.moments == old(file.moments) + ms
    ensures AllAsideBut(old(file.disk), ms, inUse, slot)
    ensures !ok ==> file.Full() && file.used <= old(file.used) + 2 * CHUNK_SIZE
    ensures ok ==> Started(old(file.disk), file.disk, slot, log.tree, log.tail, log.nextId, log.chain, inUse)
    ensures ok ==> file.SpaceOk(inUse + LogChunks(file.disk, slot, log.tree)) && log.nextId == id + 2 && |log.tree| == 1
    ensures ok && old(file.free) == [] ==> log.Records() == FirstBook(file.base, old(file.used), id)
  {
    hide Started, AllAside, AllAsideBut, Space, TwoNew, BesideAs;
    ghost var d0 := file.disk;
    log := new VLog.Make(file, slot, id);
    var root, first;
    root, first, ok, ms := AllocTwo(log, slot, inUse);
    if !ok {
      return;
    }
    StartSteps(d0, file.disk, slot, id, root, first, inUse, file.base, file.used, file.free);
    ghost var d2 := file.disk;
    file.Do(StoreNext(file.disk, root, first));
    file.Do(FlushHeader(file.disk, root));
    log.tree := map[first := NewVChunk(id + 1, root)];
    log.tail := first;
    log.chain := [root, first];
    file.Do(StoreRoot(file.disk, slot, root));
    file.Do(FlushRoot(file.disk, slot));
    ghost var ms2 := [Start3(d2, root, first), Start4(d2, root, first), Start5(d2, slot, root, first), Start6(d2, slot, root, first)];
    AsideButSum(d0, ms, ms2, inUse, slot);
    ms := ms + ms2;
  }

  /** The records of a new log, when nothing was on the free list. */
  function FirstBook(base: nat, used: nat, id: nat): Book {
    var root, first := base + used, base + used + CHUNK_SIZE;
    Book(map[first := NewVChunk(id + 1, root)], first, id + 2, [root, first], used + 2 * CHUNK_SIZE, [])
  }

  /** m has the same selector as d, the same selected root unless that is the root at `slot`, and
      the same chunks S. */
  ghost predicate AsideBut(d: Disk, m: Disk, S: set<nat>, slot: nat) {
    (d.vol.alt != slot && d.per.alt != slot) ==> Aside(d, m, S)
  }

  ghost predicate AllAsideBut(d: Disk, ms: seq<Disk>, S: set<nat>, slot: nat) {
    forall m :: m in ms ==> AsideBut(d, m, S, slot)
  }

  lemma AsideAsideBut(d: Disk, ms: seq<Disk>, S: set<nat>, slot: nat)
    requires AllAside(d, ms, S)
    ensures AllAsideBut(d, ms, S, slot)
  {
  }

  lemma AsideButSum(d: Disk, ms: seq<Disk>, ms': seq<Disk>, S: set<nat>, slot: nat)
    requires AllAsideBut(d, ms, S, slot) && AllAsideBut(d, ms', S, slot)
    ensures AllAsideBut(d, ms + ms', S, slot)
  {
  }

  /** A new, empty log stands beside the chunks S. */
  ghost predicate Started(d: Disk, d': Disk, slot: nat, tree: Tree, tail: nat, nextId: nat, s: seq<nat>, S: set<nat>) {
    && Building(d', slot, tree, tail, nextId, s) && Settled2(d', s) && LiveOf(d', tree) == {}
    && AsideBut(d, d', S, slot) && d'.vol.alt == d.vol.alt && d'.per.alt == d.per.alt
    && S !! LogChunks(d', slot, tree)
  }

  /** The chunks of s are the same in both views. */
  ghost predicate Settled2(d: Disk, s: seq<nat>) {
    AgreeOn(d.per.chunks, d.vol.chunks, s)
  }

  lemma SecondAlloc(d0: Disk, d1: Disk, root: nat, id: nat, ms1: seq<Disk>, ms2: seq<Disk>, S: set<nat>, slot: nat)
    requires Allocated(d0, d1, root, id) && root !in S && S <= d0.vol.chunks.Keys
    requires AllAside(d1, ms2, S + {root}) && AllAsideBut(d0, ms1, S, slot)
    ensures AllAsideBut(d0, ms1 + ms2, S, slot)
  {
    forall m | m in ms2 ensures AsideBut(d0, m, S, slot) {
      assert Aside(d1, m, S + {root});
    }
  }

  lemma SpaceKeys(d: Disk, base: nat, used: nat, free: seq<nat>, S: set<nat>)
    requires Space(d, base, used, free, S)
    ensures S <= d.vol.chunks.Keys && DiskOk(d)
  {
  }

  /** The disks of linking the first chunk behind the root and publishing the root. */
  function Start3(d: Disk, root: nat, first: nat): Disk
    requires root in d.vol.chunks
  {
    StoreNext(d, root, first)
  }

  function Start4(d: Disk, root: nat, first: nat): Disk
    requires root in d.vol.chunks && root in d.per.chunks
  {
    FlushHeader(Start3(d, root, first), root)
  }

  function Start5(d: Disk, slot: nat, root: nat, first: nat): Disk
    requires root in d.vol.chunks && root in d.per.chunks && slot < |d.vol.roots|
  {
    StoreRoot(Start4(d, root, first), slot, root)
  }

  function Start6(d: Disk, slot: nat, root: nat, first: nat): Disk
    requires root in d.vol.chunks && root in d.per.chunks && slot < |d.vol.roots| && slot < |d.per.roots|
  {
    FlushRoot(Start5(d, slot, root, first), slot)
  }

  /** Two zeroed chunks stand beside the chunks S. */
  ghost predicate TwoNew(d: Disk, slot: nat, id: nat, root: nat, first: nat, S: set<nat>) {
    && DiskOk(d) && slot < 2 && root !in S && first !in S && root != first && IsChunkAddr(root) && IsChunkAddr(first)
    && root in d.vol.chunks && first in d.vol.chunks
    && d.vol.chunks[root] == NewChunk(id) == d.per.chunks[root]
    && d.vol.chunks[first] == NewChunk(id + 1) == d.per.chunks[first]
  }

  ghost predicate BesideAs(d: Disk, d': Disk, S: set<nat>, slot: nat) {
    AsideBut(d, d', S, slot) && d'.vol.alt == d.vol.alt && d'.per.alt == d.per.alt
  }

  lemma TwoAllocated(d0: Disk, d1: Disk, d2: Disk, slot: nat, id: nat, root: nat, first: nat, S: set<nat>)
    requires slot < 2 && Allocated(d0, d1, root, id) && Allocated(d1, d2, first, id + 1)
    requires S <= d0.vol.chunks.Keys && root !in S && first !in S + {root} && IsChunkAddr(root) && IsChunkAddr(first)
    ensures TwoNew(d2, slot, id, root, first, S) && BesideAs(d0, d2, S, slot)
  {
  }

  lemma StartSteps(d0: Disk, d2: Disk, slot: nat, id: nat, root: nat, first: nat, S: set<nat>,
                   base: nat, used: nat, free: seq<nat>)
    requires TwoNew(d2, slot, id, root, first, S) && BesideAs(d0, d2, S, slot)
    requires Space(d2, base, used, free, S + {root} + {first})
    ensures root in d2.vol.chunks && root in d2.per.chunks && slot < |d2.vol.roots| && slot < |d2.per.roots|
    ensures var tree := map[first := NewVChunk(id + 1, root)];
            var d6 := Start6(d2, slot, root, first);
            && AllAsideBut(d0, [Start3(d2, root, first), Start4(d2, root, first), Start5(d2, slot, root, first), d6], S, slot)
            && Started(d0, d6, slot, tree, first, id + 2, [root, first], S)
            && Space(d6, base, used, free, S + LogChunks(d6, slot, tree))
  {
    hide Space, AllAsideBut, AsideBut, Started;
    StartMoments(d0, d2, slot, id, root, first, S);
    StartSpace(d2, slot, id, root, first, S, base, used, free);
    StartBuilding(d2, slot, id, root, first, S);
    StartedAll(d0, d2, slot, id, root, first, S);
  }

  lemma StartMoments(d0: Disk, d2: Disk, slot: nat, id: nat, root: nat, first: nat, S: set<nat>)
    requires TwoNew(d2, slot, id, root, first, S) && AsideBut(d0, d2, S, slot)
    requires d2.vol.alt == d0.vol.alt && d2.per.alt == d0.per.alt
    ensures AllAsideBut(d0, [Start3(d2, root, first), Start4(d2, root, first), Start5(d2, slot, root, first), Start6(d2, slot, root, first)], S, slot)
    ensures AsideBut(d0, Start6(d2, slot, root, first), S, slot)
  {
    forall m | m in [Start3(d2, root, first), Start4(d2, root, first), Start5(d2, slot, root, first), Start6(d2, slot, root, first)]
      ensures AsideBut(d0, m, S, slot)
    {
      assert DiskOk(m) && m.vol.alt == d2.vol.alt && m.per.alt == d2.per.alt;
    }
  }

  lemma StartSpace(d: Disk, slot: nat, id: nat, root: nat, first: nat, S: set<nat>, base: nat, used: nat, free: seq<nat>)
    requires TwoNew(d, slot, id, root, first, S) && Space(d, base, used, free, S + {root} + {first})
    ensures var d6 := Start6(d, slot, root, first);
            Space(d6, base, used, free, S + LogChunks(d6, slot, map[first := NewVChunk(id + 1, root)]))
  {
    var d6 := Start6(d, slot, root, first);
    assert d6.vol.chunks.Keys == d.vol.chunks.Keys && d6.per.chunks.Keys == d.per.chunks.Keys;
    assert S + LogChunks(d6, slot, map[first := NewVChunk(id + 1, root)]) == S + {root} + {first};
  }

  lemma StartBuilding(d: Disk, slot: nat, id: nat, root: nat, first: nat, S: set<nat>)
    requires TwoNew(d, slot, id, root, first, S)
    ensures var d6, tree := Start6(d, slot, root, first), map[first := NewVChunk(id + 1, root)];
            Building(d6, slot, tree, first, id + 2, [root, first]) && LiveOf(d6, tree) == {} && Settled2(d6, [root, first])
  {
    hide IndexOk, LiveOf;
    StartIndex(d, slot, id, root, first, S);
    var d6, s := Start6(d, slot, root, first), [root, first];
    assert Holding(s) == {first} by {
      assert s[1] == first;
    }
    assert d6.per.chunks[root] == d6.vol.chunks[root];
  }

  lemma StartIndex(d: Disk, slot: nat, id: nat, root: nat, first: nat, S: set<nat>)
    requires TwoNew(d, slot, id, root, first, S)
    ensures var d6, tree := Start6(d, slot, root, first), map[first := NewVChunk(id + 1, root)];
            IndexOk(d6, slot, tree, first, id + 2) && LiveOf(d6, tree) == {}
  {
    var d6 := Start6(d, slot, root, first);
    var tree: Tree := map[first := NewVChunk(id + 1, root)];
    var none: Tree := map[];
    assert Tracked(d.vol.chunks, none, id + 1);
    AddChunkKeeps(d.vol.chunks, none, id + 1, first, root);
    assert none[first := NewVChunk(id + 1, root)] == tree;
    assert d6.vol.chunks == d.vol.chunks[root := d.vol.chunks[root].(next := first)];
    LinksDoNotMatter(d.vol.chunks, d6.vol.chunks, tree, id + 2);
    assert LiveSet(d.vol.chunks, none.Keys) == {};
  }

  lemma StartedAll(d0: Disk, d2: Disk, slot: nat, id: nat, root: nat, first: nat, S: set<nat>)
    requires TwoNew(d2, slot, id, root, first, S)
    requires d2.vol.alt == d0.vol.alt && d2.per.alt == d0.per.alt
    requires AsideBut(d0, Start6(d2, slot, root, first), S, slot)
    requires var d6, tree := Start6(d2, slot, root, first), map[first := NewVChunk(id + 1, root)];
             Building(d6, slot, tree, first, id + 2, [root, first]) && LiveOf(d6, tree) == {} && Settled2(d6, [root, first])
    ensures Started(d0, Start6(d2, slot, root, first), slot, map[first := NewVChunk(id + 1, root)], first, id + 2, [root, first], S)
  {
    hide Building, LiveOf, Settled2, AsideBut;
  }

  // ---------------------------------------------------------------------------------------
  // add_log_for_GC
  // ---------------------------------------------------------------------------------------

  /** A log under construction beside the chunks S. */
  ghost predicate BuildingBeside(d: Disk, base: nat, used: nat, free: seq<nat>, S: set<nat>,
                                 slot: nat, tree: Tree, tail: nat, nextId: nat, s: seq<nat>) {
    && Building(d, slot, tree, tail, nextId, s) && Space(d, base, used, free, S + LogChunks(d, slot, tree))
    && S !! LogChunks(d, slot, tree)
  }

  /** The log has used as many ids as it has chunks, its root among them, counting from 0. */
  ghost predicate Numbered(log: VLog)
    reads log
  {
    log.nextId == |log.tree| + 1
  }

  ghost predicate LogBeside(log: VLog, S: set<nat>)
    reads log, log.file
  {
    BuildingBeside(log.file.disk, log.file.base, log.file.used, log.file.free, S, log.slot, log.tree, log.tail, log.nextId, log.chain)
  }

  /** The tail of the new log is full: it is linked to a new chunk and persisted. */
  method GrowForGc(log: VLog, ghost S: set<nat>) returns (ok: bool, ghost ms: seq<Disk>)
    requires LogBeside(log, S) && NextSlot(log.tree, log.tail) >= ITEMS
    modifies log, log.file
    ensures log.file.moments == old(log.file.moments) + ms && AllAside(old(log.file.disk), ms, S)
    ensures !ok ==> log.file.Full()
    ensures ok ==> LogBeside(log, S) && Opened(old(log.file.disk), log.file.disk, old(log.tree), log.tree, old(log.tail), log.tail)
    ensures ok ==> LiveOf(log.file.disk, log.tree) == LiveOf(old(log.file.disk), old(log.tree))
    ensures ok ==> Aside(old(log.file.disk), log.file.disk, S)
    ensures ok && old(Numbered(log)) ==> Numbered(log)
  {
    hide Building, BuildingBeside, Space, AllAside, Aside, Allocated, Opened, LiveOf;
    ghost var d0, used0, free0 := log.file.disk, log.file.used, log.file.free;
    BesideSpace(d0, log.file.base, used0, free0, S, log.slot, log.tree, log.tail, log.nextId, log.chain);
    ghost var inUse := S + LogChunks(d0, log.slot, log.tree);
    var n, v;
    n, v, ok, ms := log.VlchunkAlloc(inUse);
    AllAsideLess(d0, ms, inUse, S);
    if ok {
      ghost var d1 := log.file.disk;
      var tail := log.tail;
      v := v.(pre := tail);
      ghost var tree0 := log.tree;
      GrowAll(d0, d1, log.file.base, used0, free0, log.file.base, log.file.used, log.file.free, S,
              log.slot, log.tree, tail, log.nextId - 1, log.chain, n);
      ghost var d2 := StoreNext(d1, tail, n);
      log.file.Do(StoreNext(log.file.disk, tail, n));
      log.file.Do(FlushChunk(log.file.disk, tail));
      AsideMore(d0, ms, d2, log.file.disk, S);
      ms := ms + [d2, log.file.disk];
      OneMore(tree0, n, v);
      log.tree := log.tree[n := v];
      log.tail := n;
      log.chain := log.chain + [n];
    }
  }

  method AddLogForGc(log: VLog, x: Item, ghost S: set<nat>) returns (item: nat, ok: bool, ghost ms: seq<Disk>)
    requires LogBeside(log, S) && Written(x) && !x.kind.Free?
    modifies log, log.file
    ensures log.file.moments == old(log.file.moments) + ms && AllAside(old(log.file.disk), ms, S)
    ensures !ok ==> log.file.Full()
    ensures ok ==> LogBeside(log, S) && Aside(old(log.file.disk), log.file.disk, S)
    ensures ok ==> LiveOf(log.file.disk, log.tree) == LiveOf(old(log.file.disk), old(log.tree)) + {x}
    ensures ok ==> Holds(log.file.disk, log.tree, item, x)
    ensures ok ==> HeldBack(old(log.file.disk), log.file.disk, old(log.tree), log.tree, item, x)
    ensures ok && old(Numbered(log)) ==> Numbered(log)
  {
    hide Building, BuildingBeside, Space, AllAside, Aside, Opened, LiveOf, Holds, HeldBack;
    ghost var d0, tree0, tail0, nextId0, s0, used0, free0 :=
      log.file.disk, log.tree, log.tail, log.nextId, log.chain, log.file.used, log.file.free;
    BesideSpace(d0, log.file.base, log.file.used, log.file.free, S, log.slot, tree0, tail0, nextId0, s0);
    item, ok, ms := 0, true, [];
    NoMoments(d0, S);
    if NextSlot(log.tree, log.tail) >= ITEMS {
      ok, ms := GrowForGc(log, S);
      if !ok {
        return;
      }
      GrownHeld(d0, log.file.disk, log.file.base, used0, free0, log.file.used, log.file.free, S, log.slot,
                tree0, log.tree, tail0, log.tail, nextId0, log.nextId, s0, log.chain);
    } else {
      SameHeld(d0, tree0);
    }
    ghost var d1, tree1 := log.file.disk, log.tree;
    var index := NextSlot(log.tree, log.tail);
    CopyAll(d1, log.file.base, log.file.used, log.file.free, S, log.slot, tree1, log.tail, log.nextId, log.chain, x);
    ghost var d2 := StoreItem(d1, log.tail, index, x);
    log.file.Do(StoreItem(log.file.disk, log.tail, index, x));
    SameSize(log.tree, log.tail, index);
    log.tree := Counted(log.tree, log.tail, index);
    item := ItemAddr(log.tail, index);
    AsideMore1(d0, d1, ms, d2, S);
    HeldBackThrough(d0, d1, d2, tree0, tree1, log.tree, item, x);
    ms := ms + [d2];
  }

  lemma OneMore(tree: Tree, n: nat, v: VChunk)
    ensures n !in tree ==> |tree[n := v]| == |tree| + 1
  {
    if n !in tree {
      assert tree[n := v].Keys == tree.Keys + {n};
      assert |tree[n := v]| == |tree[n := v].Keys| && |tree| == |tree.Keys|;
    }
  }

  lemma SameSize(tree: Tree, t: nat, k: nat)
    requires t in tree && k < |tree[t].bits|
    ensures |Counted(tree, t, k)| == |tree|
  {
    assert Counted(tree, t, k).Keys == tree.Keys;
    assert |Counted(tree, t, k)| == |Counted(tree, t, k).Keys| && |tree| == |tree.Keys|;
  }

  lemma NoMoments(d: Disk, S: set<nat>)
    requires DiskOk(d) && S <= d.vol.chunks.Keys
    ensures AllAside(d, [], S) && Aside(d, d, S)
  {
  }

  lemma AllAsideLess(d: Disk, ms: seq<Disk>, S: set<nat>, S': set<nat>)
    requires AllAside(d, ms, S) && S' <= S
    ensures AllAside(d, ms, S')
  {
    forall m | m in ms ensures Aside(d, m, S') {
      assert Aside(d, m, S);
    }
  }

  lemma AsideMore(d: Disk, ms: seq<Disk>, m: Disk, m': Disk, S: set<nat>)
    requires AllAside(d, ms, S) && Aside(d, m, S) && Aside(d, m', S)
    ensures AllAside(d, ms + [m, m'], S)
  {
  }

  lemma AsideMore1(d: Disk, d': Disk, ms: seq<Disk>, m: Disk, S: set<nat>)
    requires AllAside(d, ms, S) && Aside(d, d', S) && Aside(d', m, S)
    ensures AllAside(d, ms + [m], S) && Aside(d, m, S)
  {
  }

  lemma BesideSpace(d: Disk, base: nat, used: nat, free: seq<nat>, S: set<nat>,
                    slot: nat, tree: Tree, tail: nat, nextId: nat, s: seq<nat>)
    requires BuildingBeside(d, base, used, free, S, slot, tree, tail, nextId, s)
    ensures Space(d, base, used, free, S + LogChunks(d, slot, tree)) && DiskOk(d) && S <= d.vol.chunks.Keys
    ensures tail in tree && slot < 2 && Shaped(d.vol.chunks, tree.Keys) && tail in d.vol.chunks
    ensures Building(d, slot, tree, tail, nextId, s) && S !! LogChunks(d, slot, tree)
  {
  }

  lemma IndexVol(d: Disk, d': Disk, slot: nat, tree: Tree, tail: nat, nextId: nat)
    requires IndexOk(d, slot, tree, tail, nextId) && d'.vol == d.vol && DiskOk(d')
    ensures IndexOk(d', slot, tree, tail, nextId) && LiveOf(d', tree) == LiveOf(d, tree)
    ensures forall item, x :: Holds(d', tree, item, x) <==> Holds(d, tree, item, x)
  {
  }

  lemma GrowAll(d0: Disk, d1: Disk, base0: nat, used0: nat, free0: seq<nat>, base: nat, used: nat, free: seq<nat>, S: set<nat>,
                slot: nat, tree: Tree, tail: nat, nextId: nat, s: seq<nat>, n: nat)
    requires BuildingBeside(d0, base0, used0, free0, S, slot, tree, tail, nextId, s)
    requires Allocated(d0, d1, n, nextId) && n !in S + LogChunks(d0, slot, tree) && IsChunkAddr(n)
    requires tail in tree && NextSlot(tree, tail) >= ITEMS
    requires Space(d1, base, used, free, S + LogChunks(d0, slot, tree) + {n})
    ensures tail in d1.vol.chunks && tail in StoreNext(d1, tail, n).vol.chunks
    ensures var d2, v := StoreNext(d1, tail, n), NewVChunk(nextId, tail);
            var d3, tree' := FlushChunk(d2, tail), tree[n := v];
            && BuildingBeside(d3, base, used, free, S, slot, tree', n, nextId + 1, s + [n])
            && Opened(d0, d3, tree, tree', tail, n) && LiveOf(d3, tree') == LiveOf(d0, tree)
            && Aside(d0, d2, S) && Aside(d0, d3, S)
  {
    hide BuildingBeside, Building, Space, IndexOk, LiveOf, Opened, Aside, Threaded, TruePredecessors;
    BesideSpace(d0, base0, used0, free0, S, slot, tree, tail, nextId, s);
    GrowIndex(d0, d1, slot, tree, tail, nextId, s, n);
    GrowChain(d0, d1, slot, tree, tail, nextId, s, n);
    GrowSpace(d0, d1, base, used, free, S, slot, tree, tail, n, NewVChunk(nextId, tail));
    GrowBeside(d0, d1, base, used, free, S, slot, tree, tail, nextId, s, n);
  }

  /** The disk of GrowForGc. */
  function Grown(d: Disk, tail: nat, n: nat): Disk
    requires tail in d.vol.chunks
  {
    FlushChunk(StoreNext(d, tail, n), tail)
  }

  lemma GrowIndex(d0: Disk, d1: Disk, slot: nat, tree: Tree, tail: nat, nextId: nat, s: seq<nat>, n: nat)
    requires Building(d0, slot, tree, tail, nextId, s) && Allocated(d0, d1, n, nextId)
    requires n !in LogChunks(d0, slot, tree) && IsChunkAddr(n) && tail in tree && NextSlot(tree, tail) >= ITEMS
    ensures tail in d1.vol.chunks
    ensures var d3, tree' := Grown(d1, tail, n), tree[n := NewVChunk(nextId, tail)];
            && IndexOk(d3, slot, tree', n, nextId + 1) && Opened(d0, d3, tree, tree', tail, n) && LiveOf(d3, tree') == LiveOf(d0, tree)
  {
    hide Threaded, TruePredecessors, FlushedBut, Tracked, LiveSet;
    var v := NewVChunk(nextId, tail);
    LinkIndex(d0, d1, slot, tree, tail, nextId, n, v);
    IndexVol(Linking(d1, tail, n), Grown(d1, tail, n), slot, tree[n := v], n, nextId + 1);
  }

  lemma GrowChain(d0: Disk, d1: Disk, slot: nat, tree: Tree, tail: nat, nextId: nat, s: seq<nat>, n: nat)
    requires Building(d0, slot, tree, tail, nextId, s) && Allocated(d0, d1, n, nextId)
    requires n !in LogChunks(d0, slot, tree) && IsChunkAddr(n)
    ensures tail in d1.vol.chunks && slot < |d1.vol.roots|
    ensures var d3, tree' := Grown(d1, tail, n), tree[n := NewVChunk(nextId, tail)];
            && Threaded(d3.vol.chunks, tree', n, d3.vol.roots[slot], s + [n]) && TruePredecessors(tree', s + [n])
            && FlushedBut(d3, s + [n], n) && d3.per.roots[slot] == d3.vol.roots[slot] && NoFrees(d3.vol.chunks, tree')
  {
    hide IndexOk, Threaded, TruePredecessors, FlushedBut, NoFrees;
    OutsideChain(d0, d1, slot, tree, tail, nextId, s, n);
    GrowNoFrees(d0, d1, slot, tree, tail, nextId, n, NewVChunk(nextId, tail));
    SameThread(d0.vol.chunks, d1.vol.chunks, tree, tail, d0.vol.roots[slot], s);
    ThreadChunk(d1.vol.chunks, tree, tail, d1.vol.roots[slot], s, n, NewVChunk(nextId, tail));
    GrowFlushed(d0, d1, s, tail, n);
  }

  lemma GrowNoFrees(d0: Disk, d1: Disk, slot: nat, tree: Tree, tail: nat, nextId: nat, n: nat, v: VChunk)
    requires IndexOk(d0, slot, tree, tail, nextId) && NoFrees(d0.vol.chunks, tree) && Allocated(d0, d1, n, nextId)
    requires n !in tree && tail in d1.vol.chunks
    ensures NoFrees(Grown(d1, tail, n).vol.chunks, tree[n := v])
  {
    IndexShape(d0, slot, tree, tail, nextId);
  }

  lemma OutsideChain(d0: Disk, d1: Disk, slot: nat, tree: Tree, tail: nat, nextId: nat, s: seq<nat>, n: nat)
    requires Building(d0, slot, tree, tail, nextId, s) && n !in LogChunks(d0, slot, tree) && Allocated(d0, d1, n, nextId)
    ensures slot < 2 && DiskOk(d0) && n !in s && tail in s && AgreeOn(d0.vol.chunks, d1.vol.chunks, s)
    ensures tail in d1.vol.chunks
  {
    hide Tracked, TruePredecessors, FlushedBut;
    NotOnChain(d0.vol.chunks, tree, tail, d0.vol.roots[slot], s, n);
    SameBut(d0, d1, n, nextId, s);
  }

  lemma NotOnChain(ch: Chunks, tree: Tree, tail: nat, root: nat, s: seq<nat>, n: nat)
    requires Threaded(ch, tree, tail, root, s) && n !in {root} + tree.Keys
    ensures n !in s && tail in s && forall a :: a in s ==> a in ch
  {
    InChain(s, root);
  }

  lemma SameBut(d0: Disk, d1: Disk, n: nat, id: nat, s: seq<nat>)
    requires Allocated(d0, d1, n, id) && n !in s && forall a :: a in s ==> a in d0.vol.chunks
    ensures AgreeOn(d0.vol.chunks, d1.vol.chunks, s)
  {
  }

  lemma GrowFlushed(d0: Disk, d1: Disk, s: seq<nat>, tail: nat, n: nat)
    requires FlushedBut(d0, s, tail) && n !in s && tail in s && tail in d1.vol.chunks && Aside(d0, d1, d0.vol.chunks.Keys - {n})
    ensures FlushedBut(Grown(d1, tail, n), s + [n], n)
  {
  }

  lemma SameThread(ch: Chunks, ch': Chunks, tree: Tree, tail: nat, root: nat, s: seq<nat>)
    requires Threaded(ch, tree, tail, root, s) && AgreeOn(ch, ch', s)
    ensures Threaded(ch', tree, tail, root, s)
  {
    assert forall i :: 0 <= i < |s| ==> s[i] in s;
  }

  lemma GrowSpace(d0: Disk, d1: Disk, base: nat, used: nat, free: seq<nat>, S: set<nat>, slot: nat, tree: Tree, tail: nat, n: nat, v: VChunk)
    requires DiskOk(d0) && slot < 2 && S !! LogChunks(d0, slot, tree) && n !in S && S <= d0.vol.chunks.Keys
    requires Allocated(d0, d1, n, v.id) && tail in tree && tail in d0.vol.chunks
    requires Space(d1, base, used, free, S + LogChunks(d0, slot, tree) + {n})
    ensures tail in d1.vol.chunks
    ensures var d3, tree' := Grown(d1, tail, n), tree[n := v];
            && Space(d3, base, used, free, S + LogChunks(d3, slot, tree')) && S !! LogChunks(d3, slot, tree')
            && Aside(d0, StoreNext(d1, tail, n), S) && Aside(d0, d3, S)
  {
    hide Space, Aside, Grown;
    GrowSides(d0, d1, S, slot, tree, tail, n, v);
    var d3 := Grown(d1, tail, n);
    assert S + LogChunks(d3, slot, tree[n := v]) == S + LogChunks(d0, slot, tree) + {n};
    SameSpace(d1, d3, base, used, free, S + LogChunks(d0, slot, tree) + {n});
  }

  lemma SameSpace(d: Disk, d': Disk, base: nat, used: nat, free: seq<nat>, inUse: set<nat>)
    requires Space(d, base, used, free, inUse) && DiskOk(d') && d'.vol.chunks.Keys == d.vol.chunks.Keys
    ensures Space(d', base, used, free, inUse)
  {
  }

  lemma GrowSides(d0: Disk, d1: Disk, S: set<nat>, slot: nat, tree: Tree, tail: nat, n: nat, v: VChunk)
    requires DiskOk(d0) && slot < 2 && S !! LogChunks(d0, slot, tree) && n !in S && S <= d0.vol.chunks.Keys
    requires Allocated(d0, d1, n, v.id) && tail in tree && tail in d0.vol.chunks
    ensures tail in d1.vol.chunks
    ensures var d3 := Grown(d1, tail, n);
            && DiskOk(d3) && d3.vol.chunks.Keys == d1.vol.chunks.Keys && d3.vol.roots == d0.vol.roots
            && Aside(d0, StoreNext(d1, tail, n), S) && Aside(d0, d3, S)
  {
    assert tail !in S;
  }

  lemma GrowBeside(d0: Disk, d1: Disk, base: nat, used: nat, free: seq<nat>, S: set<nat>,
                   slot: nat, tree: Tree, tail: nat, nextId: nat, s: seq<nat>, n: nat)
    requires tail in d1.vol.chunks
    requires var d3, tree' := Grown(d1, tail, n), tree[n := NewVChunk(nextId, tail)];
             && IndexOk(d3, slot, tree', n, nextId + 1) && slot < |d3.vol.roots| && slot < |d3.per.roots|
             && Threaded(d3.vol.chunks, tree', n, d3.vol.roots[slot], s + [n]) && TruePredecessors(tree', s + [n])
             && FlushedBut(d3, s + [n], n) && d3.per.roots[slot] == d3.vol.roots[slot] && NoFrees(d3.vol.chunks, tree')
             && Space(d3, base, used, free, S + LogChunks(d3, slot, tree')) && S !! LogChunks(d3, slot, tree')
    ensures BuildingBeside(Grown(d1, tail, n), base, used, free, S, slot, tree[n := NewVChunk(nextId, tail)], n, nextId + 1, s + [n])
  {
    hide IndexOk, Threaded, TruePredecessors, FlushedBut, Space, NoFrees;
  }

  /** The word of a copied item is stored, not yet persisted. */
  lemma CopyAll(d: Disk, base: nat, used: nat, free: seq<nat>, S: set<nat>,
                slot: nat, tree: Tree, tail: nat, nextId: nat, s: seq<nat>, x: Item)
    requires BuildingBeside(d, base, used, free, S, slot, tree, tail, nextId, s)
    requires tail in tree && NextSlot(tree, tail) < ITEMS && Written(x) && !x.kind.Free?
    ensures DiskOk(d) && tail in d.vol.chunks && NextSlot(tree, tail) < |tree[tail].bits|
    ensures var k := NextSlot(tree, tail); var d', tree' := StoreItem(d, tail, k, x), Counted(tree, tail, k);
            && BuildingBeside(d', base, used, free, S, slot, tree', tail, nextId, s)
            && LiveOf(d', tree') == LiveOf(d, tree) + {x} && Holds(d', tree', ItemAddr(tail, k), x)
            && HeldBack(d, d', tree, tree', ItemAddr(tail, k), x) && Aside(d, d', S)
  {
    hide Space, IndexOk, LiveOf, HeldBack, Holds, Threaded, TruePredecessors, FlushedBut, Aside, NoFrees;
    BesideSpace(d, base, used, free, S, slot, tree, tail, nextId, s);
    var k := NextSlot(tree, tail);
    CopyIndex(d, slot, tree, tail, nextId, x);
    var d', tree' := StoreItem(d, tail, k, x), Counted(tree, tail, k);
    assert tree'.Keys == tree.Keys && LogChunks(d', slot, tree') == LogChunks(d, slot, tree);
    CopySpace(d, base, used, free, S, S + LogChunks(d, slot, tree), tail, k, x);
    CopyChain(d, slot, tree, tree', tail, s, k, x);
    CopyNoFrees(d, slot, tree, tree', tail, nextId, k, x);
    SamePredecessors(tree, tree', s);
  }

  lemma CopyIndex(d: Disk, slot: nat, tree: Tree, tail: nat, nextId: nat, x: Item)
    requires IndexOk(d, slot, tree, tail, nextId)
    requires tail in tree && NextSlot(tree, tail) < ITEMS && Written(x) && !x.kind.Free?
    ensures DiskOk(d) && tail in d.vol.chunks && NextSlot(tree, tail) < |tree[tail].bits|
    ensures var k := NextSlot(tree, tail); var d', tree' := StoreItem(d, tail, k, x), Counted(tree, tail, k);
            && IndexOk(d', slot, tree', tail, nextId) && LiveOf(d', tree') == LiveOf(d, tree) + {x}
            && Holds(d', tree', ItemAddr(tail, k), x) && HeldBack(d, d', tree, tree', ItemAddr(tail, k), x)
  {
    hide Tracked, LiveSet, LiveAs;
    AppendIndex(d, slot, tree, tail, nextId, x);
    var k := NextSlot(tree, tail);
    IndexVol(Written2(d, tail, k, x), StoreItem(d, tail, k, x), slot, Counted(tree, tail, k), tail, nextId);
  }

  lemma CopyNoFrees(d: Disk, slot: nat, tree: Tree, tree': Tree, tail: nat, nextId: nat, k: nat, x: Item)
    requires IndexOk(d, slot, tree, tail, nextId) && NoFrees(d.vol.chunks, tree) && tree'.Keys == tree.Keys
    requires tail in d.vol.chunks && DiskOk(d) && k < ITEMS && !x.kind.Free?
    ensures NoFrees(StoreItem(d, tail, k, x).vol.chunks, tree')
  {
  }

  lemma CopySpace(d: Disk, base: nat, used: nat, free: seq<nat>, S: set<nat>, inUse: set<nat>, t: nat, k: nat, x: Item)
    requires Space(d, base, used, free, inUse) && t in d.vol.chunks && k < ITEMS && t !in S && S <= d.vol.chunks.Keys
    ensures DiskOk(d)
    ensures var d' := StoreItem(d, t, k, x); Space(d', base, used, free, inUse) && Aside(d, d', S)
  {
  }

  lemma CopyChain(d: Disk, slot: nat, tree: Tree, tree': Tree, tail: nat, s: seq<nat>, k: nat, x: Item)
    requires DiskOk(d) && slot < 2 && tail in d.vol.chunks && k < ITEMS && tree'.Keys == tree.Keys
    requires Threaded(d.vol.chunks, tree, tail, d.vol.roots[slot], s) && FlushedBut(d, s, tail)
    ensures var d' := StoreItem(d, tail, k, x);
            Threaded(d'.vol.chunks, tree', tail, d'.vol.roots[slot], s) && FlushedBut(d', s, tail)
  {
  }

  lemma GrownHeld(d: Disk, d': Disk, base: nat, used: nat, free: seq<nat>, used': nat, free': seq<nat>, S: set<nat>, slot: nat,
                  tree: Tree, tree': Tree, tail: nat, tail': nat, nextId: nat, nextId': nat, s: seq<nat>, s': seq<nat>)
    requires BuildingBeside(d, base, used, free, S, slot, tree, tail, nextId, s)
    requires BuildingBeside(d', base, used', free', S, slot, tree', tail', nextId', s')
    requires Opened(d, d', tree, tree', tail, tail')
    ensures NoneNew(d, d', tree, tree') && NextSlot(tree', tail') < ITEMS && tail' in tree'
  {
    OpenedLive(d, d', slot, tree, tree', tail, tail', nextId, nextId');
  }
}
