/** The arena's use of its log: every extent, slab and file knows the address of its log item.
    slow_GC of src/log.c copies the live items to a new log and commits by flipping `alt`. */
module LogArena {
  import opened LogSpec
  import opened LogCrash
  import opened LogState
  import opened LogDisk
  import opened Log
  import opened LogGc

  /** What a log item belongs to: the odd size marks a slab. */
  datatype Owner = Slab(ptr: nat) | Extent(ptr: nat) | FileOf(ptr: nat)

  /** Each owner's pointer to its log item. */
  type Owners = map<Owner, nat>

  function OwnerOf(x: Item): Owner {
    if x.kind.File? then FileOf(x.ptr) else if x.size % 2 == 1 then Slab(x.ptr) else Extent(x.ptr)
  }

  /** Whose item add_log writes; sizes are whole pages, so the low bit is free for the mark. */
  lemma OwnerOfWord(kind: Kind, ptr: nat, size: nat, slab: bool)
    requires ptr < 0x1_0000_0000_0000 && size % 2 == 0 && !kind.Free?
    ensures var x := Word(kind, ptr, VersionOf(size, slab));
            && (x.size % 2 == 1 <==> slab)
            && OwnerOf(x) == if kind.File? then FileOf(ptr) else if slab then Slab(ptr) else Extent(ptr)
  {
    hide Word, VersionOf;
    WordIs(kind, ptr, VersionOf(size, slab));
    VersionIs(size, slab);
    Parity(VersionOf(size, slab));
  }

  lemma Parity(n: nat)
    ensures n % 0x4000 % 2 == n % 2
  {
    assert n == 2 * (0x2000 * (n / 0x4000)) + n % 0x4000;
  }

  /** The pointers name exactly the live items, each that of its owner. */
  ghost predicate OwnersOk(d: Disk, tree: Tree, owners: Owners) {
    && (forall item, x :: Holds(d, tree, item, x) ==> OwnerOf(x) in owners && owners[OwnerOf(x)] == item)
    && (forall o :: o in owners ==> exists x :: OwnerOf(x) == o && Holds(d, tree, owners[o], x))
  }

  lemma OwnersDistinguish(d: Disk, tree: Tree, owners: Owners, item: nat, x: Item, item': nat, x': Item)
    requires OwnersOk(d, tree, owners) && Holds(d, tree, item, x) && Holds(d, tree, item', x') && OwnerOf(x) == OwnerOf(x')
    ensures item == item' && x == x'
  {
    var a, i :| LiveAs(d.vol.chunks, tree.Keys, a, i, x) && item == ItemAddr(a, i);
    var b, j :| LiveAs(d.vol.chunks, tree.Keys, b, j, x') && item' == ItemAddr(b, j);
    ItemAddrRoundTrip(a, i);
    ItemAddrRoundTrip(b, j);
  }

  lemma OwnersNoTwins(d: Disk, tree: Tree, owners: Owners)
    requires OwnersOk(d, tree, owners) && Shaped(d.vol.chunks, tree.Keys)
    ensures NoTwins(d.vol.chunks, tree.Keys)
  {
    forall a, i, b, j, x | LiveAs(d.vol.chunks, tree.Keys, a, i, x) && LiveAs(d.vol.chunks, tree.Keys, b, j, x)
      ensures a == b && i == j
    {
      assert Holds(d, tree, ItemAddr(a, i), x) && Holds(d, tree, ItemAddr(b, j), x);
      ItemAddrRoundTrip(a, i);
      ItemAddrRoundTrip(b, j);
    }
  }

  lemma LiveIsHeld(d: Disk, tree: Tree, x: Item)
    requires Shaped(d.vol.chunks, tree.Keys)
    ensures x in LiveOf(d, tree) <==> exists item :: Holds(d, tree, item, x)
  {
    if x in LiveOf(d, tree) {
      var a, i :| LiveAs(d.vol.chunks, tree.Keys, a, i, x);
      assert Holds(d, tree, ItemAddr(a, i), x);
    }
  }

  /** log_create. */
  method LogCreate(base: nat) returns (log: VLog)
    requires IsChunkAddr(base)
    ensures log.IsDurable() && log.Live() == {} && log.TruePre() && fresh(log) && fresh(log.file)
    ensures log.file.base == base && log.Records() == FirstBook(base, CHUNK_SIZE, 1)
  {
    hide Started, Durable, IndexOk, Space, LiveOf, TruePredecessors, PresNotBefore, LogChunks;
    var file := new LogFile(base);
    ghost var ms, d0 := [], file.disk;
    var ok;
    log, ok, ms := StartLog(file, 0, 1, {});
    assert ok;
    CreatedIsDurable(d0, file.disk, log.tree, log.tail, log.nextId, log.chain);
    assert {} + LogChunks(file.disk, 0, log.tree) == LogChunks(file.disk, 0, log.tree);
  }

  lemma CreatedIsDurable(d: Disk, d': Disk, tree: Tree, tail: nat, nextId: nat, s: seq<nat>)
    requires Started(d, d', 0, tree, tail, nextId, s, {}) && d.vol.alt == 0 && d.per.alt == 0
    ensures IndexOk(d', 0, tree, tail, nextId) && Durable(d', 0, tree, tail, s)
    ensures LiveOf(d', tree) == {} && TruePredecessors(tree, s) && PresNotBefore(tree, s)
  {
    hide IndexOk, LiveOf, TruePredecessors, PresNotBefore, Settled2, Threaded, FlushedBut;
    SelectedIsDurable(d', 0, tree, tail, nextId, s);
  }

  /** A log under construction whose tail is persisted too, once it is selected. */
  lemma SelectedIsDurable(d: Disk, slot: nat, tree: Tree, tail: nat, nextId: nat, s: seq<nat>)
    requires Building(d, slot, tree, tail, nextId, s) && Settled2(d, s) && d.vol.alt == d.per.alt == slot
    ensures Durable(d, slot, tree, tail, s) && PresNotBefore(tree, s)
  {
    hide IndexOk, TruePredecessors, PresNotBefore, FlushedBut;
    IndexShape(d, slot, tree, tail, nextId);
    TruePresNotBefore(d.vol.chunks, tree, s, d.vol.roots[slot]);
    AgreeingChain(d.vol.chunks, d.per.chunks, s, d.vol.roots[slot]);
  }

  lemma AgreeingChain(ch: Chunks, ch': Chunks, s: seq<nat>, root: nat)
    requires IsChain(ch, s, root) && Shaped(ch, Holding(s)) && AgreeOn(ch', ch, s)
    ensures IsLog(ch', s, root)
  {
    assert forall i :: 0 <= i < |s| ==> s[i] in s;
  }

  // ---------------------------------------------------------------------------------------
  // The state of slow_GC
  // ---------------------------------------------------------------------------------------

  /** The old log when the collection starts: its disk, tree and chain, and the owners. */
  datatype Gc = Gc(d: Disk, slot: nat, tree: Tree, tail: nat, nextId: nat, s: seq<nat>, owners: Owners)

  /** The old log is durable, and its items have owners. */
  ghost predicate GcOk(g: Gc) {
    && IndexOk(g.d, g.slot, g.tree, g.tail, g.nextId) && Durable(g.d, g.slot, g.tree, g.tail, g.s)
    && OwnersOk(g.d, g.tree, g.owners)
  }

  /** Item (a, i) comes at position (c, k) of the scan or later. */
  predicate Later(s: seq<nat>, c: nat, k: nat, a: nat, i: nat) {
    (exists p :: c < p < |s| && s[p] == a) || (c < |s| && s[c] == a && i >= k)
  }

  /** todo holds the live items from position (c, k) on. */
  ghost predicate Pending(g: Gc, c: nat, k: nat, todo: set<Item>) {
    && Shaped(g.d.vol.chunks, g.tree.Keys) && todo <= LiveOf(g.d, g.tree)
    && forall a, i, x :: LiveAs(g.d.vol.chunks, g.tree.Keys, a, i, x) ==> (x in todo <==> Later(g.s, c, k, a, i))
  }

  /** The items not in todo are in the new log, and every owner knows where its item is. */
  ghost predicate Copied(g: Gc, d: Disk, tree: Tree, todo: set<Item>, owners: Owners) {
    && LiveOf(d, tree) == LiveOf(g.d, g.tree) - todo && owners.Keys == g.owners.Keys
    && (forall item, x :: Holds(g.d, g.tree, item, x) && x in todo ==> OwnerOf(x) in owners && owners[OwnerOf(x)] == item)
    && (forall item, x :: Holds(d, tree, item, x) ==> OwnerOf(x) in owners && owners[OwnerOf(x)] == item)
  }

  /** Before the scan. */
  lemma PendingStart(g: Gc, d: Disk, tree: Tree)
    requires GcOk(g) && LiveOf(d, tree) == {} && Shaped(d.vol.chunks, tree.Keys)
    ensures Pending(g, 1, 0, LiveOf(g.d, g.tree)) && Copied(g, d, tree, LiveOf(g.d, g.tree), g.owners)
  {
    forall a, i, x | LiveAs(g.d.vol.chunks, g.tree.Keys, a, i, x)
      ensures x in LiveOf(g.d, g.tree) && Later(g.s, 1, 0, a, i)
    {
      var p :| 0 < p < |g.s| && g.s[p] == a;
      assert p == 1 || 1 < p;
    }
    forall item, x | Holds(d, tree, item, x) ensures false {
      LiveIsHeld(d, tree, x);
    }
  }

  /** After the scan. */
  lemma PendingEnd(g: Gc, d: Disk, tree: Tree, todo: set<Item>, owners: Owners)
    requires GcOk(g) && Pending(g, |g.s|, 0, todo) && Copied(g, d, tree, todo, owners) && Shaped(d.vol.chunks, tree.Keys)
    ensures LiveOf(d, tree) == LiveOf(g.d, g.tree) && OwnersOk(d, tree, owners)
  {
    forall x | x in LiveOf(g.d, g.tree) ensures x !in todo {
      var a, i :| LiveAs(g.d.vol.chunks, g.tree.Keys, a, i, x);
      assert !Later(g.s, |g.s|, 0, a, i);
    }
    assert LiveOf(d, tree) == LiveOf(g.d, g.tree);
    forall o | o in owners ensures exists x :: OwnerOf(x) == o && Holds(d, tree, owners[o], x) {
      var x :| OwnerOf(x) == o && Holds(g.d, g.tree, g.owners[o], x);
      LiveIsHeld(g.d, g.tree, x);
      LiveIsHeld(d, tree, x);
    }
  }

  /** Past a slot that holds nothing live. */
  lemma PendingSkip(g: Gc, c: nat, k: nat, todo: set<Item>)
    requires Pending(g, c, k, todo) && 0 < c < |g.s|
    requires k < ITEMS && g.s[c] in g.tree ==> !Live(g.d.vol.chunks, g.tree.Keys, g.s[c], k)
    ensures Pending(g, c, k + 1, todo)
  {
  }

  lemma PendingNextChunk(g: Gc, c: nat, todo: set<Item>)
    requires GcOk(g) && Pending(g, c, BITS, todo) && 0 < c < |g.s|
    ensures Pending(g, c + 1, 0, todo)
  {
    ChainIsDistinct(g.d.vol.chunks, g.s, g.s[0]);
    forall a, i, x | LiveAs(g.d.vol.chunks, g.tree.Keys, a, i, x)
      ensures Later(g.s, c, BITS, a, i) <==> Later(g.s, c + 1, 0, a, i)
    {
      if Later(g.s, c, BITS, a, i) {
        var p :| c < p < |g.s| && g.s[p] == a;
        assert p == c + 1 || c + 1 < p;
      }
    }
  }

  /** Past a live item, which is copied. */
  lemma PendingCopy(g: Gc, c: nat, k: nat, todo: set<Item>, x: Item)
    requires GcOk(g) && Pending(g, c, k, todo) && 0 < c < |g.s|
    requires LiveAs(g.d.vol.chunks, g.tree.Keys, g.s[c], k, x)
    ensures x in todo && Pending(g, c, k + 1, todo - {x})
  {
    hide Durable, IndexOk, OwnersOk, LiveOf, LiveAs, NoTwins;
    OldLog(g);
    OwnersNoTwins(g.d, g.tree, g.owners);
    forall a, i, y | LiveAs(g.d.vol.chunks, g.tree.Keys, a, i, y)
      ensures y in todo - {x} <==> Later(g.s, c, k + 1, a, i)
    {
      assert y in todo <==> Later(g.s, c, k, a, i);
      OneItem(g, a, i, y, g.s[c], k, x);
      LaterNext(g.s, c, k, a, i);
    }
  }

  lemma OldLog(g: Gc)
    requires GcOk(g)
    ensures Distinct(g.s) && Shaped(g.d.vol.chunks, g.tree.Keys) && OwnersOk(g.d, g.tree, g.owners)
  {
    ChainIsDistinct(g.d.vol.chunks, g.s, g.s[0]);
  }

  lemma OneItem(g: Gc, a: nat, i: nat, y: Item, b: nat, j: nat, x: Item)
    requires Shaped(g.d.vol.chunks, g.tree.Keys) && NoTwins(g.d.vol.chunks, g.tree.Keys)
    requires LiveAs(g.d.vol.chunks, g.tree.Keys, a, i, y) && LiveAs(g.d.vol.chunks, g.tree.Keys, b, j, x)
    ensures y == x <==> a == b && i == j
  {
  }

  lemma LaterNext(s: seq<nat>, c: nat, k: nat, a: nat, i: nat)
    requires Distinct(s) && c < |s|
    ensures Later(s, c, k + 1, a, i) <==> Later(s, c, k, a, i) && !(a == s[c] && i == k)
  {
  }

  /** Different live items have different owners. */
  ghost predicate OwnOwners(g: Gc) {
    forall x, y :: x in LiveOf(g.d, g.tree) && y in LiveOf(g.d, g.tree) && OwnerOf(x) == OwnerOf(y) ==> x == y
  }

  lemma OldOwners(g: Gc)
    requires GcOk(g)
    ensures OwnOwners(g)
  {
    hide Durable, OwnersOk, LiveOf;
    OldLog(g);
    forall x, y | x in LiveOf(g.d, g.tree) && y in LiveOf(g.d, g.tree) && OwnerOf(x) == OwnerOf(y) ensures x == y {
      LiveIsHeld(g.d, g.tree, x);
      LiveIsHeld(g.d, g.tree, y);
      var item :| Holds(g.d, g.tree, item, x);
      var item' :| Holds(g.d, g.tree, item', y);
      OwnersDistinguish(g.d, g.tree, g.owners, item, x, item', y);
    }
  }

  lemma CopiedOne(g: Gc, d: Disk, d': Disk, tree: Tree, tree': Tree, todo: set<Item>, owners: Owners, item: nat, x: Item)
    requires OwnOwners(g) && Copied(g, d, tree, todo, owners) && x in todo && todo <= LiveOf(g.d, g.tree)
    requires Shaped(g.d.vol.chunks, g.tree.Keys) && Shaped(d.vol.chunks, tree.Keys)
    requires LiveOf(d', tree') == LiveOf(d, tree) + {x} && HeldBack(d, d', tree, tree', item, x)
    ensures OwnerOf(x) in owners && Copied(g, d', tree', todo - {x}, owners[OwnerOf(x) := item])
  {
    hide LiveOf, Holds, OwnOwners;
    LiveIsHeld(g.d, g.tree, x);
    var old0 :| Holds(g.d, g.tree, old0, x);
    var owners' := owners[OwnerOf(x) := item];
    forall item', y | Holds(g.d, g.tree, item', y) && y in todo - {x}
      ensures OwnerOf(y) in owners' && owners'[OwnerOf(y)] == item'
    {
      OwnerOfOther(g, x, y);
    }
    forall item', y | Holds(d', tree', item', y)
      ensures OwnerOf(y) in owners' && owners'[OwnerOf(y)] == item'
    {
      if Holds(d, tree, item', y) {
        LiveIsHeld(d, tree, y);
        OwnerOfOther(g, x, y);
      }
    }
  }

  lemma OwnerOfOther(g: Gc, x: Item, y: Item)
    requires OwnOwners(g) && x in LiveOf(g.d, g.tree) && y in LiveOf(g.d, g.tree) && y != x
    ensures OwnerOf(y) != OwnerOf(x)
  {
  }

  // ---------------------------------------------------------------------------------------
  // The scan
  // ---------------------------------------------------------------------------------------

  ghost function GcChunks(g: Gc): set<nat> {
    LogChunks(g.d, g.slot, g.tree)
  }

  /** The new log stands beside the untouched old one and holds what the scan has passed. */
  ghost predicate Scanning(g: Gc, c: nat, k: nat, to: VLog, todo: set<Item>, owners: Owners)
    reads to, to.file
  {
    && GcOk(g) && LogBeside(to, GcChunks(g)) && Aside(g.d, to.file.disk, GcChunks(g))
    && Pending(g, c, k, todo) && Copied(g, to.file.disk, to.tree, todo, owners)
  }

  /** What bit k of the chunk at position c says. */
  lemma ScanBit(g: Gc, c: nat, k: nat)
    requires GcOk(g) && 0 < c < |g.s| && k < BITS
    ensures var a := g.s[c];
            && a in g.tree && a in GcChunks(g) && |g.tree[a].bits| == BITS
            && a in g.d.vol.chunks && |g.d.vol.chunks[a].items| == ITEMS && Shaped(g.d.vol.chunks, g.tree.Keys)
            && (g.tree[a].bits[k] ==> k < ITEMS)
            && (k < ITEMS ==>
                  var x := g.d.vol.chunks[a].items[k];
                  if g.tree[a].bits[k] && !x.kind.Free? then
                    Written(x) && LiveAs(g.d.vol.chunks, g.tree.Keys, a, k, x) && Holds(g.d, g.tree, ItemAddr(a, k), x)
                  else !Live(g.d.vol.chunks, g.tree.Keys, a, k))
  {
    var a := g.s[c];
    assert a in Holding(g.s);
    assert ChunkOk(g.d.vol.chunks, g.tree, g.nextId, a);
    if k < ITEMS && Live(g.d.vol.chunks, g.tree.Keys, a, k) {
      assert LiveAs(g.d.vol.chunks, g.tree.Keys, a, k, g.d.vol.chunks[a].items[k]);
    }
  }

  /** How a collection ends: the file may be full; an owner's pointer may not be the scanned item,
      in which case the program stops. */
  datatype Outcome = Done | FileFull | Mismatch

  class Arena {
    const file: LogFile
    var log: VLog
    var owners: Owners

    /** The index is right and the owners' pointers are, whether a replay finds the log or not. */
    ghost predicate Indexed()
      reads this, log, log.file
    {
      log.file == file && log.Valid() && OwnersOk(file.disk, log.tree, owners)
    }

    ghost predicate Valid()
      reads this, log, log.file
    {
      Indexed() && log.IsDurable()
    }

    /** An arena without extents, slabs and files. */
    constructor (l: VLog)
      requires l.IsDurable() && l.Live() == {}
      ensures Valid() && log == l && file == l.file && owners == map[]
    {
      hide IndexOk, Durable, PresNotBefore, Space, LiveOf, OwnersOk;
      file, log, owners := l.file, l, map[];
      new;
      IndexOkIsShaped(file.disk, log.slot, log.tree, log.tail, log.nextId);
      NoOwners(file.disk, log.tree);
    }

    /** One set bit of the old log: an allocation or a file is copied, and its owner's pointer
        moves to the copy. */
    method CopyItem(to: VLog, cur: nat, k: nat, ghost g: Gc, ghost c: nat, ghost todo: set<Item>)
      returns (outcome: Outcome, ghost todo': set<Item>, ghost ms: seq<Disk>)
      requires to.file == file && Scanning(g, c, k, to, todo, owners)
      requires 0 < c < |g.s| && cur == g.s[c] && k < BITS && cur in g.tree && k < |g.tree[cur].bits| && g.tree[cur].bits[k]
      modifies this`owners, to, file
      ensures file.moments == old(file.moments) + ms && AllAside(old(file.disk), ms, GcChunks(g)) && !outcome.Mismatch? && (outcome.FileFull? ==> file.Full())
      ensures outcome.Done? ==> Scanning(g, c, k + 1, to, todo', owners)
      ensures outcome.Done? && old(Numbered(to)) ==> Numbered(to)
    {
      hide GcOk, BuildingBeside, Aside, AllAside, Pending, Copied, LiveAs, Holds, LiveOf, HeldBack, LogChunks, Live;
      ghost var d := file.disk;
      ScanBit(g, c, k);
      ScanDisk(g, d, cur, todo, file.base, file.used, file.free, to.slot, to.tree, to.tail, to.nextId, to.chain);
      outcome, todo', ms := Done, todo, [];
      var item := file.disk.vol.chunks[cur].items[k];
      if item.kind.Free? {
        PendingSkip(g, c, k, todo);
      } else {
        var o := OwnerOf(item);
        PendingCopy(g, c, k, todo, item);
        OwnerKnown(g, d, to.tree, todo, owners, ItemAddr(cur, k), item);
        if o !in owners || owners[o] != ItemAddr(cur, k) {
          outcome := Mismatch;
          return;
        }
        ghost var tree0 := to.tree;
        var addr, ok;
        addr, ok, ms := AddLogForGc(to, item, GcChunks(g));
        if !ok {
          outcome := FileFull;
          return;
        }
        CopyDone(g, c, k, d, file.disk, tree0, to.tree, todo, owners, addr, item);
        owners := owners[o := addr];
        todo' := todo - {item};
      }
    }

    /** The set bits of the chunk at position c of the old chain. */
    method CopyChunk(to: VLog, cur: nat, ghost g: Gc, ghost c: nat, ghost todo: set<Item>)
      returns (outcome: Outcome, ghost todo': set<Item>, ghost ms: seq<Disk>)
      requires to.file == file && to != log && Scanning(g, c, 0, to, todo, owners)
      requires 0 < c < |g.s| && cur == g.s[c] && log.tree == g.tree && cur in g.tree && |g.tree[cur].bits| == BITS
      modifies this`owners, to, file
      ensures file.moments == old(file.moments) + ms && AllAside(g.d, ms, GcChunks(g)) && !outcome.Mismatch? && (outcome.FileFull? ==> file.Full())
      ensures outcome.Done? ==> Scanning(g, c + 1, 0, to, todo', owners)
      ensures outcome.Done? && old(Numbered(to)) ==> Numbered(to)
    {
      hide GcOk, BuildingBeside, Aside, AllAside, Pending, Copied, LogChunks, Live;
      outcome, todo', ms := Done, todo, [];
      NoneYet(g, file.disk);
      for k := 0 to BITS
        invariant outcome.Done? && file.moments == old(file.moments) + ms && AllAside(g.d, ms, GcChunks(g))
        invariant Scanning(g, c, k, to, todo', owners) && (old(Numbered(to)) ==> Numbered(to))
      {
        if log.tree[cur].bits[k] {
          ghost var d1, ms1 := file.disk, ms;
          outcome, todo', ms1 := CopyItem(to, cur, k, g, c, todo');
          AsideChain(g.d, d1, ms, ms1, GcChunks(g));
          ms := ms + ms1;
          if !outcome.Done? {
            return;
          }
        } else {
          ScanBit(g, c, k);
          PendingSkip(g, c, k, todo');
        }
      }
      PendingNextChunk(g, c, todo');
    }

    /** The walk along the old chain. */
    method CopyChain(to: VLog, ghost g: Gc) returns (outcome: Outcome, ghost ms: seq<Disk>)
      requires to.file == file == log.file && to != log && Scanning(g, 1, 0, to, LiveOf(g.d, g.tree), owners)
      requires log.tree == g.tree && log.slot == g.slot
      modifies this`owners, to, file
      ensures file.moments == old(file.moments) + ms && AllAside(g.d, ms, GcChunks(g)) && !outcome.Mismatch? && (outcome.FileFull? ==> file.Full())
      ensures outcome.Done? ==> exists todo :: Scanning(g, |g.s|, 0, to, todo, owners)
      ensures outcome.Done? && old(Numbered(to)) ==> Numbered(to)
    {
      hide GcOk, BuildingBeside, Aside, AllAside, Pending, Copied, LogChunks, Live, LiveOf, Holds;
      ghost var c, todo := 1, LiveOf(g.d, g.tree);
      outcome, ms := Done, [];
      NoneYet(g, file.disk);
      OldRoot(g, file.disk, todo, file.base, file.used, file.free, to.slot, to.tree, to.tail, to.nextId, to.chain);
      var cur := file.disk.vol.chunks[file.disk.vol.roots[log.slot]].next;
      while cur != 0
        invariant outcome.Done? && file.moments == old(file.moments) + ms && AllAside(g.d, ms, GcChunks(g))
        invariant 0 < c <= |g.s| && Scanning(g, c, 0, to, todo, owners) && cur == After(g.s, c - 1)
        invariant old(Numbered(to)) ==> Numbered(to)
        decreases |g.s| - c
      {
        ScanBit(g, c, 0);
        assert cur in log.tree;
        ghost var d1, ms1 := file.disk, ms;
        outcome, todo, ms1 := CopyChunk(to, cur, g, c, todo);
        AsideSum(g.d, ms, ms1, GcChunks(g));
        ms := ms + ms1;
        if !outcome.Done? {
          return;
        }
        OldNext(g, c, file.disk, todo, file.base, file.used, file.free, to.slot, to.tree, to.tail, to.nextId, to.chain);
        cur := file.disk.vol.chunks[cur].next;
        c := c + 1;
      }
      OldEnd(g, c);
    }

    /** log_destroy: the chunks of the old log, from the highest address on, and its root join the
        free list. */
    method LogDestroy(gone: VLog, ghost S: set<nat>)
      requires gone.file == file && gone.slot < 2 && DiskOk(file.disk) && S !! LogChunks(file.disk, gone.slot, gone.tree)
      requires file.SpaceOk(LogChunks(file.disk, gone.slot, gone.tree) + S) && gone.Root() !in gone.tree
      modifies gone`tree, file`free
      ensures file.SpaceOk(S) && gone.tree.Keys == {}
      ensures exists order :: IsDescending(order) && Members(order) == old(gone.tree.Keys)
                              && file.free == old(file.free) + order + [gone.Root()]
    {
      hide Space, Destroying, IsDescending, IsLargest, LogChunks, Members;
      var root := file.disk.vol.roots[gone.slot];
      ghost var order, free0, keys := [], file.free, gone.tree.Keys;
      DestroyStart(file.disk, file.base, file.used, file.free, gone.slot, gone.tree, root, S);
      while gone.tree.Keys != {}
        invariant Destroying(file.disk, file.base, file.used, free0, file.free, keys, gone.tree.Keys, root, S, order)
        decreases |gone.tree.Keys|
      {
        LargestExists(gone.tree.Keys);
        var a :| a in gone.tree && IsLargest(gone.tree.Keys, a);
        TreeWithout(gone.tree, a);
        DestroyStep(file.disk, file.base, file.used, free0, file.free, keys, gone.tree.Keys, root, S, order, a);
        file.free := file.free + [a];
        order := order + [a];
        gone.tree := gone.tree - {a};
      }
      DestroyEnd(file.disk, file.base, file.used, free0, file.free, keys, root, S, order);
      file.free := file.free + [root];
    }

    /** slow_GC: at every moment a crash leaves the live set as it was; in the end a new log holds
        exactly the live items, none of them a Free item, and every owner knows its copy. */
    method SlowGc() returns (outcome: Outcome, ghost ms: seq<Disk>)
      requires Valid()
      modifies this`log, this`owners, file, log
      ensures file.moments == old(file.moments) + ms && !outcome.Mismatch? && (outcome.FileFull? ==> file.Full())
      ensures AllRecover(ms, old(log.Live()), old(log.Live()))
      ensures outcome.Done? ==> Valid() && fresh(log) && log.slot == 1 - old(log).slot && Numbered(log)
      ensures outcome.Done? ==> log.Live() == old(log.Live()) && NoFrees(file.disk.vol.chunks, log.tree) && log.TruePre()
      ensures outcome.Done? ==> owners.Keys == old(owners.Keys)
      ensures log == old(log) || fresh(log)
    {
      hide IndexOk, Durable, OwnersOk, GcOk, BuildingBeside, Aside, AllAside, Pending, Copied, LogChunks, Live, LiveOf, Holds,
           Space, Started, AllAsideBut, AllRecover, TruePredecessors, PresNotBefore, NoFrees;
      ghost var g := Gc(file.disk, log.slot, log.tree, log.tail, log.nextId, log.chain, owners);
      GcStart(g);
      var gone := log;
      var to, ok;
      to, ok, ms := StartLog(file, 1 - log.slot, 0, GcChunks(g));
      GcAside(g, ms);
      outcome := FileFull;
      if ok {
        GcScan(g, file.disk, file.base, file.used, file.free, to.tree, to.tail, to.nextId, to.chain);
        ghost var ms1;
        outcome, ms1 := CopyChain(to, g);
        AsideSum(g.d, ms, ms1, GcChunks(g));
        ms := ms + ms1;
      }
      GcRecovers(g, ms);
      if !outcome.Done? {
        return;
      }
      ghost var ms2 := FinishGc(to, gone, g);
      GcMoments(g, ms, ms2);
      ms := ms + ms2;
    }

    /** The end of slow_GC: the tail is persisted, the selector flipped and persisted, and the old
        log taken apart. */
    method FinishGc(to: VLog, gone: VLog, ghost g: Gc) returns (ghost ms: seq<Disk>)
      requires to.file == file == gone.file && to != gone && gone.slot == g.slot && gone.tree == g.tree && to.slot == 1 - gone.slot
      requires exists todo :: Scanning(g, |g.s|, 0, to, todo, owners)
      modifies this`log, file, gone
      ensures file.moments == old(file.moments) + ms && log == to
      ensures AllRecover(ms, LiveOf(g.d, g.tree), LiveOf(g.d, g.tree))
      ensures Valid() && log.Live() == LiveOf(g.d, g.tree) && NoFrees(file.disk.vol.chunks, log.tree) && log.TruePre()
      ensures owners.Keys == g.owners.Keys && (old(Numbered(to)) ==> Numbered(to))
    {
      hide IndexOk, Durable, OwnersOk, GcOk, BuildingBeside, Aside, AllAside, Pending, Copied, LogChunks, Live, LiveOf, Holds,
           Space, AllRecover, TruePredecessors, PresNotBefore, NoFrees;
      ghost var todo :| Scanning(g, |g.s|, 0, to, todo, owners);
      Commit(g, file.disk, file.base, file.used, file.free, to.slot, to.tree, to.tail, to.nextId, to.chain, todo, owners);
      file.Do(FlushChunk(file.disk, to.tail));
      ghost var d1 := file.disk;
      file.Do(StoreAlt(file.disk, 1 - file.disk.vol.alt));
      ghost var d2 := file.disk;
      file.Do(FlushAlt(file.disk));
      ms := [d1, d2, file.disk];
      log := to;
      LogDestroy(gone, LogChunks(file.disk, to.slot, to.tree));
    }
  }

  lemma GcStart(g: Gc)
    requires IndexOk(g.d, g.slot, g.tree, g.tail, g.nextId) && Durable(g.d, g.slot, g.tree, g.tail, g.s)
    requires OwnersOk(g.d, g.tree, g.owners)
    ensures GcOk(g) && g.slot < 2
  {
  }

  lemma GcAside(g: Gc, ms: seq<Disk>)
    requires GcOk(g) && AllAsideBut(g.d, ms, GcChunks(g), 1 - g.slot)
    ensures AllAside(g.d, ms, GcChunks(g))
  {
    hide GcOk, Aside, GcChunks;
    GcSlots(g);
    forall m | m in ms ensures Aside(g.d, m, GcChunks(g)) {
      assert AsideBut(g.d, m, GcChunks(g), 1 - g.slot);
    }
  }

  lemma GcSlots(g: Gc)
    requires GcOk(g)
    ensures g.d.vol.alt == g.d.per.alt == g.slot < 2 && |g.d.vol.roots| == 2 && DiskOk(g.d)
    ensures Shaped(g.d.vol.chunks, g.tree.Keys) && g.d.vol.roots[g.slot] !in g.tree
    ensures Settled(g.d, g.s) && LiveSet(g.d.per.chunks, Holding(g.s)) == LiveOf(g.d, g.tree)
    ensures forall a :: a in g.s ==> a in GcChunks(g)
  {
    DurableLive(g.d, g.slot, g.tree, g.tail, g.s);
    InChain(g.s, g.d.vol.roots[g.slot]);
  }

  lemma GcScan(g: Gc, d: Disk, base: nat, used: nat, free: seq<nat>, tree: Tree, tail: nat, nextId: nat, s: seq<nat>)
    requires GcOk(g) && g.slot < 2 && Started(g.d, d, 1 - g.slot, tree, tail, nextId, s, GcChunks(g))
    requires Space(d, base, used, free, GcChunks(g) + LogChunks(d, 1 - g.slot, tree))
    ensures BuildingBeside(d, base, used, free, GcChunks(g), 1 - g.slot, tree, tail, nextId, s) && Aside(g.d, d, GcChunks(g))
    ensures Pending(g, 1, 0, LiveOf(g.d, g.tree)) && Copied(g, d, tree, LiveOf(g.d, g.tree), g.owners)
  {
    hide Space, Pending, Copied, LiveOf, Tracked, OwnersOk, TruePredecessors, Threaded, FlushedBut, NoFrees, LogChunks;
    IndexShape(d, 1 - g.slot, tree, tail, nextId);
    PendingStart(g, d, tree);
  }

  lemma GcRecovers(g: Gc, ms: seq<Disk>)
    requires GcOk(g) && AllAside(g.d, ms, GcChunks(g))
    ensures AllRecover(ms, LiveOf(g.d, g.tree), LiveOf(g.d, g.tree))
  {
    AllocDurable(g.d, g.slot, g.tree, g.tail, g.s, g.nextId, ms);
  }

  lemma GcMoments(g: Gc, ms: seq<Disk>, ms': seq<Disk>)
    requires var live := LiveOf(g.d, g.tree); AllRecover(ms, live, live) && AllRecover(ms', live, live)
    ensures var live := LiveOf(g.d, g.tree); AllRecover(ms + ms', live, live)
  {
  }

  /** The new log holds the live set, beside the old one. */
  ghost predicate Committed(g: Gc, d: Disk, base: nat, used: nat, free: seq<nat>,
                            slot: nat, tree: Tree, tail: nat, nextId: nat, s: seq<nat>, owners: Owners) {
    && IndexOk(d, slot, tree, tail, nextId) && LiveOf(d, tree) == LiveOf(g.d, g.tree) && OwnersOk(d, tree, owners)
    && NoFrees(d.vol.chunks, tree) && TruePredecessors(tree, s)
    && Space(d, base, used, free, GcChunks(g) + LogChunks(d, slot, tree))
    && GcChunks(g) !! LogChunks(d, slot, tree) && LogChunks(d, g.slot, g.tree) == GcChunks(g)
    && DiskOk(d) && g.slot < 2 && d.vol.roots[g.slot] !in g.tree
  }

  lemma ThreeRecover(d1: Disk, d2: Disk, d3: Disk, live: set<Item>)
    requires Recovers(d1, live, live) && Recovers(d2, live, live) && Recovers(d3, live, live)
    ensures AllRecover([d1, d2, d3], live, live)
  {
  }

  /** The end of slow_GC: the tail is persisted, the selector flipped and persisted. */
  lemma Commit(g: Gc, d: Disk, base: nat, used: nat, free: seq<nat>,
               slot: nat, tree: Tree, tail: nat, nextId: nat, s: seq<nat>, todo: set<Item>, owners: Owners)
    requires GcOk(g) && slot == 1 - g.slot && BuildingBeside(d, base, used, free, GcChunks(g), slot, tree, tail, nextId, s)
    requires Aside(g.d, d, GcChunks(g)) && Pending(g, |g.s|, 0, todo) && Copied(g, d, tree, todo, owners)
    ensures tail in d.vol.chunks && d.vol.alt < 2
    ensures var d1 := FlushChunk(d, tail); var d2 := StoreAlt(d1, 1 - d1.vol.alt); var d3 := FlushAlt(d2);
            && AllRecover([d1, d2, d3], LiveOf(g.d, g.tree), LiveOf(g.d, g.tree))
            && Durable(d3, slot, tree, tail, s) && PresNotBefore(tree, s) && owners.Keys == g.owners.Keys
            && Committed(g, d3, base, used, free, slot, tree, tail, nextId, s, owners)
  {
    hide Committed, AllRecover, GcChunks, GcOk, Building, Space, Pending, Copied, OwnersOk, Durable, IndexOk, LiveOf, Aside, Recovers, NoFrees, TruePredecessors, PresNotBefore, Settled2, LogChunks;
    BesideSpace(d, base, used, free, GcChunks(g), slot, tree, tail, nextId, s);
    GcSlots(g);
    FlushTail(d, base, used, free, GcChunks(g), slot, tree, tail, nextId, s);
    var d1 := FlushChunk(d, tail);
    var d2 := StoreAlt(d1, 1 - d1.vol.alt);
    var d3 := FlushAlt(d2);
    PendingEnd(g, d, tree, todo, owners);
    AsideTwice(g.d, d, d1, GcChunks(g));
    SameVol(d, d1, tree, owners);
    Flip(g, d1, slot, tree, tail, nextId, s);
    Flipped(g, d1, base, used, free, slot, tree, tail, nextId, s, owners);
    CopiedKeys(g, d, tree, todo, owners);
    ThreeRecover(d1, d2, d3, LiveOf(g.d, g.tree));
  }

  lemma CopiedKeys(g: Gc, d: Disk, tree: Tree, todo: set<Item>, owners: Owners)
    requires Copied(g, d, tree, todo, owners)
    ensures owners.Keys == g.owners.Keys
  {
  }

  /** What depends on the items only. */
  lemma SameVol(d: Disk, d': Disk, tree: Tree, owners: Owners)
    requires d'.vol.chunks == d.vol.chunks
    ensures LiveOf(d', tree) == LiveOf(d, tree) && (OwnersOk(d, tree, owners) ==> OwnersOk(d', tree, owners))
  {
    assert forall item, x :: Holds(d', tree, item, x) <==> Holds(d, tree, item, x);
  }

  lemma FlushTail(d: Disk, base: nat, used: nat, free: seq<nat>, S: set<nat>, slot: nat, tree: Tree, tail: nat, nextId: nat, s: seq<nat>)
    requires BuildingBeside(d, base, used, free, S, slot, tree, tail, nextId, s)
    ensures tail in d.vol.chunks
    ensures var d1 := FlushChunk(d, tail);
            && BuildingBeside(d1, base, used, free, S, slot, tree, tail, nextId, s) && Settled2(d1, s) && Aside(d, d1, S)
  {
    hide IndexOk, TruePredecessors, PresNotBefore, NoFrees, LiveOf, Holds, Space, FlushedBut, Settled2, Aside, Threaded;
    BesideSpace(d, base, used, free, S, slot, tree, tail, nextId, s);
    FlushAside(d, base, used, free, S, S + LogChunks(d, slot, tree), tail);
    IndexVol(d, FlushChunk(d, tail), slot, tree, tail, nextId);
    TailFlushed(d, tree, tail, d.vol.roots[slot], s);
  }

  lemma FlushAside(d: Disk, base: nat, used: nat, free: seq<nat>, S: set<nat>, inUse: set<nat>, tail: nat)
    requires Space(d, base, used, free, inUse) && tail in d.vol.chunks && tail !in S && S <= d.vol.chunks.Keys
    ensures var d1 := FlushChunk(d, tail); DiskOk(d1) && Space(d1, base, used, free, inUse) && Aside(d, d1, S)
  {
  }

  lemma TailFlushed(d: Disk, tree: Tree, tail: nat, root: nat, s: seq<nat>)
    requires FlushedBut(d, s, tail) && Threaded(d.vol.chunks, tree, tail, root, s) && tail in d.vol.chunks
    ensures var d1 := FlushChunk(d, tail); FlushedBut(d1, s, tail) && Settled2(d1, s)
  {
  }

  /** The flip: either view of the selector leads to a log with the same live set. */
  lemma Flip(g: Gc, d1: Disk, slot: nat, tree: Tree, tail: nat, nextId: nat, s: seq<nat>)
    requires GcOk(g) && slot == 1 - g.slot && g.slot < 2 && Aside(g.d, d1, GcChunks(g))
    requires Building(d1, slot, tree, tail, nextId, s) && Settled2(d1, s) && LiveOf(d1, tree) == LiveOf(g.d, g.tree)
    ensures d1.vol.alt == g.slot
    ensures var d2 := StoreAlt(d1, 1 - d1.vol.alt); var d3 := FlushAlt(d2); var live := LiveOf(g.d, g.tree);
            && Recovers(d1, live, live) && Recovers(d2, live, live) && Recovers(d3, live, live) && Durable(d3, slot, tree, tail, s)
            && PresNotBefore(tree, s)
  {
    hide GcOk, Durable, IndexOk, LiveOf, LiveSet, Recovers, Tracked, Settled, TruePredecessors, PresNotBefore, NoFrees, Settled2, Threaded, FlushedBut, GcChunks;
    GcSlots(g);
    var d2 := StoreAlt(d1, 1 - d1.vol.alt);
    var d3 := FlushAlt(d2);
    AsideSettled(g.d, d1, g.s, GcChunks(g));
    SettledRecovers(d1, g.s);
    BuildingAlt(d1, d3, slot, tree, tail, nextId, s);
    SelectedIsDurable(d3, slot, tree, tail, nextId, s);
    SelectedLive(d3, slot, tree, tail, nextId, s);
    SettledRecovers(d3, s);
    assert d2.(vol := d2.vol.(alt := d2.per.alt)) == d1 && d2.(per := d2.per.(alt := d2.vol.alt)) == d3;
    FlipInFlight(d2, g.s, s);
  }

  lemma SelectedLive(d: Disk, slot: nat, tree: Tree, tail: nat, nextId: nat, s: seq<nat>)
    requires IndexOk(d, slot, tree, tail, nextId) && Durable(d, slot, tree, tail, s)
    ensures Settled(d, s) && LiveSet(d.per.chunks, Holding(s)) == LiveOf(d, tree)
  {
    DurableLive(d, slot, tree, tail, s);
  }

  /** The selector does not matter to a log under construction. */
  lemma BuildingAlt(d: Disk, d': Disk, slot: nat, tree: Tree, tail: nat, nextId: nat, s: seq<nat>)
    requires Building(d, slot, tree, tail, nextId, s) && Settled2(d, s) && slot < 2
    requires d' == Disk(d.vol.(alt := slot), d.per.(alt := slot))
    ensures Building(d', slot, tree, tail, nextId, s) && Settled2(d', s) && LiveOf(d', tree) == LiveOf(d, tree)
  {
    hide Tracked, Threaded, TruePredecessors, PresNotBefore, NoFrees, LiveSet;
  }

  lemma Flipped(g: Gc, d1: Disk, base: nat, used: nat, free: seq<nat>,
                slot: nat, tree: Tree, tail: nat, nextId: nat, s: seq<nat>, owners: Owners)
    requires GcOk(g) && slot == 1 - g.slot && g.slot < 2 && Aside(g.d, d1, GcChunks(g))
    requires BuildingBeside(d1, base, used, free, GcChunks(g), slot, tree, tail, nextId, s) && Settled2(d1, s)
    requires LiveOf(d1, tree) == LiveOf(g.d, g.tree) && OwnersOk(d1, tree, owners)
    ensures d1.vol.alt == g.slot
    ensures Committed(g, FlushAlt(StoreAlt(d1, 1 - d1.vol.alt)), base, used, free, slot, tree, tail, nextId, s, owners)
  {
    hide GcOk, LiveOf, OwnersOk, NoFrees, TruePredecessors, PresNotBefore, Settled2, Threaded, FlushedBut, IndexOk, Space, Aside, LogChunks, GcChunks;
    GcSlots(g);
    AsideAlt(g, d1);
    var d3 := FlushAlt(StoreAlt(d1, 1 - d1.vol.alt));
    FlippedSpace(g, d1, d3, base, used, free, slot, tree);
    BuildingAlt(d1, d3, slot, tree, tail, nextId, s);
    SameVol(d1, d3, tree, owners);
  }

  lemma AsideAlt(g: Gc, d1: Disk)
    requires GcOk(g) && Aside(g.d, d1, GcChunks(g))
    ensures d1.vol.alt == d1.per.alt == g.slot < 2 && |d1.vol.roots| == |d1.per.roots| == 2
  {
    hide GcOk;
    GcSlots(g);
  }

  lemma FlippedSpace(g: Gc, d1: Disk, d3: Disk, base: nat, used: nat, free: seq<nat>, slot: nat, tree: Tree)
    requires GcOk(g) && slot == 1 - g.slot && g.slot < 2 && Aside(g.d, d1, GcChunks(g))
    requires Space(d1, base, used, free, GcChunks(g) + LogChunks(d1, slot, tree)) && GcChunks(g) !! LogChunks(d1, slot, tree)
    requires d3 == Disk(d1.vol.(alt := slot), d1.per.(alt := slot))
    ensures Space(d3, base, used, free, GcChunks(g) + LogChunks(d3, slot, tree))
    ensures GcChunks(g) !! LogChunks(d3, slot, tree) && LogChunks(d3, g.slot, g.tree) == GcChunks(g)
    ensures DiskOk(d3) && g.slot < |d3.vol.roots| && d3.vol.roots[g.slot] !in g.tree
  {
    hide GcOk, Space, Aside, Settled, LiveSet;
    GcSlots(g);
    AsideAlt(g, d1);
    SameRoot(g, d1);
    assert LogChunks(d3, slot, tree) == LogChunks(d1, slot, tree);
    SameSpace(d1, d3, base, used, free, GcChunks(g) + LogChunks(d1, slot, tree));
  }

  lemma SameRoot(g: Gc, d1: Disk)
    requires GcOk(g) && Aside(g.d, d1, GcChunks(g))
    ensures DiskOk(d1) && g.slot < 2 && g.slot < |g.d.vol.roots| && g.slot < |d1.vol.roots| && d1.vol.roots[g.slot] == g.d.vol.roots[g.slot]
  {
    hide GcOk, GcChunks;
    GcSlots(g);
  }

  lemma TreeWithout(tree: Tree, a: nat)
    requires a in tree
    ensures (tree - {a}).Keys == tree.Keys - {a} && |tree.Keys - {a}| < |tree.Keys|
  {
  }

  /** The chunks in `order` have joined the free list, those in `rest` and the root have not. */
  ghost predicate Destroying(d: Disk, base: nat, used: nat, free0: seq<nat>, free: seq<nat>,
                             keys: set<nat>, rest: set<nat>, root: nat, S: set<nat>, order: seq<nat>) {
    && Space(d, base, used, free, rest + {root} + S) && root !in keys && S !! keys + {root}
    && free == free0 + order && IsDescending(order) && Members(order) + rest == keys
    && forall a, b :: a in order && b in rest ==> b < a
  }

  lemma DestroyStart(d: Disk, base: nat, used: nat, free: seq<nat>, slot: nat, tree: Tree, root: nat, S: set<nat>)
    requires slot < |d.vol.roots| && root == d.vol.roots[slot] && root !in tree && S !! LogChunks(d, slot, tree)
    requires Space(d, base, used, free, LogChunks(d, slot, tree) + S)
    ensures Destroying(d, base, used, free, free, tree.Keys, tree.Keys, root, S, [])
  {
    assert LogChunks(d, slot, tree) + S == tree.Keys + {root} + S;
  }

  lemma DestroyStep(d: Disk, base: nat, used: nat, free0: seq<nat>, free: seq<nat>,
                    keys: set<nat>, rest: set<nat>, root: nat, S: set<nat>, order: seq<nat>, a: nat)
    requires Destroying(d, base, used, free0, free, keys, rest, root, S, order)
    requires a in rest && IsLargest(rest, a)
    ensures Destroying(d, base, used, free0, free + [a], keys, rest - {a}, root, S, order + [a])
  {
    hide Space;
    Freed(d, base, used, free, rest + {root} + S, a);
    DescendsTo(order, a);
    assert rest + {root} + S - {a} == rest - {a} + {root} + S;
  }

  lemma DestroyEnd(d: Disk, base: nat, used: nat, free0: seq<nat>, free: seq<nat>,
                   keys: set<nat>, root: nat, S: set<nat>, order: seq<nat>)
    requires Destroying(d, base, used, free0, free, keys, {}, root, S, order)
    ensures Space(d, base, used, free + [root], S)
    ensures free == free0 + order && IsDescending(order) && Members(order) == keys
  {
    Freed(d, base, used, free, {} + {root} + S, root);
    assert {} + {root} + S - {root} == S;
  }

  ghost predicate IsDescending(s: seq<nat>) {
    forall i, j :: 0 <= i < j < |s| ==> s[j] < s[i]
  }

  lemma DescendsTo(s: seq<nat>, a: nat)
    requires IsDescending(s) && forall b :: b in s ==> a < b
    ensures IsDescending(s + [a]) && Members(s + [a]) == Members(s) + {a}
  {
    var t := s + [a];
    forall i, j | 0 <= i < j < |t| ensures t[j] < t[i] {
      assert t[i] == s[i] && s[i] in s;
    }
  }

  /** No address in S is higher: what the tree's first yields, since its order is reversed. */
  predicate IsLargest(S: set<nat>, a: nat) {
    forall b :: b in S ==> b <= a
  }

  lemma {:induction false} LargestExists(S: set<nat>)
    requires S != {}
    ensures exists a :: a in S && IsLargest(S, a)
  {
    var x :| x in S;
    var rest := S - {x};
    if rest == {} {
      assert S == {x} && IsLargest(S, x);
    } else {
      LargestExists(rest);
      var y :| y in rest && IsLargest(rest, y);
      var a := if x < y then y else x;
      assert forall b :: b in S ==> b in rest || b == x;
      assert IsLargest(S, a);
    }
  }

  /** A chunk in use joins the free list. */
  lemma Freed(d: Disk, base: nat, used: nat, free: seq<nat>, inUse: set<nat>, a: nat)
    requires Space(d, base, used, free, inUse) && a in inUse
    ensures Space(d, base, used, free + [a], inUse - {a})
  {
    assert Members(free + [a]) == Members(free) + {a};
    assert a !in free;
  }

  lemma OldRoot(g: Gc, d: Disk, todo: set<Item>, base: nat, used: nat, free: seq<nat>,
                slot: nat, tree: Tree, tail: nat, nextId: nat, s: seq<nat>)
    requires GcOk(g) && Aside(g.d, d, GcChunks(g)) && BuildingBeside(d, base, used, free, GcChunks(g), slot, tree, tail, nextId, s)
    ensures g.slot < |d.vol.roots| && var r := d.vol.roots[g.slot];
            r in d.vol.chunks && d.vol.chunks[r].next == After(g.s, 0) && |g.s| > 0
  {
    assert g.s[0] == g.d.vol.roots[g.slot];
  }

  lemma OldNext(g: Gc, c: nat, d: Disk, todo: set<Item>, base: nat, used: nat, free: seq<nat>,
                slot: nat, tree: Tree, tail: nat, nextId: nat, s: seq<nat>)
    requires GcOk(g) && Aside(g.d, d, GcChunks(g)) && BuildingBeside(d, base, used, free, GcChunks(g), slot, tree, tail, nextId, s)
    requires 0 < c < |g.s|
    ensures g.s[c] in d.vol.chunks && d.vol.chunks[g.s[c]].next == After(g.s, c)
  {
    assert g.s[c] in Holding(g.s);
  }

  lemma OldEnd(g: Gc, c: nat)
    requires GcOk(g) && 0 < c <= |g.s|
    ensures After(g.s, c - 1) == 0 <==> c == |g.s|
  {
    if c < |g.s| {
      assert g.s[c] != 0;
    }
  }

  lemma NoneYet(g: Gc, d: Disk)
    ensures AllAside(g.d, [], GcChunks(g))
  {
  }

  lemma AsideSum(d: Disk, ms: seq<Disk>, ms1: seq<Disk>, S: set<nat>)
    requires AllAside(d, ms, S) && AllAside(d, ms1, S)
    ensures AllAside(d, ms + ms1, S)
  {
  }

  lemma AsideChain(d: Disk, d1: Disk, ms: seq<Disk>, ms1: seq<Disk>, S: set<nat>)
    requires Aside(d, d1, S) && AllAside(d, ms, S) && AllAside(d1, ms1, S)
    ensures AllAside(d, ms + ms1, S)
  {
    forall m | m in ms1 ensures Aside(d, m, S) {
      assert Aside(d1, m, S);
    }
  }

  lemma IndexOkIsShaped(d: Disk, slot: nat, tree: Tree, tail: nat, nextId: nat)
    requires IndexOk(d, slot, tree, tail, nextId)
    ensures Shaped(d.vol.chunks, tree.Keys)
  {
  }

  lemma NoOwners(d: Disk, tree: Tree)
    requires Shaped(d.vol.chunks, tree.Keys) && LiveOf(d, tree) == {}
    ensures OwnersOk(d, tree, map[])
  {
    forall item, x | Holds(d, tree, item, x) ensures false {
      LiveIsHeld(d, tree, x);
    }
  }

  lemma ScanDisk(g: Gc, d: Disk, a: nat, todo: set<Item>, base: nat, used: nat, free: seq<nat>,
                 slot: nat, tree: Tree, tail: nat, nextId: nat, s: seq<nat>)
    requires Aside(g.d, d, GcChunks(g)) && a in GcChunks(g)
    requires BuildingBeside(d, base, used, free, GcChunks(g), slot, tree, tail, nextId, s)
    ensures a in d.vol.chunks && a in g.d.vol.chunks && d.vol.chunks[a] == g.d.vol.chunks[a]
    ensures AllAside(d, [], GcChunks(g)) && Shaped(d.vol.chunks, tree.Keys)
  {
  }

  lemma OwnerKnown(g: Gc, d: Disk, tree: Tree, todo: set<Item>, owners: Owners, item: nat, x: Item)
    requires Copied(g, d, tree, todo, owners) && x in todo && Holds(g.d, g.tree, item, x)
    ensures OwnerOf(x) in owners && owners[OwnerOf(x)] == item
  {
  }

  lemma CopyDone(g: Gc, c: nat, k: nat, d: Disk, d': Disk, tree: Tree, tree': Tree, todo: set<Item>, owners: Owners, addr: nat, x: Item)
    requires GcOk(g) && Pending(g, c, k, todo) && Copied(g, d, tree, todo, owners) && x in todo
    requires Aside(g.d, d, GcChunks(g)) && Aside(d, d', GcChunks(g)) && Shaped(d.vol.chunks, tree.Keys)
    requires LiveOf(d', tree') == LiveOf(d, tree) + {x} && HeldBack(d, d', tree, tree', addr, x)
    ensures OwnerOf(x) in owners && Copied(g, d', tree', todo - {x}, owners[OwnerOf(x) := addr])
    ensures Aside(g.d, d', GcChunks(g))
  {
    OldOwners(g);
    OldLog(g);
    CopiedOne(g, d, d', tree, tree', todo, owners, addr, x);
    AsideTwice(g.d, d, d', GcChunks(g));
  }

  lemma AsideTwice(d: Disk, d': Disk, d'': Disk, S: set<nat>)
    requires Aside(d, d', S) && Aside(d', d'', S)
    ensures Aside(d, d'', S)
  {
  }
}
