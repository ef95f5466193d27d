/** The stores and flushes that src/log.c issues, and the log file they act on. */
module LogDisk {
  import opened LogSpec
  import opened LogCrash
  import opened LogState

  const LOG_FILE_SIZE := 10737418240

  // ---------------------------------------------------------------------------------------
  // Stores change the program's view, flushes copy it to the persistent one
  // ---------------------------------------------------------------------------------------

  function WithChunk(img: Image, a: nat, c: Chunk): Image {
    img.(chunks := img.chunks[a := c])
  }

  function StoreChunk(d: Disk, a: nat, c: Chunk): Disk {
    d.(vol := WithChunk(d.vol, a, c))
  }

  function FlushChunk(d: Disk, a: nat): Disk
    requires a in d.vol.chunks
  {
    d.(per := WithChunk(d.per, a, d.vol.chunks[a]))
  }

  function StoreNext(d: Disk, a: nat, n: nat): Disk
    requires a in d.vol.chunks
  {
    d.(vol := WithChunk(d.vol, a, d.vol.chunks[a].(next := n)))
  }

  function FlushNext(d: Disk, a: nat): Disk
    requires a in d.vol.chunks && a in d.per.chunks
  {
    d.(per := WithChunk(d.per, a, d.per.chunks[a].(next := d.vol.chunks[a].next)))
  }

  function StoreId(d: Disk, a: nat, id: nat): Disk
    requires a in d.vol.chunks
  {
    d.(vol := WithChunk(d.vol, a, d.vol.chunks[a].(id := id)))
  }

  function FlushId(d: Disk, a: nat): Disk
    requires a in d.vol.chunks && a in d.per.chunks
  {
    d.(per := WithChunk(d.per, a, d.per.chunks[a].(id := d.vol.chunks[a].id)))
  }

  /** Next pointer and id share the header. */
  function FlushHeader(d: Disk, a: nat): Disk
    requires a in d.vol.chunks && a in d.per.chunks
  {
    FlushId(FlushNext(d, a), a)
  }

  function StoreItem(d: Disk, a: nat, k: nat, x: Item): Disk
    requires a in d.vol.chunks && k < |d.vol.chunks[a].items|
  {
    d.(vol := d.vol.(chunks := PutItem(d.vol.chunks, a, k, x)))
  }

  function FlushItem(d: Disk, a: nat, k: nat): Disk
    requires a in d.vol.chunks && a in d.per.chunks && k < |d.vol.chunks[a].items| && k < |d.per.chunks[a].items|
  {
    d.(per := d.per.(chunks := PutItem(d.per.chunks, a, k, d.vol.chunks[a].items[k])))
  }

  function StoreRoot(d: Disk, slot: nat, a: nat): Disk
    requires slot < |d.vol.roots|
  {
    d.(vol := d.vol.(roots := d.vol.roots[slot := a]))
  }

  function FlushRoot(d: Disk, slot: nat): Disk
    requires slot < |d.vol.roots| && slot < |d.per.roots|
  {
    d.(per := d.per.(roots := d.per.roots[slot := d.vol.roots[slot]]))
  }

  function StoreAlt(d: Disk, alt: nat): Disk {
    d.(vol := d.vol.(alt := alt))
  }

  function FlushAlt(d: Disk): Disk {
    d.(per := d.per.(alt := d.vol.alt))
  }

  /** A flush persists what it names and nothing else. */
  lemma FlushesOnly(d: Disk, a: nat, k: nat)
    requires a in d.vol.chunks && a in d.per.chunks && k < |d.vol.chunks[a].items| && k < |d.per.chunks[a].items|
    ensures FlushNext(d, a).vol == FlushId(d, a).vol == FlushHeader(d, a).vol == FlushItem(d, a, k).vol == d.vol
    ensures FlushNext(d, a).per == d.per.(chunks := d.per.chunks[a := d.per.chunks[a].(next := d.vol.chunks[a].next)])
    ensures FlushId(d, a).per == d.per.(chunks := d.per.chunks[a := d.per.chunks[a].(id := d.vol.chunks[a].id)])
    ensures var c := FlushHeader(d, a).per.chunks[a];
            FlushHeader(d, a).per == d.per.(chunks := d.per.chunks[a := c]) && c == Chunk(d.vol.chunks[a].next, d.vol.chunks[a].id, d.per.chunks[a].items)
    ensures var c := FlushItem(d, a, k).per.chunks[a];
            && FlushItem(d, a, k).per == d.per.(chunks := d.per.chunks[a := c]) && c.next == d.per.chunks[a].next && c.id == d.per.chunks[a].id
            && c.items[k] == d.vol.chunks[a].items[k]
            && |c.items| == |d.per.chunks[a].items| && forall i :: 0 <= i < |c.items| && i != k ==> c.items[i] == d.per.chunks[a].items[i]
  {
  }

  // ---------------------------------------------------------------------------------------
  // Changes aside from a set of chunks
  // ---------------------------------------------------------------------------------------

  ghost predicate DiskOk(d: Disk) {
    WellFormed(d.vol) && WellFormed(d.per) && d.vol.chunks.Keys == d.per.chunks.Keys
  }

  /** m has the same selector and selected root as d and the same chunks S, in both views. */
  ghost predicate Aside(d: Disk, m: Disk, S: set<nat>) {
    && DiskOk(d) && DiskOk(m)
    && m.vol.alt == d.vol.alt && m.per.alt == d.per.alt
    && m.vol.roots[d.vol.alt] == d.vol.roots[d.vol.alt] && m.per.roots[d.per.alt] == d.per.roots[d.per.alt]
    && forall a :: a in S ==>
         && a in d.vol.chunks && a in m.vol.chunks
         && m.vol.chunks[a] == d.vol.chunks[a] && m.per.chunks[a] == d.per.chunks[a]
  }

  ghost predicate AllAside(d: Disk, ms: seq<Disk>, S: set<nat>) {
    forall m :: m in ms ==> Aside(d, m, S)
  }

  ghost predicate AllRecover(ms: seq<Disk>, before: set<Item>, after: set<Item>) {
    forall m :: m in ms ==> Recovers(m, before, after)
  }

  lemma AsideSettled(d: Disk, m: Disk, s: seq<nat>, S: set<nat>)
    requires Settled(d, s) && Aside(d, m, S) && forall a :: a in s ==> a in S
    ensures Settled(m, s) && LiveSet(m.per.chunks, Holding(s)) == LiveSet(d.per.chunks, Holding(s))
  {
    assert forall i :: 0 <= i < |s| ==> s[i] in s;
    LiveSame(d.per.chunks, m.per.chunks, Holding(s));
  }

  lemma AsideRecovers(d: Disk, ms: seq<Disk>, s: seq<nat>, S: set<nat>)
    requires Settled(d, s) && AllAside(d, ms, S) && forall a :: a in s ==> a in S
    ensures var live := LiveSet(d.per.chunks, Holding(s)); AllRecover(ms, live, live)
  {
    forall m | m in ms
      ensures var live := LiveSet(d.per.chunks, Holding(s)); Recovers(m, live, live)
    {
      AsideSettled(d, m, s, S);
      SettledRecovers(m, s);
    }
  }

  // ---------------------------------------------------------------------------------------
  // Durable logs
  // ---------------------------------------------------------------------------------------

  /** The log is selected, and its chunks are in both views the chain that the tree holds. */
  ghost predicate Durable(d: Disk, slot: nat, tree: Tree, tail: nat, s: seq<nat>) {
    && Settled(d, s) && d.vol.alt == slot && Threaded(d.vol.chunks, tree, tail, d.vol.roots[slot], s)
  }

  lemma DurableLive(d: Disk, slot: nat, tree: Tree, tail: nat, s: seq<nat>)
    requires Durable(d, slot, tree, tail, s) && Shaped(d.vol.chunks, tree.Keys)
    ensures LiveSet(d.per.chunks, Holding(s)) == LiveSet(d.vol.chunks, tree.Keys)
    ensures forall a :: a in tree ==> a in s
  {
    assert forall i :: 0 <= i < |s| ==> s[i] in s;
    LiveSame(d.per.chunks, d.vol.chunks, Holding(s));
  }

  /** A new chunk n, settled but outside the chain, is linked behind the tail. */
  lemma LinkDurable(d: Disk, slot: nat, tree: Tree, tail: nat, s: seq<nat>, n: nat, v: VChunk)
    requires Durable(d, slot, tree, tail, s) && n in d.vol.chunks && n !in s && IsChunkAddr(n)
    requires d.vol.chunks[n] == d.per.chunks[n] && Empty(d.vol.chunks[n]) && d.vol.chunks[n].next == 0 && v.pre == tail
    ensures tail in d.vol.chunks && tail in d.per.chunks
    ensures var d1 := StoreNext(d, tail, n); var d2 := FlushNext(d1, tail);
            var live := LiveSet(d.per.chunks, Holding(s));
            && Recovers(d1, live, live) && Recovers(d2, live, live)
            && Durable(d2, slot, tree[n := v], n, s + [n])
    ensures TruePredecessors(tree, s) ==> TruePredecessors(tree[n := v], s + [n])
    ensures PresNotBefore(tree, s) ==> PresNotBefore(tree[n := v], s + [n])
  {
    var d1 := StoreNext(d, tail, n);
    LinkInFlight(d1, d, s, n);
    LinkSettled(d, s, n);
    SettledRecovers(FlushNext(d1, tail), s + [n]);
    ThreadChunk(d.vol.chunks, tree, tail, d.vol.roots[slot], s, n, v);
  }

  lemma LinkSettled(d: Disk, s: seq<nat>, n: nat)
    requires Settled(d, s) && n in d.vol.chunks && n !in s && IsChunkAddr(n)
    requires d.vol.chunks[n] == d.per.chunks[n] && Empty(d.vol.chunks[n]) && d.vol.chunks[n].next == 0
    ensures var t := s[|s| - 1];
            && t in d.vol.chunks && t in d.per.chunks
            && var d2 := FlushNext(StoreNext(d, t, n), t);
               Settled(d2, s + [n]) && LiveSet(d2.per.chunks, Holding(s + [n])) == LiveSet(d.per.chunks, Holding(s))
  {
    var t := s[|s| - 1];
    assert t in s;
    LinkedChain(d.per.chunks, s, d.per.roots[d.per.alt], n);
    assert FlushNext(StoreNext(d, t, n), t).per.chunks == d.per.chunks[t := d.per.chunks[t].(next := n)];
  }

  /** d, except that the word of item (t, k) is w in the persistent view and x in the other. */
  function Flight(d: Disk, t: nat, k: nat, w: Item, x: Item): Disk
    requires t in d.vol.chunks && k < |d.vol.chunks[t].items| && t in d.per.chunks && k < |d.per.chunks[t].items|
  {
    Disk(d.vol.(chunks := PutItem(d.vol.chunks, t, k, x)), d.per.(chunks := PutItem(d.per.chunks, t, k, w)))
  }

  /** Stores to the word and its flush move between such disks. */
  lemma FlightSteps(d: Disk, t: nat, k: nat, w: Item, x: Item, y: Item)
    requires DiskOk(d) && t in d.vol.chunks && k < ITEMS
    ensures var f := Flight(d, t, k, w, x);
            && DiskOk(f) && StoreItem(f, t, k, y) == Flight(d, t, k, w, y) && FlushItem(f, t, k) == Flight(d, t, k, x, x)
    ensures d.per.chunks[t].items[k] == w ==> StoreItem(d, t, k, y) == Flight(d, t, k, w, y)
  {
    PutTwice(d.vol.chunks, t, k, x, y);
    PutTwice(d.per.chunks, t, k, w, x);
    PutSame(d.per.chunks, t, k);
  }

  lemma PutTwice(ch: Chunks, t: nat, k: nat, x: Item, y: Item)
    requires t in ch && k < |ch[t].items|
    ensures PutItem(PutItem(ch, t, k, x), t, k, y) == PutItem(ch, t, k, y)
  {
    assert ch[t].items[k := x][k := y] == ch[t].items[k := y];
  }

  lemma PutSame(ch: Chunks, t: nat, k: nat)
    requires t in ch && k < |ch[t].items|
    ensures PutItem(ch, t, k, ch[t].items[k]) == ch
  {
    assert ch[t].items[k := ch[t].items[k]] == ch[t].items;
  }

  /** The live set of the log on d, once the word x is at (t, k). */
  ghost function LiveWith(d: Disk, tree: Tree, t: nat, k: nat, x: Item): set<Item>
    requires Shaped(d.vol.chunks, tree.Keys) && t in tree && k < ITEMS
  {
    PutItemShaped(d.vol.chunks, tree.Keys, t, k, x);
    LiveSet(PutItem(d.vol.chunks, t, k, x), tree.Keys)
  }

  lemma FlightRecovers(d: Disk, slot: nat, tree: Tree, tail: nat, s: seq<nat>, t: nat, k: nat, w: Item, x: Item)
    requires Durable(d, slot, tree, tail, s) && Shaped(d.vol.chunks, tree.Keys) && t in tree && k < ITEMS
    ensures t in d.per.chunks && |d.per.chunks[t].items| == ITEMS
    ensures Recovers(Flight(d, t, k, w, x), LiveWith(d, tree, t, k, w), LiveWith(d, tree, t, k, x))
    ensures Durable(Flight(d, t, k, x, x), slot, tree, tail, s)
  {
    DurableLive(d, slot, tree, tail, s);
    ItemInFlight(Flight(d, t, k, w, x), d, s, t, k, w, x);
    FlightLive(d, slot, tree, tail, s, t, k, w);
    FlightLive(d, slot, tree, tail, s, t, k, x);
    FlightSettled(d, s, t, k, x);
    PutItemLog(d.vol.chunks, s, d.vol.roots[d.vol.alt], t, k, x);
  }

  lemma FlightSettled(d: Disk, s: seq<nat>, t: nat, k: nat, x: Item)
    requires Settled(d, s) && t in Holding(s) && k < ITEMS
    ensures t in d.per.chunks && t in d.vol.chunks && Settled(Flight(d, t, k, x, x), s)
  {
    PutItemLog(d.per.chunks, s, d.per.roots[d.per.alt], t, k, x);
    var f := Flight(d, t, k, x, x);
    forall a | a in s ensures a in f.per.chunks && a in f.vol.chunks && f.per.chunks[a] == f.vol.chunks[a] {
      assert d.per.chunks[a] == d.vol.chunks[a];
    }
  }

  lemma FlightLive(d: Disk, slot: nat, tree: Tree, tail: nat, s: seq<nat>, t: nat, k: nat, x: Item)
    requires Durable(d, slot, tree, tail, s) && Shaped(d.vol.chunks, tree.Keys) && t in tree && k < ITEMS
    ensures Shaped(PutItem(d.per.chunks, t, k, x), Holding(s))
    ensures LiveSet(PutItem(d.per.chunks, t, k, x), Holding(s)) == LiveWith(d, tree, t, k, x)
  {
    DurableLive(d, slot, tree, tail, s);
    PutItemShaped(d.per.chunks, tree.Keys, t, k, x);
    PutItemShaped(d.vol.chunks, tree.Keys, t, k, x);
    LiveSame(PutItem(d.per.chunks, t, k, x), PutItem(d.vol.chunks, t, k, x), tree.Keys);
  }

  lemma RecoversMore(m: Disk, live: set<Item>, before: set<Item>, after: set<Item>)
    requires Recovers(m, live, live) && (live == before || live == after)
    ensures Recovers(m, before, after)
  {
  }

  // ---------------------------------------------------------------------------------------
  // The log file
  // ---------------------------------------------------------------------------------------

  /** The addresses of the chunks carved from the file so far; chunk 0 is the file's head. */
  function Carved(base: nat, used: nat): set<nat> {
    set k | 1 <= k < used / CHUNK_SIZE :: base + k * CHUNK_SIZE
  }

  ghost predicate NoDuplicates(s: seq<nat>) {
    forall i, j :: 0 <= i < j < |s| ==> s[i] != s[j]
  }

  function Members(s: seq<nat>): set<nat> {
    set a | a in s
  }

  ghost predicate Space(d: Disk, base: nat, used: nat, free: seq<nat>, inUse: set<nat>) {
    && DiskOk(d) && IsChunkAddr(base) && used >= CHUNK_SIZE && used % CHUNK_SIZE == 0
    && d.vol.chunks.Keys == Carved(base, used)
    && NoDuplicates(free) && inUse !! Members(free) && inUse + Members(free) == Carved(base, used)
  }

  /** The file's memory and its free list.  `moments` records the disk after every store and every
      flush. */
  class LogFile {
    const base: nat
    var disk: Disk
    var used: nat
    var free: seq<nat>
    ghost var moments: seq<Disk>

    constructor (b: nat)
      requires IsChunkAddr(b)
      ensures base == b && used == CHUNK_SIZE && free == [] && moments == []
      ensures disk.vol.chunks == map[] && SpaceOk({}) && disk.vol.alt == disk.per.alt == 0
      ensures disk.vol == disk.per && disk.vol.roots == [0, 0]
    {
      base := b;
      used := CHUNK_SIZE;
      free := [];
      moments := [];
      disk := Disk(Image(0, [0, 0], map[]), Image(0, [0, 0], map[]));
    }

    /** Every chunk carved from the file is in use exactly if it is not on the free list. */
    ghost predicate SpaceOk(inUse: set<nat>)
      reads this
    {
      Space(disk, base, used, free, inUse)
    }

    /** Nothing is left to hand out. */
    ghost predicate Full()
      reads this
    {
      free == [] && used >= LOG_FILE_SIZE
    }

    method Do(d: Disk)
      modifies this`disk, this`moments
      ensures disk == d && moments == old(moments) + [d]
    {
      disk := d;
      moments := moments + [d];
    }

    /** The chunk for vlchunk_alloc: the first of the free list, or a new one unless the file is
        full. */
    method Take(ghost inUse: set<nat>) returns (n: nat, ok: bool)
      requires SpaceOk(inUse)
      modifies this`disk, this`used, this`free
      ensures ok ==> n !in inUse && IsChunkAddr(n) && SpaceOk(inUse + {n}) && Took(old(disk), disk, n)
      ensures ok ==> n == NextChunk(base, old(used), old(free)) && used == UsedNext(old(used), old(free)) && free == FreeNext(old(free))
      ensures !ok ==> disk == old(disk) && Full() && used <= old(used) + CHUNK_SIZE
      ensures ok <==> old(free) != [] || old(used) + 1024 < 10737418240
    {
      hide Space, Took, Carved;
      if |free| > 0 {
        TakeFree(disk, base, used, free, inUse);
        n, ok := free[0], true;
        free := free[1..];
      } else {
        n := base + used;
        used := used + CHUNK_SIZE;
        ok := used < LOG_FILE_SIZE;
        if ok {
          CarveSpace(disk, base, used - CHUNK_SIZE, inUse);
          disk := StoreChunk(FlushChunk(StoreChunk(disk, n, NewChunk(0)), n), n, NewChunk(0));
        }
      }
    }
  }

  lemma TakeFree(d: Disk, base: nat, used: nat, free: seq<nat>, inUse: set<nat>)
    requires Space(d, base, used, free, inUse) && |free| > 0
    ensures free[0] !in inUse && IsChunkAddr(free[0]) && Space(d, base, used, free[1..], inUse + {free[0]}) && Took(d, d, free[0])
  {
    hide NoDuplicates, Members;
    TakeFirst(inUse, free, Carved(base, used));
    CarvedAddr(base, used, free[0]);
  }

  lemma CarveSpace(d: Disk, base: nat, used: nat, inUse: set<nat>)
    requires Space(d, base, used, [], inUse)
    ensures var n := base + used; var d' := StoreChunk(FlushChunk(StoreChunk(d, n, NewChunk(0)), n), n, NewChunk(0));
            n !in inUse && IsChunkAddr(n) && Space(d', base, used + CHUNK_SIZE, [], inUse + {n}) && Took(d, d', n)
  {
    hide NoDuplicates;
    assert Members([]) == {};
    CarveNext(base, used);
  }

  /** Which chunk is taken next, and what is left. */
  function NextChunk(base: nat, used: nat, free: seq<nat>): nat {
    if free != [] then free[0] else base + used
  }

  function UsedNext(used: nat, free: seq<nat>): nat {
    if free != [] then used else used + CHUNK_SIZE
  }

  function FreeNext(free: seq<nat>): seq<nat> {
    if free != [] then free[1..] else []
  }

  /** The chunk n may be new to d'; everything else is as in d. */
  ghost predicate Took(d: Disk, d': Disk, n: nat) {
    && Aside(d, d', d.vol.chunks.Keys) && d'.vol.roots == d.vol.roots && d'.per.roots == d.per.roots
    && d'.vol.chunks.Keys == d.vol.chunks.Keys + {n}
  }

  lemma CarvedAddr(base: nat, used: nat, n: nat)
    requires IsChunkAddr(base) && n in Carved(base, used)
    ensures IsChunkAddr(n)
  {
  }

  lemma CarveNext(base: nat, used: nat)
    requires IsChunkAddr(base) && used >= CHUNK_SIZE && used % CHUNK_SIZE == 0
    ensures IsChunkAddr(base + used) && base + used !in Carved(base, used)
    ensures Carved(base, used + CHUNK_SIZE) == Carved(base, used) + {base + used}
  {
    var k := used / CHUNK_SIZE;
    assert used == k * CHUNK_SIZE && (used + CHUNK_SIZE) / CHUNK_SIZE == k + 1;
    assert base + k * CHUNK_SIZE in Carved(base, used + CHUNK_SIZE);
  }

  lemma TakeFirst(inUse: set<nat>, free: seq<nat>, all: set<nat>)
    requires |free| > 0 && NoDuplicates(free) && inUse !! Members(free) && inUse + Members(free) == all
    ensures free[0] in all && free[0] !in inUse
    ensures NoDuplicates(free[1..]) && inUse + {free[0]} !! Members(free[1..])
    ensures inUse + {free[0]} + Members(free[1..]) == all
  {
    var rest := free[1..];
    assert forall i :: 0 <= i < |rest| ==> rest[i] == free[i + 1];
    assert Members(free) == {free[0]} + Members(rest);
  }
}
