/** How add_log fills and empties chunks, a hundred items at a time: the records of a log whose chunks
    were filled in order and are freed in order. */
module LogLayouts {
  import opened LogSpec
  import opened LogCrash
  import opened LogState
  import opened LogDisk
  import opened Log
  import opened LogGc
  import opened LogArena
  import opened LogFast
  import opened LogRuns
  import opened LogTimers

  /** A chunk that took `hi` items, of which the first `lo` have been freed. */
  datatype Line = Line(lo: nat, hi: nat, pre: nat)

  datatype Layout = Layout(lines: map<nat, Line>, chain: seq<nat>, id: nat, used: nat, free: seq<nat>)

  ghost predicate Spans(v: VChunk, l: Line) {
    && v.count == l.hi && v.pre == l.pre && |v.bits| == BITS && l.lo <= l.hi <= TAKES
    && forall i :: 0 <= i < BITS ==> (v.bits[i] <==> l.lo <= IndexToCount(i) < l.hi)
  }

  ghost predicate Shows(b: Book, y: Layout) {
    && |y.chain| > 0 && b.tail == y.chain[|y.chain| - 1] && b.tail in y.lines
    && b.chain == y.chain && b.nextId == y.id && b.used == y.used && b.free == y.free
    && b.tree.Keys == y.lines.Keys && forall a :: a in y.lines ==> Spans(b.tree[a], y.lines[a])
  }

  function Tail(y: Layout): nat {
    if |y.chain| > 0 then y.chain[|y.chain| - 1] else 0
  }

  // ---------------------------------------------------------------------------------------
  // One word
  // ---------------------------------------------------------------------------------------

  /** The layout when the next word is written. */
  function Roomy(base: nat, y: Layout): Layout {
    if Tail(y) in y.lines && y.lines[Tail(y)].hi < TAKES then y
    else
      var n := NextChunk(base, y.used, y.free);
      Layout(y.lines[n := Line(0, 0, Tail(y))], y.chain + [n], y.id + 1, UsedNext(y.used, y.free), FreeNext(y.free))
  }

  lemma ShowsRoom(base: nat, b: Book, y: Layout)
    requires Shows(b, y) && NextChunk(base, b.used, b.free) !in b.tree
    ensures Shows(WithRoom(base, b), Roomy(base, y)) && Tail(Roomy(base, y)) in Roomy(base, y).lines
    ensures Roomy(base, y).lines[Tail(Roomy(base, y))].hi < TAKES
  {
    TakesHundred(b.tree[b.tail].count);
    assert Spans(b.tree[b.tail], y.lines[b.tail]);
    var b', y' := WithRoom(base, b), Roomy(base, y);
    forall a | a in y'.lines ensures a in b'.tree && Spans(b'.tree[a], y'.lines[a]) {
      assert a in y.lines ==> Spans(b.tree[a], y.lines[a]);
    }
  }

  /** The bit of the next count. */
  lemma SpanMore(v: VChunk, l: Line)
    requires Spans(v, l) && l.hi < TAKES
    ensures var k := CountToIndex(l.hi); k < BITS && Spans(v.(count := v.count + 1, bits := v.bits[k := true]), l.(hi := l.hi + 1))
  {
    hide CountToIndex, IndexToCount;
    TakesHundred(l.hi);
    forall i | 0 <= i < BITS ensures IndexToCount(i) == l.hi <==> i == CountToIndex(l.hi) {
      CountIndexRoundTrip(i);
      CountIndexRoundTrip(l.hi);
    }
  }

  lemma SpanLess(v: VChunk, l: Line)
    requires Spans(v, l) && l.lo < l.hi
    ensures var k := CountToIndex(l.lo); k < ITEMS && Spans(v.(bits := v.bits[k := false]), l.(lo := l.lo + 1))
  {
    hide CountToIndex, IndexToCount;
    TakesHundred(l.lo);
    forall i | 0 <= i < BITS ensures IndexToCount(i) == l.lo <==> i == CountToIndex(l.lo) {
      CountIndexRoundTrip(i);
      CountIndexRoundTrip(l.lo);
    }
  }

  /** A chunk has no set bit if and only if all its items have been freed. */
  lemma SpanEmpty(v: VChunk, l: Line)
    requires Spans(v, l)
    ensures NoBits(v) <==> l.lo == l.hi
  {
    hide CountToIndex, IndexToCount;
    if l.lo < l.hi {
      TakesHundred(l.lo);
      CountIndexRoundTrip(l.lo);
      assert v.bits[CountToIndex(l.lo)];
    }
  }

  /** One more item in the tail. */
  function Entered(y: Layout): Layout {
    var t := Tail(y);
    if t in y.lines then y.(lines := y.lines[t := y.lines[t].(hi := y.lines[t].hi + 1)]) else y
  }

  /** One item of chunk a less. */
  function Freed1(y: Layout, a: nat): Layout {
    if a in y.lines then y.(lines := y.lines[a := y.lines[a].(lo := y.lines[a].lo + 1)]) else y
  }

  lemma ShowsEntered(b: Book, y: Layout, ptr: nat)
    requires Shows(b, y) && y.lines[Tail(y)].hi < TAKES
    ensures var b' := Noted(b, Normal, ptr);
            Shows(b', Entered(y)) && NewestAddr(b') == ItemAddr(Tail(y), CountToIndex(y.lines[Tail(y)].hi))
  {
    hide CountToIndex, IndexToCount, Spans;
    ShowsLine(b, y, b.tail);
    SpanMore(b.tree[b.tail], y.lines[b.tail]);
    NotedItem(b, Normal, ptr);
  }

  lemma ShowsLine(b: Book, y: Layout, a: nat)
    requires Shows(b, y) && a in y.lines
    ensures a in b.tree && Spans(b.tree[a], y.lines[a]) && b.tree[a].count == y.lines[a].hi && |b.tree[a].bits| == BITS
  {
  }

  lemma ShowsLeft(b: Book, y: Layout, a: nat, ptr: nat)
    requires Shows(b, y) && y.lines[Tail(y)].hi < TAKES && a in y.lines && a != Tail(y) && IsChunkAddr(a)
    requires y.lines[a].lo < y.lines[a].hi && ptr == ItemAddr(a, CountToIndex(y.lines[a].lo))
    ensures Shows(Noted(b, Free, ptr), Entered(Freed1(y, a)))
  {
    hide CountToIndex, IndexToCount, Spans, ItemAddr, ChunkOf, IndexOf;
    ShowsLine(b, y, a);
    ShowsLine(b, y, b.tail);
    var i := CountToIndex(y.lines[a].lo);
    SpanLess(b.tree[a], y.lines[a]);
    SpanMore(b.tree[b.tail], y.lines[b.tail]);
    ItemAddrRoundTrip(a, i);
    NotedFree(b, ptr, a, i);
  }

  // ---------------------------------------------------------------------------------------
  // A hundred words
  // ---------------------------------------------------------------------------------------

  /** The next word opens a chunk, or the tail is new. */
  predicate Even(y: Layout) {
    |y.chain| > 0 && Tail(y) in y.lines && (y.lines[Tail(y)].hi == TAKES || (y.lines[Tail(y)].hi == 0 && y.lines[Tail(y)].lo == 0))
  }

  /** The first j of a hundred items have been entered. */
  function FilledTo(base: nat, y: Layout, j: nat): Layout {
    if j == 0 then y
    else
      var r := Roomy(base, y);
      if Tail(r) in r.lines then r.(lines := r.lines[Tail(r) := r.lines[Tail(r)].(hi := j)]) else r
  }

  function Filled(base: nat, y: Layout): Layout {
    FilledTo(base, y, TAKES)
  }

  /** The first j items of chunk a have been freed, by as many Free items. */
  function DrainedTo(base: nat, y: Layout, a: nat, j: nat): Layout {
    Less(FilledTo(base, y, j), a, j)
  }

  function Less(y: Layout, a: nat, j: nat): Layout {
    if a in y.lines then y.(lines := y.lines[a := y.lines[a].(lo := j)]) else y
  }

  function Drained(base: nat, y: Layout, a: nat): Layout {
    DrainedTo(base, y, a, TAKES)
  }

  /** Between two chunks, both layouts look alike. */
  lemma RoomyFilled(base: nat, y: Layout, j: nat)
    requires Even(y) && j < TAKES && NextChunk(base, y.used, y.free) !in y.lines
    ensures var r := Roomy(base, FilledTo(base, y, j));
            Tail(r) == Tail(Roomy(base, y)) && Tail(r) in r.lines && r.lines[Tail(r)].hi == j && Entered(r) == FilledTo(base, y, j + 1)
  {
    var r := Roomy(base, FilledTo(base, y, j));
    assert Tail(Roomy(base, y)) in Roomy(base, y).lines;
    assert Entered(r).lines == FilledTo(base, y, j + 1).lines;
  }

  lemma FillStep(base: nat, b: Book, y: Layout, j: nat, ptr: nat)
    requires Even(y) && j < TAKES && NextChunk(base, y.used, y.free) !in y.lines
    requires Shows(b, FilledTo(base, y, j)) && NextChunk(base, b.used, b.free) !in b.tree
    ensures var b' := Logged(base, b, Normal, ptr);
            Shows(b', FilledTo(base, y, j + 1)) && NewestAddr(b') == ItemAddr(Tail(Roomy(base, y)), CountToIndex(j))
  {
    hide Shows, Roomy, FilledTo, WithRoom, Noted, NewestAddr, Entered, Even, NextChunk, CountToIndex, ItemAddr;
    ShowsRoom(base, b, FilledTo(base, y, j));
    RoomyFilled(base, y, j);
    ShowsEntered(WithRoom(base, b), Roomy(base, FilledTo(base, y, j)), ptr);
  }

  lemma RoomyDrained(base: nat, y: Layout, a: nat, j: nat)
    requires Even(y) && j < TAKES && NextChunk(base, y.used, y.free) !in y.lines
    requires a in y.lines && a != Tail(y) && y.lines[a] == Line(0, TAKES, y.lines[a].pre)
    ensures var r := Roomy(base, DrainedTo(base, y, a, j));
            && Tail(r) in r.lines && r.lines[Tail(r)].hi < TAKES && a in r.lines && a != Tail(r)
            && r.lines[a].lo == j && r.lines[a].hi == TAKES && Entered(Freed1(r, a)) == DrainedTo(base, y, a, j + 1)
  {
    hide Even, Roomy, FilledTo;
    var f := FilledTo(base, y, j);
    var r := Roomy(base, f);
    RoomyFilled(base, y, j);
    RoomyAside(base, y, j, a);
    RoomyLess(base, f, a, j);
    LessMore(r, a, j);
  }

  lemma RoomyAside(base: nat, y: Layout, j: nat, a: nat)
    requires Even(y) && a in y.lines && a != Tail(y) && NextChunk(base, y.used, y.free) !in y.lines && j < TAKES
    ensures var f := FilledTo(base, y, j);
            && a in f.lines && f.lines[a] == y.lines[a] && Tail(f) in f.lines && a != Tail(f)
            && (f.lines[Tail(f)].hi < TAKES || NextChunk(base, f.used, f.free) !in f.lines)
  {
    assert Tail(Roomy(base, y)) in Roomy(base, y).lines;
  }

  lemma RoomyLess(base: nat, y: Layout, a: nat, j: nat)
    requires a in y.lines && Tail(y) in y.lines && a != Tail(y)
    requires y.lines[Tail(y)].hi < TAKES || NextChunk(base, y.used, y.free) !in y.lines
    ensures Roomy(base, Less(y, a, j)) == Less(Roomy(base, y), a, j) && a in Roomy(base, y).lines
    ensures a != Tail(Roomy(base, y)) && Roomy(base, y).lines[a] == y.lines[a]
  {
    assert Roomy(base, Less(y, a, j)).lines == Less(Roomy(base, y), a, j).lines;
  }

  lemma LessMore(y: Layout, a: nat, j: nat)
    requires a in y.lines && a != Tail(y)
    ensures Entered(Freed1(Less(y, a, j), a)) == Less(Entered(y), a, j + 1)
  {
    assert Entered(Freed1(Less(y, a, j), a)).lines == Less(Entered(y), a, j + 1).lines;
  }

  lemma DrainStep(base: nat, b: Book, y: Layout, a: nat, j: nat, ptr: nat)
    requires Even(y) && j < TAKES && NextChunk(base, y.used, y.free) !in y.lines
    requires a in y.lines && a != Tail(y) && IsChunkAddr(a) && y.lines[a] == Line(0, TAKES, y.lines[a].pre)
    requires Shows(b, DrainedTo(base, y, a, j)) && NextChunk(base, b.used, b.free) !in b.tree
    requires ptr == ItemAddr(a, CountToIndex(j))
    ensures Shows(Logged(base, b, Free, ptr), DrainedTo(base, y, a, j + 1))
  {
    hide Shows, Roomy, DrainedTo, WithRoom, Noted, Entered, Freed1, Even, NextChunk, CountToIndex, ItemAddr;
    ShowsRoom(base, b, DrainedTo(base, y, a, j));
    RoomyDrained(base, y, a, j);
    ShowsLeft(WithRoom(base, b), Roomy(base, DrainedTo(base, y, a, j)), a, ptr);
  }

  /** The layout with one more full chunk. */
  function WithFull(base: nat, y: Layout): Layout {
    var n := NextChunk(base, y.used, y.free);
    Layout(y.lines[n := Line(0, TAKES, Tail(y))], y.chain + [n], y.id + 1, UsedNext(y.used, y.free), FreeNext(y.free))
  }

  function NextOf(base: nat, y: Layout): nat {
    NextChunk(base, y.used, y.free)
  }

  lemma FilledIs(base: nat, y: Layout)
    requires Opens(y) && |y.chain| > 0
    ensures Filled(base, y) == WithFull(base, y) && Even(y) && Opens(WithFull(base, y)) && Tail(WithFull(base, y)) == NextOf(base, y)
  {
    assert Filled(base, y).lines == WithFull(base, y).lines;
  }

  lemma DrainedIs(base: nat, y: Layout, a: nat)
    requires Opens(y) && |y.chain| > 0
    ensures Drained(base, y, a) == Less(WithFull(base, y), a, TAKES)
  {
    FilledIs(base, y);
  }

  /** The chunk taken next is not in the log. */
  lemma NextIsNew(d: Disk, base: nat, used: nat, free: seq<nat>, slot: nat, tree: Tree)
    requires Space(d, base, used, free, LogChunks(d, slot, tree))
    ensures NextChunk(base, used, free) !in tree && forall a :: a in tree ==> IsChunkAddr(a)
  {
    if free == [] {
      CarveNext(base, used);
    } else {
      assert free[0] in Members(free);
    }
    forall a | a in tree ensures IsChunkAddr(a) {
      CarvedAddr(base, used, a);
    }
  }

  /** The extents p, p + 1, ... have their items in chunk n, in order. */
  ghost predicate Located(owners: Owners, n: nat, p: nat, j: nat) {
    forall q :: p <= q < p + j ==> Extent(q) in owners && owners[Extent(q)] == ItemAddr(n, CountToIndex(q - p))
  }

  ghost predicate Absent(owners: Owners, p: nat, j: nat) {
    forall q :: p <= q < p + j ==> Extent(q) !in owners
  }

  /** The owners other than the extents from p on. */
  ghost predicate SameOwnersBut(owners: Owners, owners': Owners, p: nat, j: nat) {
    forall o: Owner :: !(o.Extent? && p <= o.ptr < p + j) ==> (o in owners <==> o in owners') && (o in owners ==> owners'[o] == owners[o])
  }

  /** Limits that a short run does not reach. */
  predicate Small(base: nat, y: Layout) {
    y.id + 1 < SIZE_LIMIT && y.used + 2 * CHUNK_SIZE < LOG_FILE_SIZE && base + y.used + 2 * CHUNK_SIZE <= PTR_LIMIT
  }

  lemma SmallStill(base: nat, y: Layout, a: nat, j: nat)
    requires Small(base, y)
    ensures FilledTo(base, y, j).id <= y.id + 1 && FilledTo(base, y, j).used <= y.used + CHUNK_SIZE
    ensures DrainedTo(base, y, a, j).id <= y.id + 1 && DrainedTo(base, y, a, j).used <= y.used + CHUNK_SIZE
  {
  }

  lemma ShowsLimits(b: Book, y: Layout)
    requires Shows(b, y)
    ensures b.nextId == y.id && b.used == y.used && b.free == y.free && b.tree.Keys == y.lines.Keys
  {
  }

  /** The next word opens a chunk. */
  predicate Opens(y: Layout) {
    Tail(y) in y.lines && y.lines[Tail(y)].hi == TAKES
  }

  /** The counters after j words of a kind, the first of which may open a chunk. */
  function Ticks(c: Counters, opens: bool, kind: Kind, j: nat): Counters {
    if j == 0 then c else Tick(Ticks(c, opens, kind, j - 1), opens && j == 1, kind)
  }

  lemma {:induction false} TicksAre(c: Counters, opens: bool, kind: Kind, j: nat)
    requires c.timer + j < WORD64 && c.chunks + 1 < WORD64
    ensures var c' := Ticks(c, opens, kind, j);
            && c'.timer == (if kind.Free? then c.timer + j else c.timer)
            && c'.chunks == (if opens && j > 0 then c.chunks + 1 else c.chunks)
            && (c.items < WORD64 ==> c'.items == if kind.Free? then c.items else (c.items + j) % WORD64)
  {
    if j > 0 {
      var c1 := Ticks(c, opens, kind, j - 1);
      TicksAre(c, opens, kind, j - 1);
      SmallMod(c1.timer + 1, c.timer + j);
      SmallMod(c1.chunks + 1, c.chunks + 1);
      ModNext(c.items, j - 1);
    }
  }

  lemma SmallMod(n: nat, m: nat)
    ensures n <= m < WORD64 ==> n % WORD64 == n
  {
  }

  lemma ModNext(n: nat, j: nat)
    ensures (n + j + 1) % WORD64 == ((n + j) % WORD64 + 1) % WORD64
  {
  }

  /** A hundred extents, from p on, are entered. */
  method Fill(arena: Arena, p: nat, c: Counters, ghost y: Layout) returns (c': Counters)
    requires arena.Valid() && Shows(arena.log.Records(), y) && Even(y) && Small(arena.file.base, y)
    requires 0 < p && p + TAKES <= PTR_LIMIT && Absent(arena.owners, p, TAKES)
    modifies arena`owners, arena.log, arena.file
    ensures arena.Valid() && arena.log == old(arena.log) && c' == Ticks(c, Opens(y), Normal, TAKES) && c'.timer == c.timer
    ensures Shows(arena.log.Records(), Filled(arena.file.base, y))
    ensures Located(arena.owners, Tail(Filled(arena.file.base, y)), p, TAKES) && SameOwnersBut(old(arena.owners), arena.owners, p, TAKES)
  {
    hide Shows, Even, IndexOk, Durable, OwnersOk, Space, LiveOf, LogChunks, PresNotBefore, FilledTo, Roomy, Logged, NewestAddr, CountToIndex, ItemAddr, NextChunk,
         AllRecover, Small, Opens, Entering;
    ghost var base, owners0 := arena.file.base, arena.owners;
    NextIsNew(arena.file.disk, base, arena.file.used, arena.file.free, arena.log.slot, arena.log.tree);
    ShowsLimits(arena.log.Records(), y);
    FillStart(base, y);
    EnteringStart(owners0, Tail(Roomy(base, y)), p);
    c' := c;
    for j := 0 to TAKES
      invariant arena.Valid() && arena.log == old(arena.log) && Shows(arena.log.Records(), FilledTo(base, y, j))
      invariant Entering(owners0, arena.owners, Tail(Roomy(base, y)), p, j)
      invariant c' == Ticks(c, Opens(y), Normal, j) && c'.timer == c.timer
    {
      ghost var b := arena.log.Records();
      NextIsNew(arena.file.disk, base, arena.file.used, arena.file.free, arena.log.slot, arena.log.tree);
      ShowsLimits(b, FilledTo(base, y, j));
      SmallStill(base, y, 0, j);
      SmallMeans(base, y);
      OpensToFill(base, b, y, j);
      FillStep(base, b, y, j, p + j);
      c' := Tick(c', NextSlot(arena.log.tree, arena.log.tail) >= ITEMS, Normal);
      ghost var owners1 := arena.owners;
      EnteringNew(owners0, owners1, Tail(Roomy(base, y)), p, j);
      ghost var ms;
      var ok;
      ok, ms := Register(arena, Normal, p + j, 2, false);
      assert ok;
      EnteringMore(owners0, owners1, arena.owners, Tail(Roomy(base, y)), p, j);
    }
    FilledTail(base, y);
    EnteringEnd(owners0, arena.owners, Tail(Roomy(base, y)), p);
  }

  lemma OpensToFill(base: nat, b: Book, y: Layout, j: nat)
    requires Even(y) && j < TAKES && Shows(b, FilledTo(base, y, j))
    ensures b.tail in b.tree && (NextSlot(b.tree, b.tail) >= ITEMS <==> Opens(y) && j == 0)
  {
    hide Spans, CountToIndex;
    ShowsLine(b, FilledTo(base, y, j), b.tail);
    TakesHundred(b.tree[b.tail].count);
  }

  lemma SmallMeans(base: nat, y: Layout)
    requires Small(base, y)
    ensures y.id + 1 < SIZE_LIMIT && y.used + 2 * CHUNK_SIZE < LOG_FILE_SIZE && base + y.used + 2 * CHUNK_SIZE <= PTR_LIMIT
  {
  }

  lemma FillStart(base: nat, y: Layout)
    ensures FilledTo(base, y, 0) == y
  {
  }

  lemma FilledTail(base: nat, y: Layout)
    ensures Tail(Filled(base, y)) == Tail(Roomy(base, y))
  {
  }

  /** The first j of a hundred extents are owners now, with their items in chunk n. */
  ghost predicate Entering(owners0: Owners, owners: Owners, n: nat, p: nat, j: nat) {
    j <= TAKES && Located(owners, n, p, j) && SameOwnersBut(owners0, owners, p, j) && Absent(owners, p + j, TAKES - j)
  }

  lemma EnteringStart(owners: Owners, n: nat, p: nat)
    requires Absent(owners, p, TAKES)
    ensures Entering(owners, owners, n, p, 0)
  {
  }

  lemma EnteringNew(owners0: Owners, owners: Owners, n: nat, p: nat, j: nat)
    requires Entering(owners0, owners, n, p, j) && j < TAKES && p + j < PTR_LIMIT
    ensures OwnerOf(Word(Normal, p + j, VersionOf(2, false))) !in owners
  {
  }

  lemma EnteringMore(owners0: Owners, owners: Owners, owners': Owners, n: nat, p: nat, j: nat)
    requires Entering(owners0, owners, n, p, j) && j < TAKES && p + j < PTR_LIMIT
    requires owners' == owners[OwnerOf(Word(Normal, p + j, VersionOf(2, false))) := ItemAddr(n, CountToIndex(j))]
    ensures Entering(owners0, owners', n, p, j + 1)
  {
    hide ItemAddr, CountToIndex;
    assert OwnerOf(Word(Normal, p + j, VersionOf(2, false))) == Extent(p + j);
  }

  lemma EnteringEnd(owners0: Owners, owners: Owners, n: nat, p: nat)
    requires Entering(owners0, owners, n, p, TAKES)
    ensures Located(owners, n, p, TAKES) && SameOwnersBut(owners0, owners, p, TAKES)
  {
  }

  /** The first j of them have left again. */
  ghost predicate Leaving(owners0: Owners, owners: Owners, n: nat, p: nat, j: nat) {
    && j <= TAKES && SameOwnersBut(owners0, owners, p, j) && Absent(owners, p, j)
    && forall q :: p + j <= q < p + TAKES ==> Extent(q) in owners && owners[Extent(q)] == ItemAddr(n, CountToIndex(q - p))
  }

  lemma LeavingStart(owners: Owners, n: nat, p: nat)
    requires Located(owners, n, p, TAKES)
    ensures Leaving(owners, owners, n, p, 0)
  {
  }

  lemma LeavingMore(owners0: Owners, owners: Owners, n: nat, p: nat, j: nat)
    requires Leaving(owners0, owners, n, p, j) && j < TAKES
    ensures Extent(p + j) in owners && owners[Extent(p + j)] == ItemAddr(n, CountToIndex(j))
    ensures Leaving(owners0, owners - {Extent(p + j)}, n, p, j + 1)
  {
    hide ItemAddr, CountToIndex;
    assert p + j - p == j;
  }

  lemma LeavingEnd(owners0: Owners, owners: Owners, n: nat, p: nat)
    requires Leaving(owners0, owners, n, p, TAKES)
    ensures Absent(owners, p, TAKES) && SameOwnersBut(owners0, owners, p, TAKES)
  {
  }

  /** A hundred extents, from p on, whose items fill chunk a, leave.  No collection is due before the last
      of them has left; whether one is due then is for EndAdd to see. */
  method Drain(arena: Arena, p: nat, c: Counters, ghost a: nat, ghost y: Layout) returns (c': Counters)
    requires arena.Valid() && Shows(arena.log.Records(), y) && Even(y) && Small(arena.file.base, y) && c.timer + TAKES <= PERIOD
    requires a in y.lines && a != Tail(y) && y.lines[a] == Line(0, TAKES, y.lines[a].pre) && Located(arena.owners, a, p, TAKES)
    modifies arena`log, arena`owners, arena.log, arena.file
    ensures arena.Valid() && arena.log == old(arena.log) && HasBit(arena.log.tree, arena.log.tail) && c' == Ticks(c, Opens(y), Free, TAKES)
    ensures c'.timer == c.timer + TAKES
    ensures Shows(arena.log.Records(), Drained(arena.file.base, y, a))
    ensures Absent(arena.owners, p, TAKES) && SameOwnersBut(old(arena.owners), arena.owners, p, TAKES)
  {
    hide Shows, Even, IndexOk, Durable, OwnersOk, Space, LiveOf, LogChunks, PresNotBefore, DrainedTo, Roomy, Logged, NewestAddr, CountToIndex, ItemAddr, NextChunk,
         AllRecover, Small, HasBit, ItemAt, Opens, Collected, Leaving;
    ghost var base, owners0 := arena.file.base, arena.owners;
    NextIsNew(arena.file.disk, base, arena.file.used, arena.file.free, arena.log.slot, arena.log.tree);
    ShowsLimits(arena.log.Records(), y);
    DrainStart(base, y, a);
    LeavingStart(owners0, a, p);
    c' := c;
    for j := 0 to TAKES
      invariant arena.Valid() && arena.log == old(arena.log) && Shows(arena.log.Records(), DrainedTo(base, y, a, j))
      invariant Leaving(owners0, arena.owners, a, p, j) && c' == Ticks(c, Opens(y), Free, j) && c'.timer == c.timer + j
      invariant j > 0 ==> HasBit(arena.log.tree, arena.log.tail)
    {
      if j > 0 {
        var ending;
        c', ending := EndAdd(arena, c');
      }
      ghost var b := arena.log.Records();
      NextIsNew(arena.file.disk, base, arena.file.used, arena.file.free, arena.log.slot, arena.log.tree);
      ShowsLimits(b, DrainedTo(base, y, a, j));
      SmallStill(base, y, a, j);
      SmallMeans(base, y);
      OpensToDrain(base, b, y, a, j);
      LeavingMore(owners0, arena.owners, a, p, j);
      DrainStep(base, b, y, a, j, arena.owners[Extent(p + j)]);
      c' := Tick(c', NextSlot(arena.log.tree, arena.log.tail) >= ITEMS, Free);
      ghost var ms;
      var ok;
      ok, ms := Release(arena, Extent(p + j), false);
      assert ok;
    }
    LeavingEnd(owners0, arena.owners, a, p);
  }

  lemma OpensToDrain(base: nat, b: Book, y: Layout, a: nat, j: nat)
    requires Even(y) && j < TAKES && Shows(b, DrainedTo(base, y, a, j)) && NextChunk(base, y.used, y.free) !in y.lines
    requires a in y.lines && a != Tail(y)
    ensures b.tail in b.tree && (NextSlot(b.tree, b.tail) >= ITEMS <==> Opens(y) && j == 0)
  {
    hide Spans, CountToIndex;
    ShowsLine(b, DrainedTo(base, y, a, j), b.tail);
    TakesHundred(b.tree[b.tail].count);
  }

  lemma DrainStart(base: nat, y: Layout, a: nat)
    requires a in y.lines ==> y.lines[a].lo == 0
    ensures DrainedTo(base, y, a, 0) == y
  {
    assert DrainedTo(base, y, a, 0).lines == y.lines;
  }

  // ---------------------------------------------------------------------------------------
  // A collection
  // ---------------------------------------------------------------------------------------

  /** The chunks whose items have all been freed. */
  function EmptyLines(y: Layout): set<nat> {
    set a | a in y.lines && y.lines[a].lo == y.lines[a].hi
  }

  lemma ShowsEmpties(b: Book, y: Layout)
    requires Shows(b, y)
    ensures Empties(b.tree) == EmptyLines(y)
  {
    hide Spans, NoBits;
    forall a | a in y.lines ensures NoBits(b.tree[a]) <==> y.lines[a].lo == y.lines[a].hi {
      SpanEmpty(b.tree[a], y.lines[a]);
    }
  }

  lemma {:induction false} DescendingIsUnique(s: seq<nat>, t: seq<nat>)
    requires IsDescending(s) && IsDescending(t) && Members(s) == Members(t)
    ensures s == t
  {
    NoMembers(s);
    NoMembers(t);
    if s != [] && t != [] {
      FirstIsLargest(s);
      FirstIsLargest(t);
      assert s[0] in Members(t) && t[0] in Members(s);
      DescendingIsUnique(s[1..], t[1..]);
    }
  }

  lemma NoMembers(s: seq<nat>)
    ensures Members(s) == {} <==> s == []
  {
    if s != [] {
      assert s[0] in Members(s);
    }
  }

  lemma FirstIsLargest(s: seq<nat>)
    requires IsDescending(s) && s != []
    ensures IsLargest(Members(s), s[0]) && IsDescending(s[1..]) && Members(s[1..]) == Members(s) - {s[0]}
  {
    var rest := s[1..];
    assert forall i :: 0 <= i < |rest| ==> rest[i] == s[i + 1];
    assert s == [s[0]] + rest;
    assert s[0] !in rest;
  }

  /** fast_GC of a log with the empty chunks `order`. */
  lemma ShowsCollected(b: Book, b': Book, y: Layout, order: seq<nat>)
    requires Shows(b, y) && Collected(b, b') && IsDescending(order) && Members(order) == EmptyLines(y) && Tail(y) !in order
    requires Kept(y.chain, EmptyLines(y), 0) != [] && Tail(y) == Tail(y.(chain := Kept(y.chain, EmptyLines(y), 0)))
    ensures Shows(b', Layout(y.lines - EmptyLines(y), Kept(y.chain, EmptyLines(y), 0), y.id, y.used, y.free + order))
  {
    hide Spans, Empties, EmptyLines, Kept;
    ShowsEmpties(b, y);
    var order' :| IsDescending(order') && Members(order') == Empties(b.tree) && b'.free == b.free + order';
    DescendingIsUnique(order, order');
    assert Tail(y) !in Members(order);
  }
}
