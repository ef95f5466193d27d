/** A program that enters and frees extents in turn, two hundred at a time: what the counters of src/log.c
    make of its log. */
module LogChurns {
  import opened LogSpec
  import opened LogCrash
  import opened LogState
  import opened LogDisk
  import opened Log
  import opened LogGc
  import opened LogArena
  import opened LogFast
  import opened LogRuns
  import opened LogTimers
  import opened LogLayouts
  import opened LogFastRuns

  // ---------------------------------------------------------------------------------------
  // Batches, when the tail is full
  // ---------------------------------------------------------------------------------------

  /** Two chunks are filled and freed again. */
  function Padded(base: nat, y: Layout): Layout {
    var y2 := WithFull(base, WithFull(base, y));
    var y3 := Less(WithFull(base, y2), NextOf(base, y), TAKES);
    Less(WithFull(base, y3), NextOf(base, WithFull(base, y)), TAKES)
  }

  /** One batch: chunk n is the new tail; nothing else of y changes but what is said of chunk a. */
  ghost predicate Next1(y: Layout, y': Layout, n: nat) {
    && n !in y.lines && y'.chain == y.chain + [n] && y'.lines.Keys == y.lines.Keys + {n} && Opens(y')
    && y'.lines[n] == Line(0, TAKES, Tail(y)) && y'.id == y.id + 1 && y'.used <= y.used + CHUNK_SIZE
  }

  /** A batch of entries, and one of exits from chunk a. */
  ghost predicate NextFull(y: Layout, y': Layout, n: nat) {
    Next1(y, y', n) && forall a :: a in y.lines ==> y'.lines[a] == y.lines[a]
  }

  ghost predicate NextLess(y: Layout, y': Layout, n: nat, a: nat) {
    && Next1(y, y', n) && a in y.lines && y'.lines[a] == y.lines[a].(lo := TAKES)
    && forall b :: b in y.lines && b != a ==> y'.lines[b] == y.lines[b]
  }

  /** What two hundred entries and exits leave: two empty chunks, x and y0, one behind the other. */
  ghost predicate Churned(y: Layout, y': Layout, p1: nat, p2: nat) {
    && y.chain <= y'.chain && |y'.chain| == |y.chain| + 4 && y'.chain[|y.chain|] == p1 && y'.chain[|y.chain| + 1] == p2 && p1 != p2
    && p1 !in y.lines && p2 !in y.lines && (forall a :: a in y.lines ==> a in y'.lines && y'.lines[a] == y.lines[a])
    && EmptyLines(y') == EmptyLines(y) + {p1, p2} && Opens(y') && Tail(y') !in EmptyLines(y') && y'.id == y.id + 4 && y'.used <= y.used + 4 * CHUNK_SIZE
  }

  lemma BatchesChurn(y: Layout, y1: Layout, y2: Layout, y3: Layout, y4: Layout, p1: nat, p2: nat, t1: nat, t2: nat)
    requires NextFull(y, y1, p1) && NextFull(y1, y2, p2) && NextLess(y2, y3, t1, p1) && NextLess(y3, y4, t2, p2)
    ensures Churned(y, y4, p1, p2)
  {
    var E := EmptyLines(y) + {p1, p2};
    forall a | a in y4.lines ensures a in EmptyLines(y4) <==> a in E {
      assert a in y.lines || a == p1 || a == p2 || a == t1 || a == t2;
    }
  }

  /** What a batch needs and leaves, when the tail is full. */
  lemma FullBatch(base: nat, y: Layout)
    requires Opens(y) && |y.chain| > 0 && NextOf(base, y) !in y.lines
    ensures var y' := WithFull(base, y);
            && Filled(base, y) == y' && Even(y) && Opens(y') && |y'.chain| > 0 && Tail(y') == NextOf(base, y)
            && y'.id == y.id + 1 && y'.used <= y.used + CHUNK_SIZE && NextOf(base, y) in y'.lines
            && y'.lines[NextOf(base, y)] == Line(0, TAKES, Tail(y))
            && NextFull(y, y', NextOf(base, y))
  {
    FilledIs(base, y);
  }

  lemma LessBatch(base: nat, y: Layout, a: nat)
    requires Opens(y) && |y.chain| > 0 && NextOf(base, y) !in y.lines && a in y.lines
    ensures var y' := Less(WithFull(base, y), a, TAKES);
            && Drained(base, y, a) == y' && Even(y) && Opens(y') && |y'.chain| > 0 && Tail(y') == NextOf(base, y)
            && y'.id == y.id + 1 && y'.used <= y.used + CHUNK_SIZE && NextOf(base, y) in y'.lines
            && NextLess(y, y', NextOf(base, y), a)
  {
    FilledIs(base, y);
    DrainedIs(base, y, a);
  }

  lemma NewOf(b: Book, d: Disk, base: nat, slot: nat, y: Layout)
    requires Shows(b, y) && Space(d, base, b.used, b.free, LogChunks(d, slot, b.tree))
    ensures NextOf(base, y) !in y.lines && |y.chain| > 0
  {
    NextIsNew(d, base, b.used, b.free, slot, b.tree);
  }

  /** Limits that two hundred entries and exits do not reach. */
  predicate Roomy200(base: nat, y: Layout) {
    y.id + 6 < SIZE_LIMIT && y.used + 6 * CHUNK_SIZE < LOG_FILE_SIZE && base + y.used + 6 * CHUNK_SIZE <= PTR_LIMIT
  }

  lemma SmallBatch(base: nat, y: Layout, y': Layout)
    requires Roomy200(base, y) && y'.id <= y.id + 3 && y'.used <= y.used + 3 * CHUNK_SIZE
    ensures Small(base, y')
  {
  }

  /** The counters after one batch that opens a chunk. */
  function Batch(c: Counters, kind: Kind): Counters {
    Ticks(c, true, kind, TAKES)
  }

  /** The last two chunks, p1 and p2, are full. */
  ghost predicate IsTwo(y: Layout, p1: nat, p2: nat) {
    && Opens(y) && Tail(y) == p2 != p1 && p1 in y.lines && p2 in y.lines
    && y.lines[p1] == Line(0, TAKES, y.lines[p1].pre) && y.lines[p2] == Line(0, TAKES, y.lines[p2].pre)
  }

  lemma TwoFulls(y: Layout, y1: Layout, y2: Layout, p1: nat, p2: nat)
    requires NextFull(y, y1, p1) && NextFull(y1, y2, p2)
    ensures IsTwo(y2, p1, p2)
  {
  }

  lemma SecondLeaves(y2: Layout, y3: Layout, p1: nat, p2: nat, n: nat)
    requires IsTwo(y2, p1, p2) && NextLess(y2, y3, n, p1)
    ensures p2 in y3.lines && p2 != Tail(y3) && y3.lines[p2] == Line(0, TAKES, y3.lines[p2].pre)
  {
  }

  /** Two hundred extents are entered, in two chunks. */
  method EnterTwo(arena: Arena, p: nat, c: Counters, ghost y: Layout) returns (c': Counters, ghost y2: Layout, ghost p1: nat, ghost p2: nat)
    requires arena.Valid() && Shows(arena.log.Records(), y) && Opens(y) && 0 < p && p + 2 * TAKES <= PTR_LIMIT
    requires Roomy200(arena.file.base, y) && Absent(arena.owners, p, 2 * TAKES)
    modifies arena`owners, arena.log, arena.file
    ensures arena.Valid() && arena.log == old(arena.log) && Shows(arena.log.Records(), y2)
    ensures var y1 := WithFull(arena.file.base, y);
            && y2 == WithFull(arena.file.base, y1) && p1 == NextOf(arena.file.base, y) && p2 == NextOf(arena.file.base, y1)
            && NextFull(y, y1, p1) && NextFull(y1, y2, p2)
    ensures IsTwo(y2, p1, p2) && y2.id == y.id + 2 && y2.used <= y.used + 2 * CHUNK_SIZE
    ensures Located(arena.owners, p1, p, TAKES) && Located(arena.owners, p2, p + TAKES, TAKES)
    ensures SameOwnersBut(old(arena.owners), arena.owners, p, 2 * TAKES) && c' == Batch(Batch(c, Normal), Normal)
  {
    hide Shows, Opens, IndexOk, Durable, OwnersOk, Space, LiveOf, LogChunks, PresNotBefore, Even, CountToIndex, ItemAddr, NextOf, WithFull, Small,
         Filled, NextFull, IsTwo, Ticks, Roomy200;
    ghost var base := arena.file.base;
    ghost var y1 := WithFull(base, y);
    y2, p1, p2 := WithFull(base, y1), NextOf(base, y), NextOf(base, y1);
    NewOf(arena.log.Records(), arena.file.disk, base, arena.log.slot, y);
    FullBatch(base, y);
    SmallBatch(base, y, y);
    SmallBatch(base, y, y1);
    c' := Fill(arena, p, c, y);
    NewOf(arena.log.Records(), arena.file.disk, base, arena.log.slot, y1);
    FullBatch(base, y1);
    c' := Fill(arena, p + TAKES, c', y1);
    TwoFulls(y, y1, y2, p1, p2);
  }

  /** The extents of the chunks p1 and p2 leave. */
  method LeaveTwo(arena: Arena, p: nat, c: Counters, ghost y2: Layout, ghost p1: nat, ghost p2: nat, ghost y: Layout) returns (c': Counters, ghost y4: Layout)
    requires arena.Valid() && Shows(arena.log.Records(), y2) && IsTwo(y2, p1, p2)
    requires Roomy200(arena.file.base, y) && y2.id == y.id + 2 && y2.used <= y.used + 2 * CHUNK_SIZE
    requires Located(arena.owners, p1, p, TAKES) && Located(arena.owners, p2, p + TAKES, TAKES) && c.timer + 2 * TAKES <= PERIOD
    modifies arena`log, arena`owners, arena.log, arena.file
    ensures arena.Valid() && arena.log == old(arena.log) && HasBit(arena.log.tree, arena.log.tail) && Shows(arena.log.Records(), y4)
    ensures var base := arena.file.base; var y3 := Less(WithFull(base, y2), p1, TAKES);
            && y4 == Less(WithFull(base, y3), p2, TAKES)
            && NextLess(y2, y3, NextOf(base, y2), p1) && NextLess(y3, y4, NextOf(base, y3), p2)
    ensures Absent(arena.owners, p, 2 * TAKES) && SameOwnersBut(old(arena.owners), arena.owners, p, 2 * TAKES)
    ensures c' == Batch(Batch(c, Free), Free)
  {
    hide Shows, Opens, IndexOk, Durable, OwnersOk, Space, LiveOf, LogChunks, PresNotBefore, HasBit, Even, CountToIndex, ItemAddr, NextOf, WithFull, Less, Small,
         Drained, NextLess, Ticks, Roomy200, Collected, FastSafe;
    ghost var base := arena.file.base;
    ghost var y3 := Less(WithFull(base, y2), p1, TAKES);
    y4 := Less(WithFull(base, y3), p2, TAKES);
    NewOf(arena.log.Records(), arena.file.disk, base, arena.log.slot, y2);
    LessBatch(base, y2, p1);
    SecondLeaves(y2, y3, p1, p2, NextOf(base, y2));
    SmallBatch(base, y, y2);
    SmallBatch(base, y, y3);
    c' := Drain(arena, p, c, p1, y2);
    NewOf(arena.log.Records(), arena.file.disk, base, arena.log.slot, y3);
    LessBatch(base, y3, p2);
    var ending;
    c', ending := EndAdd(arena, c');
    c' := Drain(arena, p + TAKES, c', p2, y3);
  }

  /** Two hundred extents, from p on, are entered and leave again.  What is due after the last of them is
      for EndAdd to see. */
  method Churn(arena: Arena, p: nat, c: Counters, ghost y: Layout) returns (c': Counters, ghost y': Layout)
    requires arena.Valid() && Shows(arena.log.Records(), y) && Opens(y) && 0 < p && p + 2 * TAKES <= PTR_LIMIT
    requires Roomy200(arena.file.base, y) && Absent(arena.owners, p, 2 * TAKES)
    requires Batch(Batch(c, Normal), Normal).timer + 2 * TAKES <= PERIOD
    modifies arena`log, arena`owners, arena.log, arena.file
    ensures arena.Valid() && arena.log == old(arena.log) && HasBit(arena.log.tree, arena.log.tail)
    ensures Shows(arena.log.Records(), y') && y' == Padded(arena.file.base, y)
    ensures Churned(y, y', NextOf(arena.file.base, y), NextOf(arena.file.base, WithFull(arena.file.base, y)))
    ensures Absent(arena.owners, p, 2 * TAKES) && SameOwnersBut(old(arena.owners), arena.owners, p, 2 * TAKES)
    ensures c' == Batch(Batch(Batch(Batch(c, Normal), Normal), Free), Free)
  {
    hide Shows, Opens, IndexOk, Durable, OwnersOk, Space, LiveOf, LogChunks, PresNotBefore, HasBit, CountToIndex, ItemAddr, NextOf, WithFull, Less,
         NextFull, NextLess, IsTwo, EmptyLines, Churned, Batch, Roomy200;
    ghost var base := arena.file.base;
    ghost var y1, y2, p1, p2 := WithFull(base, y), y, 0, 0;
    c', y2, p1, p2 := EnterTwo(arena, p, c, y);
    ghost var y3 := Less(WithFull(base, y2), p1, TAKES);
    c', y' := LeaveTwo(arena, p, c', y2, p1, p2, y);
    BatchesChurn(y, y1, y2, y3, y', p1, p2, NextOf(base, y2), NextOf(base, y3));
  }

  // ---------------------------------------------------------------------------------------
  // Fifty times
  // ---------------------------------------------------------------------------------------

  /** No chunk has been collected yet: the chunks stand in the order of their addresses. */
  ghost predicate Ascending(base: nat, y: Layout) {
    && |y.chain| >= 2 && y.free == [] && y.used == (|y.chain| + 1) * CHUNK_SIZE
    && (forall i :: 0 <= i < |y.chain| ==> y.chain[i] == ChunkNo(base, i + 1))
    && (forall i :: 0 < i < |y.chain| ==> y.chain[i] in y.lines && y.lines[y.chain[i]].pre == y.chain[i - 1])
  }

  lemma AscendingFull(base: nat, y: Layout)
    requires Ascending(base, y)
    ensures Ascending(base, WithFull(base, y)) && y.lines.Keys <= WithFull(base, y).lines.Keys && NextOf(base, y) in WithFull(base, y).lines
  {
    var y' := WithFull(base, y);
    forall i | 0 < i < |y'.chain| ensures y'.chain[i] in y'.lines && y'.lines[y'.chain[i]].pre == y'.chain[i - 1] {
      assert i < |y.chain| ==> y'.chain[i] == y.chain[i] && y.chain[i] != NextOf(base, y);
    }
  }

  lemma AscendingLess(base: nat, y: Layout, a: nat)
    requires Ascending(base, y)
    ensures Ascending(base, Less(y, a, TAKES)) && Less(y, a, TAKES).lines.Keys == y.lines.Keys
  {
  }

  lemma AscendingPadded(base: nat, y: Layout)
    requires Ascending(base, y)
    ensures Ascending(base, Padded(base, y))
  {
    hide Ascending, WithFull, Less, NextOf;
    var y1 := WithFull(base, y);
    var y2 := WithFull(base, y1);
    var y3 := Less(WithFull(base, y2), NextOf(base, y), TAKES);
    AscendingFull(base, y);
    AscendingFull(base, y1);
    AscendingFull(base, y2);
    AscendingLess(base, WithFull(base, y2), NextOf(base, y));
    AscendingFull(base, y3);
    AscendingLess(base, WithFull(base, y3), NextOf(base, y1));
  }

  lemma AscendingIsSafe(base: nat, y: Layout)
    requires Ascending(base, y)
    ensures KnownLines(y) && NoDescent(y.chain, EmptyLines(y))
  {
  }

  /** Two empty chunks at falling addresses, one behind the other. */
  ghost predicate FallsAt(y: Layout, i: nat) {
    i + 1 < |y.chain| && y.chain[i] in EmptyLines(y) && y.chain[i + 1] in EmptyLines(y) && y.chain[i] > y.chain[i + 1]
  }

  lemma FallsIsUnsafe(y: Layout, i: nat)
    requires FallsAt(y, i)
    ensures !NoDescent(y.chain, EmptyLines(y))
  {
  }

  lemma FallsStill(y: Layout, y': Layout, p1: nat, p2: nat, i: nat)
    requires Churned(y, y', p1, p2)
    ensures FallsAt(y, i) ==> FallsAt(y', i)
    ensures p1 > p2 ==> FallsAt(y', |y.chain|)
    ensures |EmptyLines(y')| == |EmptyLines(y)| + 2
  {
    assert EmptyLines(y') == EmptyLines(y) + {p1} + {p2};
  }

  /** The counters after k times two hundred entries and exits. */
  lemma ChurnTicks(c: Counters, k: nat)
    requires k < 50 && c.timer == 2 * TAKES * k && c.chunks + 4 < WORD64 && c.items < WORD64
    ensures var c' := Batch(Batch(Batch(Batch(c, Normal), Normal), Free), Free);
            c' == Counters(2 * TAKES * (k + 1), c.chunks + 4, (c.items + 2 * TAKES) % WORD64)
    ensures Batch(Batch(c, Normal), Normal).timer == c.timer
  {
    hide Ticks;
    var c1 := Ticks(c, true, Normal, TAKES);
    var c2 := Ticks(c1, true, Normal, TAKES);
    var c3 := Ticks(c2, true, Free, TAKES);
    TicksAre(c, true, Normal, TAKES);
    TicksAre(c1, true, Normal, TAKES);
    TicksAre(c2, true, Free, TAKES);
    TicksAre(c3, true, Free, TAKES);
  }

  /** Ten thousand extents come and go. */
  method ChurnOn(arena: Arena, c: Counters, ghost y: Layout) returns (c': Counters, ghost y': Layout)
    requires arena.Valid() && Shows(arena.log.Records(), y) && Opens(y) && c.timer == 0 && c.chunks < 1000 && c.items < WORD64
    requires y.id < 1000 && y.used < 1000 * CHUNK_SIZE && arena.file.base + 2000 * CHUNK_SIZE <= PTR_LIMIT && Absent(arena.owners, 101, 2 * TAKES)
    modifies arena`log, arena`owners, arena.log, arena.file
    ensures arena.Valid() && arena.log == old(arena.log) && HasBit(arena.log.tree, arena.log.tail)
    ensures Shows(arena.log.Records(), y') && Opens(y') && y'.id == y.id + 200 && y'.used <= y.used + 200 * CHUNK_SIZE
    ensures c' == Counters(PERIOD, c.chunks + 200, (c.items + PERIOD) % WORD64) && |EmptyLines(y')| == |EmptyLines(y)| + 100
    ensures Absent(arena.owners, 101, 2 * TAKES) && SameOwnersBut(old(arena.owners), arena.owners, 101, 2 * TAKES)
    ensures Ascending(arena.file.base, y) ==> Ascending(arena.file.base, y')
    ensures NextOf(arena.file.base, y) > NextOf(arena.file.base, WithFull(arena.file.base, y)) ==> FallsAt(y', |y.chain|)
    ensures Tail(y') !in EmptyLines(y') && |y'.chain| > 0
  {
    hide Shows, Opens, IndexOk, Durable, OwnersOk, Space, LiveOf, LogChunks, PresNotBefore, HasBit, CountToIndex, ItemAddr, NextOf, WithFull,
         EmptyLines, Churned, Batch, Collected, FastSafe, Padded, FallsAt, Ascending, DueNow, Roomy200;
    ghost var base, owners0 := arena.file.base, arena.owners;
    c', y' := c, y;
    for k := 0 to 50
      invariant arena.Valid() && arena.log == old(arena.log) && (k > 0 ==> HasBit(arena.log.tree, arena.log.tail))
      invariant Shows(arena.log.Records(), y') && Opens(y') && y'.id == y.id + 4 * k && y'.used <= y.used + 4 * k * CHUNK_SIZE
      invariant c' == Counters(2 * TAKES * k, c.chunks + 4 * k, (c.items + 2 * TAKES * k) % WORD64) && |EmptyLines(y')| == |EmptyLines(y)| + 2 * k
      invariant Absent(arena.owners, 101, 2 * TAKES) && SameOwnersBut(owners0, arena.owners, 101, 2 * TAKES)
      invariant Ascending(base, y) ==> Ascending(base, y')
      invariant k > 0 && NextOf(base, y) > NextOf(base, WithFull(base, y)) ==> FallsAt(y', |y.chain|)
      invariant k > 0 ==> Tail(y') !in EmptyLines(y') && |y'.chain| > 0
      invariant k == 0 ==> y' == y
    {
      if k > 0 {
        var ending;
        c', ending := EndAdd(arena, c');
      }
      ghost var y1 := y';
      RoomFor200(base, y, y1);
      ChurnTicks(c', k);
      ItemsSum(c.items, k);
      c', y' := Churn(arena, 101, c', y1);
      FallsStill(y1, y', NextOf(base, y1), NextOf(base, WithFull(base, y1)), |y.chain|);
      ChurnedEnds(y1, y', NextOf(base, y1), NextOf(base, WithFull(base, y1)));
      if Ascending(base, y) {
        AscendingPadded(base, y1);
      }
    }
  }

  lemma RoomFor200(base: nat, y: Layout, y': Layout)
    requires y.id < 1000 && y.used < 1000 * CHUNK_SIZE && base + 2000 * CHUNK_SIZE <= PTR_LIMIT
    requires y'.id <= y.id + 200 && y'.used <= y.used + 200 * CHUNK_SIZE
    ensures Roomy200(base, y')
  {
  }

  lemma ItemsSum(n: nat, k: nat)
    ensures ((n + 2 * TAKES * k) % WORD64 + 2 * TAKES) % WORD64 == (n + 2 * TAKES * (k + 1)) % WORD64
  {
  }

  lemma ChurnedEnds(y: Layout, y': Layout, p1: nat, p2: nat)
    requires Churned(y, y', p1, p2)
    ensures Opens(y') && Tail(y') !in EmptyLines(y') && |y'.chain| > 0 && y'.id == y.id + 4 && y'.used <= y.used + 4 * CHUNK_SIZE
  {
  }

  // ---------------------------------------------------------------------------------------
  // Two collections
  // ---------------------------------------------------------------------------------------

  /** What fast_GC leaves of the layout: at least two chunks on the free list, at falling addresses. */
  lemma SweptLayout(b: Book, b': Book, y: Layout) returns (order: seq<nat>)
    requires Shows(b, y) && Collected(b, b') && Tail(y) !in EmptyLines(y) && |EmptyLines(y)| >= 2
    ensures Shows(b', Leftover(y, order)) && Tail(Leftover(y, order)) == Tail(y) && Members(order) == EmptyLines(y)
    ensures |Leftover(y, order).chain| > 0 && |order| >= 2 && order[0] > order[1] && |b.tree| - |b'.tree| == |EmptyLines(y)|
  {
    hide Spans, Empties, EmptyLines, Kept;
    ShowsEmpties(b, y);
    FewerChunks(b, b');
    order :| IsDescending(order) && Members(order) == Empties(b.tree) && b'.free == b.free + order;
    MembersAtMost(order);
    KeptLast(y.chain, EmptyLines(y), 0);
    assert Tail(y) !in Members(order);
    ShowsCollected(b, b', y, order);
  }

  lemma {:induction false} MembersAtMost(s: seq<nat>)
    ensures |Members(s)| <= |s|
  {
    if s != [] {
      var rest, a := s[..|s| - 1], s[|s| - 1];
      MembersAtMost(rest);
      assert s == rest + [a];
      assert Members(s) == Members(rest) + {a};
    } else {
      assert Members(s) == {};
    }
  }

  /** The first collection is safe. */
  method FirstCollection(arena: Arena, c: Counters, ghost y: Layout) returns (c': Counters, ghost y': Layout)
    requires arena.Valid() && HasBit(arena.log.tree, arena.log.tail) && Shows(arena.log.Records(), y) && Ascending(arena.file.base, y)
    requires DueNow(c) == Collects(Collector.Fast) && Opens(y) && Tail(y) !in EmptyLines(y) && |EmptyLines(y)| >= 2
    modifies arena`log, arena`owners, arena.file, arena.log
    ensures arena.Valid() && arena.log == old(arena.log) && arena.owners == old(arena.owners)
    ensures Shows(arena.log.Records(), y') && Opens(y') && |y'.chain| > 0 && y'.id == y.id && y'.used == y.used
    ensures NextOf(arena.file.base, y') > NextOf(arena.file.base, WithFull(arena.file.base, y'))
    ensures c' == Uncounted(c.(timer := 0), |EmptyLines(y)|)
  {
    hide Shows, IndexOk, Durable, OwnersOk, Space, LiveOf, LogChunks, PresNotBefore, HasBit, Collected, FastSafe, Ascending, KnownLines, NoDescent,
         EmptyLines, Kept, DueNow;
    ghost var b, base := arena.log.Records(), arena.file.base;
    SafeLines(arena.file.disk, arena.log.slot, b, y);
    AscendingIsSafe(base, y);
    AscendingFree(base, y);
    var ending;
    c', ending := EndAdd(arena, c);
    ghost var order := SweptLayout(b, arena.log.Records(), y);
    y' := Leftover(y, order);
    SweptNext(base, y, order);
  }

  lemma AscendingFree(base: nat, y: Layout)
    requires Ascending(base, y)
    ensures y.free == []
  {
  }

  lemma SweptNext(base: nat, y: Layout, order: seq<nat>)
    requires y.free == [] && Members(order) == EmptyLines(y) && |order| >= 2 && order[0] > order[1] && Opens(y) && Tail(y) !in EmptyLines(y)
    requires Tail(Leftover(y, order)) == Tail(y) && |Leftover(y, order).chain| > 0
    ensures var y' := Leftover(y, order);
            && Opens(y') && |y'.chain| > 0 && NextOf(base, y') > NextOf(base, WithFull(base, y'))
  {
    hide EmptyLines, Kept;
  }

  /** A hundred extents stay; two hundred more are entered and freed, again and again.  The counters call
      for fast_GC after every ten thousand exits.  The first collection is safe.  It hands the chunks back
      in the order of falling addresses, and so the second is not: no walk along the file is the log
      afterwards. */
  method ChurnRun(base: nat) returns (arena: Arena)
    requires IsChunkAddr(base) && base + 2000 * CHUNK_SIZE <= PTR_LIMIT
    ensures fresh(arena) && arena.Indexed() && !Found(arena)
    ensures (forall q :: 1 <= q <= 100 ==> Extent(q) in arena.owners) && arena.log.Live() != {}
  {
    hide Shows, IndexOk, Durable, OwnersOk, Space, LiveOf, LogChunks, PresNotBefore, HasBit, Collected, FastSafe, Ascending, CountToIndex, ItemAddr,
         Filled, Even, Opens, EmptyLines, Ticks, NextOf, WithFull, FallsAt, KnownLines, NoDescent, DueNow, Uncounted, FirstLayout, OneFull,
         FirstBook, ChunkNo, Small;
    var log := LogCreate(base);
    arena := new Arena(log);
    ThreeLayouts(base);
    var c := Fill(arena, 1, FIRST, FirstLayout(base));
    ChurnStart(base);
    ghost var y := OneFull(base);
    c, y := ChurnOn(arena, c, y);
    FirstDue(c);
    c, y := FirstCollection(arena, c, y);
    SecondStart(c);
    c, y := ChurnOn(arena, c, y);
    SecondDue(c);
    ghost var i :| FallsAt(y, i);
    FallsIsUnsafe(y, i);
    SafeLines(arena.file.disk, arena.log.slot, arena.log.Records(), y);
    var ending;
    c, ending := EndAdd(arena, c);
    RootIsThere(arena.file.disk, arena.log.slot, arena.log.tree, arena.log.tail, arena.log.nextId);
    OwnersAreLive(arena.file.disk, arena.log.tree, arena.owners, Extent(1));
  }

  lemma ChurnStart(base: nat)
    ensures Ticks(FIRST, Opens(FirstLayout(base)), Normal, TAKES) == Counters(0, 2, 100)
    ensures Opens(OneFull(base)) && Ascending(base, OneFull(base)) && EmptyLines(OneFull(base)) == {}
    ensures OneFull(base).id == 3 && OneFull(base).used == 3 * CHUNK_SIZE
  {
    hide Ticks;
    TicksAre(FIRST, false, Normal, TAKES);
    StartAscends(base);
  }

  lemma StartAscends(base: nat)
    ensures Ascending(base, OneFull(base))
  {
    var s := OneFull(base).chain;
    assert s[0] == ChunkNo(base, 1) && s[1] == ChunkNo(base, 2);
  }

  lemma FirstDue(c: Counters)
    requires c == Counters(PERIOD, 202, 10100)
    ensures DueNow(c) == Collects(Collector.Fast)
  {
  }

  lemma SecondStart(c: Counters)
    requires c == Uncounted(Counters(0, 202, 10100), 100)
    ensures c == Counters(0, 102, WORD64 - 2500)
  {
  }

  lemma SecondDue(c: Counters)
    requires c == Counters(PERIOD, 302, (WORD64 - 2500 + PERIOD) % WORD64)
    ensures DueNow(c) == Collects(Collector.Fast)
  {
  }
}
