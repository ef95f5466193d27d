/** Runs of the log that lead fast_GC of src/log.c to where it fails. */
module LogFastRuns {
  import opened LogSpec
  import opened LogCrash
  import opened LogState
  import opened LogDisk
  import opened Log
  import opened LogGc
  import opened LogArena
  import opened LogFast
  import opened LogFastCases
  import opened LogRuns
  import opened LogTimers
  import opened LogLayouts

  /** The chunk number k of the log file. */
  function ChunkNo(base: nat, k: nat): nat {
    base + k * CHUNK_SIZE
  }

  lemma ChunkNos(base: nat)
    ensures forall i, j :: ChunkNo(base, i) == ChunkNo(base, j) ==> i == j
    ensures forall k: nat :: ChunkNo(base, k) == NextChunk(base, k * CHUNK_SIZE, [])
  {
  }

  /** A hundred extents each in three chunks: 2, 3 and 4. */
  function ThreeFull(base: nat): Layout {
    Layout(map[ChunkNo(base, 2) := Line(0, TAKES, ChunkNo(base, 1)), ChunkNo(base, 3) := Line(0, TAKES, ChunkNo(base, 2)), ChunkNo(base, 4) := Line(0, TAKES, ChunkNo(base, 3))],
           [ChunkNo(base, 1), ChunkNo(base, 2), ChunkNo(base, 3), ChunkNo(base, 4)], 5, 5 * CHUNK_SIZE, [])
  }

  method FillThree(base: nat) returns (arena: Arena)
    requires IsChunkAddr(base) && base + 16 * CHUNK_SIZE <= PTR_LIMIT
    ensures fresh(arena) && fresh(arena.log) && fresh(arena.file) && arena.file.base == base
    ensures arena.Valid() && Shows(arena.log.Records(), ThreeFull(base))
    ensures Located(arena.owners, ChunkNo(base, 2), 1, TAKES) && Located(arena.owners, ChunkNo(base, 3), 101, TAKES)
    ensures Located(arena.owners, ChunkNo(base, 4), 201, TAKES) && Absent(arena.owners, 301, 10000)
  {
    hide Shows, Even, IndexOk, Durable, OwnersOk, Space, LiveOf, LogChunks, PresNotBefore, Filled, CountToIndex, ItemAddr, FirstBook,
         FirstLayout, OneFull, TwoFull, ThreeFull, Small, ChunkNo;
    FillTails(base);
    var log := LogCreate(base);
    arena := new Arena(log);
    ghost var y0, y1, y2 := FirstLayout(base), OneFull(base), TwoFull(base);
    ThreeLayouts(base);
    var c := Fill(arena, 1, FIRST, y0);
    c := Fill(arena, 101, c, y1);
    c := Fill(arena, 201, c, y2);
  }

  function FirstLayout(base: nat): Layout {
    Layout(map[ChunkNo(base, 2) := Line(0, 0, ChunkNo(base, 1))], [ChunkNo(base, 1), ChunkNo(base, 2)], 3, 3 * CHUNK_SIZE, [])
  }

  function OneFull(base: nat): Layout {
    Layout(map[ChunkNo(base, 2) := Line(0, TAKES, ChunkNo(base, 1))], [ChunkNo(base, 1), ChunkNo(base, 2)], 3, 3 * CHUNK_SIZE, [])
  }

  function TwoFull(base: nat): Layout {
    Layout(map[ChunkNo(base, 2) := Line(0, TAKES, ChunkNo(base, 1)), ChunkNo(base, 3) := Line(0, TAKES, ChunkNo(base, 2))],
           [ChunkNo(base, 1), ChunkNo(base, 2), ChunkNo(base, 3)], 4, 4 * CHUNK_SIZE, [])
  }

  /** From one layout to the next by a hundred entries. */
  ghost predicate FillsTo(base: nat, y: Layout, y': Layout) {
    Even(y) && Small(base, y) && Filled(base, y) == y'
  }

  /** By a hundred exits from chunk a. */
  ghost predicate DrainsTo(base: nat, y: Layout, a: nat, y': Layout) {
    && Even(y) && Small(base, y) && Drained(base, y, a) == y'
    && a in y.lines && a != Tail(y) && y.lines[a] == Line(0, TAKES, y.lines[a].pre)
  }

  lemma FirstShows(base: nat)
    ensures Shows(FirstBook(base, CHUNK_SIZE, 1), FirstLayout(base))
  {
  }

  lemma ThreeLayouts(base: nat)
    requires base + 16 * CHUNK_SIZE <= PTR_LIMIT
    ensures Shows(FirstBook(base, CHUNK_SIZE, 1), FirstLayout(base)) && FillsTo(base, FirstLayout(base), OneFull(base))
    ensures FillsTo(base, OneFull(base), TwoFull(base)) && FillsTo(base, TwoFull(base), ThreeFull(base))
  {
    hide ChunkNo, NextChunk, Shows;
    ChunkNos(base);
    FirstShows(base);
    assert Filled(base, FirstLayout(base)).lines == OneFull(base).lines;
    FillTwo(base);
    FillThird(base);
  }

  lemma FillTails(base: nat)
    ensures Tail(OneFull(base)) == ChunkNo(base, 2) && Tail(TwoFull(base)) == ChunkNo(base, 3) && Tail(ThreeFull(base)) == ChunkNo(base, 4)
  {
  }

  lemma FillTwo(base: nat)
    requires base + 16 * CHUNK_SIZE <= PTR_LIMIT
    ensures FillsTo(base, OneFull(base), TwoFull(base))
  {
    hide ChunkNo, NextChunk;
    ChunkNos(base);
    FilledIs(base, OneFull(base));
  }

  lemma FillThird(base: nat)
    requires base + 16 * CHUNK_SIZE <= PTR_LIMIT
    ensures FillsTo(base, TwoFull(base), ThreeFull(base))
  {
    hide ChunkNo, NextChunk;
    ChunkNos(base);
    FilledIs(base, TwoFull(base));
  }

  // ---------------------------------------------------------------------------------------
  // fast_GC as the layout shows it
  // ---------------------------------------------------------------------------------------

  /** Every chunk whose items have all been freed remembers the chunk before it. */
  predicate KnownLines(y: Layout) {
    forall i :: 0 < i < |y.chain| && y.chain[i] in EmptyLines(y) ==> y.lines[y.chain[i]].pre == y.chain[i - 1]
  }

  lemma SafeLines(d: Disk, slot: nat, b: Book, y: Layout)
    requires Shows(b, y) && Durable(d, slot, b.tree, b.tail, b.chain)
    ensures slot < |d.vol.roots|
    ensures FastSafe(d.vol.chunks, b.tree, d.vol.roots[slot]) <==> KnownLines(y) && NoDescent(y.chain, EmptyLines(y))
  {
    hide FastSafe, NoDescent, EmptyLines, Spans, Empties, Settled, IsChain;
    ThreadedFrom(d, slot, b.tree, b.tail, b.chain);
    WalkStarts(d.vol.chunks, b.chain, d.vol.roots[slot]);
    SafeMeans(d.vol.chunks, b.tree, b.chain);
    ShowsEmpties(b, y);
    KnownAlike(b, y);
  }

  lemma KnownAlike(b: Book, y: Layout)
    requires Shows(b, y)
    ensures KnownPre(b.tree, y.chain, EmptyLines(y)) <==> KnownLines(y)
  {
    hide Spans;
    forall a | a in y.lines ensures b.tree[a].pre == y.lines[a].pre {
      LinePre(b, y, a);
    }
  }

  lemma LinePre(b: Book, y: Layout, a: nat)
    requires Shows(b, y) && a in y.lines
    ensures a in b.tree && b.tree[a].pre == y.lines[a].pre
  {
  }

  /** What a collection of the chunks `order` leaves. */
  function Leftover(y: Layout, order: seq<nat>): Layout {
    Layout(y.lines - EmptyLines(y), Kept(y.chain, EmptyLines(y), 0), y.id, y.used, y.free + order)
  }

  /** A fast collection that is safe. */
  method CollectSafely(arena: Arena, ghost y: Layout, ghost order: seq<nat>)
    requires arena.Valid() && HasBit(arena.log.tree, arena.log.tail) && Shows(arena.log.Records(), y)
    requires KnownLines(y) && NoDescent(y.chain, EmptyLines(y))
    requires IsDescending(order) && Members(order) == EmptyLines(y) && Tail(y) !in order && Leftover(y, order).chain != []
    requires Tail(Leftover(y, order)) == Tail(y)
    modifies arena`log, arena`owners, arena.file, arena.log
    ensures arena.Valid() && arena.log == old(arena.log) && arena.owners == old(arena.owners)
    ensures Shows(arena.log.Records(), Leftover(y, order))
  {
    hide IndexOk, Durable, OwnersOk, Space, LiveOf, LogChunks, PresNotBefore, HasBit, Shows, KnownLines, NoDescent, EmptyLines, Kept,
         Collected, Unlinks, FastSafe, IsDescending, AllRecover;
    ghost var b := arena.log.Records();
    SafeLines(arena.file.disk, arena.log.slot, b, y);
    ghost var ms;
    var outcome;
    outcome, ms := Collect(arena, Collector.Fast);
    ShowsCollected(b, arena.log.Records(), y, order);
  }

  // ---------------------------------------------------------------------------------------
  // A stale predecessor
  // ---------------------------------------------------------------------------------------

  /** The extents of chunk 2 have left; their tombstones fill chunk 5. */
  function OneEmpty(base: nat): Layout {
    Layout(map[ChunkNo(base, 2) := Line(TAKES, TAKES, ChunkNo(base, 1)), ChunkNo(base, 3) := Line(0, TAKES, ChunkNo(base, 2)),
               ChunkNo(base, 4) := Line(0, TAKES, ChunkNo(base, 3)), ChunkNo(base, 5) := Line(0, TAKES, ChunkNo(base, 4))],
           [ChunkNo(base, 1), ChunkNo(base, 2), ChunkNo(base, 3), ChunkNo(base, 4), ChunkNo(base, 5)], 6, 6 * CHUNK_SIZE, [])
  }

  /** Chunk 2 has been collected; chunk 3 still remembers it. */
  function OneGone(base: nat): Layout {
    Layout(map[ChunkNo(base, 3) := Line(0, TAKES, ChunkNo(base, 2)),
               ChunkNo(base, 4) := Line(0, TAKES, ChunkNo(base, 3)), ChunkNo(base, 5) := Line(0, TAKES, ChunkNo(base, 4))],
           [ChunkNo(base, 1), ChunkNo(base, 3), ChunkNo(base, 4), ChunkNo(base, 5)], 6, 6 * CHUNK_SIZE, [ChunkNo(base, 2)])
  }

  /** The extents of chunk 3 have left; their tombstones fill chunk 2, which stands at the end now. */
  function Stale(base: nat): Layout {
    Layout(map[ChunkNo(base, 2) := Line(0, TAKES, ChunkNo(base, 5)), ChunkNo(base, 3) := Line(TAKES, TAKES, ChunkNo(base, 2)),
               ChunkNo(base, 4) := Line(0, TAKES, ChunkNo(base, 3)), ChunkNo(base, 5) := Line(0, TAKES, ChunkNo(base, 4))],
           [ChunkNo(base, 1), ChunkNo(base, 3), ChunkNo(base, 4), ChunkNo(base, 5), ChunkNo(base, 2)], 7, 6 * CHUNK_SIZE, [])
  }

  lemma OneEmptyLayout(base: nat)
    requires base + 16 * CHUNK_SIZE <= PTR_LIMIT
    ensures DrainsTo(base, ThreeFull(base), ChunkNo(base, 2), OneEmpty(base)) && EmptyLines(OneEmpty(base)) == {ChunkNo(base, 2)}
  {
    hide ChunkNo, NextChunk;
    ChunkNos(base);
    DrainedIs(base, ThreeFull(base), ChunkNo(base, 2));
    assert Drained(base, ThreeFull(base), ChunkNo(base, 2)).lines == OneEmpty(base).lines;
  }

  lemma KeptOfFive(s: seq<nat>, E: set<nat>)
    requires |s| == 5 && s[0] !in E && s[1] in E && s[2] !in E && s[3] !in E && s[4] !in E
    ensures Kept(s, E, 0) == [s[0], s[2], s[3], s[4]]
  {
    assert Kept(s, E, 5) == [] && Kept(s, E, 4) == [s[4]] && Kept(s, E, 3) == [s[3], s[4]];
    assert Kept(s, E, 2) == [s[2], s[3], s[4]] && Kept(s, E, 1) == [s[2], s[3], s[4]];
  }

  /** A safe collection of the chunks `order`. */
  ghost predicate CollectsTo(y: Layout, order: seq<nat>, y': Layout) {
    && Leftover(y, order) == y' && IsDescending(order) && Members(order) == EmptyLines(y) && Tail(y) !in order
    && KnownLines(y) && NoDescent(y.chain, EmptyLines(y)) && y'.chain != [] && Tail(y') == Tail(y)
  }

  lemma OneGoneLayout(base: nat)
    ensures CollectsTo(OneEmpty(base), [ChunkNo(base, 2)], OneGone(base))
  {
    hide ChunkNo, EmptyLines, Kept;
    ChunkNos(base);
    var y, E := OneEmpty(base), {ChunkNo(base, 2)};
    OneEmptyIs(base);
    KeptOfFive(y.chain, E);
    assert y.lines - E == OneGone(base).lines;
  }

  lemma OneEmptyIs(base: nat)
    ensures EmptyLines(OneEmpty(base)) == {ChunkNo(base, 2)}
  {
    hide ChunkNo;
    ChunkNos(base);
  }

  lemma StaleLayout(base: nat)
    requires base + 16 * CHUNK_SIZE <= PTR_LIMIT
    ensures DrainsTo(base, OneGone(base), ChunkNo(base, 3), Stale(base))
  {
    hide ChunkNo;
    ChunkNos(base);
    DrainedIs(base, OneGone(base), ChunkNo(base, 3));
    assert Drained(base, OneGone(base), ChunkNo(base, 3)).lines == Stale(base).lines;
  }

  lemma StaleIsStale(base: nat)
    ensures EmptyLines(Stale(base)) == {ChunkNo(base, 3)} && !KnownLines(Stale(base)) && Stale(base).lines[ChunkNo(base, 3)].pre == ChunkNo(base, 2)
  {
    hide ChunkNo;
    ChunkNos(base);
    var y := Stale(base);
    assert EmptyLines(y) == {ChunkNo(base, 3)};
    assert y.chain[1] in EmptyLines(y) && y.lines[y.chain[1]].pre != y.chain[0];
  }

  /** Three hundred extents, of which the first two hundred leave again, with a fast collection after each
      hundred: the second collection meets the chunk that remembers the first one's. */
  method StaleRun(base: nat) returns (arena: Arena)
    requires IsChunkAddr(base) && base + 16 * CHUNK_SIZE <= PTR_LIMIT
    ensures fresh(arena) && fresh(arena.log) && fresh(arena.file)
    ensures arena.Valid() && !Safe(arena) && HasBit(arena.log.tree, arena.log.tail)
    ensures Shows(arena.log.Records(), Stale(base)) && Located(arena.owners, ChunkNo(base, 4), 201, TAKES)
  {
    hide IndexOk, Durable, OwnersOk, Space, LiveOf, LogChunks, PresNotBefore, HasBit, Shows, KnownLines, NoDescent, EmptyLines, Leftover,
         FastSafe, IsDescending, Drained, Even, CountToIndex, ItemAddr, Kept, Small, ThreeFull, OneEmpty, OneGone, Stale, ChunkNo;
    arena := FillThree(base);
    OneEmptyLayout(base);
    var c := Drain(arena, 1, FIRST, ChunkNo(base, 2), ThreeFull(base));
    OneGoneLayout(base);
    CollectSafely(arena, OneEmpty(base), [ChunkNo(base, 2)]);
    StaleLayout(base);
    c := Drain(arena, 101, c, ChunkNo(base, 3), OneGone(base));
    StaleIsStale(base);
    SafeLines(arena.file.disk, arena.log.slot, arena.log.Records(), Stale(base));
  }

  /** The second collection is fatal: in memory the log is right, but from the file a replay recovers
      nothing, though a hundred extents are live. */
  method StaleRunFails(base: nat) returns (arena: Arena)
    requires IsChunkAddr(base) && base + 16 * CHUNK_SIZE <= PTR_LIMIT
    ensures arena.Indexed() && (forall q :: 201 <= q <= 300 ==> Extent(q) in arena.owners) && arena.log.Live() != {}
    ensures WellFormed(arena.file.disk.per) && forall live :: !Replays(arena.file.disk.per, live)
  {
    hide IndexOk, Durable, OwnersOk, Space, LiveOf, LogChunks, PresNotBefore, HasBit, Shows, FastSafe, CountToIndex, ItemAddr,
         Collected, Unlinks, WellFormed, Replays;
    arena := StaleRun(base);
    ghost var d, b := arena.file.disk, arena.log.Records();
    ghost var ms;
    var outcome;
    outcome, ms := Collect(arena, Collector.Fast);
    StaleRecoversNothing(d, arena.log.slot, b, arena.file.disk, base);
    RootIsThere(arena.file.disk, arena.log.slot, arena.log.tree, arena.log.tail, arena.log.nextId);
    OwnersAreLive(arena.file.disk, arena.log.tree, arena.owners, Extent(201));
  }

  lemma StaleRecoversNothing(d: Disk, slot: nat, b: Book, d': Disk, base: nat)
    requires IndexOk(d, slot, b.tree, b.tail, b.nextId) && Durable(d, slot, b.tree, b.tail, b.chain) && HasBit(b.tree, b.tail)
    requires Shows(b, Stale(base)) && Unlinks(d, b.tree, d') && base + 16 * CHUNK_SIZE <= PTR_LIMIT
    ensures WellFormed(d'.per) && forall live :: !Replays(d'.per, live)
  {
    hide IndexOk, Durable, HasBit, NoBits, FastNext, Links, EmptyLines, KnownLines, Spans, Replays, WellFormed, FastOk, Chained;
    var g := Fast.Fast(d, slot, b.tree, b.tail, b.nextId, b.chain);
    FastStart(g);
    StaleIsStale(base);
    ShowsEmpties(b, Stale(base));
    LinePre(b, Stale(base), ChunkNo(base, 3));
    StaleLinks(g, base, d');
    BehindRecoversNothing(g, 1, 4, {});
    forall live ensures !Replays(d'.per, live) {
      BehindRecoversNothing(g, 1, 4, live);
    }
  }

  lemma FastStart(g: Fast)
    requires IndexOk(g.d, g.slot, g.tree, g.tail, g.nextId) && Durable(g.d, g.slot, g.tree, g.tail, g.s) && HasBit(g.tree, g.tail)
    ensures FastOk(g) && Chained(g)
  {
    hide Tracked, PresCarved, Durable;
    BitNotEmpty(g.tree, g.tail);
  }

  lemma StaleLinks(g: Fast, base: nat, d': Disk)
    requires FastOk(g) && Chained(g) && g.s == Stale(base).chain && Unlinks(g.d, g.tree, d')
    requires Empties(g.tree) == {ChunkNo(base, 3)} && ChunkNo(base, 3) in g.tree && g.tree[ChunkNo(base, 3)].pre == ChunkNo(base, 2)
    ensures g.s[1] in g.d.vol.chunks && g.s[1] in g.d.per.chunks && g.s[4] in g.d.vol.chunks && g.s[4] in g.d.per.chunks
    ensures d' == FastNext(g.d, g.s[1], g.s[4])
  {
    hide FastOk, Chained, FastNext, Links, IsDescending;
    SettledEnds(g);
    assert g.s[1] in g.s && g.s[4] in g.s;
    var order :| IsDescending(order) && Members(order) == Empties(g.tree) && d' == Links(g.d, g.tree, order);
    OneMember(order, ChunkNo(base, 3));
    LinksNone(g.d, g.tree);
    LinksMore(g.d, g.tree, [], ChunkNo(base, 3));
    assert [] + [ChunkNo(base, 3)] == order;
  }

  lemma OneMember(order: seq<nat>, a: nat)
    requires IsDescending(order) && Members(order) == {a}
    ensures order == [a]
  {
    assert [a][0] == a;
    assert Members([a]) == {a};
    DescendingIsUnique(order, [a]);
  }

  // ---------------------------------------------------------------------------------------
  // Falling addresses
  // ---------------------------------------------------------------------------------------

  /** The extents of chunks 2 and 3 have left; their tombstones fill chunks 5 and 6. */
  function TwoEmpty(base: nat): Layout {
    Layout(map[ChunkNo(base, 2) := Line(TAKES, TAKES, ChunkNo(base, 1)), ChunkNo(base, 3) := Line(TAKES, TAKES, ChunkNo(base, 2)),
               ChunkNo(base, 4) := Line(0, TAKES, ChunkNo(base, 3)), ChunkNo(base, 5) := Line(0, TAKES, ChunkNo(base, 4)),
               ChunkNo(base, 6) := Line(0, TAKES, ChunkNo(base, 5))],
           [ChunkNo(base, 1), ChunkNo(base, 2), ChunkNo(base, 3), ChunkNo(base, 4), ChunkNo(base, 5), ChunkNo(base, 6)], 7, 7 * CHUNK_SIZE, [])
  }

  /** Both have been collected, the one at the higher address first. */
  function TwoGone(base: nat): Layout {
    Layout(map[ChunkNo(base, 4) := Line(0, TAKES, ChunkNo(base, 3)), ChunkNo(base, 5) := Line(0, TAKES, ChunkNo(base, 4)),
               ChunkNo(base, 6) := Line(0, TAKES, ChunkNo(base, 5))],
           [ChunkNo(base, 1), ChunkNo(base, 4), ChunkNo(base, 5), ChunkNo(base, 6)], 7, 7 * CHUNK_SIZE, [ChunkNo(base, 3), ChunkNo(base, 2)])
  }

  /** Both are in use again, with a hundred new extents each: the addresses fall. */
  function OneBack(base: nat): Layout {
    Layout(TwoGone(base).lines[ChunkNo(base, 3) := Line(0, TAKES, ChunkNo(base, 6))], TwoGone(base).chain + [ChunkNo(base, 3)],
           8, 7 * CHUNK_SIZE, [ChunkNo(base, 2)])
  }

  function TwoBack(base: nat): Layout {
    Layout(OneBack(base).lines[ChunkNo(base, 2) := Line(0, TAKES, ChunkNo(base, 3))], OneBack(base).chain + [ChunkNo(base, 2)],
           9, 7 * CHUNK_SIZE, [])
  }

  /** These extents have left too; their tombstones fill chunks 7 and 8. */
  function OneFalling(base: nat): Layout {
    Layout(TwoBack(base).lines[ChunkNo(base, 3) := Line(TAKES, TAKES, ChunkNo(base, 6))][ChunkNo(base, 7) := Line(0, TAKES, ChunkNo(base, 2))],
           TwoBack(base).chain + [ChunkNo(base, 7)], 10, 8 * CHUNK_SIZE, [])
  }

  function Falling(base: nat): Layout {
    Layout(OneFalling(base).lines[ChunkNo(base, 2) := Line(TAKES, TAKES, ChunkNo(base, 3))][ChunkNo(base, 8) := Line(0, TAKES, ChunkNo(base, 7))],
           OneFalling(base).chain + [ChunkNo(base, 8)], 11, 9 * CHUNK_SIZE, [])
  }

  lemma TwoEmptyLayout(base: nat)
    requires base + 16 * CHUNK_SIZE <= PTR_LIMIT
    ensures DrainsTo(base, OneEmpty(base), ChunkNo(base, 3), TwoEmpty(base))
  {
    hide ChunkNo, NextChunk;
    ChunkNos(base);
    DrainedIs(base, OneEmpty(base), ChunkNo(base, 3));
    assert Drained(base, OneEmpty(base), ChunkNo(base, 3)).lines == TwoEmpty(base).lines;
  }

  lemma TwoGoneLayout(base: nat)
    ensures CollectsTo(TwoEmpty(base), [ChunkNo(base, 3), ChunkNo(base, 2)], TwoGone(base))
  {
    hide EmptyLines, Kept;
    ChunkNos(base);
    var y, E, order := TwoEmpty(base), {ChunkNo(base, 2), ChunkNo(base, 3)}, [ChunkNo(base, 3), ChunkNo(base, 2)];
    TwoEmptyIs(base);
    KeptOfSix(y.chain, E);
    assert order[0] in Members(order) && order[1] in Members(order);
    assert y.lines - E == TwoGone(base).lines;
  }

  lemma TwoEmptyIs(base: nat)
    ensures EmptyLines(TwoEmpty(base)) == {ChunkNo(base, 2), ChunkNo(base, 3)}
  {
    hide ChunkNo;
    ChunkNos(base);
  }

  lemma KeptOfSix(s: seq<nat>, E: set<nat>)
    requires |s| == 6 && s[0] !in E && s[1] in E && s[2] in E && s[3] !in E && s[4] !in E && s[5] !in E
    ensures Kept(s, E, 0) == [s[0], s[3], s[4], s[5]]
  {
    assert Kept(s, E, 6) == [] && Kept(s, E, 5) == [s[5]] && Kept(s, E, 4) == [s[4], s[5]] && Kept(s, E, 3) == [s[3], s[4], s[5]];
    assert Kept(s, E, 2) == [s[3], s[4], s[5]] && Kept(s, E, 1) == [s[3], s[4], s[5]];
  }

  lemma BackLayout(base: nat)
    requires base + 16 * CHUNK_SIZE <= PTR_LIMIT
    ensures FillsTo(base, TwoGone(base), OneBack(base)) && FillsTo(base, OneBack(base), TwoBack(base))
  {
    hide ChunkNo;
    ChunkNos(base);
    FilledIs(base, TwoGone(base));
    FilledIs(base, OneBack(base));
  }

  lemma BackTails(base: nat)
    ensures Tail(OneBack(base)) == ChunkNo(base, 3) && Tail(TwoBack(base)) == ChunkNo(base, 2)
  {
  }

  lemma OneFallingLayout(base: nat)
    requires base + 16 * CHUNK_SIZE <= PTR_LIMIT
    ensures DrainsTo(base, TwoBack(base), ChunkNo(base, 3), OneFalling(base))
  {
    hide ChunkNo, NextChunk;
    ChunkNos(base);
    DrainedIs(base, TwoBack(base), ChunkNo(base, 3));
    assert Drained(base, TwoBack(base), ChunkNo(base, 3)).lines == OneFalling(base).lines;
  }

  lemma FallingLayout(base: nat)
    requires base + 16 * CHUNK_SIZE <= PTR_LIMIT
    ensures DrainsTo(base, OneFalling(base), ChunkNo(base, 2), Falling(base))
  {
    hide ChunkNo, NextChunk;
    ChunkNos(base);
    DrainedIs(base, OneFalling(base), ChunkNo(base, 2));
    assert Drained(base, OneFalling(base), ChunkNo(base, 2)).lines == Falling(base).lines;
  }

  lemma FallingEmpties(base: nat)
    ensures EmptyLines(Falling(base)) == {ChunkNo(base, 2), ChunkNo(base, 3)}
  {
    hide ChunkNo;
    ChunkNos(base);
  }

  lemma FallingFalls(base: nat)
    ensures KnownLines(Falling(base)) && !NoDescent(Falling(base).chain, EmptyLines(Falling(base)))
  {
    hide EmptyLines;
    FallingEmpties(base);
    var y, E := Falling(base), {ChunkNo(base, 2), ChunkNo(base, 3)};
    assert y.chain[4] in E && y.chain[5] in E && y.chain[4] > y.chain[5];
  }

  /** Chunks come back from the free list at falling addresses.  Every chunk to be collected remembers the
      chunk before it, and yet the collection is not safe. */
  method FallingRun(base: nat) returns (arena: Arena)
    requires IsChunkAddr(base) && base + 16 * CHUNK_SIZE <= PTR_LIMIT
    ensures fresh(arena) && fresh(arena.log) && fresh(arena.file)
    ensures arena.Valid() && !Safe(arena) && HasBit(arena.log.tree, arena.log.tail) && KnownPre(arena.log.tree, arena.log.chain, Empties(arena.log.tree))
    ensures Shows(arena.log.Records(), Falling(base)) && Located(arena.owners, ChunkNo(base, 4), 201, TAKES)
  {
    hide IndexOk, Durable, OwnersOk, Space, LiveOf, LogChunks, PresNotBefore, HasBit, Shows, KnownLines, NoDescent, EmptyLines, Leftover,
         FastSafe, IsDescending, Drained, Filled, Even, CountToIndex, ItemAddr, Kept, KnownPre, Small, ThreeFull, OneEmpty, TwoEmpty, TwoGone,
         OneBack, TwoBack, OneFalling, Falling, ChunkNo;
    arena := FillThree(base);
    OneEmptyLayout(base);
    TwoEmptyLayout(base);
    var c := Drain(arena, 1, FIRST, ChunkNo(base, 2), ThreeFull(base));
    c := Drain(arena, 101, c, ChunkNo(base, 3), OneEmpty(base));
    TwoGoneLayout(base);
    CollectSafely(arena, TwoEmpty(base), [ChunkNo(base, 3), ChunkNo(base, 2)]);
    BackLayout(base);
    c := Fill(arena, 301, c, TwoGone(base));
    c := Fill(arena, 401, c, OneBack(base));
    BackTails(base);
    OneFallingLayout(base);
    FallingLayout(base);
    ChunkNos(base);
    c := Drain(arena, 301, c, ChunkNo(base, 3), TwoBack(base));
    c := Drain(arena, 401, c, ChunkNo(base, 2), OneFalling(base));
    FallingFalls(base);
    SafeLines(arena.file.disk, arena.log.slot, arena.log.Records(), Falling(base));
    ShowsEmpties(arena.log.Records(), Falling(base));
    KnownAlike(arena.log.Records(), Falling(base));
    ShowsChain(arena.log.Records(), Falling(base));
  }

  lemma ShowsChain(b: Book, y: Layout)
    requires Shows(b, y)
    ensures b.chain == y.chain
  {
  }

  /** The collection then leaves a chain that still holds a chunk on the free list. */
  method FallingRunFails(base: nat) returns (arena: Arena)
    requires IsChunkAddr(base) && base + 16 * CHUNK_SIZE <= PTR_LIMIT
    ensures arena.Indexed() && !Found(arena) && (forall q :: 201 <= q <= 300 ==> Extent(q) in arena.owners) && arena.log.Live() != {}
  {
    hide IndexOk, Durable, OwnersOk, Space, LiveOf, LogChunks, PresNotBefore, HasBit, Shows, FastSafe, CountToIndex, ItemAddr,
         Collected, Unlinks, KnownPre;
    arena := FallingRun(base);
    ghost var ms;
    var outcome;
    outcome, ms := Collect(arena, Collector.Fast);
    RootIsThere(arena.file.disk, arena.log.slot, arena.log.tree, arena.log.tail, arena.log.nextId);
    OwnersAreLive(arena.file.disk, arena.log.tree, arena.owners, Extent(201));
  }
}
