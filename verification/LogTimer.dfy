/** The counters by which add_log of src/log.c decides whether to collect. */
module LogTimers {
  import opened LogSpec
  import opened LogCrash
  import opened LogState
  import opened LogDisk
  import opened Log
  import opened LogArena
  import opened LogGc
  import opened LogFast
  import opened LogRuns

  const PERIOD := 10000
  const WORD64 := 0x1_0000_0000_0000_0000

  /** gc_timer, num_of_chunks and num_of_items, all unsigned words of 64 bits. */
  datatype Counters = Counters(timer: nat, chunks: nat, items: nat)

  /** The counters of a new log, with its root and its first chunk. */
  const FIRST := Counters(0, 2, 0)

  /** One word: `opens` says whether a chunk is opened for it. */
  function Tick(c: Counters, opens: bool, kind: Kind): Counters {
    Counters(if kind.Free? then (c.timer + 1) % WORD64 else c.timer,
             if opens then (c.chunks + 1) % WORD64 else c.chunks,
             if kind.Free? then c.items else (c.items + 1) % WORD64)
  }

  /** After a Free item: whether a collection is due, and which; num_of_items is not tested for 0. */
  datatype Due = Collects(collector: Collector) | DividesByZero

  function DueNow(c: Counters): Due {
    if c.timer != PERIOD then Collects(Nothing)
    else if c.items == 0 then DividesByZero
    else
      var ratio := c.chunks * ITEMS % WORD64 / c.items;
      Collects(if ratio >= 10 then Slow else if ratio >= 2 then Collector.Fast else Nothing)
  }

  /** fast_GC counts 126 items less for every chunk it collects, though a chunk takes 100: num_of_items
      wraps around. */
  function Uncounted(c: Counters, n: nat): Counters {
    c.(chunks := (c.chunks - n) % WORD64, items := (c.items - n * ITEMS) % WORD64)
  }

  /** How add_log ends. */
  datatype Ending = Ended(outcome: Outcome) | DividedByZero

  /** The end of add_log for a Free item. */
  method EndAdd(arena: Arena, c: Counters) returns (c': Counters, ending: Ending)
    requires arena.Valid() && HasBit(arena.log.tree, arena.log.tail)
    modifies arena`log, arena`owners, arena.file, arena.log
    ensures c.timer != PERIOD ==>
              && c' == c && ending == Ended(Done) && arena.Valid() && HasBit(arena.log.tree, arena.log.tail)
              && arena.log == old(arena.log) && arena.owners == old(arena.owners) && arena.log.Records() == old(arena.log.Records())
    ensures ending.DividedByZero? <==> c.timer == PERIOD && c.items == 0
    ensures ending.DividedByZero? <==> DueNow(c).DividesByZero?
    ensures c.timer == PERIOD && DueNow(c) == Collects(Nothing) ==>
              && c' == c.(timer := 0) && ending == Ended(Done) && arena.Valid()
              && arena.log == old(arena.log) && arena.owners == old(arena.owners) && arena.log.Records() == old(arena.log.Records())
    ensures DueNow(c) == Collects(Slow) ==>
              && ending.Ended? && (arena.log == old(arena.log) || fresh(arena.log)) && c'.chunks == |arena.log.tree| + 1 && c'.items == |arena.owners|
              && (ending == Ended(Done) ==> arena.Valid() && arena.log.slot == 1 - old(arena.log.slot) && NoFrees(arena.file.disk.vol.chunks, arena.log.tree))
    ensures ending == Ended(Done) ==> arena.Indexed() && arena.log.Live() == old(arena.log.Live()) && arena.owners.Keys == old(arena.owners.Keys)
    ensures DueNow(c) == Collects(Collector.Fast) ==>
              && ending == Ended(Done) && arena.log == old(arena.log) && arena.owners == old(arena.owners)
              && Collected(old(arena.log.Records()), arena.log.Records())
              && c' == Uncounted(c.(timer := 0), |old(arena.log.tree)| - |arena.log.tree|)
              && c' == Counters(0, (c.chunks - |old(arena.log.tree)| + |arena.log.tree|) % WORD64,
                                (c.items - 126 * (|old(arena.log.tree)| - |arena.log.tree|)) % WORD64)
              && (old(Safe(arena)) ==> arena.Valid()) && (!old(Safe(arena)) ==> !Found(arena))
  {
    hide IndexOk, Durable, OwnersOk, LiveOf, Space, LogChunks, PresNotBefore, FastSafe, HasBit, Collected, Unlinks, AllRecover;
    c', ending := c, Ended(Done);
    if c.timer == PERIOD {
      c' := c.(timer := 0);
      if c.items == 0 {
        return c', DividedByZero;
      }
      var ratio := c.chunks * ITEMS % WORD64 / c.items;
      ghost var ms;
      var outcome := Done;
      if ratio >= 10 {
        outcome, ms := Collect(arena, Slow);
        var timer: nat := *;
        c' := Counters(timer, |arena.log.tree| + 1, |arena.owners|);
      } else if ratio >= 2 {
        ghost var b := arena.log.Records();
        var before := |arena.log.tree|;
        outcome, ms := Collect(arena, Collector.Fast);
        FewerChunks(b, arena.log.Records());
        c' := Uncounted(c', before - |arena.log.tree|);
      }
      ending := Ended(outcome);
    }
  }

  lemma FewerChunks(b: Book, b': Book)
    requires Collected(b, b')
    ensures |b'.tree| <= |b.tree| && |b.tree| - |b'.tree| == |Empties(b.tree)|
  {
    var E := Empties(b.tree);
    assert b'.tree.Keys == b.tree.Keys - E;
    assert E <= b.tree.Keys;
    assert |b.tree| == |b.tree.Keys| && |b'.tree| == |b'.tree.Keys|;
  }
}
