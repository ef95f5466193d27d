/** Recycling and coalescing of extents: extent_recycle, extent_record, extent_try_coalesce_impl and
    the dirty loop of extents_evict in src/extent.c, each run by one thread. */
module Coalescing {
  import opened PageMapSpec
  import opened PageMaps
  import opened PageClasses
  import opened ExtentSets

  // ---------------------------------------------------------------------------------------
  // The set and the map together
  // ---------------------------------------------------------------------------------------

  /** The set holds exactly the arena's extents in its state, and none of them is a slab. */
  ghost predicate Managed(m: Extents, arena: nat, st: State, lru: seq<Extent>) {
    && st != Active
    && (forall e :: e in m && m[e].arena == arena && m[e].state == st ==> e in lru)
    && (forall e :: e in lru ==> e in m && m[e].arena == arena && m[e].state == st && !m[e].slab)
  }

  ghost predicate Consistent(map': PageMap, set': ExtentSet, arena: nat)
    reads map', map'.m.Keys, set'
  {
    map'.Valid() && set'.Valid(map'.m) && Managed(map'.m, arena, set'.state, set'.lru)
  }

  /** No run of covered pages exceeds the largest class. */
  ghost predicate NoLongRun(m: Extents) {
    forall a: nat, n: nat :: AllCovered(m, a, n) ==> n <= MAX_PAGES
  }

  ghost predicate AllCovered(m: Extents, a: nat, n: nat) {
    forall p :: a <= p < a + n ==> Covered(m, p)
  }

  lemma NoLongRunKept(m: Extents, m': Extents)
    requires NoLongRun(m) && SameCover(m, m')
    ensures NoLongRun(m')
  {
    forall a: nat, n: nat | AllCovered(m', a, n) ensures n <= MAX_PAGES {
      assert AllCovered(m, a, n);
    }
  }

  lemma SizeFits(m: Extents, pm: Pages, e: Extent)
    requires MapOk(m, pm) && NoLongRun(m) && e in m
    ensures 0 < m[e].size <= MAX_PAGES
  {
    forall p | m[e].addr <= p < m[e].addr + m[e].size ensures Covered(m, p) {
      assert InRange(m[e], p);
    }
    assert AllCovered(m, m[e].addr, m[e].size);
  }

  lemma CoverSteps(m: Extents, m1: Extents, m2: Extents)
    requires SameCover(m, m1) && SameCover(m1, m2)
    ensures SameCover(m, m2)
  {
  }

  /** An extent that the arena's threads may use: no slab, and in nobody's set. */
  ghost predicate InUse(m: Extents, arena: nat, e: Extent) {
    e in m && m[e].state == Active && m[e].arena == arena && !m[e].slab
  }

  /** Nothing happens to extents that are neither x nor in the set. */
  ghost predicate OthersKept(m: Extents, m': Extents, lru: seq<Extent>, x: Extent) {
    forall e :: e in m && e != x && e !in lru ==> e in m' && m'[e] == m[e]
  }

  /** The pages of x are pages of e afterwards. */
  ghost predicate Within(m: Extents, x: Extent, m': Extents, e: Extent) {
    x in m && e in m' && m'[e].addr <= m[x].addr && m[x].addr + m[x].size <= m'[e].addr + m'[e].size
  }

  /** The extents, the map, the list of the set and its page count. */
  datatype Sys = Sys(m: Extents, pm: Pages, lru: seq<Extent>, npages: nat)

  ghost function SysOf(map': PageMap, set': ExtentSet): Sys
    reads map', set'
  {
    Sys(map'.m, map'.pm, set'.lru, set'.npages)
  }

  /** x leaves the set. */
  ghost function Unlisted(s: Sys, x: Extent): Sys {
    if x in s.m && s.m[x].size <= s.npages then
      Sys(s.m[x := s.m[x].(state := Active)], s.pm, RemoveFrom(s.lru, x), s.npages - s.m[x].size)
    else s
  }

  /** x joins the set, at the end of its list. */
  ghost function Enlisted(s: Sys, x: Extent, st: State): Sys {
    if x in s.m then Sys(s.m[x := s.m[x].(state := st)], s.pm, s.lru + [x], s.npages + s.m[x].size) else s
  }

  // ---------------------------------------------------------------------------------------
  // Looking at a neighbour
  // ---------------------------------------------------------------------------------------

  /** What extent_lock_from_addr finds: the extent a page shows, unless only inactive ones are wanted
      and the slab bit is set.  The vslab of a slab in use is never an extent. */
  function Neighbour(pm: Pages, p: int, inactiveOnly: bool): Extent? {
    if p < 0 then null else
    match Get(pm, p)
    case OfExtent(e, slabBit) => if inactiveOnly && slabBit then null else e
    case NoEntry => null
    case OfSlab(_) => null
  }

  /** extent_can_coalesce. */
  ghost predicate CanCoalesce(m: Extents, arena: nat, st: State, outer: Extent?) {
    outer != null && outer in m && m[outer].arena == arena && m[outer].state == st
  }

  /** Neither neighbouring page shows an extent that could be coalesced. */
  ghost predicate Settled(m: Extents, pm: Pages, arena: nat, st: State, e: Extent, inactiveOnly: bool) {
    && e in m
    && !CanCoalesce(m, arena, st, Neighbour(pm, m[e].addr + m[e].size, inactiveOnly))
    && !CanCoalesce(m, arena, st, Neighbour(pm, m[e].addr - 1, inactiveOnly))
  }

  lemma NextTouches(m: Extents, pm: Pages, arena: nat, e: Extent, inactiveOnly: bool)
    requires MapOk(m, pm) && InUse(m, arena, e)
    ensures var n := Neighbour(pm, m[e].addr + m[e].size, inactiveOnly); n != null ==> n in m && Adjacent(m, e, n)
  {
    hide MapOk;
    if Neighbour(pm, m[e].addr + m[e].size, inactiveOnly) != null {
      PastIsNext(m, pm, e);
    }
  }

  lemma PrevTouches(m: Extents, pm: Pages, arena: nat, e: Extent, inactiveOnly: bool)
    requires MapOk(m, pm) && InUse(m, arena, e)
    ensures var q := Neighbour(pm, m[e].addr - 1, inactiveOnly); q != null ==> q in m && Adjacent(m, q, e)
  {
    hide MapOk;
    if Neighbour(pm, m[e].addr - 1, inactiveOnly) != null {
      BeforeIsPrev(m, pm, e);
    }
  }

  // ---------------------------------------------------------------------------------------
  // One merge
  // ---------------------------------------------------------------------------------------

  /** The neighbour leaves the set and the two become one. */
  ghost function MergedWith(s: Sys, inner: Extent, outer: Extent, forward: bool): Sys {
    var s1 := Unlisted(s, outer);
    var a, b := if forward then inner else outer, if forward then outer else inner;
    if a in s1.m && b in s1.m && s1.m[a].size > 0 && s1.m[b].size > 0 then
      Sys(MergeCells(s1.m, a, b), MergePages(s1.pm, s1.m[a], s1.m[b], a), s1.lru, s1.npages)
    else s1
  }

  /** What a side of e shows. */
  ghost function Side(s: Sys, e: Extent, forward: bool, inactiveOnly: bool): Extent? {
    if e in s.m then Neighbour(s.pm, Beside(s.m[e].addr, s.m[e].size, forward), inactiveOnly) else null
  }

  /** One look to one side: the outcome, the extent that stands for e then, and whether there was a merge. */
  ghost function Sided(s: Sys, arena: nat, st: State, e: Extent, forward: bool, inactiveOnly: bool): (Sys, Extent, bool) {
    var outer := Side(s, e, forward, inactiveOnly);
    if CanCoalesce(s.m, arena, st, outer) then (MergedWith(s, e, outer, forward), if forward then e else outer, true) else (s, e, false)
  }

  /** One merge at most, forward if possible, else backward. */
  ghost function MergedOnce(s: Sys, arena: nat, st: State, e: Extent, inactiveOnly: bool): (Sys, Extent, bool) {
    var forward := Sided(s, arena, st, e, true, inactiveOnly);
    if forward.2 then forward else Sided(s, arena, st, e, false, inactiveOnly)
  }

  /** Forward and backward in turn until neither merges. */
  ghost function MergedAll(s: Sys, arena: nat, st: State, e: Extent, inactiveOnly: bool): (Sys, Extent)
    decreases |s.lru|
  {
    var (s1, e1, merged1) := Sided(s, arena, st, e, true, inactiveOnly);
    var (s2, e2, merged2) := Sided(s1, arena, st, e1, false, inactiveOnly);
    if (merged1 || merged2) && |s2.lru| < |s.lru| then MergedAll(s2, arena, st, e2, inactiveOnly) else (s2, e2)
  }

  /** One merge after the other until there is none. */
  ghost function MergedSteps(s: Sys, arena: nat, st: State, e: Extent): (Sys, Extent)
    decreases |s.lru|
  {
    var (s1, e1, merged) := MergedOnce(s, arena, st, e, true);
    if merged && |s1.lru| < |s.lru| then MergedSteps(s1, arena, st, e1) else (s1, e1)
  }

  /** What one merge or several do to the extents around x, which e stands for afterwards. */
  ghost predicate Absorbed(m: Extents, m': Extents, arena: nat, lru: seq<Extent>, x: Extent, e: Extent) {
    && SameCover(m, m') && m'.Keys <= m.Keys && OthersKept(m, m', lru, x) && InUse(m', arena, e) && Within(m, x, m', e)
    && (e == x || e in lru)
  }

  /** extent_coalesce: the neighbour leaves the set and the two become one extent. */
  method Coalesce(map': PageMap, set': ExtentSet, arena: nat, inner: Extent, outer: Extent, forward: bool)
    requires Consistent(map', set', arena) && InUse(map'.m, arena, inner) && CanCoalesce(map'.m, arena, set'.state, outer)
    requires if forward then Adjacent(map'.m, inner, outer) else Adjacent(map'.m, outer, inner)
    modifies map', set', map'.m.Keys
    ensures Consistent(map', set', arena) && |set'.lru| == |old(set'.lru)| - 1
    ensures forall x :: x in set'.lru <==> x in old(set'.lru) && x != outer
    ensures Absorbed(old(map'.m), map'.m, arena, old(set'.lru), inner, if forward then inner else outer)
    ensures SysOf(map', set') == MergedWith(old(SysOf(map', set')), inner, outer, forward)
  {
    hide Coherent, MapOk, SameCover, Absorbed, Managed, Adjacent, MergedWith, MergePages, MergeCells, RemoveFrom;
    ghost var s0 := SysOf(map', set');
    ghost var m0, lru0 := map'.m, set'.lru;
    MayLeave(m0, arena, set'.state, lru0, inner, outer);
    ghost var k := set'.Remove(outer, map'.m);
    StateDoesNotShow(m0, map'.pm, outer, Active);
    map'.SetState(outer, Active);
    ghost var m1 := map'.m;
    if forward {
      StillAdjacent(m0, m1, inner, outer, outer);
      map'.Merge(inner, outer);
    } else {
      StillAdjacent(m0, m1, outer, inner, outer);
      map'.Merge(outer, inner);
    }
    Coalesced(m0, m1, map'.m, inner, outer, forward, arena, set'.state, lru0, set'.lru);
    MergedWithIs(s0, inner, outer, forward, m1, SysOf(map', set'));
    CoherentFrame(m0, map'.m, set'.heaps, set'.bitmap, set'.lru, set'.npages);
  }

  lemma MayLeave(m: Extents, arena: nat, st: State, lru: seq<Extent>, inner: Extent, outer: Extent)
    requires Managed(m, arena, st, lru) && InUse(m, arena, inner) && CanCoalesce(m, arena, st, outer)
    ensures outer in lru && inner != outer && inner in m && outer in m && m[outer].state == st
  {
  }

  lemma MergedWithIs(s: Sys, inner: Extent, outer: Extent, forward: bool, m1: Extents, s': Sys)
    requires outer in s.m && s'.npages + s.m[outer].size == s.npages && s'.lru == RemoveFrom(s.lru, outer)
    requires m1 == s.m[outer := s.m[outer].(state := Active)]
    requires var a, b := if forward then inner else outer, if forward then outer else inner;
             && a in m1 && b in m1 && m1[a].size > 0 && m1[b].size > 0
             && s'.m == MergeCells(m1, a, b) && s'.pm == MergePages(s.pm, m1[a], m1[b], a)
    ensures s' == MergedWith(s, inner, outer, forward)
  {
    hide MergePages, MergeCells, RemoveFrom;
  }

  lemma StillAdjacent(m: Extents, m': Extents, a: Extent, b: Extent, x: Extent)
    requires Adjacent(m, a, b) && (x == a || x == b) && m' == m[x := m[x].(state := Active)]
    ensures Adjacent(m', a, b)
  {
  }

  lemma Coalesced(m0: Extents, m1: Extents, m: Extents, inner: Extent, outer: Extent, forward: bool, arena: nat, st: State,
                  lru0: seq<Extent>, lru: seq<Extent>)
    requires Managed(m0, arena, st, lru0) && InUse(m0, arena, inner) && CanCoalesce(m0, arena, st, outer)
    requires if forward then Adjacent(m0, inner, outer) else Adjacent(m0, outer, inner)
    requires m1 == m0[outer := m0[outer].(state := Active)]
    requires m == if forward then MergeCells(m1, inner, outer) else MergeCells(m1, outer, inner)
    requires SameCover(m0, m1) && SameCover(m1, m)
    requires forall e :: e in lru <==> e in lru0 && e != outer
    ensures Managed(m, arena, st, lru) && Absorbed(m0, m, arena, lru0, inner, if forward then inner else outer)
    ensures forall e :: e in lru ==> e in m && m[e].size == m0[e].size
  {
    hide SameCover;
    CoverSteps(m0, m1, m);
  }

  lemma AbsorbedSteps(m0: Extents, m1: Extents, m2: Extents, arena: nat, lru0: seq<Extent>, lru1: seq<Extent>, x: Extent, y: Extent, z: Extent)
    requires Absorbed(m0, m1, arena, lru0, x, y) && Absorbed(m1, m2, arena, lru1, y, z)
    requires forall e :: e in lru1 ==> e in lru0
    ensures Absorbed(m0, m2, arena, lru0, x, z)
  {
    hide SameCover, InUse;
    CoverSteps(m0, m1, m2);
  }

  lemma AbsorbedNothing(m: Extents, arena: nat, lru: seq<Extent>, x: Extent)
    requires InUse(m, arena, x)
    ensures Absorbed(m, m, arena, lru, x, x)
  {
  }

  lemma AbsorbedMeans(m: Extents, m': Extents, arena: nat, lru: seq<Extent>, x: Extent, e: Extent)
    requires Absorbed(m, m', arena, lru, x, e)
    ensures InUse(m', arena, e) && m'.Keys <= m.Keys && SameCover(m, m')
  {
  }

  // ---------------------------------------------------------------------------------------
  // Merging until nothing is left to merge
  // ---------------------------------------------------------------------------------------

  function Beside(addr: nat, size: nat, forward: bool): int {
    if forward then addr + size else addr - 1
  }

  /** One of the two halves of the loop in extent_try_coalesce_impl. */
  method TrySide(map': PageMap, set': ExtentSet, arena: nat, extent: Extent, forward: bool, inactiveOnly: bool) returns (e: Extent, merged: bool)
    requires Consistent(map', set', arena) && InUse(map'.m, arena, extent)
    modifies map', set', map'.m.Keys
    ensures Consistent(map', set', arena) && Absorbed(old(map'.m), map'.m, arena, old(set'.lru), extent, e)
    ensures InUse(map'.m, arena, e) && map'.m.Keys <= old(map'.m.Keys)
    ensures forall x :: x in set'.lru ==> x in old(set'.lru)
    ensures merged ==> |set'.lru| == |old(set'.lru)| - 1
    ensures !merged ==> e == extent && map'.m == old(map'.m) && map'.pm == old(map'.pm) && set'.lru == old(set'.lru)
    ensures !merged ==> set'.npages == old(set'.npages) && e in map'.m
    ensures !merged ==> !CanCoalesce(map'.m, arena, set'.state,
                           Neighbour(map'.pm, Beside(map'.m[e].addr, map'.m[e].size, forward), inactiveOnly))
    ensures (SysOf(map', set'), e, merged) == Sided(old(SysOf(map', set')), arena, set'.state, extent, forward, inactiveOnly)
  {
    hide Coherent, MapOk, SameCover, Absorbed, Managed, Adjacent, InUse, MergedWith;
    e, merged := extent, false;
    AbsorbedNothing(map'.m, arena, set'.lru, e);
    SlabFree(map'.m, arena, e);
    NextTouches(map'.m, map'.pm, arena, e, inactiveOnly);
    PrevTouches(map'.m, map'.pm, arena, e, inactiveOnly);
    ghost var m0, lru0 := map'.m, set'.lru;
    var outer := Neighbour(map'.pm, Beside(e.addr, e.size, forward), inactiveOnly);
    if outer != null && outer.arena == arena && outer.state == set'.state {
      Coalesce(map', set', arena, e, outer, forward);
      e, merged := if forward then e else outer, true;
      AbsorbedMeans(m0, map'.m, arena, lru0, extent, e);
    }
  }

  /** extent_try_coalesce_impl.  With delayed coalescing it returns after the first merge. */
  method TryCoalesce(map': PageMap, set': ExtentSet, arena: nat, extent: Extent, inactiveOnly: bool) returns (e: Extent, coalesced: bool)
    requires Consistent(map', set', arena) && InUse(map'.m, arena, extent)
    modifies map', set', map'.m.Keys
    ensures Consistent(map', set', arena) && Absorbed(old(map'.m), map'.m, arena, old(set'.lru), extent, e)
    ensures forall x :: x in set'.lru ==> x in old(set'.lru)
    ensures !coalesced ==> Settled(map'.m, map'.pm, arena, set'.state, e, inactiveOnly)
    ensures set'.delayCoalesce ==> |set'.lru| == |old(set'.lru)| - if coalesced then 1 else 0
    ensures set'.delayCoalesce && !coalesced ==> map'.m == old(map'.m) && set'.npages == old(set'.npages) && e == extent
    ensures !set'.delayCoalesce ==> !coalesced
    ensures set'.delayCoalesce ==>
              (SysOf(map', set'), e, coalesced) == MergedOnce(old(SysOf(map', set')), arena, set'.state, extent, inactiveOnly)
    ensures !set'.delayCoalesce ==>
              (SysOf(map', set'), e) == MergedAll(old(SysOf(map', set')), arena, set'.state, extent, inactiveOnly)
  {
    hide Consistent, SameCover, Absorbed, InUse, Neighbour, CanCoalesce, Sided, MergedAll, MergedOnce;
    ghost var s0 := SysOf(map', set');
    e, coalesced := extent, false;
    var again := true;
    AbsorbedNothing(map'.m, arena, set'.lru, e);
    while again
      invariant Consistent(map', set', arena) && Absorbed(old(map'.m), map'.m, arena, old(set'.lru), extent, e)
      invariant InUse(map'.m, arena, e) && map'.m.Keys <= old(map'.m.Keys)
      invariant forall x :: x in set'.lru ==> x in old(set'.lru)
      invariant !again ==> Settled(map'.m, map'.pm, arena, set'.state, e, inactiveOnly)
      invariant set'.delayCoalesce ==> SysOf(map', set') == s0 && e == extent
      invariant set'.delayCoalesce && !again ==> (s0, extent, false) == MergedOnce(s0, arena, set'.state, extent, inactiveOnly)
      invariant !set'.delayCoalesce ==>
                  MergedAll(s0, arena, set'.state, extent, inactiveOnly)
                  == if again then MergedAll(SysOf(map', set'), arena, set'.state, e, inactiveOnly) else (SysOf(map', set'), e)
      decreases |set'.lru|, again
    {
      again := false;
      ghost var m0, lru0, e0, sys0 := map'.m, set'.lru, e, SysOf(map', set');
      UnfoldMerges(sys0, arena, set'.state, e0, inactiveOnly);
      var merged;
      e, merged := TrySide(map', set', arena, e, true, inactiveOnly);
      AbsorbedSteps(old(map'.m), m0, map'.m, arena, old(set'.lru), lru0, extent, e0, e);
      if merged {
        if set'.delayCoalesce {
          coalesced := true;
          return;
        }
        again := true;
      }
      ghost var m1, lru1, e1 := map'.m, set'.lru, e;
      e, merged := TrySide(map', set', arena, e, false, inactiveOnly);
      AbsorbedSteps(old(map'.m), m1, map'.m, arena, old(set'.lru), lru1, extent, e1, e);
      if merged {
        if set'.delayCoalesce {
          coalesced := true;
          return;
        }
        again := true;
      }
    }
  }

  lemma UnfoldMerges(s: Sys, arena: nat, st: State, e: Extent, inactiveOnly: bool)
    ensures var forward := Sided(s, arena, st, e, true, inactiveOnly);
            && (MergedOnce(s, arena, st, e, inactiveOnly) == if forward.2 then forward else Sided(s, arena, st, e, false, inactiveOnly))
            && var backward := Sided(forward.0, arena, st, forward.1, false, inactiveOnly);
               MergedAll(s, arena, st, e, inactiveOnly)
               == if (forward.2 || backward.2) && |backward.0.lru| < |s.lru| then MergedAll(backward.0, arena, st, backward.1, inactiveOnly)
                  else (backward.0, backward.1)
  {
    hide Sided;
  }

  lemma UnfoldSteps(s: Sys, arena: nat, st: State, e: Extent)
    ensures var (s1, e1, merged) := MergedOnce(s, arena, st, e, true);
            MergedSteps(s, arena, st, e) == if merged && |s1.lru| < |s.lru| then MergedSteps(s1, arena, st, e1) else (s1, e1)
  {
    hide MergedOnce;
  }

  lemma SlabFree(m: Extents, arena: nat, e: Extent)
    requires InUse(m, arena, e)
    ensures e in m && !m[e].slab
  {
  }

  // ---------------------------------------------------------------------------------------
  // What the slab bit hides
  // ---------------------------------------------------------------------------------------

  /** Of two adjacent extents in the set's state, a look for inactive extents from the one behind finds the
      one ahead exactly if the slab bit of its last page is clear. */
  lemma SlabBitHides(m: Extents, pm: Pages, arena: nat, st: State, x: Extent, y: Extent)
    requires MapOk(m, pm) && Adjacent(m, x, y) && m[x].arena == arena && m[x].state == st
    ensures CanCoalesce(m, arena, st, Neighbour(pm, m[y].addr - 1, true)) <==> Get(pm, m[y].addr - 1) == OfExtent(x, false)
    ensures CanCoalesce(m, arena, st, Neighbour(pm, m[y].addr - 1, false))
  {
    assert m[x].size > 0 && Shows(x, m[x], pm);
    assert InRange(m[x], m[y].addr - 1) && ShowsAt(x, m[x], pm, m[y].addr - 1);
  }

  /** Two adjacent dirty extents of one arena that delayed coalescing leaves apart: x, on page 1, has been
      a slab and shows itself with the slab bit; y is on page 2. */
  lemma FreedSlabStaysApart(x: Extent, y: Extent) returns (m: Extents, pm: Pages)
    requires x != y
    ensures MapOk(m, pm) && Adjacent(m, x, y) && m[x].arena == m[y].arena == 0 && m[x].state == m[y].state == Dirty
    ensures Settled(m, pm, 0, Dirty, y, true)
    ensures !Settled(m, pm, 0, Dirty, y, false)
  {
    m := map[x := Cell(1, 1, Dirty, 0, false, 0, MAX_PSZ_IDX), y := Cell(2, 1, Dirty, 0, false, 0, MAX_PSZ_IDX)];
    pm := map[1 := OfExtent(x, true), 2 := OfExtent(y, false)];
    assert InRange(m[x], 1) && InRange(m[y], 2);
  }

  // ---------------------------------------------------------------------------------------
  // Into the set and out of it
  // ---------------------------------------------------------------------------------------

  lemma Joins(m: Extents, arena: nat, st: State, lru: seq<Extent>, e: Extent)
    requires Managed(m, arena, st, lru) && InUse(m, arena, e)
    ensures e in m && e !in lru && !m[e].slab && Managed(m[e := m[e].(state := st)], arena, st, lru + [e])
  {
  }

  lemma Leaves(m: Extents, arena: nat, st: State, lru: seq<Extent>, lru': seq<Extent>, e: Extent)
    requires Managed(m, arena, st, lru) && e in lru && forall x :: x in lru' <==> x in lru && x != e
    ensures e in m && m[e].state == st
    ensures var m' := m[e := m[e].(state := Active)];
      && Managed(m', arena, st, lru') && InUse(m', arena, e) && forall x :: x in lru' ==> x in m' && m'[x].size == m[x].size
  {
  }

  lemma Listed(m: Extents, arena: nat, st: State, lru: seq<Extent>, e: Extent)
    requires Managed(m, arena, st, lru) && e in lru
    ensures e in m && m[e].state == st
  {
  }

  /** extent_deactivate_locked. */
  method Deactivate(map': PageMap, set': ExtentSet, arena: nat, e: Extent)
    requires Consistent(map', set', arena) && InUse(map'.m, arena, e) && NoLongRun(map'.m)
    modifies map'`m, set', e`state
    ensures Consistent(map', set', arena) && set'.lru == old(set'.lru) + [e] && SameCover(old(map'.m), map'.m)
    ensures e in old(map'.m) && map'.m == old(map'.m)[e := old(map'.m)[e].(state := set'.state)]
    ensures SysOf(map', set') == Enlisted(old(SysOf(map', set')), e, set'.state)
  {
    hide Coherent, MapOk, SameCover, Managed, InUse, NoLongRun;
    Joins(map'.m, arena, set'.state, set'.lru, e);
    SizeFits(map'.m, map'.pm, e);
    StateDoesNotShow(map'.m, map'.pm, e, set'.state);
    ghost var m0 := map'.m;
    map'.SetState(e, set'.state);
    StateKeepsSizes(m0, e, set'.state, arena, set'.state, set'.lru);
    CoherentFrame(m0, map'.m, set'.heaps, set'.bitmap, set'.lru, set'.npages);
    set'.Insert(e, map'.m);
  }

  lemma StateKeepsSizes(m: Extents, e: Extent, new': State, arena: nat, st: State, lru: seq<Extent>)
    requires Managed(m, arena, st, lru) && e in m
    ensures var m' := m[e := m[e].(state := new')]; forall x :: x in lru ==> x in m' && m'[x].size == m[x].size
  {
  }

  /** extent_activate_locked. */
  method Activate(map': PageMap, set': ExtentSet, arena: nat, e: Extent)
    requires Consistent(map', set', arena) && e in set'.lru
    modifies map'`m, set', e`state
    ensures Consistent(map', set', arena) && InUse(map'.m, arena, e) && SameCover(old(map'.m), map'.m)
    ensures |set'.lru| == |old(set'.lru)| - 1 && forall x :: x in set'.lru <==> x in old(set'.lru) && x != e
    ensures set'.npages + map'.m[e].size == old(set'.npages)
    ensures e in old(map'.m) && map'.m == old(map'.m)[e := old(map'.m)[e].(state := Active)]
    ensures SysOf(map', set') == Unlisted(old(SysOf(map', set')), e) && set'.lru == RemoveFrom(old(set'.lru), e)
  {
    hide Coherent, MapOk, SameCover, Managed, InUse, RemoveFrom;
    Listed(map'.m, arena, set'.state, set'.lru, e);
    ghost var m0, lru0 := map'.m, set'.lru;
    ghost var k := set'.Remove(e, map'.m);
    Leaves(m0, arena, set'.state, lru0, set'.lru, e);
    StateDoesNotShow(m0, map'.pm, e, Active);
    map'.SetState(e, Active);
    CoherentFrame(m0, map'.m, set'.heaps, set'.bitmap, set'.lru, set'.npages);
  }

  // ---------------------------------------------------------------------------------------
  // Giving an extent back
  // ---------------------------------------------------------------------------------------

  lemma SlabEnded(m: Extents, arena: nat, st: State, lru: seq<Extent>, x: Extent)
    requires Managed(m, arena, st, lru) && x in m && m[x].state == Active && m[x].arena == arena
    ensures var m' := m[x := m[x].(slab := false, szind := MAX_PSZ_IDX)];
      && Managed(m', arena, st, lru) && InUse(m', arena, x) && Within(m, x, m', x) && OthersKept(m, m', lru, x) && x !in lru
      && forall e :: e in lru ==> e in m' && m'[e].size == m[e].size
  {
  }

  lemma SettledStays(m: Extents, pm: Pages, arena: nat, st: State, e: Extent, inactiveOnly: bool)
    requires MapOk(m, pm) && InUse(m, arena, e) && Settled(m, pm, arena, st, e, inactiveOnly)
    ensures Settled(m[e := m[e].(state := st)], pm, arena, st, e, inactiveOnly)
  {
    hide MapOk;
    NextTouches(m, pm, arena, e, inactiveOnly);
    PrevTouches(m, pm, arena, e, inactiveOnly);
  }

  lemma RecordedIs(m0: Extents, m1: Extents, m2: Extents, arena: nat, st: State, lru: seq<Extent>, x: Extent, e: Extent)
    requires x in m0 && Within(m0, x, m1, x) && OthersKept(m0, m1, lru, x) && Absorbed(m1, m2, arena, lru, x, e)
    ensures e in m2
    ensures var m3 := m2[e := m2[e].(state := st)]; Within(m0, x, m3, e) && OthersKept(m0, m3, lru, x)
  {
  }

  /** The extent is no slab any more. */
  ghost function Freed(s: Sys, x: Extent): Sys {
    if x in s.m && s.m[x].size > 0 then
      s.(m := s.m[x := s.m[x].(slab := false, szind := MAX_PSZ_IDX)], pm := if s.m[x].slab then EndPages(s.pm, s.m[x].(szind := MAX_PSZ_IDX), x) else s.pm)
    else s
  }

  ghost function Recorded(s: Sys, arena: nat, st: State, delay: bool, x: Extent): (Sys, Extent) {
    var (s1, e) := if delay then MergedSteps(Freed(s, x), arena, st, x) else MergedAll(Freed(s, x), arena, st, x, false);
    (Enlisted(s1, e, st), e)
  }

  lemma TwoFields(m: Extents, m1: Extents, x: Extent)
    requires x in m && m1 == m[x := m[x].(szind := MAX_PSZ_IDX)]
    ensures var m2 := m1[x := m1[x].(slab := false)];
            m2 == m[x := m[x].(slab := false, szind := MAX_PSZ_IDX)] && (!m[x].slab ==> m2 == m1)
  {
  }

  /** The start of extent_record. */
  method Unslab(map': PageMap, set': ExtentSet, arena: nat, extent: Extent)
    requires Consistent(map', set', arena) && extent in map'.m && map'.m[extent].state == Active && map'.m[extent].arena == arena
    modifies map', extent`szind, extent`slab
    ensures Consistent(map', set', arena) && SameCover(old(map'.m), map'.m) && InUse(map'.m, arena, extent)
    ensures Within(old(map'.m), extent, map'.m, extent) && OthersKept(old(map'.m), map'.m, set'.lru, extent)
    ensures extent in old(map'.m) && SysOf(map', set') == Freed(old(SysOf(map', set')), extent)
  {
    hide Coherent, MapOk, SameCover, Managed, OthersKept, Within, EndPages;
    ghost var m0 := map'.m;
    HasPages(m0, map'.pm, extent);
    SzindDoesNotShow(m0, map'.pm, extent, MAX_PSZ_IDX);
    map'.SetSzind(extent, MAX_PSZ_IDX);
    ghost var m1 := map'.m;
    SlabEnded(m0, arena, set'.state, set'.lru, extent);
    TwoFields(m0, m1, extent);
    if extent.slab {
      map'.EndSlab(extent);
      CoverSteps(m0, m1, map'.m);
    }
    CoherentFrame(m0, map'.m, set'.heaps, set'.bitmap, set'.lru, set'.npages);
  }

  /** extent_record: the extent is freed, merged with what it can be merged with, and put into the
      set.  When it stops, no neighbouring page shows an extent it could still be merged with; with
      delayed coalescing, none whose slab bit is clear. */
  method Record(map': PageMap, set': ExtentSet, arena: nat, extent: Extent) returns (e: Extent)
    requires Consistent(map', set', arena) && NoLongRun(map'.m)
    requires extent in map'.m && map'.m[extent].state == Active && map'.m[extent].arena == arena
    modifies map', set', map'.m.Keys
    ensures Consistent(map', set', arena) && SameCover(old(map'.m), map'.m)
    ensures |set'.lru| > 0 && set'.lru[|set'.lru| - 1] == e
    ensures Within(old(map'.m), extent, map'.m, e) && OthersKept(old(map'.m), map'.m, old(set'.lru), extent)
    ensures Settled(map'.m, map'.pm, arena, set'.state, e, set'.delayCoalesce)
    ensures (SysOf(map', set'), e) == Recorded(old(SysOf(map', set')), arena, set'.state, set'.delayCoalesce, extent)
  {
    hide Coherent, MapOk, SameCover, Absorbed, Managed, InUse, NoLongRun, Settled, OthersKept, Within, EndPages, MergedAll, MergedSteps;
    ghost var s0, m0, lru0 := SysOf(map', set'), map'.m, set'.lru;
    Unslab(map', set', arena, extent);
    ghost var m1 := map'.m;
    e := CoalesceFully(map', set', arena, extent);
    ghost var m2 := map'.m;
    AbsorbedMeans(m1, m2, arena, lru0, extent, e);
    CoverSteps(m0, m1, m2);
    NoLongRunKept(m0, m2);
    RecordedIs(m0, m1, m2, arena, set'.state, lru0, extent, e);
    SettledStays(m2, map'.pm, arena, set'.state, e, set'.delayCoalesce);
    Deactivate(map', set', arena, e);
    CoverSteps(m0, m2, map'.m);
  }

  /** The middle of extent_record. */
  method CoalesceFully(map': PageMap, set': ExtentSet, arena: nat, extent: Extent) returns (e: Extent)
    requires Consistent(map', set', arena) && InUse(map'.m, arena, extent)
    modifies map', set', map'.m.Keys
    ensures Consistent(map', set', arena) && Absorbed(old(map'.m), map'.m, arena, old(set'.lru), extent, e)
    ensures Settled(map'.m, map'.pm, arena, set'.state, e, set'.delayCoalesce)
    ensures (SysOf(map', set'), e)
         == if set'.delayCoalesce then MergedSteps(old(SysOf(map', set')), arena, set'.state, extent)
            else MergedAll(old(SysOf(map', set')), arena, set'.state, extent, false)
  {
    hide Coherent, MapOk, SameCover, Absorbed, Managed, InUse, Settled, MergedAll, MergedSteps, MergedOnce;
    ghost var s0 := SysOf(map', set');
    var coalesced := false;
    if !set'.delayCoalesce {
      e, coalesced := TryCoalesce(map', set', arena, extent, false);
    } else {
      UnfoldSteps(s0, arena, set'.state, extent);
      e, coalesced := TryCoalesce(map', set', arena, extent, true);
      AbsorbedMeans(old(map'.m), map'.m, arena, old(set'.lru), extent, e);
      while coalesced
        invariant Consistent(map', set', arena) && Absorbed(old(map'.m), map'.m, arena, old(set'.lru), extent, e)
        invariant InUse(map'.m, arena, e) && map'.m.Keys <= old(map'.m.Keys)
        invariant forall x :: x in set'.lru ==> x in old(set'.lru)
        invariant !coalesced ==> Settled(map'.m, map'.pm, arena, set'.state, e, true)
        invariant MergedSteps(s0, arena, set'.state, extent)
               == if coalesced then MergedSteps(SysOf(map', set'), arena, set'.state, e) else (SysOf(map', set'), e)
        decreases |set'.lru|, coalesced
      {
        ghost var m0, lru0, e0 := map'.m, set'.lru, e;
        UnfoldSteps(SysOf(map', set'), arena, set'.state, e0);
        e, coalesced := TryCoalesce(map', set', arena, e, true);
        AbsorbedSteps(old(map'.m), m0, map'.m, arena, old(set'.lru), lru0, extent, e0, e);
        AbsorbedMeans(m0, map'.m, arena, lru0, e0, e);
      }
    }
  }

  // ---------------------------------------------------------------------------------------
  // Eviction
  // ---------------------------------------------------------------------------------------

  /** Nothing happens to extents outside the set. */
  ghost predicate Spared(m: Extents, m': Extents, lru: seq<Extent>) {
    forall e :: e in m && e !in lru ==> e in m' && m'[e] == m[e]
  }

  lemma SparedSteps(m0: Extents, m1: Extents, m2: Extents, lru0: seq<Extent>, lru1: seq<Extent>)
    requires Spared(m0, m1, lru0) && Spared(m1, m2, lru1) && forall y :: y in lru1 ==> y in lru0
    ensures Spared(m0, m2, lru0)
  {
  }

  lemma SparedHere(m1: Extents, m2: Extents, m3: Extents, m4: Extents, arena: nat, st: State,
                   lru1: seq<Extent>, lru2: seq<Extent>, x: Extent, e: Extent)
    requires x in lru1 && x in m1 && m2 == m1[x := m1[x].(state := Active)]
    requires Absorbed(m2, m3, arena, lru2, x, e) && e in m3 && m4 == m3[e := m3[e].(state := st)]
    requires forall y :: y in lru2 ==> y in lru1
    ensures Spared(m1, m4, lru1) && e in lru1
  {
  }

  /** The state of an extent that stays out of the set is written twice. */
  method StateThereAndBack(map': PageMap, set': ExtentSet, arena: nat, e: Extent)
    requires Consistent(map', set', arena) && InUse(map'.m, arena, e) && e in map'.m
    modifies map'`m, e`state
    ensures Consistent(map', set', arena) && map'.m == old(map'.m)
  {
    hide Coherent, MapOk, Managed, InUse, Matches;
    ThereAndBack(map'.m, arena, e, set'.state);
    map'.SetState(e, set'.state);
    map'.SetState(e, Active);
  }

  lemma ThereAndBack(m: Extents, arena: nat, e: Extent, st: State)
    requires InUse(m, arena, e) && e in m
    ensures var m1 := m[e := m[e].(state := st)]; m1[e := m1[e].(state := Active)] == m
  {
  }

  /** The extent leaves the set; merged once, it returns to the end of the list. */
  ghost function DelayedTry(s: Sys, arena: nat, st: State, x: Extent): (Sys, Extent, bool) {
    var (s1, e, merged) := MergedOnce(Unlisted(s, x), arena, st, x, false);
    if merged then (Enlisted(s1, e, st), e, false) else (s1, e, true)
  }

  /** The oldest extent first, until one cannot be merged or the set is small enough. */
  ghost function Evicted(s: Sys, arena: nat, st: State, npagesMin: nat): (Sys, Extent?)
    decreases |s.lru|
  {
    if s.lru == [] || s.npages <= npagesMin then (s, null)
    else
      var (s1, e, settled) := DelayedTry(s, arena, st, s.lru[0]);
      if settled then (s1, e) else if |s1.lru| < |s.lru| then Evicted(s1, arena, st, npagesMin) else (s1, null)
  }

  lemma UnfoldEvicted(s: Sys, arena: nat, st: State, npagesMin: nat)
    ensures s.lru == [] || s.npages <= npagesMin ==> Evicted(s, arena, st, npagesMin) == (s, null)
    ensures s.lru != [] && s.npages > npagesMin ==>
              var (s1, e, settled) := DelayedTry(s, arena, st, s.lru[0]);
              Evicted(s, arena, st, npagesMin) == if settled then (s1, e) else if |s1.lru| < |s.lru| then Evicted(s1, arena, st, npagesMin) else (s1, null)
  {
    hide DelayedTry;
  }

  /** extent_try_delayed_coalesce on an extent taken out of the set: either it is merged with one
      neighbour and goes to the end of the list, or it stays out. */
  method TryDelayedCoalesce(map': PageMap, set': ExtentSet, arena: nat, extent: Extent) returns (e: Extent, settled: bool)
    requires Consistent(map', set', arena) && NoLongRun(map'.m) && set'.delayCoalesce && extent in set'.lru && extent in map'.m
    modifies map', set', map'.m.Keys
    ensures Consistent(map', set', arena) && SameCover(old(map'.m), map'.m) && NoLongRun(map'.m)
    ensures Spared(old(map'.m), map'.m, old(set'.lru)) && map'.m.Keys <= old(map'.m.Keys) && e in old(set'.lru)
    ensures |set'.lru| == |old(set'.lru)| - 1 && forall x :: x in set'.lru ==> x in old(set'.lru)
    ensures settled ==> InUse(map'.m, arena, e) && e in map'.m && set'.npages + map'.m[e].size == old(set'.npages)
    ensures settled ==> Settled(map'.m, map'.pm, arena, set'.state, e, false)
    ensures (SysOf(map', set'), e, settled) == DelayedTry(old(SysOf(map', set')), arena, set'.state, extent)
    ensures settled ==> e == extent && set'.lru == RemoveFrom(old(set'.lru), extent)
    ensures !settled ==> exists outer :: outer in old(set'.lru) && outer != extent && (e == extent || e == outer)
                           && set'.lru == RemoveFrom(RemoveFrom(old(set'.lru), extent), outer) + [e]
  {
    hide Coherent, MapOk, SameCover, Absorbed, Managed, InUse, NoLongRun, Settled, Spared, Unlisted, MergedOnce, RemoveFrom, Enlisted;
    ghost var s0 := SysOf(map', set');
    ghost var m1, lru1 := map'.m, set'.lru;
    Activate(map', set', arena, extent);
    ghost var m2, lru2 := map'.m, set'.lru;
    var coalesced;
    ghost var s2 := SysOf(map', set');
    e, coalesced := TryCoalesce(map', set', arena, extent, false);
    OneOff(s2, arena, set'.state, extent, false);
    ghost var m3 := map'.m;
    AbsorbedMeans(m2, m3, arena, lru2, extent, e);
    CoverSteps(m1, m2, m3);
    NoLongRunKept(m1, m3);
    ActiveIs(m3, arena, e);
    if !coalesced {
      StateThereAndBack(map', set', arena, e);
      assert m3[e := m3[e].(state := Active)] == m3;
      SparedHere(m1, m2, m3, m3, arena, Active, lru1, lru2, extent, e);
    } else {
      Deactivate(map', set', arena, e);
      NoLongRunKept(m3, map'.m);
      CoverSteps(m1, m3, map'.m);
      SparedHere(m1, m2, m3, map'.m, arena, set'.state, lru1, lru2, extent, e);
    }
    settled := !coalesced;
  }

  /** The dirty loop of extents_evict: the oldest extent of the set is taken out and given one chance
      to be merged; one that cannot be merged is returned.  Every round makes the set smaller. */
  method EvictDirty(map': PageMap, set': ExtentSet, arena: nat, npagesMin: nat) returns (r: Extent?)
    requires Consistent(map', set', arena) && NoLongRun(map'.m) && set'.delayCoalesce
    modifies map', set', map'.m.Keys
    ensures Consistent(map', set', arena) && SameCover(old(map'.m), map'.m)
    ensures Spared(old(map'.m), map'.m, old(set'.lru))
    ensures r == null ==> set'.lru == [] || set'.npages <= npagesMin
    ensures r != null ==> r in old(set'.lru) && InUse(map'.m, arena, r) && set'.npages + map'.m[r].size > npagesMin
    ensures r != null ==> Settled(map'.m, map'.pm, arena, set'.state, r, false)
    ensures (SysOf(map', set'), r) == Evicted(old(SysOf(map', set')), arena, set'.state, npagesMin)
    ensures old(set'.lru != [] && set'.npages > npagesMin && Settled(map'.m, map'.pm, arena, set'.state, set'.lru[0], false)) ==>
              r == old(set'.lru)[0]
    ensures r != null && |set'.lru| + 1 == |old(set'.lru)| ==> r == old(set'.lru)[0] && set'.lru == old(set'.lru)[1..]
  {
    hide Coherent, MapOk, SameCover, Managed, InUse, NoLongRun, Settled, Spared, Evicted, DelayedTry;
    ghost var s0 := SysOf(map', set');
    HeadEvicted(s0, arena, set'.state, npagesMin);
    SparedNothing(map'.m, set'.lru);
    CoverNothing(map'.m);
    while true
      invariant Consistent(map', set', arena) && NoLongRun(map'.m) && SameCover(old(map'.m), map'.m)
      invariant Spared(old(map'.m), map'.m, old(set'.lru)) && map'.m.Keys <= old(map'.m.Keys)
      invariant forall x :: x in set'.lru ==> x in old(set'.lru)
      invariant Evicted(s0, arena, set'.state, npagesMin) == Evicted(SysOf(map', set'), arena, set'.state, npagesMin)
      invariant set'.lru == old(set'.lru) || |set'.lru| < |old(set'.lru)|
      decreases |set'.lru|
    {
      UnfoldEvicted(SysOf(map', set'), arena, set'.state, npagesMin);
      if set'.lru == [] || set'.npages <= npagesMin {
        return null;
      }
      ghost var m1, lru1 := map'.m, set'.lru;
      Listed(m1, arena, set'.state, lru1, lru1[0]);
      var extent, settled := TryDelayedCoalesce(map', set', arena, set'.lru[0]);
      CoverSteps(old(map'.m), m1, map'.m);
      SparedSteps(old(map'.m), m1, map'.m, old(set'.lru), lru1);
      if settled {
        return extent;
      }
    }
  }

  lemma OneOff(s: Sys, arena: nat, st: State, e: Extent, inactiveOnly: bool)
    requires Managed(s.m, arena, st, s.lru) && InUse(s.m, arena, e)
    ensures var (s1, e1, merged) := MergedOnce(s, arena, st, e, inactiveOnly);
            && (!merged ==> s1 == s && e1 == e)
            && (merged && |s1.lru| < |s.lru| ==>
                  exists outer :: outer in s.lru && outer != e && s1.lru == RemoveFrom(s.lru, outer) && (e1 == e || e1 == outer))
  {
    hide MergedOnce, RemoveFrom;
    OnceLists(s, arena, st, e, inactiveOnly);
    var (s1, e1, merged) := MergedOnce(s, arena, st, e, inactiveOnly);
    if merged && |s1.lru| < |s.lru| {
      var outer: Extent :| CanCoalesce(s.m, arena, st, outer) && s1.lru == Unlisted(s, outer).lru && (e1 == e || e1 == outer);
      MayLeave(s.m, arena, st, s.lru, e, outer);
    }
  }

  /** The oldest extent is evicted if it has no neighbour to merge with. */
  lemma OldestFirst(s: Sys, arena: nat, st: State, npagesMin: nat)
    requires s.lru != [] && s.npages > npagesMin && s.lru[0] in s.m && st != Active
    requires !CanCoalesce(s.m, arena, st, Side(s, s.lru[0], true, false)) && !CanCoalesce(s.m, arena, st, Side(s, s.lru[0], false, false))
    ensures Evicted(s, arena, st, npagesMin) == (Unlisted(s, s.lru[0]), s.lru[0])
  {
    hide RemoveFrom;
    var x := s.lru[0];
    var s1 := Unlisted(s, x);
    UnfoldEvicted(s, arena, st, npagesMin);
    assert Side(s1, x, true, false) == Side(s, x, true, false) && Side(s1, x, false, false) == Side(s, x, false, false);
    assert !Sided(s1, arena, st, x, true, false).2 && !Sided(s1, arena, st, x, false, false).2;
  }

  lemma HeadEvicted(s: Sys, arena: nat, st: State, npagesMin: nat)
    requires Managed(s.m, arena, st, s.lru)
    ensures s.lru != [] && s.npages > npagesMin && Settled(s.m, s.pm, arena, st, s.lru[0], false) ==>
              Evicted(s, arena, st, npagesMin).1 == s.lru[0]
  {
    hide Managed, Evicted;
    assert st != Active by { ManagedState(s.m, arena, st, s.lru); }
    if s.lru != [] && s.npages > npagesMin && Settled(s.m, s.pm, arena, st, s.lru[0], false) {
      OldestFirst(s, arena, st, npagesMin);
    }
  }

  lemma ManagedState(m: Extents, arena: nat, st: State, lru: seq<Extent>)
    requires Managed(m, arena, st, lru)
    ensures st != Active
  {
  }

  /** One merge takes one extent of the set's state off the list. */
  lemma OnceLists(s: Sys, arena: nat, st: State, e: Extent, inactiveOnly: bool)
    ensures var (s1, e1, merged) := MergedOnce(s, arena, st, e, inactiveOnly);
            && (!merged ==> s1 == s && e1 == e)
            && (merged ==> exists outer: Extent :: CanCoalesce(s.m, arena, st, outer) && s1.lru == Unlisted(s, outer).lru && (e1 == e || e1 == outer))
  {
    var outer := if Sided(s, arena, st, e, true, inactiveOnly).2 then Side(s, e, true, inactiveOnly) else Side(s, e, false, inactiveOnly);
    if MergedOnce(s, arena, st, e, inactiveOnly).2 {
      assert CanCoalesce(s.m, arena, st, outer);
    }
  }

  lemma ActiveIs(m: Extents, arena: nat, e: Extent)
    requires InUse(m, arena, e)
    ensures e in m && !m[e].slab && m[e].state == Active
  {
  }

  lemma SparedNothing(m: Extents, lru: seq<Extent>)
    ensures Spared(m, m, lru)
  {
  }

  // ---------------------------------------------------------------------------------------
  // Taking an extent
  // ---------------------------------------------------------------------------------------

  /** The pages of r behind the first npages are a new extent t of the set. */
  ghost predicate Surplus(m: Extents, m': Extents, arena: nat, st: State, lru: seq<Extent>, lru': seq<Extent>, r: Extent, npages: nat, t: Extent)
    requires r in m && npages < m[r].size
  {
    && t !in m && m'.Keys == m.Keys + {t}
    && m'[t] == Cell(m[r].addr + npages, m[r].size - npages, st, arena, false, 0, MAX_PSZ_IDX)
    && forall e :: e in lru' ==> (e in lru && e != r) || e == t
  }

  /** The extents after r, found by best fit, has been taken for npages pages. */
  ghost predicate Taken(m: Extents, m': Extents, arena: nat, st: State, lru: seq<Extent>, lru': seq<Extent>, r: Extent, npages: nat, slab: bool, vslab: nat, szind: nat) {
    && r in m && r in m' && r in lru && npages <= m[r].size
    && m'[r] == Cell(m[r].addr, npages, Active, arena, slab, if slab then vslab else m[r].vslab, szind)
    && (forall e :: e in m && e != r ==> e in m' && m'[e] == m[e])
    && (forall e :: e in lru && e != r ==> e in lru')
    && (npages == m[r].size ==> m'.Keys == m.Keys && forall e :: e in lru' ==> e in lru && e != r)
    && (npages < m[r].size ==> lru' != [] && Surplus(m, m', arena, st, lru, lru', r, npages, lru'[|lru'| - 1]))
  }

  lemma CoverNothing(m: Extents)
    ensures SameCover(m, m)
  {
  }

  lemma BestIsListed(m: Extents, heaps: seq<set<Extent>>, lru: seq<Extent>, delay: bool, npages: nat, r: Extent)
    requires IsBestFit(m, heaps, lru, delay, npages, r)
    ensures r in lru && r in m && npages <= m[r].size
  {
  }

  /** The extents after the surplus of r behind its first k pages has gone to t, in state st. */
  function Trimmed(m: Extents, r: Extent, k: nat, t: Extent, st: State, szind: nat): Extents
    requires r in m && k < m[r].size
  {
    m[r := m[r].(size := k, szind := szind)][t := Cell(m[r].addr + k, m[r].size - k, st, m[r].arena, false, 0, MAX_PSZ_IDX)]
  }

  lemma TrimmedSteps(m: Extents, r: Extent, k: nat, t: Extent, st: State, szind: nat)
    requires r in m && k < m[r].size && t !in m
    ensures var m' := SplitCells(m, r, k, t, szind, MAX_PSZ_IDX);
            && t in m' && m'[t].size == m[r].size - k && !m'[t].slab && Trimmed(m, r, k, t, st, szind) == m'[t := m'[t].(state := st)]
  {
  }

  lemma TrimmedManaged(m: Extents, arena: nat, st: State, lru: seq<Extent>, r: Extent, k: nat, t: Extent, szind: nat)
    requires Managed(m, arena, st, lru) && InUse(m, arena, r) && t !in m && k < m[r].size
    ensures var m' := Trimmed(m, r, k, t, st, szind);
            && Managed(m', arena, st, lru + [t]) && InUse(m', arena, r) && t !in lru
            && forall x :: x in lru ==> x in m' && m'[x].size == m[x].size
  {
  }

  /** The surplus of r behind its first k pages becomes t, which joins the set. */
  ghost function TrimmedOff(s: Sys, r: Extent, k: nat, t: Extent, slab: bool, szind: nat, vslab: nat, st: State): Sys {
    if r in s.m && 0 < k < s.m[r].size then
      var lead := if slab then OfSlab(vslab) else OfExtent(r, false);
      Enlisted(s.(m := SplitCells(s.m, r, k, t, szind, MAX_PSZ_IDX), pm := SplitPages(s.pm, s.m[r], k, lead, t)), t, st)
    else s
  }

  /** r is taken whole: its class changes, and the slab bit it shows on its first page and, for a slab, on
      its last. */
  ghost function TakenWhole(s: Sys, r: Extent, slab: bool, szind: nat): Sys {
    if r in s.m && s.m[r].size > 0 then
      var c := s.m[r];
      var pm1 := if szind != MAX_PSZ_IDX then s.pm[c.addr := OfExtent(r, slab)] else s.pm;
      var pm2 := if szind != MAX_PSZ_IDX && slab && c.size > 1 then pm1[c.addr + c.size - 1 := OfExtent(r, slab)] else pm1;
      s.(m := s.m[r := c.(szind := szind)], pm := pm2)
    else s
  }

  ghost function SplitOff(s: Sys, r: Extent, t: Extent, npages: nat, slab: bool, szind: nat, vslab: nat, st: State): Sys {
    if r in s.m && s.m[r].size > npages then TrimmedOff(s, r, npages, t, slab, szind, vslab, st) else TakenWhole(s, r, slab, szind)
  }

  ghost function MadeSlab(s: Sys, r: Extent, vslab: nat): Sys {
    if r in s.m && s.m[r].size > 0 then
      var m := s.m[r := s.m[r].(slab := true, vslab := vslab)];
      s.(m := m, pm := SlabPages(s.pm, m[r], vslab))
    else s
  }

  ghost function Recycled(s: Sys, r: Extent, t: Extent, npages: nat, slab: bool, szind: nat, vslab: nat, st: State): Sys {
    var s2 := SplitOff(Unlisted(s, r), r, t, npages, slab, szind, vslab, st);
    if slab then MadeSlab(s2, r, vslab) else s2
  }

  lemma RecycledIsTaken(s: Sys, arena: nat, r: Extent, t: Extent, npages: nat, slab: bool, szind: nat, vslab: nat, st: State)
    requires Managed(s.m, arena, st, s.lru) && r in s.lru && r in s.m && 0 < npages <= s.m[r].size <= s.npages
    requires npages < s.m[r].size ==> t !in s.m
    requires forall x :: x in RemoveFrom(s.lru, r) <==> x in s.lru && x != r
    ensures var s' := Recycled(s, r, t, npages, slab, szind, vslab, st);
            Taken(s.m, s'.m, arena, st, s.lru, s'.lru, r, npages, slab, vslab, szind)
  {
    hide RemoveFrom, SplitPages, SlabPages;
    var m1, lru1 := Unlisted(s, r).m, RemoveFrom(s.lru, r);
    if npages < s.m[r].size {
      TrimmedSteps(m1, r, npages, t, st, szind);
      TookPart(s.m, m1, arena, st, s.lru, lru1, r, npages, t, slab, vslab, szind);
    } else {
      TookWhole(s.m, m1, arena, st, s.lru, lru1, r, npages, slab, vslab, szind);
    }
  }

  lemma TakenFields(m: Extents, m': Extents, arena: nat, st: State, lru: seq<Extent>, lru': seq<Extent>, r: Extent, npages: nat, slab: bool, vslab: nat, szind: nat)
    requires Taken(m, m', arena, st, lru, lru', r, npages, slab, vslab, szind)
    ensures r in m && r in m' && m'[r].addr == m[r].addr && m'[r].szind == szind
  {
  }

  /** What the ends of an extent show that is taken for no slab. */
  lemma RecycledShows(s: Sys, r: Extent, t: Extent, npages: nat, szind: nat, vslab: nat, st: State)
    requires r in s.m && 0 < npages <= s.m[r].size <= s.npages
    ensures var s' := Recycled(s, r, t, npages, false, szind, vslab, st); var c := s.m[r];
            && (szind != MAX_PSZ_IDX || npages < c.size ==> Get(s'.pm, c.addr) == OfExtent(r, false))
            && (npages < c.size ==> Get(s'.pm, c.addr + npages - 1) == OfExtent(r, false))
            && (npages == c.size > 1 ==> Get(s'.pm, c.addr + npages - 1) == Get(s.pm, c.addr + npages - 1))
  {
    hide RemoveFrom;
  }

  /** The part of extent_recycle_split where the extent is larger than asked for. */
  method Trim(map': PageMap, set': ExtentSet, arena: nat, r: Extent, npages: nat, slab: bool, szind: nat, vslab: nat) returns (t: Extent)
    requires Consistent(map', set', arena) && InUse(map'.m, arena, r) && NoLongRun(map'.m) && 0 < npages < r.size
    modifies map', set', r`size, r`szind
    ensures Matches(map'.m) && MapOkBut(map'.m, map'.pm, r) && (!slab ==> MapOk(map'.m, map'.pm)) && SameCover(old(map'.m), map'.m)
    ensures set'.Valid(map'.m) && Managed(map'.m, arena, set'.state, set'.lru) && InUse(map'.m, arena, r)
    ensures r in old(map'.m) && npages < old(map'.m)[r].size && map'.m == Trimmed(old(map'.m), r, npages, t, set'.state, szind)
    ensures fresh(t) && t !in old(map'.m) && set'.lru == old(set'.lru) + [t]
    ensures SysOf(map', set') == TrimmedOff(old(SysOf(map', set')), r, npages, t, slab, szind, vslab, set'.state)
  {
    hide Coherent, MapOk, MapOkBut, SameCover, Managed, InUse, NoLongRun, SplitCells, SplitPages, Trimmed;
    ghost var s0, m0 := SysOf(map', set'), map'.m;
    SlabFree(m0, arena, r);
    SizeFits(m0, map'.pm, r);
    t := map'.Split(r, npages, szind, slab, MAX_PSZ_IDX, vslab);
    ghost var m1 := map'.m;
    assert t !in m0;
    TrimmedSteps(m0, r, npages, t, set'.state, szind);
    StateDoesNotShowBut(m1, map'.pm, t, set'.state, r);
    if !slab {
      StateDoesNotShow(m1, map'.pm, t, set'.state);
    }
    map'.SetState(t, set'.state);
    CoverSteps(m0, m1, map'.m);
    TrimmedManaged(m0, arena, set'.state, set'.lru, r, npages, t, szind);
    CoherentFrame(m0, map'.m, set'.heaps, set'.bitmap, set'.lru, set'.npages);
    set'.Insert(t, map'.m);
  }

  /** The part of extent_split_interior where the extent has the size asked for: the slab bits of the
      ends are brought up to date, though the last one only for a slab. */
  method SetClass(map': PageMap, set': ExtentSet, arena: nat, r: Extent, slab: bool, szind: nat)
    requires Consistent(map', set', arena) && InUse(map'.m, arena, r)
    modifies map', r`szind
    ensures Consistent(map', set', arena) && InUse(map'.m, arena, r) && MapOkBut(map'.m, map'.pm, r) && SameCover(old(map'.m), map'.m)
    ensures r in old(map'.m) && map'.m == old(map'.m)[r := old(map'.m)[r].(szind := szind)]
    ensures SysOf(map', set') == TakenWhole(old(SysOf(map', set')), r, slab, szind)
  {
    hide MapOk, MapOkBut, Managed, Coherent, SameCover;
    ghost var m0 := map'.m;
    HasPages(m0, map'.pm, r);
    SzindManaged(m0, arena, set'.state, set'.lru, r, szind);
    SzindDoesNotShow(m0, map'.pm, r, szind);
    map'.SetSzind(r, szind);
    CoherentFrame(m0, map'.m, set'.heaps, set'.bitmap, set'.lru, set'.npages);
    Ends(map'.m, map'.pm, arena, r);
    if szind != MAX_PSZ_IDX {
      SlabBitFree(map'.m, map'.pm, r, r.addr, slab);
      map'.SlabUpdate(r.addr, slab);
      if slab && r.size > 1 {
        SlabBitFree(map'.m, map'.pm, r, r.addr + r.size - 1, slab);
        map'.SlabUpdate(r.addr + r.size - 1, slab);
      }
    }
    OkBut(map'.m, map'.pm, r);
  }

  lemma SzindManaged(m: Extents, arena: nat, st: State, lru: seq<Extent>, r: Extent, szind: nat)
    requires Managed(m, arena, st, lru) && InUse(m, arena, r)
    ensures var m' := m[r := m[r].(szind := szind)];
            Managed(m', arena, st, lru) && InUse(m', arena, r) && forall x :: x in lru ==> x in m' && m'[x].size == m[x].size
  {
  }

  lemma Ends(m: Extents, pm: Pages, arena: nat, r: Extent)
    requires MapOk(m, pm) && InUse(m, arena, r)
    ensures r in m && !m[r].slab && InRange(m[r], m[r].addr) && IsEnd(m[r], m[r].addr)
    ensures InRange(m[r], m[r].addr + m[r].size - 1) && IsEnd(m[r], m[r].addr + m[r].size - 1)
  {
  }

  lemma OkBut(m: Extents, pm: Pages, r: Extent)
    requires MapOk(m, pm)
    ensures MapOkBut(m, pm, r)
  {
  }

  lemma TookPart(m0: Extents, m1: Extents, arena: nat, st: State, lru: seq<Extent>, lru1: seq<Extent>, r: Extent, npages: nat, t: Extent, slab: bool, vslab: nat, szind: nat)
    requires r in m0 && r in lru && Managed(m0, arena, st, lru) && t !in m0 && npages < m0[r].size
    requires m1 == m0[r := m0[r].(state := Active)] && forall x :: x in lru1 <==> x in lru && x != r
    ensures var m2 := Trimmed(m1, r, npages, t, st, szind);
              Taken(m0, if slab then m2[r := m2[r].(slab := true, vslab := vslab)] else m2, arena, st, lru, lru1 + [t], r, npages, slab, vslab, szind)
  {
  }

  lemma TookWhole(m0: Extents, m1: Extents, arena: nat, st: State, lru: seq<Extent>, lru1: seq<Extent>, r: Extent, npages: nat, slab: bool, vslab: nat, szind: nat)
    requires r in m0 && r in lru && Managed(m0, arena, st, lru) && npages == m0[r].size
    requires m1 == m0[r := m0[r].(state := Active)] && forall x :: x in lru1 <==> x in lru && x != r
    ensures var m2 := m1[r := m1[r].(szind := szind)];
              Taken(m0, if slab then m2[r := m2[r].(slab := true, vslab := vslab)] else m2, arena, st, lru, lru1, r, npages, slab, vslab, szind)
  {
  }

  lemma SlabStarted(m: Extents, arena: nat, st: State, lru: seq<Extent>, r: Extent, vslab: nat)
    requires Managed(m, arena, st, lru) && InUse(m, arena, r)
    ensures var m' := m[r := m[r].(slab := true, vslab := vslab)];
            Managed(m', arena, st, lru) && forall x :: x in lru ==> x in m' && m'[x].size == m[x].size
  {
  }

  /** extent_recycle_split. */
  method ExtentSplit(map': PageMap, set': ExtentSet, arena: nat, r: Extent, npages: nat, slab: bool, szind: nat, vslab: nat) returns (ghost t: Extent)
    requires Consistent(map', set', arena) && InUse(map'.m, arena, r) && NoLongRun(map'.m) && 0 < npages <= r.size
    modifies map', set', r`size, r`szind
    ensures Matches(map'.m) && MapOkBut(map'.m, map'.pm, r) && (!slab ==> MapOk(map'.m, map'.pm)) && SameCover(old(map'.m), map'.m)
    ensures set'.Valid(map'.m) && Managed(map'.m, arena, set'.state, set'.lru) && InUse(map'.m, arena, r) && r in map'.m && !r.slab
    ensures r in old(map'.m) && (npages < old(map'.m)[r].size ==> t !in old(map'.m))
    ensures SysOf(map', set') == SplitOff(old(SysOf(map', set')), r, t, npages, slab, szind, vslab, set'.state)
  {
    hide Coherent, MapOk, MapOkBut, SameCover, Managed, InUse, NoLongRun, TrimmedOff, TakenWhole, Trimmed;
    SlabFree(map'.m, arena, r);
    t := r;
    if r.size > npages {
      var t' := Trim(map', set', arena, r, npages, slab, szind, vslab);
      t := t';
    } else {
      SetClass(map', set', arena, r, slab, szind);
    }
    SlabFree(map'.m, arena, r);
  }

  /** extent_recycle from the activation of the extent on. */
  method TakeOut(map': PageMap, set': ExtentSet, arena: nat, r: Extent, npages: nat, slab: bool, szind: nat, vslab: nat) returns (ghost t: Extent)
    requires Consistent(map', set', arena) && NoLongRun(map'.m) && r in set'.lru && r in map'.m && 0 < npages <= map'.m[r].size
    modifies map', set', map'.m.Keys
    ensures Consistent(map', set', arena) && SameCover(old(map'.m), map'.m)
    ensures r in old(map'.m) && (npages < old(map'.m)[r].size ==> t !in old(map'.m)) && old(map'.m)[r].size <= old(set'.npages)
    ensures forall x :: x in RemoveFrom(old(set'.lru), r) <==> x in old(set'.lru) && x != r
    ensures SysOf(map', set') == Recycled(old(SysOf(map', set')), r, t, npages, slab, szind, vslab, set'.state)
  {
    hide Coherent, MapOk, MapOkBut, SameCover, Managed, InUse, NoLongRun, SplitOff, Unlisted, SlabPages, RemoveFrom;
    ghost var m0 := map'.m;
    Activate(map', set', arena, r);
    ghost var m1 := map'.m;
    NoLongRunKept(m0, m1);
    t := ExtentSplit(map', set', arena, r, npages, slab, szind, vslab);
    ghost var m2 := map'.m;
    CoverSteps(m0, m1, m2);
    if slab {
      map'.StartSlab(r, vslab);
      SlabStarted(m2, arena, set'.state, set'.lru, r, vslab);
      CoherentFrame(m2, map'.m, set'.heaps, set'.bitmap, set'.lru, set'.npages);
      CoverSteps(m0, m2, map'.m);
    }
  }

  /** extent_recycle: the best fit leaves the set, its surplus returns to the set as an extent of its
      own, and what is left may become a slab. */
  method Recycle(map': PageMap, set': ExtentSet, arena: nat, npages: nat, slab: bool, szind: nat, vslab: nat) returns (r: Extent?)
    requires Consistent(map', set', arena) && NoLongRun(map'.m) && 0 < npages <= MAX_PAGES
    modifies map', set', map'.m.Keys
    ensures Consistent(map', set', arena) && SameCover(old(map'.m), map'.m)
    ensures r != null ==> Taken(old(map'.m), map'.m, arena, set'.state, old(set'.lru), set'.lru, r, npages, slab, vslab, szind)
    ensures r != null ==> IsBestFit(old(map'.m), old(set'.heaps), old(set'.lru), set'.delayCoalesce, npages, r)
    ensures r != null ==> r in map'.m && map'.m[r].szind == szind
    ensures r != null && !slab && (szind != MAX_PSZ_IDX || npages < old(map'.m)[r].size) ==> Get(map'.pm, map'.m[r].addr) == OfExtent(r, false)
    ensures r != null && !slab && npages < old(map'.m)[r].size ==> Get(map'.pm, map'.m[r].addr + npages - 1) == OfExtent(r, false)
    ensures r != null && !slab && npages == old(map'.m)[r].size > 1 ==>
              Get(map'.pm, map'.m[r].addr + npages - 1) == Get(old(map'.pm), map'.m[r].addr + npages - 1)
    ensures r != null ==> exists t: Extent :: SysOf(map', set') == Recycled(old(SysOf(map', set')), r, t, npages, slab, szind, vslab, set'.state)
    ensures r == null ==> map'.m == old(map'.m) && map'.pm == old(map'.pm) && set'.lru == old(set'.lru)
    ensures r == null ==> forall e :: e in set'.lru && PageClass(Lookup(npages)) <= map'.m[e].size ==>
                            set'.delayCoalesce && Floor(map'.m[e].size) >= 0 && npages * 32 < PageClass(Floor(map'.m[e].size))
  {
    hide Coherent, MapOk, MapOkBut, SameCover, Managed, InUse, NoLongRun, Taken, IsBestFit, Lookup, Floor, PageClass, SplitCells, SplitPages, Recycled, RemoveFrom;
    r := set'.BestFit(npages, map'.m);
    if r == null {
      CoverNothing(map'.m);
      return;
    }
    ghost var s0 := SysOf(map', set');
    BestIsListed(s0.m, set'.heaps, s0.lru, set'.delayCoalesce, npages, r);
    ghost var t := TakeOut(map', set', arena, r, npages, slab, szind, vslab);
    RecycledIsTaken(s0, arena, r, t, npages, slab, szind, vslab, set'.state);
    RecycledShows(s0, r, t, npages, szind, vslab, set'.state);
    TakenFields(s0.m, map'.m, arena, set'.state, s0.lru, set'.lru, r, npages, slab, vslab, szind);
  }
}
