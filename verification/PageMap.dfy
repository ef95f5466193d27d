/** The operations of src/extent.c that write the page map. */
module PageMaps {
  import opened PageMapSpec
  import opened PageClasses

  /** The page map and, as a snapshot, the extents registered in it. */
  class PageMap {
    var pm: Pages
    ghost var m: Extents

    ghost predicate Valid()
      reads this, m.Keys
    {
      Matches(m) && MapOk(m, pm)
    }

    constructor ()
      ensures Valid() && m == map[] && pm == map[]
    {
      pm, m := map[], map[];
    }

    /** extent_rtree_write_acquired. */
    method WriteAcquired(first: nat, last: nat, entry: Entry)
      modifies this`pm
      ensures pm == old(pm)[first := entry][last := entry]
    {
      pm := pm[first := entry];
      pm := pm[last := entry];
    }

    /** extent_interior_register: every page of the slab x shows its vslab. */
    method RegisterInterior(x: Extent, vslab: nat)
      requires Matches(m) && x in m && m[x].slab && m[x].size > 0
      modifies this`pm
      ensures SameOutside(old(pm), pm, m[x]) && forall p :: InRange(m[x], p) ==> Get(pm, p) == OfSlab(vslab)
      ensures pm == SlabPages(old(pm), m[x], vslab)
    {
      var n := x.size;
      for i := 1 to if n > 1 then n - 1 else 1
        invariant pm == Filled(old(pm), x.addr + 1, i - 1, OfSlab(vslab))
      {
        pm := pm[x.addr + i := OfSlab(vslab)];
      }
      WriteAcquired(x.addr, x.addr + x.size - 1, OfSlab(vslab));
      SlabPagesShow(old(pm), m[x], vslab);
    }

    /** extent_interior_deregister: only the ends of x show anything, and that is x with the slab bit
        still set. */
    method DeregisterInterior(x: Extent)
      requires Matches(m) && x in m && m[x].slab && m[x].size > 0
      modifies this`pm
      ensures SameOutside(old(pm), pm, m[x])
      ensures forall p :: InRange(m[x], p) ==> Get(pm, p) == if IsEnd(m[x], p) then OfExtent(x, true) else NoEntry
      ensures pm == EndPages(old(pm), m[x], x)
    {
      var n := x.size;
      for i := 1 to if n > 1 then n - 1 else 1
        invariant pm == Filled(old(pm), x.addr + 1, i - 1, NoEntry)
      {
        pm := pm[x.addr + i := NoEntry];
      }
      WriteAcquired(x.addr, x.addr + x.size - 1, OfExtent(x, true));
      EndPagesShow(old(pm), m[x], x);
    }

    /** extent_register: a new extent over uncovered pages, possibly in use as a slab at once. */
    method Register(x: Extent, vslab: nat)
      requires Valid() && x !in m && x.size > 0
      requires forall p :: x.addr <= p < x.addr + x.size ==> !Covered(m, p)
      modifies this, x`vslab
      ensures Valid() && m == old(m)[x := Cell(x.addr, x.size, x.state, x.arena, x.slab, if x.slab then vslab else old(x.vslab), x.szind)]
      ensures pm == if x.slab then SlabPages(EndsShow(old(pm), m[x], OfSlab(vslab)), m[x], vslab)
                    else EndsShow(old(pm), m[x], OfExtent(x, false))
    {
      hide MapOk, SlabPages, SameOutside;
      if x.slab {
        x.vslab := vslab;
      }
      ghost var c := Cell(x.addr, x.size, x.state, x.arena, x.slab, x.vslab, x.szind);
      ghost var m0, pm0 := m, pm;
      m := m[x := c];
      var entry := if x.slab then OfSlab(vslab) else OfExtent(x, false);
      WriteAcquired(x.addr, x.addr + x.size - 1, entry);
      if x.slab {
        RegisterInterior(x, vslab);
      }
      Registered(m0, pm0, m, pm, x, c, vslab);
    }

    /** extent_deregister.  It clears the map exactly for extents that are not slabs: the interior
        pass writes a slab back to its end pages. */
    method Deregister(x: Extent)
      requires Valid() && x in m
      modifies this, x`slab
      ensures m == old(m) - {x} && Matches(m) && Disjoint(m) && !x.slab
      ensures MapOk(m, pm) <==> !old(x.slab)
      ensures old(m)[x].size > 0
      ensures pm == if old(x.slab) then EndPages(EndsShow(old(pm), old(m)[x], NoEntry), old(m)[x], x)
                    else EndsShow(old(pm), old(m)[x], NoEntry)
    {
      ghost var m0, pm0 := m, pm;
      assert x.size > 0;
      WriteAcquired(x.addr, x.addr + x.size - 1, NoEntry);
      ghost var pm1, wasSlab := pm, x.slab;
      if x.slab {
        DeregisterInterior(x);
        x.slab := false;
      }
      m := m - {x};
      if wasSlab {
        SlabStrays(m0, pm, x);
      } else {
        DeregisterDone(m0, pm0, pm, x);
      }
    }

    /** extent_split_impl: the first k pages stay with x, the rest goes to a new extent.  If the
        first part is to be a slab, its ends show the vslab. */
    method Split(x: Extent, k: nat, szindA: nat, slabA: bool, szindB: nat, vslabA: nat) returns (trail: Extent)
      requires Valid() && x in m && !x.slab && 0 < k < x.size
      modifies this, x`size, x`szind
      ensures fresh(trail) && Matches(m) && m == SplitCells(old(m), x, k, trail, szindA, szindB)
      ensures pm == SplitPages(old(pm), old(m)[x], k, if slabA then OfSlab(vslabA) else OfExtent(x, false), trail)
      ensures MapOkBut(m, pm, x) && SameCover(old(m), m) && (!slabA ==> MapOk(m, pm))
    {
      hide MapOk, MapOkBut, SameCover, SplitCells, SplitPages;
      ghost var m0 := m;
      var size := x.size;
      var lead := if slabA then OfSlab(vslabA) else OfExtent(x, false);
      trail, m := Cut(x, k, szindA, szindB, m);
      SplitKeeps(m0, pm, x, k, lead, trail, szindA, szindB);
      SplitWrites(pm, m0[x], k, lead, trail);
      WriteAcquired(x.addr, x.addr + k - 1, lead);
      WriteAcquired(trail.addr, trail.addr + (size - k) - 1, OfExtent(trail, false));
    }

    /** extent_merge_impl: b, just behind a, is merged into a and freed. */
    method Merge(a: Extent, b: Extent)
      requires Valid() && Adjacent(m, a, b)
      modifies this, a`size, a`szind
      ensures Valid() && m == MergeCells(old(m), a, b) && SameCover(old(m), m)
      ensures a in old(m) && b in old(m) && old(m)[a].size > 0 && old(m)[b].size > 0 && pm == MergePages(old(pm), old(m)[a], old(m)[b], a)
    {
      hide MapOk, SameCover;
      MergeKeeps(m, pm, a, b);
      var lastA, firstB, lastB := a.addr + a.size - 1, b.addr, b.addr + b.size - 1;
      pm := pm[lastA := NoEntry];
      pm := pm[firstB := NoEntry];
      ghost var m0 := m;
      m := MergeCells(m, a, b);
      a.size := a.size + b.size;
      a.szind := MAX_PSZ_IDX;
      WriteAcquired(a.addr, lastB, OfExtent(a, false));
    }

    /** extent_szind_set. */
    method SetSzind(x: Extent, szind: nat)
      requires Matches(m) && x in m
      modifies this`m, x`szind
      ensures Matches(m) && m == old(m)[x := old(m)[x].(szind := szind)]
    {
      x.szind := szind;
      m := m[x := m[x].(szind := szind)];
    }

    /** extent_state_set. */
    method SetState(x: Extent, st: State)
      requires Matches(m) && x in m
      modifies this`m, x`state
      ensures Matches(m) && m == old(m)[x := old(m)[x].(state := st)]
    {
      x.state := st;
      m := m[x := m[x].(state := st)];
    }

    /** rtree_szind_slab_update: the extent stays, the slab bit is overwritten. */
    method SlabUpdate(p: nat, slabBit: bool)
      requires Get(pm, p).OfExtent?
      modifies this`pm
      ensures pm == old(pm)[p := OfExtent(Get(old(pm), p).extent, slabBit)]
    {
      pm := pm[p := OfExtent(pm[p].extent, slabBit)];
    }

    /** The start of extent_record for a slab: the map shows the extent again, though with the slab
        bit, and the extent is no slab any more. */
    method EndSlab(x: Extent)
      requires Valid() && x in m && x.slab
      modifies this, x`slab
      ensures Valid() && m == old(m)[x := old(m)[x].(slab := false)] && SameCover(old(m), m)
      ensures x.size > 0 && Get(pm, x.addr) == Get(pm, x.addr + x.size - 1) == OfExtent(x, true)
      ensures x in old(m) && old(m)[x].size > 0 && pm == EndPages(old(pm), old(m)[x], x)
    {
      hide MapOk, MapOkBut;
      ghost var m0, pm0 := m, pm;
      HasPages(m, pm, x);
      DeregisterInterior(x);
      EndedSlab(m0, pm0, pm, x);
      x.slab := false;
      m := m[x := m[x].(slab := false)];
    }

    /** The end of extent_recycle for a slab: the extent becomes a slab and shows its vslab. */
    method StartSlab(x: Extent, vslab: nat)
      requires Matches(m) && MapOkBut(m, pm, x) && x in m && !x.slab
      modifies this, x`slab, x`vslab
      ensures Valid() && m == old(m)[x := old(m)[x].(slab := true, vslab := vslab)] && SameCover(old(m), m)
      ensures m[x].size > 0 && pm == SlabPages(old(pm), m[x], vslab)
    {
      hide MapOk, MapOkBut;
      ghost var m0, pm0 := m, pm;
      HasPagesBut(m, pm, x);
      x.slab := true;
      x.vslab := vslab;
      m := m[x := m[x].(slab := true, vslab := vslab)];
      RegisterInterior(x, vslab);
      StartedSlab(m0, pm0, pm, x, vslab);
    }
  }

  lemma HasPages(m: Extents, pm: Pages, x: Extent)
    requires MapOk(m, pm) && x in m
    ensures m[x].size > 0
  {
  }

  lemma HasPagesBut(m: Extents, pm: Pages, x: Extent)
    requires MapOkBut(m, pm, x) && x in m
    ensures m[x].size > 0
  {
  }

  lemma StateDoesNotShow(m: Extents, pm: Pages, x: Extent, st: State)
    requires MapOk(m, pm) && x in m
    ensures MapOk(m[x := m[x].(state := st)], pm) && SameCover(m, m[x := m[x].(state := st)])
  {
    assert Shows(x, m[x], pm);
    forall p | InRange(m[x], p) ensures ShowsAt(x, m[x].(state := st), pm, p) {
      assert ShowsAt(x, m[x], pm, p);
    }
    Rewritten(m, pm, pm, x, m[x].(state := st));
  }

  lemma SzindDoesNotShow(m: Extents, pm: Pages, x: Extent, szind: nat)
    requires MapOk(m, pm) && x in m
    ensures MapOk(m[x := m[x].(szind := szind)], pm) && SameCover(m, m[x := m[x].(szind := szind)])
  {
    assert Shows(x, m[x], pm);
    forall p | InRange(m[x], p) ensures ShowsAt(x, m[x].(szind := szind), pm, p) {
      assert ShowsAt(x, m[x], pm, p);
    }
    Rewritten(m, pm, pm, x, m[x].(szind := szind));
  }

  lemma StateDoesNotShowBut(m: Extents, pm: Pages, x: Extent, st: State, y: Extent)
    requires MapOkBut(m, pm, y) && x in m && x != y
    ensures MapOkBut(m[x := m[x].(state := st)], pm, y) && SameCover(m, m[x := m[x].(state := st)])
  {
    var c' := m[x].(state := st);
    var m' := m[x := c'];
    forall p ensures Covered(m', p) <==> Covered(m, p) {
      CoveredAlike(m, m', x, c', p);
    }
    forall p | InRange(m[x], p) ensures ShowsAt(x, c', pm, p) {
      assert Shows(x, m[x], pm) && ShowsAt(x, m[x], pm, p);
    }
    forall e, f | e in m' && f in m' && e != f ensures Apart(m'[e], m'[f]) {
      assert Apart(m[e], m[f]);
    }
  }

  /** The slab bit at an end of an extent carries no meaning for the agreement. */
  lemma SlabBitFree(m: Extents, pm: Pages, x: Extent, p: nat, slabBit: bool)
    requires MapOk(m, pm) && x in m && !m[x].slab && InRange(m[x], p) && IsEnd(m[x], p)
    ensures Get(pm, p).OfExtent? && Get(pm, p).extent == x && MapOk(m, pm[p := OfExtent(x, slabBit)])
  {
    assert Shows(x, m[x], pm) && ShowsAt(x, m[x], pm, p);
    var pm' := pm[p := OfExtent(x, slabBit)];
    forall q | InRange(m[x], q) ensures ShowsAt(x, m[x], pm', q) {
      assert ShowsAt(x, m[x], pm, q);
    }
    Rewritten(m, pm, pm', x, m[x]);
    assert m[x := m[x]] == m;
  }

  lemma EndedSlab(m: Extents, pm: Pages, pm': Pages, x: Extent)
    requires MapOk(m, pm) && x in m && SameOutside(pm, pm', m[x])
    requires forall p :: InRange(m[x], p) ==> Get(pm', p) == if IsEnd(m[x], p) then OfExtent(x, true) else NoEntry
    ensures var m' := m[x := m[x].(slab := false)]; MapOk(m', pm') && SameCover(m, m')
    ensures m[x].size > 0 && Get(pm', m[x].addr) == Get(pm', m[x].addr + m[x].size - 1) == OfExtent(x, true)
  {
    var c' := m[x].(slab := false);
    forall p | InRange(c', p) ensures ShowsAt(x, c', pm', p) {
      assert InRange(m[x], p);
    }
    assert InRange(m[x], m[x].addr) && IsEnd(m[x], m[x].addr) && IsEnd(m[x], m[x].addr + m[x].size - 1);
    assert InRange(m[x], m[x].addr + m[x].size - 1);
    Rewritten(m, pm, pm', x, c');
  }

  lemma StartedSlab(m: Extents, pm: Pages, pm': Pages, x: Extent, vslab: nat)
    requires MapOkBut(m, pm, x) && x in m && SameOutside(pm, pm', m[x])
    requires forall p :: InRange(m[x], p) ==> Get(pm', p) == OfSlab(vslab)
    ensures var m' := m[x := m[x].(slab := true, vslab := vslab)]; MapOk(m', pm') && SameCover(m, m')
  {
    var c' := m[x].(slab := true, vslab := vslab);
    forall p | InRange(c', p) ensures ShowsAt(x, c', pm', p) {
      assert InRange(m[x], p);
    }
    Rewritten(m, pm, pm', x, c');
  }

  /** The fields of the two parts. */
  method Cut(x: Extent, k: nat, szindA: nat, szindB: nat, ghost m: Extents) returns (trail: Extent, ghost m': Extents)
    requires Matches(m) && x in m && 0 < k < x.size
    modifies x`size, x`szind
    ensures fresh(trail) && trail !in m && m' == SplitCells(m, x, k, trail, szindA, szindB) && Matches(m')
    ensures trail.addr == m[x].addr + k
  {
    trail := new Extent(x.addr + k, x.size - k, x.arena, false, szindB, x.state);
    x.size := k;
    x.szind := szindA;
    m' := SplitCells(m, x, k, trail, szindA, szindB);
  }

  lemma SplitWrites(pm: Pages, c: Cell, k: nat, lead: Entry, t: Extent)
    requires 0 < k < c.size
    ensures pm[c.addr := lead][c.addr + k - 1 := lead][c.addr + k := OfExtent(t, false)][(c.addr + k) + (c.size - k) - 1 := OfExtent(t, false)]
         == SplitPages(pm, c, k, lead, t)
  {
  }

  lemma UncoveredShowsNothing(m0: Extents, pm0: Pages, c: Cell)
    requires NoStrays(m0, pm0) && forall p :: c.addr <= p < c.addr + c.size ==> !Covered(m0, p)
    ensures forall p :: InRange(c, p) ==> Get(pm0, p) == NoEntry
  {
  }

  lemma Registered(m0: Extents, pm0: Pages, m: Extents, pm: Pages, x: Extent, c: Cell, vslab: nat)
    requires MapOk(m0, pm0) && x !in m0 && c.size > 0 && (forall p :: c.addr <= p < c.addr + c.size ==> !Covered(m0, p)) && m == m0[x := c]
    requires c.slab ==> c.vslab == vslab
    requires pm == if c.slab then SlabPages(EndsShow(pm0, c, OfSlab(vslab)), c, vslab) else EndsShow(pm0, c, OfExtent(x, false))
    ensures MapOk(m, pm)
  {
    hide SlabPages;
    RegisterStart(m0, pm0, x, c);
    UncoveredShowsNothing(m0, pm0, c);
    if c.slab {
      SlabPagesShow(EndsShow(pm0, c, OfSlab(vslab)), c, vslab);
    }
    Rewritten(m, pm0, pm, x, c);
    assert m[x := c] == m;
  }

  lemma RegisterStart(m0: Extents, pm0: Pages, x: Extent, c: Cell)
    requires MapOk(m0, pm0) && x !in m0 && c.size > 0 && forall p :: c.addr <= p < c.addr + c.size ==> !Covered(m0, p)
    ensures MapOkBut(m0[x := c], pm0, x)
  {
    var m := m0[x := c];
    forall e, f | e in m && f in m && e != f ensures Apart(m[e], m[f]) {
      if e == x || f == x {
        var g := if e == x then f else e;
        ApartFrom(m0, g, c);
      } else {
        assert Apart(m0[e], m0[f]);
      }
    }
    forall p | p in pm0 && pm0[p] != NoEntry ensures Covered(m, p) {
      var e :| e in m0 && InRange(m0[e], p);
      assert InRange(m[e], p);
    }
  }

  lemma ApartFrom(m: Extents, g: Extent, c: Cell)
    requires g in m && m[g].size > 0 && c.size > 0 && forall p :: c.addr <= p < c.addr + c.size ==> !Covered(m, p)
    ensures Apart(m[g], c)
  {
    var p := if m[g].addr < c.addr then c.addr else m[g].addr;
    assert InRange(m[g], p) ==> Covered(m, p);
  }

  lemma DeregisterDone(m0: Extents, pm0: Pages, pm: Pages, x: Extent)
    requires MapOk(m0, pm0) && x in m0 && !m0[x].slab
    requires pm == pm0[m0[x].addr := NoEntry][m0[x].addr + m0[x].size - 1 := NoEntry]
    ensures MapOk(m0 - {x}, pm)
  {
    var m, c := m0 - {x}, m0[x];
    OthersShow(m0, pm0, pm, x, c);
    forall p | p in pm && pm[p] != NoEntry ensures Covered(m, p) {
      var e: Extent :| e in m0 && InRange(m0[e], p);
      assert e == x ==> ShowsAt(x, c, pm0, p);
      assert InRange(m[e], p);
    }
  }

  lemma SlabStrays(m0: Extents, pm: Pages, x: Extent)
    requires Disjoint(m0) && x in m0
    requires Get(pm, m0[x].addr) == OfExtent(x, true)
    ensures !MapOk(m0 - {x}, pm)
  {
    var m, p := m0 - {x}, m0[x].addr;
    forall e | e in m ensures !InRange(m[e], p) {
      assert Apart(m0[e], m0[x]);
    }
  }
}
