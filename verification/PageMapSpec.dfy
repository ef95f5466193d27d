/** Extents and the page map of src/extent.c: which entry each page shows, and what splitting and
    merging extents does to the map.  The radix tree is a map from page numbers here. */
module PageMapSpec {
  import opened PageClasses

  datatype State = Active | Dirty | Muzzy

  /** extent_t; addresses and sizes are in pages.  `vslab` is the slab that an extent in use as a
      slab belongs to. */
  class Extent {
    var addr: nat
    var size: nat
    var szind: nat
    var state: State
    var arena: nat
    var slab: bool
    ghost var vslab: nat

    constructor (a: nat, n: nat, ar: nat, sl: bool, sz: nat, st: State)
      ensures addr == a && size == n && arena == ar && slab == sl && szind == sz && state == st && vslab == 0
    {
      addr, size, arena, slab, szind, state := a, n, ar, sl, sz, st;
      vslab := 0;
    }
  }

  datatype Cell = Cell(addr: nat, size: nat, state: State, arena: nat, slab: bool, vslab: nat, szind: nat)

  /** A snapshot of all registered extents. */
  type Extents = map<Extent, Cell>

  ghost predicate Matches(m: Extents)
    reads m.Keys
  {
    forall e :: e in m ==> m[e] == Cell(e.addr, e.size, e.state, e.arena, e.slab, e.vslab, e.szind)
  }

  /** The entry of a page: an extent with the slab bit, or the vslab of a slab in use. */
  datatype Entry = NoEntry | OfExtent(extent: Extent, slabBit: bool) | OfSlab(vslab: nat)

  type Pages = map<nat, Entry>

  function Get(pm: Pages, p: nat): Entry {
    if p in pm then pm[p] else NoEntry
  }

  // ---------------------------------------------------------------------------------------
  // Agreement of extents and map
  // ---------------------------------------------------------------------------------------

  predicate InRange(c: Cell, p: nat) {
    c.addr <= p < c.addr + c.size
  }

  predicate IsEnd(c: Cell, p: nat) {
    c.size > 0 && (p == c.addr || p == c.addr + c.size - 1)
  }

  /** A slab shows its vslab on every page; any other extent shows itself on its first and its last
      page and nothing between. */
  ghost predicate Shows(e: Extent, c: Cell, pm: Pages) {
    forall p :: InRange(c, p) ==> ShowsAt(e, c, pm, p)
  }

  ghost predicate ShowsAt(e: Extent, c: Cell, pm: Pages, p: nat) {
    if c.slab then Get(pm, p) == OfSlab(c.vslab)
    else if IsEnd(c, p) then Get(pm, p) == OfExtent(e, false) || Get(pm, p) == OfExtent(e, true)
    else Get(pm, p) == NoEntry
  }

  ghost predicate Apart(c: Cell, d: Cell) {
    c.addr + c.size <= d.addr || d.addr + d.size <= c.addr
  }

  ghost predicate Disjoint(m: Extents) {
    && (forall e :: e in m ==> m[e].size > 0)
    && forall e, f :: e in m && f in m && e != f ==> Apart(m[e], m[f])
  }

  ghost predicate Covered(m: Extents, p: nat) {
    exists e :: e in m && InRange(m[e], p)
  }

  /** Only covered pages have an entry. */
  ghost predicate NoStrays(m: Extents, pm: Pages) {
    forall p :: p in pm && pm[p] != NoEntry ==> Covered(m, p)
  }

  /** The map agrees with the extents, except that nothing is said about the entries of x. */
  ghost predicate MapOkBut(m: Extents, pm: Pages, x: Extent) {
    Disjoint(m) && NoStrays(m, pm) && forall e :: e in m && e != x ==> Shows(e, m[e], pm)
  }

  ghost predicate MapOk(m: Extents, pm: Pages) {
    Disjoint(m) && NoStrays(m, pm) && forall e :: e in m ==> Shows(e, m[e], pm)
  }

  /** No page is lost or gained. */
  ghost predicate SameCover(m: Extents, m': Extents) {
    forall p :: Covered(m', p) <==> Covered(m, p)
  }

  /** What a page's entry says about the extents. */
  lemma EntryMeans(m: Extents, pm: Pages, p: nat)
    requires MapOk(m, pm)
    ensures match Get(pm, p)
            case NoEntry => forall e :: e in m && InRange(m[e], p) ==> !m[e].slab && !IsEnd(m[e], p)
            case OfExtent(e, _) => e in m && !m[e].slab && IsEnd(m[e], p)
            case OfSlab(v) => exists e :: e in m && InRange(m[e], p) && m[e].slab && m[e].vslab == v
  {
    if p in pm && pm[p] != NoEntry {
      var e :| e in m && InRange(m[e], p);
      assert ShowsAt(e, m[e], pm, p);
    } else {
      forall e | e in m && InRange(m[e], p) ensures !m[e].slab && !IsEnd(m[e], p) {
        assert ShowsAt(e, m[e], pm, p);
      }
    }
  }

  /** The neighbour that the map shows just past an extent starts there. */
  lemma PastIsNext(m: Extents, pm: Pages, e: Extent)
    requires MapOk(m, pm) && e in m && Get(pm, m[e].addr + m[e].size).OfExtent?
    ensures var n := Get(pm, m[e].addr + m[e].size).extent; n in m && n != e && !m[n].slab && m[n].addr == m[e].addr + m[e].size
  {
    var p := m[e].addr + m[e].size;
    EntryMeans(m, pm, p);
    var n := Get(pm, p).extent;
    assert Apart(m[e], m[n]) || n == e;
  }

  /** The neighbour that the map shows just before an extent ends there. */
  lemma BeforeIsPrev(m: Extents, pm: Pages, e: Extent)
    requires MapOk(m, pm) && e in m && m[e].addr > 0 && Get(pm, m[e].addr - 1).OfExtent?
    ensures var q := Get(pm, m[e].addr - 1).extent; q in m && q != e && !m[q].slab && m[q].addr + m[q].size == m[e].addr
  {
    var p := m[e].addr - 1;
    EntryMeans(m, pm, p);
    var q := Get(pm, p).extent;
    assert Apart(m[e], m[q]) || q == e;
  }

  // ---------------------------------------------------------------------------------------
  // Changing the entries of one extent
  // ---------------------------------------------------------------------------------------

  /** pm' differs from pm on pages of c only. */
  ghost predicate SameOutside(pm: Pages, pm': Pages, c: Cell) {
    forall p :: !InRange(c, p) ==> Get(pm', p) == Get(pm, p)
  }

  /** The entry e on the n pages from page a on. */
  function Filled(pm: Pages, a: nat, n: nat, e: Entry): Pages {
    if n == 0 then pm else Filled(pm, a, n - 1, e)[a + n - 1 := e]
  }

  lemma {:induction false} FilledAt(pm: Pages, a: nat, n: nat, e: Entry, p: nat)
    ensures Get(Filled(pm, a, n, e), p) == if a <= p < a + n then e else Get(pm, p)
  {
    if n > 0 {
      FilledAt(pm, a, n - 1, e, p);
    }
  }

  lemma FilledGet(pm: Pages, a: nat, n: nat, e: Entry)
    ensures forall p: nat :: Get(Filled(pm, a, n, e), p) == if a <= p < a + n then e else Get(pm, p)
  {
    forall p: nat ensures Get(Filled(pm, a, n, e), p) == if a <= p < a + n then e else Get(pm, p) {
      FilledAt(pm, a, n, e, p);
    }
  }

  lemma SlabPagesShow(pm: Pages, c: Cell, vslab: nat)
    requires c.size > 0
    ensures SameOutside(pm, SlabPages(pm, c, vslab), c) && forall p :: InRange(c, p) ==> Get(SlabPages(pm, c, vslab), p) == OfSlab(vslab)
  {
    hide Filled;
    var pm1, pm2 := Filled(pm, c.addr + 1, Inner(c), OfSlab(vslab)), SlabPages(pm, c, vslab);
    FilledGet(pm, c.addr + 1, Inner(c), OfSlab(vslab));
    assert forall p: nat :: Get(pm2, p) == if IsEnd(c, p) then OfSlab(vslab) else Get(pm1, p);
  }

  lemma EndPagesShow(pm: Pages, c: Cell, x: Extent)
    requires c.size > 0
    ensures SameOutside(pm, EndPages(pm, c, x), c)
    ensures forall p :: InRange(c, p) ==> Get(EndPages(pm, c, x), p) == if IsEnd(c, p) then OfExtent(x, true) else NoEntry
  {
    hide Filled;
    var pm1, pm2 := Filled(pm, c.addr + 1, Inner(c), NoEntry), EndPages(pm, c, x);
    FilledGet(pm, c.addr + 1, Inner(c), NoEntry);
    assert forall p: nat :: Get(pm2, p) == if IsEnd(c, p) then OfExtent(x, true) else Get(pm1, p);
  }

  function EndsShow(pm: Pages, c: Cell, e: Entry): Pages
    requires c.size > 0
  {
    pm[c.addr := e][c.addr + c.size - 1 := e]
  }

  function Inner(c: Cell): nat {
    if c.size > 2 then c.size - 2 else 0
  }

  /** The map when a slab shows its vslab. */
  function SlabPages(pm: Pages, c: Cell, vslab: nat): Pages
    requires c.size > 0
  {
    EndsShow(Filled(pm, c.addr + 1, Inner(c), OfSlab(vslab)), c, OfSlab(vslab))
  }

  /** The map when a slab has given its interior back: the ends show the extent, with the slab bit. */
  function EndPages(pm: Pages, c: Cell, x: Extent): Pages
    requires c.size > 0
  {
    EndsShow(Filled(pm, c.addr + 1, Inner(c), NoEntry), c, OfExtent(x, true))
  }

  lemma OthersShow(m: Extents, pm: Pages, pm': Pages, x: Extent, c: Cell)
    requires Disjoint(m) && x in m && m[x] == c && SameOutside(pm, pm', c)
    requires forall e :: e in m && e != x ==> Shows(e, m[e], pm)
    ensures forall e :: e in m && e != x ==> Shows(e, m[e], pm')
  {
    forall e | e in m && e != x ensures Shows(e, m[e], pm') {
      forall p | InRange(m[e], p) ensures ShowsAt(e, m[e], pm', p) {
        assert ShowsAt(e, m[e], pm, p) && Apart(m[e], m[x]);
      }
    }
  }

  /** Rewriting the entries of x alone. */
  lemma Rewritten(m: Extents, pm: Pages, pm': Pages, x: Extent, c': Cell)
    requires MapOkBut(m, pm, x) && x in m && SameOutside(pm, pm', m[x])
    requires c'.addr == m[x].addr && c'.size == m[x].size
    ensures MapOkBut(m[x := c'], pm', x) && SameCover(m, m[x := c'])
    ensures Shows(x, c', pm') ==> MapOk(m[x := c'], pm')
  {
    var m' := m[x := c'];
    OthersShow(m, pm, pm', x, m[x]);
    forall p ensures Covered(m', p) <==> Covered(m, p) {
      CoveredAlike(m, m', x, c', p);
    }
    forall p | p in pm' && pm'[p] != NoEntry ensures Covered(m', p) {
      if InRange(m[x], p) {
        assert InRange(m'[x], p);
      } else {
        assert Get(pm', p) == Get(pm, p);
      }
    }
    forall e, f | e in m' && f in m' && e != f ensures Apart(m'[e], m'[f]) {
      assert Apart(m[e], m[f]);
    }
  }

  lemma CoveredAlike(m: Extents, m': Extents, x: Extent, c': Cell, p: nat)
    requires x in m && m' == m[x := c'] && c'.addr == m[x].addr && c'.size == m[x].size
    ensures Covered(m', p) <==> Covered(m, p)
  {
    if Covered(m, p) {
      var e :| e in m && InRange(m[e], p);
      assert InRange(m'[e], p);
    }
    if Covered(m', p) {
      var e :| e in m' && InRange(m'[e], p);
      assert InRange(m[e], p);
    }
  }

  // ---------------------------------------------------------------------------------------
  // Split and merge
  // ---------------------------------------------------------------------------------------

  /** The extents after x is cut behind its first k pages, the rest going to t. */
  function SplitCells(m: Extents, x: Extent, k: nat, t: Extent, szindA: nat, szindB: nat): Extents
    requires x in m && k < m[x].size
  {
    var c := m[x];
    m[x := c.(size := k, szind := szindA)][t := Cell(c.addr + k, c.size - k, c.state, c.arena, false, 0, szindB)]
  }

  /** The map after extent_split_impl; `lead` is the entry written for the first part. */
  function SplitPages(pm: Pages, c: Cell, k: nat, lead: Entry, t: Extent): Pages
    requires 0 < k < c.size
  {
    pm[c.addr := lead][c.addr + k - 1 := lead]
      [c.addr + k := OfExtent(t, false)][c.addr + c.size - 1 := OfExtent(t, false)]
  }

  lemma SplitKeeps(m: Extents, pm: Pages, x: Extent, k: nat, lead: Entry, t: Extent, szindA: nat, szindB: nat)
    requires MapOk(m, pm) && x in m && t !in m && 0 < k < m[x].size && !m[x].slab
    ensures var m', pm' := SplitCells(m, x, k, t, szindA, szindB), SplitPages(pm, m[x], k, lead, t);
            && MapOkBut(m', pm', x) && SameCover(m, m')
            && (lead == OfExtent(x, false) ==> MapOk(m', pm'))
  {
    hide Disjoint, NoStrays, Shows, Covered;
    SplitDisjoint(m, x, k, t, szindA, szindB);
    SplitCover(m, x, k, t, szindA, szindB);
    SplitShows(m, pm, x, k, lead, t, szindA, szindB);
    SplitNoStrays(m, pm, x, k, lead, t, szindA, szindB);
  }

  lemma SplitDisjoint(m: Extents, x: Extent, k: nat, t: Extent, szindA: nat, szindB: nat)
    requires Disjoint(m) && x in m && t !in m && 0 < k < m[x].size
    ensures Disjoint(SplitCells(m, x, k, t, szindA, szindB))
  {
    var m' := SplitCells(m, x, k, t, szindA, szindB);
    forall e, f | e in m' && f in m' && e != f ensures Apart(m'[e], m'[f]) {
      assert e in m && f in m ==> Apart(m[e], m[f]);
      assert e != x && e != t ==> Apart(m[e], m[x]);
      assert f != x && f != t ==> Apart(m[f], m[x]);
    }
  }

  lemma SplitCover(m: Extents, x: Extent, k: nat, t: Extent, szindA: nat, szindB: nat)
    requires x in m && t !in m && 0 < k < m[x].size
    ensures SameCover(m, SplitCells(m, x, k, t, szindA, szindB))
  {
    var m' := SplitCells(m, x, k, t, szindA, szindB);
    forall p ensures Covered(m', p) <==> Covered(m, p) {
      if Covered(m, p) {
        var e: Extent :| e in m && InRange(m[e], p);
        if e == x {
          assert InRange(m'[x], p) || InRange(m'[t], p);
        } else {
          assert InRange(m'[e], p);
        }
      }
      if Covered(m', p) {
        var e: Extent :| e in m' && InRange(m'[e], p);
        assert InRange(m[if e == t then x else e], p);
      }
    }
  }

  lemma SplitShows(m: Extents, pm: Pages, x: Extent, k: nat, lead: Entry, t: Extent, szindA: nat, szindB: nat)
    requires MapOk(m, pm) && x in m && t !in m && 0 < k < m[x].size && !m[x].slab
    ensures var m', pm' := SplitCells(m, x, k, t, szindA, szindB), SplitPages(pm, m[x], k, lead, t);
            && (forall e :: e in m' && e != x ==> Shows(e, m'[e], pm'))
            && (lead == OfExtent(x, false) ==> Shows(x, m'[x], pm'))
  {
    var c, m', pm' := m[x], SplitCells(m, x, k, t, szindA, szindB), SplitPages(pm, m[x], k, lead, t);
    OthersShow(m, pm, pm', x, c);
    forall p | InRange(m'[t], p) ensures ShowsAt(t, m'[t], pm', p) {
      assert ShowsAt(x, c, pm, p);
    }
    if lead == OfExtent(x, false) {
      forall p | InRange(m'[x], p) ensures ShowsAt(x, m'[x], pm', p) {
        assert ShowsAt(x, c, pm, p);
      }
    }
  }

  lemma SplitNoStrays(m: Extents, pm: Pages, x: Extent, k: nat, lead: Entry, t: Extent, szindA: nat, szindB: nat)
    requires NoStrays(m, pm) && x in m && 0 < k < m[x].size && SameCover(m, SplitCells(m, x, k, t, szindA, szindB))
    ensures NoStrays(SplitCells(m, x, k, t, szindA, szindB), SplitPages(pm, m[x], k, lead, t))
  {
    var m', pm' := SplitCells(m, x, k, t, szindA, szindB), SplitPages(pm, m[x], k, lead, t);
    forall p | p in pm' && pm'[p] != NoEntry ensures Covered(m', p) {
      assert InRange(m[x], p) ==> Covered(m, p);
      assert !InRange(m[x], p) ==> p in pm && pm[p] == pm'[p];
    }
  }

  /** The extents after b, just behind a, has been merged into a. */
  function MergeCells(m: Extents, a: Extent, b: Extent): Extents
    requires a in m && b in m
  {
    m[a := m[a].(size := m[a].size + m[b].size, szind := MAX_PSZ_IDX)] - {b}
  }

  function MergePages(pm: Pages, c: Cell, d: Cell, a: Extent): Pages
    requires c.size > 0 && d.size > 0
  {
    pm[c.addr + c.size - 1 := NoEntry][d.addr := NoEntry][c.addr := OfExtent(a, false)][d.addr + d.size - 1 := OfExtent(a, false)]
  }

  ghost predicate Adjacent(m: Extents, a: Extent, b: Extent) {
    a in m && b in m && a != b && !m[a].slab && !m[b].slab && m[a].addr + m[a].size == m[b].addr
  }

  lemma MergeKeeps(m: Extents, pm: Pages, a: Extent, b: Extent)
    requires MapOk(m, pm) && Adjacent(m, a, b)
    ensures m[a].size > 0 && m[b].size > 0
    ensures var m', pm' := MergeCells(m, a, b), MergePages(pm, m[a], m[b], a);
            MapOk(m', pm') && SameCover(m, m')
  {
    hide NoStrays, Shows, Covered;
    MergeDisjoint(m, a, b);
    MergeCover(m, a, b);
    MergeShows(m, pm, a, b);
    MergeNoStrays(m, pm, a, b);
  }

  lemma MergeDisjoint(m: Extents, a: Extent, b: Extent)
    requires Disjoint(m) && Adjacent(m, a, b)
    ensures Disjoint(MergeCells(m, a, b))
  {
    var m' := MergeCells(m, a, b);
    forall e, f | e in m' && f in m' && e != f ensures Apart(m'[e], m'[f]) {
      assert Apart(m[e], m[f]);
      assert Apart(m[b], m[e]) && Apart(m[b], m[f]);
    }
  }

  lemma MergeCover(m: Extents, a: Extent, b: Extent)
    requires Adjacent(m, a, b)
    ensures SameCover(m, MergeCells(m, a, b))
  {
    var m' := MergeCells(m, a, b);
    forall p ensures Covered(m', p) <==> Covered(m, p) {
      if Covered(m, p) {
        var e: Extent :| e in m && InRange(m[e], p);
        assert InRange(m'[if e == b then a else e], p);
      }
      if Covered(m', p) {
        var e: Extent :| e in m' && InRange(m'[e], p);
        assert InRange(m[e], p) || (e == a && InRange(m[b], p));
      }
    }
  }

  lemma MergeShows(m: Extents, pm: Pages, a: Extent, b: Extent)
    requires MapOk(m, pm) && Adjacent(m, a, b)
    ensures m[a].size > 0 && m[b].size > 0
    ensures var m', pm' := MergeCells(m, a, b), MergePages(pm, m[a], m[b], a);
            forall e :: e in m' ==> Shows(e, m'[e], pm')
  {
    var c, d, m', pm' := m[a], m[b], MergeCells(m, a, b), MergePages(pm, m[a], m[b], a);
    forall e | e in m' ensures Shows(e, m'[e], pm') {
      forall p | InRange(m'[e], p) ensures ShowsAt(e, m'[e], pm', p) {
        if e == a {
          assert InRange(c, p) ==> ShowsAt(a, c, pm, p);
          assert InRange(d, p) ==> ShowsAt(b, d, pm, p);
        } else {
          assert Apart(m[e], c) && Apart(m[e], d) && ShowsAt(e, m[e], pm, p);
        }
      }
    }
  }

  lemma MergeNoStrays(m: Extents, pm: Pages, a: Extent, b: Extent)
    requires NoStrays(m, pm) && Adjacent(m, a, b) && m[a].size > 0 && m[b].size > 0 && SameCover(m, MergeCells(m, a, b))
    ensures NoStrays(MergeCells(m, a, b), MergePages(pm, m[a], m[b], a))
  {
    var m', pm' := MergeCells(m, a, b), MergePages(pm, m[a], m[b], a);
    forall p | p in pm' && pm'[p] != NoEntry ensures Covered(m', p) {
      assert InRange(m[a], p) || InRange(m[b], p) ==> Covered(m, p);
      assert !InRange(m[a], p) && !InRange(m[b], p) ==> p in pm && pm[p] == pm'[p];
    }
  }
}
