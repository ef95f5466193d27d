/** The sets of inactive extents of src/extent.c: heaps by page class, a bitmap of the heaps that
    are not empty, the list in order of insertion, and the page count. */
module ExtentSets {
  import opened PageMapSpec
  import opened PageClasses

  // ---------------------------------------------------------------------------------------
  // Coherence
  // ---------------------------------------------------------------------------------------

  ghost predicate NoDup(s: seq<Extent>) {
    forall i, j :: 0 <= i < j < |s| ==> s[i] != s[j]
  }

  ghost predicate Sized(m: Extents, s: seq<Extent>) {
    forall e :: e in s ==> e in m && 0 < m[e].size <= MAX_PAGES
  }

  ghost function PageSum(m: Extents, s: seq<Extent>): nat
    requires Sized(m, s)
  {
    if s == [] then 0 else m[s[0]].size + PageSum(m, s[1..])
  }

  /** A heap holds exactly the extents of the list whose size falls into its class. */
  ghost predicate HeapOk(m: Extents, lru: seq<Extent>, heap: set<Extent>, i: nat) {
    && (forall e :: e in heap ==> e in lru && e in m && Floor(m[e].size) == i)
    && (forall e :: e in lru && e in m && Floor(m[e].size) == i ==> e in heap)
  }

  ghost predicate HeapsOk(m: Extents, heaps: seq<set<Extent>>, lru: seq<Extent>) {
    |heaps| == MAX_PSZ_IDX + 1 && forall i :: 0 <= i < MAX_PSZ_IDX ==> HeapOk(m, lru, heaps[i], i)
  }

  ghost predicate Coherent(m: Extents, heaps: seq<set<Extent>>, bitmap: seq<bool>, lru: seq<Extent>, npages: nat) {
    && |heaps| == |bitmap| == MAX_PSZ_IDX + 1 && bitmap[MAX_PSZ_IDX]
    && NoDup(lru) && Sized(m, lru) && npages == PageSum(m, lru)
    && HeapsOk(m, heaps, lru)
    && (forall i :: 0 <= i < MAX_PSZ_IDX ==> (bitmap[i] <==> heaps[i] != {}))
  }

  lemma {:induction false} SumOfAppend(m: Extents, s: seq<Extent>, e: Extent)
    requires Sized(m, s + [e])
    ensures Sized(m, s) && e in m && PageSum(m, s + [e]) == PageSum(m, s) + m[e].size
  {
    assert forall x :: x in s ==> x in s + [e];
    assert e in s + [e];
    if s == [] {
      assert s + [e] == [e];
      assert [e][1..] == [];
    } else {
      assert (s + [e])[1..] == s[1..] + [e];
      SumOfAppend(m, s[1..], e);
    }
  }

  function Without(s: seq<Extent>, k: nat): seq<Extent>
    requires k < |s|
  {
    s[..k] + s[k + 1..]
  }

  lemma {:induction false} SumWithout(m: Extents, s: seq<Extent>, k: nat)
    requires Sized(m, s) && k < |s|
    ensures Sized(m, Without(s, k)) && PageSum(m, s) == PageSum(m, Without(s, k)) + m[s[k]].size
  {
    assert forall x :: x in Without(s, k) ==> x in s;
    if k == 0 {
      assert Without(s, 0) == s[1..];
    } else {
      SumWithout(m, s[1..], k - 1);
      assert Without(s, k)[1..] == Without(s[1..], k - 1);
    }
  }

  lemma WithoutIs(s: seq<Extent>, k: nat)
    requires NoDup(s) && k < |s|
    ensures NoDup(Without(s, k)) && forall x :: x in Without(s, k) <==> x in s && x != s[k]
  {
    var t := Without(s, k);
    forall x | x in s && x != s[k] ensures x in t {
      var i :| 0 <= i < |s| && s[i] == x;
      assert t[if i < k then i else i - 1] == x;
    }
    assert forall i :: 0 <= i < |t| ==> t[i] == s[if i < k then i else i + 1];
  }

  /** Sizes of other extents do not matter. */
  lemma {:induction false} SumFrame(m: Extents, m': Extents, s: seq<Extent>)
    requires Sized(m, s) && forall e :: e in s ==> e in m' && m'[e].size == m[e].size
    ensures Sized(m', s) && PageSum(m', s) == PageSum(m, s)
  {
    if s != [] {
      SumFrame(m, m', s[1..]);
    }
  }

  lemma CoherentFrame(m: Extents, m': Extents, heaps: seq<set<Extent>>, bitmap: seq<bool>, lru: seq<Extent>, npages: nat)
    requires Coherent(m, heaps, bitmap, lru, npages) && forall e :: e in lru ==> e in m' && m'[e].size == m[e].size
    ensures Coherent(m', heaps, bitmap, lru, npages)
  {
    SumFrame(m, m', lru);
    forall i | 0 <= i < MAX_PSZ_IDX ensures HeapOk(m', lru, heaps[i], i) {
      assert HeapOk(m, lru, heaps[i], i);
    }
  }

  lemma {:induction false} LowestExists(h: set<Extent>, m: Extents)
    requires h != {} && h <= m.Keys
    ensures exists e :: e in h && IsLowest(h, m, e)
  {
    var x :| x in h;
    var rest := h - {x};
    if rest == {} {
      assert IsLowest(h, m, x) by {
        forall f | f in h ensures m[x].addr <= m[f].addr {
          assert f !in rest;
        }
      }
    } else {
      LowestExists(rest, m);
      var y :| y in rest && IsLowest(rest, m, y);
      var e := if m[x].addr <= m[y].addr then x else y;
      assert forall f :: f in h ==> f in rest || f == x;
      assert e in h && IsLowest(h, m, e);
    }
  }

  ghost predicate IsLowest(h: set<Extent>, m: Extents, e: Extent) {
    e in m && forall f :: f in h && f in m ==> m[e].addr <= m[f].addr
  }

  // ---------------------------------------------------------------------------------------
  // extents_t
  // ---------------------------------------------------------------------------------------

  class ExtentSet {
    const state: State
    const delayCoalesce: bool
    var heaps: seq<set<Extent>>
    var bitmap: seq<bool>
    var lru: seq<Extent>
    var npages: nat

    ghost predicate Valid(m: Extents)
      reads this
    {
      Coherent(m, heaps, bitmap, lru, npages)
    }

    /** extents_init. */
    constructor (st: State, delay: bool, ghost m: Extents)
      ensures Valid(m) && lru == [] && state == st && delayCoalesce == delay
    {
      state, delayCoalesce := st, delay;
      heaps := seq(MAX_PSZ_IDX + 1, _ => {});
      bitmap := seq(MAX_PSZ_IDX + 1, _ => false)[MAX_PSZ_IDX := true];
      lru := [];
      npages := 0;
    }

    /** extents_insert_locked. */
    method Insert(e: Extent, ghost m: Extents)
      requires Valid(m) && Matches(m) && e in m && e !in lru && 0 < e.size <= MAX_PAGES && !e.slab && e.state == state
      modifies this
      ensures Valid(m) && lru == old(lru) + [e] && npages == old(npages) + e.size
    {
      hide Floor, Coherent;
      FloorIsFloor(e.size);
      InsertCoherent(m, heaps, bitmap, lru, npages, e);
      var pind := Floor(e.size);
      if heaps[pind] == {} {
        bitmap := bitmap[pind := true];
      }
      heaps := heaps[pind := heaps[pind] + {e}];
      lru := lru + [e];
      npages := npages + e.size;
    }

    /** extents_remove_locked; the bit of a heap that becomes empty is flipped. */
    method Remove(e: Extent, ghost m: Extents) returns (ghost k: nat)
      requires Valid(m) && Matches(m) && e in lru && e.state == state
      modifies this
      ensures Valid(m) && k < |old(lru)| && old(lru)[k] == e && lru == Without(old(lru), k) == RemoveFrom(old(lru), e)
      ensures npages + e.size == old(npages)
      ensures forall x :: x in lru <==> x in old(lru) && x != e
    {
      hide Floor, Coherent;
      k := Place(lru, e);
      RemoveCoherent(m, heaps, bitmap, lru, npages, e, k);
      WithoutIs(lru, k);
      var pind := Floor(e.size);
      heaps := heaps[pind := heaps[pind] - {e}];
      if heaps[pind] == {} {
        bitmap := bitmap[pind := !bitmap[pind]];
      }
      lru := RemoveFrom(lru, e);
      npages := npages - e.size;
    }

    /** extents_best_fit_locked.  The loop stops at the first heap that is not empty; with delayed
        coalescing it takes nothing from a class beyond 32 times the request. */
    method BestFit(npages: nat, ghost m: Extents) returns (ret: Extent?)
      requires Valid(m) && Matches(m) && npages <= MAX_PAGES
      ensures ret != null ==> IsBestFit(m, heaps, lru, delayCoalesce, npages, ret)
      ensures ret == null ==> forall e :: e in lru && PageClass(Lookup(npages)) <= m[e].size ==>
                                delayCoalesce && Floor(m[e].size) >= 0 && npages * 32 < PageClass(Floor(m[e].size))
    {
      hide Floor, Lookup, PageClass;
      LookupIsCeiling(npages);
      var pind := Lookup(npages);
      var i := FirstSet(bitmap, pind);
      ret := null;
      if i < MAX_PSZ_IDX {
        FirstHeap(m, heaps, bitmap, lru, this.npages, npages, i);
        LowestExists(heaps[i], m);
        var extent: Extent :| extent in heaps[i] && forall f :: f in heaps[i] ==> extent.addr <= f.addr;
        if !(delayCoalesce && PageClass(i) > npages * 32) {
          ret := extent;
        }
      }
      NothingBelow(m, heaps, bitmap, lru, this.npages, npages, i);
    }
  }

  /** ret is a lowest extent of the smallest class, at or above that of the request, that has any;
      and it is large enough. */
  ghost predicate IsBestFit(m: Extents, heaps: seq<set<Extent>>, lru: seq<Extent>, delay: bool, npages: nat, ret: Extent) {
    && ret in lru && ret in m && npages <= m[ret].size
    && var i := Floor(m[ret].size);
       && 0 <= i < |heaps| && IsLowest(heaps[i], m, ret) && (delay ==> PageClass(i) <= npages * 32)
       && forall e :: e in lru && e in m && PageClass(Lookup(npages)) <= m[e].size ==> i <= Floor(m[e].size)
  }

  /** bitmap_ffu on a bitmap whose last bit is set. */
  function FirstSet(bits: seq<bool>, i: nat): (k: nat)
    requires i < |bits| && bits[|bits| - 1]
    ensures i <= k < |bits| && bits[k] && forall j :: i <= j < k ==> !bits[j]
    decreases |bits| - i
  {
    if bits[i] then i else FirstSet(bits, i + 1)
  }

  lemma FirstHeap(m: Extents, heaps: seq<set<Extent>>, bitmap: seq<bool>, lru: seq<Extent>, sum: nat, npages: nat, i: nat)
    requires Coherent(m, heaps, bitmap, lru, sum) && npages <= MAX_PAGES && Lookup(npages) <= i < MAX_PSZ_IDX && bitmap[i]
    ensures heaps[i] != {} && heaps[i] <= m.Keys
    ensures forall e :: e in heaps[i] ==> e in lru && npages <= m[e].size && Floor(m[e].size) == i
  {
    hide Floor, Lookup;
    assert HeapOk(m, lru, heaps[i], i);
    forall e | e in heaps[i] ensures npages <= m[e].size {
      FloorFits(m[e].size, npages);
    }
  }

  /** Every sufficient extent stands on the first heap that is not empty, or behind it. */
  lemma NothingBelow(m: Extents, heaps: seq<set<Extent>>, bitmap: seq<bool>, lru: seq<Extent>, sum: nat, npages: nat, i: nat)
    requires Coherent(m, heaps, bitmap, lru, sum) && npages <= MAX_PAGES && Lookup(npages) <= i <= MAX_PSZ_IDX
    requires forall j :: Lookup(npages) <= j < i ==> !bitmap[j]
    ensures forall e :: e in lru && PageClass(Lookup(npages)) <= m[e].size ==>
              i <= Floor(m[e].size) < NUM_CLASSES && PageClass(i) <= PageClass(Floor(m[e].size))
  {
    hide Floor, Lookup, PageClass;
    forall e | e in lru && PageClass(Lookup(npages)) <= m[e].size
      ensures i <= Floor(m[e].size) < NUM_CLASSES && PageClass(i) <= PageClass(Floor(m[e].size))
    {
      FitsFloor(m[e].size, npages);
      FloorIsFloor(m[e].size);
      var k := Floor(m[e].size);
      assert HeapOk(m, lru, heaps[k], k) && e in heaps[k];
      if i < k {
        PageClassMonotone(i, k);
      }
    }
  }

  lemma Place(s: seq<Extent>, e: Extent) returns (k: nat)
    requires e in s
    ensures k < |s| && s[k] == e
  {
    k :| 0 <= k < |s| && s[k] == e;
  }

  /** Unlinking from the list. */
  function RemoveFrom(s: seq<Extent>, e: Extent): seq<Extent> {
    if s == [] then [] else if s[0] == e then s[1..] else [s[0]] + RemoveFrom(s[1..], e)
  }

  lemma {:induction false} RemoveFromIs(s: seq<Extent>, e: Extent, k: nat)
    requires NoDup(s) && k < |s| && s[k] == e
    ensures RemoveFrom(s, e) == Without(s, k)
  {
    if k > 0 {
      RemoveFromIs(s[1..], e, k - 1);
      assert Without(s, k) == [s[0]] + Without(s[1..], k - 1);
    } else {
      assert Without(s, 0) == s[1..];
    }
  }

  lemma InsertCoherent(m: Extents, heaps: seq<set<Extent>>, bitmap: seq<bool>, lru: seq<Extent>, npages: nat, e: Extent)
    requires Coherent(m, heaps, bitmap, lru, npages) && e in m && e !in lru && 0 < m[e].size <= MAX_PAGES
    requires 0 <= Floor(m[e].size) < NUM_CLASSES
    ensures |heaps| == |bitmap| == MAX_PSZ_IDX + 1
    ensures var i := Floor(m[e].size);
            Coherent(m, heaps[i := heaps[i] + {e}], if heaps[i] == {} then bitmap[i := true] else bitmap, lru + [e], npages + m[e].size)
  {
    hide Floor;
    var i, lru' := Floor(m[e].size), lru + [e];
    var heaps' := heaps[i := heaps[i] + {e}];
    assert Sized(m, lru');
    SumOfAppend(m, lru, e);
    forall j | 0 <= j < MAX_PSZ_IDX ensures HeapOk(m, lru', heaps'[j], j) {
      assert HeapOk(m, lru, heaps[j], j);
    }
    assert heaps'[i] != {} by {
      assert e in heaps'[i];
    }
  }

  lemma HeapsAfterRemove(m: Extents, heaps: seq<set<Extent>>, lru: seq<Extent>, lru': seq<Extent>, e: Extent, i: nat)
    requires HeapsOk(m, heaps, lru) && e in lru && e in m && Floor(m[e].size) == i < MAX_PSZ_IDX
    requires forall x :: x in lru' <==> x in lru && x != e
    ensures e in heaps[i] && HeapsOk(m, heaps[i := heaps[i] - {e}], lru')
  {
    hide Floor;
    assert HeapOk(m, lru, heaps[i], i);
    var heaps' := heaps[i := heaps[i] - {e}];
    forall j | 0 <= j < MAX_PSZ_IDX ensures HeapOk(m, lru', heaps'[j], j) {
      assert HeapOk(m, lru, heaps[j], j);
    }
  }

  lemma RemoveCoherent(m: Extents, heaps: seq<set<Extent>>, bitmap: seq<bool>, lru: seq<Extent>, npages: nat, e: Extent, k: nat)
    requires Coherent(m, heaps, bitmap, lru, npages) && k < |lru| && lru[k] == e
    ensures |heaps| == |bitmap| == MAX_PSZ_IDX + 1 && e in m && 0 <= Floor(m[e].size) < NUM_CLASSES && m[e].size <= npages
    ensures NoDup(lru) && RemoveFrom(lru, e) == Without(lru, k)
    ensures var i := Floor(m[e].size); var heaps' := heaps[i := heaps[i] - {e}];
            Coherent(m, heaps', if heaps'[i] == {} then bitmap[i := !bitmap[i]] else bitmap, Without(lru, k), npages - m[e].size)
  {
    hide Floor, HeapOk, Without, RemoveFrom;
    assert e in lru;
    FloorIsFloor(m[e].size);
    RemoveFromIs(lru, e, k);
    WithoutIs(lru, k);
    SumWithout(m, lru, k);
    HeapsAfterRemove(m, heaps, lru, Without(lru, k), e, Floor(m[e].size));
  }
}
